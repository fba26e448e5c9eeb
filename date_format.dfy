/** The date-fns `format`, `parse("HH:mm")` and `parseISO` patterns the app uses,
    on the calendar dates of `Dates`, in the `en-US` locale. */
module DateFormat {
  import opened Wrappers
  import opened Text
  import opened Dates

  const MonthNames: seq<string> := ["January", "February", "March", "April", "May", "June",
    "July", "August", "September", "October", "November", "December"]

  const WeekdayNames: seq<string> := ["Sunday", "Monday", "Tuesday", "Wednesday", "Thursday",
    "Friday", "Saturday"]

  /** The year date-fns' `yyyy` prints: the year of the era, so the year before
      year 1 prints as 1 as well. */
  function YearOfEra(y: int): (n: nat)
    ensures n >= 1
    ensures y >= 1 ==> n == y
  {
    if y > 0 then y else 1 - y
  }

  /** Pattern `MMMM`. */
  function MonthName(d: Date): string {
    MonthNames[d.month - 1]
  }

  /** Pattern `yyyy`. */
  function YearText(d: Date): string {
    Digits(YearOfEra(d.year), 4)
  }

  /** Pattern `d`. */
  function DayText(d: Date): string {
    Digits(d.day, 0)
  }

  /** Pattern `MMMM d, yyyy`. */
  function LongDate(d: Date): string {
    MonthName(d) + " " + DayText(d) + ", " + YearText(d)
  }

  /** Pattern `MMMM yyyy`. */
  function MonthYear(d: Date): string {
    MonthName(d) + " " + YearText(d)
  }

  /** Pattern `MMMM d`. */
  function MonthDay(d: Date): string {
    MonthName(d) + " " + DayText(d)
  }

  /** Pattern `d, yyyy`. */
  function DayYear(d: Date): string {
    DayText(d) + ", " + YearText(d)
  }

  /** Pattern `EEEE, MMMM d, yyyy`. */
  function FullDate(d: Date): string {
    WeekdayNames[Weekday(d)] + ", " + LongDate(d)
  }

  /** Pattern `yyyy-MM-dd`. */
  function IsoDate(d: Date): (s: string)
    ensures |s| >= 10
  {
    Digits(YearOfEra(d.year), 4) + "-" + Digits(d.month, 2) + "-" + Digits(d.day, 2)
  }

  /** `parseISO` on the `yyyy-MM-dd` form that appointment keys carry; any other
      text gives nothing here (an Invalid Date). The other ISO forms date-fns also
      reads ("2025-06", "20250604", week dates) are not modelled. */
  function ParseIsoDate(s: string): (r: Option<Date>)
    ensures r.Some? ==> |s| == 10 && IsoDate(r.value) == s
  {
    if |s| == 10 && AllDigits(s[..4]) && s[4] == '-' && AllDigits(s[5..7]) && s[7] == '-'
      && AllDigits(s[8..])
    then
      var y := ParseDigits(s[..4]);
      var m := ParseDigits(s[5..7]);
      var d := ParseDigits(s[8..]);
      if 1 <= m <= 12 && 1 <= d <= DaysInMonth(y, m) && y >= 1 then
        DigitsOfParseDigits(s[..4]);
        DigitsOfParseDigits(s[5..7]);
        DigitsOfParseDigits(s[8..]);
        assert s == s[..4] + "-" + s[5..7] + "-" + s[8..];
        var date: Date := CalendarDate(y, m, d);
        Some(date)
      else None
    else None
  }

  // ---------------------------------------------------------------- round trips

  /** Years with four digits, the ones `yyyy-MM-dd` reads back. */
  predicate FourDigitYear(d: Date) {
    1 <= d.year <= 9999
  }

  /** A formatted four-digit-year date is exactly ten characters, digits where
      digits belong. */
  lemma IsoDateShape(d: Date)
    requires FourDigitYear(d)
    ensures |IsoDate(d)| == 10
    ensures AllDigits(IsoDate(d)[..4]) && IsoDate(d)[4] == '-'
    ensures AllDigits(IsoDate(d)[5..7]) && IsoDate(d)[7] == '-' && AllDigits(IsoDate(d)[8..])
    ensures IsoDate(d)[..4] == Digits(d.year, 4)
    ensures IsoDate(d)[5..7] == Digits(d.month, 2)
    ensures IsoDate(d)[8..] == Digits(d.day, 2)
  {
    DigitsExactWidth(d.year, 4);
    DigitsExactWidth(d.month, 2);
    DigitsExactWidth(d.day, 2);
  }

  /** `parseISO(format(d, 'yyyy-MM-dd'))` gives back `d`. */
  lemma ParseIsoDateRoundTrip(d: Date)
    requires FourDigitYear(d)
    ensures ParseIsoDate(IsoDate(d)) == Some(d)
  {
    var s := IsoDate(d);
    IsoDateShape(d);
    ParseDigitsOfDigits(d.year, 4);
    ParseDigitsOfDigits(d.month, 2);
    ParseDigitsOfDigits(d.day, 2);
  }

  /** Different four-digit-year dates are written differently. */
  lemma IsoDateInjective(a: Date, b: Date)
    requires FourDigitYear(a) && FourDigitYear(b)
    requires IsoDate(a) == IsoDate(b)
    ensures a == b
  {
    ParseIsoDateRoundTrip(a);
    ParseIsoDateRoundTrip(b);
  }

  /** Year 0 and year 1 both print as `0001`: without the four-digit bound the
      written form does not identify the date. */
  lemma YearZeroPrintsAsOne()
    ensures IsoDate(CalendarDate(0, 1, 1)) == IsoDate(CalendarDate(1, 1, 1))
  {
  }

  // ---------------------------------------------------------------- times of day

  /** `HH:mm` for a minute of the day. */
  function TimeLabel(minute: int): (s: string)
    requires 0 <= minute < 1440
    ensures |s| == 5
  {
    TwoDigits(minute / 60);
    TwoDigits(minute % 60);
    Digits(minute / 60, 2) + ":" + Digits(minute % 60, 2)
  }

  /** The hour of `parse(time, 'HH:mm', …)` on a two-digit `HH:mm` label, or nothing
      for any other text (an Invalid Date, whose hour compares false with
      everything). A one-digit hour, which date-fns would also read, is not
      modelled: slot labels always have two digits. */
  function SlotHour(time: string): (h: Option<int>)
    ensures h.Some? ==> 0 <= h.value < 24
  {
    if |time| == 5 && AllDigits(time[..2]) && time[2] == ':' && AllDigits(time[3..])
      && ParseDigits(time[..2]) < 24 && ParseDigits(time[3..]) < 60
    then Some(ParseDigits(time[..2]))
    else None
  }

  lemma TimeLabelParts(minute: int)
    requires 0 <= minute < 1440
    ensures TimeLabel(minute)[..2] == Digits(minute / 60, 2)
    ensures TimeLabel(minute)[2] == ':'
    ensures TimeLabel(minute)[3..] == Digits(minute % 60, 2)
  {
    TwoDigits(minute / 60);
    TwoDigits(minute % 60);
  }

  /** A time on the hour prints as the two-digit hour and `:00`. */
  lemma TimeLabelOnHour(h: int)
    requires 0 <= h < 24
    ensures TimeLabel(h * 60) == Digits(h, 2) + ":00"
  {
    assert h * 60 / 60 == h && h * 60 % 60 == 0;
    TwoDigits(0);
  }

  /** Parsing a printed time gives back its hour. */
  lemma SlotHourOfLabel(minute: int)
    requires 0 <= minute < 1440
    ensures SlotHour(TimeLabel(minute)) == Some(minute / 60)
  {
    TimeLabelParts(minute);
    ParseDigitsOfDigits(minute / 60, 2);
    ParseDigitsOfDigits(minute % 60, 2);
  }

  /** Later times print as strings that sort later, so sorting labels with
      `localeCompare` sorts them by time. */
  lemma TimeLabelOrder(a: int, b: int)
    requires 0 <= a < b < 1440
    ensures LexLess(TimeLabel(a), TimeLabel(b))
  {
    var s, t := TimeLabel(a), TimeLabel(b);
    TimeLabelParts(a);
    TimeLabelParts(b);
    TwoDigits(a / 60);
    TwoDigits(b / 60);
    TwoDigits(a % 60);
    TwoDigits(b % 60);
    if a / 60 / 10 != b / 60 / 10 {
      LexLessAt(s, t, 0);
    } else if a / 60 % 10 != b / 60 % 10 {
      assert s[..1] == t[..1];
      LexLessAt(s, t, 1);
    } else if a % 60 / 10 != b % 60 / 10 {
      assert s[..3] == t[..3];
      LexLessAt(s, t, 3);
    } else {
      assert s[..4] == t[..4];
      LexLessAt(s, t, 4);
    }
  }

  /** Different minutes print differently. */
  lemma TimeLabelInjective(a: int, b: int)
    requires 0 <= a < 1440 && 0 <= b < 1440
    requires TimeLabel(a) == TimeLabel(b)
    ensures a == b
  {
    if a < b {
      TimeLabelOrder(a, b);
      LexLessIrreflexive(TimeLabel(a));
    } else if b < a {
      TimeLabelOrder(b, a);
      LexLessIrreflexive(TimeLabel(a));
    }
  }
}
