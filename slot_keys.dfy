/** `getAppointmentKey`: appointments are stored under `yyyy-MM-dd_time`, and
    the app reads a key back by splitting it on `_`: piece 0 is the day and
    piece 1 the time. */
module SlotKeys {
  import opened Wrappers
  import opened Text
  import opened Dates
  import opened DateFormat

  const SEP := '_'

  function AppointmentKey(d: Date, time: string): (key: string)
    ensures |key| >= 11
  {
    IsoDate(d) + [SEP] + time
  }

  /** A calendar slot `{ date, time }`. */
  datatype Slot = Slot(date: Date, time: string)

  /** The key a slot's appointment is stored under. */
  function SlotKey(slot: Slot): string {
    AppointmentKey(slot.date, slot.time)
  }

  /** `key.split('_')[0]`. */
  function KeyDate(key: string): string {
    Piece(key, SEP, 0)
  }

  /** `key.split('_')[1]`, "" when there is no `_`. */
  function KeyTime(key: string): string {
    Piece(key, SEP, 1)
  }

  /** A written date holds digits and dashes only. */
  lemma NoSeparatorInDate(d: Date)
    ensures SEP !in IsoDate(d)
  {
    var y, m, n := Digits(YearOfEra(d.year), 4), Digits(d.month, 2), Digits(d.day, 2);
    assert IsoDate(d) == y + "-" + m + "-" + n;
    forall i | 0 <= i < |IsoDate(d)| ensures IsoDate(d)[i] != SEP {
      if i < |y| {
        assert IsoDate(d)[i] == y[i];
      } else if i == |y| {
      } else if i < |y| + 1 + |m| {
        assert IsoDate(d)[i] == m[i - |y| - 1];
      } else if i == |y| + 1 + |m| {
      } else {
        assert IsoDate(d)[i] == n[i - |y| - 2 - |m|];
      }
    }
  }

  /** Splitting a key gives back its day and, for a time without `_`, its time. */
  lemma KeyParts(d: Date, time: string)
    ensures KeyDate(AppointmentKey(d, time)) == IsoDate(d)
    ensures SEP !in time ==> KeyTime(AppointmentKey(d, time)) == time
    ensures StartsWith(AppointmentKey(d, time), IsoDate(d))
  {
    NoSeparatorInDate(d);
    SplitAfter(IsoDate(d), SEP, time);
    if SEP !in time {
      SplitWithoutSeparator(time, SEP);
    }
  }

  /** The day of a key reads back as the date it was made from. */
  lemma KeyDateParses(d: Date, time: string)
    requires FourDigitYear(d)
    ensures ParseIsoDate(KeyDate(AppointmentKey(d, time))) == Some(d)
  {
    KeyParts(d, time);
    ParseIsoDateRoundTrip(d);
  }

  /** Different slots of four-digit years have different keys. */
  lemma KeyInjective(d1: Date, t1: string, d2: Date, t2: string)
    requires FourDigitYear(d1) && FourDigitYear(d2)
    requires AppointmentKey(d1, t1) == AppointmentKey(d2, t2)
    ensures d1 == d2 && t1 == t2
  {
    NoSeparatorInDate(d1);
    NoSeparatorInDate(d2);
    FirstSeparatorUnique(IsoDate(d1), t1, IsoDate(d2), t2, SEP);
    IsoDateInjective(d1, d2);
  }
}
