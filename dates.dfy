/** Calendar dates in the proleptic Gregorian calendar, standing for the
    local-time `Date` values the app passes to date-fns. Only the calendar day
    matters to the app (every date it compares is a start of day, or a day
    formatted as `yyyy-MM-dd`), so a date here is a year, a month and a day.

    Days are numbered consecutively from 0001-01-01 (day 0, a Monday); date-fns'
    `addDays`, `startOfWeek`, `endOfWeek`, `startOfMonth`, `endOfMonth`,
    `eachDayOfInterval`, `getDay` and `addMonths` are defined on top of that. */
module Dates {

  datatype CalendarDate = CalendarDate(year: int, month: int, day: int)

  type Date = d: CalendarDate | 1 <= d.month <= 12 && 1 <= d.day <= DaysInMonth(d.year, d.month)
    witness CalendarDate(1970, 1, 1)

  predicate IsLeapYear(y: int) {
    y % 4 == 0 && (y % 100 != 0 || y % 400 == 0)
  }

  function DaysInMonth(y: int, m: int): (n: int)
    requires 1 <= m <= 12
    ensures 28 <= n <= 31
  {
    if m == 2 then (if IsLeapYear(y) then 29 else 28)
    else if m == 4 || m == 6 || m == 9 || m == 11 then 30
    else 31
  }

  function YearLength(y: int): int {
    if IsLeapYear(y) then 366 else 365
  }

  /** Days from 0001-01-01 to the first of January of year `y` (negative before year 1). */
  function DaysBeforeYear(y: int): int {
    var p := y - 1;
    365 * p + p / 4 - p / 100 + p / 400
  }

  /** Days from the first of January to the first of month `m`. */
  function DaysBeforeMonth(y: int, m: int): (n: int)
    requires 1 <= m <= 12
    ensures 0 <= n <= 335
  {
    var cumulative := [0, 31, 59, 90, 120, 151, 181, 212, 243, 273, 304, 334];
    cumulative[m - 1] + (if m > 2 && IsLeapYear(y) then 1 else 0)
  }

  /** The running number of the day, 0001-01-01 being day 0. */
  function DayNumber(d: Date): int {
    DaysBeforeYear(d.year) + DaysBeforeMonth(d.year, d.month) + d.day - 1
  }

  /** `getDay`: 0 for Sunday up to 6 for Saturday. */
  function Weekday(d: Date): (w: int)
    ensures 0 <= w < 7
  {
    (DayNumber(d) + 1) % 7
  }

  function NextDay(d: Date): Date {
    if d.day < DaysInMonth(d.year, d.month) then CalendarDate(d.year, d.month, d.day + 1)
    else if d.month < 12 then CalendarDate(d.year, d.month + 1, 1)
    else CalendarDate(d.year + 1, 1, 1)
  }

  function PrevDay(d: Date): Date {
    if d.day > 1 then CalendarDate(d.year, d.month, d.day - 1)
    else if d.month > 1 then CalendarDate(d.year, d.month - 1, DaysInMonth(d.year, d.month - 1))
    else CalendarDate(d.year - 1, 12, 31)
  }

  /** `addDays(d, n)`, for any whole `n`. */
  function AddDays(d: Date, n: int): Date
    decreases if n < 0 then -n else n
  {
    if n == 0 then d
    else if n > 0 then AddDays(NextDay(d), n - 1)
    else AddDays(PrevDay(d), n + 1)
  }

  // ---------------------------------------------------------------- the day count

  lemma DivStep4(p: int)
    ensures (p + 1) / 4 - p / 4 == if (p + 1) % 4 == 0 then 1 else 0
  {
  }

  lemma DivStep100(p: int)
    ensures (p + 1) / 100 - p / 100 == if (p + 1) % 100 == 0 then 1 else 0
  {
  }

  lemma DivStep400(p: int)
    ensures (p + 1) / 400 - p / 400 == if (p + 1) % 400 == 0 then 1 else 0
  {
  }

  /** Consecutive years start `YearLength` days apart. */
  lemma YearStep(y: int)
    ensures DaysBeforeYear(y + 1) == DaysBeforeYear(y) + YearLength(y)
  {
    DivStep4(y - 1);
    DivStep100(y - 1);
    DivStep400(y - 1);
  }

  lemma MonthStep(y: int, m: int)
    requires 1 <= m < 12
    ensures DaysBeforeMonth(y, m + 1) == DaysBeforeMonth(y, m) + DaysInMonth(y, m)
  {
  }

  lemma LastMonthEnds(y: int)
    ensures DaysBeforeMonth(y, 12) + 31 == YearLength(y)
  {
  }

  /** The day after a date is numbered one higher. */
  lemma NextDayNumber(d: Date)
    ensures DayNumber(NextDay(d)) == DayNumber(d) + 1
  {
    if d.day == DaysInMonth(d.year, d.month) {
      if d.month < 12 {
        MonthStep(d.year, d.month);
      } else {
        YearStep(d.year);
        LastMonthEnds(d.year);
      }
    }
  }

  lemma NextPrev(d: Date)
    ensures NextDay(PrevDay(d)) == d
    ensures DayNumber(PrevDay(d)) == DayNumber(d) - 1
  {
    NextDayNumber(PrevDay(d));
  }

  lemma PrevNext(d: Date)
    ensures PrevDay(NextDay(d)) == d
  {
  }

  /** `addDays` moves the day number by exactly `n`. */
  lemma {:induction false} AddDaysNumber(d: Date, n: int)
    ensures DayNumber(AddDays(d, n)) == DayNumber(d) + n
    decreases if n < 0 then -n else n
  {
    if n > 0 {
      NextDayNumber(d);
      AddDaysNumber(NextDay(d), n - 1);
    } else if n < 0 {
      NextPrev(d);
      AddDaysNumber(PrevDay(d), n + 1);
    }
  }

  /** Adding days in two steps is adding them at once. */
  lemma {:induction false} AddDaysAdd(d: Date, m: int, n: int)
    ensures AddDays(AddDays(d, m), n) == AddDays(d, m + n)
  {
    AddDaysNumber(AddDays(d, m), n);
    AddDaysNumber(d, m + n);
    AddDaysNumber(d, m);
    DayNumberInjective(AddDays(AddDays(d, m), n), AddDays(d, m + n));
  }

  lemma {:induction false} DaysBeforeYearIncreasing(a: int, b: int)
    requires a < b
    ensures DaysBeforeYear(a) + YearLength(a) <= DaysBeforeYear(b)
    decreases b - a
  {
    YearStep(a);
    if a + 1 < b {
      DaysBeforeYearIncreasing(a + 1, b);
    }
  }

  lemma DayNumberInYear(d: Date)
    ensures DaysBeforeYear(d.year) <= DayNumber(d) < DaysBeforeYear(d.year) + YearLength(d.year)
  {
  }

  /** Earlier dates (year, then month, then day) have smaller day numbers. */
  predicate Before(a: Date, b: Date) {
    a.year < b.year
    || (a.year == b.year && a.month < b.month)
    || (a.year == b.year && a.month == b.month && a.day < b.day)
  }

  lemma {:induction false} MonthsIncreasing(y: int, a: int, b: int)
    requires 1 <= a < b <= 12
    ensures DaysBeforeMonth(y, a) + DaysInMonth(y, a) <= DaysBeforeMonth(y, b)
    decreases b - a
  {
    MonthStep(y, a);
    if a + 1 < b {
      MonthsIncreasing(y, a + 1, b);
    }
  }

  lemma DayNumberMonotone(a: Date, b: Date)
    requires Before(a, b)
    ensures DayNumber(a) < DayNumber(b)
  {
    if a.year < b.year {
      DayNumberInYear(a);
      DayNumberInYear(b);
      DaysBeforeYearIncreasing(a.year, b.year);
    } else if a.month < b.month {
      MonthsIncreasing(a.year, a.month, b.month);
    }
  }

  /** Different dates have different day numbers. */
  lemma DayNumberInjective(a: Date, b: Date)
    requires DayNumber(a) == DayNumber(b)
    ensures a == b
  {
    if Before(a, b) {
      DayNumberMonotone(a, b);
    } else if Before(b, a) {
      DayNumberMonotone(b, a);
    }
  }

  /** Comparing day numbers is comparing dates. */
  lemma DayNumberOrder(a: Date, b: Date)
    ensures DayNumber(a) < DayNumber(b) <==> Before(a, b)
  {
    if Before(a, b) {
      DayNumberMonotone(a, b);
    } else if Before(b, a) {
      DayNumberMonotone(b, a);
    }
  }

  lemma WeekdayOfNumber(d: Date, n: int)
    requires DayNumber(d) == n
    ensures Weekday(d) == (n + 1) % 7
  {
  }

  lemma ModNext(n: int)
    ensures (n + 2) % 7 == ((n + 1) % 7 + 1) % 7
  {
  }

  lemma ModBack(n: int, k: int)
    requires k == (n + 1) % 7
    ensures (n - k + 1) % 7 == 0
    ensures (n - k + 6 + 1) % 7 == 6
  {
  }

  /** The day of the week advances by one each day. */
  lemma NextDayWeekday(d: Date)
    ensures Weekday(NextDay(d)) == (Weekday(d) + 1) % 7
  {
    var n := DayNumber(d);
    NextDayNumber(d);
    WeekdayOfNumber(d, n);
    WeekdayOfNumber(NextDay(d), n + 1);
    ModNext(n);
  }

  // ---------------------------------------------------------------- weeks and months

  /** `startOfWeek(d, { weekStartsOn: 0 })`: the Sunday on or before `d`. */
  function WeekStart(d: Date): Date {
    AddDays(d, -Weekday(d))
  }

  /** `endOfWeek(d, { weekStartsOn: 0 })`: the Saturday on or after `d`. */
  function WeekEnd(d: Date): Date {
    AddDays(d, 6 - Weekday(d))
  }

  /** `eachDayOfInterval({ start, end })`: every day from `start` to `end`, both
      included, or none when `end` comes first. */
  function EachDay(start: Date, end: Date): (days: seq<Date>)
    ensures |days| == if DayNumber(end) < DayNumber(start) then 0 else DayNumber(end) - DayNumber(start) + 1
  {
    var n := DayNumber(end) - DayNumber(start) + 1;
    if n <= 0 then [] else seq(n, i => AddDays(start, i))
  }

  /** `getWeekDays`: the seven days, Sunday to Saturday, of the week holding `d`. */
  function WeekDays(d: Date): (days: seq<Date>)
  {
    EachDay(WeekStart(d), WeekEnd(d))
  }

  function MonthStart(d: Date): Date {
    CalendarDate(d.year, d.month, 1)
  }

  function MonthEnd(d: Date): Date {
    CalendarDate(d.year, d.month, DaysInMonth(d.year, d.month))
  }

  /** `getMonthGridDays`: whole weeks, Sunday to Saturday, covering the month of `d`. */
  function MonthGridDays(d: Date): seq<Date> {
    EachDay(WeekStart(MonthStart(d)), WeekEnd(MonthEnd(d)))
  }

  /** `addMonths(d, n)`: the same day `n` months later, moved back to the
      month's last day when the month is shorter. */
  function AddMonths(d: Date, n: int): (r: Date)
    ensures r.year * 12 + r.month == d.year * 12 + d.month + n
    ensures r.day == if d.day <= DaysInMonth(r.year, r.month) then d.day else DaysInMonth(r.year, r.month)
  {
    var index := d.year * 12 + (d.month - 1) + n;
    var y := index / 12;
    var m := index % 12 + 1;
    var last := DaysInMonth(y, m);
    CalendarDate(y, m, if d.day <= last then d.day else last)
  }

  // ---------------------------------------------------------------- facts about weeks

  lemma WeekStartFacts(d: Date)
    ensures DayNumber(WeekStart(d)) == DayNumber(d) - Weekday(d)
    ensures Weekday(WeekStart(d)) == 0
    ensures DayNumber(WeekEnd(d)) == DayNumber(WeekStart(d)) + 6
    ensures Weekday(WeekEnd(d)) == 6
  {
    WeekStartDay(d);
    WeekEndDay(d);
  }

  /** `startOfWeek` goes back to the Sunday on or before `d`. */
  lemma WeekStartDay(d: Date)
    ensures DayNumber(WeekStart(d)) == DayNumber(d) - Weekday(d)
    ensures Weekday(WeekStart(d)) == 0
  {
    var n, k := DayNumber(d), Weekday(d);
    AddDaysNumber(d, -k);
    ModBack(n, k);
    WeekdayOfNumber(WeekStart(d), n - k);
  }

  /** `endOfWeek` goes forward to the Saturday on or after `d`. */
  lemma WeekEndDay(d: Date)
    ensures DayNumber(WeekEnd(d)) == DayNumber(d) - Weekday(d) + 6
    ensures Weekday(WeekEnd(d)) == 6
  {
    var n, k := DayNumber(d), Weekday(d);
    AddDaysNumber(d, 6 - k);
    ModBack(n, k);
    WeekdayOfNumber(WeekEnd(d), n - k + 6);
  }

  /** The days of the interval are consecutive, starting at `start`. */
  lemma EachDayNumbers(start: Date, end: Date)
    ensures forall i :: 0 <= i < |EachDay(start, end)| ==>
      DayNumber(EachDay(start, end)[i]) == DayNumber(start) + i
  {
    var days := EachDay(start, end);
    forall i | 0 <= i < |days| ensures DayNumber(days[i]) == DayNumber(start) + i {
      AddDaysNumber(start, i);
    }
  }

  /** A date lies in the interval exactly when its day number lies between the
      ends' (`isWithinInterval` for day-precision dates). */
  lemma EachDayMembers(start: Date, end: Date, x: Date)
    ensures x in EachDay(start, end) <==> DayNumber(start) <= DayNumber(x) <= DayNumber(end)
  {
    var days := EachDay(start, end);
    EachDayNumbers(start, end);
    if DayNumber(start) <= DayNumber(x) <= DayNumber(end) {
      var i := DayNumber(x) - DayNumber(start);
      DayNumberInjective(days[i], x);
    }
  }

  /** A day `i` days after a Sunday falls on weekday `i`, for `i` below seven. */
  lemma WeekdayAfterSunday(day: Date, n: int, i: int)
    requires (n + 1) % 7 == 0 && 0 <= i < 7
    requires DayNumber(day) == n + i
    ensures Weekday(day) == i
  {
    WeekdayOfNumber(day, n + i);
    ModOffset(n, i);
  }

  lemma ModOffset(n: int, i: int)
    requires (n + 1) % 7 == 0 && 0 <= i < 7
    ensures (n + i + 1) % 7 == i
  {
    var q := (n + 1) / 7;
    assert n + 1 == 7 * q;
  }

  /** `getWeekDays` gives seven days, Sunday to Saturday, one of them `d`. */
  lemma WeekDaysFacts(d: Date)
    ensures |WeekDays(d)| == 7
    ensures forall i :: 0 <= i < 7 ==> Weekday(WeekDays(d)[i]) == i
    ensures forall i :: 0 <= i < 7 ==> DayNumber(WeekDays(d)[i]) == DayNumber(d) - Weekday(d) + i
    ensures WeekDays(d)[Weekday(d)] == d
  {
    WeekStartFacts(d);
    SundayWeek(WeekStart(d), WeekEnd(d));
    DayNumberInjective(WeekDays(d)[Weekday(d)], d);
  }

  /** The days from a Sunday to the Saturday after it are seven, one per weekday. */
  lemma SundayWeek(start: Date, end: Date)
    requires Weekday(start) == 0 && DayNumber(end) == DayNumber(start) + 6
    ensures |EachDay(start, end)| == 7
    ensures forall i :: 0 <= i < 7 ==> Weekday(EachDay(start, end)[i]) == i
    ensures forall i :: 0 <= i < 7 ==> DayNumber(EachDay(start, end)[i]) == DayNumber(start) + i
  {
    var n := DayNumber(start);
    WeekdayOfNumber(start, n);
    var days := EachDay(start, end);
    EachDayNumbers(start, end);
    forall i | 0 <= i < 7 ensures Weekday(days[i]) == i {
      WeekdayAfterSunday(days[i], n, i);
    }
  }

  lemma WeekSpan(a: int, b: int)
    requires (a + 1) % 7 == 0 && (b + 1) % 7 == 6
    ensures (b - a + 1) % 7 == 0
  {
    var p, q := (a + 1) / 7, (b + 1) / 7;
    assert a + 1 == 7 * p && b + 1 == 7 * q + 6;
    assert b - a + 1 == 7 * (q - p + 1);
  }

  /** The days from a Sunday to a Saturday at least four weeks later are whole weeks. */
  lemma SundayToSaturday(start: Date, end: Date)
    requires Weekday(start) == 0 && Weekday(end) == 6
    requires DayNumber(start) + 27 <= DayNumber(end)
    ensures |EachDay(start, end)| % 7 == 0
    ensures |EachDay(start, end)| >= 28
    ensures Weekday(EachDay(start, end)[0]) == 0
    ensures Weekday(EachDay(start, end)[|EachDay(start, end)| - 1]) == 6
  {
    var grid := EachDay(start, end);
    WeekdayOfNumber(start, DayNumber(start));
    WeekdayOfNumber(end, DayNumber(end));
    WeekSpan(DayNumber(start), DayNumber(end));
    EachDayNumbers(start, end);
    DayNumberInjective(grid[0], start);
    DayNumberInjective(grid[|grid| - 1], end);
  }

  /** The week of `d` runs from a Sunday on or before it to a Saturday on or after it. */
  lemma WeekBounds(d: Date)
    ensures Weekday(WeekStart(d)) == 0 && Weekday(WeekEnd(d)) == 6
    ensures DayNumber(WeekStart(d)) <= DayNumber(d) <= DayNumber(WeekEnd(d))
  {
    WeekStartFacts(d);
  }

  /** A month's last day comes `DaysInMonth - 1` days after its first. */
  lemma MonthSpan(d: Date)
    ensures DayNumber(MonthEnd(d)) == DayNumber(MonthStart(d)) + DaysInMonth(d.year, d.month) - 1
    ensures DayNumber(MonthStart(d)) + 27 <= DayNumber(MonthEnd(d))
  {
  }

  /** The month grid is whole weeks, from a Sunday to a Saturday. */
  lemma MonthGridShape(d: Date)
    ensures |MonthGridDays(d)| % 7 == 0
    ensures |MonthGridDays(d)| >= 28
    ensures Weekday(MonthGridDays(d)[0]) == 0
    ensures Weekday(MonthGridDays(d)[|MonthGridDays(d)| - 1]) == 6
  {
    var first, last := MonthStart(d), MonthEnd(d);
    MonthSpan(d);
    WeeksCovering(first, last);
    assert MonthGridDays(d) == EachDay(WeekStart(first), WeekEnd(last));
  }

  /** The weeks from the one holding `first` to the one holding `last`, four
      weeks or more apart, are whole weeks. */
  lemma WeeksCovering(first: Date, last: Date)
    requires DayNumber(first) + 27 <= DayNumber(last)
    ensures |EachDay(WeekStart(first), WeekEnd(last))| % 7 == 0
    ensures |EachDay(WeekStart(first), WeekEnd(last))| >= 28
    ensures Weekday(EachDay(WeekStart(first), WeekEnd(last))[0]) == 0
    ensures Weekday(EachDay(WeekStart(first), WeekEnd(last))[|EachDay(WeekStart(first), WeekEnd(last))| - 1]) == 6
  {
    WeekBounds(first);
    WeekBounds(last);
    SundayToSaturday(WeekStart(first), WeekEnd(last));
  }

  /** Every day of the month is in the month grid. */
  lemma MonthGridCovers(d: Date, x: Date)
    requires x.year == d.year && x.month == d.month
    ensures x in MonthGridDays(d)
  {
    var first := MonthStart(d);
    var last := MonthEnd(d);
    WeekStartFacts(first);
    WeekStartFacts(last);
    assert DayNumber(first) <= DayNumber(x) <= DayNumber(last);
    EachDayMembers(WeekStart(first), WeekEnd(last), x);
  }

  lemma {:induction false} AddMonthsBack(d: Date, n: int)
    ensures AddMonths(AddMonths(d, n), -n).year == d.year
    ensures AddMonths(AddMonths(d, n), -n).month == d.month
    ensures AddMonths(AddMonths(d, n), -n).day <= d.day
  {
    var r := AddMonths(AddMonths(d, n), -n);
    assert r.year * 12 + r.month == d.year * 12 + d.month;
  }
}
