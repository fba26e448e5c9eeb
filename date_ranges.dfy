/** `formatDateRangeForView`: the heading of the calendar, the reports and the
    weekly export. One day reads `MMMM d, yyyy`, a month `MMMM yyyy`, and a week
    (the weekly and the minimal view) runs from its Sunday to its Saturday,
    written shorter when both ends share the month or the year. */
module DateRanges {
  import opened Text
  import opened Dates
  import opened DateFormat
  import opened Types

  function FormatDateRangeForView(d: Date, mode: ViewMode): string {
    if mode == Daily then LongDate(d)
    else if mode == Monthly then MonthYear(d)
    else
      var days := WeekDays(d);
      if |days| == 0 then ""
      else
        WeekText(days[0], days[|days| - 1])
  }

  /** A week from `start` to `end`: the shared year, and then the shared month,
      written once. */
  function WeekText(start: Date, end: Date): string {
    if YearText(start) != YearText(end) then LongDate(start) + " - " + LongDate(end)
    else if MonthName(start) != MonthName(end) then MonthDay(start) + " - " + LongDate(end)
    else MonthName(start) + " " + DayText(start) + " - " + DayYear(end)
  }

  // ---------------------------------------------------------------- the two ends of a week

  /** The week is never empty: its first day is its Sunday and its last its Saturday. */
  lemma WeekEnds(d: Date)
    ensures |WeekDays(d)| == 7
    ensures WeekDays(d)[0] == WeekStart(d)
    ensures WeekDays(d)[6] == WeekEnd(d)
  {
    WeekDaysFacts(d);
    WeekStartFacts(d);
    DayNumberInjective(WeekDays(d)[0], WeekStart(d));
    DayNumberInjective(WeekDays(d)[6], WeekEnd(d));
  }

  /** The month a name stands for, 0 for a text that is not a month's name. */
  function MonthNumber(name: string): int {
    if name == "January" then 1 else if name == "February" then 2
    else if name == "March" then 3 else if name == "April" then 4
    else if name == "May" then 5 else if name == "June" then 6
    else if name == "July" then 7 else if name == "August" then 8
    else if name == "September" then 9 else if name == "October" then 10
    else if name == "November" then 11 else if name == "December" then 12
    else 0
  }

  lemma MonthNumberOfName(d: Date)
    ensures MonthNumber(MonthName(d)) == d.month
  {
    var ns := MonthNames;
    if d.month <= 6 {
      assert MonthNumber(ns[0]) == 1 && MonthNumber(ns[1]) == 2 && MonthNumber(ns[2]) == 3;
      assert MonthNumber(ns[3]) == 4 && MonthNumber(ns[4]) == 5 && MonthNumber(ns[5]) == 6;
    } else {
      assert MonthNumber(ns[6]) == 7 && MonthNumber(ns[7]) == 8 && MonthNumber(ns[8]) == 9;
      assert MonthNumber(ns[9]) == 10 && MonthNumber(ns[10]) == 11 && MonthNumber(ns[11]) == 12;
    }
  }

  /** Different months have different names. */
  lemma MonthNameInjective(a: Date, b: Date)
    requires MonthName(a) == MonthName(b)
    ensures a.month == b.month
  {
    MonthNumberOfName(a);
    MonthNumberOfName(b);
  }

  /** The four-digit year texts of two dates from year 1 on agree exactly when the years do. */
  lemma YearTextInjective(a: Date, b: Date)
    requires a.year >= 1 && b.year >= 1
    ensures YearText(a) == YearText(b) <==> a.year == b.year
  {
    ParseDigitsOfDigits(a.year, 4);
    ParseDigitsOfDigits(b.year, 4);
  }

  // ---------------------------------------------------------------- the label

  /** A day reads `MMMM d, yyyy` and a month `MMMM yyyy`. */
  lemma DayAndMonthRanges(d: Date)
    ensures FormatDateRangeForView(d, Daily) == MonthName(d) + " " + DayText(d) + ", " + YearText(d)
    ensures FormatDateRangeForView(d, Monthly) == MonthName(d) + " " + YearText(d)
  {
  }

  /** A week from year 1 on is written from its Sunday to its Saturday: both in
      full when the years differ, the year once when only the months differ, and
      month and year once when the week lies in one month. */
  lemma WeekRange(d: Date, mode: ViewMode)
    requires mode == Weekly || mode == Minimal
    requires WeekStart(d).year >= 1
    ensures WeekStart(d).year != WeekEnd(d).year ==>
      FormatDateRangeForView(d, mode) == LongDate(WeekStart(d)) + " - " + LongDate(WeekEnd(d))
    ensures WeekStart(d).year == WeekEnd(d).year && WeekStart(d).month != WeekEnd(d).month ==>
      FormatDateRangeForView(d, mode) == MonthDay(WeekStart(d)) + " - " + LongDate(WeekEnd(d))
    ensures WeekStart(d).year == WeekEnd(d).year && WeekStart(d).month == WeekEnd(d).month ==>
      FormatDateRangeForView(d, mode)
        == MonthName(WeekStart(d)) + " " + DayText(WeekStart(d)) + " - " + DayYear(WeekEnd(d))
  {
    var a, b := WeekStart(d), WeekEnd(d);
    WeekEnds(d);
    WeekStartFacts(d);
    assert DayNumber(a) <= DayNumber(b);
    DayNumberOrder(a, b);
    WeekTextCases(a, b);
  }

  /** Two dates from year 1 on, the first not after the second, are written in full
      when their years differ, with the year once when only their months differ,
      and with month and year once when they share the month. */
  lemma WeekTextCases(a: Date, b: Date)
    requires a.year >= 1 && a.year <= b.year
    ensures a.year != b.year ==> WeekText(a, b) == LongDate(a) + " - " + LongDate(b)
    ensures a.year == b.year && a.month != b.month ==> WeekText(a, b) == MonthDay(a) + " - " + LongDate(b)
    ensures a.year == b.year && a.month == b.month ==>
      WeekText(a, b) == MonthName(a) + " " + DayText(a) + " - " + DayYear(b)
  {
    YearTextInjective(a, b);
    if MonthName(a) == MonthName(b) {
      MonthNameInjective(a, b);
    }
  }

  // ---------------------------------------------------------------- worked examples
  // Fixed dates that illustrate the three cases of WeekTextCases; the general facts
  // are WeekRange and WeekTextCases above.

  /** 4 June 2025 is a Wednesday in the week of Sunday 1 June. */
  lemma WeekOfJune4()
    ensures WeekStart(CalendarDate(2025, 6, 4)) == CalendarDate(2025, 6, 1)
    ensures WeekEnd(CalendarDate(2025, 6, 4)) == CalendarDate(2025, 6, 7)
  {
    assert Weekday(CalendarDate(2025, 6, 4)) == 3;
  }

  /** 1 July 2025 is a Tuesday in the week of Sunday 29 June. */
  lemma WeekOfJuly1()
    ensures WeekStart(CalendarDate(2025, 7, 1)) == CalendarDate(2025, 6, 29)
    ensures WeekEnd(CalendarDate(2025, 7, 1)) == CalendarDate(2025, 7, 5)
  {
    assert Weekday(CalendarDate(2025, 7, 1)) == 2;
  }

  /** 31 December 2025 is a Wednesday in the week of Sunday 28 December. */
  lemma WeekOfDecember31()
    ensures WeekStart(CalendarDate(2025, 12, 31)) == CalendarDate(2025, 12, 28)
    ensures WeekEnd(CalendarDate(2025, 12, 31)) == CalendarDate(2026, 1, 3)
  {
    assert Weekday(CalendarDate(2025, 12, 31)) == 3;
  }

  lemma Years2025And2026()
    ensures Digits(2025, 4) == "2025" && Digits(2026, 4) == "2026"
  {
    assert Digits(202, 3) == "202";
  }

  lemma JuneTexts()
    ensures MonthName(CalendarDate(2025, 6, 1)) + " " + DayText(CalendarDate(2025, 6, 1)) + " - "
      + DayYear(CalendarDate(2025, 6, 7)) == "June 1 - 7, 2025"
  {
    Years2025And2026();
  }

  lemma JulyTexts()
    ensures MonthDay(CalendarDate(2025, 6, 29)) + " - " + LongDate(CalendarDate(2025, 7, 5))
      == "June 29 - July 5, 2025"
  {
    JuneTwentyNinth();
    JulyFifth();
  }

  lemma JuneTwentyNinth()
    ensures MonthDay(CalendarDate(2025, 6, 29)) == "June 29"
  {
    assert DayText(CalendarDate(2025, 6, 29)) == "29";
  }

  lemma JulyFifth()
    ensures LongDate(CalendarDate(2025, 7, 5)) == "July 5, 2025"
  {
    Years2025And2026();
  }

  lemma NewYearTexts()
    ensures LongDate(CalendarDate(2025, 12, 28)) + " - " + LongDate(CalendarDate(2026, 1, 3))
      == "December 28, 2025 - January 3, 2026"
  {
    DecemberTwentyEighth();
    JanuaryThird();
  }

  lemma DecemberTwentyEighth()
    ensures LongDate(CalendarDate(2025, 12, 28)) == "December 28, 2025"
  {
    Years2025And2026();
    assert DayText(CalendarDate(2025, 12, 28)) == "28";
  }

  lemma JanuaryThird()
    ensures LongDate(CalendarDate(2026, 1, 3)) == "January 3, 2026"
  {
    Years2025And2026();
  }

  /** A week inside one month: Wednesday 4 June 2025. */
  lemma WeekInsideMonth()
    ensures FormatDateRangeForView(CalendarDate(2025, 6, 4), Weekly) == "June 1 - 7, 2025"
  {
    var d: Date := CalendarDate(2025, 6, 4);
    WeekOfJune4();
    WeekRange(d, Weekly);
    JuneTexts();
  }

  /** A week across a month end: Tuesday 1 July 2025. */
  lemma WeekAcrossMonths()
    ensures FormatDateRangeForView(CalendarDate(2025, 7, 1), Weekly) == "June 29 - July 5, 2025"
  {
    var d: Date := CalendarDate(2025, 7, 1);
    WeekOfJuly1();
    WeekRange(d, Weekly);
    JulyTexts();
  }

  /** A week across a year end: Wednesday 31 December 2025. */
  lemma WeekAcrossYears()
    ensures FormatDateRangeForView(CalendarDate(2025, 12, 31), Weekly)
      == "December 28, 2025 - January 3, 2026"
  {
    var d: Date := CalendarDate(2025, 12, 31);
    WeekOfDecember31();
    WeekRange(d, Weekly);
    NewYearTexts();
  }
}
