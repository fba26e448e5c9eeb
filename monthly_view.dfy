/** The monthly view: whole weeks covering the month, each day showing how many
    appointments its date carries. */
module MonthlyView {
  import opened Wrappers
  import opened Text
  import opened Dates
  import opened DateFormat
  import opened Types
  import opened SlotKeys
  import opened Tally
  import Records

  /** `key.split('_')[0]` for each key, in order. */
  function KeyDates(keys: seq<string>): (ds: seq<string>)
    ensures |ds| == |keys|
    ensures forall i :: 0 <= i < |keys| ==> ds[i] == KeyDate(keys[i])
  {
    seq(|keys|, i requires 0 <= i < |keys| => KeyDate(keys[i]))
  }

  /** `appointmentsByDay`: one pass over the record's keys, adding one to the count of
      each key's date part. */
  method CountByDay(appts: map<string, Appointment>) returns (counts: seq<Entry>)
    ensures counts == TallyOf(KeyDates(Records.SortedKeys(appts)))
  {
    var keys := Records.SortedKeys(appts);
    counts := [];
    var i := 0;
    while i < |keys|
      invariant 0 <= i <= |keys|
      invariant counts == TallyOf(KeyDates(keys[..i]))
    {
      counts := Bump(counts, KeyDate(keys[i]));
      assert KeyDates(keys[..i + 1])[..i] == KeyDates(keys[..i]);
      i := i + 1;
    }
    assert keys[..|keys|] == keys;
  }

  /** The keys whose date part is `date`. */
  function KeysOn(keys: seq<string>, date: string): (r: seq<string>)
    ensures forall k :: k in r <==> k in keys && KeyDate(k) == date
  {
    if keys == [] then []
    else
      var rest := KeysOn(keys[1..], date);
      assert forall k :: k in keys <==> k == keys[0] || k in keys[1..];
      if KeyDate(keys[0]) == date then [keys[0]] + rest else rest
  }

  lemma {:induction false} KeysOnCount(keys: seq<string>, date: string)
    ensures multiset(KeyDates(keys))[date] == |KeysOn(keys, date)|
  {
    if keys != [] {
      KeysOnCount(keys[1..], date);
      assert KeyDates(keys) == [KeyDate(keys[0])] + KeyDates(keys[1..]);
    }
  }

  /** `appointmentsByDay[dayKey] || 0`. */
  function CellCount(counts: seq<Entry>, day: Date): nat {
    CountIn(counts, IsoDate(day))
  }

  /** A day's count is the number of stored keys whose date part is that day's
      `yyyy-MM-dd`; the counts of all dates add up to the number of appointments. */
  lemma DayCounts(appts: map<string, Appointment>, day: Date)
    ensures CellCount(TallyOf(KeyDates(Records.SortedKeys(appts))), day)
      == |KeysOn(Records.SortedKeys(appts), IsoDate(day))|
    ensures Total(TallyOf(KeyDates(Records.SortedKeys(appts)))) == |appts|
  {
    var names := KeyDates(Records.SortedKeys(appts));
    TallyCounts(names, IsoDate(day));
    KeysOnCount(Records.SortedKeys(appts), IsoDate(day));
    TallyTotal(names);
  }

  /** A day on which a slot is booked shows a count of at least one. */
  lemma BookedDayCounted(appts: map<string, Appointment>, day: Date, time: string)
    requires AppointmentKey(day, time) in appts
    ensures CellCount(TallyOf(KeyDates(Records.SortedKeys(appts))), day) >= 1
  {
    DayCounts(appts, day);
    KeyParts(day, time);
    var r := KeysOn(Records.SortedKeys(appts), IsoDate(day));
    assert AppointmentKey(day, time) in r;
  }

  /** The decimal numeral of `n`, as JSX writes a number. */
  function NumberText(n: nat): string {
    Digits(n, 0)
  }

  /** The badge: none for a day without appointments, else "1 appt", "2 appts", .... */
  function Badge(count: nat): Option<string> {
    if count > 0 then Some(NumberText(count) + " appt" + (if count > 1 then "s" else "")) else None
  }

  /** A badge is shown exactly when there is something booked; it starts with the
      count, read back from its digits, and the word is plural exactly for more than one. */
  lemma BadgeSpec(count: nat)
    ensures Badge(count).Some? <==> count > 0
    ensures Badge(count).Some? ==> exists digits :: (AllDigits(digits) && ParseDigits(digits) == count
                                                      && (Badge(count).value == digits + " appt"
                                                          || Badge(count).value == digits + " appts")
                                                      && (EndsWith(Badge(count).value, "s") <==> count > 1))
  {
    if count > 0 {
      var digits := NumberText(count);
      ParseDigitsOfDigits(count, 0);
      var b := Badge(count).value;
      if count > 1 {
        assert b == digits + " appts";
        SuffixOfConcat(digits + " appt", "s");
      } else {
        assert b == digits + " appt";
        assert b[|b| - 1] == 't';
      }
    }
  }

  lemma BadgeOfOne()
    ensures Badge(1) == Some("1 appt")
  {
    assert DigitChar(1) == '1';
    assert NumberText(1) == "1";
    assert "1" + " appt" + "" == "1 appt";
  }

  /** One cell of the grid. */
  datatype MonthCell = MonthCell(
    day: Date,
    count: nat,
    inCurrentMonth: bool,
    isToday: bool,
    badge: Option<string>)

  /** `isSameMonth(day, currentDate)`. */
  predicate SameMonth(a: Date, b: Date) {
    a.year == b.year && a.month == b.month
  }

  function CellOf(counts: seq<Entry>, day: Date, currentDate: Date, today: Date): MonthCell {
    var count := CellCount(counts, day);
    MonthCell(day, count, SameMonth(day, currentDate), day == today, Badge(count))
  }

  /** The grid's cells: one per day of `getMonthGridDays(currentDate)`, with the
      current day passed in for `isToday`. */
  function MonthCells(appts: map<string, Appointment>, currentDate: Date, today: Date): (cells: seq<MonthCell>)
    ensures |cells| == |MonthGridDays(currentDate)|
    ensures forall i :: 0 <= i < |cells| ==>
      cells[i] == CellOf(TallyOf(KeyDates(Records.SortedKeys(appts))), MonthGridDays(currentDate)[i], currentDate, today)
  {
    var counts := TallyOf(KeyDates(Records.SortedKeys(appts)));
    var grid := MonthGridDays(currentDate);
    seq(|grid|, i requires 0 <= i < |grid| => CellOf(counts, grid[i], currentDate, today))
  }

  /** The grid lists whole weeks from a Sunday, and every day of the month has its
      cell. */
  lemma MonthCellsCover(appts: map<string, Appointment>, currentDate: Date, today: Date)
    ensures var cells := MonthCells(appts, currentDate, today);
      |cells| % 7 == 0 && |cells| >= 28 && Weekday(cells[0].day) == 0
      && forall x :: SameMonth(x, currentDate) ==> exists i :: 0 <= i < |cells| && cells[i].day == x
  {
    var cells := MonthCells(appts, currentDate, today);
    var grid := MonthGridDays(currentDate);
    MonthGridShape(currentDate);
    forall x | SameMonth(x, currentDate)
      ensures exists i :: 0 <= i < |cells| && cells[i].day == x
    {
      MonthGridCovers(currentDate, x);
      var i :| 0 <= i < |grid| && grid[i] == x;
      assert cells[i].day == x;
    }
  }

  /** The muted cells are exactly the days of the neighbouring months, the
      highlighted cell is today, and each cell shows its day's count. */
  lemma MonthCellsShow(appts: map<string, Appointment>, currentDate: Date, today: Date, i: nat)
    requires i < |MonthCells(appts, currentDate, today)|
    ensures var c := MonthCells(appts, currentDate, today)[i];
      (c.inCurrentMonth <==> SameMonth(c.day, currentDate))
      && (c.isToday <==> c.day == today)
      && c.count == |KeysOn(Records.SortedKeys(appts), IsoDate(c.day))|
      && (c.badge.Some? <==> c.count > 0)
      && c.day == MonthGridDays(currentDate)[i]
  {
    var c := MonthCells(appts, currentDate, today)[i];
    DayCounts(appts, c.day);
    BadgeSpec(c.count);
  }
}
