/** The reporting folds over the appointment record: today's appointments in
    time order, the procedure summary, the week and month filter and the seven
    weekday buckets. "Now" is a parameter. */
module Reporting {
  import opened Wrappers
  import opened Text
  import opened Dates
  import opened DateFormat
  import opened Types
  import opened SlotKeys
  import Records
  import Sorting
  import Tally

  // ---------------------------------------------------------------- today's appointments

  datatype TimedAppointment = TimedAppointment(time: string, appointment: Appointment)

  /** The keys of `ks` that start with `prefix`, in order. */
  function KeysWithPrefix(ks: seq<string>, prefix: string): (r: seq<string>)
    ensures forall k :: k in r <==> k in ks && StartsWith(k, prefix)
    ensures |r| <= |ks|
  {
    if ks == [] then []
    else
      var rest := KeysWithPrefix(ks[1..], prefix);
      assert forall k :: k in ks <==> k == ks[0] || k in ks[1..];
      if StartsWith(ks[0], prefix) then [ks[0]] + rest else rest
  }

  lemma {:induction false} KeysWithPrefixDistinct(ks: seq<string>, prefix: string)
    requires forall i, j :: 0 <= i < j < |ks| ==> ks[i] != ks[j]
    ensures forall i, j :: 0 <= i < j < |KeysWithPrefix(ks, prefix)| ==>
      KeysWithPrefix(ks, prefix)[i] != KeysWithPrefix(ks, prefix)[j]
  {
    if ks != [] {
      KeysWithPrefixDistinct(ks[1..], prefix);
      var rest := KeysWithPrefix(ks[1..], prefix);
      assert ks[0] !in ks[1..];
      if StartsWith(ks[0], prefix) {
        var r := [ks[0]] + rest;
        forall i, j | 0 <= i < j < |r| ensures r[i] != r[j] {
          if i == 0 {
            assert r[j] == rest[j - 1] && rest[j - 1] in rest;
          } else {
            assert r[i] == rest[i - 1] && r[j] == rest[j - 1];
          }
        }
      }
    }
  }

  /** `{ time: key.split('_')[1], appointment }` for each key. */
  function Timed(appts: map<string, Appointment>, keys: seq<string>): (r: seq<TimedAppointment>)
    requires forall k :: k in keys ==> k in appts
    ensures |r| == |keys|
    ensures forall i :: 0 <= i < |keys| ==> r[i] == TimedAppointment(KeyTime(keys[i]), appts[keys[i]])
  {
    seq(|keys|, i requires 0 <= i < |keys| => TimedAppointment(KeyTime(keys[i]), appts[keys[i]]))
  }

  /** The comparator `a.time.localeCompare(b.time)`, as "sorts no later than". */
  predicate ByTime(a: TimedAppointment, b: TimedAppointment) {
    LexLe(a.time, b.time)
  }

  lemma ByTimeIsOrder()
    ensures Sorting.Total(ByTime) && Sorting.Transitive(ByTime)
  {
    forall a, b ensures ByTime(a, b) || ByTime(b, a) {
      LexLeTotal(a.time, b.time);
    }
    forall a, b, c | ByTime(a, b) && ByTime(b, c) ensures ByTime(a, c) {
      LexLeTransitive(a.time, b.time, c.time);
    }
  }

  /** The keys of `appts` written on `today`. */
  function TodaysKeys(appts: map<string, Appointment>, today: Date): seq<string> {
    KeysWithPrefix(Records.SortedKeys(appts), IsoDate(today))
  }

  /** `getTodaysAppointments`, with today's date passed in. */
  function TodaysAppointments(appts: map<string, Appointment>, today: Date): seq<TimedAppointment> {
    Sorting.Sort(Timed(appts, TodaysKeys(appts, today)), ByTime)
  }

  /** Today's keys are the keys of `appts` that start with today's date, each once. */
  lemma TodaysKeysSpec(appts: map<string, Appointment>, today: Date)
    ensures forall k :: k in TodaysKeys(appts, today) <==> k in appts && StartsWith(k, IsoDate(today))
    ensures forall i, j :: 0 <= i < j < |TodaysKeys(appts, today)| ==>
      TodaysKeys(appts, today)[i] != TodaysKeys(appts, today)[j]
  {
    Records.SortedKeysDistinct(appts);
    KeysWithPrefixDistinct(Records.SortedKeys(appts), IsoDate(today));
  }

  /** One entry per key of today, in ascending time order. */
  lemma TodaysAppointmentsSorted(appts: map<string, Appointment>, today: Date)
    ensures |TodaysAppointments(appts, today)| == |TodaysKeys(appts, today)|
    ensures Sorting.SortedBy(TodaysAppointments(appts, today), ByTime)
  {
    ByTimeIsOrder();
    Sorting.SortSorted(Timed(appts, TodaysKeys(appts, today)), ByTime);
  }

  /** The entries are exactly the keys starting with today's date, each with the
      time after its `_` and its appointment. */
  lemma TodaysAppointmentsMembers(appts: map<string, Appointment>, today: Date, e: TimedAppointment)
    ensures e in TodaysAppointments(appts, today) <==>
      exists k :: k in appts && StartsWith(k, IsoDate(today)) && e == TimedAppointment(KeyTime(k), appts[k])
  {
    if e in TodaysAppointments(appts, today) {
      TodaysEntryHasKey(appts, today, e);
    }
    if exists k :: k in appts && StartsWith(k, IsoDate(today)) && e == TimedAppointment(KeyTime(k), appts[k]) {
      var k :| k in appts && StartsWith(k, IsoDate(today)) && e == TimedAppointment(KeyTime(k), appts[k]);
      TodaysKeyListed(appts, today, k);
    }
  }

  lemma TodaysEntryHasKey(appts: map<string, Appointment>, today: Date, e: TimedAppointment)
    requires e in TodaysAppointments(appts, today)
    ensures exists k :: k in appts && StartsWith(k, IsoDate(today)) && e == TimedAppointment(KeyTime(k), appts[k])
  {
    var keys := TodaysKeys(appts, today);
    var timed := Timed(appts, keys);
    assert e in multiset(TodaysAppointments(appts, today));
    assert e in multiset(timed);
    var i :| 0 <= i < |timed| && timed[i] == e;
    assert keys[i] in keys;
  }

  lemma TodaysKeyListed(appts: map<string, Appointment>, today: Date, k: string)
    requires k in appts && StartsWith(k, IsoDate(today))
    ensures TimedAppointment(KeyTime(k), appts[k]) in TodaysAppointments(appts, today)
  {
    var keys := TodaysKeys(appts, today);
    var timed := Timed(appts, keys);
    var i :| 0 <= i < |keys| && keys[i] == k;
    assert timed[i] == TimedAppointment(KeyTime(k), appts[k]);
    assert timed[i] in multiset(timed);
    assert timed[i] in multiset(TodaysAppointments(appts, today));
  }

  /** An appointment booked today at a time without `_` is listed at that time. */
  lemma BookedTodayIsListed(appts: map<string, Appointment>, today: Date, time: string)
    requires AppointmentKey(today, time) in appts
    requires SEP !in time
    ensures TimedAppointment(time, appts[AppointmentKey(today, time)]) in TodaysAppointments(appts, today)
  {
    KeyParts(today, time);
    TodaysAppointmentsMembers(appts, today, TimedAppointment(time, appts[AppointmentKey(today, time)]));
  }

  // ---------------------------------------------------------------- procedure summary

  /** The name an appointment is counted under: its custom name, or "Custom" when
      that is empty, for a custom procedure; its procedure otherwise. */
  function SummaryName(a: Appointment): string {
    if a.procedure == CUSTOM then (if a.customProcedureName != "" then a.customProcedureName else CUSTOM)
    else a.procedure
  }

  /** `{ name, count, color: name }`. */
  datatype SummaryItem = SummaryItem(name: string, count: nat, color: string)

  function ItemName(item: SummaryItem): string {
    item.name
  }

  function ItemCount(item: SummaryItem): int {
    item.count
  }

  /** The summary names of `vs`, in order. */
  function SummaryNames(vs: seq<Appointment>): (ns: seq<string>)
    ensures |ns| == |vs|
    ensures forall i :: 0 <= i < |vs| ==> ns[i] == SummaryName(vs[i])
  {
    seq(|vs|, i requires 0 <= i < |vs| => SummaryName(vs[i]))
  }

  lemma SummaryNamesSnoc(vs: seq<Appointment>, i: nat)
    requires i < |vs|
    ensures SummaryNames(vs[..i + 1]) == SummaryNames(vs[..i]) + [SummaryName(vs[i])]
    ensures SummaryNames(vs[..i + 1])[..i] == SummaryNames(vs[..i])
  {
    assert SummaryNames(vs[..i + 1]) == SummaryNames(vs[..i]) + [SummaryName(vs[i])];
  }

  function Items(t: seq<Tally.Entry>): (items: seq<SummaryItem>)
    ensures |items| == |t|
    ensures forall i :: 0 <= i < |t| ==> items[i] == SummaryItem(t[i].name, t[i].count, t[i].name)
  {
    if t == [] then [] else [SummaryItem(t[0].name, t[0].count, t[0].name)] + Items(t[1..])
  }

  /** The comparator `b.count - a.count`, as "sorts no later than". */
  predicate ByCountDescending(a: SummaryItem, b: SummaryItem) {
    a.count >= b.count
  }

  /** `getProcedureSummary`. */
  function ProcedureSummary(appts: map<string, Appointment>): seq<SummaryItem> {
    Sorting.Sort(Items(Tally.TallyOf(SummaryNames(Records.Values(appts)))), ByCountDescending)
  }

  /** `getProcedureSummary`, with its counting loop. */
  method GetProcedureSummary(appts: map<string, Appointment>) returns (summary: seq<SummaryItem>)
    ensures summary == ProcedureSummary(appts)
  {
    var values := Records.Values(appts);
    var counts: seq<Tally.Entry> := [];
    var i := 0;
    while i < |values|
      invariant 0 <= i <= |values|
      invariant counts == Tally.TallyOf(SummaryNames(values[..i]))
    {
      var name := SummaryName(values[i]);
      SummaryNamesSnoc(values, i);
      counts := Tally.Bump(counts, name);
      i := i + 1;
    }
    assert values[..i] == values;
    summary := Sorting.Sort(Items(counts), ByCountDescending);
  }

  lemma {:induction false} ItemsFacts(t: seq<Tally.Entry>)
    ensures Sorting.SumBy(Items(t), ItemCount) == Tally.Total(t)
    ensures Tally.DistinctNames(t) ==> Sorting.DistinctBy(Items(t), ItemName)
  {
    if t != [] {
      ItemsFacts(t[1..]);
      assert Items(t)[1..] == Items(t[1..]);
    }
  }

  /** The summary lists each counted name once and its counts add up to the
      number of appointments. */
  lemma ProcedureSummaryTotals(appts: map<string, Appointment>)
    ensures Sorting.DistinctBy(ProcedureSummary(appts), ItemName)
    ensures Sorting.SumBy(ProcedureSummary(appts), ItemCount) == |appts|
  {
    var names := SummaryNames(Records.Values(appts));
    var t := Tally.TallyOf(names);
    Tally.TallyWellFormed(names);
    Tally.TallyTotal(names);
    ItemsFacts(t);
    Sorting.SortKeepsDistinct(Items(t), ByCountDescending, ItemName);
    Sorting.SortKeepsSum(Items(t), ByCountDescending, ItemCount);
  }

  /** The summary runs from the largest count down, and every count is at least one. */
  lemma ProcedureSummaryOrder(appts: map<string, Appointment>)
    ensures Sorting.SortedBy(ProcedureSummary(appts), ByCountDescending)
    ensures forall i :: 0 <= i < |ProcedureSummary(appts)| ==> ProcedureSummary(appts)[i].count >= 1
  {
    var names := SummaryNames(Records.Values(appts));
    var t := Tally.TallyOf(names);
    var items := Items(t);
    Tally.TallyWellFormed(names);
    Sorting.SortSorted(items, ByCountDescending);
    var r := ProcedureSummary(appts);
    forall i | 0 <= i < |r| ensures r[i].count >= 1 {
      assert r[i] in multiset(items);
      var j :| 0 <= j < |items| && items[j] == r[i];
      assert t[j].count >= 1;
    }
  }

  /** Each listed name is the summary name of that many appointments, and every
      summary name of an appointment is listed. */
  lemma ProcedureSummaryCounts(appts: map<string, Appointment>)
    ensures forall i :: 0 <= i < |ProcedureSummary(appts)| ==>
      ProcedureSummary(appts)[i].count == multiset(SummaryNames(Records.Values(appts)))[ProcedureSummary(appts)[i].name]
    ensures forall i :: 0 <= i < |ProcedureSummary(appts)| ==>
      ProcedureSummary(appts)[i].color == ProcedureSummary(appts)[i].name
    ensures forall a :: a in Records.Values(appts) ==>
      exists i :: 0 <= i < |ProcedureSummary(appts)| && ProcedureSummary(appts)[i].name == SummaryName(a)
  {
    var r := ProcedureSummary(appts);
    forall i | 0 <= i < |r|
      ensures r[i].count == multiset(SummaryNames(Records.Values(appts)))[r[i].name] && r[i].color == r[i].name
    {
      SummaryItemCounted(appts, i);
    }
    forall a | a in Records.Values(appts)
      ensures exists i :: 0 <= i < |r| && r[i].name == SummaryName(a)
    {
      SummaryNameListed(appts, a);
    }
  }

  lemma SummaryItemCounted(appts: map<string, Appointment>, i: nat)
    requires i < |ProcedureSummary(appts)|
    ensures ProcedureSummary(appts)[i].count
      == multiset(SummaryNames(Records.Values(appts)))[ProcedureSummary(appts)[i].name]
    ensures ProcedureSummary(appts)[i].color == ProcedureSummary(appts)[i].name
  {
    var names := SummaryNames(Records.Values(appts));
    var t := Tally.TallyOf(names);
    var items := Items(t);
    var r := ProcedureSummary(appts);
    Tally.TallyWellFormed(names);
    assert r[i] in multiset(items);
    var j :| 0 <= j < |items| && items[j] == r[i];
    Tally.TallyCounts(names, r[i].name);
    EntryCounted(t, j);
  }

  lemma SummaryNameListed(appts: map<string, Appointment>, a: Appointment)
    requires a in Records.Values(appts)
    ensures exists i :: 0 <= i < |ProcedureSummary(appts)| && ProcedureSummary(appts)[i].name == SummaryName(a)
  {
    var names := SummaryNames(Records.Values(appts));
    var t := Tally.TallyOf(names);
    var items := Items(t);
    var r := ProcedureSummary(appts);
    Tally.TallyNames(names);
    var m :| 0 <= m < |Records.Values(appts)| && Records.Values(appts)[m] == a;
    assert names[m] == SummaryName(a);
    assert SummaryName(a) in Tally.Names(t);
    var j :| 0 <= j < |t| && Tally.Names(t)[j] == SummaryName(a);
    assert items[j] in multiset(r);
    var i :| 0 <= i < |r| && r[i] == items[j];
  }

  /** In a list with distinct names, the count found for an entry's name is that entry's count. */
  lemma {:induction false} EntryCounted(t: seq<Tally.Entry>, j: nat)
    requires j < |t| && Tally.DistinctNames(t)
    ensures Tally.CountIn(t, t[j].name) == t[j].count
  {
    if j > 0 {
      assert t[0].name != t[j].name by {
        assert Tally.NameOf(t[0]) != Tally.NameOf(t[j]);
      }
      assert t[1..][j - 1] == t[j];
      forall a, b | 0 <= a < b < |t[1..]| ensures Tally.NameOf(t[1..][a]) != Tally.NameOf(t[1..][b]) {
        assert Tally.NameOf(t[a + 1]) != Tally.NameOf(t[b + 1]);
      }
      EntryCounted(t[1..], j - 1);
    }
  }

  // ---------------------------------------------------------------- date-range filter

  datatype DateRange = ThisWeek | ThisMonth | AllTime

  /** `parseISO(key.split('_')[0])`, or nothing for an Invalid Date. */
  function KeyDay(key: string): Option<Date> {
    ParseIsoDate(KeyDate(key))
  }

  /** `isWithinInterval` of a key's day: from the first day of the range to its
      last, both included; a key whose day does not parse is in no range. */
  predicate InRange(key: string, range: DateRange, now: Date) {
    match KeyDay(key)
    case None => false
    case Some(d) =>
      match range
      case ThisWeek => DayNumber(WeekStart(now)) <= DayNumber(d) <= DayNumber(WeekEnd(now))
      case ThisMonth => DayNumber(MonthStart(now)) <= DayNumber(d) <= DayNumber(MonthEnd(now))
      case AllTime => true
  }

  /** The record `filterAppointmentsByDateRange` returns. */
  function FilterByRange(appts: map<string, Appointment>, range: DateRange, now: Date): map<string, Appointment> {
    if range == AllTime then appts
    else KeptAmong(appts, Records.SortedKeys(appts), range, now)
  }

  /** The entries of `appts` under the keys of `ks` that lie in the range. */
  function KeptAmong(appts: map<string, Appointment>, ks: seq<string>, range: DateRange, now: Date)
    : map<string, Appointment>
  {
    map k | k in ks && k in appts && InRange(k, range, now) :: appts[k]
  }

  /** `filterAppointmentsByDateRange`, with its `for..in` loop. */
  method FilterAppointmentsByDateRange(appts: map<string, Appointment>, range: DateRange, now: Date)
    returns (filtered: map<string, Appointment>)
    ensures filtered == FilterByRange(appts, range, now)
  {
    if range == AllTime {
      return appts;
    }
    filtered := map[];
    var keys := Records.SortedKeys(appts);
    var i := 0;
    KeptAmongNone(appts, keys, range, now);
    while i < |keys|
      invariant 0 <= i <= |keys|
      invariant filtered == KeptAmong(appts, keys[..i], range, now)
    {
      var key := keys[i];
      KeptAmongSnoc(appts, keys, i, range, now);
      if InRange(key, range, now) {
        filtered := filtered[key := appts[key]];
      }
      i := i + 1;
    }
    assert keys[..i] == keys;
  }

  lemma KeptAmongNone(appts: map<string, Appointment>, ks: seq<string>, range: DateRange, now: Date)
    ensures KeptAmong(appts, ks[..0], range, now) == map[]
  {
    assert ks[..0] == [];
  }

  lemma KeptAmongSnoc(appts: map<string, Appointment>, ks: seq<string>, i: nat, range: DateRange, now: Date)
    requires i < |ks| && ks[i] in appts
    ensures KeptAmong(appts, ks[..i + 1], range, now)
      == if InRange(ks[i], range, now) then KeptAmong(appts, ks[..i], range, now)[ks[i] := appts[ks[i]]]
         else KeptAmong(appts, ks[..i], range, now)
  {
    assert ks[..i + 1] == ks[..i] + [ks[i]];
  }

  /** The filtered record keeps exactly the keys whose day lies in the week of
      `now`, with their appointments. */
  lemma WeekFilter(appts: map<string, Appointment>, now: Date, key: string)
    ensures key in FilterByRange(appts, ThisWeek, now) <==>
      key in appts && KeyDay(key).Some? && KeyDay(key).value in WeekDays(now)
    ensures key in FilterByRange(appts, ThisWeek, now) ==> FilterByRange(appts, ThisWeek, now)[key] == appts[key]
  {
    if KeyDay(key).Some? {
      WeekStartFacts(now);
      EachDayMembers(WeekStart(now), WeekEnd(now), KeyDay(key).value);
    }
  }

  /** The filtered record keeps exactly the keys whose day lies in the month of
      `now`, with their appointments. */
  lemma MonthFilter(appts: map<string, Appointment>, now: Date, key: string)
    ensures key in FilterByRange(appts, ThisMonth, now) <==>
      key in appts && KeyDay(key).Some? && KeyDay(key).value.year == now.year
      && KeyDay(key).value.month == now.month
    ensures key in FilterByRange(appts, ThisMonth, now) ==> FilterByRange(appts, ThisMonth, now)[key] == appts[key]
  {
    if KeyDay(key).Some? {
      var d := KeyDay(key).value;
      var first, last := MonthStart(now), MonthEnd(now);
      DayNumberOrder(d, first);
      DayNumberOrder(last, d);
    }
  }

  /** "All time" keeps the record as it is, and every range keeps a part of it. */
  lemma FilterIsSubRecord(appts: map<string, Appointment>, range: DateRange, now: Date)
    ensures range == AllTime ==> FilterByRange(appts, range, now) == appts
    ensures forall k :: k in FilterByRange(appts, range, now) ==> k in appts && FilterByRange(appts, range, now)[k] == appts[k]
    ensures |FilterByRange(appts, range, now)| <= |appts|
  {
    var f := FilterByRange(appts, range, now);
    assert f.Keys <= appts.Keys;
    SubsetCard(f.Keys, appts.Keys);
  }

  lemma SubsetCard(a: set<string>, b: set<string>)
    requires a <= b
    ensures |a| <= |b|
  {
    assert b == a + (b - a);
  }

  // ---------------------------------------------------------------- weekday buckets

  const DayAbbreviations: seq<string> := ["Sun", "Mon", "Tue", "Wed", "Thu", "Fri", "Sat"]

  datatype DayCount = DayCount(name: string, count: nat)

  function DayCountOf(b: DayCount): int {
    b.count
  }

  /** `getDay(parseISO(key.split('_')[0]))`, or nothing for an Invalid Date (whose
      `dayMap` entry is undefined, so the key is skipped). */
  function KeyWeekday(key: string): (w: Option<int>)
    ensures w.Some? ==> 0 <= w.value < 7
  {
    match KeyDay(key)
    case None => None
    case Some(d) => Some(Weekday(d))
  }

  /** How many of `ks` fall on weekday `w`. */
  function CountOnWeekday(ks: seq<string>, w: int): nat {
    if ks == [] then 0
    else CountOnWeekday(ks[..|ks| - 1], w) + (if KeyWeekday(ks[|ks| - 1]) == Some(w) then 1 else 0)
  }

  /** How many of `ks` have a day that parses. */
  function CountDated(ks: seq<string>): nat {
    if ks == [] then 0
    else CountDated(ks[..|ks| - 1]) + (if KeyWeekday(ks[|ks| - 1]).Some? then 1 else 0)
  }

  function WeekdayCounts(ks: seq<string>): (counts: seq<nat>)
    ensures |counts| == 7
  {
    seq(7, w => CountOnWeekday(ks, w))
  }

  function Buckets(counts: seq<nat>): (buckets: seq<DayCount>)
    requires |counts| == 7
    ensures |buckets| == 7
    ensures forall w :: 0 <= w < 7 ==> buckets[w] == DayCount(DayAbbreviations[w], counts[w])
  {
    seq(7, w requires 0 <= w < 7 => DayCount(DayAbbreviations[w], counts[w]))
  }

  /** The buckets `getAppointmentsByDayOfWeek` returns. */
  function DayOfWeekBuckets(appts: map<string, Appointment>): seq<DayCount> {
    Buckets(WeekdayCounts(Records.SortedKeys(appts)))
  }

  /** `getAppointmentsByDayOfWeek`, with its counting loop. */
  method GetAppointmentsByDayOfWeek(appts: map<string, Appointment>) returns (buckets: seq<DayCount>)
    ensures buckets == DayOfWeekBuckets(appts)
  {
    var dayCounts: seq<nat> := [0, 0, 0, 0, 0, 0, 0];
    var keys := Records.SortedKeys(appts);
    var i := 0;
    NoKeysNoCounts(keys);
    while i < |keys|
      invariant 0 <= i <= |keys|
      invariant dayCounts == WeekdayCounts(keys[..i])
    {
      WeekdayCountsSnoc(keys, i);
      dayCounts := CountKeyDay(dayCounts, keys[i]);
      i := i + 1;
    }
    assert keys[..i] == keys;
    buckets := Buckets(dayCounts);
  }

  /** One pass of the loop: the key's weekday, when its day parses, gets one more. */
  method CountKeyDay(dayCounts: seq<nat>, key: string) returns (counts: seq<nat>)
    requires |dayCounts| == 7
    ensures KeyWeekday(key).None? ==> counts == dayCounts
    ensures KeyWeekday(key).Some? ==>
      counts == dayCounts[KeyWeekday(key).value := dayCounts[KeyWeekday(key).value] + 1]
  {
    counts := dayCounts;
    var day := KeyWeekday(key);
    if day.Some? {
      counts := counts[day.value := counts[day.value] + 1];
    }
  }

  lemma NoKeysNoCounts(ks: seq<string>)
    ensures WeekdayCounts(ks[..0]) == [0, 0, 0, 0, 0, 0, 0]
  {
    assert ks[..0] == [];
  }

  lemma WeekdayCountsSnoc(ks: seq<string>, i: nat)
    requires i < |ks|
    ensures KeyWeekday(ks[i]).None? ==> WeekdayCounts(ks[..i + 1]) == WeekdayCounts(ks[..i])
    ensures KeyWeekday(ks[i]).Some? ==>
      var w := KeyWeekday(ks[i]).value;
      WeekdayCounts(ks[..i + 1]) == WeekdayCounts(ks[..i])[w := WeekdayCounts(ks[..i])[w] + 1]
  {
    assert ks[..i + 1][..i] == ks[..i];
  }

  function SumNat(s: seq<nat>): nat {
    if s == [] then 0 else s[0] + SumNat(s[1..])
  }

  lemma {:induction false} SumNatBump(s: seq<nat>, w: nat)
    requires w < |s|
    ensures SumNat(s[w := s[w] + 1]) == SumNat(s) + 1
  {
    if w > 0 {
      SumNatBump(s[1..], w - 1);
      assert s[w := s[w] + 1][1..] == s[1..][w - 1 := s[w] + 1];
    }
  }

  lemma {:induction false} SumNatZeros(n: nat)
    ensures SumNat(seq(n, w => 0)) == 0
  {
    if n > 0 {
      SumNatZeros(n - 1);
      assert seq(n, w => 0)[1..] == seq(n - 1, w => 0);
    }
  }

  /** The weekday counts add up to the number of keys whose day parses. */
  lemma {:induction false} WeekdayCountsTotal(ks: seq<string>)
    ensures SumNat(WeekdayCounts(ks)) == CountDated(ks)
  {
    if ks == [] {
      SumNatZeros(7);
      assert WeekdayCounts(ks) == seq(7, w => 0);
    } else {
      var init := ks[..|ks| - 1];
      WeekdayCountsTotal(init);
      WeekdayCountsSnoc(ks, |ks| - 1);
      assert ks[..|ks| - 1 + 1] == ks;
      match KeyWeekday(ks[|ks| - 1])
      case Some(w) => SumNatBump(WeekdayCounts(init), w);
      case None =>
    }
  }

  function BucketCounts(buckets: seq<DayCount>): (counts: seq<nat>)
    ensures |counts| == |buckets|
  {
    if buckets == [] then [] else [buckets[0].count] + BucketCounts(buckets[1..])
  }

  /** Seven buckets, `Sun` to `Sat` in order, whose counts add up to the number of
      keys with a parsable day: all keys, when every key was made by
      `getAppointmentKey` from a four-digit-year date. */
  lemma DayOfWeekBucketsShape(appts: map<string, Appointment>)
    ensures |DayOfWeekBuckets(appts)| == 7
    ensures forall w :: 0 <= w < 7 ==> DayOfWeekBuckets(appts)[w].name == DayAbbreviations[w]
    ensures forall w :: 0 <= w < 7 ==> DayOfWeekBuckets(appts)[w].count == CountOnWeekday(Records.SortedKeys(appts), w)
    ensures SumNat(BucketCounts(DayOfWeekBuckets(appts))) == CountDated(Records.SortedKeys(appts))
  {
    var ks := Records.SortedKeys(appts);
    var b := DayOfWeekBuckets(appts);
    WeekdayCountsTotal(ks);
    assert BucketCounts(b) == WeekdayCounts(ks) by {
      forall w | 0 <= w < 7 ensures BucketCounts(b)[w] == WeekdayCounts(ks)[w] {
        BucketCountAt(b, w);
      }
    }
  }

  lemma {:induction false} BucketCountAt(buckets: seq<DayCount>, w: nat)
    requires w < |buckets|
    ensures BucketCounts(buckets)[w] == buckets[w].count
  {
    if w > 0 {
      BucketCountAt(buckets[1..], w - 1);
    }
  }

  /** When every key's day parses, every key is counted. */
  lemma {:induction false} DatedKeysCounted(ks: seq<string>)
    requires forall i :: 0 <= i < |ks| ==> KeyDay(ks[i]).Some?
    ensures CountDated(ks) == |ks|
  {
    if ks != [] {
      var init := ks[..|ks| - 1];
      assert forall i :: 0 <= i < |init| ==> init[i] == ks[i];
      DatedKeysCounted(init);
    }
  }
}
