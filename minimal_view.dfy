/** The agenda view: the week's appointments on working days, as one list ordered
    by day and then by time. */
module MinimalView {
  import opened Wrappers
  import opened Text
  import opened Dates
  import opened DateFormat
  import opened Types
  import opened SlotKeys
  import opened Reporting
  import Records
  import Sorting

  /** `{ day, time, appointment }`. */
  datatype AgendaEntry = AgendaEntry(day: Date, time: string, appointment: Appointment)

  /** The entries of one day: the keys starting with its `yyyy-MM-dd`, each with the
      text after its `_`. */
  function DayEntries(appts: map<string, Appointment>, day: Date): (es: seq<AgendaEntry>)
    ensures forall e :: e in es <==> (e.day == day && DayHolds(appts, day, e))
  {
    var keys := KeysWithPrefix(Records.SortedKeys(appts), IsoDate(day));
    var es := seq(|keys|, i requires 0 <= i < |keys| => AgendaEntry(day, KeyTime(keys[i]), appts[keys[i]]));
    DayEntriesComplete(appts, day, keys, es);
    es
  }

  /** Some key of the day holds the entry's appointment, under the entry's time. */
  predicate DayHolds(appts: map<string, Appointment>, day: Date, e: AgendaEntry) {
    exists k :: k in appts && StartsWith(k, IsoDate(day)) && e.time == KeyTime(k) && e.appointment == appts[k]
  }

  lemma DayEntriesComplete(appts: map<string, Appointment>, day: Date, keys: seq<string>, es: seq<AgendaEntry>)
    requires keys == KeysWithPrefix(Records.SortedKeys(appts), IsoDate(day))
    requires |es| == |keys|
    requires forall i :: 0 <= i < |keys| ==> es[i] == AgendaEntry(day, KeyTime(keys[i]), appts[keys[i]])
    ensures forall e :: e in es <==> (e.day == day && DayHolds(appts, day, e))
  {
    forall e: AgendaEntry | e.day == day && DayHolds(appts, day, e)
      ensures e in es
    {
      var k :| k in appts && StartsWith(k, IsoDate(day)) && e.time == KeyTime(k) && e.appointment == appts[k];
      assert k in keys;
      var i :| 0 <= i < |keys| && keys[i] == k;
      assert es[i] == e;
    }
  }

  /** A weekday whose setting exists and is a working day. */
  predicate WorksOn(s: Settings, day: Date) {
    DayAt(s, Weekday(day)).Some? && DayAt(s, Weekday(day)).value.isWorkingDay
  }

  /** `weekDays.flatMap(...)`: the entries of the working days, day after day. */
  function WeekEntries(s: Settings, appts: map<string, Appointment>, days: seq<Date>): (es: seq<AgendaEntry>)
    ensures forall e :: e in es <==> e.day in days && WorksOn(s, e.day) && e in DayEntries(appts, e.day)
  {
    if days == [] then []
    else
      var rest := WeekEntries(s, appts, days[1..]);
      assert forall d :: d in days <==> d == days[0] || d in days[1..];
      (if WorksOn(s, days[0]) then DayEntries(appts, days[0]) else []) + rest
  }

  /** The comparator: the earlier day first, then the earlier time (`localeCompare`). */
  predicate ByDayThenTime(a: AgendaEntry, b: AgendaEntry) {
    DayNumber(a.day) < DayNumber(b.day) || (DayNumber(a.day) == DayNumber(b.day) && LexLe(a.time, b.time))
  }

  lemma ByDayThenTimeIsOrder()
    ensures Sorting.Total(ByDayThenTime) && Sorting.Transitive(ByDayThenTime)
  {
    forall a, b ensures ByDayThenTime(a, b) || ByDayThenTime(b, a) {
      ByDayThenTimeTotal(a, b);
    }
    forall a, b, c | ByDayThenTime(a, b) && ByDayThenTime(b, c) ensures ByDayThenTime(a, c) {
      ByDayThenTimeTransitive(a, b, c);
    }
  }

  lemma ByDayThenTimeTotal(a: AgendaEntry, b: AgendaEntry)
    ensures ByDayThenTime(a, b) || ByDayThenTime(b, a)
  {
    var x, y := DayNumber(a.day), DayNumber(b.day);
    if x == y {
      LexLeTotal(a.time, b.time);
    }
  }

  lemma ByDayThenTimeTransitive(a: AgendaEntry, b: AgendaEntry, c: AgendaEntry)
    requires ByDayThenTime(a, b) && ByDayThenTime(b, c)
    ensures ByDayThenTime(a, c)
  {
    var x, y, z := DayNumber(a.day), DayNumber(b.day), DayNumber(c.day);
    if x == y && y == z {
      LexLeTransitive(a.time, b.time, c.time);
    }
  }

  /** `weeklyAppointments` for the week holding `currentDate`. */
  function WeeklyAppointments(s: Settings, appts: map<string, Appointment>, currentDate: Date): seq<AgendaEntry> {
    Sorting.Sort(WeekEntries(s, appts, WeekDays(currentDate)), ByDayThenTime)
  }

  /** The agenda lists exactly the appointments whose key starts with a working day
      of the week, each under that day and the time after its `_`. */
  lemma AgendaMembers(s: Settings, appts: map<string, Appointment>, currentDate: Date, e: AgendaEntry)
    ensures e in WeeklyAppointments(s, appts, currentDate) <==>
      (e.day in WeekDays(currentDate) && WorksOn(s, e.day) && DayHolds(appts, e.day, e))
  {
    var es := WeekEntries(s, appts, WeekDays(currentDate));
    var r := WeeklyAppointments(s, appts, currentDate);
    assert e in r <==> e in multiset(r);
    assert e in es <==> e in multiset(es);
  }

  /** The agenda runs from the first day of the week to the last, and within a day
      from the earliest time to the latest. */
  lemma AgendaOrdered(s: Settings, appts: map<string, Appointment>, currentDate: Date)
    ensures Sorting.SortedBy(WeeklyAppointments(s, appts, currentDate), ByDayThenTime)
    ensures forall i, j :: 0 <= i < j < |WeeklyAppointments(s, appts, currentDate)| ==>
      DayNumber(WeeklyAppointments(s, appts, currentDate)[i].day) <= DayNumber(WeeklyAppointments(s, appts, currentDate)[j].day)
  {
    ByDayThenTimeIsOrder();
    Sorting.SortSorted(WeekEntries(s, appts, WeekDays(currentDate)), ByDayThenTime);
  }

  /** A week without working days has an empty agenda. */
  lemma NoWorkingDayEmptyAgenda(s: Settings, appts: map<string, Appointment>, currentDate: Date)
    requires forall i :: 0 <= i < |s.workingHours| ==> !s.workingHours[i].isWorkingDay
    ensures WeeklyAppointments(s, appts, currentDate) == []
  {
    NoWorkingDays(s, appts, WeekDays(currentDate));
  }

  lemma {:induction false} NoWorkingDays(s: Settings, appts: map<string, Appointment>, days: seq<Date>)
    requires forall i :: 0 <= i < |s.workingHours| ==> !s.workingHours[i].isWorkingDay
    ensures WeekEntries(s, appts, days) == []
  {
    if days != [] {
      NoWorkingDays(s, appts, days[1..]);
      assert !WorksOn(s, days[0]);
    }
  }

  /** Clicking the entry of a key made by `getAppointmentKey` (with a time free of
      `_`) opens that very slot: the day and time the page receives give back the key. */
  lemma ClickedEntryKey(day: Date, time: string)
    requires SEP !in time
    ensures AppointmentKey(day, KeyTime(AppointmentKey(day, time))) == AppointmentKey(day, time)
    ensures StartsWith(AppointmentKey(day, time), IsoDate(day))
  {
    KeyParts(day, time);
  }

  // ---------------------------------------------------------------- one entry

  /** The patient line: the stored patient's name, or "Unknown Patient". */
  function PatientLabel(patients: map<string, Patient>, a: Appointment): (shown: string)
    ensures a.patientId in patients ==> shown == patients[a.patientId].name
    ensures a.patientId !in patients ==> shown == "Unknown Patient"
  {
    if a.patientId in patients then patients[a.patientId].name else "Unknown Patient"
  }

  /** `classes.find(c => c.startsWith('bg-'))`. */
  function FirstWithPrefix(words: seq<string>, prefix: string): (w: Option<string>)
    ensures w.Some? ==> w.value in words && StartsWith(w.value, prefix)
    ensures w.Some? ==> exists i :: 0 <= i < |words| && words[i] == w.value
                                  && forall j :: 0 <= j < i ==> !StartsWith(words[j], prefix)
    ensures w.None? ==> forall i :: 0 <= i < |words| ==> !StartsWith(words[i], prefix)
  {
    if words == [] then None
    else if StartsWith(words[0], prefix) then Some(words[0])
    else
      var r := FirstWithPrefix(words[1..], prefix);
      assert forall i :: 0 < i < |words| ==> words[i] == words[1..][i - 1];
      FirstAfterHead(words, prefix, r);
      r
  }

  /** A first match in the tail, after a head that does not match, is a first
      match in the whole list. */
  lemma FirstAfterHead(words: seq<string>, prefix: string, r: Option<string>)
    requires words != [] && !StartsWith(words[0], prefix)
    requires r.Some? ==> exists i :: 0 <= i < |words[1..]| && words[1..][i] == r.value
                                   && forall j :: 0 <= j < i ==> !StartsWith(words[1..][j], prefix)
    ensures r.Some? ==> exists i :: 0 <= i < |words| && words[i] == r.value
                                  && forall j :: 0 <= j < i ==> !StartsWith(words[j], prefix)
  {
    if r.Some? {
      var i :| 0 <= i < |words[1..]| && words[1..][i] == r.value
               && forall j :: 0 <= j < i ==> !StartsWith(words[1..][j], prefix);
      assert words[i + 1] == r.value;
      assert forall j :: 0 <= j < i + 1 ==> !StartsWith(words[j], prefix);
    }
  }

  /** The colour bar: the first `bg-` class of the procedure's colour, "bg-gray-100"
      when there is none. */
  function BarColor(colorClass: string): (bg: string)
    ensures StartsWith(bg, "bg-")
    ensures (forall i :: 0 <= i < |Split(colorClass, ' ')| ==> !StartsWith(Split(colorClass, ' ')[i], "bg-"))
      ==> bg == "bg-gray-100"
    ensures (exists i :: 0 <= i < |Split(colorClass, ' ')| && StartsWith(Split(colorClass, ' ')[i], "bg-"))
      ==> exists i :: 0 <= i < |Split(colorClass, ' ')| && Split(colorClass, ' ')[i] == bg
                    && forall j :: 0 <= j < i ==> !StartsWith(Split(colorClass, ' ')[j], "bg-")
  {
    match FirstWithPrefix(Split(colorClass, ' '), "bg-")
    case Some(c) => c
    case None => "bg-gray-100"
  }

  /** The colour class of an entry, with the "Custom" fallback. */
  function EntryColor(a: Appointment): string {
    match ColorOf(a.procedure)
    case Some(c) => c
    case None => "bg-gray-100 border-gray-300 text-gray-800"
  }

  /** A colour class that opens with a `bg-` class has that class as its bar. */
  lemma {:induction false} LeadingBackgroundIsBar(first: string, rest: string)
    requires ' ' !in first && StartsWith(first, "bg-")
    ensures BarColor(first + [' '] + rest) == first
  {
    SplitAfter(first, ' ', rest);
  }
}
