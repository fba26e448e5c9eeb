/** The text of `exportScheduleAsText`: a heading with the week's label, then for
    each working day of the week that has booked slots a `--- day ---` section of
    `time - patient - procedure` lines, and a closing sentence when no day had any.
    The download itself is left out; the content and the file name are modelled. */
module ScheduleExport {
  import opened Wrappers
  import opened Text
  import opened Dates
  import opened DateFormat
  import opened Types
  import opened SlotKeys
  import opened SlotGenerator
  import opened DateRanges

  const UNKNOWN_PATIENT := "Unknown Patient"
  const NO_PROCEDURE := "N/A"
  const NO_APPOINTMENTS := "No appointments scheduled for this week."

  /** One exported line: `{ time, patientName, procedure }`. */
  datatype Line = Line(time: string, patientName: string, procedure: string)

  /** The patient's name, or "Unknown Patient" when the id has no record. */
  function PatientName(patients: map<string, Patient>, id: string): string {
    if id in patients then patients[id].name else UNKNOWN_PATIENT
  }

  /** The procedure as exported: the shown procedure, or "N/A" when that is empty. */
  function ExportedProcedure(a: Appointment): (p: string)
    ensures p != ""
    ensures DisplayProcedure(a) != "" ==> p == DisplayProcedure(a)
  {
    if DisplayProcedure(a) != "" then DisplayProcedure(a) else NO_PROCEDURE
  }

  /** The slot lies outside the day's hours. A time that does not parse has the
      hour NaN, which compares false both ways, so it is never outside. */
  predicate OutsideHours(d: DaySetting, time: string) {
    var h := SlotHour(time);
    h.Some? && (h.value < d.startTime || h.value >= d.endTime)
  }

  /** The line a slot contributes, if any: the inner `map` callback. */
  function SlotLine(appts: map<string, Appointment>, patients: map<string, Patient>,
                    day: Date, d: DaySetting, time: string): (r: Option<Line>)
    ensures r.Some? <==> !OutsideHours(d, time) && AppointmentKey(day, time) in appts
    ensures r.Some? ==> r.value.time == time
  {
    if OutsideHours(d, time) then None
    else
      var key := AppointmentKey(day, time);
      if key !in appts then None
      else
        var a := appts[key];
        Some(Line(time, PatientName(patients, a.patientId), ExportedProcedure(a)))
  }

  /** `timeSlots.map(...).filter(app => app !== null)`. */
  function CollectLines(times: seq<string>, appts: map<string, Appointment>,
                        patients: map<string, Patient>, day: Date, d: DaySetting): (ls: seq<Line>)
    ensures |ls| <= |times|
  {
    if times == [] then []
    else
      var rest := CollectLines(times[1..], appts, patients, day, d);
      match SlotLine(appts, patients, day, d, times[0])
      case Some(l) => [l] + rest
      case None => rest
  }

  /** The lines of one day: none unless the setting for its weekday exists and is a working day. */
  function DayLines(s: Settings, appts: map<string, Appointment>, patients: map<string, Patient>,
                    day: Date): seq<Line>
    requires s.slotDuration > 0
  {
    var d := DayAt(s, Weekday(day));
    if d.None? || !d.value.isWorkingDay then []
    else CollectLines(TimeSlots(s), appts, patients, day, d.value)
  }

  function LineText(l: Line): string {
    l.time + " - " + l.patientName + " - " + l.procedure + "\n"
  }

  /** The lines written one after another. */
  function LinesText(ls: seq<Line>): string {
    if ls == [] then "" else LinesText(ls[..|ls| - 1]) + LineText(ls[|ls| - 1])
  }

  function DayHeading(day: Date): string {
    "--- " + FullDate(day) + " ---\n"
  }

  /** A day's section: nothing for a day without lines. */
  function DaySection(day: Date, ls: seq<Line>): string {
    if ls == [] then "" else DayHeading(day) + LinesText(ls) + "\n"
  }

  /** The sections of `days`, in order. */
  function Body(s: Settings, appts: map<string, Appointment>, patients: map<string, Patient>,
                days: seq<Date>): string
    requires s.slotDuration > 0
  {
    if days == [] then ""
    else
      var last := days[|days| - 1];
      Body(s, appts, patients, days[..|days| - 1]) + DaySection(last, DayLines(s, appts, patients, last))
  }

  /** `hasAppointments` after visiting `days`. */
  predicate AnyLines(s: Settings, appts: map<string, Appointment>, patients: map<string, Patient>,
                     days: seq<Date>)
    requires s.slotDuration > 0
  {
    days != []
    && (AnyLines(s, appts, patients, days[..|days| - 1])
        || DayLines(s, appts, patients, days[|days| - 1]) != [])
  }

  function Heading(first: Date): string {
    "Dental Appointments - Week of " + FormatDateRangeForView(first, Weekly) + "\n\n"
  }

  /** The exported content for the week given by `weekDays`. */
  function ExportText(s: Settings, appts: map<string, Appointment>, patients: map<string, Patient>,
                      weekDays: seq<Date>): string
    requires s.slotDuration > 0
    requires |weekDays| > 0
  {
    Heading(weekDays[0]) + (Body(s, appts, patients, weekDays)
      + (if AnyLines(s, appts, patients, weekDays) then "" else NO_APPOINTMENTS))
  }

  /** The file name, `DentaPlan_Schedule_yyyy-MM-dd.txt` of the first day. */
  function ExportFileName(first: Date): string {
    "DentaPlan_Schedule_" + IsoDate(first) + ".txt"
  }

  /** The content-building part of `exportScheduleAsText`, with its loops. The
      source reads `weekDays[0]`, so the week must not be empty, and it builds the
      slots with `generateTimeSlots`, so the slot duration must be positive. */
  method ExportContent(s: Settings, appts: map<string, Appointment>, patients: map<string, Patient>,
                       weekDays: seq<Date>) returns (content: string)
    requires s.slotDuration > 0
    requires |weekDays| > 0
    ensures content == ExportText(s, appts, patients, weekDays)
  {
    content := Heading(weekDays[0]);
    var hasAppointments := false;
    var i := 0;
    ExportStarts(s, appts, patients, weekDays);
    while i < |weekDays|
      invariant 0 <= i <= |weekDays|
      invariant ExportedUpTo(s, appts, patients, weekDays, i, content, hasAppointments)
    {
      var section, booked := DaySectionContent(s, appts, patients, weekDays[i]);
      ExportStep(s, appts, patients, weekDays, i, content, hasAppointments, section, booked);
      content := content + section;
      hasAppointments := hasAppointments || booked;
      i := i + 1;
    }
    ExportEnds(s, appts, patients, weekDays, content, hasAppointments);
    if !hasAppointments {
      content := content + NO_APPOINTMENTS;
    }
  }

  /** After `i` passes of the outer loop: the heading and the sections of the first
      `i` days, and whether any of them had a line. */
  ghost predicate ExportedUpTo(s: Settings, appts: map<string, Appointment>, patients: map<string, Patient>,
                               weekDays: seq<Date>, i: nat, content: string, hasAppointments: bool)
  {
    s.slotDuration > 0 && 0 < |weekDays| && i <= |weekDays|
    && content == Heading(weekDays[0]) + Body(s, appts, patients, weekDays[..i])
    && (hasAppointments <==> AnyLines(s, appts, patients, weekDays[..i]))
  }

  lemma ExportStarts(s: Settings, appts: map<string, Appointment>, patients: map<string, Patient>,
                     weekDays: seq<Date>)
    requires s.slotDuration > 0 && |weekDays| > 0
    ensures ExportedUpTo(s, appts, patients, weekDays, 0, Heading(weekDays[0]), false)
  {
    assert weekDays[..0] == [];
  }

  lemma ExportStep(s: Settings, appts: map<string, Appointment>, patients: map<string, Patient>,
                   weekDays: seq<Date>, i: nat, content: string, hasAppointments: bool,
                   section: string, booked: bool)
    requires i < |weekDays| && ExportedUpTo(s, appts, patients, weekDays, i, content, hasAppointments)
    requires section == DaySection(weekDays[i], DayLines(s, appts, patients, weekDays[i]))
    requires booked <==> DayLines(s, appts, patients, weekDays[i]) != []
    ensures ExportedUpTo(s, appts, patients, weekDays, i + 1, content + section, hasAppointments || booked)
  {
    BodySnoc(s, appts, patients, weekDays, i);
    ConcatAssoc(Heading(weekDays[0]), Body(s, appts, patients, weekDays[..i]), section);
  }

  lemma ExportEnds(s: Settings, appts: map<string, Appointment>, patients: map<string, Patient>,
                   weekDays: seq<Date>, content: string, hasAppointments: bool)
    requires ExportedUpTo(s, appts, patients, weekDays, |weekDays|, content, hasAppointments)
    ensures (if hasAppointments then content else content + NO_APPOINTMENTS)
      == ExportText(s, appts, patients, weekDays)
  {
    assert weekDays[..|weekDays|] == weekDays;
    var body := Body(s, appts, patients, weekDays);
    if !hasAppointments {
      ConcatAssoc(Heading(weekDays[0]), body, NO_APPOINTMENTS);
    } else {
      ConcatEmpty(body);
    }
  }

  /** One pass of the outer `forEach`: the section of one day, and whether it set
      `hasAppointments`. */
  method DaySectionContent(s: Settings, appts: map<string, Appointment>, patients: map<string, Patient>,
                           day: Date) returns (section: string, booked: bool)
    requires s.slotDuration > 0
    ensures section == DaySection(day, DayLines(s, appts, patients, day))
    ensures booked <==> DayLines(s, appts, patients, day) != []
  {
    section := "";
    booked := false;
    var d := DayAt(s, Weekday(day));
    if d.Some? && d.value.isWorkingDay {
      var lines := WorkingDayLines(s, appts, patients, day);
      if |lines| > 0 {
        booked := true;
        section := AppendLines(DayHeading(day), lines);
        section := section + "\n";
        SectionText("", day, lines);
      }
    }
  }

  /** The slots of the week, as `generateTimeSlots` builds them, turned into the
      lines of one working day. */
  method WorkingDayLines(s: Settings, appts: map<string, Appointment>, patients: map<string, Patient>,
                         day: Date) returns (lines: seq<Line>)
    requires s.slotDuration > 0
    requires DayAt(s, Weekday(day)).Some? && DayAt(s, Weekday(day)).value.isWorkingDay
    ensures lines == DayLines(s, appts, patients, day)
  {
    var timeSlots := GenerateTimeSlots(s);
    lines := CollectLines(timeSlots, appts, patients, day, s.workingHours[Weekday(day)]);
  }

  /** The inner `forEach`: one line of text per exported line. */
  method AppendLines(start: string, lines: seq<Line>) returns (content: string)
    ensures content == start + LinesText(lines)
  {
    content := start;
    var j := 0;
    assert lines[..0] == [];
    while j < |lines|
      invariant 0 <= j <= |lines|
      invariant content == start + LinesText(lines[..j])
    {
      LinesTextSnoc(lines, j);
      ConcatAssoc(start, LinesText(lines[..j]), LineText(lines[j]));
      content := content + LineText(lines[j]);
      j := j + 1;
    }
    assert lines[..j] == lines;
  }

  lemma SectionText(before: string, day: Date, lines: seq<Line>)
    requires lines != []
    ensures before + DayHeading(day) + LinesText(lines) + "\n" == before + DaySection(day, lines)
  {
    ConcatAssoc(before + DayHeading(day), LinesText(lines), "\n");
    ConcatAssoc(before, DayHeading(day), LinesText(lines) + "\n");
    ConcatAssoc(DayHeading(day), LinesText(lines), "\n");
  }

  lemma ConcatEmpty(a: string)
    ensures a + "" == a
  {
  }

  lemma ConcatAssoc(a: string, b: string, c: string)
    ensures a + b + c == a + (b + c)
  {
  }

  lemma LinesTextSnoc(ls: seq<Line>, j: nat)
    requires j < |ls|
    ensures LinesText(ls[..j + 1]) == LinesText(ls[..j]) + LineText(ls[j])
  {
    assert ls[..j + 1][..j] == ls[..j];
  }

  lemma BodySnoc(s: Settings, appts: map<string, Appointment>, patients: map<string, Patient>,
                 days: seq<Date>, i: nat)
    requires s.slotDuration > 0
    requires i < |days|
    ensures Body(s, appts, patients, days[..i + 1])
      == Body(s, appts, patients, days[..i]) + DaySection(days[i], DayLines(s, appts, patients, days[i]))
    ensures AnyLines(s, appts, patients, days[..i + 1])
      <==> AnyLines(s, appts, patients, days[..i]) || DayLines(s, appts, patients, days[i]) != []
  {
    assert days[..i + 1][..i] == days[..i];
  }

  // ---------------------------------------------------------------- what the export says

  /** The content opens with the heading naming the week of its first day. */
  lemma ExportStartsWithHeading(s: Settings, appts: map<string, Appointment>, patients: map<string, Patient>,
                                weekDays: seq<Date>)
    requires s.slotDuration > 0
    requires |weekDays| > 0
    ensures StartsWith(ExportText(s, appts, patients, weekDays),
      "Dental Appointments - Week of " + FormatDateRangeForView(weekDays[0], Weekly) + "\n\n")
  {
    PrefixOfConcat(Heading(weekDays[0]), Body(s, appts, patients, weekDays)
      + (if AnyLines(s, appts, patients, weekDays) then "" else NO_APPOINTMENTS));
  }

  /** `hasAppointments` is set exactly when some day of the week has a line. */
  lemma {:induction false} AnyLinesIff(s: Settings, appts: map<string, Appointment>,
                                       patients: map<string, Patient>, days: seq<Date>)
    requires s.slotDuration > 0
    ensures AnyLines(s, appts, patients, days) <==>
      exists i :: 0 <= i < |days| && DayLines(s, appts, patients, days[i]) != []
  {
    if AnyLines(s, appts, patients, days) {
      var i := AnyLinesWitness(s, appts, patients, days);
    }
    if exists i :: 0 <= i < |days| && DayLines(s, appts, patients, days[i]) != [] {
      var i :| 0 <= i < |days| && DayLines(s, appts, patients, days[i]) != [];
      AnyLinesAt(s, appts, patients, days, i);
    }
  }

  lemma {:induction false} AnyLinesWitness(s: Settings, appts: map<string, Appointment>,
                                           patients: map<string, Patient>, days: seq<Date>)
    returns (i: nat)
    requires s.slotDuration > 0
    requires AnyLines(s, appts, patients, days)
    ensures i < |days| && DayLines(s, appts, patients, days[i]) != []
  {
    var init := days[..|days| - 1];
    if DayLines(s, appts, patients, days[|days| - 1]) != [] {
      i := |days| - 1;
    } else {
      i := AnyLinesWitness(s, appts, patients, init);
      assert days[i] == init[i];
    }
  }

  lemma {:induction false} AnyLinesAt(s: Settings, appts: map<string, Appointment>,
                                      patients: map<string, Patient>, days: seq<Date>, i: nat)
    requires s.slotDuration > 0
    requires i < |days| && DayLines(s, appts, patients, days[i]) != []
    ensures AnyLines(s, appts, patients, days)
  {
    if i < |days| - 1 {
      var init := days[..|days| - 1];
      assert init[i] == days[i];
      AnyLinesAt(s, appts, patients, init, i);
    }
  }

  /** Without any line no section is written. */
  lemma {:induction false} BodyWithoutLines(s: Settings, appts: map<string, Appointment>,
                                            patients: map<string, Patient>, days: seq<Date>)
    requires s.slotDuration > 0
    requires !AnyLines(s, appts, patients, days)
    ensures Body(s, appts, patients, days) == ""
  {
    if days != [] {
      BodyWithoutLines(s, appts, patients, days[..|days| - 1]);
    }
  }

  /** With some line, the sections written so far end with the blank line after a day. */
  lemma {:induction false} BodyWithLines(s: Settings, appts: map<string, Appointment>,
                                         patients: map<string, Patient>, days: seq<Date>)
    requires s.slotDuration > 0
    requires AnyLines(s, appts, patients, days)
    ensures |Body(s, appts, patients, days)| > 0
    ensures Body(s, appts, patients, days)[|Body(s, appts, patients, days)| - 1] == '\n'
  {
    var init := days[..|days| - 1];
    var last := days[|days| - 1];
    var ls := DayLines(s, appts, patients, last);
    var done := Body(s, appts, patients, init);
    assert Body(s, appts, patients, days) == done + DaySection(last, ls);
    if ls == [] {
      assert AnyLines(s, appts, patients, init);
      BodyWithLines(s, appts, patients, init);
      assert Body(s, appts, patients, days) == done;
    } else {
      var sec := DaySection(last, ls);
      assert sec == (DayHeading(last) + LinesText(ls)) + "\n";
      EndsWithLast(done, sec);
    }
  }

  lemma EndsWithLast(a: string, b: string)
    requires |b| > 0
    ensures (a + b)[|a + b| - 1] == b[|b| - 1]
  {
  }

  /** The closing sentence is written exactly when no working day of the week has a
      booked slot; the content is then just the heading and that sentence. */
  lemma ExportClosing(s: Settings, appts: map<string, Appointment>, patients: map<string, Patient>,
                      weekDays: seq<Date>)
    requires s.slotDuration > 0
    requires |weekDays| > 0
    ensures EndsWith(ExportText(s, appts, patients, weekDays), NO_APPOINTMENTS) <==>
      forall i :: 0 <= i < |weekDays| ==> DayLines(s, appts, patients, weekDays[i]) == []
    ensures (forall i :: 0 <= i < |weekDays| ==> DayLines(s, appts, patients, weekDays[i]) == []) ==>
      ExportText(s, appts, patients, weekDays) == Heading(weekDays[0]) + NO_APPOINTMENTS
  {
    AnyLinesIff(s, appts, patients, weekDays);
    var h := Heading(weekDays[0]);
    var b := Body(s, appts, patients, weekDays);
    if AnyLines(s, appts, patients, weekDays) {
      BodyWithLines(s, appts, patients, weekDays);
      ConcatEmpty(b);
      ClosingAfterLines(h, b);
    } else {
      BodyWithoutLines(s, appts, patients, weekDays);
      assert b + NO_APPOINTMENTS == NO_APPOINTMENTS;
      SuffixOfConcat(h, NO_APPOINTMENTS);
    }
  }

  /** Text that ends with a line break does not end with the closing sentence. */
  lemma ClosingAfterLines(h: string, b: string)
    requires |b| > 0 && b[|b| - 1] == '\n'
    ensures !EndsWith(h + b, NO_APPOINTMENTS)
  {
    var t := h + b;
    assert t[|t| - 1] == '\n';
    assert NO_APPOINTMENTS[|NO_APPOINTMENTS| - 1] == '.';
    if EndsWith(t, NO_APPOINTMENTS) {
      LastOfSuffix(t, NO_APPOINTMENTS);
    }
  }

  /** A day that is not a working day contributes no section. */
  lemma NonWorkingDaySilent(s: Settings, appts: map<string, Appointment>, patients: map<string, Patient>,
                            day: Date)
    requires s.slotDuration > 0
    requires DayAt(s, Weekday(day)).None? || !DayAt(s, Weekday(day)).value.isWorkingDay
    ensures DaySection(day, DayLines(s, appts, patients, day)) == ""
  {
  }

  /** The lines collected from `times` are exactly those of the booked slots within
      the day's hours, each naming its patient (or "Unknown Patient") and its procedure (or "N/A"). */
  lemma {:induction false} CollectLinesMembers(times: seq<string>, appts: map<string, Appointment>,
                                               patients: map<string, Patient>, day: Date, d: DaySetting,
                                               l: Line)
    ensures l in CollectLines(times, appts, patients, day, d) <==>
      l.time in times && !OutsideHours(d, l.time) && AppointmentKey(day, l.time) in appts
      && l.patientName == PatientName(patients, appts[AppointmentKey(day, l.time)].patientId)
      && l.procedure == ExportedProcedure(appts[AppointmentKey(day, l.time)])
  {
    if times != [] {
      CollectLinesMembers(times[1..], appts, patients, day, d, l);
      assert forall t :: t in times <==> t == times[0] || t in times[1..];
    }
  }

  /** The lines keep the order of the slots they come from. */
  lemma {:induction false} CollectLinesOrder(times: seq<string>, appts: map<string, Appointment>,
                                             patients: map<string, Patient>, day: Date, d: DaySetting)
    requires forall i, j :: 0 <= i < j < |times| ==> LexLess(times[i], times[j])
    ensures forall i, j :: 0 <= i < j < |CollectLines(times, appts, patients, day, d)| ==>
      LexLess(CollectLines(times, appts, patients, day, d)[i].time,
              CollectLines(times, appts, patients, day, d)[j].time)
  {
    if times != [] {
      var rest := CollectLines(times[1..], appts, patients, day, d);
      CollectLinesOrder(times[1..], appts, patients, day, d);
      var r := CollectLines(times, appts, patients, day, d);
      var o := SlotLine(appts, patients, day, d, times[0]);
      if o.Some? {
        assert r == [o.value] + rest;
        forall i, j | 0 <= i < j < |r| ensures LexLess(r[i].time, r[j].time) {
          assert r[j] == rest[j - 1] && r[j] in rest;
          CollectLinesMembers(times[1..], appts, patients, day, d, r[j]);
          var k :| 0 <= k < |times[1..]| && times[1..][k] == r[j].time;
          assert times[k + 1] == r[j].time;
          if i > 0 {
            assert r[i] == rest[i - 1];
          }
        }
      }
    }
  }

  /** With valid settings a slot is outside a day's hours exactly when its hour is
      before the start or not before the end. */
  lemma SlotOutsideHours(s: Settings, d: DaySetting, i: nat)
    requires ValidSettings(s)
    requires i < |TimeSlots(s)|
    ensures OutsideHours(d, TimeSlots(s)[i]) <==>
      SlotMinutes(s)[i] / 60 < d.startTime || SlotMinutes(s)[i] / 60 >= d.endTime
  {
    SlotAt(s, i);
    SlotMinutesInDay(s);
    SlotHourOfLabel(SlotMinutes(s)[i]);
  }

  /** Each working day's lines run in time order. */
  lemma DayLinesInTimeOrder(s: Settings, appts: map<string, Appointment>, patients: map<string, Patient>,
                            day: Date, i: nat, j: nat)
    requires ValidSettings(s)
    requires i < j < |DayLines(s, appts, patients, day)|
    ensures LexLess(DayLines(s, appts, patients, day)[i].time, DayLines(s, appts, patients, day)[j].time)
  {
    var d := DayAt(s, Weekday(day));
    var ts := TimeSlots(s);
    forall a, b | 0 <= a < b < |ts| ensures LexLess(ts[a], ts[b]) {
      TimeSlotsIncreasing(s, a, b);
    }
    CollectLinesOrder(ts, appts, patients, day, d.value);
  }

  /** The file name carries the first day's date, which reads back as that day. */
  lemma ExportFileNameDate(first: Date)
    requires FourDigitYear(first)
    ensures StartsWith(ExportFileName(first), "DentaPlan_Schedule_")
    ensures EndsWith(ExportFileName(first), ".txt")
    ensures |ExportFileName(first)| == 33
    ensures ParseIsoDate(ExportFileName(first)[19..29]) == Some(first)
  {
    var n := ExportFileName(first);
    IsoDateShape(first);
    assert n == "DentaPlan_Schedule_" + IsoDate(first) + ".txt";
    assert n[19..29] == IsoDate(first);
    ParseIsoDateRoundTrip(first);
  }
}
