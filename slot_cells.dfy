/** The cells of the weekly grid and of the daily view: whether a slot is inside
    working hours, the appointment booked in it, whether it matches the search,
    the procedure and colour it shows, and what a click on it does. */
module SlotCells {
  import opened Wrappers
  import opened Text
  import opened Dates
  import opened DateFormat
  import opened Types
  import opened SlotKeys
  import opened SlotGenerator

  /** `isWorkingSlot`: the weekday works and the slot's hour lies from its start up
      to, not including, its end. A time that does not parse is never working. */
  predicate IsWorkingSlot(day: Option<DaySetting>, time: string) {
    day.Some? && day.value.isWorkingDay && SlotHour(time).Some?
    && day.value.startTime <= SlotHour(time).value < day.value.endTime
  }

  /** `isMatch`: with a search typed and a known patient, whether the lower-cased name
      contains the lower-cased query; otherwise always. */
  predicate IsMatch(query: string, patient: Option<Patient>) {
    if ToLower(query) != "" && patient.Some? then Includes(ToLower(patient.value.name), ToLower(query))
    else true
  }

  /** The fallback colour: the "Custom" entry of the colour table. */
  const CustomColor := "bg-gray-100 border-gray-300 text-gray-800"

  /** `colorClass`: the colour of the appointment's procedure, "Custom"'s colour for a
      procedure not in the table, nothing for an empty slot. */
  function ColorClass(appointment: Option<Appointment>): (c: string)
    ensures appointment.Some? && ColorOf(appointment.value.procedure).Some? ==> c == ColorOf(appointment.value.procedure).value
    ensures appointment.Some? && ColorOf(appointment.value.procedure).None? ==> c == ColorOf(CUSTOM).value
    ensures appointment.None? ==> c == ""
  {
    CustomHasColor();
    if appointment.None? then ""
    else
      match ColorOf(appointment.value.procedure)
      case Some(color) => color
      case None => CustomColor
  }

  /** What a cell shows. */
  datatype Content =
    | PatientCard(patientName: string, procedureName: string, phone: string)
    | UnknownPatient(procedureName: string)
    | AddHint
    | Blank

  datatype Cell = Cell(
    slot: Slot,
    isWorkingSlot: bool,
    appointment: Option<Appointment>,
    colorClass: string,
    dimmed: bool,
    content: Content)

  /** The record lookups `appointments[key]` and `patients[appointment.patientId]`. */
  function BookedAt(appts: map<string, Appointment>, day: Date, time: string): (a: Option<Appointment>)
    ensures a.Some? <==> AppointmentKey(day, time) in appts
    ensures a.Some? ==> a.value == appts[AppointmentKey(day, time)]
  {
    var key := AppointmentKey(day, time);
    if key in appts then Some(appts[key]) else None
  }

  function PatientOf(patients: map<string, Patient>, appointment: Option<Appointment>): (p: Option<Patient>)
    ensures p.Some? <==> appointment.Some? && appointment.value.patientId in patients
    ensures p.Some? ==> p.value == patients[appointment.value.patientId]
  {
    if appointment.Some? && appointment.value.patientId in patients then Some(patients[appointment.value.patientId])
    else None
  }

  /** One cell, given the setting of its weekday. */
  function MakeCell(appts: map<string, Appointment>, patients: map<string, Patient>, query: string,
                    daySetting: Option<DaySetting>, day: Date, time: string): Cell
  {
    var working := IsWorkingSlot(daySetting, time);
    var appointment := BookedAt(appts, day, time);
    var patient := PatientOf(patients, appointment);
    var content :=
      if appointment.Some? && patient.Some? then
        PatientCard(patient.value.name, DisplayProcedure(appointment.value), patient.value.phone)
      else if appointment.Some? then UnknownPatient(DisplayProcedure(appointment.value))
      else if working then AddHint
      else Blank;
    Cell(Slot(day, time), working, appointment, ColorClass(appointment),
      ToLower(query) != "" && appointment.Some? && !IsMatch(query, patient), content)
  }

  /** The cell of the weekly grid for `day` at `time`. */
  function GridCell(s: Settings, appts: map<string, Appointment>, patients: map<string, Patient>, query: string,
                    day: Date, time: string): Cell
  {
    MakeCell(appts, patients, query, DayAt(s, Weekday(day)), day, time)
  }

  /** `onClick={() => isWorkingSlot && onSlotClick(day, time)}`: the slot handed to
      the page, if any. */
  function Click(c: Cell): (clicked: Option<Slot>)
    ensures clicked.Some? <==> c.isWorkingSlot
    ensures clicked.Some? ==> clicked.value == c.slot
  {
    if c.isWorkingSlot then Some(c.slot) else None
  }

  // ---------------------------------------------------------------- what a cell shows

  /** A cell shows its appointment's patient when that patient is stored, "Unknown
      Patient" when the appointment's patient is missing, the add hint on an empty
      working slot, and nothing on an empty slot outside working hours. */
  lemma CellContent(s: Settings, appts: map<string, Appointment>, patients: map<string, Patient>, query: string,
                    day: Date, time: string)
    ensures GridCell(s, appts, patients, query, day, time).content.PatientCard?
      <==> AppointmentKey(day, time) in appts && appts[AppointmentKey(day, time)].patientId in patients
    ensures GridCell(s, appts, patients, query, day, time).content.UnknownPatient?
      <==> AppointmentKey(day, time) in appts && appts[AppointmentKey(day, time)].patientId !in patients
    ensures GridCell(s, appts, patients, query, day, time).content == AddHint
      <==> AppointmentKey(day, time) !in appts && IsWorkingSlot(DayAt(s, Weekday(day)), time)
    ensures GridCell(s, appts, patients, query, day, time).content.PatientCard? ==>
      GridCell(s, appts, patients, query, day, time).content.patientName
        == patients[appts[AppointmentKey(day, time)].patientId].name
  {
  }

  /** A booked cell always has a colour from the table, and shows the custom name for
      a "Custom" procedure and the procedure otherwise. */
  lemma BookedCellLooks(s: Settings, appts: map<string, Appointment>, patients: map<string, Patient>, query: string,
                        day: Date, time: string)
    requires AppointmentKey(day, time) in appts
    ensures exists i :: (0 <= i < |ProcedureColors|
                         && GridCell(s, appts, patients, query, day, time).colorClass == ProcedureColors[i].1)
    ensures appts[AppointmentKey(day, time)].procedure == CUSTOM ==>
      ProcedureNameShown(GridCell(s, appts, patients, query, day, time)) == appts[AppointmentKey(day, time)].customProcedureName
    ensures appts[AppointmentKey(day, time)].procedure != CUSTOM ==>
      ProcedureNameShown(GridCell(s, appts, patients, query, day, time)) == appts[AppointmentKey(day, time)].procedure
  {
    var booked := BookedAt(appts, day, time);
    var c := GridCell(s, appts, patients, query, day, time);
    assert c.colorClass == ColorClass(booked);
    ColorFromTable(booked);
  }

  /** The colour of a booked slot is one of the colour table's. */
  lemma ColorFromTable(appointment: Option<Appointment>)
    requires appointment.Some?
    ensures exists i :: 0 <= i < |ProcedureColors| && ColorClass(appointment) == ProcedureColors[i].1
  {
    match ColorOf(appointment.value.procedure)
    case Some(color) =>
      var i :| 0 <= i < |ProcedureColors| && ProcedureColors[i] == (appointment.value.procedure, color);
    case None =>
      CustomHasColor();
      assert ProcedureColors[8].1 == CustomColor;
  }

  /** The procedure line of a booked cell. */
  function ProcedureNameShown(c: Cell): string {
    match c.content
    case PatientCard(_, name, _) => name
    case UnknownPatient(name) => name
    case _ => ""
  }

  /** A cell is dimmed exactly when a search is typed, the slot is booked, its patient
      is stored, and the patient's name does not contain the search; empty slots and
      unknown patients are never dimmed. */
  lemma DimmedCells(s: Settings, appts: map<string, Appointment>, patients: map<string, Patient>, query: string,
                    day: Date, time: string)
    ensures query == "" ==> !GridCell(s, appts, patients, query, day, time).dimmed
    ensures AppointmentKey(day, time) !in appts ==> !GridCell(s, appts, patients, query, day, time).dimmed
    ensures GridCell(s, appts, patients, query, day, time).content.UnknownPatient? ==>
      !GridCell(s, appts, patients, query, day, time).dimmed
    ensures GridCell(s, appts, patients, query, day, time).dimmed <==>
      (ToLower(query) != "" && AppointmentKey(day, time) in appts
       && appts[AppointmentKey(day, time)].patientId in patients
       && !Includes(ToLower(patients[appts[AppointmentKey(day, time)].patientId].name), ToLower(query)))
  {
  }

  // ---------------------------------------------------------------- search and hours

  lemma LowerCharIdempotent(c: char)
    ensures LowerChar(LowerChar(c)) == LowerChar(c)
  {
  }

  lemma ToLowerIdempotent(q: string)
    ensures ToLower(ToLower(q)) == ToLower(q)
  {
    forall i | 0 <= i < |q| ensures ToLower(ToLower(q))[i] == ToLower(q)[i] {
      LowerCharIdempotent(q[i]);
    }
  }

  lemma {:induction false} IncludesItself(s: string)
    ensures Includes(s, s)
  {
    assert s[..|s|] == s;
  }

  /** The search ignores letter case in the query, and a patient's own name, however
      it is capitalised, always matches. */
  lemma MatchIgnoresCase(query: string, patient: Option<Patient>)
    ensures IsMatch(ToLower(query), patient) == IsMatch(query, patient)
    ensures patient.Some? && ToLower(query) == ToLower(patient.value.name) ==> IsMatch(query, patient)
  {
    ToLowerIdempotent(query);
    if patient.Some? {
      IncludesItself(ToLower(patient.value.name));
    }
  }

  /** For a slot made by `generateTimeSlots`, working means the weekday works and
      the slot starts in an hour from the day's start to before its end. */
  lemma GeneratedSlotWorking(s: Settings, i: nat, day: Date)
    requires ValidSettings(s) && i < |TimeSlots(s)|
    ensures IsWorkingSlot(DayAt(s, Weekday(day)), TimeSlots(s)[i])
      <==> s.workingHours[Weekday(day)].isWorkingDay
           && s.workingHours[Weekday(day)].startTime <= SlotMinutes(s)[i] / 60 < s.workingHours[Weekday(day)].endTime
  {
    SlotAt(s, i);
    SlotMinutesInDay(s);
    SlotHourOfLabel(SlotMinutes(s)[i]);
  }

  // ---------------------------------------------------------------- the two layouts

  /** The weekly grid: a row per slot time, a cell per day of the week. */
  function WeekGrid(s: Settings, appts: map<string, Appointment>, patients: map<string, Patient>, query: string,
                    weekDays: seq<Date>): (rows: seq<seq<Cell>>)
    requires s.slotDuration > 0
    ensures |rows| == |TimeSlots(s)|
    ensures forall i :: 0 <= i < |rows| ==> |rows[i]| == |weekDays|
    ensures forall i, j :: 0 <= i < |rows| && 0 <= j < |weekDays| ==>
      rows[i][j] == GridCell(s, appts, patients, query, weekDays[j], TimeSlots(s)[i])
  {
    var times := TimeSlots(s);
    seq(|times|, i requires 0 <= i < |times| =>
      seq(|weekDays|, j requires 0 <= j < |weekDays| => GridCell(s, appts, patients, query, weekDays[j], times[i])))
  }

  /** The daily view: one cell per slot time, under the setting of the day's weekday. */
  function DailyColumn(s: Settings, appts: map<string, Appointment>, patients: map<string, Patient>, query: string,
                       date: Date): (cells: seq<Cell>)
    requires s.slotDuration > 0
    ensures |cells| == |TimeSlots(s)|
  {
    var times := TimeSlots(s);
    var daySetting := DayAt(s, Weekday(date));
    seq(|times|, i requires 0 <= i < |times| => MakeCell(appts, patients, query, daySetting, date, times[i]))
  }

  /** The daily view of a day shows the same cells as that day's column in the
      weekly grid. */
  lemma DailyMatchesWeekly(s: Settings, appts: map<string, Appointment>, patients: map<string, Patient>, query: string,
                           weekDays: seq<Date>, j: nat)
    requires s.slotDuration > 0 && j < |weekDays|
    ensures forall i :: 0 <= i < |TimeSlots(s)| ==>
      DailyColumn(s, appts, patients, query, weekDays[j])[i] == WeekGrid(s, appts, patients, query, weekDays)[i][j]
  {
  }

  /** Clicking hands the page exactly the slot clicked, and only inside working hours;
      its key is the key the cell's appointment is looked up under. */
  lemma ClickedSlot(s: Settings, appts: map<string, Appointment>, patients: map<string, Patient>, query: string,
                    day: Date, time: string)
    ensures Click(GridCell(s, appts, patients, query, day, time)).Some?
      <==> IsWorkingSlot(DayAt(s, Weekday(day)), time)
    ensures Click(GridCell(s, appts, patients, query, day, time)).Some? ==>
      SlotKey(Click(GridCell(s, appts, patients, query, day, time)).value) == AppointmentKey(day, time)
  {
  }
}
