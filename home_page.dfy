/** `HomePage`: the application's state and its handlers. The page owns the
    settings, the patient and appointment records (persisted in local storage),
    the active tab, which modal is open, the patient being edited, the patient
    awaiting deletion and the selected calendar slot. Each handler is a method
    that updates those fields; `Snapshot` gathers them so that a contract can
    state the whole new state at once. */
module HomePage {
  import opened Wrappers
  import opened Text
  import opened Dates
  import opened DateFormat
  import opened Types
  import opened SlotKeys
  import opened SlotGenerator
  import Sorting
  import Records

  /** `AppView`: the five tabs. */
  datatype AppView = DashboardTab | CalendarTab | PatientsTab | ReportsTab | SettingsTab

  /** Where the patient modal returns to when it closes (`null` is `NoReturn`). */
  datatype ReturnTo = NoReturn | ToManage | ToAppointment

  datatype EditingContext = EditingContext(patient: Option<Patient>, returnTo: ReturnTo)

  const NoEditing := EditingContext(None, NoReturn)

  /** `DEFAULT_SETTINGS`: Monday to Friday from 9 to 17, half-hour slots, not yet configured. */
  const DefaultSettings: Settings := Settings(
    [DaySetting(false, 9, 17), DaySetting(true, 9, 17), DaySetting(true, 9, 17),
     DaySetting(true, 9, 17), DaySetting(true, 9, 17), DaySetting(true, 9, 17),
     DaySetting(false, 9, 17)],
    30, false)

  /** All the page's state as one value. */
  datatype AppState = AppState(
    settings: Settings,
    patients: map<string, Patient>,
    appointments: map<string, Appointment>,
    activeView: AppView,
    isPatientModalOpen: bool,
    isConfirmationDialogOpen: bool,
    isAppointmentModalOpen: bool,
    editingContext: EditingContext,
    patientToDelete: Option<string>,
    selectedSlot: Option<Slot>)

  // ---------------------------------------------------------------- the default week

  /** The default week: Monday to Friday are working days, every day runs from 9 to
      17 o'clock, and slots last thirty minutes. */
  lemma DefaultShape(s: Settings)
    requires s == DefaultSettings
    ensures ValidSettings(s)
    ensures s.workingHours[1].isWorkingDay
    ensures s.slotDuration == 30
    ensures forall i :: 0 <= i < 7 ==> s.workingHours[i].startTime == 9 && s.workingHours[i].endTime == 17
  {
  }

  /** A week like the default one, all days from 9 to 17 o'clock with thirty-minute
      slots, offers sixteen slots, from 09:00 to 16:30. */
  lemma NineToFiveSlots(s: Settings, w: int)
    requires ValidSettings(s) && s.slotDuration == 30
    requires 0 <= w < 7 && s.workingHours[w].isWorkingDay
    requires forall i :: 0 <= i < 7 ==> s.workingHours[i].startTime == 9 && s.workingHours[i].endTime == 17
    ensures |TimeSlots(s)| == 16
    ensures TimeSlots(s)[0] == "09:00"
    ensures TimeSlots(s)[15] == "16:30"
  {
    var open, close := 9, 17;
    UniformWeekSlots(s, w, open, close);
    var first, last, step, n := open * 60, close * 60, s.slotDuration, 16;
    FirstAndLastSlot(s, first, last, step, n);
    FirstDefaultLabel();
    LastDefaultLabel();
  }

  /** A week whose days all run from `first` to `last` o'clock, one of them a working
      day, has its slots from `first` o'clock until `last`. */
  lemma UniformWeekSlots(s: Settings, w: int, first: int, last: int)
    requires ValidSettings(s)
    requires 0 <= w < 7 && s.workingHours[w].isWorkingDay
    requires forall i :: 0 <= i < 7 ==> s.workingHours[i].startTime == first && s.workingHours[i].endTime == last
    ensures SlotMinutes(s) == SlotMinutesFrom(first * 60, last * 60, s.slotDuration)
  {
    var ws := WorkingDays(s.workingHours);
    assert s.workingHours[w] in ws;
    assert forall d :: d in s.workingHours ==> d.startTime == first && d.endTime == last;
    assert forall i :: 0 <= i < |ws| ==> ws[i] in s.workingHours;
  }

  /** `n` slots of `step` minutes from minute `start` reach `end` when `n` steps do
      and `n - 1` do not. */
  lemma FirstAndLastSlot(s: Settings, start: int, end: int, step: int, n: int)
    requires step > 0 && s.slotDuration > 0 && SlotMinutes(s) == SlotMinutesFrom(start, end, step)
    requires n >= 1 && start + (n - 1) * step < end <= start + n * step
    ensures |TimeSlots(s)| == n
    ensures TimeSlots(s)[0] == Label(start)
    ensures TimeSlots(s)[n - 1] == Label(start + (n - 1) * step)
  {
    assert TimeSlots(s) == Labels(SlotMinutesFrom(start, end, step));
    FirstAndLastLabel(start, end, step, n);
  }

  lemma FirstAndLastLabel(start: int, end: int, step: int, n: int)
    requires step > 0 && n >= 1 && start + (n - 1) * step < end <= start + n * step
    ensures |Labels(SlotMinutesFrom(start, end, step))| == n
    ensures Labels(SlotMinutesFrom(start, end, step))[0] == Label(start)
    ensures Labels(SlotMinutesFrom(start, end, step))[n - 1] == Label(start + (n - 1) * step)
  {
    var ms := SlotMinutesFrom(start, end, step);
    SlotCount(start, end, step, n);
    SlotMinuteAt(start, end, step, n - 1);
    LabelAt(ms, 0);
    LabelAt(ms, n - 1);
  }

  lemma SlotCount(start: int, end: int, step: int, n: int)
    requires step > 0 && n >= 1 && start + (n - 1) * step < end <= start + n * step
    ensures |SlotMinutesFrom(start, end, step)| == n
  {
    var m := |SlotMinutesFrom(start, end, step)|;
    assert m > 0;
    SlotMinuteAt(start, end, step, m - 1);
    assert (m - 1) * step + step == m * step;
    if m < n {
      MulMonotone(m, n - 1, step);
      assert false;
    } else if m > n {
      MulMonotone(n, m - 1, step);
      assert false;
    }
  }

  lemma FirstDefaultLabel()
    ensures Label(540) == "09:00"
  {
    TimeLabelOnHour(9);
    TwoDigits(9);
  }

  lemma LastDefaultLabel()
    ensures Label(990) == "16:30"
  {
    TwoDigits(16);
    TwoDigits(30);
  }

  // ---------------------------------------------------------------- deleting a patient

  /** An appointment of the deleted patient loses its patient id. */
  function Orphan(a: Appointment, patientId: string): (r: Appointment)
    ensures r.id == a.id && r.procedure == a.procedure
    ensures r.customProcedureName == a.customProcedureName && r.notes == a.notes
    ensures r.patientId == if a.patientId == patientId then "" else a.patientId
  {
    if a.patientId == patientId then a.(patientId := "") else a
  }

  /** The appointments after `patientId` is deleted: every slot is kept, and exactly
      the deleted patient's appointments lose their patient id. */
  function Orphaned(appts: map<string, Appointment>, patientId: string): (r: map<string, Appointment>)
    ensures r.Keys == appts.Keys
    ensures forall k :: k in appts ==> r[k] == Orphan(appts[k], patientId)
  {
    map k | k in appts :: Orphan(appts[k], patientId)
  }

  /** Deleting the same patient twice changes nothing the second time. */
  lemma OrphanedIdempotent(appts: map<string, Appointment>, patientId: string)
    ensures Orphaned(Orphaned(appts, patientId), patientId) == Orphaned(appts, patientId)
  {
    var once := Orphaned(appts, patientId);
    var twice := Orphaned(once, patientId);
    assert twice.Keys == once.Keys;
    forall k | k in once ensures twice[k] == once[k] {
    }
  }

  /** The loop of `handleDeletePatient` that clears the patient id of the deleted
      patient's appointments, key by key. */
  method OrphanAppointments(appts: map<string, Appointment>, patientId: string)
    returns (r: map<string, Appointment>)
    ensures r == Orphaned(appts, patientId)
  {
    r := appts;
    var keys := Records.SortedKeys(appts);
    var i := 0;
    OrphanedNone(appts, patientId, keys);
    while i < |keys|
      invariant 0 <= i <= |keys|
      invariant OrphanedUpTo(appts, patientId, keys, i, r)
    {
      var key := keys[i];
      ghost var before := r;
      if r[key].patientId == patientId {
        r := r[key := r[key].(patientId := "")];
      }
      OrphanStep(appts, patientId, keys, i, before, r);
      i := i + 1;
    }
    OrphanedAll(appts, patientId, keys, r);
  }

  /** After `i` passes of the loop: the keys before `i` are orphaned, the others as
      stored. */
  ghost predicate OrphanedUpTo(appts: map<string, Appointment>, patientId: string, keys: seq<string>, i: nat,
                               r: map<string, Appointment>)
  {
    i <= |keys| && r.Keys == appts.Keys
    && forall k :: k in r ==> r[k] == if k in keys[..i] then Orphan(appts[k], patientId) else appts[k]
  }

  lemma OrphanedNone(appts: map<string, Appointment>, patientId: string, keys: seq<string>)
    ensures OrphanedUpTo(appts, patientId, keys, 0, appts)
  {
    assert keys[..0] == [];
  }

  /** One step of the loop: the key at `i` is now orphaned as well. */
  lemma OrphanStep(appts: map<string, Appointment>, patientId: string, keys: seq<string>, i: nat,
                   before: map<string, Appointment>, after: map<string, Appointment>)
    requires i < |keys| && OrphanedUpTo(appts, patientId, keys, i, before) && keys[i] in before
    requires after == if before[keys[i]].patientId == patientId
      then before[keys[i] := before[keys[i]].(patientId := "")] else before
    ensures OrphanedUpTo(appts, patientId, keys, i + 1, after)
  {
    assert keys[..i + 1] == keys[..i] + [keys[i]];
  }

  lemma OrphanedAll(appts: map<string, Appointment>, patientId: string, keys: seq<string>, r: map<string, Appointment>)
    requires OrphanedUpTo(appts, patientId, keys, |keys|, r)
    requires forall k :: k in appts ==> k in keys
    ensures r == Orphaned(appts, patientId)
  {
    assert keys[..|keys|] == keys;
    var expected := Orphaned(appts, patientId);
    assert r.Keys == expected.Keys;
  }

  // ---------------------------------------------------------------- booking from the dashboard

  /** `Math.ceil(minutes / slotDuration) * slotDuration` for a minute of the hour. */
  function RoundedMinutes(minute: nat, duration: int): int
    requires duration > 0
  {
    (minute + duration - 1) / duration * duration
  }

  /** The rounded minute is the first multiple of the slot length at or after `minute`. */
  lemma RoundedMinutesIsCeiling(minute: nat, duration: int, k: int)
    requires duration > 0
    requires k >= minute && k % duration == 0
    ensures RoundedMinutes(minute, duration) % duration == 0
    ensures minute <= RoundedMinutes(minute, duration) < minute + duration
    ensures RoundedMinutes(minute, duration) <= k
  {
    var q := (minute + duration - 1) / duration;
    var rem := (minute + duration - 1) % duration;
    assert minute + duration - 1 == q * duration + rem;
    DivModUnique(q * duration, duration, q, 0);
    var p := k / duration;
    assert k == p * duration;
    if p < q {
      MulMonotone(p, q - 1, duration);
      assert false;
    }
    MulMonotone(q, p, duration);
  }

  /** Division with remainder is unique. */
  lemma DivModUnique(x: int, d: int, q: int, rem: int)
    requires d > 0 && x == q * d + rem && 0 <= rem < d
    ensures x / d == q && x % d == rem
  {
    var q0, r0 := x / d, x % d;
    assert x == q0 * d + r0;
    assert (q - q0) * d == r0 - rem;
    if q - q0 >= 1 {
      MulMonotone(1, q - q0, d);
      assert false;
    } else if q - q0 <= -1 {
      MulMonotone(q - q0, -1, d);
      assert false;
    }
  }

  lemma MulMonotone(a: int, b: int, d: int)
    requires a <= b && d > 0
    ensures a * d <= b * d
  {
  }

  /** The time `handleBookAppointmentFromDashboard` picks at `hour:minute`: the minute
      is rounded up to the slot length and `setMinutes` carries any overflow into the
      hour, wrapping past midnight. */
  function BookingTime(hour: int, minute: nat, duration: int): string
    requires duration > 0
  {
    Label(hour * 60 + RoundedMinutes(minute, duration))
  }

  /** The booked time shows the hour advanced by the carried hours (wrapping at 24)
      and the rounded minute within its hour. */
  lemma BookingTimeDigits(hour: int, minute: nat, duration: int)
    requires 0 <= hour < 24 && duration > 0
    ensures BookingTime(hour, minute, duration)
      == Digits((hour + RoundedMinutes(minute, duration) / 60) % 24, 2) + ":"
         + Digits(RoundedMinutes(minute, duration) % 60, 2)
  {
    var r := RoundedMinutes(minute, duration);
    assert r >= 0;
    CarryMinutes(hour, r);
  }

  lemma CarryMinutes(hour: int, r: int)
    requires 0 <= hour < 24 && r >= 0
    ensures (hour * 60 + r) % 1440 / 60 == (hour + r / 60) % 24
    ensures (hour * 60 + r) % 1440 % 60 == r % 60
  {
    var c, m := r / 60, r % 60;
    var h, w := (hour + c) % 24, (hour + c) / 24;
    DivModUnique(r, 60, c, m);
    DivModUnique(hour + c, 24, w, h);
    DivModUnique(hour * 60 + r, 1440, w, h * 60 + m);
    DivModUnique(h * 60 + m, 60, h, m);
  }

  /** At 10:50 with half-hour slots the booking is for 11:00; at 23:50 it wraps to
      00:00, which `handleSlotClick` then books on today's date. */
  lemma BookingExamples()
    ensures BookingTime(10, 50, 30) == "11:00"
    ensures BookingTime(23, 50, 30) == "00:00"
    ensures BookingTime(9, 0, 30) == "09:00"
  {
    BookingBeforeEleven();
    BookingBeforeMidnight();
    BookingOnTheHour();
  }

  lemma BookingBeforeEleven()
    ensures BookingTime(10, 50, 30) == "11:00"
  {
    BookingTimeDigits(10, 50, 30);
    assert RoundedMinutes(50, 30) == 60;
    assert (10 + 60 / 60) % 24 == 11 && 60 % 60 == 0;
    TwoDigits(11);
    TwoDigits(0);
  }

  lemma BookingBeforeMidnight()
    ensures BookingTime(23, 50, 30) == "00:00"
  {
    BookingTimeDigits(23, 50, 30);
    assert RoundedMinutes(50, 30) == 60;
    TwoDigits(0);
  }

  lemma BookingOnTheHour()
    ensures BookingTime(9, 0, 30) == "09:00"
  {
    BookingTimeDigits(9, 0, 30);
    assert RoundedMinutes(0, 30) == 0;
    assert (9 + 0 / 60) % 24 == 9 && 0 % 60 == 0;
    TwoDigits(9);
    TwoDigits(0);
  }

  // ---------------------------------------------------------------- the patient list

  predicate ByName(a: Patient, b: Patient) {
    LexLe(a.name, b.name)
  }

  lemma ByNameIsOrder()
    ensures Sorting.Total(ByName) && Sorting.Transitive(ByName)
  {
    forall a, b ensures ByName(a, b) || ByName(b, a) {
      LexLeTotal(a.name, b.name);
    }
    forall a, b, c | ByName(a, b) && ByName(b, c) ensures ByName(a, c) {
      LexLeTransitive(a.name, b.name, c.name);
    }
  }

  /** `patientList`: the patients sorted by name. */
  function PatientList(patients: map<string, Patient>): seq<Patient> {
    Sorting.Sort(Records.Values(patients), ByName)
  }

  /** The list holds every patient once and is in name order. */
  lemma PatientListSpec(patients: map<string, Patient>, p: Patient)
    ensures |PatientList(patients)| == |patients|
    ensures Sorting.SortedBy(PatientList(patients), ByName)
    ensures p in PatientList(patients) <==> exists id :: id in patients && patients[id] == p
  {
    ByNameIsOrder();
    Sorting.SortSorted(Records.Values(patients), ByName);
    Records.ValuesMembers(patients, p);
    assert p in PatientList(patients) <==> p in multiset(PatientList(patients));
    assert p in Records.Values(patients) <==> p in multiset(Records.Values(patients));
  }

  // ---------------------------------------------------------------- the page

  class App {
    var settings: Settings
    var patients: map<string, Patient>
    var appointments: map<string, Appointment>
    var activeView: AppView
    var isPatientModalOpen: bool
    var isConfirmationDialogOpen: bool
    var isAppointmentModalOpen: bool
    var editingContext: EditingContext
    var patientToDelete: Option<string>
    var selectedSlot: Option<Slot>

    function Snapshot(): AppState
      reads this
    {
      AppState(settings, patients, appointments, activeView, isPatientModalOpen,
        isConfirmationDialogOpen, isAppointmentModalOpen, editingContext, patientToDelete,
        selectedSlot)
    }

    /** The page as it first renders: the stored settings and records, or the
        defaults and empty records when nothing is stored. */
    constructor(storedSettings: Option<Settings>, storedPatients: Option<map<string, Patient>>,
                storedAppointments: Option<map<string, Appointment>>)
      ensures Snapshot() == AppState(storedSettings.GetOr(DefaultSettings),
        storedPatients.GetOr(map[]), storedAppointments.GetOr(map[]), DashboardTab,
        false, false, false, NoEditing, None, None)
    {
      settings := storedSettings.GetOr(DefaultSettings);
      patients := storedPatients.GetOr(map[]);
      appointments := storedAppointments.GetOr(map[]);
      activeView := DashboardTab;
      isPatientModalOpen := false;
      isConfirmationDialogOpen := false;
      isAppointmentModalOpen := false;
      editingContext := NoEditing;
      patientToDelete := None;
      selectedSlot := None;
    }

    /** The onboarding wizard replaces the page until the settings are configured. */
    predicate ShowsOnboarding()
      reads this
    {
      !settings.isConfigured
    }

    /** `handleSaveSettings`: the new settings are stored as configured and the
        dashboard opens, so the onboarding wizard is gone. */
    method HandleSaveSettings(newSettings: Settings)
      modifies this
      ensures Snapshot() == old(Snapshot()).(settings := newSettings.(isConfigured := true),
        activeView := DashboardTab)
      ensures !ShowsOnboarding()
      ensures settings.workingHours == newSettings.workingHours
      ensures settings.slotDuration == newSettings.slotDuration
    {
      settings := newSettings.(isConfigured := true);
      activeView := DashboardTab;
    }

    /** A tab chosen in the navigation bar. */
    method SetActiveView(view: AppView)
      modifies this
      ensures Snapshot() == old(Snapshot()).(activeView := view)
    {
      activeView := view;
    }

    method HandleOpenAddPatientModal()
      modifies this
      ensures Snapshot() == old(Snapshot()).(editingContext := NoEditing, isPatientModalOpen := true)
    {
      editingContext := NoEditing;
      isPatientModalOpen := true;
    }

    /** Editing a patient from the appointment modal hides that modal until the
        patient modal closes. */
    method HandleOpenEditPatient(patient: Patient, returnTo: ReturnTo)
      requires returnTo != NoReturn
      modifies this
      ensures Snapshot() == old(Snapshot()).(
        editingContext := EditingContext(Some(patient), returnTo),
        isPatientModalOpen := true,
        isAppointmentModalOpen := if returnTo == ToAppointment then false else old(isAppointmentModalOpen))
    {
      editingContext := EditingContext(Some(patient), returnTo);
      isPatientModalOpen := true;
      if returnTo == ToAppointment {
        isAppointmentModalOpen := false;
      }
    }

    /** Closing the patient modal reopens the appointment modal it came from. */
    method HandleClosePatientModal()
      modifies this
      ensures Snapshot() == old(Snapshot()).(
        isPatientModalOpen := false,
        isAppointmentModalOpen := if old(editingContext.returnTo) == ToAppointment then true
                                  else old(isAppointmentModalOpen),
        editingContext := NoEditing)
    {
      isPatientModalOpen := false;
      if editingContext.returnTo == ToAppointment {
        isAppointmentModalOpen := true;
      }
      editingContext := NoEditing;
    }

    /** `handleSavePatient`: the patient is stored under its id, replacing any
        earlier version, and the modal closes. */
    method HandleSavePatient(patient: Patient)
      modifies this
      ensures Snapshot() == old(Snapshot()).(
        patients := old(patients)[patient.id := patient],
        isPatientModalOpen := false,
        isAppointmentModalOpen := if old(editingContext.returnTo) == ToAppointment then true
                                  else old(isAppointmentModalOpen),
        editingContext := NoEditing)
      ensures patient.id in patients && patients[patient.id] == patient
    {
      patients := patients[patient.id := patient];
      HandleClosePatientModal();
    }

    method HandleOpenDeleteConfirmation(patientId: string)
      modifies this
      ensures Snapshot() == old(Snapshot()).(patientToDelete := Some(patientId),
        isConfirmationDialogOpen := true)
    {
      patientToDelete := Some(patientId);
      isConfirmationDialogOpen := true;
    }

    /** The confirmation dialog dismissed without deleting. */
    method HandleCloseConfirmation()
      modifies this
      ensures Snapshot() == old(Snapshot()).(isConfirmationDialogOpen := false)
    {
      isConfirmationDialogOpen := false;
    }

    /** `handleDeletePatient`: a pending, non-empty patient id is removed from the
        patients and its appointments are orphaned; the dialog always closes and
        nothing is pending afterwards. */
    method HandleDeletePatient()
      modifies this
      ensures old(patientToDelete).Some? && old(patientToDelete).value != "" ==>
        Snapshot() == old(Snapshot()).(
          patients := old(patients) - {old(patientToDelete).value},
          appointments := Orphaned(old(appointments), old(patientToDelete).value),
          isConfirmationDialogOpen := false,
          patientToDelete := None)
      ensures !(old(patientToDelete).Some? && old(patientToDelete).value != "") ==>
        Snapshot() == old(Snapshot()).(isConfirmationDialogOpen := false, patientToDelete := None)
    {
      if patientToDelete.Some? && patientToDelete.value != "" {
        var id := patientToDelete.value;
        patients := patients - {id};
        appointments := OrphanAppointments(appointments, id);
      }
      isConfirmationDialogOpen := false;
      patientToDelete := None;
    }

    /** `handleSlotClick`: the slot is selected and the appointment modal opens. */
    method HandleSlotClick(date: Date, time: string)
      modifies this
      ensures Snapshot() == old(Snapshot()).(selectedSlot := Some(Slot(date, time)),
        isAppointmentModalOpen := true)
    {
      selectedSlot := Some(Slot(date, time));
      isAppointmentModalOpen := true;
    }

    /** `handleBookAppointmentFromDashboard` at `hour:minute` of `today`: the calendar
        opens and the slot at the rounded-up time of today is selected. */
    method HandleBookAppointmentFromDashboard(today: Date, hour: int, minute: nat)
      requires 0 <= hour < 24 && minute < 60 && settings.slotDuration > 0
      modifies this
      ensures Snapshot() == old(Snapshot()).(activeView := CalendarTab,
        selectedSlot := Some(Slot(today, BookingTime(hour, minute, old(settings.slotDuration)))),
        isAppointmentModalOpen := true)
    {
      activeView := CalendarTab;
      HandleSlotClick(today, BookingTime(hour, minute, settings.slotDuration));
    }

    /** The appointment stored in the selected slot, if any. */
    function ExistingAppointment(): (a: Option<Appointment>)
      reads this
      ensures a.Some? <==> selectedSlot.Some? && SlotKey(selectedSlot.value) in appointments
      ensures a.Some? ==> a.value == appointments[SlotKey(selectedSlot.value)]
    {
      if selectedSlot.Some? && SlotKey(selectedSlot.value) in appointments
      then Some(appointments[SlotKey(selectedSlot.value)])
      else None
    }

    /** `handleSaveAppointment`: with a slot selected, the appointment is stored
        under the slot's key; the modal closes and the slot is released. */
    method HandleSaveAppointment(appointment: Appointment)
      modifies this
      ensures Snapshot() == old(Snapshot()).(
        appointments := if old(selectedSlot).Some?
                        then old(appointments)[SlotKey(old(selectedSlot).value) := appointment]
                        else old(appointments),
        isAppointmentModalOpen := false,
        selectedSlot := None)
    {
      if selectedSlot.Some? {
        appointments := appointments[SlotKey(selectedSlot.value) := appointment];
      }
      isAppointmentModalOpen := false;
      selectedSlot := None;
    }

    /** `handleDeleteAppointment`: with a slot selected, its appointment is removed;
        the modal closes and the slot is released. */
    method HandleDeleteAppointment()
      modifies this
      ensures Snapshot() == old(Snapshot()).(
        appointments := if old(selectedSlot).Some?
                        then old(appointments) - {SlotKey(old(selectedSlot).value)}
                        else old(appointments),
        isAppointmentModalOpen := false,
        selectedSlot := None)
    {
      if selectedSlot.Some? {
        appointments := appointments - {SlotKey(selectedSlot.value)};
      }
      isAppointmentModalOpen := false;
      selectedSlot := None;
    }

    /** The appointment modal dismissed: the slot stays selected. */
    method HandleCloseAppointmentModal()
      modifies this
      ensures Snapshot() == old(Snapshot()).(isAppointmentModalOpen := false)
    {
      isAppointmentModalOpen := false;
    }
  }
}
