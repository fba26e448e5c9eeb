/** The scheduling data model: working hours, settings, patients, appointments
    and the procedure colour table. */
module Types {
  import opened Wrappers

  /** One weekday's hours: `startTime` and `endTime` are whole hours. */
  datatype DaySetting = DaySetting(isWorkingDay: bool, startTime: int, endTime: int)

  /** `workingHours[i]` is the setting of weekday `i` (0 for Sunday). */
  datatype Settings = Settings(workingHours: seq<DaySetting>, slotDuration: int, isConfigured: bool)

  datatype Patient = Patient(
    id: string,
    name: string,
    phone: string,
    email: string,
    dateOfBirth: string,
    address: string,
    medicalHistory: string)

  /** `customProcedureName` is "" when absent: every reader only tests it for being
      non-empty or shows it. */
  datatype Appointment = Appointment(
    id: string,
    patientId: string,
    procedure: string,
    customProcedureName: string,
    notes: string)

  datatype ViewMode = Daily | Weekly | Monthly | Minimal

  const CUSTOM := "Custom"

  /** `PROCEDURE_COLORS`, in declaration order. */
  const ProcedureColors: seq<(string, string)> := [
    ("Filling", "bg-blue-100 border-blue-300 text-blue-800"),
    ("Cleaning", "bg-green-100 border-green-300 text-green-800"),
    ("Extraction", "bg-red-100 border-red-300 text-red-800"),
    ("Consultation", "bg-purple-100 border-purple-300 text-purple-800"),
    ("Root Canal", "bg-orange-100 border-orange-300 text-orange-800"),
    ("Crown", "bg-yellow-100 border-yellow-300 text-yellow-800"),
    ("Whitening", "bg-pink-100 border-pink-300 text-pink-800"),
    ("Braces", "bg-indigo-100 border-indigo-300 text-indigo-800"),
    ("Custom", "bg-gray-100 border-gray-300 text-gray-800")]

  /** `PROCEDURE_COLORS[name]`, missing for names not in the table. */
  function ColorOf(name: string): (c: Option<string>)
    ensures c.Some? <==> exists i :: 0 <= i < |ProcedureColors| && ProcedureColors[i].0 == name
  {
    LookupColor(ProcedureColors, name)
  }

  function LookupColor(table: seq<(string, string)>, name: string): (c: Option<string>)
    ensures c.Some? <==> exists i :: 0 <= i < |table| && table[i].0 == name
    ensures c.Some? ==> exists i :: 0 <= i < |table| && table[i] == (name, c.value)
  {
    if table == [] then None
    else if table[0].0 == name then Some(table[0].1)
    else
      var r := LookupColor(table[1..], name);
      assert forall i :: 0 <= i < |table[1..]| ==> table[1..][i] == table[i + 1];
      r
  }

  /** Keys of `table` other than "Custom", in order. */
  function KeysExceptCustom(table: seq<(string, string)>): (ks: seq<string>)
    ensures forall k :: k in ks <==> k != CUSTOM && exists i :: 0 <= i < |table| && table[i].0 == k
  {
    if table == [] then []
    else
      var rest := KeysExceptCustom(table[1..]);
      assert forall i :: 0 <= i < |table[1..]| ==> table[1..][i] == table[i + 1];
      if table[0].0 == CUSTOM then rest else [table[0].0] + rest
  }

  /** `PROCEDURES`: the presets a user can pick besides "Custom". */
  const Procedures: seq<string> := KeysExceptCustom(ProcedureColors)

  /** The preset list is the eight non-"Custom" names of the colour table, in order. */
  lemma ProceduresAreThePresets()
    ensures Procedures == ["Filling", "Cleaning", "Extraction", "Consultation", "Root Canal",
      "Crown", "Whitening", "Braces"]
    ensures |Procedures| == 8 && CUSTOM !in Procedures
    ensures forall p :: p in Procedures ==> ColorOf(p).Some?
  {
    var t := ProcedureColors;
    assert KeysExceptCustom(t[9..]) == [];
    assert KeysExceptCustom(t[8..]) == [];
    assert KeysExceptCustom(t[7..]) == ["Braces"];
    assert KeysExceptCustom(t[6..]) == ["Whitening", "Braces"];
    assert KeysExceptCustom(t[5..]) == ["Crown", "Whitening", "Braces"];
    assert KeysExceptCustom(t[4..]) == ["Root Canal", "Crown", "Whitening", "Braces"];
    assert KeysExceptCustom(t[3..]) == ["Consultation", "Root Canal", "Crown", "Whitening", "Braces"];
    assert KeysExceptCustom(t[2..]) == ["Extraction", "Consultation", "Root Canal", "Crown", "Whitening", "Braces"];
    assert KeysExceptCustom(t[1..]) == ["Cleaning", "Extraction", "Consultation", "Root Canal", "Crown", "Whitening", "Braces"];
    assert t[0..] == t;
  }

  /** The "Custom" entry every colour lookup falls back to. */
  lemma CustomHasColor()
    ensures ColorOf(CUSTOM) == Some("bg-gray-100 border-gray-300 text-gray-800")
  {
    var t := ProcedureColors;
    assert t[8] == (CUSTOM, "bg-gray-100 border-gray-300 text-gray-800");
    assert forall j :: 0 <= j < 8 ==> |t[j].0| != 6 || t[j].0[0] != 'C';
    LookupFirst(t, 8, CUSTOM);
  }

  /** The lookup finds the first entry of the name. */
  lemma {:induction false} LookupFirst(table: seq<(string, string)>, i: nat, name: string)
    requires i < |table| && table[i].0 == name
    requires forall j :: 0 <= j < i ==> table[j].0 != name
    ensures LookupColor(table, name) == Some(table[i].1)
  {
    if i > 0 {
      LookupFirst(table[1..], i - 1, name);
    }
  }

  /** `settings.workingHours[dayIndex]`, missing outside the table. */
  function DayAt(s: Settings, dayIndex: int): (r: Option<DaySetting>)
    ensures r.Some? <==> 0 <= dayIndex < |s.workingHours|
    ensures r.Some? ==> r.value == s.workingHours[dayIndex]
  {
    if 0 <= dayIndex < |s.workingHours| then Some(s.workingHours[dayIndex]) else None
  }

  /** The procedure shown for an appointment: the custom name for "Custom". */
  function DisplayProcedure(a: Appointment): (name: string)
    ensures a.procedure == CUSTOM ==> name == a.customProcedureName
    ensures a.procedure != CUSTOM ==> name == a.procedure
  {
    if a.procedure == CUSTOM then a.customProcedureName else a.procedure
  }

  /** The hour ranges the types document: start 0..23, end 1..24. */
  predicate ValidDay(d: DaySetting) {
    0 <= d.startTime <= 23 && 1 <= d.endTime <= 24
  }

  /** A full week of documented hours and a positive slot length. */
  predicate ValidSettings(s: Settings) {
    |s.workingHours| == 7
    && (forall i :: 0 <= i < 7 ==> ValidDay(s.workingHours[i]))
    && s.slotDuration > 0
  }

  /** A change to one field of one weekday's setting. */
  datatype DayField = IsWorkingDay(working: bool) | StartTime(startHour: int) | EndTime(endHour: int)

  function ApplyField(d: DaySetting, f: DayField): DaySetting {
    match f
    case IsWorkingDay(b) => d.(isWorkingDay := b)
    case StartTime(h) => d.(startTime := h)
    case EndTime(h) => d.(endTime := h)
  }

  /** `{ ...prev, workingHours: { ...prev.workingHours, [dayIndex]: { ...day, [field]: value } } }`
      for one of the seven days. */
  function UpdateDay(s: Settings, dayIndex: int, f: DayField): (r: Settings)
    requires 0 <= dayIndex < |s.workingHours|
    ensures |r.workingHours| == |s.workingHours|
    ensures r.slotDuration == s.slotDuration && r.isConfigured == s.isConfigured
    ensures forall i :: 0 <= i < |s.workingHours| && i != dayIndex ==> r.workingHours[i] == s.workingHours[i]
    ensures r.workingHours[dayIndex] == ApplyField(s.workingHours[dayIndex], f)
  {
    s.(workingHours := s.workingHours[dayIndex := ApplyField(s.workingHours[dayIndex], f)])
  }

  /** Only the named field of the day changes. */
  lemma ApplyFieldChangesOneField(d: DaySetting, f: DayField)
    ensures f.IsWorkingDay? ==> ApplyField(d, f) == DaySetting(f.working, d.startTime, d.endTime)
    ensures f.StartTime? ==> ApplyField(d, f) == DaySetting(d.isWorkingDay, f.startHour, d.endTime)
    ensures f.EndTime? ==> ApplyField(d, f) == DaySetting(d.isWorkingDay, d.startTime, f.endHour)
  {
  }

  /** `timeOptions`: the hours 0 to 24. */
  const TimeOptions: seq<int> := seq(25, i => i)
  /** The start-hour choices, `timeOptions.slice(0, 24)`. */
  const HourStarts: seq<int> := TimeOptions[0..24]
  /** The end-hour choices, `timeOptions.slice(1, 25)`. */
  const HourEnds: seq<int> := TimeOptions[1..25]
  const DurationOptions: seq<int> := [15, 20, 30, 45, 60]

  /** The offered start hours are 0..23 and end hours 1..24, and every offered
      duration is positive. */
  lemma OfferedOptions()
    ensures forall h :: h in HourStarts <==> 0 <= h <= 23
    ensures forall h :: h in HourEnds <==> 1 <= h <= 24
    ensures forall m :: m in DurationOptions ==> m > 0
  {
    forall h | 0 <= h <= 23 ensures h in HourStarts {
      assert HourStarts[h] == h;
    }
    forall h | 1 <= h <= 24 ensures h in HourEnds {
      assert HourEnds[h - 1] == h;
    }
  }

  /** Choosing from the offered options keeps a valid day valid. */
  lemma OfferedOptionsKeepValid(d: DaySetting, f: DayField)
    requires ValidDay(d)
    requires f.StartTime? ==> f.startHour in HourStarts
    requires f.EndTime? ==> f.endHour in HourEnds
    ensures ValidDay(ApplyField(d, f))
  {
    OfferedOptions();
  }
}
