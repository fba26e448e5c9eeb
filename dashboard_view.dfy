/** The dashboard: today's appointment count, the next appointment with its
    patient, the number of patients and the top of the procedure summary. */
module DashboardView {
  import opened Wrappers
  import opened Text
  import opened Dates
  import opened DateFormat
  import opened Types
  import opened Reporting
  import Sorting

  /** `nextAppointment`: the first of today's appointments, none when there are none. */
  function NextAppointment(todays: seq<TimedAppointment>): Option<TimedAppointment> {
    if |todays| > 0 then Some(todays[0]) else None
  }

  /** The next appointment is the earliest of today's: no appointment today is at an
      earlier time, and there is one exactly when something is booked today. */
  lemma NextAppointmentIsEarliest(appts: map<string, Appointment>, today: Date)
    ensures NextAppointment(TodaysAppointments(appts, today)).None? <==> |TodaysKeys(appts, today)| == 0
    ensures NextAppointment(TodaysAppointments(appts, today)).Some? ==>
      (NextAppointment(TodaysAppointments(appts, today)).value in TodaysAppointments(appts, today)
       && forall e :: e in TodaysAppointments(appts, today) ==>
            LexLe(NextAppointment(TodaysAppointments(appts, today)).value.time, e.time))
  {
    var todays := TodaysAppointments(appts, today);
    TodaysAppointmentsSorted(appts, today);
    if |todays| > 0 {
      forall e | e in todays ensures LexLe(todays[0].time, e.time) {
        var i :| 0 <= i < |todays| && todays[i] == e;
        if i > 0 {
          assert ByTime(todays[0], todays[i]);
        } else {
          LexLeTotal(e.time, e.time);
        }
      }
    }
  }

  /** `nextPatient`: the record's entry for the next appointment's patient. */
  function NextPatient(next: Option<TimedAppointment>, patients: map<string, Patient>): (p: Option<Patient>)
    ensures p.Some? <==> next.Some? && next.value.appointment.patientId in patients
    ensures p.Some? ==> p.value == patients[next.value.appointment.patientId]
  {
    if next.Some? && next.value.appointment.patientId in patients then Some(patients[next.value.appointment.patientId])
    else None
  }

  /** The "Next Appointment" card: a time with the patient and procedure, or "-". */
  datatype NextCard = Upcoming(time: string, patientName: string, procedure: string) | NothingNext

  function NextCardOf(next: Option<TimedAppointment>, patients: map<string, Patient>): (c: NextCard)
    ensures c.Upcoming? <==> next.Some? && NextPatient(next, patients).Some?
    ensures c.Upcoming? ==> (c.time == next.value.time
                             && c.patientName == patients[next.value.appointment.patientId].name
                             && c.procedure == next.value.appointment.procedure)
  {
    var patient := NextPatient(next, patients);
    if next.Some? && patient.Some? then
      Upcoming(next.value.time, patient.value.name, next.value.appointment.procedure)
    else NothingNext
  }

  /** The text in the card's large line. */
  function NextCardHeadline(c: NextCard): string {
    match c
    case Upcoming(time, _, _) => time
    case NothingNext => "-"
  }

  /** `procedureSummary.slice(0, 5)`. */
  function TopProcedures(summary: seq<SummaryItem>): (top: seq<SummaryItem>)
    ensures |top| == if |summary| < 5 then |summary| else 5
    ensures top == summary[..|top|]
  {
    if |summary| < 5 then summary else summary[..5]
  }

  /** The listed procedures are among the most common: no procedure left off the
      list has a larger count than any listed one. */
  lemma TopProceduresAreLargest(appts: map<string, Appointment>)
    ensures forall i, j :: 0 <= i < |TopProcedures(ProcedureSummary(appts))| <= j < |ProcedureSummary(appts)| ==>
      ProcedureSummary(appts)[j].count <= TopProcedures(ProcedureSummary(appts))[i].count
  {
    var s := ProcedureSummary(appts);
    var top := TopProcedures(s);
    ProcedureSummaryOrder(appts);
    forall i, j | 0 <= i < |top| <= j < |s| ensures s[j].count <= top[i].count {
      assert top[i] == s[i];
      assert ByCountDescending(s[i], s[j]);
    }
  }

  /** What the dashboard shows besides its buttons. */
  datatype Figures = Figures(
    todaysCount: nat,
    next: NextCard,
    totalPatients: nat,
    topProcedures: seq<SummaryItem>)

  function Dashboard(appts: map<string, Appointment>, patients: map<string, Patient>, today: Date): Figures {
    var todays := TodaysAppointments(appts, today);
    Figures(|todays|, NextCardOf(NextAppointment(todays), patients), |patients|,
      TopProcedures(ProcedureSummary(appts)))
  }

  /** Today's count is the number of keys written on today's date, the patient count
      is the number of stored patients, and at most five procedures are listed. */
  lemma DashboardFigures(appts: map<string, Appointment>, patients: map<string, Patient>, today: Date)
    ensures Dashboard(appts, patients, today).todaysCount == |TodaysKeys(appts, today)|
    ensures Dashboard(appts, patients, today).totalPatients == |patients.Keys|
    ensures |Dashboard(appts, patients, today).topProcedures| <= 5
    ensures |appts| > 0 <==> |Dashboard(appts, patients, today).topProcedures| > 0
    ensures (Dashboard(appts, patients, today).todaysCount == 0) ==> Dashboard(appts, patients, today).next == NothingNext
  {
    TodaysAppointmentsSorted(appts, today);
    ProcedureSummaryTotals(appts);
    var s := ProcedureSummary(appts);
    if |appts| > 0 && |s| == 0 {
      assert false;
    }
    if |appts| == 0 && |s| > 0 {
      ProcedureSummaryOrder(appts);
      SumPositive(s);
      assert false;
    }
  }

  /** A summary whose counts are all at least one adds up to at least its length. */
  lemma {:induction false} SumPositive(s: seq<SummaryItem>)
    requires forall i :: 0 <= i < |s| ==> s[i].count >= 1
    ensures Sorting.SumBy(s, ItemCount) >= |s|
  {
    if s != [] {
      assert forall i :: 0 <= i < |s[1..]| ==> s[1..][i] == s[i + 1];
      SumPositive(s[1..]);
    }
  }
}
