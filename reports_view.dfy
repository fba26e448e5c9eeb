/** The reports page: for the chosen date range, the number of appointments and
    patients, the busiest weekday and the most common procedure. */
module ReportsView {
  import opened Wrappers
  import opened Types
  import opened Dates
  import opened Reporting
  import Records
  import Sorting

  /** A headline figure: `{ name, count }`. */
  datatype Highlight = Highlight(name: string, count: nat)

  const NotAvailable := Highlight("N/A", 0)

  /** `appointmentsByDay.reduce((max, day) => day.count > max.count ? day : max, best)`. */
  function MaxBucket(bs: seq<DayCount>, best: DayCount): DayCount
    decreases |bs|
  {
    if bs == [] then best
    else MaxBucket(bs[1..], if bs[0].count > best.count then bs[0] else best)
  }

  /** The reduction ends on a largest count; it moves off `best` only to a strictly
      larger count, and then lands on the first bucket with that count. */
  lemma {:induction false} MaxBucketSpec(bs: seq<DayCount>, best: DayCount)
    ensures MaxBucket(bs, best).count >= best.count
    ensures forall j :: 0 <= j < |bs| ==> bs[j].count <= MaxBucket(bs, best).count
    ensures MaxBucket(bs, best) == best
      || exists i :: (0 <= i < |bs| && bs[i] == MaxBucket(bs, best) && best.count < bs[i].count
                      && forall j :: 0 <= j < i ==> bs[j].count < bs[i].count)
    decreases |bs|
  {
    if bs != [] {
      var next := if bs[0].count > best.count then bs[0] else best;
      var tail := bs[1..];
      var r := MaxBucket(tail, next);
      MaxBucketSpec(tail, next);
      assert r == MaxBucket(bs, best);
      assert forall j :: 0 < j < |bs| ==> bs[j] == tail[j - 1];
      if r != next {
        var i :| 0 <= i < |tail| && tail[i] == r && next.count < tail[i].count
          && forall j :: 0 <= j < i ==> tail[j].count < tail[i].count;
        assert bs[i + 1] == r;
        forall j | 0 <= j < i + 1 ensures bs[j].count < r.count {
          if j > 0 { assert bs[j] == tail[j - 1]; }
        }
      } else if bs[0].count > best.count {
        assert bs[0] == r;
      }
    }
  }

  /** `busiestDay`: "N/A" when nothing is booked in the range, otherwise the reduction
      over the seven weekday buckets starting from Sunday's. */
  function BusiestDay(filtered: map<string, Appointment>): DayCount {
    if |filtered| == 0 then DayCount("N/A", 0)
    else
      var buckets := DayOfWeekBuckets(filtered);
      MaxBucket(buckets, buckets[0])
  }

  /** With appointments in the range the busiest day is a weekday bucket with the
      largest count, the first such in Sunday-to-Saturday order; without, it is "N/A". */
  lemma BusiestDayIsEarliestMaximum(filtered: map<string, Appointment>)
    ensures BusiestDay(filtered).name == "N/A" <==> |filtered| == 0
    ensures |filtered| == 0 ==> BusiestDay(filtered).count == 0
    ensures |filtered| > 0 ==> forall j :: 0 <= j < 7 ==> DayOfWeekBuckets(filtered)[j].count <= BusiestDay(filtered).count
    ensures |filtered| > 0 ==> exists i :: (0 <= i < 7 && DayOfWeekBuckets(filtered)[i] == BusiestDay(filtered)
                                            && forall j :: 0 <= j < i ==> DayOfWeekBuckets(filtered)[j].count < BusiestDay(filtered).count)
  {
    if |filtered| > 0 {
      var b := DayOfWeekBuckets(filtered);
      var r := BusiestDay(filtered);
      DayOfWeekBucketsShape(filtered);
      MaxBucketSpec(b, b[0]);
      var i := 0;
      if r != b[0] {
        i :| 0 <= i < |b| && b[i] == r && b[0].count < b[i].count
          && forall j :: 0 <= j < i ==> b[j].count < b[i].count;
      }
      assert b[i] == r && forall j :: 0 <= j < i ==> b[j].count < r.count;
      assert r.name == DayAbbreviations[i];
    }
  }

  /** When every key of the range carries a readable day (as keys from
      `getAppointmentKey` do) and something is booked, the busiest day has a booking. */
  lemma BusiestDayIsBooked(filtered: map<string, Appointment>)
    requires |filtered| > 0
    requires forall k :: k in filtered ==> KeyDay(k).Some?
    ensures BusiestDay(filtered).count >= 1
  {
    var ks := Records.SortedKeys(filtered);
    var b := DayOfWeekBuckets(filtered);
    DayOfWeekBucketsShape(filtered);
    DatedKeysCounted(ks);
    var w := PositiveSummand(BucketCounts(b));
    BucketCountAt(b, w);
    BusiestDayIsEarliestMaximum(filtered);
  }

  /** A sum above zero has a summand above zero. */
  lemma {:induction false} PositiveSummand(s: seq<nat>) returns (w: nat)
    requires SumNat(s) > 0
    ensures w < |s| && s[w] > 0
  {
    if s[0] > 0 {
      w := 0;
    } else {
      var v := PositiveSummand(s[1..]);
      w := v + 1;
    }
  }

  /** `mostCommonProcedure`: the head of the summary, or "N/A" when it is empty. */
  function MostCommonProcedure(summary: seq<SummaryItem>): Highlight {
    if |summary| == 0 then NotAvailable else Highlight(summary[0].name, summary[0].count)
  }

  /** The most common procedure has a count of zero exactly when nothing is booked;
      otherwise its count is the number of appointments with that name and no other
      listed procedure has more. */
  lemma MostCommonProcedureSpec(filtered: map<string, Appointment>)
    ensures MostCommonProcedure(ProcedureSummary(filtered)).count == 0 <==> |filtered| == 0
    ensures |filtered| > 0 ==> (forall i :: 0 <= i < |ProcedureSummary(filtered)| ==>
                                 ProcedureSummary(filtered)[i].count <= MostCommonProcedure(ProcedureSummary(filtered)).count)
    ensures |filtered| > 0 ==> (MostCommonProcedure(ProcedureSummary(filtered)).count
                                 == multiset(SummaryNames(Records.Values(filtered)))[MostCommonProcedure(ProcedureSummary(filtered)).name])
  {
    var s := ProcedureSummary(filtered);
    ProcedureSummaryOrder(filtered);
    ProcedureSummaryCounts(filtered);
    if |filtered| > 0 {
      var k :| k in filtered;
      Records.ValuesMembers(filtered, filtered[k]);
      assert filtered[k] in Records.Values(filtered);
      assert |s| > 0;
      forall i | 0 < i < |s| ensures s[i].count <= s[0].count {
        assert ByCountDescending(s[0], s[i]);
      }
    }
  }

  /** The figures the page shows. */
  datatype Figures = Figures(
    totalAppointments: nat,
    totalPatients: nat,
    busiestDay: DayCount,
    mostCommonProcedure: Highlight)

  /** The page's figures for a date range and the current day. */
  function Report(appts: map<string, Appointment>, patients: seq<Patient>, range: DateRange, now: Date): Figures {
    var filtered := FilterByRange(appts, range, now);
    Figures(|filtered|, |patients|, BusiestDay(filtered), MostCommonProcedure(ProcedureSummary(filtered)))
  }

  /** The appointment total counts the range's appointments: all of them for
      "All time", never more than are stored; the patient total is the list's size. */
  lemma ReportTotals(appts: map<string, Appointment>, patients: seq<Patient>, range: DateRange, now: Date)
    ensures Report(appts, patients, range, now).totalAppointments <= |appts|
    ensures range == AllTime ==> Report(appts, patients, range, now).totalAppointments == |appts|
    ensures Report(appts, patients, range, now).totalPatients == |patients|
    ensures Report(appts, patients, range, now).mostCommonProcedure.count == 0
      <==> Report(appts, patients, range, now).totalAppointments == 0
  {
    FilterIsSubRecord(appts, range, now);
    MostCommonProcedureSpec(FilterByRange(appts, range, now));
  }
}
