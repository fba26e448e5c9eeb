/** `generateTimeSlots`: the one list of `HH:mm` slot labels shared by every day of
    the calendar, running from the earliest working start to the latest working
    end in steps of the slot duration. Times are minutes after midnight; an hour
    past the day (an end of 24) is minute 1440, and a label is printed for the
    minute within its day, as `format` of a `Date` that rolled over would be. */
module SlotGenerator {
  import opened Text
  import opened Types
  import opened DateFormat

  /** `Object.values(workingHours).filter(d => d.isWorkingDay)`. */
  function WorkingDays(hours: seq<DaySetting>): (ws: seq<DaySetting>)
    ensures forall d :: d in ws <==> d in hours && d.isWorkingDay
    ensures |ws| <= |hours|
  {
    if hours == [] then []
    else
      var rest := WorkingDays(hours[1..]);
      assert forall d :: d in hours <==> d == hours[0] || d in hours[1..];
      if hours[0].isWorkingDay then [hours[0]] + rest else rest
  }

  /** `Math.min(...ws.map(d => d.startTime))`. */
  function EarliestStart(ws: seq<DaySetting>): (h: int)
    requires |ws| > 0
    ensures exists i :: 0 <= i < |ws| && ws[i].startTime == h
    ensures forall i :: 0 <= i < |ws| ==> h <= ws[i].startTime
  {
    if |ws| == 1 then ws[0].startTime
    else
      var rest := EarliestStart(ws[1..]);
      assert forall i :: 1 <= i < |ws| ==> ws[i] == ws[1..][i - 1];
      if ws[0].startTime <= rest then ws[0].startTime else rest
  }

  /** `Math.max(...ws.map(d => d.endTime))`. */
  function LatestEnd(ws: seq<DaySetting>): (h: int)
    requires |ws| > 0
    ensures exists i :: 0 <= i < |ws| && ws[i].endTime == h
    ensures forall i :: 0 <= i < |ws| ==> ws[i].endTime <= h
  {
    if |ws| == 1 then ws[0].endTime
    else
      var rest := LatestEnd(ws[1..]);
      assert forall i :: 1 <= i < |ws| ==> ws[i] == ws[1..][i - 1];
      if ws[0].endTime >= rest then ws[0].endTime else rest
  }

  /** The minutes the loop visits: from `current`, in steps of `step`, while below `end`. */
  function SlotMinutesFrom(current: int, end: int, step: int): (ms: seq<int>)
    requires step > 0
    ensures current >= end <==> ms == []
    ensures ms != [] ==> ms[0] == current && ms[|ms| - 1] + step >= end
    ensures forall i :: 0 <= i < |ms| ==> current <= ms[i] < end
    decreases end - current
  {
    if current >= end then []
    else
      var rest := SlotMinutesFrom(current + step, end, step);
      [current] + rest
  }

  /** The minutes visited strictly increase. */
  lemma {:induction false} SlotMinutesIncreasing(current: int, end: int, step: int)
    requires step > 0
    ensures forall i, j :: 0 <= i < j < |SlotMinutesFrom(current, end, step)| ==>
      SlotMinutesFrom(current, end, step)[i] < SlotMinutesFrom(current, end, step)[j]
    decreases end - current
  {
    if current < end {
      var rest := SlotMinutesFrom(current + step, end, step);
      var ms := SlotMinutesFrom(current, end, step);
      assert ms == [current] + rest;
      SlotMinutesIncreasing(current + step, end, step);
      forall i, j | 0 <= i < j < |ms| ensures ms[i] < ms[j] {
        assert ms[j] == rest[j - 1];
        assert current + step <= rest[j - 1];
        if i > 0 {
          assert ms[i] == rest[i - 1];
          assert rest[i - 1] < rest[j - 1];
        }
      }
    }
  }

  /** The `i`-th minute visited is `i` steps after the first. */
  lemma {:induction false} SlotMinuteAt(current: int, end: int, step: int, i: nat)
    requires step > 0 && i < |SlotMinutesFrom(current, end, step)|
    ensures SlotMinutesFrom(current, end, step)[i] == current + i * step
    decreases end - current
  {
    if i > 0 {
      var rest := SlotMinutesFrom(current + step, end, step);
      assert SlotMinutesFrom(current, end, step) == [current] + rest;
      SlotMinuteAt(current + step, end, step, i - 1);
      assert current + step + (i - 1) * step == current + i * step;
    }
  }

  /** `format(time, 'HH:mm')` for a minute counted from the day's midnight. */
  function Label(minute: int): string {
    TimeLabel(minute % 1440)
  }

  /** A minute of the day is labelled with its own time. */
  lemma LabelInDay(minute: int)
    requires 0 <= minute < 1440
    ensures Label(minute) == TimeLabel(minute)
  {
  }

  function Labels(ms: seq<int>): (ls: seq<string>)
    ensures |ls| == |ms|
  {
    if ms == [] then [] else [Label(ms[0])] + Labels(ms[1..])
  }

  lemma {:induction false} LabelAt(ms: seq<int>, i: nat)
    requires i < |ms|
    ensures Labels(ms)[i] == Label(ms[i])
  {
    if i > 0 {
      LabelAt(ms[1..], i - 1);
    }
  }

  lemma LabelsCons(m: int, ms: seq<int>)
    ensures Labels([m] + ms) == [Label(m)] + Labels(ms)
  {
    assert ([m] + ms)[1..] == ms;
  }

  /** The labels the loop appends from minute `current` on. */
  function LabelsFrom(current: int, end: int, step: int): seq<string>
    requires step > 0
    decreases end - current
  {
    if current >= end then [] else [Label(current)] + LabelsFrom(current + step, end, step)
  }

  /** One pass of the loop: the next label moves from the labels still to come to
      the labels produced. */
  lemma LabelsFromStep(done: seq<string>, current: int, end: int, step: int)
    requires step > 0 && current < end
    ensures done + LabelsFrom(current, end, step) == (done + [Label(current)]) + LabelsFrom(current + step, end, step)
  {
    var later := LabelsFrom(current + step, end, step);
    assert LabelsFrom(current, end, step) == [Label(current)] + later;
    assert done + ([Label(current)] + later) == (done + [Label(current)]) + later;
  }

  lemma {:induction false} LabelsFromMinutes(current: int, end: int, step: int)
    requires step > 0
    ensures LabelsFrom(current, end, step) == Labels(SlotMinutesFrom(current, end, step))
    decreases end - current
  {
    if current < end {
      LabelsFromMinutes(current + step, end, step);
      LabelsCons(current, SlotMinutesFrom(current + step, end, step));
    }
  }

  /** The minutes of the slots of `s`: none when no day is a working day. */
  function SlotMinutes(s: Settings): seq<int>
    requires s.slotDuration > 0
  {
    var ws := WorkingDays(s.workingHours);
    if |ws| == 0 then []
    else SlotMinutesFrom(EarliestStart(ws) * 60, LatestEnd(ws) * 60, s.slotDuration)
  }

  /** The labels `generateTimeSlots(s)` returns. */
  function TimeSlots(s: Settings): seq<string>
    requires s.slotDuration > 0
  {
    Labels(SlotMinutes(s))
  }

  /** `generateTimeSlots`, with its loop. A slot duration of 0 or less would make the
      source loop forever, so the duration is required to be positive. */
  method GenerateTimeSlots(s: Settings) returns (slots: seq<string>)
    requires s.slotDuration > 0
    ensures slots == TimeSlots(s)
  {
    var ws := WorkingDays(s.workingHours);
    if |ws| == 0 {
      return [];
    }
    var earliestStart := EarliestStart(ws);
    var latestEnd := LatestEnd(ws);
    slots := [];
    var start := earliestStart * 60;
    var currentTime := start;
    var end := latestEnd * 60;
    var step := s.slotDuration;
    while currentTime < end
      invariant LabelsFrom(start, end, step) == slots + LabelsFrom(currentTime, end, step)
      decreases end - currentTime
    {
      var slot := Label(currentTime);
      LabelsFromStep(slots, currentTime, end, step);
      slots := slots + [slot];
      currentTime := currentTime + step;
    }
    assert slots == LabelsFrom(start, end, step);
    LabelsFromMinutes(start, end, step);
    assert SlotMinutes(s) == SlotMinutesFrom(start, end, step);
  }

  // ---------------------------------------------------------------- what the labels are

  /** With no working day there are no slots. */
  lemma NoWorkingDayNoSlots(s: Settings)
    requires s.slotDuration > 0
    requires forall i :: 0 <= i < |s.workingHours| ==> !s.workingHours[i].isWorkingDay
    ensures TimeSlots(s) == []
  {
  }

  /** With valid hours every slot minute is a minute of the day. */
  lemma SlotMinutesInDay(s: Settings)
    requires ValidSettings(s)
    ensures forall i :: 0 <= i < |SlotMinutes(s)| ==> 0 <= SlotMinutes(s)[i] < 1440
  {
    var ws := WorkingDays(s.workingHours);
    if |ws| > 0 {
      var e := EarliestStart(ws);
      var l := LatestEnd(ws);
      var i :| 0 <= i < |ws| && ws[i].startTime == e;
      var j :| 0 <= j < |ws| && ws[j].endTime == l;
      assert ws[i] in s.workingHours && ws[j] in s.workingHours;
    }
  }

  /** When some working day opens before it closes there is at least one slot,
      and the first is the earliest working start on the hour. */
  lemma FirstSlot(s: Settings)
    requires ValidSettings(s)
    requires exists i :: 0 <= i < 7 && s.workingHours[i].isWorkingDay && s.workingHours[i].startTime < s.workingHours[i].endTime
    ensures |WorkingDays(s.workingHours)| > 0
    ensures |TimeSlots(s)| > 0
    ensures SlotMinutes(s)[0] == EarliestStart(WorkingDays(s.workingHours)) * 60
    ensures TimeSlots(s)[0] == Digits(EarliestStart(WorkingDays(s.workingHours)), 2) + ":00"
  {
    OpenWeek(s);
    var ws := WorkingDays(s.workingHours);
    var e, l := EarliestStart(ws), LatestEnd(ws);
    var ms := SlotMinutesFrom(e * 60, l * 60, s.slotDuration);
    assert SlotMinutes(s) == ms && ms[0] == e * 60;
    LabelAt(ms, 0);
    LabelInDay(e * 60);
    TimeLabelOnHour(e);
  }

  /** A week with a day open before it closes has working days, and the earliest
      working start is an hour of the day before the latest working end. */
  lemma OpenWeek(s: Settings)
    requires ValidSettings(s)
    requires exists i :: 0 <= i < 7 && s.workingHours[i].isWorkingDay && s.workingHours[i].startTime < s.workingHours[i].endTime
    ensures |WorkingDays(s.workingHours)| > 0
    ensures 0 <= EarliestStart(WorkingDays(s.workingHours)) <= 23
    ensures EarliestStart(WorkingDays(s.workingHours)) < LatestEnd(WorkingDays(s.workingHours))
  {
    var k :| 0 <= k < 7 && s.workingHours[k].isWorkingDay && s.workingHours[k].startTime < s.workingHours[k].endTime;
    WorkingDayBounds(s.workingHours, k);
  }

  /** A working day bounds the earliest working start from above and the latest
      working end from below; with documented hours the earliest start is not
      negative. */
  lemma WorkingDayBounds(hours: seq<DaySetting>, k: int)
    requires 0 <= k < |hours| && hours[k].isWorkingDay
    requires forall i :: 0 <= i < |hours| ==> ValidDay(hours[i])
    ensures |WorkingDays(hours)| > 0
    ensures 0 <= EarliestStart(WorkingDays(hours)) <= hours[k].startTime
    ensures hours[k].endTime <= LatestEnd(WorkingDays(hours))
  {
    var ws := WorkingDays(hours);
    assert hours[k] in ws;
    var m :| 0 <= m < |ws| && ws[m] == hours[k];
    var i :| 0 <= i < |ws| && ws[i].startTime == EarliestStart(ws);
    assert ws[i] in hours;
  }

  /** Slot `i` is `i` slot durations after the earliest working start, falls before
      the latest working end, and is labelled with its own time of day. */
  lemma SlotAt(s: Settings, i: nat)
    requires ValidSettings(s)
    requires i < |SlotMinutes(s)|
    ensures |WorkingDays(s.workingHours)| > 0
    ensures SlotMinutes(s)[i] == EarliestStart(WorkingDays(s.workingHours)) * 60 + i * s.slotDuration
    ensures SlotMinutes(s)[i] < LatestEnd(WorkingDays(s.workingHours)) * 60
    ensures TimeSlots(s)[i] == TimeLabel(SlotMinutes(s)[i])
  {
    var ws := WorkingDays(s.workingHours);
    var e, l := EarliestStart(ws) * 60, LatestEnd(ws) * 60;
    SlotMinuteAt(e, l, s.slotDuration, i);
    var m := SlotMinutes(s)[i];
    SlotMinutesInDay(s);
    LabelAt(SlotMinutes(s), i);
    LabelInDay(m);
  }

  /** With valid hours the labels strictly increase, so they are distinct and
      already in `localeCompare` order. */
  lemma TimeSlotsIncreasing(s: Settings, i: nat, j: nat)
    requires ValidSettings(s)
    requires i < j < |TimeSlots(s)|
    ensures LexLess(TimeSlots(s)[i], TimeSlots(s)[j])
  {
    var ws := WorkingDays(s.workingHours);
    var ms := SlotMinutes(s);
    SlotMinutesIncreasing(EarliestStart(ws) * 60, LatestEnd(ws) * 60, s.slotDuration);
    assert ms[i] < ms[j];
    SlotAt(s, i);
    SlotAt(s, j);
    TimeLabelOrder(ms[i], ms[j]);
  }
}
