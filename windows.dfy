/**
 * The windowing algorithm (models/models.go, daySchedules.Sort and
 * daySchedules.ToOCF): the day-points, sorted by weekday and start time, are
 * walked as a circle, and each point yields the windows that run from its
 * start until the minute before the next point.
 */
module Windows {
  import opened GoInts
  import opened Wrappers
  import opened Times
  import opened DayPoints
  import opened Sorting
  import Ocfas

  // ----- Sort -----

  /** The comparator given to sort.Slice: weekday first, then LessThan (<=) on the start time. */
  predicate ScheduleLess(a: DaySchedule, b: DaySchedule)
  {
    if a.weekday != b.weekday then a.weekday < b.weekday else LessThan(a.startTime, b.startTime)
  }

  /** An integer ranking of (weekday, hour, minute). */
  function ScheduleKey(a: DaySchedule): int
  {
    (a.weekday * 256 + a.startTime.hour) * 256 + a.startTime.minute
  }

  lemma ScheduleKeyOrder(a: DaySchedule, b: DaySchedule)
    ensures ScheduleLess(a, b) <==> ScheduleKey(a) <= ScheduleKey(b)
  {
  }

  /** Sorted "first thing on Sunday to last thing on Saturday". */
  predicate SortedSchedules(s: seq<DaySchedule>)
  {
    forall i, j :: 0 <= i < j < |s| ==> ScheduleLess(s[i], s[j])
  }

  /** daySchedules.Sort: some permutation sorted by (weekday, hour, minute); not stable. */
  method Sort(d: array<DaySchedule>)
    modifies d
    ensures SortedSchedules(d[..])
    ensures multiset(d[..]) == old(multiset(d[..]))
  {
    SortByKey(d, ScheduleKey);
    forall i, j | 0 <= i < j < d.Length
      ensures ScheduleLess(d[..][i], d[..][j])
    {
      ScheduleKeyOrder(d[i], d[j]);
    }
  }

  // ----- the windows, at the level of times of day -----

  /** A window on one target weekday (1..7), with the limits of the point it belongs to. */
  datatype Window = Window(start: TimeOfDay, end: TimeOfDay, day: int, limits: InstanceLimits, initial: int64)

  /** The target record of a window: times written as "HH:MM" and a one-day list. */
  function Render(w: Window): Ocfas.RecurringSchedule
  {
    Ocfas.RecurringSchedule(Format(w.start), Format(w.end), [w.day], w.limits.min, w.limits.max, Some(w.initial))
  }

  function RenderAll(ws: seq<Window>): (r: seq<Ocfas.RecurringSchedule>)
    ensures |r| == |ws|
  {
    seq(|ws|, k requires 0 <= k < |ws| => Render(ws[k]))
  }

  lemma RenderAllAppend(a: seq<Window>, b: seq<Window>)
    ensures RenderAll(a + b) == RenderAll(a) + RenderAll(b)
  {
  }

  /** Weekdays of Go, as ToOCF needs them. */
  predicate InWeek(d: seq<DaySchedule>)
  {
    forall k :: 0 <= k < |d| ==> 0 <= d[k].weekday <= 6
  }

  /** A whole-day window on a weekday without a point of its own, continuing p's limits. */
  function Fill(day: nat, p: DaySchedule): Window
  {
    Window(Midnight, LastMinute, WeekdayToOCF(day), p.instanceLimits, Initial(p.instanceLimits))
  }

  function Fills(days: seq<nat>, p: DaySchedule): (r: seq<Window>)
    ensures |r| == |days|
  {
    seq(|days|, k requires 0 <= k < |days| => Fill(days[k], p))
  }

  lemma FillsAppend(a: seq<nat>, b: seq<nat>, p: DaySchedule)
    ensures Fills(a + b, p) == Fills(a, p) + Fills(b, p)
  {
  }

  /** lo, lo + 1, ..., hi - 1. */
  function Range(lo: nat, hi: int): (r: seq<nat>)
    ensures |r| == if lo < hi then hi - lo else 0
    ensures forall k :: 0 <= k < |r| ==> r[k] == lo + k
  {
    if lo < hi then seq(hi - lo, k requires 0 <= k < hi - lo => lo + k) else []
  }

  /** How many steps of `i = (i + 1) % 7` lead from i to f. */
  function WrapDistance(i: int, f: int): nat
    requires 0 <= i <= 7 && 0 <= f <= 6
  {
    if i == 7 then (if f == 0 then 7 else f)
    else if f >= i then f - i
    else f - i + 7
  }

  /** The days the wraparound fill loop visits: from i, stepping `(i + 1) % 7`, until f. */
  function WrapDays(i: nat, f: int): seq<nat>
    requires i <= 7 && 0 <= f <= 6
    decreases WrapDistance(i, f)
  {
    if i == f then [] else [i] + WrapDays((i + 1) % 7, f)
  }

  /** A point's own window, from its start; its end time is set when the next point is reached. */
  function Own(p: DaySchedule, end: TimeOfDay): Window
    requires p.weekday >= 0
  {
    Window(p.startTime, end, WeekdayToOCF(p.weekday), p.instanceLimits, Initial(p.instanceLimits))
  }

  /**
   * The closing windows of prev once cur is reached: split at the day boundary
   * when days were filled or when the end time is LessThan (<=) prev's start.
   * The continuation half goes on cur's weekday.
   */
  function Close(prev: DaySchedule, cur: DaySchedule, filled: bool): seq<Window>
    requires prev.weekday >= 0 && cur.weekday >= 0
  {
    var end := SubOneMinute(cur.startTime);
    if filled || LessThan(end, prev.startTime) then
      [Own(prev, LastMinute),
       Window(Midnight, end, WeekdayToOCF(cur.weekday), prev.instanceLimits, Initial(prev.instanceLimits))]
    else
      [Own(prev, end)]
  }

  /** The windows of prev, for a consecutive pair of the sorted points. */
  function Step(prev: DaySchedule, cur: DaySchedule): seq<Window>
    requires prev.weekday >= 0 && cur.weekday >= 0
  {
    Fills(Range(prev.weekday + 1, cur.weekday), prev) + Close(prev, cur, prev.weekday + 1 < cur.weekday)
  }

  /** The windows of the last point, which is followed by the first one. */
  function WrapStep(last: DaySchedule, first: DaySchedule): seq<Window>
    requires 0 <= last.weekday <= 6 && 0 <= first.weekday <= 6
  {
    Fills(WrapDays(last.weekday + 1, first.weekday), last) + Close(last, first, last.weekday + 1 != first.weekday)
  }

  /** The windows of point k: towards the next point, or from the last point round to the first. */
  function Segment(d: seq<DaySchedule>, k: nat): seq<Window>
    requires InWeek(d) && k < |d|
  {
    if k + 1 < |d| then Step(d[k], d[k + 1]) else WrapStep(d[k], d[0])
  }

  /** The segments of all points, one list per point. */
  function SegmentList(d: seq<DaySchedule>): (ss: seq<seq<Window>>)
    requires InWeek(d)
    ensures |ss| == |d|
    ensures forall k :: 0 <= k < |d| ==> ss[k] == Segment(d, k)
  {
    seq(|d|, k requires 0 <= k < |d| => Segment(d, k))
  }

  /** The concatenation of the first n lists. */
  function Flatten<T>(ss: seq<seq<T>>, n: nat): seq<T>
    requires n <= |ss|
  {
    if n == 0 then [] else Flatten(ss, n - 1) + ss[n - 1]
  }

  /** Replacing a prefix by an equal one keeps the concatenation. */
  lemma AppendEqual<T>(a: seq<T>, b: seq<T>, x: seq<T>, c: seq<T>)
    requires a == b && b + x == c
    ensures a + x == c
  {
  }

  /** The segments of the first n points, one after the other. */
  function Segments(d: seq<DaySchedule>, n: nat): seq<Window>
    requires InWeek(d) && n <= |d|
  {
    Flatten(SegmentList(d), n)
  }

  /**
   * What ToOCF emits for the points d, in the order it emits them: the
   * segment of every point, the last one wrapping round to the first.
   */
  function Periods(d: seq<DaySchedule>): seq<Window>
    requires InWeek(d) && |d| >= 1
  {
    Segments(d, |d|)
  }

  // ----- daySchedules.ToOCF -----

  /** The record ToOCF keeps in `toAppend` for a point before its end time is known. */
  function Open(p: DaySchedule): Ocfas.RecurringSchedule
    requires p.weekday >= 0
  {
    Ocfas.RecurringSchedule(Format(p.startTime), "", [WeekdayToOCF(p.weekday)],
      p.instanceLimits.min, p.instanceLimits.max, Some(Initial(p.instanceLimits)))
  }

  /** The whole-day record the fill loops append for day i, built from the open record of p. */
  method FillRecord(current: Ocfas.RecurringSchedule, p: DaySchedule, i: nat) returns (r: Ocfas.RecurringSchedule)
    requires p.weekday >= 0 && current == Open(p)
    ensures r == Render(Fill(i, p))
  {
    r := Ocfas.RecurringSchedule(Format(Midnight), Format(LastMinute), [WeekdayToOCF(i)],
      current.instanceMinCount, current.instanceMaxCount, current.initialMinInstanceCount);
  }

  /** The fill loop between two consecutive points: whole days strictly between their weekdays. */
  method FillBetween(current: Ocfas.RecurringSchedule, prev: DaySchedule, sched: DaySchedule)
    returns (fills: seq<Ocfas.RecurringSchedule>, split: bool)
    requires prev.weekday >= 0 && current == Open(prev)
    ensures fills == RenderAll(Fills(Range(prev.weekday + 1, sched.weekday), prev))
    ensures split == (prev.weekday + 1 < sched.weekday)
  {
    fills := [];
    split := false;
    var i := prev.weekday + 1;
    while i < sched.weekday
      invariant prev.weekday + 1 <= i
      invariant i <= sched.weekday || i == prev.weekday + 1
      invariant split == (i > prev.weekday + 1)
      invariant fills == RenderAll(Fills(Range(prev.weekday + 1, i), prev))
    {
      RangeSnoc(prev.weekday + 1, i);
      RenderFillsSnoc(Range(prev.weekday + 1, i), i, prev);
      var r := FillRecord(current, prev, i);
      fills := fills + [r];
      split := true;
      i := i + 1;
    }
  }

  lemma WrapDaysStep(last: nat, done: seq<nat>, i: nat, f: int) returns (done2: seq<nat>)
    requires last <= 6 && i <= 7 && 0 <= f <= 6 && i != f
    requires WrapDays(last + 1, f) == done + WrapDays(i, f)
    ensures done2 == done + [i]
    ensures WrapDays(last + 1, f) == done2 + WrapDays((i + 1) % 7, f)
    ensures WrapDistance((i + 1) % 7, f) < WrapDistance(i, f)
  {
    done2 := done + [i];
    assert (i + 1) % 7 == if i >= 6 then i - 6 else i + 1;
    var rest := WrapDays((i + 1) % 7, f);
    assert WrapDays(i, f) == [i] + rest;
    Regroup(WrapDays(last + 1, f), done, i, rest, WrapDays(i, f));
  }

  /** a = b + ([x] + r) regrouped as (b + [x]) + r. */
  lemma Regroup<T>(a: seq<T>, b: seq<T>, x: T, r: seq<T>, c: seq<T>)
    requires a == b + c && c == [x] + r
    ensures a == (b + [x]) + r
  {
    assert b + ([x] + r) == (b + [x]) + r;
  }

  lemma RangeSnoc(lo: nat, i: nat)
    requires lo <= i
    ensures Range(lo, i + 1) == Range(lo, i) + [i]
  {
    assert Range(lo, i + 1) == Range(lo, i) + [i];
  }

  lemma RenderFillsSnoc(done: seq<nat>, i: nat, p: DaySchedule)
    ensures RenderAll(Fills(done + [i], p)) == RenderAll(Fills(done, p)) + [Render(Fill(i, p))]
  {
    FillsAppend(done, [i], p);
    RenderAllAppend(Fills(done, p), [Fill(i, p)]);
  }

  /** The wraparound fill loop: from the day after the last point, stepping modulo 7, until the first point's day. */
  method FillAround(current: Ocfas.RecurringSchedule, last: DaySchedule, first: DaySchedule)
    returns (fills: seq<Ocfas.RecurringSchedule>, split: bool)
    requires 0 <= last.weekday <= 6 && 0 <= first.weekday <= 6 && current == Open(last)
    ensures fills == RenderAll(Fills(WrapDays(last.weekday + 1, first.weekday), last))
    ensures split == (last.weekday + 1 != first.weekday)
  {
    fills := [];
    split := false;
    var i := last.weekday + 1;
    ghost var done: seq<nat> := [];
    while i != first.weekday
      invariant 0 <= i <= 7
      invariant WrapDays(last.weekday + 1, first.weekday) == done + WrapDays(i, first.weekday)
      invariant split == (done != [])
      invariant done == [] ==> i == last.weekday + 1
      invariant fills == RenderAll(Fills(done, last))
      decreases WrapDistance(i, first.weekday)
    {
      ghost var done2 := WrapDaysStep(last.weekday, done, i, first.weekday);
      RenderFillsSnoc(done, i, last);
      var r := FillRecord(current, last, i);
      fills := fills + [r];
      split := true;
      done := done2;
      i := (i + 1) % 7;
    }
    assert done == WrapDays(last.weekday + 1, first.weekday);
  }

  /** Sets the end time of `toAppend`, splitting it at 23:59 / 00:00 when needed. */
  method CloseOut(current: Ocfas.RecurringSchedule, prev: DaySchedule, sched: DaySchedule, split: bool)
    returns (out: seq<Ocfas.RecurringSchedule>)
    requires prev.weekday >= 0 && sched.weekday >= 0 && current == Open(prev)
    ensures out == RenderAll(Close(prev, sched, split))
  {
    out := [];
    var toAppend := current;
    var endTime := SubOneMinute(sched.startTime);
    if split || LessThan(endTime, prev.startTime) {
      toAppend := toAppend.(endTime := Format(LastMinute));
      out := out + [toAppend];
      toAppend := Ocfas.RecurringSchedule(Format(Midnight), "", [WeekdayToOCF(sched.weekday)],
        toAppend.instanceMinCount, toAppend.instanceMaxCount, toAppend.initialMinInstanceCount);
    }
    toAppend := toAppend.(endTime := Format(endTime));
    out := out + [toAppend];
  }

  /** Rendering one more list of fills and closing windows extends the rendering of the concatenation. */
  lemma RenderFlattenStep(ss: seq<seq<Window>>, n: nat, f: seq<Window>, c: seq<Window>)
    requires 0 < n <= |ss| && ss[n - 1] == f + c
    ensures RenderAll(Flatten(ss, n - 1)) + RenderAll(f) + RenderAll(c) == RenderAll(Flatten(ss, n))
  {
    RenderAllAppend(f, c);
    RenderAllAppend(Flatten(ss, n - 1), f + c);
  }

  lemma StepParts(prev: DaySchedule, cur: DaySchedule, split: bool)
    requires prev.weekday >= 0 && cur.weekday >= 0 && split == (prev.weekday + 1 < cur.weekday)
    ensures Step(prev, cur) == Fills(Range(prev.weekday + 1, cur.weekday), prev) + Close(prev, cur, split)
  {
  }

  lemma WrapStepParts(last: DaySchedule, first: DaySchedule, split: bool)
    requires 0 <= last.weekday <= 6 && 0 <= first.weekday <= 6 && split == (last.weekday + 1 != first.weekday)
    ensures WrapStep(last, first) == Fills(WrapDays(last.weekday + 1, first.weekday), last) + Close(last, first, split)
  {
  }

  /** When the windows of a consecutive pair are f + c, rendering f and c extends the rendering of the segments before. */
  lemma RenderSegmentsStep(s: seq<DaySchedule>, n: nat, f: seq<Window>, c: seq<Window>)
    requires InWeek(s) && 0 < n < |s| && Step(s[n - 1], s[n]) == f + c
    ensures RenderAll(Segments(s, n - 1)) + RenderAll(f) + RenderAll(c) == RenderAll(Segments(s, n))
  {
    var ss := SegmentList(s);
    assert ss[n - 1] == Segment(s, n - 1) == Step(s[n - 1], s[n]);
    RenderFlattenStep(ss, n, f, c);
  }

  /** When the wraparound windows of the last point are f + c, rendering f and c completes the rendering of all segments. */
  lemma RenderSegmentsLast(s: seq<DaySchedule>, f: seq<Window>, c: seq<Window>)
    requires InWeek(s) && 0 < |s| && WrapStep(s[|s| - 1], s[0]) == f + c
    ensures RenderAll(Segments(s, |s| - 1)) + RenderAll(f) + RenderAll(c) == RenderAll(Segments(s, |s|))
  {
    var ss := SegmentList(s);
    assert ss[|s| - 1] == Segment(s, |s| - 1) == WrapStep(s[|s| - 1], s[0]);
    RenderFlattenStep(ss, |s|, f, c);
  }

  /** Equal parts give equal concatenations of three. */
  lemma Append3Equal<T>(a: seq<T>, a': seq<T>, b: seq<T>, b': seq<T>, c: seq<T>, c': seq<T>, r: seq<T>)
    requires a == a' && b == b' && c == c' && a' + b' + c' == r
    ensures a + b + c == r
  {
  }

  lemma AppendGroup<T>(a: seq<T>, b: seq<T>, c: seq<T>, r: seq<T>)
    requires a + b + c == r
    ensures a + (b + c) == r
  {
  }

  /** One more consecutive pair: its fills and closing windows are the segment of the earlier point. */
  lemma {:induction false} RenderStep(s: seq<DaySchedule>, idx: nat, prev: DaySchedule, sched: DaySchedule,
                        fills: seq<Ocfas.RecurringSchedule>, closing: seq<Ocfas.RecurringSchedule>, split: bool)
    requires InWeek(s) && 1 <= idx < |s| && prev == s[idx - 1] && sched == s[idx]
    requires split == (prev.weekday + 1 < sched.weekday)
    requires fills == RenderAll(Fills(Range(prev.weekday + 1, sched.weekday), prev))
    requires closing == RenderAll(Close(prev, sched, split))
    ensures RenderAll(Segments(s, idx - 1)) + fills + closing == RenderAll(Segments(s, idx))
  {
    var f, c := Fills(Range(prev.weekday + 1, sched.weekday), prev), Close(prev, sched, split);
    StepParts(prev, sched, split);
    RenderSegmentsStep(s, idx, f, c);
    Append3Equal(RenderAll(Segments(s, idx - 1)), RenderAll(Segments(s, idx - 1)), fills, RenderAll(f), closing, RenderAll(c),
      RenderAll(Segments(s, idx)));
  }

  /** The wraparound windows of the last point complete the output. */
  lemma {:induction false} PeriodsRender(s: seq<DaySchedule>, last: DaySchedule, first: DaySchedule, chain: seq<Ocfas.RecurringSchedule>,
                      fills: seq<Ocfas.RecurringSchedule>, closing: seq<Ocfas.RecurringSchedule>, split: bool)
    requires InWeek(s) && |s| >= 1 && last == s[|s| - 1] && first == s[0]
    requires chain == RenderAll(Segments(s, |s| - 1))
    requires fills == RenderAll(Fills(WrapDays(last.weekday + 1, first.weekday), last))
    requires split == (last.weekday + 1 != first.weekday)
    requires closing == RenderAll(Close(last, first, split))
    ensures chain + fills + closing == RenderAll(Periods(s))
  {
    var f, c := Fills(WrapDays(last.weekday + 1, first.weekday), last), Close(last, first, split);
    WrapStepParts(last, first, split);
    RenderSegmentsLast(s, f, c);
    Append3Equal(chain, RenderAll(Segments(s, |s| - 1)), fills, RenderAll(f), closing, RenderAll(c), RenderAll(Segments(s, |s|)));
  }

  /** One pass of the main loop with a pending window: the fills and closing windows towards the next point. */
  method CloseStep(ghost s: seq<DaySchedule>, ghost idx: nat, current: Ocfas.RecurringSchedule, prev: DaySchedule, sched: DaySchedule)
    returns (out: seq<Ocfas.RecurringSchedule>)
    requires InWeek(s) && 1 <= idx < |s| && prev == s[idx - 1] && sched == s[idx] && current == Open(prev)
    ensures RenderAll(Segments(s, idx - 1)) + out == RenderAll(Segments(s, idx))
  {
    var fills, split := FillBetween(current, prev, sched);
    var closing := CloseOut(current, prev, sched, split);
    RenderStep(s, idx, prev, sched, fills, closing, split);
    out := fills + closing;
    AppendGroup(RenderAll(Segments(s, idx - 1)), fills, closing, RenderAll(Segments(s, idx)));
  }

  lemma NoSegments(s: seq<DaySchedule>)
    requires InWeek(s)
    ensures RenderAll(Segments(s, 0)) == []
  {
  }

  /** One iteration of ToOCF's loop over the sorted points: close the pending record, if any, then open point idx's. */
  method ChainPoint(d: array<DaySchedule>, ghost s: seq<DaySchedule>, idx: nat, pending0: Option<Ocfas.RecurringSchedule>,
                    periods0: seq<Ocfas.RecurringSchedule>) returns (pending: Option<Ocfas.RecurringSchedule>, periods: seq<Ocfas.RecurringSchedule>)
    requires s == d[..] && InWeek(s) && idx < |s|
    requires periods0 == Emitted(s, idx) && pending0 == Pending(s, idx)
    ensures periods == Emitted(s, idx + 1) && pending == Pending(s, idx + 1)
  {
    var sched := d[idx];
    if pending0.Some? {
      periods := CloseChain(d, s, idx, pending0.value, periods0);
    } else {
      NoSegments(s);
      periods := periods0;
    }
    var record := OpenRecord(sched);
    pending := Some(record);
  }

  /** What ToOCF's loop has appended once it has looked at the first n points: the windows of all but the last of them. */
  function Emitted(s: seq<DaySchedule>, n: nat): seq<Ocfas.RecurringSchedule>
    requires InWeek(s) && n <= |s|
  {
    if n == 0 then [] else RenderAll(Segments(s, n - 1))
  }

  /** ToOCF's `toAppend` once the loop has looked at the first n points: nil, then the open record of point n - 1. */
  function Pending(s: seq<DaySchedule>, n: nat): Option<Ocfas.RecurringSchedule>
    requires InWeek(s) && n <= |s|
  {
    if n == 0 then None else Some(Open(s[n - 1]))
  }

  /** The `toAppend != nil` branch of ToOCF's loop at point idx: the windows of point idx - 1 are appended. */
  method CloseChain(d: array<DaySchedule>, ghost s: seq<DaySchedule>, idx: nat, current: Ocfas.RecurringSchedule,
                    periods0: seq<Ocfas.RecurringSchedule>) returns (periods: seq<Ocfas.RecurringSchedule>)
    requires s == d[..] && InWeek(s) && 1 <= idx < |s| && current == Open(s[idx - 1])
    requires periods0 == RenderAll(Segments(s, idx - 1))
    ensures periods == RenderAll(Segments(s, idx))
  {
    var out := CloseStep(s, idx, current, d[idx - 1], d[idx]);
    AppendEqual(periods0, RenderAll(Segments(s, idx - 1)), out, RenderAll(Segments(s, idx)));
    periods := periods0 + out;
  }

  /** The record a point opens: its start time, its weekday and its limits, with no end time yet. */
  method OpenRecord(sched: DaySchedule) returns (r: Ocfas.RecurringSchedule)
    requires sched.weekday >= 0
    ensures r == Open(sched)
  {
    var initial := Initial(sched.instanceLimits);
    r := Ocfas.RecurringSchedule(Format(sched.startTime), "", [WeekdayToOCF(sched.weekday)],
      sched.instanceLimits.min, sched.instanceLimits.max, Some(initial));
  }

  method EmitChain(d: array<DaySchedule>, ghost s: seq<DaySchedule>) returns (periods: seq<Ocfas.RecurringSchedule>, toAppend: Ocfas.RecurringSchedule)
    requires d.Length >= 1 && s == d[..] && InWeek(s)
    ensures periods == RenderAll(Segments(s, |s| - 1))
    ensures toAppend == Open(s[|s| - 1])
  {
    periods := [];
    var pending: Option<Ocfas.RecurringSchedule> := None;
    var idx := 0;
    while idx < d.Length
      invariant 0 <= idx <= d.Length && s == d[..]
      invariant periods == Emitted(s, idx) && pending == Pending(s, idx)
    {
      pending, periods := ChainPoint(d, s, idx, pending, periods);
      idx := idx + 1;
    }
    toAppend := pending.value;
  }

  /** Reordering the points keeps them on Go weekdays. */
  lemma InWeekPermutation(a: seq<DaySchedule>, b: seq<DaySchedule>)
    requires InWeek(a) && multiset(a) == multiset(b)
    ensures InWeek(b)
  {
    forall k | 0 <= k < |b| ensures 0 <= b[k].weekday <= 6 {
      assert b[k] in multiset(a);
    }
  }

  /**
   * daySchedules.ToOCF: sorts the points in place, then emits the windows.
   * Go panics on an empty slice, and its wraparound loop only ends on a weekday.
   */
  method ToOCF(d: array<DaySchedule>) returns (periods: seq<Ocfas.RecurringSchedule>)
    requires d.Length >= 1
    requires InWeek(d[..])
    modifies d
    ensures SortedSchedules(d[..])
    ensures multiset(d[..]) == old(multiset(d[..]))
    ensures InWeek(d[..])
    ensures periods == RenderAll(Periods(d[..]))
  {
    ghost var input := d[..];
    Sort(d);
    InWeekPermutation(input, d[..]);
    periods := EmitWindows(d);
  }

  /** The emitting part of ToOCF, on the sorted points: the chain, then the wraparound from the last point to the first. */
  method EmitWindows(d: array<DaySchedule>) returns (periods: seq<Ocfas.RecurringSchedule>)
    requires d.Length >= 1 && InWeek(d[..])
    ensures periods == RenderAll(Periods(d[..]))
  {
    ghost var s := d[..];
    var chain, toAppend := EmitChain(d, s);
    var last, first := d[d.Length - 1], d[0];
    assert last == s[|s| - 1] && first == s[0];
    var fills, split := FillAround(toAppend, last, first);
    var closing := CloseOut(toAppend, last, first, split);
    PeriodsRender(s, last, first, chain, fills, closing, split);
    periods := chain + fills + closing;
  }
}
