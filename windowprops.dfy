/**
 * What the windows of daySchedules.ToOCF look like: the output is one
 * segment per sorted point; a segment fills the weekdays up to the next
 * point, opens with the point's own window and ends the minute before the
 * next point starts.
 */
module WindowProperties {
  import opened GoInts
  import opened Times
  import opened DayPoints
  import opened Windows

  /** A window inside one day: valid clock times, start not after end, a target weekday. */
  predicate WellFormed(w: Window)
  {
    Valid(w.start) && Valid(w.end) && LessThan(w.start, w.end) && 1 <= w.day <= 7
  }

  predicate ValidStarts(d: seq<DaySchedule>)
  {
    forall k :: 0 <= k < |d| ==> Valid(d[k].startTime)
  }

  // ----- one segment per point -----

  /** The point that follows point k on the circle. */
  function Next(d: seq<DaySchedule>, k: nat): DaySchedule
    requires k < |d|
  {
    if k + 1 < |d| then d[k + 1] else d[0]
  }

  /** The weekdays the fill loop visits after point k. */
  function FillDays(d: seq<DaySchedule>, k: nat): seq<nat>
    requires InWeek(d) && k < |d|
  {
    if k + 1 < |d| then Range(d[k].weekday + 1, d[k + 1].weekday) else WrapDays(d[k].weekday + 1, d[0].weekday)
  }

  lemma {:induction false} FillsShape(days: seq<nat>, p: DaySchedule)
    requires forall j :: 0 <= j < |days| ==> days[j] <= 7
    ensures forall w :: w in Fills(days, p) ==>
      WellFormed(w) && w.limits == p.instanceLimits && w.initial == Initial(p.instanceLimits)
  {
    forall w | w in Fills(days, p)
      ensures WellFormed(w) && w.limits == p.instanceLimits && w.initial == Initial(p.instanceLimits)
    {
      var j :| 0 <= j < |days| && Fills(days, p)[j] == w;
      assert w == Fill(days[j], p);
    }
  }

  lemma {:induction false} CloseShape(prev: DaySchedule, cur: DaySchedule, filled: bool)
    requires 0 <= prev.weekday <= 6 && 0 <= cur.weekday <= 6
    requires Valid(prev.startTime) && Valid(cur.startTime)
    ensures var c := Close(prev, cur, filled);
      && 1 <= |c| <= 2
      && (|c| == 2 <==> filled || LessThan(SubOneMinute(cur.startTime), prev.startTime))
      && c[0].start == prev.startTime && c[0].day == WeekdayToOCF(prev.weekday)
      && c[|c| - 1].end == SubOneMinute(cur.startTime)
      && (|c| == 2 ==> c[0].end == LastMinute && c[1].start == Midnight && c[1].day == WeekdayToOCF(cur.weekday))
      && (forall w :: w in c ==> WellFormed(w) && w.limits == prev.instanceLimits && w.initial == Initial(prev.instanceLimits))
  {
    var end := SubOneMinute(cur.startTime);
    var c := Close(prev, cur, filled);
    if filled || LessThan(end, prev.startTime) {
      assert c == [Own(prev, LastMinute), Window(Midnight, end, WeekdayToOCF(cur.weekday), prev.instanceLimits, Initial(prev.instanceLimits))];
    } else {
      assert c == [Own(prev, end)];
    }
    CloseWindows(prev, cur, filled);
  }

  /** Every closing window is well formed and carries prev's limits. */
  lemma CloseWindows(prev: DaySchedule, cur: DaySchedule, filled: bool)
    requires 0 <= prev.weekday <= 6 && 0 <= cur.weekday <= 6
    requires Valid(prev.startTime) && Valid(cur.startTime)
    ensures forall w :: w in Close(prev, cur, filled) ==>
      WellFormed(w) && w.limits == prev.instanceLimits && w.initial == Initial(prev.instanceLimits)
  {
    var end := SubOneMinute(cur.startTime);
    SubOneMinuteSpec(cur.startTime);
    var c := Close(prev, cur, filled);
    if filled || LessThan(end, prev.startTime) {
      var a, b := Own(prev, LastMinute), Window(Midnight, end, WeekdayToOCF(cur.weekday), prev.instanceLimits, Initial(prev.instanceLimits));
      assert c == [a, b];
      assert LessThan(prev.startTime, LastMinute);
      assert LessThan(Midnight, end);
      assert WellFormed(a) && WellFormed(b);
    } else {
      LessThanIsTotalOrder(end, prev.startTime, prev.startTime);
      assert c == [Own(prev, end)];
      assert WellFormed(Own(prev, end));
    }
  }

  lemma LastFillDays(d: seq<DaySchedule>)
    requires InWeek(d) && |d| >= 1
    ensures FillDays(d, |d| - 1) == WrapDays(d[|d| - 1].weekday + 1, d[0].weekday)
  {
  }

  lemma {:induction false} FillDaysBound(d: seq<DaySchedule>, k: nat)
    requires InWeek(d) && k < |d|
    ensures forall j :: 0 <= j < |FillDays(d, k)| ==> FillDays(d, k)[j] <= 7
    ensures FillDays(d, k) != [] <==> if k + 1 < |d| then d[k].weekday + 1 < d[k + 1].weekday else d[k].weekday + 1 != d[0].weekday
  {
    if k + 1 == |d| {
      WrapDaysShape(d[k].weekday + 1, d[0].weekday);
    }
  }

  /** A segment is the fills of its days followed by the closing windows towards the next point. */
  lemma {:induction false} SegmentSplit(d: seq<DaySchedule>, k: nat)
    requires InWeek(d) && k < |d|
    ensures Segment(d, k) == Fills(FillDays(d, k), d[k]) + Close(d[k], Next(d, k), FillDays(d, k) != [])
  {
    FillDaysBound(d, k);
  }

  /** The shape of fills followed by closing windows, for any day list and pair of points. */
  lemma {:induction false} PairShape(days: seq<nat>, p: DaySchedule, next: DaySchedule)
    requires forall j :: 0 <= j < |days| ==> days[j] <= 7
    requires 0 <= p.weekday <= 6 && 0 <= next.weekday <= 6
    requires Valid(p.startTime) && Valid(next.startTime)
    ensures var seg := Fills(days, p) + Close(p, next, days != []);
      && |days| < |seg| <= |days| + 2
      && (forall j :: 0 <= j < |days| ==> seg[j] == Fill(days[j], p))
      && seg[|days|].start == p.startTime && seg[|days|].day == WeekdayToOCF(p.weekday)
      && seg[|seg| - 1].end == SubOneMinute(next.startTime)
      && (|seg| == |days| + 2 <==> days != [] || LessThan(SubOneMinute(next.startTime), p.startTime))
      && (forall w :: w in seg ==> WellFormed(w) && w.limits == p.instanceLimits && w.initial == Initial(p.instanceLimits))
  {
    var f, c := Fills(days, p), Close(p, next, days != []);
    FillsShape(days, p);
    CloseShape(p, next, days != []);
    var seg := f + c;
    assert seg[|days|] == c[0];
    assert seg[|seg| - 1] == c[|c| - 1];
    forall w | w in seg
      ensures WellFormed(w) && w.limits == p.instanceLimits && w.initial == Initial(p.instanceLimits)
    {
      assert w in f || w in c;
    }
  }

  /**
   * The segment of point k: whole-day windows for the days the fill loop visits,
   * then the point's own window, which ends the minute before the next point starts
   * (the first point follows the last), split at 23:59 / 00:00 when days were filled
   * or the end is LessThan the start. Every window is well formed and carries the
   * point's limits.
   */
  lemma {:induction false} SegmentShape(d: seq<DaySchedule>, k: nat)
    requires InWeek(d) && ValidStarts(d) && k < |d|
    ensures var p, seg, days := d[k], Segment(d, k), FillDays(d, k);
      && |days| < |seg| <= |days| + 2
      && (forall j :: 0 <= j < |days| ==> seg[j] == Fill(days[j], p))
      && seg[|days|].start == p.startTime && seg[|days|].day == WeekdayToOCF(p.weekday)
      && seg[|seg| - 1].end == SubOneMinute(Next(d, k).startTime)
      && (|seg| == |days| + 2 <==> days != [] || LessThan(SubOneMinute(Next(d, k).startTime), p.startTime))
      && (forall w :: w in seg ==> WellFormed(w) && w.limits == p.instanceLimits && w.initial == Initial(p.instanceLimits))
  {
    FillDaysBound(d, k);
    SegmentSplit(d, k);
    PairShape(FillDays(d, k), d[k], Next(d, k));
  }

  // ----- the days that get whole-day windows -----

  /** Between two consecutive points, the fill loop visits exactly the weekdays strictly between them. */
  lemma {:induction false} GapFillDays(d: seq<DaySchedule>, k: nat)
    requires InWeek(d) && k + 1 < |d|
    ensures forall x :: x in FillDays(d, k) <==> d[k].weekday < x < d[k + 1].weekday
  {
    var days := FillDays(d, k);
    forall x
      ensures x in days <==> d[k].weekday < x < d[k + 1].weekday
    {
      if d[k].weekday < x < d[k + 1].weekday {
        assert days[x - d[k].weekday - 1] == x;
      }
    }
  }

  /** The loop `for i := from; i != to; i = (i + 1) % 7`, spelled out element by element: step j is i + j reduced into 0..6. */
  lemma {:induction false} WrapDaysShape(i: nat, f: int)
    requires i <= 7 && 0 <= f <= 6
    ensures |WrapDays(i, f)| == WrapDistance(i, f)
    ensures forall j :: 0 <= j < |WrapDays(i, f)| ==>
      WrapDays(i, f)[j] == if i == 7 && j == 0 then 7 else if i + j < 7 then i + j else i + j - 7
    decreases WrapDistance(i, f)
  {
    if i != f {
      var next := if i >= 6 then i - 6 else i + 1;
      assert (i + 1) % 7 == next;
      WrapDaysShape(next, f);
      var days, rest := WrapDays(i, f), WrapDays(next, f);
      assert days == [i] + rest;
      forall j | 1 <= j < |days|
        ensures days[j] == if i + j < 7 then i + j else i + j - 7
      {
        assert days[j] == rest[j - 1];
      }
    }
  }

  /** Weekday x lies strictly after `last` and strictly before `first`, going round the week. */
  predicate CircularlyBetween(last: int, x: int, first: int)
  {
    if last < first then last < x < first else x > last || x < first
  }

  /** Go weekdays 0..7 share a target number exactly when they are equal or are 7 and 0 (both Sunday). */
  lemma SameTargetDay(a: nat, x: nat)
    requires a <= 7 && x <= 6
    ensures WeekdayToOCF(a) == WeekdayToOCF(x) <==> a == x || (a == 7 && x == 0)
  {
  }

  /** Some day the list visits has the same target number as x. */
  predicate VisitsTargetDay(days: seq<nat>, x: nat)
  {
    exists j :: 0 <= j < |days| && WeekdayToOCF(days[j]) == WeekdayToOCF(x)
  }

  lemma {:induction false} WrapFillLength(last: int, first: int)
    requires 0 <= last <= 6 && 0 <= first <= 6
    ensures |WrapDays(last + 1, first)| == (if last == Saturday && first == Sunday then 7
                    else if last < first then first - last - 1 else first - last + 6)
  {
    WrapDaysShape(last + 1, first);
  }

  lemma {:induction false} WrapFillReaches(last: int, first: int, x: int)
    requires 0 <= last <= 6 && 0 <= first <= 6 && 0 <= x <= 6
    requires CircularlyBetween(last, x, first) || (last == Saturday && first == Sunday)
    ensures VisitsTargetDay(WrapDays(last + 1, first), x)
  {
    var i := last + 1;
    var days := WrapDays(i, first);
    WrapDaysShape(i, first);
    // the index at which the loop visits x
    var j: int := if i == 7 then x else if x >= i then x - i else x - i + 7;
    assert 0 <= j < |days|;
    assert days[j] == x || (days[j] == 7 && x == 0);
    SameTargetDay(days[j], x);
  }

  /** Going round the week from weekday i, the j-th step before reaching f lies strictly between i - 1 and f. */
  lemma WrapStepBetween(i: int, j: int, f: int)
    requires 0 <= i <= 6 && 0 <= f <= 6 && 0 <= j < WrapDistance(i, f)
    ensures CircularlyBetween(i - 1, if i + j < 7 then i + j else i + j - 7, f)
  {
  }

  lemma {:induction false} WrapFillOnlyBetween(last: int, first: int, x: int)
    requires 0 <= last <= 6 && 0 <= first <= 6 && 0 <= x <= 6
    requires VisitsTargetDay(WrapDays(last + 1, first), x)
    ensures CircularlyBetween(last, x, first) || (last == Saturday && first == Sunday)
  {
    var i := last + 1;
    var days := WrapDays(i, first);
    WrapDaysShape(i, first);
    var j :| 0 <= j < |days| && WeekdayToOCF(days[j]) == WeekdayToOCF(x);
    var y := days[j];
    assert y == if i == 7 && j == 0 then 7 else if i + j < 7 then i + j else i + j - 7;
    SameTargetDay(y, x);
    if i == 7 {
      assert j < WrapDistance(7, first);
      assert x == j;
    } else {
      WrapStepBetween(i, j, first);
    }
  }

  /**
   * The target weekdays the wraparound loop fills after the last point: the days
   * strictly between the last and the first point going round the week; but when
   * the last point is on Saturday and the first on Sunday the loop starts at 7
   * (weekdayToOCF(7) is 7) and fills all seven days.
   */
  lemma WrapFillDays(last: int, first: int, x: int)
    requires 0 <= last <= 6 && 0 <= first <= 6 && 0 <= x <= 6
    ensures |WrapDays(last + 1, first)| == (if last == Saturday && first == Sunday then 7
                    else if last < first then first - last - 1 else first - last + 6)
    ensures VisitsTargetDay(WrapDays(last + 1, first), x) <==>
            CircularlyBetween(last, x, first) || (last == Saturday && first == Sunday)
  {
    WrapFillLength(last, first);
    if CircularlyBetween(last, x, first) || (last == Saturday && first == Sunday) {
      WrapFillReaches(last, first, x);
    }
    if VisitsTargetDay(WrapDays(last + 1, first), x) {
      WrapFillOnlyBetween(last, first, x);
    }
  }

  // ----- every window, and every point -----

  /** w carries the limits and initial count of one of the first n points. */
  predicate FromSomePoint(w: Window, d: seq<DaySchedule>, n: nat)
    requires n <= |d|
  {
    exists k :: 0 <= k < n && w.limits == d[k].instanceLimits && w.initial == Initial(d[k].instanceLimits)
  }

  lemma {:induction false} SegmentWindows(d: seq<DaySchedule>, k: nat)
    requires InWeek(d) && ValidStarts(d) && k < |d|
    ensures forall w :: w in Segment(d, k) ==> WellFormed(w) && w.limits == d[k].instanceLimits && w.initial == Initial(d[k].instanceLimits)
  {
    SegmentShape(d, k);
  }

  lemma {:induction false} SegmentsWindows(d: seq<DaySchedule>, n: nat)
    requires InWeek(d) && ValidStarts(d) && n <= |d|
    ensures forall w :: w in Segments(d, n) ==> WellFormed(w) && FromSomePoint(w, d, n)
  {
    var ss := SegmentList(d);
    forall w | w in Segments(d, n)
      ensures WellFormed(w) && FromSomePoint(w, d, n)
    {
      var k := FlattenMember(ss, n, w);
      SegmentWindows(d, k);
      assert w in Segment(d, k);
    }
  }

  /**
   * Every emitted window stays within one day (start LessThan end, both valid,
   * a target weekday 1..7) and carries the limits and initial count of some point.
   */
  lemma {:induction false} PeriodsWindows(d: seq<DaySchedule>)
    requires InWeek(d) && ValidStarts(d) && |d| >= 1
    ensures forall w :: w in Periods(d) ==> WellFormed(w) && FromSomePoint(w, d, |d|)
  {
    SegmentsWindows(d, |d|);
  }

  lemma {:induction false} SegmentsPrefix(d: seq<DaySchedule>, k: nat, n: nat)
    requires InWeek(d) && k < n <= |d|
    ensures Segments(d, k) + Segment(d, k) <= Segments(d, n)
  {
    var ss := SegmentList(d);
    FlattenPrefix(ss, k, n);
    assert ss[k] == Segment(d, k);
  }

  lemma {:induction false} FlattenPrefix<T>(ss: seq<seq<T>>, k: nat, n: nat)
    requires k < n <= |ss|
    ensures Flatten(ss, k) + ss[k] <= Flatten(ss, n)
    decreases n
  {
    if n > k + 1 {
      FlattenPrefix(ss, k, n - 1);
      PrefixOfAppend(Flatten(ss, k) + ss[k], Flatten(ss, n - 1), ss[n - 1]);
    }
  }

  /** An element of the concatenation belongs to one of the lists; that list's index is returned. */
  lemma {:induction false} FlattenMember<T>(ss: seq<seq<T>>, n: nat, x: T) returns (k: nat)
    requires n <= |ss| && x in Flatten(ss, n)
    ensures k < n && x in ss[k]
  {
    if x in ss[n - 1] {
      k := n - 1;
    } else {
      k := FlattenMember(ss, n - 1, x);
    }
  }

  /** Index j of the second part of a prefix a + b of c is index |a| + j of c. */
  lemma PrefixIndex<T>(a: seq<T>, b: seq<T>, c: seq<T>, j: int)
    requires a + b <= c && 0 <= j < |b|
    ensures |a| + j < |c| && c[|a| + j] == b[j]
  {
    assert c[|a| + j] == (a + b)[|a| + j];
  }

  lemma PrefixOfAppend<T>(a: seq<T>, b: seq<T>, c: seq<T>)
    requires a <= b
    ensures a <= b + c
  {
    assert (b + c)[..|a|] == b[..|a|];
  }

  /** w starts at p's start time, on p's target weekday, with p's limits. */
  predicate OwnWindowOf(w: Window, p: DaySchedule)
    requires p.weekday >= 0
  {
    w.start == p.startTime && w.day == WeekdayToOCF(p.weekday) && w.limits == p.instanceLimits
  }

  /** Every point opens a window at its own start time, on its own target weekday, with its limits. */
  lemma {:induction false} EveryPointOpensAWindow(d: seq<DaySchedule>, k: nat)
    requires InWeek(d) && ValidStarts(d) && k < |d|
    ensures exists i :: 0 <= i < |Periods(d)| && OwnWindowOf(Periods(d)[i], d[k])
  {
    SegmentsPrefix(d, k, |d|);
    SegmentShape(d, k);
    PrefixIndex(Segments(d, k), Segment(d, k), Periods(d), |FillDays(d, k)|);
  }
}
