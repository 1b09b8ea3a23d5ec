/**
 * Particular inputs of the windowing algorithm and what it does with them:
 * when a window is split at the day boundary and when not, which weekday the
 * continuation lands on, and which whole days get filled.
 */
module WindowCases {
  import opened Times
  import opened DayPoints
  import opened Windows
  import opened WindowProperties

  /**
   * When the next point comes at least two minutes after the previous one in
   * the day (on the same weekday or the one after), there is no split: one
   * window on the previous point's weekday from its start to the minute before
   * the next point. For the next weekday this window stands for a span that
   * in fact crosses midnight.
   */
  lemma NoSplitWhenLater(prev: DaySchedule, cur: DaySchedule)
    requires 0 <= prev.weekday <= cur.weekday <= prev.weekday + 1 <= 7
    requires Valid(prev.startTime) && Valid(cur.startTime)
    requires Minutes(prev.startTime) + 1 < Minutes(cur.startTime)
    ensures Step(prev, cur) == [Window(prev.startTime, SubOneMinute(cur.startTime), WeekdayToOCF(prev.weekday),
                                       prev.instanceLimits, Initial(prev.instanceLimits))]
  {
    SubOneMinuteSpec(cur.startTime);
    LessThanMinutes(SubOneMinute(cur.startTime), prev.startTime);
    assert Range(prev.weekday + 1, cur.weekday) == [];
  }

  /**
   * A next point exactly one minute after the previous one still splits,
   * because LessThan is <=: the previous point's window runs to 23:59 and a
   * second window from 00:00 to the previous point's own start goes on the
   * next point's weekday.
   */
  lemma OneMinuteLaterSplits(prev: DaySchedule, cur: DaySchedule)
    requires 0 <= prev.weekday <= cur.weekday <= prev.weekday + 1 <= 7
    requires Valid(prev.startTime) && Valid(cur.startTime)
    requires Minutes(cur.startTime) == Minutes(prev.startTime) + 1
    ensures Step(prev, cur) ==
      [Window(prev.startTime, LastMinute, WeekdayToOCF(prev.weekday), prev.instanceLimits, Initial(prev.instanceLimits)),
       Window(Midnight, prev.startTime, WeekdayToOCF(cur.weekday), prev.instanceLimits, Initial(prev.instanceLimits))]
  {
    SubOneMinuteSpec(cur.startTime);
    assert SubOneMinute(cur.startTime) == prev.startTime;
    assert Range(prev.weekday + 1, cur.weekday) == [];
  }

  /**
   * After filled days, a next point at 00:00 still gets a continuation window:
   * 00:00 to 23:59 on the next point's own weekday, with the previous point's
   * limits, beside the next point's own window that also starts at 00:00.
   */
  lemma MidnightAfterFillsGetsFullDay(prev: DaySchedule, cur: DaySchedule)
    requires 0 <= prev.weekday && prev.weekday + 1 < cur.weekday <= 6
    requires Valid(prev.startTime) && cur.startTime == Midnight
    ensures var s := Step(prev, cur);
      s[|s| - 1] == Window(Midnight, LastMinute, WeekdayToOCF(cur.weekday), prev.instanceLimits, Initial(prev.instanceLimits))
  {
    var s := Step(prev, cur);
    var days := Range(prev.weekday + 1, cur.weekday);
    assert s == Fills(days, prev) + Close(prev, cur, true);
    assert s[|s| - 1] == Close(prev, cur, true)[1];
  }

  /**
   * A split's continuation goes on the next point's weekday, even when that is
   * several days after the previous point (the days between are filled).
   */
  lemma ContinuationOnNextPointsDay(prev: DaySchedule, cur: DaySchedule)
    requires 0 <= prev.weekday && prev.weekday + 1 < cur.weekday <= 6
    requires Valid(prev.startTime) && Valid(cur.startTime)
    ensures var s := Step(prev, cur);
      && |s| == cur.weekday - prev.weekday + 1
      && s[|s| - 1].day == WeekdayToOCF(cur.weekday)
      && s[|s| - 1].start == Midnight && s[|s| - 1].end == SubOneMinute(cur.startTime)
  {
    var s := Step(prev, cur);
    var days := Range(prev.weekday + 1, cur.weekday);
    assert s == Fills(days, prev) + Close(prev, cur, true);
    assert s[|s| - 1] == Close(prev, cur, true)[1];
  }

  /** Every weekday strictly between two consecutive sorted points gets a whole-day window with the earlier point's limits. */
  lemma {:induction false} GapDaysFilled(d: seq<DaySchedule>, k: nat, x: nat)
    requires InWeek(d) && ValidStarts(d) && k + 1 < |d|
    requires d[k].weekday < x < d[k + 1].weekday
    ensures exists i :: 0 <= i < |Periods(d)| && Periods(d)[i] == Fill(x, d[k])
  {
    SegmentsPrefix(d, k, |d|);
    SegmentShape(d, k);
    var j := x - d[k].weekday - 1;
    assert FillDays(d, k)[j] == x;
    PrefixIndex(Segments(d, k), Segment(d, k), Periods(d), j);
  }

  /**
   * Going round from the last point to the first, every weekday strictly
   * between them gets a whole-day window with the last point's limits; when
   * the last point is on Saturday and the first on Sunday, every weekday does.
   */
  lemma {:induction false} WrapDaysFilled(d: seq<DaySchedule>, x: nat)
    requires InWeek(d) && ValidStarts(d) && |d| >= 1 && x <= 6
    requires CircularlyBetween(d[|d| - 1].weekday, x, d[0].weekday) || (d[|d| - 1].weekday == Saturday && d[0].weekday == Sunday)
    ensures exists i :: 0 <= i < |Periods(d)| && Periods(d)[i] == Fill(x, d[|d| - 1])
  {
    var k := |d| - 1;
    var last, first := d[k].weekday, d[0].weekday;
    SegmentShape(d, k);
    WrapFillDays(last, first, x);
    var days := WrapDays(last + 1, first);
    var j :| 0 <= j < |days| && WeekdayToOCF(days[j]) == WeekdayToOCF(x);
    LastFillDays(d);
    assert Fill(FillDays(d, k)[j], d[k]) == Fill(x, d[k]);
    SegmentsPrefix(d, k, |d|);
    PrefixIndex(Segments(d, k), Segment(d, k), Periods(d), j);
  }

  /** Each point's last window ends the minute before the next point starts, the first point following the last. */
  lemma {:induction false} EveryPointClosesBeforeNext(d: seq<DaySchedule>, k: nat)
    requires InWeek(d) && ValidStarts(d) && k < |d|
    ensures exists i :: (0 <= i < |Periods(d)| &&
      Periods(d)[i].end == SubOneMinute(Next(d, k).startTime) && Periods(d)[i].limits == d[k].instanceLimits)
  {
    SegmentsPrefix(d, k, |d|);
    SegmentLast(d, k);
    var seg := Segment(d, k);
    PrefixIndex(Segments(d, k), seg, Periods(d), |seg| - 1);
    var i := |Segments(d, k)| + |seg| - 1;
    assert Periods(d)[i] == seg[|seg| - 1];
  }

  /** A point's segment ends with a window closing the minute before the next point's start, with the point's limits. */
  lemma SegmentLast(d: seq<DaySchedule>, k: nat)
    requires InWeek(d) && ValidStarts(d) && k < |d|
    ensures |Segment(d, k)| > 0
    ensures Segment(d, k)[|Segment(d, k)| - 1].end == SubOneMinute(Next(d, k).startTime)
    ensures Segment(d, k)[|Segment(d, k)| - 1].limits == d[k].instanceLimits
  {
    SegmentShape(d, k);
    var seg := Segment(d, k);
    assert seg[|seg| - 1] in seg;
  }
}
