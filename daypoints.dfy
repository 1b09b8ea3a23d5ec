/**
 * Scheduled limit changes and their expansion into one day-point per active
 * weekday (models/models.go: ScheduledLimitChange, daySchedule,
 * toDaySchedules, and the collecting loop of ToOCFRecurringSchedules).
 */
module DayPoints {
  import opened GoInts
  import opened Times

  datatype InstanceLimits = InstanceLimits(min: int64, max: int64)

  /** A weekly change of instance limits, starting at a time of day on the days of a mask. */
  datatype ScheduledLimitChange = ScheduledLimitChange(
    enabled: bool,
    startTime: TimeOfDay,
    instanceLimits: InstanceLimits,
    recurrence: Recurrence)

  /** One weekday instance of a limit change; weekdays are Go's, Sunday 0 to Saturday 6. */
  datatype DaySchedule = DaySchedule(weekday: int, startTime: TimeOfDay, instanceLimits: InstanceLimits)

  /** The initial instance count of every window: Go's int64 `(min + max) / 2`. */
  function Initial(l: InstanceLimits): int64
  {
    Midpoint(l.min, l.max)
  }

  /** The weekday bits of a mask, Sunday first. */
  function Mask(r: Recurrence): seq<bool>
  {
    seq(7, d requires 0 <= d < 7 => ActiveOn(r, d))
  }

  /** The positions among 0 .. k-1 whose flag is set, in increasing order. */
  function DaysWhere(m: seq<bool>, k: nat): seq<int>
    requires k <= |m|
  {
    if k == 0 then [] else DaysWhere(m, k - 1) + (if m[k - 1] then [k - 1] else [])
  }

  /** The weekdays among 0 .. k-1 on which the mask is active, in increasing order. */
  function ActiveDaysBelow(r: Recurrence, k: nat): seq<int>
    requires k <= 7
  {
    DaysWhere(Mask(r), k)
  }

  function ActiveDays(r: Recurrence): seq<int>
  {
    ActiveDaysBelow(r, 7)
  }

  /** The day-points of one change: one per active weekday. */
  function Expand(c: ScheduledLimitChange): seq<DaySchedule>
  {
    var days := ActiveDays(c.recurrence);
    seq(|days|, i requires 0 <= i < |days| => DaySchedule(days[i], c.startTime, c.instanceLimits))
  }

  /** p is a strictly increasing list of weekdays below k. */
  predicate AscendingBelow(p: seq<int>, k: int)
  {
    && (forall i, j :: 0 <= i < j < |p| ==> p[i] < p[j])
    && (forall i :: 0 <= i < |p| ==> 0 <= p[i] < k)
  }

  /** The set positions below k are ascending, below k, and exactly the positions whose flag is set. */
  lemma {:induction false} DaysWhereSpec(m: seq<bool>, k: nat)
    requires k <= |m|
    ensures |DaysWhere(m, k)| <= k
    ensures AscendingBelow(DaysWhere(m, k), k)
    ensures forall d :: 0 <= d < k ==> (d in DaysWhere(m, k) <==> m[d])
  {
    if k > 0 {
      DaysWhereSpec(m, k - 1);
      var p := DaysWhere(m, k - 1);
      AppendDay(p, k - 1, m[k - 1]);
      forall d | 0 <= d < k ensures d in DaysWhere(m, k) <==> m[d] {
        if d < k - 1 {
          assert d in p <==> m[d];
        }
      }
    }
  }

  /** The active days below k are ascending, below k, and exactly the days on which the mask is active. */
  lemma ActiveDaysBelowSpec(r: Recurrence, k: nat)
    requires k <= 7
    ensures |ActiveDaysBelow(r, k)| <= k
    ensures AscendingBelow(ActiveDaysBelow(r, k), k)
    ensures forall d :: 0 <= d < k ==> (d in ActiveDaysBelow(r, k) <==> ActiveOn(r, d))
  {
    DaysWhereSpec(Mask(r), k);
  }

  /** Appending day x, or nothing, to an ascending list of days below x. */
  lemma AppendDay(p: seq<int>, x: nat, add: bool)
    requires AscendingBelow(p, x)
    ensures var a := p + (if add then [x] else []);
      && |a| <= |p| + 1
      && AscendingBelow(a, x + 1)
      && (x in a <==> add)
      && (forall d :: 0 <= d < x ==> (d in a <==> d in p))
  {
    if add {
      var a := p + [x];
      assert forall i :: 0 <= i < |a| ==> a[i] == if i < |p| then p[i] else x;
      assert a[|p|] == x;
      assert x !in p;
    } else {
      assert p + [] == p;
      assert x !in p;
    }
  }

  /**
   * toDaySchedules yields exactly the weekdays whose bit is set, Sunday first,
   * each carrying the change's start time and limits.
   */
  lemma ExpandSpec(c: ScheduledLimitChange)
    ensures |Expand(c)| <= 7
    ensures forall i, j :: 0 <= i < j < |Expand(c)| ==> Expand(c)[i].weekday < Expand(c)[j].weekday
    ensures forall i :: 0 <= i < |Expand(c)| ==>
      0 <= Expand(c)[i].weekday <= 6 && ActiveOn(c.recurrence, Expand(c)[i].weekday) &&
      Expand(c)[i].startTime == c.startTime && Expand(c)[i].instanceLimits == c.instanceLimits
    ensures forall d :: 0 <= d <= 6 && ActiveOn(c.recurrence, d) ==>
      DaySchedule(d, c.startTime, c.instanceLimits) in Expand(c)
  {
    ExpandSound(c);
    ExpandComplete(c);
  }

  lemma ExpandSound(c: ScheduledLimitChange)
    ensures |Expand(c)| <= 7
    ensures forall i, j :: 0 <= i < j < |Expand(c)| ==> Expand(c)[i].weekday < Expand(c)[j].weekday
    ensures forall i :: 0 <= i < |Expand(c)| ==>
      0 <= Expand(c)[i].weekday <= 6 && ActiveOn(c.recurrence, Expand(c)[i].weekday) &&
      Expand(c)[i].startTime == c.startTime && Expand(c)[i].instanceLimits == c.instanceLimits
  {
    ActiveDaysBelowSpec(c.recurrence, 7);
  }

  lemma ExpandComplete(c: ScheduledLimitChange)
    ensures forall d :: 0 <= d <= 6 && ActiveOn(c.recurrence, d) ==>
      DaySchedule(d, c.startTime, c.instanceLimits) in Expand(c)
  {
    var days := ActiveDays(c.recurrence);
    ActiveDaysBelowSpec(c.recurrence, 7);
    forall d | 0 <= d <= 6 && ActiveOn(c.recurrence, d)
      ensures DaySchedule(d, c.startTime, c.instanceLimits) in Expand(c)
    {
      var i :| 0 <= i < |days| && days[i] == d;
      assert Expand(c)[i] == DaySchedule(d, c.startTime, c.instanceLimits);
    }
  }

  /** toDaySchedules: the loop over the seven weekdays. */
  method ToDaySchedules(s: ScheduledLimitChange) returns (ret: seq<DaySchedule>)
    ensures ret == Expand(s)
  {
    ret := [];
    ghost var days: seq<int> := [];
    var k := 0;
    while k < 7
      invariant 0 <= k <= 7
      invariant days == ActiveDaysBelow(s.recurrence, k)
      invariant ret == seq(|days|, i requires 0 <= i < |days| => DaySchedule(days[i], s.startTime, s.instanceLimits))
    {
      if ActiveOn(s.recurrence, k) {
        ret := ret + [DaySchedule(k, s.startTime, s.instanceLimits)];
        days := days + [k];
      }
      k := k + 1;
    }
  }

  /** The day-points of all enabled changes, concatenated in input order. */
  function EnabledDayPoints(cs: seq<ScheduledLimitChange>): seq<DaySchedule>
  {
    if cs == [] then []
    else EnabledDayPoints(cs[..|cs| - 1]) + (if cs[|cs| - 1].enabled then Expand(cs[|cs| - 1]) else [])
  }

  /** The enabled changes of a list, in order. */
  function EnabledOnly(cs: seq<ScheduledLimitChange>): (r: seq<ScheduledLimitChange>)
    ensures forall c :: c in r ==> c.enabled && c in cs
    ensures forall c :: multiset(r)[c] == if c.enabled then multiset(cs)[c] else 0
  {
    if cs == [] then []
    else
      var init, last := cs[..|cs| - 1], cs[|cs| - 1];
      assert cs == init + [last];
      EnabledOnly(init) + (if last.enabled then [last] else [])
  }

  /** Filtering keeps the order: the enabled changes of a concatenation are those of each part, in turn. */
  lemma {:induction false} EnabledOnlyAppend(a: seq<ScheduledLimitChange>, b: seq<ScheduledLimitChange>)
    ensures EnabledOnly(a + b) == EnabledOnly(a) + EnabledOnly(b)
    decreases |b|
  {
    if b != [] {
      var b', x := b[..|b| - 1], b[|b| - 1];
      var tail := if x.enabled then [x] else [];
      assert (a + b)[..|a + b| - 1] == a + b' && (a + b)[|a + b| - 1] == x;
      assert EnabledOnly(a + b) == EnabledOnly(a + b') + tail;
      assert EnabledOnly(b) == EnabledOnly(b') + tail;
      EnabledOnlyAppend(a, b');
      ConcatAssoc(EnabledOnly(a), EnabledOnly(b'), tail);
    } else {
      assert a + b == a;
    }
  }

  lemma ConcatAssoc<T>(x: seq<T>, y: seq<T>, z: seq<T>)
    ensures x + y + z == x + (y + z)
  {
  }

  /** Disabled changes contribute no day-point. */
  lemma {:induction false} DisabledIgnored(cs: seq<ScheduledLimitChange>)
    ensures EnabledDayPoints(cs) == EnabledDayPoints(EnabledOnly(cs))
  {
    if cs != [] {
      var init, last := cs[..|cs| - 1], cs[|cs| - 1];
      DisabledIgnored(init);
      var e := EnabledOnly(init);
      if last.enabled {
        assert EnabledOnly(cs) == e + [last];
        assert (e + [last])[..|e|] == e;
        assert EnabledDayPoints(e + [last]) == EnabledDayPoints(e) + Expand(last);
      } else {
        assert EnabledOnly(cs) == e;
      }
    }
  }

  /** p is a day-point of the enabled change c. */
  predicate FromChange(p: DaySchedule, c: ScheduledLimitChange)
  {
    c.enabled && 0 <= p.weekday <= 6 && ActiveOn(c.recurrence, p.weekday) &&
    p.startTime == c.startTime && p.instanceLimits == c.instanceLimits
  }

  /** A day-point comes from an enabled change active on its weekday, and every such one is there. */
  lemma EnabledDayPointsSpec(cs: seq<ScheduledLimitChange>)
    ensures forall p :: p in EnabledDayPoints(cs) ==>
      0 <= p.weekday <= 6 &&
      exists i :: 0 <= i < |cs| && cs[i].enabled && ActiveOn(cs[i].recurrence, p.weekday) &&
        p.startTime == cs[i].startTime && p.instanceLimits == cs[i].instanceLimits
    ensures forall i, d :: 0 <= i < |cs| && cs[i].enabled && 0 <= d <= 6 && ActiveOn(cs[i].recurrence, d) ==>
      DaySchedule(d, cs[i].startTime, cs[i].instanceLimits) in EnabledDayPoints(cs)
  {
    EnabledDayPointsSound(cs);
    EnabledDayPointsComplete(cs);
    forall p | p in EnabledDayPoints(cs)
      ensures 0 <= p.weekday <= 6 &&
        exists i :: 0 <= i < |cs| && cs[i].enabled && ActiveOn(cs[i].recurrence, p.weekday) &&
          p.startTime == cs[i].startTime && p.instanceLimits == cs[i].instanceLimits
    {
      var i :| 0 <= i < |cs| && FromChange(p, cs[i]);
    }
  }

  lemma {:induction false} EnabledDayPointsSound(cs: seq<ScheduledLimitChange>)
    ensures forall p :: p in EnabledDayPoints(cs) ==> exists i :: 0 <= i < |cs| && FromChange(p, cs[i])
  {
    if cs != [] {
      var init, last := cs[..|cs| - 1], cs[|cs| - 1];
      EnabledDayPointsSound(init);
      forall p | p in EnabledDayPoints(cs)
        ensures exists i :: 0 <= i < |cs| && FromChange(p, cs[i])
      {
        if p in EnabledDayPoints(init) {
          var i :| 0 <= i < |init| && FromChange(p, init[i]);
          assert cs[i] == init[i];
        } else {
          ExpandFrom(last, p);
          assert cs[|cs| - 1] == last;
        }
      }
    }
  }

  /** A day-point of an enabled change's expansion comes from that change. */
  lemma ExpandFrom(c: ScheduledLimitChange, p: DaySchedule)
    requires c.enabled && p in Expand(c)
    ensures FromChange(p, c)
  {
    ExpandSound(c);
    var k :| 0 <= k < |Expand(c)| && Expand(c)[k] == p;
  }

  lemma {:induction false} EnabledDayPointsComplete(cs: seq<ScheduledLimitChange>)
    ensures forall i, d :: 0 <= i < |cs| && cs[i].enabled && 0 <= d <= 6 && ActiveOn(cs[i].recurrence, d) ==>
      DaySchedule(d, cs[i].startTime, cs[i].instanceLimits) in EnabledDayPoints(cs)
  {
    if cs != [] {
      var init, last := cs[..|cs| - 1], cs[|cs| - 1];
      EnabledDayPointsComplete(init);
      ExpandComplete(last);
      forall i, d | 0 <= i < |cs| && cs[i].enabled && 0 <= d <= 6 && ActiveOn(cs[i].recurrence, d)
        ensures DaySchedule(d, cs[i].startTime, cs[i].instanceLimits) in EnabledDayPoints(cs)
      {
        if i < |cs| - 1 {
          assert init[i] == cs[i];
        }
      }
    }
  }
}
