/**
 * The conversion engine's entry points (models/models.go): building an app
 * from the source autoscaler's records (ConstructApp), turning its weekly
 * limit changes into recurring windows (ToOCFRecurringSchedules), and
 * assembling the target policy (App.ToOCFPolicy).
 */
module Models {
  import opened GoInts
  import opened Wrappers
  import opened Times
  import opened DayPoints
  import opened Windows
  import opened WindowProperties
  import opened Condensing
  import opened Rules
  import opened Ocfas
  import Pcfas

  /** An app of the source autoscaler, with its rules and its weekly limit changes. */
  datatype App = App(
    guid: string,
    enabled: bool,
    instanceLimits: InstanceLimits,
    rules: seq<Rule>,
    scheduledLimitChanges: seq<ScheduledLimitChange>)

  // ----- ConstructApp -----

  /** The copy of a source rule: its type fields and the two float thresholds. */
  function CopyRule(r: Pcfas.Rule): Rule
  {
    Rule(r.comparisonMetric, r.metric, r.queueName, r.ruleType, r.ruleSubType, r.threshold.min, r.threshold.max)
  }

  /**
   * The copy of a source limit change that starts at the clock time t. Go's
   * conversion of the int recurrence to uint8 keeps its low eight bits.
   */
  function CopyChange(c: Pcfas.ScheduledLimitChange, t: TimeOfDay): ScheduledLimitChange
  {
    ScheduledLimitChange(c.enabled, t, InstanceLimits(c.instanceLimits.min, c.instanceLimits.max), c.recurrence % 256)
  }

  /** The copies of the first k limit changes, all of whose times parse. */
  function CopiedChanges<E>(cs: seq<Pcfas.ScheduledLimitChange>, parse: string -> Result<TimeOfDay, E>, k: nat): seq<ScheduledLimitChange>
    requires k <= |cs|
    requires forall i :: 0 <= i < k ==> parse(cs[i].executesAt).Ok?
  {
    seq(k, i requires 0 <= i < k => CopyChange(cs[i], parse(cs[i].executesAt).value))
  }

  /**
   * ConstructApp. `parse` stands for reading the hour and minute of an
   * RFC 3339 timestamp, or failing with an error. On the first failure the
   * app built so far comes back with that error: all the rules, and the
   * limit changes before the failing one.
   */
  method ConstructApp<E>(app: Pcfas.App, rules: seq<Pcfas.Rule>, changes: seq<Pcfas.ScheduledLimitChange>,
                         parse: string -> Result<TimeOfDay, E>)
    returns (ret: App, err: Option<E>)
    ensures ret.guid == app.guid && ret.enabled == app.enabled
    ensures ret.instanceLimits == InstanceLimits(app.instanceLimits.min, app.instanceLimits.max)
    ensures |ret.rules| == |rules| && forall i :: 0 <= i < |rules| ==> ret.rules[i] == CopyRule(rules[i])
    ensures err.None? <==> forall i :: 0 <= i < |changes| ==> parse(changes[i].executesAt).Ok?
    ensures err.None? ==> ret.scheduledLimitChanges == CopiedChanges(changes, parse, |changes|)
    ensures err.Some? ==> exists k :: (0 <= k < |changes| && FirstParseFailure(changes, parse, k) &&
      err == Some(parse(changes[k].executesAt).error) &&
      ret.scheduledLimitChanges == CopiedChanges(changes, parse, k))
  {
    ret := App(app.guid, app.enabled, InstanceLimits(app.instanceLimits.min, app.instanceLimits.max), [], []);
    var i := 0;
    while i < |rules|
      invariant 0 <= i <= |rules|
      invariant ret.guid == app.guid && ret.enabled == app.enabled && ret.scheduledLimitChanges == []
      invariant ret.instanceLimits == InstanceLimits(app.instanceLimits.min, app.instanceLimits.max)
      invariant |ret.rules| == i && forall j :: 0 <= j < i ==> ret.rules[j] == CopyRule(rules[j])
    {
      var r := rules[i];
      ret := ret.(rules := ret.rules + [Rule(r.comparisonMetric, r.metric, r.queueName, r.ruleType, r.ruleSubType, r.threshold.min, r.threshold.max)]);
      i := i + 1;
    }
    i := 0;
    while i < |changes|
      invariant 0 <= i <= |changes|
      invariant ret.guid == app.guid && ret.enabled == app.enabled
      invariant ret.instanceLimits == InstanceLimits(app.instanceLimits.min, app.instanceLimits.max)
      invariant |ret.rules| == |rules| && forall j :: 0 <= j < |rules| ==> ret.rules[j] == CopyRule(rules[j])
      invariant forall j :: 0 <= j < i ==> parse(changes[j].executesAt).Ok?
      invariant ret.scheduledLimitChanges == CopiedChanges(changes, parse, i)
    {
      var c := changes[i];
      var execTime := parse(c.executesAt);
      if execTime.Err? {
        assert FirstParseFailure(changes, parse, i);
        return ret, Some(execTime.error);
      }
      ret := ret.(scheduledLimitChanges := ret.scheduledLimitChanges + [ScheduledLimitChange(
        c.enabled, execTime.value, InstanceLimits(c.instanceLimits.min, c.instanceLimits.max), c.recurrence % 256)]);
      i := i + 1;
    }
    err := None;
  }

  /** Change k is the first whose time does not parse. */
  predicate FirstParseFailure<E>(cs: seq<Pcfas.ScheduledLimitChange>, parse: string -> Result<TimeOfDay, E>, k: nat)
  {
    && k < |cs|
    && parse(cs[k].executesAt).Err?
    && forall i :: 0 <= i < k ==> parse(cs[i].executesAt).Ok?
  }

  // ----- ToOCFRecurringSchedules -----

  /** The window of the single-point case: the whole week, 00:00 to 23:59 on days 1 to 7. */
  function WholeWeek(p: DaySchedule): RecurringSchedule
  {
    RecurringSchedule(Format(TimeOfDay(0, 0)), Format(TimeOfDay(23, 59)), [1, 2, 3, 4, 5, 6, 7],
                      p.instanceLimits.min, p.instanceLimits.max, Some(Midpoint(p.instanceLimits.min, p.instanceLimits.max)))
  }

  /**
   * What ToOCFRecurringSchedules may return for its day-points: nothing for
   * none, the whole week for one, and otherwise the condensed windows of some
   * sorted arrangement of them (the sort is not stable, so points that tie
   * may come out in either order).
   */
  ghost predicate SchedulesFor(points: seq<DaySchedule>, ret: seq<RecurringSchedule>)
    requires InWeek(points)
  {
    if |points| == 0 then ret == []
    else if |points| == 1 then ret == [WholeWeek(points[0])]
    else exists p :: SortedArrangement(p, points) && ret == Condensed(RenderAll(Periods(p)))
  }

  /** p holds the points of d, sorted. */
  predicate SortedArrangement(p: seq<DaySchedule>, d: seq<DaySchedule>)
  {
    SortedSchedules(p) && multiset(p) == multiset(d) && InWeek(p) && |p| >= 1
  }

  /** ScheduledLimitChanges.ToOCFRecurringSchedules. */
  method ToOCFRecurringSchedules(s: seq<ScheduledLimitChange>) returns (ret: seq<RecurringSchedule>)
    ensures InWeek(EnabledDayPoints(s))
    ensures SchedulesFor(EnabledDayPoints(s), ret)
  {
    var splitScheds: seq<DaySchedule> := [];
    var i := 0;
    while i < |s|
      invariant 0 <= i <= |s|
      invariant splitScheds == EnabledDayPoints(s[..i])
    {
      var sched := s[i];
      assert s[..i + 1][..i] == s[..i];
      if sched.enabled {
        var expanded := ToDaySchedules(sched);
        splitScheds := splitScheds + expanded;
      }
      i := i + 1;
    }
    assert s[..i] == s;
    PointsInWeek(s);
    if |splitScheds| == 0 {
      return [];
    }
    if |splitScheds| == 1 {
      var initial := Midpoint(splitScheds[0].instanceLimits.min, splitScheds[0].instanceLimits.max);
      return [RecurringSchedule(Format(TimeOfDay(0, 0)), Format(TimeOfDay(23, 59)), [1, 2, 3, 4, 5, 6, 7],
                                splitScheds[0].instanceLimits.min, splitScheds[0].instanceLimits.max, Some(initial))];
    }
    var d := new DaySchedule[|splitScheds|](k requires 0 <= k < |splitScheds| => splitScheds[k]);
    assert d[..] == splitScheds;
    var verboseRet := ToOCF(d);
    assert SortedArrangement(d[..], splitScheds);
    var v := new RecurringSchedule[|verboseRet|](k requires 0 <= k < |verboseRet| => verboseRet[k]);
    assert v[..] == verboseRet;
    ret := CondenseRecurringSchedules(v);
  }

  lemma PointsInWeek(s: seq<ScheduledLimitChange>)
    ensures InWeek(EnabledDayPoints(s))
  {
    var d := EnabledDayPoints(s);
    EnabledDayPointsSpec(s);
    forall k | 0 <= k < |d| ensures 0 <= d[k].weekday <= 6 {
      assert d[k] in d;
    }
  }

  /** The single window's times read "00:00" and "23:59", and its initial count lies between its limits. */
  lemma WholeWeekSpec(p: DaySchedule)
    ensures WholeWeek(p).startTime == "00:00" && WholeWeek(p).endTime == "23:59"
    ensures WholeWeek(p).daysOfWeek == [1, 2, 3, 4, 5, 6, 7]
    ensures p.instanceLimits.min <= p.instanceLimits.max && -TwoTo63 <= p.instanceLimits.min + p.instanceLimits.max < TwoTo63 ==>
      p.instanceLimits.min <= WholeWeek(p).initialMinInstanceCount.value <= p.instanceLimits.max
  {
    Pad2Small(0);
    Pad2Small(23);
    Pad2Small(59);
    if p.instanceLimits.min <= p.instanceLimits.max && -TwoTo63 <= p.instanceLimits.min + p.instanceLimits.max < TwoTo63 {
      MidpointBetween(p.instanceLimits.min, p.instanceLimits.max);
    }
  }

  /** Disabled changes do not matter: the outcomes for a list and for its enabled changes alone coincide. */
  lemma DisabledChangesIgnored(s: seq<ScheduledLimitChange>, ret: seq<RecurringSchedule>)
    requires InWeek(EnabledDayPoints(s))
    ensures InWeek(EnabledDayPoints(EnabledOnly(s)))
    ensures SchedulesFor(EnabledDayPoints(s), ret) <==> SchedulesFor(EnabledDayPoints(EnabledOnly(s)), ret)
  {
    DisabledIgnored(s);
  }

  /**
   * With two or more valid day-points, the result never has two windows with
   * the same start, end and limits, and every window keeps the start, end
   * and limits of one window of the verbose list, whose start is not after
   * its end and whose limits belong to one of the points.
   */
  lemma {:induction false} SchedulesForMany(points: seq<DaySchedule>, ret: seq<RecurringSchedule>)
    requires InWeek(points) && ValidStarts(points) && |points| >= 2
    requires SchedulesFor(points, ret)
    ensures forall a, b :: 0 <= a < b < |ret| ==> KeyOf(ret[a]) != KeyOf(ret[b])
    ensures forall a :: 0 <= a < |ret| ==> KeyFromPoints(KeyOf(ret[a]), points)
  {
    var p: seq<DaySchedule> :| SortedArrangement(p, points) && ret == Condensed(RenderAll(Periods(p)));
    WindowsNonWrapping(p, points);
    CondensedSpec(RenderAll(Periods(p)));
    KeysFromWindows(points, Periods(p), RenderAll(Periods(p)), ret);
  }

  /** Every output window of a condensed rendering takes its key from one of the rendered windows. */
  lemma KeysFromWindows(points: seq<DaySchedule>, ws: seq<Window>, verbose: seq<RecurringSchedule>, ret: seq<RecurringSchedule>)
    requires verbose == RenderAll(ws)
    requires forall w :: w in ws ==> NonWrappingFrom(w, points)
    requires forall a :: 0 <= a < |ret| ==> exists m :: 0 <= m < |verbose| && SameButDays(ret[a], verbose[m])
    ensures forall a :: 0 <= a < |ret| ==> KeyFromPoints(KeyOf(ret[a]), points)
  {
    forall a | 0 <= a < |ret| ensures KeyFromPoints(KeyOf(ret[a]), points) {
      var m :| 0 <= m < |verbose| && SameButDays(ret[a], verbose[m]);
      KeyOfRendered(ws, m, ret[a]);
      assert ws[m] in ws;
      assert NonWrappingFrom(ws[m], points) && KeyOf(ret[a]) == KeyOf(Render(ws[m]));
    }
  }

  lemma KeyOfRendered(ws: seq<Window>, m: nat, o: RecurringSchedule)
    requires m < |ws| && SameButDays(o, RenderAll(ws)[m])
    ensures KeyOf(o) == KeyOf(Render(ws[m]))
  {
  }

  lemma {:induction false} WindowsNonWrapping(p: seq<DaySchedule>, points: seq<DaySchedule>)
    requires SortedArrangement(p, points) && ValidStarts(points)
    ensures forall w :: w in Periods(p) ==> NonWrappingFrom(w, points)
  {
    ArrangementValid(p, points);
    PeriodsWindows(p);
    forall w | w in Periods(p) ensures NonWrappingFrom(w, points) {
      var k :| 0 <= k < |p| && w.limits == p[k].instanceLimits && w.initial == Initial(p[k].instanceLimits);
      assert p[k] in multiset(points);
    }
  }

  /** k is the start, end and limits of some well-formed window whose limits belong to one of the points. */
  ghost predicate KeyFromPoints(k: WindowKey, points: seq<DaySchedule>)
  {
    exists w :: NonWrappingFrom(w, points) && k == KeyOf(Render(w))
  }

  /** A window that does not cross midnight and carries the limits of one of the points. */
  predicate NonWrappingFrom(w: Window, points: seq<DaySchedule>)
  {
    WellFormed(w) && exists q :: q in points && w.limits == q.instanceLimits
  }

  lemma ArrangementValid(p: seq<DaySchedule>, points: seq<DaySchedule>)
    requires ValidStarts(points) && multiset(p) == multiset(points)
    ensures ValidStarts(p)
  {
    forall k | 0 <= k < |p| ensures Valid(p[k].startTime) {
      assert p[k] in multiset(points);
      var j :| 0 <= j < |points| && points[j] == p[k];
    }
  }

  // ----- App.ToOCFPolicy -----

  /** Instance counts of zero or less become one. */
  function ClampCount(n: int64): (c: int64)
    ensures c >= 1
    ensures n >= 1 ==> c == n
    ensures n <= 0 ==> c == 1
  {
    if n <= 0 then 1 else n
  }

  /** The first error among the rules' conversions, in rule order. */
  function FirstRuleError(rules: seq<Rule>): Option<string>
  {
    if rules == [] then None
    else if FirstRuleError(rules[..|rules| - 1]).Some? then FirstRuleError(rules[..|rules| - 1])
    else match ToOCFScalingRules(rules[|rules| - 1])
      case Err(e) => Some(e)
      case Ok(_) => None
  }

  /** The scaling rules the loop leaves behind: each rule's pair overwrites the previous one. */
  function LastRuleOutput(rules: seq<Rule>): seq<ScalingRule>
  {
    if rules == [] then []
    else match ToOCFScalingRules(rules[|rules| - 1])
      case Ok(rs) => rs
      case Err(_) => []
  }

  /** The policy of an enabled app whose rules all convert, given its recurring windows. */
  function PolicyWith(a: App, recs: seq<RecurringSchedule>): Policy
  {
    Policy(ClampCount(a.instanceLimits.min), ClampCount(a.instanceLimits.max), LastRuleOutput(a.rules),
           if |recs| > 0 then Some(Schedules(TimezoneUTC, recs, [])) else None)
  }

  /** App.ToOCFPolicy. A disabled app yields no policy and no error. */
  method ToOCFPolicy(a: App) returns (r: Result<Option<Policy>, string>)
    ensures !a.enabled ==> r == Ok(None)
    ensures a.enabled && FirstRuleError(a.rules).Some? ==> r == Err(FirstRuleError(a.rules).value)
    ensures a.enabled && FirstRuleError(a.rules).None? ==>
      InWeek(EnabledDayPoints(a.scheduledLimitChanges)) &&
      exists recs :: SchedulesFor(EnabledDayPoints(a.scheduledLimitChanges), recs) && r == Ok(Some(PolicyWith(a, recs)))
  {
    if !a.enabled {
      return Ok(None);
    }
    var minCount, maxCount := a.instanceLimits.min, a.instanceLimits.max;
    if minCount <= 0 {
      minCount := 1;
    }
    if maxCount <= 0 {
      maxCount := 1;
    }
    var scalingRules: seq<ScalingRule> := [];
    var i := 0;
    while i < |a.rules|
      invariant 0 <= i <= |a.rules|
      invariant FirstRuleError(a.rules[..i]).None?
      invariant scalingRules == LastRuleOutput(a.rules[..i])
    {
      assert a.rules[..i + 1][..i] == a.rules[..i];
      var converted := ToOCFScalingRules(a.rules[i]);
      if converted.Err? {
        ErrorStays(a.rules, i + 1);
        return Err(converted.error);
      }
      scalingRules := converted.value;
      i := i + 1;
    }
    assert a.rules[..i] == a.rules;
    var recurringScheds := ToOCFRecurringSchedules(a.scheduledLimitChanges);
    var schedules: Option<Schedules> := None;
    if |recurringScheds| > 0 {
      schedules := Some(Schedules("Etc/UTC", recurringScheds, []));
    }
    r := Ok(Some(Policy(minCount, maxCount, scalingRules, schedules)));
  }

  /** Once an error appears among the first k rules, it is the first error of the whole list. */
  lemma {:induction false} ErrorStays(rules: seq<Rule>, k: nat)
    requires k <= |rules| && FirstRuleError(rules[..k]).Some?
    ensures FirstRuleError(rules) == FirstRuleError(rules[..k])
    decreases |rules| - k
  {
    if k < |rules| {
      assert rules[..k + 1][..k] == rules[..k];
      ErrorStays(rules, k + 1);
    } else {
      assert rules[..k] == rules;
    }
  }

  /** There is no error exactly when every rule converts; otherwise the error is the first failing rule's. */
  lemma {:induction false} FirstRuleErrorSpec(rules: seq<Rule>)
    ensures FirstRuleError(rules).None? <==> forall i :: 0 <= i < |rules| ==> ToOCFScalingRules(rules[i]).Ok?
    ensures FirstRuleError(rules).Some? ==> exists k :: (0 <= k < |rules| &&
      ToOCFScalingRules(rules[k]) == Err(FirstRuleError(rules).value) &&
      forall i :: 0 <= i < k ==> ToOCFScalingRules(rules[i]).Ok?)
  {
    if rules != [] {
      var init := rules[..|rules| - 1];
      FirstRuleErrorSpec(init);
      assert forall i :: 0 <= i < |init| ==> init[i] == rules[i];
      if FirstRuleError(init).Some? {
        var k :| 0 <= k < |init| && ToOCFScalingRules(init[k]) == Err(FirstRuleError(init).value) &&
          forall i :: 0 <= i < k ==> ToOCFScalingRules(init[i]).Ok?;
        assert ToOCFScalingRules(rules[k]) == Err(FirstRuleError(rules).value);
      }
    }
  }

  /**
   * Only the last rule survives: the policy of an app whose rules all convert
   * is that of the same app with its last rule alone, and it holds exactly
   * that rule's two scaling rules; without rules it holds none.
   */
  lemma OnlyLastRuleSurvives(a: App, recs: seq<RecurringSchedule>)
    requires FirstRuleError(a.rules).None?
    ensures a.rules == [] ==> PolicyWith(a, recs).scalingRules == []
    ensures a.rules != [] ==>
      && PolicyWith(a, recs) == PolicyWith(a.(rules := [a.rules[|a.rules| - 1]]), recs)
      && PolicyWith(a, recs).scalingRules == ToOCFScalingRules(a.rules[|a.rules| - 1]).value
      && |PolicyWith(a, recs).scalingRules| == 2
  {
    FirstRuleErrorSpec(a.rules);
    if a.rules != [] {
      ScalingRulesShape(a.rules[|a.rules| - 1]);
    }
  }

  /**
   * The policy's counts are the app's limits with anything at or below zero
   * raised to one, and the schedules section is there, in UTC and with no
   * specific dates, exactly when there are recurring windows.
   */
  lemma PolicyWithSpec(a: App, recs: seq<RecurringSchedule>)
    ensures PolicyWith(a, recs).instanceMinCount >= 1 && PolicyWith(a, recs).instanceMaxCount >= 1
    ensures a.instanceLimits.min > 0 ==> PolicyWith(a, recs).instanceMinCount == a.instanceLimits.min
    ensures a.instanceLimits.max > 0 ==> PolicyWith(a, recs).instanceMaxCount == a.instanceLimits.max
    ensures PolicyWith(a, recs).schedules.Some? <==> recs != []
    ensures PolicyWith(a, recs).schedules.Some? ==>
      PolicyWith(a, recs).schedules.value == Schedules("Etc/UTC", recs, [])
  {
  }
}
