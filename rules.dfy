/**
 * Threshold rules and their conversion into target scaling rules
 * (models/models.go, Rule and Rule.ToOCFScalingRules).
 */
module Rules {
  import opened Wrappers
  import opened Ocfas

  /** A threshold rule of the source autoscaler; thresholds are float64 values, modelled as reals. */
  datatype Rule = Rule(
    comparisonMetric: string,
    metric: string,
    queueName: string,
    ruleType: string,
    ruleSubType: string,
    thresholdMin: real,
    thresholdMax: real)

  const RuleTypeCPUUtil: string := "cpu"
  const RuleTypeMemoryUtil: string := "memory"
  const RuleTypeHTTPThroughput: string := "http_throughput"
  const RuleTypeHTTPLatency: string := "http_latency"
  const RuleTypeRabbitMQDepth: string := "rabbitmq"

  /** The rule types with a built-in target metric, and that metric. */
  const RuleConversionMap: map<string, string> := map[
    RuleTypeCPUUtil := MetricTypeCPUUtil,
    RuleTypeMemoryUtil := MetricTypeMemoryUtil,
    RuleTypeHTTPThroughput := MetricTypeThroughput,
    RuleTypeHTTPLatency := MetricTypeResponseTime]

  const IllegalQueueName: string := "Illegal metric name generated from RabbitMQ queue name"

  /** The error text for a rule type nobody converts: "Unknown Rule Type `<type>'". */
  function UnknownRuleType(t: string): string
  {
    "Unknown Rule Type `" + t + "'"
  }

  /** Go's int64(x) on a float64: the fractional part is dropped, rounding toward zero. */
  function Trunc(x: real): (n: int)
    ensures 0.0 <= x ==> n as real <= x < n as real + 1.0
    ensures x < 0.0 ==> n as real - 1.0 < x <= n as real
  {
    if x >= 0.0 then x.Floor else -((-x).Floor)
  }

  // ----- the queue-name sanitiser -----

  /** strings.ReplaceAll(name, "-", "_"). */
  function DashesToUnderscores(s: string): (r: string)
    ensures |r| == |s|
  {
    seq(|s|, i requires 0 <= i < |s| => if s[i] == '-' then '_' else s[i])
  }

  /** The characters of the class [[:alnum:]_]: ASCII letters, digits and the underscore. */
  predicate IsNameChar(c: char)
  {
    ('a' <= c <= 'z') || ('A' <= c <= 'Z') || ('0' <= c <= '9') || c == '_'
  }

  /** A name the pattern [^[:alnum:]_] does not match anywhere. */
  predicate LegalName(s: string)
  {
    forall i :: 0 <= i < |s| ==> IsNameChar(s[i])
  }

  /** The target metric a rabbitmq rule reports: the converted queue name and "_messages_ready". */
  function QueueMetric(q: string): string
  {
    q + "_messages_ready"
  }

  /** The metric name of a rule, or the error that replaces it. */
  function MetricType(r: Rule): Result<string, string>
  {
    if r.ruleType == RuleTypeRabbitMQDepth then
      var q := DashesToUnderscores(r.queueName);
      if !LegalName(q) then Err(IllegalQueueName) else Ok(QueueMetric(q))
    else if r.ruleType in RuleConversionMap then Ok(RuleConversionMap[r.ruleType])
    else Err(UnknownRuleType(r.ruleType))
  }

  /** Rule.ToOCFScalingRules: scale down below the minimum, scale up above the maximum. */
  function ToOCFScalingRules(r: Rule): Result<seq<ScalingRule>, string>
  {
    match MetricType(r)
    case Err(e) => Err(e)
    case Ok(m) => Ok([
      ScalingRule(m, OperatorLessThan, Trunc(r.thresholdMin), AdjustmentDown, 0, 0),
      ScalingRule(m, OperatorGreaterThan, Trunc(r.thresholdMax), AdjustmentUp, 0, 0)])
  }

  // ----- properties -----

  /** The sanitiser turns every dash into an underscore, leaves every other character, and leaves no dash. */
  lemma DashesToUnderscoresSpec(s: string)
    ensures forall i :: 0 <= i < |s| ==> DashesToUnderscores(s)[i] == (if s[i] == '-' then '_' else s[i])
    ensures '-' !in DashesToUnderscores(s)
    ensures DashesToUnderscores(DashesToUnderscores(s)) == DashesToUnderscores(s)
  {
  }

  /** A name that is already legal passes the sanitiser unchanged. */
  lemma LegalNameUnchanged(s: string)
    requires LegalName(s)
    ensures DashesToUnderscores(s) == s
  {
  }

  /**
   * A rabbitmq rule is refused exactly when its queue name holds a character
   * other than ASCII letters, digits, '_' and '-'.
   */
  lemma RabbitMQRefused(r: Rule)
    requires r.ruleType == RuleTypeRabbitMQDepth
    ensures ToOCFScalingRules(r).Err? <==> exists i :: 0 <= i < |r.queueName| && !IsNameChar(r.queueName[i]) && r.queueName[i] != '-'
    ensures ToOCFScalingRules(r).Err? ==> ToOCFScalingRules(r).error == IllegalQueueName
  {
    var q := DashesToUnderscores(r.queueName);
    if !LegalName(q) {
      var i :| 0 <= i < |q| && !IsNameChar(q[i]);
      assert !IsNameChar(r.queueName[i]) && r.queueName[i] != '-';
    } else {
      forall i | 0 <= i < |r.queueName| ensures IsNameChar(r.queueName[i]) || r.queueName[i] == '-' {
        assert IsNameChar(q[i]);
      }
    }
  }

  /** Successful conversion means: exactly two rules on one metric, "<" on the truncated minimum scaling by -1, then ">" on the truncated maximum scaling by +1. */
  lemma ScalingRulesShape(r: Rule)
    requires ToOCFScalingRules(r).Ok?
    ensures var rs := ToOCFScalingRules(r).value;
      && |rs| == 2
      && rs[0].metricType == rs[1].metricType
      && rs[0].operator == "<" && rs[0].threshold == Trunc(r.thresholdMin) && rs[0].adjustment == "-1"
      && rs[1].operator == ">" && rs[1].threshold == Trunc(r.thresholdMax) && rs[1].adjustment == "+1"
      && rs[0].cooldownSecs == 0 && rs[0].breachDurationSecs == 0
      && rs[1].cooldownSecs == 0 && rs[1].breachDurationSecs == 0
  {
  }

  /** The four built-in rule types convert to their fixed metrics; every other non-rabbitmq type is an error naming it. */
  lemma BuiltInMetrics(r: Rule)
    requires r.ruleType != RuleTypeRabbitMQDepth
    ensures r.ruleType == "cpu" ==> MetricType(r) == Ok("cpu")
    ensures r.ruleType == "memory" ==> MetricType(r) == Ok("memoryutil")
    ensures r.ruleType == "http_throughput" ==> MetricType(r) == Ok("throughput")
    ensures r.ruleType == "http_latency" ==> MetricType(r) == Ok("responsetime")
    ensures r.ruleType !in {"cpu", "memory", "http_throughput", "http_latency"} ==>
      ToOCFScalingRules(r) == Err(UnknownRuleType(r.ruleType))
    ensures ToOCFScalingRules(r).Ok? <==> r.ruleType in {"cpu", "memory", "http_throughput", "http_latency"}
  {
  }

  /** A converted rabbitmq rule's metric is the sanitised queue name followed by "_messages_ready", and is itself a legal name. */
  lemma RabbitMQMetric(r: Rule)
    requires r.ruleType == RuleTypeRabbitMQDepth && ToOCFScalingRules(r).Ok?
    ensures ToOCFScalingRules(r).value[0].metricType == DashesToUnderscores(r.queueName) + "_messages_ready"
    ensures LegalName(ToOCFScalingRules(r).value[0].metricType)
  {
    var q := DashesToUnderscores(r.queueName);
    var m := QueueMetric(q);
    forall i | 0 <= i < |m| ensures IsNameChar(m[i]) {
      if i >= |q| {
        assert m[i] == "_messages_ready"[i - |q|];
      }
    }
  }

  /** Two queue names give the same rabbitmq metric exactly when they agree once dashes are read as underscores. */
  lemma RabbitMQMetricInjective(q1: string, q2: string)
    ensures QueueMetric(DashesToUnderscores(q1)) == QueueMetric(DashesToUnderscores(q2)) <==>
      DashesToUnderscores(q1) == DashesToUnderscores(q2)
  {
    var a, b := DashesToUnderscores(q1), DashesToUnderscores(q2);
    if QueueMetric(a) == QueueMetric(b) {
      assert |a| == |b|;
      assert a == QueueMetric(a)[..|a|];
    }
  }

  /** Truncation rounds toward zero: it is odd, and on non-negative values it is the floor. */
  lemma TruncTowardZero(x: real)
    ensures Trunc(-x) == -Trunc(x)
    ensures 0.0 <= x ==> Trunc(x) == x.Floor
  {
  }

  /** Worked inputs: a dashed queue name is accepted, one with '!' is refused, and 12.9 and 49.4 truncate to 12 and 49. */
  lemma ConversionExamples(r: Rule)
    requires r.ruleType == RuleTypeRabbitMQDepth && r.thresholdMin == 12.9 && r.thresholdMax == 49.4
    ensures r.queueName == "order-events" ==> ToOCFScalingRules(r) == Ok([
      ScalingRule("order_events_messages_ready", "<", 12, "-1", 0, 0),
      ScalingRule("order_events_messages_ready", ">", 49, "+1", 0, 0)])
    ensures r.queueName == "weird!name" ==> ToOCFScalingRules(r) == Err(IllegalQueueName)
  {
    if r.queueName == "order-events" {
      AcceptedExample(r);
    }
    if r.queueName == "weird!name" {
      RefusedExample(r);
    }
  }

  lemma AcceptedExample(r: Rule)
    requires r.ruleType == RuleTypeRabbitMQDepth && r.thresholdMin == 12.9 && r.thresholdMax == 49.4
    requires r.queueName == "order-events"
    ensures MetricType(r) == Ok("order_events_messages_ready")
    ensures Trunc(r.thresholdMin) == 12 && Trunc(r.thresholdMax) == 49
  {
    assert DashesToUnderscores(r.queueName) == "order_events";
    assert LegalName("order_events");
    assert QueueMetric("order_events") == "order_events_messages_ready";
    assert Trunc(12.9) == 12 && Trunc(49.4) == 49;
  }

  lemma RefusedExample(r: Rule)
    requires r.ruleType == RuleTypeRabbitMQDepth && r.queueName == "weird!name"
    ensures MetricType(r) == Err(IllegalQueueName)
  {
    assert DashesToUnderscores(r.queueName)[5] == '!';
  }
}
