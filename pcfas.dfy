/**
 * The records the source autoscaler's API yields, as the conversion engine
 * receives them (after JSON decoding, which is not part of this model).
 */
module Pcfas {
  import opened GoInts

  datatype App = App(enabled: bool, guid: string, instanceLimits: InstanceLimits)

  datatype InstanceLimits = InstanceLimits(min: int64, max: int64)

  /** Thresholds are float64 values, modelled as (finite) reals. */
  datatype Rule = Rule(
    guid: string,
    comparisonMetric: string,
    metric: string,
    queueName: string,
    ruleType: string,
    ruleSubType: string,
    threshold: RuleThreshold)

  datatype RuleThreshold = RuleThreshold(min: real, max: real)

  /** `executesAt` is an RFC 3339 timestamp; `recurrence` is a Go int. */
  datatype ScheduledLimitChange = ScheduledLimitChange(
    guid: string,
    enabled: bool,
    executesAt: string,
    instanceLimits: InstanceLimits,
    recurrence: int)
}
