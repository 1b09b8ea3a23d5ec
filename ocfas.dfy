/**
 * The target autoscaler's policy document: plain records and the string
 * constants the conversion engine writes into them. Fields the conversion
 * never sets keep Go's zero value (0, "" or an empty list).
 */
module Ocfas {
  import opened GoInts
  import opened Wrappers

  /**
   * `Policy.Schedules` is declared as a plain struct, but the conversion
   * engine assigns a pointer to it; the model makes it optional, present
   * exactly when the engine assigns it.
   */
  datatype Policy = Policy(
    instanceMinCount: int64,
    instanceMaxCount: int64,
    scalingRules: seq<ScalingRule>,
    schedules: Option<Schedules>)

  const MetricTypeMemoryUsed: string := "memoryused"
  const MetricTypeMemoryUtil: string := "memoryutil"
  const MetricTypeCPUUtil: string := "cpu"
  const MetricTypeResponseTime: string := "responsetime"
  const MetricTypeThroughput: string := "throughput"
  const MetricTypeCustom: string := "custom"

  const OperatorLessThan: string := "<"
  const OperatorLessThanOrEqualTo: string := "<="
  const OperatorGreaterThan: string := ">"
  const OperatorGreaterThanOrEqualTo: string := ">="

  const AdjustmentDown: string := "-1"
  const AdjustmentUp: string := "+1"

  /** The threshold is the truncated float threshold; its int64 range is not modelled. */
  datatype ScalingRule = ScalingRule(
    metricType: string,
    operator: string,
    threshold: int,
    adjustment: string,
    cooldownSecs: int64,
    breachDurationSecs: int64)

  const TimezoneUTC: string := "Etc/UTC"

  datatype Schedules = Schedules(
    timezone: string,
    recurringSchedule: seq<RecurringSchedule>,
    specificDate: seq<SpecificDate>)

  /** Start and end are "HH:MM" strings; days of the week are numbered Monday 1 to Sunday 7. */
  datatype RecurringSchedule = RecurringSchedule(
    startTime: string,
    endTime: string,
    daysOfWeek: seq<int>,
    instanceMinCount: int64,
    instanceMaxCount: int64,
    initialMinInstanceCount: Option<int64>)

  datatype SpecificDate = SpecificDate(
    startDateTime: string,
    endDateTime: string,
    instanceMinCount: int64,
    instanceMaxCount: int64,
    initialMinInstanceCount: Option<int64>)
}
