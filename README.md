# as2as policy conversion, modelled in Dafny

as2as converts the autoscaling configuration of Cloud Foundry apps from the
source autoscaler's format into the target autoscaler's policy document.

For one app the source records hold:
- instance limits;
- threshold rules (cpu, memory, http throughput, http latency, or rabbitmq queue depth);
- weekly *scheduled limit changes*. Each change has a start time of day, a weekday bitmask and new limits.

The target policy holds:
- clamped instance counts;
- a pair of scaling rules, "below the minimum scale down" and "above the maximum scale up";
- explicit recurring windows `[start, end]`, each on target weekdays numbered Monday 1 to Sunday 7.

This project models the conversion engine of `models/models.go` and the
`StringList.Contains` helper of `util.go`. It covers:
- how the engine builds an app from the source records (`ConstructApp`);
- how it converts a rule (`Rule.ToOCFScalingRules`);
- how it expands limit changes into one *day-point* per active weekday (`toDaySchedules`);
- how it turns the day-points into windows (`daySchedules.Sort` and `ToOCF`);
- how it merges windows with the same start, end and limits (`condenseOCFRecurringSchedules`);
- how it assembles the policy (`App.ToOCFPolicy`).

The model follows the code literally. Loops and in-place updates are Dafny
methods over arrays and sequences, each proved against a functional
specification:
- `ToOCF` is specified by `Windows.Periods`, the concatenation of one `Segment` of windows per point.
- Condensing is specified by `Condensing.Condensed`.
- Expansion is specified by `DayPoints.Expand`.

The properties the code promises are then lemmas about those
specifications.

Modules and files:

| module | file | what |
|---|---|---|
| `Wrappers` | wrappers.dfy | `Option`, `Result` |
| `GoInts` | goints.dfy | `uint8`, `int64`, int64 wrap-around, truncating division |
| `Times` | times.dfy | `TimeOfDay`, `"%02d:%02d"`, `LessThan`, `SubOneMinute`, `Recurrence.ActiveOn`, `weekdayToOCF` |
| `Sorting` | sorting.dfy | in-place sort by an integer key, sorted integer lists |
| `Ocfas`, `Pcfas` | ocfas.dfy, pcfas.dfy | the target and source record types and constants |
| `DayPoints` | daypoints.dfy | limit changes, day-points, `toDaySchedules` |
| `Windows` | windows.dfy | `Sort`, the window specification `Periods` with its per-point `Segment`, the `ToOCF` method and its loop bodies |
| `WindowProperties`, `WindowCases` | windowprops.dfy, windowcases.dfy | what `ToOCF` emits, in general and on particular inputs |
| `Condensing` | condense.dfy | `condenseOCFRecurringSchedules` and its specification |
| `Rules` | rules.dfy | `Rule.ToOCFScalingRules` |
| `Models` | models.dfy | `ConstructApp`, `ToOCFRecurringSchedules`, `ToOCFPolicy` |
| `Util` | util.dfy | `StringList.Contains` |

## Behaviour of the code as modelled

The code behaves as follows, and the model follows it:

- **Metric names and rule types.** Metric names are the target's constants `cpu`, `memoryutil`, `throughput` and `responsetime`. Rule types are spelled `http_throughput` and `http_latency`.
- **`LessThan` is `<=`.** It is used both as the sort comparator and in the split test. In the split test, a next point one minute after the previous point's start still splits (`WindowCases.OneMinuteLaterSplits`).
- **Continuation weekday.** The continuation half of a split goes on the *next point's* weekday, not on the day after the previous point (`WindowCases.ContinuationOnNextPointsDay`).
- **No split on the next weekday.** When the next point is on the following weekday and starts two or more minutes later in the day, there is no split. The single window sits on the previous point's weekday (`WindowCases.NoSplitWhenLater`).
- **Saturday to Sunday wrap.** The wraparound fill loop starts at weekday 7 when the last point is on Saturday. With a Sunday point as well, it fills all seven days (`WindowProperties.WrapFillDays`). `weekdayToOCF(7)` is 7.
- **Initial instance count.** It is Go's int64 `(min + max) / 2`: the sum wraps around, and the division truncates toward zero (`GoInts.Midpoint`). It is not a floor.
- **Condensing keeps duplicate days.** Day lists are concatenated and sorted, never deduplicated.
- **Condensing is order-dependent.** Its output order and each group's initial count depend on the swap-and-shrink order (`Condensing.SwapChangesRepresentative`). The key set and the day list of each key do not (`Condensing.CondensedPermutation`), and condensing twice is the same as condensing once (`Condensing.CondensedIdempotent`). The initial count is ignored when matching (`Condensing.InitialCountIgnored`).
- **Only the last rule survives.** `ToOCFPolicy` assigns each rule's pair to the policy instead of appending it, so only the last rule's pair remains (`Models.OnlyLastRuleSurvives`).
- **Schedules are optional.** The policy's schedules are an optional value, present exactly when there is at least one recurring window. The code assigns a pointer to a field declared as a plain struct.

`sort.Slice` is not stable, so day-points that compare equal may come out in
either order:
- `Windows.Sort` promises only "sorted, and a permutation".
- The end-to-end conversion results are stated for *some* sorted arrangement of the day-points (`Models.SchedulesFor`).

## Model

| member | source | states |
|---|---|---|
| Times.FormatRoundTrip | models/models.go:68-70 | a valid time renders as five characters `HH:MM` that parse back to the same hour and minute |
| Times.FormatInjective | models/models.go:68-70 | two valid times render to the same string exactly when they are equal |
| Times.LessThanIsTotalOrder | models/models.go:72-78 | `LessThan` is reflexive, total, antisymmetric and transitive, and is lexicographic `<=` on (hour, minute) |
| Times.LessThanMinutes | models/models.go:72-78 | on valid times, `LessThan` is `<=` on minutes since midnight |
| Times.SubOneMinuteSpec | models/models.go:80-94 | a valid time maps to a valid time one minute earlier modulo a day, 00:00 goes to 23:59 and only 00:00 does, and adding a minute undoes it |
| Times.ActiveOnBit | models/models.go:98-100 | `ActiveOn(day)` holds exactly when bit `6 - day` of the mask is set |
| Times.ActiveOnIgnoresBit7 | models/models.go:98-100 | bit 7 of the mask never changes `ActiveOn` |
| Times.WeekdayToOCFBijective | models/models.go:271-273 | weekdays 0..6 map one-to-one into 1..7, with Sunday 7, Monday 1 and Saturday 6; the out-of-range weekday 7 also gives 7 |
| Times.WeekdayToOCFOnto | models/models.go:271-273 | every target day 1..7 comes from a weekday 0..6 |
| GoInts.Wrap64 | models/models.go:250 | the result is the int64 congruent to the sum modulo 2^64, equal to the sum when that is in range |
| GoInts.Quo | models/models.go:336 | Go's truncating division: the remainder `a - q * b` lies in `[0, b)` for a non-negative dividend and in `(-b, 0]` for a negative one, so it has the dividend's sign and is smaller than the divisor |
| GoInts.MidpointBetween | models/models.go:336 | without overflow, `(min + max) / 2` lies between min and max and rounds toward zero |
| DayPoints.ActiveDaysBelowSpec | models/models.go:381-404 | the mask's active weekdays below k are at most k, strictly increasing, all below k, and exactly those on which `ActiveOn` holds |
| DayPoints.ExpandSpec | models/models.go:391-404 | a change yields at most seven day-points in Sunday-to-Saturday order, one for each active weekday and none for any other, each with the change's start time and limits |
| DayPoints.ToDaySchedules | models/models.go:391-404 | the loop over the seven weekdays returns exactly `Expand` of the change |
| DayPoints.EnabledOnly | models/models.go:237-240 | the kept changes are enabled members of the input, and each enabled change is kept as many times as it occurs |
| DayPoints.EnabledOnlyAppend | models/models.go:236-240 | the filter keeps the input order: the enabled changes of a concatenation are those of each part, in turn |
| DayPoints.DisabledIgnored | models/models.go:237-242 | disabled changes contribute no day-point |
| DayPoints.EnabledDayPointsSpec | models/models.go:236-243 | every collected day-point comes from an enabled change active on its weekday, and every such weekday of every enabled change is collected |
| Sorting.SortByKey | models/models.go:285-291 | the array ends sorted by the key and is a permutation of its old contents |
| Sorting.SortInts | models/models.go:431 | the result is ascending and a permutation of the input |
| Sorting.AscendingUnique | models/models.go:431 | two ascending permutations of each other are equal, so a day-list sort has one outcome |
| Sorting.SortIntsPermutation | models/models.go:431 | sorting a permuted day list gives the same list |
| Windows.ScheduleKeyOrder | models/models.go:285-291 | the comparator (weekday first, then `LessThan`) is `<=` on an integer ranking of (weekday, hour, minute) |
| Windows.Sort | models/models.go:284-292 | the points end sorted by the comparator and are a permutation of the old ones |
| Windows.FillBetween | models/models.go:303-314 | the fill loop emits one whole-day window, with the earlier point's limits, for each weekday strictly between two points, and reports whether it emitted any |
| Windows.FillAround | models/models.go:346-358 | the wraparound fill loop emits the whole-day windows of the days it visits from the last point's weekday + 1 to the first point's, stepping modulo 7 |
| Windows.CloseOut | models/models.go:316-333 | closing a point's pending window emits either one window ending the minute before the next point, or the two halves of a split at 23:59/00:00 |
| Windows.EmitChain | models/models.go:300-344 | the main loop emits the windows of every consecutive pair and leaves the last point's window pending |
| Windows.ChainPoint | models/models.go:300-343 | one iteration of the main loop keeps its invariant: the windows of all points seen but the last are emitted, and the last one's window is pending |
| Windows.CloseChain | models/models.go:301-334 | with a pending window, the fills and the closing windows extend the emitted list by the earlier point's windows |
| Windows.OpenRecord | models/models.go:336-343 | the new pending record starts at the point's time on its target weekday, with its limits and the midpoint initial count |
| Windows.EmitWindows | models/models.go:300-378 | the main loop followed by the wraparound fills and closing emits exactly the rendering of `Periods` of the sorted points |
| Windows.ToOCF | models/models.go:294-379 | after sorting the points in place, the result is the rendering of `Periods` of the sorted points |
| WindowProperties.PeriodsWindows | models/models.go:294-379 | with valid start times, every emitted window has both times valid, start `LessThan` end and a target day in 1..7, and carries the limits and initial count of some point |
| WindowProperties.EveryPointOpensAWindow | models/models.go:336-343 | every point opens a window at its own start time, on its own target weekday, with its own limits |
| WindowProperties.WrapFillDays | models/models.go:346-358 | the wraparound loop visits `first - last - 1` days (modulo 7), or all seven when last is Saturday and first is Sunday; it reaches day x exactly when x lies strictly between them going round, or in that Saturday-to-Sunday case |
| WindowProperties.SegmentShape | models/models.go:300-377 | each point's windows are its gap fills, then its own window and, when split, the continuation |
| WindowCases.NoSplitWhenLater | models/models.go:316-333 | a next point on the same or the next weekday, two or more minutes later in the day, gives one window from the previous start to the minute before the next point, on the previous point's weekday |
| WindowCases.OneMinuteLaterSplits | models/models.go:316-333 | a next point exactly one minute later still splits into `[start, 23:59]` and `[00:00, start]` on the next point's weekday |
| WindowCases.MidnightAfterFillsGetsFullDay | models/models.go:303-333 | after filled days, a next point at 00:00 gets a continuation window 00:00-23:59 on its own weekday with the previous limits |
| WindowCases.ContinuationOnNextPointsDay | models/models.go:323-332 | after filled days, the continuation ends the minute before the next point and lies on the next point's weekday |
| WindowCases.GapDaysFilled | models/models.go:303-314 | every weekday strictly between two consecutive sorted points gets a whole-day window with the earlier point's limits |
| WindowCases.WrapDaysFilled | models/models.go:346-358 | every weekday strictly between the last and the first point going round gets a whole-day window with the last point's limits, and every weekday does in the Saturday-to-Sunday case |
| WindowCases.EveryPointClosesBeforeNext | models/models.go:316-377 | each point has a window ending the minute before the next point's start, the first point counting as next after the last |
| Condensing.Shrink | models/models.go:425-426 | swap-with-last and shrink keeps the elements before the position and removes one element |
| Condensing.Merge | models/models.go:417-428 | the inner loop never grows the list and never touches the elements before its start |
| Condensing.CloneArray | models/models.go:409-412 | the clone is a fresh array with the input's contents |
| Condensing.SwapWithLast | models/models.go:425-426 | the swap and the shrink by one leave `Shrink` of the old prefix |
| Condensing.MergeInPlace | models/models.go:417-429 | the in-place inner loop (swap, shrink, `j--`) leaves the clone prefix and the merged window that `Merge` specifies |
| Condensing.SortDayList | models/models.go:431 | the window comes back with its day list sorted ascending |
| Condensing.CondenseRecurringSchedules | models/models.go:406-436 | the method returns `Condensed` of the input, working on a clone |
| Condensing.ScanClone | models/models.go:414-435 | the outer loop, run on the clone, returns `Condensed` of the clone's initial contents |
| Condensing.OuterStep | models/models.go:415-432 | one outer iteration appends one merged, sorted window and leaves the clone on which the rest of the scan gives the same result |
| Condensing.MergeStep | models/models.go:418-428 | one inner iteration either merges and swaps out a window or moves on, and leaves the same `Merge` result still to come |
| Condensing.CondenseKeepsInput | models/models.go:409-412 | the caller's array is neither reordered nor shrunk |
| Condensing.MatchingPermutation | models/models.go:418-421 | permuted inputs have permuted sets of windows with a given key |
| Condensing.DaysPermutation | models/models.go:423 | permuted windows have permuted concatenated day lists |
| Condensing.MergeRest | models/models.go:417-429 | after the inner loop, the rest of the list holds exactly the windows whose key differs from the merged one, in some order |
| Condensing.MergeDays | models/models.go:417-423 | the merged window keeps the first window's fields and gets its days followed by the days of all later windows with its key, in some order |
| Condensing.ScanResult | models/models.go:414-433 | the outer loop's output has distinct keys, covers every input key, has no more entries than the input, and each entry comes from the input |
| Condensing.CondensedSpec | models/models.go:406-436 | no two output windows share (start, end, min, max); there are no more of them than input windows; the keys are exactly the input's; each day list is the ascending sort of the concatenated day lists of all input windows with that key; every other field is copied from one input window |
| Condensing.CondensedIdempotent | models/models.go:406-436 | condensing an already condensed list changes nothing |
| Condensing.CondensedFixed | models/models.go:414-433 | a list with distinct keys and ascending day lists comes back unchanged |
| Condensing.CondensedPermutation | models/models.go:406-436 | the part that does not depend on the input order: permuted inputs give the same key set, and windows with the same key get the same day list |
| Condensing.InitialCountIgnored | models/models.go:418-431 | two windows with the same key merge even when their initial counts differ, keeping the first one's count and both day lists |
| Condensing.SwapChangesRepresentative | models/models.go:425-433 | in `[a, x, k1, k2]`, with a and x sharing a key and k1 and k2 sharing another, the swap moves k2 forward, so k2 and not k1 supplies the second group's other fields |
| Rules.Trunc | models/models.go:222-228 | `int64(x)` drops the fractional part toward zero |
| Rules.TruncTowardZero | models/models.go:222-228 | truncation is odd, and on non-negative values it is the floor |
| Rules.DashesToUnderscores | models/models.go:204 | the sanitised name has the queue name's length |
| Rules.DashesToUnderscoresSpec | models/models.go:204 | each dash becomes an underscore, other characters stay, no dash remains, and sanitising twice changes nothing |
| Rules.LegalNameUnchanged | models/models.go:204-205 | a name made of letters, digits and underscores passes the sanitiser unchanged |
| Rules.RabbitMQRefused | models/models.go:202-207 | a rabbitmq rule fails, with the illegal-name error, exactly when its queue name has a character other than ASCII letters, digits, `_` and `-` |
| Rules.RabbitMQMetric | models/models.go:204-209 | an accepted rabbitmq rule's metric is the sanitised queue name followed by `_messages_ready`, and is itself a legal name |
| Rules.RabbitMQMetricInjective | models/models.go:209 | two queue names give the same metric exactly when their sanitised forms are equal |
| Rules.BuiltInMetrics | models/models.go:190-195 | cpu, memory, http_throughput and http_latency map to `cpu`, `memoryutil`, `throughput` and `responsetime`; any other non-rabbitmq type fails with an error naming it; conversion succeeds exactly for those four |
| Rules.ScalingRulesShape | models/models.go:218-231 | a successful conversion is exactly two rules on one metric: `<` on the truncated minimum with `-1`, then `>` on the truncated maximum with `+1` |
| Rules.ConversionExamples | models/models.go:197-231 | queue `order-events` with thresholds 12.9 and 49.4 gives metric `order_events_messages_ready` with thresholds 12 and 49; queue `weird!name` is refused |
| Models.ConstructApp | models/models.go:102-150 | one rule per input rule, in order, copying the type fields and thresholds; the error is absent exactly when every timestamp parses; on the first failure, that failure's error comes back with the limit changes before it |
| Models.ToOCFRecurringSchedules | models/models.go:235-268 | the result is empty for no enabled day-points, the whole-week window for one, and otherwise the condensed windows of a sorted arrangement of the day-points |
| Models.WholeWeekSpec | models/models.go:249-260 | the single window runs `"00:00"` to `"23:59"` on days 1..7, and without overflow its initial count lies between its limits |
| Models.DisabledChangesIgnored | models/models.go:237-240 | the outcomes for a list of changes and for its enabled changes alone coincide |
| Models.SchedulesForMany | models/models.go:263-267 | with two or more valid day-points, no two result windows share (start, end, min, max), and each has the key of a window with start `LessThan` end that carries some point's limits |
| Models.ClampCount | models/models.go:158-164 | a count at or below zero becomes 1, a positive count is kept |
| Models.ToOCFPolicy | models/models.go:152-187 | a disabled app gives no policy and no error; a rule error aborts with the first such error; otherwise the policy has the clamped counts, the last rule's pair, and schedules present exactly for non-empty windows |
| Models.ErrorStays | models/models.go:171-177 | the first rule error among a prefix is the first error of the whole list |
| Models.FirstRuleErrorSpec | models/models.go:171-177 | there is no error exactly when every rule converts; otherwise the error is that of the first rule that fails |
| Models.OnlyLastRuleSurvives | models/models.go:171-177 | the policy equals that of the same app with only its last rule; its scaling rules are that rule's two, and none without rules |
| Models.PolicyWithSpec | models/models.go:157-184 | counts are at least 1 and positive limits are kept; schedules, in `Etc/UTC` with no specific dates, are present exactly when there are recurring windows |
| Util.Contains | util.go:13-21 | true exactly when some element equals s; the loop has compared the elements up to the first match, or all of them |
| Util.FirstMatch | util.go:14-17 | the first match's position: no earlier element equals s |
| Util.StopsAtFirstMatch | util.go:15-17 | what follows the first match does not affect the search |
| Util.ContainsEmpty | util.go:14-20 | the empty list contains nothing |
| Util.ContainsOwnElement | util.go:13-21 | `l.Contains(l[k])` holds for every valid index k |
| Util.ContainsOrderFree | util.go:13-21 | permuted lists give the same answer |

## Left out

- JSON decoding and encoding, struct tags and `omitempty` are not modelled. The records are Dafny datatypes.
- The surrounding tool is not part of this model: the network clients (`pcfas/client.go` and the HTTP half of `ocfas/ocfas.go`), the worker pools of `sync.go` and `dump.go`, `convert.go`, `command.go`, `main.go` and `buildCFClient`. They are I/O and concurrency orchestration.
- `time.Parse(time.RFC3339, …)` is a parameter of `ConstructApp`. It returns the timestamp's hour and minute, or an error. The RFC 3339 grammar and time zones are not modelled.
- The regular expression `[^[:alnum:]_]` is the explicit ASCII predicate `Rules.IsNameChar`.
- Rules.Trunc: float64 thresholds are reals. The model does not cover NaN, infinities, or Go's result for a value outside the int64 range. The truncated threshold is an unbounded integer.
- Models.ConstructApp: the recurrence conversion `uint8(int)` is written as `% 256`. No lemma relates the kept bits to the source integer's bits.
- Windows.Sort: `sort.Slice`'s actual algorithm is not modelled. The model uses an insertion sort and states only "sorted by the comparator and a permutation", which is all the library promises.
- Condensing.CondenseRecurringSchedules: Go's slice aliasing is not modelled. The clone in `condenseOCFRecurringSchedules` is shallow, so each window's `DaysOfWeek` slice stays shared with the caller's. For an arbitrary input, the sort at `models/models.go:431` can reorder the caller's day list in place; this happens when a window matches no other window and has two or more days. The append at `models/models.go:423` can also write into the caller's backing array when it has spare capacity. The model returns the condensed list and does not capture these changes to the caller's day lists. For the windows `ToOCF` emits, every day list is a fresh one-element literal, so the caller sees no such change.
- Models.ToOCFRecurringSchedules: the result is stated for some sorted arrangement of the day-points, not for the particular one `sort.Slice` picks.
- Models.SchedulesForMany: the property that windows never cross midnight is stated for day-points with valid start times. Times from `ConstructApp`'s parser are such times, but as raw fields they could hold any uint8.
- Total minutes covered per week are not stated as a lemma.
