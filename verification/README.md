# Verified model of the k8s-green analysis engine and protocols

This project models the parts of k8s-green that decide something: how the agent fans analyzers out
and turns events into issues, how workers take snapshots off the queue, how waste, scores, costs and
patches are computed, how the API limits and caches, how the browser socket reconnects, and how
migrations are replayed. `dafny verify dfyconfig.toml` checks all of it.

Protocols are step machines: a state, the actions that may happen next (`Enabled`), their effect
(`Apply`), and theorems over every finite run. In-place algorithms are methods whose postconditions
name a specification function; the theorems are about that function. Amounts are exact reals, and
only the explicit rounding steps (`math.Round`, `math.Ceil`, `int()`) round.

## Modules

- `Counting`, `Rounding`, `Utf8`: counts and sums over sequences, the rounding steps, UTF-8 as in
  section 3 of RFC 3629 with Go's treatment of invalid bytes.
- `Registry`, `HealthScore`, `Events`: the agent's analyzer registry, the three health scores, the
  two event deduplications.
- `WasteDetector`, `ScoreEngine`, `Costs`, `Recommender`, `Patches`, `PodNames`, `Simulate`: the
  analysis engine.
- `Consumer`, `Backlog`, `Processor`, `Ingest`, `Migrations`: queue worker, its queues under load,
  snapshot processing, issue table, migration runner.
- `RateLimit`, `ScoreCache`, `ReconnectingSocket`: request limiter, score cache, browser socket.

## What the code does and does not do

- The limiter is a fixed window per clock minute, not the sliding window that docs/security.md:12
  announces. Its counter can admit twice the limit within any span, however short, and in any 60
  seconds at most three times the limit. Any delay at all between clock reads and INCRs, however
  small, lets three times the limit through; twice is the bound in every run only without delay
  (`RateLimit.AdmittedInAMinute`, `RateLimit.TwiceHoldsIff`). Requests that are let through while
  Redis is unreachable are not counted in this.
- The limit of one clock minute holds in every run exactly when no INCR reaches Redis more than 60
  seconds after its request read the clock (`RateLimit.LimitHoldsIff`).
- The 30 seconds that a call of the worker's handle has do not prevent duplicate rows: the ack wait
  runs from the delivery, and a pushed message waits for the ones before it. A message is never
  processed twice at once exactly when longest wait and longest call together stay below 60 seconds
  (`Consumer.OneHandlerIff`); with calls of up to 30 seconds that is, and rows are duplicated only
  by crashes, exactly when no message is ever pushed to a busy replica
  (`Backlog.OneHandlerUnderLoadIff`, `Backlog.OneRowUnderLoadIff`).
- Two tenants can share score cache keys exactly when one id plus ":score:" is a prefix of the
  other's (`ScoreCache.CacheKeyClashIff`). Since stored cluster ids are UUIDs, only the tenant with
  the shorter id can then be answered with the other's score, and it can for every such cluster
  (`ScoreCache.AnswersAreRecentIff`, `ScoreCache.ExposedIffPrefix`, `ScoreCache.ClashAnswersWrongly`).
  The X-Tenant-ID header (backend/internal/api/middleware/tenant.go:28-31) can carry such ids.
- Two namespaces can end up in one patch exactly when one followed by "/" is a prefix of the other,
  which needs a slash in a namespace (`Patches.HomogeneousIff`).
- Overlapping ingests of one cluster leave what was inserted after the last DELETE. When all are
  complete that is one snapshot's issues exactly when, as that DELETE ran, no other ingest of the
  cluster was between its own DELETE and its last insert (`Ingest.LastDeleterStandsAloneIff`).
- The worker prices metric rows with the configured prices (backend/internal/config/config.go:48-49),
  the cost report with its own constants. The two tables agree up to rounding exactly when the
  configured prices are 0.05 and 0.006; at any others a single pod exceeds any bound
  (`Processor.TablesAgreeIff`, `Costs.DriftIsUnbounded`).
- A recorded migration has run without error in every history exactly when its text does not contain
  `create_hypertable` (`Migrations.RecordedMeansExecutedIff`).
- Being overprovisioned in memory does not imply memory waste; 5/12 is the largest usage ratio that
  does (`WasteDetector.MemWasteRatioIsSharp`).
- The two pod-name heuristics differ on some names that are not valid UTF-8
  (`PodNames.GuessesAgreeIff`).
- `close()` on the browser socket still lets one more connection be made, and stay open, exactly when
  a reconnect timer is pending (`ReconnectingSocket.CloseStopsReconnecting`,
  `ReconnectingSocket.ClosesForGoodIff`).
- A cluster with pods that is scored by the worker always lies between 14 and 94, and both are reached
  (`Processor.WorkerScoreRange`, `Processor.WorkerScoreBoundsReached`).

## Model

| member | source | states |
|---|---|---|
| Registry.SendsNeverBlock | agent/internal/analyzers/registry.go:102-124 | In every schedule a worker about to send finds the channel open and not full, and nothing has panicked (no send on a closed channel, no negative wait group). |
| Registry.AlwaysAStep | agent/internal/analyzers/registry.go:108-129 | No deadlock: until Run has returned, some goroutine can move. |
| Registry.EveryRunFinishes | agent/internal/analyzers/registry.go:94-142 | With n analyzers, a run has returned exactly when 6n + 5 steps were taken, and no run is longer. |
| Registry.ResultIsScheduleFree | agent/internal/analyzers/registry.go:123-131 | In every schedule the drained names and issues are those of all analyzers, as multisets, and the health score is the one of registration order. |
| Registry.NamesAreDistinct | agent/internal/analyzers/registry.go:53-91 | For every configuration, no analyzer name is registered twice. |
| Registry.SwitchesRegister | agent/internal/analyzers/registry.go:75-88 | Each optional analyzer is registered if and only if its switch is on. |
| Registry.CoreIsRegistered | agent/internal/analyzers/registry.go:57-72 | The fourteen core analyzers come first, always. |
| Registry.EachAnalyzerOnce | agent/internal/analyzers/registry.go:53-129 | Every schedule records each registered analyzer exactly once and no other name. |
| HealthScore.ComputeScore | agent/internal/analyzers/registry.go:144-156 | The registry's loop computes 100 minus the weighted penalties, floored at 0. |
| HealthScore.ComputeHealthScore | agent/internal/diagnostics/collector.go:257-270 | The collector's loop computes the same score as the registry's, on all issue lists. |
| HealthScore.ComputeHealth | backend/internal/ai/diagnostics_service.go:141-153 | The backend's loop computes the score with weights 20, 8 and 2 for anything else. |
| HealthScore.ScorePermutation | agent/internal/analyzers/registry.go:144-156 | A health score does not depend on the order of the issues. |
| HealthScore.AgentScoreCounts | agent/internal/analyzers/registry.go:144-156 | The agents' score is 100 minus 15, 5 and 1 for each critical, warning and info issue, floored at 0. |
| HealthScore.BackendScoreCounts | backend/internal/ai/diagnostics_service.go:141-153 | The backend's is 100 minus 20, 8 and 2 for each critical, warning and other issue, floored at 0. |
| HealthScore.ScoreOfBoth | agent/internal/diagnostics/collector.go:257-270 | The score of two lists together is max(0, score(a) + score(b) - 100), for any non-negative weights. |
| HealthScore.BackendNeverAboveAgent | backend/internal/ai/diagnostics_service.go:141-153 | The backend's score never exceeds the agents', and both stay within 0 and 100. |
| RateLimit.NeverAboveLimit | backend/internal/api/middleware/ratelimit.go:14-50 | For every interleaving of INCR and EXPIRE by any number of replicas, the counter lets at most 1000 requests of a tenant-minute through. |
| RateLimit.ExactlyTheLimit | backend/internal/api/middleware/ratelimit.go:24-48 | Once all are decided, exactly min(counted arrivals, 1000) requests passed, plus those that came while Redis was unreachable. |
| RateLimit.RefusedIff | backend/internal/api/middleware/ratelimit.go:19-48 | A decided request is refused if and only if its number is above 1000; requests without a tenant bypass the counter. |
| RateLimit.UnreachablePasses | backend/internal/api/middleware/ratelimit.go:32-48 | A request that cannot reach Redis is let through, whatever else happens. |
| RateLimit.CountersExpire | backend/internal/api/middleware/ratelimit.go:29-32 | A counter that any pipeline went through for expires within two minutes, for good. |
| RateLimit.StampedInAMinute | backend/internal/api/middleware/ratelimit.go:24-48 | Of the requests whose clock read falls in one 60-second interval the counter admits at most 2000; those let through while Redis is unreachable are not counted. |
| RateLimit.AdmittedInAMinute | backend/internal/api/middleware/ratelimit.go:24-48 | In any 60 seconds, by the instants of the INCRs, the counter admits at most 3000 requests of a tenant; those let through while Redis is unreachable are not counted. |
| RateLimit.ThriceIsReached | backend/internal/api/middleware/ratelimit.go:24-48 | However small the delay of INCRs behind their clock reads may be, some run admits 3000 within 60 seconds. |
| RateLimit.TwiceHoldsIff | backend/internal/api/middleware/ratelimit.go:24-48 | Every 60 seconds of every run admit at most 2000 if and only if no time at all passes between a clock read and its INCR. |
| RateLimit.TwiceIsReached | backend/internal/api/middleware/ratelimit.go:24-48 | Within any span around a full minute, however short, some run admits 2000. |
| RateLimit.LimitHoldsIff | backend/internal/api/middleware/ratelimit.go:24-32 | The limit holds in every run if and only if no INCR is more than 60 seconds behind its clock read; the 2-minute TTL is exactly enough for that. |
| RateLimit.HeaderIsWhatIsLeft | backend/internal/api/middleware/ratelimit.go:34-48 | In no continuation does the counter let more requests of the window through after a request than its X-RateLimit-Remaining header says, and while the minute lasts some continuation lets exactly that many through. |
| RateLimit.StampInjective | backend/internal/api/middleware/ratelimit.go:24 | The 12-digit clock stamp identifies the minute. |
| RateLimit.RenderKeyInjective | backend/internal/api/middleware/ratelimit.go:24-25 | Keys of different (tenant, minute) pairs differ, for any tenant id. |
| ScoreCache.AnswersAreRecent | backend/internal/api/handlers/score.go:15-50 | For every interleaving of reads, cache writes and inserts, a score answered to a safe tenant (none of whose keys another tenant can write for a cluster that can have rows) was the latest of its own cluster less than 30 s plus the fetch latency earlier. |
| ScoreCache.AnswersCanBeOld | backend/internal/api/handlers/score.go:43-50 | That bound is the best one, to the millisecond. |
| ScoreCache.AnswersAreRecentIff | backend/internal/api/handlers/score.go:15-50 | That holds for a tenant in every run if and only if it is safe. |
| ScoreCache.AllAnswersAreRecentIff | backend/internal/api/handlers/score.go:15-50 | It holds for all tenants if and only if no two of them clash, whatever cluster ids rows can have. |
| ScoreCache.ExposedIffPrefix | backend/internal/api/handlers/score.go:18 | With cluster ids without a colon, such as UUIDs, t can be answered with a score that t1 caches if and only if t plus ":score:" is a prefix of t1 plus ":score:"; never the other way round. |
| ScoreCache.ClashAnswersWrongly | backend/internal/api/handlers/score.go:18-29 | For every cluster that can have rows, some run with rows for that cluster only answers the exposed tenant, the one whose id plus ":score:" is a prefix, with that cluster's score under another cluster id. |
| ScoreCache.OnlyScoresAreCached | backend/internal/api/handlers/score.go:31-46 | "No scan yet" is never cached: a safe tenant has an entry only for a cluster that has a row. |
| ScoreCache.CacheKeyInjective | backend/internal/api/handlers/score.go:18 | Cache keys of colon-free tenants collide only for equal ids. |
| ScoreCache.CacheKeyClashIff | backend/internal/api/handlers/score.go:18 | Different (tenant, cluster) pairs of two tenants can share a key if and only if the tenants differ and one id plus ":score:" is a prefix of the other's. |
| ScoreCache.ColonFreeNeverClash | backend/internal/api/handlers/score.go:18 | Tenant ids without a colon never clash. |
| Consumer.AtMostThreeRows | backend/internal/worker/consumer.go:68-76 | A message is delivered at most 3 times and leaves at most one score row per delivery. |
| Consumer.BadMessagesLeaveNoTrace | backend/internal/worker/consumer.go:91-110 | A message that is unsigned or does not parse is never acked and leaves no row; an unsigned one is never processed. |
| Consumer.AckMeansProcessed | backend/internal/worker/consumer.go:103-109 | A message is acked if and only if Process returned no error for some delivery of it that was not lost before its reply; whatever was processed was signed and well formed. |
| Consumer.OneReplyPerDelivery | backend/internal/worker/consumer.go:91-110 | A delivery that was acked, nacked or lost keeps that fate in every continuation: no second reply. |
| Consumer.CrashedIff | backend/internal/worker/consumer.go:91-110 | A delivery ends without a reply if and only if its replica crashed: handle itself drops nothing. |
| Consumer.RepliesMatchMessages | backend/internal/worker/consumer.go:94-109 | A delivery that ran to its end was acked if its message was signed and well formed, and nacked if and only if it was not. |
| Consumer.NakMakesDeliverable | backend/internal/worker/consumer.go:75-107 | Whatever step naks a delivery, its message can then be delivered again at once if and only if it has had fewer than 3 deliveries. |
| Consumer.OneHandlerIff | backend/internal/worker/consumer.go:68-101 | No message is ever in two running calls of handle if and only if the longest wait in a subscription's buffer and the longest call together stay below the 60 s ack wait. |
| Consumer.DuplicatesNeedCrashes | backend/internal/worker/consumer.go:68-110 | Under that condition a good message is delivered, and its row inserted, at most once more than its deliveries were lost. |
| Backlog.PromptRunsAreBounded | backend/internal/worker/consumer.go:65-110 | Replicas that start on each message as soon as its turn comes let it wait at most (messages in front) times (longest call): their runs are runs within that bound. |
| Backlog.OneHandlerUnderLoadIff | backend/internal/worker/consumer.go:65-110 | With at most b messages in front, no message is ever in two running calls if and only if b + 1 longest calls take less than 60 s; with 30 s calls, if and only if b is 0. |
| Backlog.BacklogGivesTwoRows | backend/internal/worker/consumer.go:65-110 | Otherwise some run without a crash, in which every delivery is acked, processes a message twice at once and leaves two rows. |
| Backlog.OneRowUnderLoadIff | backend/internal/worker/consumer.go:65-110 | In every run of prompt replicas a good message leaves at most one row more than its deliveries were lost, if and only if the same condition holds. |
| Processor.Tables.Process | backend/internal/worker/processor.go:44-156 | An unparsable payload changes nothing and fails; otherwise one score row, one metric row per pod and last_seen are written, and failed inserts do not make Process fail. |
| Processor.EveryRowIsConsistent | backend/internal/worker/processor.go:44-156 | After any sequence of messages every metric row belongs to a pod of a processed message, and its waste and cost are those its own requests and usage imply. |
| Processor.MetricsAreInOrder | backend/internal/worker/processor.go:44-156 | The metric table is exactly the rows of the messages whose rows were inserted, in message order, each message's as one block and in the order of its pods. |
| Processor.TablesAgree | backend/internal/worker/processor.go:98-140 | At configured prices 0.05 and 0.006, over any history in which the two inserts of a message succeed or fail together, the metric table's costs and the score table's yearly wastes have the same total within half a cent per row. |
| Processor.TablesAgreeIff | backend/internal/worker/processor.go:74-140 | For a detector with any prices: over all such histories the tables agree if and only if its prices are 0.05 and 0.006. |
| Processor.RowsMatchScoreRow | backend/internal/worker/processor.go:98-140 | At configured prices 0.05 and 0.006 the metric rows' costs sum to the score row's yearly waste within (n + 1) / 2 cents. |
| Processor.RowsMatchIff | backend/internal/worker/processor.go:74-140 | For a detector with any prices: that holds for every snapshot if and only if its prices are 0.05 and 0.006. |
| Processor.WorkerScoreRange | backend/internal/worker/processor.go:81 | Because no node count is passed, a non-empty snapshot scores between 14 and 94. |
| Processor.WorkerScoreBoundsReached | backend/internal/worker/processor.go:81 | Snapshots of one pod score 14 and 94. |
| Processor.ScoreRowPermutation | backend/internal/worker/processor.go:73-113 | The whole score row is independent of the order of the pods. |
| Processor.ScoreRowContents | backend/internal/worker/processor.go:95-113 | The score row is about its snapshot and clock and carries the engine's score and the carbon figure for on-prem, fr. |
| PodNames.GuessDeployment | backend/internal/analyzer/patch_generator.go:45-53 | The backward byte loop returns what precedes the second last dash, or the name. |
| PodNames.GuessDeploymentLocal | backend/internal/analyzer/score_engine.go:124-137 | The rune loop returns the re-encoded runes before the second last dash, or the name. |
| PodNames.CutRemovesTwoSegments | backend/internal/analyzer/patch_generator.go:45-53 | d-r-p is cut to d for any d, dashes included, when r and p have none. |
| PodNames.GuessesAgreeIff | backend/internal/analyzer/score_engine.go:124-137 | On any byte string the two agree if and only if there are fewer than two dashes or the part kept is valid UTF-8. |
| PodNames.GuessesAgreeOnValid | backend/internal/analyzer/score_engine.go:124-137 | They agree on every valid UTF-8 name. |
| PodNames.GuessesCanDiffer | backend/internal/analyzer/score_engine.go:126 | A stray byte before the second last dash makes them differ. |
| Utf8.DecodeEncode | backend/internal/analyzer/score_engine.go:126 | Decoding the encoding of any runes gives the runes back. |
| Utf8.EncodeDecodeIff | backend/internal/analyzer/score_engine.go:126-132 | Converting to runes and back keeps a string if and only if it is valid UTF-8. |
| Utf8.EncodingExamples | backend/internal/analyzer/score_engine.go:126-132 | One example of each length, from section 7 of RFC 3629. |
| Utf8.DecodeSplits | backend/internal/analyzer/score_engine.go:126-129 | No byte sequence, valid or not, swallows a following ASCII byte. |
| WasteDetector.RoundCPUIsLeast | backend/internal/analyzer/waste_detector.go:61-64 | RoundCPU gives the smallest CPU size that is large enough. |
| WasteDetector.RoundMemIsLeast | backend/internal/analyzer/waste_detector.go:65-68 | RoundMem gives the smallest memory size that is large enough. |
| WasteDetector.RoundCPUMonotone | backend/internal/analyzer/waste_detector.go:61-64 | RoundCPU is monotone, across the change of step at 100m too. |
| WasteDetector.RoundMemMonotone | backend/internal/analyzer/waste_detector.go:65-68 | RoundMem is monotone, across the change from the ladder to steps of 512 too. |
| WasteDetector.RoundingIsIdempotent | backend/internal/analyzer/waste_detector.go:61-68 | Rounded sizes are kept. |
| WasteDetector.RoundMemBelowDouble | backend/internal/analyzer/waste_detector.go:65-68 | From 32Mi up, rounding memory never doubles it. |
| WasteDetector.CpuWasteIff | backend/internal/analyzer/waste_detector.go:36-46 | A CPU-overprovisioned pod has CPU waste if and only if it requests more than 10m. |
| WasteDetector.MemWasteRatioIsSharp | backend/internal/analyzer/waste_detector.go:36-46 | A usage ratio guarantees memory waste above 32Mi if and only if it is at most 5/12. |
| WasteDetector.OverprovisionedIff | backend/internal/analyzer/waste_detector.go:45-46 | A pod is reported overprovisioned if and only if it uses less than 40 % of a positive CPU request or less than half of a positive memory request. |
| WasteDetector.ReportBalances | backend/internal/analyzer/waste_detector.go:36-57 | The optima are the least sizes with 20 % room above the usage, at least 10m and 32Mi; request = waste + min(request, optimum); the report carries its pod's own figures. |
| WasteDetector.ReportAddsUp | backend/internal/analyzer/waste_detector.go:40-44 | The percentages are the wasted shares of the requests, and the yearly cost is that of 8760 hours of the wasted resources, to half a cent. |
| Rounding.RoundHalves | backend/internal/analyzer/waste_detector.go:44 | Halves of a cent are rounded away from zero. |
| WasteDetector.PriorityAndConfidence | backend/internal/analyzer/waste_detector.go:69-79 | HIGH above 500 euros or 70 % or without limits, LOW up to 100 euros and 50 % with limits; confidence by restarts and HPA. |
| WasteDetector.OverprovisionedWithoutWaste | backend/internal/analyzer/waste_detector.go:45-46 | A pod can be memory-overprovisioned with no memory waste. |
| WasteDetector.CostNonNegative | backend/internal/analyzer/waste_detector.go:44 | With non-negative prices the yearly cost of waste is not negative. |
| WasteDetector.CpuOptimumIsWhole | backend/internal/analyzer/waste_detector.go:52 | The CPU optimum is a whole number of millicores, so the printed size is exact. |
| WasteDetector.MemOptimumIsWhole | backend/internal/analyzer/waste_detector.go:55 | The memory optimum is an even number of mebibytes, so it and one and a half times it print exactly. |
| WasteDetector.PriorityMonotone | backend/internal/analyzer/waste_detector.go:36-73 | Requesting more for the same usage never lowers the priority, and the waste percentage stays in [0, 100). |
| WasteDetector.RightsizedHasNoWaste | backend/internal/analyzer/waste_detector.go:36-44 | A pod cut to its optimum has no waste left and keeps its optimum. |
| ScoreEngine.ComputeScore | backend/internal/analyzer/score_engine.go:31-104 | The loops compute the weighted sum of the five clamped dimensions. |
| ScoreEngine.ScoreInRange | backend/internal/analyzer/score_engine.go:31-104 | The score lies in [0, 100]. |
| ScoreEngine.DimensionsMeasure | backend/internal/analyzer/score_engine.go:36-82 | The dimensions are the mean CPU use against 70 %, the mean memory use against 75 %, and the shares of pods with an HPA and with limits. |
| ScoreEngine.PackingMeasures | backend/internal/analyzer/score_engine.go:54-59 | Fifteen pods per node are a full packing; without counts it is 70. |
| ScoreEngine.ScoreWeighs | backend/internal/analyzer/score_engine.go:84-116 | The weights are 35, 25, 20, 10 and 10 percent, and grade and label are those of the thresholds reached. |
| ScoreEngine.NoPodsNoScore | backend/internal/analyzer/score_engine.go:32-34 | Without pods the score is 0 and the grade N/A. |
| ScoreEngine.ScorePermutation | backend/internal/analyzer/score_engine.go:31-104 | The score does not depend on the order of the pods. |
| ScoreEngine.ScoreMonotone | backend/internal/analyzer/score_engine.go:36-104 | Pods that are no worse in any ratio never lower the score or the grade. |
| ScoreEngine.ScoreMonotoneInUsage | backend/internal/analyzer/score_engine.go:36-104 | More usage, limits or HPA flags, at the same requests, never lower the score or the grade. |
| ScoreEngine.RightsizingNeverHurts | backend/internal/analyzer/score_engine.go:36-116 | Cutting every request to min(request, optimum) never lowers the score or the grade. |
| Costs.ComputeSavings | backend/internal/analyzer/cost_optimizer.go:12-27 | The loop computes the rounded yearly total, its twelfth and the two parts. |
| Costs.DriftIsBounded | backend/internal/analyzer/cost_optimizer.go:12-27 | If the n per-pod yearly costs are priced at 0.05 and 0.006, they sum to the total within (n + 1) / 2 cents. |
| Costs.DriftIsBoundedIff | backend/internal/analyzer/cost_optimizer.go:12-27 | For the reports of a detector with any prices: that holds for all pods if and only if its prices are 0.05 and 0.006. |
| Costs.DriftIsUnbounded | backend/internal/analyzer/cost_optimizer.go:12-27 | At any other prices a single pod exceeds any bound. |
| Costs.BreakdownOffByACent | backend/internal/analyzer/cost_optimizer.go:18-26 | The CPU and memory parts add up to the total within one cent. |
| Costs.PartsAreTheirResources | backend/internal/analyzer/cost_optimizer.go:12-27 | Each part is its own resource's waste at 43.8 and 5.13 cents a year per millicore and mebibyte, and twelve months make a year, to within the roundings. |
| Costs.ComputeCarbon | backend/internal/analyzer/carbon_calculator.go:31-45 | The loop and the closed form compute the carbon report. |
| Costs.CarbonTables | backend/internal/analyzer/carbon_calculator.go:5-10 | The intensities and PUEs that are known, and 300 and 1.5 for all others. |
| Costs.CarbonOfWaste | backend/internal/analyzer/carbon_calculator.go:31-45 | For the worker's provider and region, watts, kWh, CO2, kilometres and trees follow from the wasted resources, each to half a unit of its last digit. |
| Costs.EquivalencesAreClose | backend/internal/api/handlers/carbon.go:37-47 | The handler's kWh, km and trees, recomputed from rounded CO2, are within 0.082, 0.0375 and 0.0053 of the report's. |
| Recommender.SortSlice | backend/internal/analyzer/recommender.go:38-40 | The sort yields a descending rearrangement, in place. |
| Recommender.GenerateRecommendations | backend/internal/analyzer/recommender.go:16-43 | The result is the first ten of a correct sort of the candidates of the overprovisioned reports. |
| Recommender.ShownIsTrue | backend/internal/analyzer/recommender.go:16-37 | Everything shown is the resizing of an overprovisioned report, with that report's priority, sizes, savings, target and confidence, or the reminder for an overprovisioned report without limits. |
| Recommender.ShortListsAreComplete | backend/internal/analyzer/recommender.go:16-42 | If there are at most ten, each overprovisioned report gives exactly its resizing, and its reminder if it has no limits. |
| Recommender.ShowsTheLargest | backend/internal/analyzer/recommender.go:38-42 | The savings shown are the ten largest of the overprovisioned reports' costs and the reminders' zeros. |
| Recommender.TopTenIsOptimal | backend/internal/analyzer/recommender.go:38-42 | For any correct sort, no choice of at most ten candidates is worth more; the result is a descending part of the candidates. |
| Recommender.SavingsDoNotDependOnTheSort | backend/internal/analyzer/recommender.go:38-42 | All correct sorts, stable or not, show the same sequence of savings. |
| Recommender.LeftOutIsWorthLess | backend/internal/analyzer/recommender.go:38-42 | A candidate that is left out is worth no more than any that is shown, and ten are shown. |
| Recommender.RemindersNeverDisplace | backend/internal/analyzer/recommender.go:29-42 | While a paying candidate is left out, no missing-limits reminder is shown. |
| Patches.GeneratePatches | backend/internal/analyzer/patch_generator.go:18-44 | The map loop builds, for each key, the patch of exactly its reports in input order, and returns one patch per key in some order. |
| Patches.SavingsAreConserved | backend/internal/analyzer/patch_generator.go:32-42 | The patches' savings sum to the waste of the overprovisioned reports. |
| Patches.SavingsByReports | backend/internal/analyzer/patch_generator.go:20-42 | The same total over the reports: each overprovisioned one counts with its yearly cost, and no other. |
| Patches.PatchIsItsReports | backend/internal/analyzer/patch_generator.go:20-40 | A patch has the container patches of exactly the overprovisioned reports with its key, in input order, and the namespace, deployment and HPA switch of the first one. |
| Patches.OneContainerPatchEach | backend/internal/analyzer/patch_generator.go:33-39 | Each overprovisioned report gives exactly one container patch. |
| Patches.IterationOrderIsIrrelevant | backend/internal/analyzer/patch_generator.go:41-43 | Any map iteration order gives the same multiset of patches. |
| Patches.PatchesAreDistinct | backend/internal/analyzer/patch_generator.go:22-31 | No two patches share namespace and deployment. |
| Patches.KeysMeetIff | backend/internal/analyzer/patch_generator.go:22 | Reports of two different namespaces can have the same key if and only if one namespace followed by "/" is a prefix of the other. |
| Patches.GroupsAreHomogeneous | backend/internal/analyzer/patch_generator.go:22-31 | With namespaces no two of which are so related, a patch holds reports of its own namespace and deployment only. |
| Patches.HomogeneousIff | backend/internal/analyzer/patch_generator.go:18-44 | For a set of namespaces, no patch ever mixes deployments if and only if no two of them are so related. |
| Patches.SlashFreeNeverShare | backend/internal/analyzer/patch_generator.go:22 | Namespaces without a slash are never so related. |
| Patches.GroupsCanMix | backend/internal/analyzer/patch_generator.go:18-44 | For any two such namespaces, two overprovisioned pods, one in each, give a single patch that is for the first one's namespace and has both containers. |
| Patches.LimitsCoverRequests | backend/internal/analyzer/patch_generator.go:33-39 | With the detector's reports a container requests its usage plus 20 %, at least 10m and 32Mi, and its limits are exactly 2 and 1.5 times its requests: truncation loses nothing. |
| Simulate.OmittedSizesAreIdeal | backend/internal/api/handlers/simulate.go:59-76 | With sizes left out nothing is wasted, the savings are the whole current waste, and the proposal is safe. |
| Simulate.SavingsAreAntitone | backend/internal/api/handlers/simulate.go:60-72 | Larger proposals never save more, a size that is left out counting as 0. |
| Simulate.SavingsAreBounded | backend/internal/api/handlers/simulate.go:65-72 | Savings never exceed the current waste, and reach it at or below the optimum. |
| Simulate.OptimumIsSafe | backend/internal/api/handlers/simulate.go:76 | Any proposal at or above the optimum is safe to apply. |
| Simulate.SafeIff | backend/internal/api/handlers/simulate.go:76 | A proposal is safe if and only if both sizes are at least 1.1 times the usage. |
| Simulate.DefaultsFillGaps | backend/internal/api/handlers/simulate.go:46-64 | Sizes and averages that are given are used; 0 stands for the optimum and for 50m, 200Mi, 500m and 512Mi. |
| Simulate.ProjectionBalances | backend/internal/api/handlers/simulate.go:59-90 | Savings and remaining waste add up to the current waste; the score and CO2 heuristics and the confidence follow. |
| Events.CollectEvents | agent/internal/diagnostics/collector.go:207-235 | The collector's loop reports, in order, exactly the first events of their keys that qualify. |
| Events.AnalyzeEvents | agent/internal/analyzers/event_analyzer.go:28-46 | The analyzer's loop reports, in order, exactly the first qualifying event of each key. |
| Events.CollectorReportsFirst | agent/internal/diagnostics/collector.go:211-232 | The collector reports a key if and only if the first event with it is recent and not ignored. |
| Events.CollectorOnNewestFirst | agent/internal/diagnostics/collector.go:211-232 | On newest-first lists, if equal keys are ignored alike, that is: if and only if some event with the key qualifies. |
| Events.SlashFreeReasons | agent/internal/diagnostics/collector.go:211-221 | Equal keys are ignored alike when no reason contains a slash. |
| Events.CollectorMissesNothingIff | agent/internal/diagnostics/collector.go:211-232 | On any list the collector reports the key of every qualifying event if and only if no qualifying event comes after a first one with its key that does not qualify. |
| Events.CollectorCanMiss | agent/internal/diagnostics/collector.go:213-218 | Out of order, a stale first event hides a recent one with its key that qualifies. |
| Events.AnalyzerReportsSome | agent/internal/analyzers/event_analyzer.go:29-45 | The analyzer reports a key if and only if some event with it qualifies. |
| Events.IdsAreDistinct | agent/internal/analyzers/event_analyzer.go:33-45 | Neither implementation reports an identifier twice. |
| Events.IssuesAreAboutEvents | agent/internal/analyzers/event_analyzer.go:37-45 | Each issue carries its event's key, reason, object and message; the analyzer's is critical above ten occurrences, the collector's a warning at the event's own time. |
| Events.AnalyzerCoversCollector | agent/internal/analyzers/event_analyzer.go:16-45 | At the same clock the analyzer reports whatever the collector does, outside its longer ignore list. |
| Ingest.Database.IngestMetrics | backend/internal/api/handlers/metrics.go:66-147 | One ingest appends the metric rows, replaces the cluster's open issues and answers their number: one for each pod and thing that is wrong with it. |
| Ingest.IngestReplacesOpenIssues | backend/internal/api/handlers/metrics.go:81-132 | The cluster's open issues are those of the snapshot, at most 3 per pod entry; resolved rows and other clusters are untouched. |
| Ingest.OpenRowsDescribePods | backend/internal/api/handlers/metrics.go:87-132 | After an ingest the cluster's open rows are exactly the true descriptions of the snapshot's pods: MissingLimits for a pod without limits, HighRestarts from 5 restarts on and critical from 10, Oversized for a request above 1000m with a limit above four times it, each with its type, severity, pod and figures. |
| Ingest.IngestIsIdempotent | backend/internal/api/handlers/metrics.go:81-132 | Ingesting a snapshot again changes nothing in the issue table. |
| Ingest.OpenIssuesFollowLastSnapshot | backend/internal/api/handlers/metrics.go:81-132 | After any serial history each cluster's open issues are those of its last snapshot. |
| Ingest.ResolvedRowsSurvive | backend/internal/api/handlers/metrics.go:81-85 | No history of ingests touches a resolved row. |
| Ingest.OpenIssuesFollowLastDelete | backend/internal/api/handlers/metrics.go:81-132 | However the statements of any number of ingests interleave, a cluster's open issues are exactly what was inserted for it since the last DELETE for it, in that order; resolved rows are never touched. |
| Ingest.LastDeleterStandsAloneIff | backend/internal/api/handlers/metrics.go:81-132 | Once the ingest with the last DELETE is complete, the open issues are its snapshot's together with what other ingests inserted after that DELETE. When all the cluster's ingests are complete, they are its snapshot's alone if and only if, at that DELETE, no other one was between its own DELETE and its last insert. |
| Ingest.OverlapCanAddUp | backend/internal/api/handlers/metrics.go:81-132 | For any two snapshots of a cluster some interleaving leaves the issues of both. |
| Migrations.Database.Migrate | backend/cmd/migrate/main.go:43-82 | The loop performs exactly the run of the specification, fatal exits and crashes included. |
| Migrations.AppliedIsAPrefix | backend/cmd/migrate/main.go:41-82 | After any runs, complete or not, the recorded files are a prefix of the sorted list. |
| Migrations.CompletedRunAppliesAll | backend/cmd/migrate/main.go:43-82 | A run that completes has recorded every file. |
| Migrations.LaterRunsDoNothing | backend/cmd/migrate/main.go:46-52 | Once everything is recorded a run executes nothing and completes. |
| Migrations.PlainFilesExecuteOnce | backend/cmd/migrate/main.go:61-80 | A file without create_hypertable executes successfully once if recorded, plus once per crash between SQL and record. |
| Migrations.CrashRepeatsTheFile | backend/cmd/migrate/main.go:61-80 | A crash between SQL and record does make the next run execute the file again. |
| Migrations.RecordedMeansExecutedIff | backend/cmd/migrate/main.go:63-80 | For every file of every list: recorded implies executed without error at least once, in every history, if and only if its text does not contain create_hypertable. |
| ReconnectingSocket.ReconnectingWebSocket.HandleOpen | frontend/src/lib/websocket.ts:37-39 | onopen resets the delay to one second and ends the row of closes. |
| ReconnectingSocket.ReconnectingWebSocket.HandleClose | frontend/src/lib/websocket.ts:28-35 | onclose sets one timer with the current delay, unless close() was called. |
| ReconnectingSocket.ReconnectingWebSocket.HandleTimer | frontend/src/lib/websocket.ts:30-33 | The timer doubles the delay up to 30 s and connects. |
| ReconnectingSocket.ReconnectingWebSocket.CloseSocket | frontend/src/lib/websocket.ts:47-50 | close() stops reconnecting and closes the latest socket if it is still live. |
| ReconnectingSocket.OneSocketOrOneTimer | frontend/src/lib/websocket.ts:18-40 | In every run there is at most one live socket or pending timer, never both. |
| ReconnectingSocket.WaitsFollowTheBackoff | frontend/src/lib/websocket.ts:28-38 | The wait after k earlier closes in a row is min(1000 * 2^k, 30000). |
| ReconnectingSocket.WaitAfterClose | frontend/src/lib/websocket.ts:28-39 | By the events alone: a close sets one timer of min(1000 * 2^k, 30000) ms after k closes since the last open; right after an open it is 1000 ms. |
| ReconnectingSocket.AlwaysReconnects | frontend/src/lib/websocket.ts:18-40 | Until close() is called there is always exactly one live socket or pending timer. |
| ReconnectingSocket.CloseStopsReconnecting | frontend/src/lib/websocket.ts:28-50 | After close() at most one more connection is attempted, and none if and only if no timer was pending. |
| ReconnectingSocket.AfterClose | frontend/src/lib/websocket.ts:28-50 | After close() no timer is ever set again. |
| ReconnectingSocket.ClosesForGoodIff | frontend/src/lib/websocket.ts:28-50 | After close(), and without another one, every socket there ever is is closing if and only if no timer was pending; otherwise one can open and stay. |

## Assumptions

- One common clock for all replicas of the limiter; the time between a clock read and its INCR is
  bounded by a parameter, and `LimitHoldsIff` says which bounds are good enough.
- Cache and database reads are atomic; a row's timestamp may be older than its commit, and ties for
  the latest row are broken either way.
- JetStream redelivers a message only after a nak or when 60 s have passed since its last delivery. A
  subscription calls handle for one message after another, in the order in which they were pushed.
- The time a pushed message waits and the time a call of handle takes are bounded by parameters, and
  the theorems say which bounds are good enough; handle's context ends after 30 seconds.
- Analyzers return some finite list of issues; errors do not stop the others.
- Issue ids, timestamps and generated texts of the issue table are replaced by the values they are
  made from; SQL statements of an ingest succeed, and each is atomic.

## Left out

- The single analyzers, apart from events, and the collectors: one-branch checks on library objects.
- AnalyzeIssues' 2-minute cache and GetCarbon's 5-minute cache: the same read-through shape as the
  score cache; language-model calls are external.
- Message handlers of the browser socket and their subscription list: a plain list filter.
- A pipeline whose INCR reached Redis but whose reply was lost: only Redis failures before the INCR
  are modelled, and those let the request through.
- JWT, HMAC, RBAC, tenant middleware, notifications, reports, pages, charts, infrastructure files:
  cryptography, text and user interface. SendScanReport is not part of this model.
- SQL text, JSON encoding, NATS and Redis clients: tables are sequences, Redis is a map with expiry.
- Floating-point rounding error: amounts are exact reals.
- Rendering of quantities such as "250m": the whole number that is printed is kept instead.
- Calendar arithmetic: a clock minute is its index, and its printed form is shown to be one to one.
- Updating a patch in place through the grouping map: patches are values that the loop reassigns, and
  nothing else refers to them.
