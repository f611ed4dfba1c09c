# The feedback loop of a load generator, verified

Imager drives a target with load and adapts the rate to what the target can carry. Each second its
orchestrator observes the rounds that have finished, asks an adaptive calculator for the next total rate,
splits that rate over the workers of all live executors, sends them their jobs, and registers the round.
Executors run the jobs and report; the tracker folds reports into one observation per round; the
calculator ramps up, backs off after a failure, and binary-searches in steps of ten requests per second
for the highest sustainable rate.

This project models that loop in Dafny and proves what it guarantees.

## Layout

- `LoadController.dfy` — the calculator as a small machine without flags (a mode and two bounds);
  `AdaptiveCalculator.dfy` — the source's calculator, field for field, proved to run that machine.
- `ProbeArithmetic.dfy`, `ControllerRuns.dfy`, `ClosedLoop.dfy` — what a probe does to the search; every run
  (arbitrary, then truthful observations); the closed loop (arbitrary outcomes, then a fixed capacity).
- `Percentile.dfy`, `RoundReports.dfy`, `RoundTracker.dfy` — the p99, the tracker as a value, and the source's
  tracker of mutable aggregates proved against it; `ReportLedger.dfy`, `ArrivalOrder.dfy` — conservation over
  every history, and independence of arrival order.
- `JobExecution.dfy`, `Accounting.dfy` — running one job, and what its counters become after aggregation.
- `ExecutorRegistry.dfy`, `StreamReader.dfy`, `Dispatcher.dfy`, `DispatchTick.dfy` — live executors, the looping
  request file, cutting a round into jobs, and one whole tick.
- `Pipeline.dfy`, `EndToEnd.dfy` — the interleaved system of ticks and reports, and the theorems from job reports to
  the rate the controller settles on; `LateReports.dfy`, `SlowReports.dfy` — what late and slow reports do to it.
- `OneBehind.dfy`, `OneBehindRuns.dfy` — the loop with one round in flight, and the runs of the pipeline that follow it.

## Main results

1. *It finds the capacity.* Let reports tell the truth about a target's capacity, in latency or timeout mode: calm at or
   below it, and above it not speaking against the round's symptom (timeouts or slowness). Over every interleaving of ticks,
   reports, repeats and late reports whose rounds are read in time, the bounds enclose the capacity and a settled
   controller is within nine of it (`EndToEnd.PipelineFindsTheCapacity`). In time means that no round within the capacity is
   read as unanswered, and each one above it is unanswered or has a request that shows its symptom. When nothing is known about how slow
   reports are, nor about what they say once their round has been read, the bounds enclose the capacity if and only if no
   observation led astray: no counted failure of a round read before, none of an unanswered round within the
   capacity, and no pass above it (`EndToEnd.PipelineFindsTheCapacityIff`). For bare observations in any order see
   `ControllerRuns.EnclosesIffNothingMisleads` and `ControllerRuns.SettlesWithinGranularity`.
2. *It gets there, if each round is read before the next rate is asked for.* In that loop it converges within a bound
   logarithmic in the maximum rate and never moves again (`ClosedLoop.LoopConverges`); it settles if and only if the target
   carries a recovery round but not the maximum (`ClosedLoop.SettlesIffCapacityInRange`); with flaky outcomes all probes
   ever issued still fit one plus the logarithm of the candidates in the first gap (`ClosedLoop.GlobalProbeBudget`).
   With one round in flight it depends on the capacity; the exact condition is `OneBehind.BehindSettlesIff`,
   carried over to runs of the pipeline by `OneBehindRuns.RunsSettleIff`.
3. *Sending before registering is harmless.* The first observation of a round carries the dispatched rate and request
   count although reports may overtake the registration (`Pipeline.OvertakingIsHarmless`).
4. *Nothing is lost.* Report totals are conserved over every history, the order of arrival is forgotten, and requests
   reach the jobs exactly as the source serves them (`ReportLedger.NothingIsLostOrCountedTwice`,
   `ArrivalOrder.ArrivalOrderIsForgotten`, `Ticking.DispatchTick`).

## Where the code does less than one would hope

Each of these is a theorem about the code as it stands.

- A job report that arrives after its round was drained reopens the round, to be read at rate zero. If that observation
  breaks the target and the controller is not recovering when it is read, zero becomes the lowest failing rate and no
  probe is ever issued again (`LateReports.LateFailureEndsTheSearch`, for any drain). When first observations fail exactly above
  the capacity, this is exactly when the bounds fail to enclose it (`EndToEnd.EnclosesIffNoLaterFailureCounts`). The
  documentation promises a binary search for the highest sustainable rate; `LateReports.LateReportStrandsTheController` is a
  complete run, with truthful reports and a round on every tick, that settles at forty on a target that carries sixty.
- A round that is stale before its reports come is read without them. Within the capacity it is then taken for a failure, and
  no rate from there on is ever found (`SlowReports.UnansweredRoundHidesTheCapacity`); above it, it passes if only jobs
  without requests have reported (`SlowReports.EmptyReportHidesTheOverload`).
- When a report takes longer than a tick, the next round is sent before it is read. A probe's failure is then read during recovery and dropped, and the search asks for the same probe at every third tick for ever
  (`OneBehind.NeverSettles`): from twenty up to a hundred, on a target that carries sixty, for seventy
  (`OneBehind.AsksForSeventyForEver`). Such a loop settles if and only if the target carries a recovery round but not the
  maximum rate, and the ramp's first rate above the capacity either leaves no probe or has no multiple of ten
  between the capacity and itself (`OneBehind.BehindSettlesIff`).
- The ramp climbs from the rate observed. A pass sets it back if and only if it is below the maximum rate and both its
  double and the ramp's start are below the rate reached (`ControllerRuns.LatePassSetsRampBack`).
- The answer to a probe need not settle it. Any number of observations bring back the very same probe if and only if
  each teaches nothing (a pass at or below the best rate, a failure at or above the worst or during recovery) and a
  pass during recovery comes last (`ControllerRuns.ProbeComesBackIff`). Over arbitrary observations the probes asked for exceed the
  budget by at most the number of observations that come for another rate while a probe is awaited
  (`ClosedLoop.ProbesWithinPotentialAndStrays`); in the closed loop there are none.
- The highest passing rate is below the lowest failing one exactly when no rate that passed is at or above one that
  counted as failing (`ControllerRuns.BoundsOrderedIffConsistent`, `ControllerRuns.FlakyTargetMeetsBounds`).
- Jobs shorter than one second carry no request, and a round without requests passes
  (`Dispatching.SubSecondJobsAreEmpty`, `EndToEnd.EmptyRoundPasses`).
- Reading from a rewindable file without records never ends (`RequestStream.ReadingEndsUnlessEmpty`).
- `pendingSettle` never changes an outcome, and the calculator's final clamp is unreachable
  (`AdaptiveCalculator.AdaptiveExponentialLoadCalculator.ObserveRecovery`).

## Modelling choices

Integers are mathematical. The timeout ratio and the rounding helpers go through real quotients, as in the source.
Clock readings are parameters, in nanoseconds; where an order of events in time matters, the lemma says that the clock
does not run backwards. Round ids are fresh. The globals of the manager package (tracker, registry) are objects;
each operation runs under the source's lock and is one step here. Channels are a sequence of sent batches. The library sort is an insertion sort, which any sort agrees with (`Percentile.SortIsCanonical`).

## Model

| member | source | states |
|---|---|---|
| Types.TimeoutRatioReachesHalf | orchestrator/manager/loadcalc.go:25-34 | the real-valued ratio reaches one half exactly when there is a positive denominator (completed, else planned) and twice the timeouts reach it |
| AdaptiveCalculator.RoundDownToMultiple | orchestrator/manager/loadcalc.go:304-309 | the floor of a real quotient gives the greatest multiple not above the value |
| AdaptiveCalculator.RoundUpToMultiple | orchestrator/manager/loadcalc.go:311-316 | the ceiling gives the least multiple not below the value |
| AdaptiveCalculator.ProbeCandidate | orchestrator/manager/loadcalc.go:279-286 | on a gap above ten the roundings and corrections yield the greatest multiple of ten above the passing rate and not above the midpoint or, if there is none, the least above the passing rate |
| AdaptiveCalculator.NormalisedLimits | orchestrator/manager/loadcalc.go:48-57 | negative limits become zero and the minimum is clamped to the maximum |
| AdaptiveCalculator.AdaptiveExponentialLoadCalculator.constructor | orchestrator/manager/loadcalc.go:48-74 | a new calculator is the fresh machine over the normalised limits |
| AdaptiveCalculator.AdaptiveExponentialLoadCalculator.Next | orchestrator/manager/loadcalc.go:136-138 | the rate is the machine's, within zero and the maximum; while probing it is that multiple of ten between the two bounds |
| AdaptiveCalculator.AdaptiveExponentialLoadCalculator.Observe | orchestrator/manager/loadcalc.go:140-202 | one observation moves the fields to the machine's next state |
| AdaptiveCalculator.AdaptiveExponentialLoadCalculator.ObserveRecovery | orchestrator/manager/loadcalc.go:143-168 | while recovery is awaited: stay on failure, else record and probe or settle; the trailing clamp is never reached |
| AdaptiveCalculator.AdaptiveExponentialLoadCalculator.ObserveRamp | orchestrator/manager/loadcalc.go:171-180 | the ramp goes on, or its first failure starts the search with a recovery round |
| AdaptiveCalculator.AdaptiveExponentialLoadCalculator.ObserveProbe | orchestrator/manager/loadcalc.go:181-189 | a probe's answer tightens one bound and is followed by a recovery round |
| AdaptiveCalculator.AdaptiveExponentialLoadCalculator.ObserveSteady | orchestrator/manager/loadcalc.go:190-201 | a settled calculator stays at its best rate, or re-enters the search on failure |
| AdaptiveCalculator.AdaptiveExponentialLoadCalculator.ThresholdExceeded | orchestrator/manager/loadcalc.go:204-209 | exceeded exactly when twice the timeouts reach the completed requests (the planned ones, if none completed) and there are any, or a positive latency limit is below the p99 |
| AdaptiveCalculator.AdaptiveExponentialLoadCalculator.NextRampRps | orchestrator/manager/loadcalc.go:211-229 | the branches compute the machine's ramp rate |
| AdaptiveCalculator.AdaptiveExponentialLoadCalculator.RecordSuccess | orchestrator/manager/loadcalc.go:231-237 | raises the machine's best rate to the clamped rate, nothing else |
| AdaptiveCalculator.AdaptiveExponentialLoadCalculator.RecordFailure | orchestrator/manager/loadcalc.go:239-244 | lowers the machine's worst rate to the clamped rate, nothing else |
| AdaptiveCalculator.AdaptiveExponentialLoadCalculator.SearchConverged | orchestrator/manager/loadcalc.go:253-267 | converged exactly when a positive failing rate is known and no probe is left |
| AdaptiveCalculator.AdaptiveExponentialLoadCalculator.NextBinaryProbeRps | orchestrator/manager/loadcalc.go:269-292 | none when the bounds are at most ten apart or no failure is known; otherwise the greatest multiple of ten above the best rate and not above the midpoint or, if there is none, the least above the best rate |
| AdaptiveCalculator.AdaptiveExponentialLoadCalculator.ProbeBetween | orchestrator/manager/loadcalc.go:275-291 | the clamp and the last rejection never alter the candidate |
| LoadController.StepKeepsValid | orchestrator/manager/loadcalc.go:140-202 | no observation, right or wrong, leaves the invariant |
| LoadController.PassKeepsGapClosed | orchestrator/manager/loadcalc.go:151-162 | recording a pass never creates a probe where there was none, so a pending settlement stands |
| ProbeArithmetic.CandidatesCountsTheSet | orchestrator/manager/loadcalc.go:269-292 | the candidate count is the number of multiples of ten strictly between the bounds |
| ProbeArithmetic.ProbeIsInside | orchestrator/manager/loadcalc.go:275-291 | a probe exists exactly on a gap above ten and is a multiple of ten strictly inside |
| ProbeArithmetic.ProbeIsMiddleTen | orchestrator/manager/loadcalc.go:275-291 | the probe is the greatest multiple of ten in the lower half of the gap, midpoint included, or else the least above the low bound |
| ProbeArithmetic.MiddleTenIsUnique | orchestrator/manager/loadcalc.go:275-291 | that admits one answer for every pair of bounds |
| ProbeArithmetic.ProbeHalvesCandidates | orchestrator/manager/loadcalc.go:279-291 | either outcome leaves at most half the candidates, rounded up, and none after the last |
| ProbeArithmetic.ProbeSpendsBudget | orchestrator/manager/loadcalc.go:269-292 | either outcome reduces the logarithmic budget by at least one |
| ProbeArithmetic.CeilLog2IsLeast | orchestrator/manager/loadcalc.go:269-292 | the budget's logarithm is the least power of two covering the count |
| ControllerRuns.ReachableRates | orchestrator/manager/loadcalc.go:136-202 | in every run the next rate is within the limits and, as the phase says, the recovery rate (one, or zero when the maximum is zero), the multiple of ten that the bounds call for, or the best rate |
| ControllerRuns.BoundsAreExtremes | orchestrator/manager/loadcalc.go:231-244 | over any run the bounds are the greatest rate that passed and the least that failed outside recovery |
| ControllerRuns.BoundsOrderedIffConsistent | orchestrator/manager/loadcalc.go:231-244 | the bounds are in order if and only if every passing rate is below every counted failing rate |
| ControllerRuns.FlakyTargetMeetsBounds | orchestrator/manager/loadcalc.go:231-244 | a rate that passes and later fails makes the bounds meet |
| ControllerRuns.BoundsTighten | orchestrator/manager/loadcalc.go:231-244 | in every run the best rate never falls and the worst never rises |
| ControllerRuns.ClosedGapIsForever | orchestrator/manager/loadcalc.go:157-201 | once the bounds are within ten no probe is issued again; the rate is the recovery rate or the best rate |
| ControllerRuns.RecoveryFollowsFailureOrProbe | orchestrator/manager/loadcalc.go:143-197 | a step ends in recovery exactly after a failure or the answer to a probe |
| ControllerRuns.BackOffUntilPass | orchestrator/manager/loadcalc.go:143-197 | after a failure the rate is at most one and stays so until an observation passes |
| ControllerRuns.EnclosesIffNothingMisleads | orchestrator/manager/loadcalc.go:231-244 | over any run the bounds enclose a capacity if and only if no pass was above it and no counted failure at or below it |
| ControllerRuns.SettlesWithinGranularity | orchestrator/manager/loadcalc.go:140-202 | for truthful observations in any order, the bounds enclose the capacity and a settled rate is within nine below it |
| ControllerRuns.LatePassSetsRampBack | orchestrator/manager/loadcalc.go:179-229 | a pass takes the ramp to at most twice the observed rate, the minimum or one, and restarts it at rate zero; the ramp falls if and only if the pass is below the maximum and its double, the minimum and (at rate zero) one are below the rate reached |
| ControllerRuns.FailureAtZeroEndsTheSearch | orchestrator/manager/loadcalc.go:239-272 | a counted failure at rate zero excludes every later probe, whatever is observed |
| ControllerRuns.ProbeComesBackIff | orchestrator/manager/loadcalc.go:143-189 | while a probe is awaited, any number of observations keep both bounds if and only if each teaches nothing, and bring back the very same state if and only if besides a pass during recovery comes last |
| ClosedLoop.VerdictPaysForProbe | orchestrator/manager/loadcalc.go:140-202 | for any observation after the ramp, a new probe is paid by the logarithmic potential or by a stray observation |
| ClosedLoop.ProbesWithinPotentialAndStrays | orchestrator/manager/loadcalc.go:140-202 | over arbitrary observations the probes asked for are at most the potential of the gap plus the stray observations |
| ClosedLoop.ProbesWithinPotential | orchestrator/manager/loadcalc.go:157-197 | from any state after the ramp, under arbitrary outcomes in the closed loop, the probes issued fit the potential of the gap |
| ClosedLoop.GlobalProbeBudget | orchestrator/manager/loadcalc.go:157-197 | over arbitrary outcomes, no probe before the first failure, and all later ones fit one plus the logarithm of the candidates it leaves |
| ClosedLoop.RoundApproachesSettling | orchestrator/manager/loadcalc.go:140-202 | each probe is followed by exactly one recovery round, and every round brings settling closer |
| ClosedLoop.RampDoubles | orchestrator/manager/loadcalc.go:211-229 | the ramp's n-th rate is the minimum doubled n times (powers of two from a zero minimum), cut off at the maximum |
| ClosedLoop.RampEndsBelowMaximum | orchestrator/manager/loadcalc.go:171-180 | the ramp lasts for ever at a capacity of at least the maximum, and otherwise fails within two rounds plus the logarithm of the maximum |
| ClosedLoop.SearchSettles | orchestrator/manager/loadcalc.go:181-201 | the search settles within one recovery round plus two rounds for each budgeted probe |
| ClosedLoop.LoopConverges | orchestrator/manager/loadcalc.go:140-229 | from a capacity of at least the recovery rate the loop converges within a logarithmic bound, to the maximum or within nine below the capacity, and stays |
| ClosedLoop.BelowRecoveryNeverSettles | orchestrator/manager/loadcalc.go:143-147 | below the recovery rate the loop is in recovery from the second round on |
| ClosedLoop.SettlesIffCapacityInRange | orchestrator/manager/loadcalc.go:140-202 | the loop settles if and only if the capacity is at least the recovery rate and below the maximum |
| Percentile.SortIsCanonical | orchestrator/manager/round_reports.go:148-149 | two sorted arrangements of the same samples are equal |
| Percentile.RankCovers99 | orchestrator/manager/round_reports.go:179-185 | the computed rank is the least covering 99%, lies in range, and neither correction fires |
| Percentile.P99IsNearestRank | orchestrator/manager/round_reports.go:175-187 | the value is a sample, the least with 99% at or below it, and at most one in a hundred exceeds it |
| Percentile.NearestRankIsUnique | orchestrator/manager/round_reports.go:175-187 | the nearest-rank definition admits one value |
| Percentile.P99ExceedsIffTooFewWithin | orchestrator/manager/round_reports.go:175-187 | the p99 exceeds a limit exactly when fewer than 99% of the samples are within it |
| RoundReports.RegisterKeepsValid | orchestrator/manager/round_reports.go:40-66 | registration keeps the order list and map in step, and the order of creation |
| RoundReports.RecordKeepsValid | orchestrator/manager/round_reports.go:68-105 | so does any report |
| RoundReports.DuplicateChangesNothing | orchestrator/manager/round_reports.go:90-92 | repeating a report while its round is live leaves the tracker identical |
| RoundReports.DrainKeepsValid | orchestrator/manager/round_reports.go:117-136 | a drain keeps the representation and changes no surviving round |
| RoundReports.DrainTakesReadyPrefix | orchestrator/manager/round_reports.go:117-136 | a drain emits exactly the longest ready prefix, oldest first, and leaves the rest in order |
| RoundReports.DrainSplitsRounds | orchestrator/manager/round_reports.go:117-136 | every live round either stays or is emitted, never both |
| RoundReports.DrainLeavesNothingStale | orchestrator/manager/round_reports.go:115-136 | with rounds in order of creation no round as old as the limit is left behind an unready head |
| RoundReports.DrainEmitsOnlyDue | orchestrator/manager/round_reports.go:117-136 | whatever the tracker holds, each emitted round had all its reports, more than none being expected, or was at least as old as the limit; the one left at the head is neither |
| RoundReports.EmittedIffAllDueSoFar | orchestrator/manager/round_reports.go:117-136 | a live round is emitted if and only if it and all rounds in front of it are complete or old enough in that sense |
| RoundTracking.RoundAggregate.Plan | orchestrator/manager/round_reports.go:58-65 | sets the rate, raises the expected reports, and sets a plan that is not negative |
| RoundTracking.RoundAggregate.Add | orchestrator/manager/round_reports.go:90-103 | adds a report's counters and latencies once for each job |
| RoundTracking.RoundAggregate.LoadObservation | orchestrator/manager/round_reports.go:147-173 | yields the aggregate's observation, with a silent planned round as all timeouts |
| RoundTracking.RoundTracker.Open | orchestrator/manager/round_reports.go:46-57 | finds a round's aggregate or appends a new one behind all others |
| RoundTracking.RoundTracker.RegisterRound | orchestrator/manager/round_reports.go:40-66 | the mutable tracker acts as the value's registration; other rounds' aggregates are untouched |
| RoundTracking.RoundTracker.RecordJobReport | orchestrator/manager/round_reports.go:68-105 | acts as the value's recording, with an error exactly for a missing round or job id |
| RoundTracking.RoundTracker.TakeFront | orchestrator/manager/round_reports.go:131-135 | removes the front round and returns its observation |
| RoundTracking.RoundTracker.DrainReadyObservations | orchestrator/manager/round_reports.go:107-138 | the loop terminates and acts as the value's drain; for the limit given (two seconds when it is not positive) each emitted round was complete or at least that old, and the one left at the head is neither |
| ReportLedger.HistoryKeepsValid | orchestrator/manager/round_reports.go:40-138 | every history keeps the tracker's representation |
| ReportLedger.NoRoundOutlivesADrain | orchestrator/manager/round_reports.go:115-136 | under a forward clock every round that survives a drain is younger than its limit, in any history |
| ReportLedger.AgeIsTimeSinceFirstEvent | orchestrator/manager/round_reports.go:46-88 | a live round's creation time is that of the event that brought it to life |
| ReportLedger.RegistrationsMerge | orchestrator/manager/round_reports.go:58-65 | however often a live round was registered, its rate is the last one given, its expected reports the most announced, and its plan the last that was not negative |
| ReportLedger.NothingIsLostOrCountedTwice | orchestrator/manager/round_reports.go:68-136 | over every history accepted totals equal live totals plus observed totals, synthetic observations aside |
| ArrivalOrder.HistorySummarises | orchestrator/manager/round_reports.go:40-105 | without drains a round's aggregate is determined by its registration and the first report of each job |
| ArrivalOrder.ArrivalOrderIsForgotten | orchestrator/manager/round_reports.go:40-187 | histories with the same registration and the same set of reports yield the same observation, p99 included |
| JobExecution.ResultClassifies | executor/worker/worker.go:76-161 | every request is executed, succeeds or fails, is a timeout only for a 503, a 504 or a minute without response, and is charged the milliseconds of the whole response below status 300, of the first byte from 300 on, of the wait without one, or none |
| JobExecution.RunJob | executor/worker/worker.go:19-67 | counts exactly the successes and timeouts of the requests started before the deadline, reports for each the whole milliseconds that its outcome is charged, deals them to targets in turn, and balances its counters |
| JobExecution.TurnsAreEven | executor/worker/worker.go:43-51 | how often a target's turn comes among so many requests |
| JobExecution.TargetsShareEvenly | executor/worker/worker.go:43-51 | calls dealt as RunJob deals them give each target its share for each time it is listed, up to one call a listing; of targets listed once none is tried more than once more than another |
| Accounting.HistoryKeepsBalance | orchestrator/manager/round_reports.go:90-104 | aggregates of job reports keep successes plus failures equal to completed, and timeouts among failures |
| Accounting.ObservationsAreSane | orchestrator/manager/round_reports.go:147-173 | every drained observation of job reports is balanced and its timeout ratio is between zero and one |
| ExecutorRegistry.SurvivesIffPunctual | orchestrator/manager/executors.go:11-47 | over any history a registered executor is never evicted if and only if every sweep finds a heartbeat at most 15,000,000,000 nanoseconds old; meanwhile re-registration changes nothing |
| ExecutorRegistry.JoinedSurvivesIffPunctual | orchestrator/manager/executors.go:63-83 | the same from the moment of joining, with the workers it joined with |
| ExecutorRegistry.Registry.AddExecutor | orchestrator/manager/executors.go:63-74 | adds an unknown executor, leaves a known one as it is |
| ExecutorRegistry.Registry.RecordHeartbeat | orchestrator/manager/executors.go:76-83 | refreshes a known executor's heartbeat in place |
| ExecutorRegistry.Registry.EligibleExecutors | orchestrator/manager/executors.go:30-47 | an executor stays registered, and is listed, if and only if its heartbeat is at most fifteen seconds (stated in nanoseconds) old; each survivor is listed once, in any visiting order |
| RequestStream.ReadingEndsUnlessEmpty | orchestrator/requests/streamreader.go:29-57 | reading ends, with at most one rewind, if and only if the file has an entry or cannot be rewound |
| RequestStream.StreamReader.Next | orchestrator/requests/streamreader.go:29-44 | yields the entry it finds, from the start again at the end of a file that can be rewound: a record is served, a mistyped value is passed over with an error, text that is not JSON stays in front; over a file of records the j-th request served is record j modulo their number |
| RequestStream.MistypedIsPassedOver | orchestrator/requests/streamreader.go:29-57 | the read after a mistyped value yields the record that follows, round the end of the file as well |
| Dispatching.SharesAreExactAndFair | orchestrator/manager/workqueue.go:113-126 | the workers' rates add up to the total, differ by at most one, larger ones first |
| Dispatching.JobIdIsInjective | orchestrator/manager/workqueue.go:144 | equal job ids have the same executor, time stamp and index |
| Dispatching.DecimalDenotes | orchestrator/manager/workqueue.go:144 | the digits in a job id read back as the number they stand for |
| Dispatching.CollectRequests | orchestrator/manager/workqueue.go:133-141 | a job's requests are the next ones served; when they fall short of the count, the very next read failed and was the last; over a sound source they never do |
| Dispatching.CutJob | orchestrator/manager/workqueue.go:121-150 | a worker's job has its share of the rate, that many requests for each whole second of the duration (at most that many over a failing source), and an id of its executor, the clock reading and its index |
| Dispatching.CutJobs | orchestrator/manager/workqueue.go:120-157 | an executor gets one job for each worker, with consecutive shares, each stamped with its own clock reading |
| Dispatching.CutRound | orchestrator/manager/workqueue.go:113-162 | one batch for each executor with workers, distinct job ids, the request stream cut without loss, exact counts of reports and requests |
| Dispatching.RoundCarriesTheRate | orchestrator/manager/workqueue.go:113-157 | the jobs' rates add up to the total, and over a sound source the planned requests are n times the rate for the n whole seconds in the duration |
| Dispatching.SubSecondJobsAreEmpty | orchestrator/manager/workqueue.go:128 | a job duration below one second yields no request at any rate |
| Ticking.ObserveAll | orchestrator/manager/workqueue.go:74-78 | the calculator runs over the drained observations in order |
| Ticking.SendRound | orchestrator/manager/workqueue.go:119-164 | all jobs go out, then the round is registered with its rate, jobs and requests |
| Ticking.DispatchTick | orchestrator/manager/workqueue.go:68-165 | a whole tick: what is observed, when a round goes out, what it carries, what is registered, and that no request is lost across rounds |
| Ticking.TickIsThreeActions | orchestrator/manager/workqueue.go:68-165 | in the interleaved system a drain, a start and a registration are enabled in turn and yield the tick's calculator and tracker |
| Ticking.TickMovesSystem | orchestrator/manager/workqueue.go:68-165 | a tick from objects that match a system ends in objects that match the system after exactly those actions, with the requests and jobs it sent; an idle tick is the drain alone |
| Pipeline.StepKeepsInvariant | orchestrator/manager/workqueue.go:74-164 | every action of the interleaved system keeps its bookkeeping |
| Pipeline.OvertakingIsHarmless | orchestrator/manager/workqueue.go:119-164 | in every run the first observation of a round carries its dispatched rate and request count, later ones rate zero |
| Pipeline.CompleteIffAllReported | orchestrator/manager/round_reports.go:125 | a round counts as complete exactly when it is registered, unobserved, and all its jobs have reported |
| EndToEnd.SilenceIsFailure | orchestrator/manager/round_reports.go:155-161 | a planned round without reports breaks the target, whatever the latency limit |
| EndToEnd.EmptyRoundPasses | orchestrator/manager/loadcalc.go:25-34 | a round that planned and completed nothing passes |
| EndToEnd.LatencyVerdict | orchestrator/manager/loadcalc.go:204-209 | in latency mode, short of half timing out, a round fails exactly when fewer than 99% of its latencies are within the limit |
| EndToEnd.RoundTells | orchestrator/manager/round_reports.go:147-173 | truthful job reports add up to a truthful observation at whatever moment the round is drained: within the capacity it fails exactly when no report had come, above it at least when none had or one had a request that shows the symptom |
| EndToEnd.EnclosesIffNoLaterFailureCounts | orchestrator/manager/loadcalc.go:231-244 | when each round's first observation fails exactly above the capacity, the bounds enclose it if and only if no later observation of a round failed outside recovery; otherwise the lowest failing rate is zero |
| EndToEnd.PipelineFindsTheCapacityIff | orchestrator/manager/workqueue.go:68-165 | over every run whose reports are truthful until their round is observed, however slow and whatever comes later, the bounds enclose the capacity if and only if no observation led astray: a counted one of a round read before or of an unanswered round within the capacity, or a pass above it; a settled rate is then within nine below it |
| EndToEnd.PipelineFindsTheCapacity | orchestrator/manager/workqueue.go:68-165 | over every run with truthful reports, late ones included, whose rounds are read in time (none within the capacity unanswered, each above it unanswered or with a request that shows the symptom), the bounds enclose the capacity and a settled rate is within nine below it |
| LateReports.LateFailureEndsTheSearch | orchestrator/manager/round_reports.go:78-88 | a drain of any rounds that emits a later observation which breaks the target outside recovery leaves the lowest failing rate at zero, and no probe ever follows |
| LateReports.LateReportStrandsTheController | orchestrator/manager/round_reports.go:78-88 | a complete run of truthful reports, one of them late, that settles at forty on a target that carries sixty |
| SlowReports.UnansweredRoundHidesTheCapacity | orchestrator/manager/round_reports.go:155-161 | a run without any untruthful report or second observation, in which a round within the capacity goes stale unanswered; its rate becomes the lowest failing one and no higher rate is ever found |
| SlowReports.EmptyReportHidesTheOverload | orchestrator/manager/round_reports.go:125-173 | a run in which a round above the capacity goes stale when only a job without requests has reported; it passes and the ramp goes on |
| OneBehind.ReadsAreTruthful | orchestrator/manager/workqueue.go:74-108 | with one round in flight the calculator runs over truthful observations in order |
| OneBehind.FailingProbeIsDropped | orchestrator/manager/loadcalc.go:143-147 | with one round in flight a failing probe is read during recovery, and three ticks later the loop is where it was |
| OneBehind.NeverSettles | orchestrator/manager/loadcalc.go:143-189 | from there it never settles and asks for the same failing probe at every third tick |
| OneBehind.PassingProbeCounts | orchestrator/manager/loadcalc.go:148-168 | a passing probe raises the best rate two ticks later, and the search goes on or settles |
| OneBehind.SearchSettlesIff | orchestrator/manager/loadcalc.go:143-189 | one round behind, the search settles if and only if no multiple of ten lies above the capacity and below the failing rate |
| OneBehind.RampGoesTwiceAsSlow | orchestrator/manager/loadcalc.go:171-180 | one round behind, the ramp sends and reads each of its rates twice |
| OneBehind.BehindSettlesIff | orchestrator/manager/loadcalc.go:140-229 | one round behind, the loop settles if and only if the capacity is at least the recovery rate and below the maximum, and the ramp's first rate above it leaves no probe or has no multiple of ten between the capacity and itself |
| OneBehind.SettledStaysBehind | orchestrator/manager/loadcalc.go:190-201 | if it settles, it stays settled, within nine below the capacity |
| OneBehind.AsksForSeventyForEver | orchestrator/manager/loadcalc.go:143-189 | from twenty up to a hundred, at a capacity of sixty, it asks for seventy for ever |
| OneBehindRuns.SecondIsTick | orchestrator/manager/workqueue.go:74-164 | a report followed by a drain, a start and a registration takes the pipeline one tick of that loop further |
| OneBehindRuns.PipelineRunsOneBehind | orchestrator/manager/workqueue.go:68-165 | for all limits, capacities and lengths there is a run of the pipeline, with a round each second and all reports truthful and in time, that goes through the states of that loop |
| OneBehindRuns.RunsSettleIff | orchestrator/manager/workqueue.go:68-165 | these runs settle if and only if that loop does |

## Left out

- Step and plain exponential calculators, which ignore feedback: a closed form each. With them the source never drains the tracker.
- HTTP servers and clients, JSON coding, retries, goroutines and channels that block; a tick that is never read by an executor is not modelled.
- Kubernetes discovery, flags, configuration checks, factories and Prometheus metrics, beyond the count of dispatched requests.
- The random request source, URL building and the wall-clock deadline of a job: oracles here, as is resolving targets.
- Any failing rewind of the request file: it counts as a file that cannot be rewound. The JSON decoder is taken to skip a value of the wrong shape and to stay at text that is not JSON.
- Machine integers that overflow, and the rounding of floating point at magnitudes where a quotient by ten is no longer exact.
- RequestStream.StreamReader.constructor: requires that a rewindable file is not empty, because reading from such a file never ends.
- ReportLedger.NothingIsLostOrCountedTwice: covers success, failure, timeout and completed counts; latencies reach an observation only as a p99.
- EndToEnd.PipelineFindsTheCapacity: is about the rate a run settles on, for rounds read in time; without that see EndToEnd.PipelineFindsTheCapacityIff. Whether runs settle is decided for the closed loop and with one round in flight, not for other delays. The jobs of an overloaded round show one symptom: mixtures, such as half the jobs slow and half timing out, need not break the target together.
- Ticking.DispatchTick: takes executors with at least zero workers, as the HTTP interface registers none below one; reports that interleave with a tick are in the Pipeline module.
- Latencies of a request that meets a broken body or an error status are taken from the oracle's durations; time itself is not modelled.
