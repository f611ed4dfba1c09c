/** One tick of the scheduler (orchestrator/manager/workqueue.go): observe what is ready, ask for
    the next rate, send a round out, and only then register it. */
module Ticking {
  import opened Wrappers
  import opened Types
  import opened LoadController
  import opened AdaptiveCalculator
  import opened RoundReports
  import opened RoundTracking
  import opened ExecutorRegistry
  import opened RequestStream
  import opened Dispatching
  import P = Pipeline

  /** The readings of the clock during a tick. */
  datatype Readings = Readings(drain: int, sweep: int, round: nat, job: nat -> nat, register: int)

  datatype TickResult =
    | Idle
    | Dispatched(plan: Plan, expectedReports: nat, plannedRequests: nat)

  /** Everything ever sent, batch after batch and job after job, is exactly what the source has served, in its order. */
  ghost predicate NothingLost(outbox: Outbox, source: StreamReader)
    reads outbox, source
  {
    AllRequests(AllJobs(outbox.sent)) == source.served
  }

  lemma StillNothingLost(sent: seq<Batch>, batches: seq<Batch>, served: seq<RequestSpec>)
    requires AllRequests(AllJobs(sent)) == served
    ensures AllRequests(AllJobs(sent + batches)) == served + AllRequests(AllJobs(batches))
  {
    hide *;
    AllJobsAdds(sent, batches);
    AllRequestsAdds(AllJobs(sent), AllJobs(batches));
  }

  method ObserveAll(calculator: AdaptiveExponentialLoadCalculator, observations: seq<LoadObservation>)
    requires calculator.Valid()
    modifies calculator
    ensures calculator.Valid()
    ensures calculator.Machine() == Run(old(calculator.Machine()), Verdicts(old(calculator.Machine()).limits, observations))
  {
    hide Controller.Valid, Controller.Step, Controller.Next, VerdictOf;
    ghost var start := calculator.Machine();
    ghost var vs := Verdicts(start.limits, observations);
    for i := 0 to |observations|
      invariant calculator.Valid()
      invariant calculator.Machine() == Run(start, vs[..i])
      invariant calculator.Machine().limits == start.limits
    {
      calculator.Observe(observations[i]);
      assert vs[..i + 1][..i] == vs[..i];
    }
    assert vs[..|observations|] == vs;
  }

  method SumWorkers(executors: seq<Executor>) returns (total: nat)
    requires forall e :: e in executors ==> e.workers >= 0
    ensures total == TotalWorkers(executors)
  {
    total := 0;
    for i := 0 to |executors|
      invariant total == TotalWorkers(executors[..i])
    {
      WorkersOneMore(executors, i);
      total := total + executors[i].workers;
    }
    assert executors[..|executors|] == executors;
  }

  /** Resolving the targets may fail; `targets` is what it yields otherwise. */
  method DispatchTick(
    calculator: AdaptiveExponentialLoadCalculator, tracker: RoundTracker, registry: Registry, source: StreamReader,
    outbox: Outbox, targets: Option<seq<string>>, now: Readings, jobDuration: nat)
    returns (result: TickResult, ghost executors: seq<Executor>, ghost batches: seq<Batch>)
    requires calculator.Valid() && tracker.Valid() && registry.Valid() && source.Valid()
    requires forall id :: id in registry.executorMap ==> registry.executorMap[id].workers >= 0
    modifies calculator, tracker, tracker.rounds.Values, registry, source, outbox
    ensures calculator.Valid() && tracker.Valid() && registry.Valid() && source.Valid()
    // The calculator has seen exactly what was drained, in order.
    ensures calculator.Machine() ==
            Run(old(calculator.Machine()), Verdicts(old(calculator.Machine()).limits,
                Observations(old(tracker.State()).Drain(EffectiveStaleAfter(2 * jobDuration), now.drain).1)))
    ensures registry.State() == Apply(old(registry.State()), Timed(Swept, now.sweep))
    ensures Lists(executors, registry.executorMap) && forall e :: e in executors ==> e.workers >= 0
    // No request is lost, repeated or reordered, within the round or across rounds.
    ensures old(NothingLost(outbox, source)) ==> NothingLost(outbox, source)
    // A round goes out exactly when there are workers and targets; otherwise nothing is sent or registered.
    ensures result.Dispatched? <==> TotalWorkers(executors) > 0 && targets.Some? && targets.value != []
    ensures result.Idle? ==>
              && outbox.sent == old(outbox.sent) && source.served == old(source.served)
              && tracker.State() == old(tracker.State()).Drain(EffectiveStaleAfter(2 * jobDuration), now.drain).0
    ensures result.Dispatched? ==>
              var p := result.plan;
              && p == Plan("round-" + Decimal(now.round), calculator.Machine().Next(), TotalWorkers(executors), targets.value, jobDuration)
              && IsRound(batches, executors, p, old(source.Cyclic()))
              && TotalRate(AllJobs(batches)) == p.rate
              && outbox.sent == old(outbox.sent) + batches
              && source.served == old(source.served) + AllRequests(AllJobs(batches))
              && outbox.dispatchedRequests == old(outbox.dispatchedRequests) + result.plannedRequests
              && result.expectedReports == TotalWorkers(executors)
              && result.plannedRequests == |AllRequests(AllJobs(batches))|
              && (old(source.Cyclic()) ==> source.Cyclic() && forall n: nat :: IsWholeSeconds(n, jobDuration) ==> result.plannedRequests == n * p.rate)
              && FromExecutors(AllJobs(batches), executors, now.job)
              && tracker.State() ==
                 old(tracker.State()).Drain(EffectiveStaleAfter(2 * jobDuration), now.drain).0
                 .Register(p.roundId, p.rate, result.expectedReports, result.plannedRequests, now.register)
  {
    hide *;
    batches := [];
    var observations := tracker.DrainReadyObservations(2 * jobDuration, now.drain);
    ObserveAll(calculator, observations);
    var live := registry.EligibleExecutors(now.sweep);
    executors := live;
    ListedExecutors(live, registry.executorMap);
    var totalWorkers := SumWorkers(live);
    if |live| == 0 {
      NoExecutorsNoWorkers();
      return Idle, executors, batches;
    }
    if totalWorkers <= 0 || targets.None? || |targets.value| == 0 {
      return Idle, executors, batches;
    }
    var rate := calculator.Next();
    if rate < 0 {
      rate := 0;
    }
    var plan := Plan("round-" + Decimal(now.round), rate, totalWorkers, targets.value, jobDuration);
    var expectedReports, plannedRequests;
    expectedReports, plannedRequests, batches := SendRound(live, plan, source, outbox, tracker, now.job, now.register);
    result := Dispatched(plan, expectedReports, plannedRequests);
  }

  /** Sends all jobs of a round, and registers the round only after the last of them. */
  method SendRound(
    executors: seq<Executor>, plan: Plan, source: StreamReader, outbox: Outbox, tracker: RoundTracker,
    clock: nat -> nat, registerAt: int)
    returns (expectedReports: nat, plannedRequests: nat, ghost batches: seq<Batch>)
    requires source.Valid() && tracker.Valid() && plan.workers > 0 && DistinctExecutors(executors)
    requires forall e :: e in executors ==> e.workers >= 0
    requires plan.workers == TotalWorkers(executors)
    modifies source, outbox, tracker, tracker.rounds.Values
    ensures source.Valid() && tracker.Valid()
    ensures IsRound(batches, executors, plan, old(source.Cyclic())) && TotalRate(AllJobs(batches)) == plan.rate
    ensures outbox.sent == old(outbox.sent) + batches
    ensures old(NothingLost(outbox, source)) ==> NothingLost(outbox, source)
    ensures source.served == old(source.served) + AllRequests(AllJobs(batches))
    ensures outbox.dispatchedRequests == old(outbox.dispatchedRequests) + plannedRequests
    ensures expectedReports == plan.workers
    ensures plannedRequests == |AllRequests(AllJobs(batches))|
    ensures old(source.Cyclic()) ==>
              source.Cyclic() && forall n: nat :: IsWholeSeconds(n, plan.durationNanos) ==> plannedRequests == n * plan.rate
    ensures FromExecutors(AllJobs(batches), executors, clock)
    ensures tracker.State() ==
            old(tracker.State()).Register(plan.roundId, plan.rate, expectedReports, plannedRequests, registerAt)
  {
    hide AllJobs, AllRequests, IsRound, TotalWorkers, StreamReader.Valid, StreamReader.Cyclic, TotalRate, Tracker.Register,
      RoundTracker.Valid, RoundTracker.State, DistinctExecutors, Plan.Seconds, IsWholeSeconds, FromExecutors;
    expectedReports, plannedRequests, batches := CutRound(executors, plan, source, outbox, clock);
    RoundCarriesTheRate(batches, executors, plan, old(source.Cyclic()));
    RoundHasAllWorkers(batches, executors, plan, old(source.Cyclic()));
    if old(NothingLost(outbox, source)) {
      StillNothingLost(old(outbox.sent), batches, old(source.served));
    }
    tracker.RegisterRound(plan.roundId, plan.rate, expectedReports, plannedRequests, registerAt);
  }

  lemma ListedExecutors(executors: seq<Executor>, members: map<string, Executor>)
    requires Lists(executors, members)
    requires forall id :: id in members ==> members[id].workers >= 0
    ensures DistinctExecutors(executors)
    ensures forall e :: e in executors ==> e.workers >= 0
  {
  }

  lemma NoExecutorsNoWorkers()
    ensures TotalWorkers([]) == 0
  {
  }

  lemma RoundHasAllWorkers(batches: seq<Batch>, executors: seq<Executor>, plan: Plan, exact: bool)
    requires plan.workers > 0
    requires forall e :: e in executors ==> e.workers >= 0
    requires IsRound(batches, executors, plan, exact)
    ensures |AllJobs(batches)| == TotalWorkers(executors)
  {
  }

  /** A tick that nothing interrupts is three actions of the pipeline: a drain, a start, and a registration. */
  lemma TickIsThreeActions(s: P.System, staleAfter: int, drainAt: int, id: string, plan: P.Plan, registerAt: int)
    requires P.Invariant(s) && s.sending.None? && id != "" && id !in s.rounds
    ensures P.Enabled(s, P.DrainReady(staleAfter, drainAt))
    ensures var drained := P.Do(s, P.DrainReady(staleAfter, drainAt));
            && drained.controller.Valid() && P.Enabled(drained, P.StartRound(id))
            && var started := P.Do(drained, P.StartRound(id));
               && started.controller.Valid() && P.Enabled(started, P.RegisterRound(plan, registerAt))
               && var end := P.Do(started, P.RegisterRound(plan, registerAt));
                  && P.Invariant(end)
                  && end.controller == Run(s.controller, Verdicts(s.controller.limits, Observations(s.tracker.Drain(staleAfter, drainAt).1)))
                  && end.rounds[id] == P.Round(end.controller.Next(), Some(plan))
                  && end.tracker == s.tracker.Drain(staleAfter, drainAt).0
                                    .Register(id, end.controller.Next(), plan.reports, plan.requests, registerAt)
  {
    P.StepKeepsInvariant(s, P.DrainReady(staleAfter, drainAt));
    var drained := P.Do(s, P.DrainReady(staleAfter, drainAt));
    P.StepKeepsInvariant(drained, P.StartRound(id));
    var started := P.Do(drained, P.StartRound(id));
    P.StepKeepsInvariant(started, P.RegisterRound(plan, registerAt));
    hide P.Bookkept, Run, Tracker.Drain, Tracker.Register, Controller.Valid, Controller.Next;
  }

  /** The system's value of the calculator and the tracker, between two ticks. */
  ghost predicate Matches(s: P.System, calculator: AdaptiveExponentialLoadCalculator, tracker: RoundTracker)
    requires calculator.Valid()
    reads calculator, tracker, tracker.rounds.Values
  {
    && s.sending.None?
    && s.controller == calculator.Machine()
    && s.tracker == tracker.State()
  }

  ghost function AfterDrain(s: P.System, now: Readings, jobDuration: nat): P.System
    requires P.Invariant(s) && s.sending.None?
  {
    P.Do(s, P.DrainReady(EffectiveStaleAfter(2 * jobDuration), now.drain))
  }

  /** A tick moves the pipeline's system, at its calculator and tracker, by exactly these actions: a drain, and, when a
      round goes out, its start and its registration with the requests and jobs that were sent. */
  method TickMovesSystem(
    calculator: AdaptiveExponentialLoadCalculator, tracker: RoundTracker, registry: Registry, source: StreamReader,
    outbox: Outbox, targets: Option<seq<string>>, now: Readings, jobDuration: nat, ghost s: P.System)
    returns (result: TickResult, ghost after: P.System)
    requires calculator.Valid() && tracker.Valid() && registry.Valid() && source.Valid()
    requires forall id :: id in registry.executorMap ==> registry.executorMap[id].workers >= 0
    requires P.Invariant(s) && Matches(s, calculator, tracker) && "round-" + Decimal(now.round) !in s.rounds
    modifies calculator, tracker, tracker.rounds.Values, registry, source, outbox
    ensures calculator.Valid() && tracker.Valid() && registry.Valid() && source.Valid()
    ensures P.Invariant(after) && Matches(after, calculator, tracker)
    ensures result.Idle? ==> after == AfterDrain(s, now, jobDuration)
    ensures result.Dispatched? ==>
              var id := "round-" + Decimal(now.round);
              var plan := P.Plan(result.plannedRequests, result.expectedReports);
              var drained := AfterDrain(s, now, jobDuration);
              && drained.controller.Valid() && P.Enabled(drained, P.StartRound(id))
              && var started := P.Do(drained, P.StartRound(id));
                 && started.controller.Valid() && P.Enabled(started, P.RegisterRound(plan, now.register))
                 && after == P.Do(started, P.RegisterRound(plan, now.register))
                 && after.rounds[id] == P.Round(result.plan.rate, Some(plan))
  {
    var limit := EffectiveStaleAfter(2 * jobDuration);
    ghost var executors, batches;
    result, executors, batches := DispatchTick(calculator, tracker, registry, source, outbox, targets, now, jobDuration);
    after := AfterDrain(s, now, jobDuration);
    P.StepKeepsInvariant(s, P.DrainReady(limit, now.drain));
    if result.Dispatched? {
      var id := "round-" + Decimal(now.round);
      ghost var plan := P.Plan(result.plannedRequests, result.expectedReports);
      TickIsThreeActions(s, limit, now.drain, id, plan, now.register);
      after := P.Do(P.Do(after, P.StartRound(id)), P.RegisterRound(plan, now.register));
    }
  }
}
