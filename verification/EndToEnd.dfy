/** From job reports to the rate the controller settles on, over every interleaving of the pipeline. */
module EndToEnd {
  import opened Wrappers
  import opened Types
  import opened LoadController
  import opened ControllerRuns
  import opened Percentile
  import opened RoundReports
  import opened Pipeline

  // ---- Silence is failure

  /** A planned round that brings no report breaks the target, whatever the latency limit. */
  lemma SilenceIsFailure(a: Aggregate, limits: Limits)
    requires a.Silent()
    ensures Breached(limits, a.Observation())
  {
    TimeoutRatioReachesHalf(a.Observation());
  }

  /** A round that planned and completed nothing always passes: with jobs under a second the ramp climbs unopposed. */
  lemma EmptyRoundPasses(a: Aggregate, limits: Limits)
    requires a.Valid() && a.plannedRequests == 0 && a.completedRequests == 0 && a.latencyMillis == []
    ensures !Breached(limits, a.Observation())
  {
  }

  /** In latency mode, short of half the requests timing out, a round breaks the target exactly when fewer than
      99% of its latencies are within the limit. */
  lemma LatencyVerdict(a: Aggregate, limits: Limits)
    requires limits.maxLatencyMillis > 0 && a.Observation().TimeoutRatio() < 0.5
    ensures Breached(limits, a.Observation()) <==>
            TooSlow(a.latencyMillis, limits.maxLatencyMillis)
  {
    hide P99Latency;
    if a.latencyMillis != [] {
      P99ExceedsIffTooFewWithin(a.latencyMillis, limits.maxLatencyMillis);
    } else {
      NoLatency();
    }
  }

  lemma NoLatency()
    ensures P99Latency(Sort([])) == 0
  {
  }

  // ---- A target with a capacity, seen through its reports

  /** How an overloaded target shows it: at least half of the requests time out, or fewer than 99% are within the latency limit. */
  datatype Symptom = Timeouts | Slowness

  /** No sign of overload: short of half the requests timing out, and not too slow for a limit, if there is one. */
  ghost predicate Calm(timeouts: int, completed: int, latencies: seq<int>, limit: int) {
    && 0 <= completed && 0 <= timeouts && (timeouts == 0 || 2 * timeouts < completed)
    && (limit > 0 ==> !TooSlow(latencies, limit))
  }

  /** Nothing that speaks against the symptom; measurements of no request at all never do. */
  ghost predicate Shows(timeouts: int, completed: int, latencies: seq<int>, limit: int, symptom: Symptom) {
    match symptom
    case Timeouts => 0 <= completed <= 2 * timeouts
    case Slowness => latencies == [] || TooSlow(latencies, limit)
  }

  /** A job's measurements tell the truth when they are calm or show the round's symptom, according to whether
      the round's rate was above the target's capacity. */
  ghost predicate Tells(timeouts: int, completed: int, latencies: seq<int>, limit: int, symptom: Symptom, over: bool) {
    if over then Shows(timeouts, completed, latencies, limit, symptom) else Calm(timeouts, completed, latencies, limit)
  }

  ghost predicate ReportTells(r: JobReport, limit: int, symptom: Symptom, over: bool) {
    Tells(r.timeoutCount, r.completedRequests, r.latencyMillis, limit, symptom, over)
  }

  ghost predicate AggregateTells(a: Aggregate, limit: int, symptom: Symptom, over: bool) {
    a.Valid() && Tells(a.timeoutCount, a.completedRequests, a.latencyMillis, limit, symptom, over)
  }

  /** What stands for a round without a single report when it was drained. */
  predicate Unanswered(o: LoadObservation) {
    o.timeoutCount == o.completedRequests == o.plannedRequests > 0
  }

  /** Some request was there to show the symptom. */
  predicate Shown(o: LoadObservation, limit: int, symptom: Symptom) {
    match symptom
    case Timeouts => o.completedRequests > 0
    case Slowness => limit > 0 && o.p99LatencyMillis > 0
  }

  /** A round at or below the capacity breaks the target exactly when it went unanswered; one above it does so at least when it
      went unanswered or some request was there to show the symptom. */
  ghost predicate ObservationTells(o: LoadObservation, limits: Limits, symptom: Symptom, over: bool) {
    if over then Shown(o, limits.maxLatencyMillis, symptom) || Unanswered(o) ==> Breached(limits, o)
    else Breached(limits, o) <==> Unanswered(o)
  }

  /** A job without requests tells the truth about any round. */
  lemma NothingTells(limit: int, symptom: Symptom, over: bool)
    ensures Tells(0, 0, [], limit, symptom, over)
  {
  }

  lemma TogetherTell(t: int, c: int, ls: seq<int>, t': int, c': int, ls': seq<int>, limit: int, symptom: Symptom, over: bool)
    requires Tells(t, c, ls, limit, symptom, over) && Tells(t', c', ls', limit, symptom, over)
    ensures Tells(t + t', c + c', ls + ls', limit, symptom, over)
  {
    hide TooSlow;
    TooSlowTogether(ls, ls', limit);
    assert ls == [] ==> ls + ls' == ls';
    assert ls' == [] ==> ls + ls' == ls;
  }

  lemma AddKeepsTelling(a: Aggregate, r: JobReport, limit: int, symptom: Symptom, over: bool)
    requires AggregateTells(a, limit, symptom, over) && ReportTells(r, limit, symptom, over)
    ensures AggregateTells(a.Add(r), limit, symptom, over)
  {
    hide Tells;
    TogetherTell(a.timeoutCount, a.completedRequests, a.latencyMillis,
                 r.timeoutCount, r.completedRequests, r.latencyMillis, limit, symptom, over);
  }

  /** Truthful jobs add up to a truthful round, drained at whatever moment. */
  lemma RoundTells(a: Aggregate, limits: Limits, symptom: Symptom, over: bool)
    requires AggregateTells(a, limits.maxLatencyMillis, symptom, over)
    ensures ObservationTells(a.Observation(), limits, symptom, over)
    ensures a.Silent() ==> Unanswered(a.Observation())
    ensures !over && Unanswered(a.Observation()) ==> a.Silent()
  {
    hide P99Latency, AtMost, LoadObservation.TimeoutRatio;
    TimeoutRatioReachesHalf(a.Observation());
    if a.latencyMillis == [] {
      NoLatency();
    } else {
      P99ExceedsIffTooFewWithin(a.latencyMillis, limits.maxLatencyMillis);
    }
  }

  // ---- Truthful runs

  /** The rate at which a round's next observation will be read: zero once it has been observed. */
  ghost function ReadAt(rounds: map<string, Round>, log: seq<LoadObservation>, id: string): nat
    requires id in rounds
  {
    if Observed(log, id) then 0 else rounds[id].rate
  }

  /** A delivered report tells the truth about its round, one for a round that was observed before at least when `late` is set.
      Nothing is asked of the moment at which a round is drained. */
  ghost predicate TruthfulAction(s: System, a: Action, capacity: int, symptom: string -> Symptom, late: bool) {
    match a
    case Deliver(report, _) =>
      var id := report.roundId;
      id in s.rounds && (late || !Observed(s.log, id) ==>
        ReportTells(report, s.controller.limits.maxLatencyMillis, symptom(id), ReadAt(s.rounds, s.log, id) > capacity))
    case _ => true
  }

  ghost predicate TruthfulRun(limits: Limits, actions: seq<Action>, capacity: int, symptom: string -> Symptom, late: bool)
    requires limits.Valid()
  {
    forall k :: 0 <= k < |actions| && Reached(limits, actions[..k]).Some? ==>
      TruthfulAction(Reached(limits, actions[..k]).value, actions[k], capacity, symptom, late)
  }

  ghost predicate LiveTells(
    t: Tracker, rounds: map<string, Round>, log: seq<LoadObservation>, limit: int, capacity: int,
    symptom: string -> Symptom, late: bool)
  {
    forall id :: id in t.rounds && (late || !Observed(log, id)) ==>
      id in rounds && AggregateTells(t.rounds[id], limit, symptom(id), ReadAt(rounds, log, id) > capacity)
  }

  /** The log's first observations (with `late`, all of them) tell the truth. */
  ghost predicate LogTells(log: seq<LoadObservation>, limits: Limits, capacity: int, symptom: string -> Symptom, late: bool) {
    forall i :: 0 <= i < |log| && (late || !Observed(log[..i], log[i].roundId)) ==>
      ObservationTells(log[i], limits, symptom(log[i].roundId), log[i].totalRps > capacity)
  }

  ghost predicate SystemTells(s: System, capacity: int, symptom: string -> Symptom, late: bool) {
    && LiveTells(s.tracker, s.rounds, s.log, s.controller.limits.maxLatencyMillis, capacity, symptom, late)
    && LogTells(s.log, s.controller.limits, capacity, symptom, late)
  }

  /** A drained aggregate was live, under its own id, and carries the rate at which its round is read. */
  lemma DrainedWasLive(s: System, staleAfter: int, at: int, i: nat) returns (a: Aggregate)
    requires Invariant(s) && s.sending.None?
    requires i < |s.tracker.Drain(staleAfter, at).1|
    ensures a == s.tracker.Drain(staleAfter, at).1[i]
    ensures a.roundId in s.tracker.rounds && s.tracker.rounds[a.roundId] == a
    ensures a.roundId in s.rounds && a.totalRps == ReadAt(s.rounds, s.log, a.roundId)
  {
    var t := s.tracker;
    a := t.Drain(staleAfter, at).1[i];
    var j := DrainedFromPrefix(t, staleAfter, at, a);
    hide Tracker.Drain, ReadyPrefix;
    ListedIsLive(t, j);
    assert t.rounds[t.order[j]].roundId == t.order[j];
    assert CarriesPlan(a, s.rounds[a.roundId], Observed(s.log, a.roundId));
  }

  /** One drain emits each round once, and does not keep it. */
  lemma DrainedOnce(t: Tracker, staleAfter: int, at: int)
    requires t.Valid()
    ensures var (u, drained) := t.Drain(staleAfter, at);
            && (forall i, j :: 0 <= i < j < |drained| ==> drained[i].roundId != drained[j].roundId)
            && (forall i :: 0 <= i < |drained| ==> drained[i].roundId !in u.rounds)
  {
    DrainTakesReadyPrefix(t, staleAfter, at);
    var (u, drained) := t.Drain(staleAfter, at);
    hide Tracker.Drain, ReadyPrefix, Aggregate.Valid;
    assert forall i :: 0 <= i < |drained| ==> t.order[i] in t.rounds && drained[i].roundId == t.order[i];
    forall i | 0 <= i < |drained|
      ensures drained[i].roundId !in u.rounds
    {
      StaysLiveIffBehindPrefix(t, staleAfter, at, i);
    }
  }

  /** After a drain a round has been observed if it had been before or was just drained. */
  lemma ObservedAfterDrain(log: seq<LoadObservation>, drained: seq<Aggregate>, n: nat, id: string)
    requires n <= |drained|
    ensures Observed((log + Observations(drained))[..|log| + n], id) <==>
            Observed(log, id) || exists i :: 0 <= i < n && drained[i].roundId == id
  {
    hide Aggregate.Observation;
    var more := (log + Observations(drained))[..|log| + n];
    assert forall i :: 0 <= i < |log| ==> more[i] == log[i];
    forall i | 0 <= i < n
      ensures more[|log| + i].roundId == drained[i].roundId
    {
      ObservationKeepsId(drained[i]);
    }
    if Observed(log, id) {
      var i :| 0 <= i < |log| && log[i].roundId == id;
      assert more[i].roundId == id;
    }
    if i :| 0 <= i < n && drained[i].roundId == id {
      assert more[|log| + i].roundId == id;
    }
    if Observed(more, id) && !Observed(log, id) {
      var i :| 0 <= i < |more| && more[i].roundId == id;
      assert i >= |log| && drained[i - |log|].roundId == id;
    }
  }

  lemma ObservationKeepsId(a: Aggregate)
    ensures a.Observation().roundId == a.roundId && a.Observation().totalRps == a.totalRps
  {
  }

  lemma DrainedTells(s: System, staleAfter: int, at: int, capacity: int, symptom: string -> Symptom, late: bool, i: nat)
    requires Invariant(s) && s.sending.None? && SystemTells(s, capacity, symptom, late)
    requires i < |s.tracker.Drain(staleAfter, at).1|
    ensures var a := s.tracker.Drain(staleAfter, at).1[i];
            late || !Observed(s.log, a.roundId) ==>
              ObservationTells(a.Observation(), s.controller.limits, symptom(a.roundId), a.totalRps > capacity)
  {
    hide Invariant, Tracker.Drain, ObservationTells, AggregateTells, Aggregate.Silent, Observed;
    var a := DrainedWasLive(s, staleAfter, at, i);
    if late || !Observed(s.log, a.roundId) {
      RoundTells(a, s.controller.limits, symptom(a.roundId), a.totalRps > capacity);
    }
  }

  lemma DrainTells(s: System, staleAfter: int, at: int, capacity: int, symptom: string -> Symptom, late: bool)
    requires Invariant(s) && s.sending.None? && SystemTells(s, capacity, symptom, late)
    ensures var (u, drained) := s.tracker.Drain(staleAfter, at);
            var log := s.log + Observations(drained);
            && LiveTells(u, s.rounds, log, s.controller.limits.maxLatencyMillis, capacity, symptom, late)
            && LogTells(log, s.controller.limits, capacity, symptom, late)
  {
    hide *;
    LiveAfterDrain(s, staleAfter, at, capacity, symptom, late);
    LogAfterDrain(s, staleAfter, at, capacity, symptom, late);
  }

  lemma LiveAfterDrain(s: System, staleAfter: int, at: int, capacity: int, symptom: string -> Symptom, late: bool)
    requires Invariant(s) && SystemTells(s, capacity, symptom, late)
    ensures var (u, drained) := s.tracker.Drain(staleAfter, at);
            LiveTells(u, s.rounds, s.log + Observations(drained), s.controller.limits.maxLatencyMillis, capacity, symptom, late)
  {
    hide Invariant, Tracker.Drain, Tracker.Valid, LogTells, AggregateTells, Observed, Observations;
    InvariantTracker(s);
    DrainKeepsValid(s.tracker, staleAfter, at);
    DrainedOnce(s.tracker, staleAfter, at);
    var (u, drained) := s.tracker.Drain(staleAfter, at);
    var log := s.log + Observations(drained);
    forall id | id in u.rounds
      ensures Observed(log, id) <==> Observed(s.log, id)
    {
      ObservedAfterDrain(s.log, drained, |drained|, id);
      assert log[..|s.log| + |drained|] == log;
    }
  }

  lemma LogAfterDrain(s: System, staleAfter: int, at: int, capacity: int, symptom: string -> Symptom, late: bool)
    requires Invariant(s) && s.sending.None? && SystemTells(s, capacity, symptom, late)
    ensures LogTells(s.log + Observations(s.tracker.Drain(staleAfter, at).1), s.controller.limits, capacity, symptom, late)
  {
    hide Invariant, Tracker.Drain, Tracker.Valid, LiveTells, ObservationTells, Aggregate.Observation, Observed;
    InvariantTracker(s);
    DrainedOnce(s.tracker, staleAfter, at);
    var drained := s.tracker.Drain(staleAfter, at).1;
    var log := s.log + Observations(drained);
    forall i | 0 <= i < |log| && (late || !Observed(log[..i], log[i].roundId))
      ensures ObservationTells(log[i], s.controller.limits, symptom(log[i].roundId), log[i].totalRps > capacity)
    {
      if i < |s.log| {
        assert log[..i] == s.log[..i];
      } else {
        var k := i - |s.log|;
        ObservationKeepsId(drained[k]);
        ObservedAfterDrain(s.log, drained, k, drained[k].roundId);
        DrainedTells(s, staleAfter, at, capacity, symptom, late, k);
      }
    }
  }

  lemma InvariantTracker(s: System)
    requires Invariant(s)
    ensures s.tracker.Valid()
  {
  }

  lemma NewIsNotLive(s: System, id: string)
    requires Invariant(s) && id !in s.rounds
    ensures id !in s.tracker.rounds
  {
  }

  lemma DeliverTells(s: System, report: JobReport, at: int, capacity: int, symptom: string -> Symptom, late: bool)
    requires SystemTells(s, capacity, symptom, late)
    requires TruthfulAction(s, Deliver(report, at), capacity, symptom, late)
    ensures LiveTells(s.tracker.Record(report, at), s.rounds, s.log, s.controller.limits.maxLatencyMillis, capacity, symptom, late)
  {
    hide Observed, Aggregate.Add, AggregateTells, ReportTells, LogTells;
    var id, limit := report.roundId, s.controller.limits.maxLatencyMillis;
    var over := ReadAt(s.rounds, s.log, id) > capacity;
    EmptyTells(id, 0, at, limit, symptom(id), over);
    if id != "" && report.jobId != "" && (late || !Observed(s.log, id)) {
      AddKeepsTelling(s.tracker.Open(id, 0, at).rounds[id], report, limit, symptom(id), over);
    }
  }

  lemma EmptyTells(id: string, expected: int, at: int, limit: int, symptom: Symptom, over: bool)
    ensures AggregateTells(Empty(id, expected, at), limit, symptom, over)
  {
    NothingTells(limit, symptom, over);
  }

  lemma RegisterTells(s: System, id: string, plan: Plan, at: int, capacity: int, symptom: string -> Symptom, late: bool)
    requires SystemTells(s, capacity, symptom, late) && id in s.rounds
    ensures var rate := s.rounds[id].rate;
            LiveTells(s.tracker.Register(id, rate, plan.reports, plan.requests, at), s.rounds[id := Round(rate, Some(plan))], s.log,
                      s.controller.limits.maxLatencyMillis, capacity, symptom, late)
  {
    hide Observed, LogTells, Tells;
    var limit := s.controller.limits.maxLatencyMillis;
    EmptyTells(id, plan.reports, at, limit, symptom(id), ReadAt(s.rounds, s.log, id) > capacity);
  }

  lemma ActionTells(s: System, a: Action, capacity: int, symptom: string -> Symptom, late: bool)
    requires Invariant(s) && Enabled(s, a) && TruthfulAction(s, a, capacity, symptom, late)
    requires SystemTells(s, capacity, symptom, late)
    ensures SystemTells(Do(s, a), capacity, symptom, late)
  {
    StepKeepsInvariant(s, a);
    hide Invariant, TruthfulAction, AggregateTells, Observed, Run, Tracker.Drain, Tracker.Record, Tracker.Register;
    match a
    case DrainReady(staleAfter, at) => DrainTells(s, staleAfter, at, capacity, symptom, late);
    case StartRound(id) => NewIsNotLive(s, id);
    case Deliver(report, at) => DeliverTells(s, report, at, capacity, symptom, late);
    case RegisterRound(plan, at) => RegisterTells(s, s.sending.value, plan, at, capacity, symptom, late);
  }

  lemma {:induction false} RunTells(limits: Limits, actions: seq<Action>, capacity: int, symptom: string -> Symptom, late: bool)
    requires limits.Valid()
    requires Reached(limits, actions).Some? && TruthfulRun(limits, actions, capacity, symptom, late)
    ensures SystemTells(Reached(limits, actions).value, capacity, symptom, late)
  {
    hide Invariant, SystemTells, TruthfulAction, Do, Enabled;
    if actions == [] {
      InitialTells(limits, capacity, symptom, late);
    } else {
      var front := actions[..|actions| - 1];
      assert forall k :: 0 <= k < |front| ==> front[..k] == actions[..k] && front[k] == actions[k];
      RunTells(limits, front, capacity, symptom, late);
      assert TruthfulAction(Reached(limits, front).value, actions[|actions| - 1], capacity, symptom, late);
      ActionTells(Reached(limits, front).value, actions[|actions| - 1], capacity, symptom, late);
    }
  }

  lemma InitialTells(limits: Limits, capacity: int, symptom: string -> Symptom, late: bool)
    ensures SystemTells(Initial(limits), capacity, symptom, late)
  {
  }

  // ---- Finding the capacity

  /** The observation's round had been observed before. */
  ghost predicate IsLater(log: seq<LoadObservation>, i: nat)
    requires i < |log|
  {
    Observed(log[..i], log[i].roundId)
  }

  lemma LaterHasEarlier(log: seq<LoadObservation>, i: nat)
    requires i < |log|
    ensures IsLater(log, i) ==> exists j :: 0 <= j < i && log[j].roundId == log[i].roundId
  {
    if IsLater(log, i) {
      var j :| 0 <= j < i && log[..i][j].roundId == log[i].roundId;
      assert log[j].roundId == log[i].roundId;
    }
  }

  /** Every observed rate is within the limits, and a round's later observations are at rate zero. */
  lemma LogRates(limits: Limits, actions: seq<Action>, i: nat)
    requires limits.Valid() && Reached(limits, actions).Some?
    requires i < |Reached(limits, actions).value.log|
    ensures var log := Reached(limits, actions).value.log;
            && 0 <= log[i].totalRps <= limits.maxRps && limits.Clamp(log[i].totalRps) == log[i].totalRps
            && (IsLater(log, i) ==> log[i].totalRps == 0)
  {
    OvertakingIsHarmless(limits, actions, i);
    LaterHasEarlier(Reached(limits, actions).value.log, i);
    hide Reached, IsLater;
  }

  /** An observation that drives the bounds off the capacity: one that counts as a failure although its round had been observed
      before, or although its rate is within the capacity and the round only went unanswered; or a pass above the capacity. */
  ghost predicate LedAstray(log: seq<LoadObservation>, limits: Limits, i: nat, capacity: int)
    requires i < |log|
  {
    if IsLater(log, i) || (log[i].totalRps <= capacity && Unanswered(log[i])) then Counted(limits, Verdicts(limits, log), i)
    else log[i].totalRps > capacity && !Breached(limits, log[i])
  }

  /** For truthful first observations that is all that can mislead. */
  lemma LedAstrayMisleads(log: seq<LoadObservation>, limits: Limits, capacity: nat, symptom: string -> Symptom, i: nat)
    requires LogTells(log, limits, capacity, symptom, false) && i < |log|
    requires limits.Clamp(log[i].totalRps) == log[i].totalRps && (IsLater(log, i) ==> log[i].totalRps == 0)
    ensures LedAstray(log, limits, i, capacity) <==> Misleads(limits, Verdicts(limits, log), i, capacity)
  {
    hide Breached, Run, Observed, Unanswered, Shown;
  }

  /** Suppose first observations fail exactly above the capacity, and nothing is known about later ones.  Then the bounds enclose
      it if and only if no later observation failed outside recovery; if one did, the worst rate is zero. */
  lemma EnclosesIffNoLaterFailureCounts(limits: Limits, actions: seq<Action>, capacity: nat)
    requires limits.Valid() && Reached(limits, actions).Some?
    requires var log := Reached(limits, actions).value.log;
             forall i :: 0 <= i < |log| && !IsLater(log, i) ==> (Breached(limits, log[i]) <==> log[i].totalRps > capacity)
    ensures var s := Reached(limits, actions).value;
            var vs := Verdicts(limits, s.log);
            var misled := exists i :: 0 <= i < |vs| && IsLater(s.log, i) && Counted(limits, vs, i);
            && (Encloses(s.controller, capacity) <==> !misled)
            && (misled ==> s.controller.worst == Some(0))
  {
    var s := Reached(limits, actions).value;
    var vs := Verdicts(limits, s.log);
    assert s.controller == Run(Fresh(limits), vs);
    hide Invariant, Reached, Breached, Run, IsLater, Limits.Clamp, Controller.Valid;
    forall i | 0 <= i < |s.log|
      ensures Misleads(limits, vs, i, capacity) <==> IsLater(s.log, i) && Counted(limits, vs, i)
    {
      LogRates(limits, actions, i);
    }
    EnclosesIffNothingMisleads(limits, vs, capacity);
    LaterFailureIsWorst(limits, actions);
  }

  /** A later observation that counts as a failure does so at rate zero. */
  lemma LaterFailureIsWorst(limits: Limits, actions: seq<Action>)
    requires limits.Valid() && Reached(limits, actions).Some?
    ensures var s := Reached(limits, actions).value;
            forall i :: 0 <= i < |s.log| && IsLater(s.log, i) && Counted(limits, Verdicts(limits, s.log), i) ==>
              s.controller.worst == Some(0)
  {
    var s := Reached(limits, actions).value;
    var vs := Verdicts(limits, s.log);
    assert s.controller == Run(Fresh(limits), vs);
    BoundsAreExtremes(limits, vs);
    forall i | 0 <= i < |s.log| && IsLater(s.log, i) && Counted(limits, vs, i)
      ensures s.controller.worst == Some(0)
    {
      LogRates(limits, actions, i);
    }
  }

  /** When reports tell the truth until their round is observed, whatever comes later and however slow they are, the bounds enclose the
      capacity if and only if no observation led astray; the controller then settles within nine of the capacity.  First
      observations lead astray only when a round's reports had not come: all of them, or all that had a request to report on. */
  lemma PipelineFindsTheCapacityIff(limits: Limits, actions: seq<Action>, capacity: nat, symptom: string -> Symptom)
    requires limits.Valid()
    requires Reached(limits, actions).Some? && TruthfulRun(limits, actions, capacity, symptom, false)
    ensures var s := Reached(limits, actions).value;
            var c := s.controller;
            && c.Valid()
            && (Encloses(c, capacity) <==> forall i :: 0 <= i < |s.log| ==> !LedAstray(s.log, limits, i, capacity))
            && (Encloses(c, capacity) && c.mode.Settled? ==> c.Next() <= capacity <= c.Next() + GRANULARITY - 1)
            && (forall i :: 0 <= i < |s.log| && IsLater(s.log, i) && Counted(limits, Verdicts(limits, s.log), i) ==>
                  c.worst == Some(0) && !c.mode.Probing?)
            && (forall i :: 0 <= i < |s.log| && !IsLater(s.log, i) ==>
                  ObservationTells(s.log[i], limits, symptom(s.log[i].roundId), s.log[i].totalRps > capacity))
  {
    RunTells(limits, actions, capacity, symptom, false);
    var s := Reached(limits, actions).value;
    var vs := Verdicts(limits, s.log);
    assert s.controller == Run(Fresh(limits), vs);
    forall i | 0 <= i < |s.log|
      ensures LedAstray(s.log, limits, i, capacity) <==> Misleads(limits, vs, i, capacity)
    {
      LogRates(limits, actions, i);
      LedAstrayMisleads(s.log, limits, capacity, symptom, i);
    }
    LaterFailureIsWorst(limits, actions);
    EnclosesIffNothingMisleads(limits, vs, capacity);
    ReachableRates(limits, vs);
    hide Invariant, Reached, TruthfulRun, LiveTells, Observed, Counted, Run, LedAstray, Misleads, Breached;
  }

  /** Every observation came when its reports had shown what there was to show: not unanswered within the capacity, and above
      it either unanswered or with a request that shows the symptom. */
  ghost predicate Timely(log: seq<LoadObservation>, limits: Limits, capacity: int, symptom: string -> Symptom) {
    forall i :: 0 <= i < |log| ==>
      if log[i].totalRps > capacity
      then Unanswered(log[i]) || Shown(log[i], limits.maxLatencyMillis, symptom(log[i].roundId))
      else !Unanswered(log[i])
  }

  /** Over every truthful run of the whole pipeline whose rounds are drained in time, in either mode and whatever the interleaving
      of ticks, reports and repeats, late ones included, the bounds enclose the capacity, and whenever the
      controller has settled, it has settled within nine of it. */
  lemma PipelineFindsTheCapacity(limits: Limits, actions: seq<Action>, capacity: int, symptom: string -> Symptom)
    requires limits.Valid()
    requires Reached(limits, actions).Some? && TruthfulRun(limits, actions, capacity, symptom, true)
    requires Timely(Reached(limits, actions).value.log, limits, capacity, symptom)
    ensures var c := Reached(limits, actions).value.controller;
            && c.Valid() && Encloses(c, capacity)
            && (c.mode.Settled? ==> c.Next() <= capacity <= c.Next() + GRANULARITY - 1)
  {
    RunTells(limits, actions, capacity, symptom, true);
    var s := Reached(limits, actions).value;
    var vs := Verdicts(limits, s.log);
    forall i | 0 <= i < |vs|
      ensures 0 <= vs[i].rps <= limits.maxRps
    {
      LogRates(limits, actions, i);
    }
    assert s.controller == Run(Fresh(limits), vs);
    hide Invariant, Reached, TruthfulRun, Breached, LiveTells, Run, Controller.Valid, Unanswered, Shown;
    SettlesWithinGranularity(limits, vs, capacity);
  }
}
