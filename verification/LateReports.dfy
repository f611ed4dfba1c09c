/** What a late report does: once its round has been observed, it is read at rate zero, and a failure at rate zero
    ends the search.  A complete run shows it on a target whose reports all tell the truth. */
module LateReports {
  import opened Wrappers
  import opened Types
  import opened LoadController
  import opened ControllerRuns
  import opened RoundReports
  import opened Pipeline
  import opened EndToEnd

  /** If a drain emits, among any others, a round that had been observed before, if that later observation breaks the
      target, and if what the drain emits before it does not leave the controller recovering, then the worst rate is
      zero for good: no probe is ever issued again, whatever else is drained or observed. */
  lemma LateFailureEndsTheSearch(s: System, staleAfter: int, at: int, i: nat, vs: seq<Verdict>)
    requires Invariant(s) && s.sending.None?
    requires var drained := s.tracker.Drain(staleAfter, at).1;
             && i < |drained|
             && Observed(s.log, drained[i].roundId)
             && Breached(s.controller.limits, drained[i].Observation())
             && !Run(s.controller, Verdicts(s.controller.limits, Observations(drained[..i]))).mode.Recovering?
    ensures var c := Do(s, DrainReady(staleAfter, at)).controller;
            && c.worst == Some(0) && !c.mode.Probing? && !c.mode.Ramping?
            && Run(c, vs).Valid() && Run(c, vs).worst == Some(0)
            && !Run(c, vs).mode.Probing? && !Run(c, vs).mode.Ramping?
  {
    var limits, drained := s.controller.limits, s.tracker.Drain(staleAfter, at).1;
    var a := DrainedWasLive(s, staleAfter, at, i);
    ObservationKeepsId(a);
    SplitAt(limits, drained, i);
    hide Tracker.Drain, Breached, Run, Observed, Aggregate.Observation, Bookkept;
    var front, back := Verdicts(limits, Observations(drained[..i])), Verdicts(limits, Observations(drained[i + 1..]));
    RunKeepsValid(s.controller, front);
    var c := Run(s.controller, front);
    var v := VerdictOf(limits, a.Observation());
    FailureAtZeroEndsTheSearch(c, v, back);
    FailureAtZeroEndsTheSearch(c, v, back + vs);
    RunAdds(s.controller, front, [v] + back);
    RunFirst(c, v, back);
    RunAdds(c.Step(v), back, vs);
  }

  lemma SplitAt(limits: Limits, drained: seq<Aggregate>, i: nat)
    requires i < |drained|
    ensures Verdicts(limits, Observations(drained)) ==
            Verdicts(limits, Observations(drained[..i])) +
            ([VerdictOf(limits, drained[i].Observation())] + Verdicts(limits, Observations(drained[i + 1..])))
  {
    hide VerdictOf, Aggregate.Observation;
  }

  lemma RunFirst(c: Controller, v: Verdict, vs: seq<Verdict>)
    ensures Run(c, [v] + vs) == Run(c.Step(v), vs)
  {
    hide Controller.Step;
    RunAdds(c, [v], vs);
    assert [v][..0] == [];
    assert Run(c, [v]) == Run(c, []).Step(v);
  }

  // ---- A run that does so

  const SECOND: int := 1_000_000_000
  const LIMITS: Limits := Limits(80, 100, 0)
  /** The target carries sixty requests per second, and answers faster load with timeouts. */
  const CAPACITY: nat := 60

  const R1: string := "round-1"
  const R2: string := "round-2"
  const R3: string := "round-3"

  function Overloaded(): JobReport { JobReport("job-1", R1, 80, 80, 0, 80, 80, seq(80, _ => 5)) }
  function Recovered(): JobReport { JobReport("job-2", R2, 1, 1, 1, 0, 0, [5]) }
  function Probed(): JobReport { JobReport("job-3", R3, 40, 40, 40, 0, 0, seq(40, _ => 5)) }

  /** One executor with one worker, and a tick every three seconds.  The first round, at eighty, overloads the target;
      its report comes after five seconds, when the round has been drained as silent. */
  function StrandingRun(): seq<Action> {
    [StartRound(R1), RegisterRound(Plan(80, 1), 0),
     DrainReady(2 * SECOND, 3 * SECOND), StartRound(R2), RegisterRound(Plan(1, 1), 3 * SECOND),
     Deliver(Overloaded(), 5 * SECOND), Deliver(Recovered(), 5 * SECOND),
     DrainReady(2 * SECOND, 6 * SECOND), StartRound(R3), RegisterRound(Plan(40, 1), 6 * SECOND),
     Deliver(Probed(), 7 * SECOND),
     DrainReady(2 * SECOND, 9 * SECOND)]
  }

  function Silent(): Aggregate { Empty(R1, 1, 0).Plan(80, 1, 80) }
  function Late(): Aggregate { Empty(R1, 0, 5 * SECOND).Add(Overloaded()) }
  function Recovery(): Aggregate { Empty(R2, 1, 3 * SECOND).Plan(1, 1, 1) }
  function Probe(): Aggregate { Empty(R3, 1, 6 * SECOND).Plan(40, 1, 40) }

  /** The system before the k-th action of the run, and at its end. */
  function StateAt(k: nat): System
    requires k <= 12
  {
    var ramping := Fresh(LIMITS);
    var recovering := Controller(LIMITS, Recovering, None, Some(80));
    var probing := Controller(LIMITS, Probing, Some(1), Some(80));
    var rounds1 := map[R1 := Round(80, Some(Plan(80, 1)))];
    var rounds2 := rounds1[R2 := Round(1, Some(Plan(1, 1)))];
    var rounds3 := rounds2[R3 := Round(40, Some(Plan(40, 1)))];
    var log1 := Observations([Silent()]);
    var log2 := log1 + Observations([Recovery().Add(Recovered())]);
    var log3 := log2 + Observations([Late(), Probe().Add(Probed())]);
    var none := Tracker(map[], []);
    if k == 0 then Initial(LIMITS)
    else if k == 1 then System(ramping, none, map[R1 := Round(80, None)], Some(R1), [])
    else if k == 2 then System(ramping, Tracker(map[R1 := Silent()], [R1]), rounds1, None, [])
    else if k == 3 then System(recovering, none, rounds1, None, log1)
    else if k == 4 then System(recovering, none, rounds1[R2 := Round(1, None)], Some(R2), log1)
    else if k == 5 then System(recovering, Tracker(map[R2 := Recovery()], [R2]), rounds2, None, log1)
    else if k == 6 then System(recovering, Tracker(map[R2 := Recovery(), R1 := Late()], [R2, R1]), rounds2, None, log1)
    else if k == 7 then
      System(recovering, Tracker(map[R2 := Recovery().Add(Recovered()), R1 := Late()], [R2, R1]), rounds2, None, log1)
    else if k == 8 then System(probing, Tracker(map[R1 := Late()], [R1]), rounds2, None, log2)
    else if k == 9 then System(probing, Tracker(map[R1 := Late()], [R1]), rounds2[R3 := Round(40, None)], Some(R3), log2)
    else if k == 10 then System(probing, Tracker(map[R1 := Late(), R3 := Probe()], [R1, R3]), rounds3, None, log2)
    else if k == 11 then
      System(probing, Tracker(map[R1 := Late(), R3 := Probe().Add(Probed())], [R1, R3]), rounds3, None, log2)
    else System(Controller(LIMITS, Settled, Some(40), Some(0)), none, rounds3, None, log3)
  }

  ghost predicate Steps(k: nat)
    requires k < 12 == |StrandingRun()|
  {
    var s, a := StateAt(k), StrandingRun()[k];
    && s.controller.Valid() && Enabled(s, a) && Do(s, a) == StateAt(k + 1)
    && TruthfulAction(s, a, CAPACITY, _ => Timeouts, false)
  }

  lemma StartsStep()
    ensures Steps(0) && Steps(3) && Steps(8)
  {
    hide Aggregate.Add, Aggregate.Plan, Aggregate.Observation;
  }

  lemma FirstRegisters()
    ensures Steps(1)
  {
    hide Aggregate.Add, Aggregate.Observation;
  }

  lemma RecoveryRegisters()
    ensures Steps(4)
  {
    hide Aggregate.Add, Aggregate.Observation;
  }

  lemma ProbeRegisters()
    ensures Steps(9)
  {
    hide Aggregate.Add, Aggregate.Observation;
  }

  lemma IsObserved(log: seq<LoadObservation>, i: nat)
    requires i < |log|
    ensures Observed(log, log[i].roundId)
  {
  }

  lemma LateIsDelivered()
    ensures Steps(5)
  {
    ObservationKeepsId(Silent());
    hide Aggregate.Add, Aggregate.Observation, Aggregate.Plan;
    IsObserved(Observations([Silent()]), 0);
  }

  lemma RecoveryIsDelivered()
    ensures Steps(6)
  {
    hide Aggregate.Add, Aggregate.Observation, Aggregate.Plan;
  }

  lemma ProbeIsDelivered()
    ensures Steps(10)
  {
    hide Aggregate.Add, Aggregate.Observation, Aggregate.Plan;
  }

  // ---- The drains of the run

  lemma OneDrains(a: Aggregate, staleAfter: int, now: int)
    requires a.Ready(staleAfter, now)
    ensures Tracker(map[a.roundId := a], [a.roundId]).Drain(staleAfter, now) == (Tracker(map[], []), [a])
  {
    var t := Tracker(map[a.roundId := a], [a.roundId]);
    var rest := Tracker(t.rounds - {a.roundId}, t.order[1..]);
    DrainTurn(t, staleAfter, now);
    NothingToDrain(rest, staleAfter, now);
    assert rest == Tracker(map[], []);
    assert [a] + [] == [a];
  }

  lemma TwoDrain(a: Aggregate, b: Aggregate, staleAfter: int, now: int)
    requires a.roundId != b.roundId && a.Ready(staleAfter, now)
    ensures var t := Tracker(map[a.roundId := a, b.roundId := b], [a.roundId, b.roundId]);
            if b.Ready(staleAfter, now) then t.Drain(staleAfter, now) == (Tracker(map[], []), [a, b])
            else t.Drain(staleAfter, now) == (Tracker(map[b.roundId := b], [b.roundId]), [a])
  {
    hide Tracker.Drain;
    var t := Tracker(map[a.roundId := a, b.roundId := b], [a.roundId, b.roundId]);
    var rest := Tracker(map[b.roundId := b], [b.roundId]);
    DrainTurn(t, staleAfter, now);
    assert Tracker(t.rounds - {a.roundId}, t.order[1..]) == rest;
    if b.Ready(staleAfter, now) {
      OneDrains(b, staleAfter, now);
      assert [a] + [b] == [a, b];
    } else {
      DrainTurn(rest, staleAfter, now);
      assert [a] + [] == [a];
    }
  }

  lemma RunOne(c: Controller, a: Aggregate)
    ensures Run(c, Verdicts(c.limits, Observations([a]))) == c.Step(VerdictOf(c.limits, a.Observation()))
  {
    hide Controller.Step, Aggregate.Observation, VerdictOf;
    var v := VerdictOf(c.limits, a.Observation());
    assert Verdicts(c.limits, Observations([a])) == [v] + [];
    RunFirst(c, v, []);
  }

  lemma RunTwo(c: Controller, a: Aggregate, b: Aggregate)
    ensures Run(c, Verdicts(c.limits, Observations([a, b]))) ==
            c.Step(VerdictOf(c.limits, a.Observation())).Step(VerdictOf(c.limits, b.Observation()))
  {
    hide Controller.Step, Aggregate.Observation, VerdictOf;
    var v, w := VerdictOf(c.limits, a.Observation()), VerdictOf(c.limits, b.Observation());
    assert Verdicts(c.limits, Observations([a, b])) == [v] + ([w] + []);
    RunFirst(c, v, [w] + []);
    RunFirst(c.Step(v), w, []);
  }

  lemma VerdictsOfRun()
    ensures VerdictOf(LIMITS, Silent().Observation()) == Verdict(true, 80)
    ensures VerdictOf(LIMITS, Recovery().Add(Recovered()).Observation()) == Verdict(false, 1)
    ensures VerdictOf(LIMITS, Late().Observation()) == Verdict(true, 0)
    ensures VerdictOf(LIMITS, Probe().Add(Probed()).Observation()) == Verdict(false, 40)
  {
    TimeoutRatioReachesHalf(Silent().Observation());
    TimeoutRatioReachesHalf(Recovery().Add(Recovered()).Observation());
    TimeoutRatioReachesHalf(Late().Observation());
    TimeoutRatioReachesHalf(Probe().Add(Probed()).Observation());
  }

  lemma ReadyAtThree()
    ensures Silent().roundId == R1 && Silent().Ready(2 * SECOND, 3 * SECOND)
    ensures Silent().Silent() && Silent().totalRps == 80
    ensures Fresh(LIMITS).Step(Verdict(true, 80)) == StateAt(3).controller
    ensures StateAt(2).controller == Fresh(LIMITS) && Fresh(LIMITS).Valid() && Fresh(LIMITS).limits == LIMITS
  {
    hide Aggregate.Observation, Aggregate.Add;
  }

  lemma SilentDrains()
    ensures Steps(2)
  {
    hide Tracker.Drain, Run, Aggregate.Observation, VerdictOf, Aggregate.Add, Aggregate.Plan, Aggregate.Silent, Aggregate.Ready,
      Controller.Step, Controller.Valid, Fresh;
    VerdictsOfRun();
    ReadyAtThree();
    OneDrains(Silent(), 2 * SECOND, 3 * SECOND);
    RunOne(Fresh(LIMITS), Silent());
  }

  lemma ReadyAtSix()
    ensures Late().roundId == R1 && !Late().Ready(2 * SECOND, 6 * SECOND)
    ensures var a := Recovery().Add(Recovered());
            a.roundId == R2 && a.Ready(2 * SECOND, 6 * SECOND) && !a.Silent() && a.totalRps == 1
    ensures R1 != R2
    ensures StateAt(7).controller.Step(Verdict(false, 1)) == StateAt(8).controller
    ensures StateAt(7).controller.Valid() && StateAt(7).controller.limits == LIMITS
  {
    hide Aggregate.Observation;
  }

  lemma RecoveryDrains()
    ensures Steps(7)
  {
    hide Tracker.Drain, Run, Aggregate.Observation, VerdictOf, Aggregate.Add, Aggregate.Plan, Aggregate.Silent, Aggregate.Ready,
      Controller.Step, Controller.Valid;
    VerdictsOfRun();
    ReadyAtSix();
    TwoDrain(Recovery().Add(Recovered()), Late(), 2 * SECOND, 6 * SECOND);
    RunOne(StateAt(7).controller, Recovery().Add(Recovered()));
  }

  lemma ReadyAtNine()
    ensures Late().roundId == R1 && Late().Ready(2 * SECOND, 9 * SECOND)
    ensures !Late().Silent() && Late().totalRps == 0
    ensures var a := Probe().Add(Probed());
            a.roundId == R3 && a.Ready(2 * SECOND, 9 * SECOND) && !a.Silent() && a.totalRps == 40
    ensures R1 != R3
  {
  }

  /** The late failure is read at rate zero; the probe's own pass then only settles the search. */
  lemma LateFailureThenPass()
    ensures StateAt(11).controller.Valid() && StateAt(11).controller.limits == LIMITS
    ensures StateAt(11).controller.Step(Verdict(true, 0)).Step(Verdict(false, 40)) == StateAt(12).controller
  {
    hide Aggregate.Observation, Aggregate.Add, Aggregate.Plan;
  }

  lemma ProbeDrains()
    ensures Steps(11)
  {
    hide Tracker.Drain, Run, Aggregate.Observation, VerdictOf, Aggregate.Add, Aggregate.Plan, Aggregate.Silent, Aggregate.Ready,
      Controller.Step, Controller.Valid;
    VerdictsOfRun();
    ReadyAtNine();
    LateFailureThenPass();
    TwoDrain(Late(), Probe().Add(Probed()), 2 * SECOND, 9 * SECOND);
    RunTwo(StateAt(11).controller, Late(), Probe().Add(Probed()));
  }

  lemma AllSteps(k: nat)
    requires k < 12 == |StrandingRun()|
    ensures Steps(k)
  {
    hide *;
    StartsStep();
    FirstRegisters();
    SilentDrains();
    RecoveryRegisters();
    LateIsDelivered();
    RecoveryIsDelivered();
    RecoveryDrains();
    ProbeRegisters();
    ProbeIsDelivered();
    ProbeDrains();
  }

  lemma {:induction false} RunReaches(k: nat)
    requires k <= 12 == |StrandingRun()|
    ensures LIMITS.Valid() && Reached(LIMITS, StrandingRun()[..k]) == Some(StateAt(k))
  {
    hide Invariant, StateAt, TruthfulAction, Enabled, Do, StrandingRun;
    if k == 0 {
      InitialState();
    } else {
      RunReaches(k - 1);
      AllSteps(k - 1);
      assert StrandingRun()[..k][..k - 1] == StrandingRun()[..k - 1];
    }
  }

  lemma InitialState()
    ensures StateAt(0) == Initial(LIMITS)
  {
  }

  lemma RunIsTruthful()
    requires |StrandingRun()| == 12
    ensures LIMITS.Valid() && TruthfulRun(LIMITS, StrandingRun(), CAPACITY, _ => Timeouts, false)
  {
    hide Invariant, StateAt, TruthfulAction, Enabled, Do, StrandingRun, Reached;
    forall k | 0 <= k < 12
      ensures Reached(LIMITS, StrandingRun()[..k]) == Some(StateAt(k))
      ensures TruthfulAction(StateAt(k), StrandingRun()[k], CAPACITY, _ => Timeouts, false)
    {
      RunReaches(k);
      AllSteps(k);
    }
  }

  /** In this run every report tells the truth about a target that carries sixty, and every tick sends a round.  One report
      comes late; it is drained while a probe at forty is awaited, and the controller settles at forty, more than nine
      below the capacity, for as long as forty passes. */
  lemma LateReportStrandsTheController()
    ensures LIMITS.Valid()
    ensures TruthfulRun(LIMITS, StrandingRun(), CAPACITY, _ => Timeouts, false)
    ensures var r := Reached(LIMITS, StrandingRun());
            && r.Some?
            && var c := r.value.controller;
               && c.mode.Settled? && c.Next() == 40 && c.Next() + GRANULARITY - 1 < CAPACITY
               && c.worst == Some(0) && c.Step(Verdict(false, 40)) == c
  {
    hide Invariant, Reached, TruthfulRun, Observations;
    RunLength();
    RunIsTruthful();
    RunReaches(12);
    assert StrandingRun()[..12] == StrandingRun();
  }

  lemma RunLength()
    ensures |StrandingRun()| == 12
  {
  }
}
