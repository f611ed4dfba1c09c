/** What a slow report does: its round goes stale before it comes, and is read without it.  Two short runs show both ways
    in which that drives the bounds off the capacity, although every report tells the truth and no round is observed twice. */
module SlowReports {
  import opened Wrappers
  import opened Types
  import opened LoadController
  import opened ControllerRuns
  import opened RoundReports
  import opened Pipeline
  import opened EndToEnd
  import opened LateReports

  const CLIMBING: Limits := Limits(40, 100, 0)

  const ROUND: string := "round-1"

  /** The first round, at forty, and the drain at which it is stale. */
  function Sent(jobs: nat): seq<Action> { [StartRound(ROUND), RegisterRound(Plan(40, jobs), 0)] }
  function Stale(): Action { DrainReady(2 * SECOND, 3 * SECOND) }

  /** Of fifty workers, ten get no request at that rate. */
  function NothingToDo(): JobReport { JobReport("job-50", ROUND, 0, 0, 0, 0, 0, []) }

  function Planned(jobs: nat): Aggregate { Empty(ROUND, jobs, 0).Plan(40, jobs, 40) }

  function InFlight(jobs: nat, a: Aggregate): System {
    System(Fresh(CLIMBING), Tracker(map[ROUND := a], [ROUND]), map[ROUND := Round(40, Some(Plan(40, jobs)))], None, [])
  }

  lemma ReachedNext(limits: Limits, actions: seq<Action>, a: Action)
    requires limits.Valid() && Reached(limits, actions).Some? && Enabled(Reached(limits, actions).value, a)
    ensures Reached(limits, actions + [a]) == Some(Do(Reached(limits, actions).value, a))
  {
    hide Enabled, Do, Invariant;
    assert (actions + [a])[..|actions|] == actions;
  }

  function Started(): System {
    System(Fresh(CLIMBING), Tracker(map[], []), map[ROUND := Round(40, None)], Some(ROUND), [])
  }

  lemma RoundStarts()
    ensures CLIMBING.Valid() && Fresh(CLIMBING).Valid()
    ensures Enabled(Initial(CLIMBING), StartRound(ROUND)) && Do(Initial(CLIMBING), StartRound(ROUND)) == Started()
  {
  }

  lemma RoundIsRegistered(jobs: nat)
    ensures Started().controller.Valid()
    ensures var a := RegisterRound(Plan(40, jobs), 0);
            Enabled(Started(), a) && Do(Started(), a) == InFlight(jobs, Planned(jobs))
  {
  }

  lemma SentReaches(jobs: nat)
    ensures CLIMBING.Valid() && Reached(CLIMBING, Sent(jobs)) == Some(InFlight(jobs, Planned(jobs)))
  {
    RoundStarts();
    RoundIsRegistered(jobs);
    hide Invariant, Do, Enabled, InFlight, Planned, Started, Fresh;
    assert Reached(CLIMBING, []) == Some(Initial(CLIMBING));
    ReachedNext(CLIMBING, [], StartRound(ROUND));
    assert [] + [StartRound(ROUND)] == [StartRound(ROUND)];
    ReachedNext(CLIMBING, [StartRound(ROUND)], RegisterRound(Plan(40, jobs), 0));
    assert Sent(jobs) == [StartRound(ROUND)] + [RegisterRound(Plan(40, jobs), 0)];
  }

  /** Draining the only round, stale, in flight. */
  lemma StaleIsRead(jobs: nat, a: Aggregate)
    requires a.roundId == ROUND && a.createdAt == 0
    ensures Fresh(CLIMBING).Valid() && Enabled(InFlight(jobs, a), Stale())
    ensures Do(InFlight(jobs, a), Stale()).controller == Fresh(CLIMBING).Step(VerdictOf(CLIMBING, a.Observation()))
    ensures Do(InFlight(jobs, a), Stale()).log == [a.Observation()]
  {
    RoundStarts();
    assert a.Ready(2 * SECOND, 3 * SECOND);
    hide Tracker.Drain, Run, Aggregate.Observation, VerdictOf, Aggregate.Ready, Controller.Step, Controller.Valid;
    OneDrains(a, 2 * SECOND, 3 * SECOND);
    RunOne(Fresh(CLIMBING), a);
    assert Observations([a]) == [a.Observation()];
  }

  // ---- No report in time

  /** The target carries sixty, but the one report on the first round, at forty, is slow.  The round is read as unanswered, forty
      becomes the lowest failing rate, and it never rises again, so no rate above forty is ever found. */
  lemma UnansweredRoundHidesTheCapacity(vs: seq<Verdict>)
    ensures CLIMBING.Valid() && TruthfulRun(CLIMBING, Sent(1) + [Stale()], 60, _ => Timeouts, true)
    ensures var r := Reached(CLIMBING, Sent(1) + [Stale()]);
            && r.Some? && |r.value.log| == 1
            && var c := r.value.controller;
               && !Encloses(c, 60) && c.worst == Some(40)
               && Run(c, vs).worst.Some? && Run(c, vs).worst.value <= 40
  {
    hide Invariant, Do, Enabled, InFlight, Planned, Run, TruthfulRun, Controller.Valid, Controller.Step, Fresh, Reached,
      Aggregate.Observation, VerdictOf;
    SentReaches(1);
    UnansweredVerdict();
    StaleIsRead(1, Planned(1));
    ReachedNext(CLIMBING, Sent(1), Stale());
    BoundsTighten(Reached(CLIMBING, Sent(1) + [Stale()]).value.controller, vs);
    NothingDeliveredIsTruthful(CLIMBING, Sent(1) + [Stale()], 60);
  }

  lemma UnansweredVerdict()
    ensures Planned(1).roundId == ROUND && Planned(1).createdAt == 0
    ensures VerdictOf(CLIMBING, Planned(1).Observation()) == Verdict(true, 40)
    ensures Fresh(CLIMBING).Step(Verdict(true, 40)) == Controller(CLIMBING, Recovering, None, Some(40))
  {
    TimeoutRatioReachesHalf(Planned(1).Observation());
  }

  lemma NothingDeliveredIsTruthful(limits: Limits, actions: seq<Action>, capacity: int)
    requires limits.Valid() && forall k :: 0 <= k < |actions| ==> !actions[k].Deliver?
    ensures TruthfulRun(limits, actions, capacity, _ => Timeouts, true)
  {
    hide Reached, TruthfulAction;
    forall k | 0 <= k < |actions| && Reached(limits, actions[..k]).Some?
      ensures TruthfulAction(Reached(limits, actions[..k]).value, actions[k], capacity, _ => Timeouts, true)
    {
      OnlyReportsTell(Reached(limits, actions[..k]).value, actions[k], capacity, _ => Timeouts, true);
    }
  }

  lemma OnlyReportsTell(s: System, a: Action, capacity: int, symptom: string -> Symptom, late: bool)
    requires !a.Deliver?
    ensures TruthfulAction(s, a, capacity, symptom, late)
  {
  }

  // ---- A report in time, but from a job that had nothing to do

  /** The target carries twenty-five.  When the first round, at forty, goes stale, only a job without requests has
      reported: the round is not unanswered, nothing has timed out, and it passes. */
  lemma EmptyReportHidesTheOverload()
    ensures var actions := Sent(50) + [Deliver(NothingToDo(), SECOND)] + [Stale()];
            && CLIMBING.Valid() && TruthfulRun(CLIMBING, actions, 25, _ => Timeouts, true)
            && var r := Reached(CLIMBING, actions);
               && r.Some? && |r.value.log| == 1
               && !Encloses(r.value.controller, 25) && r.value.controller.best == Some(40)
               && r.value.controller.Next() == 80
  {
    hide Invariant, Do, Enabled, InFlight, Planned, Aggregate.Add, TruthfulRun, Reached, Aggregate.Observation, VerdictOf,
      Controller.Step, Fresh, Sent, NothingToDo, TruthfulAction, ProbeRate, RampRate;
    var a := Planned(50).Add(NothingToDo());
    var front := Sent(50) + [Deliver(NothingToDo(), SECOND)];
    SentReaches(50);
    EmptyReportIsDelivered();
    EmptyReportPasses();
    StaleIsRead(50, a);
    EmptyRunIsTruthful();
    ReachedNext(CLIMBING, Sent(50), Deliver(NothingToDo(), SECOND));
    ReachedNext(CLIMBING, front, Stale());
  }

  lemma EmptyReportIsDelivered()
    ensures var s, d := InFlight(50, Planned(50)), Deliver(NothingToDo(), SECOND);
            && s.controller.Valid() && Enabled(s, d)
            && Do(s, d) == InFlight(50, Planned(50).Add(NothingToDo()))
            && TruthfulAction(s, d, 25, _ => Timeouts, true)
  {
    NothingTells(0, Timeouts, true);
    NothingTells(0, Timeouts, false);
    hide Aggregate.Add, Aggregate.Plan, Tells;
  }

  lemma EmptyReportPasses()
    ensures var a := Planned(50).Add(NothingToDo());
            && a.roundId == ROUND && a.createdAt == 0
            && VerdictOf(CLIMBING, a.Observation()) == Verdict(false, 40)
    ensures Fresh(CLIMBING).Step(Verdict(false, 40)) == Controller(CLIMBING, Ramping(80), Some(40), None)
  {
    TimeoutRatioReachesHalf(Planned(50).Add(NothingToDo()).Observation());
  }

  lemma EmptyRunIsTruthful()
    ensures CLIMBING.Valid()
    ensures TruthfulRun(CLIMBING, Sent(50) + [Deliver(NothingToDo(), SECOND)] + [Stale()], 25, _ => Timeouts, true)
  {
    hide Invariant, Reached, InFlight, Planned, NothingToDo, Do, TruthfulAction;
    SentReaches(50);
    EmptyReportIsDelivered();
    var actions := Sent(50) + [Deliver(NothingToDo(), SECOND)] + [Stale()];
    assert actions[..2] == Sent(50);
    forall k | 0 <= k < |actions| && Reached(CLIMBING, actions[..k]).Some?
      ensures TruthfulAction(Reached(CLIMBING, actions[..k]).value, actions[k], 25, _ => Timeouts, true)
    {
      if k != 2 {
        OnlyReportsTell(Reached(CLIMBING, actions[..k]).value, actions[k], 25, _ => Timeouts, true);
      }
    }
  }
}
