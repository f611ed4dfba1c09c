/** The loop with one round in flight, as runs of the pipeline: a tick every second, one job a round, and every report comes
    between the tick that sends the next round and the one after it.  All reports are truthful and none is late, and yet such
    runs need not settle. */
module OneBehindRuns {
  import opened Wrappers
  import opened Types
  import opened LoadController
  import opened ControllerRuns
  import opened Percentile
  import opened RoundReports
  import opened Pipeline
  import opened EndToEnd
  import opened LateReports
  import opened SlowReports
  import Behind = OneBehind

  // ---- Rounds and their reports

  /** The id of the n-th round. */
  function Id(n: nat): (id: string)
    ensures |id| == n + 1
  {
    seq(n + 1, _ => 'r')
  }

  /** The report of a round's one job: within the capacity all requests succeed at once, above it all time out. */
  function Report(id: string, rate: nat, capacity: nat): JobReport {
    var timeouts := if rate > capacity then rate else 0;
    JobReport("job", id, rate, rate, rate - timeouts, timeouts, timeouts, seq(rate, _ => 0))
  }

  function Awaited(id: string, rate: nat, at: int): Aggregate { Empty(id, 1, at).Plan(rate, 1, rate) }

  lemma {:induction false} InstantIsNotSlow(samples: seq<int>, limit: int)
    requires limit > 0 && forall i :: 0 <= i < |samples| ==> samples[i] == 0
    ensures AtMost(samples, limit) == |samples|
  {
    if samples != [] {
      InstantIsNotSlow(samples[1..], limit);
    }
  }

  lemma ReportIsTruthful(id: string, rate: nat, capacity: nat, limit: int)
    ensures ReportTells(Report(id, rate, capacity), limit, Timeouts, rate > capacity)
  {
    if limit > 0 {
      InstantIsNotSlow(Report(id, rate, capacity).latencyMillis, limit);
    }
  }

  /** A round whose report has come is complete, timely, and read for what it is. */
  lemma AnsweredIsRead(id: string, rate: nat, at: int, capacity: nat, limits: Limits)
    ensures var a := Awaited(id, rate, at).Add(Report(id, rate, capacity));
            && a.roundId == id && a.Complete()
            && VerdictOf(limits, a.Observation()) == Behind.Read(rate, capacity)
            && a.Observation().roundId == id && a.Observation().totalRps == rate
            && (if rate > capacity then Shown(a.Observation(), limits.maxLatencyMillis, Timeouts) else !Unanswered(a.Observation()))
  {
    hide ReportTells, Tells, TooSlow, P99Latency, Breached;
    var before, a := Awaited(id, rate, at), Awaited(id, rate, at).Add(Report(id, rate, capacity));
    ReportIsTruthful(id, rate, capacity, limits.maxLatencyMillis);
    NothingTells(limits.maxLatencyMillis, Timeouts, rate > capacity);
    AddKeepsTelling(before, Report(id, rate, capacity), limits.maxLatencyMillis, Timeouts, rate > capacity);
    RoundTells(a, limits, Timeouts, rate > capacity);
  }

  // ---- One more action

  ghost predicate IsRun(limits: Limits, actions: seq<Action>, capacity: nat, s: System) {
    && limits.Valid()
    && Reached(limits, actions) == Some(s)
    && TruthfulRun(limits, actions, capacity, _ => Timeouts, true)
  }

  lemma RunGrows(limits: Limits, actions: seq<Action>, capacity: nat, s: System, a: Action)
    requires IsRun(limits, actions, capacity, s) && Enabled(s, a) && TruthfulAction(s, a, capacity, _ => Timeouts, true)
    ensures s.controller.Valid() && IsRun(limits, actions + [a], capacity, Do(s, a))
  {
    ReachedNext(limits, actions, a);
    hide Invariant, Reached, TruthfulAction, Do, Enabled;
    var more := actions + [a];
    forall k | 0 <= k < |more| && Reached(limits, more[..k]).Some?
      ensures TruthfulAction(Reached(limits, more[..k]).value, more[k], capacity, _ => Timeouts, true)
    {
      assert more[..k] == actions[..k];
      assert k == |actions| ==> actions[..k] == actions;
    }
  }

  /** Sending a round and registering it. */
  lemma RunSends(limits: Limits, actions: seq<Action>, capacity: nat, s: System, id: string, at: int)
    returns (t: System)
    requires IsRun(limits, actions, capacity, s) && s.sending.None?
    requires id != "" && id !in s.rounds && id !in s.tracker.rounds
    ensures s.controller.Valid()
    ensures IsRun(limits, actions + [StartRound(id)] + [RegisterRound(Plan(s.controller.Next(), 1), at)], capacity, t)
    ensures var rate := s.controller.Next();
            t == s.(rounds := s.rounds[id := Round(rate, Some(Plan(rate, 1)))],
                    tracker := Tracker(s.tracker.rounds[id := Awaited(id, rate, at)], s.tracker.order + [id]))
  {
    hide Invariant, Reached, TruthfulRun, Controller.Valid, IsRun;
    IsRunIsValid(limits, actions, capacity, s);
    var rate := s.controller.Next();
    var start, register := StartRound(id), RegisterRound(Plan(rate, 1), at);
    RunGrows(limits, actions, capacity, s, start);
    var u := Do(s, start);
    RunGrows(limits, actions + [start], capacity, u, register);
    t := Do(u, register);
  }

  lemma IsRunIsValid(limits: Limits, actions: seq<Action>, capacity: nat, s: System)
    requires IsRun(limits, actions, capacity, s)
    ensures limits.Valid() && s.controller.Valid() && s.controller.limits == limits
  {
  }

  // ---- The tick

  /** The system n ticks after the first round was followed by the second: one round is due, and one in flight. */
  ghost predicate Mirrors(s: System, limits: Limits, capacity: nat, n: nat)
    requires limits.Valid()
  {
    var f := Behind.After(Behind.Start(limits), capacity, n);
    var next := f.controller.Next();
    && s.controller == f.controller && s.sending.None?
    && s.tracker == Tracker(map[Id(n) := Awaited(Id(n), f.due, n * SECOND), Id(n + 1) := Awaited(Id(n + 1), next, (n + 1) * SECOND)],
                            [Id(n), Id(n + 1)])
    && Id(n) in s.rounds && s.rounds[Id(n)].rate == f.due
    && Id(n + 1) in s.rounds && s.rounds[Id(n + 1)].rate == next
    && (forall id :: id in s.rounds ==> |id| <= n + 2)
    && (forall i :: 0 <= i < |s.log| ==> |s.log[i].roundId| <= n)
    && Timely(s.log, limits, capacity, _ => Timeouts)
  }

  lemma DueIsUnobserved(s: System, limits: Limits, capacity: nat, n: nat)
    requires limits.Valid() && Mirrors(s, limits, capacity, n)
    ensures !Observed(s.log, Id(n))
  {
    hide Timely;
  }

  /** The report on the round that is due. */
  lemma DueIsReported(limits: Limits, actions: seq<Action>, capacity: nat, s: System, n: nat) returns (t: System)
    requires limits.Valid() && IsRun(limits, actions, capacity, s) && Mirrors(s, limits, capacity, n)
    ensures var due := Behind.After(Behind.Start(limits), capacity, n).due;
            var answered := Awaited(Id(n), due, n * SECOND).Add(Report(Id(n), due, capacity));
            && IsRun(limits, actions + [Deliver(Report(Id(n), due, capacity), (n + 2) * SECOND)], capacity, t)
            && t == s.(tracker := s.tracker.(rounds := s.tracker.rounds[Id(n) := answered]))
  {
    hide Invariant, Reached, TruthfulRun, Controller.Valid, IsRun, Behind.After, Aggregate.Add, Awaited, Timely, ReportTells;
    IsRunIsValid(limits, actions, capacity, s);
    var due := Behind.After(Behind.Start(limits), capacity, n).due;
    var deliver := Deliver(Report(Id(n), due, capacity), (n + 2) * SECOND);
    DueIsUnobserved(s, limits, capacity, n);
    ReportIsTruthful(Id(n), due, capacity, limits.maxLatencyMillis);
    RunGrows(limits, actions, capacity, s, deliver);
    t := Do(s, deliver);
  }

  /** A drain takes the answered round and leaves the younger one in flight. */
  lemma AnsweredIsDrained(a: Aggregate, b: Aggregate, c: Controller, now: int)
    requires a.roundId != b.roundId && a.Complete() && !b.Ready(2 * SECOND, now)
    ensures var t := Tracker(map[a.roundId := a, b.roundId := b], [a.roundId, b.roundId]);
            t.Drain(2 * SECOND, now) == (Tracker(map[b.roundId := b], [b.roundId]), [a])
    ensures Run(c, Verdicts(c.limits, Observations([a]))) == c.Step(VerdictOf(c.limits, a.Observation()))
    ensures Observations([a]) == [a.Observation()]
  {
    hide Tracker.Drain, Run, Aggregate.Observation, VerdictOf, Controller.Step;
    TwoDrain(a, b, 2 * SECOND, now);
    RunOne(c, a);
  }

  /** The drain at the next tick. */
  lemma DueIsRead(limits: Limits, actions: seq<Action>, capacity: nat, s: System, n: nat, a: Aggregate, b: Aggregate)
    returns (t: System)
    requires IsRun(limits, actions, capacity, s) && s.sending.None?
    requires s.tracker == Tracker(map[a.roundId := a, b.roundId := b], [a.roundId, b.roundId])
    requires a.roundId != b.roundId && a.Complete() && !b.Ready(2 * SECOND, (n + 2) * SECOND)
    ensures IsRun(limits, actions + [DrainReady(2 * SECOND, (n + 2) * SECOND)], capacity, t) && s.controller.limits == limits
    ensures t == s.(tracker := Tracker(map[b.roundId := b], [b.roundId]),
                    controller := s.controller.Step(VerdictOf(limits, a.Observation())),
                    log := s.log + [a.Observation()])
  {
    hide Invariant, Reached, TruthfulRun, Controller.Valid, IsRun, Tracker.Drain, Run, Aggregate.Observation, Aggregate.Complete,
      Aggregate.Ready, VerdictOf, Controller.Step, Observations, Verdicts;
    IsRunIsValid(limits, actions, capacity, s);
    AnsweredIsDrained(a, b, s.controller, (n + 2) * SECOND);
    var drain := DrainReady(2 * SECOND, (n + 2) * SECOND);
    RunGrows(limits, actions, capacity, s, drain);
    t := Do(s, drain);
  }

  /** What happens in the pipeline in a second: the report on the round that is due, and a tick. */
  function Second(limits: Limits, capacity: nat, n: nat): seq<Action>
    requires limits.Valid()
  {
    var f, g := Behind.After(Behind.Start(limits), capacity, n), Behind.After(Behind.Start(limits), capacity, n + 1);
    [Deliver(Report(Id(n), f.due, capacity), (n + 2) * SECOND),
     DrainReady(2 * SECOND, (n + 2) * SECOND), StartRound(Id(n + 2)),
     RegisterRound(Plan(g.controller.Next(), 1), (n + 2) * SECOND)]
  }

  /** A second of the pipeline is a tick of the loop. */
  lemma SecondIsTick(limits: Limits, actions: seq<Action>, capacity: nat, s: System, n: nat) returns (u: System)
    requires limits.Valid() && IsRun(limits, actions, capacity, s) && Mirrors(s, limits, capacity, n)
    ensures IsRun(limits, actions + Second(limits, capacity, n), capacity, u) && Mirrors(u, limits, capacity, n + 1)
  {
    hide Invariant, Reached, TruthfulRun, Controller.Valid, IsRun, Aggregate.Observation, Aggregate.Add, Aggregate.Complete,
      VerdictOf, Controller.Step, Controller.Next, Shown, Unanswered, Behind.Read, Behind.Start;
    IsRunIsValid(limits, actions, capacity, s);
    var f := Behind.After(Behind.Start(limits), capacity, n);
    var next := f.controller.Next();
    var a := Awaited(Id(n), f.due, n * SECOND).Add(Report(Id(n), f.due, capacity));
    var b := Awaited(Id(n + 1), next, (n + 1) * SECOND);
    AnsweredIsRead(Id(n), f.due, n * SECOND, capacity, limits);
    AwaitedIsYoung(Id(n + 1), next, (n + 1) * SECOND, (n + 2) * SECOND);
    var deliver, drain := Deliver(Report(Id(n), f.due, capacity), (n + 2) * SECOND), DrainReady(2 * SECOND, (n + 2) * SECOND);
    var t := DueIsReported(limits, actions, capacity, s, n);
    t := DueIsRead(limits, actions + [deliver], capacity, t, n, a, b);
    u := RunSends(limits, actions + [deliver] + [drain], capacity, t, Id(n + 2), (n + 2) * SECOND);
    var start, register := StartRound(Id(n + 2)), RegisterRound(Plan(t.controller.Next(), 1), (n + 2) * SECOND);
    assert actions + Second(limits, capacity, n) == actions + [deliver] + [drain] + [start] + [register];
  }

  lemma AwaitedIsYoung(id: string, rate: nat, at: int, now: int)
    requires now < at + 2 * SECOND
    ensures !Awaited(id, rate, at).Ready(2 * SECOND, now) && Awaited(id, rate, at).roundId == id
  {
  }

  // ---- Runs of any length

  /** The first two ticks, at zero and one seconds, and n more. */
  function Ticks(limits: Limits, capacity: nat, n: nat): seq<Action>
    requires limits.Valid()
  {
    if n == 0 then
      var plan := Plan(Fresh(limits).Next(), 1);
      [DrainReady(2 * SECOND, 0), StartRound(Id(0)), RegisterRound(plan, 0),
       DrainReady(2 * SECOND, SECOND), StartRound(Id(1)), RegisterRound(plan, SECOND)]
    else Ticks(limits, capacity, n - 1) + Second(limits, capacity, n - 1)
  }

  lemma NothingIsDrained(limits: Limits, actions: seq<Action>, capacity: nat, s: System, at: int)
    requires IsRun(limits, actions, capacity, s) && s.sending.None?
    requires s.tracker.order == [] ||
             (s.tracker.order[0] in s.tracker.rounds && !s.tracker.rounds[s.tracker.order[0]].Ready(2 * SECOND, at))
    ensures IsRun(limits, actions + [DrainReady(2 * SECOND, at)], capacity, s)
  {
    hide Invariant, Reached, TruthfulRun, Controller.Valid, IsRun, Tracker.Drain, VerdictOf, Aggregate.Ready, Aggregate.Observation;
    IsRunIsValid(limits, actions, capacity, s);
    RunGrows(limits, actions, capacity, s, DrainReady(2 * SECOND, at));
    if s.tracker.order == [] {
      NothingToDrain(s.tracker, 2 * SECOND, at);
    } else {
      DrainTurn(s.tracker, 2 * SECOND, at);
    }
    assert Verdicts(s.controller.limits, Observations([])) == [] && s.log + [] == s.log;
    assert Do(s, DrainReady(2 * SECOND, at)) == s;
  }

  lemma FirstTwoTicks(limits: Limits, capacity: nat) returns (s: System)
    requires limits.Valid()
    ensures IsRun(limits, Ticks(limits, capacity, 0), capacity, s) && Mirrors(s, limits, capacity, 0)
  {
    hide Invariant, Reached, TruthfulRun, Controller.Valid, IsRun, Awaited;
    InitialIsRun(limits, capacity);
    var rate := Fresh(limits).Next();
    var first, second := DrainReady(2 * SECOND, 0), DrainReady(2 * SECOND, SECOND);
    var start, start' := StartRound(Id(0)), StartRound(Id(1));
    var register, register' := RegisterRound(Plan(rate, 1), 0), RegisterRound(Plan(rate, 1), SECOND);
    s := Initial(limits);
    NothingIsDrained(limits, [], capacity, s, 0);
    s := RunSends(limits, [] + [first], capacity, s, Id(0), 0);
    AwaitedIsYoung(Id(0), rate, 0, SECOND);
    NothingIsDrained(limits, [] + [first] + [start] + [register], capacity, s, SECOND);
    s := RunSends(limits, [] + [first] + [start] + [register] + [second], capacity, s, Id(1), SECOND);
    assert [] + [first] + [start] + [register] + [second] + [start'] + [register'] == Ticks(limits, capacity, 0);
  }

  lemma InitialIsRun(limits: Limits, capacity: nat)
    requires limits.Valid()
    ensures IsRun(limits, [], capacity, Initial(limits)) && Fresh(limits).Valid()
  {
  }

  lemma {:induction false} TicksMirror(limits: Limits, capacity: nat, n: nat) returns (s: System)
    requires limits.Valid()
    ensures IsRun(limits, Ticks(limits, capacity, n), capacity, s) && Mirrors(s, limits, capacity, n)
  {
    hide IsRun, Mirrors, Second;
    if n == 0 {
      s := FirstTwoTicks(limits, capacity);
    } else {
      s := TicksMirror(limits, capacity, n - 1);
      s := SecondIsTick(limits, Ticks(limits, capacity, n - 1), capacity, s, n - 1);
    }
  }

  /** For all limits and every capacity there is a run of any length that sends a round each second, whose reports all tell the
      truth and come in time, and whose controller goes through the states of the loop with one round in flight. */
  lemma PipelineRunsOneBehind(limits: Limits, capacity: nat, n: nat)
    requires limits.Valid()
    ensures var actions := Ticks(limits, capacity, n);
            && TruthfulRun(limits, actions, capacity, _ => Timeouts, true)
            && var r := Reached(limits, actions);
               && r.Some? && Timely(r.value.log, limits, capacity, _ => Timeouts)
               && r.value.controller == Behind.After(Behind.Start(limits), capacity, n).controller
  {
    hide Invariant, Reached, TruthfulRun, Timely;
    var s := TicksMirror(limits, capacity, n);
  }

  ghost predicate IsSettled(limits: Limits, capacity: nat, n: nat)
    requires limits.Valid()
  {
    var r := Reached(limits, Ticks(limits, capacity, n));
    r.Some? && r.value.controller.mode.Settled?
  }

  /** So such runs of the pipeline settle exactly under the condition found for that loop. */
  lemma RunsSettleIff(limits: Limits, capacity: nat)
    requires limits.Valid()
    ensures (exists n: nat :: IsSettled(limits, capacity, n)) <==>
            && limits.RecoveryRps() <= capacity < limits.maxRps
            && exists k: nat :: Behind.BreaksAt(limits, capacity, k) && Behind.NoProbeAbove(limits, capacity, k)
  {
    hide Invariant, Reached, TruthfulRun, Timely, Behind.BreaksAt, Behind.NoProbeAbove, Behind.After, Ticks;
    forall n: nat
      ensures IsSettled(limits, capacity, n) <==> Behind.After(Behind.Start(limits), capacity, n).controller.mode.Settled?
    {
      PipelineRunsOneBehind(limits, capacity, n);
    }
    hide IsSettled;
    Behind.BehindSettlesIff(limits, capacity);
    if n: nat :| IsSettled(limits, capacity, n) {
      assert Behind.After(Behind.Start(limits), capacity, n).controller.mode.Settled?;
    }
    if n: nat :| Behind.After(Behind.Start(limits), capacity, n).controller.mode.Settled? {
      assert IsSettled(limits, capacity, n);
    }
  }
}
