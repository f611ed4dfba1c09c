/** The whole feedback loop as an interleaving: the scheduler's goroutine drains, sends a round and
    registers it, while reports for jobs already sent come in at any moment, repeated, late or early. */
module Pipeline {
  import opened Wrappers
  import opened Types
  import opened LoadController
  import opened ControllerRuns
  import opened RoundReports

  /** What a registration announces: how many requests were sent, in how many jobs. */
  datatype Plan = Plan(requests: nat, reports: nat)

  /** A round that has started: its rate, and its plan once it is registered. */
  datatype Round = Round(rate: nat, planned: Option<Plan>)

  datatype System = System(
    controller: Controller,
    tracker: Tracker,
    rounds: map<string, Round>,
    /** The round being sent, not yet registered. */
    sending: Option<string>,
    /** Everything the controller has observed, in order. */
    log: seq<LoadObservation>)

  datatype Action =
    | DrainReady(staleAfter: int, at: int)
    | StartRound(id: string)
    | Deliver(report: JobReport, at: int)
    | RegisterRound(plan: Plan, at: int)

  function Initial(limits: Limits): System {
    System(Fresh(limits), Tracker(map[], []), map[], None, [])
  }

  /** The scheduler drains and starts rounds only between registrations, round ids are fresh, and a report
      answers a job that has been sent. */
  predicate Enabled(s: System, a: Action) {
    match a
    case DrainReady(_, _) => s.sending.None?
    case StartRound(id) => s.sending.None? && id != "" && id !in s.rounds
    case Deliver(report, _) => report.roundId in s.rounds
    case RegisterRound(_, _) => s.sending.Some? && s.sending.value in s.rounds
  }

  function Do(s: System, a: Action): System
    requires s.controller.Valid() && Enabled(s, a)
  {
    match a
    case DrainReady(staleAfter, at) =>
      var (tracker, drained) := s.tracker.Drain(staleAfter, at);
      s.(tracker := tracker,
         controller := Run(s.controller, Verdicts(s.controller.limits, Observations(drained))),
         log := s.log + Observations(drained))
    case StartRound(id) =>
      s.(rounds := s.rounds[id := Round(s.controller.Next(), None)], sending := Some(id))
    case Deliver(report, at) =>
      s.(tracker := s.tracker.Record(report, at))
    case RegisterRound(plan, at) =>
      var id := s.sending.value;
      var rate := s.rounds[id].rate;
      s.(tracker := s.tracker.Register(id, rate, plan.reports, plan.requests, at),
         rounds := s.rounds[id := Round(rate, Some(plan))],
         sending := None)
  }

  // ---- The invariant

  ghost predicate Observed(log: seq<LoadObservation>, id: string) {
    exists i :: 0 <= i < |log| && log[i].roundId == id
  }

  /** A live aggregate carries its round's rate and plan from registration to its first observation, and
      neither before nor after. */
  ghost predicate CarriesPlan(a: Aggregate, round: Round, observed: bool) {
    if round.planned.Some? && !observed then
      && a.hasRoundPlan && a.totalRps == round.rate
      && a.plannedRequests == round.planned.value.requests && a.expectedReports == round.planned.value.reports
    else
      !a.hasRoundPlan && a.totalRps == 0 && a.expectedReports == 0
  }

  /** The first observation of a round carries its rate and plan; any later one has rate zero. */
  ghost predicate LogIsFaithful(log: seq<LoadObservation>, rounds: map<string, Round>) {
    forall i :: 0 <= i < |log| ==>
      && log[i].roundId in rounds && rounds[log[i].roundId].planned.Some?
      && (if Observed(log[..i], log[i].roundId) then log[i].totalRps == 0
          else log[i].totalRps == rounds[log[i].roundId].rate
               && log[i].plannedRequests == rounds[log[i].roundId].planned.value.requests)
  }

  ghost predicate Bookkept(t: Tracker, rounds: map<string, Round>, log: seq<LoadObservation>) {
    && t.Valid()
    && (forall id :: id in t.rounds ==> id in rounds && CarriesPlan(t.rounds[id], rounds[id], Observed(log, id)))
    && (forall id :: id in rounds && rounds[id].planned.Some? && !Observed(log, id) ==> id in t.rounds)
    && LogIsFaithful(log, rounds)
  }

  ghost predicate Invariant(s: System) {
    && s.controller.Valid()
    && s.controller == Run(Fresh(s.controller.limits), Verdicts(s.controller.limits, s.log))
    && Bookkept(s.tracker, s.rounds, s.log)
    && (forall id :: id in s.rounds ==> id != "" && s.rounds[id].rate <= s.controller.limits.maxRps)
    && (forall id :: id in s.rounds ==> (s.rounds[id].planned.None? <==> s.sending == Some(id)))
    && (s.sending.Some? ==> s.sending.value in s.rounds)
  }

  lemma OneMoreObserved(log: seq<LoadObservation>, o: LoadObservation, id: string)
    ensures Observed(log + [o], id) <==> Observed(log, id) || o.roundId == id
  {
    var more := log + [o];
    assert more[|log|] == o;
    if Observed(log, id) {
      var i :| 0 <= i < |log| && log[i].roundId == id;
      assert more[i].roundId == id;
    }
  }

  lemma LogGrows(log: seq<LoadObservation>, o: LoadObservation, rounds: map<string, Round>)
    requires LogIsFaithful(log, rounds)
    requires o.roundId in rounds && rounds[o.roundId].planned.Some?
    requires if Observed(log, o.roundId) then o.totalRps == 0
             else o.totalRps == rounds[o.roundId].rate && o.plannedRequests == rounds[o.roundId].planned.value.requests
    ensures LogIsFaithful(log + [o], rounds)
  {
    hide Observed;
    var more := log + [o];
    assert more[..|log|] == log;
    assert forall i :: 0 <= i < |log| ==> more[..i] == log[..i] && more[i] == log[i];
  }

  /** Taking one round out of the tracker into the log. */
  lemma EmitOne(t: Tracker, rounds: map<string, Round>, log: seq<LoadObservation>)
    requires Bookkept(t, rounds, log) && t.order != []
    requires forall id :: id in rounds ==> rounds[id].planned.Some?
    ensures var id := t.order[0];
            && id in t.rounds
            && Bookkept(Tracker(t.rounds - {id}, t.order[1..]), rounds, log + [t.rounds[id].Observation()])
  {
    var id := t.order[0];
    assert id in t.rounds;
    var o := t.rounds[id].Observation();
    assert o.roundId == id && o.totalRps == t.rounds[id].totalRps && o.plannedRequests == t.rounds[id].plannedRequests;
    hide Aggregate.Observation, LogIsFaithful, Observed;
    TailIsValid(t);
    LogGrows(log, o, rounds);
    forall other
      ensures Observed(log + [o], other) <==> Observed(log, other) || other == id
    {
      OneMoreObserved(log, o, other);
    }
  }

  lemma {:induction false} DrainKeepsBooks(t: Tracker, rounds: map<string, Round>, log: seq<LoadObservation>, staleAfter: int, now: int)
    requires Bookkept(t, rounds, log)
    requires forall id :: id in rounds ==> rounds[id].planned.Some?
    ensures var (u, drained) := t.Drain(staleAfter, now); Bookkept(u, rounds, log + Observations(drained))
    decreases |t.order|
  {
    hide Bookkept, Tracker.Drain, Aggregate.Observation;
    if t.order == [] {
      NothingToDrain(t, staleAfter, now);
      assert log + [] == log;
    } else {
      EmitOne(t, rounds, log);
      DrainTurn(t, staleAfter, now);
      var a := t.rounds[t.order[0]];
      if a.Ready(staleAfter, now) {
        var rest := Tracker(t.rounds - {t.order[0]}, t.order[1..]);
        DrainKeepsBooks(rest, rounds, log + [a.Observation()], staleAfter, now);
        var drained := rest.Drain(staleAfter, now).1;
        assert log + [a.Observation()] + Observations(drained) == log + Observations([a] + drained);
      } else {
        assert log + [] == log;
      }
    }
  }

  // ---- Every action keeps the invariant

  lemma RunOverLongerLog(limits: Limits, log: seq<LoadObservation>, more: seq<LoadObservation>)
    ensures Run(Run(Fresh(limits), Verdicts(limits, log)), Verdicts(limits, more)) ==
            Run(Fresh(limits), Verdicts(limits, log + more))
  {
    hide Run, VerdictOf;
    RunAdds(Fresh(limits), Verdicts(limits, log), Verdicts(limits, more));
    assert Verdicts(limits, log + more) == Verdicts(limits, log) + Verdicts(limits, more);
  }

  lemma DrainKeepsInvariant(s: System, staleAfter: int, at: int)
    requires Invariant(s) && Enabled(s, DrainReady(staleAfter, at))
    ensures var u := Do(s, DrainReady(staleAfter, at)); Invariant(u) && u.controller.limits == s.controller.limits
  {
    hide Bookkept, Tracker.Drain, Controller.Valid, Run, Verdicts, Observations, VerdictOf;
    DrainKeepsBooks(s.tracker, s.rounds, s.log, staleAfter, at);
    var limits, more := s.controller.limits, Observations(s.tracker.Drain(staleAfter, at).1);
    RunKeepsValid(s.controller, Verdicts(limits, more));
    RunOverLongerLog(limits, s.log, more);
  }

  lemma LogWithoutRound(log: seq<LoadObservation>, rounds: map<string, Round>, id: string, round: Round)
    requires LogIsFaithful(log, rounds)
    requires id in rounds ==> rounds[id].planned.None?
    ensures LogIsFaithful(log, rounds[id := round]) && !Observed(log, id)
  {
    hide Observed;
    assert forall i :: 0 <= i < |log| ==> log[i].roundId != id;
    NotObserved(log, id);
  }

  lemma NotObserved(log: seq<LoadObservation>, id: string)
    requires forall i :: 0 <= i < |log| ==> log[i].roundId != id
    ensures !Observed(log, id)
  {
  }

  lemma StartKeepsBooks(t: Tracker, rounds: map<string, Round>, log: seq<LoadObservation>, id: string, rate: nat)
    requires Bookkept(t, rounds, log) && id !in rounds
    ensures Bookkept(t, rounds[id := Round(rate, None)], log)
  {
    hide LogIsFaithful, Observed, Tracker.Valid;
    LogWithoutRound(log, rounds, id, Round(rate, None));
  }

  lemma ReportKeepsBooks(t: Tracker, rounds: map<string, Round>, log: seq<LoadObservation>, report: JobReport, at: int)
    requires Bookkept(t, rounds, log) && report.roundId in rounds
    ensures Bookkept(t.Record(report, at), rounds, log)
  {
    RecordKeepsValid(t, report, at);
    hide LogIsFaithful, Observed, Tracker.Valid;
  }

  lemma RegisterKeepsBooks(t: Tracker, rounds: map<string, Round>, log: seq<LoadObservation>, id: string, plan: Plan, at: int)
    requires Bookkept(t, rounds, log) && id in rounds && rounds[id].planned.None? && id != ""
    ensures var rate := rounds[id].rate;
            Bookkept(t.Register(id, rate, plan.reports, plan.requests, at), rounds[id := Round(rate, Some(plan))], log)
  {
    RegisterKeepsValid(t, id, rounds[id].rate, plan.reports, plan.requests, at);
    LogWithoutRound(log, rounds, id, Round(rounds[id].rate, Some(plan)));
    hide LogIsFaithful, Observed, Tracker.Valid;
  }

  lemma StepKeepsInvariant(s: System, a: Action)
    requires Invariant(s) && Enabled(s, a)
    ensures Invariant(Do(s, a)) && Do(s, a).controller.limits == s.controller.limits
  {
    hide Bookkept, Tracker.Record, Tracker.Register, Tracker.Drain, Run;
    match a
    case DrainReady(staleAfter, at) => DrainKeepsInvariant(s, staleAfter, at);
    case StartRound(id) =>
      NextWithinLimits(s.controller);
      StartKeepsBooks(s.tracker, s.rounds, s.log, id, s.controller.Next());
    case Deliver(report, at) => ReportKeepsBooks(s.tracker, s.rounds, s.log, report, at);
    case RegisterRound(plan, at) =>
      RegisterKeepsBooks(s.tracker, s.rounds, s.log, s.sending.value, plan, at);
  }

  lemma NextWithinLimits(c: Controller)
    requires c.Valid()
    ensures c.Next() <= c.limits.maxRps
  {
  }

  // ---- Runs

  /** A run from the initial system: the state it reaches, if every action is enabled when taken. */
  ghost function Reached(limits: Limits, actions: seq<Action>): (r: Option<System>)
    requires limits.Valid()
    ensures r.Some? ==> Invariant(r.value) && r.value.controller.limits == limits
  {
    if actions == [] then
      InitialInvariant(limits);
      Some(Initial(limits))
    else
      var before := Reached(limits, actions[..|actions| - 1]);
      var a := actions[|actions| - 1];
      if before.None? || !Enabled(before.value, a) then None
      else
        StepKeepsInvariant(before.value, a);
        Some(Do(before.value, a))
  }

  lemma InitialInvariant(limits: Limits)
    requires limits.Valid()
    ensures Invariant(Initial(limits))
  {
  }

  /** In every run, the first observation of a round carries exactly the rate and the request count it was
      dispatched with, even when all its reports overtook its registration; every later observation of the
      same round has rate zero. */
  lemma OvertakingIsHarmless(limits: Limits, actions: seq<Action>, i: nat)
    requires limits.Valid() && Reached(limits, actions).Some?
    requires i < |Reached(limits, actions).value.log|
    ensures var s := Reached(limits, actions).value;
            var o := s.log[i];
            && o.roundId in s.rounds && s.rounds[o.roundId].planned.Some?
            && (if forall j :: 0 <= j < i ==> s.log[j].roundId != o.roundId
                then o.totalRps == s.rounds[o.roundId].rate && o.plannedRequests == s.rounds[o.roundId].planned.value.requests
                else o.totalRps == 0)
            && 0 <= o.totalRps <= limits.maxRps
  {
    hide Reached, Tracker.Valid, Controller.Valid, Run;
    var s := Reached(limits, actions).value;
    var o := s.log[i];
    assert LogIsFaithful(s.log, s.rounds);
    if forall j :: 0 <= j < i ==> s.log[j].roundId != o.roundId {
      NotObserved(s.log[..i], o.roundId);
    } else {
      var j :| 0 <= j < i && s.log[j].roundId == o.roundId;
      assert s.log[..i][j].roundId == o.roundId;
    }
  }

  /** A registered round is complete exactly when as many distinct jobs have reported as it sent out; what is
      left of a round that was observed already is never complete and waits for its age. */
  lemma CompleteIffAllReported(limits: Limits, actions: seq<Action>, id: string)
    requires limits.Valid() && Reached(limits, actions).Some?
    requires id in Reached(limits, actions).value.tracker.rounds
    ensures var s := Reached(limits, actions).value;
            var a := s.tracker.rounds[id];
            && id in s.rounds
            && (a.Complete() <==>
                  && s.rounds[id].planned.Some? && !Observed(s.log, id)
                  && 0 < s.rounds[id].planned.value.reports <= |a.receivedJobIds|)
  {
    hide Reached, Observed, LogIsFaithful, Controller.Valid, Run;
    var s := Reached(limits, actions).value;
    assert CarriesPlan(s.tracker.rounds[id], s.rounds[id], Observed(s.log, id));
  }
}
