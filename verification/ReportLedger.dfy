/** Conservation over every history of registrations, reports and drains. */
module ReportLedger {
  import opened Types
  import opened RoundReports

  datatype Event =
    | Registration(roundId: string, rate: int, expected: int, planned: int, at: int)
    | Report(report: JobReport, at: int)
    | Drain(staleAfter: int, at: int)

  function Apply(t: Tracker, e: Event): (Tracker, seq<Aggregate>) {
    match e
    case Registration(id, rate, expected, planned, at) => (t.Register(id, rate, expected, planned, at), [])
    case Report(report, at) => (t.Record(report, at), [])
    case Drain(staleAfter, at) => t.Drain(staleAfter, at)
  }

  /** The tracker after a history that starts with no round. */
  function After(es: seq<Event>): Tracker {
    if es == [] then Tracker(map[], []) else Apply(After(es[..|es| - 1]), es[|es| - 1]).0
  }

  lemma ApplyKeepsValid(t: Tracker, e: Event)
    requires t.Valid()
    ensures Apply(t, e).0.Valid()
    ensures t.Ordered(e.at) ==> Apply(t, e).0.Ordered(e.at)
  {
    match e
    case Registration(id, rate, expected, planned, at) => RegisterKeepsValid(t, id, rate, expected, planned, at);
    case Report(report, at) => RecordKeepsValid(t, report, at);
    case Drain(staleAfter, at) =>
      DrainKeepsValid(t, staleAfter, at);
      if t.Ordered(at) {
        DrainLeavesNothingStale(t, staleAfter, at);
      }
  }

  /** Every history keeps the representation: the order lists the live rounds, each once, and a round's
      report count is the number of its distinct jobs. */
  lemma {:induction false} HistoryKeepsValid(es: seq<Event>)
    ensures After(es).Valid()
  {
    if es != [] {
      HistoryKeepsValid(es[..|es| - 1]);
      ApplyKeepsValid(After(es[..|es| - 1]), es[|es| - 1]);
    }
  }

  ghost predicate ClockRunsForward(es: seq<Event>) {
    forall i, j :: 0 <= i < j < |es| ==> es[i].at <= es[j].at
  }

  /** Under a clock that does not run backwards, after any history that ends in a drain every live round is
      younger than that drain's limit, whatever stood in front of it. */
  lemma {:induction false} NoRoundOutlivesADrain(es: seq<Event>)
    requires ClockRunsForward(es)
    ensures var t := After(es);
            && t.Valid()
            && (es == [] || t.Ordered(es[|es| - 1].at))
            && (es != [] && es[|es| - 1].Drain? ==>
                  forall id :: id in t.rounds ==> es[|es| - 1].at - t.rounds[id].createdAt < es[|es| - 1].staleAfter)
  {
    if es != [] {
      var front, e := es[..|es| - 1], es[|es| - 1];
      NoRoundOutlivesADrain(front);
      var t := After(front);
      LaterStillOrdered(front, t, e.at);
      ApplyKeepsValid(t, e);
      if e.Drain? {
        DrainLeavesNothingStale(t, e.staleAfter, e.at);
      }
    }
  }

  lemma LaterStillOrdered(es: seq<Event>, t: Tracker, at: int)
    requires t.Valid() && t == After(es)
    requires es != [] ==> t.Ordered(es[|es| - 1].at) && es[|es| - 1].at <= at
    ensures t.Ordered(at)
  {
  }

  /** A live round is as old as the event that brought it to life, and has been live ever since. */
  ghost predicate LiveSince(es: seq<Event>, id: string, k: nat)
    requires k < |es|
  {
    && id !in After(es[..k]).rounds
    && forall j :: k < j <= |es| ==> id in After(es[..j]).rounds
  }

  lemma EventKeepsAge(t: Tracker, e: Event, id: string)
    requires t.Valid() && id in Apply(t, e).0.rounds
    ensures Apply(t, e).0.rounds[id].createdAt == if id in t.rounds then t.rounds[id].createdAt else e.at
  {
    if e.Drain? {
      DrainKeepsValid(t, e.staleAfter, e.at);
    }
  }

  lemma {:induction false} AgeIsTimeSinceFirstEvent(es: seq<Event>, id: string) returns (k: nat)
    requires id in After(es).rounds
    ensures k < |es| && LiveSince(es, id, k) && After(es).rounds[id].createdAt == es[k].at
  {
    hide Apply, Tracker.Valid;
    var n := |es| - 1;
    var front := es[..n];
    HistoryKeepsValid(front);
    EventKeepsAge(After(front), es[n], id);
    assert es[..|es|] == es;
    if id in After(front).rounds {
      k := AgeIsTimeSinceFirstEvent(front, id);
      assert forall j :: 0 <= j <= n ==> front[..j] == es[..j];
    } else {
      k := n;
    }
  }

  // ---- Repeated registrations

  /** What a history registers for a round. */
  function Registrations(id: string, es: seq<Event>): (rs: seq<Event>)
    ensures forall r :: r in rs ==> r.Registration?
  {
    if es == [] then []
    else
      var front, e := Registrations(id, es[..|es| - 1]), es[|es| - 1];
      if e.Registration? && e.roundId == id then front + [e] else front
  }

  /** The rate is that of the last registration; the expected reports are the most that any announced, and none at all before
      the first; the plan is the last that was not negative. */
  ghost predicate Merges(a: Aggregate, rs: seq<Event>, openedByReport: bool)
    requires forall r :: r in rs ==> r.Registration?
  {
    && a.totalRps == (if rs == [] then 0 else rs[|rs| - 1].rate)
    && (forall i :: 0 <= i < |rs| ==> rs[i].expected <= a.expectedReports)
    && (openedByReport ==> a.expectedReports >= 0)
    && ((openedByReport && a.expectedReports == 0) || exists i :: 0 <= i < |rs| && rs[i].expected == a.expectedReports)
    && (a.hasRoundPlan <==> exists i :: 0 <= i < |rs| && rs[i].planned >= 0)
    && (forall i :: 0 <= i < |rs| && rs[i].planned >= 0 && (forall j :: i < j < |rs| ==> rs[j].planned < 0) ==>
          a.plannedRequests == rs[i].planned)
  }

  lemma PlanMerges(a: Aggregate, rs: seq<Event>, r: Event, openedByReport: bool)
    requires r.Registration? && (forall x :: x in rs ==> x.Registration?) && Merges(a, rs, openedByReport)
    ensures Merges(a.Plan(r.rate, r.expected, r.planned), rs + [r], openedByReport)
  {
    var b, more := a.Plan(r.rate, r.expected, r.planned), rs + [r];
    assert more[|rs|] == r && forall i :: 0 <= i < |rs| ==> more[i] == rs[i];
    if i :| 0 <= i < |rs| && rs[i].expected == a.expectedReports {
      assert more[i].expected == a.expectedReports;
    }
    if i :| 0 <= i < |rs| && rs[i].planned >= 0 {
      assert more[i].planned >= 0;
    }
  }

  lemma FirstPlanMerges(r: Event)
    requires r.Registration?
    ensures Merges(Empty(r.roundId, r.expected, r.at).Plan(r.rate, r.expected, r.planned), [r], false)
  {
    assert [r][0] == r;
  }

  lemma AddMerges(a: Aggregate, rs: seq<Event>, report: JobReport, openedByReport: bool)
    requires (forall x :: x in rs ==> x.Registration?) && Merges(a, rs, openedByReport)
    ensures Merges(a.Add(report), rs, openedByReport)
  {
  }

  lemma EventMerges(t: Tracker, e: Event, id: string, rs: seq<Event>, openedByReport: bool)
    requires t.Valid() && id in Apply(t, e).0.rounds
    requires forall x :: x in rs ==> x.Registration?
    requires id in t.rounds ==> Merges(t.rounds[id], rs, openedByReport)
    requires id !in t.rounds ==> rs == [] && openedByReport == e.Report?
    ensures var more := if e.Registration? && e.roundId == id then rs + [e] else rs;
            Merges(Apply(t, e).0.rounds[id], more, openedByReport)
  {
    hide Merges, Tracker.Valid, Aggregate.Plan, Aggregate.Add, Tracker.Drain;
    if id in t.rounds {
      LiveIdIsNamed(t, id);
    }
    match e
    case Registration(r, rate, expected, planned, at) =>
      if r == id && id in t.rounds {
        PlanMerges(t.rounds[id], rs, e, openedByReport);
      } else if r == id {
        FirstPlanMerges(e);
        assert [] + [e] == [e];
      }
    case Report(report, at) =>
      NothingMerges(id, at);
      if report.roundId == id {
        AddMerges(t.Open(id, 0, at).rounds[id], rs, report, openedByReport);
      }
    case Drain(staleAfter, at) => DrainKeepsValid(t, staleAfter, at);
  }

  lemma LiveIdIsNamed(t: Tracker, id: string)
    requires t.Valid() && id in t.rounds
    ensures id != ""
  {
  }

  lemma NothingMerges(id: string, at: int)
    ensures Merges(Empty(id, 0, at), [], true)
  {
  }

  /** However often a live round has been registered since it came to life, among reports and drains of others, its rate is
      the last one registered, the reports it waits for are the most that were announced, and its plan is the last one given. */
  lemma {:induction false} RegistrationsMerge(es: seq<Event>, id: string) returns (k: nat)
    requires id in After(es).rounds
    ensures k < |es| && LiveSince(es, id, k)
    ensures Merges(After(es).rounds[id], Registrations(id, es[k..]), es[k].Report?)
  {
    hide Apply, Tracker.Valid, Merges;
    var n := |es| - 1;
    var front := es[..n];
    HistoryKeepsValid(front);
    assert es[..|es|] == es;
    if id in After(front).rounds {
      k := RegistrationsMerge(front, id);
      assert forall j :: 0 <= j <= n ==> front[..j] == es[..j];
      assert es[k..][..n - k] == front[k..] && es[k..][n - k] == es[n];
      EventMerges(After(front), es[n], id, Registrations(id, front[k..]), es[k].Report?);
    } else {
      k := n;
      assert es[k..] == [es[n]] && [es[n]][..0] == [];
      EventMerges(After(front), es[n], id, [], es[n].Report?);
      assert [] + [es[n]] == [es[n]];
    }
  }

  // ---- The ledger

  datatype Totals = Totals(success: int, failure: int, timeout: int, completed: int)
  {
    function Plus(other: Totals): Totals {
      Totals(success + other.success, failure + other.failure, timeout + other.timeout, completed + other.completed)
    }
  }

  const NOTHING := Totals(0, 0, 0, 0)

  function ReportTotals(r: JobReport): Totals {
    Totals(r.successCount, r.failureCount, r.timeoutCount, r.completedRequests)
  }

  function AggregateTotals(a: Aggregate): Totals {
    Totals(a.successCount, a.failureCount, a.timeoutCount, a.completedRequests)
  }

  function ObservationTotals(o: LoadObservation): Totals {
    Totals(o.successCount, o.failureCount, o.timeoutCount, o.completedRequests)
  }

  /** A report is accepted unless an id is missing or its job has already reported to the live round. */
  predicate Accepts(t: Tracker, r: JobReport) {
    && r.roundId != "" && r.jobId != ""
    && (r.roundId in t.rounds ==> r.jobId !in t.rounds[r.roundId].receivedJobIds)
  }

  function AcceptedTotals(es: seq<Event>): Totals {
    if es == [] then NOTHING
    else
      var front, e := es[..|es| - 1], es[|es| - 1];
      AcceptedTotals(front).Plus(Accepted(After(front), e))
  }

  function Accepted(t: Tracker, e: Event): Totals {
    if e.Report? && Accepts(t, e.report) then ReportTotals(e.report) else NOTHING
  }

  /** What the drains of a history observed. */
  function ObservedTotals(es: seq<Event>): Totals {
    if es == [] then NOTHING
    else
      var front, e := es[..|es| - 1], es[|es| - 1];
      ObservedTotals(front).Plus(EmittedTotals(Apply(After(front), e).1))
  }

  function LiveTotals(rounds: map<string, Aggregate>, order: seq<string>): Totals {
    if order == [] then NOTHING
    else
      var rest := LiveTotals(rounds, order[1..]);
      if order[0] in rounds then AggregateTotals(rounds[order[0]]).Plus(rest) else rest
  }

  /** The sum of emitted observations, leaving out the synthetic ones that stand for silent rounds. */
  function EmittedTotals(emitted: seq<Aggregate>): Totals {
    if emitted == [] then NOTHING
    else
      Observed(emitted[0]).Plus(EmittedTotals(emitted[1..]))
  }

  function Observed(a: Aggregate): Totals {
    if a.Silent() then NOTHING else ObservationTotals(a.Observation())
  }

  lemma ObservedIsAggregated(a: Aggregate)
    requires a.Valid()
    ensures Observed(a) == AggregateTotals(a)
  {
  }

  lemma {:induction false} LiveTotalsIgnoresOthers(rounds: map<string, Aggregate>, rounds': map<string, Aggregate>, order: seq<string>)
    requires forall id :: id in order ==> (id in rounds <==> id in rounds') && (id in rounds ==> rounds[id] == rounds'[id])
    ensures LiveTotals(rounds, order) == LiveTotals(rounds', order)
  {
    if order != [] {
      LiveTotalsIgnoresOthers(rounds, rounds', order[1..]);
    }
  }

  lemma {:induction false} LiveTotalsAppend(rounds: map<string, Aggregate>, order: seq<string>, id: string)
    requires id in rounds
    ensures LiveTotals(rounds, order + [id]) == LiveTotals(rounds, order).Plus(AggregateTotals(rounds[id]))
  {
    if order == [] {
      assert order + [id] == [id];
      assert [id][1..] == [];
    } else {
      LiveTotalsAppend(rounds, order[1..], id);
      assert (order + [id])[1..] == order[1..] + [id];
    }
  }

  ghost predicate Distinct(order: seq<string>) {
    forall i, j :: 0 <= i < j < |order| ==> order[i] != order[j]
  }

  lemma {:induction false} LiveTotalsUpdate(rounds: map<string, Aggregate>, order: seq<string>, id: string, a: Aggregate, more: Totals)
    requires Distinct(order) && id in order && id in rounds
    requires AggregateTotals(a) == AggregateTotals(rounds[id]).Plus(more)
    ensures LiveTotals(rounds[id := a], order) == LiveTotals(rounds, order).Plus(more)
  {
    if order[0] == id {
      LiveTotalsIgnoresOthers(rounds, rounds[id := a], order[1..]);
    } else {
      LiveTotalsUpdate(rounds, order[1..], id, a, more);
    }
  }

  lemma OpenKeepsTotals(t: Tracker, id: string, expected: int, now: int)
    requires t.Valid()
    ensures var u := t.Open(id, expected, now); LiveTotals(u.rounds, u.order) == LiveTotals(t.rounds, t.order)
  {
    hide LiveTotals, Aggregate.Valid;
    if id !in t.rounds {
      var u := t.Open(id, expected, now);
      assert LiveTotals(t.rounds, t.order).Plus(AggregateTotals(Empty(id, expected, now))) == LiveTotals(t.rounds, t.order);
      LiveTotalsAppend(u.rounds, t.order, id);
      LiveTotalsIgnoresOthers(t.rounds, u.rounds, t.order);
    }
  }

  lemma UpdateAddsTotals(t: Tracker, id: string, a: Aggregate, more: Totals)
    requires t.Valid() && id in t.rounds
    requires AggregateTotals(a) == AggregateTotals(t.rounds[id]).Plus(more)
    ensures LiveTotals(t.rounds[id := a], t.order) == LiveTotals(t.rounds, t.order).Plus(more)
  {
    LiveTotalsUpdate(t.rounds, t.order, id, a, more);
  }

  lemma RegisterKeepsTotals(t: Tracker, id: string, rate: int, expected: int, planned: int, now: int)
    requires t.Valid()
    ensures var u := t.Register(id, rate, expected, planned, now);
            LiveTotals(u.rounds, u.order) == LiveTotals(t.rounds, t.order)
  {
    hide Tracker.Valid, Tracker.Open, LiveTotals;
    if id != "" {
      OpenKeepsTotals(t, id, expected, now);
      OpenKeepsValid(t, id, expected, now);
      var live := t.Open(id, expected, now);
      UpdateAddsTotals(live, id, live.rounds[id].Plan(rate, expected, planned), NOTHING);
    }
  }

  lemma RecordAddsTotals(t: Tracker, report: JobReport, now: int)
    requires t.Valid()
    ensures var u := t.Record(report, now);
            LiveTotals(u.rounds, u.order) ==
            LiveTotals(t.rounds, t.order).Plus(if Accepts(t, report) then ReportTotals(report) else NOTHING)
  {
    AcceptsOnceOpen(t, report, now);
    hide Tracker.Valid, Tracker.Open, LiveTotals, Accepts;
    if report.roundId != "" && report.jobId != "" {
      OpenKeepsTotals(t, report.roundId, 0, now);
      OpenKeepsValid(t, report.roundId, 0, now);
      var live := t.Open(report.roundId, 0, now);
      UpdateAddsTotals(live, report.roundId, live.rounds[report.roundId].Add(report),
                       if Accepts(t, report) then ReportTotals(report) else NOTHING);
    }
  }

  lemma AcceptsOnceOpen(t: Tracker, report: JobReport, now: int)
    ensures Accepts(t, report) <==>
            && report.roundId != "" && report.jobId != ""
            && report.jobId !in t.Open(report.roundId, 0, now).rounds[report.roundId].receivedJobIds
  {
  }

  lemma {:induction false} DrainMovesTotals(t: Tracker, staleAfter: int, now: int)
    requires t.Valid()
    ensures var (u, drained) := t.Drain(staleAfter, now);
            LiveTotals(t.rounds, t.order) == LiveTotals(u.rounds, u.order).Plus(EmittedTotals(drained))
    decreases |t.order|
  {
    hide *;
    DrainTurnIfAny(t, staleAfter, now);
    EmittedNothing();
    PlusNothing(LiveTotals(t.rounds, t.order));
    if t.order == [] {
      return;
    }
    ListedIsLive(t, 0);
    if t.rounds[t.order[0]].Ready(staleAfter, now) {
      var rest := Tracker(t.rounds - {t.order[0]}, t.order[1..]);
      TailIsValid(t);
      HeadLeaves(t);
      DrainMovesTotals(rest, staleAfter, now);
      var (u, drained) := rest.Drain(staleAfter, now);
      EmittedTotalsCons(t.rounds[t.order[0]], drained);
      PlusMoves(Observed(t.rounds[t.order[0]]), LiveTotals(u.rounds, u.order), EmittedTotals(drained));
    }
  }

  lemma PlusNothing(a: Totals)
    ensures a.Plus(NOTHING) == a
  {
  }

  lemma PlusMoves(a: Totals, b: Totals, c: Totals)
    ensures a.Plus(b.Plus(c)) == b.Plus(a.Plus(c))
  {
  }

  lemma EmittedNothing()
    ensures EmittedTotals([]) == NOTHING
  {
  }

  lemma DrainTurnIfAny(t: Tracker, staleAfter: int, now: int)
    requires t.Valid()
    ensures if t.order == [] || !t.rounds[t.order[0]].Ready(staleAfter, now) then t.Drain(staleAfter, now) == (t, [])
            else
              var (rest, drained) := Tracker(t.rounds - {t.order[0]}, t.order[1..]).Drain(staleAfter, now);
              t.Drain(staleAfter, now) == (rest, [t.rounds[t.order[0]]] + drained)
  {
    if t.order != [] {
      DrainTurn(t, staleAfter, now);
    }
  }

  lemma HeadLeaves(t: Tracker)
    requires t.Valid() && t.order != []
    ensures LiveTotals(t.rounds, t.order) ==
            Observed(t.rounds[t.order[0]]).Plus(LiveTotals(t.rounds - {t.order[0]}, t.order[1..]))
  {
    ObservedIsAggregated(t.rounds[t.order[0]]);
    TailIsValid(t);
    hide Observed;
    LiveTotalsIgnoresOthers(t.rounds, t.rounds - {t.order[0]}, t.order[1..]);
  }

  lemma EmittedTotalsCons(a: Aggregate, rest: seq<Aggregate>)
    ensures EmittedTotals([a] + rest) == Observed(a).Plus(EmittedTotals(rest))
  {
    hide Observed;
    assert ([a] + rest)[1..] == rest;
  }

  /** Over every history, what was accepted is what is live plus what has been observed: late, repeated,
      reordered and unregistered reports included. */
  lemma {:induction false} NothingIsLostOrCountedTwice(es: seq<Event>)
    ensures AcceptedTotals(es) == LiveTotals(After(es).rounds, After(es).order).Plus(ObservedTotals(es))
  {
    hide *;
    NothingLive();
    if es != [] {
      var front, e := es[..|es| - 1], es[|es| - 1];
      HistoryKeepsValid(front);
      HistoryStep(es);
      NothingIsLostOrCountedTwice(front);
      EventBalances(After(front), e);
      var u := Apply(After(front), e).0;
      Rebalance(AcceptedTotals(front), LiveTotals(After(front).rounds, After(front).order), ObservedTotals(front),
                Accepted(After(front), e), LiveTotals(u.rounds, u.order), EmittedTotals(Apply(After(front), e).1));
    }
  }

  lemma HistoryStep(es: seq<Event>)
    requires es != []
    ensures var front, e := es[..|es| - 1], es[|es| - 1];
            && After(es) == Apply(After(front), e).0
            && AcceptedTotals(es) == AcceptedTotals(front).Plus(Accepted(After(front), e))
            && ObservedTotals(es) == ObservedTotals(front).Plus(EmittedTotals(Apply(After(front), e).1))
  {
  }

  lemma Rebalance(accepted: Totals, live: Totals, observed: Totals, more: Totals, live': Totals, emitted: Totals)
    requires accepted == live.Plus(observed)
    requires live.Plus(more) == live'.Plus(emitted)
    ensures accepted.Plus(more) == live'.Plus(observed.Plus(emitted))
  {
  }

  lemma NothingLive()
    ensures AcceptedTotals([]) == LiveTotals(After([]).rounds, After([]).order).Plus(ObservedTotals([]))
  {
  }

  /** One event: what it accepts is what it adds to the live rounds and the observations together. */
  lemma EventBalances(t: Tracker, e: Event)
    requires t.Valid()
    ensures var (u, drained) := Apply(t, e);
            LiveTotals(t.rounds, t.order).Plus(Accepted(t, e)) ==
            LiveTotals(u.rounds, u.order).Plus(EmittedTotals(drained))
  {
    hide LiveTotals, EmittedTotals, Tracker.Valid, Accepts, Tracker.Register, Tracker.Record, Tracker.Drain;
    EmittedNothing();
    match e
    case Registration(id, rate, expected, planned, at) => RegisterKeepsTotals(t, id, rate, expected, planned, at);
    case Report(report, at) => RecordAddsTotals(t, report, at);
    case Drain(staleAfter, at) => DrainMovesTotals(t, staleAfter, at);
  }
}
