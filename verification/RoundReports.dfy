/** Per-round aggregation of job reports (orchestrator/manager/round_reports.go): the tracker
    as a value, its operations, and the invariant every history keeps. */
module RoundReports {
  import opened Types
  import opened Percentile

  const DEFAULT_STALE_AFTER: int := 2_000_000_000

  datatype Aggregate = Aggregate(
    roundId: string,
    totalRps: int,
    plannedRequests: int,
    hasRoundPlan: bool,
    expectedReports: int,
    receivedReports: nat,
    successCount: int,
    failureCount: int,
    timeoutCount: int,
    completedRequests: int,
    latencyMillis: seq<int>,
    receivedJobIds: set<string>,
    createdAt: int)
  {
    function Plan(rate: int, expected: int, planned: int): Aggregate {
      this.(
        totalRps := rate,
        expectedReports := if expected > expectedReports then expected else expectedReports,
        plannedRequests := if planned >= 0 then planned else plannedRequests,
        hasRoundPlan := hasRoundPlan || planned >= 0)
    }

    function Add(report: JobReport): Aggregate {
      if report.jobId in receivedJobIds then this
      else this.(
        receivedJobIds := receivedJobIds + {report.jobId},
        receivedReports := receivedReports + 1,
        successCount := successCount + report.successCount,
        failureCount := failureCount + report.failureCount,
        timeoutCount := timeoutCount + report.timeoutCount,
        completedRequests := completedRequests + report.completedRequests,
        plannedRequests := plannedRequests +
                           (if hasRoundPlan || report.plannedRequests < 0 then 0 else report.plannedRequests),
        latencyMillis := latencyMillis + report.latencyMillis)
    }

    predicate Complete() {
      expectedReports > 0 && receivedReports >= expectedReports
    }

    predicate Stale(staleAfter: int, now: int) {
      now - createdAt >= staleAfter
    }

    predicate Ready(staleAfter: int, now: int) {
      Complete() || Stale(staleAfter, now)
    }

    /** A planned round without a single report stands for a round in which every request timed out. */
    predicate Silent() {
      receivedReports == 0 && plannedRequests > 0
    }

    function Observation(): LoadObservation {
      LoadObservation(
        roundId,
        totalRps,
        plannedRequests,
        if Silent() then plannedRequests else completedRequests,
        if Silent() then 0 else successCount,
        if Silent() then plannedRequests else failureCount,
        if Silent() then plannedRequests else timeoutCount,
        P99Latency(Sort(latencyMillis)))
    }

    ghost predicate Valid() {
      && receivedReports == |receivedJobIds|
      && (receivedReports == 0 ==>
            && successCount == failureCount == timeoutCount == completedRequests == 0
            && latencyMillis == []
            && (!hasRoundPlan ==> plannedRequests == 0))
      && plannedRequests >= 0
    }
  }

  function Empty(roundId: string, expected: int, now: int): Aggregate {
    Aggregate(roundId, 0, 0, false, expected, 0, 0, 0, 0, 0, [], {}, now)
  }

  datatype Tracker = Tracker(rounds: map<string, Aggregate>, order: seq<string>)
  {
    /** The round's aggregate, created behind all others when the round is new. */
    function Open(roundId: string, expected: int, now: int): Tracker {
      if roundId in rounds then this
      else Tracker(rounds[roundId := Empty(roundId, expected, now)], order + [roundId])
    }

    function Register(roundId: string, rate: int, expected: int, planned: int, now: int): Tracker {
      if roundId == "" then this
      else
        var live := Open(roundId, expected, now);
        live.(rounds := live.rounds[roundId := live.rounds[roundId].Plan(rate, expected, planned)])
    }

    function Record(report: JobReport, now: int): Tracker {
      if report.roundId == "" || report.jobId == "" then this
      else
        var live := Open(report.roundId, 0, now);
        live.(rounds := live.rounds[report.roundId := live.rounds[report.roundId].Add(report)])
    }

    /** Takes ready rounds off the front until the first that is not; rounds without an aggregate are skipped. */
    function Drain(staleAfter: int, now: int): (Tracker, seq<Aggregate>)
      decreases |order|
    {
      if order == [] then (this, [])
      else if order[0] !in rounds then this.(order := order[1..]).Drain(staleAfter, now)
      else if !rounds[order[0]].Ready(staleAfter, now) then (this, [])
      else
        var (rest, drained) := Tracker(rounds - {order[0]}, order[1..]).Drain(staleAfter, now);
        (rest, [rounds[order[0]]] + drained)
    }

    /** `order` lists the live rounds, each once. */
    ghost predicate Valid() {
      && (forall i, j :: 0 <= i < j < |order| ==> order[i] != order[j])
      && (forall id :: id in rounds <==> id in order)
      && (forall id :: id in rounds ==> id != "" && rounds[id].roundId == id && rounds[id].Valid())
    }

    /** Rounds are listed in order of creation, none created after `now`. */
    ghost predicate Ordered(now: int)
      requires Valid()
    {
      && (forall i, j :: 0 <= i < j < |order| ==> rounds[order[i]].createdAt <= rounds[order[j]].createdAt)
      && (forall i :: 0 <= i < |order| ==> rounds[order[i]].createdAt <= now)
    }
  }

  function EffectiveStaleAfter(staleAfter: int): (limit: int)
    ensures staleAfter > 0 ==> limit == staleAfter
    ensures staleAfter <= 0 ==> limit == 2_000_000_000
  {
    if staleAfter <= 0 then DEFAULT_STALE_AFTER else staleAfter
  }

  function Observations(drained: seq<Aggregate>): (r: seq<LoadObservation>)
    ensures |r| == |drained|
    ensures forall i :: 0 <= i < |r| ==> r[i] == drained[i].Observation()
  {
    seq(|drained|, i requires 0 <= i < |drained| => drained[i].Observation())
  }

  lemma OpenKeepsValid(t: Tracker, roundId: string, expected: int, now: int)
    requires t.Valid() && roundId != ""
    ensures var u := t.Open(roundId, expected, now);
            && u.Valid() && roundId in u.rounds
            && (t.Ordered(now) ==> u.Ordered(now))
  {
    assert Empty(roundId, expected, now).Valid();
    hide Aggregate.Valid;
    var u := t.Open(roundId, expected, now);
    if roundId !in t.rounds {
      assert u.order[|t.order|] == roundId;
      assert forall i :: 0 <= i < |t.order| ==> u.order[i] == t.order[i] && u.order[i] in t.order;
    }
  }

  lemma UpdateKeepsValid(t: Tracker, id: string, a: Aggregate, now: int)
    requires t.Valid() && id in t.rounds
    requires a.Valid() && a.roundId == id && a.createdAt == t.rounds[id].createdAt
    ensures var u := t.(rounds := t.rounds[id := a]); u.Valid() && (t.Ordered(now) ==> u.Ordered(now))
  {
  }

  /** Registrations and reports, in any order and with any contents, keep the representation and, under a
      clock that does not run backwards, the order of creation. */
  lemma RegisterKeepsValid(t: Tracker, roundId: string, rate: int, expected: int, planned: int, now: int)
    requires t.Valid()
    ensures var u := t.Register(roundId, rate, expected, planned, now);
            u.Valid() && (t.Ordered(now) ==> u.Ordered(now))
  {
    if roundId != "" {
      OpenKeepsValid(t, roundId, expected, now);
      var u := t.Open(roundId, expected, now);
      UpdateKeepsValid(u, roundId, u.rounds[roundId].Plan(rate, expected, planned), now);
    }
  }

  lemma RecordKeepsValid(t: Tracker, report: JobReport, now: int)
    requires t.Valid()
    ensures var u := t.Record(report, now);
            u.Valid() && (t.Ordered(now) ==> u.Ordered(now))
  {
    if report.roundId != "" && report.jobId != "" {
      OpenKeepsValid(t, report.roundId, 0, now);
      var u := t.Open(report.roundId, 0, now);
      UpdateKeepsValid(u, report.roundId, u.rounds[report.roundId].Add(report), now);
    }
  }

  /** Repeating a report while its round is live changes nothing at all. */
  lemma DuplicateChangesNothing(t: Tracker, report: JobReport, now: int)
    requires report.roundId in t.rounds && report.jobId in t.rounds[report.roundId].receivedJobIds
    ensures t.Record(report, now) == t
  {
  }

  /** One turn of the draining loop. */
  lemma DrainTurn(t: Tracker, staleAfter: int, now: int)
    requires t.order != []
    ensures var head, tail := t.order[0], t.order[1..];
            if head !in t.rounds then
              t.Drain(staleAfter, now) == t.(order := tail).Drain(staleAfter, now)
            else if !t.rounds[head].Ready(staleAfter, now) then
              t.Drain(staleAfter, now) == (t, [])
            else
              var (rest, drained) := Tracker(t.rounds - {head}, tail).Drain(staleAfter, now);
              t.Drain(staleAfter, now) == (rest, [t.rounds[head]] + drained)
  {
  }

  lemma NothingToDrain(t: Tracker, staleAfter: int, now: int)
    requires t.order == []
    ensures t.Drain(staleAfter, now) == (t, [])
  {
  }

  /** The number of rounds a drain takes: the longest ready prefix. */
  function ReadyPrefix(t: Tracker, staleAfter: int, now: int): (k: nat)
    requires forall id :: id in t.order ==> id in t.rounds
    ensures k <= |t.order|
    ensures forall i :: 0 <= i < k ==> t.rounds[t.order[i]].Ready(staleAfter, now)
    ensures k < |t.order| ==> !t.rounds[t.order[k]].Ready(staleAfter, now)
    decreases |t.order|
  {
    if t.order == [] || !t.rounds[t.order[0]].Ready(staleAfter, now) then 0
    else 1 + ReadyPrefix(t.(order := t.order[1..]), staleAfter, now)
  }

  lemma TailIsValid(t: Tracker)
    requires t.Valid() && t.order != []
    ensures Tracker(t.rounds - {t.order[0]}, t.order[1..]).Valid()
  {
    forall id | id in t.rounds && id != t.order[0]
      ensures id in t.order[1..]
    {
      var i :| 0 <= i < |t.order| && t.order[i] == id;
      assert t.order[1..][i - 1] == id;
    }
  }

  lemma PrefixOfTail(t: Tracker, staleAfter: int, now: int)
    requires t.Valid() && t.order != [] && t.rounds[t.order[0]].Ready(staleAfter, now)
    ensures var rest := Tracker(t.rounds - {t.order[0]}, t.order[1..]);
            && (forall id :: id in rest.order ==> id in rest.rounds)
            && ReadyPrefix(t, staleAfter, now) == 1 + ReadyPrefix(rest, staleAfter, now)
  {
    TailIsValid(t);
    PrefixIgnoresOthers(t.(order := t.order[1..]), t.rounds - {t.order[0]}, staleAfter, now);
  }

  lemma {:induction false} PrefixIgnoresOthers(t: Tracker, rounds: map<string, Aggregate>, staleAfter: int, now: int)
    requires forall id :: id in t.order ==> id in t.rounds && id in rounds && rounds[id] == t.rounds[id]
    ensures ReadyPrefix(t, staleAfter, now) == ReadyPrefix(Tracker(rounds, t.order), staleAfter, now)
    decreases |t.order|
  {
    if t.order != [] {
      PrefixIgnoresOthers(t.(order := t.order[1..]), rounds, staleAfter, now);
    }
  }

  ghost predicate Submap(small: map<string, Aggregate>, large: map<string, Aggregate>) {
    forall id :: id in small ==> id in large && small[id] == large[id]
  }

  lemma {:induction false} DrainKeepsValid(t: Tracker, staleAfter: int, now: int)
    requires t.Valid()
    ensures var u := t.Drain(staleAfter, now).0; u.Valid() && Submap(u.rounds, t.rounds)
    decreases |t.order|
  {
    if t.order != [] && t.rounds[t.order[0]].Ready(staleAfter, now) {
      TailIsValid(t);
      DrainKeepsValid(Tracker(t.rounds - {t.order[0]}, t.order[1..]), staleAfter, now);
    }
  }

  /** A drain takes exactly the longest ready prefix, oldest first, one aggregate per round; the rounds
      behind it stay, untouched and in order. */
  lemma {:induction false} DrainTakesReadyPrefix(t: Tracker, staleAfter: int, now: int)
    requires t.Valid()
    ensures var (u, drained) := t.Drain(staleAfter, now);
            var k := ReadyPrefix(t, staleAfter, now);
            && u.order == t.order[k..]
            && |drained| == k
            && (forall i :: 0 <= i < k ==> drained[i] == t.rounds[t.order[i]])
    decreases |t.order|
  {
    hide *;
    DrainHead(t, staleAfter, now);
    if ReadyPrefix(t, staleAfter, now) > 0 {
      var rest := Tracker(t.rounds - {t.order[0]}, t.order[1..]);
      TailIsValid(t);
      DrainTakesReadyPrefix(rest, staleAfter, now);
      var drained := rest.Drain(staleAfter, now).1;
      forall i | 1 <= i < ReadyPrefix(t, staleAfter, now)
        ensures ([t.rounds[t.order[0]]] + drained)[i] == t.rounds[t.order[i]]
      {
        assert drained[i - 1] == rest.rounds[rest.order[i - 1]];
      }
    }
  }

  /** What the first turn of a drain does to the prefix still to be taken. */
  lemma DrainHead(t: Tracker, staleAfter: int, now: int)
    requires t.Valid()
    ensures forall id :: id in t.order ==> id in t.rounds
    ensures if ReadyPrefix(t, staleAfter, now) == 0 then t.Drain(staleAfter, now) == (t, [])
            else
              && t.order != [] && t.order[0] in t.rounds
              && var rest := Tracker(t.rounds - {t.order[0]}, t.order[1..]);
                 && (forall id :: id in rest.order ==> id in rest.rounds && rest.rounds[id] == t.rounds[id])
                 && ReadyPrefix(t, staleAfter, now) == 1 + ReadyPrefix(rest, staleAfter, now)
                 && var (u, drained) := rest.Drain(staleAfter, now);
                    t.Drain(staleAfter, now) == (u, [t.rounds[t.order[0]]] + drained)
  {
    hide Tracker.Drain;
    if t.order == [] {
      NothingToDrain(t, staleAfter, now);
    } else {
      DrainTurn(t, staleAfter, now);
      if t.rounds[t.order[0]].Ready(staleAfter, now) {
        PrefixOfTail(t, staleAfter, now);
        TailIsValid(t);
      }
    }
  }

  lemma DrainedFromPrefix(t: Tracker, staleAfter: int, now: int, a: Aggregate) returns (j: nat)
    requires t.Valid() && a in t.Drain(staleAfter, now).1
    ensures j < ReadyPrefix(t, staleAfter, now) && t.rounds[t.order[j]] == a
  {
    DrainTakesReadyPrefix(t, staleAfter, now);
    hide Tracker.Drain, ReadyPrefix, Tracker.Valid;
    var drained := t.Drain(staleAfter, now).1;
    j :| 0 <= j < |drained| && drained[j] == a;
  }

  lemma StaysLiveIffBehindPrefix(t: Tracker, staleAfter: int, now: int, i: nat)
    requires t.Valid() && i < |t.order|
    ensures t.order[i] in t.Drain(staleAfter, now).0.rounds <==> i >= ReadyPrefix(t, staleAfter, now)
  {
    DrainKeepsValid(t, staleAfter, now);
    DrainTakesReadyPrefix(t, staleAfter, now);
    hide *;
    var u, k := t.Drain(staleAfter, now).0, ReadyPrefix(t, staleAfter, now);
    if t.order[i] in u.rounds {
      var m := PlaceInLine(u, t.order[i]);
      SamePlace(t, m + k, i);
    }
    if i >= k {
      ListedIsLive(u, i - k);
    }
  }

  /** Every live round either stays live or is emitted, never both; which one is decided by its place in line. */
  lemma DrainSplitsRounds(t: Tracker, staleAfter: int, now: int, i: nat)
    requires t.Valid() && i < |t.order|
    ensures var (u, drained) := t.Drain(staleAfter, now);
            && (t.order[i] in u.rounds <==> i >= ReadyPrefix(t, staleAfter, now))
            && (t.rounds[t.order[i]] in drained <==> i < ReadyPrefix(t, staleAfter, now))
  {
    StaysLiveIffBehindPrefix(t, staleAfter, now, i);
    DrainTakesReadyPrefix(t, staleAfter, now);
    hide *;
    if t.rounds[t.order[i]] in t.Drain(staleAfter, now).1 {
      var j := DrainedFromPrefix(t, staleAfter, now, t.rounds[t.order[i]]);
      SamePlace(t, i, j);
    }
    if i < ReadyPrefix(t, staleAfter, now) {
      assert t.Drain(staleAfter, now).1[i] == t.rounds[t.order[i]];
    }
  }

  lemma ListedIsLive(t: Tracker, i: nat)
    requires t.Valid() && i < |t.order|
    ensures t.order[i] in t.rounds
  {
  }

  lemma SamePlace(t: Tracker, i: nat, j: nat)
    requires t.Valid() && i < |t.order| && j < |t.order|
    requires t.order[i] == t.order[j] || t.rounds[t.order[i]] == t.rounds[t.order[j]]
    ensures i == j
  {
    assert t.order[i] in t.rounds && t.order[j] in t.rounds;
  }

  lemma SuffixKeepsOrder(t: Tracker, u: Tracker, k: nat, now: int)
    requires t.Valid() && u.Valid() && t.Ordered(now)
    requires k <= |t.order| && u.order == t.order[k..] && Submap(u.rounds, t.rounds)
    ensures u.Ordered(now)
  {
    hide Aggregate.Valid;
    assert forall i :: 0 <= i < |u.order| ==> u.order[i] in u.rounds;
    assert forall i :: 0 <= i < |u.order| ==> u.rounds[u.order[i]] == t.rounds[t.order[i + k]];
  }

  lemma BehindUnreadyIsYoung(t: Tracker, staleAfter: int, now: int, i: nat)
    requires t.Valid() && t.Ordered(now)
    requires ReadyPrefix(t, staleAfter, now) <= i < |t.order|
    ensures !t.rounds[t.order[i]].Stale(staleAfter, now)
  {
    hide Aggregate.Valid;
    var k := ReadyPrefix(t, staleAfter, now);
    assert !t.rounds[t.order[k]].Ready(staleAfter, now);
  }

  /** All expected reports have come, and some were expected, or the round was created at least the limit ago. */
  ghost predicate IsDue(a: Aggregate, limit: int, now: int) {
    0 < a.expectedReports <= a.receivedReports || now - a.createdAt >= limit
  }

  ghost predicate IsOfDueRound(t: Tracker, o: LoadObservation, limit: int, now: int) {
    exists id :: id in t.rounds && o == t.rounds[id].Observation() && IsDue(t.rounds[id], limit, now)
  }

  ghost predicate EmitsOnlyDue(t: Tracker, observations: seq<LoadObservation>, limit: int, now: int) {
    forall i :: 0 <= i < |observations| ==> IsOfDueRound(t, observations[i], limit, now)
  }

  ghost predicate HeadIsNotDue(t: Tracker, limit: int, now: int) {
    t.order != [] ==> t.order[0] in t.rounds && !IsDue(t.rounds[t.order[0]], limit, now)
  }

  /** Whatever a tracker holds, a drain emits only due rounds of it, and leaves at its head one that is not due, if any. */
  lemma {:induction false} DrainStopsAtFirstNotDue(t: Tracker, staleAfter: int, now: int)
    ensures var (u, drained) := t.Drain(staleAfter, now);
            && (forall i :: 0 <= i < |drained| ==> drained[i] in t.rounds.Values && IsDue(drained[i], staleAfter, now))
            && HeadIsNotDue(u, staleAfter, now)
    decreases |t.order|
  {
    if t.order != [] && t.order[0] !in t.rounds {
      DrainStopsAtFirstNotDue(t.(order := t.order[1..]), staleAfter, now);
    }
    if t.order != [] && t.order[0] in t.rounds {
      DrainStopsAtFirstNotDue(Tracker(t.rounds - {t.order[0]}, t.order[1..]), staleAfter, now);
    }
  }

  lemma DrainEmitsOnlyDue(t: Tracker, staleAfter: int, now: int)
    ensures var (u, drained) := t.Drain(staleAfter, now);
            EmitsOnlyDue(t, Observations(drained), staleAfter, now) && HeadIsNotDue(u, staleAfter, now)
  {
    hide Tracker.Drain;
    DrainStopsAtFirstNotDue(t, staleAfter, now);
    var drained := t.Drain(staleAfter, now).1;
    var observations := Observations(drained);
    forall i | 0 <= i < |observations|
      ensures IsOfDueRound(t, observations[i], staleAfter, now)
    {
      assert drained[i] in t.rounds.Values;
      var id :| id in t.rounds && t.rounds[id] == drained[i];
      assert observations[i] == t.rounds[id].Observation();
    }
  }

  /** A live round is emitted exactly when it and all those in front of it are due. */
  lemma EmittedIffAllDueSoFar(t: Tracker, staleAfter: int, now: int, i: nat)
    requires t.Valid() && i < |t.order|
    ensures t.rounds[t.order[i]] in t.Drain(staleAfter, now).1 <==>
            forall j :: 0 <= j <= i ==> IsDue(t.rounds[t.order[j]], staleAfter, now)
  {
    DrainSplitsRounds(t, staleAfter, now, i);
    hide Tracker.Drain, Aggregate.Valid;
    var k := ReadyPrefix(t, staleAfter, now);
    assert forall j :: 0 <= j < k ==> t.rounds[t.order[j]].Ready(staleAfter, now);
    if k <= i {
      assert !IsDue(t.rounds[t.order[k]], staleAfter, now);
    }
  }

  /** When rounds are listed in order of creation, a drain leaves no stale round behind an unready
      head: every round still live is younger than the limit, and every other one has been emitted. */
  lemma DrainLeavesNothingStale(t: Tracker, staleAfter: int, now: int)
    requires t.Valid() && t.Ordered(now)
    ensures var (u, drained) := t.Drain(staleAfter, now);
            && u.Valid() && u.Ordered(now)
            && (forall id :: id in u.rounds ==> now - u.rounds[id].createdAt < staleAfter)
            && (forall id :: id in t.rounds ==> (id in u.rounds <==> t.rounds[id] !in drained))
  {
    DrainKeepsValid(t, staleAfter, now);
    DrainTakesReadyPrefix(t, staleAfter, now);
    hide *;
    var (u, drained) := t.Drain(staleAfter, now);
    SuffixKeepsOrder(t, u, ReadyPrefix(t, staleAfter, now), now);
    forall id | id in t.rounds
      ensures id in u.rounds ==> u.rounds[id] == t.rounds[id] && !t.rounds[id].Stale(staleAfter, now)
      ensures id in u.rounds <==> t.rounds[id] !in drained
    {
      var i := PlaceInLine(t, id);
      DrainSplitsRounds(t, staleAfter, now, i);
      if id in u.rounds {
        assert u.rounds[id] == t.rounds[id] by {
          SubmapAgrees(u.rounds, t.rounds, id);
        }
        BehindUnreadyIsYoung(t, staleAfter, now, i);
      }
    }
    forall id | id in u.rounds
      ensures !u.rounds[id].Stale(staleAfter, now)
    {
      SubmapAgrees(u.rounds, t.rounds, id);
    }
  }

  lemma SubmapAgrees(small: map<string, Aggregate>, large: map<string, Aggregate>, id: string)
    requires Submap(small, large) && id in small
    ensures id in large && small[id] == large[id]
  {
  }

  lemma PlaceInLine(t: Tracker, id: string) returns (i: nat)
    requires t.Valid() && id in t.rounds
    ensures i < |t.order| && t.order[i] == id
  {
    i :| 0 <= i < |t.order| && t.order[i] == id;
  }
}
