/** The source's tracker: a map of mutable aggregates and the order in which rounds appeared,
    each operation proved to act as the operation of the same name on RoundReports.Tracker. */
module RoundTracking {
  import opened Wrappers
  import opened Types
  import opened Percentile
  import opened RoundReports

  datatype RecordError = MissingRoundId | MissingJobId

  class RoundAggregate {
    const roundId: string
    const createdAt: int
    var totalRps: int
    var plannedRequests: int
    var hasRoundPlan: bool
    var expectedReports: int
    var receivedReports: nat
    var successCount: int
    var failureCount: int
    var timeoutCount: int
    var completedRequests: int
    var latencyMillis: seq<int>
    var receivedJobIds: set<string>

    ghost function Value(): Aggregate
      reads this
    {
      Aggregate(roundId, totalRps, plannedRequests, hasRoundPlan, expectedReports, receivedReports, successCount,
                failureCount, timeoutCount, completedRequests, latencyMillis, receivedJobIds, createdAt)
    }

    constructor (roundId: string, expectedReports: int, now: int)
      ensures Value() == Empty(roundId, expectedReports, now)
    {
      this.roundId, createdAt := roundId, now;
      totalRps, plannedRequests, hasRoundPlan := 0, 0, false;
      this.expectedReports, receivedReports := expectedReports, 0;
      successCount, failureCount, timeoutCount, completedRequests := 0, 0, 0, 0;
      latencyMillis, receivedJobIds := [], {};
    }

    /** What a registration sets. */
    method Plan(totalRps: int, expectedReports: int, plannedRequests: int)
      modifies this
      ensures Value() == old(Value()).Plan(totalRps, expectedReports, plannedRequests)
    {
      this.totalRps := totalRps;
      if expectedReports > this.expectedReports {
        this.expectedReports := expectedReports;
      }
      if plannedRequests >= 0 {
        this.plannedRequests := plannedRequests;
        hasRoundPlan := true;
      }
    }

    /** What a report adds, unless its job has already reported. */
    method Add(report: JobReport)
      modifies this
      ensures Value() == old(Value()).Add(report)
    {
      if report.jobId in receivedJobIds {
        return;
      }
      receivedJobIds := receivedJobIds + {report.jobId};
      receivedReports := receivedReports + 1;
      successCount := successCount + report.successCount;
      failureCount := failureCount + report.failureCount;
      timeoutCount := timeoutCount + report.timeoutCount;
      completedRequests := completedRequests + report.completedRequests;
      if !hasRoundPlan {
        plannedRequests := plannedRequests + (if report.plannedRequests < 0 then 0 else report.plannedRequests);
      }
      latencyMillis := latencyMillis + report.latencyMillis;
    }

    method LoadObservation() returns (observation: LoadObservation)
      ensures observation == Value().Observation()
    {
      var latencies := Sort(latencyMillis);
      var completed, success, failures, timeouts := completedRequests, successCount, failureCount, timeoutCount;
      if receivedReports == 0 && plannedRequests > 0 {
        completed, success, failures, timeouts := plannedRequests, 0, plannedRequests, plannedRequests;
      }
      observation := Types.LoadObservation(
        roundId, totalRps, plannedRequests, completed, success, failures, timeouts, P99Latency(latencies));
    }
  }

  class RoundTracker {
    var rounds: map<string, RoundAggregate>
    var order: seq<string>

    /** No two rounds share an aggregate. */
    ghost predicate Valid()
      reads this
    {
      forall a, b :: a in rounds && b in rounds && a != b ==> rounds[a] != rounds[b]
    }

    ghost function State(): Tracker
      reads this, rounds.Values
    {
      Tracker(map id | id in rounds :: rounds[id].Value(), order)
    }

    constructor ()
      ensures Valid() && fresh(rounds.Values)
      ensures State() == Tracker(map[], [])
    {
      rounds, order := map[], [];
    }

    /** Looks the round up, or appends a new aggregate for it. */
    method Open(roundId: string, expectedReports: int, now: int) returns (aggregate: RoundAggregate)
      requires Valid()
      modifies this
      ensures Valid() && fresh(rounds.Values - old(rounds.Values))
      ensures State() == old(State()).Open(roundId, expectedReports, now)
      ensures roundId in rounds && aggregate == rounds[roundId]
    {
      if roundId in rounds {
        return rounds[roundId];
      }
      aggregate := new RoundAggregate(roundId, expectedReports, now);
      rounds := rounds[roundId := aggregate];
      order := order + [roundId];
    }

    method RegisterRound(roundId: string, totalRps: int, expectedReports: int, plannedRequests: int, now: int)
      requires Valid()
      modifies this, rounds.Values
      ensures Valid() && fresh(rounds.Values - old(rounds.Values))
      ensures State() == old(State()).Register(roundId, totalRps, expectedReports, plannedRequests, now)
    {
      if roundId == "" {
        return;
      }
      var aggregate := Open(roundId, expectedReports, now);
      ghost var live := State();
      aggregate.Plan(totalRps, expectedReports, plannedRequests);
      assert State().rounds == live.rounds[roundId := aggregate.Value()];
    }

    method RecordJobReport(report: JobReport, now: int) returns (error: Option<RecordError>)
      requires Valid()
      modifies this, rounds.Values
      ensures Valid() && fresh(rounds.Values - old(rounds.Values))
      ensures State() == old(State()).Record(report, now)
      ensures error == (if report.roundId == "" then Some(MissingRoundId)
                        else if report.jobId == "" then Some(MissingJobId) else None)
    {
      if report.roundId == "" {
        return Some(MissingRoundId);
      }
      if report.jobId == "" {
        return Some(MissingJobId);
      }
      var aggregate := Open(report.roundId, 0, now);
      ghost var live := State();
      aggregate.Add(report);
      assert State().rounds == live.rounds[report.roundId := aggregate.Value()];
      return None;
    }

    /** Removes the round at the front and hands out its observation. */
    method TakeFront() returns (observation: LoadObservation)
      requires Valid() && |order| > 0 && order[0] in rounds
      modifies this
      ensures Valid() && rounds.Values <= old(rounds.Values)
      ensures State() == Tracker(old(State()).rounds - {old(order[0])}, old(order)[1..])
      ensures observation == old(State()).rounds[old(order[0])].Observation()
    {
      observation := rounds[order[0]].LoadObservation();
      rounds := rounds - {order[0]};
      order := order[1..];
    }

    /** The drain, for the staleness limit given or, when that is not positive, the default of two seconds. */
    method DrainReadyObservations(staleAfter: int, now: int) returns (observations: seq<LoadObservation>)
      requires Valid()
      modifies this
      ensures Valid() && rounds.Values <= old(rounds.Values)
      ensures State() == old(State()).Drain(EffectiveStaleAfter(staleAfter), now).0
      ensures observations == Observations(old(State()).Drain(EffectiveStaleAfter(staleAfter), now).1)
      // What is emitted has all its reports or is old enough; what is left at the head has and is neither.
      ensures EmitsOnlyDue(old(State()), observations, if staleAfter > 0 then staleAfter else 2_000_000_000, now)
      ensures HeadIsNotDue(State(), if staleAfter > 0 then staleAfter else 2_000_000_000, now)
    {
      var limit := EffectiveStaleAfter(staleAfter);
      observations := [];
      ghost var drained: seq<Aggregate> := [];
      hide Tracker.Drain, EmitsOnlyDue, HeadIsNotDue;
      while |order| > 0
        invariant Valid() && rounds.Values <= old(rounds.Values)
        invariant old(State()).Drain(limit, now).0 == State().Drain(limit, now).0
        invariant old(State()).Drain(limit, now).1 == drained + State().Drain(limit, now).1
        invariant observations == Observations(drained)
        decreases |order|
      {
        var roundId := order[0];
        ghost var before := State();
        DrainTurn(before, limit, now);
        if roundId !in rounds {
          order := order[1..];
          assert State() == before.(order := before.order[1..]);
          continue;
        }
        var aggregate := rounds[roundId];
        var complete := aggregate.expectedReports > 0 && aggregate.receivedReports >= aggregate.expectedReports;
        var stale := now - aggregate.createdAt >= limit;
        if !complete && !stale {
          break;
        }
        var observation := TakeFront();
        observations := observations + [observation];
        drained := drained + [before.rounds[roundId]];
      }
      if |order| == 0 {
        NothingToDrain(State(), limit, now);
      }
      DrainEmitsOnlyDue(old(State()), limit, now);
    }
  }
}
