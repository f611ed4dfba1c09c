/** Running one job on an executor (executor/worker/worker.go).  What the target does with each
    request, and how many requests the job's deadline leaves time for, are oracles. */
module JobExecution {
  import opened Types
  import opened Arithmetic

  const MINUTE_NANOS: nat := 60_000_000_000

  /** What the HTTP client met: durations are in nanoseconds. */
  datatype Outcome =
    | BadTarget
    | BadRequest
    | NoResponse(duration: nat)
    | Response(status: int, readable: bool, firstByte: nat, total: nat)

  datatype RequestResult = RequestResult(executed: bool, success: bool, timeout: bool, duration: nat)

  function ExecuteRequest(outcome: Outcome): RequestResult {
    match outcome
    case BadTarget => RequestResult(true, false, false, 0)
    case BadRequest => RequestResult(true, false, false, 0)
    case NoResponse(duration) => RequestResult(true, false, duration >= MINUTE_NANOS, duration)
    case Response(status, readable, firstByte, total) =>
      if status >= 300 then RequestResult(true, false, status == 503 || status == 504, firstByte)
      else if !readable then RequestResult(true, false, false, total)
      else RequestResult(true, true, false, total)
  }

  function Millis(nanos: nat): nat { nanos / 1_000_000 }

  // ---- What a report should say

  predicate Succeeds(o: Outcome) {
    o.Response? && o.status < 300 && o.readable
  }

  /** A 503, a 504, or no response for a minute. */
  predicate TimesOut(o: Outcome) {
    (o.NoResponse? && o.duration >= 60_000_000_000) || (o.Response? && o.status in {503, 504})
  }

  /** Whole milliseconds of a time in nanoseconds. */
  predicate IsMillis(l: int, nanos: int) {
    1_000_000 * l <= nanos < 1_000_000 * (l + 1)
  }

  /** What a request is charged: the whole response up to its end, however the body reads, for a status below 300; the time to the
      first byte for any other status; the wait for a response that never came; nothing for a request that was never sent. */
  predicate Charged(o: Outcome, l: int) {
    && (o.Response? && o.status < 300 ==> IsMillis(l, o.total))
    && (o.Response? && o.status >= 300 ==> IsMillis(l, o.firstByte))
    && (o.NoResponse? ==> IsMillis(l, o.duration))
    && (o.BadTarget? || o.BadRequest? ==> l == 0)
  }

  /** Every request is executed, counts as exactly one of success and failure, and is a timeout only if it failed. */
  lemma ResultClassifies(o: Outcome)
    ensures var r := ExecuteRequest(o);
            && r.executed
            && (r.success <==> Succeeds(o))
            && (r.timeout <==> TimesOut(o))
            && Charged(o, Millis(r.duration))
            && !(r.success && r.timeout)
  {
  }

  ghost function Count(os: seq<Outcome>, p: Outcome -> bool): (n: nat)
    ensures n <= |os|
  {
    if os == [] then 0 else Count(os[..|os| - 1], p) + (if p(os[|os| - 1]) then 1 else 0)
  }

  lemma {:induction false} CountSplits(os: seq<Outcome>)
    ensures Count(os, Succeeds) + Count(os, TimesOut) <= |os|
  {
    if os != [] {
      CountSplits(os[..|os| - 1]);
    }
  }

  /** Every completed request either succeeded or failed, none was invented, and only failures are timeouts. */
  ghost predicate Accountable(r: JobReport) {
    && 0 <= r.successCount && 0 <= r.failureCount
    && r.successCount + r.failureCount == r.completedRequests <= r.plannedRequests
    && 0 <= r.timeoutCount <= r.failureCount
  }

  datatype Call = Call(target: string, request: RequestSpec)

  /** Runs the requests in order, one target after another, until the deadline: `alive` requests start before it. */
  method RunJob(job: Job, outcomes: seq<Outcome>, alive: nat) returns (report: JobReport, calls: seq<Call>)
    requires |outcomes| == |job.requests|
    ensures report.jobId == job.id && report.roundId == job.roundId
    ensures report.plannedRequests == |job.requests|
    ensures Accountable(report)
    ensures job.targetUrls == [] ==>
              report.timeoutCount == report.failureCount == report.completedRequests == |job.requests| &&
              report.latencyMillis == [] && calls == []
    ensures job.targetUrls != [] ==> DealtInTurn(calls, job.targetUrls)
    ensures job.targetUrls != [] ==>
              var started := if alive < |job.requests| then alive else |job.requests|;
              && report.completedRequests == |report.latencyMillis| == |calls| == started
              && report.successCount == Count(outcomes[..started], Succeeds)
              && report.timeoutCount == Count(outcomes[..started], TimesOut)
              && (forall i :: 0 <= i < started ==>
                    && calls[i] == Call(job.targetUrls[i % |job.targetUrls|], job.requests[i])
                    && Charged(outcomes[i], report.latencyMillis[i]))
  {
    hide ExecuteRequest, Succeeds, TimesOut, Charged, Millis;
    var planned := |job.requests|;
    calls := [];
    if |job.targetUrls| == 0 {
      report := JobReport(job.id, job.roundId, planned, planned, 0, planned, planned, []);
      return;
    }
    var completed, success, failure, timeout, latencies := 0, 0, 0, 0, [];
    var idx := 0;
    while idx < |job.requests|
      invariant 0 <= idx <= |job.requests| && idx <= alive
      invariant completed == idx == |latencies| == |calls|
      invariant success + failure == completed
      invariant success == Count(outcomes[..idx], Succeeds)
      invariant timeout == Count(outcomes[..idx], TimesOut)
      invariant forall i :: 0 <= i < idx ==>
                  && calls[i] == Call(job.targetUrls[i % |job.targetUrls|], job.requests[i])
                  && Charged(outcomes[i], latencies[i])
    {
      if idx >= alive {
        break;
      }
      var target := job.targetUrls[idx % |job.targetUrls|];
      var result := ExecuteRequest(outcomes[idx]);
      ResultClassifies(outcomes[idx]);
      calls := calls + [Call(target, job.requests[idx])];
      assert outcomes[..idx + 1][..idx] == outcomes[..idx];
      if result.executed {
        completed := completed + 1;
        latencies := latencies + [Millis(result.duration)];
        if result.success {
          success := success + 1;
        } else {
          failure := failure + 1;
        }
        if result.timeout {
          timeout := timeout + 1;
        }
      }
      idx := idx + 1;
    }
    CountSplits(outcomes[..idx]);
    report := JobReport(job.id, job.roundId, planned, completed, success, failure, timeout, latencies);
  }

  /** How often target k of n is tried when requests are dealt out in turn. */
  function Turns(requests: nat, n: nat, k: nat): nat
    requires n > 0
  {
    if requests == 0 then 0 else Turns(requests - 1, n, k) + (if (requests - 1) % n == k then 1 else 0)
  }

  lemma {:induction false} TurnsAreEven(requests: nat, n: nat, k: nat)
    requires n > 0 && k < n
    ensures Turns(requests, n, k) == requests / n + (if k < requests % n then 1 else 0)
  {
    if requests > 0 {
      TurnsAreEven(requests - 1, n, k);
      NextInBlock(requests - 1, n);
    }
  }

  /** How many calls went to a target. */
  function CallsTo(calls: seq<Call>, target: string): nat {
    if calls == [] then 0
    else CallsTo(calls[..|calls| - 1], target) + (if calls[|calls| - 1].target == target then 1 else 0)
  }

  ghost predicate DealtInTurn(calls: seq<Call>, targets: seq<string>)
    requires targets != []
  {
    forall i :: 0 <= i < |calls| ==> calls[i].target == targets[i % |targets|]
  }

  /** How often a target is listed. */
  function Listings(targets: seq<string>, target: string): nat {
    if targets == [] then 0
    else Listings(targets[..|targets| - 1], target) + (if targets[|targets| - 1] == target then 1 else 0)
  }

  /** The turns of all of a target's listings among the first `upTo`. */
  function ListedTurns(requests: nat, targets: seq<string>, target: string, upTo: nat): nat
    requires upTo <= |targets|
  {
    if upTo == 0 then 0
    else
      ListedTurns(requests, targets, target, upTo - 1) +
      (if targets[upTo - 1] == target then Turns(requests, |targets|, upTo - 1) else 0)
  }

  lemma {:induction false} OneMoreTurn(requests: nat, targets: seq<string>, target: string, upTo: nat)
    requires targets != [] && upTo <= |targets|
    ensures ListedTurns(requests + 1, targets, target, upTo) ==
            ListedTurns(requests, targets, target, upTo) +
            (if requests % |targets| < upTo && targets[requests % |targets|] == target then 1 else 0)
  {
    if upTo > 0 {
      OneMoreTurn(requests, targets, target, upTo - 1);
    }
  }

  lemma {:induction false} NoTurns(targets: seq<string>, target: string, upTo: nat)
    requires targets != [] && upTo <= |targets|
    ensures ListedTurns(0, targets, target, upTo) == 0
  {
    if upTo > 0 {
      NoTurns(targets, target, upTo - 1);
    }
  }

  lemma {:induction false} CallsAreTurns(calls: seq<Call>, targets: seq<string>, target: string)
    requires targets != [] && DealtInTurn(calls, targets)
    ensures CallsTo(calls, target) == ListedTurns(|calls|, targets, target, |targets|)
  {
    if calls == [] {
      NoTurns(targets, target, |targets|);
    } else {
      CallsAreTurns(calls[..|calls| - 1], targets, target);
      OneMoreTurn(|calls| - 1, targets, target, |targets|);
    }
  }

  lemma {:induction false} TurnsPerListing(requests: nat, targets: seq<string>, target: string, upTo: nat, q: nat)
    requires upTo <= |targets|
    requires forall k :: 0 <= k < |targets| ==> q <= Turns(requests, |targets|, k) <= q + 1
    ensures var p := Listings(targets[..upTo], target);
            p * q <= ListedTurns(requests, targets, target, upTo) <= p * q + p
  {
    hide Turns;
    if upTo > 0 {
      TurnsPerListing(requests, targets, target, upTo - 1, q);
      assert targets[..upTo][..upTo - 1] == targets[..upTo - 1];
      OneMoreFold(Listings(targets[..upTo - 1], target), q);
    }
  }

  lemma OneMoreFold(p: nat, q: nat)
    ensures (p + 1) * q == p * q + q
  {
  }

  /** Calls that are dealt in turn, as RunJob's are, give every target its share for each time it is listed, up to one
      call a listing: of targets listed once, none is tried more than once more than another. */
  lemma TargetsShareEvenly(calls: seq<Call>, targets: seq<string>, target: string, other: string)
    requires targets != [] && DealtInTurn(calls, targets)
    ensures var p, q := Listings(targets, target), |calls| / |targets|;
            && p * q <= CallsTo(calls, target) <= p * q + p
            && (Listings(targets, other) == p ==> CallsTo(calls, target) <= CallsTo(calls, other) + p)
  {
    hide *;
    assert targets[..|targets|] == targets;
    forall k | 0 <= k < |targets|
      ensures |calls| / |targets| <= Turns(|calls|, |targets|, k) <= |calls| / |targets| + 1
    {
      TurnsAreEven(|calls|, |targets|, k);
    }
    CallsAreTurns(calls, targets, target);
    TurnsPerListing(|calls|, targets, target, |targets|, |calls| / |targets|);
    CallsAreTurns(calls, targets, other);
    TurnsPerListing(|calls|, targets, other, |targets|, |calls| / |targets|);
  }
}
