/** The messages exchanged between the orchestrator and its executors (types/types.go),
    and the observation a drained round hands to the load calculator. */
module Types {

  datatype RequestSpec = RequestSpec(
    httpMethod: string,
    path: string,
    queryString: string,
    headers: map<string, seq<string>>,
    body: string)

  datatype Job = Job(
    id: string,
    roundId: string,
    requests: seq<RequestSpec>,
    targetUrls: seq<string>,
    ratePerSec: int,
    durationMillis: int)

  datatype JobReport = JobReport(
    jobId: string,
    roundId: string,
    plannedRequests: int,
    completedRequests: int,
    successCount: int,
    failureCount: int,
    timeoutCount: int,
    latencyMillis: seq<int>)

  datatype LoadObservation = LoadObservation(
    roundId: string,
    totalRps: int,
    plannedRequests: int,
    completedRequests: int,
    successCount: int,
    failureCount: int,
    timeoutCount: int,
    p99LatencyMillis: int)
  {
    /** The share of timed-out requests, over the completed ones or, when there are none, the planned ones. */
    function TimeoutRatio(): real
    {
      var denominator := if completedRequests <= 0 then plannedRequests else completedRequests;
      if denominator <= 0 then 0.0 else timeoutCount as real / denominator as real
    }
  }

  /** The ratio reaches one half exactly when twice the timeouts reach the denominator. */
  lemma TimeoutRatioReachesHalf(o: LoadObservation)
    ensures var denominator := if o.completedRequests <= 0 then o.plannedRequests else o.completedRequests;
            o.TimeoutRatio() >= 0.5 <==> denominator > 0 && 2 * o.timeoutCount >= denominator
  {
    var denominator := if o.completedRequests <= 0 then o.plannedRequests else o.completedRequests;
    if denominator > 0 {
      HalfOf(o.timeoutCount, denominator);
    }
  }

  lemma HalfOf(part: int, whole: int)
    requires whole > 0
    ensures part as real / whole as real >= 0.5 <==> 2 * part >= whole
  {
    var ratio := part as real / whole as real;
    var w := whole as real;
    assert ratio * w == part as real;
    if ratio >= 0.5 {
      ScaleUp(0.5, ratio, w);
      assert 2.0 * part as real >= w;
    } else {
      assert (0.5 - ratio) * w > 0.0;
      assert 2.0 * part as real < w;
      assert (2 * part) as real < w;
    }
  }

  lemma ScaleUp(a: real, b: real, w: real)
    requires a <= b && w > 0.0
    ensures a * w <= b * w
  {
    assert (b - a) * w >= 0.0;
  }
}
