/** The counters of a job report keep their meaning through aggregation into the observation the controller reads. */
module Accounting {
  import opened Types
  import opened RoundReports
  import opened ReportLedger
  import opened JobExecution

  ghost predicate Balanced(a: Aggregate) {
    && 0 <= a.successCount && 0 <= a.failureCount
    && a.successCount + a.failureCount == a.completedRequests
    && 0 <= a.timeoutCount <= a.failureCount
    && 0 <= a.plannedRequests
  }

  ghost predicate AllBalanced(t: Tracker) {
    forall id :: id in t.rounds ==> Balanced(t.rounds[id])
  }

  ghost predicate FromRunJob(es: seq<Event>) {
    forall i :: 0 <= i < |es| && es[i].Report? ==> Accountable(es[i].report)
  }

  /** Completed requests are successes or failures, and the timeout ratio is a ratio. */
  ghost predicate IsSane(o: LoadObservation) {
    && o.successCount + o.failureCount == o.completedRequests
    && 0 <= o.timeoutCount <= o.failureCount
    && 0.0 <= o.TimeoutRatio() <= 1.0
  }

  lemma RatioIsARatio(part: int, whole: int)
    requires 0 <= part <= whole && whole > 0
    ensures 0.0 <= part as real / whole as real <= 1.0
  {
    var ratio, w := part as real / whole as real, whole as real;
    assert ratio * w == part as real;
    if ratio > 1.0 {
      ScaleStrictly(1.0, ratio, w);
    }
    if ratio < 0.0 {
      ScaleStrictly(ratio, 0.0, w);
    }
  }

  lemma ScaleStrictly(a: real, b: real, w: real)
    requires a < b && w > 0.0
    ensures a * w < b * w
  {
    assert (b - a) * w > 0.0;
  }

  lemma BalancedIsSane(a: Aggregate)
    requires Balanced(a)
    ensures IsSane(a.Observation())
  {
    var o := a.Observation();
    assert o.successCount + o.failureCount == o.completedRequests && 0 <= o.timeoutCount <= o.failureCount;
    assert 0 <= o.successCount && (o.completedRequests <= 0 ==> o.timeoutCount == 0);
    hide Aggregate.Observation;
    var denominator := if o.completedRequests <= 0 then o.plannedRequests else o.completedRequests;
    if denominator > 0 {
      RatioIsARatio(o.timeoutCount, denominator);
    }
  }

  lemma EventKeepsBalance(t: Tracker, e: Event)
    requires t.Valid() && AllBalanced(t)
    requires e.Report? ==> Accountable(e.report)
    ensures AllBalanced(Apply(t, e).0)
  {
    match e
    case Registration(id, rate, expected, planned, at) =>
    case Report(report, at) =>
    case Drain(staleAfter, at) => DrainKeepsValid(t, staleAfter, at);
  }

  lemma DrainedAreBalanced(t: Tracker, staleAfter: int, now: int)
    requires t.Valid() && AllBalanced(t)
    ensures forall i :: 0 <= i < |t.Drain(staleAfter, now).1| ==> Balanced(t.Drain(staleAfter, now).1[i])
  {
    DrainTakesReadyPrefix(t, staleAfter, now);
    hide Balanced, Tracker.Drain, ReadyPrefix;
    assert forall i :: 0 <= i < |t.order| ==> t.order[i] in t.rounds;
  }

  lemma {:induction false} HistoryKeepsBalance(es: seq<Event>)
    requires FromRunJob(es)
    ensures AllBalanced(After(es))
  {
    if es != [] {
      HistoryKeepsBalance(es[..|es| - 1]);
      HistoryKeepsValid(es[..|es| - 1]);
      EventKeepsBalance(After(es[..|es| - 1]), es[|es| - 1]);
    }
  }

  /** In every history whose reports come from running jobs, every observation ever drained is sane. */
  lemma ObservationsAreSane(es: seq<Event>, staleAfter: int, now: int)
    requires FromRunJob(es)
    ensures var drained := After(es).Drain(staleAfter, now).1;
            forall i :: 0 <= i < |drained| ==> IsSane(drained[i].Observation())
  {
    hide *;
    HistoryKeepsBalance(es);
    HistoryKeepsValid(es);
    DrainedAreBalanced(After(es), staleAfter, now);
    var drained := After(es).Drain(staleAfter, now).1;
    forall i | 0 <= i < |drained|
      ensures IsSane(drained[i].Observation())
    {
      BalancedIsSane(drained[i]);
    }
  }
}
