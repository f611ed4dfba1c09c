/** Cutting one round into jobs (orchestrator/manager/workqueue.go): the total rate is split over all
    workers of all executors, and the request stream over their jobs. */
module Dispatching {
  import opened Types
  import opened ExecutorRegistry
  import opened RequestStream

  // ---- The fair split

  /** The rate of worker g of n. */
  function Share(total: nat, n: nat, g: nat): nat
    requires n > 0
  {
    total / n + (if g < total % n then 1 else 0)
  }

  function SharesUpTo(total: nat, n: nat, k: nat): nat
    requires n > 0
  {
    if k == 0 then 0 else SharesUpTo(total, n, k - 1) + Share(total, n, k - 1)
  }

  lemma {:induction false} SharesSoFar(total: nat, n: nat, k: nat)
    requires n > 0 && k <= n
    ensures SharesUpTo(total, n, k) == k * (total / n) + (if k < total % n then k else total % n)
  {
    if k > 0 {
      SharesSoFar(total, n, k - 1);
      assert k * (total / n) == (k - 1) * (total / n) + total / n;
    }
  }

  /** The shares of all workers add up to the total rate exactly; they differ by at most one, larger ones first. */
  lemma SharesAreExactAndFair(total: nat, n: nat)
    requires n > 0
    ensures SharesUpTo(total, n, n) == total
    ensures forall g, h :: 0 <= g <= h < n ==> Share(total, n, h) <= Share(total, n, g) <= Share(total, n, h) + 1
  {
    SharesSoFar(total, n, n);
  }

  // ---- Job ids

  function Digit(d: nat): char
    requires d < 10
  {
    "0123456789"[d]
  }

  function Decimal(n: nat): (s: string)
    ensures s != [] && '-' !in s
  {
    if n < 10 then [Digit(n)] else Decimal(n / 10) + [Digit(n % 10)]
  }

  /** The number that a string of digits denotes. */
  function Number(s: string): int {
    if s == [] then 0 else 10 * Number(s[..|s| - 1]) + (s[|s| - 1] as int - '0' as int)
  }

  lemma DigitDenotes(d: nat)
    requires d < 10
    ensures Digit(d) as int - '0' as int == d
  {
  }

  lemma {:induction false} DecimalDenotes(n: nat)
    ensures Number(Decimal(n)) == n
  {
    hide Digit;
    DigitDenotes(n % 10);
    if n >= 10 {
      DecimalDenotes(n / 10);
      assert Decimal(n)[..|Decimal(n)| - 1] == Decimal(n / 10);
    }
  }

  function JobId(executorId: string, nanos: nat, index: nat): string {
    executorId + "-" + Decimal(nanos) + "-" + Decimal(index)
  }

  lemma LastDashIsAt(a: string, x: string, i: nat)
    requires '-' !in x && i < |a + "-" + x| && (a + "-" + x)[i] == '-'
    ensures i <= |a|
  {
    var s := a + "-" + x;
    assert forall k :: |a| < k < |s| ==> s[k] == x[k - |a| - 1];
  }

  lemma LastDashSplits(a: string, x: string, b: string, y: string)
    requires '-' !in x && '-' !in y
    requires a + "-" + x == b + "-" + y
    ensures a == b && x == y
  {
    var s := a + "-" + x;
    LastDashIsAt(a, x, |b|);
    LastDashIsAt(b, y, |a|);
    assert a == s[..|a|] && b == s[..|b|];
    assert x == s[|a| + 1..] && y == s[|b| + 1..];
  }

  /** A job id determines its executor, its time stamp and its index, whatever characters executor ids contain. */
  lemma JobIdIsInjective(e: string, nanos: nat, i: nat, e': string, nanos': nat, i': nat)
    requires JobId(e, nanos, i) == JobId(e', nanos', i')
    ensures e == e' && nanos == nanos' && i == i'
  {
    LastDashSplits(e + "-" + Decimal(nanos), Decimal(i), e' + "-" + Decimal(nanos'), Decimal(i'));
    LastDashSplits(e, Decimal(nanos), e', Decimal(nanos'));
    DecimalDenotes(nanos);
    DecimalDenotes(nanos');
    DecimalDenotes(i);
    DecimalDenotes(i');
  }

  // ---- Cutting the round

  datatype Batch = Batch(executorId: string, jobs: seq<Job>)

  ghost predicate IsWholeSeconds(n: int, nanos: int) {
    n * 1_000_000_000 <= nanos < (n + 1) * 1_000_000_000
  }

  lemma WholeSecondsAreUnique(plan: Plan, n: nat)
    requires IsWholeSeconds(n, plan.durationNanos)
    ensures plan.Seconds() == n
  {
  }

  /** What all jobs of a round have in common. */
  datatype Plan = Plan(roundId: string, rate: nat, workers: nat, targetUrls: seq<string>, durationNanos: nat)
  {
    /** Only whole seconds of the job duration count. */
    function Seconds(): (n: nat)
      ensures IsWholeSeconds(n, durationNanos)
    {
      durationNanos / 1_000_000_000
    }
  }

  function TotalWorkers(executors: seq<Executor>): nat
    requires forall e :: e in executors ==> e.workers >= 0
  {
    if executors == [] then 0 else TotalWorkers(executors[..|executors| - 1]) + executors[|executors| - 1].workers
  }

  function AllJobs(batches: seq<Batch>): seq<Job> {
    if batches == [] then [] else AllJobs(batches[..|batches| - 1]) + batches[|batches| - 1].jobs
  }

  function AllRequests(jobs: seq<Job>): seq<RequestSpec> {
    if jobs == [] then [] else AllRequests(jobs[..|jobs| - 1]) + jobs[|jobs| - 1].requests
  }

  lemma Associates<T>(a: seq<T>, b: seq<T>, c: seq<T>)
    ensures a + b + c == a + (b + c)
  {
  }

  lemma {:induction false} AllRequestsAdds(a: seq<Job>, b: seq<Job>)
    ensures AllRequests(a + b) == AllRequests(a) + AllRequests(b)
  {
    hide *;
    if b == [] {
      NoRequests();
      assert a + b == a;
    } else {
      var front, last := b[..|b| - 1], b[|b| - 1];
      AllRequestsAdds(a, front);
      Associates(a, front, [last]);
      assert b == front + [last];
      AllRequestsOneMore(a + front, last);
      AllRequestsOneMore(front, last);
      Associates(AllRequests(a), AllRequests(front), last.requests);
    }
  }

  lemma NoRequests()
    ensures AllRequests([]) == []
  {
  }

  lemma AllRequestsOneMore(jobs: seq<Job>, job: Job)
    ensures AllRequests(jobs + [job]) == AllRequests(jobs) + job.requests
  {
    assert (jobs + [job])[..|jobs|] == jobs;
  }

  lemma AllJobsOneMore(batches: seq<Batch>, batch: Batch)
    ensures AllJobs(batches + [batch]) == AllJobs(batches) + batch.jobs
  {
    assert (batches + [batch])[..|batches|] == batches;
  }

  lemma {:induction false} AllJobsAdds(a: seq<Batch>, b: seq<Batch>)
    ensures AllJobs(a + b) == AllJobs(a) + AllJobs(b)
  {
    hide *;
    if b == [] {
      NoJobs();
      assert a + b == a;
    } else {
      var front, last := b[..|b| - 1], b[|b| - 1];
      AllJobsAdds(a, front);
      Associates(a, front, [last]);
      assert b == front + [last];
      AllJobsOneMore(a + front, last);
      AllJobsOneMore(front, last);
      Associates(AllJobs(a), AllJobs(front), last.jobs);
    }
  }

  lemma NoJobs()
    ensures AllJobs([]) == []
  {
  }

  /** The job of the round's g-th worker: its share of the rate and at most that many requests for each whole
      second of the duration, exactly as many when the source does not fail. */
  ghost predicate IsJob(job: Job, plan: Plan, g: nat, exact: bool)
    requires plan.workers > 0
  {
    && job.roundId == plan.roundId && job.targetUrls == plan.targetUrls
    && job.durationMillis == plan.durationNanos / 1_000_000
    && job.ratePerSec == Share(plan.rate, plan.workers, g)
    && forall n: nat :: IsWholeSeconds(n, plan.durationNanos) ==>
         && |job.requests| <= n * Share(plan.rate, plan.workers, g)
         && (exact ==> |job.requests| == n * Share(plan.rate, plan.workers, g))
  }

  ghost predicate AreJobs(jobs: seq<Job>, plan: Plan, first: nat, exact: bool)
    requires plan.workers > 0
  {
    forall i :: 0 <= i < |jobs| ==> IsJob(jobs[i], plan, first + i, exact)
  }

  /** The job's id names its executor, the clock reading at which it was cut, and its place among the executor's jobs. */
  ghost predicate IssuedTo(job: Job, executorId: string, nanos: nat, index: nat) {
    job.id == JobId(executorId, nanos, index)
  }

  ghost predicate DistinctIds(jobs: seq<Job>) {
    forall g, h :: 0 <= g < h < |jobs| ==> jobs[g].id != jobs[h].id
  }

  /** Each executor with workers gets one batch, in order, with one job for each of them. */
  ghost predicate Dealt(batches: seq<Batch>, executors: seq<Executor>) {
    if executors == [] then batches == []
    else
      var front, e := executors[..|executors| - 1], executors[|executors| - 1];
      if e.workers <= 0 then Dealt(batches, front)
      else
        && batches != []
        && batches[|batches| - 1].executorId == e.id
        && |batches[|batches| - 1].jobs| == e.workers
        && Dealt(batches[..|batches| - 1], front)
  }

  method CollectRequests(source: StreamReader, count: nat) returns (requests: seq<RequestSpec>)
    requires source.Valid()
    modifies source
    ensures source.Valid()
    ensures source.served == old(source.served) + requests
    ensures |requests| <= count
    // One read for each request, and, when they fall short, a last one that failed.
    ensures var before := |old(source.results)|;
            && |source.results| == before + |requests| + (if |requests| < count then 1 else 0)
            && source.results[..before] == old(source.results)
            && (forall i :: 0 <= i < |requests| ==> source.results[before + i] == Served(requests[i]))
            && (|requests| < count ==> !source.results[before + |requests|].Served?)
    ensures old(source.Cyclic()) ==> source.Cyclic() && |requests| == count
  {
    requests := [];
    var reqIdx := 0;
    while reqIdx < count
      invariant source.Valid()
      invariant source.served == old(source.served) + requests
      invariant |requests| == reqIdx <= count
      invariant |source.results| == |old(source.results)| + |requests|
      invariant source.results[..|old(source.results)|] == old(source.results)
      invariant forall i :: 0 <= i < |requests| ==> source.results[|old(source.results)| + i] == Served(requests[i])
      invariant old(source.Cyclic()) ==> source.Cyclic()
    {
      var next := source.Next();
      if !next.Served? {
        break;
      }
      requests := requests + [next.spec];
      reqIdx := reqIdx + 1;
    }
  }

  /** The job of one worker, the round's g-th and its executor's index-th. */
  method CutJob(executorId: string, index: nat, plan: Plan, g: nat, source: StreamReader, nanos: nat) returns (job: Job)
    requires source.Valid() && plan.workers > 0
    modifies source
    ensures source.Valid() && (old(source.Cyclic()) ==> source.Cyclic())
    ensures IsJob(job, plan, g, old(source.Cyclic()))
    ensures job.id == executorId + "-" + Decimal(nanos) + "-" + Decimal(index)
    ensures source.served == old(source.served) + job.requests
  {
    hide IsWholeSeconds;
    forall n: nat | IsWholeSeconds(n, plan.durationNanos)
      ensures n == plan.Seconds()
    {
      WholeSecondsAreUnique(plan, n);
    }
    var workerRps := plan.rate / plan.workers;
    if g < plan.rate % plan.workers {
      workerRps := workerRps + 1;
    }
    var requestCount := plan.Seconds() * workerRps;
    var requests := CollectRequests(source, requestCount);
    job := Job(JobId(executorId, nanos, index), plan.roundId, requests, plan.targetUrls,
               workerRps, plan.durationNanos / 1_000_000);
  }

  lemma WeakerClaim(job: Job, plan: Plan, g: nat, exact: bool, exact': bool)
    requires plan.workers > 0 && IsJob(job, plan, g, exact) && (exact' ==> exact)
    ensures IsJob(job, plan, g, exact')
  {
  }

  /** The jobs of one executor, whose first worker is the round's `first`. */
  method CutJobs(executor: Executor, plan: Plan, first: nat, source: StreamReader, clock: nat -> nat) returns (jobs: seq<Job>)
    requires source.Valid() && executor.workers >= 0 && plan.workers > 0
    modifies source
    ensures source.Valid() && (old(source.Cyclic()) ==> source.Cyclic())
    ensures |jobs| == executor.workers
    ensures AreJobs(jobs, plan, first, old(source.Cyclic()))
    ensures forall i :: 0 <= i < |jobs| ==> IssuedTo(jobs[i], executor.id, clock(first + i), i)
    ensures source.served == old(source.served) + AllRequests(jobs)
  {
    NoRequests();
    hide Share, IsJob, AllRequests, Decimal;
    jobs := [];
    for i := 0 to executor.workers
      invariant source.Valid() && (old(source.Cyclic()) ==> source.Cyclic())
      invariant |jobs| == i
      invariant AreJobs(jobs, plan, first, old(source.Cyclic()))
      invariant forall k :: 0 <= k < |jobs| ==> IssuedTo(jobs[k], executor.id, clock(first + k), k)
      invariant source.served == old(source.served) + AllRequests(jobs)
    {
      ghost var exactNow := source.Cyclic();
      var job := CutJob(executor.id, i, plan, first + i, source, clock(first + i));
      WeakerClaim(job, plan, first + i, exactNow, old(source.Cyclic()));
      AllRequestsOneMore(jobs, job);
      jobs := jobs + [job];
    }
  }

  // ---- The whole round

  /** What a round sends out. */
  ghost predicate IsRound(batches: seq<Batch>, executors: seq<Executor>, plan: Plan, exact: bool)
    requires plan.workers > 0
    requires forall e :: e in executors ==> e.workers >= 0
  {
    && Dealt(batches, executors)
    && |AllJobs(batches)| == TotalWorkers(executors)
    && AreJobs(AllJobs(batches), plan, 0, exact)
    && DistinctIds(AllJobs(batches))
  }

  ghost predicate IssuedAmong(job: Job, executors: seq<Executor>, nanos: nat) {
    exists k: nat, index: nat :: k < |executors| && IssuedTo(job, executors[k].id, nanos, index)
  }

  /** The round's g-th job is one of an executor's, cut at the g-th reading of the clock. */
  ghost predicate FromExecutors(jobs: seq<Job>, executors: seq<Executor>, clock: nat -> nat) {
    forall g :: 0 <= g < |jobs| ==> IssuedAmong(jobs[g], executors, clock(g))
  }

  /** Sends on the executors' channels, in order, and counts what was dispatched. */
  class Outbox {
    var sent: seq<Batch>
    var dispatchedRequests: nat

    constructor ()
      ensures sent == [] && dispatchedRequests == 0
    {
      sent, dispatchedRequests := [], 0;
    }
  }

  ghost predicate DistinctExecutors(executors: seq<Executor>) {
    forall i, j :: 0 <= i < j < |executors| ==> executors[i].id != executors[j].id
  }

  lemma IssuedOnce(job: Job, e: string, nanos: nat, i: nat, job': Job, e': string, nanos': nat, i': nat)
    requires IssuedTo(job, e, nanos, i) && IssuedTo(job', e', nanos', i') && job.id == job'.id
    ensures e == e' && i == i'
  {
    JobIdIsInjective(e, nanos, i, e', nanos', i');
  }

  /** The jobs of another executor have ids of their own. */
  lemma IdsStayDistinct(jobs: seq<Job>, more: seq<Job>, executors: seq<Executor>, n: nat, clock: nat -> nat)
    requires n < |executors| && DistinctExecutors(executors)
    requires DistinctIds(jobs) && FromExecutors(jobs, executors[..n], clock)
    requires forall i :: 0 <= i < |more| ==> IssuedTo(more[i], executors[n].id, clock(|jobs| + i), i)
    ensures DistinctIds(jobs + more) && FromExecutors(jobs + more, executors[..n + 1], clock)
  {
    hide IssuedTo;
    var all := jobs + more;
    forall g | 0 <= g < |all|
      ensures IssuedAmong(all[g], executors[..n + 1], clock(g))
    {
      if g < |jobs| {
        var k: nat, index: nat :| k < |executors[..n]| && IssuedTo(jobs[g], executors[..n][k].id, clock(g), index);
        assert IssuedTo(all[g], executors[..n + 1][k].id, clock(g), index);
      } else {
        assert IssuedTo(all[g], executors[..n + 1][n].id, clock(g), g - |jobs|);
      }
    }
    forall g, h | 0 <= g < h < |all|
      ensures all[g].id != all[h].id
    {
      if g >= |jobs| && all[g].id == all[h].id {
        IssuedOnce(all[g], executors[n].id, clock(g), g - |jobs|, all[h], executors[n].id, clock(h), h - |jobs|);
      } else if g < |jobs| <= h && all[g].id == all[h].id {
        var k: nat, index: nat :| k < |executors[..n]| && IssuedTo(jobs[g], executors[..n][k].id, clock(g), index);
        IssuedOnce(all[g], executors[k].id, clock(g), index, all[h], executors[n].id, clock(h), h - |jobs|);
      }
    }
  }

  lemma {:induction false} PlannedRequests(jobs: seq<Job>, plan: Plan)
    requires plan.workers > 0 && |jobs| <= plan.workers && AreJobs(jobs, plan, 0, true)
    ensures |AllRequests(jobs)| == plan.Seconds() * SharesUpTo(plan.rate, plan.workers, |jobs|)
  {
    hide *;
    LastJob(jobs, plan);
    if jobs != [] {
      var n := |jobs| - 1;
      PlannedRequests(jobs[..n], plan);
      Distributes(plan.Seconds(), SharesUpTo(plan.rate, plan.workers, n), Share(plan.rate, plan.workers, n));
    }
  }

  lemma LastJob(jobs: seq<Job>, plan: Plan)
    requires plan.workers > 0 && AreJobs(jobs, plan, 0, true)
    ensures jobs == [] ==> |AllRequests(jobs)| == 0 == plan.Seconds() * SharesUpTo(plan.rate, plan.workers, 0)
    ensures jobs != [] ==>
              var n := |jobs| - 1;
              && AreJobs(jobs[..n], plan, 0, true)
              && |AllRequests(jobs)| == |AllRequests(jobs[..n])| + plan.Seconds() * Share(plan.rate, plan.workers, n)
              && SharesUpTo(plan.rate, plan.workers, |jobs|) ==
                 SharesUpTo(plan.rate, plan.workers, n) + Share(plan.rate, plan.workers, n)
  {
    hide Share, Plan.Seconds;
    if jobs != [] {
      var n := |jobs| - 1;
      assert IsJob(jobs[n], plan, 0 + n, true);
      assert forall i :: 0 <= i < n ==> IsJob(jobs[i], plan, 0 + i, true);
    }
  }

  lemma Distributes(a: nat, b: nat, c: nat)
    ensures a * (b + c) == a * b + a * c
  {
  }

  lemma AreJobsAdds(jobs: seq<Job>, more: seq<Job>, plan: Plan, exact: bool, exact': bool)
    requires plan.workers > 0 && (exact' ==> exact)
    requires AreJobs(jobs, plan, 0, exact') && AreJobs(more, plan, |jobs|, exact)
    ensures AreJobs(jobs + more, plan, 0, exact')
  {
    forall i | 0 <= i < |jobs + more|
      ensures IsJob((jobs + more)[i], plan, i, exact')
    {
      if i >= |jobs| {
        assert IsJob(more[i - |jobs|], plan, |jobs| + (i - |jobs|), exact);
      }
    }
  }

  lemma DealtOneMore(batches: seq<Batch>, executors: seq<Executor>, n: nat, batch: Batch)
    requires n < |executors| && Dealt(batches, executors[..n])
    requires executors[n].workers > 0 ==> batch.executorId == executors[n].id && |batch.jobs| == executors[n].workers
    ensures executors[n].workers <= 0 ==> Dealt(batches, executors[..n + 1])
    ensures executors[n].workers > 0 ==> Dealt(batches + [batch], executors[..n + 1])
  {
    assert executors[..n + 1][..n] == executors[..n];
    assert (batches + [batch])[..|batches|] == batches;
  }

  method CutRound(executors: seq<Executor>, plan: Plan, source: StreamReader, outbox: Outbox, clock: nat -> nat)
    returns (expectedReports: nat, plannedRequests: nat, ghost batches: seq<Batch>)
    requires source.Valid() && plan.workers > 0 && DistinctExecutors(executors)
    requires forall e :: e in executors ==> e.workers >= 0
    modifies source, outbox
    ensures source.Valid() && (old(source.Cyclic()) ==> source.Cyclic())
    ensures outbox.sent == old(outbox.sent) + batches
    ensures IsRound(batches, executors, plan, old(source.Cyclic()))
    ensures FromExecutors(AllJobs(batches), executors, clock)
    ensures source.served == old(source.served) + AllRequests(AllJobs(batches))
    ensures expectedReports == |AllJobs(batches)|
    ensures plannedRequests == |AllRequests(AllJobs(batches))|
    ensures outbox.dispatchedRequests == old(outbox.dispatchedRequests) + plannedRequests
  {
    hide *;
    ghost var exact := source.Cyclic();
    batches := [];
    NothingCut(executors, plan, exact, clock);
    expectedReports, plannedRequests := 0, 0;
    for n := 0 to |executors|
      invariant source.Valid() && (exact ==> source.Cyclic())
      invariant outbox.sent == old(outbox.sent) + batches
      invariant outbox.dispatchedRequests == old(outbox.dispatchedRequests) + plannedRequests
      invariant source.served == old(source.served) + AllRequests(AllJobs(batches))
      invariant expectedReports == |AllJobs(batches)| == TotalWorkers(executors[..n])
      invariant plannedRequests == |AllRequests(AllJobs(batches))|
      invariant AreJobs(AllJobs(batches), plan, 0, exact)
      invariant DistinctIds(AllJobs(batches)) && FromExecutors(AllJobs(batches), executors[..n], clock)
      invariant Dealt(batches, executors[..n])
    {
      var executor := executors[n];
      ghost var exactNow := source.Cyclic();
      var jobs := CutJobs(executor, plan, expectedReports, source, clock);
      ghost var batch := Batch(executor.id, jobs);
      AreJobsAdds(AllJobs(batches), jobs, plan, exactNow, exact);
      IdsStayDistinct(AllJobs(batches), jobs, executors, n, clock);
      AllRequestsAdds(AllJobs(batches), jobs);
      AllJobsOneMore(batches, batch);
      DealtOneMore(batches, executors, n, batch);
      WorkersOneMore(executors, n);
      expectedReports := expectedReports + |jobs|;
      var requests := CountRequests(jobs);
      plannedRequests := plannedRequests + requests;
      outbox.dispatchedRequests := outbox.dispatchedRequests + requests;
      if |jobs| > 0 {
        outbox.sent := outbox.sent + [Batch(executor.id, jobs)];
        batches := batches + [batch];
      } else {
        assert AllJobs(batches) + jobs == AllJobs(batches);
      }
    }
    assert executors[..|executors|] == executors;
    RoundIs(batches, executors, plan, exact);
  }

  lemma RoundIs(batches: seq<Batch>, executors: seq<Executor>, plan: Plan, exact: bool)
    requires plan.workers > 0
    requires forall e :: e in executors ==> e.workers >= 0
    requires Dealt(batches, executors) && |AllJobs(batches)| == TotalWorkers(executors)
    requires AreJobs(AllJobs(batches), plan, 0, exact) && DistinctIds(AllJobs(batches))
    ensures IsRound(batches, executors, plan, exact)
  {
  }

  method CountRequests(jobs: seq<Job>) returns (n: nat)
    ensures n == |AllRequests(jobs)|
  {
    n := 0;
    for i := 0 to |jobs|
      invariant n == |AllRequests(jobs[..i])|
    {
      assert jobs[..i + 1] == jobs[..i] + [jobs[i]];
      AllRequestsOneMore(jobs[..i], jobs[i]);
      n := n + |jobs[i].requests|;
    }
    assert jobs[..|jobs|] == jobs;
  }

  lemma NothingCut(executors: seq<Executor>, plan: Plan, exact: bool, clock: nat -> nat)
    requires plan.workers > 0
    ensures AllJobs([]) == [] && AllRequests([]) == [] && TotalWorkers(executors[..0]) == 0
    ensures AreJobs([], plan, 0, exact) && DistinctIds([]) && FromExecutors([], executors[..0], clock) && Dealt([], executors[..0])
  {
  }

  lemma WorkersOneMore(executors: seq<Executor>, n: nat)
    requires n < |executors| && forall e :: e in executors ==> e.workers >= 0
    ensures TotalWorkers(executors[..n + 1]) == TotalWorkers(executors[..n]) + executors[n].workers
  {
    assert executors[..n + 1][..n] == executors[..n];
  }

  function TotalRate(jobs: seq<Job>): int {
    if jobs == [] then 0 else TotalRate(jobs[..|jobs| - 1]) + jobs[|jobs| - 1].ratePerSec
  }

  lemma {:induction false} RatesAreShares(jobs: seq<Job>, plan: Plan, exact: bool)
    requires plan.workers > 0 && AreJobs(jobs, plan, 0, exact)
    ensures TotalRate(jobs) == SharesUpTo(plan.rate, plan.workers, |jobs|)
  {
    hide Share;
    if jobs != [] {
      var n := |jobs| - 1;
      assert IsJob(jobs[n], plan, 0 + n, exact);
      assert forall i :: 0 <= i < n ==> IsJob(jobs[i], plan, 0 + i, exact);
      RatesAreShares(jobs[..n], plan, exact);
    }
  }

  /** A round asks its workers for exactly the total rate, and over a sound source plans exactly the
      whole seconds of the job duration times that rate. */
  lemma RoundCarriesTheRate(batches: seq<Batch>, executors: seq<Executor>, plan: Plan, exact: bool)
    requires plan.workers > 0
    requires forall e :: e in executors ==> e.workers >= 0
    requires plan.workers == TotalWorkers(executors) && IsRound(batches, executors, plan, exact)
    ensures TotalRate(AllJobs(batches)) == plan.rate
    ensures exact ==> |AllRequests(AllJobs(batches))| == plan.Seconds() * plan.rate
    ensures exact ==> forall n: nat :: IsWholeSeconds(n, plan.durationNanos) ==> |AllRequests(AllJobs(batches))| == n * plan.rate
  {
    forall n: nat | IsWholeSeconds(n, plan.durationNanos)
      ensures n == plan.Seconds()
    {
      WholeSecondsAreUnique(plan, n);
    }
    hide Share, Dealt, IsWholeSeconds;
    RatesAreShares(AllJobs(batches), plan, exact);
    SharesAreExactAndFair(plan.rate, plan.workers);
    if exact {
      PlannedRequests(AllJobs(batches), plan);
    }
  }

  /** Jobs shorter than a second carry no request at all, at whatever rate. */
  lemma {:induction false} SubSecondJobsAreEmpty(jobs: seq<Job>, plan: Plan, exact: bool)
    requires plan.workers > 0 && plan.durationNanos < 1_000_000_000
    requires AreJobs(jobs, plan, 0, exact)
    ensures AllRequests(jobs) == []
  {
    if jobs != [] {
      var n := |jobs| - 1;
      assert IsWholeSeconds(0, plan.durationNanos);
      assert IsJob(jobs[n], plan, 0 + n, exact);
      assert forall i :: 0 <= i < n ==> IsJob(jobs[i], plan, 0 + i, exact);
      SubSecondJobsAreEmpty(jobs[..n], plan, exact);
    }
  }
}
