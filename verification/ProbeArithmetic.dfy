/** What a probe does to the search: it lands strictly inside the gap, on a multiple of ten,
    and leaves at most half of the remaining candidates on either side. */
module ProbeArithmetic {
  import opened Wrappers
  import opened LoadController

  /** The number of probe candidates: multiples of ten strictly between the bounds. */
  function Candidates(low: nat, high: nat): nat {
    if high <= low + 1 then 0 else (high - 1) / GRANULARITY - low / GRANULARITY
  }

  /** The candidates, one by one. */
  ghost function CandidateSet(low: nat, high: nat): set<nat> {
    set k: nat | k < high && low < GRANULARITY * k < high
  }

  lemma {:induction false} CandidatesCountsTheSet(low: nat, high: nat)
    ensures |CandidateSet(low, high)| == Candidates(low, high)
    decreases high
  {
    hide CandidateSet;
    if high <= low + 1 {
      NoCandidate(low, high);
    } else {
      CandidatesCountsTheSet(low, high - 1);
      OneMoreCandidate(low, high);
    }
  }

  lemma NoCandidate(low: nat, high: nat)
    requires high <= low + 1
    ensures CandidateSet(low, high) == {}
  {
  }

  lemma OneMoreCandidate(low: nat, high: nat)
    requires high > low + 1
    ensures var k := (high - 1) / GRANULARITY;
            if (high - 1) % GRANULARITY == 0
            then CandidateSet(low, high) == CandidateSet(low, high - 1) + {k} && k !in CandidateSet(low, high - 1)
            else CandidateSet(low, high) == CandidateSet(low, high - 1)
  {
  }

  /** A probe exists exactly when the gap exceeds ten, and then it is a multiple of ten strictly inside. */
  lemma ProbeIsInside(low: nat, high: nat)
    ensures ProbeRate(low, high).Some? <==> high - low > GRANULARITY
    ensures ProbeRate(low, high).Some? ==>
              && low < ProbeRate(low, high).value < high
              && ProbeRate(low, high).value % GRANULARITY == 0
              && Candidates(low, high) > 0
  {
  }

  // ---- Which multiple is probed

  ghost predicate IsTen(m: int) { m % 10 == 0 }

  ghost predicate IsGreatestTen(m: int, above: int, upTo: int) {
    && IsTen(m) && above < m <= upTo
    && forall k :: above < k <= upTo && IsTen(k) ==> k <= m
  }

  ghost predicate IsLeastTen(m: int, above: int) {
    && IsTen(m) && above < m
    && forall k :: above < k && IsTen(k) ==> m <= k
  }

  /** The probe a gap calls for.  On a gap of ten or less there is none.  On a wider one it is the greatest multiple of ten
      above the low bound and not above the middle or, if there is none, the least above the low bound. */
  ghost predicate IsMiddleTen(low: int, high: int, probe: Option<int>) {
    if high - low <= 10 then probe.None?
    else
      && probe.Some?
      && if exists k :: low < k <= (low + high) / 2 && IsTen(k)
         then IsGreatestTen(probe.value, low, (low + high) / 2)
         else IsLeastTen(probe.value, low)
  }

  /** That settles what is probed. */
  lemma MiddleTenIsUnique(low: int, high: int, p: Option<int>, q: Option<int>)
    requires IsMiddleTen(low, high, p) && IsMiddleTen(low, high, q)
    ensures p == q
  {
  }

  lemma ProbeIsMiddleTen(low: nat, high: nat)
    ensures IsMiddleTen(low, high, ProbeRate(low, high))
  {
    if high - low > 10 {
      var half := (low + high) / 2;
      var middle, next := half / 10 * 10, (low / 10 + 1) * 10;
      assert IsTen(middle) && IsTen(next);
      if k :| low < k <= half && IsTen(k) {
        TenAtMost(k, half);
      }
      forall k | low < k && IsTen(k)
        ensures next <= k
        ensures k <= half ==> k <= middle
      {
        TenAtMost(k, half);
        TenAbove(k, low);
      }
    }
  }

  lemma TenAtMost(k: int, bound: int)
    requires IsTen(k)
    ensures k <= bound ==> k <= bound / 10 * 10
  {
  }

  lemma TenAbove(k: int, low: nat)
    requires IsTen(k) && low < k
    ensures (low / 10 + 1) * 10 <= k
  {
  }

  /** Whichever way a probe goes, at most half of the candidates (rounded up) are left, none after the last. */
  lemma ProbeHalvesCandidates(low: nat, high: nat)
    requires ProbeRate(low, high).Some?
    ensures var probe, m := ProbeRate(low, high).value, Candidates(low, high);
            var left, right := Candidates(low, probe), Candidates(probe, high);
            && left + right + 1 == m
            && left <= m / 2 && right <= (if m == 1 then 0 else (m + 1) / 2)
  {
  }

  lemma NarrowerGapHasFewerCandidates(low: nat, high: nat, low': nat, high': nat)
    requires low <= low' && high' <= high
    ensures Candidates(low', high') <= Candidates(low, high)
  {
  }

  /** The least k with 2^k at least m. */
  function CeilLog2(m: nat): nat {
    if m <= 1 then 0 else 1 + CeilLog2((m + 1) / 2)
  }

  function Pow2(k: nat): nat {
    if k == 0 then 1 else 2 * Pow2(k - 1)
  }

  lemma {:induction false} CeilLog2IsLeast(m: nat)
    ensures Pow2(CeilLog2(m)) >= m
    ensures m > 1 ==> Pow2(CeilLog2(m) - 1) < m
  {
    if m > 1 {
      CeilLog2IsLeast((m + 1) / 2);
    }
  }

  lemma {:induction false} CeilLog2Monotone(m: nat, n: nat)
    requires m <= n
    ensures CeilLog2(m) <= CeilLog2(n)
  {
    if m > 1 {
      CeilLog2Monotone((m + 1) / 2, (n + 1) / 2);
    }
  }

  /** How many probes a binary search over m candidates may need. */
  function ProbeBudget(m: nat): nat {
    if m == 0 then 0 else 1 + CeilLog2(m)
  }

  lemma ProbeBudgetMonotone(m: nat, n: nat)
    requires m <= n
    ensures ProbeBudget(m) <= ProbeBudget(n)
  {
    CeilLog2Monotone(m, n);
  }

  /** A probe on a gap pays for itself: either outcome leaves a budget smaller by one. */
  lemma ProbeSpendsBudget(low: nat, high: nat)
    requires ProbeRate(low, high).Some?
    ensures var probe := ProbeRate(low, high).value;
            && ProbeBudget(Candidates(low, probe)) < ProbeBudget(Candidates(low, high))
            && ProbeBudget(Candidates(probe, high)) < ProbeBudget(Candidates(low, high))
  {
    var probe, m := ProbeRate(low, high).value, Candidates(low, high);
    ProbeIsInside(low, high);
    ProbeHalvesCandidates(low, high);
    if m > 1 {
      ProbeBudgetMonotone(Candidates(low, probe), (m + 1) / 2);
      ProbeBudgetMonotone(Candidates(probe, high), (m + 1) / 2);
    }
  }
}
