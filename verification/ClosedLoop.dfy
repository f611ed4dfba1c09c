/** The closed loop: each observation is for the rate the controller has just asked for. */
module ClosedLoop {
  import opened Wrappers
  import opened LoadController
  import opened ProbeArithmetic
  import opened ControllerRuns

  function Round(c: Controller, failed: bool): (d: Controller)
    requires c.Valid()
    ensures d.Valid() && d.limits == c.limits
  {
    StepKeepsValid(c, Verdict(failed, c.Next()));
    c.Step(Verdict(failed, c.Next()))
  }

  // ---- Arbitrary outcomes: the number of probes is bounded

  /** The state after a series of rounds with the given outcomes (true: the round failed). */
  function Loop(c: Controller, outcomes: seq<bool>): (d: Controller)
    requires c.Valid()
    ensures d.Valid() && d.limits == c.limits
    decreases |outcomes|
  {
    if outcomes == [] then c else Loop(Round(c, outcomes[0]), outcomes[1..])
  }

  /** How many of those rounds made the controller ask for a probe. */
  function ProbesIssued(c: Controller, outcomes: seq<bool>): nat
    requires c.Valid()
    decreases |outcomes|
  {
    if outcomes == [] then 0
    else
      var d := Round(c, outcomes[0]);
      (if d.mode.Probing? then 1 else 0) + ProbesIssued(d, outcomes[1..])
  }

  /** Candidates left between the bounds. */
  function Remaining(c: Controller): nat {
    if c.worst.None? then 0 else Candidates(c.Low(), c.worst.value)
  }

  /** The probes the controller may still ask for; one that is outstanding is already paid. */
  function Potential(c: Controller): nat
    requires c.Valid() && !c.mode.Ramping?
  {
    ProbeIsInside(c.Low(), c.worst.value);
    if c.mode.Probing? then ProbeBudget(Remaining(c)) - 1 else ProbeBudget(Remaining(c))
  }

  /** An observation that answers no outstanding probe: it comes while a probe is awaited, for another rate. */
  predicate IsStray(c: Controller, v: Verdict)
    requires c.Valid()
  {
    c.mode.Probing? && v.rps != c.Next()
  }

  /** A probe is paid from the potential, or by a stray observation. */
  lemma VerdictPaysForProbe(c: Controller, v: Verdict)
    requires c.Valid() && !c.mode.Ramping?
    ensures var d := c.Step(v);
            && d.Valid() && !d.mode.Ramping?
            && (if d.mode.Probing? then 1 else 0) + Potential(d) <= Potential(c) + (if IsStray(c, v) then 1 else 0)
  {
    StepKeepsValid(c, v);
    var d := c.Step(v);
    ProbeIsInside(c.Low(), c.worst.value);
    ProbeIsInside(d.Low(), d.worst.value);
    if c.mode.Probing? && v.rps == c.Next() {
      ProbeSpendsBudget(c.Low(), c.worst.value);
    } else {
      StepLeavesFewerCandidates(c, v);
      ProbeBudgetMonotone(Remaining(d), Remaining(c));
    }
  }

  /** The low bound can fall once, from an assumed recovery rate of one to a pass at zero; no candidate lies between. */
  lemma StepLeavesFewerCandidates(c: Controller, v: Verdict)
    requires c.Valid() && !c.mode.Ramping?
    ensures Remaining(c.Step(v)) <= Remaining(c)
  {
    var d := c.Step(v);
    assert d.worst.value <= c.worst.value;
    assert d.Low() >= c.Low() || (d.Low() == 0 && c.Low() == 1);
    NarrowerGapHasFewerCandidates(if d.Low() < c.Low() then d.Low() else c.Low(), c.worst.value, d.Low(), d.worst.value);
  }

  lemma RoundPaysForProbe(c: Controller, failed: bool)
    requires c.Valid() && !c.mode.Ramping?
    ensures var d := Round(c, failed);
            && !d.mode.Ramping?
            && (if d.mode.Probing? then 1 else 0) + Potential(d) <= Potential(c)
  {
    VerdictPaysForProbe(c, Verdict(failed, c.Next()));
  }

  /** How many of a series of observations, for whatever rates, make the controller ask for a probe. */
  function ProbesAsked(c: Controller, vs: seq<Verdict>): nat
    decreases |vs|
  {
    if vs == [] then 0
    else
      var d := c.Step(vs[0]);
      (if d.mode.Probing? then 1 else 0) + ProbesAsked(d, vs[1..])
  }

  /** How many of them are stray. */
  function Strays(c: Controller, vs: seq<Verdict>): nat
    requires c.Valid()
    decreases |vs|
  {
    if vs == [] then 0
    else
      StepKeepsValid(c, vs[0]);
      (if IsStray(c, vs[0]) then 1 else 0) + Strays(c.Step(vs[0]), vs[1..])
  }

  /** For arbitrary observations in any order, the probes asked for exceed the logarithmic budget of the gap by at
      most the number of stray observations. */
  lemma {:induction false} ProbesWithinPotentialAndStrays(c: Controller, vs: seq<Verdict>)
    requires c.Valid() && !c.mode.Ramping?
    ensures ProbesAsked(c, vs) <= Potential(c) + Strays(c, vs)
    decreases |vs|
  {
    if vs != [] {
      VerdictPaysForProbe(c, vs[0]);
      ProbesWithinPotentialAndStrays(c.Step(vs[0]), vs[1..]);
    }
  }

  lemma {:induction false} ProbesWithinPotential(c: Controller, outcomes: seq<bool>)
    requires c.Valid() && !c.mode.Ramping?
    ensures ProbesIssued(c, outcomes) <= Potential(c)
    decreases |outcomes|
  {
    if outcomes != [] {
      RoundPaysForProbe(c, outcomes[0]);
      ProbesWithinPotential(Round(c, outcomes[0]), outcomes[1..]);
    }
  }

  function FirstFailure(outcomes: seq<bool>): (i: nat)
    ensures i <= |outcomes|
    ensures forall j :: 0 <= j < i ==> !outcomes[j]
    ensures i < |outcomes| ==> outcomes[i]
  {
    if outcomes == [] || outcomes[0] then 0 else 1 + FirstFailure(outcomes[1..])
  }

  /** Over any outcomes, flaky or not, all the probes ever issued, across every return to the search,
      fit the budget of the gap left by the first failure; none is issued before it. */
  lemma {:induction false} GlobalProbeBudget(c: Controller, outcomes: seq<bool>)
    requires c.Valid() && c.mode.Ramping?
    ensures var f := FirstFailure(outcomes);
            if f == |outcomes| then
              ProbesIssued(c, outcomes) == 0 && Loop(c, outcomes).mode.Ramping?
            else
              && Loop(c, outcomes[..f + 1]).mode.Recovering?
              && ProbesIssued(c, outcomes) <= ProbeBudget(Remaining(Loop(c, outcomes[..f + 1])))
    decreases |outcomes|
  {
    if outcomes != [] {
      var d, f := Round(c, outcomes[0]), FirstFailure(outcomes);
      if outcomes[0] {
        ProbesWithinPotential(d, outcomes[1..]);
        assert outcomes[..1] == [outcomes[0]];
        assert outcomes[..1][1..] == [];
        assert Loop(d, []) == d;
      } else {
        GlobalProbeBudget(d, outcomes[1..]);
        if f < |outcomes| {
          assert outcomes[..f + 1][1..] == outcomes[1..][..f];
        }
      }
    }
  }

  // ---- A fixed capacity: the loop converges

  /** The state after n rounds against a target that fails exactly above its capacity. */
  function Against(c: Controller, capacity: int, n: nat): (d: Controller)
    requires c.Valid()
    ensures d.Valid() && d.limits == c.limits
  {
    if n == 0 then c
    else
      var b := Against(c, capacity, n - 1);
      Round(b, b.Next() > capacity)
  }

  lemma {:induction false} AgainstAdds(c: Controller, capacity: int, a: nat, b: nat)
    requires c.Valid()
    ensures Against(c, capacity, a + b) == Against(Against(c, capacity, a), capacity, b)
    decreases b
  {
    hide Round;
    if b > 0 {
      AgainstAdds(c, capacity, a, b - 1);
    }
  }

  lemma RoundEncloses(c: Controller, capacity: int)
    requires c.Valid() && Encloses(c, capacity)
    ensures Encloses(Round(c, c.Next() > capacity), capacity)
  {
  }

  lemma {:induction false} AgainstEncloses(c: Controller, capacity: int, n: nat)
    requires c.Valid() && Encloses(c, capacity)
    ensures Encloses(Against(c, capacity, n), capacity)
  {
    hide Round;
    if n > 0 {
      AgainstEncloses(c, capacity, n - 1);
      RoundEncloses(Against(c, capacity, n - 1), capacity);
    }
  }

  /** Rounds left before the search settles: every probe is followed by exactly one recovery round. */
  function RoundsLeft(c: Controller): nat
    requires c.Valid() && !c.mode.Ramping?
  {
    if c.mode.Settled? then 0
    else if c.mode.Recovering? then 1 + 2 * Potential(c)
    else 2 + 2 * Potential(c)
  }

  lemma RoundApproachesSettling(c: Controller, capacity: int)
    requires c.Valid() && !c.mode.Ramping? && Encloses(c, capacity) && capacity >= c.limits.RecoveryRps()
    ensures var d := Round(c, c.Next() > capacity);
            && !d.mode.Ramping? && Encloses(d, capacity)
            && (c.mode.Probing? ==> d.mode.Recovering?)
            && (c.mode.Recovering? ==> !d.mode.Recovering?)
            && (if c.mode.Settled? then d == c else RoundsLeft(d) < RoundsLeft(c))
  {
    RoundPaysForProbe(c, c.Next() > capacity);
    ProbeIsInside(c.Low(), c.worst.value);
  }

  lemma AgainstFirst(c: Controller, capacity: int, n: nat)
    requires c.Valid() && n > 0
    ensures Against(c, capacity, n) == Against(Round(c, c.Next() > capacity), capacity, n - 1)
  {
    hide Round;
    AgainstAdds(c, capacity, 1, n - 1);
    assert Against(c, capacity, 0) == c;
  }

  lemma {:induction false} SettledStays(c: Controller, capacity: int, n: nat)
    requires c.Valid() && c.mode.Settled? && Encloses(c, capacity) && capacity >= c.limits.RecoveryRps()
    ensures Against(c, capacity, n) == c
  {
    hide Round;
    if n > 0 {
      SettledStays(c, capacity, n - 1);
      RoundApproachesSettling(c, capacity);
    }
  }

  lemma {:induction false} SearchSettles(c: Controller, capacity: int, n: nat)
    requires c.Valid() && !c.mode.Ramping? && Encloses(c, capacity) && capacity >= c.limits.RecoveryRps()
    requires n >= RoundsLeft(c)
    ensures Against(c, capacity, n).mode.Settled?
    decreases n
  {
    hide Round;
    if c.mode.Settled? {
      SettledStays(c, capacity, n);
    } else {
      RoundApproachesSettling(c, capacity);
      AgainstFirst(c, capacity, n);
      SearchSettles(Round(c, c.Next() > capacity), capacity, n - 1);
    }
  }

  function Min(a: nat, b: nat): nat { if a < b then a else b }

  lemma RampRound(c: Controller, capacity: int)
    requires c.Valid()
    ensures var d := Round(c, c.Next() > capacity);
            && (d.mode.Ramping? <==> c.mode.Ramping? && c.mode.rate <= capacity)
            && (d.mode.Ramping? && c.mode.rate > 0 && c.mode.rate >= c.limits.minRps ==>
                  d.mode.rate == Min(c.limits.maxRps, 2 * c.mode.rate))
            && (d.mode.Ramping? && c.mode.rate == 0 == c.limits.minRps ==> d.mode.rate == Min(c.limits.maxRps, 1))
  {
  }

  /** The rate of the ramp's n-th round: the minimum rate doubled n times, or the powers of two from the
      second round on when the minimum is zero, cut off at the maximum. */
  function RampRateAt(limits: Limits, n: nat): nat {
    if limits.minRps > 0 then Min(limits.maxRps, limits.minRps * Pow2(n))
    else if n == 0 then 0
    else Min(limits.maxRps, Pow2(n - 1))
  }

  lemma {:induction false} RampDoubles(limits: Limits, capacity: int, n: nat)
    requires limits.Valid()
    requires Against(Fresh(limits), capacity, n).mode.Ramping?
    ensures Against(Fresh(limits), capacity, n).mode.rate == RampRateAt(limits, n)
    ensures forall k :: 0 <= k < n ==> Against(Fresh(limits), capacity, k).mode.Ramping?
  {
    hide Round;
    if n > 0 {
      var b := Against(Fresh(limits), capacity, n - 1);
      RampRound(b, capacity);
      RampDoubles(limits, capacity, n - 1);
      RampRateDoubles(limits, n - 1);
    }
  }

  lemma RampRateDoubles(limits: Limits, n: nat)
    requires limits.Valid()
    ensures var now, next := RampRateAt(limits, n), RampRateAt(limits, n + 1);
            && now >= limits.minRps
            && (now > 0 ==> next == Min(limits.maxRps, 2 * now))
            && (now == 0 ==> limits.minRps == 0 && next == Min(limits.maxRps, 1))
  {
    Pow2Positive(n);
    if n > 0 {
      Pow2Positive(n - 1);
    }
    assert limits.minRps * Pow2(n + 1) == 2 * (limits.minRps * Pow2(n));
    if limits.minRps > 0 {
      AtLeastOneFold(limits.minRps, Pow2(n));
    }
  }

  lemma AtLeastOneFold(a: nat, b: nat)
    requires b >= 1
    ensures a * b >= a
  {
    assert a * b == a + a * (b - 1);
  }

  lemma {:induction false} Pow2Positive(n: nat)
    ensures Pow2(n) >= 1
  {
    if n > 0 {
      Pow2Positive(n - 1);
    }
  }

  lemma {:induction false} Pow2Monotone(a: nat, b: nat)
    requires a <= b
    ensures Pow2(a) <= Pow2(b)
  {
    if a < b {
      Pow2Monotone(a, b - 1);
    }
  }

  lemma RampReachesMaximum(limits: Limits, capacity: int, n: nat)
    requires limits.Valid() && n >= 1 + CeilLog2(limits.maxRps)
    requires Against(Fresh(limits), capacity, n).mode.Ramping?
    ensures Against(Fresh(limits), capacity, n).mode.rate == limits.maxRps
  {
    hide Against;
    RampDoubles(limits, capacity, n);
    CeilLog2IsLeast(limits.maxRps);
    Pow2Monotone(CeilLog2(limits.maxRps), n - 1);
    Pow2Monotone(n - 1, n);
    if limits.minRps > 0 {
      AtLeastOneFold(Pow2(n), limits.minRps);
    }
  }

  /** The ramp goes on for ever exactly when the target carries the maximum rate. */
  lemma {:induction false} RampEndsBelowMaximum(limits: Limits, capacity: int, n: nat)
    requires limits.Valid()
    ensures capacity >= limits.maxRps ==> Against(Fresh(limits), capacity, n).mode.Ramping?
    ensures capacity < limits.maxRps && n >= 2 + CeilLog2(limits.maxRps) ==>
              !Against(Fresh(limits), capacity, n).mode.Ramping?
  {
    hide Round;
    if n > 0 {
      RampEndsBelowMaximum(limits, capacity, n - 1);
      var b := Against(Fresh(limits), capacity, n - 1);
      RampRound(b, capacity);
      if b.mode.Ramping? && n >= 2 + CeilLog2(limits.maxRps) {
        RampReachesMaximum(limits, capacity, n - 1);
      }
    }
  }

  /** Rounds after which the loop has certainly converged. */
  function ConvergenceBound(maxRps: nat): nat {
    2 + CeilLog2(maxRps) + 1 + 2 * ProbeBudget(Candidates(0, maxRps))
  }

  lemma RoundsLeftBound(c: Controller)
    requires c.Valid() && !c.mode.Ramping?
    ensures RoundsLeft(c) <= 1 + 2 * ProbeBudget(Remaining(c))
    ensures ProbeBudget(Remaining(c)) <= ProbeBudget(Candidates(0, c.limits.maxRps))
  {
    ProbeIsInside(c.Low(), c.worst.value);
    NarrowerGapHasFewerCandidates(0, c.limits.maxRps, c.Low(), c.worst.value);
    ProbeBudgetMonotone(Remaining(c), Candidates(0, c.limits.maxRps));
  }

  /** Against a target whose capacity is at least the recovery rate, the loop reaches the maximum rate
      and stays there, or settles within nine of the capacity and stays there for ever; the bound is
      logarithmic in the maximum rate. */
  lemma LoopConverges(limits: Limits, capacity: int, n: nat)
    requires limits.Valid() && capacity >= limits.RecoveryRps()
    requires n >= ConvergenceBound(limits.maxRps)
    ensures var d := Against(Fresh(limits), capacity, n);
            && d.Next() == Against(Fresh(limits), capacity, ConvergenceBound(limits.maxRps)).Next()
            && if capacity >= limits.maxRps then d.mode.Ramping? && d.Next() == limits.maxRps
               else d.mode.Settled? && d.Next() <= capacity <= d.Next() + GRANULARITY - 1
  {
    hide *;
    FreshIsValid(limits);
    BoundCoversRamp(limits.maxRps);
    if capacity >= limits.maxRps {
      RampPlateau(limits, capacity, n);
      RampPlateau(limits, capacity, ConvergenceBound(limits.maxRps));
    } else {
      var bound := ConvergenceBound(limits.maxRps);
      LoopSettles(limits, capacity);
      var d := Against(Fresh(limits), capacity, bound);
      AgainstAdds(Fresh(limits), capacity, bound, n - bound);
      SettledStays(d, capacity, n - bound);
      SettledEncloses(d, capacity);
    }
  }

  lemma BoundCoversRamp(maxRps: nat)
    ensures ConvergenceBound(maxRps) >= 1 + CeilLog2(maxRps)
  {
  }

  lemma FreshIsValid(limits: Limits)
    requires limits.Valid()
    ensures Fresh(limits).Valid() && Fresh(limits).limits == limits
  {
  }

  lemma RampPlateau(limits: Limits, capacity: int, n: nat)
    requires limits.Valid() && capacity >= limits.maxRps && n >= 1 + CeilLog2(limits.maxRps)
    ensures var d := Against(Fresh(limits), capacity, n); d.mode.Ramping? && d.Next() == limits.maxRps
  {
    hide Round;
    RampEndsBelowMaximum(limits, capacity, n);
    RampReachesMaximum(limits, capacity, n);
  }

  lemma SettledEncloses(d: Controller, capacity: int)
    requires d.Valid() && d.mode.Settled? && Encloses(d, capacity)
    ensures d.Next() <= capacity <= d.Next() + GRANULARITY - 1
  {
    ProbeIsInside(d.Low(), d.worst.value);
  }

  lemma LoopSettles(limits: Limits, capacity: int)
    requires limits.Valid() && limits.RecoveryRps() <= capacity < limits.maxRps
    ensures var d := Against(Fresh(limits), capacity, ConvergenceBound(limits.maxRps));
            d.mode.Settled? && Encloses(d, capacity)
  {
    hide Round;
    var k := 2 + CeilLog2(limits.maxRps);
    var rest := ConvergenceBound(limits.maxRps) - k;
    RampEndsBelowMaximum(limits, capacity, k);
    var c := Against(Fresh(limits), capacity, k);
    AgainstEncloses(Fresh(limits), capacity, k);
    RoundsLeftBound(c);
    SearchSettles(c, capacity, rest);
    AgainstAdds(Fresh(limits), capacity, k, rest);
    AgainstEncloses(Fresh(limits), capacity, k + rest);
  }

  /** Below the recovery rate even recovery rounds fail: the loop stays in recovery from the second round on. */
  lemma {:induction false} BelowRecoveryNeverSettles(limits: Limits, capacity: int, n: nat)
    requires limits.Valid() && capacity < limits.RecoveryRps()
    ensures var d := Against(Fresh(limits), capacity, n);
            && !d.mode.Settled? && !d.mode.Probing?
            && (n >= 2 ==> d.mode.Recovering?)
            && (n == 1 && d.mode.Ramping? ==> d.mode.rate > capacity)
  {
    if n > 0 {
      BelowRecoveryNeverSettles(limits, capacity, n - 1);
    }
  }

  /** The loop settles exactly on targets that carry a recovery round but not the maximum rate. */
  lemma SettlesIffCapacityInRange(limits: Limits, capacity: int)
    requires limits.Valid()
    ensures (exists n: nat :: Against(Fresh(limits), capacity, n).mode.Settled?) <==>
            limits.RecoveryRps() <= capacity < limits.maxRps
  {
    if limits.RecoveryRps() <= capacity < limits.maxRps {
      LoopConverges(limits, capacity, ConvergenceBound(limits.maxRps));
    } else {
      forall n: nat
        ensures !Against(Fresh(limits), capacity, n).mode.Settled?
      {
        if capacity < limits.RecoveryRps() {
          BelowRecoveryNeverSettles(limits, capacity, n);
        } else {
          RampEndsBelowMaximum(limits, capacity, n);
        }
      }
    }
  }
}
