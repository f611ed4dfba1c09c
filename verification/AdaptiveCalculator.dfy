/** The source's adaptive calculator, field for field, proved to run the machine of LoadController.

    The machine has neither the `pendingSettle` flag nor a stored next rate, so the
    refinement says that both are determined by the phase and the two bounds. */
module AdaptiveCalculator {
  import opened Wrappers
  import opened Types
  import opened LoadController
  import opened ProbeArithmetic

  datatype Phase = Ramp | Search | Steady

  /** Rounding goes through a real quotient, as in the source; the result is the largest multiple not above the value. */
  function RoundDownToMultiple(value: int, granularity: int): (r: int)
    ensures granularity > 0 ==> r == value / granularity * granularity && r <= value < r + granularity
    ensures granularity <= 0 ==> r == value
  {
    if granularity <= 0 then value
    else
      FloorOfQuotient(value, granularity);
      (value as real / granularity as real).Floor * granularity
  }

  /** The smallest multiple not below the value. */
  function RoundUpToMultiple(value: int, granularity: int): (r: int)
    ensures granularity > 0 ==> r == -(-value / granularity) * granularity && r - granularity < value <= r
    ensures granularity <= 0 ==> r == value
  {
    if granularity <= 0 then value
    else
      NegatedQuotient(value, granularity);
      FloorOfQuotient(-value, granularity);
      -((-(value as real / granularity as real)).Floor) * granularity
  }

  lemma NegatedQuotient(value: int, granularity: int)
    requires granularity > 0
    ensures -(value as real / granularity as real) == (-value) as real / granularity as real
  {
    var v, g := value as real, granularity as real;
    assert (-(v / g)) * g == -v;
    assert ((-v) / g) * g == -v;
  }

  lemma FloorOfQuotient(value: int, granularity: int)
    requires granularity > 0
    ensures (value as real / granularity as real).Floor == value / granularity
  {
    var q, r := value / granularity, value % granularity;
    var g := granularity as real;
    var x := value as real / g;
    assert value as real == q as real * g + r as real;
    assert x * g == value as real;
    assert (x - q as real) * g == r as real;
    if x < q as real {
      ScaleUp(x, q as real, g);
    }
    if x >= q as real + 1.0 {
      ScaleUp(1.0, x - q as real, g);
    }
  }

  /** The midpoint, rounded down, then corrected back inside the open interval if rounding left it.
      On a gap above the granularity this is the reference probe, strictly inside the gap: the
      second correction never alters it, and a clamp to the failing rate would not either. */
  function ProbeCandidate(low: int, high: int, granularity: int): (r: int)
    ensures granularity == GRANULARITY && 0 <= low && high - low > GRANULARITY ==>
              low < r < high && ProbeRate(low, high) == Some(r)
    ensures granularity == 10 && 0 <= low && high - low > 10 ==> IsMiddleTen(low, high, Some(r))
  {
    assert 0 <= low <= high ==> IsMiddleTen(low, high, ProbeRate(low, high)) by {
      if 0 <= low <= high {
        ProbeIsMiddleTen(low, high);
      }
    }
    hide IsMiddleTen;
    var midpoint := (low + high) / 2;
    var middle := RoundDownToMultiple(midpoint, granularity);
    var above := if middle <= low then RoundUpToMultiple(low + 1, granularity) else middle;
    if above >= high then RoundDownToMultiple(high - 1, granularity) else above
  }

  class AdaptiveExponentialLoadCalculator {
    const minRps: nat
    const maxRps: nat
    const maxLatencyMillis: int
    const recoveryRps: nat
    const minBinaryGranularity: nat

    var phase: Phase
    var awaitingRecovery: bool
    var pendingSettle: bool
    var nextRps: int
    var highestSuccessfulRps: int
    var highestSuccessfulKnown: bool
    var lowestUnsuccessfulRps: int

    ghost predicate InRange()
      reads this
    {
      && minRps <= maxRps
      && recoveryRps == (if maxRps < 1 then maxRps else 1)
      && minBinaryGranularity == GRANULARITY
      && 0 <= nextRps <= maxRps
      && 0 <= highestSuccessfulRps <= maxRps
      && -1 <= lowestUnsuccessfulRps <= maxRps
    }

    /** The machine state these fields stand for. */
    ghost function Machine(): Controller
      reads this
      requires InRange()
    {
      Controller(
        Limits(minRps, maxRps, maxLatencyMillis),
        match phase
        case Ramp => Ramping(nextRps)
        case Search => if awaitingRecovery then Recovering else Probing
        case Steady => Settled,
        if highestSuccessfulKnown then Some(highestSuccessfulRps) else None,
        if lowestUnsuccessfulRps < 0 then None else Some(lowestUnsuccessfulRps))
    }

    ghost predicate Valid()
      reads this
    {
      && InRange()
      && (awaitingRecovery ==> phase == Search)
      && (pendingSettle ==> awaitingRecovery && highestSuccessfulKnown && Machine().Probe().None?)
      && Machine().Valid()
      && nextRps == Machine().Next()
    }

    /** Out-of-order or negative limits are normalised rather than rejected. */
    constructor (minRps: int, maxRps: int, maxLatencyMillis: int)
      ensures Valid()
      ensures Machine() == Fresh(NormalisedLimits(minRps, maxRps, maxLatencyMillis))
    {
      var low, high := minRps, maxRps;
      if low < 0 {
        low := 0;
      }
      if high < 0 {
        high := 0;
      }
      if high < low {
        low := high;
      }
      var recovery := 1;
      if high < recovery {
        recovery := high;
      }
      this.minRps, this.maxRps, this.maxLatencyMillis := low, high, maxLatencyMillis;
      this.recoveryRps := recovery;
      this.minBinaryGranularity := 10;
      phase, awaitingRecovery, pendingSettle := Ramp, false, false;
      nextRps := low;
      lowestUnsuccessfulRps := -1;
      highestSuccessfulRps, highestSuccessfulKnown := 0, false;
    }

    method Next() returns (rps: int)
      requires Valid()
      ensures rps == Machine().Next()
      ensures 0 <= rps <= maxRps
      ensures phase == Search && !awaitingRecovery ==> IsMiddleTen(highestSuccessfulRps, lowestUnsuccessfulRps, Some(rps))
    {
      if phase == Search && !awaitingRecovery {
        ProbeIsMiddleTen(highestSuccessfulRps, lowestUnsuccessfulRps);
      }
      hide IsMiddleTen;
      rps := nextRps;
    }

    /** One observation takes the fields to the machine's next state. */
    method Observe(observation: LoadObservation)
      requires Valid()
      modifies this
      ensures Valid()
      ensures Machine() == old(Machine()).Step(VerdictOf(old(Machine()).limits, observation))
    {
      var failed := ThresholdExceeded(observation);
      TimeoutRatioReachesHalf(observation);
      if awaitingRecovery {
        ObserveRecovery(failed, observation.totalRps);
        return;
      }
      match phase
      case Ramp => ObserveRamp(failed, observation.totalRps);
      case Search => ObserveProbe(failed, observation.totalRps);
      case Steady => ObserveSteady(failed, observation.totalRps);
    }

    /** The branch taken while a recovery round is awaited. */
    method ObserveRecovery(failed: bool, rps: int)
      requires Valid() && awaitingRecovery
      modifies this
      ensures Valid()
      ensures Machine() == old(Machine()).Step(Verdict(failed, rps))
    {
      hide ProbeRate;
      StepKeepsValid(Machine(), Verdict(failed, rps));
      if pendingSettle {
        PassKeepsGapClosed(Machine(), rps);
      }
      if failed {
        nextRps := recoveryRps;
        return;
      }
      RecordSuccess(rps);
      awaitingRecovery := false;
      if phase == Search {
        if pendingSettle {
          pendingSettle := false;
          phase := Steady;
          nextRps := BestSustainableRps();
          return;
        }
        var nextProbe := NextBinaryProbeRps();
        if nextProbe.None? {
          phase := Steady;
          nextRps := BestSustainableRps();
          return;
        }
        nextRps := nextProbe.value;
        return;
      }
      // Recovery is only ever awaited in the search: the source's last clamp is never reached.
      assert false;
    }

    /** The ramp: on towards the maximum, or into the search. */
    method ObserveRamp(failed: bool, rps: int)
      requires Valid() && phase == Ramp && !awaitingRecovery
      modifies this
      ensures Valid()
      ensures Machine() == old(Machine()).Step(Verdict(failed, rps))
    {
      hide ProbeRate, RampRate;
      StepKeepsValid(Machine(), Verdict(failed, rps));
      if failed {
        RecordFailure(rps);
        phase := Search;
        awaitingRecovery := true;
        nextRps := recoveryRps;
        return;
      }
      RecordSuccess(rps);
      nextRps := NextRampRps(rps);
    }

    /** The answer to a probe: whichever it is, a recovery round follows. */
    method ObserveProbe(failed: bool, rps: int)
      requires Valid() && phase == Search && !awaitingRecovery
      modifies this
      ensures Valid()
      ensures Machine() == old(Machine()).Step(Verdict(failed, rps))
    {
      hide ProbeRate, RampRate;
      StepKeepsValid(Machine(), Verdict(failed, rps));
      if failed {
        RecordFailure(rps);
      } else {
        RecordSuccess(rps);
      }
      pendingSettle := SearchConverged();
      awaitingRecovery := true;
      nextRps := recoveryRps;
    }

    /** Settled: stay at the best rate, or back into the search. */
    method ObserveSteady(failed: bool, rps: int)
      requires Valid() && phase == Steady && !awaitingRecovery
      modifies this
      ensures Valid()
      ensures Machine() == old(Machine()).Step(Verdict(failed, rps))
    {
      hide ProbeRate, RampRate;
      StepKeepsValid(Machine(), Verdict(failed, rps));
      if failed {
        RecordFailure(rps);
        phase := Search;
        pendingSettle := SearchConverged();
        awaitingRecovery := true;
        nextRps := recoveryRps;
        return;
      }
      RecordSuccess(rps);
      nextRps := BestSustainableRps();
    }

    /** Half of the completed requests timed out (of the planned ones, if none completed), or the p99 is over a positive limit. */
    function ThresholdExceeded(observation: LoadObservation): (exceeded: bool)
      ensures var counted := if observation.completedRequests > 0 then observation.completedRequests else observation.plannedRequests;
              exceeded <==>
              || (counted > 0 && 2 * observation.timeoutCount >= counted)
              || 0 < maxLatencyMillis < observation.p99LatencyMillis
    {
      TimeoutRatioReachesHalf(observation);
      if observation.TimeoutRatio() >= 0.5 then true
      else maxLatencyMillis > 0 && observation.p99LatencyMillis > maxLatencyMillis
    }

    function NextRampRps(previous: int): (rps: int)
      requires minRps <= maxRps
      ensures rps == RampRate(Limits(minRps, maxRps, maxLatencyMillis), previous)
    {
      if previous >= maxRps then maxRps
      else if previous <= 0 then
        if maxRps <= 0 then 0 else if minRps > 1 then minRps else 1
      else
        var next := previous * 2;
        var raised := if next < minRps then minRps else next;
        ClampRps(raised)
    }

    method RecordSuccess(rps: int)
      requires InRange()
      modifies `highestSuccessfulRps, `highestSuccessfulKnown
      ensures InRange()
      ensures Machine() == old(Machine()).Passed(rps)
    {
      var clamped := ClampRps(rps);
      if !highestSuccessfulKnown || clamped > highestSuccessfulRps {
        highestSuccessfulRps := clamped;
        highestSuccessfulKnown := true;
      }
    }

    method RecordFailure(rps: int)
      requires InRange()
      modifies `lowestUnsuccessfulRps
      ensures InRange()
      ensures Machine() == old(Machine()).Broke(rps)
    {
      var clamped := ClampRps(rps);
      if lowestUnsuccessfulRps < 0 || clamped < lowestUnsuccessfulRps {
        lowestUnsuccessfulRps := clamped;
      }
    }

    function BestSustainableRps(): (rps: int)
      reads this
      requires InRange()
      ensures rps == Machine().Low()
    {
      if highestSuccessfulKnown then ClampRps(highestSuccessfulRps) else recoveryRps
    }

    /** For a failing rate above zero, convergence is exactly the absence of a further probe. */
    function SearchConverged(): (converged: bool)
      reads this
      requires InRange()
      ensures converged <==> lowestUnsuccessfulRps > 0 && Machine().Probe().None?
    {
      if lowestUnsuccessfulRps <= 0 then false
      else
        var low := BestSustainableRps();
        var high := lowestUnsuccessfulRps;
        if high <= low then true
        else if high - low <= minBinaryGranularity then true
        else NextBinaryProbeRps().None?
    }

    function NextBinaryProbeRps(): (probe: Option<int>)
      reads this
      requires InRange()
      ensures probe == Machine().Probe()
      ensures IsMiddleTen(if highestSuccessfulKnown then highestSuccessfulRps else recoveryRps, lowestUnsuccessfulRps, probe)
    {
      assert lowestUnsuccessfulRps >= 0 ==> IsMiddleTen(Machine().Low(), lowestUnsuccessfulRps, Machine().Probe()) by {
        if lowestUnsuccessfulRps >= 0 {
          ProbeIsMiddleTen(Machine().Low(), lowestUnsuccessfulRps);
        }
      }
      if lowestUnsuccessfulRps <= 0 then None
      else ProbeBetween(BestSustainableRps(), lowestUnsuccessfulRps)
    }

    /** The source's chain of roundings, corrections, clamp and rejection computes the machine's probe. */
    function ProbeBetween(low: int, high: int): (probe: Option<int>)
      ensures minBinaryGranularity == GRANULARITY && 0 <= low && 0 <= high <= maxRps ==> probe == ProbeRate(low, high)
      ensures minBinaryGranularity == 10 && 0 <= low && 0 <= high <= maxRps ==> IsMiddleTen(low, high, probe)
    {
      assert 0 <= low && 0 <= high ==> IsMiddleTen(low, high, ProbeRate(low, high)) by {
        if 0 <= low && 0 <= high {
          ProbeIsMiddleTen(low, high);
        }
      }
      if high <= low || high - low <= minBinaryGranularity then None
      else
        var candidate := ClampRps(ProbeCandidate(low, high, minBinaryGranularity));
        if candidate <= low || candidate >= high then None else Some(candidate)
    }

    function ClampRps(rps: int): (r: int)
      ensures r == Limits(minRps, maxRps, maxLatencyMillis).Clamp(rps)
    {
      var raised := if rps < 0 then 0 else rps;
      if raised > maxRps then maxRps else raised
    }
  }

  function NormalisedLimits(minRps: int, maxRps: int, maxLatencyMillis: int): (limits: Limits)
    ensures limits.Valid() && limits.maxLatencyMillis == maxLatencyMillis
    ensures if maxRps >= 0 then limits.maxRps == maxRps else limits.maxRps == 0
    ensures limits.minRps == limits.Clamp(minRps)
  {
    var high := if maxRps < 0 then 0 else maxRps;
    Limits(if minRps < 0 then 0 else if minRps > high then high else minRps, high, maxLatencyMillis)
  }
}
