/** The adaptive load controller as a small state machine: the reference that the
    source's AdaptiveExponentialLoadCalculator is proved against.

    The machine keeps no flags.  What it dispatches next is a function of its mode and of
    the two bounds it has learnt: the best rate seen to pass and the worst seen to fail. */
module LoadController {
  import opened Wrappers
  import opened Types

  const GRANULARITY: nat := 10

  datatype Limits = Limits(minRps: nat, maxRps: nat, maxLatencyMillis: int)
  {
    ghost predicate Valid() { minRps <= maxRps }

    /** The rate of a recovery round: at most one request per second. */
    function RecoveryRps(): (r: nat)
      ensures r <= 1 && r <= maxRps
      ensures maxRps > 0 ==> r == 1
    {
      if maxRps < 1 then maxRps else 1
    }

    function Clamp(rps: int): (r: nat)
      ensures r <= maxRps
      ensures 0 <= rps <= maxRps ==> r == rps
      ensures rps < 0 ==> r == 0
      ensures rps > maxRps ==> r == maxRps
    {
      if rps < 0 then 0 else if rps > maxRps then maxRps else rps
    }
  }

  /** One observation as the controller reads it: the round's rate, and whether it broke the target. */
  datatype Verdict = Verdict(failed: bool, rps: int)

  predicate Breached(limits: Limits, o: LoadObservation) {
    || o.TimeoutRatio() >= 0.5
    || (limits.maxLatencyMillis > 0 && o.p99LatencyMillis > limits.maxLatencyMillis)
  }

  function VerdictOf(limits: Limits, o: LoadObservation): Verdict {
    Verdict(Breached(limits, o), o.totalRps)
  }

  function Verdicts(limits: Limits, observations: seq<LoadObservation>): (vs: seq<Verdict>)
    ensures |vs| == |observations|
    ensures forall i :: 0 <= i < |vs| ==> vs[i] == VerdictOf(limits, observations[i])
  {
    seq(|observations|, i requires 0 <= i < |observations| => VerdictOf(limits, observations[i]))
  }

  /** The rate that splits the gap between a passing and a failing rate: a multiple of ten
      near the middle, or nothing when the gap is ten or less. */
  function ProbeRate(low: nat, high: nat): Option<nat> {
    if high <= low + GRANULARITY then None
    else
      var middle := (low + high) / 2 / GRANULARITY * GRANULARITY;
      Some(if middle <= low then (low / GRANULARITY + 1) * GRANULARITY else middle)
  }

  function RampRate(limits: Limits, previous: int): nat {
    if previous >= limits.maxRps then limits.maxRps
    else if previous <= 0 then limits.Clamp(if limits.minRps > 1 then limits.minRps else 1)
    else limits.Clamp(if 2 * previous < limits.minRps then limits.minRps else 2 * previous)
  }

  datatype Mode = Ramping(rate: nat) | Recovering | Probing | Settled

  datatype Controller = Controller(limits: Limits, mode: Mode, best: Option<nat>, worst: Option<nat>)
  {
    /** The rate known to be sustainable; before any pass, the recovery rate. */
    function Low(): nat {
      if best.Some? then best.value else limits.RecoveryRps()
    }

    function Probe(): Option<nat> {
      if worst.None? then None else ProbeRate(Low(), worst.value)
    }

    /** The invariant of every reachable controller, whatever it observed. */
    ghost predicate Valid() {
      && limits.Valid()
      && (best.Some? ==> best.value <= limits.maxRps)
      && (worst.Some? ==> worst.value <= limits.maxRps)
      && (mode.Ramping? <==> worst.None?)
      && (mode.Ramping? ==> mode.rate <= limits.maxRps)
      && (mode.Probing? ==> best.Some? && Probe().Some?)
      && (mode.Settled? ==> best.Some? && Probe().None?)
    }

    /** The rate of the next round. */
    function Next(): nat
      requires Valid()
    {
      match mode
      case Ramping(rate) => rate
      case Recovering => limits.RecoveryRps()
      case Probing => Probe().value
      case Settled => best.value
    }

    function Passed(rps: int): Controller {
      var r := limits.Clamp(rps);
      if best.None? || r > best.value then this.(best := Some(r)) else this
    }

    function Broke(rps: int): Controller {
      var r := limits.Clamp(rps);
      if worst.None? || r < worst.value then this.(worst := Some(r)) else this
    }

    function Learn(v: Verdict): Controller {
      if v.failed then Broke(v.rps) else Passed(v.rps)
    }

    function Step(v: Verdict): Controller {
      match mode
      case Ramping(_) =>
        if v.failed then Broke(v.rps).(mode := Recovering)
        else Passed(v.rps).(mode := Ramping(RampRate(limits, v.rps)))
      case Recovering =>
        if v.failed then this
        else
          var learnt := Passed(v.rps);
          learnt.(mode := if learnt.Probe().Some? then Probing else Settled)
      case Probing =>
        Learn(v).(mode := Recovering)
      case Settled =>
        Learn(v).(mode := if v.failed then Recovering else Settled)
    }
  }

  /** The controller as constructed: ramping from the (normalised) minimum rate. */
  function Fresh(limits: Limits): Controller {
    Controller(limits, Ramping(limits.minRps), None, None)
  }

  function Run(c: Controller, vs: seq<Verdict>): Controller
    decreases |vs|
  {
    if vs == [] then c else Run(c, vs[..|vs| - 1]).Step(vs[|vs| - 1])
  }

  /** A pass never opens a gap that needs a probe: this is why a pending settlement can be honoured unread. */
  lemma PassKeepsGapClosed(c: Controller, rps: int)
    requires c.best.Some? && c.Probe().None?
    ensures c.Passed(rps).Probe().None?
  {
  }

  /** No observation, however wrong, takes the controller out of its invariant. */
  lemma StepKeepsValid(c: Controller, v: Verdict)
    requires c.Valid()
    ensures c.Step(v).Valid()
  {
    if c.mode.Recovering? && !v.failed {
      assert c.Passed(v.rps).Valid();
    }
  }
}
