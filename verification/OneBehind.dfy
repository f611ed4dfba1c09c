/** The loop with one round in flight: each observation is for the rate asked for one tick before the last, because the
    next round is sent before the previous one has been read.  Reports are truthful and come in order; yet the search
    often never ends. */
module OneBehind {
  import opened Wrappers
  import opened LoadController
  import opened ProbeArithmetic
  import opened ControllerRuns
  import opened ClosedLoop

  /** The controller, and the rate of the round that is read at the next tick. */
  datatype Flight = Flight(controller: Controller, due: nat)

  /** Against a target that fails exactly above its capacity. */
  function Read(due: nat, capacity: int): Verdict { Verdict(due > capacity, due) }

  /** One tick reads the round that is due; the round sent before it stays in flight. */
  function Tick(f: Flight, capacity: int): (g: Flight)
    requires f.controller.Valid()
    ensures g.controller.Valid() && g.controller.limits == f.controller.limits
  {
    StepKeepsValid(f.controller, Read(f.due, capacity));
    Flight(f.controller.Step(Read(f.due, capacity)), f.controller.Next())
  }

  /** The first round has been sent and nothing has been read. */
  function Start(limits: Limits): (f: Flight)
    requires limits.Valid()
    ensures f.controller.Valid() && f.controller.limits == limits
  {
    Flight(Fresh(limits), Fresh(limits).Next())
  }

  function After(f: Flight, capacity: int, n: nat): (g: Flight)
    requires f.controller.Valid()
    ensures g.controller.Valid() && g.controller.limits == f.controller.limits
  {
    if n == 0 then f else Tick(After(f, capacity, n - 1), capacity)
  }

  lemma {:induction false} AfterAdds(f: Flight, capacity: int, a: nat, b: nat)
    requires f.controller.Valid()
    ensures After(f, capacity, a + b) == After(After(f, capacity, a), capacity, b)
    decreases b
  {
    hide Tick;
    if b > 0 {
      AfterAdds(f, capacity, a, b - 1);
    }
  }

  // ---- What is read is truthful

  /** What the controller has read after n ticks. */
  function ReadSoFar(limits: Limits, capacity: int, n: nat): (vs: seq<Verdict>)
    requires limits.Valid()
  {
    if n == 0 then []
    else ReadSoFar(limits, capacity, n - 1) + [Read(After(Start(limits), capacity, n - 1).due, capacity)]
  }

  lemma {:induction false} ReadsAreTruthful(limits: Limits, capacity: int, n: nat)
    requires limits.Valid()
    ensures var f, vs := After(Start(limits), capacity, n), ReadSoFar(limits, capacity, n);
            && f.controller == Run(Fresh(limits), vs) && f.due <= limits.maxRps
            && Truthful(vs, limits.maxRps, capacity)
  {
    hide Controller.Step;
    if n > 0 {
      ReadsAreTruthful(limits, capacity, n - 1);
      NextWithin(After(Start(limits), capacity, n - 1).controller);
      var vs := ReadSoFar(limits, capacity, n);
      assert vs[..|vs| - 1] == ReadSoFar(limits, capacity, n - 1);
    }
  }

  lemma NextWithin(c: Controller)
    requires c.Valid()
    ensures c.Next() <= c.limits.maxRps
  {
  }

  // ---- Settling

  ghost predicate Settles(f: Flight, capacity: int)
    requires f.controller.Valid()
  {
    exists n: nat :: After(f, capacity, n).controller.mode.Settled?
  }

  /** A few ticks without settling decide nothing. */
  lemma SettlesLater(f: Flight, capacity: int, k: nat)
    requires f.controller.Valid()
    requires forall n: nat :: n < k ==> !After(f, capacity, n).controller.mode.Settled?
    ensures Settles(f, capacity) <==> Settles(After(f, capacity, k), capacity)
  {
    hide After;
    var g := After(f, capacity, k);
    if Settles(f, capacity) {
      var n: nat :| After(f, capacity, n).controller.mode.Settled?;
      AfterAdds(f, capacity, k, n - k);
      assert After(g, capacity, n - k).controller.mode.Settled?;
    }
    if Settles(g, capacity) {
      var n: nat :| After(g, capacity, n).controller.mode.Settled?;
      AfterAdds(f, capacity, k, n);
    }
  }

  // ---- The search, one round behind

  /** A probe has just been asked for and a recovery round is due. */
  ghost predicate Searching(f: Flight, capacity: int) {
    && f.controller.Valid() && f.controller.mode.Probing?
    && f.due == f.controller.limits.RecoveryRps() <= f.controller.best.value <= capacity < f.controller.worst.value
  }

  /** A probe above the capacity is read during recovery, so its failure is dropped, and three ticks later
      the loop is where it was. */
  lemma FailingProbeIsDropped(f: Flight, capacity: int)
    requires Searching(f, capacity) && f.controller.Next() > capacity
    ensures After(f, capacity, 3) == f
    ensures forall n: nat :: n < 3 ==> !After(f, capacity, n).controller.mode.Settled?
  {
    var g := Tick(f, capacity);
    assert g == Flight(f.controller.(mode := Recovering), f.controller.Next());
    var h := Tick(g, capacity);
    assert h == Flight(g.controller, f.due);
    assert Tick(h, capacity) == f;
    FirstThree(f, capacity);
  }

  lemma FirstThree(f: Flight, capacity: int)
    requires f.controller.Valid()
    ensures After(f, capacity, 0) == f
    ensures After(f, capacity, 1) == Tick(f, capacity)
    ensures After(f, capacity, 2) == Tick(Tick(f, capacity), capacity)
    ensures After(f, capacity, 3) == Tick(Tick(Tick(f, capacity), capacity), capacity)
  {
    hide Tick;
    var g := After(f, capacity, 1);
    var h := After(f, capacity, 2);
    assert g == Tick(After(f, capacity, 0), capacity);
    assert h == Tick(g, capacity);
  }

  /** Such a loop never settles: for ever it asks for the same failing probe at every third tick. */
  lemma {:induction false} NeverSettles(f: Flight, capacity: int, n: nat)
    requires Searching(f, capacity) && f.controller.Next() > capacity
    ensures !After(f, capacity, n).controller.mode.Settled?
    ensures n % 3 == 0 ==> After(f, capacity, n) == f
    decreases n
  {
    hide After, Tick, Searching, Controller.Valid, Controller.Next;
    FailingProbeIsDropped(f, capacity);
    FirstThree(f, capacity);
    if n >= 3 {
      NeverSettles(f, capacity, n - 3);
      AfterAdds(f, capacity, 3, n - 3);
    }
  }

  /** A probe that passes is read during recovery all the same, and the search goes on from there. */
  lemma PassingProbeCounts(f: Flight, capacity: int)
    requires Searching(f, capacity) && f.controller.Next() <= capacity
    ensures var c, g := f.controller, After(f, capacity, 2);
            && !After(f, capacity, 1).controller.mode.Settled?
            && g.controller.best == Some(c.Next()) && g.controller.worst == c.worst
            && c.best.value < c.Next() && c.Next() % GRANULARITY == 0
            && (if c.worst.value - c.Next() > GRANULARITY then Searching(g, capacity) else g.controller.mode.Settled?)
  {
    FirstThree(f, capacity);
    var g := Tick(f, capacity);
    assert g == Flight(f.controller.(mode := Recovering), f.controller.Next());
    ProbeIsInside(f.controller.best.value, f.controller.worst.value);
    ProbeIsInside(f.controller.Next(), f.controller.worst.value);
  }

  /** The greatest multiple of ten below a rate. */
  function Top(rate: nat): nat
    requires rate > 0
  {
    (rate - 1) / GRANULARITY * GRANULARITY
  }

  lemma TopIsGreatest(m: nat, rate: nat)
    requires m < rate && m % GRANULARITY == 0
    ensures m <= Top(rate) < rate && Top(rate) % GRANULARITY == 0
    ensures rate - m <= GRANULARITY ==> Top(rate) == m
  {
  }

  /** From there the search settles exactly when no multiple of ten lies above the capacity and below the failing rate. */
  lemma {:induction false} SearchSettlesIff(f: Flight, capacity: int)
    requires Searching(f, capacity)
    ensures Settles(f, capacity) <==> capacity >= Top(f.controller.worst.value)
    decreases f.controller.worst.value - f.controller.best.value
  {
    hide After, Tick, Top;
    var c, probe := f.controller, f.controller.Next();
    ProbeIsInside(c.best.value, c.worst.value);
    TopIsGreatest(probe, c.worst.value);
    FirstThree(f, capacity);
    if probe > capacity {
      forall n: nat
        ensures !After(f, capacity, n).controller.mode.Settled?
      {
        NeverSettles(f, capacity, n);
      }
    } else {
      PassingProbeCounts(f, capacity);
      if c.worst.value - probe > GRANULARITY {
        SearchSettlesIff(After(f, capacity, 2), capacity);
        SettlesLater(f, capacity, 2);
      }
    }
  }

  // ---- The ramp, one round behind

  lemma RampFollows(limits: Limits, n: nat)
    requires limits.Valid()
    ensures var now, next := RampRateAt(limits, n), RampRateAt(limits, n + 1);
            RampRate(limits, now) == next && now <= next <= limits.maxRps
  {
    hide RampRateAt;
    RampRateDoubles(limits, n);
    RampIsCutOff(limits, n);
    RampIsCutOff(limits, n + 1);
  }

  lemma RampIsCutOff(limits: Limits, n: nat)
    requires limits.Valid()
    ensures RampRateAt(limits, n) <= limits.maxRps
  {
  }

  /** The state after two ticks for each of the ramp's first k rates. */
  function Ramped(limits: Limits, k: nat): Flight {
    Flight(Controller(limits, Ramping(RampRateAt(limits, k)), if k == 0 then None else Some(RampRateAt(limits, k - 1)), None),
           RampRateAt(limits, k))
  }

  /** Each rate of the ramp is sent twice, and read twice. */
  lemma {:induction false} RampGoesTwiceAsSlow(limits: Limits, capacity: int, k: nat)
    requires limits.Valid()
    requires forall j :: 0 <= j < k ==> RampRateAt(limits, j) <= capacity
    ensures After(Start(limits), capacity, 2 * k) == Ramped(limits, k)
    ensures forall n: nat :: n <= 2 * k ==> After(Start(limits), capacity, n).controller.mode.Ramping?
  {
    hide After, Tick, RampRateAt;
    FirstThree(Start(limits), capacity);
    if k == 0 {
      RampStarts(limits);
    } else {
      RampGoesTwiceAsSlow(limits, capacity, k - 1);
      var f := Ramped(limits, k - 1);
      RampTwoTicks(limits, capacity, k - 1);
      FirstThree(f, capacity);
      AfterAdds(Start(limits), capacity, 2 * (k - 1), 1);
      AfterAdds(Start(limits), capacity, 2 * (k - 1), 2);
    }
  }

  lemma RampStarts(limits: Limits)
    requires limits.Valid()
    ensures Start(limits) == Ramped(limits, 0)
  {
  }

  lemma RampTwoTicks(limits: Limits, capacity: int, k: nat)
    requires limits.Valid() && Ramped(limits, k).controller.Valid() && RampRateAt(limits, k) <= capacity
    ensures var g := Tick(Ramped(limits, k), capacity);
            g.controller.mode.Ramping? && Tick(g, capacity) == Ramped(limits, k + 1)
  {
    hide RampRateAt, RampRate;
    RampFollows(limits, k);
    if k > 0 {
      RampFollows(limits, k - 1);
    }
  }

  /** The ramp's k-th rate is its first above the capacity. */
  ghost predicate BreaksAt(limits: Limits, capacity: int, k: nat) {
    && RampRateAt(limits, k) > capacity
    && (forall j :: 0 <= j < k ==> RampRateAt(limits, j) <= capacity)
  }

  /** The best rate once the recovery round after the ramp has passed. */
  function LowAfterRamp(limits: Limits, k: nat): nat {
    if k > 0 && RampRateAt(limits, k - 1) > limits.RecoveryRps() then RampRateAt(limits, k - 1) else limits.RecoveryRps()
  }

  /** The ramp's failing rate leaves no probe to ask for, or none above the capacity. */
  ghost predicate NoProbeAbove(limits: Limits, capacity: int, k: nat) {
    var failing := RampRateAt(limits, k);
    failing > 0 && (failing - LowAfterRamp(limits, k) <= GRANULARITY || capacity >= Top(failing))
  }

  /** The failing rate is read twice, the second time in vain; then a recovery round passes. */
  lemma RampBreaks(limits: Limits, capacity: int, k: nat)
    requires limits.Valid() && BreaksAt(limits, capacity, k) && limits.RecoveryRps() <= capacity
    ensures var f := Ramped(limits, k);
            && f.controller.Valid()
            && (forall n: nat :: n < 3 ==> !After(f, capacity, n).controller.mode.Settled?)
            && var g := After(f, capacity, 3);
               && g.controller.best == Some(LowAfterRamp(limits, k)) && g.controller.worst == Some(RampRateAt(limits, k))
               && (if RampRateAt(limits, k) - LowAfterRamp(limits, k) > GRANULARITY then Searching(g, capacity)
                   else g.controller.mode.Settled?)
  {
    hide After, RampRateAt;
    RampIsCutOff(limits, k);
    if k > 0 {
      RampIsCutOff(limits, k - 1);
    }
    var f := Ramped(limits, k);
    FirstThree(f, capacity);
    var g := Tick(f, capacity);
    assert g == Flight(Controller(limits, Recovering, f.controller.best, Some(f.due)), f.due);
    assert Tick(g, capacity) == Flight(g.controller, limits.RecoveryRps());
    ProbeIsInside(LowAfterRamp(limits, k), RampRateAt(limits, k));
  }

  lemma SettlesIffNoProbeAbove(limits: Limits, capacity: int, k: nat)
    requires limits.Valid() && BreaksAt(limits, capacity, k) && limits.RecoveryRps() <= capacity
    ensures Settles(Start(limits), capacity) <==> NoProbeAbove(limits, capacity, k)
  {
    hide After, RampRateAt, Searching, Controller.Valid;
    RampGoesTwiceAsSlow(limits, capacity, k);
    RampBreaks(limits, capacity, k);
    SettlesLater(Start(limits), capacity, 2 * k);
    var f := Ramped(limits, k);
    SettlesLater(f, capacity, 3);
    if RampRateAt(limits, k) - LowAfterRamp(limits, k) > GRANULARITY {
      SearchSettlesIff(After(f, capacity, 3), capacity);
    }
  }

  // ---- When the loop settles

  lemma {:induction false} BreakExists(limits: Limits, capacity: int, n: nat) returns (k: nat)
    requires RampRateAt(limits, n) > capacity
    ensures BreaksAt(limits, capacity, k)
    decreases n
  {
    hide RampRateAt;
    k := n;
    if j :| 0 <= j < n && RampRateAt(limits, j) > capacity {
      k := BreakExists(limits, capacity, j);
    }
  }

  /** The ramp reaches the maximum rate, so it breaks below it. */
  lemma RampMustBreak(limits: Limits, capacity: int) returns (k: nat)
    requires limits.Valid() && capacity < limits.maxRps
    ensures BreaksAt(limits, capacity, k)
  {
    hide *;
    var n := 1 + CeilLog2(limits.maxRps);
    FreshIsValid(limits);
    RampPlateau(limits, limits.maxRps, n);
    PlateauRate(limits, limits.maxRps, n);
    k := BreakExists(limits, capacity, n);
  }

  lemma PlateauRate(limits: Limits, capacity: int, n: nat)
    requires limits.Valid() && Against(Fresh(limits), capacity, n).mode.Ramping?
    ensures RampRateAt(limits, n) == Against(Fresh(limits), capacity, n).Next()
  {
    hide Against, RampRateAt;
    RampDoubles(limits, capacity, n);
  }

  /** Once recovery rounds fail, and while the last round of the ramp is read a second time, nothing ends recovery. */
  lemma {:induction false} RecoversForEver(f: Flight, capacity: int, n: nat)
    requires f.controller.Valid() && f.controller.mode.Recovering?
    requires f.due > capacity && f.controller.limits.RecoveryRps() > capacity
    ensures var g := After(f, capacity, n);
            g.controller == f.controller && g.due > capacity
  {
    if n > 0 {
      RecoversForEver(f, capacity, n - 1);
    }
  }

  lemma BelowRecoveryNeverSettlesBehind(limits: Limits, capacity: int)
    requires limits.Valid() && capacity < limits.RecoveryRps()
    ensures !Settles(Start(limits), capacity)
  {
    hide After, RampRateAt;
    var k := RampMustBreak(limits, capacity);
    RampGoesTwiceAsSlow(limits, capacity, k);
    var f := Ramped(limits, k);
    FirstThree(f, capacity);
    SettlesLater(Start(limits), capacity, 2 * k);
    SettlesLater(f, capacity, 1);
    var g := After(f, capacity, 1);
    assert g.controller.mode.Recovering? && g.due == f.due;
    forall n: nat
      ensures !After(g, capacity, n).controller.mode.Settled?
    {
      RecoversForEver(g, capacity, n);
    }
  }

  lemma AboveMaximumNeverSettlesBehind(limits: Limits, capacity: int)
    requires limits.Valid() && capacity >= limits.maxRps
    ensures !Settles(Start(limits), capacity)
  {
    hide After, RampRateAt;
    forall n: nat
      ensures !After(Start(limits), capacity, n).controller.mode.Settled?
    {
      forall j | 0 <= j < n
        ensures RampRateAt(limits, j) <= capacity
      {
        RampIsCutOff(limits, j);
      }
      RampGoesTwiceAsSlow(limits, capacity, n);
    }
  }

  /** With one round in flight, the loop settles exactly when the target carries a recovery round but not the maximum
      rate, and the failing rate of the ramp either leaves no probe or has no multiple of ten between the capacity and itself.
      The loop that reads every round before it sends the next needs only the first half of that. */
  lemma BehindSettlesIff(limits: Limits, capacity: int)
    requires limits.Valid()
    ensures Settles(Start(limits), capacity) <==>
            && limits.RecoveryRps() <= capacity < limits.maxRps
            && exists k: nat :: BreaksAt(limits, capacity, k) && NoProbeAbove(limits, capacity, k)
  {
    hide Settles, RampRateAt, NoProbeAbove;
    if capacity < limits.RecoveryRps() {
      BelowRecoveryNeverSettlesBehind(limits, capacity);
    } else if capacity >= limits.maxRps {
      AboveMaximumNeverSettlesBehind(limits, capacity);
    } else {
      var k := RampMustBreak(limits, capacity);
      forall j: nat | BreaksAt(limits, capacity, j)
        ensures j == k
      {
      }
      SettlesIffNoProbeAbove(limits, capacity, k);
    }
  }

  /** If it settles, it stays settled, within nine of the capacity. */
  lemma {:induction false} SettledStaysBehind(limits: Limits, capacity: int, n: nat, m: nat)
    requires limits.Valid() && n <= m && After(Start(limits), capacity, n).controller.mode.Settled?
    ensures var c := After(Start(limits), capacity, m).controller;
            c.mode.Settled? && c.Next() <= capacity <= c.Next() + GRANULARITY - 1
    decreases m
  {
    hide Tick, ReadSoFar, Truthful;
    ReadsAreTruthful(limits, capacity, m);
    SettlesWithinGranularity(limits, ReadSoFar(limits, capacity, m), capacity);
    if n < m {
      SettledStaysBehind(limits, capacity, n, m - 1);
      BehindSettlesIff(limits, capacity);
      SettledComesFrom(limits, capacity, m - 1);
      StaysOneTick(After(Start(limits), capacity, m - 1), capacity);
    }
  }

  lemma SettledComesFrom(limits: Limits, capacity: int, n: nat)
    requires limits.Valid() && After(Start(limits), capacity, n).controller.mode.Settled?
    requires limits.RecoveryRps() <= capacity
    ensures After(Start(limits), capacity, n).due <= capacity
  {
    hide Tick, ReadSoFar, Truthful;
    assert n > 0;
    ReadsAreTruthful(limits, capacity, n - 1);
    SettlesWithinGranularity(limits, ReadSoFar(limits, capacity, n - 1), capacity);
    DueWhenSettled(After(Start(limits), capacity, n - 1), capacity);
  }

  lemma DueWhenSettled(f: Flight, capacity: int)
    requires f.controller.Valid() && f.controller.limits.RecoveryRps() <= capacity && Encloses(f.controller, capacity)
    ensures Tick(f, capacity).controller.mode.Settled? ==> Tick(f, capacity).due <= capacity
  {
  }

  lemma StaysOneTick(f: Flight, capacity: int)
    requires f.controller.Valid() && f.controller.mode.Settled? && f.due <= capacity
    ensures Tick(f, capacity).controller.mode.Settled?
  {
  }

  /** On a target that carries sixty, from twenty up to a hundred, the loop asks for seventy at every third tick for ever. */
  lemma AsksForSeventyForEver(n: nat)
    ensures var f := After(Start(Limits(20, 100, 0)), 60, 9 + n);
            !f.controller.mode.Settled? && (n % 3 == 0 ==> f.controller.Next() == 70 && f.controller.best == Some(60))
  {
    hide After, Tick;
    var start := Start(Limits(20, 100, 0));
    var stuck := Flight(Controller(start.controller.limits, Probing, Some(60), Some(80)), 1);
    ReachesSeventy();
    AfterAdds(start, 60, 9, n);
    NeverSettles(stuck, 60, n);
  }

  lemma ReachesSeventy()
    ensures After(Start(Limits(20, 100, 0)), 60, 9) ==
            Flight(Controller(Limits(20, 100, 0), Probing, Some(60), Some(80)), 1)
  {
    hide After;
    var limits := Limits(20, 100, 0);
    assert RampRateAt(limits, 0) == 20 * Pow2(0) && RampRateAt(limits, 1) == 20 * Pow2(1);
    RampGoesTwiceAsSlow(limits, 60, 2);
    var f := Ramped(limits, 2);
    FirstThree(f, 60);
    var g := After(f, 60, 3);
    FirstThree(g, 60);
    AfterAdds(f, 60, 3, 2);
    AfterAdds(Start(limits), 60, 4, 5);
  }
}
