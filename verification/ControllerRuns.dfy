/** Properties of every run of the load controller.  Nothing is assumed about the
    observations here unless a lemma says so: they may be wrong, late, repeated or reordered. */
module ControllerRuns {
  import opened Wrappers
  import opened LoadController
  import opened ProbeArithmetic

  lemma {:induction false} RunKeepsValid(c: Controller, vs: seq<Verdict>)
    requires c.Valid()
    ensures Run(c, vs).Valid()
    ensures Run(c, vs).limits == c.limits
    decreases |vs|
  {
    if vs != [] {
      RunKeepsValid(c, vs[..|vs| - 1]);
      StepKeepsValid(Run(c, vs[..|vs| - 1]), vs[|vs| - 1]);
    }
  }

  lemma {:induction false} RunAdds(c: Controller, vs: seq<Verdict>, ws: seq<Verdict>)
    ensures Run(c, vs + ws) == Run(Run(c, vs), ws)
    decreases |ws|
  {
    hide Controller.Step;
    if ws == [] {
      assert vs + ws == vs;
    } else {
      RunAdds(c, vs, ws[..|ws| - 1]);
      assert (vs + ws)[..|vs + ws| - 1] == vs + ws[..|ws| - 1];
    }
  }

  /** In every reachable state the next rate is within the limits, and it says what the phase promises:
      a recovery rate of at most one, a probe strictly between the bounds, or the best rate seen to pass. */
  lemma {:induction false} ReachableRates(limits: Limits, vs: seq<Verdict>)
    requires limits.Valid()
    ensures var c := Run(Fresh(limits), vs);
            && c.Valid() && c.Next() <= limits.maxRps
            && (c.mode.Ramping? <==> c.worst.None?)
            && (c.mode.Recovering? ==> c.Next() == if limits.maxRps == 0 then 0 else 1)
            && (c.mode.Probing? ==>
                  && c.best.Some? && c.best.value < c.Next() < c.worst.value
                  && c.worst.value - c.best.value > 10
                  && IsMiddleTen(c.best.value, c.worst.value, Some(c.Next())))
            && (c.mode.Settled? ==> c.best == Some(c.Next()) && c.worst.value - c.best.value <= 10)
  {
    RunKeepsValid(Fresh(limits), vs);
    var c := Run(Fresh(limits), vs);
    if c.worst.Some? {
      ProbeIsInside(c.Low(), c.worst.value);
      ProbeIsMiddleTen(c.Low(), c.worst.value);
      hide IsMiddleTen, ProbeRate;
    }
  }

  // ---- What the controller remembers

  /** A failing observation counts unless it arrives while a recovery round is awaited. */
  ghost predicate Counted(limits: Limits, vs: seq<Verdict>, i: nat)
    requires i < |vs|
  {
    vs[i].failed && !Run(Fresh(limits), vs[..i]).mode.Recovering?
  }

  ghost predicate IsBest(limits: Limits, vs: seq<Verdict>, rate: nat) {
    && (exists i :: 0 <= i < |vs| && !vs[i].failed && limits.Clamp(vs[i].rps) == rate)
    && (forall i :: 0 <= i < |vs| && !vs[i].failed ==> limits.Clamp(vs[i].rps) <= rate)
  }

  ghost predicate IsWorst(limits: Limits, vs: seq<Verdict>, rate: nat) {
    && (exists i :: 0 <= i < |vs| && Counted(limits, vs, i) && limits.Clamp(vs[i].rps) == rate)
    && (forall i :: 0 <= i < |vs| && Counted(limits, vs, i) ==> rate <= limits.Clamp(vs[i].rps))
  }

  /** Over any run, the best rate is the greatest rate that ever passed and the worst the least rate
      that ever failed outside recovery (each clamped to the limits); they are unknown exactly when
      there is no such observation. */
  lemma {:induction false} BoundsAreExtremes(limits: Limits, vs: seq<Verdict>)
    requires limits.Valid()
    ensures var c := Run(Fresh(limits), vs);
            && (if c.best.Some? then IsBest(limits, vs, c.best.value)
                else forall i :: 0 <= i < |vs| ==> vs[i].failed)
            && (if c.worst.Some? then IsWorst(limits, vs, c.worst.value)
                else forall i :: 0 <= i < |vs| ==> !Counted(limits, vs, i))
    decreases |vs|
  {
    if vs != [] {
      var n := |vs| - 1;
      var front := vs[..n];
      BoundsAreExtremes(limits, front);
      RunKeepsValid(Fresh(limits), front);
      forall i | 0 <= i < n
        ensures Counted(limits, vs, i) == Counted(limits, front, i)
      {
        assert front[..i] == vs[..i];
      }
      var b, c := Run(Fresh(limits), front), Run(Fresh(limits), vs);
      assert vs[..n] == front;
      ExtendBest(limits, vs, b, c);
      ExtendWorst(limits, vs, b, c);
    }
  }

  lemma ExtendBest(limits: Limits, vs: seq<Verdict>, b: Controller, c: Controller)
    requires vs != [] && b.limits == limits
    requires c == b.Step(vs[|vs| - 1])
    requires var front := vs[..|vs| - 1];
             if b.best.Some? then IsBest(limits, front, b.best.value)
             else forall i :: 0 <= i < |front| ==> front[i].failed
    ensures if c.best.Some? then IsBest(limits, vs, c.best.value)
            else forall i :: 0 <= i < |vs| ==> vs[i].failed
  {
    hide Limits.Clamp, ProbeRate, RampRate;
    var n := |vs| - 1;
    var front, r := vs[..n], limits.Clamp(vs[n].rps);
    assert forall i :: 0 <= i < n ==> front[i] == vs[i];
    assert c.best == if vs[n].failed || (b.best.Some? && r <= b.best.value) then b.best else Some(r);
    if b.best.Some? && c.best == b.best {
      var i :| 0 <= i < |front| && !front[i].failed && limits.Clamp(front[i].rps) == b.best.value;
      assert !vs[i].failed && limits.Clamp(vs[i].rps) == b.best.value;
    }
  }

  lemma ExtendWorst(limits: Limits, vs: seq<Verdict>, b: Controller, c: Controller)
    requires vs != [] && b.limits == limits && limits.Valid()
    requires b == Run(Fresh(limits), vs[..|vs| - 1]) && b.Valid()
    requires c == b.Step(vs[|vs| - 1])
    requires var front := vs[..|vs| - 1];
             && (forall i :: 0 <= i < |front| ==> Counted(limits, vs, i) == Counted(limits, front, i))
             && if b.worst.Some? then IsWorst(limits, front, b.worst.value)
                else forall i :: 0 <= i < |front| ==> !Counted(limits, front, i)
    ensures if c.worst.Some? then IsWorst(limits, vs, c.worst.value)
            else forall i :: 0 <= i < |vs| ==> !Counted(limits, vs, i)
  {
    hide *;
    WorstStep(limits, vs, b);
    if b.worst.Some? {
      KeepsWorst(limits, vs, vs[..|vs| - 1], b.worst.value);
      LowersWorst(limits, vs, vs[..|vs| - 1], Some(b.worst.value));
    } else {
      LowersWorst(limits, vs, vs[..|vs| - 1], None);
    }
  }

  lemma KeepsWorst(limits: Limits, vs: seq<Verdict>, front: seq<Verdict>, rate: nat)
    requires vs != [] && front == vs[..|vs| - 1] && IsWorst(limits, front, rate)
    requires forall i :: 0 <= i < |front| ==> Counted(limits, vs, i) == Counted(limits, front, i)
    ensures !Counted(limits, vs, |vs| - 1) || rate <= limits.Clamp(vs[|vs| - 1].rps) ==> IsWorst(limits, vs, rate)
  {
    hide Limits.Clamp, Counted;
    var i :| 0 <= i < |front| && Counted(limits, front, i) && limits.Clamp(front[i].rps) == rate;
    assert Counted(limits, vs, i) && limits.Clamp(vs[i].rps) == rate;
  }

  lemma LowersWorst(limits: Limits, vs: seq<Verdict>, front: seq<Verdict>, before: Option<nat>)
    requires vs != [] && front == vs[..|vs| - 1]
    requires forall i :: 0 <= i < |front| ==> Counted(limits, vs, i) == Counted(limits, front, i)
    requires if before.Some? then IsWorst(limits, front, before.value)
             else forall i :: 0 <= i < |front| ==> !Counted(limits, front, i)
    ensures var n := |vs| - 1;
            var r := limits.Clamp(vs[n].rps);
            && (Counted(limits, vs, n) && (before.None? || r < before.value) ==> IsWorst(limits, vs, r))
            && (!Counted(limits, vs, n) && before.None? ==> forall i :: 0 <= i < |vs| ==> !Counted(limits, vs, i))
  {
    hide Limits.Clamp, Counted;
    assert forall i :: 0 <= i < |front| ==> front[i] == vs[i];
  }

  lemma WorstStep(limits: Limits, vs: seq<Verdict>, b: Controller)
    requires vs != [] && b.limits == limits && limits.Valid()
    requires b == Run(Fresh(limits), vs[..|vs| - 1]) && b.Valid()
    ensures var n := |vs| - 1;
            var r := limits.Clamp(vs[n].rps);
            b.Step(vs[n]).worst ==
            if !Counted(limits, vs, n) || (b.worst.Some? && r >= b.worst.value) then b.worst else Some(r)
  {
    hide Run, ProbeRate, RampRate, Limits.Clamp;
  }

  /** The two bounds are in order exactly when no rate that passed is at or above one that counted as failing:
      a target that passes at a rate once and fails at it later breaks the order. */
  lemma BoundsOrderedIffConsistent(limits: Limits, vs: seq<Verdict>)
    requires limits.Valid()
    ensures var c := Run(Fresh(limits), vs);
            (c.best.Some? && c.worst.Some? ==> c.best.value < c.worst.value) <==>
            forall i, j :: 0 <= i < |vs| && 0 <= j < |vs| && !vs[i].failed && Counted(limits, vs, j) ==>
              limits.Clamp(vs[i].rps) < limits.Clamp(vs[j].rps)
  {
    BoundsAreExtremes(limits, vs);
    var c := Run(Fresh(limits), vs);
    if c.best.Some? && c.worst.Some? && c.best.value >= c.worst.value {
      var i :| 0 <= i < |vs| && !vs[i].failed && limits.Clamp(vs[i].rps) == c.best.value;
      var j :| 0 <= j < |vs| && Counted(limits, vs, j) && limits.Clamp(vs[j].rps) == c.worst.value;
    }
  }

  /** A concrete inconsistent target: twenty passes, then fails, and the bounds meet. */
  lemma FlakyTargetMeetsBounds()
    ensures var limits := Limits(20, 100, 0);
            var c := Run(Fresh(limits), [Verdict(false, 20), Verdict(true, 20)]);
            c.best == Some(20) && c.worst == Some(20)
  {
  }

  // ---- Monotone bounds

  ghost predicate Tightens(c: Controller, d: Controller) {
    && c.limits == d.limits
    && (c.best.Some? ==> d.best.Some? && c.best.value <= d.best.value)
    && (c.worst.Some? ==> d.worst.Some? && d.worst.value <= c.worst.value)
  }

  /** The best rate never falls and the worst never rises. */
  lemma {:induction false} BoundsTighten(c: Controller, vs: seq<Verdict>)
    ensures Tightens(c, Run(c, vs))
    decreases |vs|
  {
    if vs != [] {
      BoundsTighten(c, vs[..|vs| - 1]);
    }
  }

  /** Once both bounds are known and at most ten apart no probe is ever issued again, whatever is
      observed: the rate is for ever the recovery rate or the best rate seen so far. */
  lemma {:induction false} ClosedGapIsForever(c: Controller, vs: seq<Verdict>)
    requires c.Valid()
    requires c.best.Some? && c.worst.Some? && c.worst.value - c.best.value <= GRANULARITY
    ensures var d := Run(c, vs);
            && d.Valid()
            && (d.mode.Recovering? || d.mode.Settled?)
            && d.Next() == (if d.mode.Recovering? then d.limits.RecoveryRps() else d.best.value)
    decreases |vs|
  {
    RunKeepsValid(c, vs);
    BoundsTighten(c, vs);
  }

  // ---- Backing off

  /** A step ends in recovery exactly when its observation failed or was the answer to a probe. */
  lemma RecoveryFollowsFailureOrProbe(c: Controller, v: Verdict)
    requires c.Valid()
    ensures c.Step(v).mode.Recovering? <==> v.failed || c.mode.Probing?
  {
  }

  /** After a failing observation the rate is at most one request per second, and it stays there
      until an observation passes. */
  lemma {:induction false} BackOffUntilPass(c: Controller, vs: seq<Verdict>)
    requires c.Valid() && vs != []
    requires forall i :: 0 <= i < |vs| ==> vs[i].failed
    ensures var d := Run(c, vs);
            && d.Valid() && d.mode == Recovering && d.Next() == c.limits.RecoveryRps() <= 1
    decreases |vs|
  {
    RunKeepsValid(c, vs);
    RunKeepsValid(c, vs[..|vs| - 1]);
    RecoveryFollowsFailureOrProbe(Run(c, vs[..|vs| - 1]), vs[|vs| - 1]);
  }

  // ---- Enclosing a capacity

  /** The bounds enclose the capacity. */
  ghost predicate Encloses(c: Controller, capacity: int) {
    && (c.best.Some? ==> c.best.value <= capacity)
    && (c.worst.Some? ==> capacity < c.worst.value)
  }

  /** A pass above the capacity, or a failure at or below it that counts. */
  ghost predicate Misleads(limits: Limits, vs: seq<Verdict>, i: nat, capacity: int)
    requires i < |vs|
  {
    if vs[i].failed then Counted(limits, vs, i) && limits.Clamp(vs[i].rps) <= capacity
    else limits.Clamp(vs[i].rps) > capacity
  }

  /** Over any run, the bounds enclose the capacity exactly when no observation misled. */
  lemma EnclosesIffNothingMisleads(limits: Limits, vs: seq<Verdict>, capacity: int)
    requires limits.Valid()
    ensures Encloses(Run(Fresh(limits), vs), capacity) <==> forall i :: 0 <= i < |vs| ==> !Misleads(limits, vs, i, capacity)
  {
    BoundsAreExtremes(limits, vs);
    hide Run, Limits.Clamp, Counted;
    var c := Run(Fresh(limits), vs);
    if forall i :: 0 <= i < |vs| ==> !Misleads(limits, vs, i, capacity) {
      if c.best.Some? {
        var i :| 0 <= i < |vs| && !vs[i].failed && limits.Clamp(vs[i].rps) == c.best.value;
        assert !Misleads(limits, vs, i, capacity);
      }
      if c.worst.Some? {
        var j :| 0 <= j < |vs| && Counted(limits, vs, j) && limits.Clamp(vs[j].rps) == c.worst.value;
        CountedFailed(limits, vs, j);
        assert !Misleads(limits, vs, j, capacity);
      }
    }
  }

  lemma CountedFailed(limits: Limits, vs: seq<Verdict>, i: nat)
    requires i < |vs| && Counted(limits, vs, i)
    ensures vs[i].failed
  {
  }

  /** Each observation fails exactly when its rate exceeds the target's capacity. */
  ghost predicate Truthful(vs: seq<Verdict>, maxRps: nat, capacity: int) {
    forall i :: 0 <= i < |vs| ==> 0 <= vs[i].rps <= maxRps && (vs[i].failed <==> vs[i].rps > capacity)
  }

  /** For truthful observations in any order, with any delay or duplication, the bounds enclose the
      capacity; and whenever the controller has settled, it has settled within nine of it. */
  lemma SettlesWithinGranularity(limits: Limits, vs: seq<Verdict>, capacity: int)
    requires limits.Valid() && Truthful(vs, limits.maxRps, capacity)
    ensures var c := Run(Fresh(limits), vs);
            && c.Valid() && Encloses(c, capacity)
            && (c.mode.Settled? ==> c.Next() <= capacity <= c.Next() + GRANULARITY - 1)
  {
    EnclosesIffNothingMisleads(limits, vs, capacity);
    ReachableRates(limits, vs);
    hide Run, Controller.Valid, Counted;
  }

  // ---- Late observations lead the ramp and the search astray

  /** The ramp climbs from the rate observed, not from the rate it has reached: a pass at rate r takes it to at
      most twice r (or the minimum rate, or one), and one at rate zero to its start.  So a pass sets the ramp back
      exactly when it is below the maximum and both its double and the ramp's start are below the rate reached. */
  lemma LatePassSetsRampBack(c: Controller, v: Verdict)
    requires c.Valid() && c.mode.Ramping? && !v.failed
    ensures var d := c.Step(v);
            var start := if c.limits.minRps > 1 then c.limits.minRps else 1;
            && d.Valid() && d.mode.Ramping?
            && d.Next() <= (if 2 * v.rps > start then 2 * v.rps else start)
            && (v.rps <= 0 ==> d.Next() == c.limits.Clamp(start))
            && (d.Next() < c.Next() <==>
                  && v.rps < c.limits.maxRps
                  && 2 * v.rps < c.Next() && c.limits.minRps < c.Next()
                  && (v.rps <= 0 ==> 1 < c.Next()))
  {
  }

  /** A failing observation for rate zero, counted once, ends the search for good: no probe is ever issued
      afterwards, and the controller never learns more than the rates it happens to have passed. */
  lemma {:induction false} FailureAtZeroEndsTheSearch(c: Controller, v: Verdict, vs: seq<Verdict>)
    requires c.Valid() && !c.mode.Recovering?
    requires v.failed && v.rps <= 0
    ensures var d := Run(c.Step(v), vs);
            && d.Valid() && d.worst == Some(0) && !d.mode.Probing? && !d.mode.Ramping?
  {
    StepKeepsValid(c, v);
    RunKeepsValid(c.Step(v), vs);
    BoundsTighten(c.Step(v), vs);
  }

  // ---- Answers that teach nothing

  /** Whether a probe is awaited again after observations that have moved no bound since one was awaited:
      whatever answers the probe leads to recovery, and a pass leads back. */
  predicate ProbeAwaited(vs: seq<Verdict>)
    decreases |vs|
  {
    vs == [] || (!vs[|vs| - 1].failed && !ProbeAwaited(vs[..|vs| - 1]))
  }

  /** An observation that moves no bound: a pass at or below the best rate, a failure at or above the worst, or any
      failure during recovery. */
  predicate TeachesNothing(c: Controller, vs: seq<Verdict>, i: nat)
    requires c.best.Some? && c.worst.Some? && i < |vs|
  {
    if !vs[i].failed then c.limits.Clamp(vs[i].rps) <= c.best.value
    else ProbeAwaited(vs[..i]) ==> c.limits.Clamp(vs[i].rps) >= c.worst.value
  }

  ghost predicate NothingTaught(c: Controller, vs: seq<Verdict>)
    requires c.best.Some? && c.worst.Some?
  {
    forall i :: 0 <= i < |vs| ==> TeachesNothing(c, vs, i)
  }

  /** While a probe is awaited, any number of observations leave both bounds as they were exactly when each of them
      teaches nothing; and they bring back the very same probe, to be asked for again, exactly when besides a pass during
      recovery comes last (or there are none).  So the answer to a probe need not settle it, not even its own failure, when
      that is read during recovery. */
  lemma {:induction false} ProbeComesBackIff(c: Controller, vs: seq<Verdict>)
    requires c.Valid() && c.mode.Probing?
    ensures var d := Run(c, vs);
            && (d.best == c.best && d.worst == c.worst <==> NothingTaught(c, vs))
            && (d == c <==> NothingTaught(c, vs) && ProbeAwaited(vs))
            && (NothingTaught(c, vs) && !ProbeAwaited(vs) ==> d == c.(mode := Recovering))
    decreases |vs|
  {
    hide Controller.Step, TeachesNothing, ProbeRate;
    if vs != [] {
      var n := |vs| - 1;
      ProbeComesBackIff(c, vs[..n]);
      BoundsTighten(c, vs[..n]);
      StepTightens(Run(c, vs[..n]), vs[n]);
      NothingTaughtGrows(c, vs);
      if NothingTaught(c, vs[..n]) {
        AnswerMovesNothingIff(c, vs);
      }
    }
  }

  lemma StepTightens(c: Controller, v: Verdict)
    ensures Tightens(c, c.Step(v))
  {
  }

  lemma NothingTaughtGrows(c: Controller, vs: seq<Verdict>)
    requires c.best.Some? && c.worst.Some? && vs != []
    ensures var n := |vs| - 1; NothingTaught(c, vs) <==> NothingTaught(c, vs[..n]) && TeachesNothing(c, vs, n)
  {
    hide ProbeAwaited;
    var n := |vs| - 1;
    forall i | 0 <= i < n
      ensures TeachesNothing(c, vs, i) == TeachesNothing(c, vs[..n], i)
    {
      assert vs[..n][..i] == vs[..i];
    }
  }

  /** One more observation after some that moved no bound. */
  lemma AnswerMovesNothingIff(c: Controller, vs: seq<Verdict>)
    requires c.Valid() && c.mode.Probing? && vs != []
    ensures var n := |vs| - 1;
            var b := if ProbeAwaited(vs[..n]) then c else c.(mode := Recovering);
            var d := b.Step(vs[n]);
            && (d.best == c.best && d.worst == c.worst <==> TeachesNothing(c, vs, n))
            && (TeachesNothing(c, vs, n) ==> d == if ProbeAwaited(vs) then c else c.(mode := Recovering))
  {
  }
}
