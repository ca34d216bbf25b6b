/** The relay engine in closed loop with any of the plants: it keeps oscillating. */
module RelayLiveness {
  import opened RealMath
  import opened Plant
  import opened Autotune
  import opened RelayHistory
  import opened Settlement

  datatype RelayRig = RelayRig(engine: EngineState, x: real)

  /** Measure, tick the engine, run the plant on the relay's output. */
  function RigTick(rig: RelayRig, dt: real, m: PlantModel): RelayRig
    requires m.Runnable()
  {
    var e := Ticked(rig.engine, rig.x, dt).0;
    RelayRig(e, StepPlant(m, rig.x, e.CurrentCv(), dt))
  }

  function RigRun(rig: RelayRig, dts: seq<real>, m: PlantModel): RelayRig
    requires m.Runnable()
    decreases dts
  {
    if dts == [] then rig else RigRun(RigTick(rig, dts[0], m), dts[1..], m)
  }

  /** What the engine sees. */
  function Trace(rig: RelayRig, dts: seq<real>, m: PlantModel): seq<Sample>
    requires m.Runnable()
    decreases dts
  {
    if dts == [] then [] else [Sample(rig.x, dts[0])] + Trace(RigTick(rig, dts[0], m), dts[1..], m)
  }

  function HighTarget(c: AutotuneConfig, m: PlantModel): real
    requires m.Runnable()
  {
    m.SettlesAt(c.bias + c.amp)
  }

  function LowTarget(c: AutotuneConfig, m: PlantModel): real
    requires m.Runnable()
  {
    m.SettlesAt(c.bias - c.amp)
  }

  ghost predicate TicksBetween(dts: seq<real>, shortest: real, tau: real) {
    forall i :: 0 <= i < |dts| ==> shortest <= dts[i] <= tau
  }

  /** The engine's reference is fixed and the plant lies, and will settle, between `lo` and `hi`. */
  predicate Boxed(rig: RelayRig, c: AutotuneConfig, m: PlantModel, pvRef: real, lo: real, hi: real)
    requires m.Runnable()
  {
    && rig.engine.config == c && rig.engine.pvRef == Some(pvRef)
    && lo <= rig.x <= hi
    && lo <= HighTarget(c, m) <= hi && lo <= LowTarget(c, m) <= hi
  }

  lemma BoxedStep(rig: RelayRig, dt: real, c: AutotuneConfig, m: PlantModel, pvRef: real, lo: real, hi: real)
    requires m.Runnable() && 0.0 < dt <= m.Tau() && Boxed(rig, c, m, pvRef, lo, hi)
    ensures Boxed(RigTick(rig, dt, m), c, m, pvRef, lo, hi)
    ensures |RigTick(rig, dt, m).engine.halfPeriods| >= |rig.engine.halfPeriods|
  {
    TickShape(rig.engine, rig.x, dt);
    hide Ticked, PlantModel.SettlesAt, PlantModel.Tau, StepPlant, Extended, Crosses;
    var e := Ticked(rig.engine, rig.x, dt).0;
    PlantStaysWithin(m, rig.x, e.CurrentCv(), dt, lo, hi);
  }

  lemma {:induction false} BoxedRun(rig: RelayRig, dts: seq<real>, c: AutotuneConfig, m: PlantModel,
                                    pvRef: real, lo: real, hi: real, shortest: real)
    requires m.Runnable() && 0.0 < shortest && TicksBetween(dts, shortest, m.Tau()) && Boxed(rig, c, m, pvRef, lo, hi)
    ensures Boxed(RigRun(rig, dts, m), c, m, pvRef, lo, hi)
    ensures |RigRun(rig, dts, m).engine.halfPeriods| >= |rig.engine.halfPeriods|
    decreases dts
  {
    hide Boxed, RigTick;
    if dts != [] {
      BoxedStep(rig, dts[0], c, m, pvRef, lo, hi);
      BoxedRun(RigTick(rig, dts[0], m), dts[1..], c, m, pvRef, lo, hi, shortest);
    }
  }

  // ---------- progress within a phase ----------

  /** The least a plant moves per tick towards a target that lies `distance` beyond the reference. */
  function Stride(distance: real, shortest: real, tau: real): real
    requires tau > 0.0
  {
    (shortest / tau) * distance
  }

  lemma StridePositive(distance: real, shortest: real, tau: real)
    requires distance > 0.0 && 0.0 < shortest <= tau
    ensures Stride(distance, shortest, tau) > 0.0
  {
    DivBetween(shortest, tau);
    MulPositive(shortest / tau, distance);
  }

  lemma LagMoves(x: real, target: real, dt: real, tau: real, distance: real, shortest: real)
    requires 0.0 < shortest <= dt <= tau && distance >= 0.0
    ensures target - x >= distance ==> LagStep(x, target, dt, tau) >= x + Stride(distance, shortest, tau)
    ensures x - target >= distance ==> LagStep(x, target, dt, tau) <= x - Stride(distance, shortest, tau)
  {
    DivBetween(shortest, tau);
    DivBetween(dt, tau);
    LagIsRelaxation(x, target, dt, tau);
    var r, q, d := dt / tau, shortest / tau, target - x;
    DivOrder(shortest, dt, tau);
    if d >= distance {
      MulNonNegative(r - q, d);
      MulNonNegative(q, d - distance);
    } else if -d >= distance {
      MulNonNegative(r - q, -d);
      MulNonNegative(q, -d - distance);
    }
  }

  /** How far the plant still is from flipping the relay. */
  function ToGo(rig: RelayRig, pvRef: real): real {
    if rig.engine.relay == High then pvRef - rig.x else rig.x - pvRef
  }

  /** The distance of the phase's target beyond the reference. */
  function Beyond(relay: RelayPos, c: AutotuneConfig, m: PlantModel, pvRef: real): real
    requires m.Runnable()
  {
    if relay == High then HighTarget(c, m) - pvRef else pvRef - LowTarget(c, m)
  }

  /** One tick either ends the phase or brings the plant closer by a full stride. */
  lemma PhaseProgress(rig: RelayRig, dt: real, c: AutotuneConfig, m: PlantModel, pvRef: real, shortest: real)
    requires m.Runnable() && 0.0 < shortest <= dt <= m.Tau()
    requires rig.engine.config == c && rig.engine.pvRef == Some(pvRef)
    requires Beyond(rig.engine.relay, c, m, pvRef) >= 0.0
    ensures var next := RigTick(rig, dt, m);
            if ToGo(rig, pvRef) < 0.0 then |next.engine.halfPeriods| == |rig.engine.halfPeriods| + 1
            else next.engine.halfPeriods == rig.engine.halfPeriods && next.engine.relay == rig.engine.relay
                 && ToGo(next, pvRef)
                    <= ToGo(rig, pvRef) - Stride(Beyond(rig.engine.relay, c, m, pvRef), shortest, m.Tau())
  {
    TickShape(rig.engine, rig.x, dt);
    var e := Ticked(rig.engine, rig.x, dt).0;
    StepIsLag(m, rig.x, e.CurrentCv(), dt);
    hide Ticked, PlantModel.SettlesAt, PlantModel.Tau, StepPlant, LagStep, Extended, Stride;
    LagMoves(rig.x, m.SettlesAt(e.CurrentCv()), dt, m.Tau(), Beyond(rig.engine.relay, c, m, pvRef), shortest);
  }

  lemma MoreThanOne(n: nat, stride: real, distance: real)
    requires n > 0 && 0.0 <= distance < (n - 1) as real * stride
    ensures n > 1
  {
  }

  /** A phase ends as soon as the strides cover the distance to go. */
  lemma {:induction false} PhaseEnds(rig: RelayRig, dts: seq<real>, c: AutotuneConfig, m: PlantModel,
                                     pvRef: real, lo: real, hi: real, shortest: real, stride: real)
    requires m.Runnable() && 0.0 < shortest && TicksBetween(dts, shortest, m.Tau()) && Boxed(rig, c, m, pvRef, lo, hi)
    requires Beyond(rig.engine.relay, c, m, pvRef) >= 0.0
    requires 0.0 <= stride <= Stride(Beyond(rig.engine.relay, c, m, pvRef), shortest, m.Tau())
    requires dts != [] && ToGo(rig, pvRef) < (|dts| - 1) as real * stride
    ensures |RigRun(rig, dts, m).engine.halfPeriods| > |rig.engine.halfPeriods|
    decreases dts
  {
    hide RigTick, ToGo, Stride, Beyond;
    var next := RigTick(rig, dts[0], m);
    PhaseProgress(rig, dts[0], c, m, pvRef, shortest);
    BoxedStep(rig, dts[0], c, m, pvRef, lo, hi);
    if ToGo(rig, pvRef) < 0.0 {
      BoxedRun(next, dts[1..], c, m, pvRef, lo, hi, shortest);
    } else {
      MoreThanOne(|dts|, stride, ToGo(rig, pvRef));
      assert (|dts| - 1) as real * stride == (|dts[1..]| - 1) as real * stride + stride;
      PhaseEnds(next, dts[1..], c, m, pvRef, lo, hi, shortest, stride);
    }
  }

  // ---------- liveness ----------

  /** The plant's two targets lie on either side of the reference. */
  predicate Straddles(c: AutotuneConfig, m: PlantModel, pvRef: real)
    requires m.Runnable()
  {
    LowTarget(c, m) < pvRef < HighTarget(c, m)
  }

  /** A number of ticks in which every phase ends. */
  function PhaseTicks(c: AutotuneConfig, m: PlantModel, pvRef: real, lo: real, hi: real, shortest: real): (n: nat)
    requires m.Runnable() && Straddles(c, m, pvRef) && 0.0 < shortest <= m.Tau() && lo <= pvRef <= hi
    ensures n > 0
  {
    StridePositive(HighTarget(c, m) - pvRef, shortest, m.Tau());
    StridePositive(pvRef - LowTarget(c, m), shortest, m.Tau());
    var up := TicksFor(pvRef - lo, Stride(HighTarget(c, m) - pvRef, shortest, m.Tau()));
    var down := TicksFor(hi - pvRef, Stride(pvRef - LowTarget(c, m), shortest, m.Tau()));
    if up >= down then up else down
  }

  function TicksFor(distance: real, stride: real): (n: nat)
    requires distance >= 0.0 && stride > 0.0
    ensures n >= 2 && distance < (n - 1) as real * stride
  {
    DivNonNegative(distance, stride);
    var q := distance / stride;
    MulPositive((q.Floor + 1) as real - q, stride);
    q.Floor + 2
  }

  lemma MoreTicksSuffice(distance: real, stride: real, n: nat, m: nat)
    requires stride > 0.0 && 0 < n <= m && distance < (n - 1) as real * stride
    ensures distance < (m - 1) as real * stride
  {
    MulNonNegative((m - n) as real, stride);
  }

  /** From any state of the oscillation, `PhaseTicks` ticks end at least one phase. */
  lemma SomePhaseEnds(rig: RelayRig, dts: seq<real>, c: AutotuneConfig, m: PlantModel,
                      pvRef: real, lo: real, hi: real, shortest: real)
    requires m.Runnable() && Straddles(c, m, pvRef) && 0.0 < shortest <= m.Tau() && lo <= pvRef <= hi
    requires TicksBetween(dts, shortest, m.Tau()) && Boxed(rig, c, m, pvRef, lo, hi)
    requires |dts| >= PhaseTicks(c, m, pvRef, lo, hi, shortest)
    ensures |RigRun(rig, dts, m).engine.halfPeriods| > |rig.engine.halfPeriods|
  {
    hide Stride, LowTarget, HighTarget, RigRun, RigTick, TicksFor;
    var stride := Stride(Beyond(rig.engine.relay, c, m, pvRef), shortest, m.Tau());
    var furthest := if rig.engine.relay == High then pvRef - lo else hi - pvRef;
    PhaseTicksCover(rig.engine.relay, c, m, pvRef, lo, hi, shortest, |dts|);
    PhaseEnds(rig, dts, c, m, pvRef, lo, hi, shortest, stride);
  }

  lemma PhaseTicksCover(relay: RelayPos, c: AutotuneConfig, m: PlantModel, pvRef: real, lo: real, hi: real,
                        shortest: real, n: nat)
    requires m.Runnable() && Straddles(c, m, pvRef) && 0.0 < shortest <= m.Tau() && lo <= pvRef <= hi
    requires n >= PhaseTicks(c, m, pvRef, lo, hi, shortest)
    ensures var stride := Stride(Beyond(relay, c, m, pvRef), shortest, m.Tau());
            stride > 0.0 && (if relay == High then pvRef - lo else hi - pvRef) < (n - 1) as real * stride
  {
    hide Stride, LowTarget, HighTarget, TicksFor;
    StridePositive(Beyond(relay, c, m, pvRef), shortest, m.Tau());
    var stride := Stride(Beyond(relay, c, m, pvRef), shortest, m.Tau());
    var furthest := if relay == High then pvRef - lo else hi - pvRef;
    MoreTicksSuffice(furthest, stride, TicksFor(furthest, stride), n);
  }

  lemma {:induction false} RunConcat(rig: RelayRig, a: seq<real>, b: seq<real>, m: PlantModel)
    requires m.Runnable()
    ensures RigRun(rig, a + b, m) == RigRun(RigRun(rig, a, m), b, m)
    decreases a
  {
    hide RigTick;
    if a == [] {
      assert a + b == b;
    } else {
      assert (a + b)[1..] == a[1..] + b;
      RunConcat(RigTick(rig, a[0], m), a[1..], b, m);
    }
  }

  /** The relay never latches: `k * PhaseTicks` ticks complete at least `k` more phases, whatever the
      tick lengths between `shortest` and `tau`. */
  lemma {:induction false} RelayKeepsFlipping(rig: RelayRig, dts: seq<real>, c: AutotuneConfig, m: PlantModel,
                                              pvRef: real, lo: real, hi: real, shortest: real, k: nat)
    requires m.Runnable() && Straddles(c, m, pvRef) && 0.0 < shortest <= m.Tau() && lo <= pvRef <= hi
    requires TicksBetween(dts, shortest, m.Tau()) && Boxed(rig, c, m, pvRef, lo, hi)
    requires |dts| >= k * PhaseTicks(c, m, pvRef, lo, hi, shortest)
    ensures |RigRun(rig, dts, m).engine.halfPeriods| >= |rig.engine.halfPeriods| + k
    decreases k
  {
    hide RigTick, Boxed, Straddles, PhaseTicks;
    BoxedRun(rig, dts, c, m, pvRef, lo, hi, shortest);
    if k > 0 {
      var n := PhaseTicks(c, m, pvRef, lo, hi, shortest);
      assert k * n == (k - 1) * n + n;
      SplitTicks(|dts|, k, n);
      var a, b := dts[..n], dts[n..];
      assert dts == a + b;
      RunConcat(rig, a, b, m);
      BoxedRun(rig, a, c, m, pvRef, lo, hi, shortest);
      SomePhaseEnds(rig, a, c, m, pvRef, lo, hi, shortest);
      RelayKeepsFlipping(RigRun(rig, a, m), b, c, m, pvRef, lo, hi, shortest, k - 1);
    }
  }

  lemma SplitTicks(total: nat, k: nat, n: nat)
    requires k > 0 && total >= k * n
    ensures total >= n && total - n >= (k - 1) * n
  {
    assert k * n == (k - 1) * n + n;
  }

  // ---------- the engine's own history in closed loop ----------

  lemma {:induction false} RunFront(s: EngineState, x: Sample, rest: seq<Sample>)
    ensures Run(s, [x] + rest) == Run(Ticked(s, x.pv, x.dt).0, rest)
  {
    hide Ticked;
    if rest == [] {
      assert ([x] + rest)[..0] == [];
    } else {
      assert ([x] + rest)[..|rest|] == [x] + rest[..|rest| - 1];
      RunFront(s, x, rest[..|rest| - 1]);
    }
  }

  lemma {:induction false} TraceRun(rig: RelayRig, dts: seq<real>, m: PlantModel)
    requires m.Runnable()
    ensures RigRun(rig, dts, m).engine == Run(rig.engine, Trace(rig, dts, m))
    ensures |Trace(rig, dts, m)| == |dts|
    ensures forall i :: 0 <= i < |dts| ==> Trace(rig, dts, m)[i].dt == dts[i]
    decreases dts
  {
    hide Ticked, StepPlant;
    if dts != [] {
      var next := RigTick(rig, dts[0], m);
      TraceRun(next, dts[1..], m);
      RunFront(rig.engine, Sample(rig.x, dts[0]), Trace(next, dts[1..], m));
    }
  }

  /** Autotuning succeeds: against any plant whose targets straddle the reference, any number
      of cycles is complete after `2 * PhaseTicks` ticks each, and from two cycles on there is a result
      with positive ultimate gain and period. */
  lemma AutotuneSucceeds(rig: RelayRig, dts: seq<real>, c: AutotuneConfig, m: PlantModel,
                         pvRef: real, lo: real, hi: real, shortest: real, cycles: nat, rule: TuningRule)
    requires m.Runnable() && Straddles(c, m, pvRef) && 0.0 < shortest <= m.Tau() && lo <= pvRef <= hi && c.amp > 0.0
    requires TicksBetween(dts, shortest, m.Tau()) && Boxed(rig, c, m, pvRef, lo, hi) && Untouched(rig.engine)
    requires cycles >= 2 && |dts| >= 2 * cycles * PhaseTicks(c, m, pvRef, lo, hi, shortest)
    ensures var e := RigRun(rig, dts, m).engine;
            && e.Cycles() >= cycles
            && BestEstimates(e).Some? && BestEstimates(e).value.1 > 0.0
            && var r := ResultOf(e, rule); r.Some? && r.value.ku > 0.0 && r.value.tu > 0.0
  {
    hide RigRun, PhaseTicks, Straddles, Trace, BestEstimates, ResultOf, EngineState.Cycles;
    RelayKeepsFlipping(rig, dts, c, m, pvRef, lo, hi, shortest, 2 * cycles);
    TraceRun(rig, dts, m);
    ResultAfter(rig.engine, Trace(rig, dts, m), cycles, rule);
  }

  lemma ResultAfter(s: EngineState, ins: seq<Sample>, cycles: nat, rule: TuningRule)
    requires Untouched(s) && s.pvRef.Some? && s.config.amp > 0.0 && PositiveTime(ins)
    requires cycles >= 2 && |Run(s, ins).halfPeriods| >= 2 * cycles
    ensures var e := Run(s, ins);
            && e.Cycles() >= cycles
            && BestEstimates(e).Some? && BestEstimates(e).value.1 > 0.0
            && var r := ResultOf(e, rule); r.Some? && r.value.ku > 0.0 && r.value.tu > 0.0
  {
    hide Run, BestEstimates, TuningRule.Gains, Histories;
    RunHistories(s, ins);
    CyclesCountHalfPeriods(Run(s, ins), Reference(s, ins), ins);
    ResultIff(s, ins, rule);
  }

  /** Straddling is needed: if the phase's target does not lie beyond the reference, a phase that has
      not ended yet never ends. */
  lemma {:induction false} RelayLatches(rig: RelayRig, dts: seq<real>, c: AutotuneConfig, m: PlantModel,
                                        pvRef: real, shortest: real)
    requires m.Runnable() && 0.0 < shortest && TicksBetween(dts, shortest, m.Tau())
    requires rig.engine.config == c && rig.engine.pvRef == Some(pvRef)
    requires Beyond(rig.engine.relay, c, m, pvRef) <= 0.0 && ToGo(rig, pvRef) >= 0.0
    ensures RigRun(rig, dts, m).engine.halfPeriods == rig.engine.halfPeriods
    decreases dts
  {
    hide RigTick, Beyond, ToGo;
    if dts != [] {
      LatchedTick(rig, dts[0], c, m, pvRef);
      RelayLatches(RigTick(rig, dts[0], m), dts[1..], c, m, pvRef, shortest);
    }
  }

  lemma LatchedTick(rig: RelayRig, dt: real, c: AutotuneConfig, m: PlantModel, pvRef: real)
    requires m.Runnable() && 0.0 < dt <= m.Tau()
    requires rig.engine.config == c && rig.engine.pvRef == Some(pvRef)
    requires Beyond(rig.engine.relay, c, m, pvRef) <= 0.0 && ToGo(rig, pvRef) >= 0.0
    ensures var next := RigTick(rig, dt, m);
            && next.engine.halfPeriods == rig.engine.halfPeriods && next.engine.relay == rig.engine.relay
            && next.engine.config == c && next.engine.pvRef == Some(pvRef) && ToGo(next, pvRef) >= 0.0
  {
    TickShape(rig.engine, rig.x, dt);
    var e := Ticked(rig.engine, rig.x, dt).0;
    hide Ticked, PlantModel.SettlesAt, PlantModel.Tau, StepPlant, Extended;
    var target := m.SettlesAt(e.CurrentCv());
    if rig.engine.relay == High {
      PlantStaysWithin(m, rig.x, e.CurrentCv(), dt, Min(rig.x, target), pvRef);
    } else {
      PlantStaysWithin(m, rig.x, e.CurrentCv(), dt, pvRef, Max(rig.x, target));
    }
  }
}
