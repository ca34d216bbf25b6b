/** The controller session in closed loop with the simulated plants. */
module ClosedLoop {
  import opened RealMath
  import opened PidCore
  import opened Session
  import opened SessionRuns
  import opened Plant

  datatype Rig = Rig(session: SessionState, x: real)

  /** A tick measures the plant's own state, whatever `pv` the event carries. */
  function Fed(e: Event, x: real): Event {
    if e.Tick? then e.(pv := x) else e
  }

  predicate RigDefined(rig: Rig, e: Event, m: PlantModel) {
    m.Runnable() && Defined(rig.session, Fed(e, rig.x))
  }

  /** The session handles the event; during a tick the plant then runs on the CV that is applied,
      which after a rejected write is still the previous one. */
  function RigExec(rig: Rig, e: Event, m: PlantModel): Rig
    requires RigDefined(rig, e, m)
  {
    var s := Exec(rig.session, Fed(e, rig.x));
    Rig(s, if e.Tick? then StepPlant(m, rig.x, Applied(s), e.dt) else rig.x)
  }

  predicate RigRunDefined(rig: Rig, es: seq<Event>, m: PlantModel)
    decreases es
  {
    es == [] || (RigDefined(rig, es[0], m) && RigRunDefined(RigExec(rig, es[0], m), es[1..], m))
  }

  function RigFinal(rig: Rig, es: seq<Event>, m: PlantModel): Rig
    requires RigRunDefined(rig, es, m)
    decreases es
  {
    if es == [] then rig else RigFinal(RigExec(rig, es[0], m), es[1..], m)
  }

  ghost predicate TicksWithin(es: seq<Event>, tau: real) {
    forall i :: 0 <= i < |es| && es[i].Tick? ==> 0.0 < es[i].dt <= tau
  }

  // ---------- bounded under any tuning ----------

  predicate Within(v: Option<real>, lo: real, hi: real) {
    v.Some? ==> lo <= v.value <= hi
  }

  /** The applied CV is inside `l` - the output limits, or none - and the plant and both copies of the
      filtered measurement are inside their bounds. */
  predicate Bounded(rig: Rig, l: Limits, lo: real, hi: real) {
    && ValidConfig(rig.session.ctrl.config)
    && (l == rig.session.ctrl.config.limits || l == Limits(None, None))
    && l.Contains(Applied(rig.session))
    && lo <= rig.x <= hi
    && Within(rig.session.ctrl.runtime.lastPv, lo, hi)
    && Within(rig.session.snap.lastPv, lo, hi)
  }

  lemma FilterStaysWithin(s: PidState, pv: real, lo: real, hi: real)
    requires ValidConfig(s.config) && lo <= pv <= hi && Within(s.runtime.lastPv, lo, hi)
    ensures lo <= FilteredPv(s, pv) <= hi
  {
    if s.runtime.lastPv.Some? {
      Towards(s.config.pvFilterAlpha, pv, s.runtime.lastPv.value, lo, hi);
    }
  }

  lemma StepLastPv(s: PidState, input: StepInput)
    requires StepDefined(s, input)
    ensures PidStep(s, input).0.runtime.lastPv == Some(FilteredPv(s, input.pv))
  {
  }

  /** One event keeps the bounds. */
  lemma BoundedStep(rig: Rig, e: Event, m: PlantModel, l: Limits, lo: real, hi: real)
    requires RigDefined(rig, e, m) && Bounded(rig, l, lo, hi) && Covers(m, l, lo, hi)
    requires e.Tick? ==> 0.0 < e.dt <= m.Tau()
    requires e.SafeCv? ==> l.Contains(e.cv)
    ensures Bounded(RigExec(rig, e, m), l, lo, hi)
  {
    hide TermsOf, ApplyAntiWindup, ApplySlewRate, FilteredPv, Travel, StepPlant, PlantModel.SettlesAt, PlantModel.Tau;
    var fed := Fed(e, rig.x);
    ExecKeepsOptions(rig.session, fed);
    if e.Tick? {
      var input := InputOf(rig.session, rig.x, e.dt, e.ff);
      StepMovesCv(rig.session.ctrl, input);
      StepLastPv(rig.session.ctrl, input);
      FilterStaysWithin(rig.session.ctrl, rig.x, lo, hi);
      PlantStaysWithin(m, rig.x, Applied(Exec(rig.session, fed)), e.dt, lo, hi);
    }
  }

  /** Whatever the gains, the anti-windup strategy, the slew limit, the filter, the setpoint changes,
      the failed writes and the restarts: the measurement and its filtered value never leave bounds that
      hold their start and every place where the plant settles under an allowed command. */
  lemma {:induction false} BoundedPlant(rig: Rig, es: seq<Event>, m: PlantModel, l: Limits, lo: real, hi: real)
    requires RigRunDefined(rig, es, m) && Bounded(rig, l, lo, hi) && Covers(m, l, lo, hi)
    requires TicksWithin(es, m.Tau()) && SafeCvsWithin(l, es)
    ensures Bounded(RigFinal(rig, es, m), l, lo, hi)
    decreases es
  {
    hide Bounded, Covers, RigExec, RigDefined, PlantModel.Tau;
    if es != [] {
      BoundedStep(rig, es[0], m, l, lo, hi);
      BoundedPlant(RigExec(rig, es[0], m), es[1..], m, l, lo, hi);
    }
  }

  /** The hull of the start and of `gain * umin`, `gain * umax` for the first-order plant. */
  lemma FirstOrderBounded(
      rig: Rig, es: seq<Event>, p: FirstOrderParams, umin: real, umax: real, lo: real, hi: real)
    requires RigRunDefined(rig, es, FirstOrder(p)) && Bounded(rig, Limits(Some(umin), Some(umax)), lo, hi)
    requires lo <= p.gain * umin <= hi && lo <= p.gain * umax <= hi
    requires TicksWithin(es, p.tau) && SafeCvsWithin(Limits(Some(umin), Some(umax)), es)
    requires p.Valid()
    ensures lo <= RigFinal(rig, es, FirstOrder(p)).x <= hi
  {
    hide Covers;
    FirstOrderCovers(p, umin, umax, lo, hi);
    BoundedPlant(rig, es, FirstOrder(p), Limits(Some(umin), Some(umax)), lo, hi);
  }

  /** The same hull around ambient for the thermal plant. */
  lemma ThermalBounded(rig: Rig, es: seq<Event>, p: ThermalParams, umin: real, umax: real, lo: real, hi: real)
    requires RigRunDefined(rig, es, Thermal(p)) && Bounded(rig, Limits(Some(umin), Some(umax)), lo, hi)
    requires lo <= p.Target(umin) <= hi && lo <= p.Target(umax) <= hi
    requires TicksWithin(es, p.tau) && SafeCvsWithin(Limits(Some(umin), Some(umax)), es)
    requires p.Valid()
    ensures lo <= RigFinal(rig, es, Thermal(p)).x <= hi
  {
    hide Covers;
    ThermalCovers(p, umin, umax, lo, hi);
    BoundedPlant(rig, es, Thermal(p), Limits(Some(umin), Some(umax)), lo, hi);
  }

  /** The fan's speed never leaves `[0, maxFlow]`, whatever is commanded: neither output limits nor an
      applied CV or a safe CV inside them are needed. */
  lemma FanBounded(rig: Rig, es: seq<Event>, p: FanParams)
    requires RigRunDefined(rig, es, Fan(p)) && Bounded(rig, Limits(None, None), 0.0, p.maxFlow)
    requires p.Valid() && TicksWithin(es, p.tau)
    ensures 0.0 <= RigFinal(rig, es, Fan(p)).x <= p.maxFlow
  {
    hide Covers;
    FanCovers(p, Limits(None, None));
    BoundedPlant(rig, es, Fan(p), Limits(None, None), 0.0, p.maxFlow);
  }

  // ---------- the proportional loop ----------

  /** A plain saturated proportional controller. */
  predicate Proportional(c: PidConfig) {
    && ValidConfig(c) && c.kp >= 0.0 && c.ki == 0.0 && c.kd == 0.0 && c.deadband == 0.0 && c.pvFilterAlpha == 0.0
    && c.setpointRamp.None? && c.slewRate.None?
  }

  /** Proportional and feed-forward term together. */
  function Proposal(c: PidConfig, x: real, ff: real): real {
    c.kp * (c.setpoint - x) + c.feedforwardGain * ff
  }

  function Command(c: PidConfig, x: real, ff: real): real
    requires c.limits.Ordered()
  {
    c.limits.Clamp(Proposal(c, x, ff))
  }

  lemma ProportionalCv(s: PidState, input: StepInput)
    requires Proportional(s.config) && StepDefined(s, input)
    ensures PidStep(s, input).1.cv == Command(s.config, input.pv, input.ff)
  {
  }

  lemma ClampSlope(l: Limits, v: real, w: real)
    requires l.Ordered() && v >= w
    ensures 0.0 <= l.Clamp(v) - l.Clamp(w) <= v - w
  {
  }

  lemma ProposalSlope(c: PidConfig, x: real, y: real, ff: real)
    ensures Proposal(c, x, ff) - Proposal(c, y, ff) == c.kp * (y - x)
  {
  }

  /** The command falls with the measurement, by at most `kp` times as much. */
  lemma CommandSlope(c: PidConfig, x: real, y: real, ff: real)
    requires c.limits.Ordered() && c.kp >= 0.0 && x <= y
    ensures 0.0 <= Command(c, x, ff) - Command(c, y, ff) <= c.kp * (y - x)
  {
    MulNonNegative(c.kp, y - x);
    ProposalSlope(c, x, y, ff);
    hide Proposal, Limits.Clamp;
    ClampSlope(c.limits, Proposal(c, x, ff), Proposal(c, y, ff));
  }

  /** One Euler step on plain numbers: the target falls by at most `k` times the gap. */
  lemma GapShrinks(x: real, y: real, tx: real, ty: real, r: real, k: real)
    requires x <= y && 0.0 <= tx - ty <= k * (y - x)
    requires 0.0 < r <= 1.0 && r * (1.0 + k) <= 1.0
    ensures 0.0 <= Relaxed(y, ty, r) - Relaxed(x, tx, r) <= (1.0 - r) * (y - x)
  {
    MulNonNegative(r, tx - ty);
    MulNonNegative(r, k * (y - x) - (tx - ty));
    MulNonNegative(1.0 - r * (1.0 + k), y - x);
  }

  lemma TargetSlope(p: FirstOrderParams, u: real, v: real, kp: real, gap: real)
    requires p.gain >= 0.0 && 0.0 <= u - v <= kp * gap
    ensures 0.0 <= p.Target(u) - p.Target(v) <= (p.gain * kp) * gap
  {
    MulNonNegative(p.gain, u - v);
    MulNonNegative(p.gain, kp * gap - (u - v));
  }

  /** What a proportional tick makes of the plant. */
  function LoopMap(c: PidConfig, x: real, dt: real, ff: real, p: FirstOrderParams): real
    requires c.limits.Ordered() && p.Valid()
  {
    StepFirstOrder(x, Command(c, x, ff), dt, p)
  }

  predicate Gentle(c: PidConfig, dt: real, p: FirstOrderParams) {
    p.Valid() && 0.0 < dt && p.gain >= 0.0 && (dt / p.tau) * (1.0 + p.gain * c.kp) <= 1.0
  }

  lemma GentleFraction(c: PidConfig, dt: real, p: FirstOrderParams)
    requires Gentle(c, dt, p) && c.kp >= 0.0
    ensures 0.0 < dt <= p.tau && 0.0 < dt / p.tau <= 1.0
  {
    var r := dt / p.tau;
    assert r * p.tau == dt;
    if r <= 0.0 { MulNonNegative(-r, p.tau); }
    MulNonNegative(p.gain, c.kp);
    MulNonNegative(r, p.gain * c.kp);
    MulNonNegative(1.0 - r, p.tau);
  }

  /** Two plants one Euler step apart, when the command falls by at most `kp` times the gap. */
  lemma StepsContract(x: real, y: real, u: real, v: real, kp: real, dt: real, p: FirstOrderParams)
    requires x <= y && 0.0 <= u - v <= kp * (y - x) && p.gain >= 0.0
    requires 0.0 < dt <= p.tau && (dt / p.tau) * (1.0 + p.gain * kp) <= 1.0
    ensures 0.0 <= StepFirstOrder(y, v, dt, p) - StepFirstOrder(x, u, dt, p) <= (1.0 - dt / p.tau) * (y - x)
  {
    hide FirstOrderParams.Target, StepFirstOrder, Relaxed;
    TargetSlope(p, u, v, kp, y - x);
    FirstOrderIsRelaxation(x, u, dt, p);
    FirstOrderIsRelaxation(y, v, dt, p);
    GapShrinks(x, y, p.Target(u), p.Target(v), dt / p.tau, p.gain * kp);
  }

  lemma LoopMapContracts(c: PidConfig, x: real, y: real, dt: real, ff: real, p: FirstOrderParams)
    requires c.limits.Ordered() && c.kp >= 0.0 && Gentle(c, dt, p) && x <= y
    ensures 0.0 <= LoopMap(c, y, dt, ff, p) - LoopMap(c, x, dt, ff, p) <= (1.0 - dt / p.tau) * (y - x)
  {
    hide Command, StepFirstOrder;
    GentleFraction(c, dt, p);
    CommandSlope(c, x, y, ff);
    StepsContract(x, y, Command(c, x, ff), Command(c, y, ff), c.kp, dt, p);
  }

  /** Ticks with accepted writes and one feed-forward value. */
  ghost predicate LoopTicks(c: PidConfig, es: seq<Event>, ff: real, p: FirstOrderParams) {
    forall i :: 0 <= i < |es| ==> es[i].Tick? && es[i].accepted && es[i].ff == ff && Gentle(c, es[i].dt, p)
  }

  /** The product of `1 - dt / tau` over the run. */
  function Shrink(es: seq<Event>, tau: real): real
    requires tau > 0.0
  {
    if es == [] then 1.0 else Shrink(es[1..], tau) * (if es[0].Tick? then 1.0 - es[0].dt / tau else 1.0)
  }

  lemma ProportionalTick(rig: Rig, e: Event, p: FirstOrderParams)
    requires RigDefined(rig, e, FirstOrder(p)) && e.Tick? && e.accepted && Proportional(rig.session.ctrl.config)
    ensures RigExec(rig, e, FirstOrder(p)).x == LoopMap(rig.session.ctrl.config, rig.x, e.dt, e.ff, p)
    ensures RigExec(rig, e, FirstOrder(p)).session.ctrl.config == rig.session.ctrl.config
  {
  }

  lemma {:induction false} ShrinkBounds(c: PidConfig, es: seq<Event>, ff: real, p: FirstOrderParams)
    requires LoopTicks(c, es, ff, p) && c.kp >= 0.0 && p.Valid()
    ensures 0.0 <= Shrink(es, p.tau) <= 1.0
  {
    if es != [] {
      ShrinkBounds(c, es[1..], ff, p);
      GentleFraction(c, es[0].dt, p);
      var a, b := Shrink(es[1..], p.tau), 1.0 - es[0].dt / p.tau;
      MulNonNegative(a, b);
      MulNonNegative(1.0 - a, b);
    }
  }

  /** Two runs of the saturated proportional loop that receive the same ticks never overtake each
      other, and their gap shrinks by at least `1 - dt / tau` per tick. */
  lemma {:induction false} RunsContract(a: Rig, b: Rig, es: seq<Event>, ff: real, p: FirstOrderParams)
    requires a.session.ctrl.config == b.session.ctrl.config && Proportional(a.session.ctrl.config)
    requires p.Valid() && LoopTicks(a.session.ctrl.config, es, ff, p)
    requires RigRunDefined(a, es, FirstOrder(p)) && RigRunDefined(b, es, FirstOrder(p)) && a.x <= b.x
    ensures 0.0 <= RigFinal(b, es, FirstOrder(p)).x - RigFinal(a, es, FirstOrder(p)).x
                <= Shrink(es, p.tau) * (b.x - a.x)
    decreases es
  {
    hide RigExec, RigDefined, LoopMap, Proportional, Gentle;
    if es != [] {
      var e, c, gap := es[0], a.session.ctrl.config, b.x - a.x;
      var s, q := Shrink(es[1..], p.tau), 1.0 - e.dt / p.tau;
      assert Shrink(es, p.tau) == s * q;
      ProportionalTick(a, e, p);
      ProportionalTick(b, e, p);
      LimitsOrdered(c);
      LoopMapContracts(c, a.x, b.x, e.dt, ff, p);
      ShrinkBounds(c, es[1..], ff, p);
      ScaleGap(s, RigExec(b, e, FirstOrder(p)).x - RigExec(a, e, FirstOrder(p)).x, q, gap);
      RunsContract(RigExec(a, e, FirstOrder(p)), RigExec(b, e, FirstOrder(p)), es[1..], ff, p);
    }
  }

  lemma LimitsOrdered(c: PidConfig)
    requires Proportional(c)
    ensures c.limits.Ordered() && c.kp >= 0.0
  {
  }

  lemma ScaleGap(s: real, gap: real, q: real, gap0: real)
    requires s >= 0.0 && gap <= q * gap0
    ensures s * gap <= (s * q) * gap0
  {
    MulNonNegative(s, q * gap0 - gap);
    assert (s * q) * gap0 == s * (q * gap0);
  }

  // ---------- the equilibrium ----------

  /** Where plant and command agree. */
  function Equilibrium(c: PidConfig, ff: real, p: FirstOrderParams): real
    requires c.limits.Ordered() && c.kp >= 0.0 && p.gain >= 0.0
  {
    p.Target(EquilibriumCommand(c, ff, p))
  }

  function EquilibriumCommand(c: PidConfig, ff: real, p: FirstOrderParams): real
    requires c.limits.Ordered() && c.kp >= 0.0 && p.gain >= 0.0
  {
    Balanced(c.limits, Proposal(c, 0.0, ff), LoopGain(c, p))
  }

  function LoopGain(c: PidConfig, p: FirstOrderParams): (k: real)
    requires c.kp >= 0.0 && p.gain >= 0.0
    ensures k >= 0.0
  {
    MulNonNegative(c.kp, p.gain);
    c.kp * p.gain
  }

  function Balanced(l: Limits, w: real, k: real): real
    requires l.Ordered() && k >= 0.0
  {
    l.Clamp(w / (1.0 + k))
  }

  function Reduced(w: real, k: real, u: real): real {
    w - k * u
  }

  /** On plain numbers: with `k = kp * gain`, the balanced value is a fixed point of
      `u => clamp(w - k * u)`. */
  lemma BalancedIsFixed(l: Limits, w: real, k: real)
    requires l.Ordered() && k >= 0.0
    ensures l.Clamp(Reduced(w, k, Balanced(l, w, k))) == Balanced(l, w, k)
  {
    var v := w / (1.0 + k);
    assert w == v * (1.0 + k) == v + k * v;
    if l.Below(v) {
      MulNonNegative(k, l.lo.value - v);
      assert w - k * l.lo.value == v - k * (l.lo.value - v);
    } else if l.Above(v) {
      MulNonNegative(k, v - l.hi.value);
      assert w - k * l.hi.value == v + k * (v - l.hi.value);
    }
  }

  lemma EquilibriumCommandIsFixed(c: PidConfig, ff: real, p: FirstOrderParams)
    requires c.limits.Ordered() && c.kp >= 0.0 && p.gain >= 0.0
    ensures Command(c, Equilibrium(c, ff, p), ff) == EquilibriumCommand(c, ff, p)
  {
    hide Proposal, Limits.Clamp, FirstOrderParams.Target, Balanced, Reduced, LoopGain;
    ProposalAtTarget(c, EquilibriumCommand(c, ff, p), ff, p);
    BalancedIsFixed(c.limits, Proposal(c, 0.0, ff), LoopGain(c, p));
  }

  lemma ProposalAtTarget(c: PidConfig, u: real, ff: real, p: FirstOrderParams)
    requires c.kp >= 0.0 && p.gain >= 0.0
    ensures Proposal(c, p.Target(u), ff) == Reduced(Proposal(c, 0.0, ff), LoopGain(c, p), u)
  {
  }

  lemma EquilibriumIsFixed(c: PidConfig, dt: real, ff: real, p: FirstOrderParams)
    requires c.limits.Ordered() && c.kp >= 0.0 && p.gain >= 0.0 && p.Valid()
    ensures LoopMap(c, Equilibrium(c, ff, p), dt, ff, p) == Equilibrium(c, ff, p)
  {
    EquilibriumCommandIsFixed(c, ff, p);
    hide Command, EquilibriumCommand, FirstOrderParams.Target;
    var x := Equilibrium(c, ff, p);
    assert (x - x) / p.tau == 0.0;
  }

  /** One tick towards the equilibrium, followed by a run that keeps to its side. */
  lemma TickTowardsEquilibrium(c: PidConfig, x: real, dt: real, ff: real, p: FirstOrderParams, s: real)
    requires c.limits.Ordered() && c.kp >= 0.0 && Gentle(c, dt, p) && s >= 0.0
    ensures var t, next := Equilibrium(c, ff, p), LoopMap(c, x, dt, ff, p);
            && (x <= t ==> 0.0 <= t - next && s * (t - next) <= (s * (1.0 - dt / p.tau)) * (t - x))
            && (x >= t ==> 0.0 <= next - t && s * (next - t) <= (s * (1.0 - dt / p.tau)) * (x - t))
  {
    hide LoopMap, Equilibrium;
    var t, next, q := Equilibrium(c, ff, p), LoopMap(c, x, dt, ff, p), 1.0 - dt / p.tau;
    EquilibriumIsFixed(c, dt, ff, p);
    if x <= t {
      LoopMapContracts(c, x, t, dt, ff, p);
      ScaleGap(s, t - next, q, t - x);
    }
    if x >= t {
      LoopMapContracts(c, t, x, dt, ff, p);
      ScaleGap(s, next - t, q, x - t);
    }
  }

  /** The saturated proportional loop converges: no run ever crosses the equilibrium, and its distance
      from it shrinks by at least `1 - dt / tau` per tick. */
  lemma {:induction false} ConvergesWithoutOvershoot(rig: Rig, es: seq<Event>, ff: real, p: FirstOrderParams)
    requires Proportional(rig.session.ctrl.config) && p.Valid() && p.gain >= 0.0
    requires LoopTicks(rig.session.ctrl.config, es, ff, p) && RigRunDefined(rig, es, FirstOrder(p))
    ensures var c := rig.session.ctrl.config;
            c.limits.Ordered() && c.kp >= 0.0 &&
            (var target, x := Equilibrium(c, ff, p), RigFinal(rig, es, FirstOrder(p)).x;
             && (rig.x <= target ==> 0.0 <= target - x <= Shrink(es, p.tau) * (target - rig.x))
             && (rig.x >= target ==> 0.0 <= x - target <= Shrink(es, p.tau) * (rig.x - target)))
    decreases es
  {
    hide RigExec, RigDefined, LoopMap, Proportional, Gentle, Equilibrium;
    var c := rig.session.ctrl.config;
    LimitsOrdered(c);
    var target := Equilibrium(c, ff, p);
    if es != [] {
      var e := es[0];
      var next := RigExec(rig, e, FirstOrder(p));
      ProportionalTick(rig, e, p);
      ConvergesWithoutOvershoot(next, es[1..], ff, p);
      ShrinkBounds(c, es[1..], ff, p);
      TickTowardsEquilibrium(c, rig.x, e.dt, ff, p, Shrink(es[1..], p.tau));
    }
  }

  // ---------- the condition is needed ----------

  /** On plain numbers: one unsaturated step around its fixed point `t = (gain * w) / (1 + k)`. */
  lemma UnsaturatedFactor(x: real, t: real, u: real, ut: real, r: real, gain: real, kp: real)
    requires u - ut == -(kp * (x - t)) && gain * ut == t
    ensures Relaxed(x, gain * u, r) - t == (1.0 - r * (1.0 + gain * kp)) * (x - t)
  {
    var d := x - t;
    assert gain * u == t - (gain * kp) * d by {
      assert gain * (u - ut) == -((gain * kp) * d);
    }
    assert Relaxed(x, gain * u, r) == x + r * (t - (gain * kp) * d - x);
    assert r * (t - (gain * kp) * d - x) == -((r * (1.0 + gain * kp)) * d);
  }

  /** Without output limits one tick multiplies the distance from the equilibrium by exactly
      `1 - (dt / tau) * (1 + gain * kp)`. */
  lemma UnlimitedStep(c: PidConfig, x: real, dt: real, ff: real, p: FirstOrderParams)
    requires c.limits == Limits(None, None) && c.kp >= 0.0 && p.gain >= 0.0 && 0.0 < dt <= p.tau
    ensures LoopMap(c, x, dt, ff, p) - Equilibrium(c, ff, p)
            == (1.0 - (dt / p.tau) * (1.0 + p.gain * c.kp)) * (x - Equilibrium(c, ff, p))
  {
    var t := Equilibrium(c, ff, p);
    EquilibriumCommandIsFixed(c, ff, p);
    var u, ut := Command(c, x, ff), Command(c, t, ff);
    UnlimitedSlope(c, x, t, ff);
    FirstOrderIsRelaxation(x, u, dt, p);
    hide Command, EquilibriumCommand, StepFirstOrder, Relaxed;
    UnsaturatedFactor(x, t, u, ut, dt / p.tau, p.gain, c.kp);
  }

  lemma UnlimitedSlope(c: PidConfig, x: real, t: real, ff: real)
    requires c.limits == Limits(None, None)
    ensures Command(c, x, ff) - Command(c, t, ff) == -(c.kp * (x - t))
  {
  }

  /** So without limits a tick crosses the equilibrium exactly when the loop is not gentle. */
  lemma OvershootIff(c: PidConfig, x: real, dt: real, ff: real, p: FirstOrderParams)
    requires c.limits == Limits(None, None) && c.kp >= 0.0 && p.gain >= 0.0 && 0.0 < dt <= p.tau
    requires x != Equilibrium(c, ff, p)
    ensures || LoopMap(c, x, dt, ff, p) < Equilibrium(c, ff, p) < x
            || x < Equilibrium(c, ff, p) < LoopMap(c, x, dt, ff, p)
            <==> !Gentle(c, dt, p)
  {
    UnlimitedStep(c, x, dt, ff, p);
    hide LoopMap, Equilibrium;
    var k, d := 1.0 - (dt / p.tau) * (1.0 + p.gain * c.kp), x - Equilibrium(c, ff, p);
    SignOfProduct(k, d);
  }

  lemma SignOfProduct(k: real, d: real)
    requires d != 0.0
    ensures d > 0.0 ==> (k * d < 0.0 <==> k < 0.0)
    ensures d < 0.0 ==> (k * d > 0.0 <==> k < 0.0)
  {
    if k < 0.0 {
      if d > 0.0 { MulPositive(-k, d); } else { MulPositive(-k, -d); }
    } else {
      if d > 0.0 { MulNonNegative(k, d); } else { MulNonNegative(k, -d); }
    }
  }
}
