/** The simulated plants (`pid-ctl-sim`): one explicit Euler step each. */
module Plant {
  import opened RealMath

  /** One Euler step of a lag towards `target`. */
  function LagStep(x: real, target: real, dt: real, tau: real): real
    requires tau > 0.0
  {
    x + dt * ((target - x) / tau)
  }

  datatype FirstOrderParams = FirstOrderParams(tau: real, gain: real) {
    predicate Valid() { tau > 0.0 }

    /** Where the plant settles under a constant command. */
    function Target(cv: real): real { gain * cv }
  }

  function StepFirstOrder(x: real, cv: real, dt: real, p: FirstOrderParams): real
    requires p.Valid()
  {
    LagStep(x, p.Target(cv), dt, p.tau)
  }

  datatype ThermalParams = ThermalParams(tau: real, tAmbient: real, kHeat: real) {
    predicate Valid() { tau > 0.0 }

    /** Where the heater balances the loss to ambient. */
    function Target(cv: real): real { tAmbient + tau * Heat(cv) }

    function Heat(cv: real): real { kHeat * cv }
  }

  function StepThermal(t: real, cv: real, dt: real, p: ThermalParams): real
    requires p.Valid()
  {
    t + dt * ((p.tAmbient - t) / p.tau + p.kHeat * cv)
  }

  /** `curve` is `u` raised to the fan's exponent, as the platform's math library computes it. */
  datatype FanParams = FanParams(tau: real, maxFlow: real, cvMax: real, curve: real -> real) {
    ghost predicate Valid() {
      && tau > 0.0 && maxFlow > 0.0 && cvMax > 0.0
      && forall u {:trigger curve(u)} :: 0.0 <= u <= 1.0 ==> 0.0 <= curve(u) <= 1.0
    }

    function TargetFlow(cv: real): real
      requires cvMax > 0.0
    {
      maxFlow * curve(Clamp(cv / cvMax, 0.0, 1.0))
    }
  }

  /** The fan's flow follows the curve between a command of 0 and the full command, and stays at either end
      beyond. */
  lemma FanFollowsCurve(p: FanParams, part: real)
    requires p.cvMax > 0.0
    ensures 0.0 <= part <= 1.0 ==> p.TargetFlow(part * p.cvMax) == p.maxFlow * p.curve(part)
    ensures part <= 0.0 ==> p.TargetFlow(part * p.cvMax) == p.maxFlow * p.curve(0.0)
    ensures part >= 1.0 ==> p.TargetFlow(part * p.cvMax) == p.maxFlow * p.curve(1.0)
  {
    assert (part * p.cvMax) / p.cvMax == part;
  }

  function StepFan(speed: real, cv: real, dt: real, p: FanParams): real
    requires p.tau > 0.0 && p.cvMax > 0.0
  {
    LagStep(speed, p.TargetFlow(cv), dt, p.tau)
  }

  /** Moving from `x` by the fraction `r` of the way to `target`. */
  function Relaxed(x: real, target: real, r: real): real {
    x + r * (target - x)
  }

  /** An Euler step of a lag moves by the fraction `dt / tau` of the way to its target. */
  lemma LagIsRelaxation(x: real, target: real, dt: real, tau: real)
    requires 0.0 < dt <= tau
    ensures 0.0 < dt / tau <= 1.0
    ensures LagStep(x, target, dt, tau) == Relaxed(x, target, dt / tau)
  {
    DivBetween(dt, tau);
    var d := target - x;
    assert dt * (d / tau) == (dt / tau) * d;
  }

  lemma FirstOrderIsRelaxation(x: real, cv: real, dt: real, p: FirstOrderParams)
    requires 0.0 < dt <= p.tau
    ensures StepFirstOrder(x, cv, dt, p) == Relaxed(x, p.Target(cv), dt / p.tau)
    ensures 0.0 < dt / p.tau <= 1.0
  {
    hide FirstOrderParams.Target;
    LagIsRelaxation(x, p.Target(cv), dt, p.tau);
  }

  /** ... and so it stays between any bounds of its state and its target. */
  lemma LagStaysWithin(x: real, target: real, dt: real, tau: real, lo: real, hi: real)
    requires 0.0 < dt <= tau && lo <= x <= hi && lo <= target <= hi
    ensures lo <= LagStep(x, target, dt, tau) <= hi
  {
    LagIsRelaxation(x, target, dt, tau);
    Towards(dt / tau, x, target, lo, hi);
  }

  /** The thermal mass is the first-order lag with gain `tau * kHeat`, measured from ambient. */
  lemma ThermalIsFirstOrder(t: real, cv: real, dt: real, p: ThermalParams)
    requires p.Valid()
    ensures StepThermal(t, cv, dt, p)
            == p.tAmbient + StepFirstOrder(t - p.tAmbient, cv, dt, FirstOrderParams(p.tau, p.tau * p.kHeat))
  {
    var heat := p.kHeat * cv;
    var d := p.tAmbient - t;
    var rate := (p.tau * p.kHeat * cv - (t - p.tAmbient)) / p.tau;
    assert p.tau * p.kHeat * cv == p.tau * heat;
    assert rate == (p.tau * heat + d) / p.tau;
    assert (d / p.tau + heat) * p.tau == d + heat * p.tau;
    assert rate == d / p.tau + heat;
  }

  // ---------- any of the plants ----------

  datatype PlantModel = FirstOrder(lag: FirstOrderParams) | Thermal(mass: ThermalParams) | Fan(fan: FanParams) {
    function Tau(): real {
      match this
      case FirstOrder(p) => p.tau
      case Thermal(p) => p.tau
      case Fan(p) => p.tau
    }

    predicate Runnable() {
      Tau() > 0.0 && (Fan? ==> fan.cvMax > 0.0)
    }

    /** Where the plant settles under a constant command. */
    function SettlesAt(cv: real): real
      requires Runnable()
    {
      match this
      case FirstOrder(p) => p.Target(cv)
      case Thermal(p) => p.Target(cv)
      case Fan(p) => p.TargetFlow(cv)
    }
  }

  function StepPlant(m: PlantModel, x: real, cv: real, dt: real): real
    requires m.Runnable()
  {
    match m
    case FirstOrder(p) => StepFirstOrder(x, cv, dt, p)
    case Thermal(p) => StepThermal(x, cv, dt, p)
    case Fan(p) => StepFan(x, cv, dt, p)
  }

  /** Every plant is a lag towards where it settles. */
  lemma StepIsLag(m: PlantModel, x: real, cv: real, dt: real)
    requires m.Runnable()
    ensures StepPlant(m, x, cv, dt) == LagStep(x, m.SettlesAt(cv), dt, m.Tau())
  {
    hide LagStep, FirstOrderParams.Target, ThermalParams.Target, FanParams.TargetFlow, StepThermal;
    if m.Thermal? {
      ThermalIsLag(x, cv, dt, m.mass);
    }
  }

  lemma ThermalIsLag(t: real, cv: real, dt: real, p: ThermalParams)
    requires p.Valid()
    ensures StepThermal(t, cv, dt, p) == LagStep(t, p.Target(cv), dt, p.tau)
  {
    SumOverTau(p.tAmbient - t, p.Heat(cv), p.tau);
    assert p.Target(cv) - t == (p.tAmbient - t) + p.tau * p.Heat(cv);
  }

  lemma SumOverTau(d: real, h: real, tau: real)
    requires tau > 0.0
    ensures (d + tau * h) / tau == d / tau + h
  {
    var q := d / tau;
    assert (q + h) * tau == d + tau * h;
  }

  lemma PlantStaysWithin(m: PlantModel, x: real, cv: real, dt: real, lo: real, hi: real)
    requires m.Runnable() && 0.0 < dt <= m.Tau() && lo <= x <= hi && lo <= m.SettlesAt(cv) <= hi
    ensures lo <= StepPlant(m, x, cv, dt) <= hi
  {
    StepIsLag(m, x, cv, dt);
    hide PlantModel.SettlesAt, PlantModel.Tau, StepPlant, LagStep;
    LagStaysWithin(x, m.SettlesAt(cv), dt, m.Tau(), lo, hi);
  }

  /** Under every command the limits allow, the plant settles between the bounds. */
  ghost predicate Covers(m: PlantModel, l: Limits, lo: real, hi: real) {
    m.Runnable() && forall u :: l.Contains(u) ==> lo <= m.SettlesAt(u) <= hi
  }

  lemma ScaledBetween(k: real, u: real, umin: real, umax: real)
    requires umin <= u <= umax
    ensures Min(k * umin, k * umax) <= k * u <= Max(k * umin, k * umax)
  {
    if k >= 0.0 {
      MulNonNegative(k, u - umin);
      MulNonNegative(k, umax - u);
    } else {
      MulNonNegative(-k, u - umin);
      MulNonNegative(-k, umax - u);
    }
  }

  lemma FirstOrderCovers(p: FirstOrderParams, umin: real, umax: real, lo: real, hi: real)
    requires p.Valid() && lo <= p.gain * umin <= hi && lo <= p.gain * umax <= hi
    ensures Covers(FirstOrder(p), Limits(Some(umin), Some(umax)), lo, hi)
  {
    forall u | umin <= u <= umax ensures lo <= FirstOrder(p).SettlesAt(u) <= hi {
      ScaledBetween(p.gain, u, umin, umax);
    }
  }

  lemma ThermalCovers(p: ThermalParams, umin: real, umax: real, lo: real, hi: real)
    requires p.Valid()
    requires lo <= p.Target(umin) <= hi && lo <= p.Target(umax) <= hi
    ensures Covers(Thermal(p), Limits(Some(umin), Some(umax)), lo, hi)
  {
    forall u | umin <= u <= umax ensures lo <= Thermal(p).SettlesAt(u) <= hi {
      HeatBetween(p, u, umin, umax);
      hide ThermalParams.Heat;
      TargetOrder(p, umin, u);
      TargetOrder(p, u, umax);
    }
  }

  lemma HeatBetween(p: ThermalParams, u: real, umin: real, umax: real)
    requires umin <= u <= umax
    ensures p.Heat(umin) <= p.Heat(u) <= p.Heat(umax) || p.Heat(umax) <= p.Heat(u) <= p.Heat(umin)
  {
    ScaledBetween(p.kHeat, u, umin, umax);
  }

  lemma TargetOrder(p: ThermalParams, u: real, v: real)
    requires p.Valid()
    ensures p.Heat(u) <= p.Heat(v) <==> p.Target(u) <= p.Target(v)
  {
    hide ThermalParams.Heat;
    ScaleOrder(p.Heat(v), p.Heat(u), p.tau);
  }

  /** The fan clamps its command, so it needs no output limits. */
  lemma FanCovers(p: FanParams, l: Limits)
    requires p.Valid()
    ensures Covers(Fan(p), l, 0.0, p.maxFlow)
  {
    forall cv | l.Contains(cv) ensures 0.0 <= Fan(p).SettlesAt(cv) <= p.maxFlow {
      var u := p.curve(Clamp(cv / p.cvMax, 0.0, 1.0));
      MulNonNegative(p.maxFlow, u);
      MulNonNegative(p.maxFlow, 1.0 - u);
      assert p.TargetFlow(cv) == p.maxFlow * u;
    }
  }
}
