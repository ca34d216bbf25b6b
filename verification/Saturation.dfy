/** Which measurements make a step saturate, and so ask back-calculation for the tracking time. */
module Saturation {
  import opened RealMath
  import opened PidCore

  /** Back-calculation can be asked for a correction at all. */
  predicate MayCorrect(c: PidConfig) {
    c.ki != 0.0 && c.antiWindup == BackCalculation && c.limits != Limits(None, None)
  }

  predicate DerivativeActs(s: PidState) {
    s.config.kd != 0.0 && s.nextDTermSkipReason.None? && s.runtime.lastPv.Some?
  }

  /** How fast the unclamped output falls with the filtered measurement. */
  function Slope(s: PidState, dt: real): real
    requires dt > 0.0
  {
    s.config.kp + s.config.ki * dt + if DerivativeActs(s) then s.config.kd / dt else 0.0
  }

  /** Gains that all push the same way have a slope. */
  lemma OneSidedGainsRespond(s: PidState, dt: real)
    requires dt > 0.0 && s.config.ki > 0.0 && s.config.kp >= 0.0 && s.config.kd >= 0.0
    ensures Slope(s, dt) > 0.0
  {
    MulPositive(s.config.ki, dt);
    DivNonNegative(s.config.kd, dt);
  }

  /** The reading that makes the filter return `x`. */
  function UnfilteredOf(s: PidState, x: real): real
    requires s.config.pvFilterAlpha < 1.0
  {
    if s.config.pvFilterAlpha == 0.0 || s.runtime.lastPv.None? then x
    else (x - s.config.pvFilterAlpha * s.runtime.lastPv.value) / (1.0 - s.config.pvFilterAlpha)
  }

  lemma FilterReaches(s: PidState, x: real)
    requires s.config.pvFilterAlpha < 1.0
    ensures FilteredPv(s, UnfilteredOf(s, x)) == x
  {
    if s.config.pvFilterAlpha != 0.0 && s.runtime.lastPv.Some? {
      var b := 1.0 - s.config.pvFilterAlpha;
      var y := x - s.config.pvFilterAlpha * s.runtime.lastPv.value;
      assert b * (y / b) == y;
    }
  }

  /** The output without an error. */
  function Offset(s: PidState, sp: real, dt: real, ff: real): real
    requires dt > 0.0
  {
    s.config.ki * s.runtime.iAcc + s.config.feedforwardGain * ff
    - if DerivativeActs(s) then s.config.kd * ((sp - s.runtime.lastPv.value) / dt) else 0.0
  }

  lemma DerivativeSplits(kd: real, x: real, e: real, dt: real)
    requires dt > 0.0
    ensures -kd * ((x - e) / dt) == (kd / dt) * e - kd * (x / dt)
  {
    var p, q, r := (x - e) / dt, x / dt, 1.0 / dt;
    assert (x - e) / dt == q - e * r;
    assert kd / dt == kd * r;
    assert kd * (e * r) == (kd * r) * e;
  }

  lemma ProportionalIntegral(kp: real, ki: real, i: real, e: real, dt: real)
    ensures kp * e + ki * (i + e * dt) == (kp + ki * dt) * e + ki * i
  {
  }

  lemma Distributes(x: real, y: real, e: real)
    ensures (x + y) * e == x * e + y * e
  {
  }

  /** Outside the deadband the unclamped output is `slope * error + offset`. */
  lemma OutputOfError(s: PidState, input: StepInput, e: real)
    requires ValidConfig(s.config) && input.dt > 0.0 && s.config.ki != 0.0 && Abs(e) >= s.config.deadband
    requires FilteredPv(s, input.pv) == NextEffectiveSp(s, input.dt) - e
    ensures var t, sp := TermsOf(s, input), NextEffectiveSp(s, input.dt);
            t.Rest() + ITerm(s.config, t.candidateIAcc)
            == Scaling(Slope(s, input.dt), e) + Offset(s, sp, input.dt, input.ff)
  {
    hide FilteredPv, NextEffectiveSp;
    var c, sp := s.config, NextEffectiveSp(s, input.dt);
    ProportionalIntegral(c.kp, c.ki, s.runtime.iAcc, e, input.dt);
    if DerivativeActs(s) {
      DerivativeSplits(c.kd, sp - s.runtime.lastPv.value, e, input.dt);
      Distributes(c.kp + c.ki * input.dt, c.kd / input.dt, e);
    }
  }

  function Scaling(k: real, e: real): real {
    k * e
  }

  /** An error of at least `band` that takes `k * e + offset` beyond `edge` on the wanted side. */
  lemma FarError(k: real, offset: real, edge: real, band: real, up: bool) returns (e: real)
    requires k != 0.0 && band >= 0.0
    ensures Abs(e) >= band
    ensures if up then Scaling(k, e) + offset > edge else Scaling(k, e) + offset < edge
  {
    var size := Abs(edge - offset) + 1.0 + Abs(k) * band;
    var goal := if up then size else -size;
    e := goal / k;
    assert e * k == goal;
    MulNonNegative(Abs(k), band);
    SizeOf(e, k, goal);
    ScaleOrder(Abs(e), band, Abs(k));
  }

  lemma SizeOf(e: real, k: real, goal: real)
    requires e * k == goal
    ensures Abs(k) * Abs(e) == Abs(goal)
  {
    if e >= 0.0 && k >= 0.0 {
      MulNonNegative(e, k);
    } else if e >= 0.0 {
      MulNonNegative(e, -k);
    } else if k >= 0.0 {
      MulNonNegative(-e, k);
    } else {
      MulNonNegative(-e, -k);
    }
  }

  /** Whatever the state, some measurement saturates the output. */
  lemma SomePvSaturates(s: PidState, dt: real, prev: real, ff: real) returns (pv: real)
    requires ValidConfig(s.config) && MayCorrect(s.config) && dt > 0.0 && Slope(s, dt) != 0.0
    ensures var t := TermsOf(s, StepInput(pv, dt, prev, ff)); CorrectionNeeded(s.config, t.candidateIAcc, t.Rest())
  {
    var c, sp := s.config, NextEffectiveSp(s, dt);
    var up := c.limits.hi.Some?;
    var edge := if up then c.limits.hi.value else c.limits.lo.value;
    var e := FarError(Slope(s, dt), Offset(s, sp, dt, ff), edge, c.deadband, up);
    pv := UnfilteredOf(s, sp - e);
    FilterReaches(s, sp - e);
    hide Slope, Offset, UnfilteredOf, FilteredPv, NextEffectiveSp, Scaling;
    OutputOfError(s, StepInput(pv, dt, prev, ff), e);
    hide TermsOf, ITerm;
  }

  /** The clamp of the automatic tracking time has its limits out of order. */
  predicate TrackingPanics(c: PidConfig, dt: real) {
    c.antiWindupTt.None? && dt > c.ttUpperBound.GetOr(DEFAULT_TT_UPPER_BOUND)
  }

  /** With back-calculation against some limit, from any state in which the gains do not cancel: some
      measurement makes a step of length `dt` panic exactly when `dt` is past the bound of an automatic
      tracking time. */
  lemma SomeStepPanicsIff(s: PidState, dt: real, prev: real, ff: real)
    requires ValidConfig(s.config) && MayCorrect(s.config) && dt > 0.0 && Slope(s, dt) != 0.0
    ensures (exists pv :: StepPanics(s, StepInput(pv, dt, prev, ff))) <==> TrackingPanics(s.config, dt)
  {
    hide TermsOf, Slope, MayCorrect;
    if TrackingPanics(s.config, dt) {
      var pv := SomePvSaturates(s, dt, prev, ff);
      assert StepPanics(s, StepInput(pv, dt, prev, ff));
    }
  }

  /** The tracking time is a number, however long the step: an explicit one does not divide by zero, an
      automatic one is no root of a negative ratio. */
  predicate NumericTracking(c: PidConfig) {
    if c.antiWindupTt.Some? then c.antiWindupTt.value != 0.0 else c.kd > 0.0 ==> c.ki > 0.0
  }

  /** ... and every measurement has a step within the finite numbers exactly when the tracking time is a
      number and does not panic. */
  lemma AlwaysDefinedIff(s: PidState, dt: real, prev: real, ff: real)
    requires ValidConfig(s.config) && MayCorrect(s.config) && dt > 0.0 && Slope(s, dt) != 0.0
    ensures (forall pv :: StepDefined(s, StepInput(pv, dt, prev, ff)))
            <==> NumericTracking(s.config) && !TrackingPanics(s.config, dt)
  {
    hide TermsOf, Slope, MayCorrect;
    if !TtDefined(s.config, dt) {
      var pv := SomePvSaturates(s, dt, prev, ff);
      assert !StepDefined(s, StepInput(pv, dt, prev, ff));
    }
  }

  /** A step that is not defined panics or leaves the finite numbers; a defined one does not panic. */
  lemma PanicsAreUndefined(s: PidState, input: StepInput)
    ensures StepPanics(s, input) ==>
              !StepDefined(s, input) && MayCorrect(s.config) && TrackingPanics(s.config, input.dt)
  {
    hide TermsOf;
  }
}
