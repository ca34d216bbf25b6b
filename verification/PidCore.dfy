/** The controller core (`pid-ctl-core`): one PID step as a function of the controller's state,
    and the controller object that performs it in place. */
module PidCore {
  import opened RealMath

  datatype AntiWindupStrategy = BackCalculation | ClampIntegral | NoAntiWindup

  datatype DTermSkipReason = NoPvPrev | PostDtSkip | PostReset

  /** `sqrt` is the square root of the platform's math library. Nothing depends on which function it is,
      except `AutomaticTt`, where it must be a root. */
  datatype PidConfig = PidConfig(
    setpoint: real,
    kp: real,
    ki: real,
    kd: real,
    limits: Limits,
    deadband: real,
    setpointRamp: Option<real>,
    slewRate: Option<real>,
    pvFilterAlpha: real,
    antiWindup: AntiWindupStrategy,
    antiWindupTt: Option<real>,
    ttUpperBound: Option<real>,
    feedforwardGain: real,
    sqrt: real -> real)

  datatype ConfigError =
    | InvalidPvFilterAlpha(alpha: real)
    | InvalidOutputLimits(min: real, max: real)
    | NegativeSetpointRampRate(rate: real)
    | NegativeSlewRate(rate: real)
    | NegativeDeadband(deadband: real)
    | NonPositiveTtUpperBound(bound: real)

  predicate ValidConfig(c: PidConfig) {
    && 0.0 <= c.pvFilterAlpha < 1.0
    && c.limits.Ordered()
    && (c.setpointRamp.Some? ==> c.setpointRamp.value >= 0.0)
    && (c.slewRate.Some? ==> c.slewRate.value >= 0.0)
    && c.deadband >= 0.0
    && (c.ttUpperBound.Some? ==> c.ttUpperBound.value > 0.0)
  }

  /** The first violated rule, in the order the checks are made; `None` exactly for a valid configuration. */
  function Validate(c: PidConfig): (error: Option<ConfigError>)
    ensures error.None? <==> ValidConfig(c)
  {
    if !(0.0 <= c.pvFilterAlpha < 1.0) then
      Some(InvalidPvFilterAlpha(c.pvFilterAlpha))
    else if c.limits.lo.Some? && c.limits.hi.Some? && c.limits.lo.value > c.limits.hi.value then
      Some(InvalidOutputLimits(c.limits.lo.value, c.limits.hi.value))
    else if c.setpointRamp.Some? && c.setpointRamp.value < 0.0 then
      Some(NegativeSetpointRampRate(c.setpointRamp.value))
    else if c.slewRate.Some? && c.slewRate.value < 0.0 then
      Some(NegativeSlewRate(c.slewRate.value))
    else if c.deadband < 0.0 then
      Some(NegativeDeadband(c.deadband))
    else if c.ttUpperBound.Some? && c.ttUpperBound.value <= 0.0 then
      Some(NonPositiveTtUpperBound(c.ttUpperBound.value))
    else
      None
  }

  /** The rules of a configuration, in the order they are checked, and the complaint about each. */
  predicate Obeys(c: PidConfig, rule: nat) {
    match rule
    case 0 => 0.0 <= c.pvFilterAlpha < 1.0
    case 1 => c.limits.lo.Some? && c.limits.hi.Some? ==> c.limits.lo.value <= c.limits.hi.value
    case 2 => c.setpointRamp.Some? ==> c.setpointRamp.value >= 0.0
    case 3 => c.slewRate.Some? ==> c.slewRate.value >= 0.0
    case 4 => c.deadband >= 0.0
    case _ => c.ttUpperBound.Some? ==> c.ttUpperBound.value > 0.0
  }

  function Complaint(c: PidConfig, rule: nat): ConfigError
    requires !Obeys(c, rule)
  {
    match rule
    case 0 => InvalidPvFilterAlpha(c.pvFilterAlpha)
    case 1 => InvalidOutputLimits(c.limits.lo.value, c.limits.hi.value)
    case 2 => NegativeSetpointRampRate(c.setpointRamp.value)
    case 3 => NegativeSlewRate(c.slewRate.value)
    case 4 => NegativeDeadband(c.deadband)
    case _ => NonPositiveTtUpperBound(c.ttUpperBound.value)
  }

  /** The error names the first rule that is broken, with the value that breaks it. */
  lemma FirstBrokenRule(c: PidConfig, rule: nat)
    requires rule < 6 && !Obeys(c, rule) && forall earlier: nat :: earlier < rule ==> Obeys(c, earlier)
    ensures Validate(c) == Some(Complaint(c, rule))
  {
    assert rule > 0 ==> Obeys(c, 0);
    assert rule > 1 ==> Obeys(c, 1);
    assert rule > 2 ==> Obeys(c, 2);
    assert rule > 3 ==> Obeys(c, 3);
    assert rule > 4 ==> Obeys(c, 4);
  }

  datatype StepInput = StepInput(pv: real, dt: real, prevAppliedCv: real, ff: real)

  datatype StepResult = StepResult(
    cv: real,
    uUnclamped: real,
    pTerm: real,
    iTerm: real,
    dTerm: real,
    ffTerm: real,
    iAcc: real,
    effectiveSp: real,
    saturated: bool,
    dTermSkipped: Option<DTermSkipReason>)

  /** The part of the controller's state that a snapshot can restore. */
  datatype PidRuntimeState = PidRuntimeState(
    iAcc: real,
    lastPv: Option<real>,
    lastError: Option<real>,
    lastCv: Option<real>,
    effectiveSp: Option<real>)

  datatype PidState = PidState(
    config: PidConfig,
    runtime: PidRuntimeState,
    nextDTermSkipReason: Option<DTermSkipReason>) {

    function WithGains(kp: real, ki: real, kd: real): PidState {
      this.(config := config.(kp := kp, ki := ki, kd := kd))
    }

    function WithSetpoint(setpoint: real): PidState {
      this.(config := config.(setpoint := setpoint))
    }

    function WithDtSkipMarked(): PidState {
      this.(nextDTermSkipReason := Some(PostDtSkip))
    }

    function WithIntegralReset(): PidState {
      this.(runtime := runtime.(iAcc := 0.0), nextDTermSkipReason := Some(PostReset))
    }
  }

  const EMPTY_RUNTIME := PidRuntimeState(0.0, None, None, None, None)

  // ---------- the parts of a step ----------

  /** How far a quantity limited to `rate` per second may move within `dt`. */
  function Travel(rate: real, dt: real): (d: real)
    ensures rate >= 0.0 && dt >= 0.0 ==> d >= 0.0
  {
    rate * dt
  }

  function RampToward(current: real, target: real, maxDelta: real): real {
    if Abs(target - current) <= maxDelta then target
    else if target > current then current + maxDelta
    else current - maxDelta
  }

  function FilteredPv(s: PidState, rawPv: real): real {
    if s.config.pvFilterAlpha == 0.0 then rawPv
    else if s.runtime.lastPv.Some? then
      (1.0 - s.config.pvFilterAlpha) * rawPv + s.config.pvFilterAlpha * s.runtime.lastPv.value
    else rawPv
  }

  function NextEffectiveSp(s: PidState, dt: real): real {
    if s.config.setpointRamp.Some? && s.runtime.effectiveSp.Some? then
      RampToward(s.runtime.effectiveSp.value, s.config.setpoint, Travel(s.config.setpointRamp.value, dt))
    else
      s.config.setpoint
  }

  function EffectiveError(c: PidConfig, error: real): real {
    if Abs(error) < c.deadband then 0.0 else error
  }

  function CandidateIAcc(c: PidConfig, iAcc: real, effectiveError: real, dt: real): real {
    if c.ki == 0.0 then iAcc else iAcc + effectiveError * dt
  }

  function DTerm(s: PidState, filteredPv: real, dt: real): (real, Option<DTermSkipReason>)
    requires dt > 0.0
  {
    if s.config.kd == 0.0 then (0.0, None)
    else if s.nextDTermSkipReason.Some? then (0.0, s.nextDTermSkipReason)
    else if s.runtime.lastPv.None? then (0.0, Some(NoPvPrev))
    else (-s.config.kd * ((filteredPv - s.runtime.lastPv.value) / dt), None)
  }

  const DEFAULT_TT_UPPER_BOUND := 100.0

  /** When the tracking time is a number: an explicit one must not divide by zero; the automatic
      one needs a root of a non-negative ratio and ordered clamp limits. */
  predicate TtDefined(c: PidConfig, dt: real) {
    if c.antiWindupTt.Some? then c.antiWindupTt.value != 0.0
    else (c.kd > 0.0 ==> c.ki > 0.0) && dt <= c.ttUpperBound.GetOr(DEFAULT_TT_UPPER_BOUND)
  }

  function AntiWindupTt(c: PidConfig, dt: real): (tt: real)
    requires dt > 0.0 && c.ki != 0.0 && TtDefined(c, dt)
    ensures tt != 0.0
    ensures c.antiWindupTt.Some? ==> tt == c.antiWindupTt.value
    ensures c.antiWindupTt.None? ==> dt <= tt <= c.ttUpperBound.GetOr(DEFAULT_TT_UPPER_BOUND)
  {
    if c.antiWindupTt.Some? then c.antiWindupTt.value
    else
      var autoTt := if c.kd > 0.0 then c.sqrt(c.kd / c.ki) else c.kp / c.ki;
      Clamp(autoTt, dt, c.ttUpperBound.GetOr(DEFAULT_TT_UPPER_BOUND))
  }

  /** `sqrt` gives the non-negative root of `x`. */
  predicate RootOf(sqrt: real -> real, x: real) {
    sqrt(x) >= 0.0 && Square(sqrt(x)) == x
  }

  /** The automatic tracking time is the root of `kd / ki`, or `kp / ki` without derivative gain, as far
      as it lies between the tick and the bound, and otherwise the nearer of these two. */
  lemma AutomaticTt(c: PidConfig, dt: real)
    requires dt > 0.0 && c.ki != 0.0 && c.antiWindupTt.None? && TtDefined(c, dt)
    requires c.kd > 0.0 ==> RootOf(c.sqrt, c.kd / c.ki)
    ensures var tt, bound := AntiWindupTt(c, dt), c.ttUpperBound.GetOr(100.0);
            if c.kd > 0.0 then
              && (Square(dt) * c.ki >= c.kd ==> tt == dt)
              && (Square(bound) * c.ki <= c.kd ==> tt == bound)
              && (Square(dt) * c.ki <= c.kd <= Square(bound) * c.ki ==> Square(tt) * c.ki == c.kd)
            else if c.ki > 0.0 then
              && (dt * c.ki >= c.kp ==> tt == dt)
              && (bound * c.ki <= c.kp ==> tt == bound)
              && (dt * c.ki <= c.kp <= bound * c.ki ==> tt * c.ki == c.kp)
            else
              && (dt * c.ki <= c.kp ==> tt == dt)
              && (bound * c.ki >= c.kp ==> tt == bound)
              && (bound * c.ki <= c.kp <= dt * c.ki ==> tt * c.ki == c.kp)
  {
    hide Square;
    var bound := c.ttUpperBound.GetOr(DEFAULT_TT_UPPER_BOUND);
    if c.kd > 0.0 {
      var q, r := c.kd / c.ki, c.sqrt(c.kd / c.ki);
      assert q * c.ki == c.kd;
      RootOrder(r, q, dt, c.ki);
      RootOrder(r, q, bound, c.ki);
    } else {
      QuotientOrder(c.kp, c.ki, dt);
      QuotientOrder(c.kp, c.ki, bound);
    }
  }

  lemma RootOrder(r: real, q: real, x: real, k: real)
    requires r >= 0.0 && x >= 0.0 && k > 0.0 && Square(r) == q
    ensures x >= r <==> Square(x) * k >= q * k
    ensures x <= r <==> Square(x) * k <= q * k
  {
    SquareOrder(x, r);
    SquareOrder(r, x);
    hide Square;
    ScaleOrder(Square(x), q, k);
    ScaleOrder(q, Square(x), k);
  }

  /** The integral contribution of an accumulator, and back. */
  function ITerm(c: PidConfig, iAcc: real): real {
    c.ki * iAcc
  }

  function Accumulator(c: PidConfig, iTerm: real): real
    requires c.ki != 0.0
  {
    iTerm / c.ki
  }

  /** Back-calculation: the term is pulled towards what the actuator really received. */
  function BackCalculated(c: PidConfig, iTerm: real, u: real, prevAppliedCv: real, dt: real): real
    requires dt > 0.0 && c.ki != 0.0 && TtDefined(c, dt)
  {
    (prevAppliedCv - u) * (dt / AntiWindupTt(c, dt)) + iTerm
  }

  predicate CorrectionNeeded(c: PidConfig, candidate: real, rest: real) {
    c.ki != 0.0 && c.antiWindup == BackCalculation && !c.limits.Contains(rest + ITerm(c, candidate))
  }

  /** The new accumulator and its integral term. `rest` is the sum of the other three terms. */
  function ApplyAntiWindup(
      c: PidConfig, iAcc: real, candidate: real, rest: real, prevAppliedCv: real, dt: real): (real, real)
    requires dt > 0.0 && c.limits.Ordered()
    requires CorrectionNeeded(c, candidate, rest) ==> TtDefined(c, dt)
  {
    if c.ki == 0.0 then (iAcc, 0.0)
    else
      var candidateITerm := ITerm(c, candidate);
      match c.antiWindup
      case NoAntiWindup => (candidate, candidateITerm)
      case ClampIntegral =>
        var clamped := c.limits.Shift(-rest).Clamp(candidateITerm);
        (Accumulator(c, clamped), clamped)
      case BackCalculation =>
        var u := rest + candidateITerm;
        if c.limits.Contains(u) then (candidate, candidateITerm)
        else
          var corrected := BackCalculated(c, candidateITerm, u, prevAppliedCv, dt);
          (Accumulator(c, corrected), corrected)
  }

  function ApplySlewRate(c: PidConfig, clampedCv: real, prevAppliedCv: real, dt: real): real
    requires dt > 0.0
    requires c.slewRate.Some? ==> c.slewRate.value >= 0.0
  {
    if c.slewRate.None? then clampedCv
    else
      var maxDelta := Travel(c.slewRate.value, dt);
      Clamp(clampedCv, prevAppliedCv - maxDelta, prevAppliedCv + maxDelta)
  }

  /** Error and the three terms that do not depend on the integral, before anti-windup. */
  datatype Terms = Terms(filteredPv: real, effectiveSp: real, error: real, p: real, d: real,
                         skipped: Option<DTermSkipReason>, ff: real, candidateIAcc: real) {
    function Rest(): real { p + d + ff }
  }

  function TermsOf(s: PidState, input: StepInput): Terms
    requires input.dt > 0.0
  {
    var filteredPv := FilteredPv(s, input.pv);
    var effectiveSp := NextEffectiveSp(s, input.dt);
    var error := effectiveSp - filteredPv;
    var effectiveError := EffectiveError(s.config, error);
    var d := DTerm(s, filteredPv, input.dt);
    var candidate := CandidateIAcc(s.config, s.runtime.iAcc, effectiveError, input.dt);
    Terms(filteredPv, effectiveSp, error, s.config.kp * effectiveError, d.0, d.1,
          s.config.feedforwardGain * input.ff, candidate)
  }

  /** The steps the model follows: those with a positive `dt` and, on the one branch that uses it, a
      tracking time. Otherwise the code panics (`StepPanics`) or goes on with numbers that are not finite. */
  predicate StepDefined(s: PidState, input: StepInput) {
    && ValidConfig(s.config)
    && input.dt > 0.0
    && (var t := TermsOf(s, input);
        CorrectionNeeded(s.config, t.candidateIAcc, t.Rest()) ==> TtDefined(s.config, input.dt))
  }

  /** The step reaches the clamp of the automatic tracking time with its limits out of order, and panics. */
  predicate StepPanics(s: PidState, input: StepInput) {
    && ValidConfig(s.config)
    && input.dt > 0.0
    && s.config.antiWindupTt.None? && input.dt > s.config.ttUpperBound.GetOr(DEFAULT_TT_UPPER_BOUND)
    && (var t := TermsOf(s, input); CorrectionNeeded(s.config, t.candidateIAcc, t.Rest()))
  }

  function PidStep(s: PidState, input: StepInput): (PidState, StepResult)
    requires StepDefined(s, input)
  {
    var t := TermsOf(s, input);
    var i := ApplyAntiWindup(s.config, s.runtime.iAcc, t.candidateIAcc, t.Rest(), input.prevAppliedCv, input.dt);
    var u := t.Rest() + i.1;
    var cv := ApplySlewRate(s.config, s.config.limits.Clamp(u), input.prevAppliedCv, input.dt);
    (PidState(s.config, PidRuntimeState(i.0, Some(t.filteredPv), Some(t.error), Some(cv), Some(t.effectiveSp)), None),
     StepResult(cv, u, t.p, i.1, t.d, t.ff, i.0, t.effectiveSp, !s.config.limits.Contains(u), t.skipped))
  }

  /** The controller object: the same transitions, field by field. */
  class PidController {
    var config: PidConfig
    var iAcc: real
    var lastPv: Option<real>
    var lastError: Option<real>
    var lastCv: Option<real>
    var effectiveSp: Option<real>
    var nextDTermSkipReason: Option<DTermSkipReason>

    function State(): PidState
      reads this
    {
      PidState(config, PidRuntimeState(iAcc, lastPv, lastError, lastCv, effectiveSp), nextDTermSkipReason)
    }

    /** Callers reject a configuration with an error before building the controller. */
    constructor (config: PidConfig)
      requires ValidConfig(config)
      ensures State() == PidState(config, EMPTY_RUNTIME, None)
    {
      this.config := config;
      iAcc := 0.0;
      lastPv, lastError, lastCv, effectiveSp := None, None, None, None;
      nextDTermSkipReason := None;
    }

    method SetGains(kp: real, ki: real, kd: real)
      modifies this
      ensures State() == old(State()).WithGains(kp, ki, kd)
    {
      config := config.(kp := kp);
      config := config.(ki := ki);
      config := config.(kd := kd);
    }

    method SetSetpoint(setpoint: real)
      modifies this
      ensures State() == old(State()).WithSetpoint(setpoint)
    {
      config := config.(setpoint := setpoint);
    }

    method RestoreState(state: PidRuntimeState)
      modifies this
      ensures State() == old(State()).(runtime := state)
    {
      iAcc := state.iAcc;
      lastPv := state.lastPv;
      lastError := state.lastError;
      lastCv := state.lastCv;
      effectiveSp := state.effectiveSp;
    }

    method MarkDtSkipped()
      modifies this
      ensures State() == old(State()).WithDtSkipMarked()
    {
      nextDTermSkipReason := Some(PostDtSkip);
    }

    method ResetIntegral()
      modifies this
      ensures State() == old(State()).WithIntegralReset()
    {
      iAcc := 0.0;
      nextDTermSkipReason := Some(PostReset);
    }

    method Step(input: StepInput) returns (result: StepResult)
      requires StepDefined(State(), input)
      modifies this
      ensures (State(), result) == PidStep(old(State()), input)
    {
      var filteredPv := FilteredPv(State(), input.pv);
      var effectiveSpNow := NextEffectiveSp(State(), input.dt);
      var error := effectiveSpNow - filteredPv;
      var effectiveError := error;
      if Abs(error) < config.deadband {
        effectiveError := 0.0;
      }
      var pTerm := config.kp * effectiveError;
      var (dTerm, skipped) := DTerm(State(), filteredPv, input.dt);
      var ffTerm := config.feedforwardGain * input.ff;
      var candidate := iAcc;
      if config.ki != 0.0 {
        candidate := iAcc + effectiveError * input.dt;
      }
      ghost var t := TermsOf(State(), input);
      assert t == Terms(filteredPv, effectiveSpNow, error, pTerm, dTerm, skipped, ffTerm, candidate);
      var (newIAcc, iTerm) :=
        ApplyAntiWindup(config, iAcc, candidate, pTerm + dTerm + ffTerm, input.prevAppliedCv, input.dt);
      var u := pTerm + dTerm + ffTerm + iTerm;
      var saturated := config.limits.Below(u) || config.limits.Above(u);
      var clampedCv := config.limits.Clamp(u);
      var cv := ApplySlewRate(config, clampedCv, input.prevAppliedCv, input.dt);

      iAcc := newIAcc;
      lastPv := Some(filteredPv);
      lastError := Some(error);
      lastCv := Some(cv);
      effectiveSp := Some(effectiveSpNow);
      nextDTermSkipReason := None;

      result := StepResult(cv, u, pTerm, iTerm, dTerm, ffTerm, newIAcc, effectiveSpNow, saturated, skipped);
    }
  }
}
