/** What one step of the controller computes, told without the functions it is built from. */
module StepMeaning {
  import opened RealMath
  import opened PidCore

  /** The most a quantity limited to `rate` per second changes in one tick. */
  function PerTick(rate: real, dt: real): real {
    rate * dt
  }

  /** The CV of a step is the allowed value nearest to the sum of its terms; with a slew limit the actuator
      moves towards that value, from the CV applied before, by as much as the limit allows. */
  ghost predicate CvFollows(c: PidConfig, input: StepInput, r: StepResult, target: real) {
    && c.limits.Nearest(r.uUnclamped, target)
    && (c.slewRate.None? ==> r.cv == target)
    && (c.slewRate.Some? ==> MovedTowards(input.prevAppliedCv, target, PerTick(c.slewRate.value, input.dt), r.cv))
  }

  lemma CvIsNearest(s: PidState, input: StepInput)
    requires StepDefined(s, input)
    ensures var (t, r) := PidStep(s, input);
            && (exists target :: CvFollows(s.config, input, r, target))
            && r.uUnclamped == r.pTerm + r.iTerm + r.dTerm + r.ffTerm
            && (r.saturated <==> !s.config.limits.Contains(r.uUnclamped))
            && t.runtime.lastCv == Some(r.cv)
  {
    hide TermsOf, ApplyAntiWindup, ApplySlewRate, Limits.Nearest, MovedTowards, PerTick;
    var r := PidStep(s, input).1;
    var target := s.config.limits.Clamp(r.uUnclamped);
    ClampIsNearest(s.config.limits, r.uUnclamped);
    SlewMoves(s.config, target, input.prevAppliedCv, input.dt);
    assert CvFollows(s.config, input, r, target);
  }

  lemma StepKeepsConfig(s: PidState, input: StepInput)
    requires StepDefined(s, input)
    ensures PidStep(s, input).0.config == s.config
  {
    hide TermsOf, ApplyAntiWindup, ApplySlewRate;
  }

  lemma SlewMoves(c: PidConfig, target: real, prev: real, dt: real)
    requires dt > 0.0 && (c.slewRate.Some? ==> c.slewRate.value >= 0.0)
    ensures c.slewRate.None? ==> ApplySlewRate(c, target, prev, dt) == target
    ensures c.slewRate.Some? ==>
              MovedTowards(prev, target, PerTick(c.slewRate.value, dt), ApplySlewRate(c, target, prev, dt))
  {
  }

  /** The filter takes the first reading as it is, and after that keeps the part `alpha` of its distance from
      the reading. */
  lemma FilterMeaning(s: PidState, input: StepInput)
    requires StepDefined(s, input)
    ensures var t := PidStep(s, input).0;
            && t.runtime.lastPv.Some?
            && (s.runtime.lastPv.None? ==> t.runtime.lastPv.value == input.pv)
            && (s.runtime.lastPv.Some? ==>
                  t.runtime.lastPv.value - input.pv == s.config.pvFilterAlpha * (s.runtime.lastPv.value - input.pv))
  {
    hide DTerm, NextEffectiveSp, ApplyAntiWindup, ApplySlewRate;
  }

  /** The effective setpoint moves towards the setpoint as far as the ramp allows; without a ramp, and on
      the first step, it is the setpoint. The error is its distance from the filtered measurement. */
  lemma SetpointMeaning(s: PidState, input: StepInput)
    requires StepDefined(s, input)
    ensures var (t, r) := PidStep(s, input);
            && t.runtime.effectiveSp == Some(r.effectiveSp)
            && (s.config.setpointRamp.None? || s.runtime.effectiveSp.None? ==> r.effectiveSp == s.config.setpoint)
            && (s.config.setpointRamp.Some? && s.runtime.effectiveSp.Some? ==>
                  MovedTowards(s.runtime.effectiveSp.value, s.config.setpoint,
                               PerTick(s.config.setpointRamp.value, input.dt), r.effectiveSp))
            && t.runtime.lastPv.Some? && t.runtime.lastError == Some(r.effectiveSp - t.runtime.lastPv.value)
  {
    hide DTerm, FilteredPv, ApplyAntiWindup, ApplySlewRate;
    RampNotNegative(s, input.dt);
  }

  lemma RampNotNegative(s: PidState, dt: real)
    requires ValidConfig(s.config) && dt > 0.0
    ensures s.config.setpointRamp.Some? ==> PerTick(s.config.setpointRamp.value, dt) >= 0.0
  {
  }

  /** The derivative term opposes the measured rate of change, unless it is skipped; and the feed-forward
      term. A skip reported before is dealt with. */
  lemma RateMeaning(s: PidState, input: StepInput)
    requires StepDefined(s, input)
    ensures var (t, r) := PidStep(s, input);
            var skip := if s.nextDTermSkipReason.Some? then s.nextDTermSkipReason
                        else if s.runtime.lastPv.None? then Some(NoPvPrev) else None;
            && r.dTermSkipped == (if s.config.kd == 0.0 then None else skip)
            && (skip.Some? ==> r.dTerm == 0.0)
            && (skip.None? ==>
                  t.runtime.lastPv.Some?
                  && r.dTerm * input.dt == s.config.kd * (s.runtime.lastPv.value - t.runtime.lastPv.value))
            && r.ffTerm == s.config.feedforwardGain * input.ff
            && t.nextDTermSkipReason.None?
  {
    hide FilteredPv, NextEffectiveSp, ApplyAntiWindup, ApplySlewRate;
    if s.runtime.lastPv.Some? {
      RateTimesTime(s.config.kd, FilteredPv(s, input.pv) - s.runtime.lastPv.value, input.dt);
    }
  }

  lemma RateTimesTime(kd: real, change: real, dt: real)
    requires dt > 0.0
    ensures (-kd * (change / dt)) * dt == kd * -change
  {
    var q := change / dt;
    assert q * dt == change;
    assert (-kd * q) * dt == -kd * (q * dt);
  }

  /** The error that counts: nothing inside the deadband. */
  function CountedError(c: PidConfig, error: real): real {
    if -c.deadband < error < c.deadband then 0.0 else error
  }

  /** The parts of a step's result and new state that come straight from the terms. */
  lemma StepParts(s: PidState, input: StepInput)
    requires StepDefined(s, input)
    ensures var (next, r) := PidStep(s, input);
            var t := TermsOf(s, input);
            && next.runtime.lastError == Some(t.error) && next.runtime.lastPv == Some(t.filteredPv)
            && r.effectiveSp == t.effectiveSp && r.pTerm == t.p && r.pTerm + r.dTerm + r.ffTerm == t.Rest()
            && (next.runtime.iAcc, r.iTerm) == ApplyAntiWindup(s.config, s.runtime.iAcc, t.candidateIAcc, t.Rest(),
                                                               input.prevAppliedCv, input.dt)
            && r.iAcc == next.runtime.iAcc && r.uUnclamped == t.Rest() + r.iTerm
  {
    hide TermsOf, ApplyAntiWindup, ApplySlewRate;
  }

  lemma DeadbandTerms(s: PidState, input: StepInput)
    requires input.dt > 0.0
    ensures var t := TermsOf(s, input);
            var inside := Abs(t.error) < s.config.deadband;
            && t.p == (if inside then 0.0 else s.config.kp * t.error)
            && (s.config.ki != 0.0 ==>
                  t.candidateIAcc == if inside then s.runtime.iAcc else s.runtime.iAcc + t.error * input.dt)
            && t.error == t.effectiveSp - t.filteredPv
  {
    hide FilteredPv, NextEffectiveSp, DTerm;
  }

  lemma ClampBranch(c: PidConfig, iAcc: real, candidate: real, rest: real, prev: real, dt: real)
    requires dt > 0.0 && c.limits.Ordered() && c.ki != 0.0 && c.antiWindup == ClampIntegral
    ensures var (i, term) := ApplyAntiWindup(c, iAcc, candidate, rest, prev, dt);
            var u := rest + ITerm(c, candidate);
            && term == ITerm(c, i)
            && c.limits.Nearest(u, rest + term)
            && (c.limits.Contains(u) ==> i == candidate)
  {
    var term := c.limits.Shift(-rest).Clamp(ITerm(c, candidate));
    ShiftedClamp(c.limits, rest, ITerm(c, candidate));
    AccumulatorOf(c, Accumulator(c, term), term);
    AccumulatorOf(c, candidate, term);
    hide ITerm, Accumulator, Limits.Clamp, Limits.Nearest;
  }

  lemma BackBranch(c: PidConfig, iAcc: real, candidate: real, rest: real, prev: real, dt: real)
    requires dt > 0.0 && c.limits.Ordered() && CorrectionNeeded(c, candidate, rest) && TtDefined(c, dt)
    ensures var (i, term) := ApplyAntiWindup(c, iAcc, candidate, rest, prev, dt);
            var u := rest + ITerm(c, candidate);
            && term == ITerm(c, i)
            && (rest + term - u) * AntiWindupTt(c, dt) == (prev - u) * dt
  {
    hide AntiWindupTt, TtDefined;
    var u := rest + ITerm(c, candidate);
    var term := BackCalculated(c, ITerm(c, candidate), u, prev, dt);
    AccumulatorOf(c, Accumulator(c, term), term);
    FractionOfWay(prev - u, dt, AntiWindupTt(c, dt));
    hide ITerm, Accumulator;
  }

  /** Clamping a term into the limits less the rest is clamping the sum into the limits. */
  lemma ShiftedClamp(l: Limits, rest: real, term: real)
    requires l.Ordered()
    ensures l.Shift(-rest).Ordered()
    ensures rest + l.Shift(-rest).Clamp(term) == l.Clamp(rest + term)
    ensures l.Nearest(rest + term, l.Clamp(rest + term))
  {
    ClampIsNearest(l, rest + term);
    hide Limits.Nearest;
  }

  lemma AccumulatorOf(c: PidConfig, iAcc: real, iTerm: real)
    requires c.ki != 0.0
    ensures Accumulator(c, iTerm) == iAcc <==> iTerm == ITerm(c, iAcc)
  {
  }

  lemma FractionOfWay(x: real, dt: real, tt: real)
    requires tt != 0.0
    ensures (x * (dt / tt)) * tt == x * dt
  {
    var q := dt / tt;
    assert q * tt == dt;
    assert (x * q) * tt == x * (q * tt);
  }

  /** The accumulator after it has taken up the error that counts for the whole tick. */
  function TakenUp(c: PidConfig, iAcc: real, error: real, dt: real): real {
    iAcc + CountedError(c, error) * dt
  }

  /** The sum of a step's terms with the contribution of the accumulator `i`. */
  function SumWith(c: PidConfig, r: StepResult, i: real): real {
    r.pTerm + r.dTerm + r.ffTerm + c.ki * i
  }

  /** The integral. The accumulator first takes up the error for the length of the tick. If the sum of the
      terms is then within the limits, or nothing is done against windup, it stays so. Otherwise the clamp
      strategy brings the sum to the nearest limit, and back-calculation moves it by the fraction `dt / tt`
      of the way to the CV that was applied. The stored accumulator is always the one whose contribution
      was used. */
  lemma IntegralMeaning(s: PidState, input: StepInput)
    requires StepDefined(s, input)
    ensures var (t, r) := PidStep(s, input);
            var c := s.config;
            t.runtime.lastError.Some? &&
            var e := CountedError(c, t.runtime.lastError.value);
            var i := TakenUp(c, s.runtime.iAcc, t.runtime.lastError.value, input.dt);
            var u := SumWith(c, r, i);
            && r.pTerm == c.kp * e
            && t.runtime.iAcc == r.iAcc
            && r.iTerm == c.ki * r.iAcc
            && if c.ki == 0.0 then r.iAcc == s.runtime.iAcc
               else if c.antiWindup == NoAntiWindup || c.limits.Contains(u) then r.iAcc == i
               else if c.antiWindup == ClampIntegral then c.limits.Nearest(u, r.uUnclamped)
               else TtDefined(c, input.dt)
                    && (r.uUnclamped - u) * AntiWindupTt(c, input.dt) == (input.prevAppliedCv - u) * input.dt
  {
    hide TermsOf, PidStep, ApplyAntiWindup, AntiWindupTt, TtDefined, ITerm, Limits.Nearest, Limits.Contains;
    hide StepDefined, CountedError, TakenUp, SumWith, CorrectionNeeded;
    DefinedTracking(s, input);
    StepParts(s, input);
    CountedTerms(s, input);
    var c, t := s.config, TermsOf(s, input);
    AntiWindupMeaning(c, s.runtime.iAcc, t.candidateIAcc, t.Rest(), input.prevAppliedCv, input.dt);
    var i := TakenUp(c, s.runtime.iAcc, t.error, input.dt);
    ContributionOf(c, PidStep(s, input).1.iAcc);
    SumWithIs(c, PidStep(s, input).1, i);
  }

  lemma DefinedTracking(s: PidState, input: StepInput)
    requires StepDefined(s, input)
    ensures s.config.limits.Ordered() && input.dt > 0.0
    ensures var t := TermsOf(s, input);
            CorrectionNeeded(s.config, t.candidateIAcc, t.Rest()) ==> TtDefined(s.config, input.dt)
  {
    hide TermsOf, CorrectionNeeded, TtDefined;
  }

  lemma CountedTerms(s: PidState, input: StepInput)
    requires input.dt > 0.0
    ensures var t := TermsOf(s, input);
            && t.p == s.config.kp * CountedError(s.config, t.error)
            && (s.config.ki != 0.0 ==>
                  t.candidateIAcc == TakenUp(s.config, s.runtime.iAcc, t.error, input.dt))
  {
    DeadbandTerms(s, input);
    hide TermsOf;
  }

  lemma SumWithIs(c: PidConfig, r: StepResult, i: real)
    ensures SumWith(c, r, i) == (r.pTerm + r.dTerm + r.ffTerm) + ITerm(c, i)
  {
  }

  lemma SumIsOutput(c: PidConfig, r: StepResult)
    requires r.iTerm == c.ki * r.iAcc && r.uUnclamped == r.pTerm + r.iTerm + r.dTerm + r.ffTerm
    ensures SumWith(c, r, r.iAcc) == r.uUnclamped
  {
  }

  lemma ContributionOf(c: PidConfig, iAcc: real)
    ensures ITerm(c, iAcc) == c.ki * iAcc
  {
  }

  lemma AntiWindupMeaning(c: PidConfig, iAcc: real, candidate: real, rest: real, prev: real, dt: real)
    requires dt > 0.0 && c.limits.Ordered()
    requires CorrectionNeeded(c, candidate, rest) ==> TtDefined(c, dt)
    ensures var (i, term) := ApplyAntiWindup(c, iAcc, candidate, rest, prev, dt);
            var u := rest + ITerm(c, candidate);
            && term == ITerm(c, i)
            && if c.ki == 0.0 then i == iAcc
               else if c.antiWindup == NoAntiWindup || c.limits.Contains(u) then i == candidate
               else if c.antiWindup == ClampIntegral then c.limits.Nearest(u, rest + term)
               else TtDefined(c, dt) && (rest + term - u) * AntiWindupTt(c, dt) == (prev - u) * dt
  {
    if c.ki == 0.0 {
    } else if c.antiWindup == ClampIntegral {
      hide ITerm;
      ClampBranch(c, iAcc, candidate, rest, prev, dt);
    } else if CorrectionNeeded(c, candidate, rest) {
      hide ITerm, TtDefined, AntiWindupTt, ApplyAntiWindup;
      BackBranch(c, iAcc, candidate, rest, prev, dt);
    }
  }
}
