/** Back-calculation bounds windup: how far the unclamped output can run past the output limits
    while the error keeps pushing it there, and how it comes back. */
module Windup {
  import opened RealMath
  import opened PidCore
  import opened Session
  import opened SessionRuns

  // ---------- one correction, on plain numbers ----------

  /** `a` is `dt / tt`, `push` what the error adds per tick. The correction keeps the excess below
      its old value or the level at which push and correction balance. */
  lemma CorrectedExcess(x: real, push: real, prevExcess: real, a: real, level: real)
    requires 0.0 < a <= 1.0 && prevExcess <= 0.0 && a * level == (1.0 - a) * push
    ensures (x + push) + (prevExcess - (x + push)) * a <= Max(x, level)
  {
    var m := Max(x, level);
    MulNonNegative(1.0 - a, m - x);
    MulNonNegative(a, -prevExcess);
    MulNonNegative(a, m - level);
  }

  lemma BalanceLevel(ki: real, e: real, dt: real, tt: real)
    requires 0.0 < dt <= tt
    ensures 0.0 < dt / tt <= 1.0
    ensures (dt / tt) * ((tt - dt) * (ki * e)) == (1.0 - dt / tt) * (ki * (e * dt))
  {
    DivBetween(dt, tt);
    var a := dt / tt;
    assert a * tt == dt;
    assert a * ((tt - dt) * (ki * e)) == (a * tt - a * dt) * (ki * e);
    assert (1.0 - a) * (ki * (e * dt)) == (dt - a * dt) * (ki * e);
  }

  // ---------- one tick ----------

  /** The tracking time the correction uses is a number at least as long as the tick. */
  predicate TracksSlowly(c: PidConfig, dt: real) {
    && dt > 0.0 && c.ki > 0.0 && c.antiWindup == BackCalculation && c.limits.Ordered()
    && TtDefined(c, dt)
    && (c.antiWindupTt.Some? ==> dt <= c.antiWindupTt.value)
  }

  function Level(c: PidConfig, e: real, dt: real): real
    requires TracksSlowly(c, dt)
  {
    (AntiWindupTt(c, dt) - dt) * (c.ki * e)
  }

  /** How much of the output `rest + ki * iAcc` lies beyond `edge`. */
  function Excess(c: PidConfig, iAcc: real, rest: real, edge: real): real {
    rest + ITerm(c, iAcc) - edge
  }

  lemma LevelNonNegative(c: PidConfig, e: real, dt: real)
    requires TracksSlowly(c, dt)
    ensures e >= 0.0 ==> Level(c, e, dt) >= 0.0
    ensures e <= 0.0 ==> Level(c, e, dt) <= 0.0
  {
    var gap := AntiWindupTt(c, dt) - dt;
    if e >= 0.0 {
      MulNonNegative(c.ki, e);
      MulNonNegative(gap, c.ki * e);
    } else {
      MulNonNegative(c.ki, -e);
      MulNonNegative(gap, c.ki * -e);
      assert gap * (c.ki * -e) == -(gap * (c.ki * e));
    }
  }

  /** The candidate's excess: the old one plus what the error adds in one tick. */
  lemma CandidateExcess(c: PidConfig, iAcc: real, e: real, rest: real, dt: real, edge: real)
    requires c.ki != 0.0
    ensures Excess(c, CandidateIAcc(c, iAcc, e, dt), rest, edge) == Excess(c, iAcc, rest, edge) + c.ki * (e * dt)
  {
  }

  /** The excess after a correction, from that of the candidate. */
  lemma Corrected(c: PidConfig, iAcc: real, candidate: real, rest: real, prev: real, dt: real, edge: real)
    requires TracksSlowly(c, dt) && !c.limits.Contains(rest + ITerm(c, candidate))
    ensures var i := ApplyAntiWindup(c, iAcc, candidate, rest, prev, dt).0;
            var x := Excess(c, candidate, rest, edge);
            Excess(c, i, rest, edge) == x + ((prev - edge) - x) * (dt / AntiWindupTt(c, dt))
  {
  }

  lemma Uncorrected(c: PidConfig, iAcc: real, e: real, rest: real, prev: real, dt: real)
    requires TracksSlowly(c, dt)
    requires c.limits.Contains(rest + ITerm(c, CandidateIAcc(c, iAcc, e, dt)))
    ensures ApplyAntiWindup(c, iAcc, CandidateIAcc(c, iAcc, e, dt), rest, prev, dt).0 == CandidateIAcc(c, iAcc, e, dt)
  {
  }

  /** One tick that pushes upwards: the excess over the upper limit stays below its old value or the
      balance level, whatever in-range CV was applied before. */
  lemma UpperExcessStep(c: PidConfig, iAcc: real, e: real, rest: real, prev: real, dt: real)
    requires TracksSlowly(c, dt) && e >= 0.0
    requires c.limits.hi.Some? && c.limits.Contains(prev)
    ensures var i := ApplyAntiWindup(c, iAcc, CandidateIAcc(c, iAcc, e, dt), rest, prev, dt).0;
            Excess(c, i, rest, c.limits.hi.value) <= Max(Excess(c, iAcc, rest, c.limits.hi.value), Level(c, e, dt))
  {
    hide ApplyAntiWindup, AntiWindupTt, ITerm, Level, CandidateIAcc;
    var hi := c.limits.hi.value;
    var candidate := CandidateIAcc(c, iAcc, e, dt);
    LevelNonNegative(c, e, dt);
    if c.limits.Contains(rest + ITerm(c, candidate)) {
      Uncorrected(c, iAcc, e, rest, prev, dt);
    } else {
      Corrected(c, iAcc, candidate, rest, prev, dt, hi);
      UpperCorrection(c, iAcc, e, rest, dt, prev - hi);
    }
  }

  lemma UpperCorrection(c: PidConfig, iAcc: real, e: real, rest: real, dt: real, prevExcess: real)
    requires TracksSlowly(c, dt) && c.limits.hi.Some? && prevExcess <= 0.0
    ensures var hi := c.limits.hi.value;
            var x := Excess(c, CandidateIAcc(c, iAcc, e, dt), rest, hi);
            x + (prevExcess - x) * (dt / AntiWindupTt(c, dt)) <= Max(Excess(c, iAcc, rest, hi), Level(c, e, dt))
  {
    var hi, tt := c.limits.hi.value, AntiWindupTt(c, dt);
    CandidateExcess(c, iAcc, e, rest, dt, hi);
    BalanceLevel(c.ki, e, dt, tt);
    CorrectedExcess(Excess(c, iAcc, rest, hi), c.ki * (e * dt), prevExcess, dt / tt, Level(c, e, dt));
  }

  /** The mirror image: pushing downwards past the lower limit. */
  lemma LowerExcessStep(c: PidConfig, iAcc: real, e: real, rest: real, prev: real, dt: real)
    requires TracksSlowly(c, dt) && e <= 0.0
    requires c.limits.lo.Some? && c.limits.Contains(prev)
    ensures var i := ApplyAntiWindup(c, iAcc, CandidateIAcc(c, iAcc, e, dt), rest, prev, dt).0;
            Excess(c, i, rest, c.limits.lo.value) >= Min(Excess(c, iAcc, rest, c.limits.lo.value), Level(c, e, dt))
  {
    hide ApplyAntiWindup, AntiWindupTt, ITerm, Level, CandidateIAcc;
    var lo := c.limits.lo.value;
    var candidate := CandidateIAcc(c, iAcc, e, dt);
    LevelNonNegative(c, e, dt);
    if c.limits.Contains(rest + ITerm(c, candidate)) {
      Uncorrected(c, iAcc, e, rest, prev, dt);
    } else {
      Corrected(c, iAcc, candidate, rest, prev, dt, lo);
      LowerCorrection(c, iAcc, e, rest, dt, prev - lo);
    }
  }

  lemma LowerCorrection(c: PidConfig, iAcc: real, e: real, rest: real, dt: real, prevExcess: real)
    requires TracksSlowly(c, dt) && c.limits.lo.Some? && prevExcess >= 0.0
    ensures var lo := c.limits.lo.value;
            var x := Excess(c, CandidateIAcc(c, iAcc, e, dt), rest, lo);
            x + (prevExcess - x) * (dt / AntiWindupTt(c, dt)) >= Min(Excess(c, iAcc, rest, lo), Level(c, e, dt))
  {
    var lo, tt := c.limits.lo.value, AntiWindupTt(c, dt);
    var a, x, push, level := dt / tt, Excess(c, iAcc, rest, lo), c.ki * (e * dt), Level(c, e, dt);
    CandidateExcess(c, iAcc, e, rest, dt, lo);
    BalanceLevel(c.ki, e, dt, tt);
    CorrectedExcess(-x, -push, -prevExcess, a, -level);
  }

  // ---------- steady runs ----------

  /** The measurement repeats the last filtered value and the ramp has arrived, so that the error is
      the constant `e` and no derivative acts. */
  ghost predicate Steady(s: PidState, pv: real, e: real) {
    && s.runtime.lastPv == Some(pv)
    && (s.config.setpointRamp.Some? && s.runtime.effectiveSp.Some? ==> s.runtime.effectiveSp.value == s.config.setpoint)
    && EffectiveError(s.config, s.config.setpoint - pv) == e
  }

  function SteadyRest(c: PidConfig, e: real, ff: real): real {
    c.kp * e + c.feedforwardGain * ff
  }

  lemma SteadyTerms(s: PidState, input: StepInput, e: real)
    requires ValidConfig(s.config) && input.dt > 0.0 && s.config.ki != 0.0 && Steady(s, input.pv, e)
    ensures var t := TermsOf(s, input);
            && t.filteredPv == input.pv && t.effectiveSp == s.config.setpoint
            && t.Rest() == SteadyRest(s.config, e, input.ff)
            && t.candidateIAcc == CandidateIAcc(s.config, s.runtime.iAcc, e, input.dt)
  {
    var alpha := s.config.pvFilterAlpha;
    assert (1.0 - alpha) * input.pv + alpha * input.pv == input.pv;
    assert FilteredPv(s, input.pv) == input.pv;
    if s.config.setpointRamp.Some? {
      MulNonNegative(s.config.setpointRamp.value, input.dt);
    }
    assert NextEffectiveSp(s, input.dt) == s.config.setpoint;
    var d := DTerm(s, input.pv, input.dt);
    assert d.0 == 0.0 by {
      assert (input.pv - input.pv) / input.dt == 0.0;
    }
  }

  /** Every event is a tick with the same measurement, feed-forward and duration; CV writes may fail. */
  ghost predicate SteadyTicks(es: seq<Event>, pv: real, dt: real, ff: real) {
    forall i :: 0 <= i < |es| ==> es[i].Tick? && es[i].pv == pv && es[i].dt == dt && es[i].ff == ff
  }

  function StateExcess(s: SessionState, e: real, ff: real, edge: real): real {
    Excess(s.ctrl.config, s.ctrl.runtime.iAcc, SteadyRest(s.ctrl.config, e, ff), edge)
  }

  /** A steady tick runs the anti-windup rule on the steady terms and stays steady. */
  lemma SteadyStep(s: SessionState, tick: Event, e: real)
    requires tick.Tick? && Defined(s, tick) && s.ctrl.config.ki != 0.0 && Steady(s.ctrl, tick.pv, e)
    ensures var c, rest := s.ctrl.config, SteadyRest(s.ctrl.config, e, tick.ff);
            CorrectionNeeded(c, CandidateIAcc(c, s.ctrl.runtime.iAcc, e, tick.dt), rest) ==> TtDefined(c, tick.dt)
    ensures Exec(s, tick).ctrl.config == s.ctrl.config && Steady(Exec(s, tick).ctrl, tick.pv, e)
    ensures (Exec(s, tick).ctrl.runtime.iAcc, Processed(s, tick.pv, tick.dt, tick.ff, tick.accepted).1.iTerm)
            == ApplyAntiWindup(s.ctrl.config, s.ctrl.runtime.iAcc,
                               CandidateIAcc(s.ctrl.config, s.ctrl.runtime.iAcc, e, tick.dt),
                               SteadyRest(s.ctrl.config, e, tick.ff), Applied(s), tick.dt)
    ensures var r := Processed(s, tick.pv, tick.dt, tick.ff, tick.accepted).1;
            && r.uUnclamped == SteadyRest(s.ctrl.config, e, tick.ff) + r.iTerm
            && r.cv == ApplySlewRate(s.ctrl.config, s.ctrl.config.limits.Clamp(r.uUnclamped), Applied(s), tick.dt)
  {
    hide TermsOf, ApplyAntiWindup, ApplySlewRate, SteadyRest, EffectiveError, CandidateIAcc;
    SteadyTerms(s.ctrl, InputOf(s, tick.pv, tick.dt, tick.ff), e);
  }

  lemma IntegralTerm(c: PidConfig, iAcc: real, candidate: real, rest: real, prev: real, dt: real)
    requires dt > 0.0 && c.limits.Ordered() && c.ki != 0.0
    requires CorrectionNeeded(c, candidate, rest) ==> TtDefined(c, dt)
    ensures var r := ApplyAntiWindup(c, iAcc, candidate, rest, prev, dt); r.1 == ITerm(c, r.0)
  {
  }

  /** The result's unclamped output and the excess of the new state are the same thing. */
  lemma ResultExcess(s: SessionState, tick: Event, e: real, edge: real)
    requires tick.Tick? && Defined(s, tick) && s.ctrl.config.ki != 0.0 && Steady(s.ctrl, tick.pv, e)
    ensures Processed(s, tick.pv, tick.dt, tick.ff, tick.accepted).1.uUnclamped - edge
            == StateExcess(Exec(s, tick), e, tick.ff, edge)
  {
    hide TermsOf, ApplyAntiWindup, ApplySlewRate, SteadyRest, EffectiveError, CandidateIAcc;
    SteadyStep(s, tick, e);
    IntegralTerm(s.ctrl.config, s.ctrl.runtime.iAcc, CandidateIAcc(s.ctrl.config, s.ctrl.runtime.iAcc, e, tick.dt),
                 SteadyRest(s.ctrl.config, e, tick.ff), Applied(s), tick.dt);
  }

  /** Windup is bounded for ever: however long a constant error keeps pushing upwards, with any slew
      limit and any pattern of failed CV writes, the unclamped output never exceeds the upper limit by
      more than it did at the start or `(tt - dt) * ki * e`, whichever is larger. */
  lemma {:induction false} WindupBounded(s: SessionState, es: seq<Event>, pv: real, dt: real, ff: real, e: real)
    requires RunDefined(s, es) && SteadyTicks(es, pv, dt, ff) && Steady(s.ctrl, pv, e) && e >= 0.0
    requires ValidConfig(s.ctrl.config) && TracksSlowly(s.ctrl.config, dt)
    requires s.ctrl.config.limits.hi.Some? && s.ctrl.config.limits.Contains(Applied(s))
    ensures var hi := s.ctrl.config.limits.hi.value;
            var bound := Max(StateExcess(s, e, ff, hi), Level(s.ctrl.config, e, dt));
            && StateExcess(Final(s, es), e, ff, hi) <= bound
            && forall r :: r in Results(s, es) ==> r.uUnclamped - hi <= bound
    decreases es
  {
    hide TermsOf, ApplyAntiWindup, ApplySlewRate, SteadyRest, EffectiveError, Level, Excess, ITerm, CandidateIAcc;
    if es != [] {
      var tick := es[0];
      var hi := s.ctrl.config.limits.hi.value;
      SteadyStep(s, tick, e);
      ResultExcess(s, tick, e, hi);
      UpperExcessStep(s.ctrl.config, s.ctrl.runtime.iAcc, e, SteadyRest(s.ctrl.config, e, ff), Applied(s), dt);
      StepMovesCv(s.ctrl, InputOf(s, pv, dt, ff));
      WindupBounded(Exec(s, tick), es[1..], pv, dt, ff, e);
    }
  }

  /** The same below the lower limit. */
  lemma {:induction false} WinddownBounded(s: SessionState, es: seq<Event>, pv: real, dt: real, ff: real, e: real)
    requires RunDefined(s, es) && SteadyTicks(es, pv, dt, ff) && Steady(s.ctrl, pv, e) && e <= 0.0
    requires ValidConfig(s.ctrl.config) && TracksSlowly(s.ctrl.config, dt)
    requires s.ctrl.config.limits.lo.Some? && s.ctrl.config.limits.Contains(Applied(s))
    ensures var lo := s.ctrl.config.limits.lo.value;
            var bound := Min(StateExcess(s, e, ff, lo), Level(s.ctrl.config, e, dt));
            && StateExcess(Final(s, es), e, ff, lo) >= bound
            && forall r :: r in Results(s, es) ==> r.uUnclamped - lo >= bound
    decreases es
  {
    hide TermsOf, ApplyAntiWindup, ApplySlewRate, SteadyRest, EffectiveError, Level, Excess, ITerm, CandidateIAcc;
    if es != [] {
      var tick := es[0];
      var lo := s.ctrl.config.limits.lo.value;
      SteadyStep(s, tick, e);
      ResultExcess(s, tick, e, lo);
      LowerExcessStep(s.ctrl.config, s.ctrl.runtime.iAcc, e, SteadyRest(s.ctrl.config, e, ff), Applied(s), dt);
      StepMovesCv(s.ctrl, InputOf(s, pv, dt, ff));
      WinddownBounded(Exec(s, tick), es[1..], pv, dt, ff, e);
    }
  }

  // ---------- unwinding ----------

  ghost predicate AllAccepted(es: seq<Event>) {
    forall i :: 0 <= i < |es| && es[i].Tick? ==> es[i].accepted
  }

  function DecayFactor(c: PidConfig, dt: real): real
    requires TracksSlowly(c, dt)
  {
    1.0 - Fraction(c, dt)
  }

  /** The share of the overrun that one correction takes away. */
  function Fraction(c: PidConfig, dt: real): real
    requires TracksSlowly(c, dt)
  {
    dt / AntiWindupTt(c, dt)
  }

  /** From `x` towards `y` by the share `a`. */
  function Pulled(x: real, y: real, a: real): real {
    x + (y - x) * a
  }

  lemma CorrectedBy(c: PidConfig, iAcc: real, candidate: real, rest: real, prev: real, dt: real, edge: real)
    requires TracksSlowly(c, dt) && !c.limits.Contains(rest + ITerm(c, candidate))
    ensures var i := ApplyAntiWindup(c, iAcc, candidate, rest, prev, dt).0;
            Excess(c, i, rest, edge) == Pulled(Excess(c, candidate, rest, edge), prev - edge, Fraction(c, dt))
  {
    hide ApplyAntiWindup, AntiWindupTt, ITerm;
    Corrected(c, iAcc, candidate, rest, prev, dt, edge);
  }

  predicate HasEdge(c: PidConfig, up: bool) {
    if up then c.limits.hi.Some? else c.limits.lo.Some?
  }

  /** How far `u` lies beyond the upper limit, or below the lower one; negative on the inner side. */
  function Past(c: PidConfig, up: bool, u: real): real
    requires HasEdge(c, up)
  {
    if up then u - c.limits.hi.value else c.limits.lo.value - u
  }

  /** The same of the output `rest + ki * iAcc`. */
  function Overrun(c: PidConfig, up: bool, iAcc: real, rest: real): real
    requires HasEdge(c, up)
  {
    if up then Excess(c, iAcc, rest, c.limits.hi.value) else -Excess(c, iAcc, rest, c.limits.lo.value)
  }

  /** One tick with no effective error, the output past a limit and any CV in range applied before: the
      new overrun is the weighted mean of the old one and of where the actuator was. */
  lemma DecayStep(c: PidConfig, up: bool, iAcc: real, rest: real, prev: real, dt: real)
    requires TracksSlowly(c, dt) && HasEdge(c, up) && c.limits.Contains(prev) && Overrun(c, up, iAcc, rest) > 0.0
    ensures var i := ApplyAntiWindup(c, iAcc, CandidateIAcc(c, iAcc, 0.0, dt), rest, prev, dt).0;
            Overrun(c, up, i, rest) == Mixed(DecayFactor(c, dt), Overrun(c, up, iAcc, rest), Past(c, up, prev))
  {
    var edge := if up then c.limits.hi.value else c.limits.lo.value;
    IdleCandidate(c, iAcc, dt);
    CorrectedBy(c, iAcc, iAcc, rest, prev, dt, edge);
    var x, y, a := Excess(c, iAcc, rest, edge), prev - edge, Fraction(c, dt);
    if up {
      WeightedMean(x, y, a);
    } else {
      Mirrored(x, y, a);
      WeightedMean(-x, -y, a);
    }
    hide Fraction, Pulled, Mixed, ITerm, ApplyAntiWindup, CandidateIAcc, TracksSlowly;
  }

  lemma IdleCandidate(c: PidConfig, iAcc: real, dt: real)
    ensures CandidateIAcc(c, iAcc, 0.0, dt) == iAcc
  {
  }

  /** The mean of `x` and `y`, with the weight `f` on `x`. */
  function Mixed(f: real, x: real, y: real): real {
    f * x + (1.0 - f) * y
  }

  lemma WeightedMean(x: real, y: real, a: real)
    ensures Pulled(x, y, a) == Mixed(1.0 - a, x, y)
  {
  }

  lemma Mirrored(x: real, y: real, a: real)
    ensures -Pulled(x, y, a) == Pulled(-x, -y, a)
  {
  }

  lemma MixedBounds(f: real, x: real, y: real)
    requires 0.0 <= f <= 1.0 && y <= 0.0 <= x
    ensures y <= Mixed(f, x, y) <= f * x
  {
    MulNonNegative(1.0 - f, -y);
    MulNonNegative(f, x - y);
    assert (1.0 - f) * -y == -((1.0 - f) * y);
    assert f * (x - y) == f * x - f * y;
    assert (1.0 - f) * y == y - f * y;
  }

  lemma MixedWithNothing(f: real, x: real)
    ensures Mixed(f, x, 0.0) == f * x
  {
  }

  /** An output in range is left alone. */
  lemma IdleStep(c: PidConfig, iAcc: real, rest: real, prev: real, dt: real)
    requires TracksSlowly(c, dt) && c.limits.Contains(rest + ITerm(c, iAcc))
    ensures ApplyAntiWindup(c, iAcc, CandidateIAcc(c, iAcc, 0.0, dt), rest, prev, dt).0 == iAcc
  {
    assert CandidateIAcc(c, iAcc, 0.0, dt) == iAcc;
    Uncorrected(c, iAcc, 0.0, rest, prev, dt);
  }

  lemma TtCoversTick(c: PidConfig, dt: real)
    requires TracksSlowly(c, dt)
    ensures dt <= AntiWindupTt(c, dt)
  {
  }

  lemma FactorBounds(c: PidConfig, dt: real)
    requires TracksSlowly(c, dt)
    ensures 0.0 <= DecayFactor(c, dt) < 1.0
  {
    TtCoversTick(c, dt);
    DivBetween(dt, AntiWindupTt(c, dt));
  }

  /** The overrun of the session's state. */
  function StateOverrun(s: SessionState, up: bool, ff: real): real
    requires HasEdge(s.ctrl.config, up)
  {
    Overrun(s.ctrl.config, up, s.ctrl.runtime.iAcc, SteadyRest(s.ctrl.config, 0.0, ff))
  }

  /** What a tick with no effective error does to the overrun: nothing when the output is in range, and
      otherwise the weighted mean with the place the actuator was. */
  lemma UnwindTick(s: SessionState, tick: Event, up: bool)
    requires tick.Tick? && Defined(s, tick) && Steady(s.ctrl, tick.pv, 0.0)
    requires TracksSlowly(s.ctrl.config, tick.dt) && HasEdge(s.ctrl.config, up)
    requires s.ctrl.config.limits.Contains(Applied(s))
    ensures var t, x, f := Exec(s, tick), StateOverrun(s, up, tick.ff), DecayFactor(s.ctrl.config, tick.dt);
            && t.ctrl.config == s.ctrl.config && Steady(t.ctrl, tick.pv, 0.0)
            && (x > 0.0 ==> StateOverrun(t, up, tick.ff) == Mixed(f, x, Past(s.ctrl.config, up, Applied(s))))
            && (OutputInRange(s, tick.ff) ==> StateOverrun(t, up, tick.ff) == x && OutputInRange(t, tick.ff))
  {
    hide TermsOf, ApplyAntiWindup, SteadyRest, EffectiveError, ITerm, CandidateIAcc, DecayFactor, Overrun, Past, Mixed;
    var c, rest := s.ctrl.config, SteadyRest(s.ctrl.config, 0.0, tick.ff);
    SteadyStep(s, tick, 0.0);
    if StateOverrun(s, up, tick.ff) > 0.0 {
      DecayStep(c, up, s.ctrl.runtime.iAcc, rest, Applied(s), tick.dt);
    }
    if OutputInRange(s, tick.ff) {
      IdleStep(c, s.ctrl.runtime.iAcc, rest, Applied(s), tick.dt);
    }
  }

  predicate OutputInRange(s: SessionState, ff: real) {
    s.ctrl.config.limits.Contains(SteadyRest(s.ctrl.config, 0.0, ff) + ITerm(s.ctrl.config, s.ctrl.runtime.iAcc))
  }

  /** With the CV written and no slew limit, the actuator follows to the edge the output is past. */
  lemma ActuatorAtEdge(s: SessionState, tick: Event, up: bool)
    requires tick.Tick? && tick.accepted && Defined(s, tick) && Steady(s.ctrl, tick.pv, 0.0)
    requires s.ctrl.config.ki != 0.0 && s.ctrl.config.slewRate.None? && HasEdge(s.ctrl.config, up)
    requires StateOverrun(Exec(s, tick), up, tick.ff) >= 0.0
    ensures Past(s.ctrl.config, up, Applied(Exec(s, tick))) == 0.0
  {
    hide TermsOf, ApplyAntiWindup, SteadyRest, EffectiveError, ITerm, CandidateIAcc;
    SteadyStep(s, tick, 0.0);
    ResultExcess(s, tick, 0.0, if up then s.ctrl.config.limits.hi.value else s.ctrl.config.limits.lo.value);
  }

  /** Unwinding is geometric: with no effective error, no slew limit and every write accepted, an output
      wound up past a limit at which the actuator sits comes back by exactly `1 - dt / tt` per tick. */
  lemma {:induction false} WindupDecays(s: SessionState, es: seq<Event>, pv: real, dt: real, ff: real, up: bool)
    requires RunDefined(s, es) && SteadyTicks(es, pv, dt, ff) && Steady(s.ctrl, pv, 0.0) && AllAccepted(es)
    requires ValidConfig(s.ctrl.config) && TracksSlowly(s.ctrl.config, dt) && s.ctrl.config.slewRate.None?
    requires HasEdge(s.ctrl.config, up) && Past(s.ctrl.config, up, Applied(s)) == 0.0
    requires StateOverrun(s, up, ff) >= 0.0
    ensures Final(s, es).ctrl.config == s.ctrl.config && Past(s.ctrl.config, up, Applied(Final(s, es))) == 0.0
    ensures StateOverrun(Final(s, es), up, ff)
            == Pow(DecayFactor(s.ctrl.config, dt), |es|) * StateOverrun(s, up, ff)
    decreases es
  {
    hide Exec, Defined, Steady, StateOverrun, DecayFactor, Pow, Applied, Past;
    PowZero(DecayFactor(s.ctrl.config, dt), StateOverrun(s, up, ff));
    if es != [] {
      GeometricTick(s, es[0], up);
      WindupDecays(Exec(s, es[0]), es[1..], pv, dt, ff, up);
      PowStep(DecayFactor(s.ctrl.config, dt), |es| - 1, StateOverrun(s, up, ff));
    }
  }

  lemma GeometricTick(s: SessionState, tick: Event, up: bool)
    requires tick.Tick? && tick.accepted && Defined(s, tick) && Steady(s.ctrl, tick.pv, 0.0)
    requires ValidConfig(s.ctrl.config) && TracksSlowly(s.ctrl.config, tick.dt) && s.ctrl.config.slewRate.None?
    requires HasEdge(s.ctrl.config, up) && Past(s.ctrl.config, up, Applied(s)) == 0.0
    requires StateOverrun(s, up, tick.ff) >= 0.0
    ensures var t := Exec(s, tick);
            && t.ctrl.config == s.ctrl.config && Steady(t.ctrl, tick.pv, 0.0)
            && StateOverrun(t, up, tick.ff) == DecayFactor(s.ctrl.config, tick.dt) * StateOverrun(s, up, tick.ff)
            && StateOverrun(t, up, tick.ff) >= 0.0
            && Past(s.ctrl.config, up, Applied(t)) == 0.0
  {
    EdgeIsInRange(s, up, tick.ff);
    OnEdgeIsInRange(s.ctrl.config, up, Applied(s));
    UnwindTick(s, tick, up);
    FactorBounds(s.ctrl.config, tick.dt);
    hide Exec, Defined, Steady, StateOverrun, DecayFactor, OutputInRange, Past, TracksSlowly, Mixed;
    MixedBounds(DecayFactor(s.ctrl.config, tick.dt), StateOverrun(s, up, tick.ff), 0.0);
    MixedWithNothing(DecayFactor(s.ctrl.config, tick.dt), StateOverrun(s, up, tick.ff));
    ActuatorAtEdge(s, tick, up);
  }

  lemma EdgeIsInRange(s: SessionState, up: bool, ff: real)
    requires s.ctrl.config.limits.Ordered() && HasEdge(s.ctrl.config, up)
    ensures StateOverrun(s, up, ff) == 0.0 ==> OutputInRange(s, ff)
  {
    hide ITerm, SteadyRest;
  }

  lemma OnEdgeIsInRange(c: PidConfig, up: bool, u: real)
    requires c.limits.Ordered() && HasEdge(c, up)
    ensures Past(c, up, u) == 0.0 ==> c.limits.Contains(u)
    ensures c.limits.Contains(u) ==> Past(c, up, u) <= 0.0
  {
  }

  /** In general - any CV in range applied at the start, any slew limit, any failed writes - the overrun
      falls at least that fast, and once the output is back in range it stays there: it never swings past
      the other limit. */
  lemma {:induction false} WindupFades(s: SessionState, es: seq<Event>, pv: real, dt: real, ff: real, up: bool)
    requires RunDefined(s, es) && SteadyTicks(es, pv, dt, ff) && Steady(s.ctrl, pv, 0.0)
    requires ValidConfig(s.ctrl.config) && TracksSlowly(s.ctrl.config, dt)
    requires HasEdge(s.ctrl.config, up) && s.ctrl.config.limits.Contains(Applied(s))
    requires OutputInRange(s, ff) || StateOverrun(s, up, ff) > 0.0
    ensures Final(s, es).ctrl.config == s.ctrl.config
    ensures OutputInRange(s, ff) ==> OutputInRange(Final(s, es), ff)
    ensures OutputInRange(Final(s, es), ff)
            || 0.0 < StateOverrun(Final(s, es), up, ff)
                   <= Pow(DecayFactor(s.ctrl.config, dt), |es|) * StateOverrun(s, up, ff)
    decreases es
  {
    hide Exec, Defined, Steady, StateOverrun, OutputInRange, DecayFactor, Pow, Applied, Past;
    PowZero(DecayFactor(s.ctrl.config, dt), StateOverrun(s, up, ff));
    if es != [] {
      FadingTick(s, es[0], up);
      WindupFades(Exec(s, es[0]), es[1..], pv, dt, ff, up);
      var f, x := DecayFactor(s.ctrl.config, dt), StateOverrun(s, up, ff);
      PowStep(f, |es| - 1, x);
      FactorBounds(s.ctrl.config, dt);
      if !OutputInRange(Exec(s, es[0]), ff) {
        PowOrder(f, |es| - 1, StateOverrun(Exec(s, es[0]), up, ff), f * x);
      }
    }
  }

  lemma FadingTick(s: SessionState, tick: Event, up: bool)
    requires tick.Tick? && Defined(s, tick) && Steady(s.ctrl, tick.pv, 0.0)
    requires ValidConfig(s.ctrl.config) && TracksSlowly(s.ctrl.config, tick.dt)
    requires HasEdge(s.ctrl.config, up) && s.ctrl.config.limits.Contains(Applied(s))
    requires OutputInRange(s, tick.ff) || StateOverrun(s, up, tick.ff) > 0.0
    ensures var t := Exec(s, tick);
            && t.ctrl.config == s.ctrl.config && Steady(t.ctrl, tick.pv, 0.0)
            && t.ctrl.config.limits.Contains(Applied(t))
            && (OutputInRange(s, tick.ff) ==> OutputInRange(t, tick.ff))
            && (OutputInRange(t, tick.ff)
                || 0.0 < StateOverrun(t, up, tick.ff)
                       <= DecayFactor(s.ctrl.config, tick.dt) * StateOverrun(s, up, tick.ff))
  {
    hide Exec, Defined, Steady, StateOverrun, DecayFactor, OutputInRange, Past, TracksSlowly, Applied, Mixed;
    hide Limits.Contains, HasEdge;
    UnwindTick(s, tick, up);
    OnEdgeIsInRange(s.ctrl.config, up, Applied(s));
    FactorBounds(s.ctrl.config, tick.dt);
    AppliedStaysInRange(s, tick);
    InnerSideIsInRange(Exec(s, tick), up, tick.ff, Applied(s));
    if StateOverrun(s, up, tick.ff) > 0.0 {
      MixedBounds(DecayFactor(s.ctrl.config, tick.dt), StateOverrun(s, up, tick.ff),
                  Past(s.ctrl.config, up, Applied(s)));
    }
  }

  lemma AppliedStaysInRange(s: SessionState, tick: Event)
    requires tick.Tick? && Defined(s, tick) && ValidConfig(s.ctrl.config) && s.ctrl.config.limits.Contains(Applied(s))
    ensures s.ctrl.config.limits.Contains(Applied(Exec(s, tick)))
  {
    hide TermsOf, ApplyAntiWindup, ApplySlewRate, Travel;
    StepMovesCv(s.ctrl, InputOf(s, tick.pv, tick.dt, tick.ff));
  }

  /** An output on the inner side of one limit, and no further from it than some CV in range, is in range. */
  lemma InnerSideIsInRange(s: SessionState, up: bool, ff: real, cv: real)
    requires HasEdge(s.ctrl.config, up) && s.ctrl.config.limits.Contains(cv)
    ensures Past(s.ctrl.config, up, cv) <= StateOverrun(s, up, ff) <= 0.0 ==> OutputInRange(s, ff)
  {
    hide ITerm, SteadyRest;
  }

  lemma {:induction false} PowOrder(a: real, n: nat, x: real, y: real)
    requires 0.0 <= a && x <= y
    ensures Pow(a, n) >= 0.0 && Pow(a, n) * x <= Pow(a, n) * y
  {
    if n > 0 {
      PowOrder(a, n - 1, x, y);
      MulNonNegative(a, Pow(a, n - 1));
    }
    hide Pow;
    MulNonNegative(Pow(a, n), y - x);
  }

  lemma PowZero(a: real, x: real)
    ensures Pow(a, 0) * x == x
  {
  }
}
