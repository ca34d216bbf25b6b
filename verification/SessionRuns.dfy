/** Whole runs of a session: arbitrary sequences of ticks (with accepted or rejected CV writes),
    operator commands, dt skips, safe-CV writes and restarts from the saved snapshot. */
module SessionRuns {
  import opened RealMath
  import opened PidCore
  import opened StepMeaning
  import opened Session

  datatype Event =
    | Tick(pv: real, dt: real, ff: real, accepted: bool)
    | Gains(kp: real, ki: real, kd: real)
    | Setpoint(sp: real)
    | Reset
    | DtSkip
    | SafeCv(cv: real)
    | Restart

  predicate Defined(s: SessionState, e: Event) {
    e.Tick? ==> StepDefined(s.ctrl, InputOf(s, e.pv, e.dt, e.ff))
  }

  function Exec(s: SessionState, e: Event): SessionState
    requires Defined(s, e)
  {
    match e
    case Tick(pv, dt, ff, accepted) => Processed(s, pv, dt, ff, accepted).0
    case Gains(kp, ki, kd) => WithGains(s, kp, ki, kd)
    case Setpoint(sp) => WithSetpoint(s, sp)
    case Reset => WithIntegralReset(s)
    case DtSkip => WithDtSkipped(s)
    case SafeCv(cv) => WithConfirmedCv(s, cv)
    case Restart => NewSession(s.ctrl.config, s.snap, false)
  }

  predicate RunDefined(s: SessionState, es: seq<Event>)
    decreases es
  {
    es == [] || (Defined(s, es[0]) && RunDefined(Exec(s, es[0]), es[1..]))
  }

  function Final(s: SessionState, es: seq<Event>): SessionState
    requires RunDefined(s, es)
    decreases es
  {
    if es == [] then s else Final(Exec(s, es[0]), es[1..])
  }

  /** The step result of a tick. */
  function ResultAt(s: SessionState, e: Event): seq<StepResult>
    requires Defined(s, e)
  {
    if e.Tick? then [Processed(s, e.pv, e.dt, e.ff, e.accepted).1] else []
  }

  /** The step results of the run's ticks, in order. */
  function Results(s: SessionState, es: seq<Event>): seq<StepResult>
    requires RunDefined(s, es)
    decreases es
  {
    if es == [] then [] else ResultAt(s, es[0]) + Results(Exec(s, es[0]), es[1..])
  }

  /** The CV the actuator accepts in one event. */
  function WrittenAt(s: SessionState, e: Event): seq<real>
    requires Defined(s, e)
  {
    match e
    case Tick(pv, dt, ff, accepted) => if accepted then [Processed(s, pv, dt, ff, accepted).1.cv] else []
    case SafeCv(cv) => [cv]
    case _ => []
  }

  /** The CVs the actuator accepted during the run, in order. */
  function Written(s: SessionState, es: seq<Event>): seq<real>
    requires RunDefined(s, es)
    decreases es
  {
    if es == [] then [] else WrittenAt(s, es[0]) + Written(Exec(s, es[0]), es[1..])
  }

  /** Time covered by ticks; `all` also counts the ticks whose CV write was rejected. */
  function TickTime(es: seq<Event>, all: bool): real {
    if es == [] then 0.0
    else (if es[0].Tick? && (all || es[0].accepted) then es[0].dt else 0.0) + TickTime(es[1..], all)
  }

  lemma {:induction false} RunSplit(s: SessionState, a: seq<Event>, b: seq<Event>)
    requires RunDefined(s, a + b)
    ensures RunDefined(s, a) && RunDefined(Final(s, a), b)
    ensures Final(s, a + b) == Final(Final(s, a), b)
    ensures Results(s, a + b) == Results(s, a) + Results(Final(s, a), b)
    ensures Written(s, a + b) == Written(s, a) + Written(Final(s, a), b)
    decreases a
  {
    hide Exec, Defined, ResultAt, WrittenAt;
    if a == [] {
      assert a + b == b;
    } else {
      assert (a + b)[1..] == a[1..] + b;
      RunSplit(Exec(s, a[0]), a[1..], b);
    }
  }

  lemma TravelAdds(rate: real, a: real, b: real)
    ensures Travel(rate, a) + Travel(rate, b) == Travel(rate, a + b)
    ensures Travel(rate, 0.0) == 0.0
  {
  }

  // ---------- output limits and slew rate ----------

  lemma StepMovesCv(s: PidState, input: StepInput)
    requires StepDefined(s, input)
    ensures s.config.slewRate.None? ==> s.config.limits.Contains(PidStep(s, input).1.cv)
    ensures s.config.slewRate.Some? ==>
              var delta := Travel(s.config.slewRate.value, input.dt);
              && delta >= 0.0
              && Abs(PidStep(s, input).1.cv - input.prevAppliedCv) <= delta
              && s.config.limits.Distance(PidStep(s, input).1.cv) ==
                 Max(0.0, s.config.limits.Distance(input.prevAppliedCv) - delta)
    ensures exists target :: CvFollows(s.config, input, PidStep(s, input).1, target)
  {
    hide TermsOf, ApplyAntiWindup, CvFollows;
    CvIsNearest(s, input);
  }

  ghost predicate NoSafeCv(es: seq<Event>) {
    forall i :: 0 <= i < |es| ==> !es[i].SafeCv?
  }

  ghost predicate SafeCvsWithin(l: Limits, es: seq<Event>) {
    forall i :: 0 <= i < |es| && es[i].SafeCv? ==> l.Contains(es[i].cv)
  }

  /** No event changes the limits, the slew rate or any other option outside the gains and the setpoint. */
  lemma ExecKeepsOptions(s: SessionState, e: Event)
    requires Defined(s, e)
    ensures var c := Exec(s, e).ctrl.config;
            c == s.ctrl.config.(kp := c.kp, ki := c.ki, kd := c.kd, setpoint := c.setpoint)
  {
  }

  /** Slew-limited runs: the applied CV moves by at most `rate` per second of accepted ticks, and its
      distance from the output range shrinks at exactly that rate until it is 0. */
  lemma {:induction false} SlewBudget(s: SessionState, es: seq<Event>)
    requires RunDefined(s, es) && NoSafeCv(es)
    requires s.ctrl.config.slewRate.Some? && ValidConfig(s.ctrl.config)
    ensures var budget := Travel(s.ctrl.config.slewRate.value, TickTime(es, false));
            var l := s.ctrl.config.limits;
            && budget >= 0.0
            && Abs(Applied(Final(s, es)) - Applied(s)) <= budget
            && l.Distance(Applied(Final(s, es))) == Max(0.0, l.Distance(Applied(s)) - budget)
    decreases es
  {
    hide PidStep, StepDefined, Travel;
    var rate := s.ctrl.config.slewRate.value;
    TravelAdds(rate, 0.0, 0.0);
    if es != [] {
      var t := Exec(s, es[0]);
      ExecKeepsOptions(s, es[0]);
      SlewBudget(t, es[1..]);
      if es[0].Tick? {
        StepMovesCv(s.ctrl, InputOf(s, es[0].pv, es[0].dt, es[0].ff));
        if es[0].accepted {
          TravelAdds(rate, es[0].dt, TickTime(es[1..], false));
        }
      }
    }
  }

  /** Once the applied CV is in range it never leaves, and every CV computed or written is in range. */
  lemma {:induction false} OutputsStayInRange(s: SessionState, es: seq<Event>)
    requires RunDefined(s, es) && SafeCvsWithin(s.ctrl.config.limits, es)
    requires ValidConfig(s.ctrl.config)
    requires s.ctrl.config.limits.Contains(Applied(s))
    ensures s.ctrl.config.limits.Contains(Applied(Final(s, es)))
    ensures Final(s, es).ctrl.config.limits == s.ctrl.config.limits
    ensures forall r :: r in Results(s, es) ==> s.ctrl.config.limits.Contains(r.cv)
    ensures forall cv :: cv in Written(s, es) ==> s.ctrl.config.limits.Contains(cv)
    decreases es
  {
    hide TermsOf, ApplyAntiWindup, ApplySlewRate, Travel;
    if es != [] {
      ExecKeepsOptions(s, es[0]);
      if es[0].Tick? {
        StepMovesCv(s.ctrl, InputOf(s, es[0].pv, es[0].dt, es[0].ff));
      }
      assert SafeCvsWithin(s.ctrl.config.limits, es[1..]);
      OutputsStayInRange(Exec(s, es[0]), es[1..]);
    }
  }

  // ---------- the clamp strategy ----------

  lemma ClampedIntegral(c: PidConfig, iAcc: real, candidate: real, rest: real, prev: real, dt: real)
    requires dt > 0.0 && c.limits.Ordered() && c.antiWindup == ClampIntegral && c.ki != 0.0
    ensures var (i, term) := ApplyAntiWindup(c, iAcc, candidate, rest, prev, dt);
            && term == ITerm(c, i)
            && c.limits.Contains(rest + term)
            && (i == candidate <==> c.limits.Contains(rest + ITerm(c, candidate)))
  {
  }

  /** With the clamp strategy the integral term never pushes the output out of range: the sum of all terms
      is the allowed value nearest to what it would be otherwise, and the accumulator takes up the whole error
      exactly when that was harmless. */
  lemma ClampStrategyStep(s: PidState, input: StepInput)
    requires StepDefined(s, input)
    requires s.config.antiWindup == ClampIntegral && s.config.ki != 0.0
    ensures var (t, r) := PidStep(s, input);
            t.runtime.lastError.Some? &&
            var i := TakenUp(s.config, s.runtime.iAcc, t.runtime.lastError.value, input.dt);
            && r.uUnclamped == SumWith(s.config, r, t.runtime.iAcc)
            && s.config.limits.Nearest(SumWith(s.config, r, i), r.uUnclamped)
            && s.config.limits.Contains(r.uUnclamped)
            && !r.saturated
            && (t.runtime.iAcc == i <==> s.config.limits.Contains(SumWith(s.config, r, i)))
  {
    hide PidStep, StepDefined, TakenUp, CountedError, SumWith, Limits.Contains;
    CvIsNearest(s, input);
    IntegralMeaning(s, input);
    SumIsOutput(s.config, PidStep(s, input).1);
  }

  /** ... and so the integral contribution is bounded by the output range plus the other terms. */
  lemma ClampStrategyBoundsIntegral(s: PidState, input: StepInput, bound: real)
    requires StepDefined(s, input)
    requires s.config.antiWindup == ClampIntegral && s.config.ki != 0.0
    requires s.config.limits.lo.Some? && s.config.limits.hi.Some?
    requires var r := PidStep(s, input).1; Abs(r.pTerm + r.dTerm + r.ffTerm) <= bound
    ensures Abs(ITerm(s.config, PidStep(s, input).0.runtime.iAcc)) <=
            Max(Abs(s.config.limits.lo.value), Abs(s.config.limits.hi.value)) + bound
  {
    hide PidStep, StepDefined, TakenUp, ITerm, SumWith, CvFollows;
    ClampStrategyStep(s, input);
    var (t, r) := PidStep(s, input);
    SumWithIs(s.config, r, t.runtime.iAcc);
  }

  ghost predicate GainsKeepIntegral(es: seq<Event>) {
    forall i :: 0 <= i < |es| && es[i].Gains? ==> es[i].ki != 0.0
  }

  /** Over a whole run, gain changes included, no step reports saturation and every sum is in range. */
  lemma {:induction false} ClampStrategyRun(s: SessionState, es: seq<Event>)
    requires RunDefined(s, es) && GainsKeepIntegral(es)
    requires s.ctrl.config.antiWindup == ClampIntegral && s.ctrl.config.ki != 0.0
    ensures forall r :: r in Results(s, es) ==> !r.saturated && s.ctrl.config.limits.Contains(r.uUnclamped)
    decreases es
  {
    if es != [] {
      ExecKeepsOptions(s, es[0]);
      if es[0].Tick? {
        ClampStrategyStep(s.ctrl, InputOf(s, es[0].pv, es[0].dt, es[0].ff));
      }
      assert GainsKeepIntegral(es[1..]);
      ClampStrategyRun(Exec(s, es[0]), es[1..]);
    }
  }

  // ---------- setpoint ramp ----------

  /** Two ramp steps towards one target are one ramp step of the combined length. */
  lemma RampComposes(x: real, target: real, a: real, b: real)
    requires a >= 0.0 && b >= 0.0
    ensures RampToward(RampToward(x, target, a), target, b) == RampToward(x, target, a + b)
  {
  }

  /** A ramp step shortens the distance by exactly its length or reaches the target, and never
      passes it. */
  lemma RampShortens(x: real, target: real, delta: real)
    requires delta >= 0.0
    ensures var y := RampToward(x, target, delta);
            && Abs(target - y) == Max(0.0, Abs(target - x) - delta)
            && Min(x, target) <= y <= Max(x, target)
  {
  }

  /** The session has a ramp, and controller and snapshot agree on where it stands. */
  predicate Ramping(s: SessionState, at: real) {
    && ValidConfig(s.ctrl.config)
    && s.ctrl.config.setpointRamp.Some?
    && s.ctrl.runtime.effectiveSp == Some(at)
    && s.snap.effectiveSp == Some(at)
  }

  ghost predicate NoSetpoint(es: seq<Event>) {
    forall i :: 0 <= i < |es| ==> !es[i].Setpoint?
  }

  /** Between setpoint changes a run of ticks of any lengths, through rejected writes, dt skips and
      restarts, moves the effective setpoint exactly like one tick of the total length. */
  lemma {:induction false} RampRun(s: SessionState, es: seq<Event>, at: real)
    requires RunDefined(s, es) && NoSetpoint(es) && Ramping(s, at)
    ensures TickTime(es, true) >= 0.0
    ensures Travel(s.ctrl.config.setpointRamp.value, TickTime(es, true)) >= 0.0
    ensures Ramping(Final(s, es), RampToward(at, s.ctrl.config.setpoint,
                                             Travel(s.ctrl.config.setpointRamp.value, TickTime(es, true))))
    ensures Final(s, es).ctrl.config.setpoint == s.ctrl.config.setpoint
    ensures Final(s, es).ctrl.config.setpointRamp == s.ctrl.config.setpointRamp
    decreases es
  {
    hide DTerm, FilteredPv, ApplyAntiWindup, ApplySlewRate, Travel;
    var rate, target := s.ctrl.config.setpointRamp.value, s.ctrl.config.setpoint;
    TravelAdds(rate, 0.0, 0.0);
    if es != [] {
      ExecKeepsOptions(s, es[0]);
      var dt := if es[0].Tick? then es[0].dt else 0.0;
      var next := RampToward(at, target, Travel(rate, dt));
      assert Ramping(Exec(s, es[0]), next);
      RampRun(Exec(s, es[0]), es[1..], next);
      TravelAdds(rate, dt, TickTime(es[1..], true));
      RampComposes(at, target, Travel(rate, dt), Travel(rate, TickTime(es[1..], true)));
    }
  }

  /** Distance to a fixed target after any run: what is left of it, and always on the same side. */
  lemma RampExactness(s: SessionState, es: seq<Event>, at: real) returns (now: real)
    requires RunDefined(s, es) && NoSetpoint(es) && Ramping(s, at)
    ensures Final(s, es).ctrl.runtime.effectiveSp == Some(now)
    ensures var target := s.ctrl.config.setpoint;
            && Abs(target - now)
               == Max(0.0, Abs(target - at) - Travel(s.ctrl.config.setpointRamp.value, TickTime(es, true)))
            && Min(at, target) <= now <= Max(at, target)
  {
    hide TermsOf, ApplyAntiWindup, ApplySlewRate, Travel, RampToward;
    var delta := Travel(s.ctrl.config.setpointRamp.value, TickTime(es, true));
    RampRun(s, es, at);
    now := RampToward(at, s.ctrl.config.setpoint, delta);
    RampShortens(at, s.ctrl.config.setpoint, delta);
  }

  /** Retargeting in mid-ramp continues from the value reached, not from the old target. */
  lemma RampRetargets(s: SessionState, before: seq<Event>, sp: real, after: seq<Event>, at: real)
    requires RunDefined(s, before + [Setpoint(sp)] + after)
    requires NoSetpoint(before) && NoSetpoint(after) && Ramping(s, at)
    ensures var rate := s.ctrl.config.setpointRamp.value;
            var reached := RampToward(at, s.ctrl.config.setpoint, Travel(rate, TickTime(before, true)));
            Final(s, before + [Setpoint(sp)] + after).ctrl.runtime.effectiveSp ==
            Some(RampToward(reached, sp, Travel(rate, TickTime(after, true))))
  {
    hide TermsOf, ApplyAntiWindup, ApplySlewRate, Travel, RampToward;
    var rate := s.ctrl.config.setpointRamp.value;
    var reached := RampToward(at, s.ctrl.config.setpoint, Travel(rate, TickTime(before, true)));
    RunSplit(s, before + [Setpoint(sp)], after);
    RunSplit(s, before, [Setpoint(sp)]);
    RampRun(s, before, at);
    var mid := Final(s, before);
    assert Final(mid, [Setpoint(sp)]) == WithSetpoint(mid, sp) by {
      assert [Setpoint(sp)][1..] == [];
    }
    assert Ramping(WithSetpoint(mid, sp), reached);
    RampRun(WithSetpoint(mid, sp), after, reached);
  }

  // ---------- measurement ----------

  function CountTicks(es: seq<Event>): nat {
    if es == [] then 0 else (if es[0].Tick? then 1 else 0) + CountTicks(es[1..])
  }

  ghost predicate Measuring(es: seq<Event>, pv: real) {
    forall i :: 0 <= i < |es| && es[i].Tick? ==> es[i].pv == pv
  }

  lemma FilterStep(s: PidState, input: StepInput, last: real)
    requires StepDefined(s, input) && s.runtime.lastPv == Some(last)
    ensures PidStep(s, input).0.runtime.lastPv == Some(FilteredPv(s, input.pv))
    ensures FilteredPv(s, input.pv) - input.pv == s.config.pvFilterAlpha * (last - input.pv)
  {
    hide DTerm, ApplyAntiWindup, ApplySlewRate, CandidateIAcc, EffectiveError, NextEffectiveSp;
  }

  /** The filter forgets geometrically: while the measurement stays at `pv`, each tick multiplies the
      filtered value's distance from it by exactly `alpha`, across restarts and failed writes. */
  lemma {:induction false} FilterConverges(s: SessionState, es: seq<Event>, pv: real, last: real) returns (now: real)
    requires RunDefined(s, es) && Measuring(es, pv)
    requires s.ctrl.runtime.lastPv == Some(last) && s.snap.lastPv == Some(last)
    ensures Final(s, es).ctrl.runtime.lastPv == Some(now) && Final(s, es).snap.lastPv == Some(now)
    ensures now - pv == Pow(s.ctrl.config.pvFilterAlpha, CountTicks(es)) * (last - pv)
    decreases es
  {
    hide StepDefined, TermsOf, ApplyAntiWindup, ApplySlewRate, FilteredPv;
    if es == [] {
      now := last;
    } else if es[0].Tick? {
      var input, alpha := InputOf(s, es[0].pv, es[0].dt, es[0].ff), s.ctrl.config.pvFilterAlpha;
      FilterStep(s.ctrl, input, last);
      ExecKeepsOptions(s, es[0]);
      now := FilterConverges(Exec(s, es[0]), es[1..], pv, FilteredPv(s.ctrl, pv));
      PowStep(alpha, CountTicks(es[1..]), last - pv);
    } else {
      ExecKeepsOptions(s, es[0]);
      now := FilterConverges(Exec(s, es[0]), es[1..], pv, last);
    }
  }

  lemma PowStep(a: real, n: nat, x: real)
    ensures Pow(a, n) * (a * x) == Pow(a, n + 1) * x
  {
  }

  /** Anti-windup keeps its hands off an output `u`: no strategy reacts to it, it is in range, or
      back-calculation finds that the actuator already received exactly `u`. */
  predicate Undisturbed(c: PidConfig, u: real, prevAppliedCv: real) {
    c.antiWindup == NoAntiWindup || c.limits.Contains(u) || (c.antiWindup == BackCalculation && u == prevAppliedCv)
  }

  lemma CandidateKeptIff(c: PidConfig, iAcc: real, candidate: real, rest: real, prev: real, dt: real)
    requires dt > 0.0 && c.limits.Ordered() && c.ki != 0.0
    requires CorrectionNeeded(c, candidate, rest) ==> TtDefined(c, dt)
    ensures ApplyAntiWindup(c, iAcc, candidate, rest, prev, dt).0 == candidate
            <==> Undisturbed(c, rest + ITerm(c, candidate), prev)
  {
    if c.antiWindup == ClampIntegral {
      ClampedIntegral(c, iAcc, candidate, rest, prev, dt);
    } else if CorrectionNeeded(c, candidate, rest) {
      var u, tt := rest + ITerm(c, candidate), AntiWindupTt(c, dt);
      CorrectionVanishesIff(prev - u, dt, tt);
      hide ITerm, Accumulator, AntiWindupTt;
      AccumulatorOf(c, candidate, BackCalculated(c, ITerm(c, candidate), u, prev, dt));
    }
  }

  lemma CorrectionVanishesIff(x: real, dt: real, tt: real)
    requires dt > 0.0 && tt != 0.0
    ensures x * (dt / tt) == 0.0 <==> x == 0.0
  {
    var q := dt / tt;
    assert q * tt == dt;
    if x * q == 0.0 {
      assert (x * q) * tt == x * (q * tt) == x * dt;
    }
  }

  /** What the deadband does to a step. Inside it there is no proportional term, and the stored
      accumulator stays as it is exactly when anti-windup leaves the output it already gives alone. On and
      outside its edge both terms act on the whole error, again as far as anti-windup lets them. Without
      integral gain the accumulator never moves. */
  lemma DeadbandIff(s: PidState, input: StepInput)
    requires StepDefined(s, input)
    ensures var (t, r) := PidStep(s, input);
            var e, rest := t.runtime.lastError.value, r.pTerm + r.dTerm + r.ffTerm;
            var inside := Abs(e) < s.config.deadband;
            var candidate := if inside then s.runtime.iAcc else s.runtime.iAcc + e * input.dt;
            && e == r.effectiveSp - t.runtime.lastPv.value
            && r.pTerm == (if inside then 0.0 else s.config.kp * e)
            && if s.config.ki == 0.0 then t.runtime.iAcc == s.runtime.iAcc
               else t.runtime.iAcc == candidate
                    <==> Undisturbed(s.config, rest + ITerm(s.config, candidate), input.prevAppliedCv)
  {
    hide PidStep, TermsOf, ITerm, Undisturbed, CorrectionNeeded, ApplyAntiWindup, TtDefined;
    StepParts(s, input);
    DeadbandTerms(s, input);
    var t := TermsOf(s, input);
    if s.config.ki != 0.0 {
      CandidateKeptIff(s.config, s.runtime.iAcc, t.candidateIAcc, t.Rest(), input.prevAppliedCv, input.dt);
    } else {
      NoIntegral(s.config, s.runtime.iAcc, t.candidateIAcc, t.Rest(), input.prevAppliedCv, input.dt);
    }
  }

  lemma NoIntegral(c: PidConfig, iAcc: real, candidate: real, rest: real, prev: real, dt: real)
    requires dt > 0.0 && c.limits.Ordered() && c.ki == 0.0
    ensures ApplyAntiWindup(c, iAcc, candidate, rest, prev, dt).0 == iAcc
  {
  }

  ghost predicate NoTickOrRestart(es: seq<Event>) {
    forall i :: 0 <= i < |es| ==> !es[i].Tick? && !es[i].Restart?
  }

  /** The reason to skip the derivative: the last gap's. */
  function ReasonAfter(reason: DTermSkipReason, es: seq<Event>): DTermSkipReason
    decreases es
  {
    if es == [] then reason
    else
      ReasonAfter(if es[0].DtSkip? then PostDtSkip else if es[0].Reset? then PostReset else reason, es[1..])
  }

  lemma {:induction false} PendingSkipStays(s: SessionState, es: seq<Event>, reason: DTermSkipReason)
    requires RunDefined(s, es) && NoTickOrRestart(es) && s.ctrl.nextDTermSkipReason == Some(reason)
    ensures Final(s, es).ctrl.nextDTermSkipReason == Some(ReasonAfter(reason, es))
    decreases es
  {
    if es != [] {
      PendingSkipStays(Exec(s, es[0]), es[1..],
                       if es[0].DtSkip? then PostDtSkip else if es[0].Reset? then PostReset else reason);
    }
  }

  lemma SkippedDerivative(s: PidState, input: StepInput)
    requires StepDefined(s, input) && s.nextDTermSkipReason.Some?
    ensures var (t, r) := PidStep(s, input);
            && r.dTerm == 0.0 && t.nextDTermSkipReason.None?
            && r.dTermSkipped == (if s.config.kd == 0.0 then None else s.nextDTermSkipReason)
  {
  }

  /** After a skipped tick or an integral reset, and whatever the operator does meanwhile, the next tick
      has no derivative term; if there is one to skip it says so and why, and the one after is normal again. */
  lemma NoDerivativeAfterGap(s: SessionState, gap: Event, between: seq<Event>, tick: Event)
    requires (gap.DtSkip? || gap.Reset?) && NoTickOrRestart(between) && tick.Tick?
    requires RunDefined(Exec(s, gap), between) && Defined(Final(Exec(s, gap), between), tick)
    ensures var t := Final(Exec(s, gap), between);
            var r := Processed(t, tick.pv, tick.dt, tick.ff, tick.accepted).1;
            && r.dTerm == 0.0
            && r.dTermSkipped == (if t.ctrl.config.kd == 0.0 then None
                                  else Some(ReasonAfter(if gap.Reset? then PostReset else PostDtSkip, between)))
            && Exec(t, tick).ctrl.nextDTermSkipReason.None?
  {
    hide StepDefined, TermsOf, ApplyAntiWindup, ApplySlewRate;
    PendingSkipStays(Exec(s, gap), between, if gap.Reset? then PostReset else PostDtSkip);
    var t := Final(Exec(s, gap), between);
    SkippedDerivative(t.ctrl, InputOf(t, tick.pv, tick.dt, tick.ff));
  }
}
