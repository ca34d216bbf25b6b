/** Restart transparency: a session continued from its saved snapshot cannot be told from one that
    was never stopped. */
module Restart {
  import opened RealMath
  import opened PidCore
  import opened StateStore
  import opened Session
  import opened SessionRuns

  /** The same controller as far as any step can tell: `last_cv` is never read, and the effective
      setpoint only when a ramp is configured. */
  ghost predicate AlikeControllers(a: PidState, b: PidState) {
    && a.config == b.config
    && a.runtime.iAcc == b.runtime.iAcc
    && a.runtime.lastPv == b.runtime.lastPv
    && a.runtime.lastError == b.runtime.lastError
    && (a.config.setpointRamp.Some? ==> a.runtime.effectiveSp == b.runtime.effectiveSp)
    && a.nextDTermSkipReason == b.nextDTermSkipReason
  }

  ghost predicate Alike(a: SessionState, b: SessionState) {
    AlikeControllers(a.ctrl, b.ctrl) && a.snap == b.snap
  }

  /** The snapshot holds everything the controller will read again. */
  ghost predicate Synced(s: SessionState) {
    && s.snap.iAcc == s.ctrl.runtime.iAcc
    && s.snap.lastPv == s.ctrl.runtime.lastPv
    && s.snap.lastError == s.ctrl.runtime.lastError
    && (s.ctrl.config.setpointRamp.Some? ==> s.snap.effectiveSp == s.ctrl.runtime.effectiveSp)
  }

  /** A restart is invisible exactly when the snapshot is in step with the controller and no skip of
      the derivative is pending: the pending reason is the one thing that is never persisted. */
  lemma RestartInvisibleIff(s: SessionState)
    ensures Alike(Exec(s, Event.Restart), s) <==> Synced(s) && s.ctrl.nextDTermSkipReason.None?
  {
  }

  /** A session starts in step with its snapshot, unless it was told to reset an accumulator that
      the snapshot still holds. */
  lemma NewSessionSyncedIff(config: PidConfig, snap: StateSnapshot, resetAccumulator: bool)
    ensures Synced(NewSession(config, snap, resetAccumulator)) <==> !resetAccumulator || snap.iAcc == 0.0
  {
  }

  /** Every event keeps the snapshot in step, and a processed tick brings it in step, whether or not
      the sink accepted the CV. */
  lemma ExecKeepsSynced(s: SessionState, e: Event)
    requires Defined(s, e)
    ensures Synced(s) || e.Tick? ==> Synced(Exec(s, e))
    ensures e.Tick? ==> Exec(s, e).ctrl.nextDTermSkipReason.None?
  {
  }

  lemma AlikeTerms(a: PidState, b: PidState, input: StepInput)
    requires AlikeControllers(a, b) && input.dt > 0.0
    ensures TermsOf(a, input) == TermsOf(b, input)
  {
  }

  /** Alike sessions accept the same event, answer it with the same result and stay alike. */
  lemma ExecAlike(a: SessionState, b: SessionState, e: Event)
    requires Alike(a, b) && Defined(a, e)
    ensures Defined(b, e) && Alike(Exec(a, e), Exec(b, e))
    ensures e.Tick? ==> Processed(a, e.pv, e.dt, e.ff, e.accepted).1 == Processed(b, e.pv, e.dt, e.ff, e.accepted).1
  {
    hide TermsOf, ApplyAntiWindup, ApplySlewRate;
    if e.Tick? {
      AlikeTerms(a.ctrl, b.ctrl, InputOf(a, e.pv, e.dt, e.ff));
    }
  }

  /** The run without its restarts: one long session. */
  function WithoutRestarts(es: seq<Event>): seq<Event> {
    if es == [] then []
    else (if es[0].Restart? then [] else [es[0]]) + WithoutRestarts(es[1..])
  }

  /** Every restart happens with no derivative skip pending. */
  ghost predicate RestartsClean(s: SessionState, es: seq<Event>)
    requires RunDefined(s, es)
    decreases es
  {
    es != [] ==>
      && (es[0].Restart? ==> s.ctrl.nextDTermSkipReason.None?)
      && RestartsClean(Exec(s, es[0]), es[1..])
  }

  /** A run interrupted by restarts and the same run in one long session give the same result at
      every tick and end alike. */
  lemma {:induction false} RestartTransparency(a: SessionState, b: SessionState, es: seq<Event>)
    requires RunDefined(a, es) && RestartsClean(a, es)
    requires Alike(a, b) && Synced(a)
    ensures RunDefined(b, WithoutRestarts(es))
    ensures Results(a, es) == Results(b, WithoutRestarts(es))
    ensures Alike(Final(a, es), Final(b, WithoutRestarts(es)))
    decreases es
  {
    hide Processed, NewSession;
    if es != [] {
      var e := es[0];
      ExecKeepsSynced(a, e);
      if e.Restart? {
        RestartInvisibleIff(a);
        RestartTransparency(Exec(a, e), b, es[1..]);
        assert WithoutRestarts(es) == WithoutRestarts(es[1..]);
      } else {
        ExecAlike(a, b, e);
        RestartTransparency(Exec(a, e), Exec(b, e), es[1..]);
        assert WithoutRestarts(es) == [e] + WithoutRestarts(es[1..]);
        assert ([e] + WithoutRestarts(es[1..]))[1..] == WithoutRestarts(es[1..]);
      }
    }
  }

  lemma DroppedSkipTerms(s: SessionState, input: StepInput)
    requires Synced(s) && s.ctrl.nextDTermSkipReason.Some? && input.dt > 0.0
    ensures var kept, dropped := TermsOf(s.ctrl, input), TermsOf(Exec(s, Event.Restart).ctrl, input);
            && kept.d == 0.0
            && dropped.(d := 0.0, skipped := None) == kept.(d := 0.0, skipped := None)
            && (dropped.d == 0.0 <==> s.ctrl.config.kd == 0.0 || s.ctrl.runtime.lastPv.None?
                                      || FilteredPv(s.ctrl, input.pv) == s.ctrl.runtime.lastPv.value)
  {
    var r := Exec(s, Event.Restart).ctrl;
    assert FilteredPv(r, input.pv) == FilteredPv(s.ctrl, input.pv);
    hide FilteredPv, NextEffectiveSp;
    assert NextEffectiveSp(r, input.dt) == NextEffectiveSp(s.ctrl, input.dt) by { SameRamp(s, input.dt); }
    if s.ctrl.config.kd != 0.0 && s.ctrl.runtime.lastPv.Some? {
      RateVanishesIff(s.ctrl.config.kd, FilteredPv(r, input.pv) - s.ctrl.runtime.lastPv.value, input.dt);
    }
  }

  lemma SameRamp(s: SessionState, dt: real)
    requires Synced(s)
    ensures NextEffectiveSp(Exec(s, Event.Restart).ctrl, dt) == NextEffectiveSp(s.ctrl, dt)
  {
  }

  lemma RateVanishesIff(kd: real, d: real, dt: real)
    requires kd != 0.0 && dt > 0.0
    ensures -kd * (d / dt) == 0.0 <==> d == 0.0
  {
    var q := d / dt;
    assert q * dt == d;
    if -kd * q == 0.0 {
      assert q == 0.0;
    }
  }

  /** When a restart drops a pending derivative skip, the next tick differs in nothing but the logged
      reason exactly when it has no derivative term: without derivative gain, without an earlier
      measurement, or when the filtered measurement did not move. Otherwise the derivative kick that the
      skip was to prevent is there, and nothing but output limits or a slew limit keeps it from the CV. */
  lemma DroppedSkipVisibleIff(s: SessionState, input: StepInput)
    requires Synced(s) && s.ctrl.nextDTermSkipReason.Some?
    requires StepDefined(s.ctrl, input) && StepDefined(Exec(s, Event.Restart).ctrl, input)
    ensures var kept, dropped := PidStep(s.ctrl, input).1, PidStep(Exec(s, Event.Restart).ctrl, input).1;
            && kept.dTerm == 0.0
            && (dropped.(dTermSkipped := None) == kept.(dTermSkipped := None)
                <==> s.ctrl.config.kd == 0.0 || s.ctrl.runtime.lastPv.None?
                     || FilteredPv(s.ctrl, input.pv) == s.ctrl.runtime.lastPv.value)
            && (s.ctrl.config.limits == Limits(None, None) && s.ctrl.config.slewRate.None?
                ==> dropped.cv - kept.cv == dropped.dTerm)
  {
    DroppedSkipTerms(s, input);
    hide TermsOf, ApplySlewRate, FilteredPv;
    if s.ctrl.config.limits == Limits(None, None) && s.ctrl.config.slewRate.None? {
      UnlimitedCv(s.ctrl, input);
      UnlimitedCv(Exec(s, Event.Restart).ctrl, input);
    }
  }

  lemma UnlimitedCv(s: PidState, input: StepInput)
    requires StepDefined(s, input) && s.config.limits == Limits(None, None) && s.config.slewRate.None?
    ensures var t := TermsOf(s, input);
            PidStep(s, input).1.cv == t.Rest() + (if s.config.ki == 0.0 then 0.0 else ITerm(s.config, t.candidateIAcc))
  {
    hide TermsOf, ITerm, Accumulator;
  }

  /** Controller and snapshot agree on all but, perhaps, the accumulator - as after `--reset-accumulator`. */
  ghost predicate SyncedButAccumulator(s: SessionState) {
    Synced(s.(snap := s.snap.(iAcc := s.ctrl.runtime.iAcc)))
  }

  /** Something that brings the two accumulators together: a processed tick, an operator's reset, or a
      restart. */
  predicate Reconciles(es: seq<Event>) {
    es != [] && (es[0].Tick? || es[0].Reset? || es[0].Restart? || Reconciles(es[1..]))
  }

  lemma ExecOnAccumulators(s: SessionState, e: Event)
    requires Defined(s, e) && SyncedButAccumulator(s)
    ensures var t := Exec(s, e);
            if e.Tick? || e.Reset? || e.Restart? then Synced(t)
            else SyncedButAccumulator(t) && t.ctrl.runtime.iAcc == s.ctrl.runtime.iAcc && t.snap.iAcc == s.snap.iAcc
  {
    hide TermsOf, ApplyAntiWindup, ApplySlewRate, StepDefined;
  }

  lemma {:induction false} SyncedStays(s: SessionState, es: seq<Event>)
    requires RunDefined(s, es) && Synced(s)
    ensures Synced(Final(s, es))
    decreases es
  {
    hide Exec, Defined, Synced;
    if es != [] {
      ExecKeepsSynced(s, es[0]);
      SyncedStays(Exec(s, es[0]), es[1..]);
    }
  }

  lemma SyncedIff(s: SessionState)
    requires SyncedButAccumulator(s)
    ensures Synced(s) <==> s.snap.iAcc == s.ctrl.runtime.iAcc
  {
  }

  /** The two are apart until one of these events, however many other events there are. */
  lemma {:induction false} ApartUntilReconciled(s: SessionState, es: seq<Event>)
    requires RunDefined(s, es) && SyncedButAccumulator(s)
    ensures Synced(Final(s, es)) <==> s.snap.iAcc == s.ctrl.runtime.iAcc || Reconciles(es)
    ensures !Reconciles(es) ==> Final(s, es).ctrl.runtime.iAcc == s.ctrl.runtime.iAcc
                                && Final(s, es).snap.iAcc == s.snap.iAcc
    decreases es
  {
    hide Exec, Defined, Synced, SyncedButAccumulator;
    if es == [] {
      SyncedIff(s);
    } else {
      var t := Exec(s, es[0]);
      ExecOnAccumulators(s, es[0]);
      if es[0].Tick? || es[0].Reset? || es[0].Restart? {
        SyncedStays(t, es[1..]);
      } else {
        ApartUntilReconciled(t, es[1..]);
      }
    }
  }

  /** After `--reset-accumulator` a restart brings the stale accumulator back exactly when the snapshot held
      one and no tick was processed, no reset given and no earlier restart made since the start. Otherwise
      the restarted controller has the accumulator the stopped one had. */
  lemma ResetAccumulatorLostIff(config: PidConfig, snap: StateSnapshot, es: seq<Event>)
    requires RunDefined(NewSession(config, snap, true), es)
    ensures var t := Final(NewSession(config, snap, true), es);
            var restarted := Exec(t, Event.Restart).ctrl.runtime.iAcc;
            && (restarted == t.ctrl.runtime.iAcc <==> snap.iAcc == 0.0 || Reconciles(es))
            && (!Reconciles(es) ==> t.ctrl.runtime.iAcc == 0.0 && restarted == snap.iAcc)
  {
    var s := NewSession(config, snap, true);
    ApartUntilReconciled(s, es);
  }

  // ---------- repeated `once` runs ----------

  /** Command-line options that fall back to the snapshot and then to the defaults. `base` holds the
      options that do not. */
  datatype PidFlags = PidFlags(
    setpoint: Option<real>, kp: Option<real>, ki: Option<real>, kd: Option<real>, limits: Limits, base: PidConfig)

  function OrElse<T>(a: Option<T>, b: Option<T>): Option<T> {
    if a.Some? then a else b
  }

  /** Gains, setpoint and limits as `once` resolves them; no setpoint anywhere is an error. */
  function ResolveConfig(flags: PidFlags, snap: StateSnapshot): Option<PidConfig> {
    var setpoint := OrElse(flags.setpoint, snap.setpoint);
    if setpoint.None? then None
    else
      Some(flags.base.(
        setpoint := setpoint.value,
        kp := OrElse(flags.kp, snap.kp).GetOr(1.0),
        ki := OrElse(flags.ki, snap.ki).GetOr(0.0),
        kd := OrElse(flags.kd, snap.kd).GetOr(0.0),
        limits := Limits(OrElse(flags.limits.lo, snap.limits.lo), OrElse(flags.limits.hi, snap.limits.hi))))
  }

  /** An option: the value on the command line, or else the saved one, or else the default. */
  predicate Resolved(flag: Option<real>, saved: Option<real>, default: Option<real>, value: Option<real>) {
    && (flag.Some? ==> value == flag)
    && (flag.None? && saved.Some? ==> value == saved)
    && (flag.None? && saved.None? ==> value == default)
  }

  /** Each option on its own: the command line goes before the state file, and that before the defaults - kp 1, no
      other gain and no limits. There is no default for the setpoint. */
  ghost predicate ResolvedFrom(flags: PidFlags, snap: StateSnapshot, c: PidConfig) {
    && Resolved(flags.setpoint, snap.setpoint, None, Some(c.setpoint))
    && Resolved(flags.kp, snap.kp, Some(1.0), Some(c.kp))
    && Resolved(flags.ki, snap.ki, Some(0.0), Some(c.ki))
    && Resolved(flags.kd, snap.kd, Some(0.0), Some(c.kd))
    && Resolved(flags.limits.lo, snap.limits.lo, None, c.limits.lo)
    && Resolved(flags.limits.hi, snap.limits.hi, None, c.limits.hi)
    && c == flags.base.(setpoint := c.setpoint, kp := c.kp, ki := c.ki, kd := c.kd, limits := c.limits)
  }

  lemma ResolutionPrecedence(flags: PidFlags, snap: StateSnapshot)
    ensures ResolveConfig(flags, snap).None? <==> flags.setpoint.None? && snap.setpoint.None?
    ensures ResolveConfig(flags, snap).Some? ==> ResolvedFrom(flags, snap, ResolveConfig(flags, snap).value)
  {
  }

  /** What one invocation leaves in the state file, and its result; `None` if it stops with an error
      before it has a result. */
  function Once(flags: PidFlags, snap: StateSnapshot, tick: Event): Option<(StateSnapshot, StepResult)>
    requires tick.Tick?
  {
    var config := ResolveConfig(flags, snap);
    if config.None? || !Defined(NewSession(config.value, snap, false), tick) then None
    else
      var (s, step) := Processed(NewSession(config.value, snap, false), tick.pv, tick.dt, tick.ff, tick.accepted);
      Some((s.snap, step))
  }

  ghost predicate AllTicks(es: seq<Event>) {
    forall i :: 0 <= i < |es| ==> es[i].Tick?
  }

  /** One process per tick, each with the same command line and the state file of the one before. */
  function OnceRuns(flags: PidFlags, snap: StateSnapshot, ticks: seq<Event>): Option<seq<StepResult>>
    requires AllTicks(ticks)
    decreases ticks
  {
    if ticks == [] then Some([])
    else
      var first := Once(flags, snap, ticks[0]);
      if first.None? then None
      else
        var rest := OnceRuns(flags, first.value.0, ticks[1..]);
        if rest.None? then None else Some([first.value.1] + rest.value)
  }

  /** The options a process resolves are the ones it saves, so the next process resolves them again. */
  lemma ResolutionIsStable(flags: PidFlags, snap: StateSnapshot, e: Event)
    requires ResolveConfig(flags, snap).Some? && e.Tick?
    requires Defined(NewSession(ResolveConfig(flags, snap).value, snap, false), e)
    ensures ResolveConfig(flags, Exec(NewSession(ResolveConfig(flags, snap).value, snap, false), e).snap)
            == ResolveConfig(flags, snap)
  {
  }

  /** n `once` invocations compute, tick for tick, what one long session computes. */
  lemma {:induction false} OnceRunsAreOneSession(
      flags: PidFlags, snap: StateSnapshot, ticks: seq<Event>, long: SessionState)
    requires AllTicks(ticks) && ResolveConfig(flags, snap).Some?
    requires Alike(NewSession(ResolveConfig(flags, snap).value, snap, false), long)
    requires RunDefined(long, ticks)
    ensures OnceRuns(flags, snap, ticks) == Some(Results(long, ticks))
    decreases ticks
  {
    hide TermsOf, ApplyAntiWindup, ApplySlewRate, ResolveConfig;
    if ticks != [] {
      var e := ticks[0];
      var config := ResolveConfig(flags, snap).value;
      var s := NewSession(config, snap, false);
      AlikeSymmetric(s, long);
      ExecAlike(long, s, e);
      ExecKeepsSynced(s, e);
      ExecKeepsOptions(s, e);
      ResolutionIsStable(flags, snap, e);
      var t := Exec(s, e);
      assert t.ctrl.config == config;
      RestartInvisibleIff(t);
      OnceRunsAreOneSession(flags, t.snap, ticks[1..], Exec(long, e));
    }
  }

  lemma AlikeSymmetric(a: SessionState, b: SessionState)
    ensures Alike(a, b) <==> Alike(b, a)
  {
  }

  /** A step with the options the first of the invocations resolves. */
  ghost predicate StepsAsTold(flags: PidFlags, snap: StateSnapshot, tick: Event, result: StepResult)
    requires tick.Tick?
  {
    exists s: SessionState ::
      Defined(s, tick) && ResolvedFrom(flags, snap, s.ctrl.config)
      && result == Processed(s, tick.pv, tick.dt, tick.ff, tick.accepted).1
  }

  lemma StaysResolved(flags: PidFlags, snap: StateSnapshot, tick: Event, c: PidConfig)
    requires tick.Tick? && Once(flags, snap, tick).Some?
    requires ResolvedFrom(flags, Once(flags, snap, tick).value.0, c)
    ensures ResolvedFrom(flags, snap, c)
  {
    hide TermsOf, StepDefined, ApplyAntiWindup, ApplySlewRate, ResolveConfig;
    ResolutionPrecedence(flags, snap);
  }

  /** The first of the invocations, and the rest. */
  lemma FirstAndRest(flags: PidFlags, snap: StateSnapshot, ticks: seq<Event>)
    requires AllTicks(ticks) && ticks != [] && OnceRuns(flags, snap, ticks).Some?
    ensures Once(flags, snap, ticks[0]).Some?
    ensures var (next, result) := Once(flags, snap, ticks[0]).value;
            OnceRuns(flags, next, ticks[1..]).Some?
            && OnceRuns(flags, snap, ticks).value == [result] + OnceRuns(flags, next, ticks[1..]).value
            && StepsAsTold(flags, snap, ticks[0], result)
  {
    hide PidStep, StepDefined, ResolveConfig, ResolvedFrom, BuildSnapshot;
    ResolutionPrecedence(flags, snap);
    var s := NewSession(ResolveConfig(flags, snap).value, snap, false);
    assert Defined(s, ticks[0]) && ResolvedFrom(flags, snap, s.ctrl.config);
  }

  /** Every invocation in a row steps with what the command line says; what it leaves open is what the state
      file said before the first of them, or the default. */
  lemma {:induction false} OnceObeysCommandLine(flags: PidFlags, snap: StateSnapshot, ticks: seq<Event>, i: nat)
    requires AllTicks(ticks) && OnceRuns(flags, snap, ticks).Some? && i < |ticks|
    ensures var results := OnceRuns(flags, snap, ticks).value;
            i < |results| && StepsAsTold(flags, snap, ticks[i], results[i])
    decreases ticks
  {
    hide PidStep, StepDefined, Processed, Once, ResolvedFrom, OnceRuns;
    FirstAndRest(flags, snap, ticks);
    if i > 0 {
      var next := Once(flags, snap, ticks[0]).value.0;
      OnceObeysCommandLine(flags, next, ticks[1..], i - 1);
      var results := OnceRuns(flags, snap, ticks).value;
      var s: SessionState :|
        Defined(s, ticks[i]) && ResolvedFrom(flags, next, s.ctrl.config)
        && results[i] == Processed(s, ticks[i].pv, ticks[i].dt, ticks[i].ff, ticks[i].accepted).1;
      StaysResolved(flags, snap, ticks[0], s.ctrl.config);
    }
  }

  // ---------- what a snapshot says ----------

  /** The snapshot names the options in force. */
  ghost predicate NamesOptions(s: SessionState) {
    var c := s.ctrl.config;
    && s.snap.setpoint == Some(c.setpoint) && s.snap.limits == c.limits
    && s.snap.kp == Some(c.kp) && s.snap.ki == Some(c.ki) && s.snap.kd == Some(c.kd)
  }

  /** From the first tick or the first request for gains or a setpoint on, the snapshot names the options in
      force, through restarts too. */
  lemma {:induction false} SnapshotNamesOptions(s: SessionState, es: seq<Event>)
    requires RunDefined(s, es)
    requires NamesOptions(s) || exists i :: 0 <= i < |es| && (es[i].Tick? || es[i].Gains? || es[i].Setpoint?)
    ensures NamesOptions(Final(s, es))
    decreases es
  {
    hide NamesOptions, Exec, Defined;
    if es != [] {
      ExecNamesOptions(s, es[0]);
      var t := Exec(s, es[0]);
      if !NamesOptions(t) {
        var i :| 0 <= i < |es| && (es[i].Tick? || es[i].Gains? || es[i].Setpoint?);
        assert es[1..][i - 1] == es[i];
      }
      SnapshotNamesOptions(t, es[1..]);
    }
  }

  lemma ExecNamesOptions(s: SessionState, e: Event)
    requires Defined(s, e)
    ensures NamesOptions(s) || e.Tick? || e.Gains? || e.Setpoint? ==> NamesOptions(Exec(s, e))
  {
    hide StepDefined, TermsOf, ApplyAntiWindup, ApplySlewRate;
  }

  /** A request puts exactly these gains, or this setpoint, in force. */
  lemma RequestTakesEffect(s: SessionState, e: Event)
    requires e.Gains? || e.Setpoint?
    ensures var c, d := s.ctrl.config, Exec(s, e).ctrl.config;
            && (e.Gains? ==> d.kp == e.kp && d.ki == e.ki && d.kd == e.kd && d.setpoint == c.setpoint)
            && (e.Setpoint? ==> d.setpoint == e.sp && d.kp == c.kp && d.ki == c.ki && d.kd == c.kd)
            && Exec(s, e).ctrl.runtime == s.ctrl.runtime && Exec(s, e).snap.iAcc == s.snap.iAcc
            && NamesOptions(Exec(s, e))
  {
  }
}
