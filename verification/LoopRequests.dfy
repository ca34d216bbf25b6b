/** The operator's requests: what a run of the loop makes of the commands it was given. */
module LoopRequests {
  import opened RealMath
  import opened PidCore
  import opened Persistence
  import opened Session
  import opened Loop
  import opened LoopAccounting
  import Schedule

  // ---------- what was asked for ----------

  /** The last request to hold (`true`) or to resume. */
  function LastHold(cs: seq<Command>): Option<bool> {
    if cs == [] then None
    else
      match cs[|cs| - 1]
      case Hold => Some(true)
      case Resume => Some(false)
      case _ => LastHold(cs[..|cs| - 1])
  }

  function LastGains(cs: seq<Command>): Option<(real, real, real)> {
    if cs == [] then None
    else
      match cs[|cs| - 1]
      case SetGains(kp, ki, kd) => Some((kp, ki, kd))
      case _ => LastGains(cs[..|cs| - 1])
  }

  function LastSetpoint(cs: seq<Command>): Option<real> {
    if cs == [] then None
    else
      match cs[|cs| - 1]
      case SetPoint(sp) => Some(sp)
      case _ => LastSetpoint(cs[..|cs| - 1])
  }

  /** The last interval that is a duration, in seconds. */
  function LastInterval(cs: seq<Command>): Option<real> {
    if cs == [] then None
    else
      match cs[|cs| - 1]
      case SetInterval(secs) => if Convertible(secs) then Some(secs) else LastInterval(cs[..|cs| - 1])
      case _ => LastInterval(cs[..|cs| - 1])
  }

  function Latest<T>(earlier: Option<T>, later: Option<T>): Option<T> {
    if later.Some? then later else earlier
  }

  lemma {:induction false} LatestOfBoth(a: seq<Command>, b: seq<Command>)
    ensures LastHold(a + b) == Latest(LastHold(a), LastHold(b))
    ensures LastGains(a + b) == Latest(LastGains(a), LastGains(b))
    ensures LastSetpoint(a + b) == Latest(LastSetpoint(a), LastSetpoint(b))
    ensures LastInterval(a + b) == Latest(LastInterval(a), LastInterval(b))
  {
    if b == [] {
      assert a + b == a;
    } else {
      assert (a + b)[..|a + b| - 1] == a + b[..|b| - 1];
      LatestOfBoth(a, b[..|b| - 1]);
    }
  }

  /** The commands the loop served, oldest first: none once it has stopped or is asked to, and in one sleep
      those before the first that panics. */
  function Heard(args: LoopArgs, s: LoopState, ws: seq<Wake>): seq<Command> {
    if ws == [] then []
    else
      var before, w := ws[..|ws| - 1], ws[|ws| - 1];
      Heard(args, s, before)
      + if Run(args, s, before).exit.Some? || w.shutdownBefore then [] else Served(w.commands)
  }

  lemma {:induction false} ServedStopsAtPanic(cs: seq<Command>) returns (n: nat)
    ensures n <= |cs| && Served(cs) == cs[..n]
    ensures forall j :: 0 <= j < n ==> !Panics(cs[j])
    ensures n < |cs| ==> Panics(cs[n])
  {
    hide Panics;
    if cs == [] || Panics(cs[0]) {
      n := 0;
    } else {
      var m := ServedStopsAtPanic(cs[1..]);
      n := m + 1;
      assert cs[..n] == [cs[0]] + cs[1..][..m];
      forall j | 0 <= j < n ensures !Panics(cs[j]) {
        if j > 0 {
          assert cs[j] == cs[1..][j - 1];
        }
      }
      assert n < |cs| ==> cs[n] == cs[1..][m];
    }
  }

  // ---------- what is in force ----------

  /** `t` differs from `s` as the commands say and not otherwise, as far as they say anything. */
  ghost predicate Obeys(s: LoopState, cs: seq<Command>, t: LoopState) {
    var c, d := s.session.ctrl.config, t.session.ctrl.config;
    && t.hold == LastHold(cs).GetOr(s.hold)
    && (d.kp, d.ki, d.kd) == LastGains(cs).GetOr((c.kp, c.ki, c.kd))
    && d.setpoint == LastSetpoint(cs).GetOr(c.setpoint)
    && t.runtime.interval == (if LastInterval(cs).Some? && Convertible(LastInterval(cs).value)
                              then NanosFrom(LastInterval(cs).value) else s.runtime.interval)
    && d == c.(kp := d.kp, ki := d.ki, kd := d.kd, setpoint := d.setpoint)
  }

  lemma {:induction false} ConvertibleInterval(cs: seq<Command>)
    ensures LastInterval(cs).Some? ==> Convertible(LastInterval(cs).value)
  {
    if cs != [] {
      ConvertibleInterval(cs[..|cs| - 1]);
    }
  }

  lemma ObeysBoth(s: LoopState, a: seq<Command>, t: LoopState, b: seq<Command>, u: LoopState)
    requires Obeys(s, a, t) && Obeys(t, b, u)
    ensures Obeys(s, a + b, u)
  {
    hide NanosFrom, Convertible;
    LatestOfBoth(a, b);
    ConvertibleInterval(a);
    ConvertibleInterval(b);
  }

  lemma LatestOfOne(c: Command)
    ensures LastHold([c]) == (if c.Hold? then Some(true) else if c.Resume? then Some(false) else None)
    ensures LastGains([c]) == (if c.SetGains? then Some((c.kp, c.ki, c.kd)) else None)
    ensures LastSetpoint([c]) == (if c.SetPoint? then Some(c.sp) else None)
    ensures LastInterval([c]) == (if c.SetInterval? && Convertible(c.secs) then Some(c.secs) else None)
  {
    hide Convertible;
    assert [c][..0] == [];
    assert LastHold([]).None? && LastGains([]).None? && LastSetpoint([]).None? && LastInterval([]).None?;
  }

  lemma CommandObeyed(s: LoopState, c: Command)
    ensures Obeys(s, [c], ApplyCommand(s, c)) && Obeys(s, [], s)
  {
    LatestOfOne(c);
    hide NanosFrom, Convertible, AfterCall, UserSet.SetIfDefault;
  }

  lemma {:induction false} CommandsObeyed(s: LoopState, cs: seq<Command>)
    ensures Obeys(s, cs, ApplyCommands(s, cs))
  {
    hide Obeys, ApplyCommand;
    if cs == [] {
      CommandObeyed(s, Hold);
    } else {
      var before, c := cs[..|cs| - 1], cs[|cs| - 1];
      CommandsObeyed(s, before);
      CommandObeyed(ApplyCommands(s, before), c);
      ObeysBoth(s, before, ApplyCommands(s, before), [c], ApplyCommands(s, cs));
      assert before + [c] == cs;
    }
  }

  /** What a command can change and nothing else does. */
  ghost predicate Kept(s: LoopState, t: LoopState) {
    && t.hold == s.hold && t.runtime == s.runtime && t.session.ctrl.config == s.session.ctrl.config
    && t.store.flushInterval == s.store.flushInterval
  }

  lemma EndsKeep(args: LoopArgs, s: LoopState, w: Wake, exit: Exit)
    ensures Kept(s, SafeCvWritten(args, s, w)) && Kept(s, Finished(args, s, w, exit))
    ensures Kept(s, PvLost(args, s, w))
  {
  }

  lemma TickKeeps(args: LoopArgs, s: LoopState, w: Wake, pv: real, dt: real)
    ensures Kept(s, TickStepped(args, s, w, pv, dt))
  {
    hide StepDefined, StepPanics, Processed;
    if StepDefined(s.session.ctrl, InputOf(s.session, pv, dt, w.ff)) {
      ProcessedConfig(s.session, pv, dt, w.ff, w.cvAccepted);
    }
  }

  lemma WokenKeeps(args: LoopArgs, s: LoopState, w: Wake)
    ensures Kept(s, Woken(args, s, w))
  {
    hide TickStepped, PvLost, Finished, Scaled, Schedule.NextDeadline, GateDt;
    if s.runtime.interval > 0 && !s.hold && GateOf(args, s, w).Use?
       && Schedule.NextDeadline(s.deadline, s.runtime.interval, w.now) < INSTANT_LIMIT
    {
      var dt := GateOf(args, s, w).dt;
      var t := s.(deadline := Schedule.NextDeadline(s.deadline, s.runtime.interval, w.now), lastTick := w.now);
      EndsKeep(args, t, w, IterationLimit);
      if w.pv.Some? {
        TickKeeps(args, t.(pvFails := 0), w, Scaled(args, w.pv.value), dt);
        EndsKeep(args, TickStepped(args, t.(pvFails := 0), w, Scaled(args, w.pv.value), dt), w, IterationLimit);
      }
    }
  }

  /** Nothing but its served commands changes what is in force in a round. */
  lemma RoundKeeps(args: LoopArgs, s: LoopState, w: Wake)
    ensures var t := if s.exit.Some? || w.shutdownBefore then s else ApplyCommands(s, Served(w.commands));
            Kept(t, Round(args, s, w))
  {
    hide Woken, Finished, ApplyCommands, Served;
    EndsKeep(args, s, w, Shutdown);
    var t := ApplyCommands(s, Served(w.commands));
    EndsKeep(args, t, w, Shutdown);
    if ServesAll(w.commands) {
      WokenKeeps(args, t, w);
    }
  }

  lemma KeptObeys(s: LoopState, cs: seq<Command>, t: LoopState, u: LoopState)
    requires Obeys(s, cs, t) && Kept(t, u)
    ensures Obeys(s, cs, u)
  {
  }

  /** After any run the loop is on hold exactly when the last request served was to hold, and its gains,
      setpoint and interval are those of the last request that set them; without a request they are what they
      were at the start. */
  lemma {:induction false} RequestsObeyed(args: LoopArgs, s: LoopState, ws: seq<Wake>)
    ensures Obeys(s, Heard(args, s, ws), Run(args, s, ws))
  {
    hide Obeys, Round, Kept, Served, ApplyCommands;
    if ws == [] {
      CommandsObeyed(s, []);
      assert ApplyCommands(s, []) == s by { NoCommandsApplied(s); }
    } else {
      var before, w := ws[..|ws| - 1], ws[|ws| - 1];
      var t := Run(args, s, before);
      RequestsObeyed(args, s, before);
      var cs := if t.exit.Some? || w.shutdownBefore then [] else Served(w.commands);
      CommandsObeyed(t, cs);
      NoCommandsApplied(t);
      RoundKeeps(args, t, w);
      KeptObeys(t, cs, ApplyCommands(t, cs), Round(args, t, w));
      ObeysBoth(s, Heard(args, s, before), t, cs, Round(args, t, w));
    }
  }

  lemma NoCommandsApplied(s: LoopState)
    ensures ApplyCommands(s, []) == s
  {
  }

  // ---------- hold and resume ----------

  /** The round is not asked to stop, and after its commands the loop is on hold. */
  predicate RoundOnHold(s: LoopState, w: Wake) {
    && s.exit.None? && !w.shutdownBefore && !w.shutdownAfter
    && LastHold(Served(w.commands)).GetOr(s.hold)
  }

  /** What a hold freezes: no CV is written, no tick counted, nothing read and nothing measured. */
  predicate Frozen(s: LoopState, t: LoopState) {
    && t.written == s.written && t.session.snap.iter == s.session.snap.iter && t.lastTick == s.lastTick
    && t.cvFails == s.cvFails && t.pvFails == s.pvFails
    && t.session.ctrl.runtime.lastPv == s.session.ctrl.runtime.lastPv
    && t.session.ctrl.runtime.lastError == s.session.ctrl.runtime.lastError
  }

  lemma CommandFreezes(s: LoopState, c: Command)
    ensures Frozen(s, ApplyCommand(s, c))
  {
    hide NanosFrom, Convertible, AfterCall, WithInterval;
  }

  lemma {:induction false} CommandsFreeze(s: LoopState, cs: seq<Command>)
    ensures Frozen(s, ApplyCommands(s, cs))
  {
    hide ApplyCommand;
    if cs != [] {
      CommandsFreeze(s, cs[..|cs| - 1]);
      CommandFreezes(ApplyCommands(s, cs[..|cs| - 1]), cs[|cs| - 1]);
    }
  }

  lemma HeldRoundFreezes(args: LoopArgs, s: LoopState, w: Wake)
    requires RoundOnHold(s, w)
    ensures Frozen(s, Round(args, s, w)) && Round(args, s, w).hold
  {
    hide ApplyCommands, Served, Measured;
    CommandsFreeze(s, Served(w.commands));
    CommandsObeyed(s, Served(w.commands));
  }

  /** As long as a loop that is on hold is not told to resume, or to stop, it does nothing. */
  lemma {:induction false} HeldRunFreezes(args: LoopArgs, s: LoopState, ws: seq<Wake>)
    requires s.hold && s.exit.None?
    requires forall i :: 0 <= i < |ws| ==> !ws[i].shutdownBefore && !ws[i].shutdownAfter
    requires forall i :: 0 <= i < |ws| ==> LastHold(Served(ws[i].commands)) != Some(false)
    ensures Frozen(s, Run(args, s, ws)) && Run(args, s, ws).hold
  {
    hide Round, Served, LastHold;
    if ws != [] {
      var before, w := ws[..|ws| - 1], ws[|ws| - 1];
      HeldRunFreezes(args, s, before);
      var t := Run(args, s, before);
      if t.exit.Some? {
        ExitStays(args, t, w);
      } else {
        HeldRoundFreezes(args, t, w);
      }
    }
  }

  lemma ExitStays(args: LoopArgs, s: LoopState, w: Wake)
    requires s.exit.Some?
    ensures Round(args, s, w) == s
  {
  }

  /** `u` is `s` after a step on `input`: its CV is written first if the actuator takes it. Where no step is
      possible the loop ends. */
  ghost predicate Stepped(s: LoopState, input: StepInput, accepted: bool, u: LoopState) {
    if StepDefined(s.session.ctrl, input) then
      && u.session.ctrl == PidStep(s.session.ctrl, input).0
      && (accepted ==> s.written + [PidStep(s.session.ctrl, input).1.cv] <= u.written)
    else u.exit in {Some(Panicked), Some(BeyondReals)}
  }

  /** A round that wakes up without being on hold - the first after a resume among them - measures. The clock
      of the last tick is set; and if the time since the tick before, however long the hold was, passes the
      gate and a PV is read, a step is taken on the scaled PV with the options that were asked for. */
  lemma ReleasedRoundMeasures(args: LoopArgs, s: LoopState, w: Wake, raw: real, pv: real)
    requires Awake(s, w) && !LastHold(w.commands).GetOr(s.hold)
    requires raw == (if w.now >= s.lastTick then w.now - s.lastTick else 0) as real / 1.0e9
    requires w.pv.Some? ==> pv == w.pv.value * args.scale
    ensures var t, u := ApplyCommands(s, w.commands), Round(args, s, w);
            var gate := GateDt(raw, args.minDt, t.runtime.maxDt.v, args.dtClamp);
            && u.lastTick == w.now
            && (gate.Disordered? ==> u.exit == Some(Panicked))
            && (gate.Skip? ==> u.exit.None? && u.written == s.written && u.session == WithDtSkipped(t.session))
            && (gate.Use? && w.pv.Some? ==> Stepped(t, InputOf(t.session, pv, gate.dt, w.ff), w.cvAccepted, u))
  {
    hide ApplyCommands, Served, Measured, GateDt, Stepped, Schedule.NextDeadline, AfterCall, Secs;
    CommandsObeyed(s, w.commands);
    CommandsFreeze(s, w.commands);
    CommandsKeepRecords(s, w.commands);
    var t := ApplyCommands(s, w.commands);
    SecsIs(Elapsed(s.lastTick, w.now));
    assert Secs(Elapsed(t.lastTick, w.now)) == raw;
    if GateOf(args, t, w).Use? {
      var v := t.(deadline := Schedule.NextDeadline(t.deadline, t.runtime.interval, w.now), lastTick := w.now);
      MeasuredSteps(args, v, w, GateOf(args, t, w).dt, pv);
      SteppedFrom(t, v, InputOf(t.session, pv, GateOf(args, t, w).dt, w.ff), w.cvAccepted, Round(args, s, w));
    }
  }

  lemma SecsIs(n: nat)
    ensures Secs(n) == n as real / 1.0e9
  {
  }

  lemma SteppedFrom(s: LoopState, t: LoopState, input: StepInput, accepted: bool, u: LoopState)
    requires s.session == t.session && s.written == t.written && t.exit == s.exit
    ensures Stepped(t, input, accepted, u) ==> Stepped(s, input, accepted, u)
  {
    hide StepDefined, PidStep;
  }

  lemma MeasuredSteps(args: LoopArgs, s: LoopState, w: Wake, dt: real, pv: real)
    requires s.exit.None? && (w.pv.Some? ==> pv == w.pv.value * args.scale)
    ensures var u := Measured(args, s, w, dt);
            && u.lastTick == s.lastTick
            && (w.pv.Some? ==> Stepped(s, InputOf(s.session, pv, dt, w.ff), w.cvAccepted, u))
  {
    if w.pv.Some? {
      assert Scaled(args, w.pv.value) == pv;
      hide TickStepped, Stepped, Finished, Scaled;
      var q, input := TickStepped(args, s.(pvFails := 0), w, pv, dt), InputOf(s.session, pv, dt, w.ff);
      TickSteps(args, s.(pvFails := 0), w, dt, pv);
      SteppedFrom(s, s.(pvFails := 0), input, w.cvAccepted, q);
      if q.exit.None? {
        FinishedStepped(args, s, input, q, w);
      }
    }
  }

  lemma TickSteps(args: LoopArgs, s: LoopState, w: Wake, dt: real, pv: real)
    requires s.exit.None?
    ensures var u := TickStepped(args, s, w, pv, dt);
            u.lastTick == s.lastTick && Stepped(s, InputOf(s.session, pv, dt, w.ff), w.cvAccepted, u)
  {
    hide StepDefined, StepPanics, PidStep, BuildSnapshot, AfterCall;
  }

  lemma FinishedStepped(args: LoopArgs, s: LoopState, input: StepInput, t: LoopState, w: Wake)
    requires Stepped(s, input, w.cvAccepted, t) && t.exit.None?
    ensures var u := Finished(args, t, w, IterationLimit);
            u.lastTick == t.lastTick && Stepped(s, input, w.cvAccepted, u)
  {
    hide StepDefined, PidStep, AfterCall;
  }

  // ---------- the gate and the options that follow the interval ----------

  /** The gate uses a time between its limits as it is. Outside them it skips the tick, or if it clamps takes
      the nearest time between them - unless there is none. */
  lemma GateMeans(raw: real, minDt: real, maxDt: real, dtClamp: bool)
    ensures var gate, l := GateDt(raw, minDt, maxDt, dtClamp), Limits(Some(minDt), Some(maxDt));
            && (l.Contains(raw) ==> gate == Use(raw))
            && (!l.Contains(raw) && !dtClamp ==> gate == Skip)
            && (!l.Contains(raw) && dtClamp ==>
                  if l.Ordered() then gate.Use? && l.Nearest(raw, gate.dt) else gate == Disordered)
  {
    var l := Limits(Some(minDt), Some(maxDt));
    if l.Ordered() {
      ClampIsNearest(l, raw);
    }
  }

  /** The options that were left to their defaults are what the interval makes them: three intervals for the
      longest `dt`, within a hundredth of a second and a minute; one interval for the wait for a PV; and one
      interval, at least a tenth of a second, between state writes. */
  ghost predicate Derived(r: LoopRuntime) {
    && (r.maxDt.Default? ==>
          Limits(Some(0.01), Some(60.0)).Nearest(3.0 * (r.interval as real / 1.0e9), r.maxDt.v))
    && (r.pvStdinTimeout.Default? ==> r.pvStdinTimeout.v == r.interval)
    && (r.stateWriteInterval.Default? ==>
          r.stateWriteInterval.v == Some(if r.interval >= 100_000_000 then r.interval else 100_000_000))
  }

  /** What the user set stays as it was set, and what was left to the defaults stays so. */
  predicate UserChoicesKept(r: LoopRuntime, q: LoopRuntime) {
    && (r.maxDt.Default? <==> q.maxDt.Default?) && (r.maxDt.Explicit? ==> q.maxDt == r.maxDt)
    && (r.pvStdinTimeout.Default? <==> q.pvStdinTimeout.Default?)
    && (r.pvStdinTimeout.Explicit? ==> q.pvStdinTimeout == r.pvStdinTimeout)
    && (r.stateWriteInterval.Default? <==> q.stateWriteInterval.Default?)
    && (r.stateWriteInterval.Explicit? ==> q.stateWriteInterval == r.stateWriteInterval)
  }

  lemma IntervalDerives(r: LoopRuntime, interval: nat)
    ensures Derived(WithInterval(r, interval)) && UserChoicesKept(r, WithInterval(r, interval))
    ensures WithInterval(r, interval).interval == interval
  {
    ClampIsNearest(Limits(Some(0.01), Some(60.0)), Secs(interval) * MAX_DT_INTERVAL_MULTIPLIER);
  }

  /** `t` comes from `s` by interval changes, each of which the derived options have followed. */
  ghost predicate Follows(s: LoopState, t: LoopState) {
    && UserChoicesKept(s.runtime, t.runtime)
    && (Derived(s.runtime) ==> Derived(t.runtime))
    && (s.store.flushInterval == s.runtime.stateWriteInterval.v ==>
          t.store.flushInterval == t.runtime.stateWriteInterval.v)
  }

  lemma {:induction false} CommandsDerive(s: LoopState, cs: seq<Command>)
    ensures Follows(s, ApplyCommands(s, cs))
  {
    hide NanosFrom, Convertible, WithInterval, Derived;
    if cs != [] {
      var t, c := ApplyCommands(s, cs[..|cs| - 1]), cs[|cs| - 1];
      CommandsDerive(s, cs[..|cs| - 1]);
      if c.SetInterval? && Convertible(c.secs) {
        IntervalDerives(t.runtime, NanosFrom(c.secs));
      }
    }
  }

  /** After any run the options that follow the interval fit the interval in force, the explicit ones are
      untouched, and the persister coalesces by the option in force. */
  lemma {:induction false} OptionsFollowInterval(args: LoopArgs, s: LoopState, ws: seq<Wake>)
    ensures Follows(s, Run(args, s, ws))
  {
    hide Round, Derived, ApplyCommands, Served;
    if ws != [] {
      var before, w := ws[..|ws| - 1], ws[|ws| - 1];
      var t := Run(args, s, before);
      OptionsFollowInterval(args, s, before);
      RoundKeeps(args, t, w);
      if t.exit.None? && !w.shutdownBefore {
        CommandsDerive(t, Served(w.commands));
      }
    }
  }

  /** An interval is served exactly when it is not negative and below 2^64 seconds, and taken to the nearest
      nanosecond, or of two to the even one. */
  lemma NanosAreNearest(secs: real)
    ensures Panics(SetInterval(secs)) <==> secs < 0.0 || secs >= 18446744073709551616.0
    ensures !Panics(SetInterval(secs)) ==>
              var off := NanosFrom(secs) as real - secs * 1.0e9;
              -0.5 <= off <= 0.5 && (off in {-0.5, 0.5} ==> NanosFrom(secs) % 2 == 0)
  {
  }
}
