/** When the control loop can panic: an interval that is no duration, a deadline past the clock, gate limits
    out of order, and a tick longer than the bound of the automatic tracking time - which is fixed at
    start-up. */
module LoopPanics {
  import opened RealMath
  import opened PidCore
  import opened Saturation
  import opened Persistence
  import opened Session
  import opened Loop
  import opened LoopAccounting
  import LoopClock
  import Schedule

  // ---------- the gate ----------

  function Nanos(secs: real): int {
    (secs * NANOS_PER_SEC).Floor
  }

  /** The longest `dt` the gate can let through; measured times are whole nanoseconds. */
  function Widest(args: LoopArgs, maxDt: real): real {
    if args.dtClamp then maxDt else Nanos(maxDt) as real / NANOS_PER_SEC
  }

  predicate Passable(args: LoopArgs, maxDt: real) {
    args.minDt <= Widest(args, maxDt)
  }

  /** A tick can panic: the gate clamps with its limits out of order, or lets through a `dt` past the bound of
      the tracking time. */
  predicate PanickingGate(args: LoopArgs, c: PidConfig, maxDt: real) {
    || (args.dtClamp && args.minDt > maxDt)
    || (Passable(args, maxDt) && MayCorrect(c) && TrackingPanics(c, Widest(args, maxDt)))
  }

  /** Every tick the gate lets through stays within the finite numbers. */
  predicate SafeGate(args: LoopArgs, c: PidConfig, maxDt: real) {
    !PanickingGate(args, c, maxDt) && (Passable(args, maxDt) && MayCorrect(c) ==> NumericTracking(c))
  }

  lemma SecsOrder(n: nat, x: real)
    ensures Secs(n) <= x <==> n <= Nanos(x)
    ensures Nanos(x) as real / NANOS_PER_SEC <= x
  {
  }

  /** What the gate makes of `n` nanoseconds: nothing wider than `Widest`. */
  lemma GateWidth(args: LoopArgs, maxDt: real, n: nat)
    requires n > 0 && maxDt > 0.0
    ensures var gate := GateDt(Secs(n), args.minDt, maxDt, args.dtClamp);
            && (gate.Use? ==> 0.0 < gate.dt <= Widest(args, maxDt) && Passable(args, maxDt))
            && (gate.Disordered? ==> args.dtClamp && args.minDt > maxDt)
  {
    SecsOrder(n, maxDt);
    assert Secs(n) > 0.0;
    hide Secs, Nanos;
    SecsMonotone(n, Nanos(maxDt));
  }

  lemma SecsMonotone(n: nat, m: int)
    ensures n <= m ==> Secs(n) <= m as real / NANOS_PER_SEC
  {
  }

  /** `Widest` itself passes, after any longer time if the gate clamps. */
  lemma WidestPasses(args: LoopArgs, maxDt: real, atLeast: nat) returns (n: nat)
    requires Passable(args, maxDt) && Widest(args, maxDt) > 0.0 && maxDt > 0.0
    requires args.dtClamp || atLeast <= Nanos(maxDt)
    ensures atLeast <= n <= (if atLeast <= Nanos(maxDt) then Nanos(maxDt) + 1 else atLeast)
    ensures GateDt(Secs(n), args.minDt, maxDt, args.dtClamp) == Use(Widest(args, maxDt))
  {
    SecsOrder(0, maxDt);
    if args.dtClamp {
      n := if Nanos(maxDt) + 1 >= atLeast then Nanos(maxDt) + 1 else atLeast;
      SecsOrder(n, maxDt);
    } else {
      PositiveNanos(Nanos(maxDt));
      n := Nanos(maxDt);
    }
  }

  lemma PositiveNanos(n: int)
    requires n as real / NANOS_PER_SEC > 0.0
    ensures n > 0
  {
  }

  // ---------- settings change by commands alone ----------

  datatype Settings = Settings(config: PidConfig, runtime: LoopRuntime)

  function SettingsOf(s: LoopState): Settings {
    Settings(s.session.ctrl.config, s.runtime)
  }

  function Changed(c: Settings, cmd: Command): Settings {
    match cmd
    case SetGains(kp, ki, kd) => c.(config := c.config.(kp := kp, ki := ki, kd := kd))
    case SetPoint(sp) => c.(config := c.config.(setpoint := sp))
    case SetInterval(secs) => if Convertible(secs) then c.(runtime := WithInterval(c.runtime, NanosFrom(secs))) else c
    case _ => c
  }

  function ChangedBy(c: Settings, cs: seq<Command>): Settings {
    if cs == [] then c else Changed(ChangedBy(c, cs[..|cs| - 1]), cs[|cs| - 1])
  }

  /** The settings after all commands of the first wake-ups. */
  function SettingsAfter(c: Settings, ws: seq<Wake>): Settings {
    if ws == [] then c else ChangedBy(SettingsAfter(c, ws[..|ws| - 1]), ws[|ws| - 1].commands)
  }

  /** Nothing the world does before the clock reads `horizon` can make the loop fail under these settings. */
  predicate SafeSettings(args: LoopArgs, c: Settings, horizon: nat) {
    && 0 < c.runtime.interval && horizon + c.runtime.interval < INSTANT_LIMIT
    && c.runtime.maxDt.v > 0.0 && SafeGate(args, c.config, c.runtime.maxDt.v)
  }

  lemma {:induction false} CommandsChangeSettings(s: LoopState, cs: seq<Command>)
    ensures SettingsOf(ApplyCommands(s, cs)) == ChangedBy(SettingsOf(s), cs)
    ensures ValidConfig(s.session.ctrl.config) ==> ValidConfig(ApplyCommands(s, cs).session.ctrl.config)
  {
    hide WithInterval;
    if cs != [] {
      CommandsChangeSettings(s, cs[..|cs| - 1]);
    }
  }

  lemma MeasuredSettings(args: LoopArgs, s: LoopState, w: Wake, dt: real)
    requires s.exit.None?
    ensures SettingsOf(Measured(args, s, w, dt)) == SettingsOf(s)
  {
    hide Processed, StepDefined, Scaled, AfterCall;
    if w.pv.Some? && StepDefined(s.session.ctrl, InputOf(s.session, Scaled(args, w.pv.value), dt, w.ff)) {
      ProcessedConfig(s.session, Scaled(args, w.pv.value), dt, w.ff, w.cvAccepted);
    }
  }

  lemma WokenSettings(args: LoopArgs, s: LoopState, w: Wake)
    requires s.exit.None?
    ensures SettingsOf(Woken(args, s, w)) == SettingsOf(s)
  {
    hide Measured, AfterCall;
    if s.runtime.interval > 0 && !s.hold && GateOf(args, s, w).Use? {
      var t := s.(deadline := Schedule.NextDeadline(s.deadline, s.runtime.interval, w.now), lastTick := w.now);
      MeasuredSettings(args, t, w, GateOf(args, s, w).dt);
    }
  }

  /** Nothing but its commands changes the settings of a round that leaves the loop running. */
  lemma RoundSettings(args: LoopArgs, s: LoopState, w: Wake)
    requires Round(args, s, w).exit.None?
    ensures SettingsOf(Round(args, s, w)) == ChangedBy(SettingsOf(s), w.commands)
  {
    hide Woken, SafeCvWritten, AfterCall;
    CommandsChangeSettings(s, w.commands);
    CommandsKeepRecords(s, w.commands);
    if s.exit.None? && !w.shutdownBefore && !w.shutdownAfter {
      WokenSettings(args, ApplyCommands(s, w.commands), w);
    }
  }

  lemma {:induction false} RunSettings(args: LoopArgs, s: LoopState, ws: seq<Wake>)
    requires Run(args, s, ws).exit.None?
    ensures SettingsOf(Run(args, s, ws)) == SettingsAfter(SettingsOf(s), ws)
  {
    hide Round;
    if ws != [] {
      var before := Run(args, s, ws[..|ws| - 1]);
      ExitIsFinal(args, before, ws[|ws| - 1]);
      RunSettings(args, s, ws[..|ws| - 1]);
      RoundSettings(args, before, ws[|ws| - 1]);
    }
  }

  lemma {:induction false} SettingsStayValid(c: Settings, ws: seq<Wake>)
    requires ValidConfig(c.config)
    ensures ValidConfig(SettingsAfter(c, ws).config)
  {
    if ws != [] {
      SettingsStayValid(c, ws[..|ws| - 1]);
      CommandsStayValid(SettingsAfter(c, ws[..|ws| - 1]), ws[|ws| - 1].commands);
    }
  }

  lemma {:induction false} CommandsStayValid(c: Settings, cs: seq<Command>)
    requires ValidConfig(c.config)
    ensures ValidConfig(ChangedBy(c, cs).config)
  {
    if cs != [] {
      CommandsStayValid(c, cs[..|cs| - 1]);
    }
  }

  // ---------- what a failing round says ----------

  /** A loop that waits for its next deadline. */
  predicate Awaiting(s: LoopState) {
    s.exit.None? && s.lastTick < s.deadline && ValidConfig(s.session.ctrl.config)
  }

  predicate Failed(s: LoopState) {
    s.exit in {Some(Panicked), Some(Hung), Some(BeyondReals)}
  }

  lemma GatedStepDefined(args: LoopArgs, s: PidState, input: StepInput, maxDt: real)
    requires ValidConfig(s.config) && SafeGate(args, s.config, maxDt) && Passable(args, maxDt)
    requires 0.0 < input.dt <= Widest(args, maxDt)
    ensures StepDefined(s, input)
  {
    hide TermsOf, Widest, Passable;
  }

  lemma WiderPanics(args: LoopArgs, c: PidConfig, maxDt: real, dt: real)
    requires dt <= Widest(args, maxDt) && Passable(args, maxDt) && MayCorrect(c) && TrackingPanics(c, dt)
    ensures PanickingGate(args, c, maxDt)
  {
    hide Widest, Passable, MayCorrect;
  }

  lemma DisorderPanics(args: LoopArgs, c: PidConfig, maxDt: real)
    ensures args.dtClamp && args.minDt > maxDt ==> PanickingGate(args, c, maxDt) && !SafeGate(args, c, maxDt)
  {
  }

  /** A tick that fails in a round woken on time. */
  lemma TickFails(args: LoopArgs, s: LoopState, w: Wake)
    requires Awaiting(s) && OnTime(s, w) && s.runtime.interval > 0 && !s.hold && s.runtime.maxDt.v > 0.0
    requires Schedule.NextDeadline(s.deadline, s.runtime.interval, w.now) < INSTANT_LIMIT
    ensures var c, maxDt, t := s.session.ctrl.config, s.runtime.maxDt.v, Woken(args, s, w);
            && (t.exit == Some(Panicked) ==> PanickingGate(args, c, maxDt))
            && (Failed(t) ==> !SafeGate(args, c, maxDt))
  {
    hide Measured, SafeGate, PanickingGate, Passable, Widest, StepDefined, StepPanics, Scaled, AfterCall, Processed;
    hide MayCorrect, TrackingPanics;
    var c, maxDt := s.session.ctrl.config, s.runtime.maxDt.v;
    GateWidth(args, maxDt, Elapsed(s.lastTick, w.now));
    DisorderPanics(args, c, maxDt);
    if GateOf(args, s, w).Use? {
      var dt := GateOf(args, s, w).dt;
      var next := Schedule.NextDeadline(s.deadline, s.runtime.interval, w.now);
      MeasuredRecords(args, s.(deadline := next, lastTick := w.now), w, dt);
      if w.pv.Some? {
        var input := InputOf(s.session, Scaled(args, w.pv.value), dt, w.ff);
        PanicsAreUndefined(s.session.ctrl, input);
        if StepPanics(s.session.ctrl, input) {
          WiderPanics(args, c, maxDt, dt);
        }
        if SafeGate(args, c, maxDt) {
          GatedStepDefined(args, s.session.ctrl, input, maxDt);
        }
      }
    }
  }

  lemma RoundIsWoken(args: LoopArgs, s: LoopState, w: Wake)
    requires s.exit.None? && !w.shutdownBefore && !w.shutdownAfter && ServesAll(w.commands)
    ensures Round(args, s, w) == Woken(args, ApplyCommands(s, w.commands), w)
  {
  }

  lemma ShutdownsEnd(args: LoopArgs, s: LoopState, w: Wake)
    requires s.exit.None? && Failed(Round(args, s, w))
    ensures !w.shutdownBefore && (ServesAll(w.commands) ==> !w.shutdownAfter)
  {
    hide Woken, ApplyCommands, AfterCall, Served;
  }

  lemma HeldRound(args: LoopArgs, s: LoopState, w: Wake)
    requires s.exit.None? && s.runtime.interval > 0 && s.hold
    requires Schedule.NextDeadline(s.deadline, s.runtime.interval, w.now) < INSTANT_LIMIT
    ensures Woken(args, s, w).exit.None?
  {
  }

  /** A round that panics says why. */
  lemma RoundPanicsOnlyIf(args: LoopArgs, s: LoopState, w: Wake)
    requires Awaiting(s) && OnTime(s, w) && ApplyCommands(s, w.commands).runtime.maxDt.v > 0.0
    requires Round(args, s, w).exit == Some(Panicked)
    ensures var t := ApplyCommands(s, w.commands);
            || !ServesAll(w.commands)
            || (t.runtime.interval > 0
                && (|| Schedule.NextDeadline(s.deadline, t.runtime.interval, w.now) >= INSTANT_LIMIT
                    || (!t.hold && PanickingGate(args, t.session.ctrl.config, t.runtime.maxDt.v))))
  {
    ShutdownsEnd(args, s, w);
    if ServesAll(w.commands) {
      var t := ApplyCommands(s, w.commands);
      RoundIsWoken(args, s, w);
      CommandsKeepRecords(s, w.commands);
      CommandsChangeSettings(s, w.commands);
      hide Round, ApplyCommands, PanickingGate;
      if t.runtime.interval > 0 && Schedule.NextDeadline(t.deadline, t.runtime.interval, w.now) < INSTANT_LIMIT {
        if t.hold {
          HeldRound(args, t, w);
        } else {
          TickFails(args, t, w);
        }
      }
    }
  }

  // ---------- safe settings never fail ----------

  /** Every wake-up comes before the clock reads `horizon`, and every command can be served. */
  ghost predicate Orderly(ws: seq<Wake>, horizon: nat) {
    forall j :: 0 <= j < |ws| ==> ws[j].now <= horizon && ServesAll(ws[j].commands)
  }

  lemma SafeRoundRuns(args: LoopArgs, s: LoopState, w: Wake, horizon: nat)
    requires Awaiting(s) && OnTime(s, w) && w.now <= horizon && ServesAll(w.commands)
    requires SafeSettings(args, ChangedBy(SettingsOf(s), w.commands), horizon)
    ensures !Failed(Round(args, s, w))
  {
    if Failed(Round(args, s, w)) {
      ShutdownsEnd(args, s, w);
      RoundIsWoken(args, s, w);
      CommandsKeepRecords(s, w.commands);
      CommandsChangeSettings(s, w.commands);
      hide Round, ApplyCommands, SafeGate, Awaiting;
      var t := ApplyCommands(s, w.commands);
      StillAwaiting(s, w.commands);
      Schedule.NextDeadlineIsLeast(t.deadline, t.runtime.interval, w.now, 1);
      if t.hold {
        HeldRound(args, t, w);
      } else {
        TickFails(args, t, w);
      }
    }
  }

  lemma StillAwaiting(s: LoopState, cs: seq<Command>)
    requires Awaiting(s)
    ensures Awaiting(ApplyCommands(s, cs))
  {
    CommandsKeepRecords(s, cs);
    CommandsChangeSettings(s, cs);
  }

  lemma RoundKeepsAwaiting(args: LoopArgs, s: LoopState, w: Wake)
    requires Awaiting(s) && OnTime(s, w) && Round(args, s, w).exit.None?
    ensures Awaiting(Round(args, s, w))
  {
    hide Round, ApplyCommands, Served, GateDt, WritesCv, ReadsPv;
    LoopClock.RoundSchedule(args, s, w);
    LoopClock.RoundClock(args, s, w);
    RoundSettings(args, s, w);
    CommandsStayValid(SettingsOf(s), w.commands);
    CommandsKeepRecords(s, w.commands);
    var t := ApplyCommands(s, w.commands);
    if Awake(s, w) {
      Schedule.NextDeadlineIsLeast(s.deadline, t.runtime.interval, w.now, 1);
    }
  }

  lemma OnTimeBefore(args: LoopArgs, s: LoopState, ws: seq<Wake>)
    requires ws != [] && RunOnTime(args, s, ws)
    ensures RunOnTime(args, s, ws[..|ws| - 1]) && OnTime(Run(args, s, ws[..|ws| - 1]), ws[|ws| - 1])
  {
    hide Run, OnTime;
    var n := |ws| - 1;
    forall i | 0 <= i < n ensures OnTime(Run(args, s, ws[..n][..i]), ws[..n][i]) {
      assert ws[..n][..i] == ws[..i];
    }
  }

  lemma {:induction false} RunKeepsAwaiting(args: LoopArgs, s: LoopState, ws: seq<Wake>)
    requires Awaiting(s) && RunOnTime(args, s, ws) && Run(args, s, ws).exit.None?
    ensures Awaiting(Run(args, s, ws))
  {
    hide Round, Awaiting, RunOnTime, OnTime;
    if ws != [] {
      var n := |ws| - 1;
      OnTimeBefore(args, s, ws);
      ExitIsFinal(args, Run(args, s, ws[..n]), ws[n]);
      RunKeepsAwaiting(args, s, ws[..n]);
      RoundKeepsAwaiting(args, Run(args, s, ws[..n]), ws[n]);
    }
  }

  lemma LastRoundRuns(args: LoopArgs, s: LoopState, ws: seq<Wake>, horizon: nat)
    requires ws != [] && Awaiting(s) && RunOnTime(args, s, ws) && Orderly(ws, horizon)
    requires SafeSettings(args, SettingsAfter(SettingsOf(s), ws), horizon)
    requires Run(args, s, ws[..|ws| - 1]).exit.None?
    ensures !Failed(Run(args, s, ws))
  {
    hide Round, SafeSettings, Awaiting, RunOnTime, OnTime, ServesAll, SettingsOf, ChangedBy, Failed;
    var before := ws[..|ws| - 1];
    OnTimeBefore(args, s, ws);
    RunKeepsAwaiting(args, s, before);
    RunSettings(args, s, before);
    SafeRoundRuns(args, Run(args, s, before), ws[|ws| - 1], horizon);
  }

  /** No run fails - panics, hangs or leaves the finite numbers - whose commands are durations where they
      should be and keep the settings safe, whatever else the world does. */
  lemma {:induction false} SafeLoopNeverFails(args: LoopArgs, s: LoopState, ws: seq<Wake>, horizon: nat)
    requires Awaiting(s) && RunOnTime(args, s, ws) && Orderly(ws, horizon)
    requires forall j :: 0 < j <= |ws| ==> SafeSettings(args, SettingsAfter(SettingsOf(s), ws[..j]), horizon)
    ensures !Failed(Run(args, s, ws))
  {
    hide Round, SafeSettings, SettingsAfter, RunOnTime, OnTime, ServesAll;
    if ws != [] {
      var n, w := |ws| - 1, ws[|ws| - 1];
      forall j | 0 < j <= n ensures SafeSettings(args, SettingsAfter(SettingsOf(s), ws[..n][..j]), horizon) {
        assert ws[..n][..j] == ws[..j];
      }
      OnTimeBefore(args, s, ws);
      SafeLoopNeverFails(args, s, ws[..n], horizon);
      if Run(args, s, ws[..n]).exit.Some? {
        ExitIsFinal(args, Run(args, s, ws[..n]), w);
      } else {
        assert ws[..n + 1] == ws;
        LastRoundRuns(args, s, ws, horizon);
      }
    }
  }

  // ---------- unsafe settings panic on some measurement ----------

  /** A waiting loop whose output answers the measurement, and whose next wake-up can come as late as the
      gate's widest `dt` after the last tick, before the clock reads `horizon`. */
  ghost predicate Exposed(args: LoopArgs, s: LoopState, horizon: nat) {
    && Awaiting(s) && args.scale != 0.0 && s.runtime.maxDt.v > 0.0
    && s.deadline <= horizon && s.lastTick + Nanos(s.runtime.maxDt.v) + 1 <= horizon
    && (args.dtClamp || s.deadline <= s.lastTick + Nanos(s.runtime.maxDt.v))
    && var w := Widest(args, s.runtime.maxDt.v);
       w > 0.0 && MayCorrect(s.session.ctrl.config) ==> Slope(s.session.ctrl, w) != 0.0
  }

  /** A round that serves these commands and is not asked to stop. */
  function PlainWake(cs: seq<Command>, now: nat, pv: real): Wake {
    var env := SaveEnv(now, true, now);
    Wake(false, cs, false, now, Some(pv), 0.0, true, true, env, env, env)
  }

  predicate Uninterrupted(w: Wake, cs: seq<Command>) {
    w.commands == cs && !w.shutdownBefore && !w.shutdownAfter
  }

  lemma StepPanicEndsRound(args: LoopArgs, s: LoopState, w: Wake, dt: real)
    requires s.exit.None? && s.runtime.interval > 0 && !s.hold && GateOf(args, s, w) == Use(dt) && w.pv.Some?
    requires StepPanics(s.session.ctrl, InputOf(s.session, Scaled(args, w.pv.value), dt, w.ff))
    ensures Woken(args, s, w).exit == Some(Panicked)
  {
    PanicsAreUndefined(s.session.ctrl, InputOf(s.session, Scaled(args, w.pv.value), dt, w.ff));
    hide StepDefined, StepPanics, Scaled, Processed, AfterCall;
  }

  lemma UnscaledOf(args: LoopArgs, pv: real) returns (raw: real)
    requires args.scale != 0.0
    ensures Scaled(args, raw) == pv
  {
    raw := pv / args.scale;
  }

  lemma BoundIsPositive(c: PidConfig, dt: real)
    requires ValidConfig(c) && TrackingPanics(c, dt)
    ensures dt > 0.0
  {
  }

  lemma SomePvPanics(s: PidState, dt: real, prev: real) returns (pv: real)
    requires ValidConfig(s.config) && MayCorrect(s.config) && dt > 0.0 && Slope(s, dt) != 0.0
    requires TrackingPanics(s.config, dt)
    ensures StepPanics(s, StepInput(pv, dt, prev, 0.0))
  {
    SomeStepPanicsIff(s, dt, prev, 0.0);
    pv :| StepPanics(s, StepInput(pv, dt, prev, 0.0));
  }

  /** A measurement that makes a tick of the gate's widest `dt` panic. */
  lemma TickPanics(args: LoopArgs, s: LoopState, cs: seq<Command>, horizon: nat) returns (w: Wake)
    requires Exposed(args, s, horizon) && s.runtime.interval > 0 && !s.hold
    requires Passable(args, s.runtime.maxDt.v) && MayCorrect(s.session.ctrl.config)
    requires TrackingPanics(s.session.ctrl.config, Widest(args, s.runtime.maxDt.v))
    ensures OnTime(s, w) && w.now <= horizon && Uninterrupted(w, cs) && Woken(args, s, w).exit == Some(Panicked)
  {
    var dt := Widest(args, s.runtime.maxDt.v);
    BoundIsPositive(s.session.ctrl.config, dt);
    var n := WidestPasses(args, s.runtime.maxDt.v, s.deadline - s.lastTick);
    var pv := SomePvPanics(s.session.ctrl, dt, Applied(s.session));
    var raw := UnscaledOf(args, pv);
    w := PlainWake(cs, s.lastTick + n, raw);
    hide Widest, Passable, MayCorrect, Slope, TrackingPanics, StepPanics, Scaled, GateDt, Nanos, Secs;
    StepPanicEndsRound(args, s, w, dt);
  }

  lemma DisorderEndsRound(args: LoopArgs, s: LoopState, cs: seq<Command>, horizon: nat) returns (w: Wake)
    requires s.exit.None? && s.runtime.interval > 0 && !s.hold && args.dtClamp && args.minDt > s.runtime.maxDt.v
    requires s.deadline <= horizon
    ensures OnTime(s, w) && w.now <= horizon && Uninterrupted(w, cs) && Woken(args, s, w).exit == Some(Panicked)
  {
    w := PlainWake(cs, s.deadline, 0.0);
    hide Measured, AfterCall;
  }

  lemma PanickingGateEndsRound(args: LoopArgs, s: LoopState, cs: seq<Command>, horizon: nat) returns (w: Wake)
    requires Exposed(args, s, horizon) && s.runtime.interval > 0 && !s.hold
    requires PanickingGate(args, s.session.ctrl.config, s.runtime.maxDt.v)
    ensures OnTime(s, w) && w.now <= horizon && Uninterrupted(w, cs) && Woken(args, s, w).exit == Some(Panicked)
  {
    if args.dtClamp && args.minDt > s.runtime.maxDt.v {
      w := DisorderEndsRound(args, s, cs, horizon);
    } else {
      w := TickPanics(args, s, cs, horizon);
    }
  }

  lemma OverflowEndsRound(args: LoopArgs, s: LoopState, cs: seq<Command>, horizon: nat) returns (w: Wake)
    requires s.exit.None? && s.runtime.interval > 0 && s.deadline <= horizon
    requires Schedule.NextDeadline(s.deadline, s.runtime.interval, horizon) >= INSTANT_LIMIT
    ensures OnTime(s, w) && w.now <= horizon && Uninterrupted(w, cs) && Woken(args, s, w).exit == Some(Panicked)
  {
    w := PlainWake(cs, horizon, 0.0);
  }

  /** One round with these commands, woken on time and before the clock reads `horizon`, and not asked to
      stop, panics. */
  ghost predicate CanPanic(args: LoopArgs, s: LoopState, cs: seq<Command>, horizon: nat) {
    exists w: Wake :: OnTime(s, w) && w.now <= horizon && Uninterrupted(w, cs)
                      && Round(args, s, w).exit == Some(Panicked)
  }

  lemma CommandPanicEndsRound(args: LoopArgs, s: LoopState, w: Wake)
    requires s.exit.None? && !w.shutdownBefore && !ServesAll(w.commands)
    ensures Round(args, s, w).exit == Some(Panicked)
  {
    hide ApplyCommands, Served;
  }

  /** The exact condition: a waiting loop can panic in a round with these commands exactly when one of them
      is an interval that is no duration, or the new interval takes the deadline past the end of the clock,
      or the loop is not on hold and a tick can panic. */
  lemma RoundPanicsIff(args: LoopArgs, s: LoopState, cs: seq<Command>, horizon: nat)
    requires Awaiting(s) && s.deadline <= horizon && Exposed(args, ApplyCommands(s, cs), horizon)
    ensures var t := ApplyCommands(s, cs);
            CanPanic(args, s, cs, horizon)
            <==> || !(forall j :: 0 <= j < |cs| ==> !Panics(cs[j]))
                 || (t.runtime.interval > 0
                     && (|| Schedule.NextDeadline(s.deadline, t.runtime.interval, horizon) >= INSTANT_LIMIT
                         || (!t.hold && PanickingGate(args, t.session.ctrl.config, t.runtime.maxDt.v))))
  {
    ServesAllIff(cs);
    CommandsKeepRecords(s, cs);
    if CanPanic(args, s, cs, horizon) {
      PanicHasReason(args, s, cs, horizon);
    }
    if !ServesAll(cs) {
      var w := PlainWake(cs, s.deadline, 0.0);
      CommandPanicEndsRound(args, s, w);
      Witnessed(args, s, w, cs, horizon);
    } else {
      ReasonPanics(args, s, cs, horizon);
    }
  }

  lemma Witnessed(args: LoopArgs, s: LoopState, w: Wake, cs: seq<Command>, horizon: nat)
    requires OnTime(s, w) && w.now <= horizon && Uninterrupted(w, cs) && Round(args, s, w).exit == Some(Panicked)
    ensures CanPanic(args, s, cs, horizon)
  {
    hide Round;
  }

  lemma PanicHasReason(args: LoopArgs, s: LoopState, cs: seq<Command>, horizon: nat)
    requires Awaiting(s) && ApplyCommands(s, cs).runtime.maxDt.v > 0.0 && CanPanic(args, s, cs, horizon)
    ensures var t := ApplyCommands(s, cs);
            || !ServesAll(cs)
            || (t.runtime.interval > 0
                && (|| Schedule.NextDeadline(s.deadline, t.runtime.interval, horizon) >= INSTANT_LIMIT
                    || (!t.hold && PanickingGate(args, t.session.ctrl.config, t.runtime.maxDt.v))))
  {
    hide Round, ApplyCommands, PanickingGate, Awaiting, ServesAll;
    var w: Wake :| OnTime(s, w) && w.now <= horizon && Uninterrupted(w, cs) && Round(args, s, w).exit == Some(Panicked);
    RoundPanicsOnlyIf(args, s, w);
    var t := ApplyCommands(s, cs);
    if t.runtime.interval > 0 {
      Schedule.NextDeadlineMonotone(s.deadline, t.runtime.interval, w.now, horizon);
    }
  }

  lemma ReasonPanics(args: LoopArgs, s: LoopState, cs: seq<Command>, horizon: nat)
    requires Awaiting(s) && s.deadline <= horizon && Exposed(args, ApplyCommands(s, cs), horizon) && ServesAll(cs)
    ensures var t := ApplyCommands(s, cs);
            t.runtime.interval > 0
            && (|| Schedule.NextDeadline(s.deadline, t.runtime.interval, horizon) >= INSTANT_LIMIT
                || (!t.hold && PanickingGate(args, t.session.ctrl.config, t.runtime.maxDt.v)))
            ==> CanPanic(args, s, cs, horizon)
  {
    CommandsKeepRecords(s, cs);
    hide Round, ApplyCommands, PanickingGate, ServesAll, CanPanic, Woken;
    var t := ApplyCommands(s, cs);
    if t.runtime.interval > 0 {
      if Schedule.NextDeadline(s.deadline, t.runtime.interval, horizon) >= INSTANT_LIMIT {
        var w := OverflowEndsRound(args, t, cs, horizon);
        RoundIsWoken(args, s, w);
        Witnessed(args, s, w, cs, horizon);
      } else if !t.hold && PanickingGate(args, t.session.ctrl.config, t.runtime.maxDt.v) {
        var w := PanickingGateEndsRound(args, t, cs, horizon);
        RoundIsWoken(args, s, w);
        Witnessed(args, s, w, cs, horizon);
      }
    }
  }

  // ---------- whole runs ----------

  ghost predicate NoCommands(ws: seq<Wake>) {
    forall i :: 0 <= i < |ws| ==> ws[i].commands == []
  }

  /** Left to itself, a loop whose tracking time is a number has a run that panics exactly when a tick can
      panic under its settings - and then the first wake-up can do it. */
  lemma LoopPanicsIff(args: LoopArgs, s: LoopState, horizon: nat)
    requires Exposed(args, s, horizon) && s.runtime.interval > 0 && !s.hold
    requires NumericTracking(s.session.ctrl.config) && horizon + s.runtime.interval < INSTANT_LIMIT
    ensures (exists ws :: NoCommands(ws) && Orderly(ws, horizon) && RunOnTime(args, s, ws)
                          && Run(args, s, ws).exit == Some(Panicked))
            <==> PanickingGate(args, s.session.ctrl.config, s.runtime.maxDt.v)
  {
    hide PanickingGate, Round, Run, NumericTracking;
    if PanickingGate(args, s.session.ctrl.config, s.runtime.maxDt.v) {
      var w := PanickingGateEndsRound(args, s, [], horizon);
      RoundIsWoken(args, s, w);
      OneWake(args, s, w, horizon);
    } else if ws :| NoCommands(ws) && Orderly(ws, horizon) && RunOnTime(args, s, ws)
                    && Run(args, s, ws).exit == Some(Panicked) {
      forall j | 0 < j <= |ws| ensures SafeSettings(args, SettingsAfter(SettingsOf(s), ws[..j]), horizon) {
        SettingsUnchanged(SettingsOf(s), ws[..j]);
      }
      SafeLoopNeverFails(args, s, ws, horizon);
    }
  }

  lemma OneWake(args: LoopArgs, s: LoopState, w: Wake, horizon: nat)
    requires OnTime(s, w) && w.now <= horizon && Uninterrupted(w, []) && Round(args, s, w).exit == Some(Panicked)
    ensures NoCommands([w]) && Orderly([w], horizon) && RunOnTime(args, s, [w])
    ensures Run(args, s, [w]).exit == Some(Panicked)
  {
    hide Round;
    assert [w][..0] == [];
  }

  lemma {:induction false} SettingsUnchanged(c: Settings, ws: seq<Wake>)
    requires NoCommands(ws)
    ensures SettingsAfter(c, ws) == c
  {
    if ws != [] {
      SettingsUnchanged(c, ws[..|ws| - 1]);
    }
  }

  /** The loop hangs in exactly the rounds that leave it with an interval of 0. */
  lemma RoundHangsIff(args: LoopArgs, s: LoopState, w: Wake)
    requires s.exit.None?
    ensures Round(args, s, w).exit == Some(Hung)
            <==> !w.shutdownBefore && !w.shutdownAfter && ServesAll(w.commands)
                 && ApplyCommands(s, w.commands).runtime.interval == 0
  {
    hide Measured, ApplyCommands, Served, AfterCall;
    CommandsKeepRecords(s, w.commands);
    if Awake(s, w) {
      var t := ApplyCommands(s, w.commands);
      var next := Schedule.NextDeadline(t.deadline, t.runtime.interval, w.now);
      if GateOf(args, t, w).Use? {
        MeasuredRecords(args, t.(deadline := next, lastTick := w.now), w, GateOf(args, t, w).dt);
      }
    }
  }

  // ---------- the stale bound ----------

  /** The default gate is a whole number of nanoseconds, so its width is its limit. */
  lemma DefaultGateWidth(args: LoopArgs, interval: nat)
    ensures Widest(args, MaxDtFor(Secs(interval))) == MaxDtFor(Secs(interval)) >= MIN_DT_DEFAULT
  {
    var m := if 3 * interval < 10_000_000 then 10_000_000
             else if 3 * interval > 60_000_000_000 then 60_000_000_000 else 3 * interval;
    assert MaxDtFor(Secs(interval)) == m as real / NANOS_PER_SEC;
  }

  /** The bound that start-up sets is 100 intervals, and `set interval` does not refresh it. The loop can
      panic in the round that serves the command exactly unless the default gate of the new interval stays
      within the old bound; `start` and the new interval are nanoseconds. */
  lemma StaleBoundPanicsIff(args: LoopArgs, s: LoopState, start: nat, secs: real, horizon: nat)
    requires Awaiting(s) && !s.hold && s.runtime.maxDt.Default? && args.minDt <= MIN_DT_DEFAULT
    requires Convertible(secs) && NanosFrom(secs) > 0 && horizon + NanosFrom(secs) < INSTANT_LIMIT
    requires var c := s.session.ctrl.config;
             && MayCorrect(c) && c.antiWindupTt.None?
             && c.ttUpperBound == Some(ANTI_WINDUP_TT_INTERVAL_MULTIPLIER * Secs(start))
    requires s.deadline <= horizon && Exposed(args, ApplyCommands(s, [SetInterval(secs)]), horizon)
    ensures var interval := NanosFrom(secs);
            CanPanic(args, s, [SetInterval(secs)], horizon)
            <==> !(start >= 100_000 && (3 * interval <= 100 * start || start >= 600_000_000))
  {
    var interval, c := NanosFrom(secs), s.session.ctrl.config;
    OneCommand(s, SetInterval(secs));
    RoundPanicsIff(args, s, [SetInterval(secs)], horizon);
    DefaultGateWidth(args, interval);
    Schedule.NextDeadlineIsLeast(s.deadline, interval, horizon, 1);
    StaleGateIff(args, c, start, interval);
    hide Widest, Exposed, CanPanic, PanickingGate, NanosFrom;
  }

  lemma StaleGateIff(args: LoopArgs, c: PidConfig, start: nat, interval: nat)
    requires MayCorrect(c) && c.antiWindupTt.None? && args.minDt <= MIN_DT_DEFAULT
    requires c.ttUpperBound == Some(ANTI_WINDUP_TT_INTERVAL_MULTIPLIER * Secs(start))
    ensures PanickingGate(args, c, MaxDtFor(Secs(interval)))
            <==> !(start >= 100_000 && (3 * interval <= 100 * start || start >= 600_000_000))
  {
    DefaultGateWidth(args, interval);
    hide Widest, MayCorrect;
  }

  lemma OneCommand(s: LoopState, c: Command)
    ensures ApplyCommands(s, [c]) == ApplyCommand(s, c)
  {
    assert [c][..0] == [];
  }

  /** For example, every PI or PID loop against an output limit that was started at 0.1 s and has just
      ticked can panic when it is set to 10 s. */
  lemma StaleBoundExample(args: LoopArgs, s: LoopState)
    requires Awaiting(s) && !s.hold && s.runtime.maxDt.Default? && s.deadline == s.lastTick + 100_000_000
    requires s.lastTick < 1_000_000_000_000_000_000
    requires args.minDt == MIN_DT_DEFAULT && !args.dtClamp && args.scale != 0.0
    requires var c := s.session.ctrl.config;
             && c.kp >= 0.0 && c.ki > 0.0 && c.kd >= 0.0 && MayCorrect(c) && c.antiWindupTt.None?
             && c.ttUpperBound == Some(ANTI_WINDUP_TT_INTERVAL_MULTIPLIER * Secs(100_000_000))
    ensures exists w: Wake :: w.commands == [SetInterval(10.0)] && OnTime(s, w)
                              && Run(args, s, [w]).exit == Some(Panicked)
  {
    var cs, t := [SetInterval(10.0)], ApplyCommand(s, SetInterval(10.0));
    var horizon := s.lastTick + 30_000_000_001;
    OneCommand(s, cs[0]);
    assert NanosFrom(10.0) == 10_000_000_000;
    assert MaxDtFor(Secs(10_000_000_000)) == 30.0 && Nanos(30.0) == 30_000_000_000;
    OneSidedGainsRespond(t.session.ctrl, 30.0);
    DefaultGateWidth(args, 10_000_000_000);
    StillAwaiting(s, cs);
    hide Slope, Widest, Awaiting, NanosFrom;
    StaleBoundPanicsIff(args, s, 100_000_000, 10.0, horizon);
    hide Round, Run;
    var w: Wake :| OnTime(s, w) && w.now <= horizon && Uninterrupted(w, cs) && Round(args, s, w).exit == Some(Panicked);
    RunOfOne(args, s, w);
  }

  lemma RunOfOne(args: LoopArgs, s: LoopState, w: Wake)
    ensures Run(args, s, [w]) == Round(args, s, w)
  {
    hide Round;
    assert [w][..0] == [];
  }
}
