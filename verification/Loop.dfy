/** The unattended control loop: deadlines, the `dt` gate, failure counters, hold, and the operator's
    commands, over any sequence of wake-ups. */
module Loop {
  import opened RealMath
  import opened PidCore
  import opened Persistence
  import opened Session
  import opened Schedule

  const MIN_DT_DEFAULT := 0.01
  const MAX_DT_DEFAULT := 60.0
  const MAX_DT_INTERVAL_MULTIPLIER := 3.0
  const ANTI_WINDUP_TT_INTERVAL_MULTIPLIER := 100.0
  const NANOS_PER_SEC := 1.0e9
  const MIN_STATE_FLUSH: nat := 100_000_000

  /** `Instant` holds fewer than 2^63 seconds; adding beyond that panics. */
  const INSTANT_LIMIT: nat := 0x8000_0000_0000_0000 * 1_000_000_000

  // ---------- options that can change at runtime ----------

  /** A value from the command line, or a default that later defaults may replace. */
  datatype UserSet<T> = Explicit(v: T) | Default(v: T) {
    function SetIfDefault(w: T): UserSet<T> {
      if Default? then Default(w) else this
    }
  }

  datatype LoopRuntime = LoopRuntime(
    interval: nat, maxDt: UserSet<real>, pvStdinTimeout: UserSet<nat>, stateWriteInterval: UserSet<Option<nat>>)

  function Secs(nanos: nat): real {
    nanos as real / NANOS_PER_SEC
  }

  function MaxDtFor(intervalSecs: real): real {
    RealMath.Clamp(intervalSecs * MAX_DT_INTERVAL_MULTIPLIER, MIN_DT_DEFAULT, MAX_DT_DEFAULT)
  }

  /** `Duration` holds fewer than 2^64 seconds; the conversion from a number panics on others and on
      negative ones. */
  const DURATION_LIMIT := 18446744073709551616.0

  predicate Convertible(secs: real) {
    0.0 <= secs < DURATION_LIMIT
  }

  /** The nearest whole nanosecond, and of two equally near the even one. */
  function NanosFrom(secs: real): nat
    requires Convertible(secs)
  {
    var x := secs * NANOS_PER_SEC;
    var n := x.Floor;
    var rest := x - n as real;
    if rest < 0.5 || (rest == 0.5 && n % 2 == 0) then n else n + 1
  }

  function FlushFor(interval: nat): nat {
    if interval >= MIN_STATE_FLUSH then interval else MIN_STATE_FLUSH
  }

  function WithInterval(r: LoopRuntime, interval: nat): LoopRuntime {
    LoopRuntime(interval, r.maxDt.SetIfDefault(MaxDtFor(Secs(interval))), r.pvStdinTimeout.SetIfDefault(interval),
                r.stateWriteInterval.SetIfDefault(Some(FlushFor(interval))))
  }

  method ApplyRuntimeInterval(session: ControllerSession, r: LoopRuntime, interval: nat) returns (next: LoopRuntime)
    modifies session.persister
    ensures next == WithInterval(r, interval)
    ensures session.State() == old(session.State())
    ensures session.persister.State() == old(session.persister.State()).(flushInterval := next.stateWriteInterval.v)
  {
    next := r.(interval := interval);
    next := next.(maxDt := next.maxDt.SetIfDefault(MaxDtFor(Secs(interval))));
    next := next.(pvStdinTimeout := next.pvStdinTimeout.SetIfDefault(interval));
    next := next.(stateWriteInterval := next.stateWriteInterval.SetIfDefault(Some(FlushFor(interval))));
    session.SetFlushInterval(next.stateWriteInterval.v);
  }

  // ---------- the dt gate ----------

  datatype MeasuredDt = Skip | Use(dt: real) | Disordered

  /** `Disordered` is the panic of `f64::clamp` when `min_dt > max_dt`. */
  function GateDt(raw: real, minDt: real, maxDt: real, dtClamp: bool): MeasuredDt {
    if minDt <= raw <= maxDt then Use(raw)
    else if !dtClamp then Skip
    else if minDt > maxDt then Disordered
    else Use(RealMath.Clamp(raw, minDt, maxDt))
  }

  // ---------- one wake-up ----------

  datatype LoopArgs = LoopArgs(
    minDt: real, dtClamp: bool, scale: real, failAfter: Option<nat>, safeCv: Option<real>,
    cvFailAfter: nat, maxIterations: Option<nat>)

  datatype Command = SetGains(kp: real, ki: real, kd: real) | SetPoint(sp: real) | ResetIntegral
                   | Hold | Resume | SetInterval(secs: real) | Save(env: SaveEnv)

  /** Everything the world does to one round of the loop: a shutdown request seen before or after the
      sleep, the operator's commands served while sleeping, the time of waking, what the sources and
      the actuator answer, and the answers for the snapshot writes after the tick, after the safe CV and
      at the end. */
  datatype Wake = Wake(
    shutdownBefore: bool, commands: seq<Command>, shutdownAfter: bool, now: nat,
    pv: Option<real>, ff: real, cvAccepted: bool, safeAccepted: bool,
    env: SaveEnv, safeEnv: SaveEnv, flushEnv: SaveEnv)

  /** How the loop stops. `Hung` is the scheduler that never gets past `now`. `BeyondReals` is where the
      model stops following it: a step that leaves the finite numbers, or has a `dt` of 0 or less. */
  datatype Exit = Shutdown | CvFailures | PvFailures | IterationLimit | Panicked | Hung | BeyondReals

  datatype LoopState = LoopState(
    session: SessionState, store: PersisterState, written: seq<real>, runtime: LoopRuntime, deadline: nat,
    lastTick: nat, cvFails: nat, pvFails: nat, hold: bool, exit: Option<Exit>)

  /** The session's snapshot is handed to the persister. */
  function Persisted(s: LoopState, env: SaveEnv, forced: bool): LoopState {
    s.(store := AfterCall(s.store, s.session.snap, env, forced))
  }

  function ApplyCommand(s: LoopState, c: Command): LoopState {
    match c
    case SetGains(kp, ki, kd) => s.(session := WithGains(s.session, kp, ki, kd))
    case SetPoint(sp) => s.(session := WithSetpoint(s.session, sp))
    case ResetIntegral => s.(session := WithIntegralReset(s.session))
    case Hold => s.(hold := true)
    case Resume => s.(hold := false)
    case SetInterval(secs) => if Convertible(secs) then WithIntervalSet(s, NanosFrom(secs)) else s
    case Save(env) => Persisted(s, env, true)
  }

  function WithIntervalSet(s: LoopState, interval: nat): LoopState {
    var r := WithInterval(s.runtime, interval);
    s.(runtime := r, store := s.store.(flushInterval := r.stateWriteInterval.v))
  }

  /** The conversion of the interval is the one thing that can panic while a command is served. */
  predicate Panics(c: Command) {
    c.SetInterval? && !Convertible(c.secs)
  }

  /** The commands up to the first that panics. */
  function Served(cs: seq<Command>): seq<Command> {
    if cs == [] || Panics(cs[0]) then [] else [cs[0]] + Served(cs[1..])
  }

  predicate ServesAll(cs: seq<Command>) {
    Served(cs) == cs
  }

  function ApplyCommands(s: LoopState, cs: seq<Command>): LoopState {
    if cs == [] then s else ApplyCommand(ApplyCommands(s, cs[..|cs| - 1]), cs[|cs| - 1])
  }

  /** Write the safe CV if one is configured, and count it as applied if the actuator took it. */
  function SafeCvWritten(args: LoopArgs, s: LoopState, w: Wake): LoopState {
    if args.safeCv.Some? && w.safeAccepted then
      var session, written := WithConfirmedCv(s.session, args.safeCv.value), s.written + [args.safeCv.value];
      Persisted(s.(session := session, written := written), w.safeEnv, false)
    else s
  }

  /** An orderly end also flushes the snapshot. */
  function Finished(args: LoopArgs, s: LoopState, w: Wake, exit: Exit): LoopState {
    Persisted(SafeCvWritten(args, s, w), w.flushEnv, true).(exit := Some(exit))
  }

  /** The PV source failed. */
  function PvLost(args: LoopArgs, s: LoopState, w: Wake): LoopState {
    var t := SafeCvWritten(args, s.(pvFails := s.pvFails + 1), w);
    if args.failAfter.Some? && t.pvFails >= args.failAfter.value then t.(exit := Some(PvFailures)) else t
  }

  /** The shared tick: process the PV, count CV failures, and give up when there are too many - without a
      last flush. */
  function TickStepped(args: LoopArgs, s: LoopState, w: Wake, pv: real, dt: real): LoopState {
    if !StepDefined(s.session.ctrl, InputOf(s.session, pv, dt, w.ff)) then
      s.(exit := Some(if StepPanics(s.session.ctrl, InputOf(s.session, pv, dt, w.ff)) then Panicked else BeyondReals))
    else
      var (session, step) := Processed(s.session, pv, dt, w.ff, w.cvAccepted);
      var t := Persisted(s.(session := session), w.env, false);
      if w.cvAccepted then
        t.(written := s.written + [step.cv], cvFails := 0)
      else
        var u := t.(cvFails := s.cvFails + 1);
        if u.cvFails >= args.cvFailAfter then SafeCvWritten(args, u, w).(exit := Some(CvFailures)) else u
  }

  function Scaled(args: LoopArgs, rawPv: real): real {
    rawPv * args.scale
  }

  /** The round once `dt` is known: read the PV, tick, check the iteration limit. */
  function Measured(args: LoopArgs, s: LoopState, w: Wake, dt: real): LoopState {
    if w.pv.None? then PvLost(args, s, w)
    else
      var t := TickStepped(args, s.(pvFails := 0), w, Scaled(args, w.pv.value), dt);
      if t.exit.None? && args.maxIterations.Some? && t.session.snap.iter >= args.maxIterations.value
      then Finished(args, t, w, IterationLimit)
      else t
  }

  /** The round after the sleep. */
  function Woken(args: LoopArgs, s: LoopState, w: Wake): LoopState {
    if s.runtime.interval == 0 then s.(exit := Some(Hung))
    else if NextDeadline(s.deadline, s.runtime.interval, w.now) >= INSTANT_LIMIT then s.(exit := Some(Panicked))
    else
      var t := s.(deadline := NextDeadline(s.deadline, s.runtime.interval, w.now));
      if t.hold then t
      else
        var u := t.(lastTick := w.now);
        match GateDt(Secs(Elapsed(t.lastTick, w.now)), args.minDt, t.runtime.maxDt.v, args.dtClamp)
        case Skip => Persisted(u.(session := WithDtSkipped(u.session)), w.env, false)
        case Disordered => u.(exit := Some(Panicked))
        case Use(dt) => Measured(args, u, w, dt)
  }

  function Round(args: LoopArgs, s: LoopState, w: Wake): LoopState {
    if s.exit.Some? then s
    else if w.shutdownBefore then Finished(args, s, w, Shutdown)
    else
      var t := ApplyCommands(s, Served(w.commands));
      if !ServesAll(w.commands) then t.(exit := Some(Panicked))
      else if w.shutdownAfter then Finished(args, t, w, Shutdown)
      else Woken(args, t, w)
  }

  function Run(args: LoopArgs, s: LoopState, ws: seq<Wake>): LoopState {
    if ws == [] then s else Round(args, Run(args, s, ws[..|ws| - 1]), ws[|ws| - 1])
  }

  // ---------- the loop itself ----------

  /** The mutable locals of the loop. */
  datatype Locals = Locals(runtime: LoopRuntime, deadline: nat, lastTick: nat, cvFails: nat, pvFails: nat, hold: bool)

  function StateOf(session: ControllerSession, sink: CvSink, l: Locals, exit: Option<Exit>): LoopState
    reads session, session.controller, session.persister, sink
  {
    LoopState(session.State(), session.persister.State(), sink.written, l.runtime, l.deadline, l.lastTick,
              l.cvFails, l.pvFails, l.hold, exit)
  }

  method WriteSafeCv(args: LoopArgs, session: ControllerSession, sink: CvSink, l: Locals, w: Wake)
    modifies sink, session, session.persister
    ensures StateOf(session, sink, l, None) == SafeCvWritten(args, old(StateOf(session, sink, l, None)), w)
  {
    if args.safeCv.Some? {
      var ok := sink.WriteCv(args.safeCv.value, w.safeAccepted);
      if ok {
        var failed := session.RecordConfirmedCv(args.safeCv.value, w.safeEnv);
      }
    }
  }

  lemma {:induction false} ServedUpTo(cs: seq<Command>, i: nat)
    requires i <= |cs| && forall j :: 0 <= j < i ==> !Panics(cs[j])
    ensures Served(cs) == cs[..i] + Served(cs[i..])
  {
    hide Panics;
    if i > 0 {
      ServedUpTo(cs[1..], i - 1);
      assert cs[1..][i - 1..] == cs[i..] && cs[..i] == [cs[0]] + cs[1..][..i - 1];
    }
  }

  method ServeCommand(session: ControllerSession, sink: CvSink, l: Locals, c: Command) returns (m: Locals)
    requires !Panics(c)
    modifies session, session.controller, session.persister
    ensures StateOf(session, sink, m, None) == ApplyCommand(old(StateOf(session, sink, l, None)), c)
  {
    hide WithInterval, NanosFrom, Convertible;
    m := l;
    match c {
      case SetGains(kp, ki, kd) => session.SetGains(kp, ki, kd);
      case SetPoint(sp) => session.SetSetpoint(sp);
      case ResetIntegral => session.ResetIntegral();
      case Hold => m := m.(hold := true);
      case Resume => m := m.(hold := false);
      case SetInterval(secs) =>
        var r := ApplyRuntimeInterval(session, m.runtime, NanosFrom(secs));
        m := m.(runtime := r);
      case Save(env) =>
        var failed := session.ForceFlush(env);
    }
  }

  method ServeCommands(session: ControllerSession, sink: CvSink, l: Locals, cs: seq<Command>)
    returns (m: Locals, exit: Option<Exit>)
    modifies session, session.controller, session.persister
    ensures exit == if ServesAll(cs) then None else Some(Panicked)
    ensures StateOf(session, sink, m, None) == ApplyCommands(old(StateOf(session, sink, l, None)), Served(cs))
  {
    hide ApplyCommand, Panics;
    m, exit := l, None;
    for i := 0 to |cs|
      invariant forall j :: 0 <= j < i ==> !Panics(cs[j])
      invariant exit.None?
      invariant StateOf(session, sink, m, None) == ApplyCommands(old(StateOf(session, sink, l, None)), cs[..i])
    {
      assert cs[..i + 1][..i] == cs[..i];
      if Panics(cs[i]) {
        ServedUpTo(cs, i);
        assert Served(cs) == cs[..i];
        exit := Some(Panicked);
        return;
      }
      m := ServeCommand(session, sink, m, cs[i]);
    }
    ServedUpTo(cs, |cs|);
    assert cs[..|cs|] == cs && Served(cs) == cs;
  }

  /** The shared tick driver; a panic inside the step ends it. */
  method TickStep(args: LoopArgs, session: ControllerSession, sink: CvSink, l: Locals, w: Wake, pv: real, dt: real)
    returns (m: Locals, exit: Option<Exit>)
    modifies session, session.controller, session.persister, sink
    ensures StateOf(session, sink, m, exit) == TickStepped(args, old(StateOf(session, sink, l, None)), w, pv, dt)
  {
    hide TermsOf, ApplyAntiWindup, ApplySlewRate;
    m, exit := l, None;
    var input := StepInput(pv, dt, session.snapshot.lastCv.GetOr(0.0), w.ff);
    if !StepDefined(session.controller.State(), input) {
      exit := Some(if StepPanics(session.controller.State(), input) then Panicked else BeyondReals);
      return;
    }
    var outcome := session.ProcessPv(pv, dt, w.ff, sink, w.cvAccepted, w.env);
    if outcome.Ticked? {
      m := m.(cvFails := 0);
    } else {
      m := m.(cvFails := m.cvFails + 1);
      if m.cvFails >= args.cvFailAfter {
        WriteSafeCv(args, session, sink, m, w);
        exit := Some(CvFailures);
      }
    }
  }

  /** One round after the sleep. */
  method AfterSleep(args: LoopArgs, session: ControllerSession, sink: CvSink, l: Locals, w: Wake)
    returns (m: Locals, exit: Option<Exit>)
    modifies session, session.controller, session.persister, sink
    ensures StateOf(session, sink, m, exit) == Woken(args, old(StateOf(session, sink, l, None)), w)
  {
    hide Measured;
    m, exit := l, None;
    if m.runtime.interval == 0 {
      exit := Some(Hung);
      return;
    }
    if NextDeadline(m.deadline, m.runtime.interval, w.now) >= INSTANT_LIMIT {
      exit := Some(Panicked);
      return;
    }
    var next := NextDeadlineAfterTick(m.deadline, m.runtime.interval, w.now);
    m := m.(deadline := next);
    if m.hold {
      return;
    }
    var rawDt := Secs(Elapsed(m.lastTick, w.now));
    m := m.(lastTick := w.now);
    var gate := GateDt(rawDt, args.minDt, m.runtime.maxDt.v, args.dtClamp);
    if gate.Skip? {
      var failed := session.OnDtSkipped(w.env);
      return;
    }
    if gate.Disordered? {
      exit := Some(Panicked);
      return;
    }
    m, exit := MeasuredRound(args, session, sink, m, w, gate.dt);
  }

  /** The round once `dt` is known. */
  method MeasuredRound(args: LoopArgs, session: ControllerSession, sink: CvSink, l: Locals, w: Wake, dt: real)
    returns (m: Locals, exit: Option<Exit>)
    modifies session, session.controller, session.persister, sink
    ensures StateOf(session, sink, m, exit) == Measured(args, old(StateOf(session, sink, l, None)), w, dt)
  {
    hide StepDefined, Processed;
    m, exit := l, None;
    if w.pv.None? {
      m := m.(pvFails := m.pvFails + 1);
      WriteSafeCv(args, session, sink, m, w);
      if args.failAfter.Some? && m.pvFails >= args.failAfter.value {
        exit := Some(PvFailures);
      }
      return;
    }
    m := m.(pvFails := 0);
    m, exit := TickStep(args, session, sink, m, w, Scaled(args, w.pv.value), dt);
    if exit.None? && args.maxIterations.Some? && session.snapshot.iter >= args.maxIterations.value {
      FinalizeShutdown(args, session, sink, m, w);
      exit := Some(IterationLimit);
    }
  }

  /** The loop over the wake-ups the world provides; `None` if it is still running after the last. */
  method RunLoop(args: LoopArgs, session: ControllerSession, sink: CvSink, l: Locals, ws: seq<Wake>)
    returns (m: Locals, exit: Option<Exit>)
    modifies session, session.controller, session.persister, sink
    ensures StateOf(session, sink, m, exit) == Run(args, old(StateOf(session, sink, l, None)), ws)
  {
    hide Woken, ApplyCommands, SafeCvWritten;
    m, exit := l, None;
    ghost var start := StateOf(session, sink, l, None);
    for i := 0 to |ws|
      invariant StateOf(session, sink, m, exit) == Run(args, start, ws[..i])
    {
      assert ws[..i + 1][..i] == ws[..i];
      if exit.None? {
        m, exit := OneRound(args, session, sink, m, ws[i]);
      }
    }
    assert ws[..|ws|] == ws;
  }

  method OneRound(args: LoopArgs, session: ControllerSession, sink: CvSink, l: Locals, w: Wake)
    returns (m: Locals, exit: Option<Exit>)
    modifies session, session.controller, session.persister, sink
    ensures StateOf(session, sink, m, exit) == Round(args, old(StateOf(session, sink, l, None)), w)
  {
    hide Woken, ApplyCommands;
    m, exit := l, None;
    if w.shutdownBefore {
      FinalizeShutdown(args, session, sink, m, w);
      exit := Some(Shutdown);
      return;
    }
    m, exit := ServeCommands(session, sink, m, w.commands);
    if exit.Some? {
      return;
    }
    if w.shutdownAfter {
      FinalizeShutdown(args, session, sink, m, w);
      exit := Some(Shutdown);
      return;
    }
    m, exit := AfterSleep(args, session, sink, m, w);
  }

  method FinalizeShutdown(args: LoopArgs, session: ControllerSession, sink: CvSink, l: Locals, w: Wake)
    modifies sink, session, session.persister
    ensures forall exit ::
              StateOf(session, sink, l, Some(exit)) == Finished(args, old(StateOf(session, sink, l, None)), w, exit)
  {
    WriteSafeCv(args, session, sink, l, w);
    var failed := session.ForceFlush(w.flushEnv);
  }
}
