/** The control loop drives its session through an ordinary session run, so everything proved about
    session runs holds of it. */
module LoopRefinement {
  import opened RealMath
  import opened PidCore
  import opened Session
  import opened SessionRuns
  import opened Loop
  import opened LoopAccounting
  import Persistence
  import Schedule

  function CommandEvent(c: Command): seq<Event> {
    match c
    case SetGains(kp, ki, kd) => [Gains(kp, ki, kd)]
    case SetPoint(sp) => [Setpoint(sp)]
    case ResetIntegral => [Reset]
    case _ => []
  }

  function CommandEvents(cs: seq<Command>): seq<Event> {
    if cs == [] then [] else CommandEvents(cs[..|cs| - 1]) + CommandEvent(cs[|cs| - 1])
  }

  function SafeCvEvent(args: LoopArgs, accepted: bool): seq<Event> {
    if args.safeCv.Some? && accepted then [SafeCv(args.safeCv.value)] else []
  }

  /** A round that got as far as measuring `dt`. */
  function MeasuredEvents(args: LoopArgs, s: LoopState, w: Wake, dt: real): seq<Event> {
    if w.pv.None? then SafeCvEvent(args, w.safeAccepted)
    else
      var pv := Scaled(args, w.pv.value);
      if !StepDefined(s.session.ctrl, InputOf(s.session, pv, dt, w.ff)) then []
      else
        [Tick(pv, dt, w.ff, w.cvAccepted)]
        + if Measured(args, s, w, dt).exit.Some? then SafeCvEvent(args, w.safeAccepted) else []
  }

  predicate Overflows(s: LoopState, w: Wake)
    requires s.runtime.interval > 0
  {
    Schedule.NextDeadline(s.deadline, s.runtime.interval, w.now) >= INSTANT_LIMIT
  }

  function WokenEvents(args: LoopArgs, s: LoopState, w: Wake): seq<Event> {
    if s.runtime.interval == 0 || s.hold || Overflows(s, w) then []
    else
      match GateOf(args, s, w)
      case Skip => [DtSkip]
      case Disordered => []
      case Use(dt) =>
        var next := Schedule.NextDeadline(s.deadline, s.runtime.interval, w.now);
        MeasuredEvents(args, s.(deadline := next, lastTick := w.now), w, dt)
  }

  function RoundEvents(args: LoopArgs, s: LoopState, w: Wake): seq<Event> {
    if s.exit.Some? then []
    else if w.shutdownBefore then SafeCvEvent(args, w.safeAccepted)
    else
      CommandEvents(Served(w.commands)) +
      (if !ServesAll(w.commands) then []
       else if w.shutdownAfter then SafeCvEvent(args, w.safeAccepted)
       else WokenEvents(args, ApplyCommands(s, w.commands), w))
  }

  function LoopEvents(args: LoopArgs, s: LoopState, ws: seq<Wake>): seq<Event> {
    if ws == [] then []
    else
      var before := ws[..|ws| - 1];
      LoopEvents(args, s, before) + RoundEvents(args, Run(args, s, before), ws[|ws| - 1])
  }

  /** `es` takes the session and the record of accepted CVs from `s` to `t`. */
  ghost predicate Follows(s: LoopState, es: seq<Event>, t: LoopState) {
    && RunDefined(s.session, es)
    && t.session == Final(s.session, es)
    && t.written == s.written + Written(s.session, es)
  }

  lemma FollowsNone(s: LoopState, t: LoopState)
    requires t.session == s.session && t.written == s.written
    ensures Follows(s, [], t)
  {
  }

  lemma FollowsOne(s: LoopState, e: Event, t: LoopState)
    requires Defined(s.session, e) && t.session == Exec(s.session, e)
    requires t.written == s.written + WrittenAt(s.session, e)
    ensures Follows(s, [e], t)
  {
  }

  lemma FollowsBoth(s: LoopState, a: seq<Event>, t: LoopState, b: seq<Event>, u: LoopState)
    requires Follows(s, a, t) && Follows(t, b, u)
    ensures Follows(s, a + b, u)
  {
    hide RunDefined, Final, Written, Results;
    RunJoin(s.session, a, b);
    RunSplit(s.session, a, b);
  }

  lemma {:induction false} RunJoin(s: SessionState, a: seq<Event>, b: seq<Event>)
    requires RunDefined(s, a) && RunDefined(Final(s, a), b)
    ensures RunDefined(s, a + b)
    decreases a
  {
    hide Exec, Defined;
    if a == [] {
      assert a + b == b;
    } else {
      assert (a + b)[0] == a[0] && (a + b)[1..] == a[1..] + b;
      RunJoin(Exec(s, a[0]), a[1..], b);
    }
  }

  lemma {:induction false} CommandsFollow(s: LoopState, cs: seq<Command>)
    ensures Follows(s, CommandEvents(cs), ApplyCommands(s, cs))
  {
    hide Follows;
    if cs == [] {
      FollowsNone(s, s);
    } else {
      var n := |cs| - 1;
      var t, c := ApplyCommands(s, cs[..n]), cs[n];
      CommandsFollow(s, cs[..n]);
      if CommandEvent(c) == [] {
        FollowsNone(t, ApplyCommand(t, c));
      } else {
        FollowsOne(t, CommandEvent(c)[0], ApplyCommand(t, c));
        assert CommandEvent(c) == [CommandEvent(c)[0]];
      }
      FollowsBoth(s, CommandEvents(cs[..n]), t, CommandEvent(c), ApplyCommand(t, c));
    }
  }

  lemma SafeCvFollows(args: LoopArgs, s: LoopState, w: Wake, exit: Option<Exit>)
    ensures Follows(s, SafeCvEvent(args, w.safeAccepted), SafeCvWritten(args, s, w).(exit := exit))
  {
  }

  lemma FollowsIgnoresCounters(s: LoopState, r: LoopState, es: seq<Event>, t: LoopState, u: LoopState)
    requires Follows(s, es, t)
    requires r.session == s.session && r.written == s.written && u.session == t.session && u.written == t.written
    ensures Follows(r, es, u)
  {
  }

  /** The state between the tick itself and what follows from its failure or the iteration limit. */
  function Ticked(s: LoopState, w: Wake, pv: real, dt: real): LoopState
    requires StepDefined(s.session.ctrl, InputOf(s.session, pv, dt, w.ff))
  {
    var (session, step) := Processed(s.session, pv, dt, w.ff, w.cvAccepted);
    s.(session := session, written := s.written + if w.cvAccepted then [step.cv] else [])
  }

  /** The session and the record end where the tick left them, or with the safe CV written. */
  lemma MeasuredEnd(args: LoopArgs, s: LoopState, w: Wake, dt: real)
    requires s.exit.None? && w.pv.Some?
    requires StepDefined(s.session.ctrl, InputOf(s.session, Scaled(args, w.pv.value), dt, w.ff))
    ensures var t, mid := Measured(args, s, w, dt), Ticked(s, w, Scaled(args, w.pv.value), dt);
            var end := if t.exit.Some? then SafeCvWritten(args, mid, w) else mid;
            t.session == end.session && t.written == end.written
  {
    hide Processed, StepDefined, Scaled, Persistence.AfterCall;
  }

  lemma MeasuredFollows(args: LoopArgs, s: LoopState, w: Wake, dt: real)
    requires s.exit.None?
    ensures Follows(s, MeasuredEvents(args, s, w, dt), Measured(args, s, w, dt))
  {
    hide Follows, Processed, StepDefined, Scaled, Persistence.AfterCall;
    var t := Measured(args, s, w, dt);
    if w.pv.None? {
      SafeCvFollows(args, s, w, t.exit);
      FollowsIgnoresCounters(s, s, SafeCvEvent(args, w.safeAccepted), SafeCvWritten(args, s, w).(exit := t.exit), t);
    } else {
      var pv := Scaled(args, w.pv.value);
      if StepDefined(s.session.ctrl, InputOf(s.session, pv, dt, w.ff)) {
        TickFollows(args, s, w, dt);
      } else {
        FollowsNone(s, t);
      }
    }
  }

  lemma TickFollows(args: LoopArgs, s: LoopState, w: Wake, dt: real)
    requires s.exit.None? && w.pv.Some?
    requires StepDefined(s.session.ctrl, InputOf(s.session, Scaled(args, w.pv.value), dt, w.ff))
    ensures Follows(s, MeasuredEvents(args, s, w, dt), Measured(args, s, w, dt))
  {
    MeasuredEnd(args, s, w, dt);
    hide Follows, Processed, StepDefined, Scaled, SafeCvWritten, SafeCvEvent, Measured;
    var t, pv := Measured(args, s, w, dt), Scaled(args, w.pv.value);
    var tick, mid := Tick(pv, dt, w.ff, w.cvAccepted), Ticked(s, w, pv, dt);
    FollowsOne(s, tick, mid);
    if t.exit.Some? {
      SafeCvFollows(args, mid, w, t.exit);
      FollowsIgnoresCounters(mid, mid, SafeCvEvent(args, w.safeAccepted),
                             SafeCvWritten(args, mid, w).(exit := t.exit), t);
      FollowsBoth(s, [tick], mid, SafeCvEvent(args, w.safeAccepted), t);
    } else {
      FollowsIgnoresCounters(s, s, [tick], mid, t);
      assert MeasuredEvents(args, s, w, dt) == [tick];
    }
  }

  lemma WokenFollows(args: LoopArgs, s: LoopState, w: Wake)
    requires s.exit.None?
    ensures Follows(s, WokenEvents(args, s, w), Woken(args, s, w))
  {
    hide Follows, Measured, MeasuredEvents;
    var t := Woken(args, s, w);
    if s.runtime.interval == 0 || s.hold || Overflows(s, w) {
      FollowsNone(s, t);
    } else {
      match GateOf(args, s, w)
      case Skip => FollowsOne(s, DtSkip, t);
      case Disordered => FollowsNone(s, t);
      case Use(dt) =>
        var u := s.(deadline := Schedule.NextDeadline(s.deadline, s.runtime.interval, w.now), lastTick := w.now);
        MeasuredFollows(args, u, w, dt);
        FollowsIgnoresCounters(u, s, MeasuredEvents(args, u, w, dt), t, t);
    }
  }

  lemma RoundFollows(args: LoopArgs, s: LoopState, w: Wake)
    ensures Follows(s, RoundEvents(args, s, w), Round(args, s, w))
  {
    hide Follows, Woken, WokenEvents, ApplyCommands, SafeCvWritten, Served;
    if s.exit.Some? {
      FollowsNone(s, s);
    } else if w.shutdownBefore {
      SafeCvFollows(args, s, w, Some(Shutdown));
      FollowsIgnoresCounters(s, s, SafeCvEvent(args, w.safeAccepted),
                             SafeCvWritten(args, s, w).(exit := Some(Shutdown)), Round(args, s, w));
    } else {
      var cs := Served(w.commands);
      var t := ApplyCommands(s, cs);
      CommandsFollow(s, cs);
      CommandsKeepRecords(s, cs);
      if !ServesAll(w.commands) {
        FollowsNone(t, Round(args, s, w));
        FollowsBoth(s, CommandEvents(cs), t, [], Round(args, s, w));
      } else if w.shutdownAfter {
        SafeCvFollows(args, t, w, Some(Shutdown));
        FollowsIgnoresCounters(t, t, SafeCvEvent(args, w.safeAccepted),
                               SafeCvWritten(args, t, w).(exit := Some(Shutdown)), Round(args, s, w));
        FollowsBoth(s, CommandEvents(cs), t, SafeCvEvent(args, w.safeAccepted), Round(args, s, w));
      } else {
        WokenFollows(args, t, w);
        FollowsBoth(s, CommandEvents(cs), t, WokenEvents(args, t, w), Round(args, s, w));
      }
    }
  }

  /** Every run of the loop is a session run: same final session, same accepted CVs. */
  lemma {:induction false} LoopIsSessionRun(args: LoopArgs, s: LoopState, ws: seq<Wake>)
    ensures Follows(s, LoopEvents(args, s, ws), Run(args, s, ws))
  {
    hide Follows, Round, RoundEvents;
    if ws == [] {
      FollowsNone(s, s);
    } else {
      var before, w := ws[..|ws| - 1], ws[|ws| - 1];
      var t := Run(args, s, before);
      LoopIsSessionRun(args, s, before);
      RoundFollows(args, t, w);
      FollowsBoth(s, LoopEvents(args, s, before), t, RoundEvents(args, t, w), Run(args, s, ws));
    }
  }

  lemma {:induction false} CommandsHaveNoSafeCv(cs: seq<Command>, l: Limits)
    ensures SafeCvsWithin(l, CommandEvents(cs))
  {
    if cs != [] {
      CommandsHaveNoSafeCv(cs[..|cs| - 1], l);
    }
  }

  lemma RoundSafeCvs(args: LoopArgs, s: LoopState, w: Wake, l: Limits)
    requires args.safeCv.Some? ==> l.Contains(args.safeCv.value)
    ensures SafeCvsWithin(l, RoundEvents(args, s, w))
  {
    hide ApplyCommands, Measured, StepDefined, Scaled, Schedule.NextDeadline, GateOf, Served;
    CommandsHaveNoSafeCv(Served(w.commands), l);
  }

  lemma {:induction false} LoopSafeCvs(args: LoopArgs, s: LoopState, ws: seq<Wake>, l: Limits)
    requires args.safeCv.Some? ==> l.Contains(args.safeCv.value)
    ensures SafeCvsWithin(l, LoopEvents(args, s, ws))
  {
    hide RoundEvents;
    if ws != [] {
      LoopSafeCvs(args, s, ws[..|ws| - 1], l);
      RoundSafeCvs(args, Run(args, s, ws[..|ws| - 1]), ws[|ws| - 1], l);
    }
  }

  /** Whatever the world does, the loop never writes a CV outside the output limits, provided the CV it
      starts from and the configured safe CV are inside. */
  lemma LoopWritesInRange(args: LoopArgs, s: LoopState, ws: seq<Wake>)
    requires Entered(s) && ValidConfig(s.session.ctrl.config)
    requires s.session.ctrl.config.limits.Contains(Applied(s.session))
    requires args.safeCv.Some? ==> s.session.ctrl.config.limits.Contains(args.safeCv.value)
    ensures forall cv :: cv in Run(args, s, ws).written ==> s.session.ctrl.config.limits.Contains(cv)
  {
    hide Run, LoopEvents;
    var l := s.session.ctrl.config.limits;
    LoopIsSessionRun(args, s, ws);
    LoopSafeCvs(args, s, ws, l);
    OutputsStayInRange(s.session, LoopEvents(args, s, ws));
  }
}
