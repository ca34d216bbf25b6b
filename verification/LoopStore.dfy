/** The control loop as a caller of the persister: between interval changes the store of a run is what one
    list of calls makes of it, so everything proved about such lists holds of the loop. */
module LoopStore {
  import opened RealMath
  import opened PidCore
  import opened Persistence
  import opened Session
  import opened Loop
  import opened LoopAccounting
  import LoopClock
  import Schedule

  // ---------- the calls of a run ----------

  function CommandCalls(s: LoopState, cs: seq<Command>): seq<Call> {
    if cs == [] then []
    else
      var n := |cs| - 1;
      CommandCalls(s, cs[..n])
      + if cs[n].Save? then [Call(ApplyCommands(s, cs[..n]).session.snap, cs[n].env, true)] else []
  }

  function SafeCvCalls(args: LoopArgs, s: LoopState, w: Wake): seq<Call> {
    if args.safeCv.Some? && w.safeAccepted then [Call(SafeCvWritten(args, s, w).session.snap, w.safeEnv, false)] else []
  }

  function FinishCalls(args: LoopArgs, s: LoopState, w: Wake): seq<Call> {
    SafeCvCalls(args, s, w) + [Call(SafeCvWritten(args, s, w).session.snap, w.flushEnv, true)]
  }

  /** The session right after the tick, before a safe CV. */
  function TickSession(s: LoopState, w: Wake, pv: real, dt: real): LoopState
    requires StepDefined(s.session.ctrl, InputOf(s.session, pv, dt, w.ff))
  {
    s.(session := Processed(s.session, pv, dt, w.ff, w.cvAccepted).0)
  }

  function TickCalls(args: LoopArgs, s: LoopState, w: Wake, pv: real, dt: real): seq<Call> {
    if !StepDefined(s.session.ctrl, InputOf(s.session, pv, dt, w.ff)) then []
    else
      var t := TickSession(s, w, pv, dt);
      [Call(t.session.snap, w.env, false)]
      + if TickStepped(args, s, w, pv, dt).exit.Some? then SafeCvCalls(args, t, w) else []
  }

  function MeasuredCalls(args: LoopArgs, s: LoopState, w: Wake, dt: real): seq<Call> {
    if w.pv.None? then SafeCvCalls(args, s, w)
    else
      var t := TickStepped(args, s.(pvFails := 0), w, Scaled(args, w.pv.value), dt);
      TickCalls(args, s.(pvFails := 0), w, Scaled(args, w.pv.value), dt)
      + if t.exit.None? && Measured(args, s, w, dt).exit.Some? then FinishCalls(args, t, w) else []
  }

  function WokenCalls(args: LoopArgs, s: LoopState, w: Wake): seq<Call> {
    if s.runtime.interval == 0 || s.hold then []
    else
      var next := Schedule.NextDeadline(s.deadline, s.runtime.interval, w.now);
      if next >= INSTANT_LIMIT then []
      else
        match GateOf(args, s, w)
        case Skip => [Call(WithDtSkipped(s.session).snap, w.env, false)]
        case Disordered => []
        case Use(dt) => MeasuredCalls(args, s.(deadline := next, lastTick := w.now), w, dt)
  }

  function RoundCalls(args: LoopArgs, s: LoopState, w: Wake): seq<Call> {
    if s.exit.Some? then []
    else if w.shutdownBefore then FinishCalls(args, s, w)
    else
      var t := ApplyCommands(s, Served(w.commands));
      CommandCalls(s, Served(w.commands))
      + if !ServesAll(w.commands) then []
        else if w.shutdownAfter then FinishCalls(args, t, w)
        else WokenCalls(args, t, w)
  }

  function LoopCalls(args: LoopArgs, s: LoopState, ws: seq<Wake>): seq<Call> {
    if ws == [] then []
    else
      var before := ws[..|ws| - 1];
      LoopCalls(args, s, before) + RoundCalls(args, Run(args, s, before), ws[|ws| - 1])
  }

  // ---------- they make the store ----------

  /** `calls` take the store from `s` to `t`. */
  ghost predicate Stores(s: LoopState, calls: seq<Call>, t: LoopState) {
    t.store == AfterCalls(s.store, calls)
  }

  lemma {:induction false} CallsJoin(p: PersisterState, a: seq<Call>, b: seq<Call>)
    ensures AfterCalls(p, a + b) == AfterCalls(AfterCalls(p, a), b)
  {
    hide AfterCall;
    if b == [] {
      assert a + b == a;
    } else {
      var n := |b| - 1;
      assert (a + b)[..|a + b| - 1] == a + b[..n];
      CallsJoin(p, a, b[..n]);
    }
  }

  lemma StoresBoth(s: LoopState, a: seq<Call>, t: LoopState, b: seq<Call>, u: LoopState)
    requires Stores(s, a, t) && Stores(t, b, u)
    ensures Stores(s, a + b, u)
  {
    CallsJoin(s.store, a, b);
  }

  lemma StoresNone(s: LoopState, t: LoopState)
    requires t.store == s.store
    ensures Stores(s, [], t)
  {
  }

  lemma StoresOne(s: LoopState, c: Call, t: LoopState)
    requires t.store == AfterCall(s.store, c.snapshot, c.env, c.forced)
    ensures Stores(s, [c], t)
  {
    var one := [c];
    assert one[..|one| - 1] == [];
    hide AfterCall;
    assert AfterCalls(s.store, one[..|one| - 1]) == s.store;
  }

  lemma StoresAlike(s: LoopState, t: LoopState, calls: seq<Call>, u: LoopState, v: LoopState)
    requires Stores(s, calls, u) && t.store == s.store && v.store == u.store
    ensures Stores(t, calls, v)
  {
  }

  lemma {:induction false} CommandsStore(s: LoopState, cs: seq<Command>)
    requires forall j :: 0 <= j < |cs| ==> !cs[j].SetInterval?
    ensures Stores(s, CommandCalls(s, cs), ApplyCommands(s, cs))
  {
    hide Stores, AfterCall;
    if cs == [] {
      StoresNone(s, s);
    } else {
      var n := |cs| - 1;
      var t, u := ApplyCommands(s, cs[..n]), ApplyCommands(s, cs);
      CommandsStore(s, cs[..n]);
      if cs[n].Save? {
        StoresOne(t, Call(t.session.snap, cs[n].env, true), u);
        StoresBoth(s, CommandCalls(s, cs[..n]), t, [Call(t.session.snap, cs[n].env, true)], u);
      } else {
        StoresNone(t, u);
        StoresBoth(s, CommandCalls(s, cs[..n]), t, [], u);
      }
    }
  }

  lemma SafeCvStores(args: LoopArgs, s: LoopState, w: Wake)
    ensures Stores(s, SafeCvCalls(args, s, w), SafeCvWritten(args, s, w))
  {
    hide Stores, AfterCall;
    var t := SafeCvWritten(args, s, w);
    if args.safeCv.Some? && w.safeAccepted {
      StoresOne(s, Call(t.session.snap, w.safeEnv, false), t);
    } else {
      StoresNone(s, t);
    }
  }

  lemma FinishStores(args: LoopArgs, s: LoopState, w: Wake, exit: Exit)
    ensures Stores(s, FinishCalls(args, s, w), Finished(args, s, w, exit))
  {
    hide Stores, AfterCall, SafeCvWritten, SafeCvCalls;
    var t := SafeCvWritten(args, s, w);
    SafeCvStores(args, s, w);
    StoresOne(t, Call(t.session.snap, w.flushEnv, true), Finished(args, s, w, exit));
    StoresBoth(s, SafeCvCalls(args, s, w), t, [Call(t.session.snap, w.flushEnv, true)], Finished(args, s, w, exit));
  }

  /** What the safe CV does depends on the session and the store alone. */
  lemma SafeCvAlike(args: LoopArgs, s: LoopState, t: LoopState, w: Wake)
    requires s.session == t.session
    ensures SafeCvCalls(args, s, w) == SafeCvCalls(args, t, w)
    ensures s.store == t.store ==> SafeCvWritten(args, s, w).store == SafeCvWritten(args, t, w).store
  {
    hide AfterCall;
  }

  lemma TickStores(args: LoopArgs, s: LoopState, w: Wake, pv: real, dt: real)
    requires s.exit.None?
    ensures Stores(s, TickCalls(args, s, w, pv, dt), TickStepped(args, s, w, pv, dt))
  {
    hide Stores, AfterCall, SafeCvWritten, SafeCvCalls, Processed, StepDefined, StepPanics;
    var u := TickStepped(args, s, w, pv, dt);
    if StepDefined(s.session.ctrl, InputOf(s.session, pv, dt, w.ff)) {
      var t := TickSession(s, w, pv, dt);
      var call := Call(t.session.snap, w.env, false);
      var p := Persisted(t, w.env, false);
      StoresOne(s, call, p);
      if u.exit.Some? {
        var q := p.(cvFails := s.cvFails + 1);
        SafeCvStores(args, q, w);
        SafeCvAlike(args, q, t, w);
        StoresAlike(q, p, SafeCvCalls(args, t, w), SafeCvWritten(args, q, w), u);
        StoresBoth(s, [call], p, SafeCvCalls(args, t, w), u);
      } else {
        StoresAlike(s, s, [call], p, u);
        assert TickCalls(args, s, w, pv, dt) == [call];
      }
    } else {
      StoresNone(s, u);
    }
  }

  lemma MeasuredStores(args: LoopArgs, s: LoopState, w: Wake, dt: real)
    requires s.exit.None?
    ensures Stores(s, MeasuredCalls(args, s, w, dt), Measured(args, s, w, dt))
  {
    hide Stores, SafeCvWritten, SafeCvCalls, TickStepped, TickCalls, Finished, FinishCalls, Scaled;
    var u := Measured(args, s, w, dt);
    if w.pv.None? {
      var t := s.(pvFails := s.pvFails + 1);
      SafeCvStores(args, t, w);
      SafeCvAlike(args, s, t, w);
      StoresAlike(t, s, SafeCvCalls(args, s, w), SafeCvWritten(args, t, w), u);
    } else {
      var r, pv := s.(pvFails := 0), Scaled(args, w.pv.value);
      var t := TickStepped(args, r, w, pv, dt);
      TickStores(args, r, w, pv, dt);
      StoresAlike(r, s, TickCalls(args, r, w, pv, dt), t, t);
      if t.exit.None? && u.exit.Some? {
        FinishStores(args, t, w, IterationLimit);
        StoresBoth(s, TickCalls(args, r, w, pv, dt), t, FinishCalls(args, t, w), u);
      } else {
        FinishExits(args, t, w);
        assert MeasuredCalls(args, s, w, dt) == TickCalls(args, r, w, pv, dt);
      }
    }
  }

  lemma FinishExits(args: LoopArgs, s: LoopState, w: Wake)
    ensures Finished(args, s, w, IterationLimit).exit == Some(IterationLimit)
  {
  }

  lemma WokenStores(args: LoopArgs, s: LoopState, w: Wake)
    requires s.exit.None?
    ensures Stores(s, WokenCalls(args, s, w), Woken(args, s, w))
  {
    hide Stores, AfterCall, Measured, MeasuredCalls;
    var u := Woken(args, s, w);
    if s.runtime.interval == 0 || s.hold
       || Schedule.NextDeadline(s.deadline, s.runtime.interval, w.now) >= INSTANT_LIMIT {
      StoresNone(s, u);
    } else {
      match GateOf(args, s, w)
      case Skip => StoresOne(s, Call(WithDtSkipped(s.session).snap, w.env, false), u);
      case Disordered => StoresNone(s, u);
      case Use(dt) =>
        var t := s.(deadline := Schedule.NextDeadline(s.deadline, s.runtime.interval, w.now), lastTick := w.now);
        MeasuredStores(args, t, w, dt);
        StoresAlike(t, s, MeasuredCalls(args, t, w, dt), u, u);
    }
  }

  lemma RoundStores(args: LoopArgs, s: LoopState, w: Wake)
    requires forall j :: 0 <= j < |w.commands| ==> !w.commands[j].SetInterval?
    ensures Stores(s, RoundCalls(args, s, w), Round(args, s, w))
  {
    hide Stores, Woken, WokenCalls, ApplyCommands, CommandCalls, Finished, FinishCalls, Served;
    if s.exit.Some? {
      StoresNone(s, s);
    } else if w.shutdownBefore {
      FinishStores(args, s, w, Shutdown);
    } else {
      var t, u := ApplyCommands(s, w.commands), Round(args, s, w);
      ServesAllIff(w.commands);
      CommandsStore(s, w.commands);
      CommandsKeepRecords(s, w.commands);
      if w.shutdownAfter {
        FinishStores(args, t, w, Shutdown);
        StoresBoth(s, CommandCalls(s, w.commands), t, FinishCalls(args, t, w), u);
      } else {
        WokenStores(args, t, w);
        StoresBoth(s, CommandCalls(s, w.commands), t, WokenCalls(args, t, w), u);
      }
    }
  }

  /** Without interval changes the store of a run is what the list of its calls makes of it. */
  lemma {:induction false} LoopStoreIsCalls(args: LoopArgs, s: LoopState, ws: seq<Wake>)
    requires LoopClock.FixedInterval(ws)
    ensures Run(args, s, ws).store == AfterCalls(s.store, LoopCalls(args, s, ws))
  {
    hide Round, RoundCalls;
    if ws != [] {
      var before, w := ws[..|ws| - 1], ws[|ws| - 1];
      LoopStoreIsCalls(args, s, before);
      RoundStores(args, Run(args, s, before), w);
      CallsJoin(s.store, LoopCalls(args, s, before), RoundCalls(args, Run(args, s, before), w));
    }
  }

  // ---------- what follows ----------

  /** The loop's failure counter is the trailing run of failed saves, and the warning is escalated exactly
      while the last `fail_after` saves have failed. */
  lemma LoopCountsSaveFailures(args: LoopArgs, s: LoopState, ws: seq<Wake>)
    requires LoopClock.FixedInterval(ws) && Fresh(s.store)
    ensures var n, store := TrailingFailures(AttemptLog(s.store, LoopCalls(args, s, ws))), Run(args, s, ws).store;
            && store.failCount == (if n <= U32_MAX then n else U32_MAX)
            && (0 < s.store.failAfter <= U32_MAX ==> (Escalated(store) <==> n >= s.store.failAfter))
  {
    LoopStoreIsCalls(args, s, ws);
    FailCountIsTrailingRun(s.store, LoopCalls(args, s, ws));
    if 0 < s.store.failAfter <= U32_MAX {
      EscalatesWithTrailingRun(s.store, LoopCalls(args, s, ws));
    }
  }

  /** On a clock that never goes back, the coalesced writes of a loop start at most once per flush interval:
      no more than `window / interval + 1` of them in any window. */
  lemma LoopWritesPerWindow(
      args: LoopArgs, s: LoopState, ws: seq<Wake>, first: nat, last: nat, window: nat)
    requires LoopClock.FixedInterval(ws) && Fresh(s.store) && Monotone(LoopCalls(args, s, ws))
    requires s.store.flushInterval.Some? && s.store.flushInterval.value > 0
    requires first <= last < |PersistWrites(s.store, LoopCalls(args, s, ws))|
    requires var writes := PersistWrites(s.store, LoopCalls(args, s, ws));
             writes[last].env.now - writes[first].env.now <= window
    ensures last - first + 1 <= window / s.store.flushInterval.value + 1
  {
    WritesPerWindow(s.store, LoopCalls(args, s, ws), first, last, window);
  }

  /** And whenever the last call of a run reported success, the disk holds the snapshot it was given or one
      whose save ended less than a flush interval ago. */
  lemma LoopDiskIsFresh(args: LoopArgs, s: LoopState, ws: seq<Wake>) returns (k: nat)
    requires LoopClock.FixedInterval(ws) && Fresh(s.store) && s.store.hasStore
    requires Monotone(LoopCalls(args, s, ws)) && LoopCalls(args, s, ws) != []
    requires var calls := LoopCalls(args, s, ws);
             var c := calls[|calls| - 1];
             !CallFails(AfterCalls(s.store, calls[..|calls| - 1]), c.snapshot, c.env, c.forced)
    ensures var calls := LoopCalls(args, s, ws);
            && k < |calls| && Run(args, s, ws).store.disk == Some(calls[k].snapshot)
            && (k == |calls| - 1 ||
                (s.store.flushInterval.Some?
                 && calls[|calls| - 1].env.now < calls[k].env.doneAt + s.store.flushInterval.value))
  {
    LoopStoreIsCalls(args, s, ws);
    k := DiskIsFresh(s.store, LoopCalls(args, s, ws));
  }
}
