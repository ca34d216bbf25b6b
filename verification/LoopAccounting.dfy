/** What the control loop's counters and records mean, over every sequence of wake-ups. */
module LoopAccounting {
  import opened RealMath
  import opened PidCore
  import opened Persistence
  import opened Session
  import opened Loop
  import Schedule

  // ---------- what a round gets to do ----------

  function GateOf(args: LoopArgs, s: LoopState, w: Wake): MeasuredDt {
    GateDt(Secs(Elapsed(s.lastTick, w.now)), args.minDt, s.runtime.maxDt.v, args.dtClamp)
  }

  /** The round gets past the sleep, and so moves the deadline. */
  predicate Awake(s: LoopState, w: Wake) {
    && s.exit.None? && !w.shutdownBefore && !w.shutdownAfter && ServesAll(w.commands)
    && var t := ApplyCommands(s, w.commands);
       t.runtime.interval > 0 && Schedule.NextDeadline(t.deadline, t.runtime.interval, w.now) < INSTANT_LIMIT
  }

  /** The round gets as far as reading the PV. */
  predicate ReadsPv(args: LoopArgs, s: LoopState, w: Wake) {
    && Awake(s, w)
    && var t := ApplyCommands(s, w.commands);
       !t.hold && GateOf(args, t, w).Use?
  }

  /** ... and as far as writing a computed CV. */
  predicate WritesCv(args: LoopArgs, s: LoopState, w: Wake) {
    && ReadsPv(args, s, w) && w.pv.Some?
    && var t := ApplyCommands(s, w.commands);
       StepDefined(t.session.ctrl, InputOf(t.session, Scaled(args, w.pv.value), GateOf(args, t, w).dt, w.ff))
  }

  /** The PV reads of a run, oldest first: did they succeed? */
  function PvLog(args: LoopArgs, s: LoopState, ws: seq<Wake>): seq<bool> {
    if ws == [] then []
    else
      var before, w := ws[..|ws| - 1], ws[|ws| - 1];
      PvLog(args, s, before) + (if ReadsPv(args, Run(args, s, before), w) then [w.pv.Some?] else [])
  }

  /** The computed CVs' writes of a run, oldest first: did the actuator accept them? */
  function CvLog(args: LoopArgs, s: LoopState, ws: seq<Wake>): seq<bool> {
    if ws == [] then []
    else
      var before, w := ws[..|ws| - 1], ws[|ws| - 1];
      CvLog(args, s, before) + (if WritesCv(args, Run(args, s, before), w) then [w.cvAccepted] else [])
  }

  /** The loop sleeps until its deadline. */
  predicate OnTime(s: LoopState, w: Wake) {
    w.now >= s.deadline
  }

  /** Every wake-up comes after the deadline then in force. */
  ghost predicate RunOnTime(args: LoopArgs, s: LoopState, ws: seq<Wake>) {
    forall i :: 0 <= i < |ws| ==> OnTime(Run(args, s, ws[..i]), ws[i])
  }

  /** A loop that has just been entered. */
  predicate Entered(s: LoopState) {
    s.exit.None? && s.cvFails == 0 && s.pvFails == 0 && s.written == []
  }

  function Last(written: seq<real>, initial: real): real {
    if written == [] then initial else written[|written| - 1]
  }

  function Counted(iter: nat): nat {
    if iter < U64_MAX then iter + 1 else iter
  }

  // ---------- one round ----------

  lemma {:induction false} ServesAllIff(cs: seq<Command>)
    ensures ServesAll(cs) <==> forall j :: 0 <= j < |cs| ==> !Panics(cs[j])
  {
    hide Panics;
    if cs != [] {
      ServesAllIff(cs[1..]);
      assert cs == [cs[0]] + cs[1..];
      assert forall j :: 1 <= j < |cs| ==> cs[j] == cs[1..][j - 1];
      if !Panics(cs[0]) && Served(cs) == cs {
        assert ([cs[0]] + Served(cs[1..]))[1..] == Served(cs[1..]);
      }
    }
  }

  /** What no command touches. */
  predicate SameRecords(s: LoopState, t: LoopState) {
    && t.written == s.written && t.cvFails == s.cvFails && t.pvFails == s.pvFails && t.exit == s.exit
    && t.lastTick == s.lastTick && t.deadline == s.deadline
    && Applied(t.session) == Applied(s.session) && t.session.snap.iter == s.session.snap.iter
  }

  lemma CommandKeepsRecords(s: LoopState, c: Command)
    ensures SameRecords(s, ApplyCommand(s, c))
  {
    hide WithIntervalSet, AfterCall;
    if c.SetInterval? && Convertible(c.secs) {
      IntervalKeepsRecords(s, NanosFrom(c.secs));
    }
  }

  lemma IntervalKeepsRecords(s: LoopState, interval: nat)
    ensures SameRecords(s, WithIntervalSet(s, interval))
  {
  }

  lemma {:induction false} CommandsKeepRecords(s: LoopState, cs: seq<Command>)
    ensures SameRecords(s, ApplyCommands(s, cs))
  {
    hide ApplyCommand;
    if cs != [] {
      CommandsKeepRecords(s, cs[..|cs| - 1]);
      CommandKeepsRecords(ApplyCommands(s, cs[..|cs| - 1]), cs[|cs| - 1]);
    }
  }

  /** The records move together: what was written last is what is applied. */
  predicate RecordsFollow(s: LoopState, t: LoopState) {
    && s.written <= t.written
    && Applied(t.session) == (if |t.written| > |s.written| then t.written[|t.written| - 1] else Applied(s.session))
  }

  lemma ProcessedConfig(s: SessionState, pv: real, dt: real, ff: real, accepted: bool)
    requires StepDefined(s.ctrl, InputOf(s, pv, dt, ff))
    ensures Processed(s, pv, dt, ff, accepted).0.ctrl.config == s.ctrl.config
  {
  }

  lemma ProcessedRecords(s: SessionState, pv: real, dt: real, ff: real, accepted: bool)
    requires StepDefined(s.ctrl, InputOf(s, pv, dt, ff))
    ensures var (t, step) := Processed(s, pv, dt, ff, accepted);
            && t.snap.iter == Counted(s.snap.iter)
            && Applied(t) == (if accepted then step.cv else Applied(s))
  {
  }

  lemma SafeCvApplies(s: SessionState, cv: real)
    ensures Applied(WithConfirmedCv(s, cv)) == cv && WithConfirmedCv(s, cv).snap.iter == s.snap.iter
  {
  }

  lemma TickRecords(args: LoopArgs, s: LoopState, w: Wake, pv: real, dt: real)
    requires s.exit.None?
    ensures var t := TickStepped(args, s, w, pv, dt);
            var ticks := StepDefined(s.session.ctrl, InputOf(s.session, pv, dt, w.ff));
            && t.pvFails == s.pvFails
            && t.cvFails == (if !ticks then s.cvFails else if w.cvAccepted then 0 else s.cvFails + 1)
            && t.session.snap.iter == (if ticks then Counted(s.session.snap.iter) else s.session.snap.iter)
            && RecordsFollow(s, t)
            && (t.exit == Some(CvFailures) <==> ticks && !w.cvAccepted && t.cvFails >= args.cvFailAfter)
            && (t.exit in {Some(Panicked), Some(BeyondReals)} <==> !ticks)
            && t.exit in {None, Some(CvFailures), Some(Panicked), Some(BeyondReals)}
            && (t.exit == Some(Panicked) ==> StepPanics(s.session.ctrl, InputOf(s.session, pv, dt, w.ff)))
  {
    hide Processed, StepDefined, StepPanics, Applied, AfterCall, WithConfirmedCv;
    if StepDefined(s.session.ctrl, InputOf(s.session, pv, dt, w.ff)) {
      ProcessedRecords(s.session, pv, dt, w.ff, w.cvAccepted);
      SafeCvApplies(Processed(s.session, pv, dt, w.ff, w.cvAccepted).0, args.safeCv.GetOr(0.0));
    }
  }

  lemma MeasuredRecords(args: LoopArgs, s: LoopState, w: Wake, dt: real)
    requires s.exit.None?
    ensures var t := Measured(args, s, w, dt);
            var ticks := w.pv.Some?
                         && StepDefined(s.session.ctrl, InputOf(s.session, Scaled(args, w.pv.value), dt, w.ff));
            && t.pvFails == (if w.pv.Some? then 0 else s.pvFails + 1)
            && t.cvFails == (if !ticks then s.cvFails else if w.cvAccepted then 0 else s.cvFails + 1)
            && t.session.snap.iter == (if ticks then Counted(s.session.snap.iter) else s.session.snap.iter)
            && RecordsFollow(s, t)
            && (t.exit == Some(CvFailures) <==> ticks && !w.cvAccepted && t.cvFails >= args.cvFailAfter)
            && (t.exit == Some(PvFailures) <==> w.pv.None? && args.failAfter.Some? && t.pvFails >= args.failAfter.value)
            && (t.exit in {Some(Panicked), Some(BeyondReals)} <==> w.pv.Some? && !ticks)
            && (t.exit == Some(Panicked) ==>
                  StepPanics(s.session.ctrl, InputOf(s.session, Scaled(args, w.pv.value), dt, w.ff)))
            && t.exit != Some(Hung)
  {
    hide Applied, Scaled, AfterCall, TickStepped, StepDefined, StepPanics, WithConfirmedCv;
    SafeCvApplies(s.session, args.safeCv.GetOr(0.0));
    if w.pv.Some? {
      var u := s.(pvFails := 0);
      TickRecords(args, u, w, Scaled(args, w.pv.value), dt);
      SafeCvApplies(TickStepped(args, u, w, Scaled(args, w.pv.value), dt).session, args.safeCv.GetOr(0.0));
    }
  }

  /** What one round does to the counters, the records and the exit. */
  lemma RoundRecords(args: LoopArgs, s: LoopState, w: Wake)
    ensures var t := Round(args, s, w);
            && t.pvFails == (if !ReadsPv(args, s, w) then s.pvFails else if w.pv.Some? then 0 else s.pvFails + 1)
            && t.cvFails == (if !WritesCv(args, s, w) then s.cvFails else if w.cvAccepted then 0 else s.cvFails + 1)
            && t.session.snap.iter
               == (if WritesCv(args, s, w) then Counted(s.session.snap.iter) else s.session.snap.iter)
            && RecordsFollow(s, t)
            && (s.exit.Some? ==> t == s)
            && (s.exit.None? ==>
                 && (t.exit == Some(CvFailures)
                     <==> WritesCv(args, s, w) && !w.cvAccepted && t.cvFails >= args.cvFailAfter)
                 && (t.exit == Some(PvFailures)
                     <==> ReadsPv(args, s, w) && w.pv.None?
                          && args.failAfter.Some? && t.pvFails >= args.failAfter.value))
  {
    hide Measured, StepDefined, Applied, Scaled, ApplyCommands, Served, AfterCall;
    CommandsKeepRecords(s, Served(w.commands));
    SafeCvApplies(s.session, args.safeCv.GetOr(0.0));
    var t := ApplyCommands(s, w.commands);
    SafeCvApplies(t.session, args.safeCv.GetOr(0.0));
    SkipKeepsApplied(t.session);
    if ReadsPv(args, s, w) {
      var next := Schedule.NextDeadline(t.deadline, t.runtime.interval, w.now);
      MeasuredRecords(args, t.(deadline := next, lastTick := w.now), w, GateOf(args, t, w).dt);
    }
  }

  lemma SkipKeepsApplied(s: SessionState)
    ensures Applied(WithDtSkipped(s)) == Applied(s)
  {
  }

  // ---------- whole runs ----------

  /** The applied CV a session works with is always the last one the actuator accepted. */
  lemma {:induction false} LastCvIsConfirmed(args: LoopArgs, s: LoopState, ws: seq<Wake>)
    requires Entered(s)
    ensures Applied(Run(args, s, ws).session) == Last(Run(args, s, ws).written, Applied(s.session))
  {
    hide Round, Applied;
    if ws != [] {
      LastCvIsConfirmed(args, s, ws[..|ws| - 1]);
      RoundRecords(args, Run(args, s, ws[..|ws| - 1]), ws[|ws| - 1]);
    }
  }

  /** `iter` counts exactly the processed ticks, failed CV writes included, and saturates at 64 bits. */
  lemma {:induction false} IterCountsTicks(args: LoopArgs, s: LoopState, ws: seq<Wake>)
    requires s.session.snap.iter <= U64_MAX
    ensures var n := s.session.snap.iter + |CvLog(args, s, ws)|;
            Run(args, s, ws).session.snap.iter == (if n <= U64_MAX then n else U64_MAX)
  {
    hide Round, WritesCv;
    if ws != [] {
      IterCountsTicks(args, s, ws[..|ws| - 1]);
      RoundRecords(args, Run(args, s, ws[..|ws| - 1]), ws[|ws| - 1]);
    }
  }

  lemma TrailingAppend(log: seq<bool>, ok: bool)
    ensures TrailingFailures(log + [ok]) == if ok then 0 else TrailingFailures(log) + 1
  {
  }

  function AtLeastOne(n: nat): nat {
    if n == 0 then 1 else n
  }

  /** The loop gives up on the actuator exactly when the last `max(1, cv_fail_after)` computed CVs were
      all rejected, and so at the first such moment; until then the counter is below the limit. */
  lemma {:induction false} StopsAtCvFailLimit(args: LoopArgs, s: LoopState, ws: seq<Wake>)
    requires Entered(s)
    ensures var t := Run(args, s, ws);
            && t.cvFails == TrailingFailures(CvLog(args, s, ws)) <= AtLeastOne(args.cvFailAfter)
            && (t.exit == Some(CvFailures) <==> t.cvFails == AtLeastOne(args.cvFailAfter))
  {
    hide Round, WritesCv, ReadsPv;
    if ws != [] {
      var before, w := ws[..|ws| - 1], ws[|ws| - 1];
      StopsAtCvFailLimit(args, s, before);
      RoundRecords(args, Run(args, s, before), w);
      TrailingAppend(CvLog(args, s, before), w.cvAccepted);
      NoWriteAfterExit(args, Run(args, s, before), w);
      assert CvLog(args, s, before) + [] == CvLog(args, s, before);
    }
  }

  lemma NoWriteAfterExit(args: LoopArgs, s: LoopState, w: Wake)
    ensures s.exit.Some? ==> !ReadsPv(args, s, w) && !WritesCv(args, s, w)
  {
  }

  /** Likewise for the PV source, when a limit is set; without one the loop never gives up on it. */
  lemma {:induction false} StopsAtPvFailLimit(args: LoopArgs, s: LoopState, ws: seq<Wake>)
    requires Entered(s)
    ensures var t := Run(args, s, ws);
            && t.pvFails == TrailingFailures(PvLog(args, s, ws))
            && (t.exit == Some(PvFailures) <==> args.failAfter.Some? && t.pvFails >= AtLeastOne(args.failAfter.value))
            && (args.failAfter.Some? ==> t.pvFails <= AtLeastOne(args.failAfter.value))
  {
    hide Round, WritesCv, ReadsPv;
    if ws != [] {
      var before, w := ws[..|ws| - 1], ws[|ws| - 1];
      StopsAtPvFailLimit(args, s, before);
      RoundRecords(args, Run(args, s, before), w);
      TrailingAppend(PvLog(args, s, before), w.pv.Some?);
      NoWriteAfterExit(args, Run(args, s, before), w);
      assert PvLog(args, s, before) + [] == PvLog(args, s, before);
    }
  }

  // ---------- the end of a run ----------

  lemma {:induction false} CommandsKeepStore(s: LoopState, cs: seq<Command>)
    ensures ApplyCommands(s, cs).store.hasStore == s.store.hasStore
  {
    if cs != [] {
      CommandsKeepStore(s, cs[..|cs| - 1]);
    }
  }

  /** The store has just been offered the session's snapshot. */
  predicate Flushed(s: LoopState, w: Wake) {
    if SaveSucceeds(s.session.snap, w.flushEnv) then s.store.disk == Some(s.session.snap) && s.store.failCount == 0
    else s.store.failCount > 0
  }

  lemma CallsKeepStore(args: LoopArgs, s: LoopState, w: Wake, exit: Exit)
    ensures SafeCvWritten(args, s, w).store.hasStore == s.store.hasStore
    ensures Persisted(s, w.env, false).store.hasStore == s.store.hasStore
    ensures Finished(args, s, w, exit).store.hasStore == s.store.hasStore
    ensures s.store.hasStore ==> Flushed(Finished(args, s, w, exit), w)
    ensures Finished(args, s, w, exit).exit == Some(exit)
  {
  }

  lemma TickKeepsStore(args: LoopArgs, s: LoopState, w: Wake, pv: real, dt: real)
    requires s.exit.None?
    ensures var t := TickStepped(args, s, w, pv, dt);
            t.store.hasStore == s.store.hasStore && t.exit !in {Some(Shutdown), Some(IterationLimit)}
  {
    hide Processed, StepDefined, AfterCall, SafeCvWritten;
    if StepDefined(s.session.ctrl, InputOf(s.session, pv, dt, w.ff)) {
      var t := s.(session := Processed(s.session, pv, dt, w.ff, w.cvAccepted).0);
      CallsKeepStore(args, t, w, CvFailures);
      CallsKeepStore(args, Persisted(t, w.env, false).(cvFails := s.cvFails + 1), w, CvFailures);
    }
  }

  lemma MeasuredEnds(args: LoopArgs, s: LoopState, w: Wake, dt: real)
    requires s.exit.None?
    ensures var t := Measured(args, s, w, dt);
            && t.store.hasStore == s.store.hasStore && t.exit != Some(Shutdown)
            && (t.exit == Some(IterationLimit) && s.store.hasStore ==> Flushed(t, w))
  {
    hide TickStepped, SafeCvWritten, Finished, Flushed, Scaled;
    CallsKeepStore(args, s.(pvFails := s.pvFails + 1), w, PvFailures);
    if w.pv.Some? {
      var t := s.(pvFails := 0);
      TickKeepsStore(args, t, w, Scaled(args, w.pv.value), dt);
      CallsKeepStore(args, TickStepped(args, t, w, Scaled(args, w.pv.value), dt), w, IterationLimit);
    } else {
      LostKeepsExit(args, s, w);
    }
  }

  lemma LostKeepsExit(args: LoopArgs, s: LoopState, w: Wake)
    requires s.exit.None?
    ensures PvLost(args, s, w).exit in {None, Some(PvFailures)}
  {
    hide AfterCall;
  }

  lemma RoundEnds(args: LoopArgs, s: LoopState, w: Wake)
    requires s.exit.None? && s.store.hasStore
    ensures var t := Round(args, s, w);
            && t.store.hasStore
            && (t.exit in {Some(Shutdown), Some(IterationLimit)} ==> Flushed(t, w))
  {
    hide Measured, ApplyCommands, Served, StepDefined, Processed, Finished, Flushed;
    CallsKeepStore(args, s, w, Shutdown);
    CallsKeepStore(args, ApplyCommands(s, Served(w.commands)), w, Shutdown);
    CommandsKeepStore(s, Served(w.commands));
    CommandsKeepRecords(s, Served(w.commands));
    if ReadsPv(args, s, w) {
      var t := ApplyCommands(s, w.commands);
      var next := Schedule.NextDeadline(t.deadline, t.runtime.interval, w.now);
      MeasuredEnds(args, t.(deadline := next, lastTick := w.now), w, GateOf(args, t, w).dt);
    }
  }

  /** A shutdown, and the end by the iteration limit, leave the final snapshot - the safe CV included - on
      disk, or a failure on the counter. */
  lemma {:induction false} OrderlyEndIsSaved(args: LoopArgs, s: LoopState, ws: seq<Wake>) returns (j: nat)
    requires s.exit.None? && s.store.hasStore && Run(args, s, ws).exit in {Some(Shutdown), Some(IterationLimit)}
    ensures j < |ws| && Run(args, s, ws[..j]).exit.None? && Run(args, s, ws[..j + 1]) == Run(args, s, ws)
    ensures Flushed(Run(args, s, ws), ws[j])
  {
    hide Round, Flushed;
    var n := |ws| - 1;
    var before := Run(args, s, ws[..n]);
    if before.exit.None? {
      j := n;
      StoreStays(args, s, ws[..n]);
      RoundEnds(args, before, ws[n]);
      assert ws[..n + 1] == ws;
    } else {
      ExitIsFinal(args, before, ws[n]);
      j := OrderlyEndIsSaved(args, s, ws[..n]);
      assert ws[..n][..j] == ws[..j] && ws[..n][..j + 1] == ws[..j + 1];
    }
  }

  lemma ExitIsFinal(args: LoopArgs, s: LoopState, w: Wake)
    ensures s.exit.Some? ==> Round(args, s, w) == s
  {
  }

  lemma {:induction false} StoreStays(args: LoopArgs, s: LoopState, ws: seq<Wake>)
    requires s.store.hasStore && s.exit.None?
    ensures Run(args, s, ws).store.hasStore
  {
    hide Round, Flushed;
    if ws != [] {
      StoreStays(args, s, ws[..|ws| - 1]);
      var t := Run(args, s, ws[..|ws| - 1]);
      ExitIsFinal(args, t, ws[|ws| - 1]);
      if t.exit.None? {
        RoundEnds(args, t, ws[|ws| - 1]);
      }
    }
  }

  /** When the loop ends in good order or gives up, and whenever a PV read is lost, the last thing the actuator
      took - if it takes it - is the safe CV. */
  lemma SafeCvIsLast(args: LoopArgs, s: LoopState, w: Wake)
    requires s.exit.None? && args.safeCv.Some? && w.safeAccepted
    requires Round(args, s, w).exit in {Some(Shutdown), Some(IterationLimit), Some(CvFailures), Some(PvFailures)}
             || (ReadsPv(args, s, w) && w.pv.None?)
    ensures var t := Round(args, s, w); t.written != [] && t.written[|t.written| - 1] == args.safeCv.value
  {
    hide StepDefined, StepPanics, Processed, AfterCall, Scaled, ApplyCommands, Served, WithConfirmedCv;
    hide Schedule.NextDeadline, GateDt;
    CommandsKeepRecords(s, Served(w.commands));
  }

  lemma MeasuredLimit(args: LoopArgs, s: LoopState, w: Wake, dt: real)
    requires s.exit.None?
    ensures var t := Measured(args, s, w, dt);
            t.exit == Some(IterationLimit)
            <==> && w.pv.Some?
                 && StepDefined(s.session.ctrl, InputOf(s.session, Scaled(args, w.pv.value), dt, w.ff))
                 && t.exit != Some(CvFailures)
                 && args.maxIterations.Some? && t.session.snap.iter >= args.maxIterations.value
  {
    hide Applied, Scaled, AfterCall, TickStepped, StepDefined, StepPanics;
    if w.pv.Some? {
      TickRecords(args, s.(pvFails := 0), w, Scaled(args, w.pv.value), dt);
    }
  }

  lemma RoundLimit(args: LoopArgs, s: LoopState, w: Wake)
    requires s.exit.None?
    ensures var t := Round(args, s, w);
            t.exit == Some(IterationLimit)
            <==> WritesCv(args, s, w) && t.exit != Some(CvFailures)
                 && args.maxIterations.Some? && t.session.snap.iter >= args.maxIterations.value
  {
    hide Measured, StepDefined, Applied, Scaled, ApplyCommands, Served, AfterCall;
    CommandsKeepRecords(s, Served(w.commands));
    var t := ApplyCommands(s, w.commands);
    if ReadsPv(args, s, w) {
      var next := Schedule.NextDeadline(t.deadline, t.runtime.interval, w.now);
      MeasuredLimit(args, t.(deadline := next, lastTick := w.now), w, GateOf(args, t, w).dt);
    }
  }

  /** With an iteration limit above the count it starts from, the loop never counts further than the limit, and
      when it gets there it ends - for the limit, or because the actuator failed too often. */
  lemma {:induction false} StopsAtIterationLimit(args: LoopArgs, s: LoopState, ws: seq<Wake>)
    requires Entered(s) && args.maxIterations.Some?
    requires s.session.snap.iter < args.maxIterations.value <= U64_MAX
    ensures var t, limit := Run(args, s, ws), args.maxIterations.value;
            && t.session.snap.iter <= limit
            && (t.exit == Some(IterationLimit) ==> t.session.snap.iter == limit)
            && (t.session.snap.iter == limit ==> t.exit in {Some(IterationLimit), Some(CvFailures)})
  {
    hide Round, WritesCv, ReadsPv;
    if ws != [] {
      var before, w := ws[..|ws| - 1], ws[|ws| - 1];
      StopsAtIterationLimit(args, s, before);
      RoundRecords(args, Run(args, s, before), w);
      if Run(args, s, before).exit.None? {
        RoundLimit(args, Run(args, s, before), w);
      }
    }
  }
}
