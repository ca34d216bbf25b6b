/** The control loop and the clock: its deadlines lie on one grid, and the `dt` it uses is - or is not - the
    time that passed between two measurements. */
module LoopClock {
  import opened RealMath
  import opened PidCore
  import opened Persistence
  import opened Session
  import opened Loop
  import opened LoopAccounting
  import opened Schedule

  // ---------- deadlines of a run ----------

  /** The instants at which the loop woke up for a deadline. */
  function WakeTimes(args: LoopArgs, s: LoopState, ws: seq<Wake>): seq<nat> {
    if ws == [] then []
    else
      var before, w := ws[..|ws| - 1], ws[|ws| - 1];
      WakeTimes(args, s, before) + (if Awake(Run(args, s, before), w) then [w.now] else [])
  }

  ghost predicate FixedInterval(ws: seq<Wake>) {
    forall i, j :: 0 <= i < |ws| && 0 <= j < |ws[i].commands| ==> !ws[i].commands[j].SetInterval?
  }

  lemma {:induction false} CommandsKeepInterval(s: LoopState, cs: seq<Command>)
    requires forall j :: 0 <= j < |cs| ==> !cs[j].SetInterval?
    ensures ApplyCommands(s, cs).runtime == s.runtime
  {
    if cs != [] {
      CommandsKeepInterval(s, cs[..|cs| - 1]);
    }
  }

  /** The same controller at the same place of the schedule. */
  ghost predicate SameController(s: LoopState, t: LoopState) {
    s.session.ctrl == t.session.ctrl && s.lastTick == t.lastTick && s.deadline == t.deadline && s.runtime == t.runtime
  }

  /** What writing the safe CV, and ending, leave alone. */
  lemma SafeCvKeeps(args: LoopArgs, s: LoopState, w: Wake, exit: Exit)
    ensures SameController(SafeCvWritten(args, s, w), s) && SameController(Finished(args, s, w, exit), s)
  {
    hide AfterCall;
  }

  lemma TickController(args: LoopArgs, s: LoopState, w: Wake, pv: real, dt: real)
    requires s.exit.None?
    ensures var t := TickStepped(args, s, w, pv, dt);
            if StepDefined(s.session.ctrl, InputOf(s.session, pv, dt, w.ff)) then
              SameController(t, s.(session := Processed(s.session, pv, dt, w.ff, w.cvAccepted).0))
            else SameController(t, s) && t.exit in {Some(Panicked), Some(BeyondReals)}
  {
    hide Processed, StepDefined, AfterCall, SafeCvWritten;
    if StepDefined(s.session.ctrl, InputOf(s.session, pv, dt, w.ff)) {
      var t := Persisted(s.(session := Processed(s.session, pv, dt, w.ff, w.cvAccepted).0), w.env, false);
      SafeCvKeeps(args, t.(cvFails := s.cvFails + 1), w, CvFailures);
    }
  }

  /** What a measured round leaves in the controller. */
  lemma MeasuredController(args: LoopArgs, s: LoopState, w: Wake, dt: real)
    requires s.exit.None?
    ensures var t := Measured(args, s, w, dt);
            if w.pv.Some? && StepDefined(s.session.ctrl, InputOf(s.session, Scaled(args, w.pv.value), dt, w.ff)) then
              SameController(
                t, s.(session := Processed(s.session, Scaled(args, w.pv.value), dt, w.ff, w.cvAccepted).0))
            else SameController(t, s) && (w.pv.Some? ==> t.exit in {Some(Panicked), Some(BeyondReals)})
  {
    hide TickStepped, SafeCvWritten, Finished, Scaled, StepDefined, Processed;
    SafeCvKeeps(args, s.(pvFails := s.pvFails + 1), w, PvFailures);
    if w.pv.Some? {
      TickController(args, s.(pvFails := 0), w, Scaled(args, w.pv.value), dt);
      SafeCvKeeps(args, TickStepped(args, s.(pvFails := 0), w, Scaled(args, w.pv.value), dt), w, IterationLimit);
    }
  }

  /** What a round does to the schedule. */
  lemma RoundSchedule(args: LoopArgs, s: LoopState, w: Wake)
    ensures var t, u := ApplyCommands(s, w.commands), Round(args, s, w);
            && u.deadline == (if Awake(s, w) then NextDeadline(s.deadline, t.runtime.interval, w.now) else s.deadline)
            && u.runtime == (if s.exit.None? && !w.shutdownBefore then ApplyCommands(s, Served(w.commands)).runtime
                             else s.runtime)
  {
    hide Measured, Processed, StepDefined, Scaled, AfterCall, ApplyCommands, NextDeadline, Served;
    CommandsKeepRecords(s, w.commands);
    CommandsKeepRecords(s, Served(w.commands));
    if ReadsPv(args, s, w) {
      var t := ApplyCommands(s, w.commands);
      var u := t.(deadline := NextDeadline(t.deadline, t.runtime.interval, w.now), lastTick := w.now);
      MeasuredController(args, u, w, GateOf(args, t, w).dt);
    }
  }

  lemma {:induction false} RuntimeIsFixed(args: LoopArgs, s: LoopState, ws: seq<Wake>)
    requires FixedInterval(ws)
    ensures Run(args, s, ws).runtime == s.runtime
  {
    hide Round;
    if ws != [] {
      RuntimeIsFixed(args, s, ws[..|ws| - 1]);
      RoundSchedule(args, Run(args, s, ws[..|ws| - 1]), ws[|ws| - 1]);
      CommandsKeepInterval(Run(args, s, ws[..|ws| - 1]), ws[|ws| - 1].commands);
      ServesAllIff(ws[|ws| - 1].commands);
    }
  }

  /** The deadline of a run without interval changes is the schedule of its wake-ups. */
  lemma {:induction false} LoopDeadline(args: LoopArgs, s: LoopState, ws: seq<Wake>)
    requires FixedInterval(ws) && s.runtime.interval > 0
    ensures Run(args, s, ws).deadline == DeadlineAfter(s.deadline, s.runtime.interval, WakeTimes(args, s, ws))
  {
    hide Round, NextDeadline, Awake;
    if ws != [] {
      var before, w := ws[..|ws| - 1], ws[|ws| - 1];
      LoopDeadline(args, s, before);
      RuntimeIsFixed(args, s, before);
      CommandsKeepInterval(Run(args, s, before), w.commands);
      RoundSchedule(args, Run(args, s, before), w);
      var times := WakeTimes(args, s, ws);
      if Awake(Run(args, s, before), w) {
        assert times[..|times| - 1] == WakeTimes(args, s, before);
      } else {
        assert times == WakeTimes(args, s, before);
      }
    }
  }

  lemma {:induction false} WakeTimesGrow(args: LoopArgs, s: LoopState, ws: seq<Wake>, i: nat)
    requires i <= |ws|
    ensures WakeTimes(args, s, ws[..i]) <= WakeTimes(args, s, ws)
    decreases |ws|
  {
    if i == |ws| {
      assert ws[..i] == ws;
    } else {
      var before := ws[..|ws| - 1];
      WakeTimesGrow(args, s, before, i);
      assert before[..i] == ws[..i];
    }
  }

  /** The wake-up of a round is at its place in the list. */
  lemma WakeTimeOf(args: LoopArgs, s: LoopState, ws: seq<Wake>, i: nat) returns (k: nat)
    requires i < |ws| && Awake(Run(args, s, ws[..i]), ws[i])
    ensures k < |WakeTimes(args, s, ws)| && WakeTimes(args, s, ws)[k] == ws[i].now
  {
    hide Run, Awake;
    k := |WakeTimes(args, s, ws[..i])|;
    WakeTimesGrow(args, s, ws, i + 1);
    assert ws[..i + 1][..i] == ws[..i] && ws[..i + 1][i] == ws[i];
    assert WakeTimes(args, s, ws[..i + 1]) == WakeTimes(args, s, ws[..i]) + [ws[i].now];
  }

  /** Without interval changes every deadline of every run lies on the grid through the first: no drift. */
  lemma LoopStaysOnGrid(args: LoopArgs, s: LoopState, ws: seq<Wake>) returns (k: nat)
    requires FixedInterval(ws) && s.runtime.interval > 0
    ensures Run(args, s, ws).deadline == s.deadline + k * s.runtime.interval && k >= |WakeTimes(args, s, ws)|
  {
    LoopDeadline(args, s, ws);
    k := DeadlinesStayOnGrid(s.deadline, s.runtime.interval, WakeTimes(args, s, ws));
  }

  /** ... and lies after every wake-up so far. */
  lemma DeadlineIsAhead(args: LoopArgs, s: LoopState, ws: seq<Wake>, i: nat)
    requires FixedInterval(ws) && s.runtime.interval > 0
    requires i < |ws| && Awake(Run(args, s, ws[..i]), ws[i])
    ensures Run(args, s, ws).deadline > ws[i].now
  {
    hide Run, Awake;
    LoopDeadline(args, s, ws);
    var k := WakeTimeOf(args, s, ws, i);
    DeadlinesIncrease(s.deadline, s.runtime.interval, WakeTimes(args, s, ws), k);
  }

  /** At most one round per slot of the grid gets past the sleep, however late the loop wakes: missed slots
      are skipped, never replayed. */
  lemma OneRoundPerSlot(args: LoopArgs, s: LoopState, ws: seq<Wake>, i: nat, j: nat)
    requires FixedInterval(ws) && s.runtime.interval > 0 && RunOnTime(args, s, ws) && i < j < |ws|
    requires Awake(Run(args, s, ws[..i]), ws[i]) && Awake(Run(args, s, ws[..j]), ws[j])
    ensures ws[i].now < ws[j].now
    ensures Slot(s.deadline, s.runtime.interval, ws[i].now) < Slot(s.deadline, s.runtime.interval, ws[j].now)
  {
    hide Run, Awake, Slot;
    var before := ws[..j];
    assert before[..i] == ws[..i] && before[i] == ws[i] && ws[..j] == before;
    assert OnTime(Run(args, s, ws[..j]), ws[j]);
    DeadlineIsAhead(args, s, before, i);
    var k := LoopStaysOnGrid(args, s, before);
    SlotOfGrid(s.deadline, s.runtime.interval, ws[i].now, k);
    SlotOfGrid(s.deadline, s.runtime.interval, ws[j].now, k);
  }

  // ---------- the time between two measurements ----------

  /** The round measures `dt`. */
  predicate Measures(s: LoopState, w: Wake) {
    Awake(s, w) && !ApplyCommands(s, w.commands).hold
  }

  /** A processed measurement: when it was taken, and its filtered value. */
  datatype Reading = Reading(at: nat, value: real)

  function LastReading(args: LoopArgs, s: LoopState, ws: seq<Wake>): Option<Reading> {
    if ws == [] then None
    else
      var before, w := ws[..|ws| - 1], ws[|ws| - 1];
      var t := Run(args, s, before);
      if WritesCv(args, t, w) then
        Some(Reading(w.now, FilteredPv(ApplyCommands(t, w.commands).session.ctrl, Scaled(args, w.pv.value))))
      else LastReading(args, s, before)
  }

  /** A read of the PV has failed since the last processed measurement. */
  predicate LostSince(args: LoopArgs, s: LoopState, ws: seq<Wake>) {
    ws != [] &&
    var before, w := ws[..|ws| - 1], ws[|ws| - 1];
    var t := Run(args, s, before);
    !WritesCv(args, t, w) && ((ReadsPv(args, t, w) && w.pv.None?) || LostSince(args, s, before))
  }

  function LastNow(s: LoopState, ws: seq<Wake>): nat {
    if ws == [] then s.lastTick else ws[|ws| - 1].now
  }

  /** The clock advances from wake-up to wake-up. */
  ghost predicate Ticking(s: LoopState, ws: seq<Wake>) {
    forall i :: 0 <= i < |ws| ==> LastNow(s, ws[..i]) < ws[i].now
  }

  function Pending(s: LoopState): Option<DTermSkipReason> {
    s.session.ctrl.nextDTermSkipReason
  }

  lemma {:induction false} CommandsKeepReading(s: LoopState, cs: seq<Command>)
    ensures ApplyCommands(s, cs).session.ctrl.runtime.lastPv == s.session.ctrl.runtime.lastPv
    ensures Pending(ApplyCommands(s, cs)).None? ==> Pending(s).None?
  {
    if cs != [] {
      CommandsKeepReading(s, cs[..|cs| - 1]);
    }
  }

  lemma ProcessedReading(s: SessionState, pv: real, dt: real, ff: real, accepted: bool)
    requires StepDefined(s.ctrl, InputOf(s, pv, dt, ff))
    ensures Processed(s, pv, dt, ff, accepted).0.ctrl.runtime.lastPv == Some(FilteredPv(s.ctrl, pv))
  {
  }

  /** What a round does to the clock and the reading. */
  lemma RoundClock(args: LoopArgs, s: LoopState, w: Wake)
    ensures var t, u := ApplyCommands(s, w.commands), Round(args, s, w);
            && u.lastTick == (if Measures(s, w) then w.now else s.lastTick)
            && (if WritesCv(args, s, w) then
                  && Measures(s, w)
                  && u.session.ctrl == Processed(t.session, Scaled(args, w.pv.value), GateOf(args, t, w).dt, w.ff,
                                                 w.cvAccepted).0.ctrl
                  && u.session.ctrl.runtime.lastPv == Some(FilteredPv(t.session.ctrl, Scaled(args, w.pv.value)))
                else
                  && u.session.ctrl.runtime.lastPv == s.session.ctrl.runtime.lastPv
                  && (u.exit.None? && Pending(u).None? ==>
                        && s.exit.None? && Pending(s).None?
                        && (Measures(s, w) <==> ReadsPv(args, s, w) && w.pv.None?)))
  {
    hide Measured, Processed, StepDefined, Scaled, AfterCall, ApplyCommands, FilteredPv, Served;
    CommandsKeepRecords(s, Served(w.commands));
    CommandsKeepReading(s, Served(w.commands));
    if ReadsPv(args, s, w) {
      var t := ApplyCommands(s, w.commands);
      var u := t.(deadline := NextDeadline(t.deadline, t.runtime.interval, w.now), lastTick := w.now);
      MeasuredController(args, u, w, GateOf(args, t, w).dt);
      if WritesCv(args, s, w) {
        ProcessedReading(t.session, Scaled(args, w.pv.value), GateOf(args, t, w).dt, w.ff, w.cvAccepted);
      }
    }
  }

  /** The loop's `last_tick` is never before the last processed measurement, and - when the next derivative
      is not to be skipped anyway - is that instant exactly when no read was lost since. */
  lemma {:induction false} TickFollowsReading(args: LoopArgs, s: LoopState, ws: seq<Wake>)
    requires Ticking(s, ws)
    ensures Run(args, s, ws).lastTick <= LastNow(s, ws)
    ensures var t, x := Run(args, s, ws), LastReading(args, s, ws);
            x.Some? ==>
              && t.session.ctrl.runtime.lastPv == Some(x.value.value)
              && x.value.at <= t.lastTick
              && (t.exit.None? && Pending(t).None? ==> (t.lastTick == x.value.at <==> !LostSince(args, s, ws)))
  {
    hide Round, WritesCv, ReadsPv, Measures, FilteredPv, Scaled;
    if ws != [] {
      var n := |ws| - 1;
      forall i | 0 <= i < n ensures LastNow(s, ws[..n][..i]) < ws[..n][i].now {
        assert ws[..n][..i] == ws[..i];
      }
      TickFollowsReading(args, s, ws[..n]);
      RoundClock(args, Run(args, s, ws[..n]), ws[n]);
      WritesAfterMeasuring(args, Run(args, s, ws[..n]), ws[n]);
    }
  }

  lemma WritesAfterMeasuring(args: LoopArgs, s: LoopState, w: Wake)
    ensures WritesCv(args, s, w) ==> Measures(s, w) && ReadsPv(args, s, w) && w.pv.Some?
    ensures ReadsPv(args, s, w) ==> Measures(s, w)
  {
    hide StepDefined;
  }

  /** The derivative over a given time. */
  function RateTerm(kd: real, change: real, dt: real): real
    requires dt > 0.0
  {
    -kd * (change / dt)
  }

  lemma RatesAgreeIff(kd: real, change: real, a: real, b: real)
    requires kd != 0.0 && a > 0.0 && b > 0.0
    ensures RateTerm(kd, change, a) == RateTerm(kd, change, b) <==> a == b || change == 0.0
  {
    var p, q := change / a, change / b;
    assert p * a == change && q * b == change;
    if RateTerm(kd, change, a) == RateTerm(kd, change, b) {
      assert kd * (p - q) == 0.0;
      assert p == q;
      assert p * (a - b) == 0.0;
    }
  }

  lemma SecsInjective(m: nat, n: nat)
    ensures Secs(m) == Secs(n) <==> m == n
  {
  }

  /** The measured time is the time since the last processed measurement exactly when no read was lost. */
  lemma RawIsPassedIff(args: LoopArgs, s: LoopState, ws: seq<Wake>, w: Wake, x: Reading)
    requires Ticking(s, ws + [w]) && LastReading(args, s, ws) == Some(x) && Run(args, s, ws).exit.None?
    requires Pending(ApplyCommands(Run(args, s, ws), w.commands)).None?
    ensures var u, passed := ApplyCommands(Run(args, s, ws), w.commands), Secs(Elapsed(x.at, w.now));
            && passed > 0.0
            && u.session.ctrl.runtime.lastPv == Some(x.value)
            && (Secs(Elapsed(u.lastTick, w.now)) == passed <==> !LostSince(args, s, ws))
  {
    var t := Run(args, s, ws);
    PrefixTicks(s, ws, w);
    TickFollowsReading(args, s, ws);
    CommandsKeepRecords(t, w.commands);
    CommandsKeepReading(t, w.commands);
    SecsInjective(Elapsed(x.at, w.now), Elapsed(t.lastTick, w.now));
    SecsPositive(Elapsed(x.at, w.now));
  }

  /** What the gate makes of a measured time. */
  lemma UsedDt(minDt: real, maxDt: real, dtClamp: bool, raw: real, passed: real)
    requires GateDt(raw, minDt, maxDt, dtClamp).Use?
    ensures var used := GateDt(raw, minDt, maxDt, dtClamp).dt;
            && (!dtClamp ==> used == raw)
            && (dtClamp && raw == passed ==> (used == passed <==> minDt <= passed <= maxDt))
  {
  }

  lemma WritesWhenRunning(args: LoopArgs, s: LoopState, w: Wake)
    requires WritesCv(args, s, w)
    ensures var u := ApplyCommands(s, w.commands);
            && s.exit.None? && w.pv.Some? && GateOf(args, u, w).Use? && GateOf(args, u, w).dt > 0.0
            && StepDefined(u.session.ctrl, InputOf(u.session, Scaled(args, w.pv.value), GateOf(args, u, w).dt, w.ff))
  {
  }

  /** In any run, the derivative term of a tick is the true rate of change since the last processed
      measurement exactly when the `dt` the tick used is the time that passed, or the measurement did not
      move. And it is that time exactly when no read of the PV was lost in between and the gate did not
      clamp it. */
  lemma DerivativeIsTrueIff(args: LoopArgs, s: LoopState, ws: seq<Wake>, w: Wake, x: Reading)
    requires Ticking(s, ws + [w]) && LastReading(args, s, ws) == Some(x) && WritesCv(args, Run(args, s, ws), w)
    requires var u := ApplyCommands(Run(args, s, ws), w.commands);
             u.session.ctrl.config.kd != 0.0 && Pending(u).None?
    ensures var u := ApplyCommands(Run(args, s, ws), w.commands);
            var pv, used, passed := Scaled(args, w.pv.value), GateOf(args, u, w).dt, Secs(Elapsed(x.at, w.now));
            var change := FilteredPv(u.session.ctrl, pv) - x.value;
            var (session, step) := Processed(u.session, pv, used, w.ff, w.cvAccepted);
            && Run(args, s, ws + [w]).session.ctrl == session.ctrl
            && used > 0.0 && passed > 0.0
            && (step.dTerm == RateTerm(u.session.ctrl.config.kd, change, passed) <==> used == passed || change == 0.0)
            && (!args.dtClamp ==> (used == passed <==> !LostSince(args, s, ws)))
            && (args.dtClamp && !LostSince(args, s, ws) ==>
                  (used == passed <==> args.minDt <= passed <= u.runtime.maxDt.v))
  {
    hide Run, Round, ApplyCommands, GateOf, Secs, Elapsed, Scaled, FilteredPv, Processed, StepDefined, RateTerm;
    hide LostSince, LastReading, Ticking, WritesCv;
    var t := Run(args, s, ws);
    var u := ApplyCommands(t, w.commands);
    WritesWhenRunning(args, t, w);
    var pv, used, passed := Scaled(args, w.pv.value), GateOf(args, u, w).dt, Secs(Elapsed(x.at, w.now));
    RawIsPassedIff(args, s, ws, w, x);
    RunAppends(args, s, ws, w);
    RoundClock(args, t, w);
    UsedGate(args, u, w, passed);
    TickRateIff(u.session, pv, used, w.ff, w.cvAccepted, x.value, passed);
  }

  lemma UsedGate(args: LoopArgs, s: LoopState, w: Wake, passed: real)
    requires GateOf(args, s, w).Use?
    ensures var used, raw := GateOf(args, s, w).dt, Secs(Elapsed(s.lastTick, w.now));
            && (!args.dtClamp ==> used == raw)
            && (args.dtClamp && raw == passed ==> (used == passed <==> args.minDt <= passed <= s.runtime.maxDt.v))
  {
    UsedDt(args.minDt, s.runtime.maxDt.v, args.dtClamp, Secs(Elapsed(s.lastTick, w.now)), passed);
  }

  lemma TickRateIff(s: SessionState, pv: real, used: real, ff: real, accepted: bool, last: real, passed: real)
    requires used > 0.0 && passed > 0.0
    requires StepDefined(s.ctrl, InputOf(s, pv, used, ff)) && s.ctrl.config.kd != 0.0
    requires s.ctrl.nextDTermSkipReason.None? && s.ctrl.runtime.lastPv == Some(last)
    ensures var change := FilteredPv(s.ctrl, pv) - last;
            Processed(s, pv, used, ff, accepted).1.dTerm == RateTerm(s.ctrl.config.kd, change, passed)
            <==> used == passed || change == 0.0
  {
    hide Processed, StepDefined, FilteredPv, RateTerm;
    TickRate(s, pv, used, ff, accepted, last);
    RatesAgreeIff(s.ctrl.config.kd, FilteredPv(s.ctrl, pv) - last, used, passed);
  }

  lemma SecsPositive(n: nat)
    ensures n > 0 ==> Secs(n) > 0.0
  {
  }

  lemma TickRate(s: SessionState, pv: real, dt: real, ff: real, accepted: bool, last: real)
    requires StepDefined(s.ctrl, InputOf(s, pv, dt, ff)) && s.ctrl.config.kd != 0.0
    requires s.ctrl.nextDTermSkipReason.None? && s.ctrl.runtime.lastPv == Some(last)
    ensures Processed(s, pv, dt, ff, accepted).1.dTerm == RateTerm(s.ctrl.config.kd, FilteredPv(s.ctrl, pv) - last, dt)
  {
    hide ApplyAntiWindup, ApplySlewRate;
  }

  lemma RunAppends(args: LoopArgs, s: LoopState, ws: seq<Wake>, w: Wake)
    ensures Run(args, s, ws + [w]) == Round(args, Run(args, s, ws), w)
  {
    hide Round;
    assert (ws + [w])[..|ws|] == ws;
  }

  lemma PrefixTicks(s: LoopState, ws: seq<Wake>, w: Wake)
    requires Ticking(s, ws + [w])
    ensures Ticking(s, ws) && LastNow(s, ws) < w.now
  {
    forall i | 0 <= i < |ws| ensures LastNow(s, ws[..i]) < ws[i].now {
      assert (ws + [w])[..i] == ws[..i] && (ws + [w])[i] == ws[i];
    }
    assert (ws + [w])[..|ws|] == ws && (ws + [w])[|ws|] == w;
  }
}
