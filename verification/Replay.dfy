/** `pipe` as a producer of logs and `replay` as their consumer. */
module Replay {
  import opened RealMath
  import opened PidCore
  import opened StepMeaning
  import opened Saturation
  import opened StateStore
  import opened Persistence
  import opened Session
  import opened Loop

  // ---------- pipe ----------

  /** A line of standard input: when it arrived, and how the sink answers the CV it leads to. */
  datatype PipeLine = Blank | Number(raw: real, now: nat, accepted: bool, env: SaveEnv) | Garbage

  /** What a number line becomes for the session. */
  datatype PipeTick = PipeTick(pv: real, dt: real, accepted: bool)

  /** The first line uses the configured `dt`, later ones the time since the line before. */
  function DtOf(firstDt: real, lastTick: Option<nat>, now: nat): real {
    if lastTick.None? then firstDt else Secs(Elapsed(lastTick.value, now))
  }

  function ScaledPv(raw: real, scale: real): real {
    raw * scale
  }

  function TickOf(line: PipeLine, firstDt: real, scale: real, lastTick: Option<nat>): PipeTick
    requires line.Number?
  {
    PipeTick(ScaledPv(line.raw, scale), DtOf(firstDt, lastTick, line.now), line.accepted)
  }

  /** The ticks of the input up to the first unreadable line; blank lines do not count. */
  function PipeTicks(lines: seq<PipeLine>, firstDt: real, scale: real, lastTick: Option<nat>): seq<PipeTick>
    decreases lines
  {
    if lines == [] || lines[0].Garbage? then []
    else if lines[0].Blank? then PipeTicks(lines[1..], firstDt, scale, lastTick)
    else
      [TickOf(lines[0], firstDt, scale, lastTick)] + PipeTicks(lines[1..], firstDt, scale, Some(lines[0].now))
  }

  /** Why a sequence of steps ends: a rejected CV, a panic, or a step with a `dt` of 0 or less or outside the
      finite numbers, where the model stops following the program. */
  datatype Stop = AllStepped | WriteRejected | StepPanicked | LeftReals

  function FailureOf(s: PidState, input: StepInput): Stop {
    if StepPanics(s, input) then StepPanicked else LeftReals
  }

  function PipeStop(s: SessionState, ticks: seq<PipeTick>): Stop
    decreases ticks
  {
    if ticks == [] then AllStepped
    else
      var input := InputOf(s, ticks[0].pv, ticks[0].dt, 0.0);
      if !StepDefined(s.ctrl, input) then FailureOf(s.ctrl, input)
      else if !ticks[0].accepted then WriteRejected
      else PipeStop(Processed(s, ticks[0].pv, ticks[0].dt, 0.0, true).0, ticks[1..])
  }

  function RecordOf(s: SessionState, tick: PipeTick): IterationRecord
    requires StepDefined(s.ctrl, InputOf(s, tick.pv, tick.dt, 0.0))
  {
    var (t, step) := Processed(s, tick.pv, tick.dt, 0.0, tick.accepted);
    MakeRecord(t.snap.iter, tick.pv, tick.dt, t.ctrl.config, step, t.ctrl.runtime.lastError.GetOr(0.0))
  }

  /** The iteration log: one record per tick, ending at the first rejected CV write or failing step. */
  function PipeRecords(s: SessionState, ticks: seq<PipeTick>): seq<IterationRecord>
    decreases ticks
  {
    if ticks == [] || !StepDefined(s.ctrl, InputOf(s, ticks[0].pv, ticks[0].dt, 0.0)) || !ticks[0].accepted then []
    else
      [RecordOf(s, ticks[0])] + PipeRecords(Processed(s, ticks[0].pv, ticks[0].dt, 0.0, true).0, ticks[1..])
  }

  /** The session when the pipe stops: after the last tick, after the first rejected one, or before the
      first failing step. */
  function PipeFinal(s: SessionState, ticks: seq<PipeTick>): SessionState
    decreases ticks
  {
    if ticks == [] || !StepDefined(s.ctrl, InputOf(s, ticks[0].pv, ticks[0].dt, 0.0)) then s
    else
      var t := Processed(s, ticks[0].pv, ticks[0].dt, 0.0, ticks[0].accepted).0;
      if ticks[0].accepted then PipeFinal(t, ticks[1..]) else t
  }

  datatype PipeExit = EndOfInput | UnreadableLine | Stopped(why: Stop)

  ghost predicate HasGarbage(lines: seq<PipeLine>) {
    exists i :: 0 <= i < |lines| && lines[i].Garbage?
  }

  /** What ends the pipe: a step or a write on the way to the first unreadable line, that line, or the end
      of the input. */
  ghost function PipeEnd(s: SessionState, ticks: seq<PipeTick>, lines: seq<PipeLine>): PipeExit {
    if PipeStop(s, ticks) != AllStepped then Stopped(PipeStop(s, ticks))
    else if HasGarbage(lines) then UnreadableLine
    else EndOfInput
  }

  function Cvs(records: seq<IterationRecord>): seq<real> {
    seq(|records|, i requires 0 <= i < |records| => records[i].cv)
  }

  method RunPipe(session: ControllerSession, sink: CvSink, lines: seq<PipeLine>, firstDt: real, scale: real)
    returns (records: seq<IterationRecord>, exit: PipeExit)
    modifies session, session.controller, session.persister, sink
    ensures records == PipeRecords(old(session.State()), PipeTicks(lines, firstDt, scale, None))
    ensures session.State() == PipeFinal(old(session.State()), PipeTicks(lines, firstDt, scale, None))
    ensures sink.written == old(sink.written) + Cvs(records)
    ensures exit == PipeEnd(old(session.State()), PipeTicks(lines, firstDt, scale, None), lines)
  {
    hide PipeTicks, PipeRecords, PipeFinal, PipeStop, Cvs, StepDefined, Processed, TickOf, RecordOf, FailureOf;
    ghost var start := session.State();
    ghost var all := PipeTicks(lines, firstDt, scale, None);
    records, exit := [], EndOfInput;
    var lastTick: Option<nat> := None;
    var i := 0;
    assert lines[0..] == lines;
    NoCvs();
    while i < |lines|
      invariant 0 <= i <= |lines| && forall j :: 0 <= j < i ==> !lines[j].Garbage?
      invariant records + PipeRecords(session.State(), PipeTicks(lines[i..], firstDt, scale, lastTick))
                == PipeRecords(start, all)
      invariant PipeFinal(session.State(), PipeTicks(lines[i..], firstDt, scale, lastTick)) == PipeFinal(start, all)
      invariant PipeStop(session.State(), PipeTicks(lines[i..], firstDt, scale, lastTick)) == PipeStop(start, all)
      invariant sink.written == old(sink.written) + Cvs(records)
    {
      var line := lines[i];
      LineStep(lines, i, firstDt, scale, lastTick);
      i := i + 1;
      if line.Garbage? {
        NoTicks(session.State());
        exit := UnreadableLine;
        return;
      }
      if line.Number? {
        var tick := TickOf(line, firstDt, scale, lastTick);
        TickAccepted(line, firstDt, scale, lastTick);
        ghost var rest := PipeTicks(lines[i..], firstDt, scale, Some(line.now));
        TickFirst(session.State(), tick, rest);
        var input := StepInput(tick.pv, tick.dt, session.snapshot.lastCv.GetOr(0.0), 0.0);
        if !StepDefined(session.controller.State(), input) {
          exit := Stopped(FailureOf(session.controller.State(), input));
          return;
        }
        lastTick := Some(line.now);
        var record := PipeOne(session, sink, tick, line.env);
        if record.None? {
          exit := Stopped(WriteRejected);
          return;
        }
        CvsAppend(records, record.value);
        records := records + [record.value];
      }
    }
    NothingToRead(lines, firstDt, scale, lastTick);
    NoTicks(session.State());
  }

  lemma TickAccepted(line: PipeLine, firstDt: real, scale: real, lastTick: Option<nat>)
    requires line.Number?
    ensures TickOf(line, firstDt, scale, lastTick).accepted == line.accepted
  {
  }

  lemma NoCvs()
    ensures Cvs([]) == []
  {
  }

  lemma NoTicks(s: SessionState)
    ensures PipeStop(s, []) == AllStepped && PipeRecords(s, []) == [] && PipeFinal(s, []) == s
  {
  }

  lemma NothingToRead(lines: seq<PipeLine>, firstDt: real, scale: real, lastTick: Option<nat>)
    ensures PipeTicks(lines[|lines|..], firstDt, scale, lastTick) == []
  {
  }

  lemma LineStep(lines: seq<PipeLine>, i: nat, firstDt: real, scale: real, lastTick: Option<nat>)
    requires i < |lines|
    ensures var ticks := PipeTicks(lines[i..], firstDt, scale, lastTick);
            && (lines[i].Garbage? ==> ticks == [])
            && (lines[i].Blank? ==> ticks == PipeTicks(lines[i + 1..], firstDt, scale, lastTick))
            && (lines[i].Number? ==>
                  ticks == [TickOf(lines[i], firstDt, scale, lastTick)]
                           + PipeTicks(lines[i + 1..], firstDt, scale, Some(lines[i].now)))
  {
    assert lines[i..][0] == lines[i] && lines[i..][1..] == lines[i + 1..];
  }

  lemma TickFirst(s: SessionState, tick: PipeTick, rest: seq<PipeTick>)
    ensures var input := InputOf(s, tick.pv, tick.dt, 0.0);
            var ticks := [tick] + rest;
            if !StepDefined(s.ctrl, input) then
              && PipeStop(s, ticks) == FailureOf(s.ctrl, input) != AllStepped
              && PipeRecords(s, ticks) == [] && PipeFinal(s, ticks) == s
            else
              var t := Processed(s, tick.pv, tick.dt, 0.0, tick.accepted).0;
              && PipeStop(s, ticks) == (if tick.accepted then PipeStop(t, rest) else WriteRejected)
              && PipeRecords(s, ticks) == (if tick.accepted then [RecordOf(s, tick)] + PipeRecords(t, rest) else [])
              && PipeFinal(s, ticks) == (if tick.accepted then PipeFinal(t, rest) else t)
  {
    hide StepDefined, Processed, RecordOf;
    assert ([tick] + rest)[1..] == rest;
  }

  /** One line's tick; no record after a rejected write. */
  method PipeOne(session: ControllerSession, sink: CvSink, tick: PipeTick, env: SaveEnv)
    returns (record: Option<IterationRecord>)
    requires StepDefined(session.State().ctrl, InputOf(session.State(), tick.pv, tick.dt, 0.0))
    modifies session, session.controller, session.persister, sink
    ensures session.State() == Processed(old(session.State()), tick.pv, tick.dt, 0.0, tick.accepted).0
    ensures record == if tick.accepted then Some(RecordOf(old(session.State()), tick)) else None
    ensures sink.written
            == old(sink.written) + if tick.accepted then [RecordOf(old(session.State()), tick).cv] else []
  {
    hide Processed, StepDefined, RecordOf;
    ghost var before := session.State();
    var outcome := session.ProcessPv(tick.pv, tick.dt, 0.0, sink, tick.accepted, env);
    RecordMatches(before, tick);
    record := if outcome.CvWriteFailed? then None else Some(outcome.record);
  }

  lemma RecordMatches(s: SessionState, tick: PipeTick)
    requires StepDefined(s.ctrl, InputOf(s, tick.pv, tick.dt, 0.0))
    ensures var (t, step) := Processed(s, tick.pv, tick.dt, 0.0, tick.accepted);
            && RecordOf(s, tick)
               == MakeRecord(t.snap.iter, tick.pv, tick.dt, t.ctrl.config, step, t.ctrl.runtime.lastError.GetOr(0.0))
            && RecordOf(s, tick).cv == step.cv
  {
  }

  lemma CvsAppend(records: seq<IterationRecord>, r: IterationRecord)
    ensures Cvs(records + [r]) == Cvs(records) + [r.cv]
  {
  }

  // ---------- what the input and the log say ----------

  /** The number lines before the first unreadable one. */
  function NumberLines(lines: seq<PipeLine>): seq<PipeLine> {
    if lines == [] || lines[0].Garbage? then []
    else (if lines[0].Number? then [lines[0]] else []) + NumberLines(lines[1..])
  }

  /** Seconds from one line to the next; a clock that went back counts as standing still. */
  function Between(earlier: PipeLine, later: PipeLine): real
    requires earlier.Number? && later.Number?
  {
    if later.now >= earlier.now then (later.now - earlier.now) as real / 1.0e9 else 0.0
  }

  lemma {:induction false} OnlyNumbers(lines: seq<PipeLine>)
    ensures forall j :: 0 <= j < |NumberLines(lines)| ==> NumberLines(lines)[j].Number?
  {
    if lines != [] {
      OnlyNumbers(lines[1..]);
    }
  }

  /** Every number is a tick on its scaled value, with the time since the number before it - blank lines
      between them or not - and the first with the configured `dt`. */
  lemma {:induction false} TicksOfNumbers(
      lines: seq<PipeLine>, firstDt: real, scale: real, lastTick: Option<nat>, j: nat)
    requires j < |NumberLines(lines)|
    ensures var numbers, ticks := NumberLines(lines), PipeTicks(lines, firstDt, scale, lastTick);
            && |ticks| == |numbers| && numbers[j].Number?
            && ticks[j].pv == numbers[j].raw * scale && ticks[j].accepted == numbers[j].accepted
            && (j > 0 ==> numbers[j - 1].Number? && ticks[j].dt == Between(numbers[j - 1], numbers[j]))
            && (j == 0 && lastTick.None? ==> ticks[0].dt == firstDt)
    decreases lines
  {
    SameNumber(lines, firstDt, scale, lastTick);
    OnlyNumbers(lines);
    if lines[0].Blank? {
      TicksOfNumbers(lines[1..], firstDt, scale, lastTick, j);
    } else if j == 1 {
      FirstNumber(lines[1..], firstDt, scale, lines[0].now);
    } else if j > 1 {
      TicksOfNumbers(lines[1..], firstDt, scale, Some(lines[0].now), j - 1);
    }
  }

  lemma {:induction false} SameNumber(lines: seq<PipeLine>, firstDt: real, scale: real, lastTick: Option<nat>)
    ensures |PipeTicks(lines, firstDt, scale, lastTick)| == |NumberLines(lines)|
    decreases lines
  {
    if lines != [] && !lines[0].Garbage? {
      SameNumber(lines[1..], firstDt, scale, if lines[0].Number? then Some(lines[0].now) else lastTick);
    }
  }

  lemma {:induction false} FirstNumber(lines: seq<PipeLine>, firstDt: real, scale: real, now: nat)
    requires NumberLines(lines) != []
    ensures var first, ticks := NumberLines(lines)[0], PipeTicks(lines, firstDt, scale, Some(now));
            && ticks != [] && first.Number?
            && ticks[0].pv == first.raw * scale && ticks[0].accepted == first.accepted
            && ticks[0].dt == (if first.now >= now then first.now - now else 0) as real / 1.0e9
    decreases lines
  {
    if lines[0].Blank? {
      FirstNumber(lines[1..], firstDt, scale, now);
    }
  }

  /** A line of the log explains its CV: the terms are those of the gains in force, the CV follows from their
      sum, and the snapshot taken with it says the same. */
  lemma RecordExplains(s: SessionState, tick: PipeTick)
    requires StepDefined(s.ctrl, InputOf(s, tick.pv, tick.dt, 0.0))
    ensures var (t, step) := Processed(s, tick.pv, tick.dt, 0.0, tick.accepted);
            var c, r := s.ctrl.config, RecordOf(s, tick);
            && t.ctrl.config == c
            && r.pv == tick.pv && r.dt == tick.dt && r.sp == c.setpoint
            && r.p == c.kp * CountedError(c, r.err) && r.i == c.ki * r.iAcc
            && (exists target :: CvFollows(c, InputOf(s, tick.pv, tick.dt, 0.0), step, target))
            && step.uUnclamped == r.p + r.i + r.d + r.ff && r.cv == step.cv
            && (r.effectiveSp.Some? <==> c.setpointRamp.Some?)
            && (r.effectiveSp.Some? ==>
                  t.ctrl.runtime.lastPv.Some? && r.err == r.effectiveSp.value - t.ctrl.runtime.lastPv.value)
            && t.snap.iter == r.iter == (if s.snap.iter < 0xFFFF_FFFF_FFFF_FFFF then s.snap.iter + 1 else s.snap.iter)
            && t.snap.Supported() && t.snap.iAcc == r.iAcc && t.snap.lastError == Some(r.err)
            && t.snap.lastCv == Some(if tick.accepted then r.cv else s.snap.lastCv.GetOr(0.0))
            && t.snap.effectiveSp == r.effectiveSp
            && t.snap.targetSp == (if c.setpointRamp.Some? then Some(r.sp) else None)
  {
    hide TermsOf, ApplyAntiWindup, ApplySlewRate, CvFollows, CountedError, StepDefined;
    var input := InputOf(s, tick.pv, tick.dt, 0.0);
    CvIsNearest(s.ctrl, input);
    IntegralMeaning(s.ctrl, input);
    SetpointMeaning(s.ctrl, input);
  }

  // ---------- when the pipe panics ----------

  lemma {:induction false} PipeFinalState(s: SessionState, ticks: seq<PipeTick>, tick: PipeTick)
    requires PipeStop(s, ticks) == AllStepped
    ensures PipeStop(s, ticks + [tick]) == PipeStop(PipeFinal(s, ticks), [tick])
    ensures PipeFinal(s, ticks).ctrl.config == s.ctrl.config
    decreases ticks
  {
    hide StepDefined, Processed;
    if ticks == [] {
      assert ticks + [tick] == [tick];
    } else {
      var t := Processed(s, ticks[0].pv, ticks[0].dt, 0.0, true).0;
      assert (ticks + [tick])[1..] == ticks[1..] + [tick];
      PipeFinalState(t, ticks[1..], tick);
      SameConfig(s, ticks[0]);
    }
  }

  lemma SameConfig(s: SessionState, tick: PipeTick)
    requires StepDefined(s.ctrl, InputOf(s, tick.pv, tick.dt, 0.0))
    ensures Processed(s, tick.pv, tick.dt, 0.0, tick.accepted).0.ctrl.config == s.ctrl.config
  {
  }

  lemma OneTickStop(s: SessionState, tick: PipeTick)
    ensures PipeStop(s, [tick]) == StepPanicked <==> StepPanics(s.ctrl, InputOf(s, tick.pv, tick.dt, 0.0))
  {
    PanicsAreUndefined(s.ctrl, InputOf(s, tick.pv, tick.dt, 0.0));
    hide StepDefined, StepPanics, Processed;
    assert [tick][1..] == [];
  }

  /** A pipe with the usual gains against an output limit, after any input it has processed, can panic on the
      next number exactly when that comes more than the bound of the tracking time - 100 seconds by default -
      after the one before. */
  lemma PipePanicsIff(s: SessionState, ticks: seq<PipeTick>, dt: real, scale: real)
    requires PipeStop(s, ticks) == AllStepped && dt > 0.0 && scale != 0.0
    requires var c := s.ctrl.config;
             ValidConfig(c) && MayCorrect(c) && c.kp >= 0.0 && c.ki > 0.0 && c.kd >= 0.0 && c.antiWindupTt.None?
    ensures (exists raw :: PipeStop(s, ticks + [PipeTick(ScaledPv(raw, scale), dt, true)]) == StepPanicked)
            <==> dt > s.ctrl.config.ttUpperBound.GetOr(DEFAULT_TT_UPPER_BOUND)
  {
    hide PipeStop, PipeFinal, StepPanics;
    PipeFinalState(s, ticks, PipeTick(0.0, dt, true));
    var t := PipeFinal(s, ticks);
    OneSidedGainsRespond(t.ctrl, dt);
    SomeStepPanicsIff(t.ctrl, dt, Applied(t), 0.0);
    if pv :| StepPanics(t.ctrl, StepInput(pv, dt, Applied(t), 0.0)) {
      var raw := pv / scale;
      assert ScaledPv(raw, scale) == pv;
      PipeFinalState(s, ticks, PipeTick(ScaledPv(raw, scale), dt, true));
      OneTickStop(t, PipeTick(ScaledPv(raw, scale), dt, true));
    }
    if raw :| PipeStop(s, ticks + [PipeTick(ScaledPv(raw, scale), dt, true)]) == StepPanicked {
      PipeFinalState(s, ticks, PipeTick(ScaledPv(raw, scale), dt, true));
      OneTickStop(t, PipeTick(ScaledPv(raw, scale), dt, true));
    }
  }

  // ---------- replay ----------

  datatype LogRecord = LogRecord(iter: nat, pv: real, sp: real, dt: real, ff: real, originalCv: real)

  /** What parsing makes of a line: events and unknown objects are skipped; a record with a field
      missing, or text that is not JSON, is an error. */
  datatype LogLine = Skipped | Iteration(record: LogRecord) | Malformed

  /** Everything except gains and limits is at its default; the setpoint comes from the records. */
  function DefaultConfig(setpoint: real, kp: real, ki: real, kd: real, limits: Limits, sqrt: real -> real): PidConfig {
    PidConfig(setpoint, kp, ki, kd, limits, 0.0, None, None, 0.0, BackCalculation, None, None, 0.0, sqrt)
  }

  datatype ReplayState = ReplayState(ctrl: PidState, prevAppliedCv: real)

  function ReplayInput(s: ReplayState, r: LogRecord): StepInput {
    StepInput(r.pv, r.dt, s.prevAppliedCv, r.ff)
  }

  predicate ReplayStepDefined(s: ReplayState, r: LogRecord) {
    StepDefined(s.ctrl.WithSetpoint(r.sp), ReplayInput(s, r))
  }

  function Replayed(s: ReplayState, r: LogRecord): (ReplayState, StepResult)
    requires ReplayStepDefined(s, r)
  {
    var (ctrl, step) := PidStep(s.ctrl.WithSetpoint(r.sp), ReplayInput(s, r));
    (ReplayState(ctrl, step.cv), step)
  }

  /** The records before the first malformed line. */
  function Readable(lines: seq<LogLine>): seq<LogRecord> {
    if lines == [] || lines[0].Malformed? then []
    else (if lines[0].Iteration? then [lines[0].record] else []) + Readable(lines[1..])
  }

  function ReplayStop(s: ReplayState, log: seq<LogRecord>): Stop
    decreases log
  {
    if log == [] then AllStepped
    else if !ReplayStepDefined(s, log[0]) then FailureOf(s.ctrl.WithSetpoint(log[0].sp), ReplayInput(s, log[0]))
    else ReplayStop(Replayed(s, log[0]).0, log[1..])
  }

  /** The results of the records, up to the first failing step. */
  function ReplayResults(s: ReplayState, log: seq<LogRecord>): seq<StepResult>
    decreases log
  {
    if log == [] || !ReplayStepDefined(s, log[0]) then []
    else [Replayed(s, log[0]).1] + ReplayResults(Replayed(s, log[0]).0, log[1..])
  }

  /** The two streams side by side. */
  datatype Pair = Pair(original: real, replayed: real)

  function Pairs(log: seq<LogRecord>, results: seq<StepResult>): seq<Pair>
    requires |log| == |results|
  {
    seq(|log|, i requires 0 <= i < |log| => Pair(log[i].originalCv, results[i].cv))
  }

  lemma {:induction false} ResultsPerRecord(s: ReplayState, log: seq<LogRecord>)
    ensures |ReplayResults(s, log)| <= |log|
    ensures |ReplayResults(s, log)| == |log| <==> ReplayStop(s, log) == AllStepped
    decreases log
  {
    hide ReplayStepDefined, Replayed;
    if log != [] && ReplayStepDefined(s, log[0]) {
      ResultsPerRecord(Replayed(s, log[0]).0, log[1..]);
    }
  }

  function CountRecords(lines: seq<LogLine>): nat {
    if lines == [] then 0
    else CountRecords(lines[..|lines| - 1]) + if lines[|lines| - 1].Iteration? then 1 else 0
  }

  lemma {:induction false} CountRecordsFront(line: LogLine, rest: seq<LogLine>)
    ensures CountRecords([line] + rest) == (if line.Iteration? then 1 else 0) + CountRecords(rest)
  {
    if rest == [] {
      assert [line][..0] == [] && [line] + rest == [line];
    } else {
      assert ([line] + rest)[..|rest|] == [line] + rest[..|rest| - 1];
      CountRecordsFront(line, rest[..|rest| - 1]);
    }
  }

  /** Every record up to the first unreadable line is replayed, in its place among the records. */
  lemma {:induction false} ReadableKeepsPlace(lines: seq<LogLine>, k: nat)
    requires k < |lines| && lines[k].Iteration? && forall j :: 0 <= j < k ==> !lines[j].Malformed?
    ensures var place := CountRecords(lines[..k]);
            place < |Readable(lines)| && Readable(lines)[place] == lines[k].record
    decreases k
  {
    if k == 0 {
      assert lines[..0] == [];
    } else {
      ReadableKeepsPlace(lines[1..], k - 1);
      assert lines[..k] == [lines[0]] + lines[1..][..k - 1];
      CountRecordsFront(lines[0], lines[1..][..k - 1]);
    }
  }

  /** A replayed step has the record's setpoint and measurement, unfiltered and unramped, no deadband and no
      feed-forward; out of range the accumulator is back-calculated with the automatic tracking time; and its CV
      is the allowed value nearest to the sum of the terms. */
  lemma ReplayedStepMeans(
      s: ReplayState, r: LogRecord, kp: real, ki: real, kd: real, limits: Limits, sqrt: real -> real)
    requires s.ctrl.config == DefaultConfig(s.ctrl.config.setpoint, kp, ki, kd, limits, sqrt)
    requires ReplayStepDefined(s, r)
    ensures var (t, step) := Replayed(s, r);
            && t.ctrl.config == DefaultConfig(r.sp, kp, ki, kd, limits, sqrt)
            && step.effectiveSp == r.sp && t.ctrl.runtime.lastPv == Some(r.pv)
            && step.pTerm == kp * (r.sp - r.pv) && step.iTerm == ki * step.iAcc && step.ffTerm == 0.0
            && limits.Nearest(step.uUnclamped, step.cv)
            && step.uUnclamped == step.pTerm + step.iTerm + step.dTerm
            && t.prevAppliedCv == step.cv
            && (ki != 0.0 ==>
                  var c := t.ctrl.config;
                  var i := TakenUp(c, s.ctrl.runtime.iAcc, r.sp - r.pv, r.dt);
                  var u := SumWith(c, step, i);
                  if limits.Contains(u) then step.iAcc == i
                  else TtDefined(c, r.dt) && r.dt > 0.0
                       && (step.uUnclamped - u) * AntiWindupTt(c, r.dt) == (s.prevAppliedCv - u) * r.dt)
  {
    hide PidStep, StepDefined, Limits.Nearest, Limits.Contains, TakenUp, SumWith, TtDefined, AntiWindupTt;
    var q, input := s.ctrl.WithSetpoint(r.sp), ReplayInput(s, r);
    StepKeepsConfig(q, input);
    DefinedTracking(q, input);
    CvIsNearest(q, input);
    IntegralMeaning(q, input);
    SetpointMeaning(q, input);
    FilterMeaning(q, input);
    RateMeaning(q, input);
  }

  // ---------- the diff summary ----------

  datatype DiffState = DiffState(n: nat, sumSq: real, max: real)

  function Diff(p: Pair): real {
    Abs(p.replayed - p.original)
  }

  function DiffSquared(p: Pair): real {
    Diff(p) * Diff(p)
  }

  function Pushed(d: DiffState, p: Pair): DiffState {
    DiffState(d.n + 1, d.sumSq + DiffSquared(p), if Diff(p) > d.max then Diff(p) else d.max)
  }

  function Summary(pairs: seq<Pair>): DiffState {
    if pairs == [] then DiffState(0, 0.0, 0.0) else Pushed(Summary(pairs[..|pairs| - 1]), pairs[|pairs| - 1])
  }

  class DiffAccumulator {
    var n: nat
    var sumSq: real
    var max: real

    function State(): DiffState
      reads this
    {
      DiffState(n, sumSq, max)
    }

    constructor ()
      ensures State() == DiffState(0, 0.0, 0.0)
    {
      n, sumSq, max := 0, 0.0, 0.0;
    }

    method Push(originalCv: real, replayedCv: real)
      modifies this
      ensures State() == Pushed(old(State()), Pair(originalCv, replayedCv))
    {
      var diff := Abs(replayedCv - originalCv);
      n := n + 1;
      sumSq := sumSq + diff * diff;
      if diff > max {
        max := diff;
      }
    }
  }

  datatype ReplayOutcome =
    | InvalidConfig(error: ConfigError)
    | UnreadableLog(emitted: seq<StepResult>)
    | StoppedEarly(why: Stop, emitted: seq<StepResult>)
    | Summarised(diff: DiffState)
    | Emitted(results: seq<StepResult>)

  ghost predicate HasMalformed(lines: seq<LogLine>) {
    exists i :: 0 <= i < |lines| && lines[i].Malformed?
  }

  /** The records a replay emits carry the step results; their other fields are copied from the log. Those
      of the lines before an unreadable one have already been emitted. */
  method RunReplay(
      kp: real, ki: real, kd: real, limits: Limits, sqrt: real -> real, diffOnly: bool, lines: seq<LogLine>)
    returns (outcome: ReplayOutcome)
    ensures var c := DefaultConfig(0.0, kp, ki, kd, limits, sqrt);
            var start := ReplayState(PidState(c, EMPTY_RUNTIME, None), 0.0);
            if !ValidConfig(c) then outcome.InvalidConfig?
            else
              var results, why := ReplayResults(start, Readable(lines)), ReplayStop(start, Readable(lines));
              && (why == AllStepped ==> |results| == |Readable(lines)|)
              && outcome == if why != AllStepped then StoppedEarly(why, if diffOnly then [] else results)
                            else if HasMalformed(lines) then UnreadableLog(if diffOnly then [] else results)
                            else if diffOnly then Summarised(Summary(Pairs(Readable(lines), results)))
                            else Emitted(results)
  {
    var c := DefaultConfig(0.0, kp, ki, kd, limits, sqrt);
    var problem := Validate(c);
    if problem.Some? {
      return InvalidConfig(problem.value);
    }
    hide ValidConfig, DefaultConfig, ReplayStop, ReplayResults, HasMalformed, Summary;
    var controller := new PidController(c);
    var acc := new DiffAccumulator();
    var why, ok, results := ReplayLines(controller, acc, diffOnly, lines);
    outcome := if why != AllStepped then StoppedEarly(why, if diffOnly then [] else results)
               else if !ok then UnreadableLog(if diffOnly then [] else results)
               else if diffOnly then Summarised(acc.State()) else Emitted(results);
  }

  /** The loop over the lines of the log. */
  method ReplayLines(controller: PidController, acc: DiffAccumulator, diffOnly: bool, lines: seq<LogLine>)
    returns (why: Stop, ok: bool, results: seq<StepResult>)
    requires acc.State() == Summary([])
    modifies controller, acc
    ensures why == ReplayStop(old(ReplayState(controller.State(), 0.0)), Readable(lines))
    ensures results == ReplayResults(old(ReplayState(controller.State(), 0.0)), Readable(lines))
    ensures why == AllStepped ==> |results| == |Readable(lines)| && (ok <==> !HasMalformed(lines))
    ensures why == AllStepped && diffOnly ==> acc.State() == Summary(Pairs(Readable(lines), results))
  {
    hide ReplayStepDefined, Replayed, ReplayResults, ReplayStop, Pushed, Summary, Pairs, Readable, FailureOf;
    var prevAppliedCv := 0.0;
    why, ok, results := AllStepped, true, [];
    ghost var start := ReplayState(controller.State(), 0.0);
    ghost var done := [];
    assert Pairs([], []) == [] by { NoPairs(); }
    assert lines[0..] == lines;
    var i := 0;
    while i < |lines|
      invariant 0 <= i <= |lines| && forall j :: 0 <= j < i ==> !lines[j].Malformed?
      invariant Readable(lines) == done + Readable(lines[i..]) && |done| == |results| && ok && why == AllStepped
      invariant ReplayStop(start, Readable(lines))
                == ReplayStop(ReplayState(controller.State(), prevAppliedCv), Readable(lines[i..]))
      invariant ReplayResults(start, Readable(lines))
                == results + ReplayResults(ReplayState(controller.State(), prevAppliedCv), Readable(lines[i..]))
      invariant diffOnly ==> acc.State() == Summary(Pairs(done, results))
    {
      var line := lines[i];
      ReadableStep(lines, i);
      i := i + 1;
      if line.Malformed? {
        NothingReplayed(ReplayState(controller.State(), prevAppliedCv));
        assert done == Readable(lines);
        ok := false;
        return;
      }
      if line.Iteration? {
        RecordFirst(ReplayState(controller.State(), prevAppliedCv), line.record, Readable(lines[i..]));
        if !ReplayStepDefined(ReplayState(controller.State(), prevAppliedCv), line.record) {
          why := FailureOf(controller.State().WithSetpoint(line.record.sp),
                           ReplayInput(ReplayState(controller.State(), prevAppliedCv), line.record));
          return;
        }
        var step := ReplayOne(controller, prevAppliedCv, line.record);
        prevAppliedCv := step.cv;
        if diffOnly {
          acc.Push(line.record.originalCv, step.cv);
          PairsAppend(done, results, line.record, step);
        }
        results := results + [step];
        done := done + [line.record];
      }
    }
    NothingLeft(lines);
    NothingReplayed(ReplayState(controller.State(), prevAppliedCv));
    assert done == Readable(lines);
  }

  lemma NothingReplayed(s: ReplayState)
    ensures ReplayStop(s, []) == AllStepped && ReplayResults(s, []) == []
  {
  }

  lemma RecordFirst(s: ReplayState, r: LogRecord, rest: seq<LogRecord>)
    ensures if !ReplayStepDefined(s, r) then
              && ReplayStop(s, [r] + rest) == FailureOf(s.ctrl.WithSetpoint(r.sp), ReplayInput(s, r)) != AllStepped
              && ReplayResults(s, [r] + rest) == []
            else
              && ReplayStop(s, [r] + rest) == ReplayStop(Replayed(s, r).0, rest)
              && ReplayResults(s, [r] + rest) == [Replayed(s, r).1] + ReplayResults(Replayed(s, r).0, rest)
  {
    hide ReplayStepDefined, Replayed;
    assert ([r] + rest)[1..] == rest;
  }

  lemma NoPairs()
    ensures Pairs([], []) == []
  {
  }

  lemma NothingLeft(lines: seq<LogLine>)
    ensures Readable(lines[|lines|..]) == []
  {
  }

  /** The core of the loop: the record's setpoint, then a step on the last replayed CV. */
  method ReplayOne(controller: PidController, prevAppliedCv: real, r: LogRecord) returns (step: StepResult)
    requires ReplayStepDefined(ReplayState(controller.State(), prevAppliedCv), r)
    modifies controller
    ensures (ReplayState(controller.State(), step.cv), step)
            == Replayed(old(ReplayState(controller.State(), prevAppliedCv)), r)
  {
    hide TermsOf, ApplyAntiWindup, ApplySlewRate;
    controller.SetSetpoint(r.sp);
    step := controller.Step(StepInput(r.pv, r.dt, prevAppliedCv, r.ff));
  }

  lemma ReadableStep(lines: seq<LogLine>, i: nat)
    requires i < |lines|
    ensures lines[i].Iteration? ==> Readable(lines[i..]) == [lines[i].record] + Readable(lines[i + 1..])
    ensures lines[i].Skipped? ==> Readable(lines[i..]) == Readable(lines[i + 1..])
    ensures lines[i].Malformed? ==> Readable(lines[i..]) == []
  {
  }

  lemma PairsAppend(log: seq<LogRecord>, results: seq<StepResult>, r: LogRecord, step: StepResult)
    requires |log| == |results|
    ensures Summary(Pairs(log + [r], results + [step]))
            == Pushed(Summary(Pairs(log, results)), Pair(r.originalCv, step.cv))
  {
    var longer := Pairs(log + [r], results + [step]);
    assert longer == Pairs(log, results) + [Pair(r.originalCv, step.cv)];
    assert longer[..|log|] == Pairs(log, results);
  }

  // ---------- the summary's meaning ----------

  /** The sum of squares lies between the largest square and `n` times it. */
  predicate Spread(n: real, sumSq: real, max: real) {
    n >= 0.0 && max >= 0.0 && max * max <= sumSq <= n * (max * max)
  }

  /** On plain numbers: one more difference in the summary. */
  lemma SpreadStep(n: real, sumSq: real, max: real, d: real)
    requires Spread(n, sumSq, max) && d >= 0.0
    ensures Spread(n + 1.0, sumSq + d * d, if d > max then d else max)
  {
    var m := if d > max then d else max;
    SquareOrder(m, max);
    SquareOrder(m, d);
    MulNonNegative(n, m * m - max * max);
  }

  lemma SpreadPush(p: Pair, n: nat, d: DiffState)
    requires Spread(n as real, d.sumSq, d.max)
    ensures Spread((n + 1) as real, Pushed(d, p).sumSq, Pushed(d, p).max)
  {
    SpreadStep(n as real, d.sumSq, d.max, Diff(p));
    hide Spread, Diff;
    assert (n + 1) as real == n as real + 1.0;
  }

  lemma {:induction false} SummarySpread(pairs: seq<Pair>)
    ensures Summary(pairs).n == |pairs| && Spread(|pairs| as real, Summary(pairs).sumSq, Summary(pairs).max)
  {
    if pairs != [] {
      SummarySpread(pairs[..|pairs| - 1]);
      hide Spread, DiffSquared, Diff;
      SpreadPush(pairs[|pairs| - 1], |pairs| - 1, Summary(pairs[..|pairs| - 1]));
    }
  }

  lemma {:induction false} SummaryMaximum(pairs: seq<Pair>)
    ensures forall i :: 0 <= i < |pairs| ==> Diff(pairs[i]) <= Summary(pairs).max
    ensures pairs != [] ==> exists i :: 0 <= i < |pairs| && Diff(pairs[i]) == Summary(pairs).max
  {
    hide Diff, Pushed;
    if pairs != [] {
      SummaryMaximum(pairs[..|pairs| - 1]);
      MaxIsLargest(pairs);
    }
  }

  function SquaredGaps(pairs: seq<Pair>): seq<real> {
    seq(|pairs|, i requires 0 <= i < |pairs| => SquaredGap(pairs[i]))
  }

  function SquaredGap(p: Pair): real {
    (p.replayed - p.original) * (p.replayed - p.original)
  }

  lemma {:induction false} SummaryIsSum(pairs: seq<Pair>)
    ensures Summary(pairs).sumSq == Sum(SquaredGaps(pairs))
  {
    hide SquaredGap, DiffSquared;
    if pairs != [] {
      var before, p := pairs[..|pairs| - 1], pairs[|pairs| - 1];
      SummaryIsSum(before);
      assert SquaredGaps(pairs)[..|pairs| - 1] == SquaredGaps(before);
      SquareOfDiff(p);
    }
  }

  lemma SquareOfDiff(p: Pair)
    ensures DiffSquared(p) == SquaredGap(p)
  {
  }

  /** The sum of squares is what it says, the reported maximum is the largest difference, and the mean square
      lies between `max^2 / n` and `max^2`. */
  lemma SummaryBounds(pairs: seq<Pair>)
    ensures var d := Summary(pairs);
            && d.n == |pairs| && d.max >= 0.0
            && d.sumSq == Sum(SquaredGaps(pairs))
            && d.max * d.max <= d.sumSq <= d.n as real * (d.max * d.max)
            && (forall i :: 0 <= i < |pairs| ==> Diff(pairs[i]) <= d.max)
            && (pairs != [] ==> exists i :: 0 <= i < |pairs| && Diff(pairs[i]) == d.max)
  {
    hide Summary, Diff;
    SummaryIsSum(pairs);
    SummarySpread(pairs);
    SummaryMaximum(pairs);
  }

  lemma MaxIsLargest(pairs: seq<Pair>)
    requires pairs != []
    requires var before := pairs[..|pairs| - 1];
      && (forall i :: 0 <= i < |before| ==> Diff(before[i]) <= Summary(before).max)
      && (before != [] ==> exists i :: 0 <= i < |before| && Diff(before[i]) == Summary(before).max)
    ensures forall i :: 0 <= i < |pairs| ==> Diff(pairs[i]) <= Summary(pairs).max
    ensures exists i :: 0 <= i < |pairs| && Diff(pairs[i]) == Summary(pairs).max
  {
    hide DiffSquared;
    var n := |pairs| - 1;
    var before := pairs[..n];
    DiffNonNegative(pairs[n]);
    forall i | 0 <= i < |pairs| ensures Diff(pairs[i]) <= Summary(pairs).max {
      if i < n {
        assert before[i] == pairs[i];
      }
    }
    if Diff(pairs[n]) > Summary(before).max || n == 0 {
      assert Diff(pairs[n]) == Summary(pairs).max;
    } else {
      var i :| 0 <= i < n && Diff(before[i]) == Summary(before).max;
      assert Diff(pairs[i]) == Summary(pairs).max;
    }
  }

  lemma DiffNonNegative(p: Pair)
    ensures Diff(p) >= 0.0
    ensures Diff(p) == 0.0 <==> p.original == p.replayed
  {
  }

  /** The summary is zero exactly when the replay reproduces every recorded CV. */
  lemma SummaryZeroIff(pairs: seq<Pair>)
    ensures Summary(pairs).max == 0.0 <==> forall i :: 0 <= i < |pairs| ==> pairs[i].original == pairs[i].replayed
    ensures Summary(pairs).max == 0.0 ==> Summary(pairs).sumSq == 0.0
  {
    SummaryBounds(pairs);
    if pairs == [] {
      return;
    }
    hide Diff, Summary;
    forall i | 0 <= i < |pairs|
      ensures Diff(pairs[i]) >= 0.0 && (Diff(pairs[i]) == 0.0 <==> pairs[i].original == pairs[i].replayed)
    {
      DiffNonNegative(pairs[i]);
    }
    if Summary(pairs).max == 0.0 {
      assert Summary(pairs).max * Summary(pairs).max == 0.0;
      assert Summary(pairs).n as real * (Summary(pairs).max * Summary(pairs).max) == 0.0;
    }
  }

  // ---------- replay refines the run ----------

  /** The log line of a record, as parsing reads it back; a zero feed-forward is not written, and a
      missing one is read as zero. */
  function LoggedAs(r: IterationRecord): LogRecord {
    LogRecord(r.iter, r.pv, r.sp, r.dt, r.ff, r.cv)
  }

  function Log(records: seq<IterationRecord>): seq<LogRecord> {
    seq(|records|, i requires 0 <= i < |records| => LoggedAs(records[i]))
  }

  /** The replay controller is the session's, whatever setpoint it was last given. */
  ghost predicate InStep(s: SessionState, r: ReplayState) {
    && r.ctrl.WithSetpoint(s.ctrl.config.setpoint) == s.ctrl
    && r.prevAppliedCv == Applied(s)
    && s.ctrl.config.feedforwardGain == 0.0
  }

  lemma TickReplays(s: SessionState, r: ReplayState, tick: PipeTick)
    requires InStep(s, r) && tick.accepted && StepDefined(s.ctrl, InputOf(s, tick.pv, tick.dt, 0.0))
    ensures var record := LoggedAs(RecordOf(s, tick));
            && ReplayStepDefined(r, record)
            && Replayed(r, record).1 == Processed(s, tick.pv, tick.dt, 0.0, true).1
            && Replayed(r, record).1.cv == record.originalCv
            && InStep(Processed(s, tick.pv, tick.dt, 0.0, true).0, Replayed(r, record).0)
  {
  }

  lemma {:induction false} RunReplays(s: SessionState, r: ReplayState, ticks: seq<PipeTick>)
    requires InStep(s, r)
    ensures var records := PipeRecords(s, ticks);
            && ReplayStop(r, Log(records)) == AllStepped
            && |ReplayResults(r, Log(records))| == |records|
            && forall i :: 0 <= i < |records| ==> ReplayResults(r, Log(records))[i].cv == records[i].cv
    decreases ticks
  {
    hide InStep, Processed, Replayed, StepDefined, ReplayStepDefined, RecordOf, FailureOf;
    if ticks != [] && StepDefined(s.ctrl, InputOf(s, ticks[0].pv, ticks[0].dt, 0.0)) && ticks[0].accepted {
      var tick := ticks[0];
      TickReplays(s, r, tick);
      var first, record := RecordOf(s, tick), LoggedAs(RecordOf(s, tick));
      var t, q := Processed(s, tick.pv, tick.dt, 0.0, true).0, Replayed(r, record).0;
      RunReplays(t, q, ticks[1..]);
      var rest := PipeRecords(t, ticks[1..]);
      assert Log([first] + rest) == [record] + Log(rest);
      RecordFirst(r, record, Log(rest));
    }
  }

  /** A log produced by a stateless `pipe` whose options other than setpoint, gains and output limits are
      default, replayed with the same gains and limits, yields the recorded CV at every record; its
      diff summary is zero. */
  lemma ReplayRefinesPipe(
      setpoint: real, kp: real, ki: real, kd: real, limits: Limits, sqrt: real -> real, ticks: seq<PipeTick>)
    requires ValidConfig(DefaultConfig(setpoint, kp, ki, kd, limits, sqrt))
    ensures var s := NewSession(DefaultConfig(setpoint, kp, ki, kd, limits, sqrt), DEFAULT_SNAPSHOT, false);
            var r := ReplayState(PidState(DefaultConfig(0.0, kp, ki, kd, limits, sqrt), EMPTY_RUNTIME, None), 0.0);
            var records := PipeRecords(s, ticks);
            && ReplayStop(r, Log(records)) == AllStepped
            && var results := ReplayResults(r, Log(records));
               && |results| == |records|
               && (forall i :: 0 <= i < |records| ==> results[i].cv == records[i].cv)
               && Summary(Pairs(Log(records), results)).n == |records|
               && Summary(Pairs(Log(records), results)).max == 0.0
               && Summary(Pairs(Log(records), results)).sumSq == 0.0
  {
    var s := NewSession(DefaultConfig(setpoint, kp, ki, kd, limits, sqrt), DEFAULT_SNAPSHOT, false);
    var r := ReplayState(PidState(DefaultConfig(0.0, kp, ki, kd, limits, sqrt), EMPTY_RUNTIME, None), 0.0);
    RunReplays(s, r, ticks);
    hide PipeRecords, ReplayResults, ReplayStop, Summary, StepDefined;
    var records := PipeRecords(s, ticks);
    var pairs := Pairs(Log(records), ReplayResults(r, Log(records)));
    SummaryZeroIff(pairs);
    SummaryBounds(pairs);
  }
}
