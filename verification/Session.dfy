/** The controller session: it feeds the last confirmed CV back into the core, writes the new CV to
    the sink, and keeps the snapshot from which a later session can continue. */
module Session {
  import opened RealMath
  import opened PidCore
  import opened StateStore
  import opened Persistence

  const U64_MAX := 0xFFFF_FFFF_FFFF_FFFF

  datatype SessionState = SessionState(ctrl: PidState, snap: StateSnapshot)

  /** The CV the next step takes as applied; 0 before any is known. */
  function Applied(s: SessionState): real {
    s.snap.lastCv.GetOr(0.0)
  }

  function InputOf(s: SessionState, pv: real, dt: real, ff: real): StepInput {
    StepInput(pv, dt, Applied(s), ff)
  }

  /** A session from a loaded snapshot (the default one when there is none). */
  function NewSession(config: PidConfig, snap: StateSnapshot, resetAccumulator: bool): SessionState {
    var restored := PidState(config, snap.RuntimeState(), None);
    SessionState(if resetAccumulator then restored.WithIntegralReset() else restored, snap)
  }

  function SyncPidFields(snap: StateSnapshot, c: PidConfig): StateSnapshot {
    snap.(kp := Some(c.kp), ki := Some(c.ki), kd := Some(c.kd), setpoint := Some(c.setpoint), limits := c.limits)
  }

  function BuildSnapshot(snap: StateSnapshot, ctrl: PidState, step: StepResult, confirmedCv: real): StateSnapshot {
    SyncPidFields(snap, ctrl.config).(
      schemaVersion := STATE_SCHEMA_VERSION,
      effectiveSp := if ctrl.config.setpointRamp.Some? then Some(step.effectiveSp) else None,
      targetSp := if ctrl.config.setpointRamp.Some? then Some(ctrl.config.setpoint) else None,
      iAcc := step.iAcc,
      lastError := ctrl.runtime.lastError,
      lastCv := Some(confirmedCv),
      lastPv := ctrl.runtime.lastPv,
      iter := if snap.iter < U64_MAX then snap.iter + 1 else snap.iter)
  }

  /** One processed PV; `accepted` is the sink's answer to the write. */
  function Processed(s: SessionState, pv: real, dt: real, ff: real, accepted: bool): (SessionState, StepResult)
    requires StepDefined(s.ctrl, InputOf(s, pv, dt, ff))
  {
    var (ctrl, step) := PidStep(s.ctrl, InputOf(s, pv, dt, ff));
    (SessionState(ctrl, BuildSnapshot(s.snap, ctrl, step, if accepted then step.cv else Applied(s))), step)
  }

  function WithGains(s: SessionState, kp: real, ki: real, kd: real): SessionState {
    var ctrl := s.ctrl.WithGains(kp, ki, kd);
    SessionState(ctrl, SyncPidFields(s.snap, ctrl.config))
  }

  function WithSetpoint(s: SessionState, setpoint: real): SessionState {
    var ctrl := s.ctrl.WithSetpoint(setpoint);
    SessionState(ctrl, SyncPidFields(s.snap, ctrl.config))
  }

  function WithIntegralReset(s: SessionState): SessionState {
    SessionState(s.ctrl.WithIntegralReset(), s.snap.(iAcc := 0.0))
  }

  function WithDtSkipped(s: SessionState): SessionState {
    s.(ctrl := s.ctrl.WithDtSkipMarked())
  }

  function WithConfirmedCv(s: SessionState, cv: real): SessionState {
    s.(snap := s.snap.(lastCv := Some(cv)))
  }

  /** One line of the iteration log. */
  datatype IterationRecord = IterationRecord(
    iter: nat, pv: real, sp: real, effectiveSp: Option<real>, err: real,
    p: real, i: real, d: real, ff: real, cv: real, iAcc: real, dt: real)

  function MakeRecord(iter: nat, pv: real, dt: real, c: PidConfig, step: StepResult, err: real): IterationRecord {
    IterationRecord(iter, pv, c.setpoint, if c.setpointRamp.Some? then Some(step.effectiveSp) else None,
                    err, step.pTerm, step.iTerm, step.dTerm, step.ffTerm, step.cv, step.iAcc, dt)
  }

  datatype TickOutcome =
    | CvWriteFailed
    | Ticked(record: IterationRecord, dTermSkipped: Option<DTermSkipReason>, stateWriteFailed: bool)

  datatype HoldOutcome = HeldCvRejected | Held(pv: real, stateWriteFailed: bool)

  /** The actuator: it remembers every value it accepted. */
  class CvSink {
    var written: seq<real>

    constructor ()
      ensures written == []
    {
      written := [];
    }

    /** `answer` is the device's verdict on this write. */
    method WriteCv(cv: real, answer: bool) returns (ok: bool)
      modifies this
      ensures ok == answer
      ensures written == if answer then old(written) + [cv] else old(written)
    {
      if answer {
        written := written + [cv];
      }
      ok := answer;
    }
  }

  class ControllerSession {
    const controller: PidController
    var snapshot: StateSnapshot
    const persister: SnapshotPersister

    function State(): SessionState
      reads this, controller
    {
      SessionState(controller.State(), snapshot)
    }

    /** A configuration that fails validation is reported before a session exists. */
    constructor (config: PidConfig, loaded: Option<StateSnapshot>, resetAccumulator: bool,
                 hasStore: bool, flushInterval: Option<nat>, stateFailAfter: nat)
      requires ValidConfig(config)
      ensures State() == NewSession(config, loaded.GetOr(DEFAULT_SNAPSHOT), resetAccumulator)
      ensures persister.State() == PersisterState(hasStore, loaded, flushInterval, None, 0, stateFailAfter)
      ensures fresh(controller) && fresh(persister)
    {
      var snap := loaded.GetOr(DEFAULT_SNAPSHOT);
      var c := new PidController(config);
      c.RestoreState(snap.RuntimeState());
      if resetAccumulator {
        c.ResetIntegral();
      }
      controller := c;
      snapshot := snap;
      persister := new SnapshotPersister(hasStore, loaded, flushInterval, stateFailAfter);
    }

    method SetGains(kp: real, ki: real, kd: real)
      modifies this, controller
      ensures State() == WithGains(old(State()), kp, ki, kd)
    {
      controller.SetGains(kp, ki, kd);
      SyncFromController();
    }

    method SetSetpoint(setpoint: real)
      modifies this, controller
      ensures State() == WithSetpoint(old(State()), setpoint)
    {
      controller.SetSetpoint(setpoint);
      SyncFromController();
    }

    method SetFlushInterval(interval: Option<nat>)
      modifies persister
      ensures State() == old(State())
      ensures persister.State() == old(persister.State()).(flushInterval := interval)
    {
      persister.SetFlushInterval(interval);
    }

    method SyncFromController()
      modifies this
      ensures snapshot == SyncPidFields(old(snapshot), controller.config)
    {
      var c := controller.config;
      snapshot := snapshot.(kp := Some(c.kp), ki := Some(c.ki), kd := Some(c.kd));
      snapshot := snapshot.(setpoint := Some(c.setpoint));
      snapshot := snapshot.(limits := c.limits);
    }

    method ResetIntegral()
      modifies this, controller
      ensures State() == WithIntegralReset(old(State()))
    {
      controller.ResetIntegral();
      snapshot := snapshot.(iAcc := 0.0);
    }

    method ProcessPv(pv: real, dt: real, ff: real, sink: CvSink, accepted: bool, env: SaveEnv)
      returns (outcome: TickOutcome)
      requires StepDefined(State().ctrl, InputOf(State(), pv, dt, ff))
      modifies this, controller, persister, sink
      ensures State() == Processed(old(State()), pv, dt, ff, accepted).0
      ensures persister.State() == AfterCall(old(persister.State()), snapshot, env, false)
      ensures var step := Processed(old(State()), pv, dt, ff, accepted).1;
              && sink.written == (if accepted then old(sink.written) + [step.cv] else old(sink.written))
              && outcome == if accepted
                 then Ticked(
                   MakeRecord(snapshot.iter, pv, dt, controller.config, step, controller.lastError.GetOr(0.0)),
                   step.dTermSkipped, CallFails(old(persister.State()), snapshot, env, false))
                 else CvWriteFailed
    {
      var prevAppliedCv := snapshot.lastCv.GetOr(0.0);
      var step := controller.Step(StepInput(pv, dt, prevAppliedCv, ff));
      var ok := sink.WriteCv(step.cv, accepted);
      if !ok {
        snapshot := BuildSnapshot(snapshot, controller.State(), step, prevAppliedCv);
        var ignored := persister.Persist(snapshot, env);
        return CvWriteFailed;
      }
      snapshot := BuildSnapshot(snapshot, controller.State(), step, step.cv);
      var stateWriteFailed := persister.Persist(snapshot, env);
      outcome := Ticked(MakeRecord(snapshot.iter, pv, dt, controller.config, step, controller.lastError.GetOr(0.0)),
                        step.dTermSkipped, stateWriteFailed);
    }

    method OnDtSkipped(env: SaveEnv) returns (stateWriteFailed: bool)
      modifies this, controller, persister
      ensures State() == WithDtSkipped(old(State()))
      ensures stateWriteFailed == CallFails(old(persister.State()), snapshot, env, false)
      ensures persister.State() == AfterCall(old(persister.State()), snapshot, env, false)
    {
      controller.MarkDtSkipped();
      stateWriteFailed := persister.Persist(snapshot, env);
    }

    method RecordConfirmedCv(cv: real, env: SaveEnv) returns (stateWriteFailed: bool)
      modifies this, persister
      ensures State() == WithConfirmedCv(old(State()), cv)
      ensures stateWriteFailed == CallFails(old(persister.State()), snapshot, env, false)
      ensures persister.State() == AfterCall(old(persister.State()), snapshot, env, false)
    {
      snapshot := snapshot.(lastCv := Some(cv));
      stateWriteFailed := persister.Persist(snapshot, env);
    }

    /** Writes the held value again; neither the PID state nor `iter` moves. */
    method HoldTickWrite(scaledPv: real, heldCv: real, sink: CvSink, accepted: bool, env: SaveEnv)
      returns (outcome: HoldOutcome)
      modifies persister, sink
      ensures State() == old(State())
      ensures sink.written == if accepted then old(sink.written) + [heldCv] else old(sink.written)
      ensures persister.State() ==
              if accepted then AfterCall(old(persister.State()), snapshot, env, false) else old(persister.State())
      ensures outcome == if accepted then Held(scaledPv, CallFails(old(persister.State()), snapshot, env, false))
                         else HeldCvRejected
    {
      var ok := sink.WriteCv(heldCv, accepted);
      if !ok {
        return HeldCvRejected;
      }
      var stateWriteFailed := persister.Persist(snapshot, env);
      outcome := Held(scaledPv, stateWriteFailed);
    }

    method ForceFlush(env: SaveEnv) returns (failed: bool)
      modifies persister
      ensures State() == old(State())
      ensures persister.State() == AfterCall(old(persister.State()), snapshot, env, true)
      ensures failed == CallFails(old(persister.State()), snapshot, env, true)
    {
      failed := persister.ForceFlush(snapshot, env);
    }
  }
}
