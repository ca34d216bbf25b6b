# Proofs about pid-ctl

A Dafny model of pid-ctl, a command-line PID controller with a relay autotuner, a plant simulator and a
terminal tuner. It covers the controller core, the session that drives it, the unattended loop around
the session, snapshots and restarts, replay, the relay engine, the simulated plants, and two algorithms
of the tuner.

How it is built:

- Objects that the program updates in place are classes: `PidController`, `ControllerSession`,
  `SnapshotPersister`, `AutotuneEngine`, `DiffAccumulator`. Each method is proved equal to a function on
  a value that holds the object's fields; the theorems over whole runs are about those functions.
- Loops of the program (scheduler, edit distance, ruler, pipe, replay, control loop) are methods with
  loops, proved against recursive specifications.
- `SessionRuns` defines a run as any sequence of ticks with accepted or rejected CV writes, operator
  commands, skipped ticks, safe-CV writes and restarts. `LoopRefinement` shows that the control loop is
  such a run.
- Numbers are exact reals; an output limit is optional, absent meaning infinite. Deadlines and flush
  times are integer nanoseconds. The square root of the math library is a field of the configuration:
  that it is a root matters to `PidCore.AutomaticTt` alone. A standard deviation is compared through
  its square.
- The world is a parameter: PV readings, the actuator's verdict on each write, clock readings, and
  whether a save succeeds. That a step stays within the finite numbers and does not panic is a
  precondition of `Step` (`StepDefined`). The loop, the pipe and replay have no such precondition: a panic
  is one of their exits, and where a step leaves the finite numbers without one, or has a `dt` of 0 or
  less, the model stops following the program and says so (`BeyondReals`, `LeftReals`).
- `LoopStore` shows that the saves of a loop run are a list of calls, so that what `Persistence` proves of
  such lists holds of the loop.
- `StepMeaning`, `RelayEstimates` and `LoopRequests` say what a step computes, what the autotuner reports and
  what the loop makes of its commands without the functions these are built from.

Where the code and its own documentation disagree, the model follows the code:

- The ruler's comment promises at most one tick per canvas row. It can draw one more
  (`ScaleTicks.RowsExceeded`), and without bound when even the coarsest stride does not fit, as with a
  setpoint of 0 (`ScaleTicks.ZeroSetpointFloods`). `ScaleTicks.TickCount` has the exact condition.
- `set_pv_ref` is documented to have no effect after the first tick; it always replaces the reference.
- The recorded "peaks" and "troughs" are the samples that cross the reference, not the extremes of the
  oscillation (`RelayHistory.ExtremaEndTheirPhase`).
- The bound on the tracking time is fixed at start-up. After `set interval` a longer `dt` can reach a
  clamp with its limits out of order (`LoopPanics.StaleBoundPanicsIff`).
- `set interval` is not validated. A negative or too large value panics the loop, one that rounds to no
  nanoseconds hangs it, and one that takes the deadline past the end of the clock panics it on the next
  wake-up. `LoopPanics.RoundPanicsIff` and `LoopPanics.RoundHangsIff` say exactly when a round panics or
  hangs.
- The pipe bounds the tracking time by 100 s and panics when a number comes later than that after the one
  before and the output is over a limit (`Replay.PipePanicsIff`).
- The plan says a derivative is never taken over a gap; after a failed PV read it is, with too short a
  `dt` (`LoopClock.DerivativeIsTrueIff`).
- The plan says an atomic rename leaves the state file fully written or unchanged. So it does, but the
  directory is not synced, and a save that reported success can be lost unless the operating system has
  written the directory since (`StateStore.DurableIff`).
- A pending derivative skip does not survive a restart (`Restart.DroppedSkipVisibleIff`). Neither does a
  reset requested at start-up, unless a tick was processed, the operator gave a reset or the session was
  restarted before (`Restart.ResetAccumulatorLostIff`).
- After a rejected first write the snapshot says that 0 was applied; "the last CV accepted" is
  therefore stated with 0 as the value before any.

## Model

| member | source | states |
|---|---|---|
| `PidCore.Validate` | crates/pid-ctl-core/src/lib.rs:75-114 | no error exactly for a valid configuration |
| `PidCore.FirstBrokenRule` | crates/pid-ctl-core/src/lib.rs:75-114 | otherwise the error names the first rule that is broken, in the order they are checked, with the value that breaks it |
| `PidCore.AntiWindupTt` | crates/pid-ctl-core/src/lib.rs:370-384 | an explicit tracking time is used as it is; an automatic one lies between `dt` and its upper bound (100 s by default); none is zero |
| `PidCore.AutomaticTt` | crates/pid-ctl-core/src/lib.rs:370-384 | between `dt` and the bound the automatic tracking time is the root of `kd / ki`, or `kp / ki` without derivative gain, for `ki` of either sign; outside it is the nearer limit |
| `PidCore.PidController.constructor` | crates/pid-ctl-core/src/lib.rs:169-181 | a controller from a valid configuration has empty runtime state and no pending derivative skip |
| `PidCore.PidController.SetGains` | crates/pid-ctl-core/src/lib.rs:188-192 | replaces the three gains and nothing else |
| `PidCore.PidController.SetSetpoint` | crates/pid-ctl-core/src/lib.rs:194-196 | replaces the setpoint and nothing else, so a ramp continues where it is |
| `PidCore.PidController.RestoreState` | crates/pid-ctl-core/src/lib.rs:198-204 | replaces the runtime state and keeps configuration and pending skip |
| `PidCore.PidController.MarkDtSkipped` | crates/pid-ctl-core/src/lib.rs:206-208 | the next derivative is to be skipped, with reason `post_dt_skip` |
| `PidCore.PidController.ResetIntegral` | crates/pid-ctl-core/src/lib.rs:210-213 | zero accumulator, and the next derivative is to be skipped, with reason `post_reset` |
| `PidCore.PidController.Step` | crates/pid-ctl-core/src/lib.rs:215-266 | the in-place step, with its panics excluded, has exactly the result and new state of the step function the run theorems are about |
| `StepMeaning.FilterMeaning` | crates/pid-ctl-core/src/lib.rs:293-302 | the filter takes the first reading as it is and then keeps the part `alpha` of its distance from the reading |
| `StepMeaning.SetpointMeaning` | crates/pid-ctl-core/src/lib.rs:304-309 | the effective setpoint moves towards the setpoint by what the ramp allows, or is the setpoint; the error is its distance from the filtered value |
| `StepMeaning.RateMeaning` | crates/pid-ctl-core/src/lib.rs:311-325 | the derivative term times `dt` is `kd` times the fall of the filtered value, unless it is skipped, for exactly the reason reported |
| `StepMeaning.IntegralMeaning` | crates/pid-ctl-core/src/lib.rs:327-368 | the accumulator takes up the counted error; out of range the clamp strategy brings the sum of the terms to the nearest limit and back-calculation moves it by `dt / tt` of the way to the applied CV; the stored accumulator is the one whose contribution was used |
| `StepMeaning.CvIsNearest` | crates/pid-ctl-core/src/lib.rs:234-245 | the CV is the allowed value nearest to the sum of the four terms; with a slew limit it lies on the way there from the applied CV, exactly `rate * dt` further or at the target |
| `SessionRuns.StepMovesCv` | crates/pid-ctl-core/src/lib.rs:386-396 | one step: the CV of `CvIsNearest`; without a slew limit it is in range, with one it moves by at most `rate * dt`, and its distance from the range shrinks by exactly that or to 0 |
| `SessionRuns.SlewBudget` | crates/pid-ctl-core/src/lib.rs:386-396 | over any run without safe-CV writes: total movement of the applied CV at most `rate` times the time of accepted ticks, and its distance from the range is exactly `max(0, d0 - rate * time)` |
| `SessionRuns.OutputsStayInRange` | crates/pid-ctl-core/src/lib.rs:242-245 | once the applied CV is in range, every CV computed, written or applied later is in range, through gain changes, failed writes and restarts |
| `SessionRuns.ClampStrategyStep` | crates/pid-ctl-core/src/lib.rs:346-353 | with the clamp strategy the sum of all terms is the allowed value nearest to what it would be with the whole error taken up, `saturated` is false, and the accumulator takes up the whole error exactly when that was harmless |
| `SessionRuns.ClampStrategyBoundsIntegral` | crates/pid-ctl-core/src/lib.rs:346-353 | the integral contribution is bounded by the output range plus any bound on the other terms |
| `SessionRuns.ClampStrategyRun` | crates/pid-ctl-core/src/lib.rs:234-244 | no step of any run, gain changes included, reports saturation under the clamp strategy |
| `SessionRuns.RampComposes` | crates/pid-ctl-core/src/lib.rs:439-447 | two ramp steps towards one target are one step of the combined length |
| `SessionRuns.RampRun` | crates/pid-ctl-core/src/lib.rs:304-309 | between setpoint changes any run moves the effective setpoint exactly like one tick of the total length, in controller and snapshot alike |
| `SessionRuns.RampExactness` | crates/pid-ctl-core/src/lib.rs:439-447 | the distance to a fixed target is exactly `max(0, d0 - rate * time)`, always on the same side |
| `SessionRuns.RampRetargets` | crates/pid-ctl-core/src/lib.rs:304-309 | a new setpoint in mid-ramp continues from the value reached |
| `SessionRuns.FilterConverges` | crates/pid-ctl-core/src/lib.rs:293-302 | while the measurement stays put, every tick multiplies the filtered value's distance from it by exactly `alpha`, across restarts |
| `SessionRuns.DeadbandIff` | crates/pid-ctl-core/src/lib.rs:219-232 | a whole step, with any `ki`: inside the deadband there is no proportional term, and the stored accumulator stays exactly when anti-windup leaves the output alone (no integral gain, no strategy, in range, or already applied); from the edge on both terms act on the whole error, to the same extent |
| `SessionRuns.NoDerivativeAfterGap` | crates/pid-ctl-core/src/lib.rs:311-325 | after a skipped tick or a reset, whatever the operator does meanwhile, the next tick has no derivative term and, when `kd` is not 0, gives the last gap as the reason; the one after is normal |
| `Windup.UpperExcessStep` | crates/pid-ctl-core/src/lib.rs:354-366 | one back-calculation tick: the excess over the upper limit is at most its old value or `(tt - dt) * ki * e`, whatever in-range CV was applied |
| `Windup.LowerExcessStep` | crates/pid-ctl-core/src/lib.rs:354-366 | the mirror image at the lower limit |
| `Windup.WindupBounded` | crates/pid-ctl-core/src/lib.rs:327-384 | for ever: a constant error pushing upwards never lifts the unclamped output further over the limit than its initial excess or `(tt - dt) * ki * e`, with any slew limit and any failed writes |
| `Windup.WinddownBounded` | crates/pid-ctl-core/src/lib.rs:327-384 | the same below the lower limit |
| `Windup.WindupDecays` | crates/pid-ctl-core/src/lib.rs:327-384 | with no effective error, no slew limit, accepted writes and the actuator at the limit - upper or lower - the excess is exactly `(1 - dt/tt)^n` of the initial one after n ticks |
| `Windup.WindupFades` | crates/pid-ctl-core/src/lib.rs:327-384 | from any applied CV in range, with any slew limit and failed writes, the excess falls at least that fast, and an output back in range stays there: it never swings past the other limit |
| `Session.ControllerSession.constructor` | crates/pid-ctl/src/app/mod.rs:80-115 | restores the snapshot, or starts from the default one, and resets the accumulator when asked; the persister starts with no flush and no failures |
| `Session.ControllerSession.SetGains` | crates/pid-ctl/src/app/mod.rs:153-156 | gains change in controller and snapshot together |
| `Session.ControllerSession.SetSetpoint` | crates/pid-ctl/src/app/mod.rs:159-162 | setpoint changes in controller and snapshot together |
| `Session.ControllerSession.ResetIntegral` | crates/pid-ctl/src/app/mod.rs:165-168 | accumulator cleared in controller and snapshot together |
| `Session.ControllerSession.ProcessPv` | crates/pid-ctl/src/app/mod.rs:193-230 | steps on the last confirmed CV, sends the CV, snapshots the step with the CV that is really applied, hands the snapshot to the persister and reports the record |
| `Session.ControllerSession.OnDtSkipped` | crates/pid-ctl/src/app/mod.rs:234-238 | marks the derivative, keeps `iter` and the snapshot's values, offers the snapshot for saving and reports whether that failed |
| `Session.ControllerSession.RecordConfirmedCv` | crates/pid-ctl/src/app/mod.rs:252-256 | only the confirmed CV changes; the snapshot is offered for saving and a failure reported |
| `Session.ControllerSession.HoldTickWrite` | crates/pid-ctl/src/app/mod.rs:327-342 | the held CV goes to the sink; neither PID state nor `iter` moves; nothing is saved after a rejection, and otherwise a failed save is reported |
| `Restart.RestartInvisibleIff` | crates/pid-ctl/src/app/mod.rs:80-115 | a restart leaves an indistinguishable session exactly when the snapshot is in step with the controller and no derivative skip is pending |
| `Restart.NewSessionSyncedIff` | crates/pid-ctl/src/app/mod.rs:92-94 | a new session is in step with its snapshot exactly when it was not told to reset a non-zero accumulator |
| `Restart.ExecKeepsSynced` | crates/pid-ctl/src/app/mod.rs:193-290 | every event keeps the snapshot in step; a processed tick restores it, accepted or not |
| `Restart.RestartTransparency` | crates/pid-ctl/src/app/state_store.rs:107-115 | a run interrupted by restarts gives the same result at every tick as the same run without them |
| `Restart.DroppedSkipVisibleIff` | crates/pid-ctl-core/src/lib.rs:311-318 | when a restart drops a pending derivative skip, the next tick differs in anything but the logged reason exactly when it has a derivative term: `kd` is not 0, there is an earlier measurement, and the filtered one moved; without limits the CV then differs by that term |
| `Restart.ApartUntilReconciled` | crates/pid-ctl/src/app/mod.rs:193-290 | a session whose accumulator differs from its snapshot, over any run: the two agree again exactly when a tick, an operator reset or a restart has happened, and until then both keep their values |
| `Restart.ResetAccumulatorLostIff` | crates/pid-ctl/src/app/mod.rs:92-94 | after `--reset-accumulator` and any run, a restart brings the stale accumulator back exactly when the snapshot held one and the run has no tick, no reset and no restart |
| `Restart.RequestTakesEffect` | crates/pid-ctl/src/app/mod.rs:153-190 | a request puts exactly its gains, or its setpoint, in force and in the snapshot, and moves no other part of the state |
| `Restart.SnapshotNamesOptions` | crates/pid-ctl/src/app/mod.rs:258-290 | from the first tick or request for gains or setpoint on, the snapshot of any run names the gains, setpoint and limits in force |
| `Restart.ResolutionPrecedence` | crates/pid-ctl/src/cli/parse.rs:427-458 | no configuration exactly when neither command line nor state file has a setpoint; each option is the value of the command line, else the saved one, else the default |
| `Restart.ResolutionIsStable` | crates/pid-ctl/src/cli/parse.rs:430-485 | the options a process resolves from its flags and the snapshot are those the next process resolves from the snapshot it saves |
| `Restart.OnceRunsAreOneSession` | crates/pid-ctl/src/app/mod.rs:193-290 | n `once` invocations with one command line compute, tick for tick, what one long session computes |
| `Restart.OnceObeysCommandLine` | crates/pid-ctl/src/cli/parse.rs:427-485 | each of any number of `once` invocations in a row steps with the options of the command line, and for those left open with what the state file said before the first of them |
| `Plant.FirstOrderIsRelaxation` | crates/pid-ctl-sim/src/plant.rs:36-39 | an Euler step moves the lag by the fraction `dt / tau` towards `gain * cv` |
| `Plant.StepIsLag` | crates/pid-ctl-sim/src/plant.rs:36-145 | an Euler step of any of the three plants is one step of a lag towards the place where it settles |
| `Plant.ThermalIsFirstOrder` | crates/pid-ctl-sim/src/plant.rs:81-84 | the thermal plant is the first-order plant of gain `tau * k_heat`, measured from ambient |
| `Plant.FanFollowsCurve` | crates/pid-ctl-sim/src/plant.rs:133-136 | the fan settles at `max_flow` times the curve of the commanded part of `cv_max`, and at either end of the curve beyond |
| `ClosedLoop.BoundedPlant` | crates/pid-ctl-sim/src/plant.rs:36-145 | for any plant, under any gains, strategy, slew limit, filter, setpoints, failed writes and restarts: measurement and filtered value stay within bounds that hold their start and every place where the plant settles under an allowed CV |
| `ClosedLoop.FirstOrderBounded` | crates/pid-ctl-sim/src/plant.rs:36-39 | for the first-order plant these are the hull of the start and `gain * out_min`, `gain * out_max` |
| `ClosedLoop.ThermalBounded` | crates/pid-ctl-sim/src/plant.rs:81-84 | for the thermal plant, `ambient + tau * k_heat * u` at both output limits |
| `ClosedLoop.FanBounded` | crates/pid-ctl-sim/src/plant.rs:133-145 | the fan's speed stays in `[0, max_flow]` through every run, whatever CVs or safe CVs are applied |
| `ClosedLoop.ProportionalCv` | crates/pid-ctl-core/src/lib.rs:215-266 | with everything but `kp` at its default the step's CV is the clamp of `kp * (sp - pv) + feedforward_gain * ff` |
| `ClosedLoop.LoopMapContracts` | crates/pid-ctl-sim/src/plant.rs:36-39 | one tick of the saturated proportional loop keeps two states in order and shrinks their gap by at least `1 - dt/tau` when `(dt/tau) * (1 + gain * kp) <= 1` |
| `ClosedLoop.RunsContract` | crates/pid-ctl-core/src/lib.rs:215-266 | the same for whole runs with ticks of any lengths that meet the condition |
| `ClosedLoop.EquilibriumIsFixed` | crates/pid-ctl-sim/src/plant.rs:36-39 | the clamp of `(kp * sp + feedforward_gain * ff) / (1 + kp * gain)`, times the plant's gain, is a fixed point of the loop |
| `ClosedLoop.ConvergesWithoutOvershoot` | crates/pid-ctl-core/src/lib.rs:215-266 | no run crosses that equilibrium, and its distance from it shrinks by at least `1 - dt/tau` per tick |
| `ClosedLoop.UnlimitedStep` | crates/pid-ctl-sim/src/plant.rs:36-39 | without output limits a tick multiplies the distance from the equilibrium by exactly `1 - (dt/tau) * (1 + gain * kp)` |
| `ClosedLoop.OvershootIff` | crates/pid-ctl-core/src/lib.rs:215-266 | without output limits a tick crosses the equilibrium exactly when `(dt/tau) * (1 + gain * kp) > 1` |
| `Autotune.Validate` | crates/pid-ctl/src/autotune.rs:93-124 | accepted exactly when the amplitude is positive and both relay levels are within the limits; otherwise the first of the four problems |
| `Autotune.AutotuneEngine.constructor` | crates/pid-ctl/src/autotune.rs:200-214 | the engine starts high, without reference or history |
| `Autotune.AutotuneEngine.SetPvRef` | crates/pid-ctl/src/autotune.rs:224-226 | replaces the reference at any time |
| `Autotune.AutotuneEngine.Tick` | crates/pid-ctl/src/autotune.rs:232-262 | the in-place tick has exactly the state and events of the tick function the run theorems are about, and returns the new relay output |
| `Autotune.AutotuneEngine.CompletePhase` | crates/pid-ctl/src/autotune.rs:304-350 | the in-place end of a phase has exactly the state and events of its specification |
| `Autotune.StdTestBySquares` | crates/pid-ctl/src/autotune.rs:443-451 | comparing squares is the code's comparison of `std / mean` with the threshold |
| `Autotune.Samuelson` | crates/pid-ctl/src/autotune.rs:434-451 | no value of a list is further from its mean than `sqrt(n - 1)` standard deviations |
| `RelayHistory.FlipsAlternate` | crates/pid-ctl/src/autotune.rs:241-258 | the reference definition of the flips: each is the first sample of its phase beyond the reference on the relay's side |
| `RelayHistory.RunHistories` | crates/pid-ctl/src/autotune.rs:304-323 | after any run: relay position is the parity of the flips, half-periods are the phases' durations, peaks and troughs alternate and are the crossing samples, the running phase has only seen its own side |
| `RelayHistory.ExtremaEndTheirPhase` | crates/pid-ctl/src/autotune.rs:243-256 | each recorded extremum is the maximum (or minimum) of its phase and the sample that ended it |
| `RelayHistory.TimeIsConserved` | crates/pid-ctl/src/autotune.rs:233-235 | the half-periods and the running phase add up to the elapsed time |
| `RelayHistory.AmplitudePositive` | crates/pid-ctl/src/autotune.rs:354-366 | with one peak and one trough the amplitude is positive |
| `RelayHistory.EventCounts` | crates/pid-ctl/src/autotune.rs:332-349 | over a run: one flip event per half-period, one period event per peak but the first, and at most one settlement, sent exactly when the engine becomes settled |
| `Settlement.SettledMeansSteady` | crates/pid-ctl/src/autotune.rs:370-391 | on settlement each of the last six half-periods is within `sqrt(0.2)` of their mean, hence between 0.55 and 1.45 times it |
| `Settlement.SettledPeriodIsCycleTime` | crates/pid-ctl/src/autotune.rs:393-402 | the settled period is the mean duration of the last three full cycles, twice the amplitude is the distance between average peak and average trough, and the gain satisfies `ku * pi * amplitude = 4 * amp` |
| `RelayEstimates.EventMeans` | crates/pid-ctl/src/autotune.rs:304-350 | every event of any run, from the samples alone: a flip reports the crossing sample and the new output; a period, twice the mean phase and half the distance between average peak and average trough; settlement comes at the end of a steady cycle with the mean of the last three cycles and `ku * pi * distance = 8 * amp` |
| `RelayEstimates.SettledIff` | crates/pid-ctl/src/autotune.rs:370-391 | the engine is settled exactly when some sample so far ended a cycle whose last six phases have a standard deviation below a fifth of their mean |
| `RelayEstimates.ResultMeans` | crates/pid-ctl/src/autotune.rs:275-289 | the result of any run from four flips on: gain from the distance between average peak and trough, period of the last three cycles if steady and else of all, and the PID gains the rule gives them |
| `Settlement.ResultIff` | crates/pid-ctl/src/autotune.rs:275-289 | after any run a result exists exactly from the second full cycle on, with positive `ku`, `tu`, `kp`, `ki` and non-negative `kd` |
| `Settlement.SettledForGood` | crates/pid-ctl/src/autotune.rs:337-349 | once settled, settled for the rest of the run, with at least three cycles |
| `Settlement.SettledHasResult` | crates/pid-ctl/src/autotune.rs:407-418 | from settlement on a result with positive gain and period is always there |
| `RelayLiveness.PhaseEnds` | crates/pid-ctl/src/autotune.rs:241-258 | against any of the three plants a phase ends as soon as the strides `(shortest/tau) * distance` cover what is left to the reference |
| `RelayLiveness.RelayKeepsFlipping` | crates/pid-ctl/src/autotune.rs:232-262 | against any plant whose settling places under the two relay outputs straddle the reference, `k` times an explicit number of ticks end `k` more phases, for any tick lengths up to `tau`: the relay never latches |
| `RelayLiveness.AutotuneSucceeds` | crates/pid-ctl/src/autotune.rs:275-289 | any number of cycles is reached in bounded time, and from two cycles on there is a positive result |
| `RelayLiveness.RelayLatches` | crates/pid-ctl/src/autotune.rs:241-258 | if the phase's target does not lie beyond the reference, a phase that has not ended never ends |
| `Persistence.SnapshotPersister.constructor` | crates/pid-ctl/src/app/snapshot_persister.rs:27-41 | no flush yet and no failures |
| `Persistence.SnapshotPersister.Persist` | crates/pid-ctl/src/app/snapshot_persister.rs:76-99 | skips exactly within the flush interval of the last success; otherwise saves, and counts the failure or restarts the interval |
| `Persistence.SnapshotPersister.ForceFlush` | crates/pid-ctl/src/app/snapshot_persister.rs:104-119 | saves regardless of the interval, with the same bookkeeping |
| `Persistence.FailCountIsTrailingRun` | crates/pid-ctl/src/app/snapshot_persister.rs:88-97 | the failure counter is the length of the trailing run of failed saves, saturating at 32 bits |
| `Persistence.EscalatesWithTrailingRun` | crates/pid-ctl/src/app/snapshot_persister.rs:62-64 | escalation is on exactly while the last `fail_after` or more saves all failed |
| `Persistence.WritesAreSpaced` | crates/pid-ctl/src/app/snapshot_persister.rs:76-99 | successful `persist` writes start at least one flush interval after the one before ended, and k intervals after the k-th before |
| `Persistence.WritesPerWindow` | crates/pid-ctl/src/app/snapshot_persister.rs:76-99 | at most `window / interval + 1` of them start in any window |
| `Persistence.DiskIsFresh` | crates/pid-ctl/src/app/snapshot_persister.rs:81-86 | whenever a call reports success the disk holds the submitted snapshot, or one whose save ended less than an interval ago |
| `StateStore.SaveIsCrashSafe` | crates/pid-ctl/src/app/state_store.rs:166-205 | power loss between any two effects of `save`, with every directory change since its start kept or lost on its own, leaves the old target or the complete new one - before the rename the old one - and every other file untouched |
| `StateStore.SuccessCanBeLost` | crates/pid-ctl/src/app/state_store.rs:181-195 | wherever the last sync of the directory fell before the rename: after a save that reported success the target may come back as it was, or both names hold the new text |
| `StateStore.DurableIff` | crates/pid-ctl/src/app/state_store.rs:181-195 | unless the old target was the new text already, every crash after a reported success keeps the new file exactly when the directory was synced after the rename |
| `StateStore.SyncedDirectoryKeepsSave` | crates/pid-ctl/src/app/state_store.rs:181-195 | once the operating system has written the directory, the new file is there and the temporary name is gone |
| `StateStore.SaveCanSucceed` | crates/pid-ctl/src/app/state_store.rs:166-205 | undisturbed, with a free temporary name, `save` reaches success |
| `Schedule.NextDeadlineAfterTick` | crates/pid-ctl/src/schedule.rs:12-22 | the scheduler loop ends and returns the closed form |
| `Schedule.NextDeadlineIsLeast` | crates/pid-ctl/src/schedule.rs:5-10 | that is the first boundary `tick + k * interval`, `k >= 1`, strictly after now, and at most one interval away from it |
| `LoopClock.LoopDeadline` | crates/pid-ctl/src/cmd/cmd_loop.rs:73-75 | without interval changes the deadline after any run of the loop is the schedule of the instants at which it woke, through holds, skipped ticks and failures |
| `LoopClock.LoopStaysOnGrid` | crates/pid-ctl/src/cmd/cmd_loop.rs:73-75 | so every deadline of the run lies on the grid through the first: no drift |
| `LoopClock.DeadlineIsAhead` | crates/pid-ctl/src/cmd/cmd_loop.rs:73-75 | and lies after every wake-up so far |
| `LoopClock.OneRoundPerSlot` | crates/pid-ctl/src/cmd/cmd_loop.rs:73-75 | if every wake-up comes at or after its deadline, at most one round runs per slot of the grid: missed slots are skipped, never replayed |
| `Loop.ApplyRuntimeInterval` | crates/pid-ctl/src/app/loop_runtime.rs:41-53 | the interval and the three defaults derived from it change, explicit options do not, and the flush interval follows |
| `Loop.WriteSafeCv` | crates/pid-ctl/src/app/loop_runtime.rs:110-121 | the safe CV counts as applied, and is offered for saving, exactly when it is configured and accepted |
| `Loop.TickStep` | crates/pid-ctl/src/app/ticker.rs:61-112 | one shared tick, persister included: success clears the failure counter, failure increments it, exhaustion writes the safe CV and stops |
| `Loop.RunLoop` | crates/pid-ctl/src/cmd/cmd_loop.rs:49-142 | the loop over any wake-ups and operator commands, forced saves and any real `set interval` included, has exactly the final session, persister, written CVs, counters, deadline and exit - panics and the hanging scheduler among them - of the round function the theorems are about |
| `LoopAccounting.LastCvIsConfirmed` | crates/pid-ctl/src/app/mod.rs:200-214 | after any run the CV the session takes as applied is the last one the actuator accepted |
| `LoopAccounting.IterCountsTicks` | crates/pid-ctl/src/app/mod.rs:282 | `iter` counts exactly the processed ticks, failed writes included, saturating at 64 bits |
| `LoopAccounting.StopsAtCvFailLimit` | crates/pid-ctl/src/app/ticker.rs:96-109 | the loop stops for CV failures exactly when the last `max(1, cv_fail_after)` computed CVs were all rejected; the counter never exceeds that |
| `LoopAccounting.StopsAtPvFailLimit` | crates/pid-ctl/src/cmd/cmd_loop.rs:258-292 | likewise for PV reads with `fail_after`, and never without it |
| `LoopAccounting.OrderlyEndIsSaved` | crates/pid-ctl/src/cmd/cmd_loop.rs:178-187 | a shutdown, and the end by the iteration limit, leave the final snapshot on disk, or a failure on the counter |
| `LoopAccounting.SafeCvIsLast` | crates/pid-ctl/src/cmd/cmd_loop.rs:178-187 | when the loop ends in good order or gives up, and whenever a PV read is lost, the last thing the actuator took is the safe CV |
| `LoopAccounting.StopsAtIterationLimit` | crates/pid-ctl/src/cmd/cmd_loop.rs:134-141 | `iter` never passes the iteration limit, and when it gets there the loop ends |
| `LoopRequests.RequestsObeyed` | crates/pid-ctl/src/cmd/cmd_loop.rs:343-372 | after any run the loop is on hold exactly when the last request served was to hold, or there was none and it started so; gains, setpoint and interval are those of the last request for them |
| `LoopRequests.HeldRunFreezes` | crates/pid-ctl/src/cmd/cmd_loop.rs:77-80 | as long as a loop on hold is not told to resume or stop it writes no CV and moves neither `iter`, `last_tick` nor the PID state |
| `LoopRequests.ReleasedRoundMeasures` | crates/pid-ctl/src/cmd/cmd_loop.rs:82-131 | a round woken without hold, the first after a resume included, sets the clock and, if the time since the last tick passes the gate, steps on the scaled PV and writes the CV of that step |
| `LoopRequests.GateMeans` | crates/pid-ctl/src/app/loop_runtime.rs:73-107 | the gate uses a `dt` between its limits as it is; outside them it skips, or takes the nearest one between them, or panics if there is none |
| `LoopRequests.OptionsFollowInterval` | crates/pid-ctl/src/app/loop_runtime.rs:41-53 | after any run the options left to their defaults fit the interval in force, explicit ones are untouched, and the persister uses the one in force |
| `LoopRequests.NanosAreNearest` | crates/pid-ctl/src/app/socket_dispatch.rs:212-215 | an interval panics exactly when negative or 2^64 seconds or more, and else is taken to the nearest nanosecond |
| `LoopClock.TickFollowsReading` | crates/pid-ctl/src/cmd/cmd_loop.rs:82-104 | in any run `last_tick` is not before the last processed measurement, and unless the derivative is to be skipped it is that instant exactly when no PV read was lost since |
| `LoopClock.DerivativeIsTrueIff` | crates/pid-ctl/src/cmd/cmd_loop.rs:82-104 | the derivative term of any tick of any run is the true rate since the last processed measurement exactly when the `dt` used is the time that passed, or the measurement did not move; and it is that time exactly when no read was lost and the gate did not clamp |
| `Saturation.SomeStepPanicsIff` | crates/pid-ctl-core/src/lib.rs:354-384 | with back-calculation against a limit, from any state in which the gains do not cancel: some measurement makes a step panic exactly when `dt` is past the bound of an automatic tracking time |
| `Saturation.AlwaysDefinedIff` | crates/pid-ctl-core/src/lib.rs:354-384 | and every measurement has a step within the finite numbers exactly when, besides, the tracking time is a number: an explicit one is not 0, an automatic one is no root of a negative ratio |
| `LoopPanics.SafeLoopNeverFails` | crates/pid-ctl/src/cmd/cmd_loop.rs:49-142 | no run panics, hangs or leaves the finite numbers whose intervals are durations and whose settings stay safe: a positive interval that the clock can add, a positive `max_dt`, gate limits in order if it clamps, and a tracking time for the longest `dt` it lets through, if back-calculation can ask for one |
| `LoopPanics.RoundPanicsIff` | crates/pid-ctl/src/app/socket_dispatch.rs:212-215 | after any commands a running loop can panic in the round exactly when one of them sets an interval that is no duration, or the next deadline falls past the end of the clock, or it is not on hold and a tick can panic: the gate clamps with its limits out of order, or lets a `dt` past the tracking-time bound to a back-calculation |
| `LoopPanics.RoundHangsIff` | crates/pid-ctl/src/schedule.rs:12-22 | a round never ends exactly when it is not asked to stop, its commands do not panic and they leave an interval of 0 nanoseconds |
| `LoopPanics.LoopPanicsIff` | crates/pid-ctl/src/cmd/cmd_loop.rs:82-104 | a loop left without commands has a panicking run exactly when a tick can panic under its settings |
| `LoopPanics.StaleBoundPanicsIff` | crates/pid-ctl/src/app/loop_runtime.rs:46-53 | a loop whose bound was set from the start-up interval can panic on `set interval`, to any duration, exactly unless `start >= 0.1 ms` and either `3 * new <= 100 * start` or `start >= 0.6 s` |
| `LoopPanics.StaleBoundExample` | crates/pid-ctl/src/app/loop_runtime.rs:46-53 | a run of one wake-up that sets a loop started at 0.1 s to 10 s and panics exists for every PI or PID controller with an output limit |
| `LoopStore.LoopStoreIsCalls` | crates/pid-ctl/src/app/loop_runtime.rs:41-53 | between interval changes the persister after any loop run is what the list of the calls made in that run - ticks, skips, safe CVs, operator saves, final flush - makes of it |
| `LoopStore.LoopCountsSaveFailures` | crates/pid-ctl/src/app/snapshot_persister.rs:62-97 | so the failure counter of a loop run is the trailing run of its failed saves, and the warning is escalated exactly while the last `fail_after` saves failed |
| `LoopStore.LoopWritesPerWindow` | crates/pid-ctl/src/app/snapshot_persister.rs:76-99 | at most `window / interval + 1` coalesced writes of a loop run start in any window |
| `LoopStore.LoopDiskIsFresh` | crates/pid-ctl/src/app/snapshot_persister.rs:81-86 | whenever the last call of a loop run reported success the disk holds the snapshot it was given, or one whose save ended less than a flush interval ago |
| `LoopRefinement.LoopIsSessionRun` | crates/pid-ctl/src/cmd/cmd_loop.rs:49-142 | every run of the loop drives its session through an ordinary session run with the same accepted CVs |
| `LoopRefinement.LoopWritesInRange` | crates/pid-ctl/src/cmd/cmd_loop.rs:49-142 | whatever the world does, the loop never writes a CV outside the output limits, if the first applied CV and the safe CV are inside |
| `Replay.RunPipe` | crates/pid-ctl/src/cmd/cmd_pipe.rs:22-53 | the pipe loop, on any input, emits exactly the records of its ticks, with `dt` measured between number lines, writes exactly their CVs, and ends with the session and for the reason that comes first: a step that panics or leaves the finite numbers, a rejected CV, an unreadable line, the end of the input |
| `Replay.TicksOfNumbers` | crates/pid-ctl/src/cmd/cmd_pipe.rs:24-37 | every number before the first unreadable line is a tick on its scaled value with the time since the number before, whatever blank lines lie between; the first has the configured `dt` |
| `Replay.RecordExplains` | crates/pid-ctl/src/app/mod.rs:193-290 | a record explains its CV: its terms are those of the gains in force, the CV follows from their sum, and the snapshot of the same tick agrees with it |
| `Replay.PipePanicsIff` | crates/pid-ctl/src/cmd/cmd_pipe.rs:32-42 | with the usual gains and an automatic tracking time against a limit, after any input processed so far, some number makes the pipe panic exactly when it comes more than the bound after the one before |
| `Replay.RunReplay` | crates/pid-ctl/src/cmd/cmd_replay.rs:149-251 | on any log: rejects an invalid configuration, and otherwise emits the results, or the summary, of stepping over the records; an unreadable line, or a step that panics or leaves the finite numbers, ends it after the results of the records before |
| `Replay.ReadableKeepsPlace` | crates/pid-ctl/src/cmd/cmd_replay.rs:190-196 | every record before the first unreadable line is replayed, in its place among the records |
| `Replay.ReplayedStepMeans` | crates/pid-ctl/src/cmd/cmd_replay.rs:149-209 | a replayed step has the record's setpoint and measurement as they are, default back-calculation, and as its CV the allowed value nearest to the sum of the terms |
| `Replay.DiffAccumulator.Push` | crates/pid-ctl/src/cmd/cmd_replay.rs:119-126 | adds one absolute difference to count, sum of squares and maximum |
| `Replay.SummaryBounds` | crates/pid-ctl/src/cmd/cmd_replay.rs:118-136 | the sum of squares is that of the differences, the maximum is the largest difference and is attained, and `max^2 <= sum_sq <= n * max^2` |
| `Replay.SummaryZeroIff` | crates/pid-ctl/src/cmd/cmd_replay.rs:118-136 | the maximum is 0 exactly when every replayed CV equals the recorded one, and then the sum is 0 |
| `Replay.ReplayRefinesPipe` | crates/pid-ctl/src/cmd/cmd_replay.rs:183-209 | a stateless pipe log with default options, replayed with the same gains and limits, gives the recorded CV at every record and a zero summary |
| `EditDistance.Levenshtein` | crates/pid-ctl/src/tune/input.rs:337-352 | the one-row in-place loop returns the recursive edit distance of any two strings |
| `EditDistance.DistanceBounds` | crates/pid-ctl/src/tune/input.rs:337-352 | the distance lies between the difference of the lengths and the longer length |
| `EditDistance.DistanceZeroIff` | crates/pid-ctl/src/tune/input.rs:337-352 | it is 0 exactly for equal strings |
| `EditDistance.DistanceSymmetric` | crates/pid-ctl/src/tune/input.rs:337-352 | it is symmetric |
| `EditDistance.DistanceTriangle` | crates/pid-ctl/src/tune/input.rs:337-352 | it satisfies the triangle inequality |
| `EditDistance.ChainsAreLong` | crates/pid-ctl/src/tune/input.rs:337-352 | no chain of single-character edits is shorter than the distance |
| `EditDistance.ShortestChain` | crates/pid-ctl/src/tune/input.rs:337-352 | some chain of single-character edits has exactly that length |
| `ScaleTicks.ScaleTicks` | crates/pid-ctl/src/tune/history.rs:57-132 | the loop returns exactly the ruler of its view, whose sub-step is a hundredth of the setpoint's decade |
| `ScaleTicks.SetpointOnGrid` | crates/pid-ctl/src/tune/history.rs:68-78 | the setpoint's own line is at most half a sub-step off and its index has three digits |
| `ScaleTicks.SubCountIsNearest` | crates/pid-ctl/src/tune/history.rs:80-82 | the count of sub-steps is within half a sub-step of the window's width |
| `ScaleTicks.TicksAreTheStride` | crates/pid-ctl/src/tune/history.rs:97-131 | a tick is drawn for exactly the grid lines in the window a multiple of the stride from the setpoint, with the symbol of that distance |
| `ScaleTicks.SymbolIsHeaviest` | crates/pid-ctl/src/tune/history.rs:116-126 | a line's symbol is the heaviest of the five whose multiple its distance from the setpoint is |
| `ScaleTicks.GridAt` | crates/pid-ctl/src/tune/history.rs:112-130 | the lines come in increasing order, one stride apart |
| `ScaleTicks.TickCount` | crates/pid-ctl/src/tune/history.rs:83-110 | for every view: as many ticks as strides in the span, give or take one; and at most one per row exactly when the window ends before `rows` strides past the first tick |
| `ScaleTicks.SomeStrideFitsIff` | crates/pid-ctl/src/tune/history.rs:89-95 | a listed stride fits exactly when the coarsest does |
| `ScaleTicks.StrideIsFinest` | crates/pid-ctl/src/tune/history.rs:89-95 | the stride is the finest listed one that keeps the count within the rows: every finer one exceeds them, and it fits unless it is the coarsest |
| `ScaleTicks.RulerIsFull` | crates/pid-ctl/src/tune/history.rs:89-110 | a ruler that leaves lines out still draws at least one tick for every five rows |
| `ScaleTicks.TickBudget` | crates/pid-ctl/src/tune/history.rs:89-110 | with a stride that fits there are at most `rows + 1` ticks; without one at least `(sub-steps - 1) / 10_000`, which is at least the rows |
| `ScaleTicks.RowsExceeded` | crates/pid-ctl/src/tune/history.rs:57-110 | with a setpoint of 100 the window from 0 to 10 on ten rows gets eleven ticks |
| `ScaleTicks.ZeroSetpointFloods` | crates/pid-ctl/src/tune/history.rs:68-95 | with a setpoint of 0 every window of width 1 gets at least 9_999_999 ticks on any canvas |
| `ScaleTicks.ZoomKeepsTicks` | crates/pid-ctl/src/tune/history.rs:41-45 | zooming in keeps every tick still in view, with the same symbol |

## Left out

- Floating-point rounding, infinities inside computations and not-a-number values: exact reals are used.
- Loop.RunLoop: does not model log lines and exit messages, and stops at the first step that leaves the finite numbers without a panic, or has a `dt` of 0 or less.
- LoopPanics.RoundPanicsIff: asks for a `max_dt` above 0 and a PV scale other than 0, which the command line does not check, for gains that do not cancel in the output, for wake-ups before a horizon on the clock, and that the next deadline is not later than the gate is wide.
- LoopPanics.LoopPanicsIff: also asks for a tracking time that is a number, since the model does not follow a run past one that is not.
- LoopStore.LoopStoreIsCalls: speaks of runs without interval changes, which also change the flush interval.
- Restart.OnceRunsAreOneSession: takes every save between invocations to succeed.
- Replay.RunPipe: stops at the first step that leaves the finite numbers without a panic, or has a `dt` of 0 or less.
- LoopAccounting.StopsAtPvFailLimit: does not model 32-bit wrap-around of the PV failure counter, which needs four thousand million failures in a row without a limit.
- Replay.RunReplay: stops where the pipe does; the root mean square is left as count and sum of squares, and the fields that a replayed record copies from the log are not modelled.
- ScaleTicks.ScaleTicks: takes logarithm and power of ten as exact, and does not model the saturation of 64-bit casts.
- StateStore.SaveIsCrashSafe: takes the rename of one name and the entries of a directory as atomic each, and a synced file as safe.
- RelayLiveness.RelayKeepsFlipping: measures the plant without noise or delay, with every relay output applied.
- Windup.WindupBounded: an explicit tracking time must be at least `dt`, since the program does not validate it.
- Replay of `loop` logs with feed-forward, skipped ticks, live changes or a bound taken from the interval: replay does not carry these.
- `fuzzy_command_names`: filtering and sorting by library iterators around the edit distance.
- Terminal UI, key handling, help and overlays.
- Sources, sinks, subprocesses, sockets, signals, lock files and timeouts: they appear as answers of the world.
- Command-line parsing, JSON and NDJSON, loggers and wall-clock timestamps.
- The autotune command's warm-up and duration limit, and the plain getters.
