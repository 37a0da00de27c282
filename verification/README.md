# Verified model of the fan controller's safety and command protocol

This project models the part of the firmware that decides whether fans may move, and
proves properties of the model over every interleaving of its tasks and every pattern of
driver failure. A second part models the DShot600 capture decoder as the inverse of the
firmware's frame encoder, a third the persisted blobs and their checksum.

`dafny verify dfyconfig.toml` checks everything.

## How it is built

Each task-shared module of the firmware appears twice.

- As a **transition system** over values (`*Core`, `*Run`, `*Session`, `*Writer`): one
  function per critical section, a program counter per task, one nondeterministic step per
  driver, GPIO, NVS or timer call. The number of tasks is unbounded. A failed driver call
  has no effect; a failed NVS commit keeps the old blob. The *wire* of a motor channel is
  the throttle its RMT peripheral streams, if any. Invariants are proved step by step
  (`*Safety`, `*Steps`, `*Fresh`), the guarantees over whole runs are in `*Theorems`.
- As a **class** that does the same in place (`*Control`, `TachPulse`, `TachMonitor`): the
  fields, arrays and loops of the source, each method proved against the function of its
  section. What its driver calls, NVS commits and callbacks would return is a parameter
  (`Calls`, `Answers`, `commits`), so that a contract can say when a method must succeed.

Safety is one half. The `*Effects`, `*Calls`, `*Answers`, `*Drives`, `*Starts` and `*Reach`
modules hold the other: what each operation gets done, when it must succeed, and that the
states the theorems speak of are reached. Where an interleaved protocol has to account for
what it did, the calls or answers are written down beside the run in a log that the steps
themselves never read.

| files | part |
|---|---|
| MotorCore, MotorEffects, MotorRun, MotorSafety, MotorTheorems, MotorRefresh, MotorDrives, MotorLatch, MotorChanges, MotorControl | motor control, the wire, its refreshes and every drive of a stop |
| SupervisorRun, SupervisorSafety, SupervisorCalls, SupervisorEnables, SupervisorEffects, SupervisorControl | stop transactions and their calls, interlock, output guard |
| SchedulerCore, SchedulerRun, SchedulerEffects, SchedulerControl | schedules, reservations, inhibit latch |
| SystemRun, SystemSafety, SystemFresh, SystemTheorems, SystemStarts | the three together with tach actions, OTA and boot restore |
| SaveWriter, SaveWriterSafety, SaveAnswers, SaveControl | the debounced single writer of both stores and what it answers |
| CrashRun, CrashSafety, CrashTheorems, StopReach, CrashReach | stop transactions and both stores across a reset, and a run on which a stop succeeds |
| MqttSession, MqttSafety, MqttSteps, MqttTheorems, MqttEffects, MqttReassembly, MqttControl, CommandExecutor | command plane |
| TachActions, TachEffects, TachMonitor, TachPulse | tach faults and pulse counting |
| DshotFrame, DshotChecksum, DshotStream, DshotInverse, DshotWaveform, DshotCapture | frame encoder, capture decoder as its inverse, the real waveform |
| Fnv, Persist, BlobLayout, PersistControl | persisted blobs |
| Prelude, Policy, BitArith | shared vocabulary, throttle policy, bit arithmetic |

## Properties that hold only under a condition

- **Zero on the wire at once.** When a stop drops its depth without an error, the channels
  need not all stream zero at that one instant: a refresh that fell due may have one of
  them disabled, streaming nothing. `MotorRefresh.RefreshCanSilenceAChannelAtTheDrop` has
  the run. With every I/O mutex free, the property holds in every interleaving of that
  instant if and only if no channel's last transmission is more than
  RMT_REFRESH_PERIOD_US old (`AllZeroIffNoRefreshDue`); if none is, it holds whoever owns
  the mutexes (`NoRefreshDueMeansAllZero`); with the mutexes free it also holds when all
  error counts are zero (`HealthyDropIsAllZero`). What always holds is that none streams
  a nonzero value until a later request raises a target.
- **Nothing runs after a queue overflow.** A command whose callback was already chosen may
  still be running when the queue overflows. It is not stopped, but its commit is refused;
  the theorem covers both.
- **Corruption of a stored blob is detected.** The four trailing bytes of the schedule blob
  are structure padding outside the checksum: a changed byte is detected if and only if it
  is not one of them, and there it does not matter.
- **The capture decoder accepts what the firmware sends.** The RMT clock of 40 MHz makes a
  zero bit 24 ticks (0.600 instead of 0.625 microseconds) and a one bit 49 (1.225 instead
  of 1.250). The waveform is accepted if and only if the tolerance is at least 4 percent,
  or 2 percent when every frame is full throttle with the telemetry bit, and the required
  gap is at most the 50.425 or 51.05 microseconds left after a frame ending in a one or a
  zero bit (`DshotWaveform.FirmwareWaveformDecodes`). The defaults suffice.
- **Restores are never stale.** The safety inhibit is permanent for the boot, so after the
  first completed automatic inhibit no schedule is ever restored; stale restores could only
  arise before it, and the theorem is about that time.
- **An inhibited schedule is ended.** process_schedule_end also tests for the inhibit, but
  in every reachable state an inhibited fan that is not reserved runs nothing, so only
  expiry ever decides (`SchedulerControl.Scheduler.BeginEnd`).

## Model

| member | source | states |
|---|---|---|
| Policy.EffectivePct | main/controller_policy.c:72-78 | The percentage sent to a motor is zero exactly for a zero request, otherwise the larger of request and minimum spin, each capped at 100 |
| Policy.PctToDshot | main/controller_policy.c:80-85 | A throttle is 0 or lies above 48 and at most 2047: reserved commands 1..47 are never produced, 0 means a request of 0, full percentage full throttle, and between them it is the percentage of that span rounded down |
| Policy.ThrottleEncodesEffective | main/controller_policy.c:72-85 | Two requests give the same throttle exactly when they have the same effective percentage |
| MotorCore.RampStep | main/motor_control.c:648-658 | One ramp step is exactly the step, or the distance that is left, towards the target; it never passes it |
| MotorCore.RampArrives | main/motor_control.c:642-663 | Ticks alone bring the position to the target in as many steps as the distance needs and no fewer |
| MotorCore.AcceptedRequestsSet | main/motor_control.c:812-881 | An accepted manual request sets the fan's manual target and target, an automatic or scheduled one its target only, reporting the manual one; other fans, positions and inhibits stay |
| MotorEffects.ClaimTakesEffect | main/motor_control.c:526-548 | A stop claims depth and maintenance by exactly one, and is refused exactly when a counter is saturated |
| MotorEffects.MaintenanceNests | main/motor_control.c:955-970 | Claiming, dropping and clearing a maintenance inhibit returns to the state before, whatever it stood on; in between no output is allowed |
| MotorEffects.StopTakesEffect | main/motor_control.c:549-568 | A stop's section stops every fan, takes manual targets exactly if asked to, and latches the inhibit of its kind and no other |
| MotorEffects.StopOneTakesEffect | main/motor_control.c:914-932 | A single-fan stop stops that fan only and lifts or sets no inhibit |
| MotorEffects.TachTakesEffect | main/motor_control.c:989-1013 | A tach inhibit stops the fan, takes its manual target and leaves nothing requestable of it; lifting it starts nothing |
| MotorEffects.AllowedMeans | main/motor_control.c:517-524 | When manual and automatic targets and the output are allowed, condition by condition |
| MotorEffects.RestoreTakesEffect | main/motor_control.c:883-912 | A restore is accepted exactly if every fan may take its target, and then sets both targets of each and nothing else |
| MotorEffects.TickTakesEffect | main/motor_control.c:642-663 | A ramp tick moves position and throttle by one ramp step under a new generation, or changes nothing at all |
| MotorEffects.RollbackUndoesTick | main/motor_control.c:665-680 | Rolling a tick back restores position and throttle under a newer generation, and does nothing once another section has begun its own |
| MotorEffects.ResultTakesEffect | main/motor_control.c:179-209 | A success clears the error count; a failure counts, and the one that reaches the limit faults the fan, takes its target and asks for the RMT stop |
| MotorEffects.FlagTellsTheHardware | main/motor_control.c:241-316 | Whatever driver calls fail, the enable flag tells whether the RMT channel itself is enabled |
| MotorEffects.SectionsDriveTheirFan | main/motor_control.c:638-705 | Every tick, single-fan stop and tach inhibit goes on to drive its fan, a tick also when nothing moved |
| MotorEffects.ResultsAreActedOn | main/motor_control.c:569-583 | A failed ramp move rolls back, a failed fan of a verified stop rolls back, and a stop counts the failure and goes on to the next fan |
| MotorEffects.StopRollsBack | main/motor_control.c:574-583 | The rollback of a stop uses the position and generation its section recorded and counts as a failure |
| MotorCore.SampleIsPure | main/motor_control.c:219-235 | In a valid state the reserved-value coercion of apply_motor never runs |
| MotorSafety.DriverKeepsChannel | main/motor_control.c:211-316 | Every driver call of apply_motor, successful or failed, keeps the channel's flags, last word and payload truthful about what RMT streams |
| MotorSafety.NextKeepsInv | main/motor_control.c:179-316 | Every step of every stop, ramp tick, rollback, request, tach section and safe-zero proof, under every driver outcome, keeps the module's invariant |
| MotorSafety.RunKeepsInv | main/motor_control.c:526-705 | The invariant holds after every run from initialization |
| MotorTheorems.InhibitsForceZeroTargets | main/motor_control.c:179-209 | Over all runs a global or communication inhibit means every target is zero, a tach inhibit or RMT fault that the fan's is, and a maintenance inhibit with no stop in flight that all are |
| MotorTheorems.OnlyAcceptedRequestsRaise | main/motor_control.c:812-912 | Only an accepted request, with no stop or inhibit in force, can raise a target; clearing an inhibit never does |
| MotorTheorems.WireAgreement | main/motor_control.c:211-316 | Throttle always encodes the ramp position, and whenever a fan's I/O mutex is free the last word sent encodes the applied percentage and equals any active stream |
| MotorTheorems.ProvenSafeZero | main/motor_control.c:1095-1142 | When the safe-zero proof owns every I/O mutex and every fan passes its test, all channels stream zero at that instant |
| MotorTheorems.DropLeavesZeroOnTheWire | main/motor_control.c:526-596 | When an error-free stop drops its depth no channel streams a nonzero value, and with every I/O mutex free all stream zero at once if and only if all are active and enabled |
| MotorRefresh.TimedRunsAreRuns | main/motor_control.c:243-249 | With the clock deciding every refresh test, each timed run is a run of the untimed system, so the other motor theorems hold for it |
| MotorRefresh.TimedNextKeepsTimely | main/motor_control.c:211-316 | Every timed step keeps: each channel an error-free stop has applied streams zero or is due for a refresh |
| MotorRefresh.SilentMeansDue | main/motor_control.c:242-249 | At the drop of an error-free stop a channel that does not stream zero is one whose refresh is due, over all timed runs |
| MotorRefresh.NoRefreshDueMeansAllZero | main/motor_control.c:526-596 | When an error-free stop drops its depth and no refresh is due, all channels stream zero at once, whatever raced with it |
| MotorRefresh.AllZeroIffNoRefreshDue | main/motor_control.c:242-249 | With every I/O mutex free at the drop, all channels stream zero at once in every interleaving of that instant if and only if no refresh is due |
| MotorRefresh.HealthyDropIsAllZero | main/motor_control.c:179-209 | Whatever the clock says: with every I/O mutex free and every error count zero at the drop, all channels stream zero at once |
| MotorRefresh.RefreshCanSilenceAChannelAtTheDrop | main/motor_control.c:638-705 | A reachable timed run in which a due refresh has one channel silent at the drop, so "all stream zero at once" is not guaranteed without that condition |
| MotorTheorems.ZeroUntilARequestRaises | main/motor_control.c:526-596 | From the drop of an error-free stop on, over every run, nothing nonzero is streamed until an accepted request raises a target |
| MotorDrives.StopDrivesEveryFan | main/motor_control.c:569-591 | Over every interleaving a stop that comes to its drop, failed or not, has driven every fan exactly once since its section, in order, and reports failure if and only if one of those drives failed |
| MotorDrives.DrivenFansAreZero | main/motor_control.c:569-591 | At that drop a fan whose own drive succeeded has zero target and position, nothing pending moves it, and its channel streams zero or is due for a refresh, whatever other fans' drives and rollbacks did |
| MotorDrives.WorkingDriversStream | main/motor_control.c:241-316 | A drive all of whose driver calls work ends with its request on the wire and reports success |
| MotorControl.MotorBank.constructor | main/motor_control.c:719-778 | After initialization every channel streams zero and the state is the initial one of the runs |
| MotorControl.MotorBank.RequestManual | main/motor_control.c:812-849 | A manual request is accepted exactly when allowed; it sets manual target and target, leaves the other fans alone, lifts the communication inhibit, and changes nothing when refused |
| MotorControl.MotorBank.RequestScheduled | main/motor_control.c:865-881 | A schedule start captures the displaced manual target in the section that accepts it |
| MotorControl.MotorBank.RestoreAll | main/motor_control.c:883-912 | All targets are restored or none, exactly when every fan and every inhibit allows it |
| MotorControl.MotorBank.EnterStop | main/motor_control.c:549-568 | The stop's section latches its inhibit and zeroes every fan, recording positions and generations |
| MotorControl.MotorBank.RampTick | main/motor_control.c:642-663 | The ramp section's new state, and the position and generation its rollback will need |
| MotorControl.MotorBank.RollBack | main/motor_control.c:574-582 | A rollback takes effect only if nothing superseded the attempted position |
| MotorCore.FaultIsARunOfFailures | main/motor_control.c:179-209 | Over every sequence of results a healthy fan is latched exactly when the configured number of consecutive results were failures; the latch takes its target and brings the RMT inhibit |
| MotorControl.MotorBank.RecordApplyResult | main/motor_control.c:179-209 | Recording makes books and wire agree again after a drive; a failure that reaches the limit leaves nothing requestable or enableable, any other result leaves targets and inhibits alone |
| MotorControl.MotorBank.DriveChannel | main/motor_control.c:241-316 | A drive succeeds exactly if the channel already streams the request or every call it needs works; success streams it, failure keeps the last word, and the enable flag follows the calls that worked |
| MotorControl.MotorBank.ApplyMotor | main/motor_control.c:211-316 | Applying one fan records exactly its result and leaves every other channel alone |
| MotorControl.MotorBank.StopAll | main/motor_control.c:526-596 | Unless refused unentered, a stop drives every fan whichever drives fail: each fan's own result says whether its wire streams zero, all targets are zero, cleared manuals too, the inhibit is in force, and ESP_OK is returned exactly if every drive succeeded |
| MotorControl.MotorBank.OutputAllowed | main/motor_control.c:1031-1043 | Output is allowed exactly when no stop, inhibit or fault is in force |
| MotorControl.MotorBank.HoldsSafeZero | main/motor_control.c:1095-1142 | The proof succeeds exactly when every fan passes, and then every wire streams zero |
| MotorLatch.NextKeepsLatch | main/motor_control.c:526-596 | No step lifts the global or RMT inhibit or brings back a manual target cleared under it, and a stop keeps its kind until its caller collects it |
| MotorChanges.QuietTightens | main/motor_control.c:812-1013 | Apart from accepted manual targets, restores, tach and maintenance calls, no step lifts an inhibit, and manual targets change only where a stop enters |
| SupervisorSafety.NextKeepsInv | main/safety_supervisor.c:151-309 | Every step of every stop transaction, enable, guard and motor task keeps the supervisor's invariant |
| SupervisorSafety.OutputStaysOffDuringStop | main/safety_supervisor.c:172-179 | After its successful drive-off a stop that has not released its depth finds the output off, whatever enables race with it |
| SupervisorSafety.CutLastsUntilRelease | main/safety_supervisor.c:281-285 | Only the stop's own last step ends that exclusion |
| SupervisorSafety.StopTurnsOffForGood | main/safety_supervisor.c:182-197 | A completed GLOBAL stop, or an escalated one, leaves the output off with nobody able to turn it on |
| SupervisorSafety.NeverOnAgain | main/safety_supervisor.c:689-728 | After such a stop the interlock never turns on again, over every run |
| SupervisorSafety.GuardPrecedesStops | main/safety_supervisor.c:730-752 | While a command holds the output guard every other task's stop still waits before its first hardware action |
| SupervisorCalls.StopsFollowTheirScript | main/safety_supervisor.c:151-309 | Over every run a transaction that is about to return has made exactly the calls of its script, in order and each with its arguments, and returns ESP_OK if and only if every one of them did |
| SupervisorCalls.ScriptMeans | main/safety_supervisor.c:172-271 | The script cuts the interlock first, stops the motors under the action's inhibit, then the automatic sources, saves cleared targets, and any failed call of a temporary stop makes it call the global inhibit |
| SupervisorEnables.EnablesAreProper | main/safety_supervisor.c:689-728 | Over every run an attempt drives the line on if and only if the motors allowed it and no stop was claimed at either look or in between; it asks the motors again afterwards and takes the output back exactly if they refuse |
| SupervisorEnables.ClaimsRaiseGeneration | main/safety_supervisor.c:163-171 | Every claim of a stop, and nothing else, begins a new generation |
| SupervisorEffects.EnableTurnsOn | main/safety_supervisor.c:689-728 | An undisturbed attempt turns the output on if and only if no stop is claimed and the motors allow it |
| SupervisorEffects.GuardIsGranted | main/safety_supervisor.c:730-752 | The output-command guard is granted if and only if no stop is claimed, and a refusal leaves the mutex as it was |
| SupervisorEffects.GuardIsGivenBack | main/safety_supervisor.c:754-760 | Giving a guard back frees the recursive mutex exactly when it was the outermost |
| SupervisorControl.Supervisor.StopAll | main/safety_supervisor.c:151-309 | ESP_OK means interlock off, zero on every wire, all targets zero and the action's inhibit in force; it is returned whenever no call the transaction needs fails; a failed temporary stop ends latched globally, with zero targets, unless that was refused too |
| SupervisorControl.Supervisor.EnableOutputIfSafe | main/safety_supervisor.c:689-728 | True exactly if no stop is claimed, the write works and the motor module allows it before and after; otherwise no new output remains unless the compensating write failed |
| SchedulerCore.StartSelectIsFair | main/scheduler.c:426-445 | The chosen slot is due and no slot before it in cyclic order is; none is chosen only if none is due |
| SchedulerRun.NextKeepsInv | main/scheduler.c:148-189 | Every section of ends, starts, manual targets, overrides, edits, cancels and the safety inhibit keeps the scheduler's invariant, whatever the callbacks answer |
| SchedulerRun.HandsKeepOwned | main/scheduler.c:148-189 | Every reservation has exactly one owner and every owner a reservation, after any step that hands reservations over |
| SchedulerRun.InhibitAndTracking | main/scheduler.c:894-933 | The runtime latch implies the inhibit, the inhibit implies each fan is idle or reserved, an active slot is enabled, and a fan is reserved if and only if some task owns it |
| SchedulerRun.InvIsTracked | main/scheduler.c:894-933 | Every reachable state satisfies Valid() of the scheduler object, which each of its methods needs and keeps |
| SchedulerRun.ReservationsAreGivenBack | main/scheduler.c:148-189 | Whatever callbacks answer and whichever waits time out, a task that runs on gives back every fan it holds within a bounded number of its own sections |
| SchedulerRun.AcceptedStartIsTracked | main/scheduler.c:448-474 | An accepted START becomes the fan's tracked active slot with the captured target: it ends its own entry's duration after it began, that entry comes due again its interval after, and no other entry changes |
| SchedulerRun.StartsAreConfigured | main/scheduler.c:426-459 | A START that begins asks for the target of the due entry it was chosen for and remembers that entry's duration and the moment it began |
| SchedulerEffects.StartTakesFirstDue | main/scheduler.c:426-446 | The search takes the first slot behind the cursor that comes due, or none if none does; it gives first trigger times to exactly the entries it looked at |
| SchedulerEffects.SetIsTakenOn | main/scheduler.c:759-767 | A SET is taken on exactly for an existing slot, a valid configuration and an unreserved fan |
| SchedulerEffects.SetTakesEffect | main/scheduler.c:768-779 | The slot holds exactly the configuration of the call, enabled and due its interval from now; other slots, other fans and a running schedule are untouched |
| SchedulerEffects.DisableTakesEffect | main/scheduler.c:823-834 | DISABLE ends the slot's own run and only that, and switches the slot off with its configuration kept |
| SchedulerEffects.DisableRestores | main/scheduler.c:802-821 | DISABLE of the running slot first restores the saved target; of another slot it restores nothing |
| SchedulerEffects.EndBegins | main/scheduler.c:376-396 | An END begins exactly for an expired or inhibited run on an unreserved fan and restores the target saved at its start |
| SchedulerEffects.EndTakesEffect | main/scheduler.c:400-404 | Whatever the motors answered, the end drops the run and nothing else |
| SchedulerEffects.ManualTakesEffect | main/scheduler.c:616-624 | An accepted manual target drops the run it displaces, a refused one leaves it alone |
| SchedulerEffects.OverrideTakesEffect | main/scheduler.c:661-686 | ON inhibits and remembers every running slot and its target; OFF lifts an unlatched inhibit and has each enabled entry come due its interval from now |
| SchedulerEffects.OverrideRestoresAll | main/scheduler.c:688-707 | ON restores every fan on which a schedule runs, with the target saved for it, one after the other, whatever the motors answer |
| SchedulerEffects.OverrideEnds | main/scheduler.c:710-719 | At the end exactly the remembered runs are dropped and every fan is released |
| SchedulerEffects.InhibitTakesEffect | main/scheduler.c:909-926 | The safety inhibit is taken exactly when nothing is reserved, and drops every run |
| SchedulerEffects.NextKeepsConfigured | main/scheduler.c:113-119 | Whatever the tasks do, every enabled entry stays a valid configuration |
| SchedulerRun.LatchIsForGood | main/scheduler.c:641-668 | Nothing clears the latched inhibit, and under it no schedule runs |
| SchedulerRun.InitIsValid | main/scheduler.c:512-556 | The state after initialization, with whatever entries were loaded, satisfies the invariant |
| SchedulerControl.Scheduler.SelectStart | main/scheduler.c:426-446 | The cyclic search arms the entries it passes and reserves the first due one |
| SchedulerControl.Scheduler.FinishStart | main/scheduler.c:459-474 | An accepted start is recorded, holding the displaced target, and is lost only to an inhibit, a running slot or a disabled entry; under the inhibit nothing starts; the fan is released either way and Valid() kept |
| SchedulerControl.Scheduler.BeginEnd | main/scheduler.c:376-386 | Only an expired schedule of an enabled slot is ever ended here: Valid() makes the inhibited half of the test never decide |
| SchedulerControl.Scheduler.TryReserve | main/scheduler.c:148-164 | Exactly one holder: it succeeds if and only if the fan was free, and under the inhibit its holder finds nothing running there |
| SchedulerControl.Scheduler.ReserveAll | main/scheduler.c:171-182 | All fans are reserved and quiet under the inhibit, or none after the first ones were given back |
| SchedulerControl.Scheduler.TryInhibitAll | main/scheduler.c:909-926 | With nothing reserved the inhibit is latched and every slot dropped; otherwise nothing changes |
| SchedulerControl.Scheduler.ApplyOverride | main/scheduler.c:661-686 | The override takes effect, remembering running slots, or is refused by the latch with all reservations released |
| SchedulerControl.Scheduler.FinishOverride | main/scheduler.c:710-719 | Every slot that was running is dropped, every fan released, and under the inhibit nothing runs any more |
| SchedulerControl.Scheduler.FinishManual | main/scheduler.c:616-624 | After an accepted manual target no schedule runs on the fan, a refused one changes nothing but the reservation, and Valid() is kept |
| SchedulerControl.Scheduler.FinishSet | main/scheduler.c:768-779 | The entry is written field by field, the fan released, and every other slot, fan and run left alone |
| SchedulerControl.Scheduler.FinishDisable | main/scheduler.c:823-832 | The disabled slot is off and not running, whichever slot was; the other slots, and a schedule running on one of them, are untouched |
| SystemSafety.EntersInForce | main/safety_supervisor.c:188-211 | Before the scheduler is latched, a stop that zeroes targets has an inhibit in force that no command can lift |
| SystemFresh.ManualMeetsNoInhibit | main/command_executor.c:129-140 | A command holding the output guard never meets a communication inhibit whose stop is still running |
| SystemTheorems.NextKeepsInv | main/app_main.c:130-184 | Every step of the wired system (supervisor, motors, scheduler callbacks, boot restore, OTA, tach actions) keeps the cross-module invariant |
| SystemTheorems.AcceptedRestoreIsFresh | main/scheduler.c:371-418 | An accepted RESTORE asks for the fan's manual target at that moment |
| SystemTheorems.RestoresAreFresh | main/scheduler.c:371-474 | From boot, over every run in which targets are not restored after the first START and no automatic inhibit times out, an accepted RESTORE sets the target to the manual target |
| SystemStarts.StartsFollowTheirEntry | main/scheduler.c:420-480 | From boot, over every run and whatever others do meanwhile, an accepted START gives the fan its entry's target and leaves its manual target alone, and is recorded to end its entry's duration, and to come due again its interval, after it began |
| SystemStarts.StartIsServed | main/app_main.c:137-177 | A START the motors refuse moves nothing; one they accept moves only that fan's target |
| SystemStarts.ManualIsServed | main/app_main.c:137-177 | A manual command is served with its own target as manual target, or changes nothing, and the scheduler is told which |
| SystemStarts.RestoreIsServed | main/app_main.c:137-177 | A restore sets the fan's target if automatic targets are allowed, and nothing else |
| SaveWriterSafety.NextKeepsInv | main/scheduler.c:331-369 | Every step of the writer, of editors and of synchronous callers keeps the writer's invariant, for both stores |
| SaveWriterSafety.AcknowledgedSaveIsCommitted | main/fan_state_store.c:273-328 | ESP_OK from save_sync means a commit succeeded on a snapshot begun after this call issued its generation, each committed cell a value held since then, whatever was stale; SaveAnswers has the converse |
| SaveAnswers.AnswersAreTheCommits | main/fan_state_store.c:273-328 | Over every run a caller that has its answer was told ESP_OK if and only if the commit that served its own generation succeeded, unless it was turned away or its own wait ran out |
| SaveAnswers.CompletedSavesAreAnswered | main/scheduler.c:988-1010 | A caller that finds its generation completed takes that commit's answer even if its time is up, and one asleep over a completed generation has its token or gets it with the writer's next step |
| SaveAnswers.NextKeepsBook | main/fan_state_store.c:133-163 | Every step keeps: each answer has its reason, and what the writer reports is what was committed |
| SaveWriterSafety.SavesServeTheNewest | main/fan_state_store.c:165-210 | A synchronous save serves the newest request, and the fan store begins a debounced one only when none is pending |
| SaveWriterSafety.PendingSyncIsWoken | main/fan_state_store.c:133-163 | A pending synchronous request always has a wake-up owed when the writer blocks |
| SaveWriterSafety.NoEditIsDropped | main/scheduler.c:323-369 | When the writer is blocked with no bits and no caller is between edit and notification, its last snapshot is the live data |
| SaveControl.SaveStore.ServePending | main/fan_state_store.c:152-163 | Every pending generation is completed and told whether the commit of the live data succeeded |
| SaveControl.SaveStore.SaveNow | main/fan_state_store.c:107-131 | The snapshot is the live data; a failed commit keeps the old blob |
| SaveControl.SaveStore.Pass | main/fan_state_store.c:165-210 | One pass of the writer leaves no request without a wake-up and serves those it was woken for; while the partition takes every save, an announced edit is committed and callers are told so |
| CrashSafety.NextKeepsInv | main/app_main.c:179-192 | Every step of stops, motors, scheduler and both stores keeps what a stop may rely on once told its saves succeeded |
| CrashTheorems.SuccessIsCommitted | main/safety_supervisor.c:425-438 | A GLOBAL stop with cleared targets that returns ESP_OK meets the condition for a restart |
| CrashTheorems.CommittedIsSafe | main/safety_supervisor.c:559-579 | Under the restart condition, also that of the RMT reboot, motors are shut, the scheduler latched and both committed blobs safe |
| CrashTheorems.RunKeepsSafe | main/safety_supervisor.c:151-309 | That stays so over every continuation |
| CrashTheorems.StoppedStateSurvivesReset | main/safety_supervisor.c:151-309 | Once such a stop is done, in every continuation the committed fan blob is zero, the schedule blob inhibits, and a reset starts no motion |
| CrashReach.SuccessIsReachable | main/safety_supervisor.c:425-438 | From every boot, with any number of fans, some run ends with a GLOBAL stop with cleared targets that returns ESP_OK, so the theorem is about something |
| StopReach.StopComesToAuto | main/safety_supervisor.c:172-219 | A GLOBAL stop of any number of fans comes to its automatic inhibit with every call successful |
| CrashReach.StoreSaves | main/fan_state_store.c:273-328 | A synchronous save that is let in and whose commit succeeds returns ESP_OK |
| CrashTheorems.BootIsConfigured | main/scheduler.c:224-249 | Whatever the blob holds, a boot enables exactly the enabled, valid entries, due their interval from now, with nothing running or latched |
| CrashTheorems.SchedulesSurviveReset | main/scheduler.c:191-289 | Schedules saved and booted are the same schedules under the same inhibit |
| CrashTheorems.TargetsSurviveReset | main/fan_state_store.c:360-368 | Saved manual targets are the targets again after a boot |
| CrashTheorems.SafeBlobsStartNoMotion | main/app_main.c:130-135 | Zero targets and an inhibiting plan leave every target zero and no schedule able to start after boot |
| MqttSteps.NextKeepsInv | main/mqtt_manager.c:160-291 | Every step of events, enqueueing, dispatch, commits and client replacement keeps the command plane's invariant |
| MqttSteps.ReservedSlotHasRoom | main/mqtt_manager.c:269-289 | A reserved pending record guarantees that the queue send succeeds |
| MqttTheorems.HandedIsPrefixOfAssembled | main/mqtt_manager.c:160-216 | Per connection generation, the commands handed to the callback are a gap-free in-order prefix of those assembled |
| MqttTheorems.FencedSessionIsStable | main/mqtt_manager.c:729-759 | Between commit_begin and commit_end generation, connection and readiness of the session do not change |
| MqttTheorems.OverflowGoesDown | main/mqtt_manager.c:269-290 | A saturated queue ends the session and its generation on the spot |
| MqttTheorems.OverflowSilences | main/mqtt_manager.c:269-290 | After an overflow, over every run, nothing is handed over and nothing commits before a later connection is up with every required SUBACK accepted |
| MqttTheorems.EndedGenerationsAreFinal | main/mqtt_manager.c:160-216 | What a generation had not handed over when it ended it never does, and no command of an ended generation is ever committing, over every run |
| MqttTheorems.ReadyMeansAcknowledged | main/mqtt_manager.c:564-607 | A session is ready only if every subscription it registered was acknowledged and none was refused |
| MqttTheorems.OnlySubacksRaise | main/mqtt_manager.c:564-607 | Only an accepting SUBACK of the current client makes a session ready |
| MqttEffects.ConnectionComesUp | main/mqtt_manager.c:293-428 | If the client takes every subscription and the broker accepts each, in any order, the session is ready in a new generation |
| MqttEffects.SubackIsExact | main/mqtt_manager.c:564-607 | A SUBACK counts only for a pending id of the current client; an accepting one makes the session ready exactly when it is the last and none failed |
| MqttEffects.ConnectIsExact | main/mqtt_manager.c:528-563 | CONNECTED of the current client begins a new generation with nothing ready or pending, of another it changes nothing |
| MqttEffects.DropIsExact | main/mqtt_manager.c:618-637 | DISCONNECTED of the current client ends the session and its generation, of another it changes nothing |
| MqttEffects.ReplaceIsExact | main/mqtt_manager.c:761-800 | Replacing a dead client ends its session and generation |
| MqttEffects.EnqueueIsExact | main/mqtt_manager.c:218-291 | A command of a session no longer live is dropped; of the live one it gets a record, unless as many commands as records are outstanding: only then does the queue overflow |
| MqttEffects.SendIsExact | main/mqtt_manager.c:262-290 | A command with a record goes to the end of the queue |
| MqttEffects.ReceiveTakesOldest | main/mqtt_manager.c:169-177 | Commands leave the queue in order |
| MqttEffects.DispatchIsExact | main/mqtt_manager.c:180-216 | A received command is handed to the callback if and only if its session is the live one; its record is given back either way |
| MqttEffects.CommitIsExact | main/mqtt_manager.c:729-759 | A commit begins if and only if the fence is free and the session is the live one, and leaves the fence free otherwise |
| MqttEffects.CommandGetsThrough | main/mqtt_manager.c:160-291 | On a calm live session every completed message is handed over as the next command and finds the commit fence open |
| MqttTheorems.OldestBoundsUnfinished | main/mqtt_manager.c:1035-1069 | The reported oldest-command time is positive and no later than the enqueue time of any unfinished command |
| MqttTheorems.OldestIsAnUnfinished | main/mqtt_manager.c:1035-1069 | A reported time is the enqueue time of some unfinished command |
| MqttTheorems.TableRefinesQueue | main/mqtt_manager.c:218-262 | Each queued command owns a distinct occupied record with its sequence |
| MqttControl.CommandTable.Reserve | main/mqtt_manager.c:230-249 | The first free record is reserved under a new sequence, or none if all are taken |
| MqttControl.CommandTable.Release | main/mqtt_manager.c:180-188 | No record stands for the command any more, every other command keeps its own, and if it had one the next reservation finds room |
| MqttControl.CommandTable.OldestSince | main/mqtt_manager.c:1060-1069 | The loop computes the earliest of the in-flight mark and the occupied records |
| MqttControl.CommandTable.RemovePending | main/mqtt_manager.c:430-439 | Exactly one occurrence of the id is removed, if there is one |
| MqttControl.SubackAccepted | main/mqtt_manager.c:565-572 | A SUBACK accepts exactly when codes are present, all below 0x80, and no failure is reported |
| MqttReassembly.SplitDeliversOnce | main/mqtt_manager.c:441-517 | Any split of an acceptable message reaches the enqueue step exactly once, whole, whatever the buffer held |
| MqttReassembly.OversizedLeavesNothing | main/mqtt_manager.c:463-497 | A message too large delivers nothing and leaves the buffer clean |
| MqttReassembly.DeliveriesAreRuns | main/mqtt_manager.c:441-517 | Whatever events arrive, a delivery is the concatenation of one contiguous run from offset 0 in one generation |
| MqttControl.Receiver.HandleData | main/mqtt_manager.c:441-517 | The in-place handler computes exactly that, never writing outside its buffers |
| MqttControl.Receiver.BeginMessage | main/mqtt_manager.c:463-486 | The first fragment starts a message exactly for a topic of 1 to 191 characters and sizes within 767 bytes, otherwise the message is tracked to its end and dropped |
| CommandExecutor.Executor.Execute | main/command_executor.c:112-254 | A command makes its own call, with its own arguments, if and only if it gets every lock it needs, followed by what belongs to that call and nothing else; locks are taken in one global order and given back innermost first |
| CommandExecutor.Executor.Manual | main/command_executor.c:113-151 | Acknowledged exactly if fence and guard are granted and the target accepted; then the target is set, saved and the output enabled under both, and only then acknowledged and published; a refused target is neither saved nor enabled |
| CommandExecutor.Executor.Clear | main/command_executor.c:152-172 | An alarm is cleared exactly if the action mutex and then the fence are granted, and published once both are given back |
| CommandExecutor.CallsAreTheirOwn | main/command_executor.c:112-254 | No two commands amount to the same call, except manual ones asking for the same percentage |
| CommandExecutor.EventsArePermitted | main/command_executor.c:122-142 | In every disciplined trace a manual target is set and output enabled only under both session fence and output guard, an alarm cleared only under action mutex and fence, and nothing published with a lock held |
| TachActions.NextKeepsInv | main/tach_actions.c:122-244 | Every step of monitor, worker and operators keeps the fault path's invariant |
| TachActions.NoFaultIsLost | main/tach_actions.c:216-244 | Over every run a latched fault is being told, pending with a wake-up owed, in hand, or inhibits its motor |
| TachActions.InhibitImpliesLatch | main/tach_actions.c:261-273 | Whenever the action mutex is free, an inhibited fan has its fault latched |
| TachActions.OnlyCurrentFaultsInhibit | main/tach_actions.c:113-120 | An inhibit is only ever set for the fault latched at that moment, so delayed work never undoes a CLEAR |
| TachEffects.FaultStopsItsMotor | main/tach_actions.c:122-244 | On a quiet system a confirmed fault of any fan, with any cause, ends in that fan's motor inhibit and in nobody else's |
| TachEffects.NoticeTakesEffect | main/tach_actions.c:140-214 | A notice inhibits its fan if and only if it is of the fault raised now, and everything is stopped exactly if the work with it fails |
| TachEffects.ClearTakesEffect | main/tach_actions.c:247-280 | A CLEAR lowers alarm and latch, begins a new fault generation, lifts the fan's inhibit, gives the mutex back and leaves other fans alone |
| TachMonitor.Monitor.UpdateFault | main/tach_monitor.c:248-288 | The section's new state of every fan under each configured action; FaultsExactlyWhenDue says what it amounts to over whole sequences of samples |
| TachMonitor.Monitor.ClearAlarm | main/tach_monitor.c:461-477 | After CLEAR no notice sent so far ever tells of a current fault, and a new fault needs its whole debounce time again |
| TachMonitor.GenerationsGrow | main/tach_monitor.c:248-288 | Over any samples the fault generation never falls |
| TachMonitor.SamplesAreFaultSteps | main/tach_monitor.c:248-288 | Under STOP_FAN a sample either latches a fault of the next generation or leaves the fault alone |
| TachMonitor.FaultsAreDebounced | main/tach_monitor.c:252-287 | A fault means its condition was seen for the whole debounce time with nothing healthy in between |
| TachMonitor.FaultsExactlyWhenDue | main/tach_monitor.c:248-288 | Over every sequence of samples a stalled one raises a fault if and only if no alarm stands and some stalled sample at least the debounce time old has no healthy one after it; an invalid one likewise for its timeout |
| TachMonitor.FaultsAreCounted | main/tach_monitor.c:67-75 | Stall count and fault generation count exactly the samples that raised a fault |
| TachMonitor.StalledMeansTooSlow | main/tach_monitor.c:217-247 | A sample is a stall exactly if a started motor turned slower than the limit |
| TachPulse.PulseCounter.ReadPulseDelta | main/tach_monitor.c:140-215 | ESP_OK if and only if the previous call left a baseline, every driver call needed works and the reading did not fall; the delta is the pulses between the two sampling instants modulo 2^32, exact if and only if fewer came |
| TachPulse.ReadingsTellGain | main/tach_monitor.c:174-180 | Readings that do not fall tell the gain modulo 2^32, even when the 32-bit count wraps |
| TachPulse.ReadingsDoNotFall | main/tach_monitor.c:155-162 | Below the reset threshold a reading cannot fall unless more than 2^30 pulses come in one interval |
| DshotFrame.WireRoundTrip | main/dshot_protocol.c:10-26 | Reading the sixteen wire bits of a built frame gives back its word |
| DshotFrame.BuiltWordDecodes | main/dshot_protocol.c:10-26 | A built word carries its throttle, telemetry bit and a checksum the analyzer accepts |
| DshotFrame.ValidWordIsBuilt | scripts/analyze_dshot_capture.py:217-232 | A word with a valid checksum is exactly the one the encoder builds |
| DshotChecksum.ValidMeansEvenColumns | main/dshot_protocol.c:17-22 | A word is valid if and only if in each of the four bit positions its four nibbles have an even number of ones |
| DshotChecksum.FlippedBitIsRejected | scripts/analyze_dshot_capture.py:217-232 | Any single flipped bit of a built frame is rejected |
| DshotChecksum.FrameLayout | main/dshot_protocol.c:10-26 | The wire carries the throttle in its first eleven bits, most significant first, then the telemetry bit |
| DshotFrame.WordFromBits | scripts/analyze_dshot_capture.py:223-228 | The accumulator loop computes the number with these binary digits |
| DshotCapture.ExtractPulses | scripts/analyze_dshot_capture.py:174-210 | Accepts exactly the well-formed edge sequences and returns their pulses |
| DshotStream.WithinIsWindow | scripts/analyze_dshot_capture.py:213-214 | The tolerance test is membership in a window |
| DshotCapture.GroupPulses | scripts/analyze_dshot_capture.py:259-276 | Groups partition the pulses at frame breaks, or some neighbours fit neither a frame nor a break |
| DshotCapture.DecodeBits | scripts/analyze_dshot_capture.py:287-307 | Accepts exactly unambiguous widths and in-window periods |
| DshotCapture.DecodeGroup | scripts/analyze_dshot_capture.py:281-334 | Accepts exactly the valid sixteen-pulse frames and returns the frame |
| DshotCapture.AnalyzeTransitions | scripts/analyze_dshot_capture.py:242-339 | Accepts exactly the captures of some jittered transmission by the encoder, frame k carrying command k; equally, exactly the streams of well-timed valid frames, returning those frames and gaps |
| DshotInverse.DecoderInvertsEncoder | scripts/analyze_dshot_capture.py:242-339 | A pulse stream is accepted if and only if it is some jittered transmission, and then it decodes to what was sent |
| DshotInverse.CapturesDecode | scripts/analyze_dshot_capture.py:242-339 | The same of edge captures: accepted if and only if their pulses are some transmission, whose commands the frames carry |
| DshotWaveform.FirmwareWaveformDecodes | main/dshot_esc_encoder.c:100-143 | The waveform at the RMT clock's real tick counts is accepted, for all settings the analyzer takes, if and only if tolerance and required gap suffice for the commands sent, and then decodes to them |
| DshotWaveform.OnlyFullThrottleIsAllOnes | main/dshot_protocol.c:10-26 | The only frame without a zero bit, which two percent suffice for, is full throttle with the telemetry bit |
| DshotWaveform.DefaultsSuffice | scripts/analyze_dshot_capture.py:24-25 | The analyzer's default tolerance and gap accept and decode the firmware's waveform for all commands |
| DshotInverse.PulsesOfEdges | scripts/analyze_dshot_capture.py:174-210 | Any ordered pulse stream comes back from its edges |
| Fnv.Checksum | main/scheduler.c:103-111 | The accumulator loop computes FNV-1a of the region |
| Fnv.StepInjective | main/fan_state_store.c:74-82 | Each step of the hash is injective in the accumulator and in the byte |
| Fnv.ChecksumSeesByte | main/fan_state_store.c:74-82 | Changing any single byte changes the checksum |
| BlobLayout.KnownAnswers | main/fan_state_store.c:74-82 | The published FNV-1a values of the empty string and of "a" |
| Persist.FansRoundTrip | main/fan_state_store.c:343-370 | Saving and loading under the same topology returns the same targets |
| Persist.FanCorruptionIsDetected | main/fan_state_store.c:346-358 | Any single changed byte of an accepted fan blob makes the load reject it |
| Persist.PlanRoundTrip | main/scheduler.c:191-289 | Saving and loading returns the inhibit flag and every enabled, valid entry |
| Persist.ScheduleCorruptionIsDetected | main/scheduler.c:207-222 | A single changed byte of an accepted schedule blob is detected if and only if it is not in the trailing structure padding |
| BlobLayout.FanBlobIsAccepted | main/fan_state_store.c:343-370 | A fan blob is restored exactly if every byte is as schema 3 says, field offsets, byte order and constants written out |
| BlobLayout.SavedFansAreBlob | main/fan_state_store.c:107-131 | What is saved is such a blob, with the targets from byte 21 and zeros behind |
| BlobLayout.FansAreBound | main/fan_state_store.c:346-355 | Targets saved under one wiring, numbering or fan count are refused under any other |
| BlobLayout.ScheduleBlobIsAccepted | main/scheduler.c:207-222 | A schedule blob is loaded exactly if header and checksum are as schema 4 says, byte for byte |
| BlobLayout.SavedPlanIsBlob | main/scheduler.c:253-289 | What is saved is such a blob, with the twelve bytes of every entry in their place |
| BlobLayout.PlansAreBound | main/scheduler.c:207-216 | Schedules saved under one wiring, numbering or shape are refused under any other |
| PersistControl.Nvs.SaveTargets | main/fan_state_store.c:107-131 | The committed bytes are the sealed blob of the targets, or the old blob after a failure |
| PersistControl.Nvs.LoadTargets | main/fan_state_store.c:343-370 | The loop accepts exactly valid blobs with every stored target at most 100 |
| PersistControl.Nvs.FillBody | main/scheduler.c:253-276 | Zeroing the structure and filling it entry by entry gives the specified header and cells |
| PersistControl.Nvs.SaveSchedules | main/scheduler.c:253-289 | The committed bytes are the sealed plan, or the old blob after a failure |
| PersistControl.Nvs.LoadSchedules | main/scheduler.c:191-251 | The loops rebuild exactly the plan an accepted blob holds |
| PersistControl.StoppedBytesStartNoMotion | main/fan_state_store.c:330-370 | The bytes a completed stop leaves behind come back as zero targets and the inhibit, and start no motion |
| PersistControl.ScheduleBytesSurviveReset | main/scheduler.c:191-289 | Schedules written as bytes and booted from them are the same schedules |

## Left out

- Wrap-around of generation, sequence and stop-depth counters at 2^32 is not modelled: they are natural numbers, except for the explicit saturation checks of motor_control. The supervisor's own saturation of s_stop_depth, and generation zero being skipped by the MQTT sequence and the tach fault generation, are left out with it.
- Driver calls that fail after taking partial effect: a failed GPIO, RMT, PCNT or NVS call is taken to change nothing.
- The FAILED lifecycle of motor_control and its initialization unwind; the model starts from a successful initialization with motors READY.
- nonzero_applied_since_us, error log throttling, the ramp pause flag and the telemetry request bit of throttle commands, which motor_control never sets.
- A build without the hardware interlock, where its flag is always set and nothing is driven.
- Time: the motor module's clock decides refreshes in MotorRefresh and is left open elsewhere, also in class MotorBank; waits with a timeout are steps that may give up at any moment; heartbeat and lease deadlines of the supervision loop are not modelled, only the transactions they start.
- Writer task of the two stores in place: class SaveStore performs its passes with requests arriving while it debounces; the full interleaving with callers is on values only.
- The waiting loops of save_sync, stop_all_internal of the supervisor and tach_action_task appear as steps of the transition systems, not as methods with loops.
- Persistence is assumed configured (CONFIG_RESTORE_FAN_STATE) and both safety callbacks installed; a build without them reports success without saving.
- Under the tach policies STOP_ALL and alarm-only only the monitor's own section is modelled; the fault path to the worker is the STOP_FAN one.
- Stack high-water marks, health payloads, topics, state publishing, logging and discovery.
- Wi-Fi, OTA download and transport; OTA appears only as a client of the maintenance inhibit and of the command fence.
- Command text parsing and topic matching; commands enter already typed.
- The v2 and legacy migration of the fan blob, and negative fan numbering in the blob headers.
- IEEE rounding in the capture decoder: times are real numbers; CSV reading, the expected-stream and arming checks and reporting of that script.
