/**
 * Supervisor, motors, scheduler and the serialized tach actions in one transition
 * system: who changes a manual target, who takes a schedule's slot away, and in
 * which order. The wiring is that of main/app_main.c.
 */
module SystemRun {
  import opened Prelude
  import MotorCore
  import MotorRun
  import Sup = SupervisorRun
  import Sched = SchedulerRun
  import SchedulerCore

  /** What the owner of the tach action mutex is doing. */
  datatype Stage =
    | Holding
    | Inhibiting(fan: nat) | Inhibited(fan: nat) | Cancelling(fan: nat) | Persisting
    | Escalate | StopRunning | Settled

  datatype Owner = Nobody | Held(t: TaskId, stage: Stage)

  /**
   * The last four flags record history: a stop transaction has returned, a START
   * was requested, targets were restored after that, an automatic inhibit timed out.
   */
  datatype State = State(
    sup: Sup.State, sched: Sched.State, tach: Owner,
    finished: bool, started: bool, late: bool, timedOut: bool)

  datatype Step =
    | SupStep(step: Sup.Step)
    | AutoInhibit(t: TaskId, ok: bool)
    | AutoTimeout(t: TaskId)
    | SchedStep(op: Sched.Step)
    | Call(t: TaskId)
    | RestoreTargets(targets: seq<nat>)
    | ReleaseOta
    | TachTake(t: TaskId)
    | TachInhibit(local: int)
    | TachInhibited(ok: bool)
    | TachCancel(timeout: bool)
    | TachCancelled
    | TachPersisted(ok: bool)
    | TachStop
    | TachStopped(ok: bool)
    | TachClear(local: int)
    | TachGive

  function Core(s: State): MotorCore.Core { s.sup.motor.core }

  function WithMotor(s: State, step: MotorRun.Step): State {
    s.(sup := Sup.Next(s.sup, Sup.Motor(step)))
  }

  /** The task is inside the scheduler or serialized with tach actions. */
  predicate Busy(s: State, t: TaskId) {
    t in s.sched.jobs || (s.tach.Held? && s.tach.t == t)
  }

  predicate Resting(s: State, t: TaskId) {
    !Busy(s, t) && Sup.JobOf(s.sup, t).op.Idle? && t !in s.sup.motor.tasks
  }

  /** Motor steps nobody else here is responsible for; the ramp task may latch globally. */
  predicate MotorStepFree(s: State, step: MotorRun.Step) {
    match step
    case Manual(_, _) => false
    case Automatic(_, _) => false
    case Scheduled(_, _) => false
    case Restore(_) => false
    case StopFan(_, _, _) => false
    case Tach(_, _, _) => false
    case ReleaseMaintenance => false
    case CallStop(t, kind, _, _) => kind == MotorCore.Global && !Busy(s, t)
    case Collect(t) => !Busy(s, t)
    case Tick(t, _) => !Busy(s, t)
    case ProofBegin(t) => !Busy(s, t)
    case _ => true
  }

  predicate AtAuto(s: Sup.State, t: TaskId) {
    t in s.jobs && s.jobs[t].op.Stopping? && s.jobs[t].op.stop.phase.Auto?
  }

  predicate AtFinish(s: Sup.State, t: TaskId) {
    t in s.jobs && s.jobs[t].op.Stopping? && s.jobs[t].op.stop.phase.Finish?
  }

  predicate SupStepFree(s: State, step: Sup.Step) {
    match step
    case Motor(m) => MotorStepFree(s, m)
    case Claim(t, action, _) => !Busy(s, t) && !action.StopTachAll?
    case BeginEnable(t) => !Busy(s, t)
    case BeginGuard(t) => !Busy(s, t)
    case EndGuard(t) => !Busy(s, t)
    case Advance(t, _) => !AtAuto(s.sup, t)
  }

  predicate HoldsGuard(s: Sup.State, t: TaskId) {
    t in s.jobs && s.jobs[t].guards > 0 && s.jobs[t].op.Idle?
  }

  /** Manual targets come from a command that holds the output guard. */
  predicate SchedStepFree(s: State, step: Sched.Step) {
    match step
    case BeginEnd(t, _, _) => Resting(s, t)
    case BeginStart(t, _, _) => Resting(s, t)
    case BeginManual(t, _, _) => !Busy(s, t) && HoldsGuard(s.sup, t)
    case BeginSet(t, _, _, _, _, _) => Resting(s, t)
    case BeginDisable(t, _, _) => Resting(s, t)
    case BeginCancel(_, _) => false
    case BeginOverride(t, _) => Resting(s, t)
    case Advance(t, _, _) => !(s.tach.Held? && s.tach.t == t)
    case Callback(_, _, _) => false
    case InhibitAll => false
  }

  /** scheduler_apply_target_callback: which motor request serves which scheduler request. */
  function MotorRequest(request: Sched.Request): MotorRun.Step {
    match request
    case Manual(f, pct) => MotorRun.Manual(f, pct)
    case Start(f, pct) => MotorRun.Scheduled(f, pct)
    case Restore(f, pct) => MotorRun.Automatic(f, pct)
  }

  /** Acceptance, and the manual target reported back. */
  function Answer(c: MotorCore.Core, request: Sched.Request): (bool, nat) {
    match request
    case Manual(f, pct) => (MotorCore.RequestManual(c, f, pct).Some?, pct)
    case Start(f, pct) =>
      var r := MotorCore.RequestScheduled(c, f, pct);
      if r.Some? then (true, r.value.1) else (false, 0)
    case Restore(f, pct) => (MotorCore.RequestAutomatic(c, f, pct).Some?, 0)
  }

  function CallNext(s: State, t: TaskId, request: Sched.Request): State {
    var (accepted, manual) := Answer(Core(s), request);
    WithMotor(s, MotorRequest(request)).(
      sched := Sched.Next(s.sched, Sched.Callback(t, accepted, manual)),
      started := s.started || request.Start?)
  }

  function TachNext(s: State, step: Step): State
    requires s.tach.Held?
  {
    var t, stage := s.tach.t, s.tach.stage;
    match step
    case TachInhibit(f) =>
      if stage.Holding? && 0 <= f < |Core(s).fans| then
        WithMotor(s, MotorRun.Tach(t, f, true)).(tach := Held(t, Inhibiting(f))) else s
    case TachInhibited(ok) =>
      if stage.Inhibiting? && t !in s.sup.motor.tasks
      then s.(tach := Held(t, if ok then Inhibited(stage.fan) else Escalate)) else s
    case TachCancel(timeout) =>
      if !stage.Inhibited? then s
      else if Sched.Reservable(s.sched, t, stage.fan) then
        s.(sched := Sched.Next(s.sched, Sched.BeginCancel(t, stage.fan)), tach := Held(t, Cancelling(stage.fan)))
      else if timeout then s.(tach := Held(t, Escalate)) else s
    case TachCancelled =>
      if stage.Cancelling? then
        s.(sched := Sched.Next(s.sched, Sched.Advance(t, 0, false)), tach := Held(t, Persisting)) else s
    case TachPersisted(ok) =>
      if stage.Persisting? then s.(tach := Held(t, if ok then Settled else Escalate)) else s
    case TachStop =>
      if (stage.Holding? || stage.Escalate?) && t !in s.sup.motor.tasks && Sup.JobOf(s.sup, t).op.Idle? then
        s.(sup := Sup.Next(s.sup, Sup.Claim(t, if stage.Holding? then Sup.StopTachAll else Sup.StopGlobal, true)),
           tach := Held(t, StopRunning))
      else s
    case TachStopped(ok) =>
      if stage.StopRunning? && Sup.JobOf(s.sup, t).op.Idle?
      then s.(tach := Held(t, if ok then Settled else Escalate)) else s
    case TachClear(f) =>
      if stage.Holding? && 0 <= f < |Core(s).fans| then
        WithMotor(s, MotorRun.Tach(t, f, false)).(tach := Held(t, Settled)) else s
    case TachGive => if stage.Holding? || stage.Settled? then s.(tach := Nobody) else s
    case _ => s
  }

  function Next(s: State, step: Step): State {
    match step
    case SupStep(step) =>
      if SupStepFree(s, step) then
        s.(sup := Sup.Next(s.sup, step),
           finished := s.finished || (step.Advance? && AtFinish(s.sup, step.t)))
      else s
    case AutoInhibit(t, ok) =>
      if AtAuto(s.sup, t) && SchedulerCore.NothingPending(s.sched.sched)
      then s.(sup := Sup.Next(s.sup, Sup.Advance(t, ok)), sched := Sched.Next(s.sched, Sched.InhibitAll))
      else s
    case AutoTimeout(t) =>
      if AtAuto(s.sup, t) then s.(sup := Sup.Next(s.sup, Sup.Advance(t, false)), timedOut := true) else s
    case SchedStep(op) => if SchedStepFree(s, op) then s.(sched := Sched.Next(s.sched, op)) else s
    case Call(t) =>
      if t in s.sched.jobs && Sched.RequestOf(s.sched.jobs[t]).Some?
      then CallNext(s, t, Sched.RequestOf(s.sched.jobs[t]).value) else s
    case RestoreTargets(targets) => WithMotor(s, MotorRun.Restore(targets)).(late := s.late || s.started)
    case ReleaseOta => if s.finished then WithMotor(s, MotorRun.ReleaseMaintenance) else s
    case TachTake(t) => if s.tach.Nobody? && Resting(s, t) then s.(tach := Held(t, Holding)) else s
    case _ => if s.tach.Held? then TachNext(s, step) else s
  }
}
