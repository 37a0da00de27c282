/**
 * main/safety_supervisor.c interleaved with main/motor_control.c: any number of
 * stop transactions, output enables and command guards over one recursive mutex,
 * the hardware interlock line and the motor module. A stop is one step per
 * critical section, lock operation, driver call or callback.
 */
module SupervisorRun {
  import opened Prelude
  import opened MotorCore
  import MotorRun

  datatype Action =
    | StopPlain | StopGlobal | StopCommunication | StopRmt | StopTachAll | StopVerified

  /** Motor stops made while holding the mutex: the first, and the conditional ones. */
  datatype Which = First | Verify | Fallback | Late

  datatype Stage = Want | Call | Wait | Give

  datatype Phase =
    | WantLock | Drive | Unlock
    | Section(which: Which, stage: Stage)
    | Auto | Persist | Release | Finish

  /**
   * Which calls returned ESP_OK so far; fallback is None until it is needed, and
   * refused says that a durable stop was turned away by the motor module unentered.
   */
  datatype Outcome = Outcome(
    interlock: bool, maintenance: bool, motor: bool, refused: bool, automatic: bool,
    fallback: Option<bool>, persistence: bool)

  datatype StopJob = StopJob(action: Action, clear: bool, phase: Phase, out: Outcome)

  datatype Enabling = EWant | ECheck | EAsk(gen: nat) | ERecheck(gen: nat) | EDrive | EConfirm | EUndo | EGive

  datatype Op = Idle | Stopping(stop: StopJob) | Enable(at: Enabling) | Checking

  /** A task: how many output-command guards it holds, and what it is doing. */
  datatype Job = Job(guards: nat, op: Op)

  datatype State = State(
    depth: nat, gen: nat, output: bool, mutex: Option<TaskId>,
    jobs: map<TaskId, Job>, motor: MotorRun.State)

  datatype Step =
    | Claim(t: TaskId, action: Action, clear: bool)
    | BeginEnable(t: TaskId)
    | BeginGuard(t: TaskId)
    | EndGuard(t: TaskId)
    | Advance(t: TaskId, ok: bool)
    | Motor(step: MotorRun.Step)

  predicate WellFormed(s: State) { |s.motor.channels| == |s.motor.core.fans| }

  // ---- stop transactions ----

  /** The action latches its inhibit for good; the others claim maintenance first. */
  predicate Durable(action: Action) {
    action.StopGlobal? || action.StopCommunication? || action.StopRmt? || action.StopTachAll?
  }

  function ActionKind(action: Action): Kind {
    match action
    case StopGlobal => Global
    case StopCommunication => Communication
    case StopRmt => Rmt
    case StopTachAll => TachAll
    case StopPlain => Plain
    case StopVerified => Plain
  }

  function SectionKind(action: Action, which: Which): Kind {
    match which
    case First => if Durable(action) then ActionKind(action) else Maintenance
    case Verify => ActionKind(action)
    case Fallback => Global
    case Late => Global
  }

  function SectionClear(stop: StopJob, which: Which): bool { stop.clear || which == Late }

  predicate FallbackOk(out: Outcome) { out.fallback != Some(false) }

  predicate SafetyOk(out: Outcome) {
    out.interlock && out.maintenance && out.motor && out.automatic
  }

  /** The stop as a whole returns ESP_OK. */
  predicate ResultOk(out: Outcome) { SafetyOk(out) && FallbackOk(out) && out.persistence }

  function Recorded(stop: StopJob, which: Which, ok: bool, refused: bool): Outcome {
    match which
    case First =>
      if Durable(stop.action) then stop.out.(motor := ok, refused := refused) else stop.out.(maintenance := ok)
    case Verify => stop.out.(motor := ok)
    case Fallback => stop.out.(fallback := Some(ok))
    case Late => stop.out.(fallback := Some(ok))
  }

  function AfterPersist(stop: StopJob): Phase {
    if stop.action.StopPlain? && ResultOk(stop.out) then Release else Finish
  }

  function AfterFallback(stop: StopJob): Phase {
    if stop.clear then Persist else AfterPersist(stop)
  }

  function AfterVerify(stop: StopJob): Phase {
    if !Durable(stop.action) && !SafetyOk(stop.out) then Section(Fallback, Want)
    else AfterFallback(stop)
  }

  function AfterAuto(stop: StopJob): Phase {
    if stop.action.StopVerified? && stop.out.maintenance && stop.out.automatic
    then Section(Verify, Want) else AfterVerify(stop)
  }

  function AfterSection(stop: StopJob, which: Which): Phase {
    match which
    case First => Auto
    case Verify => AfterVerify(stop)
    case Fallback => AfterFallback(stop)
    case Late => AfterPersist(stop)
  }

  function AfterPersistence(stop: StopJob): Phase {
    if !Durable(stop.action) && !stop.out.persistence && FallbackOk(stop.out)
    then Section(Late, Want) else AfterPersist(stop)
  }

  // ---- locking ----

  predicate Available(s: State, t: TaskId) { s.mutex == None || s.mutex == Some(t) }

  /** Giving the recursive mutex back frees it unless an outer guard still holds it. */
  function MutexAfter(t: TaskId, guards: nat): Option<TaskId> {
    if guards > 0 then Some(t) else None
  }

  function WithOp(s: State, t: TaskId, op: Op): State
    requires t in s.jobs
  {
    s.(jobs := s.jobs[t := s.jobs[t].(op := op)])
  }

  function Locked(s: State, t: TaskId, op: Op): State
    requires t in s.jobs
  {
    if Available(s, t) then WithOp(s, t, op).(mutex := Some(t)) else s
  }

  function Unlocked(s: State, t: TaskId, op: Op): State
    requires t in s.jobs
  {
    WithOp(s, t, op).(mutex := MutexAfter(t, s.jobs[t].guards))
  }

  // ---- one step of a stop ----

  function SectionAfter(m: MotorRun.State, t: TaskId, stop: StopJob): StopJob
    requires stop.phase.Section?
  {
    var which := stop.phase.which;
    match stop.phase.stage
    case Want => stop.(phase := Section(which, Call))
    case Call => stop.(phase := Section(which, Wait))
    case Wait =>
      if t in m.tasks && m.tasks[t].Returned?
      then stop.(phase := Section(which, Give),
                     out := Recorded(stop, which, !m.tasks[t].failed, m.tasks[t].refused))
      else stop
    case Give => stop.(phase := AfterSection(stop, which))
  }

  /** Where the transaction stands after its next step; ok is what the call returned. */
  function StopAfter(m: MotorRun.State, t: TaskId, stop: StopJob, ok: bool): StopJob {
    match stop.phase
    case WantLock => stop.(phase := Drive)
    case Drive => stop.(phase := Unlock, out := stop.out.(interlock := ok))
    case Unlock => stop.(phase := Section(First, Want))
    case Section(_, _) => SectionAfter(m, t, stop)
    case Auto =>
      var told := stop.(out := stop.out.(automatic := ok));
      told.(phase := AfterAuto(told))
    case Persist =>
      var saved := stop.(out := stop.out.(persistence := ok));
      saved.(phase := AfterPersistence(saved))
    case Release => stop.(phase := Finish)
    case Finish => stop
  }

  predicate Takes(phase: Phase) { phase.WantLock? || (phase.Section? && phase.stage.Want?) }

  predicate Gives(phase: Phase) { phase.Unlock? || (phase.Section? && phase.stage.Give?) }

  function StopStep(s: State, t: TaskId, stop: StopJob, ok: bool): State
    requires t in s.jobs
  {
    var next := Stopping(StopAfter(s.motor, t, stop, ok));
    if stop.phase.Finish? then WithOp(s, t, Idle).(depth := if s.depth > 0 then s.depth - 1 else 0)
    else if Takes(stop.phase) then Locked(s, t, next)
    else if Gives(stop.phase) then Unlocked(s, t, next)
    else if stop.phase.Drive? then WithOp(s, t, next).(output := if ok then false else s.output)
    else WithOp(s, t, next)
  }

  // ---- one step of an enable attempt ----

  function EnableStep(s: State, t: TaskId, at: Enabling, ok: bool): State
    requires t in s.jobs
  {
    match at
    case EWant => Locked(s, t, Enable(ECheck))
    case ECheck => WithOp(s, t, Enable(if s.depth == 0 then EAsk(s.gen) else EGive))
    case EAsk(gen) =>
      WithOp(s, t, Enable(if OutputAllowed(s.motor.core) then ERecheck(gen) else EGive))
    case ERecheck(gen) =>
      WithOp(s, t, Enable(if s.depth == 0 && gen == s.gen then EDrive else EGive))
    case EDrive =>
      WithOp(s, t, Enable(if ok then EConfirm else EGive))
      .(output := if ok then true else s.output)
    case EConfirm => WithOp(s, t, Enable(if OutputAllowed(s.motor.core) then EGive else EUndo))
    case EUndo => WithOp(s, t, Enable(EGive)).(output := if ok then false else s.output)
    case EGive => Unlocked(s, t, Idle)
  }

  function GuardStep(s: State, t: TaskId): State
    requires t in s.jobs
  {
    if s.depth == 0 then s.(jobs := s.jobs[t := Job(s.jobs[t].guards + 1, Idle)])
    else Unlocked(s, t, Idle)
  }

  function JobOf(s: State, t: TaskId): Job {
    if t in s.jobs then s.jobs[t] else Job(0, Idle)
  }

  /** Motor steps of tasks this module is not driving through a stop. */
  predicate MotorStepAllowed(s: State, step: MotorRun.Step) {
    match step
    case CallStop(t, _, _, _) => JobOf(s, t).op.Idle?
    case Collect(t) => JobOf(s, t).op.Idle?
    case Tick(t, _) => JobOf(s, t).op.Idle?
    case StopFan(t, _, _) => JobOf(s, t).op.Idle?
    case Tach(t, _, _) => JobOf(s, t).op.Idle?
    case ProofBegin(t) => JobOf(s, t).op.Idle?
    case _ => true
  }

  const ALL_OK := Outcome(true, true, true, false, true, None, true)

  /** This module's own part of a step. */
  function Control(s: State, step: Step): (r: State)
    ensures r.motor == s.motor
  {
    match step
    case Claim(t, action, clear) =>
      if !JobOf(s, t).op.Idle? || t in s.motor.tasks then s else
      s.(depth := s.depth + 1, gen := s.gen + 1,
         jobs := s.jobs[t := JobOf(s, t).(op := Stopping(StopJob(action, clear, WantLock, ALL_OK)))])
    case BeginEnable(t) =>
      if !JobOf(s, t).op.Idle? then s
      else s.(jobs := s.jobs[t := JobOf(s, t).(op := Enable(EWant))])
    case BeginGuard(t) =>
      if !JobOf(s, t).op.Idle? || !Available(s, t) then s
      else s.(mutex := Some(t), jobs := s.jobs[t := JobOf(s, t).(op := Checking)])
    case EndGuard(t) =>
      if t !in s.jobs || !s.jobs[t].op.Idle? || s.jobs[t].guards == 0 then s
      else s.(mutex := MutexAfter(t, s.jobs[t].guards - 1),
              jobs := s.jobs[t := Job(s.jobs[t].guards - 1, Idle)])
    case Advance(t, ok) =>
      if t !in s.jobs then s else
      (match s.jobs[t].op
       case Idle => s
       case Stopping(stop) => StopStep(s, t, stop, ok)
       case Enable(at) => EnableStep(s, t, at, ok)
       case Checking => GuardStep(s, t))
    case Motor(_) => s
  }

  /** The motor module's part: at most one of its own steps. */
  function MotorPart(s: State, step: Step): Option<MotorRun.Step> {
    match step
    case Motor(m) => if MotorStepAllowed(s, m) then Some(m) else None
    case Advance(t, _) =>
      if t in s.jobs && s.jobs[t].op.Stopping? then StopMotorPart(s.motor, t, s.jobs[t].op.stop) else None
    case _ => None
  }

  /** A section calls its motor stop and collects the result; the release is a plain call. */
  function StopMotorPart(m: MotorRun.State, t: TaskId, stop: StopJob): Option<MotorRun.Step> {
    match stop.phase
    case Release => Some(MotorRun.ReleaseMaintenance)
    case Section(which, stage) =>
      (match stage
       case Call => Some(MotorRun.CallStop(t, SectionKind(stop.action, which),
                                           SectionClear(stop, which), which == Verify))
       case Wait => if t in m.tasks && m.tasks[t].Returned? then Some(MotorRun.Collect(t)) else None
       case _ => None)
    case _ => None
  }

  function MotorAfter(m: MotorRun.State, step: Option<MotorRun.Step>): (r: MotorRun.State)
    ensures |m.channels| == |m.core.fans| ==> |r.channels| == |r.core.fans|
  {
    if step.None? || |m.channels| != |m.core.fans| then m else MotorRun.Next(m, step.value)
  }

  function Next(s: State, step: Step): State {
    Control(s, step).(motor := MotorAfter(s.motor, MotorPart(s, step)))
  }
}
