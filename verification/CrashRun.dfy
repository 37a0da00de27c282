/**
 * Stop transactions together with the two NVS writers they wait for. The automatic
 * inhibit of a stop is scheduler_try_inhibit_all followed by scheduler_save_sync, its
 * persistence request is fan_state_store_save_sync (main/app_main.c wires both). Motor
 * and scheduler answers are left arbitrary, which only adds runs.
 */
module CrashRun {
  import opened Prelude
  import MotorCore
  import MotorSafety
  import Sup = SupervisorRun
  import SupervisorSafety
  import SchedulerCore
  import Sched = SchedulerRun
  import W = SaveWriter
  import SaveWriterSafety

  /** What a schedule blob holds of one entry, and of the whole scheduler. */
  datatype SavedEntry = SavedEntry(enabled: bool, interval: nat, duration: nat, target: nat)

  datatype Plan = Plan(inhibited: bool, entries: seq<seq<SavedEntry>>)

  function Strip(entry: SchedulerCore.Entry): SavedEntry {
    SavedEntry(entry.enabled, entry.interval, entry.duration, entry.target)
  }

  function StripFan(fan: SchedulerCore.Fan): seq<SavedEntry> {
    seq(|fan.entries|, i requires 0 <= i < |fan.entries| => Strip(fan.entries[i]))
  }

  function PlanOf(s: SchedulerCore.Sched): Plan {
    Plan(s.inhibited, seq(|s.fans|, f requires 0 <= f < |s.fans| => StripFan(s.fans[f])))
  }

  /** The snapshot callback of the fan store reads manual targets. */
  function Manuals(c: MotorCore.Core): (m: seq<nat>)
    ensures |m| == |c.fans|
  {
    seq(|c.fans|, i requires 0 <= i < |c.fans| => c.fans[i].manual)
  }

  datatype State = State(sup: Sup.State, sched: Sched.State, fans: W.State<nat>, plans: W.State<Plan>)

  datatype Step =
    | Control(step: Sup.Step)
    | Schedule(op: Sched.Step)
    | FanStore(save: W.Step<nat>)
    | PlanStore(write: W.Step<Plan>)
    | AutoLatch(t: TaskId, admitted: bool)
    | AutoReturn(t: TaskId)
    | AutoTimeout(t: TaskId)
    | PersistCall(t: TaskId, admitted: bool)
    | PersistReturn(t: TaskId)

  predicate StopsNow(s: Sup.State, t: TaskId) { t in s.jobs && s.jobs[t].op.Stopping? }

  predicate At(s: Sup.State, t: TaskId, phase: Sup.Phase) {
    StopsNow(s, t) && s.jobs[t].op.stop.phase == phase
  }

  predicate WellFormed(s: State) { W.WellFormed(s.fans) && W.WellFormed(s.plans) }

  /** The writers see every change of the live data. */
  function Published(s: State): State
    requires WellFormed(s)
  {
    s.(fans := W.Next(s.fans, W.Edit(0, Manuals(s.sup.motor.core))),
       plans := W.Next(s.plans, W.Edit(0, [PlanOf(s.sched.sched)])))
  }

  predicate ControlFree(s: State, step: Sup.Step) {
    match step
    case Claim(t, _, _) => t !in s.fans.callers && t !in s.plans.callers
    case Advance(t, _) => !At(s.sup, t, Sup.Auto) && !At(s.sup, t, Sup.Persist)
    case _ => true
  }

  predicate FanStoreFree(s: State, step: W.Step<nat>) {
    match step
    case Edit(_, _) => false
    case Enter(t, _) => !StopsNow(s.sup, t)
    case Leave(t) => !StopsNow(s.sup, t)
    case _ => true
  }

  predicate PlanStoreFree(step: W.Step<Plan>) { step.Notify? || step.CallerStep? || step.WriterStep? }

  function Next(s: State, step: Step): State
    requires WellFormed(s)
  {
    match step
    case Control(step) =>
      if ControlFree(s, step) then Published(s.(sup := Sup.Next(s.sup, step))) else s
    case Schedule(op) =>
      if op.InhibitAll? then s else Published(s.(sched := Sched.Next(s.sched, op)))
    case FanStore(save) => if FanStoreFree(s, save) then s.(fans := W.Next(s.fans, save)) else s
    case PlanStore(write) => if PlanStoreFree(write) then s.(plans := W.Next(s.plans, write)) else s
    case AutoLatch(t, admitted) =>
      if At(s.sup, t, Sup.Auto) && t !in s.plans.callers && SchedulerCore.NothingPending(s.sched.sched) then
        var latched := Published(s.(sched := Sched.Next(s.sched, Sched.InhibitAll)));
        latched.(plans := W.Next(latched.plans, W.Enter(t, admitted)))
      else s
    case AutoReturn(t) =>
      if At(s.sup, t, Sup.Auto) && t in s.plans.callers && s.plans.callers[t].Done? then
        var ok := s.plans.callers[t].ok;
        Published(s.(sup := Sup.Next(s.sup, Sup.Advance(t, ok)), plans := W.Next(s.plans, W.Leave(t))))
      else s
    case AutoTimeout(t) =>
      if At(s.sup, t, Sup.Auto) && t !in s.plans.callers
      then Published(s.(sup := Sup.Next(s.sup, Sup.Advance(t, false)))) else s
    case PersistCall(t, admitted) =>
      if At(s.sup, t, Sup.Persist) && t !in s.fans.callers
      then s.(fans := W.Next(s.fans, W.Enter(t, admitted))) else s
    case PersistReturn(t) =>
      if At(s.sup, t, Sup.Persist) && t in s.fans.callers && s.fans.callers[t].Done? then
        var ok := s.fans.callers[t].ok;
        Published(s.(sup := Sup.Next(s.sup, Sup.Advance(t, ok)), fans := W.Next(s.fans, W.Leave(t))))
      else s
  }

  function Run(s: State, steps: seq<Step>): State
    requires WellFormed(s)
    decreases |steps|
  {
    if steps == [] || !WellFormed(Next(s, steps[0])) then s else Run(Next(s, steps[0]), steps[1..])
  }
}
