/**
 * Interleaved execution of main/motor_control.c: any number of stop calls, ramp
 * ticks, requests and safe-zero proofs run against fallible RMT channels. Every
 * driver call and every critical section is one step. The wire of a channel is
 * the throttle the RMT peripheral streams, if any.
 */
module MotorRun {
  import opened Prelude
  import opened Policy
  import opened MotorCore

  /** last_dshot before the first transmission. */
  const NEVER_SENT: nat := 0xFFFF_FFFF

  /** Where the owner of a channel's io_mutex stands inside apply_motor. */
  datatype At =
    | Sample | Decide
    | CallDisable | MarkDisabled | CallWait | CallReset | ClearActive
    | Load | CallEnable | MarkEnabled | CallTransmit | MarkSent
    | CallRecover | MarkRecovered
    | Record | Give
    | Proving

  datatype Io = Free | Held(owner: TaskId, at: At, req: nat, pct: nat, ok: bool)

  datatype Channel = Channel(
    active: bool, enabled: bool, payload: nat, lastDshot: nat, wire: Option<nat>, io: Io)

  /** What a task is doing inside this module. */
  datatype Task =
    | StopWait(kind: Kind, clear: bool, rollback: bool)
    | StopEnter(kind: Kind, clear: bool, rollback: bool)
    | StopApply(kind: Kind, clear: bool, rollback: bool, k: nat,
                prev: seq<nat>, gens: seq<nat>, failed: bool)
    | StopUndo(kind: Kind, clear: bool, k: nat, prev: seq<nat>, gens: seq<nat>)
    | StopDrop(kind: Kind, clear: bool, failed: bool)
    | StopGive(kind: Kind, clear: bool, failed: bool)
    | Returned(kind: Kind, clear: bool, failed: bool, refused: bool)
    | RampApply(fan: nat, changed: bool, previous: nat, generation: nat)
    | RampUndo(fan: nat, previous: nat, generation: nat)
    | OneApply(fan: nat)
    | Proof(k: nat)

  datatype State = State(
    cfg: Config, core: Core, channels: seq<Channel>,
    stopMutex: Option<TaskId>, tasks: map<TaskId, Task>)

  datatype Step =
    | CallStop(t: TaskId, kind: Kind, clear: bool, rollback: bool)
    | TakeStopMutex(t: TaskId)
    | EnterSection(t: TaskId)
    | UndoStop(t: TaskId)
    | DropSection(t: TaskId)
    | GiveStopMutex(t: TaskId)
    | Collect(t: TaskId)
    | Tick(t: TaskId, fan: nat)
    | UndoTick(t: TaskId)
    | TakeIo(t: TaskId)
    | Io(t: TaskId, ok: bool, refresh: bool)
    | Manual(local: int, pct: nat)
    | Automatic(local: int, pct: nat)
    | Scheduled(local: int, pct: nat)
    | Restore(targets: seq<nat>)
    | StopFan(t: TaskId, local: int, clear: bool)
    | Tach(t: TaskId, local: int, inhibited: bool)
    | ReleaseMaintenance
    | TakeFaultPending
    | ProofBegin(t: TaskId)
    | ProofTake(t: TaskId)
    | ProofEnd(t: TaskId)

  // ---- apply_motor, one channel at a time ----

  /** The fan whose output this task is applying. */
  function Applying(task: Task): Option<nat> {
    match task
    case StopApply(_, _, _, k, _, _, _) => Some(k)
    case RampApply(f, _, _, _) => Some(f)
    case OneApply(f) => Some(f)
    case _ => None
  }

  /** Steps of apply_motor that touch only what io_mutex protects. */
  function DriverStep(ch: Channel, ok: bool, refresh: bool): Channel
    requires ch.io.Held?
  {
    var io := ch.io;
    var fail := ch.(io := io.(at := Record, ok := false));
    match io.at
    case Decide =>
      if 2 * io.req == ch.lastDshot && !refresh && ch.active && ch.enabled
      then ch.(io := io.(at := Record, ok := true))
      else if ch.enabled then ch.(io := io.(at := CallDisable))
      else if ch.active then ch.(io := io.(at := CallWait))
      else ch.(io := io.(at := Load))
    case CallDisable => if ok then ch.(wire := None, io := io.(at := MarkDisabled)) else fail
    case MarkDisabled =>
      ch.(enabled := false, io := io.(at := if ch.active then CallWait else Load))
    case CallWait => if ok then ch.(io := io.(at := CallReset)) else fail
    case CallReset => if ok then ch.(io := io.(at := ClearActive)) else fail
    case ClearActive => ch.(active := false, io := io.(at := Load))
    case Load => ch.(payload := io.req, io := io.(at := CallEnable))
    case CallEnable => if ok then ch.(io := io.(at := MarkEnabled)) else fail
    case MarkEnabled => ch.(enabled := true, io := io.(at := CallTransmit))
    case CallTransmit =>
      if ok then ch.(wire := Some(ch.payload), io := io.(at := MarkSent))
      else ch.(io := io.(at := CallRecover))
    case MarkSent =>
      ch.(active := true, lastDshot := 2 * io.req, io := io.(at := Record, ok := true))
    case CallRecover => if ok then ch.(io := io.(at := MarkRecovered)) else fail
    case MarkRecovered => ch.(enabled := false, io := io.(at := Record, ok := false))
    case _ => ch
  }

  /** What the caller of apply_motor does with its result. */
  function AfterApply(task: Task, n: nat, ok: bool): Option<Task> {
    match task
    case StopApply(kind, clear, rollback, k, prev, gens, failed) =>
      if !ok && rollback then Some(StopUndo(kind, clear, k, prev, gens))
      else Some(NextStopFan(task, n, failed || !ok))
    case RampApply(f, changed, previous, generation) =>
      if !ok && changed then Some(RampUndo(f, previous, generation)) else None
    case _ => None
  }

  function NextStopFan(task: Task, n: nat, failed: bool): Task
    requires task.StopApply?
  {
    if task.k + 1 < n then task.(k := task.k + 1, failed := failed)
    else StopDrop(task.kind, task.clear, failed)
  }

  /** What a step inside apply_motor does to the state under s_motor_lock. */
  function IoCore(s: State, f: nat): (c: Core)
    requires f < |s.channels| == |s.core.fans|
    ensures |c.fans| == |s.core.fans|
  {
    var io := s.channels[f].io;
    if io.Held? && io.at == Sample then SampleApply(s.cfg, s.core, f).0
    else if io.Held? && io.at == Record then RecordResult(s.cfg, s.core, f, io.ok, io.pct)
    else s.core
  }

  /** What it does to the channel. */
  function IoChannel(s: State, f: nat, ok: bool, refresh: bool): Channel
    requires f < |s.channels| == |s.core.fans| && s.channels[f].io.Held?
  {
    var ch := s.channels[f];
    match ch.io.at
    case Sample =>
      var (_, req, pct) := SampleApply(s.cfg, s.core, f);
      ch.(io := ch.io.(at := Decide, req := req, pct := pct))
    case Record => ch.(io := ch.io.(at := Give))
    case Give => ch.(io := Free)
    case _ => DriverStep(ch, ok, refresh)
  }

  /** What it does to the caller, once the mutex is given back. */
  function IoTasks(s: State, t: TaskId, f: nat): map<TaskId, Task>
    requires t in s.tasks && f < |s.channels|
  {
    var io := s.channels[f].io;
    if !io.Held? || io.at != Give then s.tasks else
    var after := AfterApply(s.tasks[t], |s.channels|, io.ok);
    if after.Some? then s.tasks[t := after.value] else s.tasks - {t}
  }

  function IoStep(s: State, t: TaskId, f: nat, ok: bool, refresh: bool): (r: State)
    requires t in s.tasks && f < |s.channels| == |s.core.fans| && s.channels[f].io.Held?
    ensures |r.channels| == |r.core.fans| == |s.channels|
  {
    s.(core := IoCore(s, f), channels := s.channels[f := IoChannel(s, f, ok, refresh)], tasks := IoTasks(s, t, f))
  }

  // ---- one step of the whole module ----

  function WithCore(s: State, c: Option<Core>): State {
    if c.Some? then s.(core := c.value) else s
  }

  predicate IsStopStep(step: Step) {
    step.CallStop? || step.TakeStopMutex? || step.EnterSection? || step.UndoStop?
    || step.DropSection? || step.GiveStopMutex? || step.Collect?
  }

  /** Steps of stop_all_internal around its applies. */
  function StopNext(s: State, step: Step): (r: State)
    requires |s.channels| == |s.core.fans|
    ensures |r.channels| == |r.core.fans| == |s.channels|
  {
    var n := |s.channels|;
    match step
    case CallStop(t, kind, clear, rollback) =>
      if t in s.tasks then s else
      var c := ClaimStop(s.core, kind);
      if c.None? then s.(tasks := s.tasks[t := Returned(kind, clear, true, true)])
      else s.(core := c.value, tasks := s.tasks[t := StopWait(kind, clear, rollback)])
    case TakeStopMutex(t) =>
      if t in s.tasks && s.tasks[t].StopWait? && s.stopMutex.None? then
        var w := s.tasks[t];
        s.(stopMutex := Some(t), tasks := s.tasks[t := StopEnter(w.kind, w.clear, w.rollback)])
      else s
    case EnterSection(t) =>
      if t in s.tasks && s.tasks[t].StopEnter? then
        var e := s.tasks[t];
        var c := EnterStop(s.core, e.kind, e.clear);
        var prev := seq(n, i requires 0 <= i < n => s.core.fans[i].current);
        var gens := seq(n, i requires 0 <= i < n => s.core.fans[i].generation + 1);
        var apply := if n > 0 then StopApply(e.kind, e.clear, e.rollback, 0, prev, gens, false)
                     else StopDrop(e.kind, e.clear, false);
        s.(core := c, tasks := s.tasks[t := apply])
      else s
    case UndoStop(t) =>
      if t in s.tasks && s.tasks[t].StopUndo? then
        var u := s.tasks[t];
        if u.k < n && u.k < |u.prev| && u.k < |u.gens| then
          var applied := StopApply(u.kind, u.clear, true, u.k, u.prev, u.gens, true);
          s.(core := Rollback(s.cfg, s.core, u.k, u.prev[u.k], u.gens[u.k]),
             tasks := s.tasks[t := NextStopFan(applied, n, true)])
        else s
      else s
    case DropSection(t) =>
      if t in s.tasks && s.tasks[t].StopDrop? then
        var d := s.tasks[t];
        s.(core := DropStop(s.core), tasks := s.tasks[t := StopGive(d.kind, d.clear, d.failed)])
      else s
    case GiveStopMutex(t) =>
      if t in s.tasks && s.tasks[t].StopGive? then
        var g := s.tasks[t];
        s.(stopMutex := None, tasks := s.tasks[t := Returned(g.kind, g.clear, g.failed, false)])
      else s
    case Collect(t) =>
      if t in s.tasks && s.tasks[t].Returned? then s.(tasks := s.tasks - {t}) else s
    case _ => s
  }

  predicate IsPlainStep(step: Step) {
    step.Manual? || step.Automatic? || step.Scheduled? || step.Restore?
    || step.ReleaseMaintenance? || step.TakeFaultPending?
  }

  /** Functions that are a single critical section. */
  function PlainNext(s: State, step: Step): (r: State)
    requires |s.channels| == |s.core.fans|
    ensures |r.channels| == |r.core.fans| == |s.channels|
  {
    match step
    case Manual(f, pct) => WithCore(s, RequestManual(s.core, f, pct))
    case Automatic(f, pct) => WithCore(s, RequestAutomatic(s.core, f, pct))
    case Scheduled(f, pct) =>
      var r := RequestScheduled(s.core, f, pct);
      if r.Some? then s.(core := r.value.0) else s
    case Restore(targets) => WithCore(s, RestoreAll(s.core, targets))
    case ReleaseMaintenance => s.(core := ClearMaintenance(s.core))
    case TakeFaultPending => s.(core := s.core.(faultPending := false))
    case _ => s
  }

  /** The ramp task, single-fan stops, applies and safe-zero proofs. */
  function FanNext(s: State, step: Step): (r: State)
    requires |s.channels| == |s.core.fans|
    ensures |r.channels| == |r.core.fans| == |s.channels|
  {
    var n := |s.channels|;
    match step
    case Tick(t, f) =>
      if t in s.tasks || f >= n then s else
      var fan := s.core.fans[f];
      var changed := fan.current != fan.target;
      var c := RampTick(s.cfg, s.core, f);
      s.(core := c,
         tasks := s.tasks[t := RampApply(f, changed, fan.current, c.fans[f].generation)])
    case UndoTick(t) =>
      if t in s.tasks && s.tasks[t].RampUndo? && s.tasks[t].fan < n then
        var u := s.tasks[t];
        s.(core := Rollback(s.cfg, s.core, u.fan, u.previous, u.generation),
           tasks := s.tasks - {t})
      else s
    case TakeIo(t) =>
      if t in s.tasks && Applying(s.tasks[t]).Some? then
        var f := Applying(s.tasks[t]).value;
        if f < n && s.channels[f].io.Free? then
          s.(channels := s.channels[f := s.channels[f].(io := Held(t, Sample, 0, 0, true))])
        else s
      else s
    case Io(t, ok, refresh) =>
      if t in s.tasks && Applying(s.tasks[t]).Some? then
        var f := Applying(s.tasks[t]).value;
        if f < n && s.channels[f].io.Held? && s.channels[f].io.owner == t
        then IoStep(s, t, f, ok, refresh) else s
      else s
    case StopFan(t, f, clear) =>
      var c := StopOne(s.core, f, clear);
      if t in s.tasks || c.None? then s
      else s.(core := c.value, tasks := s.tasks[t := OneApply(f)])
    case Tach(t, f, inhibited) =>
      var c := SetTachInhibit(s.core, f, inhibited);
      if t in s.tasks || c.None? then s
      else s.(core := c.value,
              tasks := if inhibited then s.tasks[t := OneApply(f)] else s.tasks)
    case ProofBegin(t) => if t in s.tasks then s else s.(tasks := s.tasks[t := Proof(0)])
    case ProofTake(t) =>
      if t in s.tasks && s.tasks[t].Proof? && s.tasks[t].k < n
         && s.channels[s.tasks[t].k].io.Free? then
        var k := s.tasks[t].k;
        s.(channels := s.channels[k := s.channels[k].(io := Held(t, Proving, 0, 0, true))],
           tasks := s.tasks[t := Proof(k + 1)])
      else s
    case ProofEnd(t) =>
      if t in s.tasks && s.tasks[t].Proof? then
        s.(channels := seq(n, i requires 0 <= i < n => Unproven(s.channels[i], t)),
           tasks := s.tasks - {t})
      else s
    case _ => s
  }

  function Next(s: State, step: Step): (r: State)
    requires |s.channels| == |s.core.fans|
    ensures |r.channels| == |r.core.fans| == |s.channels|
  {
    if IsStopStep(step) then StopNext(s, step)
    else if IsPlainStep(step) then PlainNext(s, step)
    else FanNext(s, step)
  }

  /** Give back a mutex the prover t holds. */
  function Unproven(ch: Channel, t: TaskId): Channel {
    if ch.io.Held? && ch.io.owner == t then ch.(io := Free) else ch
  }
}
