/** What callers of the motor stop functions may rely on once a stop has returned. */
module MotorLatch {
  import opened Prelude
  import opened MotorCore
  import opened MotorRun
  import opened MotorSafety

  /** An inhibit that nothing lifts before the next reset. */
  predicate Shut(c: Core) { c.global || c.rmt }

  /** Shut, and no manual target is left to restore. */
  predicate ShutCleared(c: Core) { Shut(c) && AllManualZero(c) }

  predicate Latches(c: Core, kind: Kind) {
    match kind
    case Global => c.global
    case Rmt => c.rmt
    case _ => true
  }

  predicate IsStop(task: Task) { InStop(task) || HoldsStop(task) || task.Returned? }

  /** The stop has latched its inhibit and cleared the targets it was asked to clear. */
  predicate HasEntered(task: Task) {
    task.StopApply? || task.StopUndo? || task.StopDrop? || task.StopGive?
    || (task.Returned? && !task.refused)
  }

  predicate LatchValid(c: Core, task: Task) {
    && (HasEntered(task) && (task.kind == Global || task.kind == Rmt) ==>
          Latches(c, task.kind) && (task.clear ==> AllManualZero(c)))
    && (task.Returned? && task.refused ==> task.failed)
  }

  ghost predicate Latched(s: State) {
    |s.channels| == |s.core.fans| && forall t :: t in s.tasks ==> LatchValid(s.core, s.tasks[t])
  }

  /** The core's side of a step never unlatches the global or the RMT inhibit. */
  predicate KeepsLatch(c: Core, c': Core) {
    (c.global ==> c'.global) && (c.rmt ==> c'.rmt) && (ShutCleared(c) ==> ShutCleared(c'))
  }

  /** Steps that start a task in this module, or take its result away. */
  function Starts(step: Step): Option<TaskId> {
    match step
    case CallStop(t, _, _, _) => Some(t)
    case Tick(t, _) => Some(t)
    case StopFan(t, _, _) => Some(t)
    case Tach(t, _, _) => Some(t)
    case ProofBegin(t) => Some(t)
    case Collect(t) => Some(t)
    case _ => None
  }

  lemma IoKeepsLatch(s: State, t: TaskId, f: nat, ok: bool, refresh: bool)
    requires Latched(s) && t in s.tasks && f < |s.channels| && s.channels[f].io.Held?
    requires Applying(s.tasks[t]).Some?
    ensures var s' := IoStep(s, t, f, ok, refresh);
            KeepsLatch(s.core, s'.core) && Latched(s')
    ensures var s' := IoStep(s, t, f, ok, refresh);
            && (forall u :: u in s'.tasks ==> u in s.tasks)
            && (IsStop(s.tasks[t]) ==>
                  && t in s'.tasks && IsStop(s'.tasks[t])
                  && s'.tasks[t].kind == s.tasks[t].kind && s'.tasks[t].clear == s.tasks[t].clear)
            && (forall u :: u in s.tasks && u != t ==> u in s'.tasks && s'.tasks[u] == s.tasks[u])
  {
    assert LatchValid(s.core, s.tasks[t]);
    var s' := IoStep(s, t, f, ok, refresh);
    IoKeepsCore(s, f);
    forall u | u in s'.tasks ensures LatchValid(s'.core, s'.tasks[u]) {
      if u != t { assert LatchValid(s.core, s.tasks[u]); }
    }
  }

  lemma IoKeepsCore(s: State, f: nat)
    requires f < |s.channels| == |s.core.fans|
    ensures KeepsLatch(s.core, IoCore(s, f))
  {
  }

  /** No section of the core takes back a latch or a cleared target. */
  lemma RequestsKeepLatch(c: Core, f: int, pct: nat)
    ensures RequestManual(c, f, pct).Some? ==> KeepsLatch(c, RequestManual(c, f, pct).value)
    ensures RequestAutomatic(c, f, pct).Some? ==> KeepsLatch(c, RequestAutomatic(c, f, pct).value)
    ensures RequestScheduled(c, f, pct).Some? ==> KeepsLatch(c, RequestScheduled(c, f, pct).value.0)
  {
  }

  lemma StopsKeepLatch(c: Core, f: int, kind: Kind, flag: bool)
    ensures ClaimStop(c, kind).Some? ==> KeepsLatch(c, ClaimStop(c, kind).value)
    ensures KeepsLatch(c, EnterStop(c, kind, flag)) && KeepsLatch(c, DropStop(c))
    ensures StopOne(c, f, flag).Some? ==> KeepsLatch(c, StopOne(c, f, flag).value)
    ensures KeepsLatch(c, ClearMaintenance(c))
  {
  }

  lemma FanSectionsKeepLatch(cfg: Config, c: Core, f: int, flag: bool)
    ensures SetTachInhibit(c, f, flag).Some? ==> KeepsLatch(c, SetTachInhibit(c, f, flag).value)
    ensures 0 <= f < |c.fans| ==> KeepsLatch(c, RampTick(cfg, c, f))
  {
  }

  lemma RestoreKeepsLatch(c: Core, targets: seq<nat>)
    ensures RestoreAll(c, targets).Some? ==> KeepsLatch(c, RestoreAll(c, targets).value)
  {
  }

  /** Entries of other tasks stay; a stop stays a stop of its kind until collected. */
  predicate KeepsTasks(s: State, s': State, step: Step) {
    && (forall u :: u in s'.tasks && u !in s.tasks ==> Starts(step) == Some(u))
    && (forall u :: u in s.tasks && IsStop(s.tasks[u]) && Starts(step) != Some(u) ==>
          && u in s'.tasks && IsStop(s'.tasks[u])
          && s'.tasks[u].kind == s.tasks[u].kind && s'.tasks[u].clear == s.tasks[u].clear)
  }

  lemma StopStepKeepsCore(s: State, step: Step)
    requires Latched(s) && IsStopStep(step)
    ensures KeepsLatch(s.core, Next(s, step).core)
  {
    if step.t in s.tasks {
      var task := s.tasks[step.t];
      if step.EnterSection? && task.StopEnter? { StopsKeepLatch(s.core, 0, task.kind, task.clear); }
    } else if step.CallStop? {
      StopsKeepLatch(s.core, 0, step.kind, false);
    }
  }

  lemma StopStepKeepsTasks(s: State, step: Step)
    requires |s.channels| == |s.core.fans| && IsStopStep(step)
    ensures KeepsTasks(s, Next(s, step), step)
    ensures forall u :: u in Next(s, step).tasks && u != step.t ==>
              u in s.tasks && Next(s, step).tasks[u] == s.tasks[u]
  {
  }

  lemma StopStepKeepsLatch(s: State, step: Step)
    requires Latched(s) && IsStopStep(step)
    ensures KeepsLatch(s.core, Next(s, step).core) && Latched(Next(s, step))
    ensures KeepsTasks(s, Next(s, step), step)
  {
    StopStepKeepsCore(s, step);
    StopStepKeepsTasks(s, step);
    if step.t in s.tasks { assert LatchValid(s.core, s.tasks[step.t]); }
    LatchFrame(s, Next(s, step), step.t);
  }

  lemma LatchFrame(s: State, s': State, t: TaskId)
    requires Latched(s) && |s'.channels| == |s'.core.fans| && KeepsLatch(s.core, s'.core)
    requires forall u :: u in s'.tasks && u != t ==> u in s.tasks && s'.tasks[u] == s.tasks[u]
    requires t in s'.tasks ==> LatchValid(s'.core, s'.tasks[t])
    ensures Latched(s')
  {
    forall u | u in s'.tasks ensures LatchValid(s'.core, s'.tasks[u]) {
      if u != t { assert LatchValid(s.core, s.tasks[u]); }
    }
  }

  predicate IsFanStep(step: Step) {
    step.Tick? || step.UndoTick? || step.StopFan? || step.Tach? || step.ProofBegin?
  }

  lemma FanStepKeepsCore(s: State, step: Step)
    requires |s.channels| == |s.core.fans| && IsFanStep(step)
    ensures KeepsLatch(s.core, Next(s, step).core)
  {
    if step.StopFan? {
      StopsKeepLatch(s.core, step.local, Plain, step.clear);
    } else if step.Tach? {
      FanSectionsKeepLatch(s.cfg, s.core, step.local, step.inhibited);
    } else if step.Tick? {
      FanSectionsKeepLatch(s.cfg, s.core, step.fan, false);
    }
  }

  lemma FanStepKeepsLatch(s: State, step: Step)
    requires Latched(s) && IsFanStep(step)
    ensures KeepsLatch(s.core, Next(s, step).core) && Latched(Next(s, step))
    ensures KeepsTasks(s, Next(s, step), step)
  {
    FanStepKeepsCore(s, step);
    if step.t in s.tasks { assert LatchValid(s.core, s.tasks[step.t]); }
    LatchFrame(s, Next(s, step), step.t);
  }

  lemma PlainStepKeepsLatch(s: State, step: Step)
    requires Latched(s) && IsPlainStep(step)
    ensures KeepsLatch(s.core, Next(s, step).core) && Latched(Next(s, step))
    ensures KeepsTasks(s, Next(s, step), step)
  {
    if step.Restore? {
      RestoreKeepsLatch(s.core, step.targets);
    } else if IsRequest(step) {
      RequestsKeepLatch(s.core, step.local, step.pct);
    } else {
      StopsKeepLatch(s.core, 0, Plain, false);
    }
    var t: TaskId := 0;
    if t in s.tasks { assert LatchValid(s.core, s.tasks[t]); }
    LatchFrame(s, Next(s, step), t);
  }

  lemma LockStepKeepsLatch(s: State, step: Step)
    requires Latched(s) && (step.TakeIo? || step.ProofTake? || step.ProofEnd?)
    ensures KeepsLatch(s.core, Next(s, step).core) && Latched(Next(s, step))
    ensures KeepsTasks(s, Next(s, step), step)
  {
    LatchFrame(s, Next(s, step), step.t);
  }

  /** Every step keeps the latches, and the identity of every stop in progress. */
  lemma NextKeepsLatch(s: State, step: Step)
    requires Latched(s)
    ensures KeepsLatch(s.core, Next(s, step).core) && Latched(Next(s, step))
    ensures KeepsTasks(s, Next(s, step), step)
  {
    if IsStopStep(step) {
      StopStepKeepsLatch(s, step);
    } else if step.Io? {
      if step.t in s.tasks && Applying(s.tasks[step.t]).Some? {
        var f := Applying(s.tasks[step.t]).value;
        if f < |s.channels| && s.channels[f].io.Held? && s.channels[f].io.owner == step.t {
          IoKeepsLatch(s, step.t, f, step.ok, step.refresh);
        }
      }
    } else if step.TakeIo? || step.ProofTake? || step.ProofEnd? {
      LockStepKeepsLatch(s, step);
    } else if IsFanStep(step) {
      FanStepKeepsLatch(s, step);
    } else {
      PlainStepKeepsLatch(s, step);
    }
  }
}
