/**
 * What each section of motor control leaves behind, field by field, and which of them take
 * each other back: claims and clears, ramp ticks and rollbacks.
 */
module MotorEffects {
  import opened Prelude
  import opened Policy
  import opened MotorCore
  import MotorRun

  /** The fan's books about failures, applied value and accepted commands are as they were. */
  predicate SameBooks(fan: Fan, fan': Fan) {
    && fan'.applied == fan.applied && fan'.errors == fan.errors && fan'.faulted == fan.faulted
    && fan'.accepted == fan.accepted
  }

  /** Neither targets nor inhibits of the fan differ. */
  predicate SameTargets(fan: Fan, fan': Fan) {
    fan'.target == fan.target && fan'.manual == fan.manual && fan'.tachInhibited == fan.tachInhibited
  }

  /** No inhibit and no count differs. */
  predicate SameInhibits(c: Core, c': Core) { LatchesKept(c, c') && c'.communication == c.communication }

  predicate Stopped(fan: Fan, fan': Fan) {
    && fan'.target == 0 && fan'.current == 0 && fan'.throttle == 0 && fan'.generation == fan.generation + 1
    && SameBooks(fan, fan')
  }

  // ---- stops ----

  /** A stop claims a depth, and its maintenance, unless either counter is saturated. */
  lemma ClaimTakesEffect(c: Core, kind: Kind)
    ensures ClaimStop(c, kind).None?
            <==> c.stopDepth >= UINT32_MAX || (kind == Maintenance && c.maintenance >= UINT32_MAX)
    ensures ClaimStop(c, kind).Some? ==>
              var c' := ClaimStop(c, kind).value;
              && c'.stopDepth == c.stopDepth + 1
              && c'.maintenance == c.maintenance + (if kind == Maintenance then 1 else 0)
              && c'.fans == c.fans && c'.global == c.global && c'.communication == c.communication
              && c'.rmt == c.rmt && c'.faultPending == c.faultPending
  {
  }

  /** Maintenance nests: a claim that was dropped and cleared leaves no trace, whatever it stood on. */
  lemma MaintenanceNests(c: Core)
    requires ClaimStop(c, Maintenance).Some?
    ensures ClearMaintenance(DropStop(ClaimStop(c, Maintenance).value)) == c
    ensures DropStop(ClaimStop(c, Maintenance).value).maintenance > c.maintenance
    ensures !OutputAllowed(DropStop(ClaimStop(c, Maintenance).value))
  {
  }

  /** Any other claim ends with its drop. */
  lemma DropEndsClaim(c: Core, kind: Kind)
    requires kind != Maintenance && ClaimStop(c, kind).Some?
    ensures DropStop(ClaimStop(c, kind).value) == c
  {
  }

  /**
   * The stop's section stops every fan and takes its manual target if asked to; it latches
   * the inhibit of its kind and no other.
   */
  lemma StopTakesEffect(c: Core, kind: Kind, clear: bool)
    ensures var c' := EnterStop(c, kind, clear);
            && |c'.fans| == |c.fans|
            && (forall i :: 0 <= i < |c.fans| ==>
                  && Stopped(c.fans[i], c'.fans[i])
                  && c'.fans[i].manual == (if clear then 0 else c.fans[i].manual)
                  && c'.fans[i].tachInhibited == (c.fans[i].tachInhibited || kind == TachAll))
            && c'.global == (c.global || kind == Global) && c'.rmt == (c.rmt || kind == Rmt)
            && c'.communication == (c.communication || kind == Communication)
            && c'.stopDepth == c.stopDepth && c'.maintenance == c.maintenance && c'.faultPending == c.faultPending
  {
  }

  /** A single-fan stop, refused only for a fan that does not exist. */
  lemma StopOneTakesEffect(c: Core, f: int, clear: bool)
    ensures StopOne(c, f, clear).Some? <==> 0 <= f < |c.fans|
    ensures StopOne(c, f, clear).Some? ==>
              var c' := StopOne(c, f, clear).value;
              && OthersKept(c, c', f) && SameInhibits(c, c') && Stopped(c.fans[f], c'.fans[f])
              && c'.fans[f].manual == (if clear then 0 else c.fans[f].manual)
              && c'.fans[f].tachInhibited == c.fans[f].tachInhibited
  {
  }

  /**
   * A tach inhibit stops the fan and takes its manual target, and nothing may be requested
   * of it; lifting it starts nothing.
   */
  lemma TachTakesEffect(c: Core, f: int, inhibited: bool)
    ensures SetTachInhibit(c, f, inhibited).Some? <==> 0 <= f < |c.fans|
    ensures SetTachInhibit(c, f, inhibited).Some? ==>
              var c' := SetTachInhibit(c, f, inhibited).value;
              && OthersKept(c, c', f) && SameInhibits(c, c') && c'.fans[f].tachInhibited == inhibited
              && (inhibited ==> Stopped(c.fans[f], c'.fans[f]) && c'.fans[f].manual == 0 && !ManualAllowed(c', f)
                                && !AutomaticAllowed(c', f))
              && (!inhibited ==> SameMotion(c.fans[f].(tachInhibited := false), c'.fans[f])
                                 && c'.fans[f].target == c.fans[f].target && c'.fans[f].manual == c.fans[f].manual
                                 && SameBooks(c.fans[f], c'.fans[f]))
  {
  }

  // ---- requests ----

  /** When targets may be requested, and when the output may be enabled, condition by condition. */
  lemma AllowedMeans(c: Core, f: int)
    ensures ManualAllowed(c, f) <==>
              && 0 <= f < |c.fans| && c.stopDepth == 0 && !c.global && c.maintenance == 0 && !c.rmt
              && !c.fans[f].faulted && !c.fans[f].tachInhibited
    ensures AutomaticAllowed(c, f) <==> ManualAllowed(c, f) && !c.communication
    ensures OutputAllowed(c) <==>
              && c.stopDepth == 0 && !c.global && c.maintenance == 0 && !c.communication && !c.rmt
              && forall i :: 0 <= i < |c.fans| ==> !c.fans[i].faulted
  {
  }

  /** All targets are restored, as manual ones too, exactly if every fan may take its own. */
  lemma RestoreTakesEffect(c: Core, targets: seq<nat>)
    ensures RestoreAll(c, targets).Some? <==>
              |targets| == |c.fans| && c.stopDepth == 0 && !c.global && c.maintenance == 0 && !c.rmt
              && !c.communication
              && forall i :: 0 <= i < |c.fans| ==>
                   targets[i] <= 100 && !c.fans[i].faulted && !c.fans[i].tachInhibited
    ensures RestoreAll(c, targets).Some? ==>
              var c' := RestoreAll(c, targets).value;
              && |c'.fans| == |c.fans| && SameInhibits(c, c')
              && forall i :: 0 <= i < |c.fans| ==>
                   && c'.fans[i].target == targets[i] == c'.fans[i].manual
                   && SameMotion(c.fans[i], c'.fans[i]) && c'.fans[i].accepted == c.fans[i].accepted
  {
  }

  // ---- ramping and its rollback ----

  /** A tick moves the position at most one step towards the target, as a new generation, or not at all. */
  lemma TickTakesEffect(cfg: Config, c: Core, f: nat)
    requires f < |c.fans|
    ensures var c' := RampTick(cfg, c, f);
            && OthersKept(c, c', f) && SameInhibits(c, c') && SameTargets(c.fans[f], c'.fans[f])
            && SameBooks(c.fans[f], c'.fans[f])
            && (c.fans[f].current == c.fans[f].target ==> c' == c)
            && (c.fans[f].current != c.fans[f].target ==>
                  && c'.fans[f].current == RampStep(c.fans[f].current, c.fans[f].target, cfg.rampStep)
                  && c'.fans[f].throttle == PctToDshot(c'.fans[f].current, cfg.minSpin)
                  && c'.fans[f].generation == c.fans[f].generation + 1)
  {
  }

  /**
   * Rolling a tick back at once restores position and throttle under a newer generation;
   * once another section has begun a generation of its own, it changes nothing.
   */
  lemma RollbackUndoesTick(cfg: Config, c: Core, f: nat, c': Core)
    requires CoreValid(cfg, c) && f < |c.fans| == |c'.fans| && c.fans[f].current != c.fans[f].target
    ensures var ticked := RampTick(cfg, c, f);
            var back := Rollback(cfg, ticked, f, c.fans[f].current, ticked.fans[f].generation);
            && OthersKept(c, back, f) && SameInhibits(c, back)
            && back.fans[f] == c.fans[f].(generation := c.fans[f].generation + 2)
    ensures c'.fans[f].generation != RampTick(cfg, c, f).fans[f].generation ==>
              Rollback(cfg, c', f, c.fans[f].current, RampTick(cfg, c, f).fans[f].generation) == c'
  {
    assert FanValid(cfg, c.fans[f]);
  }

  /**
   * A success clears the error count and records what was applied; a failure counts, and the
   * one that reaches the limit faults the fan, takes its target, and asks for the RMT stop.
   */
  lemma ResultTakesEffect(cfg: Config, c: Core, f: nat, ok: bool, applied: nat)
    requires f < |c.fans|
    ensures var c' := RecordResult(cfg, c, f, ok, applied);
            var fan, fan' := c.fans[f], c'.fans[f];
            && OthersKept(c, c', f) && fan'.manual == fan.manual && fan'.tachInhibited == fan.tachInhibited
            && fan'.current == fan.current && fan'.throttle == fan.throttle && fan'.accepted == fan.accepted
            && fan'.errors == (if ok then 0 else if fan.errors < 65535 then fan.errors + 1 else fan.errors)
            && fan'.applied == (if ok then applied else fan.applied)
            && var reached := !ok && fan'.errors >= cfg.errorLimit;
               && (reached ==> fan'.faulted && fan'.target == 0 && fan'.generation == fan.generation + 1
                               && c' == c.(rmt := true, faultPending := true, fans := c'.fans))
               && (!reached ==> fan'.faulted == fan.faulted && fan'.target == fan.target
                                && fan'.generation == fan.generation && SameInhibits(c, c'))
  {
  }

  // ---- the enable flag and the RMT channel ----

  /** What a driver call does to the channel itself, if it works. */
  function Hardware(enabled: bool, at: MotorRun.At, ok: bool): bool {
    if ok && (at.CallDisable? || at.CallRecover?) then false else if ok && at.CallEnable? then true else enabled
  }

  /** The flag lags behind the channel only between a call and the section that records it. */
  predicate FlagTells(ch: MotorRun.Channel, enabled: bool) {
    if ch.io.Free? then ch.enabled == enabled
    else if ch.io.at.MarkDisabled? || ch.io.at.MarkRecovered? then !enabled
    else if ch.io.at.MarkEnabled? then enabled
    else ch.enabled == enabled
  }

  /** Whatever calls fail, the enable flag tells whether the RMT channel is enabled. */
  lemma FlagTellsTheHardware(m: MotorRun.State, t: TaskId, f: nat, ok: bool, refresh: bool, enabled: bool)
    requires |m.channels| == |m.core.fans| && f < |m.channels| && t in m.tasks && m.channels[f].io.Held?
    requires FlagTells(m.channels[f], enabled)
    ensures FlagTells(MotorRun.IoChannel(m, f, ok, refresh), Hardware(enabled, m.channels[f].io.at, ok))
  {
  }

  // ---- who drives the motors afterwards ----

  /**
   * Every tick, every single-fan stop and every tach inhibit goes on to drive the fan, a
   * tick whether or not the position moved, so that a refresh is never missed; lifting a
   * tach inhibit drives nothing.
   */
  lemma SectionsDriveTheirFan(m: MotorRun.State, t: TaskId, f: nat, clear: bool)
    requires |m.channels| == |m.core.fans| && t !in m.tasks && f < |m.channels|
    ensures var tick := MotorRun.Next(m, MotorRun.Tick(t, f));
            && tick.core == RampTick(m.cfg, m.core, f) && t in tick.tasks
            && tick.tasks[t] == MotorRun.RampApply(f, m.core.fans[f].current != m.core.fans[f].target,
                                                   m.core.fans[f].current, tick.core.fans[f].generation)
    ensures var stop := MotorRun.Next(m, MotorRun.StopFan(t, f, clear));
            Some(stop.core) == StopOne(m.core, f, clear) && t in stop.tasks && stop.tasks[t] == MotorRun.OneApply(f)
    ensures var on := MotorRun.Next(m, MotorRun.Tach(t, f, true));
            Some(on.core) == SetTachInhibit(m.core, f, true) && t in on.tasks && on.tasks[t] == MotorRun.OneApply(f)
    ensures var off := MotorRun.Next(m, MotorRun.Tach(t, f, false));
            Some(off.core) == SetTachInhibit(m.core, f, false) && off.tasks == m.tasks
  {
    TachSectionsDrive(m, t, f);
  }

  lemma TachSectionsDrive(m: MotorRun.State, t: TaskId, f: nat)
    requires |m.channels| == |m.core.fans| && t !in m.tasks && f < |m.channels|
    ensures var on := MotorRun.Next(m, MotorRun.Tach(t, f, true));
            Some(on.core) == SetTachInhibit(m.core, f, true) && t in on.tasks && on.tasks[t] == MotorRun.OneApply(f)
    ensures var off := MotorRun.Next(m, MotorRun.Tach(t, f, false));
            Some(off.core) == SetTachInhibit(m.core, f, false) && off.tasks == m.tasks
  {
  }

  /**
   * What a drive's result leads to: a ramp that moved and failed rolls back, a verified stop
   * rolls the failed fan back, and a stop counts the failure and goes on to the next fan.
   */
  lemma ResultsAreActedOn(task: MotorRun.Task, n: nat, ok: bool)
    requires MotorRun.Applying(task).Some?
    ensures var after := MotorRun.AfterApply(task, n, ok);
            && (task.OneApply? ==> after.None?)
            && (task.RampApply? ==>
                  after == if !ok && task.changed then Some(MotorRun.RampUndo(task.fan, task.previous, task.generation))
                           else None)
            && (task.StopApply? ==> after.Some? && var next := after.value;
                  if !ok && task.rollback then
                    next == MotorRun.StopUndo(task.kind, task.clear, task.k, task.prev, task.gens)
                  else if task.k + 1 < n then next == task.(k := task.k + 1, failed := task.failed || !ok)
                  else next == MotorRun.StopDrop(task.kind, task.clear, task.failed || !ok))
  {
  }

  /** A rollback of a verified stop happens at the generation its section recorded, and is remembered. */
  lemma StopRollsBack(m: MotorRun.State, t: TaskId)
    requires |m.channels| == |m.core.fans| && t in m.tasks && m.tasks[t].StopUndo?
    requires m.tasks[t].k < |m.channels| && m.tasks[t].k < |m.tasks[t].prev| && m.tasks[t].k < |m.tasks[t].gens|
    ensures var u, m' := m.tasks[t], MotorRun.Next(m, MotorRun.UndoStop(t));
            && m'.core == Rollback(m.cfg, m.core, u.k, u.prev[u.k], u.gens[u.k]) && m'.channels == m.channels
            && t in m'.tasks
            && if u.k + 1 < |m.channels|
               then m'.tasks[t] == MotorRun.StopApply(u.kind, u.clear, true, u.k + 1, u.prev, u.gens, true)
               else m'.tasks[t] == MotorRun.StopDrop(u.kind, u.clear, true)
  {
  }

  /** And so does the ramp's own. */
  lemma RampRollsBack(m: MotorRun.State, t: TaskId)
    requires |m.channels| == |m.core.fans| && t in m.tasks && m.tasks[t].RampUndo? && m.tasks[t].fan < |m.channels|
    ensures var u, m' := m.tasks[t], MotorRun.Next(m, MotorRun.UndoTick(t));
            && m'.core == Rollback(m.cfg, m.core, u.fan, u.previous, u.generation)
            && m'.channels == m.channels && m'.tasks == m.tasks - {t}
  {
  }
}
