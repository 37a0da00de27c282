/** The crash-safe stop over whole runs, and what the next boot does with the blobs. */
module CrashTheorems {
  import opened Prelude
  import opened CrashRun
  import opened CrashSafety
  import MotorCore
  import MotorLatch
  import MotorRun
  import MotorSafety
  import Sup = SupervisorRun
  import SupervisorSafety
  import SchedulerCore
  import opened SchedulerEffects
  import Sched = SchedulerRun
  import W = SaveWriter
  import SaveWriterSafety

  function Init(cfg: MotorCore.Config, fans: seq<SchedulerCore.Fan>, inhibited: bool): State {
    var sup := SupervisorSafety.Init(cfg, |fans|);
    var sched := Sched.Init(fans, inhibited);
    State(sup, sched, SaveWriterSafety.Init(true, Manuals(sup.motor.core)),
          SaveWriterSafety.Init(false, [PlanOf(sched.sched)]))
  }

  lemma InitIsValid(cfg: MotorCore.Config, fans: seq<SchedulerCore.Fan>, inhibited: bool)
    requires cfg.Valid() && |fans| > 0
    requires forall f :: 0 <= f < |fans| ==>
               Sched.FanValid(fans[f]) && !fans[f].pending && fans[f].active == SchedulerCore.NO_SLOT
    ensures Inv(Init(cfg, fans, inhibited))
  {
    var s := Init(cfg, fans, inhibited);
    SupervisorSafety.InitIsValid(cfg, |fans|);
    Sched.InitIsValid(fans, inhibited);
    SaveWriterSafety.InitIsValid(true, Manuals(s.sup.motor.core));
    SaveWriterSafety.InitIsValid(false, [PlanOf(s.sched.sched)]);
  }

  lemma {:induction false} RunKeepsInv(s: State, steps: seq<Step>)
    requires Inv(s)
    ensures Inv(Run(s, steps))
    decreases |steps|
  {
    if steps != [] {
      NextKeepsInv(s, steps[0]);
      RunKeepsInv(Next(s, steps[0]), steps[1..]);
    }
  }

  /**
   * The condition under which the supervisor restarts or reports success: a GLOBAL or
   * RMT stop with cleared targets that the motor module did not refuse, both of whose
   * callbacks succeeded. The RMT drivers may have failed.
   */
  predicate Committed(stop: Sup.StopJob) {
    && (stop.action.StopGlobal? || stop.action.StopRmt?) && stop.clear && stop.phase.Finish?
    && !stop.out.refused && stop.out.automatic && stop.out.persistence
  }

  /** ESP_OK from a GLOBAL stop with cleared targets is one such case. */
  lemma SuccessIsCommitted(s: State, t: TaskId)
    requires Inv(s) && StopsNow(s.sup, t)
    requires var stop := s.sup.jobs[t].op.stop;
             stop.action.StopGlobal? && stop.clear && stop.phase.Finish? && Sup.ResultOk(stop.out)
    ensures Committed(s.sup.jobs[t].op.stop)
  {
    assert SupervisorSafety.DoneValid(s.sup.motor.core, s.sup.jobs[t].op.stop);
  }

  lemma CommittedIsSafe(s: State, t: TaskId)
    requires Inv(s) && StopsNow(s.sup, t) && Committed(s.sup.jobs[t].op.stop)
    ensures Safe(s)
  {
    SealsShut(s.sup, t);
  }

  lemma SafeSurvivesPublish(s: State, sup': Sup.State, sched': Sched.State)
    requires Inv(s) && Safe(s)
    requires SupervisorSafety.Inv(sup') && |sup'.motor.core.fans| == |s.sup.motor.core.fans|
    requires MotorLatch.ShutCleared(sup'.motor.core) && AllZero(Manuals(sup'.motor.core))
    requires sched'.sched.latched && sched'.sched.inhibited
    ensures var s' := Published(s.(sup := sup', sched := sched'));
            Safe(s')
  {
    MovedFans(s, sup');
    MovedPlans(s, sched');
  }

  lemma ControlKeepsSafe(s: State, step: Sup.Step)
    requires Inv(s) && Safe(s)
    ensures Safe(Next(s, Control(step)))
  {
    if ControlFree(s, step) {
      ShutStays(s.sup, step);
      SafeSurvivesPublish(s, Sup.Next(s.sup, step), s.sched);
    }
  }

  lemma ScheduleKeepsSafe(s: State, op: Sched.Step)
    requires Inv(s) && Safe(s)
    ensures Safe(Next(s, Schedule(op)))
  {
    if !op.InhibitAll? {
      Sched.LatchIsForGood(s.sched, op);
      SafeSurvivesPublish(s, s.sup, Sched.Next(s.sched, op));
    }
  }

  lemma LatchKeepsSafe(s: State, t: TaskId, admitted: bool)
    requires Inv(s) && Safe(s)
    ensures Safe(Next(s, AutoLatch(t, admitted)))
  {
    if At(s.sup, t, Sup.Auto) && t !in s.plans.callers && SchedulerCore.NothingPending(s.sched.sched) {
      var sched' := Sched.Next(s.sched, Sched.InhibitAll);
      SafeSurvivesPublish(s, s.sup, sched');
      MovedPlans(s, sched');
      PlansWork(Published(s.(sched := sched')).plans, W.Enter(t, admitted));
    }
  }

  /** A stop that got its answer: the stores may have let it out, the motors stay shut. */
  lemma AnswerKeepsSafe(s: State, t: TaskId, ok: bool, fans: W.State<nat>, plans: W.State<Plan>)
    requires Inv(s) && Safe(s)
    requires fans == s.fans || fans == W.Next(s.fans, W.Leave(t))
    requires plans == s.plans || plans == W.Next(s.plans, W.Leave(t))
    ensures var s1 := s.(sup := Sup.Next(s.sup, Sup.Advance(t, ok)), fans := fans, plans := plans);
            WellFormed(s1) && Safe(Published(s1))
  {
    var sup' := Sup.Next(s.sup, Sup.Advance(t, ok));
    ShutStays(s.sup, Sup.Advance(t, ok));
    FansWork(s.fans, W.Leave(t));
    PlansWork(s.plans, W.Leave(t));
    FansEdit(fans, Manuals(sup'.motor.core));
    PlansEdit(plans, [PlanOf(s.sched.sched)]);
  }

  lemma FanStoreKeepsSafe(s: State, save: W.Step<nat>)
    requires Inv(s) && Safe(s) && !save.Edit?
    ensures Safe(s.(fans := W.Next(s.fans, save)))
  {
    FansWork(s.fans, save);
  }

  lemma PlanStoreKeepsSafe(s: State, write: W.Step<Plan>)
    requires Inv(s) && Safe(s) && !write.Edit?
    ensures Safe(s.(plans := W.Next(s.plans, write)))
  {
    PlansWork(s.plans, write);
  }

  lemma StoreKeepsSafe(s: State, step: Step)
    requires Inv(s) && Safe(s) && (step.FanStore? || step.PlanStore? || step.PersistCall?)
    ensures Safe(Next(s, step))
  {
    if step.FanStore? {
      if FanStoreFree(s, step.save) { FanStoreKeepsSafe(s, step.save); }
    } else if step.PlanStore? {
      if PlanStoreFree(step.write) { PlanStoreKeepsSafe(s, step.write); }
    } else {
      FanStoreKeepsSafe(s, W.Enter(step.t, step.admitted));
    }
  }

  lemma NextKeepsSafe(s: State, step: Step)
    requires Inv(s) && Safe(s)
    ensures Safe(Next(s, step))
  {
    if step.Control? {
      ControlKeepsSafe(s, step.step);
    } else if step.Schedule? {
      ScheduleKeepsSafe(s, step.op);
    } else if step.AutoLatch? {
      LatchKeepsSafe(s, step.t, step.admitted);
    } else if step.FanStore? || step.PlanStore? || step.PersistCall? {
      StoreKeepsSafe(s, step);
    } else {
      AnsweredKeepsSafe(s, step);
    }
  }

  lemma AutoReturnKeepsSafe(s: State, t: TaskId)
    requires Inv(s) && Safe(s)
    ensures Safe(Next(s, AutoReturn(t)))
  {
    if t in s.plans.callers && s.plans.callers[t].Done? {
      AnswerKeepsSafe(s, t, s.plans.callers[t].ok, s.fans, W.Next(s.plans, W.Leave(t)));
    }
  }

  lemma PersistReturnKeepsSafe(s: State, t: TaskId)
    requires Inv(s) && Safe(s)
    ensures Safe(Next(s, PersistReturn(t)))
  {
    if t in s.fans.callers && s.fans.callers[t].Done? {
      AnswerKeepsSafe(s, t, s.fans.callers[t].ok, W.Next(s.fans, W.Leave(t)), s.plans);
    }
  }

  lemma AnsweredKeepsSafe(s: State, step: Step)
    requires Inv(s) && Safe(s) && (step.AutoReturn? || step.AutoTimeout? || step.PersistReturn?)
    ensures Safe(Next(s, step))
  {
    if step.AutoReturn? {
      AutoReturnKeepsSafe(s, step.t);
    } else if step.PersistReturn? {
      PersistReturnKeepsSafe(s, step.t);
    } else {
      AnswerKeepsSafe(s, step.t, false, s.fans, s.plans);
    }
  }

  lemma {:induction false} RunKeepsSafe(s: State, steps: seq<Step>)
    requires Inv(s) && Safe(s)
    ensures Inv(Run(s, steps)) && Safe(Run(s, steps))
    decreases |steps|
  {
    if steps != [] {
      NextKeepsInv(s, steps[0]);
      NextKeepsSafe(s, steps[0]);
      RunKeepsSafe(Next(s, steps[0]), steps[1..]);
    }
  }

  // ---- the next boot ----

  /** fan_state_store_restore after motor_control_init: the saved targets, if accepted. */
  function BootMotors(cfg: MotorCore.Config, targets: seq<nat>): MotorCore.Core {
    var core := MotorSafety.Init(cfg, |targets|).core;
    var restored := MotorCore.RestoreAll(core, targets);
    if restored.Some? then restored.value else core
  }

  /** load_from_nvs: enabled entries come back armed, nothing runs. */
  function BootEntry(saved: SavedEntry, now: nat): SchedulerCore.Entry {
    if saved.enabled && SchedulerCore.EntryConfigValid(saved.interval, saved.duration, saved.target)
    then SchedulerCore.Entry(true, saved.interval, saved.duration, saved.target,
                             now + saved.interval * SchedulerCore.MINUTE_US)
    else SchedulerCore.Entry(false, 0, 0, 0, 0)
  }

  function BootFan(saved: seq<SavedEntry>, now: nat): SchedulerCore.Fan {
    SchedulerCore.Fan(seq(|saved|, i requires 0 <= i < |saved| => BootEntry(saved[i], now)),
                      SchedulerCore.NO_SLOT, 0, 0, 0, false)
  }

  function BootScheduler(plan: Plan, now: nat): SchedulerCore.Sched {
    SchedulerCore.Sched(
      seq(|plan.entries|, f requires 0 <= f < |plan.entries| => BootFan(plan.entries[f], now)),
      plan.inhibited, false)
  }

  /**
   * What a plan boots into, whatever it holds: nothing runs, nothing is latched, and exactly
   * the enabled entries with a valid configuration are there, due their interval from now.
   */
  lemma BootIsConfigured(plan: Plan, now: nat)
    ensures var s := BootScheduler(plan, now);
            && Configured(s) && s.inhibited == plan.inhibited && !s.latched && |s.fans| == |plan.entries|
            && forall f :: 0 <= f < |s.fans| ==>
                 && s.fans[f].active == SchedulerCore.NO_SLOT && !s.fans[f].pending && s.fans[f].cursor == 0
                 && |s.fans[f].entries| == |plan.entries[f]|
                 && forall i :: 0 <= i < |plan.entries[f]| ==>
                      var e, saved := s.fans[f].entries[i], plan.entries[f][i];
                      && e.enabled == (saved.enabled && 1 <= saved.interval <= 525600
                                       && 1 <= saved.duration <= saved.interval && saved.target <= 100)
                      && (e.enabled ==> (e.interval == saved.interval && e.duration == saved.duration
                                         && e.target == saved.target && e.next == now + saved.interval * 60_000_000))
  {
  }

  /** The schedules of a boot agree with those before the reset, the runs themselves apart. */
  predicate SameSchedules(was: SchedulerCore.Sched, s: SchedulerCore.Sched, now: nat) {
    && s.inhibited == was.inhibited && |s.fans| == |was.fans|
    && forall f :: 0 <= f < |s.fans| ==>
         && |s.fans[f].entries| == |was.fans[f].entries|
         && forall i :: 0 <= i < |s.fans[f].entries| ==> SameEntry(was.fans[f].entries[i], s.fans[f].entries[i], now)
  }

  predicate SameEntry(was: SchedulerCore.Entry, e: SchedulerCore.Entry, now: nat) {
    if was.enabled then e == was.(next := now + was.interval * 60_000_000) else !e.enabled
  }

  /** A plan saved and booted keeps every entry and the inhibit. */
  lemma SchedulesSurviveReset(s: SchedulerCore.Sched, now: nat)
    requires Configured(s)
    ensures SameSchedules(s, BootScheduler(PlanOf(s), now), now)
  {
    var b := BootScheduler(PlanOf(s), now);
    forall f, i | 0 <= f < |s.fans| && 0 <= i < |s.fans[f].entries|
      ensures SameEntry(s.fans[f].entries[i], b.fans[f].entries[i], now)
    {
      assert PlanOf(s).entries[f][i] == Strip(s.fans[f].entries[i]);
    }
  }

  /** Manual targets saved and booted are the targets again, if all of them are percentages. */
  lemma TargetsSurviveReset(cfg: MotorCore.Config, targets: seq<nat>)
    requires forall i :: 0 <= i < |targets| ==> targets[i] <= 100
    ensures var c := BootMotors(cfg, targets);
            && |c.fans| == |targets| && MotorCore.OutputAllowed(c)
            && forall i :: 0 <= i < |targets| ==> c.fans[i].target == targets[i] == c.fans[i].manual
  {
  }

  /** No target is set and no schedule may start, whatever the time. */
  ghost predicate StartsNoMotion(c: MotorCore.Core, s: SchedulerCore.Sched) {
    && MotorCore.AllTargetsZero(c) && MotorCore.AllManualZero(c)
    && forall f :: !SchedulerCore.MayStart(s, f)
  }

  lemma SafeBlobsStartNoMotion(cfg: MotorCore.Config, targets: seq<nat>, plan: Plan, now: nat)
    requires AllZero(targets) && plan.inhibited
    ensures StartsNoMotion(BootMotors(cfg, targets), BootScheduler(plan, now))
  {
  }

  /**
   * Crash-safe stop: once a GLOBAL stop with cleared targets returns ESP_OK (or the
   * supervisor's condition for an RMT reboot holds), then in every continuation,
   * whatever fails, the committed fan blob is all zero and the committed schedule
   * blob inhibits, so a reset at any later instant starts no motion.
   */
  lemma StoppedStateSurvivesReset(s: State, t: TaskId, steps: seq<Step>, now: nat)
    requires Inv(s) && StopsNow(s.sup, t) && Committed(s.sup.jobs[t].op.stop)
    ensures var r := Run(s, steps);
            && r.fans.nvs.Some? && r.plans.nvs.Some? && |r.plans.nvs.value| == 1
            && AllZero(r.fans.nvs.value) && r.plans.nvs.value[0].inhibited
            && StartsNoMotion(BootMotors(r.sup.motor.cfg, r.fans.nvs.value),
                              BootScheduler(r.plans.nvs.value[0], now))
  {
    CommittedIsSafe(s, t);
    RunKeepsSafe(s, steps);
    var r := Run(s, steps);
    StoredIsZero(r.fans);
    StoredIsInhibited(r.plans);
    SafeBlobsStartNoMotion(r.sup.motor.cfg, r.fans.nvs.value, r.plans.nvs.value[0], now);
  }

  lemma StoredIsZero(f: W.State<nat>)
    requires W.Inv(f) && FansDurable(f)
    ensures AllZero(f.nvs.value)
  {
    forall i | 0 <= i < |f.nvs.value| ensures f.nvs.value[i] == 0 {
      assert W.HeldSince(f.history, f.nvsFrom, i, f.nvs.value[i]);
    }
  }

  lemma StoredIsInhibited(p: W.State<Plan>)
    requires W.Inv(p) && PlansDurable(p) && |p.last| == 1
    ensures |p.nvs.value| == 1 && p.nvs.value[0].inhibited
  {
    assert W.HeldSince(p.history, p.nvsFrom, 0, p.nvs.value[0]);
  }
}
