/** A stop that reports success has made the stopped state durable, for good. */
module CrashSafety {
  import opened Prelude
  import opened CrashRun
  import MotorCore
  import MotorRun
  import MotorLatch
  import MotorSafety
  import SystemFresh
  import Sup = SupervisorRun
  import SupervisorSafety
  import SchedulerCore
  import Sched = SchedulerRun
  import W = SaveWriter
  import SaveWriterSafety

  // ---- what a blob may hold ----

  predicate AllZero(cells: seq<nat>) { forall i :: 0 <= i < |cells| ==> cells[i] == 0 }

  predicate Inhibiting(cells: seq<Plan>) { |cells| == 1 && cells[0].inhibited }

  /** From moment k on every manual target was zero. */
  ghost predicate ZeroSince(s: W.State<nat>, k: nat) {
    k < |s.history| && forall j :: k <= j < |s.history| ==> AllZero(s.history[j])
  }

  ghost predicate InhibitedSince(s: W.State<Plan>, k: nat) {
    k < |s.history| && forall j :: k <= j < |s.history| ==> Inhibiting(s.history[j])
  }

  ghost predicate FansDurable(s: W.State<nat>) { s.nvs.Some? && ZeroSince(s, s.nvsFrom) }

  ghost predicate PlansDurable(s: W.State<Plan>) { s.nvs.Some? && InhibitedSince(s, s.nvsFrom) }

  /** The stop shut the motors until reset and cleared every manual target. */
  predicate Seals(stop: Sup.StopJob) {
    (stop.action.StopGlobal? || stop.action.StopRmt?) && stop.clear && !stop.out.refused
    && SupervisorSafety.PastFirst(stop.phase)
  }

  predicate PastAuto(phase: Sup.Phase) {
    phase.Persist? || phase.Release? || phase.Finish? || (phase.Section? && !phase.which.First?)
  }

  /** Durable stops never take the detours of temporary ones. */
  predicate Routed(stop: Sup.StopJob) {
    && (stop.phase.Section? && !stop.phase.which.First? ==> !Sup.Durable(stop.action))
    && (stop.phase.Release? ==> stop.action.StopPlain?)
  }

  // ---- the invariant ----

  ghost predicate Base(s: State) {
    && SupervisorSafety.Inv(s.sup) && Sched.Inv(s.sched)
    && W.Inv(s.fans) && W.Inv(s.plans)
    && |s.fans.last| == |s.sup.motor.core.fans| && |s.plans.last| == 1
  }

  /** Both stores snapshot the live data. */
  ghost predicate Mirrors(s: State)
    requires WellFormed(s)
  {
    && W.Live(s.fans) == Manuals(s.sup.motor.core)
    && W.Live(s.plans) == [PlanOf(s.sched.sched)]
  }

  /** A stop is inside a store only while it waits for that store. */
  ghost predicate Waiting(s: State) {
    forall t :: StopsNow(s.sup, t) ==>
      && (t in s.fans.callers ==> s.sup.jobs[t].op.stop.phase.Persist?)
      && (t in s.plans.callers ==> s.sup.jobs[t].op.stop.phase.Auto?)
  }

  /** Whoever saves the schedules synchronously has latched the scheduler first. */
  ghost predicate PlanCallers(s: State) {
    forall t :: t in s.plans.callers ==>
      && s.sched.sched.latched
      && (SaveWriterSafety.Counting(s.plans.callers[t]) ==> InhibitedSince(s.plans, s.plans.callers[t].at))
  }

  ghost predicate FanCallers(s: State) {
    forall t :: StopsNow(s.sup, t) && t in s.fans.callers && Seals(s.sup.jobs[t].op.stop) ==>
      SaveWriterSafety.Counting(s.fans.callers[t]) ==> ZeroSince(s.fans, s.fans.callers[t].at)
  }

  /** A stop that was told OK by a store may rely on what the store committed. */
  ghost predicate Told(s: State) {
    forall t :: StopsNow(s.sup, t) ==>
      var stop := s.sup.jobs[t].op.stop;
      && Routed(stop)
      && (PastAuto(stop.phase) && stop.out.automatic ==> s.sched.sched.latched && PlansDurable(s.plans))
      && (stop.phase.Finish? && Seals(stop) && stop.out.persistence ==> FansDurable(s.fans))
  }

  ghost predicate Inv(s: State) {
    Base(s) && Mirrors(s) && Waiting(s) && PlanCallers(s) && FanCallers(s) && Told(s)
  }

  /** Nothing can make the motors move again before a reset, nor after one. */
  ghost predicate Safe(s: State) {
    && MotorLatch.ShutCleared(s.sup.motor.core) && s.sched.sched.latched
    && FansDurable(s.fans) && PlansDurable(s.plans)
  }

  // ---- the stores ----

  lemma FansEdit(f: W.State<nat>, cells: seq<nat>)
    requires W.Inv(f) && |cells| == |f.last|
    ensures var f' := W.Next(f, W.Edit(0, cells));
            && W.Inv(f') && |f'.last| == |f.last| && W.Live(f') == cells && f'.callers == f.callers
            && (FansDurable(f) && AllZero(cells) ==> FansDurable(f'))
            && forall k :: ZeroSince(f, k) && AllZero(cells) ==> ZeroSince(f', k)
  {
    SaveWriterSafety.NextKeepsInv(f, W.Edit(0, cells));
  }

  lemma PlansEdit(p: W.State<Plan>, cells: seq<Plan>)
    requires W.Inv(p) && |cells| == |p.last|
    ensures var p' := W.Next(p, W.Edit(0, cells));
            && W.Inv(p') && |p'.last| == |p.last| && W.Live(p') == cells && p'.callers == p.callers
            && (PlansDurable(p) && Inhibiting(cells) ==> PlansDurable(p'))
            && forall k :: InhibitedSince(p, k) && Inhibiting(cells) ==> InhibitedSince(p', k)
  {
    SaveWriterSafety.NextKeepsInv(p, W.Edit(0, cells));
  }

  /** Other steps of a store keep its history, and what is durable stays durable. */
  lemma FansWork(f: W.State<nat>, step: W.Step<nat>)
    requires W.Inv(f) && !step.Edit?
    ensures var f' := W.Next(f, step);
            && W.Inv(f') && |f'.last| == |f.last| && W.Live(f') == W.Live(f)
            && (FansDurable(f) ==> FansDurable(f'))
            && forall k :: ZeroSince(f, k) ==> ZeroSince(f', k)
  {
    SaveWriterSafety.NextKeepsInv(f, step);
    SaveWriterSafety.StepKeepsHistory(f, step);
    SaveWriterSafety.CommitsGetNewer(f, step);
  }

  lemma PlansWork(p: W.State<Plan>, step: W.Step<Plan>)
    requires W.Inv(p) && !step.Edit?
    ensures var p' := W.Next(p, step);
            && W.Inv(p') && |p'.last| == |p.last| && W.Live(p') == W.Live(p)
            && (PlansDurable(p) ==> PlansDurable(p'))
            && forall k :: InhibitedSince(p, k) ==> InhibitedSince(p', k)
  {
    SaveWriterSafety.NextKeepsInv(p, step);
    SaveWriterSafety.StepKeepsHistory(p, step);
    SaveWriterSafety.CommitsGetNewer(p, step);
  }

  /** ESP_OK for a caller whose request counts since k: what is stored dates from k on. */
  lemma FansAcknowledged(f: W.State<nat>, t: TaskId)
    requires W.Inv(f) && t in f.callers && f.callers[t].Done? && f.callers[t].ok
    requires ZeroSince(f, f.callers[t].at)
    ensures FansDurable(f)
  {
    assert W.CallerValid(f, t, f.callers[t]);
  }

  lemma PlansAcknowledged(p: W.State<Plan>, t: TaskId)
    requires W.Inv(p) && t in p.callers && p.callers[t].Done? && p.callers[t].ok
    requires InhibitedSince(p, p.callers[t].at)
    ensures PlansDurable(p)
  {
    assert W.CallerValid(p, t, p.callers[t]);
  }

  // ---- what a transaction does ----

  /** Outside its two waits a stop neither learns of a save nor slips past one. */
  predicate Steady(stop: Sup.StopJob, stop': Sup.StopJob) {
    && (stop.phase.Auto? || stop.phase.Persist? ==> stop' == stop)
    && Routed(stop')
    && (PastAuto(stop'.phase) ==> PastAuto(stop.phase) && stop'.out.automatic == stop.out.automatic)
    && (stop'.phase.Finish? && Seals(stop') ==> stop == stop')
  }

  lemma StopKeeps(m: MotorRun.State, t: TaskId, stop: Sup.StopJob, ok: bool)
    requires Routed(stop) && !stop.phase.Auto? && !stop.phase.Persist?
    ensures var stop' := Sup.StopAfter(m, t, stop, ok);
            && Routed(stop')
            && (PastAuto(stop'.phase) ==> PastAuto(stop.phase) && stop'.out.automatic == stop.out.automatic)
            && (stop'.phase.Finish? && Seals(stop') ==> stop == stop')
            && (stop'.phase.Auto? ==> stop.phase.Section?)
            && (stop'.phase.Persist? ==> !Sup.Durable(stop.action))
  {
    if stop.phase.Section? { SectionKeeps(m, t, stop); }
  }

  lemma SectionKeeps(m: MotorRun.State, t: TaskId, stop: Sup.StopJob)
    requires Routed(stop) && stop.phase.Section?
    ensures var stop' := Sup.SectionAfter(m, t, stop);
            && Routed(stop') && stop'.action == stop.action && stop'.out.automatic == stop.out.automatic
            && (PastAuto(stop'.phase) ==> PastAuto(stop.phase))
            && (stop'.phase.Finish? ==> !Sup.Durable(stop.action))
            && (stop'.phase.Persist? ==> !Sup.Durable(stop.action))
  {
  }

  lemma StopsStaySteady(s: Sup.State, step: Sup.Step, t: TaskId)
    requires SupervisorSafety.Inv(s) && StopsNow(Sup.Next(s, step), t)
    requires step.Advance? ==> !At(s, step.t, Sup.Auto) && !At(s, step.t, Sup.Persist)
    requires StopsNow(s, t) ==> Routed(s.jobs[t].op.stop)
    ensures var stop' := Sup.Next(s, step).jobs[t].op.stop;
            if StopsNow(s, t) then Steady(s.jobs[t].op.stop, stop')
            else stop'.phase.WantLock? && step.Claim? && step.t == t
  {
    if SupervisorSafety.Actor(step) == Some(t) {
      ActorStaysSteady(s, step, t);
    } else {
      SupervisorSafety.ControlMoves(s, step);
    }
  }

  lemma ActorStaysSteady(s: Sup.State, step: Sup.Step, t: TaskId)
    requires SupervisorSafety.Actor(step) == Some(t) && StopsNow(Sup.Next(s, step), t)
    requires step.Advance? ==> !At(s, step.t, Sup.Auto) && !At(s, step.t, Sup.Persist)
    requires StopsNow(s, t) ==> Routed(s.jobs[t].op.stop)
    ensures var stop' := Sup.Next(s, step).jobs[t].op.stop;
            if StopsNow(s, t) then Steady(s.jobs[t].op.stop, stop')
            else stop'.phase.WantLock? && step.Claim? && step.t == t
  {
    SupervisorSafety.StopsOf(s, step, t);
    if StopsNow(s, t) && step.Advance? {
      StopKeeps(s.motor, t, s.jobs[t].op.stop, step.ok);
    } else if !StopsNow(s, t) {
      ClaimsAreClaims(s, step, t);
    }
  }

  lemma ClaimsAreClaims(s: Sup.State, step: Sup.Step, t: TaskId)
    requires !StopsNow(s, t) && StopsNow(Sup.Control(s, step), t)
    ensures step.Claim? && step.t == t
  {
  }

  /** A sealing stop has shut the motors with every manual target cleared. */
  lemma SealsShut(s: Sup.State, t: TaskId)
    requires SupervisorSafety.Inv(s) && StopsNow(s, t) && Seals(s.jobs[t].op.stop)
    ensures MotorLatch.ShutCleared(s.motor.core) && AllZero(Manuals(s.motor.core))
  {
    assert SupervisorSafety.DoneValid(s.motor.core, s.jobs[t].op.stop);
  }

  lemma ShutStays(s: Sup.State, step: Sup.Step)
    requires SupervisorSafety.Inv(s)
    ensures SupervisorSafety.Inv(Sup.Next(s, step))
    ensures |Sup.Next(s, step).motor.core.fans| == |s.motor.core.fans|
    ensures MotorLatch.ShutCleared(s.motor.core) ==>
              MotorLatch.ShutCleared(Sup.Next(s, step).motor.core) && AllZero(Manuals(Sup.Next(s, step).motor.core))
  {
    SupervisorSafety.NextKeepsInv(s, step);
    SystemFresh.SizeStays(s, step);
    SupervisorSafety.MotorPartKeeps(s.motor, Sup.MotorPart(s, step));
  }

  // ---- steps of the supervisor and the motors ----

  /** A supervisor step with the fan store already told of the new targets. */
  lemma MovedFans(s: State, sup': Sup.State)
    requires Base(s) && SupervisorSafety.Inv(sup') && |sup'.motor.core.fans| == |s.sup.motor.core.fans|
    ensures var f' := W.Next(s.fans, W.Edit(0, Manuals(sup'.motor.core)));
            && W.Inv(f') && |f'.last| == |s.fans.last| && f'.callers == s.fans.callers
            && W.Live(f') == Manuals(sup'.motor.core)
            && (AllZero(Manuals(sup'.motor.core)) ==>
                  (FansDurable(s.fans) ==> FansDurable(f')) && forall k :: ZeroSince(s.fans, k) ==> ZeroSince(f', k))
  {
    FansEdit(s.fans, Manuals(sup'.motor.core));
  }

  lemma MovedPlans(s: State, sched': Sched.State)
    requires Base(s) && (s.sched.sched.latched ==> sched'.sched.latched && sched'.sched.inhibited)
    ensures var p' := W.Next(s.plans, W.Edit(0, [PlanOf(sched'.sched)]));
            && W.Inv(p') && |p'.last| == 1 && p'.callers == s.plans.callers
            && W.Live(p') == [PlanOf(sched'.sched)]
            && (s.sched.sched.latched ==>
                  (PlansDurable(s.plans) ==> PlansDurable(p'))
                  && forall k :: InhibitedSince(s.plans, k) ==> InhibitedSince(p', k))
  {
    PlansEdit(s.plans, [PlanOf(sched'.sched)]);
  }

  lemma ControlKeeps(s: State, step: Sup.Step)
    requires Inv(s)
    ensures Inv(Next(s, Control(step)))
  {
    if !ControlFree(s, step) { return; }
    var s' := Next(s, Control(step));
    ShutStays(s.sup, step);
    MovedFans(s, s'.sup);
    MovedPlans(s, s.sched);
    forall t | StopsNow(s'.sup, t)
      ensures StopsNow(s.sup, t) ==> Steady(s.sup.jobs[t].op.stop, s'.sup.jobs[t].op.stop)
      ensures !StopsNow(s.sup, t) ==>
                s'.sup.jobs[t].op.stop.phase.WantLock? && t !in s.fans.callers && t !in s.plans.callers
      ensures Seals(s'.sup.jobs[t].op.stop) ==> AllZero(Manuals(s'.sup.motor.core))
    {
      StopsStaySteady(s.sup, step, t);
      if Seals(s'.sup.jobs[t].op.stop) { SealsShut(s'.sup, t); }
    }
    ControlKeepsTold(s, s', step);
  }

  /** The conclusions drawn from the per-stop facts of a supervisor step. */
  lemma ControlKeepsTold(s: State, s': State, step: Sup.Step)
    requires Inv(s) && s'.sched == s.sched && W.WellFormed(s'.fans) && W.WellFormed(s'.plans)
    requires s'.fans.callers == s.fans.callers && s'.plans.callers == s.plans.callers
    requires AllZero(Manuals(s'.sup.motor.core)) ==>
               (FansDurable(s.fans) ==> FansDurable(s'.fans)) && forall k :: ZeroSince(s.fans, k) ==> ZeroSince(s'.fans, k)
    requires s.sched.sched.latched ==>
               (PlansDurable(s.plans) ==> PlansDurable(s'.plans))
               && forall k :: InhibitedSince(s.plans, k) ==> InhibitedSince(s'.plans, k)
    requires forall t :: StopsNow(s'.sup, t) ==>
               && (StopsNow(s.sup, t) ==> Steady(s.sup.jobs[t].op.stop, s'.sup.jobs[t].op.stop))
               && (!StopsNow(s.sup, t) ==>
                     s'.sup.jobs[t].op.stop.phase.WantLock? && t !in s.fans.callers && t !in s.plans.callers)
               && (Seals(s'.sup.jobs[t].op.stop) ==> AllZero(Manuals(s'.sup.motor.core)))
    ensures Waiting(s') && PlanCallers(s') && FanCallers(s') && Told(s')
  {
  }

  // ---- steps of the scheduler ----

  lemma ScheduleKeeps(s: State, op: Sched.Step)
    requires Inv(s)
    ensures Inv(Next(s, Schedule(op)))
  {
    if op.InhibitAll? { return; }
    var s' := Next(s, Schedule(op));
    Sched.NextKeepsInv(s.sched, op);
    if s.sched.sched.latched { Sched.LatchIsForGood(s.sched, op); }
    RepublishKeeps(s, s'.sched);
  }

  /** The scheduler moved, targets did not: both stores are told again. */
  lemma RepublishKeeps(s: State, sched': Sched.State)
    requires Inv(s) && Sched.Inv(sched')
    requires s.sched.sched.latched ==> sched'.sched.latched && sched'.sched.inhibited
    ensures Inv(Published(s.(sched := sched')))
  {
    var s' := Published(s.(sched := sched'));
    MovedFans(s, s.sup);
    MovedPlans(s, sched');
    forall t | StopsNow(s.sup, t) && Seals(s.sup.jobs[t].op.stop) ensures AllZero(Manuals(s.sup.motor.core)) {
      SealsShut(s.sup, t);
    }
    RepublishKeepsTold(s, s');
  }

  lemma RepublishKeepsTold(s: State, s': State)
    requires Inv(s) && s'.sup == s.sup && W.WellFormed(s'.fans) && W.WellFormed(s'.plans)
    requires s'.fans.callers == s.fans.callers && s'.plans.callers == s.plans.callers
    requires s.sched.sched.latched ==> s'.sched.sched.latched
    requires AllZero(Manuals(s.sup.motor.core)) ==>
               (FansDurable(s.fans) ==> FansDurable(s'.fans)) && forall k :: ZeroSince(s.fans, k) ==> ZeroSince(s'.fans, k)
    requires s.sched.sched.latched ==>
               (PlansDurable(s.plans) ==> PlansDurable(s'.plans))
               && forall k :: InhibitedSince(s.plans, k) ==> InhibitedSince(s'.plans, k)
    requires forall t :: StopsNow(s.sup, t) && Seals(s.sup.jobs[t].op.stop) ==> AllZero(Manuals(s.sup.motor.core))
    ensures Waiting(s') && PlanCallers(s') && FanCallers(s') && Told(s')
  {
  }

  // ---- steps inside the stores ----

  /** A request issued now dates from a moment when everything was zero. */
  lemma NowIsZero(f: W.State<nat>)
    requires W.WellFormed(f) && AllZero(W.Live(f))
    ensures ZeroSince(f, W.Now(f))
  {
  }

  lemma NowIsInhibited(p: W.State<Plan>)
    requires W.WellFormed(p) && Inhibiting(W.Live(p))
    ensures InhibitedSince(p, W.Now(p))
  {
  }

  lemma FanStoreKeeps(s: State, save: W.Step<nat>)
    requires Inv(s)
    ensures Inv(Next(s, FanStore(save)))
  {
    if !FanStoreFree(s, save) { return; }
    FanWorkKeeps(s, save);
  }

  /** Any step of the fan store that does not let a stop in outside its wait. */
  lemma FanWorkKeeps(s: State, save: W.Step<nat>)
    requires Inv(s) && !save.Edit?
    requires save.Enter? && StopsNow(s.sup, save.t) ==> At(s.sup, save.t, Sup.Persist)
    ensures Inv(s.(fans := W.Next(s.fans, save)))
  {
    var s' := s.(fans := W.Next(s.fans, save));
    FansWork(s.fans, save);
    forall t | StopsNow(s.sup, t) && t in s'.fans.callers
      ensures s.sup.jobs[t].op.stop.phase.Persist?
      ensures Seals(s.sup.jobs[t].op.stop) && SaveWriterSafety.Counting(s'.fans.callers[t]) ==>
                ZeroSince(s'.fans, s'.fans.callers[t].at)
    {
      NewFanCallers(s.fans, save, t);
      if Seals(s.sup.jobs[t].op.stop) && SaveWriterSafety.Counting(s'.fans.callers[t]) {
        SealsShut(s.sup, t);
        NowIsZero(s.fans);
        SaveWriterSafety.StepKeepsMoments(s.fans, save, t);
      }
    }
  }

  lemma NewFanCallers(f: W.State<nat>, save: W.Step<nat>, t: TaskId)
    requires W.WellFormed(f) && t in W.Next(f, save).callers
    ensures t in f.callers || (save.Enter? && save.t == t)
  {
  }

  lemma PlanStoreKeeps(s: State, write: W.Step<Plan>)
    requires Inv(s)
    ensures Inv(Next(s, PlanStore(write)))
  {
    if PlanStoreFree(write) {
      PlansWork(s.plans, write);
      PlanCallersStay(s, write);
    }
  }

  lemma PlanCallersStay(s: State, write: W.Step<Plan>)
    requires Inv(s) && !write.Edit? && (write.Enter? ==> s.sched.sched.latched)
    ensures PlanCallers(s.(plans := W.Next(s.plans, write)))
    ensures forall t :: t in W.Next(s.plans, write).callers ==> t in s.plans.callers || (write.Enter? && write.t == t)
  {
    var p' := W.Next(s.plans, write);
    PlansWork(s.plans, write);
    forall t | t in p'.callers
      ensures t in s.plans.callers || (write.Enter? && write.t == t)
      ensures s.sched.sched.latched
      ensures SaveWriterSafety.Counting(p'.callers[t]) ==> InhibitedSince(p', p'.callers[t].at)
    {
      NewPlanCallers(s.plans, write, t);
      if SaveWriterSafety.Counting(p'.callers[t]) {
        NowIsInhibited(s.plans);
        SaveWriterSafety.StepKeepsMoments(s.plans, write, t);
      }
    }
  }

  lemma NewPlanCallers(p: W.State<Plan>, write: W.Step<Plan>, t: TaskId)
    requires W.WellFormed(p) && t in W.Next(p, write).callers
    ensures t in p.callers || (write.Enter? && write.t == t)
  {
  }

  // ---- the two waits of a stop ----

  lemma LatchedKeeps(s: State)
    requires Inv(s) && SchedulerCore.NothingPending(s.sched.sched)
    ensures var s1 := Published(s.(sched := Sched.Next(s.sched, Sched.InhibitAll)));
            Inv(s1) && s1.sched.sched.latched && s1.plans.callers == s.plans.callers && s1.sup == s.sup
  {
    SystemFresh.InhibitLatches(s.sched);
    RepublishKeeps(s, Sched.Next(s.sched, Sched.InhibitAll));
    MovedPlans(s, Sched.Next(s.sched, Sched.InhibitAll));
  }

  /** A stop that waits in its automatic phase may enter the schedule store once latched. */
  lemma PlanCallKeeps(s: State, t: TaskId, admitted: bool)
    requires Inv(s) && s.sched.sched.latched && At(s.sup, t, Sup.Auto) && t !in s.plans.callers
    ensures Inv(s.(plans := W.Next(s.plans, W.Enter(t, admitted))))
  {
    PlansWork(s.plans, W.Enter(t, admitted));
    PlanCallersStay(s, W.Enter(t, admitted));
  }

  lemma AutoLatchKeeps(s: State, t: TaskId, admitted: bool)
    requires Inv(s)
    ensures Inv(Next(s, AutoLatch(t, admitted)))
  {
    if At(s.sup, t, Sup.Auto) && t !in s.plans.callers && SchedulerCore.NothingPending(s.sched.sched) {
      LatchedKeeps(s);
      PlanCallKeeps(Published(s.(sched := Sched.Next(s.sched, Sched.InhibitAll))), t, admitted);
    }
  }

  lemma PersistCallKeeps(s: State, t: TaskId, admitted: bool)
    requires Inv(s)
    ensures Inv(Next(s, PersistCall(t, admitted)))
  {
    if At(s.sup, t, Sup.Persist) && t !in s.fans.callers { FanWorkKeeps(s, W.Enter(t, admitted)); }
  }

  /** The transaction moves on with the store's answer; only its own entry changes. */
  lemma AnswerMoves(s: Sup.State, t: TaskId, ok: bool)
    requires SupervisorSafety.Inv(s) && (At(s, t, Sup.Auto) || At(s, t, Sup.Persist))
    ensures var s', stop := Sup.Next(s, Sup.Advance(t, ok)), s.jobs[t].op.stop;
            && s'.motor == s.motor && StopsNow(s', t) && s'.jobs[t].op.stop == Sup.StopAfter(s.motor, t, stop, ok)
            && forall u :: u != t ==> (StopsNow(s', u) <==> StopsNow(s, u)) && (StopsNow(s, u) ==> s'.jobs[u] == s.jobs[u])
  {
  }

  lemma AutoAnswer(m: MotorRun.State, t: TaskId, stop: Sup.StopJob, ok: bool)
    requires stop.phase.Auto?
    ensures var stop' := Sup.StopAfter(m, t, stop, ok);
            Routed(stop') && stop'.out.automatic == ok && !stop'.phase.Auto?
            && !(stop'.phase.Finish? && Seals(stop'))
  {
  }

  lemma PersistAnswer(m: MotorRun.State, t: TaskId, stop: Sup.StopJob, ok: bool)
    requires stop.phase.Persist?
    ensures var stop' := Sup.StopAfter(m, t, stop, ok);
            Routed(stop') && stop'.out.automatic == stop.out.automatic && !stop'.phase.Auto? && !stop'.phase.Persist?
            && PastAuto(stop.phase) && stop'.out.persistence == ok && (Seals(stop') ==> Seals(stop))
  {
  }

  /** The stop of task t moves on to sup' while the stores stay as they are, or let t out. */
  lemma AnswerKeepsRest(s: State, s1: State, t: TaskId, ok: bool)
    requires Inv(s) && (At(s.sup, t, Sup.Auto) || At(s.sup, t, Sup.Persist))
    requires s1.sup == Sup.Next(s.sup, Sup.Advance(t, ok)) && s1.sched == s.sched
    requires W.Inv(s1.fans) && W.Inv(s1.plans) && |s1.fans.last| == |s.fans.last| && |s1.plans.last| == 1
    requires W.Live(s1.fans) == W.Live(s.fans) && W.Live(s1.plans) == W.Live(s.plans)
    requires s1.fans.callers == s.fans.callers - {t} && s1.plans.callers == s.plans.callers - {t}
    requires (FansDurable(s.fans) ==> FansDurable(s1.fans)) && forall k :: ZeroSince(s.fans, k) ==> ZeroSince(s1.fans, k)
    requires (PlansDurable(s.plans) ==> PlansDurable(s1.plans))
             && forall k :: InhibitedSince(s.plans, k) ==> InhibitedSince(s1.plans, k)
    requires At(s.sup, t, Sup.Auto) && ok ==> s.sched.sched.latched && PlansDurable(s1.plans)
    requires At(s.sup, t, Sup.Persist) && ok && Seals(s.sup.jobs[t].op.stop) ==> FansDurable(s1.fans)
    ensures Inv(s1)
  {
    var stop := s.sup.jobs[t].op.stop;
    AnswerMoves(s.sup, t, ok);
    ShutStays(s.sup, Sup.Advance(t, ok));
    if stop.phase.Auto? { AutoAnswer(s.sup.motor, t, stop, ok); } else { PersistAnswer(s.sup.motor, t, stop, ok); }
    AnswerKeepsTold(s, s1, t, ok);
  }

  lemma AnswerKeepsTold(s: State, s1: State, t: TaskId, ok: bool)
    requires Inv(s) && s1.sched == s.sched && StopsNow(s.sup, t) && StopsNow(s1.sup, t)
    requires W.WellFormed(s1.fans) && W.WellFormed(s1.plans)
    requires forall u :: u != t ==> (StopsNow(s1.sup, u) <==> StopsNow(s.sup, u))
    requires forall u :: u != t && StopsNow(s.sup, u) && StopsNow(s1.sup, u) ==> s1.sup.jobs[u] == s.sup.jobs[u]
    requires s1.fans.callers == s.fans.callers - {t} && s1.plans.callers == s.plans.callers - {t}
    requires (FansDurable(s.fans) ==> FansDurable(s1.fans)) && forall k :: ZeroSince(s.fans, k) ==> ZeroSince(s1.fans, k)
    requires (PlansDurable(s.plans) ==> PlansDurable(s1.plans))
             && forall k :: InhibitedSince(s.plans, k) ==> InhibitedSince(s1.plans, k)
    requires var stop' := s1.sup.jobs[t].op.stop;
             && Routed(stop')
             && (PastAuto(stop'.phase) && stop'.out.automatic ==> s.sched.sched.latched && PlansDurable(s1.plans))
             && (stop'.phase.Finish? && Seals(stop') && stop'.out.persistence ==> FansDurable(s1.fans))
    ensures Waiting(s1) && PlanCallers(s1) && FanCallers(s1) && Told(s1)
  {
  }

  /** The stop has heard from the schedule store and left it. */
  lemma AutoAnswered(s: State, t: TaskId)
    requires Inv(s) && At(s.sup, t, Sup.Auto) && t in s.plans.callers && s.plans.callers[t].Done?
    ensures Inv(s.(sup := Sup.Next(s.sup, Sup.Advance(t, s.plans.callers[t].ok)), plans := W.Next(s.plans, W.Leave(t))))
  {
    var ok := s.plans.callers[t].ok;
    var s1 := s.(sup := Sup.Next(s.sup, Sup.Advance(t, ok)), plans := W.Next(s.plans, W.Leave(t)));
    PlansWork(s.plans, W.Leave(t));
    SaveWriterSafety.EnterAndLeave(s.plans, t, false);
    assert s.fans.callers == s.fans.callers - {t};
    if ok { PlansAcknowledged(s.plans, t); }
    AnswerKeepsRest(s, s1, t, ok);
  }

  lemma AutoReturnKeeps(s: State, t: TaskId)
    requires Inv(s)
    ensures Inv(Next(s, AutoReturn(t)))
  {
    if At(s.sup, t, Sup.Auto) && t in s.plans.callers && s.plans.callers[t].Done? {
      AutoAnswered(s, t);
      RepublishKeeps(
        s.(sup := Sup.Next(s.sup, Sup.Advance(t, s.plans.callers[t].ok)), plans := W.Next(s.plans, W.Leave(t))), s.sched);
    }
  }

  lemma AutoTimedOut(s: State, t: TaskId)
    requires Inv(s) && At(s.sup, t, Sup.Auto) && t !in s.plans.callers
    ensures Inv(s.(sup := Sup.Next(s.sup, Sup.Advance(t, false))))
  {
    var s1 := s.(sup := Sup.Next(s.sup, Sup.Advance(t, false)));
    assert s.fans.callers == s.fans.callers - {t} && s.plans.callers == s.plans.callers - {t};
    AnswerKeepsRest(s, s1, t, false);
  }

  lemma AutoTimeoutKeeps(s: State, t: TaskId)
    requires Inv(s)
    ensures Inv(Next(s, AutoTimeout(t)))
  {
    if At(s.sup, t, Sup.Auto) && t !in s.plans.callers {
      AutoTimedOut(s, t);
      RepublishKeeps(s.(sup := Sup.Next(s.sup, Sup.Advance(t, false))), s.sched);
      AutoTimeoutIs(s, t);
    }
  }

  lemma AutoTimeoutIs(s: State, t: TaskId)
    requires WellFormed(s) && At(s.sup, t, Sup.Auto) && t !in s.plans.callers
    ensures Next(s, AutoTimeout(t)) == Published(s.(sup := Sup.Next(s.sup, Sup.Advance(t, false))))
  {
  }

  /** The stop has heard from the fan store and left it. */
  lemma PersistAnswered(s: State, t: TaskId)
    requires Inv(s) && At(s.sup, t, Sup.Persist) && t in s.fans.callers && s.fans.callers[t].Done?
    ensures Inv(s.(sup := Sup.Next(s.sup, Sup.Advance(t, s.fans.callers[t].ok)), fans := W.Next(s.fans, W.Leave(t))))
  {
    var ok := s.fans.callers[t].ok;
    var s1 := s.(sup := Sup.Next(s.sup, Sup.Advance(t, ok)), fans := W.Next(s.fans, W.Leave(t)));
    FansWork(s.fans, W.Leave(t));
    SaveWriterSafety.EnterAndLeave(s.fans, t, false);
    assert s.plans.callers == s.plans.callers - {t};
    if ok && Seals(s.sup.jobs[t].op.stop) { FansAcknowledged(s.fans, t); }
    AnswerKeepsRest(s, s1, t, ok);
  }

  lemma PersistReturnKeeps(s: State, t: TaskId)
    requires Inv(s)
    ensures Inv(Next(s, PersistReturn(t)))
  {
    if At(s.sup, t, Sup.Persist) && t in s.fans.callers && s.fans.callers[t].Done? {
      PersistAnswered(s, t);
      RepublishKeeps(PersistHeard(s, t), s.sched);
      PersistReturnIs(s, t);
    }
  }

  /** The stop has its answer; the stores have not seen what else it changed. */
  function PersistHeard(s: State, t: TaskId): State
    requires WellFormed(s) && t in s.fans.callers && s.fans.callers[t].Done?
  {
    s.(sup := Sup.Next(s.sup, Sup.Advance(t, s.fans.callers[t].ok)), fans := W.Next(s.fans, W.Leave(t)))
  }

  lemma PersistReturnIs(s: State, t: TaskId)
    requires WellFormed(s) && At(s.sup, t, Sup.Persist) && t in s.fans.callers && s.fans.callers[t].Done?
    requires WellFormed(PersistHeard(s, t))
    ensures Next(s, PersistReturn(t)) == Published(PersistHeard(s, t))
  {
  }

  /** Every step keeps the invariant. */
  lemma NextKeepsInv(s: State, step: Step)
    requires Inv(s)
    ensures Inv(Next(s, step))
  {
    match step {
      case Control(op) => ControlKeeps(s, op);
      case Schedule(op) => ScheduleKeeps(s, op);
      case FanStore(save) => FanStoreKeeps(s, save);
      case PlanStore(write) => PlanStoreKeeps(s, write);
      case AutoLatch(t, admitted) => AutoLatchKeeps(s, t, admitted);
      case AutoReturn(t) => AutoReturnKeeps(s, t);
      case AutoTimeout(t) => AutoTimeoutKeeps(s, t);
      case PersistCall(t, admitted) => PersistCallKeeps(s, t, admitted);
      case PersistReturn(t) => PersistReturnKeeps(s, t);
    }
  }
}
