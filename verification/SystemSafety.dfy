/** Across module borders: which task is where, and why no stale target is ever restored. */
module SystemSafety {
  import opened Prelude
  import opened SystemRun
  import opened MotorChanges
  import MotorCore
  import MotorRun
  import MotorSafety
  import MotorLatch
  import Sup = SupervisorRun
  import SupervisorSafety
  import Sched = SchedulerRun
  import SchedulerCore

  // ---- who is waiting for whom ----

  predicate StopsNow(s: Sup.State, t: TaskId) { t in s.jobs && s.jobs[t].op.Stopping? }

  predicate SectionWait(s: Sup.State, t: TaskId) {
    StopsNow(s, t) && s.jobs[t].op.stop.phase.Section? && s.jobs[t].op.stop.phase.stage.Wait?
  }

  predicate OwnStop(task: MotorRun.Task) { MotorLatch.IsStop(task) && task.kind != MotorCore.Global }

  /** A motor stop other than the global latch belongs to a waiting stop transaction. */
  ghost predicate StopsOwned(s: Sup.State) {
    forall t :: t in s.motor.tasks && OwnStop(s.motor.tasks[t]) ==> SectionWait(s, t)
  }

  /** Only the owner of the tach mutex runs a stop of all tach channels. */
  ghost predicate TachStopsOwned(s: Sup.State, tach: Owner) {
    forall t :: StopsNow(s, t) && s.jobs[t].op.stop.action.StopTachAll? ==> tach == Held(t, StopRunning)
  }

  predicate IsManual(job: Sched.Job) { job.ManualCall? || job.ManualDone? }

  ghost predicate ManualGuarded(s: Sup.State, jobs: map<TaskId, Sched.Job>) {
    forall t :: t in jobs && IsManual(jobs[t]) ==> HoldsGuard(s, t)
  }

  /** The owner of the tach mutex is inside the scheduler exactly while it cancels. */
  predicate Cancels(tach: Owner, jobs: map<TaskId, Sched.Job>) {
    tach.Held? ==>
      if tach.stage.Cancelling? then tach.t in jobs && jobs[tach.t] == Sched.CancelHeld(tach.stage.fan)
      else tach.t !in jobs
  }

  ghost predicate Base(s: State) {
    && SupervisorSafety.Inv(s.sup) && Sched.Inv(s.sched)
    && |Core(s).fans| == |s.sched.sched.fans|
  }

  ghost predicate Wired(s: State) {
    && StopsOwned(s.sup) && TachStopsOwned(s.sup, s.tach)
    && ManualGuarded(s.sup, s.sched.jobs) && Cancels(s.tach, s.sched.jobs)
  }

  /** A stop is still owned after any step of its transaction or of the motors. */
  lemma StopsStayOwned(s: Sup.State, step: Sup.Step)
    requires SupervisorSafety.Inv(s) && StopsOwned(s)
    requires step.Motor? && step.step.CallStop? ==> step.step.kind == MotorCore.Global
    ensures StopsOwned(Sup.Next(s, step))
  {
    var s', part := Sup.Next(s, step), Sup.MotorPart(s, step);
    forall u | u in s'.motor.tasks && OwnStop(s'.motor.tasks[u])
      ensures SectionWait(s', u)
    {
      if part.Some? {
        StopsComeFromCalls(s.motor, part.value, u);
      }
      StopStaysOwned(s, step, u);
    }
  }

  lemma StopStaysOwned(s: Sup.State, step: Sup.Step, u: TaskId)
    requires SupervisorSafety.Inv(s)
    requires u in Sup.Next(s, step).motor.tasks
    requires SectionWait(s, u) || (exists kind, clear, rollback ::
               Sup.MotorPart(s, step) == Some(MotorRun.CallStop(u, kind, clear, rollback)) && !step.Motor?)
    ensures SectionWait(Sup.Next(s, step), u)
  {
    SupervisorSafety.ControlMoves(s, step);
    if SupervisorSafety.Actor(step) == Some(u) && SectionWait(s, u) {
      CollectRemoves(s, step, u);
    }
  }

  /** A stop that leaves its wait takes the motor task with it. */
  lemma CollectRemoves(s: Sup.State, step: Sup.Step, u: TaskId)
    requires SupervisorSafety.Inv(s) && SupervisorSafety.Actor(step) == Some(u) && SectionWait(s, u)
    ensures SectionWait(Sup.Next(s, step), u) || u !in Sup.Next(s, step).motor.tasks
  {
    if step.Advance? {
      var stop := s.jobs[u].op.stop;
      if u in s.motor.tasks && s.motor.tasks[u].Returned? {
        assert Sup.MotorPart(s, step) == Some(MotorRun.Collect(u));
        CollectTakes(s.motor, u);
      } else {
        assert Sup.StopAfter(s.motor, u, stop, step.ok) == stop;
      }
    }
  }

  lemma CollectTakes(m: MotorRun.State, u: TaskId)
    requires |m.channels| == |m.core.fans| && u in m.tasks && m.tasks[u].Returned?
    ensures u !in MotorRun.Next(m, MotorRun.Collect(u)).tasks
  {
  }

  /** A transaction's action never changes while it runs. */
  lemma ActionsStay(s: Sup.State, step: Sup.Step, t: TaskId)
    requires SupervisorSafety.Mutexes(s.mutex, s.jobs) && s.depth == |SupervisorSafety.Stops(s.jobs)|
    requires StopsNow(Sup.Next(s, step), t)
    ensures var stop := Sup.Next(s, step).jobs[t].op.stop;
            if StopsNow(s, t) then stop.action == s.jobs[t].op.stop.action
            else step == Sup.Claim(t, stop.action, stop.clear)
  {
    if StopsNow(s, t) {
      if SupervisorSafety.Actor(step) == Some(t) {
        SupervisorSafety.StopsOf(s, step, t);
      } else {
        SupervisorSafety.ControlMoves(s, step);
      }
    } else {
      NewStopIsClaimed(s, step, t);
    }
  }

  lemma NewStopIsClaimed(s: Sup.State, step: Sup.Step, t: TaskId)
    requires !StopsNow(s, t) && StopsNow(Sup.Control(s, step), t)
    ensures step == Sup.Claim(t, Sup.Control(s, step).jobs[t].op.stop.action, Sup.Control(s, step).jobs[t].op.stop.clear)
  {
  }

  lemma TachStopsStayOwned(s: Sup.State, step: Sup.Step, tach: Owner, tach': Owner)
    requires SupervisorSafety.Inv(s) && TachStopsOwned(s, tach)
    requires step.Claim? && step.action.StopTachAll? ==> tach' == Held(step.t, StopRunning)
    requires tach' == tach || (tach.Held? && !tach.stage.StopRunning?)
             || (tach.Held? && !StopsNow(Sup.Next(s, step), tach.t))
    ensures TachStopsOwned(Sup.Next(s, step), tach')
  {
    var s' := Sup.Next(s, step);
    forall t | StopsNow(s', t) && s'.jobs[t].op.stop.action.StopTachAll?
      ensures tach' == Held(t, StopRunning)
    {
      ActionsStay(s, step, t);
    }
  }

  /** Only its own task takes a guard away, and a task inside the scheduler does not. */
  lemma GuardsStay(s: Sup.State, step: Sup.Step, t: TaskId)
    requires SupervisorSafety.Inv(s) && HoldsGuard(s, t)
    requires SupervisorSafety.Actor(step) == Some(t) ==> step.Advance?
    ensures HoldsGuard(Sup.Next(s, step), t)
  {
    SupervisorSafety.ControlMoves(s, step);
  }

  lemma ManualStaysGuarded(s: Sup.State, step: Sup.Step, jobs: map<TaskId, Sched.Job>)
    requires SupervisorSafety.Inv(s) && ManualGuarded(s, jobs)
    requires forall t :: t in jobs && IsManual(jobs[t]) && SupervisorSafety.Actor(step) == Some(t) ==> step.Advance?
    ensures ManualGuarded(Sup.Next(s, step), jobs)
  {
    forall t | t in jobs && IsManual(jobs[t]) ensures HoldsGuard(Sup.Next(s, step), t) {
      GuardsStay(s, step, t);
    }
  }

  // ---- before the scheduler is latched ----

  /** No stop has got past telling the scheduler: the latch is still open. */
  predicate Pre(s: State) { !s.sched.sched.latched && !s.timedOut }

  predicate EarlyPhase(phase: Sup.Phase) {
    phase.WantLock? || phase.Drive? || phase.Unlock? || phase.Auto?
    || (phase.Section? && phase.which.First?)
  }

  ghost predicate EarlyStops(s: Sup.State) {
    forall t :: StopsNow(s, t) ==> EarlyPhase(s.jobs[t].op.stop.phase)
  }

  /** Communication is inhibited only by a stop that is still running. */
  ghost predicate CommHeld(s: Sup.State) {
    s.motor.core.communication ==> exists t :: StopsNow(s, t) && !s.jobs[t].op.stop.phase.WantLock?
  }

  ghost predicate Early(s: State) {
    && EarlyStops(s.sup) && CommHeld(s.sup) && Armed(s.sup.motor) && !s.finished
    && (s.tach.Held? && s.tach.stage.StopRunning? ==> StopsNow(s.sup, s.tach.t))
  }

  /** Until it has told the scheduler, a stop only moves forward through its early phases. */
  lemma StopsStayEarly(s: Sup.State, step: Sup.Step)
    requires SupervisorSafety.Inv(s) && EarlyStops(s)
    requires step.Advance? ==> !AtAuto(s, step.t)
    ensures EarlyStops(Sup.Next(s, step))
    ensures forall t :: StopsNow(s, t) ==>
              StopsNow(Sup.Next(s, step), t)
              && (Sup.Next(s, step).jobs[t].op.stop.phase.WantLock? ==> s.jobs[t].op.stop.phase.WantLock?)
  {
    var s' := Sup.Next(s, step);
    SupervisorSafety.ControlMoves(s, step);
    forall t | StopsNow(s', t) ensures EarlyPhase(s'.jobs[t].op.stop.phase) {
      if SupervisorSafety.Actor(step) == Some(t) { StopStaysEarly(s, step, t); }
    }
    forall t | StopsNow(s, t)
      ensures StopsNow(s', t) && (s'.jobs[t].op.stop.phase.WantLock? ==> s.jobs[t].op.stop.phase.WantLock?)
    {
      if SupervisorSafety.Actor(step) == Some(t) { StopStaysEarly(s, step, t); }
    }
  }

  lemma StopStaysEarly(s: Sup.State, step: Sup.Step, t: TaskId)
    requires EarlyStops(s) && SupervisorSafety.Actor(step) == Some(t)
    requires step.Advance? ==> !AtAuto(s, step.t)
    ensures StopsNow(Sup.Next(s, step), t) ==> EarlyPhase(Sup.Next(s, step).jobs[t].op.stop.phase)
    ensures StopsNow(s, t) ==>
              StopsNow(Sup.Next(s, step), t)
              && (Sup.Next(s, step).jobs[t].op.stop.phase.WantLock? ==> s.jobs[t].op.stop.phase.WantLock?)
  {
    if StopsNow(s, t) {
      assert EarlyPhase(s.jobs[t].op.stop.phase);
    }
  }

  /** The motor side of a supervisor step before the latch: nothing is lifted. */
  predicate Gentle(s: Sup.State, step: Sup.Step) {
    match Sup.MotorPart(s, step)
    case None => true
    case Some(m) => Quiet(m)
  }

  lemma EarlyStepsAreGentle(s: Sup.State, step: Sup.Step)
    requires EarlyStops(s) && (step.Motor? ==> Quiet(step.step))
    ensures Gentle(s, step)
  {
    if step.Advance? && StopsNow(s, step.t) { assert EarlyPhase(s.jobs[step.t].op.stop.phase); }
  }

  predicate Enters(s: Sup.State, step: Sup.Step) {
    step.Motor? && Entering(s.motor, step.step)
  }

  lemma GentleTightens(s: Sup.State, step: Sup.Step)
    requires SupervisorSafety.Inv(s) && Gentle(s, step)
    ensures var c, c' := s.motor.core, Sup.Next(s, step).motor.core;
            && Tightens(c, c')
            && (Enters(s, step) || (SameManual(c, c') && c'.communication == c.communication))
  {
    if Sup.MotorPart(s, step).Some? { QuietTightens(s.motor, Sup.MotorPart(s, step).value); }
  }

  lemma ArmedStays(s: Sup.State, step: Sup.Step)
    requires SupervisorSafety.Inv(s) && Gentle(s, step) && Armed(s.motor)
    ensures Armed(Sup.Next(s, step).motor)
  {
    var m', part := Sup.Next(s, step).motor, Sup.MotorPart(s, step);
    GentleTightens(s, step);
    forall u | u in m'.tasks && MotorSafety.InStop(m'.tasks[u]) && m'.tasks[u].kind == MotorCore.Maintenance
      ensures m'.core.maintenance > 0
    {
      if part.Some? { StopsComeFromCalls(s.motor, part.value, u); }
    }
  }

  /** The stop that enters is the global latch, or an early stop whose inhibit is now in force. */
  lemma EntersInForce(s: Sup.State, step: Sup.Step)
    requires SupervisorSafety.Inv(s) && EarlyStops(s) && StopsOwned(s) && Armed(s.motor)
    requires Enters(s, step) && Sup.MotorStepAllowed(s, step.step)
    ensures var c', t := Sup.Next(s, step).motor.core, step.step.t;
            c'.global
            || (SectionWait(s, t) && s.jobs[t].op.stop.action == Sup.StopTachAll
                && InForce(c', MotorCore.TachAll) && c'.communication == s.motor.core.communication)
            || (SectionWait(s, t) && !s.jobs[t].op.stop.action.StopTachAll?
                && (c'.rmt || c'.communication || c'.maintenance > 0))
  {
    var t := step.step.t;
    var task := s.motor.tasks[t];
    EntryInForce(s.motor, step.step);
    EnterTightens(s.motor.core, task.kind, task.clear);
    if task.kind != MotorCore.Global {
      assert OwnStop(task) && SectionWait(s, t);
      assert EarlyPhase(s.jobs[t].op.stop.phase);
      assert SupervisorSafety.LinkValid(s.motor, t, s.jobs[t].op.stop);
    }
  }

  lemma CommStaysHeld(s: Sup.State, step: Sup.Step)
    requires SupervisorSafety.Inv(s) && EarlyStops(s) && StopsOwned(s) && CommHeld(s) && Gentle(s, step)
    requires step.Advance? ==> !AtAuto(s, step.t)
    ensures CommHeld(Sup.Next(s, step))
  {
    var s' := Sup.Next(s, step);
    StopsStayEarly(s, step);
    GentleTightens(s, step);
    if s'.motor.core.communication && !s.motor.core.communication {
      var t := step.step.t;
      EnterTightens(s.motor.core, s.motor.tasks[t].kind, s.motor.tasks[t].clear);
      assert OwnStop(s.motor.tasks[t]) && SectionWait(s, t);
      assert StopsNow(s', t) && !s'.jobs[t].op.stop.phase.WantLock?;
    } else if s'.motor.core.communication {
      var t :| StopsNow(s, t) && !s.jobs[t].op.stop.phase.WantLock?;
      assert StopsNow(s', t) && !s'.jobs[t].op.stop.phase.WantLock?;
    }
  }

  // ---- fresh restore targets ----

  /** While this task owns the tach mutex it will not let fan f run a schedule again. */
  predicate Covers(tach: Owner, f: nat) {
    tach.Held? &&
      match tach.stage
      case Inhibiting(g) => g == f
      case Inhibited(g) => g == f
      case Cancelling(g) => g == f
      case Escalate => true
      case StopRunning => true
      case _ => false
  }

  /** No automatic request on fan f is accepted before the scheduler is latched. */
  predicate Blocked(c: MotorCore.Core, tach: Owner, f: nat)
    requires f < |c.fans|
  {
    c.global || c.rmt || c.communication || c.maintenance > 0 || (c.fans[f].tachInhibited && Covers(tach, f))
  }

  /** A manual command on fan f has been accepted and is about to cancel its schedule. */
  ghost predicate ManualLanded(jobs: map<TaskId, Sched.Job>, f: nat) {
    exists t :: t in jobs && jobs[t] == Sched.ManualDone(f, true)
  }

  predicate Landing(job: Sched.Job, f: nat) { job.StartDone? && job.fan == f && job.accepted }

  /** The displaced target a fan would be restored to is its manual target. */
  ghost predicate FreshFan(c: MotorCore.Core, tach: Owner, sched: Sched.State, f: nat)
    requires f < |c.fans| == |sched.sched.fans|
  {
    var fan, manual := sched.sched.fans[f], c.fans[f].manual;
    && (fan.active >= 0 ==> fan.saved == manual || Blocked(c, tach, f) || ManualLanded(sched.jobs, f))
    && (forall t :: t in sched.jobs && Landing(sched.jobs[t], f) ==>
          sched.jobs[t].manual == manual || Blocked(c, tach, f))
  }

  ghost predicate Fresh(s: State)
    requires |Core(s).fans| == |s.sched.sched.fans|
  {
    forall f :: 0 <= f < |Core(s).fans| ==> FreshFan(Core(s), s.tach, s.sched, f)
  }

  /** Before the first START nothing runs and nothing is about to. */
  ghost predicate Unstarted(sched: Sched.State) {
    Sched.AllIdle(sched.sched) && forall t :: t in sched.jobs ==> !sched.jobs[t].StartDone?
  }

  ghost predicate Inv(s: State) {
    && Base(s) && Wired(s)
    && (Pre(s) ==> Early(s))
    && (Pre(s) && !s.late ==> Fresh(s))
    && (!s.started ==> Unstarted(s.sched))
  }

  /** Motors and tach owner move while the scheduler stands still. */
  lemma FreshFrame(c: MotorCore.Core, c': MotorCore.Core, tach: Owner, tach': Owner, sched: Sched.State, f: nat)
    requires f < |c.fans| == |c'.fans| == |sched.sched.fans| && FreshFan(c, tach, sched, f)
    requires Blocked(c', tach', f) || (c'.fans[f].manual == c.fans[f].manual && !Blocked(c, tach, f))
    ensures FreshFan(c', tach', sched, f)
  {
  }

  lemma TighterBlocks(c: MotorCore.Core, c': MotorCore.Core, tach: Owner, f: nat)
    requires Tightens(c, c') && f < |c.fans| && Blocked(c, tach, f)
    ensures Blocked(c', tach, f)
  {
  }
}
