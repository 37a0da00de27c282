/** Every step of the system keeps restore targets fresh; the theorem over whole runs. */
module SystemFresh {
  import opened Prelude
  import opened SystemRun
  import opened SystemSafety
  import opened MotorChanges
  import MotorCore
  import MotorRun
  import MotorSafety
  import Sup = SupervisorRun
  import SupervisorSafety
  import Sched = SchedulerRun
  import SchedulerCore

  lemma SizeStays(s: Sup.State, step: Sup.Step)
    requires Sup.WellFormed(s)
    ensures Sup.WellFormed(Sup.Next(s, step))
    ensures |Sup.Next(s, step).motor.core.fans| == |s.motor.core.fans|
  {
    if Sup.MotorPart(s, step).Some? { MotorSizeStays(s.motor, Sup.MotorPart(s, step).value); }
  }

  lemma MotorSizeStays(m: MotorRun.State, step: MotorRun.Step)
    requires |m.channels| == |m.core.fans|
    ensures |MotorRun.Next(m, step).core.fans| == |m.core.fans|
  {
  }

  // ---- supervisor and motor steps ----

  /** A supervisor step, possibly with a new tach stage, keeps Base and Wired. */
  lemma SupMoveKeepsWires(s: State, step: Sup.Step, tach': Owner)
    requires Base(s) && Wired(s)
    requires step.Motor? && step.step.CallStop? ==> step.step.kind == MotorCore.Global
    requires forall t :: Busy(s, t) && SupervisorSafety.Actor(step) == Some(t) ==>
               step.Advance? || (step.Claim? && s.tach.Held? && s.tach.t == t)
    requires step.Claim? && step.action.StopTachAll? ==> tach' == Held(step.t, StopRunning)
    requires tach' == s.tach || (s.tach.Held? && tach'.Held? && tach'.t == s.tach.t
               && !s.tach.stage.StopRunning? && !s.tach.stage.Cancelling? && !tach'.stage.Cancelling?)
    ensures Base(s.(sup := Sup.Next(s.sup, step), tach := tach'))
    ensures Wired(s.(sup := Sup.Next(s.sup, step), tach := tach'))
  {
    SupervisorSafety.NextKeepsInv(s.sup, step);
    SizeStays(s.sup, step);
    StopsStayOwned(s.sup, step);
    TachStopsStayOwned(s.sup, step, s.tach, tach');
    forall t | t in s.sched.jobs && IsManual(s.sched.jobs[t]) && SupervisorSafety.Actor(step) == Some(t)
      ensures step.Advance?
    {
      assert Busy(s, t);
    }
    ManualStaysGuarded(s.sup, step, s.sched.jobs);
  }

  /** A gentle supervisor step keeps everything known before the latch. */
  lemma SupMoveStaysEarly(s: State, step: Sup.Step)
    requires Base(s) && Wired(s) && Early(s) && Gentle(s.sup, step)
    requires step.Advance? ==> !AtAuto(s.sup, step.t)
    ensures Early(s.(sup := Sup.Next(s.sup, step)))
  {
    StopsStayEarly(s.sup, step);
    CommStaysHeld(s.sup, step);
    ArmedStays(s.sup, step);
  }

  lemma SupMoveStaysFresh(s: State, step: Sup.Step)
    requires SupervisorSafety.Inv(s.sup) && StopsOwned(s.sup) && TachStopsOwned(s.sup, s.tach)
    requires EarlyStops(s.sup) && Armed(s.sup.motor) && Gentle(s.sup, step)
    requires |Core(s).fans| == |s.sched.sched.fans| && Fresh(s)
    requires Enters(s.sup, step) ==> Sup.MotorStepAllowed(s.sup, step.step)
    requires |Sup.Next(s.sup, step).motor.core.fans| == |Core(s).fans|
    ensures Fresh(s.(sup := Sup.Next(s.sup, step)))
  {
    var c, c' := Core(s), Sup.Next(s.sup, step).motor.core;
    GentleTightens(s.sup, step);
    EntryBlocks(s, step);
    forall f | 0 <= f < |c.fans| ensures FreshFan(c', s.tach, s.sched, f) {
      assert FreshFan(c, s.tach, s.sched, f);
      TightFan(c, c', s.tach, s.sched, f);
    }
  }

  /** A stop that enters blocks every fan until the scheduler is latched. */
  lemma EntryBlocks(s: State, step: Sup.Step)
    requires SupervisorSafety.Inv(s.sup) && StopsOwned(s.sup) && TachStopsOwned(s.sup, s.tach)
    requires EarlyStops(s.sup) && Armed(s.sup.motor)
    requires Enters(s.sup, step) ==> Sup.MotorStepAllowed(s.sup, step.step)
    ensures var c' := Sup.Next(s.sup, step).motor.core;
            Enters(s.sup, step) ==> forall f :: 0 <= f < |c'.fans| ==> Blocked(c', s.tach, f)
  {
    if Enters(s.sup, step) { EntersInForce(s.sup, step); }
  }

  lemma TightFan(c: MotorCore.Core, c': MotorCore.Core, tach: Owner, sched: Sched.State, f: nat)
    requires Tightens(c, c') && f < |c.fans| == |sched.sched.fans| && FreshFan(c, tach, sched, f)
    requires Blocked(c', tach, f) || c'.fans[f].manual == c.fans[f].manual
    ensures FreshFan(c', tach, sched, f)
  {
    if Blocked(c, tach, f) { TighterBlocks(c, c', tach, f); }
    FreshFrame(c, c', tach, tach, sched, f);
  }

  lemma SupStepKeeps(s: State, step: Sup.Step)
    requires Inv(s)
    ensures Inv(Next(s, SupStep(step)))
  {
    if SupStepFree(s, step) {
      SupMoveKeepsWires(s, step, s.tach);
      if Pre(s) { FreeStepStaysEarly(s, step); }
      if Pre(s) && !s.late { FreeStepStaysFresh(s, step); }
    }
  }

  lemma FreeStepStaysEarly(s: State, step: Sup.Step)
    requires Base(s) && Wired(s) && Early(s) && SupStepFree(s, step)
    ensures Early(Next(s, SupStep(step)))
  {
    EarlyStepsAreGentle(s.sup, step);
    SupMoveStaysEarly(s, step);
    NotFinishing(s, step);
    FreeStepActs(s, step);
  }

  lemma FreeStepActs(s: State, step: Sup.Step)
    requires SupStepFree(s, step) && !s.finished && (step.Advance? ==> !AtFinish(s.sup, step.t))
    ensures Next(s, SupStep(step)) == s.(sup := Sup.Next(s.sup, step))
  {
  }

  lemma FreeStepStaysFresh(s: State, step: Sup.Step)
    requires SupervisorSafety.Inv(s.sup) && StopsOwned(s.sup) && TachStopsOwned(s.sup, s.tach)
    requires EarlyStops(s.sup) && Armed(s.sup.motor) && SupStepFree(s, step)
    requires |Core(s).fans| == |s.sched.sched.fans| && Fresh(s)
    requires |Sup.Next(s.sup, step).motor.core.fans| == |Core(s).fans|
    ensures Fresh(s.(sup := Sup.Next(s.sup, step)))
  {
    EarlyStepsAreGentle(s.sup, step);
    EnteringIsAllowed(s.sup, step);
    SupMoveStaysFresh(s, step);
  }

  lemma EnteringIsAllowed(s: Sup.State, step: Sup.Step)
    ensures Enters(s, step) ==> Sup.MotorStepAllowed(s, step.step)
  {
  }

  lemma NotFinishing(s: State, step: Sup.Step)
    requires Early(s)
    ensures step.Advance? ==> !AtFinish(s.sup, step.t)
  {
    if step.Advance? && StopsNow(s.sup, step.t) {
      assert EarlyPhase(s.sup.jobs[step.t].op.stop.phase);
    }
  }

  lemma TimeoutKeeps(s: State, t: TaskId)
    requires Inv(s)
    ensures Inv(Next(s, AutoTimeout(t)))
  {
    if AtAuto(s.sup, t) { SupMoveKeepsWires(s, Sup.Advance(t, false), s.tach); }
  }

  /** The scheduler is latched for good, and nothing runs any more. */
  lemma AutoKeeps(s: State, t: TaskId, ok: bool)
    requires Inv(s)
    ensures Inv(Next(s, AutoInhibit(t, ok)))
  {
    if AtAuto(s.sup, t) && SchedulerCore.NothingPending(s.sched.sched) {
      SupMoveKeepsWires(s, Sup.Advance(t, ok), s.tach);
      InhibitLatches(s.sched);
    }
  }

  lemma InhibitLatches(s: Sched.State)
    requires Sched.Inv(s) && SchedulerCore.NothingPending(s.sched)
    ensures var s' := Sched.Next(s, Sched.InhibitAll);
            && Sched.Inv(s') && s'.jobs == s.jobs && s'.sched.latched && Sched.AllIdle(s'.sched)
            && |s'.sched.fans| == |s.sched.fans|
  {
    Sched.NextKeepsInv(s, Sched.InhibitAll);
  }

  // ---- scheduler steps ----

  /** What a scheduler step means for the running slot of one fan. */
  predicate SlotKept(s: Sched.State, s': Sched.State, f: nat)
    requires f < |s.sched.fans| == |s'.sched.fans|
  {
    s'.sched.fans[f].active >= 0 ==>
      s.sched.fans[f].active >= 0 && s'.sched.fans[f].saved == s.sched.fans[f].saved
  }

  ghost predicate SlotLanded(s: Sched.State, s': Sched.State, f: nat)
    requires f < |s.sched.fans| == |s'.sched.fans|
  {
    exists t :: t in s.jobs && Landing(s.jobs[t], f) && s.jobs[t].manual == s'.sched.fans[f].saved
  }

  predicate NoNewStarts(s: Sched.State, s': Sched.State) {
    forall t :: t in s'.jobs && s'.jobs[t].StartDone? ==> t in s.jobs && s.jobs[t] == s'.jobs[t]
  }

  ghost predicate Summary(s: Sched.State, s': Sched.State, f: nat)
    requires f < |s.sched.fans| == |s'.sched.fans|
  {
    && (SlotKept(s, s', f) || SlotLanded(s, s', f)) && NoNewStarts(s, s')
    && (ManualLanded(s.jobs, f) ==> ManualLanded(s'.jobs, f) || s'.sched.fans[f].active < 0)
    && (s.sched.latched ==> s'.sched.latched)
  }

  /** An advance changes at most its own task's job, and never into an answered start. */
  lemma AdvanceKeepsOthers(s: Sched.State, t: TaskId, now: nat, timeout: bool)
    requires t in s.jobs
    ensures var jobs' := Sched.AdvanceJob(s, t, now, timeout).jobs;
            && (forall u :: u != t ==> Sched.JobAt(jobs', u) == Sched.JobAt(s.jobs, u))
            && (t in jobs' && jobs'[t].StartDone? ==> jobs'[t] == s.jobs[t])
  {
  }

  lemma OneFanKeepsSlots(s: Sched.State, t: TaskId, now: nat, timeout: bool, f: nat)
    requires Sched.Inv(s) && t in s.jobs && f < |s.sched.fans| && Sched.OneFan(s.jobs[t])
    requires !s.jobs[t].StartDone?
    ensures var s' := Sched.AdvanceJob(s, t, now, timeout);
            |s'.sched.fans| == |s.sched.fans| && SlotKept(s, s', f) && s'.sched.latched == s.sched.latched
  {
    assert Sched.JobValid(s.sched, s.jobs[t]);
  }

  lemma OverrideKeepsSlots(s: Sched.State, t: TaskId, now: nat, timeout: bool, f: nat)
    requires Sched.Jobs(s.sched, s.jobs) && t in s.jobs && f < |s.sched.fans| && !Sched.OneFan(s.jobs[t])
    ensures var s' := Sched.AdvanceJob(s, t, now, timeout);
            |s'.sched.fans| == |s.sched.fans| && SlotKept(s, s', f) && s'.sched.latched == s.sched.latched
  {
    var job := s.jobs[t];
    assert Sched.JobValid(s.sched, job);
    if job.OverrideHeld? {
      HeldKeepsSlots(s.sched, job.on, now, f);
    } else if job.OverrideDone? {
      DoneKeepsSlots(s.sched, job.slots, f);
    } else if job.OverrideUnwind? {
      ReleaseKeepsSlots(s.sched, job.k, f);
    }
  }

  lemma DoneKeepsSlots(c: SchedulerCore.Sched, slots: seq<int>, f: nat)
    requires f < |c.fans| == |slots|
    ensures var fan := SchedulerCore.OverrideFinish(c, slots).fans[f];
            fan.saved == c.fans[f].saved && (fan.active >= 0 ==> fan.active == c.fans[f].active)
  {
  }

  lemma ReleaseKeepsSlots(c: SchedulerCore.Sched, k: nat, f: nat)
    requires f < |c.fans|
    ensures var fan := SchedulerCore.ReleaseFirst(c, k).fans[f];
            fan.active == c.fans[f].active && fan.saved == c.fans[f].saved
  {
  }

  lemma HeldKeepsSlots(c: SchedulerCore.Sched, on: bool, now: nat, f: nat)
    requires f < |c.fans|
    ensures var c' := SchedulerCore.OverrideApply(c, on, now);
            c'.Some? ==> |c'.value.fans| == |c.fans| && c'.value.latched == c.latched
                         && c'.value.fans[f].active == c.fans[f].active && c'.value.fans[f].saved == c.fans[f].saved
    ensures SchedulerCore.ReleaseFirst(c, |c.fans|).fans[f].active == c.fans[f].active
  {
  }

  lemma AdvanceSummary(s: Sched.State, t: TaskId, now: nat, timeout: bool, f: nat)
    requires Sched.Inv(s) && t in s.jobs && f < |s.sched.fans| && !s.jobs[t].ManualDone? && !s.jobs[t].StartDone?
    ensures var s' := Sched.AdvanceJob(s, t, now, timeout);
            |s'.sched.fans| == |s.sched.fans| && SlotKept(s, s', f) && Summary(s, s', f)
  {
    var jobs' := Sched.AdvanceJob(s, t, now, timeout).jobs;
    AdvanceKeepsOthers(s, t, now, timeout);
    if Sched.OneFan(s.jobs[t]) { OneFanKeepsSlots(s, t, now, timeout, f); }
    else { OverrideKeepsSlots(s, t, now, timeout, f); }
    forall u | u in jobs' && jobs'[u].StartDone? ensures u in s.jobs && s.jobs[u] == jobs'[u] {
      assert u != t ==> Sched.JobAt(jobs', u) == Sched.JobAt(s.jobs, u);
    }
    if ManualLanded(s.jobs, f) {
      var u :| u in s.jobs && s.jobs[u] == Sched.ManualDone(f, true);
      assert Sched.JobAt(jobs', u) == Sched.JobAt(s.jobs, u);
    }
  }

  lemma StartSummary(s: Sched.State, t: TaskId, now: nat, timeout: bool, f: nat)
    requires Sched.Inv(s) && t in s.jobs && f < |s.sched.fans| && s.jobs[t].StartDone?
    ensures var s' := Sched.AdvanceJob(s, t, now, timeout);
            |s'.sched.fans| == |s.sched.fans| && Summary(s, s', f)
  {
    var job, s' := s.jobs[t], Sched.AdvanceJob(s, t, now, timeout);
    assert Sched.JobValid(s.sched, job);
    if ManualLanded(s.jobs, f) {
      var u :| u in s.jobs && s.jobs[u] == Sched.ManualDone(f, true);
      assert u in s'.jobs && s'.jobs[u] == s.jobs[u];
    }
    if job.fan == f && job.accepted && job.manual <= 100 { assert Landing(s.jobs[t], f); }
  }

  lemma ManualSummary(s: Sched.State, t: TaskId, now: nat, timeout: bool, f: nat)
    requires Sched.Inv(s) && t in s.jobs && f < |s.sched.fans| && s.jobs[t].ManualDone?
    ensures var s' := Sched.AdvanceJob(s, t, now, timeout);
            |s'.sched.fans| == |s.sched.fans| && Summary(s, s', f)
  {
    var job, s' := s.jobs[t], Sched.AdvanceJob(s, t, now, timeout);
    assert Sched.JobValid(s.sched, job);
    if ManualLanded(s.jobs, f) {
      var u :| u in s.jobs && s.jobs[u] == Sched.ManualDone(f, true);
      assert u != t ==> u in s'.jobs && s'.jobs[u] == s.jobs[u];
    }
  }

  lemma BeginSummary(s: Sched.State, step: Sched.Step, f: nat)
    requires Sched.Inv(s) && f < |s.sched.fans|
    requires !step.Callback? && !step.Advance? && !step.InhibitAll?
    ensures var s' := Sched.Next(s, step);
            |s'.sched.fans| == |s.sched.fans| && SlotKept(s, s', f) && Summary(s, s', f)
  {
    var s' := Sched.Next(s, step);
    if ManualLanded(s.jobs, f) {
      var u :| u in s.jobs && s.jobs[u] == Sched.ManualDone(f, true);
      assert u in s'.jobs && s'.jobs[u] == s.jobs[u];
    }
  }

  lemma SchedSummary(s: Sched.State, step: Sched.Step, f: nat)
    requires Sched.Inv(s) && f < |s.sched.fans| && !step.Callback? && !step.InhibitAll?
    ensures |Sched.Next(s, step).sched.fans| == |s.sched.fans| && Summary(s, Sched.Next(s, step), f)
  {
    if !step.Advance? {
      BeginSummary(s, step, f);
    } else if step.t in s.jobs {
      if s.jobs[step.t].StartDone? { StartSummary(s, step.t, step.now, step.timeout, f); }
      else if s.jobs[step.t].ManualDone? { ManualSummary(s, step.t, step.now, step.timeout, f); }
      else { AdvanceSummary(s, step.t, step.now, step.timeout, f); }
    }
  }

  function SchedActor(step: Sched.Step): Option<TaskId> {
    match step
    case BeginEnd(t, _, _) => Some(t)
    case BeginStart(t, _, _) => Some(t)
    case BeginManual(t, _, _) => Some(t)
    case BeginSet(t, _, _, _, _, _) => Some(t)
    case BeginDisable(t, _, _) => Some(t)
    case BeginCancel(t, _) => Some(t)
    case BeginOverride(t, _) => Some(t)
    case Advance(t, _, _) => Some(t)
    case Callback(t, _, _) => Some(t)
    case InhibitAll => None
  }

  lemma SchedKeepsOthers(s: Sched.State, step: Sched.Step)
    ensures var jobs' := Sched.Next(s, step).jobs;
            && (forall u: TaskId :: SchedActor(step) != Some(u) ==> Sched.JobAt(jobs', u) == Sched.JobAt(s.jobs, u))
            && (forall u :: u in jobs' && IsManual(jobs'[u]) ==>
                  (u in s.jobs && IsManual(s.jobs[u])) || (step.BeginManual? && step.t == u))
  {
    if step.Advance? && step.t in s.jobs { ManualOnlyBegins(s, step.t, step.now, step.timeout); }
  }

  lemma ManualOnlyBegins(s: Sched.State, t: TaskId, now: nat, timeout: bool)
    requires t in s.jobs
    ensures var jobs' := Sched.AdvanceJob(s, t, now, timeout).jobs;
            && (forall u :: u != t ==> Sched.JobAt(jobs', u) == Sched.JobAt(s.jobs, u))
            && (t in jobs' && IsManual(jobs'[t]) ==> jobs'[t] == s.jobs[t])
  {
  }

  lemma SchedMoveKeepsWires(s: State, step: Sched.Step)
    requires Base(s) && Wired(s)
    requires step.BeginManual? ==> HoldsGuard(s.sup, step.t)
    requires s.tach.Held? ==> SchedActor(step) != Some(s.tach.t)
    ensures Base(s.(sched := Sched.Next(s.sched, step))) && Wired(s.(sched := Sched.Next(s.sched, step)))
  {
    Sched.NextKeepsInv(s.sched, step);
    SchedKeepsOthers(s.sched, step);
    SchedSizeStays(s.sched, step);
    var jobs' := Sched.Next(s.sched, step).jobs;
    if s.tach.Held? { assert Sched.JobAt(jobs', s.tach.t) == Sched.JobAt(s.sched.jobs, s.tach.t); }
  }

  lemma SchedSizeStays(s: Sched.State, step: Sched.Step)
    requires Sched.Inv(s)
    ensures |Sched.Next(s, step).sched.fans| == |s.sched.fans|
  {
    if !step.Callback? && !step.InhibitAll? { SchedSummary(s, step, 0); }
  }

  lemma SchedMoveStaysFresh(s: State, step: Sched.Step)
    requires Base(s) && Fresh(s) && !step.Callback? && !step.InhibitAll?
    requires |Sched.Next(s.sched, step).sched.fans| == |s.sched.sched.fans|
    ensures Fresh(s.(sched := Sched.Next(s.sched, step)))
  {
    forall f | 0 <= f < |Core(s).fans| ensures FreshFan(Core(s), s.tach, Sched.Next(s.sched, step), f) {
      assert FreshFan(Core(s), s.tach, s.sched, f);
      SchedSummary(s.sched, step, f);
    }
  }

  lemma SchedMoveStaysUnstarted(s: Sched.State, step: Sched.Step)
    requires Sched.Inv(s) && Unstarted(s) && !step.Callback?
    ensures Unstarted(Sched.Next(s, step))
  {
    var s' := Sched.Next(s, step);
    if step.InhibitAll? { return; }
    SchedSummary(s, step, 0);
    forall f | 0 <= f < |s'.sched.fans| ensures s'.sched.fans[f].active < 0 { SchedSummary(s, step, f); }
  }

  lemma SchedStepKeeps(s: State, op: Sched.Step)
    requires Inv(s)
    ensures Inv(Next(s, SchedStep(op)))
  {
    if !SchedStepFree(s, op) { return; }
    SchedMoveKeepsWires(s, op);
    LatchOnlyCloses(s.sched, op);
    if Pre(s) && !s.late { SchedMoveStaysFresh(s, op); }
    if !s.started { SchedMoveStaysUnstarted(s.sched, op); }
  }

  lemma LatchOnlyCloses(s: Sched.State, op: Sched.Step)
    requires Sched.Inv(s) && !op.Callback? && !op.InhibitAll?
    ensures s.sched.latched ==> Sched.Next(s, op).sched.latched
  {
    SchedSummary(s, op, 0);
  }

  // ---- callbacks ----

  /** While a stop is past its claim no command holds the guard, so no manual target lands. */
  lemma ManualMeetsNoInhibit(s: State, t: TaskId)
    requires Base(s) && Early(s) && HoldsGuard(s.sup, t)
    ensures !Core(s).communication
  {
    if Core(s).communication {
      var u :| StopsNow(s.sup, u) && !s.sup.jobs[u].op.stop.phase.WantLock?;
      SupervisorSafety.GuardPrecedesStops(s.sup, t, u);
      assert false;
    }
  }

  /** What the motor module's answer does to targets and inhibits. */
  predicate Answered(c: MotorCore.Core, c': MotorCore.Core, request: Sched.Request, accepted: bool, manual: nat) {
    && |c'.fans| == |c.fans| && c'.global == c.global && c'.rmt == c.rmt
    && c'.maintenance == c.maintenance && (c'.communication ==> c.communication)
    && (forall f :: 0 <= f < |c.fans| ==> c'.fans[f].tachInhibited == c.fans[f].tachInhibited)
    && (forall f :: 0 <= f < |c.fans| ==>
          c'.fans[f].manual == c.fans[f].manual || (request.Manual? && f == request.fan && accepted))
    && (!request.Manual? ==> c'.communication == c.communication)
    && (request.Start? && accepted ==> request.fan < |c.fans| && manual == c.fans[request.fan].manual)
    && (request.Manual? && accepted ==> manual <= 100)
  }

  lemma AnswerEffect(c: MotorCore.Core, m: MotorRun.State, request: Sched.Request)
    requires c == m.core && |m.channels| == |m.core.fans|
    ensures Answered(c, MotorRun.Next(m, MotorRequest(request)).core, request,
                     Answer(c, request).0, Answer(c, request).1)
  {
  }

  lemma CallStaysEarly(s: State, t: TaskId, request: Sched.Request)
    requires Base(s) && Early(s)
    ensures Early(WithMotor(s, MotorRequest(request)))
  {
    AnswerEffect(Core(s), s.sup.motor, request);
    RequestKeepsTasks(s.sup.motor, request);
  }

  lemma RequestKeepsTasks(m: MotorRun.State, request: Sched.Request)
    requires |m.channels| == |m.core.fans|
    ensures MotorRun.Next(m, MotorRequest(request)).tasks == m.tasks
  {
  }

  lemma CallParts(s: State, t: TaskId, request: Sched.Request)
    requires Sup.WellFormed(s.sup)
    ensures var s', (accepted, manual) := CallNext(s, t, request), Answer(Core(s), request);
            && s'.tach == s.tach && s'.sched == Sched.Next(s.sched, Sched.Callback(t, accepted, manual))
            && Answered(Core(s), Core(s'), request, accepted, manual)
  {
    AnswerEffect(Core(s), s.sup.motor, request);
  }

  lemma ManualMeetsOpenSession(s: State, t: TaskId, request: Sched.Request)
    requires Base(s) && ManualGuarded(s.sup, s.sched.jobs) && Early(s)
    requires t in s.sched.jobs && Sched.RequestOf(s.sched.jobs[t]) == Some(request)
    ensures request.Manual? ==> !Core(s).communication
  {
    if request.Manual? {
      assert IsManual(s.sched.jobs[t]);
      ManualMeetsNoInhibit(s, t);
    }
  }

  lemma CallStaysFresh(s: State, t: TaskId, request: Sched.Request)
    requires Base(s) && Wired(s) && Early(s) && Fresh(s)
    requires t in s.sched.jobs && Sched.RequestOf(s.sched.jobs[t]) == Some(request)
    requires |Core(CallNext(s, t, request)).fans| == |CallNext(s, t, request).sched.sched.fans|
    ensures Fresh(CallNext(s, t, request))
  {
    CallParts(s, t, request);
    ManualMeetsOpenSession(s, t, request);
    forall f | 0 <= f < |Core(s).fans|
      ensures FreshFan(Core(CallNext(s, t, request)), s.tach, CallNext(s, t, request).sched, f)
    {
      assert FreshFan(Core(s), s.tach, s.sched, f);
      CallStaysFreshAt(Core(s), Core(CallNext(s, t, request)), s.tach, s.sched, t, request,
                       Answer(Core(s), request).0, Answer(Core(s), request).1, f);
    }
  }

  lemma CallStaysFreshAt(c: MotorCore.Core, c': MotorCore.Core, tach: Owner, sched: Sched.State,
                         t: TaskId, request: Sched.Request, accepted: bool, manual: nat, f: nat)
    requires Sched.Inv(sched) && t in sched.jobs && Sched.RequestOf(sched.jobs[t]) == Some(request)
    requires f < |c.fans| == |c'.fans| == |sched.sched.fans|
    requires Answered(c, c', request, accepted, manual) && FreshFan(c, tach, sched, f)
    requires request.Manual? ==> !c.communication
    ensures FreshFan(c', tach, Sched.Next(sched, Sched.Callback(t, accepted, manual)), f)
  {
    if request.Manual? && request.fan == f && accepted {
      ManualKeepsFan(c, c', tach, sched, t, request, manual, f);
    } else {
      CallKeepsFan(c, c', tach, sched, t, request, accepted, manual, f);
    }
  }

  /** An accepted manual command excuses its own fan until it has cancelled the schedule. */
  lemma ManualKeepsFan(c: MotorCore.Core, c': MotorCore.Core, tach: Owner, sched: Sched.State,
                       t: TaskId, request: Sched.Request, manual: nat, f: nat)
    requires Sched.Inv(sched) && t in sched.jobs && Sched.RequestOf(sched.jobs[t]) == Some(request)
    requires f < |c.fans| == |c'.fans| == |sched.sched.fans|
    requires request.Manual? && request.fan == f && manual <= 100
    ensures FreshFan(c', tach, Sched.Next(sched, Sched.Callback(t, true, manual)), f)
  {
    var jobs' := Sched.Next(sched, Sched.Callback(t, true, manual)).jobs;
    CallbackJobs(sched, t, true, manual);
    assert jobs'[t] == Sched.ManualDone(f, true);
    assert Sched.Owns(sched.jobs[t], |c.fans|, f);
    forall u | u in sched.jobs && u != t ensures !Landing(sched.jobs[u], f) {
      assert !Sched.Owns(sched.jobs[u], |c.fans|, f);
    }
  }

  lemma CallKeepsFan(c: MotorCore.Core, c': MotorCore.Core, tach: Owner, sched: Sched.State,
                     t: TaskId, request: Sched.Request, accepted: bool, manual: nat, f: nat)
    requires t in sched.jobs && Sched.RequestOf(sched.jobs[t]) == Some(request)
    requires f < |c.fans| == |c'.fans| == |sched.sched.fans|
    requires Answered(c, c', request, accepted, manual) && FreshFan(c, tach, sched, f)
    requires request.Manual? ==> !c.communication
    requires c'.fans[f].manual == c.fans[f].manual
    ensures FreshFan(c', tach, Sched.Next(sched, Sched.Callback(t, accepted, manual)), f)
  {
    var jobs' := Sched.Next(sched, Sched.Callback(t, accepted, manual)).jobs;
    CallbackJobs(sched, t, accepted, manual);
    if ManualLanded(sched.jobs, f) {
      var u :| u in sched.jobs && sched.jobs[u] == Sched.ManualDone(f, true);
      assert u in jobs' && jobs'[u] == sched.jobs[u];
    }
    assert jobs'[t].StartDone? && jobs'[t].accepted ==> request.Start? && request.fan == jobs'[t].fan;
  }

  lemma CallbackJobs(s: Sched.State, t: TaskId, accepted: bool, manual: nat)
    requires t in s.jobs && Sched.RequestOf(s.jobs[t]).Some?
    ensures var s' := Sched.Next(s, Sched.Callback(t, accepted, manual));
            && s'.sched == s.sched && t in s'.jobs && s'.jobs.Keys == s.jobs.Keys
            && (forall u :: u in s.jobs && u != t ==> s'.jobs[u] == s.jobs[u])
            && s'.jobs[t] == Sched.Called(s.jobs[t], accepted && manual <= 100, manual)
            && (s'.jobs[t].StartDone? ==> s.jobs[t].StartCall?)
            && (s'.jobs[t].StartDone? ==> s'.jobs[t].manual == manual && s'.jobs[t].fan == s.jobs[t].fan)
            && !s.jobs[t].StartDone? && !s.jobs[t].ManualDone?
  {
  }

  /** A plain motor request on behalf of a scheduler or boot call. */
  lemma MotorMoveKeepsWires(s: State, m: MotorRun.Step)
    requires Base(s) && Wired(s) && !m.CallStop?
    ensures Base(WithMotor(s, m)) && Wired(WithMotor(s, m))
  {
    SupMoveKeepsWires(s, Sup.Motor(m), s.tach);
    assert WithMotor(s, m) == s.(sup := Sup.Next(s.sup, Sup.Motor(m)), tach := s.tach);
  }

  lemma AnswerKeepsWires(s: State, t: TaskId, m: MotorRun.Step, accepted: bool, manual: nat)
    requires Base(s) && Wired(s) && !m.CallStop? && t in s.sched.jobs && Sched.RequestOf(s.sched.jobs[t]).Some?
    ensures var s' := WithMotor(s, m).(sched := Sched.Next(s.sched, Sched.Callback(t, accepted, manual)));
            Base(s') && Wired(s')
  {
    MotorMoveKeepsWires(s, m);
    CallbackKeepsWires(WithMotor(s, m), t, accepted, manual);
  }

  /** The owner of the tach mutex makes no requests of the motor module. */
  lemma CallbackKeepsWires(s: State, t: TaskId, accepted: bool, manual: nat)
    requires Base(s) && Wired(s) && t in s.sched.jobs && Sched.RequestOf(s.sched.jobs[t]).Some?
    ensures Base(s.(sched := Sched.Next(s.sched, Sched.Callback(t, accepted, manual))))
    ensures Wired(s.(sched := Sched.Next(s.sched, Sched.Callback(t, accepted, manual))))
  {
    SchedMoveKeepsWires(s, Sched.Callback(t, accepted, manual));
  }

  lemma CallKeepsWires(s: State, t: TaskId, request: Sched.Request)
    requires Base(s) && Wired(s) && t in s.sched.jobs && Sched.RequestOf(s.sched.jobs[t]).Some?
    ensures Base(CallNext(s, t, request)) && Wired(CallNext(s, t, request))
  {
    AnswerKeepsWires(s, t, MotorRequest(request), Answer(Core(s), request).0, Answer(Core(s), request).1);
  }

  lemma CallStaysUnstarted(sched: Sched.State, t: TaskId, accepted: bool, manual: nat)
    requires t in sched.jobs && Sched.RequestOf(sched.jobs[t]).Some?
    requires Unstarted(sched) && !Sched.RequestOf(sched.jobs[t]).value.Start?
    ensures Unstarted(Sched.Next(sched, Sched.Callback(t, accepted, manual)))
  {
    CallbackJobs(sched, t, accepted, manual);
  }

  lemma CallKeeps(s: State, t: TaskId)
    requires Inv(s)
    ensures Inv(Next(s, Call(t)))
  {
    if t !in s.sched.jobs || Sched.RequestOf(s.sched.jobs[t]).None? { return; }
    var request := Sched.RequestOf(s.sched.jobs[t]).value;
    assert Next(s, Call(t)) == CallNext(s, t, request);
    RequestServed(s, t, request);
  }

  lemma CallFlags(s: State, t: TaskId, request: Sched.Request)
    requires Sup.WellFormed(s.sup) && t in s.sched.jobs
    ensures var s' := CallNext(s, t, request);
            && s'.finished == s.finished && s'.late == s.late && s'.timedOut == s.timedOut
            && s'.started == (s.started || request.Start?) && Pre(s') == Pre(s)
            && s'.sup == WithMotor(s, MotorRequest(request)).sup && s'.tach == s.tach
            && s'.sched == Sched.Next(s.sched, Sched.Callback(t, Answer(Core(s), request).0, Answer(Core(s), request).1))
  {
  }

  lemma RequestServed(s: State, t: TaskId, request: Sched.Request)
    requires Inv(s) && t in s.sched.jobs && Sched.RequestOf(s.sched.jobs[t]) == Some(request)
    ensures Inv(CallNext(s, t, request))
  {
    CallKeepsWires(s, t, request);
    CallFlags(s, t, request);
    if Pre(s) { CallStaysEarly(s, t, request); }
    if Pre(s) && !s.late { CallStaysFresh(s, t, request); }
    if !s.started && !request.Start? {
      CallStaysUnstarted(s.sched, t, Answer(Core(s), request).0, Answer(Core(s), request).1);
    }
  }
}
