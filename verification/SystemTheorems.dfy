/** The remaining steps (boot, OTA, tach actions) and the theorem: restores are never stale. */
module SystemTheorems {
  import opened Prelude
  import opened SystemRun
  import opened SystemSafety
  import opened SystemFresh
  import opened MotorChanges
  import MotorCore
  import MotorLatch
  import MotorRun
  import MotorSafety
  import Sup = SupervisorRun
  import SupervisorSafety
  import Sched = SchedulerRun
  import SchedulerCore

  // ---- boot restore and OTA ----

  lemma RestoreEffect(m: MotorRun.State, targets: seq<nat>)
    requires |m.channels| == |m.core.fans|
    ensures var m' := MotorRun.Next(m, MotorRun.Restore(targets));
            && m'.tasks == m.tasks && m'.core.communication == m.core.communication
            && m'.core.maintenance == m.core.maintenance && |m'.core.fans| == |m.core.fans|
  {
  }

  lemma UnstartedIsFresh(c: MotorCore.Core, tach: Owner, sched: Sched.State)
    requires Unstarted(sched) && |c.fans| == |sched.sched.fans|
    ensures forall f :: 0 <= f < |c.fans| ==> FreshFan(c, tach, sched, f)
  {
  }

  lemma RestoreStaysEarly(s: State, targets: seq<nat>)
    requires Base(s) && Early(s)
    ensures Early(WithMotor(s, MotorRun.Restore(targets)))
  {
    RestoreEffect(s.sup.motor, targets);
  }

  lemma RestoreKeeps(s: State, targets: seq<nat>)
    requires Inv(s)
    ensures Inv(Next(s, RestoreTargets(targets)))
  {
    var s1 := WithMotor(s, MotorRun.Restore(targets));
    MotorMoveKeepsWires(s, MotorRun.Restore(targets));
    if Pre(s) { RestoreStaysEarly(s, targets); }
    LateSuffices(s, s1);
  }

  /** Targets restored before the first START meet no running schedule; later ones are on record. */
  lemma LateSuffices(s: State, s1: State)
    requires Base(s1) && Wired(s1) && (Pre(s) ==> Early(s1)) && (!s.started ==> Unstarted(s.sched))
    requires s1.sched == s.sched && s1.timedOut == s.timedOut && s1.started == s.started
    ensures Inv(s1.(late := s.late || s.started))
  {
    if !s.started { UnstartedIsFresh(Core(s1), s1.tach, s1.sched); }
  }

  /** OTA gives its maintenance inhibit back only after a stop returned, so after the latch. */
  lemma ReleaseKeeps(s: State)
    requires Inv(s)
    ensures Inv(Next(s, ReleaseOta))
  {
    if s.finished {
      MotorMoveKeepsWires(s, MotorRun.ReleaseMaintenance);
      WiresSuffice(s, WithMotor(s, MotorRun.ReleaseMaintenance));
    }
  }

  /** Once the latch is closed, or a timeout is on record, wires are all that matters. */
  lemma WiresSuffice(s: State, s': State)
    requires Base(s') && Wired(s') && (Pre(s) ==> Early(s)) && s.finished
    requires s'.sched == s.sched && s'.timedOut == s.timedOut && s'.started == s.started
    requires !s.started ==> Unstarted(s.sched)
    ensures Inv(s')
  {
  }

  // ---- tach actions ----

  /** The tach owner moves to a stage that covers at least what it covered. */
  lemma StageMoveKeeps(s: State, tach': Owner)
    requires Inv(s)
    requires s.tach.Held? ==> !s.tach.stage.Cancelling?
    requires tach'.Held? ==> !tach'.stage.Cancelling? && tach'.t !in s.sched.jobs
    requires tach'.Held? ==> !tach'.stage.StopRunning?
    requires s.tach.Held? && s.tach.stage.StopRunning? ==> !StopsNow(s.sup, s.tach.t)
    requires Pre(s) ==> forall f :: 0 <= f < |Core(s).fans| && Covers(s.tach, f) ==> Covers(tach', f)
    ensures Inv(s.(tach := tach'))
  {
    var s' := s.(tach := tach');
    if Pre(s) && !s.late {
      forall f | 0 <= f < |Core(s).fans| ensures FreshFan(Core(s), tach', s.sched, f) {
        assert FreshFan(Core(s), s.tach, s.sched, f);
      }
    }
  }

  /** What setting or clearing one fan's tach inhibit does. */
  lemma TachEffect(m: MotorRun.State, t: TaskId, f: int, on: bool)
    requires |m.channels| == |m.core.fans|
    ensures var m' := MotorRun.Next(m, MotorRun.Tach(t, f, on));
            && m'.core.communication == m.core.communication && m'.core.maintenance == m.core.maintenance
            && m'.core.global == m.core.global && m'.core.rmt == m.core.rmt
            && |m'.core.fans| == |m.core.fans|
            && (forall u :: u in m'.tasks && MotorLatch.IsStop(m'.tasks[u]) ==> u in m.tasks && m.tasks[u] == m'.tasks[u])
            && (forall g :: 0 <= g < |m.core.fans| && g != f ==> m'.core.fans[g] == m.core.fans[g])
            && (0 <= f < |m.core.fans| && on && t !in m.tasks ==> m'.core.fans[f].tachInhibited)
            && (0 <= f < |m.core.fans| && (!on || t in m.tasks) ==>
                  m'.core.fans[f].manual == m.core.fans[f].manual)
            && (0 <= f < |m.core.fans| && m.core.fans[f].tachInhibited && on ==> m'.core.fans[f].tachInhibited)
  {
  }

  lemma TachMoveStaysEarly(s: State, f: int, on: bool)
    requires Base(s) && Early(s) && s.tach.Held? && s.tach.stage.Holding?
    ensures EarlyStops(WithMotor(s, MotorRun.Tach(s.tach.t, f, on)).sup)
    ensures CommHeld(WithMotor(s, MotorRun.Tach(s.tach.t, f, on)).sup)
    ensures Armed(WithMotor(s, MotorRun.Tach(s.tach.t, f, on)).sup.motor)
  {
    TachEffect(s.sup.motor, s.tach.t, f, on);
  }

  lemma TachMoveStaysFresh(s: State, f: int, on: bool, stage: Stage)
    requires Base(s) && Fresh(s) && s.tach.Held? && s.tach.stage.Holding? && 0 <= f < |Core(s).fans|
    requires stage == if on then Inhibiting(f) else Settled
    requires Sup.MotorStepAllowed(s.sup, MotorRun.Tach(s.tach.t, f, on))
    ensures var c' := MotorRun.Next(s.sup.motor, MotorRun.Tach(s.tach.t, f, on)).core;
            |c'.fans| == |Core(s).fans| &&
            forall g :: 0 <= g < |c'.fans| ==> FreshFan(c', Held(s.tach.t, stage), s.sched, g)
  {
    var c' := MotorRun.Next(s.sup.motor, MotorRun.Tach(s.tach.t, f, on)).core;
    TachEffect(s.sup.motor, s.tach.t, f, on);
    forall g | 0 <= g < |c'.fans| ensures FreshFan(c', Held(s.tach.t, stage), s.sched, g) {
      assert FreshFan(Core(s), s.tach, s.sched, g);
    }
  }

  function TachMoved(s: State, f: int, on: bool): State
    requires s.tach.Held?
  {
    WithMotor(s, MotorRun.Tach(s.tach.t, f, on)).(tach := Held(s.tach.t, if on && 0 <= f then Inhibiting(f) else Settled))
  }

  lemma TachMoveKeepsWires(s: State, f: int, on: bool)
    requires Base(s) && Wired(s) && s.tach.Held? && s.tach.stage.Holding? && 0 <= f
    ensures Base(TachMoved(s, f, on)) && Wired(TachMoved(s, f, on))
  {
    SupMoveKeepsWires(s, Sup.Motor(MotorRun.Tach(s.tach.t, f, on)), TachMoved(s, f, on).tach);
  }

  /** Setting the inhibit covers the fan; clearing it happens only when nothing is covered. */
  lemma TachMoveKeeps(s: State, f: int, on: bool)
    requires Inv(s) && s.tach.Held? && s.tach.stage.Holding? && 0 <= f < |Core(s).fans|
    ensures Inv(TachMoved(s, f, on))
  {
    TachMoveKeepsWires(s, f, on);
    if Pre(s) { TachMoveStaysEarly(s, f, on); }
    if Pre(s) && !s.late { TachMoveLeavesFresh(s, f, on, TachMoved(s, f, on).tach.stage); }
  }

  lemma TachMoveLeavesFresh(s: State, f: int, on: bool, stage: Stage)
    requires Base(s) && Fresh(s) && s.tach.Held? && s.tach.stage.Holding? && 0 <= f < |Core(s).fans|
    requires stage == if on then Inhibiting(f) else Settled
    ensures var c' := Core(WithMotor(s, MotorRun.Tach(s.tach.t, f, on)));
            |c'.fans| == |Core(s).fans| &&
            forall g :: 0 <= g < |c'.fans| ==> FreshFan(c', Held(s.tach.t, stage), s.sched, g)
  {
    if Sup.MotorStepAllowed(s.sup, MotorRun.Tach(s.tach.t, f, on)) {
      TachMoveStaysFresh(s, f, on, stage);
    } else {
      forall g | 0 <= g < |Core(s).fans| ensures FreshFan(Core(s), Held(s.tach.t, stage), s.sched, g) {
        assert FreshFan(Core(s), s.tach, s.sched, g);
      }
    }
  }

  /** A scheduler step of the tach owner itself keeps all but the stage bookkeeping. */
  lemma OwnerSchedMove(s: State, op: Sched.Step)
    requires Inv(s) && !op.Callback? && !op.InhibitAll? && !op.BeginManual?
    ensures var sched' := Sched.Next(s.sched, op);
            && Sched.Inv(sched') && |sched'.sched.fans| == |s.sched.sched.fans|
            && ManualGuarded(s.sup, sched'.jobs)
            && (!sched'.sched.latched ==> !s.sched.sched.latched)
            && (Pre(s) && !s.late ==> Fresh(s.(sched := sched')))
            && (!s.started ==> Unstarted(sched'))
  {
    Sched.NextKeepsInv(s.sched, op);
    SchedKeepsOthers(s.sched, op);
    SchedSizeStays(s.sched, op);
    SchedSummary(s.sched, op, 0);
    if Pre(s) && !s.late { SchedMoveStaysFresh(s, op); }
    if !s.started { SchedMoveStaysUnstarted(s.sched, op); }
  }

  /** A stage that covers as much, or a fan that runs nothing, stays fresh. */
  lemma StageStaysFresh(c: MotorCore.Core, tach: Owner, tach': Owner, sched: Sched.State, f: nat)
    requires f < |c.fans| == |sched.sched.fans| && FreshFan(c, tach, sched, f)
    requires (Covers(tach, f) ==> Covers(tach', f))
             || (sched.sched.fans[f].active < 0 && forall t :: t in sched.jobs ==> !Landing(sched.jobs[t], f))
    ensures FreshFan(c, tach', sched, f)
  {
  }

  /** The owner's own scheduler step, with a stage that agrees with where it stands after it. */
  lemma OwnerMoveKeeps(s: State, op: Sched.Step, stage: Stage)
    requires Inv(s) && s.tach.Held? && !s.tach.stage.StopRunning? && !stage.StopRunning?
    requires !op.Callback? && !op.InhibitAll? && !op.BeginManual?
    requires Cancels(Held(s.tach.t, stage), Sched.Next(s.sched, op).jobs)
    requires var sched' := Sched.Next(s.sched, op);
             Pre(s) && !s.late && |sched'.sched.fans| == |Core(s).fans| && Fresh(s.(sched := sched')) ==>
               forall g :: 0 <= g < |Core(s).fans| ==> FreshFan(Core(s), Held(s.tach.t, stage), sched', g)
    ensures Inv(s.(sched := Sched.Next(s.sched, op), tach := Held(s.tach.t, stage)))
  {
    OwnerSchedMove(s, op);
  }

  lemma CancelBegins(s: State)
    requires Inv(s) && s.tach.Held? && s.tach.stage.Inhibited?
    requires Sched.Reservable(s.sched, s.tach.t, s.tach.stage.fan)
    ensures Inv(Next(s, TachCancel(false))) && Next(s, TachCancel(true)) == Next(s, TachCancel(false))
  {
    var t, f := s.tach.t, s.tach.stage.fan;
    var sched' := Sched.Next(s.sched, Sched.BeginCancel(t, f));
    if |sched'.sched.fans| == |Core(s).fans| && Fresh(s.(sched := sched')) {
      WiderStageStaysFresh(Core(s), s.tach, Held(t, Cancelling(f)), sched');
    }
    OwnerMoveKeeps(s, Sched.BeginCancel(t, f), Cancelling(f));
  }

  lemma WiderStageStaysFresh(c: MotorCore.Core, tach: Owner, tach': Owner, sched: Sched.State)
    requires |c.fans| == |sched.sched.fans| && forall f :: 0 <= f < |c.fans| ==> FreshFan(c, tach, sched, f)
    requires forall f: nat :: Covers(tach, f) ==> Covers(tach', f)
    ensures forall f :: 0 <= f < |c.fans| ==> FreshFan(c, tach', sched, f)
  {
    forall f | 0 <= f < |c.fans| ensures FreshFan(c, tach', sched, f) {
      StageStaysFresh(c, tach, tach', sched, f);
    }
  }

  lemma CancelIdles(s: Sched.State, t: TaskId, f: nat)
    requires Sched.Inv(s) && t in s.jobs && s.jobs[t] == Sched.CancelHeld(f)
    ensures var s' := Sched.Next(s, Sched.Advance(t, 0, false));
            && f < |s.sched.fans| == |s'.sched.fans| && s'.sched.fans[f].active < 0
            && (forall u :: u in s'.jobs ==> !Landing(s'.jobs[u], f)) && s'.jobs == s.jobs - {t}
            && s'.sched.latched == s.sched.latched
  {
    assert Sched.JobValid(s.sched, s.jobs[t]);
    assert Sched.Owns(s.jobs[t], |s.sched.fans|, f);
    forall u | u in s.jobs && u != t ensures !Landing(s.jobs[u], f) {
      assert !Sched.Owns(s.jobs[u], |s.sched.fans|, f);
    }
  }

  /** Once the fan's schedule is cancelled it no longer needs to be covered. */
  lemma CancelEnds(s: State)
    requires Inv(s) && s.tach.Held? && s.tach.stage.Cancelling?
    ensures Inv(Next(s, TachCancelled))
  {
    var t, f := s.tach.t, s.tach.stage.fan;
    var sched' := Sched.Next(s.sched, Sched.Advance(t, 0, false));
    CancelIdles(s.sched, t, f);
    if |sched'.sched.fans| == |Core(s).fans| && Fresh(s.(sched := sched')) {
      CancelledStaysFresh(Core(s), t, f, sched');
    }
    OwnerMoveKeeps(s, Sched.Advance(t, 0, false), Persisting);
  }

  /** The one fan the stage covered runs nothing any more. */
  lemma CancelledStaysFresh(c: MotorCore.Core, t: TaskId, f: nat, sched: Sched.State)
    requires |c.fans| == |sched.sched.fans|
    requires forall g :: 0 <= g < |c.fans| ==> FreshFan(c, Held(t, Cancelling(f)), sched, g)
    requires f < |c.fans| && sched.sched.fans[f].active < 0
    requires forall u :: u in sched.jobs ==> !Landing(sched.jobs[u], f)
    ensures forall g :: 0 <= g < |c.fans| ==> FreshFan(c, Held(t, Persisting), sched, g)
  {
    forall g | 0 <= g < |c.fans| ensures FreshFan(c, Held(t, Persisting), sched, g) {
      StageStaysFresh(c, Held(t, Cancelling(f)), Held(t, Persisting), sched, g);
    }
  }

  lemma TachStopKeeps(s: State)
    requires Inv(s) && s.tach.Held?
    ensures Inv(Next(s, TachStop))
  {
    var t, stage := s.tach.t, s.tach.stage;
    if !(stage.Holding? || stage.Escalate?) || t in s.sup.motor.tasks || !Sup.JobOf(s.sup, t).op.Idle? { return; }
    ClaimKeeps(s, Sup.Claim(t, if stage.Holding? then Sup.StopTachAll else Sup.StopGlobal, true));
  }

  lemma ClaimKeeps(s: State, claim: Sup.Step)
    requires Inv(s) && s.tach.Held? && (s.tach.stage.Holding? || s.tach.stage.Escalate?)
    requires claim.Claim? && claim.t == s.tach.t && claim.t !in s.sup.motor.tasks
    requires Sup.JobOf(s.sup, claim.t).op.Idle?
    ensures Inv(s.(sup := Sup.Next(s.sup, claim), tach := Held(s.tach.t, StopRunning)))
  {
    SupMoveKeepsWires(s, claim, Held(s.tach.t, StopRunning));
    if Pre(s) {
      EarlyStepsAreGentle(s.sup, claim);
      SupMoveStaysEarlyBut(s, claim);
    }
    if Pre(s) && !s.late { ClaimStaysFresh(s, claim, Held(s.tach.t, StopRunning)); }
  }

  lemma SupMoveStaysEarlyBut(s: State, claim: Sup.Step)
    requires Base(s) && Wired(s) && Early(s) && claim.Claim? && Gentle(s.sup, claim)
    requires claim.t !in s.sup.motor.tasks && Sup.JobOf(s.sup, claim.t).op.Idle?
    ensures var sup' := Sup.Next(s.sup, claim);
            EarlyStops(sup') && CommHeld(sup') && Armed(sup'.motor) && StopsNow(sup', claim.t)
            && sup'.motor == s.sup.motor
  {
    StopsStayEarly(s.sup, claim);
    CommStaysHeld(s.sup, claim);
  }

  lemma ClaimStaysFresh(s: State, claim: Sup.Step, tach': Owner)
    requires Base(s) && Fresh(s) && claim.Claim? && s.tach.Held? && tach' == Held(s.tach.t, StopRunning)
    ensures Sup.Next(s.sup, claim).motor == s.sup.motor
    ensures forall f :: 0 <= f < |Core(s).fans| ==> FreshFan(Core(s), tach', s.sched, f)
  {
    forall f | 0 <= f < |Core(s).fans| ensures FreshFan(Core(s), tach', s.sched, f) {
      assert FreshFan(Core(s), s.tach, s.sched, f);
      StageStaysFresh(Core(s), s.tach, tach', s.sched, f);
    }
  }

  predicate ChangesStageOnly(step: Step) {
    step.TachInhibited? || step.TachPersisted? || step.TachStopped? || step.TachGive?
  }

  /** The stage after a step that changes nothing else. */
  function StageAfter(s: State, step: Step): Owner
    requires s.tach.Held? && ChangesStageOnly(step)
  {
    var t, stage := s.tach.t, s.tach.stage;
    match step
    case TachInhibited(ok) =>
      if stage.Inhibiting? && t !in s.sup.motor.tasks then Held(t, if ok then Inhibited(stage.fan) else Escalate)
      else s.tach
    case TachPersisted(ok) => if stage.Persisting? then Held(t, if ok then Settled else Escalate) else s.tach
    case TachStopped(ok) =>
      if stage.StopRunning? && Sup.JobOf(s.sup, t).op.Idle? then Held(t, if ok then Settled else Escalate) else s.tach
    case TachGive => if stage.Holding? || stage.Settled? then Nobody else s.tach
  }

  lemma StageAfterIsNext(s: State, step: Step)
    requires s.tach.Held? && ChangesStageOnly(step)
    ensures TachNext(s, step) == s.(tach := StageAfter(s, step))
  {
  }

  lemma StageStepKeeps(s: State, step: Step)
    requires Inv(s) && s.tach.Held? && ChangesStageOnly(step)
    ensures Inv(s.(tach := StageAfter(s, step)))
  {
    if StageAfter(s, step) != s.tach {
      assert s.tach.stage.StopRunning? ==> !StopsNow(s.sup, s.tach.t);
      StageMoveKeeps(s, StageAfter(s, step));
    }
  }

  lemma CancelStepKeeps(s: State, timeout: bool)
    requires Inv(s) && s.tach.Held?
    ensures Inv(TachNext(s, TachCancel(timeout)))
  {
    var t, stage := s.tach.t, s.tach.stage;
    if stage.Inhibited? && Sched.Reservable(s.sched, t, stage.fan) {
      CancelBegins(s);
    } else if stage.Inhibited? {
      StageMoveKeeps(s, Held(t, Escalate));
    }
  }

  lemma MutexStepKeeps(s: State, step: Step)
    requires Inv(s) && s.tach.Held? && (step.TachInhibit? || step.TachClear?)
    ensures Inv(TachNext(s, step))
  {
    if s.tach.stage.Holding? && 0 <= step.local < |Core(s).fans| {
      TachMoveKeeps(s, step.local, step.TachInhibit?);
    }
  }

  lemma TachStepKeeps(s: State, step: Step)
    requires Inv(s) && s.tach.Held?
    ensures Inv(TachNext(s, step))
  {
    if step.TachInhibit? || step.TachClear? {
      MutexStepKeeps(s, step);
    } else if step.TachCancel? {
      CancelStepKeeps(s, step.timeout);
    } else if step.TachCancelled? {
      if s.tach.stage.Cancelling? { CancelEnds(s); }
    } else if step.TachStop? {
      TachStopKeeps(s);
    } else if ChangesStageOnly(step) {
      StageStepKeeps(s, step);
      StageAfterIsNext(s, step);
    }
  }

  lemma OwnedStepKeeps(s: State, step: Step)
    requires Inv(s)
    requires !step.SupStep? && !step.AutoInhibit? && !step.AutoTimeout? && !step.SchedStep? && !step.Call?
    ensures Inv(Next(s, step))
  {
    if step.RestoreTargets? {
      RestoreKeeps(s, step.targets);
    } else if step.ReleaseOta? {
      ReleaseKeeps(s);
    } else if step.TachTake? {
      if s.tach.Nobody? && Resting(s, step.t) { StageMoveKeeps(s, Held(step.t, Holding)); }
    } else if s.tach.Held? {
      TachStepKeeps(s, step);
    }
  }

  /** Every step keeps the whole invariant. */
  lemma NextKeepsInv(s: State, step: Step)
    requires Inv(s)
    ensures Inv(Next(s, step))
  {
    match step {
      case SupStep(op) => SupStepKeeps(s, op);
      case AutoInhibit(t, ok) => AutoKeeps(s, t, ok);
      case AutoTimeout(t) => TimeoutKeeps(s, t);
      case SchedStep(op) => SchedStepKeeps(s, op);
      case Call(t) => CallKeeps(s, t);
      case _ => OwnedStepKeeps(s, step);
    }
  }

  function Init(cfg: MotorCore.Config, fans: seq<SchedulerCore.Fan>, inhibited: bool): State {
    State(SupervisorSafety.Init(cfg, |fans|), Sched.Init(fans, inhibited), Nobody, false, false, false, false)
  }

  function Run(s: State, steps: seq<Step>): State
    decreases |steps|
  {
    if steps == [] then s else Run(Next(s, steps[0]), steps[1..])
  }

  lemma {:induction false} RunKeepsInv(s: State, steps: seq<Step>)
    requires Inv(s)
    ensures Inv(Run(s, steps))
    decreases |steps|
  {
    if steps != [] {
      NextKeepsInv(s, steps[0]);
      RunKeepsInv(Next(s, steps[0]), steps[1..]);
    }
  }

  lemma InitIsValid(cfg: MotorCore.Config, fans: seq<SchedulerCore.Fan>, inhibited: bool)
    requires cfg.Valid() && |fans| > 0
    requires forall f :: 0 <= f < |fans| ==>
               Sched.FanValid(fans[f]) && !fans[f].pending && fans[f].active == SchedulerCore.NO_SLOT
    ensures Inv(Init(cfg, fans, inhibited))
  {
    SupervisorSafety.InitIsValid(cfg, |fans|);
    Sched.InitIsValid(fans, inhibited);
  }

  /** While another task owns the fan, no manual target waits to be recorded there. */
  lemma OwnerKeepsManualAway(s: Sched.State, t: TaskId, f: nat)
    requires Sched.Inv(s) && t in s.jobs && f < |s.sched.fans|
    requires Sched.Owns(s.jobs[t], |s.sched.fans|, f) && !s.jobs[t].ManualDone?
    ensures !ManualLanded(s.jobs, f)
  {
    assert forall u :: u in s.jobs && u != t ==> !Sched.Owns(s.jobs[u], |s.sched.fans|, f);
    assert Sched.Owns(Sched.ManualDone(f, true), |s.sched.fans|, f);
  }

  /**
   * Restore is never stale: unless targets were restored after the first START or
   * an automatic inhibit timed out, every RESTORE the motor module accepts asks for
   * the fan's manual target at that moment.
   */
  lemma AcceptedRestoreIsFresh(s: State, t: TaskId, f: nat, pct: nat)
    requires Inv(s) && !s.late && !s.timedOut
    requires t in s.sched.jobs && Sched.RequestOf(s.sched.jobs[t]) == Some(Sched.Restore(f, pct))
    requires MotorCore.RequestAutomatic(Core(s), f, pct).Some?
    ensures f < |Core(s).fans| && pct == Core(s).fans[f].manual
  {
    var job := s.sched.jobs[t];
    assert Sched.JobValid(s.sched.sched, job) && Sched.Owns(job, |s.sched.sched.fans|, f);
    assert s.sched.sched.fans[f].active >= 0 && pct == s.sched.sched.fans[f].saved;
    if s.sched.sched.latched {
      Sched.InhibitAndTracking(s.sched, f);
    } else {
      assert FreshFan(Core(s), s.tach, s.sched, f);
      OwnerKeepsManualAway(s.sched, t, f);
    }
  }

  /** The same over whole runs from boot, stated for the target the step leaves behind. */
  lemma RestoresAreFresh(cfg: MotorCore.Config, fans: seq<SchedulerCore.Fan>, inhibited: bool,
                         steps: seq<Step>, t: TaskId, f: nat, pct: nat)
    requires cfg.Valid() && |fans| > 0
    requires forall i :: 0 <= i < |fans| ==>
               Sched.FanValid(fans[i]) && !fans[i].pending && fans[i].active == SchedulerCore.NO_SLOT
    requires var s := Run(Init(cfg, fans, inhibited), steps);
             && !s.late && !s.timedOut && t in s.sched.jobs
             && Sched.RequestOf(s.sched.jobs[t]) == Some(Sched.Restore(f, pct))
             && MotorCore.RequestAutomatic(Core(s), f, pct).Some?
    ensures var s := Run(Init(cfg, fans, inhibited), steps);
            && f < |Core(s).fans| == |Core(Next(s, Call(t))).fans|
            && Core(Next(s, Call(t))).fans[f].target == Core(s).fans[f].manual
            && Core(Next(s, Call(t))).fans[f].manual == Core(s).fans[f].manual
  {
    var s := Run(Init(cfg, fans, inhibited), steps);
    InitIsValid(cfg, fans, inhibited);
    RunKeepsInv(Init(cfg, fans, inhibited), steps);
    AcceptedRestoreIsFresh(s, t, f, pct);
    RestoreSetsTarget(s.sup.motor, f, pct);
  }

  lemma RestoreSetsTarget(m: MotorRun.State, f: nat, pct: nat)
    requires |m.channels| == |m.core.fans| && MotorCore.RequestAutomatic(m.core, f, pct).Some?
    ensures var c' := MotorRun.Next(m, MotorRun.Automatic(f, pct)).core;
            && f < |m.core.fans| == |c'.fans| && c'.fans[f].target == pct
            && c'.fans[f].manual == m.core.fans[f].manual
  {
  }
}
