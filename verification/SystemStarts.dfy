/**
 * What a schedule START does, from the section that chooses the entry to the one that
 * records the run, over every run of the wired system from boot: the motors take the
 * entry's own target, and the fan runs for the entry's own duration.
 */
module SystemStarts {
  import opened Prelude
  import opened SystemRun
  import opened SystemSafety
  import opened SystemTheorems
  import MotorCore
  import MotorRun
  import Sup = SupervisorRun
  import Sched = SchedulerRun
  import SchedulerCore

  // ---- a reserved fan waits for its task ----

  /** The task stands where it stood. */
  predicate Stays(s: Sched.State, s': Sched.State, t: TaskId) {
    t in s.jobs && t in s'.jobs && s'.jobs[t] == s.jobs[t]
  }

  /** Nobody but its task changes the fan a recorded START waits for. */
  lemma ReservedFanStays(s: Sched.State, step: Sched.Step, t: TaskId)
    requires Sched.Inv(s) && t in s.jobs && s.jobs[t].StartDone? && Stays(s, Sched.Next(s, step), t)
    ensures var f, s' := s.jobs[t].fan, Sched.Next(s, step);
            f < |s.sched.fans| == |s'.sched.fans| && s'.sched.fans[f] == s.sched.fans[f]
  {
    var f := s.jobs[t].fan;
    assert Sched.JobValid(s.sched, s.jobs[t]) && Sched.Owns(s.jobs[t], |s.sched.fans|, f);
    assert s.sched.fans[f].pending;
    if step.Advance? && step.t in s.jobs && step.t != t {
      assert Sched.JobValid(s.sched, s.jobs[step.t]);
      OtherTasksLeaveFan(s, step.t, f, step.now, step.timeout);
    }
  }

  lemma OtherTasksLeaveFan(s: Sched.State, u: TaskId, f: nat, now: nat, timeout: bool)
    requires u in s.jobs && Sched.JobValid(s.sched, s.jobs[u])
    requires f < |s.sched.fans| && s.sched.fans[f].pending && !Sched.Owns(s.jobs[u], |s.sched.fans|, f)
    ensures var s' := Sched.AdvanceJob(s, u, now, timeout);
            |s'.sched.fans| == |s.sched.fans| && s'.sched.fans[f] == s.sched.fans[f]
  {
  }

  lemma ReservedFanWaits(s: State, step: Step, t: TaskId)
    requires Inv(s) && t in s.sched.jobs && s.sched.jobs[t].StartDone? && Stays(s.sched, Next(s, step).sched, t)
    ensures var f, s' := s.sched.jobs[t].fan, Next(s, step);
            f < |s.sched.sched.fans| == |s'.sched.sched.fans| && s'.sched.sched.fans[f] == s.sched.sched.fans[f]
  {
    assert Sched.JobValid(s.sched.sched, s.sched.jobs[t]);
    var op := SchedPart(s, step);
    if op.Some? { ReservedFanStays(s.sched, op.value, t); }
  }

  /** The scheduler step inside a step of the system. */
  function SchedPart(s: State, step: Step): (op: Option<Sched.Step>)
    ensures Next(s, step).sched == if op.Some? then Sched.Next(s.sched, op.value) else s.sched
  {
    match step
    case AutoInhibit(t, ok) =>
      if AtAuto(s.sup, t) && SchedulerCore.NothingPending(s.sched.sched) then Some(Sched.InhibitAll) else None
    case SchedStep(op) => if SchedStepFree(s, op) then Some(op) else None
    case Call(t) =>
      if t in s.sched.jobs && Sched.RequestOf(s.sched.jobs[t]).Some? then
        var (accepted, manual) := Answer(Core(s), Sched.RequestOf(s.sched.jobs[t]).value);
        Some(Sched.Callback(t, accepted, manual))
      else None
    case TachCancel(timeout) =>
      if s.tach.Held? && s.tach.stage.Inhibited? && Sched.Reservable(s.sched, s.tach.t, s.tach.stage.fan)
      then Some(Sched.BeginCancel(s.tach.t, s.tach.stage.fan)) else None
    case TachCancelled =>
      if s.tach.Held? && s.tach.stage.Cancelling? then Some(Sched.Advance(s.tach.t, 0, false)) else None
    case _ => None
  }

  /** Throughout the run the task stands where it stands now. */
  predicate Waits(s: State, steps: seq<Step>, t: TaskId)
    decreases |steps|
  {
    steps == [] || (Stays(s.sched, Next(s, steps[0]).sched, t) && Waits(Next(s, steps[0]), steps[1..], t))
  }

  lemma {:induction false} ReservedFanWaitsLong(s: State, steps: seq<Step>, t: TaskId)
    requires Inv(s) && t in s.sched.jobs && s.sched.jobs[t].StartDone? && Waits(s, steps, t)
    ensures var f, s' := s.sched.jobs[t].fan, Run(s, steps);
            && Inv(s') && Stays(s.sched, s'.sched, t) && f < |s.sched.sched.fans| == |s'.sched.sched.fans|
            && s'.sched.sched.fans[f] == s.sched.sched.fans[f]
    decreases |steps|
  {
    if steps == [] {
      assert Sched.JobValid(s.sched.sched, s.sched.jobs[t]);
    } else {
      NextKeepsInv(s, steps[0]);
      ReservedFanWaits(s, steps[0], t);
      ReservedFanWaitsLong(Next(s, steps[0]), steps[1..], t);
    }
  }

  // ---- the request itself ----

  /**
   * The motors serve a START with its entry's target: if they accept it, that fan gets
   * exactly this target and keeps its manual one, which the task is told; if they refuse
   * it, nothing moves. Either way the scheduler's own data is untouched.
   */
  lemma StartIsServed(s: State, t: TaskId)
    requires Inv(s) && t in s.sched.jobs && s.sched.jobs[t].StartCall?
    ensures var job, s' := s.sched.jobs[t], Next(s, Call(t));
            && SchedulerCore.SlotExists(s.sched.sched, job.fan, job.slot) && s'.sched.sched == s.sched.sched
            && t in s'.sched.jobs
            && var entry := s.sched.sched.fans[job.fan].entries[job.slot];
               var ok := entry.target <= 100 && MotorCore.AutomaticAllowed(Core(s), job.fan);
               && (ok ==> Served(Core(s), Core(s'), job.fan, entry.target)
                          && s'.sched.jobs[t] == Sched.StartDone(job.fan, job.slot, entry.duration, job.now,
                                                                 true, Core(s).fans[job.fan].manual))
               && (!ok ==> Core(s') == Core(s) && s'.sched.jobs[t].StartDone? && !s'.sched.jobs[t].accepted)
  {
    var job := s.sched.jobs[t];
    assert Sched.JobValid(s.sched.sched, job);
    if MotorCore.AutomaticAllowed(Core(s), job.fan) { ManualIsPercentage(s, job.fan); }
    CallIsServed(s, t);
  }

  lemma CallIsServed(s: State, t: TaskId)
    requires t in s.sched.jobs && s.sched.jobs[t].StartCall? && |s.sup.motor.channels| == |Core(s).fans|
    requires MotorCore.AutomaticAllowed(Core(s), s.sched.jobs[t].fan) ==>
               Core(s).fans[s.sched.jobs[t].fan].manual <= 100
    ensures var job, s' := s.sched.jobs[t], Next(s, Call(t));
            var ok := job.target <= 100 && MotorCore.AutomaticAllowed(Core(s), job.fan);
            && s'.sched.sched == s.sched.sched && t in s'.sched.jobs
            && (ok ==> Served(Core(s), Core(s'), job.fan, job.target)
                       && s'.sched.jobs[t] == Sched.StartDone(job.fan, job.slot, job.duration, job.now,
                                                              true, Core(s).fans[job.fan].manual))
            && (!ok ==> Core(s') == Core(s) && s'.sched.jobs[t].StartDone? && !s'.sched.jobs[t].accepted)
  {
    var job := s.sched.jobs[t];
    ScheduledMovesTarget(s.sup.motor, job.fan, job.target);
  }

  lemma ManualIsPercentage(s: State, f: nat)
    requires Inv(s) && f < |Core(s).fans|
    ensures Core(s).fans[f].manual <= 100
  {
    assert MotorCore.FanValid(s.sup.motor.cfg, Core(s).fans[f]);
  }

  lemma ScheduledMovesTarget(m: MotorRun.State, f: nat, pct: nat)
    requires |m.channels| == |m.core.fans|
    ensures var c, c' := m.core, MotorRun.Next(m, MotorRun.Scheduled(f, pct)).core;
            if pct <= 100 && MotorCore.AutomaticAllowed(c, f)
            then f < |c.fans| && c' == c.(fans := c.fans[f := c.fans[f].(target := pct)])
            else c' == c
  {
    MotorCore.AcceptedRequestsSet(m.core, f, pct);
  }

  /** What the theorem needs of the motors' side: the target moves, and nothing else. */
  predicate Served(c: MotorCore.Core, c': MotorCore.Core, f: nat, pct: nat) {
    && f < |c.fans| && MotorCore.OthersKept(c, c', f) && MotorCore.LatchesKept(c, c')
    && c'.fans[f] == c.fans[f].(target := pct)
  }

  // ---- the theorem ----

  /**
   * Over every run from boot, and whatever other tasks do in the meantime: a START the
   * motors accept gives the fan its entry's target and leaves its manual target alone, and
   * when the task gets to record it, the fan runs that slot until the start time plus the
   * entry's duration, will restore the manual target of that moment, and comes due again
   * the entry's interval after the start.
   */
  lemma StartsFollowTheirEntry(cfg: MotorCore.Config, fans: seq<SchedulerCore.Fan>, inhibited: bool,
                               steps: seq<Step>, t: TaskId, others: seq<Step>, now: nat, timeout: bool)
    requires cfg.Valid() && |fans| > 0
    requires forall i :: 0 <= i < |fans| ==>
               Sched.FanValid(fans[i]) && !fans[i].pending && fans[i].active == SchedulerCore.NO_SLOT
    requires var s := Run(Init(cfg, fans, inhibited), steps);
             && t in s.sched.jobs && s.sched.jobs[t].StartCall?
             && MotorCore.RequestScheduled(Core(s), s.sched.jobs[t].fan, s.sched.jobs[t].target).Some?
             && Waits(Next(s, Call(t)), others, t)
    ensures var s := Run(Init(cfg, fans, inhibited), steps);
            var job, s1 := s.sched.jobs[t], Next(s, Call(t));
            var s2 := Next(Run(s1, others), SchedStep(Sched.Advance(t, now, timeout)));
            && SchedulerCore.SlotExists(s.sched.sched, job.fan, job.slot)
            && job.fan < |Core(s).fans| == |Core(s1).fans| && job.fan < |s2.sched.sched.fans|
            && Core(s1).fans[job.fan].target == s.sched.sched.fans[job.fan].entries[job.slot].target
            && Core(s1).fans[job.fan].manual == Core(s).fans[job.fan].manual
            && MotorCore.OthersKept(Core(s), Core(s1), job.fan)
            && Sched.Recorded(s.sched.sched.fans[job.fan], s2.sched.sched.fans[job.fan],
                        job.slot, job.now, Core(s).fans[job.fan].manual)
  {
    InitIsValid(cfg, fans, inhibited);
    RunKeepsInv(Init(cfg, fans, inhibited), steps);
    StartFollowsItsEntry(Run(Init(cfg, fans, inhibited), steps), t, others, now, timeout);
  }

  lemma StartFollowsItsEntry(s: State, t: TaskId, others: seq<Step>, now: nat, timeout: bool)
    requires Inv(s) && t in s.sched.jobs && s.sched.jobs[t].StartCall?
    requires MotorCore.RequestScheduled(Core(s), s.sched.jobs[t].fan, s.sched.jobs[t].target).Some?
    requires Waits(Next(s, Call(t)), others, t)
    ensures var job, s1 := s.sched.jobs[t], Next(s, Call(t));
            var s2 := Next(Run(s1, others), SchedStep(Sched.Advance(t, now, timeout)));
            && SchedulerCore.SlotExists(s.sched.sched, job.fan, job.slot) && job.fan < |s2.sched.sched.fans|
            && Served(Core(s), Core(s1), job.fan, s.sched.sched.fans[job.fan].entries[job.slot].target)
            && Sched.Recorded(s.sched.sched.fans[job.fan], s2.sched.sched.fans[job.fan],
                        job.slot, job.now, Core(s).fans[job.fan].manual)
  {
    var job, s1 := s.sched.jobs[t], Next(s, Call(t));
    assert Sched.JobValid(s.sched.sched, job);
    StartIsServed(s, t);
    NextKeepsInv(s, Call(t));
    ManualIsPercentage(s, job.fan);
    ReservedFanWaitsLong(s1, others, t);
    StartIsRecorded(Run(s1, others), t, now, timeout);
  }

  lemma StartIsRecorded(s: State, t: TaskId, now: nat, timeout: bool)
    requires Inv(s) && t in s.sched.jobs && s.sched.jobs[t].StartDone? && s.sched.jobs[t].accepted
    requires s.sched.jobs[t].manual <= 100
    ensures var job, s' := s.sched.jobs[t], Next(s, SchedStep(Sched.Advance(t, now, timeout)));
            && job.fan < |s.sched.sched.fans| == |s'.sched.sched.fans|
            && Sched.Recorded(s.sched.sched.fans[job.fan], s'.sched.sched.fans[job.fan], job.slot, job.now, job.manual)
  {
    AdvanceIsFree(s, t, now, timeout);
    Sched.AcceptedStartIsTracked(s.sched, t, now, timeout);
  }

  /** Only the owner of the tach actions may not go on by itself, and it starts nothing. */
  lemma AdvanceIsFree(s: State, t: TaskId, now: nat, timeout: bool)
    requires Cancels(s.tach, s.sched.jobs) && t in s.sched.jobs && s.sched.jobs[t].StartDone?
    ensures Next(s, SchedStep(Sched.Advance(t, now, timeout))).sched == Sched.Next(s.sched, Sched.Advance(t, now, timeout))
  {
  }

  // ---- the other requests ----

  lemma ManualMoves(m: MotorRun.State, f: nat, pct: nat)
    requires |m.channels| == |m.core.fans|
    ensures var c, c' := m.core, MotorRun.Next(m, MotorRun.Manual(f, pct)).core;
            if pct <= 100 && MotorCore.ManualAllowed(c, f)
            then f < |c.fans| && MotorCore.OthersKept(c, c', f) && MotorCore.LatchesKept(c, c') && !c'.communication
                 && c'.fans[f].manual == pct == c'.fans[f].target && MotorCore.SameMotion(c.fans[f], c'.fans[f])
            else c' == c
  {
    MotorCore.AcceptedRequestsSet(m.core, f, pct);
  }

  /**
   * The motors serve a manual command with its own target, as the fan's new manual target
   * too, and end a communication inhibit with it; refused, it changes nothing. The task is
   * told which.
   */
  lemma ManualIsServed(s: State, t: TaskId)
    requires |s.sup.motor.channels| == |Core(s).fans| && t in s.sched.jobs && s.sched.jobs[t].ManualCall?
    ensures var job, s' := s.sched.jobs[t], Next(s, Call(t));
            var ok := job.target <= 100 && MotorCore.ManualAllowed(Core(s), job.fan);
            && s'.sched.sched == s.sched.sched && t in s'.sched.jobs
            && s'.sched.jobs[t] == Sched.ManualDone(job.fan, ok)
            && (!ok ==> Core(s') == Core(s))
            && (ok ==> && job.fan < |Core(s).fans| && MotorCore.OthersKept(Core(s), Core(s'), job.fan)
                       && MotorCore.LatchesKept(Core(s), Core(s')) && !Core(s').communication
                       && Core(s').fans[job.fan].manual == job.target == Core(s').fans[job.fan].target
                       && MotorCore.SameMotion(Core(s).fans[job.fan], Core(s').fans[job.fan]))
  {
    ManualMoves(s.sup.motor, s.sched.jobs[t].fan, s.sched.jobs[t].target);
  }

  lemma RestoreMoves(m: MotorRun.State, f: nat, pct: nat)
    requires |m.channels| == |m.core.fans|
    ensures var c, c' := m.core, MotorRun.Next(m, MotorRun.Automatic(f, pct)).core;
            if pct <= 100 && MotorCore.AutomaticAllowed(c, f) then Served(c, c', f, pct) else c' == c
  {
    MotorCore.AcceptedRequestsSet(m.core, f, pct);
  }

  /** A restore sets the target it asks for if automatic targets are allowed, and nothing else. */
  lemma RestoreIsServed(s: State, t: TaskId)
    requires |s.sup.motor.channels| == |Core(s).fans|
    requires t in s.sched.jobs && Sched.RequestOf(s.sched.jobs[t]).Some?
    requires Sched.RequestOf(s.sched.jobs[t]).value.Restore?
    ensures var request, s' := Sched.RequestOf(s.sched.jobs[t]).value, Next(s, Call(t));
            var ok := request.pct <= 100 && MotorCore.AutomaticAllowed(Core(s), request.fan);
            && s'.sched.sched == s.sched.sched && (!ok ==> Core(s') == Core(s))
            && (ok ==> Served(Core(s), Core(s'), request.fan, request.pct))
  {
    var request := Sched.RequestOf(s.sched.jobs[t]).value;
    RestoreMoves(s.sup.motor, request.fan, request.pct);
  }
}
