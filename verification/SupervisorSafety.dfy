/** What every interleaving of stops, enables, guards and motor steps keeps. */
module SupervisorSafety {
  import opened Prelude
  import opened MotorCore
  import opened MotorLatch
  import opened SupervisorRun
  import MotorRun
  import MotorSafety

  // ---- the invariant ----

  predicate OpHolds(op: Op) {
    match op
    case Idle => false
    case Checking => true
    case Enable(at) => !at.EWant?
    case Stopping(stop) =>
      stop.phase.Drive? || stop.phase.Unlock? || (stop.phase.Section? && !stop.phase.stage.Want?)
  }

  predicate Holds(job: Job) { job.guards > 0 || OpHolds(job.op) }

  ghost predicate Mutexes(mutex: Option<TaskId>, jobs: map<TaskId, Job>) {
    && (forall t :: t in jobs && Holds(jobs[t]) ==> mutex == Some(t))
    && (mutex.Some? ==> mutex.value in jobs && Holds(jobs[mutex.value]))
  }

  ghost function Stops(jobs: map<TaskId, Job>): set<TaskId> {
    set t | t in jobs && jobs[t].op.Stopping?
  }

  /** A stop waiting for the motor module is exactly the motor task of its section. */
  predicate LinkValid(m: MotorRun.State, t: TaskId, stop: StopJob) {
    if stop.phase.Section? && stop.phase.stage.Wait? then
      && t in m.tasks && IsStop(m.tasks[t])
      && m.tasks[t].kind == SectionKind(stop.action, stop.phase.which)
      && m.tasks[t].clear == SectionClear(stop, stop.phase.which)
    else t !in m.tasks
  }

  ghost predicate Links(m: MotorRun.State, jobs: map<TaskId, Job>) {
    forall t :: t in jobs && jobs[t].op.Stopping? ==> LinkValid(m, t, jobs[t].op.stop)
  }

  /** The first motor stop of the transaction has returned. */
  predicate PastFirst(phase: Phase) {
    match phase
    case WantLock => false
    case Drive => false
    case Unlock => false
    case Section(which, stage) => !which.First? || stage.Give?
    case _ => true
  }

  predicate DoneValid(c: Core, stop: StopJob) {
    && ((stop.action.StopGlobal? || stop.action.StopRmt?) && PastFirst(stop.phase) && !stop.out.refused ==>
          Latches(c, ActionKind(stop.action)) && (stop.clear ==> AllManualZero(c)))
    && (Durable(stop.action) && PastFirst(stop.phase) && stop.out.motor ==> !stop.out.refused)
    && (stop.phase.Section? && stop.phase.which.Verify? ==> !Durable(stop.action))
    && (stop.out.fallback == Some(true) ==> c.global && (stop.clear ==> AllManualZero(c)))
  }

  ghost predicate Dones(c: Core, jobs: map<TaskId, Job>) {
    forall t :: t in jobs && jobs[t].op.Stopping? ==> DoneValid(c, jobs[t].op.stop)
  }

  /** The stop has successfully driven the interlock off. */
  predicate Cut(op: Op) {
    op.Stopping? && op.stop.out.interlock && !op.stop.phase.WantLock? && !op.stop.phase.Drive?
  }

  /** An enable attempt that will not drive the output on without asking again. */
  predicate Harmless(op: Op) {
    op.Enable? ==> op.at.EWant? || op.at.ECheck? || op.at.EGive?
  }

  ghost predicate Off(output: bool, jobs: map<TaskId, Job>) {
    !output && forall u :: u in jobs ==> Harmless(jobs[u].op)
  }

  ghost predicate Interlocked(output: bool, jobs: map<TaskId, Job>) {
    (exists t :: t in jobs && Cut(jobs[t].op)) ==> Off(output, jobs)
  }

  predicate Waiting(op: Op) { op.Stopping? ==> op.stop.phase.WantLock? }

  /** While a task holds an output-command guard no other stop is past its claim. */
  ghost predicate Guarded(jobs: map<TaskId, Job>) {
    forall t, u :: t in jobs && u in jobs && t != u && jobs[t].guards > 0 ==> Waiting(jobs[u].op)
  }

  ghost predicate Inv(s: State) {
    && MotorSafety.Inv(s.motor) && Latched(s.motor)
    && Mutexes(s.mutex, s.jobs) && s.depth == |Stops(s.jobs)|
    && Links(s.motor, s.jobs) && Dones(s.motor.core, s.jobs) && Interlocked(s.output, s.jobs) && Guarded(s.jobs)
  }

  // ---- the motor side of every step ----

  lemma MotorPartKeeps(m: MotorRun.State, step: Option<MotorRun.Step>)
    requires MotorSafety.Inv(m) && Latched(m)
    ensures var m' := MotorAfter(m, step);
            && MotorSafety.Inv(m') && Latched(m') && KeepsLatch(m.core, m'.core)
            && (step.None? ==> m' == m) && (step.Some? ==> KeepsTasks(m, m', step.value))
  {
    if step.Some? {
      MotorSafety.NextKeepsInv(m, step.value);
      NextKeepsLatch(m, step.value);
    }
  }

  // ---- locks, depth and guards ----

  /** What a step does to its own task's job and to the mutex, whatever it was doing. */
  predicate Moves(s: State, s': State, t: TaskId) {
    && s'.jobs == s.jobs[t := JobOf(s', t)]
    && (s'.mutex != s.mutex ==> Available(s, t))
    && (s'.mutex == s.mutex || s'.mutex == if Holds(JobOf(s', t)) then Some(t) else None)
    && (Holds(JobOf(s', t)) != Holds(JobOf(s, t)) ==>
          s'.mutex == if Holds(JobOf(s', t)) then Some(t) else None)
    && (Holds(JobOf(s', t)) ==> s'.mutex == Some(t) || Holds(JobOf(s, t)))
    && s'.depth == s.depth + (if JobOf(s', t).op.Stopping? then 1 else 0) - (if JobOf(s, t).op.Stopping? then 1 else 0)
    && (JobOf(s', t).guards > JobOf(s, t).guards ==> s.depth == 0)
    && (Waiting(JobOf(s, t).op) && !Waiting(JobOf(s', t).op) ==> Available(s, t))
  }

  /** A step leaves every task but its actor where it stands. */
  lemma OtherJobsStay(s: State, step: Step, u: TaskId)
    requires Actor(step) != Some(u)
    ensures var s' := Next(s, step);
            (u in s'.jobs <==> u in s.jobs) && (u in s.jobs ==> s'.jobs[u] == s.jobs[u])
  {
    if step.Advance? && step.t in s.jobs { OtherAdvances(s, step.t, step.ok, u); }
  }

  lemma OtherAdvances(s: State, t: TaskId, ok: bool, u: TaskId)
    requires t in s.jobs && t != u
    ensures var s' := Control(s, Advance(t, ok));
            (u in s'.jobs <==> u in s.jobs) && (u in s.jobs ==> s'.jobs[u] == s.jobs[u])
  {
  }

  /** Lock steps enter and leave the mutex; other steps of a stop keep it. */
  lemma StopHolds(m: MotorRun.State, t: TaskId, stop: StopJob, ok: bool)
    ensures var next := StopAfter(m, t, stop, ok);
            && (Takes(stop.phase) ==> !OpHolds(Stopping(stop)) && OpHolds(Stopping(next)))
            && (Gives(stop.phase) ==> OpHolds(Stopping(stop)) && !OpHolds(Stopping(next)))
            && (!Takes(stop.phase) && !Gives(stop.phase) && !stop.phase.Finish? ==>
                  OpHolds(Stopping(next)) == OpHolds(Stopping(stop)))
            && (stop.phase.Finish? ==> !OpHolds(Stopping(stop)))
            && (stop.phase.WantLock? || !next.phase.WantLock?)
  {
  }

  lemma StopStepMoves(s: State, t: TaskId, stop: StopJob, ok: bool)
    requires t in s.jobs && s.jobs[t].op == Stopping(stop) && s.depth > 0
    requires Holds(s.jobs[t]) ==> s.mutex == Some(t)
    ensures Moves(s, StopStep(s, t, stop, ok), t)
  {
    StopHolds(s.motor, t, stop, ok);
  }

  lemma EnableStepMoves(s: State, t: TaskId, at: Enabling, ok: bool)
    requires t in s.jobs && s.jobs[t].op == Enable(at)
    requires Holds(s.jobs[t]) ==> s.mutex == Some(t)
    ensures Moves(s, EnableStep(s, t, at, ok), t)
  {
  }

  predicate Waitless(s: State) { forall t :: t in s.jobs && s.jobs[t].op.Stopping? ==> s.depth > 0 }

  lemma DepthIsPositive(s: State)
    requires s.depth == |Stops(s.jobs)|
    ensures Waitless(s)
    ensures s.depth == 0 ==> forall u :: u in s.jobs ==> !s.jobs[u].op.Stopping?
  {
    forall t | t in s.jobs && s.jobs[t].op.Stopping? ensures s.depth > 0 {
      assert t in Stops(s.jobs);
    }
  }

  /** The task a step of this module belongs to. */
  function Actor(step: Step): Option<TaskId> {
    match step
    case Claim(t, _, _) => Some(t)
    case BeginEnable(t) => Some(t)
    case BeginGuard(t) => Some(t)
    case EndGuard(t) => Some(t)
    case Advance(t, _) => Some(t)
    case Motor(_) => None
  }

  lemma ControlMoves(s: State, step: Step)
    requires Mutexes(s.mutex, s.jobs) && s.depth == |Stops(s.jobs)|
    ensures Control(s, step) == s || (Actor(step).Some? && Moves(s, Control(s, step), Actor(step).value))
  {
    DepthIsPositive(s);
    if step.Advance? && step.t in s.jobs {
      var op := s.jobs[step.t].op;
      if op.Stopping? { StopStepMoves(s, step.t, op.stop, step.ok); }
      if op.Enable? { EnableStepMoves(s, step.t, op.at, step.ok); }
    }
  }

  lemma MovesKeepLocks(s: State, s': State, t: TaskId)
    requires Moves(s, s', t) && Mutexes(s.mutex, s.jobs) && s.depth == |Stops(s.jobs)|
    ensures Mutexes(s'.mutex, s'.jobs) && s'.depth == |Stops(s'.jobs)|
  {
    assert t in s.jobs <==> t in s.jobs;
    if JobOf(s', t).op.Stopping? && !JobOf(s, t).op.Stopping? {
      assert Stops(s'.jobs) == Stops(s.jobs) + {t};
    } else if JobOf(s, t).op.Stopping? && !JobOf(s', t).op.Stopping? {
      assert Stops(s'.jobs) == Stops(s.jobs) - {t};
    } else {
      assert Stops(s'.jobs) == Stops(s.jobs);
    }
  }

  lemma MovesKeepGuards(s: State, s': State, t: TaskId)
    requires Moves(s, s', t) && Mutexes(s.mutex, s.jobs) && s.depth == |Stops(s.jobs)|
    requires Guarded(s.jobs)
    ensures Guarded(s'.jobs)
  {
    DepthIsPositive(s);
    forall h, u | h in s'.jobs && u in s'.jobs && h != u && s'.jobs[h].guards > 0
      ensures Waiting(s'.jobs[u].op)
    {
      if u == t {
        assert h in s.jobs && Holds(s.jobs[h]) && s.mutex == Some(h);
      } else if h == t && s.depth > 0 {
        assert h in s.jobs && s.jobs[h].guards > 0;
      }
    }
  }

  // ---- the interlock ----

  /** What a step means for the output line. */
  lemma ControlKeepsInterlock(s: State, step: Step)
    requires Mutexes(s.mutex, s.jobs) && s.depth == |Stops(s.jobs)| && Interlocked(s.output, s.jobs)
    ensures Interlocked(Control(s, step).output, Control(s, step).jobs)
  {
    var s' := Control(s, step);
    if step.Advance? && step.t in s.jobs {
      var op := s.jobs[step.t].op;
      DepthIsPositive(s);
      if op.Stopping? { StopKeepsInterlock(s, step.t, op.stop, step.ok); }
      if op.Enable? { EnableKeepsInterlock(s, step.t, op.at, step.ok); }
      if op.Checking? { IdlersKeepInterlock(s, s', step.t); }
    } else if Actor(step).Some? && s' != s {
      IdlersKeepInterlock(s, s', Actor(step).value);
    }
  }

  lemma IdlersKeepInterlock(s: State, s': State, t: TaskId)
    requires Interlocked(s.output, s.jobs) && s'.output == s.output
    requires s'.jobs == s.jobs[t := JobOf(s', t)] && !Cut(JobOf(s', t).op) && Harmless(JobOf(s', t).op)
    ensures Interlocked(s'.output, s'.jobs)
  {
    if u :| u in s'.jobs && Cut(s'.jobs[u].op) {
      assert u in s.jobs && Cut(s.jobs[u].op);
    }
  }

  lemma StopCuts(m: MotorRun.State, t: TaskId, stop: StopJob, ok: bool)
    ensures !stop.phase.Drive? ==> (Cut(Stopping(StopAfter(m, t, stop, ok))) ==> Cut(Stopping(stop)))
    ensures stop.phase.Drive? && Cut(Stopping(StopAfter(m, t, stop, ok))) ==> ok
  {
    if stop.phase.Section? { SectionKeepsInterlock(m, t, stop); }
  }

  lemma SectionKeepsInterlock(m: MotorRun.State, t: TaskId, stop: StopJob)
    requires stop.phase.Section?
    ensures SectionAfter(m, t, stop).out.interlock == stop.out.interlock
  {
  }

  lemma StopKeepsInterlock(s: State, t: TaskId, stop: StopJob, ok: bool)
    requires t in s.jobs && s.jobs[t].op == Stopping(stop)
    requires Mutexes(s.mutex, s.jobs) && Interlocked(s.output, s.jobs)
    ensures Interlocked(StopStep(s, t, stop, ok).output, StopStep(s, t, stop, ok).jobs)
  {
    var s' := StopStep(s, t, stop, ok);
    StopCuts(s.motor, t, stop, ok);
    if stop.phase.Drive? && ok {
      assert s.mutex == Some(t);
      forall u | u in s'.jobs ensures Harmless(s'.jobs[u].op) {
        if u != t { assert !Holds(s.jobs[u]); }
      }
    } else if u :| u in s'.jobs && Cut(s'.jobs[u].op) {
      assert u in s.jobs && Cut(s.jobs[u].op);
    }
  }

  lemma EnableKeepsInterlock(s: State, t: TaskId, at: Enabling, ok: bool)
    requires t in s.jobs && s.jobs[t].op == Enable(at) && Waitless(s)
    requires Interlocked(s.output, s.jobs)
    ensures Interlocked(EnableStep(s, t, at, ok).output, EnableStep(s, t, at, ok).jobs)
  {
    var s' := EnableStep(s, t, at, ok);
    if u :| u in s'.jobs && Cut(s'.jobs[u].op) {
      assert u in s.jobs && Cut(s.jobs[u].op) && s.depth > 0;
      assert Harmless(s.jobs[t].op);
      forall v | v in s'.jobs ensures Harmless(s'.jobs[v].op) {
        if v != t { assert Harmless(s.jobs[v].op); }
      }
    }
  }

  // ---- links to the motor module ----

  /** A motor step that is not this stop's own keeps its link. */
  lemma LinkFrame(m: MotorRun.State, m': MotorRun.State, step: MotorRun.Step, t: TaskId, stop: StopJob)
    requires LinkValid(m, t, stop) && KeepsTasks(m, m', step) && Starts(step) != Some(t)
    ensures LinkValid(m', t, stop)
  {
  }

  lemma CallLinks(m: MotorRun.State, t: TaskId, stop: StopJob)
    requires |m.channels| == |m.core.fans| && LinkValid(m, t, stop)
    requires stop.phase.Section? && stop.phase.stage.Call?
    ensures LinkValid(MotorAfter(m, StopMotorPart(m, t, stop)), t, SectionAfter(m, t, stop))
  {
  }

  lemma CollectLinks(m: MotorRun.State, t: TaskId, stop: StopJob)
    requires |m.channels| == |m.core.fans| && LinkValid(m, t, stop)
    requires stop.phase.Section? && stop.phase.stage.Wait?
    ensures LinkValid(MotorAfter(m, StopMotorPart(m, t, stop)), t, SectionAfter(m, t, stop))
  {
  }

  lemma StopLinks(m: MotorRun.State, t: TaskId, stop: StopJob, ok: bool)
    requires MotorSafety.Inv(m) && Latched(m) && LinkValid(m, t, stop) && !stop.phase.Finish?
    ensures LinkValid(MotorAfter(m, StopMotorPart(m, t, stop)), t, StopAfter(m, t, stop, ok))
  {
    if stop.phase.Section? && stop.phase.stage.Call? {
      CallLinks(m, t, stop);
    } else if stop.phase.Section? && stop.phase.stage.Wait? {
      CollectLinks(m, t, stop);
    } else {
      MotorPartKeeps(m, StopMotorPart(m, t, stop));
    }
  }

  lemma StopIsDone(m: MotorRun.State, t: TaskId, stop: StopJob, ok: bool)
    requires Latched(m) && LinkValid(m, t, stop) && DoneValid(m.core, stop)
    ensures DoneValid(m.core, StopAfter(m, t, stop, ok))
  {
    if t in m.tasks { assert LatchValid(m.core, m.tasks[t]); }
  }

  /** No other task's stop is started or collected by this step. */
  lemma NotAnothersStop(s: State, step: Step, u: TaskId)
    requires u in s.jobs && s.jobs[u].op.Stopping? && Actor(step) != Some(u)
    ensures MotorPart(s, step).Some? ==> Starts(MotorPart(s, step).value) != Some(u)
  {
  }

  predicate Stopped(s: State, t: TaskId) { t in s.jobs && s.jobs[t].op.Stopping? }

  /** An acting task's stop is a fresh claim, or has stayed, or has moved by one step. */
  lemma StopsOf(s: State, step: Step, t: TaskId)
    requires Actor(step) == Some(t) && Stopped(Control(s, step), t)
    ensures var stop := Control(s, step).jobs[t].op.stop;
            if !Stopped(s, t) then
              && stop.phase.WantLock? && stop.out == ALL_OK && t !in s.motor.tasks
              && MotorPart(s, step).None?
            else
              var was := s.jobs[t].op.stop;
              || (stop == was && MotorPart(s, step).None?)
              || (step.Advance? && !was.phase.Finish? && stop == StopAfter(s.motor, t, was, step.ok)
                  && MotorPart(s, step) == StopMotorPart(s.motor, t, was))
  {
  }

  lemma StepKeepsLinks(s: State, step: Step)
    requires MotorSafety.Inv(s.motor) && Latched(s.motor)
    requires Mutexes(s.mutex, s.jobs) && s.depth == |Stops(s.jobs)|
    requires Links(s.motor, s.jobs) && Dones(s.motor.core, s.jobs)
    ensures var s' := Next(s, step); Links(s'.motor, s'.jobs) && Dones(s'.motor.core, s'.jobs)
  {
    var jobs', m' := Control(s, step).jobs, MotorAfter(s.motor, MotorPart(s, step));
    ControlMoves(s, step);
    forall u | u in jobs' && jobs'[u].op.Stopping?
      ensures LinkValid(m', u, jobs'[u].op.stop) && DoneValid(m'.core, jobs'[u].op.stop)
    {
      if Actor(step) == Some(u) {
        ActorKeepsLink(s, step, u);
      } else {
        OtherKeepsLink(s, step, u);
      }
    }
  }

  lemma OtherKeepsLink(s: State, step: Step, u: TaskId)
    requires MotorSafety.Inv(s.motor) && Latched(s.motor)
    requires Links(s.motor, s.jobs) && Dones(s.motor.core, s.jobs)
    requires Stopped(s, u) && Actor(step) != Some(u)
    ensures var m' := MotorAfter(s.motor, MotorPart(s, step));
            LinkValid(m', u, s.jobs[u].op.stop) && DoneValid(m'.core, s.jobs[u].op.stop)
  {
    NotAnothersStop(s, step, u);
    MotorPartKeeps(s.motor, MotorPart(s, step));
    assert LinkValid(s.motor, u, s.jobs[u].op.stop) && DoneValid(s.motor.core, s.jobs[u].op.stop);
  }

  lemma ActorKeepsLink(s: State, step: Step, t: TaskId)
    requires MotorSafety.Inv(s.motor) && Latched(s.motor)
    requires Links(s.motor, s.jobs) && Dones(s.motor.core, s.jobs)
    requires Actor(step) == Some(t) && t in Control(s, step).jobs && Control(s, step).jobs[t].op.Stopping?
    ensures var m' := MotorAfter(s.motor, MotorPart(s, step));
            && LinkValid(m', t, Control(s, step).jobs[t].op.stop)
            && DoneValid(m'.core, Control(s, step).jobs[t].op.stop)
  {
    StopsOf(s, step, t);
    MotorPartKeeps(s.motor, MotorPart(s, step));
    if Stopped(s, t) && step.Advance? && !s.jobs[t].op.stop.phase.Finish? {
      StopLinks(s.motor, t, s.jobs[t].op.stop, step.ok);
      StopIsDone(s.motor, t, s.jobs[t].op.stop, step.ok);
    }
  }

  /** Every step of every task keeps the whole invariant. */
  lemma NextKeepsInv(s: State, step: Step)
    requires Inv(s)
    ensures Inv(Next(s, step))
  {
    ControlMoves(s, step);
    if Control(s, step) != s {
      var t := Actor(step).value;
      MovesKeepLocks(s, Control(s, step), t);
      MovesKeepGuards(s, Control(s, step), t);
    }
    ControlKeepsInterlock(s, step);
    StepKeepsLinks(s, step);
    MotorPartKeeps(s.motor, MotorPart(s, step));
  }

  /** After safety_supervisor_init: output off, nothing running. */
  function Init(cfg: Config, n: nat): State {
    State(0, 0, false, None, map[], MotorSafety.Init(cfg, n))
  }

  lemma InitIsValid(cfg: Config, n: nat)
    requires cfg.Valid()
    ensures Inv(Init(cfg, n))
  {
    MotorSafety.InitIsValid(cfg, n);
    assert Stops(map[]) == {};
  }

  function Run(s: State, steps: seq<Step>): State
    decreases |steps|
  {
    if steps == [] then s else Run(Next(s, steps[0]), steps[1..])
  }

  lemma {:induction false} RunKeepsInv(s: State, steps: seq<Step>)
    requires Inv(s)
    ensures Inv(Run(s, steps))
    decreases |steps|
  {
    if steps != [] {
      NextKeepsInv(s, steps[0]);
      RunKeepsInv(Next(s, steps[0]), steps[1..]);
    }
  }

  // ---- theorems over whole runs ----

  /** The stop of task t has cut the interlock and has not released its depth yet. */
  predicate CutBy(s: State, t: TaskId) { t in s.jobs && Cut(s.jobs[t].op) }

  /**
   * Interlock exclusion: between its successful drive(false) and the release of its
   * depth a stop keeps the output off, whatever enables race with it.
   */
  lemma OutputStaysOffDuringStop(s: State, t: TaskId)
    requires Inv(s) && CutBy(s, t)
    ensures !s.output
  {
  }

  lemma StopKeepsCut(m: MotorRun.State, t: TaskId, stop: StopJob, ok: bool)
    requires Cut(Stopping(stop))
    ensures Cut(Stopping(StopAfter(m, t, stop, ok)))
  {
  }

  /** A cut is only ever ended by the stop's own last step. */
  lemma CutLastsUntilRelease(s: State, step: Step, t: TaskId)
    requires Inv(s) && CutBy(s, t)
    ensures CutBy(Next(s, step), t) || (step.Advance? && step.t == t && s.jobs[t].op.stop.phase.Finish?)
  {
    if Actor(step) == Some(t) {
      if step.Advance? && !s.jobs[t].op.stop.phase.Finish? {
        StopKeepsCut(s.motor, t, s.jobs[t].op.stop, step.ok);
        assert CutBy(StopStep(s, t, s.jobs[t].op.stop, step.ok), t);
      }
    } else {
      ControlMoves(s, step);
    }
  }

  /** An enable attempt that must still consult the motor module before driving the line. */
  predicate Blocked(op: Op) { op.Enable? ==> op.at.EAsk? || Harmless(op) }

  /** The output is off and nobody can turn it on any more. */
  ghost predicate OffForGood(s: State) {
    s.motor.core.global && !s.output && forall u :: u in s.jobs ==> Blocked(s.jobs[u].op)
  }

  /** A GLOBAL stop that returns ESP_OK, or an escalated one, leaves the output off for good. */
  predicate LatchedStop(stop: StopJob) {
    && stop.out.interlock && stop.phase.Finish?
    && ((stop.action.StopGlobal? && stop.out.motor) || stop.out.fallback == Some(true))
  }

  lemma StopTurnsOffForGood(s: State, t: TaskId)
    requires Inv(s) && t in s.jobs && s.jobs[t].op.Stopping? && LatchedStop(s.jobs[t].op.stop)
    ensures OffForGood(s)
  {
    assert DoneValid(s.motor.core, s.jobs[t].op.stop) && Cut(s.jobs[t].op);
  }

  lemma BlockedOpsStayOff(s: State, step: Step, t: TaskId)
    requires OffForGood(s) && Actor(step) == Some(t)
    ensures !Control(s, step).output && Blocked(JobOf(Control(s, step), t).op)
  {
    if t in s.jobs && step.Advance? && s.jobs[t].op.Enable? {
      assert Blocked(s.jobs[t].op);
      assert !OutputAllowed(s.motor.core);
    }
  }

  lemma OffForGoodIsStable(s: State, step: Step)
    requires Inv(s) && OffForGood(s)
    ensures OffForGood(Next(s, step))
  {
    MotorPartKeeps(s.motor, MotorPart(s, step));
    ControlMoves(s, step);
    if Actor(step).Some? { BlockedOpsStayOff(s, step, Actor(step).value); }
    forall u | u in Control(s, step).jobs ensures Blocked(Control(s, step).jobs[u].op) {
      if Actor(step) != Some(u) { assert Blocked(s.jobs[u].op); }
    }
  }

  /** After a completed GLOBAL stop the interlock never turns on again, over every run. */
  lemma {:induction false} NeverOnAgain(s: State, steps: seq<Step>)
    requires Inv(s) && OffForGood(s)
    ensures !Run(s, steps).output && Run(s, steps).motor.core.global
    decreases |steps|
  {
    if steps != [] {
      NextKeepsInv(s, steps[0]);
      OffForGoodIsStable(s, steps[0]);
      NeverOnAgain(Next(s, steps[0]), steps[1..]);
    }
  }

  /**
   * An output command holding the guard runs entirely before the hardware work of
   * every other task's stop: no such stop has driven the line or called the motors.
   */
  lemma GuardPrecedesStops(s: State, t: TaskId, u: TaskId)
    requires Inv(s) && t in s.jobs && u in s.jobs && t != u
    requires s.jobs[t].guards > 0 && s.jobs[u].op.Stopping?
    ensures s.jobs[u].op.stop.phase.WantLock?
    ensures forall ok :: Next(s, Advance(u, ok)) == s
  {
  }
}
