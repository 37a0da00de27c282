/**
 * main/motor_control.c with its clock: apply_motor disables and retransmits a channel
 * whose last transmission is more than RMT_REFRESH_PERIOD_US old. A timed step is a
 * step of MotorRun whose refresh test is that one, so every theorem about MotorRun's
 * runs holds for timed runs too. What the clock adds is when exactly a stop that drops
 * its depth finds all channels streaming.
 */
module MotorRefresh {
  import opened Prelude
  import opened Policy
  import opened MotorCore
  import opened MotorRun
  import opened MotorSafety
  import opened MotorTheorems

  const REFRESH_PERIOD_US: nat := 1000 * 1000

  /** sent is last_tx_us; read is the time noted by the apply that holds the channel. */
  datatype Timed = Timed(motors: State, clock: nat, sent: seq<nat>, read: seq<nat>)

  datatype TimedStep = Pass(us: nat) | Do(step: Step)

  predicate Sized(m: Timed) {
    |m.motors.channels| == |m.motors.core.fans| == |m.sent| == |m.read|
  }

  /** needs_refresh: the guard of the branch that interrupts a channel's stream. */
  predicate Due(m: Timed, i: nat)
    requires i < |m.sent|
  {
    m.clock > m.sent[i] + REFRESH_PERIOD_US
  }

  /** The channel whose apply this step advances. */
  function Acting(s: State, step: Step): (f: Option<nat>)
    ensures f.Some? ==> f.value < |s.channels| && s.channels[f.value].io.Held?
  {
    if !step.Io? || step.t !in s.tasks then None else
    var f := Applying(s.tasks[step.t]);
    if f.None? || f.value >= |s.channels| then None else
    var io := s.channels[f.value].io;
    if io.Held? && io.owner == step.t then f else None
  }

  /** The step with its refresh test decided by the clock. */
  function Resolved(m: Timed, step: Step): Step
    requires Sized(m)
  {
    var f := Acting(m.motors, step);
    if f.Some? then step.(refresh := Due(m, f.value)) else step
  }

  function TimedNext(m: Timed, step: TimedStep): (r: Timed)
    requires Sized(m)
    ensures Sized(r) && |r.sent| == |m.sent|
  {
    match step
    case Pass(us) => m.(clock := m.clock + us)
    case Do(st) =>
      var f := Acting(m.motors, st);
      var at := if f.Some? then m.motors.channels[f.value].io.at else Give;
      m.(motors := Next(m.motors, Resolved(m, st)),
         read := if at.Decide? then m.read[f.value := m.clock] else m.read,
         sent := if at.MarkSent? then m.sent[f.value := m.read[f.value]] else m.sent)
  }

  function TimedRun(m: Timed, steps: seq<TimedStep>): (r: Timed)
    requires Sized(m)
    ensures Sized(r) && |r.sent| == |m.sent|
    decreases |steps|
  {
    if steps == [] then m else TimedRun(TimedNext(m, steps[0]), steps[1..])
  }

  function TimedInit(cfg: Config, n: nat): Timed {
    Timed(Init(cfg, n), 0, seq(n, _ => 0), seq(n, _ => 0))
  }

  ghost predicate TimedReachable(m: Timed) {
    exists cfg: Config, n: nat, steps: seq<TimedStep> ::
      cfg.Valid() && m == TimedRun(TimedInit(cfg, n), steps)
  }

  // ---- channels a stop has finished with ----

  /** Streams zero, and no apply has begun to interrupt it. */
  predicate Steady(ch: Channel) {
    && ch.active && ch.enabled && ch.lastDshot == 0 && ch.wire == Some(0)
    && (ch.io.Held? ==> ch.io.at in {Sample, Decide, Record, Give, Proving})
  }

  predicate Settled(m: Timed, i: nat)
    requires Sized(m) && i < |m.sent|
  {
    Due(m, i) || Steady(m.motors.channels[i])
  }

  predicate SettledUpTo(m: Timed, k: nat)
    requires Sized(m) && k <= |m.sent|
  {
    forall i :: 0 <= i < k ==> Settled(m, i)
  }

  /** Every channel an error-free stop has applied streams zero or is due for a refresh. */
  predicate StopSettled(m: Timed, t: TaskId, task: Task)
    requires Sized(m)
  {
    match task
    case StopApply(_, _, _, k, _, _, failed) =>
      !failed ==>
        && k < |m.sent| && SettledUpTo(m, k)
        && var io := m.motors.channels[k].io;
           io.Held? && io.owner == t && io.at in {Record, Give} && io.ok ==> Settled(m, k)
    case StopDrop(_, _, failed) => !failed ==> SettledUpTo(m, |m.sent|)
    case _ => true
  }

  /** Times of transmission lie in the past, and an apply noted its time after the last one. */
  predicate Clocked(m: Timed)
    requires Sized(m)
  {
    forall i :: 0 <= i < |m.sent| ==>
      && m.sent[i] <= m.clock
      && var io := m.motors.channels[i].io;
         io.Held? && io.at !in {Sample, Decide, Proving} ==> m.sent[i] <= m.read[i] <= m.clock
  }

  ghost predicate Timely(m: Timed) {
    && Sized(m) && Inv(m.motors) && Clocked(m)
    && forall t :: t in m.motors.tasks ==> StopSettled(m, t, m.motors.tasks[t])
  }

  lemma InitIsTimely(cfg: Config, n: nat)
    requires cfg.Valid()
    ensures Timely(TimedInit(cfg, n))
  {
    InitIsValid(cfg, n);
  }

  /** A zero request either leaves a settled channel alone or was made because of a due refresh. */
  lemma DriverSettles(ch: Channel, ok: bool, due: bool)
    requires FlagsValid(ch) && ch.io.Held? && ch.io.req == 0 && (due || Steady(ch))
    requires ch.io.at !in {Sample, Record, Give, Proving}
    ensures ch.io.at.MarkSent? || !due ==> Steady(DriverStep(ch, ok, due))
  {
  }

  /** A zero request that succeeds leaves its channel streaming zero. */
  lemma SuccessSettles(cfg: Config, applied: nat, ch: Channel, ok: bool, due: bool)
    requires ChannelValid(cfg, applied, ch) && ch.io.Held? && ch.io.req == 0
    requires ch.io.at !in {Sample, Record, Give, Proving}
    ensures var ch' := DriverStep(ch, ok, due); ch'.io.at == Record && ch'.io.ok ==> Steady(ch')
  {
  }

  /** Steps of one apply keep a settled channel settled as long as they ask for zero. */
  lemma IoSettles(m: Timed, step: Step, i: nat)
    requires Sized(m) && i < |m.sent| && Acting(m.motors, step).Some? && Settled(m, i)
    requires FlagsValid(m.motors.channels[i]) && QuietChannel(m.motors.channels[i])
    requires Acting(m.motors, step) == Some(i) ==> m.motors.channels[i].io.at != Proving
    ensures Settled(TimedNext(m, Do(step)), i)
  {
    var f, ch := Acting(m.motors, step).value, m.motors.channels[i];
    if f == i && ch.io.at !in {Sample, Record, Give} { DriverSettles(ch, step.ok, Due(m, i)); }
  }

  /** What one step of an apply does, with its refresh test resolved. */
  lemma IoMoves(m: Timed, step: Step)
    requires Sized(m) && Acting(m.motors, step).Some?
    ensures var f, m' := Acting(m.motors, step).value, TimedNext(m, Do(step));
            && step.t in m.motors.tasks && Applying(m.motors.tasks[step.t]) == Some(f)
            && m'.motors == IoStep(m.motors, step.t, f, step.ok, Due(m, f)) && m'.clock == m.clock
            && m.motors.channels[f].io.owner == step.t
            && forall i :: 0 <= i < |m.sent| && i != f ==> m'.sent[i] == m.sent[i]
    ensures var f, m' := Acting(m.motors, step).value, TimedNext(m, Do(step));
            !m.motors.channels[f].io.at.MarkSent? ==> m'.sent[f] == m.sent[f]
  {
  }

  /** An apply's own success, kept until its mutex is given back. */
  lemma OwnApplySettles(m: Timed, step: Step, k: nat)
    requires Sized(m) && Acting(m.motors, step) == Some(k) && m.motors.channels[k].io.at != Proving
    requires ChannelValid(m.motors.cfg, m.motors.core.fans[k].applied, m.motors.channels[k])
    requires m.motors.channels[k].io.at == Sample || m.motors.channels[k].io.req == 0
    requires m.motors.channels[k].io.at in {Record, Give} && m.motors.channels[k].io.ok ==> Settled(m, k)
    ensures var m' := TimedNext(m, Do(step));
            var io := m'.motors.channels[k].io;
            io.Held? && io.at in {Record, Give} && io.ok ==> Settled(m', k)
    ensures m.motors.channels[k].io.at == Give && m.motors.channels[k].io.ok ==> Settled(TimedNext(m, Do(step)), k)
  {
    var ch := m.motors.channels[k];
    IoMoves(m, step);
    if ch.io.at !in {Sample, Record, Give} {
      SuccessSettles(m.motors.cfg, m.motors.core.fans[k].applied, ch, step.ok, Due(m, k));
    }
  }

  /** A step of an apply keeps settled what an error-free stop has finished with. */
  lemma IoSettlesUpTo(m: Timed, step: Step, k: nat)
    requires Timely(m) && Acting(m.motors, step).Some? && k <= |m.sent|
    requires SettledUpTo(m, k) && QuietUpTo(m.motors, k)
    ensures SettledUpTo(TimedNext(m, Do(step)), k)
  {
    forall i | 0 <= i < k ensures Settled(TimedNext(m, Do(step)), i) {
      assert ChannelValid(m.motors.cfg, m.motors.core.fans[i].applied, m.motors.channels[i]);
      assert OwnerValid(m.motors, i) && QuietChannel(m.motors.channels[i]) && Settled(m, i);
      IoSettles(m, step, i);
    }
  }

  /** The stop whose own apply this is. */
  lemma OwnIoKeepsStop(m: Timed, step: Step, t: TaskId)
    requires Timely(m) && Acting(m.motors, step).Some? && step.t == t && m.motors.tasks[t].StopApply?
    requires t in TimedNext(m, Do(step)).motors.tasks
    ensures StopSettled(TimedNext(m, Do(step)), t, TimedNext(m, Do(step)).motors.tasks[t])
  {
    var m', task := TimedNext(m, Do(step)), m.motors.tasks[t];
    var k, task' := task.k, m'.motors.tasks[t];
    if task'.StopUndo? || task'.failed { return; }
    IoMoves(m, step);
    OwnIoMoves(m.motors, t, k, step.ok, Due(m, k));
    assert StopSettled(m, t, task) && SealValid(m.motors, t, task) && OwnerValid(m.motors, k);
    assert ChannelValid(m.motors.cfg, m.motors.core.fans[k].applied, m.motors.channels[k]);
    OwnApplySettles(m, step, k);
    IoSettlesUpTo(m, step, k);
    if task' != task { AdvancedStopIsSettled(m, step, t); }
  }

  /** A stop's apply either stays with its channel or, given back, moves on or has failed. */
  lemma OwnIoMoves(s: State, t: TaskId, k: nat, ok: bool, refresh: bool)
    requires |s.channels| == |s.core.fans| && t in s.tasks && s.tasks[t].StopApply? && k < |s.channels|
    requires s.channels[k].io.Held?
    ensures var s', io := IoStep(s, t, k, ok, refresh), s.channels[k].io;
            && s'.channels == s.channels[k := s'.channels[k]]
            && (t in s'.tasks && s'.tasks[t] != s.tasks[t] ==>
                  io.at == Give && (s'.tasks[t].StopUndo? || s'.tasks[t] == NextStopFan(s.tasks[t], |s.channels|, s.tasks[t].failed || !io.ok)))
  {
  }

  /** Its mutex given back, the stop turns to the next channel. */
  lemma AdvancedStopIsSettled(m: Timed, step: Step, t: TaskId)
    requires Timely(m) && Acting(m.motors, step).Some? && step.t == t && m.motors.tasks[t].StopApply?
    requires var k, m' := m.motors.tasks[t].k, TimedNext(m, Do(step));
             && t in m'.motors.tasks && m'.motors.tasks[t] == NextStopFan(m.motors.tasks[t], |m.sent|, false)
             && k < |m.sent| && SettledUpTo(m', k) && Settled(m', k)
             && m'.motors.channels == m.motors.channels[k := m'.motors.channels[k]]
    ensures StopSettled(TimedNext(m, Do(step)), t, TimedNext(m, Do(step)).motors.tasks[t])
  {
    var k := m.motors.tasks[t].k;
    if k + 1 < |m.sent| { assert OwnerValid(m.motors, k + 1); }
  }

  /** Another task's apply leaves a stop's entry, and the owner of its own channel, alone. */
  lemma OtherIoMoves(s: State, step: Step, f: nat, refresh: bool, t: TaskId)
    requires |s.channels| == |s.core.fans| && Acting(s, step) == Some(f) && step.t != t && t in s.tasks
    ensures var s' := IoStep(s, step.t, f, step.ok, refresh);
            && t in s'.tasks && s'.tasks[t] == s.tasks[t]
            && (s'.channels[f].io.Held? ==> s'.channels[f].io.owner != t)
            && forall i :: 0 <= i < |s.channels| && i != f ==> s'.channels[i] == s.channels[i]
  {
  }

  /** A stop that another task's apply passes by. */
  lemma OtherIoKeepsStop(m: Timed, step: Step, t: TaskId)
    requires Timely(m) && Acting(m.motors, step).Some? && step.t != t && t in m.motors.tasks
    ensures t in TimedNext(m, Do(step)).motors.tasks
    ensures TimedNext(m, Do(step)).motors.tasks[t] == m.motors.tasks[t]
    ensures StopSettled(TimedNext(m, Do(step)), t, m.motors.tasks[t])
  {
    var task, f := m.motors.tasks[t], Acting(m.motors, step).value;
    assert StopSettled(m, t, task) && SealValid(m.motors, t, task);
    IoMoves(m, step);
    OtherIoMoves(m.motors, step, f, Due(m, f), t);
    if task.StopApply? && !task.failed {
      IoSettlesUpTo(m, step, task.k);
      if f != task.k { assert Settled(m, task.k) ==> Settled(TimedNext(m, Do(step)), task.k); }
    } else if task.StopDrop? && !task.failed {
      IoSettlesUpTo(m, step, |m.sent|);
    }
  }

  lemma IoKeepsStop(m: Timed, step: Step, t: TaskId)
    requires Timely(m) && Acting(m.motors, step).Some? && t in TimedNext(m, Do(step)).motors.tasks
    ensures StopSettled(TimedNext(m, Do(step)), t, TimedNext(m, Do(step)).motors.tasks[t])
  {
    IoMoves(m, step);
    assert t in m.motors.tasks;
    if t != step.t {
      OtherIoKeepsStop(m, step, t);
    } else if m.motors.tasks[t].StopApply? {
      OwnIoKeepsStop(m, step, t);
    }
  }

  /** Steps that touch no channel, or only take or give back a mutex. */
  predicate Rests(ch: Channel, ch': Channel) {
    && ch' == ch.(io := ch'.io)
    && (ch'.io == ch.io || ch'.io.Free? || ch'.io.at in {Sample, Proving})
  }

  lemma RestingStep(s: State, step: Step, i: nat)
    requires |s.channels| == |s.core.fans| && Acting(s, step).None? && i < |s.channels|
    ensures Rests(s.channels[i], Next(s, step).channels[i])
  {
    if !step.TakeIo? && !step.ProofTake? && !step.ProofEnd? { UntouchedChannels(s, step); }
  }

  lemma UntouchedChannels(s: State, step: Step)
    requires |s.channels| == |s.core.fans| && Acting(s, step).None?
    requires !step.TakeIo? && !step.ProofTake? && !step.ProofEnd?
    ensures Next(s, step).channels == s.channels
  {
  }

  lemma RestSettlesUpTo(m: Timed, step: Step, k: nat)
    requires Timely(m) && Acting(m.motors, step).None? && k <= |m.sent| && SettledUpTo(m, k)
    ensures SettledUpTo(TimedNext(m, Do(step)), k)
  {
    forall i | 0 <= i < k ensures Settled(TimedNext(m, Do(step)), i) {
      RestingStep(m.motors, step, i);
      assert Settled(m, i);
    }
  }

  /** Outside apply_motor a stop stays where it is, begins its applies, or has failed. */
  lemma StopStands(s: State, step: Step, t: TaskId)
    requires |s.channels| == |s.core.fans| && Acting(s, step).None? && t in Next(s, step).tasks
    requires var task' := Next(s, step).tasks[t]; (task'.StopApply? || task'.StopDrop?) && !task'.failed
    ensures t in s.tasks
    ensures var task, task' := s.tasks[t], Next(s, step).tasks[t];
            task' == task || (task.StopEnter? && if task'.StopApply? then task'.k == 0 && |s.channels| > 0
                                                 else |s.channels| == 0)
  {
  }

  lemma RestKeepsStop(m: Timed, step: Step, t: TaskId)
    requires Timely(m) && Acting(m.motors, step).None? && t in TimedNext(m, Do(step)).motors.tasks
    ensures StopSettled(TimedNext(m, Do(step)), t, TimedNext(m, Do(step)).motors.tasks[t])
  {
    var m' := TimedNext(m, Do(step));
    var task' := m'.motors.tasks[t];
    if !(task'.StopApply? || task'.StopDrop?) || task'.failed { return; }
    StopStands(m.motors, step, t);
    var task, k := m.motors.tasks[t], if task'.StopApply? then task'.k else |m.sent|;
    assert StopSettled(m, t, task);
    RestSettlesUpTo(m, step, if task == task' then k else 0);
    if k < |m.sent| {
      RestingStep(m.motors, step, k);
      assert OwnerValid(m.motors, k);
    }
  }

  lemma PassKeepsStop(m: Timed, us: nat, t: TaskId)
    requires Timely(m) && t in m.motors.tasks
    ensures StopSettled(TimedNext(m, Pass(us)), t, m.motors.tasks[t])
  {
    assert StopSettled(m, t, m.motors.tasks[t]);
    forall i | 0 <= i < |m.sent| && Settled(m, i) ensures Settled(TimedNext(m, Pass(us)), i) {}
  }

  lemma IoKeepsClock(m: Timed, step: Step)
    requires Sized(m) && Clocked(m) && Acting(m.motors, step).Some?
    ensures Clocked(TimedNext(m, Do(step)))
  {
    var f := Acting(m.motors, step).value;
    var io := m.motors.channels[f].io;
    assert io.at !in {Sample, Decide, Proving} ==> m.sent[f] <= m.read[f] <= m.clock;
  }

  lemma NextKeepsClock(m: Timed, step: TimedStep)
    requires Sized(m) && Clocked(m)
    ensures Clocked(TimedNext(m, step))
  {
    if step.Pass? { return; }
    if Acting(m.motors, step.step).Some? {
      IoKeepsClock(m, step.step);
    } else {
      var m' := TimedNext(m, step);
      forall i | 0 <= i < |m.sent| ensures Rests(m.motors.channels[i], m'.motors.channels[i]) {
        RestingStep(m.motors, step.step, i);
      }
    }
  }

  /** Every timed step keeps the invariant. */
  lemma TimedNextKeepsTimely(m: Timed, step: TimedStep)
    requires Timely(m)
    ensures Timely(TimedNext(m, step))
  {
    var m' := TimedNext(m, step);
    NextKeepsClock(m, step);
    if step.Do? { NextKeepsInv(m.motors, Resolved(m, step.step)); }
    forall t | t in m'.motors.tasks ensures StopSettled(m', t, m'.motors.tasks[t]) {
      if step.Pass? {
        PassKeepsStop(m, step.us, t);
      } else if Acting(m.motors, step.step).Some? {
        IoKeepsStop(m, step.step, t);
      } else {
        RestKeepsStop(m, step.step, t);
      }
    }
  }

  lemma {:induction false} TimedRunKeepsTimely(m: Timed, steps: seq<TimedStep>)
    requires Timely(m)
    ensures Timely(TimedRun(m, steps))
    decreases |steps|
  {
    if steps != [] {
      TimedNextKeepsTimely(m, steps[0]);
      TimedRunKeepsTimely(TimedNext(m, steps[0]), steps[1..]);
    }
  }

  lemma ReachableIsTimely(m: Timed)
    requires TimedReachable(m)
    ensures Timely(m)
  {
    var cfg: Config, n: nat, steps: seq<TimedStep> :| cfg.Valid() && m == TimedRun(TimedInit(cfg, n), steps);
    InitIsTimely(cfg, n);
    TimedRunKeepsTimely(TimedInit(cfg, n), steps);
  }

  // ---- timed runs are runs ----

  /** The clock only decides what MotorRun leaves open. */
  lemma {:induction false} TimedRunsAreRuns(m: Timed, steps: seq<TimedStep>) returns (plain: seq<Step>)
    requires Sized(m)
    ensures TimedRun(m, steps).motors == Run(m.motors, plain)
    decreases |steps|
  {
    if steps == [] { return []; }
    var rest := TimedRunsAreRuns(TimedNext(m, steps[0]), steps[1..]);
    plain := if steps[0].Pass? then rest else [Resolved(m, steps[0].step)] + rest;
    assert steps[0].Do? ==> plain[1..] == rest;
  }

  lemma TimedIsReachable(m: Timed)
    requires TimedReachable(m)
    ensures Reachable(m.motors)
  {
    var cfg: Config, n: nat, steps: seq<TimedStep> :| cfg.Valid() && m == TimedRun(TimedInit(cfg, n), steps);
    var plain := TimedRunsAreRuns(TimedInit(cfg, n), steps);
    assert m.motors == Run(Init(cfg, n), plain);
  }

  // ---- all channels at once ----

  /** The stop t stands at the drop of its depth without having met an error. */
  predicate Dropping(s: State, t: TaskId) { t in s.tasks && s.tasks[t].StopDrop? && !s.tasks[t].failed }

  predicate SomeDue(m: Timed)
    requires Sized(m)
  {
    exists i :: 0 <= i < |m.sent| && Due(m, i)
  }

  /**
   * At the drop of an error-free stop a channel that does not stream zero is one whose
   * refresh is due: only a refresh that another task's apply began, after the stop's own
   * apply of that channel, can have interrupted it.
   */
  lemma SilentMeansDue(m: Timed, t: TaskId, i: nat)
    requires TimedReachable(m) && Dropping(m.motors, t) && i < |m.motors.channels|
    ensures Sized(m) && (m.motors.channels[i].wire != Some(0) ==> Due(m, i))
  {
    ReachableIsTimely(m);
    assert StopSettled(m, t, m.motors.tasks[t]);
    assert Settled(m, i);
  }

  /**
   * When an error-free stop drops its depth and no channel is due for a refresh, all
   * channels stream zero at once, whatever ramp ticks, requests and failures raced with it.
   */
  lemma NoRefreshDueMeansAllZero(m: Timed, t: TaskId)
    requires TimedReachable(m) && Dropping(m.motors, t) && !SomeDue(m)
    ensures StreamsZero(Next(m.motors, DropSection(t)))
  {
    ReachableIsTimely(m);
    DropIsSettled(m, t);
  }

  lemma DropIsSettled(m: Timed, t: TaskId)
    requires Timely(m) && Dropping(m.motors, t) && !SomeDue(m)
    ensures StreamsZero(m.motors) && StreamsZero(Next(m.motors, DropSection(t)))
  {
    assert StopSettled(m, t, m.motors.tasks[t]);
    forall i | 0 <= i < |m.sent| ensures m.motors.channels[i].wire == Some(0) {
      assert Settled(m, i) && !Due(m, i);
    }
  }

  predicate Instant(steps: seq<TimedStep>) { forall k :: 0 <= k < |steps| ==> steps[k].Do? }

  /** Some interleaving of other tasks, within this instant, leaves a silent channel at the drop. */
  ghost predicate CanFindSilence(m: Timed, t: TaskId)
    requires Sized(m)
  {
    exists steps :: SilencedBy(m, t, steps)
  }

  predicate SilencedBy(m: Timed, t: TaskId, steps: seq<TimedStep>)
    requires Sized(m)
  {
    && Instant(steps) && t in m.motors.tasks
    && var s := TimedRun(m, steps).motors;
       t in s.tasks && s.tasks[t] == m.motors.tasks[t] && !StreamsZero(Next(s, DropSection(t)))
  }

  /** Within an instant no channel becomes due. */
  lemma {:induction false} NothingBecomesDue(m: Timed, steps: seq<TimedStep>)
    requires Timely(m) && Instant(steps) && !SomeDue(m)
    ensures !SomeDue(TimedRun(m, steps))
    decreases |steps|
  {
    if steps != [] {
      var m' := TimedNext(m, steps[0]);
      forall i | 0 <= i < |m.sent| ensures !Due(m', i) { assert !Due(m, i); }
      TimedNextKeepsTimely(m, steps[0]);
      NothingBecomesDue(m', steps[1..]);
    }
  }

  lemma {:induction false} Above(ids: set<TaskId>) returns (top: TaskId)
    ensures forall t :: t in ids ==> t < top
    decreases |ids|
  {
    if ids == {} { return 0; }
    var t :| t in ids;
    top := Above(ids - {t});
    assert forall u :: u in ids ==> u == t || u in ids - {t};
    if top <= t { top := t + 1; }
  }

  /** The state m with task u inside its apply of channel i, at the given place. */
  function Applies(m: Timed, u: TaskId, i: nat, at: At, generation: nat): Timed
    requires Sized(m) && i < |m.sent|
  {
    var ch := m.motors.channels[i].(io := Held(u, at, 0, 0, true));
    m.(motors := m.motors.(channels := m.motors.channels[i := ch],
                           tasks := m.motors.tasks[u := RampApply(i, false, 0, generation)]))
  }

  /** The ramp task's tick on a stopped fan, up to the rmt_disable of a refresh. */
  lemma RampTakesChannel(m: Timed, u: TaskId, i: nat)
    requires Sized(m) && u !in m.motors.tasks && i < |m.sent| && m.motors.channels[i].io.Free?
    requires m.motors.core.fans[i].current == 0 == m.motors.core.fans[i].target
    ensures TimedNext(TimedNext(m, Do(Tick(u, i))), Do(TakeIo(u)))
            == Applies(m, u, i, Sample, m.motors.core.fans[i].generation)
  {
    var g := m.motors.core.fans[i].generation;
    var m1 := m.(motors := m.motors.(tasks := m.motors.tasks[u := RampApply(i, false, 0, g)]));
    assert TimedNext(m, Do(Tick(u, i))) == m1;
  }

  lemma RampSamples(m: Timed, u: TaskId, i: nat, g: nat)
    requires Sized(m) && i < |m.sent|
    requires SampleApply(m.motors.cfg, m.motors.core, i) == (m.motors.core, 0, 0)
    ensures TimedNext(Applies(m, u, i, Sample, g), Do(Io(u, true, true))) == Applies(m, u, i, Decide, g)
  {
    var m0 := Applies(m, u, i, Sample, g);
    IoMoves(m0, Io(u, true, true));
    assert TimedNext(m0, Do(Io(u, true, true))).motors.channels == Applies(m, u, i, Decide, g).motors.channels;
  }

  lemma RampRefreshes(m: Timed, u: TaskId, i: nat, g: nat)
    requires Sized(m) && i < |m.sent| && Due(m, i) && m.motors.channels[i].enabled
    ensures var m1 := TimedNext(Applies(m, u, i, Decide, g), Do(Io(u, true, true)));
            && m1.motors == Applies(m, u, i, CallDisable, g).motors
            && TimedNext(m1, Do(Io(u, true, true))).motors.channels[i].wire == None
            && TimedNext(m1, Do(Io(u, true, true))).motors.tasks == m1.motors.tasks
  {
    var m0, io := Applies(m, u, i, Decide, g), Io(u, true, true);
    IoMoves(m0, io);
    var m1 := TimedNext(m0, Do(io));
    assert m1.motors.channels == Applies(m, u, i, CallDisable, g).motors.channels;
    IoMoves(m1, io);
  }

  function Interruption(u: TaskId, i: nat): seq<TimedStep> {
    [Do(Tick(u, i)), Do(TakeIo(u)), Do(Io(u, true, true)), Do(Io(u, true, true)), Do(Io(u, true, true))]
  }

  lemma InterruptionSilences(m: Timed, t: TaskId, u: TaskId, i: nat)
    requires Sized(m) && t in m.motors.tasks && u !in m.motors.tasks && i < |m.sent| && Due(m, i)
    requires m.motors.channels[i].io.Free? && m.motors.channels[i].enabled
    requires m.motors.core.fans[i].current == 0 == m.motors.core.fans[i].target
    requires SampleApply(m.motors.cfg, m.motors.core, i) == (m.motors.core, 0, 0)
    ensures SilencedBy(m, t, Interruption(u, i))
  {
    var g, io := m.motors.core.fans[i].generation, Io(u, true, true);
    RampTakesChannel(m, u, i);
    RampSamples(m, u, i, g);
    RampRefreshes(m, u, i, g);
    var m1 := TimedNext(m, Do(Tick(u, i)));
    var m2 := TimedNext(m1, Do(TakeIo(u)));
    var m3 := TimedNext(m2, Do(io));
    var m4 := TimedNext(m3, Do(io));
    var m5 := TimedNext(m4, Do(io));
    TimedRunsReach(m, Interruption(u, i), [m, m1, m2, m3, m4, m5]);
    SilentChannel(m5.motors, t, i);
  }

  lemma RefreshInterrupts(m: Timed, t: TaskId, u: TaskId, i: nat)
    requires Timely(m) && Dropping(m.motors, t) && u !in m.motors.tasks && i < |m.sent| && Due(m, i)
    requires m.motors.channels[i].io.Free? && m.motors.channels[i].wire.Some?
    ensures SilencedBy(m, t, Interruption(u, i))
  {
    assert SealValid(m.motors, t, m.motors.tasks[t]) && FanValid(m.motors.cfg, m.motors.core.fans[i]);
    assert ChannelValid(m.motors.cfg, m.motors.core.fans[i].applied, m.motors.channels[i]);
    SampleIsPure(m.motors.cfg, m.motors.core, i);
    InterruptionSilences(m, t, u, i);
  }

  lemma SilentChannel(s: State, t: TaskId, i: nat)
    requires |s.channels| == |s.core.fans| && t in s.tasks && i < |s.channels| && s.channels[i].wire == None
    ensures !StreamsZero(Next(s, DropSection(t)))
  {
    assert Next(s, DropSection(t)).channels == s.channels;
  }

  lemma {:induction false} TimedRunsReach(m: Timed, steps: seq<TimedStep>, trace: seq<Timed>)
    requires |trace| == |steps| + 1 && trace[0] == m
    requires forall i :: 0 <= i < |trace| ==> Sized(trace[i])
    requires forall i :: 0 <= i < |steps| ==> trace[i + 1] == TimedNext(trace[i], steps[i])
    ensures Sized(m) && TimedRun(m, steps) == trace[|steps|]
    decreases |steps|
  {
    if steps != [] { TimedRunsReach(trace[1], steps[1..], trace[1..]); }
  }

  /**
   * With every I/O mutex free at the drop, "all channels stream zero at once" holds in
   * every interleaving of that instant if and only if no channel is due for a refresh.
   */
  lemma AllZeroIffNoRefreshDue(m: Timed, t: TaskId)
    requires TimedReachable(m) && Dropping(m.motors, t)
    requires forall i :: 0 <= i < |m.motors.channels| ==> m.motors.channels[i].io.Free?
    ensures CanFindSilence(m, t) <==> SomeDue(m)
  {
    ReachableIsTimely(m);
    if SomeDue(m) {
      var i :| 0 <= i < |m.sent| && Due(m, i);
      if m.motors.channels[i].wire.None? {
        assert SilencedBy(m, t, []);
      } else {
        var u := Above(m.motors.tasks.Keys);
        RefreshInterrupts(m, t, u, i);
      }
    }
    if CanFindSilence(m, t) && !SomeDue(m) {
      var steps :| SilencedBy(m, t, steps);
      NothingBecomesDue(m, steps);
      TimedRunKeepsTimely(m, steps);
      DropIsSettled(TimedRun(m, steps), t);
    }
  }

  // ---- what the error counts tell ----

  /** Between applies, a channel whose last apply succeeded is streaming. */
  predicate Healthy(fan: Fan, ch: Channel) {
    && (ch.io.Free? || ch.io.at in {Sample, Give, Proving} ==> fan.errors > 0 || (ch.active && ch.enabled))
    && (ch.io.Held? && ch.io.at == Record && ch.io.ok ==> ch.active && ch.enabled)
  }

  predicate AllHealthy(s: State) {
    && |s.channels| == |s.core.fans|
    && forall i :: 0 <= i < |s.channels| ==> Healthy(s.core.fans[i], s.channels[i])
  }

  lemma DriverStaysHealthy(cfg: Config, fan: Fan, ch: Channel, ok: bool, refresh: bool)
    requires ChannelValid(cfg, fan.applied, ch) && ch.io.Held? && ch.io.at !in {Sample, Record, Give, Proving}
    ensures Healthy(fan, DriverStep(ch, ok, refresh))
  {
  }

  /** The fan whose apply advances. */
  lemma AppliedStaysHealthy(s: State, t: TaskId, f: nat, ok: bool, refresh: bool)
    requires |s.channels| == |s.core.fans| && CoreValid(s.cfg, s.core) && t in s.tasks && f < |s.channels|
    requires ChannelValid(s.cfg, s.core.fans[f].applied, s.channels[f]) && Healthy(s.core.fans[f], s.channels[f])
    requires s.channels[f].io.Held? && s.channels[f].io.at != Proving
    ensures Healthy(IoStep(s, t, f, ok, refresh).core.fans[f], IoStep(s, t, f, ok, refresh).channels[f])
  {
    var fan, ch := s.core.fans[f], s.channels[f];
    if ch.io.at == Sample {
      SampleIsPure(s.cfg, s.core, f);
    } else if ch.io.at !in {Record, Give} {
      DriverStaysHealthy(s.cfg, fan, ch, ok, refresh);
    }
  }

  lemma ApplyStaysHealthy(s: State, step: Step, f: nat)
    requires Inv(s) && AllHealthy(s) && Acting(s, step) == Some(f)
    ensures AllHealthy(IoStep(s, step.t, f, step.ok, step.refresh))
  {
    var s' := IoStep(s, step.t, f, step.ok, step.refresh);
    assert ChannelValid(s.cfg, s.core.fans[f].applied, s.channels[f]) && Healthy(s.core.fans[f], s.channels[f]);
    assert OwnerValid(s, f) && s.channels[f].io.at != Proving;
    AppliedStaysHealthy(s, step.t, f, step.ok, step.refresh);
    IoErrors(s, f);
    forall i | 0 <= i < |s.channels| && i != f ensures Healthy(s'.core.fans[i], s'.channels[i]) {
      assert Healthy(s.core.fans[i], s.channels[i]);
    }
  }

  lemma IoErrors(s: State, f: nat)
    requires f < |s.channels| == |s.core.fans|
    ensures forall i :: 0 <= i < |s.core.fans| && i != f ==> IoCore(s, f).fans[i].errors == s.core.fans[i].errors
  {
  }

  lemma ErrorsStay(s: State, step: Step)
    requires |s.channels| == |s.core.fans| && Acting(s, step).None?
    ensures forall i :: 0 <= i < |s.core.fans| ==> Next(s, step).core.fans[i].errors == s.core.fans[i].errors
  {
  }

  /** A mutex is taken when free, and a prover gives back only what it holds as prover. */
  lemma MutexStaysHealthy(s: State, step: Step, i: nat)
    requires |s.channels| == |s.core.fans| && Acting(s, step).None? && i < |s.channels| && OwnerValid(s, i)
    ensures var ch, ch' := s.channels[i], Next(s, step).channels[i];
            ch' == ch || (ch' == ch.(io := ch'.io) && (ch'.io.Free? || ch'.io.at in {Sample, Proving})
                          && (ch.io.Free? || ch.io.at == Proving))
  {
    RestingStep(s, step, i);
    if !step.TakeIo? && !step.ProofTake? && !step.ProofEnd? { UntouchedChannels(s, step); }
  }

  lemma {:induction false} RunsStayHealthy(s: State, steps: seq<Step>)
    requires Inv(s) && AllHealthy(s)
    ensures AllHealthy(Run(s, steps))
    decreases |steps|
  {
    if steps == [] { return; }
    var s', f := Next(s, steps[0]), Acting(s, steps[0]);
    if f.Some? {
      ApplyStaysHealthy(s, steps[0], f.value);
    } else {
      ErrorsStay(s, steps[0]);
      forall i | 0 <= i < |s.channels| ensures Healthy(s'.core.fans[i], s'.channels[i]) {
        assert OwnerValid(s, i);
        MutexStaysHealthy(s, steps[0], i);
        assert Healthy(s.core.fans[i], s.channels[i]);
      }
    }
    NextKeepsInv(s, steps[0]);
    RunsStayHealthy(s', steps[1..]);
  }

  /**
   * Whatever the clock says: an error-free stop that drops its depth with every I/O
   * mutex free and no fan's last apply failed leaves all channels streaming zero at once.
   */
  lemma HealthyDropIsAllZero(s: State, t: TaskId)
    requires Reachable(s) && Dropping(s, t)
    requires forall i :: 0 <= i < |s.channels| ==> s.channels[i].io.Free? && s.core.fans[i].errors == 0
    ensures StreamsZero(Next(s, DropSection(t)))
  {
    var cfg: Config, n: nat, steps: seq<Step> :| cfg.Valid() && s == Run(Init(cfg, n), steps);
    InitIsValid(cfg, n);
    RunsStayHealthy(Init(cfg, n), steps);
    DropLeavesZeroOnTheWire(s, t);
    forall i | 0 <= i < |s.channels| ensures s.channels[i].active && s.channels[i].enabled {
      assert Healthy(s.core.fans[i], s.channels[i]);
    }
  }

  // ---- the failing case is reachable ----

  function Doing(steps: seq<Step>): seq<TimedStep> {
    if steps == [] then [] else [Do(steps[0])] + Doing(steps[1..])
  }

  /** Before the first refresh falls due the clock decides every refresh test with no. */
  lemma {:induction false} EarlyRunsAreRuns(m: Timed, steps: seq<Step>)
    requires Sized(m) && m.clock <= REFRESH_PERIOD_US
    requires forall k :: 0 <= k < |steps| && steps[k].Io? ==> !steps[k].refresh
    ensures TimedRun(m, Doing(steps)).motors == Run(m.motors, steps) && TimedRun(m, Doing(steps)).clock == m.clock
    decreases |steps|
  {
    if steps != [] {
      assert Resolved(m, steps[0]) == steps[0];
      EarlyRunsAreRuns(TimedNext(m, Do(steps[0])), steps[1..]);
    }
  }

  lemma {:induction false} TimedRunAppend(m: Timed, a: seq<TimedStep>, b: seq<TimedStep>)
    requires Sized(m)
    ensures TimedRun(m, a + b) == TimedRun(TimedRun(m, a), b)
    decreases |a|
  {
    if a == [] {
      assert a + b == b;
    } else {
      assert (a + b)[0] == a[0] && (a + b)[1..] == a[1..] + b;
      TimedRunAppend(TimedNext(m, a[0]), a[1..], b);
    }
  }

  lemma TimedRunStaysReachable(m: Timed, steps: seq<TimedStep>)
    requires TimedReachable(m) && Sized(m)
    ensures TimedReachable(TimedRun(m, steps))
  {
    var cfg: Config, n: nat, before: seq<TimedStep> :| cfg.Valid() && m == TimedRun(TimedInit(cfg, n), before);
    TimedRunAppend(TimedInit(cfg, n), before, steps);
    assert TimedRun(m, steps) == TimedRun(TimedInit(cfg, n), before + steps);
  }

  lemma StopDropsEarly() returns (m: Timed)
    ensures TimedReachable(m) && m.clock == 0
    ensures m.motors == OneFan(1, true, 1, Zeroed(Free), Some(1), map[1 := DROPPING])
  {
    var m0 := TimedInit(Config(15, 5, 5), 1);
    assert m0 == TimedRun(m0, []);
    EarlyRunsAreRuns(m0, STOP_STEPS);
    StopReachesItsDrop();
    m := TimedRun(m0, Doing(STOP_STEPS));
    TimedRunStaysReachable(m0, Doing(STOP_STEPS));
  }

  /** Time passes until the refresh is due. */
  lemma DropFallsDue(m: Timed) returns (due: Timed)
    requires TimedReachable(m) && m.clock == 0
    requires m.motors == OneFan(1, true, 1, Zeroed(Free), Some(1), map[1 := DROPPING])
    ensures TimedReachable(due) && due.motors == m.motors && Sized(due) && SomeDue(due)
  {
    ReachableIsTimely(m);
    due := TimedNext(m, Pass(REFRESH_PERIOD_US + 1));
    assert due == TimedRun(m, [Pass(REFRESH_PERIOD_US + 1)]);
    TimedRunStaysReachable(m, [Pass(REFRESH_PERIOD_US + 1)]);
    assert Due(due, 0);
  }

  ghost predicate SilentDrop(m: Timed, t: TaskId) {
    && TimedReachable(m) && Sized(m) && Dropping(m.motors, t)
    && !StreamsZero(Next(m.motors, DropSection(t)))
  }

  lemma SilenceIsReachable(m: Timed, t: TaskId)
    requires TimedReachable(m) && Sized(m) && Dropping(m.motors, t) && CanFindSilence(m, t)
    ensures exists m' :: SilentDrop(m', t)
  {
    var steps :| SilencedBy(m, t, steps);
    TimedRunStaysReachable(m, steps);
    assert SilentDrop(TimedRun(m, steps), t);
  }

  /**
   * "All channels stream zero at once" is not guaranteed at the drop: a refresh that
   * falls due may have one of them disabled at that instant.
   */
  lemma RefreshCanSilenceAChannelAtTheDrop()
    ensures exists m, t :: SilentDrop(m, t)
  {
    var m := StopDropsEarly();
    var due := DropFallsDue(m);
    AllZeroIffNoRefreshDue(due, 1);
    SilenceIsReachable(due, 1);
  }
}
