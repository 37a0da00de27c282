/**
 * What a motor stop does with every fan, whichever drives fail (main/motor_control.c,
 * stop_all_internal): a log beside the timed runs of MotorRefresh notes each apply a
 * stop has finished, as the channel and the driver's verdict.
 */
module MotorDrives {
  import opened Prelude
  import opened Policy
  import opened MotorCore
  import opened MotorRun
  import opened MotorSafety
  import opened MotorTheorems
  import opened MotorRefresh

  datatype Drive = Drive(channel: nat, ok: bool)

  /** drives lists, per stop, the applies it has finished since its section. */
  datatype Logged = Logged(timed: Timed, drives: map<TaskId, seq<Drive>>)

  /** The stop whose section, or whose finished apply, this step is. */
  function LogOf(s: State, log: map<TaskId, seq<Drive>>, step: Step): map<TaskId, seq<Drive>> {
    if step.EnterSection? && step.t in s.tasks && s.tasks[step.t].StopEnter? then log[step.t := []]
    else if Acting(s, step).Some? && s.tasks[step.t].StopApply? then
      var f := Acting(s, step).value;
      var io := s.channels[f].io;
      if io.at.Give? then log[step.t := Drives(log, step.t) + [Drive(f, io.ok)]] else log
    else log
  }

  function Drives(log: map<TaskId, seq<Drive>>, t: TaskId): seq<Drive> { if t in log then log[t] else [] }

  function LoggedNext(m: Logged, step: TimedStep): (r: Logged)
    requires Sized(m.timed)
    ensures Sized(r.timed) && |r.timed.sent| == |m.timed.sent|
  {
    Logged(TimedNext(m.timed, step),
           if step.Do? then LogOf(m.timed.motors, m.drives, step.step) else m.drives)
  }

  function LoggedRun(m: Logged, steps: seq<TimedStep>): (r: Logged)
    requires Sized(m.timed)
    ensures Sized(r.timed) && |r.timed.sent| == |m.timed.sent|
    decreases |steps|
  {
    if steps == [] then m else LoggedRun(LoggedNext(m, steps[0]), steps[1..])
  }

  function LoggedInit(cfg: Config, n: nat): Logged { Logged(TimedInit(cfg, n), map[]) }

  ghost predicate LoggedReachable(m: Logged) {
    exists cfg: Config, n: nat, steps: seq<TimedStep> ::
      cfg.Valid() && m == LoggedRun(LoggedInit(cfg, n), steps)
  }

  // ---- the log: every fan once, in order, and the stop's verdict ----

  /** Channels 0 to k, once each and in order. */
  predicate InOrder(drives: seq<Drive>, k: nat) {
    |drives| == k && forall i :: 0 <= i < k ==> drives[i].channel == i
  }

  predicate AnyFailed(drives: seq<Drive>) { exists i :: 0 <= i < |drives| && !drives[i].ok }

  /** How far a stop is with its n fans, and whether some drive failed. */
  predicate LogValid(drives: seq<Drive>, n: nat, task: Task) {
    match task
    case StopApply(_, _, _, k, _, _, failed) => k < n && InOrder(drives, k) && (failed <==> AnyFailed(drives))
    case StopUndo(_, _, k, _, _) => k < n && InOrder(drives, k + 1) && !drives[k].ok
    case StopDrop(_, _, failed) => InOrder(drives, n) && (failed <==> AnyFailed(drives))
    case StopGive(_, _, failed) => InOrder(drives, n) && (failed <==> AnyFailed(drives))
    case Returned(_, _, failed, refused) => refused || (InOrder(drives, n) && (failed <==> AnyFailed(drives)))
    case _ => true
  }

  predicate Logs(s: State, log: map<TaskId, seq<Drive>>) {
    forall t :: t in s.tasks ==> LogValid(Drives(log, t), |s.channels|, s.tasks[t])
  }

  lemma FailuresAdd(drives: seq<Drive>, d: Drive)
    ensures AnyFailed(drives + [d]) <==> AnyFailed(drives) || !d.ok
  {
    var more := drives + [d];
    assert more[|drives|] == d;
    if AnyFailed(drives) {
      var i :| 0 <= i < |drives| && !drives[i].ok;
      assert more[i] == drives[i];
    }
  }

  /** A finished apply of the stop's current channel is logged, and the stop moves on. */
  lemma GiveKeepsLog(s: State, log: map<TaskId, seq<Drive>>, t: TaskId, f: nat, ok: bool, refresh: bool)
    requires |s.channels| == |s.core.fans| && t in s.tasks && s.tasks[t].StopApply? && s.tasks[t].k == f < |s.channels|
    requires s.channels[f].io.Held? && s.channels[f].io.at.Give?
    requires LogValid(Drives(log, t), |s.channels|, s.tasks[t])
    ensures var s', drives := IoStep(s, t, f, ok, refresh), Drives(log, t) + [Drive(f, s.channels[f].io.ok)];
            t in s'.tasks && LogValid(drives, |s.channels|, s'.tasks[t])
  {
    FailuresAdd(Drives(log, t), Drive(f, s.channels[f].io.ok));
  }

  /** Inside its apply a stop's entry does not change. */
  lemma InsideKeepsEntry(s: State, t: TaskId, f: nat, ok: bool, refresh: bool)
    requires |s.channels| == |s.core.fans| && t in s.tasks && f < |s.channels|
    requires s.channels[f].io.Held? && !s.channels[f].io.at.Give?
    ensures IoStep(s, t, f, ok, refresh).tasks == s.tasks
  {
  }

  lemma IoKeepsLogs(s: State, log: map<TaskId, seq<Drive>>, step: Step)
    requires |s.channels| == |s.core.fans| && Logs(s, log) && Acting(s, step).Some?
    ensures Logs(IoStep(s, step.t, Acting(s, step).value, step.ok, step.refresh), LogOf(s, log, step))
  {
    var f, t := Acting(s, step).value, step.t;
    var s' := IoStep(s, t, f, step.ok, step.refresh);
    if s.channels[f].io.at.Give? && s.tasks[t].StopApply? {
      GiveKeepsLog(s, log, t, f, step.ok, step.refresh);
    } else if !s.channels[f].io.at.Give? {
      InsideKeepsEntry(s, t, f, step.ok, step.refresh);
    }
    forall u | u in s'.tasks ensures LogValid(Drives(LogOf(s, log, step), u), |s'.channels|, s'.tasks[u]) {
      if u != t { assert s'.tasks[u] == s.tasks[u]; }
    }
  }

  /** A stop's other sections: entering starts the log, undoing and leaving keep it. */
  lemma StopKeepsLogs(s: State, log: map<TaskId, seq<Drive>>, step: Step)
    requires |s.channels| == |s.core.fans| && Logs(s, log) && IsStopStep(step)
    ensures Logs(Next(s, step), LogOf(s, log, step))
  {
    var s', t := Next(s, step), step.t;
    forall u | u in s'.tasks ensures LogValid(Drives(LogOf(s, log, step), u), |s'.channels|, s'.tasks[u]) {
      if u in s.tasks { assert LogValid(Drives(log, u), |s.channels|, s.tasks[u]); }
    }
  }

  /** Every other step leaves the entries of all stops alone. */
  lemma RestKeepsEntries(s: State, step: Step, u: TaskId)
    requires |s.channels| == |s.core.fans| && Acting(s, step).None? && !IsStopStep(step)
    requires u in Next(s, step).tasks
    ensures IsStopEntry(Next(s, step).tasks[u]) ==> u in s.tasks && Next(s, step).tasks[u] == s.tasks[u]
  {
  }

  predicate IsStopEntry(task: Task) {
    task.StopWait? || HoldsStop(task) || task.Returned?
  }

  lemma NextKeepsLogs(m: Logged, step: Step)
    requires Sized(m.timed) && Logs(m.timed.motors, m.drives)
    ensures Logs(LoggedNext(m, Do(step)).timed.motors, LoggedNext(m, Do(step)).drives)
  {
    var s := m.timed.motors;
    if Acting(s, step).Some? {
      IoMoves(m.timed, step);
      IoKeepsLogs(s, m.drives, step.(refresh := Due(m.timed, Acting(s, step).value)));
    } else if IsStopStep(step) {
      StopKeepsLogs(s, m.drives, step);
    } else {
      var s' := Next(s, step);
      forall u | u in s'.tasks ensures LogValid(Drives(m.drives, u), |s'.channels|, s'.tasks[u]) {
        RestKeepsEntries(s, step, u);
      }
    }
  }

  // ---- one fan, whatever happens to the others ----

  /** A pending ramp rollback of fan i can no longer bring a nonzero position back. */
  predicate HarmlessAt(c: Core, task: Task, i: nat) {
    (task.RampApply? || task.RampUndo?) && task.fan == i ==> HarmlessUndo(c, task)
  }

  /** Fan i is at zero, and nothing pending moves it. */
  ghost predicate FanCalm(s: State, i: nat) {
    && i < |s.core.fans| && s.core.fans[i].target == 0 && s.core.fans[i].current == 0
    && forall t :: t in s.tasks ==> HarmlessAt(s.core, s.tasks[t], i)
  }

  /** The fan stays at zero, no generation goes back, and one task entry changed. */
  lemma CalmFrame(s: State, s': State, t: TaskId, i: nat)
    requires FanCalm(s, i) && |s'.core.fans| == |s.core.fans|
    requires s'.core.fans[i].target == 0 && s'.core.fans[i].current == 0
    requires s'.core.fans[i].generation >= s.core.fans[i].generation
    requires forall u :: u in s'.tasks && u != t ==> u in s.tasks && s'.tasks[u] == s.tasks[u]
    requires t in s'.tasks ==> HarmlessAt(s'.core, s'.tasks[t], i)
    ensures FanCalm(s', i)
  {
    forall u | u in s'.tasks ensures HarmlessAt(s'.core, s'.tasks[u], i) {
      if u != t { assert HarmlessAt(s.core, s.tasks[u], i); }
    }
  }

  /** The stop t is past its section and owns the stop mutex. */
  predicate Past(task: Task) { task.StopApply? || task.StopUndo? || task.StopDrop? }

  lemma StopStepStaysCalm(s: State, step: Step, t: TaskId, i: nat)
    requires |s.channels| == |s.core.fans| && Locks(s) && t in s.tasks && Past(s.tasks[t]) && FanCalm(s, i)
    requires IsStopStep(step) && !(step == UndoStop(t) && s.tasks[t].StopUndo? && s.tasks[t].k == i)
    ensures FanCalm(Next(s, step), i)
  {
    assert HoldsStop(s.tasks[t]);
    var s' := Next(s, step);
    if s' != s { CalmFrame(s, s', step.t, i); }
  }

  lemma PlainStepStaysCalm(s: State, step: Step, i: nat)
    requires |s.channels| == |s.core.fans| && s.core.stopDepth > 0 && FanCalm(s, i) && IsPlainStep(step)
    ensures FanCalm(Next(s, step), i)
  {
    var s' := Next(s, step);
    if s' != s { CalmFrame(s, s', if t :| t in s.tasks then t else 0, i); }
  }

  lemma MotionStaysCalm(s: State, step: Step, i: nat)
    requires |s.channels| == |s.core.fans| && FanCalm(s, i)
    requires step.Tick? || step.UndoTick? || step.StopFan? || step.Tach?
    ensures FanCalm(Next(s, step), i)
  {
    var s' := Next(s, step);
    if step.t in s.tasks { assert HarmlessAt(s.core, s.tasks[step.t], i); }
    if s' != s { CalmFrame(s, s', step.t, i); }
  }

  lemma LockStaysCalm(s: State, step: Step, i: nat)
    requires |s.channels| == |s.core.fans| && FanCalm(s, i)
    requires step.TakeIo? || step.ProofBegin? || step.ProofTake? || step.ProofEnd?
    ensures FanCalm(Next(s, step), i)
  {
    var s' := Next(s, step);
    if s' != s { CalmFrame(s, s', step.t, i); }
  }

  lemma IoStaysCalm(s: State, step: Step, i: nat)
    requires |s.channels| == |s.core.fans| && CoreValid(s.cfg, s.core) && FanCalm(s, i) && Acting(s, step).Some?
    ensures FanCalm(IoStep(s, step.t, Acting(s, step).value, step.ok, step.refresh), i)
  {
    var f := Acting(s, step).value;
    var s' := IoStep(s, step.t, f, step.ok, step.refresh);
    SampleIsPure(s.cfg, s.core, f);
    RecordMoves(s.cfg, s.core, f, s.channels[f].io.ok, s.channels[f].io.pct);
    assert HarmlessAt(s.core, s.tasks[step.t], i);
    CalmFrame(s, s', step.t, i);
  }

  /** Nothing but the stop's own rollback of that fan disturbs a fan it has zeroed. */
  lemma StaysCalm(m: Timed, step: Step, t: TaskId, i: nat)
    requires Timely(m) && t in m.motors.tasks && Past(m.motors.tasks[t]) && FanCalm(m.motors, i)
    requires !(step == UndoStop(t) && m.motors.tasks[t].StopUndo? && m.motors.tasks[t].k == i)
    ensures FanCalm(TimedNext(m, Do(step)).motors, i)
  {
    var s := m.motors;
    StopBlocksRequests(s, t);
    if Acting(s, step).Some? {
      var f := Acting(s, step).value;
      IoMoves(m, step);
      IoStaysCalm(s, step.(refresh := Due(m, f)), i);
    } else if IsStopStep(step) {
      StopStepStaysCalm(s, step, t, i);
    } else if IsPlainStep(step) {
      PlainStepStaysCalm(s, step, i);
    } else if step.Tick? || step.UndoTick? || step.StopFan? || step.Tach? {
      MotionStaysCalm(s, step, i);
    } else if !step.Io? {
      LockStaysCalm(s, step, i);
    } else {
      assert Next(s, step) == s;
    }
  }

  // ---- what a stop has achieved so far ----

  /** The channel streams nothing nonzero, and zero unless its refresh is due. */
  predicate Zero(m: Timed, i: nat)
    requires Sized(m) && i < |m.sent|
  {
    QuietChannel(m.motors.channels[i]) && Settled(m, i)
  }

  /** The stop's own apply of channel k asks for zero, and if it succeeded has it. */
  predicate OwnApply(m: Timed, t: TaskId, k: nat)
    requires Sized(m) && k < |m.sent|
  {
    var ch := m.motors.channels[k];
    ch.io.Held? && ch.io.owner == t ==>
      (ch.io.at != Sample ==> ch.io.req == 0) && (ch.io.at in {Record, Give} && ch.io.ok ==> Zero(m, k))
  }

  /** Fan i of a stop with these drives behind it. */
  ghost predicate FanDriven(m: Timed, drives: seq<Drive>, i: nat)
    requires Sized(m) && i < |m.sent|
  {
    && (i >= |drives| || drives[i].ok ==> FanCalm(m.motors, i))
    && (i < |drives| && drives[i].ok ==> Zero(m, i))
  }

  ghost predicate Driven(m: Timed, drives: seq<Drive>, t: TaskId, task: Task)
    requires Sized(m)
  {
    Past(task) ==>
      && (forall i :: 0 <= i < |m.sent| ==> FanDriven(m, drives, i))
      && (task.StopApply? && task.k < |m.sent| ==> OwnApply(m, t, task.k))
  }

  ghost predicate Charted(m: Logged) {
    && Timely(m.timed) && Logs(m.timed.motors, m.drives)
    && forall t :: t in m.timed.motors.tasks ==> Driven(m.timed, Drives(m.drives, t), t, m.timed.motors.tasks[t])
  }

  lemma InitIsCharted(cfg: Config, n: nat)
    requires cfg.Valid()
    ensures Charted(LoggedInit(cfg, n))
  {
    InitIsTimely(cfg, n);
  }

  /** The apply of a calm fan asks for zero at every point. */
  lemma CalmIoStaysQuiet(s: State, t: TaskId, i: nat, ok: bool, refresh: bool)
    requires |s.channels| == |s.core.fans| && CoreValid(s.cfg, s.core) && FanCalm(s, i) && t in s.tasks
    requires ChannelValid(s.cfg, s.core.fans[i].applied, s.channels[i]) && QuietChannel(s.channels[i])
    requires s.channels[i].io.Held?
    ensures QuietChannel(IoStep(s, t, i, ok, refresh).channels[i])
  {
    var ch := s.channels[i];
    SampleIsPure(s.cfg, s.core, i);
    assert FanValid(s.cfg, s.core.fans[i]);
    if ch.io.at !in {Sample, Record, Give, Proving} {
      DriverKeepsChannel(s.cfg, s.core.fans[i].applied, ch, ok, refresh);
    }
  }

  /** Steps outside apply_motor at most take or give back the channel's mutex. */
  lemma RestStaysZero(m: Timed, step: Step, i: nat)
    requires Sized(m) && i < |m.sent| && Zero(m, i) && Acting(m.motors, step).None?
    ensures Zero(TimedNext(m, Do(step)), i)
  {
    RestingStep(m.motors, step, i);
    RestTakesNothing(m.motors, step, i);
  }

  lemma RestTakesNothing(s: State, step: Step, i: nat)
    requires |s.channels| == |s.core.fans| && Acting(s, step).None? && i < |s.channels|
    ensures QuietChannel(s.channels[i]) ==> QuietChannel(Next(s, step).channels[i])
  {
    if !step.TakeIo? && !step.ProofTake? && !step.ProofEnd? { UntouchedChannels(s, step); }
  }

  lemma IoStaysZero(m: Timed, step: Step, i: nat)
    requires Sized(m) && CoreValid(m.motors.cfg, m.motors.core) && i < |m.sent| && Acting(m.motors, step).Some?
    requires ChannelValid(m.motors.cfg, m.motors.core.fans[i].applied, m.motors.channels[i]) && OwnerValid(m.motors, i)
    requires FanCalm(m.motors, i) && Zero(m, i)
    ensures Zero(TimedNext(m, Do(step)), i)
  {
    IoSettles(m, step, i);
    IoMoves(m, step);
    if Acting(m.motors, step) == Some(i) { CalmIoStaysQuiet(m.motors, step.t, i, step.ok, Due(m, i)); }
  }

  /** A zeroed channel of a calm fan stays zeroed, whoever applies it. */
  lemma StaysZero(m: Timed, step: TimedStep, i: nat)
    requires Timely(m) && i < |m.sent| && FanCalm(m.motors, i) && Zero(m, i)
    ensures Zero(TimedNext(m, step), i)
  {
    if step.Do? {
      assert ChannelValid(m.motors.cfg, m.motors.core.fans[i].applied, m.motors.channels[i]) && OwnerValid(m.motors, i);
      if Acting(m.motors, step.step).Some? { IoStaysZero(m, step.step, i); } else { RestStaysZero(m, step.step, i); }
    }
  }

  /** A driver step of the stop's own apply: a success is a zero on the wire. */
  lemma OwnDriverMoves(m: Timed, step: Step, k: nat)
    requires Sized(m) && Acting(m.motors, step) == Some(k)
    requires ChannelValid(m.motors.cfg, m.motors.core.fans[k].applied, m.motors.channels[k])
    requires m.motors.channels[k].io.at !in {Sample, Record, Give, Proving} && m.motors.channels[k].io.req == 0
    ensures OwnApply(TimedNext(m, Do(step)), step.t, k)
  {
    IoMoves(m, step);
    SuccessSettles(m.motors.cfg, m.motors.core.fans[k].applied, m.motors.channels[k], step.ok, Due(m, k));
  }

  /** A step inside the stop's own apply. */
  lemma OwnApplyMoves(m: Timed, step: Step, k: nat)
    requires Sized(m) && CoreValid(m.motors.cfg, m.motors.core) && Acting(m.motors, step) == Some(k)
    requires ChannelValid(m.motors.cfg, m.motors.core.fans[k].applied, m.motors.channels[k]) && OwnerValid(m.motors, k)
    requires FanCalm(m.motors, k) && OwnApply(m, step.t, k)
    ensures OwnApply(TimedNext(m, Do(step)), step.t, k)
    ensures m.motors.channels[k].io.at == Give && m.motors.channels[k].io.ok ==> Zero(TimedNext(m, Do(step)), k)
  {
    var s, ch := m.motors, m.motors.channels[k];
    IoMoves(m, step);
    if ch.io.at in {Record, Give} {
      if ch.io.ok { IoStaysZero(m, step, k); }
    } else if ch.io.at == Sample {
      SampleIsPure(s.cfg, s.core, k);
      assert FanValid(s.cfg, s.core.fans[k]);
    } else {
      OwnDriverMoves(m, step, k);
    }
  }

  /** A stop that stays at its place, with the same log, when others move or time passes. */
  lemma StandsDriven(m: Timed, step: TimedStep, drives: seq<Drive>, t: TaskId)
    requires Timely(m) && t in m.motors.tasks && t in TimedNext(m, step).motors.tasks
    requires Driven(m, drives, t, m.motors.tasks[t]) && Past(m.motors.tasks[t])
    requires LogValid(drives, |m.sent|, m.motors.tasks[t])
    requires TimedNext(m, step).motors.tasks[t] == m.motors.tasks[t]
    requires step.Do? && Acting(m.motors, step.step).Some? ==> step.step.t != t
    ensures Driven(TimedNext(m, step), drives, t, m.motors.tasks[t])
  {
    var task, m' := m.motors.tasks[t], TimedNext(m, step);
    forall i | 0 <= i < |m.sent| ensures FanDriven(m', drives, i) {
      assert FanDriven(m, drives, i);
      FanStaysDriven(m, step, drives, t, i);
    }
    if task.StopApply? { OthersLeaveOwnApply(m, step, t, task.k); }
  }

  lemma FanStaysDriven(m: Timed, step: TimedStep, drives: seq<Drive>, t: TaskId, i: nat)
    requires Timely(m) && t in m.motors.tasks && Past(m.motors.tasks[t]) && i < |m.sent| && FanDriven(m, drives, i)
    requires LogValid(drives, |m.sent|, m.motors.tasks[t])
    ensures FanDriven(TimedNext(m, step), drives, i)
  {
    if i >= |drives| || drives[i].ok {
      if step.Do? { StaysCalm(m, step.step, t, i); } else { assert FanCalm(TimedNext(m, step).motors, i); }
      if i < |drives| { StaysZero(m, step, i); }
    }
  }

  /** Another task's step, or time, does not touch what the stop's own apply holds. */
  lemma OthersLeaveOwnApply(m: Timed, step: TimedStep, t: TaskId, k: nat)
    requires Sized(m) && t in m.motors.tasks && k < |m.sent| && OwnApply(m, t, k)
    requires step.Do? && Acting(m.motors, step.step).Some? ==> step.step.t != t
    ensures OwnApply(TimedNext(m, step), t, k)
  {
    if step.Pass? { return; }
    if Acting(m.motors, step.step).Some? {
      var f := Acting(m.motors, step.step).value;
      IoMoves(m, step.step);
      OtherIoMoves(m.motors, step.step, f, Due(m, f), t);
    } else {
      RestingStep(m.motors, step.step, k);
      RestTakesNothing(m.motors, step.step, k);
    }
  }

  lemma OwnIoLogs(m: Logged, step: Step, t: TaskId, k: nat)
    requires Sized(m.timed) && Acting(m.timed.motors, step) == Some(k) && step.t == t
    requires t in m.timed.motors.tasks && m.timed.motors.tasks[t].StopApply?
    ensures var io := m.timed.motors.channels[k].io;
            Drives(LoggedNext(m, Do(step)).drives, t) ==
            Drives(m.drives, t) + if io.at.Give? then [Drive(k, io.ok)] else []
  {
  }

  /** Every fan of a stop whose own apply moves. */
  lemma OwnIoFansDriven(m: Logged, step: Step, t: TaskId, k: nat)
    requires Charted(m) && Acting(m.timed.motors, step) == Some(k) && step.t == t
    requires t in m.timed.motors.tasks && m.timed.motors.tasks[t].StopApply? && m.timed.motors.tasks[t].k == k
    ensures var m' := LoggedNext(m, Do(step));
            && OwnApply(m'.timed, t, k)
            && forall i :: 0 <= i < |m.timed.sent| ==> FanDriven(m'.timed, Drives(m'.drives, t), i)
  {
    var s, drives, m' := m.timed.motors, Drives(m.drives, t), LoggedNext(m, Do(step));
    assert LogValid(drives, |s.channels|, s.tasks[t]) && Driven(m.timed, drives, t, s.tasks[t]);
    assert FanDriven(m.timed, drives, k) && OwnerValid(s, k);
    assert ChannelValid(s.cfg, s.core.fans[k].applied, s.channels[k]);
    OwnIoLogs(m, step, t, k);
    OwnApplyMoves(m.timed, step, k);
    StaysCalm(m.timed, step, t, k);
    forall i | 0 <= i < |m.timed.sent| ensures FanDriven(m'.timed, Drives(m'.drives, t), i) {
      assert FanDriven(m.timed, drives, i);
      FanStaysDriven(m.timed, Do(step), drives, t, i);
    }
  }

  /** The stop whose own apply moves: inside it, or given back and logged. */
  lemma OwnIoStaysDriven(m: Logged, step: Step, t: TaskId)
    requires Charted(m) && Acting(m.timed.motors, step).Some? && step.t == t && m.timed.motors.tasks[t].StopApply?
    requires t in LoggedNext(m, Do(step)).timed.motors.tasks
    ensures var m' := LoggedNext(m, Do(step));
            Driven(m'.timed, Drives(m'.drives, t), t, m'.timed.motors.tasks[t])
  {
    var s, k := m.timed.motors, m.timed.motors.tasks[t].k;
    IoMoves(m.timed, step);
    OwnIoMoves(s, t, k, step.ok, Due(m.timed, k));
    OwnIoFansDriven(m, step, t, k);
    if k + 1 < |m.timed.sent| { assert OwnerValid(s, k + 1); }
  }

  lemma EnteredIsDriven(m: Timed, t: TaskId)
    requires Timely(m) && t in m.motors.tasks && m.motors.tasks[t].StopEnter?
    ensures var m' := TimedNext(m, Do(EnterSection(t)));
            t in m'.motors.tasks && Driven(m', [], t, m'.motors.tasks[t])
  {
    var s, m' := m.motors, TimedNext(m, Do(EnterSection(t)));
    EnterIsCalm(s, t);
    forall i | 0 <= i < |m.sent| ensures FanDriven(m', [], i) {
      assert FanCalm(m'.motors, i) by {
        forall u | u in m'.motors.tasks ensures HarmlessAt(m'.motors.core, m'.motors.tasks[u], i) {
          assert HarmlessUndo(m'.motors.core, m'.motors.tasks[u]);
        }
      }
    }
    if 0 < |m.sent| { assert OwnerValid(s, 0); }
  }

  /** The stop's rollback of the fan whose drive just failed. */
  lemma UndoneIsDriven(m: Timed, drives: seq<Drive>, t: TaskId)
    requires Timely(m) && t in m.motors.tasks && m.motors.tasks[t].StopUndo?
    requires LogValid(drives, |m.sent|, m.motors.tasks[t]) && Driven(m, drives, t, m.motors.tasks[t])
    ensures var m' := TimedNext(m, Do(UndoStop(t)));
            t in m'.motors.tasks && Driven(m', drives, t, m'.motors.tasks[t])
  {
    var s, m' := m.motors, TimedNext(m, Do(UndoStop(t)));
    var k := s.tasks[t].k;
    assert TaskValid(s.core, s.channels, t, s.tasks[t]);
    forall i | 0 <= i < |m.sent| ensures FanDriven(m', drives, i) {
      assert FanDriven(m, drives, i);
      if i != k && (i >= |drives| || drives[i].ok) {
        StaysCalm(m, UndoStop(t), t, i);
        if i < |drives| { StaysZero(m, Do(UndoStop(t)), i); }
      }
    }
    if k + 1 < |m.sent| { assert OwnerValid(s, k + 1); }
  }

  /** What a step that is not the stop's own apply does to its entry and its log. */
  lemma EntryMoves(m: Logged, step: Step, t: TaskId)
    requires Charted(m) && t in LoggedNext(m, Do(step)).timed.motors.tasks
    requires Past(LoggedNext(m, Do(step)).timed.motors.tasks[t])
    requires Acting(m.timed.motors, step).Some? ==> step.t != t
    ensures t in m.timed.motors.tasks
    ensures var s, s' := m.timed.motors, LoggedNext(m, Do(step)).timed.motors;
            || (s.tasks[t].StopEnter? && step == EnterSection(t) && Drives(LoggedNext(m, Do(step)).drives, t) == [])
            || (s.tasks[t].StopUndo? && step == UndoStop(t)
                && Drives(LoggedNext(m, Do(step)).drives, t) == Drives(m.drives, t))
            || (s'.tasks[t] == s.tasks[t] && Drives(LoggedNext(m, Do(step)).drives, t) == Drives(m.drives, t))
  {
    var s := m.timed.motors;
    if Acting(s, step).Some? {
      var f := Acting(s, step).value;
      IoMoves(m.timed, step);
      assert t in s.tasks;
      OtherIoMoves(s, step, f, Due(m.timed, f), t);
    } else if IsStopStep(step) {
      StopEntryMoves(s, step, t);
    } else {
      RestKeepsEntries(s, step, t);
    }
  }

  lemma StopEntryMoves(s: State, step: Step, t: TaskId)
    requires |s.channels| == |s.core.fans| && IsStopStep(step) && t in Next(s, step).tasks
    requires Past(Next(s, step).tasks[t])
    ensures t in s.tasks
    ensures (s.tasks[t].StopEnter? && step == EnterSection(t)) || (s.tasks[t].StopUndo? && step == UndoStop(t))
            || (Next(s, step).tasks[t] == s.tasks[t] && !(step == EnterSection(t) && s.tasks[t].StopEnter?))
  {
  }

  lemma NextKeepsDriven(m: Logged, step: Step, t: TaskId)
    requires Charted(m) && t in LoggedNext(m, Do(step)).timed.motors.tasks
    ensures var m' := LoggedNext(m, Do(step));
            Driven(m'.timed, Drives(m'.drives, t), t, m'.timed.motors.tasks[t])
  {
    var s, m' := m.timed.motors, LoggedNext(m, Do(step));
    if !Past(m'.timed.motors.tasks[t]) { return; }
    if Acting(s, step).Some? && step.t == t {
      IoMoves(m.timed, step);
      if s.tasks[t].StopApply? { OwnIoStaysDriven(m, step, t); }
      return;
    }
    EntryMoves(m, step, t);
    var drives := Drives(m.drives, t);
    assert LogValid(drives, |s.channels|, s.tasks[t]) && Driven(m.timed, drives, t, s.tasks[t]);
    if s.tasks[t].StopEnter? && step == EnterSection(t) {
      EnteredIsDriven(m.timed, t);
    } else if s.tasks[t].StopUndo? && step == UndoStop(t) {
      UndoneIsDriven(m.timed, drives, t);
    } else {
      StandsDriven(m.timed, Do(step), drives, t);
    }
  }

  /** Every step, and time passing, keeps every stop's log and what it has achieved. */
  lemma NextKeepsCharted(m: Logged, step: TimedStep)
    requires Charted(m)
    ensures Charted(LoggedNext(m, step))
  {
    TimedNextKeepsTimely(m.timed, step);
    if step.Do? { NextKeepsLogs(m, step.step); }
    var m' := LoggedNext(m, step);
    forall t | t in m'.timed.motors.tasks
      ensures Driven(m'.timed, Drives(m'.drives, t), t, m'.timed.motors.tasks[t])
    {
      if step.Do? {
        NextKeepsDriven(m, step.step, t);
      } else if Past(m.timed.motors.tasks[t]) {
        assert LogValid(Drives(m.drives, t), |m.timed.sent|, m.timed.motors.tasks[t]);
        StandsDriven(m.timed, step, Drives(m.drives, t), t);
      }
    }
  }

  lemma {:induction false} RunKeepsCharted(m: Logged, steps: seq<TimedStep>)
    requires Charted(m)
    ensures Charted(LoggedRun(m, steps))
    decreases |steps|
  {
    if steps != [] {
      NextKeepsCharted(m, steps[0]);
      RunKeepsCharted(LoggedNext(m, steps[0]), steps[1..]);
    }
  }

  lemma ReachableIsCharted(m: Logged)
    requires LoggedReachable(m)
    ensures Charted(m)
  {
    var cfg: Config, n: nat, steps: seq<TimedStep> :| cfg.Valid() && m == LoggedRun(LoggedInit(cfg, n), steps);
    InitIsCharted(cfg, n);
    RunKeepsCharted(LoggedInit(cfg, n), steps);
  }

  // ---- theorems ----

  /**
   * Over every interleaving: a stop that has come to the drop of its depth, or has
   * returned without being refused, has driven every fan exactly once since its section,
   * in order, and reports failure if and only if one of those drives failed.
   */
  lemma StopDrivesEveryFan(m: Logged, t: TaskId)
    requires LoggedReachable(m) && t in m.timed.motors.tasks
    requires var task := m.timed.motors.tasks[t]; task.StopDrop? || task.StopGive? || (task.Returned? && !task.refused)
    ensures InOrder(Drives(m.drives, t), |m.timed.motors.channels|)
    ensures m.timed.motors.tasks[t].failed <==> AnyFailed(Drives(m.drives, t))
  {
    ReachableIsCharted(m);
    assert LogValid(Drives(m.drives, t), |m.timed.motors.channels|, m.timed.motors.tasks[t]);
  }

  /**
   * At the drop, failed or not: a fan whose own drive succeeded has target and position
   * zero, nothing pending moves it, its channel streams nothing nonzero, and it streams
   * zero unless its refresh is due. No failure of another fan, and no rollback, takes
   * that away.
   */
  lemma DrivenFansAreZero(m: Logged, t: TaskId, i: nat)
    requires LoggedReachable(m) && t in m.timed.motors.tasks && m.timed.motors.tasks[t].StopDrop?
    requires i < |m.timed.motors.channels|
    ensures |Drives(m.drives, t)| == |m.timed.motors.channels| && Sized(m.timed)
    ensures Drives(m.drives, t)[i].ok ==>
              && FanCalm(m.timed.motors, i) && QuietChannel(m.timed.motors.channels[i])
              && (m.timed.motors.channels[i].wire == Some(0) || Due(m.timed, i))
  {
    ReachableIsCharted(m);
    var task, drives := m.timed.motors.tasks[t], Drives(m.drives, t);
    assert LogValid(drives, |m.timed.motors.channels|, task) && Driven(m.timed, drives, t, task);
    assert FanDriven(m.timed, drives, i);
  }

  // ---- a drive fails only because a driver call failed ----

  /** Driver calls still ahead of an apply, at most. */
  function Ahead(at: At): nat {
    match at
    case Decide => 10
    case CallDisable => 9
    case MarkDisabled => 8
    case CallWait => 7
    case CallReset => 6
    case ClearActive => 5
    case Load => 4
    case CallEnable => 3
    case MarkEnabled => 2
    case CallTransmit => 1
    case _ => 0
  }

  /** The rest of an apply whose driver calls all return ESP_OK. */
  function DriveWorking(ch: Channel, refresh: bool): (r: Channel)
    requires ch.io.Held?
    decreases Ahead(ch.io.at)
  {
    if Ahead(ch.io.at) == 0 then ch else
    var next := DriverStep(ch, true, refresh);
    if next.io.Held? && Ahead(next.io.at) < Ahead(ch.io.at) then DriveWorking(next, refresh) else next
  }

  /** With working drivers every apply ends with its request on the wire and reports success. */
  lemma {:induction false} WorkingDriversStream(cfg: Config, applied: nat, ch: Channel, refresh: bool)
    requires ChannelValid(cfg, applied, ch) && ch.io.Held? && Ahead(ch.io.at) > 0
    ensures var done := DriveWorking(ch, refresh);
            var end := if done.io.Held? && done.io.at == MarkSent then DriverStep(done, true, refresh) else done;
            && end.io.Held? && end.io.at == Record && end.io.ok && end.wire == Some(ch.io.req)
            && end.active && end.enabled && end.payload == ch.io.req && end.lastDshot == 2 * ch.io.req
            && ChannelValid(cfg, applied, end)
    decreases Ahead(ch.io.at)
  {
    var next := DriverStep(ch, true, refresh);
    DriverKeepsChannel(cfg, applied, ch, true, refresh);
    if Ahead(next.io.at) > 0 {
      WorkingDriversStream(cfg, applied, next, refresh);
    } else if next.io.at == MarkSent {
      DriverKeepsChannel(cfg, applied, next, true, refresh);
    }
  }
}
