/** What every step of MotorRun keeps, and the safety theorems over whole runs. */
module MotorSafety {
  import opened Prelude
  import opened Policy
  import opened MotorCore
  import opened MotorRun

  // ---- one channel ----

  /** What the channel's own flags say about the wire, given where its owner stands. */
  predicate Streaming(ch: Channel) {
    if ch.io.Held? && ch.io.at == MarkDisabled then false
    else if ch.io.Held? && ch.io.at == MarkSent then true
    else ch.active && ch.enabled
  }

  predicate FlagsValid(ch: Channel) {
    ch.io.Held? ==>
      match ch.io.at
      case CallDisable => ch.enabled
      case MarkDisabled => ch.enabled
      case CallWait => !ch.enabled && ch.active
      case CallReset => !ch.enabled && ch.active
      case ClearActive => !ch.enabled && ch.active
      case Load => !ch.enabled && !ch.active
      case CallEnable => !ch.enabled && !ch.active && ch.payload == ch.io.req
      case MarkEnabled => !ch.enabled && !ch.active && ch.payload == ch.io.req
      case CallTransmit => ch.enabled && !ch.active && ch.payload == ch.io.req
      case MarkSent => ch.enabled && !ch.active && ch.payload == ch.io.req && ch.wire == Some(ch.io.req)
      case CallRecover => ch.enabled && !ch.active
      case MarkRecovered => ch.enabled && !ch.active
      case _ => true
  }

  /** last_dshot is unset or the composite word of this percentage. */
  predicate Encodes(cfg: Config, ch: Channel, pct: nat) {
    ch.lastDshot == NEVER_SENT || ch.lastDshot == 2 * PctToDshot(pct, cfg.minSpin)
  }

  predicate ChannelValid(cfg: Config, applied: nat, ch: Channel) {
    && FlagsValid(ch)
    && (ch.wire.Some? <==> Streaming(ch))
    && (ch.wire.Some? && !(ch.io.Held? && ch.io.at == MarkSent) ==>
          ch.lastDshot == 2 * ch.wire.value && ch.payload == ch.wire.value)
    && (ch.io.Held? && ch.io.at != Sample && ch.io.at != Proving ==>
          ch.io.pct <= 100 && ch.io.req == PctToDshot(ch.io.pct, cfg.minSpin))
    && (if ch.io.Held? && ch.io.at == Record && ch.io.ok
        then ch.lastDshot == 2 * PctToDshot(ch.io.pct, cfg.minSpin)
        else Encodes(cfg, ch, applied))
  }

  /** Nothing this channel streams or is about to stream is nonzero. */
  predicate QuietChannel(ch: Channel) {
    && (ch.wire.Some? ==> ch.wire.value == 0)
    && (ch.io.Held? && ch.io.at != Sample ==> ch.io.req == 0)
  }

  lemma DriverKeepsChannel(cfg: Config, applied: nat, ch: Channel, ok: bool, refresh: bool)
    requires ChannelValid(cfg, applied, ch) && ch.io.Held?
    requires ch.io.at != Sample && ch.io.at != Record && ch.io.at != Give && ch.io.at != Proving
    ensures ChannelValid(cfg, applied, DriverStep(ch, ok, refresh))
    ensures QuietChannel(ch) ==> QuietChannel(DriverStep(ch, ok, refresh))
    ensures DriverStep(ch, ok, refresh).io.Held? && DriverStep(ch, ok, refresh).io.owner == ch.io.owner
    ensures DriverStep(ch, ok, refresh).io.req == ch.io.req
    ensures DriverStep(ch, ok, refresh).io.at !in {Sample, Give, Proving}
  {
  }

  // ---- the whole module ----

  /** Holds the motor-side stop mutex. */
  predicate HoldsStop(task: Task) {
    task.StopEnter? || task.StopApply? || task.StopUndo? || task.StopDrop? || task.StopGive?
  }

  /** Counted in s_stop_depth. */
  predicate InStop(task: Task) {
    task.StopWait? || task.StopEnter? || task.StopApply? || task.StopUndo? || task.StopDrop?
  }

  predicate OwnerValid(s: State, i: nat)
    requires i < |s.channels|
  {
    var io := s.channels[i].io;
    io.Held? ==>
      && io.owner in s.tasks
      && if io.at == Proving then s.tasks[io.owner].Proof? && i < s.tasks[io.owner].k
         else Applying(s.tasks[io.owner]) == Some(i)
  }

  predicate PlanValid(c: Core, k: nat, prev: seq<nat>, gens: seq<nat>) {
    && k < |c.fans| == |prev| == |gens|
    && forall i :: 0 <= i < |c.fans| ==> prev[i] <= 100 && gens[i] <= c.fans[i].generation
  }

  predicate TaskValid(c: Core, channels: seq<Channel>, t: TaskId, task: Task)
    requires |channels| == |c.fans|
  {
    match task
    case StopApply(_, _, _, k, prev, gens, _) => PlanValid(c, k, prev, gens)
    case StopUndo(_, _, k, prev, gens) => PlanValid(c, k, prev, gens)
    case RampApply(f, _, previous, generation) =>
      f < |c.fans| && previous <= 100 && generation <= c.fans[f].generation
    case RampUndo(f, previous, generation) =>
      f < |c.fans| && previous <= 100 && generation <= c.fans[f].generation
    case OneApply(f) => f < |c.fans|
    case Proof(k) =>
      && k <= |channels|
      && forall i :: 0 <= i < k ==>
           channels[i].io.Held? && channels[i].io.owner == t && channels[i].io.at == Proving
    case _ => true
  }

  ghost function Stoppers(tasks: map<TaskId, Task>): set<TaskId> {
    set t | t in tasks && InStop(tasks[t])
  }

  /** A maintenance stop has been counted but has not zeroed the targets yet. */
  predicate Arming(task: Task) {
    (task.StopWait? || task.StopEnter?) && task.kind == Maintenance
  }

  /** A ramp rollback on fan f can no longer take effect with a nonzero value. */
  predicate HarmlessUndo(c: Core, task: Task) {
    && (task.RampApply? && task.changed && task.fan < |c.fans| ==>
          task.previous == 0 || task.generation < c.fans[task.fan].generation)
    && (task.RampUndo? && task.fan < |c.fans| ==>
          task.previous == 0 || task.generation < c.fans[task.fan].generation)
  }

  /** No target, ramp position or pending ramp rollback is nonzero. */
  ghost predicate Calm(s: State) {
    && (forall i :: 0 <= i < |s.core.fans| ==>
          s.core.fans[i].target == 0 && s.core.fans[i].current == 0)
    && (forall t :: t in s.tasks ==> HarmlessUndo(s.core, s.tasks[t]))
  }

  predicate QuietUpTo(s: State, k: nat)
    requires k <= |s.channels|
  {
    forall i :: 0 <= i < k ==> QuietChannel(s.channels[i])
  }

  /** What the stop in progress has established so far. */
  ghost predicate SealValid(s: State, t: TaskId, task: Task) {
    match task
    case StopApply(_, _, _, k, _, _, failed) =>
      && AllTargetsZero(s.core)
      && (!failed ==>
            && Calm(s) && k < |s.channels| && QuietUpTo(s, k)
            && (s.channels[k].io.Held? && s.channels[k].io.owner == t ==>
                  && (s.channels[k].io.at != Sample ==> s.channels[k].io.req == 0)
                  && (s.channels[k].io.at in {Record, Give} && s.channels[k].io.ok ==>
                        QuietChannel(s.channels[k]))))
    case StopUndo(_, _, _, _, _) => AllTargetsZero(s.core)
    case StopDrop(_, _, failed) =>
      AllTargetsZero(s.core) && (!failed ==> Calm(s) && QuietUpTo(s, |s.channels|))
    case _ => true
  }

  ghost predicate Shape(s: State) {
    && |s.channels| == |s.core.fans|
    && CoreValid(s.cfg, s.core)
    && (forall i :: 0 <= i < |s.channels| ==>
          ChannelValid(s.cfg, s.core.fans[i].applied, s.channels[i]) && OwnerValid(s, i))
    && (forall t :: t in s.tasks ==> TaskValid(s.core, s.channels, t, s.tasks[t]))
  }

  ghost predicate Locks(s: State) {
    && (forall t :: t in s.tasks && HoldsStop(s.tasks[t]) ==> s.stopMutex == Some(t))
    && (s.stopMutex.Some? ==> s.stopMutex.value in s.tasks && HoldsStop(s.tasks[s.stopMutex.value]))
    && s.core.stopDepth == |Stoppers(s.tasks)|
  }

  ghost predicate Maintained(s: State) {
    s.core.maintenance > 0 ==>
      AllTargetsZero(s.core) || exists t :: t in s.tasks && Arming(s.tasks[t])
  }

  ghost predicate Sealed(s: State) {
    forall t :: t in s.tasks ==> SealValid(s, t, s.tasks[t])
  }

  ghost predicate Inv(s: State) {
    Shape(s) && Locks(s) && Maintained(s) && Sealed(s)
  }

  // ---- every step keeps the invariant ----

  /** A change of the core that no channel or task bookkeeping depends on. */
  predicate Advances(c: Core, c': Core) {
    && |c'.fans| == |c.fans|
    && forall i :: 0 <= i < |c.fans| ==>
         c.fans[i].generation <= c'.fans[i].generation && c'.fans[i].applied == c.fans[i].applied
  }

  lemma CoreFrame(s: State, c': Core)
    requires Shape(s) && CoreValid(s.cfg, c') && Advances(s.core, c')
    ensures Shape(s.(core := c'))
  {
    var s' := s.(core := c');
    forall t | t in s'.tasks ensures TaskValid(s'.core, s'.channels, t, s'.tasks[t]) {
      assert TaskValid(s.core, s.channels, t, s.tasks[t]);
    }
    forall i | 0 <= i < |s'.channels|
      ensures ChannelValid(s'.cfg, s'.core.fans[i].applied, s'.channels[i]) && OwnerValid(s', i)
    {
      assert ChannelValid(s.cfg, s.core.fans[i].applied, s.channels[i]) && OwnerValid(s, i);
    }
  }

  lemma RequestsAdvance(c: Core, f: int, pct: nat, targets: seq<nat>)
    ensures RequestManual(c, f, pct).Some? ==> Advances(c, RequestManual(c, f, pct).value)
    ensures RequestAutomatic(c, f, pct).Some? ==> Advances(c, RequestAutomatic(c, f, pct).value)
    ensures RequestScheduled(c, f, pct).Some? ==> Advances(c, RequestScheduled(c, f, pct).value.0)
    ensures RestoreAll(c, targets).Some? ==> Advances(c, RestoreAll(c, targets).value)
  {
  }

  /** While a stop counts, no request is accepted. */
  lemma StopBlocksRequests(s: State, t: TaskId)
    requires Locks(s) && t in s.tasks && InStop(s.tasks[t])
    ensures s.core.stopDepth > 0
  {
    assert t in Stoppers(s.tasks);
  }

  /** An accepted request: the only step that may make a target nonzero. */
  predicate IsRequest(step: Step) {
    step.Manual? || step.Automatic? || step.Scheduled? || step.Restore?
  }

  lemma RequestKeepsInv(s: State, step: Step)
    requires Inv(s) && IsRequest(step)
    ensures Inv(Next(s, step))
  {
    var s' := Next(s, step);
    var f := if step.Restore? then 0 else step.local;
    var pct := if step.Restore? then 0 else step.pct;
    var targets := if step.Restore? then step.targets else [];
    if s' != s {
      RequestsKeepCore(s.cfg, s.core, f, pct, targets);
      RequestsAdvance(s.core, f, pct, targets);
      CoreFrame(s, s'.core);
      assert s.core.stopDepth == 0 && s.core.maintenance == 0;
      forall t | t in s'.tasks ensures SealValid(s', t, s'.tasks[t]) {
        if InStop(s.tasks[t]) { StopBlocksRequests(s, t); }
      }
    }
  }

  /** Sections that only lower targets and ramp positions (stop, tach, releases). */
  predicate Lowers(c: Core, c': Core) {
    && Advances(c, c') && c'.stopDepth == c.stopDepth && c'.maintenance <= c.maintenance
    && forall i :: 0 <= i < |c.fans| ==>
         && c'.fans[i].target <= c.fans[i].target && c'.fans[i].current <= c.fans[i].current
  }

  lemma LoweringKeepsInv(s: State, c': Core)
    requires Inv(s) && CoreValid(s.cfg, c') && Lowers(s.core, c')
    ensures Inv(s.(core := c'))
  {
    var s' := s.(core := c');
    CoreFrame(s, c');
    forall t | t in s'.tasks ensures SealValid(s', t, s'.tasks[t]) {
      assert SealValid(s, t, s.tasks[t]);
      if Calm(s) { LoweringKeepsCalm(s, c'); }
    }
  }

  lemma LoweringKeepsCalm(s: State, c': Core)
    requires Calm(s) && Lowers(s.core, c')
    ensures Calm(s.(core := c'))
  {
    forall t | t in s.tasks ensures HarmlessUndo(c', s.tasks[t]) {
      assert HarmlessUndo(s.core, s.tasks[t]);
    }
  }

  /** No stop relies on calm at the moment. */
  predicate Unsealed(tasks: map<TaskId, Task>) {
    forall t :: t in tasks && (tasks[t].StopApply? || tasks[t].StopDrop?) ==> tasks[t].failed
  }

  lemma UncalmIsUnsealed(s: State)
    requires Inv(s) && !Calm(s)
    ensures Unsealed(s.tasks)
  {
    forall t | t in s.tasks && (s.tasks[t].StopApply? || s.tasks[t].StopDrop?)
      ensures s.tasks[t].failed
    {
      assert SealValid(s, t, s.tasks[t]);
    }
  }

  /** Adding a task that is not in a stop and cannot undo a nonzero position. */
  lemma SpawnKeepsInv(s: State, t: TaskId, task: Task)
    requires Inv(s) && t !in s.tasks
    requires !HoldsStop(task) && !InStop(task) && TaskValid(s.core, s.channels, t, task)
    requires HarmlessUndo(s.core, task) || Unsealed(s.tasks)
    ensures Inv(s.(tasks := s.tasks[t := task]))
  {
    var s' := s.(tasks := s.tasks[t := task]);
    assert Stoppers(s'.tasks) == Stoppers(s.tasks);
    forall u | u in s'.tasks ensures SealValid(s', u, s'.tasks[u]) {
      if u in s.tasks { assert SealValid(s, u, s.tasks[u]); }
    }
    ArmingSurvives(s, s'.tasks);
  }

  /** An arming maintenance stop that stays in the table still justifies its count. */
  lemma ArmingSurvives(s: State, tasks: map<TaskId, Task>)
    requires Maintained(s)
    requires forall u :: u in s.tasks && Arming(s.tasks[u]) ==> u in tasks && Arming(tasks[u])
    ensures Maintained(s.(tasks := tasks))
  {
    if s.core.maintenance > 0 && !AllTargetsZero(s.core) {
      var u :| u in s.tasks && Arming(s.tasks[u]);
      assert u in tasks && Arming(tasks[u]);
    }
  }

  /** Removing or replacing a task outside the stop protocol that owns no channel. */
  lemma RetireKeepsInv(s: State, t: TaskId)
    requires Inv(s) && t in s.tasks && !HoldsStop(s.tasks[t]) && !InStop(s.tasks[t])
    requires forall i :: 0 <= i < |s.channels| ==>
               !(s.channels[i].io.Held? && s.channels[i].io.owner == t)
    ensures Inv(s.(tasks := s.tasks - {t}))
  {
    var s' := s.(tasks := s.tasks - {t});
    assert Stoppers(s'.tasks) == Stoppers(s.tasks);
    forall u | u in s'.tasks ensures SealValid(s', u, s'.tasks[u]) {
      assert SealValid(s, u, s.tasks[u]);
    }
    ArmingSurvives(s, s'.tasks);
    forall i | 0 <= i < |s'.channels| ensures OwnerValid(s', i) { assert OwnerValid(s, i); }
  }

  lemma CallStopKeepsInv(s: State, t: TaskId, kind: Kind, clear: bool, rollback: bool)
    requires Inv(s)
    ensures Inv(Next(s, CallStop(t, kind, clear, rollback)))
  {
    var s' := Next(s, CallStop(t, kind, clear, rollback));
    if t in s.tasks { return; }
    if ClaimStop(s.core, kind).None? {
      SpawnKeepsInv(s, t, Returned(kind, clear, true, true));
      return;
    }
    StopsKeepCore(s.cfg, s.core, 0, kind, clear);
    CoreFrame(s, s'.core);
    ClaimKeepsRest(s, t, StopWait(kind, clear, rollback), s'.core);
  }

  /** Seals survive when only the entry of task t changes, to a harmless one. */
  lemma SealFrame(s: State, s': State, t: TaskId)
    requires Sealed(s) && t in s'.tasks
    requires s'.channels == s.channels && s'.core.fans == s.core.fans
    requires s'.tasks == s.tasks[t := s'.tasks[t]]
    requires HarmlessUndo(s'.core, s'.tasks[t]) && SealValid(s', t, s'.tasks[t])
    ensures Sealed(s')
  {
    if Calm(s) {
      forall u | u in s'.tasks ensures HarmlessUndo(s'.core, s'.tasks[u]) {
        if u != t { assert HarmlessUndo(s.core, s.tasks[u]); }
      }
      assert Calm(s');
    }
    forall u | u in s'.tasks ensures SealValid(s', u, s'.tasks[u]) {
      if u != t { assert SealValid(s, u, s.tasks[u]); }
    }
  }

  lemma ClaimKeepsRest(s: State, t: TaskId, task: Task, c': Core)
    requires Inv(s) && t !in s.tasks && task.StopWait? && Shape(s.(core := c'))
    requires c'.fans == s.core.fans && c'.stopDepth == s.core.stopDepth + 1
    requires c'.maintenance == s.core.maintenance + (if task.kind == Maintenance then 1 else 0)
    ensures Inv(s.(core := c', tasks := s.tasks[t := task]))
  {
    var s' := s.(core := c', tasks := s.tasks[t := task]);
    ShapeWithTask(s.(core := c'), t, task);
    assert Locks(s') by { assert Stoppers(s'.tasks) == Stoppers(s.tasks) + {t}; }
    SealFrame(s, s', t);
    assert Maintained(s') by {
      if task.kind == Maintenance {
        assert t in s'.tasks && Arming(s'.tasks[t]);
      } else {
        ArmingSurvives(s, s'.tasks);
      }
    }
  }

  lemma ShapeWithTask(s: State, t: TaskId, task: Task)
    requires Shape(s) && TaskValid(s.core, s.channels, t, task)
    requires t in s.tasks ==> Applying(s.tasks[t]).None? && !s.tasks[t].Proof?
    ensures Shape(s.(tasks := s.tasks[t := task]))
  {
    var s' := s.(tasks := s.tasks[t := task]);
    forall i | 0 <= i < |s'.channels|
      ensures ChannelValid(s'.cfg, s'.core.fans[i].applied, s'.channels[i]) && OwnerValid(s', i)
    {
      assert ChannelValid(s.cfg, s.core.fans[i].applied, s.channels[i]) && OwnerValid(s, i);
    }
  }

  /** A stop task that moves on without changing the core or any channel. */
  lemma StopMoveKeepsInv(s: State, t: TaskId, task: Task, mutex: Option<TaskId>)
    requires Inv(s) && t in s.tasks
    requires TaskValid(s.core, s.channels, t, task) && SealValid(s, t, task)
    requires Applying(s.tasks[t]).None? && !s.tasks[t].Proof? && HarmlessUndo(s.core, task)
    requires Arming(task) == Arming(s.tasks[t]) && InStop(task) == InStop(s.tasks[t])
    requires s.stopMutex == None || s.stopMutex == Some(t)
    requires mutex == if HoldsStop(task) then Some(t) else None
    ensures Inv(s.(tasks := s.tasks[t := task], stopMutex := mutex))
  {
    var s' := s.(tasks := s.tasks[t := task], stopMutex := mutex);
    assert Stoppers(s'.tasks) == Stoppers(s.tasks);
    forall u | u in s'.tasks ensures SealValid(s', u, s'.tasks[u]) {
      if u != t {
        assert SealValid(s, u, s.tasks[u]);
        assert Calm(s) ==> Calm(s');
      } else {
        assert Calm(s) ==> Calm(s');
      }
    }
    ArmingSurvives(s, s'.tasks);
    forall i | 0 <= i < |s'.channels| ensures OwnerValid(s', i) { assert OwnerValid(s, i); }
  }

  lemma MutexKeepsInv(s: State, t: TaskId)
    requires Inv(s)
    ensures Inv(Next(s, TakeStopMutex(t))) && Inv(Next(s, GiveStopMutex(t)))
  {
    if t in s.tasks && s.tasks[t].StopWait? && s.stopMutex.None? {
      var w := s.tasks[t];
      StopMoveKeepsInv(s, t, StopEnter(w.kind, w.clear, w.rollback), Some(t));
    }
    if t in s.tasks && s.tasks[t].StopGive? {
      var g := s.tasks[t];
      StopMoveKeepsInv(s, t, Returned(g.kind, g.clear, g.failed, false), None);
    }
  }

  lemma EnterKeepsInv(s: State, t: TaskId)
    requires Inv(s)
    ensures Inv(Next(s, EnterSection(t)))
  {
    if t !in s.tasks || !s.tasks[t].StopEnter? { return; }
    var s' := Next(s, EnterSection(t));
    EnterKeepsShape(s, t);
    assert Stoppers(s'.tasks) == Stoppers(s.tasks);
    EnterIsCalm(s, t);
    forall u | u in s'.tasks ensures SealValid(s', u, s'.tasks[u]) {
      if u != t { assert SealValid(s, u, s.tasks[u]); assert !HoldsStop(s.tasks[u]); }
    }
  }

  lemma EnterKeepsShape(s: State, t: TaskId)
    requires Shape(s) && t in s.tasks && s.tasks[t].StopEnter?
    ensures Shape(Next(s, EnterSection(t))) && AllTargetsZero(Next(s, EnterSection(t)).core)
  {
    var s', e := Next(s, EnterSection(t)), s.tasks[t];
    CoreFrame(s, EnterStop(s.core, e.kind, e.clear));
    forall i | 0 <= i < |s'.channels| ensures OwnerValid(s', i) { assert OwnerValid(s, i); }
  }

  /** Entering bumps every generation, so every pending ramp rollback is superseded. */
  lemma EnterIsCalm(s: State, t: TaskId)
    requires Shape(s) && t in s.tasks && s.tasks[t].StopEnter?
    ensures Calm(Next(s, EnterSection(t)))
  {
    var s' := Next(s, EnterSection(t));
    forall u | u in s'.tasks ensures HarmlessUndo(s'.core, s'.tasks[u]) {
      assert TaskValid(s.core, s.channels, u, s.tasks[u]);
    }
  }

  lemma DropKeepsInv(s: State, t: TaskId)
    requires Inv(s)
    ensures Inv(Next(s, DropSection(t)))
  {
    if t !in s.tasks || !s.tasks[t].StopDrop? { return; }
    var s' := Next(s, DropSection(t));
    StopBlocksRequests(s, t);
    CoreFrame(s, s'.core);
    assert Stoppers(s'.tasks) == Stoppers(s.tasks) - {t};
    assert t in Stoppers(s.tasks);
    forall u | u in s'.tasks ensures SealValid(s', u, s'.tasks[u]) {
      if u != t { assert SealValid(s, u, s.tasks[u]); assert !HoldsStop(s.tasks[u]); }
    }
    assert AllTargetsZero(s.core) by { assert SealValid(s, t, s.tasks[t]); }
    forall i | 0 <= i < |s'.channels| ensures OwnerValid(s', i) { assert OwnerValid(s, i); }
  }

  lemma UndoStopKeepsInv(s: State, t: TaskId)
    requires Inv(s)
    ensures Inv(Next(s, UndoStop(t)))
  {
    if t !in s.tasks || !s.tasks[t].StopUndo? { return; }
    var u := s.tasks[t];
    assert TaskValid(s.core, s.channels, t, u) && SealValid(s, t, u);
    var s' := Next(s, UndoStop(t));
    RollbackKeepsCore(s.cfg, s.core, u.k, u.prev[u.k], u.gens[u.k]);
    CoreFrame(s, s'.core);
    assert Stoppers(s'.tasks) == Stoppers(s.tasks);
    forall v | v in s'.tasks ensures SealValid(s', v, s'.tasks[v]) {
      if v != t { assert SealValid(s, v, s.tasks[v]); assert !HoldsStop(s.tasks[v]); }
    }
    forall i | 0 <= i < |s'.channels| ensures OwnerValid(s', i) { assert OwnerValid(s, i); }
  }

  lemma TickKeepsInv(s: State, t: TaskId, f: nat)
    requires Inv(s)
    ensures Inv(Next(s, Tick(t, f)))
  {
    if t in s.tasks || f >= |s.channels| { return; }
    var fan := s.core.fans[f];
    var c' := RampTick(s.cfg, s.core, f);
    assert FanValid(s.cfg, fan);
    var task := RampApply(f, fan.current != fan.target, fan.current, c'.fans[f].generation);
    if fan.current == fan.target {
      SpawnKeepsInv(s, t, task);
    } else {
      RampTickKeepsCore(s.cfg, s.core, f);
      MovingKeepsInv(s, f, c');
      UncalmIsUnsealed(s);
      SpawnKeepsInv(s.(core := c'), t, task);
    }
  }

  /** A change of one fan's ramp position at a time when that fan is not calm. */
  lemma MovingKeepsInv(s: State, f: nat, c': Core)
    requires Inv(s) && CoreValid(s.cfg, c') && Advances(s.core, c') && f < |s.core.fans|
    requires c' == s.core.(fans := s.core.fans[f := c'.fans[f]])
    requires c'.fans[f].target == s.core.fans[f].target
    requires s.core.fans[f].target != 0 || s.core.fans[f].current != 0
    ensures Inv(s.(core := c'))
  {
    var s' := s.(core := c');
    CoreFrame(s, c');
    assert !Calm(s);
    forall u | u in s'.tasks ensures SealValid(s', u, s'.tasks[u]) {
      assert SealValid(s, u, s.tasks[u]);
    }
  }

  lemma UndoTickKeepsInv(s: State, t: TaskId)
    requires Inv(s)
    ensures Inv(Next(s, UndoTick(t)))
  {
    if t !in s.tasks || !s.tasks[t].RampUndo? { return; }
    var u := s.tasks[t];
    assert TaskValid(s.core, s.channels, t, u);
    var c' := Rollback(s.cfg, s.core, u.fan, u.previous, u.generation);
    RollbackKeepsCore(s.cfg, s.core, u.fan, u.previous, u.generation);
    CoreFrame(s, c');
    if u.previous == 0 || u.generation != s.core.fans[u.fan].generation {
      LoweringKeepsInv(s, c');
    } else {
      assert !Calm(s) by { assert !HarmlessUndo(s.core, s.tasks[t]); }
      var s1 := s.(core := c');
      forall v | v in s1.tasks ensures SealValid(s1, v, s1.tasks[v]) {
        assert SealValid(s, v, s.tasks[v]);
      }
      assert Inv(s1);
    }
    forall i | 0 <= i < |s.channels|
      ensures !(s.channels[i].io.Held? && s.channels[i].io.owner == t)
    {
      assert OwnerValid(s, i);
    }
    RetireKeepsInv(s.(core := c'), t);
  }

  lemma StopFanKeepsInv(s: State, t: TaskId, f: int, clear: bool)
    requires Inv(s)
    ensures Inv(Next(s, StopFan(t, f, clear)))
  {
    var c := StopOne(s.core, f, clear);
    if t in s.tasks || c.None? { return; }
    StopsKeepCore(s.cfg, s.core, f, Plain, clear);
    LoweringKeepsInv(s, c.value);
    SpawnKeepsInv(s.(core := c.value), t, OneApply(f));
  }

  lemma TachKeepsInv(s: State, t: TaskId, f: int, inhibited: bool)
    requires Inv(s)
    ensures Inv(Next(s, Tach(t, f, inhibited)))
  {
    var c := SetTachInhibit(s.core, f, inhibited);
    if t in s.tasks || c.None? { return; }
    StopsKeepCore(s.cfg, s.core, f, Plain, inhibited);
    LoweringKeepsInv(s, c.value);
    if inhibited { SpawnKeepsInv(s.(core := c.value), t, OneApply(f)); }
  }

  lemma ReleaseKeepsInv(s: State)
    requires Inv(s)
    ensures Inv(Next(s, ReleaseMaintenance))
  {
    var c' := ClearMaintenance(s.core);
    assert CoreValid(s.cfg, c') && Lowers(s.core, c');
    LoweringKeepsInv(s, c');
  }

  lemma TakePendingKeepsInv(s: State)
    requires Inv(s)
    ensures Inv(Next(s, TakeFaultPending))
  {
    var c' := s.core.(faultPending := false);
    assert CoreValid(s.cfg, c') && Lowers(s.core, c');
    LoweringKeepsInv(s, c');
  }

  /** Replacing the state of one channel without changing tasks or core. */
  lemma ChannelKeepsInv(s: State, f: nat, ch: Channel)
    requires Inv(s) && f < |s.channels|
    requires ChannelValid(s.cfg, s.core.fans[f].applied, ch)
    requires OwnerValid(s.(channels := s.channels[f := ch]), f)
    requires QuietChannel(s.channels[f]) ==> QuietChannel(ch)
    requires !(s.channels[f].io.Held? && s.channels[f].io.at == Proving)
    requires ch.io.Held? && s.tasks[ch.io.owner].StopApply? && !s.tasks[ch.io.owner].failed ==>
               SealValid(s.(channels := s.channels[f := ch]), ch.io.owner, s.tasks[ch.io.owner])
    ensures Inv(s.(channels := s.channels[f := ch]))
  {
    var s' := s.(channels := s.channels[f := ch]);
    forall t | t in s'.tasks ensures TaskValid(s'.core, s'.channels, t, s'.tasks[t]) {
      assert TaskValid(s.core, s.channels, t, s.tasks[t]);
    }
    forall i | 0 <= i < |s'.channels|
      ensures ChannelValid(s'.cfg, s'.core.fans[i].applied, s'.channels[i]) && OwnerValid(s', i)
    {
      assert ChannelValid(s.cfg, s.core.fans[i].applied, s.channels[i]) && OwnerValid(s, i);
    }
    assert Calm(s) ==> Calm(s');
    forall t | t in s'.tasks ensures SealValid(s', t, s'.tasks[t]) {
      assert SealValid(s, t, s.tasks[t]);
    }
  }

  lemma TakeIoKeepsInv(s: State, t: TaskId)
    requires Inv(s)
    ensures Inv(Next(s, TakeIo(t)))
  {
    if t !in s.tasks || Applying(s.tasks[t]).None? { return; }
    var f := Applying(s.tasks[t]).value;
    if f >= |s.channels| || !s.channels[f].io.Free? { return; }
    assert SealValid(s, t, s.tasks[t]);
    assert ChannelValid(s.cfg, s.core.fans[f].applied, s.channels[f]);
    var ch := s.channels[f].(io := Held(t, Sample, 0, 0, true));
    var s' := s.(channels := s.channels[f := ch]);
    assert Calm(s) ==> Calm(s');
    ChannelKeepsInv(s, f, ch);
  }

  /** The steps of apply_motor between taking and giving back io_mutex. */
  lemma IoKeepsInv(s: State, t: TaskId, ok: bool, refresh: bool)
    requires Inv(s)
    ensures Inv(Next(s, Io(t, ok, refresh)))
  {
    if t !in s.tasks || Applying(s.tasks[t]).None? { return; }
    var f := Applying(s.tasks[t]).value;
    if f >= |s.channels| || !s.channels[f].io.Held? || s.channels[f].io.owner != t { return; }
    assert OwnerValid(s, f);
    var at := s.channels[f].io.at;
    if at == Sample {
      SampleKeepsInv(s, t, f);
    } else if at == Record {
      RecordKeepsInv(s, t, f);
    } else if at == Give {
      GiveKeepsInv(s, t, f);
    } else {
      DriverKeepsInv(s, t, f, ok, refresh);
    }
  }

  /** Task t is applying fan f and owns its channel. */
  predicate Inside(s: State, t: TaskId, f: nat) {
    && t in s.tasks && Applying(s.tasks[t]) == Some(f) && f < |s.channels| == |s.core.fans|
    && s.channels[f].io.Held? && s.channels[f].io.owner == t && s.channels[f].io.at != Proving
  }

  lemma SampleKeepsInv(s: State, t: TaskId, f: nat)
    requires Inv(s) && Inside(s, t, f) && s.channels[f].io.at == Sample
    ensures Inv(IoStep(s, t, f, true, true))
  {
    SampleIsPure(s.cfg, s.core, f);
    var fan := s.core.fans[f];
    assert FanValid(s.cfg, fan);
    ThrottleEncodesEffective(fan.current, fan.current, s.cfg.minSpin);
    var ch := s.channels[f];
    assert ChannelValid(s.cfg, fan.applied, ch) && SealValid(s, t, s.tasks[t]);
    var ch' := ch.(io := ch.io.(at := Decide, req := fan.throttle,
                                pct := EffectivePct(fan.current, s.cfg.minSpin)));
    var s' := s.(channels := s.channels[f := ch']);
    assert Calm(s) ==> Calm(s');
    if !Calm(s) {
      UncalmChannelKeepsInv(s, f, ch');
    } else {
      ChannelKeepsInv(s, f, ch');
    }
  }

  /** Without calm no seal looks at the channels. */
  lemma UncalmChannelKeepsInv(s: State, f: nat, ch: Channel)
    requires Inv(s) && !Calm(s) && f < |s.channels|
    requires ChannelValid(s.cfg, s.core.fans[f].applied, ch)
    requires OwnerValid(s.(channels := s.channels[f := ch]), f)
    requires !(s.channels[f].io.Held? && s.channels[f].io.at == Proving)
    ensures Inv(s.(channels := s.channels[f := ch]))
  {
    var s' := s.(channels := s.channels[f := ch]);
    forall t | t in s'.tasks ensures TaskValid(s'.core, s'.channels, t, s'.tasks[t]) {
      assert TaskValid(s.core, s.channels, t, s.tasks[t]);
    }
    forall i | 0 <= i < |s'.channels|
      ensures ChannelValid(s'.cfg, s'.core.fans[i].applied, s'.channels[i]) && OwnerValid(s', i)
    {
      assert ChannelValid(s.cfg, s.core.fans[i].applied, s.channels[i]) && OwnerValid(s, i);
    }
    UncalmIsUnsealed(s);
    forall t | t in s'.tasks ensures SealValid(s', t, s'.tasks[t]) {
      assert SealValid(s, t, s.tasks[t]);
    }
  }

  lemma DriverKeepsInv(s: State, t: TaskId, f: nat, ok: bool, refresh: bool)
    requires Inv(s) && Inside(s, t, f)
    requires s.channels[f].io.at !in {Sample, Record, Give}
    ensures Inv(IoStep(s, t, f, ok, refresh))
  {
    var ch := s.channels[f];
    var ch' := DriverStep(ch, ok, refresh);
    assert ChannelValid(s.cfg, s.core.fans[f].applied, ch) && SealValid(s, t, s.tasks[t]);
    DriverKeepsChannel(s.cfg, s.core.fans[f].applied, ch, ok, refresh);
    if ch.io.req == 0 { ZeroRequestSettles(s.cfg, s.core.fans[f].applied, ch, ok, refresh); }
    var s' := s.(channels := s.channels[f := ch']);
    assert Calm(s) ==> Calm(s');
    ChannelKeepsInv(s, f, ch');
  }

  /** A zero request that reports success leaves the channel quiet. */
  lemma ZeroRequestSettles(cfg: Config, applied: nat, ch: Channel, ok: bool, refresh: bool)
    requires ChannelValid(cfg, applied, ch) && ch.io.Held? && ch.io.req == 0
    requires ch.io.at !in {Sample, Record, Give, Proving}
    ensures DriverStep(ch, ok, refresh).io.at == Record && DriverStep(ch, ok, refresh).io.ok ==>
              QuietChannel(DriverStep(ch, ok, refresh))
  {
  }

  lemma RecordKeepsInv(s: State, t: TaskId, f: nat)
    requires Inv(s) && Inside(s, t, f) && s.channels[f].io.at == Record
    ensures Inv(IoStep(s, t, f, true, true))
  {
    var ch := s.channels[f];
    var ch' := ch.(io := ch.io.(at := Give));
    assert ChannelValid(s.cfg, s.core.fans[f].applied, ch) && SealValid(s, t, s.tasks[t]);
    var c' := RecordResult(s.cfg, s.core, f, ch.io.ok, ch.io.pct);
    RecordKeepsCore(s.cfg, s.core, f, ch.io.ok, ch.io.pct);
    RecordMoves(s.cfg, s.core, f, ch.io.ok, ch.io.pct);
    var s' := s.(core := c', channels := s.channels[f := ch']);
    assert s' == IoStep(s, t, f, true, true);
    forall u | u in s'.tasks ensures TaskValid(s'.core, s'.channels, u, s'.tasks[u]) {
      assert TaskValid(s.core, s.channels, u, s.tasks[u]);
    }
    forall i | 0 <= i < |s'.channels|
      ensures ChannelValid(s'.cfg, s'.core.fans[i].applied, s'.channels[i]) && OwnerValid(s', i)
    {
      assert ChannelValid(s.cfg, s.core.fans[i].applied, s.channels[i]) && OwnerValid(s, i);
    }
    RecordKeepsSeals(s, f, c', ch');
  }

  lemma RecordMoves(cfg: Config, c: Core, f: nat, ok: bool, applied: nat)
    requires f < |c.fans|
    ensures var c' := RecordResult(cfg, c, f, ok, applied);
            && |c'.fans| == |c.fans| && c'.stopDepth == c.stopDepth && c'.maintenance == c.maintenance
            && c'.fans[f].applied == (if ok then applied else c.fans[f].applied)
            && (forall i :: 0 <= i < |c.fans| ==>
                  && (i != f ==> c'.fans[i] == c.fans[i])
                  && c'.fans[i].generation >= c.fans[i].generation
                  && c'.fans[i].target <= c.fans[i].target && c'.fans[i].current == c.fans[i].current)
  {
  }

  lemma RecordKeepsSeals(s: State, f: nat, c': Core, ch': Channel)
    requires Inv(s) && f < |s.channels| && s.channels[f].io.Held?
    requires ch' == s.channels[f].(io := s.channels[f].io.(at := Give))
    requires s.channels[f].io.at == Record && |c'.fans| == |s.core.fans|
    requires forall i :: 0 <= i < |c'.fans| ==>
               && c'.fans[i].generation >= s.core.fans[i].generation
               && c'.fans[i].target <= s.core.fans[i].target
               && c'.fans[i].current == s.core.fans[i].current
    ensures Sealed(s.(core := c', channels := s.channels[f := ch']))
  {
    var s' := s.(core := c', channels := s.channels[f := ch']);
    if Calm(s) {
      forall u | u in s'.tasks ensures HarmlessUndo(c', s'.tasks[u]) {
        assert HarmlessUndo(s.core, s.tasks[u]);
      }
      assert Calm(s');
    }
    forall u | u in s'.tasks ensures SealValid(s', u, s'.tasks[u]) {
      assert SealValid(s, u, s.tasks[u]);
    }
  }

  lemma GiveKeepsInv(s: State, t: TaskId, f: nat)
    requires Inv(s) && Inside(s, t, f) && s.channels[f].io.at == Give
    ensures Inv(IoStep(s, t, f, true, true))
  {
    var ch := s.channels[f];
    var ok := ch.io.ok;
    var n := |s.channels|;
    assert TaskValid(s.core, s.channels, t, s.tasks[t]) && SealValid(s, t, s.tasks[t]);
    assert ChannelValid(s.cfg, s.core.fans[f].applied, ch);
    forall i | 0 <= i < n && i != f
      ensures !(s.channels[i].io.Held? && s.channels[i].io.owner == t)
    {
      assert OwnerValid(s, i);
    }
    var ch' := ch.(io := Free);
    var s1 := s.(channels := s.channels[f := ch']);
    assert Calm(s) ==> Calm(s1);
    ChannelKeepsInv(s, f, ch');
    var after := AfterApply(s.tasks[t], n, ok);
    if after.None? {
      RetireKeepsInv(s1, t);
    } else {
      AdvanceKeepsInv(s, s1, t, f, after.value);
    }
  }

  /** The caller of apply_motor moves on after giving back io_mutex. */
  lemma AdvanceKeepsInv(s: State, s1: State, t: TaskId, f: nat, task: Task)
    requires Inv(s) && Inside(s, t, f) && s.channels[f].io.at == Give
    requires s1 == s.(channels := s.channels[f := s.channels[f].(io := Free)]) && Inv(s1)
    requires AfterApply(s.tasks[t], |s.channels|, s.channels[f].io.ok) == Some(task)
    ensures Inv(s1.(tasks := s1.tasks[t := task]))
  {
    var s' := s1.(tasks := s1.tasks[t := task]);
    assert TaskValid(s.core, s.channels, t, s.tasks[t]) && SealValid(s, t, s.tasks[t]);
    AdvanceKeepsShape(s, s1, t, f, task);
    AdvanceKeepsLocks(s1, t, task, AfterApply(s.tasks[t], |s.channels|, s.channels[f].io.ok));
    AdvanceKeepsSeals(s, s1, t, f, task);
  }

  /** The caller's next position is inside or outside the stop just as it was. */
  lemma AdvanceKeepsLocks(s1: State, t: TaskId, task: Task, after: Option<Task>)
    requires Locks(s1) && Maintained(s1) && t in s1.tasks && after == Some(task)
    requires exists n: nat, ok: bool :: after == AfterApply(s1.tasks[t], n, ok)
    ensures var s' := s1.(tasks := s1.tasks[t := task]); Locks(s') && Maintained(s')
  {
    var s' := s1.(tasks := s1.tasks[t := task]);
    assert Stoppers(s'.tasks) == Stoppers(s1.tasks);
    ArmingSurvives(s1, s'.tasks);
  }

  lemma AdvanceKeepsSeals(s: State, s1: State, t: TaskId, f: nat, task: Task)
    requires Inv(s) && Inside(s, t, f) && s.channels[f].io.at == Give
    requires s1 == s.(channels := s.channels[f := s.channels[f].(io := Free)]) && Sealed(s1)
    requires AfterApply(s.tasks[t], |s.channels|, s.channels[f].io.ok) == Some(task)
    ensures Sealed(s1.(tasks := s1.tasks[t := task]))
  {
    var s' := s1.(tasks := s1.tasks[t := task]);
    CalmAfter(s, s', t);
    if s.tasks[t].StopApply? { AdvancedStopIsSealed(s, s1, t, f, task); }
    assert Calm(s1) ==> Calm(s);
    forall u | u in s'.tasks && u != t ensures SealValid(s', u, s'.tasks[u]) {
      assert SealValid(s1, u, s1.tasks[u]);
    }
  }

  lemma AdvanceKeepsShape(s: State, s1: State, t: TaskId, f: nat, task: Task)
    requires Inv(s) && Inside(s, t, f) && s.channels[f].io.at == Give
    requires s1 == s.(channels := s.channels[f := s.channels[f].(io := Free)]) && Inv(s1)
    requires AfterApply(s.tasks[t], |s.channels|, s.channels[f].io.ok) == Some(task)
    ensures Shape(s1.(tasks := s1.tasks[t := task]))
  {
    var s' := s1.(tasks := s1.tasks[t := task]);
    assert TaskValid(s1.core, s1.channels, t, s1.tasks[t]);
    forall i | 0 <= i < |s'.channels|
      ensures ChannelValid(s'.cfg, s'.core.fans[i].applied, s'.channels[i]) && OwnerValid(s', i)
    {
      assert ChannelValid(s1.cfg, s1.core.fans[i].applied, s1.channels[i]);
      assert OwnerValid(s, i) && OwnerValid(s1, i);
    }
    forall u | u in s'.tasks ensures TaskValid(s'.core, s'.channels, u, s'.tasks[u]) {
      if u != t { assert TaskValid(s1.core, s1.channels, u, s1.tasks[u]); }
    }
  }

  lemma AdvancedStopIsSealed(s: State, s1: State, t: TaskId, f: nat, task: Task)
    requires Inv(s) && Inside(s, t, f) && s.channels[f].io.at == Give && s.tasks[t].StopApply?
    requires s1 == s.(channels := s.channels[f := s.channels[f].(io := Free)]) && Inv(s1)
    requires AfterApply(s.tasks[t], |s.channels|, s.channels[f].io.ok) == Some(task)
    ensures SealValid(s1.(tasks := s1.tasks[t := task]), t, task)
  {
    var s' := s1.(tasks := s1.tasks[t := task]);
    assert TaskValid(s.core, s.channels, t, s.tasks[t]) && SealValid(s, t, s.tasks[t]);
    if s.channels[f].io.ok && !s.tasks[t].failed {
      CalmAfter(s, s', t);
      assert QuietUpTo(s', f + 1);
      if f + 1 < |s.channels| { assert OwnerValid(s, f + 1); }
    }
  }

  lemma CalmAfter(s: State, s': State, t: TaskId)
    requires t in s.tasks && t in s'.tasks && s'.core == s.core
    requires s'.tasks == s.tasks[t := s'.tasks[t]]
    requires Calm(s) ==> HarmlessUndo(s.core, s'.tasks[t])
    ensures Calm(s) ==> Calm(s')
  {
    if Calm(s) {
      forall u | u in s'.tasks ensures HarmlessUndo(s'.core, s'.tasks[u]) {
        if u != t { assert HarmlessUndo(s.core, s.tasks[u]); }
      }
    }
  }

  lemma ProofStepKeepsInv(s: State, step: Step)
    requires Inv(s) && (step.ProofBegin? || step.ProofTake? || step.ProofEnd?)
    ensures Inv(Next(s, step))
  {
    var t := step.t;
    if step.ProofBegin? {
      if t !in s.tasks { SpawnKeepsInv(s, t, Proof(0)); }
    } else if t in s.tasks && s.tasks[t].Proof? {
      if step.ProofTake? { ProofTakeKeepsInv(s, t); } else { ProofEndKeepsInv(s, t); }
    }
  }

  lemma ProofTakeKeepsInv(s: State, t: TaskId)
    requires Inv(s) && t in s.tasks && s.tasks[t].Proof?
    ensures Inv(Next(s, ProofTake(t)))
  {
    var k := s.tasks[t].k;
    assert TaskValid(s.core, s.channels, t, s.tasks[t]);
    if k >= |s.channels| || !s.channels[k].io.Free? { return; }
    var ch := s.channels[k].(io := Held(t, Proving, 0, 0, true));
    HoldForProofKeepsInv(s, t, k, ch);
    ProofTakeHolds(s, t, ch);
  }

  lemma ProofTakeHolds(s: State, t: TaskId, ch: Channel)
    requires |s.channels| == |s.core.fans| && t in s.tasks && s.tasks[t].Proof?
    requires s.tasks[t].k < |s.channels| && s.channels[s.tasks[t].k].io.Free?
    requires ch == s.channels[s.tasks[t].k].(io := Held(t, Proving, 0, 0, true))
    ensures Next(s, ProofTake(t)) ==
            s.(channels := s.channels[s.tasks[t].k := ch], tasks := s.tasks[t := Proof(s.tasks[t].k + 1)])
  {
  }

  lemma HoldForProofKeepsInv(s: State, t: TaskId, k: nat, ch: Channel)
    requires Inv(s) && t in s.tasks && s.tasks[t] == Proof(k) && k < |s.channels|
    requires s.channels[k].io.Free? && ch == s.channels[k].(io := Held(t, Proving, 0, 0, true))
    ensures Inv(s.(channels := s.channels[k := ch], tasks := s.tasks[t := Proof(k + 1)]))
  {
    var s' := s.(channels := s.channels[k := ch], tasks := s.tasks[t := Proof(k + 1)]);
    ProofTakeKeepsShape(s, t, k, ch);
    assert Locks(s') by { assert Stoppers(s'.tasks) == Stoppers(s.tasks); }
    ArmingSurvives(s, s'.tasks);
    ProverKeepsSeals(s, s');
  }

  /** A prover's steps change only io_mutex ownership of channels no stop is inside. */
  lemma ProverKeepsSeals(s: State, s': State)
    requires Sealed(s) && s'.core == s.core && |s'.channels| == |s.channels|
    requires forall u :: u in s'.tasks ==>
               s'.tasks[u].Proof? || (u in s.tasks && s'.tasks[u] == s.tasks[u])
    requires forall i :: 0 <= i < |s.channels| ==>
               && (QuietChannel(s.channels[i]) ==> QuietChannel(s'.channels[i]))
               && (s'.channels[i] == s.channels[i] || s'.channels[i].io.Free?
                   || (s'.channels[i].io.at == Proving && s'.channels[i].io.req == 0))
    ensures Sealed(s')
  {
    if Calm(s) {
      forall u | u in s'.tasks ensures HarmlessUndo(s'.core, s'.tasks[u]) {
        if u in s.tasks { assert HarmlessUndo(s.core, s.tasks[u]); }
      }
      assert Calm(s');
    }
    forall u | u in s'.tasks ensures SealValid(s', u, s'.tasks[u]) {
      if !s'.tasks[u].Proof? { assert SealValid(s, u, s.tasks[u]); }
    }
  }

  lemma ProofTakeKeepsShape(s: State, t: TaskId, k: nat, ch: Channel)
    requires Shape(s) && t in s.tasks && s.tasks[t] == Proof(k) && k < |s.channels|
    requires s.channels[k].io.Free? && ch == s.channels[k].(io := Held(t, Proving, 0, 0, true))
    ensures Shape(s.(channels := s.channels[k := ch], tasks := s.tasks[t := Proof(k + 1)]))
  {
    var s' := s.(channels := s.channels[k := ch], tasks := s.tasks[t := Proof(k + 1)]);
    forall i | 0 <= i < |s'.channels|
      ensures ChannelValid(s'.cfg, s'.core.fans[i].applied, s'.channels[i]) && OwnerValid(s', i)
    {
      assert ChannelValid(s.cfg, s.core.fans[i].applied, s.channels[i]) && OwnerValid(s, i);
    }
    forall u | u in s'.tasks ensures TaskValid(s'.core, s'.channels, u, s'.tasks[u]) {
      assert TaskValid(s.core, s.channels, u, s.tasks[u]);
    }
  }

  lemma UnprovenKeepsChannel(cfg: Config, applied: nat, ch: Channel, t: TaskId)
    requires ChannelValid(cfg, applied, ch) && (ch.io.Held? && ch.io.owner == t ==> ch.io.at == Proving)
    ensures ChannelValid(cfg, applied, Unproven(ch, t))
    ensures QuietChannel(ch) ==> QuietChannel(Unproven(ch, t))
  {
  }

  /** Giving the prover's mutexes back leaves every channel's wire as it was. */
  lemma ProofEndKeepsShape(s: State, t: TaskId)
    requires Inv(s) && t in s.tasks && s.tasks[t].Proof?
    ensures var s' := Next(s, ProofEnd(t));
            && Shape(s') && s'.core == s.core && s'.tasks == s.tasks - {t} && s'.stopMutex == s.stopMutex
            && forall i :: 0 <= i < |s'.channels| ==>
                 (s'.channels[i] == s.channels[i] || s'.channels[i].io.Free?)
                 && (QuietChannel(s.channels[i]) ==> QuietChannel(s'.channels[i]))
  {
    var s' := Next(s, ProofEnd(t));
    forall i | 0 <= i < |s'.channels|
      ensures ChannelValid(s'.cfg, s'.core.fans[i].applied, s'.channels[i]) && OwnerValid(s', i)
      ensures QuietChannel(s.channels[i]) ==> QuietChannel(s'.channels[i])
      ensures s'.channels[i] == s.channels[i] || s'.channels[i].io.Free?
    {
      assert ChannelValid(s.cfg, s.core.fans[i].applied, s.channels[i]) && OwnerValid(s, i);
      UnprovenKeepsChannel(s.cfg, s.core.fans[i].applied, s.channels[i], t);
    }
    forall u | u in s'.tasks ensures TaskValid(s'.core, s'.channels, u, s'.tasks[u]) {
      assert TaskValid(s.core, s.channels, u, s.tasks[u]);
    }
  }

  lemma ProofEndKeepsInv(s: State, t: TaskId)
    requires Inv(s) && t in s.tasks && s.tasks[t].Proof?
    ensures Inv(Next(s, ProofEnd(t)))
  {
    var s' := Next(s, ProofEnd(t));
    ProofEndKeepsShape(s, t);
    assert Locks(s') by { assert Stoppers(s'.tasks) == Stoppers(s.tasks); }
    ArmingSurvives(s, s'.tasks);
    assert Calm(s) ==> Calm(s');
    forall u | u in s'.tasks ensures SealValid(s', u, s'.tasks[u]) {
      assert SealValid(s, u, s.tasks[u]);
    }
  }

  /** Every step of every task, with every driver outcome, keeps the invariant. */
  lemma NextKeepsInv(s: State, step: Step)
    requires Inv(s)
    ensures Inv(Next(s, step))
  {
    match step {
      case CallStop(t, kind, clear, rollback) => CallStopKeepsInv(s, t, kind, clear, rollback);
      case TakeStopMutex(t) => MutexKeepsInv(s, t);
      case EnterSection(t) => EnterKeepsInv(s, t);
      case UndoStop(t) => UndoStopKeepsInv(s, t);
      case DropSection(t) => DropKeepsInv(s, t);
      case GiveStopMutex(t) => MutexKeepsInv(s, t);
      case Collect(t) => CollectKeepsInv(s, t);
      case Tick(t, f) => TickKeepsInv(s, t, f);
      case UndoTick(t) => UndoTickKeepsInv(s, t);
      case TakeIo(t) => TakeIoKeepsInv(s, t);
      case Io(t, ok, refresh) => IoKeepsInv(s, t, ok, refresh);
      case Manual(f, pct) => RequestKeepsInv(s, step);
      case Automatic(f, pct) => RequestKeepsInv(s, step);
      case Scheduled(f, pct) => RequestKeepsInv(s, step);
      case Restore(targets) => RequestKeepsInv(s, step);
      case StopFan(t, f, clear) => StopFanKeepsInv(s, t, f, clear);
      case Tach(t, f, inhibited) => TachKeepsInv(s, t, f, inhibited);
      case ReleaseMaintenance => ReleaseKeepsInv(s);
      case TakeFaultPending => TakePendingKeepsInv(s);
      case ProofBegin(t) => ProofStepKeepsInv(s, step);
      case ProofTake(t) => ProofStepKeepsInv(s, step);
      case ProofEnd(t) => ProofStepKeepsInv(s, step);
    }
  }

  lemma CollectKeepsInv(s: State, t: TaskId)
    requires Inv(s)
    ensures Inv(Next(s, Collect(t)))
  {
    if t !in s.tasks || !s.tasks[t].Returned? { return; }
    forall i | 0 <= i < |s.channels|
      ensures !(s.channels[i].io.Held? && s.channels[i].io.owner == t)
    {
      assert OwnerValid(s, i);
    }
    RetireKeepsInv(s, t);
  }

  // ---- whole runs ----

  /** The state motor_control_init leaves: every channel streams zero throttle. */
  function Init(cfg: Config, n: nat): State {
    State(cfg,
          Core(0, false, 0, false, false, false,
               seq(n, i => Fan(0, 0, 0, 0, 0, 0, 0, false, false, 0))),
          seq(n, i => Channel(true, true, 0, 0, Some(0), Free)), None, map[])
  }

  lemma InitIsValid(cfg: Config, n: nat)
    requires cfg.Valid()
    ensures Inv(Init(cfg, n)) && |Init(cfg, n).channels| == n
  {
    var s := Init(cfg, n);
    assert Stoppers(s.tasks) == {};
  }

  function Run(s: State, steps: seq<Step>): (r: State)
    requires |s.channels| == |s.core.fans|
    ensures |r.channels| == |r.core.fans| == |s.channels|
    decreases |steps|
  {
    if steps == [] then s else Run(Next(s, steps[0]), steps[1..])
  }

  lemma {:induction false} RunKeepsInv(s: State, steps: seq<Step>)
    requires Inv(s)
    ensures Inv(Run(s, steps))
    decreases |steps|
  {
    if steps != [] {
      NextKeepsInv(s, steps[0]);
      RunKeepsInv(Next(s, steps[0]), steps[1..]);
    }
  }
}
