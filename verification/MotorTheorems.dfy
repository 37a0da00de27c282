/** The motor-control guarantees, over every run from motor_control_init on. */
module MotorTheorems {
  import opened Prelude
  import opened Policy
  import opened MotorCore
  import opened MotorRun
  import opened MotorSafety

  /** A state some run of the initialized module reaches. */
  ghost predicate Reachable(s: State) {
    exists cfg: Config, n: nat, steps: seq<Step> ::
      cfg.Valid() && s == Run(Init(cfg, n), steps)
  }

  lemma ReachableIsValid(s: State)
    requires Reachable(s)
    ensures Inv(s)
  {
    var cfg: Config, n: nat, steps: seq<Step> :| cfg.Valid() && s == Run(Init(cfg, n), steps);
    InitIsValid(cfg, n);
    RunKeepsInv(Init(cfg, n), steps);
  }

  // ---- inhibits ----

  /**
   * A global or communication inhibit means every target is zero; a tach inhibit
   * or an RMT fault means that fan's target is zero; a maintenance inhibit means
   * every target is zero once no stop is in flight.
   */
  lemma InhibitsForceZeroTargets(s: State)
    requires Reachable(s)
    ensures s.core.global || s.core.communication ==> AllTargetsZero(s.core)
    ensures s.core.maintenance > 0 && s.core.stopDepth == 0 ==> AllTargetsZero(s.core)
    ensures forall i :: 0 <= i < |s.core.fans| ==>
              (s.core.fans[i].tachInhibited || s.core.fans[i].faulted ==> s.core.fans[i].target == 0)
  {
    ReachableIsValid(s);
    if s.core.maintenance > 0 && s.core.stopDepth == 0 && !AllTargetsZero(s.core) {
      var t :| t in s.tasks && Arming(s.tasks[t]);
      StopBlocksRequests(s, t);
    }
    forall i | 0 <= i < |s.core.fans| ensures FanValid(s.cfg, s.core.fans[i]) {}
  }

  /**
   * A target rises only through a request that every latch permits at that
   * moment: clearing an inhibit, finishing a stop or ramping never restores one.
   */
  lemma OnlyAcceptedRequestsRaise(s: State, step: Step, i: nat)
    requires Inv(s) && i < |s.core.fans|
    requires Next(s, step).core.fans[i].target > s.core.fans[i].target
    ensures IsRequest(step) && SourceOpen(s.core)
    ensures !s.core.fans[i].faulted && !s.core.fans[i].tachInhibited
    ensures s.core.communication ==> step.Manual?
  {
    if !IsRequest(step) { TargetsOnlyFall(s, step); }
  }

  lemma TargetsOnlyFall(s: State, step: Step)
    requires Inv(s) && !IsRequest(step)
    ensures forall i :: 0 <= i < |s.core.fans| ==>
              Next(s, step).core.fans[i].target <= s.core.fans[i].target
  {
    if step.Io? {
      IoTargetsOnlyFall(s, step.t, step.ok, step.refresh);
    } else if step.EnterSection? || step.UndoStop? || step.Tick? || step.UndoTick? {
      MotionTargetsOnlyFall(s, step);
    }
  }

  lemma MotionTargetsOnlyFall(s: State, step: Step)
    requires Inv(s) && (step.EnterSection? || step.UndoStop? || step.Tick? || step.UndoTick?)
    ensures forall i :: 0 <= i < |s.core.fans| ==>
              Next(s, step).core.fans[i].target <= s.core.fans[i].target
  {
  }

  lemma IoTargetsOnlyFall(s: State, t: TaskId, ok: bool, refresh: bool)
    requires Inv(s)
    ensures forall i :: 0 <= i < |s.core.fans| ==>
              Next(s, Io(t, ok, refresh)).core.fans[i].target <= s.core.fans[i].target
  {
    if t !in s.tasks || Applying(s.tasks[t]).None? { return; }
    var f := Applying(s.tasks[t]).value;
    if f >= |s.channels| || !s.channels[f].io.Held? || s.channels[f].io.owner != t { return; }
    SampleIsPure(s.cfg, s.core, f);
    RecordMoves(s.cfg, s.core, f, s.channels[f].io.ok, s.channels[f].io.pct);
  }

  // ---- the wire ----

  /** The throttle always encodes the ramp position; reserved commands never reach the wire. */
  lemma WireAgreement(s: State, i: nat)
    requires Reachable(s) && i < |s.channels|
    ensures s.core.fans[i].throttle == PctToDshot(s.core.fans[i].current, s.cfg.minSpin)
    ensures SampleApply(s.cfg, s.core, i).0 == s.core
    ensures s.channels[i].wire.Some? ==> !(1 <= s.channels[i].wire.value <= 47)
    ensures s.channels[i].io.Free? ==>
              && (s.channels[i].lastDshot != NEVER_SENT ==>
                    s.channels[i].lastDshot == 2 * PctToDshot(s.core.fans[i].applied, s.cfg.minSpin))
              && (s.channels[i].wire.Some? <==> s.channels[i].active && s.channels[i].enabled)
              && (s.channels[i].wire.Some? ==>
                    s.channels[i].wire.value == PctToDshot(s.core.fans[i].applied, s.cfg.minSpin))
  {
    ReachableIsValid(s);
    assert ChannelValid(s.cfg, s.core.fans[i].applied, s.channels[i]);
    assert FanValid(s.cfg, s.core.fans[i]);
    SampleIsPure(s.cfg, s.core, i);
  }

  /** The condition motor_control_holds_safe_zero checks under all I/O mutexes. */
  predicate SafeZero(fan: Fan, ch: Channel) {
    && ch.active && ch.enabled && fan.target == 0 && fan.current == 0 && fan.applied == 0
    && fan.throttle == 0 && ch.payload == 0 && ch.lastDshot == 0
    && fan.errors == 0 && !fan.faulted
  }

  /** A successful proof means every channel streams zero at that one instant. */
  lemma ProvenSafeZero(s: State, t: TaskId)
    requires Reachable(s) && t in s.tasks && s.tasks[t] == Proof(|s.channels|)
    requires forall i :: 0 <= i < |s.channels| ==> SafeZero(s.core.fans[i], s.channels[i])
    ensures forall i :: 0 <= i < |s.channels| ==> s.channels[i].wire == Some(0)
  {
    ReachableIsValid(s);
    assert TaskValid(s.core, s.channels, t, s.tasks[t]);
    forall i | 0 <= i < |s.channels| ensures s.channels[i].wire == Some(0) {
      assert ChannelValid(s.cfg, s.core.fans[i].applied, s.channels[i]);
      assert SafeZero(s.core.fans[i], s.channels[i]);
    }
  }

  // ---- zero on the wire after a stop ----

  /** Nothing is, or is about to be, nonzero anywhere in the module. */
  ghost predicate Quieted(s: State) {
    && Calm(s) && QuietUpTo(s, |s.channels|)
    && (forall t :: t in s.tasks && (s.tasks[t].StopApply? || s.tasks[t].StopUndo?) ==>
          forall i :: 0 <= i < |s.tasks[t].prev| ==> s.tasks[t].prev[i] == 0)
  }

  predicate StreamsZero(s: State) {
    forall i :: 0 <= i < |s.channels| ==> s.channels[i].wire == Some(0)
  }

  predicate NothingNonzero(s: State) {
    forall i :: 0 <= i < |s.channels| ==> s.channels[i].wire.Some? ==> s.channels[i].wire.value == 0
  }

  /**
   * When a stop that met no error drops its depth, no channel streams a nonzero
   * throttle. With every I/O mutex free, all of them stream zero if and only if every
   * channel is active and enabled (MotorRefresh says when that can fail).
   */
  lemma DropLeavesZeroOnTheWire(s: State, t: TaskId)
    requires Reachable(s) && t in s.tasks && s.tasks[t].StopDrop? && !s.tasks[t].failed
    ensures var s' := Next(s, DropSection(t));
            && NothingNonzero(s') && Quieted(s')
            && ((forall i :: 0 <= i < |s.channels| ==> s.channels[i].io.Free?) ==>
                  (StreamsZero(s') <==> forall i :: 0 <= i < |s.channels| ==>
                                          s.channels[i].active && s.channels[i].enabled))
  {
    ReachableIsValid(s);
    assert SealValid(s, t, s.tasks[t]);
    var s' := Next(s, DropSection(t));
    DropKeepsInv(s, t);
    forall i | 0 <= i < |s'.channels|
      ensures s'.channels[i].wire.Some? <==> Streaming(s'.channels[i])
      ensures QuietChannel(s'.channels[i])
    {
      assert ChannelValid(s'.cfg, s'.core.fans[i].applied, s'.channels[i]);
    }
    assert HoldsStop(s.tasks[t]);
    forall u | u in s'.tasks ensures HarmlessUndo(s'.core, s'.tasks[u]) {
      if u != t { assert HarmlessUndo(s.core, s.tasks[u]); }
    }
  }

  /** The step raises some target. */
  predicate Raises(s: State, step: Step)
    requires |s.channels| == |s.core.fans|
  {
    exists i :: 0 <= i < |s.core.fans| && Next(s, step).core.fans[i].target > s.core.fans[i].target
  }

  predicate NeverRaises(s: State, steps: seq<Step>)
    requires |s.channels| == |s.core.fans|
    decreases |steps|
  {
    steps == [] || (!Raises(s, steps[0]) && NeverRaises(Next(s, steps[0]), steps[1..]))
  }

  lemma QuietRequest(s: State, step: Step)
    requires Inv(s) && Quieted(s) && IsRequest(step) && !Raises(s, step)
    ensures Quieted(Next(s, step))
  {
    var s' := Next(s, step);
    forall i | 0 <= i < |s'.core.fans|
      ensures s'.core.fans[i].target == 0 && s'.core.fans[i].current == 0
      ensures s'.core.fans[i].generation == s.core.fans[i].generation
    {
      assert !(s'.core.fans[i].target > s.core.fans[i].target);
    }
    forall t | t in s'.tasks ensures HarmlessUndo(s'.core, s'.tasks[t]) {
      assert HarmlessUndo(s.core, s.tasks[t]);
    }
  }

  /** Sections that lower or keep positions, with at most one task entry changed. */
  lemma QuietSection(s: State, s': State, t: TaskId)
    requires Quieted(s) && s'.channels == s.channels && |s'.core.fans| == |s.core.fans|
    requires forall i :: 0 <= i < |s.core.fans| ==>
               && s'.core.fans[i].target == 0 && s'.core.fans[i].current == 0
               && s'.core.fans[i].generation >= s.core.fans[i].generation
    requires forall u :: u in s'.tasks && u != t ==> u in s.tasks && s'.tasks[u] == s.tasks[u]
    requires t in s'.tasks ==> HarmlessUndo(s'.core, s'.tasks[t])
    requires t in s'.tasks && (s'.tasks[t].StopApply? || s'.tasks[t].StopUndo?) ==>
               forall i :: 0 <= i < |s'.tasks[t].prev| ==> s'.tasks[t].prev[i] == 0
    ensures Quieted(s')
  {
    forall u | u in s'.tasks ensures HarmlessUndo(s'.core, s'.tasks[u]) {
      if u != t { assert HarmlessUndo(s.core, s.tasks[u]); }
    }
  }

  lemma QuietStop(s: State, step: Step)
    requires Inv(s) && Quieted(s)
    requires step.CallStop? || step.TakeStopMutex? || step.EnterSection? || step.UndoStop?
             || step.DropSection? || step.GiveStopMutex? || step.Collect?
    ensures Quieted(Next(s, step))
  {
    var s' := Next(s, step);
    if s' != s {
      var t := step.t;
      if t in s.tasks { assert TaskValid(s.core, s.channels, t, s.tasks[t]); }
      QuietSection(s, s', t);
    }
  }

  lemma QuietTick(s: State, step: Step)
    requires Inv(s) && Quieted(s) && (step.Tick? || step.UndoTick?)
    ensures Quieted(Next(s, step))
  {
    var s' := Next(s, step);
    if s' != s {
      if step.t in s.tasks { assert HarmlessUndo(s.core, s.tasks[step.t]); }
      QuietSection(s, s', step.t);
    }
  }

  lemma QuietFanStep(s: State, step: Step)
    requires Inv(s) && Quieted(s) && (step.StopFan? || step.Tach? || step.ProofBegin?)
    ensures Quieted(Next(s, step))
  {
    var s' := Next(s, step);
    if s' != s { QuietSection(s, s', step.t); }
  }

  lemma QuietRelease(s: State, step: Step)
    requires Inv(s) && Quieted(s) && (step.ReleaseMaintenance? || step.TakeFaultPending?)
    ensures Quieted(Next(s, step))
  {
    QuietSection(s, Next(s, step), if t :| t in s.tasks then t else 0);
  }

  lemma QuietIo(s: State, t: TaskId, ok: bool, refresh: bool)
    requires Inv(s) && Quieted(s)
    ensures Quieted(Next(s, Io(t, ok, refresh)))
  {
    if t !in s.tasks || Applying(s.tasks[t]).None? { return; }
    var f := Applying(s.tasks[t]).value;
    if f >= |s.channels| || !s.channels[f].io.Held? || s.channels[f].io.owner != t { return; }
    assert OwnerValid(s, f) && QuietChannel(s.channels[f]);
    if s.channels[f].io.at == Give {
      QuietGive(s, t, f);
    } else {
      QuietDriver(s, t, f, ok, refresh);
    }
  }

  lemma QuietDriver(s: State, t: TaskId, f: nat, ok: bool, refresh: bool)
    requires Inv(s) && Quieted(s) && Inside(s, t, f) && s.channels[f].io.at != Give
    ensures Quieted(IoStep(s, t, f, ok, refresh))
  {
    var ch := s.channels[f];
    assert ChannelValid(s.cfg, s.core.fans[f].applied, ch) && QuietChannel(ch);
    if ch.io.at == Sample {
      SampleIsPure(s.cfg, s.core, f);
      assert FanValid(s.cfg, s.core.fans[f]);
    } else if ch.io.at == Record {
      RecordMoves(s.cfg, s.core, f, ch.io.ok, ch.io.pct);
    } else {
      DriverKeepsChannel(s.cfg, s.core.fans[f].applied, ch, ok, refresh);
    }
    QuietChannels(s, IoStep(s, t, f, ok, refresh));
  }

  lemma QuietGive(s: State, t: TaskId, f: nat)
    requires Inv(s) && Quieted(s) && Inside(s, t, f) && s.channels[f].io.at == Give
    ensures Quieted(IoStep(s, t, f, true, true))
  {
    var s' := IoStep(s, t, f, true, true);
    assert TaskValid(s.core, s.channels, t, s.tasks[t]) && HarmlessUndo(s.core, s.tasks[t]);
    var s1 := s.(tasks := s'.tasks);
    QuietSection(s, s1, t);
    assert QuietChannel(s.channels[f]);
    QuietChannels(s1, s');
  }

  lemma QuietChannels(s: State, s': State)
    requires Quieted(s) && |s'.channels| == |s.channels| && |s'.core.fans| == |s.core.fans|
    requires s'.tasks == s.tasks
    requires forall i :: 0 <= i < |s.channels| ==> QuietChannel(s'.channels[i])
    requires forall i :: 0 <= i < |s.core.fans| ==>
               && s'.core.fans[i].target == 0 && s'.core.fans[i].current == 0
               && s'.core.fans[i].generation >= s.core.fans[i].generation
    ensures Quieted(s')
  {
    forall u | u in s'.tasks ensures HarmlessUndo(s'.core, s'.tasks[u]) {
      assert HarmlessUndo(s.core, s.tasks[u]);
    }
  }

  lemma QuietLock(s: State, step: Step)
    requires Inv(s) && Quieted(s) && (step.TakeIo? || step.ProofTake? || step.ProofEnd?)
    ensures Quieted(Next(s, step))
  {
    var s' := Next(s, step);
    if s' != s {
      QuietSection(s, s.(tasks := s'.tasks), step.t);
      QuietChannels(s.(tasks := s'.tasks), s');
    }
  }

  lemma QuietStep(s: State, step: Step)
    requires Inv(s) && Quieted(s) && !Raises(s, step)
    ensures Quieted(Next(s, step))
  {
    if IsRequest(step) {
      QuietRequest(s, step);
    } else if step.Io? {
      QuietIo(s, step.t, step.ok, step.refresh);
    } else if step.TakeIo? || step.ProofTake? || step.ProofEnd? {
      QuietLock(s, step);
    } else if step.Tick? || step.UndoTick? {
      QuietTick(s, step);
    } else if step.StopFan? || step.Tach? || step.ProofBegin? {
      QuietFanStep(s, step);
    } else if step.ReleaseMaintenance? || step.TakeFaultPending? {
      QuietRelease(s, step);
    } else {
      QuietStop(s, step);
    }
  }

  /**
   * From the moment an error-free stop drops its depth, whatever stops, ramp
   * rollbacks, refreshes and driver failures follow, no channel streams a nonzero
   * throttle until a request is accepted that raises a target.
   */
  lemma {:induction false} ZeroUntilARequestRaises(s: State, steps: seq<Step>)
    requires Inv(s) && Quieted(s) && NeverRaises(s, steps)
    ensures NothingNonzero(Run(s, steps))
    decreases |steps|
  {
    if steps == [] {
      forall i | 0 <= i < |s.channels| ensures QuietChannel(s.channels[i]) {}
    } else {
      QuietStep(s, steps[0]);
      NextKeepsInv(s, steps[0]);
      ZeroUntilARequestRaises(Next(s, steps[0]), steps[1..]);
    }
  }

  // ---- an undisturbed stop ----

  /** A one-fan state whose stop is under way; only these components vary. */
  function OneFan(generation: nat, latched: bool, depth: nat, ch: Channel,
                  mutex: Option<TaskId>, tasks: map<TaskId, Task>): State
  {
    State(Config(15, 5, 5),
          Core(depth, latched, 0, false, false, false,
               [Fan(0, 0, 0, 0, 0, generation, 0, false, false, 0)]),
          [ch], mutex, tasks)
  }

  function Zeroed(io: Io): Channel { Channel(true, true, 0, 0, Some(0), io) }

  const STOPPING := StopApply(Global, true, false, 0, [0], [1], false)
  const DROPPING := StopDrop(Global, true, false)

  lemma StopEnters()
    ensures var s := Init(Config(15, 5, 5), 1);
            Run(s, [CallStop(1, Global, true, false), TakeStopMutex(1), EnterSection(1)]) ==
            OneFan(1, true, 1, Zeroed(Free), Some(1), map[1 := STOPPING])
  {
    var s0 := Init(Config(15, 5, 5), 1);
    assert s0 == OneFan(0, false, 0, Zeroed(Free), None, map[]);
    var s1 := Next(s0, CallStop(1, Global, true, false));
    assert s1 == OneFan(0, false, 1, Zeroed(Free), None, map[1 := StopWait(Global, true, false)]);
    var s2 := Next(s1, TakeStopMutex(1));
    assert s2 == OneFan(0, false, 1, Zeroed(Free), Some(1), map[1 := StopEnter(Global, true, false)]);
    var s3 := Next(s2, EnterSection(1));
    assert s3.tasks[1].prev == [0] && s3.tasks[1].gens == [1];
    assert s3 == OneFan(1, true, 1, Zeroed(Free), Some(1), map[1 := STOPPING]);
    RunsReach(s0, [CallStop(1, Global, true, false), TakeStopMutex(1), EnterSection(1)],
              [s0, s1, s2, s3]);
  }

  lemma StopSamples()
    ensures Run(OneFan(1, true, 1, Zeroed(Free), Some(1), map[1 := STOPPING]),
                [TakeIo(1), Io(1, true, false)])
            == OneFan(1, true, 1, Zeroed(Held(1, Decide, 0, 0, true)), Some(1), map[1 := STOPPING])
  {
    var s0 := OneFan(1, true, 1, Zeroed(Free), Some(1), map[1 := STOPPING]);
    var s1 := Next(s0, TakeIo(1));
    assert s1 == OneFan(1, true, 1, Zeroed(Held(1, Sample, 0, 0, true)), Some(1), map[1 := STOPPING]);
    var s2 := Next(s1, Io(1, true, false));
    RunsReach(s0, [TakeIo(1), Io(1, true, false)], [s0, s1, s2]);
  }

  lemma StopRecords()
    ensures Run(OneFan(1, true, 1, Zeroed(Held(1, Decide, 0, 0, true)), Some(1), map[1 := STOPPING]),
                [Io(1, true, false), Io(1, true, false)])
            == OneFan(1, true, 1, Zeroed(Held(1, Give, 0, 0, true)), Some(1), map[1 := STOPPING])
  {
    var io := Io(1, true, false);
    var s2 := OneFan(1, true, 1, Zeroed(Held(1, Decide, 0, 0, true)), Some(1), map[1 := STOPPING]);
    var s3 := Next(s2, io);
    assert s3 == OneFan(1, true, 1, Zeroed(Held(1, Record, 0, 0, true)), Some(1), map[1 := STOPPING]);
    var s4 := Next(s3, io);
    RunsReach(s2, [io, io], [s2, s3, s4]);
  }

  lemma StopGivesBack()
    ensures Run(OneFan(1, true, 1, Zeroed(Held(1, Give, 0, 0, true)), Some(1), map[1 := STOPPING]),
                [Io(1, true, false)])
            == OneFan(1, true, 1, Zeroed(Free), Some(1), map[1 := DROPPING])
  {
    var s4 := OneFan(1, true, 1, Zeroed(Held(1, Give, 0, 0, true)), Some(1), map[1 := STOPPING]);
    var s5 := Next(s4, Io(1, true, false));
    assert AfterApply(STOPPING, 1, true) == Some(DROPPING);
    assert s5 == OneFan(1, true, 1, Zeroed(Free), Some(1), map[1 := DROPPING]);
    RunsReach(s4, [Io(1, true, false)], [s4, s5]);
  }

  /** A stop of one fan, undisturbed, up to the drop of its depth. */
  const STOP_STEPS: seq<Step> :=
    [CallStop(1, Global, true, false), TakeStopMutex(1), EnterSection(1), TakeIo(1)]
    + seq(4, _ => Io(1, true, false))

  lemma StopReachesItsDrop()
    ensures Run(Init(Config(15, 5, 5), 1), STOP_STEPS) == OneFan(1, true, 1, Zeroed(Free), Some(1), map[1 := DROPPING])
  {
    var s0, io := Init(Config(15, 5, 5), 1), Io(1, true, false);
    var enter, sample := [CallStop(1, Global, true, false), TakeStopMutex(1), EnterSection(1)], [TakeIo(1), io];
    StopEnters();
    StopSamples();
    StopRecords();
    StopGivesBack();
    RunAppend(s0, enter, sample);
    RunAppend(s0, enter + sample, [io, io]);
    RunAppend(s0, enter + sample + [io, io], [io]);
    assert STOP_STEPS == enter + sample + [io, io] + [io];
  }

  lemma {:induction false} RunAppend(s: State, a: seq<Step>, b: seq<Step>)
    requires |s.channels| == |s.core.fans|
    ensures Run(s, a + b) == Run(Run(s, a), b)
    decreases |a|
  {
    if a == [] {
      assert a + b == b;
    } else {
      assert (a + b)[0] == a[0] && (a + b)[1..] == a[1..] + b;
      RunAppend(Next(s, a[0]), a[1..], b);
    }
  }

  /** A trace of single steps is a run. */
  lemma {:induction false} RunsReach(s: State, steps: seq<Step>, trace: seq<State>)
    requires |trace| == |steps| + 1 && trace[0] == s
    requires forall i :: 0 <= i < |trace| ==> |trace[i].channels| == |trace[i].core.fans|
    requires forall i :: 0 <= i < |steps| ==> trace[i + 1] == Next(trace[i], steps[i])
    ensures |s.channels| == |s.core.fans| && Run(s, steps) == trace[|steps|]
    decreases |steps|
  {
    if steps != [] { RunsReach(trace[1], steps[1..], trace[1..]); }
  }
}
