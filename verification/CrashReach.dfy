/**
 * The crash-safe stop is not an empty promise: from every boot there is a run on which a
 * GLOBAL stop with cleared targets returns ESP_OK, through both stores.
 */
module CrashReach {
  import opened Prelude
  import opened CrashRun
  import opened CrashTheorems
  import MotorCore
  import Sup = SupervisorRun
  import SupervisorSafety
  import SchedulerCore
  import Sched = SchedulerRun
  import W = SaveWriter
  import SaveWriterSafety
  import Crash = CrashSafety
  import StopReach

  // ---- a store ----

  /** Nothing is requested, and nobody is inside. */
  predicate Still<E>(w: W.State<E>) {
    w.writer.Idle? && !w.asyncBit && !w.syncBit && w.req == w.done && !w.token && w.mutex.None?
  }

  /** Steps of the writer and of callers already inside. */
  predicate Working<E>(steps: seq<W.Step<E>>) {
    forall i :: 0 <= i < |steps| ==> steps[i].CallerStep? || steps[i].WriterStep?
  }

  lemma {:induction false} StoreAppend<E>(w: W.State<E>, a: seq<W.Step<E>>, b: seq<W.Step<E>>)
    requires W.Inv(w)
    ensures W.Inv(SaveWriterSafety.Run(w, a))
    ensures SaveWriterSafety.Run(w, a + b) == SaveWriterSafety.Run(SaveWriterSafety.Run(w, a), b)
    decreases |a|
  {
    if a == [] {
      assert a + b == b;
    } else {
      assert (a + b)[0] == a[0] && (a + b)[1..] == a[1..] + b;
      SaveWriterSafety.NextKeepsInv(w, a[0]);
      StoreAppend(W.Next(w, a[0]), a[1..], b);
    }
  }

  /** Reading the cells that are left, one at a time. */
  lemma {:induction false} Collects<E>(w: W.State<E>) returns (steps: seq<W.Step<E>>)
    requires W.Inv(w) && w.writer.Collect?
    ensures Working(steps)
    ensures var r := SaveWriterSafety.Run(w, steps);
            && r.writer.Commit? && r.writer.gen == w.writer.gen && r.writer.after == w.writer.after
            && r == w.(writer := r.writer, last := r.last)
    decreases |w.last| - |w.writer.acc|
  {
    SaveWriterSafety.NextKeepsInv(w, W.WriterStep(true));
    var next := W.Next(w, W.WriterStep(true));
    if |w.writer.acc| < |w.last| {
      var rest := Collects(next);
      steps := [W.WriterStep(true)] + rest;
    } else {
      steps := [W.WriterStep(true)];
      assert steps[1..] == [];
      assert SaveWriterSafety.Run(next, []) == next;
    }
  }

  /** The caller issues its generation and wakes the writer, which begins to collect for it. */
  lemma Requests<E>(w: W.State<E>, t: TaskId)
    requires W.Inv(w) && Still(w) && t in w.callers && w.callers[t].Admitted?
    ensures var r := SaveWriterSafety.Run(w, [W.CallerStep(t, false), W.CallerStep(t, false),
                                              W.WriterStep(true), W.WriterStep(true)]);
            && r.writer.Collect? && r.writer.gen == Some(r.req) && r.writer.after.ToIdle?
            && t in r.callers && r.callers[t].Check? && r.callers[t].gen == r.req && r.mutex == Some(t)
            && r.req != r.done
  {
    var w1 := W.Next(w, W.CallerStep(t, false));
    assert w1.callers[t].Issued? && w1.mutex == Some(t) && w1.req == w.req + 1 && w1.writer.Idle? && w1.done == w.done;
    SaveWriterSafety.NextKeepsInv(w, W.CallerStep(t, false));
    var w2 := W.Next(w1, W.CallerStep(t, false));
    assert w2.callers[t] == W.Check(w1.req, w1.callers[t].at) && w2.syncBit && !w2.asyncBit && w2.writer.Idle?;
    assert w2.req == w1.req && w2.done == w.done && w2.mutex == Some(t);
    SaveWriterSafety.NextKeepsInv(w1, W.CallerStep(t, false));
    Wakes(w2);
    RunsFour(w, [W.CallerStep(t, false), W.CallerStep(t, false), W.WriterStep(true), W.WriterStep(true)]);
  }

  lemma Wakes<E>(w: W.State<E>)
    requires W.WellFormed(w) && w.writer.Idle? && w.syncBit && !w.asyncBit && w.req != w.done
    ensures var r := W.Next(W.Next(w, W.WriterStep(true)), W.WriterStep(true));
            && r.writer.Collect? && r.writer.gen == Some(r.req) && r.writer.after.ToIdle?
            && r == w.(writer := r.writer, syncBit := false)
  {
    var w1 := W.Next(w, W.WriterStep(true));
    assert w1 == w.(writer := W.SyncCheck(W.ToIdle), syncBit := false);
  }

  lemma RunsFour<E>(w: W.State<E>, steps: seq<W.Step<E>>)
    requires W.Inv(w) && |steps| == 4
    ensures W.Inv(W.Next(w, steps[0]))
    ensures W.Inv(W.Next(W.Next(w, steps[0]), steps[1]))
    ensures W.Inv(W.Next(W.Next(W.Next(w, steps[0]), steps[1]), steps[2]))
    ensures SaveWriterSafety.Run(w, steps)
            == W.Next(W.Next(W.Next(W.Next(w, steps[0]), steps[1]), steps[2]), steps[3])
  {
    var w1 := RunsFirst(w, steps);
    var w2 := RunsFirst(w1, steps[1..]);
    var w3 := RunsFirst(w2, steps[2..]);
    var w4 := RunsFirst(w3, steps[3..]);
    assert steps[1..][1..] == steps[2..] && steps[2..][1..] == steps[3..] && steps[3..][1..] == [];
  }

  lemma RunsFirst<E>(w: W.State<E>, steps: seq<W.Step<E>>) returns (next: W.State<E>)
    requires W.Inv(w) && steps != []
    ensures next == W.Next(w, steps[0]) && W.Inv(next)
    ensures SaveWriterSafety.Run(w, steps) == SaveWriterSafety.Run(next, steps[1..])
  {
    next := W.Next(w, steps[0]);
    SaveWriterSafety.NextKeepsInv(w, steps[0]);
  }

  /** The commit succeeds, and the caller finds its generation completed. */
  lemma Completes<E>(w: W.State<E>, t: TaskId)
    requires W.Inv(w) && w.writer.Commit? && w.writer.gen == Some(w.req) && t in w.callers
    requires w.callers[t].Check? && w.callers[t].gen == w.req
    ensures var r := SaveWriterSafety.Run(w, [W.WriterStep(true), W.WriterStep(true),
                                              W.CallerStep(t, false), W.CallerStep(t, false)]);
            t in r.callers && r.callers[t] == W.Done(true, w.callers[t].at)
  {
    var w1 := W.Next(w, W.WriterStep(true));
    assert w1.writer == W.Complete(w.writer.gen, w.writer.from, true, w.writer.after) && w1.callers == w.callers;
    var w2 := W.Next(w1, W.WriterStep(true));
    assert w2.done == w.req && w2.result && w2.callers == w.callers;
    var w3 := W.Next(w2, W.CallerStep(t, false));
    assert w3.callers[t] == W.GiveMutex(true, w.callers[t].at);
    RunsFour(w, [W.WriterStep(true), W.WriterStep(true), W.CallerStep(t, false), W.CallerStep(t, false)]);
  }

  /** A save_sync that is let in and whose commit succeeds returns ESP_OK. */
  lemma StoreSaves<E>(w: W.State<E>, t: TaskId) returns (steps: seq<W.Step<E>>)
    requires W.Inv(w) && Still(w) && t in w.callers && w.callers[t].Admitted?
    ensures Working(steps) && W.Inv(SaveWriterSafety.Run(w, steps))
    ensures var r := SaveWriterSafety.Run(w, steps);
            t in r.callers && r.callers[t].Done? && r.callers[t].ok
  {
    var ask: seq<W.Step<E>> := [W.CallerStep(t, false), W.CallerStep(t, false), W.WriterStep(true), W.WriterStep(true)];
    var end: seq<W.Step<E>> := [W.WriterStep(true), W.WriterStep(true), W.CallerStep(t, false), W.CallerStep(t, false)];
    Requests(w, t);
    SaveWriterSafety.RunKeepsInv(w, ask);
    var w1 := SaveWriterSafety.Run(w, ask);
    var collect := Collects(w1);
    SaveWriterSafety.RunKeepsInv(w1, collect);
    var w2 := SaveWriterSafety.Run(w1, collect);
    Completes(w2, t);
    steps := ask + (collect + end);
    StoreAppend(w1, collect, end);
    StoreAppend(w, ask, collect + end);
    SaveWriterSafety.RunKeepsInv(w, steps);
  }

  // ---- the stop through the stores ----

  lemma Unfolds(s: State, steps: seq<Step>)
    requires Crash.Inv(s) && steps != []
    ensures Crash.Inv(Next(s, steps[0])) && Run(s, steps) == Run(Next(s, steps[0]), steps[1..])
  {
    Crash.NextKeepsInv(s, steps[0]);
  }

  lemma {:induction false} CrashAppend(s: State, a: seq<Step>, b: seq<Step>)
    requires Crash.Inv(s)
    ensures Crash.Inv(Run(s, a))
    ensures Run(s, a + b) == Run(Run(s, a), b)
    decreases |a|
  {
    if a == [] {
      assert a + b == b;
    } else {
      assert (a + b)[0] == a[0] && (a + b)[1..] == a[1..] + b;
      Unfolds(s, a);
      Unfolds(s, a + b);
      CrashAppend(Next(s, a[0]), a[1..], b);
    }
  }

  /** Both stores are still and empty. */
  predicate Quiet(s: State) {
    && Still(s.fans) && s.fans.callers == map[]
    && Still(s.plans) && s.plans.callers == map[]
  }

  function Controls(steps: seq<Sup.Step>): seq<Step> {
    seq(|steps|, i requires 0 <= i < |steps| => Control(steps[i]))
  }

  /** While no store is involved the supervisor runs as it would alone. */
  lemma {:induction false} ControlsRun(s: State, steps: seq<Sup.Step>)
    requires Crash.Inv(s) && Quiet(s) && StopReach.Storeless(s.sup, steps)
    ensures var r := Run(s, Controls(steps));
            Crash.Inv(r) && Quiet(r) && r.sup == SupervisorSafety.Run(s.sup, steps) && r.sched == s.sched
    decreases |steps|
  {
    if steps != [] {
      assert Controls(steps)[0] == Control(steps[0]) && Controls(steps)[1..] == Controls(steps[1..]);
      Unfolds(s, Controls(steps));
      ControlIsFree(s, steps[0]);
      ControlsRun(Next(s, Control(steps[0])), steps[1..]);
    }
  }

  lemma ControlIsFree(s: State, step: Sup.Step)
    requires WellFormed(s) && Quiet(s) && StopReach.StoreFree(s.sup, step)
    ensures var r := Next(s, Control(step));
            Quiet(r) && r.sup == Sup.Next(s.sup, step) && r.sched == s.sched
  {
  }

  function FanSteps(steps: seq<W.Step<nat>>): seq<Step> {
    seq(|steps|, i requires 0 <= i < |steps| => FanStore(steps[i]))
  }

  lemma StoresWork(s: State, save: W.Step<nat>, write: W.Step<Plan>)
    requires WellFormed(s) && (save.CallerStep? || save.WriterStep?) && (write.CallerStep? || write.WriterStep?)
    ensures Next(s, FanStore(save)) == s.(fans := W.Next(s.fans, save))
    ensures Next(s, PlanStore(write)) == s.(plans := W.Next(s.plans, write))
  {
  }

  lemma {:induction false} FanStoreRuns(s: State, steps: seq<W.Step<nat>>)
    requires Crash.Inv(s) && Working(steps)
    ensures Run(s, FanSteps(steps)) == s.(fans := SaveWriterSafety.Run(s.fans, steps))
    decreases |steps|
  {
    if steps != [] {
      assert FanSteps(steps)[0] == FanStore(steps[0]) && FanSteps(steps)[1..] == FanSteps(steps[1..]);
      Unfolds(s, FanSteps(steps));
      StoresWork(s, steps[0], W.WriterStep(true));
      SaveWriterSafety.NextKeepsInv(s.fans, steps[0]);
      FanStoreRuns(s.(fans := W.Next(s.fans, steps[0])), steps[1..]);
    }
  }

  function PlanSteps(steps: seq<W.Step<Plan>>): seq<Step> {
    seq(|steps|, i requires 0 <= i < |steps| => PlanStore(steps[i]))
  }

  lemma {:induction false} PlanStoreRuns(s: State, steps: seq<W.Step<Plan>>)
    requires Crash.Inv(s) && Working(steps)
    ensures Run(s, PlanSteps(steps)) == s.(plans := SaveWriterSafety.Run(s.plans, steps))
    decreases |steps|
  {
    if steps != [] {
      assert PlanSteps(steps)[0] == PlanStore(steps[0]) && PlanSteps(steps)[1..] == PlanSteps(steps[1..]);
      Unfolds(s, PlanSteps(steps));
      StoresWork(s, W.WriterStep(true), steps[0]);
      SaveWriterSafety.NextKeepsInv(s.plans, steps[0]);
      PlanStoreRuns(s.(plans := W.Next(s.plans, steps[0])), steps[1..]);
    }
  }

  predicate Standing(s: State, phase: Sup.Phase) { StopReach.Stands(s.sup, phase) }

  /** The automatic inhibit: latch the scheduler, save its plan, tell the stop. */
  lemma AutoSucceeds(s: State) returns (steps: seq<Step>)
    requires Crash.Inv(s) && Quiet(s) && Standing(s, Sup.Auto) && SchedulerCore.NothingPending(s.sched.sched)
    ensures var r := Run(s, steps);
            && Crash.Inv(r) && Standing(r, Sup.Persist) && Still(r.fans) && r.fans.callers == map[]
  {
    Latches(s);
    Crash.NextKeepsInv(s, AutoLatch(1, true));
    var s1 := Next(s, AutoLatch(1, true));
    var saves := StoreSaves(s1.plans, 1);
    PlanStoreRuns(s1, saves);
    RunKeepsInv(s1, PlanSteps(saves));
    var s2 := Run(s1, PlanSteps(saves));
    AutoIsTold(s2);
    Crash.NextKeepsInv(s2, AutoReturn(1));
    RunsOne(s2, AutoReturn(1));
    steps := [AutoLatch(1, true)] + (PlanSteps(saves) + [AutoReturn(1)]);
    CrashAppend(s1, PlanSteps(saves), [AutoReturn(1)]);
    RunsOne(s, AutoLatch(1, true));
    CrashAppend(s, [AutoLatch(1, true)], PlanSteps(saves) + [AutoReturn(1)]);
  }

  lemma RunsOne(s: State, step: Step)
    requires Crash.Inv(s)
    ensures Run(s, [step]) == Next(s, step)
  {
    Crash.NextKeepsInv(s, step);
    assert [step][1..] == [];
  }

  lemma Latches(s: State)
    requires WellFormed(s) && Quiet(s) && Standing(s, Sup.Auto) && SchedulerCore.NothingPending(s.sched.sched)
    ensures var r := Next(s, AutoLatch(1, true));
            && r.sup == s.sup && Still(r.fans) && r.fans.callers == map[]
            && Still(r.plans) && 1 in r.plans.callers && r.plans.callers[1].Admitted?
  {
  }

  lemma AutoIsTold(s: State)
    requires WellFormed(s) && Standing(s, Sup.Auto) && Still(s.fans) && s.fans.callers == map[]
    requires 1 in s.plans.callers && s.plans.callers[1].Done? && s.plans.callers[1].ok
    ensures var r := Next(s, AutoReturn(1));
            Standing(r, Sup.Persist) && Still(r.fans) && r.fans.callers == map[]
  {
    assert Sup.Next(s.sup, Sup.Advance(1, true)).jobs == map[1 := StopReach.GlobalStop(Sup.Persist)];
  }

  /** The persistence request: save the manual targets, tell the stop. */
  lemma PersistSucceeds(s: State) returns (steps: seq<Step>)
    requires Crash.Inv(s) && Standing(s, Sup.Persist) && Still(s.fans) && s.fans.callers == map[]
    ensures Crash.Inv(Run(s, steps)) && Standing(Run(s, steps), Sup.Finish)
  {
    Admits(s);
    Crash.NextKeepsInv(s, PersistCall(1, true));
    var s1 := Next(s, PersistCall(1, true));
    var saves := StoreSaves(s1.fans, 1);
    FanStoreRuns(s1, saves);
    RunKeepsInv(s1, FanSteps(saves));
    var s2 := Run(s1, FanSteps(saves));
    PersistIsTold(s2);
    Crash.NextKeepsInv(s2, PersistReturn(1));
    RunsOne(s2, PersistReturn(1));
    steps := [PersistCall(1, true)] + (FanSteps(saves) + [PersistReturn(1)]);
    CrashAppend(s1, FanSteps(saves), [PersistReturn(1)]);
    RunsOne(s, PersistCall(1, true));
    CrashAppend(s, [PersistCall(1, true)], FanSteps(saves) + [PersistReturn(1)]);
  }

  lemma Admits(s: State)
    requires WellFormed(s) && Standing(s, Sup.Persist) && Still(s.fans) && s.fans.callers == map[]
    ensures var r := Next(s, PersistCall(1, true));
            r.sup == s.sup && Still(r.fans) && 1 in r.fans.callers && r.fans.callers[1].Admitted?
  {
  }

  lemma PersistIsTold(s: State)
    requires WellFormed(s) && Standing(s, Sup.Persist)
    requires 1 in s.fans.callers && s.fans.callers[1].Done? && s.fans.callers[1].ok
    ensures Standing(Next(s, PersistReturn(1)), Sup.Finish)
  {
    assert Sup.Next(s.sup, Sup.Advance(1, true)).jobs == map[1 := StopReach.GlobalStop(Sup.Finish)];
  }

  /**
   * From every boot, with any number of fans and any loaded schedules, some run ends with
   * a GLOBAL stop with cleared targets that returns ESP_OK, which is the condition under
   * which the supervisor promises that the stopped state survives a reset.
   */
  lemma SuccessIsReachable(cfg: MotorCore.Config, fans: seq<SchedulerCore.Fan>, inhibited: bool)
    returns (steps: seq<Step>)
    requires cfg.Valid() && |fans| > 0
    requires forall f :: 0 <= f < |fans| ==>
               Sched.FanValid(fans[f]) && !fans[f].pending && fans[f].active == SchedulerCore.NO_SLOT
    ensures var s := Run(Init(cfg, fans, inhibited), steps);
            && StopsNow(s.sup, 1) && s.sup.jobs[1].op.stop.action.StopGlobal? && s.sup.jobs[1].op.stop.clear
            && Sup.ResultOk(s.sup.jobs[1].op.stop.out) && Committed(s.sup.jobs[1].op.stop)
            && Crash.Safe(s)
  {
    var s0 := Init(cfg, fans, inhibited);
    InitIsValid(cfg, fans, inhibited);
    var moves := StopReach.StopComesToAuto(cfg, |fans|);
    ControlsRun(s0, moves);
    var s1 := Run(s0, Controls(moves));
    var auto := AutoSucceeds(s1);
    var s2 := Run(s1, auto);
    var persist := PersistSucceeds(s2);
    var s3 := Run(s2, persist);
    CommittedIsSafe(s3, 1);
    steps := Controls(moves) + (auto + persist);
    CrashAppend(s1, auto, persist);
    CrashAppend(s0, Controls(moves), auto + persist);
  }
}
