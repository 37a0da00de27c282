/**
 * A run on which a GLOBAL stop succeeds, with any number of fans: the motors first, then
 * the transaction of the supervisor around them, up to its automatic inhibit.
 */
module StopReach {
  import opened Prelude
  import MotorCore
  import MotorRun
  import MotorSafety
  import MotorTheorems
  import Sup = SupervisorRun
  import SupervisorSafety

  // ---- the motors ----

  /** Nothing moves, nothing failed, and every channel streams the zero it was initialised with. */
  predicate Calm(m: MotorRun.State) {
    && |m.channels| == |m.core.fans|
    && (forall i :: 0 <= i < |m.channels| ==> m.channels[i] == MotorTheorems.Zeroed(MotorRun.Free))
    && (forall i :: 0 <= i < |m.channels| ==> Resting(m.core.fans[i]))
  }

  predicate Resting(fan: MotorCore.Fan) {
    fan.throttle == 0 && fan.current == 0 && fan.errors == 0 && fan.applied == 0
  }

  /** Task 1 alone, inside a GLOBAL stop. */
  function Alone(m: MotorRun.State, task: MotorRun.Task): MotorRun.State { m.(tasks := map[1 := task]) }

  const APPLY: seq<MotorRun.Step> := [MotorRun.TakeIo(1)] + seq(4, _ => MotorRun.Io(1, true, false))

  function Sampled(m: MotorRun.State, k: nat, at: MotorRun.At): MotorRun.State
    requires k < |m.channels|
  {
    m.(channels := m.channels[k := MotorTheorems.Zeroed(MotorRun.Held(1, at, 0, 0, true))])
  }

  lemma TakesAndSamples(m: MotorRun.State, k: nat)
    requires Calm(m) && k < |m.channels| && 1 in m.tasks && MotorRun.Applying(m.tasks[1]) == Some(k)
    ensures MotorRun.Next(m, MotorRun.TakeIo(1)) == Sampled(m, k, MotorRun.Sample)
    ensures MotorRun.Next(Sampled(m, k, MotorRun.Sample), MotorRun.Io(1, true, false)) == Sampled(m, k, MotorRun.Decide)
  {
    var s := Sampled(m, k, MotorRun.Sample);
    assert Resting(m.core.fans[k]);
    assert MotorRun.IoChannel(s, k, true, false) == Sampled(m, k, MotorRun.Decide).channels[k];
    assert s.channels[k := Sampled(m, k, MotorRun.Decide).channels[k]] == Sampled(m, k, MotorRun.Decide).channels;
  }

  lemma DecidesAndRecords(m: MotorRun.State, k: nat)
    requires Calm(m) && k < |m.channels| && 1 in m.tasks && MotorRun.Applying(m.tasks[1]) == Some(k)
    ensures MotorRun.Next(Sampled(m, k, MotorRun.Decide), MotorRun.Io(1, true, false)) == Sampled(m, k, MotorRun.Record)
    ensures MotorRun.Next(Sampled(m, k, MotorRun.Record), MotorRun.Io(1, true, false)) == Sampled(m, k, MotorRun.Give)
  {
    var d, r := Sampled(m, k, MotorRun.Decide), Sampled(m, k, MotorRun.Record);
    assert d.channels[k := r.channels[k]] == r.channels;
    assert r.channels[k := Sampled(m, k, MotorRun.Give).channels[k]] == Sampled(m, k, MotorRun.Give).channels;
    assert Resting(m.core.fans[k]);
    var fan := m.core.fans[k].(errors := 0, applied := 0);
    assert fan == m.core.fans[k] && m.core.fans[k := fan] == m.core.fans;
    assert MotorCore.RecordResult(m.cfg, m.core, k, true, 0) == m.core;
  }

  lemma GivesBack(m: MotorRun.State, k: nat)
    requires Calm(m) && k < |m.channels| && 1 in m.tasks && m.tasks[1].StopApply? && m.tasks[1].k == k
    requires !m.tasks[1].failed
    ensures MotorRun.Next(Sampled(m, k, MotorRun.Give), MotorRun.Io(1, true, false))
            == m.(tasks := m.tasks[1 := MotorRun.NextStopFan(m.tasks[1], |m.channels|, false)])
  {
    var g := Sampled(m, k, MotorRun.Give);
    assert g.channels[k := MotorTheorems.Zeroed(MotorRun.Free)] == m.channels;
  }

  lemma TakesToDecide(m: MotorRun.State, k: nat)
    requires Calm(m) && k < |m.channels| && 1 in m.tasks && MotorRun.Applying(m.tasks[1]) == Some(k)
    ensures MotorSafety.Run(m, [MotorRun.TakeIo(1), MotorRun.Io(1, true, false)]) == Sampled(m, k, MotorRun.Decide)
  {
    TakesAndSamples(m, k);
    MotorTheorems.RunsReach(m, [MotorRun.TakeIo(1), MotorRun.Io(1, true, false)],
                            [m, Sampled(m, k, MotorRun.Sample), Sampled(m, k, MotorRun.Decide)]);
  }

  lemma DecidesToReturn(m: MotorRun.State, k: nat)
    requires Calm(m) && k < |m.channels| && 1 in m.tasks && m.tasks[1].StopApply? && m.tasks[1].k == k
    requires !m.tasks[1].failed
    ensures var io := MotorRun.Io(1, true, false);
            MotorSafety.Run(Sampled(m, k, MotorRun.Decide), [io, io, io])
            == m.(tasks := m.tasks[1 := MotorRun.NextStopFan(m.tasks[1], |m.channels|, false)])
  {
    DecidesAndRecords(m, k);
    GivesBack(m, k);
    var io, d := MotorRun.Io(1, true, false), Sampled(m, k, MotorRun.Decide);
    var done := m.(tasks := m.tasks[1 := MotorRun.NextStopFan(m.tasks[1], |m.channels|, false)]);
    MotorTheorems.RunsReach(d, [io, io, io], [d, Sampled(m, k, MotorRun.Record), Sampled(m, k, MotorRun.Give), done]);
  }

  lemma AppliesOne(m: MotorRun.State, k: nat)
    requires Calm(m) && k < |m.channels| && 1 in m.tasks && m.tasks[1].StopApply? && m.tasks[1].k == k
    requires !m.tasks[1].failed
    ensures MotorSafety.Run(m, APPLY) == m.(tasks := m.tasks[1 := MotorRun.NextStopFan(m.tasks[1], |m.channels|, false)])
  {
    var io := MotorRun.Io(1, true, false);
    TakesToDecide(m, k);
    DecidesToReturn(m, k);
    MotorTheorems.RunAppend(m, [MotorRun.TakeIo(1), io], [io, io, io]);
    assert APPLY == [MotorRun.TakeIo(1), io] + [io, io, io];
  }

  /** Steps of a task inside the motor module, which nobody else's state can prevent. */
  predicate Inside(steps: seq<MotorRun.Step>) {
    forall i :: 0 <= i < |steps| ==>
      steps[i].TakeStopMutex? || steps[i].EnterSection? || steps[i].TakeIo? || steps[i].Io?
      || steps[i].DropSection? || steps[i].GiveStopMutex?
  }

  lemma {:induction false} AppliesAll(m: MotorRun.State, k: nat) returns (steps: seq<MotorRun.Step>)
    requires Calm(m) && k < |m.channels| && m.tasks.Keys == {1} && m.tasks[1].StopApply? && m.tasks[1].k == k
    requires !m.tasks[1].failed
    ensures Inside(steps)
    ensures MotorSafety.Run(m, steps) == Alone(m, MotorRun.StopDrop(m.tasks[1].kind, m.tasks[1].clear, false))
    decreases |m.channels| - k
  {
    AppliesOne(m, k);
    var next := MotorRun.NextStopFan(m.tasks[1], |m.channels|, false);
    assert m.tasks[1 := next] == map[1 := next];
    if k + 1 < |m.channels| {
      var rest := AppliesAll(Alone(m, next), k + 1);
      steps := APPLY + rest;
      MotorTheorems.RunAppend(m, APPLY, rest);
    } else {
      steps := APPLY;
    }
  }

  const WAITING := MotorRun.StopWait(MotorCore.Global, true, false)
  const GRANTED := MotorRun.Returned(MotorCore.Global, true, false, false)

  /** The stop call from its first section to its return: it was entered and nothing failed. */
  lemma MotorsStop(m: MotorRun.State) returns (steps: seq<MotorRun.Step>)
    requires Calm(m) && m.tasks == map[1 := WAITING] && m.stopMutex.None? && |m.channels| > 0
    ensures Inside(steps) && MotorSafety.Run(m, steps).tasks == map[1 := GRANTED]
  {
    var m1 := MotorRun.Next(m, MotorRun.TakeStopMutex(1));
    var m2 := MotorRun.Next(m1, MotorRun.EnterSection(1));
    var enter := [MotorRun.TakeStopMutex(1), MotorRun.EnterSection(1)];
    MotorTheorems.RunsReach(m, enter, [m, m1, m2]);
    Enters(m);
    var applies := AppliesAll(m2, 0);
    var m3 := MotorSafety.Run(m2, applies);
    var m4 := MotorRun.Next(m3, MotorRun.DropSection(1));
    var m5 := MotorRun.Next(m4, MotorRun.GiveStopMutex(1));
    var leave := [MotorRun.DropSection(1), MotorRun.GiveStopMutex(1)];
    MotorTheorems.RunsReach(m3, leave, [m3, m4, m5]);
    Leaves(m3);
    steps := enter + applies + leave;
    MotorTheorems.RunAppend(m, enter + applies, leave);
    MotorTheorems.RunAppend(m, enter, applies);
  }

  lemma Enters(m: MotorRun.State)
    requires Calm(m) && m.tasks == map[1 := WAITING] && m.stopMutex.None? && |m.channels| > 0
    ensures var m2 := MotorRun.Next(MotorRun.Next(m, MotorRun.TakeStopMutex(1)), MotorRun.EnterSection(1));
            && Calm(m2) && |m2.channels| == |m.channels| && m2.tasks.Keys == {1} && m2.tasks[1].StopApply?
            && m2.tasks[1].k == 0 && !m2.tasks[1].failed && m2.tasks[1].kind.Global? && m2.tasks[1].clear
  {
    var m1 := MotorRun.Next(m, MotorRun.TakeStopMutex(1));
    assert m1.core == m.core && m1.channels == m.channels;
    assert m1.tasks[1] == MotorRun.StopEnter(MotorCore.Global, true, false);
    var m2 := MotorRun.Next(m1, MotorRun.EnterSection(1));
    assert m2.core == MotorCore.EnterStop(m.core, MotorCore.Global, true) && m2.channels == m.channels;
    forall i | 0 <= i < |m2.channels| ensures Resting(m2.core.fans[i]) {
      assert Resting(m.core.fans[i]);
    }
  }

  lemma Leaves(m: MotorRun.State)
    requires |m.channels| == |m.core.fans|
    requires m.tasks == map[1 := MotorRun.StopDrop(MotorCore.Global, true, false)]
    ensures MotorRun.Next(MotorRun.Next(m, MotorRun.DropSection(1)), MotorRun.GiveStopMutex(1)).tasks == map[1 := GRANTED]
  {
    var m4 := MotorRun.Next(m, MotorRun.DropSection(1));
    assert m4.tasks == map[1 := MotorRun.StopGive(MotorCore.Global, true, false)];
  }

  // ---- the transaction around them ----

  function Motors(steps: seq<MotorRun.Step>): seq<Sup.Step> {
    seq(|steps|, i requires 0 <= i < |steps| => Sup.Motor(steps[i]))
  }

  lemma {:induction false} MotorsRun(s: Sup.State, steps: seq<MotorRun.Step>)
    requires Sup.WellFormed(s) && Inside(steps)
    ensures SupervisorSafety.Run(s, Motors(steps)) == s.(motor := MotorSafety.Run(s.motor, steps))
    decreases |steps|
  {
    if steps != [] {
      assert Motors(steps)[0] == Sup.Motor(steps[0]) && Motors(steps)[1..] == Motors(steps[1..]);
      assert Sup.MotorStepAllowed(s, steps[0]);
      assert Sup.Next(s, Sup.Motor(steps[0])) == s.(motor := MotorRun.Next(s.motor, steps[0]));
      MotorsRun(s.(motor := MotorRun.Next(s.motor, steps[0])), steps[1..]);
    }
  }

  lemma {:induction false} SupAppend(s: Sup.State, a: seq<Sup.Step>, b: seq<Sup.Step>)
    ensures SupervisorSafety.Run(s, a + b) == SupervisorSafety.Run(SupervisorSafety.Run(s, a), b)
    decreases |a|
  {
    if a == [] {
      assert a + b == b;
    } else {
      assert (a + b)[0] == a[0] && (a + b)[1..] == a[1..] + b;
      SupAppend(Sup.Next(s, a[0]), a[1..], b);
    }
  }

  /** Steps that wait for no store: none of them leaves the automatic inhibit or the save. */
  predicate Storeless(s: Sup.State, steps: seq<Sup.Step>)
    decreases |steps|
  {
    steps == [] || (StoreFree(s, steps[0]) && Storeless(Sup.Next(s, steps[0]), steps[1..]))
  }

  predicate StoreFree(s: Sup.State, step: Sup.Step) {
    step.Advance? && step.t in s.jobs && s.jobs[step.t].op.Stopping? ==>
      !s.jobs[step.t].op.stop.phase.Auto? && !s.jobs[step.t].op.stop.phase.Persist?
  }

  lemma {:induction false} StorelessAppend(s: Sup.State, a: seq<Sup.Step>, b: seq<Sup.Step>)
    requires Storeless(s, a) && Storeless(SupervisorSafety.Run(s, a), b)
    ensures Storeless(s, a + b)
    decreases |a|
  {
    if a == [] {
      assert a + b == b;
    } else {
      assert (a + b)[0] == a[0] && (a + b)[1..] == a[1..] + b;
      StorelessAppend(Sup.Next(s, a[0]), a[1..], b);
    }
  }

  lemma {:induction false} MotorsAreStoreless(s: Sup.State, steps: seq<MotorRun.Step>)
    ensures Storeless(s, Motors(steps))
    decreases |steps|
  {
    if steps != [] {
      assert Motors(steps)[1..] == Motors(steps[1..]);
      MotorsAreStoreless(Sup.Next(s, Sup.Motor(steps[0])), steps[1..]);
    }
  }

  function GlobalStop(phase: Sup.Phase): Sup.Job {
    Sup.Job(0, Sup.Stopping(Sup.StopJob(Sup.StopGlobal, true, phase, Sup.ALL_OK)))
  }

  const ON := Sup.Advance(1, true)

  /** Task 1 alone in a GLOBAL stop of which every call so far succeeded. */
  predicate Stands(s: Sup.State, phase: Sup.Phase) {
    Sup.WellFormed(s) && s.jobs == map[1 := GlobalStop(phase)]
  }

  lemma Cuts(s: Sup.State)
    requires Sup.WellFormed(s) && s.jobs == map[] && s.mutex.None? && s.motor.tasks == map[]
    ensures var s1 := Sup.Next(s, Sup.Claim(1, Sup.StopGlobal, true));
            var s2 := Sup.Next(s1, ON);
            var s3 := Sup.Next(s2, ON);
            && Stands(s1, Sup.WantLock) && Stands(s2, Sup.Drive)
            && Stands(s3, Sup.Unlock) && s3.mutex == Some(1) && s3.motor == s.motor
  {
  }

  lemma Calls(s: Sup.State)
    requires Stands(s, Sup.Unlock) && s.mutex == Some(1) && s.motor.tasks == map[]
    requires s.motor.core.stopDepth == 0 && Calm(s.motor)
    ensures var s4 := Sup.Next(s, ON);
            var s5 := Sup.Next(s4, ON);
            var s6 := Sup.Next(s5, ON);
            && Stands(s4, Sup.Section(Sup.First, Sup.Want)) && s4.mutex.None? && s4.motor == s.motor
            && Stands(s5, Sup.Section(Sup.First, Sup.Call)) && s5.motor == s.motor
            && Stands(s6, Sup.Section(Sup.First, Sup.Wait))
            && s6.motor.tasks == map[1 := WAITING] && Calm(s6.motor)
            && s6.motor.channels == s.motor.channels && s6.motor.stopMutex == s.motor.stopMutex
  {
    var s4 := Sup.Next(s, ON);
    assert Stands(s4, Sup.Section(Sup.First, Sup.Want)) && s4.mutex.None? && s4.motor == s.motor;
    var s5 := Sup.Next(s4, ON);
    assert Stands(s5, Sup.Section(Sup.First, Sup.Call)) && s5.motor == s.motor;
    var s6 := Sup.Next(s5, ON);
    assert s6.motor == MotorRun.Next(s.motor, MotorRun.CallStop(1, MotorCore.Global, true, false));
  }

  lemma Returns(s: Sup.State)
    requires Stands(s, Sup.Section(Sup.First, Sup.Wait)) && s.motor.tasks == map[1 := GRANTED]
    ensures var s7 := Sup.Next(s, ON);
            var s8 := Sup.Next(s7, ON);
            Stands(s7, Sup.Section(Sup.First, Sup.Give)) && Stands(s8, Sup.Auto)
  {
    var s7 := Sup.Next(s, ON);
    assert Stands(s7, Sup.Section(Sup.First, Sup.Give));
  }

  const CUTTING: seq<Sup.Step> := [Sup.Claim(1, Sup.StopGlobal, true), ON, ON]
  const CALLING: seq<Sup.Step> := [ON, ON, ON]
  const RETURNING: seq<Sup.Step> := [ON, ON]

  lemma CallsMotors(s: Sup.State)
    requires Stands(s, Sup.Unlock) && s.mutex == Some(1) && s.motor.tasks == map[]
    requires s.motor.core.stopDepth == 0 && Calm(s.motor)
    ensures var r := SupervisorSafety.Run(s, CALLING);
            && Stands(r, Sup.Section(Sup.First, Sup.Wait)) && Storeless(s, CALLING)
            && r.motor.tasks == map[1 := WAITING] && Calm(r.motor)
            && r.motor.channels == s.motor.channels && r.motor.stopMutex == s.motor.stopMutex
  {
    Calls(s);
    ThreeSteps(s, ON, ON, ON);
  }

  lemma ThreeSteps(s: Sup.State, a: Sup.Step, b: Sup.Step, c: Sup.Step)
    ensures SupervisorSafety.Run(s, [a, b, c]) == Sup.Next(Sup.Next(Sup.Next(s, a), b), c)
    ensures StoreFree(s, a) && StoreFree(Sup.Next(s, a), b) && StoreFree(Sup.Next(Sup.Next(s, a), b), c) ==>
              Storeless(s, [a, b, c])
  {
    var s1 := Sup.Next(s, a);
    var s2 := Sup.Next(s1, b);
    assert [a, b, c][1..] == [b, c] && [b, c][1..] == [c] && [c][1..] == [];
    assert SupervisorSafety.Run(s2, [c]) == Sup.Next(s2, c);
    assert SupervisorSafety.Run(s1, [b, c]) == Sup.Next(s2, c);
    assert StoreFree(s2, c) ==> Storeless(s2, [c]);
    assert StoreFree(s1, b) && StoreFree(s2, c) ==> Storeless(s1, [b, c]);
  }

  lemma TwoSteps(s: Sup.State, a: Sup.Step, b: Sup.Step)
    ensures SupervisorSafety.Run(s, [a, b]) == Sup.Next(Sup.Next(s, a), b)
    ensures StoreFree(s, a) && StoreFree(Sup.Next(s, a), b) ==> Storeless(s, [a, b])
  {
    var s1 := Sup.Next(s, a);
    assert [a, b][1..] == [b] && [b][1..] == [];
    assert SupervisorSafety.Run(s1, [b]) == Sup.Next(s1, b);
    assert StoreFree(s1, b) ==> Storeless(s1, [b]);
  }

  lemma StopReturns(s: Sup.State)
    requires Stands(s, Sup.Section(Sup.First, Sup.Wait)) && s.motor.tasks == map[1 := GRANTED]
    ensures Stands(SupervisorSafety.Run(s, RETURNING), Sup.Auto) && Storeless(s, RETURNING)
  {
    Returns(s);
    TwoSteps(s, ON, ON);
  }

  /** The motors' part of the transaction, from the call to the automatic inhibit. */
  lemma SectionSucceeds(s: Sup.State) returns (steps: seq<Sup.Step>)
    requires Stands(s, Sup.Section(Sup.First, Sup.Wait)) && s.motor.tasks == map[1 := WAITING] && Calm(s.motor)
    requires s.motor.stopMutex.None? && |s.motor.channels| > 0
    ensures Storeless(s, steps) && Stands(SupervisorSafety.Run(s, steps), Sup.Auto)
  {
    var moves := MotorsStop(s.motor);
    MotorsRun(s, moves);
    MotorsAreStoreless(s, moves);
    var r := s.(motor := MotorSafety.Run(s.motor, moves));
    StopReturns(r);
    steps := Motors(moves) + RETURNING;
    SupAppend(s, Motors(moves), RETURNING);
    StorelessAppend(s, Motors(moves), RETURNING);
  }

  /** From boot to the automatic inhibit, with any number of fans and nothing failing. */
  lemma StopComesToAuto(cfg: MotorCore.Config, n: nat) returns (steps: seq<Sup.Step>)
    requires n > 0
    ensures Storeless(SupervisorSafety.Init(cfg, n), steps)
    ensures Stands(SupervisorSafety.Run(SupervisorSafety.Init(cfg, n), steps), Sup.Auto)
  {
    var s := SupervisorSafety.Init(cfg, n);
    Cuts(s);
    ThreeSteps(s, CUTTING[0], ON, ON);
    var s3 := SupervisorSafety.Run(s, CUTTING);
    CallsMotors(s3);
    var s6 := SupervisorSafety.Run(s3, CALLING);
    var rest := SectionSucceeds(s6);
    steps := CUTTING + (CALLING + rest);
    SupAppend(s3, CALLING, rest);
    StorelessAppend(s3, CALLING, rest);
    SupAppend(s, CUTTING, CALLING + rest);
    StorelessAppend(s, CUTTING, CALLING + rest);
  }
}
