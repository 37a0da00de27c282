/** What the tach fault path brings about when nothing disturbs it: inhibits and CLEARs. */
module TachEffects {
  import opened Prelude
  import opened TachActions

  lemma {:induction false} RunAppend(s: State, a: seq<Step>, b: seq<Step>)
    requires Sized(s)
    ensures Sized(Run(s, a)) && Run(s, a + b) == Run(Run(s, a), b)
    decreases |a|
  {
    if a == [] {
      assert a + b == b;
    } else {
      assert (a + b)[0] == a[0] && (a + b)[1..] == a[1..] + b;
      RunAppend(Next(s, a[0]), a[1..], b);
    }
  }

  /** A trace of single steps is a run. */
  lemma {:induction false} RunsReach(s: State, steps: seq<Step>, trace: seq<State>)
    requires |trace| == |steps| + 1 && trace[0] == s
    requires forall i :: 0 <= i < |trace| ==> Sized(trace[i])
    requires forall i :: 0 <= i < |steps| ==> trace[i + 1] == Next(trace[i], steps[i])
    ensures Sized(s) && Run(s, steps) == trace[|steps|]
    decreases |steps|
  {
    if steps != [] { RunsReach(trace[1], steps[1..], trace[1..]); }
  }

  // ---- CLEAR ----

  predicate OthersKept<T(==)>(a: seq<T>, b: seq<T>, f: nat) {
    |b| == |a| && forall g :: 0 <= g < |a| && g != f ==> b[g] == a[g]
  }

  function Cleared(s: State, f: nat): State
    requires Sized(s) && f < |s.faults|
  {
    s.(faults := s.faults[f := Fault(false, false, NoFault, s.faults[f].generation + 1)],
       inhibited := s.inhibited[f := false])
  }

  /**
   * A CLEAR that gets the action mutex and goes through lowers the fan's alarm and latch,
   * starts a new fault generation, lifts the fan's motor inhibit and gives the mutex back.
   * Other fans, notices and the worker are left alone.
   */
  lemma ClearTakesEffect(s: State, t: TaskId, f: nat)
    requires Sized(s) && t in s.clears && s.clears[t].Begun? && s.mutex.Nobody? && f < |s.faults|
    ensures var s' := Run(s, seq(4, _ => ClearStep(t, f)));
            && OthersKept(s.faults, s'.faults, f) && OthersKept(s.inhibited, s'.inhibited, f)
            && !s'.faults[f].alarm && !s'.faults[f].latched && s'.faults[f].cause == NoFault
            && s'.faults[f].generation == s.faults[f].generation + 1 && !s'.inhibited[f]
            && s'.mutex.Nobody? && s'.clears == s.clears - {t} && s'.slots == s.slots
            && s'.worker == s.worker && s'.monitor == s.monitor && s'.stoppedAll == s.stoppedAll
  {
    var step := ClearStep(t, f);
    var s1, s2 := Next(s, step), Next(Next(s, step), step);
    var s3 := Next(s2, step);
    var s4 := Next(s3, step);
    assert s1.clears[t] == Ready(f) && s1.mutex == Operator(t);
    assert s2.clears[t] == MonitorCleared(f) && s2.inhibited == s.inhibited;
    assert s3.clears[t] == Ending && s3.inhibited == Cleared(s, f).inhibited && s3.faults == Cleared(s, f).faults;
    assert s4 == Cleared(s, f).(clears := s.clears - {t});
    assert seq(4, _ => step) == [step, step, step, step];
    RunsReach(s, [step, step, step, step], [s, s1, s2, s3, s4]);
  }

  // ---- the worker ----

  function Work(n: nat, ok: bool): seq<Step> { seq(n, _ => WorkerStep(ok)) }

  /**
   * A notice in hand inhibits its fan's motor if and only if it is of the fault raised
   * now; if the work that goes with the inhibit fails, and only then, everything is
   * stopped. Either way the worker gives the mutex back and scans on.
   */
  lemma NoticeTakesEffect(s: State, ok: bool)
    requires Sized(s) && s.worker.Taken? && s.mutex.Nobody? && s.worker.notice.fan < |s.faults|
    ensures var n, steps := s.worker.notice, if !IsCurrent(s, s.worker.notice) then 3 else if ok then 5 else 6;
            var s' := Run(s, Work(steps, ok));
            && s'.worker == Scanning(s.worker.next, s.worker.todo) && s'.mutex.Nobody? && s'.faults == s.faults
            && OthersKept(s.inhibited, s'.inhibited, n.fan)
            && s'.inhibited[n.fan] == (s.inhibited[n.fan] || IsCurrent(s, n))
            && s'.stoppedAll == (s.stoppedAll || (IsCurrent(s, n) && !ok))
  {
    if IsCurrent(s, s.worker.notice) { CurrentIsActedOn(s, ok); } else { StaleIsDropped(s, ok); }
  }

  /** Up to the decision, and from a Releasing worker back to its scan. */
  lemma WorkerDecides(s: State, ok: bool)
    requires Sized(s) && s.worker.Taken? && s.mutex.Nobody?
    ensures var w, s2 := s.worker, Run(s, Work(2, ok));
            && Sized(s2) && s2 == s.(mutex := TheWorker,
                                     worker := if IsCurrent(s, w.notice) then Checked(w.next, w.todo, w.notice)
                                               else Releasing(w.next, w.todo))
  {
    var step := WorkerStep(ok);
    var s1 := Next(s, step);
    assert Work(2, ok) == [step, step];
    RunsReach(s, [step, step], [s, s1, Next(s1, step)]);
  }

  lemma WorkerReleases(s: State, ok: bool)
    requires Sized(s) && s.worker.Releasing?
    ensures Run(s, Work(1, ok)) == s.(mutex := Nobody, worker := Scanning(s.worker.next, s.worker.todo))
  {
    assert Work(1, ok) == [WorkerStep(ok)];
    RunsReach(s, [WorkerStep(ok)], [s, Next(s, WorkerStep(ok))]);
  }

  /** The inhibit, and the stop of everything if the work that goes with it fails. */
  lemma WorkerInhibits(s: State, ok: bool)
    requires Sized(s) && s.worker.Checked? && s.worker.notice.fan < |s.inhibited|
    ensures var w, s' := s.worker, Run(s, Work(if ok then 2 else 3, ok));
            s' == s.(inhibited := s.inhibited[w.notice.fan := true], stoppedAll := s.stoppedAll || !ok,
                     worker := Releasing(w.next, w.todo))
  {
    var step := WorkerStep(ok);
    var s1 := Next(s, step);
    var s2 := Next(s1, step);
    if ok {
      assert Work(2, ok) == [step, step];
      RunsReach(s, [step, step], [s, s1, s2]);
    } else {
      assert Work(3, ok) == [step, step, step];
      RunsReach(s, [step, step, step], [s, s1, s2, Next(s2, step)]);
    }
  }

  lemma WorkSplits(s: State, a: nat, b: nat, ok: bool)
    requires Sized(s)
    ensures Sized(Run(s, Work(a, ok))) && Run(s, Work(a + b, ok)) == Run(Run(s, Work(a, ok)), Work(b, ok))
  {
    assert Work(a + b, ok) == Work(a, ok) + Work(b, ok);
    RunAppend(s, Work(a, ok), Work(b, ok));
  }

  lemma StaleIsDropped(s: State, ok: bool)
    requires Sized(s) && s.worker.Taken? && s.mutex.Nobody? && !IsCurrent(s, s.worker.notice)
    ensures Run(s, Work(3, ok)) == s.(worker := Scanning(s.worker.next, s.worker.todo))
  {
    WorkerDecides(s, ok);
    WorkerReleases(Run(s, Work(2, ok)), ok);
    WorkSplits(s, 2, 1, ok);
  }

  lemma CurrentIsActedOn(s: State, ok: bool)
    requires Sized(s) && s.worker.Taken? && s.mutex.Nobody? && IsCurrent(s, s.worker.notice)
    ensures Run(s, Work(if ok then 5 else 6, ok))
            == s.(worker := Scanning(s.worker.next, s.worker.todo),
                  inhibited := s.inhibited[s.worker.notice.fan := true], stoppedAll := s.stoppedAll || !ok)
  {
    var n := if ok then 2 else 3;
    WorkerDecides(s, ok);
    var s2 := Run(s, Work(2, ok));
    WorkerInhibits(s2, ok);
    WorkSplits(s2, n, 1, ok);
    WorkerReleases(Run(s2, Work(n, ok)), ok);
    WorkSplits(s, 2, n + 1, ok);
  }

  /** The scan passes the fans that were not notified and takes the pending slot of f. */
  lemma {:induction false} ScanTakes(s: State, f: nat, ok: bool)
    requires Sized(s) && s.worker.Scanning? && s.worker.next <= f < |s.faults| && s.worker.todo == {f}
    requires s.slots[f].pending
    ensures Run(s, Work(f + 1 - s.worker.next, ok))
            == s.(slots := s.slots[f := s.slots[f].(pending := false)],
                  worker := Taken(f + 1, {}, s.slots[f].notice))
    decreases f - s.worker.next
  {
    var n := f + 1 - s.worker.next;
    var s1 := Next(s, WorkerStep(ok));
    assert Work(n, ok)[0] == WorkerStep(ok) && Work(n, ok)[1..] == Work(n - 1, ok);
    assert {f} - {f} == {};
    if s.worker.next < f {
      ScanTakes(s1, f, ok);
    } else {
      assert Run(s1, Work(0, ok)) == s1;
    }
  }

  /** From the latched fault to the notified worker. */
  lemma FaultIsNotified(s: State, f: nat, cause: Cause)
    requires Sized(s) && f < |s.faults| && s.monitor.Sampling? && s.worker.Asleep? && s.bits == {}
    requires cause != NoFault && !s.faults[f].alarm
    ensures var fault := Fault(true, true, cause, s.faults[f].generation + 1);
            Run(s, [Fails(f, cause), MonitorStep, MonitorStep, WorkerStep(true)])
            == s.(faults := s.faults[f := fault], slots := s.slots[f := Slot(true, Notice(f, cause, fault.generation))],
                  worker := Scanning(0, {f}))
  {
    var s1 := Next(s, Fails(f, cause));
    var s2 := Next(s1, MonitorStep);
    var s3 := Next(s2, MonitorStep);
    assert s3.bits == {f};
    var s4 := Next(s3, WorkerStep(true));
    RunsReach(s, [Fails(f, cause), MonitorStep, MonitorStep, WorkerStep(true)], [s, s1, s2, s3, s4]);
  }

  /**
   * The whole path: on a quiet system a confirmed fault of any fan, with any cause, ends in
   * that fan's motor inhibit and in nobody else's.
   */
  lemma FaultStopsItsMotor(n: nat, f: nat, cause: Cause) returns (steps: seq<Step>)
    requires f < n && cause != NoFault
    ensures var s := Run(Init(n), steps);
            && |s.inhibited| == |s.faults| == n && s.inhibited[f] && s.faults[f].latched && s.faults[f].cause == cause
            && !s.stoppedAll && forall g :: 0 <= g < n && g != f ==> !s.inhibited[g]
  {
    var s0, tell := Init(n), [Fails(f, cause), MonitorStep, MonitorStep, WorkerStep(true)];
    FaultIsNotified(s0, f, cause);
    var s1 := Run(s0, tell);
    ScanTakes(s1, f, true);
    var s2 := Run(s1, Work(f + 1, true));
    NoticeTakesEffect(s2, true);
    steps := tell + (Work(f + 1, true) + Work(5, true));
    RunAppend(s1, Work(f + 1, true), Work(5, true));
    RunAppend(s0, tell, Work(f + 1, true) + Work(5, true));
  }
}
