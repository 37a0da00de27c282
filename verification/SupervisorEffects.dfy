/** What an undisturbed enable attempt and an output-command guard bring about. */
module SupervisorEffects {
  import opened Prelude
  import opened SupervisorRun
  import opened SupervisorSafety
  import MotorCore

  const ON := true

  function Steps(t: TaskId, n: nat): seq<Step> { seq(n, _ => Advance(t, ON)) }

  lemma RunsOn(s: State, t: TaskId, n: nat)
    requires n > 0
    ensures Run(s, Steps(t, n)) == Run(Next(s, Advance(t, ON)), Steps(t, n - 1))
  {
    assert Steps(t, n)[0] == Advance(t, ON) && Steps(t, n)[1..] == Steps(t, n - 1);
  }

  predicate EnablingAt(s: State, t: TaskId, at: Enabling) { t in s.jobs && s.jobs[t].op == Enable(at) }

  /** Up to the write: the attempt goes on only if no stop is claimed and the motors allow it. */
  lemma EnableAsks(s: State, t: TaskId)
    requires EnablingAt(s, t, EWant) && Available(s, t)
    ensures var s4 := Next(Next(Next(Next(s, Advance(t, ON)), Advance(t, ON)), Advance(t, ON)), Advance(t, ON));
            && s4.output == s.output && s4.depth == s.depth && s4.motor == s.motor
            && (if s.depth == 0 && MotorCore.OutputAllowed(s.motor.core) then EnablingAt(s4, t, EDrive)
                else EnablingAt(s4, t, EGive) || (t in s4.jobs && s4.jobs[t].op.Idle?))
  {
    var s1 := Next(s, Advance(t, ON));
    assert EnablingAt(s1, t, ECheck) && s1.output == s.output && s1.depth == s.depth && s1.gen == s.gen;
    assert s1.motor == s.motor;
    var s2 := Next(s1, Advance(t, ON));
    assert EnablingAt(s2, t, if s.depth == 0 then EAsk(s.gen) else EGive) && s2 == s1.(jobs := s2.jobs);
    var s3 := Next(s2, Advance(t, ON));
    assert s3.output == s.output && s3.depth == s.depth && s3.gen == s.gen && s3.motor == s.motor;
  }

  lemma EnableDrives(s: State, t: TaskId)
    requires t in s.jobs
    requires EnablingAt(s, t, EDrive) || EnablingAt(s, t, EGive) || s.jobs[t].op.Idle?
    requires EnablingAt(s, t, EDrive) ==> MotorCore.OutputAllowed(s.motor.core)
    ensures var s7 := Next(Next(Next(s, Advance(t, ON)), Advance(t, ON)), Advance(t, ON));
            && t in s7.jobs && s7.jobs[t].op.Idle?
            && s7.output == (EnablingAt(s, t, EDrive) || s.output)
  {
    var s1 := Next(s, Advance(t, ON));
    assert s1.motor == s.motor;
    var s2 := Next(s1, Advance(t, ON));
    assert s2.output == s1.output;
  }

  /**
   * An enable attempt that nobody disturbs, and whose write works, turns the output on if
   * and only if no stop is claimed and the motor module allows it; otherwise the output
   * stays as it was.
   */
  lemma EnableTurnsOn(s: State, t: TaskId)
    requires EnablingAt(s, t, EWant) && Available(s, t)
    ensures var s' := Run(s, Steps(t, 7));
            && t in s'.jobs && s'.jobs[t].op.Idle?
            && s'.output == (s.output || (s.depth == 0 && MotorCore.OutputAllowed(s.motor.core)))
  {
    var s4 := AfterFour(s, t, 3);
    AfterThree(s4, t);
    EnableAsks(s, t);
    EnableDrives(s4, t);
  }

  lemma AfterFour(s: State, t: TaskId, n: nat) returns (s4: State)
    ensures s4 == Next(Next(Next(Next(s, Advance(t, ON)), Advance(t, ON)), Advance(t, ON)), Advance(t, ON))
    ensures Run(s, Steps(t, n + 4)) == Run(s4, Steps(t, n))
  {
    var s1 := Next(s, Advance(t, ON));
    var s2 := Next(s1, Advance(t, ON));
    var s3 := Next(s2, Advance(t, ON));
    s4 := Next(s3, Advance(t, ON));
    RunsOn(s, t, n + 4);
    RunsOn(s1, t, n + 3);
    RunsOn(s2, t, n + 2);
    RunsOn(s3, t, n + 1);
  }

  lemma AfterThree(s: State, t: TaskId)
    ensures Run(s, Steps(t, 3)) == Next(Next(Next(s, Advance(t, ON)), Advance(t, ON)), Advance(t, ON))
  {
    var s1 := Next(s, Advance(t, ON));
    var s2 := Next(s1, Advance(t, ON));
    RunsOn(s, t, 3);
    RunsOn(s1, t, 2);
    RunsOn(s2, t, 1);
    assert Steps(t, 0) == [];
  }

  /**
   * A task that asks for the output-command guard and finds the mutex free gets it if and
   * only if no stop is claimed; refused, it leaves the mutex as it found it.
   */
  lemma GuardIsGranted(s: State, t: TaskId, ok: bool)
    requires JobOf(s, t).op.Idle? && Available(s, t) && (JobOf(s, t).guards > 0 <==> s.mutex == Some(t))
    ensures var s' := Next(Next(s, BeginGuard(t)), Advance(t, ok));
            && t in s'.jobs && s'.jobs[t].op.Idle? && s'.output == s.output && s'.motor == s.motor
            && s'.jobs[t].guards == JobOf(s, t).guards + (if s.depth == 0 then 1 else 0)
            && s'.mutex == (if s.depth == 0 then Some(t) else s.mutex)
  {
    var s1 := Next(s, BeginGuard(t));
    assert s1.jobs[t] == JobOf(s, t).(op := Checking) && s1.mutex == Some(t) && s1.motor == s.motor;
  }

  /** Giving a guard back frees the mutex exactly when it was the outermost. */
  lemma GuardIsGivenBack(s: State, t: TaskId)
    requires t in s.jobs && s.jobs[t].op.Idle? && s.jobs[t].guards > 0
    ensures var s' := Next(s, EndGuard(t));
            && t in s'.jobs && s'.jobs[t] == Job(s.jobs[t].guards - 1, Idle)
            && s'.mutex == (if s.jobs[t].guards == 1 then None else Some(t))
            && s'.depth == s.depth && s'.output == s.output && s'.motor == s.motor
  {
  }
}
