/**
 * main/safety_supervisor.c in place over the motor module's own object. The
 * methods run without interference (SupervisorRun has the interleavings); GPIO
 * writes and application callbacks may fail.
 */
module SupervisorControl {
  import opened Prelude
  import opened MotorCore
  import opened MotorControl
  import opened SupervisorRun

  /** What the calls of one transaction would return: GPIO write, drivers, callbacks. */
  datatype Answers = Answers(
    off: bool, first: seq<Calls>, automatic: bool, verify: seq<Calls>,
    fallback: seq<Calls>, persistence: bool, late: seq<Calls>)
  {
    predicate Fits(n: nat) { |first| == |verify| == |fallback| == |late| == n }
  }

  predicate DriversWork(calls: seq<Calls>) { forall i :: 0 <= i < |calls| ==> AllWork(calls[i]) }

  /** No call that the transaction needs fails. */
  predicate AllAnswered(a: Answers, action: Action, clear: bool) {
    && a.off && DriversWork(a.first) && a.automatic
    && (action.StopVerified? ==> DriversWork(a.verify)) && (clear ==> a.persistence)
  }

  class Supervisor {
    const motors: MotorBank
    var depth: nat
    var generation: nat
    var output: bool

    ghost predicate Valid()
      reads this, motors, motors.fans, motors.channels
    {
      motors.Valid()
    }

    constructor (motors: MotorBank)
      requires motors.Valid()
      ensures Valid() && this.motors == motors && depth == 0 && !output
    {
      this.motors := motors;
      depth, generation, output := 0, 0, false;
    }

    /** Drives the interlock line; a failed GPIO write leaves it as it was. */
    method InterlockDrive(enabled: bool, works: bool) returns (ok: bool)
      modifies this`output
      ensures ok == works && output == if works then enabled else old(output)
    {
      if works { output := enabled; }
      ok := works;
    }

    predicate WiresZero()
      reads this, motors, motors.channels
    {
      forall i :: 0 <= i < motors.channels.Length ==> motors.channels[i].wire == Some(0)
    }

    /** The motor module's counters leave room for the stops of one transaction. */
    predicate Roomy()
      reads this, motors
    {
      motors.stopDepth < UINT32_MAX && motors.maintenanceDepth < UINT32_MAX
    }

    /** One guarded motor stop of the transaction. */
    method StopMotors(action: Action, which: Which, clear: bool, calls: seq<Calls>) returns (ok: bool)
      requires Valid() && |calls| == motors.fans.Length
      modifies motors, motors.fans, motors.channels
      ensures Valid() && motors.stopDepth == old(motors.stopDepth)
      ensures ok ==> WiresZero()
      ensures old(motors.Refuses(SectionKind(action, which))) ==> !ok && motors.View() == old(motors.View())
      ensures !old(motors.Refuses(SectionKind(action, which))) ==>
                && AllTargetsZero(motors.View()) && (clear ==> AllManualZero(motors.View()))
                && InForce(motors.View(), SectionKind(action, which)) && (DriversWork(calls) ==> ok)
      ensures old(motors.globalInhibited) ==> motors.globalInhibited
      ensures motors.maintenanceDepth ==
              if SectionKind(action, which) == Maintenance && !old(motors.Refuses(Maintenance))
              then old(motors.maintenanceDepth) + 1 else old(motors.maintenanceDepth)
    {
      ghost var results;
      ok, results := motors.StopAll(SectionKind(action, which), clear, which == Verify, calls);
    }

    /** The interlock, the first motor stop, the scheduler and, for OTA, the verified zero. */
    method FirstSteps(action: Action, clear: bool, a: Answers)
      returns (interlock: bool, maintenance: bool, motor: bool, automatic: bool)
      requires Valid() && a.Fits(motors.fans.Length)
      modifies this`output, motors, motors.fans, motors.channels
      ensures Valid() && motors.stopDepth == old(motors.stopDepth)
      ensures interlock == a.off && output == if a.off then false else old(output)
      ensures automatic == a.automatic
      ensures maintenance && motor && automatic ==> WiresZero()
      ensures old(Roomy()) ==> AllTargetsZero(motors.View()) && (clear ==> AllManualZero(motors.View()))
      ensures maintenance && motor ==> AllTargetsZero(motors.View()) && (clear ==> AllManualZero(motors.View()))
      ensures old(Roomy()) && DriversWork(a.first) && (action.StopVerified? ==> DriversWork(a.verify)) ==>
                maintenance && motor
      ensures motor && Durable(action) ==> InForce(motors.View(), ActionKind(action))
      ensures old(motors.globalInhibited) ==> motors.globalInhibited
      ensures motors.maintenanceDepth == old(motors.maintenanceDepth) ||
              (!Durable(action) && motors.maintenanceDepth == old(motors.maintenanceDepth) + 1)
      ensures maintenance && !Durable(action) ==> motors.maintenanceDepth == old(motors.maintenanceDepth) + 1
    {
      interlock := InterlockDrive(false, a.off);
      var first := StopMotors(action, First, clear, a.first);
      automatic := a.automatic;
      motor, maintenance := true, true;
      if Durable(action) { motor := first; } else { maintenance := first; }
      if action.StopVerified? && maintenance && automatic {
        motor := StopMotors(action, Verify, clear, a.verify);
      }
    }

    /** Escalation to the global latch, and the acknowledged save of cleared targets. */
    method LastSteps(action: Action, clear: bool, safe: bool, a: Answers)
      returns (fallback: Option<bool>, persistence: bool)
      requires Valid() && a.Fits(motors.fans.Length)
      modifies motors, motors.fans, motors.channels
      ensures Valid() && motors.stopDepth == old(motors.stopDepth)
      ensures persistence == (!clear || a.persistence)
      ensures !Durable(action) && !(safe && persistence) ==> motors.globalInhibited || fallback == Some(false)
      ensures fallback == Some(true) ==> motors.globalInhibited
      ensures (Durable(action) || safe) && persistence ==> fallback == None
      ensures fallback == Some(true) ==> AllTargetsZero(motors.View()) && (clear ==> AllManualZero(motors.View()))
      ensures fallback == None ==> motors.View() == old(motors.View()) && (old(WiresZero()) ==> WiresZero())
    {
      fallback, persistence := None, true;
      if !Durable(action) && !safe {
        var latched := StopMotors(action, Fallback, clear, a.fallback);
        fallback := Some(latched);
      }
      if clear {
        persistence := a.persistence;
        if !Durable(action) && !persistence && fallback != Some(false) {
          var latched := StopMotors(action, Late, true, a.late);
          fallback := Some(latched);
        }
      }
    }

    /** No target is left, nor a manual one if it was to be cleared. */
    ghost predicate Stopped(clear: bool)
      reads motors, motors.fans, motors.channels
    {
      AllTargetsZero(motors.View()) && (clear ==> AllManualZero(motors.View()))
    }

    /** Everything between the claim of the stop and its end. */
    method Transaction(action: Action, clear: bool, a: Answers) returns (ok: bool, ghost out: Outcome)
      requires Valid() && a.Fits(motors.fans.Length)
      modifies this`output, motors, motors.fans, motors.channels
      ensures Valid() && ok == ResultOk(out) && output == if a.off then false else old(output)
      ensures ok ==> a.off && a.automatic && (clear ==> a.persistence) && WiresZero() && Stopped(clear)
      ensures old(Roomy()) && AllAnswered(a, action, clear) ==> ok
      ensures ok && Durable(action) ==> InForce(motors.View(), ActionKind(action))
      ensures ok && !Durable(action) ==> motors.maintenanceDepth == old(motors.maintenanceDepth) + 1
      ensures !ok && !Durable(action) ==> motors.globalInhibited || out.fallback == Some(false)
      ensures out.fallback == Some(true) ==> motors.globalInhibited && Stopped(clear)
    {
      var interlock, maintenance, motor, automatic := FirstSteps(action, clear, a);
      var safe := interlock && maintenance && motor && automatic;
      var fallback, persistence := LastSteps(action, clear, safe, a);
      ok := safe && fallback != Some(false) && persistence;
      out := Outcome(interlock, maintenance, motor, false, automatic, fallback, persistence);
    }

    /**
     * stop_all_internal. ESP_OK means: interlock off, every wire and target zero,
     * and the inhibit the action asked for in force. It fails only if one of the calls
     * it needs failed, and each such failure makes it fail. Whatever failed, the output
     * was driven off if the GPIO worked, and every target is zero. A temporary stop that
     * fails anywhere ends latched globally, unless the motor module refused that too.
     */
    method StopAll(action: Action, clear: bool, a: Answers) returns (ok: bool, ghost out: Outcome)
      requires Valid() && a.Fits(motors.fans.Length)
      modifies this, motors, motors.fans, motors.channels
      ensures Valid() && depth == old(depth) && generation == old(generation) + 1
      ensures ok == ResultOk(out)
      ensures output == if a.off then false else old(output)
      ensures ok ==> a.off && a.automatic && (clear ==> a.persistence)
      ensures old(Roomy()) && AllAnswered(a, action, clear) ==> ok
      ensures ok ==> WiresZero() && Stopped(clear)
      ensures ok && Durable(action) ==> InForce(motors.View(), ActionKind(action))
      ensures ok && action.StopPlain? ==> motors.maintenanceDepth == old(motors.maintenanceDepth)
      ensures ok && action.StopVerified? ==> motors.maintenanceDepth == old(motors.maintenanceDepth) + 1
      ensures !ok && !Durable(action) ==> motors.globalInhibited || out.fallback == Some(false)
      ensures out.fallback == Some(true) ==> motors.globalInhibited && Stopped(clear)
    {
      depth, generation := depth + 1, generation + 1;
      ok, out := Transaction(action, clear, a);
      if action.StopPlain? && ok { motors.ReleaseMaintenance(); }
      depth := depth - 1;
    }

    /** Motor-side stops of other tasks that happen while this module waits for the motor lock. */
    method OtherStops(raised: bool)
      requires Valid()
      modifies motors, motors.fans
      ensures Valid() && motors.stopDepth == old(motors.stopDepth)
      ensures !raised ==> motors.View() == old(motors.View())
    {
      if raised {
        var kind: Kind := *;
        var clear: bool := *;
        var prev, gens := motors.BeginStop(kind, clear);
      }
    }

    /**
     * Turns the output on exactly if the motor module allows it, asked before and after,
     * no stop is under way and the write works; raised says whether a motor-side stop
     * races with it. When the second answer is no the output is taken back, which only a
     * failing write prevents.
     */
    method EnableOutputIfSafe(works: bool, undoes: bool, raised: bool) returns (on: bool)
      requires Valid()
      modifies this`output, motors, motors.fans
      ensures Valid()
      ensures on <==> works && depth == 0 && old(MotorCore.OutputAllowed(motors.View()))
                      && MotorCore.OutputAllowed(motors.View())
      ensures !raised ==> motors.View() == old(motors.View())
      ensures on ==> output
      ensures !on && undoes ==> !output || output == old(output)
      ensures !on && output && !old(output) ==> works && !undoes && !MotorCore.OutputAllowed(motors.View())
    {
      var attempt := generation;
      var allowed := motors.OutputAllowed();
      if depth != 0 || !allowed { return false; }
      var driven := false;
      if depth == 0 && attempt == generation { driven := InterlockDrive(true, works); }
      if !driven { return false; }
      OtherStops(raised);
      allowed := motors.OutputAllowed();
      if !allowed {
        var undone := InterlockDrive(false, undoes);
        return false;
      }
      return true;
    }
  }
}
