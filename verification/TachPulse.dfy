/**
 * read_pulse_delta of main/tach_monitor.c against a pulse counter whose every driver
 * call may fail without effect, and into which pulses arrive at any moment.
 */
module TachPulse {
  import opened BitArith
  import opened Prelude

  const INT_MAX: int := 0x7FFF_FFFF

  /** Reset the hardware count when the last reading is at least this large. */
  const RESET_THRESHOLD: int := INT_MAX / 2

  /** The 32-bit int the driver reports for an accumulated count. */
  function Reading(count: nat): (r: int)
    ensures -INT_MAX - 1 <= r <= INT_MAX
  {
    var low := count % WORD;
    if low <= INT_MAX then low else low - WORD
  }

  /** Readings that do not go down tell the pulses in between, modulo 2^32. */
  lemma ReadingsTellGain(count: nat, gain: nat)
    requires Reading(count + gain) >= Reading(count)
    ensures Reading(count + gain) - Reading(count) == gain % WORD
  {
    var low := gain % WORD;
    SumModulo(count, low);
    WholeTurnsVanish(count, gain);
  }

  /** Below the reset threshold a reading cannot fall unless more than 2^30 pulses come in one interval. */
  lemma ReadingsDoNotFall(count: nat, gain: nat)
    requires 0 <= Reading(count) < RESET_THRESHOLD && gain <= 0x4000_0000
    ensures Reading(count + gain) == Reading(count) + gain
  {
    SumModulo(count, gain);
  }

  lemma WholeTurnsVanish(count: nat, gain: nat)
    ensures (count + gain) % WORD == (count + gain % WORD) % WORD
  {
    var q, n := gain / WORD, count + gain % WORD;
    assert count + gain == (q + n / WORD) * WORD + n % WORD;
    RemainderIs(count + gain, q + n / WORD, n % WORD);
  }

  lemma SumModulo(count: nat, gain: nat)
    requires gain < WORD
    ensures var before := count % WORD;
            (count + gain) % WORD == if before + gain < WORD then before + gain else before + gain - WORD
  {
    var q, before := count / WORD, count % WORD;
    assert count + gain == q * WORD + before + gain;
    if before + gain < WORD {
      RemainderIs(count + gain, q, before + gain);
    } else {
      RemainderIs(count + gain, q + 1, before + gain - WORD);
    }
  }

  /** What the driver calls of one sample would return. */
  datatype Calls = Calls(stops: bool, sees: bool, clears: bool, starts: bool)

  /** The calls a sample of a running counter needs: the reset is due at the threshold. */
  predicate Works(calls: Calls, previous: int) {
    calls.sees && (previous >= RESET_THRESHOLD ==> calls.stops && calls.clears && calls.starts)
  }

  class PulseCounter {
    /** The PCNT unit: whether it runs and what it has accumulated since the last clear. */
    var running: bool
    var count: nat

    /** The module's fields of the same names. */
    var unitStarted: bool
    var previous: int
    var baselineValid: bool

    /** Pulses the running counter ever counted; at the last call's reading, if it left a baseline. */
    ghost var total: nat
    ghost var baseline: Option<nat>

    /** A baseline is the reading of the count at the instant the last call sampled it. */
    ghost predicate Valid()
      reads this
    {
      && running == unitStarted && baselineValid == baseline.Some?
      && (baseline.Some? ==>
            && running && baseline.value <= total && total - baseline.value <= count && previous >= 0
            && previous == Reading(count - (total - baseline.value)))
    }

    constructor ()
      ensures Valid() && baseline == None && running
    {
      running, count, unitStarted, previous, baselineValid := true, 0, true, 0, false;
      total, baseline := 0, None;
    }

    /** Time passes; a running counter may count pulses. */
    method PulsesArrive()
      modifies this`count, this`total
      ensures count - old(count) == total - old(total) >= 0
      ensures !running ==> count == old(count)
    {
      var pulses :| pulses >= 0;
      if running { count, total := count + pulses, total + pulses; }
    }

    method Stop(works: bool) returns (ok: bool)
      modifies this`running
      ensures ok == works
      ensures running == (old(running) && !ok)
    {
      ok := works;
      if ok { running := false; }
    }

    method Start(works: bool) returns (ok: bool)
      modifies this`running
      ensures ok == works
      ensures running == (old(running) || ok)
    {
      ok := works;
      if ok { running := true; }
    }

    method Clear(works: bool) returns (ok: bool)
      modifies this`count
      ensures ok == works
      ensures count == if ok then 0 else old(count)
    {
      ok := works;
      if ok { count := 0; }
    }

    method GetCount(works: bool) returns (ok: bool, value: int)
      ensures ok == works && (ok ==> value == Reading(count))
    {
      ok := works;
      value := if ok then Reading(count) else 0;
    }

    /** The branch for a unit that is not running: bring it up, with no baseline yet. */
    method BringUp(calls: Calls)
      requires Valid() && !unitStarted
      modifies this
      ensures Valid() && baseline == None && total == old(total)
      ensures unitStarted == (calls.clears && calls.starts)
      ensures unitStarted ==> previous == 0 && count == 0
    {
      baselineValid, baseline := false, None;
      var cleared := Clear(calls.clears);
      if !cleared { return; }
      previous := 0;
      var started := Start(calls.starts);
      if !started { return; }
      unitStarted := true;
      baselineValid := false;
    }

    /** The hardware count at this call's sampling instant, when that many pulses have come by then. */
    ghost function CountAt(sampled: nat): int
      reads this
    {
      count + (sampled - total)
    }

    /**
     * read_pulse_delta: ESP_OK if and only if the previous call left a baseline, every
     * driver call it needs works, and the driver's reading did not fall. The delta is what
     * the running counter gained from that call's sampling instant to this one's (sampled),
     * modulo the 2^32 of the driver's count: exact if and only if fewer pulses came.
     * Whatever failed, the next delta cannot span two intervals, because a call that reports
     * nothing leaves its own baseline or none; and one that succeeds leaves its own.
     */
    method ReadPulseDelta(calls: Calls) returns (ok: bool, delta: int, ghost sampled: nat)
      requires Valid()
      modifies this
      ensures Valid()
      ensures old(total) <= sampled <= total
      ensures ok <==> old(baseline).Some? && Works(calls, old(previous))
                      && Reading(old(CountAt(sampled))) >= old(previous)
      ensures ok ==> delta == (sampled - old(baseline).value) % WORD
      ensures ok ==> (delta == sampled - old(baseline).value <==> sampled - old(baseline).value < WORD)
      ensures baseline.Some? ==> baseline.value == sampled
      ensures ok ==> baseline == Some(sampled)
      ensures (old(unitStarted) && Works(calls, old(previous)) && old(previous) >= 0
               && Reading(old(CountAt(sampled))) >= old(previous)) ==> baseline == Some(sampled)
      ensures !old(unitStarted) ==> unitStarted == (calls.clears && calls.starts)
      ensures !old(unitStarted) && unitStarted ==> previous == 0 && count == 0
    {
      ok, delta, sampled := false, 0, total;
      if !unitStarted {
        BringUp(calls);
        return;
      }
      PulsesArrive();
      sampled := total;
      if previous >= RESET_THRESHOLD {
        var stopped := Stop(calls.stops);
        if !stopped {
          baselineValid, baseline := false, None;
          return;
        }
        unitStarted := false;
        ok, delta := ReadStopped(calls);
      } else {
        ok, delta := ReadRunning(calls);
      }
    }

    /** The usual sample: read, and rebase on what was read. */
    method ReadRunning(calls: Calls) returns (ok: bool, delta: int)
      requires Valid() && unitStarted
      modifies this
      ensures Valid() && total >= old(total)
      ensures ok <==> old(baseline).Some? && calls.sees && Reading(old(count)) >= old(previous)
      ensures calls.sees && Reading(old(count)) >= 0 ==> baseline == Some(old(total))
      ensures ok ==> delta == (old(total) - old(baseline).value) % WORD
      ensures baseline.Some? ==> baseline.value == old(total)
    {
      var wasValid := baselineValid;
      var read, value := GetCount(calls.sees);
      var grew := read && value >= previous;
      ok, delta := false, if grew then value - previous else 0;
      if wasValid && grew {
        ReadingsTellGain(count - (total - baseline.value), total - baseline.value);
      }
      if !read {
        baselineValid, baseline := false, None;
        return;
      }
      previous := value;
      baselineValid := value >= 0;
      baseline := if value >= 0 then Some(total) else None;
      ok := wasValid && grew;
    }

    /** The sample that also resets the count: the unit is stopped, read, cleared and restarted. */
    method ReadStopped(calls: Calls) returns (ok: bool, delta: int)
      requires !running && !unitStarted && baselineValid == baseline.Some?
      requires baseline.Some? ==>
                 && baseline.value <= total && total - baseline.value <= count
                 && previous == Reading(count - (total - baseline.value))
      modifies this
      ensures Valid() && total >= old(total)
      ensures ok <==> old(baseline).Some? && calls.sees && calls.clears && calls.starts
                      && Reading(old(count)) >= old(previous)
      ensures calls.sees && calls.clears && calls.starts && Reading(old(count)) >= old(previous) ==>
                baseline == Some(old(total))
      ensures ok ==> delta == (old(total) - old(baseline).value) % WORD
      ensures baseline.Some? ==> baseline.value == old(total)
    {
      var wasValid := baselineValid;
      var read, value := GetCount(calls.sees);
      var grew := read && value >= previous;
      delta := if grew then value - previous else 0;
      if wasValid && grew {
        ReadingsTellGain(count - (total - baseline.value), total - baseline.value);
      }
      ghost var instant := total;
      var cleared := Clear(calls.clears);
      if cleared { previous := 0; } else if read { previous := value; }
      var started := Start(calls.starts);
      if started { unitStarted := true; }
      baselineValid := read && grew && cleared && started;
      baseline := if baselineValid then Some(instant) else None;
      ok := read && wasValid && grew && cleared && started;
    }
  }
}
