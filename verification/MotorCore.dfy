/**
 * The part of main/motor_control.c that s_motor_lock protects: targets, ramp
 * position, generations and inhibit latches. Every function below is one
 * critical section; MotorRun interleaves them with the RMT driver calls and
 * class MotorControl performs them in place.
 */
module MotorCore {
  import opened Prelude
  import opened Policy

  /** Validated configuration (checked by motor_control_init). */
  datatype Config = Config(minSpin: nat, rampStep: nat, errorLimit: nat) {
    predicate Valid() {
      1 <= minSpin <= 100 && 1 <= rampStep <= 20 && 1 <= errorLimit <= 65535
    }
  }

  datatype Fan = Fan(
    target: nat, current: nat, throttle: nat, applied: nat, manual: nat,
    generation: nat, errors: nat, faulted: bool, tachInhibited: bool, accepted: nat)

  datatype Kind = Plain | Global | Maintenance | Communication | Rmt | TachAll

  datatype Core = Core(
    stopDepth: nat, global: bool, maintenance: nat, communication: bool, rmt: bool,
    faultPending: bool, fans: seq<Fan>)

  predicate ValidFan(c: Core, f: int) { 0 <= f < |c.fans| }

  // ---- authorization of targets ----

  predicate SourceOpen(c: Core) {
    c.stopDepth == 0 && !c.global && c.maintenance == 0 && !c.rmt
  }

  predicate ManualAllowed(c: Core, f: int) {
    ValidFan(c, f) && SourceOpen(c) && !c.fans[f].faulted && !c.fans[f].tachInhibited
  }

  predicate AutomaticAllowed(c: Core, f: int) {
    ManualAllowed(c, f) && !c.communication
  }

  function Increment32(n: nat): nat { if n < UINT32_MAX then n + 1 else n }

  function RequestManual(c: Core, f: int, pct: nat): Option<Core> {
    if pct > 100 || !ManualAllowed(c, f) then None else
    var fan := c.fans[f];
    Some(c.(communication := false,
            fans := c.fans[f := fan.(manual := pct, target := pct,
                                     accepted := Increment32(fan.accepted))]))
  }

  function RequestAutomatic(c: Core, f: int, pct: nat): Option<Core> {
    if pct > 100 || !AutomaticAllowed(c, f) then None
    else Some(c.(fans := c.fans[f := c.fans[f].(target := pct)]))
  }

  /** A schedule start also captures the manual target it displaces. */
  function RequestScheduled(c: Core, f: int, pct: nat): Option<(Core, nat)> {
    if pct > 100 || !AutomaticAllowed(c, f) then None
    else Some((c.(fans := c.fans[f := c.fans[f].(target := pct)]), c.fans[f].manual))
  }

  predicate RestoreAllowed(c: Core, targets: seq<nat>) {
    && |targets| == |c.fans| && SourceOpen(c) && !c.communication
    && forall i :: 0 <= i < |c.fans| ==>
         targets[i] <= 100 && !c.fans[i].faulted && !c.fans[i].tachInhibited
  }

  function RestoredFan(fan: Fan, target: nat): Fan { fan.(manual := target, target := target) }

  function RestoreAll(c: Core, targets: seq<nat>): (r: Option<Core>)
  {
    if !RestoreAllowed(c, targets) then None
    else Some(c.(fans := seq(|c.fans|, i requires 0 <= i < |c.fans| =>
                                         RestoredFan(c.fans[i], targets[i]))))
  }

  // ---- stopping ----

  /** First section of stop_all_internal: claim the depth (and the maintenance count). */
  function ClaimStop(c: Core, kind: Kind): Option<Core> {
    if (kind == Maintenance && c.maintenance >= UINT32_MAX) || c.stopDepth >= UINT32_MAX then None
    else Some(c.(stopDepth := c.stopDepth + 1,
                 maintenance := if kind == Maintenance then c.maintenance + 1 else c.maintenance))
  }

  function StoppedFan(fan: Fan, kind: Kind, clear: bool): Fan {
    fan.(target := 0, current := 0, throttle := 0,
         manual := if clear then 0 else fan.manual,
         tachInhibited := fan.tachInhibited || kind == TachAll,
         generation := fan.generation + 1)
  }

  /** Second section: latch the inhibit and zero every controlled fan. */
  function EnterStop(c: Core, kind: Kind, clear: bool): Core {
    c.(global := c.global || kind == Global,
       communication := c.communication || kind == Communication,
       rmt := c.rmt || kind == Rmt,
       fans := seq(|c.fans|, i requires 0 <= i < |c.fans| => StoppedFan(c.fans[i], kind, clear)))
  }

  /** The inhibit a stop of this kind asks for is in force. */
  predicate InForce(c: Core, kind: Kind) {
    match kind
    case Plain => true
    case Global => c.global
    case Maintenance => c.maintenance > 0
    case Communication => c.communication
    case Rmt => c.rmt
    case TachAll => forall i :: 0 <= i < |c.fans| ==> c.fans[i].tachInhibited
  }

  function DropStop(c: Core): Core {
    if c.stopDepth > 0 then c.(stopDepth := c.stopDepth - 1) else c
  }

  /** Roll the ramp position back unless another section superseded it. */
  function Rollback(cfg: Config, c: Core, f: nat, previous: nat, generation: nat): Core
    requires f < |c.fans|
  {
    var fan := c.fans[f];
    if fan.generation != generation then c
    else c.(fans := c.fans[f := fan.(current := previous,
                                     throttle := PctToDshot(previous, cfg.minSpin),
                                     generation := fan.generation + 1)])
  }

  function StopOne(c: Core, f: int, clear: bool): Option<Core> {
    if !ValidFan(c, f) then None else
    var fan := c.fans[f];
    Some(c.(fans := c.fans[f := fan.(target := 0, current := 0, throttle := 0,
                                     manual := if clear then 0 else fan.manual,
                                     generation := fan.generation + 1)]))
  }

  function SetTachInhibit(c: Core, f: int, inhibited: bool): Option<Core> {
    if !ValidFan(c, f) then None else
    var fan := c.fans[f].(tachInhibited := inhibited);
    var stopped := fan.(target := 0, manual := 0, current := 0, throttle := 0,
                        generation := fan.generation + 1);
    Some(c.(fans := c.fans[f := if inhibited then stopped else fan]))
  }

  function ClearMaintenance(c: Core): Core {
    if c.maintenance > 0 then c.(maintenance := c.maintenance - 1) else c
  }

  predicate OutputAllowed(c: Core) {
    && c.stopDepth == 0 && !c.global && c.maintenance == 0 && !c.communication && !c.rmt
    && forall i :: 0 <= i < |c.fans| ==> !c.fans[i].faulted
  }

  // ---- ramping and RMT results ----

  /** One bounded step of the ramp from current towards target. */
  function RampStep(current: nat, target: nat, step: nat): (next: nat)
    ensures current <= target ==> current <= next <= target
    ensures target <= current ==> target <= next <= current
    ensures current != target && step > 0 ==> next != current
    ensures next <= current + step && current <= next + step
    ensures next == target || next - current == step || current - next == step
  {
    if current < target then (if target - current > step then current + step else target)
    else (if current - target > step then current - step else target)
  }

  function RampTick(cfg: Config, c: Core, f: nat): Core
    requires f < |c.fans|
  {
    var fan := c.fans[f];
    if fan.current == fan.target then c else
    var next := RampStep(fan.current, fan.target, cfg.rampStep);
    c.(fans := c.fans[f := fan.(current := next, throttle := PctToDshot(next, cfg.minSpin),
                                generation := fan.generation + 1)])
  }

  /** The sampling section of apply_motor, with its coercion of reserved values. */
  function SampleApply(cfg: Config, c: Core, f: nat): (Core, nat, nat)
    requires f < |c.fans|
  {
    var fan := c.fans[f];
    if 0 < fan.throttle < THROTTLE_MIN
    then (c.(fans := c.fans[f := fan.(throttle := 0)]), 0, 0)
    else (c, fan.throttle, EffectivePct(fan.current, cfg.minSpin))
  }

  function RecordResult(cfg: Config, c: Core, f: nat, ok: bool, applied: nat): Core
    requires f < |c.fans|
  {
    var fan := c.fans[f];
    if ok then c.(fans := c.fans[f := fan.(errors := 0, applied := applied)])
    else
      var errors := if fan.errors < 65535 then fan.errors + 1 else fan.errors;
      if errors < cfg.errorLimit then c.(fans := c.fans[f := fan.(errors := errors)])
      else c.(rmt := true, faultPending := true,
              fans := c.fans[f := fan.(errors := errors, faulted := true, target := 0,
                                       generation := fan.generation + 1)])
  }

  // ---- what every section keeps ----

  predicate AllTargetsZero(c: Core) { forall i :: 0 <= i < |c.fans| ==> c.fans[i].target == 0 }

  predicate AllManualZero(c: Core) { forall i :: 0 <= i < |c.fans| ==> c.fans[i].manual == 0 }

  predicate FanValid(cfg: Config, fan: Fan) {
    && fan.target <= 100 && fan.current <= 100 && fan.manual <= 100 && fan.applied <= 100
    && fan.throttle == PctToDshot(fan.current, cfg.minSpin)
    && (fan.tachInhibited || fan.faulted ==> fan.target == 0)
  }

  /** Inhibits imply zero targets; throttle always encodes the ramp position. */
  predicate CoreValid(cfg: Config, c: Core) {
    && cfg.Valid()
    && (forall i :: 0 <= i < |c.fans| ==> FanValid(cfg, c.fans[i]))
    && (c.global || c.communication ==> AllTargetsZero(c))
  }

  lemma RequestsKeepCore(cfg: Config, c: Core, f: int, pct: nat, targets: seq<nat>)
    requires CoreValid(cfg, c)
    ensures RequestManual(c, f, pct).Some? ==> CoreValid(cfg, RequestManual(c, f, pct).value)
    ensures RequestAutomatic(c, f, pct).Some? ==> CoreValid(cfg, RequestAutomatic(c, f, pct).value)
    ensures RequestScheduled(c, f, pct).Some? ==> CoreValid(cfg, RequestScheduled(c, f, pct).value.0)
    ensures RestoreAll(c, targets).Some? ==> CoreValid(cfg, RestoreAll(c, targets).value)
  {
  }

  /** Every fan but f is as it was. */
  predicate OthersKept(c: Core, c': Core, f: int) {
    |c'.fans| == |c.fans| && forall i :: 0 <= i < |c.fans| && i != f ==> c'.fans[i] == c.fans[i]
  }

  /** No inhibit, stop or pending report differs, except perhaps the communication inhibit. */
  predicate LatchesKept(c: Core, c': Core) {
    && c'.stopDepth == c.stopDepth && c'.global == c.global && c'.maintenance == c.maintenance
    && c'.rmt == c.rmt && c'.faultPending == c.faultPending
  }

  /**
   * What an accepted request leaves: a manual command sets the fan's manual target and
   * its target and ends a communication inhibit; an automatic or scheduled one sets the
   * target only, and a scheduled one reports the manual target it displaces. Nothing
   * else moves; ramp position, throttle and error count are the ramp's business.
   */
  lemma AcceptedRequestsSet(c: Core, f: int, pct: nat)
    ensures RequestManual(c, f, pct).Some? ==>
              var c' := RequestManual(c, f, pct).value;
              && 0 <= f < |c.fans| && pct <= 100 && OthersKept(c, c', f) && LatchesKept(c, c') && !c'.communication
              && c'.fans[f].manual == pct == c'.fans[f].target && SameMotion(c.fans[f], c'.fans[f])
              && (c.fans[f].accepted < UINT32_MAX ==> c'.fans[f].accepted == c.fans[f].accepted + 1)
    ensures RequestAutomatic(c, f, pct).Some? ==>
              var c' := RequestAutomatic(c, f, pct).value;
              && 0 <= f < |c.fans| && pct <= 100 && OthersKept(c, c', f) && LatchesKept(c, c') && !c.communication
              && !c'.communication && c'.fans[f].target == pct && c'.fans[f].manual == c.fans[f].manual
              && SameMotion(c.fans[f], c'.fans[f]) && c'.fans[f].accepted == c.fans[f].accepted
    ensures RequestScheduled(c, f, pct).Some? <==> RequestAutomatic(c, f, pct).Some?
    ensures RequestScheduled(c, f, pct).Some? ==>
              && Some(RequestScheduled(c, f, pct).value.0) == RequestAutomatic(c, f, pct)
              && RequestScheduled(c, f, pct).value.1 == c.fans[f].manual
  {
  }

  predicate SameMotion(fan: Fan, fan': Fan) {
    && fan'.current == fan.current && fan'.throttle == fan.throttle && fan'.applied == fan.applied
    && fan'.generation == fan.generation && fan'.errors == fan.errors
    && fan'.faulted == fan.faulted && fan'.tachInhibited == fan.tachInhibited
  }

  lemma StopsKeepCore(cfg: Config, c: Core, f: int, kind: Kind, flag: bool)
    requires CoreValid(cfg, c)
    ensures ClaimStop(c, kind).Some? ==> CoreValid(cfg, ClaimStop(c, kind).value)
    ensures CoreValid(cfg, EnterStop(c, kind, flag)) && CoreValid(cfg, DropStop(c))
    ensures AllTargetsZero(EnterStop(c, kind, flag))
    ensures CoreValid(cfg, ClearMaintenance(c))
    ensures StopOne(c, f, flag).Some? ==> CoreValid(cfg, StopOne(c, f, flag).value)
    ensures SetTachInhibit(c, f, flag).Some? ==> CoreValid(cfg, SetTachInhibit(c, f, flag).value)
  {
    FanStopsKeepCore(cfg, c, f, flag);
  }

  lemma FanStopsKeepCore(cfg: Config, c: Core, f: int, flag: bool)
    requires CoreValid(cfg, c)
    ensures StopOne(c, f, flag).Some? ==> CoreValid(cfg, StopOne(c, f, flag).value)
    ensures SetTachInhibit(c, f, flag).Some? ==> CoreValid(cfg, SetTachInhibit(c, f, flag).value)
  {
  }

  lemma RampTickKeepsCore(cfg: Config, c: Core, f: nat)
    requires CoreValid(cfg, c) && f < |c.fans|
    ensures CoreValid(cfg, RampTick(cfg, c, f))
  {
    var fan := c.fans[f];
    var next := RampStep(fan.current, fan.target, cfg.rampStep);
    assert FanValid(cfg, fan);
    assert next <= 100;
  }

  lemma RollbackKeepsCore(cfg: Config, c: Core, f: nat, previous: nat, generation: nat)
    requires CoreValid(cfg, c) && f < |c.fans| && previous <= 100
    ensures CoreValid(cfg, Rollback(cfg, c, f, previous, generation))
  {
    assert FanValid(cfg, c.fans[f]);
  }

  /** The coercion branch never runs: no valid fan holds a reserved throttle. */
  lemma SampleIsPure(cfg: Config, c: Core, f: nat)
    requires CoreValid(cfg, c) && f < |c.fans|
    ensures SampleApply(cfg, c, f) ==
            (c, c.fans[f].throttle, EffectivePct(c.fans[f].current, cfg.minSpin))
  {
    assert FanValid(cfg, c.fans[f]);
  }

  lemma RecordKeepsCore(cfg: Config, c: Core, f: nat, ok: bool, applied: nat)
    requires CoreValid(cfg, c) && f < |c.fans| && applied <= 100
    ensures CoreValid(cfg, RecordResult(cfg, c, f, ok, applied))
  {
    var c' := RecordResult(cfg, c, f, ok, applied);
    assert FanValid(cfg, c.fans[f]);
    assert FanValid(cfg, c'.fans[f]);
    assert forall i :: 0 <= i < |c.fans| && i != f ==> c'.fans[i] == c.fans[i];
  }

  // ---- runs of ramp ticks ----

  /** The core after n ticks of fan f with nothing else happening. */
  function Ticks(cfg: Config, c: Core, f: nat, n: nat): (r: Core)
    requires f < |c.fans|
    ensures |r.fans| == |c.fans|
  {
    if n == 0 then c else RampTick(cfg, Ticks(cfg, c, f, n - 1), f)
  }

  function Distance(fan: Fan): nat {
    if fan.current < fan.target then fan.target - fan.current else fan.current - fan.target
  }

  /**
   * An undisturbed fan covers exactly one ramp step per tick until it arrives, and then
   * stays at its target with the throttle of that target; other fans do not move.
   */
  lemma {:induction false} RampArrives(cfg: Config, c: Core, f: nat, n: nat)
    requires CoreValid(cfg, c) && f < |c.fans|
    ensures var fan, fan' := c.fans[f], Ticks(cfg, c, f, n).fans[f];
            && CoreValid(cfg, Ticks(cfg, c, f, n)) && OthersKept(c, Ticks(cfg, c, f, n), f)
            && fan'.target == fan.target && (fan.current <= fan.target ==> fan'.current <= fan.target)
            && (fan.target <= fan.current ==> fan.target <= fan'.current)
            && Distance(fan') == (if Distance(fan) > n * cfg.rampStep then Distance(fan) - n * cfg.rampStep else 0)
            && (n * cfg.rampStep >= 100 ==> fan'.throttle == PctToDshot(fan.target, cfg.minSpin))
  {
    if n > 0 {
      RampArrives(cfg, c, f, n - 1);
      var before := Ticks(cfg, c, f, n - 1);
      RampTickKeepsCore(cfg, before, f);
      assert n * cfg.rampStep == (n - 1) * cfg.rampStep + cfg.rampStep;
      TickCloses(cfg, before, f);
    }
    assert FanValid(cfg, c.fans[f]) && FanValid(cfg, Ticks(cfg, c, f, n).fans[f]);
  }

  lemma TickCloses(cfg: Config, c: Core, f: nat)
    requires cfg.Valid() && f < |c.fans|
    ensures var fan, fan' := c.fans[f], RampTick(cfg, c, f).fans[f];
            && OthersKept(c, RampTick(cfg, c, f), f) && fan'.target == fan.target
            && Distance(fan') == (if Distance(fan) > cfg.rampStep then Distance(fan) - cfg.rampStep else 0)
            && (fan.current <= fan.target ==> fan'.current <= fan.target)
            && (fan.target <= fan.current ==> fan.target <= fan'.current)
  {
  }

  // ---- runs of RMT results ----

  /** The core after these results for fan f: None is a failure, Some what was applied. */
  function Recorded(cfg: Config, c: Core, f: nat, results: seq<Option<nat>>): (r: Core)
    requires f < |c.fans|
    ensures |r.fans| == |c.fans|
  {
    if results == [] then c else
    var last := results[|results| - 1];
    RecordResult(cfg, Recorded(cfg, c, f, results[..|results| - 1]), f, last.Some?, if last.Some? then last.value else 0)
  }

  function FailuresAtEnd(results: seq<Option<nat>>): nat {
    if results == [] || results[|results| - 1].Some? then 0 else FailuresAtEnd(results[..|results| - 1]) + 1
  }

  /** Results k to k + n are all failures. */
  predicate FailuresFrom(results: seq<Option<nat>>, k: nat, n: nat) {
    k + n <= |results| && forall j :: k <= j < k + n ==> results[j].None?
  }

  /** Somewhere n results in a row were failures. */
  ghost predicate HasFailures(results: seq<Option<nat>>, n: nat) { exists k: nat :: FailuresFrom(results, k, n) }

  lemma {:induction false} EndIsFailures(results: seq<Option<nat>>)
    ensures var n := FailuresAtEnd(results);
            && n <= |results| && FailuresFrom(results, |results| - n, n)
            && (n < |results| ==> results[|results| - n - 1].Some?)
  {
    if results != [] && results[|results| - 1].None? { EndIsFailures(results[..|results| - 1]); }
  }

  /** A run of n failures lies before the last result, or reaches it. */
  lemma FailuresEndOrCameBefore(before: seq<Option<nat>>, last: Option<nat>, n: nat)
    requires n > 0
    ensures HasFailures(before + [last], n) <==> HasFailures(before, n) || FailuresAtEnd(before + [last]) >= n
  {
    var results := before + [last];
    var atEnd := FailuresAtEnd(results);
    EndIsFailures(results);
    if HasFailures(results, n) {
      var k: nat :| FailuresFrom(results, k, n);
      if atEnd < n {
        assert results[|results| - atEnd - 1].Some?;
        assert FailuresFrom(before, k, n);
      }
    }
    if HasFailures(before, n) {
      var k: nat :| FailuresFrom(before, k, n);
      assert FailuresFrom(results, k, n);
    }
    if atEnd >= n { assert FailuresFrom(results, |results| - n, n); }
  }

  /** One more result counts towards the limit, or starts the count again. */
  lemma RecordCounts(cfg: Config, c: Core, f: nat, last: Option<nat>)
    requires cfg.Valid() && f < |c.fans| && c.fans[f].errors <= 65535
    ensures var r, fan := RecordResult(cfg, c, f, last.Some?, if last.Some? then last.value else 0), c.fans[f];
            && r.fans[f].errors == (if last.Some? then 0 else if fan.errors < 65535 then fan.errors + 1 else 65535)
            && (r.fans[f].faulted <==> fan.faulted || (last.None? && r.fans[f].errors >= cfg.errorLimit))
            && (r.fans[f].faulted && !fan.faulted ==> r.rmt && r.fans[f].target == 0)
            && (fan.target == 0 ==> r.fans[f].target == 0) && (c.rmt ==> r.rmt)
  {
  }

  /**
   * A healthy fan is latched as faulted exactly when the configured number of results in
   * a row were failures, somewhere in the run; no number of scattered failures does it.
   * The latch takes the target and brings the RMT inhibit, which stops all fans.
   */
  lemma {:induction false} FaultIsARunOfFailures(cfg: Config, c: Core, f: nat, results: seq<Option<nat>>)
    requires cfg.Valid() && f < |c.fans| && c.fans[f].errors == 0 && !c.fans[f].faulted
    ensures var r := Recorded(cfg, c, f, results);
            && (r.fans[f].faulted <==> HasFailures(results, cfg.errorLimit))
            && (r.fans[f].faulted ==> r.rmt && r.fans[f].target == 0)
            && r.fans[f].errors == (if FailuresAtEnd(results) < 65535 then FailuresAtEnd(results) else 65535)
  {
    if results == [] {
      assert forall k: nat :: !FailuresFrom(results, k, cfg.errorLimit);
    } else {
      FaultIsARunOfFailures(cfg, c, f, results[..|results| - 1]);
      var before, last := results[..|results| - 1], results[|results| - 1];
      assert results == before + [last];
      FailuresEndOrCameBefore(before, last, cfg.errorLimit);
      RecordCounts(cfg, Recorded(cfg, c, f, before), f, last);
    }
  }
}
