/**
 * main/motor_control.c in place: the s_motors array and the inhibit flags, one
 * method per function. The methods run without interference (MotorRun has the
 * interleavings); each driver call may fail, in which case it has no effect.
 */
module MotorControl {
  import opened Prelude
  import opened Policy
  import opened MotorCore
  import opened MotorRun
  import opened MotorSafety
  import opened MotorTheorems

  /**
   * What the driver calls of one apply would return: disable, wait, encoder reset,
   * enable, transmit, and the disable that follows a failed transmit.
   */
  type Calls = c: seq<bool> | |c| == 6 witness [true, true, true, true, true, true]

  predicate AllWork(calls: Calls) { forall i :: 0 <= i < 5 ==> calls[i] }

  /** The channel already streams this throttle and needs no refresh: nothing is called. */
  predicate Streams(ch: Channel, req: nat, refresh: bool) {
    2 * req == ch.lastDshot && !refresh && ch.active && ch.enabled
  }

  /** Every call the drive needs works: stop what streams, then start anew. */
  predicate DriveWorks(ch: Channel, calls: Calls) {
    (ch.enabled ==> calls[0]) && (ch.active ==> calls[1] && calls[2]) && calls[3] && calls[4]
  }

  /** Whether the RMT channel itself is enabled after the calls up to the first that fails. */
  predicate EnabledAfter(ch: Channel, calls: Calls) {
    if ch.enabled && !calls[0] then true
    else if (ch.active && !(calls[1] && calls[2])) || !calls[3] then false
    else calls[4] || !calls[5]
  }

  class MotorBank {
    const cfg: Config
    const fans: array<Fan>
    const channels: array<Channel>
    var stopDepth: nat
    var globalInhibited: bool
    var maintenanceDepth: nat
    var communicationInhibited: bool
    var rmtInhibited: bool
    var rmtFaultPending: bool

    ghost function View(): Core
      reads this, fans
    {
      Core(stopDepth, globalInhibited, maintenanceDepth, communicationInhibited, rmtInhibited,
           rmtFaultPending, fans[..])
    }

    /** Every channel is at rest and agrees with its fan. */
    ghost predicate Valid()
      reads this, fans, channels
    {
      && fans.Length == channels.Length && CoreValid(cfg, View())
      && forall i :: 0 <= i < channels.Length ==>
           channels[i].io.Free? && ChannelValid(cfg, fans[i].applied, channels[i])
    }

    /** motor_control_init with every first transmission successful. */
    constructor (cfg: Config, count: nat)
      requires cfg.Valid()
      ensures Valid() && fresh(fans) && fresh(channels)
      ensures this.cfg == cfg && View() == Init(cfg, count).core && channels[..] == Init(cfg, count).channels
    {
      this.cfg := cfg;
      fans := new Fan[count](i => Fan(0, 0, 0, 0, 0, 0, 0, false, false, 0));
      channels := new Channel[count](i => Channel(true, true, 0, 0, Some(0), Free));
      stopDepth, globalInhibited, maintenanceDepth := 0, false, 0;
      communicationInhibited, rmtInhibited, rmtFaultPending := false, false, false;
      new;
      assert fans[..] == Init(cfg, count).core.fans;
    }

    method RequestManual(f: int, pct: nat) returns (ok: bool)
      requires Valid()
      modifies this`communicationInhibited, fans
      ensures Valid()
      ensures ok ==> 0 <= f < fans.Length && fans[f].manual == pct == fans[f].target && !communicationInhibited
      ensures forall i :: 0 <= i < fans.Length && i != f ==> fans[i] == old(fans[i])
      ensures ok == MotorCore.RequestManual(old(View()), f, pct).Some?
      ensures View() == if ok then MotorCore.RequestManual(old(View()), f, pct).value else old(View())
    {
      RequestsKeepCore(cfg, View(), f, pct, []);
      if pct > 100 || f < 0 || f >= fans.Length || stopDepth != 0 || globalInhibited
         || maintenanceDepth != 0 || rmtInhibited || fans[f].faulted || fans[f].tachInhibited {
        return false;
      }
      communicationInhibited := false;
      fans[f] := fans[f].(manual := pct, target := pct, accepted := Increment32(fans[f].accepted));
      return true;
    }

    /** motor_control_request_scheduled: capture the manual target and start, atomically. */
    method RequestScheduled(f: int, pct: nat) returns (ok: bool, manual: nat)
      requires Valid()
      modifies fans
      ensures Valid()
      ensures ok ==> 0 <= f < fans.Length && fans[f].target == pct && fans[f].manual == old(fans[f].manual) == manual
      ensures forall i :: 0 <= i < fans.Length && i != f ==> fans[i] == old(fans[i])
      ensures ok == MotorCore.RequestScheduled(old(View()), f, pct).Some?
      ensures ok ==> MotorCore.RequestScheduled(old(View()), f, pct) == Some((View(), manual))
      ensures !ok ==> View() == old(View())
    {
      RequestsKeepCore(cfg, View(), f, pct, []);
      if pct > 100 || f < 0 || f >= fans.Length || stopDepth != 0 || globalInhibited
         || maintenanceDepth != 0 || communicationInhibited || rmtInhibited
         || fans[f].faulted || fans[f].tachInhibited {
        return false, 0;
      }
      manual := fans[f].manual;
      fans[f] := fans[f].(target := pct);
      ok := true;
    }

    method RestoreAll(targets: seq<nat>) returns (ok: bool)
      requires Valid()
      modifies fans
      ensures Valid()
      ensures ok ==> |targets| == fans.Length
                     && forall i :: 0 <= i < fans.Length ==> fans[i].target == fans[i].manual == targets[i]
      ensures ok == MotorCore.RestoreAll(old(View()), targets).Some?
      ensures View() == if ok then MotorCore.RestoreAll(old(View()), targets).value else old(View())
    {
      RequestsKeepCore(cfg, View(), 0, 0, targets);
      if |targets| != fans.Length { return false; }
      ok := stopDepth == 0 && !globalInhibited && maintenanceDepth == 0
            && !communicationInhibited && !rmtInhibited;
      var i := 0;
      while ok && i < fans.Length
        invariant 0 <= i <= fans.Length && fans[..] == old(fans[..])
        invariant ok ==> SourceOpen(View()) && !communicationInhibited
        invariant ok ==> forall j :: 0 <= j < i ==>
                           targets[j] <= 100 && !fans[j].faulted && !fans[j].tachInhibited
        invariant !ok ==> !RestoreAllowed(View(), targets)
      {
        ok := targets[i] <= 100 && !fans[i].faulted && !fans[i].tachInhibited;
        i := i + 1;
      }
      if !ok { return; }
      i := 0;
      while i < fans.Length
        invariant 0 <= i <= fans.Length
        invariant forall j :: 0 <= j < i ==> fans[j] == RestoredFan(old(fans[j]), targets[j])
        invariant forall j :: i <= j < fans.Length ==> fans[j] == old(fans[j])
      {
        fans[i] := RestoredFan(fans[i], targets[i]);
        i := i + 1;
      }
      assert fans[..] == MotorCore.RestoreAll(old(View()), targets).value.fans;
    }

    /** The section of stop_all_internal that latches and zeroes, in one loop over the fans. */
    method EnterStop(kind: Kind, clear: bool) returns (prev: seq<nat>, gens: seq<nat>)
      modifies this`globalInhibited, this`communicationInhibited, this`rmtInhibited, fans
      ensures View() == MotorCore.EnterStop(old(View()), kind, clear)
      ensures |prev| == |gens| == fans.Length
      ensures forall j :: 0 <= j < fans.Length ==>
                prev[j] == old(fans[..])[j].current && gens[j] == fans[j].generation
    {
      ghost var before := fans[..];
      if kind == Global { globalInhibited := true; }
      if kind == Communication { communicationInhibited := true; }
      if kind == Rmt { rmtInhibited := true; }
      prev, gens := [], [];
      var i := 0;
      while i < fans.Length
        modifies fans
        invariant 0 <= i <= fans.Length && |prev| == |gens| == i
        invariant forall j :: 0 <= j < i ==> fans[j] == StoppedFan(before[j], kind, clear)
        invariant forall j :: 0 <= j < i ==> prev[j] == before[j].current
        invariant forall j :: 0 <= j < i ==> gens[j] == fans[j].generation
        invariant forall j :: i <= j < fans.Length ==> fans[j] == before[j]
      {
        prev := prev + [fans[i].current];
        fans[i] := StoppedFan(fans[i], kind, clear);
        gens := gens + [fans[i].generation];
        i := i + 1;
      }
      assert fans[..] == seq(|before|, j requires 0 <= j < |before| => StoppedFan(before[j], kind, clear));
    }

    /** The ramp task's section for one fan. */
    method RampTick(f: nat) returns (changed: bool, previous: nat, generation: nat)
      requires Valid() && f < fans.Length
      modifies fans
      ensures Valid() && View() == MotorCore.RampTick(cfg, old(View()), f)
      ensures changed == (old(fans[f].current) != old(fans[f].target))
      ensures previous == old(fans[f].current) && generation == fans[f].generation
    {
      RampTickKeepsCore(cfg, View(), f);
      var current := fans[f].current;
      previous := current;
      changed := current != fans[f].target;
      if changed {
        current := RampStep(current, fans[f].target, cfg.rampStep);
        fans[f] := fans[f].(current := current, throttle := PctToDshot(current, cfg.minSpin),
                            generation := fans[f].generation + 1);
      }
      generation := fans[f].generation;
    }

    /** The rollback section shared by the ramp task and the verified stop. */
    method RollBack(f: nat, previous: nat, generation: nat)
      requires Valid() && f < fans.Length && previous <= 100
      modifies fans
      ensures Valid() && View() == Rollback(cfg, old(View()), f, previous, generation)
    {
      RollbackKeepsCore(cfg, View(), f, previous, generation);
      if fans[f].generation == generation {
        fans[f] := fans[f].(current := previous, throttle := PctToDshot(previous, cfg.minSpin),
                            generation := fans[f].generation + 1);
      }
    }

    /** Everything at rest, but channel f was driven for this percentage and not recorded yet. */
    ghost predicate Driven(f: nat, ok: bool, applied: nat)
      reads this, fans, channels
    {
      && fans.Length == channels.Length && f < fans.Length && applied <= 100 && CoreValid(cfg, View())
      && forall i :: 0 <= i < channels.Length ==>
           && channels[i].io.Free?
           && ChannelValid(cfg, if i == f && ok then applied else fans[i].applied, channels[i])
    }

    /**
     * record_apply_result makes the books agree with the wire again. A failure that
     * completes the configured run of them takes the fan's target, and nothing may be
     * requested or enabled any more; any other result leaves targets and inhibits alone.
     */
    method RecordApplyResult(f: nat, ok: bool, applied: nat)
      requires Driven(f, ok, applied)
      modifies this`rmtInhibited, this`rmtFaultPending, fans
      ensures Valid()
      ensures View() == RecordResult(cfg, old(View()), f, ok, applied)
      ensures ok ==> fans[f].errors == 0 && fans[f].applied == applied
      ensures !ok ==> fans[f].applied == old(fans[f].applied)
      ensures !ok && fans[f].errors >= cfg.errorLimit ==>
                fans[f].faulted && fans[f].target == 0 && !SourceOpen(View()) && !MotorCore.OutputAllowed(View())
      ensures ok || fans[f].errors < cfg.errorLimit ==>
                && fans[f].target == old(fans[f].target) && fans[f].faulted == old(fans[f].faulted)
                && rmtInhibited == old(rmtInhibited)
      ensures forall i :: 0 <= i < fans.Length && i != f ==> fans[i] == old(fans[i])
    {
      RecordKeepsCore(cfg, View(), f, ok, applied);
      if ok {
        fans[f] := fans[f].(errors := 0, applied := applied);
      } else {
        CountFailure(f);
      }
    }

    /** One more failure in a row; at the limit the fan is faulted and the RMT inhibit set. */
    method CountFailure(f: nat)
      requires f < fans.Length
      modifies this`rmtInhibited, this`rmtFaultPending, fans
      ensures forall applied :: View() == RecordResult(cfg, old(View()), f, false, applied)
      ensures forall i :: 0 <= i < fans.Length && i != f ==> fans[i] == old(fans[i])
      ensures fans[f].applied == old(fans[f].applied)
      ensures fans[f].errors >= cfg.errorLimit ==> fans[f].faulted && fans[f].target == 0 && rmtInhibited
      ensures fans[f].errors < cfg.errorLimit ==>
                && fans[f].target == old(fans[f].target) && fans[f].faulted == old(fans[f].faulted)
                && rmtInhibited == old(rmtInhibited)
    {
      if fans[f].errors < 65535 { fans[f] := fans[f].(errors := fans[f].errors + 1); }
      if fans[f].errors >= cfg.errorLimit {
        fans[f] := fans[f].(faulted := true, target := 0, generation := fans[f].generation + 1);
        rmtInhibited, rmtFaultPending := true, true;
      }
    }

    /**
     * The driver sequence of apply_motor. Success means the wire streams the
     * requested throttle; failure keeps last_dshot, and the channel's flags keep
     * telling the truth about the wire either way.
     */
    method DriveChannel(f: nat, req: nat, refresh: bool, calls: Calls) returns (ok: bool)
      requires Valid() && f < channels.Length
      modifies channels
      ensures AllWork(calls) ==> ok
      ensures ok <==> Streams(old(channels[f]), req, refresh) || DriveWorks(old(channels[f]), calls)
      ensures channels[f].enabled ==
              (Streams(old(channels[f]), req, refresh) || EnabledAfter(old(channels[f]), calls))
      ensures forall i :: 0 <= i < channels.Length && i != f ==> channels[i] == old(channels[i])
      ensures channels[f].io.Free?
      ensures channels[f].wire.Some? <==> channels[f].active && channels[f].enabled
      ensures ok ==> channels[f].wire == Some(req) && channels[f].payload == req
                     && channels[f].lastDshot == 2 * req
      ensures !ok ==> channels[f].lastDshot == old(channels[f].lastDshot)
      ensures !ok && channels[f].wire.Some? ==> channels[f] == old(channels[f])
    {
      assert ChannelValid(cfg, fans[f].applied, channels[f]);
      var ch := channels[f];
      if 2 * req == ch.lastDshot && !refresh && ch.active && ch.enabled { return true; }
      if ch.enabled {
        if !calls[0] { return false; }
        ch := ch.(wire := None, enabled := false);
        channels[f] := ch;
      }
      if ch.active {
        if !calls[1] { return false; }
        if !calls[2] { return false; }
        ch := ch.(active := false);
        channels[f] := ch;
      }
      ch := ch.(payload := req);
      channels[f] := ch;
      if !calls[3] { return false; }
      ch := ch.(enabled := true);
      channels[f] := ch;
      if !calls[4] {
        if calls[5] { channels[f] := ch.(enabled := false); }
        return false;
      }
      channels[f] := ch.(wire := Some(ch.payload), active := true, lastDshot := 2 * req);
      return true;
    }

    /** apply_motor with its sampling and recording sections. */
    method ApplyMotor(f: nat, refresh: bool, calls: Calls) returns (ok: bool)
      requires Valid() && f < channels.Length
      modifies this`rmtInhibited, this`rmtFaultPending, fans, channels
      ensures Valid() && (AllWork(calls) ==> ok)
      ensures View() == RecordResult(cfg, old(View()), f, ok,
                                     EffectivePct(old(fans[f].current), cfg.minSpin))
      ensures ok ==> channels[f].wire == Some(PctToDshot(old(fans[f].current), cfg.minSpin))
      ensures forall i :: 0 <= i < channels.Length && i != f ==> channels[i] == old(channels[i])
    {
      ghost var before := View();
      SampleIsPure(cfg, before, f);
      var req := fans[f].throttle;
      var pct := EffectivePct(fans[f].current, cfg.minSpin);
      assert FanValid(cfg, fans[f]) && ChannelValid(cfg, fans[f].applied, channels[f]);
      ThrottleEncodesEffective(fans[f].current, fans[f].current, cfg.minSpin);
      ok := DriveChannel(f, req, refresh, calls);
      RecordKeepsCore(cfg, before, f, ok, pct);
      RecordMoves(cfg, before, f, ok, pct);
      RecordApplyResult(f, ok, pct);
    }

    /** The two counters a stop claims must not be saturated. */
    predicate Refuses(kind: Kind)
      reads this
    {
      (kind == Maintenance && maintenanceDepth >= UINT32_MAX) || stopDepth >= UINT32_MAX
    }

    /** One iteration of the stop's apply loop, with its optional rollback; other fans stay out of it. */
    method ApplyStopped(f: nat, kind: Kind, rollback: bool, previous: nat, generation: nat, calls: Calls)
      returns (ok: bool)
      requires Valid() && f < fans.Length && previous <= 100 && AllTargetsZero(View())
      modifies this`rmtInhibited, this`rmtFaultPending, fans, channels
      ensures Valid() && AllTargetsZero(View()) && (AllWork(calls) ==> ok)
      ensures old(AllManualZero(View())) ==> AllManualZero(View())
      ensures InForce(old(View()), kind) ==> InForce(View(), kind)
      ensures forall i :: 0 <= i < channels.Length && i != f ==>
                channels[i] == old(channels[i]) && fans[i] == old(fans[i])
      ensures ok ==> channels[f].wire == Some(PctToDshot(old(fans[f].current), cfg.minSpin))
    {
      var refresh: bool := *;
      ghost var before := View();
      ghost var pct := EffectivePct(fans[f].current, cfg.minSpin);
      ok := ApplyMotor(f, refresh, calls);
      RecordLiftsNothing(cfg, before, f, ok, pct, kind);
      if !ok && rollback {
        RollbackLiftsNothing(cfg, View(), f, previous, generation, kind);
        RollBack(f, previous, generation);
      }
      assert forall i :: 0 <= i < fans.Length ==> View().fans[i] == fans[i] && before.fans[i] == old(fans[i]);
    }

    /** EnterStop together with what the rest of a stop relies on. */
    method BeginStop(kind: Kind, clear: bool) returns (prev: seq<nat>, gens: seq<nat>)
      requires Valid()
      modifies this`globalInhibited, this`communicationInhibited, this`rmtInhibited, fans
      ensures Valid() && View() == MotorCore.EnterStop(old(View()), kind, clear)
      ensures |prev| == |gens| == fans.Length && forall j :: 0 <= j < |prev| ==> prev[j] <= 100
      ensures AllTargetsZero(View()) && (clear ==> AllManualZero(View()))
      ensures forall j :: 0 <= j < fans.Length ==> fans[j].current == 0
      ensures kind != Maintenance ==> InForce(View(), kind)
    {
      ghost var before := View();
      assert forall j :: 0 <= j < fans.Length ==> FanValid(cfg, before.fans[j]);
      StopsKeepCore(cfg, before, 0, kind, clear);
      prev, gens := EnterStop(kind, clear);
      assert forall j :: 0 <= j < fans.Length ==>
               fans[j] == View().fans[j] == StoppedFan(before.fans[j], kind, clear);
    }

    /**
     * stop_all_internal without interference. Unless it is refused unentered it zeroes
     * every target and drives every fan, whichever drives failed: results says how each
     * fan's drive ended, and a drive that succeeded streams zero although others failed.
     */
    method StopAll(kind: Kind, clear: bool, rollback: bool, calls: seq<Calls>)
      returns (ok: bool, ghost results: seq<bool>)
      requires Valid() && |calls| == fans.Length
      modifies this, fans, channels
      ensures Valid() && stopDepth == old(stopDepth)
      ensures old(Refuses(kind)) ==> !ok && View() == old(View()) && channels[..] == old(channels[..])
      ensures !old(Refuses(kind)) ==>
                && |results| == channels.Length && (ok <==> forall i :: 0 <= i < |results| ==> results[i])
                && (forall i :: 0 <= i < |results| ==>
                      && (results[i] ==> channels[i].wire == Some(0))
                      && (AllWork(calls[i]) ==> results[i]))
                && AllTargetsZero(View()) && (clear ==> AllManualZero(View())) && InForce(View(), kind)
      ensures old(globalInhibited) ==> globalInhibited
      ensures maintenanceDepth ==
              if kind == Maintenance && !old(Refuses(kind)) then old(maintenanceDepth) + 1 else old(maintenanceDepth)
    {
      results := [];
      if (kind == Maintenance && maintenanceDepth >= UINT32_MAX) || stopDepth >= UINT32_MAX {
        return false, results;
      }
      stopDepth := stopDepth + 1;
      if kind == Maintenance { maintenanceDepth := maintenanceDepth + 1; }
      var prev, gens := BeginStop(kind, clear);
      ok, results := ApplyAll(kind, rollback, prev, gens, calls);
      stopDepth := stopDepth - 1;
    }

    /** The loop over the fans: none is skipped. */
    method ApplyAll(kind: Kind, rollback: bool, prev: seq<nat>, gens: seq<nat>, calls: seq<Calls>)
      returns (ok: bool, ghost results: seq<bool>)
      requires Valid() && |calls| == |prev| == |gens| == fans.Length && AllTargetsZero(View()) && InForce(View(), kind)
      requires forall j :: 0 <= j < fans.Length ==> prev[j] <= 100 && fans[j].current == 0
      modifies this`rmtInhibited, this`rmtFaultPending, fans, channels
      ensures Valid() && AllTargetsZero(View()) && InForce(View(), kind)
      ensures old(AllManualZero(View())) ==> AllManualZero(View())
      ensures |results| == channels.Length && (ok <==> forall i :: 0 <= i < |results| ==> results[i])
      ensures forall i :: 0 <= i < |results| ==>
                (results[i] ==> channels[i].wire == Some(0)) && (AllWork(calls[i]) ==> results[i])
    {
      ok, results := true, [];
      var i := 0;
      while i < fans.Length
        modifies this`rmtInhibited, this`rmtFaultPending, fans, channels
        invariant 0 <= i <= fans.Length && Valid() && |results| == i
        invariant ok <==> forall j :: 0 <= j < i ==> results[j]
        invariant forall j :: 0 <= j < i ==>
                    (results[j] ==> channels[j].wire == Some(0)) && (AllWork(calls[j]) ==> results[j])
        invariant forall j :: i <= j < fans.Length ==> fans[j].current == 0
        invariant AllTargetsZero(View()) && InForce(View(), kind)
        invariant old(AllManualZero(View())) ==> AllManualZero(View())
      {
        var applied := ApplyStopped(i, kind, rollback, prev[i], gens[i], calls[i]);
        ghost var before := results;
        results := results + [applied];
        assert results[i] == applied && forall j :: 0 <= j < i ==> results[j] == before[j];
        ok := ok && applied;
        i := i + 1;
      }
    }

    method ReleaseMaintenance()
      requires Valid()
      modifies this`maintenanceDepth
      ensures Valid() && View() == ClearMaintenance(old(View()))
    {
      StopsKeepCore(cfg, View(), 0, Plain, false);
      if maintenanceDepth > 0 { maintenanceDepth := maintenanceDepth - 1; }
    }

    method OutputAllowed() returns (allowed: bool)
      ensures allowed == MotorCore.OutputAllowed(View())
    {
      allowed := stopDepth == 0 && !globalInhibited && maintenanceDepth == 0
                 && !communicationInhibited && !rmtInhibited;
      var i := 0;
      while allowed && i < fans.Length
        invariant 0 <= i <= fans.Length
        invariant allowed ==> forall j :: 0 <= j < i ==> !fans[j].faulted
        invariant allowed ==> stopDepth == 0 && !globalInhibited && maintenanceDepth == 0
                              && !communicationInhibited && !rmtInhibited
        invariant !allowed ==> !MotorCore.OutputAllowed(View())
      {
        allowed := !fans[i].faulted;
        i := i + 1;
      }
    }

    /** The check motor_control_holds_safe_zero makes once it owns every I/O mutex. */
    method HoldsSafeZero() returns (healthy: bool)
      requires Valid()
      ensures healthy == forall i :: 0 <= i < fans.Length ==> SafeZero(fans[i], channels[i])
      ensures healthy ==> forall i :: 0 <= i < channels.Length ==> channels[i].wire == Some(0)
    {
      healthy := true;
      var i := 0;
      while healthy && i < fans.Length
        invariant 0 <= i <= fans.Length
        invariant healthy ==> forall j :: 0 <= j < i ==>
                                SafeZero(fans[j], channels[j]) && channels[j].wire == Some(0)
        invariant !healthy ==> exists j :: 0 <= j < fans.Length && !SafeZero(fans[j], channels[j])
      {
        assert ChannelValid(cfg, fans[i].applied, channels[i]);
        healthy := SafeZero(fans[i], channels[i]);
        i := i + 1;
      }
    }
  }

  /** Recording a result touches no other fan's entry and lifts nothing. */
  lemma RecordLiftsNothing(cfg: Config, c: Core, f: nat, ok: bool, pct: nat, kind: Kind)
    requires f < |c.fans|
    ensures var c' := RecordResult(cfg, c, f, ok, pct);
            && OthersKept(c, c', f) && (AllTargetsZero(c) ==> AllTargetsZero(c'))
            && (AllManualZero(c) ==> AllManualZero(c')) && (InForce(c, kind) ==> InForce(c', kind))
  {
  }

  lemma RollbackLiftsNothing(cfg: Config, c: Core, f: nat, previous: nat, generation: nat, kind: Kind)
    requires f < |c.fans|
    ensures var c' := Rollback(cfg, c, f, previous, generation);
            && OthersKept(c, c', f) && (AllTargetsZero(c) ==> AllTargetsZero(c'))
            && (AllManualZero(c) ==> AllManualZero(c')) && (InForce(c, kind) ==> InForce(c', kind))
  {
  }
}
