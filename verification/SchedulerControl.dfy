/**
 * main/scheduler.c in place: s_fans and the inhibit flags, one method per mutex
 * section. Every section needs and keeps Valid(), which SchedulerRun proves of every
 * reachable state; what else a section needs is what its task knows from holding the
 * reservation.
 */
module SchedulerControl {
  import opened Prelude
  import opened SchedulerCore
  import Run = SchedulerRun

  class Scheduler {
    const fans: array<Fan>
    var inhibited: bool
    var latched: bool

    ghost function View(): Sched
      reads this, fans
    {
      Sched(fans[..], inhibited, latched)
    }

    /**
     * The latch implies the inhibit and that nothing runs; the inhibit implies that only
     * reserved fans run anything; an active slot is enabled.
     */
    ghost predicate Valid()
      reads this, fans
    {
      Run.Tracked(View())
    }

    /** The inhibit leaves nothing running here: what a reservation's holder may rely on. */
    ghost predicate Quiet(f: int)
      requires 0 <= f < fans.Length
      reads this, fans
    {
      inhibited ==> fans[f].active < 0
    }

    constructor (slots: nat, count: nat)
      requires slots > 0
      ensures Valid()
      ensures fresh(fans) && fans.Length == count && !inhibited && !latched
      ensures forall f :: 0 <= f < count ==>
                fans[f].active == NO_SLOT && !fans[f].pending && |fans[f].entries| == slots
    {
      fans := new Fan[count](_ => Fan(seq(slots, _ => Entry(false, 0, 0, 0, 0)), NO_SLOT, 0, 0, 0, false));
      inhibited, latched := false, false;
    }

    /** The cyclic search of process_schedule_start; it arms the entries it passes. */
    method SelectStart(f: int, now: nat) returns (slot: int)
      requires Valid() && FanExists(View(), f)
      modifies fans
      ensures Valid()
      ensures !old(MayStart(View(), f)) ==> slot < 0 && View() == old(View())
      ensures old(MayStart(View(), f)) ==>
                View() == StartSelect(old(View()), f, now).0
                && StartSelect(old(View()), f, now).1 == if slot < 0 then None else Some(slot)
    {
      if fans[f].pending || inhibited || fans[f].active >= 0 { return NO_SLOT; }
      var fan := fans[f];
      ghost var before := View();
      var n := |fans[f].entries|;
      var candidate := 0;
      ArmingSeesOnce(fan, now, 0);
      while candidate < n
        invariant 0 <= candidate <= n == |fan.entries|
        invariant fans[f] == fan.(entries := ArmedFirst(fan, now, candidate))
        invariant fans[..] == before.fans[f := fans[f]]
        invariant FirstDue(fan, now, 0) == FirstDue(fan, now, candidate)
      {
        slot := SlotAt(fan, candidate);
        ArmingSeesOnce(fan, now, candidate);
        var entry := Armed(fans[f].entries[slot], now);
        fans[f] := fans[f].(entries := fans[f].entries[slot := entry]);
        assert fans[f].entries == ArmedFirst(fan, now, candidate + 1);
        if Due(entry, now) {
          fans[f] := fans[f].(pending := true);
          return slot;
        }
        candidate := candidate + 1;
      }
      slot := NO_SLOT;
    }

    method FinishStart(f: int, slot: int, duration: nat, now: nat, accepted: bool, manual: nat)
      returns (started: bool)
      requires Valid() && SlotExists(View(), f, slot) && fans[f].pending && Quiet(f)
      modifies fans
      ensures Valid() && !fans[f].pending
      ensures View() == StartFinish(old(View()), f, slot, duration, now, accepted, manual)
      ensures started ==> !inhibited && !latched && fans[f].active == slot && fans[f].saved == manual
      ensures accepted && !started ==> inhibited || fans[f].active >= 0 || !fans[f].entries[slot].enabled
      ensures !started ==> fans[f] == old(fans[f]).(pending := false)
    {
      var entry := fans[f].entries[slot];
      started := accepted && entry.enabled && !inhibited && fans[f].active < 0;
      if started {
        fans[f] := fans[f].(saved := manual, active := slot, cursor := (slot + 1) % |fans[f].entries|,
                            end := now + duration * MINUTE_US,
                            entries := fans[f].entries[slot := entry.(next := now + entry.interval * MINUTE_US)]);
      }
      fans[f] := fans[f].(pending := false);
    }

    /**
     * Reserve and pick up what process_schedule_end must restore. Only an expired
     * schedule is ever ended here: under the inhibit nothing runs unreserved, so the
     * other half of the test never decides.
     */
    method BeginEnd(f: int, now: nat) returns (slot: int, target: nat)
      requires Valid() && FanExists(View(), f)
      modifies fans
      ensures Valid()
      ensures slot >= 0 ==> SlotExists(View(), f, slot) && fans[f].entries[slot].enabled
                            && !inhibited && now >= fans[f].end
      ensures slot >= 0 ==> slot == old(fans[f].active) && target == old(fans[f].saved)
                            && View() == Reserve(old(View()), f)
      ensures slot < 0 ==> View() == old(View())
                           && (fans[f].pending || fans[f].active < 0 || (now < fans[f].end && !inhibited))
    {
      slot, target := NO_SLOT, 0;
      if !fans[f].pending && fans[f].active >= 0 && (inhibited || now >= fans[f].end) {
        slot, target := fans[f].active, fans[f].saved;
        fans[f] := fans[f].(pending := true);
      }
    }

    /** One attempt of reserve_fan_operation; whoever succeeds finds the fan quiet. */
    method TryReserve(f: int) returns (ok: bool)
      requires Valid() && FanExists(View(), f)
      modifies fans
      ensures Valid() && fans[f].pending
      ensures ok == old(!fans[f].pending)
      ensures ok ==> Quiet(f)
      ensures View() == if ok then Reserve(old(View()), f) else old(View())
    {
      ok := !fans[f].pending;
      if ok { fans[f] := fans[f].(pending := true); }
    }

    /** reserve_all_fans: all of them, or none after giving the first ones back. */
    method ReserveAll() returns (ok: bool)
      requires Valid()
      modifies fans
      ensures Valid()
      ensures ok ==> forall f :: 0 <= f < fans.Length ==> Quiet(f)
      ensures ok == old(NothingPending(View()))
      ensures !ok ==> View() == old(View())
      ensures ok ==> forall f :: 0 <= f < fans.Length ==> fans[f] == old(fans[f]).(pending := true)
    {
      ghost var before := fans[..];
      var k := 0;
      while k < fans.Length
        invariant 0 <= k <= fans.Length && Valid()
        invariant forall f :: 0 <= f < k ==> fans[f] == before[f].(pending := true) && !before[f].pending
        invariant forall f :: 0 <= f < k ==> Quiet(f)
        invariant forall f :: k <= f < fans.Length ==> fans[f] == before[f]
      {
        var reserved := TryReserve(k);
        if !reserved {
          assert before[k].pending;
          GiveBackFirst(k);
          assert fans[..] == before;
          return false;
        }
        k := k + 1;
      }
      return true;
    }

    method GiveBackFirst(k: nat)
      requires Valid() && k <= fans.Length && forall f :: 0 <= f < k ==> Quiet(f)
      modifies fans
      ensures Valid()
      ensures View() == ReleaseFirst(old(View()), k)
    {
      forall f | 0 <= f < k && inhibited ensures View().fans[f].active < 0 { assert Quiet(f); }
      ReleaseKeepsTracked(View(), k);
      ghost var before := fans[..];
      var i := 0;
      while i < k
        invariant 0 <= i <= k
        invariant forall f :: 0 <= f < i ==> fans[f] == before[f].(pending := false)
        invariant forall f :: i <= f < fans.Length ==> fans[f] == before[f]
      {
        fans[i] := fans[i].(pending := false);
        i := i + 1;
      }
      assert fans[..] == ReleaseFirst(old(View()), k).fans;
    }

    /** The inhibiting section of scheduler_try_inhibit_all. */
    method TryInhibitAll() returns (ok: bool)
      requires Valid()
      modifies this, fans
      ensures Valid()
      ensures ok ==> latched && inhibited && Run.AllIdle(View())
      ensures ok == TryInhibit(old(View())).Some?
      ensures View() == if ok then TryInhibit(old(View())).value else old(View())
    {
      var pending := false;
      var i := 0;
      while i < fans.Length && !pending
        invariant 0 <= i <= fans.Length
        invariant !pending ==> forall f :: 0 <= f < i ==> !fans[f].pending
        invariant pending ==> !NothingPending(View())
      {
        pending := fans[i].pending;
        i := i + 1;
      }
      if pending { return false; }
      ghost var before := fans[..];
      inhibited, latched := true, true;
      i := 0;
      while i < fans.Length
        modifies fans
        invariant 0 <= i <= fans.Length
        invariant forall f :: 0 <= f < i ==> fans[f] == before[f].(active := NO_SLOT, end := 0)
        invariant forall f :: i <= f < fans.Length ==> fans[f] == before[f]
      {
        fans[i] := fans[i].(active := NO_SLOT, end := 0);
        i := i + 1;
      }
      assert fans[..] == seq(|before|, f requires 0 <= f < |before| => before[f].(active := NO_SLOT, end := 0));
      return true;
    }

    /** The state-changing section of scheduler_set_override, with every fan reserved. */
    method ApplyOverride(on: bool, now: nat) returns (ok: bool, slots: seq<int>, targets: seq<nat>)
      requires Valid() && forall f :: 0 <= f < fans.Length ==> fans[f].pending && Quiet(f)
      modifies this`inhibited, fans
      ensures Valid()
      ensures ok ==> inhibited == on && forall f :: 0 <= f < fans.Length ==> fans[f].pending
      ensures ok == OverrideApply(old(View()), on, now).Some?
      ensures ok ==> View() == OverrideApply(old(View()), on, now).value
      ensures !ok ==> View() == ReleaseFirst(old(View()), fans.Length)
      ensures ok ==> |slots| == |targets| == fans.Length
      ensures ok && on ==> forall f :: 0 <= f < fans.Length ==> slots[f] == fans[f].active
      ensures ok ==> forall f :: 0 <= f < fans.Length ==>
                slots[f] == (if on then old(fans[f]).active else NO_SLOT)
                && (on ==> targets[f] == old(fans[f]).saved)
    {
      slots, targets := [], [];
      if !on && latched {
        GiveBackFirst(fans.Length);
        return false, slots, targets;
      }
      inhibited := on;
      ghost var before := fans[..];
      var i := 0;
      while i < fans.Length
        modifies fans
        invariant 0 <= i <= fans.Length && |slots| == |targets| == i
        invariant forall f :: 0 <= f < i ==>
                    slots[f] == (if on then before[f].active else NO_SLOT) && (on ==> targets[f] == before[f].saved)
        invariant forall f :: 0 <= f < i ==> fans[f] == if on then before[f] else RestartedFan(before[f], now)
        invariant forall f :: i <= f < fans.Length ==> fans[f] == before[f]
      {
        slots := slots + [if on then fans[i].active else NO_SLOT];
        targets := targets + [if on then fans[i].saved else 0];
        if !on { fans[i] := RestartedFan(fans[i], now); }
        i := i + 1;
      }
      assert on ==> fans[..] == before;
      ok := true;
    }

    /** The last section of scheduler_set_override. */
    method FinishOverride(slots: seq<int>)
      requires Valid() && |slots| == fans.Length
      requires inhibited ==> forall f :: 0 <= f < fans.Length ==> slots[f] == fans[f].active
      modifies fans
      ensures Valid() && NothingPending(View()) && (inhibited ==> Run.AllIdle(View()))
      ensures View() == OverrideFinish(old(View()), slots)
    {
      ghost var before := fans[..];
      var i := 0;
      while i < fans.Length
        invariant 0 <= i <= fans.Length
        invariant forall f :: 0 <= f < i ==> fans[f] == ReleasedFan(before[f], slots[f] >= 0)
        invariant forall f :: i <= f < fans.Length ==> fans[f] == before[f]
      {
        if slots[i] >= 0 { fans[i] := fans[i].(active := NO_SLOT, end := 0); }
        fans[i] := fans[i].(pending := false);
        i := i + 1;
      }
    }

    method FinishManual(f: int, accepted: bool) returns (cancelled: int)
      requires Valid() && FanExists(View(), f) && fans[f].pending && Quiet(f)
      modifies fans
      ensures Valid() && !fans[f].pending && (accepted ==> fans[f].active < 0)
      ensures !accepted ==> fans[f] == old(fans[f]).(pending := false)
      ensures View() == ManualFinish(old(View()), f, accepted)
      ensures cancelled == if accepted && old(fans[f].active) >= 0 then old(fans[f].active) else NO_SLOT
    {
      cancelled := NO_SLOT;
      if accepted && fans[f].active >= 0 {
        cancelled := fans[f].active;
        fans[f] := fans[f].(active := NO_SLOT, end := 0);
      }
      fans[f] := fans[f].(pending := false);
    }

    /** The last section of scheduler_set_entry, for a configuration it has validated. */
    method FinishSet(f: int, slot: int, interval: nat, duration: nat, target: nat, now: nat)
      requires Valid() && SlotExists(View(), f, slot) && fans[f].pending && Quiet(f)
      requires EntryConfigValid(interval, duration, target)
      modifies fans
      ensures Valid() && !fans[f].pending
      ensures |fans[f].entries| == old(|fans[f].entries|)
      ensures fans[f].entries[slot].enabled && fans[f].entries[slot].interval == interval
      ensures fans[f].entries[slot].duration == duration && fans[f].entries[slot].target == target
      ensures fans[f].entries[slot].next == now + interval * MINUTE_US
      ensures fans[f] == old(fans[f]).(entries := fans[f].entries, pending := false)
      ensures forall i :: 0 <= i < |fans[f].entries| && i != slot ==> fans[f].entries[i] == old(fans[f]).entries[i]
      ensures View() == SetEntry(old(View()), f, slot, interval, duration, target, now)
    {
      var entry := Entry(true, interval, duration, target, now + interval * MINUTE_US);
      fans[f] := fans[f].(entries := fans[f].entries[slot := entry], pending := false);
    }

    method FinishDisable(f: int, slot: int, wasActive: bool)
      requires Valid() && SlotExists(View(), f, slot) && fans[f].pending && Quiet(f)
      requires wasActive <==> fans[f].active == slot
      modifies fans
      ensures Valid() && !fans[f].pending
      ensures |fans[f].entries| == old(|fans[f].entries|)
      ensures !fans[f].entries[slot].enabled && fans[f].active != slot
      ensures old(fans[f].active) != slot ==> fans[f].active == old(fans[f].active)
      ensures forall i :: 0 <= i < |fans[f].entries| && i != slot ==> fans[f].entries[i] == old(fans[f].entries)[i]
      ensures View() == DisableFinish(old(View()), f, slot, wasActive)
    {
      if wasActive { fans[f] := fans[f].(active := NO_SLOT, end := 0); }
      var entry := fans[f].entries[slot].(enabled := false, next := 0);
      fans[f] := fans[f].(entries := fans[f].entries[slot := entry], pending := false);
    }
  }

  lemma ReleaseKeepsTracked(s: Sched, k: nat)
    requires Run.Tracked(s) && k <= |s.fans|
    requires forall f :: 0 <= f < k && s.inhibited ==> s.fans[f].active < 0
    ensures Run.Tracked(ReleaseFirst(s, k))
  {
  }
}
