/** Saving and loading the two blobs in place, against an NVS partition that may fail. */
module PersistControl {
  import opened Prelude
  import opened Fnv
  import opened Persist
  import opened CrashRun
  import CrashSafety
  import CrashTheorems
  import MotorCore
  import SchedulerCore
  import SchedulerEffects

  class Nvs {
    var fans: Option<seq<Byte>>
    var plan: Option<seq<Byte>>

    constructor ()
      ensures fans == None && plan == None
    {
      fans, plan := None, None;
    }

    /** Append the checksum that the accumulator loop computes over the body. */
    method Seal(body: seq<Byte>) returns (blob: seq<Byte>)
      ensures blob == Sealed(body)
    {
      var data := new Byte[|body|](i requires 0 <= i < |body| => body[i]);
      assert data[..|body|] == body;
      var sum := Checksum(data, |body|);
      blob := body + Le(sum, 4);
    }

    /** save_now: snapshot, seal, commit; a failed commit keeps the old blob. */
    method SaveTargets(t: Topology, targets: seq<nat>, commits: bool) returns (ok: bool)
      requires t.Valid() && |targets| == t.fans && forall i :: 0 <= i < |targets| ==> targets[i] <= 100
      modifies this`fans
      ensures ok == commits && fans == if ok then Some(SaveFans(t, targets)) else old(fans)
    {
      var blob := Seal(FanBody(t, targets));
      ok := commits;
      if ok { fans := Some(blob); }
    }

    /** Stored and computed checksum agree. */
    method SealChecks(blob: seq<Byte>, size: nat) returns (intact: bool)
      requires size + 4 <= |blob|
      ensures intact == SealIntact(blob, size)
    {
      var data := new Byte[|blob|](i requires 0 <= i < |blob| => blob[i]);
      assert data[..size] == blob[..size];
      var sum := Checksum(data, size);
      intact := Un(blob[size..size + 4]) == sum;
    }

    /** The validating half of fan_state_store_restore. */
    method LoadTargets(t: Topology) returns (targets: Option<seq<nat>>)
      requires t.Valid()
      ensures targets == if fans.None? then None else LoadFans(t, fans.value)
    {
      if fans.None? || |fans.value| != FAN_SIZE { return None; }
      var blob := fans.value;
      var valid := SealChecks(blob, FAN_BODY);
      valid := valid && FanHeaderMatches(t, blob);
      var i := 21;
      while valid && i < 21 + MAX_FANS
        invariant 21 <= i <= 21 + MAX_FANS
        invariant valid ==> FanHeaderMatches(t, blob) && SealIntact(blob, FAN_BODY)
                            && forall j :: 21 <= j < i ==> blob[j] <= 100
        invariant !valid ==> !FansAccepted(t, blob)
      {
        if blob[i] > 100 { valid := false; }
        i := i + 1;
      }
      return if valid then Some(blob[21..21 + t.fans]) else None;
    }

    /** One entry into its zeroed cell; the two bytes of padding stay zero. */
    method WriteEntry(data: array<Byte>, n: nat, e: SavedEntry)
      requires CellOffset(n) + ENTRY <= data.Length && Storable(e)
      requires forall i :: CellOffset(n) <= i < CellOffset(n) + ENTRY ==> data[i] == 0
      modifies data
      ensures CellIs(data[..], n, e)
      ensures forall i :: 0 <= i < data.Length && !(CellOffset(n) <= i < CellOffset(n) + ENTRY) ==>
                data[i] == old(data[i])
    {
      var at := CellOffset(n);
      var interval, duration := Le(e.interval, 4), Le(e.duration, 4);
      forall i | 0 <= i < 4 { data[at + i] := interval[i]; }
      forall i | 0 <= i < 4 { data[at + 4 + i] := duration[i]; }
      data[at + 8] := if e.enabled then 1 else 0;
      data[at + 9] := e.target;
      ghost var bytes := data[at..at + ENTRY];
      assert forall i :: 0 <= i < ENTRY ==> bytes[i] == data[at + i];
      EntryIsFields(bytes, e);
    }

    /** The entries of one fan into their cells, which start at cell `first`. */
    method WriteFan(ghost cells: seq<SavedEntry>, ghost header: seq<Byte>, entries: seq<SavedEntry>,
                    first: nat, data: array<Byte>)
      requires first + |entries| <= |cells| && cells[first..first + |entries|] == entries
      requires forall i :: 0 <= i < |entries| ==> Storable(entries[i])
      requires Written(cells, header, data[..], first)
      modifies data
      ensures Written(cells, header, data[..], first + |entries|)
    {
      var slot := 0;
      while slot < |entries|
        invariant 0 <= slot <= |entries| && Written(cells, header, data[..], first + slot)
      {
        ghost var was := data[..];
        assert cells[first + slot] == cells[first..first + |entries|][slot];
        assert forall i :: 0 <= i < data.Length ==> was[i] == data[i];
        WriteEntry(data, first + slot, entries[slot]);
        OneMoreCell(cells, header, was, data[..], first + slot);
        slot := slot + 1;
      }
    }

    /** The structure with its header set and everything else zero. */
    method EmptyBody(t: Topology, saved: Plan) returns (data: array<Byte>)
      requires t.Valid() && PlanShaped(t, saved)
      ensures fresh(data)
      ensures Written(AllCells(t, saved), ScheduleHeader(t, saved.inhibited), data[..], 0)
    {
      var header := ScheduleHeader(t, saved.inhibited);
      data := new Byte[ScheduleBody(t)](i => if 0 <= i < HEADER then header[i] else 0);
      assert data[..][..HEADER] == header;
    }

    /** The checksummed part of the blob: the zeroed structure, filled entry by entry. */
    method FillBody(t: Topology, saved: Plan) returns (body: seq<Byte>)
      requires t.Valid() && PlanShaped(t, saved)
      ensures body == ScheduleHeader(t, saved.inhibited) + Cells(t, saved, 0)
    {
      ghost var cells, header := AllCells(t, saved), ScheduleHeader(t, saved.inhibited);
      var data := EmptyBody(t, saved);
      var f, first := 0, 0;
      while f < t.fans
        modifies data
        invariant 0 <= f <= t.fans && first == f * t.slots && Written(cells, header, data[..], first)
      {
        FanHasItsCells(t, saved, f);
        WriteFan(cells, header, saved.entries[f], first, data);
        f, first := f + 1, first + t.slots;
      }
      body := data[..];
      WrittenBodyIs(t, saved, header, body);
    }

    /** save_to_nvs of the scheduler: fill, seal, commit; a failed commit keeps the old blob. */
    method SaveSchedules(t: Topology, saved: Plan, commits: bool) returns (ok: bool)
      requires t.Valid() && PlanShaped(t, saved)
      modifies this`plan
      ensures ok == commits && plan == if ok then Some(SavePlan(t, saved)) else old(plan)
    {
      var body := FillBody(t, saved);
      var blob := Seal(body);
      ok := commits;
      if ok { plan := Some(blob + Zeros(4)); }
    }

    /** load_from_nvs: the slots of one fan, field by field; what is off or invalid stays empty. */
    method LoadFan(t: Topology, blob: seq<Byte>, f: nat) returns (entries: seq<SavedEntry>)
      requires t.Valid() && |blob| == ScheduleSize(t) && f < t.fans
      ensures entries == seq(t.slots, slot requires 0 <= slot < t.slots => LoadEntry(t, blob, f, slot))
    {
      entries := [];
      var slot := 0;
      while slot < t.slots
        invariant 0 <= slot <= t.slots && |entries| == slot
        invariant forall j :: 0 <= j < slot ==> entries[j] == LoadEntry(t, blob, f, j)
      {
        CellInRange(t, f, slot);
        var at := CellOffset(f * t.slots + slot);
        var interval, duration, target := Un(blob[at..at + 4]), Un(blob[at + 4..at + 8]), blob[at + 9];
        var entry := EMPTY;
        if blob[at + 8] != 0 && SchedulerCore.EntryConfigValid(interval, duration, target) {
          entry := SavedEntry(true, interval, duration, target);
        }
        FieldsOfEntry(blob, at);
        entries := entries + [entry];
        slot := slot + 1;
      }
    }

    method LoadSchedules(t: Topology) returns (loaded: Option<Plan>)
      requires t.Valid()
      ensures loaded == if plan.None? then None else LoadPlan(t, plan.value)
    {
      if plan.None? || |plan.value| != ScheduleSize(t) { return None; }
      var blob := plan.value;
      var intact := SealChecks(blob, ScheduleBody(t));
      if !intact || !ScheduleHeaderMatches(t, blob) { return None; }
      var entries: seq<seq<SavedEntry>> := [];
      var f := 0;
      while f < t.fans
        invariant 0 <= f <= t.fans && |entries| == f
        invariant forall j :: 0 <= j < f ==>
                    entries[j] == seq(t.slots, slot requires 0 <= slot < t.slots => LoadEntry(t, blob, j, slot))
      {
        var fan := LoadFan(t, blob, f);
        entries := entries + [fan];
        f := f + 1;
      }
      loaded := Some(Plan(blob[22] != 0, entries));
      assert loaded.value.entries == LoadPlan(t, blob).value.entries;
    }
  }

  lemma FieldsOfEntry(blob: seq<Byte>, at: nat)
    requires at + ENTRY <= |blob|
    ensures EntryAt(blob[at..at + ENTRY])
            == SavedEntry(blob[at + 8] != 0, Un(blob[at..at + 4]), Un(blob[at + 4..at + 8]), blob[at + 9])
  {
    SliceOfSlice(blob, at, at + ENTRY, 0, 4);
    SliceOfSlice(blob, at, at + ENTRY, 4, 8);
  }

  /**
   * The bytes a completed stop left behind, read back after a reset: zero targets and
   * the inhibit come back as saved, and nothing starts to move.
   */
  lemma StoppedBytesStartNoMotion(t: Topology, cfg: MotorCore.Config, targets: seq<nat>, plan: Plan, now: nat)
    requires t.Valid() && |targets| == t.fans && PlanShaped(t, plan)
    requires CrashSafety.AllZero(targets) && plan.inhibited
    ensures var loaded, schedule := LoadFans(t, SaveFans(t, targets)), LoadPlan(t, SavePlan(t, plan));
            && loaded == Some(targets) && schedule.Some?
            && CrashTheorems.StartsNoMotion(CrashTheorems.BootMotors(cfg, loaded.value),
                                            CrashTheorems.BootScheduler(schedule.value, now))
  {
    FansRoundTrip(t, targets);
    PlanRoundTrip(t, plan);
    CrashTheorems.SafeBlobsStartNoMotion(cfg, targets, KeptPlan(plan), now);
  }

  /** Schedules written as bytes and booted from them are the same schedules. */
  lemma ScheduleBytesSurviveReset(t: Topology, s: SchedulerCore.Sched, now: nat)
    requires t.Valid() && PlanShaped(t, PlanOf(s)) && SchedulerEffects.Configured(s)
    ensures var loaded := LoadPlan(t, SavePlan(t, PlanOf(s)));
            loaded.Some? && CrashTheorems.SameSchedules(s, CrashTheorems.BootScheduler(loaded.value, now), now)
  {
    PlanRoundTrip(t, PlanOf(s));
    CrashTheorems.SchedulesSurviveReset(s, now);
    var kept, boot := KeptPlan(PlanOf(s)), CrashTheorems.BootScheduler(KeptPlan(PlanOf(s)), now);
    forall f, i | 0 <= f < |s.fans| && 0 <= i < |s.fans[f].entries|
      ensures CrashTheorems.SameEntry(s.fans[f].entries[i], boot.fans[f].entries[i], now)
    {
      assert kept.entries[f][i] == Kept(Strip(s.fans[f].entries[i]));
    }
  }
}
