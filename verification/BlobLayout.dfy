/**
 * Where every field of the two persisted blobs lies, byte for byte, which blobs are
 * accepted, and that a blob is bound to the topology it was saved under.
 */
module BlobLayout {
  import opened Prelude
  import opened BitArith
  import opened Fnv
  import opened Persist
  import opened CrashRun

  // ---- integers as the ESP32 stores them ----

  function Word2(b: seq<Byte>, at: nat): nat
    requires at + 2 <= |b|
  {
    b[at] as nat + 0x100 * b[at + 1] as nat
  }

  function Word4(b: seq<Byte>, at: nat): nat
    requires at + 4 <= |b|
  {
    b[at] as nat + 0x100 * b[at + 1] as nat + 0x1_0000 * b[at + 2] as nat + 0x100_0000 * b[at + 3] as nat
  }

  function Word8(b: seq<Byte>, at: nat): nat
    requires at + 8 <= |b|
  {
    Word4(b, at) + 0x1_0000_0000 * Word4(b, at + 4)
  }

  /** The loader's fields are these integers. */
  lemma FieldIsWord(b: seq<Byte>, at: nat)
    ensures at < |b| ==> Un(b[at..at + 1]) == b[at]
    ensures at + 2 <= |b| ==> Un(b[at..at + 2]) == Word2(b, at)
    ensures at + 4 <= |b| ==> Un(b[at..at + 4]) == Word4(b, at)
  {
    if at < |b| { UnSplits(b, at, at + 1); }
    if at + 2 <= |b| {
      UnSplits(b, at, at + 2);
      UnSplits(b, at + 1, at + 2);
    }
    if at + 4 <= |b| {
      UnSplits(b, at, at + 4);
      UnSplits(b, at + 1, at + 4);
      UnSplits(b, at + 2, at + 4);
      UnSplits(b, at + 3, at + 4);
    }
  }

  lemma UnSplits(b: seq<Byte>, lo: nat, hi: nat)
    requires lo < hi <= |b|
    ensures Un(b[lo..hi]) == b[lo] + 256 * Un(b[lo + 1..hi])
    ensures lo + 1 == hi ==> Un(b[lo..hi]) == b[lo]
  {
    assert b[lo..hi][1..] == b[lo + 1..hi];
  }

  lemma LongFieldIsWord(b: seq<Byte>, at: nat)
    requires at + 8 <= |b|
    ensures Un(b[at..at + 8]) == Word8(b, at)
  {
    UnSplits(b, at, at + 8);
    UnSplits(b, at + 1, at + 8);
    UnSplits(b, at + 2, at + 8);
    UnSplits(b, at + 3, at + 8);
    FieldIsWord(b, at + 4);
  }

  // ---- the fan-state blob ----

  /** The fan-state schema 3: magic "3TSF", version, length, wiring, numbering, targets, checksum. */
  predicate FanBlob(t: Topology, b: seq<Byte>) {
    && |b| == 32
    && Word4(b, 0) == 0x46535433 && Word2(b, 4) == 3 && Word2(b, 6) == 32
    && Word8(b, 8) == t.fingerprint && Word4(b, 16) == t.start && b[20] == t.fans
    && (forall i :: 21 <= i < 25 ==> b[i] <= 100)
    && Word4(b, 28) == Fnv1a(b[..28])
  }

  lemma FanFields(b: seq<Byte>)
    requires |b| == 32
    ensures Un(b[0..4]) == Word4(b, 0) && Un(b[4..6]) == Word2(b, 4) && Un(b[6..8]) == Word2(b, 6)
    ensures Un(b[8..16]) == Word8(b, 8) && Un(b[16..20]) == Word4(b, 16) && Un(b[20..21]) == b[20]
    ensures Un(b[28..32]) == Word4(b, 28)
  {
    FieldIsWord(b, 0);
    FieldIsWord(b, 4);
    FieldIsWord(b, 6);
    LongFieldIsWord(b, 8);
    FieldIsWord(b, 16);
    FieldIsWord(b, 20);
    FieldIsWord(b, 28);
  }

  /** A fan-state blob is restored exactly when every byte is as the schema says. */
  lemma FanBlobIsAccepted(t: Topology, b: seq<Byte>)
    requires t.Valid()
    ensures LoadFans(t, b).Some? <==> FanBlob(t, b)
    ensures LoadFans(t, b).Some? ==>
              |LoadFans(t, b).value| == t.fans && forall i :: 0 <= i < t.fans ==> LoadFans(t, b).value[i] == b[21 + i]
  {
    if |b| == 32 {
      FanFields(b);
    }
  }

  /** What save_now commits: such a blob, with the targets from byte 21 and zeros after them. */
  lemma SavedFansAreBlob(t: Topology, targets: seq<nat>)
    requires t.Valid() && |targets| == t.fans && forall i :: 0 <= i < |targets| ==> targets[i] <= 100
    ensures var b := SaveFans(t, targets);
            && FanBlob(t, b) && (forall i :: 0 <= i < t.fans ==> b[21 + i] == targets[i])
            && forall i :: 21 + t.fans <= i < 28 ==> b[i] == 0
  {
    var b := SaveFans(t, targets);
    FansRoundTrip(t, targets);
    FanBlobIsAccepted(t, b);
    FanSlices(t, targets);
    assert b[25..28] == Zeros(3);
    forall i | 21 + t.fans <= i < 28 ensures b[i] == 0 {
      if i < 25 { assert b[i] == b[21..25][i - 21]; } else { assert b[i] == b[25..28][i - 25]; }
    }
  }

  /** Targets saved for one wiring, numbering or number of fans are refused under any other. */
  lemma FansAreBound(t: Topology, u: Topology, targets: seq<nat>)
    requires t.Valid() && u.Valid()
    requires |targets| == t.fans && forall i :: 0 <= i < |targets| ==> targets[i] <= 100
    ensures LoadFans(u, SaveFans(t, targets)).Some?
            <==> u.fingerprint == t.fingerprint && u.start == t.start && u.fans == t.fans
  {
    SavedFansAreBlob(t, targets);
    FanBlobIsAccepted(u, SaveFans(t, targets));
  }

  // ---- the schedule blob ----

  /** Schema 4; the checksum lies behind four fans' cells of twelve bytes each, then padding. */
  predicate ScheduleBlob(t: Topology, b: seq<Byte>) {
    && |b| == 32 + 48 * t.slots
    && Word4(b, 0) == 0x53434834 && Word2(b, 4) == 4 && Word2(b, 6) == 32 + 48 * t.slots
    && Word8(b, 8) == t.fingerprint && Word4(b, 16) == t.start && b[20] == t.fans && b[21] == t.slots && b[22] <= 1
    && Word4(b, 24 + 48 * t.slots) == Fnv1a(b[..24 + 48 * t.slots])
  }

  /** The twelve bytes of one entry: interval, duration, enabled, target and two reserved. */
  predicate EntryIn(b: seq<Byte>, at: nat, e: SavedEntry) {
    && at + 12 <= |b| && Word4(b, at) == e.interval && Word4(b, at + 4) == e.duration
    && b[at + 8] == (if e.enabled then 1 else 0) && b[at + 9] == e.target && b[at + 10] == b[at + 11] == 0
  }

  function EntryAtByte(t: Topology, f: nat, slot: nat): nat { 24 + 12 * (f * t.slots + slot) }

  lemma ScheduleFields(b: seq<Byte>)
    requires |b| >= 32
    ensures Un(b[0..4]) == Word4(b, 0) && Un(b[4..6]) == Word2(b, 4) && Un(b[6..8]) == Word2(b, 6)
    ensures Un(b[8..16]) == Word8(b, 8) && Un(b[16..20]) == Word4(b, 16) && Un(b[20..21]) == b[20]
    ensures Un(b[21..22]) == b[21]
  {
    FieldIsWord(b, 0);
    FieldIsWord(b, 4);
    FieldIsWord(b, 6);
    LongFieldIsWord(b, 8);
    FieldIsWord(b, 16);
    FieldIsWord(b, 20);
    FieldIsWord(b, 21);
  }

  /** A schedule blob is loaded exactly when its header and checksum are as the schema says. */
  lemma ScheduleBlobIsAccepted(t: Topology, b: seq<Byte>)
    requires t.Valid()
    ensures LoadPlan(t, b).Some? <==> ScheduleBlob(t, b)
    ensures LoadPlan(t, b).Some? ==> LoadPlan(t, b).value.inhibited == (b[22] == 1)
  {
    assert ScheduleBody(t) == 24 + 48 * t.slots;
    if |b| == 32 + 48 * t.slots {
      ScheduleFields(b);
      FieldIsWord(b, 24 + 48 * t.slots);
    }
  }

  lemma SavedCellIsThere(t: Topology, plan: Plan, n: nat)
    requires t.Valid() && PlanShaped(t, plan) && n < MAX_FANS * t.slots && CellOffset(n) + ENTRY <= ScheduleBody(t)
    ensures EntryIn(SavePlan(t, plan), CellOffset(n), Cell(t, plan, n))
  {
    SavedCell(t, plan, n);
    EntryBytesAre(Cell(t, plan, n));
    EntryMoves(SavePlan(t, plan), CellOffset(n), EntryBytes(Cell(t, plan, n)), Cell(t, plan, n));
  }

  lemma SavedEntryIsThere(t: Topology, plan: Plan, f: nat, slot: nat)
    requires t.Valid() && PlanShaped(t, plan) && f < t.fans && slot < t.slots
    ensures EntryIn(SavePlan(t, plan), EntryAtByte(t, f, slot), plan.entries[f][slot])
  {
    var n := PlaceOf(t, plan, f, slot);
    SavedCellIsThere(t, plan, n);
  }

  lemma PlaceOf(t: Topology, plan: Plan, f: nat, slot: nat) returns (n: nat)
    requires t.Valid() && PlanShaped(t, plan) && f < t.fans && slot < t.slots
    ensures n < MAX_FANS * t.slots && CellOffset(n) + ENTRY <= ScheduleBody(t)
    ensures Cell(t, plan, n) == plan.entries[f][slot] && EntryAtByte(t, f, slot) == CellOffset(n)
  {
    n := f * t.slots + slot;
    CellOf(t, plan, f, slot);
  }

  lemma EntryMoves(b: seq<Byte>, at: nat, bytes: seq<Byte>, e: SavedEntry)
    requires at + 12 <= |b| && b[at..at + 12] == bytes && EntryIn(bytes, 0, e)
    ensures EntryIn(b, at, e)
  {
    forall i | 0 <= i < 12 ensures b[at + i] == bytes[i] { assert b[at + i] == b[at..at + 12][i]; }
  }

  lemma EntryBytesAre(e: SavedEntry)
    requires Storable(e)
    ensures EntryIn(EntryBytes(e), 0, e)
  {
    var bytes := EntryBytes(e);
    EntryRoundTrip(e);
    FieldIsWord(bytes, 0);
    FieldIsWord(bytes, 4);
    assert bytes[10..12] == Zeros(2);
    assert bytes[10] == bytes[10..12][0] && bytes[11] == bytes[10..12][1];
  }

  /** What save_to_nvs commits: such a blob, with every entry of every fan in its place. */
  lemma SavedPlanIsBlob(t: Topology, plan: Plan)
    requires t.Valid() && PlanShaped(t, plan)
    ensures var b := SavePlan(t, plan);
            && ScheduleBlob(t, b) && b[22] == (if plan.inhibited then 1 else 0)
            && forall f, slot :: 0 <= f < t.fans && 0 <= slot < t.slots ==>
                 EntryIn(b, EntryAtByte(t, f, slot), plan.entries[f][slot])
  {
    PlanRoundTrip(t, plan);
    ScheduleBlobIsAccepted(t, SavePlan(t, plan));
    ScheduleHeaderIsSaved(t, plan);
    forall f, slot | 0 <= f < t.fans && 0 <= slot < t.slots
      ensures EntryIn(SavePlan(t, plan), EntryAtByte(t, f, slot), plan.entries[f][slot])
    {
      SavedEntryIsThere(t, plan, f, slot);
    }
  }

  /** Schedules saved for one wiring, numbering or shape are refused under any other. */
  lemma PlansAreBound(t: Topology, u: Topology, plan: Plan)
    requires t.Valid() && u.Valid() && PlanShaped(t, plan)
    ensures LoadPlan(u, SavePlan(t, plan)).Some?
            <==> u.fingerprint == t.fingerprint && u.start == t.start && u.fans == t.fans && u.slots == t.slots
  {
    SavedPlanIsBlob(t, plan);
    ScheduleBlobIsAccepted(u, SavePlan(t, plan));
  }

  // ---- the checksum, against published FNV-1a values ----

  /** One step of the checksum, worked out: the accumulator's halves, the xor and the product. */
  lemma StepIs(high: nat, low: Byte, b: Byte, xor: Byte, q: nat, r: nat)
    requires Xor(low, b) == xor && (high * 256 + xor) * PRIME == q * WORD + r && r < WORD
    ensures Fnv.Step(high * 256 + low, b) == r
  {
    var h := high * 256 + low;
    JoinedParts(high, low);
    assert Mix(h, b) == high * 256 + xor;
    RemainderIs((high * 256 + xor) * PRIME, q, r);
  }

  /** An exclusive or, bit by bit. */
  predicate XorsTo(a: nat, b: nat, x: nat, w: nat) {
    w == 0 || ((a + b) % 2 == x % 2 && XorsTo(a / 2, b / 2, x / 2, w - 1))
  }

  lemma {:induction false} XorIs(a: nat, b: nat, x: nat, w: nat)
    requires XorsTo(a, b, x, w) && x < Pow2(w)
    ensures XorBits(a, b, w) == x
  {
    if w > 0 { XorIs(a / 2, b / 2, x / 2, w - 1); }
  }

  /** The published FNV-1a values of the empty string and of "a". */
  lemma KnownAnswers()
    ensures Fnv1a([]) == 0x811C9DC5
    ensures Fnv1a([0x61]) == 0xE40C292C
  {
    Pow2Values();
    XorIs(0xC5, 0x61, 0xA4, 8);
    StepIs(0x811C9D, 0xC5, 0x61, 0xA4, 0x811D68, 0xE40C292C);
    FoldOne(0x811C9DC5, 0x61, []);
    assert Fold(0xE40C292C, []) == 0xE40C292C;
  }

  lemma FoldOne(h: nat, b: Byte, rest: seq<Byte>)
    ensures Fold(h, [b] + rest) == Fold(Fnv.Step(h, b), rest)
  {
    assert ([b] + rest)[1..] == rest;
  }
}
