/**
 * The persisted blobs of main/fan_state_store.c and main/scheduler.c, byte by byte:
 * what save writes, what load accepts, and which corruptions load detects.
 */
module Persist {
  import opened Prelude
  import opened Fnv
  import SchedulerCore
  import opened CrashRun

  const MAX_FANS: nat := 4
  const FAN_MAGIC: nat := 0x46535433
  const FAN_VERSION: nat := 3
  const SCHEDULE_MAGIC: nat := 0x53434834
  const SCHEDULE_VERSION: nat := 4

  /** What a blob is bound to: wiring fingerprint, numbering, fan and slot counts. */
  datatype Topology = Topology(fingerprint: nat, start: nat, fans: nat, slots: nat) {
    predicate Valid() {
      fingerprint < 0x1_0000_0000_0000_0000 && start < 0x8000_0000 && 1 <= fans <= MAX_FANS && 1 <= slots <= 8
    }
  }

  // ---- little-endian fields ----

  function Le(n: nat, width: nat): (bytes: seq<Byte>)
    ensures |bytes| == width
  {
    if width == 0 then [] else [n % 256] + Le(n / 256, width - 1)
  }

  function Un(bytes: seq<Byte>): nat
    decreases |bytes|
  {
    if bytes == [] then 0 else bytes[0] + 256 * Un(bytes[1..])
  }

  function Power(width: nat): nat { if width == 0 then 1 else 256 * Power(width - 1) }

  lemma {:induction false} UnLe(n: nat, width: nat)
    requires n < Power(width)
    ensures Un(Le(n, width)) == n
  {
    if width > 0 {
      UnLe(n / 256, width - 1);
      assert Le(n, width)[1..] == Le(n / 256, width - 1);
    }
  }

  lemma {:induction false} UnInjective(a: seq<Byte>, b: seq<Byte>)
    requires |a| == |b| && a != b
    ensures Un(a) != Un(b)
    decreases |a|
  {
    if a[1..] != b[1..] {
      UnInjective(a[1..], b[1..]);
    } else {
      assert a == [a[0]] + a[1..] && b == [b[0]] + b[1..];
    }
  }

  lemma Powers()
    ensures Power(1) == 0x100 && Power(2) == 0x1_0000 && Power(4) == 0x1_0000_0000
    ensures Power(8) == 0x1_0000_0000_0000_0000
  {
    assert Power(3) == 0x100_0000;
    assert Power(6) == 0x1_0000_0000_0000;
  }

  function Zeros(n: nat): seq<Byte> { seq(n, _ => 0) }

  // ---- the checksum over a region ----

  /** A body with its checksum appended. */
  function Sealed(body: seq<Byte>): (blob: seq<Byte>)
    ensures |blob| == |body| + 4
  {
    body + Le(Fnv1a(body), 4)
  }

  /** The stored checksum after `size` bytes is the one of those bytes. */
  predicate SealIntact(blob: seq<Byte>, size: nat)
    requires size + 4 <= |blob|
  {
    Un(blob[size..size + 4]) == Fnv1a(blob[..size])
  }

  lemma SealedIsIntact(body: seq<Byte>, tail: seq<Byte>)
    ensures SealIntact(Sealed(body) + tail, |body|)
  {
    var blob := Sealed(body) + tail;
    assert blob[..|body|] == body && blob[|body|..|body| + 4] == Le(Fnv1a(body), 4);
    Powers();
    UnLe(Fnv1a(body), 4);
  }

  /** Changing one byte of an intact region or of its checksum breaks the seal. */
  lemma CorruptionBreaksSeal(blob: seq<Byte>, size: nat, i: nat, b: Byte)
    requires size + 4 <= |blob| && i < size + 4 && b != blob[i] && SealIntact(blob, size)
    ensures !SealIntact(blob[i := b], size)
  {
    var bad := blob[i := b];
    if i < size {
      assert bad[..size] == blob[..size][i := b] && bad[size..size + 4] == blob[size..size + 4];
      ChecksumSeesByte(blob[..size], i, b);
    } else {
      assert bad[..size] == blob[..size];
      assert bad[size..size + 4][i - size] != blob[size..size + 4][i - size];
      UnInjective(bad[size..size + 4], blob[size..size + 4]);
    }
  }

  // ---- fan-state blob, schema 3 ----

  const FAN_BODY: nat := 28
  const FAN_SIZE: nat := 32

  function FanBody(t: Topology, targets: seq<nat>): (body: seq<Byte>)
    requires |targets| <= MAX_FANS && forall i :: 0 <= i < |targets| ==> targets[i] < 256
    ensures |body| == FAN_BODY
  {
    Le(FAN_MAGIC, 4) + Le(FAN_VERSION, 2) + Le(FAN_SIZE, 2) + Le(t.fingerprint, 8) + Le(t.start, 4)
    + Le(t.fans, 1) + (targets + Zeros(MAX_FANS - |targets|)) + Zeros(3)
  }

  function SaveFans(t: Topology, targets: seq<nat>): (blob: seq<Byte>)
    requires |targets| <= MAX_FANS && forall i :: 0 <= i < |targets| ==> targets[i] < 256
    ensures |blob| == FAN_SIZE
  {
    Sealed(FanBody(t, targets))
  }

  predicate FanHeaderMatches(t: Topology, blob: seq<Byte>)
    requires |blob| == FAN_SIZE
  {
    && Un(blob[0..4]) == FAN_MAGIC && Un(blob[4..6]) == FAN_VERSION && Un(blob[6..8]) == FAN_SIZE
    && Un(blob[8..16]) == t.fingerprint && Un(blob[16..20]) == t.start && Un(blob[20..21]) == t.fans
  }

  /** The validation of fan_state_store_restore: length, header, checksum, every target. */
  predicate FansAccepted(t: Topology, blob: seq<Byte>) {
    && |blob| == FAN_SIZE && FanHeaderMatches(t, blob) && SealIntact(blob, FAN_BODY)
    && forall i :: 21 <= i < 21 + MAX_FANS ==> blob[i] <= 100
  }

  function LoadFans(t: Topology, blob: seq<Byte>): Option<seq<nat>> {
    if t.fans <= MAX_FANS && FansAccepted(t, blob) then Some(blob[21..21 + t.fans]) else None
  }

  /** Reading back the fields both headers share. */
  lemma FieldsRead(t: Topology, magic: nat, version: nat, size: nat)
    requires t.Valid() && magic < 0x1_0000_0000 && version < 0x1_0000 && size < 0x1_0000
    ensures Un(Le(magic, 4)) == magic && Un(Le(version, 2)) == version && Un(Le(size, 2)) == size
    ensures Un(Le(t.fingerprint, 8)) == t.fingerprint && Un(Le(t.start, 4)) == t.start
    ensures Un(Le(t.fans, 1)) == t.fans && Un(Le(t.slots, 1)) == t.slots
  {
    Powers();
    UnLe(magic, 4);
    UnLe(version, 2);
    UnLe(size, 2);
    UnLe(t.fingerprint, 8);
    UnLe(t.start, 4);
    UnLe(t.fans, 1);
    UnLe(t.slots, 1);
  }

  lemma FanSlices(t: Topology, targets: seq<nat>)
    requires |targets| <= MAX_FANS && forall i :: 0 <= i < |targets| ==> targets[i] < 256
    ensures var b := SaveFans(t, targets);
            && b[0..4] == Le(FAN_MAGIC, 4) && b[4..6] == Le(FAN_VERSION, 2) && b[6..8] == Le(FAN_SIZE, 2)
            && b[8..16] == Le(t.fingerprint, 8) && b[16..20] == Le(t.start, 4) && b[20..21] == Le(t.fans, 1)
            && b[21..25] == targets + Zeros(MAX_FANS - |targets|)
  {
  }

  lemma FanHeaderIsSaved(t: Topology, targets: seq<nat>)
    requires t.Valid() && |targets| == t.fans && forall i :: 0 <= i < |targets| ==> targets[i] <= 100
    ensures FanHeaderMatches(t, SaveFans(t, targets))
    ensures SaveFans(t, targets)[21..25] == targets + Zeros(MAX_FANS - |targets|)
  {
    FanSlices(t, targets);
    FieldsRead(t, FAN_MAGIC, FAN_VERSION, FAN_SIZE);
  }

  /** Saving and loading under the same topology returns the same targets. */
  lemma FansRoundTrip(t: Topology, targets: seq<nat>)
    requires t.Valid() && |targets| == t.fans && forall i :: 0 <= i < |targets| ==> targets[i] <= 100
    ensures LoadFans(t, SaveFans(t, targets)) == Some(targets)
  {
    var blob := SaveFans(t, targets);
    FanHeaderIsSaved(t, targets);
    SealedIsIntact(FanBody(t, targets), []);
    assert Sealed(FanBody(t, targets)) + [] == blob;
    SavedTargets(t, targets, blob);
  }

  lemma SavedTargets(t: Topology, targets: seq<nat>, blob: seq<Byte>)
    requires t.Valid() && |targets| == t.fans && forall i :: 0 <= i < |targets| ==> targets[i] <= 100
    requires |blob| == FAN_SIZE && blob[21..25] == targets + Zeros(MAX_FANS - |targets|)
    ensures forall i :: 21 <= i < 21 + MAX_FANS ==> blob[i] <= 100
    ensures blob[21..21 + t.fans] == targets
  {
    forall i | 21 <= i < 21 + MAX_FANS ensures blob[i] <= 100 { assert blob[i] == blob[21..25][i - 21]; }
    assert blob[21..21 + t.fans] == blob[21..25][..t.fans];
  }

  /** No single changed byte of an accepted fan blob goes unnoticed. */
  lemma FanCorruptionIsDetected(t: Topology, blob: seq<Byte>, i: nat, b: Byte)
    requires LoadFans(t, blob).Some? && i < FAN_SIZE && b != blob[i]
    ensures LoadFans(t, blob[i := b]) == None
  {
    CorruptionBreaksSeal(blob, FAN_BODY, i, b);
  }

  // ---- schedule blob, schema 4 ----

  const HEADER: nat := 24
  const ENTRY: nat := 12

  /** Offset of the checksum; the struct ends in four bytes of alignment padding. */
  function ScheduleBody(t: Topology): nat { HEADER + MAX_FANS * t.slots * ENTRY }

  function ScheduleSize(t: Topology): nat { ScheduleBody(t) + 8 }

  const EMPTY := SavedEntry(false, 0, 0, 0)

  predicate Storable(e: SavedEntry) {
    e.interval < 0x1_0000_0000 && e.duration < 0x1_0000_0000 && e.target < 256
  }

  function EntryBytes(e: SavedEntry): (bytes: seq<Byte>)
    requires Storable(e)
    ensures |bytes| == ENTRY
  {
    Le(e.interval, 4) + Le(e.duration, 4) + [if e.enabled then 1 else 0, e.target] + Zeros(2)
  }

  predicate PlanShaped(t: Topology, plan: Plan) {
    && |plan.entries| == t.fans
    && forall f :: 0 <= f < t.fans ==>
         |plan.entries[f]| == t.slots && forall i :: 0 <= i < t.slots ==> Storable(plan.entries[f][i])
  }

  /** The entry of cell n of the fixed array: fan n / slots, slot n % slots; zeros beyond the fans. */
  function Cell(t: Topology, plan: Plan, n: nat): (e: SavedEntry)
    requires t.slots > 0 && PlanShaped(t, plan)
    ensures Storable(e)
  {
    if n / t.slots < t.fans then plan.entries[n / t.slots][n % t.slots] else EMPTY
  }

  /** Cells from n to the end of the array. */
  function Cells(t: Topology, plan: Plan, n: nat): (bytes: seq<Byte>)
    requires t.slots > 0 && PlanShaped(t, plan) && n <= MAX_FANS * t.slots
    ensures |bytes| == (MAX_FANS * t.slots - n) * ENTRY
    decreases MAX_FANS * t.slots - n
  {
    if n == MAX_FANS * t.slots then [] else EntryBytes(Cell(t, plan, n)) + Cells(t, plan, n + 1)
  }

  function ScheduleHeader(t: Topology, inhibited: bool): (bytes: seq<Byte>)
    ensures |bytes| == HEADER
  {
    Le(SCHEDULE_MAGIC, 4) + Le(SCHEDULE_VERSION, 2) + Le(ScheduleSize(t), 2) + Le(t.fingerprint, 8)
    + Le(t.start, 4) + Le(t.fans, 1) + Le(t.slots, 1) + [if inhibited then 1 else 0] + [0]
  }

  function SavePlan(t: Topology, plan: Plan): (blob: seq<Byte>)
    requires t.Valid() && PlanShaped(t, plan)
    ensures |blob| == ScheduleSize(t)
  {
    Sealed(ScheduleHeader(t, plan.inhibited) + Cells(t, plan, 0)) + Zeros(4)
  }

  predicate ScheduleHeaderMatches(t: Topology, blob: seq<Byte>)
    requires |blob| >= HEADER
  {
    && Un(blob[0..4]) == SCHEDULE_MAGIC && Un(blob[4..6]) == SCHEDULE_VERSION && Un(blob[6..8]) == ScheduleSize(t)
    && Un(blob[8..16]) == t.fingerprint && Un(blob[16..20]) == t.start && Un(blob[20..21]) == t.fans
    && Un(blob[21..22]) == t.slots && blob[22] <= 1
  }

  /** The validation of load_from_nvs. */
  predicate PlanAccepted(t: Topology, blob: seq<Byte>) {
    && |blob| == ScheduleSize(t) && ScheduleHeaderMatches(t, blob) && SealIntact(blob, ScheduleBody(t))
  }

  function EntryAt(bytes: seq<Byte>): SavedEntry
    requires |bytes| == ENTRY
  {
    SavedEntry(bytes[8] != 0, Un(bytes[0..4]), Un(bytes[4..8]), bytes[9])
  }

  /** An enabled entry with a valid configuration is taken over; any other stays empty. */
  function Kept(e: SavedEntry): SavedEntry {
    if e.enabled && SchedulerCore.EntryConfigValid(e.interval, e.duration, e.target) then e else EMPTY
  }

  function CellOffset(n: nat): nat { HEADER + n * ENTRY }

  function LoadCell(blob: seq<Byte>, n: nat): SavedEntry
    requires CellOffset(n) + ENTRY <= |blob|
  {
    Kept(EntryAt(blob[CellOffset(n)..CellOffset(n) + ENTRY]))
  }

  function LoadEntry(t: Topology, blob: seq<Byte>, f: nat, slot: nat): SavedEntry
    requires |blob| == ScheduleSize(t) && f < t.fans <= MAX_FANS && slot < t.slots
  {
    CellInRange(t, f, slot);
    LoadCell(blob, f * t.slots + slot)
  }

  lemma CellInRange(t: Topology, f: nat, slot: nat)
    requires f < MAX_FANS && slot < t.slots
    ensures f * t.slots + slot < MAX_FANS * t.slots
    ensures CellOffset(f * t.slots + slot) + ENTRY <= ScheduleBody(t)
  {
    assert f * t.slots <= (MAX_FANS - 1) * t.slots;
  }

  function LoadPlan(t: Topology, blob: seq<Byte>): Option<Plan>
    requires t.Valid()
  {
    if !PlanAccepted(t, blob) then None
    else Some(Plan(blob[22] != 0,
                   seq(t.fans, f requires 0 <= f < t.fans =>
                     seq(t.slots, slot requires 0 <= slot < t.slots => LoadEntry(t, blob, f, slot)))))
  }

  function KeptPlan(plan: Plan): Plan {
    Plan(plan.inhibited,
         seq(|plan.entries|, f requires 0 <= f < |plan.entries| =>
           seq(|plan.entries[f]|, i requires 0 <= i < |plan.entries[f]| => Kept(plan.entries[f][i]))))
  }

  lemma HeaderSlices(t: Topology, inhibited: bool)
    ensures var h := ScheduleHeader(t, inhibited);
            && h[0..4] == Le(SCHEDULE_MAGIC, 4) && h[4..6] == Le(SCHEDULE_VERSION, 2)
            && h[6..8] == Le(ScheduleSize(t), 2) && h[8..16] == Le(t.fingerprint, 8) && h[16..20] == Le(t.start, 4)
            && h[20..21] == Le(t.fans, 1) && h[21..22] == Le(t.slots, 1) && h[22] == if inhibited then 1 else 0
  {
  }

  lemma HeaderFields(t: Topology, inhibited: bool)
    requires t.Valid()
    ensures ScheduleHeaderMatches(t, ScheduleHeader(t, inhibited))
    ensures ScheduleHeader(t, inhibited)[22] == if inhibited then 1 else 0
  {
    HeaderSlices(t, inhibited);
    FieldsRead(t, SCHEDULE_MAGIC, SCHEDULE_VERSION, ScheduleSize(t));
  }

  lemma HeaderIsRead(t: Topology, blob: seq<Byte>, header: seq<Byte>)
    requires |header| == HEADER <= |blob| && blob[..HEADER] == header
    ensures ScheduleHeaderMatches(t, blob) == ScheduleHeaderMatches(t, header) && blob[22] == header[22]
  {
    forall lo, hi | 0 <= lo <= hi <= HEADER ensures blob[lo..hi] == header[lo..hi] {
      SliceOfPrefix(blob, HEADER, lo, hi);
    }
  }

  lemma SliceOfPrefix(bytes: seq<Byte>, n: nat, lo: nat, hi: nat)
    requires lo <= hi <= n <= |bytes|
    ensures bytes[..n][lo..hi] == bytes[lo..hi]
  {
  }

  lemma ScheduleHeaderIsSaved(t: Topology, plan: Plan)
    requires t.Valid() && PlanShaped(t, plan)
    ensures ScheduleHeaderMatches(t, SavePlan(t, plan))
    ensures SavePlan(t, plan)[22] == if plan.inhibited then 1 else 0
  {
    var header := ScheduleHeader(t, plan.inhibited);
    assert SavePlan(t, plan)[..HEADER] == header;
    HeaderFields(t, plan.inhibited);
    HeaderIsRead(t, SavePlan(t, plan), header);
  }

  /** Cell n of the array is where the loader looks for it. */
  lemma {:induction false} CellsAt(t: Topology, plan: Plan, from: nat, n: nat)
    requires t.slots > 0 && PlanShaped(t, plan) && from <= n < MAX_FANS * t.slots
    ensures var k := (n - from) * ENTRY;
            k + ENTRY <= |Cells(t, plan, from)|
            && Cells(t, plan, from)[k..k + ENTRY] == EntryBytes(Cell(t, plan, n))
    decreases n - from
  {
    var bytes := Cells(t, plan, from);
    if from < n {
      CellsAt(t, plan, from + 1, n);
      var k := (n - from - 1) * ENTRY;
      assert bytes[k + ENTRY..k + 2 * ENTRY] == Cells(t, plan, from + 1)[k..k + ENTRY];
    }
  }

  lemma EntryRoundTrip(e: SavedEntry)
    requires Storable(e)
    ensures EntryAt(EntryBytes(e)) == e
  {
    var bytes := EntryBytes(e);
    Powers();
    assert bytes[0..4] == Le(e.interval, 4) && bytes[4..8] == Le(e.duration, 4);
    UnLe(e.interval, 4);
    UnLe(e.duration, 4);
  }

  /** The bytes of cell n in the saved blob. */
  lemma SavedCell(t: Topology, plan: Plan, n: nat)
    requires t.Valid() && PlanShaped(t, plan) && n < MAX_FANS * t.slots
    requires CellOffset(n) + ENTRY <= ScheduleBody(t)
    ensures SavePlan(t, plan)[CellOffset(n)..CellOffset(n) + ENTRY] == EntryBytes(Cell(t, plan, n))
  {
    var blob, header, cells := SavePlan(t, plan), ScheduleHeader(t, plan.inhibited), Cells(t, plan, 0);
    CellsAt(t, plan, 0, n);
    SlicePast(header, cells, Le(Fnv1a(header + cells), 4) + Zeros(4), n * ENTRY, n * ENTRY + ENTRY);
    assert blob == header + cells + (Le(Fnv1a(header + cells), 4) + Zeros(4));
  }

  lemma SlicePast(a: seq<Byte>, b: seq<Byte>, c: seq<Byte>, lo: nat, hi: nat)
    requires lo <= hi <= |b|
    ensures (a + b + c)[|a| + lo..|a| + hi] == b[lo..hi]
  {
  }

  /** The cell of a fan's slot lies in the array and holds that entry. */
  lemma CellOf(t: Topology, plan: Plan, f: nat, slot: nat)
    requires t.Valid() && PlanShaped(t, plan) && f < t.fans && slot < t.slots
    ensures var n := f * t.slots + slot;
            && n < MAX_FANS * t.slots && CellOffset(n) + ENTRY <= ScheduleBody(t)
            && Cell(t, plan, n) == plan.entries[f][slot]
  {
    CellInRange(t, f, slot);
    CellIndex(t, f, slot);
  }

  lemma EntryIsLoaded(t: Topology, plan: Plan, blob: seq<Byte>, f: nat, slot: nat)
    requires t.Valid() && PlanShaped(t, plan) && |blob| == ScheduleSize(t) && f < t.fans && slot < t.slots
    requires forall n :: 0 <= n < MAX_FANS * t.slots ==> LoadCell(blob, n) == Kept(Cell(t, plan, n))
    ensures LoadEntry(t, blob, f, slot) == Kept(plan.entries[f][slot])
  {
    CellOf(t, plan, f, slot);
  }

  lemma SavedCellIsLoaded(t: Topology, plan: Plan, n: nat)
    requires t.Valid() && PlanShaped(t, plan) && n < MAX_FANS * t.slots
    requires CellOffset(n) + ENTRY <= ScheduleBody(t)
    ensures LoadCell(SavePlan(t, plan), n) == Kept(Cell(t, plan, n))
  {
    SavedCell(t, plan, n);
    EntryRoundTrip(Cell(t, plan, n));
  }

  lemma CellIndex(t: Topology, f: nat, slot: nat)
    requires slot < t.slots
    ensures (f * t.slots + slot) / t.slots == f && (f * t.slots + slot) % t.slots == slot
  {
    var n := f * t.slots + slot;
    QuotientIsUnique(t.slots, n / t.slots, n % t.slots, f, slot);
  }

  lemma QuotientIsUnique(s: nat, q: nat, r: nat, p: nat, v: nat)
    requires r < s && v < s && s * q + r == s * p + v
    ensures q == p && r == v
  {
    MultipleIsLarge(s, q - p);
    MultipleIsLarge(s, p - q);
    assert s * (q - p) == s * q - s * p && s * (p - q) == s * p - s * q;
  }

  lemma MultipleIsLarge(s: nat, k: int)
    ensures k >= 1 ==> s * k >= s
  {
  }

  /** Saving and loading returns the inhibit flag and every enabled, valid entry. */
  lemma PlanRoundTrip(t: Topology, plan: Plan)
    requires t.Valid() && PlanShaped(t, plan)
    ensures LoadPlan(t, SavePlan(t, plan)) == Some(KeptPlan(plan))
  {
    var blob := SavePlan(t, plan);
    ScheduleHeaderIsSaved(t, plan);
    SealedIsIntact(ScheduleHeader(t, plan.inhibited) + Cells(t, plan, 0), Zeros(4));
    forall n | 0 <= n < MAX_FANS * t.slots ensures LoadCell(blob, n) == Kept(Cell(t, plan, n)) {
      SavedCellIsLoaded(t, plan, n);
    }
    forall f, slot | 0 <= f < t.fans && 0 <= slot < t.slots
      ensures LoadEntry(t, blob, f, slot) == Kept(plan.entries[f][slot])
    {
      EntryIsLoaded(t, plan, blob, f, slot);
    }
    forall f | 0 <= f < t.fans
      ensures LoadPlan(t, blob).value.entries[f] == KeptPlan(plan).entries[f]
    {
    }
    assert LoadPlan(t, blob).value.entries == KeptPlan(plan).entries;
  }

  /**
   * A single changed byte of an accepted schedule blob is detected if and only if it
   * lies in the checksummed region or in the checksum: the four trailing bytes of
   * structure padding are not covered.
   */
  lemma ScheduleCorruptionIsDetected(t: Topology, blob: seq<Byte>, i: nat, b: Byte)
    requires t.Valid() && PlanAccepted(t, blob) && i < |blob| && b != blob[i]
    ensures LoadPlan(t, blob[i := b]) == None <==> i < ScheduleBody(t) + 4
    ensures i >= ScheduleBody(t) + 4 ==> LoadPlan(t, blob[i := b]) == LoadPlan(t, blob)
  {
    if i < ScheduleBody(t) + 4 {
      CorruptionBreaksSeal(blob, ScheduleBody(t), i, b);
    } else {
      PaddingIsIgnored(t, blob, i, b);
    }
  }

  lemma PaddingIsIgnored(t: Topology, blob: seq<Byte>, i: nat, b: Byte)
    requires t.Valid() && PlanAccepted(t, blob) && ScheduleBody(t) + 4 <= i < |blob|
    ensures LoadPlan(t, blob[i := b]) == LoadPlan(t, blob)
  {
    var bad, size := blob[i := b], ScheduleBody(t);
    assert bad[..size] == blob[..size] && bad[size..size + 4] == blob[size..size + 4];
    assert forall lo, hi :: 0 <= lo <= hi <= HEADER ==> bad[lo..hi] == blob[lo..hi];
    forall f, slot | 0 <= f < t.fans && 0 <= slot < t.slots
      ensures LoadEntry(t, bad, f, slot) == LoadEntry(t, blob, f, slot)
    {
      CellInRange(t, f, slot);
      var at := CellOffset(f * t.slots + slot);
      assert bad[at..at + ENTRY] == blob[at..at + ENTRY];
    }
    forall f | 0 <= f < t.fans ensures LoadPlan(t, bad).value.entries[f] == LoadPlan(t, blob).value.entries[f] {
    }
    assert LoadPlan(t, bad).value.entries == LoadPlan(t, blob).value.entries;
  }

  // ---- filling the blob cell by cell ----

  /** The whole array of cells, the empty ones beyond the fans included. */
  function AllCells(t: Topology, plan: Plan): (cells: seq<SavedEntry>)
    requires t.slots > 0 && PlanShaped(t, plan)
    ensures |cells| == MAX_FANS * t.slots
  {
    seq(MAX_FANS * t.slots, n requires 0 <= n < MAX_FANS * t.slots => Cell(t, plan, n))
  }

  /** The header and the first n cells of the body are written, the rest is still zero. */
  ghost predicate Written(cells: seq<SavedEntry>, header: seq<Byte>, body: seq<Byte>, n: nat) {
    && |body| == CellOffset(|cells|) && n <= |cells| && body[..HEADER] == header
    && (forall m :: 0 <= m < n ==> CellIs(body, m, cells[m]))
    && (forall i :: CellOffset(n) <= i < |body| ==> body[i] == 0)
  }

  predicate CellIs(body: seq<Byte>, m: nat, e: SavedEntry) {
    && Storable(e) && CellOffset(m) + ENTRY <= |body|
    && body[CellOffset(m)..CellOffset(m) + ENTRY] == EntryBytes(e)
  }

  lemma FanHasItsCells(t: Topology, plan: Plan, f: nat)
    requires t.Valid() && PlanShaped(t, plan) && f < t.fans
    ensures (f + 1) * t.slots == f * t.slots + t.slots <= MAX_FANS * t.slots
    ensures AllCells(t, plan)[f * t.slots..f * t.slots + t.slots] == plan.entries[f]
  {
    CellOf(t, plan, f, t.slots - 1);
    forall slot | 0 <= slot < t.slots ensures Cell(t, plan, f * t.slots + slot) == plan.entries[f][slot] {
      CellOf(t, plan, f, slot);
    }
  }

  lemma CellStays(was: seq<Byte>, body: seq<Byte>, m: nat, n: nat, e: SavedEntry)
    requires m < n && CellOffset(n) <= |was| == |body| && CellIs(was, m, e)
    requires forall i :: 0 <= i < CellOffset(n) ==> body[i] == was[i]
    ensures CellIs(body, m, e)
  {
    SameSlice(was, body, CellOffset(m), CellOffset(m) + ENTRY);
  }

  lemma OneMoreCell(cells: seq<SavedEntry>, header: seq<Byte>, was: seq<Byte>, body: seq<Byte>, n: nat)
    requires Written(cells, header, was, n) && n < |cells| && |body| == |was| && CellIs(body, n, cells[n])
    requires forall i :: 0 <= i < |was| && !(CellOffset(n) <= i < CellOffset(n) + ENTRY) ==> body[i] == was[i]
    ensures Written(cells, header, body, n + 1)
  {
    forall m | 0 <= m < n ensures CellIs(body, m, cells[m]) { CellStays(was, body, m, n, cells[m]); }
    SameSlice(was, body, 0, HEADER);
  }

  lemma SameSlice(a: seq<Byte>, b: seq<Byte>, lo: nat, hi: nat)
    requires lo <= hi <= |a| == |b| && forall i :: lo <= i < hi ==> a[i] == b[i]
    ensures a[lo..hi] == b[lo..hi]
  {
  }

  lemma ZerosAreEmpty()
    ensures EntryBytes(EMPTY) == Zeros(ENTRY)
  {
    assert Le(0, 4) == [0, 0, 0, 0] by {
      assert Le(0, 1) == [0];
      assert Le(0, 2) == [0, 0];
      assert Le(0, 3) == [0, 0, 0];
    }
  }

  /** The cells beyond the fans stay zero, which is what an empty cell holds. */
  lemma RestIsEmpty(cells: seq<SavedEntry>, header: seq<Byte>, body: seq<Byte>, first: nat)
    requires Written(cells, header, body, first) && forall m :: first <= m < |cells| ==> cells[m] == EMPTY
    ensures Written(cells, header, body, |cells|)
  {
    ZerosAreEmpty();
    forall m | first <= m < |cells| ensures CellIs(body, m, cells[m]) { AllZeros(body, CellOffset(m)); }
  }

  lemma AllZeros(bytes: seq<Byte>, at: nat)
    requires at + ENTRY <= |bytes| && forall i :: at <= i < |bytes| ==> bytes[i] == 0
    ensures bytes[at..at + ENTRY] == Zeros(ENTRY)
  {
  }

  lemma BeyondFans(t: Topology, m: nat)
    requires t.slots > 0 && t.fans * t.slots <= m
    ensures m / t.slots >= t.fans
  {
    var q, r := m / t.slots, m % t.slots;
    assert m == t.slots * q + r;
    MultipleIsLarge(t.slots, t.fans - q);
    assert t.slots * (t.fans - q) == t.fans * t.slots - t.slots * q;
  }

  lemma {:induction false} WrittenCellsAre(t: Topology, plan: Plan, header: seq<Byte>, body: seq<Byte>, n: nat)
    requires t.slots > 0 && PlanShaped(t, plan) && n <= MAX_FANS * t.slots
    requires Written(AllCells(t, plan), header, body, MAX_FANS * t.slots)
    ensures body[CellOffset(n)..] == Cells(t, plan, n)
    decreases MAX_FANS * t.slots - n
  {
    if n < MAX_FANS * t.slots {
      WrittenCellsAre(t, plan, header, body, n + 1);
      assert CellIs(body, n, AllCells(t, plan)[n]);
      SuffixSplits(body, CellOffset(n), CellOffset(n) + ENTRY);
    } else {
      assert body[CellOffset(n)..] == [];
    }
  }

  lemma SuffixSplits(bytes: seq<Byte>, lo: nat, hi: nat)
    requires lo <= hi <= |bytes|
    ensures bytes[lo..] == bytes[lo..hi] + bytes[hi..]
  {
  }

  lemma SliceOfSlice(bytes: seq<Byte>, a: nat, b: nat, lo: nat, hi: nat)
    requires a <= b <= |bytes| && lo <= hi <= b - a
    ensures bytes[a..b][lo..hi] == bytes[a + lo..a + hi]
  {
    var s := bytes[a..b];
    forall i | 0 <= i < hi - lo ensures s[lo..hi][i] == bytes[a + lo..a + hi][i] {
      assert s[lo + i] == bytes[a + (lo + i)];
    }
  }

  /** Twelve bytes that hold the fields of an entry are the entry's bytes. */
  lemma EntryIsFields(bytes: seq<Byte>, e: SavedEntry)
    requires |bytes| == ENTRY && Storable(e)
    requires forall i :: 0 <= i < 4 ==> bytes[i] == Le(e.interval, 4)[i]
    requires forall i :: 0 <= i < 4 ==> bytes[4 + i] == Le(e.duration, 4)[i]
    requires bytes[8] == (if e.enabled then 1 else 0) && bytes[9] == e.target && bytes[10] == bytes[11] == 0
    ensures bytes == EntryBytes(e)
  {
    var was := EntryBytes(e);
    assert was[0..4] == Le(e.interval, 4) && was[4..8] == Le(e.duration, 4);
    assert bytes[0..4] == Le(e.interval, 4) && bytes[4..8] == Le(e.duration, 4);
    assert bytes == bytes[0..4] + bytes[4..8] + [bytes[8], bytes[9]] + [bytes[10], bytes[11]];
    assert Zeros(2) == [0, 0];
  }

  /** A body written cell by cell is the body the specification seals. */
  lemma WrittenBodyIs(t: Topology, plan: Plan, header: seq<Byte>, body: seq<Byte>)
    requires t.Valid() && PlanShaped(t, plan) && Written(AllCells(t, plan), header, body, t.fans * t.slots)
    ensures body == header + Cells(t, plan, 0)
  {
    var cells, first := AllCells(t, plan), t.fans * t.slots;
    forall m | first <= m < |cells| ensures cells[m] == EMPTY { BeyondFans(t, m); }
    RestIsEmpty(cells, header, body, first);
    WrittenCellsAre(t, plan, header, body, 0);
    assert body == body[..HEADER] + body[HEADER..];
  }
}
