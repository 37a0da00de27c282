/**
 * main/scheduler.c: per-fan schedules, reservations and the inhibit flags. Each
 * function is one section under the scheduler mutex; SchedulerRun interleaves
 * them with the target callbacks, which run without the mutex.
 */
module SchedulerCore {
  import opened Prelude

  const MAX_INTERVAL_MIN: nat := 525600
  const MINUTE_US: nat := 60 * 1000000

  datatype Entry = Entry(enabled: bool, interval: nat, duration: nat, target: nat, next: nat)

  /** No schedule is running on a fan whose active slot is NO_SLOT. */
  const NO_SLOT: int := -1

  datatype Fan = Fan(
    entries: seq<Entry>, active: int, end: nat, saved: nat, cursor: nat, pending: bool)

  datatype Sched = Sched(fans: seq<Fan>, inhibited: bool, latched: bool)

  predicate EntryConfigValid(interval: nat, duration: nat, target: nat) {
    1 <= interval <= MAX_INTERVAL_MIN && 1 <= duration <= interval && target <= 100
  }

  predicate FanExists(s: Sched, f: int) { 0 <= f < |s.fans| }

  predicate SlotExists(s: Sched, f: int, slot: int) {
    FanExists(s, f) && 0 <= slot < |s.fans[f].entries|
  }

  function WithFan(s: Sched, f: int, fan: Fan): Sched
    requires FanExists(s, f)
  {
    s.(fans := s.fans[f := fan])
  }

  function Reserve(s: Sched, f: int): Sched
    requires FanExists(s, f)
  {
    WithFan(s, f, s.fans[f].(pending := true))
  }

  function Idled(fan: Fan): Fan { fan.(active := NO_SLOT, end := 0, pending := false) }

  // ---- choosing a slot to start ----

  predicate Due(entry: Entry, now: nat) { entry.enabled && entry.next <= now }

  /** First look at an entry without a trigger time schedules its first run. */
  function Armed(entry: Entry, now: nat): Entry {
    if entry.enabled && entry.next == 0 then entry.(next := now + entry.interval * MINUTE_US) else entry
  }

  function SlotAt(fan: Fan, candidate: nat): nat
    requires |fan.entries| > 0
  {
    (fan.cursor + candidate) % |fan.entries|
  }

  /** The entries after the search has looked at `count` candidates from the cursor on. */
  function ArmedFirst(fan: Fan, now: nat, count: nat): (entries: seq<Entry>)
    requires |fan.entries| > 0
    ensures |entries| == |fan.entries|
  {
    if count == 0 then fan.entries else
    var before := ArmedFirst(fan, now, count - 1);
    var slot := SlotAt(fan, count - 1);
    before[slot := Armed(before[slot], now)]
  }

  /** The candidate's entry as the search sees it, already armed, is due. */
  predicate CandidateDue(fan: Fan, now: nat, candidate: nat)
    requires |fan.entries| > 0
  {
    Due(Armed(fan.entries[SlotAt(fan, candidate)], now), now)
  }

  /** The first due candidate at or after `candidate`, if any. */
  function FirstDue(fan: Fan, now: nat, candidate: nat): (r: nat)
    requires |fan.entries| > 0 && candidate <= |fan.entries|
    ensures candidate <= r <= |fan.entries|
    ensures forall c :: candidate <= c < r ==> !CandidateDue(fan, now, c)
    ensures r < |fan.entries| ==> CandidateDue(fan, now, r)
    decreases |fan.entries| - candidate
  {
    if candidate == |fan.entries| || CandidateDue(fan, now, candidate) then candidate
    else FirstDue(fan, now, candidate + 1)
  }

  // ---- sections ----

  /** First section of process_schedule_end: is there something to end? */
  predicate Ends(s: Sched, f: int, now: nat) {
    FanExists(s, f) && !s.fans[f].pending && s.fans[f].active >= 0
    && (s.inhibited || now >= s.fans[f].end)
  }

  predicate MayStart(s: Sched, f: int) {
    FanExists(s, f) && !s.fans[f].pending && !s.inhibited && s.fans[f].active < 0
    && |s.fans[f].entries| > 0
  }

  /** First section of process_schedule_start: arm, choose and reserve. */
  function StartSelect(s: Sched, f: int, now: nat): (Sched, Option<nat>)
    requires MayStart(s, f)
  {
    var fan := s.fans[f];
    var c := FirstDue(fan, now, 0);
    if c == |fan.entries| then (WithFan(s, f, fan.(entries := ArmedFirst(fan, now, c))), None)
    else (WithFan(s, f, fan.(entries := ArmedFirst(fan, now, c + 1), pending := true)), Some(SlotAt(fan, c)))
  }

  /** An accepted start may be recorded as the running schedule. */
  predicate StartTracks(s: Sched, f: int, slot: int, accepted: bool) {
    SlotExists(s, f, slot) && accepted && s.fans[f].entries[slot].enabled && !s.inhibited
    && s.fans[f].active < 0
  }

  /** Last section of process_schedule_start. */
  function StartFinish(s: Sched, f: int, slot: int, duration: nat, now: nat, accepted: bool, manual: nat): Sched
    requires FanExists(s, f)
  {
    var fan := s.fans[f];
    if !StartTracks(s, f, slot, accepted) then WithFan(s, f, fan.(pending := false)) else
    var entry := fan.entries[slot].(next := now + fan.entries[slot].interval * MINUTE_US);
    WithFan(s, f, fan.(saved := manual, active := slot, cursor := (slot + 1) % |fan.entries|,
                       end := now + duration * MINUTE_US,
                       entries := fan.entries[slot := entry], pending := false))
  }

  function EndFinish(s: Sched, f: int): Sched
    requires FanExists(s, f)
  {
    WithFan(s, f, Idled(s.fans[f]))
  }

  /** Last section of scheduler_apply_manual_target. */
  function ManualFinish(s: Sched, f: int, accepted: bool): Sched
    requires FanExists(s, f)
  {
    var fan := s.fans[f];
    WithFan(s, f, if accepted && fan.active >= 0 then Idled(fan) else fan.(pending := false))
  }

  function RestartedEntry(entry: Entry, now: nat): Entry {
    if entry.enabled then entry.(next := now + entry.interval * MINUTE_US) else entry
  }

  function RestartedFan(fan: Fan, now: nat): Fan {
    fan.(entries := seq(|fan.entries|, i requires 0 <= i < |fan.entries| => RestartedEntry(fan.entries[i], now)))
  }

  /** Middle section of scheduler_set_override, all fans reserved; None is the late latch check. */
  function OverrideApply(s: Sched, on: bool, now: nat): Option<Sched> {
    if !on && s.latched then None
    else if on then Some(s.(inhibited := true))
    else Some(s.(inhibited := false,
                 fans := seq(|s.fans|, f requires 0 <= f < |s.fans| => RestartedFan(s.fans[f], now))))
  }

  function ReleasedFan(fan: Fan, ended: bool): Fan {
    if ended then Idled(fan) else fan.(pending := false)
  }

  /** Last section of scheduler_set_override: drop the slots that were running, release all. */
  function OverrideFinish(s: Sched, slots: seq<int>): Sched
    requires |slots| == |s.fans|
  {
    s.(fans := seq(|s.fans|, f requires 0 <= f < |s.fans| => ReleasedFan(s.fans[f], slots[f] >= 0)))
  }

  /** Release the first k reservations of an operation on all fans. */
  function ReleaseFirst(s: Sched, k: nat): Sched {
    s.(fans := seq(|s.fans|, f requires 0 <= f < |s.fans| =>
                               if f < k then s.fans[f].(pending := false) else s.fans[f]))
  }

  function SetEntry(s: Sched, f: int, slot: int, interval: nat, duration: nat, target: nat, now: nat): Sched
    requires SlotExists(s, f, slot)
  {
    var entry := Entry(true, interval, duration, target, now + interval * MINUTE_US);
    WithFan(s, f, s.fans[f].(entries := s.fans[f].entries[slot := entry], pending := false))
  }

  function DisableFinish(s: Sched, f: int, slot: int, wasActive: bool): Sched
    requires SlotExists(s, f, slot)
  {
    var fan := if wasActive then Idled(s.fans[f]) else s.fans[f].(pending := false);
    var entry := fan.entries[slot].(enabled := false, next := 0);
    WithFan(s, f, fan.(entries := fan.entries[slot := entry]))
  }

  predicate NothingPending(s: Sched) { forall f :: 0 <= f < |s.fans| ==> !s.fans[f].pending }

  /** The committed section of scheduler_try_inhibit_all; None while something is reserved. */
  function TryInhibit(s: Sched): Option<Sched> {
    if !NothingPending(s) then None
    else Some(s.(inhibited := true, latched := true,
                 fans := seq(|s.fans|, f requires 0 <= f < |s.fans| => s.fans[f].(active := NO_SLOT, end := 0))))
  }

  /** The search looks at every slot exactly once, starting at the cursor. */
  lemma SearchCoversSlots(fan: Fan, slot: nat)
    requires |fan.entries| > 0 && fan.cursor < |fan.entries| && slot < |fan.entries|
    ensures exists c :: 0 <= c < |fan.entries| && SlotAt(fan, c) == slot
  {
    var n := |fan.entries|;
    var c := if slot >= fan.cursor then slot - fan.cursor else slot + n - fan.cursor;
    assert SlotAt(fan, c) == slot;
  }

  /**
   * The chosen slot is due, no slot before it in cyclic order is, and when none is
   * chosen no slot of the fan is due: starts are fair and none is missed.
   */
  lemma StartSelectIsFair(s: Sched, f: int, now: nat)
    requires MayStart(s, f) && s.fans[f].cursor < |s.fans[f].entries|
    ensures var fan, chosen := s.fans[f], StartSelect(s, f, now).1;
            if chosen.Some? then
              exists c :: 0 <= c < |fan.entries| && chosen.value == SlotAt(fan, c)
                          && CandidateDue(fan, now, c) && forall d :: 0 <= d < c ==> !CandidateDue(fan, now, d)
            else forall slot :: 0 <= slot < |fan.entries| ==> !Due(Armed(fan.entries[slot], now), now)
  {
    var fan := s.fans[f];
    if StartSelect(s, f, now).1.None? {
      forall slot | 0 <= slot < |fan.entries| ensures !Due(Armed(fan.entries[slot], now), now) {
        SearchCoversSlots(fan, slot);
        var c :| 0 <= c < |fan.entries| && SlotAt(fan, c) == slot;
        assert !CandidateDue(fan, now, c);
      }
    }
  }

  lemma {:induction false} ArmingKeepsEntries(fan: Fan, now: nat, count: nat, slot: nat)
    requires |fan.entries| > 0 && slot < |fan.entries|
    ensures ArmedFirst(fan, now, count)[slot] == fan.entries[slot]
            || ArmedFirst(fan, now, count)[slot] == Armed(fan.entries[slot], now)
  {
    if count > 0 { ArmingKeepsEntries(fan, now, count - 1, slot); }
  }

  /** When the search reaches a candidate, its entry has not been armed yet. */
  lemma {:induction false} ArmingSeesOnce(fan: Fan, now: nat, candidate: nat)
    requires fan.cursor < |fan.entries| && candidate < |fan.entries|
    ensures ArmedFirst(fan, now, candidate)[SlotAt(fan, candidate)] == fan.entries[SlotAt(fan, candidate)]
  {
    ArmingLeavesLater(fan, now, candidate, candidate);
  }

  lemma {:induction false} ArmingLeavesLater(fan: Fan, now: nat, count: nat, candidate: nat)
    requires fan.cursor < |fan.entries| && count <= candidate < |fan.entries|
    ensures ArmedFirst(fan, now, count)[SlotAt(fan, candidate)] == fan.entries[SlotAt(fan, candidate)]
  {
    if count > 0 {
      ArmingLeavesLater(fan, now, count - 1, candidate);
      SlotsDiffer(fan, count - 1, candidate);
    }
  }

  lemma SlotsDiffer(fan: Fan, c: nat, d: nat)
    requires fan.cursor < |fan.entries| && c < d < |fan.entries|
    ensures SlotAt(fan, c) != SlotAt(fan, d)
  {
    SlotValue(fan, c);
    SlotValue(fan, d);
  }

  lemma SlotValue(fan: Fan, c: nat)
    requires fan.cursor < |fan.entries| && c < |fan.entries|
    ensures var n := |fan.entries|;
            SlotAt(fan, c) == if fan.cursor + c < n then fan.cursor + c else fan.cursor + c - n
  {
  }
}
