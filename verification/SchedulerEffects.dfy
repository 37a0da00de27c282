/**
 * What each scheduler operation leaves behind: the entry it writes, the run it ends, the
 * times it sets again, and everything it must not touch.
 */
module SchedulerEffects {
  import opened Prelude
  import opened SchedulerCore
  import opened SchedulerRun

  /** No fan but f differs, nor do the inhibit flags. */
  predicate OnlyFan(s: Sched, s': Sched, f: int) {
    && |s'.fans| == |s.fans| && s'.inhibited == s.inhibited && s'.latched == s.latched
    && forall g :: 0 <= g < |s.fans| && g != f ==> s'.fans[g] == s.fans[g]
  }

  /** No entry but slot differs. */
  predicate OnlyEntry(fan: Fan, fan': Fan, slot: int) {
    && |fan'.entries| == |fan.entries|
    && forall i :: 0 <= i < |fan.entries| && i != slot ==> fan'.entries[i] == fan.entries[i]
  }

  /** The same run, if any, goes on: same slot, same end, same target to restore, same cursor. */
  predicate SameRun(fan: Fan, fan': Fan) {
    && fan'.active == fan.active && fan'.end == fan.end && fan'.saved == fan.saved && fan'.cursor == fan.cursor
  }

  /** Nothing runs any more; what was configured stays. */
  predicate Dropped(fan: Fan, fan': Fan) {
    && fan'.active == NO_SLOT && fan'.end == 0 && fan'.saved == fan.saved && fan'.cursor == fan.cursor
    && fan'.entries == fan.entries
  }

  // ---- one entry ----

  /**
   * A SET is taken on exactly for an existing slot, a valid configuration and a fan nobody
   * has reserved, and holds the configuration it was called with.
   */
  lemma SetIsTakenOn(s: State, t: TaskId, f: int, slot: int, interval: nat, duration: nat, pct: nat)
    requires t !in s.jobs
    ensures var s' := Next(s, BeginSet(t, f, slot, interval, duration, pct));
            && (t in s'.jobs <==> (SlotExists(s.sched, f, slot) && !s.sched.fans[f].pending
                                   && 1 <= duration <= interval <= MAX_INTERVAL_MIN && pct <= 100))
            && (t !in s'.jobs ==> s' == s)
            && (t in s'.jobs ==> var job := s'.jobs[t];
                  && job.SetHeld? && job.fan == f && job.slot == slot && job.interval == interval
                  && job.duration == duration && job.target == pct
                  && OnlyFan(s.sched, s'.sched, f) && s'.sched.fans[f].pending
                  && SameRun(s.sched.fans[f], s'.sched.fans[f]) && OnlyEntry(s.sched.fans[f], s'.sched.fans[f], NO_SLOT))
  {
  }

  /**
   * The section that ends it enables the slot with that configuration and has it come due
   * the interval from now; every other slot and fan, and a schedule that runs, stay.
   */
  lemma SetTakesEffect(s: State, t: TaskId, now: nat, timeout: bool)
    requires Inv(s) && t in s.jobs && s.jobs[t].SetHeld?
    ensures var job, s' := s.jobs[t], Next(s, Advance(t, now, timeout));
            && SlotExists(s.sched, job.fan, job.slot) && OnlyFan(s.sched, s'.sched, job.fan) && t !in s'.jobs
            && var fan, fan' := s.sched.fans[job.fan], s'.sched.fans[job.fan];
               && OnlyEntry(fan, fan', job.slot) && SameRun(fan, fan') && !fan'.pending
               && var entry := fan'.entries[job.slot];
                  && entry.enabled && entry.interval == job.interval && entry.duration == job.duration
                  && entry.target == job.target && entry.next == now + job.interval * 60_000_000
  {
    assert JobValid(s.sched, s.jobs[t]);
  }

  /**
   * A DISABLE ends the slot's own run, if that is what runs, and only that; the slot is off
   * and has no trigger time, with its configuration kept.
   */
  lemma DisableTakesEffect(s: State, t: TaskId, now: nat, timeout: bool)
    requires Inv(s) && t in s.jobs && s.jobs[t].DisableDone?
    ensures var job, s' := s.jobs[t], Next(s, Advance(t, now, timeout));
            && SlotExists(s.sched, job.fan, job.slot) && OnlyFan(s.sched, s'.sched, job.fan) && t !in s'.jobs
            && var fan, fan' := s.sched.fans[job.fan], s'.sched.fans[job.fan];
               && OnlyEntry(fan, fan', job.slot) && !fan'.pending
               && (if fan.active == job.slot then fan'.active == NO_SLOT && fan'.end == 0
                   else fan'.active == fan.active && fan'.end == fan.end)
               && fan'.saved == fan.saved && fan'.cursor == fan.cursor
               && var entry, entry' := fan.entries[job.slot], fan'.entries[job.slot];
                  && !entry'.enabled && entry'.next == 0 && entry'.interval == entry.interval
                  && entry'.duration == entry.duration && entry'.target == entry.target
  {
    assert JobValid(s.sched, s.jobs[t]);
  }

  /** A DISABLE of the running slot restores its saved target first; of another slot, nothing. */
  lemma DisableRestores(s: State, t: TaskId, now: nat, timeout: bool)
    requires Inv(s) && t in s.jobs && s.jobs[t].DisableLook?
    ensures var job, s' := s.jobs[t], Next(s, Advance(t, now, timeout));
            && SlotExists(s.sched, job.fan, job.slot) && s'.sched == s.sched && t in s'.jobs
            && var fan := s.sched.fans[job.fan];
               if fan.active == job.slot then RequestOf(s'.jobs[t]) == Some(Restore(job.fan, fan.saved))
               else RequestOf(s'.jobs[t]).None? && s'.jobs[t] == DisableDone(job.fan, job.slot, false)
  {
    assert JobValid(s.sched, s.jobs[t]);
  }

  // ---- the end of a run ----

  /**
   * An END begins exactly where a schedule runs on an unreserved fan and is over or
   * inhibited; it restores the target saved at the start.
   */
  lemma EndBegins(s: State, t: TaskId, f: int, now: nat)
    requires t !in s.jobs
    ensures var s' := Next(s, BeginEnd(t, f, now));
            && (t in s'.jobs <==> (FanExists(s.sched, f) && !s.sched.fans[f].pending && s.sched.fans[f].active >= 0
                                   && (s.sched.inhibited || s.sched.fans[f].end <= now)))
            && (t !in s'.jobs ==> s' == s)
            && (t in s'.jobs ==> && RequestOf(s'.jobs[t]) == Some(Restore(f, s.sched.fans[f].saved))
                                 && OnlyFan(s.sched, s'.sched, f) && SameRun(s.sched.fans[f], s'.sched.fans[f]))
  {
  }

  /** Whatever the motors answered, the run is dropped, and nothing else is. */
  lemma EndTakesEffect(s: State, t: TaskId, now: nat, timeout: bool)
    requires Inv(s) && t in s.jobs && (s.jobs[t].EndDone? || s.jobs[t].CancelHeld?)
    ensures var job, s' := s.jobs[t], Next(s, Advance(t, now, timeout));
            && job.fan < |s.sched.fans| && OnlyFan(s.sched, s'.sched, job.fan) && t !in s'.jobs
            && Dropped(s.sched.fans[job.fan], s'.sched.fans[job.fan]) && !s'.sched.fans[job.fan].pending
  {
    assert JobValid(s.sched, s.jobs[t]);
  }

  /** An accepted manual target drops the run it displaces; a refused one leaves it alone. */
  lemma ManualTakesEffect(s: State, t: TaskId, now: nat, timeout: bool)
    requires Inv(s) && t in s.jobs && s.jobs[t].ManualDone?
    ensures var job, s' := s.jobs[t], Next(s, Advance(t, now, timeout));
            && job.fan < |s.sched.fans| && OnlyFan(s.sched, s'.sched, job.fan) && t !in s'.jobs
            && var fan, fan' := s.sched.fans[job.fan], s'.sched.fans[job.fan];
               && !fan'.pending && fan'.entries == fan.entries
               && (if job.accepted && fan.active >= 0 then Dropped(fan, fan') else SameRun(fan, fan'))
  {
    assert JobValid(s.sched, s.jobs[t]);
  }

  // ---- all fans at once ----

  predicate Restarted(entry: Entry, entry': Entry, now: nat) {
    if entry.enabled then entry' == entry.(next := now + entry.interval * 60_000_000) else entry' == entry
  }

  /**
   * Turning the override on inhibits and remembers which slots run and what they restore;
   * turning it off lifts the inhibit, unless it is latched, and has every enabled entry
   * come due its interval from now. Neither touches a run.
   */
  lemma OverrideTakesEffect(s: State, t: TaskId, now: nat, timeout: bool)
    requires Inv(s) && t in s.jobs && s.jobs[t].OverrideHeld?
    ensures var on, s' := s.jobs[t].on, Next(s, Advance(t, now, timeout));
            && |s'.sched.fans| == |s.sched.fans| && s'.sched.latched == s.sched.latched
            && (!on && s.sched.latched ==> t !in s'.jobs && s'.sched.inhibited == s.sched.inhibited)
            && (on || !s.sched.latched ==> t in s'.jobs && s'.sched.inhibited == on)
            && (on ==> s'.sched.fans == s.sched.fans && s'.jobs[t].OverrideRestore? && s'.jobs[t].k == 0
                       && s'.jobs[t].slots == Slots(s.sched) && s'.jobs[t].targets == Targets(s.sched))
            && forall f :: 0 <= f < |s.sched.fans| ==>
                 && SameRun(s.sched.fans[f], s'.sched.fans[f])
                 && |s'.sched.fans[f].entries| == |s.sched.fans[f].entries|
                 && (!on && !s.sched.latched ==>
                      forall i :: 0 <= i < |s.sched.fans[f].entries| ==>
                        Restarted(s.sched.fans[f].entries[i], s'.sched.fans[f].entries[i], now))
  {
    assert JobValid(s.sched, s.jobs[t]);
    forall f | 0 <= f < |s.sched.fans| ensures Owns(s.jobs[t], |s.sched.fans|, f) {}
  }

  /** At the end exactly the remembered slots are dropped, and every fan is released. */
  lemma OverrideEnds(s: State, t: TaskId, now: nat, timeout: bool)
    requires Inv(s) && t in s.jobs && s.jobs[t].OverrideDone?
    ensures var s' := Next(s, Advance(t, now, timeout));
            && |s'.sched.fans| == |s.sched.fans| && t !in s'.jobs
            && s'.sched.inhibited == s.sched.inhibited && s'.sched.latched == s.sched.latched
            && forall f :: 0 <= f < |s.sched.fans| ==>
                 && !s'.sched.fans[f].pending && s'.sched.fans[f].entries == s.sched.fans[f].entries
                 && (if s.sched.inhibited && s.sched.fans[f].active >= 0
                     then Dropped(s.sched.fans[f], s'.sched.fans[f]) else SameRun(s.sched.fans[f], s'.sched.fans[f]))
  {
    assert JobValid(s.sched, s.jobs[t]);
  }

  /** The safety inhibit is taken exactly when nothing is reserved, and drops every run. */
  lemma InhibitTakesEffect(s: State)
    ensures var s' := Next(s, InhibitAll);
            && |s'.sched.fans| == |s.sched.fans| && s'.jobs == s.jobs
            && if forall f :: 0 <= f < |s.sched.fans| ==> !s.sched.fans[f].pending
               then s'.sched.inhibited && s'.sched.latched
                    && forall f :: 0 <= f < |s.sched.fans| ==> Dropped(s.sched.fans[f], s'.sched.fans[f])
               else s' == s
  {
  }

  // ---- which entry starts ----

  /** An entry comes due at its trigger time; without one its interval is counted from this look. */
  predicate ComesDue(entry: Entry, now: nat) {
    entry.enabled && (if entry.next == 0 then now + entry.interval * 60_000_000 else entry.next) <= now
  }

  /** How far behind the cursor the search meets the slot. */
  function Distance(fan: Fan, slot: nat): nat
    requires fan.cursor < |fan.entries|
  {
    if slot >= fan.cursor then slot - fan.cursor else slot + |fan.entries| - fan.cursor
  }

  lemma DistanceIsCandidate(fan: Fan, slot: nat, c: nat)
    requires fan.cursor < |fan.entries| && slot < |fan.entries| && c < |fan.entries|
    ensures SlotAt(fan, Distance(fan, slot)) == slot && (SlotAt(fan, c) == slot ==> c == Distance(fan, slot))
  {
    SlotValue(fan, c);
    SlotValue(fan, Distance(fan, slot));
  }

  /** What the search leaves of an entry it has looked at: its first trigger time, if it had none. */
  function Looked(entry: Entry, now: nat): Entry {
    if entry.enabled && entry.next == 0 then entry.(next := now + entry.interval * 60_000_000) else entry
  }

  lemma {:induction false} ArmingIsExact(fan: Fan, now: nat, count: nat, slot: nat)
    requires fan.cursor < |fan.entries| && slot < |fan.entries| && count <= |fan.entries|
    ensures ArmedFirst(fan, now, count)[slot]
            == if Distance(fan, slot) < count then Looked(fan.entries[slot], now) else fan.entries[slot]
  {
    if count > 0 {
      ArmingIsExact(fan, now, count - 1, slot);
      DistanceIsCandidate(fan, slot, count - 1);
    }
  }

  /**
   * The search of a START takes the first slot that comes due, counted from the cursor, and
   * none only if none comes due. It gives a first trigger time to the entries it looked at,
   * the chosen one included, and touches no other.
   */
  lemma StartTakesFirstDue(s: Sched, f: int, now: nat)
    requires MayStart(s, f) && s.fans[f].cursor < |s.fans[f].entries|
    ensures var fan, c := s.fans[f], StartSelect(s, f, now);
            && OnlyFan(s, c.0, f) && SameRun(fan, c.0.fans[f]) && |c.0.fans[f].entries| == |fan.entries|
            && c.0.fans[f].pending == c.1.Some?
            && (c.1.Some? ==> c.1.value < |fan.entries| && ComesDue(fan.entries[c.1.value], now))
            && forall i :: 0 <= i < |fan.entries| ==>
                 && (c.1.None? || Distance(fan, i) < Distance(fan, c.1.value) ==> !ComesDue(fan.entries[i], now))
                 && c.0.fans[f].entries[i] ==
                      if c.1.None? || Distance(fan, i) <= Distance(fan, c.1.value)
                      then Looked(fan.entries[i], now) else fan.entries[i]
  {
    var fan := s.fans[f];
    var c := FirstDue(fan, now, 0);
    if c < |fan.entries| { DistanceIsCandidate(fan, SlotAt(fan, c), c); }
    forall i | 0 <= i < |fan.entries|
      ensures Distance(fan, i) < c ==> !ComesDue(fan.entries[i], now)
      ensures ArmedFirst(fan, now, c)[i] == if Distance(fan, i) < c then Looked(fan.entries[i], now) else fan.entries[i]
      ensures c < |fan.entries| ==>
                ArmedFirst(fan, now, c + 1)[i]
                == if Distance(fan, i) < c + 1 then Looked(fan.entries[i], now) else fan.entries[i]
    {
      DistanceIsCandidate(fan, i, 0);
      if Distance(fan, i) < c { assert !CandidateDue(fan, now, Distance(fan, i)); }
      ArmingIsExact(fan, now, c, i);
      if c < |fan.entries| { ArmingIsExact(fan, now, c + 1, i); }
    }
  }

  // ---- what an override asks of the motors ----

  /** The requests a task makes of the motor module on its own way, in order. */
  function Requests(s: State, t: TaskId, answers: seq<Answer>): seq<Request>
    decreases |answers|
  {
    if answers == [] || t !in s.jobs then [] else
    (if RequestOf(s.jobs[t]).Some? then [RequestOf(s.jobs[t]).value] else [])
    + Requests(Next(s, OwnStep(t, s.jobs[t], answers[0])), t, answers[1..])
  }

  /** A restore for every slot that was running, of the target saved for its fan. */
  function Restores(slots: seq<int>, targets: seq<nat>, k: nat): seq<Request>
    requires |targets| == |slots| && k <= |slots|
    decreases |slots| - k
  {
    if k == |slots| then [] else
    (if slots[k] >= 0 then [Restore(k, targets[k])] else []) + Restores(slots, targets, k + 1)
  }

  /**
   * Turning the override on restores every fan on which a schedule runs, with the target
   * saved for it, one after the other, whatever the motors answer.
   */
  lemma OverrideRestoresAll(s: State, t: TaskId, answers: seq<Answer>)
    requires Inv(s) && t in s.jobs && s.jobs[t].OverrideRestore?
    requires |answers| >= Remaining(s.jobs[t], |s.sched.fans|)
    ensures Requests(s, t, answers) == Restores(Slots(s.sched), Targets(s.sched), s.jobs[t].k)
  {
    assert JobValid(s.sched, s.jobs[t]);
    JobRestoresAll(s, t, answers);
  }

  lemma {:induction false} JobRestoresAll(s: State, t: TaskId, answers: seq<Answer>)
    requires t in s.jobs && s.jobs[t].OverrideRestore?
    requires var job := s.jobs[t];
             && |job.slots| == |job.targets| == |s.sched.fans| && job.k < |job.slots|
             && |answers| + job.k >= |job.slots| + 2
    ensures Requests(s, t, answers) == Restores(s.jobs[t].slots, s.jobs[t].targets, s.jobs[t].k)
    decreases |answers|
  {
    var job, s1 := s.jobs[t], Next(s, OwnStep(t, s.jobs[t], answers[0]));
    RestoreGoesOn(s, t, answers[0]);
    RequestsUnfold(s, t, answers);
    if job.k + 1 < |job.slots| {
      JobRestoresAll(s1, t, answers[1..]);
    } else {
      DoneAsksNothing(s1, t, answers[1..]);
      assert Restores(job.slots, job.targets, |job.slots|) == [];
    }
  }

  lemma RequestsUnfold(s: State, t: TaskId, answers: seq<Answer>)
    requires answers != [] && t in s.jobs
    ensures Requests(s, t, answers)
            == (if RequestOf(s.jobs[t]).Some? then [RequestOf(s.jobs[t]).value] else [])
               + Requests(Next(s, OwnStep(t, s.jobs[t], answers[0])), t, answers[1..])
  {
  }

  /** One section of it: the fan's own restore, if a schedule ran there, and on to the next fan. */
  lemma RestoreGoesOn(s: State, t: TaskId, answer: Answer)
    requires t in s.jobs && s.jobs[t].OverrideRestore?
    requires s.jobs[t].k < |s.jobs[t].slots| == |s.jobs[t].targets|
    ensures var job := s.jobs[t];
            && RequestOf(job) == (if job.slots[job.k] >= 0 then Some(Restore(job.k, job.targets[job.k])) else None)
            && Next(s, OwnStep(t, job, answer))
               == s.(jobs := s.jobs[t := if job.k + 1 < |job.slots| then OverrideRestore(job.k + 1, job.slots, job.targets)
                                         else OverrideDone(job.slots)])
  {
  }

  lemma DoneAsksNothing(s: State, t: TaskId, answers: seq<Answer>)
    requires t in s.jobs && s.jobs[t].OverrideDone? && |s.jobs[t].slots| == |s.sched.fans|
    ensures Requests(s, t, answers) == []
  {
    if answers != [] {
      var s' := Next(s, OwnStep(t, s.jobs[t], answers[0]));
      assert t !in s'.jobs && Requests(s', t, answers[1..]) == [];
    }
  }

  // ---- only valid configurations are ever enabled ----

  /** Every enabled entry is one that scheduler_set_entry would take. */
  predicate Configured(s: Sched) {
    forall f :: 0 <= f < |s.fans| ==> FanConfigured(s.fans[f])
  }

  predicate FanConfigured(fan: Fan) {
    forall i :: 0 <= i < |fan.entries| && fan.entries[i].enabled ==> EntryConfigured(fan.entries[i])
  }

  predicate EntryConfigured(e: Entry) { 1 <= e.interval <= 525600 && 1 <= e.duration <= e.interval && e.target <= 100 }

  lemma ArmingKeepsConfigured(fan: Fan, now: nat, count: nat)
    requires FanConfigured(fan) && |fan.entries| > 0
    ensures FanConfigured(fan.(entries := ArmedFirst(fan, now, count)))
  {
    forall i | 0 <= i < |fan.entries| && ArmedFirst(fan, now, count)[i].enabled
      ensures EntryConfigured(ArmedFirst(fan, now, count)[i])
    {
      ArmingKeepsEntries(fan, now, count, i);
    }
  }

  lemma SectionsKeepConfigured(s: Sched, job: Job, now: nat)
    requires Configured(s) && JobValid(s, job) && OneFan(job) && job.fan < |s.fans|
    ensures job.StartDone? ==> Configured(StartFinish(s, job.fan, job.slot, job.duration, job.now,
                                                      job.accepted && job.manual <= 100, job.manual))
    ensures job.SetHeld? ==> Configured(SetEntry(s, job.fan, job.slot, job.interval, job.duration, job.target, now))
    ensures job.DisableDone? ==> Configured(DisableFinish(s, job.fan, job.slot, job.wasActive))
  {
    assert FanConfigured(s.fans[job.fan]);
  }

  lemma AdvanceKeepsConfigured(s: State, t: TaskId, now: nat, timeout: bool)
    requires Inv(s) && Configured(s.sched) && t in s.jobs
    ensures Configured(AdvanceJob(s, t, now, timeout).sched)
  {
    var job := s.jobs[t];
    assert JobValid(s.sched, job);
    if job.StartDone? || job.SetHeld? || job.DisableDone? {
      SectionsKeepConfigured(s.sched, job, now);
    } else if job.OverrideHeld? {
      RestartKeepsConfigured(s.sched, job.on, now);
    } else {
      OthersKeepEntries(s, t, now, timeout);
    }
  }

  lemma RestartKeepsConfigured(s: Sched, on: bool, now: nat)
    requires Configured(s)
    ensures OverrideApply(s, on, now).Some? ==> Configured(OverrideApply(s, on, now).value)
    ensures Configured(ReleaseFirst(s, |s.fans|))
  {
    forall f | 0 <= f < |s.fans| ensures FanConfigured(RestartedFan(s.fans[f], now)) {
      assert FanConfigured(s.fans[f]);
    }
    forall f | 0 <= f < |s.fans| ensures FanConfigured(s.fans[f].(pending := false)) {
      assert FanConfigured(s.fans[f]);
    }
  }

  lemma OthersKeepEntries(s: State, t: TaskId, now: nat, timeout: bool)
    requires Configured(s.sched) && t in s.jobs && JobValid(s.sched, s.jobs[t]) && !s.jobs[t].StartDone?
    requires !s.jobs[t].SetHeld? && !s.jobs[t].DisableDone? && !s.jobs[t].OverrideHeld?
    ensures Configured(AdvanceJob(s, t, now, timeout).sched)
  {
    var s' := AdvanceJob(s, t, now, timeout);
    forall f | 0 <= f < |s'.sched.fans| ensures FanConfigured(s'.sched.fans[f]) {
      assert FanConfigured(s.sched.fans[f]) && s'.sched.fans[f].entries == s.sched.fans[f].entries;
    }
  }

  /** Whatever the tasks do, what is enabled stays a valid configuration. */
  lemma NextKeepsConfigured(s: State, step: Step)
    requires Inv(s) && Configured(s.sched)
    ensures Configured(Next(s, step).sched)
  {
    if step.Advance? {
      if step.t in s.jobs { AdvanceKeepsConfigured(s, step.t, step.now, step.timeout); }
    } else if step.BeginStart? {
      if step.t !in s.jobs && MayStart(s.sched, step.local) { SelectKeepsConfigured(s.sched, step.local, step.now); }
    } else {
      BeginsKeepEntries(s, step);
    }
  }

  lemma SelectKeepsConfigured(s: Sched, f: int, now: nat)
    requires Configured(s) && MayStart(s, f)
    ensures Configured(StartSelect(s, f, now).0)
  {
    var fan := s.fans[f];
    var c := FirstDue(fan, now, 0);
    assert FanConfigured(fan);
    ArmingKeepsConfigured(fan, now, c);
    ArmingKeepsConfigured(fan, now, c + 1);
  }

  lemma BeginsKeepEntries(s: State, step: Step)
    requires Configured(s.sched) && !step.Advance? && !step.BeginStart?
    ensures Configured(Next(s, step).sched)
  {
    var s' := Next(s, step);
    forall f | 0 <= f < |s'.sched.fans| ensures FanConfigured(s'.sched.fans[f]) {
      assert FanConfigured(s.sched.fans[f]) && s'.sched.fans[f].entries == s.sched.fans[f].entries;
    }
  }
}
