/**
 * The scheduler's tasks and callers interleaved: reservations, target callbacks
 * outside the mutex, overrides that reserve every fan, and the safety inhibit.
 */
module SchedulerRun {
  import opened Prelude
  import opened SchedulerCore

  /** Where a task stands; fan is reserved unless the name says otherwise. */
  datatype Job =
    | EndCall(fan: nat, target: nat)
    | EndDone(fan: nat)
    | StartCall(fan: nat, slot: nat, target: nat, duration: nat, now: nat)
    | StartDone(fan: nat, slot: nat, duration: nat, now: nat, accepted: bool, manual: nat)
    | ManualCall(fan: nat, target: nat)
    | ManualDone(fan: nat, accepted: bool)
    | SetHeld(fan: nat, slot: nat, interval: nat, duration: nat, target: nat)
    | DisableLook(fan: nat, slot: nat)
    | DisableCall(fan: nat, slot: nat, target: nat)
    | DisableDone(fan: nat, slot: nat, wasActive: bool)
    | CancelHeld(fan: nat)
    | OverrideReserve(on: bool, k: nat)
    | OverrideUnwind(k: nat)
    | OverrideHeld(on: bool)
    | OverrideRestore(k: nat, slots: seq<int>, targets: seq<nat>)
    | OverrideDone(slots: seq<int>)

  datatype State = State(sched: Sched, jobs: map<TaskId, Job>)

  datatype Step =
    | BeginEnd(t: TaskId, local: int, now: nat)
    | BeginStart(t: TaskId, local: int, now: nat)
    | BeginManual(t: TaskId, local: int, pct: nat)
    | BeginSet(t: TaskId, local: int, slot: int, interval: nat, duration: nat, pct: nat)
    | BeginDisable(t: TaskId, local: int, slot: int)
    | BeginCancel(t: TaskId, local: int)
    | BeginOverride(t: TaskId, on: bool)
    | Advance(t: TaskId, now: nat, timeout: bool)
    | Callback(t: TaskId, accepted: bool, manual: nat)
    | InhibitAll

  /** Requests a job makes of the motor module, outside the scheduler mutex. */
  datatype Request = Manual(fan: nat, pct: nat) | Start(fan: nat, pct: nat) | Restore(fan: nat, pct: nat)

  function RequestOf(job: Job): Option<Request> {
    match job
    case EndCall(f, target) => Some(Restore(f, target))
    case StartCall(f, _, target, _, _) => Some(Start(f, target))
    case ManualCall(f, target) => Some(Manual(f, target))
    case DisableCall(f, _, target) => Some(Restore(f, target))
    case OverrideRestore(k, slots, targets) =>
      if k < |slots| && k < |targets| && slots[k] >= 0 then Some(Restore(k, targets[k])) else None
    case _ => None
  }

  /** After the callback returned. */
  function Called(job: Job, accepted: bool, manual: nat): Job
    requires RequestOf(job).Some?
  {
    match job
    case EndCall(f, _) => EndDone(f)
    case StartCall(f, slot, _, duration, now) => StartDone(f, slot, duration, now, accepted, manual)
    case ManualCall(f, _) => ManualDone(f, accepted)
    case DisableCall(f, slot, _) => DisableDone(f, slot, true)
    case OverrideRestore(k, slots, targets) =>
      if k + 1 < |slots| then OverrideRestore(k + 1, slots, targets) else OverrideDone(slots)
  }

  function Targets(s: Sched): seq<nat> { seq(|s.fans|, f requires 0 <= f < |s.fans| => s.fans[f].saved) }

  function Slots(s: Sched): seq<int> { seq(|s.fans|, f requires 0 <= f < |s.fans| => s.fans[f].active) }

  function Nothing(s: Sched): seq<int> { seq(|s.fans|, f requires 0 <= f < |s.fans| => NO_SLOT) }

  predicate Reservable(s: State, t: TaskId, f: int) {
    t !in s.jobs && FanExists(s.sched, f) && !s.sched.fans[f].pending
  }

  function Reserved(s: State, t: TaskId, f: int, job: Job): State
    requires Reservable(s, t, f)
  {
    State(Reserve(s.sched, f), s.jobs[t := job])
  }

  function AdvanceJob(s: State, t: TaskId, now: nat, timeout: bool): State
    requires t in s.jobs
  {
    var c, job := s.sched, s.jobs[t];
    var ended := s.jobs - {t};
    match job
    case EndDone(f) => if FanExists(c, f) then State(EndFinish(c, f), ended) else s
    case StartDone(f, slot, duration, start, accepted, manual) =>
      if FanExists(c, f) then
        State(StartFinish(c, f, slot, duration, start, accepted && manual <= 100, manual), ended) else s
    case ManualDone(f, accepted) => if FanExists(c, f) then State(ManualFinish(c, f, accepted), ended) else s
    case SetHeld(f, slot, interval, duration, target) =>
      if SlotExists(c, f, slot) then State(SetEntry(c, f, slot, interval, duration, target, now), ended) else s
    case DisableLook(f, slot) =>
      if !FanExists(c, f) then s
      else if c.fans[f].active == slot then s.(jobs := s.jobs[t := DisableCall(f, slot, c.fans[f].saved)])
      else s.(jobs := s.jobs[t := DisableDone(f, slot, false)])
    case DisableDone(f, slot, wasActive) =>
      if SlotExists(c, f, slot) then State(DisableFinish(c, f, slot, wasActive), ended) else s
    case CancelHeld(f) => if FanExists(c, f) then State(EndFinish(c, f), ended) else s
    case OverrideReserve(on, k) =>
      if k >= |c.fans| then s.(jobs := s.jobs[t := OverrideHeld(on)])
      else if !c.fans[k].pending then State(Reserve(c, k), s.jobs[t := OverrideReserve(on, k + 1)])
      else if timeout then s.(jobs := s.jobs[t := OverrideUnwind(k)])
      else s
    case OverrideUnwind(k) => State(ReleaseFirst(c, k), ended)
    case OverrideHeld(on) =>
      var c' := OverrideApply(c, on, now);
      if c'.None? then State(ReleaseFirst(c, |c.fans|), ended)
      else if on && |c.fans| > 0 then State(c'.value, s.jobs[t := OverrideRestore(0, Slots(c), Targets(c))])
      else State(c'.value, s.jobs[t := OverrideDone(Nothing(c))])
    case OverrideRestore(k, slots, targets) =>
      if RequestOf(job).Some? then s
      else s.(jobs := s.jobs[t := if k + 1 < |slots| then job.(k := k + 1) else OverrideDone(slots)])
    case OverrideDone(slots) => if |slots| == |c.fans| then State(OverrideFinish(c, slots), ended) else s
    case _ => s
  }

  function Next(s: State, step: Step): State {
    match step
    case BeginEnd(t, f, now) =>
      if t !in s.jobs && Ends(s.sched, f, now)
      then State(Reserve(s.sched, f), s.jobs[t := EndCall(f, s.sched.fans[f].saved)]) else s
    case BeginStart(t, f, now) =>
      if t in s.jobs || !MayStart(s.sched, f) then s else
      var (c, slot) := StartSelect(s.sched, f, now);
      if slot.None? then s.(sched := c) else
      var entry := c.fans[f].entries[slot.value];
      State(c, s.jobs[t := StartCall(f, slot.value, entry.target, entry.duration, now)])
    case BeginManual(t, f, pct) =>
      if pct <= 100 && Reservable(s, t, f) then Reserved(s, t, f, ManualCall(f, pct)) else s
    case BeginSet(t, f, slot, interval, duration, pct) =>
      if SlotExists(s.sched, f, slot) && EntryConfigValid(interval, duration, pct) && Reservable(s, t, f)
      then Reserved(s, t, f, SetHeld(f, slot, interval, duration, pct)) else s
    case BeginDisable(t, f, slot) =>
      if SlotExists(s.sched, f, slot) && Reservable(s, t, f)
      then Reserved(s, t, f, DisableLook(f, slot)) else s
    case BeginCancel(t, f) => if Reservable(s, t, f) then Reserved(s, t, f, CancelHeld(f)) else s
    case BeginOverride(t, on) =>
      if t in s.jobs || (!on && s.sched.latched) then s
      else s.(jobs := s.jobs[t := OverrideReserve(on, 0)])
    case Advance(t, now, timeout) => if t in s.jobs then AdvanceJob(s, t, now, timeout) else s
    case Callback(t, accepted, manual) =>
      if t in s.jobs && RequestOf(s.jobs[t]).Some?
      then s.(jobs := s.jobs[t := Called(s.jobs[t], accepted && manual <= 100, manual)]) else s
    case InhibitAll =>
      var c := TryInhibit(s.sched);
      if c.Some? then s.(sched := c.value) else s
  }

  // ---- the invariant ----

  /** The job holds the reservation of fan f. */
  predicate Owns(job: Job, n: nat, f: nat) {
    match job
    case OverrideReserve(_, k) => f < k
    case OverrideUnwind(k) => f < k
    case OverrideHeld(_) => f < n
    case OverrideRestore(_, _, _) => f < n
    case OverrideDone(_) => f < n
    case EndCall(g, _) => f == g
    case EndDone(g) => f == g
    case StartCall(g, _, _, _, _) => f == g
    case StartDone(g, _, _, _, _, _) => f == g
    case ManualCall(g, _) => f == g
    case ManualDone(g, _) => f == g
    case SetHeld(g, _, _, _, _) => f == g
    case DisableLook(g, _) => f == g
    case DisableCall(g, _, _) => f == g
    case DisableDone(g, _, _) => f == g
    case CancelHeld(g) => f == g
  }

  /** An override that has set the inhibit and still has to drop the running slots. */
  predicate Restoring(job: Job) { job.OverrideRestore? || job.OverrideDone? }

  /** What the job remembers is still so, because its fans are reserved. */
  predicate JobValid(s: Sched, job: Job) {
    match job
    case StartCall(f, slot, target, duration, _) =>
      && SlotExists(s, f, slot) && s.fans[f].entries[slot].enabled && s.fans[f].active < 0 && !s.inhibited
      && target == s.fans[f].entries[slot].target && duration == s.fans[f].entries[slot].duration
    case StartDone(f, slot, duration, _, _, _) =>
      && SlotExists(s, f, slot) && s.fans[f].entries[slot].enabled && s.fans[f].active < 0 && !s.inhibited
      && duration == s.fans[f].entries[slot].duration
    case EndCall(f, target) => FanExists(s, f) && target == s.fans[f].saved && s.fans[f].active >= 0
    case EndDone(f) => FanExists(s, f)
    case ManualCall(f, target) => FanExists(s, f) && target <= 100
    case ManualDone(f, _) => FanExists(s, f)
    case SetHeld(f, slot, interval, duration, target) =>
      SlotExists(s, f, slot) && EntryConfigValid(interval, duration, target)
    case DisableLook(f, slot) => SlotExists(s, f, slot)
    case DisableCall(f, slot, target) =>
      SlotExists(s, f, slot) && target == s.fans[f].saved && s.fans[f].active == slot
    case DisableDone(f, slot, wasActive) =>
      SlotExists(s, f, slot) && (wasActive <==> s.fans[f].active == slot)
    case CancelHeld(f) => FanExists(s, f)
    case OverrideReserve(_, k) => k <= |s.fans|
    case OverrideUnwind(k) => k <= |s.fans|
    case OverrideHeld(_) => true
    case OverrideRestore(k, slots, targets) =>
      && k < |s.fans| && slots == Slots(s) && targets == Targets(s) && s.inhibited
    case OverrideDone(slots) => slots == if s.inhibited then Slots(s) else Nothing(s)
  }

  predicate FanValid(fan: Fan) {
    && |fan.entries| > 0 && fan.cursor < |fan.entries| && NO_SLOT <= fan.active < |fan.entries|
    && (fan.active >= 0 ==> fan.entries[fan.active].enabled)
  }

  /** An active slot is enabled; the latch implies the inhibit and no active slot at all. */
  predicate SchedValid(s: Sched) {
    && (forall f :: 0 <= f < |s.fans| ==> FanValid(s.fans[f]))
    && (s.latched ==> s.inhibited)
  }

  predicate AllIdle(s: Sched) { forall f :: 0 <= f < |s.fans| ==> s.fans[f].active < 0 }

  /** Only a restoring override leaves a slot running under the inhibit. */
  ghost predicate Quenched(s: Sched, jobs: map<TaskId, Job>) {
    s.inhibited && !AllIdle(s) ==> !s.latched && exists t :: t in jobs && Restoring(jobs[t])
  }

  function JobAt(jobs: map<TaskId, Job>, t: TaskId): Option<Job> {
    if t in jobs then Some(jobs[t]) else None
  }

  predicate Holding(job: Option<Job>, n: nat, f: nat) { job.Some? && Owns(job.value, n, f) }

  /** Every reservation is held by exactly one task. */
  ghost predicate Owned(s: Sched, jobs: map<TaskId, Job>) {
    && (forall t, f :: t in jobs && 0 <= f < |s.fans| && Owns(jobs[t], |s.fans|, f) ==> s.fans[f].pending)
    && (forall f :: 0 <= f < |s.fans| && s.fans[f].pending ==>
          exists t :: t in jobs && Owns(jobs[t], |s.fans|, f))
    && (forall t, u, f :: t in jobs && u in jobs && t != u && 0 <= f < |s.fans| ==>
          !(Owns(jobs[t], |s.fans|, f) && Owns(jobs[u], |s.fans|, f)))
  }

  ghost predicate Jobs(s: Sched, jobs: map<TaskId, Job>) {
    forall t :: t in jobs ==> JobValid(s, jobs[t])
  }

  ghost predicate Inv(s: State) {
    && |s.sched.fans| > 0 && SchedValid(s.sched) && Owned(s.sched, s.jobs)
    && Quenched(s.sched, s.jobs) && Jobs(s.sched, s.jobs)
  }

  // ---- every step hands reservations around and leaves other tasks' fans alone ----

  ghost predicate Hands(s: State, s': State, t: TaskId) {
    var n, was, now := |s.sched.fans|, JobAt(s.jobs, t), JobAt(s'.jobs, t);
    && |s'.sched.fans| == n
    && (forall u :: u != t ==> JobAt(s'.jobs, u) == JobAt(s.jobs, u))
    && (forall f :: 0 <= f < n ==>
          HandsFan(s.sched.fans[f], s'.sched.fans[f], Holding(was, n, f), Holding(now, n, f)))
    && (s'.sched.inhibited == s.sched.inhibited || forall f :: 0 <= f < n ==> Holding(was, n, f))
  }

  /** The fan changes only if its task held it or nobody did; pending follows the hands. */
  predicate HandsFan(fan: Fan, fan': Fan, held: bool, holds: bool) {
    && fan'.pending == (holds || (fan.pending && !held))
    && (holds ==> held || !fan.pending)
    && (fan' == fan || held || !fan.pending)
  }

  lemma HandsKeepOwned(s: State, s': State, t: TaskId)
    requires Owned(s.sched, s.jobs) && Hands(s, s', t)
    ensures Owned(s'.sched, s'.jobs)
  {
    var n := |s.sched.fans|;
    assert forall u :: u != t ==> JobAt(s'.jobs, u) == JobAt(s.jobs, u);
    forall f | 0 <= f < n && s'.sched.fans[f].pending
      ensures exists u :: u in s'.jobs && Owns(s'.jobs[u], n, f)
    {
      if !Holding(JobAt(s'.jobs, t), n, f) {
        var u :| u in s.jobs && Owns(s.jobs[u], n, f);
        assert u != t && JobAt(s'.jobs, u) == JobAt(s.jobs, u);
      } else {
        assert t in s'.jobs && Owns(s'.jobs[t], n, f);
      }
    }
    forall u, f | u in s'.jobs && u != t && 0 <= f < n && Owns(s'.jobs[u], n, f)
      ensures s'.sched.fans[f].pending && !Holding(JobAt(s'.jobs, t), n, f)
    {
      assert JobAt(s'.jobs, u) == JobAt(s.jobs, u);
      assert s.sched.fans[f].pending && !Holding(JobAt(s.jobs, t), n, f);
    }
    forall u, v, f | u in s'.jobs && v in s'.jobs && u != v && 0 <= f < n
      ensures !(Owns(s'.jobs[u], n, f) && Owns(s'.jobs[v], n, f))
    {
      assert u != t ==> JobAt(s'.jobs, u) == JobAt(s.jobs, u);
      assert v != t ==> JobAt(s'.jobs, v) == JobAt(s.jobs, v);
      if Owns(s'.jobs[u], n, f) && Owns(s'.jobs[v], n, f) {
        assert u == t ==> Holding(JobAt(s'.jobs, t), n, f);
        assert v == t ==> Holding(JobAt(s'.jobs, t), n, f);
      }
    }
  }

  /** A task whose fans did not change still has a valid job. */
  lemma JobFrame(s: Sched, s': Sched, job: Job)
    requires |s'.fans| == |s.fans| > 0 && JobValid(s, job)
    requires forall f :: 0 <= f < |s.fans| && Owns(job, |s.fans|, f) ==> s'.fans[f] == s.fans[f]
    requires s'.inhibited == s.inhibited || forall f :: 0 <= f < |s.fans| ==> !Owns(job, |s.fans|, f)
    ensures JobValid(s', job)
  {
    if job.OverrideRestore? || job.OverrideDone? {
      assert Owns(job, |s.fans|, 0);
      assert Slots(s') == Slots(s) && Targets(s') == Targets(s) && Nothing(s') == Nothing(s);
    } else if !job.OverrideReserve? && !job.OverrideUnwind? && !job.OverrideHeld? {
      assert Owns(job, |s.fans|, job.fan);
    }
  }

  lemma HandsKeepJobs(s: State, s': State, t: TaskId)
    requires |s.sched.fans| > 0 && Owned(s.sched, s.jobs) && Jobs(s.sched, s.jobs) && Hands(s, s', t)
    requires t in s'.jobs ==> JobValid(s'.sched, s'.jobs[t])
    ensures Jobs(s'.sched, s'.jobs)
  {
    var n := |s.sched.fans|;
    forall u | u in s'.jobs ensures JobValid(s'.sched, s'.jobs[u]) {
      if u != t {
        assert JobAt(s'.jobs, u) == JobAt(s.jobs, u);
        forall f | 0 <= f < n && Owns(s.jobs[u], n, f)
          ensures s'.sched.fans[f] == s.sched.fans[f] && s'.sched.inhibited == s.sched.inhibited
        {
          assert s.sched.fans[f].pending && !Holding(JobAt(s.jobs, t), n, f);
        }
        JobFrame(s.sched, s'.sched, s.jobs[u]);
      }
    }
  }

  // ---- each step ----

  /** What a step must establish for its own task, besides handing reservations over. */
  ghost predicate Sound(s: State, s': State, t: TaskId) {
    && Hands(s, s', t) && SchedValid(s'.sched) && Quenched(s'.sched, s'.jobs)
    && (t in s'.jobs ==> JobValid(s'.sched, s'.jobs[t]))
  }

  lemma SoundKeepsInv(s: State, s': State, t: TaskId)
    requires Inv(s) && Sound(s, s', t)
    ensures Inv(s')
  {
    HandsKeepOwned(s, s', t);
    HandsKeepJobs(s, s', t);
  }

  /** While a task that is not a restoring override holds a fan, nothing runs inhibited. */
  lemma HolderSeesQuiet(s: State, t: TaskId, f: nat)
    requires Inv(s) && t in s.jobs && !Restoring(s.jobs[t])
    requires f < |s.sched.fans| && Owns(s.jobs[t], |s.sched.fans|, f)
    ensures s.sched.inhibited ==> AllIdle(s.sched)
  {
    assert forall u :: u in s.jobs && u != t ==> !Owns(s.jobs[u], |s.sched.fans|, f);
  }

  /** The job holds exactly the fan it names. */
  predicate OneFan(job: Job) {
    !job.OverrideReserve? && !job.OverrideUnwind? && !job.OverrideHeld? && !Restoring(job)
  }

  /** A task gives back its only fan in a valid state. */
  lemma GiveBackIsSound(s: State, t: TaskId, fan: Fan)
    requires Inv(s) && t in s.jobs && OneFan(s.jobs[t]) && s.jobs[t].fan < |s.sched.fans|
    requires FanValid(fan) && !fan.pending && (s.sched.inhibited ==> fan.active < 0)
    ensures Sound(s, State(WithFan(s.sched, s.jobs[t].fan, fan), s.jobs - {t}), t)
  {
    var f := s.jobs[t].fan;
    assert Owns(s.jobs[t], |s.sched.fans|, f);
    HolderSeesQuiet(s, t, f);
  }

  lemma IdledIsSound(s: State, t: TaskId)
    requires Inv(s) && t in s.jobs && OneFan(s.jobs[t]) && s.jobs[t].fan < |s.sched.fans|
    ensures Sound(s, State(EndFinish(s.sched, s.jobs[t].fan), s.jobs - {t}), t)
  {
    GiveBackIsSound(s, t, Idled(s.sched.fans[s.jobs[t].fan]));
  }

  lemma StartFinishIsSound(s: State, t: TaskId, now: nat)
    requires Inv(s) && t in s.jobs && s.jobs[t].StartDone?
    ensures Sound(s, AdvanceJob(s, t, now, false), t)
  {
    var job := s.jobs[t];
    assert JobValid(s.sched, job);
    GiveBackIsSound(s, t, StartFinish(s.sched, job.fan, job.slot, job.duration, job.now,
                                      job.accepted && job.manual <= 100, job.manual).fans[job.fan]);
  }

  lemma ManualFinishIsSound(s: State, t: TaskId, now: nat)
    requires Inv(s) && t in s.jobs && s.jobs[t].ManualDone?
    ensures Sound(s, AdvanceJob(s, t, now, false), t)
  {
    var job := s.jobs[t];
    assert JobValid(s.sched, job) && Owns(job, |s.sched.fans|, job.fan);
    HolderSeesQuiet(s, t, job.fan);
    GiveBackIsSound(s, t, ManualFinish(s.sched, job.fan, job.accepted).fans[job.fan]);
  }

  lemma EntryFinishIsSound(s: State, t: TaskId, now: nat)
    requires Inv(s) && t in s.jobs && (s.jobs[t].SetHeld? || s.jobs[t].DisableDone?)
    ensures Sound(s, AdvanceJob(s, t, now, false), t)
  {
    var job, s' := s.jobs[t], AdvanceJob(s, t, now, false);
    assert JobValid(s.sched, job) && Owns(job, |s.sched.fans|, job.fan);
    HolderSeesQuiet(s, t, job.fan);
    GiveBackIsSound(s, t, s'.sched.fans[job.fan]);
  }

  /** A task whose next job holds the same fans and touches nothing. */
  lemma MoveIsSound(s: State, t: TaskId, job: Job)
    requires Inv(s) && t in s.jobs && JobValid(s.sched, job) && (Restoring(s.jobs[t]) ==> Restoring(job))
    requires forall f :: 0 <= f < |s.sched.fans| ==>
               Owns(job, |s.sched.fans|, f) == Owns(s.jobs[t], |s.sched.fans|, f)
    ensures Sound(s, s.(jobs := s.jobs[t := job]), t)
  {
    MoveHands(s, t, job);
    QuenchedFrame(s, s.(jobs := s.jobs[t := job]), t);
  }

  lemma MoveHands(s: State, t: TaskId, job: Job)
    requires Owned(s.sched, s.jobs) && t in s.jobs
    requires forall f :: 0 <= f < |s.sched.fans| ==>
               Owns(job, |s.sched.fans|, f) == Owns(s.jobs[t], |s.sched.fans|, f)
    ensures Hands(s, s.(jobs := s.jobs[t := job]), t)
  {
    var n, s' := |s.sched.fans|, s.(jobs := s.jobs[t := job]);
    forall f | 0 <= f < n
      ensures HandsFan(s.sched.fans[f], s'.sched.fans[f],
                       Holding(JobAt(s.jobs, t), n, f), Holding(JobAt(s'.jobs, t), n, f))
    {
      assert Owns(job, n, f) == Owns(s.jobs[t], n, f);
    }
  }

  /** A task without a job reserves a free fan. */
  lemma ReserveIsSound(s: State, t: TaskId, f: nat, fan: Fan, job: Job)
    requires Inv(s) && t !in s.jobs && f < |s.sched.fans| && !s.sched.fans[f].pending
    requires OneFan(job) && job.fan == f && FanValid(fan) && fan.pending
    requires fan.active == s.sched.fans[f].active
    requires JobValid(WithFan(s.sched, f, fan), job)
    ensures Sound(s, State(WithFan(s.sched, f, fan), s.jobs[t := job]), t)
  {
    var s' := State(WithFan(s.sched, f, fan), s.jobs[t := job]);
    QuenchedFrame(s, s', t);
  }

  /** The same slots run, and a restoring override is still there. */
  lemma QuenchedFrame(s: State, s': State, t: TaskId)
    requires Quenched(s.sched, s.jobs) && |s'.sched.fans| == |s.sched.fans|
    requires forall f :: 0 <= f < |s.sched.fans| ==> s'.sched.fans[f].active == s.sched.fans[f].active
    requires s'.sched.inhibited == s.sched.inhibited && s'.sched.latched == s.sched.latched
    requires forall u :: u in s.jobs && Restoring(s.jobs[u]) ==> u in s'.jobs && Restoring(s'.jobs[u])
    ensures Quenched(s'.sched, s'.jobs)
  {
    if s'.sched.inhibited && !AllIdle(s'.sched) {
      assert !AllIdle(s.sched);
      var u :| u in s.jobs && Restoring(s.jobs[u]);
      assert u in s'.jobs && Restoring(s'.jobs[u]);
    }
  }

  lemma CallbackIsSound(s: State, t: TaskId, accepted: bool, manual: nat)
    requires Inv(s) && t in s.jobs && RequestOf(s.jobs[t]).Some?
    ensures Sound(s, Next(s, Callback(t, accepted, manual)), t)
  {
    assert JobValid(s.sched, s.jobs[t]);
    MoveIsSound(s, t, Called(s.jobs[t], accepted && manual <= 100, manual));
  }

  lemma LookIsSound(s: State, t: TaskId, now: nat)
    requires Inv(s) && t in s.jobs && s.jobs[t].DisableLook?
    ensures Sound(s, AdvanceJob(s, t, now, false), t)
  {
    var job := s.jobs[t];
    assert JobValid(s.sched, job);
    MoveIsSound(s, t, AdvanceJob(s, t, now, false).jobs[t]);
  }

  lemma SkipIsSound(s: State, t: TaskId, now: nat)
    requires Inv(s) && t in s.jobs && s.jobs[t].OverrideRestore? && RequestOf(s.jobs[t]).None?
    ensures Sound(s, AdvanceJob(s, t, now, false), t)
  {
    assert JobValid(s.sched, s.jobs[t]);
    MoveIsSound(s, t, AdvanceJob(s, t, now, false).jobs[t]);
  }

  // ---- overrides ----

  lemma OverrideReserveIsSound(s: State, t: TaskId, now: nat, timeout: bool)
    requires Inv(s) && t in s.jobs && s.jobs[t].OverrideReserve?
    ensures AdvanceJob(s, t, now, timeout) == s || Sound(s, AdvanceJob(s, t, now, timeout), t)
  {
    var job, n := s.jobs[t], |s.sched.fans|;
    assert JobValid(s.sched, job);
    if job.k >= n {
      MoveIsSound(s, t, OverrideHeld(job.on));
    } else if !s.sched.fans[job.k].pending {
      ReserveNextIsSound(s, t);
    } else if timeout {
      MoveIsSound(s, t, OverrideUnwind(job.k));
    }
  }

  lemma ReserveNextIsSound(s: State, t: TaskId)
    requires Inv(s) && t in s.jobs && s.jobs[t].OverrideReserve?
    requires s.jobs[t].k < |s.sched.fans| && !s.sched.fans[s.jobs[t].k].pending
    ensures var job := s.jobs[t];
            Sound(s, State(Reserve(s.sched, job.k), s.jobs[t := OverrideReserve(job.on, job.k + 1)]), t)
  {
    var job := s.jobs[t];
    var s' := State(Reserve(s.sched, job.k), s.jobs[t := OverrideReserve(job.on, job.k + 1)]);
    QuenchedFrame(s, s', t);
    assert JobValid(s.sched, job);
  }

  lemma UnwindIsSound(s: State, t: TaskId, k: nat)
    requires Inv(s) && t in s.jobs && !Restoring(s.jobs[t]) && k <= |s.sched.fans|
    requires forall f :: 0 <= f < |s.sched.fans| ==> (Owns(s.jobs[t], |s.sched.fans|, f) <==> f < k)
    ensures Sound(s, State(ReleaseFirst(s.sched, k), s.jobs - {t}), t)
  {
    var n, s' := |s.sched.fans|, State(ReleaseFirst(s.sched, k), s.jobs - {t});
    QuenchedFrame(s, s', t);
    forall f | 0 <= f < n
      ensures HandsFan(s.sched.fans[f], s'.sched.fans[f],
                       Holding(JobAt(s.jobs, t), n, f), Holding(JobAt(s'.jobs, t), n, f))
    {
      assert Owns(s.jobs[t], n, f) <==> f < k;
    }
  }

  lemma OverrideHeldIsSound(s: State, t: TaskId, now: nat)
    requires Inv(s) && t in s.jobs && s.jobs[t].OverrideHeld?
    ensures Sound(s, AdvanceJob(s, t, now, false), t)
  {
    var job, n := s.jobs[t], |s.sched.fans|;
    var s' := AdvanceJob(s, t, now, false);
    HolderSeesQuiet(s, t, 0);
    if OverrideApply(s.sched, job.on, now).None? {
      UnwindIsSound(s, t, n);
    } else {
      assert forall f :: 0 <= f < n ==> Owns(job, n, f);
      assert s'.jobs[t].OverrideRestore? ==> Restoring(s'.jobs[t]);
      assert job.on ==> Slots(s'.sched) == Slots(s.sched) && Targets(s'.sched) == Targets(s.sched);
      assert Nothing(s'.sched) == Nothing(s.sched);
    }
  }

  lemma OverrideDoneIsSound(s: State, t: TaskId, now: nat)
    requires Inv(s) && t in s.jobs && s.jobs[t].OverrideDone?
    ensures Sound(s, AdvanceJob(s, t, now, false), t)
  {
    var job, n := s.jobs[t], |s.sched.fans|;
    assert JobValid(s.sched, job);
    var s' := AdvanceJob(s, t, now, false);
    assert forall f :: 0 <= f < n ==> Owns(job, n, f);
    assert s.sched.inhibited ==> AllIdle(s'.sched);
  }

  // ---- the whole scheduler ----

  lemma AdvanceKeepsInv(s: State, t: TaskId, now: nat, timeout: bool)
    requires Inv(s) && t in s.jobs
    ensures Inv(AdvanceJob(s, t, now, timeout))
  {
    var job, s' := s.jobs[t], AdvanceJob(s, t, now, timeout);
    assert JobValid(s.sched, job);
    if s' == s { return; }
    if job.OverrideReserve? {
      OverrideReserveIsSound(s, t, now, timeout);
    } else if job.OverrideUnwind? {
      UnwindIsSound(s, t, job.k);
    } else if job.OverrideHeld? {
      OverrideHeldIsSound(s, t, now);
    } else if job.OverrideRestore? {
      SkipIsSound(s, t, now);
    } else if job.OverrideDone? {
      OverrideDoneIsSound(s, t, now);
    } else {
      OneFanAdvanceIsSound(s, t, now);
      assert AdvanceJob(s, t, now, false) == s';
    }
    SoundKeepsInv(s, s', t);
  }

  lemma OneFanAdvanceIsSound(s: State, t: TaskId, now: nat)
    requires Inv(s) && t in s.jobs && OneFan(s.jobs[t])
    ensures AdvanceJob(s, t, now, false) == s || Sound(s, AdvanceJob(s, t, now, false), t)
  {
    var job := s.jobs[t];
    assert JobValid(s.sched, job);
    if job.EndDone? || job.CancelHeld? {
      IdledIsSound(s, t);
    } else if job.StartDone? {
      StartFinishIsSound(s, t, now);
    } else if job.ManualDone? {
      ManualFinishIsSound(s, t, now);
    } else if job.SetHeld? || job.DisableDone? {
      EntryFinishIsSound(s, t, now);
    } else if job.DisableLook? {
      LookIsSound(s, t, now);
    }
  }

  lemma BeginStartKeepsInv(s: State, t: TaskId, f: int, now: nat)
    requires Inv(s)
    ensures Inv(Next(s, BeginStart(t, f, now)))
  {
    if t in s.jobs || !MayStart(s.sched, f) { return; }
    var fan := s.sched.fans[f];
    var (c, slot) := StartSelect(s.sched, f, now);
    var s' := Next(s, BeginStart(t, f, now));
    ArmingKeepsFan(fan, now);
    if slot.None? {
      ArmedIsSound(s, t, f, c.fans[f]);
    } else {
      ReserveIsSound(s, t, f, c.fans[f], s'.jobs[t]);
    }
    SoundKeepsInv(s, s', t);
  }

  lemma ArmingKeepsFan(fan: Fan, now: nat)
    requires FanValid(fan)
    ensures forall count: nat :: FanValid(fan.(entries := ArmedFirst(fan, now, count)))
    ensures forall count: nat, slot :: 0 <= slot < |fan.entries| ==>
              ArmedFirst(fan, now, count)[slot].enabled == fan.entries[slot].enabled
  {
    forall count: nat, slot | 0 <= slot < |fan.entries|
      ensures ArmedFirst(fan, now, count)[slot].enabled == fan.entries[slot].enabled
    {
      ArmingKeepsEntries(fan, now, count, slot);
    }
  }

  lemma ArmedIsSound(s: State, t: TaskId, f: nat, fan: Fan)
    requires Inv(s) && t !in s.jobs && f < |s.sched.fans| && !s.sched.fans[f].pending
    requires FanValid(fan) && !fan.pending && fan.active == s.sched.fans[f].active
    ensures Sound(s, s.(sched := WithFan(s.sched, f, fan)), t)
  {
    QuenchedFrame(s, s.(sched := WithFan(s.sched, f, fan)), t);
  }

  lemma BeginKeepsInv(s: State, step: Step)
    requires Inv(s)
    requires step.BeginEnd? || step.BeginManual? || step.BeginSet? || step.BeginDisable? || step.BeginCancel?
    ensures Inv(Next(s, step))
  {
    var s' := Next(s, step);
    if s' != s {
      ReserveIsSound(s, step.t, step.local, s.sched.fans[step.local].(pending := true), s'.jobs[step.t]);
      SoundKeepsInv(s, s', step.t);
    }
  }

  lemma BeginOverrideKeepsInv(s: State, t: TaskId, on: bool)
    requires Inv(s)
    ensures Inv(Next(s, BeginOverride(t, on)))
  {
    var s' := Next(s, BeginOverride(t, on));
    if s' != s {
      QuenchedFrame(s, s', t);
      SoundKeepsInv(s, s', t);
    }
  }

  lemma InhibitKeepsInv(s: State)
    requires Inv(s)
    ensures Inv(Next(s, InhibitAll))
  {
    var s' := Next(s, InhibitAll);
    if s' == s { return; }
    var n := |s.sched.fans|;
    assert AllIdle(s'.sched);
    assert Owned(s'.sched, s'.jobs);
    forall t | t in s'.jobs ensures JobValid(s'.sched, s'.jobs[t]) {
      assert JobValid(s.sched, s.jobs[t]);
      forall f | 0 <= f < n ensures !Owns(s.jobs[t], n, f) {
        assert !s.sched.fans[f].pending;
      }
      JobFrame(s.sched, s'.sched, s.jobs[t]);
    }
  }

  /** Every step of every task keeps the scheduler's invariant. */
  lemma NextKeepsInv(s: State, step: Step)
    requires Inv(s)
    ensures Inv(Next(s, step))
  {
    match step {
      case BeginStart(t, f, now) => BeginStartKeepsInv(s, t, f, now);
      case BeginOverride(t, on) => BeginOverrideKeepsInv(s, t, on);
      case Advance(t, now, timeout) => if t in s.jobs { AdvanceKeepsInv(s, t, now, timeout); }
      case Callback(t, accepted, manual) =>
        if t in s.jobs && RequestOf(s.jobs[t]).Some? {
          CallbackIsSound(s, t, accepted, manual);
          SoundKeepsInv(s, Next(s, step), t);
        }
      case InhibitAll => InhibitKeepsInv(s);
      case _ => BeginKeepsInv(s, step);
    }
  }

  // ---- what the invariant means ----

  /** Runtime latch, inhibit, reservations and active slots, in every reachable state. */
  lemma InhibitAndTracking(s: State, f: nat)
    requires Inv(s) && f < |s.sched.fans|
    ensures s.sched.latched ==> s.sched.inhibited && s.sched.fans[f].active < 0
    ensures s.sched.inhibited ==> s.sched.fans[f].active < 0 || s.sched.fans[f].pending
    ensures s.sched.fans[f].active >= 0 ==> s.sched.fans[f].entries[s.sched.fans[f].active].enabled
    ensures s.sched.fans[f].pending <==> exists t :: t in s.jobs && Owns(s.jobs[t], |s.sched.fans|, f)
  {
    if s.sched.inhibited && s.sched.fans[f].active >= 0 {
      var t :| t in s.jobs && Restoring(s.jobs[t]);
      assert Owns(s.jobs[t], |s.sched.fans|, f);
    }
  }

  /** What holds of the scheduler's own data in every reachable state. */
  predicate Tracked(s: Sched) {
    && SchedValid(s) && (s.latched ==> AllIdle(s))
    && forall f :: 0 <= f < |s.fans| && s.inhibited ==> s.fans[f].active < 0 || s.fans[f].pending
  }

  lemma InvIsTracked(s: State)
    requires Inv(s)
    ensures Tracked(s.sched)
  {
    forall f | 0 <= f < |s.sched.fans| && s.sched.inhibited
      ensures s.sched.fans[f].active < 0 || s.sched.fans[f].pending
    {
      InhibitAndTracking(s, f);
    }
  }

  /**
   * A START that begins is that of a due entry, which an idle fan without inhibit was
   * reserved for: it asks for the entry's own target, and remembers the entry's own
   * duration and the moment it began.
   */
  lemma StartsAreConfigured(s: State, t: TaskId, f: int, now: nat)
    requires Inv(s) && t !in s.jobs && t in Next(s, BeginStart(t, f, now)).jobs
    ensures MayStart(s.sched, f)
    ensures var s' := Next(s, BeginStart(t, f, now));
            var job := s'.jobs[t];
            && job.StartCall? && job.fan == f && job.now == now && SlotExists(s.sched, f, job.slot)
            && var entry := s.sched.fans[f].entries[job.slot];
               && entry.enabled && Due(Armed(entry, now), now)
               && RequestOf(job) == Some(Start(f, entry.target)) && job.duration == entry.duration
               && s'.sched.fans[f].entries[job.slot] == Armed(entry, now) && s'.sched.fans[f].pending
  {
    var fan := s.sched.fans[f];
    var c := FirstDue(fan, now, 0);
    ChosenIsArmedOnce(fan, now, c);
  }

  /** The chosen slot is looked at once, last of all. */
  lemma ChosenIsArmedOnce(fan: Fan, now: nat, c: nat)
    requires FanValid(fan) && c < |fan.entries|
    ensures var slot := SlotAt(fan, c);
            ArmedFirst(fan, now, c + 1)[slot] == Armed(fan.entries[slot], now)
  {
    ArmingSeesOnce(fan, now, c);
  }

  /** What the fan records of a START: the slot runs, and its times follow the entry. */
  predicate Recorded(was: Fan, fan: Fan, slot: nat, start: nat, manual: nat) {
    && slot < |was.entries| == |fan.entries|
    && fan.active == slot && fan.saved == manual && !fan.pending
    && fan.end == start + was.entries[slot].duration * 60_000_000
    && fan.entries[slot] == was.entries[slot].(next := start + was.entries[slot].interval * 60_000_000)
    && fan.cursor == (if slot + 1 < |fan.entries| then slot + 1 else 0)
    && forall i :: 0 <= i < |fan.entries| && i != slot ==> fan.entries[i] == was.entries[i]
  }

  /**
   * A START the motor module accepted with a valid manual target always becomes
   * the fan's tracked active slot, holding the captured target. It runs for the entry's
   * own duration from the moment it began, the entry comes due again its own interval
   * after that, and the next search begins behind it.
   */
  lemma AcceptedStartIsTracked(s: State, t: TaskId, now: nat, timeout: bool)
    requires Inv(s) && t in s.jobs && s.jobs[t].StartDone? && s.jobs[t].accepted && s.jobs[t].manual <= 100
    ensures var job := s.jobs[t];
            var fans' := Next(s, Advance(t, now, timeout)).sched.fans;
            && job.fan < |s.sched.fans| == |fans'|
            && Recorded(s.sched.fans[job.fan], fans'[job.fan], job.slot, job.now, job.manual)
  {
    var job := s.jobs[t];
    assert JobValid(s.sched, job);
    StartTakesEffect(s.sched, job.fan, job.slot, job.duration, job.now, job.manual);
    CyclicNext(job.slot, |s.sched.fans[job.fan].entries|);
  }

  lemma StartTakesEffect(s: Sched, f: nat, slot: nat, duration: nat, now: nat, manual: nat)
    requires f < |s.fans| && FanValid(s.fans[f]) && StartTracks(s, f, slot, true)
    ensures var was, fan := s.fans[f], StartFinish(s, f, slot, duration, now, true, manual).fans[f];
            && fan.active == slot && fan.saved == manual && !fan.pending && fan.end == now + duration * MINUTE_US
            && |fan.entries| == |was.entries|
            && fan.entries[slot] == was.entries[slot].(next := now + was.entries[slot].interval * MINUTE_US)
            && fan.cursor == (slot + 1) % |fan.entries|
            && forall i :: 0 <= i < |fan.entries| && i != slot ==> fan.entries[i] == was.entries[i]
  {
  }

  lemma CyclicNext(slot: nat, n: nat)
    requires slot < n
    ensures (slot + 1) % n == if slot + 1 < n then slot + 1 else 0
  {
  }

  /** The inhibit latch survives everything, and with it no schedule runs or starts. */
  lemma LatchIsForGood(s: State, step: Step)
    requires Inv(s) && s.sched.latched
    ensures Next(s, step).sched.latched && Next(s, step).sched.inhibited
    ensures AllIdle(Next(s, step).sched)
  {
    NextKeepsInv(s, step);
    if step.Advance? && step.t in s.jobs { assert JobValid(s.sched, s.jobs[step.t]); }
  }

  // ---- every reservation is given back ----

  /** What the mutex timeout, the clock and the target callback answer a task's next section. */
  datatype Answer = Answer(now: nat, accepted: bool, manual: nat)

  /** The task's own next section: the callback if it has one to make, else the mutex section. */
  function OwnStep(t: TaskId, job: Job, answer: Answer): Step {
    if RequestOf(job).Some? then Callback(t, answer.accepted, answer.manual)
    else Advance(t, answer.now, true)
  }

  /** Sections left, at most, until the task has given back what it holds. */
  function Remaining(job: Job, n: nat): nat {
    match job
    case EndCall(_, _) => 2
    case EndDone(_) => 1
    case StartCall(_, _, _, _, _) => 2
    case StartDone(_, _, _, _, _, _) => 1
    case ManualCall(_, _) => 2
    case ManualDone(_, _) => 1
    case SetHeld(_, _, _, _, _) => 1
    case DisableLook(_, _) => 3
    case DisableCall(_, _, _) => 2
    case DisableDone(_, _, _) => 1
    case CancelHeld(_) => 1
    case OverrideReserve(_, k) => 2 * n + 5 - (if k < n then k else n)
    case OverrideUnwind(_) => 1
    case OverrideHeld(_) => n + 3
    case OverrideRestore(k, _, _) => n + 2 - (if k < n then k else n)
    case OverrideDone(_) => 1
  }

  lemma CallComesNearer(job: Job, accepted: bool, manual: nat, n: nat, s: Sched)
    requires RequestOf(job).Some? && JobValid(s, job) && n == |s.fans|
    ensures Remaining(Called(job, accepted, manual), n) < Remaining(job, n)
  {
  }

  lemma SectionComesNearer(s: State, t: TaskId, now: nat)
    requires |s.sched.fans| > 0 && t in s.jobs && RequestOf(s.jobs[t]).None? && JobValid(s.sched, s.jobs[t])
    ensures var s' := AdvanceJob(s, t, now, true);
            && (t in s'.jobs ==> Remaining(s'.jobs[t], |s.sched.fans|) < Remaining(s.jobs[t], |s.sched.fans|))
            && |s'.sched.fans| == |s.sched.fans|
            && forall u :: u != t ==> JobAt(s'.jobs, u) == JobAt(s.jobs, u)
  {
  }

  /** No section waits for anything: each ends the job or brings its release strictly nearer. */
  lemma OwnStepComesNearer(s: State, t: TaskId, answer: Answer)
    requires Inv(s) && t in s.jobs
    ensures var s' := Next(s, OwnStep(t, s.jobs[t], answer));
            && (t in s'.jobs ==> Remaining(s'.jobs[t], |s.sched.fans|) < Remaining(s.jobs[t], |s.sched.fans|))
            && |s'.sched.fans| == |s.sched.fans|
            && forall u :: u != t ==> JobAt(s'.jobs, u) == JobAt(s.jobs, u)
  {
    assert JobValid(s.sched, s.jobs[t]);
    if RequestOf(s.jobs[t]).Some? {
      CallComesNearer(s.jobs[t], answer.accepted && answer.manual <= 100, answer.manual, |s.sched.fans|, s.sched);
    } else {
      SectionComesNearer(s, t, answer.now);
    }
  }

  /** The task runs on alone. */
  function OwnRun(s: State, t: TaskId, answers: seq<Answer>): State
    decreases |answers|
  {
    if answers == [] || t !in s.jobs then s
    else OwnRun(Next(s, OwnStep(t, s.jobs[t], answers[0])), t, answers[1..])
  }

  /**
   * Whatever the callbacks answer and whichever waits time out, a task that runs on
   * gives back every fan it holds within a bounded number of its own sections: there is
   * no path on which a reservation is kept.
   */
  lemma {:induction false} ReservationsAreGivenBack(s: State, t: TaskId, answers: seq<Answer>)
    requires Inv(s) && t in s.jobs && |answers| >= Remaining(s.jobs[t], |s.sched.fans|)
    ensures var s' := OwnRun(s, t, answers);
            && Inv(s') && t !in s'.jobs && |s'.sched.fans| == |s.sched.fans|
            && (forall u :: u != t ==> JobAt(s'.jobs, u) == JobAt(s.jobs, u))
            && forall f :: 0 <= f < |s.sched.fans| && Owns(s.jobs[t], |s.sched.fans|, f) ==> !s'.sched.fans[f].pending
    decreases |answers|
  {
    var n, s1 := |s.sched.fans|, Next(s, OwnStep(t, s.jobs[t], answers[0]));
    NextKeepsInv(s, OwnStep(t, s.jobs[t], answers[0]));
    OwnStepComesNearer(s, t, answers[0]);
    if t in s1.jobs {
      ReservationsAreGivenBack(s1, t, answers[1..]);
    } else {
      assert OwnRun(s1, t, answers[1..]) == s1;
    }
    var s' := OwnRun(s, t, answers);
    forall f | 0 <= f < n && Owns(s.jobs[t], n, f) ensures !s'.sched.fans[f].pending {
      NobodyElseHolds(s, s', t, f);
    }
  }

  /** A fan only t held, t being gone, is free. */
  lemma NobodyElseHolds(s: State, s': State, t: TaskId, f: nat)
    requires Inv(s) && Inv(s') && |s'.sched.fans| == |s.sched.fans| && f < |s.sched.fans|
    requires t in s.jobs && Owns(s.jobs[t], |s.sched.fans|, f) && t !in s'.jobs
    requires forall u :: u != t ==> JobAt(s'.jobs, u) == JobAt(s.jobs, u)
    ensures !s'.sched.fans[f].pending
  {
    var n := |s.sched.fans|;
    forall u | u in s'.jobs ensures !Owns(s'.jobs[u], n, f) {
      assert u != t && JobAt(s'.jobs, u) == JobAt(s.jobs, u);
    }
  }

  function Init(fans: seq<Fan>, inhibited: bool): State { State(Sched(fans, inhibited, false), map[]) }

  /** After scheduler_init, whatever entries the loaded blob enabled. */
  lemma InitIsValid(fans: seq<Fan>, inhibited: bool)
    requires |fans| > 0
    requires forall f :: 0 <= f < |fans| ==> FanValid(fans[f]) && !fans[f].pending && fans[f].active == NO_SLOT
    ensures Inv(Init(fans, inhibited))
  {
  }
}
