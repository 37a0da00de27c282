/**
 * The path of a tach fault under the STOP_FAN policy: latched by the monitor
 * (main/tach_monitor.c), carried through one pending slot per fan to the action worker,
 * turned into a motor inhibit, and cleared by operators (main/tach_actions.c).
 */
module TachActions {
  import opened Prelude

  datatype Cause = NoFault | Stall | SensorInvalid

  /** The monitor's fault fields of one fan. */
  datatype Fault = Fault(alarm: bool, latched: bool, cause: Cause, generation: nat)

  datatype Notice = Notice(fan: nat, cause: Cause, generation: nat)

  datatype Slot = Slot(pending: bool, notice: Notice)

  /** The sampling task: between latching a fault and waking the worker. */
  datatype Monitor = Sampling | Telling(notice: Notice) | Waking(fan: nat)

  /** The worker: `scanned` fans of this pass are done with, `todo` are the notified ones. */
  datatype Worker =
    | Asleep
    | Scanning(next: nat, todo: set<nat>)
    | Taken(next: nat, todo: set<nat>, notice: Notice)
    | Holding(next: nat, todo: set<nat>, notice: Notice)
    | Checked(next: nat, todo: set<nat>, notice: Notice)
    | Inhibited(next: nat, todo: set<nat>, notice: Notice)
    | Escalating(next: nat, todo: set<nat>, notice: Notice)
    | Releasing(next: nat, todo: set<nat>)

  /** An operator CLEAR command. */
  datatype Clear = Begun | Ready(fan: nat) | MonitorCleared(fan: nat) | Ending

  datatype Owner = Nobody | TheWorker | Operator(t: TaskId)

  datatype State = State(
    faults: seq<Fault>, slots: seq<Slot>, bits: set<nat>, monitor: Monitor, worker: Worker,
    mutex: Owner, clears: map<TaskId, Clear>, inhibited: seq<bool>, stoppedAll: bool)

  datatype Step =
    | Fails(local: int, cause: Cause)
    | Recovers(local: int)
    | MonitorStep
    | WorkerStep(ok: bool)
    | ClearBegin(t: TaskId)
    | ClearStep(t: TaskId, fan: nat)

  predicate FanExists(s: State, f: int) { 0 <= f < |s.faults| }

  /** sample_fan latches a fault that was not latched yet. */
  function Latch(s: State, f: nat, cause: Cause): State
    requires FanExists(s, f)
  {
    var fault := Fault(true, true, cause, s.faults[f].generation + 1);
    s.(faults := s.faults[f := fault], monitor := Telling(Notice(f, cause, fault.generation)))
  }

  /** A healthy sample lowers an alarm only while nothing is latched. */
  function Recover(s: State, f: nat): State
    requires FanExists(s, f)
  {
    if s.faults[f].latched then s
    else s.(faults := s.faults[f := s.faults[f].(alarm := false, cause := NoFault)])
  }

  /** tach_actions_confirmed_stall: fill the slot, then notify. */
  function MonitorNext(s: State): State
    requires |s.slots| == |s.faults|
  {
    match s.monitor
    case Sampling => s
    case Telling(notice) =>
      if notice.fan < |s.slots|
      then s.(slots := s.slots[notice.fan := Slot(true, notice)], monitor := Waking(notice.fan)) else s
    case Waking(f) => s.(bits := s.bits + {f}, monitor := Sampling)
  }

  /** tach_event_is_current. */
  predicate IsCurrent(s: State, notice: Notice) {
    notice.fan < |s.faults| && Tells(notice, s.faults[notice.fan])
  }

  /** The notice is of this very fault, and it is still raised. */
  predicate Tells(notice: Notice, fault: Fault) {
    fault.alarm && fault.cause == notice.cause && fault.generation == notice.generation
  }

  /** One step of tach_action_task; ok is the outcome of motor, scheduler or NVS work. */
  function WorkerNext(s: State, ok: bool): State
    requires |s.slots| == |s.faults| == |s.inhibited|
  {
    match s.worker
    case Asleep => s.(bits := {}, worker := Scanning(0, s.bits))
    case Scanning(next, todo) =>
      if next >= |s.faults| then s.(worker := Asleep)
      else if next !in todo then s.(worker := Scanning(next + 1, todo))
      else if !s.slots[next].pending then s.(worker := Scanning(next + 1, todo - {next}))
      else s.(slots := s.slots[next := s.slots[next].(pending := false)],
              worker := Taken(next + 1, todo - {next}, s.slots[next].notice))
    case Taken(next, todo, notice) =>
      if s.mutex.Nobody? then s.(mutex := TheWorker, worker := Holding(next, todo, notice)) else s
    case Holding(next, todo, notice) =>
      if IsCurrent(s, notice) then s.(worker := Checked(next, todo, notice))
      else s.(worker := Releasing(next, todo))
    case Checked(next, todo, notice) =>
      if notice.fan < |s.inhibited|
      then s.(inhibited := s.inhibited[notice.fan := true], worker := Inhibited(next, todo, notice)) else s
    case Inhibited(next, todo, notice) =>
      s.(worker := if ok then Releasing(next, todo) else Escalating(next, todo, notice))
    case Escalating(next, todo, _) => s.(stoppedAll := true, worker := Releasing(next, todo))
    case Releasing(next, todo) => s.(mutex := Nobody, worker := Scanning(next, todo))
  }

  /** tach_actions_clear_begin, tach_actions_clear_locked and tach_actions_clear_end. */
  function ClearNext(s: State, t: TaskId, f: nat): State
    requires t in s.clears && |s.faults| == |s.inhibited|
  {
    match s.clears[t]
    case Begun =>
      if s.mutex.Nobody? then s.(mutex := Operator(t), clears := s.clears[t := Ready(f)]) else s
    case Ready(g) =>
      if g >= |s.faults| then s.(clears := s.clears[t := Ending])
      else s.(faults := s.faults[g := Fault(false, false, NoFault, s.faults[g].generation + 1)],
              clears := s.clears[t := MonitorCleared(g)])
    case MonitorCleared(g) =>
      s.(inhibited := if g < |s.inhibited| then s.inhibited[g := false] else s.inhibited,
         clears := s.clears[t := Ending])
    case Ending => s.(mutex := Nobody, clears := s.clears - {t})
  }

  predicate Sized(s: State) { |s.slots| == |s.faults| == |s.inhibited| }

  function Next(s: State, step: Step): (r: State)
    requires Sized(s)
    ensures Sized(r)
  {
    match step
    case Fails(f, cause) =>
      if s.monitor.Sampling? && FanExists(s, f) && cause != NoFault && !s.faults[f].alarm
      then Latch(s, f, cause) else s
    case Recovers(f) => if s.monitor.Sampling? && FanExists(s, f) then Recover(s, f) else s
    case MonitorStep => MonitorNext(s)
    case WorkerStep(ok) => WorkerNext(s, ok)
    case ClearBegin(t) => if t in s.clears then s else s.(clears := s.clears[t := Begun])
    case ClearStep(t, f) => if t in s.clears then ClearNext(s, t, f) else s
  }

  // ---- the invariant ----

  predicate Owns(c: Clear) { !c.Begun? }

  predicate WorkerOwns(w: Worker) {
    w.Holding? || w.Checked? || w.Inhibited? || w.Escalating? || w.Releasing?
  }

  ghost predicate Serialized(s: State) {
    && (s.mutex.TheWorker? <==> WorkerOwns(s.worker))
    && (forall t :: t in s.clears && Owns(s.clears[t]) ==> s.mutex == Operator(t))
    && (s.mutex.Operator? ==> s.mutex.t in s.clears && Owns(s.clears[s.mutex.t]))
  }

  predicate NoticeValid(s: State, n: Notice) {
    n.fan < |s.faults| && 0 < n.generation <= s.faults[n.fan].generation && n.cause != NoFault
  }

  /** The notice is of the fault that is latched now, if any is. */
  predicate Newest(s: State, n: Notice) {
    n.fan < |s.faults| && s.faults[n.fan].latched ==> n.generation == s.faults[n.fan].generation
  }

  /** Notices never run ahead of the monitor, and its own is the newest. */
  ghost predicate Notices(s: State) {
    && (s.monitor.Telling? ==> NoticeValid(s, s.monitor.notice) && Newest(s, s.monitor.notice))
    && (s.monitor.Waking? ==> s.monitor.fan < |s.faults|)
    && (forall f :: 0 <= f < |s.slots| && s.slots[f].pending ==>
          NoticeValid(s, s.slots[f].notice) && s.slots[f].notice.fan == f)
    && (s.worker.Taken? || s.worker.Holding? || s.worker.Checked? || s.worker.Inhibited? || s.worker.Escalating? ==>
          NoticeValid(s, s.worker.notice))
  }

  /** The worker will look at fan f's slot without being woken again, or a wake-up is owed. */
  predicate WillLook(s: State, f: nat) {
    f in s.bits || s.monitor == Waking(f) || (!s.worker.Asleep? && f in s.worker.todo && f >= s.worker.next)
  }

  /** Where the notice of a fan's latched fault may be. */
  predicate InTransit(s: State, f: nat, generation: nat) {
    s.monitor.Telling? && s.monitor.notice.fan == f && s.monitor.notice.generation == generation
  }

  predicate Pending(s: State, f: nat, generation: nat) {
    f < |s.slots| && s.slots[f].pending && s.slots[f].notice.generation == generation && WillLook(s, f)
  }

  predicate InHand(s: State, f: nat, generation: nat) {
    && (s.worker.Taken? || s.worker.Holding? || s.worker.Checked?)
    && s.worker.notice.fan == f && s.worker.notice.generation == generation
  }

  /** The newest notice of a latched fault carries the monitor's cause. */
  predicate CauseKept(s: State, n: Notice) {
    n.fan < |s.faults| && s.faults[n.fan].latched && n.generation == s.faults[n.fan].generation ==>
      n.cause == s.faults[n.fan].cause
  }

  ghost predicate Causes(s: State) {
    && (s.monitor.Telling? ==> CauseKept(s, s.monitor.notice))
    && (forall f :: 0 <= f < |s.slots| && s.slots[f].pending ==> CauseKept(s, s.slots[f].notice))
    && (s.worker.Taken? || s.worker.Holding? || s.worker.Checked? ==> CauseKept(s, s.worker.notice))
  }

  /** The owner of the mutex is an operator who has cleared the monitor but not yet the motor. */
  predicate Clearing(s: State, f: nat) {
    s.mutex.Operator? && s.mutex.t in s.clears && s.clears[s.mutex.t] == MonitorCleared(f)
  }

  predicate OnItsWay(s: State, f: nat, g: nat) { InTransit(s, f, g) || Pending(s, f, g) || InHand(s, f, g) }

  predicate FaultValid(s: State, f: nat)
    requires f < |s.faults| == |s.inhibited|
  {
    && (s.faults[f].latched ==>
          OnItsWay(s, f, s.faults[f].generation) || (s.inhibited[f] && !Clearing(s, f)))
    && (s.faults[f].alarm <==> s.faults[f].latched)
    && (s.faults[f].latched ==> s.faults[f].generation > 0)
    && (s.inhibited[f] ==> s.faults[f].latched || Clearing(s, f))
  }

  /**
   * Every latched fault is on its way or inhibits the motor; a fan is inhibited only
   * while its fault is latched or a CLEAR is at work on it.
   */
  ghost predicate Faults(s: State)
    requires Sized(s)
  {
    forall f :: 0 <= f < |s.faults| ==> FaultValid(s, f)
  }

  /** Bookkeeping: who holds what, and that notices name real fans and true causes. */
  ghost predicate Books(s: State) {
    && Serialized(s) && Notices(s) && Causes(s)
    && (s.worker.Checked? ==> IsCurrent(s, s.worker.notice))
    && (forall f :: f in s.bits ==> f < |s.faults|)
    && (!s.worker.Asleep? ==> forall f :: f in s.worker.todo ==> f < |s.faults|)
  }

  ghost predicate Inv(s: State) { Sized(s) && Books(s) && Faults(s) }

  // ---- every step keeps it ----

  lemma FailsKeepsInv(s: State, f: int, cause: Cause)
    requires Inv(s)
    ensures Inv(Next(s, Fails(f, cause)))
  {
    var s' := Next(s, Fails(f, cause));
    if FanExists(s, f) { assert FaultValid(s, f); }
    forall g | 0 <= g < |s'.faults| ensures FaultValid(s', g) {
      assert FaultValid(s, g);
    }
  }

  lemma RecoversKeepsInv(s: State, f: int)
    requires Inv(s)
    ensures Inv(Next(s, Recovers(f)))
  {
    if FanExists(s, f) { assert FaultValid(s, f); }
    if s.monitor.Sampling? && FanExists(s, f) { RecoveryIsQuiet(s, f); }
  }

  /** Alarm and latch go together under this policy, so a healthy sample changes nothing that matters. */
  lemma RecoveryIsQuiet(s: State, f: nat)
    requires Inv(s) && f < |s.faults|
    ensures Inv(Recover(s, f))
  {
    var s' := Recover(s, f);
    assert FaultValid(s, f);
    if s.worker.Checked? { assert FaultValid(s, s.worker.notice.fan); }
    forall g | 0 <= g < |s'.faults| ensures FaultValid(s', g) {
      assert FaultValid(s, g);
    }
  }

  lemma MonitorKeepsInv(s: State)
    requires Inv(s)
    ensures Inv(MonitorNext(s))
  {
    MonitorKeepsBooks(s);
    forall g | 0 <= g < |s.faults| ensures FaultValid(MonitorNext(s), g) {
      MonitorKeepsFault(s, g);
    }
  }

  lemma MonitorKeepsBooks(s: State)
    requires Sized(s) && Books(s)
    ensures Books(MonitorNext(s))
  {
  }

  lemma MonitorKeepsFault(s: State, g: nat)
    requires Inv(s) && g < |s.faults|
    ensures FaultValid(MonitorNext(s), g)
  {
    assert FaultValid(s, g);
  }

  lemma WorkerKeepsMutex(s: State, ok: bool)
    requires Sized(s) && Serialized(s)
    ensures Serialized(WorkerNext(s, ok))
  {
  }

  lemma WorkerKeepsNotices(s: State, ok: bool)
    requires Sized(s) && Notices(s)
    ensures Notices(WorkerNext(s, ok))
  {
    var s' := WorkerNext(s, ok);
    assert s'.faults == s.faults && s'.monitor == s.monitor;
    forall f | 0 <= f < |s'.slots| && s'.slots[f].pending
      ensures NoticeValid(s', s'.slots[f].notice) && s'.slots[f].notice.fan == f
    {
      assert s'.slots[f] == s.slots[f];
    }
  }

  lemma WorkerKeepsCauses(s: State, ok: bool)
    requires Sized(s) && Causes(s)
    ensures Causes(WorkerNext(s, ok))
  {
  }

  lemma WorkerKeepsBooks(s: State, ok: bool)
    requires Inv(s)
    ensures Books(WorkerNext(s, ok))
  {
    WorkerKeepsMutex(s, ok);
    WorkerKeepsNotices(s, ok);
    WorkerKeepsCauses(s, ok);
  }

  lemma ClearKeepsMutex(s: State, t: TaskId, f: nat)
    requires Sized(s) && Serialized(s) && t in s.clears
    ensures Serialized(ClearNext(s, t, f))
  {
  }

  lemma ClearKeepsNotices(s: State, t: TaskId, f: nat)
    requires Sized(s) && Notices(s) && t in s.clears
    ensures Notices(ClearNext(s, t, f))
  {
  }

  lemma ClearKeepsCauses(s: State, t: TaskId, f: nat)
    requires Sized(s) && Notices(s) && Causes(s) && t in s.clears
    ensures Causes(ClearNext(s, t, f))
  {
  }

  lemma ClearKeepsBooks(s: State, t: TaskId, f: nat)
    requires Inv(s) && t in s.clears
    ensures Books(ClearNext(s, t, f))
  {
    ClearKeepsMutex(s, t, f);
    ClearKeepsNotices(s, t, f);
    ClearKeepsCauses(s, t, f);
  }

  /** Waking up, skipping a fan and taking a slot keep every notice in sight. */
  lemma ScanKeepsFault(s: State, ok: bool, g: nat)
    requires Inv(s) && (s.worker.Asleep? || s.worker.Scanning?) && g < |s.faults|
    ensures FaultValid(WorkerNext(s, ok), g)
  {
    assert FaultValid(s, g);
  }

  /** A notice in hand of a latched fault is current, so it is not let go before the inhibit. */
  lemma ActKeepsFault(s: State, ok: bool, g: nat)
    requires Inv(s) && !s.worker.Asleep? && !s.worker.Scanning? && g < |s.faults|
    ensures FaultValid(WorkerNext(s, ok), g)
  {
    assert FaultValid(s, g);
  }

  lemma WorkerKeepsInv(s: State, ok: bool)
    requires Inv(s)
    ensures Inv(WorkerNext(s, ok))
  {
    WorkerKeepsBooks(s, ok);
    forall g | 0 <= g < |s.faults| ensures FaultValid(WorkerNext(s, ok), g) {
      if s.worker.Asleep? || s.worker.Scanning? { ScanKeepsFault(s, ok, g); } else { ActKeepsFault(s, ok, g); }
    }
  }

  lemma ClearKeepsFault(s: State, t: TaskId, f: nat, g: nat)
    requires Inv(s) && t in s.clears && g < |s.faults|
    ensures FaultValid(ClearNext(s, t, f), g)
  {
    assert FaultValid(s, g);
  }

  lemma ClearKeepsInv(s: State, t: TaskId, f: nat)
    requires Inv(s) && t in s.clears
    ensures Inv(ClearNext(s, t, f))
  {
    ClearKeepsBooks(s, t, f);
    forall g | 0 <= g < |s.faults| ensures FaultValid(ClearNext(s, t, f), g) {
      ClearKeepsFault(s, t, f, g);
    }
  }

  /** Every step keeps the invariant. */
  lemma NextKeepsInv(s: State, step: Step)
    requires Inv(s)
    ensures Inv(Next(s, step))
  {
    match step {
      case Fails(f, cause) => FailsKeepsInv(s, f, cause);
      case Recovers(f) => RecoversKeepsInv(s, f);
      case MonitorStep => MonitorKeepsInv(s);
      case WorkerStep(ok) => WorkerKeepsInv(s, ok);
      case ClearBegin(t) => BeginKeepsInv(s, t);
      case ClearStep(t, f) => if t in s.clears { ClearKeepsInv(s, t, f); }
    }
  }

  lemma BeginKeepsInv(s: State, t: TaskId)
    requires Inv(s)
    ensures Inv(Next(s, ClearBegin(t)))
  {
    forall g | 0 <= g < |s.faults| ensures FaultValid(Next(s, ClearBegin(t)), g) {
      assert FaultValid(s, g);
    }
  }

  function Init(n: nat): State {
    State(seq(n, _ => Fault(false, false, NoFault, 0)),
          seq(n, _ => Slot(false, Notice(0, NoFault, 0))), {}, Sampling, Asleep, Nobody, map[],
          seq(n, _ => false), false)
  }

  lemma InitIsValid(n: nat)
    ensures Inv(Init(n))
  {
  }

  function Run(s: State, steps: seq<Step>): State
    requires Sized(s)
    decreases |steps|
  {
    if steps == [] then s else Run(Next(s, steps[0]), steps[1..])
  }

  lemma {:induction false} RunKeepsInv(s: State, steps: seq<Step>)
    requires Inv(s)
    ensures Inv(Run(s, steps))
    decreases |steps|
  {
    if steps != [] {
      NextKeepsInv(s, steps[0]);
      RunKeepsInv(Next(s, steps[0]), steps[1..]);
    }
  }

  // ---- theorems ----

  /**
   * No latched fault is lost: its notice is being told, pending with a wake-up owed, in
   * the worker's hands, or the fan's motor is inhibited.
   */
  lemma NoFaultIsLost(n: nat, steps: seq<Step>, f: nat)
    requires var s := Run(Init(n), steps); f < |s.faults| && s.faults[f].latched
    ensures var s := Run(Init(n), steps);
            OnItsWay(s, f, s.faults[f].generation) || (f < |s.inhibited| && s.inhibited[f])
  {
    InitIsValid(n);
    RunKeepsInv(Init(n), steps);
    assert FaultValid(Run(Init(n), steps), f);
  }

  /** Whenever the action mutex is free, an inhibited fan has its fault latched. */
  lemma InhibitImpliesLatch(n: nat, steps: seq<Step>, f: nat)
    requires var s := Run(Init(n), steps); s.mutex.Nobody? && f < |s.inhibited| && s.inhibited[f]
    ensures f < |Run(Init(n), steps).faults| && Run(Init(n), steps).faults[f].latched
  {
    InitIsValid(n);
    RunKeepsInv(Init(n), steps);
    assert FaultValid(Run(Init(n), steps), f);
  }

  /** Delayed work never undoes a CLEAR: an inhibit is only ever set for a fault latched now. */
  lemma OnlyCurrentFaultsInhibit(s: State, step: Step, f: nat)
    requires Inv(s) && f < |s.inhibited| && !s.inhibited[f] && Next(s, step).inhibited[f]
    ensures f < |s.faults| && s.faults[f].latched && step.WorkerStep? && s.worker.Checked?
    ensures s.worker.notice.generation == s.faults[f].generation
  {
    assert FaultValid(s, f);
  }
}
