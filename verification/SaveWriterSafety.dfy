/** Every interleaving of the writer, editors and synchronous callers keeps its promises. */
module SaveWriterSafety {
  import opened Prelude
  import opened SaveWriter

  // ---- history only grows ----

  lemma HeldLater<E>(history: seq<seq<E>>, more: seq<E>, from: nat, acc: seq<E>)
    requires Sampled(history, from, acc)
    ensures Sampled(history + [more], from, acc)
  {
    forall i | 0 <= i < |acc| ensures HeldSince(history + [more], from, i, acc[i]) {
      assert HeldSince(history, from, i, acc[i]);
      var j :| from <= j < |history| && i < |history[j]| && history[j][i] == acc[i];
      assert (history + [more])[j][i] == acc[i];
    }
  }

  lemma EditKeepsInv<E>(s: State<E>, t: TaskId, cells: seq<E>)
    requires Inv(s)
    ensures Inv(Next(s, Edit(t, cells)))
  {
    if |cells| != |s.last| { return; }
    var s' := Next(s, Edit(t, cells));
    var w := s.writer;
    if w.Collect? { HeldLater(s.history, cells, w.from, w.acc); }
    if w.Commit? { HeldLater(s.history, cells, w.from, w.blob); }
    if s.nvs.Some? { HeldLater(s.history, cells, s.nvsFrom, s.nvs.value); }
    assert t in s'.editors;
    forall u | u in s'.callers ensures CallerValid(s', u, s'.callers[u]) {
      assert CallerValid(s, u, s.callers[u]);
    }
  }

  lemma NotifyKeepsInv<E>(s: State<E>, t: TaskId)
    requires Inv(s)
    ensures Inv(Next(s, Notify(t)))
  {
    var s' := Next(s, Notify(t));
    forall u | u in s'.callers ensures CallerValid(s', u, s'.callers[u]) {
      assert CallerValid(s, u, s.callers[u]);
    }
  }

  // ---- callers ----

  lemma IssueKeepsInv<E>(s: State<E>, t: TaskId)
    requires Inv(s) && t in s.callers && s.callers[t].Admitted? && s.mutex.None?
    ensures Inv(CallerNext(s, t, false))
  {
    var s' := CallerNext(s, t, false);
    forall u | u in s'.callers ensures CallerValid(s', u, s'.callers[u]) {
      assert CallerValid(s, u, s.callers[u]);
    }
    assert s'.callers[t].Issued?;
    forall i | 0 <= i < |s'.last| ensures SyncWillRead(s', i) {}
  }

  lemma CallerMoveKeepsInv<E>(s: State<E>, t: TaskId, c: Caller, sync: bool, token: bool)
    requires Inv(s) && (s.syncBit ==> sync) && CallerValid(s, t, c)
    requires t in s.callers && s.callers[t].Issued? ==> sync
    requires InSync(c) ==> t in s.callers && InSync(s.callers[t])
    ensures Inv(Moved(s, t, c, sync, token))
  {
    var s' := Moved(s, t, c, sync, token);
    forall u | u in s'.callers ensures CallerValid(s', u, s'.callers[u]) {
      if u != t { assert CallerValid(s, u, s.callers[u]); }
    }
    MovedKeepsCells(s, s');
  }

  lemma MovedKeepsCells<E>(s: State<E>, s': State<E>)
    requires WellFormed(s) && NoneDropped(s) && s'.history == s.history && s'.last == s.last
    requires s'.writer == s.writer && s'.req == s.req && s'.done == s.done
    requires s'.editors == s.editors && s'.asyncBit == s.asyncBit
    ensures NoneDropped(s')
  {
    forall i | 0 <= i < |s'.last|
      ensures s'.editors != {} || s'.asyncBit || WillRead(s'.writer, i) || SyncWillRead(s', i)
              || Live(s')[i] == Seen(s', i)
    {
      assert SyncWillRead(s, i) == SyncWillRead(s', i) && WillRead(s.writer, i) == WillRead(s'.writer, i);
      assert Seen(s, i) == Seen(s', i);
    }
  }

  lemma CallerStaysValid<E>(s: State<E>, t: TaskId, timeout: bool)
    requires WellFormed(s) && Stored(s) && t in s.callers && CallerValid(s, t, s.callers[t])
    ensures var (c, sync, token) := CallerMove(s, s.callers[t], timeout);
            && CallerValid(s, t, c) && (s.syncBit ==> sync)
            && (s.callers[t].Issued? ==> sync) && (InSync(c) ==> InSync(s.callers[t]))
  {
  }

  lemma CallerKeepsInv<E>(s: State<E>, t: TaskId, timeout: bool)
    requires Inv(s) && t in s.callers
    ensures Inv(CallerNext(s, t, timeout))
  {
    assert CallerValid(s, t, s.callers[t]);
    if s.callers[t].Admitted? && s.mutex.None? {
      IssueKeepsInv(s, t);
    } else {
      var (c, sync, token) := CallerMove(s, s.callers[t], timeout);
      CallerStaysValid(s, t, timeout);
      CallerMoveKeepsInv(s, t, c, sync, token);
    }
  }

  lemma EnterKeepsInv<E>(s: State<E>, t: TaskId, admitted: bool)
    requires Inv(s)
    ensures Inv(Next(s, Enter(t, admitted)))
  {
    if t !in s.callers {
      CallerMoveKeepsInv(s, t, if admitted then Admitted else Done(false, 0), s.syncBit, s.token);
      assert s.mutex != Some(t);
    }
  }

  lemma LeaveKeepsCallers<E>(s: State<E>, t: TaskId)
    requires Callers(s) && t in s.callers && s.callers[t].Done?
    ensures Callers(s.(callers := s.callers - {t}))
    ensures AboutToNotify(s) ==> AboutToNotify(s.(callers := s.callers - {t}))
  {
    var s' := s.(callers := s.callers - {t});
    assert CallerValid(s, t, s.callers[t]);
    forall u | u in s'.callers ensures CallerValid(s', u, s'.callers[u]) {
      assert CallerValid(s, u, s.callers[u]);
    }
  }

  lemma CallersFrame<E>(s: State<E>, callers: map<TaskId, Caller>)
    requires Inv(s) && Callers(s.(callers := callers))
    requires AboutToNotify(s) ==> AboutToNotify(s.(callers := callers))
    ensures Inv(s.(callers := callers))
  {
    MovedKeepsCells(s, s.(callers := callers));
  }

  lemma LeaveKeepsInv<E>(s: State<E>, t: TaskId)
    requires Inv(s)
    ensures Inv(Next(s, Leave(t)))
  {
    if t in s.callers && s.callers[t].Done? {
      LeaveKeepsCallers(s, t);
      CallersFrame(s, s.callers - {t});
    }
  }

  // ---- the writer ----

  /** What a writer step must establish; callers only depend on a few fields. */
  lemma WriterFrame<E>(s: State<E>, s': State<E>)
    requires Inv(s) && s'.history == s.history && |s'.last| == |s.last|
    requires s'.callers == s.callers && s'.mutex == s.mutex && s'.req == s.req && s'.issued == s.issued
    requires s.done <= s'.done && s.nvsFrom <= s'.nvsFrom && (s.nvs.Some? ==> s'.nvs.Some?)
    requires WellFormed(s') && WriterValid(s') && Stored(s') && WakeOwed(s') && NoneDropped(s')
    ensures Inv(s')
  {
    forall u | u in s'.callers ensures CallerValid(s', u, s'.callers[u]) {
      assert CallerValid(s, u, s.callers[u]);
    }
  }

  lemma WaitKeepsCells<E>(s: State<E>, ok: bool)
    requires Inv(s) && (s.writer.Idle? || s.writer.Debounce? || s.writer.Boundary?)
    ensures NoneDropped(WriterNext(s, ok))
  {
    var s' := WriterNext(s, ok);
    forall i | 0 <= i < |s'.last|
      ensures s'.editors != {} || s'.asyncBit || WillRead(s'.writer, i) || SyncWillRead(s', i)
              || Live(s')[i] == Seen(s', i)
    {
      assert s.editors != {} || s.asyncBit || WillRead(s.writer, i) || SyncWillRead(s, i)
             || Live(s)[i] == Seen(s, i);
    }
  }

  lemma WaitKeepsInv<E>(s: State<E>, ok: bool)
    requires Inv(s) && (s.writer.Idle? || s.writer.Debounce? || s.writer.Boundary?)
    ensures Inv(WriterNext(s, ok))
  {
    WaitKeepsCells(s, ok);
    WriterFrame(s, WriterNext(s, ok));
  }

  lemma CheckKeepsInv<E>(s: State<E>, ok: bool)
    requires Inv(s) && (s.writer.SyncCheck? || s.writer.GiveToken?)
    ensures Inv(WriterNext(s, ok))
  {
    var s' := WriterNext(s, ok);
    forall i | 0 <= i < |s'.last|
      ensures s'.editors != {} || s'.asyncBit || WillRead(s'.writer, i) || SyncWillRead(s', i)
              || Live(s')[i] == Seen(s', i)
    {
      assert s.editors != {} || s.asyncBit || WillRead(s.writer, i) || SyncWillRead(s, i)
             || Live(s)[i] == Seen(s, i);
    }
    WriterFrame(s, s');
  }

  /** Reading one more cell: its value is live now. */
  lemma ReadKeepsInv<E>(s: State<E>, ok: bool)
    requires Inv(s) && s.writer.Collect? && |s.writer.acc| < |s.last|
    ensures Inv(WriterNext(s, ok))
  {
    var s', w := WriterNext(s, ok), s.writer;
    var k := |w.acc|;
    assert HeldSince(s.history, w.from, k, Live(s)[k]) by { assert s.history[Now(s)][k] == Live(s)[k]; }
    forall i | 0 <= i < |s'.writer.acc| ensures HeldSince(s.history, w.from, i, s'.writer.acc[i]) {
      if i < k { assert HeldSince(s.history, w.from, i, w.acc[i]); }
    }
    forall i | 0 <= i < |s'.last|
      ensures s'.editors != {} || s'.asyncBit || WillRead(s'.writer, i) || SyncWillRead(s', i)
              || Live(s')[i] == Seen(s', i)
    {
      assert i != k ==> WillRead(s.writer, i) == WillRead(s'.writer, i);
      assert i != k ==> SyncWillRead(s, i) == SyncWillRead(s', i);
    }
    WriterFrame(s, s');
  }

  lemma CollectedKeepsInv<E>(s: State<E>, ok: bool)
    requires Inv(s) && s.writer.Collect? && |s.writer.acc| == |s.last|
    ensures Inv(WriterNext(s, ok))
  {
    var s' := WriterNext(s, ok);
    forall i | 0 <= i < |s'.last|
      ensures s'.editors != {} || s'.asyncBit || WillRead(s'.writer, i) || SyncWillRead(s', i)
              || Live(s')[i] == Seen(s', i)
    {
      assert SyncWillRead(s, i) == SyncWillRead(s', i);
    }
    WriterFrame(s, s');
  }

  lemma CommitKeepsInv<E>(s: State<E>, ok: bool)
    requires Inv(s) && (s.writer.Commit? || s.writer.Complete?)
    ensures Inv(WriterNext(s, ok))
  {
    var s' := WriterNext(s, ok);
    forall i | 0 <= i < |s'.last|
      ensures s'.editors != {} || s'.asyncBit || WillRead(s'.writer, i) || SyncWillRead(s', i)
              || Live(s')[i] == Seen(s', i)
    {
      assert WillRead(s.writer, i) == WillRead(s'.writer, i);
    }
    WriterFrame(s, s');
  }

  lemma WriterKeepsInv<E>(s: State<E>, ok: bool)
    requires Inv(s)
    ensures Inv(WriterNext(s, ok))
  {
    if s.writer.SyncCheck? || s.writer.GiveToken? {
      CheckKeepsInv(s, ok);
    } else if s.writer.Collect? {
      if |s.writer.acc| < |s.last| { ReadKeepsInv(s, ok); } else { CollectedKeepsInv(s, ok); }
    } else if s.writer.Commit? || s.writer.Complete? {
      CommitKeepsInv(s, ok);
    } else {
      WaitKeepsInv(s, ok);
    }
  }

  /** Every step keeps the invariant. */
  lemma NextKeepsInv<E>(s: State<E>, step: Step<E>)
    requires Inv(s)
    ensures Inv(Next(s, step))
  {
    match step {
      case Edit(t, cells) => EditKeepsInv(s, t, cells);
      case Notify(t) => NotifyKeepsInv(s, t);
      case Enter(t, admitted) => EnterKeepsInv(s, t, admitted);
      case CallerStep(t, timeout) => if t in s.callers { CallerKeepsInv(s, t, timeout); }
      case Leave(t) => LeaveKeepsInv(s, t);
      case WriterStep(ok) => WriterKeepsInv(s, ok);
    }
  }

  /** The committed snapshot only gets newer. */
  lemma CommitsGetNewer<E>(s: State<E>, step: Step<E>)
    requires WellFormed(s) && WriterValid(s)
    ensures Next(s, step).nvsFrom >= s.nvsFrom && (s.nvs.Some? ==> Next(s, step).nvs.Some?)
  {
    if step.WriterStep? { WriterCommitsNewer(s, step.ok); }
  }

  lemma WriterCommitsNewer<E>(s: State<E>, ok: bool)
    requires WellFormed(s) && WriterValid(s)
    ensures WriterNext(s, ok).nvsFrom >= s.nvsFrom && (s.nvs.Some? ==> WriterNext(s, ok).nvs.Some?)
  {
  }

  /** When the writer starts: nothing requested, nvs holds whatever was loaded at boot. */
  function Init<E>(boundary: bool, cells: seq<E>): State<E> {
    State(boundary, [cells], false, false, 0, 0, false, 0, false, None, Idle, cells, {}, map[], None, 0)
  }

  lemma InitIsValid<E>(boundary: bool, cells: seq<E>)
    ensures Inv(Init(boundary, cells))
  {
  }

  function Run<E>(s: State<E>, steps: seq<Step<E>>): (r: State<E>)
    requires WellFormed(s)
    decreases |steps|
  {
    if steps == [] then s else
    var next := Next(s, steps[0]);
    if WellFormed(next) then Run(next, steps[1..]) else s
  }

  lemma {:induction false} RunKeepsInv<E>(s: State<E>, steps: seq<Step<E>>)
    requires Inv(s)
    ensures Inv(Run(s, steps)) && Run(s, steps).nvsFrom >= s.nvsFrom
    ensures s.nvs.Some? ==> Run(s, steps).nvs.Some?
    decreases |steps|
  {
    if steps != [] {
      NextKeepsInv(s, steps[0]);
      CommitsGetNewer(s, steps[0]);
      RunKeepsInv(Next(s, steps[0]), steps[1..]);
    }
  }

  // ---- theorems ----

  /**
   * ESP_OK from save_sync: a commit succeeded on a snapshot begun after this call
   * issued its generation, each committed cell being a value held since then. It
   * stays so whatever follows, stale tokens and notification bits included.
   */
  lemma AcknowledgedSaveIsCommitted<E>(s: State<E>, t: TaskId, steps: seq<Step<E>>)
    requires Inv(s) && t in s.callers
    requires (s.callers[t].GiveMutex? || s.callers[t].Done?) && s.callers[t].ok
    ensures var r := Run(s, steps);
            && r.nvs.Some? && WellFormed(r) && r.nvsFrom >= s.callers[t].at && |r.nvs.value| == |r.last|
            && forall i :: 0 <= i < |r.nvs.value| ==> HeldSince(r.history, s.callers[t].at, i, r.nvs.value[i])
  {
    assert CallerValid(s, t, s.callers[t]);
    RunKeepsInv(s, steps);
    var r := Run(s, steps);
    forall i | 0 <= i < |r.nvs.value| ensures HeldSince(r.history, s.callers[t].at, i, r.nvs.value[i]) {
      assert HeldSince(r.history, r.nvsFrom, i, r.nvs.value[i]);
      var j :| r.nvsFrom <= j < |r.history| && i < |r.history[j]| && r.history[j][i] == r.nvs.value[i];
      assert s.callers[t].at <= j;
    }
  }

  /** A pending synchronous request is never left to a writer that blocks without a wake-up. */
  lemma PendingSyncIsWoken<E>(s: State<E>)
    requires Inv(s) && s.req != s.done && (s.writer.Idle? || s.writer.Debounce?)
    ensures s.syncBit || AboutToNotify(s)
  {
  }

  /**
   * Whenever the writer is blocked without notification bits and no caller is between
   * its edit and its notification, the last snapshot it took is the live data.
   */
  lemma NoEditIsDropped<E>(s: State<E>)
    requires Inv(s) && s.writer.Idle? && !s.asyncBit && !s.syncBit && s.editors == {} && !AboutToNotify(s)
    ensures s.last == Live(s)
  {
  }

  /**
   * A store with the extra check begins a debounced save only when no synchronous request is
   * pending; a synchronous save is always for the newest request.
   */
  lemma SavesServeTheNewest<E>(s: State<E>, ok: bool)
    requires WellFormed(s) && Waits(s.writer) && WriterNext(s, ok).writer.Collect?
    ensures var w := WriterNext(s, ok).writer;
            && w.from == Now(s) && w.acc == [] && (w.gen.Some? ==> w.gen.value == s.req != s.done)
            && (s.boundary && w.gen.None? && !s.writer.Debounce? ==> s.req == s.done)
            && (s.boundary ==> !s.writer.Debounce?)
  {
  }

  // ---- facts other modules build on ----

  /** The caller has issued its request, and was not told that it failed. */
  predicate Counting(c: Caller) { InSync(c) || (c.Done? && c.ok) }

  /** A caller's request counts from the moment it was issued, which never changes. */
  lemma StepKeepsMoments<E>(s: State<E>, step: Step<E>, u: TaskId)
    requires WellFormed(s) && !step.Edit? && u in Next(s, step).callers && Counting(Next(s, step).callers[u])
    ensures u in s.callers
    ensures Next(s, step).callers[u].at == Now(s)
            || (Counting(s.callers[u]) && s.callers[u].at == Next(s, step).callers[u].at)
  {
    if step.CallerStep? && step.t in s.callers {
      CallerKeepsMoments(s, step.t, step.timeout, u);
    } else if step.WriterStep? {
      WriterKeepsCallers(s, step.ok);
    }
  }

  lemma CallerKeepsMoments<E>(s: State<E>, t: TaskId, timeout: bool, u: TaskId)
    requires WellFormed(s) && t in s.callers && u in CallerNext(s, t, timeout).callers
    requires Counting(CallerNext(s, t, timeout).callers[u])
    ensures u in s.callers
    ensures CallerNext(s, t, timeout).callers[u].at == Now(s)
            || (Counting(s.callers[u]) && s.callers[u].at == CallerNext(s, t, timeout).callers[u].at)
  {
  }

  lemma WriterKeepsCallers<E>(s: State<E>, ok: bool)
    requires WellFormed(s)
    ensures WriterNext(s, ok).callers == s.callers && WriterNext(s, ok).history == s.history
  {
  }

  lemma StepKeepsHistory<E>(s: State<E>, step: Step<E>)
    requires Inv(s)
    ensures WellFormed(Next(s, step)) && |Next(s, step).last| == |s.last|
    ensures !step.Edit? ==> Next(s, step).history == s.history
    ensures step.Edit? ==> Next(s, step).callers == s.callers && Next(s, step).nvs == s.nvs
                           && Next(s, step).nvsFrom == s.nvsFrom
  {
    NextKeepsInv(s, step);
    if step.WriterStep? {
      WriterKeepsCallers(s, step.ok);
      WriterKeepsSize(s, step.ok);
    }
  }

  lemma WriterKeepsSize<E>(s: State<E>, ok: bool)
    requires WellFormed(s) && WriterValid(s)
    ensures |WriterNext(s, ok).last| == |s.last|
  {
  }

  /** Calling in or leaving touches only the caller's own entry. */
  lemma EnterAndLeave<E>(s: State<E>, t: TaskId, admitted: bool)
    requires WellFormed(s)
    ensures Next(s, Enter(t, admitted)).nvs == s.nvs && Next(s, Enter(t, admitted)).nvsFrom == s.nvsFrom
    ensures Next(s, Leave(t)).nvs == s.nvs && Next(s, Leave(t)).nvsFrom == s.nvsFrom
    ensures t in s.callers && s.callers[t].Done? ==> Next(s, Leave(t)).callers == s.callers - {t}
    ensures t !in s.callers ==>
              Next(s, Enter(t, admitted)).callers == s.callers[t := if admitted then Admitted else Done(false, 0)]
  {
  }
}
