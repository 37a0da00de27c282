/**
 * The single NVS writer task of main/scheduler.c and main/fan_state_store.c with its
 * debounce, its notification bits, and the generation-numbered synchronous save that
 * any number of callers may wait for and abandon. Both sources run the same protocol;
 * `boundary` selects the fan store's extra check at the end of the debounce. The saved
 * data is a vector of cells read one at a time while other tasks change them.
 */
module SaveWriter {
  import opened Prelude

  /** Where the writer goes when no synchronous request is left. */
  datatype After = ToIdle | ToDebounce

  /** gen is the synchronous generation being served, or None for a debounced save. */
  datatype Writer<E> =
    | Idle
    | Debounce
    | Boundary
    | SyncCheck(after: After)
    | Collect(gen: Option<nat>, from: nat, acc: seq<E>, after: After)
    | Commit(gen: Option<nat>, from: nat, blob: seq<E>, after: After)
    | Complete(gen: Option<nat>, from: nat, ok: bool, after: After)
    | GiveToken(after: After)

  /** A task inside save_sync; at is the moment its generation was issued. */
  datatype Caller =
    | Admitted
    | Issued(gen: nat, at: nat)
    | Check(gen: nat, at: nat)
    | Sleep(gen: nat, at: nat)
    | GiveMutex(ok: bool, at: nat)
    | Done(ok: bool, at: nat)

  /**
   * history lists every value the live cells have had; its last element is now.
   * nvs is the committed blob and nvsFrom the moment its snapshot began.
   */
  datatype State<E> = State(
    boundary: bool, history: seq<seq<E>>, asyncBit: bool, syncBit: bool,
    req: nat, done: nat, result: bool, issued: nat, token: bool, mutex: Option<TaskId>,
    writer: Writer<E>, last: seq<E>, editors: set<TaskId>, callers: map<TaskId, Caller>,
    nvs: Option<seq<E>>, nvsFrom: nat)

  datatype Step<E> =
    | Edit(t: TaskId, cells: seq<E>)
    | Notify(t: TaskId)
    | Enter(t: TaskId, admitted: bool)
    | CallerStep(t: TaskId, timeout: bool)
    | Leave(t: TaskId)
    | WriterStep(ok: bool)

  predicate WellFormed<E>(s: State<E>) {
    |s.history| > 0 && forall j :: 0 <= j < |s.history| ==> |s.history[j]| == |s.last|
  }

  function Now<E>(s: State<E>): nat
    requires WellFormed(s)
  {
    |s.history| - 1
  }

  function Live<E>(s: State<E>): seq<E>
    requires WellFormed(s)
  {
    s.history[|s.history| - 1]
  }

  // ---- the writer task ----

  function Home<E>(after: After): Writer<E> { if after.ToIdle? then Idle else Debounce }

  /** A finished snapshot is what the next edit is compared with. */
  function Collected<E>(s: State<E>, gen: Option<nat>, from: nat, acc: seq<E>, after: After): State<E>
    requires WellFormed(s)
  {
    if |acc| < |s.last| then s.(writer := Collect(gen, from, acc + [Live(s)[|acc|]], after))
    else s.(writer := Commit(gen, from, acc, after), last := acc)
  }

  /** The writer between saves: notification bits, debounce and pending requests. */
  function WaitNext<E>(s: State<E>): (r: State<E>)
    requires WellFormed(s)
    ensures r.callers == s.callers && r.history == s.history
    ensures r.last == s.last && r.nvs == s.nvs && r.nvsFrom == s.nvsFrom
  {
    match s.writer
    case Idle =>
      if !s.asyncBit && !s.syncBit then s
      else if s.syncBit then
        s.(asyncBit := false, syncBit := false, writer := SyncCheck(if s.asyncBit then ToDebounce else ToIdle))
      else s.(asyncBit := false, writer := Debounce)
    case Debounce =>
      if s.syncBit then s.(asyncBit := false, syncBit := false, writer := SyncCheck(ToDebounce))
      else if s.asyncBit then s.(asyncBit := false)
      else s.(writer := if s.boundary then Boundary else Collect(None, Now(s), [], ToIdle))
    case Boundary =>
      s.(writer := if s.req != s.done then SyncCheck(ToIdle) else Collect(None, Now(s), [], ToIdle))
    case SyncCheck(after) =>
      s.(writer := if s.req != s.done then Collect(Some(s.req), Now(s), [], after) else Home(after))
    case _ => s
  }

  /** The writer taking, committing and acknowledging a snapshot. */
  function SaveNext<E>(s: State<E>, ok: bool): (r: State<E>)
    requires WellFormed(s)
    ensures r.callers == s.callers && r.history == s.history
    ensures r.nvs == s.nvs || (s.writer.Commit? && r.nvs == Some(s.writer.blob) && r.nvsFrom == s.writer.from)
    ensures r.nvsFrom == s.nvsFrom || (s.writer.Commit? && r.nvsFrom == s.writer.from)
  {
    match s.writer
    case Collect(gen, from, acc, after) => Collected(s, gen, from, acc, after)
    case Commit(gen, from, blob, after) =>
      s.(nvs := if ok then Some(blob) else s.nvs, nvsFrom := if ok then from else s.nvsFrom,
         writer := if gen.Some? then Complete(gen, from, ok, after) else Home(after))
    case Complete(gen, _, saved, after) =>
      if gen.Some? then s.(done := gen.value, result := saved, writer := GiveToken(after)) else s
    case GiveToken(after) => s.(token := true, writer := SyncCheck(after))
    case _ => s
  }

  predicate Waits<E>(w: Writer<E>) { w.Idle? || w.Debounce? || w.Boundary? || w.SyncCheck? }

  function WriterNext<E>(s: State<E>, ok: bool): State<E>
    requires WellFormed(s)
  {
    if Waits(s.writer) then WaitNext(s) else SaveNext(s, ok)
  }

  // ---- synchronous callers ----

  predicate InSync(c: Caller) { c.Issued? || c.Check? || c.Sleep? || c.GiveMutex? }

  /** Admission ends by taking the mutex and issuing the next generation. */
  function Issue<E>(s: State<E>, t: TaskId): State<E>
    requires WellFormed(s)
  {
    s.(mutex := Some(t), req := s.req + 1, issued := Now(s), editors := s.editors - {t},
       callers := s.callers[t := Issued(s.req + 1, Now(s))])
  }

  /** The caller's next position, and what it leaves of the SYNC bit and of the token. */
  function CallerMove<E>(s: State<E>, c: Caller, timeout: bool): (Caller, bool, bool) {
    match c
    case Admitted => (if timeout then Done(false, 0) else c, s.syncBit, s.token)
    case Issued(gen, at) => (Check(gen, at), true, s.token)
    case Check(gen, at) =>
      (if s.done == gen then GiveMutex(s.result, at)
       else if timeout then GiveMutex(false, at) else Sleep(gen, at), s.syncBit, s.token)
    case Sleep(gen, at) =>
      if s.token then (Check(gen, at), s.syncBit, false)
      else (if timeout then GiveMutex(false, at) else c, s.syncBit, s.token)
    case GiveMutex(ok, at) => (Done(ok, at), s.syncBit, s.token)
    case Done(_, _) => (c, s.syncBit, s.token)
  }

  /** A caller that has left the synchronous part gives the mutex back. */
  function Moved<E>(s: State<E>, t: TaskId, c: Caller, sync: bool, token: bool): State<E> {
    s.(callers := s.callers[t := c], syncBit := sync, token := token,
       mutex := if s.mutex == Some(t) && !InSync(c) then None else s.mutex)
  }

  function CallerNext<E>(s: State<E>, t: TaskId, timeout: bool): State<E>
    requires WellFormed(s) && t in s.callers
  {
    if s.callers[t].Admitted? && s.mutex.None? then Issue(s, t) else
    var (c, sync, token) := CallerMove(s, s.callers[t], timeout);
    Moved(s, t, c, sync, token)
  }

  function Next<E>(s: State<E>, step: Step<E>): State<E>
    requires WellFormed(s)
  {
    match step
    case Edit(t, cells) =>
      if |cells| == |s.last| then s.(history := s.history + [cells], editors := s.editors + {t}) else s
    case Notify(t) => s.(asyncBit := true, editors := s.editors - {t})
    case Enter(t, admitted) =>
      if t in s.callers then s
      else s.(callers := s.callers[t := if admitted then Admitted else Done(false, 0)])
    case CallerStep(t, timeout) => if t in s.callers then CallerNext(s, t, timeout) else s
    case Leave(t) => if t in s.callers && s.callers[t].Done? then s.(callers := s.callers - {t}) else s
    case WriterStep(ok) => WriterNext(s, ok)
  }

  // ---- the invariant ----

  /** Each of the first |acc| cells was live at some moment from `from` on. */
  ghost predicate Sampled<E>(history: seq<seq<E>>, from: nat, acc: seq<E>) {
    forall i :: 0 <= i < |acc| ==> HeldSince(history, from, i, acc[i])
  }

  ghost predicate HeldSince<E>(history: seq<seq<E>>, from: nat, i: nat, value: E) {
    exists j :: from <= j < |history| && i < |history[j]| && history[j][i] == value
  }

  /** The snapshot being taken or saved; Some generation only for synchronous requests. */
  predicate Serving<E>(w: Writer<E>) { w.Collect? || w.Commit? || w.Complete? }

  ghost predicate WriterValid<E>(s: State<E>)
    requires WellFormed(s)
  {
    var w := s.writer;
    && (Serving(w) ==>
          && s.nvsFrom <= w.from <= Now(s)
          && (w.gen.Some? ==> s.done < w.gen.value <= s.req && (w.gen.value == s.req ==> s.issued <= w.from)))
    && (w.Collect? ==> |w.acc| <= |s.last| && Sampled(s.history, w.from, w.acc))
    && (w.Commit? ==> w.blob == s.last && Sampled(s.history, w.from, w.blob))
    && (w.Complete? ==> w.gen.Some? && (w.ok ==> s.nvs.Some? && w.from <= s.nvsFrom))
  }

  ghost predicate Stored<E>(s: State<E>)
    requires WellFormed(s)
  {
    && s.done <= s.req && s.issued <= Now(s) && s.nvsFrom <= Now(s)
    && (s.nvs.Some? ==> |s.nvs.value| == |s.last| && Sampled(s.history, s.nvsFrom, s.nvs.value))
    && (s.done == s.req > 0 && s.result ==> s.nvs.Some? && s.issued <= s.nvsFrom)
  }

  predicate CallerValid<E>(s: State<E>, t: TaskId, c: Caller) {
    && (InSync(c) ==> s.mutex == Some(t))
    && (c.Issued? || c.Check? || c.Sleep? ==> c.gen == s.req > 0 && c.at == s.issued)
    && ((c.GiveMutex? || c.Done?) && c.ok ==> s.nvs.Some? && c.at <= s.nvsFrom)
  }

  ghost predicate Callers<E>(s: State<E>) {
    && (forall t :: t in s.callers ==> CallerValid(s, t, s.callers[t]))
    && (s.mutex.Some? ==> s.mutex.value in s.callers && InSync(s.callers[s.mutex.value]))
  }

  /** The writer will look for synchronous requests again before it blocks. */
  predicate WillCheck<E>(w: Writer<E>) {
    w.SyncCheck? || w.GiveToken? || (Serving(w) && w.gen.Some?)
  }

  predicate AboutToNotify<E>(s: State<E>) {
    s.mutex.Some? && s.mutex.value in s.callers && s.callers[s.mutex.value].Issued?
  }

  /** A pending synchronous request always has a wake-up owed. */
  predicate WakeOwed<E>(s: State<E>) {
    s.req != s.done ==> s.syncBit || AboutToNotify(s) || WillCheck(s.writer)
  }

  /** The writer still has to read cell i for the work it has taken on. */
  predicate WillRead<E>(w: Writer<E>, i: nat) {
    match w
    case Idle => false
    case Debounce => true
    case Boundary => true
    case SyncCheck(after) => after.ToDebounce?
    case Collect(_, _, acc, after) => after.ToDebounce? || i >= |acc|
    case Commit(_, _, _, after) => after.ToDebounce?
    case Complete(_, _, _, after) => after.ToDebounce?
    case GiveToken(after) => after.ToDebounce?
  }

  /** The pending synchronous request will have cell i read. */
  predicate SyncWillRead<E>(s: State<E>, i: nat) {
    s.req != s.done &&
    !(Serving(s.writer) && s.writer.gen == Some(s.req) && (s.writer.Collect? ==> i < |s.writer.acc|))
  }

  /** The value of cell i in the newest snapshot that has read it. */
  function Seen<E>(s: State<E>, i: nat): E
    requires i < |s.last|
  {
    if s.writer.Collect? && i < |s.writer.acc| then s.writer.acc[i] else s.last[i]
  }

  /** No edit is dropped: a cell that differs from what was last read will be read again. */
  ghost predicate NoneDropped<E>(s: State<E>)
    requires WellFormed(s)
  {
    forall i :: 0 <= i < |s.last| ==>
      s.editors != {} || s.asyncBit || WillRead(s.writer, i) || SyncWillRead(s, i) || Live(s)[i] == Seen(s, i)
  }

  ghost predicate Inv<E>(s: State<E>) {
    WellFormed(s) && WriterValid(s) && Stored(s) && Callers(s) && WakeOwed(s) && NoneDropped(s)
  }
}
