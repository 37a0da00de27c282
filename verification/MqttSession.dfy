/**
 * main/mqtt_manager.c: connection generations, subscription acknowledgement, the
 * command queue shadowed by its pending table, the dispatcher, and the commit fence
 * command handlers take. Events of one client are serialized by ESP-MQTT; everything
 * else interleaves. A command is represented by its number of assembly.
 */
module MqttSession {
  import opened Prelude

  const DEPTH: nat := 8
  const MAX_SUBSCRIPTIONS: nat := 32

  type ClientId = nat

  datatype Record = Record(occupied: bool, sequence: nat, at: nat)

  datatype Message = Message(id: nat, generation: nat, sequence: nat, slot: nat, at: nat)

  datatype Holder = NoOne | ByDispatcher | ByEvent(client: ClientId) | ByStarter

  /** Where the event task of a client stands. */
  datatype Event =
    | Quiet
    | ConnectWait | ConnectHeld | Subscribing | ConnectGive
    | DropWait | DropHeld
    | EnqueueWait(id: nat, generation: nat)
    | EnqueueHeld(id: nat, generation: nat)
    | EnqueueSend(message: Message)
    | EnqueueFull(id: nat, generation: nat)
    | EnqueueGive

  datatype Dispatcher =
    | Listening
    | Received(message: Message)
    | Calling(message: Message)
    | FenceHeld(message: Message)
    | Committing(message: Message)

  /** What start() does under the commit fence: drop the client it found dead, or failed to start. */
  datatype Starter = Resting | WantReplace | Replacing

  /** Subscription ids of the current connection, their SUBACKs, and calls that failed. */
  datatype Subs = Subs(
    pending: seq<int>, failed: bool,
    registered: multiset<int>, accepted: multiset<int>, rejected: multiset<int>, refused: nat)

  const NO_SUBS := Subs([], false, multiset{}, multiset{}, multiset{}, 0)

  /** The connection side: flags, generation, subscriptions and the commit fence. */
  datatype Session = Session(
    connected: bool, ready: bool, generation: nat, client: Option<ClientId>, subs: Subs,
    fence: Holder, events: map<ClientId, Event>, starter: Starter)

  /**
   * The command side. assembled and handed list, per generation, the commands that
   * reached the enqueue step and those passed to the callback.
   */
  datatype Pipe = Pipe(
    queue: seq<Message>, table: seq<Record>, sequence: nat, inFlight: nat, dispatcher: Dispatcher,
    nextId: nat, assembled: map<nat, seq<nat>>, handed: map<nat, seq<nat>>)

  datatype State = State(session: Session, pipe: Pipe)

  datatype Step =
    | NewClient(client: ClientId)
    | Connected(client: ClientId)
    | Disconnected(client: ClientId)
    | Subscribed(client: ClientId, id: int, accept: bool)
    | Assembled(client: ClientId)
    | EventStep(client: ClientId, id: int, now: nat)  // now + 1 is the (positive) timer value
    | SubscribeDone(client: ClientId)
    | Receive
    | Dispatch
    | FenceTake
    | FenceCheck
    | FenceEnd
    | Return
    | StartDrop
    | StarterStep

  const FREE := Record(false, 0, 0)

  function Log(log: map<nat, seq<nat>>, g: nat): seq<nat> { if g in log then log[g] else [] }

  function Logged(log: map<nat, seq<nat>>, g: nat, id: nat): map<nat, seq<nat>> {
    log[g := Log(log, g) + [id]]
  }

  /** The command session is current: its generation may dispatch and commit. */
  predicate Live(s: Session, generation: nat) { s.connected && s.ready && generation == s.generation }

  // ---- the pending table ----

  function FirstFree(table: seq<Record>, i: nat): (slot: nat)
    requires i <= |table|
    ensures i <= slot <= |table|
    ensures forall j :: i <= j < slot ==> table[j].occupied
    ensures slot < |table| ==> !table[slot].occupied
    decreases |table| - i
  {
    if i == |table| || !table[i].occupied then i else FirstFree(table, i + 1)
  }

  function Cleared(table: seq<Record>, m: Message): seq<Record> {
    if m.slot < |table| && table[m.slot].occupied && table[m.slot].sequence == m.sequence
    then table[m.slot := FREE] else table
  }

  /** The reported enqueue time: zero for nothing, else the earliest of the marks. */
  function Earliest(since: nat, at: nat): nat { if at > 0 && (since == 0 || at < since) then at else since }

  function RecordTime(r: Record): nat { if r.occupied then r.at else 0 }

  function OldestUpTo(inFlight: nat, table: seq<Record>, k: nat): nat
    requires k <= |table|
  {
    if k == 0 then inFlight else Earliest(OldestUpTo(inFlight, table, k - 1), RecordTime(table[k - 1]))
  }

  /** oldest_command_since_us of the health snapshot. */
  function Oldest(p: Pipe): nat { OldestUpTo(p.inFlight, p.table, |p.table|) }

  // ---- subscriptions ----

  /** The pending list without one occurrence of the id, the last element moved into the gap. */
  function Removed(ids: seq<int>, i: nat): seq<int>
    requires i < |ids|
  {
    ids[i := ids[|ids| - 1]][..|ids| - 1]
  }

  function IndexOf(ids: seq<int>, id: int, i: nat): (r: nat)
    requires i <= |ids|
    ensures i <= r <= |ids| && (r < |ids| ==> ids[r] == id) && forall j :: i <= j < r ==> ids[j] != id
    decreases |ids| - i
  {
    if i == |ids| || ids[i] == id then i else IndexOf(ids, id, i + 1)
  }

  /** MQTT_EVENT_SUBSCRIBED, without the commit fence. */
  function SubackNext(s: Session, c: ClientId, id: int, accept: bool): Session {
    if s.client != Some(c) then s else
    var i := IndexOf(s.subs.pending, id, 0);
    if i == |s.subs.pending| then s else
    var left := Removed(s.subs.pending, i);
    if accept then
      s.(subs := s.subs.(pending := left, accepted := s.subs.accepted + multiset{id}),
         ready := s.ready || (left == [] && !s.subs.failed))
    else s.(subs := s.subs.(pending := left, rejected := s.subs.rejected + multiset{id}, failed := true))
  }

  /** One required subscription: refused by the client, or over capacity, fails the setup. */
  function Registered(subs: Subs, id: int): Subs {
    if id < 0 || |subs.pending| >= MAX_SUBSCRIPTIONS
    then subs.(failed := true, refused := subs.refused + 1)
    else subs.(pending := subs.pending + [id], registered := subs.registered + multiset{id})
  }

  // ---- event task ----

  function EventOf(s: Session, c: ClientId): Event { if c in s.events then s.events[c] else Quiet }

  function WithEvent(s: Session, c: ClientId, e: Event): Session { s.(events := s.events[c := e]) }

  /** Take the fence for the event task if it is free. */
  function Entered(s: Session, c: ClientId, e: Event): Session {
    if s.fence.NoOne? then WithEvent(s, c, e).(fence := ByEvent(c)) else s
  }

  function Left(s: Session, c: ClientId): Session { WithEvent(s, c, Quiet).(fence := NoOne) }

  /** A connection has ended or begun: a new generation, nothing ready, nothing pending. */
  function NewSession(s: Session, connected: bool, client: Option<ClientId>): Session {
    s.(connected := connected, ready := false, generation := s.generation + 1, client := client, subs := NO_SUBS)
  }

  predicate Connecting(e: Event) { e.ConnectWait? || e.ConnectHeld? || e.Subscribing? || e.ConnectGive? }

  predicate Dropping(e: Event) { e.DropWait? || e.DropHeld? }

  /** CONNECTED and DISCONNECTED under the fence; subscribe_all runs inside CONNECTED. */
  function LinkNext(s: Session, c: ClientId, id: int): (r: Session)
    ensures forall u: ClientId :: u != c ==> EventOf(r, u) == EventOf(s, u)
    ensures s.events.Keys <= r.events.Keys && r.client == s.client && r.starter == s.starter
    ensures r.ready ==> s.ready
  {
    match EventOf(s, c)
    case ConnectWait => Entered(s, c, ConnectHeld)
    case ConnectHeld =>
      if s.client != Some(c) then WithEvent(s, c, ConnectGive)
      else WithEvent(NewSession(s, true, s.client), c, Subscribing)
    case Subscribing => s.(subs := Registered(s.subs, id))
    case ConnectGive => Left(s, c)
    case DropWait => Entered(s, c, DropHeld)
    case DropHeld => if s.client != Some(c) then Left(s, c) else Left(NewSession(s, false, s.client), c)
    case _ => s
  }

  // ---- enqueueing ----

  /** The connection side of mqtt_manager_enqueue_assembled_message. */
  function EnqueueLink(s: Session, p: Pipe, c: ClientId, now: nat): (r: Session)
    ensures forall u: ClientId :: u != c ==> EventOf(r, u) == EventOf(s, u)
    ensures s.events.Keys <= r.events.Keys && r.client == s.client && r.starter == s.starter
    ensures r.connected == s.connected && r.subs == s.subs && (r.ready ==> s.ready)
  {
    match EventOf(s, c)
    case EnqueueWait(id, g) => Entered(s, c, EnqueueHeld(id, g))
    case EnqueueHeld(id, g) =>
      if s.client != Some(c) || !Live(s, g) then WithEvent(s, c, EnqueueGive)
      else if FirstFree(p.table, 0) == |p.table| then WithEvent(s, c, EnqueueFull(id, g))
      else WithEvent(s, c, EnqueueSend(NewMessage(p, id, g, now)))
    case EnqueueSend(m) =>
      WithEvent(s, c, if |p.queue| < DEPTH then EnqueueGive else EnqueueFull(m.id, m.generation))
    case EnqueueFull(_, _) =>
      WithEvent(s.(ready := false, generation := s.generation + 1), c, EnqueueGive)
    case EnqueueGive => Left(s, c)
    case _ => s
  }

  function NewMessage(p: Pipe, id: nat, g: nat, now: nat): Message {
    Message(id, g, p.sequence + 1, FirstFree(p.table, 0), now + 1)
  }

  /** Its command side: reserve a record, send, or take the reservation back. */
  function EnqueuePipe(s: Session, p: Pipe, c: ClientId, now: nat): Pipe {
    match EventOf(s, c)
    case EnqueueHeld(id, g) =>
      if s.client != Some(c) || !Live(s, g) || FirstFree(p.table, 0) == |p.table| then p else
      var m := NewMessage(p, id, g, now);
      p.(sequence := m.sequence, table := p.table[m.slot := Record(true, m.sequence, m.at)])
    case EnqueueSend(m) =>
      if |p.queue| < DEPTH then p.(queue := p.queue + [m]) else p.(table := Cleared(p.table, m))
    case _ => p
  }

  // ---- the dispatcher and the command handler it calls ----

  function DispatchPipe(s: Session, p: Pipe, step: Step): Pipe {
    match p.dispatcher
    case Listening =>
      if step.Receive? && p.queue != [] then p.(queue := p.queue[1..], dispatcher := Received(p.queue[0])) else p
    case Received(m) =>
      if !step.Dispatch? then p
      else if Live(s, m.generation)
      then p.(table := Cleared(p.table, m), inFlight := m.at, dispatcher := Calling(m),
              handed := Logged(p.handed, m.generation, m.id))
      else p.(table := Cleared(p.table, m), inFlight := 0, dispatcher := Listening)
    case Calling(m) =>
      if step.FenceTake? && s.fence.NoOne? then p.(dispatcher := FenceHeld(m))
      else if step.Return? then p.(inFlight := 0, dispatcher := Listening) else p
    case FenceHeld(m) =>
      if !step.FenceCheck? then p
      else p.(dispatcher := if Live(s, m.generation) then Committing(m) else Calling(m))
    case Committing(m) => if step.FenceEnd? then p.(dispatcher := Calling(m)) else p
  }

  /** commit_begin and commit_end take and give the fence. */
  function DispatchFence(s: Session, p: Pipe, step: Step): Holder {
    match p.dispatcher
    case Calling(_) => if step.FenceTake? && s.fence.NoOne? then ByDispatcher else s.fence
    case FenceHeld(m) => if step.FenceCheck? && !Live(s, m.generation) then NoOne else s.fence
    case Committing(_) => if step.FenceEnd? then NoOne else s.fence
    case _ => s.fence
  }

  // ---- client replacement ----

  function StarterNext(s: Session): Session {
    match s.starter
    case Resting => s
    case WantReplace => if s.fence.NoOne? then s.(fence := ByStarter, starter := Replacing) else s
    case Replacing => NewSession(s, false, None).(fence := NoOne, starter := Resting)
  }

  predicate LinkStep(s: Session, step: Step) {
    step.EventStep? && (Connecting(EventOf(s, step.client)) || Dropping(EventOf(s, step.client)))
  }

  /** What a step does to the connection side. */
  function SessionNext(s: Session, p: Pipe, step: Step): Session {
    match step
    case NewClient(c) =>
      if s.client.None? && c !in s.events then WithEvent(s, c, Quiet).(client := Some(c)) else s
    case Connected(c) => if EventOf(s, c).Quiet? then WithEvent(s, c, ConnectWait) else s
    case Disconnected(c) => if EventOf(s, c).Quiet? then WithEvent(s, c, DropWait) else s
    case Subscribed(c, id, accept) => if EventOf(s, c).Quiet? then SubackNext(s, c, id, accept) else s
    case Assembled(c) =>
      if Assembles(s, c) then WithEvent(s, c, EnqueueWait(p.nextId, s.generation)) else s
    case EventStep(c, id, now) => if LinkStep(s, step) then LinkNext(s, c, id) else EnqueueLink(s, p, c, now)
    case SubscribeDone(c) => if EventOf(s, c).Subscribing? then WithEvent(s, c, ConnectGive) else s
    case StartDrop => if s.starter.Resting? then s.(starter := WantReplace) else s
    case StarterStep => StarterNext(s)
    case _ => s.(fence := DispatchFence(s, p, step))
  }

  /** A DATA event of a ready session has completed a message. */
  predicate Assembles(s: Session, c: ClientId) {
    EventOf(s, c).Quiet? && s.client == Some(c) && s.connected && s.ready
  }

  predicate DispatchStep(step: Step) {
    step.Receive? || step.Dispatch? || step.FenceTake? || step.FenceCheck? || step.FenceEnd? || step.Return?
  }

  /** What a step does to the command side. */
  function PipeNext(s: Session, p: Pipe, step: Step): Pipe {
    if DispatchStep(step) then DispatchPipe(s, p, step)
    else if step.EventStep? then EnqueuePipe(s, p, step.client, step.now)
    else if step.Assembled? && Assembles(s, step.client) then
      p.(nextId := p.nextId + 1, assembled := Logged(p.assembled, s.generation, p.nextId))
    else p
  }

  function Next(s: State, step: Step): State {
    State(SessionNext(s.session, s.pipe, step), PipeNext(s.session, s.pipe, step))
  }
}
