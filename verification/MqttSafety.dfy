/** The command session: ordering, fencing and the pending table, over every interleaving. */
module MqttSafety {
  import opened Prelude
  import opened MqttSession

  // ---- the invariant ----

  predicate Holding(e: Event) {
    e.ConnectHeld? || e.Subscribing? || e.ConnectGive? || e.DropHeld?
    || e.EnqueueHeld? || e.EnqueueSend? || e.EnqueueFull? || e.EnqueueGive?
  }

  /** The fence has the holder it names, and nobody else is inside. */
  ghost predicate Fenced(s: Session, d: Dispatcher) {
    && (forall c: ClientId :: Holding(EventOf(s, c)) ==> s.fence == ByEvent(c))
    && (s.fence.ByEvent? ==> Holding(EventOf(s, s.fence.client)))
    && (s.fence.ByDispatcher? <==> d.FenceHeld? || d.Committing?)
    && (s.fence.ByStarter? <==> s.starter.Replacing?)
  }

  predicate SubsValid(subs: Subs) {
    && subs.registered == multiset(subs.pending) + subs.accepted + subs.rejected
    && (subs.rejected != multiset{} || subs.refused > 0 ==> subs.failed)
  }

  /** Readiness means every registration of this connection was made and acknowledged. */
  ghost predicate Subscriptions(s: Session) {
    && SubsValid(s.subs)
    && (!s.connected ==> s.subs.pending == [] && !s.ready)
    && (s.ready ==> s.subs.pending == [] && !s.subs.failed && s.subs.accepted != multiset{})
    && (forall c: ClientId :: EventOf(s, c).Subscribing? ==> s.client == Some(c) && s.connected && !s.ready)
  }

  /** The generation an event task is enqueueing for. */
  function Enqueueing(e: Event): Option<nat> {
    match e
    case EnqueueWait(_, g) => Some(g)
    case EnqueueHeld(_, g) => Some(g)
    case EnqueueSend(m) => Some(m.generation)
    case EnqueueFull(_, g) => Some(g)
    case _ => None
  }

  predicate ArrivalValid(s: Session, c: ClientId, e: Event) {
    Enqueueing(e).Some? ==>
      && Enqueueing(e).value <= s.generation
      && (Enqueueing(e).value == s.generation ==> s.client == Some(c) && s.connected && s.ready)
      && (e.EnqueueSend? || e.EnqueueFull? ==> Enqueueing(e).value == s.generation)
  }

  /** An assembled command of the current generation comes from the current, ready client. */
  ghost predicate Arrivals(s: Session) {
    && (forall c: ClientId :: ArrivalValid(s, c, EventOf(s, c)))
    && (s.client.Some? ==> s.client.value in s.events) && (s.client.None? ==> !s.ready)
  }

  /** A committing command's session is current until it lets go of the fence. */
  predicate Committed(s: Session, d: Dispatcher) { d.Committing? ==> Live(s, d.message.generation) }

  /** The command whose record is reserved and which is not in the queue yet. */
  function Sending(s: Session): seq<Message> {
    if s.fence.ByEvent? && EventOf(s, s.fence.client).EnqueueSend?
    then [EventOf(s, s.fence.client).message] else []
  }

  /** Commands that own a pending record, oldest first. */
  function Outstanding(s: Session, p: Pipe): seq<Message> {
    (if p.dispatcher.Received? then [p.dispatcher.message] else []) + p.queue + Sending(s)
  }

  predicate Recorded(table: seq<Record>, m: Message) {
    m.slot < |table| && table[m.slot] == Record(true, m.sequence, m.at) && m.at > 0
  }

  /** Outstanding commands and occupied records correspond one to one. */
  ghost predicate Tabled(table: seq<Record>, o: seq<Message>) {
    && |table| == DEPTH
    && (forall i :: 0 <= i < |o| ==> Recorded(table, o[i]))
    && (forall i, j :: 0 <= i < j < |o| ==> o[i].slot != o[j].slot)
    && (forall k :: 0 <= k < |table| && table[k].occupied ==> exists i :: 0 <= i < |o| && o[i].slot == k)
  }

  function IdsOf(o: seq<Message>, g: nat): seq<nat> {
    if o == [] then []
    else (if o[0].generation == g then [o[0].id] else []) + IdsOf(o[1..], g)
  }

  /** The command the current client has assembled but not queued yet. */
  function Arriving(s: Session): seq<nat> {
    if s.client.None? then [] else
    match EventOf(s, s.client.value)
    case EnqueueWait(id, g) => if g == s.generation then [id] else []
    case EnqueueHeld(id, g) => if g == s.generation then [id] else []
    case EnqueueFull(id, g) => if g == s.generation then [id] else []
    case _ => []
  }

  predicate IsPrefix(p: seq<nat>, q: seq<nat>) { |p| <= |q| && q[..|p|] == p }

  predicate NoneLater(o: seq<Message>, g: nat) { forall i :: 0 <= i < |o| ==> o[i].generation <= g }

  /** Nothing assembled in the current generation is missing, duplicated or reordered. */
  ghost predicate Streams(
    assembled: map<nat, seq<nat>>, handed: map<nat, seq<nat>>, g: nat, o: seq<Message>, arriving: seq<nat>)
  {
    && Log(assembled, g) == Log(handed, g) + IdsOf(o, g) + arriving
    && (forall h: nat :: IsPrefix(Log(handed, h), Log(assembled, h)))
    && (forall h: nat :: h > g ==> Log(assembled, h) == [])
    && NoneLater(o, g)
  }

  /** A command of the current generation waits only while its session is up. */
  predicate Belong(s: Session, o: seq<Message>) {
    forall i :: 0 <= i < |o| && o[i].generation == s.generation ==> s.connected && s.ready
  }

  predicate InFlight(p: Pipe) {
    if p.dispatcher.Calling? || p.dispatcher.FenceHeld? || p.dispatcher.Committing?
    then p.inFlight == p.dispatcher.message.at > 0 else p.inFlight == 0
  }

  ghost predicate SessionInv(s: Session, d: Dispatcher) {
    Fenced(s, d) && Subscriptions(s) && Arrivals(s) && Committed(s, d)
  }

  ghost predicate PipeInv(s: Session, p: Pipe) {
    && Tabled(p.table, Outstanding(s, p)) && InFlight(p) && Belong(s, Outstanding(s, p))
    && Streams(p.assembled, p.handed, s.generation, Outstanding(s, p), Arriving(s))
  }

  ghost predicate Inv(s: State) {
    SessionInv(s.session, s.pipe.dispatcher) && PipeInv(s.session, s.pipe)
  }

  // ---- sequences of outstanding commands ----

  lemma {:induction false} IdsAppend(a: seq<Message>, b: seq<Message>, g: nat)
    ensures IdsOf(a + b, g) == IdsOf(a, g) + IdsOf(b, g)
  {
    if a == [] {
      assert a + b == b;
    } else {
      assert (a + b)[0] == a[0] && (a + b)[1..] == a[1..] + b;
      IdsAppend(a[1..], b, g);
      var first := if a[0].generation == g then [a[0].id] else [];
      assert IdsOf(a + b, g) == first + IdsOf(a[1..] + b, g);
      assert first + (IdsOf(a[1..], g) + IdsOf(b, g)) == (first + IdsOf(a[1..], g)) + IdsOf(b, g);
    }
  }

  /** Distinct slots: at most DEPTH commands are outstanding. */
  lemma AtMostDepth(table: seq<Record>, o: seq<Message>)
    requires Tabled(table, o)
    ensures |o| <= DEPTH
    ensures forall k :: 0 <= k < DEPTH && !table[k].occupied ==> |o| < DEPTH
  {
    var slots := set i | 0 <= i < |o| :: o[i].slot as int;
    SlotsAreDistinct(o, |o|);
    Bounded(slots, DEPTH);
    forall k | 0 <= k < DEPTH && !table[k].occupied ensures |o| < DEPTH {
      Pigeonhole(slots, DEPTH, k);
    }
  }

  lemma {:induction false} SlotsAreDistinct(o: seq<Message>, n: nat)
    requires n <= |o| && forall i, j :: 0 <= i < j < |o| ==> o[i].slot != o[j].slot
    ensures |set i | 0 <= i < n :: o[i].slot as int| == n
  {
    if n > 0 {
      SlotsAreDistinct(o, n - 1);
      var before := set i | 0 <= i < n - 1 :: o[i].slot as int;
      assert (set i | 0 <= i < n :: o[i].slot as int) == before + {o[n - 1].slot as int};
    }
  }

  lemma ReserveKeepsTable(table: seq<Record>, o: seq<Message>, m: Message)
    requires Tabled(table, o) && m.slot < DEPTH && !table[m.slot].occupied && m.at > 0
    ensures Tabled(table[m.slot := Record(true, m.sequence, m.at)], o + [m])
  {
    var table', o' := table[m.slot := Record(true, m.sequence, m.at)], o + [m];
    forall i | 0 <= i < |o| ensures o[i].slot != m.slot { assert Recorded(table, o[i]); }
    forall k | 0 <= k < |table'| && table'[k].occupied ensures exists i :: 0 <= i < |o'| && o'[i].slot == k {
      if k == m.slot { assert o'[|o|].slot == k; }
      else { var i :| 0 <= i < |o| && o[i].slot == k; assert o'[i].slot == k; }
    }
  }

  lemma ReleaseKeepsTable(table: seq<Record>, o: seq<Message>)
    requires Tabled(table, o) && o != []
    ensures Tabled(Cleared(table, o[0]), o[1..])
    ensures Cleared(table, o[0]) == table[o[0].slot := FREE]
  {
    assert Recorded(table, o[0]);
    var table', o' := table[o[0].slot := FREE], o[1..];
    forall i | 0 <= i < |o'| ensures Recorded(table', o'[i]) {
      assert Recorded(table, o[i + 1]) && o[0].slot != o[i + 1].slot;
    }
    forall k | 0 <= k < |table'| && table'[k].occupied ensures exists i :: 0 <= i < |o'| && o'[i].slot == k {
      var i :| 0 <= i < |o| && o[i].slot == k;
      assert i > 0 && o'[i - 1].slot == k;
    }
  }
}
