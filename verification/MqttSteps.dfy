/** Each step of the MQTT command plane keeps the invariant of MqttSafety. */
module MqttSteps {
  import opened Prelude
  import opened MqttSession
  import opened MqttSafety

  // ---- the connection side ----

  /** Nobody but the owner of the fence is inside a fenced section. */
  lemma OnlyOwnerHolds(s: Session, d: Dispatcher, c: ClientId)
    requires Fenced(s, d) && Holding(EventOf(s, c))
    ensures s.fence == ByEvent(c) && forall u: ClientId :: u != c ==> !Holding(EventOf(s, u))
  {
  }

  lemma LinkKeepsFence(s: Session, d: Dispatcher, c: ClientId, id: int)
    requires Fenced(s, d) && Committed(s, d)
    ensures Fenced(LinkNext(s, c, id), d) && Committed(LinkNext(s, c, id), d)
  {
    if Holding(EventOf(s, c)) { OnlyOwnerHolds(s, d, c); }
  }

  lemma SubscribeKeepsSubs(subs: Subs, id: int)
    requires SubsValid(subs)
    ensures SubsValid(Registered(subs, id))
  {
    assert multiset(subs.pending + [id]) == multiset(subs.pending) + multiset{id};
  }

  lemma LinkKeepsCount(s: Session, c: ClientId, id: int)
    requires SubsValid(s.subs)
    ensures SubsValid(LinkNext(s, c, id).subs)
  {
    SubscribeKeepsSubs(s.subs, id);
    assert LinkNext(s, c, id).subs in {s.subs, NO_SUBS, Registered(s.subs, id)};
  }

  /** Only a CONNECTED handler subscribes, and nothing is ready while it does. */
  lemma LinkKeepsUnready(s: Session, c: ClientId, id: int)
    requires !s.connected ==> s.subs.pending == [] && !s.ready
    requires s.ready ==> s.subs.pending == [] && !s.subs.failed && s.subs.accepted != multiset{}
    requires EventOf(s, c).Subscribing? ==> s.client == Some(c) && s.connected && !s.ready
    ensures var s' := LinkNext(s, c, id);
            && (!s'.connected ==> s'.subs.pending == [] && !s'.ready)
            && (s'.ready ==> s'.subs == s.subs && s.ready)
            && (EventOf(s', c).Subscribing? ==> s'.client == Some(c) && s'.connected && !s'.ready)
            && (Holding(EventOf(s, c)) || (s'.connected == s.connected && s'.ready == s.ready))
  {
  }

  lemma LinkKeepsSubs(s: Session, d: Dispatcher, c: ClientId, id: int)
    requires Fenced(s, d) && Subscriptions(s)
    ensures Subscriptions(LinkNext(s, c, id))
  {
    var s' := LinkNext(s, c, id);
    LinkKeepsCount(s, c, id);
    LinkKeepsUnready(s, c, id);
    if Holding(EventOf(s, c)) { OnlyOwnerHolds(s, d, c); }
    forall u: ClientId | EventOf(s', u).Subscribing? ensures s'.client == Some(u) && s'.connected && !s'.ready {
      assert u != c ==> EventOf(s, u).Subscribing?;
    }
  }

  lemma LinkKeepsArrivals(s: Session, d: Dispatcher, c: ClientId, id: int)
    requires Fenced(s, d) && Arrivals(s)
    ensures Arrivals(LinkNext(s, c, id))
  {
    var s' := LinkNext(s, c, id);
    if Holding(EventOf(s, c)) { OnlyOwnerHolds(s, d, c); }
    forall u: ClientId ensures ArrivalValid(s', u, EventOf(s', u)) {
      assert ArrivalValid(s, u, EventOf(s, u));
    }
  }

  lemma LinkKeepsSession(s: Session, d: Dispatcher, c: ClientId, id: int)
    requires SessionInv(s, d)
    ensures SessionInv(LinkNext(s, c, id), d)
  {
    LinkKeepsFence(s, d, c, id);
    LinkKeepsSubs(s, d, c, id);
    LinkKeepsArrivals(s, d, c, id);
  }

  lemma EnqueueKeepsFence(s: Session, p: Pipe, c: ClientId, now: nat)
    requires Fenced(s, p.dispatcher) && Committed(s, p.dispatcher)
    ensures Fenced(EnqueueLink(s, p, c, now), p.dispatcher) && Committed(EnqueueLink(s, p, c, now), p.dispatcher)
  {
    if Holding(EventOf(s, c)) { OnlyOwnerHolds(s, p.dispatcher, c); }
  }

  lemma EnqueueKeepsSubs(s: Session, p: Pipe, c: ClientId, now: nat)
    requires Fenced(s, p.dispatcher) && Subscriptions(s)
    ensures Subscriptions(EnqueueLink(s, p, c, now))
  {
    if Holding(EventOf(s, c)) { OnlyOwnerHolds(s, p.dispatcher, c); }
  }

  lemma EnqueueKeepsArrivals(s: Session, p: Pipe, c: ClientId, now: nat)
    requires Fenced(s, p.dispatcher) && Arrivals(s)
    ensures Arrivals(EnqueueLink(s, p, c, now))
  {
    var s' := EnqueueLink(s, p, c, now);
    if Holding(EventOf(s, c)) { OnlyOwnerHolds(s, p.dispatcher, c); }
    forall u: ClientId ensures ArrivalValid(s', u, EventOf(s', u)) {
      assert ArrivalValid(s, u, EventOf(s, u));
    }
  }

  lemma EnqueueKeepsSession(s: Session, p: Pipe, c: ClientId, now: nat)
    requires SessionInv(s, p.dispatcher)
    ensures SessionInv(EnqueueLink(s, p, c, now), p.dispatcher)
  {
    EnqueueKeepsFence(s, p, c, now);
    EnqueueKeepsSubs(s, p, c, now);
    EnqueueKeepsArrivals(s, p, c, now);
  }

  lemma RemovedKeepsCount(ids: seq<int>, i: nat)
    requires i < |ids|
    ensures multiset(ids) == multiset(Removed(ids, i)) + multiset{ids[i]}
  {
    var last := |ids| - 1;
    assert ids == ids[..last] + [ids[last]];
    if i < last {
      assert Removed(ids, i) == ids[..last][i := ids[last]];
      assert multiset(ids[..last][i := ids[last]]) == multiset(ids[..last]) - multiset{ids[i]} + multiset{ids[last]};
    } else {
      assert Removed(ids, i) == ids[..last];
    }
  }

  /** Steps that start no enqueueing and keep the session, or end it with nobody mid-enqueue. */
  lemma ArrivalsFrame(s: Session, s': Session)
    requires Arrivals(s)
    requires forall u: ClientId :: EventOf(s', u) == EventOf(s, u) || Enqueueing(EventOf(s', u)).None?
    requires (s'.generation == s.generation && s'.client == s.client && s'.connected == s.connected && (s.ready ==> s'.ready))
             || (s'.generation > s.generation
                 && forall u: ClientId :: !EventOf(s, u).EnqueueSend? && !EventOf(s, u).EnqueueFull?)
             || (s.client.None? && s'.generation == s.generation && s'.connected == s.connected && s'.ready == s.ready)
    requires (s'.client.Some? ==> s'.client.value in s'.events) && (s'.client.None? ==> !s'.ready)
    ensures Arrivals(s')
  {
    forall u: ClientId ensures ArrivalValid(s', u, EventOf(s', u)) {
      assert ArrivalValid(s, u, EventOf(s, u));
    }
  }

  lemma SubackKeepsSubs(s: Session, c: ClientId, id: int, accept: bool)
    requires SubsValid(s.subs)
    ensures SubsValid(SubackNext(s, c, id, accept).subs)
  {
    var i := IndexOf(s.subs.pending, id, 0);
    if i < |s.subs.pending| { RemovedKeepsCount(s.subs.pending, i); }
  }

  lemma SubackKeepsArrivals(s: Session, c: ClientId, id: int, accept: bool)
    requires Arrivals(s)
    ensures Arrivals(SubackNext(s, c, id, accept))
  {
    var s' := SubackNext(s, c, id, accept);
    assert s'.events == s.events && s'.generation == s.generation && s'.client == s.client;
    forall u: ClientId ensures ArrivalValid(s', u, EventOf(s', u)) {
      assert ArrivalValid(s, u, EventOf(s, u));
    }
  }

  lemma SubackKeepsFence(s: Session, d: Dispatcher, c: ClientId, id: int, accept: bool)
    requires Fenced(s, d) && Committed(s, d)
    ensures Fenced(SubackNext(s, c, id, accept), d) && Committed(SubackNext(s, c, id, accept), d)
  {
    var s' := SubackNext(s, c, id, accept);
    assert forall u: ClientId :: EventOf(s', u) == EventOf(s, u);
  }

  lemma SubackKeepsSession(s: Session, d: Dispatcher, c: ClientId, id: int, accept: bool)
    requires SessionInv(s, d) && EventOf(s, c).Quiet?
    ensures SessionInv(SubackNext(s, c, id, accept), d)
  {
    SubackKeepsSubs(s, c, id, accept);
    SubackKeepsArrivals(s, c, id, accept);
    SubackKeepsFence(s, d, c, id, accept);
    SubackKeepsReady(s, c, id, accept);
  }

  /** A SUBACK can only ever raise readiness, and only by completing the set. */
  lemma SubackKeepsReady(s: Session, c: ClientId, id: int, accept: bool)
    requires Subscriptions(s) && EventOf(s, c).Quiet?
    ensures var s' := SubackNext(s, c, id, accept);
            && (!s'.connected ==> s'.subs.pending == [] && !s'.ready)
            && (s'.ready ==> s'.subs.pending == [] && !s'.subs.failed && s'.subs.accepted != multiset{})
            && (forall u: ClientId :: EventOf(s', u).Subscribing? ==> s'.client == Some(u) && s'.connected && !s'.ready)
  {
    var s' := SubackNext(s, c, id, accept);
    assert forall u: ClientId :: EventOf(s', u) == EventOf(s, u);
    if s' != s && accept { assert id in s'.subs.accepted; }
  }

  lemma DispatchKeepsSession(s: Session, p: Pipe, step: Step)
    requires SessionInv(s, p.dispatcher)
    ensures SessionInv(s.(fence := DispatchFence(s, p, step)), DispatchPipe(s, p, step).dispatcher)
  {
    var s' := s.(fence := DispatchFence(s, p, step));
    assert forall u: ClientId :: EventOf(s', u) == EventOf(s, u);
    ArrivalsFrame(s, s');
  }

  lemma StarterKeepsSession(s: Session, d: Dispatcher)
    requires SessionInv(s, d)
    ensures SessionInv(StarterNext(s), d)
  {
    var s' := StarterNext(s);
    assert forall u: ClientId :: EventOf(s', u) == EventOf(s, u);
    if s.starter.Replacing? { assert forall u: ClientId :: !Holding(EventOf(s, u)); }
    ArrivalsFrame(s, s');
  }

  lemma BeginKeepsArrivals(s: Session, p: Pipe, step: Step)
    requires Arrivals(s)
    requires Starting(step)
    ensures Arrivals(SessionNext(s, p, step))
  {
    var s' := SessionNext(s, p, step);
    assert step.StartDrop? ==> forall u: ClientId :: EventOf(s', u) == EventOf(s, u);
    assert !step.StartDrop? ==> forall u: ClientId :: u != step.client ==> EventOf(s', u) == EventOf(s, u);
    ArrivalsFrame(s, s');
  }

  lemma BeginKeepsSession(s: Session, p: Pipe, step: Step)
    requires SessionInv(s, p.dispatcher)
    requires Starting(step)
    ensures SessionInv(SessionNext(s, p, step), p.dispatcher)
  {
    BeginKeepsArrivals(s, p, step);
    BeginKeepsRest(s, p, step);
  }

  /** A handler begins, a client is created or a replacement is wanted: no flag changes. */
  predicate Starting(step: Step) {
    step.NewClient? || step.Connected? || step.Disconnected? || step.SubscribeDone? || step.StartDrop?
  }

  lemma BeginKeepsFlags(s: Session, p: Pipe, step: Step)
    requires Starting(step)
    ensures var s' := SessionNext(s, p, step);
            && s'.connected == s.connected && s'.ready == s.ready && s'.subs == s.subs && s'.fence == s.fence
            && s'.generation == s.generation && (s'.starter == s.starter || s'.starter.WantReplace?)
            && (s.starter.Replacing? ==> s'.starter == s.starter)
            && (s'.client == s.client || s.client.None?)
            && (forall u: ClientId :: EventOf(s', u) == EventOf(s, u) || (EventOf(s, u).Quiet? && !Holding(EventOf(s', u)))
                                      || (EventOf(s, u).Subscribing? && EventOf(s', u).ConnectGive?))
  {
  }

  lemma BeginKeepsRest(s: Session, p: Pipe, step: Step)
    requires Fenced(s, p.dispatcher) && Subscriptions(s) && Committed(s, p.dispatcher) && Starting(step)
    ensures var s' := SessionNext(s, p, step);
            Fenced(s', p.dispatcher) && Subscriptions(s') && Committed(s', p.dispatcher)
  {
    BeginKeepsFlags(s, p, step);
  }

  lemma AssembleKeepsSession(s: Session, p: Pipe, c: ClientId)
    requires SessionInv(s, p.dispatcher)
    ensures SessionInv(SessionNext(s, p, Assembled(c)), p.dispatcher)
  {
    var s' := SessionNext(s, p, Assembled(c));
    assert forall u: ClientId :: u != c ==> EventOf(s', u) == EventOf(s, u);
    forall u: ClientId ensures ArrivalValid(s', u, EventOf(s', u)) {
      assert ArrivalValid(s, u, EventOf(s, u));
    }
  }

  lemma EventKeepsSession(s: Session, p: Pipe, step: Step)
    requires SessionInv(s, p.dispatcher) && step.EventStep?
    ensures SessionInv(SessionNext(s, p, step), p.dispatcher)
  {
    if LinkStep(s, step) { LinkKeepsSession(s, p.dispatcher, step.client, step.id); }
    else { EnqueueKeepsSession(s, p, step.client, step.now); }
  }

  lemma RestKeepsSession(s: Session, p: Pipe, step: Step)
    requires SessionInv(s, p.dispatcher) && !DispatchStep(step) && !step.EventStep?
    ensures SessionInv(SessionNext(s, p, step), p.dispatcher)
  {
    if step.Subscribed? {
      if EventOf(s, step.client).Quiet? {
        SubackKeepsSession(s, p.dispatcher, step.client, step.id, step.accept);
      }
    } else if step.StarterStep? {
      StarterKeepsSession(s, p.dispatcher);
    } else if step.Assembled? {
      AssembleKeepsSession(s, p, step.client);
    } else {
      BeginKeepsSession(s, p, step);
    }
  }

  lemma OthersKeepDispatcher(s: Session, p: Pipe, step: Step)
    requires !DispatchStep(step)
    ensures PipeNext(s, p, step).dispatcher == p.dispatcher
  {
  }

  lemma SessionKept(s: Session, p: Pipe, step: Step)
    requires SessionInv(s, p.dispatcher)
    ensures SessionInv(SessionNext(s, p, step), PipeNext(s, p, step).dispatcher)
  {
    if DispatchStep(step) {
      DispatchKeepsSession(s, p, step);
    } else {
      OthersKeepDispatcher(s, p, step);
      if step.EventStep? { EventKeepsSession(s, p, step); } else { RestKeepsSession(s, p, step); }
    }
  }

  // ---- the command side ----

  /** A new generation starts with nothing assembled, handed or on its way. */
  lemma StreamsInNewGeneration(
    assembled: map<nat, seq<nat>>, handed: map<nat, seq<nat>>, g: nat, o: seq<Message>, arriving: seq<nat>)
    requires Streams(assembled, handed, g, o, arriving)
    ensures Streams(assembled, handed, g + 1, o, [])
  {
    NoneOf(o, g, g + 1);
    assert IsPrefix(Log(handed, g + 1), Log(assembled, g + 1));
  }

  lemma {:induction false} NoneOf(o: seq<Message>, g: nat, h: nat)
    requires NoneLater(o, g) && h > g
    ensures IdsOf(o, h) == []
  {
    if o != [] {
      assert forall i :: 0 <= i < |o[1..]| ==> o[1..][i] == o[i + 1];
      NoneOf(o[1..], g, h);
    }
  }

  /** Connection steps move no command; only a new generation lets go of the arriving one. */
  predicate SameOrNewer(s: Session, s': Session) {
    && Sending(s') == Sending(s)
    && ((s'.generation == s.generation && Arriving(s') == Arriving(s)
         && (s.connected && s.ready ==> s'.connected && s'.ready))
        || (s'.generation == s.generation + 1 && Arriving(s') == []))
  }

  lemma LinkMovesNothing(s: Session, d: Dispatcher, c: ClientId, id: int)
    requires SessionInv(s, d) && (Connecting(EventOf(s, c)) || Dropping(EventOf(s, c)))
    ensures SameOrNewer(s, LinkNext(s, c, id))
  {
    if c in s.events && Holding(s.events[c]) { assert s.fence == ByEvent(c); }
    if LinkNext(s, c, id).generation != s.generation { LinkRenews(s, d, c, id); }
  }

  /** In a new generation no event task is still enqueueing for it. */
  lemma LinkRenews(s: Session, d: Dispatcher, c: ClientId, id: int)
    requires SessionInv(s, d) && LinkNext(s, c, id).generation != s.generation
    ensures LinkNext(s, c, id).generation == s.generation + 1 && Arriving(LinkNext(s, c, id)) == []
  {
    LinkKeepsArrivals(s, d, c, id);
  }

  lemma StarterMovesNothing(s: Session, d: Dispatcher)
    requires SessionInv(s, d)
    ensures SameOrNewer(s, StarterNext(s))
  {
  }

  lemma SubackMovesNothing(s: Session, c: ClientId, id: int, accept: bool)
    ensures SameOrNewer(s, SubackNext(s, c, id, accept))
  {
    assert SubackNext(s, c, id, accept).events == s.events;
  }

  lemma BeginMovesNothing(s: Session, p: Pipe, step: Step)
    requires Fenced(s, p.dispatcher) && Arrivals(s)
    requires step.Connected? || step.Disconnected? || step.SubscribeDone? || step.StartDrop?
    ensures SameOrNewer(s, SessionNext(s, p, step))
  {
    var s' := SessionNext(s, p, step);
    assert step.StartDrop? ==> s'.events == s.events;
    if !step.StartDrop? { assert forall u: ClientId :: u != step.client ==> EventOf(s', u) == EventOf(s, u); }
  }

  lemma NewClientMovesNothing(s: Session, p: Pipe, c: ClientId)
    requires Fenced(s, p.dispatcher)
    ensures SameOrNewer(s, SessionNext(s, p, NewClient(c)))
  {
    var s' := SessionNext(s, p, NewClient(c));
    assert forall u: ClientId :: EventOf(s', u) == EventOf(s, u);
  }

  lemma LinkKeepsPipe(s: Session, s': Session, p: Pipe)
    requires PipeInv(s, p) && SameOrNewer(s, s')
    ensures PipeInv(s', p)
  {
    assert Outstanding(s', p) == Outstanding(s, p);
    if s'.generation != s.generation {
      StreamsInNewGeneration(p.assembled, p.handed, s.generation, Outstanding(s, p), Arriving(s));
    }
  }

  // ---- enqueueing and dispatching ----

  lemma EnqueueKeepsPipe(s: Session, p: Pipe, c: ClientId, now: nat)
    requires SessionInv(s, p.dispatcher) && PipeInv(s, p) && !Connecting(EventOf(s, c)) && !Dropping(EventOf(s, c))
    ensures PipeInv(EnqueueLink(s, p, c, now), EnqueuePipe(s, p, c, now))
  {
    var e := EventOf(s, c);
    if Holding(e) { OnlyOwnerHolds(s, p.dispatcher, c); }
    if e.EnqueueHeld? {
      HeldKeepsPipe(s, p, c, now);
    } else if e.EnqueueSend? {
      SendKeepsPipe(s, p, c, now);
    } else if e.EnqueueFull? {
      FullKeepsPipe(s, p, c, now);
    } else {
      WaitKeepsPipe(s, p, c, now);
    }
  }

  lemma WaitMovesNothing(s: Session, p: Pipe, c: ClientId, now: nat)
    requires Fenced(s, p.dispatcher) && Arrivals(s)
    requires EventOf(s, c).EnqueueWait? || EventOf(s, c).EnqueueGive? || EventOf(s, c).Quiet?
    ensures SameOrNewer(s, EnqueueLink(s, p, c, now)) && EnqueuePipe(s, p, c, now) == p
  {
    if Holding(EventOf(s, c)) { OnlyOwnerHolds(s, p.dispatcher, c); }
  }

  lemma WaitKeepsPipe(s: Session, p: Pipe, c: ClientId, now: nat)
    requires SessionInv(s, p.dispatcher) && PipeInv(s, p)
    requires EventOf(s, c).EnqueueWait? || EventOf(s, c).EnqueueGive? || EventOf(s, c).Quiet?
    ensures PipeInv(EnqueueLink(s, p, c, now), EnqueuePipe(s, p, c, now))
  {
    WaitMovesNothing(s, p, c, now);
    LinkKeepsPipe(s, EnqueueLink(s, p, c, now), p);
  }

  predicate Rejects(s: Session, p: Pipe, c: ClientId, g: nat) {
    s.client != Some(c) || !Live(s, g) || FirstFree(p.table, 0) == |p.table|
  }

  lemma RejectMovesNothing(s: Session, p: Pipe, c: ClientId, now: nat)
    requires Fenced(s, p.dispatcher) && Arrivals(s) && EventOf(s, c).EnqueueHeld?
    requires Rejects(s, p, c, EventOf(s, c).generation)
    ensures SameOrNewer(s, EnqueueLink(s, p, c, now)) && EnqueuePipe(s, p, c, now) == p
  {
    OnlyOwnerHolds(s, p.dispatcher, c);
    assert ArrivalValid(s, c, EventOf(s, c));
  }

  lemma ReserveMoves(s: Session, p: Pipe, c: ClientId, now: nat)
    requires Fenced(s, p.dispatcher) && EventOf(s, c).EnqueueHeld? && !Rejects(s, p, c, EventOf(s, c).generation)
    ensures var e, s' := EventOf(s, c), EnqueueLink(s, p, c, now);
            var m := NewMessage(p, e.id, e.generation, now);
            && Sending(s) == [] && Sending(s') == [m] && Arriving(s) == [e.id] && Arriving(s') == []
            && s'.generation == s.generation == m.generation && m.id == e.id
            && s'.connected == s.connected && s'.ready == s.ready == s.connected == true
  {
    OnlyOwnerHolds(s, p.dispatcher, c);
  }

  lemma StreamsQueued(
    assembled: map<nat, seq<nat>>, handed: map<nat, seq<nat>>, g: nat, o: seq<Message>, m: Message)
    requires Streams(assembled, handed, g, o, [m.id]) && m.generation == g
    ensures Streams(assembled, handed, g, o + [m], [])
  {
    IdsAppend(o, [m], g);
    assert IdsOf([m], g) == [m.id];
  }

  /** The command leaves the arriving position: it now owns a record, or its session is over. */
  lemma HeldKeepsPipe(s: Session, p: Pipe, c: ClientId, now: nat)
    requires SessionInv(s, p.dispatcher) && PipeInv(s, p) && EventOf(s, c).EnqueueHeld?
    ensures PipeInv(EnqueueLink(s, p, c, now), EnqueuePipe(s, p, c, now))
  {
    if Rejects(s, p, c, EventOf(s, c).generation) {
      RejectMovesNothing(s, p, c, now);
      LinkKeepsPipe(s, EnqueueLink(s, p, c, now), p);
    } else {
      ReserveKeepsPipe(s, p, c, now);
    }
  }

  lemma ReserveKeepsPipe(s: Session, p: Pipe, c: ClientId, now: nat)
    requires Fenced(s, p.dispatcher) && PipeInv(s, p)
    requires EventOf(s, c).EnqueueHeld? && !Rejects(s, p, c, EventOf(s, c).generation)
    ensures PipeInv(EnqueueLink(s, p, c, now), EnqueuePipe(s, p, c, now))
  {
    var e, s', p' := EventOf(s, c), EnqueueLink(s, p, c, now), EnqueuePipe(s, p, c, now);
    var o, m := Outstanding(s, p), NewMessage(p, e.id, e.generation, now);
    ReserveMoves(s, p, c, now);
    assert p' == p.(sequence := m.sequence, table := p.table[m.slot := Record(true, m.sequence, m.at)]);
    assert Outstanding(s', p') == o + [m];
    ReserveKeepsTable(p.table, o, m);
    StreamsQueued(p.assembled, p.handed, s.generation, o, m);
  }

  /** A reserved record guarantees room in the queue. */
  lemma ReservedSlotHasRoom(s: Session, p: Pipe, c: ClientId)
    requires SessionInv(s, p.dispatcher) && PipeInv(s, p) && EventOf(s, c).EnqueueSend?
    ensures |p.queue| < DEPTH
  {
    OnlyOwnerHolds(s, p.dispatcher, c);
    AtMostDepth(p.table, Outstanding(s, p));
    assert |Sending(s)| == 1;
  }

  lemma SendMoves(s: Session, p: Pipe, c: ClientId, now: nat)
    requires Fenced(s, p.dispatcher) && EventOf(s, c).EnqueueSend? && |p.queue| < DEPTH
    ensures var s', p' := EnqueueLink(s, p, c, now), EnqueuePipe(s, p, c, now);
            && Sending(s) == [EventOf(s, c).message] && Sending(s') == [] && p' == p.(queue := p.queue + Sending(s))
            && s'.generation == s.generation && s'.connected == s.connected && s'.ready == s.ready
            && s'.client == s.client && (s.client.Some? && s.client.value != c ==> Arriving(s') == Arriving(s))
            && (s.client == Some(c) ==> Arriving(s') == Arriving(s) == [])
  {
    OnlyOwnerHolds(s, p.dispatcher, c);
  }

  lemma SendKeepsPipe(s: Session, p: Pipe, c: ClientId, now: nat)
    requires SessionInv(s, p.dispatcher) && PipeInv(s, p) && EventOf(s, c).EnqueueSend?
    ensures PipeInv(EnqueueLink(s, p, c, now), EnqueuePipe(s, p, c, now))
  {
    ReservedSlotHasRoom(s, p, c);
    SendMoves(s, p, c, now);
    QueueTakesSending(s, EnqueueLink(s, p, c, now), p);
  }

  /** The command moves from the sender's hands to the end of the queue. */
  lemma QueueTakesSending(s: Session, s': Session, p: Pipe)
    requires PipeInv(s, p) && Sending(s') == [] && s'.generation == s.generation
    requires s'.connected == s.connected && s'.ready == s.ready && Arriving(s') == Arriving(s)
    ensures PipeInv(s', p.(queue := p.queue + Sending(s)))
  {
    assert Outstanding(s', p.(queue := p.queue + Sending(s))) == Outstanding(s, p);
  }

  lemma FullMovesNothing(s: Session, p: Pipe, c: ClientId, now: nat)
    requires Fenced(s, p.dispatcher) && Arrivals(s) && EventOf(s, c).EnqueueFull?
    ensures SameOrNewer(s, EnqueueLink(s, p, c, now)) && EnqueuePipe(s, p, c, now) == p
  {
    OnlyOwnerHolds(s, p.dispatcher, c);
    assert ArrivalValid(s, c, EventOf(s, c));
    if s.client.Some? { assert ArrivalValid(s, s.client.value, EventOf(s, s.client.value)); }
  }

  lemma FullKeepsPipe(s: Session, p: Pipe, c: ClientId, now: nat)
    requires SessionInv(s, p.dispatcher) && PipeInv(s, p) && EventOf(s, c).EnqueueFull?
    ensures PipeInv(EnqueueLink(s, p, c, now), EnqueuePipe(s, p, c, now))
  {
    FullMovesNothing(s, p, c, now);
    LinkKeepsPipe(s, EnqueueLink(s, p, c, now), p);
  }

  lemma StreamsAssembled(
    assembled: map<nat, seq<nat>>, handed: map<nat, seq<nat>>, g: nat, o: seq<Message>, id: nat)
    requires Streams(assembled, handed, g, o, [])
    ensures Streams(Logged(assembled, g, id), handed, g, o, [id])
  {
    var assembled' := Logged(assembled, g, id);
    forall h: nat ensures IsPrefix(Log(handed, h), Log(assembled', h)) {
      assert IsPrefix(Log(handed, h), Log(assembled, h));
    }
  }

  lemma AssembleMoves(s: Session, p: Pipe, c: ClientId)
    requires Fenced(s, p.dispatcher) && Assembles(s, c)
    ensures var s' := SessionNext(s, p, Assembled(c));
            && Sending(s') == Sending(s) && s'.generation == s.generation
            && s'.connected == s.connected && s'.ready == s.ready
            && Arriving(s) == [] && Arriving(s') == [p.nextId]
  {
    var s' := SessionNext(s, p, Assembled(c));
    assert forall u: ClientId :: u != c ==> EventOf(s', u) == EventOf(s, u);
  }

  lemma AssembledKeepsPipe(s: Session, s': Session, p: Pipe)
    requires PipeInv(s, p) && Sending(s') == Sending(s) && s'.generation == s.generation
    requires s'.connected == s.connected && s'.ready == s.ready
    requires Arriving(s) == [] && Arriving(s') == [p.nextId]
    ensures PipeInv(s', p.(nextId := p.nextId + 1, assembled := Logged(p.assembled, s.generation, p.nextId)))
  {
    var p' := p.(nextId := p.nextId + 1, assembled := Logged(p.assembled, s.generation, p.nextId));
    assert Outstanding(s', p') == Outstanding(s, p);
    StreamsAssembled(p.assembled, p.handed, s.generation, Outstanding(s, p), p.nextId);
  }

  lemma AssembleKeepsPipe(s: Session, p: Pipe, c: ClientId)
    requires Fenced(s, p.dispatcher) && PipeInv(s, p)
    ensures PipeInv(SessionNext(s, p, Assembled(c)), PipeNext(s, p, Assembled(c)))
  {
    AssembleActs(s, p, c);
    if Assembles(s, c) {
      AssembleMoves(s, p, c);
      AssembledKeepsPipe(s, SessionNext(s, p, Assembled(c)), p);
    }
  }

  lemma AssembleActs(s: Session, p: Pipe, c: ClientId)
    ensures PipeNext(s, p, Assembled(c)) ==
            if Assembles(s, c) then p.(nextId := p.nextId + 1, assembled := Logged(p.assembled, s.generation, p.nextId))
            else p
    ensures !Assembles(s, c) ==> SessionNext(s, p, Assembled(c)) == s
  {
  }

  /** The first outstanding command of the current generation is the next one assembled. */
  lemma StreamsHanded(
    assembled: map<nat, seq<nat>>, handed: map<nat, seq<nat>>, g: nat, o: seq<Message>, arriving: seq<nat>)
    requires Streams(assembled, handed, g, o, arriving) && o != []
    ensures o[0].generation == g ==> Streams(assembled, Logged(handed, g, o[0].id), g, o[1..], arriving)
    ensures o[0].generation != g ==> Streams(assembled, handed, g, o[1..], arriving)
  {
    var m, handed' := o[0], Logged(handed, g, o[0].id);
    assert NoneLater(o[1..], g);
    if m.generation == g {
      assert IdsOf(o, g) == [m.id] + IdsOf(o[1..], g);
      assert Log(handed', g) == Log(handed, g) + [m.id];
      assert Log(handed', g) + IdsOf(o[1..], g) + arriving == Log(handed, g) + ([m.id] + IdsOf(o[1..], g)) + arriving;
      forall h: nat ensures IsPrefix(Log(handed', h), Log(assembled, h)) {
        assert IsPrefix(Log(handed, h), Log(assembled, h));
      }
    }
  }

  lemma HandOverMoves(s: Session, p: Pipe)
    requires p.dispatcher.Received? && p.dispatcher.message.at > 0
    ensures var m, p', o := p.dispatcher.message, DispatchPipe(s, p, Dispatch), Outstanding(s, p);
            && o != [] && o[0] == m && o[1..] == Outstanding(s, p') && InFlight(p')
            && p'.table == Cleared(p.table, m) && p'.assembled == p.assembled
            && p'.handed == (if Live(s, m.generation) then Logged(p.handed, m.generation, m.id) else p.handed)
  {
    assert Outstanding(s, p)[1..] == Outstanding(s, DispatchPipe(s, p, Dispatch));
  }

  /** The oldest command is handed over, or dropped because its session is over. */
  lemma HandOverKeepsPipe(s: Session, p: Pipe)
    requires PipeInv(s, p) && p.dispatcher.Received?
    ensures PipeInv(s, DispatchPipe(s, p, Dispatch))
  {
    var o := Outstanding(s, p);
    assert o[0] == p.dispatcher.message && Recorded(p.table, o[0]);
    HandOverMoves(s, p);
    ReleaseKeepsTable(p.table, o);
    StreamsHanded(p.assembled, p.handed, s.generation, o, Arriving(s));
  }

  lemma ReceiveMoves(s: Session, p: Pipe)
    requires p.dispatcher.Listening? && p.queue != []
    ensures Outstanding(s, p.(queue := p.queue[1..], dispatcher := Received(p.queue[0]))) == Outstanding(s, p)
  {
    assert p.queue == [p.queue[0]] + p.queue[1..];
  }

  lemma ReceiveKeepsPipe(s: Session, p: Pipe, step: Step)
    requires PipeInv(s, p) && p.dispatcher.Listening?
    ensures PipeInv(s, DispatchPipe(s, p, step))
  {
    if step.Receive? && p.queue != [] { ReceiveMoves(s, p); }
  }

  lemma CallbackKeepsPipe(s: Session, p: Pipe, step: Step)
    requires PipeInv(s, p) && (p.dispatcher.Calling? || p.dispatcher.FenceHeld? || p.dispatcher.Committing?)
    ensures PipeInv(s, DispatchPipe(s, p, step))
  {
    assert Outstanding(s, DispatchPipe(s, p, step)) == Outstanding(s, p);
  }

  lemma DispatcherKeepsPipe(s: Session, p: Pipe, step: Step)
    requires PipeInv(s, p) && DispatchStep(step)
    ensures PipeInv(s, DispatchPipe(s, p, step))
  {
    if p.dispatcher.Listening? {
      ReceiveKeepsPipe(s, p, step);
    } else if p.dispatcher.Received? {
      if step.Dispatch? { HandOverKeepsPipe(s, p); }
    } else {
      CallbackKeepsPipe(s, p, step);
    }
  }

  lemma DispatchKeepsPipe(s: Session, p: Pipe, step: Step)
    requires Fenced(s, p.dispatcher) && PipeInv(s, p) && DispatchStep(step)
    ensures PipeInv(SessionNext(s, p, step), PipeNext(s, p, step))
  {
    DispatcherKeepsPipe(s, p, step);
    DispatchActs(s, p, step);
    LinkKeepsPipe(s, SessionNext(s, p, step), PipeNext(s, p, step));
  }

  lemma DispatchActs(s: Session, p: Pipe, step: Step)
    requires Fenced(s, p.dispatcher) && DispatchStep(step)
    ensures SameOrNewer(s, SessionNext(s, p, step)) && PipeNext(s, p, step) == DispatchPipe(s, p, step)
  {
    FenceMovesNothing(s, p, step);
  }

  lemma FenceMovesNothing(s: Session, p: Pipe, step: Step)
    requires Fenced(s, p.dispatcher)
    ensures SameOrNewer(s, s.(fence := DispatchFence(s, p, step)))
  {
    assert s.(fence := DispatchFence(s, p, step)).events == s.events;
  }

  // ---- the whole command plane ----

  lemma PipeKept(s: Session, p: Pipe, step: Step)
    requires SessionInv(s, p.dispatcher) && PipeInv(s, p)
    ensures PipeInv(SessionNext(s, p, step), PipeNext(s, p, step))
  {
    if DispatchStep(step) {
      DispatchKeepsPipe(s, p, step);
    } else if step.EventStep? {
      EventKeepsPipe(s, p, step);
    } else if step.Assembled? {
      AssembleKeepsPipe(s, p, step.client);
    } else {
      QuietStepKeepsPipe(s, p, step);
    }
  }

  lemma EventKeepsPipe(s: Session, p: Pipe, step: Step)
    requires SessionInv(s, p.dispatcher) && PipeInv(s, p) && step.EventStep?
    ensures PipeInv(SessionNext(s, p, step), PipeNext(s, p, step))
  {
    if LinkStep(s, step) {
      LinkMovesNothing(s, p.dispatcher, step.client, step.id);
      LinkLeavesPipe(s, p, step);
      LinkKeepsPipe(s, LinkNext(s, step.client, step.id), p);
    } else {
      EnqueueKeepsPipe(s, p, step.client, step.now);
      EnqueueActs(s, p, step);
    }
  }

  lemma EnqueueActs(s: Session, p: Pipe, step: Step)
    requires step.EventStep? && !LinkStep(s, step)
    ensures PipeNext(s, p, step) == EnqueuePipe(s, p, step.client, step.now)
    ensures SessionNext(s, p, step) == EnqueueLink(s, p, step.client, step.now)
  {
  }

  lemma LinkLeavesPipe(s: Session, p: Pipe, step: Step)
    requires LinkStep(s, step)
    ensures PipeNext(s, p, step) == p && SessionNext(s, p, step) == LinkNext(s, step.client, step.id)
  {
  }

  lemma QuietStepKeepsPipe(s: Session, p: Pipe, step: Step)
    requires SessionInv(s, p.dispatcher) && PipeInv(s, p)
    requires !DispatchStep(step) && !step.EventStep? && !step.Assembled?
    ensures PipeInv(SessionNext(s, p, step), PipeNext(s, p, step))
  {
    if step.Subscribed? {
      SubackMovesNothing(s, step.client, step.id, step.accept);
    } else if step.StarterStep? {
      StarterMovesNothing(s, p.dispatcher);
    } else if step.NewClient? {
      NewClientMovesNothing(s, p, step.client);
    } else {
      BeginMovesNothing(s, p, step);
    }
    LinkKeepsPipe(s, SessionNext(s, p, step), p);
  }

  /** Every step keeps the whole invariant. */
  lemma NextKeepsInv(s: State, step: Step)
    requires Inv(s)
    ensures Inv(Next(s, step))
  {
    SessionKept(s.session, s.pipe, step);
    PipeKept(s.session, s.pipe, step);
  }
}
