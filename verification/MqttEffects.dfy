/**
 * What the command plane gets done: a connection comes up, a command of the live session
 * is queued, handed over and may commit, and exactly the others are turned away.
 */
module MqttEffects {
  import opened Prelude
  import opened MqttSession
  import opened MqttSafety
  import opened MqttSteps
  import opened MqttTheorems

  lemma {:induction false} RunAppend(s: State, a: seq<Step>, b: seq<Step>)
    ensures Run(s, a + b) == Run(Run(s, a), b)
    decreases |a|
  {
    if a == [] {
      assert a + b == b;
    } else {
      assert (a + b)[0] == a[0] && (a + b)[1..] == a[1..] + b;
      RunAppend(Next(s, a[0]), a[1..], b);
    }
  }

  /** A trace of single steps is a run. */
  lemma {:induction false} RunsReach(s: State, steps: seq<Step>, trace: seq<State>)
    requires |trace| == |steps| + 1 && trace[0] == s
    requires forall i :: 0 <= i < |steps| ==> trace[i + 1] == Next(trace[i], steps[i])
    ensures Run(s, steps) == trace[|steps|]
    decreases |steps|
  {
    if steps != [] { RunsReach(trace[1], steps[1..], trace[1..]); }
  }

  // ---- the dispatcher ----

  /** Commands leave the queue in order. */
  lemma ReceiveTakesOldest(s: State)
    requires s.pipe.dispatcher.Listening?
    ensures var s' := Next(s, Receive);
            && s'.session == s.session && s'.pipe.table == s.pipe.table && s'.pipe.handed == s.pipe.handed
            && (s.pipe.queue == [] ==> s' == s)
            && (s.pipe.queue != [] ==> [s'.pipe.dispatcher.message] + s'.pipe.queue == s.pipe.queue
                                       && s'.pipe.dispatcher.Received?)
  {
  }

  /**
   * A received command is handed to the callback if and only if its session is the live
   * one: connected, ready and of the command's own generation. Its record is given back
   * either way.
   */
  lemma DispatchIsExact(s: State)
    requires Inv(s) && s.pipe.dispatcher.Received?
    ensures var m, s' := s.pipe.dispatcher.message, Next(s, Dispatch);
            var live := s.session.connected && s.session.ready && m.generation == s.session.generation;
            && s'.session == s.session && s'.pipe.queue == s.pipe.queue
            && m.slot < |s'.pipe.table| && !s'.pipe.table[m.slot].occupied
            && (forall k :: 0 <= k < |s.pipe.table| && k != m.slot ==>
                  k < |s'.pipe.table| && s'.pipe.table[k] == s.pipe.table[k])
            && (live ==> s'.pipe.dispatcher == Calling(m) && s'.pipe.inFlight == m.at
                         && Log(s'.pipe.handed, m.generation) == Log(s.pipe.handed, m.generation) + [m.id])
            && (!live ==> s'.pipe.dispatcher.Listening? && s'.pipe.inFlight == 0 && s'.pipe.handed == s.pipe.handed)
  {
    assert Outstanding(s.session, s.pipe)[0] == s.pipe.dispatcher.message;
    assert Recorded(s.pipe.table, s.pipe.dispatcher.message);
    RecordedIsDispatched(s);
  }

  lemma RecordedIsDispatched(s: State)
    requires s.pipe.dispatcher.Received? && Recorded(s.pipe.table, s.pipe.dispatcher.message)
    ensures var m, s' := s.pipe.dispatcher.message, Next(s, Dispatch);
            && s'.session == s.session && s'.pipe.queue == s.pipe.queue
            && s'.pipe.table == s.pipe.table[m.slot := FREE]
            && (if s.session.connected && s.session.ready && m.generation == s.session.generation
                then s'.pipe.dispatcher == Calling(m) && s'.pipe.inFlight == m.at
                     && s'.pipe.handed == Logged(s.pipe.handed, m.generation, m.id)
                else s'.pipe.dispatcher.Listening? && s'.pipe.inFlight == 0 && s'.pipe.handed == s.pipe.handed)
  {
  }

  /**
   * A command asking for the commit fence while it is free begins its commit if and only if
   * its session is the live one, and otherwise leaves the fence free; ending the commit
   * frees it. While somebody else is inside it waits.
   */
  lemma CommitIsExact(s: State)
    requires s.pipe.dispatcher.Calling?
    ensures var m, s' := s.pipe.dispatcher.message, Next(Next(s, FenceTake), FenceCheck);
            if !s.session.fence.NoOne? then s' == s
            else if s.session.connected && s.session.ready && m.generation == s.session.generation then
              && s' == State(s.session.(fence := ByDispatcher), s.pipe.(dispatcher := Committing(m)))
              && Next(s', FenceEnd) == s
            else s' == s
  {
  }

  /** The callback's return ends the command. */
  lemma ReturnEndsCommand(s: State)
    requires s.pipe.dispatcher.Calling?
    ensures Next(s, Return) == s.(pipe := s.pipe.(inFlight := 0, dispatcher := Listening))
  {
  }

  // ---- enqueueing ----

  /** Some record is free exactly while fewer commands than records are outstanding. */
  lemma RoomIffFewer(table: seq<Record>, o: seq<Message>)
    requires Tabled(table, o)
    ensures FirstFree(table, 0) < DEPTH <==> |o| < DEPTH
  {
    AtMostDepth(table, o);
    var free := FirstFree(table, 0);
    if free == DEPTH {
      var slots := set i | 0 <= i < |o| :: o[i].slot as int;
      SlotsAreDistinct(o, |o|);
      forall k | 0 <= k < DEPTH ensures k in slots {
        assert table[k].occupied;
      }
      CoverCounts(slots, DEPTH);
    }
  }

  lemma {:induction false} CoverCounts(slots: set<int>, n: nat)
    requires forall k :: 0 <= k < n ==> k in slots
    ensures n <= |slots|
  {
    if n > 0 { CoverCounts(slots - {n - 1}, n - 1); }
  }

  predicate Arrived(s: State, c: ClientId, id: nat, g: nat) {
    EventOf(s.session, c) == EnqueueHeld(id, g) && s.session.fence == ByEvent(c)
  }

  /**
   * The enqueue section of an assembled command. Of a session that is not live any more it
   * is dropped and nothing else happens; of the live one it reserves a record under a new
   * sequence number, with the time, unless DEPTH commands are outstanding: only then does
   * the queue overflow.
   */
  lemma EnqueueIsExact(s: State, c: ClientId, id: nat, g: nat, now: nat)
    requires Inv(s) && Arrived(s, c, id, g)
    ensures var s' := Next(s, EventStep(c, 0, now));
            if s.session.client != Some(c) || !Live(s.session, g) then
              EventOf(s'.session, c).EnqueueGive? && s'.pipe == s.pipe && s'.session == s.session.(events := s'.session.events)
            else if |Outstanding(s.session, s.pipe)| >= DEPTH then
              EventOf(s'.session, c) == EnqueueFull(id, g) && s'.pipe == s.pipe
            else
              && EventOf(s'.session, c).EnqueueSend?
              && var m := EventOf(s'.session, c).message;
                 && m.id == id && m.generation == g && m.sequence == s.pipe.sequence + 1 && m.at == now + 1
                 && Recorded(s'.pipe.table, m) && !s.pipe.table[m.slot].occupied
                 && s'.pipe.queue == s.pipe.queue && s'.pipe.sequence == m.sequence
  {
    RoomIffFewer(s.pipe.table, Outstanding(s.session, s.pipe));
    EnqueueDecides(s, c, id, g, now);
  }

  lemma EnqueueDecides(s: State, c: ClientId, id: nat, g: nat, now: nat)
    requires Arrived(s, c, id, g) && |s.pipe.table| == DEPTH
    ensures var s', free := Next(s, EventStep(c, 0, now)), FirstFree(s.pipe.table, 0);
            if s.session.client != Some(c) || !Live(s.session, g) then
              EventOf(s'.session, c).EnqueueGive? && s'.pipe == s.pipe && s'.session == s.session.(events := s'.session.events)
            else if free == DEPTH then
              EventOf(s'.session, c) == EnqueueFull(id, g) && s'.pipe == s.pipe
            else
              && EventOf(s'.session, c) == EnqueueSend(Message(id, g, s.pipe.sequence + 1, free, now + 1))
              && s'.pipe == s.pipe.(sequence := s.pipe.sequence + 1,
                                    table := s.pipe.table[free := Record(true, s.pipe.sequence + 1, now + 1)])
  {
  }

  /** A command with a record goes to the end of the queue: the send cannot fail. */
  lemma SendIsExact(s: State, c: ClientId, now: nat)
    requires Inv(s) && EventOf(s.session, c).EnqueueSend?
    ensures var s' := Next(s, EventStep(c, 0, now));
            && s'.pipe == s.pipe.(queue := s.pipe.queue + [EventOf(s.session, c).message])
            && EventOf(s'.session, c).EnqueueGive? && s'.session == s.session.(events := s'.session.events)
  {
    ReservedSlotHasRoom(s.session, s.pipe, c);
  }

  // ---- connections ----

  /** CONNECTED of the current client: a new generation, nothing ready and nothing pending. */
  lemma ConnectIsExact(s: State, c: ClientId, id: int, now: nat)
    requires EventOf(s.session, c).ConnectHeld?
    ensures var s' := Next(s, EventStep(c, id, now));
            && s'.pipe == s.pipe && s'.session.client == s.session.client && s'.session.fence == s.session.fence
            && (s.session.client == Some(c) ==>
                  s'.session.connected && !s'.session.ready && s'.session.subs == NO_SUBS
                  && s'.session.generation == s.session.generation + 1 && EventOf(s'.session, c).Subscribing?)
            && (s.session.client != Some(c) ==>
                  EventOf(s'.session, c).ConnectGive? && s'.session == s.session.(events := s'.session.events))
  {
  }

  /** DISCONNECTED of the current client ends the session and its generation. */
  lemma DropIsExact(s: State, c: ClientId, id: int, now: nat)
    requires EventOf(s.session, c).DropHeld?
    ensures var s' := Next(s, EventStep(c, id, now));
            && s'.pipe == s.pipe && s'.session.client == s.session.client && s'.session.fence.NoOne?
            && EventOf(s'.session, c).Quiet?
            && (s.session.client == Some(c) ==>
                  !s'.session.connected && !s'.session.ready && s'.session.subs == NO_SUBS
                  && s'.session.generation == s.session.generation + 1)
            && (s.session.client != Some(c) ==>
                  s'.session == s.session.(events := s'.session.events, fence := NoOne))
  {
  }

  /** Replacing a dead client ends its session, and only under the fence. */
  lemma ReplaceIsExact(s: State)
    requires s.session.starter.Replacing?
    ensures var s' := Next(s, StarterStep);
            && s'.pipe == s.pipe && s'.session.client.None? && !s'.session.connected && !s'.session.ready
            && s'.session.generation == s.session.generation + 1 && s'.session.subs == NO_SUBS
            && s'.session.fence.NoOne? && s'.session.starter.Resting? && s'.session.events == s.session.events
  {
  }

  /**
   * A SUBACK counts only for a pending id of the current client. An accepting one makes the
   * session ready exactly when it is the last and nothing failed; a refusing one marks the
   * setup as failed.
   */
  lemma SubackIsExact(s: State, c: ClientId, id: int, accept: bool)
    requires EventOf(s.session, c).Quiet?
    ensures var s' := Next(s, Subscribed(c, id, accept));
            var counts := s.session.client == Some(c) && id in s.session.subs.pending;
            && s'.pipe == s.pipe && s'.session == s.session.(subs := s'.session.subs, ready := s'.session.ready)
            && (!counts ==> s' == s)
            && (counts ==> multiset(s.session.subs.pending) == multiset(s'.session.subs.pending) + multiset{id})
            && s'.session.subs.failed == (s.session.subs.failed || (counts && !accept))
            && s'.session.ready ==
                 (s.session.ready || (counts && accept && |s.session.subs.pending| == 1 && !s.session.subs.failed))
  {
    var i := IndexOf(s.session.subs.pending, id, 0);
    if i < |s.session.subs.pending| { RemovedKeepsCount(s.session.subs.pending, i); }
  }

  function Registrations(c: ClientId, ids: seq<int>): seq<Step> {
    seq(|ids|, i requires 0 <= i < |ids| => EventStep(c, ids[i], 0))
  }

  function Subacks(c: ClientId, ids: seq<int>): seq<Step> {
    seq(|ids|, i requires 0 <= i < |ids| => Subscribed(c, ids[i], true))
  }

  lemma {:induction false} RegistersAll(s: State, c: ClientId, ids: seq<int>)
    requires EventOf(s.session, c).Subscribing? && |s.session.subs.pending| + |ids| <= MAX_SUBSCRIPTIONS
    requires forall i :: 0 <= i < |ids| ==> ids[i] >= 0
    ensures var s' := Run(s, Registrations(c, ids));
            && s'.pipe == s.pipe && s'.session == s.session.(subs := s'.session.subs)
            && s'.session.subs.pending == s.session.subs.pending + ids
            && s'.session.subs.failed == s.session.subs.failed
    decreases |ids|
  {
    if ids != [] {
      assert Registrations(c, ids)[1..] == Registrations(c, ids[1..]);
      var s1 := Next(s, EventStep(c, ids[0], 0));
      assert s1.session == s.session.(subs := Registered(s.session.subs, ids[0]));
      RegistersAll(s1, c, ids[1..]);
      assert s.session.subs.pending + [ids[0]] + ids[1..] == s.session.subs.pending + ids;
    }
  }

  lemma Cancel(a: multiset<int>, b: multiset<int>, x: int)
    requires a + multiset{x} == multiset{x} + b
    ensures a == b
  {
    assert a == (a + multiset{x}) - multiset{x} && b == (multiset{x} + b) - multiset{x};
  }

  lemma {:induction false} AcksRaise(s: State, c: ClientId, acks: seq<int>)
    requires s.session.client == Some(c) && EventOf(s.session, c).Quiet? && !s.session.subs.failed && acks != []
    requires multiset(s.session.subs.pending) == multiset(acks)
    ensures var s' := Run(s, Subacks(c, acks));
            && s'.session == s.session.(subs := s'.session.subs, ready := true) && s'.pipe == s.pipe
            && s'.session.subs.pending == []
    decreases |acks|
  {
    assert Subacks(c, acks)[1..] == Subacks(c, acks[1..]);
    assert acks[0] in multiset(acks) && acks[0] in multiset(s.session.subs.pending);
    SubackIsExact(s, c, acks[0], true);
    var s1 := Next(s, Subscribed(c, acks[0], true));
    assert acks == [acks[0]] + acks[1..];
    Cancel(multiset(s1.session.subs.pending), multiset(acks[1..]), acks[0]);
    assert |multiset(s.session.subs.pending)| == |multiset(acks)|;
    if acks[1..] != [] {
      AcksRaise(s1, c, acks[1..]);
    } else {
      assert |s1.session.subs.pending| == |multiset(s1.session.subs.pending)|;
      assert Run(s1, Subacks(c, [])) == s1;
    }
  }

  /** From CONNECTED to the subscriptions. */
  lemma Connects3(s: State, c: ClientId)
    requires s.session.client == Some(c) && EventOf(s.session, c).Quiet? && s.session.fence.NoOne?
    ensures var s' := Run(s, [Connected(c), EventStep(c, 0, 0), EventStep(c, 0, 0)]);
            && s'.pipe == s.pipe && EventOf(s'.session, c).Subscribing? && s'.session.subs == NO_SUBS
            && s'.session.connected && s'.session.generation == s.session.generation + 1
            && s'.session.client == Some(c) && s'.session.fence == ByEvent(c)
  {
    var s1 := Next(s, Connected(c));
    var s2 := Next(s1, EventStep(c, 0, 0));
    assert EventOf(s2.session, c).ConnectHeld? && s2.session.fence == ByEvent(c);
    var s3 := Next(s2, EventStep(c, 0, 0));
    RunsReach(s, [Connected(c), EventStep(c, 0, 0), EventStep(c, 0, 0)], [s, s1, s2, s3]);
  }

  lemma SubscribingEnds(s: State, c: ClientId)
    requires s.session.client == Some(c) && EventOf(s.session, c).Subscribing?
    ensures var s' := Run(s, [SubscribeDone(c), EventStep(c, 0, 0)]);
            && s'.pipe == s.pipe && EventOf(s'.session, c).Quiet? && s'.session.fence.NoOne?
            && s'.session == s.session.(events := s'.session.events, fence := NoOne)
  {
    var s1 := Next(s, SubscribeDone(c));
    RunsReach(s, [SubscribeDone(c), EventStep(c, 0, 0)], [s, s1, Next(s1, EventStep(c, 0, 0))]);
  }

  /**
   * A connection comes up: whatever its subscriptions are, if the client takes all of them
   * and the broker accepts each, in any order, the session is ready in a new generation.
   */
  lemma ConnectionComesUp(s: State, c: ClientId, ids: seq<int>, acks: seq<int>) returns (steps: seq<Step>)
    requires s.session.client == Some(c) && EventOf(s.session, c).Quiet? && s.session.fence.NoOne?
    requires 0 < |ids| <= MAX_SUBSCRIPTIONS && forall i :: 0 <= i < |ids| ==> ids[i] >= 0
    requires multiset(acks) == multiset(ids)
    ensures steps == [Connected(c), EventStep(c, 0, 0), EventStep(c, 0, 0)] + (Registrations(c, ids)
                     + ([SubscribeDone(c), EventStep(c, 0, 0)] + Subacks(c, acks)))
    ensures var s' := Run(s, steps);
            && s'.session.ready && s'.session.connected && s'.session.generation == s.session.generation + 1
            && s'.session.client == Some(c) && EventOf(s'.session, c).Quiet? && s'.session.fence.NoOne?
            && s'.pipe == s.pipe
  {
    var open, close := [Connected(c), EventStep(c, 0, 0), EventStep(c, 0, 0)], [SubscribeDone(c), EventStep(c, 0, 0)];
    Connects3(s, c);
    var s1 := Run(s, open);
    RegistersAll(s1, c, ids);
    var s2 := Run(s1, Registrations(c, ids));
    SubscribingEnds(s2, c);
    var s3 := Run(s2, close);
    assert [] + ids == ids && |multiset(acks)| == |acks|;
    assert |multiset(ids)| == |ids|;
    AcksRaise(s3, c, acks);
    steps := open + (Registrations(c, ids) + (close + Subacks(c, acks)));
    RunAppend(s2, close, Subacks(c, acks));
    RunAppend(s1, Registrations(c, ids), close + Subacks(c, acks));
    RunAppend(s, open, Registrations(c, ids) + (close + Subacks(c, acks)));
  }

  // ---- one command, from its DATA event to its commit ----

  /** Nobody is in the way: the session is up, the queue is empty and the dispatcher waits. */
  predicate Calm(s: State, c: ClientId) {
    && s.session.client == Some(c) && s.session.ready && s.session.connected && EventOf(s.session, c).Quiet?
    && s.session.fence.NoOne? && s.pipe.queue == [] && s.pipe.dispatcher.Listening?
  }

  /** Its DATA event takes the commit fence for it. */
  lemma CommandArrives(s: State, c: ClientId, now: nat)
    requires Calm(s, c)
    ensures var s' := Run(s, [Assembled(c), EventStep(c, 0, now)]);
            && Arrived(s', c, s.pipe.nextId, s.session.generation)
            && s'.session == s.session.(events := s'.session.events, fence := ByEvent(c))
            && s'.pipe.queue == [] && s'.pipe.dispatcher.Listening? && s'.pipe.handed == s.pipe.handed
  {
    var s1 := AssembledWaits(s, c);
    var s2 := WaitingArrives(s1, c, now);
    RunsReach(s, [Assembled(c), EventStep(c, 0, now)], [s, s1, s2]);
  }

  lemma AssembledWaits(s: State, c: ClientId) returns (s': State)
    requires Calm(s, c)
    ensures s' == Next(s, Assembled(c))
    ensures EventOf(s'.session, c) == EnqueueWait(s.pipe.nextId, s.session.generation)
    ensures s'.session == s.session.(events := s'.session.events)
    ensures s'.pipe == s.pipe.(nextId := s'.pipe.nextId, assembled := s'.pipe.assembled)
  {
    s' := Next(s, Assembled(c));
  }

  lemma WaitingArrives(s: State, c: ClientId, now: nat) returns (s': State)
    requires EventOf(s.session, c).EnqueueWait? && s.session.fence.NoOne?
    ensures s' == Next(s, EventStep(c, 0, now))
    ensures Arrived(s', c, EventOf(s.session, c).id, EventOf(s.session, c).generation) && s'.pipe == s.pipe
    ensures s'.session == s.session.(events := s'.session.events, fence := ByEvent(c))
  {
    s' := Next(s, EventStep(c, 0, now));
  }

  lemma GivingLeaves(s: State, c: ClientId, now: nat) returns (s': State)
    requires EventOf(s.session, c).EnqueueGive?
    ensures s' == Next(s, EventStep(c, 0, now)) && s'.pipe == s.pipe
    ensures s'.session == s.session.(events := s'.session.events, fence := NoOne)
  {
    s' := Next(s, EventStep(c, 0, now));
  }

  /** Nothing outstanding: it gets a record and its place in the queue. */
  lemma ArrivedIsQueued(s: State, c: ClientId, id: nat, g: nat, now: nat)
    requires Inv(s) && Arrived(s, c, id, g) && s.session.client == Some(c) && Live(s.session, g)
    requires s.pipe.queue == [] && s.pipe.dispatcher.Listening?
    ensures var step := EventStep(c, 0, now);
            var s' := Run(s, [step, step, step]);
            && s'.session == s.session.(events := s'.session.events, fence := NoOne)
            && s'.pipe.dispatcher.Listening? && s'.pipe.handed == s.pipe.handed && |s'.pipe.queue| == 1
            && s'.pipe.queue[0].id == id && s'.pipe.queue[0].generation == g && s'.pipe.queue[0].at == now + 1
  {
    var step := EventStep(c, 0, now);
    var s1 := ArrivedSends(s, c, id, g, now);
    SendIsExact(s1, c, now);
    SendingIsQueued(s1, c, now);
    var s2 := Next(s1, step);
    RunsReach(s, [step, step, step], [s, s1, s2, Next(s2, step)]);
  }

  lemma SendingIsQueued(s: State, c: ClientId, now: nat)
    requires EventOf(s.session, c).EnqueueSend? && |s.pipe.queue| < DEPTH
    ensures var s' := Next(Next(s, EventStep(c, 0, now)), EventStep(c, 0, now));
            && s'.session == s.session.(events := s'.session.events, fence := NoOne)
            && s'.pipe == s.pipe.(queue := s.pipe.queue + [EventOf(s.session, c).message])
  {
    var s1 := Next(s, EventStep(c, 0, now));
    assert EventOf(s1.session, c).EnqueueGive?;
    var s2 := GivingLeaves(s1, c, now);
  }

  lemma ArrivedSends(s: State, c: ClientId, id: nat, g: nat, now: nat) returns (s': State)
    requires Inv(s) && Arrived(s, c, id, g) && s.session.client == Some(c) && Live(s.session, g)
    requires s.pipe.queue == [] && s.pipe.dispatcher.Listening?
    ensures s' == Next(s, EventStep(c, 0, now)) && Inv(s') && EventOf(s'.session, c).EnqueueSend?
    ensures var m := EventOf(s'.session, c).message; m.id == id && m.generation == g && m.at == now + 1
    ensures s'.pipe.queue == [] && s'.pipe.dispatcher.Listening? && s'.pipe.handed == s.pipe.handed
    ensures s'.session == s.session.(events := s'.session.events)
  {
    s' := Next(s, EventStep(c, 0, now));
    NothingOutstanding(s, c);
    EnqueueIsExact(s, c, id, g, now);
    EnqueueKeepsHanded(s, c, now);
    ReservingKeepsSession(s, c, now);
    NextKeepsInv(s, EventStep(c, 0, now));
  }

  lemma NothingOutstanding(s: State, c: ClientId)
    requires s.session.fence == ByEvent(c) && EventOf(s.session, c).EnqueueHeld?
    requires s.pipe.queue == [] && s.pipe.dispatcher.Listening?
    ensures Outstanding(s.session, s.pipe) == []
  {
  }

  lemma ReservingKeepsSession(s: State, c: ClientId, now: nat)
    requires EventOf(s.session, c).EnqueueHeld?
    ensures var s' := Next(s, EventStep(c, 0, now)); s'.session == s.session.(events := s'.session.events)
  {
  }

  lemma EnqueueKeepsHanded(s: State, c: ClientId, now: nat)
    ensures var s' := Next(s, EventStep(c, 0, now));
            s'.pipe.handed == s.pipe.handed && s'.pipe.dispatcher == s.pipe.dispatcher
  {
  }

  lemma CommandIsQueued(s: State, c: ClientId, now: nat)
    requires Inv(s) && Calm(s, c)
    ensures var step := EventStep(c, 0, now);
            var s' := Run(s, [Assembled(c), step] + [step, step, step]);
            && Inv(s') && s'.session == s.session.(events := s'.session.events) && s'.pipe.dispatcher.Listening?
            && s'.pipe.handed == s.pipe.handed && |s'.pipe.queue| == 1
            && s'.pipe.queue[0].id == s.pipe.nextId && s'.pipe.queue[0].generation == s.session.generation
            && s'.pipe.queue[0].at == now + 1
  {
    var step := EventStep(c, 0, now);
    CommandArrives(s, c, now);
    RunKeepsInv(s, [Assembled(c), step]);
    var arrived := Run(s, [Assembled(c), step]);
    ArrivedIsQueued(arrived, c, s.pipe.nextId, s.session.generation, now);
    RunKeepsInv(arrived, [step, step, step]);
    RunAppend(s, [Assembled(c), step], [step, step, step]);
  }

  /** The queued command of the live session reaches its callback and its commit. */
  lemma QueuedCommandCommits(s: State)
    requires Inv(s) && s.session.ready && s.session.connected && s.session.fence.NoOne?
    requires s.pipe.dispatcher.Listening? && |s.pipe.queue| == 1
    requires s.pipe.queue[0].generation == s.session.generation
    ensures var m, s' := s.pipe.queue[0], Run(s, [Receive, Dispatch, FenceTake, FenceCheck]);
            && s'.pipe.dispatcher == Committing(m) && s'.session == s.session.(fence := ByDispatcher)
            && Log(s'.pipe.handed, m.generation) == Log(s.pipe.handed, m.generation) + [m.id]
  {
    var s1 := Next(s, Receive);
    ReceiveTakesOldest(s);
    NextKeepsInv(s, Receive);
    assert s1.pipe.dispatcher.message == s.pipe.queue[0];
    DispatchIsExact(s1);
    DispatchedCommits(s, s1, Next(s1, Dispatch));
  }

  lemma DispatchedCommits(s: State, s1: State, s2: State)
    requires s1 == Next(s, Receive) && s2 == Next(s1, Dispatch)
    requires s2.pipe.dispatcher.Calling? && s2.session.fence.NoOne?
    requires Live(s2.session, s2.pipe.dispatcher.message.generation)
    ensures Run(s, [Receive, Dispatch, FenceTake, FenceCheck])
            == State(s2.session.(fence := ByDispatcher),
                     s2.pipe.(dispatcher := Committing(s2.pipe.dispatcher.message)))
  {
    CommitIsExact(s2);
    var s3 := Next(s2, FenceTake);
    RunsReach(s, [Receive, Dispatch, FenceTake, FenceCheck], [s, s1, s2, s3, Next(s3, FenceCheck)]);
  }

  /**
   * On a calm live session every completed message gets through: it is handed over as the
   * generation's next command, and its handler finds the commit fence open.
   */
  lemma CommandGetsThrough(s: State, c: ClientId, now: nat)
    requires Inv(s) && Calm(s, c)
    ensures var step := EventStep(c, 0, now);
            var s' := Run(s, [Assembled(c), step] + [step, step, step] + [Receive, Dispatch, FenceTake, FenceCheck]);
            && s'.pipe.dispatcher.Committing? && s'.pipe.dispatcher.message.id == s.pipe.nextId
            && s'.session.fence.ByDispatcher? && s'.session.generation == s.session.generation
            && Log(s'.pipe.handed, s.session.generation)
               == Log(s.pipe.handed, s.session.generation) + [s.pipe.nextId]
  {
    var step := EventStep(c, 0, now);
    CommandIsQueued(s, c, now);
    QueuedCommandCommits(Run(s, [Assembled(c), step] + [step, step, step]));
    RunAppend(s, [Assembled(c), step] + [step, step, step], [Receive, Dispatch, FenceTake, FenceCheck]);
  }
}
