/** What the command plane guarantees, over whole runs. */
module MqttTheorems {
  import opened Prelude
  import opened MqttSession
  import opened MqttSafety
  import opened MqttSteps

  function Init(): State {
    State(Session(false, false, 0, None, NO_SUBS, NoOne, map[], Resting),
          Pipe([], seq(DEPTH, _ => FREE), 0, 0, Listening, 0, map[], map[]))
  }

  lemma InitIsValid()
    ensures Inv(Init())
  {
    assert Outstanding(Init().session, Init().pipe) == [];
    assert SessionInv(Init().session, Listening);
    NothingLoggedYet();
  }

  lemma NothingLoggedYet()
    ensures Streams(map[], map[], 0, [], [])
  {
    assert forall h: nat :: IsPrefix(Log(map[], h), Log(map[], h));
  }

  function Run(s: State, steps: seq<Step>): State
    decreases |steps|
  {
    if steps == [] then s else Run(Next(s, steps[0]), steps[1..])
  }

  lemma {:induction false} RunKeepsInv(s: State, steps: seq<Step>)
    requires Inv(s)
    ensures Inv(Run(s, steps))
    decreases |steps|
  {
    if steps != [] {
      NextKeepsInv(s, steps[0]);
      RunKeepsInv(Next(s, steps[0]), steps[1..]);
    }
  }

  /** Commands reach the callback gap-free and in the order their session assembled them. */
  lemma HandedIsPrefixOfAssembled(steps: seq<Step>, g: nat)
    ensures var p := Run(Init(), steps).pipe; IsPrefix(Log(p.handed, g), Log(p.assembled, g))
  {
    InitIsValid();
    RunKeepsInv(Init(), steps);
  }

  // ---- the commit fence ----

  predicate SameSession(s: Session, s': Session) {
    && s'.generation == s.generation && s'.connected == s.connected && s'.ready == s.ready
    && s'.client == s.client
  }

  /** Between commit_begin and commit_end nothing changes the session the command came from. */
  lemma FencedSessionIsStable(s: State, step: Step)
    requires Inv(s) && s.pipe.dispatcher.Committing? && !step.FenceEnd?
    ensures Next(s, step).pipe.dispatcher == s.pipe.dispatcher
    ensures SameSession(s.session, Next(s, step).session) && Live(s.session, s.pipe.dispatcher.message.generation)
  {
    assert s.session.fence.ByDispatcher?;
    if step.EventStep? {
      assert !Holding(EventOf(s.session, step.client));
      FencedOutEvents(s, step);
    } else if step.StarterStep? {
      FencedOutStarter(s.session, s.pipe.dispatcher);
    } else if step.Subscribed? {
      FencedOutSubacks(s.session, step);
    } else {
      FencedOutRest(s, step);
    }
  }

  lemma FencedOutStarter(s: Session, d: Dispatcher)
    requires Fenced(s, d) && s.fence.ByDispatcher?
    ensures SameSession(s, StarterNext(s))
  {
  }

  /** With no subscription pending a SUBACK has nothing to acknowledge. */
  lemma FencedOutSubacks(s: Session, step: Step)
    requires step.Subscribed? && s.ready && s.subs.pending == []
    ensures SubackNext(s, step.client, step.id, step.accept) == s
  {
  }

  lemma FencedOutRest(s: State, step: Step)
    requires s.session.client.Some? && s.pipe.dispatcher.Committing? && !step.FenceEnd?
    requires !step.EventStep? && !step.StarterStep? && !step.Subscribed?
    ensures SameSession(s.session, Next(s, step).session)
    ensures Next(s, step).pipe.dispatcher == s.pipe.dispatcher
  {
  }

  lemma FencedOutEvents(s: State, step: Step)
    requires Inv(s) && step.EventStep? && !Holding(EventOf(s.session, step.client))
    ensures var s' := Next(s, step).session;
            SameSession(s.session, s') && Next(s, step).pipe.dispatcher == s.pipe.dispatcher
  {
  }

  // ---- overflow ----

  /** No session is up and none can come up without a new connection. */
  ghost predicate DownSession(s: Session) {
    !s.ready && s.subs.pending == [] && forall c: ClientId :: !EventOf(s, c).Subscribing?
  }

  ghost predicate Down(s: State) { DownSession(s.session) && !s.pipe.dispatcher.Committing? }

  /** The section of a CONNECTED event of the current client. */
  predicate Connects(s: State, step: Step) {
    step.EventStep? && EventOf(s.session, step.client).ConnectHeld? && s.session.client == Some(step.client)
  }

  /** A saturated queue ends the session on the spot. */
  lemma OverflowGoesDown(s: State, c: ClientId, id: int, now: nat)
    requires Inv(s) && EventOf(s.session, c).EnqueueFull?
    ensures Down(Next(s, EventStep(c, id, now)))
    ensures Next(s, EventStep(c, id, now)).session.generation == s.session.generation + 1
  {
    OnlyOwnerHolds(s.session, s.pipe.dispatcher, c);
    assert ArrivalValid(s.session, c, EventOf(s.session, c));
    var s' := Next(s, EventStep(c, id, now));
    assert forall u: ClientId :: u != c ==> EventOf(s'.session, u) == EventOf(s.session, u);
  }

  lemma LinkStaysDown(s: Session, c: ClientId, id: int)
    requires DownSession(s) && !(EventOf(s, c).ConnectHeld? && s.client == Some(c))
    ensures DownSession(LinkNext(s, c, id))
  {
    forall u: ClientId ensures !EventOf(LinkNext(s, c, id), u).Subscribing? {
      assert !EventOf(s, u).Subscribing?;
    }
  }

  lemma EnqueueStaysDown(s: Session, p: Pipe, c: ClientId, now: nat)
    requires DownSession(s)
    ensures DownSession(EnqueueLink(s, p, c, now))
  {
    forall u: ClientId ensures !EventOf(EnqueueLink(s, p, c, now), u).Subscribing? {
      assert !EventOf(s, u).Subscribing?;
    }
  }

  lemma SubackStaysDown(s: Session, c: ClientId, id: int, accept: bool)
    requires DownSession(s)
    ensures SubackNext(s, c, id, accept) == s
  {
  }

  lemma RestStaysDown(s: Session, p: Pipe, step: Step)
    requires DownSession(s) && !step.EventStep? && !step.Subscribed?
    ensures DownSession(SessionNext(s, p, step))
  {
    forall u: ClientId ensures !EventOf(SessionNext(s, p, step), u).Subscribing? {
      assert !EventOf(s, u).Subscribing?;
    }
  }

  /** Without a ready session nothing is handed over and no commit begins. */
  lemma NothingHandedOver(s: Session, p: Pipe, step: Step)
    requires !s.ready && !p.dispatcher.Committing?
    ensures PipeNext(s, p, step).handed == p.handed && !PipeNext(s, p, step).dispatcher.Committing?
  {
  }

  /** Until a new CONNECTED nothing more is handed to the callback and nothing commits. */
  lemma StaysDown(s: State, step: Step)
    requires Down(s) && !Connects(s, step)
    ensures Down(Next(s, step)) && Next(s, step).pipe.handed == s.pipe.handed
  {
    NothingHandedOver(s.session, s.pipe, step);
    if step.EventStep? {
      if LinkStep(s.session, step) { LinkStaysDown(s.session, step.client, step.id); }
      else { EnqueueStaysDown(s.session, s.pipe, step.client, step.now); }
    } else if step.Subscribed? {
      SubackStaysDown(s.session, step.client, step.id, step.accept);
    } else {
      RestStaysDown(s.session, s.pipe, step);
    }
  }

  /**
   * A session is up only when every subscription its connection registered was
   * acknowledged with a success code and none was refused by client or broker.
   */
  lemma ReadyMeansAcknowledged(s: State)
    requires Inv(s) && s.session.ready
    ensures s.session.connected && s.session.subs.accepted == s.session.subs.registered != multiset{}
    ensures s.session.subs.rejected == multiset{} && s.session.subs.refused == 0
  {
    var subs := s.session.subs;
    assert subs.registered == multiset(subs.pending) + subs.accepted + subs.rejected;
    assert multiset(subs.pending) == multiset{};
  }

  /** Only an accepting SUBACK of the current client brings a session up. */
  lemma OnlySubacksRaise(s: State, step: Step)
    requires Inv(s) && !s.session.ready && Next(s, step).session.ready
    ensures step.Subscribed? && step.accept && s.session.client == Some(step.client)
    ensures Next(s, step).session.generation == s.session.generation
  {
    if step.EventStep? { EventsNeverRaise(s, step); }
  }

  lemma EventsNeverRaise(s: State, step: Step)
    requires step.EventStep? && Next(s, step).session.ready
    ensures s.session.ready
  {
  }

  lemma GenerationGrows(s: State, step: Step)
    ensures Next(s, step).session.generation >= s.session.generation
  {
  }

  /** A session is up in a generation after g, every subscription it needs acknowledged. */
  ghost predicate Reopened(s: State, g: nat) {
    && s.session.ready && s.session.connected && s.session.generation > g
    && s.session.subs.accepted == s.session.subs.registered != multiset{}
    && s.session.subs.rejected == multiset{} && s.session.subs.refused == 0
  }

  ghost predicate ReopensIn(s: State, steps: seq<Step>, g: nat) {
    exists k :: 0 <= k <= |steps| && Reopened(Run(s, steps[..k]), g)
  }

  /** Nothing more was handed to the callback, and nothing is committing. */
  predicate Silent(s: State, s': State) {
    s'.pipe.handed == s.pipe.handed && !s'.pipe.dispatcher.Committing?
  }

  lemma ReopensLater(s: State, steps: seq<Step>, g: nat)
    requires steps != [] && ReopensIn(Next(s, steps[0]), steps[1..], g)
    ensures ReopensIn(s, steps, g)
  {
    var k :| 0 <= k <= |steps[1..]| && Reopened(Run(Next(s, steps[0]), steps[1..][..k]), g);
    assert steps[..k + 1][0] == steps[0] && steps[..k + 1][1..] == steps[1..][..k];
    assert Reopened(Run(s, steps[..k + 1]), g);
  }

  /** While no session is up nothing is handed over and no commit begins. */
  lemma {:induction false} UnreadyIsSilent(s: State, steps: seq<Step>, g: nat)
    requires Inv(s) && !s.session.ready && !s.pipe.dispatcher.Committing? && s.session.generation > g
    ensures Silent(s, Run(s, steps)) || ReopensIn(s, steps, g)
    decreases |steps|
  {
    if steps != [] {
      var s' := Next(s, steps[0]);
      NextKeepsInv(s, steps[0]);
      GenerationGrows(s, steps[0]);
      NothingHandedOver(s.session, s.pipe, steps[0]);
      if s'.session.ready {
        ReadyMeansAcknowledged(s');
        assert steps[1..][..0] == [] && Reopened(Run(s', steps[1..][..0]), g);
      } else {
        UnreadyIsSilent(s', steps[1..], g);
      }
      if ReopensIn(s', steps[1..], g) { ReopensLater(s, steps, g); }
    }
  }

  lemma ConnectingBegins(s: State, step: Step)
    requires Connects(s, step)
    ensures !Next(s, step).session.ready && Next(s, step).session.generation == s.session.generation + 1
  {
  }

  /** Only a new connection, which begins a new generation, can end the silence. */
  lemma {:induction false} DownIsSilent(s: State, steps: seq<Step>, g: nat)
    requires Inv(s) && Down(s) && g <= s.session.generation
    ensures Silent(s, Run(s, steps)) || ReopensIn(s, steps, g)
    decreases |steps|
  {
    if steps != [] {
      var s' := Next(s, steps[0]);
      NextKeepsInv(s, steps[0]);
      GenerationGrows(s, steps[0]);
      NothingHandedOver(s.session, s.pipe, steps[0]);
      if Connects(s, steps[0]) {
        ConnectingBegins(s, steps[0]);
        UnreadyIsSilent(s', steps[1..], g);
      } else {
        StaysDown(s, steps[0]);
        DownIsSilent(s', steps[1..], g);
      }
      if ReopensIn(s', steps[1..], g) { ReopensLater(s, steps, g); }
    }
  }

  /**
   * After a queue overflow, over every run: no command is handed to the callback and no
   * commit succeeds, not even that of a command whose callback was already running,
   * before a later connection is up with every required SUBACK accepted.
   */
  lemma OverflowSilences(s: State, c: ClientId, id: int, now: nat, steps: seq<Step>)
    requires Inv(s) && EventOf(s.session, c).EnqueueFull?
    ensures var s' := Next(s, EventStep(c, id, now));
            Silent(s, Run(s', steps)) || ReopensIn(s', steps, s'.session.generation)
  {
    var s' := Next(s, EventStep(c, id, now));
    NextKeepsInv(s, EventStep(c, id, now));
    OverflowGoesDown(s, c, id, now);
    DownIsSilent(s', steps, s'.session.generation);
  }

  /**
   * What a generation had not handed over when it ended, it never does, whatever
   * connections follow; and no command of an ended generation is ever committing.
   */
  lemma {:induction false} EndedGenerationsAreFinal(s: State, steps: seq<Step>, g: nat)
    requires Inv(s) && g < s.session.generation
    ensures var s' := Run(s, steps);
            && Log(s'.pipe.handed, g) == Log(s.pipe.handed, g)
            && (s'.pipe.dispatcher.Committing? ==> s'.pipe.dispatcher.message.generation > g)
    decreases |steps|
  {
    if steps != [] {
      NextKeepsInv(s, steps[0]);
      GenerationGrows(s, steps[0]);
      OnlyCurrentIsHanded(s.session, s.pipe, steps[0], g);
      EndedGenerationsAreFinal(Next(s, steps[0]), steps[1..], g);
    }
  }

  lemma OnlyCurrentIsHanded(s: Session, p: Pipe, step: Step, g: nat)
    requires g < s.generation
    ensures Log(PipeNext(s, p, step).handed, g) == Log(p.handed, g)
  {
  }

  // ---- the age of the oldest command ----

  /** Commands received but not finished: queued, reserved, or in the callback. */
  function Unfinished(s: State): seq<Message> {
    var p := s.pipe;
    (if p.dispatcher.Calling? || p.dispatcher.FenceHeld? || p.dispatcher.Committing?
     then [p.dispatcher.message] else []) + Outstanding(s.session, p)
  }

  lemma {:induction false} OldestIsEarliest(inFlight: nat, table: seq<Record>, k: nat)
    requires k <= |table|
    ensures var r := OldestUpTo(inFlight, table, k);
            && (inFlight > 0 ==> 0 < r <= inFlight)
            && (forall i :: 0 <= i < k && RecordTime(table[i]) > 0 ==> 0 < r <= RecordTime(table[i]))
            && (r == 0 || r == inFlight || exists i :: 0 <= i < k && r == RecordTime(table[i]))
  {
    if k > 0 { OldestIsEarliest(inFlight, table, k - 1); }
  }

  /**
   * The reported time is the enqueue time of an unfinished command, no later than any
   * other's; it is zero exactly when no command is unfinished.
   */
  lemma OldestBoundsUnfinished(s: State, i: nat)
    requires Inv(s) && i < |Unfinished(s)|
    ensures 0 < Oldest(s.pipe) <= Unfinished(s)[i].at
  {
    var p, o := s.pipe, Outstanding(s.session, s.pipe);
    OldestIsEarliest(p.inFlight, p.table, |p.table|);
    var calling := |Unfinished(s)| - |o|;
    if i >= calling {
      OutstandingIsUnfinished(s, i - calling);
      RecordedBoundsOldest(p, o[i - calling]);
    }
  }

  lemma RecordedBoundsOldest(p: Pipe, m: Message)
    requires Recorded(p.table, m)
    ensures 0 < Oldest(p) <= m.at
  {
    OldestIsEarliest(p.inFlight, p.table, |p.table|);
    assert RecordTime(p.table[m.slot]) == m.at;
  }

  lemma RecordIsUnfinished(s: State, k: nat)
    requires Inv(s) && k < |s.pipe.table| && s.pipe.table[k].occupied
    ensures exists i :: 0 <= i < |Unfinished(s)| && Unfinished(s)[i].at == s.pipe.table[k].at
  {
    var o := Outstanding(s.session, s.pipe);
    assert Tabled(s.pipe.table, o);
    var j :| 0 <= j < |o| && o[j].slot == k;
    assert Recorded(s.pipe.table, o[j]);
    OutstandingIsUnfinished(s, j);
  }

  lemma OutstandingIsUnfinished(s: State, j: nat)
    requires j < |Outstanding(s.session, s.pipe)|
    ensures var i := |Unfinished(s)| - |Outstanding(s.session, s.pipe)| + j;
            0 <= i < |Unfinished(s)| && Unfinished(s)[i] == Outstanding(s.session, s.pipe)[j]
  {
  }

  lemma OldestIsAnUnfinished(s: State)
    requires Inv(s) && Oldest(s.pipe) > 0
    ensures exists i :: 0 <= i < |Unfinished(s)| && Unfinished(s)[i].at == Oldest(s.pipe)
  {
    var p := s.pipe;
    OldestIsEarliest(p.inFlight, p.table, |p.table|);
    if Oldest(p) == p.inFlight {
      assert Unfinished(s)[0].at == Oldest(p);
    } else {
      var k :| 0 <= k < |p.table| && Oldest(p) == RecordTime(p.table[k]);
      RecordIsUnfinished(s, k);
    }
  }

  /** Every queued command owns its own occupied record, and overflow means all are owned. */
  lemma TableRefinesQueue(s: State, i: nat)
    requires Inv(s) && i < |s.pipe.queue|
    ensures var m := s.pipe.queue[i];
            && m.slot < DEPTH && s.pipe.table[m.slot] == Record(true, m.sequence, m.at)
            && forall j :: 0 <= j < |s.pipe.queue| && j != i ==> s.pipe.queue[j].slot != m.slot
    ensures |s.pipe.queue| <= DEPTH
  {
    QueueIsOutstanding(s, i);
    AtMostDepth(s.pipe.table, Outstanding(s.session, s.pipe));
    forall j | 0 <= j < |s.pipe.queue| && j != i ensures s.pipe.queue[j].slot != s.pipe.queue[i].slot {
      QueueIsOutstanding(s, j);
    }
  }

  /** Place of a queued command among the outstanding ones. */
  function PlaceOf(s: State, i: nat): nat { if s.pipe.dispatcher.Received? then i + 1 else i }

  lemma QueueIsOutstanding(s: State, i: nat)
    requires Inv(s) && i < |s.pipe.queue|
    ensures var o := Outstanding(s.session, s.pipe);
            PlaceOf(s, i) < |o| && o[PlaceOf(s, i)] == s.pipe.queue[i] && Recorded(s.pipe.table, s.pipe.queue[i])
  {
    QueuePlace(s, i);
    assert Tabled(s.pipe.table, Outstanding(s.session, s.pipe));
    assert Recorded(s.pipe.table, Outstanding(s.session, s.pipe)[PlaceOf(s, i)]);
  }

  lemma QueuePlace(s: State, i: nat)
    requires i < |s.pipe.queue|
    ensures var o := Outstanding(s.session, s.pipe);
            PlaceOf(s, i) < |o| && o[PlaceOf(s, i)] == s.pipe.queue[i]
  {
  }
}
