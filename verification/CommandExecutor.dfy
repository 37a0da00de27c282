/**
 * main/command_executor.c: which locks a command takes, what it does under them, and
 * how it gets out. The outcome of every call it makes is left open.
 */
module CommandExecutor {

  datatype Command =
    | ManualOn(fan: nat)
    | ManualOff(fan: nat)
    | SetManual(fan: nat, pct: nat)
    | ClearTach(fan: nat)
    | SetOverride(inhibited: bool)
    | SetEntry(fan: nat, slot: nat, interval: nat, duration: nat, pct: nat)
    | DisableEntry(fan: nat, slot: nat)
    | GetEntry(fan: nat, slot: nat)
    | StartOta(url: string)

  /** Tach action mutex, MQTT session fence, supervisor output guard. */
  datatype Lock = TachMutex | SessionFence | OutputGuard

  /** What the executor calls, with what it asks for and, where that matters, the answer. */
  datatype Event =
    | Take(lock: Lock)
    | Give(lock: Lock)
    | ApplyManual(fan: nat, pct: nat, accepted: bool)
    | RequestSave
    | EnableOutput
    | TachClear(fan: nat, ok: bool)
    | Override(inhibited: bool, ok: bool)
    | EntrySet(fan: nat, slot: nat, interval: nat, duration: nat, pct: nat, ok: bool)
    | EntryDisable(fan: nat, slot: nat, ok: bool)
    | EntryRead(fan: nat, slot: nat, ok: bool)
    | OtaClaim(url: string, ok: bool)
    | OtaComplete(claimed: bool)
    | Acknowledge(fan: nat)
    | PublishFan(fan: nat)
    | PublishEntry(fan: nat, slot: nat)

  /**
   * What one command will be answered: by the tach action mutex, by the session fence
   * (no, when the session is stale), by the output guard, and by the call it is about.
   */
  datatype Answers = Answers(serialized: bool, fenced: bool, guarded: bool, ok: bool)

  /** Locks in the order they must be taken. */
  function Rank(lock: Lock): nat {
    match lock
    case TachMutex => 0
    case SessionFence => 1
    case OutputGuard => 2
  }

  /** The locks held after the events, innermost last; None once discipline is broken. */
  datatype Held = Broken | Stack(locks: seq<Lock>)

  predicate Holds(h: Held, lock: Lock) { h.Stack? && lock in h.locks }

  /** What must be held for an event, and that what may block or publish holds nothing. */
  predicate Permitted(h: Held, e: Event) {
    match e
    case ApplyManual(_, _, _) => Holds(h, SessionFence) && Holds(h, OutputGuard)
    case RequestSave => Holds(h, SessionFence) && Holds(h, OutputGuard)
    case EnableOutput => Holds(h, SessionFence) && Holds(h, OutputGuard)
    case TachClear(_, _) => Holds(h, TachMutex) && Holds(h, SessionFence)
    case Override(_, _) => Holds(h, SessionFence)
    case EntrySet(_, _, _, _, _, _) => Holds(h, SessionFence)
    case EntryDisable(_, _, _) => Holds(h, SessionFence)
    case OtaClaim(_, _) => Holds(h, SessionFence)
    case Take(_) => true
    case Give(_) => true
    case _ => h == Stack([])
  }

  function After(h: Held, e: Event): Held {
    if h.Broken? || !Permitted(h, e) then Broken else
    match e
    case Take(lock) =>
      if h.locks == [] || Rank(h.locks[|h.locks| - 1]) < Rank(lock) then Stack(h.locks + [lock]) else Broken
    case Give(lock) =>
      if h.locks != [] && h.locks[|h.locks| - 1] == lock then Stack(h.locks[..|h.locks| - 1]) else Broken
    case _ => h
  }

  function AfterAll(h: Held, trace: seq<Event>): Held {
    if trace == [] then h else After(AfterAll(h, trace[..|trace| - 1]), trace[|trace| - 1])
  }

  lemma AfterOneMore(trace: seq<Event>, e: Event)
    ensures AfterAll(Stack([]), trace + [e]) == After(AfterAll(Stack([]), trace), e)
  {
    assert (trace + [e])[..|trace|] == trace;
  }

  /**
   * Locks are taken in one global order, so tasks cannot deadlock on them, and given
   * back innermost first; the whole trace leaves nothing held.
   */
  predicate Disciplined(trace: seq<Event>) { AfterAll(Stack([]), trace) == Stack([]) }

  // ---- what each command amounts to ----

  predicate IsManual(command: Command) { command.ManualOn? || command.ManualOff? || command.SetManual? }

  /** The one call a command is about; ON means the least percentage the motors turn at. */
  function Call(minSpin: nat, command: Command, ok: bool): Event {
    match command
    case ManualOn(fan) => ApplyManual(fan, minSpin, ok)
    case ManualOff(fan) => ApplyManual(fan, 0, ok)
    case SetManual(fan, pct) => ApplyManual(fan, pct, ok)
    case ClearTach(fan) => TachClear(fan, ok)
    case SetOverride(inhibited) => Override(inhibited, ok)
    case SetEntry(fan, slot, interval, duration, pct) => EntrySet(fan, slot, interval, duration, pct, ok)
    case DisableEntry(fan, slot) => EntryDisable(fan, slot, ok)
    case GetEntry(fan, slot) => EntryRead(fan, slot, ok)
    case StartOta(url) => OtaClaim(url, ok)
  }

  /** No two commands amount to the same call, but for manual ones that ask for the same percentage. */
  lemma CallsAreTheirOwn(minSpin: nat, c: Command, d: Command, a: bool, b: bool)
    requires Call(minSpin, c, a) == Call(minSpin, d, b)
    ensures a == b && (c == d || (IsManual(c) && IsManual(d) && c.fan == d.fan))
    ensures c.ManualOff? && d.SetManual? ==> d.pct == 0
    ensures c.ManualOn? && d.SetManual? ==> d.pct == minSpin
  {
  }

  /** The locks the call is made under, outermost first. */
  function Locks(command: Command): seq<Lock> {
    if IsManual(command) then [SessionFence, OutputGuard]
    else if command.ClearTach? then [TachMutex, SessionFence]
    else if command.GetEntry? then []
    else [SessionFence]
  }

  predicate Granted(a: Answers, lock: Lock) {
    match lock
    case TachMutex => a.serialized
    case SessionFence => a.fenced
    case OutputGuard => a.guarded
  }

  /** A command's call is made if and only if it gets every lock it needs. */
  predicate Made(command: Command, a: Answers) {
    forall i :: 0 <= i < |Locks(command)| ==> Granted(a, Locks(command)[i])
  }

  lemma MadeMeans(command: Command, a: Answers)
    ensures IsManual(command) ==> (Made(command, a) <==> a.fenced && a.guarded)
    ensures command.ClearTach? ==> (Made(command, a) <==> a.serialized && a.fenced)
    ensures command.GetEntry? ==> Made(command, a)
    ensures !IsManual(command) && !command.ClearTach? && !command.GetEntry? ==> (Made(command, a) <==> a.fenced)
  {
    var locks := Locks(command);
    if |locks| == 1 {
      assert Made(command, a) <==> Granted(a, locks[0]);
    } else if |locks| == 2 {
      assert Made(command, a) <==> Granted(a, locks[0]) && Granted(a, locks[1]);
    }
  }

  /** What follows the call under the same locks, and once all of them are given back. */
  function Inside(command: Command, ok: bool): seq<Event> {
    if IsManual(command) && ok then [RequestSave, EnableOutput] else []
  }

  function Outside(command: Command, ok: bool): seq<Event> {
    match command
    case ManualOn(fan) => if ok then [Acknowledge(fan), PublishFan(fan)] else []
    case ManualOff(fan) => if ok then [Acknowledge(fan), PublishFan(fan)] else []
    case SetManual(fan, _) => if ok then [Acknowledge(fan), PublishFan(fan)] else []
    case ClearTach(fan) => if ok then [PublishFan(fan)] else []
    case GetEntry(fan, slot) => if ok then [PublishEntry(fan, slot)] else []
    case StartOta(_) => [OtaComplete(ok)]
    case _ => []
  }

  /** What happens to a manual target once the session is fenced. */
  function Applied(fan: nat, pct: nat, a: Answers): seq<Event> {
    if !a.guarded then []
    else [ApplyManual(fan, pct, a.ok)] + if a.ok then [RequestSave, EnableOutput] else []
  }

  function ManualDeeds(fan: nat, pct: nat, a: Answers): seq<Event> {
    if !a.fenced then []
    else Applied(fan, pct, a) + if a.guarded && a.ok then [Acknowledge(fan), PublishFan(fan)] else []
  }

  /** All that a command does apart from its locks. */
  function Done(minSpin: nat, command: Command, a: Answers): seq<Event> {
    if Made(command, a) then [Call(minSpin, command, a.ok)] + Inside(command, a.ok) + Outside(command, a.ok) else []
  }

  lemma ManualIsDone(minSpin: nat, command: Command, a: Answers)
    requires IsManual(command)
    ensures Done(minSpin, command, a) ==
            match command
            case ManualOn(fan) => ManualDeeds(fan, minSpin, a)
            case ManualOff(fan) => ManualDeeds(fan, 0, a)
            case SetManual(fan, pct) => ManualDeeds(fan, pct, a)
  {
    MadeMeans(command, a);
  }

  /** Everything in the trace but the locks. */
  function Deeds(trace: seq<Event>): seq<Event> {
    if trace == [] then [] else
    var last := trace[|trace| - 1];
    Deeds(trace[..|trace| - 1]) + if last.Take? || last.Give? then [] else [last]
  }

  lemma DeedsOfMore(trace: seq<Event>, e: Event)
    ensures Deeds(trace + [e]) == Deeds(trace) + if e.Take? || e.Give? then [] else [e]
  {
    assert (trace + [e])[..|trace|] == trace;
  }

  class Executor {
    /** Everything this executor has done, and the locks it holds now. */
    var trace: seq<Event>
    ghost var held: Held
    const minSpin: nat

    ghost predicate Valid()
      reads this
    {
      held == AfterAll(Stack([]), trace)
    }

    constructor (minSpin: nat)
      ensures Valid() && trace == [] && held == Stack([]) && this.minSpin == minSpin
    {
      this.minSpin := minSpin;
      trace, held := [], Stack([]);
    }

    method Do(e: Event)
      requires Valid()
      modifies this
      ensures Valid() && trace == old(trace) + [e] && held == After(old(held), e)
      ensures Deeds(trace) == Deeds(old(trace)) + if e.Take? || e.Give? then [] else [e]
    {
      AfterOneMore(trace, e);
      DeedsOfMore(trace, e);
      trace := trace + [e];
      held := After(held, e);
    }

    /** A bounded lock attempt that may fail, or a fence that may find the session stale. */
    method TryTake(lock: Lock, answer: bool) returns (ok: bool)
      requires Valid() && held.Stack?
      requires held.locks == [] || Rank(held.locks[|held.locks| - 1]) < Rank(lock)
      modifies this
      ensures Valid() && held == if ok then Stack(old(held).locks + [lock]) else old(held)
      ensures ok == answer && Deeds(trace) == Deeds(old(trace))
    {
      ok := answer;
      if ok { Do(Take(lock)); }
    }

    /** Give the innermost lock back. */
    method GiveBack(lock: Lock)
      requires Valid() && held.Stack? && held.locks != [] && held.locks[|held.locks| - 1] == lock
      modifies this
      ensures Valid() && held == Stack(old(held).locks[..|old(held).locks| - 1])
      ensures Deeds(trace) == Deeds(old(trace))
    {
      Do(Give(lock));
    }

    /** Something that the locks held now permit. */
    method Perform(e: Event)
      requires Valid() && held.Stack? && Permitted(held, e) && !e.Take? && !e.Give?
      modifies this
      ensures Valid() && held == old(held) && Deeds(trace) == Deeds(old(trace)) + [e]
    {
      Do(e);
    }

    /** The target, its save request and the output enable belong to one transaction. */
    method Mutate(fan: nat, pct: nat, answers: Answers) returns (accepted: bool)
      requires Valid() && held == Stack([SessionFence, OutputGuard])
      modifies this
      ensures Valid() && held == old(held) && accepted == answers.ok
      ensures Deeds(trace) == Deeds(old(trace)) + [ApplyManual(fan, pct, accepted)]
                              + if accepted then [RequestSave, EnableOutput] else []
    {
      accepted := answers.ok;
      Perform(ApplyManual(fan, pct, accepted));
      if accepted {
        Perform(RequestSave);
        Perform(EnableOutput);
      }
    }

    /** The mutation of a manual target under the output guard, if that can be had. */
    method ApplyGuarded(fan: nat, pct: nat, answers: Answers) returns (accepted: bool)
      requires Valid() && held == Stack([SessionFence])
      modifies this
      ensures Valid() && held == old(held) && accepted == (answers.guarded && answers.ok)
      ensures Deeds(trace) == Deeds(old(trace)) + Applied(fan, pct, answers)
    {
      var guarded := TryTake(OutputGuard, answers.guarded);
      if !guarded { return false; }
      assert held == Stack([SessionFence, OutputGuard]);
      accepted := Mutate(fan, pct, answers);
      GiveBack(OutputGuard);
    }

    /**
     * A manual target: session fence around output guard around the mutation, and only
     * after both are given back the acknowledgement.
     */
    method Manual(fan: nat, pct: nat, answers: Answers) returns (acknowledged: bool)
      requires Valid() && held == Stack([])
      modifies this
      ensures Valid() && held == Stack([])
      ensures acknowledged == (answers.fenced && answers.guarded && answers.ok)
      ensures Deeds(trace) == Deeds(old(trace)) + ManualDeeds(fan, pct, answers)
    {
      acknowledged := false;
      var fenced := TryTake(SessionFence, answers.fenced);
      if !fenced { return; }
      assert held == Stack([SessionFence]);
      acknowledged := ApplyGuarded(fan, pct, answers);
      GiveBack(SessionFence);
      if acknowledged {
        Perform(Acknowledge(fan));
        Perform(PublishFan(fan));
      }
    }

    /** CLEAR waits for the tach worker before it takes the short session fence. */
    method Clear(fan: nat, answers: Answers) returns (done: bool)
      requires Valid() && held == Stack([])
      modifies this
      ensures Valid() && held == Stack([])
      ensures done == (answers.serialized && answers.fenced && answers.ok)
      ensures answers.serialized && answers.fenced ==>
                Deeds(trace) == Deeds(old(trace)) + [TachClear(fan, answers.ok)]
                                + if answers.ok then [PublishFan(fan)] else []
      ensures !(answers.serialized && answers.fenced) ==> Deeds(trace) == Deeds(old(trace))
    {
      done := false;
      var serialized := TryTake(TachMutex, answers.serialized);
      if !serialized { return; }
      assert held == Stack([TachMutex]);
      var fenced := TryTake(SessionFence, answers.fenced);
      if fenced {
        assert held == Stack([TachMutex, SessionFence]);
        done := answers.ok;
        Perform(TachClear(fan, done));
        GiveBack(SessionFence);
      }
      GiveBack(TachMutex);
      if done { Perform(PublishFan(fan)); }
    }

    /** Schedule changes and the OTA claim need only the session fence. */
    method UnderFence(e: Event, answers: Answers) returns (done: bool)
      requires Valid() && held == Stack([]) && Permitted(Stack([SessionFence]), e) && !e.Take? && !e.Give?
      modifies this
      ensures Valid() && held == Stack([])
      ensures done == answers.fenced
      ensures Deeds(trace) == Deeds(old(trace)) + if done then [e] else []
    {
      done := TryTake(SessionFence, answers.fenced);
      if !done { return; }
      assert held == Stack([SessionFence]);
      Perform(e);
      GiveBack(SessionFence);
    }

    /** Only the claim belongs under the fence; what may block comes after it. */
    method Ota(url: string, answers: Answers)
      requires Valid() && held == Stack([])
      modifies this
      ensures Valid() && held == Stack([])
      ensures Deeds(trace) == Deeds(old(trace))
                              + if answers.fenced then [OtaClaim(url, answers.ok), OtaComplete(answers.ok)] else []
    {
      var fenced := UnderFence(OtaClaim(url, answers.ok), answers);
      if fenced { Perform(OtaComplete(answers.ok)); }
    }

    method Read(fan: nat, slot: nat, answers: Answers)
      requires Valid() && held == Stack([])
      modifies this
      ensures Valid() && held == Stack([])
      ensures Deeds(trace) == Deeds(old(trace)) + [EntryRead(fan, slot, answers.ok)]
                              + if answers.ok then [PublishEntry(fan, slot)] else []
    {
      Perform(EntryRead(fan, slot, answers.ok));
      if answers.ok { Perform(PublishEntry(fan, slot)); }
    }

    /**
     * The switch of command_executor_on_message. Whatever is answered, the trace stays
     * disciplined. The command makes its own call, with its own arguments, if and only if
     * it got every lock it needs; nothing else is done, except what follows that call.
     */
    method Execute(command: Command, answers: Answers)
      requires Valid() && Disciplined(trace)
      modifies this
      ensures Valid() && Disciplined(trace)
      ensures Deeds(trace) == Deeds(old(trace)) + Done(minSpin, command, answers)
    {
      MadeMeans(command, answers);
      if IsManual(command) { ManualIsDone(minSpin, command, answers); }
      match command {
        case ManualOn(fan) => var acknowledged := Manual(fan, minSpin, answers);
        case ManualOff(fan) => var acknowledged := Manual(fan, 0, answers);
        case SetManual(fan, pct) => var acknowledged := Manual(fan, pct, answers);
        case ClearTach(fan) => var done := Clear(fan, answers);
        case SetOverride(inhibited) => var done := UnderFence(Override(inhibited, answers.ok), answers);
        case SetEntry(fan, slot, interval, duration, pct) =>
          var done := UnderFence(EntrySet(fan, slot, interval, duration, pct, answers.ok), answers);
        case DisableEntry(fan, slot) => var done := UnderFence(EntryDisable(fan, slot, answers.ok), answers);
        case GetEntry(fan, slot) => Read(fan, slot, answers);
        case StartOta(url) => Ota(url, answers);
      }
    }
  }

  /**
   * In a disciplined trace every event happened under the locks it needs. This only
   * says what discipline means; that every command's trace is disciplined, and what
   * is in it, is what Execute and Manual prove.
   */
  lemma {:induction false} EventsArePermitted(trace: seq<Event>, i: nat)
    requires AfterAll(Stack([]), trace).Stack? && i < |trace|
    ensures Permitted(AfterAll(Stack([]), trace[..i]), trace[i])
    decreases |trace|
  {
    var last := |trace| - 1;
    if i < last {
      EventsArePermitted(trace[..last], i);
      assert trace[..last][..i] == trace[..i];
    }
  }
}
