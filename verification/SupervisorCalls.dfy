/**
 * Everything a stop transaction calls, in order and with the answers it got: written
 * down beside each run, and compared with what stop_all_internal has to call.
 */
module SupervisorCalls {
  import opened Prelude
  import opened MotorCore
  import opened SupervisorRun
  import MotorRun
  import SupervisorSafety

  /** One call of a transaction, as it was made, with its answer. */
  datatype Call =
    | Cut(ok: bool)
    | Motors(kind: Kind, clear: bool, rollback: bool, ok: bool)
    | Automatic(ok: bool)
    | Save(ok: bool)
    | Released(ok: bool)

  /**
   * The answers of a transaction, by the place of the call in it; a call that is not made
   * counts as answered well.
   */
  datatype Replies = Replies(
    off: bool, first: bool, automatic: bool, verify: bool, fallback: bool, persistence: bool, late: bool)

  const FINE := Replies(true, true, true, true, true, true, true)

  /** What one transaction has called, the motor stop it waits for, and what it was told. */
  datatype Page = Page(calls: seq<Call>, asked: Option<MotorRun.Step>, replies: Replies)

  const BLANK := Page([], None, FINE)

  datatype Book = Book(s: State, pages: map<TaskId, Page>)

  function PageOf(b: Book, t: TaskId): Page { if t in b.pages then b.pages[t] else BLANK }

  function Told(r: Replies, which: Which, ok: bool): Replies {
    match which
    case First => r.(first := ok)
    case Verify => r.(verify := ok)
    case Fallback => r.(fallback := ok)
    case Late => r.(late := ok)
  }

  /** A stop's step as it meets the hardware, the motor module and the callbacks. */
  function NotedStop(m: MotorRun.State, t: TaskId, stop: StopJob, page: Page, ok: bool): Page {
    var p, r, part := page.calls, page.replies, StopMotorPart(m, t, stop);
    match stop.phase
    case Drive => page.(calls := p + [Cut(ok)], replies := r.(off := ok))
    case Auto => page.(calls := p + [Automatic(ok)], replies := r.(automatic := ok))
    case Persist => page.(calls := p + [Save(ok)], replies := r.(persistence := ok))
    case Release => if part == Some(MotorRun.ReleaseMaintenance) then page.(calls := p + [Released(true)]) else page
    case Section(which, _) =>
      if part.Some? && part.value.CallStop? then page.(asked := part)
      else if part.Some? && part.value.Collect? && t in m.tasks && m.tasks[t].Returned?
              && page.asked.Some? && page.asked.value.CallStop? then
        var asked, answer := page.asked.value, !m.tasks[t].failed;
        Page(p + [Motors(asked.kind, asked.clear, asked.rollback, answer)], None, Told(r, which, answer))
      else page
    case _ => page
  }

  function Noted(b: Book, step: Step): (r: Book)
    ensures r.s == b.s
  {
    match step
    case Claim(t, _, _) =>
      if !JobOf(b.s, t).op.Idle? || t in b.s.motor.tasks then b else b.(pages := b.pages[t := BLANK])
    case Advance(t, ok) =>
      if t in b.s.jobs && b.s.jobs[t].op.Stopping?
      then b.(pages := b.pages[t := NotedStop(b.s.motor, t, b.s.jobs[t].op.stop, PageOf(b, t), ok)]) else b
    case _ => b
  }

  function BookNext(b: Book, step: Step): Book { Noted(b, step).(s := Next(b.s, step)) }

  // ---- what has to be called ----

  predicate AllOk(calls: seq<Call>) { forall i :: 0 <= i < |calls| ==> calls[i].ok }

  predicate Verifies(action: Action, r: Replies) { action.StopVerified? && r.first && r.automatic }

  predicate StoppedSafely(action: Action, r: Replies) {
    r.off && r.first && r.automatic && (Verifies(action, r) ==> r.verify)
  }

  function FirstCalls(action: Action, clear: bool, r: Replies): seq<Call> {
    [Cut(r.off), Motors(if Durable(action) then ActionKind(action) else Maintenance, clear, false, r.first),
     Automatic(r.automatic)]
    + if Verifies(action, r) then [Motors(Plain, clear, true, r.verify)] else []
  }

  /** A temporary stop that is not safe escalates to the global inhibit. */
  function Escalation(action: Action, clear: bool, r: Replies): seq<Call> {
    if !Durable(action) && !StoppedSafely(action, r) then [Motors(Global, clear, false, r.fallback)] else []
  }

  /** Cleared targets are saved, and a temporary stop that cannot save them escalates, once. */
  function Saving(action: Action, clear: bool, r: Replies): seq<Call> {
    if !clear then []
    else [Save(r.persistence)] +
         if !Durable(action) && !r.persistence && (StoppedSafely(action, r) || r.fallback)
         then [Motors(Global, true, false, r.late)] else []
  }

  function Calls(action: Action, clear: bool, r: Replies): seq<Call> {
    FirstCalls(action, clear, r) + Escalation(action, clear, r) + Saving(action, clear, r)
  }

  /** stop_all_internal, call by call: a plain stop that succeeded gives its inhibit back. */
  function Script(action: Action, clear: bool, r: Replies): seq<Call> {
    var calls := Calls(action, clear, r);
    calls + if action.StopPlain? && AllOk(calls) then [Released(true)] else []
  }

  // ---- where a transaction stands ----

  /** The stop is at this motor section and has not got its answer. */
  predicate Before(phase: Phase, which: Which) {
    phase.Section? && phase.which == which && !phase.stage.Give?
  }

  predicate PastDrive(phase: Phase) { !phase.WantLock? && !phase.Drive? }

  predicate PastFirst(phase: Phase) { PastDrive(phase) && !phase.Unlock? && !Before(phase, First) }

  predicate PastAuto(phase: Phase) {
    phase.Persist? || phase.Release? || phase.Finish? || (phase.Section? && !phase.which.First?)
  }

  predicate PastVerify(phase: Phase) { PastAuto(phase) && !Before(phase, Verify) }

  predicate PastFallback(phase: Phase) {
    PastAuto(phase) && !Before(phase, Fallback) && !(phase.Section? && phase.which.Verify?)
  }

  predicate PastSave(phase: Phase) {
    phase.Release? || phase.Finish? || (phase.Section? && phase.which.Late?)
  }

  predicate PastLate(phase: Phase) { PastSave(phase) && !Before(phase, Late) }

  predicate NeedsFallback(stop: StopJob, r: Replies) { !Durable(stop.action) && !StoppedSafely(stop.action, r) }

  predicate NeedsLate(stop: StopJob, r: Replies) {
    stop.clear && !Durable(stop.action) && !r.persistence && (StoppedSafely(stop.action, r) || r.fallback)
  }

  /** Everything called up to where the stop stands. */
  function CalledSoFar(stop: StopJob, r: Replies): seq<Call> {
    var at, clear := stop.phase, stop.clear;
    (if PastDrive(at) then [Cut(r.off)] else [])
    + (if PastFirst(at)
       then [Motors(if Durable(stop.action) then ActionKind(stop.action) else Maintenance, clear, false, r.first)]
       else [])
    + (if PastAuto(at) then [Automatic(r.automatic)] else [])
    + (if PastVerify(at) && Verifies(stop.action, r) then [Motors(Plain, clear, true, r.verify)] else [])
    + (if PastFallback(at) && NeedsFallback(stop, r) then [Motors(Global, clear, false, r.fallback)] else [])
    + (if PastSave(at) && clear then [Save(r.persistence)] else [])
    + (if PastLate(at) && NeedsLate(stop, r) then [Motors(Global, true, false, r.late)] else [])
    + (if at.Finish? && stop.action.StopPlain? && ResultOk(stop.out) then [Released(true)] else [])
  }

  /** The transaction remembers every answer, and nothing else. */
  predicate Remembers(stop: StopJob, r: Replies) {
    var at, o := stop.phase, stop.out;
    && o.interlock == (PastDrive(at) ==> r.off)
    && o.automatic == (PastAuto(at) ==> r.automatic)
    && o.maintenance == (PastFirst(at) && !Durable(stop.action) ==> r.first)
    && o.motor == (if Durable(stop.action) then PastFirst(at) ==> r.first
                   else PastVerify(at) && Verifies(stop.action, r) ==> r.verify)
    && o.persistence == (PastSave(at) && stop.clear ==> r.persistence)
    && o.fallback == (if PastLate(at) && NeedsLate(stop, r) then Some(r.late)
                      else if PastFallback(at) && NeedsFallback(stop, r) then Some(r.fallback) else None)
  }

  /** It stands only where it has something to do. */
  predicate Routed(stop: StopJob, r: Replies) {
    && (stop.phase.Section? && stop.phase.which.Verify? ==> Verifies(stop.action, r))
    && (stop.phase.Section? && stop.phase.which.Fallback? ==> NeedsFallback(stop, r))
    && (stop.phase.Section? && stop.phase.which.Late? ==> NeedsLate(stop, r))
    && (stop.phase.Persist? ==> stop.clear)
    && (stop.phase.Release? ==> stop.action.StopPlain? && ResultOk(stop.out))
  }

  /** The motor stop it waits for is the one its section has to make. */
  predicate Asking(stop: StopJob, t: TaskId, asked: Option<MotorRun.Step>) {
    stop.phase.Section? && stop.phase.stage.Wait? ==>
      asked == Some(match stop.phase.which
                    case First => MotorRun.CallStop(t, if Durable(stop.action) then ActionKind(stop.action)
                                                       else Maintenance, stop.clear, false)
                    case Verify => MotorRun.CallStop(t, Plain, stop.clear, true)
                    case Fallback => MotorRun.CallStop(t, Global, stop.clear, false)
                    case Late => MotorRun.CallStop(t, Global, true, false))
  }

  predicate Accounted(stop: StopJob, t: TaskId, page: Page) {
    && page.calls == CalledSoFar(stop, page.replies) && Remembers(stop, page.replies)
    && Routed(stop, page.replies) && Asking(stop, t, page.asked)
  }

  ghost predicate BookInv(b: Book) {
    forall t :: t in b.s.jobs && b.s.jobs[t].op.Stopping? ==> Accounted(b.s.jobs[t].op.stop, t, PageOf(b, t))
  }

  // ---- every step keeps the account ----

  lemma EarlyStepAccounts(m: MotorRun.State, t: TaskId, stop: StopJob, page: Page, ok: bool)
    requires Accounted(stop, t, page) && (stop.phase.WantLock? || stop.phase.Drive? || stop.phase.Unlock?)
    ensures Accounted(StopAfter(m, t, stop, ok), t, NotedStop(m, t, stop, page, ok))
  {
  }

  /** Two places before the answer of one section. */
  predicate SameSection(phase: Phase, phase': Phase) {
    phase.Section? && phase'.Section? && phase.which == phase'.which && !phase.stage.Give? && !phase'.stage.Give?
  }

  lemma SectionCallsNothing(stop: StopJob, phase': Phase, r: Replies)
    requires SameSection(stop.phase, phase')
    ensures CalledSoFar(stop.(phase := phase'), r) == CalledSoFar(stop, r)
  {
    assert PastFirst(phase') == PastFirst(stop.phase) && PastVerify(phase') == PastVerify(stop.phase);
    assert PastFallback(phase') == PastFallback(stop.phase) && PastLate(phase') == PastLate(stop.phase);
  }

  lemma SectionRemembers(stop: StopJob, phase': Phase, r: Replies)
    requires SameSection(stop.phase, phase') && Remembers(stop, r) && Routed(stop, r)
    ensures Remembers(stop.(phase := phase'), r) && Routed(stop.(phase := phase'), r)
  {
  }

  lemma CallStepAccounts(m: MotorRun.State, t: TaskId, stop: StopJob, page: Page, ok: bool)
    requires Accounted(stop, t, page) && stop.phase.Section? && (stop.phase.stage.Want? || stop.phase.stage.Call?)
    ensures Accounted(StopAfter(m, t, stop, ok), t, NotedStop(m, t, stop, page, ok))
  {
    var phase' := StopAfter(m, t, stop, ok).phase;
    SectionCallsNothing(stop, phase', page.replies);
    SectionRemembers(stop, phase', page.replies);
  }

  lemma FirstReturnAccounts(m: MotorRun.State, t: TaskId, stop: StopJob, page: Page, ok: bool)
    requires Accounted(stop, t, page) && stop.phase == Section(First, Wait)
    ensures Accounted(StopAfter(m, t, stop, ok), t, NotedStop(m, t, stop, page, ok))
  {
  }

  lemma VerifyReturnCalls(m: MotorRun.State, t: TaskId, stop: StopJob, page: Page, ok: bool)
    requires Accounted(stop, t, page) && stop.phase == Section(Verify, Wait)
    ensures var page' := NotedStop(m, t, stop, page, ok);
            page'.calls == CalledSoFar(StopAfter(m, t, stop, ok), page'.replies)
  {
  }

  lemma VerifyReturnRemembers(m: MotorRun.State, t: TaskId, stop: StopJob, page: Page, ok: bool)
    requires Accounted(stop, t, page) && stop.phase == Section(Verify, Wait)
    ensures var stop', page' := StopAfter(m, t, stop, ok), NotedStop(m, t, stop, page, ok);
            Remembers(stop', page'.replies) && Routed(stop', page'.replies) && Asking(stop', t, page'.asked)
  {
  }

  lemma VerifyReturnAccounts(m: MotorRun.State, t: TaskId, stop: StopJob, page: Page, ok: bool)
    requires Accounted(stop, t, page) && stop.phase == Section(Verify, Wait)
    ensures Accounted(StopAfter(m, t, stop, ok), t, NotedStop(m, t, stop, page, ok))
  {
    VerifyReturnCalls(m, t, stop, page, ok);
    VerifyReturnRemembers(m, t, stop, page, ok);
  }

  lemma FallbackAddsCall(stop: StopJob, stop': StopJob, r: Replies, ok: bool)
    requires stop.phase == Section(Fallback, Wait) && stop'.phase == Section(Fallback, Give)
    requires stop'.action == stop.action && stop'.clear == stop.clear && NeedsFallback(stop, r)
    ensures CalledSoFar(stop', Told(r, Fallback, ok)) == CalledSoFar(stop, r) + [Motors(Global, stop.clear, false, ok)]
  {
  }

  lemma FallbackReturnCalls(m: MotorRun.State, t: TaskId, stop: StopJob, page: Page, ok: bool)
    requires Accounted(stop, t, page) && stop.phase == Section(Fallback, Wait)
    ensures var page' := NotedStop(m, t, stop, page, ok);
            page'.calls == CalledSoFar(StopAfter(m, t, stop, ok), page'.replies)
  {
    var task := StopAfter(m, t, stop, ok);
    if task != stop { FallbackAddsCall(stop, task, page.replies, !m.tasks[t].failed); }
  }

  lemma FallbackReturnRemembers(m: MotorRun.State, t: TaskId, stop: StopJob, page: Page, ok: bool)
    requires Accounted(stop, t, page) && stop.phase == Section(Fallback, Wait)
    ensures var stop', page' := StopAfter(m, t, stop, ok), NotedStop(m, t, stop, page, ok);
            Remembers(stop', page'.replies) && Routed(stop', page'.replies) && Asking(stop', t, page'.asked)
  {
  }

  lemma FallbackReturnAccounts(m: MotorRun.State, t: TaskId, stop: StopJob, page: Page, ok: bool)
    requires Accounted(stop, t, page) && stop.phase == Section(Fallback, Wait)
    ensures Accounted(StopAfter(m, t, stop, ok), t, NotedStop(m, t, stop, page, ok))
  {
    FallbackReturnCalls(m, t, stop, page, ok);
    FallbackReturnRemembers(m, t, stop, page, ok);
  }

  lemma LateAddsCall(stop: StopJob, stop': StopJob, r: Replies, ok: bool)
    requires stop.phase == Section(Late, Wait) && stop'.phase == Section(Late, Give)
    requires stop'.action == stop.action && stop'.clear == stop.clear && NeedsLate(stop, r)
    ensures CalledSoFar(stop', Told(r, Late, ok)) == CalledSoFar(stop, r) + [Motors(Global, true, false, ok)]
  {
  }

  lemma LateReturnCalls(m: MotorRun.State, t: TaskId, stop: StopJob, page: Page, ok: bool)
    requires Accounted(stop, t, page) && stop.phase == Section(Late, Wait)
    ensures var page' := NotedStop(m, t, stop, page, ok);
            page'.calls == CalledSoFar(StopAfter(m, t, stop, ok), page'.replies)
  {
    var task := StopAfter(m, t, stop, ok);
    if task != stop { LateAddsCall(stop, task, page.replies, !m.tasks[t].failed); }
  }

  lemma LateReturnRemembers(m: MotorRun.State, t: TaskId, stop: StopJob, page: Page, ok: bool)
    requires Accounted(stop, t, page) && stop.phase == Section(Late, Wait)
    ensures var stop', page' := StopAfter(m, t, stop, ok), NotedStop(m, t, stop, page, ok);
            Remembers(stop', page'.replies) && Routed(stop', page'.replies) && Asking(stop', t, page'.asked)
  {
  }

  lemma LateReturnAccounts(m: MotorRun.State, t: TaskId, stop: StopJob, page: Page, ok: bool)
    requires Accounted(stop, t, page) && stop.phase == Section(Late, Wait)
    ensures Accounted(StopAfter(m, t, stop, ok), t, NotedStop(m, t, stop, page, ok))
  {
    LateReturnCalls(m, t, stop, page, ok);
    LateReturnRemembers(m, t, stop, page, ok);
  }

  lemma FirstGiveAccounts(m: MotorRun.State, t: TaskId, stop: StopJob, page: Page, ok: bool)
    requires Accounted(stop, t, page) && stop.phase == Section(First, Give)
    ensures Accounted(StopAfter(m, t, stop, ok), t, NotedStop(m, t, stop, page, ok))
  {
  }

  lemma VerifyGiveAccounts(m: MotorRun.State, t: TaskId, stop: StopJob, page: Page, ok: bool)
    requires Accounted(stop, t, page) && stop.phase == Section(Verify, Give)
    ensures Accounted(StopAfter(m, t, stop, ok), t, NotedStop(m, t, stop, page, ok))
  {
  }

  lemma FallbackGiveAccounts(m: MotorRun.State, t: TaskId, stop: StopJob, page: Page, ok: bool)
    requires Accounted(stop, t, page) && stop.phase == Section(Fallback, Give)
    ensures Accounted(StopAfter(m, t, stop, ok), t, NotedStop(m, t, stop, page, ok))
  {
  }

  lemma LateGiveAccounts(m: MotorRun.State, t: TaskId, stop: StopJob, page: Page, ok: bool)
    requires Accounted(stop, t, page) && stop.phase == Section(Late, Give)
    ensures Accounted(StopAfter(m, t, stop, ok), t, NotedStop(m, t, stop, page, ok))
  {
  }

  lemma AutoCalls(m: MotorRun.State, t: TaskId, stop: StopJob, page: Page, ok: bool)
    requires Accounted(stop, t, page) && stop.phase.Auto?
    ensures var page' := NotedStop(m, t, stop, page, ok);
            page'.calls == CalledSoFar(StopAfter(m, t, stop, ok), page'.replies)
  {
  }

  lemma AutoRemembers(m: MotorRun.State, t: TaskId, stop: StopJob, page: Page, ok: bool)
    requires Accounted(stop, t, page) && stop.phase.Auto?
    ensures var stop', page' := StopAfter(m, t, stop, ok), NotedStop(m, t, stop, page, ok);
            Remembers(stop', page'.replies) && Routed(stop', page'.replies) && Asking(stop', t, page'.asked)
  {
  }

  lemma AutoStepAccounts(m: MotorRun.State, t: TaskId, stop: StopJob, page: Page, ok: bool)
    requires Accounted(stop, t, page) && stop.phase.Auto?
    ensures Accounted(StopAfter(m, t, stop, ok), t, NotedStop(m, t, stop, page, ok))
  {
    AutoCalls(m, t, stop, page, ok);
    AutoRemembers(m, t, stop, page, ok);
  }

  lemma SaveCalls(m: MotorRun.State, t: TaskId, stop: StopJob, page: Page, ok: bool)
    requires Accounted(stop, t, page) && stop.phase.Persist?
    ensures var page' := NotedStop(m, t, stop, page, ok);
            page'.calls == CalledSoFar(StopAfter(m, t, stop, ok), page'.replies)
  {
  }

  lemma SaveRemembers(m: MotorRun.State, t: TaskId, stop: StopJob, page: Page, ok: bool)
    requires Accounted(stop, t, page) && stop.phase.Persist?
    ensures var stop', page' := StopAfter(m, t, stop, ok), NotedStop(m, t, stop, page, ok);
            Remembers(stop', page'.replies) && Routed(stop', page'.replies) && Asking(stop', t, page'.asked)
  {
  }

  lemma SaveStepAccounts(m: MotorRun.State, t: TaskId, stop: StopJob, page: Page, ok: bool)
    requires Accounted(stop, t, page) && stop.phase.Persist?
    ensures Accounted(StopAfter(m, t, stop, ok), t, NotedStop(m, t, stop, page, ok))
  {
    SaveCalls(m, t, stop, page, ok);
    SaveRemembers(m, t, stop, page, ok);
  }

  lemma ReleaseStepAccounts(m: MotorRun.State, t: TaskId, stop: StopJob, page: Page, ok: bool)
    requires Accounted(stop, t, page) && stop.phase.Release?
    ensures Accounted(StopAfter(m, t, stop, ok), t, NotedStop(m, t, stop, page, ok))
  {
  }

  /** The transaction's own step, wherever it stands. */
  lemma StopStepAccounts(m: MotorRun.State, t: TaskId, stop: StopJob, page: Page, ok: bool)
    requires Accounted(stop, t, page) && !stop.phase.Finish?
    ensures Accounted(StopAfter(m, t, stop, ok), t, NotedStop(m, t, stop, page, ok))
  {
    if stop.phase.Section? {
      SectionStepAccounts(m, t, stop, page, ok);
    } else if stop.phase.Auto? {
      AutoStepAccounts(m, t, stop, page, ok);
    } else if stop.phase.Persist? {
      SaveStepAccounts(m, t, stop, page, ok);
    } else if stop.phase.Release? {
      ReleaseStepAccounts(m, t, stop, page, ok);
    } else {
      EarlyStepAccounts(m, t, stop, page, ok);
    }
  }

  lemma SectionStepAccounts(m: MotorRun.State, t: TaskId, stop: StopJob, page: Page, ok: bool)
    requires Accounted(stop, t, page) && stop.phase.Section?
    ensures Accounted(StopAfter(m, t, stop, ok), t, NotedStop(m, t, stop, page, ok))
  {
    match (stop.phase.which, stop.phase.stage) {
      case (First, Wait) => FirstReturnAccounts(m, t, stop, page, ok);
      case (Verify, Wait) => VerifyReturnAccounts(m, t, stop, page, ok);
      case (Fallback, Wait) => FallbackReturnAccounts(m, t, stop, page, ok);
      case (Late, Wait) => LateReturnAccounts(m, t, stop, page, ok);
      case (First, Give) => FirstGiveAccounts(m, t, stop, page, ok);
      case (Verify, Give) => VerifyGiveAccounts(m, t, stop, page, ok);
      case (Fallback, Give) => FallbackGiveAccounts(m, t, stop, page, ok);
      case (Late, Give) => LateGiveAccounts(m, t, stop, page, ok);
      case _ => CallStepAccounts(m, t, stop, page, ok);
    }
  }

  /** What the actor's step makes of its own job. */
  lemma OwnStop(s: State, t: TaskId, ok: bool)
    requires t in s.jobs && s.jobs[t].op.Stopping?
    ensures var stop, jobs' := s.jobs[t].op.stop, Next(s, Advance(t, ok)).jobs;
            && t in jobs'
            && (jobs'[t].op.Idle?
                || jobs'[t].op == Stopping(StopAfter(s.motor, t, stop, ok))
                || (jobs'[t].op == Stopping(stop) && Takes(stop.phase)))
            && (jobs'[t].op.Idle? <==> stop.phase.Finish?)
  {
  }

  lemma TakingCallsNothing(m: MotorRun.State, t: TaskId, stop: StopJob, page: Page, ok: bool)
    requires Takes(stop.phase)
    ensures NotedStop(m, t, stop, page, ok) == page
  {
  }

  lemma OwnStepKeepsBook(b: Book, t: TaskId, ok: bool)
    requires t in b.s.jobs && b.s.jobs[t].op.Stopping? && Accounted(b.s.jobs[t].op.stop, t, PageOf(b, t))
    ensures var b' := BookNext(b, Advance(t, ok));
            t in b'.s.jobs && (b'.s.jobs[t].op.Stopping? ==> Accounted(b'.s.jobs[t].op.stop, t, PageOf(b', t)))
  {
    var stop := b.s.jobs[t].op.stop;
    OwnStop(b.s, t, ok);
    if !stop.phase.Finish? {
      StopStepAccounts(b.s.motor, t, stop, PageOf(b, t), ok);
      if Takes(stop.phase) { TakingCallsNothing(b.s.motor, t, stop, PageOf(b, t), ok); }
    }
  }

  /** Other tasks' stops and pages stay. */
  lemma OthersStay(b: Book, step: Step, u: TaskId)
    requires SupervisorSafety.Actor(step) != Some(u)
    ensures var b' := BookNext(b, step);
            && (u in b'.s.jobs <==> u in b.s.jobs) && (u in b.s.jobs ==> b'.s.jobs[u] == b.s.jobs[u])
            && PageOf(b', u) == PageOf(b, u)
  {
    SupervisorSafety.OtherJobsStay(b.s, step, u);
    assert BookNext(b, step).s == Next(b.s, step) && PageOf(Noted(b, step), u) == PageOf(b, u);
  }

  /** A stop that begins has called nothing; enables and guards are no stops. */
  lemma OwnBeginKeepsBook(b: Book, step: Step, t: TaskId)
    requires SupervisorSafety.Actor(step) == Some(t)
    requires t in b.s.jobs && b.s.jobs[t].op.Stopping? ==> !step.Advance? && Accounted(b.s.jobs[t].op.stop, t, PageOf(b, t))
    ensures var b' := BookNext(b, step);
            t in b'.s.jobs && b'.s.jobs[t].op.Stopping? ==> Accounted(b'.s.jobs[t].op.stop, t, PageOf(b', t))
  {
    var s' := Next(b.s, step);
    BeginsNoOther(b.s, step, t);
    if t in s'.jobs && s'.jobs[t].op.Stopping? && step.Claim? && JobOf(b.s, t).op.Idle? {
      assert PageOf(BookNext(b, step), t) == BLANK;
      NothingCalledYet(s'.jobs[t].op.stop, t);
    }
  }

  lemma BeginsNoOther(s: State, step: Step, t: TaskId)
    requires SupervisorSafety.Actor(step) == Some(t)
    requires t in s.jobs && s.jobs[t].op.Stopping? ==> !step.Advance?
    ensures var s' := Next(s, step);
            t in s'.jobs && s'.jobs[t].op.Stopping? ==>
              || (t in s.jobs && s'.jobs[t] == s.jobs[t])
              || (step.Claim? && JobOf(s, t).op.Idle? && t !in s.motor.tasks
                  && s'.jobs[t].op.stop == StopJob(step.action, step.clear, WantLock, ALL_OK))
  {
  }

  lemma NothingCalledYet(stop: StopJob, t: TaskId)
    requires stop.phase.WantLock? && stop.out == ALL_OK
    ensures Accounted(stop, t, BLANK)
  {
  }

  lemma BookNextKeepsInv(b: Book, step: Step)
    requires BookInv(b)
    ensures BookInv(BookNext(b, step))
  {
    var b' := BookNext(b, step);
    forall t | t in b'.s.jobs && b'.s.jobs[t].op.Stopping?
      ensures Accounted(b'.s.jobs[t].op.stop, t, PageOf(b', t))
    {
      if SupervisorSafety.Actor(step) != Some(t) {
        OthersStay(b, step, t);
      } else if step.Advance? && t in b.s.jobs && b.s.jobs[t].op.Stopping? {
        OwnStepKeepsBook(b, t, step.ok);
      } else {
        OwnBeginKeepsBook(b, step, t);
      }
    }
  }

  function BookRun(b: Book, steps: seq<Step>): Book
    decreases |steps|
  {
    if steps == [] then b else BookRun(BookNext(b, steps[0]), steps[1..])
  }

  lemma {:induction false} BookRunKeepsInv(b: Book, steps: seq<Step>)
    requires BookInv(b)
    ensures BookInv(BookRun(b, steps))
    decreases |steps|
  {
    if steps != [] {
      BookNextKeepsInv(b, steps[0]);
      BookRunKeepsInv(BookNext(b, steps[0]), steps[1..]);
    }
  }

  function Open(cfg: Config, n: nat): Book { Book(SupervisorSafety.Init(cfg, n), map[]) }

  /**
   * Over every run, whatever the other tasks do: a transaction that is about to return has
   * made exactly the calls its script names, in that order and each with its own
   * arguments, and it returns ESP_OK if and only if every one of them did.
   */
  lemma StopsFollowTheirScript(cfg: Config, n: nat, steps: seq<Step>, t: TaskId)
    requires var s := BookRun(Open(cfg, n), steps).s;
             t in s.jobs && s.jobs[t].op.Stopping? && s.jobs[t].op.stop.phase.Finish?
    ensures var b := BookRun(Open(cfg, n), steps);
            var stop, page := b.s.jobs[t].op.stop, PageOf(b, t);
            && page.calls == Script(stop.action, stop.clear, page.replies)
            && (ResultOk(stop.out) <==> AllOk(page.calls))
  {
    BookRunKeepsInv(Open(cfg, n), steps);
    var b := BookRun(Open(cfg, n), steps);
    FinishedIsScript(b.s.jobs[t].op.stop, t, PageOf(b, t));
  }

  lemma FinishedIsScript(stop: StopJob, t: TaskId, page: Page)
    requires Accounted(stop, t, page) && stop.phase.Finish?
    ensures page.calls == Script(stop.action, stop.clear, page.replies)
    ensures ResultOk(stop.out) <==> AllOk(page.calls)
  {
    var r := page.replies;
    var calls := Calls(stop.action, stop.clear, r);
    ScriptOk(stop.action, stop.clear, r);
    ResultIsSafe(stop, r);
    FinishedCalls(stop, r);
    AllOkJoin(calls, if stop.action.StopPlain? && ResultOk(stop.out) then [Released(true)] else []);
  }

  lemma ResultIsSafe(stop: StopJob, r: Replies)
    requires Remembers(stop, r) && stop.phase.Finish?
    ensures ResultOk(stop.out) <==> StoppedSafely(stop.action, r) && (stop.clear ==> r.persistence)
  {
  }

  lemma FinishedCalls(stop: StopJob, r: Replies)
    requires stop.phase.Finish?
    ensures CalledSoFar(stop, r) == Calls(stop.action, stop.clear, r)
              + if stop.action.StopPlain? && ResultOk(stop.out) then [Released(true)] else []
  {
    var action, clear := stop.action, stop.clear;
    var kind := if Durable(action) then ActionKind(action) else Maintenance;
    assert FirstCalls(action, clear, r)
           == [Cut(r.off)] + [Motors(kind, clear, false, r.first)] + [Automatic(r.automatic)]
              + if Verifies(action, r) then [Motors(Plain, clear, true, r.verify)] else [];
    assert Saving(action, clear, r)
           == (if clear then [Save(r.persistence)] else [])
              + if NeedsLate(stop, r) then [Motors(Global, true, false, r.late)] else [];
  }

  /** When every call of a script succeeds. */
  lemma ScriptOk(action: Action, clear: bool, r: Replies)
    ensures AllOk(Calls(action, clear, r)) <==> StoppedSafely(action, r) && (clear ==> r.persistence)
  {
    var first, up, save := FirstCalls(action, clear, r), Escalation(action, clear, r), Saving(action, clear, r);
    AllOkJoin(first, up);
    AllOkJoin(first + up, save);
    FirstOk(action, clear, r);
    if StoppedSafely(action, r) { RestOk(action, clear, r); }
  }

  lemma AllOkJoin(a: seq<Call>, b: seq<Call>)
    ensures AllOk(a + b) <==> AllOk(a) && AllOk(b)
  {
    if AllOk(a + b) {
      forall i | 0 <= i < |a| ensures a[i].ok { assert (a + b)[i].ok; }
      forall i | 0 <= i < |b| ensures b[i].ok { assert (a + b)[|a| + i].ok; }
    }
  }

  lemma FirstOk(action: Action, clear: bool, r: Replies)
    ensures AllOk(FirstCalls(action, clear, r)) <==> StoppedSafely(action, r)
  {
    var calls := FirstCalls(action, clear, r);
    assert calls[0].ok == r.off && calls[1].ok == r.first && calls[2].ok == r.automatic;
    assert Verifies(action, r) ==> calls[3].ok == r.verify;
  }

  lemma RestOk(action: Action, clear: bool, r: Replies)
    requires StoppedSafely(action, r)
    ensures Escalation(action, clear, r) == []
    ensures AllOk(Saving(action, clear, r)) <==> (clear ==> r.persistence)
  {
    if clear { assert Saving(action, clear, r)[0] == Save(r.persistence); }
  }

  /**
   * What the script means: the interlock first, then the motors under the inhibit of the
   * action, then the automatic sources; cleared targets are saved; and a temporary stop
   * any of whose calls failed calls the motors' global inhibit.
   */
  lemma ScriptMeans(action: Action, clear: bool, r: Replies)
    ensures var calls := Script(action, clear, r);
            && |calls| >= 3 && calls[0].Cut? && calls[1].Motors? && calls[1].clear == clear && calls[2].Automatic?
            && calls[1].kind == (match action
                                 case StopGlobal => Global
                                 case StopCommunication => Communication
                                 case StopRmt => Rmt
                                 case StopTachAll => TachAll
                                 case StopPlain => Maintenance
                                 case StopVerified => Maintenance)
            && (clear <==> Save(r.persistence) in calls)
            && (action == StopPlain || action == StopVerified ==> !AllOk(calls) ==>
                  Motors(Global, clear, false, r.fallback) in calls || Motors(Global, true, false, r.late) in calls)
  {
    ScriptOk(action, clear, r);
  }
}
