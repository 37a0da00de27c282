/**
 * What save_sync answers and why: the writer's commits, the generations callers asked
 * for, their timeouts and their refusals are written down beside every run.
 */
module SaveAnswers {
  import opened Prelude
  import opened SaveWriter
  import opened SaveWriterSafety

  /**
   * served[g] is what the commit for generation g returned; asked[t] the generation t
   * was issued; expired are the callers whose own wait ran out, refused those turned away.
   */
  datatype Book<E> = Book(
    s: State<E>, served: map<nat, bool>, asked: map<TaskId, nat>, expired: set<TaskId>, refused: set<TaskId>)

  /** The caller has nothing to go on but its own clock. */
  predicate Pending<E>(s: State<E>, c: Caller) {
    match c
    case Admitted => s.mutex.Some?
    case Check(gen, _) => s.done != gen
    case Sleep(_, _) => !s.token
    case _ => false
  }

  function BookCaller<E>(b: Book<E>, t: TaskId, timeout: bool): Book<E>
    requires WellFormed(b.s) && t in b.s.callers
  {
    var c := b.s.callers[t];
    if c.Admitted? && b.s.mutex.None? then b.(asked := b.asked[t := b.s.req + 1])
    else if timeout && Pending(b.s, c) then b.(expired := b.expired + {t})
    else b
  }

  /** What is written down of a step; the step itself knows nothing of it. */
  function Noted<E>(b: Book<E>, step: Step<E>): (r: Book<E>)
    requires WellFormed(b.s)
    ensures r.s == b.s
  {
    match step
    case Enter(t, admitted) =>
      if t in b.s.callers then b
      else b.(asked := b.asked - {t}, expired := b.expired - {t},
              refused := if admitted then b.refused - {t} else b.refused + {t})
    case CallerStep(t, timeout) => if t in b.s.callers then BookCaller(b, t, timeout) else b
    case WriterStep(ok) =>
      if b.s.writer.Commit? && b.s.writer.gen.Some? then b.(served := b.served[b.s.writer.gen.value := ok]) else b
    case _ => b
  }

  function Next<E>(b: Book<E>, step: Step<E>): Book<E>
    requires WellFormed(b.s)
  {
    Noted(b, step).(s := SaveWriter.Next(b.s, step))
  }

  // ---- the invariant ----

  /** The commit for the generation t asked for is over, and returned ok. */
  predicate Answered<E>(b: Book<E>, t: TaskId, ok: bool) {
    && t in b.asked && b.asked[t] <= b.s.done
    && b.asked[t] in b.served && b.served[b.asked[t]] == ok
  }

  /** The caller's answer, or its absence, has its reason. */
  predicate Explained<E>(b: Book<E>, t: TaskId, c: Caller) {
    && (c.Issued? || c.Check? || c.Sleep? ==> t in b.asked && b.asked[t] == c.gen)
    && (c.GiveMutex? || c.Done? ==>
          if c.ok then Answered(b, t, true) && t !in b.expired && t !in b.refused
          else Answered(b, t, false) || t in b.expired || t in b.refused)
    && (c.Admitted? || c.Issued? || c.Check? || c.Sleep? ==> t !in b.expired && t !in b.refused)
  }

  ghost predicate AllExplained<E>(b: Book<E>) {
    forall t :: t in b.s.callers ==> Explained(b, t, b.s.callers[t])
  }

  /** What the writer is about to report, and what it last reported, is what was committed. */
  predicate Reported<E>(b: Book<E>) {
    && (b.s.writer.Complete? && b.s.writer.gen.Some? ==>
          b.s.writer.gen.value in b.served && b.served[b.s.writer.gen.value] == b.s.writer.ok)
    && (b.s.done > 0 ==> b.s.done in b.served && b.served[b.s.done] == b.s.result)
  }

  /** A caller asleep over a completed generation has its token, or the writer is giving it. */
  ghost predicate Woken<E>(s: State<E>) {
    forall t :: t in s.callers && s.callers[t].Sleep? && s.done == s.callers[t].gen ==>
      s.token || s.writer.GiveToken?
  }

  ghost predicate BookInv<E>(b: Book<E>) {
    SaveWriter.Inv(b.s) && AllExplained(b) && Reported(b) && Woken(b.s)
  }

  // ---- every step keeps it ----

  /** Only the owner of the mutex is ever asleep. */
  lemma SleeperOwns<E>(s: State<E>, t: TaskId)
    requires SaveWriter.Inv(s) && t in s.callers && InSync(s.callers[t])
    ensures s.mutex == Some(t)
  {
    assert CallerValid(s, t, s.callers[t]);
  }

  /** Where the caller stands before its step, with what is known of it. */
  predicate Known<E>(b: Book<E>, t: TaskId) {
    && WellFormed(b.s) && b.s.done <= b.s.req && Reported(b) && t in b.s.callers
    && Explained(b, t, b.s.callers[t]) && CallerValid(b.s, t, b.s.callers[t])
  }

  /** The caller's own step explains what it leads to. */
  lemma CallerIsExplained<E>(b: Book<E>, t: TaskId, timeout: bool)
    requires Known(b, t)
    ensures t in Next(b, CallerStep(t, timeout)).s.callers
    ensures Explained(Next(b, CallerStep(t, timeout)), t, Next(b, CallerStep(t, timeout)).s.callers[t])
  {
    if b.s.callers[t].Check? || b.s.callers[t].Sleep? {
      WaiterIsExplained(b, t, timeout);
    } else if b.s.callers[t].Admitted? {
      AdmittedIsExplained(b, t, timeout);
    } else {
      LeaverIsExplained(b, t, timeout);
    }
  }

  lemma WaiterIsExplained<E>(b: Book<E>, t: TaskId, timeout: bool)
    requires Known(b, t) && (b.s.callers[t].Check? || b.s.callers[t].Sleep?)
    ensures t in Next(b, CallerStep(t, timeout)).s.callers
    ensures Explained(Next(b, CallerStep(t, timeout)), t, Next(b, CallerStep(t, timeout)).s.callers[t])
  {
  }

  lemma AdmittedIsExplained<E>(b: Book<E>, t: TaskId, timeout: bool)
    requires Known(b, t) && b.s.callers[t].Admitted?
    ensures t in Next(b, CallerStep(t, timeout)).s.callers
    ensures Explained(Next(b, CallerStep(t, timeout)), t, Next(b, CallerStep(t, timeout)).s.callers[t])
  {
    if b.s.mutex.None? { IssueIsExplained(b, t, timeout); } else { DoorIsExplained(b, t, timeout); }
  }

  lemma IssueIsExplained<E>(b: Book<E>, t: TaskId, timeout: bool)
    requires Known(b, t) && b.s.callers[t].Admitted? && b.s.mutex.None?
    ensures Next(b, CallerStep(t, timeout)) == b.(s := Issue(b.s, t), asked := b.asked[t := b.s.req + 1])
    ensures Explained(Next(b, CallerStep(t, timeout)), t, Issued(b.s.req + 1, Now(b.s)))
  {
  }

  lemma DoorIsExplained<E>(b: Book<E>, t: TaskId, timeout: bool)
    requires Known(b, t) && b.s.callers[t].Admitted? && b.s.mutex.Some?
    ensures t in Next(b, CallerStep(t, timeout)).s.callers
    ensures Explained(Next(b, CallerStep(t, timeout)), t, Next(b, CallerStep(t, timeout)).s.callers[t])
  {
  }

  lemma LeaverIsExplained<E>(b: Book<E>, t: TaskId, timeout: bool)
    requires Known(b, t) && (b.s.callers[t].Issued? || b.s.callers[t].GiveMutex? || b.s.callers[t].Done?)
    ensures t in Next(b, CallerStep(t, timeout)).s.callers
    ensures Explained(Next(b, CallerStep(t, timeout)), t, Next(b, CallerStep(t, timeout)).s.callers[t])
  {
  }

  lemma CallerKeepsAnswers<E>(b: Book<E>, t: TaskId, timeout: bool)
    requires WellFormed(b.s) && t in b.s.callers
    ensures var b' := Next(b, CallerStep(t, timeout));
            && b'.s.done == b.s.done && b'.served == b.served && b'.s.result == b.s.result
            && b'.s.writer == b.s.writer && b'.refused == b.refused && t in b'.s.callers
  {
    CallerLeavesWriter(b.s, t, timeout);
    assert BookCaller(b, t, timeout).served == b.served && BookCaller(b, t, timeout).refused == b.refused;
  }

  lemma CallerLeavesWriter<E>(s: State<E>, t: TaskId, timeout: bool)
    requires WellFormed(s) && t in s.callers
    ensures var s' := CallerNext(s, t, timeout);
            s'.done == s.done && s'.result == s.result && s'.writer == s.writer && t in s'.callers
  {
  }

  lemma CallerKeepsOthers<E>(b: Book<E>, t: TaskId, timeout: bool, u: TaskId)
    requires WellFormed(b.s) && t in b.s.callers && u != t
    ensures var b' := Next(b, CallerStep(t, timeout));
            && (u in b'.s.callers <==> u in b.s.callers) && (u in b.s.callers ==> b'.s.callers[u] == b.s.callers[u])
            && (u in b'.asked <==> u in b.asked) && (u in b.asked ==> b'.asked[u] == b.asked[u])
            && (u in b'.expired <==> u in b.expired) && b'.refused == b.refused
  {
  }

  lemma CallerKeepsBook<E>(b: Book<E>, t: TaskId, timeout: bool)
    requires BookInv(b) && t in b.s.callers
    ensures BookInv(Next(b, CallerStep(t, timeout)))
  {
    var b' := Next(b, CallerStep(t, timeout));
    SaveWriterSafety.NextKeepsInv(b.s, CallerStep(t, timeout));
    assert Explained(b, t, b.s.callers[t]) && CallerValid(b.s, t, b.s.callers[t]);
    CallerIsExplained(b, t, timeout);
    CallerKeepsAnswers(b, t, timeout);
    forall u | u in b'.s.callers ensures Explained(b', u, b'.s.callers[u]) {
      if u != t {
        CallerKeepsOthers(b, t, timeout, u);
        assert Explained(b, u, b.s.callers[u]);
      }
    }
    CallerKeepsWoken(b, t, timeout);
  }

  lemma CallerKeepsWoken<E>(b: Book<E>, t: TaskId, timeout: bool)
    requires SaveWriter.Inv(b.s) && Woken(b.s) && t in b.s.callers
    ensures Woken(Next(b, CallerStep(t, timeout)).s)
  {
    var s' := Next(b, CallerStep(t, timeout)).s;
    SaveWriterSafety.NextKeepsInv(b.s, CallerStep(t, timeout));
    CallerKeepsAnswers(b, t, timeout);
    forall u | u in s'.callers && s'.callers[u].Sleep? && s'.done == s'.callers[u].gen
      ensures s'.token || s'.writer.GiveToken?
    {
      SleeperOwns(s', u);
      if u != t {
        CallerKeepsOthers(b, t, timeout, u);
        SleeperOwns(b.s, u);
        OtherKeepsToken(b.s, t, timeout);
      } else {
        StillAsleep(b.s, t, timeout);
      }
    }
  }

  lemma StillAsleep<E>(s: State<E>, t: TaskId, timeout: bool)
    requires WellFormed(s) && t in s.callers
    ensures var s' := CallerNext(s, t, timeout);
            t in s'.callers && s'.callers[t].Sleep? && s.done == s'.callers[t].gen ==>
              s.callers[t] == s'.callers[t] && !s.token
  {
  }

  /** Whoever does not own the mutex leaves the token alone. */
  lemma OtherKeepsToken<E>(s: State<E>, t: TaskId, timeout: bool)
    requires SaveWriter.Inv(s) && t in s.callers && s.mutex != Some(t)
    ensures s.mutex.Some? ==> CallerNext(s, t, timeout).token == s.token
  {
    assert CallerValid(s, t, s.callers[t]);
  }

  lemma WriterKeepsBook<E>(b: Book<E>, ok: bool)
    requires BookInv(b)
    ensures BookInv(Next(b, WriterStep(ok)))
  {
    var b' := Next(b, WriterStep(ok));
    SaveWriterSafety.NextKeepsInv(b.s, WriterStep(ok));
    WriterReports(b, ok);
    forall u | u in b'.s.callers ensures Explained(b', u, b'.s.callers[u]) {
      assert Explained(b, u, b.s.callers[u]);
      assert CallerValid(b.s, u, b.s.callers[u]);
    }
  }

  /** What a writer step leaves of the book that callers rely on. */
  ghost predicate Extends<E>(b: Book<E>, b': Book<E>) {
    && b'.s.callers == b.s.callers && b.s.done <= b'.s.done
    && b'.asked == b.asked && b'.expired == b.expired && b'.refused == b.refused
    && forall g :: 0 <= g <= b.s.done && g in b.served ==> g in b'.served && b'.served[g] == b.served[g]
  }

  lemma WriterReports<E>(b: Book<E>, ok: bool)
    requires WellFormed(b.s) && WriterValid(b.s) && Reported(b) && Woken(b.s)
    ensures Reported(Next(b, WriterStep(ok))) && Woken(Next(b, WriterStep(ok)).s)
    ensures Extends(b, Next(b, WriterStep(ok)))
  {
    WriterKeepsCallers(b.s, ok);
    if Waits(b.s.writer) {
      WaitReports(b, ok);
    } else if b.s.writer.Commit? {
      CommitReports(b, ok);
    } else {
      SaveReports(b, ok);
    }
  }

  lemma WaitReports<E>(b: Book<E>, ok: bool)
    requires WellFormed(b.s) && Waits(b.s.writer) && Reported(b) && Woken(b.s)
    ensures Reported(Next(b, WriterStep(ok))) && Woken(Next(b, WriterStep(ok)).s)
    ensures Extends(b, Next(b, WriterStep(ok)))
  {
    WaitKeepsAnswers(b.s);
    assert Next(b, WriterStep(ok)) == b.(s := WaitNext(b.s));
  }

  lemma WaitKeepsAnswers<E>(s: State<E>)
    requires WellFormed(s) && Waits(s.writer)
    ensures var s' := WaitNext(s);
            && s'.done == s.done && s'.result == s.result && s'.token == s.token && s'.callers == s.callers
            && !s'.writer.Complete? && !s.writer.GiveToken?
  {
  }

  /** The outcome of the commit is written down under a generation not completed so far. */
  lemma CommitReports<E>(b: Book<E>, ok: bool)
    requires WellFormed(b.s) && WriterValid(b.s) && b.s.writer.Commit? && Reported(b) && Woken(b.s)
    ensures Reported(Next(b, WriterStep(ok))) && Woken(Next(b, WriterStep(ok)).s)
    ensures Extends(b, Next(b, WriterStep(ok)))
  {
    var b' := Next(b, WriterStep(ok));
    assert b'.s.done == b.s.done && b'.s.result == b.s.result && b'.s.token == b.s.token;
    assert b'.s.callers == b.s.callers && !b'.s.writer.GiveToken?;
  }

  lemma SaveReports<E>(b: Book<E>, ok: bool)
    requires WellFormed(b.s) && WriterValid(b.s) && Reported(b) && Woken(b.s)
    requires b.s.writer.Collect? || b.s.writer.Complete? || b.s.writer.GiveToken?
    ensures Reported(Next(b, WriterStep(ok))) && Woken(Next(b, WriterStep(ok)).s)
    ensures Extends(b, Next(b, WriterStep(ok)))
  {
    assert Next(b, WriterStep(ok)) == b.(s := SaveNext(b.s, ok));
    if b.s.writer.Complete? { CompletionAnswers(b.s, ok); } else { SaveKeepsAnswers(b.s, ok); }
  }

  lemma CompletionAnswers<E>(s: State<E>, ok: bool)
    requires WellFormed(s) && WriterValid(s) && s.writer.Complete?
    ensures var s' := SaveNext(s, ok);
            && s'.done == s.writer.gen.value && s'.result == s.writer.ok && s'.callers == s.callers
            && s'.writer.GiveToken? && s.done < s'.done
  {
  }

  lemma SaveKeepsAnswers<E>(s: State<E>, ok: bool)
    requires WellFormed(s) && (s.writer.Collect? || s.writer.GiveToken?)
    ensures var s' := SaveNext(s, ok);
            && s'.done == s.done && s'.result == s.result && (s'.token == (s.token || s.writer.GiveToken?))
            && s'.callers == s.callers && !s'.writer.Complete?
  {
  }

  lemma EnterKeepsBook<E>(b: Book<E>, t: TaskId, admitted: bool)
    requires BookInv(b)
    ensures BookInv(Next(b, Enter(t, admitted)))
  {
    if t in b.s.callers { return; }
    var b' := Next(b, Enter(t, admitted));
    SaveWriterSafety.NextKeepsInv(b.s, Enter(t, admitted));
    forall u | u in b'.s.callers ensures Explained(b', u, b'.s.callers[u]) {
      if u != t { assert Explained(b, u, b.s.callers[u]); }
    }
    forall u | u in b'.s.callers && b'.s.callers[u].Sleep? ensures u in b.s.callers && b.s.callers[u].Sleep? {}
  }

  lemma LeaveKeepsBook<E>(b: Book<E>, t: TaskId)
    requires BookInv(b)
    ensures BookInv(Next(b, Leave(t)))
  {
    if t !in b.s.callers || !b.s.callers[t].Done? { return; }
    var b' := Next(b, Leave(t));
    SaveWriterSafety.NextKeepsInv(b.s, Leave(t));
    forall u | u in b'.s.callers ensures Explained(b', u, b'.s.callers[u]) {
      assert Explained(b, u, b.s.callers[u]);
    }
    forall u | u in b'.s.callers && b'.s.callers[u].Sleep? ensures u in b.s.callers && b.s.callers[u].Sleep? {}
  }

  lemma EditorKeepsBook<E>(b: Book<E>, step: Step<E>)
    requires BookInv(b) && (step.Edit? || step.Notify?)
    ensures BookInv(Next(b, step))
  {
    var b' := Next(b, step);
    SaveWriterSafety.NextKeepsInv(b.s, step);
    forall u | u in b'.s.callers ensures Explained(b', u, b'.s.callers[u]) {
      assert Explained(b, u, b.s.callers[u]);
    }
  }

  lemma NextKeepsBook<E>(b: Book<E>, step: Step<E>)
    requires BookInv(b)
    ensures BookInv(Next(b, step))
  {
    match step {
      case CallerStep(t, timeout) => if t in b.s.callers { CallerKeepsBook(b, t, timeout); }
      case WriterStep(ok) => WriterKeepsBook(b, ok);
      case Enter(t, admitted) => EnterKeepsBook(b, t, admitted);
      case Leave(t) => LeaveKeepsBook(b, t);
      case _ => EditorKeepsBook(b, step);
    }
  }

  // ---- whole runs ----

  function Open<E>(boundary: bool, cells: seq<E>): Book<E> {
    Book(SaveWriterSafety.Init(boundary, cells), map[], map[], {}, {})
  }

  function Run<E>(b: Book<E>, steps: seq<Step<E>>): Book<E>
    requires WellFormed(b.s)
    decreases |steps|
  {
    if steps == [] then b else
    var next := Next(b, steps[0]);
    if WellFormed(next.s) then Run(next, steps[1..]) else b
  }

  lemma {:induction false} RunKeepsBook<E>(b: Book<E>, steps: seq<Step<E>>)
    requires BookInv(b)
    ensures BookInv(Run(b, steps))
    decreases |steps|
  {
    if steps != [] {
      NextKeepsBook(b, steps[0]);
      RunKeepsBook(Next(b, steps[0]), steps[1..]);
    }
  }

  /**
   * Over every run from the writer's start: a caller that has its answer was told ESP_OK
   * if and only if the commit that served its own generation succeeded, unless it was
   * turned away at the door or its own wait ran out; and neither of these happened to a
   * caller that was told ESP_OK.
   */
  lemma AnswersAreTheCommits<E>(boundary: bool, cells: seq<E>, steps: seq<Step<E>>, t: TaskId)
    requires var s := Run(Open(boundary, cells), steps).s;
             t in s.callers && (s.callers[t].GiveMutex? || s.callers[t].Done?)
    ensures var b := Run(Open(boundary, cells), steps);
            if t in b.refused || t in b.expired then !b.s.callers[t].ok
            else && t in b.asked && b.asked[t] in b.served
                 && (b.s.callers[t].ok <==> b.served[b.asked[t]])
  {
    SaveWriterSafety.InitIsValid(boundary, cells);
    RunKeepsBook(Open(boundary, cells), steps);
    var b := Run(Open(boundary, cells), steps);
    assert Explained(b, t, b.s.callers[t]);
  }

  /**
   * A caller that finds its generation completed takes the answer of the commit that
   * served it, even if its time is up; and one that sleeps over a completed generation
   * does not sleep on: the token is there, or the writer's next step gives it.
   */
  lemma CompletedSavesAreAnswered<E>(b: Book<E>, t: TaskId, timeout: bool, ok: bool)
    requires BookInv(b) && t in b.s.callers
    ensures b.s.callers[t].Check? && b.s.done == b.s.callers[t].gen ==>
              var c := b.s.callers[t];
              && c.gen in b.served
              && t in Next(b, CallerStep(t, timeout)).s.callers
              && Next(b, CallerStep(t, timeout)).s.callers[t] == GiveMutex(b.served[c.gen], c.at)
    ensures b.s.callers[t].Sleep? && b.s.done == b.s.callers[t].gen ==>
              var s := if b.s.token then b.s else Next(b, WriterStep(ok)).s;
              WellFormed(s) && t in s.callers && s.callers[t] == b.s.callers[t] &&
              var s' := SaveWriter.Next(s, CallerStep(t, timeout));
              t in s'.callers && s'.callers[t] == Check(s.callers[t].gen, s.callers[t].at)
  {
    assert CallerValid(b.s, t, b.s.callers[t]);
    var c := b.s.callers[t];
    if c.Check? && b.s.done == c.gen { CheckTakesAnswer(b, t, timeout); }
    if c.Sleep? && b.s.done == c.gen { SleeperWakes(b, t, timeout, ok); }
  }

  lemma CheckTakesAnswer<E>(b: Book<E>, t: TaskId, timeout: bool)
    requires WellFormed(b.s) && Reported(b) && t in b.s.callers && b.s.callers[t].Check?
    requires b.s.done == b.s.callers[t].gen > 0
    ensures var c, s' := b.s.callers[t], Next(b, CallerStep(t, timeout)).s;
            c.gen in b.served && t in s'.callers && s'.callers[t] == GiveMutex(b.served[c.gen], c.at)
  {
  }

  lemma SleeperWakes<E>(b: Book<E>, t: TaskId, timeout: bool, ok: bool)
    requires WellFormed(b.s) && t in b.s.callers && b.s.callers[t].Sleep? && (b.s.token || b.s.writer.GiveToken?)
    ensures var c, s := b.s.callers[t], if b.s.token then b.s else Next(b, WriterStep(ok)).s;
            WellFormed(s) && t in s.callers && s.callers[t] == c &&
            var s' := SaveWriter.Next(s, CallerStep(t, timeout));
            t in s'.callers && s'.callers[t] == Check(c.gen, c.at)
  {
    var s := if b.s.token then b.s else Next(b, WriterStep(ok)).s;
    assert s.token && s.callers == b.s.callers && WellFormed(s);
  }
}
