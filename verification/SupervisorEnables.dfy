/**
 * Everything an attempt to enable the output looks at and drives, written down beside
 * each run: it turns the line on only if nothing was claimed since its first look, asks the
 * motors again afterwards, and takes the output back if they have changed their mind.
 */
module SupervisorEnables {
  import opened Prelude
  import opened SupervisorRun
  import opened SupervisorSafety
  import MotorCore

  /** What a look at the stop bookkeeping found. */
  datatype Look = Look(depth: nat, gen: nat)

  /** One attempt: its looks, the motor module's answers, and how its writes ended. */
  datatype Attempt = Attempt(looks: seq<Look>, allowed: seq<bool>, drove: Option<bool>, undone: Option<bool>)

  const NOTHING := Attempt([], [], None, None)

  datatype Book = Book(s: State, tries: map<TaskId, Attempt>)

  function AttemptOf(b: Book, t: TaskId): Attempt { if t in b.tries then b.tries[t] else NOTHING }

  function NotedEnable(s: State, at: Enabling, a: Attempt, ok: bool): Attempt {
    match at
    case EWant => NOTHING
    case ECheck => a.(looks := a.looks + [Look(s.depth, s.gen)])
    case EAsk(_) => a.(allowed := a.allowed + [MotorCore.OutputAllowed(s.motor.core)])
    case ERecheck(_) => a.(looks := a.looks + [Look(s.depth, s.gen)])
    case EDrive => a.(drove := Some(ok))
    case EConfirm => a.(allowed := a.allowed + [MotorCore.OutputAllowed(s.motor.core)])
    case EUndo => a.(undone := Some(ok))
    case EGive => a
  }

  function Noted(b: Book, step: Step): (r: Book)
    ensures r.s == b.s
  {
    if step.Advance? && step.t in b.s.jobs && b.s.jobs[step.t].op.Enable?
    then b.(tries := b.tries[step.t := NotedEnable(b.s, b.s.jobs[step.t].op.at, AttemptOf(b, step.t), step.ok)])
    else b
  }

  function BookNext(b: Book, step: Step): Book { Noted(b, step).(s := Next(b.s, step)) }

  // ---- what an attempt has to do ----

  /** No stop is claimed, at either look, nor was one in between. */
  predicate Unclaimed(looks: seq<Look>) {
    |looks| == 2 && looks[0].depth == 0 && looks[1].depth == 0 && looks[1].gen == looks[0].gen
  }

  /** The finished attempt asked whatever it had to, and drove the line only if it might. */
  predicate Proper(a: Attempt) {
    && 1 <= |a.looks| <= 2
    && (|a.allowed| > 0 <==> a.looks[0].depth == 0)
    && (|a.looks| == 2 <==> |a.allowed| > 0 && a.allowed[0])
    && (a.drove.Some? <==> Unclaimed(a.looks))
    && (|a.allowed| == 2 <==> a.drove == Some(true)) && |a.allowed| <= 2
    && (a.undone.Some? <==> |a.allowed| == 2 && !a.allowed[1])
  }

  /** Where the attempt stands, and what it has done by then. */
  predicate Stage(at: Enabling, a: Attempt, output: bool) {
    match at
    case EWant => true
    case ECheck => a == NOTHING
    case EAsk(gen) => a == Attempt([Look(0, gen)], [], None, None)
    case ERecheck(gen) => a == Attempt([Look(0, gen)], [true], None, None)
    case EDrive => Unclaimed(a.looks) && a == Attempt(a.looks, [true], None, None)
    case EConfirm => Unclaimed(a.looks) && a == Attempt(a.looks, [true], Some(true), None) && output
    case EUndo => Unclaimed(a.looks) && a == Attempt(a.looks, [true, false], Some(true), None) && output
    case EGive =>
      && Proper(a) && (a.drove == Some(true) && a.undone != Some(true) ==> output)
      && (a.undone == Some(true) ==> !output)
  }

  ghost predicate BookInv(b: Book) {
    && Inv(b.s)
    && forall t :: t in b.s.jobs && b.s.jobs[t].op.Enable? ==> Stage(b.s.jobs[t].op.at, AttemptOf(b, t), b.s.output)
  }

  // ---- every step keeps it ----

  lemma OwnEnableStage(s: State, t: TaskId, a: Attempt, ok: bool)
    requires t in s.jobs && s.jobs[t].op.Enable? && Stage(s.jobs[t].op.at, a, s.output)
    ensures var s' := Next(s, Advance(t, ok));
            t in s'.jobs && (s'.jobs[t].op.Enable? ==>
              Stage(s'.jobs[t].op.at, NotedEnable(s, s.jobs[t].op.at, a, ok), s'.output))
  {
  }

  /** Only the owner of the mutex writes the line. */
  lemma OutputNeedsMutex(s: State, step: Step)
    requires Mutexes(s.mutex, s.jobs) && Next(s, step).output != s.output
    ensures Actor(step).Some? && s.mutex == Actor(step)
  {
    var t := Actor(step).value;
    assert t in s.jobs && Holds(s.jobs[t]);
  }

  lemma OthersStay(b: Book, step: Step, u: TaskId)
    requires Actor(step) != Some(u)
    ensures var b' := BookNext(b, step);
            && (u in b'.s.jobs <==> u in b.s.jobs) && (u in b.s.jobs ==> b'.s.jobs[u] == b.s.jobs[u])
            && AttemptOf(b', u) == AttemptOf(b, u)
  {
    OtherJobsStay(b.s, step, u);
    assert AttemptOf(Noted(b, step), u) == AttemptOf(b, u);
  }

  lemma OwnBeginStage(b: Book, step: Step, t: TaskId)
    requires Actor(step) == Some(t) && t in Next(b.s, step).jobs && Next(b.s, step).jobs[t].op.Enable?
    requires step.Advance? ==> !(t in b.s.jobs && b.s.jobs[t].op.Enable?)
    requires t in b.s.jobs && b.s.jobs[t].op.Enable? ==> Stage(b.s.jobs[t].op.at, AttemptOf(b, t), b.s.output)
    ensures var b' := BookNext(b, step); Stage(b'.s.jobs[t].op.at, AttemptOf(b', t), b'.s.output)
  {
  }

  lemma OtherStage(b: Book, step: Step, t: TaskId)
    requires Mutexes(b.s.mutex, b.s.jobs) && Actor(step) != Some(t) && t in b.s.jobs && b.s.jobs[t].op.Enable?
    requires Stage(b.s.jobs[t].op.at, AttemptOf(b, t), b.s.output)
    ensures Stage(b.s.jobs[t].op.at, AttemptOf(b, t), Next(b.s, step).output)
  {
    if Next(b.s, step).output != b.s.output { OutputNeedsMutex(b.s, step); }
  }

  lemma BookNextKeepsInv(b: Book, step: Step)
    requires BookInv(b)
    ensures BookInv(BookNext(b, step))
  {
    var b' := BookNext(b, step);
    NextKeepsInv(b.s, step);
    forall t | t in b'.s.jobs && b'.s.jobs[t].op.Enable?
      ensures Stage(b'.s.jobs[t].op.at, AttemptOf(b', t), b'.s.output)
    {
      if Actor(step) != Some(t) {
        OthersStay(b, step, t);
        OtherStage(b, step, t);
      } else if step.Advance? && t in b.s.jobs && b.s.jobs[t].op.Enable? {
        OwnEnableStage(b.s, t, AttemptOf(b, t), step.ok);
      } else {
        OwnBeginStage(b, step, t);
      }
    }
  }

  function BookRun(b: Book, steps: seq<Step>): Book
    decreases |steps|
  {
    if steps == [] then b else BookRun(BookNext(b, steps[0]), steps[1..])
  }

  lemma {:induction false} BookRunKeepsInv(b: Book, steps: seq<Step>)
    requires BookInv(b)
    ensures BookInv(BookRun(b, steps))
    decreases |steps|
  {
    if steps != [] {
      BookNextKeepsInv(b, steps[0]);
      BookRunKeepsInv(BookNext(b, steps[0]), steps[1..]);
    }
  }

  /** Each claim of a stop, and nothing else, begins a new generation. */
  lemma ClaimsRaiseGeneration(s: State, step: Step)
    ensures var s' := Next(s, step);
            s'.gen == s.gen + if step.Claim? && JobOf(s, step.t).op.Idle? && step.t !in s.motor.tasks then 1 else 0
  {
  }

  /**
   * Over every run, whatever other tasks do: an attempt that is about to return has driven
   * the line on if and only if the motor module allowed it and no stop was claimed at its
   * first look, at its second, or in between. Once the line is on it has asked the motor
   * module again, and only a refusal made it write again: then the output is off if that
   * write worked. An attempt that succeeded leaves the output on.
   */
  lemma EnablesAreProper(cfg: MotorCore.Config, n: nat, steps: seq<Step>, t: TaskId)
    requires cfg.Valid()
    requires var s := BookRun(Book(Init(cfg, n), map[]), steps).s;
             t in s.jobs && s.jobs[t].op.Enable? && s.jobs[t].op.at.EGive?
    ensures var b := BookRun(Book(Init(cfg, n), map[]), steps);
            var a := AttemptOf(b, t);
            && Proper(a)
            && (a.drove == Some(true) && a.allowed[1] ==> b.s.output)
            && (a.undone == Some(true) ==> !b.s.output)
  {
    InitIsValid(cfg, n);
    BookRunKeepsInv(Book(Init(cfg, n), map[]), steps);
  }
}
