/** What each motor step may do to manual targets and to the inhibits that guard them. */
module MotorChanges {
  import opened Prelude
  import opened MotorCore
  import opened MotorRun
  import opened MotorSafety
  import opened MotorLatch

  /** No inhibit is lifted. */
  predicate Tightens(c: Core, c': Core) {
    && |c'.fans| == |c.fans|
    && (c.global ==> c'.global) && (c.rmt ==> c'.rmt) && (c.communication ==> c'.communication)
    && c'.maintenance >= c.maintenance
    && forall i :: 0 <= i < |c.fans| ==> (c.fans[i].tachInhibited ==> c'.fans[i].tachInhibited)
  }

  predicate SameManual(c: Core, c': Core) {
    && |c'.fans| == |c.fans|
    && forall i :: 0 <= i < |c.fans| ==> c'.fans[i].manual == c.fans[i].manual
  }

  /** A stop of this kind has its inhibit in force on every fan. */
  predicate InForce(c: Core, kind: Kind) {
    match kind
    case Plain => true
    case Global => c.global
    case Maintenance => c.maintenance > 0
    case Communication => c.communication
    case Rmt => c.rmt
    case TachAll => forall i :: 0 <= i < |c.fans| ==> c.fans[i].tachInhibited
  }

  /** Motor steps that neither accept a manual target nor lift an inhibit. */
  predicate Quiet(step: Step) {
    !step.Manual? && !step.Restore? && !step.Tach? && !step.StopFan? && !step.ReleaseMaintenance?
  }

  predicate Entering(s: State, step: Step) {
    step.EnterSection? && step.t in s.tasks && s.tasks[step.t].StopEnter?
  }

  lemma EnterTightens(c: Core, kind: Kind, clear: bool)
    ensures Tightens(c, EnterStop(c, kind, clear))
    ensures kind != Maintenance ==> InForce(EnterStop(c, kind, clear), kind)
    ensures EnterStop(c, kind, clear).maintenance == c.maintenance
    ensures EnterStop(c, kind, clear).communication == (c.communication || kind == Communication)
  {
  }

  lemma IoTightens(s: State, t: TaskId, f: nat, ok: bool, refresh: bool)
    requires t in s.tasks && f < |s.channels| == |s.core.fans| && s.channels[f].io.Held?
    ensures var c' := IoStep(s, t, f, ok, refresh).core;
            Tightens(s.core, c') && SameManual(s.core, c') && c'.communication == s.core.communication
  {
  }

  lemma StopStepTightens(s: State, step: Step)
    requires |s.channels| == |s.core.fans| && IsStopStep(step)
    ensures Tightens(s.core, Next(s, step).core)
    ensures SameManual(s.core, Next(s, step).core) || Entering(s, step)
    ensures Next(s, step).core.communication == s.core.communication || Entering(s, step)
  {
    if Entering(s, step) { EnterTightens(s.core, s.tasks[step.t].kind, s.tasks[step.t].clear); }
  }

  lemma FanStepTightens(s: State, step: Step)
    requires |s.channels| == |s.core.fans| && IsFanStep(step) && Quiet(step)
    ensures Tightens(s.core, Next(s, step).core) && SameManual(s.core, Next(s, step).core)
    ensures Next(s, step).core.communication == s.core.communication
  {
  }

  lemma RequestTightens(s: State, step: Step)
    requires |s.channels| == |s.core.fans| && (step.Automatic? || step.Scheduled?)
    ensures Tightens(s.core, Next(s, step).core) && SameManual(s.core, Next(s, step).core)
    ensures Next(s, step).core.communication == s.core.communication
  {
  }

  /** Quiet steps only tighten; manual targets change only where a stop enters. */
  lemma QuietTightens(s: State, step: Step)
    requires |s.channels| == |s.core.fans| && Quiet(step)
    ensures var c' := Next(s, step).core;
            && Tightens(s.core, c')
            && (Entering(s, step) || (SameManual(s.core, c') && c'.communication == s.core.communication))
  {
    if IsStopStep(step) {
      StopStepTightens(s, step);
    } else if IsFanStep(step) {
      FanStepTightens(s, step);
    } else if step.Automatic? || step.Scheduled? {
      RequestTightens(s, step);
    } else if step.Io? {
      if step.t in s.tasks && Applying(s.tasks[step.t]).Some? {
        var f := Applying(s.tasks[step.t]).value;
        if f < |s.channels| && s.channels[f].io.Held? && s.channels[f].io.owner == step.t {
          IoTightens(s, step.t, f, step.ok, step.refresh);
        }
      }
    }
  }

  /** Entering puts the stop's own inhibit in force, or relies on the one it claimed. */
  lemma EntryInForce(s: State, step: Step)
    requires |s.channels| == |s.core.fans| && Entering(s, step)
    requires s.tasks[step.t].kind == Maintenance ==> s.core.maintenance > 0
    ensures InForce(Next(s, step).core, s.tasks[step.t].kind)
  {
    EnterTightens(s.core, s.tasks[step.t].kind, s.tasks[step.t].clear);
  }

  /** Every maintenance stop still on its way has been counted. */
  ghost predicate Armed(s: State) {
    forall t :: t in s.tasks && InStop(s.tasks[t]) && s.tasks[t].kind == Maintenance ==> s.core.maintenance > 0
  }

  /** A stop task was a stop before this step, or was just called. */
  lemma StopsComeFromCalls(s: State, step: Step, u: TaskId)
    requires |s.channels| == |s.core.fans| && u in Next(s, step).tasks && IsStop(Next(s, step).tasks[u])
    ensures CameFrom(s, step, u)
  {
    if IsStopStep(step) {
      StopsFromStopSteps(s, step, u);
    } else {
      StopsFromOtherSteps(s, step, u);
    }
  }

  predicate CameFrom(s: State, step: Step, u: TaskId)
    requires |s.channels| == |s.core.fans| && u in Next(s, step).tasks && IsStop(Next(s, step).tasks[u])
  {
    var task := Next(s, step).tasks[u];
    if u in s.tasks && IsStop(s.tasks[u])
    then task.kind == s.tasks[u].kind && (InStop(task) ==> InStop(s.tasks[u]))
    else step.CallStop? && step.t == u && step.kind == task.kind
         && (InStop(task) && task.kind == Maintenance ==> Next(s, step).core.maintenance > 0)
  }

  lemma StopsFromStopSteps(s: State, step: Step, u: TaskId)
    requires |s.channels| == |s.core.fans| && u in Next(s, step).tasks && IsStop(Next(s, step).tasks[u])
    requires IsStopStep(step)
    ensures CameFrom(s, step, u)
  {
  }

  lemma StopsFromOtherSteps(s: State, step: Step, u: TaskId)
    requires |s.channels| == |s.core.fans| && u in Next(s, step).tasks && IsStop(Next(s, step).tasks[u])
    requires !IsStopStep(step)
    ensures CameFrom(s, step, u)
  {
  }
}
