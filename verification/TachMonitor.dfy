/** The fault section of sample_fan and tach_monitor_clear_alarm (main/tach_monitor.c). */
module TachMonitor {
  import opened Prelude
  import opened TachActions

  /** What one sample of a fan showed. */
  datatype Kind = Invalid | Stalled | Healthy

  datatype Sample = Sample(now: nat, kind: Kind)

  datatype Limits = Limits(debounce: nat, invalidTimeout: nat)

  datatype Policy = AlarmOnly | StopFan | StopAll

  /** Configuration and the motor snapshot a sample is judged by. */
  datatype Rules = Rules(stallRpm: nat, pulsesPerRev: nat, grace: nat)

  datatype Motor = Motor(applied: nat, nonzeroSince: nat)

  function Rpm(pulses: nat, elapsed: nat, pulsesPerRev: nat): nat {
    if elapsed * pulsesPerRev == 0 then 0 else
    var rpm := pulses * 60000000 / (elapsed * pulsesPerRev);
    if rpm > UINT32_MAX then UINT32_MAX else rpm
  }

  /** The motor has been driven for the whole startup grace. */
  predicate Started(rules: Rules, motor: Motor, now: nat) {
    motor.applied > 0 && motor.nonzeroSince > 0 && now - motor.nonzeroSince >= rules.grace
  }

  /** How sample_fan judges a reading, if there is one, of a fan whose motor it could look at, or not. */
  function KindOf(rules: Rules, pulses: Option<nat>, elapsed: nat, motor: Option<Motor>, now: nat): Kind {
    if motor.None? then Invalid
    else if !Started(rules, motor.value, now) then Healthy
    else if pulses.None? then Invalid
    else if Rpm(pulses.value, elapsed, rules.pulsesPerRev) < rules.stallRpm then Stalled
    else Healthy
  }

  /** A stall is a started motor that turned slower than the limit, said without dividing. */
  lemma StalledMeansTooSlow(rules: Rules, pulses: Option<nat>, elapsed: nat, motor: Option<Motor>, now: nat)
    requires elapsed > 0 && rules.pulsesPerRev > 0 && rules.stallRpm <= UINT32_MAX
    ensures KindOf(rules, pulses, elapsed, motor, now) == Stalled <==>
            && motor.Some? && Started(rules, motor.value, now) && pulses.Some?
            && pulses.value * 60000000 < rules.stallRpm * (elapsed * rules.pulsesPerRev)
  {
    var d := elapsed * rules.pulsesPerRev;
    assert d > 0;
    if pulses.Some? { QuotientBelow(pulses.value * 60000000, d, rules.stallRpm); }
  }

  lemma QuotientBelow(n: nat, d: nat, limit: nat)
    requires d > 0
    ensures n / d < limit <==> n < limit * d
  {
    var q, r := n / d, n % d;
    assert n == d * q + r && r < d;
    if q < limit {
      ProductGrows(d, q + 1, limit);
    } else {
      ProductGrows(d, limit, q);
    }
  }

  lemma ProductGrows(d: nat, a: nat, b: nat)
    requires a <= b
    ensures d * a <= d * b && a * d == d * a && b * d == d * b && d * (a + 1) == d * a + d
  {
    assert d * b == d * a + d * (b - a);
  }

  /** Zero since-times mean "not since anything". */
  datatype Watch = Watch(fault: Fault, count: nat, stallSince: nat, invalidSince: nat)

  const CLEAN := Watch(Fault(false, false, NoFault, 0), 0, 0, 0)

  function Since(since: nat, now: nat): nat { if since == 0 then now else since }

  function Raised(w: Watch, cause: Cause): Watch {
    w.(fault := w.fault.(alarm := true, cause := cause, generation := w.fault.generation + 1),
       count := Increment(w.count))
  }

  function Increment(n: nat): nat { if n < UINT32_MAX then n + 1 else n }

  /** The section's effect on the sampled fan, before the policy latches anything. */
  function Watched(w: Watch, limits: Limits, s: Sample): Watch {
    match s.kind
    case Invalid =>
      var seen := w.(invalidSince := Since(w.invalidSince, s.now));
      if !seen.fault.alarm && s.now - seen.invalidSince >= limits.invalidTimeout
      then Raised(seen, SensorInvalid) else seen
    case Stalled =>
      var seen := w.(invalidSince := 0, stallSince := Since(w.stallSince, s.now));
      if !seen.fault.alarm && s.now - seen.stallSince >= limits.debounce then Raised(seen, Stall) else seen
    case Healthy =>
      var seen := w.(invalidSince := 0, stallSince := 0);
      if w.fault.latched then seen else seen.(fault := seen.fault.(alarm := false, cause := NoFault))
  }

  predicate NewlyFaulted(w: Watch, limits: Limits, s: Sample) {
    Watched(w, limits, s).fault.generation > w.fault.generation
  }

  function Latched(w: Watch): Watch { w.(fault := w.fault.(latched := true)) }

  /** All fans after a sample of fan f: the configured action says whom a new fault latches. */
  function Sampled(ws: seq<Watch>, f: nat, policy: Policy, limits: Limits, s: Sample): seq<Watch>
    requires f < |ws|
  {
    var after := ws[f := Watched(ws[f], limits, s)];
    if !NewlyFaulted(ws[f], limits, s) || policy.AlarmOnly? then after
    else if policy.StopFan? then after[f := Latched(after[f])]
    else seq(|ws|, i requires 0 <= i < |ws| => Latched(after[i]))
  }

  function Cleared(w: Watch): Watch {
    Watch(Fault(false, false, NoFault, w.fault.generation + 1), w.count, 0, 0)
  }

  /** Generations only grow, so what ClearAlarm left behind stays behind. */
  lemma {:induction false} GenerationsGrow(w: Watch, limits: Limits, samples: seq<Sample>)
    ensures Watches(w, limits, samples).fault.generation >= w.fault.generation
  {
    if samples != [] { GenerationsGrow(w, limits, samples[..|samples| - 1]); }
  }

  /** Under STOP_FAN a sample is exactly a Fails or Recovers step of the fault's path to the worker. */
  lemma SamplesAreFaultSteps(ws: seq<Watch>, f: nat, limits: Limits, s: Sample)
    requires f < |ws| && (ws[f].fault.alarm <==> ws[f].fault.latched)
    ensures var w, w' := ws[f], Sampled(ws, f, StopFan, limits, s)[f];
            if NewlyFaulted(w, limits, s) then
              !w.fault.alarm && w'.fault.cause != NoFault
              && w'.fault == Fault(true, true, w'.fault.cause, w.fault.generation + 1)
            else w'.fault == w.fault || w'.fault == w.fault.(alarm := false, cause := NoFault)
    ensures forall i :: 0 <= i < |ws| && i != f ==> Sampled(ws, f, StopFan, limits, s)[i] == ws[i]
  {
  }

  class Monitor {
    const fans: array<Watch>
    const policy: Policy
    const limits: Limits

    constructor (count: nat, policy: Policy, limits: Limits)
      ensures fresh(fans) && fans.Length == count && this.policy == policy && this.limits == limits
      ensures forall f :: 0 <= f < count ==> fans[f] == CLEAN
    {
      fans := new Watch[count](_ => CLEAN);
      this.policy, this.limits := policy, limits;
    }

    /** latch_configured_stall_action_locked. */
    method LatchAction(f: nat)
      requires f < fans.Length
      modifies fans
      ensures forall i :: 0 <= i < fans.Length ==>
                fans[i] == if policy.StopAll? || (policy.StopFan? && i == f) then Latched(old(fans[i])) else old(fans[i])
    {
      if policy.StopAll? {
        var i := 0;
        while i < fans.Length
          invariant 0 <= i <= fans.Length
          invariant forall j :: 0 <= j < i ==> fans[j] == Latched(old(fans[j]))
          invariant forall j :: i <= j < fans.Length ==> fans[j] == old(fans[j])
        {
          fans[i] := Latched(fans[i]);
          i := i + 1;
        }
      } else if policy.StopFan? {
        fans[f] := Latched(fans[f]);
      }
    }

    /** The critical section of sample_fan; true means the callback must be told. */
    method UpdateFault(f: nat, now: nat, invalid: bool, stalled: bool) returns (newlyFaulted: bool)
      requires f < fans.Length
      modifies fans
      ensures var s := Sample(now, if invalid then Invalid else if stalled then Stalled else Healthy);
              && newlyFaulted == NewlyFaulted(old(fans[f]), limits, s)
              && fans[..] == Sampled(old(fans[..]), f, policy, limits, s)
    {
      ghost var before := fans[..];
      ghost var s := Sample(now, if invalid then Invalid else if stalled then Stalled else Healthy);
      newlyFaulted := false;
      if invalid {
        if fans[f].invalidSince == 0 { fans[f] := fans[f].(invalidSince := now); }
        if !fans[f].fault.alarm && now - fans[f].invalidSince >= limits.invalidTimeout {
          fans[f] := Raised(fans[f], SensorInvalid);
          newlyFaulted := true;
        }
      } else if stalled {
        fans[f] := fans[f].(invalidSince := 0);
        if fans[f].stallSince == 0 { fans[f] := fans[f].(stallSince := now); }
        if !fans[f].fault.alarm && now - fans[f].stallSince >= limits.debounce {
          fans[f] := Raised(fans[f], Stall);
          newlyFaulted := true;
        }
      } else {
        fans[f] := fans[f].(invalidSince := 0, stallSince := 0);
        if !fans[f].fault.latched { fans[f] := fans[f].(fault := fans[f].fault.(alarm := false, cause := NoFault)); }
      }
      assert fans[f] == Watched(before[f], limits, s);
      ghost var after := before[f := Watched(before[f], limits, s)];
      assert fans[..] == after;
      if newlyFaulted { LatchAction(f); }
      assert fans[..] == Sampled(before, f, policy, limits, s);
    }

    /**
     * tach_monitor_clear_alarm: whatever was raised before is over. No notice sent so
     * far tells of a current fault, whenever it is delivered, and a new fault needs its
     * whole debounce time again.
     */
    method ClearAlarm(f: int) returns (ok: bool)
      modifies fans
      ensures ok == (0 <= f < fans.Length)
      ensures ok ==> forall n: Notice, later: Fault ::
                n.generation <= old(fans[f].fault.generation) && later.generation >= fans[f].fault.generation ==>
                  !Tells(n, later)
      ensures ok ==> !fans[f].fault.alarm && !fans[f].fault.latched && fans[f].count == old(fans[f].count)
      ensures ok && limits.debounce > 0 && limits.invalidTimeout > 0 ==>
                forall s: Sample :: !NewlyFaulted(fans[f], limits, s)
      ensures fans[..] == if ok then old(fans[..])[f := Cleared(old(fans[..])[f])] else old(fans[..])
    {
      ok := 0 <= f < fans.Length;
      if ok { fans[f] := Cleared(fans[f]); }
    }
  }

  // ---- debouncing over sequences of samples ----

  function Watches(w: Watch, limits: Limits, samples: seq<Sample>): Watch {
    if samples == [] then w
    else Watched(Watches(w, limits, samples[..|samples| - 1]), limits, samples[|samples| - 1])
  }

  /** From sample k on nothing healthy was seen; k itself was of this kind. */
  predicate SeenSince(samples: seq<Sample>, k: nat, since: nat, kind: Kind) {
    k < |samples| && samples[k] == Sample(since, kind)
    && forall i :: k <= i < |samples| ==> samples[i].kind == kind || (kind.Stalled? && samples[i].kind.Invalid?)
  }

  lemma {:induction false} SincesAreSeen(limits: Limits, samples: seq<Sample>)
    requires forall i :: 0 <= i < |samples| ==> samples[i].now > 0
    ensures var w := Watches(CLEAN, limits, samples);
            && (w.stallSince > 0 ==> exists k :: 0 <= k < |samples| && SeenSince(samples, k, w.stallSince, Stalled))
            && (w.invalidSince > 0 ==> exists k :: 0 <= k < |samples| && SeenSince(samples, k, w.invalidSince, Invalid))
  {
    if samples != [] {
      var last := |samples| - 1;
      var before, w := Watches(CLEAN, limits, samples[..last]), Watches(CLEAN, limits, samples);
      SincesAreSeen(limits, samples[..last]);
      if w.stallSince > 0 {
        if before.stallSince > 0 {
          var k :| 0 <= k < last && SeenSince(samples[..last], k, before.stallSince, Stalled);
          assert SeenSince(samples, k, w.stallSince, Stalled);
        } else {
          assert SeenSince(samples, last, w.stallSince, Stalled);
        }
      }
      if w.invalidSince > 0 {
        if before.invalidSince > 0 {
          var k :| 0 <= k < last && SeenSince(samples[..last], k, before.invalidSince, Invalid);
          assert SeenSince(samples, k, w.invalidSince, Invalid);
        } else {
          assert SeenSince(samples, last, w.invalidSince, Invalid);
        }
      }
    }
  }

  /**
   * A fault is never raised by a glitch: a stall alarm means a stalled sample at least
   * the debounce time ago and no healthy one since; a sensor alarm means nothing but
   * invalid samples for at least its timeout.
   */
  lemma FaultsAreDebounced(limits: Limits, samples: seq<Sample>, s: Sample)
    requires s.now > 0 && forall i :: 0 <= i < |samples| ==> samples[i].now > 0
    requires NewlyFaulted(Watches(CLEAN, limits, samples), limits, s)
    ensures var all := samples + [s];
            && (s.kind.Stalled? ==> exists k, since :: 0 <= k < |all| && SeenSince(all, k, since, Stalled)
                                                      && s.now - since >= limits.debounce)
            && (s.kind.Invalid? ==> exists k, since :: 0 <= k < |all| && SeenSince(all, k, since, Invalid)
                                                      && s.now - since >= limits.invalidTimeout)
            && !s.kind.Healthy?
  {
    var all := samples + [s];
    assert all[..|samples|] == samples;
    assert Watches(CLEAN, limits, all) == Watched(Watches(CLEAN, limits, samples), limits, s);
    SincesAreSeen(limits, all);
  }

  /** How many of the samples raised a fault, each in the state its predecessors left. */
  function FaultsIn(w: Watch, limits: Limits, samples: seq<Sample>): nat {
    if samples == [] then 0 else
    var front := samples[..|samples| - 1];
    FaultsIn(w, limits, front) +
      if NewlyFaulted(Watches(w, limits, front), limits, samples[|samples| - 1]) then 1 else 0
  }

  /** The stall count and the fault generation count exactly these, the count up to its limit. */
  lemma {:induction false} FaultsAreCounted(w: Watch, limits: Limits, samples: seq<Sample>)
    requires w.count <= UINT32_MAX
    ensures var w', n := Watches(w, limits, samples), FaultsIn(w, limits, samples);
            && w'.fault.generation == w.fault.generation + n
            && w'.count == if w.count + n <= UINT32_MAX then w.count + n else UINT32_MAX
  {
    if samples != [] { FaultsAreCounted(w, limits, samples[..|samples| - 1]); }
  }

  // ---- exactly when a fault is raised, said of the samples alone ----

  /** The clock never goes back and is never zero. */
  predicate Timeline(samples: seq<Sample>) {
    && (forall i :: 0 <= i < |samples| ==> samples[i].now > 0)
    && forall i, j :: 0 <= i < j < |samples| ==> samples[i].now <= samples[j].now
  }

  predicate NoneHealthy(samples: seq<Sample>, i: int, j: int) {
    0 <= i <= j <= |samples| && forall m :: i <= m < j ==> !samples[m].kind.Healthy?
  }

  predicate AllInvalid(samples: seq<Sample>, i: int, j: int) {
    0 <= i <= j <= |samples| && forall m :: i <= m < j ==> samples[m].kind.Invalid?
  }

  /** Stalled at i, and no healthy sample since. */
  predicate StalledFrom(samples: seq<Sample>, i: int) {
    0 <= i < |samples| && samples[i].kind.Stalled? && NoneHealthy(samples, i, |samples|)
  }

  /** Nothing but invalid samples from i on. */
  predicate InvalidFrom(samples: seq<Sample>, i: int) {
    0 <= i < |samples| && AllInvalid(samples, i, |samples|)
  }

  /**
   * The last sample is stalled and some stalled sample at least the debounce time old has
   * no healthy one after it, or it is invalid and so was everything for the timeout.
   */
  ghost predicate LastIsDue(limits: Limits, samples: seq<Sample>) {
    samples != [] &&
    var last := samples[|samples| - 1];
    match last.kind
    case Healthy => false
    case Stalled => exists i :: StalledFrom(samples, i) && last.now - samples[i].now >= limits.debounce
    case Invalid => exists i :: InvalidFrom(samples, i) && last.now - samples[i].now >= limits.invalidTimeout
  }

  /** Some sample was due, and, unless faults are latched, none was healthy since. */
  ghost predicate Standing(limits: Limits, latch: bool, samples: seq<Sample>) {
    exists j :: StandsSince(limits, latch, samples, j)
  }

  ghost predicate StandsSince(limits: Limits, latch: bool, samples: seq<Sample>, j: int) {
    0 <= j < |samples| && LastIsDue(limits, samples[..j + 1]) && (latch || NoneHealthy(samples, j, |samples|))
  }

  /** One fan under a policy that latches its faults, or does not. */
  function SampledFan(w: Watch, limits: Limits, latch: bool, s: Sample): Watch {
    if latch && NewlyFaulted(w, limits, s) then Latched(Watched(w, limits, s)) else Watched(w, limits, s)
  }

  function FanAfter(limits: Limits, latch: bool, samples: seq<Sample>): Watch {
    if samples == [] then CLEAN
    else SampledFan(FanAfter(limits, latch, samples[..|samples| - 1]), limits, latch, samples[|samples| - 1])
  }

  /** The sampled fan's own part of what the monitor's section does. */
  lemma SampledIsFan(ws: seq<Watch>, f: nat, policy: Policy, limits: Limits, s: Sample)
    requires f < |ws|
    ensures Sampled(ws, f, policy, limits, s)[f] == SampledFan(ws[f], limits, !policy.AlarmOnly?, s)
  {
  }

  /** The mark is the oldest stalled sample since the last healthy one. */
  ghost predicate StallMark(samples: seq<Sample>, since: nat) {
    && (forall i :: StalledFrom(samples, i) ==> 0 < since <= samples[i].now)
    && (since > 0 ==> exists i :: StalledFrom(samples, i) && samples[i].now == since)
  }

  ghost predicate InvalidMark(samples: seq<Sample>, since: nat) {
    && (forall i :: InvalidFrom(samples, i) ==> 0 < since <= samples[i].now)
    && (since > 0 ==> exists i :: InvalidFrom(samples, i) && samples[i].now == since)
  }

  lemma StalledGrows(samples: seq<Sample>, s: Sample, i: int)
    ensures StalledFrom(samples + [s], i) <==>
            (if i == |samples| then s.kind.Stalled? else StalledFrom(samples, i) && !s.kind.Healthy?)
    ensures InvalidFrom(samples + [s], i) <==>
            (if i == |samples| then s.kind.Invalid? else InvalidFrom(samples, i) && s.kind.Invalid?)
  {
    var all := samples + [s];
    assert forall m :: 0 <= m < |samples| ==> all[m] == samples[m];
    assert all[|samples|] == s;
  }

  lemma StallMarkGrows(samples: seq<Sample>, s: Sample, since: nat)
    requires Timeline(samples + [s]) && StallMark(samples, since)
    ensures StallMark(samples + [s],
                      match s.kind case Healthy => 0 case Stalled => Since(since, s.now) case Invalid => since)
  {
    var all := samples + [s];
    assert all[|samples|] == s;
    forall i
      ensures StalledFrom(all, i) <==>
              (if i == |samples| then s.kind.Stalled? else StalledFrom(samples, i) && !s.kind.Healthy?)
    {
      StalledGrows(samples, s, i);
    }
    if since > 0 && !s.kind.Healthy? {
      var i :| StalledFrom(samples, i) && samples[i].now == since;
      assert StalledFrom(all, i) && all[i].now == since;
      assert all[i].now <= s.now;
    } else if s.kind.Stalled? {
      assert StalledFrom(all, |samples|);
    }
  }

  lemma InvalidMarkGrows(samples: seq<Sample>, s: Sample, since: nat)
    requires Timeline(samples + [s]) && InvalidMark(samples, since)
    ensures InvalidMark(samples + [s], if s.kind.Invalid? then Since(since, s.now) else 0)
  {
    var all := samples + [s];
    assert all[|samples|] == s;
    forall i
      ensures InvalidFrom(all, i) <==>
              (if i == |samples| then s.kind.Invalid? else InvalidFrom(samples, i) && s.kind.Invalid?)
    {
      StalledGrows(samples, s, i);
    }
    if since > 0 && s.kind.Invalid? {
      var i :| InvalidFrom(samples, i) && samples[i].now == since;
      assert InvalidFrom(all, i) && all[i].now == since;
      assert all[i].now <= s.now;
    } else if s.kind.Invalid? {
      assert InvalidFrom(all, |samples|);
    }
  }

  /** With these marks the section's timer test is the samples' own condition. */
  lemma TimerIsDue(limits: Limits, samples: seq<Sample>, s: Sample, w: Watch)
    requires Timeline(samples + [s]) && StallMark(samples, w.stallSince) && InvalidMark(samples, w.invalidSince)
    ensures NewlyFaulted(w, limits, s) <==> !w.fault.alarm && LastIsDue(limits, samples + [s])
  {
    var all, w' := samples + [s], Watched(w, limits, s);
    StallMarkGrows(samples, s, w.stallSince);
    InvalidMarkGrows(samples, s, w.invalidSince);
    assert all[|all| - 1] == s;
    if s.kind.Stalled? {
      var i :| StalledFrom(all, i) && all[i].now == Since(w.stallSince, s.now);
    } else if s.kind.Invalid? {
      var i :| InvalidFrom(all, i) && all[i].now == Since(w.invalidSince, s.now);
    }
  }

  lemma EarlierStands(limits: Limits, latch: bool, samples: seq<Sample>, s: Sample, j: int)
    requires 0 <= j < |samples|
    ensures StandsSince(limits, latch, samples + [s], j) <==>
            StandsSince(limits, latch, samples, j) && (latch || !s.kind.Healthy?)
  {
    var all := samples + [s];
    assert all[..j + 1] == samples[..j + 1];
    assert forall m :: 0 <= m < |samples| ==> all[m] == samples[m];
    assert all[|samples|] == s;
  }

  lemma LastStands(limits: Limits, latch: bool, samples: seq<Sample>, s: Sample)
    ensures StandsSince(limits, latch, samples + [s], |samples|) <==> LastIsDue(limits, samples + [s])
  {
    var all := samples + [s];
    assert all[..|samples| + 1] == all && all[|samples|] == s;
  }

  lemma StandingGrows(limits: Limits, latch: bool, samples: seq<Sample>, s: Sample)
    ensures Standing(limits, latch, samples + [s]) <==>
            LastIsDue(limits, samples + [s]) || (Standing(limits, latch, samples) && (latch || !s.kind.Healthy?))
  {
    LastStands(limits, latch, samples, s);
    forall j | 0 <= j < |samples|
      ensures StandsSince(limits, latch, samples + [s], j) <==>
              StandsSince(limits, latch, samples, j) && (latch || !s.kind.Healthy?)
    {
      EarlierStands(limits, latch, samples, s, j);
    }
    if Standing(limits, latch, samples + [s]) {
      var j :| StandsSince(limits, latch, samples + [s], j);
      assert j < |samples| ==> StandsSince(limits, latch, samples, j);
    }
    if Standing(limits, latch, samples) && (latch || !s.kind.Healthy?) {
      var j :| StandsSince(limits, latch, samples, j);
      assert StandsSince(limits, latch, samples + [s], j);
    }
  }

  /** What the fan's fields say about the samples so far. */
  ghost predicate Reflects(limits: Limits, latch: bool, samples: seq<Sample>, w: Watch) {
    && StallMark(samples, w.stallSince) && InvalidMark(samples, w.invalidSince)
    && (w.fault.alarm <==> Standing(limits, latch, samples))
    && (w.fault.latched <==> latch && w.fault.alarm)
  }

  /** The section's effect on the marks and on the alarm. */
  lemma SectionEffect(w: Watch, limits: Limits, latch: bool, s: Sample)
    requires w.fault.latched <==> latch && w.fault.alarm
    ensures var w' := SampledFan(w, limits, latch, s);
            && w'.stallSince ==
               (match s.kind case Healthy => 0 case Stalled => Since(w.stallSince, s.now) case Invalid => w.stallSince)
            && w'.invalidSince == (if s.kind.Invalid? then Since(w.invalidSince, s.now) else 0)
            && (w'.fault.alarm <==> NewlyFaulted(w, limits, s) || (w.fault.alarm && (latch || !s.kind.Healthy?)))
            && (w'.fault.latched <==> latch && w'.fault.alarm)
            && (NewlyFaulted(w, limits, s) ==>
                  !w.fault.alarm && w'.fault.cause == if s.kind.Invalid? then SensorInvalid else Stall)
  {
  }

  lemma OneMoreReflects(limits: Limits, latch: bool, samples: seq<Sample>, s: Sample, w: Watch)
    requires Timeline(samples + [s]) && Reflects(limits, latch, samples, w)
    ensures Reflects(limits, latch, samples + [s], SampledFan(w, limits, latch, s))
  {
    SectionEffect(w, limits, latch, s);
    StallMarkGrows(samples, s, w.stallSince);
    InvalidMarkGrows(samples, s, w.invalidSince);
    TimerIsDue(limits, samples, s, w);
    StandingGrows(limits, latch, samples, s);
    if s.kind.Healthy? { HealthyIsNotDue(limits, samples, s); }
  }

  lemma HealthyIsNotDue(limits: Limits, samples: seq<Sample>, s: Sample)
    requires s.kind.Healthy?
    ensures !LastIsDue(limits, samples + [s])
  {
    assert (samples + [s])[|samples|] == s;
  }

  lemma {:induction false} FanReflectsSamples(limits: Limits, latch: bool, samples: seq<Sample>)
    requires Timeline(samples)
    ensures Reflects(limits, latch, samples, FanAfter(limits, latch, samples))
  {
    if samples == [] {
      assert forall j :: !StandsSince(limits, latch, samples, j);
    } else {
      var before, s := samples[..|samples| - 1], samples[|samples| - 1];
      assert samples == before + [s];
      FanReflectsSamples(limits, latch, before);
      OneMoreReflects(limits, latch, before, s, FanAfter(limits, latch, before));
    }
  }

  /**
   * A sample raises a fault if and only if no alarm stands and the sample is due; the
   * cause is the kind of sample. Under a latching policy an alarm, once due, stands.
   */
  lemma FaultsExactlyWhenDue(limits: Limits, latch: bool, samples: seq<Sample>, s: Sample)
    requires Timeline(samples + [s])
    ensures var w := FanAfter(limits, latch, samples);
            && (NewlyFaulted(w, limits, s) <==>
                  !Standing(limits, latch, samples) && LastIsDue(limits, samples + [s]))
            && (NewlyFaulted(w, limits, s) ==>
                  var w' := SampledFan(w, limits, latch, s);
                  && w'.fault.alarm && w'.fault.latched == latch
                  && w'.fault.cause == if s.kind.Invalid? then SensorInvalid else Stall)
  {
    assert Timeline(samples) by {
      assert forall i :: 0 <= i < |samples| ==> (samples + [s])[i] == samples[i];
    }
    FanReflectsSamples(limits, latch, samples);
    TimerIsDue(limits, samples, s, FanAfter(limits, latch, samples));
    SectionEffect(FanAfter(limits, latch, samples), limits, latch, s);
  }
}
