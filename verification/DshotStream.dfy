/**
 * What scripts/analyze_dshot_capture.py accepts, said index by index over real
 * timestamps: well-formed edge captures, their pulses, and streams of valid frames.
 */
module DshotStream {
  import opened DshotFrame

  const BIT_PERIOD_US: real := 1000000.0 / 600000.0
  const ZERO_HIGH_US: real := BIT_PERIOD_US * 0.375
  const ONE_HIGH_US: real := BIT_PERIOD_US * 0.750

  datatype Transition = Transition(timestamp: real, level: int)

  datatype Pulse = Pulse(rise: real, fall: real) {
    function High(): real { fall - rise }
  }

  datatype Frame = Frame(
    start: real, end: real, bits: seq<bool>, word: nat, value: nat, telemetry: bool,
    checksum: nat, widths: seq<real>, periods: seq<real>)

  datatype CaptureError =
    | NotIncreasing | BadLevel | HighFollowsHigh | LowWithoutRise | EndsHigh | NoPulses
    | BadTolerance | BadGap | PulsesTooClose | GapTooShort | PartialFrame | AmbiguousWidth
    | BadPeriod | ChecksumMismatch | ReservedValue

  datatype Result<+T> = Ok(value: T) | Rejected(error: CaptureError)

  // ---- pulses ----

  predicate Increasing(ts: seq<Transition>) {
    forall i :: 1 <= i < |ts| ==> ts[i - 1].timestamp < ts[i].timestamp
  }

  /** One initial LOW sample is skipped. */
  function Lead(ts: seq<Transition>): nat { if ts != [] && ts[0].level == 0 then 1 else 0 }

  /** Edges alternate HIGH, LOW after the lead-in, and the last pulse is complete. */
  predicate WellFormedEdges(ts: seq<Transition>) {
    && Increasing(ts)
    && |ts| >= Lead(ts) + 2 && (|ts| - Lead(ts)) % 2 == 0
    && forall i :: Lead(ts) <= i < |ts| ==> ts[i].level == (if (i - Lead(ts)) % 2 == 0 then 1 else 0)
  }

  function PulseAt(ts: seq<Transition>, k: nat): Pulse
    requires Lead(ts) + 2 * k + 1 < |ts|
  {
    Pulse(ts[Lead(ts) + 2 * k].timestamp, ts[Lead(ts) + 2 * k + 1].timestamp)
  }

  function PulsesOf(ts: seq<Transition>): seq<Pulse>
    requires WellFormedEdges(ts)
  {
    seq((|ts| - Lead(ts)) / 2, k requires 0 <= k < (|ts| - Lead(ts)) / 2 => PulseAt(ts, k))
  }

  // ---- timing ----

  datatype Span = Span(min: real, max: real) {
    predicate Has(x: real) { min <= x <= max }
  }

  /** The windows the analyzer derives from its settings. */
  datatype Timing = Timing(zero: Span, one: Span, period: Span, gap: real)

  predicate ValidSettings(pct: real, gap: real) { 0.0 < pct <= 30.0 && gap >= 0.0 }

  function Around(expected: real, tol: real): Span {
    Span(expected * (1.0 - tol), expected * (1.0 + tol))
  }

  function TimingOf(pct: real, gap: real): Timing {
    var tol := pct / 100.0;
    Timing(Around(ZERO_HIGH_US, tol), Around(ONE_HIGH_US, tol), Around(BIT_PERIOD_US, tol), gap)
  }

  /** _within_tolerance is membership in the window around the expected value. */
  predicate Within(actual: real, expected: real, tol: real) {
    (if actual >= expected then actual - expected else expected - actual) <= expected * tol
  }

  lemma WithinIsWindow(actual: real, expected: real, tol: real)
    ensures Within(actual, expected, tol) <==> Around(expected, tol).Has(actual)
  {
    assert expected * (1.0 - tol) == expected - expected * tol;
    assert expected * (1.0 + tol) == expected + expected * tol;
    if expected * tol < 0.0 && actual >= expected { assert !Around(expected, tol).Has(actual); }
  }

  predicate IsZero(p: Pulse, t: Timing) { t.zero.Has(p.High()) }

  predicate IsOne(p: Pulse, t: Timing) { t.one.Has(p.High()) }

  predicate InBitWindow(a: Pulse, b: Pulse, t: Timing) { t.period.Has(b.rise - a.rise) }

  predicate IsFrameBreak(a: Pulse, b: Pulse, t: Timing) {
    b.rise - a.rise > t.period.max && b.rise - a.fall >= t.gap
  }

  /** Pulses within a frame follow the bit period; frames are separated by a low gap. */
  predicate WellTimed(ps: seq<Pulse>, t: Timing) {
    && |ps| > 0 && |ps| % 16 == 0
    && forall i :: 1 <= i < |ps| ==>
         if i % 16 == 0 then IsFrameBreak(ps[i - 1], ps[i], t)
         else InBitWindow(ps[i - 1], ps[i], t)
  }

  function Bits(group: seq<Pulse>, t: Timing): (bits: seq<bool>)
    ensures |bits| == |group|
  {
    seq(|group|, j requires 0 <= j < |group| => IsOne(group[j], t))
  }

  function Word(group: seq<Pulse>, t: Timing): nat { WordOf(Bits(group, t)) }

  predicate Unambiguous(group: seq<Pulse>, t: Timing) {
    forall j :: 0 <= j < |group| ==> IsZero(group[j], t) != IsOne(group[j], t)
  }

  /** A group of sixteen pulses is one acceptable frame. */
  predicate ValidGroup(group: seq<Pulse>, t: Timing) {
    && |group| == 16 && Unambiguous(group, t)
    && Word(group, t) < 0x1_0000 && ChecksumValid(Word(group, t))
    && !(1 <= Value(Word(group, t)) <= 47)
  }

  function Group(ps: seq<Pulse>, k: nat): (group: seq<Pulse>)
    requires 16 * k + 16 <= |ps|
    ensures |group| == 16
  {
    ps[16 * k..16 * k + 16]
  }

  /** Exactly the pulse streams the analyzer accepts. */
  predicate FrameStream(ps: seq<Pulse>, t: Timing) {
    && WellTimed(ps, t)
    && forall k :: 0 <= k < |ps| / 16 ==> ValidGroup(Group(ps, k), t)
  }

  function FrameOf(group: seq<Pulse>, t: Timing): Frame
    requires |group| == 16
  {
    var word := Word(group, t);
    Frame(group[0].rise, group[15].fall, Bits(group, t), word, Value(word), Telemetry(word),
          word % 16, Widths(group), Periods(group))
  }

  function FramesOf(ps: seq<Pulse>, t: Timing): seq<Frame> {
    seq(|ps| / 16, k requires 0 <= k < |ps| / 16 => FrameOf(Group(ps, k), t))
  }

  /** Low time between the last pulse of one frame and the first of the next. */
  function GapBetween(a: seq<Pulse>, b: seq<Pulse>): real {
    if a == [] || b == [] then 0.0 else b[0].rise - a[|a| - 1].fall
  }

  function GapsOf(ps: seq<Pulse>): seq<real> {
    var n := |ps| / 16;
    if n == 0 then []
    else seq(n - 1, k requires 0 <= k < n - 1 => GapBetween(Group(ps, k), Group(ps, k + 1)))
  }

  function Widths(group: seq<Pulse>): (widths: seq<real>)
    ensures |widths| == |group|
  {
    seq(|group|, j requires 0 <= j < |group| => group[j].High())
  }

  function Periods(group: seq<Pulse>): (periods: seq<real>)
    requires group != []
    ensures |periods| == |group| - 1
  {
    seq(|group| - 1, j requires 0 <= j < |group| - 1 => group[j + 1].rise - group[j].rise)
  }

  lemma PeriodWindowIsOrdered(pct: real, gap: real)
    requires ValidSettings(pct, gap)
    ensures TimingOf(pct, gap).period.min <= TimingOf(pct, gap).period.max
  {
    var tol := pct / 100.0;
    assert BIT_PERIOD_US * (1.0 + tol) - BIT_PERIOD_US * (1.0 - tol) == BIT_PERIOD_US * (2.0 * tol);
  }
}
