/**
 * The waveform the firmware's RMT encoder really produces (main/dshot_esc_encoder.c),
 * at the tick resolution of its clock, and exactly when the capture analyzer accepts it.
 */
module DshotWaveform {
  import opened BitArith
  import opened DshotFrame
  import opened DshotStream
  import opened DshotInverse

  /** Pulse widths and periods of the RMT encoder, in ticks of its 40 MHz clock. */
  const PERIOD_TICKS: int := 40000000 / 600000
  const ONE_TICKS: int := 40000000 * 7485 / (600000 * 10000)
  const ZERO_TICKS: int := 40000000 * 37425 / (600000 * 100000)
  const DELAY_TICKS: int := 40000000 * 50 / 1000000
  const FRAME_TICKS: int := 16 * PERIOD_TICKS + DELAY_TICKS

  function RiseTick(i: nat): nat { i / 16 * FRAME_TICKS + i % 16 * PERIOD_TICKS }

  function HighTicks(one: bool): int { if one then ONE_TICKS else ZERO_TICKS }

  function Ticks(n: int): real { n as real / 40.0 }

  predicate AllSendable(cmds: seq<Command>) {
    forall k :: 0 <= k < |cmds| ==> Sendable(cmds[k])
  }

  function BitSent(cmds: seq<Command>, i: nat): bool
    requires i < 16 * |cmds|
  {
    FrameBits(cmds[i / 16].throttle, cmds[i / 16].telemetry)[i % 16]
  }

  function WavePulse(i: nat, one: bool): Pulse {
    Pulse(Ticks(RiseTick(i)), Ticks(RiseTick(i) + HighTicks(one)))
  }

  /** The pulses the firmware streams for these commands. */
  function Waveform(cmds: seq<Command>): (ps: seq<Pulse>)
    ensures |ps| == 16 * |cmds|
  {
    seq(16 * |cmds|, i requires 0 <= i < 16 * |cmds| => WavePulse(i, BitSent(cmds, i)))
  }

  /** Neighbouring pulses are one period apart, or one frame gap at a frame boundary. */
  lemma RiseSteps(i: nat)
    requires i >= 1
    ensures RiseTick(i) - RiseTick(i - 1) == if i % 16 == 0 then 66 + 2000 else 66
  {
    if i % 16 == 0 { assert (i - 1) / 16 == i / 16 - 1 && (i - 1) % 16 == 15; }
    else { assert (i - 1) / 16 == i / 16 && (i - 1) % 16 == i % 16 - 1; }
  }

  /** Low time of the wire after the last bit of a frame. */
  function GapAfter(one: bool): (gap: real)
    ensures gap == if one then 50.425 else 51.05
  {
    Ticks(66 + 2000 - HighTicks(one))
  }

  // ---- when a pulse and its distance to the one before fit the windows ----

  lemma PulseReads(i: nat, one: bool, t: Timing, pct: real, gap: real)
    requires ValidSettings(pct, gap) && t == TimingOf(pct, gap)
    ensures IsOne(WavePulse(i, one), t) <==> one && 2.0 <= pct
    ensures IsZero(WavePulse(i, one), t) <==> !one && 4.0 <= pct
  {
    assert WavePulse(i, one).High() == Ticks(HighTicks(one));
  }

  lemma PulsesStep(i: nat, before: bool, one: bool, t: Timing, pct: real, gap: real)
    requires i >= 1 && ValidSettings(pct, gap) && t == TimingOf(pct, gap)
    ensures var a, b := WavePulse(i - 1, before), WavePulse(i, one);
            if i % 16 == 0 then IsFrameBreak(a, b, t) <==> gap <= GapAfter(before)
               else InBitWindow(a, b, t) <==> 1.0 <= pct
  {
    RiseSteps(i);
  }

  lemma PulsesAlternate(i: nat, before: bool, one: bool)
    ensures WavePulse(i, one).rise < WavePulse(i, one).fall
    ensures i >= 1 ==> WavePulse(i - 1, before).fall < WavePulse(i, one).rise
  {
    if i >= 1 { RiseSteps(i); }
  }

  lemma WaveformOrdered(cmds: seq<Command>)
    ensures Ordered(Waveform(cmds))
  {
    var ps := Waveform(cmds);
    forall i | 0 <= i < |ps|
      ensures ps[i].rise < ps[i].fall && (i >= 1 ==> ps[i - 1].fall < ps[i].rise)
    {
      PulsesAlternate(i, i >= 1 && BitSent(cmds, i - 1), BitSent(cmds, i));
    }
  }

  // ---- the condition, in terms of the commands ----

  /** The one frame without a zero bit. */
  const ALL_ONES := Command(2047, true)

  /**
   * A one bit reads at 49 ticks for 50, a zero bit at 24 for 25: two percent short, or
   * four. Only the frame of full throttle with the telemetry bit has no zero bit.
   */
  predicate ToleranceSuffices(cmds: seq<Command>, pct: real) {
    2.0 <= pct && (pct < 4.0 ==> forall k :: 0 <= k < |cmds| ==> cmds[k] == ALL_ONES)
  }

  function LastBit(c: Command): bool { FrameBits(c.throttle, c.telemetry)[15] }

  /** The low gap after a frame depends on its last bit: 50.425 or 51.05 microseconds. */
  predicate GapSuffices(cmds: seq<Command>, gap: real) {
    forall k :: 0 <= k < |cmds| - 1 ==> gap <= GapAfter(LastBit(cmds[k]))
  }

  function Ones(n: nat): (bits: seq<bool>)
    ensures |bits| == n && forall j :: 0 <= j < n ==> bits[j]
  {
    if n == 0 then [] else Ones(n - 1) + [true]
  }

  lemma {:induction false} OnesAreAll(n: nat)
    ensures WordOf(Ones(n)) == Pow2(n) - 1
  {
    if n > 0 {
      OnesAreAll(n - 1);
      WordOfLast(Ones(n - 1), true);
    }
  }

  lemma FullChecksum()
    ensures Checksum(4095) == 15
  {
    assert XorBits(15 / 8, 15 / 8, 1) == 0;
    assert XorBits(4095, 255, 4) == 0;
    assert XorBits(0, 15, 4) == 15;
  }

  lemma SixteenOnes()
    ensures WordOf(Ones(16)) == 65535 && BitsOf(65535, 16) == Ones(16)
  {
    OnesAreAll(16);
    Pow2Values();
    BitsOfWord(Ones(16));
  }

  lemma FullThrottleIsAllOnes()
    ensures FrameBits(2047, true) == Ones(16)
  {
    FullChecksum();
    WireRoundTrip(2047, true);
    SixteenOnes();
  }

  lemma AllOnesIsFullThrottle(c: Command)
    requires Sendable(c) && FrameBits(c.throttle, c.telemetry) == Ones(16)
    ensures c == ALL_ONES
  {
    WireRoundTrip(c.throttle, c.telemetry);
    SixteenOnes();
    BuiltWordDecodes(c.throttle, c.telemetry);
    assert Value(65535) == 2047 && Telemetry(65535);
  }

  /** A frame consists of one bits only exactly for full throttle with the telemetry bit. */
  lemma OnlyFullThrottleIsAllOnes(c: Command)
    requires Sendable(c)
    ensures c == ALL_ONES <==> forall j :: 0 <= j < 16 ==> FrameBits(c.throttle, c.telemetry)[j]
  {
    var bits := FrameBits(c.throttle, c.telemetry);
    FullThrottleIsAllOnes();
    if forall j :: 0 <= j < 16 ==> bits[j] {
      assert bits == Ones(16);
      AllOnesIsFullThrottle(c);
    }
  }

  // ---- the firmware's own waveform ----

  lemma WaveformAccepted(cmds: seq<Command>, pct: real, gap: real)
    requires cmds != [] && AllSendable(cmds) && ValidSettings(pct, gap)
    requires ToleranceSuffices(cmds, pct) && GapSuffices(cmds, gap)
    ensures Transmits(cmds, Waveform(cmds), TimingOf(pct, gap))
  {
    var ps, t := Waveform(cmds), TimingOf(pct, gap);
    forall i | 1 <= i < |ps|
      ensures if i % 16 == 0 then IsFrameBreak(ps[i - 1], ps[i], t) else InBitWindow(ps[i - 1], ps[i], t)
    {
      WaveformSteps(cmds, t, pct, gap, i);
      assert i % 16 == 0 ==> (i - 1) / 16 == i / 16 - 1 && (i - 1) % 16 == 15;
    }
    assert |ps| % 16 == 0;
    forall i | 0 <= i < |ps| ensures WidthMatches(cmds, ps, i, t) {
      PulseReads(i, BitSent(cmds, i), t, pct, gap);
      OnlyFullThrottleIsAllOnes(cmds[i / 16]);
    }
  }

  lemma WaveformSteps(cmds: seq<Command>, t: Timing, pct: real, gap: real, i: nat)
    requires 1 <= i < 16 * |cmds| && ValidSettings(pct, gap) && t == TimingOf(pct, gap)
    ensures var ps := Waveform(cmds);
            if i % 16 == 0 then IsFrameBreak(ps[i - 1], ps[i], t) <==> gap <= GapAfter(BitSent(cmds, i - 1))
            else InBitWindow(ps[i - 1], ps[i], t) <==> 1.0 <= pct
  {
    PulsesStep(i, BitSent(cmds, i - 1), BitSent(cmds, i), t, pct, gap);
    assert Waveform(cmds)[i - 1] == WavePulse(i - 1, BitSent(cmds, i - 1));
    assert Waveform(cmds)[i] == WavePulse(i, BitSent(cmds, i));
  }

  /** What acceptance needs: each pulse read as its bit, each gap long enough. */
  lemma AcceptanceNeedsTolerance(cmds: seq<Command>, pct: real, gap: real, k: nat)
    requires AllSendable(cmds) && ValidSettings(pct, gap) && k < |cmds|
    requires FrameStream(Waveform(cmds), TimingOf(pct, gap))
    ensures 2.0 <= pct && (pct < 4.0 ==> cmds[k] == ALL_ONES)
  {
    var ps, t := Waveform(cmds), TimingOf(pct, gap);
    assert ValidGroup(Group(ps, k), t);
    forall j | 0 <= j < 16
      ensures 2.0 <= pct && (pct < 4.0 ==> FrameBits(cmds[k].throttle, cmds[k].telemetry)[j])
    {
      var i := 16 * k + j;
      assert i / 16 == k && i % 16 == j && Group(ps, k)[j] == ps[i];
      PulseReads(i, BitSent(cmds, i), t, pct, gap);
    }
    assert FrameBits(cmds[k].throttle, cmds[k].telemetry)[0] || 4.0 <= pct;
    OnlyFullThrottleIsAllOnes(cmds[k]);
  }

  lemma AcceptanceNeedsGap(cmds: seq<Command>, pct: real, gap: real, k: nat)
    requires ValidSettings(pct, gap) && k + 1 < |cmds|
    requires FrameStream(Waveform(cmds), TimingOf(pct, gap))
    ensures gap <= GapAfter(LastBit(cmds[k]))
  {
    var i := 16 * (k + 1);
    assert i % 16 == 0 && (i - 1) / 16 == k && (i - 1) % 16 == 15;
    WaveformSteps(cmds, TimingOf(pct, gap), pct, gap, i);
  }

  /**
   * The waveform the firmware really sends is accepted, for any settings the analyzer
   * takes, exactly when the tolerance and the required gap suffice; it then decodes to
   * the commands sent.
   */
  lemma FirmwareWaveformDecodes(cmds: seq<Command>, pct: real, gap: real)
    requires cmds != [] && AllSendable(cmds) && ValidSettings(pct, gap)
    ensures var ts, t := EdgesOf(Waveform(cmds)), TimingOf(pct, gap);
            && WellFormedEdges(ts)
            && (FrameStream(PulsesOf(ts), t) <==> ToleranceSuffices(cmds, pct) && GapSuffices(cmds, gap))
            && (FrameStream(PulsesOf(ts), t) ==> CommandsOf(PulsesOf(ts), t) == cmds)
  {
    var ps, t := Waveform(cmds), TimingOf(pct, gap);
    WaveformOrdered(cmds);
    PulsesOfEdges(ps);
    WindowsAreApart(pct, gap);
    if ToleranceSuffices(cmds, pct) && GapSuffices(cmds, gap) {
      WaveformAccepted(cmds, pct, gap);
      TransmissionsDecode(cmds, ps, t);
    }
    if FrameStream(ps, t) {
      forall k | 0 <= k < |cmds| ensures 2.0 <= pct && (pct < 4.0 ==> cmds[k] == ALL_ONES) {
        AcceptanceNeedsTolerance(cmds, pct, gap, k);
      }
      forall k | 0 <= k < |cmds| - 1 ensures gap <= GapAfter(LastBit(cmds[k])) {
        AcceptanceNeedsGap(cmds, pct, gap, k);
      }
      assert 2.0 <= pct by { assert cmds[0] == cmds[0]; AcceptanceNeedsTolerance(cmds, pct, gap, 0); }
    }
  }

  lemma LongGap(one: bool)
    ensures 2.0 <= GapAfter(one)
  {
  }

  /** The analyzer's defaults, 20 percent and 2 microseconds, suffice for all commands. */
  lemma DefaultsSuffice(cmds: seq<Command>)
    requires cmds != [] && AllSendable(cmds)
    ensures var ts, t := EdgesOf(Waveform(cmds)), TimingOf(20.0, 2.0);
            WellFormedEdges(ts) && FrameStream(PulsesOf(ts), t) && CommandsOf(PulsesOf(ts), t) == cmds
  {
    FirmwareWaveformDecodes(cmds, 20.0, 2.0);
    assert GapSuffices(cmds, 2.0) by {
      forall k | 0 <= k < |cmds| - 1 ensures 2.0 <= GapAfter(LastBit(cmds[k])) { LongGap(LastBit(cmds[k])); }
    }
  }
}
