/** The capture decoder as the inverse of the firmware's frame encoder. */
module DshotInverse {
  import opened DshotFrame
  import opened DshotStream

  datatype Command = Command(throttle: nat, telemetry: bool)

  predicate Sendable(c: Command) { c.throttle == 0 || 48 <= c.throttle <= MAX_THROTTLE }

  /** Pulse i of a transmission of these commands has the width of its bit, up to jitter. */
  predicate WidthMatches(cmds: seq<Command>, ps: seq<Pulse>, i: nat, t: Timing)
    requires i < |ps| == 16 * |cmds|
  {
    var c := cmds[i / 16];
    if FrameBits(c.throttle, c.telemetry)[i % 16] then IsOne(ps[i], t) else IsZero(ps[i], t)
  }

  /** The pulses are some jittered transmission of the commands by the firmware's encoder. */
  predicate Transmits(cmds: seq<Command>, ps: seq<Pulse>, t: Timing) {
    && |cmds| > 0 && |ps| == 16 * |cmds| && WellTimed(ps, t)
    && (forall k :: 0 <= k < |cmds| ==> Sendable(cmds[k]))
    && (forall i :: 0 <= i < |ps| ==> WidthMatches(cmds, ps, i, t))
  }

  predicate Disjoint(t: Timing) { t.zero.max < t.one.min }

  /** A transmitted frame is valid and decodes to its command. */
  lemma SentGroupDecodes(cmds: seq<Command>, ps: seq<Pulse>, t: Timing, k: nat)
    requires Transmits(cmds, ps, t) && Disjoint(t) && k < |cmds|
    ensures ValidGroup(Group(ps, k), t)
    ensures var f := FrameOf(Group(ps, k), t);
            f.value == cmds[k].throttle && f.telemetry == cmds[k].telemetry
  {
    var c, group := cmds[k], Group(ps, k);
    SentGroupBits(cmds, ps, t, k);
    WireRoundTrip(c.throttle, c.telemetry);
    BuiltWordDecodes(c.throttle, c.telemetry);
    assert Word(group, t) == BuildWord(c.throttle, c.telemetry);
  }

  lemma SentGroupBits(cmds: seq<Command>, ps: seq<Pulse>, t: Timing, k: nat)
    requires Transmits(cmds, ps, t) && Disjoint(t) && k < |cmds|
    ensures Unambiguous(Group(ps, k), t)
    ensures Bits(Group(ps, k), t) == FrameBits(cmds[k].throttle, cmds[k].telemetry)
  {
    forall j | 0 <= j < 16
      ensures IsZero(Group(ps, k)[j], t) != IsOne(Group(ps, k)[j], t)
      ensures Bits(Group(ps, k), t)[j] == FrameBits(cmds[k].throttle, cmds[k].telemetry)[j]
    {
      SentBit(cmds, ps, t, k, j);
    }
  }

  lemma SentBit(cmds: seq<Command>, ps: seq<Pulse>, t: Timing, k: nat, j: nat)
    requires Transmits(cmds, ps, t) && Disjoint(t) && k < |cmds| && j < 16
    ensures var p := Group(ps, k)[j];
            IsZero(p, t) != IsOne(p, t) && IsOne(p, t) == FrameBits(cmds[k].throttle, cmds[k].telemetry)[j]
  {
    var i := 16 * k + j;
    assert i / 16 == k && i % 16 == j;
    assert WidthMatches(cmds, ps, i, t) && Group(ps, k)[j] == ps[i];
  }

  /** The commands an accepted stream carries. */
  function CommandsOf(ps: seq<Pulse>, t: Timing): seq<Command> {
    seq(|ps| / 16, k requires 0 <= k < |ps| / 16 =>
                     Command(FrameOf(Group(ps, k), t).value, FrameOf(Group(ps, k), t).telemetry))
  }

  /** Everything the encoder can send is accepted and decodes to what was sent. */
  lemma TransmissionsDecode(cmds: seq<Command>, ps: seq<Pulse>, t: Timing)
    requires Transmits(cmds, ps, t) && Disjoint(t)
    ensures FrameStream(ps, t) && CommandsOf(ps, t) == cmds
  {
    forall k | 0 <= k < |cmds|
      ensures ValidGroup(Group(ps, k), t) && CommandsOf(ps, t)[k] == cmds[k]
    {
      SentGroupDecodes(cmds, ps, t, k);
    }
  }

  /** Everything accepted is a transmission of the commands it decodes to. */
  lemma AcceptedStreamsAreTransmissions(ps: seq<Pulse>, t: Timing)
    requires FrameStream(ps, t) && Disjoint(t)
    ensures Transmits(CommandsOf(ps, t), ps, t)
  {
    var cmds := CommandsOf(ps, t);
    forall k | 0 <= k < |cmds| ensures Sendable(cmds[k]) {
      assert ValidGroup(Group(ps, k), t);
      ValidGroupIsSent(Group(ps, k), t);
    }
    forall i | 0 <= i < |ps| ensures WidthMatches(cmds, ps, i, t) {
      AcceptedWidthMatches(ps, t, i);
    }
  }

  /** The bits of a valid group are the encoder's for the value and telemetry bit it carries. */
  lemma ValidGroupIsSent(group: seq<Pulse>, t: Timing)
    requires ValidGroup(group, t)
    ensures var f := FrameOf(group, t);
            Sendable(Command(f.value, f.telemetry)) && Bits(group, t) == FrameBits(f.value, f.telemetry)
  {
    var word := Word(group, t);
    ValidWordIsBuilt(word);
    WireRoundTrip(Value(word), Telemetry(word));
    BitsOfWord(Bits(group, t));
  }

  lemma AcceptedWidthMatches(ps: seq<Pulse>, t: Timing, i: nat)
    requires FrameStream(ps, t) && Disjoint(t) && i < |ps|
    requires forall k :: 0 <= k < |CommandsOf(ps, t)| ==> Sendable(CommandsOf(ps, t)[k])
    ensures WidthMatches(CommandsOf(ps, t), ps, i, t)
  {
    var k, j := i / 16, i % 16;
    var group := Group(ps, k);
    assert ValidGroup(group, t);
    ValidGroupIsSent(group, t);
    assert group[j] == ps[i] && Bits(group, t)[j] == IsOne(ps[i], t);
    assert IsZero(group[j], t) != IsOne(group[j], t);
  }

  /** The decoder is exactly inverse to the encoder, for all jitter within the windows. */
  lemma DecoderInvertsEncoder(ps: seq<Pulse>, pct: real, gap: real)
    requires ValidSettings(pct, gap)
    ensures var t := TimingOf(pct, gap);
            FrameStream(ps, t) <==> exists cmds :: Transmits(cmds, ps, t)
    ensures var t := TimingOf(pct, gap);
            forall cmds :: Transmits(cmds, ps, t) ==> CommandsOf(ps, t) == cmds
  {
    var t := TimingOf(pct, gap);
    WindowsAreApart(pct, gap);
    if FrameStream(ps, t) { AcceptedStreamsAreTransmissions(ps, t); }
    forall cmds | Transmits(cmds, ps, t) ensures FrameStream(ps, t) && CommandsOf(ps, t) == cmds {
      TransmissionsDecode(cmds, ps, t);
    }
  }

  /** With at most 30 percent tolerance no width can be read as both bits. */
  lemma WindowsAreApart(pct: real, gap: real)
    requires ValidSettings(pct, gap)
    ensures Disjoint(TimingOf(pct, gap))
  {
    var tol := pct / 100.0;
    assert ZERO_HIGH_US * (1.0 + tol) <= ZERO_HIGH_US * 1.3 < ONE_HIGH_US * 0.7 <= ONE_HIGH_US * (1.0 - tol);
  }

  // ---- every transmission has a capture ----

  /** The clean edge capture of a pulse stream. */
  function EdgesOf(ps: seq<Pulse>): (ts: seq<Transition>)
    ensures |ts| == 2 * |ps|
  {
    seq(2 * |ps|, i requires 0 <= i < 2 * |ps| =>
          if i % 2 == 0 then Transition(ps[i / 2].rise, 1) else Transition(ps[i / 2].fall, 0))
  }

  predicate Ordered(ps: seq<Pulse>) {
    && (forall i :: 0 <= i < |ps| ==> ps[i].rise < ps[i].fall)
    && (forall i :: 1 <= i < |ps| ==> ps[i - 1].fall < ps[i].rise)
  }

  /** Extracting pulses loses nothing: any ordered pulse stream comes back from its edges. */
  lemma PulsesOfEdges(ps: seq<Pulse>)
    requires ps != [] && Ordered(ps)
    ensures WellFormedEdges(EdgesOf(ps)) && PulsesOf(EdgesOf(ps)) == ps
  {
    EdgesAreWellFormed(ps);
    var ts := EdgesOf(ps);
    forall k | 0 <= k < |ps| ensures PulseAt(ts, k) == ps[k] {
      assert ts[2 * k].timestamp == ps[k].rise && ts[2 * k + 1].timestamp == ps[k].fall;
    }
    assert PulsesOf(ts) == ps;
  }

  lemma EdgesAreWellFormed(ps: seq<Pulse>)
    requires ps != [] && Ordered(ps)
    ensures WellFormedEdges(EdgesOf(ps)) && Lead(EdgesOf(ps)) == 0
  {
    var ts := EdgesOf(ps);
    forall i | 1 <= i < |ts| ensures ts[i - 1].timestamp < ts[i].timestamp {
      EdgeRises(ps, i);
    }
    assert ts[0].level == 1;
  }

  lemma EdgeRises(ps: seq<Pulse>, i: nat)
    requires Ordered(ps) && 1 <= i < 2 * |ps|
    ensures EdgesOf(ps)[i - 1].timestamp < EdgesOf(ps)[i].timestamp
  {
    var k := i / 2;
    if i % 2 == 0 {
      assert (i - 1) / 2 == k - 1 && (i - 1) % 2 == 1;
      assert ps[k - 1].fall < ps[k].rise;
    } else {
      assert (i - 1) / 2 == k && (i - 1) % 2 == 0;
    }
  }

  // ---- captures ----

  /** The capture is of some transmission of these commands. */
  predicate Captures(cmds: seq<Command>, ts: seq<Transition>, pct: real, gap: real) {
    WellFormedEdges(ts) && Transmits(cmds, PulsesOf(ts), TimingOf(pct, gap))
  }

  /** Frame k of the decoded frames carries command k. */
  predicate Carries(frames: seq<Frame>, cmds: seq<Command>) {
    && |frames| == |cmds|
    && forall k :: 0 <= k < |cmds| ==>
         frames[k].value == cmds[k].throttle && frames[k].telemetry == cmds[k].telemetry
  }

  /** The accepted captures are those of transmissions, and the frames are what was sent. */
  lemma CapturesDecode(ts: seq<Transition>, pct: real, gap: real)
    requires ValidSettings(pct, gap)
    ensures WellFormedEdges(ts) && FrameStream(PulsesOf(ts), TimingOf(pct, gap))
            <==> exists cmds :: Captures(cmds, ts, pct, gap)
    ensures forall cmds :: Captures(cmds, ts, pct, gap) ==> Carries(FramesOf(PulsesOf(ts), TimingOf(pct, gap)), cmds)
  {
    if WellFormedEdges(ts) {
      var ps, t := PulsesOf(ts), TimingOf(pct, gap);
      DecoderInvertsEncoder(ps, pct, gap);
      if FrameStream(ps, t) {
        var cmds: seq<Command> :| Transmits(cmds, ps, t);
        assert Captures(cmds, ts, pct, gap);
      }
      forall cmds: seq<Command> | Captures(cmds, ts, pct, gap) ensures Carries(FramesOf(ps, t), cmds) {
        assert CommandsOf(ps, t) == cmds;
        forall k | 0 <= k < |cmds|
          ensures FramesOf(ps, t)[k].value == cmds[k].throttle && FramesOf(ps, t)[k].telemetry == cmds[k].telemetry
        {
          assert CommandsOf(ps, t)[k] == cmds[k];
        }
      }
    }
  }
}
