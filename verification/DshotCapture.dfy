/**
 * scripts/analyze_dshot_capture.py: decoding edge captures. The methods follow the
 * script's loops and accept exactly what DshotStream describes.
 */
module DshotCapture {
  import opened BitArith
  import opened DshotFrame
  import opened DshotStream
  import opened DshotInverse

  // ---- pulses ----

  /** What the edge loop knows after i edges: alternating levels, and these complete pulses. */
  predicate EdgesRead(ts: seq<Transition>, i: nat, pulses: seq<Pulse>, rising: bool, rise: real) {
    && i <= |ts| && Increasing(ts[..i])
    && (i > 0 ==> i == Lead(ts) + 2 * |pulses| + (if rising then 1 else 0))
    && (i == 0 ==> pulses == [] && !rising)
    && (rising ==> i > 0 && rise == ts[i - 1].timestamp)
    && (forall j :: Lead(ts) <= j < i ==> ts[j].level == (if (j - Lead(ts)) % 2 == 0 then 1 else 0))
    && (forall k :: 0 <= k < |pulses| ==> Lead(ts) + 2 * k + 1 < |ts| && pulses[k] == PulseAt(ts, k))
  }

  lemma IncreasingStep(ts: seq<Transition>, i: nat)
    requires i < |ts| && Increasing(ts[..i]) && (i > 0 ==> ts[i - 1].timestamp < ts[i].timestamp)
    ensures Increasing(ts[..i + 1])
  {
    assert ts[..i + 1] == ts[..i] + [ts[i]];
  }

  lemma RiseRead(ts: seq<Transition>, i: nat, pulses: seq<Pulse>, rise: real)
    requires EdgesRead(ts, i, pulses, false, rise) && i < |ts| && ts[i].level == 1
    requires Increasing(ts[..i + 1])
    ensures EdgesRead(ts, i + 1, pulses, true, ts[i].timestamp)
  {
  }

  lemma FallRead(ts: seq<Transition>, i: nat, pulses: seq<Pulse>, rise: real)
    requires EdgesRead(ts, i, pulses, true, rise) && i < |ts| && ts[i].level == 0
    requires Increasing(ts[..i + 1])
    ensures EdgesRead(ts, i + 1, pulses + [Pulse(rise, ts[i].timestamp)], false, rise)
  {
    assert Pulse(rise, ts[i].timestamp) == PulseAt(ts, |pulses|);
  }

  /** At the end the capture is well formed exactly when a pulse was seen and none is open. */
  lemma EdgesAllRead(ts: seq<Transition>, pulses: seq<Pulse>, rising: bool, rise: real)
    requires EdgesRead(ts, |ts|, pulses, rising, rise)
    ensures WellFormedEdges(ts) <==> !rising && pulses != []
    ensures WellFormedEdges(ts) ==> pulses == PulsesOf(ts)
  {
    assert ts[..|ts|] == ts;
  }

  /** An edge out of order, or of the wrong level, makes the capture malformed. */
  lemma BadEdge(ts: seq<Transition>, i: nat, pulses: seq<Pulse>, rising: bool, rise: real)
    requires EdgesRead(ts, i, pulses, rising, rise) && i < |ts|
    requires (i > 0 && ts[i].timestamp <= ts[i - 1].timestamp) || (rising && ts[i].level != 0)
             || (!rising && i > 0 && ts[i].level != 1) || (ts[i].level != 0 && ts[i].level != 1)
    ensures !WellFormedEdges(ts)
  {
  }

  /** _extract_pulses. */
  method ExtractPulses(ts: seq<Transition>) returns (r: Result<seq<Pulse>>)
    ensures r.Ok? <==> WellFormedEdges(ts)
    ensures r.Ok? ==> r.value == PulsesOf(ts)
  {
    var pulses: seq<Pulse> := [];
    var rising := false;
    var rise := 0.0;
    var i := 0;
    while i < |ts|
      invariant 0 <= i <= |ts| && EdgesRead(ts, i, pulses, rising, rise)
    {
      var edge := ts[i];
      if i > 0 && edge.timestamp <= ts[i - 1].timestamp {
        BadEdge(ts, i, pulses, rising, rise);
        return Rejected(NotIncreasing);
      }
      if edge.level != 0 && edge.level != 1 {
        BadEdge(ts, i, pulses, rising, rise);
        return Rejected(BadLevel);
      }
      IncreasingStep(ts, i);
      if edge.level == 1 {
        if rising {
          BadEdge(ts, i, pulses, rising, rise);
          return Rejected(HighFollowsHigh);
        }
        RiseRead(ts, i, pulses, rise);
        rising, rise := true, edge.timestamp;
      } else if !rising {
        if i != 0 {
          BadEdge(ts, i, pulses, rising, rise);
          return Rejected(LowWithoutRise);
        }
      } else {
        FallRead(ts, i, pulses, rise);
        pulses := pulses + [Pulse(rise, edge.timestamp)];
        rising := false;
      }
      i := i + 1;
    }
    EdgesAllRead(ts, pulses, rising, rise);
    if rising { return Rejected(EndsHigh); }
    if pulses == [] { return Rejected(NoPulses); }
    return Ok(pulses);
  }

  // ---- the analyzer ----

  /** Consecutive pulses of a group are within the bit window. */
  predicate Chained(group: seq<Pulse>, t: Timing) {
    forall j :: 1 <= j < |group| ==> InBitWindow(group[j - 1], group[j], t)
  }

  /** The first i pulses are unambiguous and chained, and this is what was read from them. */
  predicate BitsRead(group: seq<Pulse>, t: Timing, i: nat, bits: seq<bool>, widths: seq<real>, periods: seq<real>) {
    && i <= |group| && |bits| == |widths| == i && |periods| == (if i == 0 then 0 else i - 1)
    && (forall j :: 0 <= j < i ==> IsZero(group[j], t) != IsOne(group[j], t))
    && (forall j :: 1 <= j < i ==> InBitWindow(group[j - 1], group[j], t))
    && (forall j :: 0 <= j < i ==> bits[j] == IsOne(group[j], t))
    && (forall j :: 0 <= j < i ==> widths[j] == group[j].High())
    && (forall j :: 0 <= j < |periods| ==> periods[j] == group[j + 1].rise - group[j].rise)
  }

  lemma BitRead(group: seq<Pulse>, t: Timing, i: nat, bits: seq<bool>, widths: seq<real>, periods: seq<real>)
    requires BitsRead(group, t, i, bits, widths, periods) && i < |group|
    requires IsZero(group[i], t) != IsOne(group[i], t) && (i > 0 ==> InBitWindow(group[i - 1], group[i], t))
    ensures BitsRead(group, t, i + 1, bits + [IsOne(group[i], t)], widths + [group[i].High()],
                     if i > 0 then periods + [group[i].rise - group[i - 1].rise] else periods)
  {
  }

  lemma AllRead(group: seq<Pulse>, t: Timing, bits: seq<bool>, widths: seq<real>, periods: seq<real>)
    requires group != [] && BitsRead(group, t, |group|, bits, widths, periods)
    ensures Unambiguous(group, t) && Chained(group, t)
    ensures bits == Bits(group, t) && widths == Widths(group) && periods == Periods(group)
  {
    forall j | 0 <= j < |group| ensures bits[j] == Bits(group, t)[j] && widths[j] == Widths(group)[j] {}
    forall j | 0 <= j < |group| - 1 ensures periods[j] == Periods(group)[j] {}
  }

  /** The bit loop: every width names one bit and every period is in the window. */
  method DecodeBits(group: seq<Pulse>, t: Timing)
    returns (r: Result<seq<bool>>, widths: seq<real>, periods: seq<real>)
    requires group != []
    ensures r.Ok? <==> Unambiguous(group, t) && Chained(group, t)
    ensures r.Ok? ==> r.value == Bits(group, t) && widths == Widths(group) && periods == Periods(group)
  {
    var bits: seq<bool> := [];
    widths, periods := [], [];
    var i := 0;
    while i < |group|
      invariant 0 <= i <= |group| && BitsRead(group, t, i, bits, widths, periods)
    {
      var zero, one := IsZero(group[i], t), IsOne(group[i], t);
      if zero == one { return Rejected(AmbiguousWidth), [], []; }
      if i > 0 && !InBitWindow(group[i - 1], group[i], t) { return Rejected(BadPeriod), [], []; }
      BitRead(group, t, i, bits, widths, periods);
      bits := bits + [one];
      widths := widths + [group[i].High()];
      if i > 0 { periods := periods + [group[i].rise - group[i - 1].rise]; }
      i := i + 1;
    }
    AllRead(group, t, bits, widths, periods);
    r := Ok(bits);
  }

  method DecodeGroup(group: seq<Pulse>, t: Timing) returns (r: Result<Frame>)
    requires group != []
    ensures r.Ok? <==> ValidGroup(group, t) && Chained(group, t)
    ensures r.Ok? ==> r.value == FrameOf(group, t)
  {
    if |group| != 16 { return Rejected(PartialFrame); }
    var decoded, widths, periods := DecodeBits(group, t);
    if decoded.Rejected? { return Rejected(decoded.error); }
    var word := WordFromBits(decoded.value);
    SixteenBitsFit(decoded.value);
    assert word == Word(group, t);
    if !ChecksumValid(word) { return Rejected(ChecksumMismatch); }
    if 1 <= Value(word) <= 47 { return Rejected(ReservedValue); }
    return Ok(Frame(group[0].rise, group[15].fall, decoded.value, word, Value(word), Telemetry(word),
                    word % 16, widths, periods));
  }

  lemma SixteenBitsFit(bits: seq<bool>)
    requires |bits| == 16
    ensures WordOf(bits) < 0x1_0000
  {
    BitsOfWord(bits);
    Pow2Values();
  }

  // ---- grouping ----

  /** The group is the run of pulses from `start` on, inside which periods fit. */
  predicate RunAt(ps: seq<Pulse>, group: seq<Pulse>, start: nat, t: Timing) {
    && group != [] && start + |group| <= |ps| && Chained(group, t)
    && forall j :: 0 <= j < |group| ==> group[j] == ps[start + j]
  }

  /** Group g is a run that begins where its predecessor ended, across a frame break. */
  predicate Placed(ps: seq<Pulse>, groups: seq<seq<Pulse>>, starts: seq<nat>, g: nat, t: Timing)
    requires g < |groups| == |starts|
  {
    && RunAt(ps, groups[g], starts[g], t)
    && if g == 0 then starts[0] == 0
       else && starts[g] == starts[g - 1] + |groups[g - 1]| && starts[g] > 0
            && IsFrameBreak(ps[starts[g] - 1], ps[starts[g]], t)
  }

  /** The groups partition the first `end` pulses. */
  ghost predicate Grouping(ps: seq<Pulse>, groups: seq<seq<Pulse>>, starts: seq<nat>, end: nat, t: Timing) {
    && |groups| == |starts| > 0
    && (forall g :: 0 <= g < |groups| ==> Placed(ps, groups, starts, g, t))
    && end == starts[|starts| - 1] + |groups[|groups| - 1]|
  }

  /** These neighbours fit neither inside a frame nor across a frame boundary. */
  predicate BreaksStream(a: Pulse, b: Pulse, t: Timing) {
    !InBitWindow(a, b, t) && !IsFrameBreak(a, b, t)
  }

  method GroupPulses(ps: seq<Pulse>, t: Timing)
    returns (r: Result<seq<seq<Pulse>>>, ghost starts: seq<nat>)
    requires ps != [] && t.period.min <= t.period.max
    ensures r.Ok? ==> Grouping(ps, r.value, starts, |ps|, t)
    ensures r.Rejected? ==> exists i :: 1 <= i < |ps| && BreaksStream(ps[i - 1], ps[i], t)
  {
    var groups := [[ps[0]]];
    starts := [0];
    var i := 1;
    assert Placed(ps, groups, starts, 0, t);
    while i < |ps|
      invariant 1 <= i <= |ps| && Grouping(ps, groups, starts, i, t)
    {
      var last := |groups| - 1;
      assert Placed(ps, groups, starts, last, t);
      var previous := groups[last][|groups[last]| - 1];
      assert previous == ps[i - 1];
      var delta := ps[i].rise - previous.rise;
      if delta < t.period.min {
        assert BreaksStream(ps[i - 1], ps[i], t);
        return Rejected(PulsesTooClose), starts;
      }
      if delta <= t.period.max {
        ExtendsGroup(ps, groups, starts, i, t);
        groups := groups[last := groups[last] + [ps[i]]];
      } else {
        if ps[i].rise - previous.fall < t.gap {
          assert BreaksStream(ps[i - 1], ps[i], t);
          return Rejected(GapTooShort), starts;
        }
        OpensGroup(ps, groups, starts, i, t);
        groups := groups + [[ps[i]]];
        starts := starts + [i];
      }
      i := i + 1;
    }
    return Ok(groups), starts;
  }

  lemma ExtendsGroup(ps: seq<Pulse>, groups: seq<seq<Pulse>>, starts: seq<nat>, i: nat, t: Timing)
    requires 1 <= i < |ps| && Grouping(ps, groups, starts, i, t)
    requires InBitWindow(ps[i - 1], ps[i], t)
    ensures Grouping(ps, groups[|groups| - 1 := groups[|groups| - 1] + [ps[i]]], starts, i + 1, t)
  {
    var last := |groups| - 1;
    var longer := groups[last] + [ps[i]];
    assert Placed(ps, groups, starts, last, t);
    assert RunAt(ps, longer, starts[last], t);
    var groups' := groups[last := longer];
    forall g | 0 <= g < |groups'| ensures Placed(ps, groups', starts, g, t) {
      assert Placed(ps, groups, starts, g, t);
    }
  }

  lemma OpensGroup(ps: seq<Pulse>, groups: seq<seq<Pulse>>, starts: seq<nat>, i: nat, t: Timing)
    requires 1 <= i < |ps| && Grouping(ps, groups, starts, i, t)
    requires IsFrameBreak(ps[i - 1], ps[i], t)
    ensures Grouping(ps, groups + [[ps[i]]], starts + [i], i + 1, t)
  {
    var groups', starts' := groups + [[ps[i]]], starts + [i];
    forall g | 0 <= g < |groups'| ensures Placed(ps, groups', starts', g, t) {
      if g < |groups| { assert Placed(ps, groups, starts, g, t); }
    }
  }

  /** In a stream of frames every group is exactly one frame. */
  lemma {:induction false} StreamsGroupBySixteen(
    ps: seq<Pulse>, groups: seq<seq<Pulse>>, starts: seq<nat>, t: Timing, g: nat)
    requires Grouping(ps, groups, starts, |ps|, t) && WellTimed(ps, t) && g < |groups|
    ensures starts[g] == 16 * g && |groups[g]| == 16
  {
    assert Placed(ps, groups, starts, g, t);
    if g > 0 { StreamsGroupBySixteen(ps, groups, starts, t, g - 1); }
    assert starts[g] == 16 * g;
    GroupIsNotLonger(ps, groups, starts, t, g);
    if g + 1 < |groups| { GroupIsNotShorter(ps, groups, starts, t, g); }
  }

  /** Inside a group every period fits, so it cannot reach past a frame boundary. */
  lemma GroupIsNotLonger(ps: seq<Pulse>, groups: seq<seq<Pulse>>, starts: seq<nat>, t: Timing, g: nat)
    requires Grouping(ps, groups, starts, |ps|, t) && WellTimed(ps, t) && g < |groups| && starts[g] == 16 * g
    ensures |groups[g]| <= 16
  {
    assert Placed(ps, groups, starts, g, t);
    assert |groups[g]| > 16 ==> InBitWindow(groups[g][15], groups[g][16], t);
  }

  /** A group that is not the last ends at a break, which inside a frame there is none. */
  lemma GroupIsNotShorter(ps: seq<Pulse>, groups: seq<seq<Pulse>>, starts: seq<nat>, t: Timing, g: nat)
    requires Grouping(ps, groups, starts, |ps|, t) && WellTimed(ps, t) && g + 1 < |groups| && starts[g] == 16 * g
    requires |groups[g]| <= 16
    ensures |groups[g]| == 16
  {
    var n := |groups[g]|;
    assert Placed(ps, groups, starts, g, t) && Placed(ps, groups, starts, g + 1, t);
    assert IsFrameBreak(ps[16 * g + n - 1], ps[16 * g + n], t);
  }

  /** Sixteen-pulse groups make a well-timed stream. */
  lemma {:induction false} SixteensStartAligned(
    ps: seq<Pulse>, groups: seq<seq<Pulse>>, starts: seq<nat>, t: Timing, g: nat)
    requires Grouping(ps, groups, starts, |ps|, t) && g < |groups|
    requires forall k :: 0 <= k < |groups| ==> |groups[k]| == 16
    ensures starts[g] == 16 * g
  {
    assert Placed(ps, groups, starts, g, t);
    if g > 0 { SixteensStartAligned(ps, groups, starts, t, g - 1); }
  }

  lemma SixteensAreWellTimed(ps: seq<Pulse>, groups: seq<seq<Pulse>>, starts: seq<nat>, t: Timing)
    requires Grouping(ps, groups, starts, |ps|, t)
    requires forall k :: 0 <= k < |groups| ==> |groups[k]| == 16
    ensures WellTimed(ps, t) && |ps| == 16 * |groups|
  {
    SixteensStartAligned(ps, groups, starts, t, |groups| - 1);
    forall i | 1 <= i < |ps|
      ensures if i % 16 == 0 then IsFrameBreak(ps[i - 1], ps[i], t) else InBitWindow(ps[i - 1], ps[i], t)
    {
      var g, j := i / 16, i % 16;
      SixteensStartAligned(ps, groups, starts, t, g);
      assert Placed(ps, groups, starts, g, t);
      if j > 0 { assert InBitWindow(groups[g][j - 1], groups[g][j], t); }
    }
  }

  /** A group that starts at a multiple of sixteen is the frame-sized slice there. */
  lemma RunIsSlice(ps: seq<Pulse>, group: seq<Pulse>, k: nat, t: Timing)
    requires RunAt(ps, group, 16 * k, t) && |group| == 16
    ensures group == Group(ps, k)
  {
  }

  datatype Analysis = Analysis(frames: seq<Frame>, interFrameLow: seq<real>)

  /** The first g groups are valid and these are their frames and the gaps between. */
  ghost predicate Decoded(groups: seq<seq<Pulse>>, g: nat, frames: seq<Frame>, gaps: seq<real>, t: Timing) {
    && g <= |groups| && |frames| == g && |gaps| == (if g == 0 then 0 else g - 1)
    && (forall k :: 0 <= k < g ==> ValidGroup(groups[k], t) && frames[k] == FrameOf(groups[k], t))
    && (forall k :: 0 <= k < |gaps| ==> gaps[k] == GapBetween(groups[k], groups[k + 1]))
  }

  /** The frame loop over the groups. */
  method DecodeFrames(groups: seq<seq<Pulse>>, t: Timing)
    returns (r: Result<Analysis>)
    requires forall k :: 0 <= k < |groups| ==> groups[k] != [] && Chained(groups[k], t)
    ensures r.Ok? ==> Decoded(groups, |groups|, r.value.frames, r.value.interFrameLow, t)
    ensures r.Rejected? ==> exists g :: 0 <= g < |groups| && !ValidGroup(groups[g], t)
  {
    var frames: seq<Frame> := [];
    var gaps: seq<real> := [];
    var g := 0;
    while g < |groups|
      invariant 0 <= g <= |groups| && Decoded(groups, g, frames, gaps, t)
    {
      var decoded := DecodeGroup(groups[g], t);
      if decoded.Rejected? { return Rejected(decoded.error); }
      DecodedFrame(groups, g, frames, gaps, t);
      if frames != [] { gaps := gaps + [decoded.value.start - frames[|frames| - 1].end]; }
      frames := frames + [decoded.value];
      g := g + 1;
    }
    return Ok(Analysis(frames, gaps));
  }

  lemma DecodedFrame(groups: seq<seq<Pulse>>, g: nat, frames: seq<Frame>, gaps: seq<real>, t: Timing)
    requires Decoded(groups, g, frames, gaps, t) && g < |groups| && ValidGroup(groups[g], t)
    ensures var frame := FrameOf(groups[g], t);
            Decoded(groups, g + 1, frames + [frame],
                    if g == 0 then gaps else gaps + [frame.start - frames[g - 1].end], t)
  {
    var frame := FrameOf(groups[g], t);
    var gaps' := if g == 0 then gaps else gaps + [frame.start - frames[g - 1].end];
    assert g > 0 ==> frames[g - 1] == FrameOf(groups[g - 1], t);
    if g > 0 { NextGap(groups, g, frames, gaps, t); }
    forall k | 0 <= k < |gaps'| ensures gaps'[k] == GapBetween(groups[k], groups[k + 1]) {
    }
  }

  lemma NextGap(groups: seq<seq<Pulse>>, g: nat, frames: seq<Frame>, gaps: seq<real>, t: Timing)
    requires Decoded(groups, g, frames, gaps, t) && 0 < g < |groups| && ValidGroup(groups[g], t)
    ensures FrameOf(groups[g], t).start - frames[g - 1].end == GapBetween(groups[g - 1], groups[g])
  {
    assert frames[g - 1] == FrameOf(groups[g - 1], t) && |groups[g - 1]| == 16;
  }

  /** When every group is a valid frame the groups are the frames of the stream. */
  lemma GroupsAreFrames(
    ps: seq<Pulse>, groups: seq<seq<Pulse>>, starts: seq<nat>, frames: seq<Frame>, gaps: seq<real>, t: Timing)
    requires Grouping(ps, groups, starts, |ps|, t) && Decoded(groups, |groups|, frames, gaps, t)
    ensures FrameStream(ps, t) && frames == FramesOf(ps, t) && gaps == GapsOf(ps)
  {
    SixteensAreWellTimed(ps, groups, starts, t);
    SixteensAreSlices(ps, groups, starts, t);
    SlicesAreFrames(ps, groups, frames, t);
    SlicesHaveGaps(ps, groups, gaps);
  }

  lemma SlicesAreFrames(ps: seq<Pulse>, groups: seq<seq<Pulse>>, frames: seq<Frame>, t: Timing)
    requires |ps| == 16 * |groups| && |frames| == |groups| && WellTimed(ps, t)
    requires forall k :: 0 <= k < |groups| ==> groups[k] == Group(ps, k)
    requires forall k :: 0 <= k < |groups| ==> ValidGroup(groups[k], t) && frames[k] == FrameOf(groups[k], t)
    ensures FrameStream(ps, t) && frames == FramesOf(ps, t)
  {
    forall k | 0 <= k < |ps| / 16 ensures ValidGroup(Group(ps, k), t) {
      assert groups[k] == Group(ps, k);
    }
  }

  lemma SlicesHaveGaps(ps: seq<Pulse>, groups: seq<seq<Pulse>>, gaps: seq<real>)
    requires |ps| == 16 * |groups| && |groups| > 0 && |gaps| == |groups| - 1
    requires forall k :: 0 <= k < |groups| ==> groups[k] == Group(ps, k)
    requires forall k :: 0 <= k < |gaps| ==>
               gaps[k] == GapBetween(groups[k], groups[k + 1])
    ensures gaps == GapsOf(ps)
  {
  }

  lemma SixteensAreSlices(ps: seq<Pulse>, groups: seq<seq<Pulse>>, starts: seq<nat>, t: Timing)
    requires Grouping(ps, groups, starts, |ps|, t) && |ps| == 16 * |groups|
    requires forall k :: 0 <= k < |groups| ==> |groups[k]| == 16
    ensures forall k :: 0 <= k < |groups| ==> groups[k] == Group(ps, k)
  {
    forall k | 0 <= k < |groups| ensures groups[k] == Group(ps, k) {
      SixteensStartAligned(ps, groups, starts, t, k);
      assert Placed(ps, groups, starts, k, t);
    }
  }

  lemma BadGroupMeansNoStream(ps: seq<Pulse>, groups: seq<seq<Pulse>>, starts: seq<nat>, t: Timing, g: nat)
    requires Grouping(ps, groups, starts, |ps|, t) && g < |groups| && !ValidGroup(groups[g], t)
    ensures !FrameStream(ps, t)
  {
    if FrameStream(ps, t) {
      StreamsGroupBySixteen(ps, groups, starts, t, g);
      assert Placed(ps, groups, starts, g, t);
      RunIsSlice(ps, groups[g], g, t);
      assert false;
    }
  }

  /**
   * analyze_transitions accepts exactly the well-formed captures whose pulses are
   * a stream of valid frames, and then returns those frames and the gaps between.
   * Said of the wire: it accepts exactly the captures of what the encoder can send,
   * and frame k carries command k.
   */
  method AnalyzeTransitions(ts: seq<Transition>, pct: real, gap: real) returns (r: Result<Analysis>)
    ensures r.Ok? <==> ValidSettings(pct, gap) && WellFormedEdges(ts)
                       && FrameStream(PulsesOf(ts), TimingOf(pct, gap))
    ensures r.Ok? ==> r.value == Analysis(FramesOf(PulsesOf(ts), TimingOf(pct, gap)), GapsOf(PulsesOf(ts)))
    ensures r.Ok? <==> ValidSettings(pct, gap) && exists cmds :: Captures(cmds, ts, pct, gap)
    ensures r.Ok? ==> forall cmds :: Captures(cmds, ts, pct, gap) ==> Carries(r.value.frames, cmds)
  {
    if ValidSettings(pct, gap) { CapturesDecode(ts, pct, gap); }
    if !(0.0 < pct <= 30.0) { return Rejected(BadTolerance); }
    if gap < 0.0 { return Rejected(BadGap); }
    var t := TimingOf(pct, gap);
    var pulses := ExtractPulses(ts);
    if pulses.Rejected? { return Rejected(pulses.error); }
    PeriodWindowIsOrdered(pct, gap);
    var groups, starts := GroupPulses(pulses.value, t);
    if groups.Rejected? { return Rejected(groups.error); }
    GroupsAreRuns(pulses.value, groups.value, starts, t);
    r := DecodeFrames(groups.value, t);
    if r.Ok? {
      GroupsAreFrames(pulses.value, groups.value, starts, r.value.frames, r.value.interFrameLow, t);
    } else {
      ghost var g :| 0 <= g < |groups.value| && !ValidGroup(groups.value[g], t);
      BadGroupMeansNoStream(pulses.value, groups.value, starts, t, g);
    }
  }

  lemma GroupsAreRuns(ps: seq<Pulse>, groups: seq<seq<Pulse>>, starts: seq<nat>, t: Timing)
    requires Grouping(ps, groups, starts, |ps|, t)
    ensures forall k :: 0 <= k < |groups| ==> groups[k] != [] && Chained(groups[k], t)
  {
    forall k | 0 <= k < |groups| ensures groups[k] != [] && Chained(groups[k], t) {
      assert Placed(ps, groups, starts, k, t);
    }
  }
}
