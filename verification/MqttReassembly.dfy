/**
 * Fragment reassembly of main/mqtt_manager.c (mqtt_manager_handle_data_event): what a
 * DATA event does to the assembly buffer, as a function of values; class Receiver does
 * it in place on the fixed buffers.
 */
module MqttReassembly {
  import opened Prelude

  const TOPIC_CAPACITY: nat := 192
  const PAYLOAD_CAPACITY: nat := 768

  type Byte = bv8

  /**
   * A DATA event. current says whether it comes from the current client of a ready
   * session; topic and data are None for null pointers.
   */
  datatype Fragment = Fragment(
    current: bool, generation: nat, topic: Option<seq<char>>, retained: bool,
    total: int, offset: int, length: int, data: Option<seq<Byte>>)

  /** What the client library guarantees: non-null data has the announced length. */
  predicate WellFormed(f: Fragment) { f.data.Some? && f.length >= 0 ==> |f.data.value| == f.length }

  datatype Rx = Rx(
    topic: seq<char>, payload: seq<Byte>, total: int, next: int, generation: nat, retained: bool, dropping: bool)

  const RESET := Rx([], [], 0, 0, 0, false, false)

  datatype Delivery = Delivery(topic: seq<char>, payload: seq<Byte>, generation: nat, retained: bool)

  predicate TopicValid(topic: Option<seq<char>>) {
    topic.Some? && 0 < |topic.value| < TOPIC_CAPACITY && '\0' !in topic.value
  }

  /** The first fragment of a message that can be taken. */
  predicate Acceptable(f: Fragment) {
    && TopicValid(f.topic) && f.total < PAYLOAD_CAPACITY && f.length <= f.total
    && (f.length > 0 ==> f.data.Some?)
  }

  /** A message that must be dropped is tracked to its end. */
  function Drop(f: Fragment): Rx {
    if f.length >= f.total then RESET else Rx([], [], f.total, f.length, 0, false, true)
  }

  function Begin(f: Fragment): Rx
    requires f.topic.Some?
  {
    Rx(f.topic.value, [], f.total, 0, f.generation, f.retained, false)
  }

  predicate Continues(rx: Rx, f: Fragment) {
    f.total == rx.total && f.offset == rx.next && f.offset <= f.total && f.length <= f.total - f.offset
  }

  function Bytes(f: Fragment): seq<Byte> { if f.data.Some? then f.data.value else [] }

  function Extend(rx: Rx, f: Fragment): (Rx, Option<Delivery>) {
    var payload := if f.length > 0 then rx.payload + Bytes(f) else rx.payload;
    if rx.next + f.length == rx.total
    then (RESET, Some(Delivery(rx.topic, payload, f.generation, rx.retained)))
    else (rx.(payload := payload, next := rx.next + f.length), None)
  }

  /** One DATA event: the new assembly and the message that reaches the enqueue step, if any. */
  function Handle(rx: Rx, f: Fragment): (Rx, Option<Delivery>) {
    if !f.current then (rx, None)
    else if f.total < 0 || f.offset < 0 || f.length < 0 then (RESET, None)
    else if f.offset == 0 && !Acceptable(f) then (Drop(f), None)
    else
      var begun := if f.offset == 0 && f.topic.Some? then Begin(f) else rx;
      if begun.dropping then
        (if !Continues(begun, f) || begun.next + f.length == f.total then RESET
         else begun.(next := begun.next + f.length), None)
      else if begun.topic == [] || begun.generation != f.generation || !Continues(begun, f)
              || (f.length > 0 && f.data.None?) then (RESET, None)
      else Extend(begun, f)
  }

  /** The assembly after a sequence of events, and everything that reached the enqueue step. */
  function HandleAll(rx: Rx, fs: seq<Fragment>): (Rx, seq<Delivery>)
    decreases |fs|
  {
    if fs == [] then (rx, []) else
    var (next, delivery) := Handle(rx, fs[0]);
    var (last, rest) := HandleAll(next, fs[1..]);
    (last, if delivery.Some? then [delivery.value] + rest else rest)
  }

  // ---- splitting a message ----

  function Sum(parts: seq<seq<Byte>>): (n: nat)
  {
    if parts == [] then 0 else |parts[0]| + Sum(parts[1..])
  }

  function Concat(parts: seq<seq<Byte>>): (all: seq<Byte>)
    ensures |all| == Sum(parts)
  {
    if parts == [] then [] else parts[0] + Concat(parts[1..])
  }

  /** The events of one message sent in these parts; only the first carries the topic. */
  function Split(topic: seq<char>, retained: bool, generation: nat, total: nat, offset: nat,
                 parts: seq<seq<Byte>>): (fs: seq<Fragment>)
    ensures |fs| == |parts|
    decreases |parts|
  {
    if parts == [] then [] else
    [Fragment(true, generation, if offset == 0 then Some(topic) else None, retained, total, offset,
              |parts[0]|, Some(parts[0]))]
    + Split(topic, retained, generation, total, offset + |parts[0]|, parts[1..])
  }

  /** In-order nonempty parts; an empty message is one empty part. */
  predicate Proper(parts: seq<seq<Byte>>) {
    parts == [[]] || (parts != [] && forall i :: 0 <= i < |parts| ==> parts[i] != [])
  }

  lemma {:induction false} RestDelivers(
    topic: seq<char>, retained: bool, generation: nat, done: seq<Byte>, parts: seq<seq<Byte>>)
    requires topic != [] && |done| > 0 && parts != []
    requires forall i :: 0 <= i < |parts| ==> parts[i] != []
    ensures var total := |done| + Sum(parts);
            HandleAll(Rx(topic, done, total, |done|, generation, retained, false),
                      Split(topic, retained, generation, total, |done|, parts))
            == (RESET, [Delivery(topic, done + Concat(parts), generation, retained)])
    decreases |parts|
  {
    var total := |done| + Sum(parts);
    var rx := Rx(topic, done, total, |done|, generation, retained, false);
    var fs := Split(topic, retained, generation, total, |done|, parts);
    var more := done + parts[0];
    assert done + Concat(parts) == more + Concat(parts[1..]);
    if |parts| == 1 {
      assert parts[1..] == [] && fs[1..] == [];
      assert Handle(rx, fs[0]) == (RESET, Some(Delivery(topic, more, generation, retained)));
      assert HandleAll(RESET, fs[1..]) == (RESET, []);
      var d := Delivery(topic, more, generation, retained);
      assert [d] + [] == [d] && more + Concat(parts[1..]) == more;
    } else {
      assert Sum(parts[1..]) > 0 by { assert parts[1..][0] == parts[1]; }
      assert Handle(rx, fs[0]) == (Rx(topic, more, total, |more|, generation, retained, false), None);
      assert fs[1..] == Split(topic, retained, generation, total, |more|, parts[1..]);
      RestDelivers(topic, retained, generation, more, parts[1..]);
    }
  }

  /**
   * Any split of an acceptable message, arriving in one ready session, reaches the
   * enqueue step exactly once, whole, whatever the buffer held before.
   */
  lemma SplitDeliversOnce(
    rx: Rx, topic: seq<char>, retained: bool, generation: nat, parts: seq<seq<Byte>>)
    requires TopicValid(Some(topic)) && Proper(parts) && Sum(parts) < PAYLOAD_CAPACITY
    ensures HandleAll(rx, Split(topic, retained, generation, Sum(parts), 0, parts))
            == (RESET, [Delivery(topic, Concat(parts), generation, retained)])
  {
    var total := Sum(parts);
    var fs := Split(topic, retained, generation, total, 0, parts);
    assert Sum(parts) == |parts[0]| + Sum(parts[1..]);
    assert Acceptable(fs[0]) && [] + parts[0] == parts[0];
    assert Handle(rx, fs[0]) == Extend(Begin(fs[0]), fs[0]);
    if |parts| == 1 {
      assert parts[1..] == [] && fs[1..] == [] && Concat(parts) == parts[0];
      assert Handle(rx, fs[0]) == (RESET, Some(Delivery(topic, parts[0], generation, retained)));
      assert HandleAll(RESET, fs[1..]) == (RESET, []);
      var d := Delivery(topic, parts[0], generation, retained);
      assert [d] + [] == [d];
    } else {
      assert Sum(parts[1..]) > 0 by { assert parts[1..][0] == parts[1]; }
      assert Handle(rx, fs[0]) == (Rx(topic, parts[0], total, |parts[0]|, generation, retained, false), None);
      assert fs[1..] == Split(topic, retained, generation, total, |parts[0]|, parts[1..]);
      RestDelivers(topic, retained, generation, parts[0], parts[1..]);
    }
  }

  lemma {:induction false} DroppedRest(
    topic: seq<char>, retained: bool, generation: nat, total: nat, offset: nat, parts: seq<seq<Byte>>)
    requires offset > 0 && offset + Sum(parts) == total && parts != []
    requires forall i :: 0 <= i < |parts| ==> parts[i] != []
    ensures HandleAll(Rx([], [], total, offset, 0, false, true),
                      Split(topic, retained, generation, total, offset, parts)) == (RESET, [])
    decreases |parts|
  {
    var rx := Rx([], [], total, offset, 0, false, true);
    var fs := Split(topic, retained, generation, total, offset, parts);
    var next := offset + |parts[0]|;
    if |parts| == 1 {
      assert parts[1..] == [] && fs[1..] == [];
      assert Handle(rx, fs[0]) == (RESET, None);
      assert HandleAll(RESET, fs[1..]) == (RESET, []);
    } else {
      assert Sum(parts[1..]) > 0 by { assert parts[1..][0] == parts[1]; }
      assert Handle(rx, fs[0]) == (rx.(next := next), None);
      assert fs[1..] == Split(topic, retained, generation, total, next, parts[1..]);
      DroppedRest(topic, retained, generation, total, next, parts[1..]);
    }
  }

  /** A message too large for the buffer delivers nothing and leaves nothing behind. */
  lemma OversizedLeavesNothing(
    rx: Rx, topic: seq<char>, retained: bool, generation: nat, parts: seq<seq<Byte>>)
    requires Proper(parts) && Sum(parts) >= PAYLOAD_CAPACITY
    ensures HandleAll(rx, Split(topic, retained, generation, Sum(parts), 0, parts)) == (RESET, [])
  {
    var total := Sum(parts);
    var fs := Split(topic, retained, generation, total, 0, parts);
    assert total == |parts[0]| + Sum(parts[1..]);
    if |parts| == 1 {
      assert parts[1..] == [] && fs[1..] == [];
      assert Handle(rx, fs[0]) == (RESET, None);
      assert HandleAll(RESET, fs[1..]) == (RESET, []);
    } else {
      assert Sum(parts[1..]) > 0 by { assert parts[1..][0] == parts[1]; }
      assert Handle(rx, fs[0]) == (Rx([], [], total, |parts[0]|, 0, false, true), None);
      assert fs[1..] == Split(topic, retained, generation, total, |parts[0]|, parts[1..]);
      DroppedRest(topic, retained, generation, total, |parts[0]|, parts[1..]);
    }
  }

  // ---- whatever arrives ----

  /** The events of the current client; others leave the buffer alone. */
  function Current(fs: seq<Fragment>): seq<Fragment> {
    if fs == [] then [] else (if fs[0].current then [fs[0]] else []) + Current(fs[1..])
  }

  function Joined(fs: seq<Fragment>): seq<Byte> {
    if fs == [] then [] else Joined(fs[..|fs| - 1]) + (if fs[|fs| - 1].length > 0 then Bytes(fs[|fs| - 1]) else [])
  }

  /** One contiguous run from offset 0, in one generation, of one message. */
  predicate IsRun(fs: seq<Fragment>, topic: seq<char>, total: int, generation: nat, retained: bool) {
    && fs != [] && fs[0].offset == 0 && fs[0].topic == Some(topic) && fs[0].retained == retained
    && (forall i :: 0 <= i < |fs| ==> fs[i].generation == generation && fs[i].total == total && fs[i].length >= 0)
    && (forall i :: 0 <= i < |fs| - 1 ==> fs[i + 1].offset == fs[i].offset + fs[i].length)
  }

  /** The buffer holds exactly the run that ends the events so far. */
  ghost predicate Holds(rx: Rx, fs: seq<Fragment>) {
    rx.topic != [] ==>
      && !rx.dropping
      && exists k :: 0 <= k <= |fs| && RunHeld(rx, Current(fs[k..]))
  }

  predicate RunHeld(rx: Rx, run: seq<Fragment>) {
    && IsRun(run, rx.topic, rx.total, rx.generation, rx.retained)
    && rx.payload == Joined(run)
    && rx.next == run[|run| - 1].offset + run[|run| - 1].length
  }

  lemma {:induction false} CurrentAppend(fs: seq<Fragment>, f: Fragment)
    ensures Current(fs + [f]) == Current(fs) + (if f.current then [f] else [])
  {
    if fs != [] {
      assert (fs + [f])[0] == fs[0] && (fs + [f])[1..] == fs[1..] + [f];
      CurrentAppend(fs[1..], f);
    }
  }

  lemma JoinedAppend(run: seq<Fragment>, f: Fragment)
    ensures Joined(run + [f]) == Joined(run) + (if f.length > 0 then Bytes(f) else [])
  {
    assert (run + [f])[..|run|] == run;
  }

  /** A delivery is the run that ends with its last fragment. */
  ghost predicate Delivered(d: Delivery, fs: seq<Fragment>) {
    exists k, total :: 0 <= k <= |fs| && DeliveredRun(d, Current(fs[k..]), total)
  }

  predicate DeliveredRun(d: Delivery, run: seq<Fragment>, total: int) {
    && IsRun(run, d.topic, total, d.generation, d.retained) && d.payload == Joined(run)
    && run[|run| - 1].offset + run[|run| - 1].length == total
  }

  /** One more event keeps the buffer honest, and what it delivers is one run. */
  lemma StepHolds(rx: Rx, fs: seq<Fragment>, f: Fragment)
    requires Holds(rx, fs)
    ensures Holds(Handle(rx, f).0, fs + [f])
    ensures Handle(rx, f).1.Some? ==> Delivered(Handle(rx, f).1.value, fs + [f])
  {
    if !f.current {
      IgnoredHolds(rx, fs, f);
    } else if f.total >= 0 && f.offset >= 0 && f.length >= 0 {
      if f.offset == 0 && Acceptable(f) {
        SuffixAppend(fs, f, |fs|);
        BeginHolds(rx, fs, f);
      } else if f.offset != 0 && rx.topic != [] {
        var k :| 0 <= k <= |fs| && RunHeld(rx, Current(fs[k..]));
        SuffixAppend(fs, f, k);
        ExtendHolds(rx, fs, f, k);
      } else {
        DroppedHolds(rx, f);
      }
    }
  }

  /** Without a message in progress nothing is assembled or delivered. */
  lemma DroppedHolds(rx: Rx, f: Fragment)
    requires f.current && (if f.offset == 0 then !Acceptable(f) else rx.topic == [])
    ensures Handle(rx, f).0.topic == [] && Handle(rx, f).1.None?
  {
  }

  lemma IgnoredHolds(rx: Rx, fs: seq<Fragment>, f: Fragment)
    requires Holds(rx, fs) && !f.current
    ensures Holds(rx, fs + [f])
  {
    if rx.topic != [] {
      var k :| 0 <= k <= |fs| && RunHeld(rx, Current(fs[k..]));
      IgnoredSuffix(fs, f, k);
    }
  }

  lemma IgnoredSuffix(fs: seq<Fragment>, f: Fragment, k: nat)
    requires k <= |fs| && !f.current
    ensures Current((fs + [f])[k..]) == Current(fs[k..])
  {
    SuffixAppend(fs, f, k);
    assert Current(fs[k..]) + [] == Current(fs[k..]);
  }

  lemma SuffixAppend(fs: seq<Fragment>, f: Fragment, k: nat)
    requires k <= |fs|
    ensures Current((fs + [f])[k..]) == Current(fs[k..]) + (if f.current then [f] else [])
  {
    assert (fs + [f])[k..] == fs[k..] + [f];
    CurrentAppend(fs[k..], f);
  }

  lemma FirstRun(f: Fragment)
    requires f.offset == 0 && f.length >= 0 && f.topic.Some?
    ensures IsRun([f], f.topic.value, f.total, f.generation, f.retained)
    ensures Joined([f]) == if f.length > 0 then Bytes(f) else []
    ensures f.length > 0 ==> Begin(f).payload + Bytes(f) == Joined([f])
  {
    JoinedAppend([], f);
    assert [] + [f] == [f];
    assert [] + Bytes(f) == Bytes(f);
  }

  lemma BeginHolds(rx: Rx, fs: seq<Fragment>, f: Fragment)
    requires f.current && f.offset == 0 && f.total >= 0 && f.length >= 0 && Acceptable(f)
    requires Current((fs + [f])[|fs|..]) == [f]
    ensures Holds(Handle(rx, f).0, fs + [f])
    ensures Handle(rx, f).1.Some? ==> Delivered(Handle(rx, f).1.value, fs + [f])
  {
    var (rx', d) := Extend(Begin(f), f);
    assert Handle(rx, f) == Extend(Begin(f), f);
    FirstRun(f);
    if d.Some? {
      assert DeliveredRun(d.value, [f], f.total);
    } else {
      assert RunHeld(rx', [f]);
    }
  }

  lemma RunExtends(rx: Rx, run: seq<Fragment>, f: Fragment)
    requires RunHeld(rx, run) && rx.generation == f.generation && Continues(rx, f) && f.length >= 0
    ensures IsRun(run + [f], rx.topic, rx.total, rx.generation, rx.retained)
    ensures Joined(run + [f]) == if f.length > 0 then rx.payload + Bytes(f) else rx.payload
  {
    JoinedAppend(run, f);
    assert rx.payload + [] == rx.payload;
  }

  lemma ExtendHolds(rx: Rx, fs: seq<Fragment>, f: Fragment, k: nat)
    requires f.current && f.offset > 0 && f.total >= 0 && f.length >= 0
    requires rx.topic != [] && !rx.dropping && k <= |fs| && RunHeld(rx, Current(fs[k..]))
    requires Current((fs + [f])[k..]) == Current(fs[k..]) + [f]
    ensures Holds(Handle(rx, f).0, fs + [f])
    ensures Handle(rx, f).1.Some? ==> Delivered(Handle(rx, f).1.value, fs + [f])
  {
    if rx.generation == f.generation && Continues(rx, f) && (f.length > 0 ==> f.data.Some?) {
      var run := Current(fs[k..]);
      var (rx', d) := Extend(rx, f);
      assert Handle(rx, f) == Extend(rx, f);
      RunExtends(rx, run, f);
      assert (run + [f])[|run + [f]| - 1] == f;
      if d.Some? {
        assert DeliveredRun(d.value, run + [f], f.total);
      } else {
        assert RunHeld(rx', run + [f]);
      }
    } else {
      assert Handle(rx, f) == (RESET, None);
    }
  }

  /** Every message that ever reaches the enqueue step is one contiguous run of events. */
  lemma {:induction false} DeliveriesAreRuns(before: seq<Fragment>, rx: Rx, fs: seq<Fragment>)
    requires Holds(rx, before)
    ensures forall d :: d in HandleAll(rx, fs).1 ==>
              exists n :: 0 <= n <= |fs| && Delivered(d, before + fs[..n])
    decreases |fs|
  {
    if fs != [] {
      var (next, delivery) := Handle(rx, fs[0]);
      StepHolds(rx, before, fs[0]);
      DeliveriesAreRuns(before + [fs[0]], next, fs[1..]);
      forall d | d in HandleAll(rx, fs).1 ensures exists n :: 0 <= n <= |fs| && Delivered(d, before + fs[..n]) {
        if delivery == Some(d) {
          assert fs[..1] == [fs[0]];
          assert Delivered(d, before + fs[..1]);
        } else {
          var n :| 0 <= n <= |fs[1..]| && Delivered(d, before + [fs[0]] + fs[1..][..n]);
          assert before + [fs[0]] + fs[1..][..n] == before + fs[..n + 1];
        }
      }
    }
  }
}
