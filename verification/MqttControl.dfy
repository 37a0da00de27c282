/** main/mqtt_manager.c in place: the assembly buffers, the pending table, the SUBACK list. */
module MqttControl {
  import opened Prelude
  import opened MqttReassembly
  import opened MqttSession
  import opened MqttSafety
  import MqttSteps

  /** The string a C reader finds in a buffer: everything before the first NUL. */
  function Text(chars: seq<char>): (t: seq<char>)
    ensures |t| <= |chars| && '\0' !in t
  {
    if chars == [] || chars[0] == '\0' then [] else [chars[0]] + Text(chars[1..])
  }

  lemma {:induction false} TextOf(t: seq<char>, tail: seq<char>)
    requires '\0' !in t && (tail == [] || tail[0] == '\0')
    ensures Text(t + tail) == t
  {
    if t == [] {
      assert t + tail == tail;
    } else {
      assert (t + tail)[0] == t[0] && (t + tail)[1..] == t[1..] + tail;
      TextOf(t[1..], tail);
    }
  }

  /** s_rx with its fixed buffers. */
  class Receiver {
    const topic: array<char>
    const payload: array<Byte>
    var total: int
    var next: int
    var generation: nat
    var retained: bool
    var dropping: bool

    ghost predicate Valid()
      reads this, topic, payload
    {
      && topic.Length == TOPIC_CAPACITY && payload.Length == PAYLOAD_CAPACITY
      && 0 <= next <= total && (!dropping ==> total < PAYLOAD_CAPACITY)
      && (dropping ==> Text(topic[..]) == [])
    }

    ghost function View(): Rx
      requires Valid()
      reads this, topic, payload
    {
      Rx(Text(topic[..]), if dropping then [] else payload[..next], total, next, generation, retained, dropping)
    }

    constructor ()
      ensures Valid() && View() == RESET && fresh(topic) && fresh(payload)
    {
      topic := new char[TOPIC_CAPACITY](_ => '\0');
      payload := new Byte[PAYLOAD_CAPACITY](_ => 0);
      total, next, generation, retained, dropping := 0, 0, 0, false, false;
    }

    method Reset()
      requires topic.Length == TOPIC_CAPACITY && payload.Length == PAYLOAD_CAPACITY
      modifies this, topic, payload
      ensures Valid() && View() == RESET
    {
      forall i | 0 <= i < topic.Length { topic[i] := '\0'; }
      forall i | 0 <= i < payload.Length { payload[i] := 0; }
      total, next, generation, retained, dropping := 0, 0, 0, false, false;
    }

    method CopyTopic(t: seq<char>)
      requires |t| < topic.Length && '\0' !in t
      modifies topic
      ensures Text(topic[..]) == t
    {
      var i := 0;
      while i < |t|
        invariant 0 <= i <= |t| && topic[..i] == t[..i]
      {
        topic[i] := t[i];
        i := i + 1;
      }
      topic[i] := '\0';
      assert topic[..] == t + topic[i..];
      TextOf(t, topic[i..]);
    }

    method CopyPayload(offset: nat, data: seq<Byte>)
      requires offset + |data| <= payload.Length
      modifies payload
      ensures payload[..offset + |data|] == old(payload[..offset]) + data
    {
      var i := 0;
      while i < |data|
        invariant 0 <= i <= |data| && payload[..offset + i] == old(payload[..offset]) + data[..i]
      {
        payload[offset + i] := data[i];
        i := i + 1;
      }
    }

    /** The branch for the first fragment of a message; done means nothing is left to copy. */
    method BeginMessage(f: Fragment) returns (done: bool)
      requires Valid() && WellFormed(f) && f.current && f.total >= 0 && f.offset == 0 && f.length >= 0
      modifies this, topic, payload
      ensures Valid()
      ensures done == !Acceptable(f)
      ensures !done <==> (f.topic.Some? && 1 <= |f.topic.value| <= 191 && '\0' !in f.topic.value
                          && f.total <= 767 && f.length <= f.total && (f.length == 0 || f.data.Some?))
      ensures View() == if done then Drop(f) else Begin(f)
    {
      Reset();
      var invalidTopic := f.topic.None? || |f.topic.value| == 0 || |f.topic.value| >= TOPIC_CAPACITY
                          || '\0' in f.topic.value;
      var invalidPayload := f.total >= PAYLOAD_CAPACITY || f.length > f.total || (f.length > 0 && f.data.None?);
      if invalidTopic || invalidPayload {
        if f.length <= f.total {
          dropping, total, next := true, f.total, f.length;
          if f.length == f.total { Reset(); }
        }
        return true;
      }
      CopyTopic(f.topic.value);
      total, generation, retained := f.total, f.generation, f.retained;
      return false;
    }

    /** mqtt_manager_handle_data_event: never writes outside the buffers. */
    method HandleData(f: Fragment) returns (delivery: Option<Delivery>)
      requires Valid() && WellFormed(f)
      modifies this, topic, payload
      ensures Valid() && (View(), delivery) == Handle(old(View()), f)
    {
      delivery := None;
      if !f.current { return; }
      if f.total < 0 || f.offset < 0 || f.length < 0 {
        Reset();
        return;
      }
      if f.offset == 0 {
        var done := BeginMessage(f);
        if done { return; }
      }
      ghost var begun := View();
      if dropping {
        if f.total != total || f.offset != next || f.offset > f.total || f.length > f.total - f.offset {
          Reset();
          return;
        }
        next := next + f.length;
        if next == f.total { Reset(); }
        return;
      }
      if topic[0] == '\0' || generation != f.generation || f.total != total || f.offset != next
         || f.offset > f.total || f.length > f.total - f.offset || (f.length > 0 && f.data.None?) {
        Reset();
        return;
      }
      if f.length > 0 { CopyPayload(f.offset, f.data.value); }
      next := next + f.length;
      if next == f.total {
        delivery := Some(Delivery(Text(topic[..]), payload[..next], f.generation, retained));
        Reset();
      }
    }
  }

  /** s_dispatch_pending and the list of subscription ids waiting for a SUBACK. */
  class CommandTable {
    const records: array<Record>
    var sequence: nat
    var inFlight: nat
    const ids: array<int>
    var count: nat

    /** Sequence numbers name commands: no two records share one, and all were given out. */
    ghost predicate Valid()
      reads this, records, ids
    {
      && records.Length == DEPTH && ids.Length == MAX_SUBSCRIPTIONS && count <= ids.Length
      && (forall i :: 0 <= i < records.Length && records[i].occupied ==> records[i].sequence <= sequence)
      && (forall i, j :: 0 <= i < j < records.Length && records[i].occupied && records[j].occupied ==>
            records[i].sequence != records[j].sequence)
    }

    constructor ()
      ensures Valid() && records[..] == seq(DEPTH, _ => FREE) && inFlight == 0 && count == 0
    {
      records := new Record[DEPTH](_ => FREE);
      ids := new int[MAX_SUBSCRIPTIONS](_ => 0);
      sequence, inFlight, count := 0, 0, 0;
      new;
      assert records[..] == seq(DEPTH, _ => FREE);
    }

    /** Reserve the first free record, if there is one. */
    method Reserve(now: nat) returns (slot: int)
      requires Valid()
      modifies this`sequence, records
      ensures Valid()
      ensures var free := FirstFree(old(records[..]), 0);
              if free == DEPTH then slot < 0 && records[..] == old(records[..]) && sequence == old(sequence)
              else slot == free && sequence == old(sequence) + 1
                   && records[..] == old(records[..])[slot := Record(true, sequence, now + 1)]
    {
      ghost var before := records[..];
      var i := 0;
      while i < records.Length
        invariant 0 <= i <= records.Length && records[..] == before && sequence == old(sequence)
        invariant FirstFree(before, 0) == FirstFree(before, i)
      {
        if !records[i].occupied {
          sequence := sequence + 1;
          records[i] := Record(true, sequence, now + 1);
          return i;
        }
        i := i + 1;
      }
      return -1;
    }

    /**
     * Give a record back, unless it has meanwhile been reserved for another command:
     * no record stands for m any more, every other command keeps its own, and if m had
     * one the next Reserve finds room.
     */
    method Release(m: Message)
      requires Valid()
      modifies records
      ensures Valid() && !Recorded(records[..], m)
      ensures forall n: Message :: n.sequence != m.sequence ==>
                (Recorded(records[..], n) <==> old(Recorded(records[..], n)))
      ensures old(Recorded(records[..], m)) ==> FirstFree(records[..], 0) <= m.slot
      ensures records[..] == Cleared(old(records[..]), m)
    {
      if m.slot < records.Length && records[m.slot].occupied && records[m.slot].sequence == m.sequence {
        records[m.slot] := FREE;
      }
    }

    /** oldest_command_since_us, over the in-flight mark and every record. */
    method OldestSince() returns (since: nat)
      requires Valid()
      ensures since == OldestUpTo(inFlight, records[..], DEPTH)
    {
      since := inFlight;
      var i := 0;
      while i < records.Length
        invariant 0 <= i <= records.Length && since == OldestUpTo(inFlight, records[..], i)
      {
        var at := if records[i].occupied then records[i].at else 0;
        if at > 0 && (since == 0 || at < since) { since := at; }
        i := i + 1;
      }
    }

    /** Remove one occurrence, moving the last id into its place. */
    method RemovePending(id: int) returns (found: bool)
      requires Valid()
      modifies this`count, ids
      ensures Valid()
      ensures found == (id in old(ids[..count]))
      ensures found ==> ids[..count] == Removed(old(ids[..count]), IndexOf(old(ids[..count]), id, 0))
      ensures found ==> old(multiset(ids[..count])) == multiset(ids[..count]) + multiset{id}
      ensures !found ==> ids[..count] == old(ids[..count])
    {
      ghost var before := ids[..count];
      var i := 0;
      while i < count
        invariant 0 <= i <= count == old(count) && ids[..count] == before
        invariant IndexOf(before, id, 0) == IndexOf(before, id, i)
        invariant forall j :: 0 <= j < i ==> before[j] != id
      {
        if ids[i] == id {
          ids[i] := ids[count - 1];
          count := count - 1;
          assert ids[..count] == Removed(before, i);
          MqttSteps.RemovedKeepsCount(before, i);
          return true;
        }
        i := i + 1;
      }
      return false;
    }
  }

  /** SUBACK return codes: all present and none a failure (MQTT Version 3.1.1, section 3.9.3). */
  method SubackAccepted(codes: Option<seq<bv8>>, subscribeFailed: bool) returns (accept: bool)
    ensures accept == (codes.Some? && |codes.value| > 0 && !subscribeFailed
                       && forall i :: 0 <= i < |codes.value| ==> codes.value[i] < 0x80)
  {
    accept := codes.Some? && |codes.value| > 0;
    var i := 0;
    while accept && i < |codes.value|
      invariant codes.Some? ==> 0 <= i <= |codes.value|
      invariant accept ==> codes.Some? && |codes.value| > 0 && forall j :: 0 <= j < i ==> codes.value[j] < 0x80
      invariant !accept ==> codes.None? || |codes.value| == 0 || exists j :: 0 <= j < |codes.value| && codes.value[j] >= 0x80
    {
      if codes.value[i] >= 0x80 { accept := false; }
      i := i + 1;
    }
    if subscribeFailed { accept := false; }
  }
}
