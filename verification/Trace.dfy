/** kernel/trace.c: the ring of the most recent trace events. */
module Trace {
  import opened Ticks

  /** What a caller records. */
  datatype Detail = Detail(tick: Tick, kind: nat, task: nat, relatedTask: nat, subject: nat, value: nat)

  datatype Event = Event(sequence: Tick, detail: Detail)

  // ---------- the log that the ring stands for ----------

  datatype Log = Log(recorded: seq<Event>, read: seq<Event>, unread: seq<Event>, dropped: nat)

  datatype Action = Record(detail: Detail) | Read

  const EMPTY: Log := Log([], [], [], 0)

  /** Recording appends; a full log drops its oldest unread event. */
  function Append(log: Log, capacity: nat, detail: Detail): Log {
    var event := Event(Wrap(|log.recorded|), detail);
    if |log.unread| < capacity then
      log.(recorded := log.recorded + [event], unread := log.unread + [event])
    else if log.unread == [] then
      log.(recorded := log.recorded + [event], dropped := log.dropped + 1)
    else
      log.(recorded := log.recorded + [event], unread := log.unread[1..] + [event], dropped := log.dropped + 1)
  }

  function TakeOldest(log: Log): Log {
    if log.unread == [] then log
    else log.(read := log.read + [log.unread[0]], unread := log.unread[1..])
  }

  function Act(log: Log, capacity: nat, action: Action): Log {
    match action
    case Record(detail) => Append(log, capacity, detail)
    case Read => TakeOldest(log)
  }

  function Run(log: Log, capacity: nat, actions: seq<Action>): Log
    decreases |actions|
  {
    if actions == [] then log else Run(Act(log, capacity, actions[0]), capacity, actions[1..])
  }

  /** The unread events are the last recorded ones, consecutively numbered, and every
      recorded event was read, dropped, or is still there. */
  ghost predicate Faithful(log: Log, capacity: nat) {
    && |log.unread| <= capacity && |log.unread| <= |log.recorded|
    && log.unread == log.recorded[|log.recorded| - |log.unread|..]
    && |log.recorded| == |log.read| + |log.unread| + log.dropped
    && (forall i {:trigger log.recorded[i]} :: 0 <= i < |log.recorded| ==> log.recorded[i].sequence == Wrap(i))
  }

  lemma ActFaithful(log: Log, capacity: nat, action: Action)
    requires capacity > 0 && Faithful(log, capacity)
    ensures Faithful(Act(log, capacity, action), capacity)
  {
    match action
    case Record(detail) => AppendFaithful(log, capacity, detail);
    case Read => TakeFaithful(log, capacity);
  }

  lemma AppendFaithful(log: Log, capacity: nat, detail: Detail)
    requires capacity > 0 && Faithful(log, capacity)
    ensures Faithful(Append(log, capacity, detail), capacity)
  {
    var event := Event(Wrap(|log.recorded|), detail);
    var first := |log.recorded| - |log.unread|;
    assert (log.recorded + [event])[first..] == log.unread + [event];
    if |log.unread| == capacity {
      assert (log.recorded + [event])[first + 1..] == log.unread[1..] + [event];
    }
  }

  lemma TakeFaithful(log: Log, capacity: nat)
    requires Faithful(log, capacity)
    ensures Faithful(TakeOldest(log), capacity)
  {
    if log.unread != [] {
      var first := |log.recorded| - |log.unread|;
      assert log.recorded[first + 1..] == log.unread[1..];
    }
  }

  /** Over every run of records and reads since the reset. */
  lemma {:induction false} RunFaithful(log: Log, capacity: nat, actions: seq<Action>)
    requires capacity > 0 && Faithful(log, capacity)
    ensures Faithful(Run(log, capacity, actions), capacity)
    decreases |actions|
  {
    if actions != [] {
      ActFaithful(log, capacity, actions[0]);
      RunFaithful(Act(log, capacity, actions[0]), capacity, actions[1..]);
    }
  }

  /** The recorded events are exactly the details handed in, in order. */
  lemma {:induction false} RunRecordsAll(log: Log, capacity: nat, actions: seq<Action>)
    ensures Details(Run(log, capacity, actions).recorded) == Details(log.recorded) + Handed(actions)
    decreases |actions|
  {
    if actions != [] {
      var next := Act(log, capacity, actions[0]);
      RunRecordsAll(next, capacity, actions[1..]);
      assert Details(next.recorded) == Details(log.recorded) + (if actions[0].Record? then [actions[0].detail] else []);
    }
  }

  /** The ring over any run since the reset: what is unread are the latest events handed
      in, consecutively numbered, and every event was read, dropped or is unread. */
  lemma UnreadAreLatest(capacity: nat, actions: seq<Action>, i: nat)
    requires capacity > 0 && i < |Run(EMPTY, capacity, actions).unread|
    ensures var log := Run(EMPTY, capacity, actions); var first := |Handed(actions)| - |log.unread|;
      && first >= 0 && |log.unread| <= capacity
      && log.unread[i].detail == Handed(actions)[first + i]
      && log.unread[i].sequence == Wrap(first + i)
      && |Handed(actions)| == |log.read| + |log.unread| + log.dropped
  {
    var log := Run(EMPTY, capacity, actions);
    RunFaithful(EMPTY, capacity, actions);
    RunRecordsAll(EMPTY, capacity, actions);
    hide Run, Handed;
    assert Details(log.recorded) == Handed(actions);
    var first := |log.recorded| - |log.unread|;
    assert log.unread[i] == log.recorded[first + i];
    assert Details(log.recorded)[first + i] == log.recorded[first + i].detail;
  }

  function Details(events: seq<Event>): seq<Detail> {
    seq(|events|, i requires 0 <= i < |events| => events[i].detail)
  }

  function Handed(actions: seq<Action>): seq<Detail>
    decreases |actions|
  {
    if actions == [] then []
    else (if actions[0].Record? then [actions[0].detail] else []) + Handed(actions[1..])
  }

  /** How many events are unread after `actions`, `count` having been unread before: a
      record adds one up to the capacity, a read takes one down to none. */
  function UnreadAfter(count: nat, capacity: nat, actions: seq<Action>): nat
    decreases |actions|
  {
    if actions == [] then count
    else if actions[0].Record? then UnreadAfter(if count < capacity then count + 1 else capacity, capacity, actions[1..])
    else UnreadAfter(if count > 0 then count - 1 else 0, capacity, actions[1..])
  }

  /** How many of the events recorded by `actions` met a full ring. */
  function Overflows(count: nat, capacity: nat, actions: seq<Action>): nat
    decreases |actions|
  {
    if actions == [] then 0
    else if actions[0].Record? then
      (if count < capacity then 0 else 1) + Overflows(if count < capacity then count + 1 else capacity, capacity, actions[1..])
    else Overflows(if count > 0 then count - 1 else 0, capacity, actions[1..])
  }

  /** What the reads among `actions` return, one after the other. */
  function Returned(log: Log, capacity: nat, actions: seq<Action>): seq<Event>
    decreases |actions|
  {
    if actions == [] then []
    else
      var now := if actions[0].Read? && log.unread != [] then [log.unread[0]] else [];
      now + Returned(Act(log, capacity, actions[0]), capacity, actions[1..])
  }

  /** Nothing is lost but by a full ring, and the events that reads return are the read ones. */
  lemma {:induction false} RunCounts(log: Log, capacity: nat, actions: seq<Action>)
    requires capacity > 0 && |log.unread| <= capacity
    ensures var r := Run(log, capacity, actions);
      && |r.unread| == UnreadAfter(|log.unread|, capacity, actions)
      && r.dropped == log.dropped + Overflows(|log.unread|, capacity, actions)
      && r.read == log.read + Returned(log, capacity, actions)
    decreases |actions|
  {
    if actions != [] {
      RunCounts(Act(log, capacity, actions[0]), capacity, actions[1..]);
    }
  }

  /** A read leaves exactly the former unread events without the first, which it returns.
      That one is the oldest event that was neither read nor dropped. */
  lemma ReadTakesOldest(capacity: nat, actions: seq<Action>)
    requires capacity > 0 && Run(EMPTY, capacity, actions).unread != []
    ensures var log := Run(EMPTY, capacity, actions); var after := Run(EMPTY, capacity, actions + [Read]);
      && log.unread == [log.unread[0]] + after.unread && after.read == log.read + [log.unread[0]]
      && after.recorded == log.recorded && after.dropped == log.dropped
      && |log.read| + log.dropped < |Handed(actions)|
      && log.unread[0].detail == Handed(actions)[|log.read| + log.dropped]
  {
    RunThen(EMPTY, capacity, actions, Read);
    UnreadAreLatest(capacity, actions, 0);
  }

  lemma {:induction false} RunThen(log: Log, capacity: nat, actions: seq<Action>, last: Action)
    ensures Run(log, capacity, actions + [last]) == Act(Run(log, capacity, actions), capacity, last)
    decreases |actions|
  {
    if actions == [] {
      assert Run(Act(log, capacity, last), capacity, []) == Act(log, capacity, last);
    } else {
      assert (actions + [last])[1..] == actions[1..] + [last];
      RunThen(Act(log, capacity, actions[0]), capacity, actions[1..], last);
    }
  }

  // ---------- the ring ----------

  /** Where the i-th of `count` unread events lies. */
  function Slot(writeIndex: nat, count: nat, length: nat, i: nat): (slot: nat)
    requires writeIndex < length && count <= length
    ensures slot < length
  {
    (writeIndex + length - count + i) % length
  }

  lemma Reduce(x: nat, length: nat)
    requires 0 < length && x < 3 * length
    ensures x % length == if x < length then x else if x < 2 * length then x - length else x - 2 * length
  {
  }

  /** Writing at the write index and advancing it leaves every event in its slot, except
      that a full ring loses the oldest. */
  lemma SlotAfterRecord(w: nat, count: nat, length: nat, i: nat)
    requires w < length && count <= length && i < length
    ensures var next := (w + 1) % length;
      && next < length
      && (count < length ==> Slot(next, count + 1, length, i) == Slot(w, count, length, i))
      && (count < length && i < count ==> Slot(w, count, length, i) != w)
      && (count < length && i == count ==> Slot(w, count, length, i) == w)
      && (count == length ==> Slot(next, length, length, i) == Slot(w, length, length, i + 1))
      && (count == length && i + 1 < length ==> Slot(w, length, length, i + 1) != w)
      && (count == length && i + 1 == length ==> Slot(w, length, length, i + 1) == w)
  {
    var next := (w + 1) % length;
    Reduce(w + 1, length);
    Reduce(w + length - count + i, length);
    if count < length {
      Reduce(next + length - (count + 1) + i, length);
    } else {
      Reduce(next + i, length);
      Reduce(w + i + 1, length);
    }
  }

  /** Taking the oldest event leaves every other one in its slot. */
  lemma SlotAfterRead(w: nat, count: nat, length: nat, i: nat)
    requires w < length && 0 < count <= length
    ensures Slot(w, count - 1, length, i) == Slot(w, count, length, i + 1)
    ensures Slot(w, count, length, 0) == (w + length - count) % length
  {
  }

  lemma WrapStep(n: nat)
    ensures Wrap(Wrap(n) + 1) == Wrap(n + 1)
  {
    WrapAdd(n, 1);
  }

  class TraceRing {
    const buffer: array<Event>
    var writeIndex: nat
    var count: nat
    var dropped: Tick
    var nextSequence: Tick
    ghost var log: Log

    ghost predicate Valid()
      reads this, buffer
    {
      && buffer.Length > 0 && writeIndex < buffer.Length
      && Faithful(log, buffer.Length)
      && count == |log.unread| && dropped == Wrap(log.dropped) && nextSequence == Wrap(|log.recorded|)
      && (forall i :: 0 <= i < count ==> buffer[Slot(writeIndex, count, buffer.Length, i)] == log.unread[i])
    }

    constructor (length: nat, blank: Event)
      requires length > 0
      ensures Valid() && log == EMPTY && buffer.Length == length && fresh(buffer)
    {
      buffer := new Event[length](i => blank);
      writeIndex, count, dropped, nextSequence := 0, 0, 0, 0;
      log := EMPTY;
    }

    method RecordEvent(detail: Detail)
      requires Valid()
      modifies this, buffer
      ensures Valid() && log == Append(old(log), buffer.Length, detail)
      ensures |log.unread| == if old(|log.unread|) < buffer.Length then old(|log.unread|) + 1 else buffer.Length
      ensures log.unread[|log.unread| - 1].detail == detail && log.read == old(log.read)
    {
      hide Faithful, Slot;
      ghost var w, c, length, before := writeIndex, count, buffer.Length, log;
      ActFaithful(log, length, Record(detail));
      FaithfulLength(log, length);
      WrapStep(|log.recorded|);
      WrapStep(log.dropped);
      buffer[writeIndex] := Event(nextSequence, detail);
      nextSequence := Wrap(nextSequence + 1);
      writeIndex := (writeIndex + 1) % buffer.Length;
      if count < buffer.Length {
        count := count + 1;
      } else {
        dropped := Wrap(dropped + 1);
      }
      log := Append(log, buffer.Length, detail);
      forall i | 0 <= i < count ensures buffer[Slot(writeIndex, count, length, i)] == log.unread[i] {
        SlotAfterRecord(w, c, length, i);
      }
    }

    lemma FaithfulLength(log: Log, capacity: nat)
      requires Faithful(log, capacity)
      ensures |log.unread| <= capacity
    {
    }

    method ReadEvent() returns (event: Event, ok: bool)
      requires Valid()
      modifies this`count, this`log
      ensures Valid() && log == TakeOldest(old(log))
      ensures ok <==> old(log.unread) != []
      ensures ok ==> event == old(log.unread[0]) && log.unread == old(log.unread)[1..] && log.read == old(log.read) + [event]
      ensures !ok ==> log == old(log)
    {
      hide Faithful, Slot;
      ghost var w, c, before := writeIndex, count, log;
      FaithfulLength(log, buffer.Length);
      event := buffer[0];
      if count == 0 { return event, false; }
      SlotAfterRead(w, c, buffer.Length, 0);
      var oldest := (writeIndex + buffer.Length - count) % buffer.Length;
      event := buffer[oldest];
      count := count - 1;
      ok := true;
      ActFaithful(log, buffer.Length, Read);
      log := TakeOldest(log);
      forall i | 0 <= i < count ensures buffer[Slot(w, count, buffer.Length, i)] == log.unread[i] {
        SlotAfterRead(w, c, buffer.Length, i);
      }
    }

    method Reset(blank: Event)
      requires Valid()
      modifies this, buffer
      ensures Valid() && log == EMPTY
    {
      for i := 0 to buffer.Length
        invariant Faithful(log, buffer.Length)
      {
        buffer[i] := blank;
      }
      writeIndex, count, dropped, nextSequence := 0, 0, 0, 0;
      log := EMPTY;
    }
  }
}
