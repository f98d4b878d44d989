/** The ring of a data queue: copy in at `head`, copy out at `tail`. */
module QueueRing {
  import opened KernelState

  /** The dimensions of a data queue, as xQueueCreate leaves them. */
  ghost predicate RingShape(q: Object) {
    && q.length > 0 && |q.slots| == q.length
    && q.head < q.length && q.tail < q.length && q.count <= q.length
  }

  function CopyIn(q: Object, item: seq<Byte>): (r: Object)
    requires RingShape(q) && q.count < q.length
    ensures RingShape(r)
  {
    q.(slots := q.slots[q.head := item],
       head := (q.head + 1) % q.length,
       count := q.count + 1,
       accepted := q.accepted + [item])
  }

  function CopyOut(q: Object): (r: Object)
    requires RingShape(q) && q.count > 0
    ensures RingShape(r)
  {
    q.(tail := (q.tail + 1) % q.length,
       count := q.count - 1,
       delivered := q.delivered + [q.slots[q.tail]])
  }

  /** The stored items, oldest first. */
  function Stored(q: Object): (items: seq<seq<Byte>>)
    requires RingShape(q)
  {
    seq(q.count, i requires 0 <= i < q.count => q.slots[(q.tail + i) % q.length])
  }

  /** What the ring keeps: the write index is `count` slots past the read index, and
      what went in is what came out followed by what is stored. */
  ghost predicate RingInv(q: Object) {
    && RingShape(q)
    && q.head == (q.tail + q.count) % q.length
    && q.accepted == q.delivered + Stored(q)
  }

  lemma Wraps(x: nat, length: nat)
    requires 0 < length && x < 2 * length
    ensures x % length == if x < length then x else x - length
  {
  }

  lemma SlotsDiffer(tail: nat, i: nat, count: nat, length: nat)
    requires tail < length && i < count < length
    ensures (tail + i) % length != (tail + count) % length
  {
    Wraps(tail + i, length);
    Wraps(tail + count, length);
  }

  lemma StepWraps(x: nat, k: nat, length: nat)
    requires x < length && k < length
    ensures ((x + 1) % length + k) % length == (x + 1 + k) % length
  {
    Wraps(x + 1, length);
    if x + 1 == length {
      Wraps(k, length);
      Wraps(k + length, length);
    }
  }

  lemma CopyInStored(q: Object, item: seq<Byte>)
    requires RingInv(q) && q.count < q.length
    ensures Stored(CopyIn(q, item)) == Stored(q) + [item]
  {
    var r := CopyIn(q, item);
    forall i | 0 <= i < r.count ensures Stored(r)[i] == (Stored(q) + [item])[i] {
      if i < q.count {
        SlotsDiffer(q.tail, i, q.count, q.length);
      }
    }
  }

  /** Copying in appends to what is stored and keeps the ring. */
  lemma CopyInRing(q: Object, item: seq<Byte>)
    requires RingInv(q) && q.count < q.length
    ensures RingInv(CopyIn(q, item)) && Stored(CopyIn(q, item)) == Stored(q) + [item]
  {
    CopyInStored(q, item);
    Wraps(q.tail + q.count, q.length);
    Wraps(q.head + 1, q.length);
    if q.count + 1 < q.length {
      Wraps(q.tail + q.count + 1, q.length);
    } else {
      Wraps(q.tail + q.length, q.length);
    }
  }

  lemma CopyOutStored(q: Object)
    requires RingInv(q) && q.count > 0
    ensures Stored(q) == [q.slots[q.tail]] + Stored(CopyOut(q))
  {
    var r := CopyOut(q);
    Wraps(q.tail, q.length);
    assert Stored(q)[0] == q.slots[q.tail];
    forall i | 0 <= i < r.count ensures Stored(r)[i] == Stored(q)[i + 1] {
      StepWraps(q.tail, i, q.length);
    }
  }

  /** Copying out takes the oldest stored item and keeps the ring. */
  lemma CopyOutRing(q: Object)
    requires RingInv(q) && q.count > 0
    ensures RingInv(CopyOut(q)) && Stored(q) == [q.slots[q.tail]] + Stored(CopyOut(q))
  {
    CopyOutStored(q);
    StepWraps(q.tail, q.count - 1, q.length);
  }
}
