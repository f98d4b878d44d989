/** Every data queue is first in, first out, in every interleaving of its callers. */
module Rings {
  import opened Ticks
  import opened Lists
  import opened KernelState
  import opened TaskModel
  import opened QueueRing
  import opened QueueModel
  import opened Kernel
  import opened CoreInvariant
  import opened Steps
  import opened Effects

  ghost predicate RingKept(o: Object) {
    o.kind == QueueData ==> RingInv(o)
  }

  ghost predicate RingsKept(objects: seq<Object>) {
    forall o {:trigger objects[o]} :: 0 <= o < |objects| ==> RingKept(objects[o])
  }

  lemma SentRing(q: Object, item: seq<Byte>)
    requires RingInv(q)
    ensures RingInv(Sent(q, item))
    ensures Stored(Sent(q, item)) == Stored(q) + (if q.count < q.length then [item] else [])
  {
    if q.count < q.length { CopyInRing(q, item); }
  }

  lemma TakenRing(q: Object)
    requires RingInv(q)
    ensures RingInv(Taken(q))
    ensures q.count > 0 ==> Taken(q).delivered == q.delivered + [Stored(q)[0]] && Stored(q)[0] == q.slots[q.tail]
    ensures Stored(Taken(q)) == if q.count > 0 then Stored(q)[1..] else []
  {
    if q.count > 0 { CopyOutRing(q); }
  }

  lemma ObjectsAfterRings(s: State, step: Step)
    requires KernelInv(s) && Enabled(s, step) && RingsKept(s.objects)
    ensures RingsKept(ObjectsAfter(s, step))
  {
    match step {
      case Send(o, item, _) => if s.objects[o].kind == QueueData { SentRing(s.objects[o], item); }
      case Receive(o, _) => if s.objects[o].kind == QueueData { TakenRing(s.objects[o]); }
      case Resume => RetriedRings(s);
      case _ =>
    }
  }

  lemma RetriedRings(s: State)
    requires KernelInv(s) && RingsKept(s.objects)
    ensures RingsKept(Retried(s))
  {
    var tcb := s.tasks[s.current.value];
    assert TcbSane(tcb, s.objects, s.now);
    if tcb.waitResult {
      match tcb.call {
        case InSend(o, item, _) => SentRing(s.objects[o], item);
        case InReceive(o, _) => TakenRing(s.objects[o]);
        case _ =>
      }
    }
  }

  /** Every step keeps every queue's ring and history. */
  lemma NextRings(s: State, step: Step)
    requires KernelInv(s) && Enabled(s, step) && RingsKept(s.objects)
    ensures Operable(s) && RingsKept(Next(s, step).objects)
  {
    hide ObjectsAfter, Perform;
    NextEffect(s, step);
    ObjectsAfterRings(s, step);
  }

  /** What was handed out is the first part of what was accepted, byte for byte, the rest
      is stored, and the write index is `count` slots past the read index. */
  ghost predicate Fifo(q: Object) {
    && q.length > 0 && q.head == (q.tail + q.count) % q.length
    && |q.delivered| + q.count == |q.accepted| && q.delivered == q.accepted[..|q.delivered|]
  }

  lemma DeliveredIsPrefix(q: Object)
    requires RingInv(q)
    ensures Fifo(q)
  {
    assert q.accepted[..|q.delivered|] == q.delivered;
  }
}
