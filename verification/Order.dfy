/** Wait lists are ordered by priority and, among equals, by arrival; the delay list
    is ordered by true deadline and, among equals, by arrival. */
module Order {
  import opened Ticks
  import opened Lists
  import opened KernelState
  import opened TaskModel
  import opened QueueModel
  import opened Placement

  predicate WaitsBefore(a: Tcb, b: Tcb) {
    a.priority > b.priority || (a.priority == b.priority && a.stamp < b.stamp)
  }

  predicate ExpiresBefore(a: Tcb, b: Tcb) {
    a.deadline < b.deadline || (a.deadline == b.deadline && a.delayStamp < b.delayStamp)
  }

  ghost predicate WaitOrdered(tasks: seq<Tcb>, q: seq<nat>, stamps: nat) {
    && AllBelow(q, |tasks|)
    && (forall i, j :: 0 <= i < j < |q| ==> WaitsBefore(tasks[q[i]], tasks[q[j]]))
    && (forall i :: 0 <= i < |q| ==> tasks[q[i]].stamp < stamps)
  }

  ghost predicate WaitersOrdered(tasks: seq<Tcb>, waiters: map<ListId, seq<nat>>, stamps: nat) {
    forall l :: l in waiters ==> WaitOrdered(tasks, waiters[l], stamps)
  }

  /** Order, and the clock: every deadline lies in the half range ahead of `now`. */
  ghost predicate DelayOrdered(tasks: seq<Tcb>, q: seq<nat>, now: nat, stamps: nat) {
    && AllBelow(q, |tasks|)
    && (forall i, j :: 0 <= i < j < |q| ==> ExpiresBefore(tasks[q[i]], tasks[q[j]]))
    && (forall i :: 0 <= i < |q| ==>
          && tasks[q[i]].delayStamp < stamps
          && tasks[q[i]].wakeTick == Wrap(tasks[q[i]].deadline)
          && now <= tasks[q[i]].deadline < now + HALF_RANGE)
  }

  lemma RemoveWaitOrdered(tasks: seq<Tcb>, q: seq<nat>, stamps: nat, t: nat)
    requires WaitOrdered(tasks, q, stamps)
    ensures WaitOrdered(tasks, Remove(q, t), stamps)
  {
    var r := Remove(q, t);
    if t in q {
      var k := IndexOf(q, t);
      assert forall i :: 0 <= i < |r| ==> r[i] == q[if i < k then i else i + 1];
      forall i, j | 0 <= i < j < |r| ensures WaitsBefore(tasks[r[i]], tasks[r[j]]) {}
    }
  }

  lemma RemoveDelayOrdered(tasks: seq<Tcb>, q: seq<nat>, now: nat, stamps: nat, t: nat)
    requires DelayOrdered(tasks, q, now, stamps)
    ensures DelayOrdered(tasks, Remove(q, t), now, stamps)
  {
    var r := Remove(q, t);
    if t in q {
      var k := IndexOf(q, t);
      assert forall i :: 0 <= i < |r| ==> r[i] == q[if i < k then i else i + 1];
      forall i, j | 0 <= i < j < |r| ensures ExpiresBefore(tasks[r[i]], tasks[r[j]]) {}
    }
  }

  lemma InsertWaitOrdered(tasks: seq<Tcb>, q: seq<nat>, stamps: nat, t: nat, k: nat, more: nat)
    requires WaitOrdered(tasks, q, stamps) && t < |tasks| && k <= |q|
    requires stamps <= tasks[t].stamp < more
    requires forall i :: 0 <= i < k ==> tasks[q[i]].priority >= tasks[t].priority
    requires k < |q| ==> tasks[q[k]].priority < tasks[t].priority
    ensures WaitOrdered(tasks, InsertAt(q, k, t), more)
  {
    forall i | k <= i < |q| ensures tasks[q[i]].priority < tasks[t].priority {
      if k < i { assert WaitsBefore(tasks[q[k]], tasks[q[i]]); }
    }
  }

  /** The signed comparison that the insertion cursor makes agrees with the order of
      the true deadlines. */
  lemma InsertDelayOrdered(tasks: seq<Tcb>, q: seq<nat>, now: nat, stamps: nat, t: nat, d: nat, more: nat)
    requires DelayOrdered(tasks, q, now, stamps) && t < |tasks| && d <= |q|
    requires stamps <= tasks[t].delayStamp < more
    requires tasks[t].wakeTick == Wrap(tasks[t].deadline) && now <= tasks[t].deadline < now + HALF_RANGE
    requires forall i :: 0 <= i < d ==> !TickBefore(tasks[t].wakeTick, tasks[q[i]].wakeTick)
    requires d < |q| ==> TickBefore(tasks[t].wakeTick, tasks[q[d]].wakeTick)
    ensures DelayOrdered(tasks, InsertAt(q, d, t), now, more)
  {
    forall i | 0 <= i < |q| ensures TickBefore(tasks[t].wakeTick, tasks[q[i]].wakeTick) <==> tasks[t].deadline < tasks[q[i]].deadline {
      SignedDifferenceExact(tasks[t].deadline, tasks[q[i]].deadline);
    }
    forall i | d <= i < |q| ensures tasks[t].deadline < tasks[q[i]].deadline {
      if d < i { assert ExpiresBefore(tasks[q[d]], tasks[q[i]]); }
    }
  }

  lemma UpdateWaitersOrdered(tasks: seq<Tcb>, waiters: map<ListId, seq<nat>>, stamps: nat, t: nat, tcb: Tcb, more: nat)
    requires WaitersOrdered(tasks, waiters, stamps) && t < |tasks| && stamps <= more
    requires (tcb.priority == tasks[t].priority && tcb.stamp == tasks[t].stamp)
      || (forall l :: l in waiters ==> t !in waiters[l])
    ensures WaitersOrdered(tasks[t := tcb], waiters, more)
  {
    forall l | l in waiters ensures WaitOrdered(tasks[t := tcb], waiters[l], more) {
      assert WaitOrdered(tasks, waiters[l], stamps);
      assert forall i :: 0 <= i < |waiters[l]| ==> waiters[l][i] in waiters[l];
    }
  }

  lemma UpdateDelayOrdered(tasks: seq<Tcb>, q: seq<nat>, now: nat, stamps: nat, t: nat, tcb: Tcb, more: nat)
    requires DelayOrdered(tasks, q, now, stamps) && t < |tasks| && stamps <= more
    requires t !in q ||
      (tcb.deadline == tasks[t].deadline && tcb.wakeTick == tasks[t].wakeTick && tcb.delayStamp == tasks[t].delayStamp)
    ensures DelayOrdered(tasks[t := tcb], q, now, more)
  {
    assert forall i :: 0 <= i < |q| ==> q[i] in q;
  }
}
