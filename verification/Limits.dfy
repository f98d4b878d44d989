/** Where a property stops holding, and exactly when. */
module Limits {
  import opened Ticks
  import opened Lists
  import opened KernelState
  import opened TaskModel
  import opened QueueRing
  import opened QueueModel
  import opened Kernel
  import opened Placement
  import opened Order
  import opened CoreInvariant
  import opened Steps
  import opened Wakeups
  import opened Inheritance
  import opened ClosedSystem
  import opened Runs
  import opened Scenarios

  /** The effective priority that vTaskPrioritySet gives. */
  function NewPriority(s: State, t: nat, p: Priority): Priority
    requires t < |s.tasks|
  {
    Max(p, s.tasks[t].inheritedPriority)
  }

  lemma PrioritySetTasks(s: State, t: nat, p: Priority)
    requires InBounds(s) && t < |s.tasks|
    ensures var r := PrioritySet(s, t, p);
      && r.tasks == s.tasks[t := s.tasks[t].(basePriority := p, priority := NewPriority(s, t, p), stamp := r.tasks[t].stamp)]
      && r.current == s.current && r.objects == s.objects && r.registry == s.registry
      && (forall l :: l in s.waiters ==> l in r.waiters)
  {
    var tcb := s.tasks[t].(basePriority := p);
    SetEffectivePriorityEffect(WithTask(s, t, tcb), t, NewPriority(s, t, p));
  }

  /** vTaskPrioritySet never switches: the running task stays the strongest exactly if
      the new priority leaves it so. */
  lemma PrioritySetStrictIff(s: State, t: nat, p: Priority)
    requires ClosedInv(s, Fixed) && t < |s.tasks|
    ensures InBounds(PrioritySet(s, t, p)) && PrioritySet(s, t, p).current.Some?
    ensures Strict(PrioritySet(s, t, p), Fixed) <==>
      var c := s.current.value;
      if t == c then forall u {:trigger s.tasks[u]} ::
        0 <= u < |s.tasks| && s.tasks[u].state == Ready ==> s.tasks[u].priority <= NewPriority(s, t, p)
      else s.tasks[t].state == Ready ==> NewPriority(s, t, p) <= s.tasks[c].priority
  {
    hide PrioritySet;
    PrioritySetTasks(s, t, p);
    var r := PrioritySet(s, t, p);
    forall u | 0 <= u < |s.tasks| ensures r.tasks[u].state == s.tasks[u].state {}
    if t != s.current.value && s.tasks[t].state == Ready {
      assert r.tasks[t].state == Ready;
    }
  }

  /** With tasks of priorities 1 and 2, raising the first to 7 leaves it ready behind the
      second, which goes on running. */
  lemma PrioritySetInverts(priorities: seq<Priority>, objects: seq<Object>, now: nat)
    requires priorities == [1, 2] && FreshObjects(objects)
    ensures var s := Started(priorities, objects, now);
      Enabled(s, SetPriority(0, 7)) && Operable(s) && !Strict(Next(s, SetPriority(0, 7)), Fixed)
  {
    hide PrioritySet, Started;
    var s := Started(priorities, objects, now);
    StartedInv(priorities, objects, now);
    StartedPair(priorities, objects, now);
    CoreOperable(s, None);
    PrioritySetTasks(s, 0, 7);
    assert PrioritySet(s, 0, 7).tasks[0].state == Ready;
  }

  lemma StartedPair(priorities: seq<Priority>, objects: seq<Object>, now: nat)
    requires priorities == [1, 2] && FreshObjects(objects)
    ensures var s := Started(priorities, objects, now);
      && s.current == Some(1) && |s.tasks| == 3 && s.idle == 2 && s.tasks[0].state == Ready
      && s.tasks[1].call.NoCall? && s.tasks[1].priority == 2 && s.tasks[0].inheritedPriority == 0
  {
    hide CreatedReady, CreatedWaiters, CreatedRegistry;
    var all := priorities + [IDLE_PRIORITY];
    var c := Created(priorities, objects, now);
    CreatedInBounds(priorities, objects, now);
    CreatedReadyMembers(all);
    assert 1 in CreatedReady(all)[2];
    var highest := HighestReady(c.ready, MAX_PRIORITIES).value;
    assert c.ready[highest][0] in c.ready[highest];
  }

  /** After a new base priority for a task that waits for a mutex, the holder outranks
      it if and only if it did not need to inherit: the holder is never updated. */
  lemma PrioritySetInversionIff(s: State, w: nat, p: Priority, o: nat, i: nat)
    requires ClosedInv(s, Fixed) && o < |s.objects| && s.objects[o].kind == Mutex && s.objects[o].owner.Some?
    requires i < |s.waiters[MutexList(o)]| && w == s.waiters[MutexList(o)][i]
    ensures w < |s.tasks| && s.objects[o].owner.value < |s.tasks|
    ensures var r := PrioritySet(s, w, p); var owner := s.objects[o].owner.value;
      && |r.tasks| == |s.tasks| && r.objects[o].owner == Some(owner)
      && (r.tasks[owner].priority >= r.tasks[w].priority <==> NewPriority(s, w, p) <= s.tasks[owner].priority)
  {
    hide PrioritySet;
    assert w in s.waiters[MutexList(o)];
    assert TcbSane(s.tasks[w], s.objects, s.now);
    PrioritySetTasks(s, w, p);
  }

  /** A run to a holder below its waiter: the running task 0 holds the mutex, and sets the
      priority of the waiting task 1 above its own. */
  lemma HolderOutranked(priorities: seq<Priority>, objects: seq<Object>, now: nat) returns (r: State)
    requires priorities == [1, 1] && |objects| == 1 && objects[0].kind == Mutex && FreshObjects(objects)
    ensures Reachable(r) && |r.tasks| == 3 && |r.objects| == 1 && r.objects[0].owner == Some(0)
    ensures r.tasks[1].eventList == Some(MutexList(0)) && r.tasks[0].priority < r.tasks[1].priority
  {
    hide PrioritySet, Reachable, KernelInv;
    var s := HolderAndWaiter(priorities, objects, now, 1);
    r := WaiterSet(s, 1, 5);
  }

  /** The holder of a contended mutex sets the priority of its waiter. */
  lemma WaiterSet(s: State, p: Priority, v: Priority) returns (r: State)
    requires Contended(s, p)
    ensures Reachable(r) && KernelInv(r) && |r.tasks| == 3 && |r.objects| == 1 && r.objects[0].owner == Some(0)
    ensures r.tasks[0] == s.tasks[0] && r.tasks[1].priority == v && r.tasks[1].eventList == Some(MutexList(0))
    ensures r.objects == s.objects && r.registry == s.registry && MutexList(0) in r.waiters && r.waiters[MutexList(0)] == [1]
  {
    hide PrioritySet, Reachable;
    Caller(s);
    Staged(s, SetPriority(1, v));
    r := Next(s, SetPriority(1, v));
    PrioritySetTasks(s, 1, v);
    assert 1 in s.waiters[MutexList(0)];
    OnlyResorted(s, MutexList(0), 1, v);
  }

  /** Re-sorting the only waiter changes nothing. */
  lemma OnlyResorted(s: State, l: ListId, w: nat, p: Priority)
    requires KernelInv(s) && l in s.waiters && s.waiters[l] == [w] && w in s.waiters[l]
    ensures PrioritySet(s, w, p).waiters[l] == [w]
  {
    var mid := WithTask(s, w, s.tasks[w].(basePriority := p));
    var v := NewPriority(s, w, p);
    if mid.tasks[w].priority != v {
      var k := ResortEffect(mid, w, v);
      RemoveHead(s.waiters[l]);
      assert InsertAt(Remove(s.waiters[l], w), k, w) == [w];
    }
  }

  /** `x` waits for a mutex that `u` owns. */
  ghost predicate WaitsFor(s: State, x: nat, u: nat) {
    && x < |s.tasks| && s.tasks[x].eventList.Some?
    && var l := s.tasks[x].eventList.value;
      l.side == ReceiveSide && l.obj < |s.objects| && s.objects[l.obj].kind == Mutex && s.objects[l.obj].owner == Some(u)
  }

  /** The boost of a task is called for by one of those who wait for its mutexes. */
  lemma BoostIsCalledFor(s: State, u: nat, p: Priority)
    requires KernelInv(s) && p > 0
    ensures Boost(s, u) >= p <==> exists x: nat :: WaitsFor(s, x, u) && s.tasks[x].priority >= p
  {
    if x: nat :| WaitsFor(s, x, u) && s.tasks[x].priority >= p {
      var o := s.tasks[x].eventList.value.obj;
      var q := s.waiters[MutexList(o)];
      assert x in q;
      assert Contends(s, u, o);
      BoostBounds(s, u, o);
      var i :| 0 <= i < |q| && q[i] == x;
      assert WaitOrdered(s.tasks, q, s.stamps);
      if i > 0 { assert WaitsBefore(s.tasks[q[0]], s.tasks[q[i]]); }
    } else {
      forall o | Contends(s, u, o) ensures HeadPriority(s, o) <= p - 1 {
        RegisteredMutex(s, o);
        var head := s.waiters[MutexList(o)][0];
        assert head in s.waiters[MutexList(o)];
        assert WaitsFor(s, head, u);
      }
      BoostLeast(s, u, p - 1);
    }
  }

  /** Setting the priority of `w` leaves another task `u` a boost too high if and only if
      `u` is boosted and nobody who waits for one of its mutexes, at the priorities after
      the call, reaches its priority. */
  lemma PrioritySetLeavesBoostIff(s: State, w: nat, p: Priority, u: nat)
    requires KernelInv(s) && w < |s.tasks| && u < |s.tasks| && u != w
    ensures var r := PrioritySet(s, w, p);
      && InBounds(r) && |r.tasks| == |s.tasks|
      && (r.tasks[u].priority > Max(r.tasks[u].basePriority, Boost(r, u)) <==>
            && s.tasks[u].priority > s.tasks[u].basePriority
            && forall x: nat :: WaitsFor(s, x, u) ==>
                 (if x == w then NewPriority(s, w, p) else s.tasks[x].priority) < s.tasks[u].priority)
  {
    hide PrioritySet;
    PrioritySetInv(s, w, p);
    PrioritySetTasks(s, w, p);
    var r := PrioritySet(s, w, p);
    var own := s.tasks[u].priority;
    assert TcbSane(s.tasks[u], s.objects, s.now);
    forall x: nat {:trigger WaitsFor(s, x, u)} {:trigger WaitsFor(r, x, u)}
      ensures WaitsFor(r, x, u) <==> WaitsFor(s, x, u)
      ensures WaitsFor(s, x, u) ==> r.tasks[x].priority == if x == w then NewPriority(s, w, p) else s.tasks[x].priority
    {}
    if own > 0 { BoostIsCalledFor(r, u, own); }
  }

  /** A run to such a boost: the waiter, at priority 5, was the only one to call for it,
      and the holder sets it to 1. */
  lemma BoostLeft(priorities: seq<Priority>, objects: seq<Object>, now: nat) returns (r: State)
    requires priorities == [1, 1] && |objects| == 1 && objects[0].kind == Mutex && FreshObjects(objects)
    ensures Reachable(r) && InBounds(r) && |r.tasks| == 3
    ensures r.tasks[0].priority == 5 && r.tasks[0].basePriority == 1 && Boost(r, 0) == 1
  {
    hide Reachable;
    var s := HolderAndWaiter(priorities, objects, now, 5);
    r := WaiterSet(s, 5, 1);
    OnlyBoost(r, 0);
  }

  /** A successful take recomputes nothing: the recorded inherited priority equals the
      highest waiting one exactly if it did before and nobody above it waits here. */
  lemma TakeInheritedIff(s: State, o: nat)
    requires ClosedInv(s, Adjustable) && o < |s.objects| && s.objects[o].kind == Mutex && s.objects[o].count > 0
    ensures var c := s.current.value; var r := s.(objects := s.objects[o := TokenTaken(s.objects[o], c)]);
      && InBounds(r)
      && (r.tasks[c].inheritedPriority == Boost(r, c) <==>
            && s.tasks[c].inheritedPriority == Boost(s, c)
            && (s.waiters[MutexList(o)] == [] || HeadPriority(s, o) <= s.tasks[c].inheritedPriority))
  {
    var c := s.current.value;
    var r := s.(objects := s.objects[o := TokenTaken(s.objects[o], c)]);
    assert ObjectShape(s.objects[o]);
    assert ExactFor(s, c, Adjustable);
    TakenBoost(s, o, c);
    if s.waiters[MutexList(o)] != [] {
      assert Contends(r, c, o);
      BoostBounds(r, c, o);
    }
  }
}
