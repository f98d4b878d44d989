/** Whole runs: from the start of the scheduler through any sequence of steps. */
module Runs {
  import opened Ticks
  import opened Lists
  import opened KernelState
  import opened TaskModel
  import opened QueueRing
  import opened QueueModel
  import opened Kernel
  import opened Placement
  import opened Order
  import opened CoreInvariant
  import opened Steps
  import opened Wakeups
  import opened Inheritance
  import opened ClosedSystem
  import opened Effects
  import opened Rings
  import opened Deadlines

  /** `step` is possible in `s` and leads to `r`. */
  ghost predicate Moves(s: State, step: Step, r: State) {
    Operable(s) && Enabled(s, step) && r == Next(s, step)
  }

  /** `trace` is what the steps, one after the other, make of its first state. */
  ghost predicate Behaves(trace: seq<State>, steps: seq<Step>) {
    |trace| == |steps| + 1 && forall i {:trigger steps[i]} :: 0 <= i < |steps| ==> Moves(trace[i], steps[i], trace[i + 1])
  }

  /** A behaviour of a closed system: no task starts waiting for another's mutex while it
      holds one, and vTaskPrioritySet is called only as the regime allows: never, or not
      on a task in a mutex's wait list. */
  ghost predicate BehavesClosed(trace: seq<State>, steps: seq<Step>, g: Regime) {
    && Behaves(trace, steps)
    && forall i {:trigger steps[i]} :: 0 <= i < |steps| ==> InBounds(trace[i]) && ClosedStep(trace[i], steps[i], g)
  }

  // ---------- the start ----------

  function CreatedTcb(priority: Priority): Tcb {
    Tcb(priority, priority, IDLE_PRIORITY, Ready, 0, None, None, WaitNone, false, false, NoCall, 0, 0, 0)
  }

  /** A queue, semaphore or mutex as its creation function returns it. */
  ghost predicate FreshObject(o: Object) {
    && o.owner.None? && o.accepted == [] && o.delivered == []
    && match o.kind
       case QueueData => o.length > 0 && |o.slots| == o.length && o.head == 0 && o.tail == 0 && o.count == 0
       case Mutex => o.count == 1
       case BinarySemaphore => o.count == 0 && o.maxCount == 1
       case CountingSemaphore => o.count <= o.maxCount
  }

  /** The ready lists after creating tasks with these priorities in this order. */
  function CreatedReady(priorities: seq<Priority>): (ready: ReadyLists)
    ensures ReadyInBounds(ready, |priorities|)
  {
    if priorities == [] then [[], [], [], [], [], [], [], []]
    else
      var n: nat := |priorities| - 1;
      var before := CreatedReady(priorities[..n]);
      before[priorities[n] := before[priorities[n]] + [n]]
  }

  /** The mutex registry: newest first. */
  function CreatedRegistry(objects: seq<Object>): (registry: seq<nat>)
  {
    if objects == [] then []
    else
      var n: nat := |objects| - 1;
      (if objects[n].kind == Mutex then [n] else []) + CreatedRegistry(objects[..n])
  }

  function CreatedWaiters(objects: seq<Object>): map<ListId, seq<nat>> {
    map o: nat, side: Side | o < |objects| && side in {SendSide, ReceiveSide} :: ListId(o, side) := []
  }

  /** All tasks and objects exist, the idle task was created last, and the tick counter
      shows the instant `now`; no task runs yet. */
  function Created(priorities: seq<Priority>, objects: seq<Object>, now: nat): State {
    var all := priorities + [IDLE_PRIORITY];
    State(seq(|all|, i requires 0 <= i < |all| => CreatedTcb(all[i])), CreatedReady(all), [], CreatedWaiters(objects),
          objects, CreatedRegistry(objects), None, |priorities|, Wrap(now), now, 0)
  }

  lemma {:induction false} CreatedReadyMembers(priorities: seq<Priority>)
    ensures forall p: Priority :: NoDup(CreatedReady(priorities)[p])
    ensures forall p: Priority, t: nat {:trigger t in CreatedReady(priorities)[p]} ::
      t in CreatedReady(priorities)[p] <==> t < |priorities| && priorities[t] == p
  {
    if priorities != [] {
      var n: nat := |priorities| - 1;
      CreatedReadyMembers(priorities[..n]);
      var before := CreatedReady(priorities[..n]);
      forall p: Priority ensures NoDup(CreatedReady(priorities)[p]) {
        AppendMembers(before[p], n);
      }
    }
  }

  lemma {:induction false} CreatedRegistryMembers(objects: seq<Object>)
    ensures forall i :: 0 <= i < |CreatedRegistry(objects)| ==>
      CreatedRegistry(objects)[i] < |objects| && objects[CreatedRegistry(objects)[i]].kind == Mutex
    ensures forall o: nat :: o < |objects| && objects[o].kind == Mutex ==> o in CreatedRegistry(objects)
  {
    if objects != [] {
      var n: nat := |objects| - 1;
      CreatedRegistryMembers(objects[..n]);
    }
  }

  ghost predicate FreshObjects(objects: seq<Object>) {
    forall o :: 0 <= o < |objects| ==> FreshObject(objects[o])
  }

  lemma CreatedInBounds(priorities: seq<Priority>, objects: seq<Object>, now: nat)
    requires FreshObjects(objects)
    ensures InBounds(Created(priorities, objects, now))
  {
    CreatedReadyMembers(priorities + [IDLE_PRIORITY]);
    CreatedRegistryMembers(objects);
    var s := Created(priorities, objects, now);
    forall l: ListId ensures l in s.waiters <==> l.obj < |objects| {
      assert l == ListId(l.obj, l.side);
      assert l.side.SendSide? || l.side.ReceiveSide?;
    }
  }

  lemma CreatedCore(priorities: seq<Priority>, objects: seq<Object>, now: nat)
    requires FreshObjects(objects)
    ensures Core(Created(priorities, objects, now), None)
  {
    var all := priorities + [IDLE_PRIORITY];
    CreatedReadyMembers(all);
    CreatedRegistryMembers(objects);
    CreatedInBounds(priorities, objects, now);
    var s := Created(priorities, objects, now);
    assert all[|priorities|] == IDLE_PRIORITY;
    assert s.tasks[s.idle].call.NoCall?;
  }

  /** vTaskStartScheduler: the first dispatch. */
  ghost function Started(priorities: seq<Priority>, objects: seq<Object>, now: nat): (r: State)
    requires FreshObjects(objects)
    ensures InBounds(r)
  {
    CreatedInBounds(priorities, objects, now);
    SwitchContext(Created(priorities, objects, now))
  }

  /** `s` is the state after the first dispatch of some system. */
  ghost predicate Begins(s: State) {
    exists priorities, objects, now :: FreshObjects(objects) && s == Started(priorities, objects, now)
  }

  /** The states that behaviours from the start reach, and those that closed ones do. */
  ghost predicate Reachable(r: State) {
    exists trace, steps :: Behaves(trace, steps) && Begins(trace[0]) && r == trace[|steps|]
  }

  ghost predicate ReachableClosed(r: State, g: Regime) {
    exists trace, steps :: BehavesClosed(trace, steps, g) && Begins(trace[0]) && r == trace[|steps|]
  }

  lemma ReachableStep(s: State, step: Step)
    requires Reachable(s) && Operable(s) && Enabled(s, step)
    ensures Reachable(Next(s, step))
  {
    hide Begins, Next, Operable, Enabled;
    var trace, steps :| Behaves(trace, steps) && Begins(trace[0]) && s == trace[|steps|];
    var longer, more := trace + [Next(s, step)], steps + [step];
    forall i {:trigger more[i]} | 0 <= i < |more| ensures Moves(longer[i], more[i], longer[i + 1]) {
      if i < |steps| { assert Moves(trace[i], steps[i], trace[i + 1]); }
    }
    assert Behaves(longer, more) && longer[0] == trace[0] && longer[|more|] == Next(s, step);
  }

  lemma BeginsReachable(s: State)
    requires Begins(s)
    ensures Reachable(s)
  {
    hide Begins;
    var trace, steps: seq<Step> := [s], [];
    assert Behaves(trace, steps);
  }

  /** Every state of a behaviour from a reachable state is reachable. */
  lemma {:induction false} ReachableAlong(trace: seq<State>, steps: seq<Step>, n: nat)
    requires Behaves(trace, steps) && Reachable(trace[0]) && n <= |steps|
    ensures Reachable(trace[n])
  {
    hide Reachable, Next;
    if n > 0 {
      ReachableAlong(trace, steps, n - 1);
      assert Moves(trace[n - 1], steps[n - 1], trace[n - 1 + 1]);
      ReachableStep(trace[n - 1], steps[n - 1]);
    }
  }

  lemma CreatedInherits(priorities: seq<Priority>, objects: seq<Object>, now: nat)
    requires FreshObjects(objects) && InBounds(Created(priorities, objects, now))
    ensures Inherits(Created(priorities, objects, now), Fixed)
  {
    var s := Created(priorities, objects, now);
    forall t | 0 <= t < |s.tasks| ensures ExactFor(s, t, Fixed) {
      BoostLeast(s, t, 0);
    }
  }

  lemma CreatedRings(objects: seq<Object>)
    requires FreshObjects(objects)
    ensures RingsKept(objects)
  {
  }

  /** The state after the first dispatch, for any tasks, objects and counter value,
      meets all invariants. */
  lemma StartedInv(priorities: seq<Priority>, objects: seq<Object>, now: nat)
    requires FreshObjects(objects)
    ensures InBounds(Created(priorities, objects, now))
    ensures var r := Started(priorities, objects, now);
      KernelInv(r) && NoLostWakeup(r) && RingsKept(r.objects) && ClosedInv(r, Fixed)
  {
    var s := Created(priorities, objects, now);
    CreatedCore(priorities, objects, now);
    CreatedInherits(priorities, objects, now);
    CreatedRings(objects);
    hide Created, Inherits, Strict;
    SwitchContextCore(s);
    SwitchInherits(s, Fixed);
    StartedUntouched(priorities, objects, now);
  }

  lemma StartedUntouched(priorities: seq<Priority>, objects: seq<Object>, now: nat)
    requires InBounds(Created(priorities, objects, now))
    ensures var r := SwitchContext(Created(priorities, objects, now));
      r.objects == objects && r.delayed == [] && NoLostWakeup(r)
  {
  }

  // ---------- what every behaviour keeps ----------

  lemma MoveKeeps(s: State, step: Step, r: State, g: Regime)
    requires KernelInv(s) && Moves(s, step, r)
    ensures KernelInv(r)
    ensures NoLostWakeup(s) ==> NoLostWakeup(r)
    ensures RingsKept(s.objects) ==> RingsKept(r.objects)
    ensures ClosedInv(s, g) && ClosedStep(s, step, g) ==> ClosedInv(r, g)
  {
    hide Next, NoLostWakeup, RingsKept, Inherits, Strict;
    NextInv(s, step);
    if NoLostWakeup(s) { NextNoLost(s, step); }
    if RingsKept(s.objects) { NextRings(s, step); }
    if ClosedInv(s, g) && ClosedStep(s, step, g) { NextClosed(s, step, g); }
  }

  lemma {:induction false} TraceKeeps(trace: seq<State>, steps: seq<Step>, n: nat, g: Regime)
    requires Behaves(trace, steps) && n <= |steps| && KernelInv(trace[0])
    ensures KernelInv(trace[n])
    ensures NoLostWakeup(trace[0]) ==> NoLostWakeup(trace[n])
    ensures RingsKept(trace[0].objects) ==> RingsKept(trace[n].objects)
    ensures BehavesClosed(trace, steps, g) && ClosedInv(trace[0], g) ==> ClosedInv(trace[n], g)
  {
    hide KernelInv, NoLostWakeup, RingsKept, ClosedInv, Moves, ClosedStep;
    if n > 0 {
      TraceKeeps(trace, steps, n - 1, g);
      assert Moves(trace[n - 1], steps[n - 1], trace[n - 1 + 1]);
      MoveKeeps(trace[n - 1], steps[n - 1], trace[n], g);
    }
  }

  lemma ReachableInv(r: State)
    requires Reachable(r)
    ensures KernelInv(r) && NoLostWakeup(r) && RingsKept(r.objects)
  {
    hide KernelInv, NoLostWakeup, RingsKept, ClosedInv, Begins, Moves;
    var trace, steps :| Behaves(trace, steps) && Begins(trace[0]) && r == trace[|steps|];
    BeginsInv(trace[0]);
    TraceKeeps(trace, steps, |steps|, Fixed);
  }

  lemma ReachableClosedInv(r: State, g: Regime)
    requires ReachableClosed(r, g)
    ensures ClosedInv(r, g)
  {
    hide KernelInv, NoLostWakeup, RingsKept, ClosedInv, Begins, Moves, ClosedStep;
    var trace, steps :| BehavesClosed(trace, steps, g) && Begins(trace[0]) && r == trace[|steps|];
    BeginsInv(trace[0]);
    FixedIsAny(trace[0], g);
    TraceKeeps(trace, steps, |steps|, g);
  }

  lemma BeginsInv(s: State)
    requires Begins(s)
    ensures KernelInv(s) && NoLostWakeup(s) && RingsKept(s.objects) && ClosedInv(s, Fixed)
  {
    hide KernelInv, NoLostWakeup, RingsKept, ClosedInv, Started;
    var priorities, objects, now :| FreshObjects(objects) && s == Started(priorities, objects, now);
    StartedInv(priorities, objects, now);
  }

  // ---------- all runs ----------

  /** The place of a task: exactly the lists that its state says. */
  ghost predicate InItsPlace(s: State, t: nat)
    requires InBounds(s) && t < |s.tasks|
  {
    var tcb := s.tasks[t];
    && (tcb.state == Running <==> s.current == Some(t))
    && (forall p: Priority :: t in s.ready[p] <==> tcb.state == Ready && p == tcb.priority)
    && (t in s.delayed <==> tcb.state == Blocked)
    && (forall l :: l in s.waiters && t in s.waiters[l] <==> tcb.eventList == Some(l))
    && (tcb.eventList.Some? ==> tcb.state == Blocked)
  }

  ghost predicate ListsDistinct(s: State) {
    && (forall p: Priority :: NoDup(s.ready[p])) && NoDup(s.delayed)
    && (forall l :: l in s.waiters ==> NoDup(s.waiters[l]))
  }

  lemma PlacedEach(s: State, t: nat)
    requires KernelInv(s) && t < |s.tasks|
    ensures InItsPlace(s, t) && ListsDistinct(s)
    ensures s.tasks[t].priority == Max(s.tasks[t].basePriority, s.tasks[t].inheritedPriority)
  {
    assert TcbSane(s.tasks[t], s.objects, s.now);
  }

  /** Scheduler partition: in every reachable state every task is exactly where its
      state says, every list is free of duplicates, and the effective priority is the
      larger of base and inherited priority. */
  lemma SchedulerPartition(r: State, t: nat)
    requires Reachable(r) && t < |r.tasks|
    ensures InBounds(r) && InItsPlace(r, t) && ListsDistinct(r)
    ensures r.tasks[t].priority == Max(r.tasks[t].basePriority, r.tasks[t].inheritedPriority)
  {
    hide InItsPlace, ListsDistinct, Reachable;
    ReachableInv(r);
    PlacedEach(r, t);
  }

  /** Wait lists: higher priority first, then longest queued. */
  lemma WaitersInOrder(r: State, l: ListId, i: nat, j: nat)
    requires Reachable(r) && l in r.waiters && i < j < |r.waiters[l]|
    ensures var q := r.waiters[l];
      && q[i] < |r.tasks| && q[j] < |r.tasks|
      && (r.tasks[q[i]].priority > r.tasks[q[j]].priority
          || (r.tasks[q[i]].priority == r.tasks[q[j]].priority && r.tasks[q[i]].stamp < r.tasks[q[j]].stamp))
  {
    hide Reachable;
    ReachableInv(r);
    assert WaitOrdered(r.tasks, r.waiters[l], r.stamps);
    assert WaitsBefore(r.tasks[r.waiters[l][i]], r.tasks[r.waiters[l][j]]);
  }

  /** The delay list: earlier unbounded deadline first, then longest queued, although
      the insertion compares 32-bit counter values. */
  lemma DelaysInOrder(r: State, i: nat, j: nat)
    requires Reachable(r) && i < j < |r.delayed|
    ensures var q := r.delayed;
      && q[i] < |r.tasks| && q[j] < |r.tasks| && r.now < r.tasks[q[i]].deadline
      && (r.tasks[q[i]].deadline < r.tasks[q[j]].deadline
          || (r.tasks[q[i]].deadline == r.tasks[q[j]].deadline && r.tasks[q[i]].delayStamp < r.tasks[q[j]].delayStamp))
  {
    hide Reachable;
    ReachableInv(r);
    assert r.delayed[i] in r.delayed;
    assert ExpiresBefore(r.tasks[r.delayed[i]], r.tasks[r.delayed[j]]);
  }

  lemma MoveDeleted(s: State, step: Step, r: State, t: nat)
    requires KernelInv(s) && Moves(s, step, r) && t < |s.tasks| && s.tasks[t].state == Deleted
    ensures t < |r.tasks| && r.tasks[t].state == Deleted
  {
    hide Next;
    NextEffect(s, step);
  }

  /** A deleted task stays deleted. */
  lemma {:induction false} DeletedForever(trace: seq<State>, steps: seq<Step>, n: nat, t: nat)
    requires Behaves(trace, steps) && n <= |steps| && Reachable(trace[0])
    requires t < |trace[0].tasks| && trace[0].tasks[t].state == Deleted
    ensures t < |trace[n].tasks| && trace[n].tasks[t].state == Deleted
  {
    hide Reachable, KernelInv, NoLostWakeup, RingsKept, Moves;
    if n > 0 {
      DeletedForever(trace, steps, n - 1, t);
      ReachableInv(trace[0]);
      TraceKeeps(trace, steps, n - 1, Fixed);
      assert Moves(trace[n - 1], steps[n - 1], trace[n - 1 + 1]);
      MoveDeleted(trace[n - 1], steps[n - 1], trace[n], t);
    }
  }

  /** No lost wake-up: if a task waits for an object, the available items, tokens or
      slots never exceed the woken tasks still to retry. */
  lemma NoWakeupIsLost(r: State, l: ListId)
    requires Reachable(r) && l in r.waiters && r.waiters[l] != []
    ensures l.obj < |r.objects| && Available(r.objects[l.obj], l.side) <= Woken(r.tasks, l)
  {
    hide Reachable;
    ReachableInv(r);
  }

  /** Queues are first in, first out. */
  lemma QueuesAreFifo(r: State, o: nat)
    requires Reachable(r) && o < |r.objects| && r.objects[o].kind == QueueData
    ensures Fifo(r.objects[o])
  {
    hide RingInv, Fifo, Reachable;
    ReachableInv(r);
    assert RingKept(r.objects[o]);
    DeliveredIsPrefix(r.objects[o]);
  }

  /** A mutex is owned exactly while its count is zero. */
  lemma OwnedIffTaken(r: State, o: nat)
    requires Reachable(r) && o < |r.objects| && r.objects[o].kind == Mutex
    ensures r.objects[o].count <= 1 && (r.objects[o].count == 0 <==> r.objects[o].owner.Some?)
  {
    hide Reachable;
    ReachableInv(r);
    assert ObjectShape(r.objects[o]);
  }

  // ---------- closed systems ----------

  /** No inversion past the holder: the owner of a mutex has at least the priority of
      every task in its wait list. */
  lemma NoInversionPastHolder(r: State, o: nat, w: nat)
    requires ReachableClosed(r, Fixed) && o < |r.objects| && r.objects[o].kind == Mutex && r.objects[o].owner.Some?
    requires MutexList(o) in r.waiters && w in r.waiters[MutexList(o)]
    ensures r.objects[o].owner.value < |r.tasks| && w < |r.tasks|
    ensures r.tasks[r.objects[o].owner.value].priority >= r.tasks[w].priority
  {
    hide ReachableClosed;
    ReachableClosedInv(r, Fixed);
    var owner := r.objects[o].owner.value;
    assert ExactFor(r, owner, Fixed);
    BoostBounds(r, owner, o);
    var q := r.waiters[MutexList(o)];
    var i :| 0 <= i < |q| && q[i] == w;
    assert WaitOrdered(r.tasks, q, r.stamps);
    if i > 0 { assert WaitsBefore(r.tasks[q[0]], r.tasks[q[i]]); }
  }

  /** Strict priority: while a task runs, no ready task has a higher priority. */
  lemma StrictPriority(r: State, t: nat)
    requires ReachableClosed(r, Fixed) && t < |r.tasks| && r.tasks[t].state == Ready
    ensures r.current.Some? && r.current.value < |r.tasks| && r.tasks[r.current.value].state == Running
    ensures r.tasks[t].priority <= r.tasks[r.current.value].priority
  {
    hide ReachableClosed;
    ReachableClosedInv(r, Fixed);
  }

  /** The effective priority is exactly the larger of the base priority and the
      priorities now waiting on mutexes the task owns: no boost is missing or left over. */
  lemma PriorityIsExact(r: State, t: nat)
    requires ReachableClosed(r, Fixed) && t < |r.tasks|
    ensures InBounds(r) && r.tasks[t].priority == Max(r.tasks[t].basePriority, Boost(r, t))
  {
    hide ReachableClosed;
    ReachableClosedInv(r, Fixed);
    assert ExactFor(r, t, Fixed) && TcbSane(r.tasks[t], r.objects, r.now);
  }

  /** No leftover boost, also while vTaskPrioritySet changes the priorities of tasks that
      wait for no mutex: what a task inherits is called for by a task now waiting. */
  lemma NoBoostLeftOver(r: State, t: nat)
    requires ReachableClosed(r, Adjustable) && t < |r.tasks|
    ensures InBounds(r) && r.tasks[t].inheritedPriority <= Boost(r, t)
    ensures r.tasks[t].basePriority <= r.tasks[t].priority <= Max(r.tasks[t].basePriority, Boost(r, t))
  {
    hide ReachableClosed;
    ReachableClosedInv(r, Adjustable);
    assert ExactFor(r, t, Adjustable) && TcbSane(r.tasks[t], r.objects, r.now);
  }

  /** A task that owns no mutex runs at its base priority. */
  lemma NoBoostWithoutMutex(r: State, t: nat)
    requires ReachableClosed(r, Adjustable) && t < |r.tasks|
    requires forall o :: 0 <= o < |r.objects| ==> r.objects[o].owner != Some(t)
    ensures r.tasks[t].priority == r.tasks[t].basePriority
  {
    hide ReachableClosed, ClosedInv;
    ReachableClosedInv(r, Adjustable);
    NoBoostLeftOver(r, t);
    BoostLeast(r, t, 0);
  }
}
