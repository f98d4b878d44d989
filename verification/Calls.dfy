/** What every call answers and does, said of the states before and after it. */
module Calls {
  import opened Ticks
  import opened Lists
  import opened KernelState
  import opened TaskModel
  import opened QueueRing
  import opened QueueModel
  import opened Kernel
  import opened Placement
  import opened Order
  import opened CoreInvariant
  import opened Steps
  import opened Wakeups
  import opened Inheritance
  import opened ClosedSystem
  import opened Effects
  import opened Rings
  import opened Deadlines
  import opened Runs
  import opened Waits

  // ---------- objects ----------

  ghost predicate OnlyObject(s: State, r: State, o: nat) {
    && |r.objects| == |s.objects|
    && forall x {:trigger r.objects[x]} :: 0 <= x < |s.objects| && x != o ==> r.objects[x] == s.objects[x]
  }

  /** `item` is stored behind the items stored before; nothing else about the queue but
      its write index changes. */
  ghost predicate Enqueued(before: Object, after: Object, item: seq<Byte>) {
    && RingShape(before) && RingShape(after)
    && Stored(after) == Stored(before) + [item] && after.accepted == before.accepted + [item]
    && after == before.(slots := after.slots, head := after.head, count := before.count + 1, accepted := after.accepted)
  }

  /** `item` was the oldest stored item, and is now delivered. */
  ghost predicate Dequeued(before: Object, after: Object, item: seq<Byte>) {
    && RingShape(before) && RingShape(after) && before.count > 0
    && Stored(before) == [item] + Stored(after) && after.delivered == before.delivered + [item]
    && after == before.(tail := after.tail, count := before.count - 1, delivered := after.delivered)
  }

  /** A send passes exactly if there is room, and otherwise waits exactly if time is left:
      in the list of senders, until `due`. */
  ghost predicate SendAnswer(s: State, r: State, outcome: Outcome, o: nat, item: seq<Byte>, ticks: nat, due: nat)
    requires s.current.Some? && o < |s.objects|
  {
    var queue := s.objects[o];
    && OnlyObject(s, r, o)
    && (outcome == Passed <==> queue.count < queue.length)
    && (outcome == Refused <==> queue.count >= queue.length && ticks == 0)
    && (outcome == Suspended <==> queue.count >= queue.length && ticks > 0)
    && (if outcome == Passed then Enqueued(queue, r.objects[o], item) else r.objects[o] == queue)
    && (outcome == Suspended ==> Parked(r, s.current.value, ListId(o, SendSide), InSend(o, item, due), due))
  }

  ghost predicate ReceiveAnswer(s: State, r: State, outcome: Outcome, o: nat, ticks: nat, due: nat)
    requires s.current.Some? && o < |s.objects|
  {
    var queue := s.objects[o];
    && OnlyObject(s, r, o)
    && (outcome.Received? <==> queue.count > 0)
    && (outcome == Refused <==> queue.count == 0 && ticks == 0)
    && (outcome == Suspended <==> queue.count == 0 && ticks > 0)
    && (if outcome.Received? then Dequeued(queue, r.objects[o], outcome.item) else r.objects[o] == queue)
    && (outcome == Suspended ==> Parked(r, s.current.value, ListId(o, ReceiveSide), InReceive(o, due), due))
  }

  /** A take passes exactly if a token is there, and leaves one less; the taker of a mutex
      owns it. Its owner is refused at once. */
  ghost predicate TakeAnswer(s: State, r: State, outcome: Outcome, o: nat, ticks: nat, due: nat)
    requires s.current.Some? && o < |s.objects|
  {
    var semaphore := s.objects[o];
    var own := semaphore.kind == Mutex && semaphore.owner == s.current;
    && OnlyObject(s, r, o)
    && (outcome == Passed <==> semaphore.count > 0)
    && (outcome == Refused <==> semaphore.count == 0 && (ticks == 0 || own))
    && (outcome == Suspended <==> semaphore.count == 0 && ticks > 0 && !own)
    && r.objects[o] == (
         if outcome != Passed then semaphore
         else if semaphore.kind == Mutex then semaphore.(count := 0, owner := s.current)
         else semaphore.(count := semaphore.count - 1))
    && (outcome == Suspended ==> Parked(r, s.current.value, ListId(o, ReceiveSide), InTake(o, due), due))
  }

  /** A give passes exactly for the owner of a mutex, and below the maximum of a semaphore. */
  ghost predicate GiveAnswer(s: State, r: State, outcome: Outcome, o: nat)
    requires s.current.Some? && o < |s.objects|
  {
    var semaphore := s.objects[o];
    && OnlyObject(s, r, o)
    && (outcome == Passed <==>
          if semaphore.kind == Mutex then semaphore.owner == s.current else semaphore.count < semaphore.maxCount)
    && (outcome != Passed ==> outcome == Refused && r == s)
    && r.objects[o] == (
         if outcome != Passed then semaphore
         else if semaphore.kind == Mutex then semaphore.(count := 1, owner := None)
         else semaphore.(count := semaphore.count + 1))
  }

  lemma BecomesOnly(s: State, r: State, o: nat, obj: Object)
    requires Becomes(s, r, o, obj)
    ensures OnlyObject(s, r, o) && r.objects[o] == obj
  {
  }

  lemma SendAnswers(s: State, o: nat, item: seq<Byte>, ticks: nat, due: nat)
    requires Attempting(s, ticks, due) && o < |s.objects| && s.objects[o].kind == QueueData
    requires |item| == s.objects[o].itemSize && RingsKept(s.objects)
    ensures Operable(s)
    ensures var (r, outcome) := SendAttempt(s, o, item, ticks, due); SendAnswer(s, r, outcome, o, item, ticks, due)
  {
    hide SendAttempt, Becomes, Parked, Core, Operable;
    SendEffect(s, o, item, ticks, due);
    var queue := s.objects[o];
    assert RingKept(queue);
    BecomesOnly(s, SendAttempt(s, o, item, ticks, due).0, o, Sent(queue, item));
    if queue.count < queue.length { CopyInRing(queue, item); }
  }

  lemma ReceiveAnswers(s: State, o: nat, ticks: nat, due: nat)
    requires Attempting(s, ticks, due) && o < |s.objects| && s.objects[o].kind == QueueData && RingsKept(s.objects)
    ensures Operable(s)
    ensures var (r, outcome) := ReceiveAttempt(s, o, ticks, due); ReceiveAnswer(s, r, outcome, o, ticks, due)
  {
    hide ReceiveAttempt, Becomes, Parked, Core, Operable;
    ReceiveEffect(s, o, ticks, due);
    var queue := s.objects[o];
    assert RingKept(queue);
    BecomesOnly(s, ReceiveAttempt(s, o, ticks, due).0, o, Taken(queue));
    if queue.count > 0 { CopyOutRing(queue); }
  }

  lemma TakeAnswers(s: State, o: nat, ticks: nat, due: nat)
    requires Attempting(s, ticks, due) && o < |s.objects| && s.objects[o].kind != QueueData
    ensures Operable(s)
    ensures var (r, outcome) := TakeAttempt(s, o, ticks, due); TakeAnswer(s, r, outcome, o, ticks, due)
  {
    hide TakeAttempt, Becomes, Parked, Operable;
    TakeEffect(s, o, ticks, due);
    assert ObjectShape(s.objects[o]);
    BecomesOnly(s, TakeAttempt(s, o, ticks, due).0, o, TakenBy(s.objects[o], s.current.value));
  }

  lemma GiveAnswers(s: State, o: nat)
    requires KernelInv(s) && o < |s.objects| && s.objects[o].kind != QueueData && Operable(s)
    ensures var (r, outcome) := if s.objects[o].kind == Mutex then GiveMutex(s, o) else GiveSemaphore(s, o);
      GiveAnswer(s, r, outcome, o)
  {
    hide GiveMutex, GiveSemaphore, Becomes;
    GiveEffect(s, o);
    assert ObjectShape(s.objects[o]);
    var r := if s.objects[o].kind == Mutex then GiveMutex(s, o).0 else GiveSemaphore(s, o).0;
    BecomesOnly(s, r, o, GivenBy(s.objects[o], s.current.value));
  }

  // ---------- who runs afterwards ----------

  /** `c` has given way to a stronger task, and is last in its ready list. */
  ghost predicate Displaced(r: State, c: nat) {
    && c < |r.tasks| && r.tasks[c].state == Ready
    && r.current.Some? && r.current.value < |r.tasks| && r.tasks[r.current.value].state == Running
    && r.tasks[c].priority < r.tasks[r.current.value].priority
    && var q := r.ready[r.tasks[c].priority]; q != [] && q[|q| - 1] == c
  }

  /** The caller `c` runs on, unless the task that the call readied, if any, is stronger. */
  ghost predicate RunsOn(r: State, c: nat, readied: Option<nat>) {
    && c < |r.tasks| && (readied.Some? ==> readied.value < |r.tasks|)
    && if readied.Some? && r.tasks[readied.value].priority > r.tasks[c].priority then Displaced(r, c)
       else r.current == Some(c) && r.tasks[c].state == Running
  }

  lemma YieldDisplaces(m: State, x: nat)
    requires KernelInv(m) && x < |m.tasks| && m.tasks[x].state == Ready
    requires m.tasks[x].priority > m.tasks[m.current.value].priority
    ensures var r := YieldCurrent(m); var c := m.current.value;
      && Displaced(r, c) && |r.tasks| == |m.tasks| && r.tasks[c] == m.tasks[c].(state := Ready)
      && r.tasks[x].priority == m.tasks[x].priority
  {
    PreemptCore(m);
    var c := m.current.value;
    var a := ReadyListInsert(WithTask(m, c, m.tasks[c].(state := Ready)), c);
    SwitchContextCore(a);
    SwitchContextStrict(a, Fixed);
    var r := SwitchContext(a);
    assert r.tasks[x].priority <= r.tasks[r.current.value].priority;
    var p := HighestReady(a.ready, MAX_PRIORITIES).value;
    assert a.ready[p][0] in a.ready[p];
    assert r.ready[m.tasks[c].priority] == m.ready[m.tasks[c].priority] + [c];
  }

  /** The head of a wait list, if anybody waits. */
  function FirstWaiter(s: State, l: ListId): Option<nat> {
    if l in s.waiters && s.waiters[l] != [] then Some(s.waiters[l][0]) else None
  }

  lemma WakeRunsOn(s: State, l: ListId)
    requires KernelInv(s) && l in s.waiters
    ensures Linked(s.tasks, s.waiters)
    ensures var r := UnblockAndSwitch(s, l); var c := s.current.value;
      && RunsOn(r, c, FirstWaiter(s, l)) && |r.tasks| == |s.tasks| && r.tasks[c] == s.tasks[c].(state := r.tasks[c].state)
  {
    hide UnblockOne, YieldCurrent, Displaced, NoneDue, AllSane, ObjectsSane, IdleReady, WaitersOrdered, DelayOrdered,
      ReadyPlaced, DelayPlaced, EventPlaced, RunningPlaced;
    WakeInv(s, l);
    UnblockFlag(s, l);
    WokenKeepsCaller(s, l);
    var woken := UnblockOne(s, l).0;
    if s.waiters[l] != [] {
      UnblockReadies(s, l);
      if UnblockOne(s, l).1 { YieldDisplaces(woken, s.waiters[l][0]); }
    } else {
      FlagNeedsWaiter(s, l);
    }
  }

  lemma FlagNeedsWaiter(s: State, l: ListId)
    requires InBounds(s) && l in s.waiters && Linked(s.tasks, s.waiters) && s.waiters[l] == []
    ensures !UnblockOne(s, l).1
  {
  }

  lemma UnblockReadies(s: State, l: ListId)
    requires KernelInv(s) && l in s.waiters && s.waiters[l] != []
    ensures Linked(s.tasks, s.waiters)
    ensures s.waiters[l][0] < |s.tasks| && UnblockOne(s, l).0.tasks[s.waiters[l][0]].state == Ready
  {
    PlacedLinked(s, None);
    UnblockOneEffect(s, l);
  }

  lemma GiveMutexRunsOn(s: State, o: nat)
    requires KernelInv(s) && o < |s.objects| && s.objects[o].kind == Mutex && s.objects[o].owner == s.current && Operable(s)
    ensures RunsOn(GiveMutex(s, o).0, s.current.value, FirstWaiter(s, MutexList(o)))
  {
    hide UnblockOne, RecomputeInheritedPriority, YieldCurrent, Displaced, GiveMutex, Core, NoneDue;
    var c, l := s.current.value, MutexList(o);
    var released := AfterRelease(s, o);
    GiveMutexShape(s, o);
    ObjectWakeInv(s, o, Released(s.objects[o]), l);
    UnblockOneQuiet(released, l);
    var woken := UnblockOne(released, l).0;
    RecomputeInv(woken, c);
    RecomputeQuiet(woken, c);
    RecomputeStates(woken, c);
    var restored := RecomputeInheritedPriority(woken, c);
    if s.waiters[l] != [] {
      UnblockReadies(released, l);
      if restored.tasks[s.waiters[l][0]].priority > restored.tasks[c].priority {
        YieldDisplaces(restored, s.waiters[l][0]);
      }
    }
  }

  lemma AbortRunsOn(s: State, t: nat)
    requires KernelInv(s) && t < |s.tasks| && s.tasks[t].state == Blocked
    ensures RunsOn(AbortDelay(s, t).0, s.current.value, Some(t))
  {
    hide AbortDelay, EndWait, YieldCurrent, Displaced;
    assert t in s.delayed;
    AbortShape(s, t);
    AbortedInv(s, t);
    EndWaitStates(s, t);
    hide Core, NoneDue;
    var m := EndWait(s, t);
    if m.tasks[t].priority > m.tasks[s.current.value].priority { YieldDisplaces(m, t); }
  }

  // ---------- the other steps ----------

  /** The caller joins the end of the ready list of its priority, and the head of the
      highest ready list is dispatched; nothing else changes. */
  ghost predicate Rotates(s: State, r: State)
    requires InBounds(s) && s.current.Some?
  {
    var c := s.current.value;
    var own := s.tasks[c].priority;
    var lists := s.ready[own := s.ready[own] + [c]];
    && r.current.Some? && r.current.value < |s.tasks|
    && var x := r.current.value; var q := s.tasks[x].priority;
    && lists[q] != [] && lists[q][0] == x && (forall j: Priority :: q < j ==> lists[j] == [])
    && r.ready == lists[q := lists[q][1..]]
    && r.tasks == s.tasks[c := s.tasks[c].(state := Ready)][x := s.tasks[x].(state := Running)]
    && r.delayed == s.delayed && r.waiters == s.waiters && r.objects == s.objects
  }

  lemma YieldRotates(s: State)
    requires KernelInv(s)
    ensures Rotates(s, YieldCurrent(s))
  {
    PreemptCore(s);
    var c := s.current.value;
    var a := ReadyListInsert(WithTask(s, c, s.tasks[c].(state := Ready)), c);
    SwitchContextCore(a);
    var q := HighestReady(a.ready, MAX_PRIORITIES).value;
    var next, rest := a.ready[q][0], a.ready[q][1..];
    assert a.ready[q] == [next] + rest && next in a.ready[q];
    SwitchTo(a, q, next, rest);
    assert a.tasks[next].priority == q;
  }

  /** An abort passes exactly for a blocked task, which then has left every wait with its
      call told that the event did not come. */
  ghost predicate AbortAnswer(s: State, r: State, outcome: Outcome, t: nat)
    requires s.current.Some? && t < |s.tasks|
  {
    if s.tasks[t].state != Blocked then outcome == Refused && r == s
    else
      && outcome == Passed && r.objects == s.objects && RunsOn(r, s.current.value, Some(t))
      && t < |r.tasks| && r.tasks[t].state != Blocked && !r.tasks[t].waitResult && r.tasks[t].eventList.None?
      && t !in r.delayed && r.tasks[t].call == s.tasks[t].call
  }

  lemma AbortAnswers(s: State, t: nat)
    requires KernelInv(s) && t < |s.tasks|
    ensures AbortAnswer(s, AbortDelay(s, t).0, AbortDelay(s, t).1, t)
  {
    hide AbortDelay, RunsOn, Scheduled;
    AbortEffect(s, t);
    AbortInv(s, t);
    if s.tasks[t].state == Blocked {
      AbortRunsOn(s, t);
      AbortEnds(s, t);
      ScheduledObjects(s, AbortDelay(s, t).0, Some(t));
    }
  }

  lemma ScheduledObjects(s: State, r: State, but: Option<nat>)
    requires Scheduled(s, r, but)
    ensures r.objects == s.objects
  {
  }

  lemma AbortEnds(s: State, t: nat)
    requires KernelInv(s) && t < |s.tasks| && s.tasks[t].state == Blocked
    ensures var r := AbortDelay(s, t).0;
      && t < |r.tasks| && r.tasks[t].state != Blocked && !r.tasks[t].waitResult && r.tasks[t].call == s.tasks[t].call
  {
    hide EndWait, AbortDelay, YieldCurrent;
    assert t in s.delayed;
    AbortShape(s, t);
    AbortedInv(s, t);
    EndWaitQuiet(s, t);
    EndWaitStates(s, t);
    EndWaitResult(s, t, t);
    assert TcbSane(s.tasks[t], s.objects, s.now);
    YieldDelayed(EndWait(s, t), t);
    YieldKeepsCall(EndWait(s, t), t);
  }

  lemma YieldKeepsCall(s: State, t: nat)
    requires KernelInv(s) && t < |s.tasks|
    ensures YieldCurrent(s).tasks[t].call == s.tasks[t].call
  {
    PreemptCore(s);
    var c := s.current.value;
    SwitchKeepsCall(ReadyListInsert(WithTask(s, c, s.tasks[c].(state := Ready)), c), t);
  }

  /** The new base priority, and the move to the effective one: to the end of its ready
      list, or, in a wait list, behind all that are at least as strong. Nobody else
      changes, and there is no switch. */
  ghost predicate PriorityAnswer(s: State, r: State, t: nat, p: Priority)
    requires InBounds(s) && t < |s.tasks|
  {
    var before := s.tasks[t];
    var v := Max(p, before.inheritedPriority);
    && |r.tasks| == |s.tasks| && r.current == s.current && r.objects == s.objects && r.delayed == s.delayed
    && r.tasks == s.tasks[t := before.(basePriority := p, priority := v, stamp := r.tasks[t].stamp)]
    && r.ready == (if v == before.priority || before.state != Ready then s.ready
         else s.ready[before.priority := Remove(s.ready[before.priority], t)][v := s.ready[v] + [t]])
    && (v == before.priority || before.eventList.None? ==> r.waiters == s.waiters)
    && (v != before.priority && before.eventList.Some? ==>
          exists k :: Requeued(s, r, t, v, before.eventList.value, k))
  }

  /** `t` has moved to position `k` of its wait list, behind all that are as strong. */
  ghost predicate Requeued(s: State, r: State, t: nat, v: Priority, l: ListId, k: nat) {
    && l in s.waiters && l in r.waiters && |r.tasks| == |s.tasks|
    && var q := Remove(s.waiters[l], t);
    && k <= |q| && r.waiters == s.waiters[l := q[..k] + [t] + q[k..]]
    && (forall i :: 0 <= i < |q| ==> q[i] < |s.tasks|)
    && (forall i :: 0 <= i < k ==> s.tasks[q[i]].priority >= v) && (k < |q| ==> s.tasks[q[k]].priority < v)
  }

  lemma PriorityAnswers(s: State, t: nat, p: Priority)
    requires KernelInv(s) && t < |s.tasks|
    ensures PriorityAnswer(s, PrioritySet(s, t, p), t, p)
  {
    hide Requeued, Core, NoneDue, SetEffectivePriority;
    WaiterBlocks(s, t);
    var mid := WithTask(s, t, s.tasks[t].(basePriority := p));
    var v := Max(p, s.tasks[t].inheritedPriority);
    SetEffectivePriorityEffect(mid, t, v);
    if v == s.tasks[t].priority {
      PriorityStays(mid, t);
    } else if s.tasks[t].eventList.Some? {
      var k := PriorityRequeues(s, t, p);
    } else if s.tasks[t].state == Ready {
      PriorityMoves(s, t, p);
    }
  }

  lemma PriorityStays(s: State, t: nat)
    requires InBounds(s) && t < |s.tasks|
    ensures SetEffectivePriority(s, t, s.tasks[t].priority) == s
  {
  }

  lemma WaiterBlocks(s: State, t: nat)
    requires KernelInv(s) && t < |s.tasks|
    ensures InBounds(s) && (s.tasks[t].eventList.Some? ==> s.tasks[t].state == Blocked && t in s.waiters[s.tasks[t].eventList.value])
    ensures s.tasks[t].eventList.Some? ==> NoDup(s.waiters[s.tasks[t].eventList.value])
  {
  }

  lemma PriorityMoves(s: State, t: nat, p: Priority)
    requires InBounds(s) && t < |s.tasks| && s.tasks[t].state == Ready && Max(p, s.tasks[t].inheritedPriority) != s.tasks[t].priority
    ensures var own, v := s.tasks[t].priority, Max(p, s.tasks[t].inheritedPriority);
      PrioritySet(s, t, p).ready == s.ready[own := Remove(s.ready[own], t)][v := s.ready[v] + [t]]
  {
  }

  lemma PriorityRequeues(s: State, t: nat, p: Priority) returns (k: nat)
    requires InBounds(s) && t < |s.tasks| && s.tasks[t].state == Blocked && s.tasks[t].eventList.Some?
    requires NoDup(s.waiters[s.tasks[t].eventList.value]) && Max(p, s.tasks[t].inheritedPriority) != s.tasks[t].priority
    ensures Requeued(s, PrioritySet(s, t, p), t, Max(p, s.tasks[t].inheritedPriority), s.tasks[t].eventList.value, k)
  {
    hide SetEffectivePriority, NoDup;
    var l, v := s.tasks[t].eventList.value, Max(p, s.tasks[t].inheritedPriority);
    var mid := WithTask(s, t, s.tasks[t].(basePriority := p));
    k := ResortEffect(mid, t, v);
    var r := SetEffectivePriority(mid, t, v);
    var q := Remove(s.waiters[l], t);
    RemoveMembers(s.waiters[l], t);
    hide Remove;
    forall i | 0 <= i < |q| ensures q[i] < |s.tasks| && r.tasks[q[i]].priority == s.tasks[q[i]].priority {
      assert q[i] in q;
    }
  }

  /** The caller sleeps until its deadline, or is gone, and the strongest ready task runs. */
  ghost predicate Leaves(s: State, r: State)
    requires s.current.Some?
  {
    && r.objects == s.objects && |r.tasks| == |s.tasks| && r.current.Some? && r.current != s.current
    && r.current.value < |r.tasks| && r.tasks[r.current.value].state == Running
    && forall t {:trigger r.tasks[t]} :: 0 <= t < |r.tasks| && r.tasks[t].state == Ready ==>
         r.tasks[t].priority <= r.tasks[r.current.value].priority
  }

  lemma SwitchLeaves(s: State, m: State)
    requires KernelInv(s) && Core(m, None) && m.current == s.current && m.tasks[s.current.value].state != Running
    requires m.tasks[s.current.value].state != Ready && m.objects == s.objects && |m.tasks| == |s.tasks|
    ensures Leaves(s, SwitchContext(m))
    ensures SwitchContext(m).tasks[s.current.value] == m.tasks[s.current.value]
  {
    SwitchContextCore(m);
    SwitchContextStrict(m, Fixed);
    SwitchScheduled(m);
  }

  lemma DelayLeaves(s: State, ticks: nat)
    requires Attempting(s, ticks, s.now + ticks) && ticks > 0
    ensures var r := DelayCurrent(s, ticks); var c := s.current.value;
      Leaves(s, r) && WaitsUntil(r, c, InDelay, s.now + ticks) && r.tasks[c].eventList.None?
  {
    hide SwitchContext, DelayCurrent, Leaves;
    assert s.tasks[s.current.value].eventList.None?;
    var m := DelayParked(s, ticks);
    SwitchLeaves(s, m);
  }

  lemma ExitLeaves(s: State)
    requires KernelInv(s) && s.current.value != s.idle && s.tasks[s.current.value].call.NoCall?
    ensures var r := ExitTask(s); Leaves(s, r) && r.tasks[s.current.value].state == Deleted
  {
    hide SwitchContext, Leaves;
    ExitCore(s);
    SwitchLeaves(s, WithTask(s, s.current.value, s.tasks[s.current.value].(state := Deleted)));
  }

  /** The next tick ends nobody's wait. */
  ghost predicate NobodyDue(s: State) {
    forall t {:trigger s.tasks[t]} :: 0 <= t < |s.tasks| && s.tasks[t].state == Blocked ==> s.tasks[t].deadline != s.now + 1
  }

  lemma AdvanceQuiet(s: State)
    requires KernelInv(s) && NobodyDue(s)
    ensures KernelInv(Advance(s))
  {
    AdvanceCore(s);
    hide Core;
    forall t: nat | t in s.delayed ensures t < |s.tasks| && s.now + 1 < s.tasks[t].deadline {
      DelayedBlocked(s, t);
    }
  }

  lemma DelayedBlocked(s: State, t: nat)
    requires Core(s, None) && t in s.delayed
    ensures t < |s.tasks| && s.tasks[t].state == Blocked
  {
  }

  lemma NothingExpires(s: State)
    requires KernelInv(s)
    ensures WakeExpired(s) == s
  {
    if s.delayed != [] {
      assert s.delayed[0] in s.delayed;
      SignedDifferenceExact(s.now, s.tasks[s.delayed[0]].deadline);
    }
  }

  lemma QuietTick(s: State)
    requires KernelInv(s) && NobodyDue(s)
    ensures KernelInv(Advance(s)) && TickISR(s) == YieldCurrent(Advance(s))
  {
    AdvanceQuiet(s);
    hide YieldCurrent, WakeExpired, Core, NoneDue;
    NothingExpires(Advance(s));
    TickShape(s);
  }

  lemma TickRotates(s: State)
    requires KernelInv(s) && NobodyDue(s)
    ensures Rotates(s, TickISR(s))
  {
    hide YieldCurrent;
    QuietTick(s);
    YieldRotates(Advance(s));
  }

  /** A tick ends exactly the waits that are due, as failed; otherwise it gives the
      running task's turn to the next of its priority. */
  ghost predicate TickAnswer(s: State, r: State)
    requires InBounds(s) && s.current.Some?
  {
    && r.now == s.now + 1 && r.objects == s.objects && |r.tasks| == |s.tasks|
    && (forall t {:trigger r.tasks[t]} :: 0 <= t < |s.tasks| && s.tasks[t].state == Blocked ==>
          && (r.tasks[t].state == Blocked <==> s.tasks[t].deadline != s.now + 1)
          && (s.tasks[t].deadline == s.now + 1 ==> !r.tasks[t].waitResult))
    && (NobodyDue(s) ==> Rotates(s, r))
  }

  lemma TickAnswers(s: State)
    requires KernelInv(s)
    ensures TickAnswer(s, TickISR(s))
  {
    hide TickISR, Rotates;
    TickEffect(s);
    forall t | 0 <= t < |s.tasks| && s.tasks[t].state == Blocked
      ensures (TickISR(s).tasks[t].state == Blocked <==> s.tasks[t].deadline != s.now + 1)
      ensures s.tasks[t].deadline == s.now + 1 ==> !TickISR(s).tasks[t].waitResult
    {
      TickWakesExactly(s, t);
    }
    if NobodyDue(s) { TickRotates(s); }
  }

  // ---------- the way back into a call ----------

  lemma SendRunsOn(s: State, o: nat, item: seq<Byte>, ticks: nat, due: nat)
    requires KernelInv(s) && Operable(s) && HasRoom(s, o) && |item| == s.objects[o].itemSize
    ensures var r := SendAttempt(s, o, item, ticks, due).0; var c := s.current.value;
      && RunsOn(r, c, FirstWaiter(s, ListId(o, ReceiveSide))) && r.tasks[c] == s.tasks[c].(state := r.tasks[c].state)
  {
    hide UnblockAndSwitch, RunsOn;
    assert ObjectShape(s.objects[o]);
    var obj := CopyIn(s.objects[o], item);
    ObjectInv(s, o, obj);
    WakeRunsOn(s.(objects := s.objects[o := obj]), ListId(o, ReceiveSide));
  }

  lemma ReceiveRunsOn(s: State, o: nat, ticks: nat, due: nat)
    requires KernelInv(s) && Operable(s) && HasItem(s, o)
    ensures var r := ReceiveAttempt(s, o, ticks, due).0; var c := s.current.value;
      && RunsOn(r, c, FirstWaiter(s, ListId(o, SendSide))) && r.tasks[c] == s.tasks[c].(state := r.tasks[c].state)
  {
    hide UnblockAndSwitch, RunsOn;
    assert ObjectShape(s.objects[o]);
    var obj := CopyOut(s.objects[o]);
    ObjectInv(s, o, obj);
    WakeRunsOn(s.(objects := s.objects[o := obj]), ListId(o, SendSide));
  }

  lemma GiveRunsOn(s: State, o: nat)
    requires KernelInv(s) && Operable(s) && Gives(s, o)
    ensures var r := if s.objects[o].kind == Mutex then GiveMutex(s, o).0 else GiveSemaphore(s, o).0;
      RunsOn(r, s.current.value, FirstWaiter(s, ListId(o, ReceiveSide)))
  {
    hide UnblockAndSwitch, RunsOn, GiveMutex;
    assert ObjectShape(s.objects[o]);
    if s.objects[o].kind == Mutex {
      GiveMutexRunsOn(s, o);
    } else {
      var obj := TokenGiven(s.objects[o]);
      ObjectInv(s, o, obj);
      WakeRunsOn(s.(objects := s.objects[o := obj]), ListId(o, ReceiveSide));
    }
  }

  /** A passed take neither wakes nor switches. */
  lemma TakeRunsOn(s: State, o: nat, ticks: nat, due: nat)
    requires KernelInv(s) && Operable(s) && o < |s.objects| && s.objects[o].kind != QueueData && s.objects[o].count > 0
    ensures var r := TakeAttempt(s, o, ticks, due).0; var c := s.current.value;
      RunsOn(r, c, None) && r.tasks == s.tasks && r.ready == s.ready
  {
    assert ObjectShape(s.objects[o]);
  }

  /** Nothing of a wait is left in the control block. */
  ghost predicate Forgotten(t: Tcb) {
    && t.wakeTick == 0 && t.waitObject.None? && t.waitReason == WaitNone && !t.waitResult && !t.waitHasTimeout
    && t.call.NoCall?
  }

  /** A call that comes back from its wait fails if its event did not come. Otherwise it
      answers like the same call made now with the ticks left until its deadline. Unless
      it waits again, nothing of the wait is left. */
  ghost predicate ResumeAnswer(s: State, r: State, outcome: Outcome)
    requires s.current.Some? && s.current.value < |s.tasks|
  {
    var c := s.current.value;
    var tcb := s.tasks[c];
    var left: nat := if s.now < tcb.deadline then tcb.deadline - s.now else 0;
    && CallShape(tcb.call, s.objects)
    && (match tcb.call
        case InSend(o, item, due) =>
          if tcb.waitResult then
            && SendAnswer(s, r, outcome, o, item, left, due)
            && (outcome == Passed ==> RunsOn(r, c, FirstWaiter(s, ListId(o, ReceiveSide))))
          else outcome == Refused && r.objects == s.objects && RunsOn(r, c, None)
        case InReceive(o, due) =>
          if tcb.waitResult then
            && ReceiveAnswer(s, r, outcome, o, left, due)
            && (outcome.Received? ==> RunsOn(r, c, FirstWaiter(s, ListId(o, SendSide))))
          else outcome == Refused && r.objects == s.objects && RunsOn(r, c, None)
        case InTake(o, due) =>
          if tcb.waitResult then TakeAnswer(s, r, outcome, o, left, due) && (outcome == Passed ==> RunsOn(r, c, None))
          else outcome == Refused && r.objects == s.objects && RunsOn(r, c, None)
        case _ => outcome == Passed && r.objects == s.objects && RunsOn(r, c, None))
    && (outcome == Refused ==> RunsOn(r, c, None) && r.objects == s.objects)
    && (outcome != Suspended ==> c < |r.tasks| && Forgotten(r.tasks[c]))
  }

  lemma ClearedRuns(s: State)
    requires KernelInv(s)
    ensures var r := ClearWaitState(s, s.current.value);
      && KernelInv(r) && r.objects == s.objects && r.current == s.current
      && RunsOn(r, s.current.value, None) && Forgotten(r.tasks[s.current.value])
  {
    ClearInv(s);
  }

  lemma ResumeSendAnswers(s: State)
    requires KernelInv(s) && Operable(s) && RingsKept(s.objects) && Enabled(s, Resume)
    requires s.tasks[s.current.value].waitResult && s.tasks[s.current.value].call.InSend?
    ensures ResumeAnswer(s, ResumeCall(s).0, ResumeCall(s).1)
  {
    hide SendAttempt, RunsOn, SendAnswer, RingsKept, Core;
    var c := s.current.value;
    ResumeRemaining(s);
    ClearedRuns(s);
    var cleared, remaining := ClearWaitState(s, c), WaitRemaining(s, c);
    match s.tasks[c].call
    case InSend(o, item, due) =>
      SendAnswers(cleared, o, item, remaining, due);
      SendEffect(cleared, o, item, remaining, due);
      if HasRoom(s, o) { SendRunsOn(cleared, o, item, remaining, due); }
      SameSendAnswer(s, cleared, ResumeCall(s).0, ResumeCall(s).1, o, item, remaining, due);
  }

  lemma SameSendAnswer(s: State, cleared: State, r: State, outcome: Outcome, o: nat, item: seq<Byte>, ticks: nat, due: nat)
    requires cleared.objects == s.objects && cleared.current == s.current && s.current.Some? && o < |s.objects|
    requires SendAnswer(cleared, r, outcome, o, item, ticks, due)
    ensures SendAnswer(s, r, outcome, o, item, ticks, due)
  {
  }

  lemma SameReceiveAnswer(s: State, cleared: State, r: State, outcome: Outcome, o: nat, ticks: nat, due: nat)
    requires cleared.objects == s.objects && cleared.current == s.current && s.current.Some? && o < |s.objects|
    requires ReceiveAnswer(cleared, r, outcome, o, ticks, due)
    ensures ReceiveAnswer(s, r, outcome, o, ticks, due)
  {
  }

  lemma SameTakeAnswer(s: State, cleared: State, r: State, outcome: Outcome, o: nat, ticks: nat, due: nat)
    requires cleared.objects == s.objects && cleared.current == s.current && s.current.Some? && o < |s.objects|
    requires TakeAnswer(cleared, r, outcome, o, ticks, due)
    ensures TakeAnswer(s, r, outcome, o, ticks, due)
  {
  }

  lemma ResumeReceiveAnswers(s: State)
    requires KernelInv(s) && Operable(s) && RingsKept(s.objects) && Enabled(s, Resume)
    requires s.tasks[s.current.value].waitResult && s.tasks[s.current.value].call.InReceive?
    ensures ResumeAnswer(s, ResumeCall(s).0, ResumeCall(s).1)
  {
    hide ReceiveAttempt, RunsOn, ReceiveAnswer, RingsKept, Core;
    var c := s.current.value;
    ResumeRemaining(s);
    ClearedRuns(s);
    var cleared, remaining := ClearWaitState(s, c), WaitRemaining(s, c);
    match s.tasks[c].call
    case InReceive(o, due) =>
      ReceiveAnswers(cleared, o, remaining, due);
      ReceiveEffect(cleared, o, remaining, due);
      if HasItem(s, o) { ReceiveRunsOn(cleared, o, remaining, due); }
      SameReceiveAnswer(s, cleared, ResumeCall(s).0, ResumeCall(s).1, o, remaining, due);
  }

  lemma ResumeTakeAnswers(s: State)
    requires KernelInv(s) && Operable(s) && Enabled(s, Resume)
    requires s.tasks[s.current.value].waitResult && s.tasks[s.current.value].call.InTake?
    ensures ResumeAnswer(s, ResumeCall(s).0, ResumeCall(s).1)
  {
    hide TakeAttempt, RunsOn, TakeAnswer, Core;
    var c := s.current.value;
    ResumeRemaining(s);
    ClearedRuns(s);
    var cleared, remaining := ClearWaitState(s, c), WaitRemaining(s, c);
    match s.tasks[c].call
    case InTake(o, due) =>
      TakeAnswers(cleared, o, remaining, due);
      TakeEffect(cleared, o, remaining, due);
      if s.objects[o].count > 0 { TakeRunsOn(cleared, o, remaining, due); }
      SameTakeAnswer(s, cleared, ResumeCall(s).0, ResumeCall(s).1, o, remaining, due);
  }

  lemma ResumeAnswers(s: State)
    requires KernelInv(s) && Operable(s) && RingsKept(s.objects) && Enabled(s, Resume)
    ensures ResumeAnswer(s, ResumeCall(s).0, ResumeCall(s).1)
  {
    var tcb := s.tasks[s.current.value];
    assert TcbSane(tcb, s.objects, s.now);
    if tcb.waitResult {
      hide ResumeAnswer, ResumeCall, Core;
      match tcb.call {
        case InSend(_, _, _) => ResumeSendAnswers(s);
        case InReceive(_, _) => ResumeReceiveAnswers(s);
        case InTake(_, _) => ResumeTakeAnswers(s);
        case _ =>
      }
    } else {
      hide RunsOn, SendAttempt, ReceiveAttempt, TakeAttempt, Core;
      ClearedRuns(s);
    }
  }

  // ---------- every step ----------

  /** What a step answers and leaves behind, for every call of the kernel. */
  ghost predicate Answers(s: State, step: Step, r: State, outcome: Outcome)
    requires InBounds(s) && Enabled(s, step)
  {
    var c := s.current.value;
    match step
    case Send(o, item, ticks) =>
      if s.objects[o].kind != QueueData then outcome == Refused && r == s
      else
        && SendAnswer(s, r, outcome, o, item, ticks, s.now + ticks)
        && (outcome == Passed ==> RunsOn(r, c, FirstWaiter(s, ListId(o, ReceiveSide)))) && (outcome == Refused ==> r == s)
    case Receive(o, ticks) =>
      if s.objects[o].kind != QueueData then outcome == Refused && r == s
      else
        && ReceiveAnswer(s, r, outcome, o, ticks, s.now + ticks)
        && (outcome.Received? ==> RunsOn(r, c, FirstWaiter(s, ListId(o, SendSide)))) && (outcome == Refused ==> r == s)
    case Take(o, ticks) =>
      if s.objects[o].kind == QueueData then outcome == Refused && r == s
      else
        && TakeAnswer(s, r, outcome, o, ticks, s.now + ticks)
        && (outcome == Passed ==> RunsOn(r, c, None)) && (outcome == Refused ==> r == s)
    case Give(o) =>
      if s.objects[o].kind == QueueData then outcome == Refused && r == s
      else
        && GiveAnswer(s, r, outcome, o)
        && (outcome == Passed ==> RunsOn(r, c, FirstWaiter(s, ListId(o, ReceiveSide))))
    case Delay(ticks) =>
      if ticks == 0 then outcome == Passed && Rotates(s, r)
      else
        && outcome == Suspended && Leaves(s, r)
        && WaitsUntil(r, c, InDelay, s.now + ticks) && r.tasks[c].eventList.None?
    case Abort(t) => AbortAnswer(s, r, outcome, t)
    case Yield => outcome == Passed && Rotates(s, r)
    case SetPriority(t, p) => outcome == Passed && PriorityAnswer(s, r, t, p)
    case Exit => outcome == Passed && Leaves(s, r) && r.tasks[c].state == Deleted
    case Resume => ResumeAnswer(s, r, outcome)
    case Tick => outcome == Passed && TickAnswer(s, r)
  }

  lemma SendStepAnswers(s: State, o: nat, item: seq<Byte>, ticks: nat)
    requires KernelInv(s) && Operable(s) && RingsKept(s.objects) && Enabled(s, Send(o, item, ticks))
    ensures Answers(s, Send(o, item, ticks), Perform(s, Send(o, item, ticks)).0, Perform(s, Send(o, item, ticks)).1)
  {
    hide SendAttempt, RunsOn, SendAnswer, RingsKept, Core;
    if s.objects[o].kind == QueueData {
      SendAnswers(s, o, item, ticks, s.now + ticks);
      SendEffect(s, o, item, ticks, s.now + ticks);
      if HasRoom(s, o) { SendRunsOn(s, o, item, ticks, s.now + ticks); }
    }
  }

  lemma ReceiveStepAnswers(s: State, o: nat, ticks: nat)
    requires KernelInv(s) && Operable(s) && RingsKept(s.objects) && Enabled(s, Receive(o, ticks))
    ensures Answers(s, Receive(o, ticks), Perform(s, Receive(o, ticks)).0, Perform(s, Receive(o, ticks)).1)
  {
    hide ReceiveAttempt, RunsOn, ReceiveAnswer, RingsKept, Core;
    if s.objects[o].kind == QueueData {
      ReceiveAnswers(s, o, ticks, s.now + ticks);
      ReceiveEffect(s, o, ticks, s.now + ticks);
      if HasItem(s, o) { ReceiveRunsOn(s, o, ticks, s.now + ticks); }
    }
  }

  lemma TakeStepAnswers(s: State, o: nat, ticks: nat)
    requires KernelInv(s) && Operable(s) && Enabled(s, Take(o, ticks))
    ensures Answers(s, Take(o, ticks), Perform(s, Take(o, ticks)).0, Perform(s, Take(o, ticks)).1)
  {
    hide TakeAttempt, RunsOn, TakeAnswer, Core;
    if s.objects[o].kind != QueueData {
      TakeAnswers(s, o, ticks, s.now + ticks);
      TakeEffect(s, o, ticks, s.now + ticks);
      if s.objects[o].count > 0 { TakeRunsOn(s, o, ticks, s.now + ticks); }
    }
  }

  lemma GiveStepAnswers(s: State, o: nat)
    requires KernelInv(s) && Operable(s) && Enabled(s, Give(o))
    ensures Answers(s, Give(o), Perform(s, Give(o)).0, Perform(s, Give(o)).1)
  {
    hide GiveMutex, GiveSemaphore, RunsOn, GiveAnswer, Core;
    if s.objects[o].kind != QueueData {
      GiveAnswers(s, o);
      GiveEffect(s, o);
      if Gives(s, o) { GiveRunsOn(s, o); }
    }
  }

  lemma DelayRotates(s: State)
    requires KernelInv(s)
    ensures Rotates(s, DelayCurrent(s, 0))
  {
    hide YieldCurrent;
    YieldRotates(s);
  }

  /** Every step of every reachable state answers and acts as its call promises. */
  lemma StepAnswers(s: State, step: Step)
    requires Reachable(s) && Operable(s) && Enabled(s, step)
    ensures Answers(s, step, Perform(s, step).0, Perform(s, step).1)
  {
    hide Reachable, SendAttempt, ReceiveAttempt, TakeAttempt, GiveMutex, GiveSemaphore, DelayCurrent, AbortDelay,
      YieldCurrent, PrioritySet, ExitTask, ResumeCall, TickISR, Rotates, Leaves, PriorityAnswer, TickAnswer, ResumeAnswer,
      AbortAnswer, Core, RingsKept, NoLostWakeup;
    ReachableInv(s);
    match step
    case Send(o, item, ticks) => SendStepAnswers(s, o, item, ticks);
    case Receive(o, ticks) => ReceiveStepAnswers(s, o, ticks);
    case Take(o, ticks) => TakeStepAnswers(s, o, ticks);
    case Give(o) => GiveStepAnswers(s, o);
    case Delay(ticks) => if ticks == 0 { DelayRotates(s); } else { DelayLeaves(s, ticks); }
    case Abort(t) => AbortAnswers(s, t);
    case Yield => YieldRotates(s);
    case SetPriority(t, p) => PriorityAnswers(s, t, p);
    case Exit => ExitLeaves(s);
    case Resume => ResumeAnswers(s);
    case Tick => TickAnswers(s);
  }
}
