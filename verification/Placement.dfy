/** Every task is in exactly the lists its state says. */
module Placement {
  import opened Ticks
  import opened Lists
  import opened KernelState
  import opened TaskModel
  import opened QueueModel

  /** Ready tasks, and only they, stand in the ready list of their own priority. */
  ghost predicate ReadyPlaced(tasks: seq<Tcb>, ready: ReadyLists) {
    && (forall p: Priority :: NoDup(ready[p]))
    && (forall p: Priority, t: nat {:trigger t in ready[p]} :: t in ready[p] ==>
          t < |tasks| && tasks[t].state == Ready && tasks[t].priority == p)
    && (forall t: nat {:trigger tasks[t]} :: t < |tasks| && tasks[t].state == Ready ==> t in ready[tasks[t].priority])
  }

  /** Blocked tasks, and only they, stand in the delay list; `limbo` is a task on its
      way out of a wait. */
  ghost predicate DelayPlaced(tasks: seq<Tcb>, delayed: seq<nat>, limbo: Option<nat>) {
    && NoDup(delayed)
    && (forall t: nat {:trigger t in delayed} :: t in delayed ==> t < |tasks| && tasks[t].state == Blocked && limbo != Some(t))
    && (forall t: nat {:trigger tasks[t]} :: t < |tasks| && tasks[t].state == Blocked && limbo != Some(t) ==> t in delayed)
  }

  /** A task is in the one event list it names, and names one only while blocked. */
  ghost predicate EventPlaced(tasks: seq<Tcb>, waiters: map<ListId, seq<nat>>, limbo: Option<nat>) {
    && (forall l :: l in waiters ==> NoDup(waiters[l]))
    && (forall l, t: nat {:trigger t in waiters[l]} :: l in waiters && t in waiters[l] ==> t < |tasks| && tasks[t].eventList == Some(l))
    && (forall t: nat {:trigger tasks[t]} :: t < |tasks| && tasks[t].eventList.Some? ==>
          && tasks[t].state == Blocked && limbo != Some(t)
          && tasks[t].eventList.value in waiters && t in waiters[tasks[t].eventList.value])
  }

  ghost predicate RunningPlaced(tasks: seq<Tcb>, current: Option<nat>) {
    forall t :: 0 <= t < |tasks| && tasks[t].state == Running ==> current == Some(t)
  }

  ghost predicate Placed(s: State, limbo: Option<nat>) {
    && InBounds(s)
    && ReadyPlaced(s.tasks, s.ready)
    && DelayPlaced(s.tasks, s.delayed, limbo)
    && EventPlaced(s.tasks, s.waiters, limbo)
    && RunningPlaced(s.tasks, s.current)
  }

  lemma PlacedLinked(s: State, limbo: Option<nat>)
    requires Placed(s, limbo)
    ensures Linked(s.tasks, s.waiters)
  {
    forall l, i | l in s.waiters && 0 <= i < |s.waiters[l]|
      ensures s.waiters[l][i] < |s.tasks| && s.tasks[s.waiters[l][i]].eventList == Some(l)
    {
      assert s.waiters[l][i] in s.waiters[l];
    }
  }

  lemma RequeueReady(tasks: seq<Tcb>, ready: ReadyLists, t: nat, p: Priority, q: seq<nat>)
    requires ReadyPlaced(tasks, ready) && t < |tasks| && tasks[t].state == Ready && tasks[t].priority != p
    requires q == Remove(ready[tasks[t].priority], t)
    ensures ReadyPlaced(tasks[t := tasks[t].(priority := p)], ready[tasks[t].priority := q][p := ready[p] + [t]])
  {
    RemoveMembers(ready[tasks[t].priority], t);
    AppendMembers(ready[p], t);
  }

  /** Taking a waiter out and putting it back in at any place, its other list
      memberships untouched. */
  lemma RequeueWaiter(
    tasks: seq<Tcb>, waiters: map<ListId, seq<nat>>, limbo: Option<nat>, l: ListId, t: nat, k: nat, tcb: Tcb)
    requires EventPlaced(tasks, waiters, limbo) && t < |tasks| && tasks[t].eventList == Some(l) && l in waiters
    requires k <= |Remove(waiters[l], t)|
    requires tcb.eventList == Some(l) && tcb.state == Blocked
    ensures EventPlaced(tasks[t := tcb], waiters[l := InsertAt(Remove(waiters[l], t), k, t)], limbo)
  {
    RemoveMembers(waiters[l], t);
    InsertAtMembers(Remove(waiters[l], t), k, t);
  }

  /** The task is moved to the place of its new priority and nothing else changes. */
  lemma SetEffectivePriorityEffect(s: State, t: nat, p: Priority)
    requires InBounds(s) && t < |s.tasks|
    ensures var r := SetEffectivePriority(s, t, p);
      && r.tasks == s.tasks[t := s.tasks[t].(priority := p, stamp := r.tasks[t].stamp)]
      && r == s.(tasks := r.tasks, ready := r.ready, waiters := r.waiters, stamps := r.stamps)
      && (s.tasks[t].state != Ready ==> r.ready == s.ready)
      && (s.tasks[t].state != Blocked || s.tasks[t].eventList.None? ==> r.waiters == s.waiters)
  {
  }

  lemma SameStatesPlaced(s: State, r: State, limbo: Option<nat>)
    requires DelayPlaced(s.tasks, s.delayed, limbo) && RunningPlaced(s.tasks, s.current)
    requires |r.tasks| == |s.tasks| && r.delayed == s.delayed && r.current == s.current
    requires forall u {:trigger r.tasks[u]} :: 0 <= u < |s.tasks| ==> r.tasks[u].state == s.tasks[u].state
    ensures DelayPlaced(r.tasks, r.delayed, limbo) && RunningPlaced(r.tasks, r.current)
  {
    forall u: nat | u < |s.tasks| ensures r.tasks[u].state == s.tasks[u].state {}
  }

  lemma SetEffectivePriorityReady(s: State, t: nat, p: Priority)
    requires InBounds(s) && t < |s.tasks| && ReadyPlaced(s.tasks, s.ready)
    ensures var r := SetEffectivePriority(s, t, p); ReadyPlaced(r.tasks, r.ready)
  {
    SetEffectivePriorityEffect(s, t, p);
    var tcb := s.tasks[t];
    if tcb.priority != p && tcb.state == Ready {
      RequeueReady(s.tasks, s.ready, t, p, Remove(s.ready[tcb.priority], t));
    }
  }

  /** A blocked waiter whose priority changes is taken out of its list and inserted
      again behind every waiter of at least the new priority. */
  lemma ResortEffect(s: State, t: nat, p: Priority) returns (k: nat)
    requires InBounds(s) && t < |s.tasks| && s.tasks[t].priority != p
    requires s.tasks[t].state == Blocked && s.tasks[t].eventList.Some?
    ensures var r := SetEffectivePriority(s, t, p); var l := s.tasks[t].eventList.value; var q := Remove(s.waiters[l], t);
      && r.tasks == s.tasks[t := s.tasks[t].(priority := p, stamp := s.stamps)]
      && k <= |q| && r.waiters == s.waiters[l := InsertAt(q, k, t)]
      && (forall i :: 0 <= i < k ==> r.tasks[q[i]].priority >= p)
      && (k < |q| ==> r.tasks[q[k]].priority < p)
  {
    var tcb := s.tasks[t];
    var l := tcb.eventList.value;
    var removed := EventListRemove(s, t);
    var mid := WithTask(removed, t, removed.tasks[t].(priority := p));
    k := EventPosition(mid.tasks, mid.waiters[l], p);
    assert SetEffectivePriority(s, t, p) == EventListInsert(mid, l, t);
    assert mid.tasks == s.tasks[t := tcb.(priority := p, eventList := None)];
  }

  lemma SetEffectivePriorityEvent(s: State, t: nat, p: Priority, limbo: Option<nat>)
    requires InBounds(s) && t < |s.tasks| && EventPlaced(s.tasks, s.waiters, limbo)
    ensures var r := SetEffectivePriority(s, t, p); EventPlaced(r.tasks, r.waiters, limbo)
  {
    var tcb := s.tasks[t];
    if tcb.priority != p && tcb.state == Blocked && tcb.eventList.Some? {
      var k := ResortEffect(s, t, p);
      RequeueWaiter(s.tasks, s.waiters, limbo, tcb.eventList.value, t, k, tcb.(priority := p, stamp := s.stamps));
    } else {
      SetEffectivePriorityEffect(s, t, p);
    }
  }

  lemma SetEffectivePriorityPlaced(s: State, t: nat, p: Priority, limbo: Option<nat>)
    requires Placed(s, limbo) && t < |s.tasks|
    ensures Placed(SetEffectivePriority(s, t, p), limbo)
  {
    SetEffectivePriorityEffect(s, t, p);
    SetEffectivePriorityReady(s, t, p);
    SetEffectivePriorityEvent(s, t, p, limbo);
    SameStatesPlaced(s, SetEffectivePriority(s, t, p), limbo);
  }

  lemma TouchPlaced(s: State, t: nat, tcb: Tcb, limbo: Option<nat>)
    requires Placed(s, limbo) && t < |s.tasks| && TcbInBounds(tcb, |s.objects|)
    requires tcb.state == s.tasks[t].state && tcb.priority == s.tasks[t].priority
    requires tcb.eventList == s.tasks[t].eventList
    ensures Placed(WithTask(s, t, tcb), limbo)
  {
    SameStatesPlaced(s, WithTask(s, t, tcb), limbo);
  }

  lemma SetInheritedPriorityPlaced(s: State, t: nat, p: Priority, limbo: Option<nat>)
    requires Placed(s, limbo) && t < |s.tasks|
    ensures Placed(SetInheritedPriority(s, t, p), limbo)
  {
    var tcb := s.tasks[t].(inheritedPriority := p);
    TouchPlaced(s, t, tcb, limbo);
    SetEffectivePriorityPlaced(WithTask(s, t, tcb), t, Max(tcb.basePriority, p), limbo);
  }

  lemma RecomputePlaced(s: State, t: nat, limbo: Option<nat>)
    requires Placed(s, limbo) && t < |s.tasks|
    ensures Placed(RecomputeInheritedPriority(s, t), limbo)
  {
    SetInheritedPriorityPlaced(s, t, MaxWaiter(s, s.registry, t, IDLE_PRIORITY), limbo);
  }

  lemma UnlinkPlaced(s: State, t: nat)
    requires Placed(s, None) && t < |s.tasks| && s.tasks[t].state == Blocked
    ensures var undelayed := DelayListRemove(s, t);
      Placed(if s.tasks[t].eventList.Some? then EventListRemove(undelayed, t) else undelayed, Some(t))
  {
    RemoveMembers(s.delayed, t);
    if s.tasks[t].eventList.Some? {
      EventListRemovePlaced(s, t);
    }
  }

  lemma RecomputeStates(s: State, u: nat)
    requires InBounds(s) && u < |s.tasks|
    ensures var r := RecomputeInheritedPriority(s, u);
      r.current == s.current && forall t {:trigger r.tasks[t]} :: 0 <= t < |s.tasks| ==> r.tasks[t].state == s.tasks[t].state
  {
    var p := MaxWaiter(s, s.registry, u, IDLE_PRIORITY);
    var tcb := s.tasks[u].(inheritedPriority := p);
    SetEffectivePriorityEffect(WithTask(s, u, tcb), u, Max(tcb.basePriority, p));
  }

  lemma WaitEndedPlaced(s: State, t: nat, limbo: Option<nat>)
    requires Placed(s, limbo) && t < |s.tasks|
    ensures Placed(WaitEnded(s, t), limbo)
    ensures WaitEnded(s, t).tasks[t].state == s.tasks[t].state
  {
    hide RecomputeInheritedPriority;
    var tcb := s.tasks[t];
    if tcb.waitReason == WaitMutexTake && tcb.waitObject.Some? {
      var mutex := s.objects[tcb.waitObject.value];
      if mutex.kind == Mutex && mutex.owner.Some? {
        RecomputePlaced(s, mutex.owner.value, limbo);
        RecomputeStates(s, mutex.owner.value);
      }
    }
  }

  lemma EndWaitPlaced(s: State, t: nat)
    requires Placed(s, None) && t < |s.tasks| && s.tasks[t].state == Blocked
    ensures Placed(EndWait(s, t), None)
  {
    UnlinkPlaced(s, t);
    var undelayed := DelayListRemove(s, t);
    if s.tasks[t].eventList.Some? {
      var unlinked := EventListRemove(undelayed, t);
      WaitEndedPlaced(unlinked, t, Some(t));
      MakeReadyPlaced(WaitEnded(unlinked, t), t, false);
    } else {
      MakeReadyPlaced(undelayed, t, false);
    }
  }

  lemma {:induction false} WakeExpiredPlaced(s: State)
    requires Placed(s, None)
    ensures Placed(WakeExpired(s), None)
    decreases |s.delayed|
  {
    if s.delayed != [] && TickReached(s.tick, s.tasks[s.delayed[0]].wakeTick) {
      assert s.delayed[0] in s.delayed;
      EndWaitPlaced(s, s.delayed[0]);
      WakeExpiredPlaced(EndWait(s, s.delayed[0]));
    }
  }

  lemma UnblockOnePlaced(s: State, l: ListId)
    requires Placed(s, None) && l in s.waiters
    ensures Linked(s.tasks, s.waiters)
    ensures Placed(UnblockOne(s, l).0, None)
  {
    PlacedLinked(s, None);
    if s.waiters[l] != [] {
      var t := s.waiters[l][0];
      assert t in s.waiters[l];
      UnlinkPlaced(s, t);
      var unlinked := DelayListRemove(EventListRemove(s, t), t);
      assert unlinked == EventListRemove(DelayListRemove(s, t), t);
      MakeReadyPlaced(unlinked, t, true);
    }
  }

  lemma ParkReady(tasks: seq<Tcb>, ready: ReadyLists, current: Option<nat>, t: nat, tcb: Tcb)
    requires ReadyPlaced(tasks, ready) && RunningPlaced(tasks, current)
    requires t < |tasks| && tasks[t].state == Running && tcb.state == Blocked
    ensures ReadyPlaced(tasks[t := tcb], ready) && RunningPlaced(tasks[t := tcb], current)
  {
  }

  lemma ParkDelayed(tasks: seq<Tcb>, delayed: seq<nat>, t: nat, tcb: Tcb, k: nat)
    requires DelayPlaced(tasks, delayed, None)
    requires t < |tasks| && tasks[t].state == Running && tcb.state == Blocked && k <= |delayed|
    ensures DelayPlaced(tasks[t := tcb], InsertAt(delayed, k, t), None)
  {
    InsertAtMembers(delayed, k, t);
  }

  lemma ParkWaiting(tasks: seq<Tcb>, waiters: map<ListId, seq<nat>>, t: nat, tcb: Tcb, l: ListId, k: nat)
    requires EventPlaced(tasks, waiters, None) && l in waiters
    requires t < |tasks| && tasks[t].state == Running && k <= |waiters[l]|
    requires tcb.state == Blocked && tcb.eventList == Some(l)
    ensures EventPlaced(tasks[t := tcb], waiters[l := InsertAt(waiters[l], k, t)], None)
  {
    InsertAtMembers(waiters[l], k, t);
  }

  function ParkedTcb(s: State, t: nat, l: ListId, reason: WaitReason, call: Call, ticks: nat): Tcb
    requires t < |s.tasks|
  {
    s.tasks[t].(
      state := Blocked, waitObject := Some(l.obj), waitReason := reason, waitResult := false,
      waitHasTimeout := true, wakeTick := Wrap(s.tick + ticks), call := call, deadline := s.now + ticks,
      eventList := Some(l), stamp := s.stamps, delayStamp := s.stamps + 1)
  }

  /** The task goes into the event list behind every waiter of at least its priority
      and into the delay list behind every deadline not after its own. */
  lemma BlockOnEffect(s: State, t: nat, l: ListId, reason: WaitReason, call: Call, ticks: nat) returns (k: nat, d: nat)
    requires InBounds(s) && t < |s.tasks| && l in s.waiters
    requires call.NoCall? || call.InDelay? || call.obj < |s.objects|
    ensures k <= |s.waiters[l]| && d <= |s.delayed|
    ensures var r := BlockOn(s, t, l, reason, call, ticks); var tcb := ParkedTcb(s, t, l, reason, call, ticks);
      && r == s.(tasks := s.tasks[t := tcb], waiters := s.waiters[l := InsertAt(s.waiters[l], k, t)],
                 delayed := InsertAt(s.delayed, d, t), stamps := s.stamps + 2)
      && (forall i :: 0 <= i < k ==> r.tasks[s.waiters[l][i]].priority >= tcb.priority)
      && (k < |s.waiters[l]| ==> r.tasks[s.waiters[l][k]].priority < tcb.priority)
      && (forall i :: 0 <= i < d ==> !TickBefore(tcb.wakeTick, r.tasks[s.delayed[i]].wakeTick))
      && (d < |s.delayed| ==> TickBefore(tcb.wakeTick, r.tasks[s.delayed[d]].wakeTick))
  {
    var tcb := ParkedTcb(s, t, l, reason, call, ticks);
    var before := tcb.(eventList := s.tasks[t].eventList, stamp := s.tasks[t].stamp, delayStamp := s.tasks[t].delayStamp);
    var parked := WithTask(s, t, before);
    k := EventPosition(parked.tasks, s.waiters[l], tcb.priority);
    var queued := EventListInsert(parked, l, t);
    d := DelayPosition(queued.tasks, s.delayed, tcb.wakeTick);
    var r := s.tasks[t := tcb];
    assert DelayListInsert(queued, t).tasks == r;
    assert forall x :: 0 <= x < |r| ==> r[x].priority == parked.tasks[x].priority && r[x].wakeTick == queued.tasks[x].wakeTick;
  }

  lemma BlockOnPlaced(s: State, t: nat, l: ListId, reason: WaitReason, call: Call, ticks: nat)
    requires Placed(s, None) && t < |s.tasks| && l in s.waiters && s.tasks[t].state == Running
    requires call.NoCall? || call.InDelay? || call.obj < |s.objects|
    ensures Placed(BlockOn(s, t, l, reason, call, ticks), None)
  {
    var k, d := BlockOnEffect(s, t, l, reason, call, ticks);
    var tcb := ParkedTcb(s, t, l, reason, call, ticks);
    ParkReady(s.tasks, s.ready, s.current, t, tcb);
    ParkDelayed(s.tasks, s.delayed, t, tcb, d);
    ParkWaiting(s.tasks, s.waiters, t, tcb, l, k);
  }

  /** The list that the selection finds. */
  lemma {:induction false} HighestReadyIs(ready: ReadyLists, bound: nat, p: nat)
    requires p < bound <= 8 && ready[p] != [] && forall q: Priority :: p < q < bound ==> ready[q] == []
    ensures HighestReady(ready, bound) == Some(p)
    decreases bound
  {
    if p + 1 < bound {
      var top: Priority := bound - 1;
      assert ready[top] == [];
      HighestReadyIs(ready, bound - 1, p);
    }
  }

  /** After a switch the chosen task runs, provided some task is ready. */
  lemma SwitchContextPlaced(s: State)
    requires Placed(s, None) && (s.current.Some? ==> s.tasks[s.current.value].state != Running)
    ensures Placed(SwitchContext(s), None)
  {
    var highest := HighestReady(s.ready, MAX_PRIORITIES);
    if highest.Some? {
      var next := s.ready[highest.value][0];
      assert next in s.ready[highest.value];
      RemoveMembers(s.ready[highest.value], next);
    }
  }

  lemma MakeReadyPlaced(s: State, t: nat, result: bool)
    requires Placed(s, Some(t)) && t < |s.tasks| && s.tasks[t].state == Blocked
    ensures Placed(MakeReady(s, t, result), None)
  {
    AppendMembers(s.ready[s.tasks[t].priority], t);
  }

  lemma EventListRemovePlaced(s: State, t: nat)
    requires InBounds(s) && t < |s.tasks| && s.tasks[t].eventList.Some?
    requires ReadyPlaced(s.tasks, s.ready) && EventPlaced(s.tasks, s.waiters, None) && RunningPlaced(s.tasks, s.current)
    ensures var r := EventListRemove(s, t);
      ReadyPlaced(r.tasks, r.ready) && EventPlaced(r.tasks, r.waiters, Some(t)) && RunningPlaced(r.tasks, r.current)
  {
    RemoveMembers(s.waiters[s.tasks[t].eventList.value], t);
  }

  /** The switch to the head of the highest ready list that is not empty. */
  lemma SwitchTo(s: State, p: Priority, next: nat, rest: seq<nat>)
    requires InBounds(s) && s.ready[p] == [next] + rest && forall q: Priority :: p < q ==> s.ready[q] == []
    ensures next < |s.tasks|
    ensures SwitchContext(s) == s.(tasks := s.tasks[next := s.tasks[next].(state := Running)],
                                   ready := s.ready[p := rest], current := Some(next))
  {
    HighestReadyIs(s.ready, 8, p);
    RemoveHead(s.ready[p]);
    assert s.ready[p][1..] == rest && s.ready[p][0] == next;
  }

  /** A switch away from a running task that stays ready. */
  lemma YieldTo(s: State, p: Priority, next: nat, rest: seq<nat>)
    requires InBounds(s) && s.current.Some? && s.tasks[s.current.value].priority <= p
    requires [next] + rest == s.ready[p] + (if s.tasks[s.current.value].priority == p then [s.current.value] else [])
    requires forall q: Priority :: p < q ==> s.ready[q] == []
    ensures next < |s.tasks|
    ensures var c := s.current.value; var own := s.tasks[c].priority; var tasks := s.tasks[c := s.tasks[c].(state := Ready)];
      YieldCurrent(s) == s.(tasks := tasks[next := tasks[next].(state := Running)],
                            ready := s.ready[own := s.ready[own] + [c]][p := rest], current := Some(next))
  {
    hide SwitchContext;
    var c := s.current.value;
    SwitchTo(ReadyListInsert(WithTask(s, c, s.tasks[c].(state := Ready)), c), p, next, rest);
  }
}
