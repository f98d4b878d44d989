/** The invariant that holds in the middle of a step too, while one task (`limbo`) may
    be on its way from a wait to its ready list. */
module CoreInvariant {
  import opened Ticks
  import opened Lists
  import opened KernelState
  import opened TaskModel
  import opened QueueRing
  import opened QueueModel
  import opened Placement
  import opened Order

  /** The wait list that a suspended call queues in. */
  function CallList(call: Call): Option<ListId> {
    match call
    case InSend(o, _, _) => Some(ListId(o, SendSide))
    case InReceive(o, _) => Some(ListId(o, ReceiveSide))
    case InTake(o, _) => Some(ListId(o, ReceiveSide))
    case _ => None
  }

  function CallReason(call: Call, objects: seq<Object>): WaitReason
    requires CallList(call).Some? ==> call.obj < |objects|
  {
    match call
    case InSend(_, _, _) => WaitQueueSend
    case InReceive(_, _) => WaitQueueReceive
    case InTake(o, _) => if objects[o].kind == Mutex then WaitMutexTake else WaitSemaphoreTake
    case _ => WaitNone
  }

  /** A control block agrees with the call its task is suspended in, and the absolute
      deadline it was last parked with is the one the caller asked for. */
  ghost predicate TcbSane(t: Tcb, objects: seq<Object>, now: nat) {
    && CallShape(t.call, objects)
    && t.waitReason == CallReason(t.call, objects)
    && (t.eventList.Some? ==> t.eventList == CallList(t.call))
    && (t.state == Blocked ==> !t.call.NoCall? && !t.waitResult)
    && (t.state == Deleted ==> t.call.NoCall?)
    && (t.waitResult ==> CallList(t.call).Some?)
    && (CallList(t.call).Some? ==>
          && t.waitObject == Some(t.call.obj) && t.waitHasTimeout
          && t.deadline == t.call.due && t.wakeTick == Wrap(t.deadline)
          && t.deadline < now + INT32_MAX)
    && t.priority == Max(t.basePriority, t.inheritedPriority)
  }

  ghost predicate AllSane(tasks: seq<Tcb>, objects: seq<Object>, now: nat) {
    forall t {:trigger tasks[t]} :: 0 <= t < |tasks| ==> TcbSane(tasks[t], objects, now)
  }

  ghost predicate ObjectsSane(objects: seq<Object>, registry: seq<nat>) {
    && (forall o {:trigger objects[o]} :: 0 <= o < |objects| ==> ObjectShape(objects[o]))
    && (forall i :: 0 <= i < |registry| ==> registry[i] < |objects| && objects[registry[i]].kind == Mutex)
    && (forall o: nat {:trigger objects[o]} :: o < |objects| && objects[o].kind == Mutex ==> o in registry)
  }

  /** The idle task makes no calls and is always ready or running. */
  ghost predicate IdleReady(tasks: seq<Tcb>, idle: nat) {
    idle < |tasks| && tasks[idle].call.NoCall? && (tasks[idle].state == Ready || tasks[idle].state == Running)
  }

  /** Nobody waits for a mutex of its own. */
  ghost predicate NoSelfWait(tasks: seq<Tcb>, objects: seq<Object>) {
    forall t {:trigger tasks[t]} :: 0 <= t < |tasks| && tasks[t].call.InTake? && tasks[t].call.obj < |objects| ==>
      objects[tasks[t].call.obj].owner != Some(t)
  }

  ghost predicate Core(s: State, limbo: Option<nat>) {
    && Placed(s, limbo)
    && AllSane(s.tasks, s.objects, s.now)
    && ObjectsSane(s.objects, s.registry)
    && IdleReady(s.tasks, s.idle)
    && NoSelfWait(s.tasks, s.objects)
    && WaitersOrdered(s.tasks, s.waiters, s.stamps)
    && DelayOrdered(s.tasks, s.delayed, s.now, s.stamps)
    && s.tick == Wrap(s.now)
  }

  lemma CoreOperable(s: State, limbo: Option<nat>)
    requires Core(s, limbo)
    ensures Operable(s)
  {
    PlacedLinked(s, limbo);
    forall t | 0 <= t < |s.tasks| ensures CallShape(s.tasks[t].call, s.objects) {
      assert TcbSane(s.tasks[t], s.objects, s.now);
    }
  }

  /** A change to a control block that no list and no clock depends on. */
  lemma TouchCore(s: State, t: nat, tcb: Tcb, limbo: Option<nat>)
    requires Core(s, limbo) && t < |s.tasks| && TcbInBounds(tcb, |s.objects|) && TcbSane(tcb, s.objects, s.now)
    requires tcb.state == s.tasks[t].state && tcb.priority == s.tasks[t].priority
    requires tcb.eventList == s.tasks[t].eventList
    requires tcb.stamp == s.tasks[t].stamp && tcb.delayStamp == s.tasks[t].delayStamp
    requires tcb.deadline == s.tasks[t].deadline && (tcb.call == s.tasks[t].call || tcb.call.NoCall?)
    requires tcb.wakeTick == s.tasks[t].wakeTick || t !in s.delayed
    requires t == s.idle ==> tcb.call.NoCall?
    ensures Core(WithTask(s, t, tcb), limbo)
  {
    TouchPlaced(s, t, tcb, limbo);
    UpdateWaitersOrdered(s.tasks, s.waiters, s.stamps, t, tcb, s.stamps);
    UpdateDelayOrdered(s.tasks, s.delayed, s.now, s.stamps, t, tcb, s.stamps);
  }

  lemma InsertWaiterOrdered(
    tasks: seq<Tcb>, waiters: map<ListId, seq<nat>>, stamps: nat, l: ListId, t: nat, k: nat, tcb: Tcb, more: nat)
    requires WaitersOrdered(tasks, waiters, stamps) && t < |tasks| && l in waiters && k <= |waiters[l]|
    requires forall m :: m in waiters ==> t !in waiters[m]
    requires stamps <= tcb.stamp < more
    requires forall i :: 0 <= i < k ==> waiters[l][i] < |tasks| && tasks[t := tcb][waiters[l][i]].priority >= tcb.priority
    requires k < |waiters[l]| ==> waiters[l][k] < |tasks| && tasks[t := tcb][waiters[l][k]].priority < tcb.priority
    ensures WaitersOrdered(tasks[t := tcb], waiters[l := InsertAt(waiters[l], k, t)], more)
  {
    UpdateWaitersOrdered(tasks, waiters, stamps, t, tcb, stamps);
    var after := waiters[l := InsertAt(waiters[l], k, t)];
    forall m | m in after ensures WaitOrdered(tasks[t := tcb], after[m], more) {
      assert WaitOrdered(tasks[t := tcb], waiters[m], stamps);
      if m == l {
        InsertWaitOrdered(tasks[t := tcb], waiters[l], stamps, t, k, more);
      }
    }
  }

  lemma RequeueWaiterOrdered(
    tasks: seq<Tcb>, waiters: map<ListId, seq<nat>>, stamps: nat, l: ListId, t: nat, k: nat, tcb: Tcb, limbo: Option<nat>)
    requires WaitersOrdered(tasks, waiters, stamps) && EventPlaced(tasks, waiters, limbo)
    requires t < |tasks| && l in waiters && tasks[t].eventList == Some(l)
    requires k <= |Remove(waiters[l], t)| && tcb.stamp == stamps
    requires forall i :: 0 <= i < k ==>
      Remove(waiters[l], t)[i] < |tasks| && tasks[t := tcb][Remove(waiters[l], t)[i]].priority >= tcb.priority
    requires k < |Remove(waiters[l], t)| ==>
      Remove(waiters[l], t)[k] < |tasks| && tasks[t := tcb][Remove(waiters[l], t)[k]].priority < tcb.priority
    ensures WaitersOrdered(tasks[t := tcb], waiters[l := InsertAt(Remove(waiters[l], t), k, t)], stamps + 1)
  {
    var q := Remove(waiters[l], t);
    var without := waiters[l := q];
    RemoveMembers(waiters[l], t);
    forall m | m in without ensures t !in without[m] && WaitOrdered(tasks, without[m], stamps) {
      assert WaitOrdered(tasks, waiters[m], stamps);
      RemoveWaitOrdered(tasks, waiters[l], stamps, t);
    }
    InsertWaiterOrdered(tasks, without, stamps, l, t, k, tcb, stamps + 1);
    assert without[l := InsertAt(q, k, t)] == waiters[l := InsertAt(q, k, t)];
  }

  /** Re-sorting keeps the wait lists ordered. */
  lemma SetEffectivePriorityOrdered(s: State, t: nat, p: Priority, limbo: Option<nat>)
    requires InBounds(s) && t < |s.tasks| && EventPlaced(s.tasks, s.waiters, limbo)
    requires WaitersOrdered(s.tasks, s.waiters, s.stamps)
    ensures var r := SetEffectivePriority(s, t, p); WaitersOrdered(r.tasks, r.waiters, r.stamps)
  {
    var tcb := s.tasks[t];
    var r := SetEffectivePriority(s, t, p);
    if tcb.priority != p && tcb.state == Blocked && tcb.eventList.Some? {
      var k := ResortEffect(s, t, p);
      RequeueWaiterOrdered(
        s.tasks, s.waiters, s.stamps, tcb.eventList.value, t, k, tcb.(priority := p, stamp := s.stamps), limbo);
    } else {
      SetEffectivePriorityEffect(s, t, p);
      if tcb.priority != p {
        forall l | l in s.waiters ensures t !in s.waiters[l] {}
        UpdateWaitersOrdered(s.tasks, s.waiters, s.stamps, t, r.tasks[t], r.stamps);
      }
    }
  }

  /** A new base or inherited priority, followed by the move to its effective value. */
  lemma AdjustCore(s: State, t: nat, base: Priority, inherited: Priority, limbo: Option<nat>)
    requires Core(s, limbo) && t < |s.tasks|
    ensures var tcb := s.tasks[t].(basePriority := base, inheritedPriority := inherited);
      Core(SetEffectivePriority(WithTask(s, t, tcb), t, Max(base, inherited)), limbo)
  {
    var tcb := s.tasks[t].(basePriority := base, inheritedPriority := inherited);
    var mid := WithTask(s, t, tcb);
    var p := Max(base, inherited);
    TouchPlaced(s, t, tcb, limbo);
    UpdateWaitersOrdered(s.tasks, s.waiters, s.stamps, t, tcb, s.stamps);
    SetEffectivePriorityPlaced(mid, t, p, limbo);
    SetEffectivePriorityOrdered(mid, t, p, limbo);
    SetEffectivePriorityEffect(mid, t, p);
    var r := SetEffectivePriority(mid, t, p);
    assert r.tasks == s.tasks[t := r.tasks[t]];
    UpdateDelayOrdered(s.tasks, s.delayed, s.now, s.stamps, t, r.tasks[t], r.stamps);
  }

  lemma RecomputeCore(s: State, t: nat, limbo: Option<nat>)
    requires Core(s, limbo) && t < |s.tasks|
    ensures Core(RecomputeInheritedPriority(s, t), limbo)
  {
    AdjustCore(s, t, s.tasks[t].basePriority, MaxWaiter(s, s.registry, t, IDLE_PRIORITY), limbo);
  }

  lemma PrioritySetCore(s: State, t: nat, p: Priority)
    requires Core(s, None) && t < |s.tasks|
    ensures Core(PrioritySet(s, t, p), None)
  {
    AdjustCore(s, t, p, s.tasks[t].inheritedPriority, None);
  }

  lemma UnlinkOrdered(tasks: seq<Tcb>, waiters: map<ListId, seq<nat>>, stamps: nat, t: nat, l: ListId)
    requires WaitersOrdered(tasks, waiters, stamps) && t < |tasks| && l in waiters
    ensures WaitersOrdered(tasks[t := tasks[t].(eventList := None)], waiters[l := Remove(waiters[l], t)], stamps)
  {
    var without := waiters[l := Remove(waiters[l], t)];
    RemoveWaitOrdered(tasks, waiters[l], stamps, t);
    forall m | m in without ensures WaitOrdered(tasks, without[m], stamps) {
      assert WaitOrdered(tasks, waiters[m], stamps);
    }
    hide WaitOrdered;
    UpdateWaitersOrdered(tasks, without, stamps, t, tasks[t].(eventList := None), stamps);
  }

  lemma UnlinkCore(s: State, t: nat)
    requires Core(s, None) && t < |s.tasks| && s.tasks[t].state == Blocked
    ensures var undelayed := DelayListRemove(s, t);
      Core(if s.tasks[t].eventList.Some? then EventListRemove(undelayed, t) else undelayed, Some(t))
  {
    UnlinkPlaced(s, t);
    RemoveDelayOrdered(s.tasks, s.delayed, s.now, s.stamps, t);
    RemoveMembers(s.delayed, t);
    if s.tasks[t].eventList.Some? {
      UnlinkOrdered(s.tasks, s.waiters, s.stamps, t, s.tasks[t].eventList.value);
      UpdateDelayOrdered(s.tasks, Remove(s.delayed, t), s.now, s.stamps, t, s.tasks[t].(eventList := None), s.stamps);
    }
  }

  lemma MakeReadyCore(s: State, t: nat, result: bool)
    requires Core(s, Some(t)) && t < |s.tasks| && s.tasks[t].state == Blocked
    requires result ==> CallList(s.tasks[t].call).Some?
    ensures Core(MakeReady(s, t, result), None)
  {
    MakeReadyPlaced(s, t, result);
    var tcb := s.tasks[t].(waitResult := result, state := Ready);
    UpdateWaitersOrdered(s.tasks, s.waiters, s.stamps, t, tcb, s.stamps);
    UpdateDelayOrdered(s.tasks, s.delayed, s.now, s.stamps, t, tcb, s.stamps);
  }

  lemma WaitEndedCore(s: State, t: nat, limbo: Option<nat>)
    requires Core(s, limbo) && t < |s.tasks|
    ensures Core(WaitEnded(s, t), limbo)
  {
    var tcb := s.tasks[t];
    if tcb.waitReason == WaitMutexTake && tcb.waitObject.Some? {
      var mutex := s.objects[tcb.waitObject.value];
      if mutex.kind == Mutex && mutex.owner.Some? {
        RecomputeCore(s, mutex.owner.value, limbo);
      }
    }
  }

  lemma EndWaitCore(s: State, t: nat)
    requires Core(s, None) && t < |s.tasks| && s.tasks[t].state == Blocked
    ensures Core(EndWait(s, t), None)
  {
    UnlinkCore(s, t);
    var undelayed := DelayListRemove(s, t);
    if s.tasks[t].eventList.Some? {
      var unlinked := EventListRemove(undelayed, t);
      WaitEndedCore(unlinked, t, Some(t));
      WaitEndedPlaced(unlinked, t, Some(t));
      MakeReadyCore(WaitEnded(unlinked, t), t, false);
    } else {
      MakeReadyCore(undelayed, t, false);
    }
  }

  lemma {:induction false} WakeExpiredCore(s: State)
    requires Core(s, None)
    ensures Core(WakeExpired(s), None)
    decreases |s.delayed|
  {
    if s.delayed != [] && TickReached(s.tick, s.tasks[s.delayed[0]].wakeTick) {
      assert s.delayed[0] in s.delayed;
      EndWaitCore(s, s.delayed[0]);
      WakeExpiredCore(EndWait(s, s.delayed[0]));
    }
  }

  /** The woken head: in no list, then at the back of its ready list. */
  lemma UnblockOneEffect(s: State, l: ListId)
    requires Core(s, None) && l in s.waiters && s.waiters[l] != []
    ensures Linked(s.tasks, s.waiters)
    ensures var t := s.waiters[l][0]; var unlinked := EventListRemove(DelayListRemove(s, t), t);
      && t in s.waiters[l] && t < |s.tasks| && s.tasks[t].state == Blocked && s.tasks[t].eventList == Some(l)
      && UnblockOne(s, l).0 == MakeReady(unlinked, t, true)
  {
    PlacedLinked(s, None);
    var t := s.waiters[l][0];
    assert t in s.waiters[l];
    assert t in s.delayed;
    assert DelayListRemove(EventListRemove(s, t), t) == EventListRemove(DelayListRemove(s, t), t);
  }

  lemma UnblockOneCore(s: State, l: ListId)
    requires Core(s, None) && l in s.waiters
    ensures Linked(s.tasks, s.waiters)
    ensures Core(UnblockOne(s, l).0, None)
  {
    PlacedLinked(s, None);
    if s.waiters[l] != [] {
      UnblockOneEffect(s, l);
      var t := s.waiters[l][0];
      UnlinkCore(s, t);
      assert TcbSane(s.tasks[t], s.objects, s.now);
      MakeReadyCore(EventListRemove(DelayListRemove(s, t), t), t, true);
    }
  }

  lemma ParkedSane(s: State, t: nat, l: ListId, reason: WaitReason, call: Call, ticks: nat)
    requires Core(s, None) && t < |s.tasks|
    requires CallShape(call, s.objects) && CallList(call) == Some(l) && reason == CallReason(call, s.objects)
    requires ticks < INT32_MAX && call.due == s.now + ticks
    ensures var tcb := ParkedTcb(s, t, l, reason, call, ticks);
      TcbSane(tcb, s.objects, s.now) && tcb.wakeTick == Wrap(tcb.deadline)
  {
    assert TcbSane(s.tasks[t], s.objects, s.now);
    WrapAdd(s.now, ticks);
  }

  lemma ParkOrdered(s: State, t: nat, l: ListId, k: nat, d: nat, tcb: Tcb)
    requires Core(s, None) && t < |s.tasks| && l in s.waiters && s.tasks[t].state == Running
    requires tcb.stamp == s.stamps && tcb.delayStamp == s.stamps + 1
    requires tcb.wakeTick == Wrap(tcb.deadline) && s.now <= tcb.deadline < s.now + HALF_RANGE
    requires var tasks := s.tasks[t := tcb];
      && k <= |s.waiters[l]| && d <= |s.delayed|
      && (forall i :: 0 <= i < k ==> tasks[s.waiters[l][i]].priority >= tcb.priority)
      && (k < |s.waiters[l]| ==> tasks[s.waiters[l][k]].priority < tcb.priority)
      && (forall i :: 0 <= i < d ==> !TickBefore(tcb.wakeTick, tasks[s.delayed[i]].wakeTick))
      && (d < |s.delayed| ==> TickBefore(tcb.wakeTick, tasks[s.delayed[d]].wakeTick))
    ensures WaitersOrdered(s.tasks[t := tcb], s.waiters[l := InsertAt(s.waiters[l], k, t)], s.stamps + 2)
    ensures DelayOrdered(s.tasks[t := tcb], InsertAt(s.delayed, d, t), s.now, s.stamps + 2)
  {
    forall m | m in s.waiters ensures t !in s.waiters[m] {}
    InsertWaiterOrdered(s.tasks, s.waiters, s.stamps, l, t, k, tcb, s.stamps + 2);
    UpdateDelayOrdered(s.tasks, s.delayed, s.now, s.stamps, t, tcb, s.stamps);
    InsertDelayOrdered(s.tasks[t := tcb], s.delayed, s.now, s.stamps, t, d, s.stamps + 2);
  }

  ghost predicate MayBlock(s: State, t: nat, l: ListId, reason: WaitReason, call: Call, ticks: nat) {
    && Core(s, None) && t < |s.tasks| && t != s.idle && l in s.waiters && s.tasks[t].state == Running
    && CallShape(call, s.objects) && CallList(call) == Some(l) && reason == CallReason(call, s.objects)
    && ticks < INT32_MAX && call.due == s.now + ticks
    && (call.InTake? ==> s.objects[call.obj].owner != Some(t))
  }

  lemma BlockOnOrdered(s: State, t: nat, l: ListId, reason: WaitReason, call: Call, ticks: nat)
    requires MayBlock(s, t, l, reason, call, ticks)
    ensures var r := BlockOn(s, t, l, reason, call, ticks);
      WaitersOrdered(r.tasks, r.waiters, r.stamps) && DelayOrdered(r.tasks, r.delayed, r.now, r.stamps)
  {
    var k, d := BlockOnEffect(s, t, l, reason, call, ticks);
    ParkedSane(s, t, l, reason, call, ticks);
    ParkOrdered(s, t, l, k, d, ParkedTcb(s, t, l, reason, call, ticks));
  }

  lemma BlockOnSane(s: State, t: nat, l: ListId, reason: WaitReason, call: Call, ticks: nat)
    requires MayBlock(s, t, l, reason, call, ticks)
    ensures var r := BlockOn(s, t, l, reason, call, ticks);
      AllSane(r.tasks, r.objects, r.now) && IdleReady(r.tasks, r.idle)
  {
    var k, d := BlockOnEffect(s, t, l, reason, call, ticks);
    ParkedSane(s, t, l, reason, call, ticks);
  }

  lemma BlockOnNoSelfWait(s: State, t: nat, l: ListId, reason: WaitReason, call: Call, ticks: nat)
    requires MayBlock(s, t, l, reason, call, ticks)
    ensures var r := BlockOn(s, t, l, reason, call, ticks); NoSelfWait(r.tasks, r.objects)
  {
    var k, d := BlockOnEffect(s, t, l, reason, call, ticks);
  }

  lemma BlockOnCore(s: State, t: nat, l: ListId, reason: WaitReason, call: Call, ticks: nat)
    requires MayBlock(s, t, l, reason, call, ticks)
    ensures Core(BlockOn(s, t, l, reason, call, ticks), None)
  {
    BlockOnPlaced(s, t, l, reason, call, ticks);
    BlockOnOrdered(s, t, l, reason, call, ticks);
    BlockOnSane(s, t, l, reason, call, ticks);
    BlockOnNoSelfWait(s, t, l, reason, call, ticks);
    var k, d := BlockOnEffect(s, t, l, reason, call, ticks);
  }

  /** Switching leaves a running task: the idle task at least is ready. */
  lemma SwitchContextCore(s: State)
    requires Core(s, None) && (s.current.Some? ==> s.tasks[s.current.value].state != Running)
    ensures var r := SwitchContext(s);
      && Core(r, None) && r.current.Some? && r.tasks[r.current.value].state == Running
      && s.tasks[r.current.value].state == Ready
      && r.tasks == s.tasks[r.current.value := s.tasks[r.current.value].(state := Running)]
  {
    SwitchContextPlaced(s);
    assert s.idle in s.ready[s.tasks[s.idle].priority];
    var p := HighestReady(s.ready, MAX_PRIORITIES).value;
    var next := s.ready[p][0];
    assert next in s.ready[p];
    var tcb := s.tasks[next].(state := Running);
    UpdateWaitersOrdered(s.tasks, s.waiters, s.stamps, next, tcb, s.stamps);
    UpdateDelayOrdered(s.tasks, s.delayed, s.now, s.stamps, next, tcb, s.stamps);
    assert TcbSane(s.tasks[next], s.objects, s.now);
  }
}
