/** Every step keeps the kernel invariant. */
module Steps {
  import opened Ticks
  import opened Lists
  import opened KernelState
  import opened TaskModel
  import opened QueueRing
  import opened QueueModel
  import opened Kernel
  import opened Placement
  import opened Order
  import opened CoreInvariant

  /** Between two steps no deadline has been reached. */
  ghost predicate NoneDue(tasks: seq<Tcb>, delayed: seq<nat>, now: nat) {
    forall t: nat {:trigger t in delayed} :: t in delayed ==> t < |tasks| && now < tasks[t].deadline
  }

  /** The invariant of every reachable state. */
  ghost predicate KernelInv(s: State) {
    Core(s, None) && CurrentRuns(s) && NoneDue(s.tasks, s.delayed, s.now)
  }

  /** What waking and re-prioritising leave alone. */
  ghost predicate Quiet(s: State, r: State) {
    && |r.tasks| == |s.tasks|
    && r == s.(tasks := r.tasks, ready := r.ready, delayed := r.delayed, waiters := r.waiters, stamps := r.stamps)
    && (forall t: nat {:trigger t in r.delayed} :: t in r.delayed ==> t in s.delayed)
    && (forall t: nat {:trigger r.tasks[t]} :: t < |s.tasks| ==>
          && r.tasks[t].deadline == s.tasks[t].deadline && r.tasks[t].call == s.tasks[t].call
          && (r.tasks[t].eventList.Some? ==> r.tasks[t].eventList == s.tasks[t].eventList)
          && (s.tasks[t].state != Blocked ==>
                r.tasks[t].state == s.tasks[t].state && r.tasks[t].waitResult == s.tasks[t].waitResult))
  }

  lemma QuietTransitive(s: State, m: State, r: State)
    requires Quiet(s, m) && Quiet(m, r)
    ensures Quiet(s, r)
  {
    forall t: nat | t < |s.tasks|
      ensures r.tasks[t].deadline == s.tasks[t].deadline && r.tasks[t].call == s.tasks[t].call
    {
      assert m.tasks[t].deadline == s.tasks[t].deadline;
    }
  }

  lemma RecomputeQuiet(s: State, t: nat)
    requires InBounds(s) && t < |s.tasks|
    ensures Quiet(s, RecomputeInheritedPriority(s, t))
  {
    var p := MaxWaiter(s, s.registry, t, IDLE_PRIORITY);
    var tcb := s.tasks[t].(inheritedPriority := p);
    SetEffectivePriorityEffect(WithTask(s, t, tcb), t, Max(tcb.basePriority, p));
  }

  lemma WaitEndedQuiet(s: State, t: nat)
    requires InBounds(s) && t < |s.tasks|
    ensures Quiet(s, WaitEnded(s, t))
  {
    var tcb := s.tasks[t];
    if tcb.waitReason == WaitMutexTake && tcb.waitObject.Some? {
      var mutex := s.objects[tcb.waitObject.value];
      if mutex.kind == Mutex && mutex.owner.Some? {
        RecomputeQuiet(s, mutex.owner.value);
      }
    }
  }

  lemma MakeReadyQuiet(s: State, t: nat, result: bool)
    requires InBounds(s) && t < |s.tasks| && s.tasks[t].state == Blocked
    ensures Quiet(s, MakeReady(s, t, result))
  {
  }

  lemma EndWaitQuiet(s: State, t: nat)
    requires Placed(s, None) && t < |s.tasks| && s.tasks[t].state == Blocked
    ensures Quiet(s, EndWait(s, t))
  {
    var undelayed := DelayListRemove(s, t);
    RemoveMembers(s.delayed, t);
    if s.tasks[t].eventList.Some? {
      var unlinked := EventListRemove(undelayed, t);
      UnlinkPlaced(s, t);
      WaitEndedPlaced(unlinked, t, Some(t));
      WaitEndedQuiet(unlinked, t);
      MakeReadyQuiet(WaitEnded(unlinked, t), t, false);
      QuietTransitive(unlinked, WaitEnded(unlinked, t), EndWait(s, t));
      assert Quiet(s, unlinked);
      QuietTransitive(s, unlinked, EndWait(s, t));
    } else {
      MakeReadyQuiet(undelayed, t, false);
    }
  }

  lemma UnblockOneQuiet(s: State, l: ListId)
    requires Core(s, None) && l in s.waiters
    ensures Linked(s.tasks, s.waiters)
    ensures Quiet(s, UnblockOne(s, l).0)
  {
    PlacedLinked(s, None);
    if s.waiters[l] != [] {
      UnblockOneEffect(s, l);
      RemoveMembers(s.delayed, s.waiters[l][0]);
    }
  }

  lemma QuietInv(s: State, r: State)
    requires Quiet(s, r) && Core(r, None) && CurrentRuns(s) && NoneDue(s.tasks, s.delayed, s.now)
    ensures KernelInv(r)
  {
    forall t: nat | t in r.delayed ensures t < |r.tasks| && r.now < r.tasks[t].deadline {
      assert t in s.delayed;
      assert r.tasks[t].deadline == s.tasks[t].deadline;
    }
    assert r.tasks[s.current.value].state == Running;
  }

  lemma SwitchInv(s: State)
    requires Core(s, None) && s.current.Some? && s.tasks[s.current.value].state != Running
    requires NoneDue(s.tasks, s.delayed, s.now)
    ensures KernelInv(SwitchContext(s))
  {
    SwitchContextCore(s);
  }

  lemma PreemptCore(s: State)
    requires Core(s, None) && CurrentRuns(s)
    ensures var t := s.current.value; var tcb := s.tasks[t].(state := Ready);
      Core(ReadyListInsert(WithTask(s, t, tcb), t), None)
  {
    var t := s.current.value;
    var tcb := s.tasks[t].(state := Ready);
    assert TcbSane(s.tasks[t], s.objects, s.now);
    AppendMembers(s.ready[tcb.priority], t);
    UpdateWaitersOrdered(s.tasks, s.waiters, s.stamps, t, tcb, s.stamps);
    UpdateDelayOrdered(s.tasks, s.delayed, s.now, s.stamps, t, tcb, s.stamps);
  }

  lemma YieldInv(s: State)
    requires KernelInv(s)
    ensures KernelInv(YieldCurrent(s))
  {
    PreemptCore(s);
    var t := s.current.value;
    var tcb := s.tasks[t].(state := Ready);
    SwitchInv(ReadyListInsert(WithTask(s, t, tcb), t));
  }

  /** Replacing an object by one of the same kind and dimensions. */
  lemma ObjectInv(s: State, o: nat, obj: Object)
    requires KernelInv(s) && o < |s.objects| && ObjectShape(obj)
    requires obj.kind == s.objects[o].kind && obj.itemSize == s.objects[o].itemSize
    requires obj.owner.Some? ==> obj.owner.value < |s.tasks|
    requires obj.owner.Some? && obj.owner != s.objects[o].owner ==> s.tasks[obj.owner.value].call.NoCall?
    ensures KernelInv(s.(objects := s.objects[o := obj]))
  {
    forall t | 0 <= t < |s.tasks| ensures TcbSane(s.tasks[t], s.objects[o := obj], s.now) {
      assert TcbSane(s.tasks[t], s.objects, s.now);
    }
  }

  /** The calling task enters a critical section of a call that ends at `due`. */
  ghost predicate Attempting(s: State, ticks: nat, due: nat) {
    && KernelInv(s)
    && s.current.value != s.idle && s.tasks[s.current.value].call.NoCall?
    && ticks < INT32_MAX && (ticks > 0 ==> due == s.now + ticks)
  }

  lemma WakeInv(s: State, l: ListId)
    requires KernelInv(s) && l in s.waiters
    ensures Linked(s.tasks, s.waiters)
    ensures KernelInv(UnblockOne(s, l).0) && KernelInv(UnblockAndSwitch(s, l))
  {
    hide YieldCurrent;
    UnblockOneCore(s, l);
    UnblockOneQuiet(s, l);
    var woken := UnblockOne(s, l).0;
    QuietInv(s, woken);
    YieldInv(woken);
  }

  /** The object is updated and the head of one wait list is woken. */
  lemma ObjectWakeInv(s: State, o: nat, obj: Object, l: ListId)
    requires KernelInv(s) && o < |s.objects| && ObjectShape(obj) && l in s.waiters
    requires obj.kind == s.objects[o].kind && obj.itemSize == s.objects[o].itemSize
    requires obj.owner.Some? ==> obj.owner.value < |s.tasks|
    requires obj.owner.Some? && obj.owner != s.objects[o].owner ==> s.tasks[obj.owner.value].call.NoCall?
    ensures var r := s.(objects := s.objects[o := obj]);
      && KernelInv(r) && Linked(r.tasks, r.waiters)
      && KernelInv(UnblockOne(r, l).0) && KernelInv(UnblockAndSwitch(r, l))
  {
    ObjectInv(s, o, obj);
    WakeInv(s.(objects := s.objects[o := obj]), l);
  }

  lemma ParkNoneDue(tasks: seq<Tcb>, delayed: seq<nat>, now: nat, t: nat, tcb: Tcb, d: nat)
    requires NoneDue(tasks, delayed, now) && t < |tasks| && now < tcb.deadline && d <= |delayed|
    ensures NoneDue(tasks[t := tcb], InsertAt(delayed, d, t), now)
  {
    InsertAtMembers(delayed, d, t);
  }

  lemma BlockInv(s: State, l: ListId, reason: WaitReason, call: Call, ticks: nat)
    requires KernelInv(s) && MayBlock(s, s.current.value, l, reason, call, ticks) && ticks > 0
    ensures var r := BlockOn(s, s.current.value, l, reason, call, ticks);
      Core(r, None) && r.current == s.current && r.tasks[s.current.value].state == Blocked
      && NoneDue(r.tasks, r.delayed, r.now) && KernelInv(SwitchContext(r))
  {
    hide SwitchContext;
    BlockOnCore(s, s.current.value, l, reason, call, ticks);
    hide Core, BlockOn, NoneDue;
    var k, d := BlockOnEffect(s, s.current.value, l, reason, call, ticks);
    var tcb := ParkedTcb(s, s.current.value, l, reason, call, ticks);
    ParkNoneDue(s.tasks, s.delayed, s.now, s.current.value, tcb, d);
    SwitchInv(BlockOn(s, s.current.value, l, reason, call, ticks));
  }

  lemma SendInv(s: State, o: nat, item: seq<Byte>, ticks: nat, due: nat)
    requires Attempting(s, ticks, due) && o < |s.objects| && s.objects[o].kind == QueueData
    requires |item| == s.objects[o].itemSize
    ensures Operable(s) && KernelInv(SendAttempt(s, o, item, ticks, due).0)
  {
    hide UnblockAndSwitch, BlockOn, SwitchContext;
    CoreOperable(s, None);
    assert ObjectShape(s.objects[o]);
    if s.objects[o].count < s.objects[o].length {
      ObjectWakeInv(s, o, CopyIn(s.objects[o], item), ListId(o, ReceiveSide));
    } else if ticks > 0 {
      BlockInv(s, ListId(o, SendSide), WaitQueueSend, InSend(o, item, due), ticks);
    }
  }

  lemma ReceiveInv(s: State, o: nat, ticks: nat, due: nat)
    requires Attempting(s, ticks, due) && o < |s.objects| && s.objects[o].kind == QueueData
    ensures Operable(s) && KernelInv(ReceiveAttempt(s, o, ticks, due).0)
  {
    hide UnblockAndSwitch, BlockOn, SwitchContext;
    CoreOperable(s, None);
    assert ObjectShape(s.objects[o]);
    if s.objects[o].count > 0 {
      ObjectWakeInv(s, o, CopyOut(s.objects[o]), ListId(o, SendSide));
    } else if ticks > 0 {
      BlockInv(s, ListId(o, ReceiveSide), WaitQueueReceive, InReceive(o, due), ticks);
    }
  }

  lemma TakeInv(s: State, o: nat, ticks: nat, due: nat)
    requires Attempting(s, ticks, due) && o < |s.objects| && s.objects[o].kind != QueueData
    ensures Operable(s) && KernelInv(TakeAttempt(s, o, ticks, due).0)
  {
    hide BlockOn, RecomputeInheritedPriority, SwitchContext;
    CoreOperable(s, None);
    var t := s.current.value;
    var semaphore := s.objects[o];
    assert ObjectShape(semaphore);
    if semaphore.kind == Mutex && semaphore.owner == Some(t) {
    } else if semaphore.count > 0 {
      ObjectInv(s, o, TokenTaken(semaphore, t));
    } else if ticks > 0 {
      var call := InTake(o, due);
      var reason := CallReason(call, s.objects);
      BlockInv(s, ListId(o, ReceiveSide), reason, call, ticks);
      var blocked := BlockOn(s, t, ListId(o, ReceiveSide), reason, call, ticks);
      if semaphore.kind == Mutex && semaphore.owner.Some? {
        RecomputeSwitchInv(blocked, semaphore.owner.value);
      }
    }
  }

  lemma RecomputeSwitchInv(s: State, owner: nat)
    requires Core(s, None) && s.current.Some? && s.tasks[s.current.value].state == Blocked
    requires NoneDue(s.tasks, s.delayed, s.now) && owner < |s.tasks|
    ensures KernelInv(SwitchContext(RecomputeInheritedPriority(s, owner)))
  {
    RecomputeCore(s, owner, None);
    RecomputeQuiet(s, owner);
    var r := RecomputeInheritedPriority(s, owner);
    var p := MaxWaiter(s, s.registry, owner, IDLE_PRIORITY);
    var tcb := s.tasks[owner].(inheritedPriority := p);
    SetEffectivePriorityEffect(WithTask(s, owner, tcb), owner, Max(tcb.basePriority, p));
    forall t: nat | t in r.delayed ensures t < |r.tasks| && r.now < r.tasks[t].deadline {
      assert r.tasks[t].deadline == s.tasks[t].deadline;
    }
    SwitchInv(r);
  }

  lemma RecomputeInv(s: State, t: nat)
    requires KernelInv(s) && t < |s.tasks|
    ensures var r := RecomputeInheritedPriority(s, t); KernelInv(r) && KernelInv(YieldCurrent(r))
  {
    RecomputeCore(s, t, None);
    RecomputeQuiet(s, t);
    QuietInv(s, RecomputeInheritedPriority(s, t));
    YieldInv(RecomputeInheritedPriority(s, t));
  }

  /** The mutex has been given up and nobody woken yet. */
  function AfterRelease(s: State, o: nat): State
    requires o < |s.objects|
  {
    s.(objects := s.objects[o := Released(s.objects[o])])
  }

  lemma GiveMutexShape(s: State, o: nat)
    requires Operable(s) && CurrentRuns(s) && o < |s.objects|
    requires s.objects[o].kind == Mutex && s.objects[o].owner == s.current
    ensures var released := AfterRelease(s, o);
      && InBounds(released) && Linked(released.tasks, released.waiters)
      && var restored := RecomputeInheritedPriority(UnblockOne(released, ListId(o, ReceiveSide)).0, s.current.value);
      && var q := s.waiters[ListId(o, ReceiveSide)];
      GiveMutex(s, o).0 ==
        if q != [] && restored.tasks[q[0]].priority > restored.tasks[s.current.value].priority
        then YieldCurrent(restored) else restored
  {
  }

  lemma GiveRefused(s: State, o: nat)
    requires Operable(s) && CurrentRuns(s) && o < |s.objects|
    requires s.objects[o].kind == Mutex && s.objects[o].owner != s.current
    ensures GiveMutex(s, o).0 == s
  {
  }

  lemma GiveMutexInv(s: State, o: nat)
    requires KernelInv(s) && o < |s.objects| && s.objects[o].kind == Mutex && Operable(s)
    ensures KernelInv(GiveMutex(s, o).0)
  {
    hide UnblockOne, RecomputeInheritedPriority, YieldCurrent;
    if s.objects[o].owner == Some(s.current.value) {
      var l := ListId(o, ReceiveSide);
      var released := Released(s.objects[o]);
      ObjectWakeInv(s, o, released, l);
      RecomputeInv(UnblockOne(s.(objects := s.objects[o := released]), l).0, s.current.value);
    }
  }

  lemma GiveSemaphoreInv(s: State, o: nat)
    requires KernelInv(s) && o < |s.objects| && s.objects[o].kind != Mutex
    requires s.objects[o].kind != QueueData && Operable(s)
    ensures KernelInv(GiveSemaphore(s, o).0)
  {
    hide UnblockAndSwitch;
    if s.objects[o].count < s.objects[o].maxCount {
      assert ObjectShape(s.objects[o]);
      ObjectWakeInv(s, o, TokenGiven(s.objects[o]), ListId(o, ReceiveSide));
    }
  }

  lemma AbortInv(s: State, t: nat)
    requires KernelInv(s) && t < |s.tasks|
    ensures KernelInv(AbortDelay(s, t).0)
  {
    hide EndWait, YieldCurrent;
    if s.tasks[t].state == Blocked && t in s.delayed {
      EndWaitCore(s, t);
      EndWaitQuiet(s, t);
      QuietInv(s, EndWait(s, t));
      YieldInv(EndWait(s, t));
    }
  }

  /** The clock advances by one tick; deadlines at the new instant are now due. */
  function Advance(s: State): State {
    s.(tick := Wrap(s.tick + 1), now := s.now + 1)
  }

  lemma AdvanceCore(s: State)
    requires KernelInv(s)
    ensures Core(Advance(s), None)
  {
    WrapAdd(s.now, 1);
    forall t | 0 <= t < |s.tasks| ensures TcbSane(s.tasks[t], s.objects, s.now + 1) {
      assert TcbSane(s.tasks[t], s.objects, s.now);
    }
    forall i | 0 <= i < |s.delayed| ensures s.now + 1 <= s.tasks[s.delayed[i]].deadline {
      assert s.delayed[i] in s.delayed;
    }
  }

  /** The head of the delay list decides for the whole list. */
  lemma HeadNotDue(s: State)
    requires Core(s, None)
    requires s.delayed == [] || !TickReached(s.tick, s.tasks[s.delayed[0]].wakeTick)
    ensures NoneDue(s.tasks, s.delayed, s.now)
  {
    forall t: nat | t in s.delayed ensures t < |s.tasks| && s.now < s.tasks[t].deadline {
      var i :| 0 <= i < |s.delayed| && s.delayed[i] == t;
      SignedDifferenceExact(s.now, s.tasks[s.delayed[0]].deadline);
      if i > 0 { assert ExpiresBefore(s.tasks[s.delayed[0]], s.tasks[s.delayed[i]]); }
    }
  }

  lemma {:induction false} WakeExpiredInv(s: State)
    requires Core(s, None)
    ensures var r := WakeExpired(s); Core(r, None) && Quiet(s, r) && NoneDue(r.tasks, r.delayed, r.now)
    decreases |s.delayed|
  {
    if s.delayed != [] && TickReached(s.tick, s.tasks[s.delayed[0]].wakeTick) {
      assert s.delayed[0] in s.delayed;
      var next := EndWait(s, s.delayed[0]);
      EndWaitCore(s, s.delayed[0]);
      EndWaitQuiet(s, s.delayed[0]);
      WakeExpiredInv(next);
      QuietTransitive(s, next, WakeExpired(next));
    } else {
      HeadNotDue(s);
    }
  }

  lemma TickInv(s: State)
    requires KernelInv(s)
    ensures KernelInv(TickISR(s))
  {
    hide WakeExpired, YieldCurrent;
    AdvanceCore(s);
    WakeExpiredInv(Advance(s));
    var woken := WakeExpired(Advance(s));
    assert woken.tasks[s.current.value].state == Running;
    YieldInv(woken);
  }

  lemma PrioritySetQuiet(s: State, t: nat, p: Priority)
    requires InBounds(s) && t < |s.tasks|
    ensures Quiet(s, PrioritySet(s, t, p))
  {
    var tcb := s.tasks[t].(basePriority := p);
    SetEffectivePriorityEffect(WithTask(s, t, tcb), t, Max(p, tcb.inheritedPriority));
  }

  lemma PrioritySetInv(s: State, t: nat, p: Priority)
    requires KernelInv(s) && t < |s.tasks|
    ensures KernelInv(PrioritySet(s, t, p))
  {
    PrioritySetCore(s, t, p);
    PrioritySetQuiet(s, t, p);
    QuietInv(s, PrioritySet(s, t, p));
  }

  lemma ExitCore(s: State)
    requires KernelInv(s) && s.current.value != s.idle && s.tasks[s.current.value].call.NoCall?
    ensures Core(WithTask(s, s.current.value, s.tasks[s.current.value].(state := Deleted)), None)
  {
    var t := s.current.value;
    var tcb := s.tasks[t].(state := Deleted);
    assert TcbSane(s.tasks[t], s.objects, s.now);
    UpdateWaitersOrdered(s.tasks, s.waiters, s.stamps, t, tcb, s.stamps);
    UpdateDelayOrdered(s.tasks, s.delayed, s.now, s.stamps, t, tcb, s.stamps);
  }

  lemma ExitInv(s: State)
    requires KernelInv(s) && s.current.value != s.idle && s.tasks[s.current.value].call.NoCall?
    ensures KernelInv(ExitTask(s))
  {
    ExitCore(s);
    SwitchInv(WithTask(s, s.current.value, s.tasks[s.current.value].(state := Deleted)));
  }

  function DelayedTcb(s: State, t: nat, ticks: nat): Tcb
    requires t < |s.tasks|
  {
    s.tasks[t].(
      wakeTick := Wrap(s.tick + ticks), waitObject := None, waitReason := WaitNone, waitResult := false,
      waitHasTimeout := false, state := Blocked, call := InDelay, deadline := s.now + ticks, delayStamp := s.stamps)
  }

  lemma DelayEffect(s: State, t: nat, ticks: nat) returns (d: nat)
    requires InBounds(s) && t < |s.tasks|
    ensures d <= |s.delayed|
    ensures var tcb := DelayedTcb(s, t, ticks);
      var r := DelayListInsert(WithTask(s, t, tcb.(delayStamp := s.tasks[t].delayStamp)), t);
      && r == s.(tasks := s.tasks[t := tcb], delayed := InsertAt(s.delayed, d, t), stamps := s.stamps + 1)
      && (forall i :: 0 <= i < d ==> !TickBefore(tcb.wakeTick, r.tasks[s.delayed[i]].wakeTick))
      && (d < |s.delayed| ==> TickBefore(tcb.wakeTick, r.tasks[s.delayed[d]].wakeTick))
  {
    var tcb := DelayedTcb(s, t, ticks);
    var parked := WithTask(s, t, tcb.(delayStamp := s.tasks[t].delayStamp));
    d := DelayPosition(parked.tasks, s.delayed, tcb.wakeTick);
    var r := s.tasks[t := tcb];
    assert DelayListInsert(parked, t).tasks == r;
    assert forall x :: 0 <= x < |r| ==> r[x].wakeTick == parked.tasks[x].wakeTick;
  }

  lemma DelayParkCore(s: State, ticks: nat, d: nat)
    requires Attempting(s, ticks, s.now + ticks) && ticks > 0 && d <= |s.delayed|
    requires var tcb := DelayedTcb(s, s.current.value, ticks);
      && (forall i :: 0 <= i < d ==> !TickBefore(tcb.wakeTick, s.tasks[s.current.value := tcb][s.delayed[i]].wakeTick))
      && (d < |s.delayed| ==> TickBefore(tcb.wakeTick, s.tasks[s.current.value := tcb][s.delayed[d]].wakeTick))
    ensures var t := s.current.value;
      Core(s.(tasks := s.tasks[t := DelayedTcb(s, t, ticks)], delayed := InsertAt(s.delayed, d, t), stamps := s.stamps + 1), None)
  {
    var t := s.current.value;
    var tcb := DelayedTcb(s, t, ticks);
    WrapAdd(s.now, ticks);
    ParkReady(s.tasks, s.ready, s.current, t, tcb);
    ParkDelayed(s.tasks, s.delayed, t, tcb, d);
    UpdateWaitersOrdered(s.tasks, s.waiters, s.stamps, t, tcb, s.stamps + 1);
    UpdateDelayOrdered(s.tasks, s.delayed, s.now, s.stamps, t, tcb, s.stamps);
    InsertDelayOrdered(s.tasks[t := tcb], s.delayed, s.now, s.stamps, t, d, s.stamps + 1);
    assert TcbSane(s.tasks[t], s.objects, s.now);
  }

  lemma DelayShape(s: State, ticks: nat) returns (d: nat)
    requires InBounds(s) && s.current.Some? && ticks > 0
    ensures var t := s.current.value; var tcb := DelayedTcb(s, t, ticks); var tasks := s.tasks[t := tcb];
      && d <= |s.delayed|
      && (forall i :: 0 <= i < d ==> !TickBefore(tcb.wakeTick, tasks[s.delayed[i]].wakeTick))
      && (d < |s.delayed| ==> TickBefore(tcb.wakeTick, tasks[s.delayed[d]].wakeTick))
      && var r := s.(tasks := tasks, delayed := InsertAt(s.delayed, d, t), stamps := s.stamps + 1);
      InBounds(r) && DelayCurrent(s, ticks) == SwitchContext(r)
  {
    hide SwitchContext;
    d := DelayEffect(s, s.current.value, ticks);
  }

  /** The state between parking the running task and the switch away from it. */
  lemma DelayParked(s: State, ticks: nat) returns (r: State)
    requires Attempting(s, ticks, s.now + ticks) && ticks > 0
    ensures Core(r, None) && DelayCurrent(s, ticks) == SwitchContext(r)
    ensures r == s.(tasks := r.tasks, delayed := r.delayed, stamps := s.stamps + 1)
    ensures r.tasks == s.tasks[s.current.value := DelayedTcb(s, s.current.value, ticks)]
    ensures NoneDue(r.tasks, r.delayed, r.now)
  {
    hide SwitchContext, DelayCurrent, Core, NoneDue;
    CoreOperable(s, None);
    var t := s.current.value;
    var d := DelayShape(s, ticks);
    DelayParkCore(s, ticks, d);
    ParkNoneDue(s.tasks, s.delayed, s.now, t, DelayedTcb(s, t, ticks), d);
    r := s.(tasks := s.tasks[t := DelayedTcb(s, t, ticks)], delayed := InsertAt(s.delayed, d, t), stamps := s.stamps + 1);
  }

  lemma DelayInv(s: State, ticks: nat)
    requires Attempting(s, ticks, s.now + ticks)
    ensures KernelInv(DelayCurrent(s, ticks))
  {
    hide SwitchContext;
    if ticks == 0 {
      YieldInv(s);
    } else {
      var r := DelayParked(s, ticks);
      SwitchInv(r);
    }
  }

  /** The remaining ticks are right exactly while the caller is not half the tick range
      (modulo the range) past its deadline. */
  lemma RemainingExactIff(s: State, t: nat)
    requires t < |s.tasks| && s.tasks[t].waitHasTimeout && s.tick == Wrap(s.now)
    requires s.tasks[t].wakeTick == Wrap(s.tasks[t].deadline) && s.tasks[t].deadline < s.now + HALF_RANGE
    ensures var due := s.tasks[t].deadline;
      WaitRemaining(s, t) == (if s.now < due then due - s.now else 0) <==> ReadsInTime(s.now, due)
  {
    var due := s.tasks[t].deadline;
    WrapDifference(s.now, due);
    WrapDifference(due, s.now);
    if s.now < due {
      SignedDifferenceExact(s.now, due);
    } else {
      NegatedModulo(s.now - due);
    }
  }

  /** A retry that blocks again waits for exactly the caller's original deadline. */
  lemma RemainingExact(s: State, t: nat)
    requires Core(s, None) && t < |s.tasks| && CallList(s.tasks[t].call).Some?
    requires ReadsInTime(s.now, s.tasks[t].deadline)
    ensures var due := s.tasks[t].call.due;
      WaitRemaining(s, t) == if s.now < due then due - s.now else 0
  {
    var due := s.tasks[t].call.due;
    assert TcbSane(s.tasks[t], s.objects, s.now);
    RemainingExactIff(s, t);
  }

  lemma ClearInv(s: State)
    requires KernelInv(s)
    ensures KernelInv(ClearWaitState(s, s.current.value))
  {
    var t := s.current.value;
    var cleared := ClearWaitState(s, t);
    assert TcbSane(s.tasks[t], s.objects, s.now);
    TouchCore(s, t, cleared.tasks[t], None);
  }

  /** The ticks left, and what the attempt may rely on. */
  lemma ResumeRemaining(s: State)
    requires KernelInv(s) && Enabled(s, Resume) && s.tasks[s.current.value].waitResult
    ensures var c := s.current.value; var tcb := s.tasks[c];
      && CallShape(tcb.call, s.objects) && CallList(tcb.call).Some? && tcb.deadline == tcb.call.due
      && WaitRemaining(s, c) == (if s.now < tcb.deadline then tcb.deadline - s.now else 0)
      && Attempting(ClearWaitState(s, c), WaitRemaining(s, c), tcb.call.due)
  {
    assert TcbSane(s.tasks[s.current.value], s.objects, s.now);
    RemainingExact(s, s.current.value);
    ClearInv(s);
  }

  lemma ResumeInv(s: State)
    requires KernelInv(s) && Enabled(s, Resume)
    ensures Operable(s) && KernelInv(ResumeCall(s).0)
  {
    hide SendAttempt, ReceiveAttempt, TakeAttempt;
    var t := s.current.value;
    var tcb := s.tasks[t];
    CoreOperable(s, None);
    ClearInv(s);
    var cleared := ClearWaitState(s, t);
    assert TcbSane(tcb, s.objects, s.now);
    if CallList(tcb.call).Some? && tcb.waitResult {
      RemainingExact(s, t);
      var remaining := WaitRemaining(s, t);
      assert Attempting(cleared, remaining, tcb.call.due);
      match tcb.call
      case InSend(o, item, due) => SendInv(cleared, o, item, remaining, due);
      case InReceive(o, due) => ReceiveInv(cleared, o, remaining, due);
      case InTake(o, due) => TakeInv(cleared, o, remaining, due);
      case _ =>
    }
  }

  lemma QueueStepInv(s: State, step: Step)
    requires KernelInv(s) && Enabled(s, step) && Operable(s)
    requires step.Send? || step.Receive?
    ensures KernelInv(Next(s, step))
  {
    hide SendAttempt, ReceiveAttempt, AllSane, ObjectsSane, IdleReady, NoSelfWait,
      WaitersOrdered, DelayOrdered, ReadyPlaced, DelayPlaced, EventPlaced, RunningPlaced;
    if s.objects[step.queue].kind == QueueData {
      match step
      case Send(q, item, ticks) => SendInv(s, q, item, ticks, s.now + ticks);
      case Receive(q, ticks) => ReceiveInv(s, q, ticks, s.now + ticks);
    }
  }

  lemma SemaphoreStepInv(s: State, step: Step)
    requires KernelInv(s) && Enabled(s, step) && Operable(s)
    requires step.Take? || step.Give?
    ensures KernelInv(Next(s, step))
  {
    hide TakeAttempt, GiveMutex, GiveSemaphore, AllSane, ObjectsSane, IdleReady, NoSelfWait,
      WaitersOrdered, DelayOrdered, ReadyPlaced, DelayPlaced, EventPlaced, RunningPlaced;
    var o := step.semaphore;
    if s.objects[o].kind != QueueData {
      match step
      case Take(_, ticks) => TakeInv(s, o, ticks, s.now + ticks);
      case Give(_) => if s.objects[o].kind == Mutex { GiveMutexInv(s, o); } else { GiveSemaphoreInv(s, o); }
    }
  }

  /** Every step of the kernel keeps its invariant. */
  lemma NextInv(s: State, step: Step)
    requires KernelInv(s) && Enabled(s, step)
    ensures Operable(s) && KernelInv(Next(s, step))
  {
    hide SendAttempt, ReceiveAttempt, TakeAttempt, GiveMutex, GiveSemaphore, DelayCurrent, AbortDelay, YieldCurrent,
      PrioritySet, ExitTask, ResumeCall, TickISR;
    CoreOperable(s, None);
    match step
    case Delay(ticks) => DelayInv(s, ticks);
    case Abort(t) => AbortInv(s, t);
    case Yield => YieldInv(s);
    case SetPriority(t, p) => PrioritySetInv(s, t, p);
    case Exit => ExitInv(s);
    case Resume => ResumeInv(s);
    case Tick => TickInv(s);
    case Send(_, _, _) => QueueStepInv(s, step);
    case Receive(_, _) => QueueStepInv(s, step);
    case Take(_, _) => SemaphoreStepInv(s, step);
    case Give(_) => SemaphoreStepInv(s, step);
  }
}
