/** No lost wake-up: while somebody waits for an object, every available item, slot or
    token is already promised to a woken task that has not retried yet. */
module Wakeups {
  import opened Ticks
  import opened Lists
  import opened KernelState
  import opened TaskModel
  import opened QueueRing
  import opened QueueModel
  import opened Kernel
  import opened Placement
  import opened Order
  import opened CoreInvariant
  import opened Steps

  /** Woken by the event of list `l` and not yet back in its call's retry loop. */
  predicate IsWoken(t: Tcb, l: ListId) {
    t.waitResult && CallList(t.call) == Some(l)
  }

  function Woken(tasks: seq<Tcb>, l: ListId): nat {
    if tasks == [] then 0
    else Woken(tasks[..|tasks| - 1], l) + if IsWoken(tasks[|tasks| - 1], l) then 1 else 0
  }

  /** What a waiter of that side waits for: items or tokens, or free slots. */
  function Available(o: Object, side: Side): int {
    if side == ReceiveSide then o.count
    else if o.kind == QueueData then o.length - o.count
    else 0
  }

  ghost predicate NoLostWakeup(s: State) {
    forall l :: l in s.waiters && l.obj < |s.objects| && s.waiters[l] != [] ==>
      Available(s.objects[l.obj], l.side) <= Woken(s.tasks, l)
  }

  /** One unit of `own` may be unaccounted for. */
  ghost predicate NoLostBut(s: State, own: ListId) {
    forall l :: l in s.waiters && l.obj < |s.objects| && s.waiters[l] != [] ==>
      Available(s.objects[l.obj], l.side) <= Woken(s.tasks, l) + if l == own then 1 else 0
  }

  lemma {:induction false} WokenMonotone(a: seq<Tcb>, b: seq<Tcb>, l: ListId)
    requires |a| == |b|
    requires forall t {:trigger a[t]} {:trigger b[t]} :: 0 <= t < |a| && IsWoken(a[t], l) ==> IsWoken(b[t], l)
    ensures Woken(a, l) <= Woken(b, l)
  {
    if a != [] {
      WokenMonotone(a[..|a| - 1], b[..|b| - 1], l);
    }
  }

  lemma {:induction false} WokenUpdate(tasks: seq<Tcb>, t: nat, tcb: Tcb, l: ListId)
    requires t < |tasks|
    ensures Woken(tasks[t := tcb], l) - (if IsWoken(tcb, l) then 1 else 0)
         == Woken(tasks, l) - (if IsWoken(tasks[t], l) then 1 else 0)
  {
    var n := |tasks| - 1;
    if t < n {
      WokenUpdate(tasks[..n], t, tcb, l);
      assert tasks[t := tcb][..n] == tasks[..n][t := tcb];
    } else {
      assert tasks[t := tcb][..n] == tasks[..n];
    }
  }

  /** Waking and re-prioritising never take a wake-up back and never add a waiter. */
  lemma QuietNoLost(s: State, r: State, own: ListId)
    requires Core(s, None) && Core(r, None) && Quiet(s, r) && NoLostBut(s, own)
    ensures NoLostBut(r, own)
  {
    forall l | l in r.waiters && l.obj < |r.objects| && r.waiters[l] != []
      ensures s.waiters[l] != [] && Woken(s.tasks, l) <= Woken(r.tasks, l)
    {
      var t := r.waiters[l][0];
      assert t in r.waiters[l];
      assert r.tasks[t].eventList == s.tasks[t].eventList;
      forall u | 0 <= u < |s.tasks| && IsWoken(s.tasks[u], l) ensures IsWoken(r.tasks[u], l) {
        assert TcbSane(s.tasks[u], s.objects, s.now);
        assert r.tasks[u].call == s.tasks[u].call;
      }
      WokenMonotone(s.tasks, r.tasks, l);
    }
  }

  lemma NoLostAny(s: State, own: ListId)
    requires NoLostWakeup(s)
    ensures NoLostBut(s, own)
  {
  }

  lemma UnblockWoken(s: State, l: ListId)
    requires Core(s, None) && l in s.waiters && s.waiters[l] != []
    ensures Linked(s.tasks, s.waiters) && Woken(UnblockOne(s, l).0.tasks, l) == Woken(s.tasks, l) + 1
  {
    UnblockOneEffect(s, l);
    var t := s.waiters[l][0];
    assert TcbSane(s.tasks[t], s.objects, s.now);
    var r := UnblockOne(s, l).0;
    assert r.tasks == s.tasks[t := r.tasks[t]];
    WokenUpdate(s.tasks, t, r.tasks[t], l);
  }

  /** Waking the head of `l` settles the one unit that `l` was short of. */
  lemma UnblockNoLost(s: State, l: ListId)
    requires KernelInv(s) && l in s.waiters && NoLostBut(s, l)
    ensures Linked(s.tasks, s.waiters) && NoLostWakeup(UnblockOne(s, l).0)
  {
    hide UnblockOne;
    PlacedLinked(s, None);
    if s.waiters[l] != [] {
      UnblockOneCore(s, l);
      UnblockOneQuiet(s, l);
      UnblockWoken(s, l);
      QuietNoLostHead(s, UnblockOne(s, l).0, l);
    } else {
      assert UnblockOne(s, l).0 == s by { UnblockEmpty(s, l); }
    }
  }

  lemma UnblockEmpty(s: State, l: ListId)
    requires InBounds(s) && l in s.waiters && s.waiters[l] == []
    ensures UnblockOne(s, l).0 == s
  {
  }

  lemma QuietNoLostHead(s: State, r: State, l: ListId)
    requires Core(s, None) && Core(r, None) && Quiet(s, r) && NoLostBut(s, l)
    requires l in s.waiters && s.waiters[l] != [] && Woken(r.tasks, l) == Woken(s.tasks, l) + 1
    ensures NoLostWakeup(r)
  {
    QuietNoLost(s, r, l);
  }

  /** A switch changes no wait result and no list that `NoLostWakeup` reads. */
  lemma SwitchNoLost(s: State)
    requires Core(s, None) && s.current.Some? && s.tasks[s.current.value].state != Running
    requires NoLostWakeup(s)
    ensures NoLostWakeup(SwitchContext(s))
  {
    SwitchContextCore(s);
    var r := SwitchContext(s);
    var t := r.current.value;
    forall l | l in r.waiters ensures Woken(r.tasks, l) == Woken(s.tasks, l) {
      WokenUpdate(s.tasks, t, r.tasks[t], l);
    }
  }

  lemma YieldNoLost(s: State)
    requires KernelInv(s) && NoLostWakeup(s)
    ensures NoLostWakeup(YieldCurrent(s))
  {
    PreemptCore(s);
    var t := s.current.value;
    var tcb := s.tasks[t].(state := Ready);
    var r := ReadyListInsert(WithTask(s, t, tcb), t);
    forall l | l in r.waiters ensures Woken(r.tasks, l) == Woken(s.tasks, l) {
      WokenUpdate(s.tasks, t, tcb, l);
    }
    SwitchNoLost(r);
  }

  /** A task that finds nothing available may join the waiters. */
  lemma BlockNoLost(s: State, l: ListId, reason: WaitReason, call: Call, ticks: nat)
    requires KernelInv(s) && MayBlock(s, s.current.value, l, reason, call, ticks) && ticks > 0
    requires s.tasks[s.current.value].call.NoCall? && NoLostBut(s, l)
    requires Available(s.objects[l.obj], l.side) <= 0
    ensures NoLostWakeup(BlockOn(s, s.current.value, l, reason, call, ticks))
  {
    hide BlockOn;
    var t := s.current.value;
    var k, d := BlockOnEffect(s, t, l, reason, call, ticks);
    var r := BlockOn(s, t, l, reason, call, ticks);
    forall m | m in r.waiters && m.obj < |r.objects| && r.waiters[m] != []
      ensures Available(r.objects[m.obj], m.side) <= Woken(r.tasks, m)
    {
      WokenUpdate(s.tasks, t, r.tasks[t], m);
    }
  }

  lemma BlockSwitchNoLost(s: State, l: ListId, reason: WaitReason, call: Call, ticks: nat)
    requires KernelInv(s) && MayBlock(s, s.current.value, l, reason, call, ticks) && ticks > 0
    requires s.tasks[s.current.value].call.NoCall? && NoLostBut(s, l)
    requires Available(s.objects[l.obj], l.side) <= 0
    ensures NoLostWakeup(SwitchContext(BlockOn(s, s.current.value, l, reason, call, ticks)))
  {
    hide SwitchContext;
    BlockNoLost(s, l, reason, call, ticks);
    BlockInv(s, l, reason, call, ticks);
    SwitchNoLost(BlockOn(s, s.current.value, l, reason, call, ticks));
  }

  /** The object gains a unit for the waiters of `l`, whose head is then woken. */
  lemma ObjectWakeNoLost(s: State, o: nat, obj: Object, l: ListId)
    requires KernelInv(s) && o < |s.objects| && ObjectShape(obj) && l in s.waiters && l.obj == o
    requires obj.kind == s.objects[o].kind && obj.itemSize == s.objects[o].itemSize
    requires obj.owner.Some? ==> obj.owner.value < |s.tasks|
    requires obj.owner.Some? && obj.owner != s.objects[o].owner ==> s.tasks[obj.owner.value].call.NoCall?
    requires NoLostBut(s.(objects := s.objects[o := obj]), l)
    ensures var r := s.(objects := s.objects[o := obj]);
      && KernelInv(r) && Linked(r.tasks, r.waiters)
      && NoLostWakeup(UnblockOne(r, l).0) && NoLostWakeup(UnblockAndSwitch(r, l))
  {
    hide YieldCurrent;
    ObjectWakeInv(s, o, obj, l);
    var r := s.(objects := s.objects[o := obj]);
    UnblockNoLost(r, l);
    YieldNoLost(UnblockOne(r, l).0);
  }

  lemma SendNoLost(s: State, o: nat, item: seq<Byte>, ticks: nat, due: nat)
    requires Attempting(s, ticks, due) && o < |s.objects| && s.objects[o].kind == QueueData
    requires |item| == s.objects[o].itemSize && NoLostBut(s, ListId(o, SendSide))
    ensures Operable(s) && NoLostWakeup(SendAttempt(s, o, item, ticks, due).0)
  {
    hide UnblockAndSwitch, BlockOn, SwitchContext;
    CoreOperable(s, None);
    if s.objects[o].count < s.objects[o].length {
      ObjectWakeNoLost(s, o, CopyIn(s.objects[o], item), ListId(o, ReceiveSide));
    } else if ticks > 0 {
      BlockSwitchNoLost(s, ListId(o, SendSide), WaitQueueSend, InSend(o, item, due), ticks);
    }
  }

  lemma ReceiveNoLost(s: State, o: nat, ticks: nat, due: nat)
    requires Attempting(s, ticks, due) && o < |s.objects| && s.objects[o].kind == QueueData
    requires NoLostBut(s, ListId(o, ReceiveSide))
    ensures Operable(s) && NoLostWakeup(ReceiveAttempt(s, o, ticks, due).0)
  {
    hide UnblockAndSwitch, BlockOn, SwitchContext;
    CoreOperable(s, None);
    if s.objects[o].count > 0 {
      ObjectWakeNoLost(s, o, CopyOut(s.objects[o]), ListId(o, SendSide));
    } else if ticks > 0 {
      BlockSwitchNoLost(s, ListId(o, ReceiveSide), WaitQueueReceive, InReceive(o, due), ticks);
    }
  }

  lemma TokenTakenNoLost(s: State, o: nat)
    requires s.current.Some? && o < |s.objects| && s.objects[o].kind != QueueData && s.objects[o].count > 0
    requires NoLostBut(s, ListId(o, ReceiveSide))
    ensures NoLostWakeup(s.(objects := s.objects[o := TokenTaken(s.objects[o], s.current.value)]))
  {
    var r := s.(objects := s.objects[o := TokenTaken(s.objects[o], s.current.value)]);
    forall l | l in r.waiters && l.obj < |r.objects| && r.waiters[l] != []
      ensures Available(r.objects[l.obj], l.side) <= Woken(r.tasks, l)
    {
      assert Available(s.objects[l.obj], l.side) <= Woken(s.tasks, l) + if l == ListId(o, ReceiveSide) then 1 else 0;
    }
  }

  lemma TakeNoLost(s: State, o: nat, ticks: nat, due: nat)
    requires Attempting(s, ticks, due) && o < |s.objects| && s.objects[o].kind != QueueData
    requires NoLostBut(s, ListId(o, ReceiveSide))
    ensures Operable(s) && NoLostWakeup(TakeAttempt(s, o, ticks, due).0)
  {
    hide BlockOn, RecomputeInheritedPriority, SwitchContext;
    CoreOperable(s, None);
    var t := s.current.value;
    var semaphore := s.objects[o];
    assert ObjectShape(semaphore);
    if semaphore.kind == Mutex && semaphore.owner == Some(t) {
      assert Available(s.objects[o], ReceiveSide) == 0;
    } else if semaphore.count > 0 {
      TokenTakenNoLost(s, o);
    } else if ticks > 0 {
      var call := InTake(o, due);
      var reason := CallReason(call, s.objects);
      BlockNoLost(s, ListId(o, ReceiveSide), reason, call, ticks);
      BlockInv(s, ListId(o, ReceiveSide), reason, call, ticks);
      var blocked := BlockOn(s, t, ListId(o, ReceiveSide), reason, call, ticks);
      if semaphore.kind == Mutex && semaphore.owner.Some? {
        RecomputeSwitchNoLost(blocked, semaphore.owner.value);
      } else {
        SwitchNoLost(blocked);
      }
    }
  }

  lemma RecomputeSwitchNoLost(s: State, owner: nat)
    requires Core(s, None) && s.current.Some? && s.tasks[s.current.value].state == Blocked
    requires owner < |s.tasks| && NoLostWakeup(s)
    ensures NoLostWakeup(SwitchContext(RecomputeInheritedPriority(s, owner)))
  {
    hide SwitchContext;
    RecomputeCore(s, owner, None);
    RecomputeQuiet(s, owner);
    var r := RecomputeInheritedPriority(s, owner);
    var p := MaxWaiter(s, s.registry, owner, IDLE_PRIORITY);
    var tcb := s.tasks[owner].(inheritedPriority := p);
    SetEffectivePriorityEffect(WithTask(s, owner, tcb), owner, Max(tcb.basePriority, p));
    QuietKeepsNoLost(s, r);
    SwitchNoLost(r);
  }

  lemma QuietKeepsNoLost(s: State, r: State)
    requires Core(s, None) && Core(r, None) && Quiet(s, r) && NoLostWakeup(s)
    ensures NoLostWakeup(r)
  {
    forall l | l in r.waiters && l.obj < |r.objects| && r.waiters[l] != []
      ensures Available(r.objects[l.obj], l.side) <= Woken(r.tasks, l)
    {
      var other := ListId(l.obj + 1, l.side);
      NoLostAny(s, other);
      QuietNoLost(s, r, other);
    }
  }

  lemma RecomputeNoLost(s: State, t: nat)
    requires KernelInv(s) && NoLostWakeup(s) && t < |s.tasks|
    ensures var r := RecomputeInheritedPriority(s, t);
      KernelInv(r) && NoLostWakeup(r) && NoLostWakeup(YieldCurrent(r))
  {
    hide RecomputeInheritedPriority, YieldCurrent;
    RecomputeInv(s, t);
    RecomputeQuiet(s, t);
    QuietKeepsNoLost(s, RecomputeInheritedPriority(s, t));
    YieldNoLost(RecomputeInheritedPriority(s, t));
  }

  /** A released mutex has one token to promise. */
  lemma ReleasedNoLost(s: State, o: nat)
    requires o < |s.objects| && ObjectShape(s.objects[o]) && s.objects[o].kind == Mutex
    requires s.objects[o].owner.Some? && NoLostWakeup(s)
    ensures NoLostBut(AfterRelease(s, o), ListId(o, ReceiveSide))
  {
    var r := AfterRelease(s, o);
    forall l | l in r.waiters && l.obj < |r.objects| && r.waiters[l] != []
      ensures Available(r.objects[l.obj], l.side) <= Woken(r.tasks, l) + if l == ListId(o, ReceiveSide) then 1 else 0
    {
      assert Available(s.objects[l.obj], l.side) <= Woken(s.tasks, l);
    }
  }

  lemma GiveMutexNoLost(s: State, o: nat)
    requires KernelInv(s) && o < |s.objects| && s.objects[o].kind == Mutex && Operable(s) && NoLostWakeup(s)
    ensures NoLostWakeup(GiveMutex(s, o).0)
  {
    hide GiveMutex, UnblockOne, UnblockAndSwitch, RecomputeInheritedPriority, YieldCurrent;
    if s.objects[o].owner == s.current {
      ReleasedNoLost(s, o);
      hide NoLostWakeup, NoLostBut;
      GiveMutexShape(s, o);
      ObjectWakeInv(s, o, Released(s.objects[o]), ListId(o, ReceiveSide));
      ObjectWakeNoLost(s, o, Released(s.objects[o]), ListId(o, ReceiveSide));
      RecomputeNoLost(UnblockOne(AfterRelease(s, o), ListId(o, ReceiveSide)).0, s.current.value);
    } else {
      GiveRefused(s, o);
    }
  }

  lemma GiveSemaphoreNoLost(s: State, o: nat)
    requires KernelInv(s) && o < |s.objects| && s.objects[o].kind != Mutex
    requires s.objects[o].kind != QueueData && Operable(s)
    requires NoLostWakeup(s)
    ensures NoLostWakeup(GiveSemaphore(s, o).0)
  {
    hide UnblockAndSwitch;
    if s.objects[o].count < s.objects[o].maxCount {
      assert ObjectShape(s.objects[o]);
      ObjectWakeNoLost(s, o, TokenGiven(s.objects[o]), ListId(o, ReceiveSide));
    }
  }

  lemma AbortNoLost(s: State, t: nat)
    requires KernelInv(s) && t < |s.tasks| && NoLostWakeup(s)
    ensures NoLostWakeup(AbortDelay(s, t).0)
  {
    hide EndWait, YieldCurrent;
    if s.tasks[t].state == Blocked && t in s.delayed {
      EndWaitCore(s, t);
      EndWaitQuiet(s, t);
      QuietInv(s, EndWait(s, t));
      QuietKeepsNoLost(s, EndWait(s, t));
      YieldNoLost(EndWait(s, t));
    }
  }

  lemma TickNoLost(s: State)
    requires KernelInv(s) && NoLostWakeup(s)
    ensures NoLostWakeup(TickISR(s))
  {
    hide WakeExpired, YieldCurrent;
    AdvanceCore(s);
    WakeExpiredInv(Advance(s));
    var woken := WakeExpired(Advance(s));
    assert woken.tasks[s.current.value].state == Running;
    QuietKeepsNoLost(Advance(s), woken);
    YieldNoLost(woken);
  }

  lemma PrioritySetNoLost(s: State, t: nat, p: Priority)
    requires KernelInv(s) && t < |s.tasks| && NoLostWakeup(s)
    ensures NoLostWakeup(PrioritySet(s, t, p))
  {
    hide NoLostWakeup, PrioritySet;
    PrioritySetCore(s, t, p);
    PrioritySetQuiet(s, t, p);
    QuietKeepsNoLost(s, PrioritySet(s, t, p));
  }

  /** The running task leaves the ready state without touching any wait. */
  lemma LeaveNoLost(s: State, r: State)
    requires Core(r, None) && s.current.Some? && s.current.value < |s.tasks| && NoLostWakeup(s)
    requires r.waiters == s.waiters && r.objects == s.objects && r.current == s.current
    requires |r.tasks| == |s.tasks| && r.tasks == s.tasks[s.current.value := r.tasks[s.current.value]]
    requires r.tasks[s.current.value].state != Running
    requires forall l :: IsWoken(r.tasks[s.current.value], l) == IsWoken(s.tasks[s.current.value], l)
    ensures NoLostWakeup(SwitchContext(r))
  {
    forall l | l in r.waiters ensures Woken(r.tasks, l) == Woken(s.tasks, l) {
      WokenUpdate(s.tasks, s.current.value, r.tasks[s.current.value], l);
    }
    SwitchNoLost(r);
  }

  lemma DelayNoLost(s: State, ticks: nat)
    requires Attempting(s, ticks, s.now + ticks) && NoLostWakeup(s)
    ensures NoLostWakeup(DelayCurrent(s, ticks))
  {
    hide SwitchContext;
    if ticks == 0 {
      YieldNoLost(s);
    } else {
      assert TcbSane(s.tasks[s.current.value], s.objects, s.now);
      var r := DelayParked(s, ticks);
      LeaveNoLost(s, r);
    }
  }

  lemma ExitNoLost(s: State)
    requires KernelInv(s) && s.current.value != s.idle && s.tasks[s.current.value].call.NoCall? && NoLostWakeup(s)
    ensures NoLostWakeup(ExitTask(s))
  {
    hide SwitchContext;
    var t := s.current.value;
    var tcb := s.tasks[t].(state := Deleted);
    ExitCore(s);
    assert TcbSane(s.tasks[t], s.objects, s.now);
    LeaveNoLost(s, WithTask(s, t, tcb));
  }

  /** Clearing a wait uses up the caller's own wake-up and no other. */
  lemma ClearNoLost(s: State, own: ListId)
    requires KernelInv(s) && NoLostWakeup(s)
    requires s.tasks[s.current.value].waitResult ==> CallList(s.tasks[s.current.value].call) == Some(own)
    ensures NoLostBut(ClearWaitState(s, s.current.value), own)
    ensures !s.tasks[s.current.value].waitResult ==> NoLostWakeup(ClearWaitState(s, s.current.value))
  {
    var t := s.current.value;
    var r := ClearWaitState(s, t);
    forall l | l in r.waiters
      ensures Woken(s.tasks, l) <= Woken(r.tasks, l) + if s.tasks[t].waitResult && l == own then 1 else 0
    {
      WokenUpdate(s.tasks, t, r.tasks[t], l);
    }
  }

  lemma ResumeNoLost(s: State)
    requires KernelInv(s) && Enabled(s, Resume) && NoLostWakeup(s)
    ensures Operable(s) && NoLostWakeup(ResumeCall(s).0)
  {
    hide SendAttempt, ReceiveAttempt, TakeAttempt;
    var t := s.current.value;
    var tcb := s.tasks[t];
    CoreOperable(s, None);
    ClearInv(s);
    var cleared := ClearWaitState(s, t);
    assert TcbSane(tcb, s.objects, s.now);
    if CallList(tcb.call).Some? && tcb.waitResult {
      RemainingExact(s, t);
      ClearNoLost(s, CallList(tcb.call).value);
      var remaining := WaitRemaining(s, t);
      assert Attempting(cleared, remaining, tcb.call.due);
      match tcb.call
      case InSend(o, item, due) => SendNoLost(cleared, o, item, remaining, due);
      case InReceive(o, due) => ReceiveNoLost(cleared, o, remaining, due);
      case InTake(o, due) => TakeNoLost(cleared, o, remaining, due);
      case _ =>
    } else {
      ClearNoLost(s, ListId(0, SendSide));
    }
  }

  lemma QueueStepNoLost(s: State, step: Step)
    requires KernelInv(s) && Enabled(s, step) && Operable(s) && NoLostWakeup(s)
    requires step.Send? || step.Receive?
    ensures NoLostWakeup(Next(s, step))
  {
    hide SendAttempt, ReceiveAttempt, NoLostWakeup, NoLostBut, AllSane, ObjectsSane, IdleReady, NoSelfWait,
      WaitersOrdered, DelayOrdered, ReadyPlaced, DelayPlaced, EventPlaced, RunningPlaced;
    if s.objects[step.queue].kind == QueueData {
      match step
      case Send(q, item, ticks) =>
        NoLostAny(s, ListId(q, SendSide));
        SendNoLost(s, q, item, ticks, s.now + ticks);
      case Receive(q, ticks) =>
        NoLostAny(s, ListId(q, ReceiveSide));
        ReceiveNoLost(s, q, ticks, s.now + ticks);
    }
  }

  lemma SemaphoreStepNoLost(s: State, step: Step)
    requires KernelInv(s) && Enabled(s, step) && Operable(s) && NoLostWakeup(s)
    requires step.Take? || step.Give?
    ensures NoLostWakeup(Next(s, step))
  {
    hide TakeAttempt, GiveMutex, GiveSemaphore, NoLostWakeup, NoLostBut;
    var o := step.semaphore;
    if s.objects[o].kind != QueueData {
      match step
      case Take(_, ticks) =>
        NoLostAny(s, ListId(o, ReceiveSide));
        TakeNoLost(s, o, ticks, s.now + ticks);
      case Give(_) =>
        if s.objects[o].kind == Mutex { GiveMutexNoLost(s, o); } else { GiveSemaphoreNoLost(s, o); }
    }
  }

  /** Every step of the kernel keeps all wake-ups. */
  lemma NextNoLost(s: State, step: Step)
    requires KernelInv(s) && Enabled(s, step) && NoLostWakeup(s)
    ensures Operable(s) && NoLostWakeup(Next(s, step))
  {
    hide SendAttempt, ReceiveAttempt, TakeAttempt, GiveMutex, GiveSemaphore, DelayCurrent, AbortDelay, YieldCurrent,
      PrioritySet, ExitTask, ResumeCall, TickISR;
    CoreOperable(s, None);
    match step
    case Delay(ticks) => DelayNoLost(s, ticks);
    case Abort(t) => AbortNoLost(s, t);
    case Yield => YieldNoLost(s);
    case SetPriority(t, p) => PrioritySetNoLost(s, t, p);
    case Exit => ExitNoLost(s);
    case Resume => ResumeNoLost(s);
    case Tick => TickNoLost(s);
    case Send(_, _, _) => QueueStepNoLost(s, step);
    case Receive(_, _) => QueueStepNoLost(s, step);
    case Take(_, _) => SemaphoreStepNoLost(s, step);
    case Give(_) => SemaphoreStepNoLost(s, step);
  }
}
