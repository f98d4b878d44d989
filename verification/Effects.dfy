/** What a step does to the synchronisation objects, to deleted tasks and to the tasks
    suspended in a call. */
module Effects {
  import opened Ticks
  import opened Lists
  import opened KernelState
  import opened TaskModel
  import opened QueueRing
  import opened QueueModel
  import opened Kernel
  import opened Placement
  import opened Order
  import opened CoreInvariant
  import opened Steps
  import opened Wakeups
  import opened Inheritance
  import opened ClosedSystem

  /** A suspended call keeps its deadline; its wait goes on unless its event has come or
      its deadline has, and what ended it is not forgotten. */
  ghost predicate Carries(before: Tcb, after: Tcb, now: nat) {
    && after.call == before.call && after.deadline == before.deadline
    && (before.state != Blocked ==> after.state != Blocked && after.waitResult == before.waitResult)
    && (before.state == Blocked ==> after.state == Blocked || after.waitResult || before.deadline <= now)
  }

  /** The objects and the clock are untouched, no deleted task comes back, and every
      suspended call but that of task `but` is carried on. */
  ghost predicate Scheduled(s: State, r: State, but: Option<nat>) {
    && r.objects == s.objects && r.registry == s.registry && r.idle == s.idle && r.now == s.now && |r.tasks| == |s.tasks|
    && (forall t {:trigger r.tasks[t]} :: 0 <= t < |s.tasks| && s.tasks[t].state == Deleted ==> r.tasks[t].state == Deleted)
    && (forall t {:trigger r.tasks[t]} :: 0 <= t < |s.tasks| && but != Some(t) && !s.tasks[t].call.NoCall? ==>
          Carries(s.tasks[t], r.tasks[t], s.now))
  }

  lemma ScheduledTransitive(s: State, m: State, r: State, but: Option<nat>)
    requires Scheduled(s, m, but) && Scheduled(m, r, but)
    ensures Scheduled(s, r, but)
  {
    forall t | 0 <= t < |s.tasks| && s.tasks[t].state == Deleted ensures r.tasks[t].state == Deleted {
      assert m.tasks[t].state == Deleted;
    }
    forall t | 0 <= t < |s.tasks| && but != Some(t) && !s.tasks[t].call.NoCall? ensures Carries(s.tasks[t], r.tasks[t], s.now) {
      assert Carries(s.tasks[t], m.tasks[t], s.now);
    }
  }

  lemma ScheduledBut(s: State, r: State, but: Option<nat>)
    requires Scheduled(s, r, None)
    ensures Scheduled(s, r, but)
  {
  }

  /** Nobody is woken except by its event or at its deadline. */
  ghost predicate WakesOnTime(s: State, r: State, but: Option<nat>)
    requires |r.tasks| == |s.tasks|
  {
    forall t {:trigger r.tasks[t]} :: 0 <= t < |s.tasks| && but != Some(t) && s.tasks[t].state == Blocked ==>
      r.tasks[t].state == Blocked || r.tasks[t].waitResult || s.tasks[t].deadline <= s.now
  }

  lemma QuietScheduled(s: State, r: State, but: Option<nat>)
    requires Quiet(s, r) && WakesOnTime(s, r, but)
    ensures Scheduled(s, r, but)
  {
  }

  lemma UnblockScheduled(s: State, l: ListId)
    requires KernelInv(s) && l in s.waiters
    ensures Linked(s.tasks, s.waiters) && Scheduled(s, UnblockOne(s, l).0, None)
  {
    hide UnblockOne;
    UnblockOneQuiet(s, l);
    UnblockOnTime(s, l);
    QuietScheduled(s, UnblockOne(s, l).0, None);
  }

  lemma UnblockOnTime(s: State, l: ListId)
    requires Core(s, None) && l in s.waiters && Linked(s.tasks, s.waiters)
    ensures var r := UnblockOne(s, l).0; |r.tasks| == |s.tasks| && WakesOnTime(s, r, None)
  {
    hide Unlinked, UnblockOne;
    if s.waiters[l] != [] {
      UnblockOneUnlinks(s, l);
      UnlinkTasks(s, s.waiters[l][0]);
    } else {
      UnblockEmpty(s, l);
    }
  }

  lemma RecomputeScheduled(s: State, u: nat)
    requires InBounds(s) && u < |s.tasks|
    ensures Scheduled(s, RecomputeInheritedPriority(s, u), None)
  {
    hide RecomputeInheritedPriority;
    RecomputeQuiet(s, u);
    RecomputeStates(s, u);
    QuietScheduled(s, RecomputeInheritedPriority(s, u), None);
  }

  lemma EndWaitScheduled(s: State, h: nat)
    requires Core(s, None) && h < |s.tasks| && s.tasks[h].state == Blocked
    ensures Scheduled(s, EndWait(s, h), Some(h))
  {
    hide EndWait;
    EndWaitQuiet(s, h);
    EndWaitStates(s, h);
    QuietScheduled(s, EndWait(s, h), Some(h));
  }

  lemma SwitchScheduled(s: State)
    requires Core(s, None) && s.current.Some? && s.tasks[s.current.value].state != Running
    ensures Scheduled(s, SwitchContext(s), None)
  {
    SwitchContextCore(s);
    var r := SwitchContext(s);
    assert r == s.(tasks := r.tasks, ready := r.ready, current := r.current);
  }

  lemma YieldScheduled(s: State)
    requires KernelInv(s)
    ensures Scheduled(s, YieldCurrent(s), None)
  {
    hide SwitchContext;
    PreemptCore(s);
    var t := s.current.value;
    var tcb := s.tasks[t].(state := Ready);
    var m := ReadyListInsert(WithTask(s, t, tcb), t);
    SwitchScheduled(m);
    ScheduledTransitive(s, m, YieldCurrent(s), None);
  }

  lemma UnblockAndSwitchScheduled(s: State, l: ListId)
    requires KernelInv(s) && l in s.waiters
    ensures Linked(s.tasks, s.waiters) && Scheduled(s, UnblockAndSwitch(s, l), None)
  {
    hide UnblockOne, YieldCurrent;
    WakeInv(s, l);
    UnblockScheduled(s, l);
    UnblockOneQuiet(s, l);
    var woken := UnblockOne(s, l).0;
    YieldScheduled(woken);
    ScheduledTransitive(s, woken, YieldCurrent(woken), None);
  }

  lemma ParkScheduled(s: State, l: ListId, reason: WaitReason, call: Call, ticks: nat)
    requires KernelInv(s) && MayBlock(s, s.current.value, l, reason, call, ticks) && s.tasks[s.current.value].call.NoCall?
    ensures Scheduled(s, BlockOn(s, s.current.value, l, reason, call, ticks), None)
  {
    hide BlockOn;
    var k, d := BlockOnEffect(s, s.current.value, l, reason, call, ticks);
  }

  lemma BlockScheduled(s: State, l: ListId, reason: WaitReason, call: Call, ticks: nat)
    requires KernelInv(s) && MayBlock(s, s.current.value, l, reason, call, ticks) && ticks > 0
    requires s.tasks[s.current.value].call.NoCall?
    ensures var r := BlockOn(s, s.current.value, l, reason, call, ticks);
      Scheduled(s, r, None) && Scheduled(s, SwitchContext(r), None)
  {
    hide SwitchContext, BlockOn, Scheduled;
    BlockInv(s, l, reason, call, ticks);
    ParkScheduled(s, l, reason, call, ticks);
    var r := BlockOn(s, s.current.value, l, reason, call, ticks);
    SwitchScheduled(r);
    ScheduledTransitive(s, r, SwitchContext(r), None);
  }

  lemma RecomputeSwitchScheduled(s: State, u: nat)
    requires Core(s, None) && s.current.Some? && s.tasks[s.current.value].state == Blocked && u < |s.tasks|
    ensures Scheduled(s, SwitchContext(RecomputeInheritedPriority(s, u)), None)
  {
    hide SwitchContext, RecomputeInheritedPriority;
    RecomputeCore(s, u, None);
    RecomputeQuiet(s, u);
    RecomputeStates(s, u);
    RecomputeScheduled(s, u);
    var r := RecomputeInheritedPriority(s, u);
    SwitchScheduled(r);
    ScheduledTransitive(s, r, SwitchContext(r), None);
  }

  // ---------- waiting in a call ----------

  /** Task `t` waits in list `l`, suspended in `call`, until the instant `due`. */
  ghost predicate Parked(s: State, t: nat, l: ListId, call: Call, due: nat) {
    && t < |s.tasks| && s.tasks[t].state == Blocked && s.tasks[t].eventList == Some(l)
    && s.tasks[t].call == call && s.tasks[t].deadline == due && !s.tasks[t].waitResult
    && l in s.waiters && t in s.waiters[l] && t in s.delayed && s.current.Some? && s.current != Some(t)
  }

  /** The switch away from a task that waits. */
  lemma SwitchParked(s: State, t: nat, l: ListId, call: Call, due: nat)
    requires Core(s, None) && s.current == Some(t) && s.tasks[t].state == Blocked
    requires s.tasks[t].eventList == Some(l) && s.tasks[t].call == call && s.tasks[t].deadline == due
    ensures Parked(SwitchContext(s), t, l, call, due)
  {
    SwitchContextCore(s);
    assert TcbSane(s.tasks[t], s.objects, s.now);
  }

  lemma BlockParked(s: State, l: ListId, reason: WaitReason, call: Call, ticks: nat)
    requires KernelInv(s) && MayBlock(s, s.current.value, l, reason, call, ticks) && ticks > 0
    ensures Parked(SwitchContext(BlockOn(s, s.current.value, l, reason, call, ticks)), s.current.value, l, call, call.due)
  {
    hide SwitchContext, BlockOn;
    BlockInv(s, l, reason, call, ticks);
    var k, d := BlockOnEffect(s, s.current.value, l, reason, call, ticks);
    SwitchParked(BlockOn(s, s.current.value, l, reason, call, ticks), s.current.value, l, call, call.due);
  }

  lemma RecomputeKeepsWait(s: State, u: nat, t: nat)
    requires InBounds(s) && u < |s.tasks| && t < |s.tasks|
    ensures var before, after := s.tasks[t], RecomputeInheritedPriority(s, u).tasks[t];
      && after.state == before.state && after.eventList == before.eventList && after.call == before.call
      && after.deadline == before.deadline
    ensures RecomputeInheritedPriority(s, u).current == s.current
  {
    var p := MaxWaiter(s, s.registry, u, IDLE_PRIORITY);
    var tcb := s.tasks[u].(inheritedPriority := p);
    SetEffectivePriorityEffect(WithTask(s, u, tcb), u, Max(tcb.basePriority, p));
  }

  lemma BlockRecomputeParked(s: State, l: ListId, reason: WaitReason, call: Call, ticks: nat, u: nat)
    requires KernelInv(s) && MayBlock(s, s.current.value, l, reason, call, ticks) && ticks > 0 && u < |s.tasks|
    ensures var blocked := BlockOn(s, s.current.value, l, reason, call, ticks);
      Parked(SwitchContext(RecomputeInheritedPriority(blocked, u)), s.current.value, l, call, call.due)
  {
    hide SwitchContext, BlockOn, RecomputeInheritedPriority;
    BlockInv(s, l, reason, call, ticks);
    var k, d := BlockOnEffect(s, s.current.value, l, reason, call, ticks);
    var blocked := BlockOn(s, s.current.value, l, reason, call, ticks);
    RecomputeCore(blocked, u, None);
    RecomputeKeepsWait(blocked, u, s.current.value);
    SwitchParked(RecomputeInheritedPriority(blocked, u), s.current.value, l, call, call.due);
  }

  // ---------- the attempts ----------

  /** The object `o` becomes `obj`; everything else is scheduling. */
  ghost predicate Becomes(s: State, r: State, o: nat, obj: Object) {
    o < |s.objects| && Scheduled(WithObject(s, o, obj), r, None)
  }

  lemma StaysScheduled(s: State, o: nat)
    requires o < |s.objects|
    ensures WithObject(s, o, s.objects[o]) == s
  {
    assert s.objects[o := s.objects[o]] == s.objects;
  }

  /** The object after xQueueSend's critical section. */
  function Sent(q: Object, item: seq<Byte>): Object
    requires RingShape(q)
  {
    if q.count < q.length then CopyIn(q, item) else q
  }

  function Taken(q: Object): Object
    requires RingShape(q)
  {
    if q.count > 0 then CopyOut(q) else q
  }

  function TakenBy(o: Object, t: nat): Object {
    if o.count > 0 && !(o.kind == Mutex && o.owner == Some(t)) then
      o.(count := o.count - 1, owner := if o.kind == Mutex then Some(t) else o.owner)
    else o
  }

  function GivenBy(o: Object, t: nat): Object {
    if o.kind == Mutex && o.owner == Some(t) then o.(count := 1, owner := None)
    else if o.kind != Mutex && o.count < o.maxCount then o.(count := o.count + 1)
    else o
  }

  lemma SendEffect(s: State, o: nat, item: seq<Byte>, ticks: nat, due: nat)
    requires Attempting(s, ticks, due) && o < |s.objects| && s.objects[o].kind == QueueData
    requires |item| == s.objects[o].itemSize
    ensures Operable(s) && RingShape(s.objects[o])
    ensures var (r, outcome) := SendAttempt(s, o, item, ticks, due);
      && Becomes(s, r, o, Sent(s.objects[o], item))
      && (outcome == Passed <==> s.objects[o].count < s.objects[o].length)
      && (outcome == Refused <==> s.objects[o].count == s.objects[o].length && ticks == 0)
      && (outcome == Suspended <==> s.objects[o].count == s.objects[o].length && ticks > 0)
      && (outcome == Refused ==> r == s)
      && (outcome == Suspended ==> Parked(r, s.current.value, ListId(o, SendSide), InSend(o, item, due), due))
  {
    hide UnblockAndSwitch, BlockOn, SwitchContext, Scheduled, Parked;
    CoreOperable(s, None);
    assert ObjectShape(s.objects[o]);
    if s.objects[o].count < s.objects[o].length {
      var obj := CopyIn(s.objects[o], item);
      ObjectInv(s, o, obj);
      UnblockAndSwitchScheduled(WithObject(s, o, obj), ListId(o, ReceiveSide));
    } else {
      StaysScheduled(s, o);
      IdleScheduled(s);
      if ticks > 0 {
        BlockScheduled(s, ListId(o, SendSide), WaitQueueSend, InSend(o, item, due), ticks);
        BlockParked(s, ListId(o, SendSide), WaitQueueSend, InSend(o, item, due), ticks);
      }
    }
  }

  lemma IdleScheduled(s: State)
    ensures Scheduled(s, s, None)
  {
  }

  lemma ReceiveEffect(s: State, o: nat, ticks: nat, due: nat)
    requires Attempting(s, ticks, due) && o < |s.objects| && s.objects[o].kind == QueueData
    ensures Operable(s) && RingShape(s.objects[o])
    ensures var (r, outcome) := ReceiveAttempt(s, o, ticks, due);
      && Becomes(s, r, o, Taken(s.objects[o]))
      && (outcome.Received? <==> s.objects[o].count > 0)
      && (outcome.Received? ==> outcome.item == s.objects[o].slots[s.objects[o].tail])
      && (outcome == Refused <==> s.objects[o].count == 0 && ticks == 0)
      && (outcome == Suspended <==> s.objects[o].count == 0 && ticks > 0)
      && (outcome == Refused ==> r == s)
      && (outcome == Suspended ==> Parked(r, s.current.value, ListId(o, ReceiveSide), InReceive(o, due), due))
  {
    hide UnblockAndSwitch, BlockOn, SwitchContext, Scheduled, Parked;
    CoreOperable(s, None);
    assert ObjectShape(s.objects[o]);
    if s.objects[o].count > 0 {
      var obj := CopyOut(s.objects[o]);
      ObjectInv(s, o, obj);
      UnblockAndSwitchScheduled(WithObject(s, o, obj), ListId(o, SendSide));
    } else {
      StaysScheduled(s, o);
      IdleScheduled(s);
      if ticks > 0 {
        BlockScheduled(s, ListId(o, ReceiveSide), WaitQueueReceive, InReceive(o, due), ticks);
        BlockParked(s, ListId(o, ReceiveSide), WaitQueueReceive, InReceive(o, due), ticks);
      }
    }
  }

  lemma TakeEffect(s: State, o: nat, ticks: nat, due: nat)
    requires Attempting(s, ticks, due) && o < |s.objects| && s.objects[o].kind != QueueData
    ensures Operable(s)
    ensures var (r, outcome) := TakeAttempt(s, o, ticks, due);
      && Becomes(s, r, o, TakenBy(s.objects[o], s.current.value))
      && (outcome == Passed <==> s.objects[o].count > 0)
      && (outcome == Refused <==>
            s.objects[o].count == 0 && (ticks == 0 || (s.objects[o].kind == Mutex && s.objects[o].owner == s.current)))
      && (outcome == Suspended <==>
            s.objects[o].count == 0 && ticks > 0 && !(s.objects[o].kind == Mutex && s.objects[o].owner == s.current))
      && (outcome == Refused ==> r == s)
      && (outcome == Suspended ==> Parked(r, s.current.value, ListId(o, ReceiveSide), InTake(o, due), due))
  {
    hide BlockOn, SwitchContext, Scheduled, RecomputeInheritedPriority, Parked;
    CoreOperable(s, None);
    var semaphore := s.objects[o];
    assert ObjectShape(semaphore);
    IdleScheduled(WithObject(s, o, TakenBy(semaphore, s.current.value)));
    StaysScheduled(s, o);
    if !(semaphore.kind == Mutex && semaphore.owner == s.current) && semaphore.count == 0 && ticks > 0 {
      TakeSuspends(s, o, ticks, due);
    }
  }

  lemma TakeSuspends(s: State, o: nat, ticks: nat, due: nat)
    requires Attempting(s, ticks, due) && o < |s.objects|
    requires s.objects[o].kind != QueueData && s.objects[o].count == 0 && ticks > 0
    requires !(s.objects[o].kind == Mutex && s.objects[o].owner == s.current)
    ensures Operable(s)
    ensures var r := TakeAttempt(s, o, ticks, due).0;
      Scheduled(s, r, None) && Parked(r, s.current.value, ListId(o, ReceiveSide), InTake(o, due), due)
  {
    hide BlockOn, SwitchContext, Scheduled, RecomputeInheritedPriority, Parked;
    CoreOperable(s, None);
    var semaphore := s.objects[o];
    assert ObjectShape(semaphore);
    var call := InTake(o, due);
    var l := ListId(o, ReceiveSide);
    var reason := CallReason(call, s.objects);
    BlockInv(s, l, reason, call, ticks);
    BlockScheduled(s, l, reason, call, ticks);
    if semaphore.kind == Mutex {
      var blocked := BlockOn(s, s.current.value, l, reason, call, ticks);
      RecomputeSwitchScheduled(blocked, semaphore.owner.value);
      ScheduledTransitive(s, blocked, TakeAttempt(s, o, ticks, due).0, None);
      BlockRecomputeParked(s, l, reason, call, ticks, semaphore.owner.value);
    } else {
      BlockParked(s, l, reason, call, ticks);
    }
  }

  lemma GiveEffect(s: State, o: nat)
    requires KernelInv(s) && o < |s.objects| && s.objects[o].kind != QueueData && Operable(s)
    ensures var (r, outcome) := if s.objects[o].kind == Mutex then GiveMutex(s, o) else GiveSemaphore(s, o);
      && Becomes(s, r, o, GivenBy(s.objects[o], s.current.value))
      && (outcome == Passed <==>
            if s.objects[o].kind == Mutex then s.objects[o].owner == s.current else s.objects[o].count < s.objects[o].maxCount)
      && (outcome != Passed ==> outcome == Refused && r == s)
  {
    hide UnblockOne, UnblockAndSwitch, Scheduled, RecomputeInheritedPriority, GiveMutex;
    assert ObjectShape(s.objects[o]);
    IdleScheduled(s);
    StaysScheduled(s, o);
    var obj := GivenBy(s.objects[o], s.current.value);
    if s.objects[o].kind == Mutex {
      GiveMutexEffect(s, o);
    } else if s.objects[o].count < s.objects[o].maxCount {
      ObjectInv(s, o, obj);
      UnblockAndSwitchScheduled(WithObject(s, o, obj), ListId(o, ReceiveSide));
    }
  }

  lemma GiveMutexEffect(s: State, o: nat)
    requires KernelInv(s) && o < |s.objects| && s.objects[o].kind == Mutex && Operable(s)
    ensures var (r, outcome) := GiveMutex(s, o);
      && outcome == (if s.objects[o].owner == s.current then Passed else Refused)
      && (outcome == Refused ==> r == s)
      && (outcome == Passed ==> Scheduled(AfterRelease(s, o), r, None))
  {
    hide UnblockOne, Scheduled, RecomputeInheritedPriority, YieldCurrent;
    if s.objects[o].owner == s.current {
      hide GiveMutex;
      GiveMutexShape(s, o);
      ObjectWakeInv(s, o, Released(s.objects[o]), ListId(o, ReceiveSide));
      var released := AfterRelease(s, o);
      UnblockScheduled(released, ListId(o, ReceiveSide));
      var woken := UnblockOne(released, ListId(o, ReceiveSide)).0;
      RecomputeScheduled(woken, s.current.value);
      RecomputeInv(woken, s.current.value);
      var restored := RecomputeInheritedPriority(woken, s.current.value);
      ScheduledTransitive(released, woken, restored, None);
      YieldScheduled(restored);
      ScheduledTransitive(released, restored, YieldCurrent(restored), None);
      GiveMutexPasses(s, o);
    }
  }

  lemma GiveMutexPasses(s: State, o: nat)
    requires Operable(s) && CurrentRuns(s) && o < |s.objects|
    requires s.objects[o].kind == Mutex && s.objects[o].owner == s.current
    ensures GiveMutex(s, o).1 == Passed
  {
  }

  lemma AbortEffect(s: State, t: nat)
    requires KernelInv(s) && t < |s.tasks|
    ensures var (r, outcome) := AbortDelay(s, t);
      && Scheduled(s, r, Some(t))
      && outcome == (if s.tasks[t].state == Blocked then Passed else Refused)
      && (outcome == Refused ==> r == s)
  {
    hide EndWait, YieldCurrent, Scheduled;
    if s.tasks[t].state == Blocked && t in s.delayed {
      EndWaitCore(s, t);
      EndWaitQuiet(s, t);
      QuietInv(s, EndWait(s, t));
      EndWaitScheduled(s, t);
      YieldScheduled(EndWait(s, t));
      ScheduledBut(EndWait(s, t), YieldCurrent(EndWait(s, t)), Some(t));
      ScheduledTransitive(s, EndWait(s, t), YieldCurrent(EndWait(s, t)), Some(t));
    } else {
      IdleScheduled(s);
      ScheduledBut(s, s, Some(t));
    }
  }

  /** The drain ends no wait before its deadline. */
  lemma {:induction false} WakeExpiredScheduled(s: State)
    requires Core(s, None)
    ensures Scheduled(s, WakeExpired(s), None)
    decreases |s.delayed|
  {
    hide EndWait, Scheduled;
    IdleScheduled(s);
    if s.delayed != [] && TickReached(s.tick, s.tasks[s.delayed[0]].wakeTick) {
      var head := s.delayed[0];
      assert head in s.delayed;
      SignedDifferenceExact(s.now, s.tasks[head].deadline);
      EndWaitCore(s, head);
      DueScheduled(s, head);
      WakeExpiredScheduled(EndWait(s, head));
      ScheduledTransitive(s, EndWait(s, head), WakeExpired(EndWait(s, head)), None);
    }
  }

  lemma DueScheduled(s: State, h: nat)
    requires Core(s, None) && h < |s.tasks| && s.tasks[h].state == Blocked && s.tasks[h].deadline <= s.now
    ensures Scheduled(s, EndWait(s, h), None)
  {
    hide EndWait;
    EndWaitQuiet(s, h);
    EndWaitStates(s, h);
    QuietScheduled(s, EndWait(s, h), None);
  }

  lemma TickEffect(s: State)
    requires KernelInv(s)
    ensures Scheduled(Advance(s), TickISR(s), None)
  {
    hide WakeExpired, YieldCurrent, Scheduled;
    AdvanceCore(s);
    TickShape(s);
    WakeExpiredScheduled(Advance(s));
    var woken := WakeExpired(Advance(s));
    YieldScheduled(woken);
    ScheduledTransitive(Advance(s), woken, YieldCurrent(woken), None);
  }

  lemma DelayScheduled(s: State, ticks: nat)
    requires Attempting(s, ticks, s.now + ticks)
    ensures Scheduled(s, DelayCurrent(s, ticks), None)
  {
    hide SwitchContext;
    if ticks == 0 {
      YieldScheduled(s);
    } else {
      var r := DelayParked(s, ticks);
      SwitchScheduled(r);
      ScheduledTransitive(s, r, SwitchContext(r), None);
    }
  }

  lemma ExitEffect(s: State)
    requires KernelInv(s) && s.current.value != s.idle && s.tasks[s.current.value].call.NoCall?
    ensures Scheduled(s, ExitTask(s), None)
    ensures ExitTask(s).tasks[s.current.value].state == Deleted
  {
    hide SwitchContext;
    ExitCore(s);
    var r := WithTask(s, s.current.value, s.tasks[s.current.value].(state := Deleted));
    SwitchScheduled(r);
    ScheduledTransitive(s, r, SwitchContext(r), None);
  }

  lemma ClearScheduled(s: State)
    requires KernelInv(s)
    ensures Scheduled(s, ClearWaitState(s, s.current.value), s.current)
  {
  }

  /** What the retry of a suspended call does to its object. */
  function Retried(s: State): (objects: seq<Object>)
    requires KernelInv(s)
  {
    var tcb := s.tasks[s.current.value];
    assert TcbSane(tcb, s.objects, s.now);
    if !tcb.waitResult then s.objects
    else
      match tcb.call
      case InSend(o, item, _) => assert ObjectShape(s.objects[o]); s.objects[o := Sent(s.objects[o], item)]
      case InReceive(o, _) => assert ObjectShape(s.objects[o]); s.objects[o := Taken(s.objects[o])]
      case InTake(o, _) => s.objects[o := TakenBy(s.objects[o], s.current.value)]
      case _ => s.objects
  }

  /** The objects after a step, whatever the scheduler does. */
  function ObjectsAfter(s: State, step: Step): (objects: seq<Object>)
    requires KernelInv(s) && Enabled(s, step)
  {
    match step
    case Send(o, item, _) =>
      assert ObjectShape(s.objects[o]);
      if s.objects[o].kind == QueueData then s.objects[o := Sent(s.objects[o], item)] else s.objects
    case Receive(o, _) =>
      assert ObjectShape(s.objects[o]);
      if s.objects[o].kind == QueueData then s.objects[o := Taken(s.objects[o])] else s.objects
    case Take(o, _) =>
      if s.objects[o].kind == QueueData then s.objects else s.objects[o := TakenBy(s.objects[o], s.current.value)]
    case Give(o) =>
      if s.objects[o].kind == QueueData then s.objects else s.objects[o := GivenBy(s.objects[o], s.current.value)]
    case Resume => Retried(s)
    case _ => s.objects
  }

  lemma ResumeEffect(s: State)
    requires KernelInv(s) && Enabled(s, Resume)
    ensures Operable(s)
    ensures var (r, outcome) := ResumeCall(s);
      && Scheduled(s.(objects := Retried(s)), r, s.current)
      && (outcome == Refused ==> r == ClearWaitState(s, s.current.value))
      && var tcb := s.tasks[s.current.value];
      && (CallList(tcb.call).Some? && !tcb.waitResult ==> outcome == Refused)
      && (outcome == Suspended ==>
            && CallList(tcb.call).Some? && tcb.waitResult && s.now < tcb.deadline
            && Parked(r, s.current.value, CallList(tcb.call).value, tcb.call, tcb.deadline))
  {
    hide SendAttempt, ReceiveAttempt, TakeAttempt, Scheduled, Parked;
    var t := s.current.value;
    var tcb := s.tasks[t];
    CoreOperable(s, None);
    ClearInv(s);
    ClearScheduled(s);
    IdleScheduled(s);
    var cleared := ClearWaitState(s, t);
    assert TcbSane(tcb, s.objects, s.now);
    if CallList(tcb.call).Some? && tcb.waitResult {
      RemainingExact(s, t);
      var remaining := WaitRemaining(s, t);
      assert Attempting(cleared, remaining, tcb.call.due);
      match tcb.call {
        case InSend(o, item, due) => SendEffect(cleared, o, item, remaining, due);
        case InReceive(o, due) => ReceiveEffect(cleared, o, remaining, due);
        case InTake(o, due) => TakeEffect(cleared, o, remaining, due);
        case _ =>
      }
      ClearedScheduled(s, ResumeCall(s).0);
    }
  }

  lemma ClearedScheduled(s: State, r: State)
    requires KernelInv(s) && Scheduled(ClearWaitState(s, s.current.value).(objects := Retried(s)), r, None)
    ensures Scheduled(s.(objects := Retried(s)), r, s.current)
  {
  }

  function ClockAfter(s: State, step: Step): nat {
    if step.Tick? then s.now + 1 else s.now
  }

  /** The task whose suspended call the step ends: aborted, or back from its wait. */
  function Interrupted(s: State, step: Step): Option<nat> {
    match step
    case Abort(t) => Some(t)
    case Resume => s.current
    case _ => None
  }

  lemma TickNext(s: State)
    requires KernelInv(s) && Enabled(s, Tick) && Operable(s)
    ensures Scheduled(s.(now := s.now + 1), Next(s, Tick), None)
  {
    TickEffect(s);
  }

  lemma PrioritySetScheduled(s: State, t: nat, p: Priority)
    requires InBounds(s) && t < |s.tasks|
    ensures Scheduled(s, PrioritySet(s, t, p), None)
  {
    hide PrioritySet;
    PrioritySetQuiet(s, t, p);
    PrioritySetStates(s, t, p);
    QuietScheduled(s, PrioritySet(s, t, p), None);
  }

  lemma PrioritySetStates(s: State, t: nat, p: Priority)
    requires InBounds(s) && t < |s.tasks|
    ensures var r := PrioritySet(s, t, p);
      forall u {:trigger r.tasks[u]} :: 0 <= u < |s.tasks| ==> r.tasks[u].state == s.tasks[u].state
  {
    var tcb := s.tasks[t].(basePriority := p);
    SetEffectivePriorityEffect(WithTask(s, t, tcb), t, Max(p, tcb.inheritedPriority));
  }

  /** Every step changes the objects as its own call says and nothing else about them,
      deleted tasks stay deleted, and suspended calls keep their deadlines and end only by
      their event, at their deadline, or by an abort. */
  lemma NextEffect(s: State, step: Step)
    requires KernelInv(s) && Enabled(s, step)
    ensures Operable(s)
    ensures Scheduled(s.(objects := ObjectsAfter(s, step), now := ClockAfter(s, step)), Next(s, step), Interrupted(s, step))
  {
    hide SendAttempt, ReceiveAttempt, TakeAttempt, GiveMutex, GiveSemaphore, DelayCurrent, AbortDelay, YieldCurrent,
      PrioritySet, ExitTask, ResumeCall, TickISR, Scheduled, Retried;
    CoreOperable(s, None);
    IdleScheduled(s);
    match step
    case Delay(ticks) => DelayScheduled(s, ticks);
    case Abort(t) => AbortEffect(s, t);
    case Yield => YieldScheduled(s);
    case SetPriority(t, p) => PrioritySetScheduled(s, t, p);
    case Exit => ExitEffect(s);
    case Resume => ResumeEffect(s);
    case Tick => TickNext(s);
    case Send(o, item, ticks) => if s.objects[o].kind == QueueData { SendEffect(s, o, item, ticks, s.now + ticks); }
    case Receive(o, ticks) => if s.objects[o].kind == QueueData { ReceiveEffect(s, o, ticks, s.now + ticks); }
    case Take(o, ticks) => if s.objects[o].kind != QueueData { TakeEffect(s, o, ticks, s.now + ticks); }
    case Give(o) => if s.objects[o].kind != QueueData { GiveEffect(s, o); }
  }
}
