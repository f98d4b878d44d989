/** kernel/queue.c: queues, semaphores and mutexes in place. Each method is one
    critical section of a call and the context switch that follows it. */
module SchedulerQueue {
  import opened Ticks
  import opened Lists
  import opened KernelState
  import TaskModel
  import QueueRing
  import QueueModel
  import opened Placement
  import opened CoreInvariant
  import Steps
  import Kernel
  import opened Objects
  import opened SchedulerObject
  import opened SchedulerStorage
  import opened SchedulerReady
  import opened SchedulerDelay
  import opened SchedulerEvent
  import opened SchedulerPriority
  import opened SchedulerSwitch
  import opened SchedulerWait

  /** The counters and the owner of a synchronisation object. */
  method WriteObject(
    s: Scheduler, target: SyncObject, head: nat, tail: nat, count: nat, owner: Task?, ghost values: seq<Object>, ghost value: Object)
    requires target.number < |s.objects| && s.objects[target.number] == target && s.ObjectsShown(values)
    requires forall o {:trigger s.objects[o]} :: 0 <= o < |s.objects| ==> s.objects[o].number == o
    requires var before := values[target.number];
      && value.kind == before.kind && value.length == before.length && value.itemSize == before.itemSize && value.maxCount == before.maxCount
      && value.head == head && value.tail == tail && value.count == count && owner == TaskOf(s.tasks, value.owner)
    modifies target`head, target`tail, target`count, target`owner
    ensures s.ObjectsShown(values[target.number := value])
  {
    target.head := head;
    target.tail := tail;
    target.count := count;
    target.owner := owner;
  }

  method SetObject(s: Scheduler, target: SyncObject, head: nat, tail: nat, count: nat, owner: Task?, ghost o: nat, ghost value: Object)
    requires s.Valid() && o < |s.objects| && s.objects[o] == target && o < |s.model.objects|
    requires var before := s.model.objects[o];
      && value.kind == before.kind && value.length == before.length && value.itemSize == before.itemSize && value.maxCount == before.maxCount
      && value.head == head && value.tail == tail && value.count == count && owner == TaskOf(s.tasks, value.owner)
    requires value.owner.Some? ==> value.owner.value < |s.tasks|
    modifies s`model, target`head, target`tail, target`count, target`owner
    ensures s.Valid() && o < |old(s.model).objects| && s.model == TaskModel.WithObject(old(s.model), o, value)
  {
    hide Scheduler.TasksShown, Scheduler.ReadyThreaded, Scheduler.DelayThreaded, Scheduler.EventsThreaded,
      Scheduler.ObjectsShown, Scheduler.RegistryThreaded, Priorities, EventLists, InBounds;
    ghost var m := s.model;
    ValidInBounds(s);
    ListsApart(s);
    ObjectInBounds(m, o, value);
    WriteObject(s, target, head, tail, count, owner, m.objects, value);
    s.model := TaskModel.WithObject(m, o, value);
  }

  lemma ObjectInBounds(m: State, o: nat, value: Object)
    requires InBounds(m) && o < |m.objects| && (value.owner.Some? ==> value.owner.value < |m.tasks|)
    ensures InBounds(TaskModel.WithObject(m, o, value))
  {
  }

  /** The counters of an object, as its fields show them. */
  lemma ObjectAt(s: Scheduler, o: nat)
    requires s.Valid() && o < |s.objects|
    ensures o < |s.model.objects| && s.ObjectShown(s.objects[o], s.model.objects[o])
    ensures ListId(o, SendSide) in s.model.waiters && ListId(o, ReceiveSide) in s.model.waiters
    ensures s.model.objects[o].owner.Some? ==> s.model.objects[o].owner.value < |s.tasks|
  {
  }

  lemma ObjectPlaced(m: State, o: nat, value: Object)
    requires Placed(m, None) && o < |m.objects| && (value.owner.Some? ==> value.owner.value < |m.tasks|)
    ensures Placed(TaskModel.WithObject(m, o, value), None)
  {
  }

  /** Wakes one waiter and, having left the critical section, yields to it if asked. */
  method UnblockAndSwitch(s: Scheduler, list: List, ghost l: ListId)
    requires s.Valid() && Placed(s.model, None) && l in s.model.waiters
    requires list == ListOf(s.objects, l) && s.current != null
    modifies s`model, s`current, s.tasks, s.WaiterLists(), s.delayedList, s.readyLists
    ensures s.Valid() && InBounds(old(s.model)) && old(s.model).current.Some? && l in old(s.model).waiters
    ensures QueueModel.Linked(old(s.model).tasks, old(s.model).waiters)
    ensures s.model == QueueModel.UnblockAndSwitch(old(s.model), l)
  {
    hide Scheduler.Valid, Scheduler.Shape, InBounds, Placed, TaskModel.UnblockOne, TaskModel.YieldCurrent;
    ghost var m := s.model;
    ValidInBounds(s);
    CurrentShown(s);
    UnblockOnePlaced(m, l);
    UnblockOutranks(m, l);
    var preempts := UnblockOne(s, list, l);
    if preempts {
      CurrentShown(s);
      FlagsShow(s, s.current, None);
      YieldCurrent(s);
    }
  }

  /** A switch is asked for only while the current task runs. */
  lemma UnblockOutranks(m: State, l: ListId)
    requires InBounds(m) && l in m.waiters && QueueModel.Linked(m.tasks, m.waiters)
    ensures TaskModel.UnblockOne(m, l).1 ==> TaskModel.CurrentRunning(TaskModel.UnblockOne(m, l).0)
  {
  }

  /** The caller of a kernel call, between two steps. */
  ghost predicate Calling(s: Scheduler)
    reads s, s.tasks, s.readyLists, s.delayedList, s.objects, s.WaiterLists(), Storages(s)
  {
    s.Valid() && Steps.KernelInv(s.model) && StorageShown(s, s.model.objects)
  }

  /** What a call may rely on when it starts. */
  lemma CallerRuns(s: Scheduler)
    requires s.Valid() && Steps.KernelInv(s.model)
    ensures Placed(s.model, None) && QueueModel.Operable(s.model) && s.model.current.Some?
    ensures s.current != null && s.Knows(s.current) && s.current.state == Running
    ensures s.model.current == Some(s.current.number)
    ensures s.current.number < |s.model.tasks| && s.model.tasks[s.current.number].state == Running
  {
    CoreOperable(s.model, None);
    CurrentShown(s);
    FlagsShow(s, s.current, None);
  }

  /** A queue and its value. */
  lemma QueueAt(s: Scheduler, o: nat)
    requires s.Valid() && Steps.KernelInv(s.model) && o < |s.objects|
    ensures o < |s.model.objects| && QueueModel.ObjectShape(s.model.objects[o])
  {
    ObjectAt(s, o);
  }

  /** Scheduling touches no object. */
  lemma SwitchObjects(m: State)
    requires InBounds(m)
    ensures TaskModel.SwitchContext(m).objects == m.objects
  {
  }

  lemma UnblockObjects(m: State, l: ListId)
    requires InBounds(m) && l in m.waiters && QueueModel.Linked(m.tasks, m.waiters)
    ensures TaskModel.UnblockOne(m, l).0.objects == m.objects
  {
  }

  lemma UnblockAndSwitchObjects(m: State, l: ListId)
    requires InBounds(m) && l in m.waiters && QueueModel.Linked(m.tasks, m.waiters) && m.current.Some?
    ensures QueueModel.UnblockAndSwitch(m, l).objects == m.objects
  {
    hide TaskModel.UnblockOne, TaskModel.SwitchContext;
    UnblockObjects(m, l);
    var woken := TaskModel.UnblockOne(m, l).0;
    var t := woken.current.value;
    SwitchObjects(TaskModel.ReadyListInsert(TaskModel.WithTask(woken, t, woken.tasks[t].(state := Ready)), t));
  }

  lemma BlockObjects(m: State, t: nat, l: ListId, reason: WaitReason, call: Call, ticks: nat)
    requires InBounds(m) && t < |m.tasks| && l in m.waiters && (call.NoCall? || call.InDelay? || call.obj < |m.objects|)
    ensures var r := TaskModel.BlockOn(m, t, l, reason, call, ticks); InBounds(r) && r.objects == m.objects
  {
    var k, d := BlockOnEffect(m, t, l, reason, call, ticks);
  }

  /** An attempt of xQueueSend. */
  method SendAttempt(s: Scheduler, queue: SyncObject, item: seq<Byte>, ticks: nat, ghost o: nat, ghost due: nat)
    returns (outcome: QueueModel.Outcome)
    requires Calling(s) && o < |s.objects| && queue == s.objects[o]
    requires queue.kind == QueueData && |item| == queue.itemSize && ticks < INT32_MAX
    modifies s`model, s`current, s.tasks, s.WaiterLists(), s.delayedList, s.readyLists
    modifies queue`head, queue`tail, queue`count, queue`owner, queue.storage
    ensures s.Valid() && StorageShown(s, s.model.objects)
    ensures QueueModel.Operable(old(s.model)) && old(s.model).current.Some? && o < |old(s.model).objects|
    ensures old(s.model).objects[o].kind == QueueData && |item| == old(s.model).objects[o].itemSize
    ensures (s.model, outcome) == QueueModel.SendAttempt(old(s.model), o, item, ticks, due)
  {
    hide Scheduler.Valid, Scheduler.Shape, InBounds, Placed, Steps.KernelInv, QueueModel.Operable,
      QueueModel.UnblockAndSwitch, TaskModel.BlockOn, TaskModel.SwitchContext;
    ghost var m := s.model;
    CallerRuns(s);
    ValidInBounds(s);
    ObjectAt(s, o);
    QueueAt(s, o);
    if queue.count < queue.length {
      ghost var value := QueueRing.CopyIn(m.objects[o], item);
      StoreItem(s, queue, item, o);
      ObjectPlaced(m, o, value);
      ghost var stored := s.model;
      UnblockAndSwitch(s, queue.receiveWaiters, ListId(o, ReceiveSide));
      UnblockAndSwitchObjects(stored, ListId(o, ReceiveSide));
      outcome := QueueModel.Passed;
    } else if ticks == 0 {
      outcome := QueueModel.Refused;
    } else {
      BlockObjects(m, m.current.value, ListId(o, SendSide), WaitQueueSend, InSend(o, item, due), ticks);
      SwitchObjects(TaskModel.BlockOn(m, m.current.value, ListId(o, SendSide), WaitQueueSend, InSend(o, item, due), ticks));
      BlockCurrent(s, queue.sendWaiters, queue, WaitQueueSend, ticks, ListId(o, SendSide), InSend(o, item, due));
      SwitchContext(s);
      outcome := QueueModel.Suspended;
    }
  }

  /** Copies the item into the slot at `head`. */
  method StoreItem(s: Scheduler, queue: SyncObject, item: seq<Byte>, ghost o: nat)
    requires s.Valid() && StorageShown(s, s.model.objects) && o < |s.objects|
    requires queue == s.objects[o] && o < |s.model.objects|
    requires queue.kind == QueueData && |item| == queue.itemSize
    requires QueueRing.RingShape(s.model.objects[o]) && s.model.objects[o].count < s.model.objects[o].length
    modifies s`model, queue`head, queue`tail, queue`count, queue`owner, queue.storage
    ensures s.Valid() && o < |old(s.model).objects| && StorageShown(s, s.model.objects)
    ensures s.model == TaskModel.WithObject(old(s.model), o, QueueRing.CopyIn(old(s.model).objects[o], item))
  {
    hide Scheduler.Shape, Scheduler.TasksShown, Scheduler.EventsThreaded, Scheduler.OutsideEvents, InBounds,
      SlotsShown;
    ghost var m, value := s.model, QueueRing.CopyIn(s.model.objects[o], item);
    ListsApart(s);
    ObjectAt(s, o);
    StoragesApart(s, o);
    WriteSlot(queue, queue.head, item, m.objects[o]);
    SlotsAfter(queue, m.objects[o].(slots := m.objects[o].slots[queue.head := item]), value);
    SetObject(s, queue, (queue.head + 1) % queue.length, queue.tail, queue.count + 1, queue.owner, o, value);
  }

  lemma StoragesApart(s: Scheduler, o: nat)
    requires StorageShown(s, s.model.objects) && o < |s.objects|
    ensures forall a {:trigger s.objects[a]} :: 0 <= a < |s.objects| && a != o ==> s.objects[a].storage != s.objects[o].storage
    ensures SlotsShown(s.objects[o], s.model.objects[o])
  {
  }

  /** Only the slots of a value matter to its storage. */
  lemma SlotsAfter(target: SyncObject, a: Object, b: Object)
    requires SlotsShown(target, a) && a.slots == b.slots
    ensures SlotsShown(target, b)
  {
  }

  /** Advances `tail` past the slot that was copied out. */
  method AdvanceTail(s: Scheduler, queue: SyncObject, ghost o: nat)
    requires s.Valid() && StorageShown(s, s.model.objects) && o < |s.objects|
    requires queue == s.objects[o] && o < |s.model.objects|
    requires queue.kind == QueueData && QueueRing.RingShape(s.model.objects[o]) && s.model.objects[o].count > 0
    modifies s`model, queue`head, queue`tail, queue`count, queue`owner
    ensures s.Valid() && o < |old(s.model).objects| && StorageShown(s, s.model.objects)
    ensures s.model == TaskModel.WithObject(old(s.model), o, QueueRing.CopyOut(old(s.model).objects[o]))
  {
    hide Scheduler.Shape, Scheduler.TasksShown, Scheduler.EventsThreaded, Scheduler.OutsideEvents, InBounds,
      SlotsShown;
    ghost var m, value := s.model, QueueRing.CopyOut(s.model.objects[o]);
    ListsApart(s);
    ObjectAt(s, o);
    StoragesApart(s, o);
    SlotsAfter(queue, m.objects[o], value);
    SetObject(s, queue, queue.head, (queue.tail + 1) % queue.length, queue.count - 1, queue.owner, o, value);
  }

  /** An attempt of xQueueReceive; the received item is part of the outcome. */
  method ReceiveAttempt(s: Scheduler, queue: SyncObject, ticks: nat, ghost o: nat, ghost due: nat)
    returns (outcome: QueueModel.Outcome)
    requires Calling(s) && o < |s.objects| && queue == s.objects[o] && queue.kind == QueueData && ticks < INT32_MAX
    modifies s`model, s`current, s.tasks, s.WaiterLists(), s.delayedList, s.readyLists
    modifies queue`head, queue`tail, queue`count, queue`owner
    ensures s.Valid() && StorageShown(s, s.model.objects)
    ensures QueueModel.Operable(old(s.model)) && old(s.model).current.Some? && o < |old(s.model).objects|
    ensures old(s.model).objects[o].kind == QueueData
    ensures (s.model, outcome) == QueueModel.ReceiveAttempt(old(s.model), o, ticks, due)
  {
    hide Scheduler.Valid, Scheduler.Shape, InBounds, Placed, Steps.KernelInv, QueueModel.Operable,
      QueueModel.UnblockAndSwitch, TaskModel.BlockOn, TaskModel.SwitchContext;
    ghost var m := s.model;
    CallerRuns(s);
    ValidInBounds(s);
    ObjectAt(s, o);
    QueueAt(s, o);
    if queue.count > 0 {
      ghost var value := QueueRing.CopyOut(m.objects[o]);
      var item := ReadSlot(queue, queue.tail, m.objects[o]);
      AdvanceTail(s, queue, o);
      ObjectPlaced(m, o, value);
      ghost var taken := s.model;
      UnblockAndSwitch(s, queue.sendWaiters, ListId(o, SendSide));
      UnblockAndSwitchObjects(taken, ListId(o, SendSide));
      outcome := QueueModel.Received(item);
    } else if ticks == 0 {
      outcome := QueueModel.Refused;
    } else {
      BlockObjects(m, m.current.value, ListId(o, ReceiveSide), WaitQueueReceive, InReceive(o, due), ticks);
      SwitchObjects(TaskModel.BlockOn(m, m.current.value, ListId(o, ReceiveSide), WaitQueueReceive, InReceive(o, due), ticks));
      BlockCurrent(s, queue.receiveWaiters, queue, WaitQueueReceive, ticks, ListId(o, ReceiveSide), InReceive(o, due));
      SwitchContext(s);
      outcome := QueueModel.Suspended;
    }
  }

  /** Changes the token count and the owner of a semaphore or mutex. */
  method SetToken(s: Scheduler, semaphore: SyncObject, count: nat, owner: Task?, ghost o: nat, ghost value: Object)
    requires s.Valid() && StorageShown(s, s.model.objects) && o < |s.objects|
    requires semaphore == s.objects[o] && o < |s.model.objects|
    requires semaphore.kind != QueueData && owner == TaskOf(s.tasks, value.owner)
    requires value == s.model.objects[o].(count := count, owner := value.owner) && (value.owner.Some? ==> value.owner.value < |s.tasks|)
    modifies s`model, semaphore`head, semaphore`tail, semaphore`count, semaphore`owner
    ensures s.Valid() && o < |old(s.model).objects| && StorageShown(s, s.model.objects)
    ensures s.model == TaskModel.WithObject(old(s.model), o, value)
  {
    hide Scheduler.Shape, Scheduler.TasksShown, Scheduler.EventsThreaded, Scheduler.OutsideEvents, InBounds,
      SlotsShown;
    ghost var m := s.model;
    ListsApart(s);
    ObjectAt(s, o);
    StoragesApart(s, o);
    SlotsAfter(semaphore, m.objects[o], value);
    SetObject(s, semaphore, semaphore.head, semaphore.tail, count, owner, o, value);
  }

  lemma RecomputeObjects(m: State, t: nat)
    requires InBounds(m) && t < |m.tasks|
    ensures QueueModel.RecomputeInheritedPriority(m, t).objects == m.objects
  {
  }

  /** An attempt of xSemaphoreTake. */
  method TakeAttempt(s: Scheduler, semaphore: SyncObject, ticks: nat, ghost o: nat, ghost due: nat)
    returns (outcome: QueueModel.Outcome)
    requires Calling(s) && o < |s.objects| && semaphore == s.objects[o] && semaphore.kind != QueueData && ticks < INT32_MAX
    modifies s`model, s`current, s.tasks, s.WaiterLists(), s.delayedList, s.readyLists
    modifies semaphore`head, semaphore`tail, semaphore`count, semaphore`owner
    ensures s.Valid() && StorageShown(s, s.model.objects)
    ensures QueueModel.Operable(old(s.model)) && old(s.model).current.Some? && o < |old(s.model).objects|
    ensures old(s.model).objects[o].kind != QueueData
    ensures (s.model, outcome) == QueueModel.TakeAttempt(old(s.model), o, ticks, due)
  {
    hide Scheduler.Valid, Scheduler.Shape, InBounds, Placed, Steps.KernelInv, QueueModel.Operable,
      QueueModel.RecomputeInheritedPriority, TaskModel.BlockOn, TaskModel.SwitchContext;
    ghost var m := s.model;
    CallerRuns(s);
    ValidInBounds(s);
    ObjectAt(s, o);
    OwnerAt(s, o);
    QueueAt(s, o);
    assert semaphore.kind == Mutex ==>
      (semaphore.count == 0 && semaphore.owner != null) || (semaphore.count == 1 && semaphore.owner == null);
    if semaphore.kind == Mutex && semaphore.owner == s.current { return QueueModel.Refused; }
    if semaphore.count > 0 {
      var owner := if semaphore.kind == Mutex then s.current else semaphore.owner;
      SetToken(s, semaphore, semaphore.count - 1, owner, o, QueueModel.TokenTaken(m.objects[o], m.current.value));
      return QueueModel.Passed;
    }
    if ticks == 0 { return QueueModel.Refused; }
    var owner := semaphore.owner;
    var reason := if semaphore.kind == Mutex then WaitMutexTake else WaitSemaphoreTake;
    ghost var c, l, call := m.current.value, ListId(o, ReceiveSide), InTake(o, due);
    BlockObjects(m, c, l, reason, call, ticks);
    BlockOnPlaced(m, c, l, reason, call, ticks);
    BlockCurrent(s, semaphore.receiveWaiters, semaphore, reason, ticks, l, call);
    ghost var blocked := s.model;
    if semaphore.kind == Mutex && owner != null {
      RecomputeObjects(blocked, owner.number);
      RecomputeInheritedPriority(s, owner, None);
    }
    SwitchObjects(s.model);
    SwitchContext(s);
    outcome := QueueModel.Suspended;
  }

  /** The owner of an object is the task its value names. */
  lemma OwnerAt(s: Scheduler, o: nat)
    requires s.Valid() && o < |s.objects| && s.current != null
    ensures o < |s.model.objects| && s.model.current == Some(s.current.number)
    ensures s.objects[o].owner == s.current <==> s.model.objects[o].owner == s.model.current
    ensures s.objects[o].owner == null <==> s.model.objects[o].owner.None?
    ensures s.objects[o].owner != null ==>
      s.Knows(s.objects[o].owner) && s.model.objects[o].owner == Some(s.objects[o].owner.number)
  {
    ObjectAt(s, o);
    CurrentShown(s);
  }

  /** xSemaphoreGive of a semaphore, and the switch after it. */
  method GiveSemaphore(s: Scheduler, semaphore: SyncObject, ghost o: nat) returns (outcome: QueueModel.Outcome)
    requires Calling(s) && o < |s.objects| && semaphore == s.objects[o]
    requires semaphore.kind != QueueData && semaphore.kind != Mutex
    modifies s`model, s`current, s.tasks, s.WaiterLists(), s.delayedList, s.readyLists
    modifies semaphore`head, semaphore`tail, semaphore`count, semaphore`owner
    ensures s.Valid() && StorageShown(s, s.model.objects)
    ensures QueueModel.Operable(old(s.model)) && old(s.model).current.Some? && o < |old(s.model).objects|
    ensures (s.model, outcome) == QueueModel.GiveSemaphore(old(s.model), o)
  {
    hide Scheduler.Valid, Scheduler.Shape, InBounds, Placed, Steps.KernelInv, QueueModel.Operable,
      QueueModel.UnblockAndSwitch;
    ghost var m := s.model;
    CallerRuns(s);
    ValidInBounds(s);
    ObjectAt(s, o);
    OwnerAt(s, o);
    if semaphore.count >= semaphore.maxCount { return QueueModel.Refused; }
    ghost var value := QueueModel.TokenGiven(m.objects[o]);
    SetToken(s, semaphore, semaphore.count + 1, semaphore.owner, o, value);
    ObjectPlaced(m, o, value);
    ghost var given := s.model;
    UnblockAndSwitch(s, semaphore.receiveWaiters, ListId(o, ReceiveSide));
    UnblockAndSwitchObjects(given, ListId(o, ReceiveSide));
    outcome := QueueModel.Passed;
  }

  /** xSemaphoreGive of a mutex, and the switch after it. */
  method GiveMutex(s: Scheduler, mutex: SyncObject, ghost o: nat) returns (outcome: QueueModel.Outcome)
    requires Calling(s) && o < |s.objects| && mutex == s.objects[o] && mutex.kind == Mutex
    modifies s`model, s`current, s.tasks, s.WaiterLists(), s.delayedList, s.readyLists
    modifies mutex`head, mutex`tail, mutex`count, mutex`owner
    ensures s.Valid() && StorageShown(s, s.model.objects)
    ensures QueueModel.Operable(old(s.model)) && old(s.model).current.Some? && o < |old(s.model).objects|
    ensures old(s.model).objects[o].kind == Mutex
    ensures (s.model, outcome) == QueueModel.GiveMutex(old(s.model), o)
  {
    hide Scheduler.Valid, Scheduler.Shape, InBounds, Placed, Steps.KernelInv, QueueModel.Operable,
      TaskModel.UnblockOne, QueueModel.RecomputeInheritedPriority, TaskModel.YieldCurrent;
    ghost var m, l := s.model, ListId(o, ReceiveSide);
    CallerRuns(s);
    ValidInBounds(s);
    ObjectAt(s, o);
    OwnerAt(s, o);
    QueueAt(s, o);
    assert (mutex.count == 0 && mutex.owner != null) || (mutex.count == 1 && mutex.owner == null);
    var current := s.current;
    if mutex.owner != current { return QueueModel.Refused; }
    ghost var value := QueueModel.Released(m.objects[o]);
    ObjectPlaced(m, o, value);
    SetToken(s, mutex, 1, null, o, value);
    ghost var released := s.model;
    WaitHead(s, l);
    UnblockOnePlaced(released, l);
    UnblockKeepsCurrent(released, l);
    var waiter := mutex.receiveWaiters.head;
    if waiter != null {
      var ignored := UnblockOne(s, mutex.receiveWaiters, l);
    } else {
      NothingToUnblock(released, l);
    }
    UnblockObjects(released, l);
    RestoreGiver(s, current, waiter);
    outcome := QueueModel.Passed;
  }

  /** The giver falls back to what its other mutexes call for, and yields to the woken
      waiter if that is now stronger. */
  method RestoreGiver(s: Scheduler, current: Task, waiter: Task?)
    requires s.Valid() && Placed(s.model, None) && s.current == current && s.Knows(current) && (waiter != null ==> s.Knows(waiter))
    requires current.number < |s.model.tasks| && s.model.current == Some(current.number)
    requires s.model.tasks[current.number].state == Running
    modifies s`model, s`current, s.tasks, s.WaiterLists(), s.readyLists
    ensures s.Valid() && InBounds(old(s.model)) && s.model.objects == old(s.model).objects
    ensures var restored := QueueModel.RecomputeInheritedPriority(old(s.model), current.number);
      && (waiter != null ==> waiter.number < |restored.tasks|)
      && s.model == if waiter != null && restored.tasks[waiter.number].priority > restored.tasks[current.number].priority
                    then TaskModel.YieldCurrent(restored) else restored
  {
    hide Scheduler.Valid, Scheduler.Shape, InBounds, Placed, QueueModel.RecomputeInheritedPriority,
      TaskModel.YieldCurrent;
    ghost var woken := s.model;
    ValidInBounds(s);
    RecomputePlaced(woken, current.number, None);
    RecomputeStates(woken, current.number);
    RecomputeObjects(woken, current.number);
    RecomputeInheritedPriority(s, current, None);
    PrioritiesShown(s, waiter, current);
    if waiter != null && waiter.priority > current.priority {
      CurrentShown(s);
      FlagsShow(s, s.current, None);
      YieldObjects(s.model);
      YieldCurrent(s);
    }
  }

  lemma NothingToUnblock(m: State, l: ListId)
    requires InBounds(m) && l in m.waiters && QueueModel.Linked(m.tasks, m.waiters) && m.waiters[l] == []
    ensures TaskModel.UnblockOne(m, l).0 == m
  {
  }

  lemma UnblockKeepsCurrent(m: State, l: ListId)
    requires Placed(m, None) && l in m.waiters && QueueModel.Linked(m.tasks, m.waiters) && m.current.Some?
    requires m.tasks[m.current.value].state == Running
    ensures var r := TaskModel.UnblockOne(m, l).0;
      r.current == m.current && |r.tasks| == |m.tasks| && r.tasks[m.current.value].state == Running
  {
    if m.waiters[l] != [] {
      var t := m.waiters[l][0];
      assert t in m.waiters[l];
    }
  }

  lemma YieldObjects(m: State)
    requires InBounds(m) && m.current.Some?
    ensures TaskModel.YieldCurrent(m).objects == m.objects
  {
    hide TaskModel.SwitchContext;
    var t := m.current.value;
    SwitchObjects(TaskModel.ReadyListInsert(TaskModel.WithTask(m, t, m.tasks[t].(state := Ready)), t));
  }

  lemma PrioritiesShown(s: Scheduler, a: Task?, b: Task)
    requires s.Valid() && s.Knows(b) && (a != null ==> s.Knows(a))
    ensures b.number < |s.model.tasks| && b.priority == s.model.tasks[b.number].priority
    ensures a != null ==> a.number < |s.model.tasks| && a.priority == s.model.tasks[a.number].priority
  {
    TaskShown(s, b);
    ShownFields(b, s.model.tasks[b.number], s.objects);
    if a != null {
      TaskShown(s, a);
      ShownFields(a, s.model.tasks[a.number], s.objects);
    }
  }

  // ---------- the way back into a call ----------

  /** The current task returns from its wait: the objects are as they were. */
  lemma ClearedCalling(m: State)
    requires Steps.KernelInv(m)
    ensures var r := TaskModel.ClearWaitState(m, m.current.value);
      Steps.KernelInv(r) && r.objects == m.objects && r.current == m.current
  {
    Steps.ClearInv(m);
  }

  /** A woken caller has less than the longest timeout left. */
  lemma RemainingShort(m: State)
    requires Steps.KernelInv(m) && Kernel.Enabled(m, Kernel.Resume)
    ensures m.tasks[m.current.value].waitResult ==> TaskModel.WaitRemaining(m, m.current.value) < INT32_MAX
  {
    assert TcbSane(m.tasks[m.current.value], m.objects, m.now);
    if m.tasks[m.current.value].waitResult { Steps.RemainingExact(m, m.current.value); }
  }

  /** Reads the result and the remaining ticks, and clears the wait. */
  method LeaveWait(s: Scheduler) returns (woken: bool, remaining: Tick)
    requires Calling(s) && Kernel.Enabled(s.model, Kernel.Resume)
    modifies s`model, s.tasks
    ensures Calling(s) && s.current == old(s.current)
    ensures Steps.KernelInv(old(s.model)) && old(s.model).current.Some?
    ensures var t := old(s.model).current.value;
      && woken == old(s.model).tasks[t].waitResult && remaining == TaskModel.WaitRemaining(old(s.model), t)
      && s.model == TaskModel.ClearWaitState(old(s.model), t)
    ensures woken ==> remaining < INT32_MAX
  {
    hide Scheduler.TasksShown, Scheduler.EventsThreaded, Scheduler.OutsideEvents, InBounds, Placed, Steps.KernelInv,
      QueueModel.Operable, TaskModel.WaitRemaining, TaskModel.ClearWaitState;
    CallerRuns(s);
    ListsApart(s);
    ValidInBounds(s);
    FlagsShow(s, s.current, None);
    ShownResult(s, s.current);
    RemainingShort(s.model);
    ClearedCalling(s.model);
    woken := s.current.waitResult;
    remaining := WaitRemaining(s, s.current);
    ClearWaitState(s, s.current);
  }

  method ResumeSend(s: Scheduler, queue: SyncObject, item: seq<Byte>, ghost o: nat, ghost due: nat)
    returns (outcome: QueueModel.Outcome)
    requires Calling(s) && o < |s.objects| && queue == s.objects[o]
    requires queue.kind == QueueData && |item| == queue.itemSize
    requires Kernel.Enabled(s.model, Kernel.Resume) && s.model.tasks[s.model.current.value].call == InSend(o, item, due)
    modifies s`model, s`current, s.tasks, s.WaiterLists(), s.delayedList, s.readyLists
    modifies queue`head, queue`tail, queue`count, queue`owner, queue.storage
    ensures s.Valid() && StorageShown(s, s.model.objects)
    ensures QueueModel.Operable(old(s.model)) && old(s.model).current.Some?
    ensures (s.model, outcome) == Kernel.ResumeCall(old(s.model))
  {
    hide Scheduler.Valid, InBounds, Steps.KernelInv, QueueModel.Operable, TaskModel.WaitRemaining,
      TaskModel.ClearWaitState, QueueModel.SendAttempt;
    CallerRuns(s);
    var woken, remaining := LeaveWait(s);
    if woken { outcome := SendAttempt(s, queue, item, remaining, o, due); } else { outcome := QueueModel.Refused; }
  }

  method ResumeReceive(s: Scheduler, queue: SyncObject, ghost o: nat, ghost due: nat) returns (outcome: QueueModel.Outcome)
    requires Calling(s) && o < |s.objects| && queue == s.objects[o] && queue.kind == QueueData
    requires Kernel.Enabled(s.model, Kernel.Resume) && s.model.tasks[s.model.current.value].call == InReceive(o, due)
    modifies s`model, s`current, s.tasks, s.WaiterLists(), s.delayedList, s.readyLists
    modifies queue`head, queue`tail, queue`count, queue`owner
    ensures s.Valid() && StorageShown(s, s.model.objects)
    ensures QueueModel.Operable(old(s.model)) && old(s.model).current.Some?
    ensures (s.model, outcome) == Kernel.ResumeCall(old(s.model))
  {
    hide Scheduler.Valid, InBounds, Steps.KernelInv, QueueModel.Operable, TaskModel.WaitRemaining,
      TaskModel.ClearWaitState, QueueModel.ReceiveAttempt;
    CallerRuns(s);
    var woken, remaining := LeaveWait(s);
    if woken { outcome := ReceiveAttempt(s, queue, remaining, o, due); } else { outcome := QueueModel.Refused; }
  }

  method ResumeTake(s: Scheduler, semaphore: SyncObject, ghost o: nat, ghost due: nat) returns (outcome: QueueModel.Outcome)
    requires Calling(s) && o < |s.objects| && semaphore == s.objects[o] && semaphore.kind != QueueData
    requires Kernel.Enabled(s.model, Kernel.Resume) && s.model.tasks[s.model.current.value].call == InTake(o, due)
    modifies s`model, s`current, s.tasks, s.WaiterLists(), s.delayedList, s.readyLists
    modifies semaphore`head, semaphore`tail, semaphore`count, semaphore`owner
    ensures s.Valid() && StorageShown(s, s.model.objects)
    ensures QueueModel.Operable(old(s.model)) && old(s.model).current.Some?
    ensures (s.model, outcome) == Kernel.ResumeCall(old(s.model))
  {
    hide Scheduler.Valid, InBounds, Steps.KernelInv, QueueModel.Operable, TaskModel.WaitRemaining,
      TaskModel.ClearWaitState, QueueModel.TakeAttempt;
    CallerRuns(s);
    var woken, remaining := LeaveWait(s);
    if woken { outcome := TakeAttempt(s, semaphore, remaining, o, due); } else { outcome := QueueModel.Refused; }
  }
}
