/** kernel/tasks.c: blocking, waking, timeouts, aborts and the tick in place. */
module SchedulerWait {
  import opened Ticks
  import opened Lists
  import opened KernelState
  import TaskModel
  import QueueModel
  import Kernel
  import opened Placement
  import opened Objects
  import opened SchedulerObject
  import opened SchedulerReady
  import opened SchedulerDelay
  import opened SchedulerEvent
  import opened SchedulerPriority
  import opened SchedulerSwitch

  /** xTaskGetWaitRemaining. */
  method WaitRemaining(s: Scheduler, task: Task) returns (remaining: Tick)
    requires s.Valid() && s.Knows(task)
    ensures task.number < |s.model.tasks| && remaining == TaskModel.WaitRemaining(s.model, task.number)
  {
    TaskShown(s, task);
    ShownFields(task, s.model.tasks[task.number], s.objects);
    if !task.waitHasTimeout || !TickBefore(s.tick, task.wakeTick) { return 0; }
    remaining := UnsignedDifference(task.wakeTick, s.tick);
  }

  /** vTaskClearWaitState. */
  method ClearWaitState(s: Scheduler, task: Task)
    requires s.Valid() && s.Knows(task) && task.eventList == null && !task.inDelayList
    modifies s`model, s.tasks
    ensures s.Valid() && InBounds(old(s.model)) && task.number < |old(s.model).tasks|
    ensures s.model == TaskModel.ClearWaitState(old(s.model), task.number)
  {
    hide Scheduler.Valid, Scheduler.Shape, InBounds;
    ghost var m := s.model;
    ValidInBounds(s);
    TaskShown(s, task);
    ShownFields(task, m.tasks[task.number], s.objects);
    SetWaitFields(s, task, task.state, 0, null, WaitNone, false, false, None, NoCall, m.tasks[task.number].deadline);
  }

  /** vTaskBlockCurrent. */
  method BlockCurrent(s: Scheduler, list: List, waitObject: SyncObject, reason: WaitReason, ticks: nat, ghost l: ListId, ghost call: Call)
    requires s.Valid() && Placed(s.model, None) && s.current != null && s.current.state == Running
    requires l in s.model.waiters && list == ListOf(s.objects, l)
    requires l.obj < |s.objects| && waitObject == s.objects[l.obj]
    requires call.NoCall? || call.InDelay? || call.obj < |s.objects|
    requires 0 < ticks < INT32_MAX
    modifies s`model, s.tasks, s.WaiterLists(), s.delayedList
    ensures s.Valid() && InBounds(old(s.model)) && old(s.model).current.Some?
    ensures s.model == TaskModel.BlockOn(old(s.model), old(s.model).current.value, l, reason, call, ticks)
  {
    hide Scheduler.Valid, Scheduler.Shape, InBounds, Placed, TaskModel.EventListInsert, TaskModel.DelayListInsert;
    ghost var m := s.model;
    var task := s.current;
    ValidInBounds(s);
    CurrentShown(s);
    FlagsShow(s, task, None);
    TickShown(s);
    assert task.eventList == null && !task.inDelayList;
    SetWaitFields(s, task, Blocked, Wrap(s.tick + ticks), waitObject, reason, false, true, Some(l.obj), call, m.now + ticks);
    EventListInsert(s, list, task, l);
    DelayListInsert(s, task);
  }

  lemma TickShown(s: Scheduler)
    requires s.Valid()
    ensures s.tick == s.model.tick
  {
  }

  /** The head of wait list `l`. */
  lemma WaitHead(s: Scheduler, l: ListId)
    requires s.Valid() && l in s.model.waiters
    ensures l.obj < |s.objects| && ListOf(s.objects, l) != null && AllBelow(s.model.waiters[l], |s.tasks|)
    ensures ListOf(s.objects, l) in s.WaiterLists()
    ensures ListOf(s.objects, l).head == At(s.tasks, s.model.waiters[l], 0)
    ensures QueueModel.Linked(s.model.tasks, s.model.waiters)
    ensures var q := s.model.waiters[l]; q != [] ==> s.Knows(s.tasks[q[0]]) && s.tasks[q[0]].number == q[0]
  {
    EventChainAt(s, EventLists(s.model.tasks), s.model.waiters, l);
    forall m, i | m in s.model.waiters && 0 <= i < |s.model.waiters[m]|
      ensures s.model.waiters[m][i] < |s.model.tasks| && s.model.tasks[s.model.waiters[m][i]].eventList == Some(m)
    {
      assert EventLists(s.model.tasks)[s.model.waiters[m][i]] == Some(m);
    }
  }

  /** xTaskUnblockOne. */
  method UnblockOne(s: Scheduler, list: List, ghost l: ListId) returns (preempts: bool)
    requires s.Valid() && Placed(s.model, None) && l in s.model.waiters && list == ListOf(s.objects, l)
    modifies s`model, s.tasks, s.WaiterLists(), s.delayedList, s.readyLists
    ensures s.Valid() && InBounds(old(s.model)) && l in old(s.model).waiters
    ensures QueueModel.Linked(old(s.model).tasks, old(s.model).waiters)
    ensures (s.model, preempts) == TaskModel.UnblockOne(old(s.model), l)
  {
    hide Scheduler.Valid, Scheduler.Shape, InBounds, Placed, TaskModel.EventListRemove, TaskModel.DelayListRemove,
      TaskModel.MakeReady;
    ghost var m := s.model;
    ValidInBounds(s);
    WaitHead(s, l);
    var task := list.head;
    if task == null { return false; }
    FlagsShow(s, task, None);
    assert task.state == Blocked;
    ghost var t := task.number;
    assert m.waiters[l][0] == t && m.tasks[t].eventList == Some(l);
    EventListRemove(s, task);
    DelayFlag(s, task);
    if task.inDelayList {
      DelayListRemove(s, task);
    }
    MakeReady(s, task, true);
    preempts := PreemptsCurrent(s, task);
  }

  lemma DelayFlag(s: Scheduler, task: Task)
    requires s.Valid() && s.Knows(task)
    ensures task.inDelayList <==> task.number in s.model.delayed
  {
  }

  /** Whether making `task` ready asks for an immediate switch. */
  method PreemptsCurrent(s: Scheduler, task: Task) returns (preempts: bool)
    requires s.Valid() && s.Knows(task)
    ensures InBounds(s.model) && task.number < |s.model.tasks| && preempts == TaskModel.Outranks(s.model, task.number)
  {
    hide Scheduler.Valid, Scheduler.Shape, InBounds;
    ValidInBounds(s);
    CurrentShown(s);
    TaskShown(s, task);
    ShownFields(task, s.model.tasks[task.number], s.objects);
    if s.current == null { return false; }
    TaskShown(s, s.current);
    ShownFields(s.current, s.model.tasks[s.current.number], s.objects);
    preempts := s.current.state == Running && task.priority > s.current.priority;
  }

  /** vTaskWaitEnded: the owner of the mutex that was waited for may lose its boost. */
  method WaitEnded(s: Scheduler, task: Task, ghost limbo: Option<nat>)
    requires s.Valid() && s.Knows(task) && Placed(s.model, limbo)
    modifies s`model, s.tasks, s.readyLists, s.WaiterLists()
    ensures s.Valid() && InBounds(old(s.model)) && task.number < |old(s.model).tasks|
    ensures s.model == QueueModel.WaitEnded(old(s.model), task.number)
  {
    hide Scheduler.Valid, Scheduler.Shape, Placed, QueueModel.RecomputeInheritedPriority;
    ghost var m, t := s.model, task.number;
    ValidInBounds(s);
    TaskShown(s, task);
    ShownFields(task, m.tasks[t], s.objects);
    WaitObjectShown(s, task);
    if task.waitReason != WaitMutexTake || task.waitObject == null { return; }
    var mutex := task.waitObject;
    if mutex.kind == Mutex && mutex.owner != null {
      RecomputeInheritedPriority(s, mutex.owner, limbo);
    }
  }

  /** The object that a task waits for, and its owner. */
  lemma WaitObjectShown(s: Scheduler, task: Task)
    requires s.Valid() && s.Knows(task)
    ensures task.number < |s.model.tasks|
    ensures var o := s.model.tasks[task.number].waitObject;
      && (task.waitObject == null <==> o.None?)
      && (o.Some? ==>
            && o.value < |s.model.objects| && task.waitObject.kind == s.model.objects[o.value].kind
            && (task.waitObject.owner == null <==> s.model.objects[o.value].owner.None?)
            && (task.waitObject.owner != null ==>
                  s.Knows(task.waitObject.owner) && s.model.objects[o.value].owner == Some(task.waitObject.owner.number)))
  {
    TaskShown(s, task);
    ShownFields(task, s.model.tasks[task.number], s.objects);
    var o := s.model.tasks[task.number].waitObject;
    if o.Some? { assert s.ObjectShown(s.objects[o.value], s.model.objects[o.value]); }
  }

  /** Ends the wait of a blocked task without the event. */
  method EndWait(s: Scheduler, task: Task)
    requires s.Valid() && s.Knows(task) && Placed(s.model, None) && task.state == Blocked
    modifies s`model, s.tasks, s.readyLists, s.delayedList, s.WaiterLists()
    ensures s.Valid() && InBounds(old(s.model)) && task.number < |old(s.model).tasks|
    ensures s.model == QueueModel.EndWait(old(s.model), task.number)
  {
    hide Scheduler.Valid, Scheduler.Shape, InBounds, Placed, TaskModel.EventListRemove, TaskModel.DelayListRemove,
      TaskModel.MakeReady, QueueModel.WaitEnded;
    ghost var m, t := s.model, task.number;
    ValidInBounds(s);
    FlagsShow(s, task, None);
    UnlinkPlaced(m, t);
    EndWaitIs(m, t);
    DelayListRemove(s, task);
    if task.eventList != null {
      EventListRemove(s, task);
      FlagsShow(s, task, Some(t));
      WaitEndedPlaced(s.model, t, Some(t));
      WaitEnded(s, task, Some(t));
      FlagsShow(s, task, Some(t));
    }
    MakeReady(s, task, false);
  }

  lemma EndWaitIs(m: State, t: nat)
    requires InBounds(m) && t < |m.tasks|
    ensures var undelayed := TaskModel.DelayListRemove(m, t);
      && undelayed.tasks == m.tasks
      && QueueModel.EndWait(m, t) == TaskModel.MakeReady(
           if m.tasks[t].eventList.Some? then QueueModel.WaitEnded(TaskModel.EventListRemove(undelayed, t), t) else undelayed, t, false)
  {
  }

  /** The head of the delay list. */
  lemma DelayHead(s: Scheduler)
    requires s.Valid() && Placed(s.model, None)
    ensures AllBelow(s.model.delayed, |s.tasks|) && s.delayedList.head == At(s.tasks, s.model.delayed, 0)
    ensures |s.model.tasks| == |s.tasks|
    ensures var q := s.model.delayed; q != [] ==>
      var head := s.tasks[q[0]];
      s.Knows(head) && head.number == q[0] && head.state == Blocked == s.model.tasks[q[0]].state
      && head.wakeTick == s.model.tasks[q[0]].wakeTick
  {
    var q := s.model.delayed;
    if q != [] {
      assert q[0] in q;
      TaskShown(s, s.tasks[q[0]]);
      ShownFields(s.tasks[q[0]], s.model.tasks[q[0]], s.objects);
    }
  }

  /** prvWakeExpiredTasks: drains the head of the delay list while it is due. */
  method WakeExpired(s: Scheduler)
    requires s.Valid() && Placed(s.model, None)
    modifies s`model, s.tasks, s.readyLists, s.delayedList, s.WaiterLists()
    ensures s.Valid() && Placed(s.model, None) && InBounds(old(s.model))
    ensures s.model == QueueModel.WakeExpired(old(s.model))
  {
    hide Scheduler.Valid, Scheduler.Shape, InBounds, Placed, QueueModel.EndWait;
    ghost var m := s.model;
    ValidInBounds(s);
    DelayHead(s);
    TickShown(s);
    while s.delayedList.head != null && TickReached(s.tick, s.delayedList.head.wakeTick)
      invariant s.Valid() && Placed(s.model, None) && InBounds(s.model) && InBounds(m)
      invariant QueueModel.WakeExpired(s.model) == QueueModel.WakeExpired(m)
      invariant AllBelow(s.model.delayed, |s.tasks|) && s.delayedList.head == At(s.tasks, s.model.delayed, 0)
      invariant |s.model.tasks| == |s.tasks| && s.tick == s.model.tick
      invariant s.model.delayed != [] ==>
        var head := s.tasks[s.model.delayed[0]];
        s.Knows(head) && head.number == s.model.delayed[0] && head.state == Blocked == s.model.tasks[s.model.delayed[0]].state
        && head.wakeTick == s.model.tasks[s.model.delayed[0]].wakeTick
      decreases |s.model.delayed|
    {
      var task := s.delayedList.head;
      EndWaitPlaced(s.model, task.number);
      EndWait(s, task);
      ValidInBounds(s);
      DelayHead(s);
      TickShown(s);
    }
  }

  /** ++tick_count, against the unbounded clock. */
  method CountTick(s: Scheduler)
    requires s.Valid()
    modifies s`model, s`tick
    ensures s.Valid()
    ensures s.model == old(s.model).(tick := Wrap(old(s.model).tick + 1), now := old(s.model).now + 1)
  {
    hide Scheduler.ReadyThreaded, Scheduler.DelayThreaded, Scheduler.EventsThreaded, Scheduler.TasksShown,
      Priorities, EventLists;
    ListsApart(s);
    s.tick := Wrap(s.tick + 1);
    s.model := s.model.(tick := s.tick, now := s.model.now + 1);
  }

  lemma PlacedLater(m: State)
    requires Placed(m, None)
    ensures Placed(m.(tick := Wrap(m.tick + 1), now := m.now + 1), None)
  {
  }

  /** vTaskTickISR and the dispatch it leads to. */
  method TickISR(s: Scheduler)
    requires s.Valid() && Placed(s.model, None)
    modifies s`model, s`tick, s`current, s.tasks, s.readyLists, s.delayedList, s.WaiterLists()
    ensures s.Valid() && InBounds(old(s.model)) && s.model == QueueModel.TickISR(old(s.model))
  {
    hide Scheduler.Valid, Scheduler.Shape, InBounds, QueueModel.WakeExpired, TaskModel.YieldCurrent;
    ghost var m := s.model;
    ValidInBounds(s);
    PlacedLater(m);
    CountTick(s);
    WakeExpired(s);
    ValidInBounds(s);
    CurrentShown(s);
    if s.current == null { return; }
    FlagsShow(s, s.current, None);
    if s.current.state == Running {
      YieldCurrent(s);
    }
  }

  /** xTaskAbortDelay and the switch after it. */
  method AbortDelay(s: Scheduler, task: Task) returns (passed: bool)
    requires s.Valid() && s.Knows(task) && Placed(s.model, None) && s.current != null
    modifies s`model, s`current, s.tasks, s.readyLists, s.delayedList, s.WaiterLists()
    ensures s.Valid() && InBounds(old(s.model)) && old(s.model).current.Some? && task.number < |old(s.model).tasks|
    ensures (s.model, if passed then QueueModel.Passed else QueueModel.Refused) == QueueModel.AbortDelay(old(s.model), task.number)
  {
    hide Scheduler.Valid, Scheduler.Shape, InBounds, Placed, QueueModel.EndWait, TaskModel.YieldCurrent;
    ValidInBounds(s);
    CurrentShown(s);
    FlagsShow(s, task, None);
    DelayFlag(s, task);
    if task.state != Blocked || !task.inDelayList { return false; }
    EndWaitPlaced(s.model, task.number);
    EndWait(s, task);
    var preempts := PreemptsCurrent(s, task);
    if preempts {
      ValidInBounds(s);
      CurrentShown(s);
      FlagsShow(s, s.current, None);
      YieldCurrent(s);
    }
    passed := true;
  }

  /** vTaskDelay and the switch after it. */
  method DelayCurrent(s: Scheduler, ticks: nat)
    requires ticks < INT32_MAX
    requires s.Valid() && Placed(s.model, None) && s.current != null && s.current.state == Running
    modifies s`model, s`current, s.tasks, s.readyLists, s.delayedList
    ensures s.Valid() && InBounds(old(s.model)) && old(s.model).current.Some?
    ensures s.model == TaskModel.DelayCurrent(old(s.model), ticks)
  {
    hide Scheduler.Valid, Scheduler.Shape, InBounds, Placed, TaskModel.YieldCurrent, TaskModel.SwitchContext,
      TaskModel.DelayListInsert;
    ghost var m := s.model;
    ValidInBounds(s);
    CurrentShown(s);
    FlagsShow(s, s.current, None);
    TickShown(s);
    if ticks == 0 {
      YieldCurrent(s);
      return;
    }
    var task := s.current;
    SetWaitFields(s, task, Blocked, Wrap(s.tick + ticks), null, WaitNone, false, false, None, InDelay, m.now + ticks);
    DelayListInsert(s, task);
    SwitchContext(s);
  }

  /** vTaskDelayUntil: the next wake time, and the delay or yield that leads to it. The
      second precondition is the assertion of the vTaskDelay that it calls
      (DelayUntilAllowedIff says when it holds). */
  method DelayUntil(s: Scheduler, previous: Tick, increment: nat) returns (next: Tick)
    requires increment < INT32_MAX && TaskModel.UntilTicks(s.model, Wrap(previous + increment)) < INT32_MAX
    requires s.Valid() && Placed(s.model, None) && s.current != null && s.current.state == Running
    modifies s`model, s`current, s.tasks, s.readyLists, s.delayedList
    ensures s.Valid() && InBounds(old(s.model)) && old(s.model).current.Some? && next == Wrap(previous + increment)
    ensures s.model == TaskModel.DelayCurrent(old(s.model), TaskModel.UntilTicks(old(s.model), next))
  {
    ValidInBounds(s);
    CurrentShown(s);
    TickShown(s);
    next := Wrap(previous + increment);
    if TickBefore(s.tick, next) {
      DelayCurrent(s, UnsignedDifference(next, s.tick));
    } else {
      DelayCurrent(s, 0);
    }
  }

  /** vTaskRunEntry after the task function returned. */
  method ExitTask(s: Scheduler)
    requires s.Valid() && Placed(s.model, None) && s.current != null && s.current.state == Running
    requires InBounds(s.model) && !QueueModel.OwnsMutex(s.model, s.current.number)
    modifies s`model, s`current, s.tasks, s.readyLists
    ensures s.Valid() && InBounds(old(s.model)) && old(s.model).current.Some?
    ensures s.model == Kernel.ExitTask(old(s.model))
  {
    hide Scheduler.Valid, Scheduler.Shape, InBounds, Placed, TaskModel.SwitchContext;
    ghost var m := s.model;
    var task := s.current;
    ValidInBounds(s);
    CurrentShown(s);
    ListsApart(s);
    var owns := OwnsMutex(s, task);
    assert !owns;
    ShownResult(s, task);
    SetStateFields(s, task, Deleted, task.waitResult);
    assert m.tasks[task.number].(state := Deleted, waitResult := m.tasks[task.number].waitResult) == m.tasks[task.number].(state := Deleted);
    SwitchContext(s);
  }
}
