/** kernel/tasks.c and kernel/queue.c: priority changes and inheritance in place. */
module SchedulerPriority {
  import opened Ticks
  import opened Lists
  import opened KernelState
  import TaskModel
  import QueueModel
  import opened Placement
  import opened Objects
  import opened SchedulerObject
  import opened SchedulerReady
  import opened SchedulerDelay
  import opened SchedulerEvent

  /** The list membership flags of a task follow from its state. */
  lemma FlagsShow(s: Scheduler, task: Task, limbo: Option<nat>)
    requires s.Valid() && s.Knows(task) && Placed(s.model, limbo)
    ensures task.number < |s.model.tasks| && Shows(task, s.model.tasks[task.number], s.objects)
    ensures task.state == s.model.tasks[task.number].state && task.priority == s.model.tasks[task.number].priority
    ensures task.eventList == null <==> s.model.tasks[task.number].eventList.None?
    ensures task.eventList != null ==> var l := s.model.tasks[task.number].eventList.value;
      l in s.model.waiters && task.eventList == ListOf(s.objects, l) && task.eventList in s.WaiterLists()
    ensures task.inReadyList <==> task.state == Ready
    ensures task.inDelayList <==> task.state == Blocked && limbo != Some(task.number)
    ensures task.eventList != null ==> task.state == Blocked && limbo != Some(task.number)
  {
    TaskShown(s, task);
    EventListShown(s, task);
    var t := task.number;
    assert s.model.tasks[t].state == Ready ==> t in s.model.ready[s.model.tasks[t].priority];
  }

  lemma RePrioritised(s: Scheduler, m: State, t: nat, tcb: Tcb)
    requires InBounds(m) && t < |m.tasks| && TcbInBounds(tcb, |m.objects|) && tcb.eventList == m.tasks[t].eventList
    requires s.ReadyThreaded(Priorities(m.tasks), m.ready) && |m.tasks| == |s.tasks| && !s.tasks[t].inReadyList
    ensures s.ReadyThreaded(Priorities(m.tasks[t := tcb]), m.ready)
    ensures EventLists(m.tasks[t := tcb]) == EventLists(m.tasks)
  {
    hide ReadyChains;
    TouchPriorities(m.tasks, t, tcb);
    var before, after := Priorities(m.tasks), Priorities(m.tasks[t := tcb]);
    forall p: Priority, i | 0 <= i < |m.ready[p]| ensures m.ready[p][i] < |after| && after[m.ready[p][i]] == p {
      assert before[m.ready[p][i]] == p;
      assert m.ready[p][i] in m.ready[p];
    }
    OnlyOwnList(before, m.ready, t, after[t]);
  }

  lemma OnlyOwnList(priorities: seq<Priority>, ready: ReadyLists, t: nat, p: Priority)
    requires InOwnList(priorities, ready) && t < |priorities|
    ensures t in ready[p] ==> priorities[t] == p
  {
  }

  method SetPriorityField(s: Scheduler, task: Task, priority: Priority)
    requires s.Valid() && s.Knows(task) && !task.inReadyList
    modifies s`model, task`priority
    ensures s.Valid() && task.number < |old(s.model).tasks|
    ensures s.model == TaskModel.WithTask(old(s.model), task.number, old(s.model).tasks[task.number].(priority := priority))
  {
    hide Scheduler.ReadyThreaded, Scheduler.DelayThreaded, Scheduler.EventsThreaded, Scheduler.Beyond, InBounds,
      Priorities, EventLists;
    ghost var m, t := s.model, task.number;
    ValidInBounds(s);
    ListsApart(s);
    ghost var tcb := m.tasks[t].(priority := priority);
    TouchedInBounds(m, t, tcb);
    RePrioritised(s, m, t, tcb);
    task.priority := priority;
    s.model := TaskModel.WithTask(m, t, tcb);
    BeyondSame(s, m, s.model);
  }

  lemma TouchedInBounds(m: State, t: nat, tcb: Tcb)
    requires InBounds(m) && t < |m.tasks| && tcb.call == m.tasks[t].call
    requires tcb.eventList == m.tasks[t].eventList && tcb.waitObject == m.tasks[t].waitObject
    ensures TcbInBounds(tcb, |m.objects|) && InBounds(TaskModel.WithTask(m, t, tcb))
  {
  }

  method SetEffectivePriority(s: Scheduler, task: Task, priority: Priority, ghost limbo: Option<nat>)
    requires s.Valid() && s.Knows(task) && Placed(s.model, limbo)
    modifies s`model, s.tasks, s.readyLists, s.WaiterLists()
    ensures s.Valid() && task.number < |old(s.model).tasks|
    ensures s.model == TaskModel.SetEffectivePriority(old(s.model), task.number, priority)
  {
    hide Scheduler.Valid, TaskModel.ReadyListRemove, TaskModel.ReadyListInsert, TaskModel.EventListInsert, Placed;
    ghost var m, t := s.model, task.number;
    FlagsShow(s, task, limbo);
    ValidInBounds(s);
    if task.priority == priority { return; }
    if task.state == Ready {
      ReadyListRemoveIs(m, t);
      ReadyListRemove(s, task);
      SetPriorityField(s, task, priority);
      ReadyListInsert(s, task);
      return;
    }
    if task.state == Blocked && task.eventList != null {
      var list := task.eventList;
      EventListRemove(s, task);
      SetPriorityField(s, task, priority);
      EventListInsert(s, list, task, m.tasks[t].eventList.value);
      return;
    }
    SetPriorityField(s, task, priority);
  }

  method WriteInherited(s: Scheduler, task: Task, priority: Priority, ghost tcbs: seq<Tcb>)
    requires Numbered(s.tasks) && s.Knows(task) && s.TasksShown(tcbs)
    modifies task`inheritedPriority
    ensures s.TasksShown(tcbs[task.number := tcbs[task.number].(inheritedPriority := priority)])
    ensures task.inheritedPriority == priority
  {
    task.inheritedPriority := priority;
  }

  method WriteBase(s: Scheduler, task: Task, priority: Priority, ghost tcbs: seq<Tcb>)
    requires Numbered(s.tasks) && s.Knows(task) && s.TasksShown(tcbs)
    modifies task`basePriority
    ensures s.TasksShown(tcbs[task.number := tcbs[task.number].(basePriority := priority)])
    ensures task.basePriority == priority
  {
    task.basePriority := priority;
  }

  method SetInheritedField(s: Scheduler, task: Task, priority: Priority)
    requires s.Valid() && s.Knows(task)
    modifies s`model, task`inheritedPriority
    ensures s.Valid() && task.number < |old(s.model).tasks| && task.inheritedPriority == priority
    ensures s.model == TaskModel.WithTask(old(s.model), task.number, old(s.model).tasks[task.number].(inheritedPriority := priority))
  {
    hide Scheduler.Valid, Scheduler.TasksShown, Scheduler.Shape, Scheduler.ReadyThreaded, Scheduler.DelayThreaded,
      Scheduler.EventsThreaded, Scheduler.Beyond, InBounds, Priorities, EventLists;
    ValidParts(s);
    ListsApart(s);
    ghost var m, t := s.model, task.number;
    ghost var tcb := m.tasks[t].(inheritedPriority := priority);
    TouchedInBounds(m, t, tcb);
    WriteInherited(s, task, priority, m.tasks);
    s.model := TaskModel.WithTask(m, t, tcb);
    TouchedValid(s, m, t, tcb);
  }

  method SetBaseField(s: Scheduler, task: Task, priority: Priority)
    requires s.Valid() && s.Knows(task)
    modifies s`model, task`basePriority
    ensures s.Valid() && task.number < |old(s.model).tasks| && task.basePriority == priority
    ensures s.model == TaskModel.WithTask(old(s.model), task.number, old(s.model).tasks[task.number].(basePriority := priority))
  {
    hide Scheduler.Valid, Scheduler.TasksShown, Scheduler.Shape, Scheduler.ReadyThreaded, Scheduler.DelayThreaded,
      Scheduler.EventsThreaded, Scheduler.Beyond, InBounds, Priorities, EventLists;
    ValidParts(s);
    ListsApart(s);
    ghost var m, t := s.model, task.number;
    ghost var tcb := m.tasks[t].(basePriority := priority);
    TouchedInBounds(m, t, tcb);
    WriteBase(s, task, priority, m.tasks);
    s.model := TaskModel.WithTask(m, t, tcb);
    TouchedValid(s, m, t, tcb);
  }

  method SetInheritedPriority(s: Scheduler, task: Task, priority: Priority, ghost limbo: Option<nat>)
    requires s.Valid() && s.Knows(task) && Placed(s.model, limbo)
    modifies s`model, s.tasks, s.readyLists, s.WaiterLists()
    ensures s.Valid() && task.number < |old(s.model).tasks|
    ensures s.model == TaskModel.SetInheritedPriority(old(s.model), task.number, priority)
  {
    hide Scheduler.Valid, TaskModel.SetEffectivePriority, Placed;
    ghost var m, t := s.model, task.number;
    ValidInBounds(s);
    FlagsShow(s, task, limbo);
    ShownFields(task, m.tasks[t], s.objects);
    TouchPlaced(m, t, m.tasks[t].(inheritedPriority := priority), limbo);
    SetInheritedField(s, task, priority);
    var effective := task.basePriority;
    if task.inheritedPriority > effective { effective := task.inheritedPriority; }
    SetEffectivePriority(s, task, effective, limbo);
  }

  /** vTaskPrioritySet. */
  method PrioritySet(s: Scheduler, task: Task, priority: Priority)
    requires s.Valid() && s.Knows(task) && Placed(s.model, None)
    modifies s`model, s.tasks, s.readyLists, s.WaiterLists()
    ensures s.Valid() && task.number < |old(s.model).tasks|
    ensures s.model == TaskModel.PrioritySet(old(s.model), task.number, priority)
  {
    hide Scheduler.Valid, TaskModel.SetEffectivePriority, Placed;
    ghost var m, t := s.model, task.number;
    ValidInBounds(s);
    FlagsShow(s, task, None);
    ShownFields(task, m.tasks[t], s.objects);
    TouchPlaced(m, t, m.tasks[t].(basePriority := priority), None);
    SetBaseField(s, task, priority);
    var effective := task.basePriority;
    if task.inheritedPriority > effective { effective := task.inheritedPriority; }
    SetEffectivePriority(s, task, effective, None);
  }

  /** The registry scan with its running maximum, and the new inherited priority. */
  method RecomputeInheritedPriority(s: Scheduler, task: Task?, ghost limbo: Option<nat>)
    requires s.Valid() && Placed(s.model, limbo) && (task != null ==> s.Knows(task))
    modifies s`model, s.tasks, s.readyLists, s.WaiterLists()
    ensures s.Valid() && InBounds(old(s.model)) && |old(s.model).tasks| == |s.tasks|
    ensures task == null ==> s.model == old(s.model)
    ensures task != null ==> s.model == QueueModel.RecomputeInheritedPriority(old(s.model), task.number)
  {
    hide Scheduler.Valid, TaskModel.SetInheritedPriority, Placed;
    ValidInBounds(s);
    if task == null { return; }
    var inherited := HighestWaiter(s, task);
    SetInheritedPriority(s, task, inherited, limbo);
  }

  lemma RegistryIn(s: Scheduler)
    requires s.Valid()
    ensures AllBelow(s.model.registry, |s.objects|) && s.mutexRegistry == s.RegistryAt(s.model.registry, 0)
    ensures forall i {:trigger s.model.registry[i]} :: 0 <= i < |s.model.registry| ==>
      s.objects[s.model.registry[i]].registryNext == s.RegistryAt(s.model.registry, i + 1)
  {
  }

  /** The receive waiters and the owner of object `o`, as the fields show them. */
  lemma WaitersAt(s: Scheduler, o: nat)
    requires s.Valid() && o < |s.objects|
    ensures ListId(o, ReceiveSide) in s.model.waiters && o < |s.model.objects| && |s.model.tasks| == |s.tasks|
    ensures var q := s.model.waiters[ListId(o, ReceiveSide)]; var list := s.objects[o].receiveWaiters;
      && AllBelow(q, |s.tasks|) && list.head == At(s.tasks, q, 0)
      && (q != [] ==> list.head != null && list.head.priority == s.model.tasks[q[0]].priority)
    ensures forall t {:trigger s.tasks[t]} :: 0 <= t < |s.tasks| ==>
      (s.objects[o].owner == s.tasks[t] <==> s.model.objects[o].owner == Some(t))
  {
    var l := ListId(o, ReceiveSide);
    EventChainAt(s, EventLists(s.model.tasks), s.model.waiters, l);
    var q := s.model.waiters[l];
    if q != [] { TaskShown(s, s.tasks[q[0]]); ShownFields(s.tasks[q[0]], s.model.tasks[q[0]], s.objects); }
  }

  method HighestWaiter(s: Scheduler, task: Task) returns (inherited: Priority)
    requires s.Valid() && s.Knows(task)
    ensures InBounds(s.model)
    ensures inherited == QueueModel.MaxWaiter(s.model, s.model.registry, task.number, IDLE_PRIORITY)
  {
    hide Scheduler.Valid, Scheduler.ReadyThreaded, Scheduler.DelayThreaded, Chain;
    ghost var m := s.model;
    ValidInBounds(s);
    ghost var i := 0;
    inherited := IDLE_PRIORITY;
    var mutex := s.mutexRegistry;
    RegistryIn(s);
    while mutex != null
      invariant s.Valid() && 0 <= i <= |m.registry| && mutex == s.RegistryAt(m.registry, i)
      invariant AllBelow(m.registry[i..], |m.objects|)
      invariant QueueModel.MaxWaiter(m, m.registry[i..], task.number, inherited)
        == QueueModel.MaxWaiter(m, m.registry, task.number, IDLE_PRIORITY)
      decreases |m.registry| - i
    {
      WaitersAt(s, m.registry[i]);
      if mutex.owner == task && mutex.receiveWaiters.head != null && mutex.receiveWaiters.head.priority > inherited {
        inherited := mutex.receiveWaiters.head.priority;
      }
      assert m.registry[i..][1..] == m.registry[i + 1..] && m.registry[i..][0] == m.registry[i];
      i := i + 1;
      mutex := mutex.registryNext;
    }
  }

  /** xTaskOwnsMutex. */
  method OwnsMutex(s: Scheduler, task: Task) returns (owns: bool)
    requires s.Valid() && s.Knows(task)
    ensures InBounds(s.model) && owns == QueueModel.OwnsMutex(s.model, task.number)
  {
    hide Scheduler.Valid, Scheduler.ReadyThreaded, Scheduler.DelayThreaded, Chain;
    ghost var m := s.model;
    ValidInBounds(s);
    ghost var i := 0;
    var mutex := s.mutexRegistry;
    RegistryIn(s);
    while mutex != null
      invariant s.Valid() && 0 <= i <= |m.registry| && mutex == s.RegistryAt(m.registry, i)
      invariant forall j :: 0 <= j < i ==> m.objects[m.registry[j]].owner != Some(task.number)
      decreases |m.registry| - i
    {
      WaitersAt(s, m.registry[i]);
      if mutex.owner == task { return true; }
      i := i + 1;
      mutex := mutex.registryNext;
    }
    owns := false;
  }
}
