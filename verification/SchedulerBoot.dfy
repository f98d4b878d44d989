/** xTaskCreate for every task, the idle task last, and vTaskStartScheduler. */
module SchedulerBoot {
  import opened Ticks
  import opened Lists
  import opened KernelState
  import TaskModel
  import Steps
  import Runs
  import opened Objects
  import opened SchedulerObject
  import opened SchedulerStorage
  import opened SchedulerReady
  import opened SchedulerSwitch
  import opened SchedulerWait
  import opened SchedulerQueue

  const NO_READY: ReadyLists := [[], [], [], [], [], [], [], []]

  /** The state with every task made and none in a ready list. */
  function Made(priorities: seq<Priority>, values: seq<Object>): State {
    Runs.Created(priorities, values, 0).(ready := NO_READY)
  }

  /** The objects are as their creation functions leave them, with these values. */
  ghost predicate Unused(objects: seq<SyncObject>, values: seq<Object>)
    reads objects, set o | o in objects :: o.storage
    reads set o | o in objects :: o.sendWaiters, set o | o in objects :: o.receiveWaiters
  {
    && |objects| == |values| && Runs.FreshObjects(values)
    && (forall a, b {:trigger objects[a], objects[b]} :: 0 <= a < b < |objects| ==> objects[a].storage != objects[b].storage)
    && forall o {:trigger objects[o]} :: 0 <= o < |objects| ==> UnusedObject(objects[o], o, values[o])
  }

  ghost predicate UnusedObject(target: SyncObject, o: nat, value: Object)
    reads target, target.storage, target.sendWaiters, target.receiveWaiters
  {
    && target.number == o
    && target.kind == value.kind && target.length == value.length && target.itemSize == value.itemSize && target.maxCount == value.maxCount
    && target.head == value.head && target.tail == value.tail && target.count == value.count && target.owner == null
    && SlotsShown(target, value)
    && target.sendWaiters.place == EventPlace(ListId(o, SendSide)) && Empty(target.sendWaiters)
    && target.receiveWaiters.place == EventPlace(ListId(o, ReceiveSide)) && Empty(target.receiveWaiters)
  }

  ghost predicate Empty(list: List)
    reads list
  {
    list.head == null && list.tail == null && list.length == 0
  }

  /** `first` and the registryNext fields thread `registry`. */
  ghost predicate Registered(objects: seq<SyncObject>, first: SyncObject?, registry: seq<nat>)
    reads objects
  {
    && AllBelow(registry, |objects|)
    && first == (if registry == [] then null else objects[registry[0]])
    && forall i {:trigger objects[registry[i]]} :: 0 <= i < |registry| ==>
         objects[registry[i]].registryNext == if i + 1 < |registry| then objects[registry[i + 1]] else null
  }

  /** What the scheduler's constructor has set up. */
  ghost predicate Unscheduled(s: Scheduler, first: SyncObject?)
    reads s, s.readyLists, s.delayedList
  {
    && s.mutexRegistry == first && s.current == null && s.tick == 0
    && s.delayedList.place == DelayPlace && Empty(s.delayedList)
    && |s.readyLists| == 8
    && forall p {:trigger s.readyLists[p]} :: 0 <= p < 8 ==> s.readyLists[p].place == ReadyPlace(p) && Empty(s.readyLists[p])
  }

  ghost predicate NewTask(task: Task, t: nat, priority: Priority)
    reads task
  {
    && task.number == t && Shows(task, Runs.CreatedTcb(priority), [])
    && task.eventList == null && task.waitObject == null && !task.inReadyList && !task.inDelayList
  }

  ghost predicate NewTasks(tasks: seq<Task>, all: seq<Priority>)
    reads tasks
  {
    |tasks| == |all| && forall t {:trigger tasks[t]} :: 0 <= t < |tasks| ==> NewTask(tasks[t], t, all[t])
  }

  lemma MadeInBounds(priorities: seq<Priority>, values: seq<Object>)
    requires Runs.FreshObjects(values)
    ensures InBounds(Made(priorities, values))
  {
    Runs.CreatedInBounds(priorities, values, 0);
  }

  /** Before the first insertion every list is empty and every field is fresh. */
  lemma MadeShape(s: Scheduler, priorities: seq<Priority>, values: seq<Object>, first: SyncObject?)
    requires Unused(s.objects, values) && Unscheduled(s, first) && NewTasks(s.tasks, priorities + [IDLE_PRIORITY])
    ensures s.Shape() && s.TasksShown(Made(priorities, values).tasks) && s.ObjectsShown(values)
  {
    forall o | 0 <= o < |s.objects| ensures s.ObjectShown(s.objects[o], values[o]) {
      assert Runs.FreshObject(values[o]);
    }
  }

  lemma MadeReady(s: Scheduler, priorities: seq<Priority>, values: seq<Object>, first: SyncObject?)
    requires Unused(s.objects, values) && Unscheduled(s, first) && NewTasks(s.tasks, priorities + [IDLE_PRIORITY])
    ensures var m := Made(priorities, values);
      s.ReadyThreaded(Priorities(m.tasks), m.ready) && s.DelayThreaded(m.delayed)
  {
    var m := Made(priorities, values);
    forall p: Priority ensures m.ready[p] == [] {}
    forall t | 0 <= t < |s.tasks| ensures !s.tasks[t].inReadyList && !s.tasks[t].inDelayList {
      assert NewTask(s.tasks[t], t, (priorities + [IDLE_PRIORITY])[t]);
    }
  }

  lemma MadeWaiters(s: Scheduler, priorities: seq<Priority>, values: seq<Object>, first: SyncObject?)
    requires Unused(s.objects, values) && Unscheduled(s, first) && NewTasks(s.tasks, priorities + [IDLE_PRIORITY])
    ensures var m := Made(priorities, values); s.EventsThreaded(EventLists(m.tasks), m.waiters)
  {
    var m := Made(priorities, values);
    hide Runs.CreatedReady, Runs.CreatedRegistry;
    forall l | l in m.waiters ensures l.obj < |s.objects| && m.waiters[l] == [] && Empty(ListOf(s.objects, l)) {
      assert UnusedObject(s.objects[l.obj], l.obj, values[l.obj]);
    }
    forall t | 0 <= t < |s.tasks| ensures EventLists(m.tasks)[t].None? {}
  }

  lemma MadeValid(s: Scheduler, priorities: seq<Priority>, values: seq<Object>, first: SyncObject?)
    requires Unused(s.objects, values) && Unscheduled(s, first) && NewTasks(s.tasks, priorities + [IDLE_PRIORITY])
    requires s.model == Made(priorities, values) && Registered(s.objects, first, s.model.registry)
    ensures s.Valid() && StorageShown(s, s.model.objects)
  {
    hide UnusedObject, Scheduler.TasksShown, Scheduler.ReadyThreaded, Scheduler.DelayThreaded,
      Scheduler.EventsThreaded, Scheduler.ObjectsShown;
    MadeInBounds(priorities, values);
    MadeShape(s, priorities, values, first);
    MadeReady(s, priorities, values, first);
    MadeWaiters(s, priorities, values, first);
    MadeStorage(s, priorities, values, first);
  }

  lemma MadeStorage(s: Scheduler, priorities: seq<Priority>, values: seq<Object>, first: SyncObject?)
    requires Unused(s.objects, values) && Unscheduled(s, first) && NewTasks(s.tasks, priorities + [IDLE_PRIORITY])
    ensures StorageShown(s, values)
  {
    forall o | 0 <= o < |s.objects| ensures SlotsShown(s.objects[o], values[o]) {
      assert UnusedObject(s.objects[o], o, values[o]);
    }
  }

  lemma CreateStep(priorities: seq<Priority>, values: seq<Object>, all: seq<Priority>, i: nat)
    requires Runs.FreshObjects(values) && all == priorities + [IDLE_PRIORITY] && i < |all|
    requires InBounds(Made(priorities, values).(ready := Runs.CreatedReady(all[..i])))
    ensures var m := Made(priorities, values);
      && i < |m.tasks|
      && TaskModel.ReadyListInsert(m.(ready := Runs.CreatedReady(all[..i])), i) == m.(ready := Runs.CreatedReady(all[..i + 1]))
    ensures i !in Runs.CreatedReady(all[..i])[all[i]]
  {
    Runs.CreatedReadyMembers(all[..i]);
    assert all[..i + 1][..i] == all[..i] && all[..i + 1][i] == all[i];
  }

  /** A task that is in no ready list does not say so. */
  lemma NotReady(s: Scheduler, task: Task)
    requires s.Valid() && s.Knows(task)
    ensures task.number < |s.model.tasks|
    ensures task.inReadyList <==> task.number in s.model.ready[s.model.tasks[task.number].priority]
  {
    TaskShown(s, task);
  }

  /** Creates the tasks and the idle task, inserts each into its ready list, and
      dispatches the first. */
  method Boot(priorities: seq<Priority>, objects: seq<SyncObject>, first: SyncObject?, ghost values: seq<Object>) returns (s: Scheduler)
    requires Unused(objects, values) && Registered(objects, first, Runs.CreatedRegistry(values))
    ensures fresh(s) && s.objects == objects && Calling(s) && s.model == Runs.Started(priorities, values, 0)
  {
    hide Runs.Started, Steps.KernelInv, Scheduler.Valid, Unused, UnusedObject, Registered, Unscheduled, Runs.CreatedReady, Runs.CreatedRegistry;
    FreshValues(objects, values);
    var all := priorities + [IDLE_PRIORITY];
    var tasks := MakeTasks(all);
    MadeInBounds(priorities, values);
    s := new Scheduler(tasks, objects, first, Made(priorities, values));
    SchedulerIsNew(s, first);
    MadeValid(s, priorities, values, first);
    assert all[..0] == [];
    NoneReady();
    for i := 0 to |all|
      invariant s.Valid() && s.tasks == tasks && s.objects == objects && |tasks| == |all|
      invariant s.model == Made(priorities, values).(ready := Runs.CreatedReady(all[..i]))
      invariant StorageShown(s, values)
    {
      ValidInBounds(s);
      CreateStep(priorities, values, all, i);
      NotReady(s, tasks[i]);
      ReadyListInsert(s, tasks[i]);
    }
    assert all[..|all|] == all;
    SwitchContext(s);
    StartedIs(priorities, values);
  }

  lemma NoneReady()
    ensures Runs.CreatedReady([]) == NO_READY
  {
  }

  lemma FreshValues(objects: seq<SyncObject>, values: seq<Object>)
    requires Unused(objects, values)
    ensures Runs.FreshObjects(values) && |values| == |objects|
  {
  }

  lemma SchedulerIsNew(s: Scheduler, first: SyncObject?)
    requires s.mutexRegistry == first && s.current == null && s.tick == 0
    requires s.delayedList.place == DelayPlace && Empty(s.delayedList) && |s.readyLists| == 8
    requires forall p {:trigger s.readyLists[p]} :: 0 <= p < 8 ==> s.readyLists[p].place == ReadyPlace(p) && Empty(s.readyLists[p])
    ensures Unscheduled(s, first)
  {
  }

  lemma StartedIs(priorities: seq<Priority>, values: seq<Object>)
    requires Runs.FreshObjects(values)
    ensures var m := Made(priorities, values).(ready := Runs.CreatedReady(priorities + [IDLE_PRIORITY]));
      InBounds(m) && Runs.Started(priorities, values, 0) == TaskModel.SwitchContext(m)
    ensures Runs.Started(priorities, values, 0).objects == values && Steps.KernelInv(Runs.Started(priorities, values, 0))
  {
    Runs.StartedInv(priorities, values, 0);
    Runs.CreatedInBounds(priorities, values, 0);
    Runs.StartedUntouched(priorities, values, 0);
  }

  method MakeTasks(all: seq<Priority>) returns (tasks: seq<Task>)
    ensures fresh(tasks) && NewTasks(tasks, all)
  {
    tasks := [];
    for i := 0 to |all|
      invariant |tasks| == i && fresh(tasks)
      invariant forall t {:trigger tasks[t]} :: 0 <= t < i ==> NewTask(tasks[t], t, all[t])
    {
      var task := new Task(i, all[i]);
      tasks := tasks + [task];
    }
  }
}
