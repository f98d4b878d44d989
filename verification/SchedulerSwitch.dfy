/** kernel/tasks.c: run states, the selection of the next task and the switch to it. */
module SchedulerSwitch {
  import opened Ticks
  import opened Lists
  import opened KernelState
  import TaskModel
  import opened Placement
  import opened Objects
  import opened SchedulerObject
  import opened SchedulerReady
  import opened SchedulerPriority

  method WriteState(s: Scheduler, task: Task, state: TaskState, result: bool, ghost tcbs: seq<Tcb>)
    requires Numbered(s.tasks) && s.Knows(task) && s.TasksShown(tcbs)
    modifies task`state, task`waitResult
    ensures s.TasksShown(tcbs[task.number := tcbs[task.number].(state := state, waitResult := result)])
    ensures task.state == state && task.waitResult == result
  {
    task.waitResult := result;
    task.state := state;
  }

  /** The state and the result of a wait. */
  method SetStateFields(s: Scheduler, task: Task, state: TaskState, result: bool)
    requires s.Valid() && s.Knows(task)
    modifies s`model, task`state, task`waitResult
    ensures s.Valid() && task.number < |old(s.model).tasks| && task.state == state && task.waitResult == result
    ensures s.model == TaskModel.WithTask(old(s.model), task.number,
              old(s.model).tasks[task.number].(state := state, waitResult := result))
  {
    hide Scheduler.Valid, Scheduler.TasksShown, Scheduler.Shape, Scheduler.ReadyThreaded, Scheduler.DelayThreaded,
      Scheduler.EventsThreaded, Scheduler.Beyond, InBounds, Priorities, EventLists;
    ValidParts(s);
    ListsApart(s);
    ghost var m, t := s.model, task.number;
    ghost var tcb := m.tasks[t].(state := state, waitResult := result);
    TouchedInBounds(m, t, tcb);
    WriteState(s, task, state, result, m.tasks);
    s.model := TaskModel.WithTask(m, t, tcb);
    TouchedValid(s, m, t, tcb);
  }

  function WaitingTcb(
    tcb: Tcb, state: TaskState, wakeTick: Tick, obj: Option<nat>, reason: WaitReason, result: bool, hasTimeout: bool,
    call: Call, deadline: nat): Tcb
  {
    tcb.(state := state, wakeTick := wakeTick, waitObject := obj, waitReason := reason, waitResult := result,
         waitHasTimeout := hasTimeout, call := call, deadline := deadline)
  }

  method WriteWait(
    s: Scheduler, task: Task, state: TaskState, wakeTick: Tick, waitObject: SyncObject?, reason: WaitReason, result: bool,
    hasTimeout: bool, ghost tcbs: seq<Tcb>, ghost obj: Option<nat>, ghost call: Call, ghost deadline: nat)
    requires Numbered(s.tasks) && s.Knows(task) && s.TasksShown(tcbs) && waitObject == ObjectOf(s.objects, obj)
    modifies task`state, task`wakeTick, task`waitObject, task`waitReason, task`waitResult, task`waitHasTimeout
    ensures s.TasksShown(tcbs[task.number :=
              WaitingTcb(tcbs[task.number], state, wakeTick, obj, reason, result, hasTimeout, call, deadline)])
    ensures task.state == state
  {
    task.state := state;
    task.wakeTick := wakeTick;
    task.waitObject := waitObject;
    task.waitReason := reason;
    task.waitResult := result;
    task.waitHasTimeout := hasTimeout;
  }

  /** All that describes a wait, with the model's bookkeeping of call and deadline. */
  method SetWaitFields(
    s: Scheduler, task: Task, state: TaskState, wakeTick: Tick, waitObject: SyncObject?, reason: WaitReason, result: bool,
    hasTimeout: bool, ghost obj: Option<nat>, ghost call: Call, ghost deadline: nat)
    requires s.Valid() && s.Knows(task) && waitObject == ObjectOf(s.objects, obj)
    requires (obj.Some? ==> obj.value < |s.objects|) && (call.NoCall? || call.InDelay? || call.obj < |s.objects|)
    modifies s`model, task`state, task`wakeTick, task`waitObject, task`waitReason, task`waitResult, task`waitHasTimeout
    ensures s.Valid() && task.number < |old(s.model).tasks| && task.state == state
    ensures s.model == TaskModel.WithTask(old(s.model), task.number,
              WaitingTcb(old(s.model).tasks[task.number], state, wakeTick, obj, reason, result, hasTimeout, call, deadline))
  {
    hide Scheduler.Valid, Scheduler.TasksShown, Scheduler.Shape, Scheduler.ReadyThreaded, Scheduler.DelayThreaded,
      Scheduler.EventsThreaded, Scheduler.Beyond, InBounds, Priorities, EventLists;
    ValidParts(s);
    ListsApart(s);
    ghost var m, t := s.model, task.number;
    ghost var tcb := WaitingTcb(m.tasks[t], state, wakeTick, obj, reason, result, hasTimeout, call, deadline);
    WaitingInBounds(m, t, tcb);
    WriteWait(s, task, state, wakeTick, waitObject, reason, result, hasTimeout, m.tasks, obj, call, deadline);
    s.model := TaskModel.WithTask(m, t, tcb);
    TouchedValid(s, m, t, tcb);
  }

  lemma WaitingInBounds(m: State, t: nat, tcb: Tcb)
    requires InBounds(m) && t < |m.tasks| && tcb.eventList == m.tasks[t].eventList
    requires (tcb.waitObject.Some? ==> tcb.waitObject.value < |m.objects|)
    requires tcb.call.NoCall? || tcb.call.InDelay? || tcb.call.obj < |m.objects|
    ensures TcbInBounds(tcb, |m.objects|) && InBounds(TaskModel.WithTask(m, t, tcb))
  {
  }

  method SetCurrent(s: Scheduler, task: Task?)
    requires s.Valid() && (task != null ==> s.Knows(task))
    modifies s`model, s`current
    ensures s.Valid() && s.current == task
    ensures s.model == old(s.model).(current := if task == null then None else Some(task.number))
  {
    hide Scheduler.Shape, Scheduler.ReadyThreaded, Scheduler.DelayThreaded, Scheduler.EventsThreaded,
      Scheduler.TasksShown, Priorities, EventLists;
    ValidInBounds(s);
    ListsApart(s);
    s.current := task;
    s.model := s.model.(current := if task == null then None else Some(task.number));
  }

  /** The head of a ready list and its flag. */
  lemma ReadyHead(s: Scheduler, p: Priority)
    requires s.Valid()
    ensures AllBelow(s.model.ready[p], |s.tasks|) && s.readyLists[p].head == At(s.tasks, s.model.ready[p], 0)
    ensures |s.model.tasks| == |s.tasks|
    ensures var q := s.model.ready[p]; q != [] ==>
      s.Knows(s.tasks[q[0]]) && s.tasks[q[0]].inReadyList && s.tasks[q[0]].number == q[0] && s.model.tasks[q[0]].priority == p
  {
    ReadyChainAt(s, Priorities(s.model.tasks), s.model.ready, p);
    var q := s.model.ready[p];
    if q != [] {
      assert Priorities(s.model.tasks)[s.model.ready[p][0]] == p;
      assert q[0] in q;
    }
  }

  /** Takes the head of the highest ready list that is not empty. */
  method SelectNextReadyTask(s: Scheduler) returns (selected: Task?)
    requires s.Valid()
    modifies s`model, s.tasks`readyNext, s.tasks`readyPrevious, s.tasks`inReadyList, s.readyLists
    ensures s.Valid() && |old(s.model).tasks| == |s.tasks| && InBounds(old(s.model))
    ensures selected == null <==> TaskModel.HighestReady(old(s.model).ready, MAX_PRIORITIES).None?
    ensures selected == null ==> s.model == old(s.model)
    ensures selected != null ==>
      var p := TaskModel.HighestReady(old(s.model).ready, MAX_PRIORITIES).value;
      && s.Knows(selected) && selected.number == old(s.model).ready[p][0] && old(s.model).tasks[selected.number].priority == p
      && s.model == TaskModel.ReadyListRemove(old(s.model), selected.number)
  {
    hide Scheduler.Valid, TaskModel.ReadyListRemove;
    ValidInBounds(s);
    ghost var m := s.model;
    selected := null;
    for priority := 8 downto 0
      invariant s.Valid() && s.model == m
      invariant forall q: Priority :: priority <= q < 8 ==> m.ready[q] == []
    {
      ReadyHead(s, priority);
      var list := s.readyLists[priority];
      if list.head != null {
        selected := list.head;
        HighestReadyIs(m.ready, 8, priority);
        ReadyListRemove(s, selected);
        return;
      }
    }
  }

  /** vTaskSwitchContext. */
  method SwitchContext(s: Scheduler)
    requires s.Valid()
    modifies s`model, s`current, s.tasks, s.readyLists
    ensures s.Valid() && InBounds(old(s.model)) && s.model == TaskModel.SwitchContext(old(s.model))
  {
    hide Scheduler.Valid, Scheduler.Shape, InBounds;
    ghost var m := s.model;
    ValidInBounds(s);
    var next := SelectNextReadyTask(s);
    if next == null {
      SetCurrent(s, null);
      return;
    }
    SetCurrent(s, next);
    ValidInBounds(s);
    ShownResult(s, next);
    SetStateFields(s, next, Running, next.waitResult);
    SwitchContextIs(m, next.number, s.model);
  }

  lemma ShownResult(s: Scheduler, task: Task)
    requires s.Valid() && s.Knows(task)
    ensures task.number < |s.model.tasks| && task.waitResult == s.model.tasks[task.number].waitResult
  {
    TaskShown(s, task);
  }

  lemma SwitchContextIs(m: State, next: nat, r: State)
    requires InBounds(m) && next < |m.tasks|
    requires TaskModel.HighestReady(m.ready, MAX_PRIORITIES).Some?
    requires var p := TaskModel.HighestReady(m.ready, MAX_PRIORITIES).value;
      && m.ready[p][0] == next && m.tasks[next].priority == p
      && var taken := TaskModel.ReadyListRemove(m, next).(current := Some(next));
      && r == TaskModel.WithTask(taken, next, taken.tasks[next].(state := Running, waitResult := taken.tasks[next].waitResult))
    ensures r == TaskModel.SwitchContext(m)
  {
    var p := TaskModel.HighestReady(m.ready, MAX_PRIORITIES).value;
    var taken := TaskModel.ReadyListRemove(m, next).(current := Some(next));
    assert taken == m.(ready := m.ready[p := Remove(m.ready[p], next)], current := Some(next));
    assert taken.tasks[next].(state := Running, waitResult := taken.tasks[next].waitResult) == taken.tasks[next].(state := Running);
  }

  /** A task that is in no list becomes ready. */
  method MakeReady(s: Scheduler, task: Task, result: bool)
    requires s.Valid() && s.Knows(task) && !task.inReadyList
    modifies s`model, s.tasks, s.readyLists
    ensures s.Valid() && InBounds(old(s.model)) && task.number < |old(s.model).tasks|
    ensures s.model == TaskModel.MakeReady(old(s.model), task.number, result)
  {
    hide Scheduler.Valid, Scheduler.Shape, InBounds;
    ValidInBounds(s);
    SetStateFields(s, task, Ready, result);
    ReadyListInsert(s, task);
  }

  /** vTaskYield and the dispatch it leads to. */
  method YieldCurrent(s: Scheduler)
    requires s.Valid() && s.current != null && s.Knows(s.current) && !s.current.inReadyList
    modifies s`model, s`current, s.tasks, s.readyLists
    ensures s.Valid() && InBounds(old(s.model)) && old(s.model).current.Some?
    ensures s.model == TaskModel.YieldCurrent(old(s.model))
  {
    hide Scheduler.Valid, Scheduler.Shape, InBounds, TaskModel.SwitchContext;
    ghost var m := s.model;
    var task := s.current;
    ValidInBounds(s);
    CurrentShown(s);
    ShownResult(s, task);
    SetStateFields(s, task, Ready, task.waitResult);
    ReadyListInsert(s, task);
    assert m.tasks[task.number].(state := Ready, waitResult := m.tasks[task.number].waitResult) == m.tasks[task.number].(state := Ready);
    SwitchContext(s);
  }

  lemma CurrentShown(s: Scheduler)
    requires s.Valid()
    ensures s.current == null <==> s.model.current.None?
    ensures s.current != null ==> s.Knows(s.current) && s.model.current == Some(s.current.number)
  {
  }
}
