/** kernel/tasks.c: the delay list in place. */
module SchedulerDelay {
  import opened Ticks
  import opened Lists
  import opened KernelState
  import TaskModel
  import opened Objects
  import opened SchedulerObject

  method SetDelayNext(tasks: seq<Task>, task: Task, next: Task?)
    requires Numbered(tasks) && task.number < |tasks| && tasks[task.number] == task
    modifies task`delayNext
    ensures task.delayNext == next && DelayNexts(tasks) == old(DelayNexts(tasks))[task.number := next]
  {
    hide DelayNexts;
    DelayNextsAt(tasks);
    ghost var before := DelayNexts(tasks);
    task.delayNext := next;
    DelayNextsAt(tasks);
    assert DelayNexts(tasks) == before[task.number := next];
  }

  method SetDelayPrevious(tasks: seq<Task>, task: Task, previous: Task?)
    requires Numbered(tasks) && task.number < |tasks| && tasks[task.number] == task
    modifies task`delayPrevious
    ensures task.delayPrevious == previous
    ensures DelayPreviouses(tasks) == old(DelayPreviouses(tasks))[task.number := previous]
  {
    hide DelayPreviouses;
    DelayPreviousesAt(tasks);
    ghost var before := DelayPreviouses(tasks);
    task.delayPrevious := previous;
    DelayPreviousesAt(tasks);
    assert DelayPreviouses(tasks) == before[task.number := previous];
  }

  /** The links around position `k` of the list, as the fields show them. */
  lemma DelayLinksAt(tasks: seq<Task>, q: seq<nat>, k: nat)
    requires Numbered(tasks) && Chain(tasks, DelayNexts(tasks), DelayPreviouses(tasks), q) && k < |q|
    ensures tasks[q[k]].delayNext == At(tasks, q, k + 1) && tasks[q[k]].delayPrevious == At(tasks, q, k - 1)
    ensures forall i, j :: 0 <= i < j < |q| ==> tasks[q[i]] != tasks[q[j]]
  {
    DelayNextsAt(tasks);
    DelayPreviousesAt(tasks);
    assert DelayNexts(tasks)[q[k]] == At(tasks, q, k + 1) && DelayPreviouses(tasks)[q[k]] == At(tasks, q, k - 1);
  }

  /** The pointer work of an insertion before `cursor`, at the end if that is null. */
  method LinkDelayIn(tasks: seq<Task>, list: List, task: Task, cursor: Task?, ghost q: seq<nat>, ghost k: nat)
    requires Numbered(tasks) && task.number < |tasks| && tasks[task.number] == task && task.number !in q
    requires Chain(tasks, DelayNexts(tasks), DelayPreviouses(tasks), q) && Ends(tasks, list, q)
    requires k <= |q| && cursor == At(tasks, q, k)
    modifies tasks`delayNext, tasks`delayPrevious, list
    ensures LinkedIn(tasks, old(DelayNexts(tasks)), old(DelayPreviouses(tasks)), DelayNexts(tasks), DelayPreviouses(tasks), q, k, task.number)
    ensures AllBelow(InsertAt(q, k, task.number), |tasks|) && Ends(tasks, list, InsertAt(q, k, task.number))
  {
    hide DelayNexts, DelayPreviouses, Chain;
    ChainMembers(tasks, DelayNexts(tasks), DelayPreviouses(tasks), q);
    if k < |q| { DelayLinksAt(tasks, q, k); }
    if cursor == null {
      SetDelayPrevious(tasks, task, list.tail);
      SetDelayNext(tasks, task, null);
      if list.tail != null {
        SetDelayNext(tasks, list.tail, task);
      } else {
        list.head := task;
      }
      list.tail := task;
    } else {
      assert q[k] in q;
      SetDelayPrevious(tasks, task, cursor.delayPrevious);
      SetDelayNext(tasks, task, cursor);
      if cursor.delayPrevious != null {
        SetDelayNext(tasks, cursor.delayPrevious, task);
      } else {
        list.head := task;
      }
      SetDelayPrevious(tasks, cursor, task);
    }
    list.length := list.length + 1;
  }

  /** The pointer work of a removal. */
  method LinkDelayOut(tasks: seq<Task>, list: List, task: Task, ghost q: seq<nat>, ghost k: nat)
    requires Numbered(tasks) && Chain(tasks, DelayNexts(tasks), DelayPreviouses(tasks), q) && k < |q|
    requires tasks[q[k]] == task && Ends(tasks, list, q)
    modifies tasks`delayNext, tasks`delayPrevious, list
    ensures LinkedOut(tasks, old(DelayNexts(tasks)), old(DelayPreviouses(tasks)), DelayNexts(tasks), DelayPreviouses(tasks), q, k)
    ensures AllBelow(q[..k] + q[k + 1..], |tasks|) && Ends(tasks, list, q[..k] + q[k + 1..])
  {
    hide DelayNexts, DelayPreviouses, Chain;
    DelayLinksAt(tasks, q, k);
    ChainMembers(tasks, DelayNexts(tasks), DelayPreviouses(tasks), q);
    if task.delayPrevious != null {
      SetDelayNext(tasks, task.delayPrevious, task.delayNext);
    } else {
      list.head := task.delayNext;
    }
    if task.delayNext != null {
      SetDelayPrevious(tasks, task.delayNext, task.delayPrevious);
    } else {
      list.tail := task.delayPrevious;
    }
    SetDelayPrevious(tasks, task, null);
    SetDelayNext(tasks, task, null);
    list.length := list.length - 1;
  }

  lemma DelayChainAt(s: Scheduler, delayed: seq<nat>)
    requires s.Shape() && s.DelayThreaded(delayed)
    ensures Chain(s.tasks, DelayNexts(s.tasks), DelayPreviouses(s.tasks), delayed) && NoDup(delayed)
    ensures AllBelow(delayed, |s.tasks|) && Ends(s.tasks, s.delayedList, delayed)
  {
  }

  lemma {:induction false} DelayPositionIs(tasks: seq<Tcb>, q: seq<nat>, wakeTick: Tick, k: nat)
    requires AllBelow(q, |tasks|) && k <= |q|
    requires forall i :: 0 <= i < k ==> !TickBefore(wakeTick, tasks[q[i]].wakeTick)
    requires k < |q| ==> TickBefore(wakeTick, tasks[q[k]].wakeTick)
    ensures TaskModel.DelayPosition(tasks, q, wakeTick) == k
  {
    if k > 0 { DelayPositionIs(tasks, q[1..], wakeTick, k - 1); }
  }

  /** The cursor stops at the first task whose wake tick lies after the new one. */
  method FindDelayPosition(s: Scheduler, task: Task) returns (cursor: Task?, ghost k: nat)
    requires s.Valid() && s.Knows(task)
    ensures AllBelow(s.model.delayed, |s.tasks|) && k <= |s.model.delayed| && cursor == At(s.tasks, s.model.delayed, k)
    ensures k == TaskModel.DelayPosition(s.model.tasks, s.model.delayed, task.wakeTick)
  {
    hide Scheduler.ReadyThreaded, Scheduler.EventsThreaded, Scheduler.Beyond, Chain, DelayNexts, DelayPreviouses;
    ghost var q := s.model.delayed;
    DelayChainAt(s, q);
    cursor := s.delayedList.head;
    k := 0;
    while cursor != null && !TickBefore(task.wakeTick, cursor.wakeTick)
      invariant k <= |q| && cursor == At(s.tasks, q, k)
      invariant forall i :: 0 <= i < k ==> !TickBefore(task.wakeTick, s.model.tasks[q[i]].wakeTick)
      decreases |q| - k
    {
      DelayLinksAt(s.tasks, q, k);
      cursor := cursor.delayNext;
      k := k + 1;
    }
    DelayPositionIs(s.model.tasks, q, task.wakeTick, k);
  }

  method AttachDelay(s: Scheduler, task: Task, cursor: Task?, ghost delayed: seq<nat>, ghost k: nat)
    requires s.Shape() && s.Knows(task) && s.DelayThreaded(delayed) && AllBelow(delayed, |s.tasks|)
    requires !task.inDelayList && k <= |delayed| && cursor == At(s.tasks, delayed, k)
    modifies s.tasks`delayNext, s.tasks`delayPrevious, s.tasks`inDelayList, s.delayedList
    ensures s.DelayThreaded(InsertAt(delayed, k, task.number))
  {
    hide Chain, LinkedIn, DelayNexts, DelayPreviouses, InsertAt;
    ghost var t := task.number;
    ghost var next, previous := DelayNexts(s.tasks), DelayPreviouses(s.tasks);
    DelayChainAt(s, delayed);
    InsertAtMembers(delayed, k, t);
    LinkDelayIn(s.tasks, s.delayedList, task, cursor, delayed, k);
    task.inDelayList := true;
    ChainInsert(s.tasks, next, previous, DelayNexts(s.tasks), DelayPreviouses(s.tasks), delayed, k, t);
  }

  lemma DelayListInsertIs(m: State, t: nat, k: nat)
    requires InBounds(m) && t < |m.tasks| && k == TaskModel.DelayPosition(m.tasks, m.delayed, m.tasks[t].wakeTick)
    ensures var r := TaskModel.DelayListInsert(m, t);
      && InBounds(r)
      && r == m.(delayed := InsertAt(m.delayed, k, t), tasks := m.tasks[t := m.tasks[t].(delayStamp := m.stamps)], stamps := m.stamps + 1)
  {
  }

  lemma DelayStamped(s: Scheduler, m: State, r: State, t: nat, tcb: Tcb)
    requires t < |m.tasks| && Same(m.tasks[t], tcb)
    requires InBounds(m) && InBounds(r) && s.OutsideDelay(m)
    requires r == m.(delayed := r.delayed, tasks := m.tasks[t := tcb], stamps := r.stamps)
    ensures s.OutsideDelay(r)
  {
    StampShown(s, m.tasks, t, tcb);
    OutsideDelaySame(s, m, r);
  }

  method PlaceDelay(s: Scheduler, task: Task, cursor: Task?, ghost k: nat)
    requires s.Valid() && s.Knows(task) && !task.inDelayList
    requires AllBelow(s.model.delayed, |s.tasks|) && k <= |s.model.delayed| && cursor == At(s.tasks, s.model.delayed, k)
    requires k == TaskModel.DelayPosition(s.model.tasks, s.model.delayed, task.wakeTick)
    modifies s`model, s.tasks`delayNext, s.tasks`delayPrevious, s.tasks`inDelayList, s.delayedList
    ensures s.Valid() && s.model == TaskModel.DelayListInsert(old(s.model), task.number)
  {
    hide Scheduler.Shape, Scheduler.DelayThreaded, Scheduler.OutsideDelay, Scheduler.Valid, InBounds, Priorities,
      EventLists, TaskModel.DelayListInsert, TaskModel.DelayPosition, InsertAt;
    ghost var m, t := s.model, task.number;
    ValidInBounds(s);
    TaskShown(s, task);
    ShownFields(task, m.tasks[t], s.objects);
    DelaySide(s);
    ListsApart(s);
    DelayListInsertIs(m, t, k);
    AttachDelay(s, task, cursor, m.delayed, k);
    s.model := TaskModel.DelayListInsert(m, t);
    DelayStamped(s, m, s.model, t, m.tasks[t].(delayStamp := m.stamps));
    DelaySide(s);
  }

  method DelayListInsert(s: Scheduler, task: Task)
    requires s.Valid() && s.Knows(task) && !task.inDelayList
    modifies s`model, s.tasks`delayNext, s.tasks`delayPrevious, s.tasks`inDelayList, s.delayedList
    ensures s.Valid() && s.model == TaskModel.DelayListInsert(old(s.model), task.number)
  {
    hide Scheduler.Shape, Scheduler.TasksShown, Scheduler.EventsThreaded, Scheduler.OutsideEvents, InBounds,
      TaskModel.DelayListInsert, TaskModel.DelayPosition;
    ListsApart(s);
    ghost var k;
    var cursor;
    cursor, k := FindDelayPosition(s, task);
    PlaceDelay(s, task, cursor, k);
  }

  method DetachDelay(s: Scheduler, task: Task, ghost delayed: seq<nat>)
    requires s.Shape() && s.Knows(task) && s.DelayThreaded(delayed) && task.inDelayList
    modifies s.tasks`delayNext, s.tasks`delayPrevious, s.tasks`inDelayList, s.delayedList
    ensures s.DelayThreaded(Remove(delayed, task.number)) && !task.inDelayList
  {
    hide Chain, LinkedOut, DelayNexts, DelayPreviouses;
    ghost var next, previous := DelayNexts(s.tasks), DelayPreviouses(s.tasks);
    DelayChainAt(s, delayed);
    ghost var k := IndexOf(delayed, task.number);
    RemoveAt(delayed, k);
    LinkDelayOut(s.tasks, s.delayedList, task, delayed, k);
    task.inDelayList := false;
    ChainRemove(s.tasks, next, previous, DelayNexts(s.tasks), DelayPreviouses(s.tasks), delayed, k);
  }

  lemma DelayRemoved(s: Scheduler, m: State, t: nat)
    requires InBounds(m) && t < |m.tasks| && s.OutsideDelay(m)
    ensures var r := TaskModel.DelayListRemove(m, t); r == m.(delayed := Remove(m.delayed, t)) && InBounds(r) && s.OutsideDelay(r)
  {
    OutsideDelaySame(s, m, TaskModel.DelayListRemove(m, t));
  }

  method DelayListRemove(s: Scheduler, task: Task)
    requires s.Valid() && s.Knows(task) && task.inDelayList
    modifies s`model, s.tasks`delayNext, s.tasks`delayPrevious, s.tasks`inDelayList, s.delayedList
    ensures s.Valid() && s.model == TaskModel.DelayListRemove(old(s.model), task.number) && !task.inDelayList
  {
    hide Scheduler.Shape, Scheduler.DelayThreaded, Scheduler.OutsideDelay, Scheduler.Valid, InBounds, Priorities,
      EventLists, TaskModel.DelayListRemove;
    ghost var m := s.model;
    ValidInBounds(s);
    DelaySide(s);
    ListsApart(s);
    DetachDelay(s, task, m.delayed);
    s.model := TaskModel.DelayListRemove(m, task.number);
    DelayRemoved(s, m, task.number);
    DelaySide(s);
  }
}
