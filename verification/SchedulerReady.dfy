/** kernel/tasks.c: the ready lists in place. */
module SchedulerReady {
  import opened Ticks
  import opened Lists
  import opened KernelState
  import TaskModel
  import opened Objects
  import opened SchedulerObject

  method SetReadyNext(tasks: seq<Task>, task: Task, next: Task?)
    requires Numbered(tasks) && task.number < |tasks| && tasks[task.number] == task
    modifies task`readyNext
    ensures task.readyNext == next && ReadyNexts(tasks) == old(ReadyNexts(tasks))[task.number := next]
  {
    hide ReadyNexts;
    ReadyNextsAt(tasks);
    ghost var before := ReadyNexts(tasks);
    task.readyNext := next;
    ReadyNextsAt(tasks);
    assert ReadyNexts(tasks) == before[task.number := next];
  }

  method SetReadyPrevious(tasks: seq<Task>, task: Task, previous: Task?)
    requires Numbered(tasks) && task.number < |tasks| && tasks[task.number] == task
    modifies task`readyPrevious
    ensures task.readyPrevious == previous
    ensures ReadyPreviouses(tasks) == old(ReadyPreviouses(tasks))[task.number := previous]
  {
    hide ReadyPreviouses;
    ReadyPreviousesAt(tasks);
    ghost var before := ReadyPreviouses(tasks);
    task.readyPrevious := previous;
    ReadyPreviousesAt(tasks);
    assert ReadyPreviouses(tasks) == before[task.number := previous];
  }

  /** Appending to the list of priority `p` threads every ready list as before. */
  lemma ReadyChainsAppend(
    tasks: seq<Task>, next: seq<Task?>, previous: seq<Task?>, next': seq<Task?>, previous': seq<Task?>,
    priorities: seq<Priority>, ready: ReadyLists, t: nat)
    requires ReadyChains(tasks, next, previous, ready) && InOwnList(priorities, ready) && |priorities| == |tasks|
    requires t < |tasks| && t !in ready[priorities[t]]
    requires var q := ready[priorities[t]]; LinkedIn(tasks, next, previous, next', previous', q, |q|, t)
    ensures var p := priorities[t]; var r := ready[p := ready[p] + [t]];
      ReadyChains(tasks, next', previous', r) && InOwnList(priorities, r)
  {
    hide InsertAt;
    var p := priorities[t];
    var q := ready[p];
    var r := ready[p := q + [t]];
    forall p': Priority ensures Chain(tasks, next', previous', r[p']) {
      if p' == p {
        ChainInsert(tasks, next, previous, next', previous', q, |q|, t);
        InsertLast(q, t);
      } else {
        OtherReadyKept(tasks, next, previous, next', previous', priorities, ready, t, p');
      }
    }
  }

  lemma InsertLast(q: seq<nat>, t: nat)
    ensures InsertAt(q, |q|, t) == q + [t]
  {
  }

  lemma OtherReadyKept(
    tasks: seq<Task>, next: seq<Task?>, previous: seq<Task?>, next': seq<Task?>, previous': seq<Task?>,
    priorities: seq<Priority>, ready: ReadyLists, t: nat, p: Priority)
    requires ReadyChains(tasks, next, previous, ready) && InOwnList(priorities, ready) && |priorities| == |tasks|
    requires t < |tasks| && p != priorities[t]
    requires var q := ready[priorities[t]]; LinkedIn(tasks, next, previous, next', previous', q, |q|, t)
    ensures Chain(tasks, next', previous', ready[p])
  {
    hide Chain;
    assert Chain(tasks, next, previous, ready[p]);
    var q := ready[priorities[t]];
    forall i | 0 <= i < |ready[p]|
      ensures ready[p][i] < |tasks| && next'[ready[p][i]] == next[ready[p][i]]
      ensures previous'[ready[p][i]] == previous[ready[p][i]]
    {
      assert priorities[ready[p][i]] == p;
      if q != [] { assert priorities[q[|q| - 1]] == priorities[t]; }
    }
    ChainKept(tasks, next, previous, next', previous', ready[p]);
  }

  /** What the code may rely on in the list of priority `p`. */
  lemma ReadyListAt(s: Scheduler, priorities: seq<Priority>, ready: ReadyLists, p: Priority)
    requires s.Shape() && s.ReadyThreaded(priorities, ready)
    ensures AllBelow(ready[p], |s.tasks|) && Ends(s.tasks, s.readyLists[p], ready[p])
    ensures forall i {:trigger ready[p][i]} :: 0 <= i < |ready[p]| ==> s.Knows(s.tasks[ready[p][i]])
  {
    assert Chain(s.tasks, ReadyNexts(s.tasks), ReadyPreviouses(s.tasks), ready[p]);
  }

  /** The pointer work of an append. */
  method LinkReadyLast(tasks: seq<Task>, list: List, task: Task, ghost q: seq<nat>)
    requires Numbered(tasks) && task.number < |tasks| && tasks[task.number] == task
    requires AllBelow(q, |tasks|) && Ends(tasks, list, q)
    modifies tasks`readyNext, tasks`readyPrevious, list
    ensures LinkedIn(tasks, old(ReadyNexts(tasks)), old(ReadyPreviouses(tasks)), ReadyNexts(tasks), ReadyPreviouses(tasks), q, |q|, task.number)
    ensures AllBelow(q + [task.number], |tasks|) && Ends(tasks, list, q + [task.number])
  {
    hide ReadyNexts, ReadyPreviouses;
    SetReadyPrevious(tasks, task, list.tail);
    SetReadyNext(tasks, task, null);
    if list.tail != null {
      SetReadyNext(tasks, list.tail, task);
    } else {
      list.head := task;
    }
    list.tail := task;
    list.length := list.length + 1;
  }

  method AppendReady(s: Scheduler, task: Task, ghost priorities: seq<Priority>, ghost ready: ReadyLists)
    requires s.Shape() && s.Knows(task) && s.ReadyThreaded(priorities, ready)
    requires !task.inReadyList && task.priority == priorities[task.number]
    modifies s.tasks`readyNext, s.tasks`readyPrevious, s.tasks`inReadyList, s.readyLists
    ensures s.ReadyThreaded(priorities, ready[task.priority := ready[task.priority] + [task.number]])
    ensures task.inReadyList
  {
    hide ReadyChains, InOwnList, Chain, LinkedIn, ReadyNexts, ReadyPreviouses;
    ghost var q, t := ready[task.priority], task.number;
    ghost var next, previous := ReadyNexts(s.tasks), ReadyPreviouses(s.tasks);
    ReadyListAt(s, priorities, ready, task.priority);
    LinkReadyLast(s.tasks, s.readyLists[task.priority], task, q);
    task.inReadyList := true;
    ReadyChainsAppend(s.tasks, next, previous, ReadyNexts(s.tasks), ReadyPreviouses(s.tasks), priorities, ready, t);
  }

  lemma ReadyListInsertIs(m: State, t: nat)
    requires InBounds(m) && t < |m.tasks|
    ensures var p := Priorities(m.tasks)[t]; var ready := m.ready[p := m.ready[p] + [t]];
      TaskModel.ReadyListInsert(m, t) == m.(ready := ready) && InBounds(m.(ready := ready))
  {
  }

  /** The other lists and fields are untouched. */
  method AppendReadyAlone(s: Scheduler, task: Task, ghost m: State)
    requires s.Shape() && s.Knows(task) && InBounds(m)
    requires s.ReadyThreaded(Priorities(m.tasks), m.ready) && s.OutsideReady(m)
    requires !task.inReadyList && task.priority == Priorities(m.tasks)[task.number]
    modifies s.tasks`readyNext, s.tasks`readyPrevious, s.tasks`inReadyList, s.readyLists
    ensures var p := task.priority; var ready := m.ready;
      s.ReadyThreaded(Priorities(m.tasks), ready[p := ready[p] + [task.number]]) && task.inReadyList
    ensures s.OutsideReady(m)
  {
    hide Scheduler.ReadyThreaded, Scheduler.OutsideReady, InBounds, Priorities;
    ListsApart(s);
    AppendReady(s, task, Priorities(m.tasks), m.ready);
  }

  method ReadyListInsert(s: Scheduler, task: Task)
    requires s.Valid() && s.Knows(task) && !task.inReadyList
    modifies s`model, s.tasks`readyNext, s.tasks`readyPrevious, s.tasks`inReadyList, s.readyLists
    ensures s.Valid() && s.model == TaskModel.ReadyListInsert(old(s.model), task.number) && task.inReadyList
  {
    hide Scheduler.Shape, Scheduler.ReadyThreaded, Scheduler.OutsideReady, Scheduler.Valid, InBounds, Priorities,
      TaskModel.ReadyListInsert;
    ghost var m := s.model;
    ValidInBounds(s);
    TaskShown(s, task);
    ReadySide(s);
    ListsApart(s);
    ReadyListInsertIs(m, task.number);
    AppendReadyAlone(s, task, m);
    s.model := TaskModel.ReadyListInsert(m, task.number);
    OutsideReadySame(s, m, s.model.ready);
    ReadySide(s);
  }

  // ---------- removal ----------

  /** The links around position `k` of the list, as the fields show them. */
  lemma ReadyLinksAt(tasks: seq<Task>, q: seq<nat>, k: nat)
    requires Numbered(tasks) && Chain(tasks, ReadyNexts(tasks), ReadyPreviouses(tasks), q) && k < |q|
    ensures tasks[q[k]].readyNext == At(tasks, q, k + 1) && tasks[q[k]].readyPrevious == At(tasks, q, k - 1)
    ensures forall i, j :: 0 <= i < j < |q| ==> tasks[q[i]] != tasks[q[j]]
  {
    ReadyNextsAt(tasks);
    ReadyPreviousesAt(tasks);
    assert ReadyNexts(tasks)[q[k]] == At(tasks, q, k + 1) && ReadyPreviouses(tasks)[q[k]] == At(tasks, q, k - 1);
  }

  /** The pointer work of a removal. */
  method LinkReadyOut(tasks: seq<Task>, list: List, task: Task, ghost q: seq<nat>, ghost k: nat)
    requires Numbered(tasks) && Chain(tasks, ReadyNexts(tasks), ReadyPreviouses(tasks), q) && k < |q|
    requires tasks[q[k]] == task && Ends(tasks, list, q)
    modifies tasks`readyNext, tasks`readyPrevious, list
    ensures LinkedOut(tasks, old(ReadyNexts(tasks)), old(ReadyPreviouses(tasks)), ReadyNexts(tasks), ReadyPreviouses(tasks), q, k)
    ensures AllBelow(q[..k] + q[k + 1..], |tasks|) && Ends(tasks, list, q[..k] + q[k + 1..])
  {
    hide ReadyNexts, ReadyPreviouses, Chain;
    ReadyLinksAt(tasks, q, k);
    ChainMembers(tasks, ReadyNexts(tasks), ReadyPreviouses(tasks), q);
    if task.readyPrevious != null {
      SetReadyNext(tasks, task.readyPrevious, task.readyNext);
    } else {
      list.head := task.readyNext;
    }
    if task.readyNext != null {
      SetReadyPrevious(tasks, task.readyNext, task.readyPrevious);
    } else {
      list.tail := task.readyPrevious;
    }
    SetReadyPrevious(tasks, task, null);
    SetReadyNext(tasks, task, null);
    list.length := list.length - 1;
  }

  lemma ReadyChainsRemove(
    tasks: seq<Task>, next: seq<Task?>, previous: seq<Task?>, next': seq<Task?>, previous': seq<Task?>,
    priorities: seq<Priority>, ready: ReadyLists, p: Priority, k: nat)
    requires ReadyChains(tasks, next, previous, ready) && InOwnList(priorities, ready) && |priorities| == |tasks|
    requires k < |ready[p]| && LinkedOut(tasks, next, previous, next', previous', ready[p], k)
    ensures var q := ready[p]; var r := ready[p := q[..k] + q[k + 1..]];
      ReadyChains(tasks, next', previous', r) && InOwnList(priorities, r)
  {
    var q := ready[p];
    var r := ready[p := q[..k] + q[k + 1..]];
    forall p': Priority ensures Chain(tasks, next', previous', r[p']) {
      if p' == p {
        ChainRemove(tasks, next, previous, next', previous', q, k);
      } else {
        OtherReadyKeptOut(tasks, next, previous, next', previous', priorities, ready, p, k, p');
      }
    }
  }

  lemma OtherReadyKeptOut(
    tasks: seq<Task>, next: seq<Task?>, previous: seq<Task?>, next': seq<Task?>, previous': seq<Task?>,
    priorities: seq<Priority>, ready: ReadyLists, p: Priority, k: nat, other: Priority)
    requires ReadyChains(tasks, next, previous, ready) && InOwnList(priorities, ready) && |priorities| == |tasks|
    requires k < |ready[p]| && LinkedOut(tasks, next, previous, next', previous', ready[p], k) && other != p
    ensures Chain(tasks, next', previous', ready[other])
  {
    hide Chain;
    assert Chain(tasks, next, previous, ready[other]);
    var q := ready[p];
    assert priorities[q[k]] == p && (k > 0 ==> priorities[q[k - 1]] == p) && (k + 1 < |q| ==> priorities[q[k + 1]] == p);
    forall i | 0 <= i < |ready[other]|
      ensures ready[other][i] < |tasks| && next'[ready[other][i]] == next[ready[other][i]]
      ensures previous'[ready[other][i]] == previous[ready[other][i]]
    {
      assert priorities[ready[other][i]] == other;
    }
    ChainKept(tasks, next, previous, next', previous', ready[other]);
  }

  method DetachReady(s: Scheduler, task: Task, ghost priorities: seq<Priority>, ghost ready: ReadyLists)
    requires s.Shape() && s.Knows(task) && s.ReadyThreaded(priorities, ready)
    requires task.inReadyList && task.priority == priorities[task.number]
    modifies s.tasks`readyNext, s.tasks`readyPrevious, s.tasks`inReadyList, s.readyLists
    ensures s.ReadyThreaded(priorities, ready[task.priority := Remove(ready[task.priority], task.number)])
    ensures !task.inReadyList
  {
    hide ReadyChains, InOwnList, Chain, LinkedOut, ReadyNexts, ReadyPreviouses;
    ghost var q, t := ready[task.priority], task.number;
    ghost var next, previous := ReadyNexts(s.tasks), ReadyPreviouses(s.tasks);
    ReadyChainAt(s, priorities, ready, task.priority);
    ghost var k := IndexOf(q, t);
    RemoveAt(q, k);
    LinkReadyOut(s.tasks, s.readyLists[task.priority], task, q, k);
    task.inReadyList := false;
    ReadyChainsRemove(s.tasks, next, previous, ReadyNexts(s.tasks), ReadyPreviouses(s.tasks), priorities, ready, task.priority, k);
  }

  lemma ReadyChainAt(s: Scheduler, priorities: seq<Priority>, ready: ReadyLists, p: Priority)
    requires s.Shape() && s.ReadyThreaded(priorities, ready)
    ensures Chain(s.tasks, ReadyNexts(s.tasks), ReadyPreviouses(s.tasks), ready[p]) && NoDup(ready[p])
    ensures AllBelow(ready[p], |s.tasks|) && Ends(s.tasks, s.readyLists[p], ready[p])
  {
  }

  lemma ReadyListRemoveIs(m: State, t: nat)
    requires InBounds(m) && t < |m.tasks|
    ensures var p := Priorities(m.tasks)[t]; var ready := m.ready[p := Remove(m.ready[p], t)];
      TaskModel.ReadyListRemove(m, t) == m.(ready := ready) && InBounds(m.(ready := ready))
  {
  }

  /** The other lists and fields are untouched. */
  method DetachReadyAlone(s: Scheduler, task: Task, ghost m: State)
    requires s.Shape() && s.Knows(task) && InBounds(m)
    requires s.ReadyThreaded(Priorities(m.tasks), m.ready) && s.OutsideReady(m)
    requires task.inReadyList && task.priority == Priorities(m.tasks)[task.number]
    modifies s.tasks`readyNext, s.tasks`readyPrevious, s.tasks`inReadyList, s.readyLists
    ensures var p := task.priority; var ready := m.ready;
      s.ReadyThreaded(Priorities(m.tasks), ready[p := Remove(ready[p], task.number)]) && !task.inReadyList
    ensures s.OutsideReady(m)
  {
    hide Scheduler.ReadyThreaded, Scheduler.OutsideReady, InBounds, Priorities;
    ListsApart(s);
    DetachReady(s, task, Priorities(m.tasks), m.ready);
  }

  method ReadyListRemove(s: Scheduler, task: Task)
    requires s.Valid() && s.Knows(task) && task.inReadyList
    modifies s`model, s.tasks`readyNext, s.tasks`readyPrevious, s.tasks`inReadyList, s.readyLists
    ensures s.Valid() && s.model == TaskModel.ReadyListRemove(old(s.model), task.number) && !task.inReadyList
  {
    hide Scheduler.Shape, Scheduler.ReadyThreaded, Scheduler.OutsideReady, Scheduler.Valid, InBounds, Priorities,
      TaskModel.ReadyListRemove;
    ghost var m := s.model;
    ValidInBounds(s);
    TaskShown(s, task);
    ReadySide(s);
    ListsApart(s);
    ReadyListRemoveIs(m, task.number);
    DetachReadyAlone(s, task, m);
    s.model := TaskModel.ReadyListRemove(m, task.number);
    OutsideReadySame(s, m, s.model.ready);
    ReadySide(s);
  }
}
