/** kernel/tasks.c: the wait lists in place. */
module SchedulerEvent {
  import opened Ticks
  import opened Lists
  import opened KernelState
  import TaskModel
  import opened Objects
  import opened SchedulerObject

  method SetEventNext(tasks: seq<Task>, task: Task, next: Task?)
    requires Numbered(tasks) && task.number < |tasks| && tasks[task.number] == task
    modifies task`eventNext
    ensures task.eventNext == next && EventNexts(tasks) == old(EventNexts(tasks))[task.number := next]
  {
    hide EventNexts;
    EventNextsAt(tasks);
    ghost var before := EventNexts(tasks);
    task.eventNext := next;
    EventNextsAt(tasks);
    assert EventNexts(tasks) == before[task.number := next];
  }

  method SetEventPrevious(tasks: seq<Task>, task: Task, previous: Task?)
    requires Numbered(tasks) && task.number < |tasks| && tasks[task.number] == task
    modifies task`eventPrevious
    ensures task.eventPrevious == previous
    ensures EventPreviouses(tasks) == old(EventPreviouses(tasks))[task.number := previous]
  {
    hide EventPreviouses;
    EventPreviousesAt(tasks);
    ghost var before := EventPreviouses(tasks);
    task.eventPrevious := previous;
    EventPreviousesAt(tasks);
    assert EventPreviouses(tasks) == before[task.number := previous];
  }

  /** The links around position `k` of the list, as the fields show them. */
  lemma EventLinksAt(tasks: seq<Task>, q: seq<nat>, k: nat)
    requires Numbered(tasks) && Chain(tasks, EventNexts(tasks), EventPreviouses(tasks), q) && k < |q|
    ensures tasks[q[k]].eventNext == At(tasks, q, k + 1) && tasks[q[k]].eventPrevious == At(tasks, q, k - 1)
    ensures forall i, j :: 0 <= i < j < |q| ==> tasks[q[i]] != tasks[q[j]]
  {
    EventNextsAt(tasks);
    EventPreviousesAt(tasks);
    assert EventNexts(tasks)[q[k]] == At(tasks, q, k + 1) && EventPreviouses(tasks)[q[k]] == At(tasks, q, k - 1);
  }

  /** The pointer work of an insertion before `cursor`, at the end if that is null. */
  method LinkEventIn(tasks: seq<Task>, list: List, task: Task, cursor: Task?, ghost q: seq<nat>, ghost k: nat)
    requires Numbered(tasks) && task.number < |tasks| && tasks[task.number] == task && task.number !in q
    requires Chain(tasks, EventNexts(tasks), EventPreviouses(tasks), q) && Ends(tasks, list, q)
    requires k <= |q| && cursor == At(tasks, q, k)
    modifies tasks`eventNext, tasks`eventPrevious, list
    ensures LinkedIn(tasks, old(EventNexts(tasks)), old(EventPreviouses(tasks)), EventNexts(tasks), EventPreviouses(tasks), q, k, task.number)
    ensures AllBelow(InsertAt(q, k, task.number), |tasks|) && Ends(tasks, list, InsertAt(q, k, task.number))
  {
    hide EventNexts, EventPreviouses, Chain;
    ChainMembers(tasks, EventNexts(tasks), EventPreviouses(tasks), q);
    if k < |q| { EventLinksAt(tasks, q, k); }
    if cursor == null {
      SetEventPrevious(tasks, task, list.tail);
      SetEventNext(tasks, task, null);
      if list.tail != null {
        SetEventNext(tasks, list.tail, task);
      } else {
        list.head := task;
      }
      list.tail := task;
    } else {
      assert q[k] in q;
      SetEventPrevious(tasks, task, cursor.eventPrevious);
      SetEventNext(tasks, task, cursor);
      if cursor.eventPrevious != null {
        SetEventNext(tasks, cursor.eventPrevious, task);
      } else {
        list.head := task;
      }
      SetEventPrevious(tasks, cursor, task);
    }
    list.length := list.length + 1;
  }

  /** The pointer work of a removal. */
  method LinkEventOut(tasks: seq<Task>, list: List, task: Task, ghost q: seq<nat>, ghost k: nat)
    requires Numbered(tasks) && Chain(tasks, EventNexts(tasks), EventPreviouses(tasks), q) && k < |q|
    requires tasks[q[k]] == task && Ends(tasks, list, q)
    modifies tasks`eventNext, tasks`eventPrevious, list
    ensures LinkedOut(tasks, old(EventNexts(tasks)), old(EventPreviouses(tasks)), EventNexts(tasks), EventPreviouses(tasks), q, k)
    ensures AllBelow(q[..k] + q[k + 1..], |tasks|) && Ends(tasks, list, q[..k] + q[k + 1..])
  {
    hide EventNexts, EventPreviouses, Chain;
    EventLinksAt(tasks, q, k);
    ChainMembers(tasks, EventNexts(tasks), EventPreviouses(tasks), q);
    if task.eventPrevious != null {
      SetEventNext(tasks, task.eventPrevious, task.eventNext);
    } else {
      list.head := task.eventNext;
    }
    if task.eventNext != null {
      SetEventPrevious(tasks, task.eventNext, task.eventPrevious);
    } else {
      list.tail := task.eventPrevious;
    }
    SetEventPrevious(tasks, task, null);
    SetEventNext(tasks, task, null);
    list.length := list.length - 1;
  }

  lemma EventChainAt(s: Scheduler, eventLists: seq<Option<ListId>>, waiters: map<ListId, seq<nat>>, l: ListId)
    requires s.Shape() && s.EventsThreaded(eventLists, waiters) && l in waiters
    ensures Chain(s.tasks, EventNexts(s.tasks), EventPreviouses(s.tasks), waiters[l]) && NoDup(waiters[l])
    ensures AllBelow(waiters[l], |s.tasks|) && l.obj < |s.objects| && Ends(s.tasks, ListOf(s.objects, l), waiters[l])
    ensures ListOf(s.objects, l) in s.WaiterLists() && ListOf(s.objects, l).place == EventPlace(l)
  {
    assert l == ListId(l.obj, l.side);
  }

  lemma {:induction false} EventPositionIs(tasks: seq<Tcb>, q: seq<nat>, priority: Priority, k: nat)
    requires AllBelow(q, |tasks|) && k <= |q|
    requires forall i :: 0 <= i < k ==> tasks[q[i]].priority >= priority
    requires k < |q| ==> tasks[q[k]].priority < priority
    ensures TaskModel.EventPosition(tasks, q, priority) == k
  {
    if k > 0 { EventPositionIs(tasks, q[1..], priority, k - 1); }
  }

  /** The cursor stops at the first task of lower priority. */
  method FindEventPosition(s: Scheduler, list: List, task: Task, ghost l: ListId) returns (cursor: Task?, ghost k: nat)
    requires s.Valid() && s.Knows(task) && l in s.model.waiters && list == ListOf(s.objects, l)
    ensures AllBelow(s.model.waiters[l], |s.tasks|) && k <= |s.model.waiters[l]|
    ensures cursor == At(s.tasks, s.model.waiters[l], k)
    ensures k == TaskModel.EventPosition(s.model.tasks, s.model.waiters[l], task.priority)
  {
    hide Scheduler.OutsideEvents, Chain, EventNexts, EventPreviouses;
    ghost var q := s.model.waiters[l];
    EventChainAt(s, EventLists(s.model.tasks), s.model.waiters, l);
    cursor := list.head;
    k := 0;
    while cursor != null && cursor.priority >= task.priority
      invariant k <= |q| && cursor == At(s.tasks, q, k)
      invariant forall i :: 0 <= i < k ==> s.model.tasks[q[i]].priority >= task.priority
      decreases |q| - k
    {
      EventLinksAt(s.tasks, q, k);
      cursor := cursor.eventNext;
      k := k + 1;
    }
    EventPositionIs(s.model.tasks, q, task.priority, k);
  }

  /** Every list but `l` is threaded as before. */
  lemma OtherEventKept(
    tasks: seq<Task>, next: seq<Task?>, previous: seq<Task?>, next': seq<Task?>, previous': seq<Task?>,
    eventLists: seq<Option<ListId>>, waiters: map<ListId, seq<nat>>, l: ListId, other: ListId, t: nat)
    requires EventChains(tasks, next, previous, waiters) && InNamedList(eventLists, waiters) && |eventLists| == |tasks|
    requires l in waiters && other in waiters && other != l && t < |tasks| && eventLists[t] != Some(other)
    requires |next'| == |previous'| == |tasks| && |next| == |previous| == |tasks| && AllBelow(waiters[l], |tasks|)
    requires forall u {:trigger next'[u]} :: 0 <= u < |tasks| && u != t && u !in waiters[l] ==> next'[u] == next[u] && previous'[u] == previous[u]
    ensures Chain(tasks, next', previous', waiters[other])
  {
    hide Chain;
    assert Chain(tasks, next, previous, waiters[other]);
    var q := waiters[other];
    forall i | 0 <= i < |q| ensures q[i] < |tasks| && next'[q[i]] == next[q[i]] && previous'[q[i]] == previous[q[i]] {
      assert eventLists[waiters[other][i]] == Some(other);
      NotListed(eventLists, waiters, l, q[i]);
    }
    ChainKept(tasks, next, previous, next', previous', q);
  }

  lemma EventChainsInsert(
    tasks: seq<Task>, next: seq<Task?>, previous: seq<Task?>, next': seq<Task?>, previous': seq<Task?>,
    eventLists: seq<Option<ListId>>, waiters: map<ListId, seq<nat>>, l: ListId, k: nat, t: nat)
    requires EventChains(tasks, next, previous, waiters) && InNamedList(eventLists, waiters) && |eventLists| == |tasks|
    requires l in waiters && LinkedIn(tasks, next, previous, next', previous', waiters[l], k, t) && eventLists[t].None?
    ensures EventChains(tasks, next', previous', waiters[l := InsertAt(waiters[l], k, t)])
  {
    var r := waiters[l := InsertAt(waiters[l], k, t)];
    NotListed(eventLists, waiters, l, t);
    forall m | m in r ensures Chain(tasks, next', previous', r[m]) {
      if m == l {
        assert Chain(tasks, next, previous, waiters[l]);
        ChainInsert(tasks, next, previous, next', previous', waiters[l], k, t);
      } else {
        OtherEventKept(tasks, next, previous, next', previous', eventLists, waiters, l, m, t);
      }
    }
  }

  lemma NotListed(eventLists: seq<Option<ListId>>, waiters: map<ListId, seq<nat>>, l: ListId, t: nat)
    requires InNamedList(eventLists, waiters) && l in waiters && t < |eventLists| && eventLists[t] != Some(l)
    ensures t !in waiters[l]
  {
  }

  lemma NamedInsert(eventLists: seq<Option<ListId>>, waiters: map<ListId, seq<nat>>, l: ListId, k: nat, t: nat)
    requires InNamedList(eventLists, waiters) && l in waiters
    requires k <= |waiters[l]| && t < |eventLists| && eventLists[t].None?
    ensures InNamedList(eventLists[t := Some(l)], waiters[l := InsertAt(waiters[l], k, t)])
  {
    var names := eventLists[t := Some(l)];
    var r := waiters[l := InsertAt(waiters[l], k, t)];
    InsertAtMembers(waiters[l], k, t);
    forall m, i | m in r && 0 <= i < |r[m]| ensures r[m][i] < |names| && names[r[m][i]] == Some(m) {
      if m == l && i != k {
        var j := if i < k then i else i - 1;
        assert r[m][i] == waiters[l][j];
      }
      if m != l { NotListed(eventLists, waiters, m, t); }
    }
  }

  method AttachEvent(
    s: Scheduler, list: List, task: Task, cursor: Task?,
    ghost eventLists: seq<Option<ListId>>, ghost waiters: map<ListId, seq<nat>>, ghost l: ListId, ghost k: nat)
    requires s.Shape() && s.Knows(task) && s.EventsThreaded(eventLists, waiters)
    requires l in waiters && list == ListOf(s.objects, l)
    requires eventLists[task.number].None? && AllBelow(waiters[l], |s.tasks|) && k <= |waiters[l]|
    requires cursor == At(s.tasks, waiters[l], k)
    modifies s.tasks`eventNext, s.tasks`eventPrevious, list
    ensures s.EventsThreaded(eventLists[task.number := Some(l)], waiters[l := InsertAt(waiters[l], k, task.number)])
  {
    hide Chain, EventChains, InNamedList, LinkedIn, EventNexts, EventPreviouses, InsertAt;
    ghost var t := task.number;
    ghost var next, previous := EventNexts(s.tasks), EventPreviouses(s.tasks);
    EventChainAt(s, eventLists, waiters, l);
    NotListed(eventLists, waiters, l, t);
    LinkEventIn(s.tasks, list, task, cursor, waiters[l], k);
    EventChainsInsert(s.tasks, next, previous, EventNexts(s.tasks), EventPreviouses(s.tasks), eventLists, waiters, l, k, t);
    NamedInsert(eventLists, waiters, l, k, t);
    EventPlaces(s);
  }

  /** Different wait lists are different objects. */
  lemma EventPlaces(s: Scheduler)
    requires s.Shape()
    ensures forall l: ListId {:trigger ListOf(s.objects, l)} :: l.obj < |s.objects| ==>
      ListOf(s.objects, l) != null && ListOf(s.objects, l).place == EventPlace(l)
  {
    forall l: ListId | l.obj < |s.objects| ensures ListOf(s.objects, l) != null && ListOf(s.objects, l).place == EventPlace(l) {
      assert l == ListId(l.obj, l.side);
    }
  }

  /** The event list field of a task and its value are null together. */
  lemma EventListShown(s: Scheduler, task: Task)
    requires s.Valid() && s.Knows(task)
    ensures var named := s.model.tasks[task.number].eventList;
      && EventLists(s.model.tasks)[task.number] == named
      && (task.eventList == null <==> named.None?)
      && (named.Some? ==> named.value in s.model.waiters && task.eventList == ListOf(s.objects, named.value))
  {
    TaskShown(s, task);
    EventPlaces(s);
  }

  lemma RelistedTcb(tcbs: seq<Tcb>, t: nat, tcb: Tcb)
    requires t < |tcbs| && tcb.priority == tcbs[t].priority
    ensures Priorities(tcbs[t := tcb]) == Priorities(tcbs)
    ensures EventLists(tcbs[t := tcb]) == EventLists(tcbs)[t := tcb.eventList]
  {
  }

  /** The event list field changes together with its value. */
  method SetEventList(s: Scheduler, task: Task, list: List?, ghost tcbs: seq<Tcb>, ghost tcb: Tcb)
    requires Numbered(s.tasks) && s.Knows(task) && s.TasksShown(tcbs) && list == EventListOf(s.objects, tcb.eventList)
    requires Same(tcbs[task.number].(eventList := tcb.eventList), tcb)
    modifies task`eventList
    ensures s.TasksShown(tcbs[task.number := tcb]) && task.eventList == list
  {
    task.eventList := list;
  }

  method AttachNamed(
    s: Scheduler, list: List, task: Task, cursor: Task?, ghost m: State, ghost tcb: Tcb, ghost l: ListId, ghost k: nat)
    requires s.Shape() && s.Knows(task) && l in m.waiters && list == ListOf(s.objects, l)
    requires s.TasksShown(m.tasks) && s.EventsThreaded(EventLists(m.tasks), m.waiters)
    requires EventLists(m.tasks)[task.number].None? && AllBelow(m.waiters[l], |s.tasks|) && k <= |m.waiters[l]|
    requires cursor == At(s.tasks, m.waiters[l], k)
    requires tcb.eventList == Some(l) && Same(m.tasks[task.number].(eventList := tcb.eventList), tcb)
    modifies s.tasks`eventNext, s.tasks`eventPrevious, task`eventList, list
    ensures s.TasksShown(m.tasks[task.number := tcb])
    ensures s.EventsThreaded(EventLists(m.tasks)[task.number := Some(l)], m.waiters[l := InsertAt(m.waiters[l], k, task.number)])
  {
    hide Scheduler.EventsThreaded, Scheduler.TasksShown, EventLists, Same, InsertAt;
    ListsApart(s);
    AttachEvent(s, list, task, cursor, EventLists(m.tasks), m.waiters, l, k);
    SetEventList(s, task, list, m.tasks, tcb);
  }

  lemma EventListInsertIs(m: State, l: ListId, t: nat, k: nat)
    requires InBounds(m) && t < |m.tasks| && l in m.waiters
    requires k == TaskModel.EventPosition(m.tasks, m.waiters[l], m.tasks[t].priority)
    ensures var r := TaskModel.EventListInsert(m, l, t); var tcb := m.tasks[t].(eventList := Some(l), stamp := m.stamps);
      && InBounds(r) && Same(m.tasks[t].(eventList := Some(l)), tcb)
      && r == m.(waiters := m.waiters[l := InsertAt(m.waiters[l], k, t)], tasks := m.tasks[t := tcb], stamps := m.stamps + 1)
  {
  }

  method EventListInsert(s: Scheduler, list: List, task: Task, ghost l: ListId)
    requires s.Valid() && s.Knows(task) && task.eventList == null
    requires l in s.model.waiters && list == ListOf(s.objects, l)
    modifies s`model, s.tasks`eventNext, s.tasks`eventPrevious, task`eventList, list
    ensures s.Valid() && s.model == TaskModel.EventListInsert(old(s.model), l, task.number)
  {
    hide Scheduler.OutsideEvents, Scheduler.EventsThreaded, Scheduler.TasksShown, InBounds, Priorities, EventLists,
      Shows, Same, TaskModel.EventListInsert, TaskModel.EventPosition, InsertAt;
    ghost var m, t := s.model, task.number;
    TaskShown(s, task);
    ShownFields(task, m.tasks[t], s.objects);
    EventListShown(s, task);
    ListsApart(s);
    ghost var k;
    var cursor;
    cursor, k := FindEventPosition(s, list, task, l);
    ghost var tcb := m.tasks[t].(eventList := Some(l), stamp := m.stamps);
    EventListInsertIs(m, l, t, k);
    RelistedTcb(m.tasks, t, tcb);
    AttachNamed(s, list, task, cursor, m, tcb, l, k);
    s.model := TaskModel.EventListInsert(m, l, t);
    OutsideEventsSame(s, m, s.model);
  }

  lemma EventChainsRemove(
    tasks: seq<Task>, next: seq<Task?>, previous: seq<Task?>, next': seq<Task?>, previous': seq<Task?>,
    eventLists: seq<Option<ListId>>, waiters: map<ListId, seq<nat>>, l: ListId, k: nat)
    requires EventChains(tasks, next, previous, waiters) && InNamedList(eventLists, waiters) && |eventLists| == |tasks|
    requires l in waiters && k < |waiters[l]| && LinkedOut(tasks, next, previous, next', previous', waiters[l], k)
    ensures EventChains(tasks, next', previous', waiters[l := Remove(waiters[l], waiters[l][k])])
  {
    var q := waiters[l];
    var r := waiters[l := Remove(q, q[k])];
    assert q[k] in q && (k > 0 ==> q[k - 1] in q) && (k + 1 < |q| ==> q[k + 1] in q);
    assert eventLists[waiters[l][k]] == Some(l);
    forall m | m in r ensures Chain(tasks, next', previous', r[m]) {
      if m == l {
        assert Chain(tasks, next, previous, waiters[l]);
        ChainRemove(tasks, next, previous, next', previous', q, k);
      } else {
        OtherEventKept(tasks, next, previous, next', previous', eventLists, waiters, l, m, q[k]);
      }
    }
  }

  lemma NamedRemove(eventLists: seq<Option<ListId>>, waiters: map<ListId, seq<nat>>, l: ListId, t: nat)
    requires InNamedList(eventLists, waiters) && l in waiters && NoDup(waiters[l]) && t in waiters[l]
    ensures t < |eventLists| && InNamedList(eventLists[t := None], waiters[l := Remove(waiters[l], t)])
  {
    var names := eventLists[t := None];
    var r := waiters[l := Remove(waiters[l], t)];
    RemoveMembers(waiters[l], t);
    forall m, i | m in r && 0 <= i < |r[m]| ensures r[m][i] < |names| && names[r[m][i]] == Some(m) {
      assert r[m][i] in r[m] && r[m][i] in waiters[m];
      var j :| 0 <= j < |waiters[m]| && waiters[m][j] == r[m][i];
      assert eventLists[waiters[m][j]] == Some(m);
    }
  }

  lemma NamedListed(eventLists: seq<Option<ListId>>, waiters: map<ListId, seq<nat>>, l: ListId, t: nat)
    requires InNamedList(eventLists, waiters) && t < |eventLists| && eventLists[t] == Some(l)
    ensures l in waiters && t in waiters[l]
  {
  }

  method DetachEvent(
    s: Scheduler, list: List, task: Task, ghost eventLists: seq<Option<ListId>>, ghost waiters: map<ListId, seq<nat>>, ghost l: ListId)
    requires s.Shape() && s.Knows(task) && s.EventsThreaded(eventLists, waiters)
    requires l in waiters && list == ListOf(s.objects, l)
    requires eventLists[task.number] == Some(l)
    modifies s.tasks`eventNext, s.tasks`eventPrevious, list
    ensures s.EventsThreaded(eventLists[task.number := None], waiters[l := Remove(waiters[l], task.number)])
  {
    hide Chain, EventChains, InNamedList, LinkedOut, EventNexts, EventPreviouses, Remove, IndexOf;
    ghost var t := task.number;
    ghost var next, previous := EventNexts(s.tasks), EventPreviouses(s.tasks);
    EventChainAt(s, eventLists, waiters, l);
    NamedListed(eventLists, waiters, l, t);
    ghost var k := IndexOf(waiters[l], t);
    RemoveAt(waiters[l], k);
    LinkEventOut(s.tasks, list, task, waiters[l], k);
    EventChainsRemove(s.tasks, next, previous, EventNexts(s.tasks), EventPreviouses(s.tasks), eventLists, waiters, l, k);
    NamedRemove(eventLists, waiters, l, t);
    EventPlaces(s);
  }

  method DetachNamed(s: Scheduler, list: List, task: Task, ghost m: State, ghost tcb: Tcb, ghost l: ListId)
    requires s.Shape() && s.Knows(task) && l in m.waiters && list == ListOf(s.objects, l)
    requires s.TasksShown(m.tasks) && s.EventsThreaded(EventLists(m.tasks), m.waiters)
    requires EventLists(m.tasks)[task.number] == Some(l)
    requires tcb.eventList == None && Same(m.tasks[task.number].(eventList := tcb.eventList), tcb)
    modifies s.tasks`eventNext, s.tasks`eventPrevious, task`eventList, list
    ensures s.TasksShown(m.tasks[task.number := tcb]) && task.eventList == null
    ensures s.EventsThreaded(EventLists(m.tasks)[task.number := None], m.waiters[l := Remove(m.waiters[l], task.number)])
  {
    hide Scheduler.EventsThreaded, Scheduler.TasksShown, EventLists, Same, Remove;
    ListsApart(s);
    DetachEvent(s, list, task, EventLists(m.tasks), m.waiters, l);
    SetEventList(s, task, null, m.tasks, tcb);
  }

  lemma EventListRemoveIs(m: State, t: nat)
    requires InBounds(m) && t < |m.tasks| && m.tasks[t].eventList.Some?
    ensures var r := TaskModel.EventListRemove(m, t); var tcb := m.tasks[t].(eventList := None); var l := m.tasks[t].eventList.value;
      && InBounds(r) && Same(m.tasks[t].(eventList := None), tcb)
      && r == m.(waiters := m.waiters[l := Remove(m.waiters[l], t)], tasks := m.tasks[t := tcb])
  {
  }

  method EventListRemove(s: Scheduler, task: Task)
    requires s.Valid() && s.Knows(task) && task.eventList != null
    modifies s`model, s.tasks`eventNext, s.tasks`eventPrevious, task`eventList, s.WaiterLists()
    ensures s.Valid() && task.eventList == null
    ensures old(s.model).tasks[task.number].eventList.Some?
    ensures s.model == TaskModel.EventListRemove(old(s.model), task.number)
  {
    hide Scheduler.OutsideEvents, Scheduler.EventsThreaded, Scheduler.TasksShown, InBounds, Priorities, EventLists,
      Shows, Same, TaskModel.EventListRemove;
    ghost var m, t := s.model, task.number;
    TaskShown(s, task);
    EventListShown(s, task);
    ListsApart(s);
    ghost var l := m.tasks[t].eventList.value;
    ghost var tcb := m.tasks[t].(eventList := None);
    EventListRemoveIs(m, t);
    var list := task.eventList;
    RelistedTcb(m.tasks, t, tcb);
    DetachNamed(s, list, task, m, tcb, l);
    s.model := TaskModel.EventListRemove(m, t);
    OutsideEventsSame(s, m, s.model);
  }
}
