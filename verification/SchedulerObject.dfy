/** The scheduler's globals and the relation between the objects in memory and the
    `State` they stand for. */
module SchedulerObject {
  import opened Ticks
  import opened Lists
  import opened KernelState
  import opened Objects

  function Priorities(tasks: seq<Tcb>): (r: seq<Priority>)
    ensures |r| == |tasks| && forall t {:trigger r[t]} {:trigger tasks[t]} :: 0 <= t < |tasks| ==> r[t] == tasks[t].priority
  {
    seq(|tasks|, t requires 0 <= t < |tasks| => tasks[t].priority)
  }

  function EventLists(tasks: seq<Tcb>): (r: seq<Option<ListId>>)
    ensures |r| == |tasks| && forall t {:trigger r[t]} {:trigger tasks[t]} :: 0 <= t < |tasks| ==> r[t] == tasks[t].eventList
  {
    seq(|tasks|, t requires 0 <= t < |tasks| => tasks[t].eventList)
  }

  lemma TouchPriorities(tasks: seq<Tcb>, t: nat, tcb: Tcb)
    requires t < |tasks|
    ensures tcb.priority == tasks[t].priority ==> Priorities(tasks[t := tcb]) == Priorities(tasks)
    ensures tcb.eventList == tasks[t].eventList ==> EventLists(tasks[t := tcb]) == EventLists(tasks)
  {
  }

  function TaskOf(tasks: seq<Task>, t: Option<nat>): Task? {
    if t.Some? && t.value < |tasks| then tasks[t.value] else null
  }

  function ObjectOf(objects: seq<SyncObject>, o: Option<nat>): SyncObject? {
    if o.Some? && o.value < |objects| then objects[o.value] else null
  }

  function ListOf(objects: seq<SyncObject>, l: ListId): List?
  {
    if l.obj >= |objects| then null
    else if l.side == SendSide then objects[l.obj].sendWaiters else objects[l.obj].receiveWaiters
  }

  function EventListOf(objects: seq<SyncObject>, l: Option<ListId>): List? {
    if l.Some? then ListOf(objects, l.value) else null
  }

  /** A task control block in memory shows the value `tcb`. */
  ghost predicate Shows(task: Task, tcb: Tcb, objects: seq<SyncObject>)
    reads task`priority, task`basePriority, task`inheritedPriority, task`state, task`wakeTick
    reads task`eventList, task`waitObject, task`waitReason, task`waitResult, task`waitHasTimeout
  {
    && task.priority == tcb.priority && task.basePriority == tcb.basePriority
    && task.inheritedPriority == tcb.inheritedPriority && task.state == tcb.state && task.wakeTick == tcb.wakeTick
    && task.eventList == EventListOf(objects, tcb.eventList) && task.waitObject == ObjectOf(objects, tcb.waitObject)
    && task.waitReason == tcb.waitReason && task.waitResult == tcb.waitResult && task.waitHasTimeout == tcb.waitHasTimeout
  }

  ghost predicate ReadyChains(tasks: seq<Task>, next: seq<Task?>, previous: seq<Task?>, ready: ReadyLists) {
    forall p: Priority {:trigger ready[p]} :: Chain(tasks, next, previous, ready[p])
  }

  /** A task is in no ready list but that of its priority. */
  ghost predicate InOwnList(priorities: seq<Priority>, ready: ReadyLists) {
    forall p: Priority, i {:trigger ready[p][i]} :: 0 <= i < |ready[p]| ==> ready[p][i] < |priorities| && priorities[ready[p][i]] == p
  }

  ghost predicate EventChains(tasks: seq<Task>, next: seq<Task?>, previous: seq<Task?>, waiters: map<ListId, seq<nat>>) {
    forall l {:trigger waiters[l]} :: l in waiters ==> Chain(tasks, next, previous, waiters[l])
  }

  /** A task is in the one wait list that its event list field names. */
  ghost predicate InNamedList(eventLists: seq<Option<ListId>>, waiters: map<ListId, seq<nat>>) {
    && (forall l, i {:trigger waiters[l][i]} :: l in waiters && 0 <= i < |waiters[l]| ==>
          waiters[l][i] < |eventLists| && eventLists[waiters[l][i]] == Some(l))
    && (forall t {:trigger eventLists[t]} :: 0 <= t < |eventLists| && eventLists[t].Some? ==>
          eventLists[t].value in waiters && t in waiters[eventLists[t].value])
  }

  ghost predicate Numbered(tasks: seq<Task>) {
    forall t {:trigger tasks[t]} :: 0 <= t < |tasks| ==> tasks[t].number == t
  }

  class Scheduler {
    const tasks: seq<Task>
    const readyLists: seq<List>
    const delayedList: List
    const objects: seq<SyncObject>
    var mutexRegistry: SyncObject?
    var current: Task?
    var tick: Tick
    ghost var model: State

    ghost predicate Knows(task: Task) {
      task.number < |tasks| && tasks[task.number] == task
    }

    /** The lists and tables are distinct; they never change. */
    ghost predicate Shape() {
      && |readyLists| == 8 && (forall p: Priority {:trigger readyLists[p]} :: readyLists[p].place == ReadyPlace(p))
      && delayedList.place == DelayPlace
      && Numbered(tasks)
      && (forall o {:trigger objects[o]} :: 0 <= o < |objects| ==>
            && objects[o].number == o
            && objects[o].sendWaiters.place == EventPlace(ListId(o, SendSide))
            && objects[o].receiveWaiters.place == EventPlace(ListId(o, ReceiveSide)))
    }

    ghost predicate TasksShown(tcbs: seq<Tcb>)
      reads tasks`priority, tasks`basePriority, tasks`inheritedPriority, tasks`state, tasks`wakeTick
      reads tasks`eventList, tasks`waitObject, tasks`waitReason, tasks`waitResult, tasks`waitHasTimeout
    {
      |tcbs| == |tasks| && forall t {:trigger tasks[t]} :: 0 <= t < |tasks| ==> Shows(tasks[t], tcbs[t], objects)
    }

    /** The ready lists thread `ready`, and every task is at most in the list of its own
        priority. */
    ghost predicate ReadyThreaded(priorities: seq<Priority>, ready: ReadyLists)
      reads tasks`readyNext, tasks`readyPrevious, tasks`inReadyList, readyLists
    {
      && |priorities| == |tasks| && |readyLists| == 8
      && ReadyChains(tasks, ReadyNexts(tasks), ReadyPreviouses(tasks), ready)
      && InOwnList(priorities, ready)
      && (forall p: Priority {:trigger readyLists[p]} :: Ends(tasks, readyLists[p], ready[p]))
      && (forall t {:trigger tasks[t]} :: 0 <= t < |tasks| ==> (tasks[t].inReadyList <==> t in ready[priorities[t]]))
    }

    ghost predicate DelayThreaded(delayed: seq<nat>)
      reads tasks`delayNext, tasks`delayPrevious, tasks`inDelayList, delayedList
    {
      && Chain(tasks, DelayNexts(tasks), DelayPreviouses(tasks), delayed)
      && Ends(tasks, delayedList, delayed)
      && (forall t {:trigger tasks[t]} :: 0 <= t < |tasks| ==> (tasks[t].inDelayList <==> t in delayed))
    }

    ghost function WaiterLists(): (r: seq<List>)
      ensures forall l: ListId {:trigger ListOf(objects, l)} :: l.obj < |objects| ==> ListOf(objects, l) in r
      ensures forall x {:trigger x in r} :: x in r ==> exists o ::
        0 <= o < |objects| && (x == objects[o].sendWaiters || x == objects[o].receiveWaiters)
    {
      var r := seq(|objects|, o requires 0 <= o < |objects| => objects[o].sendWaiters)
        + seq(|objects|, o requires 0 <= o < |objects| => objects[o].receiveWaiters);
      forall l: ListId | l.obj < |objects| ensures ListOf(objects, l) in r {
        assert r[l.obj] == objects[l.obj].sendWaiters && r[|objects| + l.obj] == objects[l.obj].receiveWaiters;
      }
      r
    }

    ghost predicate EventsThreaded(eventLists: seq<Option<ListId>>, waiters: map<ListId, seq<nat>>)
      reads tasks`eventNext, tasks`eventPrevious, WaiterLists()
    {
      && |eventLists| == |tasks|
      && EventChains(tasks, EventNexts(tasks), EventPreviouses(tasks), waiters)
      && InNamedList(eventLists, waiters)
      && (forall l {:trigger ListOf(objects, l)} {:trigger waiters[l]} :: l in waiters ==>
            l.obj < |objects| && AllBelow(waiters[l], |tasks|) && Ends(tasks, ListOf(objects, l), waiters[l]))
    }

    ghost predicate ObjectShown(o: SyncObject, value: Object)
      reads o`head, o`tail, o`count, o`owner
    {
      && o.kind == value.kind && o.length == value.length && o.itemSize == value.itemSize && o.maxCount == value.maxCount
      && o.head == value.head && o.tail == value.tail && o.count == value.count
      && o.owner == TaskOf(tasks, value.owner)
    }

    ghost predicate ObjectsShown(values: seq<Object>)
      reads objects`head, objects`tail, objects`count, objects`owner
    {
      |values| == |objects| && forall o {:trigger objects[o]} :: 0 <= o < |objects| ==> ObjectShown(objects[o], values[o])
    }

    /** mutexRegistry and the registryNext fields thread `registry`. */
    ghost predicate RegistryThreaded(registry: seq<nat>)
      reads this`mutexRegistry, objects`registryNext
    {
      && AllBelow(registry, |objects|)
      && mutexRegistry == RegistryAt(registry, 0)
      && (forall i {:trigger objects[registry[i]]} :: 0 <= i < |registry| ==>
            objects[registry[i]].registryNext == RegistryAt(registry, i + 1))
    }

    function RegistryAt(registry: seq<nat>, i: nat): SyncObject?
      requires AllBelow(registry, |objects|)
    {
      if i < |registry| then objects[registry[i]] else null
    }

    /** The objects, the registry, the running task and the clock. */
    ghost predicate Beyond(m: State)
      requires InBounds(m)
      reads this`mutexRegistry, this`current, this`tick, objects`head, objects`tail, objects`count, objects`owner, objects`registryNext
    {
      ObjectsShown(m.objects) && RegistryThreaded(m.registry) && current == TaskOf(tasks, m.current) && tick == m.tick
    }

    /** Everything that the wait lists have no part in. */
    ghost predicate OutsideEvents(m: State)
      requires InBounds(m)
      reads this`mutexRegistry, this`current, this`tick, objects`head, objects`tail, objects`count, objects`owner, objects`registryNext
      reads tasks`readyNext, tasks`readyPrevious, tasks`inReadyList, readyLists
      reads tasks`delayNext, tasks`delayPrevious, tasks`inDelayList, delayedList
    {
      && ReadyThreaded(Priorities(m.tasks), m.ready)
      && DelayThreaded(m.delayed)
      && Beyond(m)
    }

    /** Everything that the ready lists have no part in. */
    ghost predicate OutsideReady(m: State)
      requires InBounds(m)
      reads this`mutexRegistry, this`current, this`tick, objects`head, objects`tail, objects`count, objects`owner, objects`registryNext
      reads tasks`priority, tasks`basePriority, tasks`inheritedPriority, tasks`state, tasks`wakeTick
      reads tasks`eventList, tasks`waitObject, tasks`waitReason, tasks`waitResult, tasks`waitHasTimeout
      reads tasks`delayNext, tasks`delayPrevious, tasks`inDelayList, delayedList
      reads tasks`eventNext, tasks`eventPrevious, WaiterLists()
    {
      && TasksShown(m.tasks)
      && DelayThreaded(m.delayed)
      && EventsThreaded(EventLists(m.tasks), m.waiters)
      && Beyond(m)
    }

    /** Everything that the delay list has no part in. */
    ghost predicate OutsideDelay(m: State)
      requires InBounds(m)
      reads this`mutexRegistry, this`current, this`tick, objects`head, objects`tail, objects`count, objects`owner, objects`registryNext
      reads tasks`priority, tasks`basePriority, tasks`inheritedPriority, tasks`state, tasks`wakeTick
      reads tasks`eventList, tasks`waitObject, tasks`waitReason, tasks`waitResult, tasks`waitHasTimeout
      reads tasks`readyNext, tasks`readyPrevious, tasks`inReadyList, readyLists
      reads tasks`eventNext, tasks`eventPrevious, WaiterLists()
    {
      && TasksShown(m.tasks)
      && ReadyThreaded(Priorities(m.tasks), m.ready)
      && EventsThreaded(EventLists(m.tasks), m.waiters)
      && Beyond(m)
    }

    ghost predicate Valid()
      reads this, tasks, readyLists, delayedList, objects, WaiterLists()
    {
      && Shape() && InBounds(model)
      && TasksShown(model.tasks)
      && EventsThreaded(EventLists(model.tasks), model.waiters)
      && OutsideEvents(model)
    }

    /** Tables whose tasks and objects are in no list yet. */
    constructor (tasks: seq<Task>, objects: seq<SyncObject>, registry: SyncObject?, ghost before: State)
      ensures this.tasks == tasks && this.objects == objects
      ensures mutexRegistry == registry && current == null && tick == 0
      ensures model == before
      ensures fresh(delayedList) && delayedList.place == DelayPlace && delayedList.length == 0
      ensures delayedList.head == null && delayedList.tail == null
      ensures |readyLists| == 8
      ensures forall p {:trigger readyLists[p]} :: 0 <= p < 8 ==>
        && fresh(readyLists[p]) && readyLists[p].place == ReadyPlace(p) && readyLists[p].length == 0
        && readyLists[p].head == null && readyLists[p].tail == null
    {
      this.tasks, this.objects, mutexRegistry, current, tick := tasks, objects, registry, null, 0;
      model := before;
      var lists: seq<List> := [];
      for p := 0 to 8
        invariant |lists| == p
        invariant forall q {:trigger lists[q]} :: 0 <= q < p ==>
          && fresh(lists[q]) && lists[q].place == ReadyPlace(q) && lists[q].length == 0
          && lists[q].head == null && lists[q].tail == null
      {
        var list := new List(ReadyPlace(p));
        lists := lists + [list];
      }
      readyLists := lists;
      delayedList := new List(DelayPlace);
    }
  }

  lemma TaskShown(s: Scheduler, task: Task)
    requires s.Valid() && s.Knows(task)
    ensures task.number < |s.model.tasks| && Shows(task, s.model.tasks[task.number], s.objects)
    ensures task.priority == Priorities(s.model.tasks)[task.number]
  {
  }

  /** Lists of different kinds are different objects. */
  lemma ListsApart(s: Scheduler)
    requires s.Shape()
    ensures s.delayedList !in s.readyLists && s.delayedList !in s.WaiterLists()
    ensures forall x {:trigger x in s.WaiterLists()} :: x in s.WaiterLists() ==> x !in s.readyLists && x != s.delayedList
  {
    forall p: Priority ensures s.readyLists[p].place == ReadyPlace(p) {}
    forall x | x in s.WaiterLists() ensures x.place.EventPlace? {
      var o :| 0 <= o < |s.objects| && (x == s.objects[o].sendWaiters || x == s.objects[o].receiveWaiters);
    }
    forall x | x in s.readyLists ensures x.place.ReadyPlace? {
      var p :| 0 <= p < |s.readyLists| && s.readyLists[p] == x;
      var q: Priority := p;
      assert s.readyLists[q].place == ReadyPlace(q);
    }
  }

  /** Fields that memory does not hold can change freely. */
  lemma StampShown(s: Scheduler, tcbs: seq<Tcb>, t: nat, tcb: Tcb)
    requires s.TasksShown(tcbs) && t < |tcbs| && Same(tcbs[t], tcb)
    ensures s.TasksShown(tcbs[t := tcb])
    ensures Priorities(tcbs[t := tcb]) == Priorities(tcbs) && EventLists(tcbs[t := tcb]) == EventLists(tcbs)
  {
    TouchPriorities(tcbs, t, tcb);
  }

  /** Equal in all that memory holds. */
  ghost predicate Same(a: Tcb, b: Tcb) {
    b == a.(call := b.call, deadline := b.deadline, stamp := b.stamp, delayStamp := b.delayStamp)
  }

  lemma ShownFields(task: Task, tcb: Tcb, objects: seq<SyncObject>)
    requires Shows(task, tcb, objects)
    ensures task.priority == tcb.priority && task.wakeTick == tcb.wakeTick && task.state == tcb.state
    ensures task.basePriority == tcb.basePriority && task.inheritedPriority == tcb.inheritedPriority
    ensures task.waitResult == tcb.waitResult && task.waitReason == tcb.waitReason
    ensures task.waitHasTimeout == tcb.waitHasTimeout
    ensures task.waitObject == ObjectOf(objects, tcb.waitObject)
  {
  }

  /** Changes to the wait lists alone. */
  lemma OutsideEventsSame(s: Scheduler, m: State, r: State)
    requires InBounds(m) && InBounds(r) && s.OutsideEvents(m) && Priorities(r.tasks) == Priorities(m.tasks)
    requires r.ready == m.ready && r.delayed == m.delayed && r.objects == m.objects && r.registry == m.registry
    requires r.current == m.current && r.tick == m.tick
    ensures s.OutsideEvents(r)
  {
  }

  lemma BeyondSame(s: Scheduler, m: State, r: State)
    requires InBounds(m) && InBounds(r) && s.Beyond(m)
    requires r.objects == m.objects && r.registry == m.registry && r.current == m.current && r.tick == m.tick
    ensures s.Beyond(r)
  {
  }

  /** What `Valid` says, part by part. */
  lemma ValidParts(s: Scheduler)
    requires s.Valid()
    ensures s.Shape() && InBounds(s.model) && |s.model.tasks| == |s.tasks| && |s.model.objects| == |s.objects|
    ensures Numbered(s.tasks)
    ensures s.TasksShown(s.model.tasks) && s.Beyond(s.model) && s.DelayThreaded(s.model.delayed)
    ensures s.ReadyThreaded(Priorities(s.model.tasks), s.model.ready)
    ensures s.EventsThreaded(EventLists(s.model.tasks), s.model.waiters)
  {
  }

  /** A control block changes in fields that no list depends on. */
  lemma TouchedValid(s: Scheduler, m: State, t: nat, tcb: Tcb)
    requires t < |m.tasks| && InBounds(m) && s.model == m.(tasks := m.tasks[t := tcb]) && InBounds(s.model) && s.Shape()
    requires tcb.priority == m.tasks[t].priority && tcb.eventList == m.tasks[t].eventList
    requires s.TasksShown(s.model.tasks) && s.Beyond(m) && s.DelayThreaded(m.delayed)
    requires s.ReadyThreaded(Priorities(m.tasks), m.ready) && s.EventsThreaded(EventLists(m.tasks), m.waiters)
    ensures s.Valid()
  {
    hide Scheduler.ReadyThreaded, Scheduler.DelayThreaded, Scheduler.EventsThreaded, Scheduler.TasksShown, Scheduler.Shape,
      InBounds;
    TouchPriorities(m.tasks, t, tcb);
  }

  lemma ReadySide(s: Scheduler)
    requires InBounds(s.model)
    ensures s.Valid() <==> s.Shape() && s.ReadyThreaded(Priorities(s.model.tasks), s.model.ready) && s.OutsideReady(s.model)
  {
  }

  lemma DelaySide(s: Scheduler)
    requires InBounds(s.model)
    ensures s.Valid() <==> s.Shape() && s.DelayThreaded(s.model.delayed) && s.OutsideDelay(s.model)
  {
  }

  lemma OutsideReadySame(s: Scheduler, m: State, ready: ReadyLists)
    requires InBounds(m) && InBounds(m.(ready := ready)) && s.OutsideReady(m)
    ensures s.OutsideReady(m.(ready := ready))
  {
  }

  lemma OutsideDelaySame(s: Scheduler, m: State, r: State)
    requires InBounds(m) && InBounds(r) && s.OutsideDelay(m)
    requires r == m.(delayed := r.delayed, tasks := r.tasks, stamps := r.stamps)
    requires s.TasksShown(r.tasks) && Priorities(r.tasks) == Priorities(m.tasks)
    requires EventLists(r.tasks) == EventLists(m.tasks)
    ensures s.OutsideDelay(r)
  {
  }

  lemma ValidInBounds(s: Scheduler)
    requires s.Valid()
    ensures s.Shape() && InBounds(s.model) && |s.model.tasks| == |s.tasks| && |s.model.objects| == |s.objects|
  {
  }
}
