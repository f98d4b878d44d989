/** kernel/tasks.c on values: list maintenance, priorities, blocking, wake-ups and
    the selection of the next task. Each function is one function of the kernel. */
module TaskModel {
  import opened Ticks
  import opened Lists
  import opened KernelState

  function WithTask(s: State, t: nat, tcb: Tcb): (r: State)
    requires t < |s.tasks|
  {
    s.(tasks := s.tasks[t := tcb])
  }

  function WithObject(s: State, o: nat, value: Object): (r: State)
    requires o < |s.objects|
  {
    s.(objects := s.objects[o := value])
  }

  function ReadyListInsert(s: State, t: nat): (r: State)
    requires InBounds(s) && t < |s.tasks|
    ensures InBounds(r) && |r.tasks| == |s.tasks|
  {
    var p := s.tasks[t].priority;
    s.(ready := s.ready[p := s.ready[p] + [t]])
  }

  function ReadyListRemove(s: State, t: nat): (r: State)
    requires InBounds(s) && t < |s.tasks|
    ensures InBounds(r) && |r.tasks| == |s.tasks|
  {
    var p := s.tasks[t].priority;
    s.(ready := s.ready[p := Remove(s.ready[p], t)])
  }

  /** Where the cursor of the deadline-ordered insertion stops. */
  function DelayPosition(tasks: seq<Tcb>, q: seq<nat>, wakeTick: Tick): (k: nat)
    requires AllBelow(q, |tasks|)
    ensures k <= |q|
    ensures forall i :: 0 <= i < k ==> !TickBefore(wakeTick, tasks[q[i]].wakeTick)
    ensures k < |q| ==> TickBefore(wakeTick, tasks[q[k]].wakeTick)
  {
    if q == [] || TickBefore(wakeTick, tasks[q[0]].wakeTick) then 0
    else 1 + DelayPosition(tasks, q[1..], wakeTick)
  }

  function DelayListInsert(s: State, t: nat): (r: State)
    requires InBounds(s) && t < |s.tasks|
    ensures InBounds(r) && |r.tasks| == |s.tasks|
  {
    var k := DelayPosition(s.tasks, s.delayed, s.tasks[t].wakeTick);
    s.(delayed := InsertAt(s.delayed, k, t),
       tasks := s.tasks[t := s.tasks[t].(delayStamp := s.stamps)],
       stamps := s.stamps + 1)
  }

  function DelayListRemove(s: State, t: nat): (r: State)
    requires InBounds(s)
    ensures InBounds(r) && |r.tasks| == |s.tasks|
  {
    s.(delayed := Remove(s.delayed, t))
  }

  /** Where the cursor of the priority-ordered insertion stops. */
  function EventPosition(tasks: seq<Tcb>, q: seq<nat>, priority: Priority): (k: nat)
    requires AllBelow(q, |tasks|)
    ensures k <= |q|
    ensures forall i :: 0 <= i < k ==> tasks[q[i]].priority >= priority
    ensures k < |q| ==> tasks[q[k]].priority < priority
  {
    if q == [] || tasks[q[0]].priority < priority then 0
    else 1 + EventPosition(tasks, q[1..], priority)
  }

  function EventListInsert(s: State, l: ListId, t: nat): (r: State)
    requires InBounds(s) && t < |s.tasks| && l in s.waiters
    ensures InBounds(r) && |r.tasks| == |s.tasks|
  {
    var k := EventPosition(s.tasks, s.waiters[l], s.tasks[t].priority);
    s.(waiters := s.waiters[l := InsertAt(s.waiters[l], k, t)],
       tasks := s.tasks[t := s.tasks[t].(eventList := Some(l), stamp := s.stamps)],
       stamps := s.stamps + 1)
  }

  function EventListRemove(s: State, t: nat): (r: State)
    requires InBounds(s) && t < |s.tasks| && s.tasks[t].eventList.Some?
    ensures InBounds(r) && |r.tasks| == |s.tasks| && r.delayed == s.delayed
  {
    var l := s.tasks[t].eventList.value;
    s.(waiters := s.waiters[l := Remove(s.waiters[l], t)],
       tasks := s.tasks[t := s.tasks[t].(eventList := None)])
  }

  function SetEffectivePriority(s: State, t: nat, priority: Priority): (r: State)
    requires InBounds(s) && t < |s.tasks|
    ensures InBounds(r) && |r.tasks| == |s.tasks| && r.delayed == s.delayed
  {
    var tcb := s.tasks[t];
    if tcb.priority == priority then s
    else if tcb.state == Ready then
      var removed := ReadyListRemove(s, t);
      ReadyListInsert(WithTask(removed, t, tcb.(priority := priority)), t)
    else if tcb.state == Blocked && tcb.eventList.Some? then
      var removed := EventListRemove(s, t);
      EventListInsert(WithTask(removed, t, removed.tasks[t].(priority := priority)), tcb.eventList.value, t)
    else
      WithTask(s, t, tcb.(priority := priority))
  }

  function Max(a: Priority, b: Priority): Priority {
    if a < b then b else a
  }

  function SetInheritedPriority(s: State, t: nat, priority: Priority): (r: State)
    requires InBounds(s) && t < |s.tasks|
    ensures InBounds(r) && |r.tasks| == |s.tasks| && r.delayed == s.delayed
  {
    var tcb := s.tasks[t];
    SetEffectivePriority(WithTask(s, t, tcb.(inheritedPriority := priority)), t, Max(tcb.basePriority, priority))
  }

  function PrioritySet(s: State, t: nat, priority: Priority): (r: State)
    requires InBounds(s) && t < |s.tasks|
    ensures InBounds(r) && |r.tasks| == |s.tasks|
  {
    var tcb := s.tasks[t];
    SetEffectivePriority(WithTask(s, t, tcb.(basePriority := priority)), t, Max(priority, tcb.inheritedPriority))
  }

  predicate CurrentRunning(s: State)
    requires InBounds(s)
  {
    s.current.Some? && s.tasks[s.current.value].state == Running
  }

  /** Whether making `t` ready asks for an immediate switch. */
  predicate Outranks(s: State, t: nat)
    requires InBounds(s) && t < |s.tasks|
  {
    CurrentRunning(s) && s.tasks[t].priority > s.tasks[s.current.value].priority
  }

  /** Parks task `t` on `l`; the wait result starts false and becomes true only if
      the event arrives. */
  function BlockOn(s: State, t: nat, l: ListId, reason: WaitReason, call: Call, ticks: nat): (r: State)
    requires InBounds(s) && t < |s.tasks| && l in s.waiters
    requires call.NoCall? || call.InDelay? || call.obj < |s.objects|
    ensures InBounds(r) && |r.tasks| == |s.tasks|
  {
    var tcb := s.tasks[t].(
      state := Blocked, waitObject := Some(l.obj), waitReason := reason, waitResult := false,
      waitHasTimeout := true, wakeTick := Wrap(s.tick + ticks), call := call, deadline := s.now + ticks);
    DelayListInsert(EventListInsert(WithTask(s, t, tcb), l, t), t)
  }

  /** Makes ready a task that is in no list. */
  function MakeReady(s: State, t: nat, result: bool): (r: State)
    requires InBounds(s) && t < |s.tasks|
    ensures InBounds(r) && |r.tasks| == |s.tasks|
  {
    ReadyListInsert(WithTask(s, t, s.tasks[t].(waitResult := result, state := Ready)), t)
  }

  /** Wakes the head of a wait list, if there is one; the flag asks for a switch. */
  function UnblockOne(s: State, l: ListId): (r: (State, bool))
    requires InBounds(s) && l in s.waiters
    requires forall t :: t in s.waiters[l] ==> s.tasks[t].eventList == Some(l)
    ensures InBounds(r.0) && |r.0.tasks| == |s.tasks| && r.0.current == s.current
  {
    if s.waiters[l] == [] then (s, false)
    else
      var t := s.waiters[l][0];
      assert t in s.waiters[l];
      var unlinked := EventListRemove(s, t);
      var woken := MakeReady(if t in unlinked.delayed then DelayListRemove(unlinked, t) else unlinked, t, true);
      (woken, Outranks(woken, t))
  }

  /** Ticks left of the wait that `t` was parked with. */
  function WaitRemaining(s: State, t: nat): Tick
    requires t < |s.tasks|
  {
    if !s.tasks[t].waitHasTimeout || !TickBefore(s.tick, s.tasks[t].wakeTick) then 0
    else UnsignedDifference(s.tasks[t].wakeTick, s.tick)
  }

  /** Forgets the wait; the call that `t` was suspended in goes on running. */
  function ClearWaitState(s: State, t: nat): (r: State)
    requires InBounds(s) && t < |s.tasks|
    ensures InBounds(r) && |r.tasks| == |s.tasks|
  {
    WithTask(s, t, s.tasks[t].(
      wakeTick := 0, waitObject := None, waitReason := WaitNone, waitResult := false,
      waitHasTimeout := false, call := NoCall))
  }

  /** The highest priority below `bound` whose ready list is not empty. */
  function HighestReady(ready: ReadyLists, bound: nat): (r: Option<Priority>)
    requires bound <= MAX_PRIORITIES
    ensures r.None? ==> forall p: Priority :: p < bound ==> ready[p] == []
    ensures r.Some? ==> r.value < bound && ready[r.value] != []
    ensures r.Some? ==> forall p: Priority :: r.value < p < bound ==> ready[p] == []
  {
    if bound == 0 then None
    else if ready[bound - 1] != [] then Some(bound - 1)
    else HighestReady(ready, bound - 1)
  }

  function SwitchContext(s: State): (r: State)
    requires InBounds(s)
    ensures InBounds(r) && |r.tasks| == |s.tasks|
  {
    var highest := HighestReady(s.ready, MAX_PRIORITIES);
    if highest.None? then s.(current := None)
    else
      var next := s.ready[highest.value][0];
      var taken := s.(ready := s.ready[highest.value := Remove(s.ready[highest.value], next)], current := Some(next));
      WithTask(taken, next, taken.tasks[next].(state := Running))
  }

  /** Puts the running task at the back of its ready list and switches. */
  function YieldCurrent(s: State): (r: State)
    requires InBounds(s) && s.current.Some?
    ensures InBounds(r) && |r.tasks| == |s.tasks|
  {
    var t := s.current.value;
    SwitchContext(ReadyListInsert(WithTask(s, t, s.tasks[t].(state := Ready)), t))
  }

  function DelayCurrent(s: State, ticks: nat): (r: State)
    requires InBounds(s) && s.current.Some?
    ensures InBounds(r) && |r.tasks| == |s.tasks|
  {
    if ticks == 0 then YieldCurrent(s)
    else
      var t := s.current.value;
      var tcb := s.tasks[t].(
        wakeTick := Wrap(s.tick + ticks), waitObject := None, waitReason := WaitNone, waitResult := false,
        waitHasTimeout := false, state := Blocked, call := InDelay, deadline := s.now + ticks);
      SwitchContext(DelayListInsert(WithTask(s, t, tcb), t))
  }

  /** How long vTaskDelayUntil delays to reach the tick `next`; 0 means a yield. */
  function UntilTicks(s: State, next: Tick): Tick {
    if TickBefore(s.tick, next) then UnsignedDifference(next, s.tick) else 0
  }
}
