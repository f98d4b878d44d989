/** kernel/queue.c on values, and the parts of kernel/tasks.c that call back into it:
    the end of a wait by timeout or abort. */
module QueueModel {
  import opened Ticks
  import opened Lists
  import opened KernelState
  import opened TaskModel
  import opened QueueRing

  /** What a call returns to its task: pdPASS (with the received item), pdFAIL, or
      nothing yet. */
  datatype Outcome = Passed | Received(item: seq<Byte>) | Refused | Suspended

  /** The head of every non-empty wait list knows that it is queued there. */
  ghost predicate Linked(tasks: seq<Tcb>, waiters: map<ListId, seq<nat>>) {
    forall l, i :: l in waiters && 0 <= i < |waiters[l]| ==>
      waiters[l][i] < |tasks| && tasks[waiters[l][i]].eventList == Some(l)
  }

  /** The objects are what the creation functions make, whatever was done since. */
  ghost predicate ObjectShape(o: Object) {
    match o.kind
    case QueueData => RingShape(o) && o.owner.None?
    case Mutex => o.count <= 1 && (o.count == 0 <==> o.owner.Some?)
    case _ => o.count <= o.maxCount && o.owner.None?
  }

  /** A suspended call names an object of its own kind. */
  ghost predicate CallShape(call: Call, objects: seq<Object>) {
    match call
    case InSend(o, item, _) => o < |objects| && objects[o].kind == QueueData && |item| == objects[o].itemSize
    case InReceive(o, _) => o < |objects| && objects[o].kind == QueueData
    case InTake(o, _) => o < |objects| && objects[o].kind != QueueData
    case _ => true
  }

  ghost predicate Shapes(tasks: seq<Tcb>, objects: seq<Object>) {
    && (forall o :: 0 <= o < |objects| ==> ObjectShape(objects[o]))
    && (forall t :: 0 <= t < |tasks| ==> CallShape(tasks[t].call, objects))
  }

  /** What the kernel calls need in order to follow their pointers. */
  ghost predicate Operable(s: State) {
    InBounds(s) && Linked(s.tasks, s.waiters) && Shapes(s.tasks, s.objects)
  }

  /** The scan of the mutex registry with its running maximum. */
  function MaxWaiter(s: State, registry: seq<nat>, t: nat, best: Priority): (r: Priority)
    requires InBounds(s) && AllBelow(registry, |s.objects|)
    decreases |registry|
  {
    if registry == [] then best
    else
      var q := s.waiters[ListId(registry[0], ReceiveSide)];
      var counts := s.objects[registry[0]].owner == Some(t) && q != [] && s.tasks[q[0]].priority > best;
      MaxWaiter(s, registry[1..], t, if counts then s.tasks[q[0]].priority else best)
  }

  function RecomputeInheritedPriority(s: State, t: nat): (r: State)
    requires InBounds(s) && t < |s.tasks|
    ensures InBounds(r) && |r.tasks| == |s.tasks| && r.delayed == s.delayed
  {
    SetInheritedPriority(s, t, MaxWaiter(s, s.registry, t, IDLE_PRIORITY))
  }

  predicate OwnsMutex(s: State, t: nat)
    requires InBounds(s)
  {
    exists i :: 0 <= i < |s.registry| && s.objects[s.registry[i]].owner == Some(t)
  }

  /** A timed-out or aborted wait on an owned mutex: its owner may lose its boost. */
  function WaitEnded(s: State, t: nat): (r: State)
    requires InBounds(s) && t < |s.tasks|
    ensures InBounds(r) && |r.tasks| == |s.tasks| && r.delayed == s.delayed
  {
    var tcb := s.tasks[t];
    if tcb.waitReason != WaitMutexTake || tcb.waitObject.None? then s
    else
      var mutex := s.objects[tcb.waitObject.value];
      if mutex.kind == Mutex && mutex.owner.Some? then RecomputeInheritedPriority(s, mutex.owner.value) else s
  }

  /** Ends the wait of a blocked task without the event. */
  function EndWait(s: State, t: nat): (r: State)
    requires InBounds(s) && t < |s.tasks|
    ensures InBounds(r) && |r.tasks| == |s.tasks|
    ensures r.delayed == Remove(s.delayed, t)
  {
    var undelayed := DelayListRemove(s, t);
    var ended :=
      if s.tasks[t].eventList.Some? then WaitEnded(EventListRemove(undelayed, t), t) else undelayed;
    MakeReady(ended, t, false)
  }

  /** Drains the head of the delay list while it is due. */
  function WakeExpired(s: State): (r: State)
    requires InBounds(s)
    ensures InBounds(r) && |r.tasks| == |s.tasks|
    decreases |s.delayed|
  {
    if s.delayed != [] && TickReached(s.tick, s.tasks[s.delayed[0]].wakeTick) then
      WakeExpired(EndWait(s, s.delayed[0]))
    else s
  }

  /** Wakes one waiter and, having left the critical section, yields to it if asked. */
  function UnblockAndSwitch(s: State, l: ListId): (r: State)
    requires InBounds(s) && s.current.Some? && l in s.waiters
    requires Linked(s.tasks, s.waiters)
    ensures InBounds(r)
  {
    var (woken, preempts) := UnblockOne(s, l);
    if preempts then YieldCurrent(woken) else woken
  }

  /** One critical section of xQueueSend and the switch after it. */
  function SendAttempt(s: State, o: nat, item: seq<Byte>, ticks: nat, due: nat): (r: (State, Outcome))
    requires Operable(s) && s.current.Some? && o < |s.objects| && s.objects[o].kind == QueueData
    requires |item| == s.objects[o].itemSize
    ensures InBounds(r.0)
  {
    if s.objects[o].count < s.objects[o].length then
      var stored := s.(objects := s.objects[o := CopyIn(s.objects[o], item)]);
      (UnblockAndSwitch(stored, ListId(o, ReceiveSide)), Passed)
    else if ticks == 0 then (s, Refused)
    else
      var call := InSend(o, item, due);
      (SwitchContext(BlockOn(s, s.current.value, ListId(o, SendSide), WaitQueueSend, call, ticks)), Suspended)
  }

  /** One critical section of xQueueReceive and the switch after it. */
  function ReceiveAttempt(s: State, o: nat, ticks: nat, due: nat): (r: (State, Outcome))
    requires Operable(s) && s.current.Some? && o < |s.objects| && s.objects[o].kind == QueueData
    ensures InBounds(r.0)
  {
    if s.objects[o].count > 0 then
      var item := s.objects[o].slots[s.objects[o].tail];
      var taken := s.(objects := s.objects[o := CopyOut(s.objects[o])]);
      (UnblockAndSwitch(taken, ListId(o, SendSide)), Received(item))
    else if ticks == 0 then (s, Refused)
    else
      var call := InReceive(o, due);
      (SwitchContext(BlockOn(s, s.current.value, ListId(o, ReceiveSide), WaitQueueReceive, call, ticks)), Suspended)
  }

  /** A token is taken; a mutex is now owned by `t`. */
  function TokenTaken(o: Object, t: nat): (r: Object)
    requires o.count > 0
  {
    o.(count := o.count - 1, owner := if o.kind == Mutex then Some(t) else o.owner)
  }

  function TokenGiven(o: Object): (r: Object) {
    o.(count := o.count + 1)
  }

  function Released(o: Object): (r: Object) {
    o.(owner := None, count := 1)
  }

  /** One critical section of xSemaphoreTake and the switch after it. */
  function TakeAttempt(s: State, o: nat, ticks: nat, due: nat): (r: (State, Outcome))
    requires Operable(s) && s.current.Some? && o < |s.objects| && s.objects[o].kind != QueueData
    ensures InBounds(r.0)
  {
    var t := s.current.value;
    var semaphore := s.objects[o];
    if semaphore.kind == Mutex && semaphore.owner == Some(t) then (s, Refused)
    else if semaphore.count > 0 then
      (s.(objects := s.objects[o := TokenTaken(semaphore, t)]), Passed)
    else if ticks == 0 then (s, Refused)
    else
      var reason := if semaphore.kind == Mutex then WaitMutexTake else WaitSemaphoreTake;
      var blocked := BlockOn(s, t, ListId(o, ReceiveSide), reason, InTake(o, due), ticks);
      var boosted :=
        if semaphore.kind == Mutex && semaphore.owner.Some? then
          RecomputeInheritedPriority(blocked, semaphore.owner.value)
        else blocked;
      (SwitchContext(boosted), Suspended)
  }

  /** xSemaphoreGive and the switch after it. */
  function GiveMutex(s: State, o: nat): (r: (State, Outcome))
    requires Operable(s) && s.current.Some? && o < |s.objects| && s.objects[o].kind == Mutex
    ensures InBounds(r.0)
  {
    var t := s.current.value;
    if s.tasks[t].state != Running || s.objects[o].owner != Some(t) then (s, Refused)
    else
      var q := s.waiters[ListId(o, ReceiveSide)];
      var released := s.(objects := s.objects[o := Released(s.objects[o])]);
      var woken := UnblockOne(released, ListId(o, ReceiveSide)).0;
      var restored := RecomputeInheritedPriority(woken, t);
      var preempts := q != [] && restored.tasks[q[0]].priority > restored.tasks[t].priority;
      (if preempts then YieldCurrent(restored) else restored, Passed)
  }

  function GiveSemaphore(s: State, o: nat): (r: (State, Outcome))
    requires Operable(s) && s.current.Some? && o < |s.objects|
    ensures InBounds(r.0)
  {
    if s.objects[o].count >= s.objects[o].maxCount then (s, Refused)
    else
      var given := s.(objects := s.objects[o := TokenGiven(s.objects[o])]);
      (UnblockAndSwitch(given, ListId(o, ReceiveSide)), Passed)
  }

  function AbortDelay(s: State, t: nat): (r: (State, Outcome))
    requires InBounds(s) && s.current.Some? && t < |s.tasks|
    ensures InBounds(r.0)
  {
    if s.tasks[t].state != Blocked || t !in s.delayed then (s, Refused)
    else
      var woken := EndWait(s, t);
      (if Outranks(woken, t) && woken.current.Some? then YieldCurrent(woken) else woken, Passed)
  }

  /** vTaskTickISR: count, wake, and time-slice the running task. */
  function TickISR(s: State): (r: State)
    requires InBounds(s)
    ensures InBounds(r)
  {
    var woken := WakeExpired(s.(tick := Wrap(s.tick + 1), now := s.now + 1));
    if CurrentRunning(woken) then YieldCurrent(woken) else woken
  }
}
