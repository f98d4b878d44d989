/** The state of the kernel between two atomic steps, as values: task control
    blocks, the ready, delay and event lists, the synchronisation objects and the
    tick counter. Tasks and objects are named by their creation index. */
module KernelState {
  import opened Ticks
  import opened Lists

  const MAX_PRIORITIES: nat := 8
  const IDLE_PRIORITY: Priority := 0

  type Priority = p: nat | p < 8
  type Byte = b: nat | b < 256

  datatype Option<+T> = None | Some(value: T)

  datatype TaskState = Running | Ready | Blocked | Deleted

  datatype WaitReason = WaitNone | WaitQueueSend | WaitQueueReceive | WaitSemaphoreTake | WaitMutexTake

  datatype Side = SendSide | ReceiveSide

  /** The wait list of senders, or of receivers and takers, of an object. */
  datatype ListId = ListId(obj: nat, side: Side)

  /** The blocking call a task is suspended in, with the locals that the retry loop
      keeps on the task's stack. `due` is bookkeeping of the model: the instant at
      which the timeout given by the caller runs out. */
  datatype Call =
    | NoCall
    | InSend(obj: nat, item: seq<Byte>, due: nat)
    | InReceive(obj: nat, due: nat)
    | InTake(obj: nat, due: nat)
    | InDelay

  /** A task control block. `deadline` (the instant whose reading is `wakeTick`),
      `stamp` and `delayStamp` (when it last joined an event list and the delay list)
      are bookkeeping of the model: no function of the kernel branches on them. */
  datatype Tcb = Tcb(
    priority: Priority,
    basePriority: Priority,
    inheritedPriority: Priority,
    state: TaskState,
    wakeTick: Tick,
    eventList: Option<ListId>,
    waitObject: Option<nat>,
    waitReason: WaitReason,
    waitResult: bool,
    waitHasTimeout: bool,
    call: Call,
    deadline: nat,
    stamp: nat,
    delayStamp: nat)

  datatype Kind = QueueData | BinarySemaphore | CountingSemaphore | Mutex

  /** A queue, semaphore or mutex. `slots` are the storage bytes in item-sized
      pieces. `accepted` and `delivered` are bookkeeping of the
      model: every item ever copied in and out. */
  datatype Object = Object(
    kind: Kind,
    slots: seq<seq<Byte>>,
    length: nat,
    itemSize: nat,
    head: nat,
    tail: nat,
    count: nat,
    maxCount: nat,
    owner: Option<nat>,
    accepted: seq<seq<Byte>>,
    delivered: seq<seq<Byte>>)

  type ReadyLists = r: seq<seq<nat>> | |r| == 8 witness [[], [], [], [], [], [], [], []]

  /** `now` (the unbounded clock) and `stamps` (ordered insertions so far) are
      bookkeeping of the model. */
  datatype State = State(
    tasks: seq<Tcb>,
    ready: ReadyLists,
    delayed: seq<nat>,
    waiters: map<ListId, seq<nat>>,
    objects: seq<Object>,
    registry: seq<nat>,
    current: Option<nat>,
    idle: nat,
    tick: Tick,
    now: nat,
    stamps: nat)

  ghost predicate ReadyInBounds(ready: ReadyLists, n: nat) {
    forall p: Priority :: AllBelow(ready[p], n)
  }

  ghost predicate WaitersInBounds(waiters: map<ListId, seq<nat>>, n: nat, objects: nat) {
    && (forall l :: l in waiters ==> AllBelow(waiters[l], n))
    && (forall l: ListId :: l in waiters <==> l.obj < objects)
  }

  ghost predicate TcbInBounds(t: Tcb, objects: nat) {
    && (t.eventList.Some? ==> t.eventList.value.obj < objects)
    && (t.waitObject.Some? ==> t.waitObject.value < objects)
    && (t.call.NoCall? || t.call.InDelay? || t.call.obj < objects)
  }

  ghost predicate TasksInBounds(tasks: seq<Tcb>, objects: nat) {
    forall t :: 0 <= t < |tasks| ==> TcbInBounds(tasks[t], objects)
  }

  ghost predicate OwnersInBounds(objects: seq<Object>, n: nat) {
    forall o :: 0 <= o < |objects| && objects[o].owner.Some? ==> objects[o].owner.value < n
  }

  /** Every task or object number stored anywhere names a task or an object. */
  ghost predicate InBounds(s: State) {
    && ReadyInBounds(s.ready, |s.tasks|)
    && AllBelow(s.delayed, |s.tasks|)
    && WaitersInBounds(s.waiters, |s.tasks|, |s.objects|)
    && TasksInBounds(s.tasks, |s.objects|)
    && OwnersInBounds(s.objects, |s.tasks|)
    && AllBelow(s.registry, |s.objects|)
    && (s.current.Some? ==> s.current.value < |s.tasks|)
    && s.idle < |s.tasks|
  }
}
