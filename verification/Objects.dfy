/** The kernel's objects as they lie in memory: task control blocks with their link
    fields, the lists that thread through them, the synchronisation objects and the
    scheduler's globals, and what it means for them to stand for a `State`. */
module Objects {
  import opened Ticks
  import opened Lists
  import opened KernelState

  /** Which list of the kernel a list is. */
  datatype Place = ReadyPlace(priority: Priority) | DelayPlace | EventPlace(id: ListId)

  class List {
    var head: Task?
    var tail: Task?
    var length: nat
    ghost const place: Place

    constructor (ghost place: Place)
      ensures this.place == place && head == null && tail == null && length == 0
    {
      head, tail, length := null, null, 0;
      this.place := place;
    }
  }

  class Task {
    ghost const number: nat
    var priority: Priority
    var basePriority: Priority
    var inheritedPriority: Priority
    var state: TaskState
    var readyPrevious: Task?
    var readyNext: Task?
    var inReadyList: bool
    var wakeTick: Tick
    var delayPrevious: Task?
    var delayNext: Task?
    var inDelayList: bool
    var eventPrevious: Task?
    var eventNext: Task?
    var eventList: List?
    var waitObject: SyncObject?
    var waitReason: WaitReason
    var waitResult: bool
    var waitHasTimeout: bool

    constructor (ghost number: nat, priority: Priority)
      ensures this.number == number && this.priority == basePriority == priority && inheritedPriority == IDLE_PRIORITY
      ensures state == Ready && !inReadyList && !inDelayList && eventList == null && waitObject == null
      ensures wakeTick == 0 && waitReason == WaitNone && !waitResult && !waitHasTimeout
    {
      this.number := number;
      this.priority, basePriority, inheritedPriority, state := priority, priority, IDLE_PRIORITY, Ready;
      readyPrevious, readyNext, inReadyList := null, null, false;
      wakeTick, delayPrevious, delayNext, inDelayList := 0, null, null, false;
      eventPrevious, eventNext, eventList := null, null, null;
      waitObject, waitReason, waitResult, waitHasTimeout := null, WaitNone, false, false;
    }
  }

  class SyncObject {
    ghost const number: nat
    const kind: Kind
    const storage: array<Byte>
    const length: nat
    const itemSize: nat
    var head: nat
    var tail: nat
    var count: nat
    const maxCount: nat
    const sendWaiters: List
    const receiveWaiters: List
    var owner: Task?
    var registryNext: SyncObject?

    constructor (ghost number: nat, kind: Kind, length: nat, itemSize: nat, maxCount: nat, initialCount: nat)
      ensures this.number == number && this.kind == kind && this.length == length && this.itemSize == itemSize
      ensures this.maxCount == maxCount && count == initialCount && head == 0 && tail == 0
      ensures owner == null && registryNext == null && fresh(storage) && storage.Length == length * itemSize
      ensures fresh(sendWaiters) && sendWaiters.head == null && sendWaiters.tail == null && sendWaiters.length == 0
      ensures fresh(receiveWaiters) && receiveWaiters.head == null
      ensures receiveWaiters.tail == null && receiveWaiters.length == 0
      ensures sendWaiters.place == EventPlace(ListId(number, SendSide))
      ensures receiveWaiters.place == EventPlace(ListId(number, ReceiveSide))
    {
      this.number, this.kind, this.length, this.itemSize, this.maxCount := number, kind, length, itemSize, maxCount;
      head, tail, count, owner, registryNext := 0, 0, initialCount, null, null;
      storage := new Byte[length * itemSize](i => 0);
      sendWaiters := new List(EventPlace(ListId(number, SendSide)));
      receiveWaiters := new List(EventPlace(ListId(number, ReceiveSide)));
    }
  }

  /** The task at position `i` of a list, null outside it. */
  function At(tasks: seq<Task>, q: seq<nat>, i: int): (r: Task?)
    requires AllBelow(q, |tasks|)
  {
    if 0 <= i < |q| then tasks[q[i]] else null
  }

  /** The links `next` and `previous` (by task number) thread the tasks of `q`, in order
      and in both directions. */
  ghost predicate Chain(tasks: seq<Task>, next: seq<Task?>, previous: seq<Task?>, q: seq<nat>) {
    && |next| == |previous| == |tasks| && AllBelow(q, |tasks|) && NoDup(q)
    && (forall i {:trigger next[q[i]]} :: 0 <= i < |q| ==> next[q[i]] == At(tasks, q, i + 1))
    && (forall i {:trigger previous[q[i]]} :: 0 <= i < |q| ==> previous[q[i]] == At(tasks, q, i - 1))
  }

  /** A list's own fields agree with its contents. */
  ghost predicate Ends(tasks: seq<Task>, list: List, q: seq<nat>)
    requires AllBelow(q, |tasks|)
    reads list
  {
    list.head == At(tasks, q, 0) && list.tail == At(tasks, q, |q| - 1) && list.length == |q|
  }

  // ---------- the link fields, by task number ----------

  ghost function ReadyNexts(tasks: seq<Task>): (r: seq<Task?>)
    reads tasks`readyNext
    ensures |r| == |tasks|
  {
    if tasks == [] then [] else ReadyNexts(tasks[..|tasks| - 1]) + [tasks[|tasks| - 1].readyNext]
  }

  lemma ReadyNextsAt(tasks: seq<Task>)
    ensures forall t {:trigger ReadyNexts(tasks)[t]} :: 0 <= t < |tasks| ==> ReadyNexts(tasks)[t] == tasks[t].readyNext
  {
    if tasks != [] { ReadyNextsAt(tasks[..|tasks| - 1]); }
  }

  ghost function ReadyPreviouses(tasks: seq<Task>): (r: seq<Task?>)
    reads tasks`readyPrevious
    ensures |r| == |tasks|
  {
    if tasks == [] then [] else ReadyPreviouses(tasks[..|tasks| - 1]) + [tasks[|tasks| - 1].readyPrevious]
  }

  lemma ReadyPreviousesAt(tasks: seq<Task>)
    ensures forall t {:trigger ReadyPreviouses(tasks)[t]} :: 0 <= t < |tasks| ==> ReadyPreviouses(tasks)[t] == tasks[t].readyPrevious
  {
    if tasks != [] { ReadyPreviousesAt(tasks[..|tasks| - 1]); }
  }

  ghost function DelayNexts(tasks: seq<Task>): (r: seq<Task?>)
    reads tasks`delayNext
    ensures |r| == |tasks|
  {
    if tasks == [] then [] else DelayNexts(tasks[..|tasks| - 1]) + [tasks[|tasks| - 1].delayNext]
  }

  lemma DelayNextsAt(tasks: seq<Task>)
    ensures forall t {:trigger DelayNexts(tasks)[t]} :: 0 <= t < |tasks| ==> DelayNexts(tasks)[t] == tasks[t].delayNext
  {
    if tasks != [] { DelayNextsAt(tasks[..|tasks| - 1]); }
  }

  ghost function DelayPreviouses(tasks: seq<Task>): (r: seq<Task?>)
    reads tasks`delayPrevious
    ensures |r| == |tasks|
  {
    if tasks == [] then [] else DelayPreviouses(tasks[..|tasks| - 1]) + [tasks[|tasks| - 1].delayPrevious]
  }

  lemma DelayPreviousesAt(tasks: seq<Task>)
    ensures forall t {:trigger DelayPreviouses(tasks)[t]} :: 0 <= t < |tasks| ==> DelayPreviouses(tasks)[t] == tasks[t].delayPrevious
  {
    if tasks != [] { DelayPreviousesAt(tasks[..|tasks| - 1]); }
  }

  ghost function EventNexts(tasks: seq<Task>): (r: seq<Task?>)
    reads tasks`eventNext
    ensures |r| == |tasks|
  {
    if tasks == [] then [] else EventNexts(tasks[..|tasks| - 1]) + [tasks[|tasks| - 1].eventNext]
  }

  lemma EventNextsAt(tasks: seq<Task>)
    ensures forall t {:trigger EventNexts(tasks)[t]} :: 0 <= t < |tasks| ==> EventNexts(tasks)[t] == tasks[t].eventNext
  {
    if tasks != [] { EventNextsAt(tasks[..|tasks| - 1]); }
  }

  ghost function EventPreviouses(tasks: seq<Task>): (r: seq<Task?>)
    reads tasks`eventPrevious
    ensures |r| == |tasks|
  {
    if tasks == [] then [] else EventPreviouses(tasks[..|tasks| - 1]) + [tasks[|tasks| - 1].eventPrevious]
  }

  lemma EventPreviousesAt(tasks: seq<Task>)
    ensures forall t {:trigger EventPreviouses(tasks)[t]} :: 0 <= t < |tasks| ==> EventPreviouses(tasks)[t] == tasks[t].eventPrevious
  {
    if tasks != [] { EventPreviousesAt(tasks[..|tasks| - 1]); }
  }

  // ---------- the chain operations ----------

  /** The links after `t` is put in before position `k`. */
  ghost predicate LinkedIn(
    tasks: seq<Task>, next: seq<Task?>, previous: seq<Task?>, next': seq<Task?>, previous': seq<Task?>, q: seq<nat>, k: nat, t: nat)
  {
    && k <= |q| && t < |tasks| && |next| == |previous| == |tasks| && AllBelow(q, |tasks|)
    && (var n := next[t := At(tasks, q, k)]; next' == if k > 0 then n[q[k - 1] := tasks[t]] else n)
    && (var p := previous[t := At(tasks, q, k - 1)]; previous' == if k < |q| then p[q[k] := tasks[t]] else p)
  }

  /** The links after `t`, at position `k`, is taken out. */
  ghost predicate LinkedOut(
    tasks: seq<Task>, next: seq<Task?>, previous: seq<Task?>, next': seq<Task?>, previous': seq<Task?>, q: seq<nat>, k: nat)
  {
    && k < |q| && |next| == |previous| == |tasks| && AllBelow(q, |tasks|)
    && (var n := if k > 0 then next[q[k - 1] := At(tasks, q, k + 1)] else next; next' == n[q[k] := null])
    && (var p := if k + 1 < |q| then previous[q[k + 1] := At(tasks, q, k - 1)] else previous; previous' == p[q[k] := null])
  }

  lemma ChainInsertAt(
    tasks: seq<Task>, next: seq<Task?>, previous: seq<Task?>, next': seq<Task?>, previous': seq<Task?>, q: seq<nat>, k: nat, t: nat, i: nat)
    requires Chain(tasks, next, previous, q) && LinkedIn(tasks, next, previous, next', previous', q, k, t) && t !in q
    requires i <= |q|
    ensures var r := InsertAt(q, k, t);
      AllBelow(r, |tasks|) && next'[r[i]] == At(tasks, r, i + 1) && previous'[r[i]] == At(tasks, r, i - 1)
  {
    var r := InsertAt(q, k, t);
    if i < k {
      assert r[i] == q[i] && q[i] in q && next[q[i]] == At(tasks, q, i + 1) && previous[q[i]] == At(tasks, q, i - 1);
    } else if i > k {
      assert r[i] == q[i - 1] && q[i - 1] in q;
      assert next[q[i - 1]] == At(tasks, q, i) && previous[q[i - 1]] == At(tasks, q, i - 2);
    }
  }

  lemma ChainInsert(
    tasks: seq<Task>, next: seq<Task?>, previous: seq<Task?>, next': seq<Task?>, previous': seq<Task?>, q: seq<nat>, k: nat, t: nat)
    requires Chain(tasks, next, previous, q) && LinkedIn(tasks, next, previous, next', previous', q, k, t) && t !in q
    ensures Chain(tasks, next', previous', InsertAt(q, k, t))
  {
    hide InsertAt;
    InsertAtMembers(q, k, t);
    InsertAtLength(q, k, t);
    assert AllBelow(InsertAt(q, k, t), |tasks|);
    forall i | 0 <= i < |InsertAt(q, k, t)|
      ensures next'[InsertAt(q, k, t)[i]] == At(tasks, InsertAt(q, k, t), i + 1)
      ensures previous'[InsertAt(q, k, t)[i]] == At(tasks, InsertAt(q, k, t), i - 1)
    {
      ChainInsertAt(tasks, next, previous, next', previous', q, k, t, i);
    }
  }

  lemma InsertAtLength(q: seq<nat>, k: nat, t: nat)
    requires k <= |q|
    ensures |InsertAt(q, k, t)| == |q| + 1
  {
  }

  lemma ChainRemove(
    tasks: seq<Task>, next: seq<Task?>, previous: seq<Task?>, next': seq<Task?>, previous': seq<Task?>, q: seq<nat>, k: nat)
    requires Chain(tasks, next, previous, q) && LinkedOut(tasks, next, previous, next', previous', q, k)
    ensures Chain(tasks, next', previous', Remove(q, q[k])) && Remove(q, q[k]) == q[..k] + q[k + 1..]
  {
    var r := Remove(q, q[k]);
    RemoveMembers(q, q[k]);
    assert IndexOf(q, q[k]) == k;
    forall i | 0 <= i < |r|
      ensures next'[r[i]] == At(tasks, r, i + 1) && previous'[r[i]] == At(tasks, r, i - 1)
    {
      var j := if i < k then i else i + 1;
      assert r[i] == q[j] && next[q[j]] == At(tasks, q, j + 1) && previous[q[j]] == At(tasks, q, j - 1);
    }
  }

  /** A chain that none of the changed links belongs to. */
  lemma ChainKept(
    tasks: seq<Task>, next: seq<Task?>, previous: seq<Task?>, next': seq<Task?>, previous': seq<Task?>, q: seq<nat>)
    requires Chain(tasks, next, previous, q) && |next'| == |previous'| == |tasks|
    requires forall i {:trigger q[i]} :: 0 <= i < |q| ==> next'[q[i]] == next[q[i]] && previous'[q[i]] == previous[q[i]]
    ensures Chain(tasks, next', previous', q)
  {
  }

  lemma ChainMembers(tasks: seq<Task>, next: seq<Task?>, previous: seq<Task?>, q: seq<nat>)
    requires Chain(tasks, next, previous, q)
    ensures |next| == |previous| == |tasks| && AllBelow(q, |tasks|) && NoDup(q)
  {
  }

  lemma RemoveAt(q: seq<nat>, k: nat)
    requires NoDup(q) && k < |q|
    ensures Remove(q, q[k]) == q[..k] + q[k + 1..]
    ensures forall x {:trigger x in Remove(q, q[k])} :: x in Remove(q, q[k]) <==> x in q && x != q[k]
  {
    RemoveMembers(q, q[k]);
    assert IndexOf(q, q[k]) == k;
  }
}
