/** Bounded waiting: among ready tasks of one priority nobody is passed over. */
module Fairness {
  import opened Ticks
  import opened Lists
  import opened KernelState
  import opened TaskModel
  import opened QueueRing
  import opened QueueModel
  import opened Kernel
  import opened Placement
  import opened Order
  import opened CoreInvariant
  import opened Steps
  import opened Wakeups
  import opened Rings
  import opened Inheritance
  import opened ClosedSystem
  import opened Runs

  /** Task `t` stands no further back in the list of priority `p` than before. */
  ghost predicate NotPassed(before: ReadyLists, after: ReadyLists, t: nat, p: Priority) {
    t in before[p] && t in after[p] && IndexOf(after[p], t) <= IndexOf(before[p], t)
  }

  /** 1 if a task of priority at most `p` is dispatched in place of another. */
  function Dispatch(s: State, r: State, p: Priority): nat {
    if r.current.Some? && r.current.value < |r.tasks| && r.current != s.current && r.tasks[r.current.value].priority <= p then 1 else 0
  }

  /** Every such dispatch brings `t` one place forward. */
  ghost predicate Nearer(s: State, r: State, t: nat, p: Priority) {
    t in s.ready[p] && t in r.ready[p] && IndexOf(r.ready[p], t) + Dispatch(s, r, p) <= IndexOf(s.ready[p], t)
  }

  lemma IndexIs(q: seq<nat>, t: nat, i: nat)
    requires i < |q| && q[i] == t && t !in q[..i]
    ensures t in q && IndexOf(q, t) == i
  {
    assert q[i] in q;
    assert t !in q[..IndexOf(q, t)];
  }

  lemma AppendIndex(q: seq<nat>, e: nat, t: nat)
    requires t in q
    ensures t in q + [e] && IndexOf(q + [e], t) == IndexOf(q, t)
  {
    var i := IndexOf(q, t);
    assert (q + [e])[..i] == q[..i];
    IndexIs(q + [e], t, i);
  }

  lemma CutIndex(q: seq<nat>, j: nat, t: nat, i: nat)
    requires j < |q| && i < |q| && i != j && q[i] == t && t !in q[..i] && q[j] != t
    ensures var r := q[..j] + q[j + 1..]; t in r && IndexOf(r, t) == if j < i then i - 1 else i
  {
    var r := q[..j] + q[j + 1..];
    var k := if j < i then i - 1 else i;
    assert r[k] == t;
    forall x | 0 <= x < k ensures r[x] != t {
      assert r[x] == q[if x < j then x else x + 1];
      assert q[if x < j then x else x + 1] in q[..i];
    }
    IndexIs(r, t, k);
  }

  lemma RemoveIndex(q: seq<nat>, e: nat, t: nat)
    requires t in q && e != t
    ensures t in Remove(q, e) && IndexOf(Remove(q, e), t) == IndexOf(q, t) - (if e in q && IndexOf(q, e) < IndexOf(q, t) then 1 else 0)
  {
    if e in q { CutIndex(q, IndexOf(q, e), t, IndexOf(q, t)); }
  }

  lemma InsertNotPassed(s: State, u: nat, t: nat, p: Priority)
    requires InBounds(s) && u < |s.tasks| && t in s.ready[p]
    ensures NotPassed(s.ready, ReadyListInsert(s, u).ready, t, p)
  {
    AppendIndex(s.ready[p], u, t);
  }

  lemma RemoveNotPassed(s: State, u: nat, t: nat, p: Priority)
    requires InBounds(s) && u < |s.tasks| && u != t && t in s.ready[p] && NoDup(s.ready[p])
    ensures NotPassed(s.ready, ReadyListRemove(s, u).ready, t, p)
  {
    RemoveIndex(s.ready[p], u, t);
  }

  lemma SetPriorityNotPassed(s: State, u: nat, v: Priority, t: nat, p: Priority)
    requires InBounds(s) && u < |s.tasks| && t in s.ready[p]
    requires NoDup(s.ready[p]) && (u != t || s.tasks[u].priority == v)
    ensures NotPassed(s.ready, SetEffectivePriority(s, u, v).ready, t, p)
  {
    var tcb := s.tasks[u];
    if tcb.priority != v && tcb.state == Ready {
      var removed := ReadyListRemove(s, u);
      RemoveNotPassed(s, u, t, p);
      InsertNotPassed(WithTask(removed, u, tcb.(priority := v)), u, t, p);
    } else {
      SetEffectivePriorityEffect(s, u, v);
    }
  }

  lemma RecomputeNotPassed(s: State, u: nat, t: nat, p: Priority)
    requires InBounds(s) && u < |s.tasks| && t in s.ready[p] && NoDup(s.ready[p])
    requires t < |s.tasks| && s.tasks[t].priority == p && RecomputeInheritedPriority(s, u).tasks[t].priority == p
    ensures NotPassed(s.ready, RecomputeInheritedPriority(s, u).ready, t, p)
  {
    var inherited := MaxWaiter(s, s.registry, u, IDLE_PRIORITY);
    var tcb := s.tasks[u].(inheritedPriority := inherited);
    var v := Max(tcb.basePriority, inherited);
    SetEffectivePriorityEffect(WithTask(s, u, tcb), u, v);
    SetPriorityNotPassed(WithTask(s, u, tcb), u, v, t, p);
  }

  /** A switch that does not choose `t` takes a task from a higher list or the one at
      the head of its own. */
  lemma SwitchNearer(s: State, t: nat, p: Priority)
    requires Core(s, None) && (s.current.Some? ==> s.tasks[s.current.value].state != Running)
    requires t in s.ready[p] && SwitchContext(s).current != Some(t)
    ensures var r := SwitchContext(s);
      && r.current.Some? && r.current.value < |r.tasks| && t in r.ready[p]
      && IndexOf(r.ready[p], t) + (if r.tasks[r.current.value].priority <= p then 1 else 0) <= IndexOf(s.ready[p], t)
  {
    SwitchContextCore(s);
    var h := HighestReady(s.ready, MAX_PRIORITIES).value;
    var next := s.ready[h][0];
    assert next in s.ready[h];
    if h == p {
      RemoveIndex(s.ready[p], next, t);
      assert IndexOf(s.ready[p], next) == 0;
    }
  }

  lemma NotPassedNearer(s: State, m: State, t: nat, p: Priority)
    requires NotPassed(s.ready, m.ready, t, p) && m.current == s.current
    ensures Nearer(s, m, t, p)
  {
  }

  lemma SwitchAfter(s: State, m: State, t: nat, p: Priority)
    requires NotPassed(s.ready, m.ready, t, p) && Core(m, None)
    requires m.current.Some? ==> m.tasks[m.current.value].state != Running
    requires SwitchContext(m).current != Some(t)
    ensures Nearer(s, SwitchContext(m), t, p)
  {
    SwitchNearer(m, t, p);
  }

  lemma YieldAfter(s: State, m: State, t: nat, p: Priority)
    requires NotPassed(s.ready, m.ready, t, p) && KernelInv(m) && YieldCurrent(m).current != Some(t)
    ensures Nearer(s, YieldCurrent(m), t, p)
  {
    PreemptCore(m);
    var c := m.current.value;
    var parked := WithTask(m, c, m.tasks[c].(state := Ready));
    InsertNotPassed(parked, c, t, p);
    SwitchAfter(s, ReadyListInsert(parked, c), t, p);
  }

  lemma NotPassedSame(s: State, r: State, t: nat, p: Priority)
    requires t in s.ready[p] && r.ready[p] == s.ready[p]
    ensures NotPassed(s.ready, r.ready, t, p)
  {
  }

  lemma ReadyMember(s: State, limbo: Option<nat>, t: nat, p: Priority)
    requires Core(s, limbo) && t in s.ready[p]
    ensures t < |s.tasks| && s.tasks[t].state == Ready && s.tasks[t].priority == p && NoDup(s.ready[p])
  {
  }

  lemma UnblockNotPassed(s: State, l: ListId, t: nat, p: Priority)
    requires Core(s, None) && l in s.waiters && t in s.ready[p]
    ensures Linked(s.tasks, s.waiters) && NotPassed(s.ready, UnblockOne(s, l).0.ready, t, p)
  {
    PlacedLinked(s, None);
    if s.waiters[l] != [] {
      UnblockOneEffect(s, l);
      AppendIndex(s.ready[p], s.waiters[l][0], t);
    }
  }

  lemma UnblockAndSwitchNearer(s: State, l: ListId, t: nat, p: Priority)
    requires KernelInv(s) && l in s.waiters && t in s.ready[p]
    requires Linked(s.tasks, s.waiters) && UnblockAndSwitch(s, l).current != Some(t)
    ensures Nearer(s, UnblockAndSwitch(s, l), t, p)
  {
    hide UnblockOne, YieldCurrent;
    WakeInv(s, l);
    UnblockNotPassed(s, l, t, p);
    UnblockOneQuiet(s, l);
    var woken := UnblockOne(s, l).0;
    if UnblockOne(s, l).1 { YieldAfter(s, woken, t, p); } else { NotPassedNearer(s, woken, t, p); }
  }

  lemma BlockSwitchNearer(s: State, l: ListId, reason: WaitReason, call: Call, ticks: nat, t: nat, p: Priority)
    requires KernelInv(s) && MayBlock(s, s.current.value, l, reason, call, ticks) && ticks > 0 && t in s.ready[p]
    requires SwitchContext(BlockOn(s, s.current.value, l, reason, call, ticks)).current != Some(t)
    ensures Nearer(s, SwitchContext(BlockOn(s, s.current.value, l, reason, call, ticks)), t, p)
  {
    hide BlockOn, SwitchContext;
    BlockInv(s, l, reason, call, ticks);
    var k, d := BlockOnEffect(s, s.current.value, l, reason, call, ticks);
    var r := BlockOn(s, s.current.value, l, reason, call, ticks);
    NotPassedSame(s, r, t, p);
    SwitchAfter(s, r, t, p);
  }

  lemma EndWaitNotPassed(s: State, h: nat, t: nat, p: Priority)
    requires Core(s, None) && h < |s.tasks| && s.tasks[h].state == Blocked && t in s.ready[p]
    requires EndWait(s, h).tasks[t].priority == p
    ensures NotPassed(s.ready, EndWait(s, h).ready, t, p)
  {
    hide RecomputeInheritedPriority;
    ReadyMember(s, None, t, p);
    EndWaitShape(s, h);
    UnlinkTasks(s, h);
    var m := Unlinked(s, h);
    assert m.ready == s.ready;
    WaitEndedShape(m, h);
    if s.tasks[h].eventList.Some? && LosingOwner(m, h).Some? {
      RecomputeNotPassed(m, LosingOwner(m, h).value, t, p);
    } else {
      NotPassedSame(s, m, t, p);
    }
    InsertNotPassed(WithTask(Ended(s, h), h, Ended(s, h).tasks[h].(waitResult := false, state := Ready)), h, t, p);
  }

  // ---------- ticks ----------

  /** No task is outranked by a waiter on a mutex it owns. */
  ghost predicate NoneOutranked(s: State)
    requires InBounds(s)
  {
    forall x {:trigger Boost(s, x)} :: 0 <= x < |s.tasks| ==> Boost(s, x) <= s.tasks[x].priority
  }

  ghost predicate OwnsNothing(s: State, t: nat) {
    forall o :: 0 <= o < |s.objects| ==> s.objects[o].owner != Some(t)
  }

  /** A tick does not raise the priority of `t` on the way. */
  ghost predicate Steady(s: State, t: nat)
    requires InBounds(s)
  {
    NoneOutranked(s) || OwnsNothing(s, t)
  }

  /** Nobody joins a wait list and no priority rises. */
  ghost predicate Falls(s: State, r: State) {
    && InBounds(s) && InBounds(r) && |r.tasks| == |s.tasks| && r.objects == s.objects && r.registry == s.registry
    && (forall l, i {:trigger r.waiters[l][i]} :: l in s.waiters && 0 <= i < |r.waiters[l]| ==> r.waiters[l][i] in s.waiters[l])
    && (forall t {:trigger r.tasks[t]} :: 0 <= t < |s.tasks| ==> r.tasks[t].priority <= s.tasks[t].priority)
  }

  lemma FallsBoost(s: State, r: State, x: nat)
    requires Falls(s, r) && WaitersOrdered(s.tasks, s.waiters, s.stamps)
    ensures Boost(r, x) <= Boost(s, x)
  {
    forall o | Contends(r, x, o) ensures HeadPriority(r, o) <= Boost(s, x) {
      var q, head := s.waiters[MutexList(o)], r.waiters[MutexList(o)][0];
      assert head in q;
      var i :| 0 <= i < |q| && q[i] == head;
      assert WaitOrdered(s.tasks, q, s.stamps);
      if i > 0 { assert WaitsBefore(s.tasks[q[0]], s.tasks[q[i]]); }
      BoostBounds(s, x, o);
    }
    BoostLeast(r, x, Boost(s, x));
  }

  lemma ResortMembers(s: State, u: nat, v: Priority)
    requires InBounds(s) && u < |s.tasks| && forall l :: l in s.waiters ==> NoDup(s.waiters[l])
    requires s.tasks[u].eventList.Some? ==> u in s.waiters[s.tasks[u].eventList.value]
    ensures var r := SetEffectivePriority(s, u, v); forall l, i {:trigger r.waiters[l][i]} ::
      l in s.waiters && 0 <= i < |r.waiters[l]| ==> r.waiters[l][i] in s.waiters[l]
  {
    if s.tasks[u].priority != v && s.tasks[u].state == Blocked && s.tasks[u].eventList.Some? {
      var k := ResortEffect(s, u, v);
      hide SetEffectivePriority;
      var own := s.tasks[u].eventList.value;
      var after := InsertAt(Remove(s.waiters[own], u), k, u);
      RemoveMembers(s.waiters[own], u);
      InsertAtMembers(Remove(s.waiters[own], u), k, u);
      hide InsertAt, Remove;
      assert forall i :: 0 <= i < |after| ==> after[i] in after;
    } else {
      SetEffectivePriorityEffect(s, u, v);
    }
  }

  /** A task that needs less than its priority only comes down. */
  lemma RecomputeFalls(s: State, u: nat, limbo: Option<nat>)
    requires Core(s, limbo) && u < |s.tasks| && Boost(s, u) <= s.tasks[u].priority
    ensures var r := RecomputeInheritedPriority(s, u);
      Falls(s, r) && r.tasks[u].priority >= Boost(s, u)
      && forall x {:trigger r.tasks[x]} :: 0 <= x < |s.tasks| && x != u ==> r.tasks[x].priority == s.tasks[x].priority
  {
    var tcb := s.tasks[u].(inheritedPriority := Boost(s, u));
    var v := Max(tcb.basePriority, Boost(s, u));
    assert TcbSane(s.tasks[u], s.objects, s.now);
    SetEffectivePriorityEffect(WithTask(s, u, tcb), u, v);
    ResortMembers(WithTask(s, u, tcb), u, v);
  }

  lemma UnlinkFalls(s: State, h: nat)
    requires Core(s, None) && h < |s.tasks| && s.tasks[h].state == Blocked
    ensures Falls(s, Unlinked(s, h)) && Core(Unlinked(s, h), Some(h))
  {
    UnlinkCore(s, h);
    UnlinkTasks(s, h);
    var m := Unlinked(s, h);
    forall l, i | l in s.waiters && 0 <= i < |m.waiters[l]| ensures m.waiters[l][i] in s.waiters[l] {
      assert m.waiters[l][i] in m.waiters[l];
      if s.tasks[h].eventList == Some(l) { RemoveMembers(s.waiters[l], h); }
    }
  }

  /** The owner that a leaving waiter boosted comes down to what is still called for. */
  lemma EndedFalls(m: State, h: nat, u: nat)
    requires Core(m, Some(h)) && NoneOutranked(m) && h < |m.tasks| && u < |m.tasks|
    ensures var e := RecomputeInheritedPriority(m, u);
      && Core(e, Some(h)) && NoneOutranked(e)
      && forall x {:trigger e.tasks[x]} :: 0 <= x < |m.tasks| ==> e.tasks[x].priority <= m.tasks[x].priority
  {
    hide RecomputeInheritedPriority;
    RecomputeCore(m, u, Some(h));
    hide Core;
    assert Boost(m, u) <= m.tasks[u].priority;
    assert WaitersOrdered(m.tasks, m.waiters, m.stamps) by { CoreOrdered(m, Some(h)); }
    RecomputeFalls(m, u, Some(h));
    var e := RecomputeInheritedPriority(m, u);
    forall x | 0 <= x < |m.tasks| ensures Boost(e, x) <= e.tasks[x].priority {
      FallsBoost(m, e, x);
      assert Boost(m, x) <= m.tasks[x].priority;
    }
  }

  lemma CoreOrdered(s: State, limbo: Option<nat>)
    requires Core(s, limbo)
    ensures InBounds(s) && WaitersOrdered(s.tasks, s.waiters, s.stamps)
  {
  }

  lemma UnlinkedOutranked(s: State, h: nat)
    requires Core(s, None) && NoneOutranked(s) && h < |s.tasks| && s.tasks[h].state == Blocked
    ensures var m := Unlinked(s, h);
      && Core(m, Some(h)) && NoneOutranked(m) && |m.tasks| == |s.tasks|
      && forall x {:trigger m.tasks[x]} :: 0 <= x < |s.tasks| ==> m.tasks[x].priority == s.tasks[x].priority
  {
    hide Unlinked;
    UnlinkFalls(s, h);
    UnlinkTasks(s, h);
    var m := Unlinked(s, h);
    forall x | 0 <= x < |s.tasks| ensures Boost(m, x) <= m.tasks[x].priority {
      FallsBoost(s, m, x);
      assert Boost(s, x) <= s.tasks[x].priority;
    }
  }

  /** The end of a wait, on a state in which nobody is outranked by a waiter of its own,
      raises nobody and leaves nobody outranked. */
  lemma EndWaitFalls(s: State, h: nat)
    requires Core(s, None) && NoneOutranked(s) && h < |s.tasks| && s.tasks[h].state == Blocked
    ensures var r := EndWait(s, h);
      && InBounds(r) && |r.tasks| == |s.tasks| && NoneOutranked(r)
      && forall x {:trigger r.tasks[x]} :: 0 <= x < |s.tasks| ==> r.tasks[x].priority <= s.tasks[x].priority
  {
    hide EndWait, WaitEnded, RecomputeInheritedPriority, Unlinked, Core, NoneOutranked, MakeReady;
    assert InBounds(s) by { CoreOrdered(s, None); }
    EndWaitShape(s, h);
    UnlinkedOutranked(s, h);
    var m := Unlinked(s, h);
    CoreOrdered(m, Some(h));
    WaitEndedShape(m, h);
    if s.tasks[h].eventList.Some? && LosingOwner(m, h).Some? {
      EndedFalls(m, h, LosingOwner(m, h).value);
      ReadiedOutranked(RecomputeInheritedPriority(m, LosingOwner(m, h).value), h);
    } else {
      ReadiedOutranked(m, h);
    }
  }

  lemma ReadiedOutranked(m: State, h: nat)
    requires Core(m, Some(h)) && h < |m.tasks| && NoneOutranked(m)
    ensures var r := MakeReady(m, h, false);
      NoneOutranked(r) && forall x {:trigger r.tasks[x]} :: 0 <= x < |m.tasks| ==> r.tasks[x].priority == m.tasks[x].priority
  {
    forall x | 0 <= x < |m.tasks| ensures Boost(MakeReady(m, h, false), x) == Boost(m, x) {
      SameBoost(m, MakeReady(m, h, false), x);
    }
  }

  lemma EndWaitSteady(s: State, h: nat, t: nat)
    requires Core(s, None) && Steady(s, t) && h < |s.tasks| && s.tasks[h].state == Blocked && t < |s.tasks|
    ensures Steady(EndWait(s, h), t) && EndWait(s, h).tasks[t].priority <= s.tasks[t].priority
  {
    hide EndWait, WaitEnded, RecomputeInheritedPriority, NoneOutranked;
    if NoneOutranked(s) {
      EndWaitFalls(s, h);
    } else {
      EndWaitOther(s, h, t);
    }
  }

  lemma EndWaitOther(s: State, h: nat, t: nat)
    requires InBounds(s) && OwnsNothing(s, t) && h < |s.tasks| && t < |s.tasks|
    ensures var r := EndWait(s, h); OwnsNothing(r, t) && r.tasks[t].priority == s.tasks[t].priority
  {
    hide RecomputeInheritedPriority;
    EndWaitShape(s, h);
    UnlinkTasks(s, h);
    var m := Unlinked(s, h);
    WaitEndedShape(m, h);
    if LosingOwner(m, h).Some? {
      RecomputeOther(m, LosingOwner(m, h).value, t);
      RecomputeQuiet(m, LosingOwner(m, h).value);
    }
  }

  lemma {:induction false} WakeExpiredLowers(s: State, t: nat)
    requires Core(s, None) && Steady(s, t) && t < |s.tasks|
    ensures WakeExpired(s).tasks[t].priority <= s.tasks[t].priority
    decreases |s.delayed|
  {
    hide EndWait, Steady;
    if s.delayed != [] && TickReached(s.tick, s.tasks[s.delayed[0]].wakeTick) {
      assert s.delayed[0] in s.delayed;
      EndWaitCore(s, s.delayed[0]);
      EndWaitSteady(s, s.delayed[0], t);
      WakeExpiredLowers(EndWait(s, s.delayed[0]), t);
    }
  }

  lemma {:induction false} WakeExpiredNotPassed(s: State, t: nat, p: Priority)
    requires Core(s, None) && Steady(s, t) && t in s.ready[p] && WakeExpired(s).tasks[t].priority == p
    ensures NotPassed(s.ready, WakeExpired(s).ready, t, p)
    decreases |s.delayed|
  {
    hide EndWait, Steady;
    ReadyMember(s, None, t, p);
    if s.delayed != [] && TickReached(s.tick, s.tasks[s.delayed[0]].wakeTick) {
      var head := s.delayed[0];
      assert head in s.delayed;
      EndWaitCore(s, head);
      EndWaitSteady(s, head, t);
      WakeExpiredLowers(EndWait(s, head), t);
      EndWaitNotPassed(s, head, t, p);
      WakeExpiredNotPassed(EndWait(s, head), t, p);
    } else {
      NotPassedSame(s, s, t, p);
    }
  }

  lemma StaysNearer(s: State, t: nat, p: Priority)
    requires t in s.ready[p]
    ensures Nearer(s, s, t, p)
  {
  }

  /** A changed object in between makes no difference. */
  lemma ObjectNearer(s: State, m: State, r: State, t: nat, p: Priority)
    requires m.ready == s.ready && m.current == s.current && Nearer(m, r, t, p)
    ensures Nearer(s, r, t, p)
  {
  }

  lemma SendNearer(s: State, o: nat, item: seq<Byte>, ticks: nat, due: nat, t: nat, p: Priority)
    requires Attempting(s, ticks, due) && o < |s.objects|
    requires s.objects[o].kind == QueueData && |item| == s.objects[o].itemSize
    requires t in s.ready[p] && Operable(s) && SendAttempt(s, o, item, ticks, due).0.current != Some(t)
    ensures Nearer(s, SendAttempt(s, o, item, ticks, due).0, t, p)
  {
    hide UnblockAndSwitch, BlockOn, SwitchContext, Nearer;
    assert ObjectShape(s.objects[o]);
    StaysNearer(s, t, p);
    if s.objects[o].count < s.objects[o].length {
      var obj := CopyIn(s.objects[o], item);
      var m := s.(objects := s.objects[o := obj]);
      ObjectInv(s, o, obj);
      UnblockAndSwitchNearer(m, ListId(o, ReceiveSide), t, p);
      ObjectNearer(s, m, UnblockAndSwitch(m, ListId(o, ReceiveSide)), t, p);
    } else if ticks > 0 {
      BlockSwitchNearer(s, ListId(o, SendSide), WaitQueueSend, InSend(o, item, due), ticks, t, p);
    }
  }

  lemma ReceiveNearer(s: State, o: nat, ticks: nat, due: nat, t: nat, p: Priority)
    requires Attempting(s, ticks, due) && o < |s.objects| && s.objects[o].kind == QueueData
    requires t in s.ready[p] && Operable(s) && ReceiveAttempt(s, o, ticks, due).0.current != Some(t)
    ensures Nearer(s, ReceiveAttempt(s, o, ticks, due).0, t, p)
  {
    hide UnblockAndSwitch, BlockOn, SwitchContext, Nearer;
    assert ObjectShape(s.objects[o]);
    StaysNearer(s, t, p);
    if s.objects[o].count > 0 {
      var obj := CopyOut(s.objects[o]);
      var m := s.(objects := s.objects[o := obj]);
      ObjectInv(s, o, obj);
      UnblockAndSwitchNearer(m, ListId(o, SendSide), t, p);
      ObjectNearer(s, m, UnblockAndSwitch(m, ListId(o, SendSide)), t, p);
    } else if ticks > 0 {
      BlockSwitchNearer(s, ListId(o, ReceiveSide), WaitQueueReceive, InReceive(o, due), ticks, t, p);
    }
  }

  lemma GiveSemaphoreNearer(s: State, o: nat, t: nat, p: Priority)
    requires KernelInv(s) && o < |s.objects| && s.objects[o].kind != QueueData
    requires s.objects[o].kind != Mutex && Operable(s)
    requires t in s.ready[p] && GiveSemaphore(s, o).0.current != Some(t)
    ensures Nearer(s, GiveSemaphore(s, o).0, t, p)
  {
    hide UnblockAndSwitch, Nearer;
    assert ObjectShape(s.objects[o]);
    StaysNearer(s, t, p);
    if s.objects[o].count < s.objects[o].maxCount {
      var obj := TokenGiven(s.objects[o]);
      var m := s.(objects := s.objects[o := obj]);
      ObjectInv(s, o, obj);
      UnblockAndSwitchNearer(m, ListId(o, ReceiveSide), t, p);
      ObjectNearer(s, m, UnblockAndSwitch(m, ListId(o, ReceiveSide)), t, p);
    }
  }

  /** Blocking on a mutex: the owner may be `t`, if its priority stays. */
  lemma BlockRecomputeNearer(s: State, m: State, u: nat, t: nat, p: Priority)
    requires Core(m, None) && m.current.Some? && m.tasks[m.current.value].state == Blocked && u < |m.tasks|
    requires t in s.ready[p] && m.ready == s.ready && m.current == s.current
    requires var r := SwitchContext(RecomputeInheritedPriority(m, u));
      t < |r.tasks| && r.tasks[t].state == Ready && r.tasks[t].priority == p
    ensures Nearer(s, SwitchContext(RecomputeInheritedPriority(m, u)), t, p)
  {
    hide SwitchContext, RecomputeInheritedPriority;
    ReadyMember(m, None, t, p);
    RecomputeCore(m, u, None);
    RecomputeQuiet(m, u);
    RecomputeStates(m, u);
    var r := RecomputeInheritedPriority(m, u);
    SwitchContextCore(r);
    RecomputeNotPassed(m, u, t, p);
    SwitchAfter(s, r, t, p);
  }

  lemma TakeNearer(s: State, o: nat, ticks: nat, due: nat, t: nat, p: Priority)
    requires Attempting(s, ticks, due) && o < |s.objects| && s.objects[o].kind != QueueData && Operable(s)
    requires t in s.ready[p]
    requires var r := TakeAttempt(s, o, ticks, due).0; t < |r.tasks| && r.tasks[t].state == Ready && r.tasks[t].priority == p && KernelInv(r)
    ensures Nearer(s, TakeAttempt(s, o, ticks, due).0, t, p)
  {
    hide BlockOn, SwitchContext, RecomputeInheritedPriority;
    var semaphore := s.objects[o];
    assert ObjectShape(semaphore);
    if !(semaphore.kind == Mutex && semaphore.owner == s.current) && semaphore.count == 0 && ticks > 0 {
      var call, l := InTake(o, due), ListId(o, ReceiveSide);
      var reason := CallReason(call, s.objects);
      BlockInv(s, l, reason, call, ticks);
      var m := BlockOn(s, s.current.value, l, reason, call, ticks);
      var k, d := BlockOnEffect(s, s.current.value, l, reason, call, ticks);
      if semaphore.kind == Mutex {
        BlockRecomputeNearer(s, m, semaphore.owner.value, t, p);
      } else {
        BlockSwitchNearer(s, l, reason, call, ticks, t, p);
      }
    }
  }

  lemma GiveMutexNearer(s: State, o: nat, t: nat, p: Priority)
    requires KernelInv(s) && o < |s.objects| && s.objects[o].kind == Mutex && Operable(s)
    requires t in s.ready[p] && GiveMutex(s, o).0.current != Some(t)
    ensures Nearer(s, GiveMutex(s, o).0, t, p)
  {
    hide GiveMutex, UnblockOne, RecomputeInheritedPriority, YieldCurrent;
    if s.objects[o].owner == s.current {
      GiveMutexShape(s, o);
      ObjectWakeInv(s, o, Released(s.objects[o]), ListId(o, ReceiveSide));
      GiveRestored(s, o, t, p);
      var restored := RecomputeInheritedPriority(UnblockOne(AfterRelease(s, o), ListId(o, ReceiveSide)).0, s.current.value);
      NotPassedNearer(s, restored, t, p);
      if YieldCurrent(restored).current != Some(t) { YieldAfter(s, restored, t, p); }
    } else {
      GiveRefused(s, o);
      StaysNearer(s, t, p);
    }
  }

  lemma GiveRestored(s: State, o: nat, t: nat, p: Priority)
    requires KernelInv(s) && o < |s.objects| && s.objects[o].kind == Mutex
    requires s.objects[o].owner == s.current && t in s.ready[p]
    requires KernelInv(AfterRelease(s, o)) && Linked(s.tasks, s.waiters)
    ensures var restored := RecomputeInheritedPriority(UnblockOne(AfterRelease(s, o), ListId(o, ReceiveSide)).0, s.current.value);
      KernelInv(restored) && NotPassed(s.ready, restored.ready, t, p) && restored.current == s.current
  {
    hide UnblockOne, RecomputeInheritedPriority, YieldCurrent, UnblockAndSwitch;
    var l := ListId(o, ReceiveSide);
    var released := AfterRelease(s, o);
    var c := s.current.value;
    WakeInv(released, l);
    UnblockNotPassed(released, l, t, p);
    UnblockOneQuiet(released, l);
    var woken := UnblockOne(released, l).0;
    ReadyMember(woken, None, t, p);
    RecomputeInv(woken, c);
    RecomputeQuiet(woken, c);
    RecomputeOther(woken, c, t);
    RecomputeNotPassed(woken, c, t, p);
  }

  lemma RecomputeOther(s: State, u: nat, t: nat)
    requires InBounds(s) && u < |s.tasks| && t < |s.tasks| && t != u
    ensures RecomputeInheritedPriority(s, u).tasks[t].priority == s.tasks[t].priority
  {
    var v := MaxWaiter(s, s.registry, u, IDLE_PRIORITY);
    var tcb := s.tasks[u].(inheritedPriority := v);
    SetEffectivePriorityEffect(WithTask(s, u, tcb), u, Max(tcb.basePriority, v));
  }

  lemma AbortNearer(s: State, h: nat, t: nat, p: Priority)
    requires KernelInv(s) && h < |s.tasks| && t in s.ready[p]
    requires var r := AbortDelay(s, h).0; KernelInv(r) && t < |r.tasks| && r.tasks[t].state == Ready && r.tasks[t].priority == p
    ensures Nearer(s, AbortDelay(s, h).0, t, p)
  {
    hide AbortDelay, EndWait, YieldCurrent;
    if s.tasks[h].state == Blocked && h in s.delayed {
      AbortShape(s, h);
      AbortedInv(s, h);
      var m := EndWait(s, h);
      if m.tasks[h].priority > m.tasks[s.current.value].priority {
        YieldPriority(m, t);
        EndWaitNotPassed(s, h, t, p);
        YieldAfter(s, m, t, p);
      } else {
        EndWaitNotPassed(s, h, t, p);
        NotPassedNearer(s, m, t, p);
      }
    } else {
      AbortRefused(s, h);
      StaysNearer(s, t, p);
    }
  }

  lemma YieldPriority(s: State, t: nat)
    requires KernelInv(s) && t < |s.tasks|
    ensures t < |YieldCurrent(s).tasks| && YieldCurrent(s).tasks[t].priority == s.tasks[t].priority
  {
    PreemptCore(s);
    var c := s.current.value;
    SwitchContextCore(ReadyListInsert(WithTask(s, c, s.tasks[c].(state := Ready)), c));
  }

  lemma AdvanceSteady(s: State, t: nat)
    requires KernelInv(s) && Steady(s, t)
    ensures Core(Advance(s), None) && Steady(Advance(s), t)
  {
    AdvanceCore(s);
    forall x | 0 <= x < |s.tasks| ensures Boost(Advance(s), x) == Boost(s, x) { SameBoost(s, Advance(s), x); }
  }

  lemma TickNearer(s: State, t: nat, p: Priority)
    requires KernelInv(s) && Steady(s, t) && t in s.ready[p]
    requires var r := TickISR(s); KernelInv(r) && t < |r.tasks| && r.tasks[t].state == Ready && r.tasks[t].priority == p
    ensures Nearer(s, TickISR(s), t, p)
  {
    hide TickISR, WakeExpired, YieldCurrent;
    TickShape(s);
    AdvanceSteady(s, t);
    WakeExpiredInv(Advance(s));
    var m := WakeExpired(Advance(s));
    YieldPriority(m, t);
    WakeExpiredNotPassed(Advance(s), t, p);
    YieldAfter(s, m, t, p);
  }

  lemma DelayNearer(s: State, ticks: nat, t: nat, p: Priority)
    requires Attempting(s, ticks, s.now + ticks) && t in s.ready[p] && DelayCurrent(s, ticks).current != Some(t)
    ensures Nearer(s, DelayCurrent(s, ticks), t, p)
  {
    hide SwitchContext;
    if ticks == 0 {
      NotPassedSame(s, s, t, p);
      YieldAfter(s, s, t, p);
    } else {
      var m := DelayParked(s, ticks);
      NotPassedSame(s, m, t, p);
      SwitchAfter(s, m, t, p);
    }
  }

  lemma ExitNearer(s: State, t: nat, p: Priority)
    requires KernelInv(s) && s.current.value != s.idle && s.tasks[s.current.value].call.NoCall?
    requires t in s.ready[p] && ExitTask(s).current != Some(t)
    ensures Nearer(s, ExitTask(s), t, p)
  {
    hide SwitchContext;
    ExitCore(s);
    var m := WithTask(s, s.current.value, s.tasks[s.current.value].(state := Deleted));
    NotPassedSame(s, m, t, p);
    SwitchAfter(s, m, t, p);
  }

  lemma ResumeNearer(s: State, t: nat, p: Priority)
    requires KernelInv(s) && Enabled(s, Resume) && Operable(s) && t in s.ready[p]
    requires var r := ResumeCall(s).0; KernelInv(r) && t < |r.tasks| && r.tasks[t].state == Ready && r.tasks[t].priority == p
    ensures Nearer(s, ResumeCall(s).0, t, p)
  {
    hide SendAttempt, ReceiveAttempt, TakeAttempt, Nearer, AllSane, ObjectsSane, IdleReady, NoSelfWait,
      WaitersOrdered, DelayOrdered, ReadyPlaced, DelayPlaced, EventPlaced, RunningPlaced;
    var c := s.current.value;
    var tcb := s.tasks[c];
    ClearInv(s);
    var cleared := ClearWaitState(s, c);
    CoreOperable(cleared, None);
    if tcb.waitResult {
      ResumeRemaining(s);
      var remaining := WaitRemaining(s, c);
      match tcb.call {
        case InSend(o, item, due) => SendNearer(cleared, o, item, remaining, due, t, p);
        case InReceive(o, due) => ReceiveNearer(cleared, o, remaining, due, t, p);
        case InTake(o, due) => TakeNearer(cleared, o, remaining, due, t, p);
        case _ =>
      }
    } else {
      StaysNearer(cleared, t, p);
    }
    ObjectNearer(s, cleared, ResumeCall(s).0, t, p);
  }

  lemma ObjectStepNearer(s: State, step: Step, t: nat, p: Priority)
    requires KernelInv(s) && Enabled(s, step) && Operable(s) && t in s.ready[p]
    requires step.Send? || step.Receive? || step.Take? || step.Give?
    requires KernelInv(Next(s, step)) && t in Next(s, step).ready[p]
    ensures Nearer(s, Next(s, step), t, p)
  {
    hide SendAttempt, ReceiveAttempt, TakeAttempt, GiveMutex, GiveSemaphore, Nearer, AllSane, ObjectsSane, IdleReady, NoSelfWait,
      WaitersOrdered, DelayOrdered, ReadyPlaced, DelayPlaced, EventPlaced, RunningPlaced;
    ReadyMember(Next(s, step), None, t, p);
    StaysNearer(s, t, p);
    match step {
      case Send(o, item, ticks) => if s.objects[o].kind == QueueData { SendNearer(s, o, item, ticks, s.now + ticks, t, p); }
      case Receive(o, ticks) => if s.objects[o].kind == QueueData { ReceiveNearer(s, o, ticks, s.now + ticks, t, p); }
      case Take(o, ticks) => if s.objects[o].kind != QueueData { TakeNearer(s, o, ticks, s.now + ticks, t, p); }
      case Give(o) =>
        if s.objects[o].kind == Mutex { GiveMutexNearer(s, o, t, p); }
        else if s.objects[o].kind != QueueData { GiveSemaphoreNearer(s, o, t, p); }
    }
  }

  /** A new priority for another task, or one that leaves `t` at its effective priority. */
  lemma PrioritySetNearer(s: State, u: nat, v: Priority, t: nat, p: Priority)
    requires KernelInv(s) && u < |s.tasks| && t in s.ready[p] && t in PrioritySet(s, u, v).ready[p]
    requires KernelInv(PrioritySet(s, u, v))
    ensures Nearer(s, PrioritySet(s, u, v), t, p)
  {
    ReadyMember(s, None, t, p);
    ReadyMember(PrioritySet(s, u, v), None, t, p);
    var tcb := s.tasks[u].(basePriority := v);
    var q := Max(v, tcb.inheritedPriority);
    SetEffectivePriorityEffect(WithTask(s, u, tcb), u, q);
    SetPriorityNotPassed(WithTask(s, u, tcb), u, q, t, p);
    NotPassedNearer(s, PrioritySet(s, u, v), t, p);
  }

  /** Each step that leaves `t` ready at priority `p` brings it one place forward for every
      task of at most its priority that is dispatched. */
  lemma StepNearer(s: State, step: Step, t: nat, p: Priority)
    requires KernelInv(s) && Enabled(s, step) && Operable(s) && (step.Tick? ==> Steady(s, t)) && t in s.ready[p]
    requires KernelInv(Next(s, step)) && t in Next(s, step).ready[p]
    ensures Nearer(s, Next(s, step), t, p)
  {
    hide SendAttempt, ReceiveAttempt, TakeAttempt, GiveMutex, GiveSemaphore, DelayCurrent, AbortDelay, YieldCurrent,
      ExitTask, ResumeCall, TickISR, PrioritySet, Nearer, Steady;
    ReadyMember(Next(s, step), None, t, p);
    NotPassedSame(s, s, t, p);
    match step {
      case Delay(ticks) => DelayNearer(s, ticks, t, p);
      case Abort(h) => AbortNearer(s, h, t, p);
      case Yield => YieldAfter(s, s, t, p);
      case SetPriority(u, v) => PrioritySetNearer(s, u, v, t, p);
      case Exit => ExitNearer(s, t, p);
      case Resume => ResumeNearer(s, t, p);
      case Tick => TickNearer(s, t, p);
      case _ => ObjectStepNearer(s, step, t, p);
    }
  }

  /** How often, in the first `n` steps, a task of priority at most `p` is dispatched in
      place of another. */
  function Dispatches(trace: seq<State>, n: nat, p: Priority): nat
    requires n < |trace|
  {
    if n == 0 then 0 else Dispatches(trace, n - 1, p) + Dispatch(trace[n - 1], trace[n], p)
  }

  /** At each tick among the first `n` steps, `t` owns no mutex or nobody is outranked by
      a waiter on a mutex of its own. */
  ghost predicate SteadyTicks(trace: seq<State>, steps: seq<Step>, n: nat, t: nat)
    requires Behaves(trace, steps)
  {
    forall i {:trigger steps[i]} :: 0 <= i < n <= |steps| && steps[i].Tick? ==> InBounds(trace[i]) && Steady(trace[i], t)
  }

  lemma MoveNearer(s: State, step: Step, r: State, t: nat, p: Priority)
    requires KernelInv(s) && Moves(s, step, r) && (step.Tick? ==> Steady(s, t)) && t in s.ready[p] && t in r.ready[p]
    ensures Nearer(s, r, t, p)
  {
    hide Next, Nearer, Steady;
    NextInv(s, step);
    StepNearer(s, step, t, p);
  }

  lemma {:induction false} TraceNearer(trace: seq<State>, steps: seq<Step>, n: nat, t: nat, p: Priority)
    requires Behaves(trace, steps) && n <= |steps| && KernelInv(trace[0]) && SteadyTicks(trace, steps, n, t)
    requires forall i {:trigger trace[i]} :: 0 <= i <= n ==> t in trace[i].ready[p]
    ensures t in trace[0].ready[p] && t in trace[n].ready[p]
    ensures IndexOf(trace[n].ready[p], t) + Dispatches(trace, n, p) <= IndexOf(trace[0].ready[p], t)
  {
    hide KernelInv, Moves, Dispatch, Steady, NoLostWakeup, RingsKept, ClosedInv;
    if n > 0 {
      TraceNearer(trace, steps, n - 1, t, p);
      TraceKeeps(trace, steps, n - 1, Fixed);
      assert Moves(trace[n - 1], steps[n - 1], trace[n - 1 + 1]);
      MoveNearer(trace[n - 1], steps[n - 1], trace[n], t, p);
    }
  }

  /** Bounded waiting: while a task stays ready at priority `p`, tasks of at most that
      priority are dispatched no more often than there were tasks in front of it. So the
      next such dispatch, at the latest, is its own. This holds on all runs, for a task
      that owns no mutex at the ticks, or while nobody is outranked by its own waiters. */
  lemma BoundedWaiting(trace: seq<State>, steps: seq<Step>, n: nat, t: nat, p: Priority)
    requires Behaves(trace, steps) && n <= |steps| && Reachable(trace[0]) && SteadyTicks(trace, steps, n, t)
    requires forall i {:trigger trace[i]} :: 0 <= i <= n ==> t in trace[i].ready[p]
    ensures t in trace[0].ready[p] && Dispatches(trace, n, p) <= IndexOf(trace[0].ready[p], t)
  {
    hide Reachable, KernelInv, Moves, Dispatch, Steady, NoLostWakeup, RingsKept;
    ReachableInv(trace[0]);
    TraceNearer(trace, steps, n, t, p);
  }

  lemma ClosedSteady(s: State, t: nat)
    requires ClosedInv(s, Fixed)
    ensures Steady(s, t)
  {
    forall x | 0 <= x < |s.tasks| ensures Boost(s, x) <= s.tasks[x].priority {
      assert ExactFor(s, x, Fixed);
    }
  }

  /** On closed runs with fixed priorities every task waits boundedly, whatever it owns. */
  lemma BoundedWaitingClosed(trace: seq<State>, steps: seq<Step>, n: nat, t: nat, p: Priority)
    requires BehavesClosed(trace, steps, Fixed) && n <= |steps| && ReachableClosed(trace[0], Fixed)
    requires forall i {:trigger trace[i]} :: 0 <= i <= n ==> t in trace[i].ready[p]
    ensures t in trace[0].ready[p] && Dispatches(trace, n, p) <= IndexOf(trace[0].ready[p], t)
  {
    hide ReachableClosed, KernelInv, Moves, ClosedStep, Dispatch, Steady, NoLostWakeup, RingsKept, Inherits, Strict;
    ReachableClosedInv(trace[0], Fixed);
    forall i | 0 <= i < n && steps[i].Tick? ensures InBounds(trace[i]) && Steady(trace[i], t) {
      TraceKeeps(trace, steps, i, Fixed);
      ClosedSteady(trace[i], t);
    }
    TraceNearer(trace, steps, n, t, p);
  }
}
