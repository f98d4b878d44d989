/** Runs from the start of the scheduler that lead to the states at which properties
    end. Tasks and objects are named by number; the idle task comes last. */
module Scenarios {
  import opened Ticks
  import opened Lists
  import opened KernelState
  import opened TaskModel
  import opened QueueRing
  import opened QueueModel
  import opened Kernel
  import opened Placement
  import opened CoreInvariant
  import opened Steps
  import opened Wakeups
  import opened Inheritance
  import opened ClosedSystem
  import opened Runs

  // ---------- what single steps do ----------

  /** Creating one more task appends it to the ready list of its priority. */
  lemma CreatedReadyNext(before: seq<Priority>, p: Priority)
    ensures CreatedReady(before + [p]) == CreatedReady(before)[p := CreatedReady(before)[p] + [|before|]]
  {
    assert (before + [p])[..|before|] == before;
  }

  lemma StartedAt(priorities: seq<Priority>, objects: seq<Object>, now: nat, p: Priority)
    requires FreshObjects(objects)
    requires var ready := CreatedReady(priorities + [IDLE_PRIORITY]); ready[p] != [] && forall q: Priority :: p < q ==> ready[q] == []
    ensures var all := priorities + [IDLE_PRIORITY]; var r := Started(priorities, objects, now);
      var ready := CreatedReady(all); var next := ready[p][0];
      && Reachable(r) && InBounds(r) && next < |all| == |r.tasks| && r.current == Some(next) && r.now == now
      && r.ready == ready[p := ready[p][1..]] && r.delayed == [] && r.objects == objects
      && r.waiters == CreatedWaiters(objects) && r.registry == CreatedRegistry(objects) && r.idle == |priorities|
      && (forall t {:trigger r.tasks[t]} :: 0 <= t < |all| ==>
            r.tasks[t] == CreatedTcb(all[t]).(state := if t == next then Running else Ready))
  {
    hide CreatedReady, CreatedWaiters, CreatedRegistry;
    CreatedInBounds(priorities, objects, now);
    var ready := CreatedReady(priorities + [IDLE_PRIORITY])[p];
    assert ready == [ready[0]] + ready[1..];
    SwitchTo(Created(priorities, objects, now), p, ready[0], ready[1..]);
    StartReachable(priorities, objects, now);
  }

  lemma StartReachable(priorities: seq<Priority>, objects: seq<Object>, now: nat)
    requires FreshObjects(objects)
    ensures Reachable(Started(priorities, objects, now))
  {
    hide Started;
    assert Begins(Started(priorities, objects, now));
    BeginsReachable(Started(priorities, objects, now));
  }

  // ---------- a caller that comes back too late ----------

  const TOKENS: ListId := ListId(0, ReceiveSide)

  /** Two tasks of priority 1 and a semaphore; the first task runs. */
  ghost predicate PairStarts(s: State, kind: Kind) {
    && Reachable(s) && InBounds(s) && |s.tasks| == 3 && s.idle == 2 && s.current == Some(0)
    && s.ready == [[2], [1], [], [], [], [], [], []] && s.delayed == [] && |s.objects| == 1
    && s.waiters[TOKENS] == [] && s.objects[0].kind == kind && FreshObject(s.objects[0])
    && s.registry == (if kind == Mutex then [0] else [])
    && s.tasks[0] == CreatedTcb(1).(state := Running) && s.tasks[1] == CreatedTcb(1)
  }

  lemma PairReady(priorities: seq<Priority>)
    requires priorities == [1, 1]
    ensures CreatedReady(priorities + [IDLE_PRIORITY]) == [[2], [0, 1], [], [], [], [], [], []]
  {
    hide CreatedReady;
    var none: seq<Priority> := [];
    NothingReady(none);
    CreatedReadyNext(none, 1);
    CreatedReadyNext(none + [1], 1);
    assert none + [1] + [1] == priorities;
    CreatedReadyNext(priorities, IDLE_PRIORITY);
    var ready := CreatedReady(priorities + [IDLE_PRIORITY]);
    assert ready[0] == [2] && ready[1] == [0, 1];
  }

  lemma NothingReady(none: seq<Priority>)
    requires none == []
    ensures CreatedReady(none) == [[], [], [], [], [], [], [], []]
  {
  }

  lemma OneRegistered(objects: seq<Object>)
    requires |objects| == 1
    ensures CreatedRegistry(objects) == if objects[0].kind == Mutex then [0] else []
    ensures TOKENS in CreatedWaiters(objects) && CreatedWaiters(objects)[TOKENS] == []
  {
    assert CreatedRegistry(objects[..0]) == [];
  }

  lemma PairStarted(priorities: seq<Priority>, objects: seq<Object>, now: nat)
    requires priorities == [1, 1] && |objects| == 1 && FreshObjects(objects)
    ensures var r := Started(priorities, objects, now); PairStarts(r, objects[0].kind) && r.now == now
  {
    hide CreatedReady, CreatedRegistry, CreatedWaiters, Started, Reachable;
    PairReady(priorities);
    OneRegistered(objects);
    StartedAt(priorities, objects, now, 1);
    var s := Started(priorities, objects, now);
    var all := priorities + [IDLE_PRIORITY];
    assert all[0] == 1 && all[1] == 1;
    assert s.ready == CreatedReady(all)[1 := [1]];
  }

  /** The lists and the running task of a system of `n` tasks and one object. */
  ghost predicate Stage(s: State, n: nat, current: nat, ready: seq<seq<nat>>, delayed: seq<nat>, waiting: seq<nat>) {
    && Reachable(s) && KernelInv(s) && |s.tasks| == n && s.idle + 1 == n && |s.objects| == 1
    && s.current == Some(current) && current < n && s.tasks[current].state == Running
    && s.ready == ready && s.delayed == delayed && s.waiters[TOKENS] == waiting
  }

  lemma Staged(s: State, step: Step)
    requires Reachable(s) && KernelInv(s) && Enabled(s, step)
    ensures Operable(s) && Reachable(Next(s, step)) && KernelInv(Next(s, step))
  {
    hide Reachable, KernelInv, Enabled, Next;
    NextInv(s, step);
    ReachableStep(s, step);
  }

  lemma StagedPair(s: State, kind: Kind)
    requires PairStarts(s, kind)
    ensures KernelInv(s) && Stage(s, 3, 0, [[2], [1], [], [], [], [], [], []], [], [])
  {
    hide Reachable, KernelInv;
    ReachableInv(s);
  }

  /** Nobody in the lists comes after the new waiter. */
  lemma LastWaits(s: State, l: ListId, reason: WaitReason, call: Call, ticks: nat)
    requires InBounds(s) && s.current.Some? && l in s.waiters && call.InTake? && call.obj < |s.objects|
    requires forall i :: 0 <= i < |s.waiters[l]| ==>
      s.waiters[l][i] != s.current.value && s.tasks[s.waiters[l][i]].priority >= s.tasks[s.current.value].priority
    requires forall i :: 0 <= i < |s.delayed| ==>
      s.delayed[i] != s.current.value && !TickBefore(Wrap(s.tick + ticks), s.tasks[s.delayed[i]].wakeTick)
    ensures var c := s.current.value;
      BlockOn(s, c, l, reason, call, ticks)
        == s.(tasks := s.tasks[c := ParkedTcb(s, c, l, reason, call, ticks)], waiters := s.waiters[l := s.waiters[l] + [c]],
              delayed := s.delayed + [c], stamps := s.stamps + 2)
  {
    hide BlockOn;
    var c := s.current.value;
    var k, d := BlockOnEffect(s, c, l, reason, call, ticks);
    assert InsertAt(s.waiters[l], k, c) == s.waiters[l] + [c] && InsertAt(s.delayed, d, c) == s.delayed + [c];
  }

  /** The first task waits for the token, the second runs at priority `p`. */
  ghost predicate FirstWaiting(s: State, due: nat, p: Priority) {
    && Stage(s, 3, 1, [[2], [], [], [], [], [], [], []], [0], [0])
    && s.tasks[0].call == InTake(0, due) && s.tasks[0].priority == 1 && s.tasks[0].eventList == Some(TOKENS)
    && s.tasks[1].call.NoCall? && s.tasks[1].priority == p && s.tasks[1].inheritedPriority == 0 && s.registry == []
    && s.objects[0].kind == BinarySemaphore && s.objects[0].count == 0 && s.objects[0].maxCount == 1
  }

  lemma NextTake(s: State, ticks: nat)
    requires Operable(s) && Enabled(s, Take(0, ticks)) && s.objects[0].kind != QueueData
    ensures Next(s, Take(0, ticks)) == TakeAttempt(s, 0, ticks, s.now + ticks).0
  {
    hide TakeAttempt;
  }

  lemma MayTakeFirst(s: State, ticks: nat)
    requires KernelInv(s) && s.current != Some(s.idle) && s.tasks[s.current.value].call.NoCall?
    requires 0 < |s.objects| && ticks < INT32_MAX
    ensures Operable(s) && Enabled(s, Take(0, ticks))
  {
    Caller(s);
  }

  /** The critical section of a take that waits for the semaphore. */
  lemma TakeWaits(s: State, ticks: nat)
    requires Operable(s) && Enabled(s, Take(0, ticks)) && ticks > 0
    requires s.objects[0].kind == BinarySemaphore && s.objects[0].count == 0
    ensures TOKENS in s.waiters
    ensures Next(s, Take(0, ticks)) == SwitchContext(
              BlockOn(s, s.current.value, TOKENS, WaitSemaphoreTake, InTake(0, s.now + ticks), ticks))
  {
    hide BlockOn, SwitchContext, Linked, Shapes, Perform;
    NextTake(s, ticks);
  }

  lemma FirstTakes(s: State) returns (r: State)
    requires PairStarts(s, BinarySemaphore)
    ensures FirstWaiting(r, s.now + 10, 1) && r.now == s.now
  {
    hide Reachable, KernelInv, BlockOn, SwitchContext, Next, Enabled, Operable;
    StagedPair(s, BinarySemaphore);
    MayTakeFirst(s, 10);
    Staged(s, Take(0, 10));
    TakeWaits(s, 10);
    r := Next(s, Take(0, 10));
    LastWaits(s, TOKENS, WaitSemaphoreTake, InTake(0, s.now + 10), 10);
    SwitchTo(BlockOn(s, 0, TOKENS, WaitSemaphoreTake, InTake(0, s.now + 10), 10), 1, 1, []);
  }

  lemma SetsOwn(s: State, p: Priority)
    requires Reachable(s) && KernelInv(s) && Enabled(s, SetPriority(s.current.value, p))
    ensures var c := s.current.value; var tcb := s.tasks[c];
      && Operable(s) && Reachable(Next(s, SetPriority(c, p))) && KernelInv(Next(s, SetPriority(c, p)))
      && Next(s, SetPriority(c, p)).tasks == s.tasks[c := tcb.(basePriority := p, priority := Max(p, tcb.inheritedPriority))]
      && Next(s, SetPriority(c, p)) == s.(tasks := Next(s, SetPriority(c, p)).tasks)
  {
    hide Reachable;
    Staged(s, SetPriority(s.current.value, p));
  }

  /** The only waiter is woken. */
  lemma OnlyWakes(s: State, l: ListId, h: nat)
    requires InBounds(s) && Linked(s.tasks, s.waiters) && l in s.waiters && s.waiters[l] == [h] && s.delayed == [h]
    requires h < |s.tasks| && s.tasks[h].eventList == Some(l)
    ensures var p := s.tasks[h].priority;
      UnblockOne(s, l).0
        == s.(tasks := s.tasks[h := s.tasks[h].(eventList := None, waitResult := true, state := Ready)],
              ready := s.ready[p := s.ready[p] + [h]], waiters := s.waiters[l := []], delayed := [])
    ensures UnblockOne(s, l).1 == Outranks(UnblockOne(s, l).0, h)
  {
    RemoveHead(s.waiters[l]);
    RemoveHead(s.delayed);
    var p := s.tasks[h].priority;
    assert UnblockOne(s, l).0.tasks == s.tasks[h := s.tasks[h].(eventList := None, waitResult := true, state := Ready)];
  }

  /** The second task runs at priority 2 with the first one woken but not yet back in its
      call. */
  ghost predicate Given(s: State, due: nat, count: nat) {
    && Stage(s, 3, 1, [[2], [0], [], [], [], [], [], []], [], [])
    && s.tasks[0].call == InTake(0, due) && s.tasks[0].waitResult && s.tasks[0].priority == 1
    && s.tasks[1].priority == 2 && s.tasks[1].call.NoCall?
    && s.objects[0].kind == BinarySemaphore && s.objects[0].count == count && s.registry == []
  }

  lemma NextGive(s: State)
    requires Operable(s) && Enabled(s, Give(0)) && s.objects[0].kind == BinarySemaphore
    requires s.objects[0].count < s.objects[0].maxCount
    ensures var given := s.(objects := s.objects[0 := TokenGiven(s.objects[0])]);
      && InBounds(given) && Linked(given.tasks, given.waiters) && TOKENS in given.waiters
      && Next(s, Give(0)) == UnblockAndSwitch(given, TOKENS)
  {
    hide UnblockAndSwitch;
  }

  lemma SecondGives(s: State, due: nat) returns (r: State)
    requires FirstWaiting(s, due, 2)
    ensures r.now == s.now && Given(r, due, 1)
  {
    hide Reachable, KernelInv, UnblockOne, YieldCurrent, Next, Operable;
    Caller(s);
    Staged(s, Give(0));
    NextGive(s);
    r := Next(s, Give(0));
    OnlyWakes(s.(objects := s.objects[0 := TokenGiven(s.objects[0])]), TOKENS, 0);
    assert r.ready[1] == [0];
  }

  lemma TakeFree(s: State)
    requires Operable(s) && Enabled(s, Take(0, 0)) && s.objects[0].kind == BinarySemaphore && s.objects[0].count > 0
    ensures Next(s, Take(0, 0)) == s.(objects := s.objects[0 := TokenTaken(s.objects[0], s.current.value)])
  {
    hide Linked, Shapes, Perform;
    NextTake(s, 0);
  }

  lemma SecondTakes(s: State, due: nat) returns (r: State)
    requires Given(s, due, 1)
    ensures r.now == s.now && Given(r, due, 0)
  {
    hide Reachable, KernelInv, Next, Enabled, Operable;
    MayTakeFirst(s, 0);
    Staged(s, Take(0, 0));
    TakeFree(s);
    r := Next(s, Take(0, 0));
  }

  lemma LateTick(s: State, due: nat)
    requires Given(s, due, 0)
    ensures Operable(s) && Enabled(s, Tick) && Given(Next(s, Tick), due, 0) && Next(s, Tick).now == s.now + 1
  {
    hide Reachable, KernelInv, YieldCurrent;
    Staged(s, Tick);
    YieldTo(Advance(s), 2, 1, []);
    assert Next(s, Tick) == YieldCurrent(Advance(s));
  }

  lemma {:induction false} LateTicks(s: State, due: nat, n: nat) returns (r: State)
    requires Given(s, due, 0)
    ensures Given(r, due, 0) && r.now == s.now + n
  {
    hide Given, Operable, Enabled, Next;
    if n == 0 {
      r := s;
    } else {
      var m := LateTicks(s, due, n - 1);
      LateTick(m, due);
      r := Next(m, Tick);
    }
  }

  lemma SecondExits(s: State, due: nat) returns (r: State)
    requires Given(s, due, 0)
    ensures Reachable(r) && KernelInv(r) && r.current == Some(0) && r.now == s.now
    ensures 0 < |r.tasks| && |r.objects| == 1
    ensures r.tasks[0].call == InTake(0, due) && r.tasks[0].waitResult && r.objects[0].count == 0
  {
    hide Reachable, KernelInv, SwitchContext;
    Staged(s, Exit);
    r := Next(s, Exit);
    SwitchTo(WithTask(s, 1, s.tasks[1].(state := Deleted)), 1, 0, []);
  }

  lemma SecondRaised(s: State, due: nat) returns (r: State)
    requires FirstWaiting(s, due, 1)
    ensures FirstWaiting(r, due, 2) && r.now == s.now
  {
    hide Reachable, KernelInv;
    assert Enabled(s, SetPriority(1, 2)) by { Caller(s); }
    SetsOwn(s, 2);
    r := Next(s, SetPriority(1, 2));
  }

  lemma Caller(s: State)
    requires KernelInv(s)
    ensures InBounds(s) && CurrentRuns(s) && Operable(s)
  {
    CoreOperable(s, None);
  }

  lemma HalfRangeLate(now: nat, due: nat)
    requires now == due + HALF_RANGE
    ensures TickBefore(Wrap(now), Wrap(due)) && UnsignedDifference(Wrap(due), Wrap(now)) == HALF_RANGE
  {
    WrapDifference(now, due);
    WrapDifference(due, now);
  }

  lemma MisreadAt(s: State, due: nat)
    requires KernelInv(s) && s.tasks[s.current.value].call == InTake(0, due) && s.now == due + HALF_RANGE
    ensures WaitRemaining(s, s.current.value) == HALF_RANGE
  {
    assert TcbSane(s.tasks[s.current.value], s.objects, s.now);
    HalfRangeLate(s.now, due);
  }

  /** A run to a caller that is woken and comes back to its call, which finds no token,
      half the tick range after its deadline: it is told that half the range remains,
      which vTaskBlockCurrent does not even take as a timeout. */
  lemma RemainingMisread(priorities: seq<Priority>, objects: seq<Object>, now: nat) returns (r: State)
    requires priorities == [1, 1] && |objects| == 1 && objects[0].kind == BinarySemaphore && FreshObjects(objects)
    ensures Reachable(r) && r.current == Some(0) && 0 < |r.tasks| && r.tasks[0].waitResult
    ensures r.tasks[0].call == InTake(0, now + 10) && r.now == now + 10 + HALF_RANGE
    ensures |r.objects| == 1 && r.objects[0].count == 0
    ensures WaitRemaining(r, 0) == HALF_RANGE > INT32_MAX
  {
    hide Reachable, KernelInv, FirstWaiting, Given, Started, Next;
    PairStarted(priorities, objects, now);
    var s := FirstTakes(Started(priorities, objects, now));
    s := SecondRaised(s, now + 10);
    s := SecondGives(s, now + 10);
    s := SecondTakes(s, now + 10);
    s := LateTicks(s, now + 10, 10 + HALF_RANGE);
    r := SecondExits(s, now + 10);
    MisreadAt(r, now + 10);
  }

  // ---------- a holder and its waiter ----------

  /** The only registered mutex boosts its owner by the priority of its head waiter. */
  lemma OnlyBoost(s: State, u: nat)
    requires InBounds(s) && s.registry == [0] && |s.objects| == 1 && s.objects[0].owner == Some(u)
    ensures Boost(s, u) == if s.waiters[TOKENS] == [] then 0 else s.tasks[s.waiters[TOKENS][0]].priority
  {
    if s.waiters[TOKENS] == [] {
      BoostLeast(s, u, 0);
    } else {
      assert Contends(s, u, 0);
      BoostBounds(s, u, 0);
      BoostLeast(s, u, HeadPriority(s, 0));
    }
  }

  /** A ready task is recomputed to priority `v`. */
  lemma ReadyRecomputed(s: State, u: nat, v: Priority, rest: seq<nat>)
    requires InBounds(s) && u < |s.tasks| && s.tasks[u].state == Ready && v == Max(s.tasks[u].basePriority, Boost(s, u))
    requires v != s.tasks[u].priority && Remove(s.ready[s.tasks[u].priority], u) == rest
    ensures var tcb := s.tasks[u].(inheritedPriority := Boost(s, u), priority := v);
      RecomputeInheritedPriority(s, u)
        == s.(tasks := s.tasks[u := tcb], ready := s.ready[s.tasks[u].priority := rest][v := s.ready[v] + [u]])
  {
    var tcb := s.tasks[u].(inheritedPriority := Boost(s, u), priority := v);
    assert RecomputeInheritedPriority(s, u).tasks == s.tasks[u := tcb];
  }

  /** The first task holds the mutex; the second runs at priority `p`. */
  ghost predicate Held(s: State, p: Priority) {
    && Stage(s, 3, 1, [[2], [0], [], [], [], [], [], []], [], []) && s.registry == [0]
    && s.objects[0].kind == Mutex && s.objects[0].owner == Some(0) && s.objects[0].count == 0
    && s.tasks[0] == CreatedTcb(1) && s.tasks[1] == CreatedTcb(1).(state := Running, basePriority := p, priority := p)
  }

  lemma FirstHolds(s: State) returns (r: State)
    requires PairStarts(s, Mutex)
    ensures Held(r, 1)
  {
    hide Reachable, KernelInv, YieldCurrent;
    StagedPair(s, Mutex);
    assert CurrentRuns(s);
    Staged(s, Take(0, 0));
    var m := Next(s, Take(0, 0));
    assert m == s.(objects := s.objects[0 := TokenTaken(s.objects[0], 0)]);
    Staged(m, Yield);
    r := Next(m, Yield);
    YieldTo(m, 1, 1, [0]);
    assert r == YieldCurrent(m);
  }

  lemma SecondPromoted(s: State, p: Priority) returns (r: State)
    requires Held(s, 1)
    ensures Held(r, p)
  {
    hide Reachable, KernelInv;
    assert Enabled(s, SetPriority(1, p)) by { Caller(s); }
    SetsOwn(s, p);
    r := Next(s, SetPriority(1, p));
  }

  /** The second task waits for the mutex, and its holder runs at the priority of its
      waiter. */
  ghost predicate Contended(s: State, p: Priority) {
    && Reachable(s) && KernelInv(s) && |s.tasks| == 3 && s.current == Some(0) && |s.objects| == 1 && s.idle == 2
    && s.objects[0].kind == Mutex && s.objects[0].owner == Some(0) && s.registry == [0] && s.waiters[TOKENS] == [1]
    && s.tasks[0].basePriority == 1 && s.tasks[0].priority == p && s.tasks[0].inheritedPriority == p && s.tasks[0].call.NoCall?
    && s.tasks[1].basePriority == p && s.tasks[1].priority == p && s.tasks[1].inheritedPriority == 0
  }

  /** The second task is parked on the mutex, its holder not yet recomputed. */
  ghost predicate Parked(s: State, p: Priority) {
    && InBounds(s) && |s.tasks| == 3 && |s.objects| == 1 && s.idle == 2
    && s.objects[0].kind == Mutex && s.objects[0].owner == Some(0) && s.registry == [0] && s.waiters[TOKENS] == [1]
    && s.ready == [[2], [0], [], [], [], [], [], []] && s.tasks[0] == CreatedTcb(1)
    && s.tasks[1].basePriority == p && s.tasks[1].priority == p && s.tasks[1].inheritedPriority == 0
  }

  /** The critical section of a take that waits for the mutex and lets its owner inherit. */
  lemma TakeParks(s: State, u: nat, ticks: nat)
    requires Operable(s) && Enabled(s, Take(0, ticks)) && ticks > 0 && s.objects[0].kind == Mutex
    requires s.objects[0].owner == Some(u) && s.current != Some(u) && s.objects[0].count == 0
    ensures TOKENS in s.waiters && u < |s.tasks|
    ensures Next(s, Take(0, ticks)) == SwitchContext(RecomputeInheritedPriority(
              BlockOn(s, s.current.value, TOKENS, WaitMutexTake, InTake(0, s.now + ticks), ticks), u))
  {
    hide BlockOn, SwitchContext, RecomputeInheritedPriority, Linked, Shapes, Perform;
    NextTake(s, ticks);
  }

  lemma SecondParks(s: State, p: Priority) returns (m: State)
    requires Held(s, p)
    ensures Parked(m, p) && Enabled(s, Take(0, 10)) && Operable(s)
    ensures Next(s, Take(0, 10)) == SwitchContext(RecomputeInheritedPriority(m, 0))
  {
    hide Reachable, KernelInv, BlockOn, SwitchContext, RecomputeInheritedPriority, Next, Operable, Enabled;
    Caller(s);
    MayTakeFirst(s, 10);
    TakeParks(s, 0, 10);
    LastWaits(s, TOKENS, WaitMutexTake, InTake(0, s.now + 10), 10);
    m := BlockOn(s, 1, TOKENS, WaitMutexTake, InTake(0, s.now + 10), 10);
  }

  /** The holder inherits `p`, and is the strongest ready task. */
  lemma HolderInherits(m: State, p: Priority)
    requires Parked(m, p) && p >= 1
    ensures var r := RecomputeInheritedPriority(m, 0);
      && InBounds(r) && r == m.(tasks := r.tasks, ready := r.ready) && r.ready[p] == [0]
      && r.tasks == m.tasks[0 := m.tasks[0].(inheritedPriority := p, priority := p)]
      && forall q: Priority :: p < q ==> r.ready[q] == []
  {
    hide RecomputeInheritedPriority;
    OnlyBoost(m, 0);
    if p > 1 { HolderRaised(m, p); } else { KeepsPriority(m, 0); }
  }

  lemma HolderRaised(m: State, p: Priority)
    requires Parked(m, p) && p > 1 && Boost(m, 0) == p
    ensures RecomputeInheritedPriority(m, 0)
      == m.(tasks := m.tasks[0 := m.tasks[0].(inheritedPriority := p, priority := p)], ready := m.ready[1 := []][p := [0]])
  {
    hide RecomputeInheritedPriority, Boost;
    RemoveHead(m.ready[1]);
    assert m.ready[1][1..] == [] && m.ready[p] + [0] == [0];
    ReadyRecomputed(m, 0, p, []);
  }

  lemma HolderDispatched(m: State, p: Priority)
    requires Parked(m, p) && p >= 1
    ensures var r := SwitchContext(RecomputeInheritedPriority(m, 0));
      && r.objects == m.objects && r.registry == m.registry && r.waiters == m.waiters && r.idle == m.idle && |r.tasks| == 3
      && r.current == Some(0) && r.tasks[1] == m.tasks[1]
      && r.tasks[0] == m.tasks[0].(state := Running, inheritedPriority := p, priority := p)
  {
    hide SwitchContext, RecomputeInheritedPriority;
    HolderInherits(m, p);
    SwitchTo(RecomputeInheritedPriority(m, 0), p, 0, []);
  }

  lemma SecondWaits(s: State, p: Priority) returns (r: State)
    requires Held(s, p) && p >= 1
    ensures Contended(r, p)
  {
    hide Reachable, KernelInv, SwitchContext, RecomputeInheritedPriority, Next;
    var m := SecondParks(s, p);
    Staged(s, Take(0, 10));
    HolderDispatched(m, p);
    r := Next(s, Take(0, 10));
  }

  lemma KeepsPriority(s: State, u: nat)
    requires InBounds(s) && u < |s.tasks| && s.tasks[u].priority == Max(s.tasks[u].basePriority, Boost(s, u))
    ensures RecomputeInheritedPriority(s, u) == WithTask(s, u, s.tasks[u].(inheritedPriority := Boost(s, u)))
  {
  }

  /** A run to a holder of base priority 1 whose waiter has priority `p`. */
  lemma HolderAndWaiter(priorities: seq<Priority>, objects: seq<Object>, now: nat, p: Priority) returns (r: State)
    requires priorities == [1, 1] && |objects| == 1 && objects[0].kind == Mutex && FreshObjects(objects) && p >= 1
    ensures Contended(r, p)
  {
    hide PairStarts, Held, Contended, Started;
    PairStarted(priorities, objects, now);
    r := FirstHolds(Started(priorities, objects, now));
    r := SecondPromoted(r, p);
    r := SecondWaits(r, p);
  }
}
