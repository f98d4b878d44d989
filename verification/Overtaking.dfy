/** A run on which one tick puts a ready task behind others of its priority, so that
    waiting is not bounded: the task holds a mutex on which a stronger task waits, whose
    priority was set while it waited. */
module Overtaking {
  import opened Ticks
  import opened Lists
  import opened KernelState
  import opened TaskModel
  import opened QueueRing
  import opened QueueModel
  import opened Kernel
  import opened Placement
  import opened CoreInvariant
  import opened Steps
  import opened Wakeups
  import opened Inheritance
  import opened ClosedSystem
  import opened Effects
  import opened Deadlines
  import opened Runs
  import opened Fairness
  import opened Scenarios

  /** Five tasks of priority 1 and a mutex. */
  lemma CrowdReady(priorities: seq<Priority>)
    requires priorities == [1, 1, 1, 1, 1]
    ensures CreatedReady(priorities + [IDLE_PRIORITY]) == [[5], [0, 1, 2, 3, 4], [], [], [], [], [], []]
  {
    hide CreatedReady;
    var none: seq<Priority> := [];
    NothingReady(none);
    CreatedReadyNext(none, 1);
    CreatedReadyNext(none + [1], 1);
    CreatedReadyNext(none + [1] + [1], 1);
    CreatedReadyNext(none + [1] + [1] + [1], 1);
    CreatedReadyNext(none + [1] + [1] + [1] + [1], 1);
    assert none + [1] + [1] + [1] + [1] + [1] == priorities;
    CreatedReadyNext(priorities, IDLE_PRIORITY);
    var ready := CreatedReady(priorities + [IDLE_PRIORITY]);
    assert ready[0] == [5] && ready[1] == [0, 1, 2, 3, 4];
  }

  /** Task 0 holds the mutex, `waiting` wait for it until the next tick, and `current`
      runs. */
  ghost predicate Crowd(s: State, current: nat, ready: seq<nat>, waiting: seq<nat>) {
    && Stage(s, 6, current, [[5], ready, [], [], [], [], [], []], waiting, waiting)
    && s.registry == [0] && s.objects[0].kind == Mutex && s.objects[0].owner == Some(0) && s.objects[0].count == 0
    && (forall i {:trigger s.tasks[i]} :: 0 <= i < 5 ==> s.tasks[i].priority == 1 && s.tasks[i].basePriority == 1)
    && (forall i {:trigger s.tasks[i]} :: 0 < i < 5 ==> s.tasks[i].inheritedPriority == 0)
    && (forall i {:trigger s.tasks[i]} :: 0 <= i < 5 ==>
          if i in waiting then s.tasks[i].call == InTake(0, s.now + 1) && s.tasks[i].eventList == Some(TOKENS)
          else s.tasks[i].call.NoCall?)
  }

  lemma CrowdStarted(priorities: seq<Priority>, objects: seq<Object>, now: nat) returns (s: State)
    requires priorities == [1, 1, 1, 1, 1] && |objects| == 1 && objects[0].kind == Mutex && FreshObjects(objects)
    ensures Stage(s, 6, 0, [[5], [1, 2, 3, 4], [], [], [], [], [], []], [], []) && s.registry == [0] && s.objects == objects
    ensures forall i {:trigger s.tasks[i]} :: 0 <= i < 5 ==> s.tasks[i] == CreatedTcb(1).(state := if i == 0 then Running else Ready)
  {
    hide CreatedReady, CreatedRegistry, CreatedWaiters, Started, Reachable, KernelInv;
    CrowdReady(priorities);
    OneRegistered(objects);
    StartedAt(priorities, objects, now, 1);
    s := Started(priorities, objects, now);
    ReachableInv(s);
    var all := priorities + [IDLE_PRIORITY];
    assert forall i :: 0 <= i < 5 ==> all[i] == 1;
    assert CreatedReady(all)[1] == [0] + [1, 2, 3, 4];
    assert s.ready == CreatedReady(all)[1 := [1, 2, 3, 4]];
  }

  lemma CrowdHeld(s: State) returns (r: State)
    requires Stage(s, 6, 0, [[5], [1, 2, 3, 4], [], [], [], [], [], []], [], []) && s.registry == [0]
    requires s.objects[0].kind == Mutex && FreshObject(s.objects[0])
    requires forall i {:trigger s.tasks[i]} :: 0 <= i < 5 ==> s.tasks[i] == CreatedTcb(1).(state := if i == 0 then Running else Ready)
    ensures Crowd(r, 1, [2, 3, 4, 0], [])
  {
    hide Reachable, KernelInv, YieldCurrent;
    Caller(s);
    Staged(s, Take(0, 0));
    var m := Next(s, Take(0, 0));
    assert m == s.(objects := s.objects[0 := TokenTaken(s.objects[0], 0)]);
    Staged(m, Yield);
    r := Next(m, Yield);
    YieldTo(m, 1, 1, [2, 3, 4, 0]);
    assert r == YieldCurrent(m);
  }

  /** Task `c` joins the end of the waiters and of the delay list. */
  lemma CrowdParks(s: State, c: nat, ready: seq<nat>, waiting: seq<nat>) returns (m: State)
    requires Crowd(s, c, ready, waiting) && 0 < c < 5 && c !in waiting && 0 !in waiting && AllBelow(waiting, 5)
    ensures Operable(s) && Enabled(s, Take(0, 1)) && InBounds(m)
    ensures Next(s, Take(0, 1)) == SwitchContext(RecomputeInheritedPriority(m, 0))
    ensures m == s.(tasks := m.tasks, waiters := s.waiters[TOKENS := waiting + [c]], delayed := waiting + [c], stamps := m.stamps)
    ensures m.tasks == s.tasks[c := ParkedTcb(s, c, TOKENS, WaitMutexTake, InTake(0, s.now + 1), 1)]
  {
    hide Reachable, KernelInv, BlockOn, SwitchContext, RecomputeInheritedPriority, Next, Linked, Shapes;
    Caller(s);
    TakeParks(s, 0, 1);
    forall i | 0 <= i < |waiting|
      ensures s.tasks[waiting[i]].wakeTick == Wrap(s.tick + 1) && waiting[i] != c && s.tasks[waiting[i]].priority == 1
    {
      assert waiting[i] in waiting;
      SameWakeTick(s, waiting[i]);
    }
    LastWaits(s, TOKENS, WaitMutexTake, InTake(0, s.now + 1), 1);
    m := BlockOn(s, c, TOKENS, WaitMutexTake, InTake(0, s.now + 1), 1);
  }

  /** All wait until the same tick. */
  lemma SameWakeTick(s: State, w: nat)
    requires KernelInv(s) && w < |s.tasks| && s.tasks[w].call == InTake(0, s.now + 1)
    ensures s.tasks[w].wakeTick == Wrap(s.tick + 1)
  {
    assert TcbSane(s.tasks[w], s.objects, s.now);
    WrapAdd(s.now, 1);
  }

  /** The holder inherits its own priority, and the next task runs. */
  lemma HolderStays(m: State, next: nat, rest: seq<nat>)
    requires InBounds(m) && |m.tasks| == 6 && |m.objects| == 1 && m.registry == [0] && m.objects[0].owner == Some(0)
    requires m.ready == [[5], [next] + rest, [], [], [], [], [], []] && 0 < next < 5
    requires m.tasks[0].priority == 1 && m.tasks[0].basePriority == 1
    requires m.waiters[TOKENS] != [] && m.tasks[m.waiters[TOKENS][0]].priority == 1
    ensures var tasks := m.tasks[0 := m.tasks[0].(inheritedPriority := 1)];
      SwitchContext(RecomputeInheritedPriority(m, 0))
        == m.(tasks := tasks[next := m.tasks[next].(state := Running)],
              ready := [[5], rest, [], [], [], [], [], []], current := Some(next))
  {
    hide SwitchContext, RecomputeInheritedPriority;
    OnlyBoost(m, 0);
    KeepsPriority(m, 0);
    SwitchTo(RecomputeInheritedPriority(m, 0), 1, next, rest);
  }

  lemma CrowdWaits(s: State, c: nat, next: nat, rest: seq<nat>, waiting: seq<nat>) returns (r: State)
    requires Crowd(s, c, [next] + rest, waiting) && 0 < c < 5 && 0 < next < 5 && next !in waiting && next != c
    requires c !in waiting && 0 !in waiting && AllBelow(waiting, 5) && s.tasks[0].state == Ready
    ensures Crowd(r, next, rest, waiting + [c]) && r.tasks[0].state == Ready
  {
    hide Reachable, KernelInv, SwitchContext, RecomputeInheritedPriority, Next;
    var m := CrowdParks(s, c, [next] + rest, waiting);
    Staged(s, Take(0, 1));
    var q := waiting + [c];
    assert q[0] in q;
    HolderStays(m, next, rest);
    r := Next(s, Take(0, 1));
  }

  lemma CrowdYields(s: State, waiting: seq<nat>) returns (r: State)
    requires Crowd(s, 3, [4, 0], waiting) && 3 !in waiting && 4 !in waiting && s.tasks[0].state == Ready
    ensures Crowd(r, 4, [0, 3], waiting) && r.tasks[0].state == Ready
  {
    hide Reachable, KernelInv, YieldCurrent;
    Caller(s);
    Staged(s, Yield);
    r := Next(s, Yield);
    YieldTo(s, 1, 4, [0, 3]);
    assert r == YieldCurrent(s);
  }

  /** Task 0 holds the mutex at priority `p`, tasks in `waiting` wait for it, task 2 at
      priority 7, and task 4 runs; `low` and `high` are ready at priorities 1 and 7. */
  ghost predicate Draining(s: State, p: Priority, low: seq<nat>, high: seq<nat>, delayed: seq<nat>, waiting: seq<nat>) {
    && InBounds(s) && |s.tasks| == 6 && |s.objects| == 1 && s.idle == 5 && s.registry == [0]
    && s.objects[0].kind == Mutex && s.objects[0].owner == Some(0)
    && s.ready[0] == [5] && s.ready[1] == low && s.ready[7] == high && (forall q: Priority :: 1 < q < 7 ==> s.ready[q] == [])
    && s.delayed == delayed && s.waiters[TOKENS] == waiting
    && s.current == Some(4) && s.tasks[4].state == Running && s.tasks[4].priority == 1
    && s.tasks[0].state == Ready && s.tasks[0].basePriority == 1 && s.tasks[0].priority == p
    && s.tasks[1].priority == 1 && s.tasks[2].priority == 7 && s.tasks[3].priority == 1
    && (forall i :: 0 <= i < |waiting| ==> Times(s.tasks[waiting[i]], s.tick))
  }

  /** A wait for the mutex that ends at `tick`. */
  ghost predicate Times(t: Tcb, tick: Tick) {
    t.eventList == Some(TOKENS) && t.waitReason == WaitMutexTake && t.waitObject == Some(0) && t.wakeTick == tick
  }

  lemma TimesAt(s: State, w: nat)
    requires KernelInv(s) && w < |s.tasks| && s.tasks[w].call == InTake(0, s.now + 1) && s.tasks[w].eventList == Some(TOKENS)
    requires s.objects[0].kind == Mutex
    ensures Times(s.tasks[w], Advance(s).tick)
  {
    SameWakeTick(s, w);
    assert TcbSane(s.tasks[w], s.objects, s.now);
  }

  /** The running task sets the priority of a waiter. */
  ghost predicate Raised(s: State) {
    && Stage(s, 6, 4, [[5], [0, 3], [], [], [], [], [], []], [1, 2], [2, 1])
    && Draining(Advance(s), 1, [0, 3], [], [1, 2], [2, 1])
    && s.tasks[2].call == InTake(0, s.now + 1) && s.tasks[2].eventList == Some(TOKENS)
  }

  lemma CrowdRaises(s: State) returns (r: State)
    requires Crowd(s, 4, [0, 3], [1, 2]) && s.tasks[0].state == Ready
    ensures Raised(r)
  {
    hide Reachable, KernelInv, SetEffectivePriority;
    Caller(s);
    Staged(s, SetPriority(2, 7));
    r := Next(s, SetPriority(2, 7));
    Resorted(s);
    TimesAt(s, 1);
    TimesAt(s, 2);
  }

  lemma Resorted(s: State)
    requires Crowd(s, 4, [0, 3], [1, 2])
    ensures var r := PrioritySet(s, 2, 7);
      && r.waiters[TOKENS] == [2, 1]
      && r == s.(tasks := r.tasks, waiters := r.waiters, stamps := r.stamps)
      && r.tasks == s.tasks[2 := s.tasks[2].(basePriority := 7, priority := 7, stamp := r.tasks[2].stamp)]
  {
    hide Reachable;
    var mid := WithTask(s, 2, s.tasks[2].(basePriority := 7));
    WaiterBlocked(s, 2);
    var k := ResortEffect(mid, 2, 7);
  }

  lemma WaiterBlocked(s: State, w: nat)
    requires KernelInv(s) && w < |s.tasks| && s.tasks[w].eventList.Some?
    ensures s.tasks[w].state == Blocked
  {
  }

  /** The head of the delay list times out: it leaves its lists, task 0 is recomputed, and
      it becomes ready. */
  lemma TimesOut(s: State, p: Priority, low: seq<nat>, high: seq<nat>, h: nat, delayed: seq<nat>, waiting: seq<nat>, left: seq<nat>)
    requires Draining(s, p, low, high, [h] + delayed, waiting) && h in waiting && 0 < h < 3
    requires Remove(waiting, h) == left && h !in left
    ensures Draining(Unlinked(s, h), p, low, high, delayed, left)
    ensures EndWait(s, h) == MakeReady(RecomputeInheritedPriority(Unlinked(s, h), 0), h, false)
    ensures WakeExpired(s) == WakeExpired(EndWait(s, h))
  {
    hide RecomputeInheritedPriority, EndWait;
    assert Times(s.tasks[h], s.tick) by {
      var i :| 0 <= i < |waiting| && waiting[i] == h;
    }
    LeavesLists(s, p, low, high, h, delayed, waiting, left);
    WaitEnds(s, h);
    assert s.delayed[0] == h;
  }

  lemma LeavesLists(s: State, p: Priority, low: seq<nat>, high: seq<nat>, h: nat, delayed: seq<nat>, waiting: seq<nat>, left: seq<nat>)
    requires Draining(s, p, low, high, [h] + delayed, waiting) && 0 < h < 3 && Times(s.tasks[h], s.tick)
    requires Remove(waiting, h) == left && h !in left
    ensures Draining(Unlinked(s, h), p, low, high, delayed, left)
  {
    RemoveHead(s.delayed);
    UnlinkTasks(s, h);
    forall i | 0 <= i < |left| ensures Times(s.tasks[left[i]], s.tick) && left[i] != h {
      assert left[i] in left;
    }
  }

  /** The end of a wait for the mutex that task 0 holds. */
  lemma WaitEnds(s: State, h: nat)
    requires InBounds(s) && 0 < h < |s.tasks| && Times(s.tasks[h], s.tick)
    requires 0 < |s.objects| && s.objects[0].kind == Mutex && s.objects[0].owner == Some(0)
    ensures InBounds(Unlinked(s, h)) && h < |Unlinked(s, h).tasks|
    ensures EndWait(s, h) == MakeReady(RecomputeInheritedPriority(Unlinked(s, h), 0), h, false)
  {
    hide RecomputeInheritedPriority, EndWait, WaitEnded;
    UnlinkTasks(s, h);
    EndWaitShape(s, h);
    WaitEndedShape(Unlinked(s, h), h);
  }

  /** The holder is boosted by the waiter of priority 7. */
  lemma HolderUp(m: State, rest: seq<nat>)
    requires Draining(m, 1, [0] + rest, [], [2], [2])
    ensures Draining(RecomputeInheritedPriority(m, 0), 7, rest, [0], [2], [2])
  {
    hide RecomputeInheritedPriority;
    OnlyBoost(m, 0);
    RemoveHead(m.ready[1]);
    assert m.ready[1][1..] == rest && m.ready[7] + [0] == [0];
    ReadyRecomputed(m, 0, 7, rest);
  }

  /** The holder falls back to its base priority, and to the end of its list. */
  lemma HolderDown(m: State, low: seq<nat>)
    requires Draining(m, 7, low, [0], [], [])
    ensures Draining(RecomputeInheritedPriority(m, 0), 1, low + [0], [], [], [])
  {
    hide RecomputeInheritedPriority;
    OnlyBoost(m, 0);
    RemoveHead(m.ready[7]);
    ReadyRecomputed(m, 0, 1, []);
  }

  lemma ReadiedLow(e: State, v: Priority, low: seq<nat>, high: seq<nat>, delayed: seq<nat>, left: seq<nat>)
    requires Draining(e, v, low, high, delayed, left) && 1 !in left
    ensures Draining(MakeReady(e, 1, false), v, low + [1], high, delayed, left)
  {
    forall i | 0 <= i < |left| ensures left[i] != 1 { assert left[i] in left; }
  }

  lemma ReadiedHigh(e: State, v: Priority, low: seq<nat>, high: seq<nat>, delayed: seq<nat>, left: seq<nat>)
    requires Draining(e, v, low, high, delayed, left) && 2 !in left
    ensures Draining(MakeReady(e, 2, false), v, low, high + [2], delayed, left)
  {
    forall i | 0 <= i < |left| ensures left[i] != 2 { assert left[i] in left; }
  }

  /** First the holder is boosted to 7: task 2 still waits. */
  lemma FirstTimesOut(s: State)
    requires Draining(s, 1, [0, 3], [], [1, 2], [2, 1])
    ensures var r := EndWait(s, 1); Draining(r, 7, [3, 1], [0], [2], [2]) && WakeExpired(s) == WakeExpired(r)
  {
    assert Remove([2, 1], 1) == [2];
    hide *;
    assert [1, 2] == [1] + [2] && [0, 3] == [0] + [3] && [3] + [1] == [3, 1];
    TimesOut(s, 1, [0, 3], [], 1, [2], [2, 1], [2]);
    var m := Unlinked(s, 1);
    HolderUp(m, [3]);
    ReadiedLow(RecomputeInheritedPriority(m, 0), 7, [3], [0], [2], [2]);
  }

  /** Then nobody waits any more, and the holder goes to the end of its old list. */
  lemma SecondTimesOut(s: State)
    requires Draining(s, 7, [3, 1], [0], [2], [2])
    ensures var r := EndWait(s, 2); Draining(r, 1, [3, 1, 0], [2], [], []) && WakeExpired(s) == WakeExpired(r)
  {
    assert Remove([2], 2) == [];
    hide *;
    assert [2] == [2] + [] && [3, 1] + [0] == [3, 1, 0] && [] + [2] == [2];
    TimesOut(s, 7, [3, 1], [0], 2, [], [2], []);
    var m := Unlinked(s, 2);
    HolderDown(m, [3, 1]);
    ReadiedHigh(RecomputeInheritedPriority(m, 0), 1, [3, 1, 0], [], [], []);
  }

  lemma NothingExpires(s: State)
    requires InBounds(s) && s.delayed == []
    ensures WakeExpired(s) == s
  {
  }

  /** Task 0, which was next at its priority, is behind tasks 3 and 1 after the tick. */
  ghost predicate Demoted(s: State) {
    && Stage(s, 6, 2, [[5], [3, 1, 0, 4], [], [], [], [], [], []], [], []) && s.tasks[2].priority == 7
    && s.registry == [0] && s.objects[0].owner == Some(0) && s.tasks[3].priority == 1
  }

  lemma ToldTimeout(s: State)
    requires Raised(s)
    ensures var r := TickISR(s); 2 < |r.tasks| && r.tasks[2].call.InTake? && !r.tasks[2].waitResult
  {
    hide Reachable, TickISR;
    WaiterBlocked(s, 2);
    TickWakesExactly(s, 2);
    TickEffect(s);
    assert TcbSane(s.tasks[2], s.objects, s.now);
  }

  lemma Drained(a: State)
    requires Draining(a, 1, [0, 3], [], [1, 2], [2, 1])
    ensures InBounds(a) && Draining(WakeExpired(a), 1, [3, 1, 0], [2], [], [])
  {
    hide WakeExpired, EndWait;
    FirstTimesOut(a);
    SecondTimesOut(EndWait(a, 1));
    NothingExpires(EndWait(EndWait(a, 1), 2));
  }

  lemma TickDrains(s: State) returns (m: State)
    requires InBounds(s) && Draining(Advance(s), 1, [0, 3], [], [1, 2], [2, 1])
    ensures Draining(m, 1, [3, 1, 0], [2], [], []) && TickISR(s) == YieldCurrent(m)
  {
    hide WakeExpired, YieldCurrent;
    Drained(Advance(s));
    m := WakeExpired(Advance(s));
  }

  /** The switch to task 2 leaves the others at priority 1 behind one another. */
  lemma DrainedSwitch(m: State)
    requires Draining(m, 1, [3, 1, 0], [2], [], [])
    ensures var r := YieldCurrent(m);
      && |r.tasks| == 6 && r.idle == 5 && |r.objects| == 1 && r.objects[0].owner == Some(0) && r.registry == [0]
      && r.current == Some(2) && r.tasks[2].state == Running && r.tasks[2].priority == 7 && r.tasks[3].priority == 1
      && r.ready == [[5], [3, 1, 0, 4], [], [], [], [], [], []] && r.delayed == [] && r.waiters[TOKENS] == []
  {
    hide YieldCurrent;
    assert m.ready[1] + [4] == [3, 1, 0, 4];
    YieldTo(m, 7, 2, []);
  }

  lemma TickDemotes(s: State) returns (r: State)
    requires Raised(s)
    ensures Operable(s) && Enabled(s, Tick) && r == Next(s, Tick) && Demoted(r)
    ensures r.tasks[2].call.InTake? && !r.tasks[2].waitResult
  {
    hide Reachable, KernelInv, WakeExpired, YieldCurrent, EndWait, Draining, TickISR;
    Caller(s);
    Staged(s, Tick);
    r := Next(s, Tick);
    var m := TickDrains(s);
    DrainedSwitch(m);
    ToldTimeout(s);
  }

  lemma Returns(s: State) returns (r: State)
    requires Demoted(s) && s.tasks[2].call.InTake? && !s.tasks[2].waitResult
    ensures Operable(s) && Enabled(s, Resume) && r == Next(s, Resume) && Demoted(r) && r.tasks[2].call.NoCall?
  {
    hide Reachable, KernelInv;
    Caller(s);
    Staged(s, Resume);
    r := Next(s, Resume);
  }

  /** Task 3 is dispatched although task 0 had been in front of it. */
  lemma Exits(s: State) returns (r: State)
    requires Demoted(s) && s.tasks[2].call.NoCall?
    ensures Operable(s) && Enabled(s, Exit) && r == Next(s, Exit)
    ensures r.current == Some(3) && |r.tasks| == 6 && r.tasks[3].priority == 1 && r.ready[1] == [1, 0, 4]
  {
    hide Reachable, KernelInv, SwitchContext;
    Caller(s);
    Staged(s, Exit);
    r := Next(s, Exit);
    SwitchTo(WithTask(s, 2, s.tasks[2].(state := Deleted)), 1, 3, [1, 0, 4]);
  }

  /** A run to the state before the tick. */
  lemma RaisedReached(priorities: seq<Priority>, objects: seq<Object>, now: nat) returns (s: State)
    requires priorities == [1, 1, 1, 1, 1] && |objects| == 1 && objects[0].kind == Mutex && FreshObjects(objects)
    ensures Raised(s)
  {
    hide Crowd, Stage, Raised;
    s := CrowdStarted(priorities, objects, now);
    s := CrowdHeld(s);
    HolderReady(s);
    assert [2, 3, 4, 0] == [2] + [3, 4, 0] && [3, 4, 0] == [3] + [4, 0];
    s := CrowdWaits(s, 1, 2, [3, 4, 0], []);
    assert [] + [1] == [1] && [1] + [2] == [1, 2];
    s := CrowdWaits(s, 2, 3, [4, 0], [1]);
    s := CrowdYields(s, [1, 2]);
    s := CrowdRaises(s);
  }

  lemma HolderReady(s: State)
    requires Crowd(s, 1, [2, 3, 4, 0], [])
    ensures s.tasks[0].state == Ready
  {
    assert s.ready[1][3] in s.ready[1];
  }

  lemma RaisedFacts(s: State)
    requires Raised(s)
    ensures Reachable(s) && InBounds(s) && s.current == Some(4) && !Steady(s, 0)
    ensures s.ready[1] == [0, 3] && IndexOf(s.ready[1], 0) == 0
  {
    hide Reachable;
    OnlyBoost(s, 0);
  }

  lemma DemotedFacts(s: State)
    requires Demoted(s)
    ensures s.current == Some(2) && 2 < |s.tasks| && s.tasks[2].priority == 7 && s.ready[1] == [3, 1, 0, 4]
  {
    hide Reachable, KernelInv;
  }

  lemma OneDispatch(trace: seq<State>)
    requires |trace| == 4 && trace[1].current == trace[2].current == Some(2)
    requires 2 < |trace[1].tasks| && trace[1].tasks[2].priority == 7
    requires trace[3].current == Some(3) && 3 < |trace[3].tasks| && trace[3].tasks[3].priority == 1
    ensures Dispatches(trace, 3, 1) == 1
  {
    assert Dispatches(trace, 0, 1) == 0;
    assert Dispatches(trace, 1, 1) == 0;
    assert Dispatches(trace, 2, 1) == 0;
  }

  /** Where bounded waiting ends: task 0 stays ready at priority 1 with nobody in front of
      it, yet another task of that priority is dispatched. At the tick task 0 owns a mutex
      and is outranked by a waiter on it. */
  lemma OvertakenAtTick(priorities: seq<Priority>, objects: seq<Object>, now: nat) returns (trace: seq<State>, steps: seq<Step>)
    requires priorities == [1, 1, 1, 1, 1] && |objects| == 1 && objects[0].kind == Mutex && FreshObjects(objects)
    ensures Behaves(trace, steps) && |steps| == 3 && Reachable(trace[0]) && InBounds(trace[0]) && !Steady(trace[0], 0)
    ensures forall i {:trigger trace[i]} :: 0 <= i <= 3 ==> 0 in trace[i].ready[1]
    ensures IndexOf(trace[0].ready[1], 0) < Dispatches(trace, 3, 1)
  {
    hide Reachable, Raised, Demoted, Next;
    var s := RaisedReached(priorities, objects, now);
    var ticked := TickDemotes(s);
    var back := Returns(ticked);
    var last := Exits(back);
    trace, steps := [s, ticked, back, last], [Tick, Resume, Exit];
    assert Moves(s, Tick, ticked) && Moves(ticked, Resume, back) && Moves(back, Exit, last);
    assert Behaves(trace, steps);
    RaisedFacts(s);
    DemotedFacts(ticked);
    DemotedFacts(back);
    OneDispatch(trace);
  }
}
