/** Priority inheritance. In a closed system no task starts waiting for another task's
    mutex while it holds one, and nobody sets the priority of a task in a mutex's wait
    list. There no boost is left over. If moreover nobody calls vTaskPrioritySet at all,
    every task's effective priority is exactly the maximum of its base priority and the
    priorities waiting on the mutexes it owns, although a successful take does not
    recompute anything. */
module Inheritance {
  import opened Ticks
  import opened Lists
  import opened KernelState
  import opened TaskModel
  import opened QueueRing
  import opened QueueModel
  import opened Kernel
  import opened Placement
  import opened Order
  import opened CoreInvariant
  import opened Steps
  import opened Wakeups

  function MutexList(o: nat): ListId {
    ListId(o, ReceiveSide)
  }

  /** The highest priority waiting on a mutex that `t` owns; 0 if there is none. */
  function Boost(s: State, t: nat): Priority
    requires InBounds(s)
  {
    MaxWaiter(s, s.registry, t, IDLE_PRIORITY)
  }

  /** `o` is registered, owned by `t` and waited for. */
  ghost predicate Contends(s: State, t: nat, o: nat)
    requires InBounds(s)
  {
    o in s.registry && o < |s.objects| && s.objects[o].owner == Some(t) && s.waiters[MutexList(o)] != []
  }

  function HeadPriority(s: State, o: nat): Priority
    requires InBounds(s) && o < |s.objects| && s.waiters[MutexList(o)] != []
  {
    s.tasks[s.waiters[MutexList(o)][0]].priority
  }

  /** The registry scan computes the least upper bound of the heads. */
  lemma {:induction false} MaxWaiterLeast(s: State, registry: seq<nat>, t: nat, best: Priority)
    requires InBounds(s) && AllBelow(registry, |s.objects|)
    ensures best <= MaxWaiter(s, registry, t, best)
    ensures forall o {:trigger o in registry} :: o in registry && s.objects[o].owner == Some(t) && s.waiters[MutexList(o)] != [] ==>
      HeadPriority(s, o) <= MaxWaiter(s, registry, t, best)
    ensures MaxWaiter(s, registry, t, best) == best
      || exists o :: o in registry && s.objects[o].owner == Some(t) && s.waiters[MutexList(o)] != []
           && MaxWaiter(s, registry, t, best) == HeadPriority(s, o)
    decreases |registry|
  {
    if registry != [] {
      var q := s.waiters[ListId(registry[0], ReceiveSide)];
      var counts := s.objects[registry[0]].owner == Some(t) && q != [] && s.tasks[q[0]].priority > best;
      var next := if counts then s.tasks[q[0]].priority else best;
      MaxWaiterLeast(s, registry[1..], t, next);
      assert forall o :: o in registry ==> o == registry[0] || o in registry[1..];
      assert registry[0] in registry;
    }
  }

  lemma BoostBounds(s: State, t: nat, o: nat)
    requires InBounds(s) && Contends(s, t, o)
    ensures HeadPriority(s, o) <= Boost(s, t)
  {
    MaxWaiterLeast(s, s.registry, t, IDLE_PRIORITY);
  }

  lemma BoostLeast(s: State, t: nat, bound: nat)
    requires InBounds(s)
    requires forall o :: Contends(s, t, o) ==> HeadPriority(s, o) <= bound
    ensures Boost(s, t) <= bound
  {
    MaxWaiterLeast(s, s.registry, t, IDLE_PRIORITY);
    if Boost(s, t) > bound {
      var o :| o in s.registry && s.objects[o].owner == Some(t) && s.waiters[MutexList(o)] != []
        && Boost(s, t) == HeadPriority(s, o);
      assert Contends(s, t, o);
    }
  }

  predicate TakesMutex(t: Tcb) {
    t.waitReason == WaitMutexTake
  }

  /** The task waits in the wait list of a mutex. */
  predicate InMutexList(t: Tcb) {
    TakesMutex(t) && t.eventList.Some?
  }

  /** A task suspended in a mutex take owns no mutex. */
  ghost predicate TakersOwnNothing(tasks: seq<Tcb>, objects: seq<Object>) {
    forall t, o :: 0 <= t < |tasks| && 0 <= o < |objects| && TakesMutex(tasks[t]) ==> objects[o].owner != Some(t)
  }

  /** What vTaskPrioritySet may do in a closed system: nothing, or change the priorities
      of tasks that are in no mutex's wait list. */
  datatype Regime = Fixed | Adjustable

  /** The inherited priority is not left over, and with fixed priorities the effective
      one not too low. */
  ghost predicate ExactFor(s: State, t: nat, g: Regime)
    requires InBounds(s) && t < |s.tasks|
  {
    s.tasks[t].inheritedPriority <= Boost(s, t) && (g.Fixed? ==> Boost(s, t) <= s.tasks[t].priority)
  }

  ghost predicate Exact(s: State, but: Option<nat>, g: Regime)
    requires InBounds(s)
  {
    forall t {:trigger ExactFor(s, t, g)} :: 0 <= t < |s.tasks| && but != Some(t) ==> ExactFor(s, t, g)
  }

  /** Some woken taker that has not retried has at least priority `p`. */
  ghost predicate Promised(tasks: seq<Tcb>, l: ListId, p: nat) {
    exists w :: 0 <= w < |tasks| && IsWoken(tasks[w], l) && tasks[w].priority >= p
  }

  ghost predicate Unclaimed(s: State, o: nat)
    requires InBounds(s) && o < |s.objects|
  {
    s.objects[o].kind == Mutex && s.objects[o].owner.None? && s.waiters[MutexList(o)] != []
  }

  /** With fixed priorities: when a mutex (other than `except`) is free although tasks
      wait for it, a woken taker outranks them. */
  ghost predicate FreeMutexPromised(s: State, except: Option<nat>, g: Regime)
    requires InBounds(s)
  {
    g.Fixed? ==> forall o: nat {:trigger Unclaimed(s, o)} :: o < |s.objects| && except != Some(o) && Unclaimed(s, o) ==>
      Promised(s.tasks, MutexList(o), HeadPriority(s, o))
  }

  /** With fixed priorities: no ready task outranks the running one. */
  ghost predicate Strict(s: State, g: Regime)
    requires InBounds(s) && s.current.Some?
  {
    g.Fixed? ==> forall t {:trigger s.tasks[t]} :: 0 <= t < |s.tasks| && s.tasks[t].state == Ready ==>
      s.tasks[t].priority <= s.tasks[s.current.value].priority
  }

  ghost predicate Inherits(s: State, g: Regime)
    requires InBounds(s)
  {
    TakersOwnNothing(s.tasks, s.objects) && Exact(s, None, g) && FreeMutexPromised(s, None, g)
  }

  /** The mutex lists and the priorities in them are the same. */
  ghost predicate SameContention(s: State, r: State)
    requires InBounds(s) && InBounds(r)
  {
    && r.registry == s.registry && |r.objects| == |s.objects| && |r.tasks| == |s.tasks|
    && (forall o {:trigger s.objects[o]} {:trigger r.objects[o]} :: 0 <= o < |s.objects| ==>
          && r.objects[o].kind == s.objects[o].kind
          && (s.objects[o].kind == Mutex ==>
                r.objects[o].owner == s.objects[o].owner && r.waiters[MutexList(o)] == s.waiters[MutexList(o)]))
    && (forall o, i :: 0 <= o < |s.objects| && s.objects[o].kind == Mutex && 0 <= i < |s.waiters[MutexList(o)]| ==>
          r.tasks[s.waiters[MutexList(o)][i]].priority == s.tasks[s.waiters[MutexList(o)][i]].priority)
  }

  /** The same mutexes contend for `t`, each with the same head priority. */
  ghost predicate SameHeads(s: State, r: State, t: nat)
    requires InBounds(s) && InBounds(r)
  {
    forall o {:trigger Contends(s, t, o)} {:trigger Contends(r, t, o)} ::
      (Contends(s, t, o) <==> Contends(r, t, o)) && (Contends(s, t, o) ==> HeadPriority(s, o) == HeadPriority(r, o))
  }

  lemma SameHeadsBoost(s: State, r: State, t: nat)
    requires InBounds(s) && InBounds(r) && SameHeads(s, r, t)
    ensures Boost(r, t) == Boost(s, t)
  {
    forall o | Contends(s, t, o) ensures HeadPriority(s, o) <= Boost(r, t) { BoostBounds(r, t, o); }
    forall o | Contends(r, t, o) ensures HeadPriority(r, o) <= Boost(s, t) { BoostBounds(s, t, o); }
    BoostLeast(s, t, Boost(r, t));
    BoostLeast(r, t, Boost(s, t));
  }

  lemma RegisteredMutex(s: State, o: nat)
    requires ObjectsSane(s.objects, s.registry) && o in s.registry
    ensures o < |s.objects| && s.objects[o].kind == Mutex
  {
  }

  lemma SameBoost(s: State, r: State, t: nat)
    requires InBounds(s) && InBounds(r) && SameContention(s, r)
    requires ObjectsSane(s.objects, s.registry)
    ensures Boost(r, t) == Boost(s, t)
  {
    forall o
      ensures (Contends(s, t, o) <==> Contends(r, t, o)) && (Contends(s, t, o) ==> HeadPriority(s, o) == HeadPriority(r, o))
    {
      if o in s.registry { RegisteredMutex(s, o); }
    }
    SameHeadsBoost(s, r, t);
  }

  /** Woken takers stay woken and lose no priority. */
  ghost predicate KeepsPromises(s: State, r: State) {
    && |r.tasks| == |s.tasks|
    && forall w {:trigger s.tasks[w]} {:trigger r.tasks[w]} :: 0 <= w < |s.tasks| && TakesMutex(s.tasks[w]) && s.tasks[w].waitResult ==>
         r.tasks[w].waitResult && r.tasks[w].call == s.tasks[w].call && r.tasks[w].priority == s.tasks[w].priority
  }

  lemma PromisesKept(s: State, r: State, limbo: Option<nat>, except: Option<nat>, g: Regime)
    requires Core(s, limbo) && InBounds(r) && SameContention(s, r)
    requires KeepsPromises(s, r) && FreeMutexPromised(s, except, g)
    ensures FreeMutexPromised(r, except, g)
  {
    forall o | g.Fixed? && 0 <= o < |r.objects| && except != Some(o) && Unclaimed(r, o)
      ensures Promised(r.tasks, MutexList(o), HeadPriority(r, o))
    {
      assert ObjectShape(s.objects[o]);
      assert Unclaimed(s, o) && HeadPriority(s, o) == HeadPriority(r, o);
      var w :| 0 <= w < |s.tasks| && IsWoken(s.tasks[w], MutexList(o)) && s.tasks[w].priority >= HeadPriority(s, o);
      assert TcbSane(s.tasks[w], s.objects, s.now);
      assert TakesMutex(s.tasks[w]);
      assert IsWoken(r.tasks[w], MutexList(o));
    }
  }

  lemma SameContentionInherits(s: State, r: State, limbo: Option<nat>, g: Regime)
    requires Core(s, limbo) && InBounds(r) && SameContention(s, r) && KeepsPromises(s, r) && Inherits(s, g)
    requires TakersOwnNothing(r.tasks, r.objects)
    requires forall t {:trigger s.tasks[t]} {:trigger r.tasks[t]} :: 0 <= t < |s.tasks| ==>
      r.tasks[t].priority == s.tasks[t].priority && r.tasks[t].inheritedPriority == s.tasks[t].inheritedPriority
    ensures Inherits(r, g)
  {
    PromisesKept(s, r, limbo, None, g);
    forall t | 0 <= t < |r.tasks| ensures ExactFor(r, t, g) {
      SameBoost(s, r, t);
      assert ExactFor(s, t, g);
    }
  }

  lemma OffMutexLists(s: State, t: nat, o: nat, limbo: Option<nat>)
    requires Core(s, limbo) && t < |s.tasks| && !InMutexList(s.tasks[t]) && o < |s.objects| && s.objects[o].kind == Mutex
    ensures t !in s.waiters[MutexList(o)] && s.tasks[t].eventList != Some(MutexList(o))
  {
    assert TcbSane(s.tasks[t], s.objects, s.now);
  }

  lemma OtherListsKept(s: State, t: nat, p: Priority, l: ListId)
    requires InBounds(s) && t < |s.tasks| && l in s.waiters && s.tasks[t].eventList != Some(l)
    ensures SetEffectivePriority(s, t, p).waiters[l] == s.waiters[l]
  {
    if s.tasks[t].priority != p && s.tasks[t].state == Blocked && s.tasks[t].eventList.Some? {
      var k := ResortEffect(s, t, p);
    }
  }

  /** A task that is in no mutex list can be re-prioritised without changing any. */
  lemma AdjustContention(s: State, t: nat, base: Priority, inherited: Priority, limbo: Option<nat>)
    requires Core(s, limbo) && t < |s.tasks| && !InMutexList(s.tasks[t])
    ensures var tcb := s.tasks[t].(basePriority := base, inheritedPriority := inherited);
      var r := SetEffectivePriority(WithTask(s, t, tcb), t, Max(base, inherited));
      && SameContention(s, r)
      && r.tasks == s.tasks[t := tcb.(priority := Max(base, inherited), stamp := r.tasks[t].stamp)]
      && r.objects == s.objects && r.current == s.current
  {
    var tcb := s.tasks[t].(basePriority := base, inheritedPriority := inherited);
    var mid := WithTask(s, t, tcb);
    var q := Max(base, inherited);
    SetEffectivePriorityEffect(mid, t, q);
    hide SetEffectivePriority;
    forall o | 0 <= o < |s.objects| && s.objects[o].kind == Mutex
      ensures t !in s.waiters[MutexList(o)]
      ensures SetEffectivePriority(mid, t, q).waiters[MutexList(o)] == s.waiters[MutexList(o)]
    {
      OffMutexLists(s, t, o, limbo);
      OtherListsKept(mid, t, q, MutexList(o));
    }
  }

  /** Recomputing makes a task exact, whatever it was before, and no other worse. */
  lemma RecomputeInherits(s: State, u: nat, limbo: Option<nat>, g: Regime)
    requires Core(s, limbo) && u < |s.tasks| && !TakesMutex(s.tasks[u])
    requires TakersOwnNothing(s.tasks, s.objects) && FreeMutexPromised(s, None, g)
    requires Exact(s, Some(u), g)
    ensures var r := RecomputeInheritedPriority(s, u);
      && Inherits(r, g)
      && r.tasks == s.tasks[u := s.tasks[u].(
           inheritedPriority := Boost(s, u), priority := Max(s.tasks[u].basePriority, Boost(s, u)), stamp := r.tasks[u].stamp)]
  {
    AdjustContention(s, u, s.tasks[u].basePriority, Boost(s, u), limbo);
    var r := RecomputeInheritedPriority(s, u);
    PromisesKept(s, r, limbo, None, g);
    forall t | 0 <= t < |r.tasks| ensures ExactFor(r, t, g) {
      SameBoost(s, r, t);
      assert t != u ==> ExactFor(s, t, g);
    }
    forall t, o | 0 <= t < |r.tasks| && 0 <= o < |r.objects| && TakesMutex(r.tasks[t]) ensures r.objects[o].owner != Some(t) {
      assert TakesMutex(s.tasks[t]);
    }
  }

  /** A blocked task leaves its lists. */
  function Unlinked(s: State, t: nat): State
    requires InBounds(s) && t < |s.tasks|
  {
    var undelayed := DelayListRemove(s, t);
    if s.tasks[t].eventList.Some? then EventListRemove(undelayed, t) else undelayed
  }

  lemma UnlinkTasks(s: State, t: nat)
    requires InBounds(s) && t < |s.tasks|
    ensures var m := Unlinked(s, t);
      InBounds(m) && m.tasks == s.tasks[t := s.tasks[t].(eventList := None)] && m.objects == s.objects
  {
    assert Unlinked(s, t).tasks == s.tasks[t := s.tasks[t].(eventList := None)];
  }

  /** Removing a waiter leaves the head alone or brings up one that is not higher. */
  lemma RemoveWaiterHead(tasks: seq<Tcb>, q: seq<nat>, stamps: nat, t: nat)
    requires WaitOrdered(tasks, q, stamps) && Remove(q, t) != []
    ensures q != [] && q[0] < |tasks| && Remove(q, t)[0] < |tasks|
    ensures tasks[Remove(q, t)[0]].priority <= tasks[q[0]].priority
    ensures q[0] != t ==> Remove(q, t)[0] == q[0]
  {
    if q[0] == t {
      RemoveHead(q);
      assert WaitsBefore(tasks[q[0]], tasks[q[1]]);
    } else if t in q {
      assert IndexOf(q, t) > 0;
    }
  }

  lemma UnlinkHead(s: State, t: nat, o: nat)
    requires Core(s, None) && t < |s.tasks| && s.tasks[t].state == Blocked && o < |s.objects|
    ensures var m := Unlinked(s, t);
      && InBounds(m) && m.objects == s.objects && m.registry == s.registry
      && (m.waiters[MutexList(o)] != [] ==>
            && s.waiters[MutexList(o)] != [] && HeadPriority(m, o) <= HeadPriority(s, o))
      && (s.waiters[MutexList(o)] != [] && HeadPriority(s, o) != s.tasks[t].priority ==>
            m.waiters[MutexList(o)] != [] && HeadPriority(m, o) == HeadPriority(s, o))
      && (s.tasks[t].eventList != Some(MutexList(o)) ==> m.waiters[MutexList(o)] == s.waiters[MutexList(o)])
  {
    var m := Unlinked(s, t);
    var q := s.waiters[MutexList(o)];
    assert WaitOrdered(s.tasks, q, s.stamps);
    if s.tasks[t].eventList == Some(MutexList(o)) {
      assert m.waiters[MutexList(o)] == Remove(q, t);
      if Remove(q, t) != [] { RemoveWaiterHead(s.tasks, q, s.stamps, t); }
      if q != [] && q[0] != t { assert |q| > 1 by { assert t in q; } }
    }
  }

  lemma UnlinkBoost(s: State, t: nat, x: nat)
    requires Core(s, None) && t < |s.tasks| && s.tasks[t].state == Blocked
    ensures Boost(Unlinked(s, t), x) <= Boost(s, x) <= Max(Boost(Unlinked(s, t), x), s.tasks[t].priority)
  {
    var m := Unlinked(s, t);
    forall o | Contends(m, x, o) ensures HeadPriority(m, o) <= Boost(s, x) {
      UnlinkHead(s, t, o);
      BoostBounds(s, x, o);
    }
    BoostLeast(m, x, Boost(s, x));
    forall o | Contends(s, x, o) ensures HeadPriority(s, o) <= Max(Boost(m, x), s.tasks[t].priority) {
      UnlinkHead(s, t, o);
      if HeadPriority(s, o) != s.tasks[t].priority { BoostBounds(m, x, o); }
    }
    BoostLeast(s, x, Max(Boost(m, x), s.tasks[t].priority));
  }

  /** Only the owner of the mutex that `t` waited for can lose a boost. */
  lemma UnlinkBoostOther(s: State, t: nat, x: nat)
    requires Core(s, None) && t < |s.tasks| && s.tasks[t].state == Blocked
    requires TakesMutex(s.tasks[t]) && s.tasks[t].waitObject.Some? ==> s.objects[s.tasks[t].waitObject.value].owner != Some(x)
    ensures Boost(Unlinked(s, t), x) == Boost(s, x)
  {
    var m := Unlinked(s, t);
    assert TcbSane(s.tasks[t], s.objects, s.now);
    forall o
      ensures (Contends(s, x, o) <==> Contends(m, x, o)) && (Contends(s, x, o) ==> HeadPriority(s, o) == HeadPriority(m, o))
    {
      if o in s.registry {
        RegisteredMutex(s, o);
        UnlinkHead(s, t, o);
      }
    }
    SameHeadsBoost(s, m, x);
  }

  lemma UnlinkPromisedFor(s: State, t: nat, o: nat)
    requires Core(s, None) && t < |s.tasks| && s.tasks[t].state == Blocked && o < |s.objects|
    requires InBounds(s) && InBounds(Unlinked(s, t))
    requires |Unlinked(s, t).objects| == |s.objects| && Unclaimed(Unlinked(s, t), o)
    requires Unclaimed(s, o) ==> Promised(s.tasks, MutexList(o), HeadPriority(s, o))
    ensures Promised(Unlinked(s, t).tasks, MutexList(o), HeadPriority(Unlinked(s, t), o))
  {
    hide Core, Unlinked;
    var m := Unlinked(s, t);
    UnlinkHead(s, t, o);
    UnlinkTasks(s, t);
    var w :| 0 <= w < |s.tasks| && IsWoken(s.tasks[w], MutexList(o)) && s.tasks[w].priority >= HeadPriority(s, o);
    assert IsWoken(m.tasks[w], MutexList(o));
  }

  lemma UnlinkPromised(s: State, t: nat, except: Option<nat>, g: Regime)
    requires Core(s, None) && t < |s.tasks| && s.tasks[t].state == Blocked && FreeMutexPromised(s, except, g)
    ensures InBounds(Unlinked(s, t)) && FreeMutexPromised(Unlinked(s, t), except, g)
  {
    UnlinkCore(s, t);
    hide Core, Unlinked;
    forall o | g.Fixed? && 0 <= o < |Unlinked(s, t).objects| && except != Some(o) && Unclaimed(Unlinked(s, t), o)
      ensures Promised(Unlinked(s, t).tasks, MutexList(o), HeadPriority(Unlinked(s, t), o))
    {
      UnlinkPromisedFor(s, t, o);
    }
  }

  /** No priority rises, and what a task loses was due to a waiter of priority `p`. */
  ghost predicate Lowers(s: State, r: State, p: Priority) {
    && |r.tasks| == |s.tasks|
    && forall x {:trigger r.tasks[x]} :: 0 <= x < |s.tasks| ==>
         r.tasks[x].priority <= s.tasks[x].priority <= Max(r.tasks[x].priority, p)
  }

  /** Whose boost the end of `t`'s wait may concern. */
  function LosingOwner(s: State, t: nat): (r: Option<nat>)
    requires InBounds(s) && t < |s.tasks|
    ensures r.Some? ==> r.value < |s.tasks|
  {
    var tcb := s.tasks[t];
    if TakesMutex(tcb) && tcb.waitObject.Some? && s.objects[tcb.waitObject.value].kind == Mutex
    then s.objects[tcb.waitObject.value].owner
    else None
  }

  lemma WaitEndedShape(s: State, t: nat)
    requires InBounds(s) && t < |s.tasks|
    ensures WaitEnded(s, t) ==
      match LosingOwner(s, t) case Some(u) => RecomputeInheritedPriority(s, u) case None => s
  {
  }

  lemma UnlinkTakers(s: State, t: nat)
    requires InBounds(s) && t < |s.tasks| && TakersOwnNothing(s.tasks, s.objects)
    ensures var m := Unlinked(s, t);
      InBounds(m) && TakersOwnNothing(m.tasks, m.objects) && LosingOwner(m, t) == LosingOwner(s, t)
  {
    UnlinkTasks(s, t);
  }

  lemma UnlinkExactFor(s: State, t: nat, x: nat, g: Regime)
    requires Core(s, None) && t < |s.tasks| && s.tasks[t].state == Blocked && x < |s.tasks|
    requires LosingOwner(s, t) != Some(x) && ExactFor(s, x, g)
    ensures InBounds(Unlinked(s, t)) && ExactFor(Unlinked(s, t), x, g)
  {
    assert TcbSane(s.tasks[t], s.objects, s.now);
    UnlinkBoostOther(s, t, x);
  }

  /** After unlinking, every task but the losing owner is as exact as before. */
  lemma UnlinkExact(s: State, t: nat, except: Option<nat>, but: Option<nat>, g: Regime)
    requires Core(s, None) && t < |s.tasks| && s.tasks[t].state == Blocked
    requires TakersOwnNothing(s.tasks, s.objects) && Exact(s, but, g) && FreeMutexPromised(s, except, g)
    ensures var m := Unlinked(s, t);
      && Core(m, Some(t)) && TakersOwnNothing(m.tasks, m.objects) && FreeMutexPromised(m, except, g)
      && LosingOwner(m, t) == LosingOwner(s, t)
      && (forall x {:trigger ExactFor(m, x, g)} ::
            0 <= x < |m.tasks| && LosingOwner(s, t) != Some(x) && but != Some(x) ==> ExactFor(m, x, g))
  {
    hide Core, FreeMutexPromised, TakersOwnNothing, ExactFor;
    CoreOperable(s, None);
    UnlinkCore(s, t);
    UnlinkPromised(s, t, except, g);
    UnlinkTakers(s, t);
    UnlinkTasks(s, t);
    forall x | 0 <= x < |s.tasks| && LosingOwner(s, t) != Some(x) && but != Some(x) ensures ExactFor(Unlinked(s, t), x, g) {
      UnlinkExactFor(s, t, x, g);
    }
  }

  /** The losing owner comes down by no more than the leaving waiter's priority. */
  lemma LosingOwnerLowers(s: State, t: nat, u: nat, r: State)
    requires Core(s, None) && Inherits(s, Fixed) && t < |s.tasks| && s.tasks[t].state == Blocked && u < |s.tasks|
    requires |r.tasks| == |s.tasks|
    requires r.tasks[u].priority == Max(s.tasks[u].basePriority, Boost(Unlinked(s, t), u))
    requires forall x {:trigger r.tasks[x]} :: 0 <= x < |s.tasks| && x != u ==> r.tasks[x].priority == s.tasks[x].priority
    ensures Lowers(s, r, s.tasks[t].priority)
  {
    UnlinkBoost(s, t, u);
    assert ExactFor(s, u, Fixed) && TcbSane(s.tasks[u], s.objects, s.now);
  }

  lemma LosingOwnerIsNoTaker(s: State, t: nat)
    requires TakersOwnNothing(s.tasks, s.objects) && InBounds(s) && t < |s.tasks| && LosingOwner(s, t).Some?
    ensures LosingOwner(s, t).value != t && !TakesMutex(s.tasks[LosingOwner(s, t).value])
  {
  }

  lemma WaitEndedInherits(s: State, t: nat, g: Regime)
    requires Core(s, None) && Inherits(s, g) && t < |s.tasks| && s.tasks[t].state == Blocked
    ensures var m := Unlinked(s, t); var r := WaitEnded(m, t);
      InBounds(m) && Inherits(r, g) && (g.Fixed? ==> Lowers(s, r, s.tasks[t].priority)) && r.tasks[t].priority == s.tasks[t].priority
  {
    hide WaitEnded, RecomputeInheritedPriority, FreeMutexPromised, TakersOwnNothing, ExactFor, Unlinked;
    var m := Unlinked(s, t);
    UnlinkExact(s, t, None, None, g);
    UnlinkTasks(s, t);
    WaitEndedShape(m, t);
    if LosingOwner(s, t).Some? {
      var u := LosingOwner(s, t).value;
      LosingOwnerIsNoTaker(m, t);
      RecomputeInherits(m, u, Some(t), g);
      if g.Fixed? { LosingOwnerLowers(s, t, u, RecomputeInheritedPriority(m, u)); }
    } else {
      assert WaitEnded(m, t) == m;
      assert Exact(m, None, g);
    }
  }

  lemma MakeReadyInherits(s: State, t: nat, result: bool, g: Regime)
    requires Core(s, Some(t)) && Inherits(s, g) && t < |s.tasks| && s.tasks[t].state == Blocked
    ensures Inherits(MakeReady(s, t, result), g)
  {
    assert TcbSane(s.tasks[t], s.objects, s.now);
    SameContentionInherits(s, MakeReady(s, t, result), Some(t), g);
  }

  lemma UnlinkUnlisted(s: State, t: nat, x: nat)
    requires Core(s, None) && t < |s.tasks| && s.tasks[t].state == Blocked && s.tasks[t].eventList.None?
    ensures Boost(Unlinked(s, t), x) == Boost(s, x)
  {
    SameBoost(s, Unlinked(s, t), x);
  }

  lemma UnlinkUnlistedExact(s: State, t: nat, x: nat, g: Regime)
    requires Core(s, None) && t < |s.tasks| && s.tasks[t].state == Blocked && s.tasks[t].eventList.None?
    requires Exact(s, None, g) && x < |s.tasks|
    ensures InBounds(Unlinked(s, t)) && ExactFor(Unlinked(s, t), x, g)
  {
    UnlinkUnlisted(s, t, x);
    assert ExactFor(s, x, g);
  }

  lemma UnlinkIsUnlinked(s: State, t: nat)
    requires Core(s, None) && t < |s.tasks| && s.tasks[t].state == Blocked
    ensures Core(Unlinked(s, t), Some(t))
  {
    UnlinkCore(s, t);
  }

  /** `t` has left its lists, and the owner it waited for has been recomputed. */
  function Ended(s: State, t: nat): State
    requires InBounds(s) && t < |s.tasks|
  {
    if s.tasks[t].eventList.Some? then WaitEnded(Unlinked(s, t), t) else Unlinked(s, t)
  }

  lemma EndWaitShape(s: State, t: nat)
    requires InBounds(s) && t < |s.tasks|
    ensures InBounds(Ended(s, t)) && |Ended(s, t).tasks| == |s.tasks|
    ensures EndWait(s, t) == MakeReady(Ended(s, t), t, false)
  {
  }

  lemma EndedInherits(s: State, t: nat, g: Regime)
    requires Core(s, None) && Inherits(s, g) && t < |s.tasks| && s.tasks[t].state == Blocked
    ensures var r := Ended(s, t);
      Core(r, Some(t)) && Inherits(r, g) && (g.Fixed? ==> Lowers(s, r, s.tasks[t].priority))
      && r.tasks[t].priority == s.tasks[t].priority && r.tasks[t].state == Blocked
  {
    hide WaitEnded, FreeMutexPromised, TakersOwnNothing, ExactFor, Unlinked;
    var m := Unlinked(s, t);
    UnlinkTasks(s, t);
    UnlinkIsUnlinked(s, t);
    if s.tasks[t].eventList.Some? {
      WaitEndedInherits(s, t, g);
      WaitEndedCore(m, t, Some(t));
      WaitEndedPlaced(m, t, Some(t));
    } else {
      UnlinkPromised(s, t, None, g);
      UnlinkTakers(s, t);
      forall x | 0 <= x < |m.tasks| ensures ExactFor(m, x, g) {
        UnlinkUnlistedExact(s, t, x, g);
      }
    }
  }

  /** Timeout and abort keep inheritance exact: the owner of the mutex that was waited
      for gives up what it no longer needs. */
  lemma EndWaitInherits(s: State, t: nat, g: Regime)
    requires Core(s, None) && Inherits(s, g) && t < |s.tasks| && s.tasks[t].state == Blocked
    ensures var r := EndWait(s, t);
      Inherits(r, g) && (g.Fixed? ==> Lowers(s, r, s.tasks[t].priority)) && r.tasks[t].priority == s.tasks[t].priority
  {
    hide EndWait, Ended, FreeMutexPromised, TakersOwnNothing, ExactFor;
    EndedInherits(s, t, g);
    EndWaitShape(s, t);
    MakeReadyInherits(Ended(s, t), t, false, g);
  }

  lemma {:induction false} WakeExpiredInherits(s: State, g: Regime)
    requires Core(s, None) && Inherits(s, g)
    ensures Core(WakeExpired(s), None) && Inherits(WakeExpired(s), g)
    decreases |s.delayed|
  {
    if s.delayed != [] && TickReached(s.tick, s.tasks[s.delayed[0]].wakeTick) {
      assert s.delayed[0] in s.delayed;
      EndWaitCore(s, s.delayed[0]);
      EndWaitInherits(s, s.delayed[0], g);
      WakeExpiredInherits(EndWait(s, s.delayed[0]), g);
    }
  }

  /** Only the run states of tasks differ. */
  ghost predicate SameButStates(s: State, r: State) {
    && |r.tasks| == |s.tasks| && r.waiters == s.waiters && r.objects == s.objects && r.registry == s.registry
    && forall t {:trigger r.tasks[t]} :: 0 <= t < |s.tasks| ==> r.tasks[t] == s.tasks[t].(state := r.tasks[t].state)
  }

  lemma SameButStatesInherits(s: State, r: State, g: Regime)
    requires Core(s, None) && InBounds(r) && SameButStates(s, r) && Inherits(s, g)
    ensures Inherits(r, g)
  {
    SameContentionInherits(s, r, None, g);
  }

  /** The chosen task outranks every task left ready. */
  lemma SwitchInherits(s: State, g: Regime)
    requires Core(s, None) && (s.current.Some? ==> s.tasks[s.current.value].state != Running) && Inherits(s, g)
    ensures var r := SwitchContext(s); r.current.Some? && Inherits(r, g) && Strict(r, g)
  {
    SwitchContextCore(s);
    SwitchContextStrict(s, g);
    SameButStatesInherits(s, SwitchContext(s), g);
  }

  lemma SwitchContextStrict(s: State, g: Regime)
    requires Core(s, None) && (s.current.Some? ==> s.tasks[s.current.value].state != Running)
    ensures var r := SwitchContext(s); r.current.Some? && Strict(r, g)
  {
    SwitchContextCore(s);
    var r := SwitchContext(s);
    var p := HighestReady(s.ready, MAX_PRIORITIES).value;
    assert r.current.value in s.ready[p];
    forall t | 0 <= t < |r.tasks| && r.tasks[t].state == Ready ensures r.tasks[t].priority <= p {
      assert t in s.ready[s.tasks[t].priority];
    }
  }

  lemma YieldInherits(s: State, g: Regime)
    requires KernelInv(s) && Inherits(s, g)
    ensures var r := YieldCurrent(s); r.current.Some? && Inherits(r, g) && Strict(r, g)
  {
    hide SwitchContext;
    PreemptCore(s);
    var t := s.current.value;
    var tcb := s.tasks[t].(state := Ready);
    var r := ReadyListInsert(WithTask(s, t, tcb), t);
    SameButStatesInherits(s, r, g);
    SwitchInherits(r, g);
  }

  /** Waking a waiter; on a mutex list the mutex has just been released. */
  lemma UnblockInherits(s: State, l: ListId, but: Option<nat>, g: Regime)
    requires Core(s, None) && l in s.waiters && l.obj < |s.objects|
    requires s.objects[l.obj].kind == Mutex ==> s.objects[l.obj].owner.None? && l.side == ReceiveSide
    requires TakersOwnNothing(s.tasks, s.objects) && Exact(s, but, g) && FreeMutexPromised(s, Some(l.obj), g)
    ensures Linked(s.tasks, s.waiters)
    ensures var r := UnblockOne(s, l).0;
      TakersOwnNothing(r.tasks, r.objects) && Exact(r, but, g) && FreeMutexPromised(r, None, g)
  {
    PlacedLinked(s, None);
    if s.waiters[l] != [] {
      UnblockHeadInherits(s, l, but, g);
    } else {
      forall o | 0 <= o < |s.objects| && Unclaimed(s, o) ensures o != l.obj {}
      UnblockEmpty(s, l);
    }
  }

  /** The woken head itself is the taker that outranks those it leaves behind. */
  lemma WokenHeadPromised(s: State, l: ListId, m: State, t: nat)
    requires Core(s, None) && l in s.waiters && l.obj < |s.objects| && s.waiters[l] != [] && t == s.waiters[l][0]
    requires t < |s.tasks| && s.tasks[t].state == Blocked && s.tasks[t].eventList == Some(l)
    requires s.objects[l.obj].kind == Mutex ==> l == MutexList(l.obj)
    requires m == Unlinked(s, t) && InBounds(m) && Unclaimed(m, l.obj)
    ensures var r := MakeReady(m, t, true); Promised(r.tasks, MutexList(l.obj), HeadPriority(r, l.obj))
  {
    assert TcbSane(s.tasks[t], s.objects, s.now);
    UnlinkHead(s, t, l.obj);
    assert IsWoken(MakeReady(m, t, true).tasks[t], l);
  }

  lemma WokenPromised(s: State, l: ListId, m: State, t: nat, g: Regime)
    requires Core(s, None) && l in s.waiters && l.obj < |s.objects| && s.waiters[l] != [] && t == s.waiters[l][0]
    requires t < |s.tasks| && s.tasks[t].state == Blocked && s.tasks[t].eventList == Some(l)
    requires s.objects[l.obj].kind == Mutex ==> l == MutexList(l.obj)
    requires m == Unlinked(s, t) && Core(m, Some(t)) && FreeMutexPromised(m, Some(l.obj), g)
    ensures FreeMutexPromised(MakeReady(m, t, true), None, g)
  {
    hide Unlinked;
    UnlinkedSane(s, t, m);
    var r := MakeReady(m, t, true);
    PromisesKept(m, r, Some(t), Some(l.obj), g);
    forall o | g.Fixed? && 0 <= o < |r.objects| && Unclaimed(r, o) ensures Promised(r.tasks, MutexList(o), HeadPriority(r, o)) {
      if o == l.obj {
        WokenHeadPromised(s, l, m, t);
      }
    }
  }

  lemma UnlinkedSane(s: State, t: nat, m: State)
    requires Core(m, Some(t)) && InBounds(s) && t < |s.tasks| && m == Unlinked(s, t)
    ensures t < |m.tasks| && TcbSane(m.tasks[t], m.objects, m.now) && m.tasks[t].state == s.tasks[t].state
  {
  }

  lemma UnblockOneUnlinks(s: State, l: ListId)
    requires Core(s, None) && l in s.waiters && s.waiters[l] != []
    ensures Linked(s.tasks, s.waiters)
    ensures var t := s.waiters[l][0];
      && t < |s.tasks| && s.tasks[t].state == Blocked && s.tasks[t].eventList == Some(l)
      && InBounds(Unlinked(s, t)) && |Unlinked(s, t).tasks| == |s.tasks|
      && UnblockOne(s, l).0 == MakeReady(Unlinked(s, t), t, true)
  {
    UnblockOneEffect(s, l);
  }

  lemma UnblockHeadInherits(s: State, l: ListId, but: Option<nat>, g: Regime)
    requires Core(s, None) && l in s.waiters && l.obj < |s.objects| && s.waiters[l] != []
    requires s.objects[l.obj].kind == Mutex ==> s.objects[l.obj].owner.None? && l.side == ReceiveSide
    requires TakersOwnNothing(s.tasks, s.objects) && Exact(s, but, g) && FreeMutexPromised(s, Some(l.obj), g)
    ensures Linked(s.tasks, s.waiters)
    ensures var r := UnblockOne(s, l).0;
      TakersOwnNothing(r.tasks, r.objects) && Exact(r, but, g) && FreeMutexPromised(r, None, g)
  {
    hide FreeMutexPromised, MakeReady, UnblockOne, Unlinked, ExactFor, TakersOwnNothing;
    UnblockOneUnlinks(s, l);
    var t := s.waiters[l][0];
    var m := Unlinked(s, t);
    assert TcbSane(s.tasks[t], s.objects, s.now);
    UnlinkExact(s, t, Some(l.obj), but, g);
    UnlinkTasks(s, t);
    WokenPromised(s, l, m, t, g);
    WokenExact(m, t, but, g);
  }

  lemma WokenExact(m: State, t: nat, but: Option<nat>, g: Regime)
    requires Core(m, Some(t)) && t < |m.tasks| && m.tasks[t].state == Blocked
    requires TakersOwnNothing(m.tasks, m.objects) && Exact(m, but, g)
    ensures var r := MakeReady(m, t, true); TakersOwnNothing(r.tasks, r.objects) && Exact(r, but, g)
  {
    var r := MakeReady(m, t, true);
    forall x | 0 <= x < |r.tasks| && but != Some(x) ensures ExactFor(r, x, g) {
      SameBoost(m, r, x);
      assert ExactFor(m, x, g);
    }
  }
}
