/** Steps of a closed system: no task blocks on a mutex while it holds one, and nobody
    sets the priority of a task in a mutex's wait list. Each leaves no boost behind, and
    with fixed priorities keeps inheritance exact and the priorities strict. */
module ClosedSystem {
  import opened Ticks
  import opened Lists
  import opened KernelState
  import opened TaskModel
  import opened QueueRing
  import opened QueueModel
  import opened Kernel
  import opened Placement
  import opened Order
  import opened CoreInvariant
  import opened Steps
  import opened Wakeups
  import opened Inheritance

  ghost predicate ClosedInv(s: State, g: Regime) {
    KernelInv(s) && Inherits(s, g) && Strict(s, g)
  }

  /** The hypotheses of a closed system on one step. */
  ghost predicate ClosedStep(s: State, step: Step, g: Regime)
    requires InBounds(s)
  {
    && Enabled(s, step)
    && (step.SetPriority? ==> g.Adjustable? && !InMutexList(s.tasks[step.task]))
    && (step.Take? && step.ticks > 0 && s.objects[step.semaphore].kind == Mutex && s.objects[step.semaphore].owner.Some? ==>
          s.objects[step.semaphore].owner == s.current || !OwnsMutex(s, s.current.value))
  }

  lemma FixedIsAny(s: State, g: Regime)
    requires ClosedInv(s, Fixed)
    ensures ClosedInv(s, g)
  {
    forall t | 0 <= t < |s.tasks| ensures ExactFor(s, t, g) {
      assert ExactFor(s, t, Fixed);
    }
  }

  lemma OwnsNone(s: State, t: nat, o: nat)
    requires Core(s, None) && !OwnsMutex(s, t) && o < |s.objects|
    ensures s.objects[o].owner != Some(t)
  {
    assert ObjectShape(s.objects[o]);
    if s.objects[o].kind == Mutex {
      var i :| 0 <= i < |s.registry| && s.registry[i] == o;
    }
  }

  /** An object that is no mutex, or whose owner is unchanged, is updated. */
  lemma ObjectInherits(s: State, o: nat, obj: Object, g: Regime)
    requires Core(s, None) && Inherits(s, g) && o < |s.objects|
    requires s.objects[o].kind != Mutex && obj.kind == s.objects[o].kind
    requires obj.owner == s.objects[o].owner
    ensures var r := s.(objects := s.objects[o := obj]); InBounds(r) && Inherits(r, g)
  {
    var r := s.(objects := s.objects[o := obj]);
    SameContentionInherits(s, r, None, g);
  }

  /** Waking one waiter below or at the running task's priority keeps the order strict. */
  lemma UnblockStrict(s: State, l: ListId, g: Regime)
    requires KernelInv(s) && Strict(s, g) && l in s.waiters && Linked(s.tasks, s.waiters)
    requires !UnblockOne(s, l).1
    ensures Strict(UnblockOne(s, l).0, g)
  {
    UnblockFlag(s, l);
    UnblockTasks(s, l);
    hide UnblockOne;
    var r := UnblockOne(s, l).0;
    if g.Fixed? {
      forall t | 0 <= t < |r.tasks| && r.tasks[t].state == Ready ensures r.tasks[t].priority <= r.tasks[s.current.value].priority {
        assert r.tasks[t].priority == s.tasks[t].priority;
      }
    }
  }

  lemma UnblockFlag(s: State, l: ListId)
    requires KernelInv(s) && l in s.waiters && Linked(s.tasks, s.waiters)
    ensures var (r, preempts) := UnblockOne(s, l);
      r.tasks[s.current.value].state == Running && (s.waiters[l] != [] ==> preempts == Outranks(r, s.waiters[l][0]))
  {
    UnblockOneQuiet(s, l);
  }

  lemma PromisedWeaken(s: State, except: Option<nat>, g: Regime)
    requires InBounds(s) && FreeMutexPromised(s, None, g)
    ensures FreeMutexPromised(s, except, g)
  {
  }

  lemma UnblockAndSwitchClosed(s: State, l: ListId, g: Regime)
    requires KernelInv(s) && Inherits(s, g) && Strict(s, g) && l in s.waiters
    requires l.obj < |s.objects| && s.objects[l.obj].kind != Mutex
    ensures Linked(s.tasks, s.waiters) && ClosedInv(UnblockAndSwitch(s, l), g)
  {
    hide UnblockOne, YieldCurrent;
    WakeInv(s, l);
    PromisedWeaken(s, Some(l.obj), g);
    UnblockInherits(s, l, None, g);
    if UnblockOne(s, l).1 {
      YieldInherits(UnblockOne(s, l).0, g);
    } else {
      UnblockStrict(s, l, g);
    }
  }

  lemma ObjectWakeClosed(s: State, o: nat, obj: Object, l: ListId, g: Regime)
    requires ClosedInv(s, g) && o < |s.objects| && ObjectShape(obj)
    requires l in s.waiters && l.obj == o && s.objects[o].kind != Mutex
    requires obj.kind == s.objects[o].kind && obj.itemSize == s.objects[o].itemSize && obj.owner == s.objects[o].owner
    ensures var r := s.(objects := s.objects[o := obj]); KernelInv(r) && Linked(r.tasks, r.waiters) && ClosedInv(UnblockAndSwitch(r, l), g)
  {
    assert ObjectShape(s.objects[o]);
    ObjectInv(s, o, obj);
    ObjectInherits(s, o, obj, g);
    UnblockAndSwitchClosed(s.(objects := s.objects[o := obj]), l, g);
  }

  /** Joining the waiters of something that is no mutex. */
  lemma BlockInherits(s: State, l: ListId, reason: WaitReason, call: Call, ticks: nat, g: Regime)
    requires KernelInv(s) && Inherits(s, g) && MayBlock(s, s.current.value, l, reason, call, ticks)
    requires s.tasks[s.current.value].call.NoCall? && reason != WaitMutexTake
    ensures var r := BlockOn(s, s.current.value, l, reason, call, ticks); Inherits(r, g)
  {
    hide BlockOn, WaitersOrdered, DelayOrdered, ReadyPlaced, DelayPlaced, IdleReady, NoSelfWait;
    var t := s.current.value;
    var k, d := BlockOnEffect(s, t, l, reason, call, ticks);
    assert TcbSane(s.tasks[t], s.objects, s.now);
    assert forall o :: 0 <= o < |s.objects| && s.objects[o].kind == Mutex ==> l != MutexList(o);
    SameContentionInherits(s, BlockOn(s, t, l, reason, call, ticks), None, g);
  }

  lemma BlockSwitchClosed(s: State, l: ListId, reason: WaitReason, call: Call, ticks: nat, g: Regime)
    requires KernelInv(s) && Inherits(s, g) && MayBlock(s, s.current.value, l, reason, call, ticks) && ticks > 0
    requires s.tasks[s.current.value].call.NoCall? && reason != WaitMutexTake
    ensures ClosedInv(SwitchContext(BlockOn(s, s.current.value, l, reason, call, ticks)), g)
  {
    hide BlockOn, SwitchContext;
    BlockInv(s, l, reason, call, ticks);
    BlockInherits(s, l, reason, call, ticks, g);
    SwitchInherits(BlockOn(s, s.current.value, l, reason, call, ticks), g);
  }

  lemma SendClosed(s: State, o: nat, item: seq<Byte>, ticks: nat, due: nat, g: Regime)
    requires Attempting(s, ticks, due) && ClosedInv(s, g) && o < |s.objects| && s.objects[o].kind == QueueData
    requires |item| == s.objects[o].itemSize
    ensures Operable(s) && ClosedInv(SendAttempt(s, o, item, ticks, due).0, g)
  {
    hide UnblockAndSwitch, BlockOn, SwitchContext;
    CoreOperable(s, None);
    if s.objects[o].count < s.objects[o].length {
      ObjectWakeClosed(s, o, CopyIn(s.objects[o], item), ListId(o, ReceiveSide), g);
    } else if ticks > 0 {
      BlockSwitchClosed(s, ListId(o, SendSide), WaitQueueSend, InSend(o, item, due), ticks, g);
    }
  }

  lemma ReceiveClosed(s: State, o: nat, ticks: nat, due: nat, g: Regime)
    requires Attempting(s, ticks, due) && ClosedInv(s, g) && o < |s.objects| && s.objects[o].kind == QueueData
    ensures Operable(s) && ClosedInv(ReceiveAttempt(s, o, ticks, due).0, g)
  {
    hide UnblockAndSwitch, BlockOn, SwitchContext;
    CoreOperable(s, None);
    if s.objects[o].count > 0 {
      ObjectWakeClosed(s, o, CopyOut(s.objects[o]), ListId(o, SendSide), g);
    } else if ticks > 0 {
      BlockSwitchClosed(s, ListId(o, ReceiveSide), WaitQueueReceive, InReceive(o, due), ticks, g);
    }
  }

  lemma GiveSemaphoreClosed(s: State, o: nat, g: Regime)
    requires ClosedInv(s, g) && o < |s.objects| && s.objects[o].kind != Mutex
    requires s.objects[o].kind != QueueData && Operable(s)
    ensures ClosedInv(GiveSemaphore(s, o).0, g)
  {
    hide UnblockAndSwitch;
    if s.objects[o].count < s.objects[o].maxCount {
      assert ObjectShape(s.objects[o]);
      ObjectWakeClosed(s, o, TokenGiven(s.objects[o]), ListId(o, ReceiveSide), g);
    }
  }

  /** The running task outranks everyone who waits for a free mutex. */
  lemma PromisedBelowCurrent(s: State, o: nat)
    requires ClosedInv(s, Fixed) && o < |s.objects| && Unclaimed(s, o)
    ensures HeadPriority(s, o) <= s.tasks[s.current.value].priority
  {
    assert ObjectShape(s.objects[o]);
    var w :| 0 <= w < |s.tasks| && IsWoken(s.tasks[w], MutexList(o)) && s.tasks[w].priority >= HeadPriority(s, o);
    assert TcbSane(s.tasks[w], s.objects, s.now);
  }

  /** The new owner of a free mutex already has the priority its waiters call for. */
  lemma TakeMutexInherits(s: State, o: nat, g: Regime)
    requires Core(s, None) && CurrentRuns(s) && o < |s.objects| && s.objects[o].kind == Mutex && s.objects[o].count > 0
    requires !TakesMutex(s.tasks[s.current.value])
    requires TakersOwnNothing(s.tasks, s.objects) && Exact(s, None, g) && FreeMutexPromised(s, Some(o), g)
    requires g.Fixed? && Unclaimed(s, o) ==> HeadPriority(s, o) <= s.tasks[s.current.value].priority
    ensures var r := s.(objects := s.objects[o := TokenTaken(s.objects[o], s.current.value)]); InBounds(r) && Inherits(r, g)
  {
    var c := s.current.value;
    var r := s.(objects := s.objects[o := TokenTaken(s.objects[o], c)]);
    assert ObjectShape(s.objects[o]);
    forall t | 0 <= t < |r.tasks| ensures ExactFor(r, t, g) {
      assert ExactFor(s, t, g);
      TakenBoost(s, o, t);
    }
    forall x | g.Fixed? && 0 <= x < |r.objects| && Unclaimed(r, x) ensures Promised(r.tasks, MutexList(x), HeadPriority(r, x)) {
      assert Unclaimed(s, x);
    }
  }

  lemma TakenBoost(s: State, o: nat, t: nat)
    requires InBounds(s) && s.current.Some? && o < |s.objects| && s.objects[o].count > 0
    requires s.objects[o].kind == Mutex && s.objects[o].owner.None?
    ensures var r := s.(objects := s.objects[o := TokenTaken(s.objects[o], s.current.value)]);
      && Boost(s, t) <= Boost(r, t)
      && (t != s.current.value ==> Boost(r, t) == Boost(s, t))
      && (s.waiters[MutexList(o)] == [] ==> Boost(r, t) == Boost(s, t))
      && (s.waiters[MutexList(o)] != [] ==> Boost(r, t) <= Max(Boost(s, t), HeadPriority(s, o)))
  {
    var r := s.(objects := s.objects[o := TokenTaken(s.objects[o], s.current.value)]);
    forall x | Contends(s, t, x) ensures HeadPriority(s, x) <= Boost(r, t) { BoostBounds(r, t, x); }
    BoostLeast(s, t, Boost(r, t));
    var bound := if t == s.current.value && s.waiters[MutexList(o)] != [] then Max(Boost(s, t), HeadPriority(s, o)) else Boost(s, t);
    forall x | Contends(r, t, x) ensures HeadPriority(r, x) <= bound {
      if x != o { BoostBounds(s, t, x); }
    }
    BoostLeast(r, t, bound);
  }

  /** Blocking on an owned mutex disturbs nobody but the owner. */
  lemma BlockMutexExact(s: State, o: nat, call: Call, ticks: nat, g: Regime)
    requires KernelInv(s) && Inherits(s, g) && o < |s.objects| && s.objects[o].kind == Mutex && s.objects[o].owner.Some?
    requires MayBlock(s, s.current.value, MutexList(o), WaitMutexTake, call, ticks)
    requires s.tasks[s.current.value].call.NoCall?
    requires forall x :: 0 <= x < |s.objects| ==> s.objects[x].owner != s.current
    ensures var r := BlockOn(s, s.current.value, MutexList(o), WaitMutexTake, call, ticks);
      TakersOwnNothing(r.tasks, r.objects) && Exact(r, s.objects[o].owner, g) && FreeMutexPromised(r, None, g)
  {
    hide BlockOn, WaitersOrdered, DelayOrdered, ReadyPlaced, DelayPlaced, IdleReady, NoSelfWait;
    var c := s.current.value;
    var k, d := BlockOnEffect(s, c, MutexList(o), WaitMutexTake, call, ticks);
    var r := BlockOn(s, c, MutexList(o), WaitMutexTake, call, ticks);
    BlockMutexHeads(s, o, r, c);
    forall t | 0 <= t < |r.tasks| && s.objects[o].owner != Some(t) ensures ExactFor(r, t, g) {
      SameHeadsBoost(s, r, t);
      assert ExactFor(s, t, g);
    }
    assert TcbSane(s.tasks[c], s.objects, s.now);
    forall x | g.Fixed? && 0 <= x < |r.objects| && Unclaimed(r, x) ensures Promised(r.tasks, MutexList(x), HeadPriority(r, x)) {
      BlockMutexPromised(s, o, r, c, x);
    }
  }

  /** `r` is `s` with task `c` parked on the owned mutex `o`. */
  ghost predicate ParkedOn(s: State, o: nat, r: State, c: nat) {
    && KernelInv(s) && InBounds(r) && c < |s.tasks| && s.current == Some(c) && o < |s.objects|
    && r.objects == s.objects && r.registry == s.registry && |r.tasks| == |s.tasks|
    && (forall l {:trigger r.waiters[l]} :: l in s.waiters && l != MutexList(o) ==> r.waiters[l] == s.waiters[l])
    && (forall t {:trigger r.tasks[t]} :: 0 <= t < |s.tasks| && t != c ==> r.tasks[t] == s.tasks[t])
  }

  lemma BlockMutexHeads(s: State, o: nat, r: State, c: nat)
    requires ParkedOn(s, o, r, c)
    ensures forall t: nat {:trigger SameHeads(s, r, t)} :: s.objects[o].owner != Some(t) ==> SameHeads(s, r, t)
  {
    forall t: nat, x: nat | s.objects[o].owner != Some(t)
      ensures (Contends(s, t, x) <==> Contends(r, t, x)) && (Contends(s, t, x) ==> HeadPriority(s, x) == HeadPriority(r, x))
    {
      if x != o && x < |s.objects| && s.waiters[MutexList(x)] != [] {
        assert s.waiters[MutexList(x)][0] in s.waiters[MutexList(x)];
      }
    }
  }

  lemma BlockMutexPromised(s: State, o: nat, r: State, c: nat, x: nat)
    requires ParkedOn(s, o, r, c) && s.objects[o].owner.Some? && s.tasks[c].call.NoCall? && FreeMutexPromised(s, None, Fixed)
    requires x < |r.objects| && Unclaimed(r, x)
    ensures Promised(r.tasks, MutexList(x), HeadPriority(r, x))
  {
    assert s.waiters[MutexList(x)][0] in s.waiters[MutexList(x)];
    assert Unclaimed(s, x);
    var w :| 0 <= w < |s.tasks| && IsWoken(s.tasks[w], MutexList(x)) && s.tasks[w].priority >= HeadPriority(s, x);
    assert IsWoken(r.tasks[w], MutexList(x));
  }

  lemma RecomputeSwitchClosed(s: State, u: nat, g: Regime)
    requires Core(s, None) && s.current.Some? && s.tasks[s.current.value].state == Blocked
    requires NoneDue(s.tasks, s.delayed, s.now) && u < |s.tasks| && !TakesMutex(s.tasks[u])
    requires TakersOwnNothing(s.tasks, s.objects) && Exact(s, Some(u), g) && FreeMutexPromised(s, None, g)
    ensures ClosedInv(SwitchContext(RecomputeInheritedPriority(s, u)), g)
  {
    hide SwitchContext, RecomputeInheritedPriority;
    RecomputeInherits(s, u, None, g);
    RecomputeSwitchInv(s, u);
    RecomputeCore(s, u, None);
    RecomputeQuiet(s, u);
    SwitchInherits(RecomputeInheritedPriority(s, u), g);
  }

  /** The waiter blocks, the owner inherits, and the strongest ready task runs. */
  lemma BlockMutexClosed(s: State, o: nat, call: Call, ticks: nat, g: Regime)
    requires KernelInv(s) && Inherits(s, g) && o < |s.objects| && s.objects[o].kind == Mutex && s.objects[o].owner.Some?
    requires MayBlock(s, s.current.value, MutexList(o), WaitMutexTake, call, ticks) && ticks > 0
    requires s.tasks[s.current.value].call.NoCall?
    requires forall x :: 0 <= x < |s.objects| ==> s.objects[x].owner != s.current
    ensures var blocked := BlockOn(s, s.current.value, MutexList(o), WaitMutexTake, call, ticks);
      ClosedInv(SwitchContext(RecomputeInheritedPriority(blocked, s.objects[o].owner.value)), g)
  {
    hide BlockOn, SwitchContext, RecomputeInheritedPriority, ClosedInv, Inherits, FreeMutexPromised;
    var blocked := BlockOn(s, s.current.value, MutexList(o), WaitMutexTake, call, ticks);
    BlockInv(s, MutexList(o), WaitMutexTake, call, ticks);
    BlockMutexExact(s, o, call, ticks, g);
    BlockKeepsObjects(s, o, call, ticks);
    assert !TakesMutex(blocked.tasks[s.objects[o].owner.value]);
    RecomputeSwitchClosed(blocked, s.objects[o].owner.value, g);
  }

  lemma BlockKeepsObjects(s: State, o: nat, call: Call, ticks: nat)
    requires s.current.Some? && MayBlock(s, s.current.value, MutexList(o), WaitMutexTake, call, ticks)
    ensures BlockOn(s, s.current.value, MutexList(o), WaitMutexTake, call, ticks).objects == s.objects
  {
  }

  /** What a take needs: exactness, promises for every other mutex, and this mutex's
      waiters below the caller. */
  ghost predicate MayTake(s: State, o: nat, g: Regime) {
    && KernelInv(s) && Strict(s, g) && o < |s.objects| && s.objects[o].kind != QueueData
    && TakersOwnNothing(s.tasks, s.objects) && Exact(s, None, g) && FreeMutexPromised(s, Some(o), g)
    && (g.Fixed? && Unclaimed(s, o) ==> HeadPriority(s, o) <= s.tasks[s.current.value].priority)
  }

  lemma MayTakeInherits(s: State, o: nat, g: Regime)
    requires MayTake(s, o, g) && (g.Fixed? ==> !Unclaimed(s, o))
    ensures Inherits(s, g)
  {
  }

  lemma TakeSucceeds(s: State, o: nat, g: Regime)
    requires MayTake(s, o, g) && s.objects[o].count > 0 && s.tasks[s.current.value].call.NoCall?
    ensures ClosedInv(s.(objects := s.objects[o := TokenTaken(s.objects[o], s.current.value)]), g)
  {
    hide FreeMutexPromised, ExactFor;
    var taken := TokenTaken(s.objects[o], s.current.value);
    assert ObjectShape(s.objects[o]);
    assert TcbSane(s.tasks[s.current.value], s.objects, s.now);
    ObjectInv(s, o, taken);
    if s.objects[o].kind == Mutex {
      TakeMutexInherits(s, o, g);
    } else {
      MayTakeInherits(s, o, g);
      ObjectInherits(s, o, taken, g);
    }
  }

  lemma TakeBlocks(s: State, o: nat, ticks: nat, due: nat, g: Regime)
    requires Attempting(s, ticks, due) && MayTake(s, o, g) && s.objects[o].count == 0 && ticks > 0
    requires s.objects[o].kind == Mutex ==> s.objects[o].owner != s.current && !OwnsMutex(s, s.current.value)
    ensures Operable(s) && ClosedInv(TakeAttempt(s, o, ticks, due).0, g)
  {
    hide BlockOn, RecomputeInheritedPriority, SwitchContext, FreeMutexPromised, ExactFor;
    CoreOperable(s, None);
    assert ObjectShape(s.objects[o]);
    var call := InTake(o, due);
    MayTakeInherits(s, o, g);
    if s.objects[o].kind == Mutex {
      forall x | 0 <= x < |s.objects| ensures s.objects[x].owner != s.current { OwnsNone(s, s.current.value, x); }
      BlockMutexClosed(s, o, call, ticks, g);
    } else {
      BlockSwitchClosed(s, ListId(o, ReceiveSide), WaitSemaphoreTake, call, ticks, g);
    }
  }

  lemma TakeClosed(s: State, o: nat, ticks: nat, due: nat, g: Regime)
    requires Attempting(s, ticks, due) && MayTake(s, o, g)
    requires ticks > 0 && s.objects[o].kind == Mutex && s.objects[o].owner.Some? ==>
      s.objects[o].owner == s.current || !OwnsMutex(s, s.current.value)
    ensures Operable(s) && ClosedInv(TakeAttempt(s, o, ticks, due).0, g)
  {
    hide BlockOn, RecomputeInheritedPriority, SwitchContext, FreeMutexPromised, ExactFor;
    CoreOperable(s, None);
    assert ObjectShape(s.objects[o]);
    if s.objects[o].kind == Mutex && s.objects[o].owner == s.current {
      MayTakeInherits(s, o, g);
    } else if s.objects[o].count > 0 {
      TakeSucceeds(s, o, g);
    } else if ticks == 0 {
      MayTakeInherits(s, o, g);
    } else {
      TakeBlocks(s, o, ticks, due, g);
    }
  }

  /** The released mutex no longer boosts its old owner; everyone else is as before. */
  lemma ReleasedExact(s: State, o: nat, g: Regime)
    requires ClosedInv(s, g) && o < |s.objects| && s.objects[o].kind == Mutex && s.objects[o].owner == s.current
    ensures var r := AfterRelease(s, o);
      InBounds(r) && TakersOwnNothing(r.tasks, r.objects) && Exact(r, s.current, g) && FreeMutexPromised(r, Some(o), g)
  {
    var r := AfterRelease(s, o);
    forall t | 0 <= t < |r.tasks| && s.current != Some(t) ensures ExactFor(r, t, g) {
      assert SameHeads(s, r, t);
      SameHeadsBoost(s, r, t);
      assert ExactFor(s, t, g);
    }
    forall x: nat | g.Fixed? && x < |r.objects| && x != o && Unclaimed(r, x) ensures Promised(r.tasks, MutexList(x), HeadPriority(r, x)) {
      assert Unclaimed(s, x);
    }
  }

  lemma ReleasedBoost(s: State, o: nat, c: nat)
    requires InBounds(s) && o < |s.objects|
    ensures var r := AfterRelease(s, o);
      && InBounds(r)
      && (s.waiters[MutexList(o)] == [] ==> Boost(s, c) <= Boost(r, c))
      && (s.waiters[MutexList(o)] != [] ==> Boost(s, c) <= Max(Boost(r, c), HeadPriority(s, o)))
  {
    var r := AfterRelease(s, o);
    var bound := if s.waiters[MutexList(o)] == [] then Boost(r, c) else Max(Boost(r, c), HeadPriority(s, o));
    forall x | Contends(s, c, x) ensures HeadPriority(s, x) <= bound {
      if x != o { BoostBounds(r, c, x); }
    }
    BoostLeast(s, c, bound);
  }

  /** Waking a waiter of a free mutex leaves every boost as it is. */
  lemma UnblockBoost(s: State, l: ListId, c: nat)
    requires Core(s, None) && l in s.waiters && l.obj < |s.objects| && s.objects[l.obj].owner.None?
    requires Linked(s.tasks, s.waiters)
    ensures Boost(UnblockOne(s, l).0, c) == Boost(s, c)
  {
    hide UnblockOne, Unlinked;
    if s.waiters[l] != [] {
      UnblockOneUnlinks(s, l);
      var t := s.waiters[l][0];
      assert TcbSane(s.tasks[t], s.objects, s.now);
      UnlinkBoostOther(s, t, c);
      UnlinkIsUnlinked(s, t);
      UnlinkTasks(s, t);
      MakeReadyBoost(Unlinked(s, t), t, c);
    } else {
      UnblockEmpty(s, l);
    }
  }

  lemma MakeReadyBoost(m: State, t: nat, c: nat)
    requires Core(m, Some(t)) && t < |m.tasks|
    ensures Boost(MakeReady(m, t, true), c) == Boost(m, c)
  {
    SameBoost(m, MakeReady(m, t, true), c);
  }

  /** The giver's priority before the give is at most its priority afterwards or that
      of the waiter it woke: comparing with the waiter alone is enough. */
  lemma GiverDrop(s: State, o: nat)
    requires ClosedInv(s, Fixed) && o < |s.objects| && s.objects[o].kind == Mutex && s.objects[o].owner == s.current
    requires KernelInv(AfterRelease(s, o))
    ensures var released := AfterRelease(s, o);
      && Linked(s.tasks, s.waiters)
      && var after := Max(s.tasks[s.current.value].basePriority, Boost(UnblockOne(released, MutexList(o)).0, s.current.value));
      && (s.waiters[MutexList(o)] == [] ==> s.tasks[s.current.value].priority <= after)
      && (s.waiters[MutexList(o)] != [] ==> s.tasks[s.current.value].priority <= Max(after, HeadPriority(s, o)))
  {
    hide UnblockOne;
    PlacedLinked(s, None);
    var c := s.current.value;
    ReleasedBoost(s, o, c);
    UnblockBoost(AfterRelease(s, o), MutexList(o), c);
    assert ExactFor(s, c, Fixed) && TcbSane(s.tasks[c], s.objects, s.now);
  }

  /** Who is ready after waking the head of `l`, and with which priorities. */
  lemma UnblockTasks(s: State, l: ListId)
    requires Core(s, None) && l in s.waiters && Linked(s.tasks, s.waiters)
    ensures var r := UnblockOne(s, l).0;
      && |r.tasks| == |s.tasks| && r.current == s.current
      && (forall t {:trigger r.tasks[t]} :: 0 <= t < |s.tasks| ==>
            && r.tasks[t].priority == s.tasks[t].priority && r.tasks[t].basePriority == s.tasks[t].basePriority
            && (r.tasks[t].state == s.tasks[t].state || (s.waiters[l] != [] && t == s.waiters[l][0])))
  {
    hide Unlinked;
    if s.waiters[l] != [] {
      UnblockOneUnlinks(s, l);
      UnlinkTasks(s, s.waiters[l][0]);
    }
  }

  lemma NothingStrict(s: State)
    requires InBounds(s) && s.current.Some?
    ensures Strict(s, Adjustable)
  {
  }

  /** After the giver is recomputed nobody ready outranks it, unless it yields. */
  lemma GiveStrict(s: State, o: nat, woken: State, restored: State)
    requires ClosedInv(s, Fixed) && o < |s.objects| && |woken.tasks| == |s.tasks| == |restored.tasks| && InBounds(restored)
    requires restored.current == woken.current == s.current
    requires var q := s.waiters[MutexList(o)];
      && (forall t {:trigger woken.tasks[t]} :: 0 <= t < |s.tasks| ==>
            && woken.tasks[t].priority == s.tasks[t].priority
            && (woken.tasks[t].state == s.tasks[t].state || (q != [] && t == q[0])))
      && (forall t {:trigger restored.tasks[t]} :: 0 <= t < |s.tasks| ==>
            && (restored.tasks[t].priority == woken.tasks[t].priority || t == s.current.value)
            && restored.tasks[t].state == woken.tasks[t].state)
      && (q == [] ==> s.tasks[s.current.value].priority <= restored.tasks[s.current.value].priority)
      && (q != [] ==> s.tasks[s.current.value].priority <= Max(restored.tasks[s.current.value].priority, HeadPriority(s, o)))
      && (q != [] ==> restored.tasks[q[0]].priority <= restored.tasks[s.current.value].priority)
    ensures Strict(restored, Fixed)
  {
    var q := s.waiters[MutexList(o)];
    if q != [] {
      assert q[0] in q;
      assert s.tasks[q[0]].state == Blocked;
    }
    forall t | 0 <= t < |restored.tasks| && restored.tasks[t].state == Ready
      ensures restored.tasks[t].priority <= restored.tasks[s.current.value].priority
    {
      assert woken.tasks[t].priority == s.tasks[t].priority;
    }
  }

  /** The mutex is free again and its head waiter woken; only the giver is not exact. */
  lemma GiveWoken(s: State, o: nat, g: Regime)
    requires ClosedInv(s, g) && o < |s.objects| && s.objects[o].kind == Mutex && s.objects[o].owner == s.current
    ensures KernelInv(AfterRelease(s, o)) && Linked(s.tasks, s.waiters)
    ensures var woken := UnblockOne(AfterRelease(s, o), MutexList(o)).0; var c := s.current.value;
      && KernelInv(woken) && woken.current == s.current && !TakesMutex(woken.tasks[c])
      && TakersOwnNothing(woken.tasks, woken.objects) && Exact(woken, s.current, g) && FreeMutexPromised(woken, None, g)
  {
    hide UnblockOne, UnblockAndSwitch, Exact, FreeMutexPromised;
    assert !TakesMutex(s.tasks[s.current.value]);
    ReleasedExact(s, o, g);
    assert ObjectShape(s.objects[o]);
    ObjectWakeInv(s, o, Released(s.objects[o]), MutexList(o));
    UnblockInherits(AfterRelease(s, o), MutexList(o), s.current, g);
    WokenKeepsCaller(AfterRelease(s, o), MutexList(o));
  }

  lemma WokenKeepsCaller(s: State, l: ListId)
    requires KernelInv(s) && l in s.waiters
    ensures Linked(s.tasks, s.waiters)
    ensures var woken := UnblockOne(s, l).0; woken.current == s.current && woken.tasks[s.current.value] == s.tasks[s.current.value]
    ensures s.tasks[s.current.value].waitReason == CallReason(s.tasks[s.current.value].call, s.objects)
  {
    hide Unlinked;
    PlacedLinked(s, None);
    assert TcbSane(s.tasks[s.current.value], s.objects, s.now);
    if s.waiters[l] != [] {
      UnblockOneUnlinks(s, l);
      UnlinkTasks(s, s.waiters[l][0]);
    }
  }

  /** The comparison with the woken waiter decides for everybody who is ready. */
  lemma GiveKept(s: State, o: nat, woken: State, restored: State)
    requires ClosedInv(s, Fixed) && o < |s.objects| && s.objects[o].kind == Mutex && s.objects[o].owner == s.current
    requires InBounds(AfterRelease(s, o)) && Linked(s.tasks, s.waiters)
    requires woken == UnblockOne(AfterRelease(s, o), MutexList(o)).0
    requires KernelInv(AfterRelease(s, o)) && InBounds(restored) && restored.current == s.current
    requires var c := s.current.value; var p := Max(woken.tasks[c].basePriority, Boost(woken, c));
      restored.tasks == woken.tasks[c :=
        woken.tasks[c].(inheritedPriority := Boost(woken, c), priority := p, stamp := restored.tasks[c].stamp)]
    requires s.waiters[MutexList(o)] != [] ==>
      restored.tasks[s.waiters[MutexList(o)][0]].priority <= restored.tasks[s.current.value].priority
    ensures Strict(restored, Fixed)
  {
    hide UnblockOne, Inherits;
    GiverDrop(s, o);
    UnblockTasks(AfterRelease(s, o), MutexList(o));
    GiveStrict(s, o, woken, restored);
  }

  lemma GiveMutexClosed(s: State, o: nat, g: Regime)
    requires ClosedInv(s, g) && o < |s.objects| && s.objects[o].kind == Mutex && Operable(s)
    ensures ClosedInv(GiveMutex(s, o).0, g)
  {
    hide GiveMutex, UnblockOne, RecomputeInheritedPriority, YieldCurrent, Inherits, Exact, FreeMutexPromised,
      TakersOwnNothing, Core, Strict;
    var c := s.current.value;
    if s.objects[o].owner == s.current {
      GiveMutexShape(s, o);
      GiveWoken(s, o, g);
      var woken := UnblockOne(AfterRelease(s, o), MutexList(o)).0;
      GiverRecomputed(woken, c, g);
      var restored := RecomputeInheritedPriority(woken, c);
      var q := s.waiters[MutexList(o)];
      if q != [] && restored.tasks[q[0]].priority > restored.tasks[c].priority {
        YieldInherits(restored, g);
      } else {
        if g.Fixed? { GiveKept(s, o, woken, restored); } else { NothingStrict(restored); }
      }
    } else {
      GiveRefused(s, o);
    }
  }

  lemma GiverRecomputed(s: State, c: nat, g: Regime)
    requires KernelInv(s) && s.current == Some(c) && !TakesMutex(s.tasks[c])
    requires TakersOwnNothing(s.tasks, s.objects) && Exact(s, Some(c), g) && FreeMutexPromised(s, None, g)
    ensures var r := RecomputeInheritedPriority(s, c);
      && KernelInv(r) && KernelInv(YieldCurrent(r)) && Inherits(r, g) && r.current == s.current
      && r.tasks == s.tasks[c := s.tasks[c].(
           inheritedPriority := Boost(s, c), priority := Max(s.tasks[c].basePriority, Boost(s, c)), stamp := r.tasks[c].stamp)]
  {
    hide YieldCurrent;
    RecomputeInherits(s, c, None, g);
    RecomputeInv(s, c);
    RecomputeQuiet(s, c);
  }

  /** Ending a wait readies that one task and nobody else. */
  lemma EndWaitStates(s: State, t: nat)
    requires InBounds(s) && t < |s.tasks|
    ensures var r := EndWait(s, t);
      && |r.tasks| == |s.tasks| && r.current == s.current && r.tasks[t].state == Ready
      && forall u {:trigger r.tasks[u]} :: 0 <= u < |s.tasks| && u != t ==> r.tasks[u].state == s.tasks[u].state
  {
    hide RecomputeInheritedPriority;
    EndWaitShape(s, t);
    UnlinkTasks(s, t);
    var m := Unlinked(s, t);
    WaitEndedShape(m, t);
    if LosingOwner(m, t).Some? {
      RecomputeStates(m, LosingOwner(m, t).value);
    }
  }

  /** Comparing the aborted task with the caller is enough, although the abort may
      have cost the caller its boost. */
  lemma AbortStrict(s: State, t: nat, r: State)
    requires ClosedInv(s, Fixed) && t < |s.tasks| && InBounds(r) && Lowers(s, r, s.tasks[t].priority) && r.current == s.current
    requires r.tasks[t].priority == s.tasks[t].priority <= r.tasks[s.current.value].priority
    requires forall u {:trigger r.tasks[u]} :: 0 <= u < |s.tasks| && u != t ==> r.tasks[u].state == s.tasks[u].state
    ensures Strict(r, Fixed)
  {
    assert s.tasks[s.current.value].priority <= r.tasks[s.current.value].priority;
    forall u | 0 <= u < |r.tasks| && r.tasks[u].state == Ready ensures r.tasks[u].priority <= r.tasks[s.current.value].priority {
      assert u != t ==> s.tasks[u].state == Ready;
    }
  }

  lemma AbortShape(s: State, t: nat)
    requires InBounds(s) && CurrentRuns(s) && t < |s.tasks|
    requires s.tasks[t].state == Blocked && t in s.delayed
    ensures EndWait(s, t).current == s.current
    ensures var r := EndWait(s, t);
      CurrentRuns(r) && r.tasks[t].priority > r.tasks[s.current.value].priority ==> AbortDelay(s, t).0 == YieldCurrent(r)
    ensures var r := EndWait(s, t);
      CurrentRuns(r) && r.tasks[t].priority <= r.tasks[s.current.value].priority ==> AbortDelay(s, t).0 == r
  {
    hide EndWait, YieldCurrent;
    EndWaitStates(s, t);
  }

  lemma AbortClosed(s: State, t: nat, g: Regime)
    requires ClosedInv(s, g) && t < |s.tasks|
    ensures ClosedInv(AbortDelay(s, t).0, g)
  {
    hide AbortDelay, EndWait, YieldCurrent, Exact, FreeMutexPromised, TakersOwnNothing, Strict;
    AbortInv(s, t);
    if s.tasks[t].state == Blocked && t in s.delayed {
      AbortShape(s, t);
      var r := EndWait(s, t);
      AbortedInv(s, t);
      EndWaitInherits(s, t, g);
      if r.tasks[t].priority > r.tasks[s.current.value].priority {
        YieldInherits(r, g);
      } else {
        EndWaitStates(s, t);
        if g.Fixed? { AbortStrict(s, t, r); } else { NothingStrict(r); }
      }
    } else {
      AbortRefused(s, t);
    }
  }

  lemma AbortedInv(s: State, t: nat)
    requires KernelInv(s) && t < |s.tasks| && s.tasks[t].state == Blocked
    ensures KernelInv(EndWait(s, t))
  {
    EndWaitCore(s, t);
    EndWaitQuiet(s, t);
    QuietInv(s, EndWait(s, t));
  }

  lemma AbortRefused(s: State, t: nat)
    requires InBounds(s) && CurrentRuns(s) && t < |s.tasks| && (s.tasks[t].state != Blocked || t !in s.delayed)
    ensures AbortDelay(s, t).0 == s
  {
  }

  lemma AdvanceInherits(s: State, g: Regime)
    requires KernelInv(s) && Inherits(s, g)
    ensures Core(Advance(s), None) && Inherits(Advance(s), g)
  {
    AdvanceCore(s);
    SameButStatesInherits(s, Advance(s), g);
  }

  lemma TickShape(s: State)
    requires KernelInv(s)
    ensures KernelInv(WakeExpired(Advance(s))) && TickISR(s) == YieldCurrent(WakeExpired(Advance(s)))
  {
    hide WakeExpired, YieldCurrent;
    AdvanceCore(s);
    WakeExpiredInv(Advance(s));
    assert WakeExpired(Advance(s)).tasks[s.current.value].state == Running;
  }

  lemma TickClosed(s: State, g: Regime)
    requires ClosedInv(s, g)
    ensures ClosedInv(TickISR(s), g)
  {
    hide WakeExpired, YieldCurrent, TickISR;
    TickInv(s);
    TickShape(s);
    AdvanceInherits(s, g);
    WakeExpiredInherits(Advance(s), g);
    YieldInherits(WakeExpired(Advance(s)), g);
  }

  /** The running task stops running, by delay or exit, outside every wait list. */
  lemma LeaveInherits(s: State, r: State, g: Regime)
    requires KernelInv(s) && Inherits(s, g) && Core(r, None) && s.tasks[s.current.value].call.NoCall?
    requires r.current == s.current && r.waiters == s.waiters && r.objects == s.objects && r.registry == s.registry
    requires |r.tasks| == |s.tasks| && r.tasks == s.tasks[s.current.value := r.tasks[s.current.value]]
    requires r.tasks[s.current.value].state != Running && !TakesMutex(r.tasks[s.current.value])
    requires r.tasks[s.current.value].priority == s.tasks[s.current.value].priority
    requires r.tasks[s.current.value].inheritedPriority == s.tasks[s.current.value].inheritedPriority
    ensures SwitchContext(r).current.Some? && Inherits(SwitchContext(r), g) && Strict(SwitchContext(r), g)
  {
    hide SwitchContext;
    assert TcbSane(s.tasks[s.current.value], s.objects, s.now);
    SameContentionInherits(s, r, None, g);
    SwitchInherits(r, g);
  }

  lemma DelayClosed(s: State, ticks: nat, g: Regime)
    requires Attempting(s, ticks, s.now + ticks) && ClosedInv(s, g)
    ensures ClosedInv(DelayCurrent(s, ticks), g)
  {
    hide SwitchContext, YieldCurrent, Inherits, Strict;
    DelayInv(s, ticks);
    if ticks == 0 {
      YieldInherits(s, g);
    } else {
      var r := DelayParked(s, ticks);
      LeaveInherits(s, r, g);
    }
  }

  lemma ExitClosed(s: State, g: Regime)
    requires ClosedInv(s, g) && s.current.value != s.idle && s.tasks[s.current.value].call.NoCall?
    ensures ClosedInv(ExitTask(s), g)
  {
    hide SwitchContext, Inherits, Strict;
    ExitInv(s);
    ExitCore(s);
    assert TcbSane(s.tasks[s.current.value], s.objects, s.now);
    LeaveInherits(s, WithTask(s, s.current.value, s.tasks[s.current.value].(state := Deleted)), g);
  }

  /** Clearing the caller's wait uses up its own promise at most. */
  lemma ClearExact(s: State, t: nat, g: Regime)
    requires InBounds(s) && s.current.Some? && Exact(s, None, g) && t < |s.tasks|
    requires ObjectsSane(s.objects, s.registry)
    ensures ExactFor(ClearWaitState(s, s.current.value), t, g)
  {
    SameBoost(s, ClearWaitState(s, s.current.value), t);
    assert ExactFor(s, t, g);
  }

  lemma ClearExactAll(s: State, g: Regime)
    requires ClosedInv(s, g)
    ensures var r := ClearWaitState(s, s.current.value); Exact(r, None, g) && TakersOwnNothing(r.tasks, r.objects)
  {
    hide ExactFor;
    forall t | 0 <= t < |s.tasks| ensures ExactFor(ClearWaitState(s, s.current.value), t, g) { ClearExact(s, t, g); }
  }

  lemma ClearPromised(s: State, except: Option<nat>, g: Regime)
    requires InBounds(s) && s.current.Some? && FreeMutexPromised(s, None, g)
    requires forall o: nat {:trigger MutexList(o)} ::
      o < |s.objects| && s.objects[o].kind == Mutex && IsWoken(s.tasks[s.current.value], MutexList(o)) ==>
      except == Some(o)
    ensures FreeMutexPromised(ClearWaitState(s, s.current.value), except, g)
  {
    var r := ClearWaitState(s, s.current.value);
    forall o: nat | g.Fixed? && o < |r.objects| && except != Some(o) && Unclaimed(r, o)
      ensures Promised(r.tasks, MutexList(o), HeadPriority(r, o))
    {
      assert Unclaimed(s, o);
      var w :| 0 <= w < |s.tasks| && IsWoken(s.tasks[w], MutexList(o)) && s.tasks[w].priority >= HeadPriority(s, o);
      assert IsWoken(r.tasks[w], MutexList(o));
    }
  }

  lemma ClearStrict(s: State, g: Regime)
    requires InBounds(s) && s.current.Some? && Strict(s, g)
    ensures Strict(ClearWaitState(s, s.current.value), g)
  {
  }

  lemma ClearMayTake(s: State, o: nat, g: Regime)
    requires ClosedInv(s, g) && s.tasks[s.current.value].call.InTake? && s.tasks[s.current.value].call.obj == o
    ensures o < |s.objects| && s.objects[o].kind != QueueData && MayTake(ClearWaitState(s, s.current.value), o, g)
  {
    hide FreeMutexPromised, Exact, TakersOwnNothing, Strict;
    assert TcbSane(s.tasks[s.current.value], s.objects, s.now);
    ClearInv(s);
    ClearStrict(s, g);
    ClearExactAll(s, g);
    ClearPromised(s, Some(o), g);
    if g.Fixed? && Unclaimed(s, o) { PromisedBelowCurrent(s, o); }
  }

  lemma ClearClosed(s: State, g: Regime)
    requires ClosedInv(s, g)
    requires s.tasks[s.current.value].call.InTake? ==> !s.tasks[s.current.value].waitResult
    ensures ClosedInv(ClearWaitState(s, s.current.value), g)
  {
    hide FreeMutexPromised, Exact, TakersOwnNothing;
    assert TcbSane(s.tasks[s.current.value], s.objects, s.now);
    ClearInv(s);
    ClearStrict(s, g);
    ClearExactAll(s, g);
    ClearNotWoken(s);
    ClearPromised(s, None, g);
  }

  lemma ClearNotWoken(s: State)
    requires KernelInv(s) && (s.tasks[s.current.value].call.InTake? ==> !s.tasks[s.current.value].waitResult)
    ensures forall o: nat {:trigger MutexList(o)} ::
      o < |s.objects| && s.objects[o].kind == Mutex ==> !IsWoken(s.tasks[s.current.value], MutexList(o))
  {
    assert TcbSane(s.tasks[s.current.value], s.objects, s.now);
  }

  /** A woken taker owns no mutex. */
  lemma TakerOwnsNone(s: State, o: nat, g: Regime)
    requires ClosedInv(s, g) && s.tasks[s.current.value].call.InTake? && s.tasks[s.current.value].call.obj == o
    requires o < |s.objects| && s.objects[o].kind == Mutex
    ensures !OwnsMutex(ClearWaitState(s, s.current.value), s.current.value)
  {
    assert TcbSane(s.tasks[s.current.value], s.objects, s.now);
  }

  lemma ResumeTakeClosed(s: State, o: nat, due: nat, g: Regime)
    requires ClosedInv(s, g) && Enabled(s, Resume) && s.tasks[s.current.value].call == InTake(o, due)
    requires s.tasks[s.current.value].waitResult
    ensures Operable(s) && ClosedInv(ResumeCall(s).0, g)
  {
    hide TakeAttempt, MayTake, Inherits, Strict;
    CoreOperable(s, None);
    ClearMayTake(s, o, g);
    ClearInv(s);
    if s.objects[o].kind == Mutex { TakerOwnsNone(s, o, g); }
    RemainingExact(s, s.current.value);
    assert TcbSane(s.tasks[s.current.value], s.objects, s.now);
    TakeClosed(ClearWaitState(s, s.current.value), o, WaitRemaining(s, s.current.value), due, g);
  }

  lemma ResumeClosed(s: State, g: Regime)
    requires ClosedInv(s, g) && Enabled(s, Resume)
    ensures Operable(s) && ClosedInv(ResumeCall(s).0, g)
  {
    hide SendAttempt, ReceiveAttempt, TakeAttempt, Inherits, Strict;
    var t := s.current.value;
    var tcb := s.tasks[t];
    CoreOperable(s, None);
    assert TcbSane(tcb, s.objects, s.now);
    if tcb.call.InTake? && tcb.waitResult {
      ResumeTakeClosed(s, tcb.call.obj, tcb.call.due, g);
    } else {
      ClearClosed(s, g);
      if CallList(tcb.call).Some? && tcb.waitResult {
        RemainingExact(s, t);
        var remaining := WaitRemaining(s, t);
        var cleared := ClearWaitState(s, t);
        assert Attempting(cleared, remaining, tcb.call.due);
        match tcb.call
        case InSend(o, item, due) => SendClosed(cleared, o, item, remaining, due, g);
        case InReceive(o, due) => ReceiveClosed(cleared, o, remaining, due, g);
        case _ =>
      }
    }
  }

  lemma TakeStepClosed(s: State, o: nat, ticks: nat, g: Regime)
    requires ClosedInv(s, g) && ClosedStep(s, Take(o, ticks), g) && s.objects[o].kind != QueueData
    ensures Operable(s) && ClosedInv(TakeAttempt(s, o, ticks, s.now + ticks).0, g)
  {
    hide TakeAttempt, ExactFor, FreeMutexPromised, TakersOwnNothing, AllSane, ObjectsSane, IdleReady, NoSelfWait,
      WaitersOrdered, DelayOrdered, ReadyPlaced, DelayPlaced, EventPlaced, RunningPlaced;
    PromisedWeaken(s, Some(o), g);
    if g.Fixed? && Unclaimed(s, o) { PromisedBelowCurrent(s, o); }
    TakeClosed(s, o, ticks, s.now + ticks, g);
  }

  lemma QueueStepClosed(s: State, step: Step, g: Regime)
    requires ClosedInv(s, g) && Enabled(s, step) && Operable(s) && (step.Send? || step.Receive?)
    ensures ClosedInv(Next(s, step), g)
  {
    hide SendAttempt, ReceiveAttempt, Inherits, Strict, AllSane, ObjectsSane, IdleReady, NoSelfWait, WaitersOrdered,
      DelayOrdered, ReadyPlaced, DelayPlaced, EventPlaced, RunningPlaced, Linked;
    if s.objects[step.queue].kind == QueueData {
      match step
      case Send(q, item, ticks) => SendClosed(s, q, item, ticks, s.now + ticks, g);
      case Receive(q, ticks) => ReceiveClosed(s, q, ticks, s.now + ticks, g);
    }
  }

  lemma SemaphoreStepClosed(s: State, step: Step, g: Regime)
    requires ClosedInv(s, g) && ClosedStep(s, step, g) && Operable(s) && (step.Take? || step.Give?)
    ensures ClosedInv(Next(s, step), g)
  {
    hide TakeAttempt, GiveMutex, GiveSemaphore, Inherits, Strict, AllSane, ObjectsSane, IdleReady, NoSelfWait, WaitersOrdered,
      DelayOrdered, ReadyPlaced, DelayPlaced, EventPlaced, RunningPlaced, Linked;
    var o := step.semaphore;
    if s.objects[o].kind != QueueData {
      match step
      case Take(_, ticks) => TakeStepClosed(s, o, ticks, g);
      case Give(_) => if s.objects[o].kind == Mutex { GiveMutexClosed(s, o, g); } else { GiveSemaphoreClosed(s, o, g); }
    }
  }

  /** A new priority for a task outside the mutexes' wait lists boosts nobody and leaves
      no boost behind. */
  lemma PrioritySetClosed(s: State, t: nat, p: Priority)
    requires ClosedInv(s, Adjustable) && t < |s.tasks| && !InMutexList(s.tasks[t])
    ensures ClosedInv(PrioritySet(s, t, p), Adjustable)
  {
    hide PrioritySet, SetEffectivePriority, WaitersOrdered, DelayOrdered, ReadyPlaced, DelayPlaced, IdleReady, NoSelfWait;
    var r := PrioritySet(s, t, p);
    PrioritySetInv(s, t, p);
    AdjustContention(s, t, p, s.tasks[t].inheritedPriority, None);
    PrioritySetShape(s, t, p);
    forall x | 0 <= x < |r.tasks| ensures ExactFor(r, x, Adjustable) {
      SameBoost(s, r, x);
      assert ExactFor(s, x, Adjustable);
    }
  }

  lemma PrioritySetShape(s: State, t: nat, p: Priority)
    requires InBounds(s) && t < |s.tasks|
    ensures var inherited := s.tasks[t].inheritedPriority;
      var tcb := s.tasks[t].(basePriority := p, inheritedPriority := inherited);
      && WithTask(s, t, tcb) == WithTask(s, t, s.tasks[t].(basePriority := p))
      && PrioritySet(s, t, p) == SetEffectivePriority(WithTask(s, t, tcb), t, Max(p, inherited))
  {
  }

  /** Every step of a closed system leaves no boost behind, and with fixed priorities
      keeps inheritance exact and the order strict. */
  lemma NextClosed(s: State, step: Step, g: Regime)
    requires ClosedInv(s, g) && ClosedStep(s, step, g)
    ensures Operable(s) && ClosedInv(Next(s, step), g)
  {
    hide SendAttempt, ReceiveAttempt, TakeAttempt, GiveMutex, GiveSemaphore, DelayCurrent, AbortDelay, YieldCurrent,
      PrioritySet, ExitTask, ResumeCall, TickISR, Inherits, Strict;
    CoreOperable(s, None);
    match step
    case Delay(ticks) => DelayClosed(s, ticks, g);
    case Abort(t) => AbortClosed(s, t, g);
    case Yield => YieldInv(s); YieldInherits(s, g);
    case SetPriority(t, p) => PrioritySetClosed(s, t, p);
    case Exit => ExitClosed(s, g);
    case Resume => ResumeClosed(s, g);
    case Tick => TickClosed(s, g);
    case Send(_, _, _) => QueueStepClosed(s, step, g);
    case Receive(_, _) => QueueStepClosed(s, step, g);
    case Take(_, _) => SemaphoreStepClosed(s, step, g);
    case Give(_) => SemaphoreStepClosed(s, step, g);
  }
}
