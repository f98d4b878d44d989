/** How waits end, over whole runs. */
module Waits {
  import opened Ticks
  import opened Lists
  import opened KernelState
  import opened TaskModel
  import opened QueueRing
  import opened QueueModel
  import opened Kernel
  import opened Placement
  import opened CoreInvariant
  import opened Steps
  import opened Wakeups
  import opened Inheritance
  import opened ClosedSystem
  import opened Effects
  import opened Rings
  import opened Deadlines
  import opened Runs

  /** From `m` to `n` task `t` is neither aborted nor back in its call. */
  ghost predicate Undisturbed(trace: seq<State>, steps: seq<Step>, m: nat, n: nat, t: nat)
    requires Behaves(trace, steps)
  {
    forall i {:trigger steps[i]} :: m <= i < n <= |steps| ==> Interrupted(trace[i], steps[i]) != Some(t)
  }

  lemma MoveCarries(s: State, step: Step, r: State, t: nat)
    requires KernelInv(s) && Moves(s, step, r) && t < |s.tasks| && !s.tasks[t].call.NoCall?
    requires Interrupted(s, step) != Some(t)
    ensures t < |r.tasks| && Carries(s.tasks[t], r.tasks[t], r.now) && s.now <= r.now
  {
    hide Next, KernelInv, ObjectsAfter;
    NextEffect(s, step);
  }

  lemma BlockedInCall(s: State, t: nat)
    requires KernelInv(s) && t < |s.tasks| && s.tasks[t].state == Blocked
    ensures !s.tasks[t].call.NoCall? && !s.tasks[t].waitResult && s.now < s.tasks[t].deadline
  {
    assert TcbSane(s.tasks[t], s.objects, s.now);
    assert t in s.delayed;
  }

  /** A wait ends by its event, by an abort, or at its unbounded deadline, never before
      and never after it, across any number of wraps of the counter. */
  lemma {:induction false} WaitEndsOnTime(trace: seq<State>, steps: seq<Step>, m: nat, n: nat, t: nat)
    requires Behaves(trace, steps) && Reachable(trace[0]) && m <= n <= |steps|
    requires t < |trace[m].tasks| && trace[m].tasks[t].state == Blocked && Undisturbed(trace, steps, m, n, t)
    ensures t < |trace[n].tasks| && !trace[m].tasks[t].call.NoCall?
    ensures var before, after := trace[m].tasks[t], trace[n].tasks[t];
      && after.call == before.call && after.deadline == before.deadline
      && (after.state == Blocked ==> trace[n].now < before.deadline)
      && (after.state != Blocked ==> after.waitResult || before.deadline <= trace[n].now)
  {
    hide Reachable, KernelInv, NoLostWakeup, RingsKept, ClosedInv, Moves, Interrupted;
    ReachableInv(trace[0]);
    TraceKeeps(trace, steps, n, Fixed);
    if m < n {
      WaitEndsOnTime(trace, steps, m, n - 1, t);
      TraceKeeps(trace, steps, n - 1, Fixed);
      assert Moves(trace[n - 1], steps[n - 1], trace[n - 1 + 1]);
      MoveCarries(trace[n - 1], steps[n - 1], trace[n], t);
    }
    if trace[n].tasks[t].state == Blocked { BlockedInCall(trace[n], t); }
  }

  /** A task delayed by vTaskDelay sleeps exactly until its deadline. */
  lemma DelaySleepsExactly(trace: seq<State>, steps: seq<Step>, m: nat, n: nat, t: nat)
    requires Behaves(trace, steps) && Reachable(trace[0]) && m <= n <= |steps|
    requires t < |trace[m].tasks| && trace[m].tasks[t].state == Blocked && trace[m].tasks[t].call == InDelay
    requires Undisturbed(trace, steps, m, n, t)
    ensures t < |trace[n].tasks|
    ensures trace[n].tasks[t].state == Blocked <==> trace[n].now < trace[m].tasks[t].deadline
  {
    hide Reachable, NoLostWakeup, RingsKept, ClosedInv, Moves, Interrupted;
    WaitEndsOnTime(trace, steps, m, n, t);
    ReachableInv(trace[0]);
    TraceKeeps(trace, steps, n, Fixed);
    assert TcbSane(trace[n].tasks[t], trace[n].objects, trace[n].now);
  }

  lemma DelayDeadline(s: State, ticks: nat)
    requires KernelInv(s) && Operable(s) && Enabled(s, Delay(ticks)) && ticks > 0
    ensures var r := Next(s, Delay(ticks)); WaitsUntil(r, s.current.value, InDelay, s.now + ticks)
  {
    hide SwitchContext, DelayCurrent;
    var r := DelayParked(s, ticks);
    SwitchKeepsCall(r, s.current.value);
  }

  /** vTaskDelayUntil without drift: unless the next wake time is missed or INT32_MAX
      ahead, the caller sleeps until exactly one increment after the previous one. */
  lemma DelayUntilWakes(trace: seq<State>, steps: seq<Step>, n: nat, t: nat, previous: nat, increment: nat)
    requires Behaves(trace, steps) && Reachable(trace[0]) && 1 <= n <= |steps| && trace[0].current == Some(t)
    requires steps[0] == Delay(UntilTicks(trace[0], Wrap(Wrap(previous) + increment)))
    requires trace[0].now < previous + increment < trace[0].now + INT32_MAX && Undisturbed(trace, steps, 1, n, t)
    ensures t < |trace[n].tasks|
    ensures trace[n].tasks[t].state == Blocked <==> trace[n].now < previous + increment
  {
    hide Reachable, KernelInv, NoLostWakeup, RingsKept, Interrupted, Next;
    ReachableInv(trace[0]);
    assert Moves(trace[0], steps[0], trace[1]);
    assert trace[0].tick == Wrap(trace[0].now) by { ClockShown(trace[0]); }
    DelayUntilExactIff(trace[0], previous, increment);
    DelayDeadline(trace[0], UntilTicks(trace[0], Wrap(Wrap(previous) + increment)));
    DelaySleepsExactly(trace, steps, 1, n, t);
  }

  lemma ClockShown(s: State)
    requires KernelInv(s)
    ensures s.tick == Wrap(s.now)
  {
  }

  // ---------- who is woken ----------

  /** The wait list from which a step that passes wakes a task. */
  function Serves(s: State, step: Step): Option<ListId> {
    match step
    case Send(o, _, _) => if HasRoom(s, o) then Some(ListId(o, ReceiveSide)) else None
    case Receive(o, _) => if HasItem(s, o) then Some(ListId(o, SendSide)) else None
    case Give(o) => if Gives(s, o) then Some(ListId(o, ReceiveSide)) else None
    case Resume =>
      if s.current.None? || s.current.value >= |s.tasks| || !s.tasks[s.current.value].waitResult then None
      else
        var tcb := s.tasks[s.current.value];
        if tcb.call.InSend? && HasRoom(s, tcb.call.obj) then Some(ListId(tcb.call.obj, ReceiveSide))
        else if tcb.call.InReceive? && HasItem(s, tcb.call.obj) then Some(ListId(tcb.call.obj, SendSide))
        else None
    case _ => None
  }

  predicate HasRoom(s: State, o: nat) {
    o < |s.objects| && s.objects[o].kind == QueueData && s.objects[o].count < s.objects[o].length
  }

  predicate HasItem(s: State, o: nat) {
    o < |s.objects| && s.objects[o].kind == QueueData && s.objects[o].count > 0
  }

  predicate Gives(s: State, o: nat) {
    && o < |s.objects| && s.objects[o].kind != QueueData
    && if s.objects[o].kind == Mutex then s.objects[o].owner == s.current else s.objects[o].count < s.objects[o].maxCount
  }

  /** The head of the former wait list `q`, and nobody else in it, has been woken. */
  ghost predicate HeadServed(q: seq<nat>, l: ListId, r: State) {
    q != [] ==>
      && q[0] < |r.tasks| && r.tasks[q[0]].waitResult && r.tasks[q[0]].state != Blocked
      && l in r.waiters && r.waiters[l] == q[1..]
  }

  lemma UnblockServes(s: State, l: ListId)
    requires KernelInv(s) && l in s.waiters
    ensures Linked(s.tasks, s.waiters) && HeadServed(s.waiters[l], l, UnblockOne(s, l).0)
  {
    PlacedLinked(s, None);
    if s.waiters[l] != [] {
      UnblockOneEffect(s, l);
      RemoveHead(s.waiters[l]);
    }
  }

  lemma YieldServed(q: seq<nat>, l: ListId, m: State)
    requires KernelInv(m) && HeadServed(q, l, m)
    ensures HeadServed(q, l, YieldCurrent(m))
  {
    PreemptCore(m);
    var c := m.current.value;
    SwitchContextCore(ReadyListInsert(WithTask(m, c, m.tasks[c].(state := Ready)), c));
  }

  lemma SwitchServes(s: State, l: ListId)
    requires KernelInv(s) && l in s.waiters
    ensures Linked(s.tasks, s.waiters) && HeadServed(s.waiters[l], l, UnblockAndSwitch(s, l))
  {
    hide UnblockOne, YieldCurrent, HeadServed;
    WakeInv(s, l);
    UnblockServes(s, l);
    YieldServed(s.waiters[l], l, UnblockOne(s, l).0);
  }

  lemma ObjectServes(s: State, o: nat, obj: Object, l: ListId)
    requires KernelInv(s) && o < |s.objects| && ObjectShape(obj) && l in s.waiters
    requires obj.kind == s.objects[o].kind && obj.itemSize == s.objects[o].itemSize && obj.owner == s.objects[o].owner
    ensures var m := s.(objects := s.objects[o := obj]);
      Linked(m.tasks, m.waiters) && InBounds(m) && HeadServed(s.waiters[l], l, UnblockAndSwitch(m, l))
  {
    hide UnblockAndSwitch, HeadServed;
    ObjectInv(s, o, obj);
    SwitchServes(s.(objects := s.objects[o := obj]), l);
  }

  lemma SendServes(s: State, o: nat, item: seq<Byte>, ticks: nat, due: nat)
    requires KernelInv(s) && Operable(s) && HasRoom(s, o) && |item| == s.objects[o].itemSize
    ensures HeadServed(s.waiters[ListId(o, ReceiveSide)], ListId(o, ReceiveSide), SendAttempt(s, o, item, ticks, due).0)
  {
    hide UnblockAndSwitch, HeadServed;
    assert ObjectShape(s.objects[o]);
    ObjectServes(s, o, CopyIn(s.objects[o], item), ListId(o, ReceiveSide));
  }

  lemma ReceiveServes(s: State, o: nat, ticks: nat, due: nat)
    requires KernelInv(s) && Operable(s) && HasItem(s, o)
    ensures HeadServed(s.waiters[ListId(o, SendSide)], ListId(o, SendSide), ReceiveAttempt(s, o, ticks, due).0)
  {
    hide UnblockAndSwitch, HeadServed;
    assert ObjectShape(s.objects[o]);
    ObjectServes(s, o, CopyOut(s.objects[o]), ListId(o, SendSide));
  }

  lemma RecomputeServed(q: seq<nat>, l: ListId, m: State)
    requires KernelInv(m) && HeadServed(q, l, m)
    ensures HeadServed(q, l, RecomputeInheritedPriority(m, m.current.value))
  {
    var u := m.current.value;
    var p := MaxWaiter(m, m.registry, u, IDLE_PRIORITY);
    var tcb := m.tasks[u].(inheritedPriority := p);
    SetEffectivePriorityEffect(WithTask(m, u, tcb), u, Max(tcb.basePriority, p));
  }

  lemma GiveServes(s: State, o: nat)
    requires KernelInv(s) && Operable(s) && Gives(s, o)
    ensures var r := if s.objects[o].kind == Mutex then GiveMutex(s, o).0 else GiveSemaphore(s, o).0;
      HeadServed(s.waiters[ListId(o, ReceiveSide)], ListId(o, ReceiveSide), r)
  {
    hide UnblockAndSwitch, UnblockOne, RecomputeInheritedPriority, YieldCurrent, GiveMutex, HeadServed;
    var l := ListId(o, ReceiveSide);
    assert ObjectShape(s.objects[o]);
    if s.objects[o].kind == Mutex {
      GiveMutexShape(s, o);
      ObjectWakeInv(s, o, Released(s.objects[o]), l);
      var woken := UnblockOne(AfterRelease(s, o), l).0;
      UnblockServes(AfterRelease(s, o), l);
      UnblockOneQuiet(AfterRelease(s, o), l);
      RecomputeServed(s.waiters[l], l, woken);
      RecomputeInv(woken, s.current.value);
      YieldServed(s.waiters[l], l, RecomputeInheritedPriority(woken, s.current.value));
    } else {
      ObjectServes(s, o, TokenGiven(s.objects[o]), l);
    }
  }

  lemma ResumeServes(s: State)
    requires KernelInv(s) && Operable(s) && Enabled(s, Resume) && Serves(s, Resume).Some?
    ensures var l := Serves(s, Resume).value; l in s.waiters && HeadServed(s.waiters[l], l, ResumeCall(s).0)
  {
    hide SendAttempt, ReceiveAttempt, TakeAttempt, HeadServed;
    var t := s.current.value;
    var tcb := s.tasks[t];
    ClearInv(s);
    var cleared := ClearWaitState(s, t);
    CoreOperable(cleared, None);
    assert TcbSane(tcb, s.objects, s.now);
    var remaining := WaitRemaining(s, t);
    match tcb.call {
      case InSend(o, item, due) => SendServes(cleared, o, item, remaining, due);
      case InReceive(o, due) => ReceiveServes(cleared, o, remaining, due);
      case _ =>
    }
  }

  lemma StepServes(s: State, step: Step)
    requires KernelInv(s) && Operable(s) && Enabled(s, step) && Serves(s, step).Some?
    ensures var l := Serves(s, step).value; l in s.waiters && HeadServed(s.waiters[l], l, Next(s, step))
  {
    hide SendAttempt, ReceiveAttempt, GiveMutex, GiveSemaphore, ResumeCall, HeadServed;
    match step
    case Send(o, item, ticks) => SendServes(s, o, item, ticks, s.now + ticks);
    case Receive(o, ticks) => ReceiveServes(s, o, ticks, s.now + ticks);
    case Give(o) => GiveServes(s, o);
    case Resume => ResumeServes(s);
  }

  /** Whenever a send, receive or give passes, it wakes the longest queued of the
      strongest waiters, and nobody else in the list. */
  lemma StrongestIsServed(s: State, step: Step, r: State, l: ListId)
    requires Reachable(s) && Moves(s, step, r) && Serves(s, step) == Some(l)
    ensures l in s.waiters && AllBelow(s.waiters[l], |s.tasks|) && HeadServed(s.waiters[l], l, r)
    ensures forall i :: 0 < i < |s.waiters[l]| ==>
      var first, other := s.tasks[s.waiters[l][0]], s.tasks[s.waiters[l][i]];
      first.priority > other.priority || (first.priority == other.priority && first.stamp < other.stamp)
  {
    hide Reachable, HeadServed, Serves, Next;
    ReachableInv(s);
    StepServes(s, step);
    forall i | 0 < i < |s.waiters[l]|
      ensures var first, other := s.tasks[s.waiters[l][0]], s.tasks[s.waiters[l][i]];
        first.priority > other.priority || (first.priority == other.priority && first.stamp < other.stamp)
    {
      WaitersInOrder(s, l, 0, i);
    }
  }
}
