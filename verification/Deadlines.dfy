/** The 32-bit clock against the unbounded one: a tick wakes exactly the tasks whose
    true deadline it is, and a retry never shifts its caller's deadline. */
module Deadlines {
  import opened Ticks
  import opened Lists
  import opened KernelState
  import opened TaskModel
  import opened QueueRing
  import opened QueueModel
  import opened Kernel
  import opened Placement
  import opened Order
  import opened CoreInvariant
  import opened Steps
  import opened Inheritance
  import opened ClosedSystem
  import opened Effects

  /** The drain takes off the list only tasks that are due. */
  lemma {:induction false} WakeExpiredKeeps(s: State, t: nat)
    requires Core(s, None) && t in s.delayed && s.now < s.tasks[t].deadline
    ensures t in WakeExpired(s).delayed
    decreases |s.delayed|
  {
    hide EndWait;
    if TickReached(s.tick, s.tasks[s.delayed[0]].wakeTick) {
      var head := s.delayed[0];
      assert head in s.delayed;
      SignedDifferenceExact(s.now, s.tasks[head].deadline);
      EndWaitCore(s, head);
      EndWaitQuiet(s, head);
      RemoveMembers(s.delayed, head);
      assert EndWait(s, head).tasks[t].deadline == s.tasks[t].deadline;
      WakeExpiredKeeps(EndWait(s, head), t);
    }
  }

  lemma EndWaitResult(s: State, t: nat, u: nat)
    requires InBounds(s) && t < |s.tasks| && u < |s.tasks|
    ensures EndWait(s, t).tasks[u].waitResult ==> s.tasks[u].waitResult
  {
    hide RecomputeInheritedPriority;
    EndWaitShape(s, t);
    UnlinkTasks(s, t);
    var m := Unlinked(s, t);
    WaitEndedShape(m, t);
    if LosingOwner(m, t).Some? {
      RecomputeResult(m, LosingOwner(m, t).value, u);
    }
  }

  lemma RecomputeResult(s: State, t: nat, u: nat)
    requires InBounds(s) && t < |s.tasks| && u < |s.tasks|
    ensures RecomputeInheritedPriority(s, t).tasks[u].waitResult == s.tasks[u].waitResult
  {
    var p := MaxWaiter(s, s.registry, t, IDLE_PRIORITY);
    var tcb := s.tasks[t].(inheritedPriority := p);
    SetEffectivePriorityEffect(WithTask(s, t, tcb), t, Max(tcb.basePriority, p));
  }

  lemma {:induction false} WakeExpiredResult(s: State, u: nat)
    requires InBounds(s) && u < |s.tasks|
    ensures WakeExpired(s).tasks[u].waitResult ==> s.tasks[u].waitResult
    decreases |s.delayed|
  {
    if s.delayed != [] && TickReached(s.tick, s.tasks[s.delayed[0]].wakeTick) {
      EndWaitResult(s, s.delayed[0], u);
      WakeExpiredResult(EndWait(s, s.delayed[0]), u);
    }
  }

  /** The delay list after a tick holds exactly the waits whose deadline lies ahead. */
  lemma DrainExact(s: State, t: nat)
    requires KernelInv(s) && t in s.delayed
    ensures var r := WakeExpired(Advance(s));
      && (t in r.delayed <==> s.now + 1 < s.tasks[t].deadline)
      && (t in r.delayed ==> r.tasks[t].state == Blocked)
      && (t !in r.delayed ==> s.tasks[t].deadline == s.now + 1 && r.tasks[t].state == Ready && !r.tasks[t].waitResult)
  {
    hide WakeExpired;
    AdvanceCore(s);
    var a := Advance(s);
    WakeExpiredInv(a);
    var r := WakeExpired(a);
    WakeExpiredResult(a, t);
    if s.now + 1 < s.tasks[t].deadline {
      WakeExpiredKeeps(a, t);
    }
    assert TcbSane(s.tasks[t], s.objects, s.now);
    if t !in r.delayed { DrainedReady(s, t); }
    assert t in r.delayed ==> r.tasks[t].deadline == s.tasks[t].deadline;
  }

  /** Draining makes tasks ready; it starts none and deletes none. */
  lemma DrainedReady(s: State, t: nat)
    requires KernelInv(s) && t in s.delayed && t !in WakeExpired(Advance(s)).delayed
    ensures WakeExpired(Advance(s)).tasks[t].state == Ready
  {
    AdvanceCore(s);
    WakeExpiredInv(Advance(s));
    WakeExpiredStates(Advance(s), t);
  }

  lemma {:induction false} WakeExpiredStates(s: State, t: nat)
    requires Core(s, None) && t < |s.tasks| && (s.tasks[t].state == Blocked || s.tasks[t].state == Ready)
    ensures var r := WakeExpired(s); r.tasks[t].state == Blocked || r.tasks[t].state == Ready
    decreases |s.delayed|
  {
    hide EndWait;
    if s.delayed != [] && TickReached(s.tick, s.tasks[s.delayed[0]].wakeTick) {
      assert s.delayed[0] in s.delayed;
      EndWaitCore(s, s.delayed[0]);
      EndWaitStates(s, s.delayed[0]);
      WakeExpiredStates(EndWait(s, s.delayed[0]), t);
    }
  }

  lemma YieldDelayed(s: State, t: nat)
    requires KernelInv(s) && t < |s.tasks|
    ensures var r := YieldCurrent(s);
      && r.delayed == s.delayed && |r.tasks| == |s.tasks|
      && (r.tasks[t].state == Blocked <==> s.tasks[t].state == Blocked)
      && r.tasks[t].waitResult == s.tasks[t].waitResult
  {
    PreemptCore(s);
    var c := s.current.value;
    SwitchContextCore(ReadyListInsert(WithTask(s, c, s.tasks[c].(state := Ready)), c));
  }

  /** A tick wakes exactly the waits whose unbounded deadline is the new instant, and
      tells them that their event did not come. Nobody else's wait is touched. */
  lemma TickWakesExactly(s: State, t: nat)
    requires KernelInv(s) && t < |s.tasks| && s.tasks[t].state == Blocked
    ensures var r := TickISR(s);
      && t < |r.tasks| && r.now == s.now + 1
      && (r.tasks[t].state == Blocked <==> s.tasks[t].deadline != s.now + 1)
      && (t in r.delayed <==> s.tasks[t].deadline > s.now + 1)
      && (s.tasks[t].deadline == s.now + 1 ==> !r.tasks[t].waitResult)
  {
    hide WakeExpired, YieldCurrent;
    AdvanceCore(s);
    TickShape(s);
    WakeExpiredInv(Advance(s));
    assert t in s.delayed;
    DrainExact(s, t);
    YieldDelayed(WakeExpired(Advance(s)), t);
    TickNow(s);
  }

  lemma TickNow(s: State)
    requires KernelInv(s)
    ensures TickISR(s).now == s.now + 1
  {
    hide WakeExpired;
    TickShape(s);
    AdvanceCore(s);
    WakeExpiredInv(Advance(s));
  }

  /** The task's own call survives the switch away from it. */
  lemma SwitchKeepsCall(s: State, t: nat)
    requires Core(s, None) && s.current.Some? && s.tasks[s.current.value].state != Running && t < |s.tasks|
    ensures var r := SwitchContext(s);
      r.tasks[t].call == s.tasks[t].call && r.tasks[t].deadline == s.tasks[t].deadline
      && (s.tasks[t].state == Blocked ==> r.tasks[t].state == Blocked)
  {
    SwitchContextCore(s);
  }

  ghost predicate WaitsUntil(s: State, t: nat, call: Call, deadline: nat) {
    t < |s.tasks| && s.tasks[t].state == Blocked && s.tasks[t].call == call && s.tasks[t].deadline == deadline
  }

  /** A caller that is woken and loses the race waits again, for the rest of its own
      timeout and not a tick longer. */
  lemma RetryKeepsDeadline(s: State)
    requires KernelInv(s) && Enabled(s, Resume)
    ensures Operable(s)
    ensures var (r, outcome) := ResumeCall(s); var t := s.current.value;
      outcome == Suspended ==> s.now < s.tasks[t].deadline && WaitsUntil(r, t, s.tasks[t].call, s.tasks[t].deadline)
  {
    hide ResumeCall, Scheduled, Retried;
    ResumeEffect(s);
  }

  /** vTaskDelayUntil without drift: `next` is one increment after the previous wake time,
      whatever the counter did in between. The ticks handed to vTaskDelay lead exactly to
      it, or are 0 if it has passed, and meet vTaskDelay's bound, if and only if it is less
      than INT32_MAX ahead and not missed by half the tick range. */
  lemma DelayUntilExactIff(s: State, previous: nat, increment: nat)
    requires s.tick == Wrap(s.now)
    ensures var next := previous + increment; var ticks := UntilTicks(s, Wrap(Wrap(previous) + increment));
      (s.now + ticks == if s.now < next then next else s.now) && ticks < INT32_MAX
      <==> next < s.now + INT32_MAX && ReadsInTime(s.now, next)
  {
    var next := previous + increment;
    WrapAdd(previous, increment);
    WrapDifference(next, s.now);
    WrapDifference(s.now, next);
    if s.now < next < s.now + INT32_MAX {
      SignedDifferenceExact(s.now, next);
    } else if next <= s.now {
      NegatedModulo(s.now - next);
    }
  }

  /** The bound of vTaskDelay alone: it is missed exactly if the next wake time lies
      INT32_MAX or half the tick range ahead, modulo the range. */
  lemma DelayUntilAllowedIff(s: State, previous: nat, increment: nat)
    requires s.tick == Wrap(s.now)
    ensures UntilTicks(s, Wrap(Wrap(previous) + increment)) < INT32_MAX
      <==> (previous + increment - s.now) % TICK_RANGE != INT32_MAX && (previous + increment - s.now) % TICK_RANGE != HALF_RANGE
  {
    WrapAdd(previous, increment);
    WrapDifference(previous + increment, s.now);
    WrapDifference(s.now, previous + increment);
    Negated(previous + increment - s.now);
  }

  lemma Negated(x: int)
    ensures (-x) % TICK_RANGE == if x % TICK_RANGE == 0 then 0 else TICK_RANGE - x % TICK_RANGE
  {
    var q := x / TICK_RANGE;
    assert -x == -(x % TICK_RANGE) + (-q) * TICK_RANGE;
    ModuloShift(-(x % TICK_RANGE), -q);
  }

  /** From a previous wake time that does not lie ahead, vTaskDelay's bound is met. After
      an aborted delay it lies ahead, and the bound can be missed. */
  lemma DelayUntilFromThePast(s: State, previous: nat, increment: nat)
    requires s.tick == Wrap(s.now) && increment < INT32_MAX && s.now - HALF_RANGE < previous + increment && previous <= s.now
    ensures UntilTicks(s, Wrap(Wrap(previous) + increment)) < INT32_MAX
  {
    DelayUntilAllowedIff(s, previous, increment);
  }

  lemma DelayUntilTooFar(s: State)
    requires s.now == 10 && s.tick == 10
    ensures UntilTicks(s, Wrap(10 + 0x4000_0000 + 0x4000_0000)) == HALF_RANGE
  {
  }
}
