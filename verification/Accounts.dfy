/** Units over whole runs: tokens of semaphores, mutexes, and messages in queues. */
module Accounts {
  import opened Ticks
  import opened Lists
  import opened KernelState
  import opened TaskModel
  import opened QueueRing
  import opened QueueModel
  import opened Kernel
  import opened Placement
  import opened CoreInvariant
  import opened Steps
  import opened Wakeups
  import opened Inheritance
  import opened ClosedSystem
  import opened Effects
  import opened Rings
  import opened Runs
  import opened Calls

  /** The call that a step makes, or goes on with. */
  function CallOf(s: State, step: Step): Call {
    if step.Resume? && s.current.Some? && s.current.value < |s.tasks| then s.tasks[s.current.value].call else NoCall
  }

  /** The step is an attempt to put a unit into object `o`. */
  predicate Puts(s: State, step: Step, o: nat) {
    || (step.Send? && step.queue == o) || (step.Give? && step.semaphore == o)
    || (CallOf(s, step).InSend? && CallOf(s, step).obj == o)
  }

  /** The step is an attempt to get a unit out of object `o`. */
  predicate Gets(s: State, step: Step, o: nat) {
    || (step.Receive? && step.queue == o) || (step.Take? && step.semaphore == o)
    || ((CallOf(s, step).InReceive? || CallOf(s, step).InTake?) && CallOf(s, step).obj == o)
  }

  /** The attempt succeeds. */
  predicate Succeeds(s: State, step: Step)
    requires Operable(s) && Enabled(s, step)
  {
    Perform(s, step).1.Passed? || Perform(s, step).1.Received?
  }

  /** The successful puts, and the successful gets, among the first `n` steps. */
  function Deposits(trace: seq<State>, steps: seq<Step>, n: nat, o: nat): nat
    requires Behaves(trace, steps) && n <= |steps|
  {
    if n == 0 then 0
    else
      assert Moves(trace[n - 1], steps[n - 1], trace[n - 1 + 1]);
      Deposits(trace, steps, n - 1, o)
      + if Puts(trace[n - 1], steps[n - 1], o) && Succeeds(trace[n - 1], steps[n - 1]) then 1 else 0
  }

  function Withdrawals(trace: seq<State>, steps: seq<Step>, n: nat, o: nat): nat
    requires Behaves(trace, steps) && n <= |steps|
  {
    if n == 0 then 0
    else
      assert Moves(trace[n - 1], steps[n - 1], trace[n - 1 + 1]);
      Withdrawals(trace, steps, n - 1, o)
      + if Gets(trace[n - 1], steps[n - 1], o) && Succeeds(trace[n - 1], steps[n - 1]) then 1 else 0
  }

  /** One unit more, one less, or as many as before. */
  ghost predicate Counted(before: Object, after: Object, more: bool, less: bool) {
    && after.kind == before.kind && after.maxCount == before.maxCount
    && after.count + (if less then 1 else 0) == before.count + if more then 1 else 0
  }

  lemma SendCounted(s: State, r: State, outcome: Outcome, q: nat, item: seq<Byte>, ticks: nat, due: nat, o: nat)
    requires s.current.Some? && q < |s.objects| && o < |s.objects| && SendAnswer(s, r, outcome, q, item, ticks, due)
    ensures |r.objects| == |s.objects| && !outcome.Received?
    ensures Counted(s.objects[o], r.objects[o], q == o && outcome.Passed?, false)
  {
    hide Parked;
  }

  lemma ReceiveCounted(s: State, r: State, outcome: Outcome, q: nat, ticks: nat, due: nat, o: nat)
    requires s.current.Some? && q < |s.objects| && o < |s.objects| && ReceiveAnswer(s, r, outcome, q, ticks, due)
    ensures |r.objects| == |s.objects| && (outcome.Passed? ==> outcome.Received?)
    ensures Counted(s.objects[o], r.objects[o], false, q == o && outcome.Received?)
  {
    hide Parked;
  }

  lemma TakeCounted(s: State, r: State, outcome: Outcome, q: nat, ticks: nat, due: nat, o: nat)
    requires s.current.Some? && q < |s.objects| && o < |s.objects| && TakeAnswer(s, r, outcome, q, ticks, due)
    requires s.objects[q].kind == Mutex ==> s.objects[q].count <= 1
    ensures |r.objects| == |s.objects| && !outcome.Received?
    ensures Counted(s.objects[o], r.objects[o], false, q == o && outcome.Passed?)
  {
    hide Parked;
  }

  lemma GiveCounted(s: State, r: State, outcome: Outcome, q: nat, o: nat)
    requires s.current.Some? && q < |s.objects| && o < |s.objects| && GiveAnswer(s, r, outcome, q)
    requires s.objects[q].kind == Mutex && s.objects[q].owner == s.current ==> s.objects[q].count == 0
    ensures |r.objects| == |s.objects| && !outcome.Received?
    ensures Counted(s.objects[o], r.objects[o], q == o && outcome.Passed?, false)
  {
  }

  lemma ResumeCounted(s: State, r: State, outcome: Outcome, o: nat)
    requires s.current.Some? && s.current.value < |s.tasks| && o < |s.objects| && ResumeAnswer(s, r, outcome)
    requires forall q :: 0 <= q < |s.objects| && s.objects[q].kind == Mutex ==> s.objects[q].count <= 1
    ensures |r.objects| == |s.objects|
    ensures var call := s.tasks[s.current.value].call; var done := outcome.Passed? || outcome.Received?;
      Counted(s.objects[o], r.objects[o],
        call.InSend? && call.obj == o && done, (call.InReceive? || call.InTake?) && call.obj == o && done)
  {
    hide SendAnswer, ReceiveAnswer, TakeAnswer, RunsOn;
    var tcb := s.tasks[s.current.value];
    var left: nat := if s.now < tcb.deadline then tcb.deadline - s.now else 0;
    if tcb.waitResult {
      match tcb.call {
        case InSend(q, item, due) => SendCounted(s, r, outcome, q, item, left, due, o);
        case InReceive(q, due) => ReceiveCounted(s, r, outcome, q, left, due, o);
        case InTake(q, due) => TakeCounted(s, r, outcome, q, left, due, o);
        case _ =>
      }
    }
  }

  lemma StepCounted(s: State, step: Step, r: State, o: nat)
    requires Reachable(s) && Moves(s, step, r) && o < |s.objects|
    ensures |r.objects| == |s.objects|
    ensures Counted(s.objects[o], r.objects[o], Puts(s, step, o) && Succeeds(s, step), Gets(s, step, o) && Succeeds(s, step))
  {
    hide Reachable, Perform, SendAnswer, ReceiveAnswer, TakeAnswer, GiveAnswer, ResumeAnswer, RunsOn, Rotates;
    StepAnswers(s, step);
    MutexCounts(s);
    var outcome := Perform(s, step).1;
    match step {
      case Send(q, item, ticks) => if s.objects[q].kind == QueueData { SendCounted(s, r, outcome, q, item, ticks, s.now + ticks, o); }
      case Receive(q, ticks) => if s.objects[q].kind == QueueData { ReceiveCounted(s, r, outcome, q, ticks, s.now + ticks, o); }
      case Take(q, ticks) => if s.objects[q].kind != QueueData { TakeCounted(s, r, outcome, q, ticks, s.now + ticks, o); }
      case Give(q) => if s.objects[q].kind != QueueData { GiveCounted(s, r, outcome, q, o); }
      case Resume => ResumeCounted(s, r, outcome, o);
      case _ => OtherCounted(s, step, r, outcome);
    }
  }

  lemma OtherCounted(s: State, step: Step, r: State, outcome: Outcome)
    requires InBounds(s) && Enabled(s, step) && Answers(s, step, r, outcome)
    requires !step.Send? && !step.Receive? && !step.Take? && !step.Give? && !step.Resume?
    ensures r.objects == s.objects
  {
    hide RunsOn, Requeued;
  }

  lemma MutexCounts(s: State)
    requires Reachable(s)
    ensures forall q :: 0 <= q < |s.objects| && s.objects[q].kind == Mutex ==>
      s.objects[q].count <= 1 && (s.objects[q].owner.Some? <==> s.objects[q].count == 0)
  {
    forall q | 0 <= q < |s.objects| && s.objects[q].kind == Mutex
      ensures s.objects[q].count <= 1 && (s.objects[q].owner.Some? <==> s.objects[q].count == 0)
    {
      OwnedIffTaken(s, q);
    }
  }

  /** Conservation: in every behaviour, what is there is what was there, plus the
      successful puts, less the successful gets. */
  lemma {:induction false} UnitsConserved(trace: seq<State>, steps: seq<Step>, n: nat, o: nat)
    requires Behaves(trace, steps) && Reachable(trace[0]) && n <= |steps| && o < |trace[0].objects|
    ensures |trace[n].objects| == |trace[0].objects|
    ensures trace[n].objects[o].kind == trace[0].objects[o].kind && trace[n].objects[o].maxCount == trace[0].objects[o].maxCount
    ensures trace[n].objects[o].count + Withdrawals(trace, steps, n, o) == trace[0].objects[o].count + Deposits(trace, steps, n, o)
  {
    hide Reachable, Puts, Gets, Succeeds, Next;
    if n > 0 {
      UnitsConserved(trace, steps, n - 1, o);
      assert Moves(trace[n - 1], steps[n - 1], trace[n - 1 + 1]);
      ReachableAlong(trace, steps, n - 1);
      StepCounted(trace[n - 1], steps[n - 1], trace[n], o);
    }
  }

  /** From the start, a mutex is taken and given in turn, and owned exactly when it was
      taken once more than given. */
  lemma MutexAlternates(trace: seq<State>, steps: seq<Step>, n: nat, o: nat)
    requires Behaves(trace, steps) && Begins(trace[0]) && n <= |steps| && o < |trace[0].objects| && trace[0].objects[o].kind == Mutex
    ensures var given, taken := Deposits(trace, steps, n, o), Withdrawals(trace, steps, n, o);
      && given <= taken <= given + 1
      && o < |trace[n].objects| && (trace[n].objects[o].owner.Some? <==> taken == given + 1)
  {
    hide Begins, Moves, Deposits, Withdrawals, Reachable;
    BeginsReachable(trace[0]);
    UnitsConserved(trace, steps, n, o);
    ReachableAlong(trace, steps, n);
    OwnedIffTaken(trace[n], o);
    BeginsFresh(trace[0]);
  }

  /** No semaphore ever holds more than its maximum, none more is got than was put, and a
      queue holds exactly the messages sent and not received. */
  lemma NeverOverdrawn(trace: seq<State>, steps: seq<Step>, n: nat, o: nat)
    requires Behaves(trace, steps) && Begins(trace[0]) && n <= |steps| && o < |trace[0].objects|
    ensures Withdrawals(trace, steps, n, o) <= trace[0].objects[o].count + Deposits(trace, steps, n, o)
    ensures trace[0].objects[o].kind == CountingSemaphore || trace[0].objects[o].kind == BinarySemaphore ==>
      trace[0].objects[o].count + Deposits(trace, steps, n, o) <= trace[0].objects[o].maxCount + Withdrawals(trace, steps, n, o)
  {
    hide Begins, Moves, Deposits, Withdrawals, Reachable;
    BeginsReachable(trace[0]);
    UnitsConserved(trace, steps, n, o);
    ReachableAlong(trace, steps, n);
    ReachableInv(trace[n]);
    assert ObjectShape(trace[n].objects[o]);
  }

  lemma BeginsFresh(s: State)
    requires Begins(s)
    ensures forall o {:trigger s.objects[o]} :: 0 <= o < |s.objects| ==> FreshObject(s.objects[o])
  {
    hide Started;
    var priorities, objects, now :| FreshObjects(objects) && s == Started(priorities, objects, now);
    StartedObjects(priorities, objects, now);
  }

  lemma StartedObjects(priorities: seq<Priority>, objects: seq<Object>, now: nat)
    requires FreshObjects(objects)
    ensures Started(priorities, objects, now).objects == objects
  {
    CreatedInBounds(priorities, objects, now);
    StartedUntouched(priorities, objects, now);
  }

  // ---------- messages ----------

  /** The item that a step tries to send. */
  function ItemOf(s: State, step: Step): seq<Byte> {
    if step.Send? then step.item else if CallOf(s, step).InSend? then CallOf(s, step).item else []
  }

  /** What the attempts of a step put into and got out of queue `o`. */
  function ItemsIn(s: State, step: Step, o: nat): seq<seq<Byte>>
    requires Operable(s) && Enabled(s, step)
  {
    if Puts(s, step, o) && Succeeds(s, step) then [ItemOf(s, step)] else []
  }

  function ItemsOut(s: State, step: Step, o: nat): seq<seq<Byte>>
    requires Operable(s) && Enabled(s, step)
  {
    if Gets(s, step, o) && Perform(s, step).1.Received? then [Perform(s, step).1.item] else []
  }

  /** The messages sent to queue `o`, and those received from it, in the first `n` steps. */
  function SentTo(trace: seq<State>, steps: seq<Step>, n: nat, o: nat): seq<seq<Byte>>
    requires Behaves(trace, steps) && n <= |steps|
  {
    if n == 0 then []
    else
      assert Moves(trace[n - 1], steps[n - 1], trace[n - 1 + 1]);
      SentTo(trace, steps, n - 1, o) + ItemsIn(trace[n - 1], steps[n - 1], o)
  }

  function ReceivedFrom(trace: seq<State>, steps: seq<Step>, n: nat, o: nat): seq<seq<Byte>>
    requires Behaves(trace, steps) && n <= |steps|
  {
    if n == 0 then []
    else
      assert Moves(trace[n - 1], steps[n - 1], trace[n - 1 + 1]);
      ReceivedFrom(trace, steps, n - 1, o) + ItemsOut(trace[n - 1], steps[n - 1], o)
  }

  /** `before` with `more` appended is `less` followed by `after`. */
  ghost predicate Passes(before: Object, after: Object, more: seq<seq<Byte>>, less: seq<seq<Byte>>) {
    RingShape(before) && RingShape(after) && less + Stored(after) == Stored(before) + more
  }

  lemma SamePasses(queue: Object)
    requires RingShape(queue)
    ensures Passes(queue, queue, [], [])
  {
    assert [] + Stored(queue) == Stored(queue) + [];
  }

  lemma SendPasses(s: State, r: State, outcome: Outcome, q: nat, item: seq<Byte>, ticks: nat, due: nat, o: nat)
    requires s.current.Some? && q < |s.objects| && o < |s.objects| && SendAnswer(s, r, outcome, q, item, ticks, due)
    requires RingShape(s.objects[o])
    ensures |r.objects| == |s.objects|
    ensures Passes(s.objects[o], r.objects[o], if q == o && outcome.Passed? then [item] else [], [])
  {
    hide Parked, Stored;
    if q == o && outcome.Passed? {
      assert [] + Stored(r.objects[o]) == Stored(r.objects[o]);
    } else {
      SamePasses(s.objects[o]);
    }
  }

  lemma ReceivePasses(s: State, r: State, outcome: Outcome, q: nat, ticks: nat, due: nat, o: nat)
    requires s.current.Some? && q < |s.objects| && o < |s.objects| && ReceiveAnswer(s, r, outcome, q, ticks, due)
    requires RingShape(s.objects[o])
    ensures |r.objects| == |s.objects|
    ensures Passes(s.objects[o], r.objects[o], [], if q == o && outcome.Received? then [outcome.item] else [])
  {
    hide Parked, Stored;
    if q == o && outcome.Received? {
      assert Stored(s.objects[o]) + [] == Stored(s.objects[o]);
    } else {
      SamePasses(s.objects[o]);
    }
  }

  lemma ResumePasses(s: State, r: State, outcome: Outcome, o: nat)
    requires s.current.Some? && s.current.value < |s.tasks| && o < |s.objects| && ResumeAnswer(s, r, outcome)
    requires s.objects[o].kind == QueueData && RingShape(s.objects[o])
    ensures |r.objects| == |s.objects|
    ensures var call := s.tasks[s.current.value].call;
      Passes(s.objects[o], r.objects[o],
        if call.InSend? && call.obj == o && (outcome.Passed? || outcome.Received?) then [call.item] else [],
        if (call.InReceive? || call.InTake?) && call.obj == o && outcome.Received? then [outcome.item] else [])
  {
    hide SendAnswer, ReceiveAnswer, RunsOn, Passes;
    var tcb := s.tasks[s.current.value];
    var left: nat := if s.now < tcb.deadline then tcb.deadline - s.now else 0;
    SamePasses(s.objects[o]);
    if tcb.waitResult {
      match tcb.call {
        case InSend(q, item, due) =>
          SendPasses(s, r, outcome, q, item, left, due, o);
          SendCounted(s, r, outcome, q, item, left, due, o);
        case InReceive(q, due) => ReceivePasses(s, r, outcome, q, left, due, o);
        case _ =>
      }
    }
  }

  lemma StepPasses(s: State, step: Step, r: State, o: nat)
    requires Reachable(s) && Moves(s, step, r) && o < |s.objects| && s.objects[o].kind == QueueData
    ensures |r.objects| == |s.objects| && Passes(s.objects[o], r.objects[o], ItemsIn(s, step, o), ItemsOut(s, step, o))
  {
    hide Reachable, Perform, SendAnswer, ReceiveAnswer, TakeAnswer, GiveAnswer, ResumeAnswer, RunsOn, Rotates, Passes;
    StepAnswers(s, step);
    QueueShape(s, o);
    SamePasses(s.objects[o]);
    var outcome := Perform(s, step).1;
    match step {
      case Send(q, item, ticks) =>
        if s.objects[q].kind == QueueData {
          SendPasses(s, r, outcome, q, item, ticks, s.now + ticks, o);
          SendCounted(s, r, outcome, q, item, ticks, s.now + ticks, o);
        }
      case Receive(q, ticks) => if s.objects[q].kind == QueueData { ReceivePasses(s, r, outcome, q, ticks, s.now + ticks, o); }
      case Take(q, ticks) => if s.objects[q].kind != QueueData { TakeElsewhere(s, r, outcome, q, ticks, s.now + ticks, o); }
      case Give(q) => if s.objects[q].kind != QueueData { GiveElsewhere(s, r, outcome, q, o); }
      case Resume => ResumePasses(s, r, outcome, o);
      case _ => OtherCounted(s, step, r, outcome);
    }
  }

  lemma QueueShape(s: State, o: nat)
    requires Reachable(s) && o < |s.objects| && s.objects[o].kind == QueueData
    ensures RingShape(s.objects[o])
  {
    hide Reachable;
    ReachableInv(s);
    assert ObjectShape(s.objects[o]);
  }

  lemma TakeElsewhere(s: State, r: State, outcome: Outcome, q: nat, ticks: nat, due: nat, o: nat)
    requires s.current.Some? && q < |s.objects| && o < |s.objects| && o != q && TakeAnswer(s, r, outcome, q, ticks, due)
    ensures |r.objects| == |s.objects| && r.objects[o] == s.objects[o] && !outcome.Received?
  {
    hide Parked;
  }

  lemma GiveElsewhere(s: State, r: State, outcome: Outcome, q: nat, o: nat)
    requires s.current.Some? && q < |s.objects| && o < |s.objects| && o != q && GiveAnswer(s, r, outcome, q)
    ensures |r.objects| == |s.objects| && r.objects[o] == s.objects[o] && !outcome.Received?
  {
  }

  /** Delivery: in every behaviour, the messages received from a queue are those that were
      stored and then those sent to it, in that order, byte for byte, up to what is still
      stored. */
  lemma {:induction false} QueueDelivers(trace: seq<State>, steps: seq<Step>, n: nat, o: nat)
    requires Behaves(trace, steps) && Reachable(trace[0]) && n <= |steps|
    requires o < |trace[0].objects| && trace[0].objects[o].kind == QueueData
    ensures o < |trace[n].objects| && RingShape(trace[0].objects[o]) && RingShape(trace[n].objects[o])
    ensures ReceivedFrom(trace, steps, n, o) + Stored(trace[n].objects[o])
         == Stored(trace[0].objects[o]) + SentTo(trace, steps, n, o)
  {
    hide Reachable, Next, ItemsIn, ItemsOut, Stored, Counted, RingShape, Deposits, Withdrawals, Enabled, Operable;
    QueueShape(trace[0], o);
    if n > 0 {
      QueueDelivers(trace, steps, n - 1, o);
      UnitsConserved(trace, steps, n - 1, o);
      assert Moves(trace[n - 1], steps[n - 1], trace[n - 1 + 1]);
      ReachableAlong(trace, steps, n - 1);
      StepPasses(trace[n - 1], steps[n - 1], trace[n], o);
      var s, step := trace[n - 1], steps[n - 1];
      Appended(ReceivedFrom(trace, steps, n - 1, o), ItemsOut(s, step, o), Stored(trace[n].objects[o]),
        Stored(s.objects[o]), Stored(trace[0].objects[o]), SentTo(trace, steps, n - 1, o), ItemsIn(s, step, o));
    } else {
      assert [] + Stored(trace[0].objects[o]) == Stored(trace[0].objects[o]) + [];
    }
  }

  lemma Appended<T>(got: seq<T>, out: seq<T>, after: seq<T>, before: seq<T>, first: seq<T>, sent: seq<T>, more: seq<T>)
    requires got + before == first + sent && out + after == before + more
    ensures (got + out) + after == first + (sent + more)
  {
    assert (got + out) + after == got + (out + after);
    assert got + (before + more) == (got + before) + more;
    assert (first + sent) + more == first + (sent + more);
  }

  // ---------- mutexes ----------

  /** A call back from its wait for a mutex passes exactly if its task owns the mutex
      afterwards: a failed one never does. */
  lemma ResumedTakeOwns(s: State, r: State)
    requires Reachable(s) && Moves(s, Resume, r) && s.tasks[s.current.value].call.InTake?
    ensures var o := s.tasks[s.current.value].call.obj;
      && o < |s.objects| && o < |r.objects|
      && (s.objects[o].kind == Mutex ==> (Perform(s, Resume).1 == Passed <==> r.objects[o].owner == s.current))
  {
    hide Reachable, Perform, RunsOn, Parked, NoLostWakeup, RingsKept;
    ReachableInv(s);
    StepAnswers(s, Resume);
    OwnsNotWaited(s);
  }

  lemma OwnsNotWaited(s: State)
    requires KernelInv(s)
    ensures var call := s.tasks[s.current.value].call;
      call.InTake? && call.obj < |s.objects| ==> s.objects[call.obj].owner != s.current
  {
  }

  /** And a direct take passes exactly if the caller owns it afterwards and not before. */
  lemma TakeOwns(s: State, o: nat, ticks: nat, r: State)
    requires Reachable(s) && Moves(s, Take(o, ticks), r) && s.objects[o].kind == Mutex
    ensures o < |r.objects|
    ensures Perform(s, Take(o, ticks)).1 == Passed <==> r.objects[o].owner == s.current && s.objects[o].owner != s.current
  {
    hide Reachable, Perform, RunsOn, Parked;
    MutexCounts(s);
    StepAnswers(s, Take(o, ticks));
  }
}
