/** The code on the objects in memory does, step by step, what the state machine does;
    and the start of the scheduler brings both into the same initial state. */
module SchedulerMachine {
  import opened Ticks
  import opened Lists
  import opened KernelState
  import TaskModel
  import QueueRing
  import QueueModel
  import Kernel
  import opened Placement
  import opened CoreInvariant
  import Steps
  import Effects
  import Runs
  import opened Objects
  import opened SchedulerObject
  import opened SchedulerStorage
  import opened SchedulerReady
  import opened SchedulerPriority
  import opened SchedulerSwitch
  import opened SchedulerWait
  import opened SchedulerQueue

  /** Steps that do not touch objects keep the storage relation. */
  lemma SameObjects(m: State, step: Kernel.Step)
    requires Steps.KernelInv(m) && Kernel.Enabled(m, step)
    requires !step.Send? && !step.Receive? && !step.Take? && !step.Give? && !step.Resume?
    ensures QueueModel.Operable(m) && Kernel.Next(m, step).objects == m.objects
  {
    hide Kernel.Perform, Effects.Retried;
    Effects.NextEffect(m, step);
  }

  /** A step that neither moves data nor returns to a call. */
  method SchedulingStep(s: Scheduler, step: Kernel.Step) returns (outcome: QueueModel.Outcome)
    requires Calling(s) && Kernel.Enabled(s.model, step)
    requires step.Delay? || step.Abort? || step.Yield? || step.SetPriority? || step.Exit? || step.Tick?
    modifies s`model, s`current, s`tick, s.tasks, s.WaiterLists(), s.delayedList, s.readyLists
    ensures Calling(s)
    ensures Steps.KernelInv(old(s.model)) && QueueModel.Operable(old(s.model)) && Kernel.Enabled(old(s.model), step)
    ensures (s.model, outcome) == Kernel.Perform(old(s.model), step)
  {
    hide Scheduler.Valid, InBounds, Placed, Steps.KernelInv, QueueModel.Operable, TaskModel.DelayCurrent,
      QueueModel.AbortDelay, TaskModel.YieldCurrent, TaskModel.PrioritySet, Kernel.ExitTask, QueueModel.TickISR;
    ghost var m := s.model;
    CallerRuns(s);
    ValidInBounds(s);
    SameObjects(m, step);
    Steps.NextInv(m, step);
    FlagsShow(s, s.current, None);
    outcome := QueueModel.Passed;
    match step {
      case Delay(ticks) =>
        DelayCurrent(s, ticks);
        if ticks > 0 { outcome := QueueModel.Suspended; }
      case Abort(t) =>
        var passed := AbortDelay(s, s.tasks[t]);
        if !passed { outcome := QueueModel.Refused; }
      case Yield => YieldCurrent(s);
      case SetPriority(t, priority) => PrioritySet(s, s.tasks[t], priority);
      case Exit => ExitTask(s);
      case Tick => TickISR(s);
    }
  }

  /** The calls on a queue, semaphore or mutex. */
  method ObjectStep(s: Scheduler, step: Kernel.Step) returns (outcome: QueueModel.Outcome)
    requires Calling(s) && Kernel.Enabled(s.model, step) && (step.Send? || step.Receive? || step.Take? || step.Give?)
    modifies s`model, s`current, s.tasks, s.WaiterLists(), s.delayedList, s.readyLists, s.objects, Storages(s)
    ensures Calling(s)
    ensures Steps.KernelInv(old(s.model)) && QueueModel.Operable(old(s.model)) && Kernel.Enabled(old(s.model), step)
    ensures (s.model, outcome) == Kernel.Perform(old(s.model), step)
  {
    hide Scheduler.Valid, InBounds, Placed, Steps.KernelInv, QueueModel.Operable, QueueModel.SendAttempt,
      QueueModel.ReceiveAttempt, QueueModel.TakeAttempt, QueueModel.GiveMutex, QueueModel.GiveSemaphore;
    ghost var m := s.model;
    CallerRuns(s);
    ValidInBounds(s);
    Steps.NextInv(m, step);
    match step {
      case Send(o, item, ticks) =>
        ObjectAt(s, o);
        StorageOf(s, o);
        if s.objects[o].kind != QueueData { return QueueModel.Refused; }
        outcome := SendAttempt(s, s.objects[o], item, ticks, o, m.now + ticks);
      case Receive(o, ticks) =>
        ObjectAt(s, o);
        if s.objects[o].kind != QueueData { return QueueModel.Refused; }
        outcome := ReceiveAttempt(s, s.objects[o], ticks, o, m.now + ticks);
      case Take(o, ticks) =>
        ObjectAt(s, o);
        if s.objects[o].kind == QueueData { return QueueModel.Refused; }
        outcome := TakeAttempt(s, s.objects[o], ticks, o, m.now + ticks);
      case Give(o) =>
        ObjectAt(s, o);
        if s.objects[o].kind == QueueData { return QueueModel.Refused; }
        if s.objects[o].kind == Mutex {
          outcome := GiveMutex(s, s.objects[o], o);
        } else {
          outcome := GiveSemaphore(s, s.objects[o], o);
        }
    }
  }

  lemma StorageOf(s: Scheduler, o: nat)
    requires o < |s.objects|
    ensures s.objects[o].storage in Storages(s)
  {
  }

  /** The return of a suspended call; `call` is what the task has on its own stack. */
  method ResumeStep(s: Scheduler, call: Call) returns (outcome: QueueModel.Outcome)
    requires Calling(s) && Kernel.Enabled(s.model, Kernel.Resume) && call == s.model.tasks[s.model.current.value].call
    modifies s`model, s`current, s.tasks, s.WaiterLists(), s.delayedList, s.readyLists, s.objects, Storages(s)
    ensures Calling(s)
    ensures Steps.KernelInv(old(s.model)) && QueueModel.Operable(old(s.model))
    ensures Kernel.Enabled(old(s.model), Kernel.Resume)
    ensures (s.model, outcome) == Kernel.ResumeCall(old(s.model))
  {
    hide Scheduler.Valid, InBounds, Placed, Steps.KernelInv, QueueModel.Operable, QueueModel.SendAttempt,
      QueueModel.ReceiveAttempt, QueueModel.TakeAttempt, TaskModel.ClearWaitState;
    ghost var m := s.model;
    CallerRuns(s);
    ValidInBounds(s);
    CallAt(m);
    Steps.NextInv(m, Kernel.Resume);
    match call {
      case InSend(o, item, due) =>
        ObjectAt(s, o);
        StorageOf(s, o);
        outcome := ResumeSend(s, s.objects[o], item, o, due);
      case InReceive(o, due) =>
        ObjectAt(s, o);
        outcome := ResumeReceive(s, s.objects[o], o, due);
      case InTake(o, due) =>
        ObjectAt(s, o);
        outcome := ResumeTake(s, s.objects[o], o, due);
      case _ =>
        var woken, remaining := LeaveWait(s);
        outcome := QueueModel.Passed;
    }
  }

  /** A suspended call names an object of its own kind. */
  lemma CallAt(m: State)
    requires Steps.KernelInv(m)
    ensures QueueModel.CallShape(m.tasks[m.current.value].call, m.objects)
  {
    assert TcbSane(m.tasks[m.current.value], m.objects, m.now);
  }

  /** One step on memory; `call` is what a resuming task has on its stack. */
  method PerformStep(s: Scheduler, step: Kernel.Step, call: Call) returns (outcome: QueueModel.Outcome)
    requires Calling(s) && Kernel.Enabled(s.model, step)
    requires step.Resume? ==> call == s.model.tasks[s.model.current.value].call
    modifies s`model, s`current, s`tick, s.tasks, s.WaiterLists(), s.delayedList, s.readyLists, s.objects, Storages(s)
    ensures Calling(s)
    ensures QueueModel.Operable(old(s.model)) && Kernel.Enabled(old(s.model), step)
    ensures (s.model, outcome) == Kernel.Perform(old(s.model), step)
  {
    hide Calling, Steps.KernelInv, QueueModel.Operable, Kernel.ResumeCall;
    if step.Resume? {
      outcome := ResumeStep(s, call);
    } else if step.Send? || step.Receive? || step.Take? || step.Give? {
      outcome := ObjectStep(s, step);
    } else {
      outcome := SchedulingStep(s, step);
    }
  }

  /** At each return to a suspended call, `calls` holds that call. */
  ghost predicate StacksShow(trace: seq<State>, steps: seq<Kernel.Step>, calls: seq<Call>)
    requires Runs.Behaves(trace, steps) && |calls| == |steps|
  {
    forall i {:trigger steps[i]} :: 0 <= i < |steps| && steps[i].Resume? ==>
      Runs.Moves(trace[i], steps[i], trace[i + 1]) && calls[i] == trace[i].tasks[trace[i].current.value].call
  }

  /** Each call has answered what it answers in the behaviour. */
  ghost predicate AnswersShow(trace: seq<State>, steps: seq<Kernel.Step>, outcomes: seq<QueueModel.Outcome>)
    requires Runs.Behaves(trace, steps) && |outcomes| <= |steps|
  {
    forall i {:trigger outcomes[i]} :: 0 <= i < |outcomes| ==>
      Runs.Moves(trace[i], steps[i], trace[i + 1]) && outcomes[i] == Kernel.Perform(trace[i], steps[i]).1
  }

  /** Whole runs: the code on memory goes through exactly the states of the behaviour, and
      each call answers what it answers there. */
  method RunSteps(s: Scheduler, steps: seq<Kernel.Step>, calls: seq<Call>, ghost trace: seq<State>)
    returns (outcomes: seq<QueueModel.Outcome>)
    requires Calling(s) && Runs.Behaves(trace, steps) && trace[0] == s.model
    requires |calls| == |steps| && StacksShow(trace, steps, calls)
    modifies s`model, s`current, s`tick, s.tasks, s.WaiterLists(), s.delayedList, s.readyLists, s.objects, Storages(s)
    ensures Calling(s) && s.model == trace[|steps|]
    ensures |outcomes| == |steps| && AnswersShow(trace, steps, outcomes)
  {
    hide Calling, Steps.KernelInv, QueueModel.Operable, Kernel.Perform, Kernel.Enabled;
    outcomes := [];
    for i := 0 to |steps|
      invariant Calling(s) && s.model == trace[i]
      invariant |outcomes| == i && AnswersShow(trace, steps, outcomes)
    {
      assert Runs.Moves(trace[i], steps[i], trace[i + 1]);
      var outcome := PerformStep(s, steps[i], calls[i]);
      outcomes := outcomes + [outcome];
    }
  }
}
