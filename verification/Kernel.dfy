/** The kernel as a state machine. A step is one critical section of a kernel call
    together with the context switch that follows it, a tick, or the return of a
    suspended call to its retry loop. */
module Kernel {
  import opened Ticks
  import opened Lists
  import opened KernelState
  import opened TaskModel
  import opened QueueModel

  datatype Step =
    | Send(queue: nat, item: seq<Byte>, ticks: nat)
    | Receive(queue: nat, ticks: nat)
    | Take(semaphore: nat, ticks: nat)
    | Give(semaphore: nat)
    | Delay(ticks: nat)
    | Abort(task: nat)
    | Yield
    | SetPriority(task: nat, priority: Priority)
    | Exit
    | Resume
    | Tick

  ghost predicate CurrentRuns(s: State) {
    s.current.Some? && s.current.value < |s.tasks| && s.tasks[s.current.value].state == Running
  }

  /** What the kernel's own assertions demand of the calling task: valid handles,
      timeouts below INT32_MAX (looked at only by the objects that take the call), and no mutex held at task exit. */
  ghost predicate CallerContract(s: State, step: Step)
    requires InBounds(s) && s.current.Some?
  {
    match step
    case Send(q, item, ticks) =>
      q < |s.objects| && (s.objects[q].kind == QueueData ==> ticks < INT32_MAX && |item| == s.objects[q].itemSize)
    case Receive(q, ticks) => q < |s.objects| && (s.objects[q].kind == QueueData ==> ticks < INT32_MAX)
    case Take(o, ticks) => o < |s.objects| && (s.objects[o].kind != QueueData ==> ticks < INT32_MAX)
    case Give(o) => o < |s.objects|
    case Delay(ticks) => ticks < INT32_MAX
    case Abort(t) => t < |s.tasks|
    case SetPriority(t, _) => t < |s.tasks|
    case Exit => !OwnsMutex(s, s.current.value)
    case _ => true
  }

  /** Which steps can happen next. A tick can land between any two steps. A task that
      was suspended in a call must first return to it; the idle task makes no calls.
      A caller whose event came reads the clock on its way back, and is assumed to read it
      in time: otherwise `WaitRemaining` misreads it (RemainingExactIff). */
  ghost predicate Enabled(s: State, step: Step)
    requires InBounds(s)
  {
    CurrentRuns(s) &&
    var t := s.current.value;
    match step
    case Tick => true
    case Resume => !s.tasks[t].call.NoCall? && (s.tasks[t].waitResult ==> ReadsInTime(s.now, s.tasks[t].deadline))
    case _ => s.tasks[t].call.NoCall? && t != s.idle && CallerContract(s, step)
  }

  /** The return of a suspended call: read the wait result and the remaining ticks,
      clear the wait, and fail or retry. */
  function ResumeCall(s: State): (r: (State, Outcome))
    requires Operable(s) && s.current.Some?
  {
    var t := s.current.value;
    var tcb := s.tasks[t];
    var remaining := WaitRemaining(s, t);
    var cleared := ClearWaitState(s, t);
    match tcb.call
    case InSend(o, item, due) =>
      if tcb.waitResult then SendAttempt(cleared, o, item, remaining, due) else (cleared, Refused)
    case InReceive(o, due) =>
      if tcb.waitResult then ReceiveAttempt(cleared, o, remaining, due) else (cleared, Refused)
    case InTake(o, due) =>
      if tcb.waitResult then TakeAttempt(cleared, o, remaining, due) else (cleared, Refused)
    case _ => (cleared, Passed)
  }

  /** vTaskRunEntry after the task function returned. */
  function ExitTask(s: State): (r: State)
    requires InBounds(s) && s.current.Some?
  {
    var t := s.current.value;
    SwitchContext(WithTask(s, t, s.tasks[t].(state := Deleted)))
  }

  function Perform(s: State, step: Step): (r: (State, Outcome))
    requires Operable(s) && Enabled(s, step)
  {
    match step
    case Send(q, item, ticks) =>
      if s.objects[q].kind == QueueData then SendAttempt(s, q, item, ticks, s.now + ticks) else (s, Refused)
    case Receive(q, ticks) =>
      if s.objects[q].kind == QueueData then ReceiveAttempt(s, q, ticks, s.now + ticks) else (s, Refused)
    case Take(o, ticks) =>
      if s.objects[o].kind == QueueData then (s, Refused) else TakeAttempt(s, o, ticks, s.now + ticks)
    case Give(o) =>
      if s.objects[o].kind == QueueData then (s, Refused)
      else if s.objects[o].kind == Mutex then GiveMutex(s, o)
      else GiveSemaphore(s, o)
    case Delay(ticks) => (DelayCurrent(s, ticks), if ticks == 0 then Passed else Suspended)
    case Abort(t) => AbortDelay(s, t)
    case Yield => (YieldCurrent(s), Passed)
    case SetPriority(t, priority) => (PrioritySet(s, t, priority), Passed)
    case Exit => (ExitTask(s), Passed)
    case Resume => ResumeCall(s)
    case Tick => (TickISR(s), Passed)
  }

  function Next(s: State, step: Step): State
    requires Operable(s) && Enabled(s, step)
  {
    Perform(s, step).0
  }
}
