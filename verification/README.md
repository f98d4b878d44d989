# A verified model of the MiniFreeRTOS kernel

This project models the kernel of MiniFreeRTOS - scheduler, blocking, timeouts, priority
inheritance, queues, semaphores, mutexes, the `heap_4` and `heap_2` allocators, software
timers and the trace ring - and proves properties of every run of it.

The scheduler exists twice. `KernelState`, `TaskModel`, `QueueModel` and `Kernel` describe
it as a state machine on values, one function per C function, and carry the theorems.
`Objects` and the `Scheduler...` modules are the same code on objects in memory: control
blocks with their link fields, lists with head, tail and length, queue storage as a byte
array, cursor and drain loops. Every method there is proved to produce exactly the state
that the function of the same name produces. `SchedulerBoot` does the same for the start and
`SchedulerMachine.RunSteps` for whole runs, states and answers of the calls alike, so each
theorem about runs of the state machine is a theorem about the pointer code. The source's assertions on handles, task
states, list membership, timeouts and mutex ownership are preconditions or assertions there,
and proved at every call; `vTaskDelayUntil` alone hands its caller an obligation of its own
(`DelayUntilAllowedIff`). The allocators, the timers and the trace ring are written on their
own arrays and objects directly, and proved against specification functions.

| modules | contents |
|---|---|
| `Ticks`, `Lists` | the 32-bit tick counter and its signed comparisons against an unbounded clock; list contents |
| `KernelState`, `TaskModel`, `QueueRing`, `QueueModel`, `Kernel` | the state machine |
| `Placement`, `Order`, `CoreInvariant`, `Steps` | every task is where its state says, every list is ordered, and every step keeps it so |
| `Wakeups` | no wake-up is lost |
| `Inheritance`, `ClosedSystem` | priority inheritance and strict priority in closed systems |
| `Effects`, `Rings`, `Deadlines` | what steps do to objects and suspended calls; FIFO queues; the clock |
| `Runs`, `Waits`, `Fairness` | theorems over whole runs from the start: invariants; how waits end and whom an event wakes; bounded waiting |
| `Calls`, `Accounts`, `Rotation` | what each call answers and leaves behind; units and messages over runs; round robin |
| `Scenarios`, `Overtaking`, `Limits` | where a property ends, exactly when, and a run from the start that leads there |
| `Objects`, `SchedulerObject`, `SchedulerReady`, `SchedulerDelay`, `SchedulerEvent`, `SchedulerPriority`, `SchedulerSwitch`, `SchedulerWait`, `SchedulerStorage`, `SchedulerQueue`, `SchedulerMachine`, `SchedulerBoot` | the scheduler on objects in memory |
| `HeapBlocks`, `HeapTheorems`, `Heap` | the allocators |
| `TimerArithmetic`, `Timers` | software timers |
| `Trace` | the trace ring |

## Assumptions

- One step is one critical section together with the context switch that follows it, a
  tick, or the return of a suspended call (read the wait result and the remaining ticks,
  clear the wait, fail or retry). `vTaskYield` and the dispatch are one step with what
  precedes them. Ticks land between steps. Preemption is on.
- A run starts with all tasks and objects created and the idle task created last. The
  counter may show any instant then. Creation itself is assumed to succeed.
- Callers meet the kernel's own assertions: valid handles, timeouts below `INT32_MAX`, no
  mutex held at task exit. The idle task makes no calls.
- A caller whose event has come reads the clock in time: not half the tick range, modulo the
  range, past its deadline. `RemainingExactIff` says that the reading is right exactly then,
  and `RemainingMisread` gives a run to a wrong one. Tasks back from a delay, a timeout or an
  abort read no clock and may be as late as they like.
- A state is *reachable* if some run from some start reaches it (`Runs.Reachable`); a run is
  a sequence of steps each of which is possible when its turn comes.
- In a *closed* run no task starts waiting for a mutex that is held by another while it holds
  one itself, and `vTaskPrioritySet` is called either never (*fixed* priorities) or on no task
  that is in a mutex's wait list (*adjustable* priorities). `KernelInv`, no lost wake-up, FIFO
  queues, deadlines, list order and bounded waiting hold on all runs, closed or not.
- `size_t` and pointers have 64 bits or 32 (`HeapBlocks.WIDE`, of which nothing is assumed);
  the alignment is 8.
- Fields marked as bookkeeping (`now`, `stamps`, `deadline`, `stamp`, `delayStamp`, `due`,
  `accepted`, `delivered`, `served`, `log`) are read by no kernel function. `stamp` and
  `delayStamp` number the insertions into wait lists and the delay list.

Where the code and the comments disagree the code is followed: `docs/P5_DESIGN.md:96` calls
`inherited_priority` the highest active waiter, but a successful take recomputes nothing
(`TakeInheritedIff`); the effective priority is exact nevertheless (`PriorityIsExact`).

## Model

| member | source | states |
|---|---|---|
| `Runs.NoInversionPastHolder` | kernel/queue.c:288-353 | in every state that closed runs with fixed priorities reach the owner of a mutex has at least the priority of every task in its wait list |
| `Runs.PriorityIsExact` | kernel/queue.c:35-60 | in every state that closed runs with fixed priorities reach a task's effective priority is exactly the larger of its base priority and the highest priority waiting on the mutexes it owns |
| `Runs.NoBoostLeftOver` | kernel/queue.c:35-60 | in every state that closed runs reach, also while `vTaskPrioritySet` changes the priorities of tasks outside the mutexes' wait lists: the inherited priority is at most the highest priority waiting on the mutexes the task owns |
| `Runs.NoBoostWithoutMutex` | kernel/queue.c:76-88 | in every state that closed runs reach, with adjustable priorities: a task that owns no mutex is at its base priority, whatever gives, timeouts, aborts and priority changes came before |
| `Runs.StrictPriority` | kernel/tasks.c:377-403 | while a task runs, on closed runs with fixed priorities, no ready task has a higher effective priority |
| `Runs.NoWakeupIsLost` | kernel/queue.c:149-198 | in every reachable state: if somebody waits for an object, the available items, tokens or slots never exceed the woken tasks that have not retried |
| `Runs.QueuesAreFifo` | kernel/queue.c:162-181 | in every reachable state the items delivered are a prefix of those accepted, byte for byte, the rest is stored, and head == (tail + count) % length |
| `Runs.OwnedIffTaken` | kernel/queue.c:307-319 | in every reachable state a mutex has count 0 exactly while it has an owner, and count 1 otherwise |
| `Runs.SchedulerPartition` | kernel/tasks.c:151-297 | in every reachable state each task is in exactly the lists its state says (ready: the list of its effective priority only; blocked: the delay list and at most the one wait list it names; running and deleted: none), no list repeats a task, and priority == max(base, inherited) |
| `Runs.DeletedForever` | kernel/tasks.c:652-661 | from every reachable state a deleted task stays deleted on every run |
| `Runs.WaitersInOrder` | kernel/tasks.c:243-275 | in every reachable state wait lists are ordered by priority and, among equals, by the latest insertion |
| `Runs.DelaysInOrder` | kernel/tasks.c:189-221 | in every reachable state, across any number of counter wraps, the delay list is ordered by unbounded deadline and, among equals, by insertion, and no deadline has passed |
| `Runs.StartedInv` | kernel/tasks.c:534-550 | the state after the first dispatch, for any tasks, objects and counter value, meets all invariants |
| `Runs.CreatedReadyMembers` | kernel/tasks.c:85-149 | creation leaves each task once in the ready list of its priority and in no other |
| `Waits.WaitEndsOnTime` | kernel/tasks.c:427-444 | from every reachable state, on every run: a suspended call that is not aborted keeps its unbounded deadline until its task is back in it, stays blocked only before it, and is let go before it only by its event |
| `Waits.DelaySleepsExactly` | kernel/tasks.c:571-597 | on every run until it is back from vTaskDelay, a delayed task that is not aborted is blocked exactly before its deadline |
| `Waits.DelayUntilWakes` | kernel/tasks.c:599-613 | on every run, across wraps: after vTaskDelayUntil the caller sleeps until exactly one increment after the previous wake time, if that is ahead and less than INT32_MAX away |
| `Waits.StrongestIsServed` | kernel/tasks.c:377-403 | in every reachable state a send, receive or give that passes wakes the longest queued of the strongest waiters and nobody else in the list |
| `Calls.StepAnswers` | kernel/queue.c:149-418 | in every reachable state, for every call and the tick: what it answers, the objects and the caller afterwards, and who runs, said of the states before and after (the rows below spell it out) |
| `Calls.SendAnswers` | kernel/queue.c:160-190 | an attempt to send passes exactly if there is room, is refused exactly if there is none and no tick is left, and otherwise waits in the list of senders until its instant; passing appends the item to the stored ones and touches no other object |
| `Calls.ReceiveAnswers` | kernel/queue.c:211-241 | an attempt to receive yields the oldest stored item exactly if there is one and leaves the rest; without one it is refused exactly if no tick is left, and otherwise waits in the list of receivers |
| `Calls.TakeAnswers` | kernel/queue.c:303-344 | an attempt to take passes exactly if a token is there and leaves one less, the taker of a mutex owning it; without one it is refused exactly if no tick is left or the caller owns the mutex, and otherwise waits in the list of takers |
| `Calls.GiveAnswers` | kernel/queue.c:371-417 | a give passes exactly for the owner of a mutex, which is then free, or below the maximum of a semaphore, which then has one token more |
| `Calls.ResumeAnswers` | kernel/queue.c:190-196 | a call back from its wait is refused if its event did not come, and otherwise answers like the same call made now with the ticks left until its own deadline; unless it waits again nothing of the wait is left in the control block |
| `Calls.WakeRunsOn` | kernel/tasks.c:395-401 | a call that wakes a task switches exactly if that task is stronger, and then the caller is last in its ready list |
| `Calls.AbortAnswers` | kernel/tasks.c:615-650 | an abort passes exactly for a blocked task, which is then in no wait, with its call told that the event did not come |
| `Calls.PriorityAnswers` | kernel/tasks.c:307-333 | a new base priority moves a ready task to the end of its new list and a waiter behind all that are as strong, switches nothing and changes nobody else |
| `Calls.YieldRotates` | kernel/tasks.c:562-569 | a yield puts the caller at the end of its ready list and dispatches the head of the highest |
| `Calls.TickRotates` | kernel/tasks.c:707-713 | a tick that ends no wait does the same to the running task |
| `Accounts.UnitsConserved` | kernel/queue.c:162-181 | over every run: the tokens or messages of an object are those it had, plus the sends and gives that passed, less the receives and takes that passed |
| `Accounts.QueueDelivers` | kernel/queue.c:213-232 | over every run: the messages that receivers got are those stored and then those sent, in that order, byte for byte, up to what is still stored |
| `Accounts.MutexAlternates` | kernel/queue.c:317-386 | from the start, the passed takes of a mutex are as many as its gives or one more, and it is owned exactly in the second case |
| `Accounts.NeverOverdrawn` | kernel/queue.c:404-408 | from the start, never more units are got than were there and put, and no semaphore gets above its maximum |
| `Accounts.ResumedTakeOwns` | kernel/queue.c:346-351 | a take back from its wait for a mutex reports success exactly if its task owns the mutex afterwards |
| `Accounts.TakeOwns` | kernel/queue.c:313-328 | a direct take reports success exactly if the caller owns the mutex afterwards and did not before |
| `Rotation.NextInLine` | kernel/tasks.c:562-569 | at a yield, a zero delay, or a tick that ends no wait, with nobody stronger ready: the first ready task of the caller's priority runs and the caller is ready at the end of their list; alone, it runs on |
| `Rotation.TickTurn` | kernel/tasks.c:427-444 | the same at a tick that ends waits, if the drain readies nobody stronger and leaves the first in line at its priority |
| `Rotation.RoundRobin` | kernel/tasks.c:446-488 | over runs of such steps the tasks of the strongest priority run in the order in which they stood ready, each once in every round |
| `Rotation.TurnComes` | kernel/tasks.c:446-488 | after k turns the k-th task of the line runs |
| `Fairness.BoundedWaiting` | kernel/tasks.c:446-488 | on all runs, `vTaskPrioritySet` and nested mutexes included: while a task stays ready at one priority, tasks of at most that priority are dispatched no more often than there were tasks in front of it, provided that at each tick it owns no mutex or nobody is outranked by a waiter on a mutex of its own |
| `Fairness.BoundedWaitingClosed` | kernel/tasks.c:446-488 | on closed runs with fixed priorities the same for every task, without the proviso |
| `Fairness.StepNearer` | kernel/tasks.c:562-569 | each step, a tick under that proviso, brings a waiting ready task one place forward for every such dispatch and never puts it back |
| `Overtaking.OvertakenAtTick` | kernel/queue.c:76-88 | a run on which, without the proviso, a ready task with nobody in front of it is overtaken by another of its priority: one tick boosts it and takes the boost back, which puts it at the end of its list |
| `Steps.NextInv` | kernel/tasks.c:307-488 | every step of the kernel keeps the kernel invariant: placement, order, control blocks, clock, a running task |
| `ClosedSystem.NextClosed` | kernel/queue.c:355-418 | every step of a closed system leaves no boost behind, and with fixed priorities keeps inheritance exact and the running task strongest |
| `Wakeups.NextNoLost` | kernel/queue.c:200-249 | every step keeps all wake-ups |
| `Effects.NextEffect` | kernel/queue.c:149-418 | every step changes the objects exactly as its own call says, brings no deleted task back, and lets suspended calls go only by their event, at their deadline or by an abort |
| `Effects.SendEffect` | kernel/queue.c:162-187 | a send attempt passes exactly if there is room, then stores the item at head; it waits exactly if there is none and time is left; refused attempts change nothing |
| `Effects.ReceiveEffect` | kernel/queue.c:213-238 | a receive attempt yields the item at tail exactly if there is one; it waits exactly if there is none and time is left; refused attempts change nothing |
| `Effects.TakeEffect` | kernel/queue.c:305-333 | a take passes exactly if a token is free, takes one, and makes the caller own the mutex; it waits exactly if none is free, time is left and the caller is not the owner; refused attempts change nothing |
| `Effects.GiveEffect` | kernel/queue.c:373-417 | a give passes exactly for the owner of a mutex or below the maximum of a semaphore, and adds one token; refused gives change nothing |
| `Effects.AbortEffect` | kernel/tasks.c:615-650 | an abort passes exactly for blocked tasks and otherwise changes nothing |
| `Effects.ResumeEffect` | kernel/queue.c:344-352 | a call whose event did not come fails; one that fails has changed no object, only cleared its own wait; one that waits again had its event, and time left |
| `Deadlines.TickWakesExactly` | kernel/tasks.c:427-444 | a tick wakes exactly the blocked tasks whose unbounded deadline is the new instant, and tells them that their event did not come |
| `Deadlines.RetryKeepsDeadline` | kernel/queue.c:190-196 | a caller that is woken and loses the race blocks again with the same absolute deadline, and only before it |
| `Steps.RemainingExactIff` | kernel/tasks.c:405-413 | the remaining ticks are right if and only if the caller is not half the tick range, modulo the range, past its deadline |
| `Deadlines.DelayUntilExactIff` | kernel/tasks.c:599-613 | the ticks that vTaskDelayUntil hands to vTaskDelay lead exactly to the next wake time, are 0 if that has passed, and meet vTaskDelay's bound, if and only if it is less than INT32_MAX ahead and not missed by half the tick range |
| `Deadlines.DelayUntilAllowedIff` | kernel/tasks.c:581 | the assertion in vTaskDelay fails exactly if the next wake time lies INT32_MAX or half the tick range ahead, modulo the range |
| `Deadlines.DelayUntilFromThePast` | kernel/tasks.c:599-613 | it holds whenever the previous wake time does not lie ahead and the next one is not half the tick range behind |
| `Steps.HeadNotDue` | kernel/tasks.c:429-430 | if the head of the delay list is not due, nobody in it is |
| `Steps.RemainingExact` | kernel/tasks.c:405-413 | read in time, the remaining ticks are those to the caller's original deadline |
| `Ticks.SignedDifferenceExact` | kernel/tasks.c:59-67 | within the half range the signed comparisons of counter readings decide the order of the instants |
| `Order.InsertDelayOrdered` | kernel/tasks.c:193-198 | the cursor's signed comparisons insert in the order of the unbounded deadlines |
| `Inheritance.MaxWaiterLeast` | kernel/queue.c:46-54 | the registry scan with its running maximum yields the highest head priority among the mutexes the task owns |
| `Inheritance.EndWaitInherits` | kernel/queue.c:76-88 | ending a wait by timeout or abort leaves no boost behind, and with fixed priorities keeps inheritance exact and lowers an owner by no more than the leaving waiter's priority |
| `Fairness.EndWaitFalls` | kernel/queue.c:76-88 | where nobody is outranked by a waiter on a mutex of its own, nested or not, the end of a wait raises nobody and leaves nobody outranked |
| `Inheritance.WokenPromised` | kernel/queue.c:387-388 | the taker woken from a free mutex outranks those it leaves waiting |
| `ClosedSystem.TakeMutexInherits` | kernel/queue.c:317-327 | a take that recomputes nothing leaves its taker with the priority that its waiters call for |
| `ClosedSystem.GiverDrop` | kernel/queue.c:390-396 | the giver's old priority is at most its new one or that of the waiter it woke, so comparing these two is enough |
| `ClosedSystem.AbortStrict` | kernel/tasks.c:636-643 | comparing the aborted task with the caller is enough, although the abort may cost the caller its boost |
| `Limits.PrioritySetStrictIff` | kernel/tasks.c:716-731 | vTaskPrioritySet keeps the running task strongest if and only if the new priority leaves it so |
| `Limits.PrioritySetInverts` | kernel/tasks.c:716-731 | with tasks of priorities 1 and 2, raising the first to 7 leaves it ready behind the second |
| `Limits.PrioritySetInversionIff` | kernel/tasks.c:716-731 | after setting the priority of a waiter, the holder outranks it if and only if it needed nothing to inherit |
| `Limits.HolderOutranked` | kernel/tasks.c:716-731 | a run to a holder below its waiter |
| `Limits.PrioritySetLeavesBoostIff` | kernel/tasks.c:716-731 | setting the priority of a task leaves another one a boost too high if and only if that one is boosted and everybody who waits for its mutexes is below it after the call |
| `Limits.BoostLeft` | kernel/tasks.c:716-731 | a run to such a boost: the holder lowers its only waiter |
| `Limits.TakeInheritedIff` | kernel/queue.c:317-327 | after a take, by any taker, the recorded inherited priority is the highest waiting one if and only if it was before and nobody above it waits for this mutex |
| `Scenarios.RemainingMisread` | kernel/tasks.c:405-413 | a run to a woken caller that comes back half the tick range after its deadline: half the range is reported to remain, which vTaskBlockCurrent refuses |
| `Rings.SentRing` | kernel/queue.c:163-170 | storing appends to the stored items if there is room and keeps the ring |
| `Rings.TakenRing` | kernel/queue.c:214-221 | fetching removes the oldest stored item, which is the one at tail, and keeps the ring |
| `TaskModel.DelayPosition` | kernel/tasks.c:193-198 | every task in front of the position is not after the new wake tick, the one at it is |
| `TaskModel.EventPosition` | kernel/tasks.c:249-252 | every task in front of the position has at least the priority, the one at it has less |
| `TaskModel.HighestReady` | kernel/tasks.c:446-457 | the highest priority with a ready task, none exactly if all lists are empty |
| `SchedulerReady.ReadyListInsert` | kernel/tasks.c:151-166 | on the link fields: all ready lists stay threaded in both directions, the task is last in the list of its priority, all else is unchanged |
| `SchedulerReady.ReadyListRemove` | kernel/tasks.c:168-187 | on the link fields: the task leaves the list of its priority, all lists stay threaded |
| `SchedulerDelay.FindDelayPosition` | kernel/tasks.c:189-198 | the cursor loop stops at the position of the specification |
| `SchedulerDelay.DelayListInsert` | kernel/tasks.c:189-221 | on the link fields: the task joins the delay list at its place, which stays threaded |
| `SchedulerDelay.DelayListRemove` | kernel/tasks.c:223-241 | on the link fields: the task leaves the delay list |
| `SchedulerEvent.EventListInsert` | kernel/tasks.c:243-275 | on the link fields: the task joins the wait list at its place and names it, every wait list stays threaded |
| `SchedulerEvent.EventListRemove` | kernel/tasks.c:277-297 | on the link fields: the task leaves the wait list it names |
| `Objects.ChainInsert` | kernel/tasks.c:200-219 | relinking the neighbours threads the list with the new task in place, in both directions |
| `Objects.ChainRemove` | kernel/tasks.c:223-241 | relinking the neighbours threads the list without the task |
| `SchedulerPriority.SetEffectivePriority` | kernel/tasks.c:307-333 | a new priority moves a ready task to the end of its new ready list and a waiter to its new place in the same wait list |
| `SchedulerPriority.SetInheritedPriority` | kernel/tasks.c:335-347 | records the inherited priority and moves the task to the larger of base and inherited |
| `SchedulerPriority.PrioritySet` | kernel/tasks.c:716-731 | records the base priority and moves the task to the larger of base and inherited |
| `SchedulerPriority.RecomputeInheritedPriority` | kernel/queue.c:35-60 | walks the mutex registry and sets the maximum of the heads the task owns |
| `SchedulerPriority.OwnsMutex` | kernel/queue.c:62-74 | true exactly if some registered mutex has the task as owner |
| `SchedulerSwitch.SelectNextReadyTask` | kernel/tasks.c:446-457 | takes the head of the highest ready list that is not empty, null if there is none |
| `SchedulerSwitch.SwitchContext` | kernel/tasks.c:474-488 | the selected task becomes current and running |
| `SchedulerSwitch.YieldCurrent` | kernel/tasks.c:562-569 | the running task goes to the end of its ready list and the next is dispatched |
| `SchedulerWait.BlockCurrent` | kernel/tasks.c:349-375 | the running task joins the wait list and the delay list with its wait described and the result false |
| `SchedulerWait.UnblockOne` | kernel/tasks.c:377-403 | the head waiter, if any, leaves both lists and becomes ready with the result true; a switch is asked for exactly if it outranks the running task |
| `SchedulerWait.WaitRemaining` | kernel/tasks.c:405-413 | the ticks to the wake tick, 0 without timeout or after it |
| `SchedulerWait.ClearWaitState` | kernel/tasks.c:415-425 | the wait is forgotten and nothing else changes |
| `SchedulerWait.WaitEnded` | kernel/queue.c:76-88 | the owner of the mutex that was waited for is recomputed, if there is one |
| `SchedulerWait.WakeExpired` | kernel/tasks.c:427-444 | drains the due heads of the delay list, each as timed out, and keeps every task in its place |
| `SchedulerWait.TickISR` | kernel/tasks.c:695-714 | counts, wakes and time-slices the running task |
| `SchedulerWait.AbortDelay` | kernel/tasks.c:615-650 | ends the wait of a blocked task as failed, lets its mutex owner fall back, and yields to it if it is stronger |
| `SchedulerWait.DelayCurrent` | kernel/tasks.c:571-597 | the caller joins the delay list, or yields for 0 ticks |
| `SchedulerWait.DelayUntil` | kernel/tasks.c:599-613 | the next wake time and the delay or yield that leads to it |
| `SchedulerWait.ExitTask` | kernel/tasks.c:652-661 | the task is deleted and the next dispatched |
| `SchedulerStorage.WriteSlot` | kernel/queue.c:163-167 | the bytes of one slot become the item, those of all other slots stay |
| `SchedulerStorage.ReadSlot` | kernel/queue.c:214-218 | the item is exactly the bytes of the slot |
| `SchedulerQueue.SendAttempt` | kernel/queue.c:162-190 | an attempt on memory: state and outcome are those of the specification and the storage bytes show the new slots |
| `SchedulerQueue.ReceiveAttempt` | kernel/queue.c:213-241 | an attempt on memory: state, outcome and received bytes are those of the specification |
| `SchedulerQueue.TakeAttempt` | kernel/queue.c:304-344 | an attempt on memory: state and outcome are those of the specification, the owner inherits |
| `SchedulerQueue.GiveMutex` | kernel/queue.c:371-403 | a mutex give on memory: release, wake, recompute, compare, yield |
| `SchedulerQueue.GiveSemaphore` | kernel/queue.c:404-417 | a semaphore give on memory |
| `SchedulerQueue.ResumeSend` | kernel/queue.c:190-196 | the way back into a suspended send |
| `SchedulerQueue.ResumeReceive` | kernel/queue.c:241-247 | the way back into a suspended receive |
| `SchedulerQueue.ResumeTake` | kernel/queue.c:344-351 | the way back into a suspended take |
| `SchedulerMachine.RunSteps` | kernel/tasks.c:307-731 | whole runs: the code on memory reaches exactly the state that the state machine reaches, with all invariants, and each call answers what it answers there |
| `SchedulerMachine.ObjectStep` | kernel/queue.c:149-418 | every call on a queue, semaphore or mutex, on memory, is the step of the state machine with the same outcome, and the invariants hold again |
| `SchedulerMachine.SchedulingStep` | kernel/tasks.c:562-731 | every delay, abort, yield, priority change, exit and tick, on memory, is the step of the state machine with the same outcome, and the invariants hold again |
| `SchedulerMachine.ResumeStep` | kernel/queue.c:190-196 | every return of a suspended call, on memory, is the step of the state machine |
| `SchedulerBoot.Boot` | kernel/tasks.c:534-550 | creating the tasks and starting the scheduler, on memory, reaches the initial state of the state machine with all invariants |
| `HeapBlocks.CoalesceIsNormalize` | kernel/heap_4.c:171-181 | the two local merges leave what a global normalisation of the uncoalesced free leaves |
| `HeapBlocks.NormalizeCoalesced` | kernel/heap_4.c:171-181 | a normalised heap has no two adjacent free blocks |
| `HeapBlocks.AlignUp` | kernel/heap_internal.h:19-26 | the least multiple of the alignment that holds the size, 0 exactly on overflow or for 0 |
| `HeapBlocks.TotalSize` | kernel/heap_4.c:90-102 | header plus aligned payload, 0 exactly for an empty or overflowing request |
| `HeapBlocks.FirstFit` | kernel/heap_4.c:104-110 | the lowest free block that is big enough, none exactly if all are too small |
| `HeapTheorems.RefusedIffNoRun` | kernel/heap_4.c:104-114 | heap_4 refuses a request if and only if it exceeds every contiguous stretch of free memory |
| `HeapTheorems.Heap2RefusesIff` | kernel/heap_2.c:144-171 | after any calls to heap_2 a request is refused that a contiguous stretch of free memory would hold if and only if it lies between the largest free block and the longest free run |
| `HeapTheorems.NormalizeLargest` | kernel/heap_4.c:171-181 | coalescing makes the largest free block as long as the longest free run was |
| `HeapTheorems.LargestRunIs` | kernel/heap_4.c:104-114 | the longest free run computed over the blocks is the longest contiguous stretch of free memory |
| `HeapTheorems.Heap2Fragments` | kernel/heap_2.c:144-171 | four calls from the initial block after which heap_2 refuses what heap_4 serves |
| `HeapTheorems.ServeAll2Keeps` | kernel/heap_2.c:82-171 | every sequence of malloc and free on heap_2 keeps the heap tiled by aligned blocks |
| `HeapTheorems.ServeAllKeeps` | kernel/heap_4.c:82-183 | every sequence of malloc and free keeps the heap tiled by aligned blocks with no two adjacent free ones |
| `HeapTheorems.AllFreedRestores` | kernel/heap_4.c:144-183 | after any run that frees everything, in any order, the heap is again one free block of full size |
| `HeapTheorems.LiveAreSafe` | kernel/heap_4.c:104-141 | live payloads are aligned, inside the heap, and clear of each other and of all headers |
| `HeapTheorems.AllocationHolds` | kernel/heap_4.c:104-141 | what malloc returned has room for all that was asked, inside its block and the heap, and stays allocated through every run that does not free it |
| `HeapTheorems.LiveUntilFreed` | kernel/heap_4.c:104-141 | an allocated block keeps its place and size through every run that does not free it |
| `HeapTheorems.AllocateAtFreeSum` | kernel/heap_4.c:134-136 | allocation lowers the sum of free sizes by exactly the block's size, which never exceeds it |
| `Heap.Heap.Init` | kernel/heap_4.c:33-44 | one free block over the usable heap, once |
| `Heap.Heap.TestsTellLive` | kernel/heap_4.c:46-80 | the payload address of a block passes the tests of prvBlockPointerIsValid if and only if the block is live |
| `Heap.Heap.PointerIsValid` | kernel/heap_4.c:46-80 | on memory: accepts the payload address of a block exactly while that block is live |
| `Heap.Heap.Malloc` | kernel/heap_4.c:82-142 | in memory: NULL exactly if nothing fits or the request is empty or overflows; otherwise first fit with splitting; headers, free list and free_bytes agree with the blocks; no live payload byte changes |
| `Heap.Heap.Free` | kernel/heap_4.c:144-183 | in memory: frees and (heap_4) coalesces; address-ordered free list, headers and free_bytes agree with the blocks; no other live payload byte changes; the pointer no longer passes the tests, so freeing it again at once is refused |
| `Heap.Heap.Link` | kernel/heap_2.c:144-171 | the uncoalesced free that both allocators share |
| `Heap.Heap.Merge` | kernel/heap_4.c:171-181 | the two local merges on headers and free list |
| `Heap.Heap.FreeHeapSize` | kernel/heap_4.c:185-194 | reports the sum of the free blocks' sizes |
| `TimerArithmetic.DueExactIff` | kernel/timers.c:289-298 | the due test is right if and only if the lateness, modulo the tick range, is at most half of it |
| `TimerArithmetic.ServedCount` | kernel/timers.c:379-382 | the callbacks owed and the next deadline in closed form |
| `Timers.DrainsCollapse` | kernel/timers.c:355-386 | however often and whenever the service drains, only the last instant counts |
| `Timers.CatchUpWithoutDrift` | kernel/timers.c:355-386 | a periodic timer started at s has run exactly floor((now - s) / period) times after a drain at now, each time for its own deadline and not before it |
| `Timers.OneShotRunsOnce` | kernel/timers.c:355-386 | a one-shot timer that is due has, after any drains, run exactly once, for its own deadline, and is inactive; one that is not due is as it was |
| `Timers.WorkServed` | kernel/timers.c:355-386 | serving a due timer once leaves one callback less to do: the drain's termination measure |
| `Timers.TimerService.Insert` | kernel/timers.c:261-267 | the timer becomes the first active one |
| `Timers.TimerService.Remove` | kernel/timers.c:269-287 | the timer leaves the active list, which stays linked |
| `Timers.TimerService.FindDue` | kernel/timers.c:289-298 | the first due timer in list order, null exactly if none is due |
| `Timers.TimerService.WaitTicks` | kernel/timers.c:300-315 | 0 exactly if a timer is due, never past the earliest deadline, and as long as that allows |
| `Timers.TimerService.Apply` | kernel/timers.c:317-353 | the list and the timer after each kind of command |
| `Timers.TimerService.ExpireDue` | kernel/timers.c:355-386 | with the clock read anew each round and rising: as many rounds at most as callbacks are owed by the limit it does not pass, and then every timer has each deadline up to the last reading served once in order, and none is due |
| `Timers.TimerService.Create` | kernel/timers.c:119-152 | refuses exactly the periods 0 and from INT32_MAX on |
| `Trace.UnreadAreLatest` | kernel/trace.c:16-38 | over any run of records and reads the unread events are the latest ones handed in, consecutively numbered, and recorded = read + unread + dropped |
| `Trace.ReadTakesOldest` | kernel/trace.c:100-123 | after any run a read returns the oldest event that was neither read nor dropped and leaves all other unread ones |
| `Trace.RunCounts` | kernel/trace.c:16-38 | over any run the unread count follows min(count + 1, capacity) for a record and max(count - 1, 0) for a read, events are dropped exactly by records that meet a full ring, and the read events are those that the reads returned |
| `Trace.TraceRing.RecordEvent` | kernel/trace.c:16-38 | the ring shows the log with the event appended and, if full, the oldest dropped; counters modulo 2^32 |
| `Trace.TraceRing.ReadEvent` | kernel/trace.c:100-123 | returns and removes the oldest unread event and leaves the others, fails exactly if there is none |
| `Trace.TraceRing.Reset` | kernel/trace.c:87-98 | the log is empty |

## Left out

- Ticks landing inside `vTaskYield`, `xTaskGetWaitRemaining` or the dispatch: outside the step granularity stated above.
- A woken caller that comes back half the tick range, modulo the range, past its deadline: runs go on only up to there; `RemainingExactIff` and `RemainingMisread` state what its clock reading is worth.
- Task and object creation while the scheduler runs, `vTaskEndScheduler`, and `vTaskDelay` or gives before the start: runs begin with everything created and the scheduler started.
- Inheritance through a chain of blocked owners: excluded by the design (`docs/P5_DESIGN.md:18-24`) and by the definition of a closed run.
- `BoundedWaiting`: its proviso on ticks is sufficient, shown to be needed by `OvertakenAtTick`, and not claimed to be necessary: an outranked holder keeps its place if, for example, no waiter of it times out at that tick, or nobody stands behind it.
- `TimerService` is modelled apart from the scheduler: its command queue is a data queue of the kernel, its callbacks only queue commands, and timer names and identifiers are dropped.
- `Heap` keeps a header field in the cell of its first byte; the encoding of a field into bytes is not modelled, so `PointerIsValid` can be fooled only by cells in front of a pointer that is no block's. `heap_2` and `heap_4` share one class because their code is identical up to the coalescing.
- Trace recording inside scheduler, queue and timer code: it does not read or change kernel state.
- `heap_1`, ports, context frames, the tick source, board files, examples and tools: straight-line or hardware code, or text handling.
- Loops over attempts in blocking calls: each attempt and each return into the loop is its own step, so the loop itself is the sequence of steps of a run.
