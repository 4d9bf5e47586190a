# The FreeRTOS kernel in Dafny

A model of the FreeRTOS V10.2.0 kernel under `lib/FreeRTOS`, with proofs about it.
`dafny verify dfyconfig.toml` checks all of it.

| Files | What they model |
|---|---|
| `LinkedList.dfy`, `RoundRobin.dfy` | the intrusive circular list: pointers on the heap, and the ring they stand for |
| `Kernel.dfy` with `KernelLists.dfy` and `KernelState.dfy`; `KernelRuns.dfy`, `ReadyHistory.dfy`, `Partition.dfy` | the scheduler as a class, the value its state stands for, its whole runs, the history of its ready lists, and the partition of tasks into lists |
| `Inheritance.dfy`, `Mutex.dfy` | priority inheritance, and mutexes as a transition system |
| `Periods.dfy`, `Timeouts.dfy` | comparisons of tick counts that wrap |
| `TimerState.dfy`, `TimerSteps.dfy`, `TimerRuns.dfy`, `Timers.dfy` | software timers: the invariant on values, the steps of the service as functions, its whole runs, and the timer service as a class |
| `QueueRing.dfy`, `QueueLock.dfy` | the storage of a queue as a ring of bytes, and the waking of tasks as a transition system |
| `EventGroup.dfy` | event groups |
| `StreamBuffer.dfy`, `MessageBuffer.dfy` | stream and message buffers used by one side at a time, and by two sides at once |
| `Arithmetic.dfy`, `Wrappers.dfy` | facts and types that the others share |

How it is built:

- What the code changes in place is a class whose fields the methods change in place.
  Each class has a value that its state stands for (a sequence, a map from tasks to
  absolute wake times, the callbacks of each timer), and each method is specified by
  what it does to that value. Where the reasoning about a value is long it is done in
  lemmas on a datatype that holds a snapshot of the fields, so that each method only
  ties its statements to those lemmas.
- The scheduler and the timer service are also abstract machines over absolute time, in
  `KernelRuns.dfy` and `TimerRuns.dfy`. Each operation of the timer service, and each
  operation of the scheduler on one task, on the time or on its own suspension, ensures
  that it is one step of its machine, so that what holds over every run of the machine
  holds over every series of such calls.
- Protocols between tasks and interrupts are transition systems. A step is what
  happens between two points at which somebody else may run: a critical section, the
  copy of one byte, the reading or publishing of one shared index. Main results are
  about every state of every run.
- Ticks are counted modulo any number of tick values, at least 2. A ghost absolute
  time that never wraps is kept beside the count, and everything that is said about
  time is said about absolute time.
- Each `configASSERT` is a precondition where the caller must see to it, and is proved
  where the code relies on it: the empty list at the swap of the delayed lists, the
  two assertions of the clean-up after a mutex timeout, the bounds of the split copies,
  and, as long as no writer is at work at the same time, the empty message buffer in
  `xStreamBufferNextMessageLengthBytes`.
- A ghost record of every change to a ready list is kept beside the lists, and each
  list equals what its record makes of an empty one. That is how the fairness of a
  ready list becomes a fact about the scheduler.
- One configuration is modelled: preemption, mutexes, recursive mutexes, timers and
  `vTaskSuspend` on; queue sets off; task selection by the generic search. The file
  `demos/ti/cc3220_launchpad/common/config_files/FreeRTOSConfig.h` chooses the
  port-optimised search and tickless idle instead, which are not part of this model. It
  turns time slicing off, and so does the model.

What the proofs showed about the code beyond what it promises:

- The turn of a waiting task can be put off by a newcomer of its priority: when the
  running task leaves the round its removal steps the index back onto the waiting
  task, and a newcomer is inserted before the index. Each arrival while the index
  points at the task can do so, and no other can (`InsertEndShiftsTurns`,
  `NewcomerOvertakes`, `WaitIsAccountedFor`, `ReadyTasksArePassedOverBoundedly`).
- `xTaskCheckForTimeOut` can miss a deadline if more than a full wrap of the tick count
  passes between two calls; `ExpiryIsExact` gives the exact condition.
- Samples of the time less than a wrap apart are not enough for a software timer to be
  processed correctly, as the run in `LateStartIsMissed` shows: the START command itself
  must be processed less than a wrap after the instant it carries, or at an age whose
  excess over whole wraps is at least the period. `DecisionIsRightExactlyWhen` says that
  this condition is exact; `StartTimer` and `ProcessReceivedCommand` require it and no
  more.
- Inherited priority can outlive its cause: a task that has given one of two mutexes, the
  one for which others waited, keeps what it inherited until it gives the other
  (`ExcessOutlivesItsCause`); a task that holds one mutex at a time never has more than it
  is owed once timed-out waiters have cleaned up (`NoExcessWithOneMutex`).
- Overwriting a full queue whose items have no size, such as a binary semaphore that has
  been given, makes its count 2 (`OverwrittenSemaphore`); `CopyDataToQueue` and `Send`
  say that no other call breaks the bound. The interfaces that take and give semaphores
  do not overwrite, but `xQueueOverwrite` accepts any queue of length 1.
- The assertion of `xStreamBufferNextMessageLengthBytes` that a message buffer without a
  whole frame is empty fails while a writer is between publishing the length of a message
  and publishing its data (`PartOfAFrameIsReached`), if the reader has nothing else to
  read, and then only (`PartOfAFrameExactlyWhen`).

Hypotheses, all of them stated as guards of steps or as preconditions:

- Mutexes: no task blocks while it holds a mutex, a free mutex is taken by a task of at
  least the priority of every ready task, a mutex is given by its holder, and nobody
  calls `vTaskPrioritySet`, `vTaskSuspend` or `vTaskDelete` on a task involved.
- Queues: fewer than 127 sends or receives from interrupts while a queue is locked, and no
  reset, suspension or deletion of a task that has been woken.
- Timers: samples of the time less than a wrap apart; room in the command queue for what
  the daemon posts to it, which is one START for each auto-reload timer in the current
  list when the lists are switched, and one when a START or an expired timer that reloads
  is already late by a period, and otherwise nothing; and for the instants of an
  auto-reload timer no other command on it.
- Message buffers used by two sides at once: messages are not empty, and the reader's
  buffer is large enough for each.

## Model

| member | source | states |
|---|---|---|
| `LinkedList.List.constructor` | lib/FreeRTOS/list.c:37-59 | a new list stands for the empty sequence, with the index on the end marker |
| `LinkedList.List.InsertEnd` | lib/FreeRTOS/list.c:74-100 | the pointer surgery puts the item just before the roving index in ring order, so that it is the last to be selected; every link, container and count agrees with the new sequence |
| `LinkedList.List.Insert` | lib/FreeRTOS/list.c:103-167 | the item goes after every item whose key is not larger, equal keys included, and before all larger ones, so that a sorted list stays sorted; the maximum key goes last |
| `LinkedList.List.PlaceFor` | lib/FreeRTOS/list.c:114-152 | both branches, the shortcut for the maximum key and the scan, find the node after which a key belongs |
| `LinkedList.List.ScanFor` | lib/FreeRTOS/list.c:126-151 | the scan ends, because the end marker holds the largest key, and stops at the node after which the key belongs |
| `LinkedList.List.Remove` | lib/FreeRTOS/list.c:170-196 | exactly the given item leaves the sequence, the order of the others stays, the index steps back if it pointed there, and the remaining count is returned |
| `LinkedList.List.NextOwner` | lib/include/private/list.h:277-288 | the index moves one item on, never resting on the end marker, and the owner of that item is returned |
| `LinkedList.List.Head` | lib/include/private/list.h:225 | the head entry is the first item of the sequence |
| `LinkedList.ListsAreDisjoint` | lib/FreeRTOS/list.c:170-196 | no item is in two lists |
| `LinkedList.InsertEndBeside` | lib/FreeRTOS/list.c:74-100 | inserting an item at the end of one list leaves any other list valid and with the contents it had |
| `LinkedList.InsertBeside` | lib/FreeRTOS/list.c:103-167 | sorted insertion into one list leaves any other list valid and with the contents it had |
| `LinkedList.RemoveBeside` | lib/FreeRTOS/list.c:170-196 | removing an item from its list leaves any other list valid and with the contents it had |
| `RoundRobin.InsertKeepsAscending` | lib/FreeRTOS/list.c:103-167 | sorted insertion keeps keys sorted, and every key behind the new one is strictly larger |
| `RoundRobin.SelectionIsFair` | lib/include/private/list.h:277-288 | each selection brings a waiting item exactly one turn nearer, selects it when its turn is 1, and then makes it wait a full round |
| `RoundRobin.InsertEndShiftsTurns` | lib/FreeRTOS/list.c:74-100 | inserting an item delays another by one turn exactly when the index points at that other, and otherwise not at all |
| `RoundRobin.RemoveShiftsTurns` | lib/FreeRTOS/list.c:170-196 | removing an item brings another nearer by one turn exactly when the removed one was to be selected before it |
| `RoundRobin.NewcomerOvertakes` | lib/FreeRTOS/tasks.c:133-148 | a concrete round in which a newcomer is selected before an item that was already waiting: the number of turns of a waiting item can be raised by an insertion |
| `RoundRobin.WaitIsAccountedFor` | lib/FreeRTOS/tasks.c:133-148 | over any run of selections, arrivals and departures during which an item waits, it is passed over fewer times than it had turns to wait plus the arrivals that came while the index pointed at it |
| `RoundRobin.BoundedWaiting` | lib/FreeRTOS/tasks.c:133-148 | once the index lies before a waiting item, it is passed over fewer times than it then has turns to wait, however many others arrive and leave |
| `ReadyHistory.HistoriesAreFair` | lib/FreeRTOS/tasks.c:133-148 | a ready list is what its recorded selections, arrivals and departures have made of it, and both bounds hold between any two moments of that record |
| `Kernel.Scheduler.ReadyTasksArePassedOverBoundedly` | lib/FreeRTOS/tasks.c:133-148 | between any two moments in the life of the scheduler, whatever is called in between, a task that stays ready at a priority without being selected is passed over only within those bounds; no operation changes a ready list but by selections, arrivals and departures, and only a context switch selects |
| `RoundRobin.SelectedOnTurn` | lib/FreeRTOS/tasks.c:133-148 | left alone, an item is selected exactly when its number of turns has passed |
| `Kernel.Scheduler.AddTaskToReadyList` | lib/FreeRTOS/tasks.c:218-222 | the task joins the end of the round of its priority, and the top ready priority bounds it |
| `Kernel.Scheduler.ResetNextTaskUnblockTime` | lib/FreeRTOS/tasks.c:3981-4003 | the next unblock time is the value at the head of the delayed list, which no value in the list precedes, or the maximum if nobody is delayed |
| `Kernel.Scheduler.AddCurrentTaskToDelayedList` | lib/FreeRTOS/tasks.c:5219-5294 | the running task sleeps until the absolute time now + ticks, whichever of the two delayed lists that falls in, or blocks for ever on the maximum delay if it may |
| `Kernel.Scheduler.ReleaseDelayedTasks` | lib/FreeRTOS/tasks.c:2774-2858 | exactly the tasks whose absolute wake time has come become ready and stop waiting for events, and a switch is asked for exactly when one of them preempts |
| `Kernel.Scheduler.SwitchDelayedLists` | lib/FreeRTOS/tasks.c:198-210 | the list that is swapped out at the wrap is empty, so the assertion there never fails; no absolute wake time changes, and the wrap is counted |
| `Kernel.Scheduler.ClockIsAccurate` | lib/FreeRTOS/tasks.c:198-210 | in every valid state the tick count and the overflow counter are the present, and the wraps so far, each modulo its own number of values: what the time-out check takes them for |
| `Kernel.Scheduler.AdvanceTickCount` | lib/FreeRTOS/tasks.c:2745-2767 | one tick passes in absolute time, with the wrap of the count and the swap of the lists hidden |
| `Kernel.Scheduler.IncrementTick` | lib/FreeRTOS/tasks.c:2733-2905 | the step of the abstract machine: unless the scheduler is suspended, absolute time advances by one, exactly the tasks whose wake time has come are readied and leave their event lists, and every other task stays as it was; otherwise one tick is pended and nothing else changes; a switch is asked for exactly if a yield is pending or some task readied has at least the priority of the running one |
| `Kernel.Scheduler.SuspendAll` | lib/FreeRTOS/tasks.c:2153-2160 | only the depth of suspension changes |
| `Kernel.Scheduler.DrainPendingReady` | lib/FreeRTOS/tasks.c:2246-2262 | all tasks readied during the suspension become ready, and no others |
| `Kernel.Scheduler.ReplayPendedTicks` | lib/FreeRTOS/tasks.c:2279-2303 | replaying the pended ticks one by one readies what a single jump to the final time would ready, and uses up every pended tick |
| `Kernel.Scheduler.ResumeAll` | lib/FreeRTOS/tasks.c:2228-2337 | the step of the abstract machine: only the end of the last suspension does anything but lower the depth; it moves absolute time on by the pended ticks, readies exactly the tasks that are pending and those whose wake time has come, takes them off their event lists, and leaves every other task as it was; a yield is pending afterwards exactly if one was before, or one of those tasks has at least the priority of the running one |
| `Kernel.Scheduler.Delay` | lib/FreeRTOS/tasks.c:1366-1405 | the caller sleeps until exactly now + ticks, whatever ticks are pended meanwhile; of the tasks that wait for events exactly those due by then stop waiting, and a yield is pended exactly if one of those due preempts |
| `Kernel.Scheduler.DelayUntil` | lib/FreeRTOS/tasks.c:1277-1359 | the caller sleeps until the previous wake time plus the increment if that is still to come, and the wake time handed back is that instant; of the tasks that wait for events exactly those due by then stop waiting, and a yield is pended exactly if one of those due preempts |
| `Kernel.Scheduler.HighestReadyPriority` | lib/FreeRTOS/tasks.c:133-148 | the downward search ends at the highest priority that has a ready task |
| `Kernel.Scheduler.SelectHighestPriorityTask` | lib/FreeRTOS/tasks.c:133-148 | the task selected is ready, no ready task has a higher priority, and it is the next one in the round of its priority |
| `Kernel.Scheduler.SwitchContext` | lib/FreeRTOS/tasks.c:3020-3092 | with the scheduler suspended a switch is only noted as pending; otherwise a ready task of the highest priority runs |
| `Kernel.Scheduler.PlaceOnEventList` | lib/FreeRTOS/tasks.c:3095-3110 | the caller joins the event list behind every waiter whose item value is not larger and before the first whose value is, and sleeps or blocks; no event item value changes |
| `Kernel.Scheduler.PlaceOnUnorderedEventList` | lib/FreeRTOS/tasks.c:3113-3137 | the caller joins the end of the event list and sleeps or blocks; the value of its event item becomes the given one with the in-use bit set, and no other event item value changes |
| `Kernel.Scheduler.RemoveFromEventList` | lib/FreeRTOS/tasks.c:3174-3239 | the first waiter leaves the event list, in which the others keep their order, and becomes ready, or pending while the scheduler is suspended; a yield is pended exactly if it outranks the running task; no other event list changes |
| `Kernel.Scheduler.RemoveFromUnorderedEventList` | lib/FreeRTOS/tasks.c:3242-3275 | the given waiter leaves its event list, in which the others keep their order, becomes ready at once and finds the value that unblocked it, with the in-use bit set, in its item |
| `Kernel.Scheduler.AddNewTask` | lib/FreeRTOS/tasks.c:1098-1179 | a new task is ready, every other status stays, and it becomes current if none was, or if the scheduler does not run and its priority is at least as high |
| `Kernel.Scheduler.DeleteOther` | lib/FreeRTOS/tasks.c:1184-1270 | the task leaves all lists and the count of tasks, and no other status changes |
| `Kernel.Scheduler.DeleteSelf` | lib/FreeRTOS/tasks.c:1184-1270 | the running task only moves to the termination list, to be cleaned up later |
| `Kernel.Scheduler.SuspendTask` | lib/FreeRTOS/tasks.c:1739-1835 | the task becomes blocked and waits for no event, and no other status changes; before the scheduler starts, if the task was current, a ready task of the highest priority becomes current, or none if none is ready |
| `Kernel.Scheduler.ResumeTask` | lib/FreeRTOS/tasks.c:1891-1938 | a task other than the running one that is blocked and waits for nothing becomes ready, and no other status changes; the call changes nothing for any other task, such as one that sleeps until a time or waits for an event; a yield is asked for exactly if the resumed task has at least the priority of the running one |
| `Kernel.Scheduler.ResumeTaskFromISR` | lib/FreeRTOS/tasks.c:1946-2012 | a task that is blocked and waits for nothing becomes ready, or, while the scheduler is suspended, keeps its status and is marked as pending; the call changes nothing for any other task |
| `Kernel.Scheduler.CheckTasksWaitingTermination` | lib/FreeRTOS/tasks.c:3668-3695 | all deleted tasks are freed and no other task is touched, nor its control block; the count of those waiting ends at 0 |
| `Kernel.Scheduler.StartScheduler` | lib/FreeRTOS/tasks.c:2101-2103 | the tick count starts at the initial one and the next unblock time at the maximum, with nobody delayed |
| `Kernel.Scheduler.PriorityInherit` | lib/FreeRTOS/tasks.c:4053-4139 | a holder of lower priority than the running task rises to that priority, in its ready list if it is in one, keeping its base and its count, and its event item value becomes the maximum less that priority if its top bit is clear; any other holder is left alone; the answer is yes exactly if the priority or the base of the holder was lower; no status changes |
| `Kernel.Scheduler.PriorityDisinherit` | lib/FreeRTOS/tasks.c:4146-4221 | one mutex fewer is held and the base priority stays; with the last mutex the priority is the base priority again, and otherwise it stays; if that changes the priority, the event item value becomes the maximum less the base and a yield is asked for, and otherwise neither |
| `Kernel.Scheduler.PriorityDisinheritAfterTimeout` | lib/FreeRTOS/tasks.c:4228-4331 | a holder of one mutex ends with the higher of its base and the highest priority still waiting; a holder of several is left alone; the event item value becomes the maximum less the new priority if that has changed and the top bit of the value is clear |
| `Kernel.Scheduler.PrioritySet` | lib/FreeRTOS/tasks.c:1569-1732 | the base priority is set, and the priority too unless the current one is inherited; the event item value becomes the maximum less the new priority if the base has changed and the top bit of the value is clear; every task stays in the list its status calls for; a yield is asked for exactly if another task is raised to the running one or the running one is lowered |
| `KernelState.CurrentIsEmptyAtWrap` | lib/FreeRTOS/tasks.c:198-210 | when the tick count wraps nobody is left in the current delayed list |
| `KernelRuns.TicksAreConserved` | lib/FreeRTOS/tasks.c:2733-2905 | over any run of ticks, suspensions, resumptions and any changes to single tasks, tick count plus pended ticks grow by exactly the number of interrupts |
| `KernelRuns.WakesExactlyOnTime` | lib/FreeRTOS/tasks.c:2228-2337 | a sleeping task, whether or not it also waits for an event, is ready and off its event list exactly from the tick that reaches its absolute wake time, in every run that leaves it alone, across wraps and suspensions |
| `KernelRuns.StaysRunnable` | lib/FreeRTOS/tasks.c:2733-2905 | neither ticks nor suspensions take a ready task off the ready lists, nor put it on an event list |
| `KernelRuns.PendingTasksRun` | lib/FreeRTOS/tasks.c:2246-2262 | in every run that leaves it alone, a task made pending during a suspension is ready, and waits for nothing more, as soon as the last suspension has ended |
| `KernelRuns.StaysBlocked` | lib/FreeRTOS/tasks.c:2733-2905 | in every run that leaves it alone, a task that is blocked and not pending stays blocked, and on the event list it is on: neither time nor the end of a suspension wakes it |
| `Partition.EachTaskIsInOneList` | lib/FreeRTOS/tasks.c:218-222 | in every valid state a task's state item is in exactly one of the ready list of its priority, the delayed lists, the suspended and the termination list; its event item is in at most one list |
| `Partition.TasksAreConserved` | lib/FreeRTOS/tasks.c:1098-1179 | the lengths of the ready, delayed, suspended and termination lists add up to the number of tasks |
| `Kernel.Scheduler.CountsAgree` | lib/FreeRTOS/tasks.c:1098-1157 | in every valid state the number of tasks is the total length of the state lists, and the number of deleted tasks to clean up is the length of the termination list |
| `Kernel.Scheduler.IncrementMutexHeldCount` | lib/FreeRTOS/tasks.c:4668-4678 | the running task is returned as the holder and counts one mutex more; nobody is delayed or readied |
| `Periods.DelayUntilIsExact` | lib/FreeRTOS/tasks.c:1277-1359 | the comparison of wrapping tick counts makes the caller sleep exactly if the end of its period lies ahead in absolute time, for exactly the time that is left |
| `Periods.PeriodsDoNotDrift` | lib/FreeRTOS/tasks.c:1277-1359 | the wake time handed back stands for the end of the period at the next call too, so that periods follow each other without drift |
| `Timeouts.TimeOut.Set` | lib/FreeRTOS/tasks.c:3290-3295 | the time-out state records the present |
| `Timeouts.TimeOut.Check` | lib/FreeRTOS/tasks.c:3298-3361 | time is over exactly as the predicate on absolute times says; if it is not, the remaining wait shrinks by the time since entry, counted modulo a wrap, and the entry time moves to the present; if it is, the entry time stays |
| `Timeouts.ExpiryIsExact` | lib/FreeRTOS/tasks.c:3298-3361 | for every wait and every time since entry, the answer is right if and only if less than a full wrap has passed, or what exceeds whole wraps is at least the wait, or the count is past its entry value and the overflow counter differs |
| `Timeouts.MissedDeadline` | lib/FreeRTOS/tasks.c:3298-3361 | a concrete wait whose end goes unnoticed when more than a full wrap passes between two calls |
| `Timeouts.DeadlineIsConserved` | lib/FreeRTOS/tasks.c:3298-3361 | over any calls less than a full wrap apart, time is over exactly at the first call at or after entry plus wait, and until then entry plus remaining wait is that deadline |
| `Timeouts.NeverExpires` | lib/FreeRTOS/tasks.c:3298-3361 | the maximum delay never runs out, whatever the times of the calls |
| `TimerState.DecisionIsExact` | lib/FreeRTOS/timers.c:668-706 | for a command given within a wrap, the timer is processed at once if and only if its expiry has passed in absolute time, and otherwise it goes to the list of the epoch in which it expires |
| `TimerState.StampIsLastInstant` | lib/FreeRTOS/timers.c:668-706 | a command time stands for the last instant with that tick count if and only if the command is less than a full wrap old |
| `TimerState.DecisionIsRightExactlyWhen` | lib/FreeRTOS/timers.c:668-706 | whatever the age of a command, the decision to process its timer at once is right if and only if the command is less than a wrap old or what exceeds whole wraps is at least the period |
| `Timers.LateStartIsMissed` | lib/FreeRTOS/timers.c:709-854 | a run of the timer service in which samples lie less than a wrap apart, and a START that is taken late is filed as pending although its timer has expired |
| `TimerState.LateCommandIsMisjudged` | lib/FreeRTOS/timers.c:668-706 | a concrete command, a full wrap late, whose timer is filed as pending although it has expired |
| `TimerState.FiresOncePerInstant` | lib/FreeRTOS/timers.c:482-520 | in every valid state, after k callbacks a live auto-reload timer started, restarted or given a new period at c with period p is filed under absolute time c+(k+1)p, or has a START pending that carries c+kp, and its j-th callback did not come before c+jp |
| `TimerRuns.StepOk` | lib/FreeRTOS/timers.c:559-616 | whatever step the service takes (a command received, the timers processed, a command issued, a timer created), the invariant is kept, the log of callbacks only grows, and every live timer but one that a task issues a command for keeps its origin and period and only gains callbacks |
| `TimerRuns.FiresOncePerInstantInEveryRun` | lib/FreeRTOS/timers.c:482-520 | in every run in which no task issues a command for it, a live auto-reload timer keeps its origin c and period p; each callback of it in the log is one of its life, the j-th not before c+jp; and after k of them it is filed under c+(k+1)p or has a START pending that carries c+kp: through late processing, list switches and wraps |
| `TimerRuns.NoInstantIsLost` | lib/FreeRTOS/timers.c:559-616 | once no filed timer has expired and no command for it is pending, a live auto-reload timer has been called back exactly once for each of its instants up to the present |
| `Timers.Perform` | lib/FreeRTOS/timers.c:523-556 | a service on which any series of such steps is performed ends in the state of that run, and every live timer that no task issues a command for has kept its instants |
| `TimerState.DrainStepFalls` | lib/FreeRTOS/timers.c:868-908 | an iteration that files a timer again in the list being drained still makes the sum of what is left of the epoch fall, and what it posts is one command for each auto-reload timer that leaves the list for good |
| `Timers.TimerService.constructor` | lib/FreeRTOS/timers.c:917-966 | a service without timers satisfies the invariant |
| `Timers.TimerService.InsertTimerInActiveList` | lib/FreeRTOS/timers.c:668-706 | the value of the item, the list it goes to and the result are those of the decision, and the list stays sorted |
| `Timers.TimerService.ProcessExpiredTimer` | lib/FreeRTOS/timers.c:482-520 | the first timer is called back once, not before its instant, and no other timer is touched; if it reloads it is filed under its next instant, or sent a START if that has passed too, and goes on with its life; if not it becomes inactive and unfiled |
| `Timers.TimerService.SwitchTimerLists` | lib/FreeRTOS/timers.c:857-914 | the drain ends although it may file timers in the list it drains, and does what its iterations do one after the other; every live timer goes on with its life, one-shot timers in the list are called back exactly once, no other timer is touched, the overflow list becomes current, and one START is posted for each auto-reload timer drained |
| `Timers.TimerService.SampleTimeNow` | lib/FreeRTOS/timers.c:645-666 | if less than a full wrap lies between samples, the lists are switched exactly when the count has wrapped, and otherwise nothing changes; every live timer goes on with its life, and the absolute time is known again |
| `Timers.WrapIsDetected` | lib/FreeRTOS/timers.c:645-666 | less than a wrap after the last sample, a smaller tick count means exactly one wrap |
| `Timers.TimerService.ProcessReceivedCommand` | lib/FreeRTOS/timers.c:709-854 | the step of the abstract machine: after the command is taken and the time sampled, only its timer is touched and every life goes on; a START of an age that is decided rightly leaves its timer active, begins the life of an auto-reload timer that has no other command pending, active or not before, and leaves the timer filed under its instant if that lies ahead, and otherwise called back once and, if it reloads, sent a START for the next instant; STOP and DELETE leave it in no list; CHANGE_PERIOD files it one new period from now |
| `Timers.TimerService.StartTimer` | lib/FreeRTOS/timers.c:770-799 | the callback is called exactly if the instant has passed, and no other timer is touched; an auto-reload timer that is in no list and has no other command pending, such as one restarted while it was active, counts its instants from the time the command carries |
| `Timers.TimerService.ChangeTimerPeriod` | lib/FreeRTOS/timers.c:807-820 | the new expiry is now plus the new period, an auto-reload timer with no other command pending counts its instants from now, and no other timer is touched |
| `Timers.TimerService.GetNextExpireTime` | lib/FreeRTOS/timers.c:619-642 | the value at the head is the earliest in the list |
| `Timers.TimerService.ProcessTimerOrBlockTask` | lib/FreeRTOS/timers.c:559-616 | the step of the abstract machine: an expired head alone is called back and renewed, or else the lists are switched, or nothing changes and the daemon waits; it waits only if no filed timer has expired and no instant of a live timer without a command pending has been lost; the wait ends exactly at the first absolute expiry of all the timers or, if the current list is empty, when the tick count is 0, and is without limit exactly if both lists are empty |
| `Timers.TimerService.CreateTimer` | lib/FreeRTOS/timers.c:349-378 | a new timer is in no list, inactive, and disturbs no other |
| `Timers.TimerService.Send` | lib/FreeRTOS/timers.c:381-421 | the step of the abstract machine: the command joins the end of the queue exactly if there is room; it touches the life of no other timer, and a START for a resting auto-reload timer begins its life at the time it carries; that of an active one begins when the START is processed |
| `QueueRing.Queue.constructor` | lib/FreeRTOS/queue.c:255-305 | a new queue stands for the empty sequence |
| `QueueRing.Queue.Reset` | lib/FreeRTOS/queue.c:263-268 | a reset queue stands for the empty sequence, whatever it held |
| `QueueRing.Queue.CopyDataToQueue` | lib/FreeRTOS/queue.c:2070-2146 | at byte level, for every length and item size, the sequence of items gains the item at the back, or at the front, or is replaced by the item alone; the queue stays within its length if and only if its items have a size or it was not full, and otherwise counts 2 |
| `QueueRing.Queue.CopyDataFromQueue` | lib/FreeRTOS/queue.c:2149-2164 | advancing and then reading yields the first item, and leaves the others in order behind the new read position |
| `QueueRing.Queue.Send` | lib/FreeRTOS/queue.c:774-876 | an item is accepted exactly if there is room or it overwrites, and then is behind all others, or in front of them, or alone, as the position says; otherwise the queue is full and nothing changes; the queue stays within its length unless a full queue is overwritten whose items have no size |
| `QueueRing.Queue.Receive` | lib/FreeRTOS/queue.c:1301-1342 | the first item leaves the sequence; an empty queue yields nothing and stays empty |
| `QueueRing.Queue.Peek` | lib/FreeRTOS/queue.c:1661-1712 | the first item is returned and the sequence stays |
| `QueueRing.InStepIsCongruence` | lib/FreeRTOS/queue.c:263-266 | the relation that the invariant keeps between the positions is that the write slot equals read slot + 1 + count modulo the length |
| `QueueRing.OverwrittenSemaphore` | lib/FreeRTOS/queue.c:2079-2143 | a semaphore that has been given, and is then overwritten, counts 2 although its length is 1 |
| `QueueRing.Perform` | lib/FreeRTOS/queue.c:747-954 | over any run of sends to the back and receives on a queue, what was received followed by what is left in its bytes equals what was there followed by what was accepted; a send is accepted exactly if the queue is not full |
| `QueueLock.UnlockOk` | lib/FreeRTOS/queue.c:2167-2284 | unlocking wakes waiters for the counted events, and loses none of those still needed |
| `QueueLock.StepOk` | lib/FreeRTOS/queue.c:747-954 | every step of a send, receive, peek, lock, unlock, timeout or interrupt keeps the accounts of waiters, woken tasks, locks and messages |
| `QueueLock.NoLostWakeUp` | lib/FreeRTOS/queue.c:2167-2284 | in every state of every run, if a task waits to receive then the messages are no more than the tasks woken that have not tried again plus the sends counted in the lock; and likewise for free slots, senders and the other lock |
| `QueueLock.NobodyWaitsInVain` | lib/FreeRTOS/queue.c:1678-1691 | with the scheduler running and no woken task outstanding, no task is blocked on an operation that is possible |
| `QueueLock.WokenTasksRun` | lib/FreeRTOS/queue.c:1358-1411 | a woken task is off both lists and can go on as soon as nobody holds the scheduler |
| `QueueLock.MessagesAreConserved` | lib/FreeRTOS/queue.c:747-954 | in every state of every run the messages are those there at first plus the sends accepted less the receives that succeeded, counted from the messages, the length and the places alone: a peek takes none, nor does an overwrite of a full queue add one |
| `QueueLock.AttemptAchieves` | lib/FreeRTOS/queue.c:774-876 | an attempt succeeds exactly if there is room for a send or a message for a receive or a peek, or it overwrites; the task is then done, and the first waiter that can use what it leaves is woken: a receiver after a send, a sender after a receive, a receiver after a peek; otherwise nobody is woken and nothing is taken |
| `QueueLock.WaitsExactlyWhen` | lib/FreeRTOS/queue.c:913-952 | a task goes on to wait exactly if its time is not over and the queue still does not let it through |
| `QueueLock.ListsChangeByOne` | lib/FreeRTOS/tasks.c:3095-3110 | a task that waits is added to the list of its end of the queue and to no other, and one whose time is over leaves that list and no other |
| `QueueLock.ResumesAsDecided` | lib/FreeRTOS/queue.c:924-952 | once the queue is unlocked and the scheduler goes on, the task is blocked, tries again or gives up, as was decided while the queue was locked |
| `QueueLock.UnlockWakesAsCounted` | lib/FreeRTOS/queue.c:2167-2284 | unlocking an end wakes the first of its waiters, as many as events were counted or as there are |
| `QueueLock.InterruptAchieves` | lib/FreeRTOS/queue.c:957-1110 | an interrupt that sends or receives wakes the first waiter of the other end if that end is not locked, and otherwise counts one event more; if the queue does not let it through nothing changes |
| `Mutex.NoInversion` | lib/FreeRTOS/tasks.c:4053-4331 | in every state of every run, whatever the order of takes, gives and timeouts over any number of mutexes, a holder has at least the priority of every task that waits for a mutex it holds |
| `Mutex.AccountsBalance` | lib/FreeRTOS/tasks.c:4668-4678 | in every state of every run a task's count equals the number of mutexes it holds, a mutex counts 1 exactly when nobody holds it, no priority is below its base, and it equals the base when no mutex is held |
| `Mutex.FreedByTheLastGive` | lib/FreeRTOS/queue.c:596-686 | over any run a recursive mutex is free exactly when it has been given as often as taken |
| `Mutex.CleanupAssertionsHold` | lib/FreeRTOS/tasks.c:4236-4267 | the assertions in the clean-up after a timeout hold: the holder holds a mutex and is not the task that timed out |
| `Mutex.NoExcessAfterCleanup` | lib/FreeRTOS/tasks.c:4246-4316 | after the clean-up a holder of this mutex alone has its base priority or that of a task that still waits, and nothing else about any task has changed |
| `Mutex.HighestIsFirst` | lib/FreeRTOS/queue.c:2045-2065 | the value of the head item gives the highest priority of all the waiters, or 0 if there are none |
| `Mutex.TakeOk` | lib/FreeRTOS/queue.c:1448-1494 | a take keeps the invariant: the new holder is at least as urgent as whoever still waits |
| `Mutex.BlockOk` | lib/FreeRTOS/queue.c:1544-1566 | blocking keeps it: the holder rises before the task joins the list |
| `Mutex.CleanupOk` | lib/FreeRTOS/queue.c:1594-1617 | lowering the holder after a timeout keeps it, whoever holds the mutex by then |
| `Mutex.ReleaseOk` | lib/FreeRTOS/queue.c:2079-2093 | giving a mutex back keeps it: the first waiter, now awake, is at least as urgent as the rest |
| `Mutex.ReprioritizeOk` | lib/FreeRTOS/tasks.c:4228-4331 | the priority of a holder may change to any value its waiters allow without disturbing any other mutex |
| `Mutex.BasePriorityIsConstant` | lib/FreeRTOS/tasks.c:4146-4221 | in every state of every run each task has the base priority it had at first: nothing that inheritance does touches it |
| `Mutex.PriorityIsRestored` | lib/FreeRTOS/tasks.c:4146-4221 | in every state of every run a task that holds no mutex has the priority it had at first, whatever it has inherited in between |
| `Mutex.HeldByItsTaker` | lib/FreeRTOS/queue.c:1448-1494 | in every state of every run a mutex belongs to the task that took it last, until that task frees it, and then to nobody |
| `Mutex.WaitBeginsExactlyWhen` | lib/FreeRTOS/queue.c:1544-1566 | a task waits exactly from when it blocks on the mutex it contends for; it is then among the waiters, the priority of the holder is from then on the higher of the two, and the wait is marked exactly if the priority or the base of the holder was lower |
| `Mutex.WaitEndsExactlyWhen` | lib/FreeRTOS/queue.c:2079-2093 | a wait ends exactly with its time or when the mutex is freed and the task is the first in line, and the task then contends for the mutex |
| `Mutex.NoExcessWithOneMutex` | lib/FreeRTOS/queue.c:1594-1617 | in every state of every run in which a task has never held two mutexes at once, once nobody is left who is about to undo an inheritance on its mutex, the task has the priority it had at first or that of a task that waits |
| `Mutex.ExcessOutlivesItsCause` | lib/FreeRTOS/tasks.c:4228-4331 | a run in which a task that has held two mutexes keeps an inherited priority with the second, for which nobody waits, after it has given the first |
| `EventGroups.EventGroup.SetBits` | lib/FreeRTOS/event_groups.c:519-610 | exactly the waiters whose requests are met, bit by bit, by the old bits together with the given ones leave the list, each with those bits and the mark of a release in its item; no other item changes; a bit is set afterwards exactly if it was set before or is set now and no released task that clears on exit waited for it; nobody whose request is met is left waiting |
| `EventGroups.EventGroup.ReadItem` | lib/FreeRTOS/event_groups.c:547-575 | the bits and the option to clear that the loop reads out of a packed item value are those of the request, and the match is whether all the bits, or any, as the request says, are set |
| `EventGroups.EventGroup.TestWaiter` | lib/FreeRTOS/event_groups.c:547-595 | one iteration removes the waiter exactly if the bits it waits for, all of them or any, are set, leaves the releasing bits in its item, and notes its mask for clearing exactly if it asked for that |
| `EventGroups.EventGroup.TestWaiters` | lib/FreeRTOS/event_groups.c:545-601 | the loop over a list that shrinks under it visits every waiter once |
| `EventGroups.EventGroup.WaitBits` | lib/FreeRTOS/event_groups.c:329-396 | the call returns at once, clearing if asked to, exactly if all the bits waited for, or any, are set; otherwise it returns the bits or joins the list; no other waiter is touched |
| `EventGroups.EventGroup.FinishWait` | lib/FreeRTOS/event_groups.c:399-458 | a task released by bits returns those, without control bits, and all the bits it waited for, or any, are set in them; a task that timed out is never taken for one, and returns the bits of the moment, clearing if asked to exactly if they meet its request |
| `EventGroups.EventGroup.Sync` | lib/FreeRTOS/event_groups.c:206-248 | the task that completes the bits returns them and goes on with every waiter on the same bits; as long as one of the bits is missing none of them does; what the tasks left waiting asked for stays as it was |
| `EventGroups.EventGroup.ClearBits` | lib/FreeRTOS/event_groups.c:461-485 | the old bits are returned, and nobody left waiting is satisfied by what remains |
| `EventGroups.EventGroup.Timeout` | lib/FreeRTOS/event_groups.c:414-443 | a waiter that times out leaves the list, in which the others keep their order, and its item still tells that no bits released it |
| `EventGroups.PackingIsExact` | lib/FreeRTOS/event_groups.c:366-387 | the stored value gives back the bits and both options, and does not look like a release |
| `EventGroups.ReleaseIsExact` | lib/FreeRTOS/event_groups.c:594 | the value stored at a release gives back the bits and tells that bits released the task |
| `EventGroups.ClearMaskIsUnion` | lib/FreeRTOS/event_groups.c:578-582 | a bit is cleared if and only if some released task that clears on exit waited for it |
| `EventGroups.OrderDoesNotMatter` | lib/FreeRTOS/event_groups.c:545-605 | two lists with the same waiters in any order clear the same bits |
| `EventGroups.LeftMembers` | lib/FreeRTOS/event_groups.c:545-601 | the waiters left are exactly those not satisfied, each once |
| `EventGroups.AllOrNone` | lib/FreeRTOS/event_groups.c:212-246 | waiters with the same request are released all or none |
| `EventGroups.ClearingSatisfiesNobody` | lib/FreeRTOS/event_groups.c:605 | clearing bits satisfies no request that was not satisfied before |
| `EventGroups.MeetsAsAsked` | lib/FreeRTOS/event_groups.c:671-700 | the test of the code holds exactly if, for a request for all, every single bit of it is set, and for a request for any, some single bit of it is |
| `EventGroups.OperatorsBitByBit` | lib/FreeRTOS/event_groups.c:671-700 | the operators on words are conjunction, disjunction and difference bit by bit |
| `EventGroups.SettingIsExact` | lib/FreeRTOS/event_groups.c:545-605 | task by task and bit by bit: who leaves the list, which values they carry and which bits are cleared |
| `StreamBuffers.StreamBuffer.constructor` | lib/FreeRTOS/stream_buffer.c:1209-1233 | a new buffer stands for no bytes and no messages |
| `StreamBuffers.StreamBuffer.BytesInBuffer` | lib/FreeRTOS/stream_buffer.c:1189-1206 | the count is the length of the byte sequence between the indices |
| `StreamBuffers.StreamBuffer.SpacesAvailable` | lib/FreeRTOS/stream_buffer.c:470-491 | bytes and spaces add up to one less than the size |
| `StreamBuffers.StreamBuffer.WriteBytes` | lib/FreeRTOS/stream_buffer.c:1088-1131 | the bytes are appended to the sequence, in one copy or in two round the end |
| `StreamBuffers.StreamBuffer.ReadBytes` | lib/FreeRTOS/stream_buffer.c:1134-1186 | the first bytes of the sequence are taken off it, in one copy or in two |
| `StreamBuffers.StreamBuffer.WriteMessage` | lib/FreeRTOS/stream_buffer.c:661-710 | a stream takes what fits of the data, a message buffer a whole frame or nothing |
| `StreamBuffers.StreamBuffer.Send` | lib/FreeRTOS/stream_buffer.c:610-658 | a message is accepted exactly if its frame fits, and is then the last message; a stream accepts a prefix of the bytes, all of them unless it is full afterwards |
| `StreamBuffers.StreamBuffer.ReadMessage` | lib/FreeRTOS/stream_buffer.c:918-967 | the first message is taken whole, or, if it is larger than the reader's buffer, the contents are left as they were although the tail was moved |
| `StreamBuffers.StreamBuffer.Receive` | lib/FreeRTOS/stream_buffer.c:861-915 | a receive yields the first message, if it fits the reader's buffer, or nothing; from a stream it yields the first bytes, as many as the buffer takes unless the stream is empty afterwards, and what is left is the rest |
| `StreamBuffers.StreamBuffer.NextMessageLengthBytes` | lib/FreeRTOS/stream_buffer.c:817-858 | the length of the first message, or 0; the tail comes back to where it was; with no writer at work the assertion that a buffer without a whole frame is empty holds |
| `StreamBuffers.StreamBuffer.MessagesAreParsed` | lib/FreeRTOS/stream_buffer.c:918-967 | the messages a buffer holds are what a reader would make of its bytes |
| `StreamBuffers.ParsingUndoesFraming` | lib/FreeRTOS/stream_buffer.c:684-702 | reading undoes writing for every sequence of messages: their frames parse back to them |
| `StreamBuffers.LengthWordIsExact` | lib/FreeRTOS/stream_buffer.c:691-692 | the four bytes of a length word give back the length |
| `MessageBuffers.StepOk` | lib/FreeRTOS/stream_buffer.c:1088-1186 | every byte copied, index read and index published by either side keeps the invariant |
| `MessageBuffers.MessagesArriveWholeAndInOrder` | lib/FreeRTOS/stream_buffer.c:661-710 | in every state of every interleaving of one writer and one reader, the messages received are the first of those sent |
| `MessageBuffers.EachReceiveReturnsTheNextMessage` | lib/FreeRTOS/stream_buffer.c:918-967 | each receive that completes returns exactly the next message sent |
| `MessageBuffers.ReceivesExactlyWhenThereIsAMessage` | lib/FreeRTOS/stream_buffer.c:780-801 | in every interleaving a receive goes on to read exactly if some message had been sent and not received in the state in which it looked, and otherwise returns with nothing |
| `MessageBuffers.SendsExactlyWhenItFits` | lib/FreeRTOS/stream_buffer.c:661-710 | in every interleaving a send goes on to write exactly if the length word and the data fit in the bytes that were free in the state in which it looked, and otherwise sends nothing |
| `MessageBuffers.ReceiveCompletes` | lib/FreeRTOS/stream_buffer.c:918-967 | a receive that finds a message has received that very message after as many of its own steps as the length word and the message have bytes and four more, and no sooner, whatever the writer does in between |
| `MessageBuffers.SendCompletes` | lib/FreeRTOS/stream_buffer.c:661-710 | a send that finds the space has sent its message after as many of its own steps as the length word and the message have bytes and four more, and no sooner, whatever the reader does in between |
| `MessageBuffers.NeitherSideWaits` | lib/FreeRTOS/stream_buffer.c:1088-1186 | in every state of every interleaving each side can take a step: neither ever waits for the other |
| `MessageBuffers.OnlyWholeFrames` | lib/FreeRTOS/stream_buffer.c:792-794 | unless the reader is in the middle of a message, the bytes between tail and head are whole frames and at most one length word |
| `MessageBuffers.PartOfAFrameExactlyWhen` | lib/FreeRTOS/stream_buffer.c:829-850 | in every state of every interleaving in which the reader is not in the middle of a message, the buffer holds some bytes but no whole frame if and only if all messages sent have been received and the writer is between its two publishes |
| `MessageBuffers.PartOfAFrameIsReached` | lib/FreeRTOS/stream_buffer.c:829-850 | a run that ends in such a state, in which the assertion about an empty buffer fails |

## Left out

- Port layer, stacks, MPU, newlib, tracing, run-time statistics, text formatting: foreign or formatting code.
- Memory: allocation always succeeds, and what is freed is only forgotten; `memcpy` is the assignment of each byte.
- Configuration: the port-optimised ready bitmap, tickless idle and `vTaskStepTick`, queue sets, co-routines, `xTaskAbortDelay` and task notifications are not modelled.
- Task control blocks and list items inside the scheduler: in `Kernel.dfy` they are values in maps keyed by task and item, and its lists are rings as values; only `LinkedList.dfy` has the pointers. Both use the operations of `RoundRobin.dfy`, but that the scheduler's use of the pointers refines its use of the rings is not proved.
- Kernel.Scheduler.IncrementTick: the switch that time slicing asks for is left out, because the configuration turns it off.
- Kernel.Scheduler.Delay: a delay of 0 ticks, which only yields, is left out, because nothing but a context switch happens; of the interrupts that may come while the scheduler is suspended only ticks are in the contract, because `WakesExactlyOnTime` covers any others that leave the caller alone.
- Kernel.Scheduler.DelayUntil: interrupts as for `Delay`.
- Kernel.Scheduler.ResumeAll: the branch for no tasks at all is left out, because the scheduler then cannot have been suspended.
- Kernel.Scheduler.SuspendTask: before the scheduler starts, a call while some task is delayed or waits for termination is left out, because none can be delayed before it has run, and after a deletion the code may look for a ready task where there is none.
- Kernel.Scheduler.DeleteOther: deleting a task that is already waiting for termination is left out, because its control block may have been freed.
- Kernel.Scheduler.PrioritySet: it is not part of the proofs about inheritance, because it may set a base priority above the current one.
- That the running task is always a ready one of the highest priority is not claimed: the code can skip a yield when a waiter exists.
- `vTaskPlaceOnEventListRestricted` and the waiting itself of the timer daemon: only how long it may wait is modelled.
- Timers.TimerService.ProcessReceivedCommand: one iteration of the loop over the commands, because the time is sampled again in each and need not stand still.
- Timers.TimerService.Send: waiting for room in the queue is left out, because the waiting is that of any queue.
- Timers: callbacks that send commands, pended function calls, and the freeing of a dynamically allocated timer on DELETE; every timer is taken to be statically allocated.
- The ACTIVE bit of a timer as membership in a list is not claimed: one-shot timers that are finished in a list switch or by a late START keep it.
- QueueRing.Queue.CopyDataToQueue: the branch for a mutex, which holds no items, is part of `Mutex.dfy`.
- QueueRing.Queue.Send: the waiting around it is modelled in `QueueLock.dfy`, where the items themselves are not.
- QueueRing.Queue.Receive: the waiting around it and the waking of a sender, likewise.
- QueueRing.Queue.Peek: the waiting around it and the waking of another receiver, likewise.
- QueueRing.Queue.Reset: the two lock counts and the waking of a sender are left out, because the locks are modelled in `QueueLock.dfy`.
- QueueLock: a scheduler suspended by the application around calls that do not wait, and the wrap-around of the 8-bit lock counts.
- Mutex: mutexes taken from a wait on a queue set, and the yields that the gives ask for; the take of a recursive mutex and the count of it are one step, which only the holder could tell apart.
- Mutex.HighestIsFirst: the value of a waiter's item is computed from its priority, because a waiter holds nothing and so keeps both from the time it blocks.
- The assertion in `lib/FreeRTOS/queue.c` that no inheritance has occurred when a wait of 0 ticks fails is not claimed to hold.
- Event groups: deletion of a group with waiters, which hands them 0; the bits returned by `xEventGroupSetBits`, which are read after other tasks may have run; the calls from interrupts, which are passed on to the timer daemon.
- StreamBuffers.StreamBuffer.Send: waiting, notification of the other side and the trigger level are left out; so is an empty message, which the code asserts against.
- StreamBuffers.StreamBuffer.Receive: waiting and notification of the other side are left out.
- MessageBuffers: `xStreamBufferNextMessageLengthBytes` and a reader's buffer that is too small, because both put the tail back while the writer may read it.
- The indices of a stream buffer are assumed to leave room for the sum of two in a `size_t`.
