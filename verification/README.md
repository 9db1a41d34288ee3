# A verified model of the kernel

The repository is a C++ refactoring of the FreeRTOS kernel. This project models its stateful cores in
Dafny and proves what they promise over every run, every interleaving and every wrap of the tick count:

* **Lists** (`Rings`, `IntrusiveLists`): the intrusive circular list with its sentinel and round-robin
  cursor, as a class over pointers that refines a sequence with a cursor.
* **Scheduler** (`KernelModel`, `KernelSteps`, `KernelApi`, `KernelInvariant`, `KernelRuns`,
  `KernelSwitches`, `KernelTheorems`, `KernelTicks`, `ReadyTurns`, `KernelTurns`, `KernelFairness`, `Periods`,
  `Scheduler`): state lists, ready bitmap, the two delay lists and their swap, the cached unblock time, pended
  ticks, requests for a switch, and whose turn it is among tasks that come and go. The class `Scheduler.Kernel`
  updates the source's fields step by step with the source's loops; each method is proved
  to compute an operation on the kernel's value `K`, and the theorems are about `K`. The fields `clock` and
  `due` of `K` are the specification's: the number of ticks processed since boot, and the true wake time of
  each delayed task.
* **Time-outs** (`Timeouts`): a budget of ticks that is polled.
* **Priority inheritance** (`Inheritance`, `Mutex`, `MutexRuns`, `MutexTheorems`, `MutexSelfTake`,
  `MutexGivenAway`): one mutex. `Inheritance` holds the protocol with just the state the argument needs;
  `MutexRuns` shows that every kernel operation and every path of `QueueSemaphoreTake` is a step of it, the
  return at the top of the loop after a time-out among them. `MutexSelfTake` builds the run in which a holder
  asks for its own mutex, `MutexGivenAway` the one in which another task gives it.
* **Queues** (`QueueModel`, `Queues`, `QueueProtocol`): the byte ring of a queue as a sequence of items, and
  the lock counters that make "look, then block" safe against interrupt handlers.
* **Stream and message buffers** (`StreamFrames`, `StreamBuffers`, `StreamProtocol`, `StreamMessages`,
  `StreamHandshake`): the ring, the framing, one writer and one reader at the granularity of single index
  reads, byte copies and index stores, whole messages in every interleaving, and the notification handshake.
* **Allocators** (`HeapTape`, `HeapTheorems`, `HeapHeaders`, `HeapProofs`, `HeapRegions`, `CoalescingHeap` for
  `heap_4.c` and `heap_5.c`; `BestFit`, `BestFitHeap` for `heap_2.c`): block headers in memory, linked by
  address, against a tape of cells that follow each other without a gap.
* **Timers** (`Timers`, `TimerDaemon`): the two timer lists, the decision where a timer belongs, the loops
  that catch up, and the commands. Callbacks are events in a log of the specification.

`Basics` holds the tick arithmetic of 32 bits and the option type, `Arithmetic` one fact about quotients.
`dafny verify dfyconfig.toml` checks everything.

## How the source is read

Critical sections and stretches with the scheduler suspended are atomic where the source relies on it;
`QueueProtocol` lets interrupt handlers in between any two accesses to the lock counters. Ticks have 32
bits; `size_t` and `UBaseType_t` have 64, the lock counters 8. `portGET_HIGHEST_PRIORITY` is the highest set
bit, and the bitmap is the set of its bits. Byte alignment is 8, a block header takes 16 bytes.

Some lines cannot mean what they say; they are read by their evident intent:

* `include/list.hpp:92`: the local `Index` hides the member it is initialised from; it is the member.
* `queue.cpp:146-149`: the arguments are stored in the members of the same name.
* `queue.cpp:179`: the local `nWaiting` hides the member; it is the member that is counted.
* `tasks.cpp:122`: `SchedulerSuspended` counts nested suspensions.
* `tasks.cpp:929`: this is the `RemoveFromEventList` that the other files call.
* `timers.cpp:282`: the daemon waits for ever if both lists are empty.

`tasks.cpp:1095` clears the bit of the new priority, not of the old one. It is kept as written: it is exactly
the case that would leave a stale bit (`Mutex.BitmapAfterTimeout`). No run of `MutexTheorems` comes there
(`MutexRuns.NeverAlone`); one in which a task asks for a mutex it holds does (`MutexSelfTake.StaleBitRun`).

## Where the code does less than one might expect

Each of these is a theorem with its exact condition.

* A task that becomes ready is linked just behind the cursor of its ready list, so that it can get ahead of one
  that has been waiting longer. A ready task of the highest priority is passed over at most as often as there
  are tasks ahead of it if and only if the cursor is still coming to it in this lap of the list
  (`KernelFairness.OvertakenIff`; `KernelFairness.OvertakingRun` is a run in which it is passed over once more).
  It never starves: among n tasks it is passed over fewer than 2n times (`KernelFairness.NoTaskStarves`).
* A region of a heap holds the headers of its block and its marker apart exactly if it is large enough for two
  headers once aligned; nothing checks that (`HeapRegions.RoomyIff`).
* The lock counters of a queue are `int8_t`. With 128 tasks or more one can wrap to a negative value, and the
  unlock then wakes nobody although an item has come: `QueueProtocol.ExactLimit` (127 is the exact limit).
* `Reset` of a queue in use makes room for `length` items but wakes one sender. That is enough exactly if
  nobody else waits or as many senders are on their way as there is room (`QueueProtocol.ResetTellsOne`,
  `QueueProtocol.ResetLosesIff`); `QueueProtocol.ResetLoses` is a run in which it is not.
* Overwriting in a queue of more than one item puts the write position out of step unless the queue was
  empty (`Queues.OverwriteKeepsStep`), and then what is sent to the back is not appended
  (`Queues.BackAppendsIff`, `Queues.SentAfterOverwrite`).
* Runs that end with a wrong ready bitmap exist if and only if a task may ask for a mutex it holds, or give one
  that another task holds: `MutexGivenAway.BitmapBreaksIff`. `MutexSelfTake.StaleBitRun` and
  `MutexGivenAway.GivenAwayRun` are such runs, from boot; `Mutex.BitmapAfterTimeout` and
  `Mutex.GivenByAnotherIff` say exactly when a time-out and a give leave a wrong bit.
* `CheckForTimeOut` takes a poll for an early one exactly if the clock has overflowed at least twice and stands
  a little before where it stood: `Timeouts.PollIsExact`, `Timeouts.PollMissesDeadline`. `DelayUntil` has the
  same limit: `Periods.DelaysIfDue`, `Periods.DelaysThoughLate`.
* On a stream the reader and the writer can block on each other exactly if trigger level and room asked for
  exceed the length together: `StreamHandshake.DeadlockIff`.
* The timer daemon notices a wrap of the tick count exactly if it samples the time less than 2^32 ticks after
  the last sample. Once an epoch is not enough: `Timers.WrapSeen`, `Timers.OnceAnEpochIsTooSeldom`.
* The loop of `ReloadTimer` ends if and only if the period is not 0, so that the daemon does not come back from
  an auto-reload timer of period 0 once that is started (`Timers.ReloadEndsIff`); a one-shot timer of period 0
  is called back once. `xTimerChangePeriod` leaves the timer on a list if and only if the new period is not 0;
  otherwise it is active and on no list (`TimerDaemon.Daemon.ProcessCommand`).
* `vPortGetHeapStats` of `heap_5.c` counts the markers between regions as blocks while they are on the list:
  `CoalescingHeap.Heap.GetHeapStats`. A marker leaves the list when the block below it is freed. So a malloc
  and its free restore the free list exactly unless the block takes up all there is below such a marker
  (`HeapTheorems.FreeUndoesMallocIff`, `HeapTheorems.MarkerIsLost`), and the free list depends on the live
  blocks alone if and only if there is one region (`HeapTheorems.HistoryExactIff`).

## Model

| member | source | states |
|---|---|---|
| `Rings.InsertPos` | include/list.hpp:101-110 | everything before the place is at most the value, the next item is larger |
| `Rings.InsertIsStableSorted` | include/list.hpp:101-117 | insertion keeps a sorted list sorted and goes behind equal values |
| `Rings.AdvanceRotates` | include/list.hpp:83-89 | `advance` serves the head of the visiting order and sends it to the back |
| `Rings.ServedIsPrefix` | include/list.hpp:83-89 | n calls serve the first n of the visiting order, for n up to the length |
| `Rings.RoundRobinIsFair` | include/list.hpp:83-89 | n calls on an unchanged list of n items serve each item once and restore the order |
| `Rings.AppendIsVisitedLast` | include/list.hpp:91-99 | an appended item waits for all others but the one just served |
| `Rings.RemoveSkipsNobody` | include/list.hpp:46-56 | removal, even of the item under the cursor, leaves the visiting order of the others |
| `ReadyTurns.NobodyOvertakes` | include/list.hpp:83-99 | what the cursor is coming to is served after at most the items ahead of it, whoever joins and leaves |
| `ReadyTurns.NobodyStarves` | include/list.hpp:83-99 | any item is served after what is left of the lap and one more lap |
| `IntrusiveLists.List.constructor` | include/list.hpp:71-77 | an empty ring with the cursor on the sentinel |
| `IntrusiveLists.List.Head` | include/list.hpp:81 | the first item of the sequence |
| `IntrusiveLists.List.Advance` | include/list.hpp:83-89 | the pointer code is `Rings.Advance`, and returns the head of the visiting order |
| `IntrusiveLists.List.Append` | include/list.hpp:91-99 | the pointer code is `Rings.Append` on the sequence and the cursor |
| `IntrusiveLists.List.Search` | include/list.hpp:102-110 | the search ends, at the sentinel at the latest, at the place of `InsertPos` |
| `IntrusiveLists.List.Insert` | include/list.hpp:101-117 | the pointer code places the item at `InsertPos`, whatever the cursor |
| `IntrusiveLists.List.Remove` | include/list.hpp:46-56 | the pointer code is `Rings.RemoveAt`; the length left is returned and the item is on no list |
| `KernelModel.TakeLinks` | include/list.hpp:46-56 | unlinking takes the item from its list alone, and lists and container pointers still agree |
| `KernelModel.PutLinks` | include/list.hpp:91-117 | linking adds the item to one list alone, and lists and container pointers still agree |
| `KernelModel.AddReadyOk` | tasks.cpp:70-74 | makes the bitmap exact whatever the bit of the task's own priority was; the task is visited last on its ready list, or last but for the task just served |
| `KernelModel.UnreadyOk` | tasks.cpp:63-68 | removing a ready task keeps the bitmap exact |
| `KernelSteps.RouseOk` | tasks.cpp:873-875 | both items leave their lists, the task is ready at its priority, nothing else changes |
| `KernelSteps.SwapFindsEmptyList` | tasks.cpp:185-192 | the current delay list is empty whenever the lists swap |
| `KernelSteps.AdvanceOk` | tasks.cpp:856-860 | after the tick is counted the delay lists hold the tasks of this epoch and the next, none overdue |
| `KernelSteps.WakeDueOk` | tasks.cpp:861-881 | the loop wakes exactly the tasks that are due and sets the cached time to at most every wake time left |
| `KernelSteps.TickOk` | tasks.cpp:851-881 | one tick readies exactly the blocked tasks whose true wake time is the new clock, across a wrap too |
| `KernelSteps.DatedOk` | tasks.cpp:1376-1386 | the 32-bit wake time lies in the next epoch exactly if the addition wraps |
| `KernelSteps.DelayCurrentOk` | tasks.cpp:1364-1387 | the running task is filed to wake at clock plus ticks, or for ever, and the bitmap stays exact |
| `KernelApi.HighestBit` | portable/MSVC-MingW/portmacro.h:122-145 | the largest bit that is set |
| `KernelInvariant.ReprioritiseOk` | tasks.cpp:539-552 | a change of priority moves a ready task and keeps the bitmap exact |
| `KernelInvariant.ResetOk` | tasks.cpp:1034-1036 | the cached time is at most every wake time left, and nothing overdue comes about |
| `KernelInvariant.SetPriorityInv` | tasks.cpp:515-560 | keeps the invariant, changes that task alone, leaves a blocked one blocked, and leaves an event value alone that is in use for bits |
| `KernelInvariant.SuspendTaskInv` | tasks.cpp:562-602 | keeps the invariant, changes that task alone, leaves it suspended, and leaves the cached time that of the first delayed task |
| `KernelInvariant.ResumeInv` | tasks.cpp:604-639 | keeps the invariant and changes at most that task, and only if it was suspended |
| `KernelInvariant.BlockedIff` | tasks.cpp:419-461 | the tasks called blocked are those that do not run, are neither ready nor about to be, do not await their deletion, and have not been suspended by a call |
| `KernelInvariant.AbortDelayInv` | tasks.cpp:823-849 | keeps the invariant; a task that is asleep, for a time or for ever, on an event or on a notification, becomes ready and leaves its event list, and nothing else changes |
| `KernelInvariant.DelayInv` | tasks.cpp:409-417 | keeps the invariant; the running task sleeps until clock plus ticks |
| `KernelInvariant.BlockOnInv` | tasks.cpp:912-915 | keeps the invariant; the running task is on the event list and asleep |
| `KernelInvariant.WakeFromInv` | tasks.cpp:929-943 | keeps the invariant and changes the head of the event list alone; while the scheduler is suspended it goes behind all other pending tasks |
| `KernelInvariant.NotifyInv` | tasks.cpp:1215-1255 | keeps the invariant and changes that task alone: it is notified, and if it was waiting it is ready, or pending while an interrupt finds the scheduler suspended |
| `KernelInvariant.WaitInv` | tasks.cpp:1179-1213 | keeps the invariant and changes the running task alone: a wait that begins leaves it waiting unless it was notified before, one that ends leaves it not waiting |
| `KernelRuns.CreateTaskInv` | tasks.cpp:303-344 | keeps the invariant; one task more, ready at the priority asked for or the highest there is, that holds and waits for nothing |
| `KernelRuns.DeleteTaskInv` | tasks.cpp:346-378 | the task is gone, or waits for the idle task; the counts of tasks and of those waiting agree with the lists |
| `KernelRuns.CleanUpInv` | tasks.cpp:1020-1032 | the head of the termination list is gone and both counts drop |
| `KernelRuns.SwitchInv` | tasks.cpp:902-910 | the task selected is ready, of the highest ready priority, and its turn has come; only the cursor changes |
| `KernelRuns.TickNInv` | tasks.cpp:747-758 | n ticks replayed ready exactly the tasks due within them |
| `KernelRuns.ResumeAllInv` | tasks.cpp:718-771 | pending tasks are ready, the pended ticks have been processed, and what came due meanwhile is ready |
| `KernelSwitches.TicksAsk` | tasks.cpp:876-878 | if nobody outranked the running task before some ticks, somebody does after them exactly if one of the tasks they wake does |
| `KernelSwitches.WantsSwitchTrans` | tasks.cpp:747-758 | a sequence of ticks wants a switch exactly if one part of it does: no reason for a switch goes away before there is one |
| `KernelSwitches.ResumeAsks` | tasks.cpp:731-766 | if nobody outranked the running task when the scheduler was resumed and no switch is asked for, nobody does afterwards |
| `KernelSwitches.TurnsAreFair` | tasks.cpp:902-910 | while nothing else happens, as many switches as there are ready tasks of the highest priority choose each of them once, and leave the order of turns as it was |
| `KernelTurns.StepTurns` | tasks.cpp:194-200 | every kernel step that neither chooses a ready task nor is about it moves its ready list by tasks that join behind the cursor, leave, or are served, and serves one exactly if it is a switch to that priority |
| `KernelFairness.TurnComes` | tasks.cpp:70-74 | in every run, a ready task that the cursor is coming to is passed over at most as often as there were tasks ahead of it, whoever becomes ready meanwhile |
| `KernelFairness.OvertakingRun` | include/list.hpp:46-56 | a run in which a task that the cursor has passed is passed over once more often |
| `KernelFairness.OvertakenIff` | include/list.hpp:91-99 | the exact condition, for a ready task of the highest priority and all runs |
| `KernelFairness.NoTaskStarves` | tasks.cpp:902-910 | in every run among n tasks a ready task is passed over fewer than 2n times by tasks of its priority |
| `KernelTheorems.StepInv` | tasks.cpp:346-943 | every step keeps the invariant, moves clock and pended ticks as it should, and leaves other tasks alone |
| `KernelTheorems.RunInv` | tasks.cpp:346-943 | the invariant (partition, exact bitmap, counts, epoch-pure sorted delay lists, cache) holds throughout every run |
| `KernelTheorems.ExactlyOneList` | tasks.cpp:61-74 | each task's state item is on exactly one state list, once |
| `KernelTheorems.RunPasses` | tasks.cpp:851-881 | over a run that is not about it a task changes only by its wake time coming |
| `KernelTheorems.DelayEndsAtItsTick` | tasks.cpp:1364-1387 | after a delay of n a task is blocked before the n-th processed tick and ready from then on, over any number of wraps |
| `KernelTheorems.AbortWakes` | tasks.cpp:823-849 | however a task went to sleep and whatever happened since, once another task runs `AbortDelay` finds it blocked unless its time has come, and leaves it ready |
| `KernelTheorems.ClockConserved` | tasks.cpp:747-758 | clock plus pended ticks grow by the ticks given, modulo 2^32 |
| `KernelTheorems.TicksConserved` | tasks.cpp:814-821 | tick count plus pended ticks grow by exactly the tick interrupts and catch-up ticks of the run, modulo 2^32 |
| `KernelTicks.FastTickIsNaive` | tasks.cpp:851-881 | the tick with the cached unblock time readies the same tasks in the same order as scanning all of them every tick |
| `KernelTicks.FastTicksAreNaive` | tasks.cpp:851-881 | the same over any number of ticks: the cache never makes a difference to who is ready when |
| `KernelTicks.BootInv` | tasks.cpp:1007-1018 | the kernel with its first task meets the invariant |
| `Periods.DelaysIfDue` | tasks.cpp:387-401 | `DelayUntil` delays if the period has not passed, for what is left of it, exactly if the tick count has not come round |
| `Periods.DelaysThoughLate` | tasks.cpp:387-401 | a call one whole overflow late that delays the task |
| `Periods.PeriodIsKept` | tasks.cpp:380-407 | the task is blocked until the tick its period ends, and ready from then on; if late, it is not delayed |
| `Periods.NoDrift` | tasks.cpp:387-398 | after n calls the stored time is the start plus n periods, however late the calls came |
| `Scheduler.Kernel.constructor` | tasks.cpp:1007-1018 | the invariant holds, and the one task there is runs, is ready and can be scheduled |
| `Scheduler.Kernel.InsertItem` | include/list.hpp:101-117 | the search loop is `InsertInto` |
| `Scheduler.Kernel.Delay` | tasks.cpp:409-417 | keeps the invariant; the running task sleeps until the true clock plus the ticks, and no other task changes |
| `Scheduler.Kernel.DelayUntil` | tasks.cpp:380-402 | returns the time to store; unless the tick count has come round, it delays the task if and only if its period has not passed by the true clock, and then until exactly that time |
| `Scheduler.Kernel.TaskIncrementTick` | tasks.cpp:851-900 | keeps the invariant; while the scheduler runs it readies exactly the tasks whose true wake time has come, and asks for a switch if and only if one of them outranks the running task, or that shares its priority, or a switch is pending |
| `Scheduler.Kernel.WakeDueTasks` | tasks.cpp:861-881 | the wake-up loop is `WakeDue`, and asks for a switch if and only if a task it wakes outranks the running one |
| `Scheduler.Kernel.ResumeAll` | tasks.cpp:718-771 | keeps the invariant; at the end of a suspension pending tasks are ready and the pended ticks processed, and a switch is asked for if and only if one was pending, a pending task outranks the running one, or one of the ticks wants it |
| `Scheduler.Kernel.DrainPendingReady` | tasks.cpp:731-742 | the loop is `Drain`, keeps the invariant, and asks for a switch if and only if a pending task outranks the running one |
| `Scheduler.Kernel.ReplayTicks` | tasks.cpp:747-758 | the loop is `CatchUpPended`, and asks for a switch if and only if a task that comes due in all those ticks outranks the running one, or that shares its priority |
| `Scheduler.Kernel.SwitchContext` | tasks.cpp:902-910 | keeps the invariant; the task that runs now is ready, of the highest ready priority, and its turn has come; while the scheduler is suspended the switch stays pending |
| `Scheduler.Kernel.HighestPriority` | portable/MSVC-MingW/portmacro.h:122-145 | the scan finds `HighestBit` |
| `Scheduler.Kernel.TaskCreate` | tasks.cpp:303-344 | keeps the invariant; the new task is ready at the priority asked for or the highest there is, and no other task changes |
| `Scheduler.Kernel.TaskDelete` | tasks.cpp:346-378 | keeps the invariant; the task is gone, or waits for the idle task, and every other task is as it was |
| `Scheduler.Kernel.TaskSuspend` | tasks.cpp:562-602 | keeps the invariant; the task is suspended, on no event list and no longer waiting for a notification, and every other task is as it was |
| `Scheduler.Kernel.TaskResume` | tasks.cpp:604-615 | keeps the invariant; a task that is suspended by a call, and not the running one, is ready, and nothing changes otherwise |
| `Scheduler.Kernel.TaskResumeFromISR` | tasks.cpp:617-639 | keeps the invariant; a task suspended by a call is ready, or last of the pending ones while the scheduler is suspended, and nothing changes otherwise; a switch is asked for if and only if it is ready and outranks the running task |
| `Scheduler.Kernel.TaskPrioritySet` | tasks.cpp:515-560 | keeps the invariant; the task has the new base priority, runs at it unless it has inherited a higher one, and every other task is as it was |
| `Scheduler.Kernel.AbortTaskDelay` | tasks.cpp:823-849 | keeps the invariant; answers whether the task was asleep, for a time or for ever, and then it is ready and on no event list, and a switch is asked for if it outranks the running one |
| `Scheduler.Kernel.TaskGetStateIsBlocked` | tasks.cpp:419-461 | whether the task is asleep: neither running nor ready nor about to be, nor awaiting its deletion, nor suspended by a call |
| `Scheduler.Kernel.PlaceOnEventList` | tasks.cpp:912-915 | keeps the invariant; the running task is on the event list and sleeps until the true clock plus the ticks |
| `Scheduler.Kernel.RemoveFromEventList` | tasks.cpp:929-943 | keeps the invariant; the head of the event list leaves it and is ready, or last of the pending ones while the scheduler is suspended; a switch is asked for if and only if it outranks the running task |
| `Scheduler.Kernel.GenericNotify` | tasks.cpp:1215-1312 | keeps the invariant; the task is notified, and a waiting one is ready, or last of the pending ones if an interrupt finds the scheduler suspended; an interrupt asks for a switch if that task outranks the running one |
| `Scheduler.Kernel.CheckTasksWaitingTermination` | tasks.cpp:1020-1032 | ends with no task waiting for termination, keeps the invariant, and leaves every other task as it was |
| `Scheduler.Kernel.PriorityInherit` | tasks.cpp:1045-1066 | keeps the invariant; the holder has the maximum of its own and the running priority, and no other task changes |
| `Scheduler.Kernel.PriorityDisinherit` | tasks.cpp:166-181 | for a holder in any state: giving up the last mutex restores its base priority and changes no other task; the exact conditions under which the bitmap stays right and the invariant holds |
| `Scheduler.Kernel.PriorityDisinheritAfterTimeout` | tasks.cpp:1076-1102 | the holder of one mutex has the maximum of its base and the highest waiter and no other task changes; the exact condition under which the invariant, and with it the bitmap, holds |
| `Timeouts.TimeOut.SetTimeOutState` | tasks.cpp:961-964 | notes both digits of the time |
| `Timeouts.TimeOut.CheckForTimeOut` | tasks.cpp:965-992 | unless the poll is confusable it expires if and only if the true time has passed the deadline, and otherwise keeps what remains until then; an aborted wait expires and an endless one does not |
| `Timeouts.PollIsExact` | tasks.cpp:975-991 | a poll expires if and only if the budget is used up, exactly when it is not confusable; one overflow since the last poll never is |
| `Timeouts.PollMissesDeadline` | tasks.cpp:975-991 | a confusable poll, long after the deadline, that does not expire |
| `Timeouts.PollRemains` | tasks.cpp:984-988 | what remains is the budget minus the time elapsed, counted from now |
| `Timeouts.PollsTelescope` | tasks.cpp:961-992 | over any polls the wait expires at the first one at or after the deadline, and until then remains the budget minus elapsed time |
| `Inheritance.TakeInv` | queue.cpp:513-523 | whoever takes the free mutex outranks all that wait |
| `Inheritance.BlockInv` | queue.cpp:537-547 | lending one's priority and waiting keeps the protocol's invariant |
| `Inheritance.GiveInv` | tasks.cpp:166-181 | the giver is back at its base, and the head of the queue outranks the rest |
| `Inheritance.LeaveInv` | tasks.cpp:1076-1102 | after a time-out the holder has exactly the priority it is owed |
| `Inheritance.ReturnInv` | queue.cpp:525-527 | a task whose time was up when it saw the mutex free, and that finds it taken again, does not rank above the base of the holder, and its return keeps the invariant |
| `Inheritance.LeavesCompany` | tasks.cpp:1093-1096 | whenever the holder's priority is about to change, another ready task has the priority it has now |
| `Mutex.InCompany` | tasks.cpp:1086-1099 | then the time-out path is the plain change of priority |
| `Mutex.BitmapAfterTimeout` | tasks.cpp:1093-1098 | the bitmap stays exact if and only if the holder is not lowered from a list of its own |
| `Mutex.TimeoutInv` | tasks.cpp:1076-1102 | the holder alone changes and the kernel invariant holds exactly unless the holder is lowered from a list of its own |
| `Mutex.StaleBit` | tasks.cpp:1094-1096 | otherwise the old bit stays set on an empty list |
| `Mutex.GivenByAnotherIff` | tasks.cpp:166-181 | the exact condition under which a mutex given for its holder, whatever state that is in, leaves the bitmap exact |
| `Mutex.DisinheritInv` | tasks.cpp:166-181 | the giver alone changes and the kernel invariant holds exactly unless it leaves a stale bit or awaits its own deletion |
| `MutexRuns.InheritOk` | tasks.cpp:1045-1066 | lends the holder the running task's priority if that is higher, and keeps the kernel invariant |
| `MutexRuns.TakersInOrder` | tasks.cpp:912-913 | a newcomer goes behind all waiters of its priority or higher |
| `MutexRuns.NeverAlone` | tasks.cpp:1094-1096 | in every reachable state the branch that clears the wrong bit is dead |
| `MutexRuns.DisinheritOk` | tasks.cpp:166-181 | a give takes the holder to its base priority and keeps the kernel invariant |
| `MutexRuns.HighestWaiterView` | queue.cpp:682-687 | the head of the list gives the highest waiting priority |
| `MutexRuns.RequestSound` | queue.cpp:537-547 | asking and waiting is a step of the protocol on the real kernel |
| `MutexRuns.RequestSleeps` | queue.cpp:537-547 | the task that asks is on the mutex's list and sleeps for the ticks it gave, or for ever |
| `MutexRuns.LeaveSound` | queue.cpp:552-562 | giving up is a step of the protocol, and the holder is left with what it is owed |
| `MutexRuns.SeeSound` | queue.cpp:552-564 | going round again on seeing the mutex free is a step of the protocol |
| `MutexRuns.ReturnSound` | queue.cpp:525-527 | so is the return with the time up, and it has lent the holder nothing |
| `MutexRuns.GiveSound` | queue.cpp:180-184 | giving is a step of the protocol |
| `MutexTheorems.MutexRunInv` | queue.cpp:505-565 | kernel invariant, protocol invariant and exact bitmap throughout every run |
| `MutexTheorems.HolderRanks` | tasks.cpp:1045-1102 | the holder is never below its base nor below any task that waits |
| `MutexTheorems.OthersAtBase` | tasks.cpp:1045-1102 | nobody else runs above its base priority |
| `MutexTheorems.TimeoutPaysBack` | tasks.cpp:1076-1102 | right after a time-out the holder has the maximum of its base and the highest remaining waiter |
| `MutexTheorems.LateReturnOwesNothing` | queue.cpp:525-527 | right after that return the holder, in every run, has what it is owed, or some other task in the call has still to take something back |
| `MutexTheorems.GivePaysBack` | tasks.cpp:166-181 | after a give the giver is at its base and the highest waiter is ready |
| `MutexTheorems.BootXInv` | tasks.cpp:1007-1018 | the runs may start from boot |
| `MutexSelfTake.StaleBitRun` | queue.cpp:537-562 | a run from boot in which a holder asks for its own mutex and the bitmap ends up wrong |
| `MutexGivenAway.GivenAwayRun` | tasks.cpp:174-175 | a run from boot in which a task gives the mutex that a delayed holder has, and the bit of two ready tasks is cleared |
| `MutexGivenAway.BitmapBreaksIff` | tasks.cpp:166-181 | runs from boot that end with a wrong bitmap exist if and only if a task may ask for a mutex it holds or give one that it does not |
| `QueueModel.UnlockTxWakes` | queue.cpp:95-115 | unlocking wakes as many of the first waiting receivers as items were counted |
| `QueueModel.UnlockRxWakes` | queue.cpp:117-128 | unlocking wakes as many of the first waiting senders as rooms were counted |
| `QueueModel.CountedIsCapped` | queue.cpp:155-165 | with up to 127 tasks the counter holds the smaller of sends and tasks |
| `QueueModel.CappedWakesTheSame` | queue.cpp:155-165 | capping at the number of tasks wakes the same tasks as no cap |
| `QueueModel.CountedWraps` | queue.cpp:155-165 | with 128 tasks or more the counter wraps to -128 |
| `Queues.BackAppends` | queue.cpp:185-190 | a write at the write position appends, at every wrap |
| `Queues.BackAppendsIff` | queue.cpp:185-190 | for an item that differs from what the first free slot holds, a back write appends if and only if the positions are in step |
| `Queues.FrontPrepends` | queue.cpp:191-196 | a write at the read position prepends, at every wrap |
| `Queues.FrontKeepsStep` | queue.cpp:191-196 | a front write keeps the two positions in step |
| `Queues.ReadPopsFront` | queue.cpp:167-175 | a read takes the front |
| `Queues.OverwriteKeepsStep` | queue.cpp:197-203 | overwriting keeps the positions in step if and only if the queue holds one item or is empty |
| `Queues.SentAfterOverwrite` | queue.cpp:197-203 | a queue of two that is overwritten with one item in it, and loses that item to the next one sent |
| `Queues.Queue.constructor` | queue.cpp:146-153 | an empty queue of the given size |
| `Queues.Queue.CopyInto` | queue.cpp:167-175 | copies the item behind the read position, byte by byte of the ring |
| `Queues.Queue.CopyFrom` | queue.cpp:177-205 | back appends, front prepends, overwrite puts the item first and drops the newest |
| `Queues.Queue.ResetInUse` | queue.cpp:207-227 | empties the queue and wakes one sender |
| `Queues.Queue.Lock` | queue.cpp:86-93 | both counters from unlocked to zero |
| `Queues.Queue.Unlock` | queue.cpp:95-129 | both loops are `UnlockTx` and `UnlockRx` |
| `Queues.Queue.TrySend` | queue.cpp:239-265 | sends exactly if there is room or the send overwrites, wakes a receiver, and the contents change as `Put` says |
| `Queues.Queue.SendFromISR` | queue.cpp:386-410 | the same, but counts while the queue is locked |
| `Queues.Queue.GiveFromISR` | queue.cpp:412-449 | gives a semaphore that is not full |
| `Queues.Queue.TryReceive` | queue.cpp:455-466 | receives the front if there is one, and wakes a sender |
| `Queues.Queue.ReceiveFromISR` | queue.cpp:617-644 | the same, but counts while the queue is locked |
| `Queues.Queue.TryPeek` | queue.cpp:571-584 | returns the front and changes nothing but who is woken |
| `QueueProtocol.StepInv` | queue.cpp:234-295 | every step of every task and interrupt handler keeps the protocol invariant |
| `QueueProtocol.RunInv` | queue.cpp:451-503 | so does every run |
| `QueueProtocol.NoLostWakeup` | queue.cpp:386-503 | with at most 127 tasks and no reset under several senders nobody waits with an item (or room) there that nobody has been woken for; while locked, the credits cover the items and the rooms |
| `QueueProtocol.WakeupCanBeLost` | queue.cpp:155-165 | from 128 tasks on there is a run that loses a wake-up |
| `QueueProtocol.ExactLimit` | queue.cpp:155-165 | runs that lose a wake-up exist if and only if there are at least 128 tasks |
| `QueueProtocol.ResetTellsOne` | queue.cpp:207-227 | a reset provides for the senders if and only if at most one waits or as many are on their way as there is room |
| `QueueProtocol.ResetLosesIff` | queue.cpp:207-227 | in every state a run can reach with good resets so far, a reset loses a wake-up if and only if it is a bad one |
| `QueueProtocol.ResetLoses` | queue.cpp:207-227 | a run with two senders that loses one of them |
| `QueueProtocol.AttemptSucceedsIff` | queue.cpp:239-265 | a round of a call does its work exactly if there is an item to take, or room, or the send overwrites; otherwise the queue is as it was |
| `QueueProtocol.GivesUpIff` | queue.cpp:494-500 | a task that gives up has found no item at its last look, or is a sender |
| `QueueProtocol.WaitsIff` | queue.cpp:476-493 | with the queue locked a task goes on to wait exactly if its time is not up and there still is no item, or no room |
| `QueueProtocol.HandlersLeaveLists` | queue.cpp:386-410 | while the queue is locked an interrupt handler leaves the waiting tasks alone; otherwise it wakes the first |
| `StreamFrames.DecodeEncode` | stream_buffer.cpp:465-469 | a length is read back as it was written |
| `StreamFrames.FirstFrame` | stream_buffer.cpp:573-576 | the contents begin with header and payload of the first message |
| `StreamFrames.FramesDetermineMessages` | stream_buffer.cpp:460-480 | equal bytes are equal messages: the framing is self-delimiting |
| `StreamFrames.MoreThanAHeader` | stream_buffer.cpp:516 | the test against the header size is the test for a message |
| `StreamBuffers.WriteExtends` | stream_buffer.cpp:668-684 | a write in two parts behind the contents adds the data and leaves them alone, at every offset |
| `StreamBuffers.ReadSplits` | stream_buffer.cpp:686-702 | a read in two parts takes a prefix and leaves the rest, at every offset |
| `StreamBuffers.StreamBuffer.constructor` | stream_buffer.cpp:714-735 | an empty buffer |
| `StreamBuffers.StreamBuffer.BytesInBuffer` | stream_buffer.cpp:704-712 | the number of bytes in the ring |
| `StreamBuffers.StreamBuffer.SpacesAvailable` | stream_buffer.cpp:364-379 | the room, one byte less than the length |
| `StreamBuffers.StreamBuffer.WriteMessageToBuffer` | stream_buffer.cpp:460-480 | a whole message or nothing; of a stream, as much as fits |
| `StreamBuffers.StreamBuffer.ReadMessageFromBuffer` | stream_buffer.cpp:568-592 | the first message if it fits the reader's buffer, otherwise nothing changes; of a stream, a prefix |
| `StreamBuffers.StreamBuffer.Send` | stream_buffer.cpp:441-458 | messages or bytes are added at the end |
| `StreamBuffers.StreamBuffer.Receive` | stream_buffer.cpp:546-566 | messages come out whole and in order |
| `StreamBuffers.StreamBuffer.NextMessageLengthBytes` | stream_buffer.cpp:526-544 | the length of the first message, or 0 |
| `StreamBuffers.StreamBuffer.Reset` | stream_buffer.cpp:300-321 | empties the buffer |
| `StreamProtocol.SpaceOf` | stream_buffer.cpp:369-378 | the room between the indices as they were read |
| `StreamProtocol.StepInv` | stream_buffer.cpp:668-712 | every index read, byte copy and index store keeps the invariant |
| `StreamProtocol.NothingLost` | stream_buffer.cpp:364-702 | in every interleaving the bytes received, then the bytes in the ring, are the bytes sent |
| `StreamProtocol.UnreadIsSpared` | stream_buffer.cpp:668-684 | no copy overwrites unread data, though the tail was read a while ago |
| `StreamMessages.WholeMessages` | stream_buffer.cpp:460-592 | in every interleaving of a message buffer the bytes sent are whole messages, those received the first of them, and those in the ring the others |
| `StreamHandshake.NoLostWakeup` | stream_buffer.cpp:409-437 | a blocked writer lacks room or is about to be notified; dually for the reader and the trigger level |
| `StreamHandshake.Deadlock` | stream_buffer.cpp:434-436 | a run in which both are blocked |
| `StreamHandshake.DeadlockIff` | stream_buffer.cpp:409-437 | such a run exists if and only if trigger level plus room asked for exceed the length |
| `StreamHandshake.WaitsIff` | stream_buffer.cpp:409-437 | a reader waits exactly if there is not even one message, or byte; a writer exactly if there is less room than it needs |
| `StreamHandshake.EmptyTakesAll` | stream_buffer.cpp:395-407 | on an empty buffer nobody waits to write: a stream takes as much as it holds, a message that can fit at all fits |
| `StreamHandshake.LooksAgain` | stream_buffer.cpp:434-437 | a writer whose time is up and that had seen no room looks again; a reader that has waited counts again |
| `StreamHandshake.TellsIff` | stream_buffer.cpp:438-458 | the other side is told exactly if something was written and the trigger level is reached, or something was read |
| `HeapTape.FirstFit` | portable/MemMang/heap_4.c:189-199 | the first free block that is large enough |
| `HeapTape.AllocatedValid` | portable/MemMang/heap_4.c:202-238 | allocation keeps the tape gapless and coalesced |
| `HeapTape.AllocatedListing` | portable/MemMang/heap_4.c:210-228 | the free list loses the block and gains its remainder in place; the free bytes drop by the block |
| `HeapTape.FreedValid` | portable/MemMang/heap_4.c:374-424 | a free keeps the tape gapless and coalesced |
| `HeapTape.FreedListing` | portable/MemMang/heap_5.c:363-413 | the source's insertion with merging gives the free list of the merged tape, absorbed markers included |
| `HeapTheorems.FreedBytes` | portable/MemMang/heap_4.c:292 | a free returns exactly the bytes of the block |
| `HeapTheorems.RunInv` | portable/MemMang/heap_5.c:174-336 | over every run the tape stays gapless and coalesced, and the markers stay where they are |
| `HeapTheorems.FreeUndoesMalloc` | portable/MemMang/heap_4.c:187-302 | a malloc and its free at once leave all blocks as they were, with any number of regions |
| `HeapTheorems.FreeUndoesMallocIff` | portable/MemMang/heap_5.c:187-336 | they restore the free list, markers included, if and only if the block does not take up all there is below a marker on the list |
| `HeapTheorems.MarkerIsLost` | portable/MemMang/heap_5.c:363-413 | a heap of two regions that is not restored |
| `HeapTheorems.HistoryDoesNotMatter` | portable/MemMang/heap_5.c:363-413 | two runs that end with the same live blocks end with the same free ones, with any number of regions |
| `HeapTheorems.HistoryExact` | portable/MemMang/heap_4.c:334-424 | with one region they end with the same heap altogether |
| `HeapTheorems.HistoryExactIff` | portable/MemMang/heap_5.c:363-413 | the heap is a function of the live blocks if and only if there is one region |
| `HeapTheorems.FreeingAllRestores` | portable/MemMang/heap_4.c:334-424 | freeing everything in any order restores the heap; with one region exactly |
| `HeapTheorems.OneRegionStays` | portable/MemMang/heap_4.c:334-372 | a heap with the same markers as one of one region has one region too |
| `HeapTheorems.OneRegionIsNormal` | portable/MemMang/heap_4.c:334-372 | with one region, heaps that are equal up to markers are equal |
| `HeapTheorems.NoBlockSpansRegions` | portable/MemMang/heap_5.c:415-507 | in every run each block lies within one region, even where regions touch |
| `HeapTheorems.RunRoomy` | portable/MemMang/heap_4.c:202-238 | if blocks are asked for that hold a header, every cell holds one in every run |
| `HeapRegions.RoomyIff` | portable/MemMang/heap_5.c:433-502 | every cell of a new heap holds its header exactly if each region is large enough for two |
| `HeapRegions.HeadersFit` | portable/MemMang/heap_5.c:433-502 | in every run each header lies within its region, no two overlap, and each block ends before the header of its region's marker |
| `HeapHeaders.BlockSize` | portable/MemMang/heap_4.c:150-174 | the rounded size of a block, or 0 exactly for no request or an overflow |
| `CoalescingHeap.Heap.DefineHeapRegions` | portable/MemMang/heap_5.c:415-507 | each region becomes one free block and a marker, linked in order; block and marker header begin and end within the region, less than an alignment from its limits |
| `CoalescingHeap.Heap.AddRegion` | portable/MemMang/heap_5.c:433-502 | one region more, whose marker header ends within it |
| `CoalescingHeap.Heap.HeapInit` | portable/MemMang/heap_4.c:334-372 | one free block and the end marker, whose header ends within the array |
| `CoalescingHeap.Heap.FindBlock` | portable/MemMang/heap_4.c:189-199 | the walk stops at the first entry that is large enough, or at the end |
| `CoalescingHeap.Heap.Malloc` | portable/MemMang/heap_5.c:174-292 | serves the first block that fits, splits it as the source does, and returns NULL exactly if the source has reason to; NULL changes nothing |
| `CoalescingHeap.Heap.MallocOrInit` | portable/MemMang/heap_4.c:174-258 | the same, on a heap that is set up at the first call |
| `CoalescingHeap.Heap.InsertBlockIntoFreeList` | portable/MemMang/heap_4.c:374-424 | the pointer work yields the list with the block merged in, and touches only headers of entries |
| `CoalescingHeap.Heap.PortFree` | portable/MemMang/heap_5.c:294-336 | frees the allocated block at the address, merging both sides; ignores anything else |
| `CoalescingHeap.Heap.GetHeapStats` | portable/MemMang/heap_5.c:509-557 | largest and smallest entry, the number of entries, markers among them, the free bytes, the fewest there ever were, and the calls that succeeded |
| `BestFit.InsertSorted` | portable/MemMang/heap_2.c:110-128 | insertion keeps the list sorted by size |
| `BestFit.SmallestThatFits` | portable/MemMang/heap_2.c:184-194 | the block taken is a smallest one that is large enough; none is found exactly if there is none |
| `BestFit.MallocInv` | portable/MemMang/heap_2.c:180-225 | the sorted list still holds exactly the free blocks |
| `BestFit.MallocTakes` | portable/MemMang/heap_2.c:180-225 | a smallest free cell that is large enough is carved up, and nothing changes exactly if there is none |
| `BestFit.FreeInv` | portable/MemMang/heap_2.c:243-278 | the allocated cell at the address is free, all others are as they were, and the sorted list still holds exactly the free blocks |
| `BestFit.LastFreedIsTaken` | portable/MemMang/heap_2.c:110-128 | among blocks of equal size the one freed last is taken first |
| `BestFit.BoundariesStay` | portable/MemMang/heap_2.c:202-217 | block boundaries are only ever added |
| `BestFit.RunKeeps` | portable/MemMang/heap_2.c:130-278 | over every run: sorted list, all boundaries, all bytes |
| `BestFitHeap.Heap.HeapInit` | portable/MemMang/heap_2.c:305-323 | one free block ahead of the end marker, aligned and within the array |
| `BestFitHeap.Heap.InsertBlockIntoFreeList` | portable/MemMang/heap_2.c:110-128 | the walk stops ahead of the end marker; the chain is that of the insertion by size |
| `BestFitHeap.Heap.Malloc` | portable/MemMang/heap_2.c:130-241 | serves `BestFit.Malloc`, or NULL exactly if the source has reason to |
| `BestFitHeap.Heap.PortFree` | portable/MemMang/heap_2.c:243-278 | is `BestFit.Free`; the byte count is the sum of the free sizes |
| `Timers.DecisionIsRight` | timers.cpp:307-326 | with any period: fires at once if and only if the true expiry has come; otherwise filed by the epoch of that expiry |
| `Timers.ReloadEndsIff` | timers.cpp:240-245 | the loop ends, whatever the times, if and only if the period is not 0 |
| `Timers.WrapSeen` | timers.cpp:296-305 | the sample counts the wraps rightly if and only if less than 2^32 ticks have passed |
| `Timers.OnceAnEpochIsTooSeldom` | timers.cpp:296-305 | two samples, one in each epoch, that miss a wrap |
| `Timers.NextDue` | timers.cpp:240-245 | the first expiry after now, at most a period away |
| `Timers.CatchUpCount` | timers.cpp:240-245 | the callbacks owed are floor((now - expired) / period) + 1, and the next expiry is that many periods on |
| `TimerDaemon.InsertSortedOk` | timers.cpp:316-322 | the list stays sorted and epoch-pure |
| `TimerDaemon.Daemon.InsertTimerInActiveList` | timers.cpp:307-326 | fires if and only if the true expiry has come, otherwise the timer is linked with that expiry, and no other timer changes |
| `TimerDaemon.Daemon.ReloadTimer` | timers.cpp:240-245 | ends, makes all callbacks owed but the last, and files the timer for its first expiry after now |
| `TimerDaemon.Daemon.ProcessExpiredTimer` | timers.cpp:247-256 | the first timer has all the callbacks it is owed, and is filed again or off |
| `TimerDaemon.Daemon.SwitchTimerLists` | timers.cpp:384-394 | ends, since nothing goes back on the current list; every timer of the epoch has exactly the callbacks it is owed, and no other one any |
| `TimerDaemon.Daemon.SampleTimeNow` | timers.cpp:296-305 | the epoch is that of the true time afterwards, with all timers of a past epoch serviced |
| `TimerDaemon.Daemon.GetNextExpireTime` | timers.cpp:290-294 | the time of the first timer, or 0 |
| `TimerDaemon.Daemon.ProcessTimerOrBlockTask` | timers.cpp:269-288 | after a wrap the timers of the past epoch are serviced; otherwise the first timer is if it is due; exactly if neither is so the daemon blocks, no longer than until the first expiry or the wrap, and for ever only if no timer is linked |
| `TimerDaemon.Daemon.Create` | timers.cpp:141-175 | a timer that is not active and on no list, with any period |
| `TimerDaemon.Daemon.ProcessCommand` | timers.cpp:333-381 | the outcome of each command for its timer, linked and called back as its true expiries demand; the others are only affected by the sample |
| `TimerDaemon.Daemon.StartTimer` | timers.cpp:345-359 | start or reset: the callbacks owed since the command was sent, and the next expiry if there is one |
| `TimerDaemon.Daemon.ChangeTimerPeriod` | timers.cpp:364-369 | the timer is linked one new period from now if and only if that is not 0, and otherwise active and on no list; nothing is called back |

## Left out

- Event groups (`event_groups.cpp`): the test at line 233 is the opposite of what it is for, and a critical section stays open at lines 168-179.
- Starting and ending the scheduler, stacks, names, hooks, handles, statically allocated buffers: nothing to prove beyond the assignments.
- Immediate yields (`portYIELD_WITHIN_API`): a switch is a step of the runs that may come at any time; the methods say when one is asked for. The hook that runs before a deletion and `MissedYield` set `YieldPendings` without further conditions.
- Notification values and their actions: only the notification state matters to who is blocked.
- Unordered event lists (`tasks.cpp:917-927`, `tasks.cpp:945-954`): only event groups and the timer queue use them; the latter is a receiver like any other.
- Queue sets and recursive mutexes: further cases of sending and of giving.
- Stream batching buffers and completion callbacks; `xStreamBufferSetTriggerLevel` during a run.
- `heap_1.c` (a bump pointer) and `heap_3.c` (the library's malloc); the heap canary, `pvPortCalloc` and clearing on free.
- Pended function calls and callback bodies: a callback is an event in a log, and does not call the timer interface itself.
- `stripcmt.cpp` and the thread simulation of `portable/MSVC-MingW/port.c`.
- Weak memory: the `volatile` indices are sequentially consistent.
- `NOverflows` is unbounded, though the source's has the width of a tick: after 2^64 ticks the epochs would repeat.
- `QueueProtocol`: time-outs may come at any time, instead of being computed; `Timeouts` is about their arithmetic.
- `StreamHandshake`: time-outs may come at any time; a message counts by its length alone.
- `MutexTheorems`: no step suspends, deletes, notifies or changes the base priority of a task, and each task holds at most the one mutex. A holder that takes it again is the subject of `MutexSelfTake`, a give by another task of `MutexGivenAway`.
- `CoalescingHeap.Heap.PortFree`: the header in front of the pointer is one the heap has written; writing over headers is not modelled, nor what stale bytes of a freed block look like.
- `Scheduler.Kernel.constructor`: the lists of tasks are values (`Rings`), since one task is on several lists; the pointers are the subject of `IntrusiveLists`.
- `TimerDaemon.Daemon.StartTimer`: a start of an auto-reload timer of period 0 is not described, because the source does not come back from it (`Timers.ReloadEndsIff`).
- `TimerDaemon.Daemon.constructor`: the two timer lists and the queue of commands are values; what the queue does is the subject of `Queues`.
- `KernelTheorems.StepInv`: a task that is waiting for its own deletion is not suspended, notified or deleted again, and a task does not wait while it has its event item on a list.
