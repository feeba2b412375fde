# A verified model of the kernel's task, semaphore, delay and dispatch state

The kernel keeps its state in six stores: the task table, the ring-buffer wait queue of every
semaphore, the compacting delay queue, the dispatcher's current task, the one dispatch-pending
record, and the tick counter. No module owns the agreement between them: a task in `twai_sem`
is in the task table and two queues at once, `wai_sem` marks its caller WAITING before it knows
that the queue has room, and `delay_queue_tick` removes entries from the array it walks while it
edits the task table and the semaphore rings. This project models all six stores with the calls
and the timer interrupt that change them, and proves what holds over every run.

## How the model is built

- **The mutable stores** are classes with the source's own fields, loops, branches and error
  codes: `TaskTable` (`kernel/task.c`, `kernel/scheduler.c`), `Semaphore` and `SemaphoreTable`
  (`kernel/semaphore.c`), `DelayQueue` (`kernel/delay_queue.c`), `ContextLayer`
  (`kernel/task_context.c`), `Dispatcher` and `DispatchPending` (`kernel/dispatcher.c`,
  `kernel/dispatch_pending.c`), and `ItronKernel` on top (`kernel/itron_api.c`,
  `kernel/preemption.c`, `kernel/timer.c` and the handler in `arch/x86_64/interrupt.c`).
- **The specification** (`KernelSpec.dfy`) says what each call does to the stores as one value
  `Kernel`. It keeps the failure exits the source has, reachable or not: a full queue after
  `wai_sem` marked its caller, a waiter that `sig_sem` dequeued and cannot wake, a delay entry
  whose task waits for nothing. The method of every call, and the interrupt handler, is proved to
  take the stores exactly where its function takes their values, from any stores in which ids
  lead back to their slots and the current task is registered.
- **The theorems** are about those functions and about runs of them. `Coherence.dfy` states the
  agreement of the stores, `Preservation.dfy` that every step keeps it, `TickSteps.dfy` that the
  walk over the delay queue is one simultaneous tick, and `Reachable.dfy` spells out what the
  agreement means after boot. `Deadlines.dfy`, `Timeouts.dfy`, `Fifo.dfy`, `Tokens.dfy`,
  `Atomicity.dfy`, `Runners.dfy`, `Dispatching.dfy`, `Refusals.dfy`, `Calls.dfy` and `Effects.dfy`
  hold the properties of whole runs, and `Answers.dfy` gives the code and the effect of every single
  call by conditions that its caller can look at. `ItronKernel.Perform` carries them over to the
  mutable stores.

The table sizes are parameters, so everything holds for every `MAX_TASKS > 0` and every
`MAX_SEMAPHORES`. A run is any sequence of the seventeen steps of `KernelSpec.Step`: `task_register`,
`cre_tsk`, `sta_tsk`, `sem_create`, `dispatcher_commit_current`, `yield_tsk`, `wai_sem`, `pol_sem`,
`twai_sem`, `sig_sem`, `dly_tsk`, `slp_tsk`, `wup_tsk`, `timer_tick`,
`preemption_evaluate_from_irq`, `dispatch_pending_consume_at_deferred_boundary`, and the whole
timer interrupt. `KernelSpec.Defined` asks for arguments on which the code is defined: a commit of
a table entry or NULL, and no successful `cre_tsk` of id 2147483647, because `kernel/task.c:610-612`
would compute that number plus one. `KernelSpec.Allowed` asks besides that no READY task is
committed while another one is RUNNING.

## What the code does that one might not expect

- Failure atomicity is false in one family of cases. A blocking call whose successor's stack is
  shorter than 64 bytes, or ends at address 0, reports `E_OBJ` after its caller is WAITING and the
  successor is current and RUNNING. `FailuresChangeNothing` says that these are all the cases, and
  `AtomicityCanFail`
  is a run from boot that ends in one.
- At most one RUNNING task is false if callers commit tasks as they like, because
  `kernel/dispatcher.c:122-170` does not demote the previous one. `OneRunnerFromBoot` says that the
  rule holds throughout a run exactly if no READY task is committed while another one is RUNNING,
  and `TwoRunners` is a run that breaks it.
- `yield_tsk` reports success even if the dispatcher refuses the switch (`kernel/itron_api.c:818-874`),
  and the consumption of a request forgets it even then. `YieldHidesRefusals`,
  `ConsumeDropsRefusals` and `TimerIrqDropsRefusals` say exactly when this happens and that the
  target is then left RUNNING and not entered; `RefusalFromBoot` is a run that ends in it. A caller
  of `yield_tsk` that is itself the best choice stays READY and current, not RUNNING.
- A zero delay or timeout is `E_PAR`, which comes before the check that the caller runs.
- The comment on `twai_sem` (`kernel/itron_api.c:1312-1327`) says that a signal does not yet remove
  the waiter's delay entry and that a timeout returns `E_TMOUT`. The code removes the entry
  (`kernel/itron_api.c:1252-1261`) and returns `E_OK` as soon as the caller waits; the model follows
  the code. Likewise the comment on `dly_tsk` names a result of -1 where the code returns `E_QOVR`.
- A held request from a task makes an interrupt's request disappear silently, and a newer one from
  a task replaces it. So the interrupt does not always dispatch the best task: `TimerIrqServesTheBest`
  says exactly when it does, and `BestIsPassedOver` is a run from boot after which it does not.

## Model

| member | source | states |
|---|---|---|
| ItronApi.ItronKernel.Perform | kernel/itron_api.c:275-1868 | Any API call, boot-time service or interrupt event, run on the mutable stores of a coherent kernel, ends with all six stores holding exactly what the step's specification says, returns the specified value, and leaves the stores coherent. |
| Reachable.QueuesHoldTheWaiting | kernel/itron_api.c:368-1868 | In every state reachable from boot a registered task is in the delay queue iff it waits for ticks, with its own remaining ticks, and in a semaphore's queue iff it waits on that semaphore; no queue repeats a task; a task that does not wait keeps no wait metadata. |
| Reachable.OneRunner | kernel/dispatcher.c:122-170 | In every state that a run reaches in which no READY task is committed while another one is RUNNING, at most one task is RUNNING and it is the dispatcher's current task; OneRunnerFromBoot says that the condition is exact. |
| Runners.OneRunnerFromBoot | kernel/dispatcher.c:122-170 | For every run from boot, commits at any time included: at most one task is RUNNING, the current one, throughout the run iff no step of it commits a READY task while another one is RUNNING. |
| Runners.StepIsExact | kernel/dispatcher.c:122-170 | From a coherent state a step leads to a coherent state, and to at most one RUNNING task, iff it is not such a commit. |
| Runners.CommitIsExact | kernel/dispatcher.c:122-170 | Committing a READY task keeps the stores in agreement iff nobody is RUNNING; the previous RUNNING task is not demoted. |
| Runners.TwoRunners | kernel/dispatcher.c:122-170 | A run from boot, of two registrations and two commits, that ends with two RUNNING tasks. |
| Reachable.NoLostWakeup | kernel/itron_api.c:1199-1222 | In every reachable state a semaphore with waiters has no token, and 0 <= count <= max. |
| Reachable.IdsAreSound | kernel/task.c:222-292 | In every reachable state the id of each registered task is positive and below the next id to be issued, and lookup by id gives back the task's slot. |
| Reachable.SlotsFillUp | kernel/task.c:222-292 | In every reachable state used slots form a prefix of the table and no two of them have the same id. |
| Reachable.HeldRequestIsSound | kernel/dispatch_pending.c:185-296 | In every reachable state a held request has matching source and reason and names two distinct registered tasks, slot and id in agreement, the target strictly outranking the source; without a request the record is blank. |
| Answers.PolSemAnswers | kernel/itron_api.c:1067-1148 | pol_sem returns E_OK iff a RUNNING caller names a semaphore with a token, and then exactly that counter is one less; E_TMOUT iff the semaphore has none, E_ID iff there is no such semaphore, E_CTX iff the caller does not run, all with nothing changed. |
| Answers.WaiSemAnswers | kernel/itron_api.c:892-1055 | wai_sem returns E_CTX iff the caller does not run and E_ID iff it runs and there is no such semaphore, both with nothing changed. Otherwise either the semaphore lost exactly one token and the caller still runs, or it had none and the caller is WAITING on it, last in its queue, and gives way to the best READY task. |
| Answers.TwaiSemAnswers | kernel/itron_api.c:1328-1625 | The same for twai_sem, with an entry for the ticks in the delay queue; E_CTX without a current task comes before E_PAR for zero ticks, which comes before E_CTX for a caller that does not run. |
| Answers.DlyTskAnswers | kernel/itron_api.c:1663-1868 | dly_tsk's codes by conditions in the source's order; a caller it accepts is WAITING for exactly the ticks, last in the delay queue, semaphores untouched, and gives way. |
| Answers.SlpTskAnswers | kernel/itron_api.c:476-589 | slp_tsk returns E_CTX, nothing changed, iff the caller does not run; else the caller sleeps, in no queue, and gives way. |
| Answers.GiveUpAnswers | kernel/itron_api.c:1013-1055 | Giving way: without a READY task nothing more happens; else the first of the best takes over, E_OK iff its stack has enough room, and every other task is as it was. |
| Answers.SigSemAnswers | kernel/itron_api.c:1161-1309 | sig_sem returns E_ID iff there is no such semaphore, E_QOVR iff it has no waiters and all its tokens, else E_OK. Without waiters E_OK leaves exactly one token more and nothing else changed; with waiters the first is READY, in neither queue, and asks for the processor iff it outranks the RUNNING task. |
| Answers.StaTskAnswers | kernel/itron_api.c:368-465 | sta_tsk returns E_OK iff the id names a DORMANT task, E_ID iff it names none, else E_OBJ, whoever runs and whatever the priorities; only E_OK changes anything: the task is READY and asks for the processor iff it outranks the RUNNING one. |
| Answers.WupTskAnswers | kernel/itron_api.c:601-712 | The same for wup_tsk and tasks that sleep. |
| Answers.YieldTskAnswers | kernel/itron_api.c:731-874 | yield_tsk returns E_CTX, nothing changed, iff the caller does not run, and E_OK otherwise: the caller competes as READY, and either stays current or is switched with the first of the best. |
| Answers.RegisterAnswers | kernel/task.c:462-535 | task_register's refusals by conditions, each with nothing changed; else the next id, and a READY task in the first free slot with the caller's entry, priority, stack base and stack size, no wait, and its context at the stack top. |
| Answers.CreTskAnswers | kernel/itron_api.c:275-356 | cre_tsk's E_ID, E_PAR and E_OBJ by conditions, each with nothing changed; else the same with the caller's id and a DORMANT task, and the next id is behind it. |
| Answers.SemCreateAnswers | kernel/semaphore.c:365-413 | sem_create succeeds iff name and counts are valid, a slot is free and an id is left, with a code for each refusal; the new semaphore has the initial tokens and no waiters. |
| Answers.CommitAnswers | kernel/dispatcher.c:122-170 | A commit of NULL is invalid, one of a task that is not READY in a bad state, both with nothing changed; else exactly that task is RUNNING, and current. |
| Answers.SwitchAnswers | kernel/dispatcher.c:204-325 | The dispatcher's codes by conditions; a switch changes the two tasks, the current task and nothing else, and what it leaves of both, contexts included, is given by their stacks. |
| Answers.EvaluateAnswers | kernel/preemption.c:203-261 | An evaluation touches the request alone: one from a task stays, else it names the first of the best READY tasks iff that one outranks the RUNNING task, and is blank otherwise. |
| Answers.ConsumeAnswers | kernel/dispatch_pending.c:459-527 | Consuming returns the invalid code iff a request is held that cannot be met any more, and drops it; DISPATCHER_OK iff it can be met and both stacks have enough room, and then the switch took place. |
| Answers.TickAnswers | kernel/delay_queue.c:429-547 | One tick, task by task and semaphore by semaphore: each wait for ticks has one less, the last tick ends it, the task leaves its queues with that, and nothing else changes. |
| Answers.TimerIrqIdles | arch/x86_64/interrupt.c:375-460 | Without a RUNNING current task the timer interrupt is the tick, and drops any request. |
| Answers.MoveAnswers | kernel/task.c:783-1631 | The twelve transitions of the task table: which states and arguments each of them takes, which code each refusal has, and that a transition changes state and wait fields of one task and nothing else. |
| Coherence.BootedIsCoherent | kernel/task.c:421-444 | The empty tables after initialisation agree, for all table sizes. |
| Preservation.StepKeeps | kernel/itron_api.c:275-1868 | Each of the seventeen steps keeps the agreement of the six stores; StepIsExact says that the condition on commits is needed. |
| Preservation.RunKeepsCoherence | kernel/itron_api.c:275-1868 | So does every run of them, in any order. |
| Preservation.ReachableIsCoherent | kernel/itron_api.c:275-1868 | So every state reachable from boot is coherent. |
| Preservation.AdvanceKeeps | kernel/delay_queue.c:429-547 | Any number of ticks at once keeps the agreement, whichever waits end. |
| Preservation.CallerHasRoom | kernel/semaphore.c:616-625 | Pigeonhole: in a coherent state every semaphore queue and the delay queue have room for a RUNNING caller, and none holds it already. |
| Preservation.BlockingSucceeds | kernel/itron_api.c:978-1003 | Hence wai_sem, twai_sem and dly_tsk always reach the point where they give up the processor: no refusal by a full or duplicate queue, no WAITING task left unqueued. |
| Preservation.FirstWaiter | kernel/itron_api.c:1235-1276 | The waiter sig_sem dequeues is registered, waits on this semaphore, and is in the delay queue if it has a timeout; so none of the failure exits behind the dequeue can be taken. |
| Preservation.NotWaitingNotQueued | kernel/task.c:783-1025 | A registered task that does not wait is in no queue at all. |
| Preservation.WaitsNowhereElse | kernel/semaphore.c:577-647 | A task is in a semaphore's queue iff it waits on that very semaphore. |
| Preservation.SwitchKeeps | kernel/dispatcher.c:204-325 | A switch changes only states and contexts of tasks that do not wait, and the current task, and keeps the stores in agreement. |
| Atomicity.FailuresChangeNothing | kernel/itron_api.c:275-1868 | A call fails with a changed kernel iff it is a blocking call of a RUNNING caller and the next task's stack is one the context layer refuses; every other failure leaves all stores untouched, sig_sem's failures behind the dequeue included. |
| Atomicity.StackOkExactly | kernel/task_context.c:229-246 | The context layer accepts a registered task's stack iff it has at least 64 bytes and does not end at address 0. |
| Atomicity.GoodStacksMakeCallsAtomic | kernel/task_context.c:229-246 | If every registered stack has at least 64 bytes and does not end at address 0, every failing call is atomic. |
| Atomicity.AtomicityCanFail | kernel/itron_api.c:476-589 | A run from boot, of two registrations and a commit, after which slp_tsk reports E_OBJ and has changed the kernel: the only READY task has a 32-byte stack. |
| Atomicity.OnlySignalsOverflow | kernel/itron_api.c:1199-1222 | E_QOVR is returned iff the call is sig_sem on a semaphore that has all its tokens and no waiters; blocking calls never return it. |
| Deadlines.AdvanceTwice | kernel/delay_queue.c:429-547 | Advancing by m ticks and then by n is advancing by m + n, on tasks, semaphore queues, delay queue and clock together. |
| Deadlines.TicksAddUp | kernel/timer.c:88-106 | n single ticks, one after the other, equal one simultaneous advance by n. |
| Deadlines.TimedStep | kernel/delay_queue.c:443-538 | Under any single step a timed wait goes on for the same deadline, or a signal picks it before the deadline, or this step's tick is the deadline and ends it; one of the three, decided by what the step is. |
| Deadlines.DelayGoesOn | kernel/delay_queue.c:443-538 | Through every run with fewer ticks than remain, whatever else happens in it, a delayed task keeps waiting, and its remaining ticks shrink by exactly the ticks of the run. WaitKeepsDeadline is the statement for waits that a signal can end. |
| Deadlines.DelayEndsOnTime | kernel/delay_queue.c:443-538 | A delayed task leaves WAITING at exactly the tick that uses up its remaining ticks, and is READY after a bare tick. |
| Deadlines.DlyTskWaitsExactly | kernel/itron_api.c:1663-1868 | dly_tsk(n) keeps its caller WAITING through every run with n - 1 ticks, and the n-th tick ends the wait, whatever steps are interleaved. |
| Timeouts.TimeoutEndsInTime | kernel/itron_api.c:1518-1551 | In every run with as many ticks as remain, the first step that ends a timed wait comes no later than its deadline. |
| Timeouts.TimeoutEndsOnce | kernel/delay_queue.c:493-515 | In every run that ends a wait with a deadline, exactly one step is the first to end it. Until then the wait keeps its deadline; the step is a signal that picked the task before the deadline or the tick of the deadline, never both, and leaves the task in no queue. |
| Timeouts.WaitKeepsDeadline | kernel/delay_queue.c:443-538 | Through every run that does not end it, a wait with a deadline, in a delay or on a semaphore, keeps reason, semaphore and deadline, and its remaining ticks shrink by exactly the ticks of the run. |
| Timeouts.TwaiSemWaitsExactly | kernel/itron_api.c:1328-1625 | twai_sem(n) without a token makes its caller wait for this semaphore and n ticks; in every run with at least n ticks exactly one step is the first to end the wait: a signal that picked the caller before n ticks had passed, or the n-th tick. |
| Timeouts.UntimedStep | kernel/task.c:1413-1631 | A task that sleeps or waits on a semaphore without a timeout keeps its control block under every step, ticks included, but a wup_tsk for it or a signal that finds it first in its queue, which make it READY. |
| Timeouts.WaitsUntilWoken | kernel/itron_api.c:476-712 | So it keeps it through every run that does not contain such a step, however many ticks pass. |
| Timeouts.WaitEndsBy | kernel/itron_api.c:1252-1261 | The step that ends a timed wait is a signal that picks the task before its deadline or the tick of the deadline, and not both; the task has then left the delay queue and every semaphore's queue. |
| Timeouts.NotWaitingUntouched | kernel/task.c:1413-1573 | No tick and no signal changes a task that does not wait. |
| Timeouts.NotWaitingStays | kernel/task.c:1413-1573 | A task that does not wait keeps its whole control block through any run of ticks and signals. |
| Fifo.StepOnQueue | kernel/semaphore.c:577-787 | One step changes a semaphore's queue in one of four ways: it appends the blocked caller, pops the front on a signal, drops exactly the tasks whose time is up with the rest in order, or leaves it alone. |
| Fifo.StepIsFifo | kernel/semaphore.c:577-787 | While a task stays queued no step lets anyone overtake it, and every successful signal moves it one place forward. |
| Fifo.RunIsFifo | kernel/semaphore.c:577-787 | The same over whole runs: nobody overtakes, and the position shrinks by at least the number of successful signals. |
| Fifo.BoundedWaiting | kernel/itron_api.c:1161-1309 | A task at position p no longer waits on the semaphore by the time p + 1 signals on it have succeeded, whatever steps come in between. |
| Fifo.SignalServesFirst | kernel/itron_api.c:1161-1309 | A signal on a non-empty queue succeeds and wakes exactly the task that came first; it leaves this queue, and the delay queue if it had a timeout; nothing else in tasks, semaphores or delay queue changes. |
| Tokens.StepOnCount | kernel/semaphore.c:430-513 | One step changes a semaphore's counter by one for a successful signal, less one for a token taken at once, less one for a token passed to a waiter, and not otherwise. |
| Tokens.TakesOnlyWhenNobodyWaits | kernel/semaphore.c:430-470 | No barging: a token is taken at once only while nobody is queued for it. |
| Tokens.TokensAreConserved | kernel/itron_api.c:1199-1276 | Over any run: count == earlier count + successful signals - immediate acquisitions - direct hand-offs, within 0 and max; timeouts and everything else neither make nor lose a token. |
| Tokens.TokensSinceCreation | kernel/semaphore.c:365-413 | The same from sem_create on, starting at the initial count. |
| Effects.TasksAreForever | kernel/task.c:310-351 | In every run registered tasks keep slot, id, entry, priority and stack. |
| Effects.NewTasksAreNew | kernel/task.c:462-634 | A task registered later, by task_register or cre_tsk in any mixture, gets a positive id under which exactly it is found, a slot behind all tasks that were there before, and an id that none of them has. |
| Calls.RegisteredIsFound | kernel/itron_api.c:275-356 | A successful registration puts the task into the first free slot, READY from task_register and DORMANT from cre_tsk, under an id that was unknown and is found afterwards; no other task changes. |
| Calls.BlockedCallerGivesWay | kernel/itron_api.c:892-1055 | A blocking call leaves its caller WAITING and makes the first READY task of the smallest priority number current; without a READY task nobody takes over. |
| Calls.YieldLetsTheBestRun | kernel/itron_api.c:731-874 | yield_tsk makes its caller compete as READY and the first of the best becomes current; that may be the caller, who then stays READY, not RUNNING; otherwise the dispatcher is asked to switch. What a refused switch leaves is said by YieldHidesRefusals. |
| Calls.WakingCallsAsk | kernel/itron_api.c:601-712 | sta_tsk, wup_tsk and sig_sem leave a request for the task they make READY iff it strictly outranks the RUNNING caller, otherwise the old request stays; they never switch themselves. |
| Calls.SleepThenWakeup | kernel/itron_api.c:476-712 | wup_tsk undoes slp_tsk: the sleeper is READY with its wait forgotten, queues as before. |
| Calls.WaitLeaves | kernel/itron_api.c:978-1003 | A wait on an empty queue without a token leaves precisely one waiter, one delay entry iff there is a timeout, and the caller's wait fields set. |
| Calls.WaitThenSignal | kernel/itron_api.c:1161-1309 | sig_sem undoes wai_sem and twai_sem on an empty queue: semaphores and delay queue are what they were and the caller is READY. |
| Dispatching.SwitchIsAllOrNothing | kernel/dispatcher.c:204-325 | A switch from the current task is refused with nothing changed, or both transitions are made and `to` is the only RUNNING task and current when the context layer is entered. |
| Dispatching.SwitchRunsToTheEnd | kernel/dispatcher.c:297-318 | A switch that is not refused at once succeeds, and leaves nobody RUNNING, iff the context layer accepts the stack of `to` and, unless `from` waits, that of `from`: then `to` ends DORMANT, `from` too unless it waits. Otherwise `to` is left current and RUNNING without having been entered. |
| Refusals.SwitchNeedsRoom | kernel/task_context.c:229-246 | The same in terms of what a caller can look at: between tasks that do not wait, a switch succeeds iff both stacks have at least 64 bytes and do not end at address 0. |
| Refusals.YieldHidesRefusals | kernel/itron_api.c:818-874 | yield_tsk always reports E_OK to a RUNNING caller; it hides a refused switch iff the best task is another one and its stack or the caller's is too short or ends at address 0, and exactly then a task is left RUNNING: the best one, current and not entered. |
| Refusals.ConsumeDropsRefusals | kernel/dispatch_pending.c:459-527 | Consuming a request that is still good succeeds iff both stacks have enough room; otherwise the request is gone all the same and its target is left RUNNING and not entered. |
| Refusals.TimerIrqDropsRefusals | arch/x86_64/interrupt.c:415-460 | When a timer interrupt finds a better READY task, nobody is RUNNING afterwards iff both stacks have enough room; otherwise the best task is left RUNNING and not entered, with no request held. |
| Refusals.RefusalFromBoot | kernel/itron_api.c:818-874 | A run from boot, of two registrations and a commit, after which yield_tsk reports E_OK for a refused switch and leaves its target RUNNING, and the timer interrupt does the same. |
| Dispatching.ConsumeOnce | kernel/dispatch_pending.c:459-527 | Consuming always leaves the record empty, a second consume does nothing, and a switch happens iff the recorded source is the RUNNING current task and the target is still READY, however old the request is. |
| Dispatching.EvaluateAsks | kernel/preemption.c:213-252 | Whenever some READY task has a strictly smaller priority number than the RUNNING current one, some request is held after an evaluation. |
| Dispatching.EvaluateFresh | kernel/preemption.c:203-261 | Without a request from a task, an evaluation holds an interrupt's request for the best task iff the current one is outranked, and none otherwise, whatever was held before. |
| Dispatching.TaskRequestStep | kernel/dispatch_pending.c:200-208 | A request from a task outlives every step but a consumption; only a waking call can replace it, by another such request. |
| Dispatching.TaskRequestSurvives | kernel/dispatch_pending.c:337-342 | It survives any run without a consumption, unchanged if there is no waking call either: ticks and evaluations never touch it. |
| Dispatching.TimerIrqSwitches | arch/x86_64/interrupt.c:415-460 | One whole timer interrupt, with a RUNNING current task and no request from a task, switches iff after the tick's own wake-ups some READY task has a strictly smaller priority number; the target is the first of the best; else it is the tick alone. |
| Dispatching.TimerIrqServesTaskRequest | kernel/dispatch_pending.c:200-208 | With a held request from a task the interrupt is the tick followed by that request's consumption: its own evaluation is dropped. |
| Dispatching.TimerIrqServesTheBest | kernel/dispatch_pending.c:200-208 | When some READY task outranks the RUNNING one after the tick, the interrupt makes the first of the best current iff no request from a task is held, or the held one is the current task's own and for just that task. |
| Dispatching.BestIsPassedOver | kernel/dispatch_pending.c:238-261 | A run from boot, of three registrations, a commit and two sta_tsk calls, after which the timer interrupt passes over the best READY task, because the request for it was replaced. |
| TaskContexts.LoneRun | kernel/task_context.c:357-388 | From a prepared task the switch machine runs its entry exactly once, finishes it as DORMANT and is back at boot. |
| TaskContexts.PairRun | kernel/task_context.c:403-583 | From a reserved, prepared pair the machine runs the first entry once, then the second once, ends at boot with both DORMANT and the reservation cleared, restoring only prepared or saved contexts. |
| TaskContexts.InitialRspFits | kernel/task_context.c:259-299 | On every stack the layer accepts the initial stack pointer is the highest address at 8 modulo 16 that leaves room for the return address, and inside the stack, counted in 64-bit arithmetic; as plain numbers it lies between base and top iff the stack does not wrap around address 0. |
| TickSteps.WalkTurns | kernel/delay_queue.c:443-538 | One pass of the tick loop, at the m-th entry of the original queue, turns the state after m simultaneous agings into the state after m + 1. |
| TickSteps.PassTurns | kernel/delay_queue.c:443-538 | That turn is what the pass of the loop computes. |
| TickSteps.WalkIsTick | kernel/delay_queue.c:429-547 | On coherent stores the in-place walk, entry by entry with removals, equals one simultaneous tick of tasks, semaphore queues and delay queue, and removes as many entries as tasks are due. |
| Delays.AgedIds | kernel/delay_queue.c:443-538 | Ageing drops exactly the entries that are due and keeps the others in order. |
| Delays.AgedTwice | kernel/delay_queue.c:443-538 | Ageing the queue by m and then n is ageing it by m + n. |
| Delays.DueTwice | kernel/delay_queue.c:443-538 | Who is due within m + n ticks is due within m, or within n after ageing by m. |
| Delays.DueCount | kernel/delay_queue.c:429-547 | The queue gets shorter by exactly the number of tasks that are due. |
| DelayQueues.DelayQueue.constructor | kernel/delay_queue.c:168-181 | The queue starts empty, every slot blank, as long as the task table. |
| DelayQueues.DelayQueue.FindIndex | kernel/delay_queue.c:149-166 | Finds the first entry of the task, or reports a negative index iff there is none. |
| DelayQueues.DelayQueue.CanEnqueue | kernel/delay_queue.c:183-201 | Says invalid, duplicate, full or fine, in this order of precedence. |
| DelayQueues.DelayQueue.Enqueue | kernel/delay_queue.c:203-281 | Appends the entry iff the task is registered, waits for ticks, is not queued and there is room; every refusal leaves the queue as it was, with its own code. |
| DelayQueues.DelayQueue.RemoveAt | kernel/delay_queue.c:339-354 | Takes out one entry and keeps the order of the others, whatever the index; freed slots are blank. |
| DelayQueues.DelayQueue.RemoveSemTimeoutWaiter | kernel/delay_queue.c:367-414 | Takes out the entry of a task that waits on a semaphore with a timeout, and refuses all others unchanged. |
| DelayQueues.DelayQueue.Expire | kernel/delay_queue.c:493-521 | The end of one wait over task table and semaphore ring, whatever the task waits for; a failed removal from the ring leaves the task as it is. |
| DelayQueues.DelayQueue.TickEntry | kernel/delay_queue.c:443-538 | One pass of the loop on any stores: the entry and the TCB it finds are decremented alike, and the entry stays iff ticks remain. |
| DelayQueues.DelayQueue.Tick | kernel/delay_queue.c:429-547 | On any stores the loop ends, at the state and the count its passes lead to; by WalkIsTick that is one simultaneous tick on coherent stores. |
| Rings.Slot | kernel/semaphore.c:627-633 | The modulo index is the place i slots on, wrapping at the end of the array. |
| Rings.WindowPush | kernel/semaphore.c:627-633 | Storing behind the window appends to the sequence and keeps all slots outside it 0, for every head position. |
| Rings.WindowPop | kernel/semaphore.c:682-686 | Zeroing the first slot and stepping over it drops the sequence's first element, for every head position. |
| Semaphores.Semaphore.constructor | kernel/semaphore.c:331-350 | A blank semaphore: no id, no tokens, an empty ring of zeros. |
| Semaphores.Semaphore.ResetWaitQueue | kernel/semaphore.c:40-54 | Empties the ring and zeroes all its slots. |
| Semaphores.Semaphore.Push | kernel/semaphore.c:627-633 | The ring appends to the sequence it stands for; tail == (head + count) mod N and zeros outside the window are kept. |
| Semaphores.Semaphore.Pop | kernel/semaphore.c:682-686 | The ring gives up its front element; the invariant is kept. |
| Semaphores.Semaphore.CopyOthers | kernel/semaphore.c:744-758 | Copies the queue in order without the first occurrence of the task, and tells whether there was one, across any wrap-around. |
| Semaphores.Semaphore.Rebuild | kernel/semaphore.c:764-772 | The ring holds the kept ids from slot 0 on, zeros behind them. |
| Semaphores.Semaphore.Remove | kernel/semaphore.c:718-787 | One occurrence of the task leaves, the others keep their order, and the ring starts again at slot 0; without an occurrence nothing changes. |
| Semaphores.NewSemaphores | kernel/semaphore.c:331-350 | The static semaphores are blank and share no memory. |
| Semaphores.SemaphoreTable.constructor | kernel/semaphore.c:331-350 | After sem_init every slot is free and the next id is 1. |
| Semaphores.SemaphoreTable.GetById | kernel/semaphore.c:282-319 | Finds the first slot with the positive id, NULL if there is none. |
| Semaphores.SemaphoreTable.FindFreeSlot | kernel/semaphore.c:237-252 | Finds the first free slot, NULL if the table is full. |
| Semaphores.SemaphoreTable.AllocateId | kernel/semaphore.c:259-274 | Issues consecutive ids and refuses, unchanged, at the end of the int range. |
| Semaphores.SemaphoreTable.Create | kernel/semaphore.c:365-413 | Fills the first free slot with the new semaphore and leaves the others alone; invalid arguments, a full table and an exhausted id space are told apart and change nothing. |
| Semaphores.SemaphoreTable.TakeIfAvailable | kernel/semaphore.c:430-470 | Takes one token iff there is one; tells a wait from an unknown id. |
| Semaphores.SemaphoreTable.IncrementCount | kernel/semaphore.c:484-513 | Adds one token iff the maximum is not reached. |
| Semaphores.SemaphoreTable.CanEnqueueWaiter | kernel/semaphore.c:527-552 | Predicts whether the queue has room, and changes nothing. |
| Semaphores.SemaphoreTable.EnqueueWaiter | kernel/semaphore.c:577-647 | Appends the task iff it is registered, waits on this semaphore and there is room; each refusal has its own code and changes nothing. |
| Semaphores.SemaphoreTable.DequeueWaiter | kernel/semaphore.c:660-701 | Hands out the front waiter, or says that the queue is empty; other semaphores are untouched. |
| Semaphores.SemaphoreTable.RemoveWaiter | kernel/semaphore.c:718-787 | Takes the task out of the queue wherever it is, order kept, or says that it was not there. |
| TaskModel.Find | kernel/task.c:716-768 | Lookup gives the first used slot with the positive id, and NULL only if no used slot has it. |
| TaskModel.FreeSlot | kernel/task.c:222-234 | The first unused slot, NULL only if all are used. |
| TaskModel.Best | kernel/scheduler.c:62-93 | The choice is READY, nobody READY has a smaller priority number, ties go to the earliest slot, and NULL means nobody is READY. |
| TaskModel.FindExact | kernel/dispatcher.c:266-295 | With unique ids the id read from a slot leads back to that slot, so pointers and id lookups agree. |
| TaskModel.ExactlyHasRoom | kernel/delay_queue.c:183-201 | A queue that lists exactly the tasks of one kind has room as soon as some slot is not of that kind. |
| TaskModel.ExactlyJoin | kernel/delay_queue.c:203-281 | Appending a task that starts to wait keeps the queue exact. |
| TaskModel.ExactlyLeave | kernel/semaphore.c:718-787 | Dropping those who stop waiting keeps the queue exact and duplicate-free. |
| TaskTables.TaskTable.constructor | kernel/task.c:421-444 | The table starts with blank slots and next id 1. |
| TaskTables.TaskTable.GetById | kernel/task.c:716-768 | The search loop computes that lookup. |
| TaskTables.TaskTable.FindFreeSlot | kernel/task.c:222-234 | The search loop computes that free slot. |
| TaskTables.TaskTable.IdIsInUse | kernel/task.c:273-292 | True iff some used slot has the id. |
| TaskTables.TaskTable.AllocateId | kernel/task.c:247-261 | Issues consecutive ids and refuses, unchanged, at the end of the int range. |
| TaskTables.TaskTable.Register | kernel/task.c:462-535 | A READY task in the first free slot under the next id, each of the caller's arguments in its own field; each refusal has its own code and changes nothing. |
| TaskTables.TaskTable.CreateDormant | kernel/task.c:563-634 | A DORMANT task under the caller's id, each of the caller's arguments in its own field, after which the next automatic id is beyond it; a used id and a full table change nothing. |
| TaskTables.TaskTable.MarkRunning | kernel/task.c:783-837 | READY to RUNNING with cleared wait fields; any other state, an unknown id or a bad id is refused unchanged. |
| TaskTables.TaskTable.MarkReadyFromRunning | kernel/task.c:858-898 | RUNNING to READY, else refused unchanged. |
| TaskTables.TaskTable.StartDormant | kernel/task.c:911-959 | DORMANT to READY, else refused unchanged. |
| TaskTables.TaskTable.MarkDormantFromEntryReturn | kernel/task.c:976-1025 | RUNNING or READY to DORMANT, else refused unchanged. |
| TaskTables.TaskTable.MarkWaitingOnSem | kernel/task.c:1040-1093 | RUNNING to WAITING on the semaphore, else refused unchanged. |
| TaskTables.TaskTable.MarkWaitingOnDelay | kernel/task.c:1110-1155 | RUNNING to WAITING for a positive number of ticks, else refused unchanged. |
| TaskTables.TaskTable.MarkWaitingOnSemTimeout | kernel/task.c:1171-1227 | RUNNING to WAITING on the semaphore for a positive number of ticks, else refused unchanged. |
| TaskTables.TaskTable.MarkWaitingOnSleep | kernel/task.c:1239-1286 | RUNNING to WAITING in sleep, else refused unchanged. |
| TaskTables.TaskTable.WakeWaitingOnSemById | kernel/task.c:1413-1460 | Wakes the task iff it waits on this semaphore, with or without a timeout. |
| TaskTables.TaskTable.WakeWaitingOnDelayById | kernel/task.c:1475-1514 | Wakes the task iff it waits in a delay. |
| TaskTables.TaskTable.WakeWaitingOnSemTimeoutById | kernel/task.c:1531-1573 | Wakes the task iff it waits on this semaphore with a timeout. |
| TaskTables.TaskTable.WakeWaitingOnSleepById | kernel/task.c:1585-1631 | Wakes the task iff it sleeps. |
| TaskTables.TaskTable.SelectNext | kernel/scheduler.c:62-93 | The scan over the whole table finds the scheduler's choice. |
| TaskTables.TaskTable.SelectPreemptionCandidate | kernel/scheduler.c:108-161 | Preemption is needed iff some READY task strictly outranks the RUNNING current one; a best task of equal priority and a current task that does not run are told apart. |
| TaskContexts.ContextLayer.constructor | kernel/task_context.c:26-34 | The layer starts idle. |
| TaskContexts.ContextLayer.Validate | kernel/task_context.c:229-246 | Refuses NULL, a missing or wrapped-to-zero stack, fewer than 64 bytes, and a zero stack pointer, with the source's codes. |
| TaskContexts.ContextLayer.PrepareInitialFrame | kernel/task_context.c:259-299 | A valid task gets a frame that enters the trampoline with itself in r12; an invalid one changes nothing. |
| TaskContexts.ContextLayer.Enter | kernel/task_context.c:461-583 | Entry, finalisation and the choice of where to go next, as one burst of the switch machine, also for a NULL task or entry. |
| TaskContexts.ContextLayer.SwitchToBoot | kernel/task_context.c:565-583 | Saves the task and continues at boot iff boot was saved. |
| TaskContexts.ContextLayer.RunFrom | arch/x86_64/context_switch.asm:16-44 | Following saved and prepared contexts from a switch on terminates, at boot or halted, where the machine's run says. |
| TaskContexts.ContextLayer.SwitchToTask | kernel/task_context.c:357-388 | NULL and a refused stack change nothing; otherwise the layer is where the machine's run ends: back at boot with no active task, or halted. |
| TaskContexts.ContextLayer.RunOne | kernel/dispatcher.c:297-307 | For a waiting `from`: `to` runs once and ends DORMANT, or its stack is refused and nothing changes; the layer is idle again. |
| TaskContexts.ContextLayer.SwitchToTaskPair | kernel/task_context.c:403-447 | NULL, twice the same task and a refused first stack change nothing, a refused second one only the first's prepared frame; otherwise the layer is where the run of the reserved pair ends, in whatever states the tasks are, and the reservation is cleared. |
| TaskContexts.ContextLayer.RunPair | kernel/dispatcher.c:318 | For the dispatcher's pair, READY and RUNNING, the call comes back, both entries have run, in order, and both tasks are DORMANT; the layer is idle again. |
| Dispatchers.Dispatcher.constructor | kernel/dispatcher.c:101-109 | No task is current. |
| Dispatchers.Dispatcher.CommitCurrent | kernel/dispatcher.c:122-170 | A READY task becomes RUNNING and current, everything else is refused unchanged; no previous RUNNING task is demoted. |
| Dispatchers.Dispatcher.Transfer | kernel/dispatcher.c:266-295 | Once the checks passed, both transitions succeed: the error exits between and behind them cannot be taken. |
| Dispatchers.Dispatcher.EnterContexts | kernel/dispatcher.c:297-318 | Which context-layer entry runs, and what the two tasks look like afterwards. |
| Dispatchers.Dispatcher.SwitchTo | kernel/dispatcher.c:204-325 | The whole switch, refusals included, on the mutable stores. |
| Dispatchers.DispatchPending.constructor | kernel/dispatch_pending.c:43 | No request is held. |
| Dispatchers.DispatchPending.Clear | kernel/dispatch_pending.c:119-135 | Afterwards no request is held. |
| Dispatchers.DispatchPending.ClearIrqForEvaluation | kernel/dispatch_pending.c:337-342 | Only an interrupt's request goes. |
| Dispatchers.DispatchPending.RequestFromIrq | kernel/dispatch_pending.c:185-226 | A held request from a task wins over the interrupt's; a NULL argument drops an interrupt's request only. |
| Dispatchers.DispatchPending.RequestFromTask | kernel/dispatch_pending.c:238-296 | A request from a task replaces whatever is held; a NULL argument drops it. |
| ItronApi.ItronKernel.constructor | kernel/timer.c:67-78 | After boot the stores hold the empty kernel. |
| ItronApi.ItronKernel.GiveUp | kernel/itron_api.c:1013-1055 | The switch to the scheduler's choice, re-read by id, on the mutable stores; E_OBJ iff the dispatcher refuses. |
| ItronApi.ItronKernel.BlockOnSem | kernel/itron_api.c:978-1055 | Mark, enqueue, give up: also on stores whose queue is full, where the task stays marked. |
| ItronApi.ItronKernel.WaiSem | kernel/itron_api.c:892-1055 | The call on the mutable stores answers and leaves what WaiSemAnswers says, on all stores at once. |
| ItronApi.ItronKernel.PolSem | kernel/itron_api.c:1067-1148 | The call on the mutable stores answers and leaves what PolSemAnswers says, on all stores at once. |
| ItronApi.ItronKernel.QueueOnSem | kernel/itron_api.c:1518-1543 | Behind the prechecks the mark and the first enqueue of twai_sem succeed. |
| ItronApi.ItronKernel.QueueOnBoth | kernel/itron_api.c:1518-1551 | Behind the prechecks the mark and both enqueues of twai_sem succeed. |
| ItronApi.ItronKernel.BlockOnSemTimeout | kernel/itron_api.c:1450-1625 | The prechecks, queues and switch of twai_sem, also on stores whose queues refuse, where nothing changes. |
| ItronApi.ItronKernel.TwaiSem | kernel/itron_api.c:1328-1625 | The call on the mutable stores answers and leaves what TwaiSemAnswers says, on all stores at once. |
| ItronApi.ItronKernel.BlockOnDelay | kernel/itron_api.c:1724-1868 | The precheck, mark, enqueue and switch of dly_tsk, also on a delay queue that refuses. |
| ItronApi.ItronKernel.DlyTsk | kernel/itron_api.c:1663-1868 | The call on the mutable stores answers and leaves what DlyTskAnswers says, on all stores at once. |
| ItronApi.ItronKernel.SlpTsk | kernel/itron_api.c:476-589 | The call on the mutable stores answers and leaves what SlpTskAnswers says, on all stores at once. |
| ItronApi.ItronKernel.YieldTsk | kernel/itron_api.c:731-874 | The call on the mutable stores answers and leaves what YieldTskAnswers says, on all stores at once. |
| ItronApi.ItronKernel.YieldTo | kernel/itron_api.c:818-874 | The choice after the caller became READY: nothing if the caller is the best itself, else a switch. |
| ItronApi.ItronKernel.Contend | kernel/itron_api.c:1278-1309 | A task made READY asks for the processor iff it strictly outranks the RUNNING current task. |
| ItronApi.ItronKernel.StaTsk | kernel/itron_api.c:368-465 | The call on the mutable stores answers and leaves what StaTskAnswers says, on all stores at once. |
| ItronApi.ItronKernel.WupTsk | kernel/itron_api.c:601-712 | The call on the mutable stores answers and leaves what WupTskAnswers says, on all stores at once. |
| ItronApi.ItronKernel.WakeFirstWaiter | kernel/itron_api.c:1235-1276 | The wake-up behind the dequeue, with each of its failure exits and what it has changed by then. |
| ItronApi.ItronKernel.HandOff | kernel/itron_api.c:1235-1309 | The part of sig_sem behind a successful dequeue. |
| ItronApi.ItronKernel.SigSem | kernel/itron_api.c:1161-1309 | The call on the mutable stores answers and leaves what SigSemAnswers says, on all stores at once. |
| ItronApi.ItronKernel.CommitCurrent | kernel/dispatcher.c:122-170 | The call on the mutable stores answers and leaves what CommitAnswers says, on all stores at once. |
| ItronApi.ItronKernel.TaskRegister | kernel/task.c:462-535 | The call on the mutable stores answers and leaves what RegisterAnswers says, on all stores at once. |
| ItronApi.ItronKernel.CreTsk | kernel/itron_api.c:275-356 | The call on the mutable stores answers and leaves what CreTskAnswers says, on all stores at once. |
| ItronApi.ItronKernel.SemCreate | kernel/semaphore.c:365-413 | The call on the mutable stores answers and leaves what SemCreateAnswers says, on all stores at once. |
| ItronApi.ItronKernel.TimerTick | kernel/timer.c:88-106 | timer_tick is the walk on any stores, one simultaneous tick on coherent ones, and the 64-bit counter stays the elapsed ticks modulo 2^64. |
| ItronApi.ItronKernel.PreemptionEvaluate | kernel/preemption.c:203-261 | The call on the mutable stores answers and leaves what EvaluateAnswers says, on all stores at once. |
| ItronApi.ItronKernel.ConsumePending | kernel/dispatch_pending.c:459-527 | The call on the mutable stores answers and leaves what ConsumeAnswers says, on all stores at once. |
| ItronApi.ItronKernel.TimerIrqHandle | arch/x86_64/interrupt.c:375-460 | The handler is tick, evaluation and consumption, on all stores in which ids lead back to their slots; on coherent ones it is the specified interrupt. |
| ItronApi.WalkKeepsServiceable | kernel/delay_queue.c:429-547 | A walk over any stores keeps ids, used slots and entries, so lookups by id still lead back afterwards. |

## Left out

- Console output, dump functions, names, reason strings and `request_logged`: they have no effect on the stores. A task's or semaphore's name is only its pointer, compared with NULL.
- Hardware: serial line, interrupt controller, descriptor tables, exception handlers, boot and entry assembly.
- `kernel/kernel.c` smoke sequences: they build states by hand, outside what the API promises.
- `sem_legacy_sig_sem_disabled` and its helper, `task_find_waiting_on_sem`, `task_wake_one_waiting_on_sem`, `task_context_switch`: superseded, and not called by the API or the dispatcher.
- Initialisation functions as run steps: they belong to boot, and a second `sem_init` would forget its waiters.
- Calls, and the interrupt handler, are atomic with respect to each other, as the code has no masking; interrupts in the middle of a call and nested interrupts are not modelled. The handler is a repeatable step, although the entry stub halts behind it.
- Task entries return without touching the kernel's state, as those in `kernel/kernel.c` do; a blocked task is not resumed at its call site, because the code does not do it.
- The contents of stacks and of the registers other than rsp and r12. A saved stack pointer is only known not to be 0.
- Counters and priorities are integers without a width: every counter is bounded by its maximum, and priorities are only compared.
- TaskTables.TaskTable.CreateDormant: does not say what a successful call with id 2147483647 does, because the source then adds 1 to it and the C language leaves signed overflow undefined.
- ItronApi.ItronKernel.CreTsk: the same, for the same reason.
- The boot task's own stack: control is either at boot, in a task, or halted.
- `task_get_by_id` and `task_get_mutable_by_id` are one method, which also stands for the lookup loops written out in the state transitions of `kernel/task.c`.
- `wai_sem`, `twai_sem`, `dly_tsk`, `sig_sem`, `yield_tsk`, `dispatcher_switch_to`, `sem_remove_waiter` and `delay_queue_tick` are each split into several methods with contracts of their own.
- A pointer into a table is a slot number and NULL is -1; a pointer to anything else is not modelled.
