/** kernel/itron_api.c, kernel/timer.c, kernel/preemption.c and the timer interrupt handler:
    every call is a row of changes to the six stores. */
module ItronApi {
  import opened KernelTypes
  import opened TaskModel
  import opened KernelSpec
  import opened Coherence
  import opened Preservation
  import opened TickSteps
  import opened TaskTables
  import opened Semaphores
  import opened DelayQueues
  import opened TaskContexts
  import opened Dispatchers

  /** What the calls need of the stores, which is much less than their agreement:
      ids lead back to the slots they were read from, and the current task is registered. */
  ghost predicate Serviceable(k: Kernel) {
    && Identified(k.tasks)
    && (k.current == NULL_SLOT || (IsSlot(k, k.current) && Used(k.tasks[k.current])))
  }

  lemma CoherentIsServiceable(k: Kernel)
    requires Coherent(k)
    ensures Serviceable(k)
  {
    Parts(k);
  }

  /** An id leads back to the RUNNING caller. */
  lemma CallerIsFound(k: Kernel)
    requires Serviceable(k) && IsRunning(k, k.current)
    ensures k.tasks[k.current].id > 0 && Find(k.tasks, k.tasks[k.current].id) == k.current
  {
  }

  lemma QueuedIsIdentified(k: Kernel, s: int, n: nat)
    requires Serviceable(k) && IsRunning(k, k.current) && 0 <= s < |k.sems|
    ensures
      var k1 := QueuedOn(k, s, n);
      Identified(k1.tasks) && IsSlot(k1, k.current) && Used(k1.tasks[k.current])
  {
  }

  class ItronKernel {
    const tasks: TaskTable
    const sems: SemaphoreTable
    const delay: DelayQueue
    const contexts: ContextLayer
    const dispatcher: Dispatcher
    const pending: DispatchPending
    var systemTicks: int
    ghost var elapsed: nat

    /** The stores are wired together and share no memory. */
    ghost predicate Wired()
      reads this, sems, sems.Repr, delay, delay.entries
    {
      && sems.Valid() && delay.Valid()
      && sems.tasks == tasks && delay.tasks == tasks && delay.sems == sems
      && contexts.tasks == tasks && dispatcher.tasks == tasks && dispatcher.contexts == contexts
      && delay.entries.Length == tasks.slots.Length == sems.maxTasks
      && delay as object !in sems.Repr && delay.entries as object !in sems.Repr
      && contexts as object !in sems.Repr && dispatcher as object !in sems.Repr
      && pending as object !in sems.Repr && this as object !in sems.Repr
      && systemTicks == elapsed % ADDRESS_SPACE
    }

    /** The six stores hold what k says. */
    ghost predicate Shows(k: Kernel)
      reads this, sems, sems.Repr, delay, delay.entries
      reads tasks, tasks.slots, contexts, dispatcher, pending
    {
      match k
      case Kernel(ts, nextTask, semView, nextSem, d, current, held, ticks) =>
        && Wired() && contexts.Idle()
        && tasks.slots[..] == ts && tasks.nextId == nextTask
        && sems.View() == semView && sems.nextId == nextSem
        && delay.View() == d
        && dispatcher.current == current
        && pending.state == held
        && elapsed == ticks
    }

    /** The boot-time initialisation of every store. */
    constructor (maxTasks: nat, maxSems: nat)
      requires maxTasks > 0
      ensures Shows(Booted(maxTasks, maxSems))
    {
      var tt := new TaskTable(maxTasks);
      var st := new SemaphoreTable(tt, maxSems);
      var dq := new DelayQueue(tt, st);
      var cl := new ContextLayer(tt);
      var dp := new Dispatcher(tt, cl);
      var pr := new DispatchPending();
      tasks, sems, delay, contexts, dispatcher, pending := tt, st, dq, cl, dp, pr;
      systemTicks, elapsed := 0, 0;
    }

    // ----- blocking calls -------------------------------------------------

    /** The common end of the blocking calls. */
    method GiveUp(from: int, ghost k: Kernel) returns (er: int)
      requires Shows(k) && Identified(k.tasks) && IsSlot(k, from) && Used(k.tasks[from])
      modifies tasks.slots, dispatcher`current, contexts
      ensures Shows(KernelSpec.GiveUp(k, from).0) && er == KernelSpec.GiveUp(k, from).1
    {
      var next := tasks.SelectNext();
      if next < 0 {
        return E_OK;
      }
      FindExact(k.tasks, from);
      FindExact(k.tasks, next);
      var from' := tasks.GetById(tasks.slots[from].id);
      var next' := tasks.GetById(tasks.slots[next].id);
      if from' < 0 || next' < 0 {
        er := E_OBJ;
      } else {
        var r := dispatcher.SwitchTo(from', next', k);
        er := if r != DISPATCHER_OK then E_OBJ else E_OK;
      }
    }

    /** The part of wai_sem behind the failed take: the task is WAITING before the
        enqueue is known to succeed. */
    method BlockOnSem(semId: int, ghost s: int, ghost k: Kernel) returns (er: int)
      requires Shows(k) && Serviceable(k) && IsRunning(k, k.current)
      requires 0 <= s < |k.sems| && s == FindSem(k.sems, semId)
      modifies tasks.slots, sems.Repr, dispatcher`current, contexts
      ensures Shows(Block(k, s, 0).0) && er == Block(k, s, 0).1
    {
      hide KernelSpec.GiveUp;
      hide Identified;
      hide DelayRefuses;
      CallerIsFound(k);
      ghost var k1 := QueuedOn(k, s, 0);
      var current := dispatcher.current;
      var id := tasks.slots[current].id;
      var marked := tasks.MarkWaitingOnSem(id, semId);
      assert marked == 0 && tasks.slots[..] == k1.tasks;
      if marked != 0 {
        return E_OBJ;
      }
      FindSame(k.tasks, k1.tasks, id);
      var queued := sems.EnqueueWaiter(semId, id);
      if queued != SEM_OK {
        return E_OBJ;
      }
      assert sems.View() == k1.sems;
      QueuedIsIdentified(k, s, 0);
      er := GiveUp(current, k1);
    }

    /** wai_sem. */
    method WaiSem(semId: int, ghost k: Kernel) returns (er: int)
      requires Shows(k) && Serviceable(k)
      modifies tasks.slots, sems.Repr, dispatcher`current, contexts
      ensures Shows(KernelSpec.WaiSem(k, semId).0) && er == KernelSpec.WaiSem(k, semId).1
    {
      hide Block;
      hide Identified;
      var current := dispatcher.current;
      if current < 0 {
        return E_CTX;
      }
      if tasks.slots[current].state != Running {
        return E_CTX;
      }
      var s := sems.GetById(semId);
      if s < 0 {
        return E_ID;
      }
      var taken := sems.TakeIfAvailable(semId);
      if taken == SEM_OK {
        return E_OK;
      }
      if taken != SEM_WAIT_REQUIRED {
        return E_ID;
      }
      er := BlockOnSem(semId, s, k);
    }

    /** pol_sem. */
    method PolSem(semId: int, ghost k: Kernel) returns (er: int)
      requires Shows(k) && Serviceable(k)
      modifies sems.Repr
      ensures Shows(KernelSpec.PolSem(k, semId).0) && er == KernelSpec.PolSem(k, semId).1
    {
      hide Identified;
      hide Find;
      hide FindSem;
      var current := dispatcher.current;
      if current < 0 {
        return E_CTX;
      }
      if tasks.slots[current].state != Running {
        return E_CTX;
      }
      var s := sems.GetById(semId);
      if s < 0 {
        return E_ID;
      }
      var taken := sems.TakeIfAvailable(semId);
      if taken == SEM_OK {
        return E_OK;
      }
      if taken == SEM_WAIT_REQUIRED {
        return E_TMOUT;
      }
      er := E_ID;
    }

    /** The mark and the first enqueue of twai_sem. */
    method QueueOnSem(semId: int, n: Ticks, ghost s: int, ghost k: Kernel) returns (er: int)
      requires Shows(k) && Serviceable(k) && IsRunning(k, k.current) && n > 0
      requires 0 <= s < |k.sems| && s == FindSem(k.sems, semId) && |k.sems[s].waiters| < |k.tasks|
      modifies tasks.slots, sems.Repr
      ensures Shows(QueuedOn(k, s, n).(delay := k.delay)) && er == E_OK
    {
      hide Identified;
      CallerIsFound(k);
      ghost var k1 := QueuedOn(k, s, n);
      var id := tasks.slots[dispatcher.current].id;
      var marked := tasks.MarkWaitingOnSemTimeout(id, semId, n);
      assert marked == 0 && tasks.slots[..] == k1.tasks;
      if marked != 0 {
        return E_OBJ;
      }
      assert WaitsOn(k1.tasks[k.current], semId);
      assert k1.sems == k.sems[s := k.sems[s].(waiters := k.sems[s].waiters + [id])];
      assert k1 == k.(tasks := k1.tasks, sems := k1.sems, delay := k1.delay);
      hide QueuedOn;
      FindSame(k.tasks, k1.tasks, id);
      var queued := sems.EnqueueWaiter(semId, id);
      assert queued == SEM_OK && sems.View() == k1.sems;
      if queued != SEM_OK {
        return E_ID;
      }
      er := E_OK;
    }

    /** The mark and the two enqueues of twai_sem, behind the prechecks. */
    method QueueOnBoth(semId: int, n: Ticks, ghost s: int, ghost k: Kernel) returns (er: int)
      requires Shows(k) && Serviceable(k) && IsRunning(k, k.current) && n > 0
      requires 0 <= s < |k.sems| && s == FindSem(k.sems, semId) && |k.sems[s].waiters| < |k.tasks|
      requires !DelayRefuses(k, k.tasks[k.current].id)
      modifies tasks.slots, sems.Repr, delay`count, delay.entries
      ensures Shows(QueuedOn(k, s, n)) && er == E_OK
    {
      hide Identified;
      hide Find;
      hide FindSem;
      hide Ids;
      CallerIsFound(k);
      ghost var k1 := QueuedOn(k, s, n);
      var id := tasks.slots[dispatcher.current].id;
      er := QueueOnSem(semId, n, s, k);
      if er != E_OK {
        return er;
      }
      FindSame(k.tasks, k1.tasks, id);
      var delayed := delay.Enqueue(id, n);
      assert delayed == DELAY_QUEUE_OK;
      if delayed != DELAY_QUEUE_OK {
        return E_QOVR;
      }
      er := E_OK;
    }

    /** The part of twai_sem behind the failed take: two prechecks, then the queues. */
    method BlockOnSemTimeout(semId: int, n: Ticks, ghost s: int, ghost k: Kernel) returns (er: int)
      requires Shows(k) && Serviceable(k) && IsRunning(k, k.current) && n > 0
      requires 0 <= s < |k.sems| && s == FindSem(k.sems, semId)
      modifies tasks.slots, sems.Repr, delay`count, delay.entries, dispatcher`current, contexts
      ensures Shows(Block(k, s, n).0) && er == Block(k, s, n).1
    {
      hide KernelSpec.GiveUp;
      hide Identified;
      hide QueuedOn;
      CallerIsFound(k);
      var current := dispatcher.current;
      var id := tasks.slots[current].id;
      var semRoom := sems.CanEnqueueWaiter(semId, id);
      if semRoom != SEM_OK {
        return E_ID;
      }
      var delayRoom := delay.CanEnqueue(id);
      if delayRoom != DELAY_QUEUE_OK {
        return E_QOVR;
      }
      er := QueueOnBoth(semId, n, s, k);
      if er == E_OK {
        QueuedIsIdentified(k, s, n);
        er := GiveUp(current, QueuedOn(k, s, n));
      }
    }

    /** twai_sem. */
    method TwaiSem(semId: int, n: Ticks, ghost k: Kernel) returns (er: int)
      requires Shows(k) && Serviceable(k)
      modifies tasks.slots, sems.Repr, delay`count, delay.entries, dispatcher`current, contexts
      ensures Shows(KernelSpec.TwaiSem(k, semId, n).0) && er == KernelSpec.TwaiSem(k, semId, n).1
    {
      hide Block;
      hide Identified;
      var current := dispatcher.current;
      if current < 0 {
        return E_CTX;
      }
      if n == 0 {
        return E_PAR;
      }
      if tasks.slots[current].state != Running {
        return E_CTX;
      }
      var s := sems.GetById(semId);
      if s < 0 {
        return E_ID;
      }
      var taken := sems.TakeIfAvailable(semId);
      if taken == SEM_OK {
        return E_OK;
      }
      if taken != SEM_WAIT_REQUIRED {
        return E_ID;
      }
      er := BlockOnSemTimeout(semId, n, s, k);
    }

    /** dly_tsk. */
    method DlyTsk(n: Ticks, ghost k: Kernel) returns (er: int)
      requires Shows(k) && Serviceable(k)
      modifies tasks.slots, delay`count, delay.entries, dispatcher`current, contexts
      ensures Shows(KernelSpec.DlyTsk(k, n).0) && er == KernelSpec.DlyTsk(k, n).1
    {
      hide KernelSpec.GiveUp;
      hide Identified;
      hide DelayRefuses;
      hide DelayedBy;
      var current := dispatcher.current;
      if current < 0 {
        return E_CTX;
      }
      if n == 0 {
        return E_PAR;
      }
      if tasks.slots[current].state != Running {
        return E_CTX;
      }
      er := BlockOnDelay(n, k);
    }

    /** The part of dly_tsk behind its argument checks. */
    method BlockOnDelay(n: Ticks, ghost k: Kernel) returns (er: int)
      requires Shows(k) && Serviceable(k) && IsRunning(k, k.current) && n > 0
      modifies tasks.slots, delay`count, delay.entries, dispatcher`current, contexts
      ensures Shows(KernelSpec.DlyTsk(k, n).0) && er == KernelSpec.DlyTsk(k, n).1
    {
      hide KernelSpec.GiveUp;
      hide Identified;
      CallerIsFound(k);
      var current := dispatcher.current;
      var id := tasks.slots[current].id;
      var room := delay.CanEnqueue(id);
      if room != DELAY_QUEUE_OK {
        return E_QOVR;
      }
      var marked := tasks.MarkWaitingOnDelay(id, n);
      assert marked == 0;
      if marked != 0 {
        return E_OBJ;
      }
      FindSame(k.tasks, tasks.slots[..], id);
      var delayed := delay.Enqueue(id, n);
      assert delayed == DELAY_QUEUE_OK;
      if delayed != DELAY_QUEUE_OK {
        return E_OBJ;
      }
      ghost var k1 := DelayedBy(k, n);
      IdentifiedSame(k.tasks, current, k1.tasks[current]);
      er := GiveUp(current, k1);
    }

    /** slp_tsk. */
    method SlpTsk(ghost k: Kernel) returns (er: int)
      requires Shows(k) && Serviceable(k)
      modifies tasks.slots, dispatcher`current, contexts
      ensures Shows(KernelSpec.SlpTsk(k).0) && er == KernelSpec.SlpTsk(k).1
    {
      hide KernelSpec.GiveUp;
      hide Identified;
      var current := dispatcher.current;
      if current < 0 {
        return E_CTX;
      }
      if tasks.slots[current].state != Running {
        return E_CTX;
      }
      CallerIsFound(k);
      var marked := tasks.MarkWaitingOnSleep(tasks.slots[current].id);
      assert marked == 0;
      if marked != 0 {
        return E_OBJ;
      }
      ghost var k1 := Put(k, k.current, Moved(k.tasks[k.current], WaitOnSleep));
      IdentifiedSame(k.tasks, current, k1.tasks[current]);
      er := GiveUp(current, k1);
    }

    /** yield_tsk: whatever the dispatcher answers is not reported. */
    method YieldTsk(ghost k: Kernel) returns (er: int)
      requires Shows(k) && Serviceable(k)
      modifies tasks.slots, dispatcher`current, contexts
      ensures Shows(KernelSpec.YieldTsk(k).0) && er == KernelSpec.YieldTsk(k).1
    {
      hide KernelSpec.SwitchTo;
      var current := dispatcher.current;
      if current < 0 {
        return E_CTX;
      }
      if tasks.slots[current].state != Running {
        return E_CTX;
      }
      CallerIsFound(k);
      var marked := tasks.MarkReadyFromRunning(tasks.slots[current].id);
      assert marked == 0;
      if marked != 0 {
        return E_CTX;
      }
      ghost var k1 := Released(k, k.current);
      IdentifiedSame(k.tasks, current, k1.tasks[current]);
      YieldTo(current, k1);
      er := E_OK;
    }

    /** The choice of yield_tsk, after the caller became READY. */
    method YieldTo(current: int, ghost k: Kernel)
      requires Shows(k) && Identified(k.tasks) && IsSlot(k, current) && k.tasks[current].state == Ready
      modifies tasks.slots, dispatcher`current, contexts
      ensures Shows(if Next(k) == current then k else KernelSpec.SwitchTo(k, current, Next(k)).0)
    {
      hide KernelSpec.SwitchTo;
      var next := tasks.SelectNext();
      FindExact(k.tasks, current);
      FindExact(k.tasks, next);
      if next < 0 || tasks.slots[next].id == tasks.slots[current].id {
        return;
      }
      var current' := tasks.GetById(tasks.slots[current].id);
      var next' := tasks.GetById(tasks.slots[next].id);
      if current' < 0 || next' < 0 {
        return;
      }
      var _ := dispatcher.SwitchTo(current', next', k);
    }

    // ----- waking calls ---------------------------------------------------

    /** The common end of sta_tsk, wup_tsk and sig_sem: compare the task made READY
        with the current one, and leave a request if it outranks it. */
    method Contend(reason: Reason, ready: int, ghost k: Kernel)
      requires Shows(k) && IsSlot(k, ready)
      requires k.current == NULL_SLOT || IsSlot(k, k.current)
      modifies pending
      ensures Shows(KernelSpec.Contend(k, reason, ready))
    {
      var current := dispatcher.current;
      if current >= 0 && tasks.slots[current].state == Running {
        if tasks.slots[ready].priority < tasks.slots[current].priority {
          pending.RequestFromTask(tasks, reason, current, ready);
        }
      }
    }

    /** sta_tsk. */
    method StaTsk(id: int, ghost k: Kernel) returns (er: int)
      requires Shows(k) && Serviceable(k)
      modifies tasks.slots, pending
      ensures Shows(KernelSpec.StaTsk(k, id).0) && er == KernelSpec.StaTsk(k, id).1
    {
      hide KernelSpec.Contend;
      hide Identified;
      if id <= 0 {
        return E_ID;
      }
      var target := tasks.GetById(id);
      if target < 0 {
        return E_ID;
      }
      if tasks.slots[target].state != Dormant {
        return E_OBJ;
      }
      var started := tasks.StartDormant(id);
      assert started == 0;
      if started != 0 {
        return E_OBJ;
      }
      ghost var k1 := Put(k, target, Cleared(k.tasks[target], Ready));
      FindSame(k.tasks, k1.tasks, id);
      var ready := tasks.GetById(id);
      if ready >= 0 {
        Contend(TaskStart, ready, k1);
      }
      er := E_OK;
    }

    /** wup_tsk. */
    method WupTsk(id: int, ghost k: Kernel) returns (er: int)
      requires Shows(k) && Serviceable(k)
      modifies tasks.slots, pending
      ensures Shows(KernelSpec.WupTsk(k, id).0) && er == KernelSpec.WupTsk(k, id).1
    {
      hide KernelSpec.Contend;
      hide Identified;
      if id <= 0 {
        return E_ID;
      }
      var target := tasks.GetById(id);
      if target < 0 {
        return E_ID;
      }
      if tasks.slots[target].state != Waiting || tasks.slots[target].reason != OnSleep {
        return E_OBJ;
      }
      var woken := tasks.WakeWaitingOnSleepById(id);
      assert woken == 0;
      if woken != 0 {
        return E_OBJ;
      }
      ghost var k1 := Put(k, target, Cleared(k.tasks[target], Ready));
      FindSame(k.tasks, k1.tasks, id);
      var ready := tasks.GetById(id);
      if ready >= 0 {
        Contend(TaskWakeup, ready, k1);
      }
      er := E_OK;
    }

    /** The wake-up in sig_sem, behind the dequeue: a waiter with a timeout leaves the
        delay queue first. */
    method WakeFirstWaiter(semId: int, id: int, ghost s: int, ghost k: Kernel) returns (er: int)
      requires 0 <= s < |k.sems| && s == FindSem(k.sems, semId) && |k.sems[s].waiters| > 0
      requires id == k.sems[s].waiters[0] && Shows(Dequeued(k, s))
      modifies tasks.slots, delay`count, delay.entries
      ensures Shows(PassOn(k, s).0) && er == PassOn(k, s).1
    {
      hide Find;
      hide FindSem;
      hide WithoutEntry;
      var waiting := tasks.GetById(id);
      if waiting < 0 {
        return E_OBJ;
      }
      var reason := tasks.slots[waiting].reason;
      var woken;
      if reason == OnSemaphoreTimeout {
        var removed := delay.RemoveSemTimeoutWaiter(id);
        if removed != DELAY_QUEUE_OK {
          return E_OBJ;
        }
        woken := tasks.WakeWaitingOnSemTimeoutById(id, semId);
      } else if reason == OnSemaphore {
        woken := tasks.WakeWaitingOnSemById(id, semId);
      } else {
        return E_OBJ;
      }
      if woken != 0 {
        return E_OBJ;
      }
      er := E_OK;
    }

    /** The part of sig_sem behind a successful dequeue. */
    method HandOff(semId: int, id: int, ghost s: int, ghost k: Kernel) returns (er: int)
      requires 0 <= s < |k.sems| && s == FindSem(k.sems, semId) && |k.sems[s].waiters| > 0
      requires id == k.sems[s].waiters[0] && Shows(Dequeued(k, s))
      requires k.current == NULL_SLOT || IsSlot(k, k.current)
      modifies tasks.slots, delay`count, delay.entries, pending
      ensures Shows(KernelSpec.SigSem(k, semId).0) && er == KernelSpec.SigSem(k, semId).1
    {
      hide KernelSpec.Contend;
      ghost var k1 := PassOn(k, s).0;
      er := WakeFirstWaiter(semId, id, s, k);
      if er != E_OK {
        return er;
      }
      FindSame(k.tasks, k1.tasks, id);
      var ready := tasks.GetById(id);
      if ready >= 0 && tasks.slots[ready].state == Ready {
        Contend(TaskWakeup, ready, k1);
      }
    }

    /** sig_sem. */
    method SigSem(semId: int, ghost k: Kernel) returns (er: int)
      requires Shows(k) && Serviceable(k)
      modifies tasks.slots, sems.Repr, delay`count, delay.entries, pending
      ensures Shows(KernelSpec.SigSem(k, semId).0) && er == KernelSpec.SigSem(k, semId).1
    {
      hide FindSem;
      hide KernelSpec.Contend;
      hide PassOn;
      hide Identified;
      var s := sems.GetById(semId);
      if s < 0 {
        return E_ID;
      }
      var dequeued, id := sems.DequeueWaiter(semId);
      if dequeued == SEM_WAIT_QUEUE_EMPTY {
        var incremented := sems.IncrementCount(semId);
        er := if incremented != SEM_OK then E_QOVR else E_OK;
      } else if dequeued != SEM_OK {
        er := E_OBJ;
      } else {
        er := HandOff(semId, id, s, k);
      }
    }

    /** dispatcher_commit_current. */
    method CommitCurrent(selected: int, ghost k: Kernel) returns (r: int)
      requires Shows(k) && Serviceable(k) && selected < |k.tasks|
      modifies tasks.slots, dispatcher`current
      ensures Shows(Commit(k, selected).0) && r == Commit(k, selected).1
    {
      r := dispatcher.CommitCurrent(selected, k);
    }

    // ----- registration ---------------------------------------------------

    /** task_register. */
    method TaskRegister(p: TaskParam, ghost k: Kernel) returns (id: int)
      requires Shows(k)
      modifies tasks.slots, tasks`nextId
      ensures Shows(KernelSpec.TaskRegister(k, p).0) && id == KernelSpec.TaskRegister(k, p).1
    {
      id := tasks.Register(p);
    }

    /** cre_tsk. */
    method CreTsk(id: int, p: Option<TaskParam>, ghost k: Kernel) returns (er: int)
      requires Shows(k) && Defined(k, DoCreTsk(id, p))
      modifies tasks.slots, tasks`nextId
      ensures Shows(KernelSpec.CreTsk(k, id, p).0) && er == KernelSpec.CreTsk(k, id, p).1
    {
      if id <= 0 {
        return E_ID;
      }
      if p.None? || p.value.entry == 0 || p.value.stackBase == 0 || p.value.stackSize == 0 || p.value.name == 0 {
        return E_PAR;
      }
      var created := tasks.CreateDormant(id, p.value);
      if created != 0 {
        return E_OBJ;
      }
      er := E_OK;
    }

    /** sem_create. */
    method SemCreate(name: Address, initial: int, max: int, ghost k: Kernel) returns (id: int)
      requires Shows(k)
      modifies sems.Repr
      ensures Shows(KernelSpec.SemCreate(k, name, initial, max).0)
      ensures id == KernelSpec.SemCreate(k, name, initial, max).1
    {
      id := sems.Create(name, initial, max);
    }

    // ----- the timer interrupt -------------------------------------------

    /** timer_tick, whatever the stores hold: the counter is 64 bits wide, and the walk over the
        delay queue is one simultaneous tick if the stores agree. */
    method TimerTick(ghost k: Kernel)
      requires Shows(k)
      modifies `systemTicks, `elapsed, delay`count, delay.entries, tasks.slots, sems.Repr
      ensures Shows(WalkTick(k))
      ensures Coherent(k) ==> Shows(Tick(k))
    {
      hide WalkFrom;
      hide Tick;
      CounterWraps(elapsed);
      systemTicks := (systemTicks + 1) % ADDRESS_SPACE;
      elapsed := elapsed + 1;
      var _ := delay.Tick(k);
      if Coherent(k) {
        WalkIsTick(k);
      }
    }

    /** preemption_evaluate_from_irq. */
    method PreemptionEvaluate(ghost k: Kernel)
      requires Shows(k) && Serviceable(k)
      modifies pending
      ensures Shows(Evaluate(k))
    {
      hide Identified;
      hide Find;
      pending.ClearIrqForEvaluation();
      var current := dispatcher.current;
      var decision := tasks.SelectPreemptionCandidate(current);
      assert decision.reason == PreemptNeeded <==> Outranked(k);
      if decision.reason == PreemptNeeded {
        pending.RequestFromIrq(tasks, current, decision.candidate);
      }
    }

    /** dispatch_pending_consume_at_deferred_boundary: the ids recorded with the request are
        looked up again, and the request is gone whatever comes of it. */
    method ConsumePending(ghost k: Kernel) returns (r: int)
      requires Shows(k) && Serviceable(k)
      modifies tasks.slots, dispatcher`current, contexts, pending
      ensures Shows(Consume(k).0) && r == Consume(k).1
    {
      hide KernelSpec.SwitchTo;
      hide Identified;
      if !pending.state.requested {
        return CONSUME_NO_PENDING;
      }
      var from := tasks.GetById(pending.state.fromId);
      var to := tasks.GetById(pending.state.toId);
      if from < 0 || tasks.slots[from].state != Running {
        pending.Clear();
        return CONSUME_INVALID;
      }
      if to < 0 || tasks.slots[to].state != Ready {
        pending.Clear();
        return CONSUME_INVALID;
      }
      r := dispatcher.SwitchTo(from, to, k);
      pending.Clear();
    }

    /** arch_timer_irq_handle: tick, evaluate, and consume at the exit boundary. */
    method TimerIrqHandle(ghost k: Kernel)
      requires Shows(k) && Serviceable(k)
      modifies `systemTicks, `elapsed, delay`count, delay.entries, tasks.slots, sems.Repr
      modifies pending, dispatcher`current, contexts
      ensures Shows(Consume(Evaluate(WalkTick(k))).0)
      ensures Coherent(k) ==> Shows(TimerIrq(k))
    {
      hide Serviceable;
      hide Evaluate;
      hide Consume;
      hide WalkTick;
      TimerTick(k);
      WalkKeepsServiceable(k);
      PreemptionEvaluate(WalkTick(k));
      var _ := ConsumePending(Evaluate(WalkTick(k)));
      if Coherent(k) {
        WalkIsTick(k);
      }
    }

    // ----- runs -----------------------------------------------------------

    /** Any call or event, as one step of a run: from a coherent state the stores go where
        the step takes their values, and stay coherent. */
    method Perform(st: Step, ghost k: Kernel) returns (r: int)
      requires Shows(k) && Coherent(k) && Allowed(k, st)
      modifies `systemTicks, `elapsed, tasks.slots, tasks`nextId, sems.Repr, delay`count, delay.entries
      modifies pending, dispatcher`current, contexts
      ensures Shows(Do(k, st).0) && r == Do(k, st).1 && Coherent(Do(k, st).0)
    {
      hide Serviceable;
      hide Shows;
      CoherentIsServiceable(k);
      StepKeeps(k, st);
      match st
      case DoRegister(p) => r := TaskRegister(p, k);
      case DoCreTsk(id, p) => r := CreTsk(id, p, k);
      case DoStaTsk(id) => r := StaTsk(id, k);
      case DoSemCreate(name, initial, max) => r := SemCreate(name, initial, max, k);
      case DoCommit(slot) => r := CommitCurrent(slot, k);
      case DoYield => r := YieldTsk(k);
      case DoWaiSem(sem) => r := WaiSem(sem, k);
      case DoPolSem(sem) => r := PolSem(sem, k);
      case DoTwaiSem(sem, n) => r := TwaiSem(sem, n, k);
      case DoSigSem(sem) => r := SigSem(sem, k);
      case DoDlyTsk(n) => r := DlyTsk(n, k);
      case DoSlpTsk => r := SlpTsk(k);
      case DoWupTsk(id) => r := WupTsk(id, k);
      case DoTick => TimerTick(k); r := 0;
      case DoEvaluate => PreemptionEvaluate(k); r := 0;
      case DoConsume => r := ConsumePending(k);
      case DoTimerIrq => TimerIrqHandle(k); r := 0;
    }
  }

  lemma CounterWraps(n: nat)
    ensures (n % ADDRESS_SPACE + 1) % ADDRESS_SPACE == (n + 1) % ADDRESS_SPACE
  {
  }

  /** Ids, slots in use and entries: what lookups by id depend on. */
  ghost predicate SameEntries(ts: seq<Tcb>, ts': seq<Tcb>) {
    SameIds(ts, ts') && forall i :: 0 <= i < |ts| ==> ts'[i].entry == ts[i].entry
  }

  lemma PassKeepsEntries(k: Kernel, index: nat)
    requires index < |k.delay|
    ensures SameEntries(k.tasks, Pass(k, index).tasks)
  {
  }

  lemma {:induction false} WalkKeepsEntries(k: Kernel, index: nat)
    requires index <= |k.delay|
    ensures SameEntries(k.tasks, WalkFrom(k, index).0.tasks)
    decreases |k.delay| - index
  {
    hide Pass;
    if index == |k.delay| {
    } else {
      PassKeepsEntries(k, index);
      WalkKeepsEntries(Pass(k, index), if k.delay[index].remaining > 1 then index + 1 else index);
    }
  }

  /** Even a walk over stores that disagree leaves lookups by id and the current task in order. */
  lemma WalkKeepsServiceable(k: Kernel)
    requires Serviceable(k)
    ensures Serviceable(WalkTick(k)) && Serviceable(Evaluate(WalkTick(k)))
  {
    hide WalkFrom;
    WalkKeepsEntries(k, 0);
  }
}
