/** What every call answers and leaves, by conditions that its caller can look at. */
module Answers {
  import opened KernelTypes
  import opened Lists
  import opened TaskModel
  import opened KernelSpec
  import opened Coherence
  import opened Preservation
  import opened Atomicity
  import opened Dispatching
  import opened Reachable

  // ----- transitions ----------------------------------------------------

  /** Only a RUNNING task starts to wait, only a waiting one is woken, and only by what it waits
      for: a wait on a semaphore by that semaphore, with or without a timeout, and by its timeout. */
  predicate Movable(t: Tcb, m: Move) {
    var onSem := t.reason == OnSemaphore || t.reason == OnSemaphoreTimeout;
    && (m.MarkRunning? ==> t.state == Ready)
    && (m.MarkReady? ==> t.state == Running)
    && (m.StartDormant? ==> t.state == Dormant)
    && (m.MarkDormant? ==> t.state == Running || t.state == Ready)
    && (m.WaitOnSem? || m.WaitOnDelay? || m.WaitOnSemTimeout? || m.WaitOnSleep? ==> t.state == Running)
    && (m.WakeOnSem? || m.WakeOnDelay? || m.WakeOnSemTimeout? || m.WakeOnSleep? ==> t.state == Waiting)
    && (m.WakeOnSem? ==> onSem && t.waitSem == m.sem)
    && (m.WakeOnSemTimeout? ==> t.reason == OnSemaphoreTimeout && t.waitSem == m.sem)
    && (m.WakeOnDelay? ==> t.reason == OnDelay)
    && (m.WakeOnSleep? ==> t.reason == OnSleep)
  }

  predicate Sensible(id: int, m: Move) {
    && id > 0
    && (m.WaitOnSem? || m.WakeOnSem? || m.WakeOnSemTimeout? ==> m.sem > 0)
    && (m.WaitOnSemTimeout? ==> m.sem > 0 && m.timeout > 0)
    && (m.WaitOnDelay? ==> m.delay > 0)
  }

  /** The transitions of the task table: bad arguments, unknown ids and states that do not fit are
      told apart and change nothing; else exactly the wait fields and the state of the one task
      change, and all of them. */
  lemma MoveAnswers(ts: seq<Tcb>, id: int, m: Move)
    ensures
      var r, ts', i := MoveResult(ts, id, m), AfterMove(ts, id, m), Find(ts, id);
      && (r == TASK_ERR_INVAL <==> !Sensible(id, m))
      && (r == TASK_ERR_NOT_FOUND <==> Sensible(id, m) && i < 0)
      && (r == TASK_ERR_BAD_STATE <==> Sensible(id, m) && i >= 0 && !Movable(ts[i], m))
      && (r == 0 <==> Sensible(id, m) && i >= 0 && Movable(ts[i], m))
      && (r != 0 ==> ts' == ts)
      && (r == 0 ==>
            var t, t' := ts[i], ts'[i];
            && ts' == ts[i := t']
            && t' == Tcb(t.id, t.entry, t.priority, t'.state, t'.waitSem, t'.reason, t'.remaining,
                         t.stackBase, t.stackSize, t.context)
            && (t'.state == Waiting <==>
                  m.WaitOnSem? || m.WaitOnDelay? || m.WaitOnSemTimeout? || m.WaitOnSleep?)
            && (t'.state == Running <==> m.MarkRunning?) && (t'.state == Dormant <==> m.MarkDormant?)
            && t'.state != Unused
            && t'.waitSem == (if m.WaitOnSem? || m.WaitOnSemTimeout? then m.sem else 0)
            && t'.remaining == (if m.WaitOnDelay? then m.delay else if m.WaitOnSemTimeout? then m.timeout else 0)
            && (t'.reason == OnSemaphore <==> m.WaitOnSem?) && (t'.reason == OnDelay <==> m.WaitOnDelay?)
            && (t'.reason == OnSemaphoreTimeout <==> m.WaitOnSemTimeout?)
            && (t'.reason == OnSleep <==> m.WaitOnSleep?))
  {
  }

  // ----- switching ------------------------------------------------------

  /** What a switch that is not refused at once leaves: only the two tasks and the current task have
      changed.  If the stacks of all tasks that have to run have enough room, `to` is DORMANT, saved
      where it went back to boot, and `from` is DORMANT, saved where it went on to `to`; without
      room `to` is left RUNNING and not entered.  A waiting `from` stays as it is. */
  ghost predicate Switched(k: Kernel, from: int, to: int, k': Kernel)
    requires IsSlot(k, from) && IsSlot(k, to)
  {
    var a, b := k.tasks[from], k.tasks[to];
    var roomy := Roomy(b) && (a.state == Waiting || Roomy(a));
    && k' == k.(tasks := k'.tasks, current := to) && |k'.tasks| == |k.tasks|
    && (forall i :: 0 <= i < |k.tasks| && i != from && i != to ==> k'.tasks[i] == k.tasks[i])
    && k'.tasks[to] ==
       (if roomy then Cleared(b, Dormant).(context := Saved(AfterBootSwitch)) else Cleared(b, Running))
    && k'.tasks[from] ==
       (if a.state == Waiting then a
        else if roomy then Cleared(a, Dormant).(context := Saved(AfterPairSwitch))
        else if Roomy(a) then Cleared(a, Ready).(context := Frame(InitialRsp(StackTop(a)), from))
        else Cleared(a, Ready))
  }

  lemma SwitchLeaves(k: Kernel, from: int, to: int)
    requires CanSwitch(k, from, to) && (StackOk(k.tasks[to]) <==> Roomy(k.tasks[to]))
    requires k.tasks[from].state != Waiting ==> WellFormed(k.tasks[from])
    requires k.tasks[from].state != Waiting ==> (StackOk(k.tasks[from]) <==> Roomy(k.tasks[from]))
    ensures
      var (k', r) := SwitchTo(k, from, to);
      var roomy := Roomy(k.tasks[to]) && (k.tasks[from].state == Waiting || Roomy(k.tasks[from]));
      Switched(k, from, to, k') && r == if roomy then DISPATCHER_OK else DISPATCHER_ERR_INVAL
  {
    SameStack(k.tasks[from], Ready);
    SameStack(k.tasks[to], Running);
    hide Roomy;
    hide StackOk;
    hide StackTop;
  }

  lemma SameStack(t: Tcb, state: TaskState)
    ensures StackOk(Cleared(t, state)) == StackOk(t) && StackTop(Cleared(t, state)) == StackTop(t)
  {
  }

  /** dispatcher_switch_to: NULL and twice the same task are invalid, a `from` that is DORMANT and a
      `to` that is not READY are in a bad state, both with nothing changed; else it switches, and
      succeeds if there is room for it. */
  lemma SwitchAnswers(k: Kernel, from: int, to: int)
    requires Coherent(k)
    ensures
      var (k', r) := SwitchTo(k, from, to);
      var tasks := IsSlot(k, from) && IsSlot(k, to) && from != to;
      var able := tasks && k.tasks[to].state == Ready && k.tasks[from].state in {Running, Ready, Waiting};
      && (!tasks ==> r == DISPATCHER_ERR_INVAL)
      && (r == DISPATCHER_ERR_BAD_STATE <==> tasks && !able)
      && (r == DISPATCHER_OK <==>
            able && Roomy(k.tasks[to]) && (k.tasks[from].state == Waiting || Roomy(k.tasks[from])))
      && (if able then Switched(k, from, to, k') else k' == k)
  {
    hide Switched;
    hide Roomy;
    if CanSwitch(k, from, to) {
      TaskAt(k, from);
      StackOkExactly(k, from);
      StackOkExactly(k, to);
      SwitchLeaves(k, from, to);
    }
  }

  /** dispatcher_commit_current: NULL is invalid, a task that is not READY in a bad state, both with
      nothing changed; a READY task becomes RUNNING and current, and no other task changes. */
  lemma CommitAnswers(k: Kernel, slot: int)
    requires slot < |k.tasks|
    ensures
      var (k', r) := Commit(k, slot);
      && (r == DISPATCHER_ERR_INVAL <==> slot < 0)
      && (r == DISPATCHER_ERR_BAD_STATE <==> slot >= 0 && k.tasks[slot].state != Ready)
      && (r == DISPATCHER_OK <==> slot >= 0 && k.tasks[slot].state == Ready)
      && k' == (if r == DISPATCHER_OK then
                  k.(tasks := k.tasks[slot := Cleared(k.tasks[slot], Running)], current := slot)
                else k)
  {
  }

  // ----- tokens that are there -----------------------------------------

  /** A call changed nothing but the number of tokens of semaphore slot s. */
  ghost predicate OnlyCount(k: Kernel, k': Kernel, s: int, count: int)
    requires 0 <= s < |k.sems|
  {
    && k' == k.(sems := k'.sems) && |k'.sems| == |k.sems|
    && (forall r :: 0 <= r < |k.sems| && r != s ==> k'.sems[r] == k.sems[r])
    && k'.sems[s] == Sem(k.sems[s].id, count, k.sems[s].max, k.sems[s].waiters)
  }

  lemma CountAt(k: Kernel, semId: int)
    requires Coherent(k)
    ensures FindSem(k.sems, semId) >= 0 ==> k.sems[FindSem(k.sems, semId)].count >= 0
  {
    if FindSem(k.sems, semId) >= 0 {
      SemAt(k, FindSem(k.sems, semId));
    }
  }

  /** pol_sem takes a token exactly if a RUNNING caller names a semaphore that has one. */
  lemma PolSemAnswers(k: Kernel, semId: int)
    requires Coherent(k)
    ensures
      var (k', er) := PolSem(k, semId);
      var s := FindSem(k.sems, semId);
      && (er == E_CTX <==> !IsRunning(k, k.current))
      && (er == E_ID <==> IsRunning(k, k.current) && s < 0)
      && (er == E_TMOUT <==> IsRunning(k, k.current) && s >= 0 && k.sems[s].count == 0)
      && (er == E_OK <==> IsRunning(k, k.current) && s >= 0 && k.sems[s].count > 0)
      && (if er == E_OK then OnlyCount(k, k', s, k.sems[s].count - 1) else k' == k)
  {
    CountAt(k, semId);
  }

  // ----- calls that wait ------------------------------------------------

  /** What a RUNNING caller that starts to wait does to the processor, and the answer it gets: the
      first of the best READY tasks takes over and runs to its end, if there is one and its stack
      has enough room; a stack without leaves that task RUNNING, and the answer is E_OBJ. */
  ghost predicate GivesWay(k: Kernel, k': Kernel, er: int)
    requires IsSlot(k, k.current)
  {
    var next := Next(k);
    && k' == k.(tasks := k'.tasks, sems := k'.sems, delay := k'.delay, current := k'.current)
    && |k'.tasks| == |k.tasks|
    && (forall i :: 0 <= i < |k.tasks| && i != k.current && i != next ==> k'.tasks[i] == k.tasks[i])
    && (next < 0 ==> k'.current == k.current && er == E_OK
                     && forall i :: 0 <= i < |k.tasks| ==> k.tasks[i].state != Ready)
    && (next >= 0 ==>
          && FirstAmongReady(k.tasks, next) && next != k.current && k'.current == next
          && er == (if Roomy(k.tasks[next]) then E_OK else E_OBJ)
          && k'.tasks[next] ==
             if Roomy(k.tasks[next]) then Cleared(k.tasks[next], Dormant).(context := Saved(AfterBootSwitch))
             else Cleared(k.tasks[next], Running))
  }

  lemma GiveUpAnswers(k: Kernel, k1: Kernel)
    requires Coherent(k) && IsRunning(k, k.current)
    requires k1 == k.(tasks := k1.tasks, sems := k1.sems, delay := k1.delay) && |k1.tasks| == |k.tasks|
    requires k1.tasks == k.tasks[k.current := k1.tasks[k.current]] && k1.tasks[k.current].state == Waiting
    ensures
      var (k', er) := GiveUp(k1, k.current);
      && GivesWay(k, k', er) && k'.tasks[k.current] == k1.tasks[k.current]
      && k'.sems == k1.sems && k'.delay == k1.delay
  {
    hide Roomy;
    hide SwitchTo;
    SameBest(k.tasks, k.current, k1.tasks[k.current], |k.tasks|);
    NextIsFirst(k);
    if Next(k) >= 0 {
      StackOkExactly(k, Next(k));
      SwitchLeaves(k1, k.current, Next(k));
    }
  }

  /** The caller's own part of a wait on semaphore slot s, for n ticks at most if n is positive:
      it is WAITING there, last in the queue, and last in the delay queue if there is a limit. */
  ghost predicate WaitsInLine(k: Kernel, k': Kernel, s: int, n: nat)
    requires IsSlot(k, k.current) && 0 <= s < |k.sems|
  {
    var t, sem := k.tasks[k.current], k.sems[s];
    && |k'.tasks| == |k.tasks| && |k'.sems| == |k.sems|
    && k'.tasks[k.current] ==
       Tcb(t.id, t.entry, t.priority, Waiting, sem.id, if n == 0 then OnSemaphore else OnSemaphoreTimeout, n,
           t.stackBase, t.stackSize, t.context)
    && k'.sems[s] == Sem(sem.id, sem.count, sem.max, sem.waiters + [t.id])
    && (forall r :: 0 <= r < |k.sems| && r != s ==> k'.sems[r] == k.sems[r])
    && k'.delay == (if n == 0 then k.delay else k.delay + [Entry(t.id, n)])
  }

  lemma BlockAnswers(k: Kernel, s: int, n: nat)
    requires Coherent(k) && IsRunning(k, k.current) && 0 <= s < |k.sems|
    ensures
      var (k', er) := Block(k, s, n);
      GivesWay(k, k', er) && WaitsInLine(k, k', s, n)
  {
    hide GiveUp;
    hide Block;
    hide GivesWay;
    BlockingSucceeds(k);
    GiveUpAnswers(k, QueuedOn(k, s, n));
  }

  /** wai_sem: E_CTX without a RUNNING caller, else E_ID for an unknown semaphore, both with nothing
      changed.  Otherwise the caller takes exactly one token and still runs, or there is none and
      it waits in line for one. */
  lemma WaiSemAnswers(k: Kernel, semId: int)
    requires Coherent(k)
    ensures
      var (k', er) := WaiSem(k, semId);
      var s := FindSem(k.sems, semId);
      && (er == E_CTX <==> !IsRunning(k, k.current))
      && (er == E_ID <==> IsRunning(k, k.current) && s < 0)
      && (er == E_CTX || er == E_ID ==> k' == k)
      && (IsRunning(k, k.current) && s >= 0 && k.sems[s].count > 0 ==>
            er == E_OK && OnlyCount(k, k', s, k.sems[s].count - 1))
      && (IsRunning(k, k.current) && s >= 0 && k.sems[s].count == 0 ==>
            GivesWay(k, k', er) && WaitsInLine(k, k', s, 0))
  {
    hide WaitSem;
    hide GivesWay;
    hide WaitsInLine;
    CountAt(k, semId);
    WaitAnswers(k, semId, 0);
  }

  lemma WaitAnswers(k: Kernel, semId: int, n: nat)
    requires Coherent(k)
    ensures
      var (k', er) := WaitSem(k, semId, n);
      var s := FindSem(k.sems, semId);
      && (!IsRunning(k, k.current) ==> er == E_CTX && k' == k)
      && (IsRunning(k, k.current) && s < 0 ==> er == E_ID && k' == k)
      && (IsRunning(k, k.current) && s >= 0 && k.sems[s].count > 0 ==>
            er == E_OK && OnlyCount(k, k', s, k.sems[s].count - 1))
      && (IsRunning(k, k.current) && s >= 0 && k.sems[s].count == 0 ==>
            GivesWay(k, k', er) && WaitsInLine(k, k', s, n) && (er == E_OK || er == E_OBJ))
  {
    hide Block;
    hide WaitsInLine;
    var s := FindSem(k.sems, semId);
    if IsRunning(k, k.current) && s >= 0 {
      BlockAnswers(k, s, n);
    }
  }

  /** twai_sem: E_CTX without a current task, else E_PAR for no ticks at all, else as wai_sem, with
      a limit on the wait. */
  lemma TwaiSemAnswers(k: Kernel, semId: int, n: Ticks)
    requires Coherent(k)
    ensures
      var (k', er) := TwaiSem(k, semId, n);
      var s := FindSem(k.sems, semId);
      && (er == E_CTX <==> k.current == NULL_SLOT || (n > 0 && !IsRunning(k, k.current)))
      && (er == E_PAR <==> k.current != NULL_SLOT && n == 0)
      && (er == E_ID <==> IsRunning(k, k.current) && n > 0 && s < 0)
      && (er == E_CTX || er == E_PAR || er == E_ID ==> k' == k)
      && (IsRunning(k, k.current) && n > 0 && s >= 0 && k.sems[s].count > 0 ==>
            er == E_OK && OnlyCount(k, k', s, k.sems[s].count - 1))
      && (IsRunning(k, k.current) && n > 0 && s >= 0 && k.sems[s].count == 0 ==>
            GivesWay(k, k', er) && WaitsInLine(k, k', s, n))
  {
    hide WaitSem;
    hide GivesWay;
    hide WaitsInLine;
    CurrentAt(k);
    CountAt(k, semId);
    WaitAnswers(k, semId, n);
  }

  /** dly_tsk: E_CTX without a current task, else E_PAR for no ticks at all, else E_CTX without a
      RUNNING caller; otherwise the caller is WAITING for the ticks, last in the delay queue. */
  lemma DlyTskAnswers(k: Kernel, n: Ticks)
    requires Coherent(k)
    ensures
      var (k', er) := DlyTsk(k, n);
      && (er == E_CTX <==> k.current == NULL_SLOT || (n > 0 && !IsRunning(k, k.current)))
      && (er == E_PAR <==> k.current != NULL_SLOT && n == 0)
      && (er == E_CTX || er == E_PAR ==> k' == k)
      && (IsRunning(k, k.current) && n > 0 ==>
            var t := k.tasks[k.current];
            && GivesWay(k, k', er) && k'.sems == k.sems && k'.delay == k.delay + [Entry(t.id, n)]
            && k'.tasks[k.current] ==
               Tcb(t.id, t.entry, t.priority, Waiting, 0, OnDelay, n, t.stackBase, t.stackSize, t.context))
  {
    hide GiveUp;
    hide Roomy;
    hide DelayRefuses;
    CurrentAt(k);
    if IsRunning(k, k.current) && n > 0 {
      BlockingSucceeds(k);
      GiveUpAnswers(k, DelayedBy(k, n));
    }
  }

  /** slp_tsk: E_CTX without a RUNNING caller; otherwise the caller sleeps, in no queue. */
  lemma SlpTskAnswers(k: Kernel)
    requires Coherent(k)
    ensures
      var (k', er) := SlpTsk(k);
      && (er == E_CTX <==> !IsRunning(k, k.current))
      && (er == E_CTX ==> k' == k)
      && (IsRunning(k, k.current) ==>
            var t := k.tasks[k.current];
            && GivesWay(k, k', er) && k'.sems == k.sems && k'.delay == k.delay
            && k'.tasks[k.current] ==
               Tcb(t.id, t.entry, t.priority, Waiting, 0, OnSleep, 0, t.stackBase, t.stackSize, t.context))
  {
    hide GiveUp;
    hide Roomy;
    if IsRunning(k, k.current) {
      GiveUpAnswers(k, Put(k, k.current, Moved(k.tasks[k.current], WaitOnSleep)));
    }
  }

  // ----- calls that make a task READY ----------------------------------

  /** The task in slot i has become READY, and asks for the processor if it outranks the RUNNING
      current task; other tasks and the processor are as they were. */
  ghost predicate MakesReady(k: Kernel, k': Kernel, i: int, reason: Reason) {
    && IsSlot(k, i)
    && k' == k.(tasks := k'.tasks, sems := k'.sems, delay := k'.delay, pending := k'.pending)
    && k'.tasks == k.tasks[i := Cleared(k.tasks[i], Ready)]
    && k'.pending ==
       if IsRunning(k, k.current) && Outranks(k'.tasks[i], k.tasks[k.current])
       then Pending(true, FromTask, reason, k.current, i, k.tasks[k.current].id, k.tasks[i].id)
       else k.pending
  }

  /** sta_tsk starts exactly the DORMANT tasks, whoever runs and whatever the priorities. */
  lemma StaTskAnswers(k: Kernel, id: int)
    ensures
      var (k', er) := StaTsk(k, id);
      var i := Find(k.tasks, id);
      && (er == E_ID <==> i < 0)
      && (er == E_OK <==> i >= 0 && k.tasks[i].state == Dormant)
      && (er == E_OBJ <==> i >= 0 && k.tasks[i].state != Dormant)
      && (if er == E_OK then MakesReady(k, k', i, TaskStart) && k'.sems == k.sems && k'.delay == k.delay else k' == k)
  {
  }

  /** wup_tsk wakes exactly the tasks that sleep. */
  lemma WupTskAnswers(k: Kernel, id: int)
    ensures
      var (k', er) := WupTsk(k, id);
      var i := Find(k.tasks, id);
      var sleeps := i >= 0 && k.tasks[i].state == Waiting && k.tasks[i].reason == OnSleep;
      && (er == E_ID <==> i < 0)
      && (er == E_OK <==> sleeps)
      && (er == E_OBJ <==> i >= 0 && !sleeps)
      && (if er == E_OK then MakesReady(k, k', i, TaskWakeup) && k'.sems == k.sems && k'.delay == k.delay else k' == k)
  {
  }

  /** The one entry of a task that has a timeout is gone from the delay queue. */
  ghost predicate EntryGone(d: seq<Entry>, d': seq<Entry>, id: int) {
    exists p :: 0 <= p < |d| && d[p].id == id && d' == d[..p] + d[p + 1..]
  }

  /** sig_sem: E_ID for an unknown semaphore, E_QOVR for one without waiters and with all its
      tokens.  Otherwise, without waiters, there is exactly one token more and nothing else has
      changed; with waiters, the first of them is READY and in neither queue. */
  lemma SigSemAnswers(k: Kernel, semId: int)
    requires Coherent(k)
    ensures
      var (k', er) := SigSem(k, semId);
      var s := FindSem(k.sems, semId);
      && (er == E_ID <==> s < 0)
      && (er == E_QOVR <==> s >= 0 && k.sems[s].waiters == [] && k.sems[s].count == k.sems[s].max)
      && (er == E_OK <==> s >= 0 && (k.sems[s].waiters != [] || k.sems[s].count < k.sems[s].max))
      && (er != E_OK ==> k' == k)
      && (er == E_OK && k.sems[s].waiters == [] ==> OnlyCount(k, k', s, k.sems[s].count + 1))
      && (er == E_OK && k.sems[s].waiters != [] ==> HandsOn(k, k', s))
  {
    hide PassOn;
    hide KernelSpec.Contend;
    hide HandsOn;
    var s := FindSem(k.sems, semId);
    if s >= 0 {
      SemAt(k, s);
      if |k.sems[s].waiters| > 0 {
        FirstWaiter(k, s);
        HandOnAnswers(k, s);
      }
    }
  }

  /** The first waiter of semaphore slot s has got a token without the counter changing. */
  ghost predicate HandsOn(k: Kernel, k': Kernel, s: int)
    requires 0 <= s < |k.sems| && k.sems[s].waiters != []
  {
    var sem := k.sems[s];
    var i := Find(k.tasks, sem.waiters[0]);
    && MakesReady(k, k', i, TaskWakeup) && WaitsOn(k.tasks[i], sem.id)
    && k'.sems == k.sems[s := Sem(sem.id, sem.count, sem.max, sem.waiters[1..])]
    && (if k.tasks[i].reason == OnSemaphoreTimeout then EntryGone(k.delay, k'.delay, sem.waiters[0])
        else k'.delay == k.delay)
  }

  lemma HandOnAnswers(k: Kernel, s: int)
    requires Coherent(k) && 0 <= s < |k.sems| && k.sems[s].waiters != []
    requires Find(k.tasks, k.sems[s].waiters[0]) >= 0
    ensures
      var i := Find(k.tasks, k.sems[s].waiters[0]);
      HandsOn(k, Contend(HandedOver(k, s, i), TaskWakeup, i), s)
  {
    hide PassOn;
    hide Contend;
    hide MakesReady;
    hide EntryGone;
    hide WithoutEntry;
    var id := k.sems[s].waiters[0];
    var i := Find(k.tasks, id);
    FirstWaiter(k, s);
    ContendAnswers(k, HandedOver(k, s, i), i);
    if k.tasks[i].reason == OnSemaphoreTimeout {
      TimedIsQueued(k, i);
      EntryGoes(k.delay, id);
    }
  }

  lemma ContendAnswers(k: Kernel, k1: Kernel, i: int)
    requires IsSlot(k, i) && k.tasks[i].state == Waiting
    requires k1 == k.(tasks := k.tasks[i := Cleared(k.tasks[i], Ready)], sems := k1.sems, delay := k1.delay)
    ensures
      var k' := Contend(k1, TaskWakeup, i);
      && MakesReady(k, k', i, TaskWakeup) && k'.sems == k1.sems && k'.delay == k1.delay
  {
  }

  lemma EntryGoes(d: seq<Entry>, id: int)
    requires id in Ids(d)
    ensures EntryGone(d, WithoutEntry(d, id), id)
  {
    var p := Position(Ids(d), id);
    assert d[p].id == id && WithoutEntry(d, id) == d[..p] + d[p + 1..];
  }

  lemma TimedIsQueued(k: Kernel, i: int)
    requires Coherent(k) && IsSlot(k, i) && Timed(k.tasks[i])
    ensures k.tasks[i].id in Ids(k.delay)
  {
    hide TableFits;
    hide SemsFit;
    hide WaitersFit;
    hide PendingFits;
    Parts(k);
    assert Belongs(TickQueue, k.tasks[i]);
  }

  // ----- registration ---------------------------------------------------

  /** The new task is in the first free slot, with everything its caller gave; it waits for nothing
      and its context is at the top of its stack.  No other task has changed. */
  ghost predicate Registers(k: Kernel, k': Kernel, id: int, p: TaskParam, state: TaskState) {
    var i := FreeSlot(k.tasks);
    && IsSlot(k, i) && |k'.tasks| == |k.tasks|
    && k' == k.(tasks := k'.tasks, nextTaskId := k'.nextTaskId)
    && (forall j :: 0 <= j < |k.tasks| && j != i ==> k'.tasks[j] == k.tasks[j])
    && var t := k'.tasks[i];
       && t.id == id && t.state == state && t.context == AtTop
       && t.entry == p.entry && t.priority == p.priority
       && t.stackBase == p.stackBase && t.stackSize == p.stackSize
       && t.reason == NoWait && t.waitSem == 0 && t.remaining == 0
  }

  predicate Missing(p: TaskParam) {
    p.name == 0 || p.entry == 0 || p.stackBase == 0 || p.stackSize == 0
  }

  predicate TableFull(k: Kernel) {
    forall i :: 0 <= i < |k.tasks| ==> k.tasks[i].state != Unused
  }

  /** task_register: its refusals, in their order, change nothing; else the new task is READY and
      has the next id. */
  lemma RegisterAnswers(k: Kernel, p: TaskParam)
    requires Coherent(k)
    ensures
      var (k', id) := TaskRegister(k, p);
      && (id == TASK_ERR_INVAL <==> Missing(p))
      && (id == TASK_ERR_FULL <==> !Missing(p) && TableFull(k))
      && (id == TASK_ERR_ID_OVERFLOW <==> !Missing(p) && !TableFull(k) && k.nextTaskId == ID_MAX)
      && (id > 0 <==> !Missing(p) && !TableFull(k) && k.nextTaskId < ID_MAX)
      && (if id > 0 then id == k.nextTaskId && Registers(k, k', id, p, Ready) && k'.nextTaskId == id + 1 else k' == k)
  {
    NextIsFree(k);
  }

  /** cre_tsk: its refusals, in their order, change nothing; else the new task is DORMANT, has the
      id its caller chose, and the next id is behind it. */
  lemma CreTskAnswers(k: Kernel, id: int, p: Option<TaskParam>)
    requires Coherent(k)
    ensures
      var (k', er) := CreTsk(k, id, p);
      var complete := p.Some? && !Missing(p.value);
      && (er == E_ID <==> id <= 0)
      && (er == E_PAR <==> id > 0 && !complete)
      && (er == E_OBJ <==> id > 0 && complete && (Find(k.tasks, id) >= 0 || TableFull(k)))
      && (er == E_OK <==> id > 0 && complete && Find(k.tasks, id) < 0 && !TableFull(k))
      && (if er == E_OK then
            && Registers(k, k', id, p.value, Dormant)
            && k'.nextTaskId == if id < k.nextTaskId then k.nextTaskId else id + 1
          else k' == k)
  {
  }

  /** sem_create: its refusals, in their order, change nothing; else the first free slot has the new
      semaphore, with the next id, the tokens its caller gave and an empty queue. */
  lemma SemCreateAnswers(k: Kernel, name: Address, initial: int, max: int)
    requires Coherent(k)
    ensures
      var (k', id) := SemCreate(k, name, initial, max);
      var valid := name != 0 && 0 <= initial <= max && max > 0;
      var full := forall s :: 0 <= s < |k.sems| ==> k.sems[s].id != 0;
      && (id == SEM_ERR_INVAL <==> !valid)
      && (id == SEM_ERR_FULL <==> valid && full)
      && (id == SEM_ERR_OVERFLOW <==> valid && !full && k.nextSemId == ID_MAX)
      && (id > 0 <==> valid && !full && k.nextSemId < ID_MAX)
      && (if id > 0 then
            && id == k.nextSemId && 0 <= FreeSem(k.sems) < |k.sems|
            && k' == k.(sems := k.sems[FreeSem(k.sems) := Sem(id, initial, max, [])], nextSemId := id + 1)
          else k' == k)
  {
    CountersInRange(k);
  }

  // ----- yielding -------------------------------------------------------

  /** yield_tsk: E_CTX without a RUNNING caller and nothing changed, else always E_OK.  The caller
      becomes READY, and the first of the best READY tasks current: that is all if it is the
      caller, otherwise the caller and that task are switched. */
  lemma YieldTskAnswers(k: Kernel)
    requires Coherent(k)
    ensures
      var (k', er) := YieldTsk(k);
      && er == (if IsRunning(k, k.current) then E_OK else E_CTX)
      && (er == E_CTX ==> k' == k)
      && (er == E_OK ==>
            var k1 := k.(tasks := k.tasks[k.current := Cleared(k.tasks[k.current], Ready)]);
            && FirstAmongReady(k1.tasks, k'.current)
            && (if k'.current == k.current then k' == k1 else Switched(k1, k.current, k'.current, k')))
  {
    hide SwitchTo;
    hide Roomy;
    if IsRunning(k, k.current) {
      var k1 := Released(k, k.current);
      assert k1.tasks[k.current].state == Ready;
      ReleaseKeeps(k, k.current);
      NextIsFirst(k1);
      SwitchAnswers(k1, k.current, Next(k1));
    }
  }

  // ----- the interrupt --------------------------------------------------

  /** One tick: every wait for ticks has one tick less, those that had one tick left are over, and
      the tasks they belong to have left every queue; nothing else has changed. */
  lemma TickAnswers(k: Kernel, i: nat, s: nat)
    requires Coherent(k) && i < |k.tasks| && s < |k.sems|
    ensures
      var k', t, sem := Tick(k), k.tasks[i], k.sems[s];
      && k' == k.(tasks := k'.tasks, sems := k'.sems, delay := k'.delay, ticks := k.ticks + 1)
      && |k'.tasks| == |k.tasks| && |k'.sems| == |k.sems|
      && k'.tasks[i] ==
         (if !Timed(t) then t
          else if t.remaining <= 1 then Cleared(t, Ready)
          else Tcb(t.id, t.entry, t.priority, Waiting, t.waitSem, t.reason, t.remaining - 1,
                   t.stackBase, t.stackSize, t.context))
      && k'.sems[s] == Sem(sem.id, sem.count, sem.max, k'.sems[s].waiters)
      && (Used(t) ==> (t.id in k'.sems[s].waiters <==>
                         t.id in sem.waiters && !(Timed(t) && t.remaining == 1)))
      && (Used(t) ==> (t.id in Ids(k'.delay) <==> Timed(t) && t.remaining > 1))
  {
    TaskAt(k, i);
    TickKeeps(k);
    var k' := Tick(k);
    TaskAt(k', i);
    SemAt(k, s);
    hide Tick;
    if Used(k.tasks[i]) {
      Timing(k', i);
      if k.sems[s].id > 0 {
        WaitsNowhereElse(k, s, i);
        WaitsNowhereElse(k', s, i);
      }
    }
  }

  /** Some READY task has a strictly smaller priority number than the RUNNING current task. */
  predicate Challenged(k: Kernel) {
    IsRunning(k, k.current) && exists j :: 0 <= j < |k.tasks| && Outranks(k.tasks[j], k.tasks[k.current])
  }

  /** preemption_evaluate_from_irq touches the request alone: one from a task stays, else it is the
      interrupt's for the first of the best READY tasks if that one outranks the RUNNING current
      task, and none otherwise. */
  lemma EvaluateAnswers(k: Kernel)
    requires Coherent(k)
    ensures
      var k' := Evaluate(k);
      var c, p := k.current, k'.pending;
      && k' == k.(pending := p)
      && (TaskHeld(k.pending) ==> p == k.pending)
      && (!TaskHeld(k.pending) && !Challenged(k) ==> p == NO_PENDING)
      && (!TaskHeld(k.pending) && Challenged(k) ==>
            && FirstAmongReady(k.tasks, p.to)
            && p == Pending(true, FromIrq, HigherPriorityReady, c, p.to, k.tasks[c].id, k.tasks[p.to].id))
  {
    hide TableFits;
    hide SemsFit;
    hide DelayFits;
    hide WaitersFit;
    Parts(k);
    NextIsFirst(k);
    if Outranked(k) {
      assert Outranks(k.tasks[Next(k)], k.tasks[k.current]);
    }
  }

  /** The held request can still be met: its source runs and its target is READY. */
  predicate StillGood(k: Kernel) {
    && k.pending.requested && IsRunning(k, k.pending.from)
    && IsSlot(k, k.pending.to) && k.tasks[k.pending.to].state == Ready
  }

  /** Consuming at the deferred boundary: without a request nothing happens; one that cannot be met
      any more is dropped and reported as invalid; one that can is a switch, which DISPATCHER_OK
      reports exactly if both stacks have enough room.  No request is held afterwards. */
  lemma ConsumeAnswers(k: Kernel)
    requires Coherent(k)
    ensures
      var p, (k', r) := k.pending, Consume(k);
      && (!p.requested ==> r == CONSUME_NO_PENDING && k' == k)
      && (r == CONSUME_INVALID <==> p.requested && !StillGood(k))
      && (r == CONSUME_INVALID ==> k' == k.(pending := NO_PENDING))
      && (r == DISPATCHER_OK <==> StillGood(k) && Roomy(k.tasks[p.from]) && Roomy(k.tasks[p.to]))
      && (StillGood(k) ==> k'.pending == NO_PENDING && Switched(k, p.from, p.to, k'.(pending := p)))
  {
    hide SwitchTo;
    hide Switched;
    hide Roomy;
    hide TableFits;
    hide SemsFit;
    hide DelayFits;
    hide WaitersFit;
    Parts(k);
    Identities(k);
    var p := k.pending;
    if p.requested {
      FindExact(k.tasks, p.from);
      FindExact(k.tasks, p.to);
      SwitchAnswers(k, p.from, p.to);
    }
  }

  /** The timer interrupt without a RUNNING current task is the tick, and drops any request. */
  lemma TimerIrqIdles(k: Kernel)
    requires Coherent(k) && !IsRunning(k, k.current)
    ensures TimerIrq(k) == Tick(k).(pending := NO_PENDING)
  {
    hide Evaluate;
    hide Consume;
    hide StillGood;
    var t := Tick(k);
    TickKeeps(k);
    EvaluateKeeps(t);
    EvaluateAnswers(t);
    ConsumeAnswers(Evaluate(t));
    NobodyToTakeOver(Evaluate(t));
  }

  lemma NobodyToTakeOver(k: Kernel)
    requires Coherent(k) && !IsRunning(k, k.current)
    ensures !StillGood(k)
    ensures !k.pending.requested ==> k.pending == NO_PENDING
  {
    hide TableFits;
    hide SemsFit;
    hide DelayFits;
    hide WaitersFit;
    Parts(k);
  }
}
