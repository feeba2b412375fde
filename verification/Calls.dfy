/** What single calls promise their callers: who runs next, who is asked for, and which
    call takes back what another one did. */
module Calls {
  import opened KernelTypes
  import opened TaskModel
  import opened KernelSpec
  import opened Coherence
  import opened Preservation
  import opened Effects
  import opened Atomicity
  import opened Fifo
  import opened Dispatching

  // ----- giving up the processor ---------------------------------------

  /** A blocking call leaves its caller WAITING and makes the first of the best READY tasks
      current; without a READY task nobody takes over. */
  lemma BlockedCallerGivesWay(k: Kernel, st: Step)
    requires Coherent(k) && Blocks(k, st)
    ensures
      var k', c := Do(k, st).0, k.current;
      && |k'.tasks| == |k.tasks| && k'.tasks[c].state == Waiting
      && (if Next(k) >= 0 then FirstAmongReady(k.tasks, k'.current) else k'.current == c)
  {
    hide FirstAmongReady;
    hide GiveUp;
    hide Block;
    var c := k.current;
    NextIsFirst(k);
    BlockingSucceeds(k);
    match st
    case DoSlpTsk => BlockedGoesOn(k, Put(k, c, Moved(k.tasks[c], WaitOnSleep)));
    case DoDlyTsk(n) => BlockedGoesOn(k, DelayedBy(k, n));
    case DoWaiSem(sem) => BlockedGoesOn(k, QueuedOn(k, FindSem(k.sems, sem), 0));
    case DoTwaiSem(sem, n) => BlockedGoesOn(k, QueuedOn(k, FindSem(k.sems, sem), n));
  }

  lemma BlockedGoesOn(k: Kernel, k1: Kernel)
    requires IsRunning(k, k.current) && k1.current == k.current && |k1.tasks| == |k.tasks|
    requires k1.tasks[k.current].state == Waiting
    requires forall i :: 0 <= i < |k.tasks| && i != k.current ==> k1.tasks[i] == k.tasks[i]
    ensures
      var k' := GiveUp(k1, k.current).0;
      && |k'.tasks| == |k.tasks| && k'.tasks[k.current] == k1.tasks[k.current]
      && k'.current == if Next(k) >= 0 then Next(k) else k.current
  {
  }

  /** yield_tsk: its caller stops running and competes as READY; the first of the best becomes
      current, which may be the caller itself, who is then READY and not RUNNING. */
  lemma YieldLetsTheBestRun(k: Kernel)
    requires Coherent(k) && IsRunning(k, k.current)
    ensures
      var k1, k' := Released(k, k.current), YieldTsk(k).0;
      && YieldTsk(k).1 == E_OK
      && k1.tasks[k.current].state == Ready
      && FirstAmongReady(k1.tasks, k'.current)
      && (k'.current == k.current ==> k' == k1)
      && (k'.current != k.current ==> k' == SwitchTo(k1, k.current, k'.current).0)
  {
  }

  // ----- asking for the processor --------------------------------------

  /** The slot a waking call makes READY. */
  function MadeReady(k: Kernel, st: Step): int {
    match st
    case DoStaTsk(id) => Find(k.tasks, id)
    case DoWupTsk(id) => Find(k.tasks, id)
    case DoSigSem(sem) =>
      var s := FindSem(k.sems, sem);
      if s >= 0 && |k.sems[s].waiters| > 0 then Find(k.tasks, k.sems[s].waiters[0]) else NULL_SLOT
    case _ => NULL_SLOT
  }

  /** A call that makes a task READY leaves a request for it exactly if it outranks the RUNNING
      caller; otherwise it leaves the request as it was.  It never switches by itself. */
  lemma WakingCallsAsk(k: Kernel, st: Step)
    requires Coherent(k) && Replaces(st) && Do(k, st).1 == E_OK
    ensures
      var k', i := Do(k, st).0, MadeReady(k, st);
      && k'.current == k.current
      && (i == NULL_SLOT ==> k'.tasks == k.tasks && k'.pending == k.pending)
      && (i != NULL_SLOT ==>
            && k'.tasks == k.tasks[i := Cleared(k.tasks[i], Ready)]
            && k.tasks[i].state == (if st.DoStaTsk? then Dormant else Waiting)
            && k'.pending ==
               if IsRunning(k, k.current) && k.tasks[i].priority < k.tasks[k.current].priority
               then Pending(true, FromTask, if st.DoStaTsk? then TaskStart else TaskWakeup,
                            k.current, i, k.tasks[k.current].id, k.tasks[i].id)
               else k.pending)
  {
    hide PassOn;
    if st.DoSigSem? {
      var s := FindSem(k.sems, st.sem);
      if s >= 0 && |k.sems[s].waiters| > 0 {
        FirstWaiter(k, s);
      }
    }
  }

  // ----- calls that take each other back --------------------------------

  /** slp_tsk is undone by wup_tsk: the sleeper is READY again. */
  lemma SleepThenWakeup(k: Kernel)
    requires Coherent(k) && IsRunning(k, k.current)
    ensures
      var k1, c := SlpTsk(k).0, k.current;
      var (k2, er) := WupTsk(k1, k.tasks[c].id);
      && er == E_OK && |k2.tasks| == |k.tasks| && k2.tasks[c] == Cleared(k.tasks[c], Ready)
      && k2.sems == k.sems && k2.delay == k.delay
  {
    hide GiveUp;
    var k1, c := SlpTsk(k).0, k.current;
    TaskAt(k, c);
    SlpTskKeeps(k);
    SlpTskRests(k);
    Identities(k1);
    FindExact(k1.tasks, c);
  }

  lemma WithoutLastEntry(d: seq<Entry>, e: Entry)
    requires e.id !in Ids(d)
    ensures WithoutEntry(d + [e], e.id) == d
  {
    var ids := Ids(d + [e]);
    assert ids == Ids(d) + [e.id];
    assert ids[|d|] == e.id;
    forall j | 0 <= j < |d|
      ensures ids[j] != e.id
    {
      assert Ids(d)[j] in Ids(d);
    }
  }

  /** What a blocking wait on an empty queue leaves behind. */
  lemma WaitLeaves(k: Kernel, semId: int, n: nat)
    requires Coherent(k) && IsRunning(k, k.current)
    requires FindSem(k.sems, semId) >= 0
    requires k.sems[FindSem(k.sems, semId)].count == 0 && k.sems[FindSem(k.sems, semId)].waiters == []
    ensures
      var k1, s, t := WaitSem(k, semId, n).0, FindSem(k.sems, semId), k.tasks[k.current];
      && Coherent(k1) && |k1.tasks| == |k.tasks|
      && k1.sems == k.sems[s := k.sems[s].(waiters := [t.id])]
      && k1.delay == (if n == 0 then k.delay else k.delay + [Entry(t.id, n)])
      && k1.tasks[k.current] == Moved(t, if n == 0 then WaitOnSem(semId) else WaitOnSemTimeout(semId, n))
  {
    hide GiveUp;
    WaitSemKeeps(k, semId, n);
    WaitSemRests(k, semId, n);
    assert k.sems[FindSem(k.sems, semId)].waiters + [k.tasks[k.current].id] == [k.tasks[k.current].id];
  }

  /** wai_sem and twai_sem on an empty queue are undone by sig_sem: semaphores and delay queue
      are what they were, and the caller is READY with its wait forgotten. */
  lemma WaitThenSignal(k: Kernel, semId: int, n: nat)
    requires Coherent(k) && IsRunning(k, k.current)
    requires FindSem(k.sems, semId) >= 0
    requires k.sems[FindSem(k.sems, semId)].count == 0 && k.sems[FindSem(k.sems, semId)].waiters == []
    ensures
      var k1, c := WaitSem(k, semId, n).0, k.current;
      var (k2, er) := SigSem(k1, semId);
      && er == E_OK && k2.sems == k.sems && k2.delay == k.delay
      && |k2.tasks| == |k.tasks| && k2.tasks[c] == Cleared(k.tasks[c], Ready)
  {
    hide WaitSem;
    hide SigSem;
    hide WithoutEntry;
    hide Find;
    var s, c := FindSem(k.sems, semId), k.current;
    var k1 := WaitSem(k, semId, n).0;
    TaskAt(k, c);
    NotWaitingNotQueued(k, c);
    WithoutLastEntry(k.delay, Entry(k.tasks[c].id, n));
    WaitLeaves(k, semId, n);
    Identities(k1);
    FindExact(k1.tasks, c);
    SignalServesFirst(k1, s);
    assert k1.sems[s].waiters[1..] == [] == k.sems[s].waiters;
    assert k1.sems[s].(waiters := []) == k.sems[s];
    assert k1.sems[s := k.sems[s]] == k.sems;
  }

  // ----- registration ---------------------------------------------------

  /** A registered task is found again under its id, in the first free slot, READY from
      task_register and DORMANT from cre_tsk, and no other task has changed. */
  lemma RegisteredIsFound(k: Kernel, st: Step)
    requires Coherent(k) && Allowed(k, st) && (st.DoRegister? || st.DoCreTsk?)
    requires !Fails(k, st)
    ensures
      var k', i := Do(k, st).0, FreeSlot(k.tasks);
      var id := if st.DoRegister? then Do(k, st).1 else st.newId;
      && i >= 0 && Find(k.tasks, id) < 0 && Find(k'.tasks, id) == i
      && k'.tasks[i].state == (if st.DoRegister? then Ready else Dormant)
      && k'.tasks == k.tasks[i := k'.tasks[i]]
  {
    NextIsFree(k);
    StepKeeps(k, st);
    Identities(Do(k, st).0);
    FindExact(Do(k, st).0.tasks, FreeSlot(k.tasks));
  }
}
