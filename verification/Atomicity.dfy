/** A call that fails changes nothing, except in one case, which is named exactly. */
module Atomicity {
  import opened KernelTypes
  import opened TaskModel
  import opened KernelSpec
  import opened Coherence
  import opened Preservation
  import opened Runs

  /** The calls of the API and the boot-time services, as opposed to the interrupt's own steps. */
  predicate IsCall(st: Step) {
    !st.DoTick? && !st.DoEvaluate? && !st.DoConsume? && !st.DoTimerIrq?
  }

  predicate Fails(k: Kernel, st: Step) {
    if st.DoRegister? || st.DoSemCreate? then Do(k, st).1 < 0 else Do(k, st).1 != E_OK
  }

  /** The call makes its RUNNING caller wait. */
  predicate Blocks(k: Kernel, st: Step) {
    && IsRunning(k, k.current)
    && match st
       case DoSlpTsk => true
       case DoDlyTsk(n) => n > 0
       case DoWaiSem(sem) => FindSem(k.sems, sem) >= 0 && k.sems[FindSem(k.sems, sem)].count <= 0
       case DoTwaiSem(sem, n) =>
         n > 0 && FindSem(k.sems, sem) >= 0 && k.sems[FindSem(k.sems, sem)].count <= 0
       case _ => false
  }

  /** The scheduler's next task has a stack the context layer refuses. */
  predicate NextIsStranded(k: Kernel) {
    Next(k) >= 0 && !StackOk(k.tasks[Next(k)])
  }

  /** A caller that starts to wait does not change who is next. */
  lemma {:induction false} SameBest(ts: seq<Tcb>, i: nat, t: Tcb, n: nat)
    requires i < |ts| && n <= |ts| && ts[i].state != Ready && t.state != Ready
    ensures Best(ts[i := t], n) == Best(ts, n)
  {
    if n == 0 {
    } else {
      SameBest(ts, i, t, n - 1);
    }
  }

  /** Giving up the processor from a waiting task fails exactly when the next task is stranded,
      and then the next task has become current and RUNNING without a stack to run on. */
  lemma GiveUpFails(k: Kernel)
    requires IsSlot(k, k.current) && k.tasks[k.current].state == Waiting
    ensures GiveUp(k, k.current).1 == (if NextIsStranded(k) then E_OBJ else E_OK)
    ensures NextIsStranded(k) ==> GiveUp(k, k.current).0 == Promoted(k, Next(k))
  {
  }

  lemma BlockFails(k: Kernel, k1: Kernel, m: Move)
    requires IsRunning(k, k.current) && k1.current == k.current
    requires k1.tasks == k.tasks[k.current := Moved(k.tasks[k.current], m)]
    requires m.WaitOnSem? || m.WaitOnDelay? || m.WaitOnSemTimeout? || m.WaitOnSleep?
    ensures (GiveUp(k1, k.current).1 != E_OK) == NextIsStranded(k)
    ensures GiveUp(k1, k.current).0 != k
  {
    hide GiveUp;
    SameBest(k.tasks, k.current, k1.tasks[k.current], |k.tasks|);
    GiveUpFails(k1);
    BlockedDiffers(k, k1);
  }

  lemma BlockedDiffers(k: Kernel, k1: Kernel)
    requires IsRunning(k, k.current) && k1.current == k.current
    requires |k1.tasks| == |k.tasks| && k1.tasks[k.current].state == Waiting
    ensures GiveUp(k1, k.current).0 != k
  {
  }

  lemma BlockingFails(k: Kernel, st: Step)
    requires Coherent(k) && Blocks(k, st)
    ensures Fails(k, st) == NextIsStranded(k) && Do(k, st).0 != k
  {
    hide GiveUp;
    hide Block;
    hide NextIsStranded;
    BlockingSucceeds(k);
    match st
    case DoSlpTsk =>
      BlockFails(k, Put(k, k.current, Moved(k.tasks[k.current], WaitOnSleep)), WaitOnSleep);
    case DoDlyTsk(n) => BlockFails(k, DelayedBy(k, n), WaitOnDelay(n));
    case DoWaiSem(sem) =>
      var s := FindSem(k.sems, sem);
      BlockFails(k, QueuedOn(k, s, 0), WaitOnSem(k.sems[s].id));
    case DoTwaiSem(sem, n) =>
      var s := FindSem(k.sems, sem);
      BlockFails(k, QueuedOn(k, s, n), WaitOnSemTimeout(k.sems[s].id, n));
  }

  lemma OthersFailCleanly(k: Kernel, st: Step)
    requires Coherent(k) && IsCall(st) && !Blocks(k, st) && Fails(k, st)
    ensures Do(k, st).0 == k
  {
    hide GiveUp;
    hide Block;
    hide SwitchTo;
    hide Contend;
    hide HandedOver;
    hide PassOn;
    if st.DoSigSem? {
      var s := FindSem(k.sems, st.sem);
      if s >= 0 && |k.sems[s].waiters| > 0 {
        FirstWaiter(k, s);
      }
    }
  }

  /** Failure atomicity: a call that fails has changed the kernel if and only if it is a
      blocking call whose successor's stack the context layer refuses. */
  lemma FailuresChangeNothing(k: Kernel, st: Step)
    requires Coherent(k) && IsCall(st)
    ensures (Fails(k, st) && Do(k, st).0 != k) <==> (Blocks(k, st) && NextIsStranded(k))
  {
    hide Do;
    hide Fails;
    hide NextIsStranded;
    if Blocks(k, st) {
      BlockingFails(k, st);
    } else if Fails(k, st) {
      OthersFailCleanly(k, st);
    }
  }

  /** What a caller can look at to know that a stack will do. */
  predicate Roomy(t: Tcb) {
    t.stackSize >= 64 && StackTop(t) != 0
  }

  /** In a coherent state the context layer refuses a registered task's stack only for
      being shorter than 64 bytes, or ending at address 0. */
  lemma StackOkExactly(k: Kernel, i: nat)
    requires Coherent(k) && i < |k.tasks| && Used(k.tasks[i])
    ensures StackOk(k.tasks[i]) <==> Roomy(k.tasks[i])
  {
    TaskAt(k, i);
  }

  /** With stacks of at least 64 bytes that do not end at address 0, every failing call is atomic. */
  lemma GoodStacksMakeCallsAtomic(k: Kernel, st: Step)
    requires Coherent(k) && IsCall(st) && Fails(k, st)
    requires forall i :: 0 <= i < |k.tasks| && Used(k.tasks[i]) ==> Roomy(k.tasks[i])
    ensures Do(k, st).0 == k
  {
    hide Do;
    hide Fails;
    hide StackOk;
    hide Roomy;
    FailuresChangeNothing(k, st);
    if Next(k) >= 0 {
      StackOkExactly(k, Next(k));
    }
  }

  /** Boot, two registrations and a commit lead to such a state: the RUNNING task goes to sleep
      while the only READY task has a stack of 32 bytes, and the failing call has changed it. */
  lemma AtomicityCanFail() returns (run: seq<Step>)
    ensures AllowedRun(Booted(2, 0), run)
    ensures
      var k := After(Booted(2, 0), run);
      Fails(k, DoSlpTsk) && Do(k, DoSlpTsk).0 != k
  {
    var p, q := TaskParam(1, 1, 1, 4096, 4096), TaskParam(1, 1, 2, 16384, 32);
    run := [DoRegister(p), DoRegister(q), DoCommit(0)];
    var k := TwoTasks(p, q, run);
    ReachableIsCoherent(2, 0, run);
    assert Best(k.tasks, 1) == NULL_SLOT && Next(k) == 1;
    FailuresChangeNothing(k, DoSlpTsk);
  }

  lemma SignalOverflows(k: Kernel, semId: int)
    requires Coherent(k)
    ensures
      var s := FindSem(k.sems, semId);
      SigSem(k, semId).1 == E_QOVR <==> s >= 0 && k.sems[s].count == k.sems[s].max && k.sems[s].waiters == []
  {
    hide PassOn;
    var s := FindSem(k.sems, semId);
    if s >= 0 {
      SemAt(k, s);
      if |k.sems[s].waiters| > 0 {
        FirstWaiter(k, s);
      }
    }
  }

  lemma CountersInRange(k: Kernel)
    requires Coherent(k)
    ensures 1 <= k.nextTaskId <= ID_MAX && 1 <= k.nextSemId <= ID_MAX
  {
    Parts(k);
  }

  /** Blocking calls never report a full or duplicate queue: the pigeonhole argument leaves
      E_QOVR to a signal on a semaphore that already has all its tokens. */
  lemma OnlySignalsOverflow(k: Kernel, st: Step)
    requires Coherent(k) && IsCall(st)
    ensures Do(k, st).1 == E_QOVR <==>
      && st.DoSigSem? && FindSem(k.sems, st.sem) >= 0
      && k.sems[FindSem(k.sems, st.sem)].count == k.sems[FindSem(k.sems, st.sem)].max
      && k.sems[FindSem(k.sems, st.sem)].waiters == []
  {
    hide SwitchTo;
    hide Contend;
    hide QueuedOn;
    hide DelayedBy;
    hide SigSem;
    hide Block;
    CountersInRange(k);
    if IsRunning(k, k.current) {
      BlockingSucceeds(k);
    }
    if st.DoSigSem? {
      SignalOverflows(k, st.sem);
    }
  }
}
