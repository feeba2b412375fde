/** What one step does to queues, counters and waiting tasks: a core change, after
    which at most tasks that do not wait are switched. */
module Effects {
  import opened KernelTypes
  import opened TaskModel
  import opened KernelSpec
  import opened Coherence
  import opened Preservation

  /** wai_sem (n == 0) and twai_sem before they give up the processor. */
  function Waited(k: Kernel, semId: int, n: nat): Kernel {
    var s := FindSem(k.sems, semId);
    if !IsRunning(k, k.current) || s < 0 then k
    else if k.sems[s].count > 0 then SetCount(k, s, k.sems[s].count - 1)
    else QueuedOn(k, s, n)
  }

  function Core(k: Kernel, st: Step): Kernel {
    match st
    case DoRegister(p) => TaskRegister(k, p).0
    case DoCreTsk(id, p) => CreTsk(k, id, p).0
    case DoStaTsk(id) => StaTsk(k, id).0
    case DoSemCreate(name, initial, max) => SemCreate(k, name, initial, max).0
    case DoCommit(_) => k
    case DoYield => k
    case DoWaiSem(sem) => Waited(k, sem, 0)
    case DoPolSem(sem) => PolSem(k, sem).0
    case DoTwaiSem(sem, n) => if n == 0 then k else Waited(k, sem, n)
    case DoSigSem(sem) => SigSem(k, sem).0
    case DoDlyTsk(n) => if n > 0 && IsRunning(k, k.current) then DelayedBy(k, n) else k
    case DoSlpTsk =>
      if IsRunning(k, k.current) then Put(k, k.current, Moved(k.tasks[k.current], WaitOnSleep)) else k
    case DoWupTsk(id) => WupTsk(k, id).0
    case DoTick => Tick(k)
    case DoEvaluate => k
    case DoConsume => k
    case DoTimerIrq => Tick(k)
  }

  /** Queues, counters, the clock and waiting tasks are the same. */
  ghost predicate Rests(a: Kernel, b: Kernel) {
    && b.sems == a.sems && b.delay == a.delay && b.ticks == a.ticks
    && b.nextTaskId == a.nextTaskId && b.nextSemId == a.nextSemId
    && |b.tasks| == |a.tasks|
    && (forall i :: 0 <= i < |a.tasks| ==> SameTask(a.tasks[i], b.tasks[i]))
    && (forall i :: 0 <= i < |a.tasks| ==> SameWait(a.tasks[i], b.tasks[i]))
  }

  lemma RestsSelf(k: Kernel)
    ensures Rests(k, k)
  {
  }

  lemma QuietRests(a: Kernel, b: Kernel, c: Kernel)
    requires Quiet(a, b) && c == b.(pending := c.pending)
    ensures Rests(a, c)
  {
  }

  lemma EvaluateRests(k: Kernel)
    ensures Rests(k, Evaluate(k)) && Evaluate(k) == k.(pending := Evaluate(k).pending)
  {
  }

  lemma ConsumeRests(k: Kernel)
    requires Coherent(k)
    ensures Rests(k, Consume(k).0)
  {
    hide SwitchTo;
    hide Quiet;
    var from, to := Find(k.tasks, k.pending.fromId), Find(k.tasks, k.pending.toId);
    CurrentAt(k);
    if k.pending.requested && IsRunning(k, from) {
      SwitchKeeps(k, from, to);
      QuietRests(k, SwitchTo(k, from, to).0, SwitchTo(k, from, to).0.(pending := NO_PENDING));
    }
  }

  lemma GiveUpRests(k: Kernel)
    requires Coherent(k)
    ensures Rests(k, GiveUp(k, k.current).0)
  {
    hide GiveUp;
    hide Quiet;
    GiveUpKeeps(k);
    QuietRests(k, GiveUp(k, k.current).0, GiveUp(k, k.current).0);
  }

  lemma WaitSemRests(k: Kernel, semId: int, n: nat)
    requires Coherent(k)
    ensures Rests(Waited(k, semId, n), WaitSem(k, semId, n).0)
  {
    hide GiveUp;
    hide Block;
    hide Rests;
    hide SetCount;
    var s := FindSem(k.sems, semId);
    RestsSelf(Waited(k, semId, n));
    if IsRunning(k, k.current) && s >= 0 && k.sems[s].count <= 0 {
      SemAt(k, s);
      BlockingSucceeds(k);
      QueuedKeeps(k, s, n);
      GiveUpRests(QueuedOn(k, s, n));
    }
  }

  lemma DlyTskRests(k: Kernel, n: Ticks)
    requires Coherent(k)
    ensures Rests(Core(k, DoDlyTsk(n)), DlyTsk(k, n).0)
  {
    hide GiveUp;
    hide Rests;
    RestsSelf(k);
    if n > 0 && IsRunning(k, k.current) {
      BlockingSucceeds(k);
      DelayedKeeps(k, n);
      GiveUpRests(DelayedBy(k, n));
    }
  }

  lemma SlpTskRests(k: Kernel)
    requires Coherent(k)
    ensures Rests(Core(k, DoSlpTsk), SlpTsk(k).0)
  {
    hide GiveUp;
    hide Rests;
    RestsSelf(k);
    if IsRunning(k, k.current) {
      var t := Moved(k.tasks[k.current], WaitOnSleep);
      TaskAt(k, k.current);
      BystanderKeeps(k, k.current, t);
      GiveUpRests(Put(k, k.current, t));
    }
  }

  lemma SwitchingRests(k: Kernel, st: Step)
    requires Coherent(k) && Allowed(k, st) && (st.DoCommit? || st.DoYield?)
    ensures Rests(k, Do(k, st).0)
  {
    hide Quiet;
    hide Rests;
    hide YieldTsk;
    hide Commit;
    if st.DoYield? {
      YieldKeeps(k);
    } else {
      CommitKeeps(k, st.slot);
    }
    QuietRests(k, Do(k, st).0, Do(k, st).0);
  }

  lemma RestsTwice(a: Kernel, b: Kernel, c: Kernel)
    requires Rests(a, b) && Rests(b, c)
    ensures Rests(a, c)
  {
  }

  lemma TimerIrqRests(k: Kernel)
    requires Coherent(k)
    ensures Rests(Tick(k), TimerIrq(k))
  {
    hide Rests;
    hide Evaluate;
    hide Consume;
    AdvanceKeeps(k, 1);
    EvaluateKeeps(Tick(k));
    EvaluateRests(Tick(k));
    ConsumeRests(Evaluate(Tick(k)));
    RestsTwice(Tick(k), Evaluate(Tick(k)), TimerIrq(k));
  }

  /** After its core change a step leaves queues, counters, clock and waiting tasks alone. */
  lemma CoreRests(k: Kernel, st: Step)
    requires Coherent(k) && Allowed(k, st)
    ensures Rests(Core(k, st), Do(k, st).0)
  {
    hide Rests;
    hide TimerIrq;
    hide Tick;
    hide Evaluate;
    hide Consume;
    hide WaitSem;
    hide DlyTsk;
    hide SlpTsk;
    match st
    case DoCommit(_) => SwitchingRests(k, st);
    case DoYield => SwitchingRests(k, st);
    case DoWaiSem(sem) => WaitSemRests(k, sem, 0);
    case DoTwaiSem(sem, n) =>
      WaitSemRests(k, sem, n);
      RestsSelf(k);
    case DoDlyTsk(n) => DlyTskRests(k, n);
    case DoSlpTsk => SlpTskRests(k);
    case DoEvaluate => EvaluateRests(k);
    case DoConsume => ConsumeRests(k);
    case DoTimerIrq => TimerIrqRests(k);
    case _ => RestsSelf(Do(k, st).0);
  }

  // ----- tasks and semaphores stay --------------------------------------

  ghost predicate SameTable(ts: seq<Tcb>, ts': seq<Tcb>) {
    |ts'| == |ts| && forall i :: 0 <= i < |ts| && Used(ts[i]) ==> SameTask(ts[i], ts'[i])
  }

  ghost predicate SameSems(sems: seq<Sem>, sems': seq<Sem>) {
    && |sems'| == |sems|
    && (forall s :: 0 <= s < |sems| && sems[s].id > 0 ==> sems'[s].id == sems[s].id && sems'[s].max == sems[s].max)
  }

  lemma HandedOverKeepsTable(k: Kernel, s: int, i: int)
    requires IsSlot(k, i) && 0 <= s < |k.sems| && |k.sems[s].waiters| > 0 && Used(k.tasks[i])
    ensures SameTable(k.tasks, HandedOver(k, s, i).tasks) && SameSems(k.sems, HandedOver(k, s, i).sems)
  {
  }

  lemma SigSemKeepsTable(k: Kernel, semId: int)
    requires Coherent(k)
    ensures SameTable(k.tasks, SigSem(k, semId).0.tasks) && SameSems(k.sems, SigSem(k, semId).0.sems)
  {
    hide HandedOver;
    hide PassOn;
    var s := FindSem(k.sems, semId);
    if s >= 0 && |k.sems[s].waiters| > 0 {
      FirstWaiter(k, s);
      HandedOverKeepsTable(k, s, Find(k.tasks, k.sems[s].waiters[0]));
    }
  }

  lemma WaitedKeepsTable(k: Kernel, semId: int, n: nat)
    ensures SameTable(k.tasks, Waited(k, semId, n).tasks) && SameSems(k.sems, Waited(k, semId, n).sems)
  {
  }

  lemma TickKeepsTable(k: Kernel)
    ensures SameTable(k.tasks, Tick(k).tasks) && SameSems(k.sems, Tick(k).sems)
  {
  }

  lemma SemCreateKeepsTable(k: Kernel, name: Address, initial: int, max: int)
    ensures SameSems(k.sems, SemCreate(k, name, initial, max).0.sems)
  {
  }

  lemma WakingKeepsTable(k: Kernel, id: int)
    ensures SameTable(k.tasks, StaTsk(k, id).0.tasks) && StaTsk(k, id).0.sems == k.sems
    ensures SameTable(k.tasks, WupTsk(k, id).0.tasks) && WupTsk(k, id).0.sems == k.sems
  {
  }

  /** Registered tasks and semaphores keep their slots and what identifies them. */
  lemma CoreKeepsTable(k: Kernel, st: Step)
    requires Coherent(k)
    ensures SameTable(k.tasks, Core(k, st).tasks) && SameSems(k.sems, Core(k, st).sems)
  {
    hide SigSem;
    hide Waited;
    hide Tick;
    hide SemCreate;
    hide StaTsk;
    hide WupTsk;
    match st
    case DoStaTsk(id) => WakingKeepsTable(k, id);
    case DoWupTsk(id) => WakingKeepsTable(k, id);
    case DoSigSem(sem) => SigSemKeepsTable(k, sem);
    case DoWaiSem(sem) => WaitedKeepsTable(k, sem, 0);
    case DoTwaiSem(sem, n) => WaitedKeepsTable(k, sem, n);
    case DoTick => TickKeepsTable(k);
    case DoTimerIrq => TickKeepsTable(k);
    case DoSemCreate(name, initial, max) =>
      SemCreateKeepsTable(k, name, initial, max);
      assert SemCreate(k, name, initial, max).0.tasks == k.tasks by { TasksOfSemCreate(k, name, initial, max); }
    case _ =>
  }

  lemma TasksOfSemCreate(k: Kernel, name: Address, initial: int, max: int)
    ensures SemCreate(k, name, initial, max).0.tasks == k.tasks
  {
  }

  lemma StepKeepsTable(k: Kernel, st: Step)
    requires Coherent(k) && Allowed(k, st)
    ensures SameTable(k.tasks, Do(k, st).0.tasks) && SameSems(k.sems, Do(k, st).0.sems)
  {
    hide Core;
    hide Do;
    CoreRests(k, st);
    CoreKeepsTable(k, st);
  }

  // ----- identities -----------------------------------------------------

  /** Registered tasks keep their slot, id, entry, priority and stack in every run. */
  lemma {:induction false} TasksAreForever(k: Kernel, run: seq<Step>)
    requires Coherent(k) && AllowedRun(k, run)
    ensures SameTable(k.tasks, After(k, run).tasks)
    decreases |run|
  {
    hide Do;
    hide Allowed;
    if run == [] {
    } else {
      StepKeeps(k, run[0]);
      StepKeepsTable(k, run[0]);
      TasksAreForever(Do(k, run[0]).0, run[1..]);
    }
  }

  /** A task that is registered later has a positive id, under which exactly it is found, behind
      every task that was there before, and its id is none of theirs. */
  lemma NewTasksAreNew(k: Kernel, run: seq<Step>, j: nat)
    requires Coherent(k) && AllowedRun(k, run) && j < |k.tasks| && !Used(k.tasks[j])
    ensures
      var ts := After(k, run).tasks;
      && |ts| == |k.tasks|
      && (Used(ts[j]) ==>
            && ts[j].id > 0 && Find(ts, ts[j].id) == j
            && forall i :: 0 <= i < |k.tasks| && Used(k.tasks[i]) ==> i < j && ts[j].id != k.tasks[i].id)
  {
    hide After;
    hide AllowedRun;
    TasksAreForever(k, run);
    RunKeepsCoherence(k, run);
    var ts := After(k, run).tasks;
    Identities(After(k, run));
    if Used(ts[j]) {
      FindExact(ts, j);
      forall i | 0 <= i < |k.tasks| && Used(k.tasks[i])
        ensures i < j && ts[j].id != k.tasks[i].id
      {
        if j < i {
          UsedPrefix(k, j, i);
        }
      }
    }
  }
}
