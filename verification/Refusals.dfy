/** What becomes of a switch that the context layer refuses: yield_tsk does not report it,
    and the interrupt forgets the request for it. */
module Refusals {
  import opened KernelTypes
  import opened TaskModel
  import opened KernelSpec
  import opened Coherence
  import opened Preservation
  import opened Runs
  import opened Atomicity
  import opened Dispatching

  /** A switch between tasks that can be switched, in terms of what a caller can look at. */
  lemma SwitchNeedsRoom(k: Kernel, to: int)
    requires Coherent(k) && CanSwitch(k, k.current, to) && k.tasks[k.current].state != Waiting
    ensures
      var (k', r) := SwitchTo(k, k.current, to);
      var roomy := Roomy(k.tasks[k.current]) && Roomy(k.tasks[to]);
      && (r == DISPATCHER_OK <==> roomy) && (NobodyRuns(k') <==> roomy) && k'.current == to
      && (!roomy ==> k'.tasks[to] == Cleared(k.tasks[to], Running) && k'.tasks[k.current].state == Ready)
  {
    hide SwitchTo;
    hide Roomy;
    SwitchRunsToTheEnd(k, k.current, to);
    StackOkExactly(k, k.current);
    StackOkExactly(k, to);
  }

  /** The dispatcher refuses the switch behind yield_tsk. */
  predicate YieldRefused(k: Kernel)
    requires IsSlot(k, k.current)
  {
    var k1 := Released(k, k.current);
    Next(k1) != k.current && SwitchTo(k1, k.current, Next(k1)).1 != DISPATCHER_OK
  }

  /** yield_tsk reports E_OK all the same.  It hides a refusal exactly if the best task is another
      one and its stack or the caller's has not enough room; exactly then a task is left RUNNING:
      the best one, current and not entered, while the caller is READY. */
  lemma YieldHidesRefusals(k: Kernel)
    requires Coherent(k) && IsRunning(k, k.current)
    ensures
      var c, next, k' := k.current, Next(Released(k, k.current)), YieldTsk(k).0;
      && IsSlot(k, next) && YieldTsk(k).1 == E_OK
      && (YieldRefused(k) <==> next != c && !(Roomy(k.tasks[c]) && Roomy(k.tasks[next])))
      && (YieldRefused(k) <==> !NobodyRuns(k'))
      && (YieldRefused(k) ==>
            k'.current == next && k'.tasks[next] == Cleared(k.tasks[next], Running) && k'.tasks[c].state == Ready)
  {
    hide SwitchTo;
    hide Roomy;
    var c, k1 := k.current, Released(k, k.current);
    assert k1.tasks[c].state == Ready;
    NextIsFirst(k1);
    ReleaseKeeps(k, c);
    if Next(k1) != c {
      SwitchNeedsRoom(k1, Next(k1));
      SameRoom(k.tasks[c], k1.tasks[c]);
    }
  }

  lemma SameRoom(t: Tcb, t': Tcb)
    requires SameTask(t, t')
    ensures Roomy(t') <==> Roomy(t)
  {
  }

  /** Consuming a request whose source still runs and whose target is still READY succeeds exactly
      if both stacks have enough room; otherwise the request is gone all the same, and its target
      is left RUNNING and current, but not entered. */
  lemma ConsumeDropsRefusals(k: Kernel)
    requires Coherent(k) && k.pending.requested && IsRunning(k, k.pending.from)
    requires IsSlot(k, k.pending.to) && k.tasks[k.pending.to].state == Ready
    ensures
      var p, (k', r) := k.pending, Consume(k);
      var roomy := Roomy(k.tasks[p.from]) && Roomy(k.tasks[p.to]);
      && k'.pending == NO_PENDING && k'.current == p.to
      && (r == DISPATCHER_OK <==> roomy) && (NobodyRuns(k') <==> roomy)
      && (!roomy ==> k'.tasks[p.to] == Cleared(k.tasks[p.to], Running))
  {
    hide SwitchTo;
    hide Roomy;
    var p := k.pending;
    Parts(k);
    Identities(k);
    FindExact(k.tasks, p.from);
    FindExact(k.tasks, p.to);
    SwitchNeedsRoom(k, p.to);
  }

  /** So does the timer interrupt: if it finds a better READY task, but that task's stack or the
      current one's has not enough room, the better task is left RUNNING and not entered. */
  lemma TimerIrqDropsRefusals(k: Kernel, j: nat)
    requires Coherent(k) && IsRunning(k, k.current) && !TaskHeld(k.pending)
    requires j < |k.tasks| && AgedTask(k.tasks[j], 1).state == Ready
    requires k.tasks[j].priority < k.tasks[k.current].priority
    ensures
      var c, t, k' := k.current, Tick(k), TimerIrq(k);
      && IsSlot(t, k'.current) && k'.current != c && FirstAmongReady(t.tasks, k'.current)
      && k'.pending == NO_PENDING
      && var roomy := Roomy(k.tasks[c]) && Roomy(k.tasks[k'.current]);
         && (NobodyRuns(k') <==> roomy)
         && (!roomy ==> k'.tasks[k'.current] == Cleared(t.tasks[k'.current], Running))
  {
    hide SwitchTo;
    hide TimerIrq;
    hide Roomy;
    var t, to := Tick(k), TimerIrq(k).current;
    TickKeeps(k);
    TickKeepsRunner(k);
    assert t.tasks[j] == AgedTask(k.tasks[j], 1);
    TimerIrqSwitches(k);
    SwitchNeedsRoom(t, to);
    SameRoom(k.tasks[to], t.tasks[to]);
  }

  /** Boot, two registrations and a commit lead to such a state: the better task is READY with a
      stack of 32 bytes.  yield_tsk reports E_OK, and it and the timer interrupt alike leave
      that task RUNNING, with no request held. */
  lemma RefusalFromBoot() returns (run: seq<Step>)
    ensures AllowedRun(Booted(2, 0), run)
    ensures
      var k := After(Booted(2, 0), run);
      && IsRunning(k, k.current) && k.current == 0 && |k.tasks| == 2
      && YieldRefused(k) && YieldTsk(k).1 == E_OK && YieldTsk(k).0.tasks[1].state == Running
      && |TimerIrq(k).tasks| == 2 && TimerIrq(k).tasks[1].state == Running && TimerIrq(k).pending == NO_PENDING
  {
    var p, q := TaskParam(1, 1, 2, 4096, 4096), TaskParam(1, 1, 1, 16384, 32);
    run := [DoRegister(p), DoRegister(q), DoCommit(0)];
    var k := TwoTasks(p, q, run);
    ReachableIsCoherent(2, 0, run);
    hide TimerIrq;
    hide SwitchTo;
    hide YieldTsk;
    var k1 := Released(k, 0);
    assert k1.tasks[0].state == Ready && Best(k1.tasks, 1) == 0 && Next(k1) == 1;
    YieldHidesRefusals(k);
    TimerIrqDropsRefusals(k, 1);
  }
}
