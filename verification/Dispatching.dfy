/** Who runs, who is asked to run next, and what one timer interrupt does about it. */
module Dispatching {
  import opened KernelTypes
  import opened TaskModel
  import opened KernelSpec
  import opened Coherence
  import opened Preservation
  import opened Runs

  // ----- switching ------------------------------------------------------

  /** A switch is refused with nothing changed, or it makes both transitions: when the
      context layer is entered `to` is current and the only RUNNING task. */
  lemma SwitchIsAllOrNothing(k: Kernel, from: int, to: int)
    requires Coherent(k) && from == k.current
    ensures !CanSwitch(k, from, to) ==> SwitchTo(k, from, to).0 == k && SwitchTo(k, from, to).1 != DISPATCHER_OK
    ensures CanSwitch(k, from, to) ==>
      var k1 := Promoted(Released(k, from), to);
      && SwitchTo(k, from, to) == RunSwitched(k1, from, to)
      && SwitchTo(k, from, to).0.current == to
      && (forall i :: 0 <= i < |k1.tasks| ==> (k1.tasks[i].state == Running <==> i == to))
  {
    if CanSwitch(k, from, to) {
      ReleaseKeeps(k, from);
    }
  }

  /** A switch that is not refused at once runs the entries to their end exactly if the context
      layer accepts the stacks of all tasks it has to run; then `to` ends DORMANT, `from` too
      unless it waits, and nobody is RUNNING.  Otherwise the dispatcher reports an error and
      `to` is left RUNNING and current, but not entered. */
  lemma SwitchRunsToTheEnd(k: Kernel, from: int, to: int)
    requires Coherent(k) && from == k.current && CanSwitch(k, from, to)
    ensures
      var (k', r) := SwitchTo(k, from, to);
      var accepted := StackOk(k.tasks[to]) && (k.tasks[from].state == Waiting || StackOk(k.tasks[from]));
      && (r == DISPATCHER_OK <==> accepted) && (NobodyRuns(k') <==> accepted) && k'.current == to
      && (accepted ==>
            && k'.tasks[to].state == Dormant
            && (if k.tasks[from].state == Waiting then k'.tasks[from] == k.tasks[from]
                else k'.tasks[from].state == Dormant))
      && (!accepted ==>
            && k'.tasks[to] == Cleared(k.tasks[to], Running)
            && k'.tasks[from].state == (if k.tasks[from].state == Waiting then Waiting else Ready))
  {
    SwitchIsAllOrNothing(k, from, to);
    var (k', r) := SwitchTo(k, from, to);
    assert r == DISPATCHER_OK || k'.tasks[to].state == Running;
  }

  /** A switch neither reads nor writes the request. */
  lemma SwitchIgnoresRequest(k: Kernel, p: Pending, from: int, to: int)
    ensures SwitchTo(k.(pending := p), from, to) ==
            (SwitchTo(k, from, to).0.(pending := p), SwitchTo(k, from, to).1)
  {
  }

  // ----- the request ----------------------------------------------------

  /** Consuming never leaves a request behind, and switches only from the RUNNING current
      task to a READY one, however old the request is. */
  lemma ConsumeOnce(k: Kernel)
    requires Coherent(k)
    ensures Consume(k).0.pending == NO_PENDING
    ensures Consume(Consume(k).0) == (Consume(k).0, CONSUME_NO_PENDING)
    ensures
      var p := k.pending;
      if p.requested && p.from == k.current && IsRunning(k, p.from) && IsSlot(k, p.to) && k.tasks[p.to].state == Ready
      then Consume(k).0 == SwitchTo(k, p.from, p.to).0.(pending := NO_PENDING) && Consume(k).0.current == p.to
      else Consume(k).0 == k.(pending := NO_PENDING)
  {
    hide RunSwitched;
    CurrentAt(k);
    Parts(k);
    Identities(k);
    var p := k.pending;
    if p.requested {
      FindExact(k.tasks, p.from);
      FindExact(k.tasks, p.to);
      if p.from == k.current {
        SwitchIsAllOrNothing(k, p.from, p.to);
      }
    }
  }

  /** When some READY task has a strictly smaller priority number than the RUNNING current one,
      a request is held after an evaluation, whoever asked for it. */
  lemma EvaluateAsks(k: Kernel, j: nat)
    requires IsRunning(k, k.current)
    requires j < |k.tasks| && k.tasks[j].state == Ready && k.tasks[j].priority < k.tasks[k.current].priority
    ensures Evaluate(k).pending.requested
  {
    if !Outranked(k) {
      LowestIsNotLower(k);
    }
  }

  predicate Replaces(st: Step) {
    st.DoStaTsk? || st.DoWupTsk? || st.DoSigSem?
  }

  predicate Consumes(st: Step) {
    st.DoConsume? || st.DoTimerIrq?
  }

  /** A request from a task outlives every step except a consumption or a newer such request. */
  lemma TaskRequestStep(k: Kernel, st: Step)
    requires Coherent(k) && TaskHeld(k.pending) && !Consumes(st)
    ensures TaskHeld(Do(k, st).0.pending)
    ensures !Replaces(st) ==> Do(k, st).0.pending == k.pending
  {
  }

  /** Ticks and evaluations, in any number, leave a request from a task alone. */
  lemma {:induction false} TaskRequestSurvives(k: Kernel, run: seq<Step>)
    requires Coherent(k) && AllowedRun(k, run) && TaskHeld(k.pending)
    requires forall i :: 0 <= i < |run| ==> !Consumes(run[i])
    ensures TaskHeld(After(k, run).pending)
    ensures (forall i :: 0 <= i < |run| ==> !Replaces(run[i])) ==> After(k, run).pending == k.pending
    decreases |run|
  {
    hide Do;
    hide Allowed;
    hide TaskHeld;
    if run == [] {
    } else {
      StepKeeps(k, run[0]);
      TaskRequestStep(k, run[0]);
      TaskRequestSurvives(Do(k, run[0]).0, run[1..]);
    }
  }

  // ----- one timer interrupt -------------------------------------------

  /** The task a switch would go to: READY, of the smallest priority number, the first such. */
  ghost predicate FirstAmongReady(ts: seq<Tcb>, b: int) {
    && 0 <= b < |ts| && ts[b].state == Ready
    && (forall j :: 0 <= j < |ts| && ts[j].state == Ready ==> ts[b].priority <= ts[j].priority)
    && (forall j :: 0 <= j < b && ts[j].state == Ready ==> ts[b].priority < ts[j].priority)
  }

  lemma NextIsFirst(k: Kernel)
    ensures Next(k) >= 0 ==> FirstAmongReady(k.tasks, Next(k))
    ensures Next(k) < 0 ==> forall j :: 0 <= j < |k.tasks| ==> k.tasks[j].state != Ready
  {
  }

  /** Ageing wakes tasks but neither starts nor stops the RUNNING one. */
  lemma TickKeepsRunner(k: Kernel)
    requires IsRunning(k, k.current)
    ensures IsRunning(Tick(k), k.current) && Tick(k).current == k.current && Tick(k).pending == k.pending
    ensures Tick(k).tasks[k.current] == k.tasks[k.current]
  {
  }

  /** With a RUNNING current task and no request from a task, the interrupt switches exactly
      when, after the tick's own wake-ups, some READY task has a strictly smaller priority
      number; it goes to the first of the best.  Otherwise it is the tick alone. */
  lemma TimerIrqSwitches(k: Kernel)
    requires Coherent(k) && IsRunning(k, k.current) && !TaskHeld(k.pending)
    ensures
      var t, k' := Tick(k), TimerIrq(k);
      var higher := exists j :: 0 <= j < |t.tasks| && t.tasks[j].state == Ready &&
                      t.tasks[j].priority < k.tasks[k.current].priority;
      && k'.pending == NO_PENDING
      && (k'.current != k.current <==> higher)
      && (higher ==> FirstAmongReady(t.tasks, k'.current))
      && (higher ==> k' == SwitchTo(t, k.current, k'.current).0.(pending := NO_PENDING))
      && (!higher ==> k' == t.(pending := NO_PENDING))
  {
    hide Tick;
    hide RunSwitched;
    hide FirstAmongReady;
    var t := Tick(k);
    TickKeeps(k);
    TickKeepsRunner(k);
    NextIsFirst(t);
    EvaluateKeeps(t);
    EvaluateFresh(t);
    ConsumeOnce(Evaluate(t));
    if Outranked(t) {
      assert t.tasks[Next(t)].state == Ready;
      SwitchIgnoresRequest(t, Evaluate(t).pending, t.current, Next(t));
    } else {
      LowestIsNotLower(t);
    }
  }

  /** A request from a task that is held goes first: the interrupt's own evaluation cannot replace it. */
  lemma TimerIrqServesTaskRequest(k: Kernel)
    requires Coherent(k) && TaskHeld(k.pending)
    ensures TimerIrq(k) == Consume(Tick(k)).0
  {
  }

  /** When some READY task outranks the RUNNING one after the tick, the interrupt makes the first
      of the best current if and only if no request from a task is held, or the one that is held
      is the current task's own and for just that task. */
  lemma TimerIrqServesTheBest(k: Kernel, j: nat)
    requires Coherent(k) && IsRunning(k, k.current)
    requires j < |k.tasks| && AgedTask(k.tasks[j], 1).state == Ready
    requires k.tasks[j].priority < k.tasks[k.current].priority
    ensures
      var t := Tick(k).tasks;
      FirstAmongReady(t, TimerIrq(k).current) <==>
      !TaskHeld(k.pending) || (k.pending.from == k.current && FirstAmongReady(t, k.pending.to))
  {
    var t := Tick(k);
    assert t.tasks[j] == AgedTask(k.tasks[j], 1);
    TickKeepsRunner(k);
    TickKeeps(k);
    if TaskHeld(k.pending) {
      TimerIrqServesTaskRequest(k);
      hide TimerIrq;
      ConsumeOnce(t);
    } else {
      TimerIrqSwitches(k);
    }
  }

  /** A parameter block for a task of the given priority. */
  function Param(priority: int): TaskParam {
    TaskParam(1, 1, priority, 4096, 4096)
  }

  lemma OneTask() returns (run: seq<Step>, k: Kernel)
    ensures AllowedRun(Booted(3, 0), run) && k == After(Booted(3, 0), run)
    ensures k.tasks == [NewTcb(Param(5), 1, Ready), BLANK_TCB, BLANK_TCB] && k.nextTaskId == 2
  {
    var k0 := Booted(3, 0);
    assert k0.tasks == [BLANK_TCB, BLANK_TCB, BLANK_TCB] && FreeSlot(k0.tasks) == 0;
    AfterOne(k0, DoRegister(Param(5)));
    run, k := [DoRegister(Param(5))], TaskRegister(k0, Param(5)).0;
  }

  lemma OneMore(run: seq<Step>, k: Kernel, slot: nat, priority: int)
    requires AllowedRun(Booted(3, 0), run) && k == After(Booted(3, 0), run)
    requires slot < |k.tasks| && FreeSlot(k.tasks) == slot && k.nextTaskId == slot + 1 < ID_MAX
    requires Find(k.tasks, slot + 1) < 0
    ensures
      var st := DoCreTsk(slot + 1, Some(Param(priority)));
      var k' := After(Booted(3, 0), run + [st]);
      && AllowedRun(Booted(3, 0), run + [st])
      && k'.tasks == k.tasks[slot := NewTcb(Param(priority), slot + 1, Dormant)] && k'.nextTaskId == slot + 2
  {
    AfterNext(Booted(3, 0), run, DoCreTsk(slot + 1, Some(Param(priority))));
  }

  /** One RUNNING task and two DORMANT ones of higher and higher priority. */
  lemma ThreeTasks() returns (run: seq<Step>, k: Kernel)
    ensures AllowedRun(Booted(3, 0), run) && k == After(Booted(3, 0), run)
    ensures k.tasks == [NewTcb(Param(5), 1, Ready).(state := Running),
                        NewTcb(Param(3), 2, Dormant), NewTcb(Param(1), 3, Dormant)]
    ensures k.current == 0
  {
    hide After;
    hide AllowedRun;
    var k0 := Booted(3, 0);
    run, k := OneTask();
    assert Used(k.tasks[0]) && !Used(k.tasks[1]) && FreeSlot(k.tasks) == 1 && Find(k.tasks, 2) < 0;
    OneMore(run, k, 1, 3);
    run := run + [DoCreTsk(2, Some(Param(3)))];
    k := After(k0, run);
    assert Used(k.tasks[1]) && !Used(k.tasks[2]) && FreeSlot(k.tasks) == 2 && Find(k.tasks, 3) < 0;
    OneMore(run, k, 2, 1);
    run := run + [DoCreTsk(3, Some(Param(1)))];
    k := After(k0, run);
    AfterNext(k0, run, DoCommit(0));
    run, k := run + [DoCommit(0)], Commit(k, 0).0;
  }

  /** From boot to a state in which the best task is passed over: the RUNNING task starts the best
      one and then a better one than itself, whose request replaces the first. */
  lemma BestIsPassedOver() returns (run: seq<Step>)
    ensures AllowedRun(Booted(3, 0), run)
    ensures
      var k := After(Booted(3, 0), run);
      && IsRunning(k, k.current) && |k.tasks| == 3
      && k.tasks[2].state == Ready && k.tasks[2].priority < k.tasks[k.current].priority
      && !FirstAmongReady(Tick(k).tasks, TimerIrq(k).current)
  {
    var k: Kernel;
    run, k := ThreeTasks();
    assert Holds(k.tasks[2], 3) && Find(k.tasks, 3) == 2;
    AfterNext(Booted(3, 0), run, DoStaTsk(3));
    run, k := run + [DoStaTsk(3)], StaTsk(k, 3).0;
    assert Holds(k.tasks[1], 2) && Find(k.tasks, 2) == 1;
    AfterNext(Booted(3, 0), run, DoStaTsk(2));
    run, k := run + [DoStaTsk(2)], StaTsk(k, 2).0;
    ReachableIsCoherent(3, 0, run);
    assert k.pending.to == 1 && TaskHeld(k.pending);
    var t := Tick(k).tasks;
    assert t[1] == AgedTask(k.tasks[1], 1) && t[2] == AgedTask(k.tasks[2], 1);
    hide TimerIrq;
    TimerIrqServesTheBest(k, 2);
  }

  /** Without a request from a task, an evaluation leaves the one request the ranks call for. */
  lemma EvaluateFresh(k: Kernel)
    requires Coherent(k) && !TaskHeld(k.pending) && IsRunning(k, k.current)
    ensures Evaluate(k) ==
      if Outranked(k) then Request(k, FromIrq, HigherPriorityReady, Next(k)) else k.(pending := NO_PENDING)
  {
    Parts(k);
  }

  lemma LowestIsNotLower(k: Kernel)
    requires IsRunning(k, k.current) && !Outranked(k)
    ensures forall j :: 0 <= j < |k.tasks| && k.tasks[j].state == Ready ==>
      k.tasks[k.current].priority <= k.tasks[j].priority
  {
  }
}
