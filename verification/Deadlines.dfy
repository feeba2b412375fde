/** Waits for ticks end exactly when they should, in every run. */
module Deadlines {
  import opened KernelTypes
  import opened Lists
  import opened TaskModel
  import opened KernelSpec
  import opened Delays
  import opened Coherence
  import opened Preservation
  import opened Effects

  // ----- back-to-back ticks add up -------------------------------------

  lemma AgedTaskTwice(t: Tcb, m: nat, n: nat)
    requires WellFormed(t)
    ensures AgedTask(AgedTask(t, m), n) == AgedTask(t, m + n)
  {
  }

  lemma DroppedTwice(sems: seq<Sem>, a: set<int>, b: set<int>)
    ensures DroppedFrom(DroppedFrom(sems, a), b) == DroppedFrom(sems, a + b)
  {
    forall s | 0 <= s < |sems|
      ensures Dropped(Dropped(sems[s], a), b) == Dropped(sems[s], a + b)
    {
      KeepKeep(sems[s].waiters, a, b);
    }
  }

  /** Advancing by m and then by n is advancing by m + n. */
  lemma AdvanceTwice(k: Kernel, m: nat, n: nat)
    requires Coherent(k)
    ensures Advance(Advance(k, m), n) == Advance(k, m + n)
  {
    hide WellFormed;
    hide AgedTask;
    hide Aged;
    var ts := AgedTasks(AgedTasks(k.tasks, m), n);
    forall i | 0 <= i < |k.tasks|
      ensures ts[i] == AgedTask(k.tasks[i], m + n)
    {
      TaskAt(k, i);
      AgedTaskTwice(k.tasks[i], m, n);
    }
    AgedTwice(k.delay, m, n);
    DueTwice(k.delay, m, n);
    DroppedTwice(k.sems, Due(k.delay, m), Due(Aged(k.delay, m), n));
    assert ts == AgedTasks(k.tasks, m + n);
  }

  function Repeat(n: nat): seq<Step> {
    if n == 0 then [] else [DoTick] + Repeat(n - 1)
  }

  /** n ticks, one after the other, are one advance by n. */
  lemma {:induction false} TicksAddUp(k: Kernel, n: nat)
    requires Coherent(k) && n > 0
    ensures AllowedRun(k, Repeat(n)) && After(k, Repeat(n)) == Advance(k, n)
    decreases n
  {
    hide Advance;
    var rest := Repeat(n - 1);
    assert Repeat(n)[1..] == rest && Do(k, DoTick).0 == Advance(k, 1);
    if n == 1 {
    } else {
      AdvanceKeeps(k, 1);
      TicksAddUp(Tick(k), n - 1);
      AdvanceTwice(k, 1, n - 1);
    }
  }

  // ----- deadlines ------------------------------------------------------

  function Deadline(k: Kernel, i: nat): nat
    requires i < |k.tasks|
  {
    k.ticks + k.tasks[i].remaining
  }

  predicate Ticking(st: Step) {
    st.DoTick? || st.DoTimerIrq?
  }

  /** Slot i is still in the wait it was in, for the same deadline. */
  ghost predicate StillWaits(k: Kernel, k': Kernel, i: nat)
    requires i < |k.tasks| && |k'.tasks| == |k.tasks|
  {
    && Timed(k'.tasks[i])
    && k'.tasks[i].reason == k.tasks[i].reason && k'.tasks[i].waitSem == k.tasks[i].waitSem
    && Deadline(k', i) == Deadline(k, i)
  }

  /** A signal on the semaphore the task waits on, when the task is first in its queue. */
  ghost predicate SignalledBy(k: Kernel, st: Step, i: nat)
    requires i < |k.tasks|
  {
    && st.DoSigSem? && k.tasks[i].reason == OnSemaphoreTimeout && k.tasks[i].waitSem == st.sem
    && FindSem(k.sems, st.sem) >= 0
    && |k.sems[FindSem(k.sems, st.sem)].waiters| > 0
    && k.sems[FindSem(k.sems, st.sem)].waiters[0] == k.tasks[i].id
  }

  lemma SignalOnTimed(k: Kernel, semId: int, i: nat)
    requires Coherent(k) && i < |k.tasks| && Timed(k.tasks[i])
    ensures
      var k' := SigSem(k, semId).0;
      && |k'.tasks| == |k.tasks| && k'.ticks == k.ticks
      && (if SignalledBy(k, DoSigSem(semId), i) then k'.tasks[i] == Cleared(k.tasks[i], Ready)
          else k'.tasks[i] == k.tasks[i])
  {
    hide PassOn;
    var s := FindSem(k.sems, semId);
    Identities(k);
    if s >= 0 && |k.sems[s].waiters| > 0 {
      FirstWaiter(k, s);
      FindExact(k.tasks, i);
    }
  }

  lemma WakeupOnTimed(k: Kernel, id: int, i: nat)
    requires i < |k.tasks| && Timed(k.tasks[i])
    ensures |StaTsk(k, id).0.tasks| == |k.tasks| && |WupTsk(k, id).0.tasks| == |k.tasks|
    ensures StaTsk(k, id).0.tasks[i] == k.tasks[i] && WupTsk(k, id).0.tasks[i] == k.tasks[i]
    ensures StaTsk(k, id).0.ticks == k.ticks == WupTsk(k, id).0.ticks
  {
  }

  /** The core change of a step, seen from a task that waits for ticks. */
  lemma CoreOnTimed(k: Kernel, st: Step, i: nat)
    requires Coherent(k) && i < |k.tasks| && Timed(k.tasks[i])
    ensures |Core(k, st).tasks| == |k.tasks|
    ensures Core(k, st).ticks == k.ticks + (if Ticking(st) then 1 else 0)
    ensures Core(k, st).tasks[i] ==
      if Ticking(st) then AgedTask(k.tasks[i], 1)
      else if SignalledBy(k, st, i) then Cleared(k.tasks[i], Ready)
      else k.tasks[i]
  {
    hide SigSem;
    hide StaTsk;
    hide WupTsk;
    hide SignalledBy;
    CoreKeepsTable(k, st);
    assert !st.DoSigSem? ==> !SignalledBy(k, st, i) by { NoOtherSignal(k, st, i); }
    match st
    case DoSigSem(sem) => SignalOnTimed(k, sem, i);
    case DoStaTsk(id) => WakeupOnTimed(k, id, i);
    case DoWupTsk(id) => WakeupOnTimed(k, id, i);
    case _ =>
  }

  lemma NoOtherSignal(k: Kernel, st: Step, i: nat)
    requires i < |k.tasks|
    ensures SignalledBy(k, st, i) ==> st.DoSigSem?
  {
  }

  /** One step, seen from a task that waits for ticks: the wait goes on for the same
      deadline, unless a signal picks the task, or this very step makes the clock reach
      the deadline. */
  lemma TimedStep(k: Kernel, st: Step, i: nat)
    requires Coherent(k) && Allowed(k, st) && i < |k.tasks| && Timed(k.tasks[i])
    ensures
      var k' := Do(k, st).0;
      && |k'.tasks| == |k.tasks|
      && k'.ticks == k.ticks + (if Ticking(st) then 1 else 0)
      && (if SignalledBy(k, st, i) then k'.tasks[i].state == Ready && k'.ticks < Deadline(k, i)
          else if Ticking(st) && k'.ticks == Deadline(k, i) then
            k'.tasks[i].state != Waiting && (st.DoTick? ==> k'.tasks[i].state == Ready)
          else StillWaits(k, k', i) && k'.ticks < Deadline(k, i))
  {
    hide Core;
    hide SignalledBy;
    TaskAt(k, i);
    NoOtherSignal(k, st, i);
    CoreOnTimed(k, st, i);
    CoreRests(k, st);
    if SignalledBy(k, st, i) || st.DoTick? {
      assert Core(k, st) == Do(k, st).0 by { SameAsCore(k, st); }
    }
  }

  lemma SameAsCore(k: Kernel, st: Step)
    requires st.DoSigSem? || st.DoTick?
    ensures Core(k, st) == Do(k, st).0
  {
  }

  function TicksIn(run: seq<Step>): nat {
    if run == [] then 0 else (if Ticking(run[0]) then 1 else 0) + TicksIn(run[1..])
  }

  /** A delay of n ticks goes on through every run with fewer than n ticks ... */
  lemma {:induction false} DelayGoesOn(k: Kernel, run: seq<Step>, i: nat)
    requires Coherent(k) && AllowedRun(k, run) && i < |k.tasks|
    requires Timed(k.tasks[i]) && k.tasks[i].reason == OnDelay
    requires TicksIn(run) < k.tasks[i].remaining
    ensures
      var k' := After(k, run);
      && |k'.tasks| == |k.tasks| && Timed(k'.tasks[i]) && k'.tasks[i].reason == OnDelay
      && k'.tasks[i].remaining == k.tasks[i].remaining - TicksIn(run)
    decreases |run|
  {
    hide Do;
    hide Allowed;
    if run == [] {
    } else {
      TimedStep(k, run[0], i);
      StepKeeps(k, run[0]);
      NoSignalOnDelay(k, run[0], i);
      DelayGoesOn(Do(k, run[0]).0, run[1..], i);
    }
  }

  lemma NoSignalOnDelay(k: Kernel, st: Step, i: nat)
    requires i < |k.tasks| && k.tasks[i].reason == OnDelay
    ensures !SignalledBy(k, st, i)
  {
  }

  /** ... and ends at exactly the n-th tick. */
  lemma DelayEndsOnTime(k: Kernel, run: seq<Step>, last: Step, i: nat)
    requires Coherent(k) && AllowedRun(k, run) && i < |k.tasks|
    requires Timed(k.tasks[i]) && k.tasks[i].reason == OnDelay
    requires TicksIn(run) == k.tasks[i].remaining - 1 && Ticking(last)
    ensures
      var k' := Do(After(k, run), last).0;
      && |k'.tasks| == |k.tasks| && k'.tasks[i].state != Waiting
      && (last.DoTick? ==> k'.tasks[i].state == Ready)
  {
    hide Do;
    var k1 := After(k, run);
    DelayGoesOn(k, run, i);
    RunKeepsCoherence(k, run);
    NoSignalOnDelay(k1, last, i);
    TimedStep(k1, last, i);
  }

  /** dly_tsk(n) makes its caller wait for exactly n ticks, whatever else runs meanwhile. */
  lemma DlyTskWaitsExactly(k: Kernel, n: Ticks, run: seq<Step>, last: Step)
    requires Coherent(k) && IsRunning(k, k.current) && n > 0
    requires AllowedRun(DlyTsk(k, n).0, run) && TicksIn(run) == n - 1 && Ticking(last)
    ensures
      var k1, c := DlyTsk(k, n).0, k.current;
      var k2 := After(k1, run);
      var k3 := Do(k2, last).0;
      && |k1.tasks| == |k2.tasks| == |k3.tasks| == |k.tasks|
      && k1.tasks[c].state == Waiting && k1.tasks[c].remaining == n
      && k2.tasks[c].state == Waiting && k2.tasks[c].remaining == 1
      && k3.tasks[c].state != Waiting && (last.DoTick? ==> k3.tasks[c].state == Ready)
  {
    hide Do;
    hide GiveUp;
    hide DelayRefuses;
    var k1, c := DlyTsk(k, n).0, k.current;
    DlyTskKeeps(k, n);
    DlyTskRests(k, n);
    assert k1.tasks[c] == DelayedBy(k, n).tasks[c];
    DelayGoesOn(k1, run, c);
    DelayEndsOnTime(k1, run, last, c);
  }
}
