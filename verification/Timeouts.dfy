/** Waits with a deadline over whole runs: they keep it, they end exactly once, and once over
    they stay over. */
module Timeouts {
  import opened KernelTypes
  import opened TaskModel
  import opened KernelSpec
  import opened Coherence
  import opened Preservation
  import opened Runs
  import opened Effects
  import opened Deadlines

  // ----- while the wait goes on -----------------------------------------

  /** Slot i is WAITING before and after every step of the run. */
  ghost predicate KeepsWaiting(k: Kernel, run: seq<Step>, i: nat)
    decreases |run|
  {
    && i < |k.tasks| && k.tasks[i].state == Waiting
    && (run == [] || KeepsWaiting(Do(k, run[0]).0, run[1..], i))
  }

  /** A wait for ticks, with or without a semaphore, keeps its deadline through every run that
      does not end it: the ticks that remain shrink by exactly those of the run. */
  lemma {:induction false} WaitKeepsDeadline(k: Kernel, run: seq<Step>, i: nat)
    requires Coherent(k) && AllowedRun(k, run) && i < |k.tasks| && Timed(k.tasks[i])
    requires KeepsWaiting(k, run, i)
    ensures
      var k' := After(k, run);
      && |k'.tasks| == |k.tasks| && StillWaits(k, k', i)
      && k'.ticks == k.ticks + TicksIn(run) < Deadline(k, i)
      && k'.tasks[i].remaining == k.tasks[i].remaining - TicksIn(run)
    decreases |run|
  {
    hide Do;
    hide Allowed;
    hide SignalledBy;
    if run == [] {
      TaskAt(k, i);
    } else {
      TimedStep(k, run[0], i);
      StepKeeps(k, run[0]);
      WaitKeepsDeadline(Do(k, run[0]).0, run[1..], i);
    }
  }

  lemma {:induction false} WaitsAt(k: Kernel, run: seq<Step>, i: nat, m: nat)
    requires KeepsWaiting(k, run, i) && m <= |run|
    ensures i < |After(k, run[..m]).tasks| && After(k, run[..m]).tasks[i].state == Waiting
    decreases m
  {
    hide Do;
    if m == 0 {
      assert run[..0] == [];
    } else {
      assert run[..m][0] == run[0] && run[..m][1..] == run[1..][..m - 1];
      WaitsAt(Do(k, run[0]).0, run[1..], i, m - 1);
    }
  }

  // ----- the end of a wait ----------------------------------------------

  /** The step with number m is the first one that ends the wait of slot i. */
  ghost predicate EndsAt(k: Kernel, run: seq<Step>, i: nat, m: nat) {
    && m < |run| && KeepsWaiting(k, run[..m], i)
    && var k' := After(k, run[..m + 1]);
       i < |k'.tasks| && k'.tasks[i].state != Waiting
  }

  lemma EndsAtMostOnce(k: Kernel, run: seq<Step>, i: nat, m: nat, n: nat)
    requires EndsAt(k, run, i, m) && EndsAt(k, run, i, n)
    ensures m == n
  {
    if m < n {
      assert run[..n][..m + 1] == run[..m + 1];
      WaitsAt(k, run[..n], i, m + 1);
    } else if n < m {
      assert run[..m][..n + 1] == run[..n + 1];
      WaitsAt(k, run[..m], i, n + 1);
    }
  }

  lemma {:induction false} FirstEnd(k: Kernel, run: seq<Step>, i: nat) returns (m: nat)
    requires Coherent(k) && AllowedRun(k, run) && i < |k.tasks| && Timed(k.tasks[i])
    requires !KeepsWaiting(k, run, i)
    ensures EndsAt(k, run, i, m)
    decreases |run|
  {
    hide Do;
    hide Allowed;
    hide SignalledBy;
    var st, rest := run[0], run[1..];
    var k1 := Do(k, st).0;
    TimedStep(k, st, i);
    StepKeeps(k, st);
    if StillWaits(k, k1, i) {
      var n := FirstEnd(k1, rest, i);
      m := n + 1;
      assert run[..m][0] == st && run[..m][1..] == rest[..n];
      assert run[..m + 1][0] == st && run[..m + 1][1..] == rest[..n + 1];
    } else {
      m := 0;
      assert run[..0] == [] && run[..1] == [st];
      AfterOne(k, st);
    }
  }

  /** The step that ends a wait for ticks is a signal that picks the task before its deadline, or
      the tick of the deadline, never both; the task has then left the delay queue and every
      semaphore's queue. */
  lemma WaitEndsBy(k: Kernel, st: Step, i: nat)
    requires Coherent(k) && Allowed(k, st) && i < |k.tasks| && Timed(k.tasks[i])
    requires |Do(k, st).0.tasks| == |k.tasks| && Do(k, st).0.tasks[i].state != Waiting
    ensures SignalledBy(k, st, i) != (Ticking(st) && Do(k, st).0.ticks == Deadline(k, i))
    ensures SignalledBy(k, st, i) ==> Do(k, st).0.ticks < Deadline(k, i)
    ensures
      var k' := Do(k, st).0;
      && k'.tasks[i].id !in Ids(k'.delay)
      && (forall s :: 0 <= s < |k'.sems| ==> k'.tasks[i].id !in k'.sems[s].waiters)
  {
    hide Do;
    hide Allowed;
    TimedStep(k, st, i);
    StepKeeps(k, st);
    StepKeepsTable(k, st);
    NotWaitingNotQueued(Do(k, st).0, i);
  }

  /** In every run that ends a wait for ticks, exactly one step is the first to end it.  Up to that
      step the wait kept its deadline; the step is a signal that picked the task before the
      deadline, or the tick of the deadline, and leaves the task in no queue. */
  lemma TimeoutEndsOnce(k: Kernel, run: seq<Step>, i: nat) returns (m: nat)
    requires Coherent(k) && AllowedRun(k, run) && i < |k.tasks| && Timed(k.tasks[i])
    requires !KeepsWaiting(k, run, i)
    ensures forall n: nat :: EndsAt(k, run, i, n) <==> n == m
    ensures m < |run|
    ensures
      var k1, st := After(k, run[..m]), run[m];
      var k2 := Do(k1, st).0;
      && |k1.tasks| == |k2.tasks| == |k.tasks| && StillWaits(k, k1, i) && k2.tasks[i].state != Waiting
      && SignalledBy(k1, st, i) != (Ticking(st) && k2.ticks == Deadline(k, i))
      && (SignalledBy(k1, st, i) ==> k2.ticks < Deadline(k, i))
      && k2.tasks[i].id !in Ids(k2.delay)
      && (forall s :: 0 <= s < |k2.sems| ==> k2.tasks[i].id !in k2.sems[s].waiters)
  {
    hide Do;
    hide Allowed;
    hide SignalledBy;
    hide KeepsWaiting;
    m := FirstEnd(k, run, i);
    forall n: nat | EndsAt(k, run, i, n)
      ensures n == m
    {
      EndsAtMostOnce(k, run, i, m, n);
    }
    RunUpTo(k, run, m);
    var k1 := After(k, run[..m]);
    WaitKeepsDeadline(k, run[..m], i);
    RunKeepsCoherence(k, run[..m]);
    StepKeepsTable(k1, run[m]);
    WaitEndsBy(k1, run[m], i);
  }

  /** A wait with a deadline is over no later than that, in every run with enough ticks. */
  lemma TimeoutEndsInTime(k: Kernel, run: seq<Step>, i: nat) returns (m: nat)
    requires Coherent(k) && AllowedRun(k, run) && i < |k.tasks| && Timed(k.tasks[i])
    requires TicksIn(run) >= k.tasks[i].remaining
    ensures 0 < m <= |run| && EndsAt(k, run, i, m - 1)
    ensures After(k, run[..m]).ticks <= Deadline(k, i)
    ensures |After(k, run[..m]).tasks| == |k.tasks| && After(k, run[..m]).tasks[i].state != Waiting
  {
    hide Do;
    hide Allowed;
    hide SignalledBy;
    if KeepsWaiting(k, run, i) {
      WaitKeepsDeadline(k, run, i);
    }
    var n := TimeoutEndsOnce(k, run, i);
    RunUpTo(k, run, n);
    m := n + 1;
  }

  /** twai_sem(n) without a token to take makes its caller wait for that semaphore and for n
      ticks.  In every run with at least n ticks exactly one step is the first to end the wait:
      a signal that picked the caller while fewer than n ticks had passed, or the n-th tick. */
  lemma TwaiSemWaitsExactly(k: Kernel, semId: int, n: Ticks, run: seq<Step>) returns (m: nat)
    requires Coherent(k) && IsRunning(k, k.current) && n > 0
    requires FindSem(k.sems, semId) >= 0 && k.sems[FindSem(k.sems, semId)].count == 0
    requires AllowedRun(TwaiSem(k, semId, n).0, run) && TicksIn(run) >= n
    ensures m < |run|
    ensures
      var k0, c, st := TwaiSem(k, semId, n).0, k.current, run[m];
      var k1 := After(k0, run[..m]);
      var k2 := Do(k1, st).0;
      && |k0.tasks| == |k1.tasks| == |k2.tasks| == |k.tasks|
      && WaitsOn(k0.tasks[c], semId) && k0.tasks[c].reason == OnSemaphoreTimeout
      && k0.tasks[c].remaining == n && k0.ticks == k.ticks
      && (forall j: nat :: EndsAt(k0, run, c, j) <==> j == m)
      && k1.tasks[c].state == Waiting && k2.tasks[c].state != Waiting
      && SignalledBy(k1, st, c) != (Ticking(st) && k2.ticks == k.ticks + n)
      && (SignalledBy(k1, st, c) ==> k2.ticks < k.ticks + n)
  {
    hide Do;
    hide Allowed;
    hide GiveUp;
    hide SignalledBy;
    hide KeepsWaiting;
    hide EndsAt;
    var k0, c := TwaiSem(k, semId, n).0, k.current;
    WaitSemKeeps(k, semId, n);
    WaitSemRests(k, semId, n);
    SemAt(k, FindSem(k.sems, semId));
    assert k0.tasks[c] == QueuedOn(k, FindSem(k.sems, semId), n).tasks[c];
    if KeepsWaiting(k0, run, c) {
      WaitKeepsDeadline(k0, run, c);
    }
    m := TimeoutEndsOnce(k0, run, c);
  }

  // ----- waits without a deadline --------------------------------------

  /** The step wakes the task in slot i from its sleep, or signals the semaphore on which it waits
      first in line. */
  ghost predicate WokenBy(k: Kernel, st: Step, i: nat)
    requires i < |k.tasks|
  {
    var t := k.tasks[i];
    || (t.reason == OnSleep && st == DoWupTsk(t.id))
    || (t.reason == OnSemaphore && st == DoSigSem(t.waitSem)
        && FindSem(k.sems, t.waitSem) >= 0
        && |k.sems[FindSem(k.sems, t.waitSem)].waiters| > 0
        && k.sems[FindSem(k.sems, t.waitSem)].waiters[0] == t.id)
  }

  lemma SignalOnUntimed(k: Kernel, semId: int, i: nat)
    requires Coherent(k) && i < |k.tasks| && k.tasks[i].state == Waiting && !Timed(k.tasks[i])
    ensures
      var k' := SigSem(k, semId).0;
      && |k'.tasks| == |k.tasks|
      && k'.tasks[i] ==
         if WokenBy(k, DoSigSem(semId), i) then Cleared(k.tasks[i], Ready) else k.tasks[i]
  {
    hide PassOn;
    var s := FindSem(k.sems, semId);
    Identities(k);
    if s >= 0 && |k.sems[s].waiters| > 0 {
      FirstWaiter(k, s);
      FindExact(k.tasks, i);
    }
  }

  lemma WakeupOnUntimed(k: Kernel, id: int, i: nat)
    requires Coherent(k) && i < |k.tasks| && k.tasks[i].state == Waiting && !Timed(k.tasks[i])
    ensures |StaTsk(k, id).0.tasks| == |k.tasks| && StaTsk(k, id).0.tasks[i] == k.tasks[i]
    ensures
      var k' := WupTsk(k, id).0;
      && |k'.tasks| == |k.tasks|
      && k'.tasks[i] == if WokenBy(k, DoWupTsk(id), i) then Cleared(k.tasks[i], Ready) else k.tasks[i]
  {
    Identities(k);
    FindExact(k.tasks, i);
  }

  /** One step, seen from a task that sleeps or waits on a semaphore without a timeout: it stays
      exactly as it is, unless the step wakes it, which makes it READY. */
  lemma UntimedStep(k: Kernel, st: Step, i: nat)
    requires Coherent(k) && Allowed(k, st) && i < |k.tasks|
    requires k.tasks[i].state == Waiting && !Timed(k.tasks[i])
    ensures
      var k' := Do(k, st).0;
      && |k'.tasks| == |k.tasks|
      && k'.tasks[i] == if WokenBy(k, st, i) then Cleared(k.tasks[i], Ready) else k.tasks[i]
  {
    hide Do;
    hide SigSem;
    hide StaTsk;
    hide WupTsk;
    CoreRests(k, st);
    StepKeepsTable(k, st);
    match st
    case DoSigSem(sem) =>
      SignalOnUntimed(k, sem, i);
      assert Do(k, st) == SigSem(k, sem) by { DoesCall(k, st); }
    case DoWupTsk(id) =>
      WakeupOnUntimed(k, id, i);
      assert Do(k, st) == WupTsk(k, id) by { DoesCall(k, st); }
    case DoStaTsk(id) => WakeupOnUntimed(k, id, i);
    case _ =>
  }

  lemma DoesCall(k: Kernel, st: Step)
    ensures st.DoSigSem? ==> Do(k, st) == SigSem(k, st.sem)
    ensures st.DoWupTsk? ==> Do(k, st) == WupTsk(k, st.id)
  {
  }

  ghost predicate NeverWoken(k: Kernel, run: seq<Step>, i: nat)
    decreases |run|
  {
    && i < |k.tasks|
    && (run == [] || (!WokenBy(k, run[0], i) && NeverWoken(Do(k, run[0]).0, run[1..], i)))
  }

  /** Such a task keeps its whole control block through every run that does not wake it, however
      many ticks pass. */
  lemma {:induction false} WaitsUntilWoken(k: Kernel, run: seq<Step>, i: nat)
    requires Coherent(k) && AllowedRun(k, run) && NeverWoken(k, run, i)
    requires k.tasks[i].state == Waiting && !Timed(k.tasks[i])
    ensures |After(k, run).tasks| == |k.tasks| && After(k, run).tasks[i] == k.tasks[i]
    decreases |run|
  {
    hide Do;
    hide Allowed;
    hide WokenBy;
    if run == [] {
    } else {
      UntimedStep(k, run[0], i);
      StepKeeps(k, run[0]);
      WaitsUntilWoken(Do(k, run[0]).0, run[1..], i);
    }
  }

  // ----- once over, a wait stays over ----------------------------------

  /** Neither ticks nor signals touch a task that does not wait. */
  lemma NotWaitingUntouched(k: Kernel, st: Step, i: nat)
    requires Coherent(k) && i < |k.tasks| && k.tasks[i].state != Waiting
    requires st.DoTick? || st.DoSigSem?
    ensures |Do(k, st).0.tasks| == |k.tasks| && Do(k, st).0.tasks[i] == k.tasks[i]
  {
  }

  /** So a task that does not wait keeps its whole control block through any run of them. */
  lemma {:induction false} NotWaitingStays(k: Kernel, run: seq<Step>, i: nat)
    requires Coherent(k) && i < |k.tasks| && k.tasks[i].state != Waiting
    requires forall j :: 0 <= j < |run| ==> run[j].DoTick? || run[j].DoSigSem?
    ensures AllowedRun(k, run)
    ensures |After(k, run).tasks| == |k.tasks| && After(k, run).tasks[i] == k.tasks[i]
    decreases |run|
  {
    hide Do;
    if run == [] {
    } else {
      NotWaitingUntouched(k, run[0], i);
      StepKeeps(k, run[0]);
      NotWaitingStays(Do(k, run[0]).0, run[1..], i);
    }
  }
}
