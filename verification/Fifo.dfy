/** Semaphore queues are first come, first served, whatever else a run does. */
module Fifo {
  import opened KernelTypes
  import opened Lists
  import opened TaskModel
  import opened KernelSpec
  import opened Coherence
  import opened Preservation
  import opened Effects
  import opened Deadlines

  predicate Before(q: seq<int>, y: int, x: int) {
    Position(q, y) < Position(q, x)
  }

  // ----- what the three queue changes do to positions ------------------

  lemma {:induction false} PositionPush(q: seq<int>, z: int, x: int)
    requires x in q
    ensures Position(q + [z], x) == Position(q, x)
  {
    if q[0] == x {
    } else {
      assert (q + [z])[1..] == q[1..] + [z];
      PositionPush(q[1..], z, x);
    }
  }

  lemma KeepsOrder(q: seq<int>, drop: set<int>, x: int)
    requires x in Keep(q, drop)
    ensures Position(Keep(q, drop), x) <= Position(q, x)
    ensures forall y :: Before(Keep(q, drop), y, x) ==> Before(q, y, x)
  {
    KeepOrder(q, drop, x, x);
    forall y | Before(Keep(q, drop), y, x)
      ensures Before(q, y, x)
    {
      KeepOrder(q, drop, x, y);
      assert y in Keep(q, drop) && y != x;
      assert q[Position(q, y)] == y && q[Position(q, x)] == x;
    }
  }

  lemma PushKeepsOrder(q: seq<int>, z: int, x: int)
    requires x in q
    ensures Position(q + [z], x) == Position(q, x)
    ensures forall y :: Before(q + [z], y, x) ==> Before(q, y, x)
  {
    PositionPush(q, z, x);
    forall y | Before(q + [z], y, x)
      ensures Before(q, y, x)
    {
      var p := Position(q + [z], y);
      assert q[p] == y;
      assert y in q;
      PositionPush(q, z, y);
    }
  }

  lemma PopKeepsOrder(q: seq<int>, x: int)
    requires Distinct(q) && q != [] && x in q[1..]
    ensures Position(q[1..], x) == Position(q, x) - 1
    ensures forall y :: Before(q[1..], y, x) ==> Before(q, y, x)
  {
  }

  // ----- one step -------------------------------------------------------

  predicate Signals(k: Kernel, st: Step, semId: int) {
    st == DoSigSem(semId) && Do(k, st).1 == E_OK
  }

  predicate Joins(k: Kernel, st: Step, s: nat)
    requires s < |k.sems|
  {
    && IsRunning(k, k.current) && k.sems[s].count <= 0 && FindSem(k.sems, k.sems[s].id) == s
    && (st == DoWaiSem(k.sems[s].id) || (st.DoTwaiSem? && st.sem == k.sems[s].id && st.timeout > 0))
  }

  /** The queue of semaphore slot s after a step. */
  ghost function QueueAfter(k: Kernel, st: Step, s: nat): seq<int>
    requires s < |k.sems|
  {
    var q := k.sems[s].waiters;
    if Ticking(st) then Keep(q, Due(k.delay, 1))
    else if st == DoSigSem(k.sems[s].id) && q != [] then q[1..]
    else if Joins(k, st, s) then q + [k.tasks[k.current].id]
    else q
  }

  lemma FoundItself(k: Kernel, s: nat)
    requires Coherent(k) && s < |k.sems| && k.sems[s].id > 0
    ensures FindSem(k.sems, k.sems[s].id) == s
  {
    SemIds(k, s);
  }

  lemma SignalOnQueue(k: Kernel, semId: int, s: nat)
    requires Coherent(k) && s < |k.sems| && k.sems[s].id > 0
    ensures |SigSem(k, semId).0.sems| == |k.sems|
    ensures SigSem(k, semId).0.sems[s].waiters == QueueAfter(k, DoSigSem(semId), s)
    ensures semId == k.sems[s].id && k.sems[s].waiters != [] ==> SigSem(k, semId).1 == E_OK
  {
    hide PassOn;
    FoundItself(k, s);
    var r := FindSem(k.sems, semId);
    if r >= 0 && |k.sems[r].waiters| > 0 {
      FirstWaiter(k, r);
    }
  }

  lemma WaitedOnQueue(k: Kernel, semId: int, n: nat, s: nat)
    requires Coherent(k) && s < |k.sems| && k.sems[s].id > 0
    ensures |Waited(k, semId, n).sems| == |k.sems|
    ensures Waited(k, semId, n).sems[s].waiters ==
      if IsRunning(k, k.current) && k.sems[s].count <= 0 && semId == k.sems[s].id
      then k.sems[s].waiters + [k.tasks[k.current].id] else k.sems[s].waiters
  {
    FoundItself(k, s);
  }

  lemma OtherOnQueue(k: Kernel, st: Step, s: nat)
    requires Coherent(k) && s < |k.sems| && k.sems[s].id > 0
    requires !st.DoWaiSem? && !st.DoTwaiSem? && !st.DoSigSem? && !Ticking(st)
    ensures |Core(k, st).sems| == |k.sems| && Core(k, st).sems[s].waiters == k.sems[s].waiters
  {
  }

  /** One step, seen from a semaphore's queue. */
  lemma StepOnQueue(k: Kernel, st: Step, s: nat)
    requires Coherent(k) && Allowed(k, st) && s < |k.sems| && k.sems[s].id > 0
    ensures |Do(k, st).0.sems| == |k.sems| && Do(k, st).0.sems[s].id == k.sems[s].id
    ensures Do(k, st).0.sems[s].waiters == QueueAfter(k, st, s)
  {
    hide Do;
    hide SigSem;
    hide Waited;
    hide SemCreate;
    hide PolSem;
    hide TaskRegister;
    hide CreTsk;
    hide StaTsk;
    hide WupTsk;
    StepKeepsTable(k, st);
    CoreRests(k, st);
    FoundItself(k, s);
    match st
    case DoSigSem(sem) => SignalOnQueue(k, sem, s);
    case DoWaiSem(sem) => WaitedOnQueue(k, sem, 0, s);
    case DoTwaiSem(sem, n) => WaitedOnQueue(k, sem, n, s);
    case DoTick =>
    case DoTimerIrq =>
    case _ => OtherOnQueue(k, st, s);
  }

  /** While a task stays in the queue nobody gets ahead of it, and every successful
      signal brings it one place forward. */
  lemma StepIsFifo(k: Kernel, st: Step, s: nat, x: int)
    requires Coherent(k) && Allowed(k, st) && s < |k.sems| && k.sems[s].id > 0
    requires |Do(k, st).0.sems| == |k.sems|
    requires x in k.sems[s].waiters && x in Do(k, st).0.sems[s].waiters
    ensures
      var q, q' := k.sems[s].waiters, Do(k, st).0.sems[s].waiters;
      && Position(q', x) + (if Signals(k, st, k.sems[s].id) then 1 else 0) <= Position(q, x)
      && (forall y :: Before(q', y, x) ==> Before(q, y, x))
  {
    hide Do;
    var q := k.sems[s].waiters;
    StepOnQueue(k, st, s);
    if Ticking(st) {
      KeepsOrder(q, Due(k.delay, 1), x);
    } else if st == DoSigSem(k.sems[s].id) {
      WaitersAt(k, s);
      PopKeepsOrder(q, x);
    } else if Joins(k, st, s) {
      PushKeepsOrder(q, k.tasks[k.current].id, x);
    }
  }

  // ----- whole runs -----------------------------------------------------

  /** How many signals on the semaphore succeed in a run. */
  function SignalsIn(k: Kernel, run: seq<Step>, semId: int): nat
    decreases |run|
  {
    if run == [] then 0
    else (if Signals(k, run[0], semId) then 1 else 0) + SignalsIn(Do(k, run[0]).0, run[1..], semId)
  }

  /** Task x is in the queue of slot s before and after every step of the run. */
  ghost predicate Stays(k: Kernel, run: seq<Step>, s: nat, x: int)
    decreases |run|
  {
    && s < |k.sems| && x in k.sems[s].waiters
    && (run == [] || Stays(Do(k, run[0]).0, run[1..], s, x))
  }

  /** Nobody overtakes a queued task in any run, and signals bring it forward. */
  lemma {:induction false} RunIsFifo(k: Kernel, run: seq<Step>, s: nat, x: int)
    requires Coherent(k) && AllowedRun(k, run) && s < |k.sems| && k.sems[s].id > 0
    requires Stays(k, run, s, x)
    ensures
      var k' := After(k, run);
      && |k'.sems| == |k.sems| && x in k'.sems[s].waiters
      && Position(k'.sems[s].waiters, x) + SignalsIn(k, run, k.sems[s].id) <= Position(k.sems[s].waiters, x)
      && (forall y :: Before(k'.sems[s].waiters, y, x) ==> Before(k.sems[s].waiters, y, x))
    decreases |run|
  {
    hide Do;
    hide Allowed;
    hide Before;
    if run == [] {
    } else {
      var k1 := Do(k, run[0]).0;
      StepKeeps(k, run[0]);
      StepKeepsTable(k, run[0]);
      assert Stays(k1, run[1..], s, x);
      StepIsFifo(k, run[0], s, x);
      RunIsFifo(k1, run[1..], s, x);
    }
  }

  /** A run in which a queued task does not stay has a first point where it has left. */
  lemma {:induction false} LeavesAt(k: Kernel, run: seq<Step>, s: nat, x: int) returns (m: nat)
    requires Coherent(k) && AllowedRun(k, run) && s < |k.sems| && k.sems[s].id > 0
    requires x in k.sems[s].waiters && !Stays(k, run, s, x)
    ensures 0 < m <= |run| && AllowedRun(k, run[..m])
    ensures |After(k, run[..m]).sems| == |k.sems|
    ensures After(k, run[..m]).sems[s].id == k.sems[s].id
    ensures x !in After(k, run[..m]).sems[s].waiters
    decreases |run|
  {
    hide Do;
    hide Allowed;
    var st, rest := run[0], run[1..];
    var k1 := Do(k, st).0;
    StepKeeps(k, st);
    StepKeepsTable(k, st);
    if x in k1.sems[s].waiters {
      var n := LeavesAt(k1, rest, s, x);
      m := n + 1;
      assert run[..m][0] == st && run[..m][1..] == rest[..n];
    } else {
      m := 1;
      assert run[..1] == [st] && [st][1..] == [];
      assert After(k, [st]) == After(k1, []) == k1;
      assert AllowedRun(k1, []);
    }
  }

  /** Bounded waiting: a task at position p of a semaphore's queue no longer waits there
      by the time p + 1 signals on it have succeeded, whatever steps come in between. */
  lemma BoundedWaiting(k: Kernel, run: seq<Step>, s: nat, i: nat) returns (m: nat)
    requires Coherent(k) && AllowedRun(k, run) && s < |k.sems| && k.sems[s].id > 0
    requires i < |k.tasks| && WaitsOn(k.tasks[i], k.sems[s].id)
    requires SignalsIn(k, run, k.sems[s].id) > Position(k.sems[s].waiters, k.tasks[i].id)
    ensures 0 < m <= |run|
    ensures |After(k, run[..m]).tasks| == |k.tasks|
    ensures !WaitsOn(After(k, run[..m]).tasks[i], k.sems[s].id)
  {
    var x := k.tasks[i].id;
    WaitsNowhereElse(k, s, i);
    if Stays(k, run, s, x) {
      RunIsFifo(k, run, s, x);
    }
    m := LeavesAt(k, run, s, x);
    var k' := After(k, run[..m]);
    RunKeepsCoherence(k, run[..m]);
    TasksAreForever(k, run[..m]);
    WaitsNowhereElse(k', s, i);
  }

  /** A successful signal on a queue with waiters wakes exactly the task that came first. */
  lemma SignalServesFirst(k: Kernel, s: nat)
    requires Coherent(k) && s < |k.sems| && k.sems[s].id > 0 && k.sems[s].waiters != []
    ensures
      var i := Find(k.tasks, k.sems[s].waiters[0]);
      var k' := SigSem(k, k.sems[s].id).0;
      && SigSem(k, k.sems[s].id).1 == E_OK && i >= 0
      && k.tasks[i].state == Waiting
      && k'.tasks == k.tasks[i := Cleared(k.tasks[i], Ready)]
      && k'.sems == k.sems[s := k.sems[s].(waiters := k.sems[s].waiters[1..])]
      && k'.delay == (if k.tasks[i].reason == OnSemaphoreTimeout then WithoutEntry(k.delay, k.tasks[i].id)
                      else k.delay)
  {
    hide PassOn;
    FoundItself(k, s);
    FirstWaiter(k, s);
  }
}
