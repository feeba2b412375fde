/** How many tasks are RUNNING, when nobody keeps callers from committing tasks as they like. */
module Runners {
  import opened KernelTypes
  import opened TaskModel
  import opened KernelSpec
  import opened Coherence
  import opened Preservation
  import opened Runs

  /** At most one task is RUNNING, and it is the current one. */
  ghost predicate OneRuns(k: Kernel) {
    forall i :: 0 <= i < |k.tasks| && k.tasks[i].state == Running ==> i == k.current
  }

  /** Committing a READY task keeps the stores in agreement exactly while no task is RUNNING,
      because the task that was RUNNING is not demoted. */
  lemma CommitIsExact(k: Kernel, slot: int)
    requires Coherent(k) && IsSlot(k, slot) && k.tasks[slot].state == Ready
    ensures Coherent(Commit(k, slot).0) <==> NobodyRuns(k)
    ensures OneRuns(Commit(k, slot).0) <==> NobodyRuns(k)
  {
    var k' := Commit(k, slot).0;
    if NobodyRuns(k) {
      CommitKeeps(k, slot);
      CurrentAt(k');
    } else {
      var i :| 0 <= i < |k.tasks| && k.tasks[i].state == Running;
      assert k'.tasks[i].state == Running && i != k'.current;
      if Coherent(k') {
        CurrentAt(k');
      }
    }
  }

  /** So among all steps only such a commit breaks the rule of one RUNNING task. */
  lemma StepIsExact(k: Kernel, st: Step)
    requires Coherent(k) && Defined(k, st)
    ensures Coherent(Do(k, st).0) <==> Allowed(k, st)
    ensures OneRuns(Do(k, st).0) <==> Allowed(k, st)
  {
    if Allowed(k, st) {
      hide Do;
      StepKeeps(k, st);
      CurrentAt(Do(k, st).0);
    } else {
      CommitIsExact(k, st.slot);
    }
  }

  ghost predicate DefinedRun(k: Kernel, run: seq<Step>)
    decreases |run|
  {
    run == [] || (Defined(k, run[0]) && DefinedRun(Do(k, run[0]).0, run[1..]))
  }

  /** At most one task is RUNNING, the current one, before and after every step of the run. */
  ghost predicate OneRunsThroughout(k: Kernel, run: seq<Step>)
    decreases |run|
  {
    OneRuns(k) && (run == [] || OneRunsThroughout(Do(k, run[0]).0, run[1..]))
  }

  lemma {:induction false} OneRunnerExactly(k: Kernel, run: seq<Step>)
    requires Coherent(k) && DefinedRun(k, run)
    ensures OneRunsThroughout(k, run) <==> AllowedRun(k, run)
    decreases |run|
  {
    hide Do;
    hide Allowed;
    hide Defined;
    CurrentAt(k);
    if run == [] {
    } else {
      var k1 := Do(k, run[0]).0;
      StepIsExact(k, run[0]);
      if Allowed(k, run[0]) {
        OneRunnerExactly(k1, run[1..]);
      }
    }
  }

  /** From boot on, at most one task is RUNNING throughout a run if and only if no step of it
      commits a READY task while another one is RUNNING. */
  lemma OneRunnerFromBoot(maxTasks: nat, maxSems: nat, run: seq<Step>)
    requires DefinedRun(Booted(maxTasks, maxSems), run)
    ensures OneRunsThroughout(Booted(maxTasks, maxSems), run) <==> AllowedRun(Booted(maxTasks, maxSems), run)
  {
    BootedIsCoherent(maxTasks, maxSems);
    OneRunnerExactly(Booted(maxTasks, maxSems), run);
  }

  /** Two registrations and two commits leave two tasks RUNNING. */
  lemma TwoRunners() returns (run: seq<Step>)
    ensures DefinedRun(Booted(2, 0), run)
    ensures
      var k := After(Booted(2, 0), run);
      |k.tasks| == 2 && k.tasks[0].state == k.tasks[1].state == Running
  {
    var p := TaskParam(1, 1, 1, 4096, 4096);
    var first := [DoRegister(p), DoRegister(p), DoCommit(0)];
    var k := TwoTasks(p, p, first);
    run := first + [DoCommit(1)];
    AfterNext(Booted(2, 0), first, DoCommit(1));
    DefinedBoth(Booted(2, 0), first, DoCommit(1));
  }

  lemma {:induction false} DefinedBoth(k: Kernel, run: seq<Step>, last: Step)
    requires AllowedRun(k, run) && Defined(After(k, run), last)
    ensures DefinedRun(k, run + [last])
    decreases |run|
  {
    hide Do;
    hide Defined;
    var all := run + [last];
    if run == [] {
      assert all == [last] && all[1..] == [];
      assert DefinedRun(Do(k, last).0, []);
    } else {
      assert all[0] == run[0] && all[1..] == run[1..] + [last];
      DefinedBoth(Do(k, run[0]).0, run[1..], last);
    }
  }
}
