/** Runs, put together and taken apart. */
module Runs {
  import opened KernelTypes
  import opened TaskModel
  import opened KernelSpec

  /** A run after a run is their concatenation. */
  lemma {:induction false} AfterBoth(k: Kernel, first: seq<Step>, second: seq<Step>)
    ensures After(k, first + second) == After(After(k, first), second)
    ensures AllowedRun(k, first + second) <==> AllowedRun(k, first) && AllowedRun(After(k, first), second)
    decreases |first|
  {
    hide Do;
    hide Allowed;
    var all := first + second;
    if first == [] {
      assert all == second;
    } else {
      assert all[0] == first[0] && all[1..] == first[1..] + second;
      AfterBoth(Do(k, first[0]).0, first[1..], second);
    }
  }

  lemma AfterOne(k: Kernel, st: Step)
    ensures After(k, [st]) == Do(k, st).0
    ensures AllowedRun(k, [st]) <==> Allowed(k, st)
  {
    hide Do;
    hide Allowed;
    var k1 := Do(k, st).0;
    assert [st][1..] == [];
    assert After(k1, []) == k1 && AllowedRun(k1, []);
  }

  lemma AfterNext(k: Kernel, run: seq<Step>, st: Step)
    ensures After(k, run + [st]) == Do(After(k, run), st).0
    ensures AllowedRun(k, run + [st]) <==> AllowedRun(k, run) && Allowed(After(k, run), st)
  {
    hide Do;
    hide Allowed;
    AfterBoth(k, run, [st]);
    AfterOne(After(k, run), st);
  }

  /** Every prefix of an allowed run is one, and so is the step behind it. */
  lemma RunUpTo(k: Kernel, run: seq<Step>, m: nat)
    requires m < |run|
    ensures After(k, run[..m + 1]) == Do(After(k, run[..m]), run[m]).0
    ensures AllowedRun(k, run) ==> AllowedRun(k, run[..m]) && Allowed(After(k, run[..m]), run[m])
  {
    hide Do;
    hide Allowed;
    var before, st := run[..m], run[m];
    assert run[..m + 1] == before + [st];
    AfterNext(k, before, st);
    assert run == run[..m + 1] + run[m + 1..];
    AfterBoth(k, run[..m + 1], run[m + 1..]);
  }

  /** Boot, two registrations and a commit: the first task runs, the second one is READY. */
  lemma TwoTasks(p: TaskParam, q: TaskParam, run: seq<Step>) returns (k: Kernel)
    requires Complete(p) && Complete(q)
    requires run == [DoRegister(p), DoRegister(q), DoCommit(0)]
    ensures AllowedRun(Booted(2, 0), run) && k == After(Booted(2, 0), run)
    ensures k.tasks == [NewTcb(p, 1, Ready).(state := Running), NewTcb(q, 2, Ready)]
    ensures k.current == 0 && k.pending == NO_PENDING
  {
    var k0 := Booted(2, 0);
    assert k0.tasks == [BLANK_TCB, BLANK_TCB] && FreeSlot(k0.tasks) == 0;
    AfterOne(k0, run[0]);
    var k1 := Do(k0, run[0]).0;
    assert k1.tasks == [NewTcb(p, 1, Ready), BLANK_TCB];
    assert Used(k1.tasks[0]) && !Used(k1.tasks[1]) && FreeSlot(k1.tasks) == 1;
    AfterNext(k0, [run[0]], run[1]);
    var k2 := Do(k1, run[1]).0;
    assert k2.tasks == [NewTcb(p, 1, Ready), NewTcb(q, 2, Ready)];
    AfterNext(k0, [run[0]] + [run[1]], run[2]);
    k := Do(k2, run[2]).0;
    assert run == [run[0]] + [run[1]] + [run[2]];
  }
}
