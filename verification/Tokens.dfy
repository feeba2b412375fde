/** Semaphore tokens are neither made nor lost. */
module Tokens {
  import opened KernelTypes
  import opened KernelSpec
  import opened Coherence
  import opened Preservation
  import opened Effects
  import opened Fifo

  /** The step took a token at once: the call succeeded and its caller still runs. */
  predicate Takes(k: Kernel, st: Step, semId: int) {
    && IsRunning(k, k.current) && IsRunning(Do(k, st).0, k.current)
    && (st == DoWaiSem(semId) || st == DoPolSem(semId) || (st.DoTwaiSem? && st.sem == semId))
    && Do(k, st).1 == E_OK
  }

  /** The step passed a token directly to a task that waited for it. */
  predicate HandsOver(k: Kernel, st: Step, semId: int) {
    && Signals(k, st, semId)
    && FindSem(k.sems, semId) >= 0 && k.sems[FindSem(k.sems, semId)].waiters != []
  }

  function One(b: bool): nat {
    if b then 1 else 0
  }

  lemma PolOnCount(k: Kernel, semId: int, s: nat)
    requires Coherent(k) && s < |k.sems| && k.sems[s].id > 0
    ensures |PolSem(k, semId).0.sems| == |k.sems|
    ensures PolSem(k, semId).0.sems[s].count ==
            k.sems[s].count - One(Takes(k, DoPolSem(semId), k.sems[s].id))
    ensures Takes(k, DoPolSem(semId), k.sems[s].id) ==> k.sems[s].count > 0
  {
    FoundItself(k, s);
  }

  /** wai_sem and twai_sem: the caller still runs exactly when it took a token. */
  lemma WaitOnCount(k: Kernel, st: Step, s: nat)
    requires Coherent(k) && s < |k.sems| && k.sems[s].id > 0 && (st.DoWaiSem? || st.DoTwaiSem?)
    ensures |Core(k, st).sems| == |k.sems|
    ensures Core(k, st).sems[s].count == k.sems[s].count - One(Takes(k, st, k.sems[s].id))
    ensures Takes(k, st, k.sems[s].id) ==> k.sems[s].count > 0
  {
    hide GiveUp;
    FoundItself(k, s);
    CoreRests(k, st);
    SemAt(k, s);
  }

  lemma SignalOnCount(k: Kernel, semId: int, s: nat)
    requires Coherent(k) && s < |k.sems| && k.sems[s].id > 0
    ensures |SigSem(k, semId).0.sems| == |k.sems|
    ensures SigSem(k, semId).0.sems[s].count == k.sems[s].count
      + One(Signals(k, DoSigSem(semId), k.sems[s].id)) - One(HandsOver(k, DoSigSem(semId), k.sems[s].id))
  {
    hide PassOn;
    FoundItself(k, s);
    var r := FindSem(k.sems, semId);
    if r >= 0 && |k.sems[r].waiters| > 0 {
      FirstWaiter(k, r);
    }
  }

  lemma OtherOnCount(k: Kernel, st: Step, s: nat)
    requires Coherent(k) && s < |k.sems| && k.sems[s].id > 0
    requires !st.DoWaiSem? && !st.DoTwaiSem? && !st.DoPolSem? && !st.DoSigSem?
    ensures |Core(k, st).sems| == |k.sems| && Core(k, st).sems[s].count == k.sems[s].count
  {
  }

  /** One step, seen from a semaphore's counter. */
  lemma StepOnCount(k: Kernel, st: Step, s: nat)
    requires Coherent(k) && Allowed(k, st) && s < |k.sems| && k.sems[s].id > 0
    ensures |Do(k, st).0.sems| == |k.sems|
    ensures
      var id := k.sems[s].id;
      Do(k, st).0.sems[s].count ==
      k.sems[s].count + One(Signals(k, st, id)) - One(Takes(k, st, id)) - One(HandsOver(k, st, id))
  {
    hide Do;
    hide PolSem;
    hide SigSem;
    hide Waited;
    CoreRests(k, st);
    match st
    case DoPolSem(sem) => PolOnCount(k, sem, s);
    case DoWaiSem(_) => WaitOnCount(k, st, s);
    case DoTwaiSem(_, _) => WaitOnCount(k, st, s);
    case DoSigSem(sem) => SignalOnCount(k, sem, s);
    case _ => OtherOnCount(k, st, s);
  }

  /** A token is only taken at once when nobody is queued for it: no barging. */
  lemma TakesOnlyWhenNobodyWaits(k: Kernel, st: Step, s: nat)
    requires Coherent(k) && s < |k.sems| && k.sems[s].id > 0 && Takes(k, st, k.sems[s].id)
    ensures k.sems[s].waiters == [] && k.sems[s].count > 0
  {
    hide Do;
    SemAt(k, s);
    if st.DoPolSem? {
      PolOnCount(k, st.sem, s);
    } else {
      WaitOnCount(k, st, s);
    }
  }

  function TakesIn(k: Kernel, run: seq<Step>, semId: int): nat
    decreases |run|
  {
    if run == [] then 0 else One(Takes(k, run[0], semId)) + TakesIn(Do(k, run[0]).0, run[1..], semId)
  }

  function HandOversIn(k: Kernel, run: seq<Step>, semId: int): nat
    decreases |run|
  {
    if run == [] then 0 else One(HandsOver(k, run[0], semId)) + HandOversIn(Do(k, run[0]).0, run[1..], semId)
  }

  /** Conservation: over any run the counter changes by the successful signals, less the
      tokens taken at once, less the tokens passed on directly, and stays within its bounds.
      Timeouts, delays and everything else leave it alone. */
  lemma {:induction false} TokensAreConserved(k: Kernel, run: seq<Step>, s: nat)
    requires Coherent(k) && AllowedRun(k, run) && s < |k.sems| && k.sems[s].id > 0
    ensures
      var id, sems := k.sems[s].id, After(k, run).sems;
      && |sems| == |k.sems| && sems[s].id == id && sems[s].max == k.sems[s].max
      && sems[s].count == k.sems[s].count + SignalsIn(k, run, id) - TakesIn(k, run, id) - HandOversIn(k, run, id)
      && 0 <= sems[s].count <= sems[s].max
      && (sems[s].waiters != [] ==> sems[s].count == 0)
    decreases |run|
  {
    hide Do;
    hide Allowed;
    hide Takes;
    hide HandsOver;
    hide Signals;
    SemAt(k, s);
    if run == [] {
    } else {
      StepKeeps(k, run[0]);
      StepKeepsTable(k, run[0]);
      StepOnCount(k, run[0], s);
      TokensAreConserved(Do(k, run[0]).0, run[1..], s);
    }
  }

  /** From the creation of a semaphore on, its counter is the initial value plus the successful
      signals, less the tokens taken at once, less the tokens passed on directly. */
  lemma TokensSinceCreation(k: Kernel, name: Address, initial: int, max: int, run: seq<Step>)
    requires Coherent(k) && SemCreate(k, name, initial, max).1 > 0
    requires AllowedRun(SemCreate(k, name, initial, max).0, run)
    ensures
      var (k1, id) := SemCreate(k, name, initial, max);
      var s, sems := FreeSem(k.sems), After(k1, run).sems;
      && 0 <= s < |sems| == |k.sems| && sems[s].id == id && sems[s].max == max
      && sems[s].count == initial + SignalsIn(k1, run, id) - TakesIn(k1, run, id) - HandOversIn(k1, run, id)
      && 0 <= sems[s].count <= max
  {
    hide After;
    hide AllowedRun;
    SemCreateKeeps(k, name, initial, max);
    TokensAreConserved(SemCreate(k, name, initial, max).0, run, FreeSem(k.sems));
  }
}
