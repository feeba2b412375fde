/** What holds in every state that calls and interrupts can reach after boot, spelled out. */
module Reachable {
  import opened KernelTypes
  import opened Lists
  import opened TaskModel
  import opened KernelSpec
  import opened Coherence
  import opened Preservation

  /** The kernel with the given table sizes, after a run that starts at boot. */
  function Reached(maxTasks: nat, maxSems: nat, run: seq<Step>): Kernel {
    After(Booted(maxTasks, maxSems), run)
  }

  ghost predicate Legal(maxTasks: nat, maxSems: nat, run: seq<Step>) {
    AllowedRun(Booted(maxTasks, maxSems), run)
  }

  /** At most one task is RUNNING, and it is the dispatcher's current task. */
  lemma OneRunner(maxTasks: nat, maxSems: nat, run: seq<Step>)
    requires Legal(maxTasks, maxSems, run)
    ensures
      var k := Reached(maxTasks, maxSems, run);
      forall i :: 0 <= i < |k.tasks| && k.tasks[i].state == Running ==> i == k.current
  {
    ReachableIsCoherent(maxTasks, maxSems, run);
    CurrentAt(Reached(maxTasks, maxSems, run));
  }

  /** A registered task is in the delay queue exactly while it waits for ticks, with the ticks it
      has left, and in a semaphore's queue exactly while it waits on that semaphore; nobody is
      in a queue twice, and a task that does not wait remembers nothing of a wait. */
  lemma QueuesHoldTheWaiting(maxTasks: nat, maxSems: nat, run: seq<Step>, i: nat)
    requires Legal(maxTasks, maxSems, run)
    requires i < |Reached(maxTasks, maxSems, run).tasks| && Used(Reached(maxTasks, maxSems, run).tasks[i])
    ensures
      var k := Reached(maxTasks, maxSems, run);
      var t := k.tasks[i];
      && Distinct(Ids(k.delay))
      && (t.id in Ids(k.delay) <==> Timed(t))
      && (Timed(t) ==> t.remaining > 0 && Entry(t.id, t.remaining) in k.delay)
      && (forall s :: 0 <= s < |k.sems| && k.sems[s].id > 0 ==>
            Distinct(k.sems[s].waiters) && (t.id in k.sems[s].waiters <==> WaitsOn(t, k.sems[s].id)))
      && (t.state != Waiting ==> t.reason == NoWait && t.waitSem == 0 && t.remaining == 0)
  {
    var k := Reached(maxTasks, maxSems, run);
    ReachableIsCoherent(maxTasks, maxSems, run);
    hide Reached;
    hide Legal;
    TaskAt(k, i);
    Timing(k, i);
    forall s | 0 <= s < |k.sems| && k.sems[s].id > 0
      ensures Distinct(k.sems[s].waiters) &&
              (k.tasks[i].id in k.sems[s].waiters <==> WaitsOn(k.tasks[i], k.sems[s].id))
    {
      WaitersAt(k, s);
      WaitsNowhereElse(k, s, i);
    }
  }

  lemma Timing(k: Kernel, i: nat)
    requires Coherent(k) && i < |k.tasks| && Used(k.tasks[i])
    ensures Distinct(Ids(k.delay))
    ensures k.tasks[i].id in Ids(k.delay) <==> Timed(k.tasks[i])
    ensures Timed(k.tasks[i]) ==>
      k.tasks[i].remaining > 0 && Entry(k.tasks[i].id, k.tasks[i].remaining) in k.delay
  {
    hide TableFits;
    hide SemsFit;
    hide WaitersFit;
    hide PendingFits;
    var t, ids := k.tasks[i], Ids(k.delay);
    Parts(k);
    Identities(k);
    FindExact(k.tasks, i);
    assert Belongs(TickQueue, t) ==> t.id in ids;
    if t.id in ids {
      var e := Position(ids, t.id);
      assert Belongs(TickQueue, k.tasks[Find(k.tasks, ids[e])]);
      assert RemainingFits(k.tasks, k.delay[e]);
      assert k.delay[e] == Entry(t.id, t.remaining);
    }
  }

  /** No lost wakeup: tasks queue for a semaphore only while it has no token, and the number of
      tokens stays within its bounds. */
  lemma NoLostWakeup(maxTasks: nat, maxSems: nat, run: seq<Step>, s: nat)
    requires Legal(maxTasks, maxSems, run) && s < |Reached(maxTasks, maxSems, run).sems|
    ensures
      var sem := Reached(maxTasks, maxSems, run).sems[s];
      0 <= sem.count <= sem.max && (sem.waiters != [] ==> sem.count == 0)
  {
    ReachableIsCoherent(maxTasks, maxSems, run);
    SemAt(Reached(maxTasks, maxSems, run), s);
  }

  /** The id of a registered task is positive and below the next one to be issued, and lookup by
      it leads back to the task. */
  lemma IdsAreSound(maxTasks: nat, maxSems: nat, run: seq<Step>, i: nat)
    requires Legal(maxTasks, maxSems, run)
    requires i < |Reached(maxTasks, maxSems, run).tasks| && Used(Reached(maxTasks, maxSems, run).tasks[i])
    ensures
      var k := Reached(maxTasks, maxSems, run);
      0 < k.tasks[i].id < k.nextTaskId && Find(k.tasks, k.tasks[i].id) == i
  {
    var k := Reached(maxTasks, maxSems, run);
    ReachableIsCoherent(maxTasks, maxSems, run);
    hide Reached;
    hide Legal;
    Identities(k);
    IdBelowNext(k, i);
    FindExact(k.tasks, i);
  }

  /** Used slots form a prefix of the table, and no two of them have the same id. */
  lemma SlotsFillUp(maxTasks: nat, maxSems: nat, run: seq<Step>, i: nat, j: nat)
    requires Legal(maxTasks, maxSems, run)
    requires i < j < |Reached(maxTasks, maxSems, run).tasks| && Used(Reached(maxTasks, maxSems, run).tasks[j])
    ensures
      var ts := Reached(maxTasks, maxSems, run).tasks;
      Used(ts[i]) && ts[i].id != ts[j].id
  {
    var k := Reached(maxTasks, maxSems, run);
    ReachableIsCoherent(maxTasks, maxSems, run);
    hide Reached;
    hide Legal;
    UsedPrefix(k, i, j);
    Identities(k);
  }

  /** A held request has a source and a reason that fit each other, and names two registered,
      different tasks by slot and by id, the target of strictly higher priority. */
  lemma HeldRequestIsSound(maxTasks: nat, maxSems: nat, run: seq<Step>)
    requires Legal(maxTasks, maxSems, run)
    ensures
      var k := Reached(maxTasks, maxSems, run);
      var p := k.pending;
      if !p.requested then p == NO_PENDING
      else
        && (p.source == FromIrq <==> p.reason == HigherPriorityReady)
        && (p.source == FromTask <==> p.reason == TaskStart || p.reason == TaskWakeup)
        && p.source != NoSource && p.fromId != p.toId
        && Find(k.tasks, p.fromId) == p.from >= 0 && Find(k.tasks, p.toId) == p.to >= 0
        && k.tasks[p.to].priority < k.tasks[p.from].priority
  {
    var k := Reached(maxTasks, maxSems, run);
    ReachableIsCoherent(maxTasks, maxSems, run);
    hide Reached;
    hide Legal;
    hide TableFits;
    hide SemsFit;
    hide DelayFits;
    hide WaitersFit;
    Parts(k);
    Identities(k);
    if k.pending.requested {
      FindExact(k.tasks, k.pending.from);
      FindExact(k.tasks, k.pending.to);
    }
  }
}
