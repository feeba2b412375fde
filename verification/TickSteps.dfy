/** The walk over the delay queue, entry by entry, and why it amounts to one
    simultaneous tick. */
module TickSteps {
  import opened KernelTypes
  import opened Lists
  import opened TaskModel
  import opened KernelSpec
  import opened Coherence
  import opened Agreement
  import opened Delays
  import opened Preservation

  /** The tasks after the walk has dealt with the entries in done. */
  ghost function WalkedTasks(ts: seq<Tcb>, done: seq<Entry>): (r: seq<Tcb>)
    ensures |r| == |ts|
    ensures forall i :: 0 <= i < |ts| ==>
      r[i] == if Used(ts[i]) && ts[i].id in Ids(done) then AgedTask(ts[i], 1) else ts[i]
  {
    seq(|ts|, i requires 0 <= i < |ts| =>
      if Used(ts[i]) && ts[i].id in Ids(done) then AgedTask(ts[i], 1) else ts[i])
  }

  /** The state of the kernel after m entries of the walk. */
  ghost function Walked(k: Kernel, m: nat): Kernel
    requires m <= |k.delay|
  {
    k.(tasks := WalkedTasks(k.tasks, k.delay[..m]),
       sems := DroppedFrom(k.sems, Due(k.delay[..m], 1)),
       delay := Aged(k.delay[..m], 1) + k.delay[m..])
  }

  lemma WalkBegins(k: Kernel)
    ensures Walked(k, 0) == k
  {
    forall s | 0 <= s < |k.sems|
      ensures Dropped(k.sems[s], {}) == k.sems[s]
    {
      KeepAll(k.sems[s].waiters, {});
    }
    assert Due(k.delay[..0], 1) == {};
    assert Walked(k, 0).tasks == k.tasks && Walked(k, 0).sems == k.sems;
    assert k.delay[..0] == [] && k.delay[0..] == k.delay;
  }

  lemma WalkEndsAt(ts: seq<Tcb>, d: seq<Entry>)
    requires DelayFits(ts, d)
    ensures WalkedTasks(ts, d) == AgedTasks(ts, 1)
  {
  }

  /** Every timed task has been dealt with, each once, and nobody else. */
  lemma WalkEnds(k: Kernel)
    requires Coherent(k)
    ensures Walked(k, |k.delay|).(ticks := k.ticks + 1) == Tick(k)
  {
    hide DelayFits;
    Parts(k);
    assert k.delay[..|k.delay|] == k.delay;
    WalkEndsAt(k.tasks, k.delay);
  }

  /** The m-th entry names a task the walk has not touched yet. */
  lemma WalkFinds(k: Kernel, m: nat)
    requires Coherent(k) && m < |k.delay|
    ensures
      var e := k.delay[m];
      var i := Find(k.tasks, e.id);
      && i >= 0 && Timed(k.tasks[i]) && k.tasks[i].remaining == e.remaining > 0
      && Find(Walked(k, m).tasks, e.id) == i && Walked(k, m).tasks[i] == k.tasks[i]
      && e.id !in Ids(k.delay[..m]) && e.id !in Due(k.delay[..m], 1)
  {
    hide TableFits;
    hide SemsFit;
    hide WaitersFit;
    Parts(k);
    var d, e := k.delay, k.delay[m];
    assert Ids(d)[m] == e.id && RemainingFits(k.tasks, e);
    assert Belongs(TickQueue, k.tasks[Find(k.tasks, Ids(d)[m])]);
    FindSame(k.tasks, Walked(k, m).tasks, e.id);
    assert forall j :: 0 <= j < m ==> Ids(d[..m])[j] == Ids(d)[j];
  }

  lemma WalkOneTask(ts: seq<Tcb>, done: seq<Entry>, e: Entry, i: nat)
    requires UniqueIds(ts) && i < |ts| && Holds(ts[i], e.id) && e.id !in Ids(done)
    ensures WalkedTasks(ts, done + [e]) == WalkedTasks(ts, done)[i := AgedTask(ts[i], 1)]
  {
    assert Ids(done + [e]) == Ids(done) + [e.id];
    forall j | 0 <= j < |ts|
      ensures WalkedTasks(ts, done + [e])[j] == WalkedTasks(ts, done)[i := AgedTask(ts[i], 1)][j]
    {
      assert Used(ts[j]) && j != i ==> ts[j].id != e.id;
    }
  }

  lemma WalkTask(k: Kernel, m: nat)
    requires Coherent(k) && m < |k.delay|
    ensures
      var i := Find(k.tasks, k.delay[m].id);
      i >= 0 && Walked(k, m + 1).tasks == Walked(k, m).tasks[i := AgedTask(k.tasks[i], 1)]
  {
    Identities(k);
    WalkFinds(k, m);
    WalkOneTask(k.tasks, k.delay[..m], k.delay[m], Find(k.tasks, k.delay[m].id));
    assert k.delay[..m + 1] == k.delay[..m] + [k.delay[m]];
  }

  lemma WalkDue(d: seq<Entry>, m: nat)
    requires m < |d|
    ensures Due(d[..m + 1], 1) == Due(d[..m], 1) + (if d[m].remaining <= 1 then {d[m].id} else {})
    ensures Aged(d[..m + 1], 1) ==
            Aged(d[..m], 1) + (if d[m].remaining <= 1 then [] else [Entry(d[m].id, d[m].remaining - 1)])
  {
    var next, done := d[..m + 1], d[..m];
    assert next[..m] == done;
    forall x | x in Due(next, 1)
      ensures x in Due(done, 1) || (x == d[m].id && d[m].remaining <= 1)
    {
      var j :| 0 <= j < |next| && next[j].remaining <= 1 && next[j].id == x;
      assert j < m ==> done[j] == next[j];
    }
    forall x | x in Due(done, 1)
      ensures x in Due(next, 1)
    {
      var j :| 0 <= j < |done| && done[j].remaining <= 1 && done[j].id == x;
      assert next[j] == done[j];
    }
    if d[m].remaining <= 1 {
      assert next[m] == d[m];
    }
  }

  /** Only a wait on a semaphore that times out concerns the semaphores. */
  ghost predicate SemsTurnInto(a: seq<Sem>, b: seq<Sem>, t: Tcb, e: Entry) {
    if e.remaining > 1 || t.reason == OnDelay then b == a
    else
      var s := FindSem(a, t.waitSem);
      s >= 0 && e.id in a[s].waiters && b == a[s := a[s].(waiters := Without(a[s].waiters, e.id))]
  }

  /** A delayed task is in no semaphore's queue, so no queue loses anybody for it. */
  lemma WalkDelayed(k: Kernel, m: nat)
    requires Coherent(k) && m < |k.delay| && k.delay[m].remaining == 1
    requires Find(k.tasks, k.delay[m].id) >= 0
    requires k.tasks[Find(k.tasks, k.delay[m].id)].reason == OnDelay
    ensures Walked(k, m + 1).sems == Walked(k, m).sems
  {
    var id := k.delay[m].id;
    var a, b := Due(k.delay[..m], 1), Due(k.delay[..m + 1], 1);
    WalkDue(k.delay, m);
    forall s | 0 <= s < |k.sems|
      ensures Dropped(k.sems[s], b) == Dropped(k.sems[s], a)
    {
      SemAt(k, s);
      if k.sems[s].id > 0 {
        WaitsNowhereElse(k, s, Find(k.tasks, id));
      }
      KeepAgree(k.sems[s].waiters, a, b);
    }
  }

  /** Dropping one more id is removing it from the one queue that has it. */
  lemma DropOneMore(sems: seq<Sem>, s: nat, id: int, gone: set<int>)
    requires s < |sems| && Distinct(sems[s].waiters) && id !in gone
    requires forall r :: 0 <= r < |sems| && r != s ==> id !in sems[r].waiters
    ensures
      var before := DroppedFrom(sems, gone);
      DroppedFrom(sems, gone + {id}) ==
      before[s := before[s].(waiters := Without(before[s].waiters, id))]
  {
    var before, after := DroppedFrom(sems, gone), DroppedFrom(sems, gone + {id});
    forall r | 0 <= r < |sems|
      ensures after[r] == before[s := before[s].(waiters := Without(before[s].waiters, id))][r]
    {
      var q := sems[r].waiters;
      if r == s {
        KeepDistinct(q, gone);
        WithoutKeeps(Keep(q, gone), id);
        KeepKeep(q, gone, {id});
      } else {
        KeepAgree(q, gone, gone + {id});
      }
    }
  }

  lemma SemFound(k: Kernel, i: int)
    requires Coherent(k) && IsSlot(k, i) && k.tasks[i].waitSem > 0
    ensures FindSem(k.sems, k.tasks[i].waitSem) >= 0
  {
    Parts(k);
  }

  /** A task whose wait on a semaphore timed out leaves that semaphore's queue, in which it still is. */
  lemma WalkTimedOut(k: Kernel, m: nat)
    requires Coherent(k) && m < |k.delay| && k.delay[m].remaining == 1
    requires Find(k.tasks, k.delay[m].id) >= 0
    requires k.tasks[Find(k.tasks, k.delay[m].id)].reason == OnSemaphoreTimeout
    ensures SemsTurnInto(Walked(k, m).sems, Walked(k, m + 1).sems,
                         k.tasks[Find(k.tasks, k.delay[m].id)], k.delay[m])
  {
    var id, gone := k.delay[m].id, Due(k.delay[..m], 1);
    var i := Find(k.tasks, id);
    WalkDue(k.delay, m);
    WalkFinds(k, m);
    SameSemsFound(k.sems, Walked(k, m).sems);
    TaskAt(k, i);
    SemFound(k, i);
    var s := FindSem(k.sems, k.tasks[i].waitSem);
    WaitsNowhereElse(k, s, i);
    WaitersAt(k, s);
    SemIds(k, s);
    forall r | 0 <= r < |k.sems| && r != s
      ensures id !in k.sems[r].waiters
    {
      SemAt(k, r);
      if k.sems[r].id > 0 {
        WaitsNowhereElse(k, r, i);
      }
    }
    DropOneMore(k.sems, s, id, gone);
  }

  /** One turn of the loop of delay_queue_tick, as a relation between two states:
      the entry at index is dealt with. */
  ghost predicate TurnsInto(a: Kernel, b: Kernel, index: nat) {
    match b
    case Kernel(tasks, _, sems, _, delay, _, _, _) =>
      && index < |a.delay|
      && var e := a.delay[index];
         var i := Find(a.tasks, e.id);
         && i >= 0 && Timed(a.tasks[i]) && a.tasks[i].remaining == e.remaining > 0
         && (a.tasks[i].reason == OnSemaphoreTimeout ==> a.tasks[i].waitSem > 0)
         && tasks == a.tasks[i := AgedTask(a.tasks[i], 1)]
         && delay == (if e.remaining > 1 then a.delay[index := Entry(e.id, e.remaining - 1)]
                      else a.delay[..index] + a.delay[index + 1..])
         && SemsTurnInto(a.sems, sems, a.tasks[i], e)
  }

  lemma WalkQueue(d: seq<Entry>, m: nat)
    requires m < |d|
    ensures
      var a := Aged(d[..m], 1);
      var before, after := a + d[m..], Aged(d[..m + 1], 1) + d[m + 1..];
      && before[|a|] == d[m]
      && after == (if d[m].remaining > 1 then before[|a| := Entry(d[m].id, d[m].remaining - 1)]
                   else before[..|a|] + before[|a| + 1..])
  {
    WalkDue(d, m);
  }

  /** What the loop reads before it changes anything. */
  lemma WalkReads(k: Kernel, m: nat)
    requires Coherent(k) && m < |k.delay|
    ensures
      var a, e := Walked(k, m), k.delay[m];
      var i := Find(a.tasks, e.id);
      && i >= 0 && i == Find(k.tasks, e.id) && a.tasks[i] == k.tasks[i]
      && Timed(k.tasks[i]) && k.tasks[i].remaining == e.remaining > 0
      && (k.tasks[i].reason == OnSemaphoreTimeout ==> k.tasks[i].waitSem > 0)
  {
    WalkFinds(k, m);
    TaskAt(k, Find(k.tasks, k.delay[m].id));
  }

  lemma WalkSems(k: Kernel, m: nat)
    requires Coherent(k) && m < |k.delay| && Find(k.tasks, k.delay[m].id) >= 0
    requires k.delay[m].remaining > 0 && Timed(k.tasks[Find(k.tasks, k.delay[m].id)])
    ensures SemsTurnInto(Walked(k, m).sems, Walked(k, m + 1).sems,
                         k.tasks[Find(k.tasks, k.delay[m].id)], k.delay[m])
  {
    if k.delay[m].remaining > 1 {
      WalkDue(k.delay, m);
      assert Due(k.delay[..m + 1], 1) == Due(k.delay[..m], 1);
    } else if k.tasks[Find(k.tasks, k.delay[m].id)].reason == OnDelay {
      WalkDelayed(k, m);
    } else {
      WalkTimedOut(k, m);
    }
  }

  /** Every turn of the walk is a turn of the loop. */
  lemma WalkTurns(k: Kernel, m: nat)
    requires Coherent(k) && m < |k.delay|
    ensures TurnsInto(Walked(k, m), Walked(k, m + 1), |Aged(k.delay[..m], 1)|)
  {
    WalkReads(k, m);
    WalkTask(k, m);
    WalkQueue(k.delay, m);
    WalkSems(k, m);
  }

  /** A turn is a pass of the loop. */
  lemma PassTurns(a: Kernel, b: Kernel, index: nat)
    requires TurnsInto(a, b, index)
    ensures Pass(a, index) == a.(tasks := b.tasks, sems := b.sems, delay := b.delay)
  {
    var e := a.delay[index];
    var i := Find(a.tasks, e.id);
    var ts := a.tasks[i := a.tasks[i].(remaining := e.remaining - 1)];
    FindSame(a.tasks, ts, e.id);
  }

  /** From the m-th entry on, the loop goes to where all entries have been dealt with. */
  lemma {:induction false} WalkGoesOn(k: Kernel, m: nat)
    requires Coherent(k) && m <= |k.delay|
    ensures |Aged(k.delay[..m], 1)| <= |Walked(k, m).delay|
    ensures WalkFrom(Walked(k, m), |Aged(k.delay[..m], 1)|).0 == Walked(k, |k.delay|)
    decreases |k.delay| - m
  {
    hide Pass;
    hide TurnsInto;
    var index := |Aged(k.delay[..m], 1)|;
    if m == |k.delay| {
      assert Walked(k, m).delay == Aged(k.delay[..m], 1);
    } else {
      var a, b := Walked(k, m), Walked(k, m + 1);
      assert a.delay[index] == k.delay[m];
      WalkTurns(k, m);
      PassTurns(a, b, index);
      assert Pass(a, index) == b;
      WalkDue(k.delay, m);
      WalkGoesOn(k, m + 1);
    }
  }

  lemma DueAreRemoved(k: Kernel)
    requires Coherent(k)
    ensures |Due(k.delay, 1)| == |k.delay| - |Tick(k).delay|
  {
    hide TableFits;
    hide SemsFit;
    hide WaitersFit;
    hide PendingFits;
    Parts(k);
    DueCount(k.delay, 1);
  }

  /** The walk that removes entries from the queue it walks over, and edits tasks and semaphores
      on the way, is one simultaneous tick; it removes as many entries as tasks are due. */
  lemma WalkIsTick(k: Kernel)
    requires Coherent(k)
    ensures WalkTick(k) == Tick(k)
    ensures WalkFrom(k, 0).1 == |Due(k.delay, 1)|
  {
    assert k.delay[..0] == [] && Aged([], 1) == [];
    hide Walked;
    hide WalkFrom;
    hide Tick;
    hide Aged;
    WalkBegins(k);
    WalkEnds(k);
    WalkGoesOn(k, 0);
    DueAreRemoved(k);
  }
}
