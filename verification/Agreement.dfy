/** How the two kinds of queue stay in agreement with the task table. */
module Agreement {
  import opened KernelTypes
  import opened TaskModel
  import opened KernelSpec
  import opened Delays
  import opened Coherence

  predicate OnSem(t: Tcb) {
    t.state == Waiting && (t.reason == OnSemaphore || t.reason == OnSemaphoreTimeout)
  }

  /** The same queues hold both versions of a task, for as long. */
  ghost predicate SameQueues(t: Tcb, t': Tcb) {
    && Timed(t') == Timed(t) && (Timed(t) ==> t'.remaining == t.remaining)
    && OnSem(t') == OnSem(t) && t'.waitSem == t.waitSem
  }

  lemma DelayQuiet(ts: seq<Tcb>, ts': seq<Tcb>, d: seq<Entry>)
    requires DelayFits(ts, d) && SameIds(ts, ts')
    requires forall i :: 0 <= i < |ts| ==> Timed(ts'[i]) == Timed(ts[i])
    requires forall i :: 0 <= i < |ts| && Timed(ts[i]) ==> ts'[i].remaining == ts[i].remaining
    ensures DelayFits(ts', d)
  {
    ExactlyQuiet(ts, ts', TickQueue, Ids(d));
    forall e | 0 <= e < |d|
      ensures RemainingFits(ts', d[e])
    {
      FindSame(ts, ts', Ids(d)[e]);
      assert RemainingFits(ts, d[e]);
    }
  }

  lemma WaitersQuiet(ts: seq<Tcb>, ts': seq<Tcb>, sems: seq<Sem>)
    requires WaitersFit(ts, sems) && SameIds(ts, ts')
    requires forall i :: 0 <= i < |ts| ==> OnSem(ts'[i]) == OnSem(ts[i]) && ts'[i].waitSem == ts[i].waitSem
    ensures WaitersFit(ts', sems)
  {
    forall s | 0 <= s < |sems| && sems[s].id > 0
      ensures Exactly(ts', SemQueue(sems[s].id), sems[s].waiters)
    {
      ExactlyQuiet(ts, ts', SemQueue(sems[s].id), sems[s].waiters);
    }
  }

  lemma QueuesQuiet(ts: seq<Tcb>, ts': seq<Tcb>, d: seq<Entry>, sems: seq<Sem>)
    requires DelayFits(ts, d) && WaitersFit(ts, sems) && SameIds(ts, ts')
    requires forall i :: 0 <= i < |ts| ==> SameQueues(ts[i], ts'[i])
    ensures DelayFits(ts', d) && WaitersFit(ts', sems)
  {
    DelayQuiet(ts, ts', d);
    WaitersQuiet(ts, ts', sems);
  }

  // ----- joining --------------------------------------------------------

  lemma DelayJoin(ts: seq<Tcb>, i: nat, t: Tcb, d: seq<Entry>)
    requires DelayFits(ts, d) && UniqueIds(ts) && PositiveIds(ts)
    requires i < |ts| && Used(ts[i]) && !Timed(ts[i])
    requires Timed(t) && t.id == ts[i].id && t.remaining > 0
    ensures DelayFits(ts[i := t], d + [Entry(t.id, t.remaining)])
  {
    var ts', d' := ts[i := t], d + [Entry(t.id, t.remaining)];
    ExactlyJoin(ts, i, t, TickQueue, Ids(d));
    assert Ids(d') == Ids(d) + [t.id];
    FindExact(ts', i);
    forall e | 0 <= e < |d'|
      ensures RemainingFits(ts', d'[e])
    {
      if e < |d| {
        assert RemainingFits(ts, d[e]);
        FindSame(ts, ts', Ids(d)[e]);
      }
    }
  }

  lemma WaitersJoin(ts: seq<Tcb>, i: nat, t: Tcb, sems: seq<Sem>, s: nat)
    requires WaitersFit(ts, sems) && UniqueIds(ts) && PositiveIds(ts)
    requires forall r :: 0 <= r < |sems| && r != s && s < |sems| ==> sems[r].id != sems[s].id
    requires i < |ts| && Used(ts[i]) && !OnSem(ts[i])
    requires s < |sems| && sems[s].id > 0 && WaitsOn(t, sems[s].id) && t.id == ts[i].id
    ensures WaitersFit(ts[i := t], sems[s := sems[s].(waiters := sems[s].waiters + [t.id])])
  {
    var ts', sems' := ts[i := t], sems[s := sems[s].(waiters := sems[s].waiters + [t.id])];
    forall r | 0 <= r < |sems'| && sems'[r].id > 0
      ensures Exactly(ts', SemQueue(sems'[r].id), sems'[r].waiters)
    {
      if r == s {
        ExactlyJoin(ts, i, t, SemQueue(sems[s].id), sems[s].waiters);
      } else {
        ExactlyQuiet(ts, ts', SemQueue(sems[r].id), sems[r].waiters);
      }
    }
    SameSemsFound(sems, sems');
    assert FindSem(sems', t.waitSem) >= 0 by {
      assert sems'[s].id == t.waitSem;
    }
  }

  /** Semaphores keep their ids, so waiting tasks still find theirs. */
  lemma SameSemsFound(sems: seq<Sem>, sems': seq<Sem>)
    requires |sems'| == |sems|
    requires forall s :: 0 <= s < |sems| ==> sems'[s].id == sems[s].id
    ensures forall id :: FindSem(sems', id) == FindSem(sems, id)
  {
  }

  // ----- leaving --------------------------------------------------------

  /** One task stops waiting for time. */
  lemma DelayLeave(ts: seq<Tcb>, i: nat, t: Tcb, d: seq<Entry>)
    requires DelayFits(ts, d) && UniqueIds(ts) && PositiveIds(ts)
    requires i < |ts| && Used(ts[i]) && Used(t) && t.id == ts[i].id && !Timed(t)
    ensures DelayFits(ts[i := t], WithoutEntry(d, t.id))
  {
    var ts', d' := ts[i := t], WithoutEntry(d, t.id);
    ExactlyLeave(ts, ts', TickQueue, Ids(d), {t.id});
    WithoutEntryIds(d, t.id);
    forall e | 0 <= e < |d'|
      ensures RemainingFits(ts', d'[e])
    {
      var x := d'[e];
      assert x in d';
      var j :| 0 <= j < |d| && d[j] == x;
      assert RemainingFits(ts, d[j]);
      FindSame(ts, ts', x.id);
      var id := Ids(d')[e];
      assert id in Ids(d') && id != t.id;
    }
  }

  /** The task ids in gone stop waiting on semaphores, whichever they waited on. */
  lemma WaitersLeave(ts: seq<Tcb>, ts': seq<Tcb>, sems: seq<Sem>, gone: set<int>)
    requires WaitersFit(ts, sems) && SameIds(ts, ts') && UniqueIds(ts) && PositiveIds(ts)
    requires forall i :: 0 <= i < |ts| ==>
      (OnSem(ts'[i]) <==> OnSem(ts[i]) && ts[i].id !in gone)
    requires forall i :: 0 <= i < |ts| ==> ts'[i].waitSem == ts[i].waitSem || ts'[i].waitSem == 0
    requires forall i :: 0 <= i < |ts| && OnSem(ts'[i]) ==> ts'[i].waitSem == ts[i].waitSem
    ensures WaitersFit(ts', DroppedFrom(sems, gone))
  {
    var sems' := DroppedFrom(sems, gone);
    forall s | 0 <= s < |sems'| && sems'[s].id > 0
      ensures Exactly(ts', SemQueue(sems'[s].id), sems'[s].waiters)
    {
      ExactlyLeave(ts, ts', SemQueue(sems[s].id), sems[s].waiters, gone);
    }
    SameSemsFound(sems, sems');
  }

  /** In agreeing stores, a task is due within n ticks exactly when it waits for n or fewer. */
  lemma DueExact(ts: seq<Tcb>, d: seq<Entry>, n: nat, i: nat)
    requires DelayFits(ts, d) && UniqueIds(ts) && PositiveIds(ts)
    requires i < |ts| && Used(ts[i])
    ensures ts[i].id in Due(d, n) <==> Timed(ts[i]) && ts[i].remaining <= n
  {
  }

  lemma DelayAges(ts: seq<Tcb>, d: seq<Entry>, n: nat)
    requires DelayFits(ts, d) && UniqueIds(ts) && PositiveIds(ts)
    ensures DelayFits(AgedTasks(ts, n), Aged(d, n))
  {
    var ts', d' := AgedTasks(ts, n), Aged(d, n);
    forall i | 0 <= i < |ts|
      ensures Timed(ts'[i]) <==> Timed(ts[i]) && ts[i].id !in Due(d, n)
    {
      if Timed(ts[i]) {
        DueExact(ts, d, n, i);
      }
    }
    ExactlyLeave(ts, ts', TickQueue, Ids(d), Due(d, n));
    AgedIds(d, n);
    forall e | 0 <= e < |d'|
      ensures RemainingFits(ts', d'[e])
    {
      var x := d'[e];
      assert x in d';
      AgedFrom(d, n, x);
      var j :| 0 <= j < |d| && d[j] == Entry(x.id, x.remaining + n);
      assert RemainingFits(ts, d[j]);
      FindSame(ts, ts', x.id);
      assert Belongs(TickQueue, ts[Find(ts, Ids(d)[j])]);
    }
  }
}
