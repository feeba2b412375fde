/** Every step keeps the stores in agreement. */
module Preservation {
  import opened KernelTypes
  import opened Lists
  import opened TaskModel
  import opened KernelSpec
  import opened Coherence
  import opened Agreement

  // ----- taking the invariant apart and putting it together ------------

  lemma Parts(k: Kernel)
    requires Coherent(k)
    ensures TableFits(k.tasks, k.nextTaskId) && SemsFit(k.sems, k.nextSemId)
    ensures DelayFits(k.tasks, k.delay) && WaitersFit(k.tasks, k.sems)
    ensures CurrentFits(k.tasks, k.current) && PendingFits(k.tasks, k.pending)
  {
    assert Fits(k, TaskStore) && Fits(k, SemStore) && Fits(k, DelayStore);
    assert Fits(k, WaitStore) && Fits(k, CurrentStore) && Fits(k, PendingStore);
  }

  lemma FromParts(k: Kernel)
    requires TableFits(k.tasks, k.nextTaskId) && SemsFit(k.sems, k.nextSemId)
    requires DelayFits(k.tasks, k.delay) && WaitersFit(k.tasks, k.sems)
    requires CurrentFits(k.tasks, k.current) && PendingFits(k.tasks, k.pending)
    ensures Coherent(k)
  {
  }

  lemma TaskAt(k: Kernel, i: int)
    requires Coherent(k) && IsSlot(k, i)
    ensures WellFormed(k.tasks[i])
  {
    assert Fits(k, TaskStore);
  }

  lemma SemAt(k: Kernel, s: int)
    requires Coherent(k) && 0 <= s < |k.sems|
    ensures SemFits(k.sems[s], k.nextSemId)
  {
    assert Fits(k, SemStore);
  }

  lemma Identities(k: Kernel)
    requires Coherent(k)
    ensures UniqueIds(k.tasks) && PositiveIds(k.tasks)
  {
    assert Fits(k, TaskStore);
  }

  lemma UsedPrefix(k: Kernel, i: nat, j: nat)
    requires Coherent(k) && i < j < |k.tasks| && Used(k.tasks[j])
    ensures Used(k.tasks[i])
  {
    hide SemsFit;
    hide DelayFits;
    hide WaitersFit;
    hide PendingFits;
    hide WellFormed;
    Parts(k);
  }

  lemma IdBelowNext(k: Kernel, i: nat)
    requires Coherent(k) && i < |k.tasks| && Used(k.tasks[i])
    ensures k.tasks[i].id < k.nextTaskId
  {
    hide SemsFit;
    hide DelayFits;
    hide WaitersFit;
    hide PendingFits;
    hide WellFormed;
    Parts(k);
  }

  lemma SemIds(k: Kernel, s: int)
    requires Coherent(k) && 0 <= s < |k.sems| && k.sems[s].id > 0
    ensures forall r :: 0 <= r < |k.sems| && r != s ==> k.sems[r].id != k.sems[s].id
  {
    assert Fits(k, SemStore);
  }

  lemma CurrentAt(k: Kernel)
    requires Coherent(k)
    ensures CurrentFits(k.tasks, k.current)
  {
    assert Fits(k, CurrentStore);
  }

  /** Tasks change, but their ids, priorities and stacks do not. */
  lemma SameTasksFit(ts: seq<Tcb>, ts': seq<Tcb>, next: int, p: Pending)
    requires TableFits(ts, next) && PendingFits(ts, p) && |ts'| == |ts|
    requires forall i :: 0 <= i < |ts| ==> WellFormed(ts'[i]) && SameTask(ts[i], ts'[i])
    ensures TableFits(ts', next) && PendingFits(ts', p)
    ensures SameIds(ts, ts') && UniqueIds(ts) && PositiveIds(ts)
  {
  }

  // ----- steps that leave waiting tasks alone --------------------------

  lemma QuietTwice(a: Kernel, b: Kernel, c: Kernel)
    requires Quiet(a, b) && Quiet(b, c)
    ensures Quiet(a, c)
  {
  }

  lemma QuietKeeps(k: Kernel, k': Kernel)
    requires Coherent(k) && Quiet(k, k')
    requires forall i :: 0 <= i < |k'.tasks| ==> WellFormed(k'.tasks[i])
    requires CurrentFits(k'.tasks, k'.current)
    ensures Coherent(k')
  {
    hide TableFits;
    hide DelayFits;
    hide WaitersFit;
    hide PendingFits;
    hide CurrentFits;
    hide SemsFit;
    Parts(k);
    SameTasksFit(k.tasks, k'.tasks, k.nextTaskId, k.pending);
    forall i | 0 <= i < |k.tasks|
      ensures SameQueues(k.tasks[i], k'.tasks[i])
    {
      TaskAt(k, i);
    }
    QueuesQuiet(k.tasks, k'.tasks, k.delay, k.sems);
    FromParts(k');
  }

  // ----- switching ------------------------------------------------------

  /** One task that does not wait changes its state or context. */
  lemma RewriteKeeps(k: Kernel, i: int, t: Tcb)
    requires Coherent(k) && IsSlot(k, i) && Used(k.tasks[i]) && k.tasks[i].state != Waiting
    requires WellFormed(t) && SameTask(k.tasks[i], t) && t.state != Waiting
    requires t.state == Running ==> i == k.current
    ensures Quiet(k, Put(k, i, t)) && Coherent(Put(k, i, t))
  {
    var k' := Put(k, i, t);
    forall j | 0 <= j < |k'.tasks|
      ensures WellFormed(k'.tasks[j])
    {
      TaskAt(k, j);
    }
    CurrentAt(k);
    QuietKeeps(k, k');
  }

  lemma ReleaseKeeps(k: Kernel, from: int)
    requires Coherent(k) && IsSlot(k, from) && from == k.current
    ensures Quiet(k, Released(k, from)) && Coherent(Released(k, from))
    ensures NobodyRuns(Released(k, from))
  {
    TaskAt(k, from);
    CurrentAt(k);
    if k.tasks[from].state == Running {
      RewriteKeeps(k, from, Cleared(k.tasks[from], Ready));
    }
  }

  lemma SelectKeeps(k: Kernel, to: int)
    requires Coherent(k) && NobodyRuns(k) && IsSlot(k, to) && Used(k.tasks[to])
    ensures Quiet(k, k.(current := to)) && Coherent(k.(current := to))
  {
    Parts(k);
    FromParts(k.(current := to));
  }

  lemma PromoteKeeps(k: Kernel, to: int)
    requires Coherent(k) && NobodyRuns(k) && IsSlot(k, to) && k.tasks[to].state == Ready
    ensures Quiet(k, Promoted(k, to)) && Coherent(Promoted(k, to))
  {
    var k1 := k.(current := to);
    SelectKeeps(k, to);
    TaskAt(k, to);
    RewriteKeeps(k1, to, Cleared(k.tasks[to], Running));
    QuietTwice(k, k1, Put(k1, to, Cleared(k.tasks[to], Running)));
    assert Promoted(k, to) == Put(k1, to, Cleared(k.tasks[to], Running));
  }

  lemma FinishKeeps(k: Kernel, i: int, point: ResumePoint)
    requires Coherent(k) && IsSlot(k, i) && (k.tasks[i].state == Ready || k.tasks[i].state == Running)
    ensures Quiet(k, Put(k, i, Finished(k.tasks[i], point)))
    ensures Coherent(Put(k, i, Finished(k.tasks[i], point)))
  {
    TaskAt(k, i);
    RewriteKeeps(k, i, Finished(k.tasks[i], point));
  }

  lemma PrepareKeeps(k: Kernel, i: int)
    requires Coherent(k) && IsSlot(k, i) && k.tasks[i].state == Ready
    ensures Quiet(k, Put(k, i, Prepared(k.tasks[i], i)))
    ensures Coherent(Put(k, i, Prepared(k.tasks[i], i)))
  {
    TaskAt(k, i);
    InitialRspIsNotZero(StackTop(k.tasks[i]));
    RewriteKeeps(k, i, Prepared(k.tasks[i], i));
  }

  lemma InitialRspIsNotZero(top: Address)
    ensures InitialRsp(top) != 0
  {
    assert top - top % 16 == 16 * (top / 16);
  }

  lemma RunKeeps(k: Kernel, from: int, to: int)
    requires Coherent(k) && IsSlot(k, from) && IsSlot(k, to) && from != to
    requires k.tasks[from].state == Ready || k.tasks[from].state == Waiting
    requires k.tasks[to].state == Running
    ensures Quiet(k, RunSwitched(k, from, to).0) && Coherent(RunSwitched(k, from, to).0)
  {
    hide StackOk;
    hide Finished;
    hide Prepared;
    var k' := RunSwitched(k, from, to).0;
    if k.tasks[from].state == Waiting {
      if StackOk(k.tasks[to]) {
        FinishKeeps(k, to, AfterBootSwitch);
        assert k' == Put(k, to, Finished(k.tasks[to], AfterBootSwitch));
      } else {
        assert k' == k;
      }
    } else if !StackOk(k.tasks[from]) {
      assert k' == k;
    } else if !StackOk(k.tasks[to]) {
      PrepareKeeps(k, from);
      assert k' == Put(k, from, Prepared(k.tasks[from], from));
    } else {
      var k1 := Put(k, from, Finished(k.tasks[from], AfterPairSwitch));
      FinishKeeps(k, from, AfterPairSwitch);
      FinishKeeps(k1, to, AfterBootSwitch);
      QuietTwice(k, k1, Put(k1, to, Finished(k1.tasks[to], AfterBootSwitch)));
      assert k' == Put(k1, to, Finished(k1.tasks[to], AfterBootSwitch));
    }
  }

  /** Whatever the dispatcher answers, only states and contexts of tasks that do not
      wait can have changed, and at most the current task is RUNNING. */
  lemma SwitchKeeps(k: Kernel, from: int, to: int)
    requires Coherent(k) && from == k.current
    ensures Quiet(k, SwitchTo(k, from, to).0) && Coherent(SwitchTo(k, from, to).0)
  {
    hide RunSwitched;
    if CanSwitch(k, from, to) {
      var k1 := Released(k, from);
      var k2 := Promoted(k1, to);
      ReleaseKeeps(k, from);
      PromoteKeeps(k1, to);
      RunKeeps(k2, from, to);
      QuietTwice(k, k1, k2);
      QuietTwice(k, k2, RunSwitched(k2, from, to).0);
    }
  }

  lemma GiveUpKeeps(k: Kernel)
    requires Coherent(k)
    ensures Quiet(k, GiveUp(k, k.current).0) && Coherent(GiveUp(k, k.current).0)
  {
    hide SwitchTo;
    SwitchKeeps(k, k.current, Next(k));
  }

  lemma CommitKeeps(k: Kernel, selected: int)
    requires Coherent(k) && Allowed(k, DoCommit(selected))
    ensures Quiet(k, Commit(k, selected).0) && Coherent(Commit(k, selected).0)
  {
    if Commit(k, selected).1 == DISPATCHER_OK {
      PromoteKeeps(k, selected);
    }
  }

  lemma YieldKeeps(k: Kernel)
    requires Coherent(k)
    ensures Quiet(k, YieldTsk(k).0) && Coherent(YieldTsk(k).0)
  {
    hide SwitchTo;
    if IsRunning(k, k.current) {
      var k1 := Released(k, k.current);
      var k2 := SwitchTo(k1, k1.current, Next(k1)).0;
      ReleaseKeeps(k, k.current);
      SwitchKeeps(k1, k1.current, Next(k1));
      QuietTwice(k, k1, k2);
    }
  }

  lemma StartKeeps(k: Kernel, i: int)
    requires Coherent(k) && IsSlot(k, i) && k.tasks[i].state == Dormant
    ensures Coherent(Put(k, i, Cleared(k.tasks[i], Ready)))
  {
    TaskAt(k, i);
    RewriteKeeps(k, i, Cleared(k.tasks[i], Ready));
  }

  // ----- requests -------------------------------------------------------

  lemma RequestKeeps(k: Kernel, p: Pending)
    requires Coherent(k) && PendingFits(k.tasks, p)
    ensures Coherent(k.(pending := p))
  {
    hide TableFits;
    hide SemsFit;
    hide DelayFits;
    hide WaitersFit;
    hide CurrentFits;
    Parts(k);
    FromParts(k.(pending := p));
  }

  lemma ContendKeeps(k: Kernel, reason: Reason, to: int)
    requires Coherent(k) && IsSlot(k, to) && Used(k.tasks[to])
    requires reason == TaskStart || reason == TaskWakeup
    ensures Coherent(Contend(k, reason, to))
  {
    hide TableFits;
    hide SemsFit;
    hide DelayFits;
    hide WaitersFit;
    Parts(k);
    RequestKeeps(k, Contend(k, reason, to).pending);
  }

  lemma EvaluateKeeps(k: Kernel)
    requires Coherent(k)
    ensures Coherent(Evaluate(k))
  {
    hide TableFits;
    hide SemsFit;
    hide DelayFits;
    hide WaitersFit;
    Parts(k);
    RequestKeeps(k, Evaluate(k).pending);
  }

  lemma ConsumeKeeps(k: Kernel)
    requires Coherent(k)
    ensures Coherent(Consume(k).0)
  {
    hide SwitchTo;
    var from, to := Find(k.tasks, k.pending.fromId), Find(k.tasks, k.pending.toId);
    CurrentAt(k);
    if k.pending.requested && IsRunning(k, from) {
      SwitchKeeps(k, from, to);
      ForgetKeeps(SwitchTo(k, from, to).0);
    }
    ForgetKeeps(k);
  }

  lemma ForgetKeeps(k: Kernel)
    requires Coherent(k)
    ensures Coherent(k.(pending := NO_PENDING))
  {
    RequestKeeps(k, NO_PENDING);
  }

  // ----- registration ---------------------------------------------------

  /** A new task that does not wait fits into the first free slot. */
  lemma AddKeeps(k: Kernel, t: Tcb, next: int)
    requires Coherent(k) && FreeSlot(k.tasks) >= 0
    requires WellFormed(t) && (t.state == Ready || t.state == Dormant)
    requires Find(k.tasks, t.id) < 0 && k.nextTaskId <= next <= ID_MAX && t.id < next
    ensures Coherent(Put(k, FreeSlot(k.tasks), t).(nextTaskId := next))
  {
    hide TableFits;
    hide DelayFits;
    hide WaitersFit;
    var i := FreeSlot(k.tasks);
    Parts(k);
    AddFitsTable(k.tasks, k.nextTaskId, i, t, next);
    AddFitsQueues(k, i, t);
    FromParts(Put(k, i, t).(nextTaskId := next));
  }

  lemma AddFitsTable(ts: seq<Tcb>, last: int, i: nat, t: Tcb, next: int)
    requires TableFits(ts, last) && FreeSlot(ts) == i && WellFormed(t) && Used(t)
    requires Find(ts, t.id) < 0 && last <= next <= ID_MAX && t.id < next
    ensures TableFits(ts[i := t], next)
    ensures forall j :: 0 <= j < |ts| && Used(ts[j]) ==> ts[j].id != t.id
  {
    assert forall j :: 0 <= j < |ts| ==> !Holds(ts[j], t.id);
  }

  lemma AddFitsQueues(k: Kernel, i: nat, t: Tcb)
    requires DelayFits(k.tasks, k.delay) && WaitersFit(k.tasks, k.sems)
    requires i < |k.tasks| && !Used(k.tasks[i]) && t.state != Waiting && t.waitSem == 0
    requires forall j :: 0 <= j < |k.tasks| && Used(k.tasks[j]) ==> k.tasks[j].id != t.id
    ensures DelayFits(k.tasks[i := t], k.delay) && WaitersFit(k.tasks[i := t], k.sems)
  {
    var ts := k.tasks[i := t];
    ExactlyAdd(k.tasks, i, t, TickQueue, Ids(k.delay));
    forall e | 0 <= e < |k.delay|
      ensures RemainingFits(ts, k.delay[e])
    {
      var x := Ids(k.delay)[e];
      var j, was := Find(ts, x), Find(k.tasks, x);
      assert RemainingFits(k.tasks, k.delay[e]) && Holds(ts[was], x);
      assert Belongs(TickQueue, ts[j]) && Holds(k.tasks[j], x);
    }
    forall s | 0 <= s < |k.sems| && k.sems[s].id > 0
      ensures Exactly(ts, SemQueue(k.sems[s].id), k.sems[s].waiters)
    {
      ExactlyAdd(k.tasks, i, t, SemQueue(k.sems[s].id), k.sems[s].waiters);
    }
  }

  lemma NextIsFree(k: Kernel)
    requires Coherent(k)
    ensures 1 <= k.nextTaskId <= ID_MAX && Find(k.tasks, k.nextTaskId) < 0
  {
    Parts(k);
  }

  lemma RegisterKeeps(k: Kernel, p: TaskParam)
    requires Coherent(k)
    ensures Coherent(TaskRegister(k, p).0)
  {
    NextIsFree(k);
    if TaskRegister(k, p).1 > 0 {
      AddKeeps(k, NewTcb(p, k.nextTaskId, Ready), k.nextTaskId + 1);
    }
  }

  lemma CreTskKeeps(k: Kernel, id: int, p: Option<TaskParam>)
    requires Coherent(k) && Defined(k, DoCreTsk(id, p))
    ensures Coherent(CreTsk(k, id, p).0)
  {
    NextIsFree(k);
    if CreTsk(k, id, p).1 == E_OK {
      AddKeeps(k, NewTcb(p.value, id, Dormant), if k.nextTaskId <= id then id + 1 else k.nextTaskId);
    }
  }

  lemma NewSemFits(sems: seq<Sem>, next: int, s: nat, sem: Sem)
    requires SemsFit(sems, next) && FreeSem(sems) == s && next < ID_MAX
    requires sem.id == next && 0 <= sem.count <= sem.max && 0 < sem.max && sem.waiters == []
    ensures SemsFit(sems[s := sem], next + 1)
  {
  }

  lemma NewSemFitsWaiters(k: Kernel, s: nat, sem: Sem)
    requires WaitersFit(k.tasks, k.sems) && SemsFit(k.sems, k.nextSemId) && FreeSem(k.sems) == s
    requires sem.id == k.nextSemId && sem.waiters == []
    ensures WaitersFit(k.tasks, k.sems[s := sem])
  {
    var sems := k.sems[s := sem];
    forall i | 0 <= i < |k.tasks| && k.tasks[i].waitSem > 0
      ensures FindSem(sems, k.tasks[i].waitSem) >= 0 && k.tasks[i].waitSem < sem.id
    {
      var r := FindSem(k.sems, k.tasks[i].waitSem);
      assert SemFits(k.sems[r], k.nextSemId) && sems[r].id == k.tasks[i].waitSem;
    }
  }

  lemma SemCreateKeeps(k: Kernel, name: Address, initial: int, max: int)
    requires Coherent(k)
    ensures Coherent(SemCreate(k, name, initial, max).0)
  {
    hide SemsFit;
    hide WaitersFit;
    Parts(k);
    var k' := SemCreate(k, name, initial, max).0;
    if k' != k {
      var s, sem := FreeSem(k.sems), Sem(k.nextSemId, initial, max, []);
      NewSemFits(k.sems, k.nextSemId, s, sem);
      NewSemFitsWaiters(k, s, sem);
      assert k' == k.(sems := k.sems[s := sem], nextSemId := k.nextSemId + 1);
      FromParts(k');
    }
  }

  lemma CountFits(ts: seq<Tcb>, sems: seq<Sem>, next: int, s: nat, count: int)
    requires SemsFit(sems, next) && WaitersFit(ts, sems) && s < |sems| && sems[s].id > 0
    requires 0 <= count <= sems[s].max && (sems[s].waiters != [] ==> count == 0)
    ensures
      var sems' := sems[s := sems[s].(count := count)];
      SemsFit(sems', next) && WaitersFit(ts, sems')
  {
    SameSemsFound(sems, sems[s := sems[s].(count := count)]);
  }

  lemma SetCountKeeps(k: Kernel, s: int, count: int)
    requires Coherent(k) && 0 <= s < |k.sems| && k.sems[s].id > 0
    requires 0 <= count <= k.sems[s].max && (k.sems[s].waiters != [] ==> count == 0)
    ensures Coherent(SetCount(k, s, count))
  {
    Parts(k);
    CountFits(k.tasks, k.sems, k.nextSemId, s, count);
    FromParts(SetCount(k, s, count));
  }

  // ----- waiting and waking --------------------------------------------

  /** One registered task changes; it does not start to run. */
  lemma ChangeFits(k: Kernel, i: int, t: Tcb)
    requires Coherent(k) && IsSlot(k, i) && WellFormed(t) && SameTask(k.tasks[i], t)
    requires t.state != Running
    ensures TableFits(k.tasks[i := t], k.nextTaskId)
    ensures CurrentFits(k.tasks[i := t], k.current)
    ensures PendingFits(k.tasks[i := t], k.pending)
    ensures SameIds(k.tasks, k.tasks[i := t]) && UniqueIds(k.tasks) && PositiveIds(k.tasks)
  {
    hide TableFits;
    hide PendingFits;
    Parts(k);
    forall j | 0 <= j < |k.tasks|
      ensures WellFormed(k.tasks[j])
    {
      TaskAt(k, j);
    }
    SameTasksFit(k.tasks, k.tasks[i := t], k.nextTaskId, k.pending);
  }

  /** Going to sleep and being woken from it: no queue is involved. */
  lemma BystanderKeeps(k: Kernel, i: int, t: Tcb)
    requires Coherent(k) && IsSlot(k, i) && WellFormed(t) && SameTask(k.tasks[i], t)
    requires t.state != Running && SameQueues(k.tasks[i], t)
    ensures Coherent(Put(k, i, t))
  {
    hide TableFits;
    hide SemsFit;
    hide DelayFits;
    hide WaitersFit;
    hide CurrentFits;
    hide PendingFits;
    Parts(k);
    ChangeFits(k, i, t);
    QueuesQuiet(k.tasks, k.tasks[i := t], k.delay, k.sems);
    FromParts(Put(k, i, t));
  }

  /** The RUNNING caller may start to wait, for whatever reason. */
  lemma CallerWaits(k: Kernel, m: Move)
    requires Coherent(k) && IsRunning(k, k.current) && !BadArgument(1, m)
    requires m.WaitOnSem? || m.WaitOnDelay? || m.WaitOnSemTimeout? || m.WaitOnSleep?
    ensures
      var t := Moved(k.tasks[k.current], m);
      var ts := k.tasks[k.current := t];
      && TableFits(ts, k.nextTaskId) && CurrentFits(ts, k.current) && PendingFits(ts, k.pending)
      && SameIds(k.tasks, ts) && UniqueIds(k.tasks) && PositiveIds(k.tasks)
  {
    var t := Moved(k.tasks[k.current], m);
    TaskAt(k, k.current);
    ChangeFits(k, k.current, t);
  }

  lemma DelayedKeeps(k: Kernel, n: nat)
    requires Coherent(k) && IsRunning(k, k.current) && n > 0
    ensures Coherent(DelayedBy(k, n))
  {
    hide TableFits;
    hide SemsFit;
    hide DelayFits;
    hide WaitersFit;
    hide CurrentFits;
    hide PendingFits;
    Parts(k);
    var t := Moved(k.tasks[k.current], WaitOnDelay(n));
    TaskAt(k, k.current);
    CallerWaits(k, WaitOnDelay(n));
    DelayJoin(k.tasks, k.current, t, k.delay);
    WaitersQuiet(k.tasks, k.tasks[k.current := t], k.sems);
    FromParts(DelayedBy(k, n));
  }

  lemma QueuedFitsSems(sems: seq<Sem>, next: int, s: nat, id: int)
    requires SemsFit(sems, next) && s < |sems| && sems[s].id > 0 && sems[s].count == 0
    ensures SemsFit(sems[s := sems[s].(waiters := sems[s].waiters + [id])], next)
  {
  }

  lemma QueuedFitsDelay(k: Kernel, t: Tcb, n: nat)
    requires Coherent(k) && IsRunning(k, k.current) && t.id == k.tasks[k.current].id && Used(t)
    requires t.remaining == n && (n > 0 <==> Timed(t))
    ensures DelayFits(k.tasks[k.current := t], if n == 0 then k.delay else k.delay + [Entry(t.id, n)])
  {
    hide TableFits;
    hide SemsFit;
    hide DelayFits;
    hide WaitersFit;
    hide CurrentFits;
    hide PendingFits;
    Parts(k);
    Identities(k);
    if n == 0 {
      DelayQuiet(k.tasks, k.tasks[k.current := t], k.delay);
    } else {
      DelayJoin(k.tasks, k.current, t, k.delay);
    }
  }

  lemma QueuedFitsWaiters(k: Kernel, s: int, t: Tcb)
    requires Coherent(k) && IsRunning(k, k.current) && t.id == k.tasks[k.current].id
    requires 0 <= s < |k.sems| && k.sems[s].id > 0 && WaitsOn(t, k.sems[s].id)
    ensures WaitersFit(k.tasks[k.current := t],
                       k.sems[s := k.sems[s].(waiters := k.sems[s].waiters + [t.id])])
  {
    hide TableFits;
    hide SemsFit;
    hide DelayFits;
    hide WaitersFit;
    Parts(k);
    Identities(k);
    SemIds(k, s);
    WaitersJoin(k.tasks, k.current, t, k.sems, s);
  }

  lemma QueuedKeeps(k: Kernel, s: int, n: nat)
    requires Coherent(k) && IsRunning(k, k.current)
    requires 0 <= s < |k.sems| && k.sems[s].id > 0 && k.sems[s].count == 0
    ensures Coherent(QueuedOn(k, s, n))
  {
    hide TableFits;
    hide SemsFit;
    hide DelayFits;
    hide WaitersFit;
    hide CurrentFits;
    hide PendingFits;
    Parts(k);
    var id := k.sems[s].id;
    var m := if n == 0 then WaitOnSem(id) else WaitOnSemTimeout(id, n);
    var t := Moved(k.tasks[k.current], m);
    CallerWaits(k, m);
    QueuedFitsDelay(k, t, n);
    QueuedFitsSems(k.sems, k.nextSemId, s, t.id);
    QueuedFitsWaiters(k, s, t);
    FromParts(QueuedOn(k, s, n));
  }

  lemma WaitersAt(k: Kernel, s: int)
    requires Coherent(k) && 0 <= s < |k.sems| && k.sems[s].id > 0
    ensures Exactly(k.tasks, SemQueue(k.sems[s].id), k.sems[s].waiters)
  {
    assert Fits(k, WaitStore);
  }

  /** In agreeing stores the first waiter is registered, waits on this semaphore, and is in
      the delay queue if it has a timeout; so nothing goes wrong when it is woken. */
  lemma FirstWaiter(k: Kernel, s: int)
    requires Coherent(k) && 0 <= s < |k.sems| && |k.sems[s].waiters| > 0
    ensures
      var i := Find(k.tasks, k.sems[s].waiters[0]);
      && i >= 0 && WaitsOn(k.tasks[i], k.sems[s].id) && k.sems[s].id > 0
      && PassOn(k, s) == (HandedOver(k, s, i), E_OK)
  {
    SemAt(k, s);
    WaitersAt(k, s);
    Parts(k);
    var i := Find(k.tasks, k.sems[s].waiters[0]);
    assert Belongs(TickQueue, k.tasks[i]) ==> k.tasks[i].id in Ids(k.delay);
  }

  /** Only the semaphore a task waits on has it in its queue. */
  lemma WaitsNowhereElse(k: Kernel, s: int, i: int)
    requires Coherent(k) && 0 <= s < |k.sems| && k.sems[s].id > 0 && IsSlot(k, i) && Used(k.tasks[i])
    ensures k.tasks[i].id in k.sems[s].waiters <==> WaitsOn(k.tasks[i], k.sems[s].id)
  {
    var id, q := k.tasks[i].id, k.sems[s].waiters;
    Identities(k);
    FindExact(k.tasks, i);
    WaitersAt(k, s);
    if id in q {
      var j :| 0 <= j < |q| && q[j] == id;
      assert Belongs(SemQueue(k.sems[s].id), k.tasks[Find(k.tasks, q[j])]);
    }
    if WaitsOn(k.tasks[i], k.sems[s].id) {
      assert Belongs(SemQueue(k.sems[s].id), k.tasks[i]);
    }
  }

  /** A task that does not wait is in no queue. */
  lemma NotWaitingNotQueued(k: Kernel, i: nat)
    requires Coherent(k) && i < |k.tasks| && Used(k.tasks[i]) && k.tasks[i].state != Waiting
    ensures k.tasks[i].id !in Ids(k.delay)
    ensures forall s :: 0 <= s < |k.sems| ==> k.tasks[i].id !in k.sems[s].waiters
  {
    Parts(k);
    Identities(k);
    FindExact(k.tasks, i);
    forall s | 0 <= s < |k.sems|
      ensures k.tasks[i].id !in k.sems[s].waiters
    {
      SemAt(k, s);
      if k.sems[s].id > 0 {
        WaitsNowhereElse(k, s, i);
      }
    }
    assert forall e :: 0 <= e < |k.delay| ==> Belongs(TickQueue, k.tasks[Find(k.tasks, Ids(k.delay)[e])]);
  }

  /** The pigeonhole argument: the queues hold distinct waiting tasks, the RUNNING caller is
      not one of them, so every queue has room for it and none has it already. */
  lemma CallerHasRoom(k: Kernel)
    requires Coherent(k) && IsRunning(k, k.current)
    ensures !DelayRefuses(k, k.tasks[k.current].id)
    ensures forall s :: 0 <= s < |k.sems| ==> |k.sems[s].waiters| < |k.tasks|
  {
    var c := k.current;
    Parts(k);
    NotWaitingNotQueued(k, c);
    ExactlyHasRoom(k.tasks, TickQueue, Ids(k.delay), c);
    forall s | 0 <= s < |k.sems|
      ensures |k.sems[s].waiters| < |k.tasks|
    {
      SemAt(k, s);
      if k.sems[s].id > 0 {
        WaitersAt(k, s);
        ExactlyHasRoom(k.tasks, SemQueue(k.sems[s].id), k.sems[s].waiters, c);
      }
    }
  }

  /** So the calls that block a RUNNING caller never fail before they give up the processor. */
  lemma BlockingSucceeds(k: Kernel)
    requires Coherent(k) && IsRunning(k, k.current)
    ensures forall s, n: nat :: 0 <= s < |k.sems| ==> Block(k, s, n) == GiveUp(QueuedOn(k, s, n), k.current)
    ensures forall n: Ticks :: n > 0 ==> DlyTsk(k, n) == GiveUp(DelayedBy(k, n), k.current)
  {
    hide GiveUp;
    hide QueuedOn;
    hide DelayedBy;
    hide DelayRefuses;
    CallerHasRoom(k);
  }

  /** Handing a token over drops the woken task from every semaphore queue. */
  lemma HandedOverDrops(k: Kernel, s: int, i: int)
    requires Coherent(k) && 0 <= s < |k.sems| && |k.sems[s].waiters| > 0
    requires i == Find(k.tasks, k.sems[s].waiters[0]) >= 0
    ensures HandedOver(k, s, i).sems == DroppedFrom(k.sems, {k.tasks[i].id})
  {
    var id, sems := k.tasks[i].id, k.sems;
    FirstWaiter(k, s);
    forall r | 0 <= r < |sems|
      ensures HandedOver(k, s, i).sems[r] == Dropped(sems[r], {id})
    {
      var q := sems[r].waiters;
      if r == s {
        WaitersAt(k, s);
        WithoutKeeps(q, id);
      } else {
        SemAt(k, r);
        if sems[r].id > 0 {
          SemIds(k, s);
          WaitsNowhereElse(k, r, i);
        }
        KeepAll(q, {id});
      }
    }
  }

  /** The delay queue after a task that waited on a semaphore was woken. */
  lemma WokenFitsDelay(k: Kernel, i: int)
    requires Coherent(k) && IsSlot(k, i) && OnSem(k.tasks[i])
    ensures
      var t := k.tasks[i];
      DelayFits(k.tasks[i := Cleared(t, Ready)],
                if t.reason == OnSemaphoreTimeout then WithoutEntry(k.delay, t.id) else k.delay)
  {
    hide TableFits;
    hide SemsFit;
    hide DelayFits;
    hide WaitersFit;
    hide CurrentFits;
    hide PendingFits;
    Parts(k);
    TaskAt(k, i);
    var t := Cleared(k.tasks[i], Ready);
    ChangeFits(k, i, t);
    if k.tasks[i].reason == OnSemaphoreTimeout {
      DelayLeave(k.tasks, i, t, k.delay);
    } else {
      DelayQuiet(k.tasks, k.tasks[i := t], k.delay);
    }
  }

  lemma WokenFitsWaiters(k: Kernel, i: int)
    requires Coherent(k) && IsSlot(k, i) && OnSem(k.tasks[i])
    ensures WaitersFit(k.tasks[i := Cleared(k.tasks[i], Ready)], DroppedFrom(k.sems, {k.tasks[i].id}))
  {
    hide TableFits;
    hide SemsFit;
    hide DelayFits;
    hide WaitersFit;
    hide CurrentFits;
    hide PendingFits;
    Parts(k);
    TaskAt(k, i);
    var t := Cleared(k.tasks[i], Ready);
    ChangeFits(k, i, t);
    assert forall j :: 0 <= j < |k.tasks| && j != i && Used(k.tasks[j]) ==> k.tasks[j].id != t.id;
    WaitersLeave(k.tasks, k.tasks[i := t], k.sems, {t.id});
  }

  lemma HandedOverKeeps(k: Kernel, s: int, i: int)
    requires Coherent(k) && 0 <= s < |k.sems| && |k.sems[s].waiters| > 0
    requires i == Find(k.tasks, k.sems[s].waiters[0]) >= 0
    ensures Coherent(HandedOver(k, s, i))
  {
    hide TableFits;
    hide SemsFit;
    hide DelayFits;
    hide WaitersFit;
    hide CurrentFits;
    hide PendingFits;
    Parts(k);
    FirstWaiter(k, s);
    TaskAt(k, i);
    ChangeFits(k, i, Cleared(k.tasks[i], Ready));
    WokenFitsWaiters(k, i);
    WokenFitsDelay(k, i);
    HandedOverDrops(k, s, i);
    DroppedFit(k, {k.tasks[i].id});
    FromParts(HandedOver(k, s, i));
  }

  lemma DroppedFit(k: Kernel, gone: set<int>)
    requires Coherent(k)
    ensures SemsFit(DroppedFrom(k.sems, gone), k.nextSemId)
  {
    assert Fits(k, SemStore);
  }

  lemma AgedFits(k: Kernel, n: nat)
    requires Coherent(k)
    ensures TableFits(AgedTasks(k.tasks, n), k.nextTaskId)
    ensures CurrentFits(AgedTasks(k.tasks, n), k.current)
    ensures PendingFits(AgedTasks(k.tasks, n), k.pending)
    ensures SameIds(k.tasks, AgedTasks(k.tasks, n)) && UniqueIds(k.tasks) && PositiveIds(k.tasks)
  {
    hide TableFits;
    hide PendingFits;
    Parts(k);
    var ts := AgedTasks(k.tasks, n);
    forall i | 0 <= i < |ts|
      ensures WellFormed(ts[i]) && SameTask(k.tasks[i], ts[i])
    {
      TaskAt(k, i);
    }
    SameTasksFit(k.tasks, ts, k.nextTaskId, k.pending);
  }

  lemma AgedFitsWaiters(k: Kernel, n: nat)
    requires Coherent(k)
    ensures WaitersFit(AgedTasks(k.tasks, n), DroppedFrom(k.sems, Due(k.delay, n)))
  {
    hide TableFits;
    hide SemsFit;
    hide DelayFits;
    hide WaitersFit;
    hide CurrentFits;
    hide PendingFits;
    Parts(k);
    var ts, gone := AgedTasks(k.tasks, n), Due(k.delay, n);
    AgedFits(k, n);
    forall i | 0 <= i < |k.tasks|
      ensures OnSem(ts[i]) <==> OnSem(k.tasks[i]) && k.tasks[i].id !in gone
    {
      if Used(k.tasks[i]) {
        DueExact(k.tasks, k.delay, n, i);
      }
    }
    WaitersLeave(k.tasks, ts, k.sems, gone);
  }

  lemma AdvanceKeeps(k: Kernel, n: nat)
    requires Coherent(k)
    ensures Coherent(Advance(k, n))
  {
    hide TableFits;
    hide SemsFit;
    hide DelayFits;
    hide WaitersFit;
    hide CurrentFits;
    hide PendingFits;
    Parts(k);
    AgedFits(k, n);
    DelayAges(k.tasks, k.delay, n);
    AgedFitsWaiters(k, n);
    DroppedFit(k, Due(k.delay, n));
    FromParts(Advance(k, n));
  }

  lemma TickKeeps(k: Kernel)
    requires Coherent(k)
    ensures Coherent(Tick(k))
  {
    AdvanceKeeps(k, 1);
  }

  lemma StaTskKeeps(k: Kernel, id: int)
    requires Coherent(k)
    ensures Coherent(StaTsk(k, id).0)
  {
    hide Contend;
    if StaTsk(k, id).1 == E_OK {
      var i := Find(k.tasks, id);
      StartKeeps(k, i);
      ContendKeeps(Put(k, i, Cleared(k.tasks[i], Ready)), TaskStart, i);
    }
  }

  lemma WupTskKeeps(k: Kernel, id: int)
    requires Coherent(k)
    ensures Coherent(WupTsk(k, id).0)
  {
    hide Contend;
    if WupTsk(k, id).1 == E_OK {
      var i := Find(k.tasks, id);
      TaskAt(k, i);
      BystanderKeeps(k, i, Cleared(k.tasks[i], Ready));
      ContendKeeps(Put(k, i, Cleared(k.tasks[i], Ready)), TaskWakeup, i);
    }
  }

  lemma SlpTskKeeps(k: Kernel)
    requires Coherent(k)
    ensures Coherent(SlpTsk(k).0)
  {
    hide GiveUp;
    CurrentAt(k);
    if IsRunning(k, k.current) {
      var t := Moved(k.tasks[k.current], WaitOnSleep);
      TaskAt(k, k.current);
      BystanderKeeps(k, k.current, t);
      GiveUpKeeps(Put(k, k.current, t));
    }
  }

  lemma DlyTskKeeps(k: Kernel, n: Ticks)
    requires Coherent(k)
    ensures Coherent(DlyTsk(k, n).0)
  {
    hide GiveUp;
    if n > 0 && IsRunning(k, k.current) {
      BlockingSucceeds(k);
      DelayedKeeps(k, n);
      GiveUpKeeps(DelayedBy(k, n));
    }
  }

  lemma TakeKeeps(k: Kernel, s: int)
    requires Coherent(k) && 0 <= s < |k.sems| && k.sems[s].id > 0 && k.sems[s].count > 0
    ensures Coherent(SetCount(k, s, k.sems[s].count - 1))
  {
    SemAt(k, s);
    SetCountKeeps(k, s, k.sems[s].count - 1);
  }

  lemma BlockKeeps(k: Kernel, s: int, n: nat)
    requires Coherent(k) && IsRunning(k, k.current)
    requires 0 <= s < |k.sems| && k.sems[s].id > 0 && k.sems[s].count <= 0
    ensures Coherent(Block(k, s, n).0)
  {
    hide GiveUp;
    hide Block;
    SemAt(k, s);
    BlockingSucceeds(k);
    QueuedKeeps(k, s, n);
    GiveUpKeeps(QueuedOn(k, s, n));
  }

  lemma WaitSemKeeps(k: Kernel, semId: int, n: nat)
    requires Coherent(k)
    ensures Coherent(WaitSem(k, semId, n).0)
  {
    hide Block;
    var s, k' := FindSem(k.sems, semId), WaitSem(k, semId, n).0;
    if IsRunning(k, k.current) && s >= 0 {
      if k.sems[s].count > 0 {
        TakeKeeps(k, s);
        assert k' == SetCount(k, s, k.sems[s].count - 1);
      } else {
        BlockKeeps(k, s, n);
        assert k' == Block(k, s, n).0;
      }
    }
  }

  lemma PolSemKeeps(k: Kernel, semId: int)
    requires Coherent(k)
    ensures Coherent(PolSem(k, semId).0)
  {
    var s, k' := FindSem(k.sems, semId), PolSem(k, semId).0;
    if IsRunning(k, k.current) && s >= 0 && k.sems[s].count > 0 {
      TakeKeeps(k, s);
      assert k' == SetCount(k, s, k.sems[s].count - 1);
    } else {
      assert k' == k;
    }
  }

  lemma HandOffKeeps(k: Kernel, s: int)
    requires Coherent(k) && 0 <= s < |k.sems| && |k.sems[s].waiters| > 0
    ensures
      var i := Find(k.tasks, k.sems[s].waiters[0]);
      && i >= 0 && PassOn(k, s) == (HandedOver(k, s, i), E_OK)
      && Coherent(Contend(HandedOver(k, s, i), TaskWakeup, i))
  {
    hide Contend;
    hide PassOn;
    var i := Find(k.tasks, k.sems[s].waiters[0]);
    FirstWaiter(k, s);
    HandedOverKeeps(k, s, i);
    ContendKeeps(HandedOver(k, s, i), TaskWakeup, i);
  }

  lemma SigSemKeeps(k: Kernel, semId: int)
    requires Coherent(k)
    ensures Coherent(SigSem(k, semId).0)
  {
    hide PassOn;
    var s, k' := FindSem(k.sems, semId), SigSem(k, semId).0;
    if s >= 0 {
      if |k.sems[s].waiters| > 0 {
        HandOffKeeps(k, s);
        var i := Find(k.tasks, k.sems[s].waiters[0]);
        assert k' == Contend(HandedOver(k, s, i), TaskWakeup, i);
      } else if k.sems[s].count < k.sems[s].max {
        SemAt(k, s);
        SetCountKeeps(k, s, k.sems[s].count + 1);
        assert k' == SetCount(k, s, k.sems[s].count + 1);
      }
    }
  }

  lemma TimerIrqKeeps(k: Kernel)
    requires Coherent(k)
    ensures Coherent(TimerIrq(k))
  {
    hide Evaluate;
    hide Consume;
    AdvanceKeeps(k, 1);
    EvaluateKeeps(Tick(k));
    ConsumeKeeps(Evaluate(Tick(k)));
  }

  // ----- every step, every run -----------------------------------------

  lemma StepKeeps(k: Kernel, st: Step)
    requires Coherent(k) && Allowed(k, st)
    ensures Coherent(Do(k, st).0)
  {
    match st
    case DoRegister(p) => RegisterKeeps(k, p);
    case DoCreTsk(id, p) => CreTskKeeps(k, id, p);
    case DoStaTsk(id) => StaTskKeeps(k, id);
    case DoSemCreate(name, initial, max) => SemCreateKeeps(k, name, initial, max);
    case DoCommit(slot) => CommitKeeps(k, slot);
    case DoYield => YieldKeeps(k);
    case DoWaiSem(sem) => WaitSemKeeps(k, sem, 0);
    case DoPolSem(sem) => PolSemKeeps(k, sem);
    case DoTwaiSem(sem, n) => WaitSemKeeps(k, sem, n);
    case DoSigSem(sem) => SigSemKeeps(k, sem);
    case DoDlyTsk(n) => DlyTskKeeps(k, n);
    case DoSlpTsk => SlpTskKeeps(k);
    case DoWupTsk(id) => WupTskKeeps(k, id);
    case DoTick => AdvanceKeeps(k, 1);
    case DoEvaluate => EvaluateKeeps(k);
    case DoConsume => ConsumeKeeps(k);
    case DoTimerIrq => TimerIrqKeeps(k);
  }

  lemma {:induction false} RunKeepsCoherence(k: Kernel, run: seq<Step>)
    requires Coherent(k) && AllowedRun(k, run)
    ensures Coherent(After(k, run))
    decreases |run|
  {
    if run == [] {
    } else {
      StepKeeps(k, run[0]);
      RunKeepsCoherence(Do(k, run[0]).0, run[1..]);
    }
  }

  /** Every state the kernel can reach after boot is coherent. */
  lemma ReachableIsCoherent(maxTasks: nat, maxSems: nat, run: seq<Step>)
    requires AllowedRun(Booted(maxTasks, maxSems), run)
    ensures Coherent(After(Booted(maxTasks, maxSems), run))
  {
    BootedIsCoherent(maxTasks, maxSems);
    RunKeepsCoherence(Booted(maxTasks, maxSems), run);
  }
}
