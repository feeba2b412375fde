/** What it means that the six stores agree. */
module Coherence {
  import opened KernelTypes
  import opened TaskModel
  import opened KernelSpec

  // ----- the invariant --------------------------------------------------

  /** The wait fields of one control block fit its state. */
  ghost predicate WaitFieldsFit(t: Tcb) {
    && (t.state != Waiting ==> t.reason == NoWait && t.waitSem == 0 && t.remaining == 0)
    && (t.state == Waiting ==> t.reason != NoWait)
    && (t.state == Waiting ==> (t.remaining > 0 <==> Timed(t)))
    && (t.state == Waiting ==> (t.waitSem > 0 <==> t.reason == OnSemaphore || t.reason == OnSemaphoreTimeout))
    && t.waitSem >= 0
  }

  ghost predicate WellFormed(t: Tcb) {
    && WaitFieldsFit(t)
    && (Used(t) ==> t.id > 0 && t.entry != 0 && t.stackBase != 0 && t.stackSize != 0)
    && (Used(t) && RspIsZero(t) ==> StackTop(t) == 0)
    && (!Used(t) ==> t == BLANK_TCB)
  }

  /** Used slots form a prefix; ids are positive, unique and below the next one. */
  ghost predicate TableFits(ts: seq<Tcb>, next: int) {
    && 1 <= next <= ID_MAX
    && UniqueIds(ts)
    && (forall i :: 0 <= i < |ts| ==> WellFormed(ts[i]))
    && (forall i :: 0 <= i < |ts| && Used(ts[i]) ==> ts[i].id < next)
    && (forall i, j :: 0 <= i < j < |ts| && Used(ts[j]) ==> Used(ts[i]))
  }

  ghost predicate SemFits(sem: Sem, next: int) {
    && 0 <= sem.id < next
    && 0 <= sem.count <= sem.max
    && (sem.waiters != [] ==> sem.count == 0)
    && (sem.id == 0 ==> sem == BLANK_SEM)
    && (sem.id > 0 ==> sem.max > 0)
  }

  ghost predicate SemsFit(sems: seq<Sem>, next: int) {
    && 1 <= next <= ID_MAX
    && (forall s :: 0 <= s < |sems| ==> SemFits(sems[s], next))
    && (forall s, r :: 0 <= s < r < |sems| && sems[r].id > 0 ==> 0 < sems[s].id != sems[r].id)
  }

  ghost predicate RemainingFits(ts: seq<Tcb>, e: Entry) {
    e.remaining > 0 && (Find(ts, e.id) >= 0 ==> ts[Find(ts, e.id)].remaining == e.remaining)
  }

  /** The delay queue agrees with the tasks that wait for ticks. */
  ghost predicate DelayFits(ts: seq<Tcb>, d: seq<Entry>) {
    && Exactly(ts, TickQueue, Ids(d))
    && (forall e :: 0 <= e < |d| ==> RemainingFits(ts, d[e]))
  }

  /** Every semaphore's queue agrees with the tasks that wait on it. */
  ghost predicate WaitersFit(ts: seq<Tcb>, sems: seq<Sem>) {
    && (forall s :: 0 <= s < |sems| && sems[s].id > 0 ==> Exactly(ts, SemQueue(sems[s].id), sems[s].waiters))
    && (forall i :: 0 <= i < |ts| && ts[i].waitSem > 0 ==> FindSem(sems, ts[i].waitSem) >= 0)
  }

  /** At most one task is RUNNING, and it is the dispatcher's current task. */
  ghost predicate CurrentFits(ts: seq<Tcb>, current: int) {
    && (current == NULL_SLOT || (0 <= current < |ts| && Used(ts[current])))
    && (forall i :: 0 <= i < |ts| && ts[i].state == Running ==> i == current)
  }

  /** A held request names two registered tasks, the target of higher priority. */
  ghost predicate PendingFits(ts: seq<Tcb>, p: Pending) {
    && (!p.requested ==> p == NO_PENDING)
    && (p.requested ==>
        && (p.source == FromIrq <==> p.reason == HigherPriorityReady)
        && (p.source == FromTask <==> p.reason == TaskStart || p.reason == TaskWakeup)
        && p.source != NoSource
        && 0 <= p.from < |ts| && 0 <= p.to < |ts| && p.from != p.to
        && Used(ts[p.from]) && Used(ts[p.to])
        && ts[p.from].id == p.fromId && ts[p.to].id == p.toId
        && ts[p.to].priority < ts[p.from].priority)
  }

  datatype Store = TaskStore | SemStore | DelayStore | WaitStore | CurrentStore | PendingStore

  /** One store agrees with the others. */
  ghost predicate Fits(k: Kernel, store: Store) {
    match store
    case TaskStore => TableFits(k.tasks, k.nextTaskId)
    case SemStore => SemsFit(k.sems, k.nextSemId)
    case DelayStore => DelayFits(k.tasks, k.delay)
    case WaitStore => WaitersFit(k.tasks, k.sems)
    case CurrentStore => CurrentFits(k.tasks, k.current)
    case PendingStore => PendingFits(k.tasks, k.pending)
  }

  /** Every store agrees with the others. */
  ghost predicate Coherent(k: Kernel) {
    forall store :: Fits(k, store)
  }

  lemma BootedIsCoherent(maxTasks: nat, maxSems: nat)
    ensures Coherent(Booted(maxTasks, maxSems))
  {
  }

  // ----- steps that leave waiting tasks alone --------------------------

  ghost predicate SameTask(t: Tcb, t': Tcb) {
    && t'.id == t.id && t'.entry == t.entry && t'.priority == t.priority
    && t'.stackBase == t.stackBase && t'.stackSize == t.stackSize
    && Used(t') == Used(t)
  }

  ghost predicate SameWait(t: Tcb, t': Tcb) {
    t.state == Waiting || t'.state == Waiting ==> t' == t
  }

  /** Only states and contexts of tasks that do not wait have changed, and current. */
  ghost predicate Quiet(k: Kernel, k': Kernel) {
    && k' == k.(tasks := k'.tasks, current := k'.current)
    && |k'.tasks| == |k.tasks|
    && (forall i :: 0 <= i < |k.tasks| ==> SameTask(k.tasks[i], k'.tasks[i]))
    && (forall i :: 0 <= i < |k.tasks| ==> SameWait(k.tasks[i], k'.tasks[i]))
  }
}
