/** The task table as a value: lookup by id, the legal state transitions,
    the scheduler's choice, and what it means for a queue of ids to hold exactly
    the tasks that wait in it. */
module TaskModel {
  import opened KernelTypes
  import opened Lists

  predicate Used(t: Tcb) {
    t.state != Unused
  }

  /** A task that a number of ticks will wake. */
  predicate Timed(t: Tcb) {
    t.state == Waiting && (t.reason == OnDelay || t.reason == OnSemaphoreTimeout)
  }

  /** A task that a signal on semaphore sem may wake. */
  predicate WaitsOn(t: Tcb, sem: int) {
    t.state == Waiting && (t.reason == OnSemaphore || t.reason == OnSemaphoreTimeout) && t.waitSem == sem
  }

  function Cleared(t: Tcb, state: TaskState): Tcb {
    t.(state := state, waitSem := 0, reason := NoWait, remaining := 0)
  }

  // ----- lookup ---------------------------------------------------------

  predicate Holds(t: Tcb, id: int) {
    Used(t) && t.id == id
  }

  /** The first slot from n on that holds the task id, or NULL_SLOT. */
  function FindFrom(ts: seq<Tcb>, id: int, n: nat): (i: int)
    requires n <= |ts|
    ensures i == NULL_SLOT || n <= i < |ts|
    ensures i >= 0 ==> Holds(ts[i], id)
    ensures forall j :: n <= j < (if i < 0 then |ts| else i) ==> !Holds(ts[j], id)
    decreases |ts| - n
  {
    if n == |ts| then NULL_SLOT
    else if Holds(ts[n], id) then n
    else FindFrom(ts, id, n + 1)
  }

  /** The slot of the registered task id, or NULL_SLOT; ids below 1 are never found. */
  function Find(ts: seq<Tcb>, id: int): (i: int)
    ensures i == NULL_SLOT || 0 <= i < |ts|
    ensures i >= 0 ==> id > 0 && Holds(ts[i], id)
    ensures i >= 0 ==> forall j :: 0 <= j < i ==> !Holds(ts[j], id)
    ensures i < 0 && id > 0 ==> forall j :: 0 <= j < |ts| ==> !Holds(ts[j], id)
  {
    if id <= 0 then NULL_SLOT else FindFrom(ts, id, 0)
  }

  /** The first slot nobody uses, from n on. */
  function FreeSlotFrom(ts: seq<Tcb>, n: nat): (i: int)
    requires n <= |ts|
    ensures i == NULL_SLOT || n <= i < |ts|
    ensures i >= 0 ==> !Used(ts[i])
    ensures forall j :: n <= j < (if i < 0 then |ts| else i) ==> Used(ts[j])
    decreases |ts| - n
  {
    if n == |ts| then NULL_SLOT
    else if !Used(ts[n]) then n
    else FreeSlotFrom(ts, n + 1)
  }

  function FreeSlot(ts: seq<Tcb>): (i: int)
    ensures i == NULL_SLOT || 0 <= i < |ts|
    ensures i >= 0 ==> !Used(ts[i])
    ensures forall j :: 0 <= j < (if i < 0 then |ts| else i) ==> Used(ts[j])
  {
    FreeSlotFrom(ts, 0)
  }

  ghost predicate UniqueIds(ts: seq<Tcb>) {
    forall i, j :: 0 <= i < j < |ts| && Used(ts[i]) && Used(ts[j]) ==> ts[i].id != ts[j].id
  }

  /** With unique ids, lookup by id gives back the slot it came from. */
  lemma FindExact(ts: seq<Tcb>, i: int)
    requires UniqueIds(ts) && 0 <= i < |ts| && Used(ts[i]) && ts[i].id > 0
    ensures Find(ts, ts[i].id) == i
  {
  }

  /** Same slots in use, by the same ids. */
  ghost predicate SameIds(ts: seq<Tcb>, ts': seq<Tcb>) {
    && |ts| == |ts'|
    && forall i :: 0 <= i < |ts| ==> Used(ts'[i]) == Used(ts[i]) && ts'[i].id == ts[i].id
  }

  lemma FindSame(ts: seq<Tcb>, ts': seq<Tcb>, id: int)
    requires SameIds(ts, ts')
    ensures Find(ts', id) == Find(ts, id)
  {
  }

  // ----- transitions ----------------------------------------------------

  /** The state changes task.c performs, one per function. */
  datatype Move =
    | MarkRunning | MarkReady | StartDormant | MarkDormant
    | WaitOnSem(sem: int) | WaitOnDelay(delay: nat) | WaitOnSemTimeout(sem: int, timeout: nat) | WaitOnSleep
    | WakeOnSem(sem: int) | WakeOnDelay | WakeOnSemTimeout(sem: int) | WakeOnSleep

  predicate BadArgument(id: int, m: Move) {
    || id <= 0
    || ((m.WaitOnSem? || m.WaitOnSemTimeout? || m.WakeOnSem? || m.WakeOnSemTimeout?) && m.sem <= 0)
    || (m.WaitOnDelay? && m.delay == 0)
    || (m.WaitOnSemTimeout? && m.timeout == 0)
  }

  predicate Permits(t: Tcb, m: Move) {
    match m
    case MarkRunning => t.state == Ready
    case MarkReady => t.state == Running
    case StartDormant => t.state == Dormant
    case MarkDormant => t.state == Running || t.state == Ready
    case WaitOnSem(_) => t.state == Running
    case WaitOnDelay(_) => t.state == Running
    case WaitOnSemTimeout(_, _) => t.state == Running
    case WaitOnSleep => t.state == Running
    case WakeOnSem(sem) => WaitsOn(t, sem)
    case WakeOnDelay => t.state == Waiting && t.reason == OnDelay
    case WakeOnSemTimeout(sem) => WaitsOn(t, sem) && t.reason == OnSemaphoreTimeout
    case WakeOnSleep => t.state == Waiting && t.reason == OnSleep
  }

  function Moved(t: Tcb, m: Move): Tcb {
    match m
    case MarkRunning => Cleared(t, Running)
    case MarkDormant => Cleared(t, Dormant)
    case WaitOnSem(sem) => t.(state := Waiting, waitSem := sem, reason := OnSemaphore, remaining := 0)
    case WaitOnDelay(n) => t.(state := Waiting, waitSem := 0, reason := OnDelay, remaining := n)
    case WaitOnSemTimeout(sem, n) =>
      t.(state := Waiting, waitSem := sem, reason := OnSemaphoreTimeout, remaining := n)
    case WaitOnSleep => t.(state := Waiting, waitSem := 0, reason := OnSleep, remaining := 0)
    case _ => Cleared(t, Ready)
  }

  /** What every transition function of task.c returns. */
  function MoveResult(ts: seq<Tcb>, id: int, m: Move): int {
    if BadArgument(id, m) then TASK_ERR_INVAL
    else if Find(ts, id) < 0 then TASK_ERR_NOT_FOUND
    else if !Permits(ts[Find(ts, id)], m) then TASK_ERR_BAD_STATE
    else 0
  }

  /** The table afterwards: a refused transition changes nothing. */
  function AfterMove(ts: seq<Tcb>, id: int, m: Move): seq<Tcb> {
    if MoveResult(ts, id, m) != 0 then ts
    else ts[Find(ts, id) := Moved(ts[Find(ts, id)], m)]
  }

  // ----- scheduler ------------------------------------------------------

  /** The READY task scheduler_select_next picks among the first n slots:
      the smallest priority number, the earliest slot among equals. */
  function Best(ts: seq<Tcb>, n: nat): (b: int)
    requires n <= |ts|
    ensures b == NULL_SLOT || (0 <= b < n && ts[b].state == Ready)
    ensures b < 0 ==> forall j :: 0 <= j < n ==> ts[j].state != Ready
    ensures b >= 0 ==> forall j :: 0 <= j < n && ts[j].state == Ready ==> ts[b].priority <= ts[j].priority
    ensures b >= 0 ==> forall j :: 0 <= j < b && ts[j].state == Ready ==> ts[b].priority < ts[j].priority
  {
    if n == 0 then NULL_SLOT
    else
      var b := Best(ts, n - 1);
      if ts[n - 1].state == Ready && (b < 0 || ts[n - 1].priority < ts[b].priority) then n - 1 else b
  }

  /** A task that would take the processor from u. */
  predicate Outranks(t: Tcb, u: Tcb) {
    t.state == Ready && t.priority < u.priority
  }

  datatype PreemptReason = PreemptNone | PreemptNeeded | SamePriority | InvalidCurrent

  datatype Decision = Decision(reason: PreemptReason, current: int, candidate: int)

  // ----- registration ---------------------------------------------------

  predicate Complete(p: TaskParam) {
    p.name != 0 && p.entry != 0 && p.stackBase != 0 && p.stackSize != 0
  }

  function NewTcb(p: TaskParam, id: int, state: TaskState): Tcb {
    Tcb(id, p.entry, p.priority, state, 0, NoWait, 0, p.stackBase, p.stackSize, AtTop)
  }

  // ----- stacks ---------------------------------------------------------

  /** stack_base + stack_size in 64-bit arithmetic. */
  function StackTop(t: Tcb): Address {
    var top := t.stackBase + t.stackSize;
    if top < ADDRESS_SPACE then top else top - ADDRESS_SPACE
  }

  /** Whether the saved stack pointer is 0. */
  predicate RspIsZero(t: Tcb) {
    match t.context
    case Unset => true
    case AtTop => StackTop(t) == 0
    case Frame(rsp, _) => rsp == 0
    case Saved(_) => false
  }

  /** context_validate_task for a task that is not NULL. */
  function ContextCheck(t: Tcb): int {
    if t.stackBase == 0 || StackTop(t) == 0 then TASK_CONTEXT_ERR_INVAL
    else if t.stackSize < 64 then TASK_CONTEXT_ERR_INVAL
    else if RspIsZero(t) then TASK_CONTEXT_ERR_BAD_STATE
    else TASK_CONTEXT_OK
  }

  predicate StackOk(t: Tcb) {
    ContextCheck(t) == TASK_CONTEXT_OK
  }

  /** The stack pointer of an initial frame: the top rounded down to 16, less one word. */
  function InitialRsp(top: Address): Address {
    var aligned := top - top % 16;
    if aligned >= 8 then aligned - 8 else aligned - 8 + ADDRESS_SPACE
  }

  // ----- queues of waiting tasks ---------------------------------------

  /** Which tasks a queue is for. */
  datatype Queue = TickQueue | SemQueue(sem: int)

  predicate Belongs(q: Queue, t: Tcb) {
    match q
    case TickQueue => Timed(t)
    case SemQueue(sem) => WaitsOn(t, sem)
  }

  /** ids lists, without repetition, exactly the tasks that belong in queue q. */
  ghost predicate Exactly(ts: seq<Tcb>, q: Queue, ids: seq<int>) {
    && Distinct(ids)
    && (forall k :: 0 <= k < |ids| ==> Find(ts, ids[k]) >= 0 && Belongs(q, ts[Find(ts, ids[k])]))
    && (forall i :: 0 <= i < |ts| && Belongs(q, ts[i]) ==> ts[i].id in ids)
  }

  ghost predicate PositiveIds(ts: seq<Tcb>) {
    forall i :: 0 <= i < |ts| && Used(ts[i]) ==> ts[i].id > 0
  }

  /** A queue is not disturbed by changes that move nobody into it or out of it. */
  lemma ExactlyQuiet(ts: seq<Tcb>, ts': seq<Tcb>, q: Queue, ids: seq<int>)
    requires Exactly(ts, q, ids) && SameIds(ts, ts')
    requires forall i :: 0 <= i < |ts| ==> Belongs(q, ts'[i]) == Belongs(q, ts[i])
    ensures Exactly(ts', q, ids)
  {
  }

  /** A task that starts to wait goes to the end. */
  lemma ExactlyJoin(ts: seq<Tcb>, i: nat, t: Tcb, q: Queue, ids: seq<int>)
    requires Exactly(ts, q, ids) && UniqueIds(ts) && PositiveIds(ts)
    requires i < |ts| && Used(ts[i]) && !Belongs(q, ts[i])
    requires Belongs(q, t) && t.id == ts[i].id
    ensures Exactly(ts[i := t], q, ids + [t.id])
  {
    var ts' := ts[i := t];
    FindExact(ts, i);
    FindSame(ts, ts', t.id);
    forall k | 0 <= k < |ids|
      ensures ids[k] != t.id && Find(ts', ids[k]) >= 0 && Belongs(q, ts'[Find(ts', ids[k])])
    {
      FindSame(ts, ts', ids[k]);
    }
    var all := ids + [t.id];
    forall j | 0 <= j < |ts'| && Belongs(q, ts'[j])
      ensures ts'[j].id in all
    {
      if j == i {
        assert all[|ids|] == t.id;
      } else {
        assert ts[j].id in ids;
      }
    }
  }

  /** Whoever leaves is dropped from the queue, and nobody else is. */
  lemma ExactlyLeave(ts: seq<Tcb>, ts': seq<Tcb>, q: Queue, ids: seq<int>, gone: set<int>)
    requires Exactly(ts, q, ids) && SameIds(ts, ts') && UniqueIds(ts) && PositiveIds(ts)
    requires forall i :: 0 <= i < |ts| ==>
      (Belongs(q, ts'[i]) <==> Belongs(q, ts[i]) && ts[i].id !in gone)
    ensures Exactly(ts', q, Keep(ids, gone))
  {
    var kept := Keep(ids, gone);
    KeepDistinct(ids, gone);
    forall k | 0 <= k < |kept|
      ensures Find(ts', kept[k]) >= 0 && Belongs(q, ts'[Find(ts', kept[k])])
    {
      var x := kept[k];
      assert x in kept;
      var j :| 0 <= j < |ids| && ids[j] == x;
      FindSame(ts, ts', x);
    }
    forall i | 0 <= i < |ts'| && Belongs(q, ts'[i])
      ensures ts'[i].id in kept
    {
      assert ts[i].id in ids;
    }
  }

  /** A new task, which does not wait, is in no queue. */
  lemma ExactlyAdd(ts: seq<Tcb>, i: nat, t: Tcb, q: Queue, ids: seq<int>)
    requires Exactly(ts, q, ids)
    requires i < |ts| && !Used(ts[i]) && !Belongs(q, t)
    requires forall j :: 0 <= j < |ts| && Used(ts[j]) ==> ts[j].id != t.id
    ensures Exactly(ts[i := t], q, ids)
  {
    var ts' := ts[i := t];
    forall k | 0 <= k < |ids|
      ensures Find(ts', ids[k]) == Find(ts, ids[k])
    {
      var s := Find(ts, ids[k]);
      assert s >= 0 && s != i && Holds(ts'[s], ids[k]);
      var s' := Find(ts', ids[k]);
      assert s' != i;
    }
  }

  /** A queue that misses some task has room for it. */
  lemma ExactlyHasRoom(ts: seq<Tcb>, q: Queue, ids: seq<int>, out: nat)
    requires Exactly(ts, q, ids)
    requires out < |ts| && !Belongs(q, ts[out])
    ensures |ids| < |ts|
  {
    var slots := seq(|ids|, k requires 0 <= k < |ids| => Find(ts, ids[k]));
    Pigeonhole(slots, |ts|, out);
  }
}
