/** What every kernel call does to the six stores, as functions on values.
    The classes of the other modules are proved to compute these functions. */
module KernelSpec {
  import opened KernelTypes
  import opened Lists
  import opened TaskModel

  // ----- semaphores -----------------------------------------------------

  function FindSemFrom(sems: seq<Sem>, id: int, n: nat): (s: int)
    requires n <= |sems|
    ensures s == NULL_SLOT || n <= s < |sems|
    ensures s >= 0 ==> sems[s].id == id
    ensures forall j :: n <= j < (if s < 0 then |sems| else s) ==> sems[j].id != id
    decreases |sems| - n
  {
    if n == |sems| then NULL_SLOT
    else if sems[n].id == id then n
    else FindSemFrom(sems, id, n + 1)
  }

  /** The slot of semaphore id, or NULL_SLOT; ids below 1 are never found. */
  function FindSem(sems: seq<Sem>, id: int): (s: int)
    ensures s == NULL_SLOT || 0 <= s < |sems|
    ensures s >= 0 ==> id > 0 && sems[s].id == id
    ensures s >= 0 ==> forall j :: 0 <= j < s ==> sems[j].id != id
    ensures s < 0 && id > 0 ==> forall j :: 0 <= j < |sems| ==> sems[j].id != id
  {
    if id <= 0 then NULL_SLOT else FindSemFrom(sems, id, 0)
  }

  /** The first slot without a semaphore, or NULL_SLOT. */
  function FreeSem(sems: seq<Sem>): (s: int)
    ensures s == NULL_SLOT || 0 <= s < |sems|
    ensures s >= 0 ==> sems[s].id == 0
    ensures forall j :: 0 <= j < (if s < 0 then |sems| else s) ==> sems[j].id != 0
  {
    FindSemFrom(sems, 0, 0)
  }

  function Ids(d: seq<Entry>): (ids: seq<int>)
    ensures |ids| == |d|
    ensures forall k :: 0 <= k < |d| ==> ids[k] == d[k].id
  {
    seq(|d|, k requires 0 <= k < |d| => d[k].id)
  }

  /** The delay queue without the first entry of task id. */
  function WithoutEntry(d: seq<Entry>, id: int): seq<Entry> {
    var p := Position(Ids(d), id);
    if p == |d| then d else d[..p] + d[p + 1..]
  }

  // ----- time -----------------------------------------------------------

  /** A task after n ticks. */
  function AgedTask(t: Tcb, n: nat): Tcb {
    if !Timed(t) then t
    else if t.remaining <= n then Cleared(t, Ready)
    else t.(remaining := t.remaining - n)
  }

  /** The delay queue after n ticks: the entries that last longer, in their order. */
  function Aged(d: seq<Entry>, n: nat): seq<Entry> {
    if d == [] then []
    else
      var rest := Aged(d[..|d| - 1], n);
      var last := d[|d| - 1];
      if last.remaining <= n then rest else rest + [Entry(last.id, last.remaining - n)]
  }

  /** The tasks whose time is up within n ticks. */
  function Due(d: seq<Entry>, n: nat): set<int> {
    set k | 0 <= k < |d| && d[k].remaining <= n :: d[k].id
  }

  function Dropped(sem: Sem, gone: set<int>): Sem {
    sem.(waiters := Keep(sem.waiters, gone))
  }

  function AgedTasks(ts: seq<Tcb>, n: nat): (r: seq<Tcb>)
    ensures |r| == |ts|
    ensures forall i :: 0 <= i < |ts| ==> r[i] == AgedTask(ts[i], n)
  {
    seq(|ts|, i requires 0 <= i < |ts| => AgedTask(ts[i], n))
  }

  function DroppedFrom(sems: seq<Sem>, gone: set<int>): (r: seq<Sem>)
    ensures |r| == |sems|
    ensures forall s :: 0 <= s < |sems| ==> r[s] == Dropped(sems[s], gone)
  {
    seq(|sems|, s requires 0 <= s < |sems| => Dropped(sems[s], gone))
  }

  /** n ticks at once: every wait is n ticks shorter, the waits that end do so together. */
  function Advance(k: Kernel, n: nat): Kernel {
    k.(tasks := AgedTasks(k.tasks, n),
       sems := DroppedFrom(k.sems, Due(k.delay, n)),
       delay := Aged(k.delay, n),
       ticks := k.ticks + n)
  }

  function Tick(k: Kernel): Kernel {
    Advance(k, 1)
  }

  // ----- the walk over the delay queue ---------------------------------

  /** The wake-up of the task in slot i, whose ticks are used up. */
  function Expired(k: Kernel, i: int): (r: Kernel)
    requires IsSlot(k, i)
    ensures r == k.(tasks := r.tasks, sems := r.sems) && |r.tasks| == |k.tasks|
  {
    var t := k.tasks[i];
    if t.reason == OnSemaphoreTimeout then
      var s := FindSem(k.sems, t.waitSem);
      if s < 0 || t.id <= 0 || t.id !in k.sems[s].waiters then k
      else
        k.(sems := k.sems[s := k.sems[s].(waiters := Without(k.sems[s].waiters, t.id))],
           tasks := AfterMove(k.tasks, t.id, WakeOnSemTimeout(t.waitSem)))
    else if t.reason == OnDelay then k.(tasks := AfterMove(k.tasks, t.id, WakeOnDelay))
    else k
  }

  /** One pass of the loop of delay_queue_tick, whatever the entry at index refers to. */
  function Pass(k: Kernel, index: nat): (r: Kernel)
    requires index < |k.delay|
    ensures r == k.(tasks := r.tasks, sems := r.sems, delay := r.delay) && |r.tasks| == |k.tasks|
    ensures |r.delay| == if k.delay[index].remaining > 1 then |k.delay| else |k.delay| - 1
  {
    var e := k.delay[index];
    var i, left := Find(k.tasks, e.id), if e.remaining > 0 then e.remaining - 1 else 0;
    var k1 := if i < 0 then k else k.(tasks := k.tasks[i := k.tasks[i].(remaining := left)]);
    if left > 0 then k1.(delay := k.delay[index := Entry(e.id, left)])
    else (if i < 0 then k1 else Expired(k1, i)).(delay := k.delay[..index] + k.delay[index + 1..])
  }

  /** The loop of delay_queue_tick from an index on, and how many entries it removes: an entry
      that goes leaves the index on the entry that moves up. */
  function WalkFrom(k: Kernel, index: nat): (r: (Kernel, nat))
    requires index <= |k.delay|
    ensures r.0 == k.(tasks := r.0.tasks, sems := r.0.sems, delay := r.0.delay)
    ensures |r.0.tasks| == |k.tasks| && r.1 == |k.delay| - |r.0.delay|
    decreases |k.delay| - index
  {
    if index == |k.delay| then (k, 0)
    else if k.delay[index].remaining > 1 then WalkFrom(Pass(k, index), index + 1)
    else
      var (k', n) := WalkFrom(Pass(k, index), index);
      (k', n + 1)
  }

  /** timer_tick on any stores. */
  function WalkTick(k: Kernel): Kernel {
    WalkFrom(k, 0).0.(ticks := k.ticks + 1)
  }

  // ----- dispatcher and contexts ---------------------------------------

  predicate IsSlot(k: Kernel, i: int) {
    0 <= i < |k.tasks|
  }

  function Put(k: Kernel, i: int, t: Tcb): Kernel
    requires IsSlot(k, i)
  {
    k.(tasks := k.tasks[i := t])
  }

  predicate IsRunning(k: Kernel, i: int) {
    IsSlot(k, i) && k.tasks[i].state == Running
  }

  /** A task whose entry has run to its end and whose context was saved at point. */
  function Finished(t: Tcb, point: ResumePoint): Tcb {
    Cleared(t, Dormant).(context := Saved(point))
  }

  function Prepared(t: Tcb, i: int): Tcb {
    t.(context := Frame(InitialRsp(StackTop(t)), i))
  }

  /** The context layer after the dispatcher made `to` the current task.  A waiting
      `from` stays where it is; otherwise both entries run to their end.  The task
      whose stack is refused stops everything. */
  function RunSwitched(k: Kernel, from: int, to: int): (r: (Kernel, int))
    requires IsSlot(k, from) && IsSlot(k, to)
    ensures r.0 == k.(tasks := r.0.tasks) && |r.0.tasks| == |k.tasks|
  {
    if k.tasks[from].state == Waiting then
      if !StackOk(k.tasks[to]) then (k, TASK_CONTEXT_ERR_INVAL)
      else (Put(k, to, Finished(k.tasks[to], AfterBootSwitch)), TASK_CONTEXT_OK)
    else if !StackOk(k.tasks[from]) then (k, TASK_CONTEXT_ERR_INVAL)
    else if !StackOk(k.tasks[to]) then
      (Put(k, from, Prepared(k.tasks[from], from)), TASK_CONTEXT_ERR_INVAL)
    else
      (Put(Put(k, from, Finished(k.tasks[from], AfterPairSwitch)),
           to, Finished(k.tasks[to], AfterBootSwitch)),
       TASK_CONTEXT_OK)
  }

  /** READY to RUNNING, and current. */
  function Promoted(k: Kernel, to: int): Kernel
    requires IsSlot(k, to)
  {
    Put(k, to, Cleared(k.tasks[to], Running)).(current := to)
  }

  /** A RUNNING task goes back to READY; other tasks stay as they are. */
  function Released(k: Kernel, from: int): Kernel
    requires IsSlot(k, from)
  {
    if k.tasks[from].state == Running then Put(k, from, Cleared(k.tasks[from], Ready)) else k
  }

  predicate CanSwitch(k: Kernel, from: int, to: int) {
    && IsSlot(k, from) && IsSlot(k, to) && from != to
    && (k.tasks[from].state == Running || k.tasks[from].state == Ready || k.tasks[from].state == Waiting)
    && k.tasks[to].state == Ready
  }

  /** dispatcher_switch_to on registered tasks. */
  function SwitchTo(k: Kernel, from: int, to: int): (r: (Kernel, int))
    ensures r.0 == k.(tasks := r.0.tasks, current := r.0.current) && |r.0.tasks| == |k.tasks|
  {
    if !IsSlot(k, from) || !IsSlot(k, to) || from == to then (k, DISPATCHER_ERR_INVAL)
    else if !CanSwitch(k, from, to) then (k, DISPATCHER_ERR_BAD_STATE)
    else RunSwitched(Promoted(Released(k, from), to), from, to)
  }

  /** dispatcher_commit_current: no previous RUNNING task is demoted. */
  function Commit(k: Kernel, selected: int): (r: (Kernel, int))
    ensures r.0 == k.(tasks := r.0.tasks, current := r.0.current) && |r.0.tasks| == |k.tasks|
  {
    if !IsSlot(k, selected) then (k, DISPATCHER_ERR_INVAL)
    else if k.tasks[selected].state != Ready then (k, DISPATCHER_ERR_BAD_STATE)
    else (Promoted(k, selected), DISPATCHER_OK)
  }

  function Next(k: Kernel): int {
    Best(k.tasks, |k.tasks|)
  }

  /** The common end of the blocking calls: switch to the scheduler's choice, if any. */
  function GiveUp(k: Kernel, from: int): (r: (Kernel, int))
    ensures r.0 == k.(tasks := r.0.tasks, current := r.0.current) && |r.0.tasks| == |k.tasks|
  {
    if Next(k) < 0 then (k, E_OK)
    else
      var (k', r) := SwitchTo(k, from, Next(k));
      (k', if r == DISPATCHER_OK then E_OK else E_OBJ)
  }

  // ----- dispatch pending ----------------------------------------------

  function Request(k: Kernel, source: Source, reason: Reason, to: int): Kernel
    requires IsSlot(k, k.current) && IsSlot(k, to)
  {
    k.(pending := Pending(true, source, reason, k.current, to, k.tasks[k.current].id, k.tasks[to].id))
  }

  predicate TaskHeld(p: Pending) {
    p.requested && p.source == FromTask
  }

  /** A task made READY by another task asks for the processor if it outranks the caller. */
  function Contend(k: Kernel, reason: Reason, to: int): Kernel
    requires IsSlot(k, to)
  {
    if IsRunning(k, k.current) && k.tasks[to].priority < k.tasks[k.current].priority
    then Request(k, FromTask, reason, to)
    else k
  }

  /** Whether some READY task outranks the RUNNING current task. */
  predicate Outranked(k: Kernel) {
    IsRunning(k, k.current) && Next(k) >= 0 && k.tasks[Next(k)].priority < k.tasks[k.current].priority
  }

  /** preemption_evaluate_from_irq. */
  function Evaluate(k: Kernel): Kernel {
    var k1 := if k.pending.source == FromIrq then k.(pending := NO_PENDING) else k;
    if Outranked(k1) && !TaskHeld(k1.pending) then Request(k1, FromIrq, HigherPriorityReady, Next(k1)) else k1
  }

  /** dispatch_pending_consume_at_deferred_boundary. */
  function Consume(k: Kernel): (Kernel, int) {
    if !k.pending.requested then (k, CONSUME_NO_PENDING)
    else
      var from, to := Find(k.tasks, k.pending.fromId), Find(k.tasks, k.pending.toId);
      if !IsRunning(k, from) || !IsSlot(k, to) || k.tasks[to].state != Ready then
        (k.(pending := NO_PENDING), CONSUME_INVALID)
      else
        var (k', r) := SwitchTo(k, from, to);
        (k'.(pending := NO_PENDING), r)
  }

  /** The timer interrupt handler. */
  function TimerIrq(k: Kernel): Kernel {
    Consume(Evaluate(Tick(k))).0
  }

  // ----- task registration ---------------------------------------------

  function TaskRegister(k: Kernel, p: TaskParam): (Kernel, int) {
    if !Complete(p) then (k, TASK_ERR_INVAL)
    else if FreeSlot(k.tasks) < 0 then (k, TASK_ERR_FULL)
    else if k.nextTaskId <= 0 || k.nextTaskId >= ID_MAX then (k, TASK_ERR_ID_OVERFLOW)
    else
      (Put(k, FreeSlot(k.tasks), NewTcb(p, k.nextTaskId, Ready)).(nextTaskId := k.nextTaskId + 1),
       k.nextTaskId)
  }

  function CreTsk(k: Kernel, id: int, p: Option<TaskParam>): (Kernel, int) {
    if id <= 0 then (k, E_ID)
    else if p.None? || !Complete(p.value) then (k, E_PAR)
    else if Find(k.tasks, id) >= 0 || FreeSlot(k.tasks) < 0 then (k, E_OBJ)
    else
      (Put(k, FreeSlot(k.tasks), NewTcb(p.value, id, Dormant))
         .(nextTaskId := if k.nextTaskId <= id then id + 1 else k.nextTaskId),
       E_OK)
  }

  function StaTsk(k: Kernel, id: int): (Kernel, int) {
    var i := Find(k.tasks, id);
    if i < 0 then (k, E_ID)
    else if k.tasks[i].state != Dormant then (k, E_OBJ)
    else (Contend(Put(k, i, Cleared(k.tasks[i], Ready)), TaskStart, i), E_OK)
  }

  function WupTsk(k: Kernel, id: int): (Kernel, int) {
    var i := Find(k.tasks, id);
    if i < 0 then (k, E_ID)
    else if k.tasks[i].state != Waiting || k.tasks[i].reason != OnSleep then (k, E_OBJ)
    else (Contend(Put(k, i, Cleared(k.tasks[i], Ready)), TaskWakeup, i), E_OK)
  }

  function SlpTsk(k: Kernel): (Kernel, int) {
    if !IsRunning(k, k.current) then (k, E_CTX)
    else GiveUp(Put(k, k.current, Moved(k.tasks[k.current], WaitOnSleep)), k.current)
  }

  function YieldTsk(k: Kernel): (Kernel, int) {
    if !IsRunning(k, k.current) then (k, E_CTX)
    else
      var k1 := Released(k, k.current);
      if Next(k1) == k.current then (k1, E_OK) else (SwitchTo(k1, k.current, Next(k1)).0, E_OK)
  }

  function DlyTsk(k: Kernel, n: Ticks): (Kernel, int) {
    if !IsSlot(k, k.current) then (k, E_CTX)
    else if n == 0 then (k, E_PAR)
    else if !IsRunning(k, k.current) then (k, E_CTX)
    else if DelayRefuses(k, k.tasks[k.current].id) then (k, E_QOVR)
    else GiveUp(DelayedBy(k, n), k.current)
  }

  /** The delay queue has the task already, or has no room for it. */
  predicate DelayRefuses(k: Kernel, id: int) {
    id in Ids(k.delay) || |k.delay| >= |k.tasks|
  }

  function DelayedBy(k: Kernel, n: nat): Kernel
    requires IsSlot(k, k.current)
  {
    var t := k.tasks[k.current];
    Put(k, k.current, Moved(t, WaitOnDelay(n))).(delay := k.delay + [Entry(t.id, n)])
  }

  // ----- semaphore calls -----------------------------------------------

  function SemCreate(k: Kernel, name: Address, initial: int, max: int): (Kernel, int) {
    if name == 0 || initial < 0 || max <= 0 || initial > max then (k, SEM_ERR_INVAL)
    else if FreeSem(k.sems) < 0 then (k, SEM_ERR_FULL)
    else if k.nextSemId <= 0 || k.nextSemId >= ID_MAX then (k, SEM_ERR_OVERFLOW)
    else
      (k.(sems := k.sems[FreeSem(k.sems) := Sem(k.nextSemId, initial, max, [])],
          nextSemId := k.nextSemId + 1),
       k.nextSemId)
  }

  function SetCount(k: Kernel, s: int, count: int): Kernel
    requires 0 <= s < |k.sems|
  {
    k.(sems := k.sems[s := k.sems[s].(count := count)])
  }

  /** The RUNNING caller waits on semaphore slot s, for n ticks at most if n is positive. */
  function QueuedOn(k: Kernel, s: int, n: nat): Kernel
    requires IsSlot(k, k.current) && 0 <= s < |k.sems|
  {
    var t, sem := k.tasks[k.current], k.sems[s];
    var move := if n == 0 then WaitOnSem(sem.id) else WaitOnSemTimeout(sem.id, n);
    Put(k, k.current, Moved(t, move))
      .(sems := k.sems[s := sem.(waiters := sem.waiters + [t.id])],
        delay := if n == 0 then k.delay else k.delay + [Entry(t.id, n)])
  }

  /** The wait behind a failed take; n is 0 for wai_sem.  wai_sem marks its caller before it
      knows that the queue has room; twai_sem asks both queues first. */
  function Block(k: Kernel, s: int, n: nat): (Kernel, int)
    requires IsSlot(k, k.current) && 0 <= s < |k.sems|
  {
    var t, sem := k.tasks[k.current], k.sems[s];
    if n == 0 && |sem.waiters| >= |k.tasks| then (Put(k, k.current, Moved(t, WaitOnSem(sem.id))), E_OBJ)
    else if n > 0 && |sem.waiters| >= |k.tasks| then (k, E_ID)
    else if n > 0 && DelayRefuses(k, t.id) then (k, E_QOVR)
    else GiveUp(QueuedOn(k, s, n), k.current)
  }

  /** The part wai_sem and twai_sem share. */
  function WaitSem(k: Kernel, semId: int, n: nat): (Kernel, int) {
    if !IsRunning(k, k.current) then (k, E_CTX)
    else
      var s := FindSem(k.sems, semId);
      if s < 0 then (k, E_ID)
      else if k.sems[s].count > 0 then (SetCount(k, s, k.sems[s].count - 1), E_OK)
      else Block(k, s, n)
  }

  function WaiSem(k: Kernel, semId: int): (Kernel, int) {
    WaitSem(k, semId, 0)
  }

  function TwaiSem(k: Kernel, semId: int, n: Ticks): (Kernel, int) {
    if !IsSlot(k, k.current) then (k, E_CTX)
    else if n == 0 then (k, E_PAR)
    else WaitSem(k, semId, n)
  }

  function PolSem(k: Kernel, semId: int): (Kernel, int) {
    if !IsRunning(k, k.current) then (k, E_CTX)
    else
      var s := FindSem(k.sems, semId);
      if s < 0 then (k, E_ID)
      else if k.sems[s].count > 0 then (SetCount(k, s, k.sems[s].count - 1), E_OK)
      else (k, E_TMOUT)
  }

  /** The first waiter of semaphore slot s, in slot i, gets the token and leaves every queue. */
  function HandedOver(k: Kernel, s: int, i: int): Kernel
    requires IsSlot(k, i) && 0 <= s < |k.sems| && |k.sems[s].waiters| > 0
  {
    var t := k.tasks[i];
    Put(Dequeued(k, s), i, Cleared(t, Ready))
      .(delay := if t.reason == OnSemaphoreTimeout then WithoutEntry(k.delay, t.id) else k.delay)
  }

  function Dequeued(k: Kernel, s: int): Kernel
    requires 0 <= s < |k.sems| && |k.sems[s].waiters| > 0
  {
    k.(sems := k.sems[s := k.sems[s].(waiters := k.sems[s].waiters[1..])])
  }

  /** The wake-up of sig_sem: the queue has lost its first waiter before anything is known
      about that task, and a wait with a timeout loses its delay entry before it is woken. */
  function PassOn(k: Kernel, s: int): (Kernel, int)
    requires 0 <= s < |k.sems| && |k.sems[s].waiters| > 0
  {
    var k1, id := Dequeued(k, s), k.sems[s].waiters[0];
    var i := Find(k.tasks, id);
    if i < 0 then (k1, E_OBJ)
    else
      var t := k.tasks[i];
      if t.reason == OnSemaphoreTimeout && (t.state != Waiting || id !in Ids(k.delay)) then (k1, E_OBJ)
      else
        var k2 := if t.reason == OnSemaphoreTimeout then k1.(delay := WithoutEntry(k.delay, id)) else k1;
        if !WaitsOn(t, k.sems[s].id) then (k2, E_OBJ) else (Put(k2, i, Cleared(t, Ready)), E_OK)
  }

  function SigSem(k: Kernel, semId: int): (Kernel, int) {
    var s := FindSem(k.sems, semId);
    if s < 0 then (k, E_ID)
    else if |k.sems[s].waiters| == 0 then
      if k.sems[s].count >= k.sems[s].max then (k, E_QOVR)
      else (SetCount(k, s, k.sems[s].count + 1), E_OK)
    else
      var (k', er) := PassOn(k, s);
      var i := Find(k.tasks, k.sems[s].waiters[0]);
      (if er == E_OK then Contend(k', TaskWakeup, i) else k', er)
  }

  // ----- runs -----------------------------------------------------------

  datatype Step =
    | DoRegister(param: TaskParam)
    | DoCreTsk(newId: int, attributes: Option<TaskParam>)
    | DoStaTsk(id: int)
    | DoSemCreate(name: Address, initial: int, max: int)
    | DoCommit(slot: int)
    | DoYield
    | DoWaiSem(sem: int)
    | DoPolSem(sem: int)
    | DoTwaiSem(sem: int, timeout: Ticks)
    | DoSigSem(sem: int)
    | DoDlyTsk(delay: Ticks)
    | DoSlpTsk
    | DoWupTsk(id: int)
    | DoTick
    | DoEvaluate
    | DoConsume
    | DoTimerIrq

  ghost predicate NobodyRuns(k: Kernel) {
    forall i :: 0 <= i < |k.tasks| ==> k.tasks[i].state != Running
  }

  /** The arguments for which the calls of the source are defined: a committed task is a table
      entry or NULL, and cre_tsk does not come to compute 2147483647 + 1. */
  ghost predicate Defined(k: Kernel, st: Step) {
    match st
    case DoCreTsk(id, p) => id < ID_MAX || (id == ID_MAX && CreTsk(k, id, p).1 != E_OK)
    case DoCommit(slot) => slot < |k.tasks|
    case _ => true
  }

  /** The one demand that the code makes of its callers without a check: no task is committed
      while another one is RUNNING. */
  ghost predicate Allowed(k: Kernel, st: Step) {
    && Defined(k, st)
    && (st.DoCommit? && IsSlot(k, st.slot) && k.tasks[st.slot].state == Ready ==> NobodyRuns(k))
  }

  /** The state after a step and the value the call returns (0 where it returns none). */
  function Do(k: Kernel, st: Step): (Kernel, int) {
    match st
    case DoRegister(p) => TaskRegister(k, p)
    case DoCreTsk(id, p) => CreTsk(k, id, p)
    case DoStaTsk(id) => StaTsk(k, id)
    case DoSemCreate(name, initial, max) => SemCreate(k, name, initial, max)
    case DoCommit(slot) => Commit(k, slot)
    case DoYield => YieldTsk(k)
    case DoWaiSem(sem) => WaiSem(k, sem)
    case DoPolSem(sem) => PolSem(k, sem)
    case DoTwaiSem(sem, n) => TwaiSem(k, sem, n)
    case DoSigSem(sem) => SigSem(k, sem)
    case DoDlyTsk(n) => DlyTsk(k, n)
    case DoSlpTsk => SlpTsk(k)
    case DoWupTsk(id) => WupTsk(k, id)
    case DoTick => (Tick(k), 0)
    case DoEvaluate => (Evaluate(k), 0)
    case DoConsume => Consume(k)
    case DoTimerIrq => (TimerIrq(k), 0)
  }

  /** The state after boot: every table empty. */
  function Booted(maxTasks: nat, maxSems: nat): Kernel {
    Kernel(seq(maxTasks, _ => BLANK_TCB), 1, seq(maxSems, _ => BLANK_SEM), 1, [], NULL_SLOT, NO_PENDING, 0)
  }

  ghost predicate AllowedRun(k: Kernel, run: seq<Step>)
    decreases |run|
  {
    run == [] || (Allowed(k, run[0]) && AllowedRun(Do(k, run[0]).0, run[1..]))
  }

  /** The state after a run, first step first. */
  function After(k: Kernel, run: seq<Step>): Kernel
    decreases |run|
  {
    if run == [] then k else After(Do(k, run[0]).0, run[1..])
  }
}
