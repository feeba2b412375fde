/** The values the kernel keeps: task control blocks, semaphores, delay entries,
    the dispatch-pending record, and the numeric codes its functions return.

    A pointer into a static table is a slot number, and -1 stands for NULL.
    A machine address is a number below 2^64, and 0 stands for NULL. */
module KernelTypes {

  const ADDRESS_SPACE := 0x1_0000_0000_0000_0000
  const NULL_SLOT := -1
  const ID_MAX := 2147483647

  type Address = a: nat | a < ADDRESS_SPACE
  type Ticks = n: nat | n < 0x1_0000_0000

  const E_OK := 0
  const E_PAR := -17
  const E_ID := -18
  const E_CTX := -25
  const E_OBJ := -41
  const E_QOVR := -43
  const E_TMOUT := -50

  const TASK_ERR_FULL := -1
  const TASK_ERR_INVAL := -2
  const TASK_ERR_ID_OVERFLOW := -3
  const TASK_ERR_NOT_FOUND := -4
  const TASK_ERR_BAD_STATE := -5

  const SEM_OK := 0
  const SEM_WAIT_REQUIRED := 1
  const SEM_WAIT_QUEUE_EMPTY := 2
  const SEM_ERR_FULL := -1
  const SEM_ERR_INVAL := -2
  const SEM_ERR_OVERFLOW := -4
  const SEM_ERR_TASK := -5

  const DELAY_QUEUE_OK := 0
  const DELAY_QUEUE_ERR_INVAL := -1
  const DELAY_QUEUE_ERR_FULL := -2
  const DELAY_QUEUE_ERR_DUPLICATE := -3
  const DELAY_QUEUE_ERR_TASK_STATE := -4

  const DISPATCHER_OK := 0
  const DISPATCHER_ERR_INVAL := -1
  const DISPATCHER_ERR_BAD_STATE := -2
  const DISPATCHER_ERR_NOT_FOUND := -3

  const TASK_CONTEXT_OK := 0
  const TASK_CONTEXT_ERR_INVAL := -1
  const TASK_CONTEXT_ERR_BAD_STATE := -2

  const CONSUME_NO_PENDING := -1
  const CONSUME_INVALID := -2

  datatype TaskState = Unused | Dormant | Ready | Running | Waiting

  datatype WaitReason = NoWait | OnSemaphore | OnDelay | OnSemaphoreTimeout | OnSleep

  /** Where a saved context continues when it is restored. */
  datatype ResumePoint = AfterPairSwitch | AfterBootSwitch

  /** The part of a register save area that decides where a restore leads:
      nothing stored (rsp is 0), rsp at the stack top but no return address there,
      an initial frame that enters the trampoline with the TCB in r12,
      or a state the switch primitive saved. */
  datatype Context =
    | Unset
    | AtTop
    | Frame(rsp: Address, task: int)
    | Saved(point: ResumePoint)

  datatype Tcb = Tcb(
    id: int,
    entry: Address,
    priority: int,
    state: TaskState,
    waitSem: int,
    reason: WaitReason,
    remaining: nat,
    stackBase: Address,
    stackSize: Address,
    context: Context)

  const BLANK_TCB := Tcb(0, 0, 0, Unused, 0, NoWait, 0, 0, 0, Unset)

  /** What the caller of task_register and cre_tsk supplies. */
  datatype TaskParam = TaskParam(
    name: Address, entry: Address, priority: int, stackBase: Address, stackSize: Address)

  datatype Option<+T> = None | Some(value: T)

  /** A semaphore as its callers see it: the ring buffer is a sequence. */
  datatype Sem = Sem(id: int, count: int, max: int, waiters: seq<int>)

  const BLANK_SEM := Sem(0, 0, 0, [])

  datatype Entry = Entry(id: int, remaining: nat)

  const BLANK_ENTRY := Entry(0, 0)

  datatype Source = NoSource | FromIrq | FromTask

  datatype Reason = NoReason | HigherPriorityReady | TaskStart | TaskWakeup

  datatype Pending = Pending(
    requested: bool, source: Source, reason: Reason, from: int, to: int, fromId: int, toId: int)

  const NO_PENDING := Pending(false, NoSource, NoReason, NULL_SLOT, NULL_SLOT, 0, 0)

  /** The six stores of the kernel, as one value. */
  datatype Kernel = Kernel(
    tasks: seq<Tcb>,
    nextTaskId: int,
    sems: seq<Sem>,
    nextSemId: int,
    delay: seq<Entry>,
    current: int,
    pending: Pending,
    ticks: nat)
}
