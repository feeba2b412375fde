/** kernel/task_context.c: control moves between the boot stack and the task stacks
    by arch_context_switch, which saves where it was called and continues wherever
    the other context was saved or prepared. */
module TaskContexts {
  import opened KernelTypes
  import opened TaskModel
  import opened KernelSpec
  import opened TaskTables

  /** Where the processor is between two context switches. */
  datatype Control =
    | AtBoot                                    // back in task_context_switch_to_task
    | Entering(task: int)                       // in task_context_enter, through the trampoline
    | Resuming(task: int, point: ResumePoint)   // behind an earlier switch of this task
    | Hung                                      // halted, or restored from nothing

  datatype Machine = Machine(
    tasks: seq<Tcb>,
    bootSaved: bool,
    active: int,
    first: int,
    second: int,
    control: Control,
    ran: seq<int>)

  /** Restoring a context: an initial frame leads to the task its r12 names. */
  function Restored(context: Context, task: int): Control {
    match context
    case Unset => Hung
    case AtTop => Hung
    case Frame(_, t) => Entering(t)
    case Saved(point) => Resuming(task, point)
  }

  function SwitchedToBoot(m: Machine, task: int): Machine
    requires 0 <= task < |m.tasks|
  {
    m.(tasks := m.tasks[task := m.tasks[task].(context := Saved(AfterBootSwitch))],
       control := if m.bootSaved then AtBoot else Hung)
  }

  /** From one context switch to the next. */
  function Burst(m: Machine): (m': Machine)
    ensures |m'.tasks| == |m.tasks|
  {
    match m.control
    case AtBoot => m
    case Hung => m
    case Resuming(t, point) =>
      if point == AfterPairSwitch && 0 <= t < |m.tasks| then SwitchedToBoot(m, t) else m.(control := Hung)
    case Entering(t) =>
      if !(0 <= t < |m.tasks|) || m.tasks[t].entry == 0 then m.(control := Hung)
      else
        var m1 := m.(ran := m.ran + [t], tasks := AfterMove(m.tasks, m.tasks[t].id, MarkDormant));
        if m.first == t && 0 <= m.second < |m.tasks| then
          var saved := m1.tasks[t := m1.tasks[t].(context := Saved(AfterPairSwitch))];
          m1.(tasks := saved, active := m.second, first := NULL_SLOT, second := NULL_SLOT,
              control := Restored(saved[m.second].context, m.second))
        else SwitchedToBoot(m1, t)
  }

  /** How many bursts may still follow. */
  function Budget(m: Machine): nat {
    match m.control
    case AtBoot => 0
    case Hung => 0
    case Resuming(_, _) => 1
    case Entering(_) => if m.second >= 0 then 3 else 2
  }

  /** Control goes on until it is back at boot, or hangs. */
  function Run(m: Machine): Machine
    decreases Budget(m)
  {
    if Budget(m) == 0 then m else Run(Burst(m))
  }

  predicate ReadyToEnter(m: Machine, t: int) {
    && 0 <= t < |m.tasks| && m.tasks[t].entry != 0
    && (m.tasks[t].state == Running || m.tasks[t].state == Ready)
    && m.tasks[t].context.Frame? && m.tasks[t].context.task == t
    && Find(m.tasks, m.tasks[t].id) == t
  }

  /** One prepared task: its entry runs once, it ends DORMANT, and control is back at boot. */
  lemma LoneRun(m: Machine, t: int)
    requires ReadyToEnter(m, t) && m.control == Entering(t) && m.bootSaved && m.first != t && m.second < 0
    ensures Run(m) == m.(tasks := m.tasks[t := Finished(m.tasks[t], AfterBootSwitch)],
                         control := AtBoot, ran := m.ran + [t])
  {
    var m1 := Burst(m);
    assert m1.tasks == m.tasks[t := Finished(m.tasks[t], AfterBootSwitch)];
    assert Run(m1) == m1;
  }

  /** A reserved pair: the first entry runs once, then the second once; both end DORMANT,
      the reservation is gone, and control is back at boot without a detour. */
  lemma PairRun(m: Machine, a: int, b: int)
    requires ReadyToEnter(m, a) && ReadyToEnter(m, b) && a != b
    requires m.control == Entering(a) && m.bootSaved && m.first == a && m.second == b
    ensures Run(m) == m.(
      tasks := m.tasks[a := Finished(m.tasks[a], AfterPairSwitch)][b := Finished(m.tasks[b], AfterBootSwitch)],
      active := b, first := NULL_SLOT, second := NULL_SLOT, control := AtBoot, ran := m.ran + [a, b])
  {
    var m1 := Burst(m);
    assert m1.tasks == m.tasks[a := Finished(m.tasks[a], AfterPairSwitch)];
    FindSame(m.tasks, m1.tasks, m.tasks[b].id);
    assert ReadyToEnter(m1, b) && m1.control == Entering(b);
    LoneRun(m1, b);
    assert m.ran + [a] + [b] == m.ran + [a, b];
  }

  /** How far up an address is from the base of a stack, in 64-bit arithmetic. */
  function Offset(base: Address, address: Address): Address {
    if address >= base then address - base else address - base + ADDRESS_SPACE
  }

  /** On every stack the layer accepts, the stack pointer of an initial frame leaves room for the
      return address inside the stack, counted from its base in 64-bit arithmetic.  It is the
      highest such address a word below a multiple of 16, as the ABI wants it at a function's
      entry.  As plain numbers it lies between base and top exactly if the stack does not wrap
      around address 0. */
  lemma InitialRspFits(t: Tcb)
    requires t.stackBase != 0 && StackTop(t) != 0 && t.stackSize >= 64
    ensures InitialRsp(StackTop(t)) % 16 == 8
    ensures Offset(t.stackBase, InitialRsp(StackTop(t))) + 8 <= t.stackSize
    ensures 8 <= Offset(InitialRsp(StackTop(t)), StackTop(t)) < 24
    ensures (t.stackBase <= InitialRsp(StackTop(t)) && InitialRsp(StackTop(t)) + 8 <= StackTop(t)) <==>
            t.stackBase + t.stackSize < ADDRESS_SPACE
  {
  }

  class ContextLayer {
    const tasks: TaskTable
    var bootSaved: bool
    var active: int
    var smokeFrom: int
    var smokeTo: int
    ghost var ran: seq<int>

    constructor (tasks: TaskTable)
      ensures this.tasks == tasks && Idle() && ran == []
    {
      this.tasks := tasks;
      bootSaved, active, smokeFrom, smokeTo, ran := false, NULL_SLOT, NULL_SLOT, NULL_SLOT, [];
    }

    /** Nothing is being switched and no pair is reserved. */
    ghost predicate Idle()
      reads this
    {
      active == NULL_SLOT && smokeFrom == NULL_SLOT && smokeTo == NULL_SLOT
    }

    ghost function View(control: Control): Machine
      reads this, tasks.slots
    {
      Machine(tasks.slots[..], bootSaved, active, smokeFrom, smokeTo, control, ran)
    }

    /** context_validate_task; NULL_SLOT is NULL. */
    method Validate(t: int) returns (r: int)
      requires t < tasks.slots.Length
      ensures r == if t < 0 then TASK_CONTEXT_ERR_INVAL else ContextCheck(tasks.slots[t])
      ensures r == TASK_CONTEXT_ERR_INVAL <==>
        t < 0 || tasks.slots[t].stackBase == 0 || StackTop(tasks.slots[t]) == 0 || tasks.slots[t].stackSize < 64
      ensures r == TASK_CONTEXT_ERR_BAD_STATE <==>
        r != TASK_CONTEXT_ERR_INVAL && RspIsZero(tasks.slots[t])
    {
      if t < 0 {
        return TASK_CONTEXT_ERR_INVAL;
      }
      var tcb := tasks.slots[t];
      if tcb.stackBase == 0 || StackTop(tcb) == 0 {
        return TASK_CONTEXT_ERR_INVAL;
      }
      if tcb.stackSize < 64 {
        return TASK_CONTEXT_ERR_INVAL;
      }
      if RspIsZero(tcb) {
        return TASK_CONTEXT_ERR_BAD_STATE;
      }
      r := TASK_CONTEXT_OK;
    }

    /** task_context_prepare_initial_frame. */
    method PrepareInitialFrame(t: int) returns (r: int)
      requires t < tasks.slots.Length
      modifies tasks.slots
      ensures
        var ts := old(tasks.slots[..]);
        if t < 0 || !StackOk(ts[t]) then r == TASK_CONTEXT_ERR_INVAL && tasks.slots[..] == ts
        else
          && r == TASK_CONTEXT_OK
          && tasks.slots[..] == ts[t := Prepared(ts[t], t)]
    {
      var v := Validate(t);
      if v != TASK_CONTEXT_OK {
        return TASK_CONTEXT_ERR_INVAL;
      }
      var top: int := StackTop(tasks.slots[t]);
      var rsp := top - top % 16 - 8;
      if rsp < 0 {
        rsp := rsp + ADDRESS_SPACE;
      }
      tasks.slots[t] := tasks.slots[t].(context := Frame(rsp, t));
      r := TASK_CONTEXT_OK;
    }

    /** task_context_enter, up to its next context switch. */
    method Enter(t: int) returns (control: Control)
      modifies this, tasks.slots
      ensures View(control) == Burst(old(View(Entering(t))))
    {
      if !(0 <= t < tasks.slots.Length) || tasks.slots[t].entry == 0 {
        return Hung;
      }
      ran := ran + [t];
      var _ := tasks.MarkDormantFromEntryReturn(tasks.slots[t].id);
      if smokeFrom == t && 0 <= smokeTo < tasks.slots.Length {
        var next := smokeTo;
        smokeFrom, smokeTo := NULL_SLOT, NULL_SLOT;
        active := next;
        tasks.slots[t] := tasks.slots[t].(context := Saved(AfterPairSwitch));
        return Restored(tasks.slots[next].context, next);
      }
      control := SwitchToBoot(t, Entering(t));
    }

    /** The last context switch of task_context_enter. */
    method SwitchToBoot(t: int, ghost from: Control) returns (control: Control)
      requires 0 <= t < tasks.slots.Length
      modifies tasks.slots
      ensures View(control) == SwitchedToBoot(old(View(from)), t)
    {
      tasks.slots[t] := tasks.slots[t].(context := Saved(AfterBootSwitch));
      control := if bootSaved then AtBoot else Hung;
    }

    /** arch_context_switch out of boot: whatever follows until boot is restored. */
    method RunFrom(start: Control) returns (control: Control)
      modifies this, tasks.slots
      ensures View(control) == Run(old(View(start)))
      ensures control == AtBoot || control == Hung
    {
      control := start;
      while control != AtBoot && control != Hung
        invariant Run(View(control)) == Run(old(View(start)))
        decreases Budget(View(control))
      {
        ghost var m := View(control);
        match control
        case Entering(t) =>
          control := Enter(t);
        case Resuming(t, point) =>
          if point == AfterPairSwitch && 0 <= t < tasks.slots.Length {
            control := SwitchToBoot(t, control);
          } else {
            control := Hung;
          }
        assert View(control) == Burst(m);
      }
    }

    /** The machine at the moment boot gives control to a task. */
    ghost function Started(to: int): Machine
      requires 0 <= to < tasks.slots.Length
      reads this, tasks.slots
    {
      View(Restored(tasks.slots[to].context, to)).(active := to, bootSaved := true)
    }

    /** task_context_switch_to_task; NULL_SLOT is NULL.  If the processor halts on the way, the
        call does not come back. */
    method SwitchToTask(to: int) returns (r: int, halted: bool)
      requires to < tasks.slots.Length
      modifies this, tasks.slots
      ensures to < 0 || !StackOk(old(tasks.slots[to])) ==>
        r == TASK_CONTEXT_ERR_INVAL && !halted && unchanged(this) && tasks.slots[..] == old(tasks.slots[..])
      ensures to >= 0 && StackOk(old(tasks.slots[to])) ==>
        var m := Run(old(Started(to)));
        && halted == (m.control != AtBoot)
        && if halted then View(Hung) == m else r == TASK_CONTEXT_OK && View(AtBoot) == m.(active := NULL_SLOT)
    {
      r, halted := TASK_CONTEXT_ERR_INVAL, false;
      var v := Validate(to);
      if v != TASK_CONTEXT_OK {
        return;
      }
      active := to;
      bootSaved := true;
      var control := RunFrom(Restored(tasks.slots[to].context, to));
      if control == Hung {
        halted := true;
        return;
      }
      active := NULL_SLOT;
      r := TASK_CONTEXT_OK;
    }

    /** The dispatcher's use of the layer for a waiting task: one entry runs. */
    method RunOne(to: int) returns (r: int)
      requires Idle() && 0 <= to < tasks.slots.Length
      requires tasks.slots[to].state == Running && tasks.slots[to].entry != 0
      requires Find(tasks.slots[..], tasks.slots[to].id) == to
      modifies this, tasks.slots
      ensures Idle()
      ensures
        var ts := old(tasks.slots[..]);
        if !StackOk(ts[to]) then r == TASK_CONTEXT_ERR_INVAL && tasks.slots[..] == ts && ran == old(ran)
        else
          && r == TASK_CONTEXT_OK && ran == old(ran) + [to]
          && tasks.slots[..] == ts[to := Finished(ts[to], AfterBootSwitch)]
    {
      ghost var ts := tasks.slots[..];
      r := PrepareInitialFrame(to);
      if r == TASK_CONTEXT_OK {
        FindSame(ts, tasks.slots[..], ts[to].id);
        LoneRun(Started(to), to);
        var halted;
        r, halted := SwitchToTask(to);
        assert !halted;
      }
    }

    /** The machine at the moment boot gives control to the first task of a reserved pair. */
    ghost function Reserved(first: int, second: int): Machine
      requires 0 <= first < tasks.slots.Length && 0 <= second < tasks.slots.Length
      reads this, tasks.slots
    {
      var ts := tasks.slots[..];
      Machine(ts[first := Prepared(ts[first], first)][second := Prepared(ts[second], second)],
              true, first, first, second, Entering(first), ran)
    }

    /** task_context_switch_to_task_pair; NULL_SLOT is NULL. */
    method SwitchToTaskPair(first: int, second: int) returns (r: int, halted: bool)
      requires first < tasks.slots.Length && second < tasks.slots.Length
      modifies this, tasks.slots
      ensures
        var ts := old(tasks.slots[..]);
        if first < 0 || second < 0 || first == second || !StackOk(ts[first]) then
          r == TASK_CONTEXT_ERR_INVAL && !halted && unchanged(this) && tasks.slots[..] == ts
        else if !StackOk(ts[second]) then
          && r == TASK_CONTEXT_ERR_INVAL && !halted && unchanged(this)
          && tasks.slots[..] == ts[first := Prepared(ts[first], first)]
        else
          var m := Run(old(Reserved(first, second)));
          && halted == (m.control != AtBoot)
          && if halted then View(Hung) == m
             else
               && r == TASK_CONTEXT_OK
               && View(AtBoot) == m.(active := NULL_SLOT, first := NULL_SLOT, second := NULL_SLOT)
    {
      hide Run;
      r, halted := TASK_CONTEXT_ERR_INVAL, false;
      if first < 0 || second < 0 || first == second {
        return;
      }
      ghost var m := Reserved(first, second);
      r := PrepareInitialFrame(first);
      if r != TASK_CONTEXT_OK {
        return;
      }
      r := PrepareInitialFrame(second);
      if r != TASK_CONTEXT_OK {
        return;
      }
      smokeFrom, smokeTo := first, second;
      assert Started(first) == m;
      r, halted := SwitchToTask(first);
      if halted {
        return;
      }
      smokeFrom, smokeTo := NULL_SLOT, NULL_SLOT;
    }

    /** The dispatcher's use of the layer for a task that does not wait: both entries run, the
        first one first. */
    method RunPair(first: int, second: int) returns (r: int)
      requires Idle() && 0 <= first < tasks.slots.Length && 0 <= second < tasks.slots.Length
      requires tasks.slots[first].state == Ready && tasks.slots[first].entry != 0
      requires tasks.slots[second].state == Running && tasks.slots[second].entry != 0
      requires Find(tasks.slots[..], tasks.slots[first].id) == first
      requires Find(tasks.slots[..], tasks.slots[second].id) == second
      modifies this, tasks.slots
      ensures Idle()
      ensures
        var ts := old(tasks.slots[..]);
        if !StackOk(ts[first]) then r == TASK_CONTEXT_ERR_INVAL && tasks.slots[..] == ts && ran == old(ran)
        else if !StackOk(ts[second]) then
          && r == TASK_CONTEXT_ERR_INVAL && ran == old(ran)
          && tasks.slots[..] == ts[first := Prepared(ts[first], first)]
        else
          && r == TASK_CONTEXT_OK && ran == old(ran) + [first, second]
          && tasks.slots[..] ==
             ts[first := Finished(ts[first], AfterPairSwitch)][second := Finished(ts[second], AfterBootSwitch)]
    {
      hide Run;
      hide Burst;
      hide Find;
      ghost var ts, m := tasks.slots[..], Reserved(first, second);
      FindSame(ts, m.tasks, ts[first].id);
      FindSame(ts, m.tasks, ts[second].id);
      PairRun(m, first, second);
      var halted;
      r, halted := SwitchToTaskPair(first, second);
      assert !halted;
    }
  }
}
