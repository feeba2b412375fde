/** kernel/task.c and kernel/scheduler.c: the static task table. */
module TaskTables {
  import opened KernelTypes
  import opened TaskModel

  class TaskTable {
    const slots: array<Tcb>
    var nextId: int

    /** task_init. */
    constructor (maxTasks: nat)
      ensures fresh(slots) && slots.Length == maxTasks && nextId == 1
      ensures forall i :: 0 <= i < maxTasks ==> slots[i] == BLANK_TCB
    {
      slots := new Tcb[maxTasks](_ => BLANK_TCB);
      nextId := 1;
    }

    /** task_get_by_id and task_get_mutable_by_id. */
    method GetById(id: int) returns (i: int)
      ensures i == Find(slots[..], id)
    {
      if id <= 0 {
        return NULL_SLOT;
      }
      i := 0;
      while i < slots.Length
        invariant 0 <= i <= slots.Length
        invariant FindFrom(slots[..], id, 0) == FindFrom(slots[..], id, i)
      {
        if slots[i].state == Unused {
          i := i + 1;
          continue;
        }
        if slots[i].id == id {
          return i;
        }
        i := i + 1;
      }
      i := NULL_SLOT;
    }

    /** find_free_slot. */
    method FindFreeSlot() returns (i: int)
      ensures i == FreeSlot(slots[..])
    {
      i := 0;
      while i < slots.Length
        invariant 0 <= i <= slots.Length
        invariant FreeSlotFrom(slots[..], 0) == FreeSlotFrom(slots[..], i)
      {
        if slots[i].state == Unused {
          return i;
        }
        i := i + 1;
      }
      i := NULL_SLOT;
    }

    /** task_id_is_in_use: also asked for ids below 1. */
    method IdIsInUse(id: int) returns (used: bool)
      ensures used <==> exists i :: 0 <= i < slots.Length && Holds(slots[i], id)
    {
      for i := 0 to slots.Length
        invariant forall j :: 0 <= j < i ==> !Holds(slots[j], id)
      {
        if slots[i].state == Unused {
          continue;
        }
        if slots[i].id == id {
          assert Holds(slots[i], id);
          return true;
        }
      }
      used := false;
    }

    /** allocate_task_id. */
    method AllocateId() returns (id: int)
      modifies `nextId
      ensures old(nextId) <= 0 || old(nextId) >= ID_MAX ==> id == TASK_ERR_ID_OVERFLOW && nextId == old(nextId)
      ensures 0 < old(nextId) < ID_MAX ==> id == old(nextId) && nextId == id + 1
    {
      if nextId <= 0 || nextId >= ID_MAX {
        return TASK_ERR_ID_OVERFLOW;
      }
      id := nextId;
      nextId := nextId + 1;
    }

    /** task_register: the new task is READY. */
    method Register(p: TaskParam) returns (id: int)
      modifies slots, `nextId
      ensures
        var ts, next := old(slots[..]), old(nextId);
        if !Complete(p) then id == TASK_ERR_INVAL && slots[..] == ts && nextId == next
        else if FreeSlot(ts) < 0 then id == TASK_ERR_FULL && slots[..] == ts && nextId == next
        else if next <= 0 || next >= ID_MAX then id == TASK_ERR_ID_OVERFLOW && slots[..] == ts && nextId == next
        else
          && id == next && nextId == next + 1
          && slots[..] == ts[FreeSlot(ts) :=
               Tcb(id, p.entry, p.priority, Ready, 0, NoWait, 0, p.stackBase, p.stackSize, AtTop)]
    {
      if p.name == 0 || p.entry == 0 || p.stackBase == 0 || p.stackSize == 0 {
        return TASK_ERR_INVAL;
      }
      var slot := FindFreeSlot();
      if slot < 0 {
        return TASK_ERR_FULL;
      }
      id := AllocateId();
      if id < 0 {
        return id;
      }
      slots[slot] := Tcb(id, p.entry, p.priority, Ready, 0, NoWait, 0, p.stackBase, p.stackSize, AtTop);
    }

    /** task_create_dormant: the new task is DORMANT and has the id the caller chose. */
    method CreateDormant(id: int, p: TaskParam) returns (r: int)
      requires id < ID_MAX || !Complete(p) || Find(slots[..], id) >= 0 || FreeSlot(slots[..]) < 0
      modifies slots, `nextId
      ensures
        var ts, next := old(slots[..]), old(nextId);
        if id <= 0 || !Complete(p) then r == TASK_ERR_INVAL && slots[..] == ts && nextId == next
        else if Find(ts, id) >= 0 then r == TASK_ERR_BAD_STATE && slots[..] == ts && nextId == next
        else if FreeSlot(ts) < 0 then r == TASK_ERR_FULL && slots[..] == ts && nextId == next
        else
          && r == 0
          && slots[..] == ts[FreeSlot(ts) :=
               Tcb(id, p.entry, p.priority, Dormant, 0, NoWait, 0, p.stackBase, p.stackSize, AtTop)]
          && nextId == if next <= id then id + 1 else next
    {
      if id <= 0 || p.name == 0 || p.entry == 0 || p.stackBase == 0 || p.stackSize == 0 {
        return TASK_ERR_INVAL;
      }
      var used := IdIsInUse(id);
      if used {
        return TASK_ERR_BAD_STATE;
      }
      var slot := FindFreeSlot();
      if slot < 0 {
        return TASK_ERR_FULL;
      }
      slots[slot] := Tcb(id, p.entry, p.priority, Dormant, 0, NoWait, 0, p.stackBase, p.stackSize, AtTop);
      if nextId <= id {
        nextId := id + 1;
      }
      r := 0;
    }

    // ----- transitions: each is one row of TaskModel.Move ----------------

    /** task_mark_running. */
    method MarkRunning(id: int) returns (r: int)
      modifies slots
      ensures r == MoveResult(old(slots[..]), id, Move.MarkRunning)
      ensures slots[..] == AfterMove(old(slots[..]), id, Move.MarkRunning)
    {
      if id <= 0 {
        return TASK_ERR_INVAL;
      }
      var i := GetById(id);
      if i < 0 {
        return TASK_ERR_NOT_FOUND;
      }
      if slots[i].state != Ready {
        return TASK_ERR_BAD_STATE;
      }
      slots[i] := slots[i].(state := Running, reason := NoWait, waitSem := 0, remaining := 0);
      r := 0;
    }

    /** task_mark_ready_from_running. */
    method MarkReadyFromRunning(id: int) returns (r: int)
      modifies slots
      ensures r == MoveResult(old(slots[..]), id, MarkReady)
      ensures slots[..] == AfterMove(old(slots[..]), id, MarkReady)
    {
      if id <= 0 {
        return TASK_ERR_INVAL;
      }
      var i := GetById(id);
      if i < 0 {
        return TASK_ERR_NOT_FOUND;
      }
      if slots[i].state != Running {
        return TASK_ERR_BAD_STATE;
      }
      slots[i] := slots[i].(state := Ready, reason := NoWait, waitSem := 0, remaining := 0);
      r := 0;
    }

    /** task_start_dormant. */
    method StartDormant(id: int) returns (r: int)
      modifies slots
      ensures r == MoveResult(old(slots[..]), id, Move.StartDormant)
      ensures slots[..] == AfterMove(old(slots[..]), id, Move.StartDormant)
    {
      if id <= 0 {
        return TASK_ERR_INVAL;
      }
      var i := GetById(id);
      if i < 0 {
        return TASK_ERR_NOT_FOUND;
      }
      if slots[i].state != Dormant {
        return TASK_ERR_BAD_STATE;
      }
      slots[i] := slots[i].(state := Ready, reason := NoWait, waitSem := 0, remaining := 0);
      r := 0;
    }

    /** task_mark_dormant_from_entry_return. */
    method MarkDormantFromEntryReturn(id: int) returns (r: int)
      modifies slots
      ensures r == MoveResult(old(slots[..]), id, MarkDormant)
      ensures slots[..] == AfterMove(old(slots[..]), id, MarkDormant)
    {
      if id <= 0 {
        return TASK_ERR_INVAL;
      }
      var i := GetById(id);
      if i < 0 {
        return TASK_ERR_NOT_FOUND;
      }
      if slots[i].state != Running && slots[i].state != Ready {
        return TASK_ERR_BAD_STATE;
      }
      slots[i] := slots[i].(state := Dormant, reason := NoWait, waitSem := 0, remaining := 0);
      r := 0;
    }

    /** task_mark_waiting_on_sem. */
    method MarkWaitingOnSem(id: int, sem: int) returns (r: int)
      modifies slots
      ensures r == MoveResult(old(slots[..]), id, WaitOnSem(sem))
      ensures slots[..] == AfterMove(old(slots[..]), id, WaitOnSem(sem))
    {
      var i := GetById(id);
      if id <= 0 || sem <= 0 {
        return TASK_ERR_INVAL;
      }
      if i < 0 {
        return TASK_ERR_NOT_FOUND;
      }
      if slots[i].state != Running {
        return TASK_ERR_BAD_STATE;
      }
      slots[i] := slots[i].(state := Waiting, waitSem := sem, reason := OnSemaphore, remaining := 0);
      r := 0;
    }

    /** task_mark_waiting_on_delay. */
    method MarkWaitingOnDelay(id: int, n: Ticks) returns (r: int)
      modifies slots
      ensures r == MoveResult(old(slots[..]), id, WaitOnDelay(n))
      ensures slots[..] == AfterMove(old(slots[..]), id, WaitOnDelay(n))
    {
      var i := GetById(id);
      if id <= 0 || n == 0 {
        return TASK_ERR_INVAL;
      }
      if i < 0 {
        return TASK_ERR_NOT_FOUND;
      }
      if slots[i].state != Running {
        return TASK_ERR_BAD_STATE;
      }
      slots[i] := slots[i].(state := Waiting, waitSem := 0, reason := OnDelay, remaining := n);
      r := 0;
    }

    /** task_mark_waiting_on_sem_timeout. */
    method MarkWaitingOnSemTimeout(id: int, sem: int, n: Ticks) returns (r: int)
      modifies slots
      ensures r == MoveResult(old(slots[..]), id, WaitOnSemTimeout(sem, n))
      ensures slots[..] == AfterMove(old(slots[..]), id, WaitOnSemTimeout(sem, n))
    {
      var i := GetById(id);
      if id <= 0 || sem <= 0 || n == 0 {
        return TASK_ERR_INVAL;
      }
      if i < 0 {
        return TASK_ERR_NOT_FOUND;
      }
      if slots[i].state != Running {
        return TASK_ERR_BAD_STATE;
      }
      slots[i] := slots[i].(state := Waiting, waitSem := sem, reason := OnSemaphoreTimeout, remaining := n);
      r := 0;
    }

    /** task_mark_waiting_on_sleep. */
    method MarkWaitingOnSleep(id: int) returns (r: int)
      modifies slots
      ensures r == MoveResult(old(slots[..]), id, WaitOnSleep)
      ensures slots[..] == AfterMove(old(slots[..]), id, WaitOnSleep)
    {
      var i := GetById(id);
      if id <= 0 {
        return TASK_ERR_INVAL;
      }
      if i < 0 {
        return TASK_ERR_NOT_FOUND;
      }
      if slots[i].state != Running {
        return TASK_ERR_BAD_STATE;
      }
      slots[i] := slots[i].(state := Waiting, waitSem := 0, reason := OnSleep, remaining := 0);
      r := 0;
    }

    /** task_wake_waiting_on_sem_by_id. */
    method WakeWaitingOnSemById(id: int, sem: int) returns (r: int)
      modifies slots
      ensures r == MoveResult(old(slots[..]), id, WakeOnSem(sem))
      ensures slots[..] == AfterMove(old(slots[..]), id, WakeOnSem(sem))
    {
      var i := GetById(id);
      if id <= 0 || sem <= 0 {
        return TASK_ERR_INVAL;
      }
      if i < 0 {
        return TASK_ERR_NOT_FOUND;
      }
      if slots[i].state != Waiting ||
         (slots[i].reason != OnSemaphore && slots[i].reason != OnSemaphoreTimeout) ||
         slots[i].waitSem != sem {
        return TASK_ERR_BAD_STATE;
      }
      slots[i] := slots[i].(state := Ready, waitSem := 0, reason := NoWait, remaining := 0);
      r := 0;
    }

    /** task_wake_waiting_on_delay_by_id. */
    method WakeWaitingOnDelayById(id: int) returns (r: int)
      modifies slots
      ensures r == MoveResult(old(slots[..]), id, WakeOnDelay)
      ensures slots[..] == AfterMove(old(slots[..]), id, WakeOnDelay)
    {
      var i := GetById(id);
      if id <= 0 {
        return TASK_ERR_INVAL;
      }
      if i < 0 {
        return TASK_ERR_NOT_FOUND;
      }
      if slots[i].state != Waiting || slots[i].reason != OnDelay {
        return TASK_ERR_BAD_STATE;
      }
      slots[i] := slots[i].(state := Ready, waitSem := 0, reason := NoWait, remaining := 0);
      r := 0;
    }

    /** task_wake_waiting_on_sem_timeout_by_id. */
    method WakeWaitingOnSemTimeoutById(id: int, sem: int) returns (r: int)
      modifies slots
      ensures r == MoveResult(old(slots[..]), id, WakeOnSemTimeout(sem))
      ensures slots[..] == AfterMove(old(slots[..]), id, WakeOnSemTimeout(sem))
    {
      var i := GetById(id);
      if id <= 0 || sem <= 0 {
        return TASK_ERR_INVAL;
      }
      if i < 0 {
        return TASK_ERR_NOT_FOUND;
      }
      if slots[i].state != Waiting || slots[i].reason != OnSemaphoreTimeout || slots[i].waitSem != sem {
        return TASK_ERR_BAD_STATE;
      }
      slots[i] := slots[i].(state := Ready, waitSem := 0, reason := NoWait, remaining := 0);
      r := 0;
    }

    /** task_wake_waiting_on_sleep_by_id. */
    method WakeWaitingOnSleepById(id: int) returns (r: int)
      modifies slots
      ensures r == MoveResult(old(slots[..]), id, WakeOnSleep)
      ensures slots[..] == AfterMove(old(slots[..]), id, WakeOnSleep)
    {
      var i := GetById(id);
      if id <= 0 {
        return TASK_ERR_INVAL;
      }
      if i < 0 {
        return TASK_ERR_NOT_FOUND;
      }
      if slots[i].state != Waiting || slots[i].reason != OnSleep {
        return TASK_ERR_BAD_STATE;
      }
      slots[i] := slots[i].(state := Ready, waitSem := 0, reason := NoWait, remaining := 0);
      r := 0;
    }

    /** scheduler_select_next. */
    method SelectNext() returns (best: int)
      ensures best == Best(slots[..], slots.Length)
    {
      best := NULL_SLOT;
      for i := 0 to slots.Length
        invariant best == Best(slots[..], i)
      {
        if slots[i].state != Ready {
          continue;
        }
        if best == NULL_SLOT || slots[i].priority < slots[best].priority {
          best := i;
        }
      }
    }

    /** scheduler_select_preemption_candidate; NULL_SLOT is NULL. */
    method SelectPreemptionCandidate(current: int) returns (d: Decision)
      requires current < slots.Length
      ensures d.current == current
      ensures d.candidate ==
        if current >= 0 && slots[current].state == Running then Best(slots[..], slots.Length) else NULL_SLOT
      ensures d.reason == InvalidCurrent <==> current >= 0 && slots[current].state != Running
      ensures d.reason == PreemptNeeded <==>
        && current >= 0 && slots[current].state == Running
        && exists i :: 0 <= i < slots.Length && Outranks(slots[i], slots[current])
      ensures d.reason == SamePriority <==>
        && current >= 0 && slots[current].state == Running
        && (forall i :: 0 <= i < slots.Length ==> !Outranks(slots[i], slots[current]))
        && (exists i :: 0 <= i < slots.Length && slots[i].state == Ready &&
              slots[i].priority == slots[current].priority)
    {
      d := Decision(PreemptNone, current, NULL_SLOT);
      if current < 0 {
        return d;
      }
      if slots[current].state != Running {
        return d.(reason := InvalidCurrent);
      }
      var candidate := SelectNext();
      d := d.(candidate := candidate);
      if candidate < 0 {
        return d;
      }
      if slots[candidate].priority < slots[current].priority {
        assert Outranks(slots[candidate], slots[current]);
        d := d.(reason := PreemptNeeded);
      } else if slots[candidate].priority == slots[current].priority {
        d := d.(reason := SamePriority);
      }
    }
  }
}
