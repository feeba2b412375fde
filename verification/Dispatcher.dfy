/** kernel/dispatcher.c and kernel/dispatch_pending.c: the current task, and the one
    request to replace it that may be held. */
module Dispatchers {
  import opened KernelTypes
  import opened TaskModel
  import opened KernelSpec
  import opened TaskTables
  import opened TaskContexts

  /** Registered tasks have unique positive ids and an entry. */
  ghost predicate Identified(ts: seq<Tcb>) {
    && UniqueIds(ts)
    && (forall i :: 0 <= i < |ts| && Used(ts[i]) ==> ts[i].id > 0 && ts[i].entry != 0)
  }

  lemma IdentifiedSame(ts: seq<Tcb>, i: nat, t: Tcb)
    requires Identified(ts) && i < |ts| && Used(ts[i]) && Used(t) && t.id == ts[i].id && t.entry == ts[i].entry
    ensures Identified(ts[i := t])
  {
  }

  class Dispatcher {
    const tasks: TaskTable
    const contexts: ContextLayer
    var current: int

    /** dispatcher_init. */
    constructor (tasks: TaskTable, contexts: ContextLayer)
      ensures this.tasks == tasks && this.contexts == contexts && current == NULL_SLOT
    {
      this.tasks, this.contexts, current := tasks, contexts, NULL_SLOT;
    }

    /** The stores the dispatcher changes hold what k says. */
    ghost predicate Shows(k: Kernel)
      reads this, tasks.slots, contexts
    {
      && tasks.slots[..] == k.tasks && current == k.current
      && contexts.tasks == tasks && contexts.Idle()
    }

    /** dispatcher_commit_current. */
    method CommitCurrent(selected: int, ghost k: Kernel) returns (r: int)
      requires Shows(k) && Identified(k.tasks) && selected < tasks.slots.Length
      modifies tasks.slots, `current
      ensures Shows(Commit(k, selected).0) && r == Commit(k, selected).1
    {
      if selected < 0 {
        return DISPATCHER_ERR_INVAL;
      }
      if tasks.slots[selected].state != Ready {
        return DISPATCHER_ERR_BAD_STATE;
      }
      FindExact(k.tasks, selected);
      var marked := tasks.MarkRunning(tasks.slots[selected].id);
      if marked == TASK_ERR_NOT_FOUND {
        return DISPATCHER_ERR_NOT_FOUND;
      }
      if marked == TASK_ERR_BAD_STATE {
        return DISPATCHER_ERR_BAD_STATE;
      }
      if marked != 0 {
        return DISPATCHER_ERR_INVAL;
      }
      current := selected;
      r := DISPATCHER_OK;
    }

    /** The two transitions of dispatcher_switch_to: in the order of the source, each by task id.
        Neither can fail, because an id leads back to the slot it was read from. */
    method Transfer(from: int, to: int, ghost k: Kernel) returns (r: int)
      requires Shows(k) && Identified(k.tasks) && CanSwitch(k, from, to)
      modifies tasks.slots, `current
      ensures Shows(Promoted(Released(k, from), to)) && r == DISPATCHER_OK
    {
      FindExact(k.tasks, from);
      FindExact(k.tasks, to);
      if tasks.slots[from].state == Running {
        var released := tasks.MarkReadyFromRunning(tasks.slots[from].id);
        FindSame(k.tasks, tasks.slots[..], k.tasks[to].id);
        if released == TASK_ERR_NOT_FOUND {
          return DISPATCHER_ERR_NOT_FOUND;
        }
        if released == TASK_ERR_BAD_STATE {
          return DISPATCHER_ERR_BAD_STATE;
        }
        if released != 0 {
          return DISPATCHER_ERR_INVAL;
        }
      }
      var promoted := tasks.MarkRunning(tasks.slots[to].id);
      if promoted == TASK_ERR_NOT_FOUND {
        return DISPATCHER_ERR_NOT_FOUND;
      }
      if promoted == TASK_ERR_BAD_STATE {
        return DISPATCHER_ERR_BAD_STATE;
      }
      if promoted != 0 {
        return DISPATCHER_ERR_INVAL;
      }
      current := to;
      r := DISPATCHER_OK;
    }

    /** The part of dispatcher_switch_to behind the transitions. */
    method EnterContexts(from: int, to: int, ghost k: Kernel) returns (r: int)
      requires Shows(k) && Identified(k.tasks)
      requires IsSlot(k, from) && IsSlot(k, to) && k.tasks[to].state == Running
      requires k.tasks[from].state == Ready || k.tasks[from].state == Waiting
      modifies tasks.slots, contexts
      ensures Shows(RunSwitched(k, from, to).0) && r == RunSwitched(k, from, to).1
    {
      FindExact(k.tasks, from);
      FindExact(k.tasks, to);
      if tasks.slots[from].state == Waiting {
        r := contexts.RunOne(to);
      } else {
        r := contexts.RunPair(from, to);
      }
    }

    /** dispatcher_switch_to. */
    method SwitchTo(from: int, to: int, ghost k: Kernel) returns (r: int)
      requires Shows(k) && Identified(k.tasks)
      requires from < tasks.slots.Length && to < tasks.slots.Length
      modifies tasks.slots, `current, contexts
      ensures Shows(KernelSpec.SwitchTo(k, from, to).0) && r == KernelSpec.SwitchTo(k, from, to).1
    {
      if from < 0 || to < 0 {
        return DISPATCHER_ERR_INVAL;
      }
      if from == to {
        return DISPATCHER_ERR_INVAL;
      }
      var state := tasks.slots[from].state;
      if state != Running && state != Ready && state != Waiting {
        return DISPATCHER_ERR_BAD_STATE;
      }
      if tasks.slots[to].state != Ready {
        return DISPATCHER_ERR_BAD_STATE;
      }
      r := Transfer(from, to, k);
      if r != DISPATCHER_OK {
        return r;
      }
      ghost var k1 := Released(k, from);
      ghost var k2 := Promoted(k1, to);
      IdentifiedSame(k.tasks, from, k1.tasks[from]);
      IdentifiedSame(k1.tasks, to, k2.tasks[to]);
      r := EnterContexts(from, to, k2);
    }
  }

  class DispatchPending {
    var state: Pending

    constructor ()
      ensures state == NO_PENDING
    {
      state := NO_PENDING;
    }

    /** dispatch_pending_clear_with_reason. */
    method Clear()
      modifies this
      ensures state == NO_PENDING
    {
      state := Pending(false, NoSource, NoReason, NULL_SLOT, NULL_SLOT, 0, 0);
    }

    /** dispatch_pending_clear_irq_for_evaluation: a request from a task stays. */
    method ClearIrqForEvaluation()
      modifies this
      ensures state == if old(state).source == FromIrq then NO_PENDING else old(state)
    {
      if state.source == FromIrq {
        Clear();
      }
    }

    /** dispatch_request_from_irq. */
    method RequestFromIrq(tasks: TaskTable, current: int, candidate: int)
      requires current < tasks.slots.Length && candidate < tasks.slots.Length
      modifies this
      ensures current >= 0 && candidate >= 0 ==>
        state == if TaskHeld(old(state)) then old(state)
                 else Pending(true, FromIrq, HigherPriorityReady, current, candidate,
                              tasks.slots[current].id, tasks.slots[candidate].id)
      ensures current < 0 || candidate < 0 ==>
        state == if old(state).source == FromIrq then NO_PENDING else old(state)
    {
      if current < 0 || candidate < 0 {
        ClearIrqForEvaluation();
        return;
      }
      if state.requested && state.source == FromTask {
        return;
      }
      state := Pending(true, FromIrq, HigherPriorityReady, current, candidate,
                       tasks.slots[current].id, tasks.slots[candidate].id);
    }

    /** dispatch_request_from_task_start and dispatch_request_from_task_wakeup:
        the newer request replaces whatever is held. */
    method RequestFromTask(tasks: TaskTable, reason: Reason, current: int, candidate: int)
      requires current < tasks.slots.Length && candidate < tasks.slots.Length
      modifies this
      ensures state ==
        if current < 0 || candidate < 0 then NO_PENDING
        else Pending(true, FromTask, reason, current, candidate,
                     tasks.slots[current].id, tasks.slots[candidate].id)
    {
      if current < 0 || candidate < 0 {
        Clear();
        return;
      }
      state := Pending(true, FromTask, reason, current, candidate,
                       tasks.slots[current].id, tasks.slots[candidate].id);
    }
  }
}
