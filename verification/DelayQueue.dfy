/** kernel/delay_queue.c: the fixed-size queue of tasks that wait for ticks. */
module DelayQueues {
  import opened KernelTypes
  import opened Lists
  import opened TaskModel
  import opened KernelSpec
  import opened TaskTables
  import opened Semaphores

  class DelayQueue {
    const entries: array<Entry>
    var count: nat
    const tasks: TaskTable
    const sems: SemaphoreTable

    ghost predicate Valid()
      reads this, entries
    {
      && count <= entries.Length
      && (forall k :: count <= k < entries.Length ==> entries[k] == BLANK_ENTRY)
    }

    ghost function View(): seq<Entry>
      requires Valid()
      reads this, entries
    {
      entries[..count]
    }

    /** delay_queue_init. */
    constructor (tasks: TaskTable, sems: SemaphoreTable)
      ensures Valid() && View() == [] && fresh(entries) && entries.Length == tasks.slots.Length
      ensures this.tasks == tasks && this.sems == sems
    {
      entries := new Entry[tasks.slots.Length](_ => BLANK_ENTRY);
      count := 0;
      this.tasks := tasks;
      this.sems := sems;
    }

    /** delay_queue_find_index_by_task_id. */
    method FindIndex(id: int) returns (k: int)
      requires Valid()
      ensures k < 0 <==> id !in Ids(View())
      ensures k >= 0 ==> k == Position(Ids(View()), id)
    {
      k := 0;
      while k < count
        invariant 0 <= k <= count
        invariant forall j :: 0 <= j < k ==> entries[j].id != id
      {
        if entries[k].id == id {
          assert Ids(View())[k] == id;
          return k;
        }
        k := k + 1;
      }
      assert forall j :: 0 <= j < count ==> Ids(View())[j] == entries[j].id;
      k := -1;
    }

    /** delay_queue_can_enqueue. */
    method CanEnqueue(id: int) returns (r: int)
      requires Valid()
      ensures r == if id <= 0 then DELAY_QUEUE_ERR_INVAL
                   else if id in Ids(View()) then DELAY_QUEUE_ERR_DUPLICATE
                   else if |View()| >= entries.Length then DELAY_QUEUE_ERR_FULL
                   else DELAY_QUEUE_OK
    {
      if id <= 0 {
        return DELAY_QUEUE_ERR_INVAL;
      }
      var k := FindIndex(id);
      if k >= 0 {
        return DELAY_QUEUE_ERR_DUPLICATE;
      }
      if count >= entries.Length {
        return DELAY_QUEUE_ERR_FULL;
      }
      r := DELAY_QUEUE_OK;
    }

    /** delay_queue_enqueue. */
    method Enqueue(id: int, n: Ticks) returns (r: int)
      requires Valid()
      modifies `count, entries
      ensures Valid()
      ensures
        var d, i := old(View()), Find(old(tasks.slots[..]), id);
        if n == 0 || i < 0 then r == DELAY_QUEUE_ERR_INVAL && View() == d
        else if !Timed(old(tasks.slots[..])[i]) then r == DELAY_QUEUE_ERR_TASK_STATE && View() == d
        else if id in Ids(d) then r == DELAY_QUEUE_ERR_DUPLICATE && View() == d
        else if |d| >= entries.Length then r == DELAY_QUEUE_ERR_FULL && View() == d
        else r == DELAY_QUEUE_OK && View() == d + [Entry(id, n)]
    {
      var i := tasks.GetById(id);
      if n == 0 || i < 0 {
        return DELAY_QUEUE_ERR_INVAL;
      }
      var t := tasks.slots[i];
      if t.state != Waiting || (t.reason != OnDelay && t.reason != OnSemaphoreTimeout) {
        return DELAY_QUEUE_ERR_TASK_STATE;
      }
      r := CanEnqueue(id);
      if r == DELAY_QUEUE_ERR_FULL {
        return r;
      }
      if r == DELAY_QUEUE_ERR_DUPLICATE {
        return r;
      }
      if r != DELAY_QUEUE_OK {
        return r;
      }
      entries[count] := Entry(id, n);
      count := count + 1;
      r := DELAY_QUEUE_OK;
    }

    /** delay_queue_remove_at: the entries behind move up by one. */
    method RemoveAt(index: nat)
      requires Valid() && index < count
      modifies `count, entries
      ensures Valid() && View() == old(View())[..index] + old(View())[index + 1..]
    {
      ghost var d := View();
      for k := index to count - 1
        invariant forall j :: 0 <= j < index ==> entries[j] == d[j]
        invariant forall j :: index <= j < k ==> entries[j] == d[j + 1]
        invariant forall j :: k <= j < count ==> entries[j] == d[j]
        invariant forall j :: count <= j < entries.Length ==> entries[j] == BLANK_ENTRY
        modifies entries
      {
        entries[k] := entries[k + 1];
      }
      if count > 0 {
        entries[count - 1] := BLANK_ENTRY;
        count := count - 1;
      }
    }

    /** delay_queue_remove_sem_timeout_waiter. */
    method RemoveSemTimeoutWaiter(id: int) returns (r: int)
      requires Valid()
      modifies `count, entries
      ensures Valid()
      ensures
        var d, i := old(View()), Find(old(tasks.slots[..]), id);
        if i < 0 then r == DELAY_QUEUE_ERR_INVAL && View() == d
        else if !(old(tasks.slots[..])[i].state == Waiting && old(tasks.slots[..])[i].reason == OnSemaphoreTimeout)
        then r == DELAY_QUEUE_ERR_TASK_STATE && View() == d
        else if id !in Ids(d) then r == DELAY_QUEUE_ERR_INVAL && View() == d
        else r == DELAY_QUEUE_OK && View() == WithoutEntry(d, id)
    {
      var i := tasks.GetById(id);
      if id <= 0 || i < 0 {
        return DELAY_QUEUE_ERR_INVAL;
      }
      var t := tasks.slots[i];
      if t.state != Waiting || t.reason != OnSemaphoreTimeout {
        return DELAY_QUEUE_ERR_TASK_STATE;
      }
      var k := FindIndex(id);
      if k < 0 {
        return DELAY_QUEUE_ERR_INVAL;
      }
      RemoveAt(k);
      r := DELAY_QUEUE_OK;
    }

    // ----- the tick -------------------------------------------------------

    /** What ties the stores to the value k of the kernel. */
    ghost predicate Shows(k: Kernel)
      reads this, entries, tasks.slots, sems, sems.Repr
    {
      && Valid() && sems.Valid() && sems.tasks == tasks && entries.Length == tasks.slots.Length
      && this as object !in sems.Repr && entries as object !in sems.Repr
      && tasks.slots[..] == k.tasks && sems.View() == k.sems && View() == k.delay
    }

    /** The wake-up of a task whose time is up. */
    method Expire(i: nat, ghost a: Kernel)
      requires IsSlot(a, i) && tasks.slots[..] == a.tasks && tasks.slots !in sems.Repr
      requires sems.Valid() && sems.View() == a.sems && sems.tasks == tasks
      modifies tasks.slots, sems.Repr
      ensures sems.Valid() && sems.View() == Expired(a, i).sems && sems.nextId == old(sems.nextId)
      ensures tasks.slots[..] == Expired(a, i).tasks
    {
      hide FindSem;
      hide AfterMove;
      var t := tasks.slots[i];
      var reason := t.reason;
      if reason == OnSemaphoreTimeout {
        var r := sems.RemoveWaiter(t.waitSem, t.id);
        if r == SEM_OK {
          var _ := tasks.WakeWaitingOnSemTimeoutById(t.id, t.waitSem);
        }
      } else if reason == OnDelay {
        var _ := tasks.WakeWaitingOnDelayById(t.id);
      }
    }

    /** The body of the loop of delay_queue_tick.  An entry that stays is stepped over;
        an entry that goes leaves the index on the entry that moved up. */
    method TickEntry(index: nat, ghost a: Kernel) returns (stays: bool)
      requires Shows(a) && index < |a.delay|
      modifies `count, entries, tasks.slots, sems.Repr
      ensures Shows(Pass(a, index)) && sems.nextId == old(sems.nextId)
      ensures stays == (a.delay[index].remaining > 1)
    {
      hide Find;
      hide Expired;
      var entry := entries[index];
      assert entry == a.delay[index];
      var i := tasks.GetById(entry.id);
      var before := entry.remaining;
      var after := if before > 0 then before - 1 else 0;
      entries[index] := entry.(remaining := after);
      ghost var d := View();
      assert d == a.delay[index := Entry(entry.id, after)];
      if i >= 0 {
        tasks.slots[i] := tasks.slots[i].(remaining := after);
      }
      if after > 0 {
        return true;
      }
      if i >= 0 {
        Expire(i, a.(tasks := tasks.slots[..]));
      }
      RemoveAt(index);
      assert d[..index] == a.delay[..index] && d[index + 1..] == a.delay[index + 1..];
      stays := false;
    }

    /** delay_queue_tick: it removes entries from the array it walks over, and edits the task
        table and the semaphore queues on the way.  It returns the number of removed entries. */
    method Tick(ghost k: Kernel) returns (expired: nat)
      requires Shows(k)
      modifies `count, entries, tasks.slots, sems.Repr
      ensures Shows(WalkFrom(k, 0).0) && sems.nextId == old(sems.nextId)
      ensures expired == WalkFrom(k, 0).1
    {
      hide Pass;
      var index := 0;
      expired := 0;
      ghost var walked := k;
      while index < count
        invariant index <= count && Shows(walked) && sems.nextId == old(sems.nextId)
        invariant WalkFrom(k, 0).0 == WalkFrom(walked, index).0
        invariant WalkFrom(k, 0).1 == expired + WalkFrom(walked, index).1
        decreases count - index
      {
        var stays := TickEntry(index, walked);
        walked := Pass(walked, index);
        if stays {
          index := index + 1;
        } else {
          expired := expired + 1;
        }
      }
    }
  }
}
