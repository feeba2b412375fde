/** kernel/semaphore.c: the static semaphore table. */
module Semaphores {
  import opened KernelTypes
  import opened Lists
  import opened TaskModel
  import opened KernelSpec
  import opened Rings
  import opened TaskTables

  /** semaphore_t: a counter and a circular FIFO of task ids. */
  class Semaphore {
    var id: int
    var count: int
    var max: int
    const queue: array<int>
    var head: nat
    var tail: nat
    var waitCount: nat

    constructor (maxTasks: nat)
      requires maxTasks > 0
      ensures Valid() && fresh(queue) && queue.Length == maxTasks
      ensures View() == BLANK_SEM
    {
      queue := new int[maxTasks](_ => 0);
      id, count, max := 0, 0, 0;
      head, tail, waitCount := 0, 0, 0;
    }

    ghost predicate Valid()
      reads this, queue
    {
      && 0 < queue.Length && head < queue.Length && waitCount <= queue.Length
      && tail == Slot(head, waitCount, queue.Length)
      && Blank(queue[..], head, waitCount)
    }

    ghost function Waiters(): (w: seq<int>)
      requires Valid()
      reads this, queue
      ensures |w| == waitCount
    {
      Window(queue[..], head, waitCount)
    }

    ghost function View(): Sem
      requires Valid()
      reads this, queue
    {
      Sem(id, count, max, Waiters())
    }

    /** sem_reset_wait_queue. */
    method ResetWaitQueue()
      requires 0 < queue.Length
      modifies `head, `tail, `waitCount, queue
      ensures Valid() && Waiters() == []
    {
      for i := 0 to queue.Length
        invariant forall j :: 0 <= j < i ==> queue[j] == 0
      {
        queue[i] := 0;
      }
      head, tail, waitCount := 0, 0, 0;
    }

    /** The stores of sem_enqueue_waiter. */
    method Push(taskId: int)
      requires Valid() && waitCount < queue.Length
      modifies this, queue
      ensures Valid() && View() == old(View()).(waiters := old(Waiters()) + [taskId])
    {
      WindowPush(queue[..], head, waitCount, taskId);
      ghost var before := queue[..];
      queue[tail] := taskId;
      assert queue[..] == before[tail := taskId];
      tail := Slot(tail, 1, queue.Length);
      waitCount := waitCount + 1;
    }

    /** The stores of sem_dequeue_waiter. */
    method Pop() returns (taskId: int)
      requires Valid() && waitCount > 0
      modifies this, queue
      ensures Valid() && taskId == old(Waiters())[0]
      ensures View() == old(View()).(waiters := old(Waiters())[1..])
    {
      WindowPop(queue[..], head, waitCount);
      ghost var before := queue[..];
      taskId := queue[head];
      queue[head] := 0;
      assert queue[..] == before[head := 0];
      head := Slot(head, 1, queue.Length);
      waitCount := waitCount - 1;
    }

    /** The reading half of sem_remove_waiter: everyone but the task, in queue order. */
    method CopyOthers(taskId: int, kept: array<int>) returns (keptCount: nat, removed: bool)
      requires Valid() && kept != queue && kept.Length == queue.Length
      modifies kept
      ensures removed == (taskId in Waiters())
      ensures keptCount <= waitCount && kept[..keptCount] == Without(Waiters(), taskId)
    {
      hide Window;
      ghost var waiters := Waiters();
      assert Without(waiters[..0], taskId) == [];
      hide Without;
      keptCount, removed := 0, false;
      for i := 0 to waitCount
        invariant keptCount == if removed then i - 1 else i
        invariant removed == (taskId in waiters[..i])
        invariant kept[..keptCount] == Without(waiters[..i], taskId)
      {
        var queued := queue[Slot(head, i, queue.Length)];
        assert waiters[..i + 1] == waiters[..i] + [queued];
        WithoutPush(waiters[..i], queued, taskId);
        if !removed && queued == taskId {
          removed := true;
          continue;
        }
        kept[keptCount] := queued;
        keptCount := keptCount + 1;
        assert kept[..keptCount] == kept[..keptCount - 1] + [queued];
      }
      assert waiters[..waitCount] == waiters;
    }

    /** The writing half of sem_remove_waiter: the queue starts again at slot 0. */
    method Rebuild(kept: array<int>, keptCount: nat)
      requires 0 < queue.Length == kept.Length && kept != queue && keptCount < queue.Length
      modifies `head, `tail, `waitCount, queue
      ensures Valid() && Waiters() == kept[..keptCount] && head == 0
    {
      for i := 0 to queue.Length
        invariant forall j :: 0 <= j < i ==> queue[j] == 0
      {
        queue[i] := 0;
      }
      head, tail, waitCount := 0, Slot(0, keptCount, queue.Length), keptCount;
      for i := 0 to keptCount
        invariant forall j :: 0 <= j < i ==> queue[j] == kept[j]
        invariant forall j :: keptCount <= j < queue.Length ==> queue[j] == 0
        modifies queue
      {
        queue[i] := kept[i];
      }
    }

    /** The queue half of sem_remove_waiter: the others keep their order, whatever the wrap-around. */
    method Remove(taskId: int) returns (removed: bool)
      requires Valid()
      modifies `head, `tail, `waitCount, queue
      ensures Valid() && removed == (taskId in old(Waiters()))
      ensures Waiters() == Without(old(Waiters()), taskId)
      ensures removed ==> head == 0
      ensures !removed ==> unchanged(this) && unchanged(queue)
    {
      removed := false;
      if waitCount > 0 {
        var kept := new int[queue.Length];
        var keptCount: nat;
        keptCount, removed := CopyOthers(taskId, kept);
        if removed {
          Rebuild(kept, keptCount);
        }
      }
    }
  }

  /** How Without reads one more element. */
  lemma {:induction false} WithoutPush(q: seq<int>, y: int, x: int)
    ensures Without(q + [y], x) ==
            if x !in q && y == x then Without(q, x) else Without(q, x) + [y]
  {
    if q == [] {
      assert q + [y] == [y];
      assert [y][1..] == [];
    } else if q[0] == x {
      assert (q + [y])[1..] == q[1..] + [y];
    } else {
      assert (q + [y])[1..] == q[1..] + [y];
      WithoutPush(q[1..], y, x);
    }
  }

  /** The statically allocated semaphores. */
  method NewSemaphores(maxTasks: nat, n: nat) returns (sems: seq<Semaphore>)
    requires maxTasks > 0
    ensures |sems| == n
    ensures forall i :: 0 <= i < n ==> fresh(sems[i]) && fresh(sems[i].queue)
    ensures forall i :: 0 <= i < n ==> sems[i].Valid() && sems[i].queue.Length == maxTasks
    ensures forall i :: 0 <= i < n ==> sems[i].View() == BLANK_SEM
    ensures forall i, j :: 0 <= i < j < n ==> sems[i] != sems[j] && sems[i].queue != sems[j].queue
  {
    sems := [];
    for s := 0 to n
      invariant |sems| == s
      invariant forall i :: 0 <= i < s ==> fresh(sems[i]) && fresh(sems[i].queue)
      invariant forall i :: 0 <= i < s ==> sems[i].Valid() && sems[i].queue.Length == maxTasks
      invariant forall i :: 0 <= i < s ==> sems[i].View() == BLANK_SEM
      invariant forall i, j :: 0 <= i < j < s ==> sems[i] != sems[j] && sems[i].queue != sems[j].queue
    {
      var sem := new Semaphore(maxTasks);
      sems := sems + [sem];
    }
  }

  class SemaphoreTable {
    const table: seq<Semaphore>
    const tasks: TaskTable
    const maxTasks: nat
    var nextId: int
    ghost const Repr: set<object>

    ghost predicate Valid()
      reads this, Repr
    {
      && this in Repr && tasks !in Repr && tasks.slots !in Repr
      && (forall s :: 0 <= s < |table| ==> table[s] in Repr && table[s].queue in Repr)
      && (forall s :: 0 <= s < |table| ==> table[s].Valid() && table[s].queue.Length == maxTasks)
      && (forall s, r :: 0 <= s < r < |table| ==> table[s] != table[r] && table[s].queue != table[r].queue)
    }

    ghost function View(): (v: seq<Sem>)
      requires Valid()
      reads this, Repr
      ensures |v| == |table|
      ensures forall s :: 0 <= s < |table| ==> v[s] == table[s].View()
    {
      seq(|table|, s requires 0 <= s < |table| reads this, Repr requires Valid() => table[s].View())
    }

    /** sem_init. */
    constructor (tasks: TaskTable, maxSems: nat)
      requires tasks.slots.Length > 0
      ensures Valid() && fresh(Repr) && this.tasks == tasks && maxTasks == tasks.slots.Length
      ensures View() == seq(maxSems, _ => BLANK_SEM) && nextId == 1
    {
      hide Window;
      hide Blank;
      var sems := NewSemaphores(tasks.slots.Length, maxSems);
      table := sems;
      this.tasks := tasks;
      maxTasks := tasks.slots.Length;
      nextId := 1;
      Repr := {this} + (set s: object | s in sems) + (set s: Semaphore | s in sems :: s.queue as object);
    }

    /** What the table looks like when one semaphore changes and the others do not. */
    twostate lemma OneChanged(s: nat)
      requires old(Valid()) && Valid() && s < |table|
      requires forall r :: 0 <= r < |table| && r != s ==> unchanged(table[r]) && unchanged(table[r].queue)
      ensures View() == old(View())[s := table[s].View()]
    {
    }

    /** find_semaphore_by_id and sem_get_by_id. */
    method GetById(semId: int) returns (s: int)
      requires Valid()
      ensures s == FindSem(View(), semId)
    {
      if semId <= 0 {
        return NULL_SLOT;
      }
      s := 0;
      while s < |table|
        invariant 0 <= s <= |table|
        invariant FindSemFrom(View(), semId, 0) == FindSemFrom(View(), semId, s)
      {
        if table[s].id == semId {
          return s;
        }
        s := s + 1;
      }
      s := NULL_SLOT;
    }

    /** find_free_semaphore_slot. */
    method FindFreeSlot() returns (s: int)
      requires Valid()
      ensures s == FreeSem(View())
    {
      s := 0;
      while s < |table|
        invariant 0 <= s <= |table|
        invariant FindSemFrom(View(), 0, 0) == FindSemFrom(View(), 0, s)
      {
        if table[s].id == 0 {
          return s;
        }
        s := s + 1;
      }
      s := NULL_SLOT;
    }

    /** allocate_sem_id. */
    method AllocateId() returns (id: int)
      requires Valid()
      modifies `nextId
      ensures Valid() && View() == old(View())
      ensures old(nextId) <= 0 || old(nextId) >= ID_MAX ==> id == SEM_ERR_OVERFLOW && nextId == old(nextId)
      ensures 0 < old(nextId) < ID_MAX ==> id == old(nextId) && nextId == id + 1
    {
      if nextId <= 0 || nextId >= ID_MAX {
        return SEM_ERR_OVERFLOW;
      }
      id := nextId;
      nextId := nextId + 1;
    }

    /** sem_create. */
    method Create(name: Address, initial: int, max: int) returns (id: int)
      requires Valid()
      modifies Repr
      ensures Valid()
      ensures
        var v, next := old(View()), old(nextId);
        if name == 0 || initial < 0 || max <= 0 || initial > max then
          id == SEM_ERR_INVAL && View() == v && nextId == next
        else if FreeSem(v) < 0 then id == SEM_ERR_FULL && View() == v && nextId == next
        else if next <= 0 || next >= ID_MAX then id == SEM_ERR_OVERFLOW && View() == v && nextId == next
        else id == next && View() == v[FreeSem(v) := Sem(id, initial, max, [])] && nextId == next + 1
    {
      hide Window;
      hide Blank;
      hide FindSem;
      hide FreeSem;
      hide Find;
      if name == 0 || initial < 0 || max <= 0 || initial > max {
        return SEM_ERR_INVAL;
      }
      var s := FindFreeSlot();
      if s < 0 {
        return SEM_ERR_FULL;
      }
      id := AllocateId();
      if id < 0 {
        return id;
      }
      table[s].id := id;
      table[s].count := initial;
      table[s].max := max;
      table[s].ResetWaitQueue();
      OneChanged(s);
    }

    /** sem_take_if_available. */
    method TakeIfAvailable(semId: int) returns (r: int)
      requires Valid()
      modifies Repr
      ensures Valid() && nextId == old(nextId)
      ensures
        var v := old(View());
        var s := FindSem(v, semId);
        if s < 0 then r == SEM_ERR_INVAL && View() == v
        else if v[s].count > 0 then r == SEM_OK && View() == v[s := v[s].(count := v[s].count - 1)]
        else r == SEM_WAIT_REQUIRED && View() == v
    {
      hide FindSem;
      hide FreeSem;
      hide Find;
      var s := GetById(semId);
      if s < 0 {
        return SEM_ERR_INVAL;
      }
      if table[s].count > 0 {
        table[s].count := table[s].count - 1;
        OneChanged(s);
        return SEM_OK;
      }
      r := SEM_WAIT_REQUIRED;
    }

    /** sem_increment_count. */
    method IncrementCount(semId: int) returns (r: int)
      requires Valid()
      modifies Repr
      ensures Valid() && nextId == old(nextId)
      ensures
        var v := old(View());
        var s := FindSem(v, semId);
        if s < 0 then r == SEM_ERR_INVAL && View() == v
        else if v[s].count >= v[s].max then r == SEM_ERR_OVERFLOW && View() == v
        else r == SEM_OK && View() == v[s := v[s].(count := v[s].count + 1)]
    {
      hide FindSem;
      hide FreeSem;
      hide Find;
      var s := GetById(semId);
      if s < 0 {
        return SEM_ERR_INVAL;
      }
      if table[s].count >= table[s].max {
        return SEM_ERR_OVERFLOW;
      }
      table[s].count := table[s].count + 1;
      OneChanged(s);
      r := SEM_OK;
    }

    /** sem_can_enqueue_waiter. */
    method CanEnqueueWaiter(semId: int, taskId: int) returns (r: int)
      requires Valid()
      ensures
        var s := FindSem(View(), semId);
        r == if s < 0 || taskId <= 0 then SEM_ERR_INVAL
             else if |View()[s].waiters| >= maxTasks then SEM_ERR_OVERFLOW
             else SEM_OK
    {
      hide FindSem;
      hide FreeSem;
      hide Find;
      var s := GetById(semId);
      if s < 0 || taskId <= 0 {
        return SEM_ERR_INVAL;
      }
      if table[s].waitCount >= maxTasks {
        return SEM_ERR_OVERFLOW;
      }
      r := SEM_OK;
    }

    /** sem_enqueue_waiter. */
    method EnqueueWaiter(semId: int, taskId: int) returns (r: int)
      requires Valid()
      modifies Repr
      ensures Valid() && nextId == old(nextId)
      ensures
        var v := old(View());
        var s, i := FindSem(v, semId), Find(tasks.slots[..], taskId);
        if s < 0 || i < 0 then r == SEM_ERR_INVAL && View() == v
        else if !WaitsOn(tasks.slots[i], semId) then r == SEM_ERR_TASK && View() == v
        else if |v[s].waiters| >= maxTasks then r == SEM_ERR_OVERFLOW && View() == v
        else r == SEM_OK && View() == v[s := v[s].(waiters := v[s].waiters + [taskId])]
    {
      hide Window;
      hide Blank;
      hide FindSem;
      hide FreeSem;
      hide Find;
      var s := GetById(semId);
      var i := tasks.GetById(taskId);
      if s < 0 || i < 0 || taskId <= 0 {
        return SEM_ERR_INVAL;
      }
      var t := tasks.slots[i];
      if t.state != Waiting || (t.reason != OnSemaphore && t.reason != OnSemaphoreTimeout) ||
         t.waitSem != semId {
        return SEM_ERR_TASK;
      }
      if table[s].waitCount >= maxTasks {
        return SEM_ERR_OVERFLOW;
      }
      table[s].Push(taskId);
      OneChanged(s);
      r := SEM_OK;
    }

    /** sem_dequeue_waiter. */
    method DequeueWaiter(semId: int) returns (r: int, taskId: int)
      requires Valid()
      modifies Repr
      ensures Valid() && nextId == old(nextId)
      ensures
        var v := old(View());
        var s := FindSem(v, semId);
        if s < 0 then r == SEM_ERR_INVAL && View() == v
        else if |v[s].waiters| == 0 then r == SEM_WAIT_QUEUE_EMPTY && View() == v
        else
          && r == SEM_OK && taskId == v[s].waiters[0]
          && View() == v[s := v[s].(waiters := v[s].waiters[1..])]
    {
      hide Window;
      hide Blank;
      hide FindSem;
      hide FreeSem;
      hide Find;
      taskId := 0;
      var s := GetById(semId);
      if s < 0 {
        return SEM_ERR_INVAL, taskId;
      }
      if table[s].waitCount <= 0 {
        return SEM_WAIT_QUEUE_EMPTY, taskId;
      }
      taskId := table[s].Pop();
      OneChanged(s);
      r := SEM_OK;
    }

    /** sem_remove_waiter. */
    method RemoveWaiter(semId: int, taskId: int) returns (r: int)
      requires Valid()
      modifies Repr
      ensures Valid() && nextId == old(nextId)
      ensures
        var v := old(View());
        var s := FindSem(v, semId);
        if s < 0 || taskId <= 0 then r == SEM_ERR_INVAL && View() == v
        else if taskId !in v[s].waiters then r == SEM_WAIT_QUEUE_EMPTY && View() == v
        else r == SEM_OK && View() == v[s := v[s].(waiters := Without(v[s].waiters, taskId))]
    {
      hide Without;
      hide FindSem;
      hide FreeSem;
      hide Find;
      var s := GetById(semId);
      if s < 0 || taskId <= 0 {
        return SEM_ERR_INVAL;
      }
      if table[s].waitCount <= 0 {
        return SEM_WAIT_QUEUE_EMPTY;
      }
      var removed := table[s].Remove(taskId);
      OneChanged(s);
      r := if removed then SEM_OK else SEM_WAIT_QUEUE_EMPTY;
    }
  }
}
