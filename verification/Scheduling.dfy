/**
 The scheduler and the wait queue (src/kernel/sched/mod.rs, wait.rs): a fixed table of tasks, the
 index of the running one, and who is next.
*/
module Scheduling {
  import opened Wrappers
  import opened Heap
  import opened Accounts
  import opened Tasks

  const TASKS_COUNT: nat := 4
  const BOOT_TASK_ID: nat := 0
  const IDLE_TASK_ID: nat := 1

  type Table = seq<Option<Task>>

  // ----- What the operations compute

  predicate IsReady(slot: Option<Task>) {
    slot.Some? && slot.value.state == Ready
  }

  predicate IsDead(slot: Option<Task>) {
    slot.Some? && slot.value.state == Dead
  }

  predicate IsBlocked(slot: Option<Task>) {
    slot.Some? && slot.value.state == Blocked
  }

  /** A slot the picker may choose: ready, and not the idle task. */
  predicate Pickable(slot: Option<Task>) {
    IsReady(slot) && slot.value.id != IDLE_TASK_ID
  }

  /** The table without dead tasks, except the running one. */
  function Pruned(table: Table, current: nat): (t: Table)
    ensures |t| == |table|
  {
    seq(|table|, i requires 0 <= i < |table| => if IsDead(table[i]) && i != current then None else table[i])
  }

  /** Stacks that pruning gives back. */
  ghost function Reaped(table: Table, current: nat): set<nat> {
    set i | 0 <= i < |table| && i != current && IsDead(table[i]) && table[i].value.stack.Some? ::
      table[i].value.stack.value
  }

  function Ahead(current: nat, i: nat): (idx: nat)
    ensures idx < TASKS_COUNT
  {
    (current + i + 1) % TASKS_COUNT
  }

  /** The slot chosen: the first pickable one after `current`, wrapping, and `current` itself last. */
  ghost predicate IsNext(table: Table, current: nat, r: Option<nat>)
    requires |table| == TASKS_COUNT
  {
    match r
    case None => forall i: nat | i < TASKS_COUNT :: !Pickable(table[i])
    case Some(n) =>
      n < TASKS_COUNT && Pickable(table[n])
      && forall i: nat | i < Turns(current, n) :: !Pickable(table[Ahead(current, i)])
  }

  ghost function Able(table: Table): set<nat> {
    set i: nat | i < |table| && table[i].Some? && table[i].value.state == Ready && table[i].value.id != IDLE_TASK_ID
  }

  /** The same in terms of how far round the table each ready task is, the running one furthest. */
  ghost predicate IsNearest(table: Table, current: nat, r: Option<nat>)
    requires |table| == TASKS_COUNT
  {
    var able := Able(table);
    match r
    case None => able == {}
    case Some(n) =>
      n in able && forall i | i in able :: (n - current - 1) % TASKS_COUNT <= (i - current - 1) % TASKS_COUNT
  }

  lemma NextIsNearest(table: Table, current: nat, r: Option<nat>)
    requires |table| == TASKS_COUNT && current < TASKS_COUNT
    ensures IsNext(table, current, r) <==> IsNearest(table, current, r)
  {
    forall i: nat
      ensures i in Able(table) <==> i < TASKS_COUNT && Pickable(table[i])
      ensures i < TASKS_COUNT ==> Turns(current, i) == (i - current - 1) % TASKS_COUNT
    {
    }
    if r.Some? && r.value < TASKS_COUNT {
      FirstIsNearest(table, current, r.value);
    }
    hide Able, Pickable, Turns, Ahead;
    assert Able(table) == {} <==> forall i: nat | i < TASKS_COUNT :: i !in Able(table);
  }

  lemma FirstIsNearest(table: Table, current: nat, n: nat)
    requires |table| == TASKS_COUNT && current < TASKS_COUNT && n < TASKS_COUNT
    ensures (forall i: nat | i < Turns(current, n) :: !Pickable(table[Ahead(current, i)])) <==>
            forall i: nat | i < TASKS_COUNT && Pickable(table[i]) :: Turns(current, n) <= Turns(current, i)
  {
    hide Pickable;
    forall i: nat | i < TASKS_COUNT
      ensures Turns(current, Ahead(current, i)) == i && Ahead(current, Turns(current, i)) == i
    {
      AheadTurns(current, i);
      TurnsAhead(current, i);
    }
  }

  /** How many slots lie strictly between `current` and `n`, going forward. */
  function Turns(current: nat, n: nat): (d: nat)
    ensures d < TASKS_COUNT
  {
    (n + TASKS_COUNT - 1 - current % TASKS_COUNT) % TASKS_COUNT
  }

  lemma AheadTurns(current: nat, i: nat)
    requires current < TASKS_COUNT && i < TASKS_COUNT
    ensures Turns(current, Ahead(current, i)) == i
  {
  }

  lemma TurnsAhead(current: nat, n: nat)
    requires current < TASKS_COUNT && n < TASKS_COUNT
    ensures Ahead(current, Turns(current, n)) == n
    ensures Turns(current, n) == TASKS_COUNT - 1 <==> n == current
  {
  }

  /** Tasks with the named slots woken. */
  function Woken(table: Table, waiters: set<nat>): (t: Table)
    ensures |t| == |table|
  {
    seq(|table|, i requires 0 <= i < |table| =>
      if i in waiters && table[i].Some? then Some(table[i].value.(state := Ready)) else table[i])
  }

  function WithState(table: Table, i: nat, state: State): (t: Table)
    requires i < |table| && table[i].Some?
    ensures |t| == |table|
  {
    table[i := Some(table[i].value.(state := state))]
  }

  // ----- What every operation keeps

  /** Slot `i` holds task `i`; the running task is there; idle is there and ready. */
  ghost predicate TableOk(table: Table, current: nat) {
    && |table| == TASKS_COUNT && current < TASKS_COUNT
    && (forall i | 0 <= i < TASKS_COUNT && table[i].Some? :: table[i].value.id == i)
    && table[current].Some?
    && IsReady(table[IDLE_TASK_ID])
  }

  /** Every task's stack is memory it holds, no two share one, and only the boot task may do without. */
  ghost predicate StacksHeld(table: Table, live: Live) {
    && (forall i | 0 <= i < |table| && table[i].Some? && table[i].value.stack.None? :: i == BOOT_TASK_ID)
    && (forall i | 0 <= i < |table| && table[i].Some? && table[i].value.stack.Some? ::
          table[i].value.stack.value in live && live[table[i].value.stack.value] == CONTEXT_STACK_LAYOUT)
    && (forall i, j | 0 <= i < j < |table| && table[i].Some? && table[j].Some? && table[i].value.stack.Some? ::
          table[i].value.stack != table[j].value.stack)
  }

  class Scheduler {
    const tasks: array<Option<Task>>
    var current: nat

    /** `NEED_RESCHEDULE`. */
    var needReschedule: bool

    ghost predicate Valid()
      reads this, tasks
    {
      TableOk(tasks[..], current)
    }

    /** The table once `init` has adopted the boot task and made the idle task; none without memory. */
    static method Init(heap: Heap, idle: Word, trampoline: Word) returns (s: Option<Scheduler>)
      requires heap.Valid()
      modifies heap`live, heap.cache, heap.frames, heap.frames.lists, heap.ram
      ensures heap.Valid() && KeepsData(old(heap.ram.words), heap.ram.words, old(heap.live))
      ensures OnlyManaged(old(heap.ram.words), heap.ram.words, heap.pages.table, heap.start)
      ensures s.None? <==> CannotServe(old(heap.cache.slabs), old(heap.frames.owner), CONTEXT_STACK_LAYOUT)
      ensures s.Some? ==>
                && fresh(s.value) && fresh(s.value.tasks) && s.value.Valid() && StacksHeld(s.value.tasks[..], heap.live)
                && s.value.current == BOOT_TASK_ID && !s.value.needReschedule
                && s.value.tasks[BOOT_TASK_ID] == Some(Task(BOOT_TASK_ID, 0, None, 0, Ready))
                && (forall i | 0 <= i < TASKS_COUNT ::
                      s.value.tasks[i].Some? <==> i == BOOT_TASK_ID || i == IDLE_TASK_ID)
                && var t := s.value.tasks[IDLE_TASK_ID].value;
                && t.ticks == 0 && t.state == Ready && t.stack.Some? && t.stack.value !in old(heap.live)
                && heap.live == old(heap.live)[t.stack.value := CONTEXT_STACK_LAYOUT]
                && t.sp + SWITCH_FRAME_SIZE == t.stack.value + CONTEXT_STACK_SIZE
                && t.sp / 8 + SAVED <= |heap.ram.words| && FrameAt(heap.ram.words, t.sp) == Forged(idle, trampoline)
    {
      hide Heap.Valid, KeepsData, FrameAt, Forged, CannotServe, OnlyManaged;
      var made := new Scheduler();
      made.tasks[BOOT_TASK_ID] := Some(BootTask(BOOT_TASK_ID));
      var task := NewTask(heap, IDLE_TASK_ID, idle, trampoline);
      if task == None {
        return None;
      }
      made.tasks[IDLE_TASK_ID] := task;
      return Some(made);
    }

    constructor ()
      ensures fresh(tasks) && tasks.Length == TASKS_COUNT && current == 0 && !needReschedule
      ensures forall i | 0 <= i < TASKS_COUNT :: tasks[i] == None
    {
      tasks := new Option<Task>[TASKS_COUNT](_ => None);
      current := 0;
      needReschedule := false;
    }

    /** Empties the slots of dead tasks that are not running, and gives their stacks back. */
    method Prune(heap: Heap)
      requires tasks.Length == TASKS_COUNT && heap.Valid() && StacksHeld(tasks[..], heap.live)
      modifies tasks, heap`live, heap.cache, heap.frames, heap.frames.lists, heap.ram
      ensures forall i | 0 <= i < TASKS_COUNT ::
                tasks[i] == if i != current && old(tasks[i]).Some? && old(tasks[i]).value.state == Dead then None
                            else old(tasks[i])
      ensures heap.live.Keys == old(heap.live.Keys) - set i | 0 <= i < TASKS_COUNT && i != current &&
                  old(tasks[i]).Some? && old(tasks[i]).value.state == Dead && old(tasks[i]).value.stack.Some? ::
                  old(tasks[i]).value.stack.value
      ensures tasks[..] == Pruned(old(tasks[..]), current)
      ensures heap.Valid() && heap.live == old(heap.live) - Reaped(old(tasks[..]), current)
      ensures StacksHeld(tasks[..], heap.live) && KeepsData(old(heap.ram.words), heap.ram.words, heap.live)
    {
      hide Heap.Valid, KeepsData, Pruned, Reaped, StacksHeld;
      ghost var table, live, w := tasks[..], heap.live, heap.ram.words;
      PruneStart(table, live, current);
      HeapAtRest(heap);
      var i := 0;
      while i < TASKS_COUNT
        invariant i <= TASKS_COUNT && heap.Valid()
        invariant tasks[..] == PrunedTo(table, current, i)
        invariant heap.live == live - ReapedTo(table, current, i)
        invariant KeepsData(w, heap.ram.words, heap.live)
      {
        ghost var w1, live1 := heap.ram.words, heap.live;
        PruneStep(table, live, current, i);
        if tasks[i].Some? && tasks[i].value.state == Dead && i != current {
          var dropped := tasks[i].value.stack;
          tasks[i] := None;
          if dropped.Some? {
            heap.FreeLayout(dropped.value, CONTEXT_STACK_LAYOUT);
            FewerKept(w, w1, heap.ram.words, live1, heap.live);
          }
        }
        i := i + 1;
      }
      PruneEnd(table, live, current);
    }

    /** The first ready task after the running one, wrapping round to it; never the idle task. */
    method NextIdx() returns (r: Option<nat>)
      requires tasks.Length == TASKS_COUNT && current < TASKS_COUNT
      ensures IsNext(tasks[..], current, r) && IsNearest(tasks[..], current, r)
    {
      var i := 0;
      while i < TASKS_COUNT
        invariant i <= TASKS_COUNT
        invariant forall j: nat | j < i :: !Pickable(tasks[Ahead(current, j)])
      {
        var idx := (current + i + 1) % TASKS_COUNT;
        AheadTurns(current, i);
        if tasks[idx].Some? && tasks[idx].value.state == Ready && tasks[idx].value.id != IDLE_TASK_ID {
          NextIsNearest(tasks[..], current, Some(idx));
          return Some(idx);
        }
        i := i + 1;
      }
      forall n: nat | n < TASKS_COUNT
        ensures !Pickable(tasks[n])
      {
        TurnsAhead(current, n);
      }
      NextIsNearest(tasks[..], current, None);
      return None;
    }

    /** The first empty slot. */
    method FreeId() returns (r: Option<nat>)
      requires tasks.Length == TASKS_COUNT
      ensures r.None? ==> forall i | 0 <= i < TASKS_COUNT :: tasks[i].Some?
      ensures r.Some? ==>
                r.value < TASKS_COUNT && tasks[r.value] == None && forall i | 0 <= i < r.value :: tasks[i].Some?
    {
      var i := 0;
      while i < TASKS_COUNT
        invariant i <= TASKS_COUNT && forall j | 0 <= j < i :: tasks[j].Some?
      {
        if tasks[i] == None {
          return Some(i);
        }
        i := i + 1;
      }
      return None;
    }

    /** Puts a new ready task in the first empty slot, with that slot's number as its id. */
    method Spawn(heap: Heap, entry: Word, trampoline: Word) returns (r: Result<nat, SpawnError>)
      requires Valid() && heap.Valid() && StacksHeld(tasks[..], heap.live)
      modifies tasks, heap`live, heap.cache, heap.frames, heap.frames.lists, heap.ram
      ensures Valid() && heap.Valid() && StacksHeld(tasks[..], heap.live)
      ensures r.Ok? ==>
                && r.value < TASKS_COUNT && old(tasks[r.value]) == None && tasks[r.value].Some?
                && tasks[r.value].value.id == r.value && tasks[r.value].value.ticks == 0
                && tasks[r.value].value.state == Ready
                && (forall i | 0 <= i < r.value :: old(tasks[i]).Some?)
                && tasks[..] == old(tasks[..])[r.value := tasks[r.value]]
                && tasks[r.value].value.stack.Some? && tasks[r.value].value.stack.value !in old(heap.live)
                && heap.live == old(heap.live)[tasks[r.value].value.stack.value := CONTEXT_STACK_LAYOUT]
                && tasks[r.value].value.sp + SWITCH_FRAME_SIZE == tasks[r.value].value.stack.value + CONTEXT_STACK_SIZE
                && tasks[r.value].value.sp / 8 + SAVED <= |heap.ram.words|
                && FrameAt(heap.ram.words, tasks[r.value].value.sp) == Forged(entry, trampoline)
      ensures r.Err? ==> tasks[..] == old(tasks[..]) && heap.live == old(heap.live)
      ensures r == Err(RanOutOfIds) <==> forall i | 0 <= i < TASKS_COUNT :: old(tasks[i]).Some?
      ensures r == Err(RanOutOfMemory) <==>
                && (exists i :: 0 <= i < TASKS_COUNT && old(tasks[i]) == None)
                && CannotServe(old(heap.cache.slabs), old(heap.frames.owner), CONTEXT_STACK_LAYOUT)
      ensures KeepsData(old(heap.ram.words), heap.ram.words, old(heap.live))
      ensures OnlyManaged(old(heap.ram.words), heap.ram.words, heap.pages.table, heap.start)
    {
      hide Heap.Valid, KeepsData, FrameAt, Forged, CannotServe, OnlyManaged;
      HeapAtRest(heap);
      SameManaged(heap.ram.words, heap.pages.table, heap.start);
      var empty := FreeId();
      if empty == None {
        return Err(RanOutOfIds);
      }
      var idx := empty.value;
      ghost var table, live := tasks[..], heap.live;
      var task := NewTask(heap, idx, entry, trampoline);
      if task == None {
        return Err(RanOutOfMemory);
      }
      tasks[idx] := task;
      assert tasks[..] == table[idx := task];
      SpawnHeld(table, live, heap.live, idx, task.value);
      return Ok(idx);
    }

    /** A timer tick: somebody should run next, and the running task is charged for this one. */
    method Tick()
      requires Valid()
      modifies this`needReschedule, tasks
      ensures Valid() && needReschedule
      ensures var task := old(tasks[current]).value;
              tasks[..] == old(tasks[..])[current := Some(task.(ticks := task.ticks + 1))]
    {
      needReschedule := true;
      tasks[current] := Some(tasks[current].value.(ticks := tasks[current].value.ticks + 1));
    }

    /**
     The locked part of `schedule_inner`: reaps the dead, chooses who is next and makes it current. The
     result names the tasks to switch from and to; none when the running task goes on.
    */
    method Pick(heap: Heap) returns (switch: Option<(nat, nat)>)
      requires Valid() && heap.Valid() && StacksHeld(tasks[..], heap.live)
      modifies this`current, tasks, heap`live, heap.cache, heap.frames, heap.frames.lists, heap.ram
      ensures Valid() && heap.Valid() && StacksHeld(tasks[..], heap.live)
      ensures tasks[..] == Pruned(old(tasks[..]), old(current))
      ensures heap.live == old(heap.live) - Reaped(old(tasks[..]), old(current))
      ensures KeepsData(old(heap.ram.words), heap.ram.words, heap.live)
      ensures forall i | 0 <= i < TASKS_COUNT ::
                tasks[i] == if i != old(current) && old(tasks[i]).Some? && old(tasks[i]).value.state == Dead then None
                            else old(tasks[i])
      ensures IsNearest(tasks[..], old(current), Some(current)) ||
              (IsNearest(tasks[..], old(current), None) && current == IDLE_TASK_ID)
      ensures Chosen(tasks[..], old(current), current)
      ensures switch == if current == old(current) then None else Some((old(current), current))
    {
      hide Heap.Valid, KeepsData, Pruned, Reaped, StacksHeld;
      PrunedOk(tasks[..], current);
      Prune(heap);
      var from := current;
      var next := NextIdx();
      var to := if next.Some? then next.value else IDLE_TASK_ID;
      ChosenIs(tasks[..], from, next);
      if from == to {
        return None;
      }
      current := to;
      return Some((from, to));
    }

    /** `preempt`: schedules if that was asked for since the last time, and otherwise lets the task go on. */
    method Preempt(heap: Heap) returns (switch: Option<(nat, nat)>)
      requires Valid() && heap.Valid() && StacksHeld(tasks[..], heap.live)
      modifies this, tasks, heap`live, heap.cache, heap.frames, heap.frames.lists, heap.ram
      ensures Valid() && heap.Valid() && StacksHeld(tasks[..], heap.live) && !needReschedule
      ensures KeepsData(old(heap.ram.words), heap.ram.words, heap.live)
      ensures !old(needReschedule) ==>
                && switch == None && current == old(current) && tasks[..] == old(tasks[..])
                && heap.live == old(heap.live)
      ensures old(needReschedule) ==>
                && Chosen(tasks[..], old(current), current) && tasks[..] == Pruned(old(tasks[..]), old(current))
                && switch == if current == old(current) then None else Some((old(current), current))
    {
      hide Heap.Valid, KeepsData, Pruned, Reaped, StacksHeld, Chosen, IsNearest;
      HeapAtRest(heap);
      var asked := needReschedule;
      needReschedule := false;
      if !asked {
        return None;
      }
      switch := Pick(heap);
    }

    /** What `task_exit` does before it schedules: its own slot stays, marked. */
    method MarkDead()
      requires Valid() && current != IDLE_TASK_ID
      modifies tasks
      ensures Valid() && tasks[..] == old(tasks[..])[current := Some(old(tasks[current]).value.(state := Dead))]
    {
      tasks[current] := Some(tasks[current].value.(state := Dead));
    }
  }

  datatype SpawnError = RanOutOfIds | RanOutOfMemory

  /** Who runs next: the next pickable task, or idle when there is none. */
  ghost predicate Chosen(table: Table, current: nat, next: nat)
    requires |table| == TASKS_COUNT
  {
    IsNext(table, current, Some(next)) || (IsNext(table, current, None) && next == IDLE_TASK_ID)
  }

  lemma ChosenIs(table: Table, current: nat, r: Option<nat>)
    requires |table| == TASKS_COUNT && IsNext(table, current, r) && IsReady(table[IDLE_TASK_ID])
    ensures var to := if r.Some? then r.value
              else IDLE_TASK_ID; Chosen(table, current, to) && to < TASKS_COUNT && IsReady(table[to])
  {
  }

  lemma PrunedOk(table: Table, current: nat)
    requires TableOk(table, current)
    ensures TableOk(Pruned(table, current), current)
    ensures forall i | 0 <= i < TASKS_COUNT && IsReady(table[i]) :: Pruned(table, current)[i] == table[i]
  {
  }

  lemma SpawnHeld(table: Table, live: Live, live': Live, idx: nat, task: Task)
    requires StacksHeld(table, live) && idx < |table| && task.stack.Some?
    requires task.stack.value !in live && live' == live[task.stack.value := CONTEXT_STACK_LAYOUT]
    ensures StacksHeld(table[idx := Some(task)], live')
  {
  }

  lemma HeapAtRest(heap: Heap)
    requires heap.Valid()
    ensures KeepsData(heap.ram.words, heap.ram.words, heap.live)
  {
    hide Heap.Valid, InFootprint;
    forall a: nat, i: nat {:trigger InFootprint(a, heap.live[a], i)} | a in heap.live && InFootprint(a, heap.live[a], i)
      ensures i < |heap.ram.words|
    {
      heap.LiveIsIsolated(a, i);
    }
  }

  lemma FewerKept(w: seq<Word>, w1: seq<Word>, w2: seq<Word>, live: Live, live': Live)
    requires KeepsData(w, w1, live) && KeepsData(w1, w2, live') && forall a | a in live' ::
               a in live && live[a] == live'[a]
    ensures KeepsData(w, w2, live')
  {
    hide InFootprint;
    forall a: nat, i: nat {:trigger InFootprint(a, live'[a], i)} | a in live' && InFootprint(a, live'[a], i)
      ensures i < |w| && w2[i] == w[i]
    {
      assert a in live && InFootprint(a, live[a], i);
    }
  }

  // ----- Pruning, slot by slot

  function PrunedTo(table: Table, current: nat, n: nat): (t: Table)
    requires n <= |table|
    ensures |t| == |table|
  {
    seq(|table|, i requires 0 <= i < |table| => if i < n && IsDead(table[i]) && i != current then None else table[i])
  }

  ghost function ReapedTo(table: Table, current: nat, n: nat): set<nat> {
    set i | 0 <= i < |table| && i < n && i != current && IsDead(table[i]) && table[i].value.stack.Some? ::
      table[i].value.stack.value
  }

  lemma PruneStart(table: Table, live: Live, current: nat)
    ensures PrunedTo(table, current, 0) == table && live - ReapedTo(table, current, 0) == live
  {
    assert ReapedTo(table, current, 0) == {};
  }

  lemma PruneStep(table: Table, live: Live, current: nat, i: nat)
    requires i < |table| && StacksHeld(table, live)
    ensures PrunedTo(table, current, i)[i] == table[i]
    ensures var reap := IsDead(table[i]) && i != current;
            && PrunedTo(table, current, i + 1) ==
                 (if reap then PrunedTo(table, current, i)[i := None] else PrunedTo(table, current, i))
            && var (before, after) := (live - ReapedTo(table, current, i), live - ReapedTo(table, current, i + 1));
               if reap && table[i].value.stack.Some?
               then
                 var stack := table[i].value.stack.value;
                 stack in before && before[stack] == CONTEXT_STACK_LAYOUT && after == before - {stack}
               else after == before
  {
    var reap := IsDead(table[i]) && i != current;
    var (was, now) := (ReapedTo(table, current, i), ReapedTo(table, current, i + 1));
    if reap && table[i].value.stack.Some? {
      var stack := table[i].value.stack.value;
      assert stack !in was;
      assert now == was + {stack};
    } else {
      assert now == was;
    }
  }

  lemma PruneEnd(table: Table, live: Live, current: nat)
    requires StacksHeld(table, live)
    ensures PrunedTo(table, current, |table|) == Pruned(table, current)
    ensures ReapedTo(table, current, |table|) == Reaped(table, current)
    ensures StacksHeld(Pruned(table, current), live - Reaped(table, current))
  {
  }

  // ----- The wait queue

  /** The slots waiting for one thing: the source's bit set. */
  class WaitQueue {
    var slots: set<nat>

    constructor ()
      ensures slots == {}
    {
      slots := {};
    }

    /** The running task joins the queue and is blocked, before it checks what it waits for. */
    method Prepare(sched: Scheduler)
      requires sched.Valid() && sched.current != IDLE_TASK_ID
      modifies this, sched.tasks
      ensures sched.Valid() && slots == old(slots) + {sched.current}
      ensures var task := old(sched.tasks[sched.current]).value;
              sched.tasks[..] == old(sched.tasks[..])[sched.current := Some(task.(state := Blocked))]
    {
      var current := sched.current;
      slots := slots + {current};
      sched.tasks[current] := Some(sched.tasks[current].value.(state := Blocked));
    }

    /** It found what it waited for: it leaves the queue and is ready again. */
    method Finish(sched: Scheduler)
      requires sched.Valid()
      modifies this, sched.tasks
      ensures sched.Valid() && slots == old(slots) - {sched.current}
      ensures var task := old(sched.tasks[sched.current]).value;
              sched.tasks[..] == old(sched.tasks[..])[sched.current := Some(task.(state := Ready))]
    {
      var current := sched.current;
      slots := slots - {current};
      sched.tasks[current] := Some(sched.tasks[current].value.(state := Ready));
    }

    /** Every task on the queue is ready, and the queue is empty. */
    method WakeAll(sched: Scheduler)
      requires sched.Valid() && forall i | i in slots :: i < TASKS_COUNT && sched.tasks[i].Some?
      modifies this, sched`needReschedule, sched.tasks
      ensures sched.Valid() && slots == {}
      ensures forall i | 0 <= i < TASKS_COUNT ::
                sched.tasks[i] == if i in old(slots) then Some(old(sched.tasks[i]).value.(state := Ready))
                                  else old(sched.tasks[i])
      ensures sched.tasks[..] == Woken(old(sched.tasks[..]), old(slots))
      ensures sched.needReschedule == (old(sched.needReschedule) || old(slots) != {})
    {
      var waiters := slots;
      slots := {};
      ghost var table := sched.tasks[..];
      if waiters == {} {
        assert Woken(table, {}) == table;
        return;
      }
      var i := 0;
      while i < TASKS_COUNT
        invariant i <= TASKS_COUNT && |table| == TASKS_COUNT && sched.tasks.Length == TASKS_COUNT && slots == {}
        invariant forall j | 0 <= j < TASKS_COUNT ::
                    sched.tasks[j] == if j < i then Woken(table, waiters)[j] else table[j]
      {
        if i in waiters {
          sched.tasks[i] := Some(sched.tasks[i].value.(state := Ready));
        }
        i := i + 1;
      }
      sched.needReschedule := true;
      WokenOk(table, waiters, sched.current);
    }
  }

  lemma WokenOk(table: Table, waiters: set<nat>, current: nat)
    requires TableOk(table, current)
    ensures TableOk(Woken(table, waiters), current)
  {
  }

  // ----- Fairness of one choice

  /** Each choice is the waiting task, or brings its turn nearer. */
  lemma TurnComesNearer(table: Table, current: nat, next: nat, t: nat)
    requires |table| == TASKS_COUNT && current < TASKS_COUNT && t < TASKS_COUNT && Pickable(table[t])
    requires Chosen(table, current, next)
    ensures next < TASKS_COUNT && (next == t || Turns(next, t) < Turns(current, t))
  {
    assert IsNext(table, current, Some(next));
    if Turns(current, t) < Turns(current, next) {
      TurnsAhead(current, t);
      assert false;
    }
    NearerByTurns(current, next, t);
  }

  lemma NearerByTurns(current: nat, next: nat, t: nat)
    requires current < TASKS_COUNT && next < TASKS_COUNT && t < TASKS_COUNT && Turns(current, next) <= Turns(current, t)
    ensures next == t || Turns(next, t) < Turns(current, t)
  {
  }
}
