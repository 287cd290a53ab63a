/**
 The stacks the scheduler's tasks really have: each is an allocation of the heap (src/kernel/task.rs),
 so they lie in memory as runs of the context switch want them, and a spawn is a birth in such a run.
*/
module Stacks {
  import opened Wrappers
  import opened Bits
  import opened Ram
  import opened Slabs
  import opened Accounts
  import opened Heap
  import opened Tasks
  import S = Scheduling
  import W = Switching

  /** Every task's stack; the boot task's is outside the heap. */
  function StacksOf(table: S.Table, boot: W.Stack): map<nat, W.Stack> {
    map i: nat | i < |table| && table[i].Some? :: i := StackOf(table[i].value, boot)
  }

  function StackOf(task: Task, boot: W.Stack): W.Stack {
    match task.stack
    case None => boot
    case Some(base) => W.Stack(base, base + CONTEXT_STACK_SIZE)
  }

  /** The boot stack is words of memory that are neither the heap's pages nor its table. */
  ghost predicate Apart(boot: W.Stack, heap: Heap)
    reads heap, heap.ram, heap.pages
  {
    && boot.low % 8 == 0 && boot.high % 8 == 0 && boot.low < boot.high <= |heap.ram.words| * 8
    && forall k: nat | boot.Contains(k) :: k / PAGE_WORDS !in heap.start && !heap.pages.table.Holds(k)
  }

  lemma StackInMemory(heap: Heap, base: nat)
    requires heap.Valid() && base in heap.live && heap.live[base] == CONTEXT_STACK_LAYOUT
    ensures base % 8 == 0 && base + CONTEXT_STACK_SIZE <= |heap.ram.words| * 8
  {
    hide Heap.Valid, ClassOf, OrderOf, WordCount, InFootprint;
    StackWords(heap, base, CONTEXT_STACK_SIZE / 8 - 1);
    hide *;
    WholeWords(base);
  }

  lemma WholeWords(base: nat)
    requires base % PAGE_SIZE == 0
    ensures base % 8 == 0 && base / 8 * 8 == base
  {
    var pages: nat := base / PAGE_SIZE;
    DivUnique(base, 8, 512 * pages, 0);
  }

  /** A stack's words are its own allocation's. */
  lemma StackInHeap(heap: Heap, base: nat, k: nat)
    requires heap.Valid() && base in heap.live && heap.live[base] == CONTEXT_STACK_LAYOUT
    requires base <= 8 * k < base + CONTEXT_STACK_SIZE
    ensures InFootprint(base, CONTEXT_STACK_LAYOUT, k) && k < |heap.ram.words| && k / PAGE_WORDS in heap.start
    ensures forall a | a in heap.live && a != base :: !InFootprint(a, heap.live[a], k)
  {
    hide Heap.Valid, ClassOf, OrderOf, WordCount, InFootprint;
    StackInMemory(heap, base);
    assert k == base / 8 + (k - base / 8);
    StackWords(heap, base, k - base / 8);
    heap.LiveIsIsolated(base, k);
  }

  lemma TwoStacks(heap: Heap, a: nat, b: nat)
    requires heap.Valid() && a in heap.live && heap.live[a] == CONTEXT_STACK_LAYOUT
    requires b in heap.live && heap.live[b] == CONTEXT_STACK_LAYOUT && a != b
    ensures a + CONTEXT_STACK_SIZE <= b || b + CONTEXT_STACK_SIZE <= a
  {
    hide Heap.Valid, InFootprint;
    StackInMemory(heap, a);
    StackInMemory(heap, b);
    if a < b + CONTEXT_STACK_SIZE && b < a + CONTEXT_STACK_SIZE {
      var k := (if a < b then b else a) / 8;
      StackInHeap(heap, a, k);
      StackInHeap(heap, b, k);
      assert false;
    }
  }

  lemma BootStack(heap: Heap, boot: W.Stack, a: nat)
    requires heap.Valid() && a in heap.live && heap.live[a] == CONTEXT_STACK_LAYOUT && Apart(boot, heap)
    ensures a + CONTEXT_STACK_SIZE <= boot.low || boot.high <= a
  {
    hide Heap.Valid, InFootprint;
    StackInMemory(heap, a);
    if a < boot.high && boot.low < a + CONTEXT_STACK_SIZE {
      var k := (if a < boot.low then boot.low else a) / 8;
      assert boot.Contains(k);
      StackInHeap(heap, a, k);
      assert false;
    }
  }

  /** The tasks' stacks are pieces of memory that do not overlap. */
  lemma StacksLaid(heap: Heap, table: S.Table, boot: W.Stack)
    requires heap.Valid() && S.StacksHeld(table, heap.live) && Apart(boot, heap)
    ensures W.Laid(StacksOf(table, boot), |heap.ram.words|)
  {
    hide Heap.Valid;
    var stacks := StacksOf(table, boot);
    forall i | i in stacks
      ensures stacks[i].low % 8 == 0 && stacks[i].high % 8 == 0
      ensures stacks[i].low <= stacks[i].high <= |heap.ram.words| * 8
    {
      if table[i].value.stack.Some? {
        StackInMemory(heap, table[i].value.stack.value);
      }
    }
    forall i, j | i in stacks && j in stacks && i != j
      ensures stacks[i].high <= stacks[j].low || stacks[j].high <= stacks[i].low
    {
      var (a, b) := (table[i].value.stack, table[j].value.stack);
      if a.Some? && b.Some? {
        TwoStacks(heap, a.value, b.value);
      } else if a.Some? {
        BootStack(heap, boot, a.value);
      } else if b.Some? {
        BootStack(heap, boot, b.value);
      }
    }
  }

  /** What a spawn did, and to which memory. */
  datatype Spawned = Spawned(table: S.Table, live: Live, words: seq<Word>, idx: nat, entry: Word, trampoline: Word)

  /** What the heap and the table are like after `Scheduler.Spawn` put a task in slot `idx`. */
  ghost predicate SpawnedTo(was: Spawned, heap: Heap, table: S.Table)
    reads heap, heap.ram, heap.pages
  {
    && was.idx < |was.table| && was.table[was.idx] == None && |table| == |was.table|
    && table[was.idx].Some? && table == was.table[was.idx := table[was.idx]]
    && var task := table[was.idx].value;
    && task.stack.Some? && task.stack.value !in was.live
    && heap.live == was.live[task.stack.value := CONTEXT_STACK_LAYOUT]
    && task.sp + SWITCH_FRAME_SIZE == task.stack.value + CONTEXT_STACK_SIZE
    && task.sp / 8 + SAVED <= |heap.ram.words|
    && FrameAt(heap.ram.words, task.sp) == Forged(was.entry, was.trampoline)
    && KeepsData(was.words, heap.ram.words, was.live)
    && OnlyManaged(was.words, heap.ram.words, heap.pages.table, heap.start)
  }

  /** A spawn writes no other task's stack. */
  lemma SpawnSpares(was: Spawned, heap: Heap, table: S.Table, boot: W.Stack, i: nat, k: nat)
    requires heap.Valid() && S.StacksHeld(was.table, was.live) && Apart(boot, heap) && SpawnedTo(was, heap, table)
    requires i in StacksOf(was.table, boot) && k < |heap.ram.words| && StacksOf(was.table, boot)[i].Contains(k)
    ensures |was.words| == |heap.ram.words| && heap.ram.words[k] == was.words[k]
  {
    hide Heap.Valid, InFootprint, FrameAt, Forged;
    if was.table[i].value.stack.Some? {
      var base := was.table[i].value.stack.value;
      StackInHeap(heap, base, k);
      assert InFootprint(base, was.live[base], k);
    }
  }

  /** So in a run of the switch it is a birth, and the stacks afterwards are those of the new table. */
  lemma SpawnIsBirth(was: Spawned, heap: Heap, table: S.Table, boot: W.Stack, s: W.Scene)
    requires heap.Valid() && S.StacksHeld(was.table, was.live) && S.StacksHeld(table, heap.live) && Apart(boot, heap)
    requires SpawnedTo(was, heap, table) && s.stacks == StacksOf(was.table, boot) && s.m.words == was.words
    requires |s.m.regs| == SAVED && was.idx < |s.m.contexts|
    ensures var task := table[was.idx].value;
            var after := s.m.(words := heap.ram.words, contexts := s.m.contexts[was.idx := task.sp]);
            var birth := W.Born(was.idx, StackOf(task, boot), was.entry, was.trampoline, after);
            W.May(s, birth) && W.Then(s, birth).stacks == StacksOf(table, boot)
  {
    hide Heap.Valid, FrameAt, Forged, W.Laid, KeepsData;
    StacksLaid(heap, table, boot);
    assert StacksOf(table, boot) == StacksOf(was.table, boot)[was.idx := StackOf(table[was.idx].value, boot)];
    forall i, k: nat | i in s.stacks && i != s.m.running && k < |s.m.words| && s.stacks[i].Contains(k)
      ensures heap.ram.words[k] == s.m.words[k]
    {
      SpawnSpares(was, heap, table, boot, i, k);
    }
  }

  /** `spawn` in the middle of a run: the run goes on with that birth, and the stacks are the table's still. */
  method SpawnInRun(sched: S.Scheduler, heap: Heap, entry: Word, trampoline: Word, ghost boot: W.Stack,
                    ghost s: W.Scene)
    returns (r: Result<nat, S.SpawnError>, ghost birth: W.Event)
    requires sched.Valid() && heap.Valid() && S.StacksHeld(sched.tasks[..], heap.live) && Apart(boot, heap)
    requires s.stacks == StacksOf(sched.tasks[..], boot) && s.m.words == heap.ram.words
    requires |s.m.regs| == SAVED && |s.m.contexts| == S.TASKS_COUNT
    modifies sched.tasks, heap`live, heap.cache, heap.frames, heap.frames.lists, heap.ram
    ensures sched.Valid() && heap.Valid() && S.StacksHeld(sched.tasks[..], heap.live) && Apart(boot, heap)
    ensures r.Ok? ==>
              && birth.Born? && birth.task == r.value && birth.entry == entry && birth.trampoline == trampoline
              && W.May(s, birth) && birth.after.words == heap.ram.words
              && W.Then(s, birth).stacks == StacksOf(sched.tasks[..], boot)
  {
    hide Heap.Valid, FrameAt, Forged, W.Laid, KeepsData, OnlyManaged, CannotServe, StacksOf, StackOf, W.May, W.Then,
      S.StacksHeld;
    ghost var (table, live, words) := (sched.tasks[..], heap.live, heap.ram.words);
    r := sched.Spawn(heap, entry, trampoline);
    SameSize(words, heap.ram.words, heap);
    birth := W.Work(s.m);
    if r.Ok? {
      ghost var task := sched.tasks[r.value].value;
      ghost var after := s.m.(words := heap.ram.words, contexts := s.m.contexts[r.value := task.sp]);
      birth := W.Born(r.value, StackOf(task, boot), entry, trampoline, after);
      SpawnIsBirth(Spawned(table, live, words, r.value, entry, trampoline), heap, sched.tasks[..], boot, s);
    }
  }

  /** `init` makes the idle task: the first birth of the run, with the boot task running. */
  method InitInRun(heap: Heap, idle: Word, trampoline: Word, ghost boot: W.Stack, ghost s: W.Scene)
    returns (r: Option<S.Scheduler>, ghost birth: W.Event)
    requires heap.Valid() && Apart(boot, heap)
    requires s.stacks == map[S.BOOT_TASK_ID := boot] && s.m.running == S.BOOT_TASK_ID && s.m.words == heap.ram.words
    requires |s.m.regs| == SAVED && |s.m.contexts| == S.TASKS_COUNT
    modifies heap`live, heap.cache, heap.frames, heap.frames.lists, heap.ram
    ensures heap.Valid() && Apart(boot, heap)
    ensures r.Some? ==>
              && fresh(r.value) && fresh(r.value.tasks) && r.value.Valid()
              && S.StacksHeld(r.value.tasks[..], heap.live)
              && birth.Born? && birth.task == S.IDLE_TASK_ID && birth.entry == idle && birth.trampoline == trampoline
              && W.May(s, birth) && birth.after.words == heap.ram.words
              && W.Then(s, birth).stacks == StacksOf(r.value.tasks[..], boot)
  {
    hide Heap.Valid, FrameAt, Forged, W.Laid, KeepsData, OnlyManaged, CannotServe, StackOf, W.May, W.Then;
    ghost var (live, words) := (heap.live, heap.ram.words);
    ghost var table: S.Table := [Some(Task(S.BOOT_TASK_ID, 0, None, 0, Ready)), None, None, None];
    r := S.Scheduler.Init(heap, idle, trampoline);
    SameSize(words, heap.ram.words, heap);
    birth := W.Work(s.m);
    if r.Some? {
      ghost var made := r.value.tasks[..];
      ghost var task := made[S.IDLE_TASK_ID].value;
      ghost var after := s.m.(words := heap.ram.words, contexts := s.m.contexts[S.IDLE_TASK_ID := task.sp]);
      birth := W.Born(S.IDLE_TASK_ID, StackOf(task, boot), idle, trampoline, after);
      BootAlone(table, boot);
      assert made == table[S.IDLE_TASK_ID := made[S.IDLE_TASK_ID]];
      hide StacksOf;
      SpawnIsBirth(Spawned(table, live, words, S.IDLE_TASK_ID, idle, trampoline), heap, made, boot, s);
    }
  }

  lemma BootAlone(table: S.Table, boot: W.Stack)
    requires table == [Some(Task(S.BOOT_TASK_ID, 0, None, 0, Ready)), None, None, None]
    ensures StacksOf(table, boot) == map[S.BOOT_TASK_ID := boot] && S.StacksHeld(table, map[])
    ensures forall live: Live :: S.StacksHeld(table, live)
  {
  }

  lemma SameSize(w: seq<Word>, w': seq<Word>, heap: Heap)
    requires OnlyManaged(w, w', heap.pages.table, heap.start)
    ensures |w'| == |w|
  {
  }
}
