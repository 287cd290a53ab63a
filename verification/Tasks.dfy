/**
 Tasks (src/kernel/task.rs) and the frame a new one is given (src/arch/aarch64/context.rs), so that
 switching to it for the first time lands in the trampoline.
*/
module Tasks {
  import opened Wrappers
  import opened Bits
  import opened Ram
  import opened Slabs
  import opened Accounts
  import opened Heap

  const CONTEXT_STACK_SIZE: nat := 16384

  const CONTEXT_STACK_LAYOUT := Layout(CONTEXT_STACK_SIZE, 12)

  /** Registers a switch saves: x19 to x30, then d8 to d15. */
  const SAVED: nat := 20
  const SWITCH_FRAME_SIZE: nat := 160
  const X19: nat := 0
  const X30: nat := 11

  datatype State = Ready | Blocked | Dead

  /** `sp` is the task's saved stack pointer; `stack` is none for the boot task. */
  datatype Task = Task(id: nat, sp: nat, stack: Option<nat>, ticks: nat, state: State)

  /** What a task that has never run finds in its frame: the trampoline to return to, its entry in x19. */
  function Forged(entry: Word, trampoline: Word): (f: seq<Word>)
    ensures |f| == SAVED && f[0] == entry && f[11] == trampoline
  {
    seq(SAVED, i => if i == X19 then entry else if i == X30 then trampoline else 0)
  }

  /** The registers saved at `sp`. */
  function FrameAt(w: seq<Word>, sp: nat): (f: seq<Word>)
    requires sp / 8 + SAVED <= |w|
    ensures |f| == SAVED
  {
    w[sp / 8..sp / 8 + SAVED]
  }

  lemma StackLayout()
    ensures ClassOf(CONTEXT_STACK_LAYOUT).None? && WordCount(CONTEXT_STACK_LAYOUT) * 8 == CONTEXT_STACK_SIZE
    ensures CONTEXT_STACK_LAYOUT.Align() == PAGE_SIZE
  {
    ClassOfFacts(CONTEXT_STACK_LAYOUT);
    Pow2Table();
    assert OrderOf(CONTEXT_STACK_LAYOUT) == 2 by {
      assert NextPowerOfTwo(4) == 4 by {
        assert ILog2(3) == 1;
      }
      assert ILog2(4) == 2;
    }
  }

  /** Every word of a live stack may be written by whoever holds it. */
  lemma StackWords(heap: Heap, base: nat, i: nat)
    requires heap.Valid() && base in heap.live && heap.live[base] == CONTEXT_STACK_LAYOUT && i < CONTEXT_STACK_SIZE / 8
    ensures InFootprint(base, CONTEXT_STACK_LAYOUT, base / 8 + i) && base / 8 + i < |heap.ram.words|
    ensures base % PAGE_SIZE == 0
    ensures forall a | a in heap.live && a != base :: !InFootprint(a, heap.live[a], base / 8 + i)
  {
    hide Heap.Valid, WordCount, ClassOf, OrderOf;
    StackLayout();
    heap.LiveIsIsolated(base, base / 8 + i);
  }

  /** A new task: a stack of its own with a forged frame at the top. Nothing if there is no memory. */
  method NewTask(heap: Heap, id: nat, entry: Word, trampoline: Word) returns (task: Option<Task>)
    requires heap.Valid()
    modifies heap`live, heap.cache, heap.frames, heap.frames.lists, heap.ram
    ensures heap.Valid() && KeepsData(old(heap.ram.words), heap.ram.words, old(heap.live))
    ensures OnlyManaged(old(heap.ram.words), heap.ram.words, heap.pages.table, heap.start)
    ensures task.None? <==> CannotServe(old(heap.cache.slabs), old(heap.frames.owner), CONTEXT_STACK_LAYOUT)
    ensures task.None? ==> heap.live == old(heap.live)
    ensures task.Some? ==>
              && var t := task.value;
              && t.id == id && t.ticks == 0 && t.state == Ready && t.stack.Some?
              && t.stack.value !in old(heap.live) && heap.live == old(heap.live)[t.stack.value := CONTEXT_STACK_LAYOUT]
              && t.sp + SWITCH_FRAME_SIZE == t.stack.value + CONTEXT_STACK_SIZE
              && t.sp % 8 == 0 && t.sp / 8 + SAVED <= |heap.ram.words|
              && FrameAt(heap.ram.words, t.sp) == Forged(entry, trampoline)
  {
    hide Heap.Valid, ClassOf, OrderOf, CannotServe, InFootprint, WordCount, KeepsData, FrameAt, OnlyManaged, Frugal,
      Heap.NextPage, AddressOf;
    ghost var w, live := heap.ram.words, heap.live;
    var base := heap.AllocLayout(CONTEXT_STACK_LAYOUT);
    if base == None {
      return None;
    }
    var sp := WriteFrame(heap, base.value, entry, trampoline, w, live);
    return Some(Task(id, sp, base, 0, Ready));
  }

  /** Writes a forged frame at the top of a stack nobody held before. */
  method WriteFrame(heap: Heap, b: nat, entry: Word, trampoline: Word, ghost w: seq<Word>,
                    ghost live: Live) returns (sp: nat)
    requires heap.Valid() && b !in live && heap.live == live[b := CONTEXT_STACK_LAYOUT]
    requires KeepsData(w, heap.ram.words, live)
    requires OnlyManaged(w, heap.ram.words, heap.pages.table, heap.start)
    modifies heap.ram
    ensures OnlyManaged(w, heap.ram.words, heap.pages.table, heap.start)
    ensures heap.Valid() && KeepsData(w, heap.ram.words, live) && sp + SWITCH_FRAME_SIZE == b + CONTEXT_STACK_SIZE
    ensures sp % 8 == 0 && sp / 8 + SAVED <= |heap.ram.words|
    ensures FrameAt(heap.ram.words, sp) == Forged(entry, trampoline)
  {
    hide Heap.Valid, ClassOf, OrderOf, InFootprint, WordCount, KeepsData, FrameAt, OnlyManaged;
    sp := b + CONTEXT_STACK_SIZE - SWITCH_FRAME_SIZE;
    StackWords(heap, b, CONTEXT_STACK_SIZE / 8 - 1);
    FrameWord(b, 0);
    var i := 0;
    while i < SAVED
      invariant i <= SAVED && heap.Valid() && sp / 8 + SAVED <= |heap.ram.words|
      invariant KeepsData(w, heap.ram.words, live) && OnlyManaged(w, heap.ram.words, heap.pages.table, heap.start)
      invariant forall j: nat | j < i :: heap.ram.words[sp / 8 + j] == Forged(entry, trampoline)[j]
    {
      ghost var w1 := heap.ram.words;
      FrameWord(b, i);
      StackWords(heap, b, (CONTEXT_STACK_SIZE - SWITCH_FRAME_SIZE) / 8 + i);
      heap.LiveIsIsolated(b, sp / 8 + i);
      var value := if i == X19 then entry else if i == X30 then trampoline else 0;
      heap.Store(b, sp / 8 + i, value);
      OneManaged(w1, sp / 8 + i, value, heap.pages.table, heap.start);
      ManagedChain(w, w1, heap.ram.words, heap.pages.table, heap.start);
      StoreBeside(w, w1, heap.ram.words, live, heap.live, b, sp / 8 + i);
      i := i + 1;
    }
    FrameWritten(heap.ram.words, sp, entry, trampoline);
  }

  lemma FrameWord(b: nat, i: nat)
    requires b % PAGE_SIZE == 0
    ensures var sp := b + CONTEXT_STACK_SIZE - SWITCH_FRAME_SIZE;
            sp % 8 == 0 && sp / 8 + i == b / 8 + ((CONTEXT_STACK_SIZE - SWITCH_FRAME_SIZE) / 8 + i)
  {
    var pages: nat := b / PAGE_SIZE;
    DivUnique(b, 8, 512 * pages, 0);
    DivUnique(b + CONTEXT_STACK_SIZE - SWITCH_FRAME_SIZE, 8, 512 * pages + 2028, 0);
  }

  lemma StoreBeside(w: seq<Word>, w1: seq<Word>, w2: seq<Word>, live: Live, live': Live, b: nat, i: nat)
    requires KeepsData(w, w1, live) && i < |w1| && |w2| == |w1|
    requires (forall j: nat | j < |w1| && j != i :: w2[j] == w1[j])
    requires b !in live && live' == live[b := CONTEXT_STACK_LAYOUT]
    requires forall a | a in live' && a != b :: !InFootprint(a, live'[a], i)
    ensures KeepsData(w, w2, live)
  {
    hide InFootprint;
    forall a: nat, j: nat {:trigger InFootprint(a, live[a], j)} | a in live && InFootprint(a, live[a], j)
      ensures j < |w| && w2[j] == w[j]
    {
      assert a in live' && live'[a] == live[a] && j != i;
    }
  }

  lemma FrameWritten(w: seq<Word>, sp: nat, entry: Word, trampoline: Word)
    requires sp / 8 + SAVED <= |w| && forall j: nat | j < SAVED :: w[sp / 8 + j] == Forged(entry, trampoline)[j]
    ensures FrameAt(w, sp) == Forged(entry, trampoline)
  {
    hide Forged;
  }

  /** The code already running, adopted as a task: it needs no stack and no frame. */
  function BootTask(id: nat): Task {
    Task(id, 0, None, 0, Ready)
  }
}
