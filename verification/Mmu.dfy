/**
 The translation-table builder (src/arch/aarch64/mmu/mod.rs). Tables are pages of the kernel heap, and
 every slot is read from and written to that memory.
*/
module Mmu {
  import opened Wrappers
  import opened Ram
  import opened Slabs
  import opened Regions
  import opened Accounts
  import opened Heap
  import opened Levels
  import opened Descriptors
  import opened Trees
  import opened RangeSteps
  import opened Leaves
  import opened Gaps
  import opened Plans
  import opened Costs
  import opened Hardware
  import Blocks
  import Frames

  datatype PlanError =
    | NoTable
    | Failed(name: string, error: MapError)
    | Overlap(one: string, other: string)

  /** What a table is asked for as: one page, page-aligned. */
  const TABLE_LAYOUT := Layout(PAGE_SIZE, 12)

  lemma TableLayout()
    ensures ClassOf(TABLE_LAYOUT).None? && WordCount(TABLE_LAYOUT) == SLOTS && TABLE_LAYOUT.Align() == PAGE_SIZE
    ensures OrderOf(TABLE_LAYOUT) == 0
  {
    ClassOfFacts(TABLE_LAYOUT);
    Pow2Table();
    assert OrderOf(TABLE_LAYOUT) == 0;
  }

  /** Every table is a live allocation of the heap. */
  ghost predicate Lent(live: Live, place: Places) {
    forall t | t in place :: t in live && live[t] == TABLE_LAYOUT
  }

  /** What was lent before still is, and no new table was anybody's. */
  ghost predicate Borrowed(live0: Live, live: Live, place0: Places, place: Places) {
    && Lent(live, place)
    && (forall a | a in live0 :: a in live && live[a] == live0[a])
    && (forall t | t in place && t !in place0 :: t !in live0)
  }

  lemma {:induction false} BorrowChain(live0: Live, live: Live, live': Live, place0: Places, place: Places,
                                       place': Places)
    requires Borrowed(live0, live, place0, place) && Borrowed(live, live', place, place')
    requires forall t | t in place0 :: t in place
    ensures Borrowed(live0, live', place0, place')
  {
  }

  /** No word of a live allocation that is not a table differs. */
  ghost predicate OthersKept(w: seq<Word>, w': seq<Word>, live: Live, place: Places) {
    && |w'| == |w|
    && forall a: nat, i: nat {:trigger InFootprint(a, live[a], i)} |
         a in live && a !in place && InFootprint(a, live[a], i) :: i < |w| && w'[i] == w[i]
  }

  /** Data outside the tables survives two steps in a row. */
  lemma DataChain(w0: seq<Word>, w: seq<Word>, w': seq<Word>, live0: Live, live: Live, place0: Places, place: Places)
    requires OthersKept(w0, w, live0, place0) && OthersKept(w, w', live, place)
    requires Borrowed(live0, live, place0, place)
    ensures OthersKept(w0, w', live0, place0)
  {
    hide InFootprint;
    forall a: nat, i: nat {:trigger InFootprint(a, live0[a], i)} | a in live0 && a !in place0 &&
      InFootprint(a, live0[a], i)
      ensures i < |w0| && w'[i] == w0[i]
    {
      assert a in live && a !in place && InFootprint(a, live[a], i);
    }
  }

  /** Where a table's words are, and that nobody else's are there. */
  lemma TableWords(heap: Heap, t: nat)
    requires heap.Valid() && t in heap.live && heap.live[t] == TABLE_LAYOUT
    ensures t % PAGE_SIZE == 0 && t + PAGE_SIZE <= |heap.ram.words| * 8
    ensures forall i: nat | i < SLOTS :: InFootprint(t, TABLE_LAYOUT, WordOf(t, i)) && WordOf(t, i) < |heap.ram.words|
    ensures forall a: nat, i: nat | a in heap.live && a != t && InFootprint(a, heap.live[a], i) ::
              !(WordOf(t, 0) <= i < WordOf(t, SLOTS))
    ensures forall a: nat, i: nat {:trigger InFootprint(a, heap.live[a], i)} |
              a in heap.live && InFootprint(a, heap.live[a], i) :: i < |heap.ram.words|
  {
    hide Heap.Valid, WordCount, ClassOf, OrderOf;
    LiveInMemory(heap);
    TableLayout();
    forall i: nat | i < SLOTS
      ensures InFootprint(t, TABLE_LAYOUT, WordOf(t, i)) && WordOf(t, i) < |heap.ram.words|
    {
      heap.LiveIsIsolated(t, WordOf(t, i));
    }
    heap.LiveIsIsolated(t, WordOf(t, SLOTS - 1));
    forall a: nat, i: nat {:trigger InFootprint(a, heap.live[a], i)} | a in heap.live && a != t &&
      InFootprint(a, heap.live[a], i)
      ensures !(WordOf(t, 0) <= i < WordOf(t, SLOTS))
    {
      if WordOf(t, 0) <= i < WordOf(t, SLOTS) {
        assert InFootprint(t, TABLE_LAYOUT, i);
        heap.LiveIsIsolated(t, i);
      }
    }
  }

  /** Every live word is in memory. */
  lemma LiveInMemory(heap: Heap)
    requires heap.Valid()
    ensures forall a: nat, i: nat {:trigger InFootprint(a, heap.live[a], i)} |
              a in heap.live && InFootprint(a, heap.live[a], i) :: i < |heap.ram.words|
  {
    hide Heap.Valid, InFootprint;
    forall a: nat, i: nat {:trigger InFootprint(a, heap.live[a], i)} | a in heap.live && InFootprint(a, heap.live[a], i)
      ensures i < |heap.ram.words|
    {
      heap.LiveIsIsolated(a, i);
    }
  }

  /** No table can be had: there is no page for one, or the next one is at address zero, which cannot be one. */
  predicate Refuses(heap: Heap)
    reads heap, heap.frames, heap.frames.lists
  {
    heap.NextPage(TABLE_LAYOUT) == None || heap.NextPage(TABLE_LAYOUT) == Some(0)
  }

  /** The heap has no page for a table, or one at address zero has been given out since `live0`. */
  ghost predicate NoTableLeft(heap: Heap, live0: Live)
    reads heap, heap.cache, heap.frames
  {
    CannotServe(heap.cache.slabs, heap.frames.owner, TABLE_LAYOUT) || (0 in heap.live && 0 !in live0)
  }

  lemma NoTableStill(heap: Heap, live0: Live, live1: Live)
    requires forall a | a in live0 :: a in live1
    ensures NoTableLeft(heap, live1) ==> NoTableLeft(heap, live0)
  {
    hide CannotServe;
  }

  lemma StillBorrowed(live0: Live, live: Live, place0: Places, place: Places)
    requires Borrowed(live0, live, place0, place)
    ensures forall a | a in live0 :: a in live
  {
  }

  /** When the heap does not manage page zero there simply is no page left. */
  lemma NoneLeft(heap: Heap, live0: Live)
    requires heap.Valid() && 0 !in heap.start && NoTableLeft(heap, live0)
    ensures CannotServe(heap.cache.slabs, heap.frames.owner, TABLE_LAYOUT)
  {
    hide Heap.Valid, CannotServe;
    ZeroNotLive(heap);
  }

  lemma ZeroNotLive(heap: Heap)
    requires heap.Valid() && 0 !in heap.start
    ensures 0 !in heap.live
  {
    hide Heap.Valid;
    if 0 in heap.live {
      NotEmpty(heap.live[0]);
      heap.LiveIsIsolated(0, 0);
      assert false;
    }
  }

  lemma NotEmpty(layout: Layout)
    ensures InFootprint(0, layout, 0)
  {
    ClassOfFacts(layout);
    if ClassOf(layout).Some? {
      ShiftIsClass(ClassOf(layout).value);
    }
  }

  // ----- Free pages, counted

  ghost function FreeCount(heap: Heap): nat
    reads heap, heap.frames
  {
    |Blocks.FreePages(heap.frames.owner)|
  }

  lemma OneFewer(o: Blocks.Owner, o': Blocks.Owner, p: nat)
    requires Frames.Allocated(o, o', p, 0)
    ensures |Blocks.FreePages(o')| + 1 == |Blocks.FreePages(o)|
  {
    assert Blocks.FreePages(o') == Blocks.FreePages(o) - {p};
  }

  lemma NoneFree(heap: Heap)
    requires CannotServe(heap.cache.slabs, heap.frames.owner, TABLE_LAYOUT)
    ensures FreeCount(heap) == 0
  {
    TableLayout();
    hide ClassOf, OrderOf;
    var o := heap.frames.owner;
    forall p | p in o
      ensures !o[p].free
    {
      FreePageIsRun(o, p);
    }
    assert Blocks.FreePages(o) == {};
  }

  lemma FreePageIsRun(o: Blocks.Owner, p: nat)
    requires p in o
    ensures o[p].free <==> Blocks.FreeRun(o, p, 0)
  {
  }

  /** Each table made took a page. Where page zero is managed it may take another, which is refused. */
  ghost predicate Tally(start: Blocks.Owner, free0: nat, free: nat, place0: Places, place: Places) {
    0 !in start ==> free + |place| == free0 + |place0|
  }

  /** No page is left, although the range needs another table. */
  ghost predicate OutOfPages(heap: Heap, place: Places, p: Place, lo: nat, hi: nat)
    reads heap, heap.frames
  {
    0 !in heap.start ==> FreeCount(heap) == 0 && Lacks(place, p, lo, hi)
  }

  /** A handle on a table: its address. */
  datatype Table = Table(base: nat) {

    /**
     A zeroed table, on the page the heap would give out next. There is none exactly when the heap has no
     page for it or the next one is at address zero: that one is refused, and stays allocated.
    */
    static method New(heap: Heap) returns (table: Option<Table>)
      requires heap.Valid() && |heap.ram.words| * 8 <= ADDRESS_LIMIT
      modifies heap`live, heap.cache, heap.frames, heap.frames.lists, heap.ram
      ensures heap.Valid() && |heap.ram.words| == |old(heap.ram.words)|
      ensures KeepsData(old(heap.ram.words), heap.ram.words, old(heap.live))
      ensures table.None? <==> old(Refuses(heap))
      ensures old(heap.NextPage(TABLE_LAYOUT)) == None <==>
                CannotServe(old(heap.cache.slabs), old(heap.frames.owner), TABLE_LAYOUT)
      ensures old(heap.NextPage(TABLE_LAYOUT)) == None ==>
                heap.live == old(heap.live) && heap.ram.words == old(heap.ram.words)
      ensures old(heap.NextPage(TABLE_LAYOUT)) == Some(0) ==>
                0 !in old(heap.live) && heap.live == old(heap.live)[0 := TABLE_LAYOUT]
      ensures 0 !in heap.start ==>
                (table.None? <==> CannotServe(old(heap.cache.slabs), old(heap.frames.owner), TABLE_LAYOUT))
      ensures table.None? ==> NoTableLeft(heap, old(heap.live))
      ensures FreeCount(heap) + (if old(heap.NextPage(TABLE_LAYOUT)) == None then 0 else 1) == old(FreeCount(heap))
      ensures table.Some? ==>
                && var t := table.value.base;
                && AddressOf(old(heap.NextPage(TABLE_LAYOUT))) == Some(t)
                && t !in old(heap.live) && heap.live == old(heap.live)[t := TABLE_LAYOUT]
                && TablePage(|heap.ram.words|, t)
                && forall i: nat | i < SLOTS :: WordOf(t, i) < |heap.ram.words| && heap.ram.words[WordOf(t, i)] == 0
    {
      hide Heap.Valid, ClassOf, OrderOf, CannotServe, InFootprint, WordOf, KeepsData, OnlyManaged, Heap.NextPage,
        Frugal, WordCount, Frames.Allocated, Blocks.FreePages;
      ghost var w, live, o := heap.ram.words, heap.live, heap.frames.owner;
      TableLayout();
      var address := heap.AllocLayout(TABLE_LAYOUT);
      if address.Some? {
        OneFewer(o, heap.frames.owner, address.value / PAGE_SIZE);
      }
      KeepsSize(w, heap.ram.words, live);
      if 0 !in heap.start {
        ZeroNotLive(heap);
      }
      if address == None || address.value == 0 {
        return None;
      }
      var t := address.value;
      ghost var w1 := heap.ram.words;
      TableWords(heap, t);
      var made := Table.Table(t);
      ZeroIsEmpty();
      var slot := 0;
      while slot < SLOTS
        invariant slot <= SLOTS && heap.Valid() && heap.live == live[t := TABLE_LAYOUT] && |heap.ram.words| == |w1|
        invariant forall i: nat | i < slot :: WordOf(t, i) < |w1| && heap.ram.words[WordOf(t, i)] == 0
        invariant forall j: nat | j < |w1| && !(WordOf(t, 0) <= j < WordOf(t, SLOTS)) :: heap.ram.words[j] == w1[j]
        invariant FreeCount(heap) + 1 == old(FreeCount(heap))
      {
        ghost var before := heap.ram.words;
        made.Set(heap, slot, ZERO);
        SlotOrder(t, slot);
        slot := slot + 1;
      }
      DataBeside(w, w1, heap.ram.words, live, heap.live, t);
      return Some(made);
    }

    method Set(heap: Heap, slot: nat, value: Descriptor)
      requires heap.Valid() && base in heap.live && heap.live[base] == TABLE_LAYOUT
      modifies heap.ram
      ensures heap.Valid() && WordOf(base, slot % SLOTS) < |old(heap.ram.words)|
      ensures heap.ram.words == old(heap.ram.words)[WordOf(base, slot % SLOTS) := ToWord(value)]
    {
      hide Heap.Valid, ToWord;
      TableWords(heap, base);
      heap.Store(base, base / 8 + slot % SLOTS, ToWord(value));
    }

    method Get(heap: Heap, slot: nat) returns (d: Descriptor)
      requires WordOf(base, slot % SLOTS) < |heap.ram.words|
      ensures d == SlotAt(heap.ram.words, base, slot % SLOTS)
    {
      d := FromWord(heap.ram.words[base / 8 + slot % SLOTS]);
    }

    /** `from_base`: a handle from an address read out of a descriptor; none for address zero. */
    static function FromBase(address: nat): Option<Table> {
      if address == 0 then None else Some(Table.Table(address))
    }

    /** The table below the slot `va` falls in, allocated and linked if it is not there yet. */
    method ChildTable(heap: Heap, va: nat, level: Level, ghost root: nat, ghost place: Places)
      returns (r: Result<Table, MapError>, ghost place': Places)
      requires Ready(heap, place, root) && level.Next().Some?
      requires base in place && place[base].level == level && place[base].Contains(va)
      modifies heap`live, heap.cache, heap.frames, heap.frames.lists, heap.ram
      ensures Ready(heap, place', root)
      ensures Borrowed(old(heap.live), heap.live, place, place')
      ensures OthersKept(old(heap.ram.words), heap.ram.words, old(heap.live), place)
      ensures r.Ok? ==> r.value.base in place' && Descends(heap.ram.words, place', root, base, r.value.base, va)
      ensures if place' == place then TablesSame(old(heap.ram.words), heap.ram.words, place)
              else r.Ok? && NewChild(old(heap.ram.words), heap.ram.words, place, place', base, level.SlotOf(va),
                                     r.value.base)
      ensures r.Err? ==> place' == place
      ensures WordOf(base, level.SlotOf(va)) < |old(heap.ram.words)|
      ensures r == Err(OutOfMemory) <==>
                SlotAt(old(heap.ram.words), base, level.SlotOf(va)).kind == Invalid && old(Refuses(heap))
      ensures r.Err? && r.error.OutOfMemory? ==> NoTableLeft(heap, old(heap.live))
      ensures Tally(heap.start, old(FreeCount(heap)), FreeCount(heap), place, place')
      ensures r.Err? && r.error.OutOfMemory? && 0 !in heap.start ==> FreeCount(heap) == 0
      ensures r.Err? && !r.error.OutOfMemory? ==>
                && r.error == BlockInTheWay(va, level)
                && WordOf(base, level.SlotOf(va)) < |old(heap.ram.words)|
                && SlotAt(old(heap.ram.words), base, level.SlotOf(va)).kind == Block
    {
      hide Heap.Valid, Tree, Leads, KeepsData, FromWord, ToWord, InFootprint, TablePage, Lent, Borrowed, OthersKept,
        TablesSame, Descends, LeadsTo, NewChild, CannotServe, WordOf, GoodPlace, Place.Contains, FreeCount;
      ghost var w, live := heap.ram.words, heap.live;
      place' := place;
      ReadyAt(heap, place, root, base, va);
      SameRefl(heap, place);
      TableWords(heap, base);
      var slot := level.SlotOf(va);
      var descriptor := Get(heap, slot);
      match descriptor.kind {
        case Table =>
          FollowSlot(w, place, root, base, va);
          var child := FromBase(descriptor.address);
          r := if child.Some? then Ok(child.value) else Err(OutOfMemory);
        case Invalid =>
          var child := New(heap);
          ghost var w1 := heap.ram.words;
          if child == None {
            OnlyOthers(w, w1, live, heap.live, place, root);
            if 0 !in heap.start {
              NoneLeft(heap, live);
              NoneFree(heap);
            }
            r := Err(OutOfMemory);
          } else {
            var c := child.value.base;
            StillLent(live, heap.live, place, base, c);
            Set(heap, slot, ZERO.(kind := Kind.Table, address := c));
            place' := place[c := place[base].Child(slot)];
            Linked(w, w1, heap.ram.words, live, heap.live, place, root, base, va, c);
            r := Ok(child.value);
          }
        case Block =>
          r := Err(BlockInTheWay(va, level));
      }
    }

    /**
     Maps `[region.base, region.end)` to itself, slot by slot, from the level this table is at.

     On success exactly that range translates as asked, each address at the coarsest level whose slot
     the range covers; on any error no address outside it has changed and none inside is half done.
    */
    method MapRange(heap: Heap, region: Region, template: Descriptor, level: Level, ghost root: nat,
                    ghost place: Places)
      returns (r: Result<(), MapError>, ghost place': Places)
      requires Ready(heap, place, root) && base in place && place[base].level == level
      requires place[base].start <= region.base && region.End() <= place[base].End()
      modifies heap`live, heap.cache, heap.frames, heap.frames.lists, heap.ram
      ensures Ready(heap, place', root) && Borrowed(old(heap.live), heap.live, place, place')
      ensures OthersKept(old(heap.ram.words), heap.ram.words, old(heap.live), place)
      ensures Grown(old(heap.ram.words), heap.ram.words, place, place', root, base, region.base, region.End())
      ensures r.Ok? ==>
                Translates(old(heap.ram.words), heap.ram.words, base, place[base], region.base, region.End(),
                           region.End(), template)
      ensures r.Err? ==>
                Untorn(old(heap.ram.words), heap.ram.words, base, place[base], region.base, region.End(), template)
      ensures |place'| <= |place| + Edge(level, region.base) + Edge(level, region.End())
      ensures r.Err? ==> Blames(r.error, old(heap.ram.words), place, base, region.base, region.End())
      ensures r.Err? && r.error.OutOfMemory? ==>
                NoTableLeft(heap, old(heap.live)) && OutOfPages(heap, place', place[base], region.base, region.End())
      ensures Unblocked(old(heap.ram.words), heap.ram.words, place)
      ensures Tally(heap.start, old(FreeCount(heap)), FreeCount(heap), place, place')
      ensures Exactly(heap, r, old(heap.ram.words), place, base, region.base, region.End(), old(FreeCount(heap)))
      ensures r.Ok? ==>
                forall va: nat | region.base <= va < region.End() :: Gives(heap.ram.words, root, va, template)
      decreases 3 - level.Number(), 1
    {
      hide Heap.Valid, Tree, Leads, FromWord, ToWord, TablePage, Lent, Borrowed, OthersKept, Grown, Translates,
        Untorn, Progress, Blames, NoTableLeft, WordOf, GoodPlace, Edge, Walk, Halted, Fills, Unblocked, Tally,
        OutOfPages, FreeCount, Exactly, Gives;
      ghost var w0, live0, lo, hi := heap.ram.words, heap.live, region.base, region.End();
      ghost var free0 := FreeCount(heap);
      place' := place;
      var addr := region.base;
      SameRefl(heap, place);
      LoopStart(w0, place, root, base, lo, hi, template);
      SameBlocks(w0, place);
      SameTally(heap.start, FreeCount(heap), place);
      while addr < region.End()
        invariant lo <= addr <= hi
        invariant Ready(heap, place', root) && Borrowed(live0, heap.live, place, place')
        invariant OthersKept(w0, heap.ram.words, live0, place)
        invariant Progress(w0, heap.ram.words, place, place', root, base, lo, addr, hi, template)
        invariant |place'| <= |place| + Spent(level, lo, addr, hi)
        invariant Unblocked(w0, heap.ram.words, place) && Tally(heap.start, free0, FreeCount(heap), place, place')
        invariant Paged(lo, addr)
        decreases hi - addr
      {
        PassFacts(heap, w0, place, place', root, base, lo, addr, hi, template);
        var slotEnd := level.SlotStart(addr) + level.Size();
        var chunkEnd := Min(slotEnd, region.End());
        if level.IsAligned(addr) && chunkEnd == slotEnd {
          r := MapSlot(heap, addr, template, level, root, w0, live0, place, place', lo, hi);
          SpentFull(level, lo, addr, hi);
        } else {
          r, place' := MapBelow(heap, addr, chunkEnd, template, level, root, w0, live0, free0, place, place', lo, hi);
        }
        if r.Err? {
          HaltedFacts(w0, heap.ram.words, live0, heap.live, place, place', root, base, lo, hi, template);
          SpentBound(level, lo, addr, hi);
          SpentBound(level, lo, chunkEnd, hi);
          NotMapped(heap, r.error, w0, place, place', root, base, lo, hi, free0);
          return r, place';
        }
        addr := chunkEnd;
      }
      AllMapped(w0, heap.ram.words, place, place', root, base, lo, addr, hi, template);
      SpentBound(level, lo, addr, hi);
      Mapped(heap, w0, place, place', root, base, lo, hi, template, free0);
      RangeGiven(w0, heap.ram.words, place, place', root, base, lo, hi, template);
      return Ok(()), place';
    }

    /** A chunk that fills its slot exactly: one leaf covers it. */
    method MapSlot(heap: Heap, addr: nat, template: Descriptor, level: Level, ghost root: nat, ghost w0: seq<Word>,
                   ghost live0: Live, ghost place0: Places, ghost place: Places, ghost lo: nat, ghost hi: nat)
      returns (r: Result<(), MapError>)
      requires Ready(heap, place, root) && Borrowed(live0, heap.live, place0, place)
      requires OthersKept(w0, heap.ram.words, live0, place0)
      requires Progress(w0, heap.ram.words, place0, place, root, base, lo, addr, hi, template) && addr < hi
      requires base in place0 && place0[base].level == level && Fills(level, addr, hi)
      requires Unblocked(w0, heap.ram.words, place0)
      modifies heap.ram
      ensures Ready(heap, place, root) && Unblocked(w0, heap.ram.words, place0)
      ensures r.Ok? ==>
                && addr % PAGE_SIZE == 0 && ChunkEnd(level, addr, hi) % PAGE_SIZE == 0
                && OthersKept(w0, heap.ram.words, live0, place0)
                && Progress(w0, heap.ram.words, place0, place, root, base, lo, ChunkEnd(level, addr, hi), hi, template)
      ensures r.Err? ==>
                && Halted(w0, heap.ram.words, live0, heap.live, place0, place, root, base, lo, hi, template)
                && Blames(r.error, w0, place0, base, lo, hi) && !r.error.OutOfMemory?
    {
      hide Heap.Valid, Tree, Leads, FromWord, ToWord, InFootprint, TablePage, Lent, Borrowed, OthersKept, Progress,
        Blames, WordOf, GoodPlace, Walk, Halted, Fills, Unblocked;
      ghost var w := heap.ram.words;
      FilledIsPaged(level, addr, hi);
      PassFacts(heap, w0, place0, place, root, base, lo, addr, hi, template);
      var desc := Get(heap, level.SlotOf(addr));
      if level.Next().Some? && desc.kind == Kind.Table {
        StopHere(w0, w, place0, place, root, base, lo, addr, hi, template);
        HaltHere(w0, w, live0, heap.live, place0, place, root, base, lo, hi, template);
        TableBlocks(w0, w, place0, place, root, base, lo, addr, hi, template);
        return Err(TableInTheWay(addr, level));
      }
      TableWords(heap, base);
      Set(heap, level.SlotOf(addr), template.(kind := KindOf(level), address := addr));
      LeafWritten(w0, w, heap.ram.words, live0, heap.live, place0, place, root, base, lo, addr, hi, template);
      BlocksChain(w0, w, heap.ram.words, place0, place);
      return Ok(());
    }

    /** A chunk that covers part of its slot: a finer table takes it, if there is a finer level. */
    method MapBelow(heap: Heap, addr: nat, chunkEnd: nat, template: Descriptor, level: Level, ghost root: nat,
                    ghost w0: seq<Word>, ghost live0: Live, ghost free0: nat, ghost place0: Places,
                    ghost place: Places, ghost lo: nat, ghost hi: nat)
      returns (r: Result<(), MapError>, ghost place': Places)
      requires Ready(heap, place, root) && Borrowed(live0, heap.live, place0, place)
      requires OthersKept(w0, heap.ram.words, live0, place0)
      requires Progress(w0, heap.ram.words, place0, place, root, base, lo, addr, hi, template) && addr < hi
      requires base in place0 && place0[base].level == level && !Fills(level, addr, hi)
      requires chunkEnd == ChunkEnd(level, addr, hi)
      requires |place| <= |place0| + Spent(level, lo, addr, hi)
      requires Unblocked(w0, heap.ram.words, place0) && Tally(heap.start, free0, FreeCount(heap), place0, place)
      modifies heap`live, heap.cache, heap.frames, heap.frames.lists, heap.ram
      ensures Ready(heap, place', root)
      ensures Unblocked(w0, heap.ram.words, place0) && Tally(heap.start, free0, FreeCount(heap), place0, place')
      ensures r.Ok? ==>
                && addr % PAGE_SIZE == 0 && chunkEnd % PAGE_SIZE == 0
                && Borrowed(live0, heap.live, place0, place') && OthersKept(w0, heap.ram.words, live0, place0)
                && Progress(w0, heap.ram.words, place0, place', root, base, lo, chunkEnd, hi, template)
                && |place'| <= |place0| + Spent(level, lo, chunkEnd, hi)
      ensures r.Err? ==>
                && Halted(w0, heap.ram.words, live0, heap.live, place0, place', root, base, lo, hi, template)
                && |place'| <= |place0| + Edge(level, lo) + Edge(level, hi)
                && Blames(r.error, w0, place0, base, lo, hi)
                && (r.error.OutOfMemory? ==> NoTableLeft(heap, live0) && OutOfPages(heap, place', place0[base], lo, hi))
      decreases 3 - level.Number(), 0
    {
      hide Heap.Valid, Tree, Leads, FromWord, InFootprint, TablePage, Lent, Borrowed, OthersKept, TablesSame, Grown,
        Translates, Untorn, Descends, NewChild, Progress, Blames, NoTableLeft, WordOf, GoodPlace, Edge, Walk, Halted,
        Fills, Unblocked, Tally, OutOfPages, FreeCount, Exactly, Gives;
      ghost var w, live := heap.ram.words, heap.live;
      place' := place;
      PassFacts(heap, w0, place0, place, root, base, lo, addr, hi, template);
      SpentBound(level, lo, addr, hi);
      var next := level.Next();
      if next == None {
        StopHere(w0, w, place0, place, root, base, lo, addr, hi, template);
        HaltHere(w0, w, live0, live, place0, place, root, base, lo, hi, template);
        TooFine(w0, w, place0, place, root, base, lo, addr, hi, template);
        return Err(Unaligned(addr)), place';
      }
      var child, place1 := ChildTable(heap, addr, level, root, place);
      place' := place1;
      ghost var w1, live1, free1 := heap.ram.words, heap.live, FreeCount(heap);
      TallyChain(heap.start, free0, old(FreeCount(heap)), free1, place0, place, place1);
      ghost var c := if child.Ok? then child.value.base else 0;
      ChildDone(w0, w, w1, live0, live, live1, place0, place, place1, root, base, c, lo, addr, hi, template);
      if child.Err? {
        ChildFailed(heap, child.error, w0, w, live0, live, place0, place, root, base, lo, addr, hi, template);
        return Err(child.error), place';
      }
      ChunkBelow(w0, w1, place0, place1, root, base, c, lo, addr, hi, template);
      r, place' := child.value.MapRange(heap, Region(addr, chunkEnd - addr), template, next.value, root, place1);
      BorrowChain(live0, live1, heap.live, place0, place1, place');
      DataChain(w0, w1, heap.ram.words, live0, live1, place0, place1);
      SpentCall(level, lo, addr, hi, |place0|, |place|, |place'|);
      TallyChain(heap.start, free0, free1, FreeCount(heap), place0, place1, place');
      CallBlocks(w0, w1, heap.ram.words, place0, place1, root, base, lo, addr, hi, template);
      if r.Err? {
        CallFailed(heap, r.error, w0, w1, live0, live1, place0, place1, place', root, base, c, lo, addr, hi, template);
      } else {
        PagedBelow(heap, r, w1, place1, c, addr, chunkEnd, free1);
        CallStep(w0, w1, heap.ram.words, place0, place1, place', root, base, c, lo, addr, hi, template);
      }
    }

    /** Maps a range to itself from the root. It costs at most four tables: two of level 2 and two of level 3. */
    method IdentityMap(heap: Heap, region: Region, template: Descriptor, ghost place: Places)
      returns (r: Result<(), MapError>, ghost place': Places)
      requires Ready(heap, place, base) && region.End() <= SPACE
      modifies heap`live, heap.cache, heap.frames, heap.frames.lists, heap.ram
      ensures Ready(heap, place', base) && Borrowed(old(heap.live), heap.live, place, place')
      ensures OthersKept(old(heap.ram.words), heap.ram.words, old(heap.live), place)
      ensures base in place
      ensures Grown(old(heap.ram.words), heap.ram.words, place, place', base, base, region.base, region.End())
      ensures r.Ok? ==>
                Translates(old(heap.ram.words), heap.ram.words, base, Place(Level1, 0), region.base, region.End(),
                           region.End(), template)
      ensures r.Err? ==>
                Untorn(old(heap.ram.words), heap.ram.words, base, Place(Level1, 0), region.base, region.End(), template)
      ensures |place'| <= |place| + 4
      ensures NewAt(place, place', Level1) == {} && |NewAt(place, place', Level2)| <= 2
      ensures |NewAt(place, place', Level3)| <= 2
      ensures r.Err? ==> Blames(r.error, old(heap.ram.words), place, base, region.base, region.End())
      ensures r.Err? && r.error.OutOfMemory? ==> NoTableLeft(heap, old(heap.live))
      ensures Exactly(heap, r, old(heap.ram.words), place, base, region.base, region.End(), old(FreeCount(heap)))
      ensures r.Ok? ==>
                forall va: nat | region.base <= va < region.End() :: Gives(heap.ram.words, base, va, template)
    {
      hide Heap.Valid, Lent, Borrowed, OthersKept, Grown, Translates, Untorn, Blames, NoTableLeft, Walk, Unblocked,
        Tally, OutOfPages, Exactly, Gives;
      RootPlace(heap.ram.words, place, base);
      EdgeBound(Level1, region.base);
      EdgeBound(Level1, region.End());
      ghost var w := heap.ram.words;
      r, place' := MapRange(heap, region, template, Level1, base, place);
      TwoPerLevel(w, heap.ram.words, place, place', base, region.base, region.End());
    }

    /** Walks the tables the way the hardware would, and says where `va` lands. */
    method TranslateAt(heap: Heap, va: nat, level: Level, ghost root: nat,
                       ghost place: Places) returns (r: Option<Landing>)
      requires Ready(heap, place, root) && base in place && place[base].level == level && place[base].Contains(va)
      ensures r == Walk(heap.ram.words, base, level, va)
      decreases 3 - level.Number()
    {
      hide Heap.Valid, Tree, FromWord, TablePage, Lent, GoodPlace, Descends, Level.Size, Level.SlotOf,
        Level.SlotStart, SlotEnd, Place.Contains, Place.End, Land;
      ReadyAt(heap, place, root, base, va);
      WalkStep(heap.ram.words, base, level, va);
      hide WordOf, SlotAt, Walk;
      var descriptor := Get(heap, level.SlotOf(va));
      match descriptor.kind {
        case Invalid =>
          return None;
        case Block =>
          return Some(Land(descriptor, level, va));
        case Table =>
          var next := level.Next();
          if next == None {
            return Some(Land(descriptor, level, va));
          }
          FollowSlot(heap.ram.words, place, root, base, va);
          DescendFacts(heap.ram.words, place, root, base, descriptor.address, va);
          InSlot(place, base, descriptor.address, va);
          var below := FromBase(descriptor.address);
          r := below.value.TranslateAt(heap, va, next.value, root, place);
      }
    }

    /**
     Maps every region of a plan as its template says and the rest of the arena as `fill` says.

     The only errors are two lines that claim the same memory, found before anything is written, and a
     line that could not be mapped; when nothing was mapped there before and the regions are made of
     pages, the only way for that to happen is to run out of memory.
    */
    method Apply(heap: Heap, arena: Region, plan: seq<Mapping>, fill: Descriptor, ghost place: Places)
      returns (r: Result<(), PlanError>, ghost place': Places)
      requires Ready(heap, place, base)
      requires arena.End() <= SPACE && forall i | 0 <= i < |plan| && plan[i].template.Some? ::
                 plan[i].region.End() <= SPACE
      modifies heap`live, heap.cache, heap.frames, heap.frames.lists, heap.ram
      ensures Ready(heap, place', base) && Borrowed(old(heap.live), heap.live, place, place')
      ensures OthersKept(old(heap.ram.words), heap.ram.words, old(heap.live), place)
      ensures r.Ok? ==>
                && Realised(old(heap.ram.words), heap.ram.words, base, arena, plan, fill)
                && ServesPlan(place, place', arena, plan)
      ensures Otherwise(old(heap.ram.words), heap.ram.words, base, arena, plan)
      ensures !NoClash(plan) <==> r.Err? && r.error.Overlap?
      ensures r.Err? && r.error.Overlap? ==> NamesClash(plan, r.error.one, r.error.other)
      ensures !NoClash(plan) ==> heap.ram.words == old(heap.ram.words) && heap.live == old(heap.live)
      ensures base in place
      ensures PlanClear(old(heap.ram.words), place, base, arena, plan) ==>
                && (r.Err? && r.error.Failed? ==> r.error.error.OutOfMemory?)
                && LeavesKept(old(heap.ram.words), heap.ram.words, place)
      ensures r.Err? ==>
                && !r.error.NoTable?
                && (r.error.Failed? && r.error.error.OutOfMemory? ==> NoTableLeft(heap, old(heap.live)))
    {
      hide Heap.Valid, Tree, Lent, Borrowed, OthersKept, Grown, Translates, Untorn, Clear, Walk, Applied,
        TemplateJobs, AllJobs, Realised, Otherwise, PlanClear, ExactRuns, Apart, NoClash, RunRegion, ServesPlan,
        Served, NoTableLeft, LeavesKept;
      ghost var w0, live0 := heap.ram.words, heap.live;
      place' := place;
      SameRefl(heap, place);
      RootPlace(w0, place, base);
      AloneAlready(w0, base, arena, plan);
      LeavesAsTheyWere(w0, place);
      var clash := FirstClash(plan);
      if clash.Some? {
        return Err(Overlap(plan[clash.value.0].name, plan[clash.value.1].name)), place';
      }
      ghost var jobs: seq<Job> := [];
      NothingApplied(w0, place, base);
      NoLines(plan);
      var i := 0;
      while i < |plan|
        invariant i <= |plan| && TemplateJobs(plan, i, jobs)
        invariant Ready(heap, place', base) && Borrowed(live0, heap.live, place, place')
        invariant OthersKept(w0, heap.ram.words, live0, place)
        invariant Applied(w0, heap.ram.words, place, place', base, jobs)
        invariant PlanClear(w0, place, base, arena, plan) ==> LeavesKept(w0, heap.ram.words, place)
      {
        OneMoreLine(plan, i, jobs);
        LineApart(plan, i, jobs);
        if plan[i].template.Some? {
          LineClear(w0, place, base, arena, plan, i);
          ghost var job := Job(plan[i].region, plan[i].template.value);
          var done;
          done, place' := DoJob(heap, plan[i].region, plan[i].template.value, w0, live0, place, place', jobs);
          jobs := jobs + [job];
          if done.Err? {
            LinesElsewhere(w0, heap.ram.words, base, arena, plan, i + 1, jobs);
            return Err(Failed(plan[i].name, done.error)), place';
          }
        }
        i := i + 1;
      }
      var runs := AllRuns(arena, RegionsOf(plan));
      LinesAreJobs(plan, arena, runs, fill, jobs);
      var k := 0;
      while k < |runs|
        invariant k <= |runs| && AllJobs(plan, arena, runs, k, fill, jobs)
        invariant Ready(heap, place', base) && Borrowed(live0, heap.live, place, place')
        invariant OthersKept(w0, heap.ram.words, live0, place)
        invariant Applied(w0, heap.ram.words, place, place', base, jobs)
        invariant PlanClear(w0, place, base, arena, plan) ==> LeavesKept(w0, heap.ram.words, place)
      {
        OneMoreRun(plan, arena, runs, k, fill, jobs);
        RunApart(plan, arena, runs, k, fill, jobs);
        RunFits(arena, plan, runs, k);
        if PlanClear(w0, place, base, arena, plan) {
          RunClear(w0, place, base, arena, plan, runs, k);
        }
        var done;
        done, place' := DoJob(heap, RunRegion(runs[k]), fill, w0, live0, place, place', jobs);
        jobs := jobs + [RunJob(runs[k], fill)];
        if done.Err? {
          RunsElsewhere(w0, heap.ram.words, base, arena, plan, runs, k + 1, fill, jobs);
          return Err(Failed("unclaimed memory", done.error)), place';
        }
        k := k + 1;
      }
      AllDone(w0, heap.ram.words, place, place', base, plan, arena, runs, fill, jobs);
      AppliedServed(w0, heap.ram.words, place, place', base, jobs);
      TablesServe(place, place', plan, arena, runs, fill, jobs);
      return Ok(()), place';
    }

    /** One range mapped on the way through a plan. */
    method DoJob(heap: Heap, region: Region, template: Descriptor, ghost w0: seq<Word>, ghost live0: Live,
                 ghost place0: Places, ghost place: Places, ghost jobs: seq<Job>)
      returns (r: Result<(), MapError>, ghost place': Places)
      requires Ready(heap, place, base) && region.End() <= SPACE && Apart(jobs, region)
      requires Borrowed(live0, heap.live, place0, place) && OthersKept(w0, heap.ram.words, live0, place0)
      requires Applied(w0, heap.ram.words, place0, place, base, jobs)
      requires base in place0 && place0[base] == Place(Level1, 0)
      modifies heap`live, heap.cache, heap.frames, heap.frames.lists, heap.ram
      ensures Ready(heap, place', base) && Borrowed(live0, heap.live, place0, place')
      ensures OthersKept(w0, heap.ram.words, live0, place0)
      ensures r.Ok? ==> Applied(w0, heap.ram.words, place0, place', base, jobs + [Job(region, template)])
      ensures r.Err? ==> Elsewhere(w0, heap.ram.words, base, jobs + [Job(region, template)])
      ensures Clear(w0, place0, base, region.base, region.End()) ==>
                && (r.Ok? || r.error.OutOfMemory?)
                && LeavesKept(old(heap.ram.words), heap.ram.words, place)
                && (LeavesKept(w0, old(heap.ram.words), place0) ==> LeavesKept(w0, heap.ram.words, place0))
      ensures r.Err? && r.error.OutOfMemory? ==> NoTableLeft(heap, live0)
    {
      hide Heap.Valid, Tree, Lent, Borrowed, OthersKept, Grown, Translates, Untorn, Clear, Blames, NoTableLeft, Walk,
        Applied, Elsewhere, Apart, LeavesKept, Gives;
      ghost var w, live := heap.ram.words, heap.live;
      RootPlace(w, place, base);
      ServedTables(w0, w, place0, place, base, jobs);
      if Clear(w0, place0, base, region.base, region.End()) {
        ClearStays(w0, w, place0, place, base, jobs, region);
      }
      r, place' := IdentityMap(heap, region, template, place);
      BorrowChain(live0, live, heap.live, place0, place, place');
      DataChain(w0, w, heap.ram.words, live0, live, place0, place);
      if Clear(w0, place0, base, region.base, region.End()) {
        JobKeepsLeaves(w0, w, heap.ram.words, place0, place, place', base, region);
      }
      if r.Ok? {
        JobDone(w0, w, heap.ram.words, place0, place, place', base, jobs, Job(region, template));
      } else {
        JobFailed(w0, w, heap.ram.words, place0, place, base, jobs, Job(region, template));
        if r.error.OutOfMemory? {
          StillBorrowed(live0, live, place0, place);
          NoTableStill(heap, live0, live);
        }
        if Clear(w0, place0, base, region.base, region.End()) {
          ClearBlameless(r.error, w, place, base, region.base, region.End());
        }
      }
    }
  }

  /** The tables of one level made on the way. */
  ghost function NewAt(place: Places, place': Places, l: Level): set<nat> {
    set t | t in place' && t !in place && place'[t].level == l
  }

  /** Each reaches across an end of the range, and one table of a level does for each end. */
  lemma TwoPerLevel(w: seq<Word>, w': seq<Word>, place: Places, place': Places, root: nat, lo: nat, hi: nat)
    requires root in place && place[root].level == Level1 && Grown(w, w', place, place', root, root, lo, hi)
    ensures NewAt(place, place', Level1) == {} && |NewAt(place, place', Level2)| <= 2
    ensures |NewAt(place, place', Level3)| <= 2
  {
    hide SlotsKept, Tree, Rooted;
    forall l: Level
      ensures |NewAt(place, place', l)| <= 2
    {
      var new_ := NewAt(place, place', l);
      var (first, last) := (set t | t in new_ && Across(place'[t], lo), set t | t in new_ && Across(place'[t], hi));
      assert new_ == first + last;
      AtMostOne(first, w', place', root, l, lo);
      AtMostOne(last, w', place', root, l, hi);
    }
  }

  predicate Across(p: Place, x: nat) {
    p.start < x < p.End()
  }

  lemma AtMostOne(tables: set<nat>, w: seq<Word>, place: Places, root: nat, l: Level, x: nat)
    requires Tree(w, place, root) && forall t | t in tables :: t in place && place[t].level == l && Across(place[t], x)
    ensures |tables| <= 1
  {
    if t :| t in tables {
      forall u | u in tables
        ensures u == t
      {
        GoodAt(|w|, place, t);
        GoodAt(|w|, place, u);
        SameStart(l.Span(), place[t].start, place[u].start, x);
        OneTable(w, place, root, t, u);
      }
      assert tables == {t};
    }
  }

  /** A job whose range is clear overwrites no leaf, whether or not it succeeds. */
  lemma JobKeepsLeaves(w0: seq<Word>, w: seq<Word>, w': seq<Word>, place0: Places, place: Places, place': Places,
                       root: nat, region: Region)
    requires Tree(w, place, root) && root in place && place[root] == Place(Level1, 0)
    requires Clear(w, place, root, region.base, region.End())
    requires Grown(w, w', place, place', root, root, region.base, region.End())
    requires forall u | u in place0 :: u in place && place[u] == place0[u]
    ensures LeavesKept(w, w', place) && (LeavesKept(w0, w, place0) ==> LeavesKept(w0, w', place0))
  {
    hide Tree, Clear, LeavesKept;
    ClearKeepsLeaves(w, w', place, root, region.base, region.End());
    hide Grown, SlotsKept;
    if LeavesKept(w0, w, place0) {
      LeavesChain(w0, w, w', place0, place);
    }
  }

  ghost predicate NamesClash(plan: seq<Mapping>, one: string, other: string) {
    exists i, k ::
      0 <= i < k < |plan| && Clash(plan[i].region, plan[k].region) && one == plan[i].name && other == plan[k].name
  }

  /** The first two lines that claim the same memory, in the order the source compares them. */
  method FirstClash(plan: seq<Mapping>) returns (r: Option<(nat, nat)>)
    ensures r.None? <==> NoClash(plan)
    ensures r.Some? ==>
              && r.value.0 < r.value.1 < |plan| && Clash(plan[r.value.0].region, plan[r.value.1].region)
              && forall a, b | 0 <= a < b < |plan| && (a < r.value.0 || (a == r.value.0 && b < r.value.1)) ::
                   !Clash(plan[a].region, plan[b].region)
  {
    for i := 0 to |plan|
      invariant forall a, b | 0 <= a < i && a < b < |plan| :: !Clash(plan[a].region, plan[b].region)
    {
      for k := i + 1 to |plan|
        invariant forall b | i < b < k :: !Clash(plan[i].region, plan[b].region)
      {
        if Clash(plan[i].region, plan[k].region) {
          return Some((i, k));
        }
      }
    }
    return None;
  }

  lemma AloneAlready(w: seq<Word>, root: nat, arena: Region, plan: seq<Mapping>)
    ensures Otherwise(w, w, root, arena, plan)
  {
  }

  lemma LeavesAsTheyWere(w: seq<Word>, place: Places)
    ensures LeavesKept(w, w, place)
  {
    hide IsLeaf;
  }

  lemma NoLines(plan: seq<Mapping>)
    ensures TemplateJobs(plan, 0, [])
  {
  }

  lemma LinesAreJobs(plan: seq<Mapping>, arena: Region, runs: seq<PageRange>, fill: Descriptor, jobs: seq<Job>)
    requires TemplateJobs(plan, |plan|, jobs)
    ensures AllJobs(plan, arena, runs, 0, fill, jobs)
  {
  }

  lemma LinesElsewhere(w0: seq<Word>, w: seq<Word>, root: nat, arena: Region, plan: seq<Mapping>, n: nat,
                       jobs: seq<Job>)
    requires n <= |plan| && TemplateJobs(plan, n, jobs) && Elsewhere(w0, w, root, jobs)
    ensures Otherwise(w0, w, root, arena, plan)
  {
    hide TemplateJobs, LeftAlone, Walk;
    forall va: nat | va < SPACE && LeftAlone(arena, plan, va)
      ensures Walk(w, root, Level1, va) == Walk(w0, root, Level1, va)
    {
      LinesLeftUnclaimed(plan, arena, n, jobs, va);
    }
  }

  lemma RunsElsewhere(w0: seq<Word>, w: seq<Word>, root: nat, arena: Region, plan: seq<Mapping>, runs: seq<PageRange>,
                      n: nat, fill: Descriptor, jobs: seq<Job>)
    requires n <= |runs| && AllJobs(plan, arena, runs, n, fill, jobs) && ExactRuns(arena, RegionsOf(plan), runs)
    requires Elsewhere(w0, w, root, jobs)
    ensures Otherwise(w0, w, root, arena, plan)
  {
    hide AllJobs, LeftAlone, Walk, ExactRuns;
    forall va: nat | va < SPACE && LeftAlone(arena, plan, va)
      ensures Walk(w, root, Level1, va) == Walk(w0, root, Level1, va)
    {
      LeftUnclaimed(plan, arena, runs, n, fill, jobs, va);
    }
  }

  lemma LineClear(w: seq<Word>, place: Places, root: nat, arena: Region, plan: seq<Mapping>, i: nat)
    requires root in place && i < |plan| && plan[i].template.Some?
    ensures PlanClear(w, place, root, arena, plan) ==> Clear(w, place, root, plan[i].region.base, plan[i].region.End())
  {
    hide Clear, Walk;
  }

  lemma RunFits(arena: Region, plan: seq<Mapping>, runs: seq<PageRange>, n: nat)
    requires n < |runs| && ExactRuns(arena, RegionsOf(plan), runs) && arena.End() <= SPACE
    ensures RunRegion(runs[n]).End() <= SPACE
  {
    var run := runs[n];
    assert MaximalRun(arena, RegionsOf(plan), run);
    assert run.Contains(run.start) && run.Contains(run.end - 1);
    RunWithin(arena, RegionsOf(plan), run);
  }

  lemma AppliedServed(w0: seq<Word>, w: seq<Word>, place0: Places, place: Places, root: nat, jobs: seq<Job>)
    requires Applied(w0, w, place0, place, root, jobs)
    ensures Served(place0, place, jobs)
  {
    hide Tree, Walk, Elsewhere, Served;
  }

  lemma ServedTables(w0: seq<Word>, w: seq<Word>, place0: Places, place: Places, root: nat, jobs: seq<Job>)
    requires Applied(w0, w, place0, place, root, jobs)
    ensures forall u | u in place0 :: u in place && place[u] == place0[u]
  {
    hide Tree, Walk, Elsewhere, Reaches;
  }

  lemma RootPlace(w: seq<Word>, place: Places, root: nat)
    requires Tree(w, place, root)
    ensures root in place && place[root] == Place(Level1, 0) && Place(Level1, 0).End() == SPACE
  {
  }

  /** Mapping `[lo, hi)` stopped on an error: nothing is torn, and nobody else's data was touched. */
  ghost predicate Halted(w0: seq<Word>, w: seq<Word>, live0: Live, live: Live, place0: Places, place: Places,
                         root: nat, t: nat, lo: nat, hi: nat, template: Descriptor) {
    && t in place0 && Grown(w0, w, place0, place, root, t, lo, hi) && Untorn(w0, w, t, place0[t], lo, hi, template)
    && Borrowed(live0, live, place0, place) && OthersKept(w0, w, live0, place0)
  }

  lemma HaltHere(w0: seq<Word>, w: seq<Word>, live0: Live, live: Live, place0: Places, place: Places, root: nat,
                 t: nat, lo: nat, hi: nat, template: Descriptor)
    requires t in place0 && Grown(w0, w, place0, place, root, t, lo, hi)
    requires Untorn(w0, w, t, place0[t], lo, hi, template)
    requires Borrowed(live0, live, place0, place) && OthersKept(w0, w, live0, place0)
    ensures Halted(w0, w, live0, live, place0, place, root, t, lo, hi, template)
  {
  }

  lemma HaltedFacts(w0: seq<Word>, w: seq<Word>, live0: Live, live: Live, place0: Places, place: Places, root: nat,
                    t: nat, lo: nat, hi: nat, template: Descriptor)
    requires Halted(w0, w, live0, live, place0, place, root, t, lo, hi, template)
    ensures t in place0 && Grown(w0, w, place0, place, root, t, lo, hi) && Untorn(w0, w, t, place0[t], lo, hi, template)
    ensures Borrowed(live0, live, place0, place) && OthersKept(w0, w, live0, place0)
  {
  }

  /** Tables spent once the walk has come to `addr`. */
  function Spent(l: Level, lo: nat, addr: nat, hi: nat): nat {
    (if addr == lo then 0 else Edge(l, lo)) + (if addr == hi && addr != lo then Edge(l, hi) else 0)
  }

  lemma SpentBound(l: Level, lo: nat, addr: nat, hi: nat)
    ensures Spent(l, lo, addr, hi) <= Edge(l, lo) + Edge(l, hi)
  {
  }

  lemma SpentFull(l: Level, lo: nat, addr: nat, hi: nat)
    requires lo <= addr < hi && Fills(l, addr, hi)
    ensures Spent(l, lo, addr, hi) <= Spent(l, lo, ChunkEnd(l, addr, hi), hi)
  {
  }

  lemma SpentCall(l: Level, lo: nat, addr: nat, hi: nat, count: nat, before: nat, after: nat)
    requires l.Next().Some? && lo <= addr < hi && !Fills(l, addr, hi) && (addr == lo || l.IsAligned(addr))
    requires before <= count + Spent(l, lo, addr, hi)
    requires var end := ChunkEnd(l, addr, hi);
             after <= before + 1 + Edge(l.Next().value, addr) + Edge(l.Next().value, end)
    ensures after <= count + Spent(l, lo, ChunkEnd(l, addr, hi), hi) <= count + Edge(l, lo) + Edge(l, hi)
  {
    hide Edge;
    NextAligned(l, addr);
    var end := ChunkEnd(l, addr, hi);
    EdgeStep(l, lo, addr, hi, Spent(l, lo, addr, hi), 1 + Edge(l.Next().value, addr) + Edge(l.Next().value, end));
  }

  lemma LoopStart(w: seq<Word>, place: Places, root: nat, t: nat, lo: nat, hi: nat, template: Descriptor)
    requires Tree(w, place, root) && t in place && place[t].start <= lo <= hi <= place[t].End()
    ensures Progress(w, w, place, place, root, t, lo, lo, hi, template)
  {
    GoodAt(|w|, place, t);
    hide Tree, GoodPlace;
    assert Tree(w, place, root);
    Untouched(w, place, root, t, lo, hi, template);
  }

  lemma AllMapped(w0: seq<Word>, w: seq<Word>, place0: Places, place: Places, root: nat, t: nat, lo: nat, addr: nat,
                  hi: nat, template: Descriptor)
    requires Progress(w0, w, place0, place, root, t, lo, addr, hi, template) && addr == hi
    ensures Grown(w0, w, place0, place, root, t, lo, hi) && Translates(w0, w, t, place0[t], lo, hi, hi, template)
  {
    hide Grown, Translates;
  }

  /** What a pass can rely on. */
  lemma PassFacts(heap: Heap, w0: seq<Word>, place0: Places, place: Places, root: nat, t: nat, lo: nat, addr: nat,
                  hi: nat, template: Descriptor)
    requires Ready(heap, place, root) && Progress(w0, heap.ram.words, place0, place, root, t, lo, addr, hi, template)
    requires addr < hi
    ensures t in place0 && t in place && place[t] == place0[t] && place[t].Contains(addr) && lo <= addr
    ensures t in heap.live && heap.live[t] == TABLE_LAYOUT
    ensures var l := place[t].level;
            && (addr == lo || l.IsAligned(addr))
            && l.SlotOf(addr) < SLOTS && l.SlotOf(addr) % SLOTS == l.SlotOf(addr)
            && WordOf(t, l.SlotOf(addr)) < |heap.ram.words|
            && addr < ChunkEnd(l, addr, hi) <= hi && ChunkEnd(l, addr, hi) == Min(l.SlotStart(addr) + l.Size(), hi)
            && (Fills(l, addr, hi) <==> l.IsAligned(addr) && ChunkEnd(l, addr, hi) == l.SlotStart(addr) + l.Size())
  {
    hide Heap.Valid, Tree, Grown, Translates, Lent, GoodPlace;
    ProgressFacts(w0, heap.ram.words, place0, place, root, t, lo, addr, hi, template);
    ReadyAt(heap, place, root, t, addr);
    ChunkFacts(place[t], lo, addr, hi);
  }

  /** A table where a leaf should go: it was there before. */
  lemma TableBlocks(w0: seq<Word>, w: seq<Word>, place0: Places, place: Places, root: nat, t: nat, lo: nat, addr: nat,
                    hi: nat, template: Descriptor)
    requires Progress(w0, w, place0, place, root, t, lo, addr, hi, template) && addr < hi
    requires Fills(place0[t].level, addr, hi)
    requires var l := place0[t].level;
             && l.Next().Some? && l.SlotOf(addr) < SLOTS && WordOf(t, l.SlotOf(addr)) < |w|
             && SlotAt(w, t, l.SlotOf(addr)).kind == Kind.Table
    ensures Blames(TableInTheWay(addr, place0[t].level), w0, place0, t, lo, hi)
  {
    hide Progress, FromWord;
    ProgressFacts(w0, w, place0, place, root, t, lo, addr, hi, template);
    TableBlames(w0, w, place0, place, root, t, lo, addr, hi, template);
  }

  lemma TooFine(w0: seq<Word>, w: seq<Word>, place0: Places, place: Places, root: nat, t: nat, lo: nat, addr: nat,
                hi: nat, template: Descriptor)
    requires Progress(w0, w, place0, place, root, t, lo, addr, hi, template) && addr < hi && place0[t].level == Level3
    requires !Fills(Level3, addr, hi)
    ensures Blames(Unaligned(addr), w0, place0, t, lo, hi)
  {
    ChunkOf(w0, w, place0, place, root, t, lo, addr, hi, template);
    hide Walk, NoTableInside, Grown, Translates;
    PartPageBlames(lo, addr, hi);
  }

  lemma ChildBlames(error: MapError, w0: seq<Word>, w: seq<Word>, place0: Places, place: Places, root: nat, t: nat,
                    lo: nat, addr: nat, hi: nat, template: Descriptor)
    requires Progress(w0, w, place0, place, root, t, lo, addr, hi, template) && addr < hi
    requires !error.OutOfMemory? ==>
               && error == BlockInTheWay(addr, place0[t].level) && WordOf(t, place0[t].level.SlotOf(addr)) < |w|
               && SlotAt(w, t, place0[t].level.SlotOf(addr)).kind == Block
    requires place0[t].level.Next().Some? && !Fills(place0[t].level, addr, hi)
    ensures Blames(error, w0, place0, t, lo, hi)
  {
    hide FromWord, Walk, Grown, Translates;
    if !error.OutOfMemory? {
      BlockBlames(w0, w, place0, place, root, t, lo, addr, hi, template);
    }
  }

  /** A leaf was written: the walk moves on and nobody else's data was touched. */
  lemma LeafWritten(w0: seq<Word>, w: seq<Word>, w': seq<Word>, live0: Live, live: Live, place0: Places,
                    place: Places, root: nat, t: nat, lo: nat, addr: nat, hi: nat, template: Descriptor)
    requires Progress(w0, w, place0, place, root, t, lo, addr, hi, template) && addr < hi
    requires Fills(place0[t].level, addr, hi)
    requires Lent(live, place) && Borrowed(live0, live, place0, place) && OthersKept(w0, w, live0, place0)
    requires forall a: nat, i: nat | a in live && a != t && InFootprint(a, live[a], i) ::
               !(WordOf(t, 0) <= i < WordOf(t, SLOTS))
    requires forall a: nat, i: nat {:trigger InFootprint(a, live[a], i)} | a in live && InFootprint(a, live[a], i) ::
               i < |w|
    requires var (l, i) := (place0[t].level, place0[t].level.SlotOf(addr));
             && i < SLOTS && WordOf(t, i) < |w| && !(l.Next().Some? && SlotAt(w, t, i).kind == Kind.Table)
             && w' == w[WordOf(t, i) := ToWord(template.(kind := KindOf(l), address := addr))]
    ensures Progress(w0, w', place0, place, root, t, lo, ChunkEnd(place0[t].level, addr, hi), hi, template)
    ensures OthersKept(w0, w', live0, place0) && Tree(w', place, root) && Unblocked(w, w', place)
    ensures forall u | u in place0 :: u in place && place[u] == place0[u]
  {
    hide Progress, FromWord, ToWord, InFootprint, Tree, GoodPlace, TablePage, WordOf, Borrowed;
    ProgressFacts(w0, w, place0, place, root, t, lo, addr, hi, template);
    ChunkOf(w0, w, place0, place, root, t, lo, addr, hi, template);
    assert LeafSet(w, w', place, t, addr, template);
    LeafBlocks(w, w', place, root, t, addr, template);
    hide Unblocked;
    FullStep(w0, w, w', place0, place, root, t, lo, addr, hi, template);
    ProgressFacts(w0, w', place0, place, root, t, lo, ChunkEnd(place0[t].level, addr, hi), hi, template);
    SlotOrder(t, place0[t].level.SlotOf(addr));
    assert OthersKept(w, w', live, place);
    hide OthersKept;
    DataChain(w0, w, w', live0, live, place0, place);
  }

  /** A child was found or made: the walk is where it was. */
  lemma ChildDone(w0: seq<Word>, w: seq<Word>, w1: seq<Word>, live0: Live, live: Live, live1: Live, place0: Places,
                  place: Places, place1: Places, root: nat, t: nat, c: nat, lo: nat, addr: nat, hi: nat,
                  template: Descriptor)
    requires Progress(w0, w, place0, place, root, t, lo, addr, hi, template) && addr < hi
    requires !Fills(place0[t].level, addr, hi)
    requires place0[t].level.Next().Some?
    requires Borrowed(live0, live, place0, place) && Borrowed(live, live1, place, place1)
    requires OthersKept(w0, w, live0, place0) && OthersKept(w, w1, live, place)
    requires if place1 == place then TablesSame(w, w1, place)
             else NewChild(w, w1, place, place1, t, place0[t].level.SlotOf(addr), c)
    ensures Progress(w0, w1, place0, place1, root, t, lo, addr, hi, template)
    ensures Borrowed(live0, live1, place0, place1) && OthersKept(w0, w1, live0, place0) && |place1| <= |place| + 1
    ensures Unblocked(w0, w, place0) ==> Unblocked(w0, w1, place0)
  {
    hide Progress, Borrowed, OthersKept, TablesSame, ChildSet, Unblocked;
    ProgressFacts(w0, w, place0, place, root, t, lo, addr, hi, template);
    BorrowChain(live0, live, live1, place0, place, place1);
    DataChain(w0, w, w1, live0, live, place0, place);
    if place1 == place {
      OtherWordsBlocks(w, w1, place);
      OtherWordsProgress(w0, w, w1, place0, place, root, t, lo, addr, hi, template);
    } else {
      ChildBlocks(w, w1, place, t, place0[t].level.SlotOf(addr), c);
      ChildSetFacts(w, w1, place, t, place0[t].level.SlotOf(addr), c);
      ChildProgress(w0, w, w1, place0, place, root, t, c, lo, addr, hi, template);
    }
    if Unblocked(w0, w, place0) {
      BlocksChain(w0, w, w1, place0, place);
    }
  }

  // ----- When mapping succeeds

  /**
   Short of memory or not, the range is mapped only if nothing is in its way, and an error other than
   memory only comes when something is. Where page zero is not managed it is mapped exactly when nothing
   is in its way and there is a free page for each table that it needs and that is not there.
  */
  ghost predicate Exactly(heap: Heap, r: Result<(), MapError>, w: seq<Word>, place: Places, t: nat, lo: nat, hi: nat,
                          free0: nat)
    requires t in place
    reads heap
  {
    && (r == Err(OutOfMemory) || (r.Ok? <==> Mappable(w, place, t, lo, hi)))
    && (0 !in heap.start ==> (r.Ok? <==> Mappable(w, place, t, lo, hi) && free0 >= |Needed(place, t, lo, hi)|))
  }

  lemma SameTally(start: Blocks.Owner, free: nat, place: Places)
    ensures Tally(start, free, free, place, place)
  {
  }

  lemma TallyChain(start: Blocks.Owner, free0: nat, free: nat, free': nat, place0: Places, place: Places,
                   place': Places)
    requires Tally(start, free0, free, place0, place) && Tally(start, free, free', place, place')
    ensures Tally(start, free0, free', place0, place')
  {
  }

  lemma Mapped(heap: Heap, w0: seq<Word>, place0: Places, place: Places, root: nat, t: nat, lo: nat, hi: nat,
               template: Descriptor, free0: nat)
    requires Tree(w0, place0, root) && t in place0 && place0[t].start <= lo <= hi <= place0[t].End()
    requires Grown(w0, heap.ram.words, place0, place, root, t, lo, hi)
    requires Translates(w0, heap.ram.words, t, place0[t], lo, hi, hi, template)
    requires Unblocked(w0, heap.ram.words, place0) && Tally(heap.start, free0, FreeCount(heap), place0, place)
    requires Paged(lo, hi)
    ensures Exactly(heap, Ok(()), w0, place0, t, lo, hi, free0)
  {
    hide Tree, Grown, Translates, Unblocked, Mappable, Needed;
    MappedIsMappable(w0, heap.ram.words, place0, place, root, t, lo, hi, template);
    MappedCost(w0, heap.ram.words, place0, place, root, t, lo, hi, template);
  }

  /** What the kernel's walk finds in a mapped range, the processor's does. */
  lemma RangeGiven(w0: seq<Word>, w: seq<Word>, place0: Places, place: Places, root: nat, t: nat, lo: nat, hi: nat,
                   template: Descriptor)
    requires t in place0 && place0[t].start <= lo <= hi <= place0[t].End()
    requires Grown(w0, w, place0, place, root, t, lo, hi) && Translates(w0, w, t, place0[t], lo, hi, hi, template)
    ensures forall va: nat | lo <= va < hi :: Gives(w, root, va, template)
  {
    CallFacts(w0, w, place0, place, root, t, lo, hi);
    GoodThere(w, place, root, t);
    hide Tree, Grown, Extends, SlotsKept, Walk, Gives, Coarsest;
    forall va: nat | lo <= va < hi
      ensures Gives(w, root, va, template)
    {
      assert place0[t].Contains(va);
      WalkThrough(w, place, root, t, va);
      LandedGives(w, place, root, va, template);
    }
  }

  lemma NotMapped(heap: Heap, error: MapError, w0: seq<Word>, place0: Places, place: Places, root: nat, t: nat,
                  lo: nat, hi: nat, free0: nat)
    requires t in place0 && place0[t].start <= lo <= hi <= place0[t].End()
    requires Grown(w0, heap.ram.words, place0, place, root, t, lo, hi)
    requires Tally(heap.start, free0, FreeCount(heap), place0, place)
    requires Blames(error, w0, place0, t, lo, hi) && (error.OutOfMemory? ==> OutOfPages(heap, place, place0[t], lo, hi))
    ensures Exactly(heap, Err(error), w0, place0, t, lo, hi, free0)
  {
    hide Tree, Mappable, Needed, Blames, Lacks, Extends, SlotsKept;
    if !error.OutOfMemory? {
      BlamedIsUnmappable(error, w0, place0, t, lo, hi);
    } else if 0 !in heap.start {
      LackingIsFewer(heap.ram.words, place0, place, root, t, lo, hi);
    }
  }

  /** The slot is empty, and no page is free for a table in it. */
  lemma NoPageForChild(heap: Heap, w0: seq<Word>, w: seq<Word>, place0: Places, place: Places, root: nat, t: nat,
                       lo: nat, addr: nat, hi: nat, template: Descriptor)
    requires Progress(w0, w, place0, place, root, t, lo, addr, hi, template) && addr < hi
    requires !Fills(place0[t].level, addr, hi)
    requires place0[t].level.Next().Some? && WordOf(t, place0[t].level.SlotOf(addr)) < |w|
    requires SlotAt(w, t, place0[t].level.SlotOf(addr)).kind == Invalid && (0 !in heap.start ==> FreeCount(heap) == 0)
    ensures OutOfPages(heap, place, place0[t], lo, hi)
  {
    ProgressFacts(w0, w, place0, place, root, t, lo, addr, hi, template);
    ChunkOf(w0, w, place0, place, root, t, lo, addr, hi, template);
    hide Progress, Tree, FromWord, WordOf, Level.SlotOf, GoodPlace, TablePage, Lacks, Fills, FreeCount;
    EmptySlotLacks(w, place, root, t, lo, addr, hi);
  }

  lemma NoPageBelow(heap: Heap, w0: seq<Word>, w: seq<Word>, place0: Places, place: Places, place': Places, root: nat,
                    t: nat, c: nat, lo: nat, addr: nat, hi: nat, template: Descriptor)
    requires Progress(w0, w, place0, place, root, t, lo, addr, hi, template) && addr < hi
    requires c in place && Descends(w, place, root, t, c, addr)
    requires OutOfPages(heap, place', place[c], addr, ChunkEnd(place0[t].level, addr, hi))
    ensures OutOfPages(heap, place', place0[t], lo, hi)
  {
    ProgressFacts(w0, w, place0, place, root, t, lo, addr, hi, template);
    ChunkOf(w0, w, place0, place, root, t, lo, addr, hi, template);
    CallPlace(w, place, root, t, c, lo, addr, hi);
    hide Progress, Tree, Descends, GoodPlace, TablePage, Lacks, FreeCount, ChunkEnd, SlotEnd;
    if 0 !in heap.start {
      LacksRises(place', place0[t], place[c], lo, addr, hi);
    }
  }

  /** There is no child: nothing is torn, and somebody or no memory is to blame. */
  lemma ChildFailed(heap: Heap, error: MapError, w0: seq<Word>, w: seq<Word>, live0: Live, live: Live, place0: Places,
                    place: Places, root: nat, t: nat, lo: nat, addr: nat, hi: nat, template: Descriptor)
    requires Progress(w0, w, place0, place, root, t, lo, addr, hi, template) && addr < hi
    requires Progress(w0, heap.ram.words, place0, place, root, t, lo, addr, hi, template)
    requires place0[t].level.Next().Some? && !Fills(place0[t].level, addr, hi)
    requires Borrowed(live0, live, place0, place) && Borrowed(live0, heap.live, place0, place)
    requires OthersKept(w0, heap.ram.words, live0, place0) && WordOf(t, place0[t].level.SlotOf(addr)) < |w|
    requires if error.OutOfMemory?
             then
               && SlotAt(w, t, place0[t].level.SlotOf(addr)).kind == Invalid && NoTableLeft(heap, live)
               && (0 !in heap.start ==> FreeCount(heap) == 0)
             else
               && error == BlockInTheWay(addr, place0[t].level)
               && SlotAt(w, t, place0[t].level.SlotOf(addr)).kind == Block
    ensures Halted(w0, heap.ram.words, live0, heap.live, place0, place, root, t, lo, hi, template)
    ensures Blames(error, w0, place0, t, lo, hi)
    ensures error.OutOfMemory? ==> NoTableLeft(heap, live0) && OutOfPages(heap, place, place0[t], lo, hi)
  {
    StopHere(w0, heap.ram.words, place0, place, root, t, lo, addr, hi, template);
    HaltHere(w0, heap.ram.words, live0, heap.live, place0, place, root, t, lo, hi, template);
    hide Halted, Grown, Untorn, Borrowed, OthersKept, NoTableLeft, OutOfPages, Blames, FromWord, Fills, FreeCount;
    ChildBlames(error, w0, w, place0, place, root, t, lo, addr, hi, template);
    if error.OutOfMemory? {
      StillBorrowed(live0, live, place0, place);
      NoTableStill(heap, live0, live);
      NoPageForChild(heap, w0, w, place0, place, root, t, lo, addr, hi, template);
    }
  }

  /** The call below failed, and so this one does, with the same to blame. */
  lemma CallFailed(heap: Heap, error: MapError, w0: seq<Word>, w: seq<Word>, live0: Live, live: Live, place0: Places,
                   place: Places, place': Places, root: nat, t: nat, c: nat, lo: nat, addr: nat, hi: nat,
                   template: Descriptor)
    requires Progress(w0, w, place0, place, root, t, lo, addr, hi, template) && addr < hi
    requires !Fills(place0[t].level, addr, hi) && c in place && Descends(w, place, root, t, c, addr)
    requires var end := ChunkEnd(place0[t].level, addr, hi);
             && Grown(w, heap.ram.words, place, place', root, c, addr, end)
             && Untorn(w, heap.ram.words, c, place[c], addr, end, template) && Blames(error, w, place, c, addr, end)
             && (error.OutOfMemory? ==> NoTableLeft(heap, live) && OutOfPages(heap, place', place[c], addr, end))
    requires Borrowed(live0, live, place0, place) && Borrowed(live0, heap.live, place0, place')
    requires OthersKept(w0, heap.ram.words, live0, place0)
    ensures Halted(w0, heap.ram.words, live0, heap.live, place0, place', root, t, lo, hi, template)
    ensures Blames(error, w0, place0, t, lo, hi)
    ensures error.OutOfMemory? ==> NoTableLeft(heap, live0) && OutOfPages(heap, place', place0[t], lo, hi)
  {
    CallStop(w0, w, heap.ram.words, place0, place, place', root, t, c, lo, addr, hi, template);
    HaltHere(w0, heap.ram.words, live0, heap.live, place0, place', root, t, lo, hi, template);
    hide Halted, Grown, Untorn, Borrowed, OthersKept, NoTableLeft, OutOfPages, Blames, Descends, Fills, FreeCount;
    BlameRises(error, w0, w, place0, place, root, t, c, lo, addr, hi, template);
    if error.OutOfMemory? {
      StillBorrowed(live0, live, place0, place);
      NoTableStill(heap, live0, live);
      NoPageBelow(heap, w0, w, place0, place, place', root, t, c, lo, addr, hi, template);
    }
  }

  lemma CallBlocks(w0: seq<Word>, w: seq<Word>, w': seq<Word>, place0: Places, place: Places, root: nat, t: nat,
                   lo: nat, addr: nat, hi: nat, template: Descriptor)
    requires Progress(w0, w, place0, place, root, t, lo, addr, hi, template)
    requires Unblocked(w0, w, place0) && Unblocked(w, w', place)
    ensures Unblocked(w0, w', place0)
  {
    hide Unblocked, Tree, GoodPlace, TablePage;
    ProgressFacts(w0, w, place0, place, root, t, lo, addr, hi, template);
    hide Progress;
    BlocksChain(w0, w, w', place0, place);
  }

  lemma PagedBelow(heap: Heap, r: Result<(), MapError>, w: seq<Word>, place: Places, c: nat, addr: nat, end: nat,
                   free0: nat)
    requires c in place && r.Ok? && Exactly(heap, r, w, place, c, addr, end, free0) && addr < end
    ensures addr % PAGE_SIZE == 0 && end % PAGE_SIZE == 0
  {
    hide TooCoarse, NoTableInside, Needed;
  }

  /** What the recursive call asks for. */
  lemma ChunkBelow(w0: seq<Word>, w: seq<Word>, place0: Places, place: Places, root: nat, t: nat, c: nat, lo: nat,
                   addr: nat, hi: nat, template: Descriptor)
    requires Progress(w0, w, place0, place, root, t, lo, addr, hi, template) && addr < hi
    requires c in place && Descends(w, place, root, t, c, addr)
    ensures var end := ChunkEnd(place0[t].level, addr, hi);
            && place[c].start <= addr && end <= place[c].End()
            && place0[t].level.Next() == Some(place[c].level) && place[c].level.Number() > place0[t].level.Number()
    ensures forall u | u in place0 :: u in place
  {
    hide Progress, Descends, Tree, GoodPlace;
    ProgressFacts(w0, w, place0, place, root, t, lo, addr, hi, template);
    ChunkOf(w0, w, place0, place, root, t, lo, addr, hi, template);
    CallPlace(w, place, root, t, c, lo, addr, hi);
    NextAligned(place0[t].level, addr);
  }

  /** A tree of tables, all of them the heap's, in memory no descriptor's address is too narrow for. */
  ghost predicate Ready(heap: Heap, place: Places, root: nat)
    reads heap, heap.ram, heap.cache, heap.frames, heap.frames.lists, heap.frames.lists.ram, heap.pages.ram
  {
    heap.Valid() && |heap.ram.words| * 8 <= ADDRESS_LIMIT && Tree(heap.ram.words, place, root) && Lent(heap.live, place)
  }

  ghost predicate NewChild(w: seq<Word>, w': seq<Word>, place: Places, place': Places, t: nat, i: nat, c: nat) {
    ChildSet(w, w', place, t, i, c) && place' == place[c := place[t].Child(i)]
  }

  lemma ReadyAt(heap: Heap, place: Places, root: nat, t: nat, va: nat)
    requires Ready(heap, place, root) && t in place && place[t].Contains(va)
    ensures var l := place[t].level;
            && l.SlotOf(va) < SLOTS && l.SlotOf(va) % SLOTS == l.SlotOf(va)
            && WordOf(t, l.SlotOf(va)) < |heap.ram.words|
    ensures t in heap.live && heap.live[t] == TABLE_LAYOUT && GoodPlace(place[t]) && TablePage(|heap.ram.words|, t)
  {
    hide Heap.Valid, Closed, Rooted;
    GoodAt(|heap.ram.words|, place, t);
    SlotsTile(place[t].level, place[t].start, va);
    SlotInMemory(|heap.ram.words|, t, place[t].level.SlotOf(va));
  }

  lemma SameRefl(heap: Heap, place: Places)
    requires heap.Valid() && Lent(heap.live, place)
    ensures TablesSame(heap.ram.words, heap.ram.words, place) && Borrowed(heap.live, heap.live, place, place)
    ensures OthersKept(heap.ram.words, heap.ram.words, heap.live, place)
  {
    LiveInMemory(heap);
  }

  /** A step that kept every live word kept every table. */
  lemma OnlyOthers(w: seq<Word>, w': seq<Word>, live: Live, live': Live, place: Places, root: nat)
    requires Tree(w, place, root) && KeepsData(w, w', live) && Lent(live, place)
    requires forall a | a in live :: a in live' && live'[a] == live[a]
    ensures TablesSame(w, w', place) && Tree(w', place, root) && OthersKept(w, w', live, place)
    ensures Lent(live', place) && Borrowed(live, live', place, place)
  {
    hide Tree, FromWord, WordCount, ClassOf, OrderOf;
    TableLayout();
    forall t: nat, i: nat | t in place && i < SLOTS && WordOf(t, i) < |w|
      ensures w'[WordOf(t, i)] == w[WordOf(t, i)]
    {
      assert InFootprint(t, live[t], WordOf(t, i));
    }
    OtherWordsTree(w, w', place, root);
  }

  lemma StillLent(live: Live, live': Live, place: Places, t: nat, c: nat)
    requires Lent(live, place) && t in place && c !in live && live' == live[c := TABLE_LAYOUT]
    ensures t in live' && live'[t] == TABLE_LAYOUT && c !in place
  {
  }

  /** A fresh table is linked where the slot was empty. */
  lemma Linked(w: seq<Word>, w1: seq<Word>, w2: seq<Word>, live: Live, live': Live, place: Places, root: nat, t: nat,
               va: nat, c: nat)
    requires Tree(w, place, root) && Lent(live, place) && t in place && place[t].Contains(va)
    requires place[t].level.Next().Some?
    requires KeepsData(w, w1, live) && c !in live && live' == live[c := TABLE_LAYOUT] && TablePage(|w|, c)
    requires forall i: nat | i < SLOTS :: WordOf(c, i) < |w1| && w1[WordOf(c, i)] == 0
    requires var i := place[t].level.SlotOf(va);
             && WordOf(t, i) < |w| && i < SLOTS && SlotAt(w, t, i).kind == Invalid
             && w2 == w1[WordOf(t, i) := ToWord(ZERO.(kind := Kind.Table, address := c))]
    requires forall a: nat, i: nat | a in live && a != t && InFootprint(a, live[a], i) ::
               !(WordOf(t, 0) <= i < WordOf(t, SLOTS))
    ensures var (i, place') := (place[t].level.SlotOf(va), place[c := place[t].Child(place[t].level.SlotOf(va))]);
            && NewChild(w, w2, place, place', t, i, c) && place' != place && c in place'
            && Tree(w2, place', root) && Lent(live', place') && Borrowed(live, live', place, place')
            && OthersKept(w, w2, live, place) && Descends(w2, place', root, t, c, va)
  {
    hide FromWord, ToWord, WordOf, InFootprint, TablePage, GoodPlace, Tree, Leads;
    var i := place[t].level.SlotOf(va);
    var place' := place[c := place[t].Child(i)];
    OnlyOthers(w, w1, live, live', place, root);
    LinkSets(w, w1, w2, place, root, t, i, c);
    ChildKeepsTree(w, w2, place, root, t, i, c);
    LinkDescends(w, w2, place, root, t, i, c, va);
    SlotOrder(t, i);
    forall a: nat, j: nat {:trigger InFootprint(a, live[a], j)} | a in live && a !in place && InFootprint(a, live[a], j)
      ensures j < |w| && w2[j] == w[j]
    {
      assert w1[j] == w[j];
    }
  }

  lemma LinkSets(w: seq<Word>, w1: seq<Word>, w2: seq<Word>, place: Places, root: nat, t: nat, i: nat, c: nat)
    requires Tree(w, place, root) && TablesSame(w, w1, place) && c !in place && TablePage(|w|, c)
    requires t in place && i < SLOTS && place[t].level.Next().Some? && WordOf(t, i) < |w|
    requires SlotAt(w, t, i).kind == Invalid
    requires forall j: nat | j < SLOTS :: WordOf(c, j) < |w1| && w1[WordOf(c, j)] == 0
    requires w2 == w1[WordOf(t, i) := ToWord(ZERO.(kind := Kind.Table, address := c))]
    ensures ChildSet(w, w2, place, t, i, c)
  {
    hide FromWord, ToWord, WordOf, Closed, Rooted, GoodPlace;
    GoodAt(|w|, place, t);
    ReadBack(ZERO.(kind := Kind.Table, address := c));
    TableAddressKept(|w|, c);
    forall j: nat | j < SLOTS
      ensures WordOf(c, j) < |w2| && w2[WordOf(c, j)] == 0
    {
      TablesApart(t, c, i, j);
    }
    forall u: nat, j: nat | u in place && j < SLOTS && !(u == t && j == i) && WordOf(u, j) < |w|
      ensures w2[WordOf(u, j)] == w[WordOf(u, j)]
    {
      OtherSlot(|w|, place, t, i, u, j);
    }
  }

  lemma TableAddressKept(size: nat, c: nat)
    requires TablePage(size, c)
    ensures Stored(ZERO.(kind := Kind.Table, address := c)) == ZERO.(kind := Kind.Table, address := c)
  {
  }

  lemma LinkDescends(w: seq<Word>, w': seq<Word>, place: Places, root: nat, t: nat, i: nat, c: nat, va: nat)
    requires Tree(w, place, root) && ChildSet(w, w', place, t, i, c) && place[t].Contains(va)
    requires i == place[t].level.SlotOf(va)
    requires Tree(w', place[c := place[t].Child(i)], root)
    ensures Descends(w', place[c := place[t].Child(i)], root, t, c, va)
  {
    hide FromWord, Closed, Rooted;
    GoodAt(|w|, place, t);
  }

  lemma KeepsSize(w: seq<Word>, w': seq<Word>, live: Live)
    requires KeepsData(w, w', live)
    ensures |w'| == |w|
  {
  }

  lemma ZeroIsEmpty()
    ensures ToWord(ZERO) == 0
  {
  }

  lemma SlotOrder(t: nat, slot: nat)
    requires slot < SLOTS
    ensures WordOf(t, 0) <= WordOf(t, slot) < WordOf(t, SLOTS) && slot % SLOTS == slot
    ensures forall i: nat | i != slot :: WordOf(t, i) != WordOf(t, slot)
  {
  }

  lemma DataBeside(w: seq<Word>, w1: seq<Word>, w2: seq<Word>, live: Live, live': Live, t: nat)
    requires KeepsData(w, w1, live) && |w2| == |w1| && t !in live && live' == live[t := TABLE_LAYOUT]
    requires forall j: nat | j < |w1| && !(WordOf(t, 0) <= j < WordOf(t, SLOTS)) :: w2[j] == w1[j]
    requires forall a: nat, i: nat | a in live' && a != t && InFootprint(a, live'[a], i) ::
               !(WordOf(t, 0) <= i < WordOf(t, SLOTS))
    ensures KeepsData(w, w2, live)
  {
    hide InFootprint, WordOf;
    forall a: nat, i: nat {:trigger InFootprint(a, live[a], i)} | a in live && InFootprint(a, live[a], i)
      ensures i < |w| && w2[i] == w[i]
    {
      assert a in live' && a != t && InFootprint(a, live'[a], i);
      assert !(WordOf(t, 0) <= i < WordOf(t, SLOTS));
      assert w1[i] == w[i];
    }
  }

  // ----- The kernel's own map

  /** Where the linker put the kernel, and where the device tree is. */
  datatype Image = Image(executable: Region, rodata: Region, writable: Region, guard: Region, stack: Region,
                         dtb: Region)

  /** Every region that gets permissions of its own, plus the guard page. */
  function KernelPlan(image: Image): seq<Mapping> {
    [
      Mapping("text and vectors", image.executable, Some(EXECUTABLE)),
      Mapping("rodata", image.rodata, Some(READ_ONLY)),
      Mapping("data and bss", image.writable, Some(WRITABLE)),
      Mapping("stack guard", image.guard, None),
      Mapping("stack", image.stack, Some(WRITABLE)),
      Mapping("device tree", image.dtb, Some(READ_ONLY))
    ]
  }

  /** Everything below RAM: the devices. */
  function Devices(memory: Region): Region {
    Region(0, memory.base)
  }

  /** The plan's regions that are mapped lie in memory. */
  predicate InMemory(memory: Region, plan: seq<Mapping>) {
    forall i | 0 <= i < |plan| && plan[i].template.Some? ::
      memory.base <= plan[i].region.base && plan[i].region.End() <= SPACE
  }

  predicate MadeOfPages(plan: seq<Mapping>) {
    forall i | 0 <= i < |plan| && plan[i].template.Some? ::
      plan[i].region.base % PAGE_SIZE == 0 && plan[i].region.End() % PAGE_SIZE == 0
  }

  /** The finished map: the plan, the rest of memory, the devices below it, and nothing else. */
  ghost predicate KernelMap(w: seq<Word>, root: nat, memory: Region, plan: seq<Mapping>) {
    && (forall i, va: nat | 0 <= i < |plan| && plan[i].template.Some? && va < SPACE && Inside(plan[i].region, va) ::
          LandsAs(Walk(w, root, Level1, va), va, plan[i].template.value))
    && (forall va: nat | va < SPACE && Open(memory, RegionsOf(plan), va / PAGE_SIZE) ::
          LandsAs(Walk(w, root, Level1, va), va, NORMAL_BLOCK))
    && (forall va: nat | va < SPACE && Open(Devices(memory), [], va / PAGE_SIZE) ::
          LandsAs(Walk(w, root, Level1, va), va, DEVICE_BLOCK))
    && forall va: nat | va < SPACE && LeftAlone(memory, plan, va) && LeftAlone(Devices(memory), [], va) ::
         Walk(w, root, Level1, va) == None
  }

  /** The regions of the image, the guard among them, and those of them that are to be used. */
  function Parts(image: Image): seq<Region> {
    [image.executable, image.rodata, image.writable, image.guard, image.stack, image.dtb]
  }

  function UsedParts(image: Image): seq<Region> {
    [image.executable, image.rodata, image.writable, image.stack, image.dtb]
  }

  /**
   What the processor makes of every address: each part of the image is used as its contents ask, memory
   no part of it touches as data or code, the pages below memory as devices, and nothing else is mapped.
  */
  ghost predicate Protects(w: seq<Word>, root: nat, memory: Region, image: Image) {
    && (forall va: nat | Inside(image.executable, va) :: Allows(w, root, va, Use(false, true, false)))
    && (forall va: nat | Inside(image.rodata, va) :: Allows(w, root, va, Use(false, false, false)))
    && (forall va: nat | Inside(image.writable, va) :: Allows(w, root, va, Use(true, false, false)))
    && (forall va: nat | Inside(image.stack, va) :: Allows(w, root, va, Use(true, false, false)))
    && (forall va: nat | Inside(image.dtb, va) :: Allows(w, root, va, Use(false, false, false)))
    && (forall va: nat | Open(memory, Parts(image), va / PAGE_SIZE) :: Allows(w, root, va, Use(true, true, false)))
    && (forall va: nat | va / PAGE_SIZE < memory.base / PAGE_SIZE :: Allows(w, root, va, Use(true, false, true)))
    && forall va: nat | va < SPACE && Unused(memory, image, va) :: LeafAt(w, root, va) == None
  }

  /** The guard's addresses are unused, and so is a page of memory that a part of the image only reaches into. */
  ghost predicate Unused(memory: Region, image: Image, va: nat) {
    && va / PAGE_SIZE >= memory.base / PAGE_SIZE && !Open(memory, Parts(image), va / PAGE_SIZE)
    && forall part | part in UsedParts(image) :: !Inside(part, va)
  }

  /**
   Builds the kernel's map. No address of the stack's guard is translated. Two parts of the image that clash
   are an error, and with parts made of pages that do not, only memory can run out.
  */
  method Init(heap: Heap, memory: Region, image: Image) returns (r: Result<Table, PlanError>, ghost place: Places)
    requires heap.Valid() && |heap.ram.words| * 8 <= ADDRESS_LIMIT
    requires memory.End() <= SPACE
    requires forall part | part in UsedParts(image) :: memory.base <= part.base && part.End() <= SPACE
    modifies heap`live, heap.cache, heap.frames, heap.frames.lists, heap.ram
    ensures heap.Valid()
    ensures r.Ok? ==> Ready(heap, place, r.value.base) && Protects(heap.ram.words, r.value.base, memory, image)
    ensures r.Ok? ==>
              forall va: nat | Inside(image.guard, va) && memory.base <= va < SPACE ::
                LeafAt(heap.ram.words, r.value.base, va) == None
    ensures r.Err? && r.error.NoTable? <==> old(Refuses(heap))
    ensures r.Err? && r.error.Overlap? <==> Clashes(Parts(image)) && !old(Refuses(heap))
    ensures r.Err? && r.error.Overlap? ==> NamesClash(KernelPlan(image), r.error.one, r.error.other)
    ensures r.Err? && r.error.Failed? && r.error.error != OutOfMemory ==>
              exists part :: part in UsedParts(image) && !(part.base % PAGE_SIZE == 0 && part.End() % PAGE_SIZE == 0)
    ensures r.Err? && (r.error.NoTable? || (r.error.Failed? && r.error.error.OutOfMemory?)) ==>
              NoTableLeft(heap, old(heap.live))
  {
    hide Heap.Valid, Tree, Lent, Borrowed, OthersKept, Realised, Otherwise, PlanClear, NoClash, ServesPlan, KernelMap,
      KeepsData, NoTableLeft, KernelPlan, InMemory, MadeOfPages, Walk, Refuses, NewAt, Protects, Clashes, Parts,
      NamesClash, LeafAt;
    place := map[];
    var plan := KernelPlan(image);
    PlanOfImage(memory, image);
    var made := Table.New(heap);
    if made == None {
      return Err(NoTable), place;
    }
    var table := made.value;
    ghost var live0, live1 := old(heap.live), heap.live;
    ghost var place0: Places := map[table.base := Place(Level1, 0)];
    ghost var w0 := heap.ram.words;
    LoneTable(w0, table.base, place0);
    LoneReady(heap, place0, table.base);
    LoneClear(w0, table.base, place0, memory, plan);
    InMemoryFits(memory, plan);
    var done, place1 := table.Apply(heap, memory, plan, NORMAL_BLOCK, place0);
    place := place1;
    NoTableStill(heap, live0, live1);
    if done.Err? {
      return Err(done.error), place;
    }
    ghost var w1, live2 := heap.ram.words, heap.live;
    DevicesClear(w0, w1, table.base, place0, place1, memory, plan);
    done, place := table.Apply(heap, Devices(memory), [], DEVICE_BLOCK, place1);
    NothingClashes();
    StillBorrowed(live1, live2, place0, place1);
    NoTableStill(heap, live0, live2);
    if done.Err? {
      return Err(done.error), place;
    }
    BothRealised(w0, w1, heap.ram.words, table.base, memory, plan);
    MapProtects(heap.ram.words, place, table.base, memory, image);
    GuardUnmapped(heap.ram.words, table.base, memory, image);
    return Ok(table), place;
  }

  ghost predicate Clashes(parts: seq<Region>) {
    exists i, k :: 0 <= i < k < |parts| && Clash(parts[i], parts[k])
  }

  lemma PlanOfImage(memory: Region, image: Image)
    ensures var plan := KernelPlan(image);
            && RegionsOf(plan) == Parts(image) && (NoClash(plan) <==> !Clashes(Parts(image)))
            && (InMemory(memory, plan) <==>
                forall part | part in UsedParts(image) :: memory.base <= part.base && part.End() <= SPACE)
            && (MadeOfPages(plan) <==>
                forall part | part in UsedParts(image) :: part.base % PAGE_SIZE == 0 && part.End() % PAGE_SIZE == 0)
  {
    var plan := KernelPlan(image);
    assert RegionsOf(plan) == Parts(image);
    UsedLines(image);
    LinesClash(plan, Parts(image));
  }

  /** The lines with a template are the parts in use. */
  lemma UsedLines(image: Image)
    ensures var plan := KernelPlan(image);
            && (forall i | 0 <= i < |plan| && plan[i].template.Some? :: plan[i].region in UsedParts(image))
            && forall part | part in UsedParts(image) ::
                 exists i :: 0 <= i < |plan| && plan[i].template.Some? && plan[i].region == part
  {
    var (plan, used) := (KernelPlan(image), UsedParts(image));
    assert used[0] == plan[0].region && used[1] == plan[1].region && used[2] == plan[2].region;
    assert used[3] == plan[4].region && used[4] == plan[5].region;
  }

  lemma LinesClash(plan: seq<Mapping>, parts: seq<Region>)
    requires RegionsOf(plan) == parts
    ensures NoClash(plan) <==> !Clashes(parts)
  {
    hide Clash;
    if NoClash(plan) {
      assert forall i, k | 0 <= i < k < |parts| :: !Clash(plan[i].region, plan[k].region);
    } else {
      var i, k :| 0 <= i < k < |plan| && Clash(plan[i].region, plan[k].region);
      assert Clash(parts[i], parts[k]);
    }
  }

  /** The plan, put through the processor's walk. */
  lemma MapProtects(w: seq<Word>, place: Places, root: nat, memory: Region, image: Image)
    requires Tree(w, place, root) && KernelMap(w, root, memory, KernelPlan(image)) && memory.End() <= SPACE
    requires forall part | part in UsedParts(image) :: memory.base <= part.base && part.End() <= SPACE
    ensures Protects(w, root, memory, image)
  {
    var plan := KernelPlan(image);
    PlanOfImage(memory, image);
    hide KernelPlan, UsedParts, Parts, Tree, KernelMap, Gives, Allows, LeafAt, Open, RegionsOf, InMemory, NoClash,
      Clashes, MadeOfPages, LeftAlone;
    LinesGiven(w, place, root, memory, plan);
    RestGiven(w, place, root, memory, plan);
    TemplatesAllow(w, root);
    PartsAllowed(w, root, image);
    UnusedAreAlone(memory, image);
  }

  lemma PartsAllowed(w: seq<Word>, root: nat, image: Image)
    requires var plan := KernelPlan(image);
             forall i, va: nat | 0 <= i < |plan| && plan[i].template.Some? && Inside(plan[i].region, va) ::
               Gives(w, root, va, plan[i].template.value)
    ensures forall va: nat | Inside(image.executable, va) :: Allows(w, root, va, Use(false, true, false))
    ensures forall va: nat | Inside(image.rodata, va) :: Allows(w, root, va, Use(false, false, false))
    ensures forall va: nat | Inside(image.writable, va) :: Allows(w, root, va, Use(true, false, false))
    ensures forall va: nat | Inside(image.stack, va) :: Allows(w, root, va, Use(true, false, false))
    ensures forall va: nat | Inside(image.dtb, va) :: Allows(w, root, va, Use(false, false, false))
  {
    TemplatesAllow(w, root);
    LinesOf(image, KernelPlan(image));
    hide Gives, Allows, KernelPlan;
  }

  lemma UnusedAreAlone(memory: Region, image: Image)
    ensures forall va: nat | Unused(memory, image, va) :: LeftAlone(memory, KernelPlan(image), va)
  {
    PlanOfImage(memory, image);
    UsedLines(image);
    hide Open, KernelPlan, UsedParts, Parts, RegionsOf, InMemory, NoClash, Clashes, MadeOfPages;
  }

  lemma LinesOf(image: Image, plan: seq<Mapping>)
    requires plan == KernelPlan(image)
    ensures |plan| == 6 && plan[0].region == image.executable && plan[0].template == Some(EXECUTABLE)
    ensures plan[1].region == image.rodata && plan[1].template == Some(READ_ONLY)
    ensures plan[2].region == image.writable && plan[2].template == Some(WRITABLE)
    ensures plan[4].region == image.stack && plan[4].template == Some(WRITABLE)
    ensures plan[5].region == image.dtb && plan[5].template == Some(READ_ONLY)
  {
  }

  lemma FoundGives(w: seq<Word>, place: Places, root: nat, va: nat, template: Descriptor)
    requires Tree(w, place, root) && va < SPACE && LandsAs(Walk(w, root, Level1, va), va, template)
    ensures Gives(w, root, va, template)
  {
    LandedGives(w, place, root, va, template);
  }

  /** What the kernel's walk finds on a line of the plan, the processor's does. */
  lemma LinesGiven(w: seq<Word>, place: Places, root: nat, memory: Region, plan: seq<Mapping>)
    requires Tree(w, place, root) && KernelMap(w, root, memory, plan) && InMemory(memory, plan)
    ensures forall i, va: nat | 0 <= i < |plan| && plan[i].template.Some? && Inside(plan[i].region, va) ::
              Gives(w, root, va, plan[i].template.value)
  {
    forall i, va: nat | 0 <= i < |plan| && plan[i].template.Some? && Inside(plan[i].region, va)
      ensures Gives(w, root, va, plan[i].template.value)
    {
      hide Tree, Walk, LandsAs, Gives;
      FoundGives(w, place, root, va, plan[i].template.value);
    }
  }

  /** And so outside the plan. */
  lemma RestGiven(w: seq<Word>, place: Places, root: nat, memory: Region, plan: seq<Mapping>)
    requires Tree(w, place, root) && KernelMap(w, root, memory, plan) && memory.End() <= SPACE
    ensures forall va: nat | Open(memory, RegionsOf(plan), va / PAGE_SIZE) :: Gives(w, root, va, NORMAL_BLOCK)
    ensures forall va: nat | va / PAGE_SIZE < memory.base / PAGE_SIZE :: Gives(w, root, va, DEVICE_BLOCK)
    ensures forall va: nat | va < SPACE && va / PAGE_SIZE >= memory.base / PAGE_SIZE && LeftAlone(memory, plan, va) ::
              LeafAt(w, root, va) == None
  {
    hide Tree, Walk, Gives, LeafAt, LandsAs, RegionsOf;
    forall va: nat | Open(memory, RegionsOf(plan), va / PAGE_SIZE)
      ensures Gives(w, root, va, NORMAL_BLOCK)
    {
      FoundGives(w, place, root, va, NORMAL_BLOCK);
    }
    forall va: nat | va / PAGE_SIZE < memory.base / PAGE_SIZE
      ensures Gives(w, root, va, DEVICE_BLOCK)
    {
      FoundGives(w, place, root, va, DEVICE_BLOCK);
    }
    forall va: nat | va < SPACE && va / PAGE_SIZE >= memory.base / PAGE_SIZE && LeftAlone(memory, plan, va)
      ensures LeafAt(w, root, va) == None
    {
      NothingGiven(w, place, root, va);
    }
  }

  lemma GuardUnmapped(w: seq<Word>, root: nat, memory: Region, image: Image)
    requires Protects(w, root, memory, image) && !Clashes(Parts(image))
    ensures forall va: nat | Inside(image.guard, va) && memory.base <= va < SPACE :: LeafAt(w, root, va) == None
  {
    hide LeafAt, Allows;
    var parts := Parts(image);
    assert Clash(parts[3], parts[4]) == Clash(image.guard, image.stack);
    assert Clash(parts[3], parts[5]) == Clash(image.guard, image.dtb);
    assert Clash(parts[0], parts[3]) == Clash(image.executable, image.guard);
    assert Clash(parts[1], parts[3]) == Clash(image.rodata, image.guard);
    assert Clash(parts[2], parts[3]) == Clash(image.writable, image.guard);
    hide Clashes, Open;
    forall va: nat | Inside(image.guard, va) && memory.base <= va < SPACE
      ensures LeafAt(w, root, va) == None
    {
      if Open(memory, parts, va / PAGE_SIZE) {
        OpenOutside(memory, parts, 3, va);
      }
      assert Unused(memory, image, va);
    }
  }

  lemma NothingClashes()
    ensures NoClash([])
  {
  }

  lemma InMemoryFits(memory: Region, plan: seq<Mapping>)
    requires InMemory(memory, plan)
    ensures forall i | 0 <= i < |plan| && plan[i].template.Some? :: plan[i].region.End() <= SPACE
  {
  }

  /** A zeroed table alone is a tree that maps nothing. */
  lemma LoneTable(w: seq<Word>, t: nat, place: Places)
    requires place == map[t := Place(Level1, 0)] && TablePage(|w|, t)
    requires forall i: nat | i < SLOTS :: WordOf(t, i) < |w| && w[WordOf(t, i)] == 0
    ensures Tree(w, place, t) && forall va: nat :: Walk(w, t, Level1, va) == None
  {
    EmptyTable(w, place, t);
    hide FromWord, WordOf, Leads;
  }

  lemma LoneReady(heap: Heap, place: Places, t: nat)
    requires heap.Valid() && |heap.ram.words| * 8 <= ADDRESS_LIMIT && Tree(heap.ram.words, place, t)
    requires place == map[t := Place(Level1, 0)] && t in heap.live && heap.live[t] == TABLE_LAYOUT
    ensures Ready(heap, place, t)
  {
    hide Heap.Valid, Tree;
  }

  lemma LoneClear(w: seq<Word>, t: nat, place: Places, memory: Region, plan: seq<Mapping>)
    requires place == map[t := Place(Level1, 0)] && forall va: nat :: Walk(w, t, Level1, va) == None
    ensures MadeOfPages(plan) ==> PlanClear(w, place, t, memory, plan)
  {
    hide Walk, Open;
  }

  /** What the first plan mapped is all in memory, so the devices are clear. */
  lemma DevicesClear(w0: seq<Word>, w1: seq<Word>, root: nat, place0: Places, place1: Places, memory: Region,
                     plan: seq<Mapping>)
    requires place0 == map[root := Place(Level1, 0)] && ServesPlan(place0, place1, memory, plan)
    requires InMemory(memory, plan)
    requires Otherwise(w0, w1, root, memory, plan) && forall va: nat :: Walk(w0, root, Level1, va) == None
    ensures root in place1 && PlanClear(w1, place1, root, Devices(memory), [])
  {
    hide Walk;
    forall va: nat | va < SPACE && Open(Devices(memory), RegionsOf([]), va / PAGE_SIZE)
      ensures Walk(w1, root, Level1, va) == None
    {
      BelowMemory(memory, plan, va);
    }
    forall u | u in place1 && place1[u].level.Number() > 1
      ensures !(0 <= place1[u].start && place1[u].End() <= memory.base)
    {
      var x: nat :| place1[u].Contains(x) && !LeftAlone(memory, plan, x);
      AboutMemory(memory, plan, x);
    }
  }

  lemma BelowMemory(memory: Region, plan: seq<Mapping>, va: nat)
    requires InMemory(memory, plan) && WholePage(Devices(memory), va / PAGE_SIZE)
    ensures LeftAlone(memory, plan, va)
  {
  }

  lemma AboutMemory(memory: Region, plan: seq<Mapping>, x: nat)
    requires InMemory(memory, plan) && !LeftAlone(memory, plan, x)
    ensures x >= memory.base
  {
  }

  /** The second plan leaves what the first did, and the first left the devices alone. */
  lemma BothRealised(w0: seq<Word>, w1: seq<Word>, w2: seq<Word>, root: nat, memory: Region, plan: seq<Mapping>)
    requires Realised(w0, w1, root, memory, plan, NORMAL_BLOCK)
    requires Realised(w1, w2, root, Devices(memory), [], DEVICE_BLOCK)
    requires InMemory(memory, plan) && forall va: nat :: Walk(w0, root, Level1, va) == None
    ensures KernelMap(w2, root, memory, plan)
  {
    hide Walk, LandsAs;
    assert RegionsOf([]) == [];
    forall va: nat | va < SPACE && va >= memory.base
      ensures Walk(w2, root, Level1, va) == Walk(w1, root, Level1, va)
    {
      NotDevices(memory, va);
    }
    hide Open, RegionsOf;
    forall va: nat | va < SPACE && Open(memory, RegionsOf(plan), va / PAGE_SIZE)
      ensures va >= memory.base
    {
      OpenInMemory(memory, RegionsOf(plan), va);
    }
  }

  lemma NotDevices(memory: Region, va: nat)
    requires va >= memory.base
    ensures LeftAlone(Devices(memory), [], va)
  {
  }

  lemma OpenInMemory(memory: Region, taken: seq<Region>, va: nat)
    requires Open(memory, taken, va / PAGE_SIZE)
    ensures va >= memory.base
  {
  }
}
