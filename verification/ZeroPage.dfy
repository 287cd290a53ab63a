/**
 A memory in which `Table::new` refuses although a page is free (src/arch/aarch64/mmu/mod.rs,
 src/mm/heap.rs): the only page the heap gets is the one at address zero.
*/
module ZeroPage {
  import opened Wrappers
  import opened Blocks
  import P = Pages
  import opened Regions
  import opened Gaps
  import opened Ram
  import opened MemoryMap
  import opened Accounts
  import opened Slabs
  import opened Heap
  import opened Trees
  import M = Mmu

  /** 515 pages from address zero, so the entry table needs two. */
  const ARENA := Region(0, 515 * PAGE_SIZE)

  /** All of them are taken but pages 0, 2 and 3. */
  const TAKEN := [Region(PAGE_SIZE, PAGE_SIZE), Region(4 * PAGE_SIZE, 511 * PAGE_SIZE)]

  lemma OpenPages(p: nat)
    ensures Open(ARENA, TAKEN, p) <==> p == 0 || p == 2 || p == 3
  {
    assert TAKEN[0] in TAKEN && TAKEN[1] in TAKEN;
  }

  lemma OnlyHome(run: PageRange)
    requires MaximalRun(ARENA, TAKEN, run) && run.Pages() >= 2
    ensures run.start == 2
  {
    forall p: nat
      ensures Open(ARENA, TAKEN, p) <==> p == 0 || p == 2 || p == 3
    {
      OpenPages(p);
    }
    hide Open;
    assert run.Contains(run.start) && run.Contains(run.start + 1);
  }

  lemma FindsHome()
    ensures P.HasHome(ARENA, TAKEN)
  {
    var run := PageRange(2, 4);
    forall p: nat
      ensures Open(ARENA, TAKEN, p) <==> p == 0 || p == 2 || p == 3
    {
      OpenPages(p);
    }
    hide Open;
    assert MaximalRun(ARENA, TAKEN, run);
    forall other: PageRange | MaximalRun(ARENA, TAKEN, other) && other.start < run.start
      ensures other.Pages() < 2
    {
      if other.Pages() >= 2 {
        OnlyHome(other);
      }
    }
    assert P.FirstRoom(ARENA, TAKEN, 515, run);
  }

  /** Once the table is in pages 2 and 3, page zero alone is left. */
  lemma ZeroIsLeft(t: P.Table, p: nat)
    requires AtHome(ARENA, TAKEN, t)
    ensures Open(ARENA, TAKEN + [TableRegion(t)], p) <==> p == 0
  {
    assert P.RequiredPages(515) == 2;
    var run :| P.FirstRoom(ARENA, TAKEN, t.len, run) && run.start == t.page;
    OnlyHome(run);
    OpenPages(p);
    assert TableRegion(t) == Region(2 * PAGE_SIZE, 2 * PAGE_SIZE);
    var taken := TAKEN + [TableRegion(t)];
    assert taken[2] in taken && forall r | r in taken :: r in TAKEN || r == taken[2];
    assert forall r | r in TAKEN :: r in taken;
  }

  /** A heap made in that memory: page zero is all it has, and it is free. */
  method OnlyPageZero() returns (heap: Heap)
    ensures fresh(heap) && fresh(heap.cache) && fresh(heap.frames) && fresh(heap.frames.lists) && fresh(heap.ram)
    ensures heap.Valid() && heap.live == map[] && heap.start.Keys == {0} && |heap.ram.words| * 8 == 515 * PAGE_SIZE
    ensures !CannotServe(heap.cache.slabs, heap.frames.owner, M.TABLE_LAYOUT)
  {
    hide Heap.Valid, Open, P.HasHome, CannotServe, AtHome, TableRegion, Began;
    var ram := new Memory(515 * PAGE_WORDS);
    heap := new Heap(ram);
    var memory := new MemoryMap(ARENA);
    var one := memory.Reserve(TAKEN[0]);
    var two := memory.Reserve(TAKEN[1]);
    assert memory.Reserved() == TAKEN;
    FindsHome();
    var ok := heap.Init(memory);
    forall p: nat
      ensures p in heap.frames.owner <==> p == 0
    {
      ZeroIsLeft(heap.pages.table, p);
    }
    ZeroServes(heap);
  }

  lemma ZeroServes(heap: Heap)
    requires heap.Valid() && forall p: nat :: p in heap.frames.owner <==> p == 0
    requires forall p | p in heap.frames.owner :: heap.frames.owner[p].free
    ensures heap.start.Keys == {0} && !CannotServe(heap.cache.slabs, heap.frames.owner, M.TABLE_LAYOUT)
  {
    TableOrder();
    assert FreeRun(heap.frames.owner, 0, 0);
    hide FreeRun, OrderOf, ClassOf;
  }

  lemma TableOrder()
    ensures ClassOf(M.TABLE_LAYOUT).None? && OrderOf(M.TABLE_LAYOUT) == 0
  {
    M.TableLayout();
    Pow2Table();
  }

  /**
   There the call comes back with nothing although the heap could have served it, and the page it
   refused is allocated for good.
  */
  method RefusesFreePage() returns (heap: Heap, table: Option<M.Table>)
    ensures heap.Valid() && table == None && heap.live == map[0 := M.TABLE_LAYOUT] && heap.start.Keys == {0}
  {
    hide Heap.Valid, CannotServe, Heap.NextPage, M.NoTableLeft;
    heap := OnlyPageZero();
    table := M.Table.New(heap);
    if table.Some? {
      NoOtherPage(heap, table.value.base);
    }
  }

  lemma NoOtherPage(heap: Heap, t: nat)
    requires heap.Valid() && heap.start.Keys == {0} && t in heap.live && heap.live[t] == M.TABLE_LAYOUT
    ensures t == 0
  {
    hide Heap.Valid, WordCount;
    M.TableWords(heap, t);
    assert InFootprint(t, M.TABLE_LAYOUT, WordOf(t, 0));
    heap.LiveIsIsolated(t, t / 8);
    hide *;
    assert t / 8 / PAGE_WORDS == 0;
  }
}
