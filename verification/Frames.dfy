/**
 The buddy allocator (src/mm/frames/mod.rs), over the free lists and the entry table.

 A ghost `Owner` says which block every managed page belongs to. The lists hold exactly its free
 blocks; the table tells the truth about block heads and about pages nobody manages, and may say
 anything about the inside of a block.
*/
module Frames {
  import opened Wrappers
  import opened Bits
  import opened Ram
  import opened Sequences
  import opened DoublyLinked
  import opened Blocks
  import opened FreeLists
  import opened Pages
  import opened Regions
  import opened Gaps
  import opened MemoryMap

  // ----- How the concrete state tells the blocks

  /** List `k` holds exactly the free blocks of order `k`. */
  ghost predicate ListsTell(lists: seq<seq<nat>>, o: Owner) {
    |lists| == ORDERS && forall k, p: nat | 0 <= k < ORDERS :: p in lists[k] <==> FreeBlock(o, p, k)
  }

  /** What a block's head entry may say; a slab is a single page that is handed out. */
  predicate TellsHead(e: Entry, b: Block) {
    match e
    case Buddy(free, order) => free == b.free && order == b.order
    case Slab(_, _, _, _, _) => !b.free && b.order == 0
  }

  ghost predicate TellsPage(e: Entry, o: Owner, p: nat) {
    if p in o then o[p].head == p ==> TellsHead(e, o[p]) else e == Buddy(false, 0)
  }

  /** The table is right about every head and every unmanaged page, save one head in transit. */
  ghost predicate TableTells(w: seq<Word>, t: Table, o: Owner, transit: Option<nat>) {
    t.InMemory(w) && forall p: nat | t.Covers(p) && Some(p) != transit :: TellsPage(EntryAt(w, t, p), o, p)
  }

  /** Managed pages are covered, in memory, and hold no part of the table. */
  ghost predicate Placed(size: nat, t: Table, o: Owner) {
    && t.page * PAGE_WORDS + t.len <= size
    && t.len <= MAX_PAGES
    && (forall p | p in o :: t.Covers(p) && (p + 1) * PAGE_WORDS <= size && Addressable(p))
    && (forall i: nat | t.Holds(i) :: i / PAGE_WORDS !in o)
  }

  // ----- The invariant, and what an operation may write

  ghost predicate Kept(w: seq<Word>, t: Table, o: Owner, lists: seq<seq<nat>>, transit: Option<nat>) {
    Partition(o) && Merged(o) && ListsTell(lists, o) && Placed(|w|, t, o) && TableTells(w, t, o, transit)
  }

  ghost predicate FreePage(o: Owner, p: nat) {
    p in o && o[p].free
  }

  /** Word `i` is in a free page, or is the entry of a free page or of `result`. */
  ghost predicate MayWrite(t: Table, o: Owner, result: Option<nat>, i: nat) {
    if t.Holds(i) then
      var p := t.base + (i - t.page * PAGE_WORDS);
      Some(p) == result || FreePage(o, p)
    else FreePage(o, i / PAGE_WORDS)
  }

  /** Nothing was written but the pages free afterwards, their entries and the entry of `result`. */
  ghost predicate Quiet(w: seq<Word>, w': seq<Word>, t: Table, o: Owner, result: Option<nat>) {
    |w| == |w'| && forall i: nat | i < |w| && !MayWrite(t, o, result, i) :: w'[i] == w[i]
  }

  lemma QuietChain(w: seq<Word>, w1: seq<Word>, w2: seq<Word>, t: Table, o1: Owner, o2: Owner, result: Option<nat>)
    requires Quiet(w, w1, t, o1, result) && Quiet(w1, w2, t, o2, result)
    requires forall p | FreePage(o1, p) :: FreePage(o2, p)
    ensures Quiet(w, w2, t, o2, result)
  {
    forall i: nat | i < |w| && !MayWrite(t, o2, result, i)
      ensures w2[i] == w[i]
    {
      assert !MayWrite(t, o1, result, i);
    }
  }

  /** Every page on a list is managed and free. */
  lemma ListedIsFree(lists: seq<seq<nat>>, o: Owner, p: nat)
    requires ListsTell(lists, o) && OnSomeList(lists, p)
    ensures FreePage(o, p)
  {
  }

  /** Writing list pages leaves the table as it was. */
  lemma ListWritesAreQuiet(w: seq<Word>, w': seq<Word>, t: Table, o: Owner, lists: seq<seq<nat>>)
    requires ListsTell(lists, o) && Placed(|w|, t, o) && OnlyListPagesChange(w, w', lists)
    ensures forall result :: Quiet(w, w', t, o, result)
    ensures forall p: nat | t.Covers(p) :: w'[t.EntryWord(p)] == w[t.EntryWord(p)]
  {
    forall i: nat, result | i < |w| && !MayWrite(t, o, result, i)
      ensures w'[i] == w[i]
    {
      if OnSomeList(lists, i / PAGE_WORDS) {
        ListedIsFree(lists, o, i / PAGE_WORDS);
        assert false;
      }
    }
    forall p: nat | t.Covers(p)
      ensures w'[t.EntryWord(p)] == w[t.EntryWord(p)]
    {
      var i := t.EntryWord(p);
      if OnSomeList(lists, i / PAGE_WORDS) {
        ListedIsFree(lists, o, i / PAGE_WORDS);
        assert false;
      }
    }
  }

  lemma ListsAfterPush(lists: seq<seq<nat>>, o: Owner, o': Owner, p: nat, k: nat)
    requires ListsTell(lists, o) && k < ORDERS
    requires forall q: nat, j: nat :: FreeBlock(o', q, j) <==> FreeBlock(o, q, j) || (q == p && j == k)
    ensures ListsTell(lists[k := [p] + lists[k]], o')
  {
    hide FreeBlock;
  }

  lemma ListsAfterUnlink(lists: seq<seq<nat>>, o: Owner, o': Owner, p: nat, k: nat)
    requires ListsTell(lists, o) && k < ORDERS && p in lists[k] && Distinct(lists[k])
    requires forall q: nat, j: nat :: FreeBlock(o', q, j) <==> FreeBlock(o, q, j) && q != p
    ensures ListsTell(lists[k := Without(lists[k], p)], o')
  {
    WithoutFacts(lists[k], p);
    var lists' := lists[k := Without(lists[k], p)];
    forall j, q: nat | 0 <= j < ORDERS
      ensures q in lists'[j] <==> FreeBlock(o', q, j)
    {
      assert j != k && q in lists[j] ==> q != p;
    }
  }

  // ----- Each step keeps the invariant

  /** The list operation of a `pop`: its block is now handed out and its entry not yet written. */
  lemma PopKeepsAll(w: seq<Word>, w': seq<Word>, t: Table, o: Owner, lists: seq<seq<nat>>, p: nat, k: nat)
    requires Kept(w, t, o, lists, None) && k < ORDERS && p in lists[k] && Distinct(lists[k])
    requires OnlyListPagesChange(w, w', lists[k := Without(lists[k], p)])
    ensures FreeBlock(o, p, k)
    ensures Kept(w', t, Take(o, p, k), lists[k := Without(lists[k], p)], Some(p))
    ensures Quiet(w, w', t, Take(o, p, k), Some(p))
  {
    var o', lists' := Take(o, p, k), lists[k := Without(lists[k], p)];
    TakeKeeps(o, p, k);
    TakeFree(o, p, k);
    ListsAfterUnlink(lists, o, o', p, k);
    ListWritesAreQuiet(w, w', t, o', lists');
    assert BlockAt(o, p);
    assert TableTells(w', t, o', Some(p));
  }

  /** One pass of the splitting loop: the upper half is pushed, the lower half stays in transit. */
  lemma SplitKeepsAll(w: seq<Word>, w1: seq<Word>, t: Table, o: Owner, lists: seq<seq<nat>>, p: nat, k: nat, mid: nat)
    requires Kept(w, t, o, lists, Some(p)) && IsBlock(o, Block(p, k + 1, false)) && k < MAX_ORDER
    requires |lists| == ORDERS && mid == p + Pow2(k) && t.Covers(mid) && t.InMemory(w1)
    requires OnlyListPagesChange(w, w1, lists[k := [mid] + lists[k]])
    ensures var w' := w1[t.EntryWord(mid) := ToWord(Entry.Buddy(true, k))];
            && Kept(w', t, Split(o, p, k), lists[k := [mid] + lists[k]], Some(p))
            && Quiet(w, w', t, Split(o, p, k), Some(p))
  {
    hide Placed, Partition, Merged, TableTells, ListsTell, ToWord, FromWord, FreeBlock, OnlyListPagesChange, Split;
    var o', lists' := Split(o, p, k), lists[k := [mid] + lists[k]];
    SplitKeeps(o, p, k);
    SplitFree(o, p, k);
    ListsAfterPush(lists, o, o', mid, k);
    SplitHeads(o, p, k);
    PlacedKeys(|w|, t, o, o');
    ListWritesAreQuiet(w, w1, t, o', lists');
    PushedEntryIsQuiet(w, w1, t, o', Some(p), mid, k);
    TableAfterPush(w, w1, t, o, o', Some(p), Some(p), mid, k);
  }

  /** The end of `free`: the block in transit is pushed under its final order. */
  lemma GiveKeepsAll(w: seq<Word>, w1: seq<Word>, t: Table, o: Owner, lists: seq<seq<nat>>, p: nat, k: nat)
    requires Kept(w, t, o, lists, Some(p)) && IsBlock(o, Block(p, k, false)) && k <= MAX_ORDER
    requires k < MAX_ORDER ==> NoFreeBuddy(o, p, k)
    requires OnlyListPagesChange(w, w1, lists[k := [p] + lists[k]]) && t.Covers(p) && t.InMemory(w1)
    ensures var w' := w1[t.EntryWord(p) := ToWord(Entry.Buddy(true, k))];
            Kept(w', t, Give(o, p, k), lists[k := [p] + lists[k]], None) && Quiet(w, w', t, Give(o, p, k), None)
  {
    var o', lists', w' := Give(o, p, k), lists[k := [p] + lists[k]], w1[t.EntryWord(p) := ToWord(Entry.Buddy(true, k))];
    hide Placed, Partition, Merged, TableTells, ListsTell, ToWord, FromWord, FreeBlock, OnlyListPagesChange;
    GiveKeeps(o, p, k);
    GiveFree(o, p, k);
    ListsAfterPush(lists, o, o', p, k);
    GiveHeads(o, p, k);
    PlacedKeys(|w|, t, o, o');
    ListWritesAreQuiet(w, w1, t, o', lists');
    PushedEntryIsQuiet(w, w1, t, o', None, p, k);
    TableAfterPush(w, w1, t, o, o', Some(p), None, p, k);
  }

  lemma PlacedKeys(size: nat, t: Table, o: Owner, o': Owner)
    requires Placed(size, t, o) && o'.Keys == o.Keys
    ensures Placed(size, t, o')
    ensures forall p | p in o :: t.Covers(p)
  {
  }

  lemma SplitHeads(o: Owner, p: nat, k: nat)
    requires Partition(o) && IsBlock(o, Block(p, k + 1, false))
    ensures var o' := Split(o, p, k);
            && o'.Keys == o.Keys
            && p + Pow2(k) in o' && o'[p + Pow2(k)] == Block(p + Pow2(k), k, true)
            && forall q | q in o' && q != p && q != p + Pow2(k) && o'[q].head == q :: o[q] == o'[q]
  {
    assert BlockAt(o, p);
  }

  lemma GiveHeads(o: Owner, p: nat, k: nat)
    requires Partition(o) && IsBlock(o, Block(p, k, false))
    ensures var o' := Give(o, p, k);
            && o'.Keys == o.Keys && p in o' && o'[p] == Block(p, k, true)
            && forall q | q in o' && q != p && o'[q].head == q :: o[q] == o'[q]
  {
    assert BlockAt(o, p);
  }

  lemma AbsorbHeads(o: Owner, p: nat, k: nat)
    requires Partition(o) && IsBlock(o, Block(p, k, false)) && FreeBlock(o, BuddyOf(p, k), k)
    ensures var o' := Absorb(o, p, k);
            && o'.Keys == o.Keys && IsBlock(o', Block(Parent(p, k), k + 1, false))
            && forall q | q in o' && q != Parent(p, k) && o'[q].head == q :: o[q] == o'[q] && q != p
  {
    assert BlockAt(o, p);
    BuddyFacts(p, k);
    hide BuddyOf, BlockAt, Partition, Aligned;
    var b := Block(Parent(p, k), k + 1, false);
    assert Pow2(k + 1) == 2 * Pow2(k);
    assert InBlock(b, p) && InBlock(b, b.head);
  }

  lemma PushedEntryIsQuiet(w: seq<Word>, w1: seq<Word>, t: Table, o: Owner, result: Option<nat>, p: nat, k: nat)
    requires Quiet(w, w1, t, o, result) && t.Covers(p) && t.InMemory(w) && FreePage(o, p)
    ensures Quiet(w, w1[t.EntryWord(p) := ToWord(Entry.Buddy(true, k))], t, o, result)
  {
    var i := t.EntryWord(p);
    assert t.Holds(i) && MayWrite(t, o, result, i);
  }

  /** After a push the table is right again about the page pushed and still about the others. */
  lemma TableAfterPush(w: seq<Word>, w1: seq<Word>, t: Table, o: Owner, o': Owner, before: Option<nat>,
                       after: Option<nat>, p: nat, k: nat)
    requires TableTells(w, t, o, before) && |w1| == |w| && t.Covers(p) && k < ORDERS
    requires forall q: nat | t.Covers(q) :: w1[t.EntryWord(q)] == w[t.EntryWord(q)]
    requires p in o' && o'[p] == Block(p, k, true) && o.Keys <= o'.Keys
    requires before == after || before == Some(p)
    requires forall q | q in o' && q != p && Some(q) != after && o'[q].head == q :: q in o && o[q] == o'[q]
    ensures TableTells(w1[t.EntryWord(p) := ToWord(Entry.Buddy(true, k))], t, o', after)
  {
    var w' := w1[t.EntryWord(p) := ToWord(Entry.Buddy(true, k))];
    EntryRoundTrip(Entry.Buddy(true, k));
    hide ToWord, FromWord;
    forall q: nat | t.Covers(q) && Some(q) != after
      ensures TellsPage(EntryAt(w', t, q), o', q)
    {
      if q != p {
        assert EntryAt(w', t, q) == EntryAt(w, t, q);
      }
    }
  }

  /** One pass of the merging loop: the buddy comes off its list and the pair is in transit. */
  lemma AbsorbKeepsAll(w: seq<Word>, w': seq<Word>, t: Table, o: Owner, lists: seq<seq<nat>>, p: nat, k: nat)
    requires Kept(w, t, o, lists, Some(p)) && IsBlock(o, Block(p, k, false)) && k < MAX_ORDER
    requires BuddyOf(p, k) in lists[k] && Distinct(lists[k])
    requires OnlyListPagesChange(w, w', lists[k := Without(lists[k], BuddyOf(p, k))])
    ensures Kept(w', t, Absorb(o, p, k), lists[k := Without(lists[k], BuddyOf(p, k))], Some(Parent(p, k)))
    ensures forall result :: Quiet(w, w', t, Absorb(o, p, k), result)
    ensures IsBlock(Absorb(o, p, k), Block(Parent(p, k), k + 1, false))
  {
    var q := BuddyOf(p, k);
    var o', lists' := Absorb(o, p, k), lists[k := Without(lists[k], q)];
    assert BlockAt(o, p);
    assert FreeBlock(o, q, k);
    hide Partition, Merged, ListsTell, BlockAt, FreeBlock, OnlyListPagesChange, Aligned, Pow2, Quiet, FromWord;
    AbsorbKeeps(o, p, k);
    AbsorbFree(o, p, k);
    AbsorbHeads(o, p, k);
    ListsAfterUnlink(lists, o, o', q, k);
    ListWritesAreQuiet(w, w', t, o', lists');
    assert TableTells(w', t, o', Some(Parent(p, k)));
  }

  /** The buddy's entry, in or out of date, answers exactly whether the buddy is on this order's list. */
  lemma BuddyEntryIsTrue(w: seq<Word>, t: Table, o: Owner, lists: seq<seq<nat>>, p: nat, k: nat)
    requires Kept(w, t, o, lists, Some(p)) && IsBlock(o, Block(p, k, false)) && k < MAX_ORDER
    ensures BuddyOf(p, k) in lists[k] <==>
              t.Covers(BuddyOf(p, k)) && EntryAt(w, t, BuddyOf(p, k)) == Entry.Buddy(true, k)
    ensures BuddyOf(p, k) !in lists[k] ==> NoFreeBuddy(o, p, k)
  {
    assert BlockAt(o, p);
    BuddyFacts(p, k);
    BuddyHeads(o, Block(p, k, false));
  }

  // ----- What the two operations promise

  /** Exactly the block `(p, k)` left the free pages and is handed out; other handed-out blocks stay. */
  ghost predicate Allocated(o: Owner, o': Owner, p: nat, k: nat) {
    var b := Block(p, k, false);
    && o'.Keys == o.Keys && IsBlock(o', b) && FreeRun(o, p, k)
    && forall q | q in o :: if InBlock(b, q) then o'[q] == b else if o[q].free then o'[q].free else o'[q] == o[q]
  }

  /** `p` heads a free block that holds 2^order pages, and no smaller free block does. */
  ghost predicate BestFit(o: Owner, p: nat, order: nat) {
    && p in o && order <= o[p].order && FreeBlock(o, p, o[p].order)
    && forall q: nat, j: nat | order <= j < o[p].order :: !FreeBlock(o, q, j)
  }

  /** Exactly the block `(p, k)` joined the free pages; other handed-out blocks stay. */
  ghost predicate Released(o: Owner, o': Owner, p: nat, k: nat) {
    var b := Block(p, k, false);
    && o'.Keys == o.Keys && IsBlock(o, b)
    && forall q | q in o :: if InBlock(b, q) || o[q].free then o'[q].free else o'[q] == o[q]
  }

  class Frames {
    const lists: FreeLists
    const total: nat
    ghost var owner: Owner

    ghost predicate Valid(pages: Pages)
      reads this, lists, lists.ram
    {
      && pages.ram == lists.ram
      && lists.Valid()
      && Kept(lists.ram.words, pages.table, owner, lists.lists, None)
    }

    constructor (ram: Memory, total: nat)
      ensures lists.ram == ram && fresh(lists) && lists.Valid() && lists.lists == seq(ORDERS, _ => [])
      ensures this.total == total && owner == map[]
    {
      lists := new FreeLists(ram);
      this.total := total;
      owner := map[];
    }

    /** Puts a block on its list and marks its head's entry free. */
    method Push(pages: Pages, pfn: nat, order: nat) returns (ghost linked: seq<Word>)
      requires pages.ram == lists.ram && lists.Valid() && order < ORDERS && !OnSomeList(lists.lists, pfn)
      requires HasLinkWords(lists.ram.words, pfn) && Addressable(pfn)
      requires pages.Valid() && pages.table.Covers(pfn)
      requires forall i: nat | pages.table.Holds(i) :: i / PAGE_WORDS != pfn && !OnSomeList(lists.lists, i / PAGE_WORDS)
      modifies lists, lists.ram
      ensures lists.Valid() && lists.lists == old(lists.lists)[order := [pfn] + old(lists.lists)[order]]
      ensures OnlyListPagesChange(old(lists.ram.words), linked, lists.lists)
      ensures |linked| == |old(lists.ram.words)| && pages.table.InMemory(linked)
      ensures lists.ram.words == linked[pages.table.EntryWord(pfn) := ToWord(Entry.Buddy(true, order))]
    {
      lists.Push(pfn, order);
      linked := lists.ram.words;
      pages.Write(pfn, Entry.Buddy(true, order));
      ghost var i := pages.table.EntryWord(pfn);
      assert pages.table.Holds(i);
      OnAfterPush(old(lists.lists), pfn, order);
      RepresentsFrame(linked, lists.ram.words, lists.heads, lists.lists);
    }

    /**
     Hands out a block of 2^order pages, the lower end of a smallest free block that holds it. It fails
     exactly when no aligned run of that many pages is free.
    */
    method Alloc(pages: Pages, order: nat) returns (r: Option<nat>)
      requires Valid(pages)
      modifies this, lists, lists.ram
      ensures Valid(pages)
      ensures r.None? <==> !exists p :: order <= MAX_ORDER && FreeRun(old(owner), p, order)
      ensures r == FirstHead(old(lists.heads), order)
      ensures r.None? ==> owner == old(owner) && lists.ram.words == old(lists.ram.words)
      ensures r.Some? ==>
                && order <= MAX_ORDER && Allocated(old(owner), owner, r.value, order)
                && BestFit(old(owner), r.value, order)
                && EntryAt(lists.ram.words, pages.table, r.value) == Entry.Buddy(false, order)
                && Quiet(old(lists.ram.words), lists.ram.words, pages.table, owner, r)
    {
      hide Partition, Merged, ListsTell, TableTells, Placed, FreeRun, Allocated, Quiet, OnlyListPagesChange, ToWord,
        FromWord, PageCount, Aligned, HasLinkWords, Addressable, OnSomeList, Take, Split, Represents, BestFit;
      ghost var w0, o0 := lists.ram.words, owner;
      var available := order;
      HeadsTell(w0, lists.heads, lists.lists);
      while available <= MAX_ORDER && lists.Head(available) == None
        invariant order <= available && FirstHead(lists.heads, order) == FirstHead(lists.heads, available)
        invariant forall k | order <= k < available && k <= MAX_ORDER :: lists.lists[k] == []
      {
        available := available + 1;
      }
      if available > MAX_ORDER {
        EmptyMeansNone(owner, lists.lists, order);
        return None;
      }
      var popped := lists.Pop(available);
      var pfn := popped.value;
      SmallestFirst(o0, old(lists.lists), pfn, available, order);
      PopStep(w0, lists.ram.words, pages.table, o0, old(lists.heads), old(lists.lists), pfn, available, order);
      owner := Take(owner, pfn, available);
      while available > order
        invariant order <= available <= MAX_ORDER
        invariant lists.Valid() && Kept(lists.ram.words, pages.table, owner, lists.lists, Some(pfn))
        invariant Allocated(o0, owner, pfn, available)
        invariant Quiet(w0, lists.ram.words, pages.table, owner, Some(pfn))
      {
        available := available - 1;
        ghost var w, o, l := lists.ram.words, owner, lists.lists;
        var mid := pfn + Pow2(available);
        SplitReady(w, pages.table, o0, o, lists.lists, pfn, available);
        ListCount(l, o);
        ghost var linked := Push(pages, mid, available);
        SplitStep(w0, w, linked, pages.table, o0, o, l, pfn, available, mid);
        owner := Split(owner, pfn, available);
      }
      ghost var w := lists.ram.words;
      FinishReady(w, pages.table, o0, owner, lists.lists, pfn, order);
      pages.Write(pfn, Entry.Buddy(false, order));
      FinishStep(w0, w, pages.table, o0, owner, lists.heads, lists.lists, pfn, order);
      return Some(pfn);
    }

    /** Builds the lists from every run the map leaves unreserved. */
    static method New(memory: MemoryMap, pages: Pages) returns (frames: Frames)
      requires memory.Valid() && SeedReady(|pages.ram.words|, pages.table, memory.arena, memory.Reserved())
      requires pages.Valid() && forall p: nat | pages.table.Covers(p) ::
                 EntryAt(pages.ram.words, pages.table, p) == Entry.Buddy(false, 0)
      modifies pages.ram
      ensures fresh(frames) && fresh(frames.lists) && frames.lists.ram == pages.ram && frames.Valid(pages)
      ensures frames.total == pages.table.len
      ensures forall p: nat :: p in frames.owner <==> Open(memory.arena, memory.Reserved(), p)
      ensures forall p | p in frames.owner :: frames.owner[p].free
      ensures Quiet(old(pages.ram.words), pages.ram.words, pages.table, frames.owner, None)
    {
      frames := new Frames(pages.ram, pages.table.len);
      EmptyKept(pages.ram.words, pages.table, memory.arena, memory.Reserved());
      frames.Seed(memory, pages);
    }

    method Seed(memory: MemoryMap, pages: Pages)
      requires memory.Valid() && SeedReady(|pages.ram.words|, pages.table, memory.arena, memory.Reserved())
      requires Valid(pages) && owner == map[]
      modifies this, lists, lists.ram
      ensures Valid(pages)
      ensures forall p: nat :: p in owner <==> Open(memory.arena, memory.Reserved(), p)
      ensures forall p | p in owner :: owner[p].free
      ensures Quiet(old(lists.ram.words), lists.ram.words, pages.table, owner, None)
    {
      hide Partition, Merged, ListsTell, TableTells, Placed, Quiet, Open, Represents, MaximalRun, PageCount;
      ghost var w0, arena, taken := lists.ram.words, memory.arena, memory.Reserved();
      var runs := memory.Unreserved();
      QuietRefl(w0, pages.table, owner);
      NothingSeeded(arena, taken, runs);
      var i := 0;
      while i < |runs|
        invariant i <= |runs|
        invariant Valid(pages) && |lists.ram.words| == |w0|
        invariant Seeded(owner, arena, taken, RunStart(arena, runs, i))
        invariant Quiet(w0, lists.ram.words, pages.table, owner, None)
      {
        RunAt(arena, taken, runs, i);
        ghost var w, o := lists.ram.words, owner;
        SeedRun(pages, runs[i], arena, taken);
        NextRun(owner, arena, taken, runs, i);
        SeededGrows(o, owner, arena, taken, RunStart(arena, runs, i), runs[i].end);
        QuietChain(w0, w, lists.ram.words, pages.table, o, owner, None);
        i := i + 1;
      }
      AllSeeded(owner, arena, taken, runs);
    }

    /** Cuts one run greedily: each block is the largest aligned one that fits what is left. */
    method SeedRun(pages: Pages, run: PageRange, ghost arena: Region, ghost taken: seq<Region>)
      requires SeedReady(|pages.ram.words|, pages.table, arena, taken) && MaximalRun(arena, taken, run)
      requires Valid(pages) && Seeded(owner, arena, taken, run.start)
      modifies this, lists, lists.ram
      ensures Valid(pages) && |lists.ram.words| == |old(lists.ram.words)|
      ensures Seeded(owner, arena, taken, run.end)
      ensures Quiet(old(lists.ram.words), lists.ram.words, pages.table, owner, None)
    {
      hide Partition, Merged, ListsTell, TableTells, Placed, Quiet, Open, Represents, PageCount, Seeded, ToWord,
        FromWord, OnlyListPagesChange, Kept, SeedReady, Greedy, Grow, MaximalRun, OnSomeList, HasLinkWords, Aligned,
        Addressable, TrailingZeros, ILog2, Pow2;
      ghost var w0, t := lists.ram.words, pages.table;
      QuietRefl(w0, t, owner);
      RunInArena(arena, taken, run);
      StartGreedy(owner, arena, taken, run);
      var block := run.start;
      while block < run.end
        invariant run.start <= block <= run.end
        invariant Valid(pages) && |lists.ram.words| == |w0|
        invariant Seeded(owner, arena, taken, block) && Greedy(owner, run.start, run.end)
        invariant Quiet(w0, lists.ram.words, t, owner, None)
      {
        var order := Min(MAX_ORDER, Min(TrailingZeros(block), ILog2(run.end - block)));
        LargestFit(block, run.end);
        ghost var w, o, l := lists.ram.words, owner, lists.lists;
        GrowReady(w, t, o, l, arena, taken, run, block);
        ghost var linked := Push(pages, block, order);
        owner := Grow(owner, Block(block, order, true));
        GrowStep(w0, w, linked, t, o, l, arena, taken, run, block, order);
        block := block + Pow2(order);
      }
    }

    /** Takes back a block and merges it with its buddy for as long as that buddy is free and whole. */
    method Free(pages: Pages, page: nat)
      requires Valid(pages)
      requires page in owner && owner[page].head == page && !owner[page].free
      modifies this, lists, lists.ram
      ensures Valid(pages)
      ensures Released(old(owner), owner, page, old(owner[page].order))
      ensures Quiet(old(lists.ram.words), lists.ram.words, pages.table, owner, None)
    {
      hide Partition, Merged, ListsTell, TableTells, Placed, Released, Quiet, OnlyListPagesChange, ToWord, FromWord,
        Represents, PageCount, Aligned, HasLinkWords, Addressable, OnSomeList, Give, Absorb, NoFreeBuddy, Distinct;
      ghost var w0, o0, k0 := lists.ram.words, owner, owner[page].order;
      var pfn := page;
      FreeReady(w0, pages.table, o0, lists.lists, page);
      var entry := pages.Read(pfn);
      // The source panics on a page that is free already: this one is not.
      assert entry.Slab? || !entry.free;
      var order := match entry
        case Buddy(_, order) => order
        case Slab(_, _, _, _, _) => 0;
      while order < MAX_ORDER
        invariant order <= MAX_ORDER && IsBlock(owner, Block(pfn, order, false))
        invariant lists.Valid() && Kept(lists.ram.words, pages.table, owner, lists.lists, Some(pfn))
        invariant Released(o0, Give(owner, pfn, order), page, k0)
        invariant Quiet(w0, lists.ram.words, pages.table, Give(owner, pfn, order), None)
        invariant pages.Valid()
      {
        ghost var w, o, l := lists.ram.words, owner, lists.lists;
        ListCount(l, o);
        BuddyEntryIsTrue(w, pages.table, o, l, pfn, order);
        var buddy := BuddyOf(pfn, order);
        if !pages.table.Covers(buddy) {
          break;
        }
        var there := pages.Read(buddy);
        if there.Slab? || !there.free {
          break;
        }
        if there.order != order {
          break;
        }
        ListedDistinct(w, lists.heads, l, order);
        lists.Unlink(buddy, order);
        AbsorbStep(w0, w, lists.ram.words, pages.table, o0, o, l, page, k0, pfn, order);
        owner := Absorb(owner, pfn, order);
        pfn := Min(pfn, buddy);
        order := order + 1;
      }
      ghost var w, o, l := lists.ram.words, owner, lists.lists;
      ListCount(l, o);
      GiveReady(w, pages.table, o, l, pfn, order);
      ghost var linked := Push(pages, pfn, order);
      owner := Give(owner, pfn, order);
      GiveKeepsAll(w, linked, pages.table, o, l, pfn, order);
      QuietChain(w0, w, lists.ram.words, pages.table, owner, owner, None);
    }
  }

  lemma ListCount(lists: seq<seq<nat>>, o: Owner)
    requires ListsTell(lists, o)
    ensures |lists| == ORDERS
  {
  }

  lemma HeadsTell(w: seq<Word>, heads: seq<Option<nat>>, lists: seq<seq<nat>>)
    requires Represents(w, heads, lists)
    ensures |heads| == |lists| == ORDERS
    ensures forall k | 0 <= k < ORDERS :: heads[k] == None <==> lists[k] == []
  {
    forall k | 0 <= k < ORDERS
      ensures heads[k] == None <==> lists[k] == []
    {
      assert Linked(PageLinks(w), heads[k], lists[k]);
    }
  }

  lemma EmptyMeansNone(o: Owner, lists: seq<seq<nat>>, k: nat)
    requires Partition(o) && Merged(o) && ListsTell(lists, o) && |lists| == ORDERS
    requires forall j | k <= j <= MAX_ORDER :: lists[j] == []
    ensures !exists p :: k <= MAX_ORDER && FreeRun(o, p, k)
  {
    if k <= MAX_ORDER {
      FreeRunIffFreeBlock(o, k);
      if p, j :| k <= j && FreeBlock(o, p, j) {
        assert false;
      }
    }
  }

  lemma SmallestFirst(o: Owner, lists: seq<seq<nat>>, p: nat, k: nat, order: nat)
    requires ListsTell(lists, o) && |lists| == ORDERS && order <= k <= MAX_ORDER && p in lists[k]
    requires forall j | order <= j < k :: lists[j] == []
    ensures BestFit(o, p, order)
  {
  }

  lemma PopStep(w: seq<Word>, w': seq<Word>, t: Table, o: Owner, heads: seq<Option<nat>>, lists: seq<seq<nat>>,
                p: nat, k: nat, order: nat)
    requires Represents(w, heads, lists) && Kept(w, t, o, lists, None)
    requires order <= k <= MAX_ORDER && p in lists[k]
    requires OnlyListPagesChange(w, w', lists[k := Without(lists[k], p)])
    ensures var o' := Take(o, p, k);
            && Kept(w', t, o', lists[k := Without(lists[k], p)], Some(p))
            && Quiet(w, w', t, o', Some(p))
            && Allocated(o, o', p, k)
    ensures FreeRun(o, p, order)
  {
    ListedDistinct(w, heads, lists, k);
    hide Represents, OnlyListPagesChange, Merged, Partition, ListsTell, TableTells, Placed, Quiet, Distinct, Take,
      Allocated, FreeRun;
    PopKeepsAll(w, w', t, o, lists, p, k);
    TakeAllocates(o, p, k, order);
  }

  lemma TakeAllocates(o: Owner, p: nat, k: nat, order: nat)
    requires Partition(o) && FreeBlock(o, p, k) && order <= k
    ensures Allocated(o, Take(o, p, k), p, k) && FreeRun(o, p, order)
  {
    assert BlockAt(o, p);
    AlignedWeaken(p, order, k);
    Pow2Monotonic(order, k);
  }

  lemma SplitReady(w: seq<Word>, t: Table, o0: Owner, o: Owner, lists: seq<seq<nat>>, p: nat, k: nat)
    requires Kept(w, t, o, lists, Some(p)) && k < MAX_ORDER && Allocated(o0, o, p, k + 1)
    ensures var mid := p + Pow2(k);
            && !OnSomeList(lists, mid) && HasLinkWords(w, mid) && Addressable(mid) && t.Covers(mid)
            && t.InMemory(w)
            && forall i: nat | t.Holds(i) :: i / PAGE_WORDS != mid && !OnSomeList(lists, i / PAGE_WORDS)
  {
    hide Partition, Merged, TableTells, ListsTell, OnSomeList, FreeRun;
    var mid := p + Pow2(k);
    InsideAllocated(o0, o, p, k + 1, mid);
    NotFreeNotListed(lists, o, mid);
    forall i: nat | t.Holds(i)
      ensures i / PAGE_WORDS != mid && !OnSomeList(lists, i / PAGE_WORDS)
    {
      assert i / PAGE_WORDS !in o;
      NotFreeNotListed(lists, o, i / PAGE_WORDS);
    }
  }

  lemma InsideAllocated(o0: Owner, o: Owner, p: nat, k: nat, q: nat)
    requires Allocated(o0, o, p, k) && p <= q < p + Pow2(k)
    ensures q in o && o[q] == Block(p, k, false)
  {
  }

  lemma NotFreeNotListed(lists: seq<seq<nat>>, o: Owner, p: nat)
    requires ListsTell(lists, o) && !FreePage(o, p)
    ensures !OnSomeList(lists, p)
  {
  }

  lemma SplitStep(w0: seq<Word>, w: seq<Word>, w1: seq<Word>, t: Table, o0: Owner, o: Owner, lists: seq<seq<nat>>,
                  p: nat, k: nat, mid: nat)
    requires Kept(w, t, o, lists, Some(p)) && k < MAX_ORDER && Allocated(o0, o, p, k + 1)
    requires Quiet(w0, w, t, o, Some(p))
    requires |lists| == ORDERS && mid == p + Pow2(k) && t.Covers(mid) && t.InMemory(w1)
    requires OnlyListPagesChange(w, w1, lists[k := [mid] + lists[k]])
    ensures var w' := w1[t.EntryWord(mid) := ToWord(Entry.Buddy(true, k))];
            && Kept(w', t, Split(o, p, k), lists[k := [mid] + lists[k]], Some(p))
            && Quiet(w0, w', t, Split(o, p, k), Some(p))
    ensures Allocated(o0, Split(o, p, k), p, k)
  {
    hide Placed, Partition, Merged, TableTells, ListsTell, ToWord, FromWord, OnlyListPagesChange, Quiet;
    SplitKeepsAll(w, w1, t, o, lists, p, k, mid);
    SplitAllocates(o0, o, p, k);
    QuietChain(w0, w, w1[t.EntryWord(mid) := ToWord(Entry.Buddy(true, k))], t, o, Split(o, p, k), Some(p));
  }

  lemma SplitAllocates(o0: Owner, o: Owner, p: nat, k: nat)
    requires Allocated(o0, o, p, k + 1)
    ensures Allocated(o0, Split(o, p, k), p, k)
    ensures forall q | FreePage(o, q) :: FreePage(Split(o, p, k), q)
  {
    AlignedWeaken(p, k, k + 1);
    assert Pow2(k + 1) == 2 * Pow2(k);
  }

  lemma FinishReady(w: seq<Word>, t: Table, o0: Owner, o: Owner, lists: seq<seq<nat>>, p: nat, k: nat)
    requires Kept(w, t, o, lists, Some(p)) && Allocated(o0, o, p, k)
    ensures t.InMemory(w) && t.Covers(p)
  {
  }

  /** Writing the entry of the block handed out ends its time in transit. */
  lemma FinishStep(w0: seq<Word>, w: seq<Word>, t: Table, o0: Owner, o: Owner, heads: seq<Option<nat>>,
                   lists: seq<seq<nat>>, p: nat, k: nat)
    requires Kept(w, t, o, lists, Some(p)) && k <= MAX_ORDER && Allocated(o0, o, p, k)
    requires Represents(w, heads, lists) && Quiet(w0, w, t, o, Some(p)) && t.Covers(p) && t.InMemory(w)
    ensures var w' := w[t.EntryWord(p) := ToWord(Entry.Buddy(false, k))];
            && Kept(w', t, o, lists, None) && Quiet(w0, w', t, o, Some(p)) && Represents(w', heads, lists)
            && EntryAt(w', t, p) == Entry.Buddy(false, k)
  {
    hide Partition, Merged, ToWord, FromWord, Represents, FreeRun, TableTells, ListsTell, OnSomeList;
    var i := t.EntryWord(p);
    assert t.Holds(i) && MayWrite(t, o, Some(p), i);
    NotFreeNotListed(lists, o, i / PAGE_WORDS);
    RepresentsFrame(w, w[i := ToWord(Entry.Buddy(false, k))], heads, lists);
    EntryWritten(w, t, o, p, Entry.Buddy(false, k));
  }

  /** An entry that tells the truth about its page completes the table. */
  lemma EntryWritten(w: seq<Word>, t: Table, o: Owner, p: nat, e: Entry)
    requires TableTells(w, t, o, Some(p)) && t.Covers(p) && Packable(e) && TellsPage(e, o, p)
    ensures var w' := w[t.EntryWord(p) := ToWord(e)]; TableTells(w', t, o, None) && EntryAt(w', t, p) == e
  {
    hide ToWord, FromWord;
    EntryRoundTrip(e);
    var w' := w[t.EntryWord(p) := ToWord(e)];
    forall q: nat | t.Covers(q)
      ensures TellsPage(EntryAt(w', t, q), o, q)
    {
      if q != p {
        assert EntryAt(w', t, q) == EntryAt(w, t, q);
      }
    }
  }

  // ----- Seeding

  /** The geometry seeding relies on: open pages are covered and in memory, and none holds the table. */
  ghost predicate SeedReady(size: nat, t: Table, arena: Region, taken: seq<Region>) {
    && t.page * PAGE_WORDS + t.len <= size
    && t.len <= MAX_PAGES
    && (forall p: nat | Open(arena, taken, p) :: t.Covers(p) && (p + 1) * PAGE_WORDS <= size && Addressable(p))
    && (forall i: nat | t.Holds(i) :: !Open(arena, taken, i / PAGE_WORDS))
  }

  /** The managed pages are the open ones below a limit, and all are free. */
  ghost predicate Seeded(o: Owner, arena: Region, taken: seq<Region>, limit: nat) {
    && (forall p: nat :: p in o <==> Open(arena, taken, p) && p < limit)
    && (forall p | p in o :: o[p].free)
  }

  ghost function RunStart(arena: Region, runs: seq<PageRange>, i: nat): nat
    requires i <= |runs|
  {
    if i < |runs| then runs[i].start else arena.End()
  }

  /** No block of this run could have been taken one order larger. */
  ghost predicate Greedy(o: Owner, start: nat, end: nat) {
    forall p | p in o && start <= p && o[p].head == p && o[p].order < MAX_ORDER ::
      !(Aligned(p, o[p].order + 1) && p + Pow2(o[p].order + 1) <= end)
  }

  ghost function Grow(o: Owner, b: Block): Owner {
    o + map p: nat | b.head <= p < b.head + Pow2(b.order) && InBlock(b, p) :: b
  }

  lemma LargestFit(p: nat, end: nat)
    requires p < end
    ensures var k := Min(MAX_ORDER, Min(TrailingZeros(p), ILog2(end - p)));
            && k <= MAX_ORDER && Aligned(p, k) && p + Pow2(k) <= end
            && (k < MAX_ORDER ==> !(Aligned(p, k + 1) && p + Pow2(k + 1) <= end))
  {
    var k := Min(MAX_ORDER, Min(TrailingZeros(p), ILog2(end - p)));
    ILog2IsFit(end - p, k);
    ILog2IsFit(end - p, k + 1);
    if p == 0 {
      ZeroAligned(k);
    } else {
      TrailingZerosIsAlignment(p, k);
      TrailingZerosIsAlignment(p, k + 1);
    }
  }

  lemma GrowPartitions(o: Owner, b: Block)
    requires Partition(o) && b.order <= MAX_ORDER && Aligned(b.head, b.order)
    requires forall p | p in o :: p < b.head
    ensures Partition(Grow(o, b))
  {
    var o' := Grow(o, b);
    forall p | p in o'
      ensures BlockAt(o', p)
    {
      if p in o {
        assert BlockAt(o, p);
        assert forall q: nat | InBlock(o[p], q) :: q in o;
      }
    }
  }

  lemma GrowMerges(o: Owner, b: Block, start: nat, end: nat)
    requires Partition(o) && Merged(o) && Greedy(o, start, end) && Partition(Grow(o, b))
    requires b.free && b.order <= MAX_ORDER && Aligned(b.head, b.order)
    requires start <= b.head && b.head + Pow2(b.order) <= end
    requires start > 0 ==> start - 1 !in o
    requires forall p | p in o :: p < b.head
    ensures Merged(Grow(o, b))
  {
    GrowFree(o, b.head, b.order);
    if b.order < MAX_ORDER {
      BuddyFacts(b.head, b.order);
      LowerBuddyIsNotFree(o, b, start, end);
    }
    MergedWithOneMore(o, Grow(o, b), b.head, b.order);
  }

  /** Had the buddy below been free, the greedy choice there would have taken both at once. */
  lemma LowerBuddyIsNotFree(o: Owner, b: Block, start: nat, end: nat)
    requires Partition(o) && Greedy(o, start, end) && b.order < MAX_ORDER && Aligned(b.head, b.order)
    requires start <= b.head && b.head + Pow2(b.order) <= end
    requires start > 0 ==> start - 1 !in o
    requires forall p | p in o :: p < b.head
    ensures NoFreeBuddy(o, b.head, b.order)
  {
    BuddyFacts(b.head, b.order);
    var low := BuddyOf(b.head, b.order);
    if low in o && low < start {
      assert BlockAt(o, low);
      assert InBlock(Block(low, b.order, true), start - 1);
    }
  }

  lemma EmptyKept(w: seq<Word>, t: Table, arena: Region, taken: seq<Region>)
    requires SeedReady(|w|, t, arena, taken) && t.InMemory(w)
    requires forall p: nat | t.Covers(p) :: EntryAt(w, t, p) == Entry.Buddy(false, 0)
    ensures Kept(w, t, map[], seq(ORDERS, _ => []), None)
    ensures Quiet(w, w, t, map[], None)
  {
  }

  lemma QuietRefl(w: seq<Word>, t: Table, o: Owner)
    ensures Quiet(w, w, t, o, None)
  {
  }

  /** Runs ascend, so an open page lies in a run that starts no later than it and none that comes later. */
  lemma OpenInRun(arena: Region, taken: seq<Region>, runs: seq<PageRange>, p: nat) returns (i: nat)
    requires ExactRuns(arena, taken, runs) && Open(arena, taken, p)
    ensures i < |runs| && runs[i].start <= p < runs[i].end
    ensures forall j | 0 <= j < i :: runs[j].end < runs[i].start
    ensures forall j | i < j < |runs| :: runs[i].end < runs[j].start
  {
    assert InSomeRun(runs, p);
    i :| 0 <= i < |runs| && runs[i].Contains(p);
  }

  lemma NothingSeeded(arena: Region, taken: seq<Region>, runs: seq<PageRange>)
    requires ExactRuns(arena, taken, runs)
    ensures Seeded(map[], arena, taken, RunStart(arena, runs, 0))
  {
    hide Open, InSomeRun;
    forall p: nat | Open(arena, taken, p)
      ensures RunStart(arena, runs, 0) <= p
    {
      var i := OpenInRun(arena, taken, runs, p);
      RunAt(arena, taken, runs, 0);
    }
  }

  lemma RunAt(arena: Region, taken: seq<Region>, runs: seq<PageRange>, i: nat)
    requires ExactRuns(arena, taken, runs) && i < |runs|
    ensures MaximalRun(arena, taken, runs[i]) && runs[i].start < runs[i].end
  {
  }

  lemma NextRun(o: Owner, arena: Region, taken: seq<Region>, runs: seq<PageRange>, i: nat)
    requires ExactRuns(arena, taken, runs) && i < |runs| && Seeded(o, arena, taken, runs[i].end)
    ensures Seeded(o, arena, taken, RunStart(arena, runs, i + 1))
    ensures runs[i].end <= RunStart(arena, runs, i + 1)
  {
    hide Open, InSomeRun, MaximalRun;
    RunAt(arena, taken, runs, i);
    forall p: nat | Open(arena, taken, p) && runs[i].end <= p
      ensures RunStart(arena, runs, i + 1) <= p
    {
      var j := OpenInRun(arena, taken, runs, p);
      RunAt(arena, taken, runs, i + 1);
    }
    RunInArena(arena, taken, runs[i]);
  }

  lemma RunInArena(arena: Region, taken: seq<Region>, run: PageRange)
    requires MaximalRun(arena, taken, run)
    ensures run.start < run.end && run.end * PAGE_SIZE <= arena.End()
  {
    assert run.Contains(run.end - 1);
  }

  lemma AllSeeded(o: Owner, arena: Region, taken: seq<Region>, runs: seq<PageRange>)
    requires Seeded(o, arena, taken, arena.End())
    ensures forall p: nat :: p in o <==> Open(arena, taken, p)
  {
  }

  lemma SeededGrows(o: Owner, o': Owner, arena: Region, taken: seq<Region>, l: nat, l': nat)
    requires Seeded(o, arena, taken, l) && Seeded(o', arena, taken, l') && l <= l'
    ensures forall p | FreePage(o, p) :: FreePage(o', p)
  {
  }

  lemma StartGreedy(o: Owner, arena: Region, taken: seq<Region>, run: PageRange)
    requires Seeded(o, arena, taken, run.start)
    ensures Greedy(o, run.start, run.end)
  {
  }

  lemma GrowReady(w: seq<Word>, t: Table, o: Owner, lists: seq<seq<nat>>, arena: Region, taken: seq<Region>,
                  run: PageRange, p: nat)
    requires SeedReady(|w|, t, arena, taken) && Kept(w, t, o, lists, None) && Seeded(o, arena, taken, p)
    requires MaximalRun(arena, taken, run) && run.start <= p < run.end
    ensures |lists| == ORDERS
    ensures !OnSomeList(lists, p) && HasLinkWords(w, p) && Addressable(p) && t.Covers(p) && t.InMemory(w)
    ensures forall i: nat | t.Holds(i) :: i / PAGE_WORDS != p && !OnSomeList(lists, i / PAGE_WORDS)
  {
    hide Partition, Merged, TableTells, ListsTell, OnSomeList, Open;
    RunIsOpen(arena, taken, run);
    ListCount(lists, o);
    assert run.Contains(p);
    assert p !in o;
    NotFreeNotListed(lists, o, p);
    forall i: nat | t.Holds(i)
      ensures i / PAGE_WORDS != p && !OnSomeList(lists, i / PAGE_WORDS)
    {
      assert !Open(arena, taken, i / PAGE_WORDS);
      assert i / PAGE_WORDS !in o;
      NotFreeNotListed(lists, o, i / PAGE_WORDS);
    }
  }

  /** One block seeded: everything the allocator relies on holds of what has been seeded so far. */
  lemma GrowStep(w0: seq<Word>, w: seq<Word>, w1: seq<Word>, t: Table, o: Owner, lists: seq<seq<nat>>, arena: Region,
                 taken: seq<Region>, run: PageRange, p: nat, k: nat)
    requires SeedReady(|w|, t, arena, taken) && Kept(w, t, o, lists, None) && Seeded(o, arena, taken, p)
    requires MaximalRun(arena, taken, run) && run.start <= p < run.end && |lists| == ORDERS
    requires Greedy(o, run.start, run.end) && Quiet(w0, w, t, o, None)
    requires k <= MAX_ORDER && Aligned(p, k) && p + Pow2(k) <= run.end
    requires k < MAX_ORDER ==> !(Aligned(p, k + 1) && p + Pow2(k + 1) <= run.end)
    requires t.Covers(p) && t.InMemory(w1) && |w1| == |w| && OnlyListPagesChange(w, w1, lists[k := [p] + lists[k]])
    ensures var w', o' := w1[t.EntryWord(p) := ToWord(Entry.Buddy(true, k))], Grow(o, Block(p, k, true));
            && Kept(w', t, o', lists[k := [p] + lists[k]], None)
            && Seeded(o', arena, taken, p + Pow2(k))
            && Greedy(o', run.start, run.end)
            && Quiet(w0, w', t, o', None)
  {
    hide Partition, Merged, ListsTell, TableTells, ToWord, FromWord, OnlyListPagesChange, Quiet, Open, Placed,
      SeedReady, MaximalRun, FreeBlock, Kept, Aligned;
    var b := Block(p, k, true);
    var o', lists', w' := Grow(o, b), lists[k := [p] + lists[k]], w1[t.EntryWord(p) := ToWord(Entry.Buddy(true, k))];
    KeptParts(w, t, o, lists);
    RunEdges(o, arena, taken, run, p);
    GrowPartitions(o, b);
    GrowMerges(o, b, run.start, run.end);
    GrowFree(o, p, k);
    ListsAfterPush(lists, o, o', p, k);
    GrowPlaced(|w|, t, o, arena, taken, run, b);
    GrowSeeded(o, arena, taken, run, b);
    GrowGreedy(o, run.start, run.end, b);
    hide Seeded, Greedy, Grow;
    ListWritesAreQuiet(w, w1, t, o', lists');
    PushedEntryIsQuiet(w, w1, t, o', None, p, k);
    TableAfterPush(w, w1, t, o, o', None, None, p, k);
    QuietChain(w0, w, w', t, o, o', None);
    KeptWhole(w', t, o', lists');
  }

  lemma GrowSeeded(o: Owner, arena: Region, taken: seq<Region>, run: PageRange, b: Block)
    requires Seeded(o, arena, taken, b.head) && MaximalRun(arena, taken, run) && b.free
    requires run.start <= b.head && b.head + Pow2(b.order) <= run.end
    ensures var o' := Grow(o, b);
            && Seeded(o', arena, taken, b.head + Pow2(b.order))
            && o.Keys <= o'.Keys && b.head in o' && o'[b.head] == b && FreePage(o', b.head)
            && (forall p | FreePage(o, p) :: FreePage(o', p))
            && forall p | p in o' && p != b.head && o'[p].head == p :: p in o && o[p] == o'[p]
  {
    hide Open;
    RunIsOpen(arena, taken, run);
    var o' := Grow(o, b);
    assert InBlock(b, b.head);
    forall p | p in o
      ensures p in o' && o'[p] == o[p]
    {
      assert !InBlock(b, p);
    }
  }

  lemma GrowGreedy(o: Owner, start: nat, end: nat, b: Block)
    requires Greedy(o, start, end) && forall p | p in o :: p < b.head
    requires b.order < MAX_ORDER ==> !(Aligned(b.head, b.order + 1) && b.head + Pow2(b.order + 1) <= end)
    ensures Greedy(Grow(o, b), start, end)
  {
    hide Aligned;
  }

  lemma KeptParts(w: seq<Word>, t: Table, o: Owner, lists: seq<seq<nat>>)
    requires Kept(w, t, o, lists, None)
    ensures Partition(o) && Merged(o) && ListsTell(lists, o) && TableTells(w, t, o, None) && t.InMemory(w)
  {
  }

  lemma KeptWhole(w: seq<Word>, t: Table, o: Owner, lists: seq<seq<nat>>)
    requires Partition(o) && Merged(o) && ListsTell(lists, o) && Placed(|w|, t, o) && TableTells(w, t, o, None)
    ensures Kept(w, t, o, lists, None)
  {
  }

  lemma RunEdges(o: Owner, arena: Region, taken: seq<Region>, run: PageRange, p: nat)
    requires MaximalRun(arena, taken, run) && Seeded(o, arena, taken, p)
    ensures run.start > 0 ==> run.start - 1 !in o
    ensures forall q | q in o :: q < p
  {
  }

  lemma GrowFree(o: Owner, p: nat, k: nat)
    requires Partition(o) && forall q | q in o :: q < p
    ensures forall q: nat, j: nat :: FreeBlock(Grow(o, Block(p, k, true)), q, j) <==>
              FreeBlock(o, q, j) || (q == p && j == k)
  {
    var b := Block(p, k, true);
    var o' := Grow(o, b);
    assert InBlock(b, p);
    forall q | q in o
      ensures q in o' && o'[q] == o[q] && q != p
    {
      assert !InBlock(b, q);
    }
  }

  lemma GrowPlaced(size: nat, t: Table, o: Owner, arena: Region, taken: seq<Region>, run: PageRange, b: Block)
    requires SeedReady(size, t, arena, taken) && Seeded(o, arena, taken, b.head)
    requires MaximalRun(arena, taken, run) && run.start <= b.head && b.head + Pow2(b.order) <= run.end
    ensures Placed(size, t, Grow(o, b))
  {
    hide Open;
    RunIsOpen(arena, taken, run);
  }

  lemma FreeReady(w: seq<Word>, t: Table, o: Owner, lists: seq<seq<nat>>, p: nat)
    requires Kept(w, t, o, lists, None) && p in o && o[p].head == p && !o[p].free
    ensures var k := o[p].order;
            && k <= MAX_ORDER && IsBlock(o, Block(p, k, false)) && Kept(w, t, o, lists, Some(p))
            && t.Covers(p) && t.InMemory(w)
            && (match EntryAt(w, t, p)
                case Buddy(free, order) => !free && order == k
                case Slab(_, _, _, _, _) => k == 0)
            && Released(o, Give(o, p, k), p, k) && Quiet(w, w, t, Give(o, p, k), None)
  {
    assert BlockAt(o, p);
    assert TellsPage(EntryAt(w, t, p), o, p);
  }

  lemma ListedDistinct(w: seq<Word>, heads: seq<Option<nat>>, lists: seq<seq<nat>>, k: nat)
    requires Represents(w, heads, lists) && k < ORDERS
    ensures Distinct(lists[k])
  {
    assert Linked(PageLinks(w), heads[k], lists[k]);
  }

  lemma AbsorbStep(w0: seq<Word>, w: seq<Word>, w': seq<Word>, t: Table, o0: Owner, o: Owner, lists: seq<seq<nat>>,
                   p0: nat, k0: nat, p: nat, k: nat)
    requires Kept(w, t, o, lists, Some(p)) && IsBlock(o, Block(p, k, false)) && k < MAX_ORDER && |lists| == ORDERS
    requires BuddyOf(p, k) in lists[k] && Distinct(lists[k])
    requires OnlyListPagesChange(w, w', lists[k := Without(lists[k], BuddyOf(p, k))])
    requires Released(o0, Give(o, p, k), p0, k0) && Quiet(w0, w, t, Give(o, p, k), None)
    ensures var o', q := Absorb(o, p, k), Parent(p, k);
            && Kept(w', t, o', lists[k := Without(lists[k], BuddyOf(p, k))], Some(q))
            && IsBlock(o', Block(q, k + 1, false))
            && Released(o0, Give(o', q, k + 1), p0, k0) && Quiet(w0, w', t, Give(o', q, k + 1), None)
  {
    var o', q := Absorb(o, p, k), Parent(p, k);
    AbsorbKeepsAll(w, w', t, o, lists, p, k);
    AbsorbAddsBuddy(o, lists, p, k);
    GiveKeepsFree(o', q, k + 1);
    hide Placed, Partition, Merged, TableTells, ListsTell, OnlyListPagesChange, Absorb, Give;
    assert Quiet(w, w', t, Give(o', q, k + 1), None) by {
      QuietWiden(w, w', t, o', Give(o', q, k + 1), None);
    }
    QuietChain(w0, w, w', t, Give(o, p, k), Give(o', q, k + 1), None);
  }

  lemma GiveKeepsFree(o: Owner, p: nat, k: nat)
    ensures forall r | FreePage(o, r) :: FreePage(Give(o, p, k), r)
  {
  }

  /** Seen as given back, the pair holds the pages the block and its free buddy held. */
  lemma AbsorbAddsBuddy(o: Owner, lists: seq<seq<nat>>, p: nat, k: nat)
    requires Partition(o) && IsBlock(o, Block(p, k, false)) && k < MAX_ORDER && ListsTell(lists, o)
    requires |lists| == ORDERS && BuddyOf(p, k) in lists[k]
    ensures var g, g' := Give(o, p, k), Give(Absorb(o, p, k), Parent(p, k), k + 1);
            && g'.Keys == g.Keys
            && (forall r | r in g :: g'[r].free == g[r].free && (!g[r].free ==> g'[r] == g[r]))
  {
    assert FreeBlock(o, BuddyOf(p, k), k);
    assert BlockAt(o, p);
    assert BlockAt(o, BuddyOf(p, k));
    BuddyFacts(p, k);
    var b := Block(Parent(p, k), k + 1, true);
    assert Pow2(k + 1) == 2 * Pow2(k);
    forall r | r in o
      ensures InBlock(b, r) <==> InBlock(Block(p, k, false), r) || InBlock(Block(BuddyOf(p, k), k, true), r)
    {
    }
  }

  lemma QuietWiden(w: seq<Word>, w': seq<Word>, t: Table, o: Owner, o': Owner, result: Option<nat>)
    requires Quiet(w, w', t, o, result) && forall p | FreePage(o, p) :: FreePage(o', p)
    ensures Quiet(w, w', t, o', result)
  {
    forall i: nat | i < |w| && !MayWrite(t, o', result, i)
      ensures w'[i] == w[i]
    {
      assert !MayWrite(t, o, result, i);
    }
  }

  lemma GiveReady(w: seq<Word>, t: Table, o: Owner, lists: seq<seq<nat>>, p: nat, k: nat)
    requires Kept(w, t, o, lists, Some(p)) && IsBlock(o, Block(p, k, false))
    ensures !OnSomeList(lists, p) && HasLinkWords(w, p) && Addressable(p) && t.Covers(p) && t.InMemory(w)
    ensures forall i: nat | t.Holds(i) :: i / PAGE_WORDS != p && !OnSomeList(lists, i / PAGE_WORDS)
  {
    hide Partition, Merged, TableTells, ListsTell, OnSomeList;
    NotFreeNotListed(lists, o, p);
    forall i: nat | t.Holds(i)
      ensures i / PAGE_WORDS != p && !OnSomeList(lists, i / PAGE_WORDS)
    {
      assert i / PAGE_WORDS !in o;
      NotFreeNotListed(lists, o, i / PAGE_WORDS);
    }
  }
}
