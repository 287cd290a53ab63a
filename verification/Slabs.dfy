/**
 One slab page (src/mm/slab/mod.rs): a page cut into equal slots. The free slots form a chain through
 their own first half-words; the page's entry holds the head of the chain and the number in use.
*/
module Slabs {
  import opened Wrappers
  import opened Bits
  import opened Ram
  import opened Sequences
  import opened DoublyLinked
  import opened Pages

  const CLASSES_COUNT: nat := 9
  const CLASSES: seq<nat> := [8, 16, 32, 64, 128, 256, 512, 1024, 2048]
  const SHIFTS: seq<nat> := [3, 4, 5, 6, 7, 8, 9, 10, 11]

  // ----- Which class serves a layout

  /** A request: a size and a power-of-two alignment, both in bytes. */
  datatype Layout = Layout(size: nat, alignLog: nat) {
    function Align(): nat {
      Pow2(alignLog)
    }
  }

  /** `value & (multiple - 1) == 0`, for a `multiple` that is a power of two. */
  predicate IsMultipleOfPow2(value: nat, multiple: nat)
    requires multiple >= 1
  {
    value % multiple == 0
  }

  function ClassFrom(layout: Layout, i: nat): Option<nat>
    requires i <= CLASSES_COUNT
    decreases CLASSES_COUNT - i
  {
    if i == CLASSES_COUNT then None
    else if CLASSES[i] < layout.size then ClassFrom(layout, i + 1)
    else if !IsMultipleOfPow2(CLASSES[i], layout.Align()) then ClassFrom(layout, i + 1)
    else Some(i)
  }

  function ClassOf(layout: Layout): Option<nat> {
    ClassFrom(layout, 0)
  }

  predicate Serves(c: nat, layout: Layout)
    requires c < CLASSES_COUNT
  {
    layout.size <= CLASSES[c] && CLASSES[c] % layout.Align() == 0
  }

  lemma {:induction false} ClassFromFacts(layout: Layout, i: nat)
    requires i <= CLASSES_COUNT
    ensures var c := ClassFrom(layout, i);
            && (c.Some? ==> i <= c.value < CLASSES_COUNT && Serves(c.value, layout))
            && forall j: nat | i <= j < (if c.Some? then c.value else CLASSES_COUNT) :: !Serves(j, layout)
    decreases CLASSES_COUNT - i
  {
    if i < CLASSES_COUNT {
      ClassFromFacts(layout, i + 1);
    }
  }

  /** The smallest class that is large enough and keeps the alignment; none past 2048 of either. */
  lemma ClassOfFacts(layout: Layout)
    ensures var c := ClassOf(layout);
            && (c.Some? ==> c.value < CLASSES_COUNT && Serves(c.value, layout) && forall j: nat | j < c.value ::
                 !Serves(j, layout))
            && (c.None? <==> layout.size > 2048 || layout.Align() > 2048)
  {
    ClassFromFacts(layout, 0);
    if layout.Align() <= 2048 {
      PowerDivides(layout.alignLog, 11);
      assert Pow2(11) == 2048 by {
        Pow2Table();
      }
      assert layout.size <= 2048 ==> Serves(8, layout);
    }
  }

  lemma Pow2Table()
    ensures Pow2(0) == 1 && Pow2(1) == 2 && Pow2(2) == 4 && Pow2(3) == 8 && Pow2(4) == 16 && Pow2(5) == 32
    ensures Pow2(6) == 64 && Pow2(7) == 128 && Pow2(8) == 256 && Pow2(9) == 512 && Pow2(10) == 1024 && Pow2(11) == 2048
    ensures Pow2(12) == 4096
  {
    assert Pow2(4) == 16;
    assert Pow2(8) == 256;
  }

  lemma {:induction false} PowerDivides(j: nat, k: nat)
    requires Pow2(j) <= Pow2(k)
    ensures Pow2(k) % Pow2(j) == 0
  {
    if k < j {
      Pow2Monotonic(k, j);
      assert false;
    }
    AlignedPow2(j, k);
    AlignedIsDivisible(Pow2(k), j);
  }

  lemma AlignedByOne(n: nat)
    ensures Aligned(n, 0)
  {
  }

  lemma {:induction false} AlignedPow2(j: nat, k: nat)
    requires j <= k
    ensures Aligned(Pow2(k), j)
  {
    hide Aligned;
    if j == 0 {
      AlignedByOne(Pow2(k));
    } else {
      AlignedPow2(j - 1, k - 1);
      AlignedDouble(Pow2(k - 1), j - 1);
    }
  }

  // ----- Where the slots of a page are

  function DivPow2(a: nat, b: nat): nat {
    QuotientIsNat(a, Pow2(b));
    a / Pow2(b)
  }

  function MulPow2(a: nat, b: nat): nat {
    a * Pow2(b)
  }

  function SlotCount(c: nat): nat
    requires c < CLASSES_COUNT
  {
    DivPow2(PAGE_SIZE, SHIFTS[c])
  }

  function SlotAddr(p: nat, c: nat, i: nat): nat
    requires c < CLASSES_COUNT
  {
    p * PAGE_SIZE + MulPow2(i, SHIFTS[c])
  }

  /** The word a slot starts at: slots are never smaller than a word. */
  function SlotWord(p: nat, c: nat, i: nat): nat
    requires c < CLASSES_COUNT
  {
    SlotAddr(p, c, i) / 8
  }

  function SlotWords(c: nat): nat
    requires c < CLASSES_COUNT
  {
    CLASSES[c] / 8
  }

  lemma ShiftIsClass(c: nat)
    requires c < CLASSES_COUNT
    ensures Pow2(SHIFTS[c]) == CLASSES[c] && 2 <= SlotCount(c) <= 512
    ensures SlotCount(c) * CLASSES[c] == PAGE_SIZE && SlotWords(c) * 8 == CLASSES[c] && SlotWords(c) >= 1
  {
    Pow2Table();
  }

  /** A slot is a word-aligned piece of its page. */
  lemma SlotPlace(p: nat, c: nat, i: nat)
    requires c < CLASSES_COUNT && i < SlotCount(c)
    ensures SlotAddr(p, c, i) == SlotWord(p, c, i) * 8 == p * PAGE_SIZE + i * CLASSES[c]
    ensures p * PAGE_WORDS <= SlotWord(p, c, i) && SlotWord(p, c, i) + SlotWords(c) <= (p + 1) * PAGE_WORDS
    ensures SlotWord(p, c, i) / PAGE_WORDS == p && SlotAddr(p, c, i) / PAGE_SIZE == p
  {
    ShiftIsClass(c);
    SlotInPage(c, i);
    hide SlotCount;
    PlaceInPage(p, i * CLASSES[c], i * SlotWords(c), SlotWords(c));
  }

  lemma PlaceInPage(p: nat, offset: nat, words: nat, size: nat)
    requires offset == 8 * words && size >= 1 && words + size <= PAGE_WORDS
    ensures (p * PAGE_SIZE + offset) / 8 == p * PAGE_WORDS + words
    ensures (p * PAGE_WORDS + words) / PAGE_WORDS == p && (p * PAGE_SIZE + offset) / PAGE_SIZE == p
  {
  }

  lemma SlotInPage(c: nat, i: nat)
    requires c < CLASSES_COUNT && i < SlotCount(c)
    ensures i * CLASSES[c] + CLASSES[c] <= PAGE_SIZE && i * CLASSES[c] % 8 == 0
    ensures i * CLASSES[c] == 8 * (i * SlotWords(c))
  {
    Pow2Table();
  }

  /** Different slots do not overlap. */
  lemma SlotsApart(p: nat, c: nat, i: nat, j: nat)
    requires c < CLASSES_COUNT && i < j < SlotCount(c)
    ensures SlotWord(p, c, i) + SlotWords(c) <= SlotWord(p, c, j)
  {
    SlotPlace(p, c, i);
    SlotPlace(p, c, j);
    Pow2Table();
  }

  /** The slots of a slab fill its page. */
  lemma SlotsFill(c: nat)
    requires c < CLASSES_COUNT
    ensures SlotCount(c) * CLASSES[c] == PAGE_SIZE
  {
    Pow2Table();
    ShiftIsClass(c);
  }

  /** What `free` computes from an address is the slot's index. */
  lemma SlotOfAddr(p: nat, c: nat, i: nat)
    requires c < CLASSES_COUNT && i < SlotCount(c)
    ensures var offset := SlotAddr(p, c, i) - p * PAGE_SIZE;
            IsMultipleOfPow2(offset, Pow2(SHIFTS[c])) && DivPow2(offset, SHIFTS[c]) == i
  {
    ShiftIsClass(c);
    MultipleMod(i, Pow2(SHIFTS[c]));
  }

  // ----- The chain of free slots

  /** A slab page's class and its free slots, first to last. */
  datatype SlabState = SlabState(class_: nat, chain: seq<nat>)

  ghost predicate Hop(w: seq<Word>, p: nat, st: SlabState, i: nat)
    requires i < |st.chain| && st.class_ < CLASSES_COUNT && SlotWord(p, st.class_, st.chain[i]) < |w|
  {
    FromRaw(LowHalf(w[SlotWord(p, st.class_, st.chain[i])]), NO_SLOT) == ItemAt(st.chain, i + 1)
  }

  /** The chain visits distinct slots of the page, each naming the next. */
  ghost predicate Chained(w: seq<Word>, p: nat, st: SlabState) {
    && st.class_ < CLASSES_COUNT
    && (p + 1) * PAGE_WORDS <= |w|
    && Distinct(st.chain)
    && |st.chain| <= SlotCount(st.class_)
    && forall i: nat | i < |st.chain| ::
         st.chain[i] < SlotCount(st.class_) && SlotWord(p, st.class_, st.chain[i]) < |w| && Hop(w, p, st, i)
  }

  /** The entry names the chain's head and counts the slots that are not on it. */
  ghost predicate SlabEntry(e: Entry, st: SlabState) {
    && e.Slab? && st.class_ < CLASSES_COUNT && e.class_ == st.class_
    && e.freeHead == ItemAt(st.chain, 0)
    && e.inUse == SlotCount(st.class_) - |st.chain|
  }

  /** No part of the table is in page `p`. */
  ghost predicate OffTable(t: Table, p: nat) {
    forall i: nat | t.Holds(i) :: i / PAGE_WORDS != p
  }

  ghost predicate SlabGood(w: seq<Word>, t: Table, p: nat, st: SlabState) {
    && t.Covers(p) && t.InMemory(w) && OffTable(t, p)
    && Chained(w, p, st)
    && SlabEntry(EntryAt(w, t, p), st)
    && Packable(EntryAt(w, t, p))
  }

  function AllSlots(n: nat): seq<nat> {
    seq(n, i => i)
  }

  /** Nothing differs but word `i` and the entry of page `p`. */
  ghost predicate OnlyEntryAnd(w: seq<Word>, w': seq<Word>, t: Table, p: nat, touched: Option<nat>) {
    && |w'| == |w| && t.Covers(p)
    && forall j: nat | j < |w| && j != t.EntryWord(p) && Some(j) != touched :: w'[j] == w[j]
  }

  /** Indexes in an entry are counted from the arena's first page. */
  function PfnOf(t: Table, index: Option<nat>): Option<nat> {
    match index
    case None => None
    case Some(i) => Some(t.base + i)
  }

  function IndexIn(t: Table, p: Option<nat>): Option<nat>
    requires p.Some? ==> t.Covers(p.value)
  {
    match p
    case None => None
    case Some(pfn) => Some(pfn - t.base)
  }

  /** The partial-list links of every page, as the table holds them. */
  ghost function PartialLinks(w: seq<Word>, t: Table): nat -> Links {
    (p: nat) =>
      if t.Covers(p) && t.InMemory(w) && EntryAt(w, t, p).Slab? then
        Links(PfnOf(t, EntryAt(w, t, p).prevPartial), PfnOf(t, EntryAt(w, t, p).nextPartial))
      else Links(None, None)
  }

  ghost predicate Relinks(w: seq<Word>, w': seq<Word>, t: Table, p: nat, l: Links) {
    && OnlyEntryAnd(w, w', t, p, None)
    && PartialLinks(w', t)(p) == l
    && (forall q: nat | q != p :: PartialLinks(w', t)(q) == PartialLinks(w, t)(q))
    && forall st: SlabState | SlabGood(w, t, p, st) :: SlabGood(w', t, p, st)
  }

  predicate SameLinks(e: Entry, e': Entry) {
    && e.Slab? && e'.Slab?
    && e'.nextPartial == e.nextPartial && e'.prevPartial == e.prevPartial
  }

  /** A handle on a slab page; everything it knows is in the page and its entry. */
  datatype SlabPage = SlabPage(pfn: nat) {

    /** The next and previous page of this one's partial list, when they are slab pages. */
    method LinksOf(pages: Pages) returns (next: Option<SlabPage>, prev: Option<SlabPage>)
      requires pages.Valid() && pages.table.Covers(pfn) && LinksInTable(pages.ram.words, pages.table, pfn)
      ensures next == SlabAt(pages.ram.words, pages.table, PartialLinks(pages.ram.words, pages.table)(pfn).next)
      ensures prev == SlabAt(pages.ram.words, pages.table, PartialLinks(pages.ram.words, pages.table)(pfn).prev)
      ensures SlabLinked(pages.ram.words, pages.table, pfn) ==>
                && next == Handle(PartialLinks(pages.ram.words, pages.table)(pfn).next)
                && prev == Handle(PartialLinks(pages.ram.words, pages.table)(pfn).prev)
    {
      hide FromWord;
      var entry := pages.Read(pfn);
      next, prev := None, None;
      if !entry.Slab? {
        return;
      }
      if entry.nextPartial.Some? {
        next := At(pages, pages.table.base + entry.nextPartial.value);
      }
      if entry.prevPartial.Some? {
        prev := At(pages, pages.table.base + entry.prevPartial.value);
      }
    }

    /** A handle on page `p` if its entry says it is a slab. */
    static method At(pages: Pages, p: nat) returns (slab: Option<SlabPage>)
      requires pages.Valid() && pages.table.Covers(p)
      ensures slab == if EntryAt(pages.ram.words, pages.table, p).Slab? then Some(SlabPage(p)) else None
    {
      var entry := pages.Read(p);
      slab := if entry.Slab? then Some(SlabPage(p)) else None;
    }

    /** Rewrites one link of a slab page; a page that is not one is left alone. */
    method SetNext(pages: Pages, value: Option<SlabPage>)
      requires pages.Valid() && pages.table.Covers(pfn)
      requires EntryAt(pages.ram.words, pages.table, pfn).Slab? ==>
                 Linkable(pages.ram.words, pages.table, pfn, PfnOfHandle(value))
      modifies pages.ram
      ensures pages.Valid()
      ensures Linkable(old(pages.ram.words), pages.table, pfn, PfnOfHandle(value)) ==>
                var l := PartialLinks(old(pages.ram.words), pages.table)(pfn);
                Relinks(old(pages.ram.words), pages.ram.words, pages.table, pfn, l.(next := PfnOfHandle(value)))
      ensures !old(EntryAt(pages.ram.words, pages.table, pfn)).Slab? ==> pages.ram.words == old(pages.ram.words)
    {
      var entry := pages.Read(pfn);
      if !entry.Slab? {
        return;
      }
      var next := IndexIn(pages.table, PfnOfHandle(value));
      RelinkFacts(pages.ram.words, pages.table, pfn, next, entry.prevPartial);
      pages.Write(pfn, entry.(nextPartial := next));
    }

    /** Rewrites one link of a slab page; a page that is not one is left alone. */
    method SetPrev(pages: Pages, value: Option<SlabPage>)
      requires pages.Valid() && pages.table.Covers(pfn)
      requires EntryAt(pages.ram.words, pages.table, pfn).Slab? ==>
                 Linkable(pages.ram.words, pages.table, pfn, PfnOfHandle(value))
      modifies pages.ram
      ensures pages.Valid()
      ensures Linkable(old(pages.ram.words), pages.table, pfn, PfnOfHandle(value)) ==>
                var l := PartialLinks(old(pages.ram.words), pages.table)(pfn);
                Relinks(old(pages.ram.words), pages.ram.words, pages.table, pfn, l.(prev := PfnOfHandle(value)))
      ensures !old(EntryAt(pages.ram.words, pages.table, pfn)).Slab? ==> pages.ram.words == old(pages.ram.words)
    {
      var entry := pages.Read(pfn);
      if !entry.Slab? {
        return;
      }
      var prev := IndexIn(pages.table, PfnOfHandle(value));
      RelinkFacts(pages.ram.words, pages.table, pfn, entry.nextPartial, prev);
      pages.Write(pfn, entry.(prevPartial := prev));
    }

    method Class(pages: Pages, ghost st: SlabState) returns (c: nat)
      requires pages.Valid() && SlabGood(pages.ram.words, pages.table, pfn, st)
      ensures c == st.class_ < CLASSES_COUNT
    {
      var entry := pages.Read(pfn);
      c := entry.class_;
    }

    /** No slot is free; never so of a page that is not a slab. */
    method IsFull(pages: Pages, ghost st: SlabState) returns (full: bool)
      requires pages.Valid() && pages.table.Covers(pfn)
      ensures !EntryAt(pages.ram.words, pages.table, pfn).Slab? ==> !full
      ensures SlabGood(pages.ram.words, pages.table, pfn, st) ==> (full <==> st.chain == [])
    {
      var entry := pages.Read(pfn);
      full := entry.Slab? && entry.freeHead == None;
    }

    /** No slot is in use, which is to say that every slot is on the chain; never so of a page that is not a slab. */
    method IsEmpty(pages: Pages, ghost st: SlabState) returns (empty: bool)
      requires pages.Valid() && pages.table.Covers(pfn)
      ensures !EntryAt(pages.ram.words, pages.table, pfn).Slab? ==> !empty
      ensures SlabGood(pages.ram.words, pages.table, pfn, st) ==>
                st.class_ < CLASSES_COUNT && (empty <==> |st.chain| == SlotCount(st.class_))
    {
      var entry := pages.Read(pfn);
      empty := entry.Slab? && entry.inUse == 0;
    }

    /** Cuts a page into slots, all of them free. */
    static method Init(pages: Pages, p: nat, c: nat) returns (slab: Option<SlabPage>)
      requires pages.Valid() && pages.table.Covers(p) && OffTable(pages.table, p)
      requires (p + 1) * PAGE_WORDS <= |pages.ram.words|
      modifies pages.ram
      ensures pages.Valid() && |pages.ram.words| == |old(pages.ram.words)|
      ensures c >= CLASSES_COUNT ==> slab == None && pages.ram.words == old(pages.ram.words)
      ensures c < CLASSES_COUNT ==>
                && slab == Some(SlabPage(p))
                && SlabGood(pages.ram.words, pages.table, p, SlabState(c, AllSlots(SlotCount(c))))
                && EntryAt(pages.ram.words, pages.table, p).nextPartial == None
                && EntryAt(pages.ram.words, pages.table, p).prevPartial == None
      ensures forall i: nat | i < |pages.ram.words| && i / PAGE_WORDS != p && i != pages.table.EntryWord(p) ::
                pages.ram.words[i] == old(pages.ram.words)[i]
    {
      if c >= CLASSES_COUNT {
        return None;
      }
      hide SlabGood, Packable, ToWord, FromWord, Chained;
      var made := SlabPage(p);
      made.LinkSlots(pages, c);
      ghost var st := SlabState(c, AllSlots(SlotCount(c)));
      ShiftIsClass(c);
      FreshEntry(c);
      EntryChange(pages.ram.words, pages.table, p, st, st, Entry.Slab(c, Some(0), 0, None, None));
      pages.Write(p, Entry.Slab(c, Some(0), 0, None, None));
      return Some(made);
    }

    method LinkSlots(pages: Pages, c: nat)
      requires c < CLASSES_COUNT && (pfn + 1) * PAGE_WORDS <= |pages.ram.words|
      modifies pages.ram
      ensures |pages.ram.words| == |old(pages.ram.words)|
      ensures Chained(pages.ram.words, pfn, SlabState(c, AllSlots(SlotCount(c))))
      ensures forall i: nat | i < |pages.ram.words| && i / PAGE_WORDS != pfn ::
                pages.ram.words[i] == old(pages.ram.words)[i]
    {
      hide LowHalf, WithLowHalf, SlotWord;
      var base, shift := pfn * PAGE_SIZE, SHIFTS[c];
      var count := DivPow2(PAGE_SIZE, shift);
      ShiftIsClass(c);
      ghost var w := pages.ram.words;
      var i := 0;
      while i < count
        invariant i <= count == SlotCount(c) && |pages.ram.words| == |w|
        invariant forall k: nat | k < i :: SlotLink(pages.ram.words, pfn, c, k)
        invariant forall j: nat | j < |w| && j / PAGE_WORDS != pfn :: pages.ram.words[j] == w[j]
      {
        SlotPlace(pfn, c, i);
        ghost var before := pages.ram.words;
        var current := base + MulPow2(i, shift);
        var next := if i < count - 1 then i + 1 else NO_SLOT;
        SlotAddrWord(pfn, c, i);
        pages.ram.Store(current / 8, WithLowHalf(pages.ram.words[current / 8], next));
        forall k: nat | k <= i
          ensures SlotLink(pages.ram.words, pfn, c, k)
        {
          if k < i {
            assert SlotLink(before, pfn, c, k);
            DistinctSlots(pfn, c, k, i);
          }
        }
        i := i + 1;
      }
      LinksMakeChain(pages.ram.words, pfn, c);
    }

    /**
     Hands out the slot at the head of the chain; nothing when the chain is empty, the page is not a slab, or
     its entry names a class or a slot there is not.
    */
    method Alloc(pages: Pages, ghost st: SlabState) returns (address: Option<nat>)
      requires pages.Valid() && pages.table.Covers(pfn) && (pfn + 1) * PAGE_WORDS <= |pages.ram.words|
      modifies pages.ram
      ensures pages.Valid() && |pages.ram.words| == |old(pages.ram.words)|
      ensures var entry := old(EntryAt(pages.ram.words, pages.table, pfn));
              if HasHead(entry) then address == Some(SlotAddr(pfn, entry.class_, entry.freeHead.value))
              else address == None && pages.ram.words == old(pages.ram.words)
      ensures SlabGood(old(pages.ram.words), pages.table, pfn, st) ==>
                if st.chain == [] then address == None && pages.ram.words == old(pages.ram.words)
                else
                  && st.class_ < CLASSES_COUNT && address == Some(SlotAddr(pfn, st.class_, st.chain[0]))
                  && SlabGood(pages.ram.words, pages.table, pfn, SlabState(st.class_, st.chain[1..]))
                  && OnlyEntryAnd(old(pages.ram.words), pages.ram.words, pages.table, pfn, None)
                  && SameLinks(EntryAt(old(pages.ram.words), pages.table, pfn),
                               EntryAt(pages.ram.words, pages.table, pfn))
    {
      hide SlabGood, Packable, ToWord, FromWord, SameLinks, OnlyEntryAnd, SlabEntry;
      ghost var w := pages.ram.words;
      ghost var good := SlabGood(w, pages.table, pfn, st);
      if good {
        HeadRead(w, pages.table, pfn, st);
      }
      var entry := pages.Read(pfn);
      if !entry.Slab? || entry.freeHead == None || entry.class_ >= CLASSES_COUNT {
        return None;
      }
      var head := entry.freeHead.value;
      var shift := SHIFTS[entry.class_];
      if head >= DivPow2(PAGE_SIZE, shift) {
        return None;
      }
      SlotPlace(pfn, entry.class_, head);
      var a := pfn * PAGE_SIZE + MulPow2(head, shift);
      var next := FromRaw(LowHalf(pages.ram.words[a / 8]), NO_SLOT);
      pages.Write(pfn, Entry.Slab(entry.class_, next, entry.inUse + 1, entry.nextPartial, entry.prevPartial));
      if good {
        HeadTaken(w, pages.table, pfn, st);
      }
      return Some(a);
    }

    /**
     Puts a slot back at the head of the chain. Every check the source panics on holds here: the slot
     is one of the page's, and it is not on the chain.
    */
    method Free(pages: Pages, address: nat, ghost st: SlabState, ghost slot: nat)
      requires pages.Valid() && SlabGood(pages.ram.words, pages.table, pfn, st)
      requires slot < SlotCount(st.class_) && slot !in st.chain && address == SlotAddr(pfn, st.class_, slot)
      modifies pages.ram
      ensures pages.Valid() && |pages.ram.words| == |old(pages.ram.words)|
      ensures SlabGood(pages.ram.words, pages.table, pfn, SlabState(st.class_, [slot] + st.chain))
      ensures OnlyEntryAnd(old(pages.ram.words), pages.ram.words, pages.table, pfn,
                           Some(SlotWord(pfn, st.class_, slot)))
      ensures SameLinks(EntryAt(old(pages.ram.words), pages.table, pfn), EntryAt(pages.ram.words, pages.table, pfn))
    {
      hide SlabGood, Packable, ToWord, FromWord, SameLinks, OnlyEntryAnd, SlabEntry, LowHalf, WithLowHalf;
      ghost var w := pages.ram.words;
      HeadRead(w, pages.table, pfn, st);
      SlotRead(w, pages.table, pfn, st, slot);
      var entry := pages.Read(pfn);
      var shift := SHIFTS[entry.class_];
      assert address / PAGE_SIZE == pfn;
      var offset := address - pfn * PAGE_SIZE;
      assert IsMultipleOfPow2(offset, Pow2(shift));
      var idx := DivPow2(offset, shift);
      assert idx == slot && idx < NO_SLOT;
      assert entry.inUse != 0;
      assert Some(idx) != entry.freeHead;
      ghost var i := SlotWord(pfn, st.class_, slot);
      pages.ram.Store(address / 8, WithLowHalf(pages.ram.words[address / 8], ToRaw(entry.freeHead, NO_SLOT)));
      ghost var w1 := pages.ram.words;
      SlotLinked(w, w1, pages.table, pfn, st, slot);
      pages.Write(pfn, Entry.Slab(entry.class_, Some(idx), entry.inUse - 1, entry.nextPartial, entry.prevPartial));
      SlotReturned(w, w1, pages.table, pfn, st, slot);
    }
  }

  function Handle(p: Option<nat>): Option<SlabPage> {
    match p
    case None => None
    case Some(pfn) => Some(SlabPage(pfn))
  }

  function PfnOfHandle(slab: Option<SlabPage>): Option<nat> {
    match slab
    case None => None
    case Some(s) => Some(s.pfn)
  }

  /** The page is a slab page, and so are the pages it links to. */
  ghost predicate SlabLinked(w: seq<Word>, t: Table, p: nat) {
    && t.InMemory(w) && t.Covers(p) && EntryAt(w, t, p).Slab?
    && forall q: nat | PartialLinks(w, t)(p).next == Some(q) || PartialLinks(w, t)(p).prev == Some(q) ::
         t.Covers(q) && EntryAt(w, t, q).Slab?
  }

  /** What a slab page links to has an entry. */
  ghost predicate LinksInTable(w: seq<Word>, t: Table, p: nat) {
    t.InMemory(w) &&
    forall q: nat | PartialLinks(w, t)(p).next == Some(q) || PartialLinks(w, t)(p).prev == Some(q) :: t.Covers(q)
  }

  /** A handle on a page, if there is one and it is a slab. */
  function SlabAt(w: seq<Word>, t: Table, p: Option<nat>): Option<SlabPage>
    requires t.InMemory(w)
  {
    if p.Some? && t.Covers(p.value) && EntryAt(w, t, p.value).Slab? then Some(SlabPage(p.value)) else None
  }

  /** The entry of a slab with a free slot, as far as it makes sense. */
  predicate HasHead(e: Entry) {
    e.Slab? && e.freeHead.Some? && e.class_ < CLASSES_COUNT && e.freeHead.value < SlotCount(e.class_)
  }

  ghost predicate Linkable(w: seq<Word>, t: Table, p: nat, value: Option<nat>) {
    && t.InMemory(w) && t.Covers(p) && t.len <= MAX_PAGES && OffTable(t, p)
    && EntryAt(w, t, p).Slab? && Packable(EntryAt(w, t, p))
    && (value.Some? ==> t.Covers(value.value))
  }

  lemma RelinkFacts(w: seq<Word>, t: Table, p: nat, next: Option<nat>, prev: Option<nat>)
    requires t.InMemory(w) && t.Covers(p) && t.len <= MAX_PAGES && OffTable(t, p) && EntryAt(w, t, p).Slab?
    requires Packable(EntryAt(w, t, p).(nextPartial := next, prevPartial := prev))
    ensures var w' := w[t.EntryWord(p) := ToWord(EntryAt(w, t, p).(nextPartial := next, prevPartial := prev))];
            Relinks(w, w', t, p, Links(PfnOf(t, prev), PfnOf(t, next)))
  {
    hide ToWord, FromWord, Chained;
    var e' := EntryAt(w, t, p).(nextPartial := next, prevPartial := prev);
    var w' := w[t.EntryWord(p) := ToWord(e')];
    EntryRoundTrip(e');
    assert EntryAt(w', t, p) == e';
    forall q: nat | q != p
      ensures PartialLinks(w', t)(q) == PartialLinks(w, t)(q)
    {
      assert t.Covers(q) ==> t.EntryWord(q) != t.EntryWord(p);
    }
    forall st: SlabState | SlabGood(w, t, p, st)
      ensures SlabGood(w', t, p, st)
    {
      EntryChange(w, t, p, st, st, e');
    }
  }

  /** Slot `k` names the slot after it, or nothing when it is the last. */
  ghost predicate SlotLink(w: seq<Word>, p: nat, c: nat, k: nat)
    requires c < CLASSES_COUNT
  {
    && SlotWord(p, c, k) < |w|
    && LowHalf(w[SlotWord(p, c, k)]) == if k + 1 < SlotCount(c) then k + 1 else NO_SLOT
  }

  lemma SlotAddrWord(p: nat, c: nat, i: nat)
    requires c < CLASSES_COUNT
    ensures (p * PAGE_SIZE + MulPow2(i, SHIFTS[c])) / 8 == SlotWord(p, c, i)
  {
  }

  lemma LinksMakeChain(w: seq<Word>, p: nat, c: nat)
    requires c < CLASSES_COUNT && (p + 1) * PAGE_WORDS <= |w|
    requires forall k: nat | k < SlotCount(c) :: SlotLink(w, p, c, k)
    ensures Chained(w, p, SlabState(c, AllSlots(SlotCount(c))))
  {
    var st := SlabState(c, AllSlots(SlotCount(c)));
    ShiftIsClass(c);
    forall k: nat | k < |st.chain|
      ensures st.chain[k] < SlotCount(c) && SlotWord(p, c, st.chain[k]) < |w| && Hop(w, p, st, k)
    {
      assert SlotLink(w, p, c, k);
    }
  }

  lemma FreshEntry(c: nat)
    requires c < CLASSES_COUNT
    ensures var e := Entry.Slab(c, Some(0), 0, None, None);
            SlabEntry(e, SlabState(c, AllSlots(SlotCount(c)))) && Packable(e)
  {
    ShiftIsClass(c);
  }

  /** What reading a slab page's entry and the slot it names yields. */
  lemma HeadRead(w: seq<Word>, t: Table, p: nat, st: SlabState)
    requires SlabGood(w, t, p, st)
    ensures t.Covers(p) && t.InMemory(w) && st.class_ < CLASSES_COUNT
    ensures var e := EntryAt(w, t, p);
            && e.Slab? && e.class_ == st.class_ && e.freeHead == ItemAt(st.chain, 0)
            && (st.chain != [] ==>
                  && st.chain[0] < SlotCount(st.class_) && SlotWord(p, st.class_, st.chain[0]) < |w|
                  && FromRaw(LowHalf(w[SlotWord(p, st.class_, st.chain[0])]), NO_SLOT) == ItemAt(st.chain, 1))
  {
    if st.chain != [] {
      assert Hop(w, p, st, 0);
    }
  }

  lemma HeadTaken(w: seq<Word>, t: Table, p: nat, st: SlabState)
    requires SlabGood(w, t, p, st) && st.chain != []
    ensures t.Covers(p) && t.InMemory(w)
    ensures var e := EntryAt(w, t, p);
            && e.Slab?
            && var e' := Entry.Slab(e.class_, ItemAt(st.chain, 1), e.inUse + 1, e.nextPartial, e.prevPartial);
            var w' := w[t.EntryWord(p) := ToWord(e')];
            && SlabGood(w', t, p, SlabState(st.class_, st.chain[1..]))
            && OnlyEntryAnd(w, w', t, p, None) && SameLinks(e, EntryAt(w', t, p))
  {
    hide ToWord, FromWord;
    var e := EntryAt(w, t, p);
    var e' := Entry.Slab(e.class_, ItemAt(st.chain, 1), e.inUse + 1, e.nextPartial, e.prevPartial);
    ShiftIsClass(st.class_);
    hide SlotCount, Hop, SlotWord, OffTable, Distinct;
    ChainTail(w, t, p, st);
    assert st.chain[0] < SlotCount(st.class_);
    assert 1 < |st.chain| ==> st.chain[1] < SlotCount(st.class_);
    EntryChange(w, t, p, st, SlabState(st.class_, st.chain[1..]), e');
  }

  /** A slot of the page that is not on the chain: it is in use, and not the head. */
  lemma SlotRead(w: seq<Word>, t: Table, p: nat, st: SlabState, slot: nat)
    requires SlabGood(w, t, p, st) && slot < SlotCount(st.class_) && slot !in st.chain
    ensures var a := SlotAddr(p, st.class_, slot);
            && a / 8 == SlotWord(p, st.class_, slot) < |w| && a / PAGE_SIZE == p
            && IsMultipleOfPow2(a - p * PAGE_SIZE, Pow2(SHIFTS[st.class_]))
            && DivPow2(a - p * PAGE_SIZE, SHIFTS[st.class_]) == slot
    ensures slot < NO_SLOT && |st.chain| < SlotCount(st.class_)
    ensures EntryAt(w, t, p).inUse >= 1 && EntryAt(w, t, p).freeHead != Some(slot)
    ensures ToRaw(EntryAt(w, t, p).freeHead, NO_SLOT) < 0x1_0000
  {
    SlotPlace(p, st.class_, slot);
    SlotOfAddr(p, st.class_, slot);
    ShiftIsClass(st.class_);
    forall x | x in st.chain
      ensures x < SlotCount(st.class_)
    {
      var i := IndexOf(st.chain, x);
      assert Hop(w, p, st, i);
    }
    DistinctBounded(st.chain, SlotCount(st.class_));
  }

  /** Linking a free slot in front of the chain, in memory. */
  lemma SlotLinked(w: seq<Word>, w1: seq<Word>, t: Table, p: nat, st: SlabState, slot: nat)
    requires SlabGood(w, t, p, st) && slot < SlotCount(st.class_) && slot !in st.chain
    requires SlotWord(p, st.class_, slot) < |w|
    requires var i := SlotWord(p, st.class_, slot);
             && ToRaw(ItemAt(st.chain, 0), NO_SLOT) < 0x1_0000
             && w1 == w[i := WithLowHalf(w[i], ToRaw(ItemAt(st.chain, 0), NO_SLOT))]
    ensures Chained(w1, p, SlabState(st.class_, [slot] + st.chain))
    ensures t.InMemory(w1) && EntryAt(w1, t, p) == EntryAt(w, t, p)
  {
    hide LowHalf, WithLowHalf, FromWord, SlotWord, SlotCount;
    var c, i := st.class_, SlotWord(p, st.class_, slot);
    var st' := SlabState(c, [slot] + st.chain);
    SlotRead(w, t, p, st, slot);
    SlotPlace(p, c, slot);
    assert t.Holds(t.EntryWord(p));
    forall k: nat | k < |st'.chain|
      ensures st'.chain[k] < SlotCount(c) && SlotWord(p, c, st'.chain[k]) < |w1| && Hop(w1, p, st', k)
    {
      if k == 0 {
        assert st.chain != [] ==> Hop(w, p, st, 0);
        HeadRaw(st, w[i]);
      } else {
        assert Hop(w, p, st, k - 1) && st.chain[k - 1] in st.chain;
        assert ItemAt(st'.chain, k + 1) == ItemAt(st.chain, k);
        DistinctSlots(p, c, slot, st.chain[k - 1]);
      }
    }
  }

  lemma HeadRaw(st: SlabState, old_: Word)
    requires st.chain != [] ==> st.chain[0] < NO_SLOT
    ensures var raw := ToRaw(ItemAt(st.chain, 0), NO_SLOT);
            raw < 0x1_0000 && FromRaw(LowHalf(WithLowHalf(old_, raw)), NO_SLOT) == ItemAt(st.chain, 0)
  {
  }

  lemma DistinctSlots(p: nat, c: nat, i: nat, j: nat)
    requires c < CLASSES_COUNT && i < SlotCount(c) && j < SlotCount(c) && i != j
    ensures SlotWord(p, c, i) != SlotWord(p, c, j)
  {
    ShiftIsClass(c);
    SlotsApart(p, c, if i < j then i else j, if i < j then j else i);
  }

  lemma SlotReturned(w: seq<Word>, w1: seq<Word>, t: Table, p: nat, st: SlabState, slot: nat)
    requires SlabGood(w, t, p, st) && slot < SlotCount(st.class_) && slot !in st.chain
    requires Chained(w1, p, SlabState(st.class_, [slot] + st.chain)) && |w1| == |w|
    requires t.InMemory(w1) && EntryAt(w1, t, p) == EntryAt(w, t, p)
    requires forall i: nat | i < |w| && i != SlotWord(p, st.class_, slot) :: w1[i] == w[i]
    ensures var e := EntryAt(w, t, p);
            && e.inUse >= 1
            && var e' := Entry.Slab(e.class_, Some(slot), e.inUse - 1, e.nextPartial, e.prevPartial);
            var w' := w1[t.EntryWord(p) := ToWord(e')];
            && SlabGood(w', t, p, SlabState(st.class_, [slot] + st.chain))
            && OnlyEntryAnd(w, w', t, p, Some(SlotWord(p, st.class_, slot))) && SameLinks(e, EntryAt(w', t, p))
  {
    hide ToWord, FromWord, Hop, SlotCount, SlotWord;
    SlotRead(w, t, p, st, slot);
    var e := EntryAt(w, t, p);
    EntryChange(w1, t, p, st, SlabState(st.class_, [slot] + st.chain),
                Entry.Slab(e.class_, Some(slot), e.inUse - 1, e.nextPartial, e.prevPartial));
  }

  lemma ChainTail(w: seq<Word>, t: Table, p: nat, st: SlabState)
    requires SlabGood(w, t, p, st) && st.chain != []
    ensures Chained(w, p, SlabState(st.class_, st.chain[1..]))
  {
    var st' := SlabState(st.class_, st.chain[1..]);
    forall i: nat | i < |st'.chain|
      ensures st'.chain[i] < SlotCount(st.class_) && SlotWord(p, st.class_, st'.chain[i]) < |w| && Hop(w, p, st', i)
    {
      assert Hop(w, p, st, i + 1);
    }
  }

  /** Writing a page's entry leaves its chain alone, so the new entry need only describe the new state. */
  lemma EntryChange(w: seq<Word>, t: Table, p: nat, st: SlabState, st': SlabState, e: Entry)
    requires t.Covers(p) && t.InMemory(w) && OffTable(t, p) && Chained(w, p, st')
    requires SlabEntry(e, st') && Packable(e)
    ensures var w' := w[t.EntryWord(p) := ToWord(e)];
            SlabGood(w', t, p, st') && EntryAt(w', t, p) == e
  {
    hide ToWord, FromWord;
    EntryRoundTrip(e);
    var w' := w[t.EntryWord(p) := ToWord(e)];
    assert t.Holds(t.EntryWord(p));
    ChainFrame(w, w', p, st');
  }

  /** A chain depends only on the words of its own page. */
  lemma ChainFrame(w: seq<Word>, w': seq<Word>, p: nat, st: SlabState)
    requires Chained(w, p, st) && |w'| == |w|
    requires forall i: nat | i < |w| && i / PAGE_WORDS == p :: w'[i] == w[i]
    ensures Chained(w', p, st)
  {
    forall i: nat | i < |st.chain|
      ensures st.chain[i] < SlotCount(st.class_) && SlotWord(p, st.class_, st.chain[i]) < |w'| && Hop(w', p, st, i)
    {
      assert Hop(w, p, st, i);
      SlotPlace(p, st.class_, st.chain[i]);
    }
  }
}
