/**
 The slab cache (src/mm/slab/cache.rs): for each class a doubly linked list of the slab pages that
 have a free slot, threaded through the entry table.
*/
module Cache {
  import opened Wrappers
  import opened Ram
  import opened Sequences
  import opened DoublyLinked
  import opened Blocks
  import opened FreeLists
  import opened Pages
  import opened Frames
  import opened Slabs

  type SlabMap = map<nat, SlabState>

  /** Every slab page is in order, and the partial lists link slab pages of the table. */
  ghost predicate World(w: seq<Word>, t: Table, heads: seq<Option<nat>>, slabs: SlabMap, partial: seq<seq<nat>>) {
    && |partial| == CLASSES_COUNT && t.len <= MAX_PAGES && t.InMemory(w)
    && Family(PartialLinks(w, t), heads, partial)
    && (forall p | p in slabs :: SlabGood(w, t, p, slabs[p]))
    && (forall p: nat | OnSomeList(partial, p) :: p in slabs)
  }

  /** List `c` holds exactly the class-`c` slabs with a free slot. */
  ghost predicate Listed(partial: seq<seq<nat>>, slabs: SlabMap) {
    && |partial| == CLASSES_COUNT
    && forall c, p: nat | 0 <= c < CLASSES_COUNT ::
         p in partial[c] <==> p in slabs && slabs[p].class_ == c && slabs[p].chain != []
  }

  /** Between operations every slab page has a slot in use. */
  ghost predicate InUse(slabs: SlabMap) {
    forall p | p in slabs :: slabs[p].class_ < CLASSES_COUNT && |slabs[p].chain| < SlotCount(slabs[p].class_)
  }

  ghost predicate Owned(slabs: SlabMap, o: Owner) {
    forall p | p in slabs :: p in o && o[p] == Block(p, 0, false)
  }

  // ----- What slab operations may write, and what that preserves

  /** Word `i` is in a slab page or is a slab page's entry. */
  ghost predicate SlabWord(t: Table, slabs: SlabMap, i: nat) {
    if t.Holds(i) then t.base + (i - t.page * PAGE_WORDS) in slabs else i / PAGE_WORDS in slabs
  }

  ghost predicate SlabEdits(w: seq<Word>, w': seq<Word>, t: Table, slabs: SlabMap) {
    |w'| == |w| && forall i: nat | i < |w| && !SlabWord(t, slabs, i) :: w'[i] == w[i]
  }

  /** Only words of the entry table differ. */
  ghost predicate TableOnly(w: seq<Word>, w': seq<Word>, t: Table) {
    |w'| == |w| && forall i: nat | i < |w| && !t.Holds(i) :: w'[i] == w[i]
  }

  /** Editing slab pages and their entries is invisible to the buddy allocator. */
  lemma SlabEditsKeepFrames(w: seq<Word>, w': seq<Word>, t: Table, o: Owner, heads: seq<Option<nat>>,
                            lists: seq<seq<nat>>, slabs: SlabMap)
    requires Kept(w, t, o, lists, None) && Represents(w, heads, lists)
    requires SlabEdits(w, w', t, slabs) && Owned(slabs, o)
    requires forall p | p in slabs :: t.Covers(p) && t.InMemory(w') && EntryAt(w', t, p).Slab?
    ensures Kept(w', t, o, lists, None) && Represents(w', heads, lists)
  {
    hide Partition, Merged, Represents, FromWord;
    forall i: nat | i < |w| && OnSomeList(lists, i / PAGE_WORDS)
      ensures w'[i] == w[i]
    {
      ListedIsFree(lists, o, i / PAGE_WORDS);
      assert FreePage(o, i / PAGE_WORDS);
      assert !t.Holds(i);
    }
    RepresentsFrame(w, w', heads, lists);
    forall p: nat | t.Covers(p)
      ensures TellsPage(EntryAt(w', t, p), o, p)
    {
      var i := t.EntryWord(p);
      assert t.Holds(i);
      assert TellsPage(EntryAt(w, t, p), o, p);
      if p !in slabs {
        assert !SlabWord(t, slabs, i);
      }
    }
  }

  /** What the buddy allocator writes is invisible to the slabs. */
  lemma QuietKeepsWorld(w: seq<Word>, w': seq<Word>, t: Table, o: Owner, result: Option<nat>, heads: seq<Option<nat>>,
                        slabs: SlabMap, partial: seq<seq<nat>>)
    requires World(w, t, heads, slabs, partial) && Quiet(w, w', t, o, result)
    requires forall p | p in slabs :: !FreePage(o, p) && Some(p) != result
    ensures World(w', t, heads, slabs, partial)
  {
    hide Family, FromWord;
    forall p | p in slabs
      ensures SlabGood(w', t, p, slabs[p]) && EntryAt(w', t, p) == EntryAt(w, t, p)
    {
      assert SlabGood(w, t, p, slabs[p]);
      QuietKeepsGood(w, w', t, o, result, p, slabs[p]);
    }
    forall p | OnSomeList(partial, p)
      ensures PartialLinks(w', t)(p) == PartialLinks(w, t)(p)
    {
    }
    FamilyFrame(PartialLinks(w, t), PartialLinks(w', t), heads, partial);
  }

  lemma QuietKeepsGood(w: seq<Word>, w': seq<Word>, t: Table, o: Owner, result: Option<nat>, p: nat, st: SlabState)
    requires SlabGood(w, t, p, st) && Quiet(w, w', t, o, result) && !FreePage(o, p) && Some(p) != result
    ensures SlabGood(w', t, p, st) && EntryAt(w', t, p) == EntryAt(w, t, p)
  {
    hide FromWord;
    assert t.Holds(t.EntryWord(p)) && !MayWrite(t, o, result, t.EntryWord(p));
    forall i: nat | i < |w| && i / PAGE_WORDS == p
      ensures w'[i] == w[i]
    {
      assert !t.Holds(i) && !MayWrite(t, o, result, i);
    }
    ChainFrame(w, w', p, st);
  }

  /** An edit of page `p` and its entry leaves every other slab page in order. */
  lemma GoodElsewhere(w: seq<Word>, w': seq<Word>, t: Table, p: nat, touched: Option<nat>, q: nat, st: SlabState)
    requires SlabGood(w, t, q, st) && q != p && OnlyEntryAnd(w, w', t, p, touched) && OffTable(t, p)
    requires touched.Some? ==> touched.value / PAGE_WORDS == p
    ensures SlabGood(w', t, q, st) && EntryAt(w', t, q) == EntryAt(w, t, q)
  {
    hide FromWord;
    assert t.Holds(t.EntryWord(p)) && t.Holds(t.EntryWord(q));
    ChainFrame(w, w', q, st);
  }

  /** One link rewritten: the slabs stay in order and only that page's links differ. */
  lemma RelinkKeeps(w: seq<Word>, w': seq<Word>, t: Table, p: nat, l: Links, slabs: SlabMap)
    requires Relinks(w, w', t, p, l) && p in slabs && forall q | q in slabs :: SlabGood(w, t, q, slabs[q])
    ensures forall q | q in slabs :: SlabGood(w', t, q, slabs[q])
    ensures SlabEdits(w, w', t, slabs) && TableOnly(w, w', t)
  {
    hide Chained, SlabEntry, Packable, PartialLinks, SlabWord, SlabEdits;
    assert SlabGood(w, t, p, slabs[p]);
    EntryEdit(w, w', t, p, None, slabs);
    assert t.Holds(t.EntryWord(p));
    forall q | q in slabs
      ensures SlabGood(w', t, q, slabs[q])
    {
      hide OnlyEntryAnd, SlabGood;
      if q != p {
        GoodElsewhere(w, w', t, p, None, q, slabs[q]);
      }
    }
  }

  lemma EntryEdit(w: seq<Word>, w': seq<Word>, t: Table, p: nat, touched: Option<nat>, slabs: SlabMap)
    requires OnlyEntryAnd(w, w', t, p, touched) && p in slabs && OffTable(t, p)
    requires touched.Some? ==> touched.value / PAGE_WORDS == p
    ensures SlabEdits(w, w', t, slabs)
  {
    assert t.Holds(t.EntryWord(p)) && SlabWord(t, slabs, t.EntryWord(p));
    if touched.Some? {
      assert SlabWord(t, slabs, touched.value);
    }
  }

  lemma SlabEditsChain(w: seq<Word>, w1: seq<Word>, w2: seq<Word>, t: Table, slabs: SlabMap)
    requires SlabEdits(w, w1, t, slabs) && SlabEdits(w1, w2, t, slabs)
    ensures SlabEdits(w, w2, t, slabs)
  {
    hide SlabWord;
  }

  /** All slab pages in order. */
  ghost predicate AllGood(w: seq<Word>, t: Table, slabs: SlabMap) {
    forall p | p in slabs :: SlabGood(w, t, p, slabs[p])
  }

  /** A chain of link rewrites, summed up by the links before and after. */
  ghost predicate Rewired(w: seq<Word>, w': seq<Word>, t: Table, slabs: SlabMap) {
    AllGood(w', t, slabs) && SlabEdits(w, w', t, slabs) && TableOnly(w, w', t) && t.InMemory(w')
  }

  lemma RewiredStep(w: seq<Word>, w1: seq<Word>, w2: seq<Word>, t: Table, slabs: SlabMap, p: nat, l: Links)
    requires Rewired(w, w1, t, slabs) && Relinks(w1, w2, t, p, l) && p in slabs
    ensures Rewired(w, w2, t, slabs)
  {
    hide SlabGood, SlabEdits, PartialLinks, OnlyEntryAnd;
    RelinkKeeps(w1, w2, t, p, l, slabs);
    SlabEditsChain(w, w1, w2, t, slabs);
  }

  lemma LinkableSlab(w: seq<Word>, t: Table, slabs: SlabMap, p: nat)
    requires AllGood(w, t, slabs) && p in slabs && t.len <= MAX_PAGES
    ensures t.Covers(p) && Linkable(w, t, p, None)
    ensures forall q | q in slabs :: Linkable(w, t, p, Some(q))
  {
    assert SlabGood(w, t, p, slabs[p]);
    forall q | q in slabs
      ensures t.Covers(q)
    {
      assert SlabGood(w, t, q, slabs[q]);
    }
  }

  class Cache {
    var heads: seq<Option<nat>>

    /** The free slots of every slab page, and the pages on each partial list. */
    ghost var slabs: SlabMap
    ghost var partial: seq<seq<nat>>

    ghost predicate Holds(w: seq<Word>, t: Table)
      reads this
    {
      World(w, t, heads, slabs, partial)
    }

    constructor ()
      ensures slabs == map[] && partial == seq(CLASSES_COUNT, _ => []) && heads == seq(CLASSES_COUNT, _ => None)
    {
      heads := seq(CLASSES_COUNT, _ => None);
      slabs := map[];
      partial := seq(CLASSES_COUNT, _ => []);
    }

    ghost predicate Valid(pages: Pages, frames: Frames)
      reads this, frames, frames.lists, frames.lists.ram, pages.ram
    {
      && frames.Valid(pages)
      && Holds(pages.ram.words, pages.table)
      && Listed(partial, slabs) && InUse(slabs) && Owned(slabs, frames.owner)
    }

    /** Takes a page from the buddy allocator for a class that has no partial slab. */
    method NewSlab(pages: Pages, frames: Frames, c: nat) returns (slab: Option<SlabPage>)
      requires Valid(pages, frames) && c < CLASSES_COUNT && partial[c] == []
      modifies this, frames, frames.lists, pages.ram
      ensures slab.None? ==>
                && Valid(pages, frames) && (forall q :: !FreePage(old(frames.owner), q))
                && heads == old(heads) && slabs == old(slabs) && partial == old(partial)
                && frames.owner == old(frames.owner) && pages.ram.words == old(pages.ram.words)
      ensures slab.Some? ==>
                && var p := slab.value.pfn;
                && pages.Valid() && frames.Valid(pages) && Holds(pages.ram.words, pages.table) && Listed(partial, slabs)
                && Owned(slabs, frames.owner)
                && p !in old(slabs) && slabs == old(slabs)[p := SlabState(c, AllSlots(SlotCount(c)))]
                && partial == old(partial)[c := [p]]
                && Allocated(old(frames.owner), frames.owner, p, 0) && FreePage(old(frames.owner), p)
                && SlabQuiet(old(pages.ram.words), pages.ram.words, pages.table, frames.owner, Some(p))
                && EntriesQuiet(old(pages.ram.words), pages.ram.words, pages.table, frames.owner, slabs)
    {
      hide SlabGood, SlabEdits, World, Represents, Kept, PageCount, Listed, InUse, Owned, Allocated, Quiet, SlabQuiet,
        FreeRun, EntriesQuiet, OffTable, ToWord, FromWord;
      ghost var w, t, o := pages.ram.words, pages.table, frames.owner;
      var page := frames.Alloc(pages, 0);
      if page == None {
        NoFreePage(o);
        return None;
      }
      var p := page.value;
      ghost var w1 := pages.ram.words;
      FreshPage(w1, t, o, frames.owner, frames.lists.lists, slabs, p);
      QuietKeepsWorld(w, w1, t, frames.owner, page, heads, slabs, partial);
      slab := SlabPage.Init(pages, p, c);
      ghost var st := SlabState(c, AllSlots(SlotCount(c)));
      assert OnlyPage(w1, pages.ram.words, t, p);
      NewSlabWorld(w1, pages.ram.words, t, heads, slabs, partial, c, p, st);
      NewSlabListed(slabs, partial, c, p);
      NewSlabQuiet(w, w1, pages.ram.words, t, frames.owner, p, slabs[p := st]);
      heads := heads[c := Some(p)];
      slabs := slabs[p := st];
      partial := partial[c := [p]];
      NewSlabOwned(old(slabs), frames.owner, p, st);
      WorldEntries(pages.ram.words, t, heads, slabs, partial);
      SlabEditsKeepFrames(w1, pages.ram.words, t, frames.owner, frames.lists.heads, frames.lists.lists, slabs);
    }

    /**
     Hands out one slot of class `c`, from a partial slab if there is one and a fresh page if not. It
     fails only when there is neither.
    */
    method Alloc(pages: Pages, frames: Frames, c: nat) returns (address: Option<nat>, ghost p: nat, ghost s: nat)
      requires Valid(pages, frames)
      modifies this, frames, frames.lists, pages.ram
      ensures Valid(pages, frames)
      ensures address.None? <==>
                c >= CLASSES_COUNT || (old(heads[c]) == None && forall q :: !FreePage(old(frames.owner), q))
      ensures address.None? ==>
                && slabs == old(slabs) && frames.owner == old(frames.owner) && pages.ram.words == old(pages.ram.words)
      ensures address.Some? ==>
                && SlotTaken(old(slabs), slabs, p, c, s) && address.value == SlotAddr(p, c, s)
                && c < |old(heads)| && old(heads)[c] == (if p in old(slabs) then Some(p) else None)
                && (p in old(slabs) ==> frames.owner == old(frames.owner))
                && (p !in old(slabs) ==> Allocated(old(frames.owner), frames.owner, p, 0))
                && SlabQuiet(old(pages.ram.words), pages.ram.words, pages.table, frames.owner, NewIn(old(slabs), p))
                && EntriesQuiet(old(pages.ram.words), pages.ram.words, pages.table, frames.owner, slabs)
    {
      hide SlabGood, SlabEdits, World, Represents, Kept, PageCount, Listed, InUse, Owned, Allocated, SlabQuiet,
        EntriesQuiet, SlotTaken, TableOnly, SlotCount, SlotAddr;
      p, s := 0, 0;
      if c >= CLASSES_COUNT {
        return None, p, s;
      }
      ghost var w, t, slabs0, o0 := pages.ram.words, pages.table, slabs, frames.owner;
      HeadIsSlab(w, t, heads, slabs, partial, c);
      ListedHead(partial, slabs, c);
      var slab;
      if heads[c] == None {
        var made := NewSlab(pages, frames, c);
        if made == None {
          return None, p, s;
        }
        slab := made.value;
        FullChain(c);
      } else {
        slab := SlabPage(heads[c].value);
        SlabQuietRefl(w, t, o0, slabs);
      }
      p := slab.pfn;
      OthersInUse(slabs0, slabs, p);
      ghost var w1, slabs1 := pages.ram.words, slabs;
      address, s := AllocFrom(pages, slab, c);
      TookSlot(slabs0, slabs1, slabs, o0, frames.owner, p, c, s);
      AllocDone(w, w1, pages.ram.words, t, frames.owner, NewIn(slabs0, p), slabs1, slabs);
      WorldEntries(pages.ram.words, t, heads, slabs, partial);
      SlabEditsKeepFrames(w1, pages.ram.words, t, frames.owner, frames.lists.heads, frames.lists.lists, slabs);
    }

    /** Hands out the first free slot of the slab page at the head of its list, which leaves the list when full. */
    method AllocFrom(pages: Pages, slab: SlabPage, c: nat) returns (address: Option<nat>, ghost s: nat)
      requires pages.Valid() && Holds(pages.ram.words, pages.table) && Listed(partial, slabs)
      requires c < CLASSES_COUNT && partial[c] != [] && partial[c][0] == slab.pfn
      requires forall q | q in slabs && q != slab.pfn ::
                 slabs[q].class_ < CLASSES_COUNT && |slabs[q].chain| < SlotCount(slabs[q].class_)
      modifies this, pages.ram
      ensures pages.Valid() && Holds(pages.ram.words, pages.table) && Listed(partial, slabs) && InUse(slabs)
      ensures slab.pfn in old(slabs) && old(slabs)[slab.pfn].class_ == c && old(slabs)[slab.pfn].chain != []
      ensures s == old(slabs)[slab.pfn].chain[0] < SlotCount(c) && address == Some(SlotAddr(slab.pfn, c, s))
      ensures slabs == old(slabs)[slab.pfn := SlabState(c, old(slabs)[slab.pfn].chain[1..])]
      ensures SlabEdits(old(pages.ram.words), pages.ram.words, pages.table, slabs)
      ensures TableOnly(old(pages.ram.words), pages.ram.words, pages.table)
    {
      hide SlabGood, SlabEdits, World, Listed, InUse, OnlyEntryAnd, SameLinks, TableOnly, SlotCount, SlotAddr;
      ghost var w, t, p, slabs0, partial0 := pages.ram.words, pages.table, slab.pfn, slabs, partial;
      ListedHead(partial, slabs, c);
      PartialDistinct(w, t, heads, slabs, partial, c);
      ghost var st := slabs[p];
      s := st.chain[0];
      ghost var st' := SlabState(c, st.chain[1..]);
      WorldGood(w, t, heads, slabs, partial, p, c);
      address := slab.Alloc(pages, st);
      ghost var w1 := pages.ram.words;
      EditSlab(w, w1, t, heads, slabs, partial, p, st', None);
      slabs := slabs[p := st'];
      WorldGood(w1, t, heads, slabs, partial, p, c);
      var full := slab.IsFull(pages, st');
      if full {
        Pop(pages, c);
      } else {
        SlabEditsRefl(w1, t, slabs);
      }
      ListedAfterTake(slabs0, slabs, partial0, partial, c, p, st');
      TakeEdits(w, w1, pages.ram.words, t, slabs0, slabs, p);
    }

    /** Takes back one slot; a page whose last slot comes back returns to the buddy allocator. */
    method Free(pages: Pages, frames: Frames, address: nat, ghost p: nat, ghost s: nat)
      requires Valid(pages, frames) && InUseSlot(slabs, p, s) && address == SlotAddr(p, slabs[p].class_, s)
      modifies this, frames, frames.lists, pages.ram
      ensures Valid(pages, frames)
      ensures SlotGivenBack(old(slabs), slabs, old(frames.owner), frames.owner, p, s)
      ensures SlotQuiet(old(pages.ram.words), pages.ram.words, pages.table, frames.owner,
                        SlotWord(p, old(slabs)[p].class_, s))
      ensures EntriesQuiet(old(pages.ram.words), pages.ram.words, pages.table, frames.owner, slabs)
    {
      hide SlabGood, SlabEdits, World, Represents, Kept, PageCount, Listed, InUse, Owned, Released, SlotQuiet,
        SlotWord, EntriesQuiet, OnlyEntryAnd, SameLinks, SlotGivenBack, ToWord, FromWord, TableOnly, SlotAddr,
        OnSomeList, Quiet, SlotCount;
      ghost var w, t, slabs0, o0, st := pages.ram.words, pages.table, slabs, frames.owner, slabs[p];
      ghost var c := st.class_;
      WorldGood(w, t, heads, slabs, partial, p, c);
      SlotPlace(p, c, s);
      var found := SlabPage.At(pages, address / PAGE_SIZE);
      var slab := found.value;
      var classIdx := slab.Class(pages, st);
      var wasFull := slab.IsFull(pages, st);
      slab.Free(pages, address, st, s);
      ghost var w1, st1 := pages.ram.words, SlabState(c, [s] + st.chain);
      EditSlab(w, w1, t, heads, slabs, partial, p, st1, Some(SlotWord(p, c, s)));
      slabs := slabs[p := st1];
      if wasFull {
        FullIsUnlisted(partial, slabs0, p);
        Push(pages, classIdx, slab);
      } else {
        SlabEditsRefl(w1, t, slabs);
      }
      ghost var w2 := pages.ram.words;
      OwnedStill(slabs0, slabs, o0, p);
      ListedAfterGive(slabs0, slabs, old(partial), partial, c, p, s);
      EditsSoFar(w, w1, w2, t, o0, slabs0, slabs, p, c, s);
      WorldGood(w2, t, heads, slabs, partial, p, c);
      WorldEntries(w2, t, heads, slabs, partial);
      SlabEditsKeepFrames(w, w2, t, o0, frames.lists.heads, frames.lists.lists, slabs);
      var empty := slab.IsEmpty(pages, st1);
      if empty {
        Retire(pages, frames, slab, c);
        FreeDone(w, w2, pages.ram.words, t, o0, frames.owner, p, c, s, st1, slabs0, slabs);
        PageGivenBack(slabs0, slabs, o0, frames.owner, p, s);
      } else {
        StillInUse(slabs0, slabs, o0, p, s);
        EditsAreQuiet(w, w2, t, o0, slabs);
      }
    }

    /** Unlinks an empty slab page and gives it back. */
    method Retire(pages: Pages, frames: Frames, slab: SlabPage, ghost c: nat)
      requires frames.Valid(pages) && Holds(pages.ram.words, pages.table) && Listed(partial, slabs)
      requires Owned(slabs, frames.owner)
      requires pages.Valid() && c < CLASSES_COUNT == |partial|
      requires slab.pfn in slabs && slabs[slab.pfn].class_ == c && slab.pfn in partial[c]
      modifies this, frames, frames.lists, pages.ram
      ensures frames.Valid(pages) && Holds(pages.ram.words, pages.table) && Listed(partial, slabs)
      ensures Owned(slabs, frames.owner)
      ensures slabs == old(slabs) - {slab.pfn} && Released(old(frames.owner), frames.owner, slab.pfn, 0)
      ensures SlabQuiet(old(pages.ram.words), pages.ram.words, pages.table, frames.owner, None)
      ensures EntriesQuiet(old(pages.ram.words), pages.ram.words, pages.table, frames.owner, slabs)
    {
      hide SlabGood, SlabEdits, World, Represents, Kept, PageCount, Listed, Owned, Released, TableOnly, OnSomeList,
        Quiet, SlabQuiet, EntriesQuiet;
      ghost var w, t, o0, slabs0, partial0, p := pages.ram.words, pages.table, frames.owner, slabs, partial, slab.pfn;
      PartialDistinct(w, t, heads, slabs, partial, c);
      Unlink(pages, slab);
      ghost var w1 := pages.ram.words;
      WorldEntries(w1, t, heads, slabs, partial);
      SlabEditsKeepFrames(w, w1, t, o0, frames.lists.heads, frames.lists.lists, slabs);
      ListedAfterDrop(slabs, partial0, partial, c, p);
      DropSlab(w1, t, heads, slabs, partial, p);
      OwnedStill(slabs, slabs, o0, p);
      frames.Free(pages, slab.pfn);
      slabs := slabs - {p};
      ReleasedOwned(slabs0, slabs, o0, frames.owner, p);
      QuietKeepsWorld(w1, pages.ram.words, t, frames.owner, None, heads, slabs, partial);
      RetireDone(w, w1, pages.ram.words, t, o0, frames.owner, slabs0, slabs, p);
    }

    /** Prepends a slab page to the list of its class. */
    method Push(pages: Pages, c: nat, slab: SlabPage)
      requires pages.Valid() && Holds(pages.ram.words, pages.table)
      requires c < CLASSES_COUNT && slab.pfn in slabs && !OnSomeList(partial, slab.pfn)
      modifies this`heads, this`partial, pages.ram
      ensures pages.Valid() && Holds(pages.ram.words, pages.table)
      ensures partial == old(partial)[c := [slab.pfn] + old(partial)[c]]
      ensures SlabEdits(old(pages.ram.words), pages.ram.words, pages.table, slabs)
      ensures TableOnly(old(pages.ram.words), pages.ram.words, pages.table)
    {
      hide SlabGood, SlabEdits, TableOnly, PartialLinks, Family, OnSomeList, Relinks, Linkable, Rewired, FromWord;
      ghost var w, t := pages.ram.words, pages.table;
      StartRewiring(w, t, heads, slabs, partial);
      HeadIsSlab(w, t, heads, slabs, partial, c);
      var head := heads[c];
      LinkableSlab(w, t, slabs, slab.pfn);
      slab.SetNext(pages, Handle(head));
      ghost var w1 := pages.ram.words;
      RewiredStep(w, w, w1, t, slabs, slab.pfn, PartialLinks(w, t)(slab.pfn).(next := head));
      RewiredGood(w, w1, t, slabs, slab.pfn);
      slab.SetPrev(pages, None);
      ghost var w2 := pages.ram.words;
      RewiredStep(w, w1, w2, t, slabs, slab.pfn, PartialLinks(w1, t)(slab.pfn).(prev := None));
      if head != None {
        RewiredGood(w, w2, t, slabs, head.value);
        SlabPage(head.value).SetPrev(pages, Some(slab));
        RewiredStep(w, w2, pages.ram.words, t, slabs, head.value,
                    PartialLinks(w2, t)(head.value).(prev := Some(slab.pfn)));
      }
      PushWired(w, w1, w2, pages.ram.words, t, slabs, head, slab.pfn);
      heads := heads[c := Some(slab.pfn)];
      partial := partial[c := [slab.pfn] + partial[c]];
      PushedWorld(w, pages.ram.words, t, old(heads), slabs, old(partial), c, slab.pfn);
    }

    /** Takes a slab page off the list of its class, wherever it is on it. */
    method Unlink(pages: Pages, slab: SlabPage)
      requires pages.Valid() && Holds(pages.ram.words, pages.table)
      requires slab.pfn in slabs && slabs[slab.pfn].class_ < |partial| && slab.pfn in partial[slabs[slab.pfn].class_]
      modifies this`heads, this`partial, pages.ram
      ensures pages.Valid() && Holds(pages.ram.words, pages.table)
      ensures var c := slabs[slab.pfn].class_; partial == old(partial)[c := Without(old(partial)[c], slab.pfn)]
      ensures SlabEdits(old(pages.ram.words), pages.ram.words, pages.table, slabs)
      ensures TableOnly(old(pages.ram.words), pages.ram.words, pages.table)
    {
      hide SlabGood, SlabEdits, TableOnly, PartialLinks, Family, OnSomeList, Relinks, Linkable, Rewired, SlabLinked,
        SlabAt, FromWord;
      ghost var w, t, p := pages.ram.words, pages.table, slab.pfn;
      StartRewiring(w, t, heads, slabs, partial);
      ghost var c := slabs[p].class_;
      UnlinkStart(w, t, heads, slabs, partial, c, p);
      LinkableSlab(w, t, slabs, p);
      var classIdx := slab.Class(pages, slabs[p]);
      var next, prev := slab.LinksOf(pages);
      if prev != None {
        RewiredGood(w, w, t, slabs, prev.value.pfn);
        prev.value.SetNext(pages, next);
        RewiredStep(w, w, pages.ram.words, t, slabs, prev.value.pfn,
                    PartialLinks(w, t)(prev.value.pfn).(next := PfnOfHandle(next)));
      } else {
        assert heads[classIdx] == Some(p);
        heads := heads[classIdx := PfnOfHandle(next)];
      }
      ghost var w1 := pages.ram.words;
      if next != None {
        RewiredGood(w, w1, t, slabs, next.value.pfn);
        next.value.SetPrev(pages, prev);
        RewiredStep(w, w1, pages.ram.words, t, slabs, next.value.pfn,
                    PartialLinks(w1, t)(next.value.pfn).(prev := PfnOfHandle(prev)));
      }
      ghost var w2 := pages.ram.words;
      RewiredGood(w, w2, t, slabs, p);
      slab.SetNext(pages, None);
      ghost var w3 := pages.ram.words;
      RewiredStep(w, w2, w3, t, slabs, p, PartialLinks(w2, t)(p).(next := None));
      RewiredGood(w, w3, t, slabs, p);
      slab.SetPrev(pages, None);
      RewiredStep(w, w3, pages.ram.words, t, slabs, p, PartialLinks(w3, t)(p).(prev := None));
      UnlinkWired(w, w1, w2, w3, pages.ram.words, t, p);
      partial := partial[c := Without(partial[c], p)];
      UnlinkedWorld(w, pages.ram.words, t, old(heads), slabs, old(partial), c, p);
    }

    /** Takes the first slab page off the list of a class. */
    method Pop(pages: Pages, c: nat)
      requires pages.Valid() && Holds(pages.ram.words, pages.table)
      requires c < |partial| && partial[c] != [] && partial[c][0] in slabs && slabs[partial[c][0]].class_ == c
      modifies this`heads, this`partial, pages.ram
      ensures pages.Valid() && Holds(pages.ram.words, pages.table)
      ensures partial == old(partial)[c := Without(old(partial)[c], old(partial)[c][0])]
      ensures SlabEdits(old(pages.ram.words), pages.ram.words, pages.table, slabs)
      ensures TableOnly(old(pages.ram.words), pages.ram.words, pages.table)
    {
      HeadIsSlab(pages.ram.words, pages.table, heads, slabs, partial, c);
      var head := heads[c];
      Unlink(pages, SlabPage(head.value));
    }
  }

  function NewIn(slabs: SlabMap, p: nat): Option<nat> {
    if p in slabs then None else Some(p)
  }

  /** One slot left the free slots of a slab page, which may have been taken for the purpose. */
  ghost predicate SlotTaken(slabs: SlabMap, slabs': SlabMap, p: nat, c: nat, s: nat) {
    && c < CLASSES_COUNT && s < SlotCount(c)
    && p in slabs' && slabs'[p].class_ == c && slabs' == slabs[p := slabs'[p]]
    && (if p in slabs then slabs[p] == SlabState(c, [s] + slabs'[p].chain)
        else AllSlots(SlotCount(c)) == [s] + slabs'[p].chain)
  }

  lemma ListedHead(partial: seq<seq<nat>>, slabs: SlabMap, c: nat)
    requires Listed(partial, slabs) && c < CLASSES_COUNT
    ensures |partial| == CLASSES_COUNT
    ensures partial[c] != [] ==>
              var p := partial[c][0]; p in slabs && slabs[p].class_ == c && slabs[p].chain != []
  {
    if partial[c] != [] {
      assert partial[c][0] in partial[c];
    }
  }

  lemma FullChain(c: nat)
    requires c < CLASSES_COUNT
    ensures AllSlots(SlotCount(c)) != []
  {
    ShiftIsClass(c);
  }

  lemma SlabQuietRefl(w: seq<Word>, t: Table, o: Owner, slabs: SlabMap)
    ensures SlabQuiet(w, w, t, o, None) && EntriesQuiet(w, w, t, o, slabs)
  {
  }

  lemma SlabEditsRefl(w: seq<Word>, t: Table, slabs: SlabMap)
    ensures SlabEdits(w, w, t, slabs) && TableOnly(w, w, t)
  {
  }

  lemma WorldGood(w: seq<Word>, t: Table, heads: seq<Option<nat>>, slabs: SlabMap, partial: seq<seq<nat>>, p: nat,
                  c: nat)
    requires World(w, t, heads, slabs, partial) && p in slabs && slabs[p].class_ == c
    ensures SlabGood(w, t, p, slabs[p]) && t.InMemory(w) && t.Covers(p) && OffTable(t, p) && EntryAt(w, t, p).Slab?
    ensures (p + 1) * PAGE_WORDS <= |w|
    ensures c < CLASSES_COUNT && |slabs[p].chain| <= SlotCount(c)
    ensures slabs[p].chain != [] ==> slabs[p].chain[0] < SlotCount(c)
    ensures |heads| == |partial| == CLASSES_COUNT
  {
    assert SlabGood(w, t, p, slabs[p]);
    if slabs[p].chain != [] {
      assert Hop(w, p, slabs[p], 0);
    }
  }

  /** A slab page moved to a new state; the lists and every other page are as they were. */
  lemma EditSlab(w: seq<Word>, w': seq<Word>, t: Table, heads: seq<Option<nat>>, slabs: SlabMap,
                 partial: seq<seq<nat>>, p: nat, st: SlabState, touched: Option<nat>)
    requires World(w, t, heads, slabs, partial) && p in slabs && SlabGood(w', t, p, st) && t.Covers(p)
    requires OnlyEntryAnd(w, w', t, p, touched) && t.InMemory(w) && SameLinks(EntryAt(w, t, p), EntryAt(w', t, p))
    requires touched.Some? ==> touched.value / PAGE_WORDS == p
    ensures World(w', t, heads, slabs[p := st], partial)
    ensures SlabEdits(w, w', t, slabs)
  {
    hide Chained, SlabEntry, Packable, FromWord, Family;
    assert SlabGood(w, t, p, slabs[p]);
    EntryEdit(w, w', t, p, touched, slabs);
    forall q | q in slabs && q != p
      ensures SlabGood(w', t, q, slabs[q]) && EntryAt(w', t, q) == EntryAt(w, t, q)
    {
      assert SlabGood(w, t, q, slabs[q]);
      GoodElsewhere(w, w', t, p, touched, q, slabs[q]);
    }
    EditKeepsLinks(w, w', t, slabs, p);
    hide PartialLinks;
    FamilyFrame(PartialLinks(w, t), PartialLinks(w', t), heads, partial);
  }

  lemma EditKeepsLinks(w: seq<Word>, w': seq<Word>, t: Table, slabs: SlabMap, p: nat)
    requires t.InMemory(w) && t.Covers(p) && |w'| == |w| && SameLinks(EntryAt(w, t, p), EntryAt(w', t, p))
    requires forall q | q in slabs && q != p :: t.Covers(q) && EntryAt(w', t, q) == EntryAt(w, t, q)
    ensures forall q: nat | q in slabs || q == p :: PartialLinks(w', t)(q) == PartialLinks(w, t)(q)
  {
    hide FromWord;
  }

  lemma TookSlot(slabs0: SlabMap, slabs1: SlabMap, slabs2: SlabMap, o0: Owner, o: Owner, p: nat, c: nat, s: nat)
    requires c < CLASSES_COUNT && s < SlotCount(c) && p in slabs1 && slabs1[p].class_ == c && slabs1[p].chain != []
    requires s == slabs1[p].chain[0] && slabs2 == slabs1[p := SlabState(c, slabs1[p].chain[1..])]
    requires if p in slabs0 then slabs1 == slabs0 && o == o0
             else slabs1 == slabs0[p := SlabState(c, AllSlots(SlotCount(c)))]
    requires Owned(slabs1, o)
    ensures SlotTaken(slabs0, slabs2, p, c, s) && Owned(slabs2, o)
  {
    assert slabs1[p].chain == [s] + slabs2[p].chain;
  }

  lemma ListedAfterTake(slabs1: SlabMap, slabs2: SlabMap, partial1: seq<seq<nat>>, partial2: seq<seq<nat>>, c: nat,
                        p: nat, st: SlabState)
    requires Listed(partial1, slabs1) && c < CLASSES_COUNT && p in slabs1 && slabs1[p].class_ == c
    requires slabs2 == slabs1[p := st] && st.class_ == c && |st.chain| + 1 == |slabs1[p].chain| <= SlotCount(c)
    requires partial1[c] != [] && partial1[c][0] == p && Distinct(partial1[c])
    requires partial2 == if st.chain == [] then partial1[c := Without(partial1[c], p)] else partial1
    requires forall q | q in slabs1 && q != p ::
               slabs1[q].class_ < CLASSES_COUNT && |slabs1[q].chain| < SlotCount(slabs1[q].class_)
    ensures Listed(partial2, slabs2) && InUse(slabs2)
  {
    WithoutFacts(partial1[c], p);
    forall d, q: nat | 0 <= d < CLASSES_COUNT
      ensures q in partial2[d] <==> q in slabs2 && slabs2[q].class_ == d && slabs2[q].chain != []
    {
      assert p in partial1[c];
      assert q in partial1[d] <==> q in slabs1 && slabs1[q].class_ == d && slabs1[q].chain != [];
    }
  }

  /** Slot `s` of slab page `p` is handed out. */
  ghost predicate InUseSlot(slabs: SlabMap, p: nat, s: nat) {
    p in slabs && slabs[p].class_ < CLASSES_COUNT && s < SlotCount(slabs[p].class_) && s !in slabs[p].chain
  }

  /** One slot joined the free slots of its page, or was the page's last and the page was released. */
  ghost predicate SlotGivenBack(slabs: SlabMap, slabs': SlabMap, o: Owner, o': Owner, p: nat, s: nat) {
    && InUseSlot(slabs, p, s)
    && var st := slabs[p];
    if |st.chain| + 1 == SlotCount(st.class_) then slabs' == slabs - {p} && Released(o, o', p, 0)
    else slabs' == slabs[p := SlabState(st.class_, [s] + st.chain)] && o' == o
  }

  /** Outside the entry table, nothing is written but pages free afterwards and one word. */
  ghost predicate SlotQuiet(w: seq<Word>, w': seq<Word>, t: Table, o: Owner, touched: nat) {
    && |w'| == |w|
    && forall i: nat | i < |w| && !t.Holds(i) && !FreePage(o, i / PAGE_WORDS) && i != touched :: w'[i] == w[i]
  }

  lemma FullIsUnlisted(partial: seq<seq<nat>>, slabs: SlabMap, p: nat)
    requires Listed(partial, slabs) && p in slabs && slabs[p].chain == []
    ensures !OnSomeList(partial, p)
  {
  }

  lemma ListedAfterGive(slabs0: SlabMap, slabs1: SlabMap, partial0: seq<seq<nat>>, partial1: seq<seq<nat>>, c: nat,
                        p: nat, s: nat)
    requires Listed(partial0, slabs0) && c < CLASSES_COUNT && p in slabs0 && slabs0[p].class_ == c
    requires slabs1 == slabs0[p := SlabState(c, [s] + slabs0[p].chain)]
    requires |partial0| == CLASSES_COUNT
    requires partial1 == if slabs0[p].chain == [] then partial0[c := [p] + partial0[c]] else partial0
    ensures Listed(partial1, slabs1) && p in partial1[c]
  {
    forall d, q: nat | 0 <= d < CLASSES_COUNT
      ensures q in partial1[d] <==> q in slabs1 && slabs1[q].class_ == d && slabs1[q].chain != []
    {
      assert q in partial0[d] <==> q in slabs0 && slabs0[q].class_ == d && slabs0[q].chain != [];
    }
    assert p in partial1[c];
  }

  lemma ListedAfterDrop(slabs: SlabMap, partial: seq<seq<nat>>, partial': seq<seq<nat>>, c: nat, p: nat)
    requires Listed(partial, slabs) && c < CLASSES_COUNT && p in slabs && slabs[p].class_ == c && p in partial[c]
    requires Distinct(partial[c]) && partial' == partial[c := Without(partial[c], p)]
    ensures Listed(partial', slabs - {p}) && !OnSomeList(partial', p)
  {
    WithoutFacts(partial[c], p);
    forall d, q: nat | 0 <= d < CLASSES_COUNT
      ensures q in partial'[d] <==> q in slabs - {p} && slabs[q].class_ == d && slabs[q].chain != []
    {
      assert q in partial[d] <==> q in slabs && slabs[q].class_ == d && slabs[q].chain != [];
    }
  }

  lemma DropSlab(w: seq<Word>, t: Table, heads: seq<Option<nat>>, slabs: SlabMap, partial: seq<seq<nat>>, p: nat)
    requires World(w, t, heads, slabs, partial) && !OnSomeList(partial, p)
    ensures World(w, t, heads, slabs - {p}, partial)
  {
    hide Family, SlabGood;
  }

  /** What `free` has written once the page is relinked. */
  lemma EditsSoFar(w: seq<Word>, w1: seq<Word>, w2: seq<Word>, t: Table, o: Owner, slabs0: SlabMap, slabs1: SlabMap,
                   p: nat, c: nat, s: nat)
    requires c < CLASSES_COUNT && OnlyEntryAnd(w, w1, t, p, Some(SlotWord(p, c, s))) && TableOnly(w1, w2, t)
    requires SlabEdits(w, w1, t, slabs0) && SlabEdits(w1, w2, t, slabs1) && slabs0.Keys == slabs1.Keys
    ensures SlotQuiet(w, w2, t, o, SlotWord(p, c, s)) && SlabEdits(w, w2, t, slabs1)
  {
    assert t.Holds(t.EntryWord(p));
    assert forall i: nat :: SlabWord(t, slabs0, i) <==> SlabWord(t, slabs1, i);
    hide SlabWord, SlotWord;
  }

  lemma ReleasedOwned(slabs0: SlabMap, slabs: SlabMap, o: Owner, o': Owner, p: nat)
    requires Owned(slabs0, o) && p in slabs0 && slabs.Keys == slabs0.Keys - {p} && Released(o, o', p, 0)
    ensures Owned(slabs, o') && forall q | q in slabs :: !FreePage(o', q)
  {
    forall q | q in slabs
      ensures q in o' && o'[q] == Block(q, 0, false)
    {
      assert !InBlock(Block(p, 0, false), q);
    }
  }

  lemma EditsAreQuiet(w: seq<Word>, w': seq<Word>, t: Table, o: Owner, slabs: SlabMap)
    requires SlabEdits(w, w', t, slabs) && t.InMemory(w)
    ensures EntriesQuiet(w, w', t, o, slabs)
  {
    forall q: nat | t.Covers(q) && q !in slabs
      ensures w'[t.EntryWord(q)] == w[t.EntryWord(q)]
    {
      assert t.Holds(t.EntryWord(q)) && !SlabWord(t, slabs, t.EntryWord(q));
    }
  }

  lemma RetireDone(w: seq<Word>, w1: seq<Word>, w2: seq<Word>, t: Table, o: Owner, o': Owner, slabs0: SlabMap,
                   slabs: SlabMap, p: nat)
    requires TableOnly(w, w1, t) && Quiet(w1, w2, t, o', None) && SlabEdits(w, w1, t, slabs0) && t.InMemory(w)
    requires Released(o, o', p, 0) && slabs == slabs0 - {p}
    ensures SlabQuiet(w, w2, t, o', None) && EntriesQuiet(w, w2, t, o', slabs)
  {
    assert InBlock(Block(p, 0, false), p) && FreePage(o', p);
    forall i: nat | i < |w| && !t.Holds(i) && !FreePage(o', i / PAGE_WORDS)
      ensures w2[i] == w[i]
    {
      assert !MayWrite(t, o', None, i);
    }
    forall q: nat | t.Covers(q) && !FreePage(o', q) && q !in slabs
      ensures w2[t.EntryWord(q)] == w[t.EntryWord(q)]
    {
      var i := t.EntryWord(q);
      assert t.Holds(i) && !SlabWord(t, slabs0, i) && !MayWrite(t, o', None, i);
    }
  }

  lemma FreeDone(w: seq<Word>, w2: seq<Word>, w3: seq<Word>, t: Table, o: Owner, o': Owner, p: nat, c: nat, s: nat,
                 st1: SlabState, slabs0: SlabMap, slabs: SlabMap)
    requires c < CLASSES_COUNT && SlotQuiet(w, w2, t, o, SlotWord(p, c, s)) && SlabQuiet(w2, w3, t, o', None)
    requires Released(o, o', p, 0) && p in slabs0 && slabs == slabs0[p := st1] - {p} && t.InMemory(w)
    requires SlabEdits(w, w2, t, slabs0[p := st1]) && EntriesQuiet(w2, w3, t, o', slabs)
    ensures SlotQuiet(w, w3, t, o', SlotWord(p, c, s)) && EntriesQuiet(w, w3, t, o', slabs)
  {
    hide SlotWord;
    assert InBlock(Block(p, 0, false), p) && FreePage(o', p);
    assert forall q | FreePage(o, q) :: FreePage(o', q);
    forall q: nat | t.Covers(q) && !FreePage(o', q) && q !in slabs
      ensures w2[t.EntryWord(q)] == w[t.EntryWord(q)]
    {
      var i := t.EntryWord(q);
      assert t.Holds(i) && !SlabWord(t, slabs0[p := st1], i);
    }
  }

  lemma PageGivenBack(slabs0: SlabMap, slabs: SlabMap, o: Owner, o': Owner, p: nat, s: nat)
    requires InUseSlot(slabs0, p, s) && slabs == slabs0 - {p} && Released(o, o', p, 0) && InUse(slabs0)
    requires |slabs0[p].chain| + 1 == SlotCount(slabs0[p].class_)
    ensures SlotGivenBack(slabs0, slabs, o, o', p, s) && InUse(slabs)
  {
    hide Released;
  }

  lemma StillInUse(slabs0: SlabMap, slabs: SlabMap, o: Owner, p: nat, s: nat)
    requires InUseSlot(slabs0, p, s) && InUse(slabs0) && Owned(slabs0, o)
    requires slabs == slabs0[p := SlabState(slabs0[p].class_, [s] + slabs0[p].chain)]
    requires |slabs0[p].chain| + 1 != SlotCount(slabs0[p].class_)
    ensures SlotGivenBack(slabs0, slabs, o, o, p, s) && InUse(slabs) && Owned(slabs, o)
  {
  }

  lemma OwnedStill(slabs0: SlabMap, slabs: SlabMap, o: Owner, p: nat)
    requires Owned(slabs0, o) && slabs.Keys == slabs0.Keys && p in slabs
    ensures Owned(slabs, o) && p in o && o[p] == Block(p, 0, false)
  {
  }

  lemma OthersInUse(slabs0: SlabMap, slabs: SlabMap, p: nat)
    requires InUse(slabs0) && (slabs == slabs0 || (p in slabs && slabs == slabs0[p := slabs[p]]))
    ensures forall q | q in slabs && q != p ::
              slabs[q].class_ < CLASSES_COUNT && |slabs[q].chain| < SlotCount(slabs[q].class_)
  {
  }

  lemma PartialDistinct(w: seq<Word>, t: Table, heads: seq<Option<nat>>, slabs: SlabMap, partial: seq<seq<nat>>, c: nat)
    requires World(w, t, heads, slabs, partial) && c < CLASSES_COUNT
    ensures Distinct(partial[c])
  {
    assert Linked(PartialLinks(w, t), heads[c], partial[c]);
  }

  lemma TakeEdits(w: seq<Word>, w1: seq<Word>, w2: seq<Word>, t: Table, slabs1: SlabMap, slabs2: SlabMap, p: nat)
    requires OnlyEntryAnd(w, w1, t, p, None) && TableOnly(w1, w2, t)
    requires SlabEdits(w, w1, t, slabs1) && SlabEdits(w1, w2, t, slabs2) && slabs1.Keys == slabs2.Keys
    ensures SlabEdits(w, w2, t, slabs2) && TableOnly(w, w2, t)
  {
    assert t.Holds(t.EntryWord(p));
    assert forall i: nat :: SlabWord(t, slabs1, i) <==> SlabWord(t, slabs2, i);
    hide SlabWord;
  }

  lemma AllocDone(w: seq<Word>, w1: seq<Word>, w2: seq<Word>, t: Table, o: Owner, taken: Option<nat>, slabs1: SlabMap,
                  slabs: SlabMap)
    requires SlabQuiet(w, w1, t, o, taken) && TableOnly(w1, w2, t) && t.InMemory(w)
    requires EntriesQuiet(w, w1, t, o, slabs1) && SlabEdits(w1, w2, t, slabs) && slabs1.Keys == slabs.Keys
    ensures SlabQuiet(w, w2, t, o, taken) && EntriesQuiet(w, w2, t, o, slabs)
  {
    forall q: nat | t.Covers(q) && !FreePage(o, q) && q !in slabs
      ensures w2[t.EntryWord(q)] == w[t.EntryWord(q)]
    {
      var i := t.EntryWord(q);
      assert t.Holds(i) && !SlabWord(t, slabs, i);
    }
  }

  /** Only entries of slab pages and of pages free afterwards are written. */
  ghost predicate EntriesQuiet(w: seq<Word>, w': seq<Word>, t: Table, o: Owner, slabs: SlabMap) {
    && |w'| == |w|
    && (t.InMemory(w) ==>
          forall q: nat | t.Covers(q) && !FreePage(o, q) && q !in slabs :: w'[t.EntryWord(q)] == w[t.EntryWord(q)])
  }

  /**
   Outside the entry table, nothing is written but pages free afterwards and, when a page was newly
   taken, that page.
  */
  ghost predicate SlabQuiet(w: seq<Word>, w': seq<Word>, t: Table, o: Owner, taken: Option<nat>) {
    && |w'| == |w|
    && forall i: nat | i < |w| && !t.Holds(i) && !FreePage(o, i / PAGE_WORDS) && Some(i / PAGE_WORDS) != taken ::
         w'[i] == w[i]
  }

  lemma NewSlabQuiet(w: seq<Word>, w1: seq<Word>, w2: seq<Word>, t: Table, o: Owner, p: nat, slabs: SlabMap)
    requires Quiet(w, w1, t, o, Some(p)) && OnlyPage(w1, w2, t, p) && OffTable(t, p) && p in slabs
    ensures SlabQuiet(w, w2, t, o, Some(p)) && EntriesQuiet(w, w2, t, o, slabs)
  {
    assert t.Holds(t.EntryWord(p));
    forall i: nat | i < |w| && !t.Holds(i) && !FreePage(o, i / PAGE_WORDS) && i / PAGE_WORDS != p
      ensures w2[i] == w[i]
    {
      assert !MayWrite(t, o, Some(p), i);
    }
    if t.InMemory(w) {
      forall q: nat | t.Covers(q) && !FreePage(o, q) && q !in slabs
        ensures w2[t.EntryWord(q)] == w[t.EntryWord(q)]
      {
        var i := t.EntryWord(q);
        assert t.Holds(i) && !MayWrite(t, o, Some(p), i) && i / PAGE_WORDS != p;
      }
    }
  }

  lemma NoFreePage(o: Owner)
    requires !exists p: nat :: 0 <= MAX_ORDER && FreeRun(o, p, 0)
    ensures forall q :: !FreePage(o, q)
  {
    forall q | FreePage(o, q)
      ensures false
    {
      assert FreeRun(o, q, 0);
    }
  }

  lemma NewSlabOwned(slabs: SlabMap, o: Owner, p: nat, st: SlabState)
    requires Owned(slabs, o) && p in o && o[p] == Block(p, 0, false)
    ensures Owned(slabs[p := st], o)
  {
  }

  lemma WorldEntries(w: seq<Word>, t: Table, heads: seq<Option<nat>>, slabs: SlabMap, partial: seq<seq<nat>>)
    requires World(w, t, heads, slabs, partial)
    ensures forall p | p in slabs :: t.Covers(p) && t.InMemory(w) && EntryAt(w, t, p).Slab?
  {
    forall p | p in slabs
      ensures t.Covers(p) && t.InMemory(w) && EntryAt(w, t, p).Slab?
    {
      assert SlabGood(w, t, p, slabs[p]);
    }
  }

  /** Nothing differs but page `p` and its entry. */
  ghost predicate OnlyPage(w: seq<Word>, w': seq<Word>, t: Table, p: nat) {
    && |w'| == |w| && t.Covers(p)
    && forall i: nat | i < |w| && i / PAGE_WORDS != p && i != t.EntryWord(p) :: w'[i] == w[i]
  }

  lemma PageElsewhere(w: seq<Word>, w': seq<Word>, t: Table, p: nat, q: nat, st: SlabState)
    requires SlabGood(w, t, q, st) && q != p && OnlyPage(w, w', t, p) && OffTable(t, p)
    ensures SlabGood(w', t, q, st) && EntryAt(w', t, q) == EntryAt(w, t, q)
  {
    hide FromWord;
    assert t.Holds(t.EntryWord(p)) && t.Holds(t.EntryWord(q));
    ChainFrame(w, w', q, st);
  }

  /** A fresh slab page becomes the only page on its class's list. */
  lemma NewSlabWorld(w: seq<Word>, w': seq<Word>, t: Table, heads: seq<Option<nat>>, slabs: SlabMap,
                     partial: seq<seq<nat>>, c: nat, p: nat, st: SlabState)
    requires World(w, t, heads, slabs, partial) && c < CLASSES_COUNT && partial[c] == [] && p !in slabs
    requires OnlyPage(w, w', t, p) && OffTable(t, p) && SlabGood(w', t, p, st)
    requires EntryAt(w', t, p).nextPartial == None && EntryAt(w', t, p).prevPartial == None
    ensures |heads| == |partial| == CLASSES_COUNT
    ensures World(w', t, heads[c := Some(p)], slabs[p := st], partial[c := [p]])
    ensures SlabEdits(w, w', t, slabs[p := st])
  {
    hide FromWord, Chained, SlabEntry, Packable;
    var slabs' := slabs[p := st];
    assert Linked(PartialLinks(w, t), heads[c], partial[c]);
    forall q | q in slabs'
      ensures SlabGood(w', t, q, slabs'[q])
    {
      if q != p {
        PageElsewhere(w, w', t, p, q, slabs[q]);
      }
    }
    NewSlabLinks(w, w', t, slabs, p);
    OnAfterPush(partial, p, c);
    assert [p] + partial[c] == [p];
    assert SlabEdits(w, w', t, slabs') by {
      assert t.Holds(t.EntryWord(p)) && SlabWord(t, slabs', t.EntryWord(p));
    }
    NewSlabFamily(w, w', t, heads, slabs, partial, c, p);
  }

  lemma NewSlabLinks(w: seq<Word>, w': seq<Word>, t: Table, slabs: SlabMap, p: nat)
    requires OnlyPage(w, w', t, p) && OffTable(t, p) && t.InMemory(w)
    ensures forall q: nat | q != p :: PartialLinks(w', t)(q) == PartialLinks(w, t)(q)
  {
    hide FromWord;
    forall q: nat | q != p
      ensures PartialLinks(w', t)(q) == PartialLinks(w, t)(q)
    {
      if t.Covers(q) {
        assert t.Holds(t.EntryWord(q));
        assert t.EntryWord(q) != t.EntryWord(p) && t.EntryWord(q) / PAGE_WORDS != p;
      }
    }
  }

  lemma NewSlabFamily(w: seq<Word>, w': seq<Word>, t: Table, heads: seq<Option<nat>>, slabs: SlabMap,
                      partial: seq<seq<nat>>, c: nat, p: nat)
    requires World(w, t, heads, slabs, partial) && c < CLASSES_COUNT && partial[c] == [] && p !in slabs
    requires PartialLinks(w', t)(p) == Links(None, None)
    requires forall q: nat | q != p :: PartialLinks(w', t)(q) == PartialLinks(w, t)(q)
    ensures |heads| == CLASSES_COUNT
    ensures Family(PartialLinks(w', t), heads[c := Some(p)], partial[c := [p]])
  {
    hide PartialLinks, SlabGood;
    assert Linked(PartialLinks(w, t), heads[c], partial[c]);
    PushFamily(PartialLinks(w, t), PartialLinks(w', t), heads, partial, p, c);
    assert [p] + partial[c] == [p];
  }

  lemma NewSlabListed(slabs: SlabMap, partial: seq<seq<nat>>, c: nat, p: nat)
    requires Listed(partial, slabs) && c < CLASSES_COUNT && partial[c] == [] && p !in slabs
    ensures Listed(partial[c := [p]], slabs[p := SlabState(c, AllSlots(SlotCount(c)))])
  {
    ShiftIsClass(c);
  }

  /** What the buddy allocator's contract says about a page just handed out. */
  lemma FreshPage(w: seq<Word>, t: Table, o: Owner, o': Owner, lists: seq<seq<nat>>, slabs: SlabMap, p: nat)
    requires Kept(w, t, o', lists, None) && Allocated(o, o', p, 0) && Owned(slabs, o)
    ensures p !in slabs && Owned(slabs, o') && (forall q | q in slabs :: !FreePage(o', q) && q != p)
    ensures t.Covers(p) && OffTable(t, p) && (p + 1) * PAGE_WORDS <= |w| && t.InMemory(w)
    ensures p in o' && o'[p] == Block(p, 0, false) && FreePage(o, p)
  {
    assert InBlock(Block(p, 0, false), p);
    forall q | q in slabs
      ensures q in o' && o'[q] == Block(q, 0, false) && q != p
    {
      assert q != p;
    }
  }

  lemma UnlinkStart(w: seq<Word>, t: Table, heads: seq<Option<nat>>, slabs: SlabMap, partial: seq<seq<nat>>, c: nat,
                    p: nat)
    requires World(w, t, heads, slabs, partial) && c < CLASSES_COUNT && p in partial[c]
    ensures p in slabs && SlabGood(w, t, p, slabs[p]) && SlabLinked(w, t, p)
    ensures var l := PartialLinks(w, t)(p);
            && (forall q: nat | l.prev == Some(q) || l.next == Some(q) :: q in slabs && q != p && q in partial[c])
            && (l.prev.Some? ==> l.prev != l.next)
            && (l.prev == None <==> heads[c] == Some(p))
  {
    assert Linked(PartialLinks(w, t), heads[c], partial[c]);
    Neighbours(PartialLinks(w, t), heads[c], partial[c], p);
    assert OnSomeList(partial, p);
    forall q: nat | PartialLinks(w, t)(p).prev == Some(q) || PartialLinks(w, t)(p).next == Some(q)
      ensures q in slabs && SlabGood(w, t, q, slabs[q])
    {
      assert OnSomeList(partial, q);
    }
  }

  lemma UnlinkWired(w: seq<Word>, w1: seq<Word>, w2: seq<Word>, w3: seq<Word>, w4: seq<Word>, t: Table, p: nat)
    requires var l := PartialLinks(w, t)(p);
             && (l.prev == None ==> w1 == w)
             && (l.prev.Some? ==> Relinks(w, w1, t, l.prev.value, PartialLinks(w, t)(l.prev.value).(next := l.next)))
             && (l.next == None ==> w2 == w1)
             && (l.next.Some? ==> Relinks(w1, w2, t, l.next.value, PartialLinks(w1, t)(l.next.value).(prev := l.prev)))
             && (l.prev.Some? ==> l.prev != l.next && l.prev.value != p)
             && (l.next.Some? ==> l.next.value != p)
    requires Relinks(w2, w3, t, p, PartialLinks(w2, t)(p).(next := None))
    requires Relinks(w3, w4, t, p, PartialLinks(w3, t)(p).(prev := None))
    ensures UnlinkRewrites(PartialLinks(w, t), PartialLinks(w4, t), p)
  {
    hide SlabGood, PartialLinks, OnlyEntryAnd;
  }

  lemma UnlinkedWorld(w: seq<Word>, w': seq<Word>, t: Table, heads: seq<Option<nat>>, slabs: SlabMap,
                      partial: seq<seq<nat>>, c: nat, p: nat)
    requires World(w, t, heads, slabs, partial) && c < CLASSES_COUNT && p in partial[c] && |heads| == CLASSES_COUNT
    requires Rewired(w, w', t, slabs) && UnlinkRewrites(PartialLinks(w, t), PartialLinks(w', t), p)
    ensures var l := PartialLinks(w, t)(p);
            World(w', t, if l.prev == None then heads[c := l.next] else heads, slabs,
                  partial[c := Without(partial[c], p)])
    ensures SlabEdits(w, w', t, slabs) && TableOnly(w, w', t)
  {
    hide SlabGood, SlabEdits, TableOnly, PartialLinks, UnlinkRewrites, OnSomeList;
    assert Linked(PartialLinks(w, t), heads[c], partial[c]);
    OnAfterUnlink(partial, p, c);
    UnlinkFamily(PartialLinks(w, t), PartialLinks(w', t), heads, partial, p, c);
  }

  lemma StartRewiring(w: seq<Word>, t: Table, heads: seq<Option<nat>>, slabs: SlabMap, partial: seq<seq<nat>>)
    requires World(w, t, heads, slabs, partial)
    ensures AllGood(w, t, slabs) && Rewired(w, w, t, slabs) && |heads| == |partial| == CLASSES_COUNT
    ensures t.len <= MAX_PAGES
  {
  }

  lemma RewiredGood(w: seq<Word>, w': seq<Word>, t: Table, slabs: SlabMap, p: nat)
    requires Rewired(w, w', t, slabs) && p in slabs && t.len <= MAX_PAGES
    ensures t.InMemory(w') && t.Covers(p) && Linkable(w', t, p, None)
    ensures forall q | q in slabs :: Linkable(w', t, p, Some(q))
  {
    hide SlabGood, SlabEdits, Linkable;
    LinkableSlab(w', t, slabs, p);
  }

  lemma HeadIsSlab(w: seq<Word>, t: Table, heads: seq<Option<nat>>, slabs: SlabMap, partial: seq<seq<nat>>, c: nat)
    requires World(w, t, heads, slabs, partial) && c < CLASSES_COUNT
    ensures |heads| == CLASSES_COUNT
    ensures t.InMemory(w) && heads[c] == ItemAt(partial[c], 0)
    ensures heads[c].Some? ==>
              heads[c].value in partial[c] && OnSomeList(partial, heads[c].value) && heads[c].value in slabs
  {
    assert Linked(PartialLinks(w, t), heads[c], partial[c]);
  }

  lemma PushWired(w: seq<Word>, w1: seq<Word>, w2: seq<Word>, w3: seq<Word>, t: Table, slabs: SlabMap,
                  head: Option<nat>, p: nat)
    requires Relinks(w, w1, t, p, PartialLinks(w, t)(p).(next := head))
    requires Relinks(w1, w2, t, p, PartialLinks(w1, t)(p).(prev := None))
    requires head == None ==> w3 == w2
    requires head.Some? ==> Relinks(w2, w3, t, head.value, PartialLinks(w2, t)(head.value).(prev := Some(p)))
    requires head != Some(p)
    ensures PushRewrites(PartialLinks(w, t), PartialLinks(w3, t), head, p)
  {
    hide SlabGood, PartialLinks, OnlyEntryAnd;
  }

  lemma PushedWorld(w: seq<Word>, w': seq<Word>, t: Table, heads: seq<Option<nat>>, slabs: SlabMap,
                    partial: seq<seq<nat>>, c: nat, p: nat)
    requires World(w, t, heads, slabs, partial) && c < CLASSES_COUNT && p in slabs && !OnSomeList(partial, p)
    requires |heads| == CLASSES_COUNT
    requires Rewired(w, w', t, slabs) && PushRewrites(PartialLinks(w, t), PartialLinks(w', t), heads[c], p)
    ensures World(w', t, heads[c := Some(p)], slabs, partial[c := [p] + partial[c]])
    ensures SlabEdits(w, w', t, slabs) && TableOnly(w, w', t)
  {
    hide SlabGood, SlabEdits, TableOnly, PartialLinks, Family, OnSomeList, PushRewrites;
    PushFamily(PartialLinks(w, t), PartialLinks(w', t), heads, partial, p, c);
    OnAfterPush(partial, p, c);
  }
}
