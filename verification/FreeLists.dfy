/**
 The buddy allocator's free lists (src/mm/frames/lists.rs): one doubly linked list per order, its
 links kept in the first two words of the free pages themselves.
*/
module FreeLists {
  import opened Wrappers
  import opened Bits
  import opened Ram
  import opened Sequences
  import opened DoublyLinked
  import opened Blocks

  const ORDERS: nat := MAX_ORDER + 1

  /** `usize::MAX`: the mark for "no page". */
  const EMPTY: Word := WORD_LIMIT - 1

  /** Pages whose address is a `usize`. */
  predicate Addressable(p: nat) {
    p * PAGE_SIZE < WORD_LIMIT
  }

  predicate LinkAddressable(p: Option<nat>) {
    p.None? || Addressable(p.value)
  }

  function AddrFromPfn(p: Option<nat>): Word
    requires LinkAddressable(p)
  {
    match p
    case None => EMPTY
    case Some(pfn) => pfn * PAGE_SIZE
  }

  function PfnFromAddr(a: Word): Option<nat> {
    if a == EMPTY then None else Some(a / PAGE_SIZE)
  }

  /** The end mark is no page's address, so what is written is what is read back. */
  lemma LinkRoundTrip(p: Option<nat>)
    requires LinkAddressable(p)
    ensures PfnFromAddr(AddrFromPfn(p)) == p
    ensures AddrFromPfn(p) == EMPTY <==> p == None
  {
  }

  /** The page's two link words are inside memory. */
  predicate HasLinkWords(w: seq<Word>, p: nat) {
    p * PAGE_WORDS + 1 < |w|
  }

  function ReadLinks(w: seq<Word>, p: nat): Links
    requires HasLinkWords(w, p)
  {
    Links(PfnFromAddr(w[p * PAGE_WORDS]), PfnFromAddr(w[p * PAGE_WORDS + 1]))
  }

  function WriteLinks(w: seq<Word>, p: nat, l: Links): (w': seq<Word>)
    requires HasLinkWords(w, p) && LinkAddressable(l.prev) && LinkAddressable(l.next)
    ensures |w'| == |w|
  {
    w[p * PAGE_WORDS := AddrFromPfn(l.prev)][p * PAGE_WORDS + 1 := AddrFromPfn(l.next)]
  }

  /** The links of every page, as memory holds them. */
  ghost function PageLinks(w: seq<Word>): nat -> Links {
    (p: nat) => if HasLinkWords(w, p) then ReadLinks(w, p) else Links(None, None)
  }

  lemma WriteLinksFacts(w: seq<Word>, p: nat, l: Links)
    requires HasLinkWords(w, p) && LinkAddressable(l.prev) && LinkAddressable(l.next)
    ensures var w' := WriteLinks(w, p, l);
            && PageLinks(w')(p) == l
            && (forall q: nat | q != p :: PageLinks(w')(q) == PageLinks(w)(q))
            && forall i: nat | i < |w| && i / PAGE_WORDS != p :: w'[i] == w[i]
  {
    LinkRoundTrip(l.prev);
    LinkRoundTrip(l.next);
  }

  ghost predicate CanLink(w: seq<Word>, p: nat) {
    HasLinkWords(w, p) && Addressable(p)
  }

  /** Heads and in-page links stand for one sequence of pages per order. */
  ghost predicate Represents(w: seq<Word>, heads: seq<Option<nat>>, lists: seq<seq<nat>>) {
    && |lists| == ORDERS
    && Family(PageLinks(w), heads, lists)
    && forall p | OnSomeList(lists, p) :: CanLink(w, p)
  }

  /** Only words of pages on some list differ. */
  ghost predicate OnlyListPagesChange(w: seq<Word>, w': seq<Word>, lists: seq<seq<nat>>) {
    |w| == |w'| && forall i: nat | i < |w| && !OnSomeList(lists, i / PAGE_WORDS) :: w'[i] == w[i]
  }

  /** Writes outside every listed page leave the lists as they are. */
  lemma RepresentsFrame(w: seq<Word>, w': seq<Word>, heads: seq<Option<nat>>, lists: seq<seq<nat>>)
    requires Represents(w, heads, lists) && |w'| == |w|
    requires forall i: nat | i < |w| && OnSomeList(lists, i / PAGE_WORDS) :: w'[i] == w[i]
    ensures Represents(w', heads, lists)
  {
    forall p: nat | OnSomeList(lists, p)
      ensures PageLinks(w')(p) == PageLinks(w)(p)
    {
      assert CanLink(w, p);
      assert (p * PAGE_WORDS) / PAGE_WORDS == p && (p * PAGE_WORDS + 1) / PAGE_WORDS == p;
    }
    FamilyFrame(PageLinks(w), PageLinks(w'), heads, lists);
  }

  // ----- The page count

  /** Sum over orders `k` of 2^k times the length of list `k`. */
  ghost function PageCount(lists: seq<seq<nat>>): nat {
    if lists == [] then 0
    else PageCount(lists[..|lists| - 1]) + Pow2(|lists| - 1) * |lists[|lists| - 1]|
  }

  lemma {:induction false} PageCountUpdate(lists: seq<seq<nat>>, k: nat, s: seq<nat>)
    requires k < |lists|
    ensures PageCount(lists[k := s]) == PageCount(lists) + Pow2(k) * (|s| - |lists[k]|)
  {
    var n := |lists| - 1;
    if k == n {
      assert lists[k := s][..n] == lists[..n];
    } else {
      assert lists[k := s][..n] == lists[..n][k := s];
      PageCountUpdate(lists[..n], k, s);
    }
  }

  lemma PageCountPush(lists: seq<seq<nat>>, k: nat, p: nat)
    requires k < |lists|
    ensures PageCount(lists[k := [p] + lists[k]]) == PageCount(lists) + Pow2(k)
  {
    var s := [p] + lists[k];
    PageCountUpdate(lists, k, s);
    assert |s| - |lists[k]| == 1;
  }

  lemma PageCountUnlink(lists: seq<seq<nat>>, k: nat, s: seq<nat>)
    requires k < |lists| && |s| + 1 == |lists[k]|
    ensures PageCount(lists[k := s]) + Pow2(k) == PageCount(lists)
  {
    PageCountUpdate(lists, k, s);
    assert |s| - |lists[k]| == -1;
  }

  lemma {:induction false} EmptyCount(lists: seq<seq<nat>>)
    requires forall k | 0 <= k < |lists| :: lists[k] == []
    ensures PageCount(lists) == 0
  {
    if lists != [] {
      EmptyCount(lists[..|lists| - 1]);
    }
  }

  /** The first page of the first list from order `k` on that is not empty. */
  function FirstHead(heads: seq<Option<nat>>, k: nat): Option<nat>
    decreases |heads| - k
  {
    if k >= |heads| then None else if heads[k].Some? then heads[k] else FirstHead(heads, k + 1)
  }

  class FreeLists {
    const ram: Memory
    var heads: seq<Option<nat>>
    var pages: nat

    /** The pages on each list, first to last. */
    ghost var lists: seq<seq<nat>>

    ghost predicate Valid()
      reads this, ram
    {
      Represents(ram.words, heads, lists) && pages == PageCount(lists)
    }

    constructor (ram: Memory)
      ensures Valid() && this.ram == ram && lists == seq(ORDERS, _ => [])
    {
      this.ram := ram;
      heads := seq(ORDERS, _ => None);
      pages := 0;
      lists := seq(ORDERS, _ => []);
      new;
      EmptyCount(lists);
    }

    function Head(order: nat): Option<nat>
      requires |heads| == ORDERS
      reads this
    {
      if order < ORDERS then heads[order] else None
    }

    method WriteLinksAt(pfn: nat, links: Links)
      requires HasLinkWords(ram.words, pfn) && LinkAddressable(links.prev) && LinkAddressable(links.next)
      modifies ram
      ensures ram.words == WriteLinks(old(ram.words), pfn, links)
    {
      ram.Store(pfn * PAGE_WORDS, AddrFromPfn(links.prev));
      ram.Store(pfn * PAGE_WORDS + 1, AddrFromPfn(links.next));
    }

    /** Prepends a page to the list of its order; an order past the last is ignored. */
    method Push(pfn: nat, order: nat)
      requires Valid() && !OnSomeList(lists, pfn) && CanLink(ram.words, pfn)
      modifies this, ram
      ensures Valid() && |ram.words| == |old(ram.words)|
      ensures lists == if order < ORDERS then old(lists)[order := [pfn] + old(lists[order])] else old(lists)
      ensures OnlyListPagesChange(old(ram.words), ram.words, lists)
    {
      if order >= ORDERS {
        return;
      }
      hide Family, Disjoint, PageCount, ReadLinks, PageLinks, WriteLinks;
      ghost var w, l := ram.words, lists;
      HeadFacts(w, heads, l, order);
      var head := heads[order];
      heads := heads[order := Some(pfn)];
      WriteLinksAt(pfn, Links(None, head));
      if head != None {
        HeadSurvives(w, pfn, Links(None, head), head.value);
        var links := ReadLinks(ram.words, head.value);
        WriteLinksAt(head.value, links.(prev := Some(pfn)));
      }
      lists := lists[order := [pfn] + lists[order]];
      pages := pages + Pow2(order);
      PushKeeps(w, ram.words, old(heads), l, pfn, order);
    }

    /** Takes the first page off a list. */
    method Pop(order: nat) returns (pfn: Option<nat>)
      requires Valid()
      modifies this, ram
      ensures Valid() && |ram.words| == |old(ram.words)|
      ensures pfn == old(Head(order))
      ensures pfn.None? ==> lists == old(lists) && ram.words == old(ram.words)
      ensures pfn.Some? ==>
                && order < ORDERS && pfn.value in old(lists[order])
                && lists == old(lists)[order := Without(old(lists[order]), pfn.value)]
                && OnlyListPagesChange(old(ram.words), ram.words, lists)
    {
      pfn := Head(order);
      if pfn == None {
        return;
      }
      assert Linked(PageLinks(ram.words), heads[order], lists[order]);
      Unlink(pfn.value, order);
    }

    /** Takes a page out of the middle of its list without searching for it. */
    method Unlink(pfn: nat, order: nat)
      requires Valid() && order < ORDERS && pfn in lists[order]
      modifies this, ram
      ensures Valid() && |ram.words| == |old(ram.words)|
      ensures lists == old(lists)[order := Without(old(lists[order]), pfn)]
      ensures OnlyListPagesChange(old(ram.words), ram.words, lists)
    {
      hide Family, Disjoint, PageCount, ReadLinks, PageLinks, WriteLinks;
      ghost var w, l := ram.words, lists;
      UnlinkReady(w, heads, l, pfn, order);
      var links := ReadLinks(ram.words, pfn);
      if links.prev != None {
        var before := ReadLinks(ram.words, links.prev.value);
        WriteLinksAt(links.prev.value, before.(next := links.next));
        if links.next != None {
          HeadSurvives(w, links.prev.value, before.(next := links.next), links.next.value);
        }
      } else {
        heads := heads[order := links.next];
      }
      if links.next != None {
        var after := ReadLinks(ram.words, links.next.value);
        WriteLinksAt(links.next.value, after.(prev := links.prev));
      }
      UnlinkKeeps(w, ram.words, old(heads), l, pfn, order);
      pages := pages - Pow2(order);
      lists := lists[order := Without(lists[order], pfn)];
    }

    /** Walks one list and counts it. */
    method CountBlocks(order: nat) returns (count: nat)
      requires Valid()
      ensures count == if order < ORDERS then |lists[order]| else 0
    {
      count := 0;
      var current := Head(order);
      if order < ORDERS {
        assert Linked(PageLinks(ram.words), heads[order], lists[order]);
      }
      while current != None
        invariant order >= ORDERS ==> current == None && count == 0
        invariant order < ORDERS ==> count <= |lists[order]| && current == ItemAt(lists[order], count)
        decreases if order < ORDERS then |lists[order]| - count else 0
      {
        assert Joined(PageLinks(ram.words), lists[order], count);
        assert OnSomeList(lists, current.value);
        count := count + 1;
        current := ReadLinks(ram.words, current.value).next;
      }
    }
  }

  /** Every link stored in a listed page names a listed page. */
  lemma StoredLinks(w: seq<Word>, heads: seq<Option<nat>>, lists: seq<seq<nat>>, p: nat, k: nat)
    requires Represents(w, heads, lists) && k < ORDERS && p in lists[k]
    ensures CanLink(w, p) && ReadLinks(w, p) == PageLinks(w)(p)
    ensures forall q: nat | ReadLinks(w, p).prev == Some(q) || ReadLinks(w, p).next == Some(q) ::
              q in lists[k] && CanLink(w, q)
  {
    assert Linked(PageLinks(w), heads[k], lists[k]);
    Neighbours(PageLinks(w), heads[k], lists[k], p);
    assert OnSomeList(lists, p);
    forall q: nat | q in lists[k]
      ensures CanLink(w, q)
    {
      assert OnSomeList(lists, q);
    }
  }

  lemma HeadFacts(w: seq<Word>, heads: seq<Option<nat>>, lists: seq<seq<nat>>, k: nat)
    requires Represents(w, heads, lists) && k < ORDERS
    ensures |heads| == ORDERS && LinkAddressable(heads[k])
    ensures forall h: nat | heads[k] == Some(h) ::
              && h in lists[k] && OnSomeList(lists, h) && CanLink(w, h)
              && LinkAddressable(ReadLinks(w, h).prev) && LinkAddressable(ReadLinks(w, h).next)
  {
    assert Linked(PageLinks(w), heads[k], lists[k]);
    if heads[k].Some? {
      StoredLinks(w, heads, lists, heads[k].value, k);
    }
  }

  lemma HeadSurvives(w: seq<Word>, p: nat, l: Links, h: nat)
    requires HasLinkWords(w, p) && LinkAddressable(l.prev) && LinkAddressable(l.next) && HasLinkWords(w, h) && h != p
    ensures ReadLinks(WriteLinks(w, p, l), h) == ReadLinks(w, h)
  {
    WriteLinksFacts(w, p, l);
    assert PageLinks(WriteLinks(w, p, l))(h) == PageLinks(w)(h);
  }

  ghost predicate PushWrites(w: seq<Word>, w': seq<Word>, head: Option<nat>, p: nat) {
    && CanLink(w, p) && LinkAddressable(head)
    && var w1 := WriteLinks(w, p, Links(None, head));
    && (head == None ==> w' == w1)
    && (head.Some? ==>
          && HasLinkWords(w, head.value) && LinkAddressable(ReadLinks(w, head.value).next)
          && w' == WriteLinks(w1, head.value, ReadLinks(w, head.value).(prev := Some(p))))
  }

  lemma PushKeeps(w: seq<Word>, w': seq<Word>, heads: seq<Option<nat>>, lists: seq<seq<nat>>, p: nat, k: nat)
    requires Represents(w, heads, lists) && k < ORDERS && !OnSomeList(lists, p) && |heads| == ORDERS
    requires PushWrites(w, w', heads[k], p)
    ensures var lists' := lists[k := [p] + lists[k]];
            && Represents(w', heads[k := Some(p)], lists')
            && OnlyListPagesChange(w, w', lists')
            && PageCount(lists') == PageCount(lists) + Pow2(k)
  {
    hide WriteLinks, ReadLinks, Family, PageCount, PageLinks, OnSomeList, OnlyListPagesChange, UnlinkRewrites,
      PushRewrites;
    var head, lists' := heads[k], lists[k := [p] + lists[k]];
    HeadFacts(w, heads, lists, k);
    OnAfterPush(lists, p, k);
    PushedLinks(w, w', head, p);
    PageCountPush(lists, k, p);
    assert Represents(w', heads[k := Some(p)], lists') by {
      PushFamily(PageLinks(w), PageLinks(w'), heads, lists, p, k);
      assert CanLink(w, p);
      forall q: nat | OnSomeList(lists', q)
        ensures CanLink(w', q)
      {
        assert q == p || OnSomeList(lists, q);
      }
    }
    ListedOnly(w, w', lists', p, head);
  }

  lemma ListedOnly(w: seq<Word>, w': seq<Word>, lists: seq<seq<nat>>, p: nat, head: Option<nat>)
    requires |w'| == |w| && OnSomeList(lists, p) && (head.Some? ==> OnSomeList(lists, head.value))
    requires forall i: nat | i < |w| && i / PAGE_WORDS != p && head != Some(i / PAGE_WORDS) :: w'[i] == w[i]
    ensures OnlyListPagesChange(w, w', lists)
  {
  }

  lemma PushedLinks(w: seq<Word>, w': seq<Word>, head: Option<nat>, p: nat)
    requires PushWrites(w, w', head, p) && head != Some(p)
    ensures |w'| == |w| && PushRewrites(PageLinks(w), PageLinks(w'), head, p)
    ensures forall i: nat | i < |w| && i / PAGE_WORDS != p && head != Some(i / PAGE_WORDS) :: w'[i] == w[i]
  {
    var w1 := WriteLinks(w, p, Links(None, head));
    WriteLinksFacts(w, p, Links(None, head));
    if head.Some? {
      WriteLinksFacts(w1, head.value, ReadLinks(w, head.value).(prev := Some(p)));
    }
  }

  lemma OnAfterPush(lists: seq<seq<nat>>, p: nat, k: nat)
    requires k < |lists|
    ensures forall q: nat :: OnSomeList(lists[k := [p] + lists[k]], q) <==> q == p || OnSomeList(lists, q)
  {
    var lists' := lists[k := [p] + lists[k]];
    assert p in lists'[k];
    forall q | OnSomeList(lists, q)
      ensures OnSomeList(lists', q)
    {
      var j :| 0 <= j < |lists| && q in lists[j];
      assert q in lists'[j];
    }
  }

  lemma UnlinkReady(w: seq<Word>, heads: seq<Option<nat>>, lists: seq<seq<nat>>, p: nat, k: nat)
    requires Represents(w, heads, lists) && k < ORDERS && p in lists[k]
    ensures |heads| == ORDERS && CanLink(w, p) && UnlinkSafe(w, p)
  {
    assert Linked(PageLinks(w), heads[k], lists[k]);
    StoredLinks(w, heads, lists, p, k);
    Neighbours(PageLinks(w), heads[k], lists[k], p);
    var l := ReadLinks(w, p);
    if l.prev.Some? {
      StoredLinks(w, heads, lists, l.prev.value, k);
    }
    if l.next.Some? {
      StoredLinks(w, heads, lists, l.next.value, k);
    }
  }

  ghost predicate Relinkable(w: seq<Word>, p: nat) {
    && CanLink(w, p)
    && LinkAddressable(ReadLinks(w, p).prev) && LinkAddressable(ReadLinks(w, p).next)
  }

  ghost predicate UnlinkSafe(w: seq<Word>, p: nat)
    requires HasLinkWords(w, p)
  {
    var l := ReadLinks(w, p);
    && LinkAddressable(l.prev) && LinkAddressable(l.next)
    && (l.prev.Some? ==> Relinkable(w, l.prev.value) && l.prev != l.next)
    && (l.next.Some? ==> Relinkable(w, l.next.value))
  }

  ghost predicate UnlinkWrites(w: seq<Word>, w': seq<Word>, p: nat)
    requires HasLinkWords(w, p) && UnlinkSafe(w, p)
  {
    var l := ReadLinks(w, p);
    var w1 := if l.prev == None then w else WriteLinks(w, l.prev.value, ReadLinks(w, l.prev.value).(next := l.next));
    w' == if l.next == None then w1 else WriteLinks(w1, l.next.value, ReadLinks(w, l.next.value).(prev := l.prev))
  }

  lemma UnlinkKeeps(w: seq<Word>, w': seq<Word>, heads: seq<Option<nat>>, lists: seq<seq<nat>>, p: nat, k: nat)
    requires Represents(w, heads, lists) && k < ORDERS && p in lists[k] && |heads| == ORDERS
    requires HasLinkWords(w, p) && UnlinkSafe(w, p) && UnlinkWrites(w, w', p)
    ensures var lists', l := lists[k := Without(lists[k], p)], ReadLinks(w, p);
            && Represents(w', if l.prev == None then heads[k := l.next] else heads, lists')
            && OnlyListPagesChange(w, w', lists')
            && PageCount(lists') + Pow2(k) == PageCount(lists)
  {
    hide WriteLinks, ReadLinks, PageCount, PageLinks, OnSomeList, OnlyListPagesChange, UnlinkRewrites, UnlinkWrites,
      UnlinkSafe, Disjoint, Joined;
    var l, lists' := ReadLinks(w, p), lists[k := Without(lists[k], p)];
    assert Linked(PageLinks(w), heads[k], lists[k]);
    UnlinkedLinks(w, w', p);
    Neighbours(PageLinks(w), heads[k], lists[k], p);
    WithoutFacts(lists[k], p);
    OnAfterUnlink(lists, p, k);
    hide Family, Linked;
    PageCountUnlink(lists, k, Without(lists[k], p));
    assert Represents(w', if l.prev == None then heads[k := l.next] else heads, lists') by {
      UnlinkFamily(PageLinks(w), PageLinks(w'), heads, lists, p, k);
    }
    NeighboursOnly(w, w', lists', l);
  }

  lemma NeighboursOnly(w: seq<Word>, w': seq<Word>, lists: seq<seq<nat>>, l: Links)
    requires |w'| == |w| && forall q: nat | l.prev == Some(q) || l.next == Some(q) :: OnSomeList(lists, q)
    requires forall i: nat | i < |w| && l.prev != Some(i / PAGE_WORDS) && l.next != Some(i / PAGE_WORDS) ::
               w'[i] == w[i]
    ensures OnlyListPagesChange(w, w', lists)
  {
  }

  lemma UnlinkedLinks(w: seq<Word>, w': seq<Word>, p: nat)
    requires HasLinkWords(w, p) && UnlinkSafe(w, p) && UnlinkWrites(w, w', p)
    ensures |w'| == |w| && UnlinkRewrites(PageLinks(w), PageLinks(w'), p) && PageLinks(w)(p) == ReadLinks(w, p)
    ensures forall i: nat | i < |w| && ReadLinks(w, p).prev != Some(i / PAGE_WORDS) &&
              ReadLinks(w, p).next != Some(i / PAGE_WORDS) ::
              w'[i] == w[i]
  {
    var l := ReadLinks(w, p);
    var w1 := w;
    if l.prev.Some? {
      WriteLinksFacts(w, l.prev.value, ReadLinks(w, l.prev.value).(next := l.next));
      w1 := WriteLinks(w, l.prev.value, ReadLinks(w, l.prev.value).(next := l.next));
    }
    if l.next.Some? {
      WriteLinksFacts(w1, l.next.value, ReadLinks(w, l.next.value).(prev := l.prev));
    }
  }

  lemma OnAfterUnlink(lists: seq<seq<nat>>, p: nat, k: nat)
    requires k < |lists| && Distinct(lists[k]) && p in lists[k]
    ensures var lists' := lists[k := Without(lists[k], p)];
            && (forall q: nat | q in lists[k] && q != p :: OnSomeList(lists', q))
            && forall q: nat | OnSomeList(lists', q) :: OnSomeList(lists, q)
  {
    WithoutFacts(lists[k], p);
    var lists' := lists[k := Without(lists[k], p)];
    forall q: nat | q in lists[k] && q != p
      ensures OnSomeList(lists', q)
    {
      assert q in lists'[k];
    }
    forall q: nat | OnSomeList(lists', q)
      ensures OnSomeList(lists, q)
    {
      var j :| 0 <= j < |lists| && q in lists'[j];
      assert q in lists[j];
    }
  }
}
