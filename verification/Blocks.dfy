/**
 The block structure the buddy allocator keeps, without its machinery.

 Every managed page belongs to one block: an aligned power-of-two run of pages that is free or
 handed out. `Owner` records it page by page. What a block means is here; `Frames` keeps a ghost
 `Owner` in step with the free lists and the entry table.
*/
module Blocks {
  import opened Bits

  const MAX_ORDER: nat := 10

  datatype Block = Block(head: nat, order: nat, free: bool)

  type Owner = map<nat, Block>

  ghost predicate InBlock(b: Block, p: nat) {
    b.head <= p < b.head + Pow2(b.order)
  }

  ghost predicate BlockAt(o: Owner, p: nat)
    requires p in o
  {
    var b := o[p];
    && b.order <= MAX_ORDER
    && Aligned(b.head, b.order)
    && InBlock(b, p)
    && forall q: nat | InBlock(b, q) :: q in o && o[q] == b
  }

  /** The blocks are aligned and partition the managed pages. */
  ghost predicate Partition(o: Owner) {
    forall p | p in o :: BlockAt(o, p)
  }

  ghost predicate IsBlock(o: Owner, b: Block) {
    b.head in o && o[b.head] == b
  }

  ghost predicate FreeBlock(o: Owner, p: nat, k: nat) {
    p in o && o[p] == Block(p, k, true)
  }

  /** The block of order `k` that shares a parent with the one at `p`: `pfn ^ (1 << order)`. */
  function BuddyOf(p: nat, k: nat): nat {
    Xor(p, Pow2(k))
  }

  ghost predicate NoFreeBuddy(o: Owner, p: nat, k: nat) {
    !FreeBlock(o, BuddyOf(p, k), k)
  }

  /** No two buddies of one order below the maximum are both free. */
  ghost predicate Merged(o: Owner) {
    forall p: nat, k: nat | FreeBlock(o, p, k) && k < MAX_ORDER :: NoFreeBuddy(o, p, k)
  }

  ghost function FreePages(o: Owner): set<nat> {
    set p | p in o && o[p].free
  }

  /** `[p, p + 2^k)` is an aligned run of pages that are all free. */
  ghost predicate FreeRun(o: Owner, p: nat, k: nat) {
    Aligned(p, k) && forall q: nat | p <= q < p + Pow2(k) :: q in o && o[q].free
  }

  ghost function Paint(o: Owner, b: Block): Owner {
    map p | p in o :: if InBlock(b, p) then b else o[p]
  }

  /** A free block is handed out whole. */
  ghost function Take(o: Owner, p: nat, k: nat): Owner {
    Paint(o, Block(p, k, false))
  }

  /** A handed-out block becomes a free one. */
  ghost function Give(o: Owner, p: nat, k: nat): Owner {
    Paint(o, Block(p, k, true))
  }

  /** A handed-out block of order `k + 1` becomes a handed-out lower and a free upper half. */
  ghost function Split(o: Owner, p: nat, k: nat): Owner {
    Paint(Paint(o, Block(p, k, false)), Block(p + Pow2(k), k, true))
  }

  function Parent(p: nat, k: nat): nat {
    if p < BuddyOf(p, k) then p else BuddyOf(p, k)
  }

  /** A handed-out block absorbs its free buddy. */
  ghost function Absorb(o: Owner, p: nat, k: nat): Owner {
    Paint(o, Block(Parent(p, k), k + 1, false))
  }

  // ----- The buddy function

  lemma BuddyFacts(p: nat, k: nat)
    requires Aligned(p, k)
    ensures BuddyOf(p, k) == if Aligned(p, k + 1) then p + Pow2(k) else p - Pow2(k)
    ensures Aligned(BuddyOf(p, k), k)
    ensures BuddyOf(BuddyOf(p, k), k) == p
    ensures Aligned(Parent(p, k), k + 1)
  {
    XorIsBuddy(p, k);
    AlignedStep(p, k);
    var q := BuddyOf(p, k);
    if Aligned(p, k + 1) {
      XorIsBuddy(q, k);
    } else {
      AlignedWeaken(q, k, k + 1);
      XorIsBuddy(q, k);
    }
  }

  // ----- Blocks do not straddle

  /** A page aligned to the order of its own block, or more, heads that block. */
  lemma AlignedPageHeads(o: Owner, p: nat, k: nat)
    requires Partition(o) && p in o && Aligned(p, k) && o[p].order <= k
    ensures o[p].head == p
  {
    var b := o[p];
    assert BlockAt(o, p);
    AlignedWeaken(p, b.order, k);
    if b.head < p {
      AlignedApart(b.head, p, b.order);
      assert false;
    }
  }

  /**
   Reading the metadata of a block's buddy is always meaningful: that page heads a block no larger
   than this one, or belongs to no block at all. Stale interior entries are never looked at.
  */
  lemma BuddyHeads(o: Owner, b: Block)
    requires Partition(o) && IsBlock(o, b)
    ensures BuddyOf(b.head, b.order) in o ==>
              var c := o[BuddyOf(b.head, b.order)]; c.head == BuddyOf(b.head, b.order) && c.order <= b.order
  {
    assert BlockAt(o, b.head);
    var q := BuddyOf(b.head, b.order);
    BuddyFacts(b.head, b.order);
    if q in o {
      assert BlockAt(o, q);
      var c := o[q];
      if c.order > b.order {
        EnclosesBuddy(b.head, b.order, c.head, c.order);
        assert false;
      }
      AlignedPageHeads(o, q, b.order);
    }
  }

  /** A larger block that contains one half of a pair contains the other half. */
  lemma EnclosesBuddy(p: nat, k: nat, h: nat, j: nat)
    requires k < j && Aligned(p, k) && Aligned(h, j) && h <= BuddyOf(p, k) < h + Pow2(j)
    ensures h <= p < h + Pow2(j)
  {
    BuddyFacts(p, k);
    var low := Parent(p, k);
    Pow2Monotonic(k, j);
    assert Pow2(k + 1) == 2 * Pow2(k);
    BlocksNest(low, k + 1, h, j);
  }

  // ----- Complete merging makes the free blocks a function of the free pages

  /** In a merged partition an aligned run of free pages lies inside one block. */
  lemma {:induction false} FreeRunIsOneBlock(o: Owner, p: nat, k: nat)
    requires Partition(o) && Merged(o) && k <= MAX_ORDER && FreeRun(o, p, k)
    ensures o[p].order >= k
    decreases k
  {
    Pow2Monotonic(0, k);
    assert p in o && o[p].free;
    assert BlockAt(o, p);
    var j := o[p].order;
    if j < k {
      AlignedPageHeads(o, p, k);
      assert FreeBlock(o, p, j);
      AlignedWeaken(p, j, k);
      AlignedWeaken(p, j + 1, k);
      var q := p + Pow2(j);
      Pow2Monotonic(j, k);
      assert q in o && o[q].free;
      BuddyFacts(p, j);
      assert FreeRun(o, q, j);
      FreeRunIsOneBlock(o, q, j);
      hide FreeRun, BlockAt, Aligned, Pow2;
      NotTwoHalves(o, p, q, j);
      assert false;
    }
  }

  /** A free block's other half does not lie in a free block of its size or more. */
  lemma NotTwoHalves(o: Owner, p: nat, q: nat, j: nat)
    requires Partition(o) && Merged(o) && j < MAX_ORDER && FreeBlock(o, p, j) && q == BuddyOf(p, j)
    ensures !(q in o && o[q].free && o[q].order >= j)
  {
    BuddyHeads(o, o[p]);
    hide Partition;
    assert NoFreeBuddy(o, p, j);
  }

  /** A free block of order at least `k` exists exactly when some aligned run of 2^k pages is free. */
  lemma FreeRunIffFreeBlock(o: Owner, k: nat)
    requires Partition(o) && Merged(o) && k <= MAX_ORDER
    ensures (exists p: nat :: FreeRun(o, p, k)) <==> (exists p: nat, j: nat :: k <= j && FreeBlock(o, p, j))
  {
    if p :| FreeRun(o, p, k) {
      FreeRunIsOneBlock(o, p, k);
      Pow2Monotonic(0, k);
      assert p in o && o[p].free;
      assert BlockAt(o, p);
      var b := o[p];
      assert FreeBlock(o, b.head, b.order);
    }
    if p, j :| k <= j && FreeBlock(o, p, j) {
      assert BlockAt(o, p);
      AlignedWeaken(p, k, j);
      Pow2Monotonic(k, j);
      assert FreeRun(o, p, k);
    }
  }

  /** Two merged partitions with the same free pages have the same free blocks. */
  lemma FreeBlocksDetermined(o1: Owner, o2: Owner)
    requires Partition(o1) && Merged(o1) && Partition(o2) && Merged(o2)
    requires FreePages(o1) == FreePages(o2)
    ensures forall p: nat, k: nat :: FreeBlock(o1, p, k) <==> FreeBlock(o2, p, k)
  {
    forall p, k
      ensures FreeBlock(o1, p, k) <==> FreeBlock(o2, p, k)
    {
      if FreeBlock(o1, p, k) {
        FreeBlockCarries(o1, o2, p, k);
      }
      if FreeBlock(o2, p, k) {
        FreeBlockCarries(o2, o1, p, k);
      }
    }
  }

  lemma FreeBlockCarries(o1: Owner, o2: Owner, p: nat, k: nat)
    requires Partition(o1) && Merged(o1) && Partition(o2) && Merged(o2)
    requires FreePages(o1) == FreePages(o2)
    requires FreeBlock(o1, p, k)
    ensures FreeBlock(o2, p, k)
  {
    assert BlockAt(o1, p);
    assert FreeRun(o2, p, k) by {
      forall q: nat | p <= q < p + Pow2(k)
        ensures q in o2 && o2[q].free
      {
        assert q in FreePages(o1);
        assert q in FreePages(o2);
      }
    }
    FreeRunIsOneBlock(o2, p, k);
    var b := o2[p];
    assert p in FreePages(o2);
    assert BlockAt(o2, p);
    assert FreeRun(o1, b.head, b.order) by {
      forall q: nat | b.head <= q < b.head + Pow2(b.order)
        ensures q in o1 && o1[q].free
      {
        assert q in FreePages(o2);
        assert q in FreePages(o1);
      }
    }
    FreeRunIsOneBlock(o1, b.head, b.order);
    var c := o1[b.head];
    assert BlockAt(o1, b.head);
    assert c.order >= b.order >= k;
    if c.order > k {
      BlocksNest(b.head, b.order, c.head, c.order);
      assert false;
    }
    AlignedPageHeads(o2, p, k);
  }

  // ----- What each step does to the free blocks

  lemma TakeFree(o: Owner, p: nat, k: nat)
    requires Partition(o) && FreeBlock(o, p, k)
    ensures forall q: nat, j: nat :: FreeBlock(Take(o, p, k), q, j) <==> FreeBlock(o, q, j) && q != p
  {
    assert BlockAt(o, p);
  }

  lemma SplitFree(o: Owner, p: nat, k: nat)
    requires Partition(o) && IsBlock(o, Block(p, k + 1, false))
    ensures forall q: nat, j: nat :: FreeBlock(Split(o, p, k), q, j) <==>
              FreeBlock(o, q, j) || (q == p + Pow2(k) && j == k)
  {
    assert BlockAt(o, p);
  }

  lemma AbsorbFree(o: Owner, p: nat, k: nat)
    requires Partition(o) && IsBlock(o, Block(p, k, false)) && FreeBlock(o, BuddyOf(p, k), k) && Aligned(p, k)
    ensures forall q: nat, j: nat :: FreeBlock(Absorb(o, p, k), q, j) <==> FreeBlock(o, q, j) && q != BuddyOf(p, k)
  {
    assert BlockAt(o, p);
    assert BlockAt(o, BuddyOf(p, k));
    BuddyFacts(p, k);
  }

  lemma GiveFree(o: Owner, p: nat, k: nat)
    requires Partition(o) && IsBlock(o, Block(p, k, false))
    ensures forall q: nat, j: nat :: FreeBlock(Give(o, p, k), q, j) <==> FreeBlock(o, q, j) || (q == p && j == k)
  {
    assert BlockAt(o, p);
  }

  /** One more free block, whose buddy is not free, keeps complete merging. */
  lemma MergedWithOneMore(o: Owner, o': Owner, m: nat, k: nat)
    requires Merged(o) && Partition(o')
    requires forall q: nat, j: nat :: FreeBlock(o', q, j) <==> FreeBlock(o, q, j) || (q == m && j == k)
    requires k < MAX_ORDER ==> NoFreeBuddy(o', m, k)
    ensures Merged(o')
  {
    forall q: nat, j: nat | FreeBlock(o', q, j) && j < MAX_ORDER
      ensures NoFreeBuddy(o', q, j)
    {
      FreeBlockAligned(o', q, j);
      BuddyFacts(q, j);
      hide FreeBlock, Partition;
      if !(q == m && j == k) {
        assert NoFreeBuddy(o, q, j);
      }
    }
  }

  lemma FreeBlockAligned(o: Owner, p: nat, k: nat)
    requires Partition(o) && FreeBlock(o, p, k)
    ensures Aligned(p, k) && k <= MAX_ORDER
  {
    assert BlockAt(o, p);
  }

  lemma MergedWithFewer(o: Owner, o': Owner)
    requires Merged(o) && forall q: nat, j: nat | FreeBlock(o', q, j) :: FreeBlock(o, q, j)
    ensures Merged(o')
  {
    hide FreeBlock;
    forall q: nat, j: nat | FreeBlock(o', q, j) && j < MAX_ORDER
      ensures NoFreeBuddy(o', q, j)
    {
      assert NoFreeBuddy(o, q, j);
    }
  }

  // ----- The four steps the allocator is made of

  lemma TakeKeeps(o: Owner, p: nat, k: nat)
    requires Partition(o) && Merged(o) && FreeBlock(o, p, k)
    ensures Partition(Take(o, p, k)) && Merged(Take(o, p, k))
  {
    assert BlockAt(o, p);
    PaintKeeps(o, Block(p, k, false));
    TakeFree(o, p, k);
    MergedWithFewer(o, Take(o, p, k));
  }

  lemma GiveKeeps(o: Owner, p: nat, k: nat)
    requires Partition(o) && Merged(o) && IsBlock(o, Block(p, k, false))
    requires k < MAX_ORDER ==> NoFreeBuddy(o, p, k)
    ensures Partition(Give(o, p, k)) && Merged(Give(o, p, k))
  {
    assert BlockAt(o, p);
    PaintKeeps(o, Block(p, k, true));
    GiveFree(o, p, k);
    BuddyFacts(p, k);
    MergedWithOneMore(o, Give(o, p, k), p, k);
  }

  /** Painting one block over a run of whole blocks keeps the partition. */
  lemma PaintKeeps(o: Owner, b: Block)
    requires Partition(o) && b.order <= MAX_ORDER && Aligned(b.head, b.order)
    requires forall p: nat | InBlock(b, p) :: p in o && (forall q: nat | InBlock(o[p], q) :: InBlock(b, q))
    ensures Partition(Paint(o, b))
  {
    var o' := Paint(o, b);
    forall p | p in o'
      ensures BlockAt(o', p)
    {
      assert BlockAt(o, p);
      if !InBlock(b, p) {
        forall q: nat | InBlock(o[p], q)
          ensures q in o' && o'[q] == o[p]
        {
          assert o[q] == o[p];
          assert !InBlock(b, q);
        }
      }
    }
  }

  lemma SplitKeeps(o: Owner, p: nat, k: nat)
    requires Partition(o) && Merged(o) && IsBlock(o, Block(p, k + 1, false))
    ensures Partition(Split(o, p, k)) && Merged(Split(o, p, k))
    ensures Aligned(p + Pow2(k), k)
  {
    assert BlockAt(o, p);
    AlignedWeaken(p, k, k + 1);
    AlignedStep(p, k);
    SplitPartitions(o, p, k);
    SplitMerges(o, p, k);
  }

  lemma SplitMerges(o: Owner, p: nat, k: nat)
    requires Partition(o) && Merged(o) && IsBlock(o, Block(p, k + 1, false)) && Partition(Split(o, p, k))
    requires Aligned(p, k) && Aligned(p, k + 1)
    ensures Merged(Split(o, p, k))
  {
    SplitFree(o, p, k);
    BuddyFacts(p, k);
    var mid := p + Pow2(k);
    assert BuddyOf(mid, k) == p;
    assert !FreeBlock(o, p, k);
    hide FreeBlock, Split, Partition, Merged, Aligned;
    MergedWithOneMore(o, Split(o, p, k), mid, k);
  }

  lemma SplitPartitions(o: Owner, p: nat, k: nat)
    requires Partition(o) && IsBlock(o, Block(p, k + 1, false))
    requires Aligned(p, k) && Aligned(p + Pow2(k), k)
    ensures Partition(Split(o, p, k))
  {
    var whole, lower, upper := Block(p, k + 1, false), Block(p, k, false), Block(p + Pow2(k), k, true);
    assert BlockAt(o, p);
    assert Pow2(k + 1) == 2 * Pow2(k);
    assert forall r: nat :: InBlock(whole, r) <==> InBlock(lower, r) || InBlock(upper, r);
    var o' := Split(o, p, k);
    assert forall r: nat | InBlock(lower, r) :: InBlock(whole, r) && r in o' && o'[r] == lower;
    assert forall r: nat | InBlock(upper, r) :: InBlock(whole, r) && r in o' && o'[r] == upper;
    forall q | q in o'
      ensures BlockAt(o', q)
    {
      if InBlock(lower, q) {
        PieceAt(o', lower, q);
      } else if InBlock(upper, q) {
        PieceAt(o', upper, q);
      } else {
        SplitLeavesOthers(o, o', whole, q);
      }
    }
  }

  lemma PieceAt(o: Owner, b: Block, q: nat)
    requires q in o && InBlock(b, q) && b.order <= MAX_ORDER && Aligned(b.head, b.order)
    requires forall r: nat | InBlock(b, r) :: r in o && o[r] == b
    ensures BlockAt(o, q)
  {
  }

  lemma SplitLeavesOthers(o: Owner, o': Owner, whole: Block, q: nat)
    requires Partition(o) && IsBlock(o, whole) && q in o && !InBlock(whole, q)
    requires forall r | r in o && !InBlock(whole, r) :: r in o' && o'[r] == o[r]
    ensures BlockAt(o', q)
  {
    assert BlockAt(o, q);
    assert BlockAt(o, whole.head);
    forall r: nat | InBlock(o[q], r)
      ensures r in o' && o'[r] == o[q]
    {
      assert o[r] == o[q];
    }
  }

  lemma AbsorbKeeps(o: Owner, p: nat, k: nat)
    requires Partition(o) && Merged(o) && IsBlock(o, Block(p, k, false))
    requires k < MAX_ORDER && FreeBlock(o, BuddyOf(p, k), k)
    ensures Partition(Absorb(o, p, k)) && Merged(Absorb(o, p, k))
  {
    assert BlockAt(o, p);
    assert BlockAt(o, BuddyOf(p, k));
    BuddyFacts(p, k);
    var b := Block(Parent(p, k), k + 1, false);
    assert Pow2(k + 1) == 2 * Pow2(k);
    forall q: nat | InBlock(b, q)
      ensures q in o && forall r: nat | InBlock(o[q], r) :: InBlock(b, r)
    {
      assert InBlock(Block(p, k, false), q) || InBlock(Block(BuddyOf(p, k), k, true), q);
    }
    PaintKeeps(o, b);
    AbsorbFree(o, p, k);
    MergedWithFewer(o, Absorb(o, p, k));
  }
}
