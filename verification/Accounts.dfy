/**
 What the heap's clients hold. A ghost map `live` goes from address to the layout it was asked for;
 here is how it accounts for every slot in use and every handed-out block, and why no allocator
 operation writes a word of it.
*/
module Accounts {
  import opened Wrappers
  import opened Bits
  import opened Ram
  import opened Sequences
  import opened Blocks
  import opened Pages
  import opened Regions
  import opened Frames
  import opened Slabs
  import opened Cache

  // ----- Requests

  /** `usize::next_power_of_two`. */
  function NextPowerOfTwo(n: nat): nat {
    if n <= 1 then 1 else Pow2(ILog2(n - 1) + 1)
  }

  /** The order that serves a layout no slab class does: enough pages, and as aligned as asked. */
  function OrderOf(layout: Layout): nat
  {
    NextPowerPositive(Max(DivCeil(layout.size, PAGE_SIZE), DivCeil(layout.Align(), PAGE_SIZE)));
    ILog2(NextPowerOfTwo(Max(DivCeil(layout.size, PAGE_SIZE), DivCeil(layout.Align(), PAGE_SIZE))))
  }

  lemma NextPowerPositive(n: nat)
    ensures NextPowerOfTwo(n) >= 1
  {
  }

  lemma {:induction false} ILog2OfPow2(k: nat)
    ensures ILog2(Pow2(k)) == k
  {
    if k > 0 {
      ILog2OfPow2(k - 1);
    }
  }

  /** The order chosen is the least that holds the request and keeps its alignment. */
  lemma OrderIsLeast(layout: Layout, k: nat)
    ensures Pow2(k) * PAGE_SIZE >= layout.size && Pow2(k) * PAGE_SIZE >= layout.Align() <==> k >= OrderOf(layout)
  {
    var n := Max(DivCeil(layout.size, PAGE_SIZE), DivCeil(layout.Align(), PAGE_SIZE));
    assert Pow2(k) >= n <==> Pow2(k) * PAGE_SIZE >= layout.size && Pow2(k) * PAGE_SIZE >= layout.Align();
    if n <= 1 {
      assert ILog2(1) == 0;
    } else {
      ILog2OfPow2(ILog2(n - 1) + 1);
      ILog2IsFit(n - 1, k);
    }
  }

  // ----- What a live allocation is

  type Live = map<nat, Layout>

  function SlotIndex(a: nat, c: nat): nat
    requires c < CLASSES_COUNT
  {
    a % PAGE_SIZE / CLASSES[c]
  }

  /** The address is a slot in use of a slab of its class, or heads a handed-out block of its order. */
  ghost predicate LiveOk(a: nat, layout: Layout, slabs: SlabMap, o: Owner) {
    var p := a / PAGE_SIZE;
    match ClassOf(layout)
    case Some(c) =>
      && c < CLASSES_COUNT && InUseSlot(slabs, p, SlotIndex(a, c)) && slabs[p].class_ == c
      && a == SlotAddr(p, c, SlotIndex(a, c))
    case None =>
      a == p * PAGE_SIZE && p !in slabs && p in o && o[p] == Block(p, OrderOf(layout), false)
  }

  /** The live map names every slot in use and every handed-out block, and nothing else. */
  ghost predicate Accounted(live: Live, slabs: SlabMap, o: Owner) {
    && (forall a | a in live :: LiveOk(a, live[a], slabs, o))
    && (forall p: nat, s: nat | InUseSlot(slabs, p, s) :: SlotAddr(p, slabs[p].class_, s) in live)
    && (forall p: nat | p in o && o[p].head == p && !o[p].free && p !in slabs :: p * PAGE_SIZE in live)
  }

  /** Words set aside for an allocation: its whole slot, or its whole block. */
  function WordCount(layout: Layout): nat {
    ClassOfFacts(layout);
    match ClassOf(layout)
    case Some(c) => SlotWords(c)
    case None => Pow2(OrderOf(layout)) * PAGE_WORDS
  }

  /** Word `i` belongs to the allocation at `a`. */
  predicate InFootprint(a: nat, layout: Layout, i: nat) {
    a / 8 <= i < a / 8 + WordCount(layout)
  }

  /** The words set aside hold the bytes asked for. */
  lemma FootprintHolds(layout: Layout)
    ensures WordCount(layout) * 8 >= layout.size
  {
    ClassOfFacts(layout);
    match ClassOf(layout)
    case Some(c) => ShiftIsClass(c);
    case None => OrderIsLeast(layout, OrderOf(layout));
  }

  lemma SlotIndexOfAddr(p: nat, c: nat, s: nat)
    requires c < CLASSES_COUNT && s < SlotCount(c)
    ensures var a := SlotAddr(p, c, s); a / PAGE_SIZE == p && SlotIndex(a, c) == s
  {
    SlotPlace(p, c, s);
    SlotOfAddr(p, c, s);
    ShiftIsClass(c);
  }

  /** An allocation's words lie in its own slab page, or in its own block. */
  lemma FootprintPlace(a: nat, layout: Layout, slabs: SlabMap, o: Owner, i: nat)
    requires LiveOk(a, layout, slabs, o) && Owned(slabs, o) && Partition(o) && InFootprint(a, layout, i)
    ensures i / PAGE_WORDS in o && !o[i / PAGE_WORDS].free && o[i / PAGE_WORDS].head == a / PAGE_SIZE
    ensures ClassOf(layout).Some? ==>
              && i / PAGE_WORDS == a / PAGE_SIZE && a / PAGE_SIZE in slabs
              && var p, c := a / PAGE_SIZE, ClassOf(layout).value;
              && c < CLASSES_COUNT && SlotIndex(a, c) < SlotCount(c)
              && SlotWord(p, c, SlotIndex(a, c)) <= i < SlotWord(p, c, SlotIndex(a, c)) + SlotWords(c)
    ensures ClassOf(layout).None? ==> i / PAGE_WORDS !in slabs && a / PAGE_SIZE !in slabs
  {
    var p := a / PAGE_SIZE;
    match ClassOf(layout) {
      case Some(c) =>
        SlotPlace(p, c, SlotIndex(a, c));
      case None =>
        assert BlockAt(o, p);
        var b := o[p];
        assert i / PAGE_WORDS < p + Pow2(b.order);
        assert InBlock(b, i / PAGE_WORDS);
    }
  }

  /** Two live allocations share no word. */
  lemma LiveApart(a: nat, la: Layout, b: nat, lb: Layout, slabs: SlabMap, o: Owner, i: nat)
    requires LiveOk(a, la, slabs, o) && LiveOk(b, lb, slabs, o) && Owned(slabs, o) && Partition(o)
    requires InFootprint(a, la, i) && InFootprint(b, lb, i)
    ensures a == b
  {
    FootprintPlace(a, la, slabs, o, i);
    FootprintPlace(b, lb, slabs, o, i);
    if ClassOf(la).Some? && ClassOf(lb).Some? {
      var c, p := ClassOf(la).value, a / PAGE_SIZE;
      SameSlot(p, c, SlotIndex(a, c), SlotIndex(b, c), i);
    }
  }

  lemma SameSlot(p: nat, c: nat, s: nat, u: nat, i: nat)
    requires c < CLASSES_COUNT && s < SlotCount(c) && u < SlotCount(c)
    requires SlotWord(p, c, s) <= i < SlotWord(p, c, s) + SlotWords(c)
    requires SlotWord(p, c, u) <= i < SlotWord(p, c, u) + SlotWords(c)
    ensures s == u
  {
    if s != u {
      SlotsApart(p, c, if s < u then s else u, if s < u then u else s);
    }
  }

  // ----- Alignment of what is handed out

  lemma {:induction false} AlignedTimes(n: nat, j: nat, k: nat)
    requires Aligned(n, j)
    ensures Aligned(n * Pow2(k), j + k)
  {
    if k > 0 {
      AlignedTimes(n, j, k - 1);
      TwiceTimes(n, Pow2(k - 1));
      AlignedTwice(n * Pow2(k - 1), j + k - 1);
    }
  }

  lemma TwiceTimes(n: nat, m: nat)
    ensures n * (2 * m) == 2 * (n * m)
  {
  }

  lemma AlignedTwice(n: nat, k: nat)
    requires Aligned(n, k)
    ensures Aligned(2 * n, k + 1)
  {
    assert 2 * n / 2 == n;
  }

  lemma Pow2Order(j: nat, k: nat)
    requires Pow2(j) <= Pow2(k)
    ensures j <= k
  {
    if k < j {
      Pow2Monotonic(k, j);
    }
  }

  /** Every address the heap hands out has the alignment asked for. */
  lemma LiveAligned(a: nat, layout: Layout, slabs: SlabMap, o: Owner)
    requires LiveOk(a, layout, slabs, o) && Partition(o)
    ensures a % layout.Align() == 0
  {
    ClassOfFacts(layout);
    match ClassOf(layout) {
      case Some(c) => SlotAligned(a / PAGE_SIZE, c, SlotIndex(a, c), layout.alignLog);
      case None =>
        assert BlockAt(o, a / PAGE_SIZE);
        BlockAligned(a / PAGE_SIZE, OrderOf(layout), layout);
    }
  }

  lemma SlotAligned(p: nat, c: nat, s: nat, m: nat)
    requires c < CLASSES_COUNT && s < SlotCount(c) && CLASSES[c] % Pow2(m) == 0
    ensures SlotAddr(p, c, s) % Pow2(m) == 0
  {
    ShiftIsClass(c);
    var k := SHIFTS[c];
    DivisorIsSmall(CLASSES[c], Pow2(m));
    Pow2Order(m, k);
    var n := SlotMultiple(p, c, s);
    hide SlotAddr, SlotCount;
    AlignedTimes(n, 0, k);
    AlignedWeaken(n * Pow2(k), m, k);
    AlignedIsDivisible(n * Pow2(k), m);
  }

  lemma DivisorIsSmall(n: nat, d: nat)
    requires n >= 1 && d >= 1 && n % d == 0
    ensures d <= n
  {
  }

  lemma SlotMultiple(p: nat, c: nat, s: nat) returns (n: nat)
    requires c < CLASSES_COUNT && s < SlotCount(c)
    ensures SlotAddr(p, c, s) == n * Pow2(SHIFTS[c])
  {
    ShiftIsClass(c);
    n := p * SlotCount(c) + s;
    SlotPlace(p, c, s);
    hide SlotAddr, SlotCount;
    Distribute(p, SlotCount(c), s, CLASSES[c]);
  }

  lemma Distribute(p: nat, x: nat, s: nat, y: nat)
    ensures (p * x + s) * y == p * (x * y) + s * y
  {
  }

  lemma BlockAligned(p: nat, k: nat, layout: Layout)
    requires Aligned(p, k) && k == OrderOf(layout)
    ensures (p * PAGE_SIZE) % layout.Align() == 0
  {
    OrderIsLeast(layout, k);
    Pow2Table();
    AlignedTimes(p, k, 12);
    Pow2Split(k, 12);
    Pow2Order(layout.alignLog, k + 12);
    AlignedWeaken(p * PAGE_SIZE, layout.alignLog, k + 12);
    AlignedIsDivisible(p * PAGE_SIZE, layout.alignLog);
  }

  lemma {:induction false} Pow2Split(j: nat, k: nat)
    ensures Pow2(j + k) == Pow2(j) * Pow2(k)
  {
    if k > 0 {
      Pow2Split(j, k - 1);
    }
  }

  // ----- Each operation keeps the account

  lemma SlabAllocAccounted(live: Live, slabs: SlabMap, slabs': SlabMap, o: Owner, o': Owner, p: nat, c: nat, s: nat,
                           layout: Layout)
    requires Accounted(live, slabs, o) && Owned(slabs, o)
    requires SlotTaken(slabs, slabs', p, c, s) && Distinct([s] + slabs'[p].chain) && ClassOf(layout) == Some(c)
    requires if p in slabs then o' == o else Allocated(o, o', p, 0) && FreePage(o, p)
    ensures SlotAddr(p, c, s) !in live
    ensures Accounted(live[SlotAddr(p, c, s) := layout], slabs', o')
  {
    var a := SlotAddr(p, c, s);
    var live' := live[a := layout];
    SlotIndexOfAddr(p, c, s);
    assert ([s] + slabs'[p].chain)[0] == s && s !in slabs'[p].chain by {
      assert forall i | 0 <= i < |slabs'[p].chain| :: slabs'[p].chain[i] == ([s] + slabs'[p].chain)[i + 1];
    }
    assert a in live ==> LiveOk(a, live[a], slabs, o);
    forall b | b in live'
      ensures LiveOk(b, live'[b], slabs', o')
    {
      if b != a {
        assert LiveOk(b, live[b], slabs, o);
        LiveStaysTaken(b, live[b], slabs, slabs', o, o', p, c, s);
      }
    }
    forall q: nat, u: nat | InUseSlot(slabs', q, u)
      ensures SlotAddr(q, slabs'[q].class_, u) in live'
    {
      NewlyInUse(slabs, slabs', p, c, s, q, u);
    }
    forall q: nat | q in o' && o'[q].head == q && !o'[q].free && q !in slabs'
      ensures q * PAGE_SIZE in live'
    {
      assert q in o && o[q] == o'[q];
    }
  }

  lemma NewlyInUse(slabs: SlabMap, slabs': SlabMap, p: nat, c: nat, s: nat, q: nat, u: nat)
    requires SlotTaken(slabs, slabs', p, c, s) && InUseSlot(slabs', q, u)
    ensures (q == p && u == s) || (InUseSlot(slabs, q, u) && slabs[q].class_ == slabs'[q].class_)
  {
    if q == p {
      assert u == AllSlots(SlotCount(c))[u];
    }
  }

  lemma LiveStaysTaken(b: nat, layout: Layout, slabs: SlabMap, slabs': SlabMap, o: Owner, o': Owner, p: nat, c: nat,
                       s: nat)
    requires LiveOk(b, layout, slabs, o) && SlotTaken(slabs, slabs', p, c, s) && Owned(slabs, o)
    requires if p in slabs then o' == o else Allocated(o, o', p, 0) && FreePage(o, p)
    ensures LiveOk(b, layout, slabs', o')
  {
    var q := b / PAGE_SIZE;
    if ClassOf(layout).Some? && q == p {
      assert forall x | x in slabs'[p].chain :: x in slabs[p].chain;
    }
  }

  lemma PageAllocAccounted(live: Live, slabs: SlabMap, o: Owner, o': Owner, p: nat, layout: Layout)
    requires Accounted(live, slabs, o) && Owned(slabs, o) && Partition(o')
    requires ClassOf(layout).None? && Allocated(o, o', p, OrderOf(layout))
    ensures p * PAGE_SIZE !in live && Owned(slabs, o') && (forall q | q in slabs :: !FreePage(o', q) && q != p)
    ensures Accounted(live[p * PAGE_SIZE := layout], slabs, o')
  {
    hide ClassOf, OrderOf, FreeRun, InUseSlot, SlotAddr, SlotIndex, Partition, Allocated;
    if p * PAGE_SIZE in live {
      LivePageUsed(p * PAGE_SIZE, live[p * PAGE_SIZE], slabs, o);
    }
    var live' := live[p * PAGE_SIZE := layout];
    AllocatedSpares(o, o', p, OrderOf(layout));
    forall b | b in live'
      ensures LiveOk(b, live'[b], slabs, o')
    {
      if b != p * PAGE_SIZE {
        assert LiveOk(b, live[b], slabs, o);
      }
    }
  }

  lemma LivePageUsed(a: nat, layout: Layout, slabs: SlabMap, o: Owner)
    requires LiveOk(a, layout, slabs, o) && Owned(slabs, o)
    ensures a / PAGE_SIZE in o && !FreePage(o, a / PAGE_SIZE)
  {
  }

  /** No slot of any slab starts at a page that is not a slab's. */
  lemma SlotsElsewhere(slabs: SlabMap, p: nat)
    requires p !in slabs
    ensures forall q: nat, u: nat | InUseSlot(slabs, q, u) :: SlotAddr(q, slabs[q].class_, u) != p * PAGE_SIZE
  {
    forall q: nat, u: nat | InUseSlot(slabs, q, u)
      ensures SlotAddr(q, slabs[q].class_, u) != p * PAGE_SIZE
    {
      SlotNotBase(q, slabs[q].class_, u);
    }
  }

  /** A block handed out was free, and every block handed out before is as it was. */
  lemma AllocatedSpares(o: Owner, o': Owner, p: nat, k: nat)
    requires Allocated(o, o', p, k)
    ensures FreePage(o, p) && p in o' && o'[p] == Block(p, k, false)
    ensures forall q | q in o && !o[q].free :: q in o' && o'[q] == o[q]
    ensures forall q | q in o' && o'[q].head == q && !o'[q].free && q != p :: q in o && o[q] == o'[q]
    ensures forall q | q in o' && !o'[q].free && o'[q].head != p :: q in o && o[q] == o'[q]
  {
    assert InBlock(Block(p, k, false), p);
    forall q | q in o && !o[q].free
      ensures q in o' && o'[q] == o[q]
    {
      assert !InBlock(Block(p, k, false), q);
    }
  }

  lemma SlabFreeAccounted(live: Live, slabs: SlabMap, slabs': SlabMap, o: Owner, o': Owner, p: nat, s: nat)
    requires Accounted(live, slabs, o) && Owned(slabs, o) && SlotGivenBack(slabs, slabs', o, o', p, s)
    requires Distinct(slabs[p].chain) && forall x | x in slabs[p].chain :: x < SlotCount(slabs[p].class_)
    ensures Accounted(live - {SlotAddr(p, slabs[p].class_, s)}, slabs', o')
  {
    var c := slabs[p].class_;
    var a := SlotAddr(p, c, s);
    var live' := live - {a};
    SlotIndexOfAddr(p, c, s);
    forall b | b in live'
      ensures LiveOk(b, live'[b], slabs', o')
    {
      assert LiveOk(b, live[b], slabs, o);
      LiveStaysGiven(b, live[b], slabs, slabs', o, o', p, s);
    }
    forall q: nat, u: nat | InUseSlot(slabs', q, u)
      ensures SlotAddr(q, slabs'[q].class_, u) in live'
    {
      assert InUseSlot(slabs, q, u);
      SlotIndexOfAddr(q, slabs[q].class_, u);
    }
    GivenSpares(slabs, slabs', o, o', p, s);
    SlotNotBase(p, c, s);
  }

  lemma SlotNotBase(p: nat, c: nat, s: nat)
    requires c < CLASSES_COUNT && s < SlotCount(c)
    ensures forall q: nat | q != p :: q * PAGE_SIZE != SlotAddr(p, c, s)
  {
    SlotPlace(p, c, s);
    forall q: nat | q != p
      ensures q * PAGE_SIZE != SlotAddr(p, c, s)
    {
      assert (q * PAGE_SIZE) / PAGE_SIZE == q;
    }
  }

  lemma GivenSpares(slabs: SlabMap, slabs': SlabMap, o: Owner, o': Owner, p: nat, s: nat)
    requires SlotGivenBack(slabs, slabs', o, o', p, s) && Owned(slabs, o)
    ensures forall q | q in o' && o'[q].head == q && !o'[q].free && q !in slabs' ::
              q in o && o[q] == o'[q] && q !in slabs && q != p
    ensures forall q | q in o && !o[q].free && o[q].head != p :: q in o' && o'[q] == o[q]
  {
    assert InBlock(Block(p, 0, false), p);
    forall q | q in o && !o[q].free && o[q].head != p
      ensures q in o' && o'[q] == o[q]
    {
      assert InBlock(Block(p, 0, false), q) ==> q == p;
    }
  }

  lemma LiveStaysGiven(b: nat, layout: Layout, slabs: SlabMap, slabs': SlabMap, o: Owner, o': Owner, p: nat, s: nat)
    requires LiveOk(b, layout, slabs, o) && SlotGivenBack(slabs, slabs', o, o', p, s) && Owned(slabs, o)
    requires b != SlotAddr(p, slabs[p].class_, s)
    requires Distinct(slabs[p].chain) && forall x | x in slabs[p].chain :: x < SlotCount(slabs[p].class_)
    ensures LiveOk(b, layout, slabs', o')
  {
    var q, c := b / PAGE_SIZE, slabs[p].class_;
    GivenSpares(slabs, slabs', o, o', p, s);
    if ClassOf(layout).Some? && q == p {
      var u := SlotIndex(b, c);
      var chain := [s] + slabs[p].chain;
      PushFacts(slabs[p].chain, s);
      DistinctBounded(chain, SlotCount(c));
      assert u !in chain;
    }
  }

  lemma PageFreeAccounted(live: Live, slabs: SlabMap, o: Owner, o': Owner, p: nat, k: nat)
    requires Accounted(live, slabs, o) && Owned(slabs, o) && Partition(o) && p !in slabs && Released(o, o', p, k)
    ensures Owned(slabs, o') && (forall q | q in slabs :: !FreePage(o', q))
    ensures Accounted(live - {p * PAGE_SIZE}, slabs, o')
  {
    hide ClassOf, OrderOf, SlotAddr, SlotIndex, InUseSlot, Released, Partition;
    SlotsElsewhere(slabs, p);
    ReleasedSpares(o, o', p, k);
    var live' := live - {p * PAGE_SIZE};
    forall b | b in live'
      ensures LiveOk(b, live'[b], slabs, o')
    {
      assert LiveOk(b, live[b], slabs, o);
    }
  }

  lemma ReleasedSpares(o: Owner, o': Owner, p: nat, k: nat)
    requires Released(o, o', p, k) && Partition(o)
    ensures p in o && o[p] == Block(p, k, false)
    ensures forall q | q in o && !o[q].free && o[q].head != p :: q in o' && o'[q] == o[q]
    ensures forall q | q in o' && !o'[q].free :: q in o && o[q] == o'[q] && o[q].head != p
  {
    var b := Block(p, k, false);
    assert BlockAt(o, p);
    forall q | q in o && !o[q].free && o[q].head != p
      ensures q in o' && o'[q] == o[q]
    {
      assert BlockAt(o, q);
    }
    forall q | q in o' && !o'[q].free
      ensures q in o && o[q] == o'[q] && o[q].head != p
    {
      assert BlockAt(o, q);
    }
  }

  // ----- No operation touches live data

  /** No word of a live allocation differs. */
  ghost predicate KeepsData(w: seq<Word>, w': seq<Word>, live: Live) {
    && |w'| == |w|
    && forall a: nat, i: nat {:trigger InFootprint(a, live[a], i)} | a in live && InFootprint(a, live[a], i) ::
         i < |w| && w'[i] == w[i]
  }

  /** Live words are in memory, in pages that are not free, and not in the table. */
  lemma LiveWords(w: seq<Word>, t: Table, live: Live, slabs: SlabMap, o: Owner, a: nat, i: nat)
    requires Accounted(live, slabs, o) && Owned(slabs, o) && Partition(o) && Placed(|w|, t, o)
    requires a in live && InFootprint(a, live[a], i)
    ensures i < |w| && !t.Holds(i) && i / PAGE_WORDS in o && !FreePage(o, i / PAGE_WORDS)
  {
    assert LiveOk(a, live[a], slabs, o);
    FootprintPlace(a, live[a], slabs, o, i);
  }

  lemma SlabAllocKeepsData(w: seq<Word>, w': seq<Word>, t: Table, live: Live, slabs: SlabMap, o: Owner, o': Owner,
                           p: nat)
    requires Accounted(live, slabs, o) && Owned(slabs, o) && Partition(o) && Placed(|w|, t, o)
    requires SlabQuiet(w, w', t, o', NewIn(slabs, p))
    requires if p in slabs then o' == o else Allocated(o, o', p, 0) && FreePage(o, p)
    ensures KeepsData(w, w', live)
  {
    if p !in slabs {
      AllocatedSpares(o, o', p, 0);
    }
    hide Allocated, Accounted, Owned, Partition, Placed, InFootprint, FreePage;
    forall a: nat, i: nat {:trigger InFootprint(a, live[a], i)} | a in live && InFootprint(a, live[a], i)
      ensures i < |w| && w'[i] == w[i]
    {
      LiveWords(w, t, live, slabs, o, a, i);
      UsedStays(o, o', slabs, p, i / PAGE_WORDS);
    }
  }

  lemma UsedStays(o: Owner, o': Owner, slabs: SlabMap, p: nat, q: nat)
    requires if p in slabs then o' == o else FreePage(o, p) && forall r | r in o && !o[r].free ::
               r in o' && o'[r] == o[r]
    requires q in o && !FreePage(o, q)
    ensures !FreePage(o', q) && Some(q) != NewIn(slabs, p)
  {
  }

  lemma PageAllocKeepsData(w: seq<Word>, w': seq<Word>, t: Table, live: Live, slabs: SlabMap, o: Owner, o': Owner,
                           p: nat, k: nat)
    requires Accounted(live, slabs, o) && Owned(slabs, o) && Partition(o) && Placed(|w|, t, o)
    requires Quiet(w, w', t, o', Some(p)) && Allocated(o, o', p, k)
    ensures KeepsData(w, w', live)
  {
    hide Accounted, Owned, Partition, Placed, InFootprint, MayWrite, FreePage, Allocated;
    StillUsed(o, o', p, k);
    forall a: nat, i: nat {:trigger InFootprint(a, live[a], i)} | a in live && InFootprint(a, live[a], i)
      ensures i < |w| && w'[i] == w[i]
    {
      LiveWords(w, t, live, slabs, o, a, i);
      UsedNotWritten(t, o', Some(p), i);
    }
  }

  /** A page in use when a block is handed out stays in use. */
  lemma StillUsed(o: Owner, o': Owner, p: nat, k: nat)
    requires Allocated(o, o', p, k)
    ensures forall q: nat | q in o && !FreePage(o, q) :: !FreePage(o', q)
  {
    AllocatedSpares(o, o', p, k);
  }

  lemma UsedNotWritten(t: Table, o: Owner, result: Option<nat>, i: nat)
    requires !t.Holds(i) && !FreePage(o, i / PAGE_WORDS)
    ensures !MayWrite(t, o, result, i)
  {
  }

  lemma SlabFreeKeepsData(w: seq<Word>, w': seq<Word>, t: Table, live: Live, slabs: SlabMap, slabs': SlabMap,
                          o: Owner, o': Owner, p: nat, s: nat, layout: Layout)
    requires Accounted(live, slabs, o) && Owned(slabs, o) && Partition(o) && Placed(|w|, t, o)
    requires SlotGivenBack(slabs, slabs', o, o', p, s) && SlotQuiet(w, w', t, o', SlotWord(p, slabs[p].class_, s))
    requires Distinct(slabs[p].chain) && forall x | x in slabs[p].chain :: x < SlotCount(slabs[p].class_)
    requires ClassOf(layout) == Some(slabs[p].class_)
    requires var a := SlotAddr(p, slabs[p].class_, s); a in live && live[a] == layout
    ensures KeepsData(w, w', live - {SlotAddr(p, slabs[p].class_, s)})
  {
    var c := slabs[p].class_;
    var f := SlotAddr(p, c, s);
    FirstWord(p, c, s, layout);
    hide InFootprint, SlotWord, SlotAddr, SlotCount, SlotGivenBack, Partition, Owned, Placed, LiveOk, Accounted,
      FreePage;
    AccountedOne(live, slabs, o, f);
    forall a: nat, i: nat {:trigger InFootprint(a, live[a], i)} | a in live && a != f && InFootprint(a, live[a], i)
      ensures i < |w| && w'[i] == w[i]
    {
      LiveWords(w, t, live, slabs, o, a, i);
      AccountedOne(live, slabs, o, a);
      SlotFreeMisses(slabs, slabs', o, o', a, live[a], layout, i, p, s);
    }
  }

  /** A slot's first word is its own. */
  lemma FirstWord(p: nat, c: nat, s: nat, layout: Layout)
    requires c < CLASSES_COUNT && s < SlotCount(c) && ClassOf(layout) == Some(c)
    ensures InFootprint(SlotAddr(p, c, s), layout, SlotWord(p, c, s))
  {
    SlotPlace(p, c, s);
    ShiftIsClass(c);
  }

  /** A word of another live allocation is not the freed slot's, and its page is not given up. */
  lemma SlotFreeMisses(slabs: SlabMap, slabs': SlabMap, o: Owner, o': Owner, a: nat, la: Layout, lf: Layout, i: nat,
                       p: nat, s: nat)
    requires Owned(slabs, o) && Partition(o) && SlotGivenBack(slabs, slabs', o, o', p, s)
    requires Distinct(slabs[p].chain) && forall x | x in slabs[p].chain :: x < SlotCount(slabs[p].class_)
    requires var f := SlotAddr(p, slabs[p].class_, s); a != f && LiveOk(f, lf, slabs, o)
    requires LiveOk(a, la, slabs, o) && InFootprint(a, la, i)
    ensures !InFootprint(SlotAddr(p, slabs[p].class_, s), lf, i) && !FreePage(o', i / PAGE_WORDS)
  {
    var f := SlotAddr(p, slabs[p].class_, s);
    FootprintPlace(a, la, slabs, o, i);
    if InFootprint(f, lf, i) {
      LiveApart(a, la, f, lf, slabs, o, i);
    }
    LiveStaysGiven(a, la, slabs, slabs', o, o', p, s);
    GivenSpares(slabs, slabs', o, o', p, s);
    GivenOwned(slabs, slabs', o, o', p, s);
  }

  lemma GivenOwned(slabs: SlabMap, slabs': SlabMap, o: Owner, o': Owner, p: nat, s: nat)
    requires Owned(slabs, o) && SlotGivenBack(slabs, slabs', o, o', p, s)
    ensures p in slabs' ==> !FreePage(o', p)
  {
  }

  lemma PageFreeKeepsData(w: seq<Word>, w': seq<Word>, t: Table, live: Live, slabs: SlabMap, o: Owner, o': Owner,
                          p: nat, k: nat)
    requires Accounted(live, slabs, o) && Owned(slabs, o) && Partition(o) && Placed(|w|, t, o)
    requires Quiet(w, w', t, o', None) && Released(o, o', p, k) && p !in slabs
    ensures KeepsData(w, w', live - {p * PAGE_SIZE})
  {
    ReleasedSpares(o, o', p, k);
    hide Released, Accounted, Owned, Partition, Placed, InFootprint, MayWrite, LiveOk;
    forall a: nat, i: nat {:trigger InFootprint(a, live[a], i)} | a in live && a != p * PAGE_SIZE &&
      InFootprint(a, live[a], i)
      ensures i < |w| && w'[i] == w[i]
    {
      LiveWords(w, t, live, slabs, o, a, i);
      AccountedOne(live, slabs, o, a);
      FootprintPlace(a, live[a], slabs, o, i);
      OtherHead(a, live[a], slabs, o, p);
      UsedNotWritten(t, o', None, i);
    }
  }

  lemma AccountedOne(live: Live, slabs: SlabMap, o: Owner, a: nat)
    requires Accounted(live, slabs, o) && a in live
    ensures LiveOk(a, live[a], slabs, o)
  {
  }

  /** A live allocation in another place is in another block. */
  lemma OtherHead(a: nat, layout: Layout, slabs: SlabMap, o: Owner, p: nat)
    requires LiveOk(a, layout, slabs, o) && p !in slabs && a != p * PAGE_SIZE
    ensures a / PAGE_SIZE != p
  {
  }
}
