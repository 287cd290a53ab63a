/**
 When a range can be mapped at all, and how many tables that takes (src/arch/aarch64/mmu/mod.rs): the
 exact conditions under which `map_range` succeeds.
*/
module Costs {
  import opened Wrappers
  import opened Ram
  import opened Bits
  import opened Levels
  import opened Descriptors
  import opened Trees
  import opened RangeSteps
  import opened Leaves

  // ----- The tables a range needs

  /** The place of a table of level `m` that translates `x`. */
  function Around(m: Level, x: nat): Place {
    Place(m, x - x % m.Span())
  }

  /** The places below `p` that lie across an end of the range. */
  ghost function Ends(p: Place, lo: nat, hi: nat): set<Place> {
    if lo >= hi then {}
    else set m: Level, x: nat | x in {lo, hi} && m.Number() > p.level.Number() && x % m.Span() != 0 :: Around(m, x)
  }

  /** Those of them that have no table yet. */
  ghost function Needed(place: Places, t: nat, lo: nat, hi: nat): set<Place>
    requires t in place
  {
    Ends(place[t], lo, hi) - place.Values
  }

  lemma AroundIs(size: nat, start: nat, x: nat)
    requires size >= 1 && start % size == 0 && start <= x < start + size
    ensures x - x % size == start && x % size == x - start
  {
    QuotientIsNat(start, size);
    DivUnique(x, size, start / size, x - start);
  }

  lemma BetweenMultiples(i: nat, q: nat, j: nat, size: nat, r: nat)
    requires 0 < r < size && i * size <= q * size + r <= j * size
    ensures i * size <= q * size && q * size + size <= j * size
  {
    if q < i {
      MulMono(q + 1, i, size);
    }
    if j <= q {
      MulMono(j, q, size);
    }
    MulMono(i, q, size);
    MulMono(q + 1, j, size);
  }

  lemma Quotients(x: nat, size: nat) returns (q: nat)
    requires size >= 1
    ensures x == q * size + x % size && x % size < size && (x - x % size) % size == 0
  {
    QuotientIsNat(x, size);
    q := x / size;
    MultipleMod(q, size);
  }

  /** Between two multiples, what lies around a number that is none stays between them. */
  lemma AroundInside(size: nat, a: nat, b: nat, x: nat)
    requires size >= 1 && a % size == 0 && b % size == 0 && a <= x <= b && x % size != 0
    ensures a <= x - x % size && x - x % size + size <= b && x - x % size < x < x - x % size + size
    ensures (x - x % size) % size == 0
  {
    var i := Quotients(a, size);
    var j := Quotients(b, size);
    var q := Quotients(x, size);
    BetweenMultiples(i, q, j, size, x % size);
  }

  lemma Divides(a: nat, big: nat, factor: nat, small: nat)
    requires small >= 1 && big >= 1 && big == factor * small && a % big == 0
    ensures a % small == 0
  {
    var q := Quotients(a, big);
    assert a == q * (factor * small) == (q * factor) * small;
    MultipleMod(q * factor, small);
  }

  /** How many of the finer tables' ranges make up the coarser one's. */
  function Ratio(l: Level, m: Level): nat {
    if l.Number() + 1 == m.Number() then SLOTS else if l.Number() + 2 == m.Number() then SLOTS * SLOTS else 1
  }

  lemma RatioOf(l: Level, m: Level)
    requires m.Number() > l.Number()
    ensures l.Span() == Ratio(l, m) * m.Span() && m.Span() >= 1
  {
  }

  lemma NextMultiple(a: nat, size: nat)
    requires size >= 1 && a % size == 0
    ensures (a + size) % size == 0
  {
    var q := Quotients(a, size);
    assert a + size == (q + 1) * size;
    MultipleMod(q + 1, size);
  }

  /** A table's range starts and ends on the ranges of finer tables. */
  lemma SpanEdges(p: Place, m: Level)
    requires GoodPlace(p) && m.Number() > p.level.Number()
    ensures p.start % m.Span() == 0 && p.End() % m.Span() == 0
  {
    RatioOf(p.level, m);
    hide Level.Span, Ratio;
    NextMultiple(p.start, p.level.Span());
    Divides(p.start, p.level.Span(), Ratio(p.level, m), m.Span());
    Divides(p.End(), p.level.Span(), Ratio(p.level, m), m.Span());
  }

  /** They are the places a new table may have. */
  lemma EndsAreNew(p: Place, lo: nat, hi: nat, q: Place)
    requires GoodPlace(p) && p.start <= lo <= hi <= p.End()
    ensures q in Ends(p, lo, hi) <==> NewTable(q, p, lo, hi) && q.start % q.level.Span() == 0
  {
    var size := q.level.Span();
    if NewTable(q, p, lo, hi) && q.start % size == 0 {
      var x := if q.start < lo then lo else hi;
      AroundIs(size, q.start, x);
      assert q == Around(q.level, x);
    }
    if q in Ends(p, lo, hi) {
      var m: Level, x: nat :| x in {lo, hi} && m.Number() > p.level.Number() && x % m.Span() != 0 && q == Around(m, x);
      SpanEdges(p, m);
      AroundInside(m.Span(), p.start, p.End(), x);
    }
  }

  // ----- How many there are

  lemma {:induction false} InjectiveSize(place: Places, s: set<nat>)
    requires s <= place.Keys && forall t, u | t in s && u in s && place[t] == place[u] :: t == u
    ensures |set t | t in s :: place[t]| == |s|
    decreases |s|
  {
    var image := set t | t in s :: place[t];
    if t :| t in s {
      InjectiveSize(place, s - {t});
      var rest := set u | u in s - {t} :: place[u];
      assert image == rest + {place[t]};
    }
  }

  ghost function Made(place: Places, place': Places): set<Place> {
    set c | c in place' && c !in place :: place'[c]
  }

  lemma MadeIsNeeded(w: seq<Word>, place: Places, place': Places, root: nat, t: nat, lo: nat, hi: nat, c: nat)
    requires Tree(w, place', root) && t in place && place[t].start <= lo <= hi <= place[t].End()
    requires Extends(place, place', place[t], lo, hi) && c in place' && c !in place
    ensures place'[c] in Needed(place, t, lo, hi)
  {
    hide Closed, Rooted, NewTable, Ends;
    GoodAt(|w|, place', t);
    GoodAt(|w|, place', c);
    EndsAreNew(place[t], lo, hi, place'[c]);
    if place'[c] in place.Values {
      var u :| u in place && place[u] == place'[c];
      OneTable(w, place', root, u, c);
    }
  }

  lemma NewKeys(place: Places, place': Places) returns (s: set<nat>)
    requires place.Keys <= place'.Keys
    ensures s <= place'.Keys && |s| == |place'| - |place| && Made(place, place') == set c | c in s :: place'[c]
  {
    s := place'.Keys - place.Keys;
    assert forall c | c in s :: c in place' && c !in place;
    assert forall c | c in place' && c !in place :: c in s;
    KeysSize(place, place');
  }

  lemma KeysSize(place: Places, place': Places)
    requires place.Keys <= place'.Keys
    ensures |place'.Keys - place.Keys| == |place'| - |place|
  {
    assert place'.Keys == place.Keys + (place'.Keys - place.Keys);
  }

  lemma MadeSize(w: seq<Word>, place: Places, place': Places, root: nat)
    requires Rooted(w, place', root) && place.Keys <= place'.Keys
    ensures |Made(place, place')| == |place'| - |place|
  {
    var s := NewKeys(place, place');
    hide Made;
    forall u, v | u in s && v in s && place'[u] == place'[v]
      ensures u == v
    {
      OneTable(w, place', root, u, v);
    }
    hide Rooted;
    InjectiveSize(place', s);
  }

  /** New tables are needed ones, one for each place. */
  lemma MadeAreNeeded(w: seq<Word>, place: Places, place': Places, root: nat, t: nat, lo: nat, hi: nat)
    requires Tree(w, place', root) && t in place && place[t].start <= lo <= hi <= place[t].End()
    requires Extends(place, place', place[t], lo, hi)
    ensures Made(place, place') <= Needed(place, t, lo, hi) && |Made(place, place')| == |place'| - |place|
  {
    MadeSize(w, place, place', root);
    hide Tree, Needed, NewTable;
    forall c | c in place' && c !in place
      ensures place'[c] in Needed(place, t, lo, hi)
    {
      MadeIsNeeded(w, place, place', root, t, lo, hi, c);
    }
  }

  /** A table the range needs is not there. */
  ghost predicate Lacks(place: Places, p: Place, lo: nat, hi: nat) {
    exists q :: Missing(q, place, p, lo, hi)
  }

  ghost predicate Missing(q: Place, place: Places, p: Place, lo: nat, hi: nat) {
    NewTable(q, p, lo, hi) && q.start % q.level.Span() == 0 && q !in place.Values
  }

  /** As long as one is missing, fewer were made than are needed. */
  lemma LackingIsFewer(w: seq<Word>, place: Places, place': Places, root: nat, t: nat, lo: nat, hi: nat)
    requires Tree(w, place', root) && t in place && place[t].start <= lo <= hi <= place[t].End()
    requires Extends(place, place', place[t], lo, hi) && Lacks(place', place[t], lo, hi)
    ensures |place'| - |place| < |Needed(place, t, lo, hi)|
  {
    MadeAreNeeded(w, place, place', root, t, lo, hi);
    GoodAt(|w|, place', t);
    var q :| Missing(q, place', place[t], lo, hi);
    EndsAreNew(place[t], lo, hi, q);
    hide Tree, Extends, Ends;
    forall u | u in place
      ensures place[u] != q
    {
      InValues(place', u);
    }
    NotMade(place, place', q);
    Smaller(Made(place, place'), Needed(place, t, lo, hi), q);
  }

  lemma InValues(place: Places, u: nat)
    requires u in place
    ensures place[u] in place.Values
  {
  }

  lemma NotMade(place: Places, place': Places, q: Place)
    requires q !in place'.Values
    ensures q !in Made(place, place')
  {
  }

  lemma Smaller(a: set<Place>, b: set<Place>, q: Place)
    requires a <= b && q in b && q !in a
    ensures |a| < |b|
  {
    assert a <= b - {q};
    SubsetSize(a, b - {q});
  }

  lemma {:induction false} SubsetSize(a: set<Place>, b: set<Place>)
    requires a <= b
    ensures |a| <= |b|
    decreases |a|
  {
    if q :| q in a {
      SubsetSize(a - {q}, b - {q});
    }
  }

  // ----- What success takes

  /** A walk that ends below level `m` comes through a table of that level. */
  lemma {:induction false} Visits(w: seq<Word>, place: Places, root: nat, t: nat, va: nat, m: Level) returns (c: nat)
    requires Tree(w, place, root) && t in place && place[t].Contains(va) && m.Number() > place[t].level.Number()
    requires var r := Walk(w, t, place[t].level, va); r.Some? && r.value.level.Number() >= m.Number()
    ensures c in place && place[c].level == m && place[c].Contains(va)
    decreases 3 - place[t].level.Number()
  {
    var l := place[t].level;
    GoodAt(|w|, place, t);
    SlotsTile(l, place[t].start, va);
    SlotInMemory(|w|, t, l.SlotOf(va));
    WalkStep(w, t, l, va);
    hide Walk, FromWord, GoodPlace, TablePage, WordOf, Level.SlotOf, Level.Size, Level.SlotStart, SlotEnd,
      Place.Contains, Place.End, Land;
    FollowSlot(w, place, root, t, va);
    var u := SlotAt(w, t, l.SlotOf(va)).address;
    DescendFacts(w, place, root, t, u, va);
    InSlot(place, t, u, va);
    c := u;
    if place[u].level != m {
      c := Visits(w, place, root, u, va, m);
    }
  }

  /** A leaf of the range is finer than any place across an end that contains its address. */
  lemma {:induction false} FinerThanEnd(l: Level, lo: nat, hi: nat, va: nat, m: Level)
    requires m.Number() > l.Number() && !(lo <= va - va % m.Span() && va - va % m.Span() + m.Span() <= hi)
    ensures Coarsest(l, lo, hi, va).Number() >= m.Number()
    decreases 3 - l.Number()
  {
    SizeIsShift(l);
    SlotHolds(l, va, m);
    NotCoarsest(l, lo, hi, va);
    if l.Next().value.Number() < m.Number() {
      FinerThanEnd(l.Next().value, lo, hi, va, m);
    } else {
      CoarsestBelow(l.Next().value, lo, hi, va);
    }
  }

  /** A slot holds what a finer table around the same address translates. */
  lemma SlotHolds(l: Level, va: nat, m: Level)
    requires m.Number() > l.Number()
    ensures l.Next().Some? && l.SlotStart(va) <= va - va % m.Span() && va - va % m.Span() + m.Span() <= SlotEnd(l, va)
  {
  }

  /** So once the range is mapped all the tables it needs are there. */
  lemma MappedIsServed(w: seq<Word>, w': seq<Word>, place': Places, root: nat, t: nat, p: Place, lo: nat, hi: nat,
                       template: Descriptor)
    requires Tree(w', place', root) && t in place' && place'[t] == p && p.start <= lo <= hi <= p.End()
    requires Translates(w, w', t, p, lo, hi, hi, template)
    ensures Ends(p, lo, hi) <= place'.Values
  {
    GoodAt(|w'|, place', t);
    forall q | q in Ends(p, lo, hi)
      ensures q in place'.Values
    {
      EndsAreNew(p, lo, hi, q);
      var va := if q.start < lo then lo else hi - 1;
      AroundIs(q.level.Span(), q.start, va);
      FinerThanEnd(p.level, lo, hi, va, q.level);
      hide Tree, Walk, Coarsest;
      assert p.Contains(va);
      var c := Visits(w', place', root, t, va, q.level);
      GoodAt(|w'|, place', c);
      AroundIs(q.level.Span(), place'[c].start, va);
      assert place'[c] == q;
    }
  }

  // ----- No block gives way

  /** Slot `i` of table `t` is a block where there could be a table. */
  ghost predicate BlockIn(w: seq<Word>, place: Places, t: nat, i: nat) {
    t in place && i < SLOTS && place[t].level.Next().Some? && WordOf(t, i) < |w| && SlotAt(w, t, i).kind == Block
  }

  ghost predicate Unblocked(w: seq<Word>, w': seq<Word>, place: Places) {
    |w'| == |w| && forall t: nat, i: nat | BlockIn(w, place, t, i) :: BlockIn(w', place, t, i)
  }

  lemma SameBlocks(w: seq<Word>, place: Places)
    ensures Unblocked(w, w, place)
  {
    hide BlockIn;
  }

  lemma BlocksChain(w0: seq<Word>, w: seq<Word>, w': seq<Word>, place0: Places, place: Places)
    requires Unblocked(w0, w, place0) && Unblocked(w, w', place)
    requires forall u | u in place0 :: u in place && place[u] == place0[u]
    ensures Unblocked(w0, w', place0)
  {
    hide FromWord, WordOf;
    forall t: nat, i: nat | BlockIn(w0, place0, t, i)
      ensures BlockIn(w', place0, t, i)
    {
      assert BlockIn(w, place0, t, i);
      assert BlockIn(w, place, t, i);
      assert BlockIn(w', place, t, i);
    }
  }

  lemma OtherWordsBlocks(w: seq<Word>, w': seq<Word>, place: Places)
    requires TablesSame(w, w', place)
    ensures Unblocked(w, w', place)
  {
    hide FromWord, WordOf;
  }

  lemma ChildBlocks(w: seq<Word>, w': seq<Word>, place: Places, t: nat, i: nat, c: nat)
    requires ChildSet(w, w', place, t, i, c)
    ensures Unblocked(w, w', place)
  {
    hide FromWord, WordOf, TablePage;
  }

  lemma LeafBlocks(w: seq<Word>, w': seq<Word>, place: Places, root: nat, t: nat, addr: nat, template: Descriptor)
    requires Tree(w, place, root) && LeafSet(w, w', place, t, addr, template)
    ensures Unblocked(w, w', place)
  {
    GoodAt(|w|, place, t);
    SlotsTile(place[t].level, place[t].start, addr);
    LeafReadBack(w, w', place, t, addr, template);
    hide FromWord, ToWord, WordOf, GoodPlace, TablePage, Level.SlotOf;
    forall u: nat, j: nat | BlockIn(w, place, u, j)
      ensures BlockIn(w', place, u, j)
    {
      if u == t && j == place[t].level.SlotOf(addr) {
      } else {
        OtherSlot(|w|, place, t, place[t].level.SlotOf(addr), u, j);
      }
    }
  }

  lemma BlockEnds(w: seq<Word>, w': seq<Word>, place: Places, t: nat, va: nat)
    requires t in place && BlockIn(w, place, t, place[t].level.SlotOf(va)) && Unblocked(w, w', place)
    ensures Walk(w, t, place[t].level, va).Some? && Walk(w', t, place[t].level, va).Some?
    ensures Walk(w, t, place[t].level, va).value.level == place[t].level == Walk(w', t, place[t].level, va).value.level
  {
    BlockWalks(w, t, place[t].level, va);
    assert BlockIn(w', place, t, place[t].level.SlotOf(va));
    hide Walk, FromWord, Level.SlotOf;
    BlockWalks(w', t, place[t].level, va);
  }

  /** A walk that neither stops at a block nor at the finest level goes on from a finer table. */
  lemma WalkGoesOn(w: seq<Word>, place: Places, root: nat, t: nat, va: nat) returns (u: nat)
    requires Tree(w, place, root) && t in place && place[t].Contains(va)
    requires var r := Walk(w, t, place[t].level, va); r.Some? && r.value.level.Next().Some?
    requires !BlockIn(w, place, t, place[t].level.SlotOf(va))
    ensures u in place && place[u].Contains(va) && place[u].level.Number() > place[t].level.Number()
    ensures Walk(w, t, place[t].level, va) == Walk(w, u, place[u].level, va)
  {
    var l := place[t].level;
    GoodAt(|w|, place, t);
    SlotsTile(l, place[t].start, va);
    SlotInMemory(|w|, t, l.SlotOf(va));
    WalkStep(w, t, l, va);
    hide Walk, FromWord, GoodPlace, TablePage, WordOf, Level.SlotOf, Level.Size, Level.SlotStart, SlotEnd,
      Place.Contains, Place.End, Land;
    FollowSlot(w, place, root, t, va);
    u := SlotAt(w, t, l.SlotOf(va)).address;
    DescendFacts(w, place, root, t, u, va);
    InSlot(place, t, u, va);
  }

  /** What a block maps it maps still, no finer. */
  lemma {:induction false} StillCoarse(w: seq<Word>, w': seq<Word>, place: Places, place': Places, root: nat, t: nat,
                                       va: nat)
    requires Tree(w, place, root) && Tree(w', place', root) && Unblocked(w, w', place)
    requires forall u | u in place :: u in place' && place'[u] == place[u]
    requires t in place && place[t].Contains(va)
    requires var r := Walk(w, t, place[t].level, va); r.Some? && r.value.level.Next().Some?
    ensures var (r, r') := (Walk(w, t, place[t].level, va), Walk(w', t, place[t].level, va));
            r'.Some? && r'.value.level.Number() <= r.value.level.Number()
    decreases 3 - place[t].level.Number()
  {
    hide Tree, Walk, BlockIn, Unblocked, Place.Contains;
    if BlockIn(w, place, t, place[t].level.SlotOf(va)) {
      BlockEnds(w, w', place, t, va);
    } else {
      var u := WalkGoesOn(w, place, root, t, va);
      StillCoarse(w, w', place, place', root, u, va);
      WalkThrough(w', place', root, t, va);
      WalkThrough(w', place', root, u, va);
    }
  }

  // ----- Exactly when it can be done

  /** A walk from a table ends at its level or a finer one. */
  lemma {:induction false} WalkLevel(w: seq<Word>, t: nat, l: Level, va: nat)
    ensures Walk(w, t, l, va).Some? ==> Walk(w, t, l, va).value.level.Number() >= l.Number()
    decreases 3 - l.Number()
  {
    hide FromWord, Level.SlotOf;
    var i := t / 8 + l.SlotOf(va);
    if i < |w| && FromWord(w[i]).kind == Table && l.Next().Some? {
      WalkLevel(w, FromWord(w[i]).address, l.Next().value, va);
    }
  }

  /** The range is mapped by leaves no finer than the slot of any table inside it. */
  lemma {:induction false} CoarserThanInside(l: Level, lo: nat, hi: nat, start: nat, m: Level)
    requires m.Number() > l.Number() && start % m.Span() == 0 && lo <= start && start + m.Span() <= hi
    ensures Coarsest(l, lo, hi, start).Number() < m.Number()
    decreases 3 - l.Number()
  {
    SizeIsShift(l);
    var n := l.Next().value;
    if n == m {
    } else {
      CoarserThanInside(n, lo, hi, start, m);
    }
  }

  lemma MappedHoldsNoTable(w: seq<Word>, w': seq<Word>, place: Places, place': Places, root: nat, t: nat, lo: nat,
                           hi: nat, template: Descriptor)
    requires Tree(w', place', root) && t in place && Extends(place, place', place[t], lo, hi)
    requires place[t].start <= lo <= hi <= place[t].End()
    requires Translates(w, w', t, place[t], lo, hi, hi, template)
    ensures NoTableInside(place, place[t].level, lo, hi)
  {
    forall u | u in place && place[u].level.Number() > place[t].level.Number()
      ensures !(lo <= place[u].start && place[u].End() <= hi)
    {
      if lo <= place[u].start && place[u].End() <= hi {
        var (va, l) := (place[u].start, place[t].level);
        GoodAt(|w'|, place', u);
        CoarserThanInside(l, lo, hi, va, place[u].level);
        WalkLevel(w', u, place[u].level, va);
        hide Tree, Walk, Coarsest, NewTable;
        assert place[t].Contains(va) && place'[u].Contains(va);
        WalkThrough(w', place', root, t, va);
        WalkThrough(w', place', root, u, va);
        assert false;
      }
    }
  }

  lemma MappedAt(w: seq<Word>, w': seq<Word>, t: nat, p: Place, lo: nat, hi: nat, template: Descriptor, va: nat)
    requires Translates(w, w', t, p, lo, hi, hi, template) && p.start <= lo <= va < hi <= p.End()
    ensures var r := Walk(w', t, p.level, va);
            p.Contains(va) && r.Some? && r.value.level == Coarsest(p.level, lo, hi, va)
  {
    hide Walk, Coarsest, Level.Size;
    assert p.Contains(va);
  }

  lemma MappedIsFine(w: seq<Word>, w': seq<Word>, place: Places, place': Places, root: nat, t: nat, lo: nat, hi: nat,
                     template: Descriptor, va: nat)
    requires Tree(w, place, root) && t in place && place[t].start <= lo <= va < hi <= place[t].End()
    requires Grown(w, w', place, place', root, t, lo, hi) && Translates(w, w', t, place[t], lo, hi, hi, template)
    requires Unblocked(w, w', place)
    ensures !TooCoarse(w, t, place[t].level, lo, hi, va)
  {
    hide Tree, Walk, Coarsest, Unblocked, SlotsKept, NewTable, LeafFor, Level.Size;
    MappedAt(w, w', t, place[t], lo, hi, template, va);
    hide Translates, Grown;
    CallFacts(w, w', place, place', root, t, lo, hi);
    hide Extends;
    if TooCoarse(w, t, place[t].level, lo, hi, va) {
      StillCoarse(w, w', place, place', root, t, va);
      assert false;
    }
  }

  /** Whatever has been mapped could be. */
  lemma MappedIsMappable(w: seq<Word>, w': seq<Word>, place: Places, place': Places, root: nat, t: nat, lo: nat,
                         hi: nat, template: Descriptor)
    requires Tree(w, place, root) && t in place && place[t].start <= lo <= hi <= place[t].End()
    requires Grown(w, w', place, place', root, t, lo, hi) && Translates(w, w', t, place[t], lo, hi, hi, template)
    requires Unblocked(w, w', place) && (lo < hi ==> lo % PAGE_SIZE == 0 && hi % PAGE_SIZE == 0)
    ensures Mappable(w, place, t, lo, hi)
  {
    CallFacts(w, w', place, place', root, t, lo, hi);
    hide Tree, Translates, Unblocked, NoTableInside, Extends, Grown, TooCoarse;
    MappedHoldsNoTable(w, w', place, place', root, t, lo, hi, template);
    forall va: nat | lo <= va < hi
      ensures !TooCoarse(w, t, place[t].level, lo, hi, va)
    {
      MappedIsFine(w, w', place, place', root, t, lo, hi, template, va);
    }
  }

  /** And takes a table for each place that needs one. */
  lemma MappedCost(w: seq<Word>, w': seq<Word>, place: Places, place': Places, root: nat, t: nat, lo: nat, hi: nat,
                   template: Descriptor)
    requires t in place && place[t].start <= lo <= hi <= place[t].End()
    requires Grown(w, w', place, place', root, t, lo, hi) && Translates(w, w', t, place[t], lo, hi, hi, template)
    ensures |place'| - |place| == |Needed(place, t, lo, hi)|
  {
    hide Tree, Translates, Needed, NewTable, SlotsKept, Ends;
    MadeAreNeeded(w', place, place', root, t, lo, hi);
    MappedIsServed(w, w', place', root, t, place[t], lo, hi, template);
    NeededAreMade(place, place', t, lo, hi);
  }

  lemma NeededAreMade(place: Places, place': Places, t: nat, lo: nat, hi: nat)
    requires t in place && Ends(place[t], lo, hi) <= place'.Values && Made(place, place') <= Needed(place, t, lo, hi)
    requires forall u | u in place :: u in place' && place'[u] == place[u]
    ensures Made(place, place') == Needed(place, t, lo, hi)
  {
    forall q | q in Needed(place, t, lo, hi)
      ensures q in Made(place, place')
    {
      assert q in place'.Values;
      var c :| c in place' && place'[c] == q;
      if c in place {
        InValues(place, c);
        assert false;
      }
    }
  }

  /** An empty slot the range does not fill lacks the table it needs. */
  lemma EmptySlotLacks(w: seq<Word>, place: Places, root: nat, t: nat, lo: nat, addr: nat, hi: nat)
    requires Tree(w, place, root) && t in place && place[t].start <= lo <= addr < hi <= place[t].End()
    requires place[t].level.Next().Some? && !Fills(place[t].level, addr, hi)
    requires (addr == lo || place[t].level.IsAligned(addr))
    requires var i := place[t].level.SlotOf(addr); WordOf(t, i) < |w| && SlotAt(w, t, i).kind == Invalid
    ensures Lacks(place, place[t], lo, hi)
  {
    GoodAt(|w|, place, t);
    ChunkFacts(place[t], lo, addr, hi);
    var i := place[t].level.SlotOf(addr);
    var q := place[t].Child(i);
    ChildIsNew(place[t], i, lo, addr, hi);
    ChildFacts(place[t], i, addr);
    hide FromWord, WordOf, NewTable, GoodPlace, TablePage, Level.SlotOf, Fills, ChunkEnd;
    if q in place.Values {
      var c :| c in place && place[c] == q;
      var u, j := ParentOf(w, place, root, c);
      GoodAt(|w|, place, u);
      SameParent(place[t], i, place[u], j);
      OneTable(w, place, root, t, u);
      assert false;
    }
    assert Missing(q, place, place[t], lo, hi);
  }

  lemma SameParent(p: Place, i: nat, q: Place, j: nat)
    requires GoodPlace(p) && GoodPlace(q) && p.level.Next().Some? && q.level.Next().Some? && i < SLOTS && j < SLOTS
    requires p.Child(i) == q.Child(j)
    ensures p == q && i == j
  {
    SamePlace(p, i, q, j);
  }

  /** What the slot's table lacks for its part of the range, this one lacks. */
  lemma LacksRises(place: Places, p: Place, q: Place, lo: nat, addr: nat, hi: nat)
    requires Lacks(place, q, addr, ChunkEnd(p.level, addr, hi))
    requires p.level.Next().Some? && q.level == p.level.Next().value
    requires q.start == p.level.SlotStart(addr) && q.End() == SlotEnd(p.level, addr) && p.start <= q.start
    requires q.End() <= p.End()
    requires lo <= addr < hi && (addr == lo || p.level.IsAligned(addr)) && addr < ChunkEnd(p.level, addr, hi)
    ensures Lacks(place, p, lo, hi)
  {
    var u :| Missing(u, place, q, addr, ChunkEnd(p.level, addr, hi));
    NewTableRises(u, p, q, lo, addr, hi);
    assert Missing(u, place, p, lo, hi);
  }

  /** The range has been mapped up to `addr`, so unless that is where it starts both are on pages. */
  predicate Paged(lo: nat, addr: nat) {
    addr == lo || (lo % PAGE_SIZE == 0 && addr % PAGE_SIZE == 0)
  }

  lemma FilledIsPaged(l: Level, addr: nat, hi: nat)
    requires Fills(l, addr, hi)
    ensures addr % PAGE_SIZE == 0 && ChunkEnd(l, addr, hi) % PAGE_SIZE == 0
  {
    NextAligned(l, addr);
    PageAligned(l, addr);
    PageAligned(l, SlotEnd(l, addr));
  }
}
