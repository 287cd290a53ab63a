/**
 Why mapping a range slot by slot achieves what it should: each pass of the loop in `map_range`
 carries its invariant from one slot to the next.
*/
module RangeSteps {
  import opened Wrappers
  import opened Bits
  import opened Ram
  import opened Levels
  import opened Descriptors
  import opened Trees

  datatype MapError =
    | OutOfMemory
    | Unaligned(va: nat)
    | BlockInTheWay(va: nat, level: Level)
    | TableInTheWay(va: nat, level: Level)

  /** The walk has come to `addr`, which is where the range starts or where a slot starts. */
  ghost predicate Progress(w0: seq<Word>, w: seq<Word>, place0: Places, place: Places, root: nat, t: nat, lo: nat,
                           addr: nat, hi: nat, template: Descriptor) {
    && t in place0 && place0[t].start <= lo <= addr <= hi <= place0[t].End() && GoodPlace(place0[t])
    && (addr == lo || addr == hi || place0[t].level.IsAligned(addr))
    && Grown(w0, w, place0, place, root, t, lo, hi)
    && Translates(w0, w, t, place0[t], lo, addr, hi, template)
  }

  /** Where the slot around `addr` ends, and where the range does if that comes first. */
  function SlotEnd(l: Level, addr: nat): nat {
    l.SlotStart(addr) + l.Size()
  }

  function ChunkEnd(l: Level, addr: nat, hi: nat): nat {
    if SlotEnd(l, addr) < hi then SlotEnd(l, addr) else hi
  }

  /** The slot around `addr` lies inside the range. */
  predicate Fills(l: Level, addr: nat, hi: nat) {
    l.IsAligned(addr) && ChunkEnd(l, addr, hi) == SlotEnd(l, addr)
  }

  lemma ProgressFacts(w0: seq<Word>, w: seq<Word>, place0: Places, place: Places, root: nat, t: nat, lo: nat,
                      addr: nat, hi: nat, template: Descriptor)
    requires Progress(w0, w, place0, place, root, t, lo, addr, hi, template)
    ensures t in place && place[t] == place0[t] && Tree(w, place, root) && |w| == |w0|
    ensures GoodPlace(place[t]) && TablePage(|w|, t) && t in place0
    ensures place0[t].start <= lo <= addr <= hi <= place0[t].End()
    ensures forall u | u in place0 :: u in place && place[u] == place0[u]
  {
    hide FromWord, Rooted, Closed, Translates, NewTable;
    GoodAt(|w|, place, t);
  }

  lemma ChunkFacts(p: Place, lo: nat, addr: nat, hi: nat)
    requires GoodPlace(p) && p.start <= lo <= addr < hi <= p.End() && (addr == lo || p.level.IsAligned(addr))
    ensures var (l, i) := (p.level, p.level.SlotOf(addr));
            && i < SLOTS && p.SlotStart(i) == l.SlotStart(addr) && p.SlotContains(i, addr) && p.Contains(addr)
            && addr < ChunkEnd(l, addr, hi) <= hi && ChunkEnd(l, addr, hi) <= SlotEnd(l, addr)
            && (ChunkEnd(l, addr, hi) == hi || l.IsAligned(ChunkEnd(l, addr, hi)))
            && (Fills(l, addr, hi) <==> lo <= l.SlotStart(addr) && SlotEnd(l, addr) <= hi)
            && (Fills(l, addr, hi) ==> addr == l.SlotStart(addr))
  {
    var l := p.level;
    SlotsTile(l, p.start, addr);
    NextAligned(l, addr);
  }

  lemma NextAligned(l: Level, addr: nat)
    ensures l.IsAligned(SlotEnd(l, addr)) && l.SlotStart(addr) <= addr < SlotEnd(l, addr)
    ensures l.IsAligned(addr) ==> l.SlotStart(addr) == addr
  {
    var (q, size) := (addr / l.Size(), l.Size());
    QuotientIsNat(addr, size);
    assert addr == q * size + addr % size;
    assert SlotEnd(l, addr) == (q + 1) * size;
    MultipleMod(q + 1, size);
  }

  // ----- A slot the range fills

  lemma FullStep(w0: seq<Word>, w: seq<Word>, w': seq<Word>, place0: Places, place: Places, root: nat, t: nat,
                 lo: nat, addr: nat, hi: nat, template: Descriptor)
    requires Progress(w0, w, place0, place, root, t, lo, addr, hi, template) && addr < hi
    requires Fills(place0[t].level, addr, hi) && LeafSet(w, w', place, t, addr, template)
    ensures Progress(w0, w', place0, place, root, t, lo, ChunkEnd(place0[t].level, addr, hi), hi, template)
  {
    hide Tree, LeafSet, Walk, NewTable, Leads, Stored, Attributes, TablePage, GoodPlace;
    ProgressFacts(w0, w, place0, place, root, t, lo, addr, hi, template);
    ChunkFacts(place0[t], lo, addr, hi);
    var p := place0[t];
    LeafSetFacts(w, w', place, t, addr, template);
    LeafTranslates(w, w', place, root, t, addr, template);
    KeptChain(w0, w, w', place0, place, p.level, lo, hi, addr, addr + p.level.Size());
    forall va: nat | p.Contains(va) && addr <= va < SlotEnd(p.level, addr)
      ensures Coarsest(p.level, lo, hi, va) == p.level
    {
      SameSlotStart(p, addr, va);
    }
  }

  lemma LeafSetFacts(w: seq<Word>, w': seq<Word>, place: Places, t: nat, addr: nat, template: Descriptor)
    requires LeafSet(w, w', place, t, addr, template)
    ensures t in place && place[t].Contains(addr) && |w'| == |w|
  {
  }

  lemma SameSlotStart(p: Place, addr: nat, va: nat)
    requires GoodPlace(p) && p.Contains(addr) && p.Contains(va)
    requires p.level.SlotStart(addr) <= va < SlotEnd(p.level, addr)
    ensures p.level.SlotStart(va) == p.level.SlotStart(addr) && p.level.SlotOf(va) == p.level.SlotOf(addr)
  {
    SlotsTile(p.level, p.start, addr);
    SlotsTile(p.level, p.start, va);
  }

  /** What keeps the slots outside a part, and those above, keeps those outside the whole. */
  lemma KeptChain(w0: seq<Word>, w: seq<Word>, w': seq<Word>, place0: Places, place: Places, l: Level, lo: nat,
                  hi: nat, a: nat, b: nat)
    requires SlotsKept(w0, w, place0, l, lo, hi) && SlotsKept(w, w', place, l, a, b) && lo <= a && b <= hi
    requires forall u | u in place0 :: u in place && place[u] == place0[u]
    ensures SlotsKept(w0, w', place0, l, lo, hi)
  {
    hide WordOf;
  }

  // ----- A slot the range only partly covers

  /** Linking an empty table changes no translation. */
  lemma ChildStep(w0: seq<Word>, w: seq<Word>, w': seq<Word>, place0: Places, place: Places, root: nat, t: nat,
                  c: nat, lo: nat, addr: nat, hi: nat, template: Descriptor)
    requires Progress(w0, w, place0, place, root, t, lo, addr, hi, template) && addr < hi
    requires place0[t].level.Next().Some? && !Fills(place0[t].level, addr, hi)
    requires ChildSet(w, w', place, t, place0[t].level.SlotOf(addr), c)
    ensures var p := place0[t];
            && p.level.SlotOf(addr) < SLOTS
            && var place' := place[c := p.Child(p.level.SlotOf(addr))];
            && Tree(w', place', root) && Extends(place0, place', p, lo, hi) && |w'| == |w0|
            && (forall va: nat | p.Contains(va) :: Walk(w', t, p.level, va) == Walk(w, t, p.level, va))
  {
    hide Tree, Walk, NewTable, Leads, Stored, Attributes, TablePage, GoodPlace, ChildSet, SlotsKept, Translates;
    ProgressFacts(w0, w, place0, place, root, t, lo, addr, hi, template);
    ChunkFacts(place0[t], lo, addr, hi);
    var p := place0[t];
    var i := p.level.SlotOf(addr);
    ChildSetFacts(w, w', place, t, i, c);
    ChildKeepsTree(w, w', place, root, t, i, c);
    ChildTranslates(w, w', place, root, t, i, c);
    ChildIsNew(p, i, lo, addr, hi);
  }

  /** And so the loop's invariant still holds. */
  lemma ChildProgress(w0: seq<Word>, w: seq<Word>, w': seq<Word>, place0: Places, place: Places, root: nat, t: nat,
                      c: nat, lo: nat, addr: nat, hi: nat, template: Descriptor)
    requires Progress(w0, w, place0, place, root, t, lo, addr, hi, template) && addr < hi
    requires place0[t].level.Next().Some? && !Fills(place0[t].level, addr, hi)
    requires ChildSet(w, w', place, t, place0[t].level.SlotOf(addr), c)
    ensures Progress(w0, w', place0, place[c := place0[t].Child(place0[t].level.SlotOf(addr))], root, t, lo, addr,
                     hi, template)
  {
    hide Tree, Walk, NewTable, Leads, Stored, Attributes, TablePage, GoodPlace, ChildSet, Extends, SlotsKept;
    ChildStep(w0, w, w', place0, place, root, t, c, lo, addr, hi, template);
    ProgressFacts(w0, w, place0, place, root, t, lo, addr, hi, template);
    ChunkFacts(place0[t], lo, addr, hi);
    ChildKeepsSlots(w, w', place, t, place0[t].level.SlotOf(addr), c, addr);
    KeptChain(w0, w, w', place0, place, place0[t].level, lo, hi, addr, addr + 1);
  }

  /** The one slot written is the one `addr` is in. */
  lemma ChildKeepsSlots(w: seq<Word>, w': seq<Word>, place: Places, t: nat, i: nat, c: nat, addr: nat)
    requires ChildSet(w, w', place, t, i, c) && place[t].SlotContains(i, addr)
    ensures SlotsKept(w, w', place, place[t].level, addr, addr + 1)
  {
    hide FromWord, WordOf, TablePage;
  }

  lemma ChildSetFacts(w: seq<Word>, w': seq<Word>, place: Places, t: nat, i: nat, c: nat)
    requires ChildSet(w, w', place, t, i, c)
    ensures t in place && i < SLOTS && place[t].level.Next().Some? && c !in place && |w'| == |w| && TablePage(|w|, c)
  {
  }

  lemma ChildIsNew(p: Place, i: nat, lo: nat, addr: nat, hi: nat)
    requires GoodPlace(p) && p.start <= lo <= addr < hi <= p.End() && (addr == lo || p.level.IsAligned(addr))
    requires p.level.Next().Some? && !Fills(p.level, addr, hi) && i == p.level.SlotOf(addr) < SLOTS
    ensures NewTable(p.Child(i), p, lo, hi)
  {
    ChunkFacts(p, lo, addr, hi);
    ChildFacts(p, i, addr);
    SizeIsShift(p.level);
  }

  // ----- What the recursive call did, seen from the table above

  /** The state as the recursive call finds it: slot `addr` is in leads to table `c`. */
  ghost predicate Descends(w: seq<Word>, place: Places, root: nat, t: nat, c: nat, addr: nat) {
    && Tree(w, place, root) && t in place && GoodPlace(place[t]) && place[t].Contains(addr)
    && LeadsTo(w, place, t, place[t].level.SlotOf(addr), c)
  }

  lemma DescendFacts(w: seq<Word>, place: Places, root: nat, t: nat, c: nat, addr: nat)
    requires Descends(w, place, root, t, c, addr)
    ensures var p := place[t];
            && t in place && c in place && p.level.Next().Some? && p.level.SlotOf(addr) < SLOTS && GoodPlace(place[c])
            && place[c] == p.Child(p.level.SlotOf(addr)) && place[c].level == p.level.Next().value
            && place[c].start == p.level.SlotStart(addr) && place[c].End() == SlotEnd(p.level, addr)
            && c > 0
            && SlotAt(w, t, p.level.SlotOf(addr)) == SlotAt(w, t, p.level.SlotOf(addr)).(kind := Table, address := c)
  {
    hide FromWord, Rooted;
    var p := place[t];
    var i := p.level.SlotOf(addr);
    SlotsTile(p.level, p.start, addr);
    assert Leads(w, place, t, i);
    ChildFacts(p, i, addr);
    GoodAt(|w|, place, c);
    SlotInMemory(|w|, c, 0);
  }

  lemma FollowSlot(w: seq<Word>, place: Places, root: nat, t: nat, va: nat)
    requires Tree(w, place, root) && t in place && place[t].Contains(va) && place[t].level.Next().Some?
    requires WordOf(t, place[t].level.SlotOf(va)) < |w| && SlotAt(w, t, place[t].level.SlotOf(va)).kind == Kind.Table
    ensures var c := SlotAt(w, t, place[t].level.SlotOf(va)).address;
            c != 0 && c in place && Descends(w, place, root, t, c, va)
  {
    hide FromWord, Rooted;
    GoodAt(|w|, place, t);
    SlotsTile(place[t].level, place[t].start, va);
    var i := place[t].level.SlotOf(va);
    assert Leads(w, place, t, i);
    var c := SlotAt(w, t, i).address;
    GoodAt(|w|, place, c);
    assert LeadsTo(w, place, t, i, c);
  }

  lemma InSlot(place: Places, t: nat, c: nat, va: nat)
    requires t in place && c in place && GoodPlace(place[t]) && place[t].Contains(va)
    requires place[c].start == place[t].level.SlotStart(va) && place[c].End() == SlotEnd(place[t].level, va)
    ensures place[c].Contains(va)
  {
    NextAligned(place[t].level, va);
  }

  /** One step of a walk. */
  lemma WalkStep(w: seq<Word>, t: nat, l: Level, va: nat)
    requires WordOf(t, l.SlotOf(va)) < |w|
    ensures var d := SlotAt(w, t, l.SlotOf(va));
            Walk(w, t, l, va) ==
            if d.kind == Invalid then None
            else if d.kind == Block || l.Next().None? then Some(Land(d, l, va))
            else if d.address == 0 then None else Walk(w, d.address, l.Next().value, va)
  {
    hide FromWord;
  }

  lemma ThroughSlot(w: seq<Word>, place: Places, t: nat, c: nat, i: nat, va: nat)
    requires LeadsTo(w, place, t, i, c) && c > 0 && place[t].level.SlotOf(va) == i
    ensures Walk(w, t, place[t].level, va) == Walk(w, c, place[t].level.Next().value, va)
  {
    hide FromWord;
  }

  lemma StillLeads(w: seq<Word>, w': seq<Word>, place: Places, place': Places, t: nat, c: nat, i: nat, l: Level,
                   lo: nat, hi: nat)
    requires LeadsTo(w, place, t, i, c) && SlotsKept(w, w', place, l, lo, hi) && place[t].level.Number() < l.Number()
    requires t in place' && place'[t] == place[t]
    ensures LeadsTo(w', place', t, i, c)
  {
    hide FromWord, WordOf;
  }

  /** How walks from `t` answer after the call on `c`, in terms of walks from `c`. */
  lemma WalksAfterCall(w: seq<Word>, w': seq<Word>, place: Places, place': Places, root: nat, t: nat, c: nat,
                       addr: nat, end: nat, va: nat)
    requires Descends(w, place, root, t, c, addr) && c in place && addr < end <= SlotEnd(place[t].level, addr)
    requires Grown(w, w', place, place', root, c, addr, end) && place[t].Contains(va)
    ensures var (p, l) := (place[t], place[t].level);
            l.Next().Some? &&
            if l.SlotStart(addr) <= va < SlotEnd(l, addr)
            then Walk(w', t, l, va) == Walk(w', c, l.Next().value, va) &&
                   Walk(w, t, l, va) == Walk(w, c, l.Next().value, va)
            else Walk(w', t, l, va) == Walk(w, t, l, va)
  {
    hide FromWord, Walk, Tree, Extends, NewTable, Leads;
    DescendFacts(w, place, root, t, c, addr);
    var p := place[t];
    var (l, i) := (p.level, p.level.SlotOf(addr));
    CallFacts(w, w', place, place', root, c, addr, end);
    StillLeads(w, w', place, place', t, c, i, place[c].level, addr, end);
    SlotsTile(l, p.start, addr);
    SlotsTile(l, p.start, va);
    if l.SlotStart(addr) <= va < SlotEnd(l, addr) {
      SameSlotStart(p, addr, va);
      ThroughSlot(w, place, t, c, i, va);
      ThroughSlot(w', place', t, c, i, va);
    } else {
      hide Descends, LeadsTo, GoodPlace;
      SlotsSeparate(p, i, l.SlotOf(va));
      KeptAbove(w, w', place, l, place[c].level, addr, end);
      TreeOfDescent(w, place, root, t, c, addr);
      WalkFrame(w, w', place, root, t, l, addr, end, va);
    }
  }

  lemma TreeOfDescent(w: seq<Word>, place: Places, root: nat, t: nat, c: nat, addr: nat)
    requires Descends(w, place, root, t, c, addr)
    ensures Tree(w, place, root)
  {
  }

  lemma CallFacts(w: seq<Word>, w': seq<Word>, place: Places, place': Places, root: nat, c: nat, lo: nat, hi: nat)
    requires c in place && Grown(w, w', place, place', root, c, lo, hi)
    ensures Tree(w', place', root) && Extends(place, place', place[c], lo, hi)
    ensures SlotsKept(w, w', place, place[c].level, lo, hi) && |w'| == |w|
    ensures forall u | u in place :: u in place' && place'[u] == place[u]
  {
    hide Tree;
  }

  lemma KeptAbove(w: seq<Word>, w': seq<Word>, place: Places, l: Level, m: Level, lo: nat, hi: nat)
    requires SlotsKept(w, w', place, m, lo, hi) && l.Number() <= m.Number()
    ensures SlotsKept(w, w', place, l, lo, hi)
  {
    hide WordOf;
  }

  /** New tables under the slot's table are new tables under this one. */
  lemma CallExtends(place0: Places, place: Places, place': Places, p: Place, q: Place, lo: nat, addr: nat, hi: nat)
    requires Extends(place0, place, p, lo, hi) && Extends(place, place', q, addr, ChunkEnd(p.level, addr, hi))
    requires p.level.Next().Some? && q.level == p.level.Next().value
    requires q.start == p.level.SlotStart(addr) && q.End() == SlotEnd(p.level, addr) && p.start <= q.start
    requires q.End() <= p.End()
    requires lo <= addr < hi && (addr == lo || p.level.IsAligned(addr)) && addr < ChunkEnd(p.level, addr, hi)
    ensures Extends(place0, place', p, lo, hi)
  {
    hide NewTable;
    forall u | u in place' && u !in place0
      ensures NewTable(place'[u], p, lo, hi)
    {
      if u !in place {
        NewTableRises(place'[u], p, q, lo, addr, hi);
      }
    }
  }

  lemma NewTableRises(u: Place, p: Place, q: Place, lo: nat, addr: nat, hi: nat)
    requires NewTable(u, q, addr, ChunkEnd(p.level, addr, hi))
    requires p.level.Next().Some? && q.level == p.level.Next().value
    requires q.start == p.level.SlotStart(addr) && q.End() == SlotEnd(p.level, addr) && p.start <= q.start
    requires q.End() <= p.End()
    requires lo <= addr < hi && (addr == lo || p.level.IsAligned(addr)) && addr < ChunkEnd(p.level, addr, hi)
    ensures NewTable(u, p, lo, hi)
  {
    SizeIsShift(p.level);
    NextAligned(p.level, addr);
  }

  /** Inside a slot the range does not fill, the coarsest level is decided by the chunk alone. */
  lemma {:induction false} CoarsestInChunk(l: Level, start: nat, size: nat, lo: nat, addr: nat, hi: nat, end: nat,
                                           va: nat)
    requires start <= addr <= va < end <= start + size && lo <= addr && end <= hi
    requires (addr == lo || addr == start) && (end == hi || end == start + size)
    requires start <= l.SlotStart(va) && l.SlotStart(va) + l.Size() <= start + size
    ensures Coarsest(l, lo, hi, va) == Coarsest(l, addr, end, va)
    decreases 3 - l.Number()
  {
    if l.Next().Some? {
      FinerSlot(l, va);
      CoarsestInChunk(l.Next().value, start, size, lo, addr, hi, end, va);
    }
  }

  lemma FinerSlot(l: Level, va: nat)
    requires l.Next().Some?
    ensures var n := l.Next().value;
            l.SlotStart(va) <= n.SlotStart(va) && n.SlotStart(va) + n.Size() <= l.SlotStart(va) + l.Size()
  {
    var n := l.Next().value;
    Finer(va / l.Size(), va % l.Size(), n.Size(), va);
  }

  lemma Finer(q: nat, r: nat, size: nat, va: nat)
    requires size >= 1 && r < SLOTS * size && va == q * (SLOTS * size) + r
    ensures q * (SLOTS * size) <= va - va % size && va - va % size + size <= q * (SLOTS * size) + SLOTS * size
  {
    TileOne(q, r, size, va);
  }

  lemma ChunkLeaf(p: Place, lo: nat, addr: nat, hi: nat, template: Descriptor, va: nat)
    requires GoodPlace(p) && p.start <= lo <= addr < hi <= p.End() && (addr == lo || p.level.IsAligned(addr))
    requires p.level.Next().Some? && !Fills(p.level, addr, hi) && addr <= va < ChunkEnd(p.level, addr, hi)
    ensures LeafFor(p.level.Next().value, addr, ChunkEnd(p.level, addr, hi), template, va) ==
              LeafFor(p.level, lo, hi, template, va)
  {
    var l := p.level;
    ChunkFacts(p, lo, addr, hi);
    SameSlotStart(p, addr, va);
    FinerSlot(l, va);
    CoarsestInChunk(l.Next().value, l.SlotStart(addr), l.Size(), lo, addr, hi, ChunkEnd(l, addr, hi), va);
  }

  /** The call succeeded: the loop moves on to the next slot. */
  lemma CallStep(w0: seq<Word>, w: seq<Word>, w': seq<Word>, place0: Places, place: Places, place': Places, root: nat,
                 t: nat, c: nat, lo: nat, addr: nat, hi: nat, template: Descriptor)
    requires Progress(w0, w, place0, place, root, t, lo, addr, hi, template) && addr < hi
    requires !Fills(place0[t].level, addr, hi)
    requires Descends(w, place, root, t, c, addr) && c in place
    requires var end := ChunkEnd(place0[t].level, addr, hi);
             Grown(w, w', place, place', root, c, addr, end) && Translates(w, w', c, place[c], addr, end, end, template)
    ensures Progress(w0, w', place0, place', root, t, lo, ChunkEnd(place0[t].level, addr, hi), hi, template)
  {
    hide Tree, Walk, Descends, SlotsKept, Stored, Attributes, GoodPlace, NewTable, Extends, Coarsest, LeafFor;
    CallGrows(w0, w, w', place0, place, place', root, t, c, lo, addr, hi, template);
    var p := place0[t];
    var end := ChunkEnd(p.level, addr, hi);
    forall va: nat | p.Contains(va)
      ensures Walk(w', t, p.level, va) ==
              if lo <= va < end then Some(LeafFor(p.level, lo, hi, template, va)) else Walk(w0, t, p.level, va)
    {
      WalksAfterCall(w, w', place, place', root, t, c, addr, end, va);
      if addr <= va < end {
        ChunkLeaf(p, lo, addr, hi, template, va);
      }
    }
  }

  lemma CallGrows(w0: seq<Word>, w: seq<Word>, w': seq<Word>, place0: Places, place: Places, place': Places,
                  root: nat, t: nat, c: nat, lo: nat, addr: nat, hi: nat, template: Descriptor)
    requires Progress(w0, w, place0, place, root, t, lo, addr, hi, template) && addr < hi
    requires !Fills(place0[t].level, addr, hi)
    requires Descends(w, place, root, t, c, addr) && c in place
    requires Grown(w, w', place, place', root, c, addr, ChunkEnd(place0[t].level, addr, hi))
    ensures var (p, end) := (place0[t], ChunkEnd(place0[t].level, addr, hi));
            && Grown(w0, w', place0, place', root, t, lo, hi) && addr < end <= SlotEnd(p.level, addr) && end <= hi
            && (end == hi || p.level.IsAligned(end))
            && place[t] == p && p.level.Next().Some? && place[c].level == p.level.Next().value
            && place[c].start == p.level.SlotStart(addr) && place[c].End() == SlotEnd(p.level, addr)
  {
    hide Tree, Walk, Descends, SlotsKept, NewTable, Extends, Translates, Level.Size, Level.SlotStart, Level.SlotOf,
      Place.Child, Place.SlotContains;
    var p := place0[t];
    var end := ChunkEnd(p.level, addr, hi);
    ProgressFacts(w0, w, place0, place, root, t, lo, addr, hi, template);
    CallPlace(w, place, root, t, c, lo, addr, hi);
    hide GoodPlace, ChunkEnd, SlotEnd, Fills, Place.End, Place.Contains;
    CallFacts(w, w', place, place', root, c, addr, end);
    KeptAbove(w, w', place, p.level, place[c].level, addr, end);
    KeptChain(w0, w, w', place0, place, p.level, lo, hi, addr, end);
    CallExtends(place0, place, place', p, place[c], lo, addr, hi);
  }

  lemma CallPlace(w: seq<Word>, place: Places, root: nat, t: nat, c: nat, lo: nat, addr: nat, hi: nat)
    requires Descends(w, place, root, t, c, addr) && c in place && place[t].start <= lo <= addr < hi <= place[t].End()
    requires addr == lo || place[t].level.IsAligned(addr)
    ensures var (p, q, end) := (place[t], place[c], ChunkEnd(place[t].level, addr, hi));
            && p.level.Next().Some? && q.level == p.level.Next().value && q.level.Number() > p.level.Number()
            && q.start == p.level.SlotStart(addr) && q.End() == SlotEnd(p.level, addr)
            && p.start <= q.start && q.End() <= p.End()
            && addr < end <= hi && end <= SlotEnd(p.level, addr) && (end == hi || p.level.IsAligned(end))
  {
    hide Tree, Walk;
    var p := place[t];
    DescendFacts(w, place, root, t, c, addr);
    ChunkFacts(p, lo, addr, hi);
    ChildFacts(p, p.level.SlotOf(addr), addr);
  }

  /** The call failed: nothing is torn, here either. */
  lemma CallStop(w0: seq<Word>, w: seq<Word>, w': seq<Word>, place0: Places, place: Places, place': Places, root: nat,
                 t: nat, c: nat, lo: nat, addr: nat, hi: nat, template: Descriptor)
    requires Progress(w0, w, place0, place, root, t, lo, addr, hi, template) && addr < hi
    requires !Fills(place0[t].level, addr, hi)
    requires Descends(w, place, root, t, c, addr) && c in place
    requires var end := ChunkEnd(place0[t].level, addr, hi);
             Grown(w, w', place, place', root, c, addr, end) && Untorn(w, w', c, place[c], addr, end, template)
    ensures Grown(w0, w', place0, place', root, t, lo, hi) && Untorn(w0, w', t, place0[t], lo, hi, template)
  {
    hide Tree, Walk, Descends, SlotsKept, Stored, Attributes, GoodPlace, NewTable, Extends, Coarsest, LeafFor;
    CallGrows(w0, w, w', place0, place, place', root, t, c, lo, addr, hi, template);
    var p := place0[t];
    var end := ChunkEnd(p.level, addr, hi);
    forall va: nat | p.Contains(va)
      ensures || Walk(w', t, p.level, va) == Walk(w0, t, p.level, va)
              || (lo <= va < hi && Walk(w', t, p.level, va) == Some(LeafFor(p.level, lo, hi, template, va)))
    {
      WalksAfterCall(w, w', place, place', root, t, c, addr, end, va);
      if addr <= va < end {
        ChunkLeaf(p, lo, addr, hi, template, va);
      }
    }
  }

  /** Stopping here leaves nothing torn. */
  lemma StopHere(w0: seq<Word>, w: seq<Word>, place0: Places, place: Places, root: nat, t: nat, lo: nat, addr: nat,
                 hi: nat, template: Descriptor)
    requires Progress(w0, w, place0, place, root, t, lo, addr, hi, template)
    ensures Grown(w0, w, place0, place, root, t, lo, hi) && Untorn(w0, w, t, place0[t], lo, hi, template)
  {
    hide Grown, Walk, LeafFor;
  }

  // ----- What an error says about the range

  /** No table serves addresses of the range alone. */
  ghost predicate NoTableInside(place: Places, l: Level, lo: nat, hi: nat) {
    forall u | u in place && place[u].level.Number() > l.Number() :: !(lo <= place[u].start && place[u].End() <= hi)
  }

  /** The address is mapped by a leaf too coarse to be one of the range's. */
  ghost predicate TooCoarse(w: seq<Word>, t: nat, l: Level, lo: nat, hi: nat, va: nat) {
    var landing := Walk(w, t, l, va);
    landing.Some? && landing.value.level.Number() < Coarsest(l, lo, hi, va).Number()
  }

  /**
   Nothing is in the way of the range: its ends are on pages, no table is for addresses in it alone, no leaf is
   too coarse.
  */
  ghost predicate Mappable(w: seq<Word>, place: Places, t: nat, lo: nat, hi: nat)
    requires t in place
  {
    lo < hi ==>
      && lo % PAGE_SIZE == 0 && hi % PAGE_SIZE == 0 && NoTableInside(place, place[t].level, lo, hi)
      && forall va: nat | lo <= va < hi :: !TooCoarse(w, t, place[t].level, lo, hi, va)
  }

  /** The error is the range's fault, as it was before anything was mapped; memory is nobody's. */
  ghost predicate Blames(error: MapError, w: seq<Word>, place: Places, t: nat, lo: nat, hi: nat)
    requires t in place
  {
    match error
    case OutOfMemory => true
    case Unaligned(_) => lo < hi && (lo % PAGE_SIZE != 0 || hi % PAGE_SIZE != 0)
    case BlockInTheWay(va, _) => lo <= va < hi && TooCoarse(w, t, place[t].level, lo, hi, va)
    case TableInTheWay(_, _) => !NoTableInside(place, place[t].level, lo, hi)
  }

  /** Page-aligned, nothing mapped in it, and no table for addresses inside it alone. */
  ghost predicate Clear(w: seq<Word>, place: Places, t: nat, lo: nat, hi: nat)
    requires t in place
  {
    && lo % PAGE_SIZE == 0 && hi % PAGE_SIZE == 0
    && (forall va: nat | lo <= va < hi :: Walk(w, t, place[t].level, va) == None)
    && NoTableInside(place, place[t].level, lo, hi)
  }

  /** A clear range is to blame for nothing. */
  lemma ClearBlameless(error: MapError, w: seq<Word>, place: Places, t: nat, lo: nat, hi: nat)
    requires t in place && Clear(w, place, t, lo, hi) && Blames(error, w, place, t, lo, hi)
    ensures error.OutOfMemory?
  {
    hide Walk, NoTableInside;
  }

  /** An error that blames the range names something in its way. */
  lemma BlamedIsUnmappable(error: MapError, w: seq<Word>, place: Places, t: nat, lo: nat, hi: nat)
    requires t in place && Blames(error, w, place, t, lo, hi) && !error.OutOfMemory?
    ensures !Mappable(w, place, t, lo, hi)
  {
    hide Walk, Coarsest, TooCoarse;
    if error.TableInTheWay? {
      var u :| u in place && place[u].level.Number() > place[t].level.Number() && lo <= place[u].start &&
        place[u].End() <= hi;
      assert place[u].start < place[u].End();
    }
  }

  /** A table where a leaf should go was there to begin with, for addresses of the range alone. */
  lemma TableBlames(w0: seq<Word>, w: seq<Word>, place0: Places, place: Places, root: nat, t: nat, lo: nat, addr: nat,
                    hi: nat, template: Descriptor)
    requires Progress(w0, w, place0, place, root, t, lo, addr, hi, template) && addr < hi
    requires Fills(place0[t].level, addr, hi)
    requires Leads(w, place, t, place0[t].level.SlotOf(addr))
    ensures !NoTableInside(place0, place0[t].level, lo, hi)
  {
    hide Tree, Walk, Progress, FromWord;
    ProgressFacts(w0, w, place0, place, root, t, lo, addr, hi, template);
    ChunkOf(w0, w, place0, place, root, t, lo, addr, hi, template);
    ChunkFacts(place0[t], lo, addr, hi);
    var i := place0[t].level.SlotOf(addr);
    var c := SlotAt(w, t, i).address;
    assert LeadsTo(w, place, t, i, c);
    DescendFacts(w, place, root, t, c, addr);
    SizeIsShift(place0[t].level);
    hide Leads, LeadsTo;
    InsideWasThere(w0, w, place0, place, root, t, lo, addr, hi, template, c);
  }

  /** Tables made on the way reach out of the range, so one inside it is older. */
  lemma InsideWasThere(w0: seq<Word>, w: seq<Word>, place0: Places, place: Places, root: nat, t: nat, lo: nat,
                       addr: nat, hi: nat, template: Descriptor, c: nat)
    requires Progress(w0, w, place0, place, root, t, lo, addr, hi, template) && c in place
    requires place[c].level.Number() > place0[t].level.Number() && lo <= place[c].start && place[c].End() <= hi
    ensures !NoTableInside(place0, place0[t].level, lo, hi)
  {
    hide Tree, SlotsKept, Walk, LeafFor;
    assert c !in place0 ==> NewTable(place[c], place0[t], lo, hi);
  }

  lemma ChunkOf(w0: seq<Word>, w: seq<Word>, place0: Places, place: Places, root: nat, t: nat, lo: nat, addr: nat,
                hi: nat, template: Descriptor)
    requires Progress(w0, w, place0, place, root, t, lo, addr, hi, template) && addr < hi
    ensures place0[t].Contains(addr) && (addr == lo || place0[t].level.IsAligned(addr))
  {
  }

  /** Addresses the walk has not come to translate as they did. */
  lemma AheadUntouched(w0: seq<Word>, w: seq<Word>, place0: Places, place: Places, root: nat, t: nat, lo: nat,
                       addr: nat, hi: nat, template: Descriptor, va: nat)
    requires Progress(w0, w, place0, place, root, t, lo, addr, hi, template) && addr <= va < hi
    ensures Walk(w, t, place0[t].level, va) == Walk(w0, t, place0[t].level, va)
  {
    hide Tree, Walk, LeafFor, Grown;
    assert place0[t].Contains(va);
  }

  /** So a block where a table should go was there to begin with, and covers more than the range. */
  lemma BlockBlames(w0: seq<Word>, w: seq<Word>, place0: Places, place: Places, root: nat, t: nat, lo: nat, addr: nat,
                    hi: nat, template: Descriptor)
    requires Progress(w0, w, place0, place, root, t, lo, addr, hi, template) && addr < hi
    requires WordOf(t, place0[t].level.SlotOf(addr)) < |w| && SlotAt(w, t, place0[t].level.SlotOf(addr)).kind == Block
    requires place0[t].level.Next().Some? && !Fills(place0[t].level, addr, hi)
    ensures TooCoarse(w0, t, place0[t].level, lo, hi, addr)
  {
    AheadUntouched(w0, w, place0, place, root, t, lo, addr, hi, template, addr);
    ChunkOf(w0, w, place0, place, root, t, lo, addr, hi, template);
    ProgressFacts(w0, w, place0, place, root, t, lo, addr, hi, template);
    ChunkFacts(place0[t], lo, addr, hi);
    NotCoarsest(place0[t].level, lo, hi, addr);
    hide Progress, Walk, Coarsest, FromWord, GoodPlace, Fills, Tree, TablePage, Level.SlotOf, Level.SlotStart;
    BlockWalks(w, t, place0[t].level, addr);
  }

  /** A slot that reaches out of the range is no leaf of it. */
  lemma NotCoarsest(l: Level, lo: nat, hi: nat, va: nat)
    requires l.Next().Some? && !(lo <= l.SlotStart(va) && SlotEnd(l, va) <= hi)
    ensures Coarsest(l, lo, hi, va).Number() > l.Number()
  {
    CoarsestBelow(l.Next().value, lo, hi, va);
  }

  lemma {:induction false} CoarsestBelow(l: Level, lo: nat, hi: nat, va: nat)
    ensures Coarsest(l, lo, hi, va).Number() >= l.Number()
    decreases 3 - l.Number()
  {
    hide Level.SlotStart, Level.Size;
    if l.Next().Some? {
      CoarsestBelow(l.Next().value, lo, hi, va);
    }
  }

  lemma BlockWalks(w: seq<Word>, t: nat, level: Level, va: nat)
    requires WordOf(t, level.SlotOf(va)) < |w| && SlotAt(w, t, level.SlotOf(va)).kind == Block
    ensures Walk(w, t, level, va).Some? && Walk(w, t, level, va).value.level == level
  {
    hide FromWord, Level.SlotOf;
  }

  /** An address too fine for a page is an end of the range that is not on a page. */
  lemma PartPageBlames(lo: nat, addr: nat, hi: nat)
    requires lo <= addr < hi && !Fills(Level3, addr, hi) && (addr == lo || Level3.IsAligned(addr))
    ensures lo % PAGE_SIZE != 0 || hi % PAGE_SIZE != 0
  {
  }

  /** What the chunk handed down is blamed for, the whole range is. */
  lemma BlameRises(error: MapError, w0: seq<Word>, w: seq<Word>, place0: Places, place: Places, root: nat, t: nat,
                   c: nat, lo: nat, addr: nat, hi: nat, template: Descriptor)
    requires Progress(w0, w, place0, place, root, t, lo, addr, hi, template) && addr < hi
    requires Descends(w, place, root, t, c, addr) && c in place && !Fills(place0[t].level, addr, hi)
    requires Blames(error, w, place, c, addr, ChunkEnd(place0[t].level, addr, hi))
    ensures Blames(error, w0, place0, t, lo, hi)
  {
    hide Tree, Walk, Leads, Progress, FromWord, Coarsest;
    ProgressFacts(w0, w, place0, place, root, t, lo, addr, hi, template);
    ChunkOf(w0, w, place0, place, root, t, lo, addr, hi, template);
    DescendFacts(w, place, root, t, c, addr);
    var p := place0[t];
    var end := ChunkEnd(p.level, addr, hi);
    ChunkFacts(p, lo, addr, hi);
    match error {
      case OutOfMemory =>
      case Unaligned(_) =>
        if addr != lo {
          PageAligned(p.level, addr);
        }
        if end != hi {
          PageAligned(p.level, end);
        }
      case BlockInTheWay(va, _) =>
        SameSlotStart(p, addr, va);
        ThroughSlot(w, place, t, c, p.level.SlotOf(addr), va);
        AheadUntouched(w0, w, place0, place, root, t, lo, addr, hi, template, va);
        ChunkLeaf(p, lo, addr, hi, template, va);
      case TableInTheWay(_, _) =>
        var u :| u in place && place[u].level.Number() > place[c].level.Number() && addr <= place[u].start &&
          place[u].End() <= end;
        SizeIsShift(p.level);
        InsideWasThere(w0, w, place0, place, root, t, lo, addr, hi, template, u);
    }
  }

  lemma PageAligned(l: Level, a: nat)
    requires l.IsAligned(a)
    ensures a % PAGE_SIZE == 0
  {
    hide Level.Size;
    if l.Next().Some? {
      AlignedFiner(l, a);
      if l.Next().value.Next().Some? {
        AlignedFiner(l.Next().value, a);
      }
    }
    assert Level3.IsAligned(a);
    PageIsSlot();
  }

  lemma PageIsSlot()
    ensures Level3.Size() == PAGE_SIZE
  {
  }

  // ----- Words that are no table's

  /** No word of any table differs. */
  ghost predicate TablesSame(w: seq<Word>, w': seq<Word>, place: Places) {
    && |w'| == |w|
    && forall t: nat, i: nat | t in place && i < SLOTS && WordOf(t, i) < |w| :: w'[WordOf(t, i)] == w[WordOf(t, i)]
  }

  lemma OtherWordsProgress(w0: seq<Word>, w: seq<Word>, w': seq<Word>, place0: Places, place: Places, root: nat,
                           t: nat, lo: nat, addr: nat, hi: nat, template: Descriptor)
    requires Progress(w0, w, place0, place, root, t, lo, addr, hi, template) && TablesSame(w, w', place)
    ensures Progress(w0, w', place0, place, root, t, lo, addr, hi, template)
  {
    hide Walk, LeafFor, Extends, GoodPlace, TablePage, FromWord, WordOf, Tree, SlotsKept, TablesSame, Place.Contains,
      Place.End;
    ProgressFacts(w0, w, place0, place, root, t, lo, addr, hi, template);
    OtherWordsTree(w, w', place, root);
    OtherWordsKept(w, w', place, place0[t].level, lo);
    KeptChain(w0, w, w', place0, place, place0[t].level, lo, hi, lo, lo);
    OtherWordsWalk(w, w', place, root, t);
  }

  lemma OtherWordsKept(w: seq<Word>, w': seq<Word>, place: Places, l: Level, x: nat)
    requires TablesSame(w, w', place)
    ensures SlotsKept(w, w', place, l, x, x)
  {
    hide WordOf, Overlaps;
  }

  lemma OtherWordsWalk(w: seq<Word>, w': seq<Word>, place: Places, root: nat, t: nat)
    requires Tree(w, place, root) && TablesSame(w, w', place) && t in place
    ensures forall va: nat | place[t].Contains(va) :: Walk(w', t, place[t].level, va) == Walk(w, t, place[t].level, va)
  {
    hide Walk, Tree, SlotsKept, TablesSame;
    OtherWordsKept(w, w', place, Level1, 0);
    forall va: nat | place[t].Contains(va)
      ensures Walk(w', t, place[t].level, va) == Walk(w, t, place[t].level, va)
    {
      WalkFrame(w, w', place, root, t, Level1, 0, 0, va);
    }
  }

  lemma OtherWordsTree(w: seq<Word>, w': seq<Word>, place: Places, root: nat)
    requires Tree(w, place, root) && TablesSame(w, w', place)
    ensures Tree(w', place, root)
  {
    hide FromWord, Sited, Rooted;
    forall u: nat, j: nat
      ensures Leads(w', place, u, j) <==> Leads(w, place, u, j)
      ensures Leads(w, place, u, j) ==> SlotAt(w', u, j) == SlotAt(w, u, j)
    {
    }
    ParentsKept(w, w', place, place, root);
    StillRooted(w, w', place, root);
  }

  // ----- How many tables a range costs

  /** Tables needed, from `level` down, because a range has an end at `x` that is not on a slot's edge. */
  function Edge(level: Level, x: nat): nat
    decreases 3 - level.Number()
  {
    match level.Next()
    case None => 0
    case Some(next) => if level.IsAligned(x) then 0 else 1 + Edge(next, x)
  }

  lemma EdgeBound(level: Level, x: nat)
    ensures Edge(level, x) <= 3 - level.Number()
  {
  }

  lemma AlignedEdge(l: Level, x: nat)
    requires l.IsAligned(x)
    ensures Edge(l, x) == 0 && (l.Next().Some? ==> Edge(l.Next().value, x) == 0)
  {
    if l.Next().Some? {
      AlignedFiner(l, x);
    }
  }

  lemma AlignedFiner(l: Level, x: nat)
    requires l.IsAligned(x) && l.Next().Some?
    ensures l.Next().value.IsAligned(x)
  {
    var (q, size) := (x / l.Size(), l.Next().value.Size());
    QuotientIsNat(x, l.Size());
    Regroup(q, 0, size);
    MultipleMod(q * SLOTS, size);
  }

  /** What one partial slot costs, added to what the slots before it cost. */
  lemma EdgeStep(l: Level, lo: nat, addr: nat, hi: nat, before: nat, added: nat)
    requires l.Next().Some? && lo <= addr < hi && !Fills(l, addr, hi) && (addr == lo || l.IsAligned(addr))
    requires before <= (if addr == lo then 0 else Edge(l, lo))
    requires var end := ChunkEnd(l, addr, hi); added <= 1 + Edge(l.Next().value, addr) + Edge(l.Next().value, end)
    ensures before + added <= Edge(l, lo) + (if ChunkEnd(l, addr, hi) == hi then Edge(l, hi) else 0)
  {
    NextAligned(l, addr);
    var end := ChunkEnd(l, addr, hi);
    if l.IsAligned(addr) {
      AlignedEdge(l, addr);
    }
    if end == SlotEnd(l, addr) {
      AlignedEdge(l, end);
    }
    EdgeUnfold(l, lo);
    EdgeUnfold(l, hi);
    hide Level.IsAligned, Level.SlotStart, Level.Size, Edge;
  }

  lemma EdgeUnfold(l: Level, x: nat)
    requires l.Next().Some?
    ensures Edge(l, x) == if l.IsAligned(x) then 0 else 1 + Edge(l.Next().value, x)
  {
    hide Level.IsAligned;
  }
}
