/**
 Translation tables as memory holds them, and what a walk through them finds.

 A ghost map places every table: which level it is at and which addresses it translates. A tree in
 memory is one whose slots agree with the map, so no table is reached by two ways.
*/
module Trees {
  import opened Wrappers
  import opened Bits
  import opened Ram
  import opened Levels
  import opened Descriptors

  /** Where a walk ends: the physical address, the level of the leaf, and everything else it says. */
  datatype Landing = Landing(address: nat, level: Level, attributes: Descriptor)

  function Attributes(d: Descriptor): Descriptor {
    d.(address := 0)
  }

  function Land(d: Descriptor, level: Level, va: nat): Landing {
    Landing(Or(d.address, va % level.Size()), level, Attributes(d))
  }

  /** `Table::translate_at`: what the walker finds at `va`, starting from the table at `base`. */
  function Walk(w: seq<Word>, base: nat, level: Level, va: nat): Option<Landing>
    decreases 3 - level.Number()
  {
    var i := base / 8 + level.SlotOf(va);
    if i >= |w| then None
    else
      var d := FromWord(w[i]);
      match d.kind
      case Invalid => None
      case Block => Some(Land(d, level, va))
      case Table =>
        match level.Next()
        case None => Some(Land(d, level, va))
        case Some(next) => if d.address == 0 then None else Walk(w, d.address, next, va)
  }

  /** The addresses a table translates, and from which level. */
  datatype Place = Place(level: Level, start: nat) {
    function End(): nat {
      start + level.Span()
    }

    predicate Contains(va: nat) {
      start <= va < End()
    }

    /** The place of the table a slot leads to. */
    function Child(i: nat): Place
      requires level.Next().Some?
    {
      Place(level.Next().value, start + i * level.Size())
    }

    function SlotStart(i: nat): nat {
      start + i * level.Size()
    }

    predicate SlotContains(i: nat, va: nat) {
      SlotStart(i) <= va < SlotStart(i) + level.Size()
    }
  }

  type Places = map<nat, Place>

  /** A whole non-zero page of memory, at an address a descriptor can hold. */
  predicate TablePage(size: nat, t: nat) {
    t % PAGE_SIZE == 0 && 0 < t && t + PAGE_SIZE <= size * 8 && t + PAGE_SIZE <= ADDRESS_LIMIT
  }

  predicate GoodPlace(p: Place) {
    p.start % p.level.Span() == 0 && p.End() <= SPACE
  }

  ghost predicate Sited(size: nat, place: Places) {
    forall t | t in place :: TablePage(size, t) && GoodPlace(place[t])
  }

  function WordOf(t: nat, i: nat): nat {
    t / 8 + i
  }

  /** The descriptor in slot `i` of table `t`. */
  function SlotAt(w: seq<Word>, t: nat, i: nat): Descriptor
    requires WordOf(t, i) < |w|
  {
    FromWord(w[WordOf(t, i)])
  }

  /** Slot `i` of table `t` leads to another table. */
  ghost predicate Leads(w: seq<Word>, place: Places, t: nat, i: nat) {
    t in place && i < SLOTS && place[t].level.Next().Some? && WordOf(t, i) < |w| && SlotAt(w, t, i).kind == Table
  }

  ghost predicate LeadsTo(w: seq<Word>, place: Places, t: nat, i: nat, c: nat) {
    Leads(w, place, t, i) && SlotAt(w, t, i).address == c
  }

  /** What a slot leads to is a table, in the place of that slot. */
  ghost predicate Closed(w: seq<Word>, place: Places) {
    forall t: nat, i: nat | Leads(w, place, t, i) ::
      var c := SlotAt(w, t, i).address; c in place && place[c] == place[t].Child(i)
  }

  ghost predicate HasParent(w: seq<Word>, place: Places, c: nat) {
    exists t: nat, i: nat :: LeadsTo(w, place, t, i, c)
  }

  /** One table per place, and a way to every table but the root. */
  ghost predicate Rooted(w: seq<Word>, place: Places, root: nat) {
    && root in place && place[root] == Place(Level1, 0)
    && (forall t, u | t in place && u in place && place[t] == place[u] :: t == u)
    && (forall c | c in place && c != root :: HasParent(w, place, c))
  }

  ghost predicate Tree(w: seq<Word>, place: Places, root: nat) {
    Sited(|w|, place) && Closed(w, place) && Rooted(w, place, root)
  }

  /** No table is reached two ways. */
  lemma NoSharing(w: seq<Word>, place: Places, root: nat, t: nat, i: nat, u: nat, j: nat)
    requires Tree(w, place, root) && Leads(w, place, t, i) && Leads(w, place, u, j)
    requires SlotAt(w, t, i).address == SlotAt(w, u, j).address
    ensures t == u && i == j
  {
    hide FromWord, Rooted, Sited;
    GoodAt(|w|, place, t);
    GoodAt(|w|, place, u);
    SamePlace(place[t], i, place[u], j);
    hide Closed;
    OneTable(w, place, root, t, u);
  }

  lemma OneTable(w: seq<Word>, place: Places, root: nat, t: nat, u: nat)
    requires Rooted(w, place, root) && t in place && u in place && place[t] == place[u]
    ensures t == u
  {
    hide HasParent;
  }

  lemma GoodAt(size: nat, place: Places, t: nat)
    requires Sited(size, place) && t in place
    ensures TablePage(size, t) && GoodPlace(place[t])
  {
  }

  lemma SlotBounds(l: Level, start: nat, i: nat)
    requires i < SLOTS
    ensures start <= start + i * l.Size() && start + i * l.Size() + l.Size() <= start + l.Span()
  {
    MulMono(i + 1, SLOTS, l.Size());
  }

  lemma SameStart(m: nat, a: nat, b: nat, x: nat)
    requires m >= 1 && a % m == 0 && b % m == 0 && a <= x < a + m && b <= x < b + m
    ensures a == b
  {
    QuotientIsNat(a, m);
    QuotientIsNat(b, m);
    DivUnique(x, m, a / m, x - a);
    DivUnique(x, m, b / m, x - b);
  }

  // ----- What an operation leaves alone

  predicate Overlaps(p: Place, i: nat, lo: nat, hi: nat) {
    lo < hi && p.SlotStart(i) < hi && lo < p.SlotStart(i) + p.level.Size()
  }

  /** Slots above the level, and slots that meet none of `[lo, hi)`, are as they were. */
  ghost predicate SlotsKept(w: seq<Word>, w': seq<Word>, place: Places, level: Level, lo: nat, hi: nat) {
    && |w'| == |w|
    && forall t: nat, i: nat | t in place && i < SLOTS && WordOf(t, i) < |w| ::
         place[t].level.Number() < level.Number() || !Overlaps(place[t], i, lo, hi) ==>
           w'[WordOf(t, i)] == w[WordOf(t, i)]
  }

  /** A walk depends only on slots that contain the address. */
  lemma {:induction false} WalkFrame(w: seq<Word>, w': seq<Word>, place: Places, root: nat, t: nat, level: Level,
                                     lo: nat, hi: nat, va: nat)
    requires Tree(w, place, root) && SlotsKept(w, w', place, level, lo, hi) && t in place && place[t].Contains(va)
    requires level.Number() <= place[t].level.Number()
    requires !Overlaps(place[t], place[t].level.SlotOf(va), lo, hi)
    ensures Walk(w', t, place[t].level, va) == Walk(w, t, place[t].level, va)
    decreases 3 - place[t].level.Number()
  {
    hide FromWord, Rooted, Sited, TablePage;
    var p := place[t];
    var i := p.level.SlotOf(va);
    GoodAt(|w|, place, t);
    SlotsTile(p.level, p.start, va);
    SlotInMemory(|w|, t, i);
    if Leads(w, place, t, i) {
      var c := SlotAt(w, t, i).address;
      GoodAt(|w|, place, c);
      assert c > 0 by {
        SlotInMemory(|w|, c, 0);
      }
      ChildFacts(p, i, va);
      InnerSlotApart(p, i, va, lo, hi);
      WalkFrame(w, w', place, root, c, level, lo, hi, va);
    }
  }

  lemma SlotInMemory(size: nat, t: nat, i: nat)
    requires TablePage(size, t) && i < SLOTS
    ensures WordOf(t, i) < size && t > 0 && WordOf(t, 0) * 8 == t
  {
    var q := t / PAGE_SIZE;
    assert t == q * PAGE_SIZE;
    DivUnique(t, 8, q * 512, 0);
  }

  /** The child's place is its slot. */
  lemma ChildFacts(p: Place, i: nat, va: nat)
    requires p.level.Next().Some? && p.start % p.level.Span() == 0 && i < SLOTS
    ensures p.Child(i).End() == p.SlotStart(i) + p.level.Size() && p.Child(i).start % p.Child(i).level.Span() == 0
    ensures p.Child(i).Contains(va) <==> p.SlotContains(i, va)
    ensures p.start <= p.Child(i).start && p.Child(i).End() <= p.End()
  {
    var (q, size) := (p.start / p.level.Span(), p.level.Size());
    SizeIsShift(p.level);
    SlotBounds(p.level, p.start, i);
    Regroup(q, i, size);
    MultipleMod(q * SLOTS + i, size);
  }

  /** A slot inside a slot meets nothing the outer one does not. */
  lemma InnerSlotApart(p: Place, i: nat, va: nat, lo: nat, hi: nat)
    requires p.level.Next().Some? && p.start % p.level.Span() == 0 && i < SLOTS && p.SlotContains(i, va)
    requires !Overlaps(p, i, lo, hi)
    ensures var c := p.Child(i); !Overlaps(c, c.level.SlotOf(va), lo, hi)
  {
    ChildFacts(p, i, va);
    var c := p.Child(i);
    SlotsTile(c.level, c.start, va);
  }

  // ----- What mapping a range should achieve

  /** The coarsest level, from `level` down, whose slot around `va` lies inside `[lo, hi)`. */
  function Coarsest(level: Level, lo: nat, hi: nat, va: nat): Level
    decreases 3 - level.Number()
  {
    if level.Next().None? || (lo <= level.SlotStart(va) && level.SlotStart(va) + level.Size() <= hi) then level
    else Coarsest(level.Next().value, lo, hi, va)
  }

  /** The leaf `va` should get: itself, with the template's attributes. */
  function LeafFor(level: Level, lo: nat, hi: nat, template: Descriptor, va: nat): Landing {
    var l := Coarsest(level, lo, hi, va);
    Landing(va, l, Attributes(Stored(template).(kind := KindOf(l))))
  }

  /** New tables are below table `p`, reach into `[lo, hi)` and out of it. */
  ghost predicate Extends(place: Places, place': Places, p: Place, lo: nat, hi: nat) {
    && (forall t | t in place :: t in place' && place'[t] == place[t])
    && forall t | t in place' && t !in place :: NewTable(place'[t], p, lo, hi)
  }

  predicate NewTable(q: Place, p: Place, lo: nat, hi: nat) {
    && q.level.Number() > p.level.Number() && p.start <= q.start && q.End() <= p.End()
    && lo < hi && q.start < hi && lo < q.End() && !(lo <= q.start && q.End() <= hi)
  }

  /** `[lo, addr)` translates to itself as asked and everything else as before. */
  ghost predicate Translates(w: seq<Word>, w': seq<Word>, t: nat, p: Place, lo: nat, addr: nat, hi: nat,
                             template: Descriptor) {
    forall va: nat | p.Contains(va) ::
      Walk(w', t, p.level, va) ==
      if lo <= va < addr then Some(LeafFor(p.level, lo, hi, template, va)) else Walk(w, t, p.level, va)
  }

  /** Every address translates as before or, inside `[lo, hi)`, as asked. */
  ghost predicate Untorn(w: seq<Word>, w': seq<Word>, t: nat, p: Place, lo: nat, hi: nat, template: Descriptor) {
    forall va: nat | p.Contains(va) ::
      || Walk(w', t, p.level, va) == Walk(w, t, p.level, va)
      || (lo <= va < hi && Walk(w', t, p.level, va) == Some(LeafFor(p.level, lo, hi, template, va)))
  }

  /** The tree is a tree still, and only what mapping `[lo, hi)` under `t` may touch is touched. */
  ghost predicate Grown(w: seq<Word>, w': seq<Word>, place: Places, place': Places, root: nat, t: nat, lo: nat, hi: nat)
    requires t in place
  {
    && Tree(w', place', root) && Extends(place, place', place[t], lo, hi)
    && SlotsKept(w, w', place, place[t].level, lo, hi)
  }

  lemma Untouched(w: seq<Word>, place: Places, root: nat, t: nat, lo: nat, hi: nat, template: Descriptor)
    requires Tree(w, place, root) && t in place
    ensures Grown(w, w, place, place, root, t, lo, hi) && Translates(w, w, t, place[t], lo, lo, hi, template)
  {
  }

  // ----- One slot at a time

  /** A slot that leads nowhere is overwritten with a leaf, or emptied: the tables stay a tree. */
  lemma LeafKeepsTree(w: seq<Word>, w': seq<Word>, place: Places, root: nat, t: nat, i: nat)
    requires Tree(w, place, root) && t in place && i < SLOTS && !Leads(w, place, t, i)
    requires |w'| == |w| && (forall j: nat | j < |w| && j != WordOf(t, i) :: w'[j] == w[j]) && !Leads(w', place, t, i)
    ensures Tree(w', place, root)
  {
    hide FromWord, Sited, Rooted;
    forall u: nat, j: nat
      ensures Leads(w', place, u, j) <==> Leads(w, place, u, j)
      ensures Leads(w, place, u, j) ==> SlotAt(w', u, j) == SlotAt(w, u, j)
    {
      if u in place && j < SLOTS && !(u == t && j == i) {
        OtherSlot(|w|, place, t, i, u, j);
      }
    }
    ParentsKept(w, w', place, place, root);
    StillRooted(w, w', place, root);
  }

  lemma StillRooted(w: seq<Word>, w': seq<Word>, place: Places, root: nat)
    requires Rooted(w, place, root) && forall c | c in place && c != root :: HasParent(w', place, c)
    ensures Rooted(w', place, root)
  {
    hide HasParent;
  }

  lemma ParentsKept(w: seq<Word>, w': seq<Word>, place: Places, place': Places, root: nat)
    requires Rooted(w, place, root)
    requires forall u: nat, j: nat | Leads(w, place, u, j) ::
               Leads(w', place', u, j) && SlotAt(w', u, j) == SlotAt(w, u, j)
    ensures forall c | c in place && c != root :: HasParent(w', place', c)
  {
    hide FromWord;
    forall c | c in place && c != root
      ensures HasParent(w', place', c)
    {
      assert HasParent(w, place, c);
      var u: nat, j: nat :| LeadsTo(w, place, u, j, c);
      assert Leads(w, place, u, j);
      assert LeadsTo(w', place', u, j, c);
    }
  }

  lemma OtherSlot(size: nat, place: Places, t: nat, i: nat, u: nat, j: nat)
    requires Sited(size, place) && t in place && u in place && i < SLOTS && j < SLOTS && !(u == t && j == i)
    ensures WordOf(t, i) != WordOf(u, j)
  {
    GoodAt(size, place, t);
    GoodAt(size, place, u);
    hide Sited, GoodPlace;
    TablesApart(t, u, i, j);
  }

  lemma TablesApart(t: nat, u: nat, i: nat, j: nat)
    requires t % PAGE_SIZE == 0 && u % PAGE_SIZE == 0 && i < SLOTS && j < SLOTS && (t != u || i != j)
    ensures WordOf(t, i) != WordOf(u, j)
  {
    var a, b := t / PAGE_SIZE, u / PAGE_SIZE;
    assert t / 8 == a * 512 && u / 8 == b * 512;
  }

  /** Slot `i` of table `t` was given a leaf for `addr`, and no other word differs. */
  ghost predicate LeafSet(w: seq<Word>, w': seq<Word>, place: Places, t: nat, addr: nat, template: Descriptor) {
    && t in place && place[t].Contains(addr) && place[t].level.IsAligned(addr)
    && var i := place[t].level.SlotOf(addr);
    && WordOf(t, i) < |w| && !Leads(w, place, t, i)
    && w' == w[WordOf(t, i) := ToWord(template.(kind := KindOf(place[t].level), address := addr))]
  }

  /** What is then read back from the slot. */
  lemma LeafReadBack(w: seq<Word>, w': seq<Word>, place: Places, t: nat, addr: nat, template: Descriptor)
    requires LeafSet(w, w', place, t, addr, template) && GoodPlace(place[t])
    ensures var (l, i) := (place[t].level, place[t].level.SlotOf(addr));
            && i < SLOTS && place[t].SlotStart(i) == addr && |w'| == |w| && WordOf(t, i) < |w|
            && !Leads(w', place, t, i) && (forall j: nat | j < |w| && j != WordOf(t, i) :: w'[j] == w[j])
            && SlotAt(w', t, i) == Stored(template).(kind := KindOf(l), address := addr)
  {
    var p := place[t];
    SlotsTile(p.level, p.start, addr);
    ReadBack(template.(kind := KindOf(p.level), address := addr));
    AddressKept(addr, p.level);
    hide FromWord, ToWord, AddressPage;
  }

  /** A leaf that fills a slot translates that slot to itself and changes no other address. */
  lemma LeafTranslates(w: seq<Word>, w': seq<Word>, place: Places, root: nat, t: nat, addr: nat, template: Descriptor)
    requires Tree(w, place, root) && LeafSet(w, w', place, t, addr, template)
    ensures Tree(w', place, root) && SlotsKept(w, w', place, place[t].level, addr, addr + place[t].level.Size())
    ensures forall va: nat | place[t].Contains(va) ::
              Walk(w', t, place[t].level, va) ==
              if addr <= va < addr + place[t].level.Size()
              then Some(Landing(va, place[t].level, Attributes(Stored(template).(kind := KindOf(place[t].level)))))
              else Walk(w, t, place[t].level, va)
  {
    hide FromWord, ToWord, Sited, Rooted, Closed;
    var p := place[t];
    var (l, i) := (p.level, p.level.SlotOf(addr));
    GoodAt(|w|, place, t);
    LeafReadBack(w, w', place, t, addr, template);
    hide LeafSet, AddressPage;
    LeafKeepsTree(w, w', place, root, t, i);
    LeafKeepsSlots(w, w', place, root, t, i);
    hide Tree, Leads, SlotsKept;
    forall va: nat | p.Contains(va)
      ensures Walk(w', t, l, va) ==
              if addr <= va < addr + l.Size()
              then Some(Landing(va, l, Attributes(Stored(template).(kind := KindOf(l)))))
              else Walk(w, t, l, va)
    {
      SlotsTile(l, p.start, va);
      if l.SlotOf(va) == i {
        LandsOnItself(SlotAt(w', t, i), l, va);
        LeafWalk(w', t, l, va);
      } else {
        SlotsSeparate(p, i, l.SlotOf(va));
        hide Walk;
        WalkFrame(w, w', place, root, t, l, addr, addr + l.Size(), va);
      }
    }
  }

  lemma LeafWalk(w: seq<Word>, t: nat, l: Level, va: nat)
    requires WordOf(t, l.SlotOf(va)) < |w| && SlotAt(w, t, l.SlotOf(va)).kind == KindOf(l)
    ensures Walk(w, t, l, va) == Some(Land(SlotAt(w, t, l.SlotOf(va)), l, va))
  {
    hide FromWord, Land, Level.SlotOf;
  }

  /** One slot of table `t` written: every slot that does not meet it, or is above it, is as it was. */
  lemma LeafKeepsSlots(w: seq<Word>, w': seq<Word>, place: Places, root: nat, t: nat, i: nat)
    requires Tree(w, place, root) && t in place && i < SLOTS && |w'| == |w|
    requires forall j: nat | j < |w| && j != WordOf(t, i) :: w'[j] == w[j]
    ensures var p := place[t]; SlotsKept(w, w', place, p.level, p.SlotStart(i), p.SlotStart(i) + p.level.Size())
  {
    var p := place[t];
    hide FromWord, Sited, Rooted, Closed, GoodPlace;
    forall u: nat, j: nat |
      && u in place && j < SLOTS && WordOf(u, j) < |w|
      && (place[u].level.Number() < p.level.Number() ||
           !Overlaps(place[u], j, p.SlotStart(i), p.SlotStart(i) + p.level.Size()))
      ensures w'[WordOf(u, j)] == w[WordOf(u, j)]
    {
      if u == t {
        OverlapsItself(p, i);
      }
      OtherSlot(|w|, place, t, i, u, j);
    }
  }

  lemma OverlapsItself(p: Place, i: nat)
    ensures Overlaps(p, i, p.SlotStart(i), p.SlotStart(i) + p.level.Size())
  {
  }

  lemma SlotsSeparate(p: Place, i: nat, j: nat)
    requires i != j
    ensures !Overlaps(p, j, p.SlotStart(i), p.SlotStart(i) + p.level.Size())
  {
    if i < j {
      MulMono(i + 1, j, p.level.Size());
    } else {
      MulMono(j + 1, i, p.level.Size());
    }
  }

  lemma AddressKept(addr: nat, l: Level)
    requires l.IsAligned(addr) && addr < SPACE
    ensures AddressPage(addr) * PAGE_SIZE == addr
  {
    WholePages(addr, l);
    assert addr == addr / PAGE_SIZE * PAGE_SIZE;
    assert addr / PAGE_SIZE < 0x10_0000_0000;
  }

  lemma WholePages(addr: nat, l: Level)
    requires l.IsAligned(addr)
    ensures addr % PAGE_SIZE == 0
  {
  }

  /** The leaf's address joined to the offset is the address walked. */
  lemma LandsOnItself(d: Descriptor, l: Level, va: nat)
    requires d.kind == KindOf(l) && d.address == l.SlotStart(va)
    ensures Land(d, l, va).address == va
  {
    SizeIsShift(l);
    var a := d.address;
    assert a == va / l.Size() * l.Size();
    QuotientIsNat(va, l.Size());
    MultipleMod(va / l.Size(), l.Size());
    AlignedIsDivisible(a, l.Offset());
    OrIsSum(a, va % l.Size(), l.Offset());
  }

  /** Slot `i` of table `t`, which was empty, was given the empty table `c`. */
  ghost predicate ChildSet(w: seq<Word>, w': seq<Word>, place: Places, t: nat, i: nat, c: nat) {
    && t in place && i < SLOTS && place[t].level.Next().Some? && WordOf(t, i) < |w| && SlotAt(w, t, i).kind == Invalid
    && c !in place && TablePage(|w|, c)
    && |w'| == |w| && SlotAt(w', t, i) == ZERO.(kind := Table, address := c)
    && (forall j: nat | j < SLOTS :: WordOf(c, j) < |w| && w'[WordOf(c, j)] == 0)
    && forall u: nat, j: nat | u in place && j < SLOTS && !(u == t && j == i) && WordOf(u, j) < |w| ::
         w'[WordOf(u, j)] == w[WordOf(u, j)]
  }

  /** The tables stay a tree, with one more table in it. */
  lemma ChildKeepsTree(w: seq<Word>, w': seq<Word>, place: Places, root: nat, t: nat, i: nat, c: nat)
    requires Tree(w, place, root) && ChildSet(w, w', place, t, i, c)
    ensures Tree(w', place[c := place[t].Child(i)], root)
  {
    hide FromWord, Sited, TablePage;
    var p, place' := place[t], place[c := place[t].Child(i)];
    ChildSited(|w|, place, t, i, c);
    ChildLeads(w, w', place, t, i, c);
    PlaceIsNew(w, place, root, t, i);
    hide ChildSet;
    ChildClosed(w, w', place, t, i, c);
    ChildRooted(w, w', place, root, t, i, c);
  }

  lemma ChildLeads(w: seq<Word>, w': seq<Word>, place: Places, t: nat, i: nat, c: nat)
    requires ChildSet(w, w', place, t, i, c)
    ensures var place' := place[c := place[t].Child(i)];
            && LeadsTo(w', place', t, i, c)
            && forall u: nat, j: nat ::
                 && (Leads(w', place', u, j) <==> Leads(w, place, u, j) || (u == t && j == i))
                 && (Leads(w, place, u, j) ==> SlotAt(w', u, j) == SlotAt(w, u, j))
  {
    hide FromWord, TablePage;
    var place' := place[c := place[t].Child(i)];
    EmptyTable(w', place', c);
  }

  lemma ChildRooted(w: seq<Word>, w': seq<Word>, place: Places, root: nat, t: nat, i: nat, c: nat)
    requires Rooted(w, place, root) && t in place && place[t].level.Next().Some? && c !in place
    requires forall u | u in place :: place[u] != place[t].Child(i)
    requires var place' := place[c := place[t].Child(i)];
             && LeadsTo(w', place', t, i, c)
             && forall u: nat, j: nat | Leads(w, place, u, j) ::
                  Leads(w', place', u, j) && SlotAt(w', u, j) == SlotAt(w, u, j)
    ensures Rooted(w', place[c := place[t].Child(i)], root)
  {
    hide FromWord, Leads;
    var place' := place[c := place[t].Child(i)];
    ParentsKept(w, w', place, place', root);
    assert HasParent(w', place', c);
    hide HasParent;
  }

  lemma ChildClosed(w: seq<Word>, w': seq<Word>, place: Places, t: nat, i: nat, c: nat)
    requires Closed(w, place) && t in place && place[t].level.Next().Some? && c !in place
    requires var place' := place[c := place[t].Child(i)];
             && LeadsTo(w', place', t, i, c)
             && forall u: nat, j: nat ::
                  && (Leads(w', place', u, j) <==> Leads(w, place, u, j) || (u == t && j == i))
                  && (Leads(w, place, u, j) ==> SlotAt(w', u, j) == SlotAt(w, u, j))
    ensures Closed(w', place[c := place[t].Child(i)])
  {
    hide FromWord;
  }

  lemma ChildSited(size: nat, place: Places, t: nat, i: nat, c: nat)
    requires Sited(size, place) && t in place && i < SLOTS && place[t].level.Next().Some? && TablePage(size, c)
    ensures Sited(size, place[c := place[t].Child(i)])
  {
    ChildFacts(place[t], i, 0);
  }

  lemma EmptyTable(w: seq<Word>, place: Places, c: nat)
    requires forall j: nat | j < SLOTS :: WordOf(c, j) < |w| && w[WordOf(c, j)] == 0
    ensures forall j: nat :: !Leads(w, place, c, j)
    ensures forall l: Level, va: nat :: Walk(w, c, l, va) == None
  {
    assert FromWord(0).kind == Invalid;
    hide FromWord;
    forall j: nat
      ensures !Leads(w, place, c, j)
    {
      assert j < SLOTS ==> WordOf(c, j) < |w|;
    }
    forall l: Level, va: nat
      ensures Walk(w, c, l, va) == None
    {
      assert WordOf(c, l.SlotOf(va)) < |w|;
    }
  }

  /** No table sits where an empty slot's table would. */
  lemma PlaceIsNew(w: seq<Word>, place: Places, root: nat, t: nat, i: nat)
    requires Tree(w, place, root) && t in place && i < SLOTS && place[t].level.Next().Some? && !Leads(w, place, t, i)
    ensures forall u | u in place :: place[u] != place[t].Child(i)
  {
    hide FromWord, Sited;
    var p := place[t];
    GoodAt(|w|, place, t);
    forall u | u in place && place[u] == p.Child(i)
      ensures false
    {
      assert HasParent(w, place, u);
      var v: nat, j: nat :| LeadsTo(w, place, v, j, u);
      GoodAt(|w|, place, v);
      SamePlace(place[v], j, p, i);
    }
  }

  lemma SamePlace(p: Place, i: nat, q: Place, j: nat)
    requires p.level.Next().Some? && q.level.Next().Some? && p.Child(i) == q.Child(j) && i < SLOTS && j < SLOTS
    requires p.start % p.level.Span() == 0 && q.start % q.level.Span() == 0
    ensures p == q && i == j
  {
    var l := p.level;
    SlotStartIsIn(l, p.start, i);
    SlotStartIsIn(l, q.start, j);
    hide Level.Size, Level.SlotOf;
    SameStart(l.Span(), p.start, q.start, p.SlotStart(i));
  }

  lemma SlotStartIsIn(l: Level, start: nat, i: nat)
    requires start % l.Span() == 0 && i < SLOTS
    ensures var va := start + i * l.Size(); l.SlotOf(va) == i && start <= va < start + l.Span()
  {
    assert l.Size() >= 1;
    hide Level.Size;
    SlotBounds(l, start, i);
    SlotsTile(l, start, start + i * l.Size());
  }

  /** An empty slot given an empty table translates nothing, as before. */
  lemma ChildTranslates(w: seq<Word>, w': seq<Word>, place: Places, root: nat, t: nat, i: nat, c: nat)
    requires Tree(w, place, root) && ChildSet(w, w', place, t, i, c)
    ensures var p := place[t];
            && SlotsKept(w, w', place, p.level, p.SlotStart(i), p.SlotStart(i) + p.level.Size())
            && forall va: nat | p.Contains(va) :: Walk(w', t, p.level, va) == Walk(w, t, p.level, va)
  {
    hide FromWord, Sited, Rooted, Closed, TablePage;
    var p := place[t];
    GoodAt(|w|, place, t);
    EmptyTable(w', place, c);
    OverlapsItself(p, i);
    assert SlotsKept(w, w', place, p.level, p.SlotStart(i), p.SlotStart(i) + p.level.Size());
    forall va: nat | p.Contains(va)
      ensures Walk(w', t, p.level, va) == Walk(w, t, p.level, va)
    {
      SlotsTile(p.level, p.start, va);
      if p.level.SlotOf(va) != i {
        SlotsSeparate(p, i, p.level.SlotOf(va));
        hide Walk;
        WalkFrame(w, w', place, root, t, p.level, p.SlotStart(i), p.SlotStart(i) + p.level.Size(), va);
      } else {
        hide WordOf, SlotsKept, ChildSet;
        EmptySlotWalk(w, w', t, p.level, va, c);
      }
    }
  }

  lemma EmptySlotWalk(w: seq<Word>, w': seq<Word>, t: nat, l: Level, va: nat, c: nat)
    requires l.Next().Some? && |w'| == |w| && WordOf(t, l.SlotOf(va)) < |w|
    requires SlotAt(w, t, l.SlotOf(va)).kind == Invalid
    requires SlotAt(w', t, l.SlotOf(va)) == ZERO.(kind := Table, address := c)
    requires forall k: Level :: Walk(w', c, k, va) == None
    ensures Walk(w, t, l, va) == None == Walk(w', t, l, va)
  {
    hide FromWord, Land, Level.SlotOf;
  }
}
