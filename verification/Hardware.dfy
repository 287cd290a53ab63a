/**
 What the processor makes of the tables, from the bits of their words alone: the stage 1 walk with 4 KiB
 pages and 39-bit addresses, and the descriptor fields, of section D8 of the Arm Architecture Reference
 Manual. Nothing here is defined with the kernel's own encoding; the lemmas relate the two.
*/
module Hardware {
  import opened Wrappers
  import opened Bits
  import opened Ram
  import opened Levels
  import opened Descriptors
  import opened Trees
  import opened RangeSteps

  // ----- The walk

  /** The level a walk ends at, and the descriptor it ends with. */
  datatype Leaf = Leaf(level: nat, word: Word)

  /** Bits 47 to 12, as an address. */
  function NextTable(word: Word): nat {
    word / 0x1000 % 0x10_0000_0000 * 0x1000
  }

  /** Bits 38 to 30, 29 to 21 and 20 to 12 of an address choose the slots. */
  function LeafAt(w: seq<Word>, table: nat, va: nat): Option<Leaf> {
    var i := table / 8 + va / 0x4000_0000 % 512;
    if i >= |w| then None
    else if w[i] % 4 == 3 then LeafAt2(w, NextTable(w[i]), va)
    else if w[i] % 4 == 1 then Some(Leaf(1, w[i])) else None
  }

  function LeafAt2(w: seq<Word>, table: nat, va: nat): Option<Leaf> {
    var i := table / 8 + va / 0x20_0000 % 512;
    if i >= |w| then None
    else if w[i] % 4 == 3 then LeafAt3(w, NextTable(w[i]), va)
    else if w[i] % 4 == 1 then Some(Leaf(2, w[i])) else None
  }

  /** At level 3 only `0b11` is a page. */
  function LeafAt3(w: seq<Word>, table: nat, va: nat): Option<Leaf> {
    var i := table / 8 + va / 0x1000 % 512;
    if i >= |w| then None else if w[i] % 4 == 3 then Some(Leaf(3, w[i])) else None
  }

  /** Bits 47 to 30, 21 or 12 of the descriptor, and the rest of the address. */
  function Output(leaf: Leaf, va: nat): nat {
    if leaf.level == 1 then leaf.word / 0x4000_0000 % 0x4_0000 * 0x4000_0000 + va % 0x4000_0000
    else if leaf.level == 2 then leaf.word / 0x20_0000 % 0x800_0000 * 0x20_0000 + va % 0x20_0000
    else leaf.word / 0x1000 % 0x10_0000_0000 * 0x1000 + va % 0x1000
  }

  // ----- The fields

  /** Bit 10: without it the first access faults. */
  predicate Accessed(word: Word) {
    word / 0x400 % 2 == 1
  }

  /** Bit 7 clear. */
  predicate Writable(word: Word) {
    word / 0x80 % 2 == 0
  }

  /** Bit 6 set: user mode may do what the kernel may. */
  predicate UserReaches(word: Word) {
    word / 0x40 % 2 == 1
  }

  /** Bit 53 clear. */
  predicate KernelRuns(word: Word) {
    word / 0x20_0000_0000_0000 % 2 == 0
  }

  /** Bit 54 clear. */
  predicate UserRuns(word: Word) {
    word / 0x40_0000_0000_0000 % 2 == 0
  }

  /** Bits 4 to 2: which entry of MAIR_EL1. */
  function MemoryType(word: Word): (r: nat)
    ensures r < 8
  {
    word / 0x4 % 8
  }

  /** Bits 9 and 8. */
  function Sharing(word: Word): (r: nat)
    ensures r < 4
  {
    word / 0x100 % 4
  }

  /** The fields of a word, but for its kind and its address, are this descriptor's. */
  predicate HasFields(word: Word, d: Descriptor) {
    && MemoryType(word) == (match d.attrIdx case Normal => 0 case Device => 1 case Other(i) => i % 8)
    && (word / 0x20 % 2 == 1 <==> d.ns)
    && (UserReaches(word) <==> d.ap == AllReadWrite || d.ap == AllReadOnly)
    && (Writable(word) <==> d.ap == KernelReadWrite || d.ap == AllReadWrite)
    && Sharing(word) == (match d.sh case NonShareable => 0 case Reserved => 1 case OuterShareable => 2
                         case InnerShareable => 3)
    && (Accessed(word) <==> d.af) && (word / 0x800 % 2 == 1 <==> d.ng)
    && (word / 0x10_0000_0000_0000 % 2 == 1 <==> d.contig)
    && (KernelRuns(word) <==> !d.pxn) && (UserRuns(word) <==> !d.uxn)
  }

  /** Every bit of a word that stands for this descriptor, but for those of its address. */
  predicate Encodes(word: Word, d: Descriptor) {
    && word % 4 == (match d.kind case Invalid => 0 case Block => 1 case Table => 3)
    && HasFields(word, d)
    && word / 0x1_0000_0000_0000 % 16 == 0 && word / 0x80_0000_0000_0000 == 0
  }

  // ----- The kernel's encoding has these fields

  /** A field that lies below the end of a part of the word is a field of that part. */
  lemma Within(w: nat, m: nat, width: nat, j: nat)
    requires m >= 1 && width >= 1 && j >= 1
    ensures m * width * j >= 1 && w % (m * width * j) / m % width == w / m % width
  {
    var big := m * width * j;
    Positive(m, width, j);
    QuotientIsNat(w, big);
    var (q, low) := (w / big, w % big);
    QuotientIsNat(low, m);
    Regrouped(q, m, width, j, low / m, low % m);
    DivUnique(w, m, width * (q * j) + low / m, low % m);
    Shifted(low / m, width, q * j);
  }

  lemma Positive(m: nat, width: nat, j: nat)
    requires m >= 1 && width >= 1 && j >= 1
    ensures m * width * j >= 1
  {
  }

  lemma Regrouped(q: nat, m: nat, width: nat, j: nat, x: nat, r: nat)
    ensures q * (m * width * j) + (x * m + r) == (width * (q * j) + x) * m + r
  {
  }

  lemma Shifted(x: nat, width: nat, n: nat)
    requires width >= 1
    ensures (width * n + x) % width == x % width
  {
    QuotientIsNat(x, width);
    assert width * n + x == (n + x / width) * width + x % width;
    DivUnique(width * n + x, width, n + x / width, x % width);
  }

  lemma LowFields(w: Word)
    ensures var low := w % PAGE_SIZE;
            && low % 4 == w % 4 && low / 0x4 % 8 == MemoryType(w) && low / 0x20 % 2 == w / 0x20 % 2
            && low / 0x40 % 4 == w / 0x40 % 4 && low / 0x100 % 4 == Sharing(w)
            && low / 0x400 % 2 == w / 0x400 % 2 && low / 0x800 % 2 == w / 0x800 % 2
  {
    Within(w, 1, 4, 0x400);
    Within(w, 0x4, 8, 0x80);
    Within(w, 0x20, 2, 0x40);
    Within(w, 0x40, 4, 0x10);
    Within(w, 0x100, 4, 0x4);
    Within(w, 0x400, 2, 0x2);
    Within(w, 0x800, 2, 1);
  }

  /** The two bits of access permissions. */
  lemma AccessBits(w: Word)
    ensures w / 0x40 % 4 == (if UserReaches(w) then 1 else 0) + if Writable(w) then 0 else 2
  {
    var x := w / 0x40;
    assert w / 0x80 == x / 2;
    assert x % 4 == x % 2 + 2 * (x / 2 % 2);
  }

  lemma HighFields(w: Word)
    ensures var high := w / 0x10_0000_0000_0000 % 8;
            && high % 2 == w / 0x10_0000_0000_0000 % 2 && (high / 2 % 2 == 0 <==> KernelRuns(w))
            && (high / 4 % 2 == 0 <==> UserRuns(w))
  {
    var x := w / 0x10_0000_0000_0000;
    assert w / 0x20_0000_0000_0000 == x / 2;
    assert w / 0x40_0000_0000_0000 == x / 4;
    Within(x, 1, 2, 4);
    Within(x, 2, 2, 2);
    Within(x, 4, 2, 1);
  }

  /** What it reads from a word. */
  lemma ReadBits(w: Word)
    ensures var d := FromWord(w);
            && (d.kind == Block <==> w % 4 == 1) && (d.kind == Table <==> w % 4 == 3)
            && (d.attrIdx == Normal <==> MemoryType(w) == 0) && (d.attrIdx == Device <==> MemoryType(w) == 1)
            && (d.attrIdx.Other? ==> d.attrIdx.index == MemoryType(w)) && (d.ns <==> w / 0x20 % 2 == 1)
            && (d.ap == AllReadWrite || d.ap == AllReadOnly <==> UserReaches(w))
            && (d.ap == KernelReadWrite || d.ap == AllReadWrite <==> Writable(w))
            && (d.sh == NonShareable <==> Sharing(w) == 0) && (d.sh == Reserved <==> Sharing(w) == 1)
            && (d.sh == OuterShareable <==> Sharing(w) == 2) && (d.af <==> Accessed(w))
            && (d.ng <==> w / 0x800 % 2 == 1) && d.address == NextTable(w)
            && (d.contig <==> w / 0x10_0000_0000_0000 % 2 == 1)
            && (d.pxn <==> !KernelRuns(w)) && (d.uxn <==> !UserRuns(w))
  {
    LowFields(w);
    AccessBits(w);
    HighFields(w);
    hide MemoryType, Sharing, UserReaches, Writable, KernelRuns, UserRuns;
  }

  /** What the kernel writes for a descriptor: each field at its place, and zeroes elsewhere. */
  lemma WrittenBits(d: Descriptor)
    ensures Encodes(ToWord(d), d) && ToWord(d) / 0x1000 % 0x10_0000_0000 == d.address / 0x1000 % 0x10_0000_0000
  {
    ReadBack(d);
    ReadBits(ToWord(d));
    LowFields(ToWord(d));
    OtherBits(d);
    hide FromWord, ToWord, UserReaches, Writable, KernelRuns, UserRuns, Accessed;
  }

  /** No other bit is set. */
  lemma OtherBits(d: Descriptor)
    ensures var w := ToWord(d);
            && w % PAGE_SIZE == LowBits(d) && LowBits(d) % 4 == KindBits(d.kind)
            && w / 0x1000 % 0x10_0000_0000 == d.address / 0x1000 % 0x10_0000_0000
            && w / 0x1_0000_0000_0000 % 16 == 0 && w / 0x80_0000_0000_0000 == 0
  {
    PartsReadBack(d);
    hide LowBits, HighBits, FromParts;
    WordParts(LowBits(d), AddressPage(d.address), HighBits(d));
    Gap(LowBits(d) + AddressPage(d.address) * PAGE_SIZE, HighBits(d));
    LowKind(d);
  }

  lemma LowKind(d: Descriptor)
    ensures LowBits(d) % 4 == KindBits(d.kind)
  {
    FieldBits(d);
    FieldsApart(KindBits(d.kind), AttrBits(d.attrIdx), Flag(d.ns), ApBits(d.ap), ShBits(d.sh), Flag(d.af), Flag(d.ng));
  }

  lemma Gap(low: nat, high: nat)
    requires low < 0x1_0000_0000_0000 && high < 8
    ensures var w := low + high * 0x10_0000_0000_0000; w / 0x1_0000_0000_0000 % 16 == 0 && w / 0x80_0000_0000_0000 == 0
  {
    assert low + high * 0x10_0000_0000_0000 == high * 16 * 0x1_0000_0000_0000 + low;
    DivUnique(low + high * 0x10_0000_0000_0000, 0x1_0000_0000_0000, high * 16, low);
  }

  // ----- The processor walks as the kernel does

  /** Where the kernel's walk ends at a leaf of the right kind for its level, the processor's ends there too. */
  ghost predicate Agrees(found: Option<Landing>, leaf: Option<Leaf>, va: nat) {
    match found
    case None => leaf == None
    case Some(landing) =>
      landing.attributes.kind == KindOf(landing.level) ==>
        && leaf.Some? && leaf.value.level == landing.level.Number()
        && Attributes(FromWord(leaf.value.word)) == landing.attributes
        && Or(FromWord(leaf.value.word).address, va % landing.level.Size()) == landing.address
  }

  /** One slot: what both make of it. */
  lemma Slot(w: seq<Word>, t: nat, l: Level, va: nat)
    requires WordOf(t, l.SlotOf(va)) < |w|
    ensures var (word, d) := (w[WordOf(t, l.SlotOf(va))], SlotAt(w, t, l.SlotOf(va)));
            && d == FromWord(word) && (d.kind == Block <==> word % 4 == 1) && (d.kind == Table <==> word % 4 == 3)
            && d.address == NextTable(word)
    ensures var d := SlotAt(w, t, l.SlotOf(va));
            Walk(w, t, l, va) ==
            if d.kind == Invalid then None
            else if d.kind == Block || l.Next().None? then Some(Land(d, l, va))
            else if d.address == 0 then None else Walk(w, d.address, l.Next().value, va)
  {
    WalkStep(w, t, l, va);
    ReadBits(w[WordOf(t, l.SlotOf(va))]);
    hide Walk, FromWord;
  }

  /** A block or an invalid slot ends both walks. */
  lemma EndsHere(w: seq<Word>, t: nat, l: Level, va: nat)
    requires WordOf(t, l.SlotOf(va)) < |w| && l.Next().Some? && SlotAt(w, t, l.SlotOf(va)).kind != Table
    ensures var word := w[WordOf(t, l.SlotOf(va))];
            && word % 4 != 3
            && Agrees(Walk(w, t, l, va), if word % 4 == 1 then Some(Leaf(l.Number(), word)) else None, va)
  {
    Slot(w, t, l, va);
    hide Walk, FromWord, Or, NextTable, WordOf, Level.SlotOf;
  }

  /** A table passes both on to the next level. */
  lemma GoesOn(w: seq<Word>, t: nat, l: Level, va: nat)
    requires WordOf(t, l.SlotOf(va)) < |w| && l.Next().Some? && SlotAt(w, t, l.SlotOf(va)).kind == Table
    requires SlotAt(w, t, l.SlotOf(va)).address != 0
    ensures var word := w[WordOf(t, l.SlotOf(va))];
            && word % 4 == 3 && SlotAt(w, t, l.SlotOf(va)).address == NextTable(word)
            && Walk(w, t, l, va) == Walk(w, NextTable(word), l.Next().value, va)
  {
    Slot(w, t, l, va);
    hide Walk, FromWord, Or, NextTable, WordOf, Level.SlotOf;
  }

  lemma SlotIndex(t: nat, va: nat)
    ensures WordOf(t, Level1.SlotOf(va)) == t / 8 + va / 0x4000_0000 % 512
    ensures WordOf(t, Level2.SlotOf(va)) == t / 8 + va / 0x20_0000 % 512
  {
  }

  lemma Agree3(w: seq<Word>, t: nat, va: nat)
    requires WordOf(t, Level3.SlotOf(va)) < |w|
    ensures Agrees(Walk(w, t, Level3, va), LeafAt3(w, t, va), va)
  {
    Slot(w, t, Level3, va);
    hide Walk, FromWord;
  }

  lemma Agree2(w: seq<Word>, place: Places, root: nat, t: nat, va: nat)
    requires Tree(w, place, root) && t in place && place[t].level == Level2 && place[t].Contains(va)
    ensures Agrees(Walk(w, t, Level2, va), LeafAt2(w, t, va), va)
  {
    hide Walk, FromWord, Tree, Agrees, WordOf, Level.SlotOf, Place.Contains, NextTable, LeafAt3;
    var i := SlotThere(w, place, root, t, va);
    SlotIndex(t, va);
    if SlotAt(w, t, i).kind == Table {
      var c := Below(w, place, root, t, va);
      GoesOn(w, t, Level2, va);
      var j := SlotThere(w, place, root, c, va);
      Agree3(w, c, va);
    } else {
      EndsHere(w, t, Level2, va);
    }
  }

  /** In a tree the processor's walk and the kernel's agree. */
  lemma WalksAgree(w: seq<Word>, place: Places, root: nat, va: nat)
    requires Tree(w, place, root) && va < SPACE
    ensures Agrees(Walk(w, root, Level1, va), LeafAt(w, root, va), va)
  {
    AtRoot(w, place, root);
    assert place[root].Contains(va);
    hide Walk, FromWord, Tree, Agrees, WordOf, Level.SlotOf, Place.Contains, NextTable, LeafAt2;
    var i := SlotThere(w, place, root, root, va);
    SlotIndex(root, va);
    if SlotAt(w, root, i).kind == Table {
      var c := Below(w, place, root, root, va);
      GoesOn(w, root, Level1, va);
      Agree2(w, place, root, c, va);
    } else {
      EndsHere(w, root, Level1, va);
    }
  }

  lemma AtRoot(w: seq<Word>, place: Places, root: nat)
    requires Tree(w, place, root)
    ensures root in place && place[root] == Place(Level1, 0) && Place(Level1, 0).End() == SPACE
  {
    hide Closed;
  }

  lemma SlotThere(w: seq<Word>, place: Places, root: nat, t: nat, va: nat) returns (i: nat)
    requires Tree(w, place, root) && t in place && place[t].Contains(va)
    ensures i == place[t].level.SlotOf(va) && WordOf(t, i) < |w|
  {
    hide Closed, Rooted;
    i := place[t].level.SlotOf(va);
    GoodAt(|w|, place, t);
    SlotsTile(place[t].level, place[t].start, va);
    SlotInMemory(|w|, t, i);
  }

  lemma Below(w: seq<Word>, place: Places, root: nat, t: nat, va: nat) returns (c: nat)
    requires Tree(w, place, root) && t in place && place[t].Contains(va) && place[t].level.Next().Some?
    requires WordOf(t, place[t].level.SlotOf(va)) < |w| && SlotAt(w, t, place[t].level.SlotOf(va)).kind == Table
    ensures c == SlotAt(w, t, place[t].level.SlotOf(va)).address && c != 0
    ensures c in place && place[c].level == place[t].level.Next().value && place[c].Contains(va)
  {
    FollowSlot(w, place, root, t, va);
    c := SlotAt(w, t, place[t].level.SlotOf(va)).address;
    hide FromWord, Tree, GoodPlace;
    GoodThere(w, place, root, t);
    DescendFacts(w, place, root, t, c, va);
    InSlot(place, t, c, va);
  }

  lemma GoodThere(w: seq<Word>, place: Places, root: nat, t: nat)
    requires Tree(w, place, root) && t in place
    ensures GoodPlace(place[t])
  {
    GoodAt(|w|, place, t);
  }

  // ----- Addresses come out as they went in

  /** Joining low bits changes none above them. */
  lemma {:induction false} OrAbove(a: nat, b: nat, k: nat)
    requires b < Pow2(k)
    ensures Or(a, b) / Pow2(k) == a / Pow2(k)
    decreases k
  {
    if k == 0 {
      OrZero(a);
    } else {
      var m := Pow2(k - 1);
      OrAbove(a / 2, b / 2, k - 1);
      OrHalf(a, b);
      hide Or;
      HalfThenDivide(Or(a, b), m);
      HalfThenDivide(a, m);
    }
  }

  lemma OrHalf(a: nat, b: nat)
    ensures Or(a, b) / 2 == Or(a / 2, b / 2)
  {
  }

  lemma {:induction false} OrZero(a: nat)
    ensures Or(a, 0) == a
  {
    if a != 0 {
      OrZero(a / 2);
    }
  }

  lemma HalfThenDivide(x: nat, m: nat)
    requires m >= 1
    ensures x / 2 / m == x / (2 * m)
  {
    QuotientIsNat(x / 2, m);
    var (q, r) := (x / 2 / m, x / 2 % m);
    assert x / 2 == q * m + r && x == 2 * (q * m + r) + x % 2;
    DivUnique(x, 2 * m, q, 2 * r + x % 2);
  }

  /** So a leaf that the kernel sees translate an address to itself outputs that address. */
  lemma OutputIsSame(leaf: Leaf, l: Level, va: nat)
    requires leaf.level == l.Number() && Or(NextTable(leaf.word), va % l.Size()) == va
    ensures Output(leaf, va) == va
  {
    SizeIsShift(l);
    OrAbove(NextTable(leaf.word), va % l.Size(), l.Offset());
    hide Or, Pow2, NextTable;
    FieldOfAddress(leaf.word, l);
    Rejoined(va, l.Size());
  }

  lemma Rejoined(va: nat, size: nat)
    requires size >= 1
    ensures va / size * size + va % size == va
  {
  }

  lemma FieldOfAddress(word: Word, l: Level)
    ensures NextTable(word) / l.Size() ==
            match l
            case Level1 => word / 0x4000_0000 % 0x4_0000
            case Level2 => word / 0x20_0000 % 0x800_0000
            case Level3 => word / 0x1000 % 0x10_0000_0000
  {
    var x := word / 0x1000;
    match l {
      case Level1 =>
        Coarser(x, 0x4_0000, 0x4_0000);
        assert word / 0x4000_0000 == x / 0x4_0000;
      case Level2 =>
        Coarser(x, 0x200, 0x800_0000);
        assert word / 0x20_0000 == x / 0x200;
      case Level3 =>
    }
  }

  /** Of the low bits of a number, those above a finer part. */
  lemma Coarser(x: nat, m: nat, width: nat)
    requires m >= 1 && width >= 1
    ensures m * width >= 1 && x % (m * width) / m == x / m % width
  {
    Within(x, m, width, 1);
    assert m * width * 1 == m * width;
    var low := x % (m * width);
    QuotientIsNat(low, m);
    Narrow(low, m, width);
  }

  lemma Narrow(low: nat, m: nat, width: nat)
    requires m >= 1 && width >= 1 && low < m * width
    ensures low / m < width && low / m % width == low / m
  {
    var q := low / m;
    assert low == q * m + low % m;
    if q >= width {
      MulMono(width, q, m);
      assert false;
    }
    DivUnique(q, width, 0, q);
  }

  /** The processor translates `va` to itself, by a leaf with the template's fields. */
  predicate Gives(w: seq<Word>, root: nat, va: nat, template: Descriptor) {
    var leaf := LeafAt(w, root, va);
    leaf.Some? && Output(leaf.value, va) == va && HasFields(leaf.value.word, template)
  }

  /** And does wherever the kernel's walk finds the address mapped so. */
  lemma LandedGives(w: seq<Word>, place: Places, root: nat, va: nat, template: Descriptor)
    requires Tree(w, place, root) && va < SPACE
    requires var found := Walk(w, root, Level1, va);
             && found.Some? && found.value.address == va
             && found.value.attributes == Attributes(Stored(template).(kind := KindOf(found.value.level)))
    ensures Gives(w, root, va, template)
  {
    WalksAgree(w, place, root, va);
    var (landing, leaf) := (Walk(w, root, Level1, va).value, LeafAt(w, root, va).value);
    hide Walk, Tree, LeafAt, FromWord, Or, HasFields, Output, NextTable;
    ReadBits(leaf.word);
    OutputIsSame(leaf, landing.level, va);
    FieldsOf(leaf.word, template);
  }

  lemma FieldsOf(word: Word, template: Descriptor)
    requires Attributes(FromWord(word)).(kind := Invalid) == Attributes(Stored(template)).(kind := Invalid)
    ensures HasFields(word, template)
  {
    ReadBits(word);
    hide FromWord, UserReaches, Writable, KernelRuns, UserRuns, Accessed, MemoryType, Sharing;
  }

  /** What the kernel does with memory at an address; user mode has no use of it. */
  datatype Use = Use(writes: bool, runs: bool, device: bool)

  /**
   The processor translates `va` to itself and allows exactly this use of it. Memory is of MAIR_EL1's first
   type and inner shareable, devices are of its second and not shareable.
  */
  predicate Allows(w: seq<Word>, root: nat, va: nat, u: Use) {
    var leaf := LeafAt(w, root, va);
    && leaf.Some? && Output(leaf.value, va) == va
    && var word := leaf.value.word;
    && (Writable(word) <==> u.writes) && (KernelRuns(word) <==> u.runs)
    && Accessed(word) && !UserReaches(word) && !UserRuns(word)
    && MemoryType(word) == (if u.device then 1 else 0) && Sharing(word) == (if u.device then 0 else 3)
    && word / 0x20 % 2 == 0 && word / 0x800 % 2 == 0 && word / 0x10_0000_0000_0000 % 2 == 0
  }

  /** What each of the kernel's templates allows. */
  lemma TemplatesAllow(w: seq<Word>, root: nat)
    ensures forall va: nat :: Gives(w, root, va, EXECUTABLE) ==> Allows(w, root, va, Use(false, true, false))
    ensures forall va: nat :: Gives(w, root, va, READ_ONLY) ==> Allows(w, root, va, Use(false, false, false))
    ensures forall va: nat :: Gives(w, root, va, WRITABLE) ==> Allows(w, root, va, Use(true, false, false))
    ensures forall va: nat :: Gives(w, root, va, NORMAL_BLOCK) ==> Allows(w, root, va, Use(true, true, false))
    ensures forall va: nat :: Gives(w, root, va, DEVICE_BLOCK) ==> Allows(w, root, va, Use(true, false, true))
  {
    hide LeafAt, Output, UserReaches, Writable, KernelRuns, UserRuns, Accessed, MemoryType, Sharing;
  }

  /** Nothing found is nothing translated. */
  lemma NothingGiven(w: seq<Word>, place: Places, root: nat, va: nat)
    requires Tree(w, place, root) && va < SPACE && Walk(w, root, Level1, va) == None
    ensures LeafAt(w, root, va) == None
  {
    WalksAgree(w, place, root, va);
  }
}
