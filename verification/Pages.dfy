/**
 The entry table (src/mm/pages.rs): one 64-bit entry for every page of the arena, packed into words
 that themselves live in reserved pages of the arena.
*/
module Pages {
  import opened Wrappers
  import opened Ram
  import opened Regions
  import opened Gaps
  import opened MemoryMap

  const ENTRY_SIZE: nat := 8

  /** `ArenaIndex::NONE`, and with it the largest arena an index can name. */
  const MAX_PAGES: nat := 0x7FFFF

  /** `Slot::NONE`. */
  const NO_SLOT: nat := 0x3FF

  datatype Entry =
    | Buddy(free: bool, order: nat)
    | Slab(class_: nat, freeHead: Option<nat>, inUse: nat, nextPartial: Option<nat>, prevPartial: Option<nat>)

  /** The fields fit the bits the packing gives them. */
  predicate Packable(e: Entry) {
    match e
    case Buddy(_, order) => order < 16
    case Slab(class_, freeHead, inUse, next, prev) =>
      && class_ < 16
      && (freeHead.Some? ==> freeHead.value < NO_SLOT)
      && inUse < 1024
      && (next.Some? ==> next.value < MAX_PAGES)
      && (prev.Some? ==> prev.value < MAX_PAGES)
  }

  function ToRaw(v: Option<nat>, none: nat): nat {
    match v
    case None => none
    case Some(n) => n
  }

  function FromRaw(raw: nat, none: nat): Option<nat> {
    if raw == none then None else Some(raw)
  }

  /**
   `Entry::to_u64`. The fields occupy disjoint bits, so the source's shifts and ORs are sums of
   masked fields: bit 0 the tag, then 1 and 2-5, or 1-4, 5-14, 15-24, 25-43 and 44-62.
  */
  function ToWord(e: Entry): Word {
    match e
    case Buddy(free, order) =>
      (if free then 0x2 else 0) + order % 0x10 * 0x4
    case Slab(class_, freeHead, inUse, next, prev) =>
      SlabWord(class_ % 0x10, ToRaw(freeHead, NO_SLOT) % 0x400, inUse % 0x400,
               ToRaw(next, MAX_PAGES) % 0x80000, ToRaw(prev, MAX_PAGES) % 0x80000)
  }

  function SlabWord(class_: nat, free: nat, inUse: nat, next: nat, prev: nat): Word
    requires class_ < 0x10 && free < 0x400 && inUse < 0x400 && next < 0x80000 && prev < 0x80000
  {
    1 + class_ * 0x2 + free * 0x20 + inUse * 0x8000 + next * 0x200_0000 + prev * 0x1000_0000_0000
  }

  /** `Entry::from_u64`. */
  function FromWord(w: Word): Entry {
    if w % 2 != 0 then
      Slab(w / 0x2 % 0x10,
           FromRaw(w / 0x20 % 0x400, NO_SLOT),
           w / 0x8000 % 0x400,
           FromRaw(w / 0x200_0000 % 0x80000, MAX_PAGES),
           FromRaw(w / 0x1000_0000_0000 % 0x80000, MAX_PAGES))
    else
      Buddy(w / 0x2 % 2 != 0, w / 0x4 % 0x10)
  }

  /** What is written is what is read back, for every entry whose fields fit. */
  lemma EntryRoundTrip(e: Entry)
    requires Packable(e)
    ensures FromWord(ToWord(e)) == e
  {
    match e
    case Buddy(free, order) =>
      var w := ToWord(e);
      assert w / 0x4 == order && w / 0x2 == 2 * order + (if free then 1 else 0);
    case Slab(class_, freeHead, inUse, next, prev) =>
      SlabRoundTrip(class_, freeHead, inUse, next, prev);
  }

  lemma SlabRoundTrip(class_: nat, freeHead: Option<nat>, inUse: nat, next: Option<nat>, prev: Option<nat>)
    requires Packable(Slab(class_, freeHead, inUse, next, prev))
    ensures var e := Slab(class_, freeHead, inUse, next, prev); FromWord(ToWord(e)) == e
  {
    hide SlabWord;
    var f, n, p := ToRaw(freeHead, NO_SLOT), ToRaw(next, MAX_PAGES), ToRaw(prev, MAX_PAGES);
    UnpackFields(class_, f, inUse, n, p);
    assert ToWord(Slab(class_, freeHead, inUse, next, prev)) == SlabWord(class_, f, inUse, n, p);
  }

  lemma UnpackFields(class_: nat, free: nat, inUse: nat, next: nat, prev: nat)
    requires class_ < 0x10 && free < 0x400 && inUse < 0x400 && next < 0x80000 && prev < 0x80000
    ensures var w := SlabWord(class_, free, inUse, next, prev);
            && w % 2 == 1
            && w / 0x2 % 0x10 == class_
            && w / 0x20 % 0x400 == free
            && w / 0x8000 % 0x400 == inUse
            && w / 0x200_0000 % 0x80000 == next
            && w / 0x1000_0000_0000 % 0x80000 == prev
  {
    var d := next + 0x80000 * prev;
    var c := inUse + 0x400 * d;
    var b := free + 0x400 * c;
    Peel(1, 0x2, class_ + 0x10 * b);
    Peel(1 + class_ * 0x2, 0x20, b);
    Peel(1 + class_ * 0x2 + free * 0x20, 0x8000, c);
    Peel(1 + class_ * 0x2 + free * 0x20 + inUse * 0x8000, 0x200_0000, d);
    Peel(1 + class_ * 0x2 + free * 0x20 + inUse * 0x8000 + next * 0x200_0000, 0x1000_0000_0000, prev);
    Peel(class_, 0x10, b);
    Peel(free, 0x400, c);
    Peel(inUse, 0x400, d);
    Peel(next, 0x80000, prev);
  }

  lemma Peel(low: nat, m: nat, high: nat)
    requires low < m
    ensures (low + m * high) / m == high && (low + m * high) % m == low
  {
    var q, r := (low + m * high) / m, (low + m * high) % m;
    assert q * m + r == low + m * high;
    assert (q - high) * m == low - r;
    assert q - high >= 1 ==> (q - high) * m >= m;
    assert q - high <= -1 ==> (q - high) * m + m <= 0;
  }

  /** A zeroed entry is a block that is not free: no page is claimed until it is pushed. */
  lemma ZeroEntry()
    ensures FromWord(0) == Buddy(false, 0)
  {
  }

  /** Where the table is and which pages it describes: its first page, the arena's first page, its length. */
  datatype Table = Table(page: nat, base: nat, len: nat) {
    predicate Covers(p: nat) {
      base <= p < base + len
    }

    /** The word that holds the entry of page `p`. */
    function EntryWord(p: nat): nat
      requires Covers(p)
    {
      page * PAGE_WORDS + (p - base)
    }

    predicate InMemory(w: seq<Word>) {
      page * PAGE_WORDS + len <= |w|
    }

    /** Word `i` is part of the table. */
    predicate Holds(i: nat) {
      page * PAGE_WORDS <= i < page * PAGE_WORDS + len
    }
  }

  function EntryAt(w: seq<Word>, t: Table, p: nat): Entry
    requires t.Covers(p) && t.InMemory(w)
  {
    FromWord(w[t.EntryWord(p)])
  }

  /** Pages the table occupies: `len` entries of eight bytes, rounded up to whole pages. */
  function RequiredPages(len: nat): nat {
    (len * ENTRY_SIZE + PAGE_SIZE - 1) / PAGE_SIZE
  }

  /** It is the least number of pages with a word for every entry. */
  lemma RequiredIsLeast(len: nat)
    ensures forall n: int :: n >= RequiredPages(len) <==> n * PAGE_WORDS >= len
    ensures var n := RequiredPages(len); n * PAGE_WORDS >= len && (len > 0 ==> (n - 1) * PAGE_WORDS < len)
  {
  }

  /** The lowest run with eight bytes for each of `len` entries. */
  ghost predicate FirstRoom(arena: Region, taken: seq<Region>, len: nat, run: PageRange) {
    && MaximalRun(arena, taken, run) && run.Pages() * PAGE_WORDS >= len
    && forall other: PageRange | MaximalRun(arena, taken, other) && other.start < run.start ::
         other.Pages() * PAGE_WORDS < len
  }

  lemma FirstRoomIsFirstFit(arena: Region, taken: seq<Region>, len: nat, run: PageRange)
    ensures FirstRoom(arena, taken, len, run) <==> FirstFit(arena, taken, RequiredPages(len), run)
  {
    RequiredIsLeast(len);
    hide MaximalRun, RequiredPages;
  }

  /**
   The table finds a home: the arena has pages, no more than an index can name, the first run long enough
   is not at address zero, and there is room to record the reservation.
  */
  ghost predicate HasHome(arena: Region, taken: seq<Region>) {
    var len := arena.size / PAGE_SIZE;
    && 0 < len <= MAX_PAGES && |taken| < RESERVED
    && exists run :: FirstRoom(arena, taken, len, run) && run.start != 0
  }

  /** One more region is reserved: whole pages for the table, as few as hold eight bytes for each entry. */
  ghost predicate ReservedFor(t: Table, taken: seq<Region>, taken': seq<Region>) {
    && |taken'| == |taken| + 1 && taken'[..|taken|] == taken
    && var r := taken'[|taken|];
       r.base == t.page * PAGE_SIZE && r.size % PAGE_SIZE == 0 && 8 * t.len <= r.size < 8 * t.len + PAGE_SIZE
  }

  /** Some unreserved run at page zero, or anywhere else, is long enough for the table. */
  ghost predicate Fits(arena: Region, taken: seq<Region>, atZero: bool) {
    exists run :: MaximalRun(arena, taken, run) && run.Pages() * PAGE_WORDS >= arena.size / PAGE_SIZE &&
      (run.start == 0 <==> atZero)
  }

  /** With a run elsewhere that is long enough, there is a home exactly when the run at page zero is not. */
  lemma HomeUnlessAtZero(arena: Region, taken: seq<Region>)
    requires 0 < arena.size / PAGE_SIZE <= MAX_PAGES && |taken| < RESERVED && Fits(arena, taken, false)
    ensures HasHome(arena, taken) <==> !Fits(arena, taken, true)
  {
    hide MaximalRun, RequiredPages, FirstFit;
    var len := arena.size / PAGE_SIZE;
    RequiredIsLeast(len);
    var run :| MaximalRun(arena, taken, run) && run.Pages() * PAGE_WORDS >= len && run.start != 0;
    var first := SomeFirstFit(arena, taken, RequiredPages(len), run);
    FirstRoomIsFirstFit(arena, taken, len, first);
  }

  /** Four pages from address zero, the second of them taken: the table would fit in the third, but finds no home. */
  lemma HomeRefused()
    ensures var (arena, taken) := (Region(0, 4 * PAGE_SIZE), [Region(PAGE_SIZE, PAGE_SIZE)]);
            Fits(arena, taken, false) && !HasHome(arena, taken)
  {
    var (arena, taken) := (Region(0, 4 * PAGE_SIZE), [Region(PAGE_SIZE, PAGE_SIZE)]);
    assert taken[0] in taken && Touches(taken[0], 1);
    assert MaximalRun(arena, taken, PageRange(2, 4)) && MaximalRun(arena, taken, PageRange(0, 1));
    HomeUnlessAtZero(arena, taken);
  }

  lemma HomeIsOpen(arena: Region, taken: seq<Region>, run: PageRange, len: nat)
    requires FirstFit(arena, taken, RequiredPages(len), run) && len > 0
    ensures var needed := RequiredPages(len);
            && len <= needed * PAGE_WORDS && (run.start + needed) * PAGE_SIZE <= arena.End()
            && forall q: nat | run.start <= q < run.start + needed :: Open(arena, taken, q)
  {
    hide Open;
    RunIsOpen(arena, taken, run);
    assert run.Contains(run.end - 1);
    OpenEnds(arena, taken, run.end - 1);
    assert forall q: nat | run.start <= q < run.start + RequiredPages(len) :: run.Contains(q);
  }

  lemma LeastBytes(n: nat, len: nat)
    requires n * PAGE_WORDS >= len && (n - 1) * PAGE_WORDS < len
    ensures n * PAGE_SIZE % PAGE_SIZE == 0 && 8 * len <= n * PAGE_SIZE < 8 * len + PAGE_SIZE
  {
  }

  lemma OpenEnds(arena: Region, taken: seq<Region>, p: nat)
    requires Open(arena, taken, p)
    ensures (p + 1) * PAGE_SIZE <= arena.End()
  {
  }

  lemma ZeroedTable(w: seq<Word>, t: Table)
    requires t.InMemory(w) && forall i: nat | t.Holds(i) :: w[i] == 0
    ensures forall p | t.Covers(p) :: EntryAt(w, t, p) == Buddy(false, 0)
  {
    ZeroEntry();
    hide FromWord;
    forall p | t.Covers(p)
      ensures EntryAt(w, t, p) == Buddy(false, 0)
    {
      assert t.Holds(t.EntryWord(p));
    }
  }

  class Pages {
    const ram: Memory
    const table: Table

    predicate Valid()
      reads ram
    {
      table.InMemory(ram.words)
    }

    constructor (ram: Memory, table: Table)
      requires table.InMemory(ram.words)
      ensures this.ram == ram && this.table == table && Valid()
    {
      this.ram := ram;
      this.table := table;
    }

    /**
     Finds a home for the table in the first unreserved run that is long enough, zeroes it and
     reserves it. Nothing outside that run is written.
    */
    static method New(map_: MemoryMap, ram: Memory) returns (pages: Option<Pages>)
      requires map_.Valid() && map_.arena.End() <= |ram.words| * 8
      modifies map_, ram
      ensures map_.Valid() && |ram.words| == |old(ram.words)|
      ensures forall i: nat | i < |ram.words| && !Open(map_.arena, old(map_.Reserved()), i / PAGE_WORDS) ::
                ram.words[i] == old(ram.words)[i]
      ensures pages.Some? <==> HasHome(map_.arena, old(map_.Reserved()))
      ensures pages.None? ==> map_.Reserved() == old(map_.Reserved())
      ensures pages.Some? ==> ReservedFor(pages.value.table, old(map_.Reserved()), map_.Reserved())
      ensures pages.Some? ==> fresh(pages.value) && Settled(map_, ram, old(map_.Reserved()), pages.value)
    {
      var arena := map_.arena;
      var len := arena.size / PAGE_SIZE;
      if len == 0 || len > MAX_PAGES {
        return None;
      }
      hide Open, MaximalRun, FirstFit, FirstRoom, RequiredPages, FromWord, ExactRuns;
      var needed := RequiredPages(len);
      var runs := map_.Unreserved();
      var i := 0;
      while i < |runs| && runs[i].Pages() < needed
        invariant i <= |runs| && forall j | 0 <= j < i :: runs[j].Pages() < needed
      {
        i := i + 1;
      }
      FirstFitFound(arena, map_.Reserved(), runs, needed, i);
      forall run: PageRange
        ensures FirstRoom(arena, map_.Reserved(), len, run) <==> FirstFit(arena, map_.Reserved(), needed, run)
      {
        FirstRoomIsFirstFit(arena, map_.Reserved(), len, run);
      }
      if i == |runs| || runs[i].start == 0 {
        return None;
      }
      var run := runs[i];
      var region := Region(run.start * PAGE_SIZE, needed * PAGE_SIZE);
      HomeIsOpen(arena, map_.Reserved(), run, len);
      RequiredIsLeast(len);
      LeastBytes(needed, len);
      ram.Zero(run.start * PAGE_WORDS, needed * PAGE_WORDS);
      var ok := map_.Reserve(region);
      if !ok {
        return None;
      }
      var table := Table(run.start, FromAddrDown(arena.base), len);
      ZeroedTable(ram.words, table);
      var made := new Pages(ram, table);
      return Some(made);
    }

    method Read(p: nat) returns (e: Entry)
      requires Valid() && table.Covers(p)
      ensures e == EntryAt(ram.words, table, p)
    {
      e := FromWord(ram.words[table.EntryWord(p)]);
    }

    method Write(p: nat, e: Entry)
      requires Valid() && table.Covers(p)
      modifies ram
      ensures ram.words == old(ram.words)[table.EntryWord(p) := ToWord(e)]
    {
      ram.Store(table.EntryWord(p), ToWord(e));
    }
  }

  /** A table just made: every entry zero, in pages that were open and are reserved now. */
  ghost predicate Settled(map_: MemoryMap, ram: Memory, taken: seq<Region>, pages: Pages)
    reads map_, ram
  {
    var t := pages.table;
    && (exists run :: FirstRoom(map_.arena, taken, t.len, run) && run.start == t.page)
    && pages.ram == ram && pages.Valid() && map_.Valid()
    && 0 < t.len <= MAX_PAGES && t.len == map_.arena.size / PAGE_SIZE && t.base == map_.arena.base / PAGE_SIZE
    && map_.Reserved() == taken + [Region(t.page * PAGE_SIZE, RequiredPages(t.len) * PAGE_SIZE)]
    && (forall q: nat | t.page <= q < t.page + RequiredPages(t.len) :: Open(map_.arena, taken, q))
    && (forall p | t.Covers(p) :: EntryAt(ram.words, t, p) == Buddy(false, 0))
  }
}
