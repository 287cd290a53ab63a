/**
 The kernel heap (src/mm/heap.rs): small requests go to the slab cache, the rest to the buddy
 allocator. What clients hold is the ghost map `live`, from address to the layout it was asked for.
*/
module Heap {
  import opened Wrappers
  import opened Bits
  import opened Ram
  import opened Sequences
  import opened DoublyLinked
  import opened Blocks
  import opened FreeLists
  import opened Pages
  import opened Regions
  import opened Gaps
  import opened MemoryMap
  import opened Frames
  import opened Slabs
  import opened Cache
  import opened Accounts
  import opened Counting

  // ----- The heap

  /** No slab of the class has a free slot and no page is free; or no aligned run of pages is large enough. */
  ghost predicate CannotServe(slabs: SlabMap, o: Owner, layout: Layout) {
    match ClassOf(layout)
    case Some(c) =>
      (forall p | p in slabs && slabs[p].class_ == c :: slabs[p].chain == []) && forall q :: !FreePage(o, q)
    case None =>
      !exists p: nat :: OrderOf(layout) <= MAX_ORDER && FreeRun(o, p, OrderOf(layout))
  }

  /** Of the words outside the table only those of managed pages differ. */
  ghost predicate OnlyManaged(w: seq<Word>, w': seq<Word>, t: Table, start: Owner) {
    |w'| == |w| && forall i: nat | i < |w| && !t.Holds(i) && i / PAGE_WORDS !in start :: w'[i] == w[i]
  }

  /** A free slot is used before a page is taken; a block is cut from a smallest one that holds it. */
  ghost predicate Frugal(slabs: SlabMap, o: Owner, o': Owner, layout: Layout, a: nat) {
    match ClassOf(layout)
    case Some(c) => (exists p :: p in slabs && slabs[p].class_ == c && slabs[p].chain != []) ==> o' == o
    case None => BestFit(o, a / PAGE_SIZE, OrderOf(layout))
  }

  function AddressOf(page: Option<nat>): Option<nat> {
    match page
    case None => None
    case Some(p) => Some(p * PAGE_SIZE)
  }

  /** A handed-out block that is not a slab page does not look like one. */
  ghost predicate Plain(w: seq<Word>, t: Table, slabs: SlabMap, o: Owner) {
    t.InMemory(w) && forall p | p in o && o[p].head == p && !o[p].free && p !in slabs ::
      t.Covers(p) && EntryAt(w, t, p).Buddy?
  }

  /** The blocks as seeding left them: all free, fully merged, over the same pages. */
  ghost predicate Began(start: Owner, o: Owner) {
    && Partition(start) && Merged(start) && start.Keys == o.Keys
    && forall p | p in start :: start[p].free
  }

  class Heap {
    const ram: Memory
    var pages: Pages
    var frames: Frames
    var cache: Cache

    ghost var live: Live
    ghost var start: Owner

    ghost predicate Valid()
      reads this, ram, cache, frames, frames.lists, frames.lists.ram, pages.ram
    {
      && pages.ram == ram && frames.lists.ram == ram
      && cache.Valid(pages, frames)
      && Accounted(live, cache.slabs, frames.owner)
      && Plain(ram.words, pages.table, cache.slabs, frames.owner)
      && Began(start, frames.owner)
    }

    /** An empty heap: it manages nothing, so it refuses everything. */
    constructor (ram: Memory)
      ensures Valid() && this.ram == ram && live == map[] && pages.table.len == 0
      ensures fresh(cache) && fresh(frames) && fresh(frames.lists)
    {
      this.ram := ram;
      pages := new Pages(ram, Table(0, 0, 0));
      frames := new Frames(ram, 0);
      cache := new Cache();
      live := map[];
      start := map[];
      new;
      NothingYet(ram.words, pages.table, frames.lists.lists);
      FreshHeap(ram.words, pages.table, frames.owner, frames.lists.lists, cache.heads, cache.partial);
    }

    /**
     Gives the heap its memory: the table finds a home, and every page nobody reserved is seeded. A
     second call changes nothing. `false` stands for the panic when no run can hold the table.
    */
    method Init(memory: MemoryMap) returns (ok: bool)
      requires Valid() && memory.Valid()
      requires memory.arena.End() <= |ram.words| * 8 && memory.arena.End() <= WORD_LIMIT
      modifies this, memory, ram
      ensures memory.Valid()
      ensures ok <==> old(pages.table.len) != 0 || HasHome(memory.arena, old(memory.Reserved()))
      ensures old(pages.table.len) != 0 ==> ok && Valid() && unchanged(this) && unchanged(memory) && unchanged(ram)
      ensures ok && old(pages.table.len) == 0 ==>
                && Fresh(memory.arena, memory.Reserved())
                && fresh(cache) && fresh(frames) && fresh(frames.lists)
                && ReservedFor(pages.table, old(memory.Reserved()), memory.Reserved())
                && memory.Reserved() == old(memory.Reserved()) + [TableRegion(pages.table)]
                && AtHome(memory.arena, old(memory.Reserved()), pages.table)
      ensures |ram.words| == |old(ram.words)|
      ensures forall i: nat | i < |ram.words| && !Open(memory.arena, old(memory.Reserved()), i / PAGE_WORDS) ::
                ram.words[i] == old(ram.words)[i]
    {
      if pages.table.len != 0 {
        return true;
      }
      hide Settled, SeedReady, World, Kept, Represents, PageCount, Listed, InUse, Owned, Quiet, Accounted, Began,
        Open, Plain, HasHome, AtHome;
      ghost var taken := memory.Reserved();
      var made := Pages.New(memory, ram);
      if made == None {
        return false;
      }
      SettledReady(memory, ram, taken, made.value);
      SettledFacts(memory, ram, taken, made.value);
      ghost var w0, w1 := old(ram.words), ram.words;
      Fill(memory, made.value);
      InitWrites(w0, w1, ram.words, memory, made.value, taken, frames.owner);
      return true;
    }

    /** Seeds the buddy allocator and starts with no slabs. */
    method Fill(memory: MemoryMap, made: Pages)
      requires memory.Valid() && made.ram == ram && made.Valid()
      requires SeedReady(|ram.words|, made.table, memory.arena, memory.Reserved())
      requires forall p | made.table.Covers(p) :: EntryAt(ram.words, made.table, p) == Entry.Buddy(false, 0)
      requires made.table.len == memory.arena.size / PAGE_SIZE
      modifies this, ram
      ensures Fresh(memory.arena, memory.Reserved()) && pages == made
      ensures Quiet(old(ram.words), ram.words, pages.table, frames.owner, None)
      ensures fresh(cache) && fresh(frames) && fresh(frames.lists)
    {
      hide SeedReady, World, Kept, Represents, PageCount, Listed, InUse, Owned, Quiet, Accounted, Began, Open, Plain;
      pages := made;
      frames := Frames.New(memory, pages);
      cache := new Cache();
      live := map[];
      start := frames.owner;
      FreshHeap(ram.words, pages.table, frames.owner, frames.lists.lists, cache.heads, cache.partial);
    }

    /** A heap just initialised: nothing is live and exactly the open pages are managed, all of them free. */
    ghost predicate Fresh(arena: Region, reserved: seq<Region>)
      reads this, ram, cache, frames, frames.lists, frames.lists.ram, pages.ram
    {
      && Valid() && live == map[] && cache.slabs == map[]
      && (forall p: nat :: p in frames.owner <==> Open(arena, reserved, p))
      && (forall p | p in frames.owner :: frames.owner[p].free)
      && frames.total == arena.size / PAGE_SIZE
    }

    /** The page a layout no class serves would be given. */
    function NextPage(layout: Layout): Option<nat>
      reads this, frames, frames.lists
    {
      FirstHead(frames.lists.heads, OrderOf(layout))
    }

    /** Hands out memory for a layout; fails exactly when nothing free can serve it. */
    method AllocLayout(layout: Layout) returns (r: Option<nat>)
      requires Valid()
      modifies this`live, cache, frames, frames.lists, ram
      ensures Valid()
      ensures r.None? <==> CannotServe(old(cache.slabs), old(frames.owner), layout)
      ensures r.None? ==>
                && live == old(live) && ram.words == old(ram.words)
                && cache.slabs == old(cache.slabs) && frames.owner == old(frames.owner)
      ensures r.Some? ==> r.value !in old(live) && live == old(live)[r.value := layout]
      ensures r.Some? ==> r.value % layout.Align() == 0
      ensures r.Some? ==> Frugal(old(cache.slabs), old(frames.owner), frames.owner, layout, r.value)
      ensures ClassOf(layout).None? ==> r == AddressOf(old(NextPage(layout)))
      ensures ClassOf(layout).None? && r.Some? ==>
                Allocated(old(frames.owner), frames.owner, r.value / PAGE_SIZE, OrderOf(layout))
      ensures KeepsData(old(ram.words), ram.words, old(live))
      ensures OnlyManaged(old(ram.words), ram.words, pages.table, start)
    {
      hide World, Kept, Represents, PageCount, Listed, InUse, Owned, Allocated, SlabQuiet, Quiet, SlotTaken,
        KeepsData, Accounted, Began, LiveOk, SlotAddr, SlotCount, FreeRun, Plain, EntriesQuiet, BestFit, OnlyManaged;
      ghost var w, t, slabs, o := ram.words, pages.table, cache.slabs, frames.owner;
      DataRefl(w, t, live, slabs, o, frames.lists.lists);
      ClassOfFacts(layout);
      var class_ := ClassOf(layout);
      match class_ {
        case Some(c) =>
          HeadServes(w, t, cache.heads, slabs, cache.partial, c);
          ghost var heads, partial, p, s := cache.heads, cache.partial, 0, 0;
          r, p, s := cache.Alloc(pages, frames, c);
          if r.Some? {
            KeptPlaced(ram.words, t, frames.owner, frames.lists.lists);
            SlabPlain(w, ram.words, t, slabs, cache.slabs, o, frames.owner, p, c, s);
            SlabAllocated(w, ram.words, t, heads, live, slabs, cache.slabs, partial, o, frames.owner, start, p, c, s,
                          layout);
            live := live[r.value := layout];
          }
        case None =>
          var order := OrderOf(layout);
          var page := frames.Alloc(pages, order);
          if page.Some? {
            KeptPlaced(ram.words, t, frames.owner, frames.lists.lists);
            AllocatedCovered(|ram.words|, t, o, frames.owner, page.value, order);
            PagePlain(w, ram.words, t, slabs, o, frames.owner, page.value, order);
            PageAllocated(w, ram.words, t, cache.heads, live, slabs, cache.partial, o, frames.owner, start,
                          page.value, layout);
            r := Some(page.value * PAGE_SIZE);
            live := live[r.value := layout];
          } else {
            r := None;
          }
      }
    }

    /**
     Takes back one live allocation. The source's check that the layout matches the kind of page it
     points at holds for every one of them, whatever stale entries the table has.
    */
    method FreeLayout(address: nat, layout: Layout)
      requires Valid() && address in live && live[address] == layout
      modifies this`live, cache, frames, frames.lists, ram
      ensures Valid()
      ensures live == old(live) - {address}
      ensures KeepsData(old(ram.words), ram.words, live)
      ensures OnlyManaged(old(ram.words), ram.words, pages.table, start)
    {
      hide World, Kept, Represents, PageCount, Listed, InUse, Owned, Released, SlotQuiet, Quiet, SlotGivenBack,
        KeepsData, Accounted, Began, LiveOk, SlotAddr, SlotCount, Plain, EntriesQuiet, InUseSlot, SlotWord, SlotIndex,
        FromWord, OnlyManaged;
      ghost var w, t, slabs, o := ram.words, pages.table, cache.slabs, frames.owner;
      ghost var p, c, s := LiveEntry(w, t, cache.heads, cache.partial, live, slabs, o, frames.lists.lists, address);
      var entry := pages.Read(address / PAGE_SIZE);
      assert ClassOf(layout).Some? == entry.Slab?;
      if entry.Slab? {
        cache.Free(pages, frames, address, p, s);
        SlabFreed(w, ram.words, t, live, slabs, cache.slabs, o, frames.owner, start, p, s, layout);
      } else {
        frames.Free(pages, address / PAGE_SIZE);
        KeptPlaced(ram.words, t, frames.owner, frames.lists.lists);
        PageFreed(w, ram.words, t, cache.heads, live, slabs, cache.partial, o, frames.owner, start, p, layout);
      }
      live := live - {address};
    }

    /** A client writes a word of memory it holds: no structure of the allocator is in it. */
    method Store(address: nat, i: nat, value: Word)
      requires Valid() && address in live && InFootprint(address, live[address], i) && i < |ram.words|
      modifies ram
      ensures Valid()
      ensures ram.words == old(ram.words)[i := value]
    {
      hide World, Kept, Represents, PageCount, Listed, InUse, Owned, Accounted, Began, Plain, InFootprint;
      ClientWriteKept(ram.words, pages.table, cache.heads, cache.partial, live, cache.slabs, frames.owner,
                      frames.lists.heads, frames.lists.lists, address, i, value);
      ram.Store(i, value);
    }

    /**
     A live allocation is aligned and large enough, and no word of it is the table's, outside the pages
     the heap was given, or another allocation's.
    */
    lemma LiveIsIsolated(a: nat, i: nat)
      requires Valid() && a in live && InFootprint(a, live[a], i)
      ensures a % live[a].Align() == 0 && WordCount(live[a]) * 8 >= live[a].size && 8 * (a / 8) == a
      ensures i < |ram.words| && !pages.table.Holds(i) && i / PAGE_WORDS in start
      ensures forall b | b in live && InFootprint(b, live[b], i) :: b == a
    {
      hide World, Represents, PageCount, Listed, InUse, Plain, OrderOf, WordCount, InFootprint, Owned, LiveOk;
      KeptPlaced(ram.words, pages.table, frames.owner, frames.lists.lists);
      hide Kept;
      AccountedOne(live, cache.slabs, frames.owner, a);
      LiveAligned(a, live[a], cache.slabs, frames.owner);
      LiveAtWord(a, live[a], cache.slabs, frames.owner);
      FootprintHolds(live[a]);
      LiveWords(ram.words, pages.table, live, cache.slabs, frames.owner, a, i);
      forall b | b in live && InFootprint(b, live[b], i)
        ensures b == a
      {
        AccountedOne(live, cache.slabs, frames.owner, b);
        LiveApart(a, live[a], b, live[b], cache.slabs, frames.owner, i);
      }
    }

    /** Everything is as initialisation left it: no slabs, and the same blocks free. */
    ghost predicate Restored()
      requires Valid()
      reads this, ram, cache, frames, frames.lists, frames.lists.ram, pages.ram
    {
      && cache.slabs == map[] && (forall c | 0 <= c < |cache.heads| :: cache.heads[c] == None)
      && (forall p: nat, k: nat :: FreeBlock(frames.owner, p, k) <==> FreeBlock(start, p, k))
      && frames.lists.pages == |FreePages(start)| == |start.Keys|
    }

    /** Once every allocation has come back the heap is restored, whatever happened in between. */
    lemma NothingLiveRestores()
      requires Valid() && live == map[]
      ensures Restored()
    {
      hide World, Kept, Represents, PageCount;
      NoSlabs(live, cache.slabs, frames.owner, ram.words, pages.table, cache.heads, cache.partial);
      HeadsEmpty(ram.words, pages.table, cache.heads, cache.slabs, cache.partial);
      AllFree(live, cache.slabs, frames.owner, ram.words, pages.table, frames.lists.lists, start);
      KeptLists(ram.words, pages.table, frames.owner, frames.lists.heads, frames.lists.lists);
      PageCountIsFreePages(frames.owner, frames.lists.lists);
    }

    lemma InStock(held: seq<Piece>)
      requires Valid() && Holdings(held, live)
      ensures InHand(held, Stock(live, cache.slabs, frames.owner), start)
    {
      hide Holdings, Accounted, Began, Plain;
    }

    /** One request of a client: memory, a word written, or a piece given back. */
    method Serve(request: Request, held: seq<Piece>) returns (held': seq<Piece>, outcome: Option<nat>)
      requires Valid() && Holdings(held, live) && Remembered(held, ram.words)
      modifies this`live, cache, frames, frames.lists, ram
      ensures Valid() && Holdings(held', live) && Remembered(held', ram.words)
      ensures held' == After(held, request, outcome)
      ensures Answers(request, held, outcome, old(Stock(live, cache.slabs, frames.owner)),
                      Stock(live, cache.slabs, frames.owner))
      ensures OnlyManaged(old(ram.words), ram.words, pages.table, start)
    {
      hide Valid, Holdings, Remembered, OnlyManaged, KeepsData, InFootprint, WordCount, CannotServe, Frugal;
      ghost var w, l := ram.words, live;
      held', outcome := held, None;
      SameManaged(w, pages.table, start);
      match request {
        case Ask(layout) =>
          outcome := AllocLayout(layout);
          StillRemembered(held, w, ram.words, l);
          if outcome.Some? {
            HoldMore(held, ram.words, l, outcome.value, layout);
            held' := held + [Piece(outcome.value, layout, map[])];
          }
        case GiveBack(j) =>
          if j < |held| {
            HoldLess(held, w, l, j);
            FreeLayout(held[j].address, held[j].layout);
            held' := held[..j] + held[j + 1..];
            StillRemembered(held', w, ram.words, live);
          }
        case Write(j, k, value) =>
          if j < |held| && k < WordCount(held[j].layout) {
            HeldIsLive(held, l, j, k);
            LiveIsIsolated(held[j].address, held[j].address / 8 + k);
            Store(held[j].address, held[j].address / 8 + k, value);
            OneManaged(w, held[j].address / 8 + k, value, pages.table, start);
            held' := held[j := held[j].(written := held[j].written[k := value])];
            WroteOne(held, w, l, j, k, value);
          }
      }
    }

    /**
     Any run of a client that asks for memory, writes to what it holds and gives it back. A request is
     refused exactly when the heap as it is then cannot serve it. What the client holds is what the outcomes
     of its requests say, exactly that is live, every word it wrote is as it wrote it, nothing outside the
     heap's own pages is touched, and if it ends with nothing the heap is restored.
    */
    method Session(script: seq<Request>)
      returns (held: seq<Piece>, outcomes: seq<Option<nat>>, ghost trace: seq<Stock>)
      requires Valid() && live == map[]
      modifies this`live, cache, frames, frames.lists, ram
      ensures |outcomes| == |script| && held == Replay(script, outcomes)
      ensures Answered(script, outcomes, trace, start)
      ensures trace[0] == old(Stock(live, cache.slabs, frames.owner))
      ensures trace[|script|] == Stock(live, cache.slabs, frames.owner)
      ensures Valid() && Holdings(held, live) && Remembered(held, ram.words)
      ensures OnlyManaged(old(ram.words), ram.words, pages.table, start)
      ensures held == [] ==> Restored()
    {
      hide Valid, Holdings, Remembered, OnlyManaged, Replay, Answers, InHand, After, Answered;
      held, outcomes, trace := [], [], [Stock(live, cache.slabs, frames.owner)];
      var i := 0;
      NothingHeld(ram.words, pages.table, start);
      InStock(held);
      NothingAsked(trace[0], start);
      while i < |script|
        invariant i <= |script| && |outcomes| == i && held == Replay(script[..i], outcomes)
        invariant Valid() && Holdings(held, live) && Remembered(held, ram.words)
        invariant OnlyManaged(old(ram.words), ram.words, pages.table, start)
        invariant Answered(script[..i], outcomes, trace, start) && |trace| == i + 1
        invariant trace[0] == old(Stock(live, cache.slabs, frames.owner))
        invariant trace[i] == Stock(live, cache.slabs, frames.owner)
      {
        ghost var w, before := ram.words, held;
        var outcome;
        held, outcome := Serve(script[i], held);
        ghost var now := Stock(live, cache.slabs, frames.owner);
        ReplayStep(script, i + 1, outcomes + [outcome]);
        InStock(held);
        OneMoreAnswer(script, i, outcomes, before, outcome, trace, now, start);
        ManagedChain(old(ram.words), w, ram.words, pages.table, start);
        outcomes, trace := outcomes + [outcome], trace + [now];
        i := i + 1;
      }
      assert script[..i] == script;
      if held == [] {
        NothingLeft(live);
        NothingLiveRestores();
      }
    }
  }

  // ----- A client's view

  /** What a client does next: ask for memory, give back the `index`th piece it holds, or write a word of it. */
  datatype Request = Ask(layout: Layout) | GiveBack(index: nat) | Write(index: nat, word: nat, value: Word)

  /** A piece of memory held, and what has been written to its words. */
  datatype Piece = Piece(address: nat, layout: Layout, written: map<nat, Word>)

  /** What is held after one more request, given the address it was answered with. */
  function After(held: seq<Piece>, request: Request, outcome: Option<nat>): seq<Piece> {
    match request
    case Ask(layout) => if outcome.Some? then held + [Piece(outcome.value, layout, map[])] else held
    case GiveBack(j) => if j < |held| then held[..j] + held[j + 1..] else held
    case Write(j, k, value) =>
      if j < |held| && k < WordCount(held[j].layout)
      then held[j := held[j].(written := held[j].written[k := value])] else held
  }

  /** As if every piece were memory of its own. */
  function Replay(script: seq<Request>, outcomes: seq<Option<nat>>): seq<Piece>
    requires |outcomes| == |script|
  {
    if script == [] then []
    else
      var n := |script| - 1;
      After(Replay(script[..n], outcomes[..n]), script[n], outcomes[n])
  }

  /** What the heap has given out, and what it has to give: its slabs, and the blocks its pages are in. */
  datatype Stock = Stock(live: Live, slabs: SlabMap, owner: Owner)

  /** Out of the pages it began with, exactly what a client holds is given out. */
  ghost predicate InHand(held: seq<Piece>, s: Stock, start: Owner) {
    Holdings(held, s.live) && Accounted(s.live, s.slabs, s.owner) && Began(start, s.owner)
  }

  /**
   A request for memory is refused exactly when there is nothing to serve it with, and then nothing
   changes; neither does anything when a word is written or a piece that is not held is given back.
  */
  ghost predicate Answers(request: Request, held: seq<Piece>, outcome: Option<nat>, s: Stock, s': Stock) {
    match request
    case Ask(layout) =>
      && (outcome.None? <==> CannotServe(s.slabs, s.owner, layout))
      && (if outcome.Some? then Frugal(s.slabs, s.owner, s'.owner, layout, outcome.value) else s' == s)
    case GiveBack(j) => outcome.None? && (j >= |held| ==> s' == s)
    case Write(_, _, _) => outcome.None? && s' == s
  }

  /** Every request of a run was answered so, by the heap as it was then. */
  ghost predicate Answered(script: seq<Request>, outcomes: seq<Option<nat>>, trace: seq<Stock>, start: Owner) {
    && |outcomes| == |script| && |trace| == |script| + 1
    && (forall i: nat | i <= |script| :: InHand(Replay(script[..i], outcomes[..i]), trace[i], start))
    && forall i: nat | i < |script| ::
         Answers(script[i], Replay(script[..i], outcomes[..i]), outcomes[i], trace[i], trace[i + 1])
  }

  lemma NothingAsked(s: Stock, start: Owner)
    requires InHand([], s, start)
    ensures Answered([], [], [s], start)
  {
    hide InHand;
  }

  lemma OneMoreAnswer(script: seq<Request>, n: nat, outcomes: seq<Option<nat>>, held: seq<Piece>,
                      outcome: Option<nat>, trace: seq<Stock>, s': Stock, start: Owner)
    requires n < |script| && |outcomes| == n && Answered(script[..n], outcomes, trace, start)
    requires held == Replay(script[..n], outcomes) && Answers(script[n], held, outcome, trace[n], s')
    requires InHand(Replay(script[..n + 1], outcomes + [outcome]), s', start)
    ensures Answered(script[..n + 1], outcomes + [outcome], trace + [s'], start)
  {
    hide Replay, Answers, InHand;
    var (longer, answers, stocks) := (script[..n + 1], outcomes + [outcome], trace + [s']);
    assert longer[..n] == script[..n] && answers[..n] == outcomes;
    assert longer[..n + 1] == longer && answers[..n + 1] == answers;
    forall i: nat | i <= n
      ensures InHand(Replay(longer[..i], answers[..i]), stocks[i], start)
      ensures Answers(longer[i], Replay(longer[..i], answers[..i]), answers[i], stocks[i], stocks[i + 1])
    {
      assert InHand(Replay(script[..n][..i], outcomes[..i]), trace[i], start);
      assert script[..n][..i] == longer[..i] && answers[..i] == outcomes[..i];
      if i < n {
        assert Answers(script[..n][i], Replay(script[..n][..i], outcomes[..i]), outcomes[i], trace[i], trace[i + 1]);
      }
    }
  }

  lemma ReplayStep(script: seq<Request>, n: nat, outcomes: seq<Option<nat>>)
    requires 0 < n <= |script| && |outcomes| == n
    ensures Replay(script[..n], outcomes) ==
              After(Replay(script[..n - 1], outcomes[..n - 1]), script[n - 1], outcomes[n - 1])
  {
    assert script[..n][..n - 1] == script[..n - 1];
  }

  /** The pieces held are the live ones, once each. */
  ghost predicate Holdings(held: seq<Piece>, live: Live) {
    && HeldOnce(held)
    && (forall i | 0 <= i < |held| :: held[i].address in live && live[held[i].address] == held[i].layout)
    && (forall a | a in live :: Held(held, a))
  }

  ghost predicate HeldOnce(held: seq<Piece>) {
    forall i, j | 0 <= i < j < |held| :: held[i].address != held[j].address
  }

  ghost predicate Held(held: seq<Piece>, a: nat) {
    exists i :: 0 <= i < |held| && held[i].address == a
  }

  /** Memory holds every word as it was last written. */
  ghost predicate Remembered(held: seq<Piece>, w: seq<Word>) {
    forall i, k: nat | 0 <= i < |held| && k in held[i].written :: Holds(held[i], k, w)
  }

  ghost predicate Holds(piece: Piece, k: nat, w: seq<Word>)
    requires k in piece.written
  {
    && k < WordCount(piece.layout) && piece.address / 8 + k < |w|
    && w[piece.address / 8 + k] == piece.written[k]
  }

  lemma NothingHeld(w: seq<Word>, t: Table, start: Owner)
    ensures Holdings([], map[]) && Remembered([], w) && OnlyManaged(w, w, t, start) && Replay([], []) == []
  {
  }

  lemma NothingLeft(live: Live)
    requires Holdings([], live)
    ensures live == map[]
  {
    assert forall a | a in live :: Held([], a);
  }

  lemma SameManaged(w: seq<Word>, t: Table, start: Owner)
    ensures OnlyManaged(w, w, t, start)
  {
  }

  lemma ManagedChain(w0: seq<Word>, w: seq<Word>, w': seq<Word>, t: Table, start: Owner)
    requires OnlyManaged(w0, w, t, start) && OnlyManaged(w, w', t, start)
    ensures OnlyManaged(w0, w', t, start)
  {
  }

  lemma OneManaged(w: seq<Word>, i: nat, value: Word, t: Table, start: Owner)
    requires i < |w| && i / PAGE_WORDS in start
    ensures OnlyManaged(w, w[i := value], t, start)
  {
  }

  lemma HeldIsLive(held: seq<Piece>, live: Live, j: nat, k: nat)
    requires Holdings(held, live) && j < |held| && k < WordCount(held[j].layout)
    ensures held[j].address in live && live[held[j].address] == held[j].layout
    ensures InFootprint(held[j].address, held[j].layout, held[j].address / 8 + k)
  {
  }

  lemma StillRemembered(held: seq<Piece>, w: seq<Word>, w': seq<Word>, live: Live)
    requires Holdings(held, live) && Remembered(held, w) && KeepsData(w, w', live)
    ensures Remembered(held, w')
  {
    hide WordCount;
    forall i, k: nat | 0 <= i < |held| && k in held[i].written
      ensures Holds(held[i], k, w')
    {
      assert Holds(held[i], k, w);
      assert InFootprint(held[i].address, live[held[i].address], held[i].address / 8 + k);
    }
  }

  lemma HoldMore(held: seq<Piece>, w: seq<Word>, live: Live, a: nat, layout: Layout)
    requires Holdings(held, live) && Remembered(held, w) && a !in live
    ensures Holdings(held + [Piece(a, layout, map[])], live[a := layout])
    ensures Remembered(held + [Piece(a, layout, map[])], w)
  {
    hide Holds;
    var held' := held + [Piece(a, layout, map[])];
    assert held'[|held|].address == a;
    forall b | b in live
      ensures Held(held', b)
    {
      var i :| 0 <= i < |held| && held[i].address == b;
      assert held'[i].address == b;
    }
  }

  lemma HoldLess(held: seq<Piece>, w: seq<Word>, live: Live, j: nat)
    requires Holdings(held, live) && Remembered(held, w) && j < |held|
    ensures held[j].address in live && live[held[j].address] == held[j].layout
    ensures Holdings(held[..j] + held[j + 1..], live - {held[j].address}) && Remembered(held[..j] + held[j + 1..], w)
  {
    hide Held, Holds;
    Others(held, held[..j] + held[j + 1..], w, live, j);
  }

  lemma Others(held: seq<Piece>, held': seq<Piece>, w: seq<Word>, live: Live, j: nat)
    requires Holdings(held, live) && Remembered(held, w) && j < |held|
    requires |held'| == |held| - 1 && forall i | 0 <= i < |held'| :: held'[i] == held[if i < j then i else i + 1]
    ensures Holdings(held', live - {held[j].address}) && Remembered(held', w)
  {
    hide Held, Holds;
    forall a | a in live && a != held[j].address
      ensures Held(held', a)
    {
      StillHeld(held, held', j, a);
    }
  }

  lemma StillHeld(held: seq<Piece>, held': seq<Piece>, j: nat, a: nat)
    requires j < |held| && |held'| == |held| - 1 && forall i | 0 <= i < |held'| ::
               held'[i] == held[if i < j then i else i + 1]
    requires Held(held, a) && a != held[j].address
    ensures Held(held', a)
  {
    var i :| 0 <= i < |held| && held[i].address == a;
    assert held'[if i < j then i else i - 1].address == a;
  }

  /** A word written to one piece changes what that piece remembers and nothing any other does. */
  lemma WroteOne(held: seq<Piece>, w: seq<Word>, live: Live, j: nat, k: nat, value: Word)
    requires Holdings(held, live) && Remembered(held, w) && j < |held| && k < WordCount(held[j].layout)
    requires var at := held[j].address / 8 + k; at < |w| && forall b | b in live && InFootprint(b, live[b], at) ::
               b == held[j].address
    ensures var held' := held[j := held[j].(written := held[j].written[k := value])];
            Holdings(held', live) && Remembered(held', w[held[j].address / 8 + k := value])
  {
    hide WordCount, InFootprint, Holds;
    var held' := held[j := held[j].(written := held[j].written[k := value])];
    SameHoldings(held, held', live);
    hide Holdings, Remembered;
    forall i, n: nat | 0 <= i < |held'| && n in held'[i].written
      ensures Holds(held'[i], n, w[held[j].address / 8 + k := value])
    {
      StillHolds(held, w, live, j, k, value, i, n);
    }
    assert Remembered(held', w[held[j].address / 8 + k := value]) by {
      SeenAll(held', w[held[j].address / 8 + k := value]);
    }
  }

  lemma SeenAll(held: seq<Piece>, w: seq<Word>)
    requires forall i, n: nat | 0 <= i < |held| && n in held[i].written :: Holds(held[i], n, w)
    ensures Remembered(held, w)
  {
    hide Holds;
  }

  lemma SameHoldings(held: seq<Piece>, held': seq<Piece>, live: Live)
    requires Holdings(held, live) && |held'| == |held|
    requires forall i | 0 <= i < |held| :: held'[i].address == held[i].address && held'[i].layout == held[i].layout
    ensures Holdings(held', live)
  {
    forall a | a in live
      ensures Held(held', a)
    {
      assert Held(held, a);
      var i :| 0 <= i < |held| && held[i].address == a;
      assert held'[i].address == a;
    }
  }

  lemma StillHolds(held: seq<Piece>, w: seq<Word>, live: Live, j: nat, k: nat, value: Word, i: nat, n: nat)
    requires Holdings(held, live) && Remembered(held, w) && j < |held| && k < WordCount(held[j].layout) && i < |held|
    requires var at := held[j].address / 8 + k; at < |w| && forall b | b in live && InFootprint(b, live[b], at) ::
               b == held[j].address
    requires n in held[i].written || (i == j && n == k)
    ensures var held' := held[j := held[j].(written := held[j].written[k := value])];
            n in held'[i].written && Holds(held'[i], n, w[held[j].address / 8 + k := value])
  {
    hide WordCount;
    if !(i == j && n == k) {
      assert Holds(held[i], n, w);
      HeldIsLive(held, live, i, n);
      if i != j {
        assert held[i].address != held[j].address;
      }
    }
  }

  lemma LiveAtWord(a: nat, layout: Layout, slabs: SlabMap, o: Owner)
    requires LiveOk(a, layout, slabs, o)
    ensures 8 * (a / 8) == a
  {
    hide ClassOf, OrderOf, SlotAddr;
    match ClassOf(layout) {
      case Some(c) =>
        SlotPlace(a / PAGE_SIZE, c, SlotIndex(a, c));
        DivUnique(a, 8, SlotWord(a / PAGE_SIZE, c, SlotIndex(a, c)), 0);
      case None =>
        DivUnique(a, 8, 512 * (a / PAGE_SIZE), 0);
    }
  }

  lemma SettledFacts(memory: MemoryMap, ram: Memory, taken: seq<Region>, pages: Pages)
    requires Settled(memory, ram, taken, pages)
    ensures pages.ram == ram && pages.Valid() && memory.Valid() && pages.table.len == memory.arena.size / PAGE_SIZE
    ensures memory.Reserved() == taken + [TableRegion(pages.table)]
    ensures forall p | pages.table.Covers(p) :: EntryAt(ram.words, pages.table, p) == Entry.Buddy(false, 0)
    ensures forall i: nat | pages.table.Holds(i) :: Open(memory.arena, taken, i / PAGE_WORDS)
    ensures AtHome(memory.arena, taken, pages.table)
  {
  }

  /** The table is as long as the arena and starts the lowest run that is long enough. */
  ghost predicate AtHome(arena: Region, taken: seq<Region>, t: Table) {
    && t.len == arena.size / PAGE_SIZE
    && exists run :: FirstRoom(arena, taken, t.len, run) && run.start == t.page
  }

  function TableRegion(t: Table): Region {
    Region(t.page * PAGE_SIZE, RequiredPages(t.len) * PAGE_SIZE)
  }

  lemma NothingYet(w: seq<Word>, t: Table, lists: seq<seq<nat>>)
    requires t == Table(0, 0, 0) && |lists| == ORDERS && forall k | 0 <= k < ORDERS :: lists[k] == []
    ensures Kept(w, t, map[], lists, None)
  {
  }

  lemma FreshHeap(w: seq<Word>, t: Table, o: Owner, lists: seq<seq<nat>>, heads: seq<Option<nat>>,
                  partial: seq<seq<nat>>)
    requires Kept(w, t, o, lists, None) && forall p | p in o :: o[p].free
    requires |heads| == |partial| == CLASSES_COUNT
    requires forall k | 0 <= k < CLASSES_COUNT :: heads[k] == None && partial[k] == []
    ensures World(w, t, heads, map[], partial) && Listed(partial, map[]) && InUse(map[]) && Owned(map[], o)
    ensures Accounted(map[], map[], o) && Began(o, o) && Plain(w, t, map[], o)
  {
  }

  /** Initialisation writes only pages nobody had reserved. */
  lemma InitWrites(w0: seq<Word>, w1: seq<Word>, w2: seq<Word>, memory: MemoryMap, pages: Pages, taken: seq<Region>,
                   o: Owner)
    requires memory.Valid() && |w1| == |w0| && memory.Reserved() == taken + [TableRegion(pages.table)]
    requires forall i: nat | i < |w0| && !Open(memory.arena, taken, i / PAGE_WORDS) :: w1[i] == w0[i]
    requires Quiet(w1, w2, pages.table, o, None) && forall p: nat :: p in o <==>
               Open(memory.arena, memory.Reserved(), p)
    requires forall i: nat | pages.table.Holds(i) :: Open(memory.arena, taken, i / PAGE_WORDS)
    ensures |w2| == |w0|
    ensures forall i: nat | i < |w0| && !Open(memory.arena, taken, i / PAGE_WORDS) :: w2[i] == w0[i]
  {
    hide WholePage, Touches;
    forall i: nat | i < |w0| && !Open(memory.arena, taken, i / PAGE_WORDS)
      ensures w2[i] == w0[i]
    {
      assert !FreePage(o, i / PAGE_WORDS);
    }
  }

  /** Where the table settles, seeding can rely on the geometry it needs. */
  lemma SettledReady(memory: MemoryMap, ram: Memory, taken: seq<Region>, pages: Pages)
    requires memory.Valid() && Settled(memory, ram, taken, pages)
    requires memory.arena.End() <= |ram.words| * 8 && memory.arena.End() <= WORD_LIMIT
    ensures SeedReady(|ram.words|, pages.table, memory.arena, memory.Reserved())
  {
    var t, arena := pages.table, memory.arena;
    forall p: nat | Open(arena, memory.Reserved(), p)
      ensures t.Covers(p) && (p + 1) * PAGE_WORDS <= |ram.words| && Addressable(p)
    {
    }
    var region := TableRegion(t);
    forall i: nat | t.Holds(i)
      ensures !Open(arena, memory.Reserved(), i / PAGE_WORDS)
    {
      assert region in memory.Reserved();
      assert Touches(region, i / PAGE_WORDS);
    }
  }

  lemma DataRefl(w: seq<Word>, t: Table, live: Live, slabs: SlabMap, o: Owner, lists: seq<seq<nat>>)
    requires Kept(w, t, o, lists, None) && Accounted(live, slabs, o) && Owned(slabs, o)
    ensures KeepsData(w, w, live) && Partition(o) && Placed(|w|, t, o)
    ensures forall start :: OnlyManaged(w, w, t, start)
  {
    forall a: nat, i: nat {:trigger InFootprint(a, live[a], i)} | a in live && InFootprint(a, live[a], i)
      ensures i < |w|
    {
      LiveWords(w, t, live, slabs, o, a, i);
    }
  }

  /** The head of a class's list tells whether any slab of the class has a free slot. */
  lemma HeadServes(w: seq<Word>, t: Table, heads: seq<Option<nat>>, slabs: SlabMap, partial: seq<seq<nat>>, c: nat)
    requires World(w, t, heads, slabs, partial) && Listed(partial, slabs) && c < CLASSES_COUNT
    ensures |heads| == CLASSES_COUNT
    ensures heads[c] == None <==> forall p | p in slabs && slabs[p].class_ == c :: slabs[p].chain == []
  {
    HeadIsSlab(w, t, heads, slabs, partial, c);
    if partial[c] != [] {
      assert partial[c][0] in partial[c];
    }
  }

  lemma TakenDistinct(w: seq<Word>, t: Table, heads: seq<Option<nat>>, slabs: SlabMap, partial: seq<seq<nat>>,
                      slabs': SlabMap, p: nat, c: nat, s: nat)
    requires World(w, t, heads, slabs, partial) && SlotTaken(slabs, slabs', p, c, s)
    ensures Distinct([s] + slabs'[p].chain)
  {
    if p in slabs {
      assert SlabGood(w, t, p, slabs[p]);
    }
  }

  lemma SlabAllocated(w: seq<Word>, w': seq<Word>, t: Table, heads: seq<Option<nat>>, live: Live, slabs: SlabMap,
                      slabs': SlabMap, partial: seq<seq<nat>>, o: Owner, o': Owner, start: Owner, p: nat, c: nat,
                      s: nat, layout: Layout)
    requires World(w, t, heads, slabs, partial) && Partition(o) && Placed(|w|, t, o) && Partition(o')
    requires Accounted(live, slabs, o) && Owned(slabs, o) && Began(start, o)
    requires SlotTaken(slabs, slabs', p, c, s) && ClassOf(layout) == Some(c)
    requires if p in slabs then o' == o else Allocated(o, o', p, 0)
    requires SlabQuiet(w, w', t, o', NewIn(slabs, p))
    ensures var a := SlotAddr(p, c, s);
            && a !in live && Accounted(live[a := layout], slabs', o') && a % layout.Align() == 0
            && KeepsData(w, w', live) && OnlyManaged(w, w', t, start) && Began(start, o')
  {
    hide World, Placed, SlabQuiet, SlotTaken, Accounted, KeepsData, OnlyManaged, SlotAddr, SlotCount, Partition, Merged;
    if p !in slabs {
      AllocatedSpares(o, o', p, 0);
    }
    SlabQuietManaged(w, w', t, o', NewIn(slabs, p), start);
    TakenDistinct(w, t, heads, slabs, partial, slabs', p, c, s);
    SlabAllocAccounted(live, slabs, slabs', o, o', p, c, s, layout);
    SlabAllocKeepsData(w, w', t, live, slabs, o, o', p);
    AccountedOne(live[SlotAddr(p, c, s) := layout], slabs', o', SlotAddr(p, c, s));
    LiveAligned(SlotAddr(p, c, s), layout, slabs', o');
  }

  lemma SlabPlain(w: seq<Word>, w': seq<Word>, t: Table, slabs: SlabMap, slabs': SlabMap, o: Owner, o': Owner, p: nat,
                  c: nat, s: nat)
    requires Plain(w, t, slabs, o) && EntriesQuiet(w, w', t, o', slabs') && SlotTaken(slabs, slabs', p, c, s)
    requires if p in slabs then o' == o else Allocated(o, o', p, 0)
    ensures Plain(w', t, slabs', o')
  {
    hide FromWord, SlotCount;
    if p !in slabs {
      AllocatedSpares(o, o', p, 0);
    }
  }

  lemma AllocatedCovered(size: nat, t: Table, o: Owner, o': Owner, p: nat, k: nat)
    requires Placed(size, t, o') && Allocated(o, o', p, k)
    ensures t.Covers(p)
  {
  }

  lemma PagePlain(w: seq<Word>, w': seq<Word>, t: Table, slabs: SlabMap, o: Owner, o': Owner, p: nat, k: nat)
    requires Plain(w, t, slabs, o) && Quiet(w, w', t, o', Some(p)) && Allocated(o, o', p, k)
    requires Placed(|w'|, t, o') && t.Covers(p) && EntryAt(w', t, p) == Entry.Buddy(false, k)
    ensures Plain(w', t, slabs, o')
  {
    hide FromWord;
    AllocatedSpares(o, o', p, k);
    hide Allocated;
    forall q | q in o' && o'[q].head == q && !o'[q].free && q !in slabs
      ensures t.Covers(q) && EntryAt(w', t, q).Buddy?
    {
      if q != p {
        assert t.Holds(t.EntryWord(q)) && !MayWrite(t, o', Some(p), t.EntryWord(q));
      }
    }
  }

  lemma PageAllocated(w: seq<Word>, w': seq<Word>, t: Table, heads: seq<Option<nat>>, live: Live, slabs: SlabMap,
                      partial: seq<seq<nat>>, o: Owner, o': Owner, start: Owner, p: nat, layout: Layout)
    requires World(w, t, heads, slabs, partial) && Partition(o) && Placed(|w|, t, o) && Partition(o')
    requires Accounted(live, slabs, o) && Owned(slabs, o) && Began(start, o)
    requires ClassOf(layout).None? && Allocated(o, o', p, OrderOf(layout)) && Quiet(w, w', t, o', Some(p))
    ensures World(w', t, heads, slabs, partial) && Owned(slabs, o') && Began(start, o')
    ensures var a := p * PAGE_SIZE;
            && a !in live && Accounted(live[a := layout], slabs, o') && a % layout.Align() == 0
            && KeepsData(w, w', live) && OnlyManaged(w, w', t, start)
  {
    hide World, Placed, Quiet, Accounted, KeepsData, OnlyManaged, Partition, Merged, FreeRun, ClassOf, OrderOf;
    QuietManaged(w, w', t, o', Some(p), start);
    PageAllocAccounted(live, slabs, o, o', p, layout);
    PageAllocKeepsData(w, w', t, live, slabs, o, o', p, OrderOf(layout));
    QuietKeepsWorld(w, w', t, o', Some(p), heads, slabs, partial);
    AccountedOne(live[p * PAGE_SIZE := layout], slabs, o', p * PAGE_SIZE);
    LiveAligned(p * PAGE_SIZE, layout, slabs, o');
  }

  lemma QuietManaged(w: seq<Word>, w': seq<Word>, t: Table, o: Owner, result: Option<nat>, start: Owner)
    requires Quiet(w, w', t, o, result) && o.Keys == start.Keys
    ensures OnlyManaged(w, w', t, start)
  {
  }

  lemma SlabQuietManaged(w: seq<Word>, w': seq<Word>, t: Table, o: Owner, taken: Option<nat>, start: Owner)
    requires SlabQuiet(w, w', t, o, taken) && o.Keys == start.Keys && (taken.Some? ==> taken.value in o)
    ensures OnlyManaged(w, w', t, start)
  {
  }

  lemma SlotQuietManaged(w: seq<Word>, w': seq<Word>, t: Table, o: Owner, slabs: SlabMap, p: nat, s: nat, start: Owner)
    requires InUseSlot(slabs, p, s) && SlotQuiet(w, w', t, o, SlotWord(p, slabs[p].class_, s))
    requires o.Keys == start.Keys && p in o
    ensures OnlyManaged(w, w', t, start)
  {
    SlotPlace(p, slabs[p].class_, s);
  }

  lemma KeptPlaced(w: seq<Word>, t: Table, o: Owner, lists: seq<seq<nat>>)
    requires Kept(w, t, o, lists, None)
    ensures Partition(o) && Merged(o) && Placed(|w|, t, o)
  {
  }

  /** What a live address says about its page, and what that page's entry therefore is. */
  lemma LiveEntry(w: seq<Word>, t: Table, heads: seq<Option<nat>>, partial: seq<seq<nat>>, live: Live, slabs: SlabMap,
                  o: Owner, lists: seq<seq<nat>>, a: nat) returns (p: nat, c: nat, s: nat)
    requires World(w, t, heads, slabs, partial) && Kept(w, t, o, lists, None)
    requires Accounted(live, slabs, o) && Owned(slabs, o) && Plain(w, t, slabs, o) && a in live
    ensures p == a / PAGE_SIZE && t.InMemory(w) && t.Covers(p) && Partition(o) && Placed(|w|, t, o)
    ensures EntryAt(w, t, p).Slab? <==> ClassOf(live[a]).Some?
    ensures ClassOf(live[a]).Some? ==>
              && InUseSlot(slabs, p, s) && p in slabs && slabs[p].class_ == c < CLASSES_COUNT && a == SlotAddr(p, c, s)
              && ClassOf(live[a]) == Some(c)
              && Distinct(slabs[p].chain) && forall x | x in slabs[p].chain :: x < SlotCount(c)
    ensures ClassOf(live[a]).None? ==>
              && p !in slabs && a == p * PAGE_SIZE && p in o && o[p] == Block(p, OrderOf(live[a]), false)
  {
    hide FromWord, Partition, SlotAddr, OrderOf;
    assert LiveOk(a, live[a], slabs, o);
    p := a / PAGE_SIZE;
    match ClassOf(live[a]) {
      case Some(d) =>
        c, s := d, SlotIndex(a, d);
        assert SlabGood(w, t, p, slabs[p]);
        ChainInRange(w, t, p, slabs[p]);
      case None =>
        c, s := 0, 0;
    }
  }

  lemma ChainInRange(w: seq<Word>, t: Table, p: nat, st: SlabState)
    requires SlabGood(w, t, p, st)
    ensures Distinct(st.chain) && forall x | x in st.chain :: x < SlotCount(st.class_)
  {
    forall x | x in st.chain
      ensures x < SlotCount(st.class_)
    {
      var i := IndexOf(st.chain, x);
      assert Hop(w, p, st, i);
    }
  }

  lemma SlabFreed(w: seq<Word>, w': seq<Word>, t: Table, live: Live, slabs: SlabMap, slabs': SlabMap, o: Owner,
                  o': Owner, start: Owner, p: nat, s: nat, layout: Layout)
    requires Accounted(live, slabs, o) && Owned(slabs, o) && Partition(o) && Placed(|w|, t, o) && Began(start, o)
    requires SlotGivenBack(slabs, slabs', o, o', p, s) && Plain(w, t, slabs, o)
    requires p in slabs && slabs[p].class_ < CLASSES_COUNT
    requires SlotQuiet(w, w', t, o', SlotWord(p, slabs[p].class_, s)) && EntriesQuiet(w, w', t, o', slabs')
    requires Distinct(slabs[p].chain) && forall x | x in slabs[p].chain :: x < SlotCount(slabs[p].class_)
    requires ClassOf(layout) == Some(slabs[p].class_)
    requires var a := SlotAddr(p, slabs[p].class_, s); a in live && live[a] == layout
    ensures var live' := live - {SlotAddr(p, slabs[p].class_, s)};
            && Accounted(live', slabs', o') && KeepsData(w, w', live') && OnlyManaged(w, w', t, start)
            && Began(start, o') && Plain(w', t, slabs', o')
  {
    hide OnlyManaged, Accounted, Partition, Placed, SlotQuiet, SlotAddr, SlotWord, SlotCount, KeepsData, FromWord,
      Merged;
    SlabFreeAccounted(live, slabs, slabs', o, o', p, s);
    SlabFreeKeepsData(w, w', t, live, slabs, slabs', o, o', p, s, layout);
    GivenSpares(slabs, slabs', o, o', p, s);
    assert o'.Keys == o.Keys;
    hide Plain, SlotGivenBack, Began;
    SlotQuietManaged(w, w', t, o', slabs, p, s, start);
  }

  lemma PageFreed(w: seq<Word>, w': seq<Word>, t: Table, heads: seq<Option<nat>>, live: Live, slabs: SlabMap,
                  partial: seq<seq<nat>>, o: Owner, o': Owner, start: Owner, p: nat, layout: Layout)
    requires World(w, t, heads, slabs, partial) && Partition(o) && Placed(|w|, t, o) && Placed(|w'|, t, o')
    requires Accounted(live, slabs, o) && Owned(slabs, o) && Began(start, o) && Plain(w, t, slabs, o)
    requires p !in slabs && Released(o, o', p, OrderOf(layout)) && Quiet(w, w', t, o', None)
    ensures World(w', t, heads, slabs, partial) && Owned(slabs, o')
    ensures var live' := live - {p * PAGE_SIZE};
            && Accounted(live', slabs, o') && KeepsData(w, w', live') && OnlyManaged(w, w', t, start)
            && Began(start, o') && Plain(w', t, slabs, o')
  {
    hide World, Placed, Quiet, Accounted, KeepsData, OnlyManaged, Partition, Merged, OrderOf, Plain, Owned;
    QuietManaged(w, w', t, o', None, start);
    PageFreeAccounted(live, slabs, o, o', p, OrderOf(layout));
    PageFreeKeepsData(w, w', t, live, slabs, o, o', p, OrderOf(layout));
    FreedPlain(w, w', t, slabs, o, o', p, OrderOf(layout));
    QuietKeepsWorld(w, w', t, o', None, heads, slabs, partial);
  }

  lemma FreedPlain(w: seq<Word>, w': seq<Word>, t: Table, slabs: SlabMap, o: Owner, o': Owner, p: nat, k: nat)
    requires Plain(w, t, slabs, o) && Quiet(w, w', t, o', None) && Released(o, o', p, k) && Partition(o)
    ensures Plain(w', t, slabs, o')
  {
    hide FromWord;
    ReleasedSpares(o, o', p, k);
    hide Released, Partition;
    forall q | q in o' && o'[q].head == q && !o'[q].free && q !in slabs
      ensures t.Covers(q) && EntryAt(w', t, q).Buddy?
    {
      assert t.Holds(t.EntryWord(q)) && !MayWrite(t, o', None, t.EntryWord(q));
    }
  }

  // ----- Client writes

  lemma ClientWriteKept(w: seq<Word>, t: Table, heads: seq<Option<nat>>, partial: seq<seq<nat>>, live: Live,
                        slabs: SlabMap, o: Owner, listHeads: seq<Option<nat>>, lists: seq<seq<nat>>, a: nat, i: nat,
                        value: Word)
    requires World(w, t, heads, slabs, partial) && Kept(w, t, o, lists, None) && Represents(w, listHeads, lists)
    requires Accounted(live, slabs, o) && Owned(slabs, o) && Plain(w, t, slabs, o)
    requires a in live && InFootprint(a, live[a], i) && i < |w|
    ensures var w' := w[i := value];
            && World(w', t, heads, slabs, partial) && Kept(w', t, o, lists, None) && Represents(w', listHeads, lists)
            && Plain(w', t, slabs, o)
  {
    hide World, Kept, Represents, Accounted, Plain, InFootprint, LiveOk, Owned, Partition, Placed, Merged, FreePage,
      PartialLinks;
    var w' := w[i := value];
    KeptPlaced(w, t, o, lists);
    LiveWords(w, t, live, slabs, o, a, i);
    AccountedOne(live, slabs, o, a);
    assert !t.Holds(i);
    TableStays(w, w', t);
    OutsideListsKept(w, w', t, slabs, o, listHeads, lists, i);
    WorldSlabs(w, t, heads, slabs, partial);
    ClientKeepsSlabs(w, w', t, slabs, o, a, live[a], i);
    SameLinksWorld(w, w', t, heads, slabs, partial);
  }

  /** A word outside the table and every free page is none of the buddy allocator's business. */
  lemma OutsideListsKept(w: seq<Word>, w': seq<Word>, t: Table, slabs: SlabMap, o: Owner, heads: seq<Option<nat>>,
                         lists: seq<seq<nat>>, i: nat)
    requires Kept(w, t, o, lists, None) && Represents(w, heads, lists) && Plain(w, t, slabs, o)
    requires !FreePage(o, i / PAGE_WORDS)
    requires i < |w| == |w'| && forall j: nat | j < |w| && j != i :: w'[j] == w[j]
    requires t.InMemory(w) ==> forall p | t.Covers(p) :: EntryAt(w', t, p) == EntryAt(w, t, p)
    ensures Kept(w', t, o, lists, None) && Represents(w', heads, lists) && Plain(w', t, slabs, o)
  {
    hide FromWord, Partition, Merged, Represents;
    forall j: nat | j < |w| && OnSomeList(lists, j / PAGE_WORDS)
      ensures w'[j] == w[j]
    {
      ListedIsFree(lists, o, j / PAGE_WORDS);
    }
    RepresentsFrame(w, w', heads, lists);
  }

  lemma WorldSlabs(w: seq<Word>, t: Table, heads: seq<Option<nat>>, slabs: SlabMap, partial: seq<seq<nat>>)
    requires World(w, t, heads, slabs, partial)
    ensures forall p | p in slabs :: SlabGood(w, t, p, slabs[p])
  {
    hide SlabGood;
  }

  lemma SameLinksWorld(w: seq<Word>, w': seq<Word>, t: Table, heads: seq<Option<nat>>, slabs: SlabMap,
                       partial: seq<seq<nat>>)
    requires World(w, t, heads, slabs, partial) && |w'| == |w|
    requires forall p: nat :: PartialLinks(w', t)(p) == PartialLinks(w, t)(p)
    requires forall p | p in slabs :: SlabGood(w', t, p, slabs[p])
    ensures World(w', t, heads, slabs, partial)
  {
    hide SlabGood, PartialLinks;
    FamilyFrame(PartialLinks(w, t), PartialLinks(w', t), heads, partial);
  }

  lemma TableStays(w: seq<Word>, w': seq<Word>, t: Table)
    requires |w'| == |w| && forall j: nat | j < |w| && t.Holds(j) :: w'[j] == w[j]
    ensures t.InMemory(w) ==> forall p | t.Covers(p) :: EntryAt(w', t, p) == EntryAt(w, t, p)
    ensures forall p: nat :: PartialLinks(w', t)(p) == PartialLinks(w, t)(p)
  {
    hide FromWord;
    forall p | t.Covers(p) && t.InMemory(w)
      ensures EntryAt(w', t, p) == EntryAt(w, t, p)
    {
      assert t.Holds(t.EntryWord(p));
    }
  }

  /** A word of a live allocation is in no free slot. */
  lemma ClientKeepsSlabs(w: seq<Word>, w': seq<Word>, t: Table, slabs: SlabMap, o: Owner, a: nat, layout: Layout,
                         i: nat)
    requires Owned(slabs, o) && Partition(o) && LiveOk(a, layout, slabs, o) && InFootprint(a, layout, i)
    requires i < |w| && |w'| == |w| && forall j: nat | j < |w| && j != i :: w'[j] == w[j]
    requires t.InMemory(w) ==> forall p | t.Covers(p) :: EntryAt(w', t, p) == EntryAt(w, t, p)
    requires forall p | p in slabs :: SlabGood(w, t, p, slabs[p])
    ensures forall p | p in slabs :: SlabGood(w', t, p, slabs[p])
  {
    FootprintPlace(a, layout, slabs, o, i);
    forall p | p in slabs
      ensures SlabGood(w', t, p, slabs[p])
    {
      assert SlabGood(w, t, p, slabs[p]);
      if p != i / PAGE_WORDS {
        ChainFrame(w, w', p, slabs[p]);
      } else {
        var c := ClassOf(layout).value;
        ChainMissesSlot(w, w', p, slabs[p], SlotIndex(a, c), i);
      }
    }
  }

  lemma ChainMissesSlot(w: seq<Word>, w': seq<Word>, p: nat, st: SlabState, s: nat, i: nat)
    requires Chained(w, p, st) && |w'| == |w| && s < SlotCount(st.class_) && s !in st.chain
    requires SlotWord(p, st.class_, s) <= i < SlotWord(p, st.class_, s) + SlotWords(st.class_)
    requires forall j: nat | j < |w| && j != i :: w'[j] == w[j]
    ensures Chained(w', p, st)
  {
    ShiftIsClass(st.class_);
    hide SlotCount, SlotWord;
    forall k: nat | k < |st.chain|
      ensures st.chain[k] < SlotCount(st.class_) && SlotWord(p, st.class_, st.chain[k]) < |w'| && Hop(w', p, st, k)
    {
      assert Hop(w, p, st, k) && st.chain[k] in st.chain;
      if SlotWord(p, st.class_, st.chain[k]) == i {
        SameSlot(p, st.class_, s, st.chain[k], i);
      }
    }
  }

  // ----- Full restoration

  lemma NoSlabs(live: Live, slabs: SlabMap, o: Owner, w: seq<Word>, t: Table, heads: seq<Option<nat>>,
                partial: seq<seq<nat>>)
    requires live == map[] && Accounted(live, slabs, o) && InUse(slabs) && World(w, t, heads, slabs, partial)
    ensures slabs == map[]
  {
    forall p | p in slabs
      ensures false
    {
      var st := slabs[p];
      assert SlabGood(w, t, p, st);
      ChainInRange(w, t, p, st);
      var s := SomeMissing(st.chain, SlotCount(st.class_));
      assert InUseSlot(slabs, p, s);
    }
  }

  lemma HeadsEmpty(w: seq<Word>, t: Table, heads: seq<Option<nat>>, slabs: SlabMap, partial: seq<seq<nat>>)
    requires World(w, t, heads, slabs, partial) && slabs == map[]
    ensures forall c | 0 <= c < |heads| :: heads[c] == None
  {
    forall c | 0 <= c < |heads|
      ensures heads[c] == None
    {
      HeadIsSlab(w, t, heads, slabs, partial, c);
    }
  }

  lemma AllFree(live: Live, slabs: SlabMap, o: Owner, w: seq<Word>, t: Table, lists: seq<seq<nat>>, start: Owner)
    requires live == map[] && slabs == map[] && Accounted(live, slabs, o) && Kept(w, t, o, lists, None)
    requires Began(start, o)
    ensures FreePages(o) == FreePages(start) == start.Keys
    ensures forall p: nat, k: nat :: FreeBlock(o, p, k) <==> FreeBlock(start, p, k)
  {
    hide Merged, FreeBlock, Aligned, ListsTell, Placed, TableTells, Partition, Accounted;
    forall p | p in o
      ensures o[p].free
    {
      UnownedIsFree(live, o, p);
    }
    assert FreePages(start) == start.Keys;
    assert FreePages(o) == o.Keys;
    FreeBlocksDetermined(o, start);
  }

  lemma UnownedIsFree(live: Live, o: Owner, p: nat)
    requires live == map[] && Accounted(live, map[], o) && Partition(o) && p in o
    ensures o[p].free
  {
    assert BlockAt(o, p);
    assert InBlock(o[p], o[p].head);
  }

  lemma KeptLists(w: seq<Word>, t: Table, o: Owner, heads: seq<Option<nat>>, lists: seq<seq<nat>>)
    requires Kept(w, t, o, lists, None) && Represents(w, heads, lists)
    ensures Partition(o) && ListsTell(lists, o) && forall k | 0 <= k < |lists| :: Distinct(lists[k])
  {
    forall k | 0 <= k < |lists|
      ensures Distinct(lists[k])
    {
      assert Linked(PageLinks(w), heads[k], lists[k]);
    }
  }
}
