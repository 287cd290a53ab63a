/** What physical memory exists and which parts are spoken for (src/mm/map.rs). */
module MemoryMap {
  import opened Wrappers
  import opened Ram
  import opened Regions
  import opened Gaps

  const RESERVED: nat := 16

  function AlignUp(a: nat): nat {
    (a + PAGE_SIZE - 1) / PAGE_SIZE * PAGE_SIZE
  }

  function AlignDown(a: nat): nat {
    a / PAGE_SIZE * PAGE_SIZE
  }

  /** Page `p` starts in the memory, or where it ends. */
  predicate Bounds(memory: Region, p: nat) {
    memory.base <= p * PAGE_SIZE <= memory.End()
  }

  lemma FirstBound(memory: Region)
    ensures AlignUp(memory.base) <= AlignDown(memory.End()) ==> Bounds(memory, FromAddrUp(memory.base))
    ensures forall p: nat | Bounds(memory, p) :: AlignUp(memory.base) <= AlignDown(memory.End())
  {
  }

  class MemoryMap {
    const arena: Region
    var reserved: seq<Region>
    var len: nat

    ghost predicate Valid()
      reads this
    {
      && |reserved| == RESERVED && len <= RESERVED
      && arena.base % PAGE_SIZE == 0 && arena.size % PAGE_SIZE == 0
    }

    constructor (arena: Region)
      requires arena.base % PAGE_SIZE == 0 && arena.size % PAGE_SIZE == 0
      ensures Valid() && this.arena == arena && Reserved() == []
    {
      this.arena := arena;
      reserved := seq(RESERVED, _ => Region(0, 0));
      len := 0;
    }

    /** The arena is the whole pages of the memory reported; there is none when no page boundary is in it. */
    static method New(memory: Region) returns (m: Option<MemoryMap>)
      ensures m.None? <==> forall p: nat :: !Bounds(memory, p)
      ensures m.Some? ==>
                && fresh(m.value) && m.value.Valid() && m.value.Reserved() == []
                && forall p: nat :: WholePage(m.value.arena, p) <==> WholePage(memory, p)
    {
      var base, end := AlignUp(memory.base), AlignDown(memory.End());
      FirstBound(memory);
      if end < base {
        return None;
      }
      var made := new MemoryMap(Region(base, end - base));
      return Some(made);
    }

    function Reserved(): seq<Region>
      requires Valid()
      reads this
    {
      reserved[..len]
    }

    /** Fails only when all sixteen slots are taken. */
    method Reserve(region: Region) returns (ok: bool)
      requires Valid()
      modifies this
      ensures Valid()
      ensures ok == (|old(Reserved())| < RESERVED)
      ensures Reserved() == if ok then old(Reserved()) + [region] else old(Reserved())
    {
      if len >= |reserved| {
        return false;
      }
      reserved := reserved[len := region];
      len := len + 1;
      return true;
    }

    method Unreserved() returns (runs: seq<PageRange>)
      requires Valid()
      ensures ExactRuns(arena, Reserved(), runs)
    {
      runs := AllRuns(arena, Reserved());
    }
  }
}
