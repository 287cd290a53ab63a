/** Ranges of physical memory, in bytes and in pages (src/mm/region.rs, src/mm/pfn.rs). */
module Regions {
  import opened Wrappers
  import opened Ram

  datatype Region = Region(base: nat, size: nat) {
    function End(): nat {
      base + size
    }
  }

  function FromAddrDown(a: nat): nat {
    a / PAGE_SIZE
  }

  function FromAddrUp(a: nat): nat {
    (a + PAGE_SIZE - 1) / PAGE_SIZE
  }

  function Max(a: nat, b: nat): nat {
    if a < b then b else a
  }

  function Min(a: nat, b: nat): nat {
    if b < a then b else a
  }

  datatype PageRange = PageRange(start: nat, end: nat) {
    predicate Contains(p: nat) {
      start <= p < end
    }

    function Pages(): int {
      end - start
    }
  }

  /** `PageRange::new`: every page of the arena the region reaches into. */
  function Clip(region: Region, arena: Region): Option<PageRange> {
    var base := Max(region.base, arena.base);
    var end := Min(region.End(), arena.End());
    if base < end then Some(PageRange(FromAddrDown(base), FromAddrUp(end))) else None
  }

  /** Page `p` lies inside the arena, first byte to last. */
  predicate WholePage(arena: Region, p: nat) {
    arena.base <= p * PAGE_SIZE && (p + 1) * PAGE_SIZE <= arena.End()
  }

  /** Some byte of page `p` is in the region. */
  predicate Touches(r: Region, p: nat) {
    r.size > 0 && r.base < (p + 1) * PAGE_SIZE && p * PAGE_SIZE < r.End()
  }

  /** On the arena's whole pages, rounding a region outward claims exactly the pages it touches. */
  lemma ClipIsTouch(r: Region, arena: Region, p: nat)
    requires WholePage(arena, p)
    ensures (Clip(r, arena).Some? && Clip(r, arena).value.Contains(p)) <==> Touches(r, p)
  {
  }

  lemma ClipBounds(r: Region, arena: Region)
    requires Clip(r, arena).Some?
    ensures var c := Clip(r, arena).value;
            c.start < c.end && FromAddrDown(arena.base) <= c.start && c.end <= FromAddrUp(arena.End())
  {
  }
}
