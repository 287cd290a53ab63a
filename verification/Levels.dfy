/** The three levels of a 39-bit translation table walk (src/arch/aarch64/mmu/level.rs). */
module Levels {
  import opened Wrappers
  import opened Bits

  const SLOTS: nat := 512
  const SPACE: nat := 0x80_0000_0000

  datatype Level = Level1 | Level2 | Level3 {
    function Number(): nat {
      match this
      case Level1 => 1
      case Level2 => 2
      case Level3 => 3
    }

    function Next(): Option<Level> {
      match this
      case Level1 => Some(Level2)
      case Level2 => Some(Level3)
      case Level3 => None
    }

    /** Where this level's slot index starts in an address. */
    function Offset(): nat {
      12 + 9 * (3 - Number())
    }

    /** The address space one slot covers: 1 GiB, 2 MiB, 4 KiB. */
    function Size(): nat {
      match this
      case Level1 => 0x4000_0000
      case Level2 => 0x20_0000
      case Level3 => 0x1000
    }

    /** The address space one table covers. */
    function Span(): nat {
      SLOTS * Size()
    }

    function SlotOf(va: nat): nat {
      va / Size() % SLOTS
    }

    /** The first address of the slot `va` is in: `va & !offset_mask`. */
    function SlotStart(va: nat): nat {
      va - va % Size()
    }

    predicate IsAligned(va: nat) {
      va % Size() == 0
    }
  }

  /** The sizes are the shifts the source computes. */
  lemma SizeIsShift(l: Level)
    ensures l.Size() == Pow2(l.Offset())
    ensures l.Next().Some? ==> l.Next().value.Span() == l.Size() && l.Next().value.Number() == l.Number() + 1
    ensures l.Level1? ==> l.Span() == SPACE
  {
    assert Pow2(12) == 0x1000 by {
      assert Pow2(6) == 64;
    }
    assert Pow2(15) == 8 * Pow2(12);
    assert Pow2(18) == 8 * Pow2(15);
    assert Pow2(21) == 8 * Pow2(18);
    assert Pow2(24) == 8 * Pow2(21);
    assert Pow2(27) == 8 * Pow2(24);
    assert Pow2(30) == 8 * Pow2(27);
  }

  /** Within a table that starts at `start`, slot `i` is the addresses from `start + i * size`. */
  lemma SlotsTile(l: Level, start: nat, va: nat)
    requires start % l.Span() == 0 && start <= va < start + l.Span()
    ensures var i := l.SlotOf(va);
            && i < SLOTS && l.SlotStart(va) == start + i * l.Size() <= va < start + (i + 1) * l.Size()
            && start + (i + 1) * l.Size() <= start + l.Span()
    ensures forall j: nat :: start + j * l.Size() <= va < start + (j + 1) * l.Size() <==> j == l.SlotOf(va)
  {
    var (q, size) := (start / l.Span(), l.Size());
    assert start == q * (SLOTS * size) && q >= 0 && size >= 1 by {
      QuotientIsNat(start, l.Span());
    }
    hide Level.Size;
    TileOne(q, va - start, size, va);
  }

  lemma TileOne(q: nat, d: nat, size: nat, va: nat)
    requires size >= 1 && d < SLOTS * size && va == q * (SLOTS * size) + d
    ensures va / size % SLOTS == d / size < SLOTS
    ensures va - va % size == q * (SLOTS * size) + d / size * size
    ensures d / size * size <= d < (d / size + 1) * size
    ensures (d / size + 1) * size <= SLOTS * size
    ensures forall j: nat :: j * size <= d < (j + 1) * size <==> j == d / size
  {
    var i := Quotient(d, size, SLOTS);
    MulMono(i + 1, SLOTS, size);
    Regroup(q, i, size);
    DivUnique(va, size, q * SLOTS + i, d - i * size);
    DivUnique(q * SLOTS + i, SLOTS, q, i);
    forall j: nat
      ensures j * size <= d < (j + 1) * size <==> j == i
    {
      OneQuotient(d, size, i, j);
    }
  }

  /** The slot an offset is in, one of as many as there is room for. */
  lemma Quotient(d: nat, size: nat, n: nat) returns (i: nat)
    requires size >= 1 && d < n * size
    ensures i == d / size < n && i * size <= d < i * size + size && (i + 1) * size == i * size + size
  {
    QuotientIsNat(d, size);
    i := d / size;
    assert d == i * size + d % size;
    if i >= n {
      MulMono(n, i, size);
      assert false;
    }
  }

  lemma OneQuotient(d: nat, size: nat, i: nat, j: nat)
    requires size >= 1 && i * size <= d < i * size + size
    ensures j * size <= d < (j + 1) * size <==> j == i
  {
    assert (j + 1) * size == j * size + size;
    if j < i {
      MulMono(j + 1, i, size);
    } else if i < j {
      MulMono(i + 1, j, size);
      assert (i + 1) * size == i * size + size;
    }
  }

  lemma Regroup(q: nat, i: nat, size: nat)
    ensures q * (SLOTS * size) + i * size == (q * SLOTS + i) * size
  {
  }

  lemma MulMono(a: nat, b: nat, c: nat)
    requires a <= b
    ensures a * c <= b * c
  {
  }
}
