/**
 Physical memory, one 64-bit word at a time.

 Everything the allocator writes is a word or the low half-word of one, at an address that is a
 multiple of eight, so `words[a / 8]` is the whole story. A page is 512 words.
*/
module Ram {
  import opened Wrappers

  const PAGE_SIZE: nat := 4096
  const PAGE_WORDS: nat := 512

  class Memory {
    var words: seq<Word>

    constructor (size: nat)
      ensures |words| == size
    {
      words := seq(size, _ => 0);
    }

    method Store(i: nat, value: Word)
      requires i < |words|
      modifies this
      ensures words == old(words)[i := value]
    {
      words := words[i := value];
    }

    method Zero(from: nat, count: nat)
      requires from + count <= |words|
      modifies this
      ensures |words| == |old(words)|
      ensures forall i: nat | i < |words| :: words[i] == if from <= i < from + count then 0 else old(words)[i]
    {
      words := words[..from] + seq(count, _ => 0) + words[from + count..];
    }
  }

  /** The low 16 bits of a word, as a `u16` load at its address sees them. */
  function LowHalf(w: Word): (h: nat)
    ensures h < 0x1_0000
  {
    w % 0x1_0000
  }

  /** A `u16` store at a word's address: the other 48 bits stay. */
  function WithLowHalf(w: Word, h: nat): (r: Word)
    requires h < 0x1_0000
    ensures LowHalf(r) == h && r / 0x1_0000 == w / 0x1_0000
  {
    w - w % 0x1_0000 + h
  }
}
