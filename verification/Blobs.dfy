/** Reading a flattened device tree's bytes (src/platform/dtb/cursor.rs). */
module Blobs {
  import opened Wrappers

  type Byte = b: int | 0 <= b < 256

  type Bytes = seq<Byte>

  const U32_SIZE: nat := 4
  const U32_LIMIT: nat := 0x1_0000_0000

  /** `u32::from_be_bytes`. */
  function U32(b: Bytes): (r: nat)
    requires |b| == U32_SIZE
    ensures r < U32_LIMIT
  {
    (((b[0] as int) * 0x100 + b[1] as int) * 0x100 + b[2] as int) * 0x100 + b[3] as int
  }

  function BigEndian(n: nat): (b: Bytes)
    requires n < U32_LIMIT
    ensures |b| == U32_SIZE
  {
    [n / 0x100 / 0x100 / 0x100, n / 0x100 / 0x100 % 0x100, n / 0x100 % 0x100, n % 0x100]
  }

  /** The most significant byte comes first. */
  lemma BytesOfU32(b: Bytes)
    requires |b| == U32_SIZE
    ensures U32(b) / 0x100_0000 == b[0] && U32(b) / 0x1_0000 % 0x100 == b[1]
    ensures U32(b) / 0x100 % 0x100 == b[2] && U32(b) % 0x100 == b[3]
  {
  }

  lemma U32RoundTrip(n: nat)
    requires n < U32_LIMIT
    ensures U32(BigEndian(n)) == n
  {
  }

  /** Where the first NUL is. */
  function FirstNul(b: Bytes): Option<nat> {
    if b == [] then None
    else if b[0] == 0 then Some(0)
    else match FirstNul(b[1..])
         case None => None
         case Some(i) => Some(i + 1)
  }

  lemma {:induction false} FirstNulFacts(b: Bytes)
    ensures FirstNul(b).None? ==> 0 !in b
    ensures FirstNul(b).Some? ==> FirstNul(b).value < |b| && b[FirstNul(b).value] == 0 && 0 !in b[..FirstNul(b).value]
  {
    if b != [] && b[0] != 0 {
      FirstNulFacts(b[1..]);
      if FirstNul(b[1..]).Some? {
        var i := FirstNul(b[1..]).value;
        assert b[..i + 1] == [b[0]] + b[1..][..i];
      } else {
        assert b == [b[0]] + b[1..];
      }
    }
  }

  lemma {:induction false} FirstNulOf(name: Bytes, rest: Bytes)
    requires 0 !in name
    ensures FirstNul(name + [0] + rest) == Some(|name|)
  {
    var b := name + [0] + rest;
    if name != [] {
      assert b[0] == name[0] && name[0] in name;
      assert b[1..] == name[1..] + [0] + rest;
      FirstNulOf(name[1..], rest);
    }
  }

  function AlignUp(offset: nat): (r: nat)
    ensures r % 4 == 0 && offset <= r < offset + 4
  {
    (offset + 3) / 4 * 4
  }

  class Cursor {
    const blob: Bytes
    var offset: nat

    constructor (blob: Bytes, offset: nat)
      ensures this.blob == blob && this.offset == offset
    {
      this.blob := blob;
      this.offset := offset;
    }

    method ReadU32() returns (r: Option<nat>)
      modifies this
      ensures if old(offset) + U32_SIZE <= |blob|
              then r == Some(U32(blob[old(offset)..old(offset) + U32_SIZE])) && offset == old(offset) + U32_SIZE
              else r == None && offset == old(offset)
    {
      if offset + U32_SIZE > |blob| {
        return None;
      }
      var bytes := blob[offset..offset + U32_SIZE];
      offset := offset + U32_SIZE;
      return Some(U32(bytes));
    }

    method Take(size: nat) returns (r: Option<Bytes>)
      modifies this
      ensures if old(offset) + size <= |blob|
              then r == Some(blob[old(offset)..old(offset) + size]) && offset == old(offset) + size
              else r == None && offset == old(offset)
    {
      if offset + size > |blob| {
        return None;
      }
      r := Some(blob[offset..offset + size]);
      offset := offset + size;
    }

    /** The bytes up to the next NUL, which is passed over. */
    method CString() returns (r: Option<Bytes>)
      modifies this
      ensures if old(offset) <= |blob| && FirstNul(blob[old(offset)..]).Some?
              then var n := FirstNul(blob[old(offset)..]).value;
                   && old(offset) + n < |blob| && r == Some(blob[old(offset)..old(offset) + n])
                   && offset == old(offset) + n + 1
              else r == None && offset == old(offset)
    {
      if offset > |blob| {
        return None;
      }
      FirstNulFacts(blob[offset..]);
      var len := 0;
      while offset + len < |blob| && blob[offset + len] != 0
        invariant offset == old(offset) && offset + len <= |blob|
        invariant FirstNul(blob[offset..]) ==
                  match FirstNul(blob[offset + len..])
                  case None => None
                  case Some(i) => Some(len + i)
      {
        assert blob[offset + len..][1..] == blob[offset + len + 1..];
        len := len + 1;
      }
      if offset + len == |blob| {
        assert blob[offset + len..] == [];
        return None;
      }
      r := Some(blob[offset..offset + len]);
      offset := offset + len + 1;
    }

    predicate Done()
      reads this
    {
      offset + U32_SIZE > |blob|
    }

    method AlignU32()
      modifies this
      ensures offset == AlignUp(old(offset))
    {
      offset := (offset + 3) / 4 * 4;
    }
  }
}
