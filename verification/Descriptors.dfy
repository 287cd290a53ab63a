/**
 Translation table descriptors (src/arch/aarch64/mmu/descriptor.rs): the VMSAv8-64 stage 1 formats
 of the Arm Architecture Reference Manual, section D8.3.
*/
module Descriptors {
  import opened Wrappers
  import opened Bits
  import opened Ram
  import opened Levels

  datatype Kind = Invalid | Block | Table

  datatype AttrIndex = Normal | Device | Other(index: nat)

  datatype AccessPermissions = KernelReadWrite | AllReadWrite | KernelReadOnly | AllReadOnly

  datatype Shareability = NonShareable | Reserved | OuterShareable | InnerShareable

  datatype Descriptor = Descriptor(
    kind: Kind,
    attrIdx: AttrIndex,
    ns: bool,
    ap: AccessPermissions,
    sh: Shareability,
    af: bool,
    ng: bool,
    address: nat,
    contig: bool,
    pxn: bool,
    uxn: bool
  )

  /** Addresses a descriptor can hold: bits 47 to 12. */
  const ADDRESS_LIMIT: nat := 0x1_0000_0000_0000

  const ZERO := Descriptor(Invalid, Normal, false, KernelReadWrite, NonShareable, false, false, 0, false, false, false)
  const DEVICE_BLOCK := Descriptor(Block, Device, false, KernelReadWrite, NonShareable, true, false, 0, false,
                                   true, true)
  const NORMAL_BLOCK := Descriptor(Block, Normal, false, KernelReadWrite, InnerShareable, true, false, 0x4000_0000,
                                   false, false, true)
  const EXECUTABLE := Descriptor(Block, Normal, false, KernelReadOnly, InnerShareable, true, false, 0x4000_0000,
                                 false, false, true)
  const READ_ONLY := Descriptor(Block, Normal, false, KernelReadOnly, InnerShareable, true, false, 0x4000_0000,
                                false, true, true)
  const WRITABLE := Descriptor(Block, Normal, false, KernelReadWrite, InnerShareable, true, false, 0x4000_0000,
                               false, true, true)

  /** What a leaf says in its low two bits: a page at level 3 is encoded as a table is further up. */
  function KindOf(level: Level): Kind {
    match level
    case Level1 => Block
    case Level2 => Block
    case Level3 => Table
  }

  function KindBits(k: Kind): nat {
    match k
    case Invalid => 0
    case Block => 1
    case Table => 3
  }

  function KindFrom(bits: nat): Kind {
    if bits == 1 then Block else if bits == 3 then Table else Invalid
  }

  function AttrBits(a: AttrIndex): (r: nat)
    ensures r < 8
  {
    match a
    case Normal => 0
    case Device => 1
    case Other(index) => index % 8
  }

  function AttrFrom(bits: nat): AttrIndex {
    if bits == 0 then Normal else if bits == 1 then Device else Other(bits)
  }

  function ApBits(ap: AccessPermissions): nat {
    match ap
    case KernelReadWrite => 0
    case AllReadWrite => 1
    case KernelReadOnly => 2
    case AllReadOnly => 3
  }

  function ApFrom(bits: nat): AccessPermissions {
    if bits == 0 then KernelReadWrite else if bits == 1 then AllReadWrite else if bits == 2 then KernelReadOnly
      else AllReadOnly
  }

  function ShBits(sh: Shareability): nat {
    match sh
    case NonShareable => 0
    case Reserved => 1
    case OuterShareable => 2
    case InnerShareable => 3
  }

  function ShFrom(bits: nat): Shareability {
    if bits == 0 then NonShareable else if bits == 1 then Reserved else if bits == 2 then OuterShareable
      else InnerShareable
  }

  function Flag(b: bool): nat {
    if b then 1 else 0
  }

  /** The eight fields below the address, bits 0 to 11. */
  function LowBits(d: Descriptor): nat {
    KindBits(d.kind) + AttrBits(d.attrIdx) * 0x4 + Flag(d.ns) * 0x20 + ApBits(d.ap) * 0x40 + ShBits(d.sh) * 0x100
    + Flag(d.af) * 0x400 + Flag(d.ng) * 0x800
  }

  /** The three fields above it, bits 52 to 54. */
  function HighBits(d: Descriptor): nat {
    Flag(d.contig) + Flag(d.pxn) * 2 + Flag(d.uxn) * 4
  }

  /** `address & 0x0000_FFFF_FFFF_F000`, as a page number. */
  function AddressPage(a: nat): nat {
    a / PAGE_SIZE % 0x10_0000_0000
  }

  /** `Descriptor::to_u64`: the fields occupy disjoint bits, so its shifts and ORs are a sum. */
  function ToWord(d: Descriptor): Word {
    LowBits(d) + AddressPage(d.address) * PAGE_SIZE + HighBits(d) * 0x10_0000_0000_0000
  }

  /** `Descriptor::from_u64`. */
  function FromWord(w: Word): Descriptor {
    FromParts(w % PAGE_SIZE, w / PAGE_SIZE % 0x10_0000_0000, w / 0x10_0000_0000_0000 % 8)
  }

  function FromParts(low: nat, page: nat, high: nat): Descriptor {
    Descriptor(
      KindFrom(low % 4), AttrFrom(low / 0x4 % 8), low / 0x20 % 2 == 1, ApFrom(low / 0x40 % 4), ShFrom(low / 0x100 % 4),
      low / 0x400 % 2 == 1, low / 0x800 % 2 == 1, page * PAGE_SIZE, high % 2 == 1, high / 2 % 2 == 1, high / 4 % 2 == 1)
  }

  /** What is read back after writing a descriptor. */
  function Stored(d: Descriptor): Descriptor {
    d.(attrIdx := AttrFrom(AttrBits(d.attrIdx)), address := AddressPage(d.address) * PAGE_SIZE)
  }

  lemma ReadBack(d: Descriptor)
    ensures FromWord(ToWord(d)) == Stored(d)
  {
    PartsReadBack(d);
    hide FromParts, LowBits, HighBits, AddressPage, Stored;
    WordParts(LowBits(d), AddressPage(d.address), HighBits(d));
  }

  lemma PartsReadBack(d: Descriptor)
    ensures LowBits(d) < PAGE_SIZE && AddressPage(d.address) < 0x10_0000_0000 && HighBits(d) < 8
    ensures FromParts(LowBits(d), AddressPage(d.address), HighBits(d)) == Stored(d)
  {
    LowParts(d);
    HighParts(d);
    hide LowBits, HighBits, AddressPage, AttrFrom, AttrBits, ApFrom, ShFrom, KindFrom;
    assert forall a :: 0 <= AddressPage(a) < 0x10_0000_0000 by {
      AddressPageBound();
    }
  }

  lemma AddressPageBound()
    ensures forall a :: 0 <= AddressPage(a) < 0x10_0000_0000
  {
  }

  lemma WordParts(low: nat, page: nat, high: nat)
    requires low < PAGE_SIZE && page < 0x10_0000_0000 && high < 8
    ensures var w := low + page * PAGE_SIZE + high * 0x10_0000_0000_0000;
            && w % PAGE_SIZE == low && w / PAGE_SIZE % 0x10_0000_0000 == page && w / 0x10_0000_0000_0000 % 8 == high
  {
    var w := low + page * PAGE_SIZE + high * 0x10_0000_0000_0000;
    assert w / PAGE_SIZE == page + high * 0x100_0000_0000;
    assert (page + high * 0x100_0000_0000) % 0x10_0000_0000 == page;
  }

  lemma LowParts(d: Descriptor)
    ensures var low := LowBits(d);
            && low < PAGE_SIZE && KindFrom(low % 4) == d.kind && low / 0x4 % 8 == AttrBits(d.attrIdx)
            && (low / 0x20 % 2 == 1 <==> d.ns) && ApFrom(low / 0x40 % 4) == d.ap && ShFrom(low / 0x100 % 4) == d.sh
            && (low / 0x400 % 2 == 1 <==> d.af) && (low / 0x800 % 2 == 1 <==> d.ng)
  {
    hide AttrBits, KindFrom, ApFrom, ShFrom;
    var k, a, n, p, s, f, g :=
      KindBits(d.kind), AttrBits(d.attrIdx), Flag(d.ns), ApBits(d.ap), ShBits(d.sh), Flag(d.af), Flag(d.ng);
    FieldsApart(k, a, n, p, s, f, g);
    FieldBits(d);
  }

  lemma FieldBits(d: Descriptor)
    ensures KindFrom(KindBits(d.kind)) == d.kind && ApFrom(ApBits(d.ap)) == d.ap && ShFrom(ShBits(d.sh)) == d.sh
    ensures KindBits(d.kind) < 4 && ApBits(d.ap) < 4 && ShBits(d.sh) < 4
  {
  }

  lemma FieldsApart(k: nat, a: nat, n: nat, p: nat, s: nat, f: nat, g: nat)
    requires k < 4 && a < 8 && n < 2 && p < 4 && s < 4 && f < 2 && g < 2
    ensures var low := k + a * 0x4 + n * 0x20 + p * 0x40 + s * 0x100 + f * 0x400 + g * 0x800;
            && low < PAGE_SIZE && low % 4 == k && low / 0x4 % 8 == a && low / 0x20 % 2 == n && low / 0x40 % 4 == p
            && low / 0x100 % 4 == s && low / 0x400 % 2 == f && low / 0x800 % 2 == g
  {
    var low := k + a * 0x4 + n * 0x20 + p * 0x40 + s * 0x100 + f * 0x400 + g * 0x800;
    FieldAt(low, 0x4, k, 8, a, n + 2 * p + 8 * s + 0x20 * f + 0x40 * g);
    FieldAt(low, 0x20, k + 4 * a, 2, n, p + 4 * s + 0x10 * f + 0x20 * g);
    FieldAt(low, 0x40, k + 4 * a + 0x20 * n, 4, p, s + 4 * f + 8 * g);
    FieldAt(low, 0x100, k + 4 * a + 0x20 * n + 0x40 * p, 4, s, f + 2 * g);
    FieldAt(low, 0x400, k + 4 * a + 0x20 * n + 0x40 * p + 0x100 * s, 2, f, g);
    FieldAt(low, 0x800, k + 4 * a + 0x20 * n + 0x40 * p + 0x100 * s + 0x400 * f, 2, g, 0);
  }

  /** The field of a word between what is below it and what is above. */
  lemma FieldAt(word: nat, m: nat, below: nat, width: nat, field: nat, above: nat)
    requires m >= 1 && below < m && field < width && word == (field + width * above) * m + below
    ensures word / m % width == field && word % m == below
  {
    DivUnique(word, m, field + width * above, below);
    DivUnique(field + width * above, width, above, field);
  }

  lemma HighParts(d: Descriptor)
    ensures var high := HighBits(d);
            && high < 8 && (high % 2 == 1 <==> d.contig) && (high / 2 % 2 == 1 <==> d.pxn)
            && (high / 4 % 2 == 1 <==> d.uxn)
  {
  }

  /** The fields fit: a page-aligned 48-bit address, and a memory type named by its own variant. */
  predicate Fits(d: Descriptor) {
    && d.address % PAGE_SIZE == 0 && d.address < ADDRESS_LIMIT
    && (d.attrIdx.Other? ==> 2 <= d.attrIdx.index < 8)
  }

  /** A descriptor survives the trip through memory exactly when its fields fit. */
  lemma DescriptorRoundTrip(d: Descriptor)
    ensures FromWord(ToWord(d)) == d <==> Fits(d)
  {
    ReadBack(d);
    hide FromWord, ToWord;
    assert d.address < ADDRESS_LIMIT && d.address % PAGE_SIZE == 0 <==> AddressPage(d.address) * PAGE_SIZE == d.address;
  }

  /** Every word read as a descriptor is one that fits: the table holds nothing else. */
  lemma ReadFits(w: Word)
    ensures Fits(FromWord(w))
  {
  }

  /**
   What does not fit is lost, and what is read back is something else: here bit 0 of an address, and a memory
   type.
  */
  lemma LostInMemory()
    ensures FromWord(ToWord(ZERO.(address := 1))) == ZERO
    ensures FromWord(ToWord(ZERO.(attrIdx := Other(1)))) == ZERO.(attrIdx := Device)
  {
    hide FromWord, ToWord;
    ReadBack(ZERO.(address := 1));
    ReadBack(ZERO.(attrIdx := Other(1)));
  }
}
