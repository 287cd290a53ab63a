/** The device tree walker (src/platform/dtb/structure.rs, mod.rs). */
module Dtb {
  import opened Wrappers
  import opened Regions
  import opened Blobs
  import opened DeviceTree

  const DEFAULT_ADDRESS_CELLS: nat := 2
  const DEFAULT_SIZE_CELLS: nat := 1
  const ROOT_CHILD_DEPTH: nat := 1

  const REG: Bytes := [0x72, 0x65, 0x67]
  const ADDRESS_CELLS: Bytes := [0x23, 0x61, 0x64, 0x64, 0x72, 0x65, 0x73, 0x73, 0x2D, 0x63, 0x65, 0x6C, 0x6C, 0x73]
  const SIZE_CELLS: Bytes := [0x23, 0x73, 0x69, 0x7A, 0x65, 0x2D, 0x63, 0x65, 0x6C, 0x6C, 0x73]
  const COMPATIBLE: Bytes := [0x63, 0x6F, 0x6D, 0x70, 0x61, 0x74, 0x69, 0x62, 0x6C, 0x65]

  // ----- Walking

  datatype Property = Property(name: Bytes, value: Bytes)

  /** A node met by the walk: its depth, and where its property list starts. */
  datatype NodeAt = NodeAt(depth: nat, blob: Bytes, offset: nat, strings: Bytes)

  class Nodes {
    const cursor: Cursor
    const strings: Bytes
    var depth: nat

    constructor (blob: Bytes, strings: Bytes)
      ensures fresh(cursor) && cursor.blob == blob && cursor.offset == 0 && this.strings == strings && depth == 0
    {
      cursor := new Cursor(blob, 0);
      this.strings := strings;
      depth := 0;
    }

    /** The cursor is at these tokens. */
    ghost predicate Facing(tokens: seq<Token>)
      reads cursor
    {
      At(cursor.blob, cursor.offset, tokens)
    }

    /** The next node, if the block has one and is well formed up to it. */
    method Next(ghost tokens: seq<Token>) returns (r: Option<NodeAt>, ghost rest: seq<Token>)
      modifies this, cursor
      ensures old(Facing(tokens)) ==>
                match NextNode(tokens, old(depth))
                case None => r == None
                case Some((d, after)) =>
                  r == Some(NodeAt(d, cursor.blob, cursor.offset, strings)) && rest == after && Facing(rest) &&
                    depth == d + 1
      ensures r.Some? ==> old(cursor.offset) < cursor.offset < |cursor.blob| + U32_SIZE
    {
      hide At, EncodeToken, Payload, U32, FirstNul, AlignUp;
      rest := tokens;
      ghost var facing := Facing(tokens);
      while !cursor.Done()
        invariant old(cursor.offset) <= cursor.offset
        invariant facing ==> Facing(rest) && NextNode(rest, depth) == NextNode(tokens, old(depth))
        decreases |cursor.blob| + U32_SIZE - cursor.offset
      {
        ghost var o := cursor.offset;
        if facing {
          HereToken(cursor.blob, o, rest);
        }
        var token := cursor.ReadU32();
        if token.value == TOKEN_BEGIN_NODE {
          var name := cursor.CString();
          if name == None {
            return None, rest;
          }
          cursor.AlignU32();
          var at := depth;
          depth := depth + 1;
          rest := if facing then rest[1..] else rest;
          return Some(NodeAt(at, cursor.blob, cursor.offset, strings)), rest;
        } else if token.value == TOKEN_PROP {
          var len := cursor.ReadU32();
          if len == None {
            return None, rest;
          }
          var nameOffset := cursor.ReadU32();
          if nameOffset == None {
            return None, rest;
          }
          var value := cursor.Take(len.value);
          if value == None {
            return None, rest;
          }
          cursor.AlignU32();
          rest := if facing then rest[1..] else rest;
        } else if token.value == TOKEN_END_NODE {
          depth := if depth == 0 then 0 else depth - 1;
          rest := if facing then rest[1..] else rest;
        } else if token.value == TOKEN_NOOP || token.value == TOKEN_END {
          rest := if facing then rest[1..] else rest;
        } else {
          return None, rest;
        }
      }
      if facing {
        AtEnd(cursor.blob, cursor.offset, rest);
      }
      return None, rest;
    }
  }

  /** Everything reading one token relies on, whatever it is. */
  lemma HereToken(blob: Bytes, o: nat, tokens: seq<Token>)
    requires At(blob, o, tokens) && o + U32_SIZE <= |blob|
    ensures tokens != [] && GoodToken(tokens[0]) && U32(blob[o..o + U32_SIZE]) == Code(tokens[0])
    ensures var t := tokens[0];
            match t
            case Begin(name) =>
              && FirstNul(blob[o + U32_SIZE..]) == Some(|name|)
              && At(blob, AlignUp(o + U32_SIZE + |name| + 1), tokens[1..])
            case Prop(nameOffset, value) =>
              && o + 12 + |value| <= |blob|
              && U32(blob[o + 4..o + 8]) == |value| && U32(blob[o + 8..o + 12]) == nameOffset
              && blob[o + 12..o + 12 + |value|] == value && At(blob, AlignUp(o + 12 + |value|), tokens[1..])
            case _ => At(blob, o + U32_SIZE, tokens[1..])
  {
    hide *;
    TokenIsThere(blob, o, tokens);
    FirstToken(blob, o, tokens);
    if tokens[0].Begin? {
      BeginToken(blob, o, tokens);
    } else if tokens[0].Prop? {
      PropToken(blob, o, tokens);
    } else {
      PlainLength(tokens[0]);
    }
  }

  lemma TokenIsThere(blob: Bytes, o: nat, tokens: seq<Token>)
    requires At(blob, o, tokens) && o + U32_SIZE <= |blob|
    ensures tokens != []
  {
    hide At;
    if tokens == [] {
      NoToken(blob, o);
      assert false;
    }
  }

  lemma PlainLength(t: Token)
    requires GoodToken(t) && !t.Begin? && !t.Prop?
    ensures |EncodeToken(t)| == U32_SIZE
  {
  }

  lemma AtEnd(blob: Bytes, o: nat, tokens: seq<Token>)
    requires At(blob, o, tokens) && o + U32_SIZE > |blob|
    ensures tokens == []
  {
    hide At;
    if tokens != [] {
      FirstToken(blob, o, tokens);
      assert false;
    }
  }

  class Properties {
    const cursor: Cursor
    const strings: Bytes

    constructor (blob: Bytes, offset: nat, strings: Bytes)
      ensures fresh(cursor) && cursor.blob == blob && cursor.offset == offset && this.strings == strings
    {
      cursor := new Cursor(blob, offset);
      this.strings := strings;
    }

    ghost predicate Facing(tokens: seq<Token>)
      reads cursor
    {
      At(cursor.blob, cursor.offset, tokens)
    }

    /** The next property, or nothing at anything that is not one. */
    method Next(ghost tokens: seq<Token>) returns (r: Option<Property>)
      modifies cursor
      ensures old(Facing(tokens)) ==>
                if tokens != [] && tokens[0].Prop? && StringAt(strings, tokens[0].nameOffset).Some?
                then r == Some(Property(StringAt(strings, tokens[0].nameOffset).value, tokens[0].value)) &&
                       Facing(tokens[1..])
                else r == None
      ensures r.Some? ==> old(cursor.offset) < cursor.offset < |cursor.blob| + U32_SIZE
    {
      hide At, EncodeToken, Payload, U32, FirstNul;
      if cursor.Done() {
        if Facing(tokens) {
          AtEnd(cursor.blob, cursor.offset, tokens);
        }
        return None;
      }
      if Facing(tokens) {
        HereToken(cursor.blob, cursor.offset, tokens);
      }
      var token := cursor.ReadU32();
      if token.value != TOKEN_PROP {
        return None;
      }
      var len := cursor.ReadU32();
      if len == None {
        return None;
      }
      var nameOffset := cursor.ReadU32();
      if nameOffset == None {
        return None;
      }
      var name := StringAt(strings, nameOffset.value);
      if name == None {
        return None;
      }
      var value := cursor.Take(len.value);
      if value == None {
        return None;
      }
      cursor.AlignU32();
      return Some(Property(name.value, value.value));
    }
  }

  /** `Node::property`: the first property of that name. */
  method FindProperty(node: NodeAt, name: Bytes, ghost tokens: seq<Token>) returns (r: Option<Bytes>)
    ensures At(node.blob, node.offset, tokens) ==> r == Lookup(tokens, node.strings, name)
  {
    hide At;
    var properties := new Properties(node.blob, node.offset, node.strings);
    ghost var left := tokens;
    ghost var facing := properties.Facing(tokens);
    var property := properties.Next(left);
    while property.Some? && property.value.name != name
      invariant properties.cursor.blob == node.blob && fresh(properties.cursor)
      invariant facing ==>
                  if property.Some? then
                    && left != [] && left[0].Prop?
                    && StringAt(node.strings, left[0].nameOffset) == Some(property.value.name)
                    && property.value.value == left[0].value && properties.Facing(left[1..])
                    && Lookup(left, node.strings, name) == Lookup(tokens, node.strings, name)
                  else Lookup(tokens, node.strings, name) == None
      invariant property.Some? ==> properties.cursor.offset < |node.blob| + U32_SIZE
      decreases if property.Some? then |node.blob| + U32_SIZE - properties.cursor.offset else 0
    {
      left := if facing then left[1..] else left;
      property := properties.Next(left);
    }
    return match property
      case None => None
      case Some(p) => Some(p.value);
  }

  // ----- Asking a node

  /** The pieces between NULs, with whatever follows the last one. */
  function Entries(value: Bytes): seq<Bytes>
    decreases |value|
  {
    FirstNulFacts(value);
    match FirstNul(value)
    case None => [value]
    case Some(n) => [value[..n]] + Entries(value[n + 1..])
  }

  /** `is_compatible`, on the property's value. */
  predicate IsCompatible(value: Bytes, compatible: Bytes) {
    compatible in Entries(value)
  }

  function Terminated(names: seq<Bytes>): Bytes {
    if names == [] then [] else names[0] + [0] + Terminated(names[1..])
  }

  /** On a list of NUL-terminated strings that is membership, but the empty name is always found. */
  lemma {:induction false} CompatibleIsMember(names: seq<Bytes>, compatible: Bytes)
    requires forall i | 0 <= i < |names| :: 0 !in names[i]
    ensures IsCompatible(Terminated(names), compatible) <==> compatible in names || compatible == []
  {
    var value := Terminated(names);
    if names != [] {
      var rest := Terminated(names[1..]);
      FirstNulOf(names[0], rest);
      assert value == names[0] + [0] + rest;
      assert value[|names[0]| + 1..] == rest && value[..|names[0]|] == names[0];
      CompatibleIsMember(names[1..], compatible);
      assert names == [names[0]] + names[1..];
    }
  }

  /** A child of the root, of a kind asked for. */
  predicate Wanted(v: Visit, strings: Bytes, compatible: Bytes) {
    && v.depth == ROOT_CHILD_DEPTH
    && var value := LookupItems(v.items, strings, COMPATIBLE);
       value.Some? && IsCompatible(value.value, compatible)
  }

  /** The first node wanted. */
  predicate IsFirst(visits: seq<Visit>, strings: Bytes, compatible: Bytes, n: nat) {
    n < |visits| && Wanted(visits[n], strings, compatible) && forall i | 0 <= i < n ::
      !Wanted(visits[i], strings, compatible)
  }

  /** A handle on the node visited: its depth, and lookups answered from its own list. */
  ghost predicate Shows(node: NodeAt, v: Visit, tokens: seq<Token>) {
    && node.depth == v.depth && At(node.blob, node.offset, tokens)
    && forall name: Bytes :: Lookup(tokens, node.strings, name) == LookupItems(v.items, node.strings, name)
  }

  /** A handle on the first node wanted. */
  ghost predicate ShowsFirst(node: NodeAt, visits: seq<Visit>, compatible: Bytes) {
    exists n: nat, after: seq<Token> :: IsFirst(visits, node.strings, compatible, n) && Shows(node, visits[n], after)
  }

  /**
   The first child of the root that names itself compatible with something. On the block of any tree it
   is the first such node in preorder, as far as its properties before a no-op tell.
  */
  method FindCompatible(blob: Bytes, strings: Bytes, compatible: Bytes, ghost tree: Tree) returns (r: Option<NodeAt>)
    ensures At(blob, 0, Block(tree)) ==>
              var nodes := Preorder(tree, 0);
              match r
              case None => forall i | 0 <= i < |nodes| :: !Wanted(nodes[i], strings, compatible)
              case Some(node) => node.strings == strings && ShowsFirst(node, nodes, compatible)
  {
    hide At, Agree, Lookup, LookupItems, NextNode, Preorder, IsCompatible, Block, AllNodes, AllAgree, Shows, Wanted,
      ShowsFirst;
    var walk := new Nodes(blob, strings);
    ghost var visits, left, facing := Preorder(tree, 0), Block(tree), At(blob, 0, Block(tree));
    WalkInverts(tree);
    ghost var found := 0;
    assert visits[0..] == visits;
    while true
      invariant walk.cursor.blob == blob && walk.strings == strings && fresh(walk) && fresh(walk.cursor)
      invariant facing ==>
                  found <= |visits| && walk.Facing(left) && AllAgree(AllNodes(left, walk.depth), visits[found..])
      invariant facing ==> forall i | 0 <= i < found :: !Wanted(visits[i], strings, compatible)
      decreases |blob| + U32_SIZE - walk.cursor.offset
    {
      ghost var depth := walk.depth;
      var node, rest := walk.Next(left);
      if facing {
        NextVisit(left, depth, visits, found);
      }
      if node == None {
        return None;
      }
      var value := FindProperty(node.value, COMPATIBLE, rest);
      if facing {
        VisitShown(node.value, rest, left, depth, visits, found);
      }
      if node.value.depth == ROOT_CHILD_DEPTH && value.Some? && IsCompatible(value.value, compatible) {
        if facing {
          WantedShown(node.value, visits, found, compatible, rest);
        }
        return node;
      }
      if facing {
        NotWanted(visits[found], strings, compatible, node.value.depth, value);
      }
      left := rest;
      found := found + 1;
    }
    return None;
  }

  lemma WantedShown(node: NodeAt, visits: seq<Visit>, n: nat, compatible: Bytes, after: seq<Token>)
    requires n < |visits| && Shows(node, visits[n], after) && node.depth == visits[n].depth == ROOT_CHILD_DEPTH
    requires LookupItems(visits[n].items, node.strings, COMPATIBLE).Some?
    requires IsCompatible(LookupItems(visits[n].items, node.strings, COMPATIBLE).value, compatible)
    requires forall i | 0 <= i < n :: !Wanted(visits[i], node.strings, compatible)
    ensures ShowsFirst(node, visits, compatible)
  {
    hide IsCompatible, LookupItems, Shows;
    assert IsFirst(visits, node.strings, compatible, n);
  }

  lemma NotWanted(v: Visit, strings: Bytes, compatible: Bytes, depth: nat, value: Option<Bytes>)
    requires depth == v.depth && value == LookupItems(v.items, strings, COMPATIBLE)
    requires !(depth == ROOT_CHILD_DEPTH && value.Some? && IsCompatible(value.value, compatible))
    ensures !Wanted(v, strings, compatible)
  {
    hide IsCompatible, LookupItems;
  }

  /** The walk and the visits move on together. */
  lemma NextVisit(tokens: seq<Token>, depth: nat, visits: seq<Visit>, n: nat)
    requires n <= |visits| && AllAgree(AllNodes(tokens, depth), visits[n..])
    ensures match NextNode(tokens, depth)
            case None => n == |visits|
            case Some((d, after)) =>
              && n < |visits| && Agree((d, after), visits[n])
              && AllAgree(AllNodes(after, d + 1), visits[n + 1..])
  {
    hide Agree, NextNode;
    var marks := AllNodes(tokens, depth);
    match NextNode(tokens, depth) {
      case None =>
      case Some((d, after)) =>
        assert marks[0] == (d, after) && marks[1..] == AllNodes(after, d + 1);
        assert visits[n..][0] == visits[n];
        var rest := AllNodes(after, d + 1);
        forall i | 0 <= i < |rest|
          ensures Agree(rest[i], visits[n + 1..][i])
        {
          assert Agree(marks[i + 1], visits[n..][i + 1]);
        }
    }
  }

  lemma VisitShown(node: NodeAt, after: seq<Token>, tokens: seq<Token>, depth: nat, visits: seq<Visit>, n: nat)
    requires n < |visits| && NextNode(tokens, depth) == Some((node.depth, after))
    requires Agree((node.depth, after), visits[n])
    requires At(node.blob, node.offset, after)
    ensures Shows(node, visits[n], after) && node.depth == visits[n].depth
    ensures Lookup(after, node.strings, COMPATIBLE) == LookupItems(visits[n].items, node.strings, COMPATIBLE)
  {
    hide Lookup, LookupItems, At, NextNode;
  }

  // ----- `reg`

  /** A number read from big-endian cells; two are the widest a `u64` holds. */
  function CellsAt(bytes: Bytes, cells: nat): Option<nat> {
    if cells > 2 then None
    else if |bytes| < cells * U32_SIZE then None
    else if cells == 0 then Some(0)
    else if cells == 1 then Some(U32(bytes[..4]))
    else Some(U32(bytes[..4]) * U32_LIMIT + U32(bytes[4..8]))
  }

  method ReadCells(bytes: Bytes, cells: nat) returns (r: Option<nat>)
    ensures r == CellsAt(bytes, cells)
  {
    if cells > 2 {
      return None;
    }
    var cursor := new Cursor(bytes, 0);
    var value: nat := 0;
    var i := 0;
    while i < cells
      invariant i <= cells && cursor.blob == bytes && fresh(cursor) && cursor.offset == i * U32_SIZE <= |bytes|
      invariant CellsAt(bytes, i) == Some(value)
      invariant value < (if i == 0 then 1 else if i == 1 then U32_LIMIT else WORD_LIMIT)
    {
      var cell := cursor.ReadU32();
      if cell == None {
        return None;
      }
      value := value * U32_LIMIT % WORD_LIMIT + cell.value;
      i := i + 1;
    }
    return Some(value);
  }

  /** Where the `index`th entry of a `reg` value starts. */
  function EntryStart(index: nat, address: nat, size: nat): nat {
    index * (address + size) * 4
  }

  /** The `index`th entry of a `reg` value, for the parent's cell counts. */
  function EntryAt(reg: Bytes, index: nat, address: nat, size: nat): Option<Region> {
    var at := EntryStart(index, address, size);
    if at > |reg| then None
    else
      var entry := reg[at..];
      var base := CellsAt(entry, address);
      if base == None || address * 4 > |entry| then None
      else
        var len := CellsAt(entry[address * 4..], size);
        if len == None then None else Some(Region(base.value, len.value))
  }

  /** `Node::region`. */
  method RegionOf(node: NodeAt, index: nat, address: nat, size: nat,
                  ghost tokens: seq<Token>) returns (r: Option<Region>)
    ensures At(node.blob, node.offset, tokens) ==>
              r == match Lookup(tokens, node.strings, REG)
                   case None => None
                   case Some(reg) => EntryAt(reg, index, address, size)
  {
    hide At, Lookup;
    var reg := FindProperty(node, REG, tokens);
    if reg == None {
      return None;
    }
    var at := index * (address + size) * 4;
    if at > |reg.value| {
      return None;
    }
    var entry := reg.value[at..];
    var base := ReadCells(entry, address);
    if base == None {
      return None;
    }
    if address * 4 > |entry| {
      return None;
    }
    var len := ReadCells(entry[address * 4..], size);
    if len == None {
      return None;
    }
    return Some(Region(base.value, len.value));
  }

  /** `Node::cells`: what the node declares, or the defaults the specification gives. */
  method CellsOf(node: NodeAt, ghost tokens: seq<Token>) returns (address: nat, size: nat)
    ensures At(node.blob, node.offset, tokens) ==>
              && address == CellCount(Lookup(tokens, node.strings, ADDRESS_CELLS), DEFAULT_ADDRESS_CELLS)
              && size == CellCount(Lookup(tokens, node.strings, SIZE_CELLS), DEFAULT_SIZE_CELLS)
    ensures At(node.blob, node.offset, tokens) ==>
              && (Lookup(tokens, node.strings, ADDRESS_CELLS) == None ==> address == 2)
              && (Lookup(tokens, node.strings, SIZE_CELLS) == None ==> size == 1)
              && (forall n: nat | n < U32_LIMIT && Lookup(tokens, node.strings, ADDRESS_CELLS) == Some(BigEndian(n)) ::
                    address == n)
              && (forall n: nat | n < U32_LIMIT && Lookup(tokens, node.strings, SIZE_CELLS) == Some(BigEndian(n)) ::
                    size == n)
  {
    var a := FindProperty(node, ADDRESS_CELLS, tokens);
    var s := FindProperty(node, SIZE_CELLS, tokens);
    address, size := CellCount(a, DEFAULT_ADDRESS_CELLS), CellCount(s, DEFAULT_SIZE_CELLS);
    forall n: nat | n < U32_LIMIT
      ensures CellCount(Some(BigEndian(n)), DEFAULT_ADDRESS_CELLS) == n
      ensures CellCount(Some(BigEndian(n)), DEFAULT_SIZE_CELLS) == n
    {
      assert BigEndian(n) + [] == BigEndian(n);
      DeclaredCount(n, [], DEFAULT_ADDRESS_CELLS);
      DeclaredCount(n, [], DEFAULT_SIZE_CELLS);
    }
  }

  /** A property's first cell; the default when it is missing or too short. */
  function CellCount(value: Option<Bytes>, default: nat): nat {
    if value.Some? && |value.value| >= U32_SIZE then U32(value.value[..U32_SIZE]) else default
  }

  /** A declared count is the first cell of the value; without a whole cell it is the default. */
  lemma DeclaredCount(n: nat, more: Bytes, default: nat)
    requires n < U32_LIMIT
    ensures CellCount(Some(BigEndian(n) + more), default) == n
    ensures CellCount(None, default) == default
    ensures forall short: Bytes | |short| < 4 :: CellCount(Some(short), default) == default
  {
    U32RoundTrip(n);
    hide BigEndian, U32;
    assert (BigEndian(n) + more)[..U32_SIZE] == BigEndian(n);
  }

  /** A node whose list declares both, in lines that come before any other of those names and any no-op. */
  lemma CellsComeBack(items: seq<Item>, strings: Bytes, i: nat, j: nat, a: nat, s: nat)
    requires a < U32_LIMIT && s < U32_LIMIT
    requires FirstOf(items, strings, ADDRESS_CELLS, i) && FirstOf(items, strings, SIZE_CELLS, j)
    requires items[i].value == BigEndian(a) && items[j].value == BigEndian(s)
    ensures CellCount(LookupItems(items, strings, ADDRESS_CELLS), DEFAULT_ADDRESS_CELLS) == a
    ensures CellCount(LookupItems(items, strings, SIZE_CELLS), DEFAULT_SIZE_CELLS) == s
  {
    hide CellCount, BigEndian, StringAt, FirstOf, LookupItems;
    LookupFinds(items, strings, ADDRESS_CELLS, i);
    LookupFinds(items, strings, SIZE_CELLS, j);
    assert BigEndian(a) + [] == BigEndian(a) && BigEndian(s) + [] == BigEndian(s);
    DeclaredCount(a, [], DEFAULT_ADDRESS_CELLS);
    DeclaredCount(s, [], DEFAULT_SIZE_CELLS);
  }

  predicate Spells(b: Bytes, name: string) {
    |b| == |name| && forall i | 0 <= i < |b| :: b[i] == name[i] as int
  }

  /** The names looked up. */
  lemma PropertyNames()
    ensures Spells(REG, "reg") && Spells(COMPATIBLE, "compatible")
    ensures Spells(ADDRESS_CELLS, "#address-cells") && Spells(SIZE_CELLS, "#size-cells")
  {
  }

  // ----- Encoding `reg`

  predicate FitsCells(n: nat, cells: nat) {
    match cells
    case 0 => n == 0
    case 1 => n < U32_LIMIT
    case 2 => n < WORD_LIMIT
    case _ => false
  }

  function EncodeCells(n: nat, cells: nat): (b: Bytes)
    requires FitsCells(n, cells)
    ensures |b| == cells * U32_SIZE
  {
    match cells
    case 0 => []
    case 1 => BigEndian(n)
    case _ => BigEndian(n / U32_LIMIT) + BigEndian(n % U32_LIMIT)
  }

  lemma CellsRoundTrip(n: nat, cells: nat, rest: Bytes)
    requires FitsCells(n, cells)
    ensures CellsAt(EncodeCells(n, cells) + rest, cells) == Some(n)
  {
    var b := EncodeCells(n, cells) + rest;
    if cells == 1 {
      U32RoundTrip(n);
      assert b[..4] == BigEndian(n);
    } else if cells == 2 {
      U32RoundTrip(n / U32_LIMIT);
      U32RoundTrip(n % U32_LIMIT);
      hide BigEndian, U32;
      assert b[..4] == BigEndian(n / U32_LIMIT) && b[4..8] == BigEndian(n % U32_LIMIT);
    }
  }

  predicate FitsRegion(r: Region, address: nat, size: nat) {
    FitsCells(r.base, address) && FitsCells(r.size, size)
  }

  function EncodeReg(regions: seq<Region>, address: nat, size: nat): (b: Bytes)
    requires forall i | 0 <= i < |regions| :: FitsRegion(regions[i], address, size)
    ensures |b| == EntryStart(|regions|, address, size)
  {
    if regions == [] then []
    else
      assert FitsRegion(regions[0], address, size);
      NextStart(|regions|, address, size);
      EncodeCells(regions[0].base, address) + EncodeCells(regions[0].size, size) +
        EncodeReg(regions[1..], address, size)
  }

  lemma NextStart(n: nat, address: nat, size: nat)
    requires n > 0
    ensures EntryStart(n, address, size) == (address + size) * 4 + EntryStart(n - 1, address, size)
    ensures EntryStart(0, address, size) == 0
  {
  }

  lemma {:induction false} RegTail(regions: seq<Region>, address: nat, size: nat, i: nat)
    requires i <= |regions| && forall k | 0 <= k < |regions| :: FitsRegion(regions[k], address, size)
    ensures EntryStart(i, address, size) <= |EncodeReg(regions, address, size)|
    ensures EncodeReg(regions, address, size)[EntryStart(i, address, size)..] == EncodeReg(regions[i..], address, size)
  {
    hide EncodeReg, EntryStart, FitsCells, EncodeCells;
    var reg := EncodeReg(regions, address, size);
    if i > 0 {
      RegTail(regions[1..], address, size, i - 1);
      FirstEntry(regions, address, size);
      NextStart(i, address, size);
      var tail := EncodeReg(regions[1..], address, size);
      TailOfTail(reg, EncodeCells(regions[0].base, address), EncodeCells(regions[0].size, size), tail,
                 EntryStart(i - 1, address, size));
      assert regions[1..][i - 1..] == regions[i..];
    } else {
      NextStart(1, address, size);
      assert regions[0..] == regions && reg[0..] == reg;
    }
  }

  lemma TailOfTail(all: Bytes, a: Bytes, b: Bytes, tail: Bytes, m: nat)
    requires all == a + (b + tail) && m <= |tail|
    ensures |a| + |b| + m <= |all| && all[|a| + |b| + m..] == tail[m..]
  {
  }

  lemma FirstEntry(regions: seq<Region>, address: nat, size: nat)
    requires regions != [] && forall k | 0 <= k < |regions| :: FitsRegion(regions[k], address, size)
    ensures FitsRegion(regions[0], address, size)
    ensures EncodeReg(regions, address, size) ==
            EncodeCells(regions[0].base, address) +
              (EncodeCells(regions[0].size, size) + EncodeReg(regions[1..], address, size))
  {
    hide EncodeCells;
  }

  /**
   Entry `i` of an encoded `reg` is the `i`th pair; past the end there is none, exactly unless both cell counts
   are zero.
  */
  lemma RegRoundTrip(regions: seq<Region>, address: nat, size: nat, i: nat)
    requires forall k | 0 <= k < |regions| :: FitsRegion(regions[k], address, size)
    ensures var entry := EntryAt(EncodeReg(regions, address, size), i, address, size);
            if i < |regions| then entry == Some(regions[i]) else entry == None <==> address + size > 0
  {
    var reg := EncodeReg(regions, address, size);
    if i < |regions| {
      RegTail(regions, address, size, i);
      FirstEntry(regions[i..], address, size);
      var r := regions[i];
      var rest := EncodeReg(regions[i..][1..], address, size);
      hide EncodeReg, EncodeCells, CellsAt, FitsCells, EntryStart;
      CellsRoundTrip(r.base, address, EncodeCells(r.size, size) + rest);
      CellsRoundTrip(r.size, size, rest);
      EntryParts(reg[EntryStart(i, address, size)..], EncodeCells(r.base, address), EncodeCells(r.size, size) + rest);
    } else if address + size > 0 {
      PastEnd(i, |regions|, address, size);
      NoCells(address, size);
    } else {
      NoCellsAnyEntry(reg, i);
    }
  }

  /** With both counts zero every index, past any end, finds an empty region at address zero. */
  lemma NoCellsAnyEntry(reg: Bytes, i: nat)
    ensures EntryAt(reg, i, 0, 0) == Some(Region(0, 0))
  {
    assert EntryStart(i, 0, 0) == 0;
  }

  /** A count above two finds nothing, whatever the value. */
  lemma WideCellsNoEntry(reg: Bytes, i: nat, address: nat, size: nat)
    requires address > 2 || size > 2
    ensures EntryAt(reg, i, address, size) == None
  {
  }

  lemma EntryParts(entry: Bytes, base: Bytes, rest: Bytes)
    requires entry == base + rest
    ensures entry[|base|..] == rest
  {
  }

  /** With nothing left, some count is not met. */
  lemma NoCells(address: nat, size: nat)
    requires address + size > 0
    ensures CellsAt([], address) == None || CellsAt([], size) == None
  {
  }

  lemma PastEnd(i: nat, n: nat, address: nat, size: nat)
    requires i >= n
    ensures EntryStart(i, address, size) >= EntryStart(n, address, size)
  {
    var step := (address + size) * 4;
    assert i * step >= n * step;
  }
}
