/**
 What a flattened device tree is: the structure block of section 5.4 of the Devicetree Specification
 v0.4, as an encoder from trees to tokens to bytes, and the answers a walk of it should give.
*/
module DeviceTree {
  import opened Wrappers
  import opened Blobs

  datatype Token = Begin(name: Bytes) | EndNode | Prop(nameOffset: nat, value: Bytes) | Nop | End

  const TOKEN_BEGIN_NODE: nat := 1
  const TOKEN_END_NODE: nat := 2
  const TOKEN_PROP: nat := 3
  const TOKEN_NOOP: nat := 4
  const TOKEN_END: nat := 9

  function Code(t: Token): nat {
    match t
    case Begin(_) => TOKEN_BEGIN_NODE
    case EndNode => TOKEN_END_NODE
    case Prop(_, _) => TOKEN_PROP
    case Nop => TOKEN_NOOP
    case End => TOKEN_END
  }

  // ----- Tokens to bytes

  /** Names have no NUL in them, and lengths and offsets fit their cells. */
  predicate GoodToken(t: Token) {
    match t
    case Begin(name) => 0 !in name
    case Prop(nameOffset, value) => nameOffset < U32_LIMIT && |value| < U32_LIMIT
    case _ => true
  }

  predicate GoodTokens(tokens: seq<Token>) {
    forall i | 0 <= i < |tokens| :: GoodToken(tokens[i])
  }

  /** Zeroes up to the next multiple of four. */
  function Padded(b: Bytes): (r: Bytes)
    ensures |r| == AlignUp(|b|)
  {
    b + seq(AlignUp(|b|) - |b|, _ => 0)
  }

  function Payload(t: Token): (b: Bytes)
    requires GoodToken(t)
    ensures |b| % 4 == 0
  {
    match t
    case Begin(name) => Padded(name + [0])
    case Prop(nameOffset, value) => BigEndian(|value|) + BigEndian(nameOffset) + Padded(value)
    case _ => []
  }

  function EncodeToken(t: Token): (b: Bytes)
    requires GoodToken(t)
    ensures |b| % 4 == 0 && |b| >= U32_SIZE
  {
    MultiplesAdd(U32_SIZE, |Payload(t)|);
    BigEndian(Code(t)) + Payload(t)
  }

  function Encode(tokens: seq<Token>): (b: Bytes)
    requires GoodTokens(tokens)
    ensures |b| % 4 == 0
  {
    if tokens == [] then []
    else
      MultiplesAdd(|EncodeToken(tokens[0])|, |Encode(tokens[1..])|);
      EncodeToken(tokens[0]) + Encode(tokens[1..])
  }

  /** From `offset` on the blob holds exactly these tokens. */
  ghost predicate At(blob: Bytes, offset: nat, tokens: seq<Token>) {
    GoodTokens(tokens) && offset % 4 == 0 && offset <= |blob| && blob[offset..] == Encode(tokens)
  }

  // ----- Bytes back to tokens

  lemma Split(blob: Bytes, o: nat, a: Bytes, b: Bytes)
    requires o <= |blob| && blob[o..] == a + b
    ensures o + |a| <= |blob| && blob[o..o + |a|] == a && blob[o + |a|..] == b
  {
    assert blob[o..o + |a|] == blob[o..][..|a|];
    assert blob[o + |a|..] == blob[o..][|a|..];
  }

  /** What reading the first token finds. */
  lemma FirstToken(blob: Bytes, o: nat, tokens: seq<Token>)
    requires At(blob, o, tokens) && tokens != []
    ensures GoodToken(tokens[0]) && At(blob, o + |EncodeToken(tokens[0])|, tokens[1..])
    ensures o + U32_SIZE <= |blob| && U32(blob[o..o + U32_SIZE]) == Code(tokens[0])
    ensures blob[o + U32_SIZE..] == Payload(tokens[0]) + Encode(tokens[1..])
  {
    hide Payload, Encode, BigEndian, U32, EncodeToken, GoodToken, GoodTokens;
    var t := tokens[0];
    RestGood(tokens);
    var rest := Encode(tokens[1..]);
    EncodeFirst(tokens);
    U32RoundTrip(Code(t));
    TokenParts(t, rest);
    MultiplesAdd(o, |EncodeToken(t)|);
    hide Code;
    Split(blob, o, EncodeToken(t), rest);
    Split(blob, o, BigEndian(Code(t)), Payload(t) + rest);
  }

  lemma RestGood(tokens: seq<Token>)
    requires GoodTokens(tokens) && tokens != []
    ensures GoodToken(tokens[0]) && GoodTokens(tokens[1..])
  {
    hide GoodToken;
  }

  /** The bytes of each token, for a name of three letters and a value of four bytes. */
  lemma TokenBytes(a: Byte, b: Byte, c: Byte, nameOffset: Byte, value: Bytes)
    requires a > 0 && b > 0 && c > 0 && |value| == 4
    ensures EncodeToken(Begin([a, b, c])) == [0, 0, 0, 1, a, b, c, 0]
    ensures EncodeToken(EndNode) == [0, 0, 0, 2] && EncodeToken(Nop) == [0, 0, 0, 4]
    ensures EncodeToken(Prop(nameOffset, value)) == [0, 0, 0, 3, 0, 0, 0, 4, 0, 0, 0, nameOffset] + value
    ensures EncodeToken(End) == [0, 0, 0, 9]
  {
    SmallCells();
    hide BigEndian;
    assert Padded(value) == value;
    assert Padded([a, b, c] + [0]) == [a, b, c, 0];
  }

  lemma SmallCells()
    ensures forall n: nat | n < 256 :: BigEndian(n) == [0, 0, 0, n]
  {
  }

  lemma MultiplesAdd(a: nat, b: nat)
    requires a % 4 == 0 && b % 4 == 0
    ensures (a + b) % 4 == 0
  {
  }

  lemma TokenParts(t: Token, rest: Bytes)
    requires GoodToken(t)
    ensures EncodeToken(t) + rest == BigEndian(Code(t)) + (Payload(t) + rest)
  {
    hide Payload, BigEndian;
  }

  lemma EncodeFirst(tokens: seq<Token>)
    requires GoodTokens(tokens) && tokens != []
    ensures Encode(tokens) == EncodeToken(tokens[0]) + Encode(tokens[1..])
  {
  }

  /** No tokens are left: fewer than four bytes are. */
  lemma NoToken(blob: Bytes, o: nat)
    requires At(blob, o, [])
    ensures o == |blob|
  {
    assert |blob[o..]| == 0;
  }

  /** What reading a node's name finds. */
  lemma BeginToken(blob: Bytes, o: nat, tokens: seq<Token>)
    requires At(blob, o, tokens) && tokens != [] && tokens[0].Begin?
    ensures o + U32_SIZE <= |blob| && FirstNul(blob[o + U32_SIZE..]) == Some(|tokens[0].name|)
    ensures GoodToken(tokens[0]) && AlignUp(o + U32_SIZE + |tokens[0].name| + 1) == o + |EncodeToken(tokens[0])|
  {
    FirstToken(blob, o, tokens);
    var name := tokens[0].name;
    NameIsPlain(tokens[0]);
    RestGood(tokens);
    FourMore(o);
    hide Padded, Encode, At, AlignUp, Payload, EncodeToken, FirstNul, BigEndian, U32, GoodToken, GoodTokens;
    BeginParts(tokens[0], Encode(tokens[1..]));
    AlignStep(o + U32_SIZE, |name| + 1);
    FirstNulOf(name, Padded(name + [0])[|name| + 1..] + Encode(tokens[1..]));
  }

  lemma NameIsPlain(t: Token)
    requires GoodToken(t) && t.Begin?
    ensures 0 !in t.name
  {
  }

  lemma FourMore(o: nat)
    ensures o % 4 == 0 <==> (o + 4) % 4 == 0
  {
  }

  lemma BeginParts(t: Token, rest: Bytes)
    requires GoodToken(t) && t.Begin?
    ensures |EncodeToken(t)| == U32_SIZE + AlignUp(|t.name| + 1)
    ensures Payload(t) + rest == t.name + [0] + (Padded(t.name + [0])[|t.name| + 1..] + rest)
  {
    var padded := Padded(t.name + [0]);
    hide AlignUp;
    assert padded == t.name + [0] + padded[|t.name| + 1..];
  }

  lemma AlignStep(o: nat, n: nat)
    requires o % 4 == 0
    ensures AlignUp(o + n) == o + AlignUp(n)
  {
  }

  /** What reading a property finds. */
  lemma PropToken(blob: Bytes, o: nat, tokens: seq<Token>)
    requires At(blob, o, tokens) && tokens != [] && tokens[0].Prop?
    ensures var n := |tokens[0].value|;
            && o + 12 + n <= |blob|
            && U32(blob[o + 4..o + 8]) == n && U32(blob[o + 8..o + 12]) == tokens[0].nameOffset
            && blob[o + 12..o + 12 + n] == tokens[0].value
            && GoodToken(tokens[0]) && AlignUp(o + 12 + n) == o + |EncodeToken(tokens[0])|
  {
    hide Payload, Encode, EncodeToken, U32, AlignUp, GoodToken, GoodTokens, At, Code;
    FirstToken(blob, o, tokens);
    PropEnd(blob, o, tokens);
    PropBody(blob, o + 4, tokens[0], Encode(tokens[1..]));
  }

  /** Where the token after a property starts. */
  lemma PropEnd(blob: Bytes, o: nat, tokens: seq<Token>)
    requires At(blob, o, tokens) && tokens != [] && tokens[0].Prop?
    ensures GoodToken(tokens[0]) && GoodTokens(tokens[1..])
    ensures AlignUp(o + 12 + |tokens[0].value|) == o + |EncodeToken(tokens[0])|
  {
    RestGood(tokens);
    assert o % 4 == 0;
    hide *;
    PropLength(tokens[0]);
    Twelve(o);
    AlignStep(o + 12, |tokens[0].value|);
  }

  lemma Twelve(o: nat)
    requires o % 4 == 0
    ensures (o + 12) % 4 == 0
  {
  }

  /** A property after its token: its length, the offset of its name, and its value. */
  lemma PropBody(blob: Bytes, o: nat, t: Token, rest: Bytes)
    requires GoodToken(t) && t.Prop? && o <= |blob| && blob[o..] == Payload(t) + rest
    ensures o + 8 + |t.value| <= |blob|
    ensures U32(blob[o..o + 4]) == |t.value| && U32(blob[o + 4..o + 8]) == t.nameOffset
    ensures blob[o + 8..o + 8 + |t.value|] == t.value
  {
    FitsCell(t);
    hide Payload, BigEndian, U32, Padded, GoodToken;
    U32RoundTrip(|t.value|);
    U32RoundTrip(t.nameOffset);
    PropParts(t, rest);
    ThreeParts(blob, o, BigEndian(|t.value|), BigEndian(t.nameOffset), t.value, Padded(t.value)[|t.value|..] + rest);
  }

  lemma FitsCell(t: Token)
    requires GoodToken(t) && t.Prop?
    ensures t.nameOffset < U32_LIMIT && |t.value| < U32_LIMIT
  {
  }

  lemma ThreeParts(blob: Bytes, o: nat, a: Bytes, b: Bytes, c: Bytes, d: Bytes)
    requires |a| == |b| == 4 && o <= |blob| && blob[o..] == a + (b + (c + d))
    ensures o + 8 + |c| <= |blob|
    ensures blob[o..o + 4] == a && blob[o + 4..o + 8] == b && blob[o + 8..o + 8 + |c|] == c
  {
    Split(blob, o, a, b + (c + d));
    Split(blob, o + 4, b, c + d);
    Split(blob, o + 8, c, d);
  }

  lemma PropParts(t: Token, rest: Bytes)
    requires GoodToken(t) && t.Prop?
    ensures var zeros := Padded(t.value)[|t.value|..];
            Payload(t) + rest == BigEndian(|t.value|) + (BigEndian(t.nameOffset) + (t.value + (zeros + rest)))
  {
    hide BigEndian;
    assert Padded(t.value) == t.value + Padded(t.value)[|t.value|..];
  }

  lemma PropLength(t: Token)
    requires GoodToken(t) && t.Prop?
    ensures |EncodeToken(t)| == 12 + AlignUp(|t.value|)
  {
  }

  // ----- What a walk over tokens should find

  /** The next node's depth, and what follows its name. */
  function NextNode(tokens: seq<Token>, depth: nat): Option<(nat, seq<Token>)> {
    if tokens == [] then None
    else
      match tokens[0]
      case Begin(_) => Some((depth, tokens[1..]))
      case EndNode => NextNode(tokens[1..], if depth == 0 then 0 else depth - 1)
      case _ => NextNode(tokens[1..], depth)
  }

  lemma {:induction false} NextIsShorter(tokens: seq<Token>, depth: nat)
    ensures NextNode(tokens, depth).Some? ==> |NextNode(tokens, depth).value.1| < |tokens|
  {
    if tokens != [] && !tokens[0].Begin? {
      NextIsShorter(tokens[1..], if tokens[0].EndNode? then (if depth == 0 then 0 else depth - 1) else depth);
    }
  }

  function AllNodes(tokens: seq<Token>, depth: nat): seq<(nat, seq<Token>)>
    decreases |tokens|
  {
    NextIsShorter(tokens, depth);
    match NextNode(tokens, depth)
    case None => []
    case Some((d, after)) => [(d, after)] + AllNodes(after, d + 1)
  }

  /** The string at an offset of the strings block. */
  function StringAt(strings: Bytes, offset: nat): Option<Bytes> {
    if offset > |strings| then None
    else
      FirstNulFacts(strings[offset..]);
      match FirstNul(strings[offset..])
      case None => None
      case Some(n) => Some(strings[offset..offset + n])
  }

  /** The value of the first property of that name, among the properties that follow without a break. */
  function Lookup(tokens: seq<Token>, strings: Bytes, name: Bytes): Option<Bytes> {
    if tokens == [] || !tokens[0].Prop? then None
    else
      match StringAt(strings, tokens[0].nameOffset)
      case None => None
      case Some(n) => if n == name then Some(tokens[0].value) else Lookup(tokens[1..], strings, name)
  }

  // ----- Trees to tokens

  /** A line of a node's property list: a property, or a no-op left where one was cut out. */
  datatype Item = Line(nameOffset: nat, value: Bytes) | Gap

  /** A node's children, with no-ops allowed between them. */
  datatype Kids = Childless | Child(tree: Tree, rest: Kids) | Hole(rest: Kids)

  datatype Tree = Tree(name: Bytes, items: seq<Item>, kids: Kids)

  function ItemTokens(items: seq<Item>): seq<Token> {
    if items == [] then []
    else (match items[0]
          case Line(nameOffset, value) => [Prop(nameOffset, value)]
          case Gap => [Nop]) + ItemTokens(items[1..])
  }

  function Tokens(t: Tree): seq<Token> {
    [Begin(t.name)] + ItemTokens(t.items) + KidTokens(t.kids) + [EndNode]
  }

  function KidTokens(kids: Kids): seq<Token> {
    match kids
    case Childless => []
    case Child(k, rest) => Tokens(k) + KidTokens(rest)
    case Hole(rest) => [Nop] + KidTokens(rest)
  }

  /** A whole structure block: one tree, and the end mark. */
  function Block(t: Tree): seq<Token> {
    Tokens(t) + [End]
  }

  /** A node met on the way, with its depth and its own property list. */
  datatype Visit = Visit(depth: nat, items: seq<Item>)

  /** The nodes of a tree, each before its children. */
  function Preorder(t: Tree, depth: nat): seq<Visit> {
    [Visit(depth, t.items)] + KidsPreorder(t.kids, depth + 1)
  }

  function KidsPreorder(kids: Kids, depth: nat): seq<Visit> {
    match kids
    case Childless => []
    case Child(k, rest) => Preorder(k, depth) + KidsPreorder(rest, depth)
    case Hole(rest) => KidsPreorder(rest, depth)
  }

  /** The first property of that name, up to the first no-op. */
  function LookupItems(items: seq<Item>, strings: Bytes, name: Bytes): Option<Bytes> {
    if items == [] || items[0].Gap? then None
    else
      match StringAt(strings, items[0].nameOffset)
      case None => None
      case Some(n) => if n == name then Some(items[0].value) else LookupItems(items[1..], strings, name)
  }

  /** Line `i` is the first of that name, and nothing but other lines come before it. */
  predicate FirstOf(items: seq<Item>, strings: Bytes, name: Bytes, i: nat) {
    && i < |items| && items[i].Line? && StringAt(strings, items[i].nameOffset) == Some(name)
    && forall k | 0 <= k < i :: items[k].Line? && OtherName(StringAt(strings, items[k].nameOffset), name)
  }

  predicate OtherName(found: Option<Bytes>, name: Bytes) {
    found.Some? && found.value != name
  }

  lemma {:induction false} LookupFinds(items: seq<Item>, strings: Bytes, name: Bytes, i: nat)
    requires FirstOf(items, strings, name, i)
    ensures items[i].Line? && LookupItems(items, strings, name) == Some(items[i].value)
    decreases i
  {
    hide StringAt;
    if i > 0 {
      assert OtherName(StringAt(strings, items[0].nameOffset), name);
      assert forall k | 0 <= k < i - 1 :: items[1..][k] == items[k + 1];
      LookupFinds(items[1..], strings, name, i - 1);
    }
  }

  /** The first property of that name, wherever the no-ops are: what the specification has readers find. */
  function FirstNamed(items: seq<Item>, strings: Bytes, name: Bytes): Option<Bytes> {
    if items == [] then None
    else if items[0].Line? && StringAt(strings, items[0].nameOffset) == Some(name) then Some(items[0].value)
    else FirstNamed(items[1..], strings, name)
  }

  predicate Named(items: seq<Item>, strings: Bytes) {
    forall i | 0 <= i < |items| && items[i].Line? :: StringAt(strings, items[i].nameOffset).Some?
  }

  /** The part of a property list before its first no-op. */
  function BeforeGap(items: seq<Item>): (r: seq<Item>)
    ensures |r| <= |items| && r == items[..|r|] && (forall i | 0 <= i < |r| :: r[i].Line?)
    ensures |r| < |items| ==> items[|r|].Gap?
  {
    if items == [] || items[0].Gap? then [] else [items[0]] + BeforeGap(items[1..])
  }

  /** A lookup sees the list up to its first no-op. */
  lemma {:induction false} LookupSeesPrefix(items: seq<Item>, strings: Bytes, name: Bytes)
    requires Named(items, strings)
    ensures LookupItems(items, strings, name) == FirstNamed(BeforeGap(items), strings, name)
  {
    if items != [] && items[0].Line? {
      LookupSeesPrefix(items[1..], strings, name);
      var b := BeforeGap(items);
      assert b[1..] == BeforeGap(items[1..]);
    }
  }

  /** So it is right exactly when no property of that name is first met behind a no-op. */
  lemma {:induction false} LookupExact(items: seq<Item>, strings: Bytes, name: Bytes)
    requires Named(items, strings)
    ensures LookupItems(items, strings, name) == FirstNamed(items, strings, name) <==>
              FirstNamed(BeforeGap(items), strings, name).Some? || FirstNamed(items, strings, name).None?
  {
    LookupSeesPrefix(items, strings, name);
    var n := |BeforeGap(items)|;
    if FirstNamed(items[..n], strings, name).Some? {
      PrefixFirst(items, n, strings, name);
    }
  }

  lemma {:induction false} PrefixFirst(items: seq<Item>, n: nat, strings: Bytes, name: Bytes)
    requires n <= |items| && FirstNamed(items[..n], strings, name).Some?
    ensures FirstNamed(items, strings, name) == FirstNamed(items[..n], strings, name)
  {
    assert items[..n][0] == items[0];
    if !(items[0].Line? && StringAt(strings, items[0].nameOffset) == Some(name)) {
      assert items[..n][1..] == items[1..][..n - 1];
      PrefixFirst(items[1..], n - 1, strings, name);
    }
  }

  /** A property behind a no-op is not found, though the specification has readers skip no-ops. */
  lemma GapHidesProperty()
    ensures var (items, strings) := ([Gap, Line(0, [7])], [65, 0]);
            && Named(items, strings)
            && LookupItems(items, strings, [65]) == None && FirstNamed(items, strings, [65]) == Some([7])
  {
    var items: seq<Item>, strings: Bytes := [Gap, Line(0, [7])], [65, 0];
    assert strings[0..] == [65] + [0] + [];
    FirstNulOf([65], []);
    assert strings[0..1] == [65];
    assert StringAt(strings, 0) == Some([65]);
    assert items[1..] == [Line(0, [7])];
  }

  // ----- The walk of an encoded tree

  /** What a walk of `tokens + more` meets while inside `tokens`, when `tokens` are a tree's. */
  function Marks(t: Tree, more: seq<Token>, depth: nat): seq<(nat, seq<Token>)> {
    [(depth, ItemTokens(t.items) + (KidTokens(t.kids) + ([EndNode] + more)))] +
      KidMarks(t.kids, [EndNode] + more, depth + 1)
  }

  function KidMarks(kids: Kids, more: seq<Token>, depth: nat): seq<(nat, seq<Token>)> {
    match kids
    case Childless => []
    case Child(k, rest) => Marks(k, KidTokens(rest) + more, depth) + KidMarks(rest, more, depth)
    case Hole(rest) => KidMarks(rest, more, depth)
  }

  lemma {:induction false} SkipItems(items: seq<Item>, more: seq<Token>, depth: nat)
    ensures NextNode(ItemTokens(items) + more, depth) == NextNode(more, depth)
  {
    if items == [] {
      assert ItemTokens(items) + more == more;
    } else {
      var (all, rest) := (ItemTokens(items) + more, ItemTokens(items[1..]) + more);
      var first := match items[0] case Line(nameOffset, value) => Prop(nameOffset, value) case Gap => Nop;
      assert all == [first] + rest;
      hide ItemTokens;
      assert all[0] == first && all[1..] == rest;
      SkipItems(items[1..], more, depth);
    }
  }

  lemma SameNext(a: seq<Token>, d: nat, b: seq<Token>, e: nat)
    requires NextNode(a, d) == NextNode(b, e)
    ensures AllNodes(a, d) == AllNodes(b, e)
  {
  }

  lemma TreeBody(t: Tree, more: seq<Token>)
    ensures var body := ItemTokens(t.items) + (KidTokens(t.kids) + ([EndNode] + more));
            Tokens(t) + more == [Begin(t.name)] + body && (Tokens(t) + more)[1..] == body
  {
    hide ItemTokens, KidTokens;
  }

  lemma {:induction false} WalkTree(t: Tree, more: seq<Token>, depth: nat)
    ensures AllNodes(Tokens(t) + more, depth) == Marks(t, more, depth) + AllNodes(more, depth)
  {
    var end := [EndNode] + more;
    var body := ItemTokens(t.items) + (KidTokens(t.kids) + end);
    var all := Tokens(t) + more;
    TreeBody(t, more);
    hide ItemTokens, KidTokens, Tokens, KidMarks;
    SkipItems(t.items, KidTokens(t.kids) + end, depth + 1);
    SameNext(body, depth + 1, KidTokens(t.kids) + end, depth + 1);
    WalkKids(t.kids, end, depth + 1);
    assert end[1..] == more;
    SameNext(end, depth + 1, more, depth);
  }

  lemma {:induction false} WalkKids(kids: Kids, more: seq<Token>, depth: nat)
    ensures AllNodes(KidTokens(kids) + more, depth) == KidMarks(kids, more, depth) + AllNodes(more, depth)
  {
    match kids {
      case Childless => assert KidTokens(kids) + more == more;
      case Child(k, rest) =>
        var after := KidTokens(rest) + more;
        assert KidTokens(kids) + more == Tokens(k) + after;
        hide Tokens, Marks, AllNodes;
        WalkKids(rest, more, depth);
        WalkTree(k, after, depth);
      case Hole(rest) =>
        var all, after := KidTokens(kids) + more, KidTokens(rest) + more;
        assert all == [Nop] + after;
        assert all[1..] == after;
        WalkKids(rest, more, depth);
        SameNext(all, depth, after, depth);
    }
  }

  /** A mark and a visit agree: same depth, and every lookup answers alike. */
  ghost predicate Agree(m: (nat, seq<Token>), v: Visit) {
    m.0 == v.depth && forall strings: Bytes, name: Bytes ::
      Lookup(m.1, strings, name) == LookupItems(v.items, strings, name)
  }

  lemma {:induction false} LookupInItems(items: seq<Item>, more: seq<Token>, strings: Bytes, name: Bytes)
    requires more == [] || !more[0].Prop?
    ensures Lookup(ItemTokens(items) + more, strings, name) == LookupItems(items, strings, name)
  {
    var all := ItemTokens(items) + more;
    if items == [] {
      assert all == more;
    } else {
      assert all[1..] == ItemTokens(items[1..]) + more;
      if items[0].Line? {
        LookupInItems(items[1..], more, strings, name);
      }
    }
  }

  lemma KidsStart(kids: Kids, more: seq<Token>)
    requires more != [] && !more[0].Prop?
    ensures KidTokens(kids) + more != [] && !(KidTokens(kids) + more)[0].Prop?
  {
    if kids.Child? {
      assert Tokens(kids.tree)[0] == Begin(kids.tree.name);
    }
  }

  ghost predicate AllAgree(marks: seq<(nat, seq<Token>)>, visits: seq<Visit>) {
    |marks| == |visits| && forall i | 0 <= i < |marks| :: Agree(marks[i], visits[i])
  }

  lemma AgreeAppend(m1: seq<(nat, seq<Token>)>, v1: seq<Visit>, m2: seq<(nat, seq<Token>)>, v2: seq<Visit>)
    requires AllAgree(m1, v1) && AllAgree(m2, v2)
    ensures AllAgree(m1 + m2, v1 + v2)
  {
    hide Agree;
  }

  lemma {:induction false} MarksAreVisits(t: Tree, more: seq<Token>, depth: nat)
    ensures AllAgree(Marks(t, more, depth), Preorder(t, depth))
  {
    var end := [EndNode] + more;
    var tail := KidTokens(t.kids) + end;
    KidsStart(t.kids, end);
    forall strings: Bytes, name: Bytes
      ensures Lookup(ItemTokens(t.items) + tail, strings, name) == LookupItems(t.items, strings, name)
    {
      LookupInItems(t.items, tail, strings, name);
    }
    KidMarksAreVisits(t.kids, end, depth + 1);
    assert Agree((depth, ItemTokens(t.items) + tail), Visit(depth, t.items));
    hide Agree;
    AgreeAppend([(depth, ItemTokens(t.items) + tail)], [Visit(depth, t.items)],
                KidMarks(t.kids, end, depth + 1), KidsPreorder(t.kids, depth + 1));
  }

  lemma {:induction false} KidMarksAreVisits(kids: Kids, more: seq<Token>, depth: nat)
    ensures AllAgree(KidMarks(kids, more, depth), KidsPreorder(kids, depth))
  {
    hide Agree;
    match kids {
      case Childless =>
      case Child(k, rest) =>
        var after := KidTokens(rest) + more;
        MarksAreVisits(k, after, depth);
        KidMarksAreVisits(rest, more, depth);
        AgreeAppend(Marks(k, after, depth), Preorder(k, depth), KidMarks(rest, more, depth), KidsPreorder(rest, depth));
      case Hole(rest) => KidMarksAreVisits(rest, more, depth);
    }
  }

  /** Walking an encoded tree visits its nodes in preorder, at their depths, with their own properties. */
  lemma WalkInverts(t: Tree)
    ensures AllAgree(AllNodes(Block(t), 0), Preorder(t, 0))
  {
    WalkTree(t, [End], 0);
    MarksAreVisits(t, [End], 0);
    assert AllNodes([End], 0) == [] by {
      assert [End][1..] == [];
    }
    assert Marks(t, [End], 0) + [] == Marks(t, [End], 0);
  }
}
