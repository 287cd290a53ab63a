/** What the monitor does with a line: its two addresses, and the bytes it stores (src/zhemon/mod.rs). */
module Zhemon {
  import opened Wrappers
  import opened Blobs
  import opened Monitor
  import opened Writings
  import opened Meanings

  /** The monitor's state, and the memory its stores go to. */
  datatype State = State(last: Word, next: Word, memory: map<nat, Byte>)

  /** The address after the one a command touches is still an address. */
  predicate Fits(s: State, c: Command) {
    match c
    case ExamineOne(a) => a + 1 < WORD_LIMIT
    case ExamineContinuing(end) => end + 1 < WORD_LIMIT
    case StoreContinuing(_) => s.next + 1 < WORD_LIMIT
    case _ => true
  }

  function Effect(s: State, c: Command): State
    requires Fits(s, c)
  {
    match c
    case SetAddress(a) => s.(last := a, next := a)
    case ExamineOne(a) => s.(last := a, next := a + 1)
    case ExamineContinuing(end) => s.(last := end, next := end + 1)
    case StoreContinuing(b) => s.(memory := s.memory[s.next as nat := b], next := s.next + 1)
    case Run => s
  }

  predicate AllFit(s: State, cmds: seq<Command>)
    decreases |cmds|
  {
    cmds == [] || (Fits(s, cmds[0]) && AllFit(Effect(s, cmds[0]), cmds[1..]))
  }

  function Executed(s: State, cmds: seq<Command>): State
    requires AllFit(s, cmds)
    decreases |cmds|
  {
    if cmds == [] then s else Executed(Effect(s, cmds[0]), cmds[1..])
  }

  class Zhemon {
    var lastAddress: Word
    var nextAddress: Word
    var memory: map<nat, Byte>

    function Now(): State
      reads this
    {
      State(lastAddress, nextAddress, memory)
    }

    constructor (memory: map<nat, Byte>)
      ensures Now() == State(0, 0, memory)
    {
      lastAddress, nextAddress := 0, 0;
      this.memory := memory;
    }

    method HandleSetAddress(address: Word)
      modifies this
      ensures Now() == Effect(old(Now()), SetAddress(address))
      ensures lastAddress == nextAddress == address && memory == old(memory)
    {
      lastAddress := address;
      nextAddress := address;
    }

    method HandleExamineOne(address: Word)
      requires Fits(Now(), ExamineOne(address))
      modifies this
      ensures Now() == Effect(old(Now()), ExamineOne(address))
      ensures lastAddress == address && nextAddress == address + 1 && memory == old(memory)
    {
      lastAddress := address;
      nextAddress := address + 1;
    }

    method HandleExamineContinuing(end: Word)
      requires Fits(Now(), ExamineContinuing(end))
      modifies this
      ensures Now() == Effect(old(Now()), ExamineContinuing(end))
      ensures lastAddress == end && nextAddress == end + 1 && memory == old(memory)
    {
      lastAddress := end;
      nextAddress := end + 1;
    }

    method HandleStoreContinuing(byte: Byte)
      requires Fits(Now(), StoreContinuing(byte))
      modifies this
      ensures Now() == Effect(old(Now()), StoreContinuing(byte))
      ensures lastAddress == old(lastAddress) && nextAddress == old(nextAddress) + 1
      ensures memory == old(memory)[old(nextAddress) as nat := byte]
    {
      memory := memory[nextAddress as nat := byte];
      nextAddress := nextAddress + 1;
    }

    /** Carries out the commands of a line up to its end, or its error. */
    method HandleLine(parser: Parser)
      requires parser.Valid()
      requires AllFit(Now(), Read(parser.cursor.bytes, parser.cursor.pos, parser.mode).commands)
      modifies this, parser, parser.cursor
      ensures Now() == Executed(old(Now()), old(Read(parser.cursor.bytes, parser.cursor.pos, parser.mode).commands))
    {
      hide Next, Measure, Effect, Fits;
      ghost var all := Read(parser.cursor.bytes, parser.cursor.pos, parser.mode).commands;
      ghost var start := Now();
      ghost var rest := all;
      while true
        invariant parser.Valid() && rest == Read(parser.cursor.bytes, parser.cursor.pos, parser.mode).commands
        invariant AllFit(Now(), rest) && AllFit(start, all) && Executed(Now(), rest) == Executed(start, all)
        decreases Measure(parser.cursor.bytes, parser.cursor.pos, parser.mode)
      {
        NextShrinks(parser.cursor.bytes, parser.cursor.pos, parser.mode);
        var next := parser.ParseNext();
        if next.Err? || next.value == None {
          return;
        }
        ghost var s := Now();
        match next.value.value {
          case SetAddress(address) => HandleSetAddress(address);
          case ExamineOne(address) => HandleExamineOne(address);
          case ExamineContinuing(end) => HandleExamineContinuing(end);
          case StoreContinuing(byte) => HandleStoreContinuing(byte);
          case Run => RunKeepsState(s);
        }
        rest := rest[1..];
      }
    }
  }

  /** Where `R` jumps to is not part of this model. */
  lemma RunKeepsState(s: State)
    ensures Fits(s, Run) && Effect(s, Run) == s
  {
  }

  function Stores(bytes: seq<Byte>): (cmds: seq<Command>)
    ensures |cmds| == |bytes| && forall i | 0 <= i < |bytes| :: cmds[i] == StoreContinuing(bytes[i])
  {
    if bytes == [] then [] else [StoreContinuing(bytes[0])] + Stores(bytes[1..])
  }

  /** The bytes are in memory from `a` on, and nothing else there has changed. */
  ghost predicate Landed(before: map<nat, Byte>, after: map<nat, Byte>, a: nat, bytes: seq<Byte>) {
    forall x: nat ::
      if a <= x < a + |bytes| then x in after && after[x] == bytes[x - a]
      else (x in after <==> x in before) && (x in before ==> after[x] == before[x])
  }

  /** Stores go to one address after another. */
  lemma {:induction false} StoresFollow(s: State, bytes: seq<Byte>)
    requires s.next + |bytes| < WORD_LIMIT
    ensures AllFit(s, Stores(bytes))
    ensures var t := Executed(s, Stores(bytes));
            t.last == s.last && t.next == s.next + |bytes| && Landed(s.memory, t.memory, s.next, bytes)
    decreases |bytes|
  {
    if bytes == [] {
      assert Stores(bytes) == [];
    } else {
      hide Landed;
      var (cmds, s1) := (Stores(bytes), Effect(s, StoreContinuing(bytes[0])));
      assert cmds[0] == StoreContinuing(bytes[0]) && cmds[1..] == Stores(bytes[1..]);
      hide Stores;
      StoresFollow(s1, bytes[1..]);
      LandedStep(s.memory, Executed(s1, cmds[1..]).memory, s.next, bytes);
    }
  }

  lemma LandedStep(before: map<nat, Byte>, after: map<nat, Byte>, a: nat, bytes: seq<Byte>)
    requires bytes != [] && Landed(before[a := bytes[0]], after, a + 1, bytes[1..])
    ensures Landed(before, after, a, bytes)
  {
  }

  /** The address a command leaves the next store to go to, if it sets one. */
  function Leads(c: Command): Option<nat> {
    match c
    case SetAddress(a) => Some(a)
    case ExamineOne(a) => Some(a + 1)
    case ExamineContinuing(end) => Some(end + 1)
    case _ => None
  }

  /**
   Whatever came before it, stores after a command with an address land from that address on, or from the
   one after it if the command examined it, and nowhere else.
  */
  lemma StoresAfter(s: State, cmds: seq<Command>, c: Command, bytes: seq<Byte>)
    requires Leads(c).Some? && Leads(c).value + |bytes| < WORD_LIMIT && AllFit(s, cmds)
    ensures var all := cmds + ([c] + Stores(bytes));
            && AllFit(s, all)
            && Executed(s, all).next == Leads(c).value + |bytes|
            && Landed(Executed(s, cmds).memory, Executed(s, all).memory, Leads(c).value, bytes)
  {
    var (t, more) := (Executed(s, cmds), [c] + Stores(bytes));
    assert more[0] == c && more[1..] == Stores(bytes);
    hide Landed, Stores;
    assert Fits(t, c);
    StoresFollow(Effect(t, c), bytes);
    InTurn(s, cmds, more);
  }

  lemma {:induction false} InTurn(s: State, first: seq<Command>, second: seq<Command>)
    requires AllFit(s, first) && AllFit(Executed(s, first), second)
    ensures AllFit(s, first + second) && Executed(s, first + second) == Executed(Executed(s, first), second)
    decreases |first|
  {
    hide Fits, Effect;
    if first == [] {
      assert first + second == second;
    } else {
      assert (first + second)[0] == first[0] && (first + second)[1..] == first[1..] + second;
      InTurn(Effect(s, first[0]), first[1..], second);
    }
  }

  /** The line `a: b0 b1 ...`, however it is written, stores the bytes at `a` and after, and nothing anywhere else. */
  lemma LineStores(s: State, line: Line, a: Word, bytes: seq<Byte>)
    requires bytes != [] && a + |bytes| < WORD_LIMIT && IsWriting(line, [SetAddress(a)] + Stores(bytes))
    ensures var reading := Read(line, 0, Default);
            && reading.error == None && AllFit(s, reading.commands)
            && var t := Executed(s, reading.commands);
               t.last == a && t.next == a + |bytes| && Landed(s.memory, t.memory, a, bytes)
  {
    var cmds := [SetAddress(a)] + Stores(bytes);
    forall i: nat | i < |cmds|
      ensures Paired(cmds, i)
    {
      if i > 0 {
        assert cmds[i] == Stores(bytes)[i - 1];
      }
    }
    RoundTrip(line, cmds);
    hide Read, IsWriting, Landed;
    assert cmds[1..] == Stores(bytes);
    StoresFollow(Effect(s, cmds[0]), bytes);
  }
}
