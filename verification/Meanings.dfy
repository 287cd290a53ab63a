/** Which lists of commands some line of the monitor's language means, and what its errors point at. */
module Meanings {
  import opened Wrappers
  import opened Blobs
  import opened Monitor
  import opened Numerals
  import opened Writings

  // ----- What any line at all can mean

  /** At an instruction, or after a colon with no byte yet, the next command is not an address, and there is one. */
  lemma {:induction false} InstructionNext(line: Line, pos: nat, mode: Mode)
    requires pos <= |line| && (mode == Set(false) || (pos < |line| && IsInstruction(line[pos])))
    ensures var s := Next(line, pos, mode); !s.Stop? && (s.Go? ==> s.command.Some? && !IsAddress(s.command.value))
    decreases Measure(line, pos, mode)
  {
    StepShrinks(line, pos, mode);
    NextShrinks(line, pos, mode);
    var (p, s) := (SkipSpaces(line, pos), Step(line, pos, mode));
    hide HexNumber, Number, DigitRun, SkipSpaces;
    StaysPut(line, pos);
    if s.Go? && s.command == None {
      assert s.mode == Set(false);
      NextAfter(line, pos, mode, s.pos, s.mode);
      InstructionNext(line, s.pos, s.mode);
    } else {
      NextIsStep(line, pos, mode);
    }
  }

  lemma StaysPut(line: Line, pos: nat)
    requires pos <= |line|
    ensures pos < |line| && IsInstruction(line[pos]) ==> SkipSpaces(line, pos) == pos && Digit(line[pos]).None?
  {
  }

  /** With no instruction next, the next command, if there is one, is an address. */
  lemma AddressNext(line: Line, pos: nat)
    requires pos <= |line| && SkipSpaces(line, pos) == pos && (pos < |line| ==> !IsInstruction(line[pos]))
    ensures var s := Next(line, pos, Default); s.Go? ==> s.command.Some? && IsAddress(s.command.value)
  {
    hide HexNumber, Number, DigitRun, SkipSpaces;
    NextIsStep(line, pos, Default);
  }

  /** What follows an address: the pass that reads it stops where the next command shows which it was. */
  lemma {:induction false} AfterAddress(line: Line, pos: nat, mode: Mode)
    requires pos <= |line|
    ensures var s := Next(line, pos, mode);
            s.Go? && s.command.Some? && IsAddress(s.command.value) ==>
              && s.pos <= |line| && s.mode == Default && SkipSpaces(line, s.pos) == s.pos
              && (s.command.value.SetAddress? <==> s.pos < |line| && IsInstruction(line[s.pos]))
    decreases Measure(line, pos, mode)
  {
    StepShrinks(line, pos, mode);
    var (p, s) := (SkipSpaces(line, pos), Step(line, pos, mode));
    if s.Go? && s.command == None {
      NextAfter(line, pos, mode, s.pos, s.mode);
      AfterAddress(line, s.pos, s.mode);
    } else {
      NextIsStep(line, pos, mode);
      AddressStops(line, p);
      hide HexNumber, Number, DigitRun, SkipSpaces, AddressStep;
    }
  }

  lemma AddressStops(line: Line, p: nat)
    requires p <= |line|
    ensures var s := AddressStep(line, p, Default);
            s.Go? ==>
              && s.pos <= |line| && s.mode == Default && SkipSpaces(line, s.pos) == s.pos && s.command.Some?
              && (s.command.value.SetAddress? <==> s.pos < |line| && IsInstruction(line[s.pos]))
  {
    HexFits(line, p, MAX_ADDRESS_DIGITS);
    hide HexNumber, Number, DigitRun;
    match AddressAt(line, p) {
      case Err(_) =>
      case Ok((_, e)) => SkipFacts(line, e);
    }
  }

  /** An address is one to set exactly when what follows is not an address; at the end, only before an error. */
  predicate PairAt(r: Reading, i: nat)
    requires i < |r.commands|
  {
    IsAddress(r.commands[i]) ==>
      if i + 1 < |r.commands| then r.commands[i].SetAddress? <==> !IsAddress(r.commands[i + 1])
      else r.commands[i].SetAddress? ==> r.error.Some?
  }

  predicate AllPaired(r: Reading) {
    forall i: nat | i < |r.commands| :: PairAt(r, i)
  }

  lemma OneMorePaired(c: Command, rest: Reading)
    requires AllPaired(rest)
    requires IsAddress(c) ==>
               if rest.commands == [] then c.SetAddress? ==> rest.error.Some? else c.SetAddress? <==>
                 !IsAddress(rest.commands[0])
    ensures AllPaired(Reading([c] + rest.commands, rest.error))
  {
    var r := Reading([c] + rest.commands, rest.error);
    forall i: nat | i < |r.commands|
      ensures PairAt(r, i)
    {
      if i > 0 {
        assert PairAt(rest, i - 1);
      }
    }
  }

  /** That holds of every line, and of what is left of it at any point. */
  lemma {:induction false} ReadPairs(line: Line, pos: nat, mode: Mode)
    requires pos <= |line|
    ensures AllPaired(Read(line, pos, mode))
    decreases Measure(line, pos, mode)
  {
    NextShrinks(line, pos, mode);
    AfterAddress(line, pos, mode);
    var s := Next(line, pos, mode);
    if s.Go? {
      ReadPairs(line, s.pos, s.mode);
      FollowsAddress(line, s);
      hide Next, AddressStep, Digit, IsInstruction, SkipSpaces, AllPaired;
      OneMorePaired(s.command.value, Read(line, s.pos, s.mode));
    }
  }

  lemma FollowsAddress(line: Line, s: Outcome)
    requires s.Go? && s.pos <= |line| && s.command.Some?
    ensures IsAddress(s.command.value) && s.mode == Default && SkipSpaces(line, s.pos) == s.pos
            && (s.command.value.SetAddress? <==> s.pos < |line| && IsInstruction(line[s.pos])) ==>
              var rest := Read(line, s.pos, s.mode);
              if rest.commands == [] then s.command.value.SetAddress? ==> rest.error.Some?
              else s.command.value.SetAddress? <==> !IsAddress(rest.commands[0])
  {
    if s.mode == Default && SkipSpaces(line, s.pos) == s.pos {
      if s.pos < |line| && IsInstruction(line[s.pos]) {
        InstructionNext(line, s.pos, Default);
      } else {
        AddressNext(line, s.pos);
      }
    }
    hide SkipSpaces, IsInstruction;
  }

  lemma PairedIsWell(cmds: seq<Command>)
    requires AllPaired(Reading(cmds, None))
    ensures WellPaired(cmds)
  {
    forall i: nat | i < |cmds|
      ensures Paired(cmds, i)
    {
      assert PairAt(Reading(cmds, None), i);
    }
  }

  /**
   Every `SetAddress` has something to set the address for, and no lone examine stands before a command
   that is not an address.
  */
  predicate WellPaired(cmds: seq<Command>) {
    forall i: nat | i < |cmds| :: Paired(cmds, i)
  }

  predicate Paired(cmds: seq<Command>, i: nat)
    requires i < |cmds|
  {
    IsAddress(cmds[i]) ==> (cmds[i].SetAddress? <==> i + 1 < |cmds| && !IsAddress(cmds[i + 1]))
  }

  lemma {:induction false} NormalAt(cmds: seq<Command>, i: nat)
    requires i < |cmds|
    ensures Normal(cmds)[i] == Labelled(cmds[i], cmds[i + 1..])
  {
    if i > 0 {
      NormalAt(cmds[1..], i - 1);
      assert cmds[1..][i..] == cmds[i + 1..];
    }
  }

  lemma LabelledSame(cmds: seq<Command>, i: nat)
    requires i < |cmds|
    ensures Labelled(cmds[i], cmds[i + 1..]) == cmds[i] <==> Paired(cmds, i)
  {
    assert i + 1 < |cmds| ==> cmds[i + 1..][0] == cmds[i + 1];
  }

  /** A line means the list it says exactly when the list is well paired. */
  lemma RoundTrip(line: Line, cmds: seq<Command>)
    requires IsWriting(line, cmds)
    ensures Read(line, 0, Default) == Reading(cmds, None) <==> WellPaired(cmds)
  {
    WritingIsRead(line, cmds);
    forall i: nat | i < |cmds|
      ensures Normal(cmds)[i] == cmds[i] <==> Paired(cmds, i)
    {
      NormalAt(cmds, i);
      LabelledSame(cmds, i);
    }
    hide Paired, Normal, Read, IsWriting;
    if WellPaired(cmds) {
      assert Normal(cmds) == cmds;
    }
  }

  // ----- Every list has a writing

  /** `n` in `k` digits, in lower case. */
  function Hex(n: nat, k: nat): (t: Line)
    ensures |t| == k
  {
    if k == 0 then [] else Hex(n / 16, k - 1) + [LOWER_DIGITS[n % 16] as int]
  }

  lemma {:induction false} HexWrites(n: nat, k: nat)
    requires n < Pow16(k)
    ensures Writes(Hex(n, k), n)
  {
    if k > 0 {
      var t := Hex(n, k);
      HexWrites(n / 16, k - 1);
      assert t[..|t| - 1] == Hex(n / 16, k - 1);
    }
  }

  /** One command to a space, with all the digits there can be. */
  function Plain(c: Command, inSet: bool): Piece {
    match c
    case SetAddress(a) => Piece([SPACE], Hex(a, MAX_ADDRESS_DIGITS))
    case ExamineOne(a) => Piece([SPACE], Hex(a, MAX_ADDRESS_DIGITS))
    case ExamineContinuing(end) => Piece([SPACE], [DOT] + Hex(end, MAX_ADDRESS_DIGITS))
    case StoreContinuing(b) => Piece(if inSet then [SPACE] else [SPACE, COLON], Hex(b, MAX_BYTE_DIGITS))
    case Run => Piece([SPACE], [UPPER_R])
  }

  function PlainPieces(cmds: seq<Command>, inSet: bool): (pieces: seq<Piece>)
    ensures |pieces| == |cmds|
  {
    if cmds == [] then [] else [Plain(cmds[0], inSet)] + PlainPieces(cmds[1..], cmds[0].StoreContinuing?)
  }

  lemma PlainFits(c: Command, inSet: bool, gap: bool)
    ensures PieceFits(Plain(c, inSet), c, if inSet then Set(true) else Default, gap)
  {
    WordDigits();
    hide Writes, Hex, Pow16;
    match c {
      case SetAddress(a) => HexWrites(a, MAX_ADDRESS_DIGITS);
      case ExamineOne(a) => HexWrites(a, MAX_ADDRESS_DIGITS);
      case ExamineContinuing(end) =>
        HexWrites(end, MAX_ADDRESS_DIGITS);
        var t := Plain(c, inSet).text;
        assert t[1..1] == [] && t[1..] == Hex(end, MAX_ADDRESS_DIGITS);
      case StoreContinuing(b) => HexWrites(b, MAX_BYTE_DIGITS);
      case Run =>
    }
  }

  lemma {:induction false} PlainWrites(cmds: seq<Command>, inSet: bool, gap: bool)
    ensures Writing(PlainPieces(cmds, inSet), cmds, [], if inSet then Set(true) else Default, gap)
    decreases |cmds|
  {
    if cmds != [] {
      var rest := PlainPieces(cmds[1..], cmds[0].StoreContinuing?);
      assert PlainPieces(cmds, inSet)[1..] == rest;
      PlainFits(cmds[0], inSet, gap);
      hide Plain, PieceFits;
      PlainWrites(cmds[1..], cmds[0].StoreContinuing?, !cmds[0].Run?);
    }
  }

  /** So some line means a list of commands, exactly when the list is well paired. */
  lemma Expressible(cmds: seq<Command>)
    ensures (exists line: Line :: Read(line, 0, Default) == Reading(cmds, None)) <==> WellPaired(cmds)
  {
    hide Writing, Text;
    if line: Line :| Read(line, 0, Default) == Reading(cmds, None) {
      ReadPairs(line, 0, Default);
      PairedIsWell(cmds);
    } else {
      PlainWrites(cmds, false, false);
      var line := Text(PlainPieces(cmds, false), []);
      assert IsWriting(line, cmds);
      RoundTrip(line, cmds);
      hide Read;
      assert Read(line, 0, Default) != Reading(cmds, None);
    }
  }

  /** Examining one address and then running is not something a line can ask for. */
  lemma ExamineThenRun(a: Word, line: Line)
    ensures Read(line, 0, Default) != Reading([ExamineOne(a), Run], None)
  {
    hide Read;
    Expressible([ExamineOne(a), Run]);
    assert !Paired([ExamineOne(a), Run], 0);
  }

  // ----- Errors

  /** The byte an error points at, or just behind. */
  ghost predicate PointsAt(line: Line, error: ParseError) {
    match error
    case UnexpectedCharacter(at) =>
      0 < at <= |line| && !IsSign(line[at - 1]) && line[at - 1] as char !in " :.Rr"
    case AddressTooLong(at) => 16 <= at < |line| && IsSign(line[at]) && Signs(line[at - 16..at])
    case ByteTooLong(at) => 2 <= at < |line| && IsSign(line[at]) && Signs(line[at - 2..at])
    case ExpectedAByte(at) => at == |line| && exists i :: 0 <= i < at && line[i] == ':' as int && Blank(line[i + 1..])
    case ExpectedAnAddress(at) =>
      && at <= |line| && (at < |line| ==> !IsSign(line[at]) && line[at] != ' ' as int)
      && exists i :: 0 <= i < at && line[i] == '.' as int && Blank(line[i + 1..at])
  }

  /** A colon, with nothing but spaces since. */
  ghost predicate JustColon(line: Line, pos: nat)
    requires pos <= |line|
  {
    exists i :: 0 <= i < pos && line[i] == ':' as int && Blank(line[i + 1..pos])
  }

  lemma BlankBetween(line: Line, a: nat, b: nat)
    requires a <= b <= |line| && forall i | a <= i < b :: line[i] == SPACE
    ensures Blank(line[a..b])
  {
    forall c | c in line[a..b]
      ensures c == ' ' as int
    {
      var i :| 0 <= i < b - a && line[a..b][i] == c;
      assert c == line[a + i];
    }
  }

  lemma StillJustColon(line: Line, pos: nat, q: nat)
    requires pos <= q <= |line| && JustColon(line, pos) && forall i | pos <= i < q :: line[i] == SPACE
    ensures JustColon(line, q)
  {
    var i :| 0 <= i < pos && line[i] == ':' as int && Blank(line[i + 1..pos]);
    BlankBetween(line, pos, q);
    assert line[i + 1..q] == line[i + 1..pos] + line[pos..q];
  }

  lemma FailPoints(line: Line, pos: nat, mode: Mode)
    requires pos <= |line| && (mode == Set(false) ==> JustColon(line, pos)) && Step(line, pos, mode).Fail?
    ensures PointsAt(line, Step(line, pos, mode).error)
  {
    var q := SkipSpaces(line, pos);
    SkipFacts(line, pos);
    hide SkipSpaces, Digit, IsSign, HexNumber, PointsAt, InstructionStep;
    if q == |line| {
      StillJustColon(line, pos, q);
      EndPoints(line);
    } else if Digit(line[q]).None? {
      InstructionPoints(line, q, mode);
    } else {
      DigitsAreSigns(line[q]);
      TooLongPoints(line, q, MAX_ADDRESS_DIGITS);
      TooLongPoints(line, q, MAX_BYTE_DIGITS);
      hide AddressAt, ByteAt;
    }
  }

  lemma EndPoints(line: Line)
    requires JustColon(line, |line|)
    ensures PointsAt(line, ExpectedAByte(|line|))
  {
    var i :| 0 <= i < |line| && line[i] == ':' as int && Blank(line[i + 1..|line|]);
    assert line[i + 1..] == line[i + 1..|line|];
  }

  /** A numeral that starts here can only be too long. */
  lemma TooLongPoints(line: Line, q: nat, max: nat)
    requires q < |line| && IsSign(line[q])
    ensures max == MAX_ADDRESS_DIGITS && AddressAt(line, q).Err? ==> PointsAt(line, AddressAt(line, q).error)
    ensures max == MAX_BYTE_DIGITS && ByteAt(line, q).Err? ==> PointsAt(line, ByteAt(line, q).error)
  {
    NumeralFound(line, q, max);
    hide IsSign, HexNumber;
  }

  lemma InstructionPoints(line: Line, q: nat, mode: Mode)
    requires q < |line| && line[q] != SPACE && Digit(line[q]).None? && InstructionStep(line, q, mode).Fail?
    ensures PointsAt(line, InstructionStep(line, q, mode).error)
  {
    DigitsAreSigns(line[q]);
    if line[q] == DOT {
      var p := SkipSpaces(line, q + 1);
      SkipFacts(line, q + 1);
      BlankBetween(line, q + 1, p);
      NumeralFound(line, p, MAX_ADDRESS_DIGITS);
    }
    hide SkipSpaces, Digit, IsSign, HexNumber;
  }

  /** Every error points at what is wrong. */
  lemma {:induction false} ErrorsPoint(line: Line, pos: nat, mode: Mode)
    requires pos <= |line| && (mode == Set(false) ==> JustColon(line, pos))
    ensures var error := Read(line, pos, mode).error; error.Some? ==> PointsAt(line, error.value)
    decreases Measure(line, pos, mode)
  {
    ReadBySteps(line, pos, mode);
    StepShrinks(line, pos, mode);
    var s := Step(line, pos, mode);
    if s.Fail? {
      FailPoints(line, pos, mode);
    } else if s.Go? {
      ModeColon(line, pos, mode);
      hide Step, Read, JustColon, PointsAt, Measure;
      ErrorsPoint(line, s.pos, s.mode);
    }
  }

  lemma ModeColon(line: Line, pos: nat, mode: Mode)
    requires pos <= |line| && Step(line, pos, mode).Go?
    ensures var s := Step(line, pos, mode); s.pos <= |line| && (s.mode == Set(false) ==> JustColon(line, s.pos))
  {
    StepShrinks(line, pos, mode);
    var (q, s) := (SkipSpaces(line, pos), Step(line, pos, mode));
    if s.command == None {
      SilentPass(line, pos, mode);
      if line[q] == COLON {
        assert line[q + 1..q + 1] == [];
      }
    } else {
      var e := CommandPass(line, pos, mode);
    }
  }
}
