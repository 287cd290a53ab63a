/**
 The monitor's command line (src/zhemon/parser.rs, cursor.rs, mod.rs): what a line means, the parser
 that finds it out one command at a time, and where its stores land.
*/
module Monitor {
  import opened Wrappers
  import opened Blobs

  type Line = seq<Byte>

  const SPACE: Byte := 0x20
  const DOT: Byte := 0x2E
  const COLON: Byte := 0x3A
  const UPPER_R: Byte := 0x52
  const LOWER_R: Byte := 0x72

  const MAX_ADDRESS_DIGITS: nat := 16
  const MAX_BYTE_DIGITS: nat := 2

  datatype Command =
    | SetAddress(address: Word)
    | ExamineOne(address: Word)
    | ExamineContinuing(end: Word)
    | StoreContinuing(byte: Byte)
    | Run

  datatype ParseError =
    | UnexpectedCharacter(at: nat)
    | AddressTooLong(at: nat)
    | ByteTooLong(at: nat)
    | ExpectedAByte(at: nat)
    | ExpectedAnAddress(at: nat)

  datatype HexError = TooLong(at: nat) | NoDigits

  datatype Mode = Default | Set(anyByteYet: bool)

  // ----- Hexadecimal

  /** `char::to_digit(16)`. */
  function Digit(c: Byte): (d: Option<nat>)
    ensures d.Some? ==> d.value < 16
  {
    if 0x30 <= c <= 0x39 then Some(c - 0x30)
    else if 0x41 <= c <= 0x46 then Some(c - 0x41 + 10)
    else if 0x61 <= c <= 0x66 then Some(c - 0x61 + 10)
    else None
  }

  function Pow16(n: nat): (r: nat)
    ensures r >= 1
  {
    if n == 0 then 1 else 16 * Pow16(n - 1)
  }

  lemma {:induction false} Pow16Monotonic(m: nat, n: nat)
    requires m <= n
    ensures Pow16(m) <= Pow16(n)
  {
    if m < n {
      Pow16Monotonic(m, n - 1);
    }
  }

  /** Sixteen digits are what a word holds. */
  lemma WordDigits()
    ensures Pow16(MAX_ADDRESS_DIGITS) == WORD_LIMIT && Pow16(MAX_BYTE_DIGITS) == 256
  {
    assert Pow16(4) == 0x1_0000;
    assert Pow16(8) == 0x1_0000_0000 by {
      assert Pow16(8) == 0x1_0000 * Pow16(4);
    }
    assert Pow16(12) == 0x1_0000 * Pow16(8);
    assert Pow16(16) == 0x1_0000 * Pow16(12);
  }

  /** How many hexadecimal digits follow from `pos`. */
  function DigitRun(line: Line, pos: nat): (n: nat)
    ensures n > 0 || pos <= |line| ==> pos + n <= |line|
    ensures forall i | pos <= i < pos + n :: Digit(line[i]).Some?
    decreases |line| - pos
  {
    if pos < |line| && Digit(line[pos]).Some? then 1 + DigitRun(line, pos + 1) else 0
  }

  function Number(line: Line, pos: nat, n: nat): (r: nat)
    requires pos + n <= |line| && forall i | pos <= i < pos + n :: Digit(line[i]).Some?
    ensures r < Pow16(n)
  {
    if n == 0 then 0 else Number(line, pos, n - 1) * 16 + Digit(line[pos + n - 1]).value
  }

  lemma NoDigitsYet(line: Line, pos: nat)
    requires pos <= |line|
    ensures Number(line, pos, 0) == 0
  {
  }

  lemma RunStep(line: Line, pos: nat)
    ensures DigitRun(line, pos) == if pos < |line| && Digit(line[pos]).Some? then 1 + DigitRun(line, pos + 1) else 0
  {
  }

  /** One more digit, while there are fewer than sixteen, still fits a word. */
  lemma OneMoreDigit(line: Line, pos: nat, n: nat)
    requires pos + n < |line| && n < MAX_ADDRESS_DIGITS && forall i | pos <= i < pos + n + 1 :: Digit(line[i]).Some?
    ensures Number(line, pos, n + 1) == Number(line, pos, n) * 16 + Digit(line[pos + n]).value < WORD_LIMIT
  {
    hide Digit;
    WordDigits();
    Pow16Monotonic(n + 1, MAX_ADDRESS_DIGITS);
  }

  /** A number of at most `max` digits, and where it ends. */
  function HexNumber(line: Line, pos: nat, max: nat): Result<(nat, nat), HexError>
    requires pos <= |line|
  {
    var n := DigitRun(line, pos);
    if n == 0 then Err(NoDigits)
    else if n > max then Err(TooLong(pos + max))
    else Ok((Number(line, pos, n), pos + n))
  }

  lemma HexFits(line: Line, pos: nat, max: nat)
    requires pos <= |line|
    ensures var r := HexNumber(line, pos, max); r.Ok? ==> r.value.0 < Pow16(max) && pos < r.value.1 <= |line|
  {
    var n := DigitRun(line, pos);
    if 0 < n <= max {
      Pow16Monotonic(n, max);
    }
  }

  // ----- What a line means

  function SkipSpaces(line: Line, pos: nat): (p: nat)
    requires pos <= |line|
    ensures pos <= p <= |line| && (p < |line| ==> line[p] != SPACE)
    decreases |line| - pos
  {
    if pos < |line| && line[pos] == SPACE then SkipSpaces(line, pos + 1) else pos
  }

  predicate IsInstruction(c: Byte) {
    c == COLON || c == UPPER_R || c == LOWER_R || c == DOT
  }

  /** One pass of the parser: the line is over, an error, or on to another place, perhaps with a command. */
  datatype Outcome = Stop | Fail(error: ParseError) | Go(command: Option<Command>, pos: nat, mode: Mode)

  function AddressAt(line: Line, pos: nat): Result<(Word, nat), ParseError>
    requires pos <= |line|
  {
    HexFits(line, pos, MAX_ADDRESS_DIGITS);
    WordDigits();
    match HexNumber(line, pos, MAX_ADDRESS_DIGITS)
    case Ok((n, p)) => Ok((n, p))
    case Err(NoDigits) => Err(ExpectedAnAddress(pos))
    case Err(TooLong(p)) => Err(AddressTooLong(p))
  }

  function ByteAt(line: Line, pos: nat): Result<(Byte, nat), ParseError>
    requires pos <= |line|
  {
    HexFits(line, pos, MAX_BYTE_DIGITS);
    WordDigits();
    match HexNumber(line, pos, MAX_BYTE_DIGITS)
    case Ok((n, p)) => Ok((n, p))
    case Err(NoDigits) => Err(ExpectedAByte(pos))
    case Err(TooLong(p)) => Err(ByteTooLong(p))
  }

  /** An address is where to go on from if an instruction follows, and otherwise to be shown. */
  function AddressStep(line: Line, pos: nat, mode: Mode): Outcome
    requires pos <= |line|
  {
    match AddressAt(line, pos)
    case Err(error) => Fail(error)
    case Ok((address, p)) =>
      HexFits(line, pos, MAX_ADDRESS_DIGITS);
      var q := SkipSpaces(line, p);
      Go(Some(if q < |line| && IsInstruction(line[q]) then SetAddress(address) else ExamineOne(address)), q, mode)
  }

  /** A byte is stored; anything longer ends the bytes, once there has been one. */
  function SetStep(line: Line, pos: nat, mode: Mode): Outcome
    requires pos <= |line|
  {
    match ByteAt(line, pos)
    case Ok((byte, p)) => Go(Some(StoreContinuing(byte)), p, Set(true))
    case Err(error) => if mode == Set(true) then Go(None, pos, Default) else Fail(error)
  }

  function InstructionStep(line: Line, pos: nat, mode: Mode): Outcome
    requires pos < |line|
  {
    var c := line[pos];
    if c == DOT then
      var p := SkipSpaces(line, pos + 1);
      match AddressAt(line, p)
      case Err(error) => Fail(error)
      case Ok((end, q)) => Go(Some(ExamineContinuing(end)), q, Default)
    else if c == COLON then Go(None, pos + 1, Set(false))
    else if c == UPPER_R || c == LOWER_R then Go(Some(Run), pos + 1, Default)
    else Fail(UnexpectedCharacter(pos + 1))
  }

  function Step(line: Line, pos: nat, mode: Mode): Outcome
    requires pos <= |line|
  {
    var p := SkipSpaces(line, pos);
    if p == |line| then if mode == Set(false) then Fail(ExpectedAByte(p)) else Stop
    else if Digit(line[p]).None? then InstructionStep(line, p, mode)
    else if mode == Default then AddressStep(line, p, mode)
    else SetStep(line, p, mode)
  }

  /** What is left to do: twice the bytes ahead, and one for leaving set mode. */
  function Measure(line: Line, pos: nat, mode: Mode): nat
    requires pos <= |line|
  {
    2 * (|line| - pos) + if mode.Set? then 1 else 0
  }

  /** Every pass that goes on leaves less to do, although leaving set mode moves back over what was read. */
  lemma StepShrinks(line: Line, pos: nat, mode: Mode)
    requires pos <= |line|
    ensures var s := Step(line, pos, mode);
            s.Go? ==> pos <= s.pos <= |line| && Measure(line, s.pos, s.mode) < Measure(line, pos, mode)
  {
    var p := SkipSpaces(line, pos);
    hide Digit, SkipSpaces, AddressStep, SetStep, InstructionStep;
    if p < |line| && Digit(line[p]).None? {
      InstructionShrinks(line, p, mode);
    } else if p < |line| && mode == Default {
      AddressShrinks(line, p);
    } else if p < |line| {
      SetShrinks(line, p, mode);
    }
  }

  lemma AddressShrinks(line: Line, p: nat)
    requires p <= |line|
    ensures var s := AddressStep(line, p, Default); s.Go? ==> p < s.pos <= |line| && s.mode == Default
  {
    HexFits(line, p, MAX_ADDRESS_DIGITS);
    hide HexNumber, SkipSpaces, IsInstruction;
  }

  lemma SetShrinks(line: Line, p: nat, mode: Mode)
    requires p <= |line| && mode.Set?
    ensures var s := SetStep(line, p, mode); s.Go? ==> p <= s.pos <= |line| && (p < s.pos || s.mode == Default)
  {
    HexFits(line, p, MAX_BYTE_DIGITS);
    hide HexNumber;
  }

  lemma InstructionShrinks(line: Line, p: nat, mode: Mode)
    requires p < |line|
    ensures var s := InstructionStep(line, p, mode); s.Go? ==> p < s.pos <= |line|
  {
    HexFits(line, SkipSpaces(line, p + 1), MAX_ADDRESS_DIGITS);
    hide HexNumber, SkipSpaces;
  }

  /** What `parse_next` finds: passes until there is a command, an end or an error. */
  function Next(line: Line, pos: nat, mode: Mode): Outcome
    requires pos <= |line|
    decreases Measure(line, pos, mode)
  {
    StepShrinks(line, pos, mode);
    var s := Step(line, pos, mode);
    if s.Go? && s.command == None then Next(line, s.pos, s.mode) else s
  }

  lemma {:induction false} NextShrinks(line: Line, pos: nat, mode: Mode)
    requires pos <= |line|
    ensures var s := Next(line, pos, mode);
            s.Go? ==>
              && s.command.Some? && pos <= s.pos <= |line|
              && Measure(line, s.pos, s.mode) < Measure(line, pos, mode)
    decreases Measure(line, pos, mode)
  {
    hide Step;
    StepShrinks(line, pos, mode);
    var s := Step(line, pos, mode);
    if s.Go? && s.command == None {
      NextShrinks(line, s.pos, s.mode);
    }
  }

  /** The commands of the rest of a line, and the error that ends them, if one does. */
  datatype Reading = Reading(commands: seq<Command>, error: Option<ParseError>)

  function Read(line: Line, pos: nat, mode: Mode): Reading
    requires pos <= |line|
    decreases Measure(line, pos, mode)
  {
    NextShrinks(line, pos, mode);
    match Next(line, pos, mode)
    case Stop => Reading([], None)
    case Fail(error) => Reading([], Some(error))
    case Go(command, p, m) => var rest := Read(line, p, m); Reading([command.value] + rest.commands, rest.error)
  }

  // ----- The parser

  class LineCursor {
    const bytes: Line
    var pos: nat

    constructor (bytes: Line)
      ensures this.bytes == bytes && pos == 0
    {
      this.bytes := bytes;
      pos := 0;
    }

    function Peek(): Option<Byte>
      reads this
    {
      PeekOffset(0)
    }

    function PeekOffset(offset: nat): Option<Byte>
      reads this
    {
      if pos + offset < |bytes| then Some(bytes[pos + offset]) else None
    }

    method ConsumeSpaces()
      requires pos <= |bytes|
      modifies this
      ensures pos == SkipSpaces(bytes, old(pos))
    {
      while Peek() == Some(SPACE)
        invariant pos <= |bytes| && SkipSpaces(bytes, pos) == SkipSpaces(bytes, old(pos))
        decreases |bytes| - pos
      {
        pos := pos + 1;
      }
    }

    method Advance(amount: nat)
      modifies this
      ensures pos == old(pos) + amount
    {
      pos := pos + amount;
    }

    method SetPos(p: nat)
      modifies this
      ensures pos == p
    {
      pos := p;
    }
  }

  class Parser {
    const cursor: LineCursor
    var mode: Mode

    ghost predicate Valid()
      reads this, cursor
    {
      cursor.pos <= |cursor.bytes|
    }

    constructor (line: Line)
      ensures Valid() && fresh(cursor) && cursor.bytes == line && cursor.pos == 0 && mode == Default
    {
      cursor := new LineCursor(line);
      mode := Default;
    }

    /** The accumulation never leaves 64 bits: it stops one digit before it could. */
    method ParseHexNumber(maxDigits: nat) returns (r: Result<Word, HexError>)
      requires Valid() && maxDigits <= MAX_ADDRESS_DIGITS
      modifies cursor
      ensures Valid()
      ensures match HexNumber(cursor.bytes, old(cursor.pos), maxDigits)
              case Ok((n, p)) => r.Ok? && r.value == n && cursor.pos == p
              case Err(error) => r == Err(error) && cursor.pos == old(cursor.pos)
    {
      hide Number, DigitRun, Pow16, Digit;
      ghost var line, pos := cursor.bytes, cursor.pos;
      NoDigitsYet(line, pos);
      var number: Word, digits := 0, 0;
      while true
        invariant cursor.pos == pos <= |line| && digits <= maxDigits && pos + digits <= |line|
        invariant forall i | pos <= i < pos + digits :: Digit(line[i]).Some?
        invariant number == Number(line, pos, digits)
        invariant DigitRun(line, pos) == digits + DigitRun(line, pos + digits)
        decreases |line| - digits
      {
        RunStep(line, pos + digits);
        var c := cursor.PeekOffset(digits);
        if c == None {
          break;
        }
        var digit := Digit(c.value);
        if digit == None {
          break;
        }
        if digits >= maxDigits {
          return Err(TooLong(cursor.pos + digits));
        }
        OneMoreDigit(line, pos, digits);
        number := number * 16 + digit.value;
        digits := digits + 1;
      }
      if digits == 0 {
        return Err(NoDigits);
      }
      cursor.Advance(digits);
      return Ok(number);
    }

    method ParseAddress() returns (r: Result<Word, ParseError>)
      requires Valid()
      modifies cursor
      ensures Valid()
      ensures match AddressAt(cursor.bytes, old(cursor.pos))
              case Ok((n, p)) => r == Ok(n) && cursor.pos == p
              case Err(error) => r == Err(error) && cursor.pos == old(cursor.pos)
    {
      hide HexNumber;
      var number := ParseHexNumber(MAX_ADDRESS_DIGITS);
      match number {
        case Ok(n) => return Ok(n);
        case Err(NoDigits) => return Err(ExpectedAnAddress(cursor.pos));
        case Err(TooLong(p)) => return Err(AddressTooLong(p));
      }
    }

    method ParseByte() returns (r: Result<Byte, ParseError>)
      requires Valid()
      modifies cursor
      ensures Valid()
      ensures match ByteAt(cursor.bytes, old(cursor.pos))
              case Ok((n, p)) => r == Ok(n) && cursor.pos == p
              case Err(error) => r == Err(error) && cursor.pos == old(cursor.pos)
    {
      HexFits(cursor.bytes, cursor.pos, MAX_BYTE_DIGITS);
      WordDigits();
      hide HexNumber;
      var number := ParseHexNumber(MAX_BYTE_DIGITS);
      match number {
        case Ok(n) => return Ok(n % 256);
        case Err(NoDigits) => return Err(ExpectedAByte(cursor.pos));
        case Err(TooLong(p)) => return Err(ByteTooLong(p));
      }
    }

    /** The result agrees with an outcome that is not the end of the line. */
    ghost predicate Yields(s: Outcome, r: Result<Option<Command>, ParseError>)
      reads this, cursor
    {
      match s
      case Stop => false
      case Fail(error) => r == Err(error)
      case Go(command, p, m) => r == Ok(command) && cursor.pos == p && mode == m
    }

    method ParseSetCommand() returns (r: Result<Option<Command>, ParseError>)
      requires Valid()
      modifies this, cursor
      ensures Valid() && Yields(SetStep(cursor.bytes, old(cursor.pos), old(mode)), r)
    {
      hide ByteAt;
      var initialPos := cursor.pos;
      var byte := ParseByte();
      if byte.Err? && mode == Set(true) {
        cursor.SetPos(initialPos);
        mode := Default;
        return Ok(None);
      }
      match byte {
        case Err(error) => return Err(error);
        case Ok(b) =>
          mode := Set(true);
          return Ok(Some(StoreContinuing(b)));
      }
    }

    method ParseAddressCommand() returns (r: Result<Option<Command>, ParseError>)
      requires Valid()
      modifies cursor
      ensures Valid() && Yields(AddressStep(cursor.bytes, old(cursor.pos), mode), r)
    {
      hide AddressAt;
      var address := ParseAddress();
      if address.Err? {
        return Err(address.error);
      }
      cursor.ConsumeSpaces();
      var next := cursor.Peek();
      if next.Some? && IsInstruction(next.value) {
        return Ok(Some(SetAddress(address.value)));
      }
      return Ok(Some(ExamineOne(address.value)));
    }

    method ParseInstruction() returns (r: Result<Option<Command>, ParseError>)
      requires Valid() && cursor.pos < |cursor.bytes|
      modifies this, cursor
      ensures Valid() && Yields(InstructionStep(cursor.bytes, old(cursor.pos), old(mode)), r)
    {
      hide AddressAt;
      var c := cursor.Peek();
      if c == Some(DOT) {
        mode := Default;
        cursor.Advance(1);
        cursor.ConsumeSpaces();
        var address := ParseAddress();
        if address.Err? {
          return Err(address.error);
        }
        return Ok(Some(ExamineContinuing(address.value)));
      }
      if c == Some(COLON) {
        cursor.Advance(1);
        mode := Set(false);
        return Ok(None);
      }
      if c == Some(UPPER_R) || c == Some(LOWER_R) {
        mode := Default;
        cursor.Advance(1);
        return Ok(Some(Run));
      }
      cursor.Advance(1);
      return Err(UnexpectedCharacter(cursor.pos));
    }

    /** The next command of the line; `Ok(None)` at its end. */
    method ParseNext() returns (r: Result<Option<Command>, ParseError>)
      requires Valid()
      modifies this, cursor
      ensures Valid()
      ensures match Next(cursor.bytes, old(cursor.pos), old(mode))
              case Stop => r == Ok(None)
              case Fail(error) => r == Err(error)
              case Go(command, p, m) => r == Ok(command) && command.Some? && cursor.pos == p && mode == m
    {
      hide SetStep, AddressStep, InstructionStep, Measure;
      while true
        invariant Valid() && Next(cursor.bytes, cursor.pos, mode) == Next(cursor.bytes, old(cursor.pos), old(mode))
        decreases Measure(cursor.bytes, cursor.pos, mode)
      {
        StepShrinks(cursor.bytes, cursor.pos, mode);
        cursor.ConsumeSpaces();
        var first := cursor.Peek();
        if first == None {
          return if mode == Set(false) then Err(ExpectedAByte(cursor.pos)) else Ok(None);
        }
        var command;
        if Digit(first.value) == None {
          command := ParseInstruction();
        } else if mode == Default {
          command := ParseAddressCommand();
        } else {
          command := ParseSetCommand();
        }
        if command.Err? || command.value.Some? {
          return command;
        }
      }
    }

    /** Reads a whole line, to see whether it means anything. */
    method Validate() returns (r: Result<(), ParseError>)
      requires Valid()
      modifies this, cursor
      ensures Valid()
      ensures var reading := Read(cursor.bytes, old(cursor.pos), old(mode));
              r == if reading.error.Some? then Err(reading.error.value) else Ok(())
    {
      hide Next, Measure;
      while true
        invariant Valid()
        invariant Read(cursor.bytes, cursor.pos, mode).error == Read(cursor.bytes, old(cursor.pos), old(mode)).error
        decreases Measure(cursor.bytes, cursor.pos, mode)
      {
        NextShrinks(cursor.bytes, cursor.pos, mode);
        var next := ParseNext();
        if next.Err? {
          return Err(next.error);
        }
        if next.value == None {
          return Ok(());
        }
      }
    }
  }
}
