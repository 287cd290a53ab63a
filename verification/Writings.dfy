/**
 The monitor's language: what a line looks like as people write it, that the parser reads back the commands
 written, and that it accepts no other line.
*/
module Writings {
  import opened Wrappers
  import opened Blobs
  import opened Monitor
  import opened Numerals

  // ----- Lines

  predicate IsAddress(c: Command) {
    c.SetAddress? || c.ExamineOne?
  }

  predicate Blank(t: Line) {
    forall c | c in t :: c == ' ' as int
  }

  /** What may stand before a command: spaces, and colons. */
  predicate Lead(t: Line) {
    forall c | c in t :: c == ' ' as int || c == ':' as int
  }

  predicate HasColon(t: Line) {
    ':' as int in t
  }

  /** The text of a command. */
  ghost predicate Says(t: Line, c: Command) {
    match c
    case SetAddress(a) => Numeral(t, a, 16)
    case ExamineOne(a) => Numeral(t, a, 16)
    case ExamineContinuing(end) => SaysUntil(t, end)
    case StoreContinuing(byte) => Numeral(t, byte, 2)
    case Run => t == ['R' as int] || t == ['r' as int]
  }

  ghost predicate SaysUntil(t: Line, end: Word) {
    exists k: nat :: 0 < k < |t| && t[0] == '.' as int && Blank(t[1..k]) && Numeral(t[k..], end, 16)
  }

  /** A command as it is written, and what is written before it. */
  datatype Piece = Piece(lead: Line, text: Line)

  /**
   A command may be written so after what came before it. A store needs a colon, unless it follows another
   store. An address may have none before it and, after a store, needs more digits than a byte has. Where
   a numeral might run into the one before it, something stands between.
  */
  ghost predicate PieceFits(p: Piece, c: Command, mode: Mode, gap: bool) {
    && Lead(p.lead) && Says(p.text, c)
    && (IsAddress(c) ==> !HasColon(p.lead) && (mode == Default || (mode == Set(true) && |p.text| > 2)))
    && (c.StoreContinuing? ==> HasColon(p.lead) || mode.Set?)
    && (gap && (IsAddress(c) || c.StoreContinuing?) ==> p.lead != [])
  }

  function ModeAfter(c: Command): Mode {
    if c.StoreContinuing? then Set(true) else Default
  }

  /** The commands, one piece each, and nothing but spaces at the end. */
  ghost predicate Writing(pieces: seq<Piece>, cmds: seq<Command>, trail: Line, mode: Mode, gap: bool) {
    && |pieces| == |cmds|
    && if cmds == [] then Blank(trail) && mode != Set(false)
       else
         && PieceFits(pieces[0], cmds[0], mode, gap)
         && Writing(pieces[1..], cmds[1..], trail, ModeAfter(cmds[0]), !cmds[0].Run?)
  }

  function Text(pieces: seq<Piece>, trail: Line): Line {
    if pieces == [] then trail else pieces[0].lead + (pieces[0].text + Text(pieces[1..], trail))
  }

  /** The rest of the line, from `p` on, is these pieces. */
  ghost predicate Laid(line: Line, p: nat, pieces: seq<Piece>, trail: Line)
    decreases |pieces|
  {
    && p <= |line|
    && if pieces == [] then line[p..] == trail
       else
         var (q, e) := (p + |pieces[0].lead|, p + |pieces[0].lead| + |pieces[0].text|);
         && e <= |line| && line[p..q] == pieces[0].lead && line[q..e] == pieces[0].text
         && Laid(line, e, pieces[1..], trail)
  }

  lemma {:induction false} LaidIsText(line: Line, p: nat, pieces: seq<Piece>, trail: Line)
    requires p <= |line|
    ensures Laid(line, p, pieces, trail) <==> line[p..] == Text(pieces, trail)
    decreases |pieces|
  {
    if pieces != [] {
      var (lead, text, rest) := (pieces[0].lead, pieces[0].text, Text(pieces[1..], trail));
      var (q, e) := (p + |lead|, p + |lead| + |text|);
      if e <= |line| {
        LaidIsText(line, e, pieces[1..], trail);
        Spliced(line, p, lead, text, rest);
      }
    }
  }

  lemma Spliced(line: Line, p: nat, lead: Line, text: Line, rest: Line)
    requires p + |lead| + |text| <= |line|
    ensures var (q, e) := (p + |lead|, p + |lead| + |text|);
            line[p..] == lead + (text + rest) <==> line[p..q] == lead && line[q..e] == text && line[e..] == rest
  {
    var (q, e) := (p + |lead|, p + |lead| + |text|);
    var tail := line[p..];
    assert tail == line[p..q] + (line[q..e] + line[e..]);
    if tail == lead + (text + rest) {
      assert line[p..q] == tail[..|lead|] == lead;
      assert line[q..e] == tail[|lead|..][..|text|] == text;
      assert line[e..] == tail[|lead|..][|text|..] == rest;
    }
  }

  // ----- What the parser makes of the pieces

  lemma {:induction false} SkipIs(line: Line, p: nat, s: nat)
    requires p <= s <= |line| && (forall i | p <= i < s :: line[i] == SPACE) && (s < |line| ==> line[s] != SPACE)
    ensures SkipSpaces(line, p) == s
    decreases s - p
  {
    if p < s {
      SkipIs(line, p + 1, s);
    }
  }

  lemma {:induction false} SkipFacts(line: Line, p: nat)
    requires p <= |line|
    ensures var s := SkipSpaces(line, p); (forall i | p <= i < s :: line[i] == SPACE) && SkipSpaces(line, s) == s
    decreases |line| - p
  {
    if p < |line| && line[p] == SPACE {
      SkipFacts(line, p + 1);
    }
  }

  /** How a command's text starts. */
  lemma TextStarts(t: Line, c: Command)
    requires Says(t, c)
    ensures t != [] && t[0] != SPACE && t[0] != COLON
    ensures IsAddress(c) || c.StoreContinuing? ==> Digit(t[0]).Some? && !IsInstruction(t[0])
    ensures !IsAddress(c) && !c.StoreContinuing? ==> Digit(t[0]).None? && IsInstruction(t[0])
  {
    if IsAddress(c) || c.StoreContinuing? {
      var n: nat := match c case SetAddress(a) => a case ExamineOne(a) => a case StoreContinuing(b) => b case _ => 0;
      assert t[0..|t|] == t;
      WrittenNumber(t, 0, |t|, n);
    }
  }

  /** No numeral runs into the next piece. */
  lemma NextApart(line: Line, e: nat, pieces: seq<Piece>, cmds: seq<Command>, trail: Line, mode: Mode)
    requires Laid(line, e, pieces, trail) && Writing(pieces, cmds, trail, mode, true)
    ensures Ends(line, e)
  {
    if e < |line| {
      DigitsAreSigns(line[e]);
      if pieces == [] {
        assert line[e] == line[e..][0] && line[e] in trail;
      } else if pieces[0].lead != [] {
        var lead := pieces[0].lead;
        assert line[e] == line[e..e + |lead|][0] == lead[0] && lead[0] in lead;
      } else {
        TextStarts(pieces[0].text, cmds[0]);
        assert line[e] == line[e..e + |pieces[0].text|][0];
      }
    }
  }

  /** After an address, an instruction follows exactly when a command that is not an address does. */
  lemma WhatFollows(line: Line, e: nat, pieces: seq<Piece>, cmds: seq<Command>, trail: Line)
    requires Laid(line, e, pieces, trail) && Writing(pieces, cmds, trail, Default, true)
    ensures var q := SkipSpaces(line, e); q < |line| && IsInstruction(line[q]) <==> cmds != [] && !IsAddress(cmds[0])
  {
    var q := SkipSpaces(line, e);
    SkipFacts(line, e);
    if pieces == [] {
      BlankToEnd(line, e, trail);
    } else {
      FirstBeyond(line, e, pieces[0], cmds[0]);
      TextStarts(pieces[0].text, cmds[0]);
    }
  }

  lemma BlankToEnd(line: Line, e: nat, trail: Line)
    requires e <= |line| && line[e..] == trail && Blank(trail)
    ensures SkipSpaces(line, e) == |line|
  {
    forall i | e <= i < |line|
      ensures line[i] == SPACE
    {
      assert line[i] == trail[i - e] && trail[i - e] in trail;
    }
    SkipIs(line, e, |line|);
  }

  /** The first byte that is no space is a colon of the lead or the start of the text. */
  lemma FirstBeyond(line: Line, p: nat, piece: Piece, c: Command)
    requires Lead(piece.lead) && Says(piece.text, c)
    requires var (q, e) := (p + |piece.lead|, p + |piece.lead| + |piece.text|);
             e <= |line| && line[p..q] == piece.lead && line[q..e] == piece.text
    ensures var (s, q) := (SkipSpaces(line, p), p + |piece.lead|);
            && p <= s <= q < |line| && line[q] == piece.text[0]
            && if HasColon(piece.lead) then s < q && line[s] == COLON else s == q
  {
    var (s, q) := (SkipSpaces(line, p), p + |piece.lead|);
    TextStarts(piece.text, c);
    SkipFacts(line, p);
    assert line[q] == line[q..q + |piece.text|][0] == piece.text[0];
    forall i | p <= i < q
      ensures line[i] in piece.lead && (line[i] == SPACE || line[i] == COLON)
    {
      assert line[i] == piece.lead[i - p];
    }
    if HasColon(piece.lead) {
      var k :| 0 <= k < |piece.lead| && piece.lead[k] == ':' as int;
      assert line[p + k] == COLON;
    }
  }

  /** Passes that find no command may be skipped over. */
  lemma NextAfter(line: Line, pos: nat, mode: Mode, p: nat, m: Mode)
    requires pos <= |line| && Step(line, pos, mode) == Go(None, p, m)
    ensures p <= |line| && Next(line, pos, mode) == Next(line, p, m)
  {
    StepShrinks(line, pos, mode);
    hide Step;
  }

  lemma NextIsStep(line: Line, pos: nat, mode: Mode)
    requires pos <= |line| && (Step(line, pos, mode).Go? ==> Step(line, pos, mode).command.Some?)
    ensures Next(line, pos, mode) == Step(line, pos, mode)
  {
    hide Step;
  }

  lemma ColonPass(line: Line, pos: nat, mode: Mode)
    requires pos <= |line|
    requires var s := SkipSpaces(line, pos); s < |line| && line[s] == COLON
    ensures Step(line, pos, mode) == Go(None, SkipSpaces(line, pos) + 1, Set(false))
  {
    hide SkipSpaces, AddressStep, SetStep;
  }

  /** Reading a lead takes the parser to the text, expecting bytes if there was a colon. */
  lemma {:induction false} LeadPassed(line: Line, pos: nat, mode: Mode, q: nat) returns (p: nat)
    requires pos <= q < |line| && (forall i | pos <= i < q :: line[i] == SPACE || line[i] == COLON)
    requires line[q] != SPACE
    ensures pos <= p <= q && SkipSpaces(line, p) == q
    ensures Next(line, pos, mode) ==
              Next(line, p, if exists i :: pos <= i < q && line[i] == COLON then Set(false) else mode)
    decreases q - pos
  {
    hide Next, Step, SkipSpaces;
    var s := SkipSpaces(line, pos);
    SkipFacts(line, pos);
    if s >= q {
      SkipIs(line, pos, q);
      p := pos;
    } else {
      ColonPass(line, pos, mode);
      NextAfter(line, pos, mode, s + 1, Set(false));
      p := LeadPassed(line, s + 1, Set(false), q);
    }
  }

  /** An address read as somewhere to go on from exactly when something that is not an address follows. */
  function Labelled(c: Command, rest: seq<Command>): Command {
    if !IsAddress(c) then c
    else if rest != [] && !IsAddress(rest[0]) then SetAddress(c.address) else ExamineOne(c.address)
  }

  function Normal(cmds: seq<Command>): (n: seq<Command>)
    ensures |n| == |cmds|
  {
    if cmds == [] then [] else [Labelled(cmds[0], cmds[1..])] + Normal(cmds[1..])
  }

  /** The next pass finds this command, whose text ends at `e` but for spaces. */
  ghost predicate Found(line: Line, pos: nat, mode: Mode, e: nat, c: Command)
    requires pos <= |line|
  {
    var s := Next(line, pos, mode);
    && s.Go? && s.command == Some(c) && s.mode == ModeAfter(c)
    && e <= s.pos <= |line| && forall i | e <= i < s.pos :: line[i] == SPACE
  }

  lemma AddressFound(line: Line, pos: nat, mode: Mode, q: nat, e: nat, a: Word)
    requires pos <= q < e <= |line| && SkipSpaces(line, pos) == q && Numeral(line[q..e], a, 16) && Ends(line, e)
    requires mode == Default || (mode == Set(true) && e - q > 2)
    ensures var s := SkipSpaces(line, e);
            Found(line, pos, mode, e, if s < |line| && IsInstruction(line[s]) then SetAddress(a) else ExamineOne(a))
  {
    hide Next, Digit, IsSign, Writes, IsInstruction, HexNumber, DigitRun, Number, AddressStep, SetStep;
    NumeralReads(line, q, e - q, a);
    SkipFacts(line, e);
    SkipFacts(line, pos);
    DigitStepIs(line, pos);
    DigitStepIs(line, q);
    if mode == Set(true) {
      TooLongForByte(line, q, e - q);
      NextAfter(line, pos, mode, q, Default);
    }
    AddressStepIs(line, q, e, a);
    NextIsStep(line, if mode == Default then pos else q, Default);
  }

  lemma DigitStepIs(line: Line, pos: nat)
    requires pos <= |line| && SkipSpaces(line, pos) < |line| && Digit(line[SkipSpaces(line, pos)]).Some?
    ensures Step(line, pos, Default) == AddressStep(line, SkipSpaces(line, pos), Default)
    ensures forall any: bool :: Step(line, pos, Set(any)) == SetStep(line, SkipSpaces(line, pos), Set(any))
  {
    hide AddressStep, SetStep, SkipSpaces, Digit;
  }

  lemma TooLongForByte(line: Line, q: nat, k: nat)
    requires q <= |line| && k > 2 && HexNumber(line, q, 2) == Err(TooLong(q + 2))
    ensures SetStep(line, q, Set(true)) == Go(None, q, Default)
  {
    hide HexNumber;
  }

  lemma AddressStepIs(line: Line, p: nat, e: nat, a: Word)
    requires p <= e <= |line| && HexNumber(line, p, MAX_ADDRESS_DIGITS) == Ok((a, e))
    ensures var q := SkipSpaces(line, e);
            AddressStep(line, p, Default) ==
            Go(Some(if q < |line| && IsInstruction(line[q]) then SetAddress(a) else ExamineOne(a)), q, Default)
  {
    hide HexNumber, SkipSpaces, IsInstruction;
  }

  lemma StoreFound(line: Line, pos: nat, mode: Mode, q: nat, e: nat, b: Byte)
    requires pos <= q < e <= |line| && SkipSpaces(line, pos) == q && Numeral(line[q..e], b, 2) && Ends(line, e)
    requires mode.Set?
    ensures Found(line, pos, mode, e, StoreContinuing(b))
  {
    hide Next, Digit, IsSign, Writes, HexNumber, AddressStep;
    NumeralReads(line, q, e - q, b);
    DigitStepIs(line, pos);
    hide SkipSpaces, Step;
    NextIsStep(line, pos, mode);
  }

  lemma UntilFound(line: Line, pos: nat, mode: Mode, q: nat, e: nat, end: Word)
    requires pos <= q < e <= |line| && SkipSpaces(line, pos) == q && SaysUntil(line[q..e], end) && Ends(line, e)
    ensures Found(line, pos, mode, e, ExamineContinuing(end))
  {
    hide Next, Digit, IsSign, Writes, HexNumber, DigitRun, Number, SkipSpaces, AddressStep, SetStep, Step;
    var p := UntilPlace(line, q, e, end);
    NumeralReads(line, p, e - p, end);
    NotASpace(line, p);
    SkipIs(line, q + 1, p);
    UntilStepIs(line, pos, mode, p, e, end);
    NextIsStep(line, pos, mode);
  }

  /** Where its numeral starts. */
  lemma UntilPlace(line: Line, q: nat, e: nat, end: Word) returns (p: nat)
    requires q < e <= |line| && SaysUntil(line[q..e], end)
    ensures q < p < e && line[q] == DOT && (forall i | q < i < p :: line[i] == SPACE) && Numeral(line[p..e], end, 16)
  {
    var t := line[q..e];
    var k: nat :| 0 < k < |t| && t[0] == '.' as int && Blank(t[1..k]) && Numeral(t[k..], end, 16);
    p := q + k;
    hide Writes;
    assert t[k..] == line[p..e] && line[q] == t[0];
    forall i | q < i < p
      ensures line[i] == SPACE
    {
      assert line[i] == t[1..k][i - q - 1] && line[i] in t[1..k];
    }
  }

  lemma NotASpace(line: Line, p: nat)
    requires p < |line| && Digit(line[p]).Some?
    ensures line[p] != SPACE && line[p] != COLON
  {
  }

  lemma UntilStepIs(line: Line, pos: nat, mode: Mode, p: nat, e: nat, end: Word)
    requires pos <= |line|
    requires var q := SkipSpaces(line, pos);
             && q < |line| && line[q] == DOT && SkipSpaces(line, q + 1) == p
             && HexNumber(line, p, MAX_ADDRESS_DIGITS) == Ok((end, e))
    ensures Step(line, pos, mode) == Go(Some(ExamineContinuing(end)), e, Default)
  {
    hide SkipSpaces, HexNumber;
  }

  lemma RunFound(line: Line, pos: nat, mode: Mode, q: nat)
    requires pos <= q < |line| && SkipSpaces(line, pos) == q && (line[q] == UPPER_R || line[q] == LOWER_R)
    ensures Found(line, pos, mode, q + 1, Run)
  {
    assert Step(line, pos, mode) == Go(Some(Run), q + 1, Default) by {
      hide SkipSpaces, AddressAt, AddressStep, SetStep;
    }
    hide Step, Next;
    NextIsStep(line, pos, mode);
  }

  /** A piece that fits is read as the command it says, labelled by what comes after. */
  lemma PieceFound(line: Line, pos: nat, mode: Mode, q: nat, e: nat, t: Line, c: Command, pieces: seq<Piece>,
                   cmds: seq<Command>, trail: Line)
    requires pos <= q <= e <= |line| && SkipSpaces(line, pos) == q && line[q..e] == t && Says(t, c)
    requires IsAddress(c) ==> mode == Default || (mode == Set(true) && |t| > 2)
    requires c.StoreContinuing? ==> mode.Set?
    requires Laid(line, e, pieces, trail) && Writing(pieces, cmds, trail, ModeAfter(c), !c.Run?)
    ensures Found(line, pos, mode, e, Labelled(c, cmds))
  {
    TextStarts(t, c);
    hide Laid, Writing, Found, Writes, IsSign, SkipSpaces, IsInstruction;
    if !c.Run? {
      NextApart(line, e, pieces, cmds, trail, ModeAfter(c));
    }
    match c {
      case SetAddress(a) =>
        WhatFollows(line, e, pieces, cmds, trail);
        AddressFound(line, pos, mode, q, e, a);
      case ExamineOne(a) =>
        WhatFollows(line, e, pieces, cmds, trail);
        AddressFound(line, pos, mode, q, e, a);
      case ExamineContinuing(end) => UntilFound(line, pos, mode, q, e, end);
      case StoreContinuing(b) => StoreFound(line, pos, mode, q, e, b);
      case Run =>
        assert line[q] == t[0];
        RunFound(line, pos, mode, q);
    }
  }

  /** Pieces laid from `p` on are read as their commands, from any place among the spaces there. */
  lemma {:induction false} LaidReads(line: Line, p: nat, pos: nat, mode: Mode, gap: bool, pieces: seq<Piece>,
                                     cmds: seq<Command>, trail: Line)
    requires Writing(pieces, cmds, trail, mode, gap) && Laid(line, p, pieces, trail)
    requires p <= pos <= |line| && forall i | p <= i < pos :: line[i] == SPACE
    ensures Read(line, pos, mode) == Reading(Normal(cmds), None)
    decreases |cmds|
  {
    hide Found, PieceFits, Read, Labelled, ModeAfter;
    if cmds == [] {
      EndReads(line, p, pos, mode, trail);
    } else {
      var (c, e) := (cmds[0], p + |pieces[0].lead| + |pieces[0].text|);
      LaidTail(line, p, pieces, trail);
      WritingTail(pieces, cmds, trail, mode, gap);
      hide Laid, Writing;
      PieceRead(line, p, pos, mode, gap, pieces[0], c, pieces[1..], cmds[1..], trail);
      var at := ReadOn(line, pos, mode, e, Labelled(c, cmds[1..]));
      SameMode(c, cmds[1..]);
      LaidReads(line, e, at, ModeAfter(c), !c.Run?, pieces[1..], cmds[1..], trail);
    }
  }

  lemma EndReads(line: Line, p: nat, pos: nat, mode: Mode, trail: Line)
    requires p <= pos <= |line| && line[p..] == trail && Blank(trail) && mode != Set(false)
    ensures Read(line, pos, mode) == Reading([], None)
  {
    assert forall c | c in line[pos..] :: c in trail;
    BlankToEnd(line, pos, line[pos..]);
    hide SkipSpaces;
  }

  /** A command found is read, and then what comes after it. */
  lemma ReadOn(line: Line, pos: nat, mode: Mode, e: nat, c: Command) returns (at: nat)
    requires pos <= |line| && Found(line, pos, mode, e, c)
    ensures e <= at <= |line| && forall i | e <= i < at :: line[i] == SPACE
    ensures var rest := Read(line, at, ModeAfter(c));
            Read(line, pos, mode) == Reading([c] + rest.commands, rest.error)
  {
    NextShrinks(line, pos, mode);
    hide Next, Measure;
    at := Next(line, pos, mode).pos;
  }

  lemma SameMode(c: Command, rest: seq<Command>)
    ensures ModeAfter(Labelled(c, rest)) == ModeAfter(c)
  {
  }

  /** The lead is read, and then the text. */
  lemma PieceRead(line: Line, p: nat, pos: nat, mode: Mode, gap: bool, piece: Piece, c: Command, pieces: seq<Piece>,
                  cmds: seq<Command>, trail: Line)
    requires PieceFits(piece, c, mode, gap)
    requires var (q, e) := (p + |piece.lead|, p + |piece.lead| + |piece.text|);
             && e <= |line| && line[p..q] == piece.lead && line[q..e] == piece.text
             && Laid(line, e, pieces, trail) && Writing(pieces, cmds, trail, ModeAfter(c), !c.Run?)
    requires p <= pos <= |line| && forall i | p <= i < pos :: line[i] == SPACE
    ensures Found(line, pos, mode, p + |piece.lead| + |piece.text|, Labelled(c, cmds))
  {
    var (q, e) := (p + |piece.lead|, p + |piece.lead| + |piece.text|);
    FirstBeyond(line, p, piece, c);
    TextStarts(piece.text, c);
    LeadBytes(line, p, piece.lead, q);
    SpacesBefore(line, p, pos, q);
    hide Next, SkipSpaces, Says, Laid, Writing, Lead, HasColon, Labelled;
    var at := LeadPassed(line, pos, mode, q);
    var m := if HasColon(piece.lead) then Set(false) else mode;
    assert Next(line, pos, mode) == Next(line, at, m);
    PieceFound(line, at, m, q, e, piece.text, c, pieces, cmds, trail);
  }

  lemma LaidTail(line: Line, p: nat, pieces: seq<Piece>, trail: Line)
    requires Laid(line, p, pieces, trail) && pieces != []
    ensures var (q, e) := (p + |pieces[0].lead|, p + |pieces[0].lead| + |pieces[0].text|);
            && e <= |line| && line[p..q] == pieces[0].lead && line[q..e] == pieces[0].text
            && Laid(line, e, pieces[1..], trail)
  {
  }

  lemma WritingTail(pieces: seq<Piece>, cmds: seq<Command>, trail: Line, mode: Mode, gap: bool)
    requires Writing(pieces, cmds, trail, mode, gap) && cmds != []
    ensures pieces != [] && PieceFits(pieces[0], cmds[0], mode, gap)
    ensures Writing(pieces[1..], cmds[1..], trail, ModeAfter(cmds[0]), !cmds[0].Run?)
  {
  }

  lemma LeadBytes(line: Line, p: nat, lead: Line, q: nat)
    requires p <= q == p + |lead| <= |line| && line[p..q] == lead && Lead(lead)
    ensures forall i | p <= i < q :: line[i] == SPACE || line[i] == COLON
    ensures HasColon(lead) <==> exists i :: p <= i < q && line[i] == COLON
  {
    forall i | p <= i < q
      ensures line[i] == lead[i - p] && line[i] in lead
    {
    }
    if HasColon(lead) {
      var k :| 0 <= k < |lead| && lead[k] == ':' as int;
      assert line[p + k] == COLON;
    }
  }

  lemma SpacesBefore(line: Line, p: nat, pos: nat, q: nat)
    requires p <= pos <= |line| && p <= q < |line| && line[q] != SPACE && forall i | p <= i < pos :: line[i] == SPACE
    ensures pos <= q
    ensures (exists i :: p <= i < q && line[i] == COLON) <==> exists i :: pos <= i < q && line[i] == COLON
  {
  }

  /** However a list of commands is written, it is read back, each address relabelled by what follows it. */
  lemma WrittenIsRead(pieces: seq<Piece>, cmds: seq<Command>, trail: Line)
    requires Writing(pieces, cmds, trail, Default, false)
    ensures Read(Text(pieces, trail), 0, Default) == Reading(Normal(cmds), None)
  {
    var line := Text(pieces, trail);
    assert line[0..] == line;
    LaidIsText(line, 0, pieces, trail);
    LaidReads(line, 0, 0, Default, false, pieces, cmds, trail);
  }

  // ----- What is read was written

  /** Spaces in front of the pieces belong to them. */
  lemma Indented(line: Line, a: nat, b: nat, pieces: seq<Piece>, cmds: seq<Command>, trail: Line, mode: Mode,
                 gap: bool)
    returns (pieces': seq<Piece>, trail': Line)
    requires a <= b <= |line| && (forall i | a <= i < b :: line[i] == SPACE)
    requires Laid(line, b, pieces, trail) && Writing(pieces, cmds, trail, mode, false) && (gap ==> Ends(line, a))
    ensures Laid(line, a, pieces', trail') && Writing(pieces', cmds, trail', mode, gap)
  {
    if cmds == [] {
      assert line[a..b] + line[b..] == line[a..];
      pieces', trail' := [], line[a..];
    } else {
      hide Says, IsSign, PieceFits;
      WritingTail(pieces, cmds, trail, mode, false);
      LaidTail(line, b, pieces, trail);
      IndentedFits(line, a, b, pieces[0], cmds[0], mode, gap);
      pieces' := Longer(line, a, b, pieces, trail);
      trail' := trail;
      Recast(pieces, pieces', cmds, trail, mode, false, mode, gap);
    }
  }

  lemma IndentedFits(line: Line, a: nat, b: nat, piece: Piece, c: Command, mode: Mode, gap: bool)
    requires a <= b && (forall i | a <= i < b :: i < |line| && line[i] == SPACE) && PieceFits(piece, c, mode, false)
    requires var (q, e) := (b + |piece.lead|, b + |piece.lead| + |piece.text|);
             e <= |line| && line[b..q] == piece.lead && line[q..e] == piece.text
    requires gap ==> Ends(line, a)
    ensures PieceFits(Piece(line[a..b] + piece.lead, piece.text), c, mode, gap)
  {
    TextStarts(piece.text, c);
    hide Says, IsSign;
    if a == b && piece.lead == [] {
      assert line[a] == line[a..a + |piece.text|][0];
      DigitsAreSigns(line[a]);
    }
    LeadMore(line[a..b], piece.lead);
  }

  /** Only how the first piece fits depends on what came before. */
  lemma Recast(pieces: seq<Piece>, pieces': seq<Piece>, cmds: seq<Command>, trail: Line, mode: Mode, gap: bool,
               mode': Mode, gap': bool)
    requires cmds != [] && Writing(pieces, cmds, trail, mode, gap)
    requires |pieces'| == |pieces| && pieces'[1..] == pieces[1..] && PieceFits(pieces'[0], cmds[0], mode', gap')
    ensures Writing(pieces', cmds, trail, mode', gap')
  {
    hide PieceFits;
  }

  /** The first piece with a longer lead. */
  lemma Longer(line: Line, a: nat, b: nat, pieces: seq<Piece>, trail: Line) returns (pieces': seq<Piece>)
    requires a <= b <= |line| && Laid(line, b, pieces, trail) && pieces != []
    ensures |pieces'| == |pieces| && pieces'[1..] == pieces[1..]
    ensures pieces'[0] == Piece(line[a..b] + pieces[0].lead, pieces[0].text)
    ensures Laid(line, a, pieces', trail)
  {
    LaidTail(line, b, pieces, trail);
    var q := b + |pieces[0].lead|;
    assert line[a..q] == line[a..b] + line[b..q];
    pieces' := [Piece(line[a..b] + pieces[0].lead, pieces[0].text)] + pieces[1..];
    assert pieces'[1..] == pieces[1..];
  }

  lemma LeadMore(more: Line, lead: Line)
    requires Lead(lead) && Lead(more)
    ensures Lead(more + lead) && (HasColon(more + lead) <==> HasColon(more) || HasColon(lead))
  {
  }

  /** A colon goes into the lead of what follows it. */
  lemma Coloned(line: Line, a: nat, b: nat, pieces: seq<Piece>, cmds: seq<Command>, trail: Line, mode: Mode)
    returns (pieces': seq<Piece>)
    requires a < b <= |line| && (forall i | a <= i < b - 1 :: line[i] == SPACE) && line[b - 1] == COLON
    requires Laid(line, b, pieces, trail) && Writing(pieces, cmds, trail, Set(false), false)
    ensures Laid(line, a, pieces', trail) && Writing(pieces', cmds, trail, mode, false)
  {
    hide Laid, Says;
    WritingTail(pieces, cmds, trail, Set(false), false);
    hide Writing;
    pieces' := Longer(line, a, b, pieces, trail);
    assert line[b - 1] == line[a..b][b - 1 - a] && HasColon(line[a..b]);
    LeadMore(line[a..b], pieces[0].lead);
    Recast(pieces, pieces', cmds, trail, Set(false), false, mode, false);
  }

  /** What reads as an address because it is too long for a byte is written with more than two digits. */
  lemma LongEnough(line: Line, q: nat, pieces: seq<Piece>, cmds: seq<Command>, trail: Line)
    requires Laid(line, q, pieces, trail) && Writing(pieces, cmds, trail, Default, false)
    requires q < |line| && Digit(line[q]).Some? && DigitRun(line, q) > 2
    ensures Writing(pieces, cmds, trail, Set(true), false)
  {
    hide Laid, Writing, Says, Writes, IsSign, Digit, DigitRun, PieceFits, Ends;
    SomethingWritten(line, q, pieces, cmds, trail);
    WritingTail(pieces, cmds, trail, Default, false);
    LaidTail(line, q, pieces, trail);
    FitsSays(pieces[0], cmds[0], Default, false);
    var c := cmds[0];
    DigitFirst(line, q, pieces[0], c);
    NextApart(line, q + |pieces[0].text|, pieces[1..], cmds[1..], trail, ModeAfter(c));
    AddressLength(line, q, pieces[0].text, c);
    OtherMode(pieces, cmds, trail);
  }

  lemma FitsSays(piece: Piece, c: Command, mode: Mode, gap: bool)
    requires PieceFits(piece, c, mode, gap)
    ensures Says(piece.text, c)
  {
  }

  lemma SomethingWritten(line: Line, q: nat, pieces: seq<Piece>, cmds: seq<Command>, trail: Line)
    requires Laid(line, q, pieces, trail) && Writing(pieces, cmds, trail, Default, false)
    requires q < |line| && Digit(line[q]).Some?
    ensures cmds != []
  {
    NotASpace(line, q);
    TrailIsBlank(line, q, trail);
    hide Digit, PieceFits;
  }

  lemma DigitFirst(line: Line, q: nat, piece: Piece, c: Command)
    requires PieceFits(piece, c, Default, false) && q < |line| && Digit(line[q]).Some?
    requires var (p, e) := (q + |piece.lead|, q + |piece.lead| + |piece.text|);
             e <= |line| && line[q..p] == piece.lead && line[p..e] == piece.text
    ensures piece.lead == [] && IsAddress(c)
  {
    TextStarts(piece.text, c);
    NotASpace(line, q);
    LeadBytes(line, q, piece.lead, q + |piece.lead|);
    hide Says, Digit;
    assert piece.lead == [] ==> line[q] == piece.text[0];
  }

  lemma TrailIsBlank(line: Line, q: nat, trail: Line)
    ensures q < |line| && line[q..] == trail && Blank(trail) ==> line[q] == SPACE
  {
    if q < |line| && line[q..] == trail {
      assert line[q] == line[q..][0] && line[q] in trail;
    }
  }

  lemma AddressLength(line: Line, q: nat, t: Line, c: Command)
    requires IsAddress(c) && Says(t, c) && q + |t| <= |line| && line[q..q + |t|] == t && Ends(line, q + |t|)
    ensures DigitRun(line, q) == |t|
  {
    hide Writes, IsSign;
    NumeralReads(line, q, |t|, c.address);
  }

  lemma OtherMode(pieces: seq<Piece>, cmds: seq<Command>, trail: Line)
    requires Writing(pieces, cmds, trail, Default, false) && cmds != [] && pieces != [] && |pieces[0].text| > 2
    requires IsAddress(cmds[0])
    ensures Writing(pieces, cmds, trail, Set(true), false)
  {
    hide Says, Writing;
    WritingTail(pieces, cmds, trail, Default, false);
    Recast(pieces, pieces, cmds, trail, Default, false, Set(true), false);
  }

  /** One command more. */
  lemma Added(line: Line, a: nat, q: nat, e: nat, c: Command, mode: Mode, pieces: seq<Piece>, cmds: seq<Command>,
              trail: Line)
    requires a <= q <= e <= |line| && (forall i | a <= i < q :: line[i] == SPACE) && Says(line[q..e], c)
    requires Laid(line, e, pieces, trail) && Writing(pieces, cmds, trail, ModeAfter(c), !c.Run?)
    requires (IsAddress(c) ==> mode == Default) && (c.StoreContinuing? ==> mode.Set?)
    ensures var all := [Piece(line[a..q], line[q..e])] + pieces;
            Laid(line, a, all, trail) && Writing(all, [c] + cmds, trail, mode, false)
  {
    var all := [Piece(line[a..q], line[q..e])] + pieces;
    assert all[1..] == pieces && ([c] + cmds)[1..] == cmds;
  }

  /** A pass without a command takes a colon, or goes back to read a long number as an address. */
  lemma SilentPass(line: Line, pos: nat, mode: Mode)
    requires pos <= |line| && Step(line, pos, mode).Go? && Step(line, pos, mode).command == None
    ensures var (s, q) := (Step(line, pos, mode), SkipSpaces(line, pos));
            && q < |line|
            && if line[q] == COLON then s.pos == q + 1 && s.mode == Set(false)
               else
                 && mode == Set(true) && s.pos == q && s.mode == Default
                 && Digit(line[q]).Some? && DigitRun(line, q) > 2
  {
    var q := SkipSpaces(line, pos);
    hide SkipSpaces, Digit, Number;
    if q < |line| && Digit(line[q]).Some? {
      NotASpace(line, q);
      HexFits(line, q, MAX_BYTE_DIGITS);
    }
  }

  /** A pass with a command has read its text. */
  lemma CommandPass(line: Line, pos: nat, mode: Mode) returns (e: nat)
    requires pos <= |line| && Step(line, pos, mode).Go? && Step(line, pos, mode).command.Some?
    ensures var (s, q) := (Step(line, pos, mode), SkipSpaces(line, pos));
            && q <= e <= s.pos <= |line| && (forall i | e <= i < s.pos :: line[i] == SPACE)
            && Says(line[q..e], s.command.value) && s.mode == ModeAfter(s.command.value)
            && (IsAddress(s.command.value) ==> mode == Default)
            && (s.command.value.StoreContinuing? ==> mode.Set?)
            && (s.command.value.Run? || Ends(line, e))
  {
    var q := SkipSpaces(line, pos);
    hide SkipSpaces, Digit, Writes, IsSign, AddressStep, SetStep, InstructionStep, Says;
    if Digit(line[q]).None? {
      e := InstructionRead(line, q, mode);
    } else if mode == Default {
      e := AddressRead(line, q);
    } else {
      e := StoreRead(line, q, mode);
    }
  }

  lemma AddressRead(line: Line, q: nat) returns (e: nat)
    requires q <= |line| && AddressStep(line, q, Default).Go?
    ensures var s := AddressStep(line, q, Default);
            && q <= e <= s.pos <= |line| && (forall i | e <= i < s.pos :: line[i] == SPACE) && Ends(line, e)
            && s.command.Some? && IsAddress(s.command.value) && s.mode == Default && Says(line[q..e], s.command.value)
  {
    hide SkipSpaces, Digit, Writes, IsSign, HexNumber;
    NumeralFound(line, q, MAX_ADDRESS_DIGITS);
    e := AddressAt(line, q).value.1;
    SkipFacts(line, e);
  }

  lemma StoreRead(line: Line, q: nat, mode: Mode) returns (e: nat)
    requires q <= |line| && SetStep(line, q, mode).Go? && SetStep(line, q, mode).command.Some?
    ensures var s := SetStep(line, q, mode);
            && q <= e == s.pos <= |line| && Ends(line, e)
            && s.command.value.StoreContinuing? && s.mode == Set(true) && Says(line[q..e], s.command.value)
  {
    hide Digit, Writes, IsSign, HexNumber;
    NumeralFound(line, q, MAX_BYTE_DIGITS);
    e := ByteAt(line, q).value.1;
  }

  lemma InstructionRead(line: Line, q: nat, mode: Mode) returns (e: nat)
    requires q < |line| && InstructionStep(line, q, mode).Go? && InstructionStep(line, q, mode).command.Some?
    ensures var s := InstructionStep(line, q, mode);
            && q <= e == s.pos <= |line| && !IsAddress(s.command.value) && !s.command.value.StoreContinuing?
            && s.mode == Default && Says(line[q..e], s.command.value) && (s.command.value.Run? || Ends(line, e))
  {
    hide SkipSpaces, Digit, Writes, IsSign, HexNumber;
    if line[q] == DOT {
      var p := SkipSpaces(line, q + 1);
      SkipFacts(line, q + 1);
      NumeralFound(line, p, MAX_ADDRESS_DIGITS);
      e := AddressAt(line, p).value.1;
      var (t, k) := (line[q..e], p - q);
      assert t[k..] == line[p..e] && t[0] == line[q];
      forall c | c in t[1..k]
        ensures c == ' ' as int
      {
        var i :| 0 <= i < k - 1 && t[1..k][i] == c;
        assert c == line[q + 1 + i];
      }
    } else {
      e := q + 1;
      assert line[q..e] == [line[q]];
    }
  }

  /** Whatever is read without an error was written. */
  lemma {:induction false} ReadIsWritten(line: Line, pos: nat, mode: Mode) returns (pieces: seq<Piece>, trail: Line)
    requires pos <= |line| && Read(line, pos, mode).error == None
    ensures Laid(line, pos, pieces, trail) && Writing(pieces, Read(line, pos, mode).commands, trail, mode, false)
    decreases Measure(line, pos, mode)
  {
    var (q, s) := (SkipSpaces(line, pos), Step(line, pos, mode));
    SkipFacts(line, pos);
    StepShrinks(line, pos, mode);
    ReadBySteps(line, pos, mode);
    hide Read, SkipSpaces, Laid, Writing, Measure, Step;
    if s.Stop? {
      pieces, trail := [], line[pos..];
      NothingWritten(line, pos, mode);
    } else {
      pieces, trail := ReadIsWritten(line, s.pos, s.mode);
      pieces, trail := PassWritten(line, pos, mode, pieces, Read(line, s.pos, s.mode).commands, trail);
    }
  }

  /** What one pass read goes in front of what the others did. */
  lemma PassWritten(line: Line, pos: nat, mode: Mode, rest: seq<Piece>, cmds: seq<Command>, end: Line)
    returns (pieces: seq<Piece>, trail: Line)
    requires pos <= |line| && Step(line, pos, mode).Go?
    requires var s := Step(line, pos, mode); Laid(line, s.pos, rest, end) && Writing(rest, cmds, end, s.mode, false)
    ensures var s := Step(line, pos, mode);
            && Laid(line, pos, pieces, trail)
            && Writing(pieces, (if s.command == None then [] else [s.command.value]) + cmds, trail, mode, false)
  {
    var (q, s) := (SkipSpaces(line, pos), Step(line, pos, mode));
    SkipFacts(line, pos);
    StepShrinks(line, pos, mode);
    hide SkipSpaces, Laid, Writing, Measure, Step, Says, Digit, DigitRun;
    if s.command == None {
      assert [] + cmds == cmds;
      SilentPass(line, pos, mode);
      if line[q] == COLON {
        pieces := Coloned(line, pos, q + 1, rest, cmds, end, mode);
        trail := end;
      } else {
        LongEnough(line, q, rest, cmds, end);
        pieces, trail := Indented(line, pos, q, rest, cmds, end, mode, false);
      }
    } else {
      var c := s.command.value;
      var e := CommandPass(line, pos, mode);
      pieces, trail := Indented(line, e, s.pos, rest, cmds, end, s.mode, !c.Run?);
      Added(line, pos, q, e, c, mode, pieces, cmds, trail);
      pieces := [Piece(line[pos..q], line[q..e])] + pieces;
    }
  }

  lemma NothingWritten(line: Line, pos: nat, mode: Mode)
    requires pos <= |line| && SkipSpaces(line, pos) == |line| && mode != Set(false)
    ensures Laid(line, pos, [], line[pos..]) && Writing([], [], line[pos..], mode, false)
  {
    SkipFacts(line, pos);
  }

  /** Reading, pass by pass. */
  lemma ReadBySteps(line: Line, pos: nat, mode: Mode)
    requires pos <= |line|
    ensures var (s, r) := (Step(line, pos, mode), Read(line, pos, mode));
            match s
            case Stop => r == Reading([], None)
            case Fail(error) => r == Reading([], Some(error))
            case Go(command, p, m) =>
              && p <= |line|
              && var rest := Read(line, p, m);
                 r == Reading((if command == None then [] else [command.value]) + rest.commands, rest.error)
  {
    StepShrinks(line, pos, mode);
    var s := Step(line, pos, mode);
    if s.Go? && s.command == None {
      NextAfter(line, pos, mode, s.pos, s.mode);
    } else {
      NextIsStep(line, pos, mode);
    }
    hide Step, Next, Measure;
  }

  /** A line that says some commands. */
  ghost predicate IsWriting(line: Line, cmds: seq<Command>) {
    exists pieces: seq<Piece>, trail: Line ::
      Writing(pieces, cmds, trail, Default, false) && line == Text(pieces, trail)
  }

  /** The parser accepts a line exactly when it is a writing of some commands. */
  lemma AcceptsWritings(line: Line)
    ensures Read(line, 0, Default).error == None <==> exists cmds: seq<Command> :: IsWriting(line, cmds)
  {
    if Read(line, 0, Default).error == None {
      hide Read;
      var pieces, trail := ReadIsWritten(line, 0, Default);
      assert line[0..] == line;
      LaidIsText(line, 0, pieces, trail);
      assert IsWriting(line, Read(line, 0, Default).commands);
    } else if cmds: seq<Command> :| IsWriting(line, cmds) {
      hide Read;
      WritingIsRead(line, cmds);
    }
  }

  lemma WritingIsRead(line: Line, cmds: seq<Command>)
    requires IsWriting(line, cmds)
    ensures Read(line, 0, Default) == Reading(Normal(cmds), None)
  {
    hide Read, Text, Writing;
    var pieces, trail :| Writing(pieces, cmds, trail, Default, false) && line == Text(pieces, trail);
    WrittenIsRead(pieces, cmds, trail);
  }
}
