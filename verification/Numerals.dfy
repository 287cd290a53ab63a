/** Hexadecimal numerals as people write them, and that the monitor's parser reads exactly these. */
module Numerals {
  import opened Wrappers
  import opened Blobs
  import opened Monitor

  const LOWER_DIGITS: string := "0123456789abcdef"
  const UPPER_DIGITS: string := "0123456789ABCDEF"

  /** This byte is the sign for `d`, in either case. */
  predicate Sign(c: Byte, d: nat) {
    d < 16 && (c == LOWER_DIGITS[d] as int || c == UPPER_DIGITS[d] as int)
  }

  predicate IsSign(c: Byte) {
    exists d: nat | d < 16 :: Sign(c, d)
  }

  /** The signs of `n`, each in any case, and any zeroes in front. */
  predicate Writes(t: Line, n: nat) {
    if t == [] then n == 0 else Sign(t[|t| - 1], n % 16) && Writes(t[..|t| - 1], n / 16)
  }

  predicate Numeral(t: Line, n: nat, max: nat) {
    0 < |t| <= max && Writes(t, n)
  }

  lemma LowerSign(d: nat)
    requires d < 16
    ensures LOWER_DIGITS[d] as int == if d < 10 then 0x30 + d else 0x61 + d - 10
  {
    var s := LOWER_DIGITS;
    assert s[0] == '0' && s[1] == '1' && s[2] == '2' && s[3] == '3' && s[4] == '4' && s[5] == '5' && s[6] == '6';
    assert s[7] == '7' && s[8] == '8' && s[9] == '9' && s[10] == 'a' && s[11] == 'b' && s[12] == 'c';
    assert s[13] == 'd' && s[14] == 'e' && s[15] == 'f';
  }

  lemma UpperSign(d: nat)
    requires d < 16
    ensures UPPER_DIGITS[d] as int == if d < 10 then 0x30 + d else 0x41 + d - 10
  {
    var s := UPPER_DIGITS;
    assert s[0] == '0' && s[1] == '1' && s[2] == '2' && s[3] == '3' && s[4] == '4' && s[5] == '5' && s[6] == '6';
    assert s[7] == '7' && s[8] == '8' && s[9] == '9' && s[10] == 'A' && s[11] == 'B' && s[12] == 'C';
    assert s[13] == 'D' && s[14] == 'E' && s[15] == 'F';
  }

  /** The parser knows the signs and no other byte. */
  lemma DigitIsSign(c: Byte, d: nat)
    ensures Digit(c) == Some(d) <==> Sign(c, d)
  {
    if d < 16 {
      LowerSign(d);
      UpperSign(d);
    }
  }

  lemma DigitsAreSigns(c: Byte)
    ensures Digit(c).Some? <==> IsSign(c)
  {
    hide Sign, Digit;
    if Digit(c).Some? {
      DigitIsSign(c, Digit(c).value);
    }
    if d: nat :| d < 16 && Sign(c, d) {
      DigitIsSign(c, d);
    }
  }

  lemma LastByte(line: Line, p: nat, k: nat)
    requires p + k <= |line| && k > 0
    ensures var t := line[p..p + k]; t[..|t| - 1] == line[p..p + (k - 1)] && t[|t| - 1] == line[p + k - 1]
  {
  }

  /** Reading the signs gives the number. */
  lemma {:induction false} WrittenNumber(line: Line, p: nat, k: nat, n: nat)
    requires p + k <= |line| && Writes(line[p..p + k], n)
    ensures (forall i | p <= i < p + k :: Digit(line[i]).Some?) && Number(line, p, k) == n
  {
    hide Digit, Sign;
    if k > 0 {
      var t := line[p..p + k];
      LastByte(line, p, k);
      WrittenNumber(line, p, k - 1, n / 16);
      DigitIsSign(line[p + k - 1], n % 16);
    }
  }

  lemma {:induction false} NumberWritten(line: Line, p: nat, k: nat)
    requires p + k <= |line| && forall i | p <= i < p + k :: Digit(line[i]).Some?
    ensures Writes(line[p..p + k], Number(line, p, k))
  {
    hide Digit, Sign;
    if k > 0 {
      var (t, n) := (line[p..p + k], Number(line, p, k));
      LastByte(line, p, k);
      NumberWritten(line, p, k - 1);
      DigitBelow(line, p + k - 1);
      Shifted(Number(line, p, k - 1), Digit(line[p + k - 1]).value);
      DigitIsSign(line[p + k - 1], n % 16);
    }
  }

  lemma Shifted(n: nat, d: nat)
    requires d < 16
    ensures (n * 16 + d) / 16 == n && (n * 16 + d) % 16 == d
  {
  }

  lemma DigitBelow(line: Line, i: nat)
    requires i < |line| && Digit(line[i]).Some?
    ensures Digit(line[i]).value < 16
  {
  }

  predicate Signs(t: Line) {
    forall c | c in t :: IsSign(c)
  }

  /** No numeral goes on at `e`. */
  predicate Ends(line: Line, e: nat) {
    e < |line| ==> !IsSign(line[e])
  }

  lemma {:induction false} RunIs(line: Line, p: nat, k: nat)
    requires p + k <= |line| && (forall i | p <= i < p + k :: Digit(line[i]).Some?)
    requires p + k < |line| ==> Digit(line[p + k]).None?
    ensures DigitRun(line, p) == k
    decreases k
  {
    if k > 0 {
      RunIs(line, p + 1, k - 1);
    }
  }

  lemma {:induction false} RunEnds(line: Line, p: nat)
    requires p <= |line|
    ensures var e := p + DigitRun(line, p); e < |line| ==> Digit(line[e]).None?
    decreases |line| - p
  {
    if p < |line| && Digit(line[p]).Some? {
      RunEnds(line, p + 1);
    }
  }

  /** A numeral is read back, whatever its case, or is too long. */
  lemma NumeralReads(line: Line, p: nat, k: nat, n: nat)
    requires k > 0 && p + k <= |line| && Writes(line[p..p + k], n) && Ends(line, p + k)
    ensures DigitRun(line, p) == k && Digit(line[p]).Some?
    ensures forall max: nat :: HexNumber(line, p, max) == if k > max then Err(TooLong(p + max)) else Ok((n, p + k))
  {
    hide Digit, IsSign;
    WrittenNumber(line, p, k, n);
    if p + k < |line| {
      DigitsAreSigns(line[p + k]);
    }
    RunIs(line, p, k);
  }

  /** And what is read back is a numeral. */
  lemma NumeralFound(line: Line, p: nat, max: nat)
    requires p <= |line|
    ensures match HexNumber(line, p, max)
            case Ok((n, e)) => p < e <= |line| && Numeral(line[p..e], n, max) && Ends(line, e)
            case Err(NoDigits) => p < |line| ==> !IsSign(line[p])
            case Err(TooLong(at)) =>
              at == p + max < |line| && IsSign(line[at]) && Signs(line[p..at])
  {
    var k := DigitRun(line, p);
    hide Digit, IsSign, Writes;
    RunEnds(line, p);
    if p + k < |line| {
      DigitsAreSigns(line[p + k]);
    }
    if k > 0 {
      NumberWritten(line, p, k);
    }
    if k > max {
      forall i | p <= i <= p + max
        ensures IsSign(line[i])
      {
        DigitsAreSigns(line[i]);
      }
    }
  }
}
