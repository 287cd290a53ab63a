/** Powers of two, alignment and the bit operations the allocator does on page frame numbers. */
module Bits {

  function Pow2(k: nat): (r: nat)
    ensures r >= 1
  {
    if k == 0 then 1 else 2 * Pow2(k - 1)
  }

  /** `n` is a multiple of 2^k, stated bit by bit so that proofs halve both sides. */
  predicate Aligned(n: nat, k: nat) {
    k == 0 || (n % 2 == 0 && Aligned(n / 2, k - 1))
  }

  /** Rust's `a ^ b` on unsigned integers. */
  function Xor(a: nat, b: nat): (r: nat)
    decreases a + b
  {
    if a == 0 && b == 0 then 0
    else 2 * Xor(a / 2, b / 2) + (if a % 2 == b % 2 then 0 else 1)
  }

  /** `usize::trailing_zeros`: 64 for zero, as the instruction answers. */
  function TrailingZeros(n: nat): nat {
    if n == 0 then 64
    else if n % 2 == 1 then 0
    else 1 + TrailingZeros(n / 2)
  }

  /** `usize::ilog2`. */
  function ILog2(n: nat): nat
    requires n >= 1
  {
    if n == 1 then 0 else 1 + ILog2(n / 2)
  }

  lemma {:induction false} Pow2Monotonic(j: nat, k: nat)
    requires j <= k
    ensures Pow2(j) <= Pow2(k)
    ensures j < k ==> 2 * Pow2(j) <= Pow2(k)
  {
    if j < k {
      Pow2Monotonic(j, k - 1);
    }
  }

  /** `Aligned` is divisibility. */
  lemma {:induction false} AlignedIsDivisible(n: nat, k: nat)
    ensures Aligned(n, k) <==> n % Pow2(k) == 0
  {
    if k > 0 {
      AlignedIsDivisible(n / 2, k - 1);
      var m := Pow2(k - 1);
      HalvingDivides(n, m);
    }
  }

  lemma HalvingDivides(n: nat, m: nat)
    requires m >= 1
    ensures n % (2 * m) == 0 <==> n % 2 == 0 && (n / 2) % m == 0
  {
    if n % (2 * m) == 0 {
      var q := n / (2 * m);
      assert n == 2 * (q * m);
      assert n / 2 == q * m;
      MultipleMod(q, m);
    }
    if n % 2 == 0 && (n / 2) % m == 0 {
      var q := (n / 2) / m;
      assert n / 2 == q * m;
      assert n == q * (2 * m);
      MultipleMod(q, 2 * m);
    }
  }

  lemma QuotientIsNat(a: nat, m: nat)
    requires m >= 1
    ensures a / m >= 0
  {
    var q := a / m;
    assert a == q * m + a % m;
    assert q <= -1 ==> q * m + m <= 0;
  }

  lemma MultipleMod(q: nat, m: nat)
    requires m >= 1
    ensures (q * m) % m == 0
  {
    var r := (q * m) % m;
    var d := (q * m) / m;
    assert q * m == d * m + r;
    assert r == (q - d) * m;
    assert q - d >= 1 ==> (q - d) * m >= m;
    assert q - d <= -1 ==> (q - d) * m + m <= 0;
  }

  /** Quotient and remainder are the only ones there are. */
  lemma DivUnique(n: nat, m: nat, q: nat, r: nat)
    requires m >= 1 && n == q * m + r && r < m
    ensures n / m == q && n % m == r
  {
    var q', r' := n / m, n % m;
    assert n == q' * m + r';
    assert (q - q') * m == r' - r;
    assert q - q' >= 1 ==> (q - q') * m >= m;
    assert q - q' <= -1 ==> (q - q') * m + m <= 0;
  }

  lemma {:induction false} AlignedWeaken(n: nat, j: nat, k: nat)
    requires j <= k && Aligned(n, k)
    ensures Aligned(n, j)
  {
    if j > 0 {
      AlignedWeaken(n / 2, j - 1, k - 1);
    }
  }

  /** Two multiples of 2^k are equal or at least 2^k apart. */
  lemma {:induction false} AlignedApart(p: nat, q: nat, k: nat)
    requires Aligned(p, k) && Aligned(q, k) && p < q
    ensures p + Pow2(k) <= q
  {
    if k > 0 {
      AlignedApart(p / 2, q / 2, k - 1);
    }
  }

  lemma AlignedDouble(n: nat, k: nat)
    ensures Aligned(2 * n, k + 1) <==> Aligned(n, k)
  {
    assert 2 * n / 2 == n;
  }

  lemma Even(p: nat)
    ensures Aligned(p, 0) && (Aligned(p, 1) <==> p % 2 == 0)
  {
  }

  lemma {:induction false} AlignedStep(p: nat, k: nat)
    requires Aligned(p, k)
    ensures Aligned(p + Pow2(k), k)
    ensures Aligned(p, k + 1) <==> !Aligned(p + Pow2(k), k + 1)
    ensures !Aligned(p, k + 1) ==> p >= Pow2(k) && Aligned(p - Pow2(k), k + 1)
  {
    if k == 0 {
      Even(p);
      Even(p + 1);
      if p % 2 == 1 {
        Even(p - 1);
      }
      assert Pow2(0) == 1;
      hide Aligned, Pow2;
    } else {
      var (h, m) := (p / 2, Pow2(k - 1));
      assert p == 2 * h && Pow2(k) == 2 * m;
      hide Aligned, Pow2;
      AlignedDouble(h, k - 1);
      AlignedStep(h, k - 1);
      AlignedDouble(h, k);
      AlignedDouble(h + m, k - 1);
      AlignedDouble(h + m, k);
      if !Aligned(p, k + 1) {
        AlignedDouble(h - m, k);
      }
    }
  }

  /** Aligned power-of-two blocks are nested or disjoint. */
  lemma BlocksNest(p: nat, j: nat, q: nat, k: nat)
    requires j <= k && Aligned(p, j) && Aligned(q, k)
    requires p < q + Pow2(k) && q < p + Pow2(j)
    ensures q <= p && p + Pow2(j) <= q + Pow2(k)
  {
    AlignedWeaken(q, j, k);
    if p < q {
      AlignedApart(p, q, j);
      assert false;
    }
    AlignedEndsInside(p, j, q, k);
  }

  lemma AlignedEndsInside(p: nat, j: nat, q: nat, k: nat)
    requires j <= k && Aligned(p, j) && Aligned(q, k) && q <= p < q + Pow2(k)
    ensures p + Pow2(j) <= q + Pow2(k)
  {
    hide Aligned, Pow2;
    AlignedStep(q, k);
    AlignedWeaken(q + Pow2(k), j, k);
    AlignedApart(p, q + Pow2(k), j);
  }

  /** The block an exclusive-or names: the other half of the block of twice the size. */
  lemma {:induction false} XorIsBuddy(p: nat, k: nat)
    requires Aligned(p, k)
    ensures Aligned(p, k + 1) ==> Xor(p, Pow2(k)) == p + Pow2(k)
    ensures !Aligned(p, k + 1) ==> p >= Pow2(k) && Xor(p, Pow2(k)) == p - Pow2(k)
    decreases k
  {
    AlignedStep(p, k);
    if k == 0 {
      XorZero(p / 2);
      assert Aligned(p, 1) <==> p % 2 == 0;
    } else {
      XorIsBuddy(p / 2, k - 1);
      XorTwice(p / 2, Pow2(k - 1));
      hide Xor;
    }
  }

  lemma XorTwice(m: nat, n: nat)
    ensures Xor(2 * m, 2 * n) == 2 * Xor(m, n)
  {
  }

  lemma {:induction false} XorZero(p: nat)
    ensures Xor(p, 0) == p
  {
    if p != 0 {
      XorZero(p / 2);
    }
  }

  /** `trailing_zeros` is the largest order the number is aligned to. */
  lemma {:induction false} TrailingZerosIsAlignment(n: nat, k: nat)
    requires n > 0
    ensures Aligned(n, k) <==> k <= TrailingZeros(n)
  {
    if k > 0 && n % 2 == 0 {
      TrailingZerosIsAlignment(n / 2, k - 1);
    }
  }

  lemma {:induction false} ZeroAligned(k: nat)
    ensures Aligned(0, k)
  {
    if k > 0 {
      ZeroAligned(k - 1);
    }
  }

  /** `ilog2` is the largest power of two that fits. */
  lemma {:induction false} ILog2IsFit(n: nat, k: nat)
    requires n >= 1
    ensures Pow2(k) <= n <==> k <= ILog2(n)
  {
    if n > 1 && k > 0 {
      ILog2IsFit(n / 2, k - 1);
    }
  }

  /** Rust's `a | b` on unsigned integers. */
  function Or(a: nat, b: nat): (r: nat)
    decreases a + b
  {
    if a == 0 && b == 0 then 0
    else 2 * Or(a / 2, b / 2) + (if a % 2 == 0 && b % 2 == 0 then 0 else 1)
  }

  /** Below an aligned number's lowest possible bit, OR is addition. */
  lemma {:induction false} OrIsSum(a: nat, b: nat, k: nat)
    requires Aligned(a, k) && b < Pow2(k)
    ensures Or(a, b) == a + b
    decreases k
  {
    if k == 0 {
      OrZero(a);
    } else {
      OrIsSum(a / 2, b / 2, k - 1);
    }
  }

  lemma {:induction false} OrZero(a: nat)
    ensures Or(a, 0) == a
  {
    if a != 0 {
      OrZero(a / 2);
    }
  }

  /** `usize::div_ceil`. */
  function DivCeil(a: nat, b: nat): nat
    requires b >= 1
  {
    QuotientIsNat(a + b - 1, b);
    (a + b - 1) / b
  }
}
