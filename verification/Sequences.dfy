/** Duplicate-free sequences, which both kinds of intrusive list stand for. */
module Sequences {
  import opened Wrappers

  ghost predicate Distinct<T>(s: seq<T>) {
    forall i, j | 0 <= i < j < |s| :: s[i] != s[j]
  }

  ghost function IndexOf<T>(s: seq<T>, x: T): (i: nat)
    requires x in s
    ensures i < |s| && s[i] == x
  {
    var i: nat :| i < |s| && s[i] == x;
    i
  }

  /** `s` with one element taken out and the order of the rest kept. */
  ghost function Without<T>(s: seq<T>, x: T): seq<T>
    requires x in s
  {
    var i := IndexOf(s, x);
    s[..i] + s[i + 1..]
  }

  lemma WithoutFacts<T>(s: seq<T>, x: T)
    requires Distinct(s) && x in s
    ensures var t := Without(s, x);
            Distinct(t) && x !in t && |t| + 1 == |s| && (forall y :: y in t <==> y in s && y != x)
  {
    var i := IndexOf(s, x);
    var t := Without(s, x);
    assert forall j | 0 <= j < |t| :: t[j] == if j < i then s[j] else s[j + 1];
    forall y | y in s && y != x
      ensures y in t
    {
      var j := IndexOf(s, y);
      assert t[if j < i then j else j - 1] == y;
    }
  }

  lemma PushFacts<T>(s: seq<T>, x: T)
    requires Distinct(s) && x !in s
    ensures Distinct([x] + s)
    ensures forall y :: y in [x] + s <==> y == x || y in s
  {
  }

  function ItemAt<T>(s: seq<T>, i: nat): Option<T> {
    if i < |s| then Some(s[i]) else None
  }

  /** Distinct numbers below `n` are at most `n`, and fewer when one is missing. */
  lemma {:induction false} DistinctBounded(s: seq<nat>, n: nat)
    requires Distinct(s) && forall x | x in s :: x < n
    ensures |s| <= n
    ensures forall x | 0 <= x < n && x !in s :: |s| < n
    decreases n
  {
    assert |s| > 0 ==> s[0] in s;
    if n > 0 {
      if n - 1 in s {
        WithoutFacts(s, n - 1);
        DistinctBounded(Without(s, n - 1), n - 1);
      } else {
        DistinctBounded(s, n - 1);
      }
    }
  }

  /** Fewer than `n` distinct numbers below `n` leave one out. */
  lemma {:induction false} SomeMissing(s: seq<nat>, n: nat) returns (x: nat)
    requires Distinct(s) && |s| < n && forall y | y in s :: y < n
    ensures x < n && x !in s
    decreases n
  {
    if n - 1 !in s {
      x := n - 1;
    } else {
      WithoutFacts(s, n - 1);
      x := SomeMissing(Without(s, n - 1), n - 1);
    }
  }
}
