/** The number the free lists keep beside them is the number of free pages. */
module Counting {
  import opened Bits
  import opened Sequences
  import opened Blocks
  import opened FreeLists
  import opened Frames

  /** The count kept beside the lists is the number of free pages. */
  lemma PageCountIsFreePages(o: Owner, lists: seq<seq<nat>>)
    requires Partition(o) && ListsTell(lists, o) && forall k | 0 <= k < |lists| :: Distinct(lists[k])
    ensures PageCount(lists) == |FreePages(o)|
  {
    CountBelow(o, lists, ORDERS);
    assert lists[..ORDERS] == lists;
    forall p | p in FreePages(o)
      ensures p in FreeBelow(o, ORDERS)
    {
      assert BlockAt(o, p);
    }
    assert FreeBelow(o, ORDERS) == FreePages(o);
  }

  /** Free pages whose block has an order below `n`. */
  ghost function FreeBelow(o: Owner, n: nat): set<nat> {
    set p | p in o && o[p].free && o[p].order < n
  }

  lemma {:induction false} CountBelow(o: Owner, lists: seq<seq<nat>>, n: nat)
    requires Partition(o) && ListsTell(lists, o) && (forall k | 0 <= k < |lists| :: Distinct(lists[k])) && n <= ORDERS
    ensures PageCount(lists[..n]) == |FreeBelow(o, n)|
  {
    hide Partition, FreeBlock, FreeBelow, FreeHeaded;
    if n > 0 {
      var layer := lists[n - 1];
      CountBelow(o, lists, n - 1);
      assert lists[..n][..n - 1] == lists[..n - 1];
      forall p | p in layer
        ensures FreeBlock(o, p, n - 1)
      {
      }
      CountHeads(o, layer, n - 1);
      LayerStep(o, lists, n - 1);
    } else {
      NothingBelow(o);
    }
  }

  lemma NothingBelow(o: Owner)
    ensures FreeBelow(o, 0) == {}
  {
  }

  lemma LayerStep(o: Owner, lists: seq<seq<nat>>, k: nat)
    requires Partition(o) && ListsTell(lists, o) && k < |lists|
    ensures FreeBelow(o, k + 1) == FreeBelow(o, k) + FreeHeaded(o, lists[k], k)
    ensures FreeBelow(o, k) !! FreeHeaded(o, lists[k], k)
  {
    hide Partition, FreeBlock;
    forall p | p in FreeBelow(o, k + 1) && o[p].order == k
      ensures p in FreeHeaded(o, lists[k], k)
    {
      HeadIsFree(o, p);
    }
  }

  lemma HeadIsFree(o: Owner, p: nat)
    requires Partition(o) && p in o && o[p].free
    ensures FreeBlock(o, o[p].head, o[p].order)
  {
    assert BlockAt(o, p);
  }

  /** Pages of the order-`k` free blocks headed by `heads`. */
  ghost function FreeHeaded(o: Owner, heads: seq<nat>, k: nat): set<nat> {
    set p | p in o && o[p].free && o[p].order == k && o[p].head in heads
  }

  lemma {:induction false} CountHeads(o: Owner, heads: seq<nat>, k: nat)
    requires Partition(o) && Distinct(heads) && forall p | p in heads :: FreeBlock(o, p, k)
    ensures |FreeHeaded(o, heads, k)| == Pow2(k) * |heads|
  {
    hide Partition, FreeBlock, FreeHeaded;
    if heads == [] {
      NoHeads(o, k);
    } else {
      var h, rest := heads[0], heads[1..];
      assert h in heads && FreeBlock(o, h, k);
      assert forall p | p in rest :: p in heads;
      CountHeads(o, rest, k);
      HeadedStep(o, heads, k);
      TimesStep(Pow2(k), |rest|);
    }
  }

  lemma NoHeads(o: Owner, k: nat)
    ensures FreeHeaded(o, [], k) == {}
  {
  }

  /** One more head adds that block's own pages. */
  lemma HeadedStep(o: Owner, heads: seq<nat>, k: nat)
    requires Partition(o) && Distinct(heads) && heads != [] && FreeBlock(o, heads[0], k)
    ensures FreeHeaded(o, heads, k) == FreeHeaded(o, heads[1..], k) + Range(heads[0], Pow2(k))
    ensures FreeHeaded(o, heads[1..], k) !! Range(heads[0], Pow2(k))
  {
    hide Partition, FreeBlock, Distinct;
    var h := heads[0];
    assert forall p | p in heads :: p == h || p in heads[1..];
    assert h !in heads[1..] by {
      HeadNotLater(heads);
    }
    forall p: nat
      ensures p in Range(h, Pow2(k)) <==> p in o && o[p].free && o[p].order == k && o[p].head == h
    {
      BlockIsRange(o, h, k, p);
    }
  }

  lemma HeadNotLater(s: seq<nat>)
    requires Distinct(s) && s != []
    ensures s[0] !in s[1..]
  {
  }

  lemma BlockIsRange(o: Owner, h: nat, k: nat, p: nat)
    requires Partition(o) && FreeBlock(o, h, k)
    ensures p in Range(h, Pow2(k)) <==> p in o && o[p].free && o[p].order == k && o[p].head == h
  {
    hide Aligned;
    assert BlockAt(o, h) && o[h] == Block(h, k, true);
    assert InBlock(o[h], p) ==> p in o && o[p] == o[h];
    if p in o {
      assert BlockAt(o, p);
    }
  }

  lemma TimesStep(a: nat, n: nat)
    ensures a * (n + 1) == a * n + a
  {
  }

  function Range(from: nat, n: nat): (r: set<nat>)
    ensures |r| == n
    ensures forall p: nat :: p in r <==> from <= p < from + n
  {
    if n == 0 then {} else Range(from, n - 1) + {from + n - 1}
  }
}
