/**
 Intrusive doubly linked lists, whatever they are stored in.

 The buddy allocator keeps its links in free pages and the slab cache keeps its links in entry-table
 words. Both are families of lists over one function from a node to its links.
*/
module DoublyLinked {
  import opened Wrappers
  import opened Sequences

  datatype Links = Links(prev: Option<nat>, next: Option<nat>)

  ghost predicate Joined(l: nat -> Links, s: seq<nat>, i: nat)
    requires i < |s|
  {
    l(s[i]) == Links(if i == 0 then None else Some(s[i - 1]), if i + 1 < |s| then Some(s[i + 1]) else None)
  }

  /** The nodes reached from `head` are exactly `s`, in order, linked both ways. */
  ghost predicate Linked(l: nat -> Links, head: Option<nat>, s: seq<nat>) {
    && head == (if s == [] then None else Some(s[0]))
    && Distinct(s)
    && forall i: nat | i < |s| :: Joined(l, s, i)
  }

  ghost predicate Disjoint(lists: seq<seq<nat>>) {
    forall j, k, p | 0 <= j < |lists| && 0 <= k < |lists| && p in lists[j] && p in lists[k] :: j == k
  }

  ghost predicate OnSomeList(lists: seq<seq<nat>>, p: nat) {
    exists k :: 0 <= k < |lists| && p in lists[k]
  }

  /** One list per head, no node on two of them. */
  ghost predicate Family(l: nat -> Links, heads: seq<Option<nat>>, lists: seq<seq<nat>>) {
    && |heads| == |lists|
    && Disjoint(lists)
    && forall k | 0 <= k < |lists| :: Linked(l, heads[k], lists[k])
  }

  /** A family depends only on the links of its own nodes. */
  lemma FamilyFrame(l: nat -> Links, l': nat -> Links, heads: seq<Option<nat>>, lists: seq<seq<nat>>)
    requires Family(l, heads, lists) && forall p | OnSomeList(lists, p) :: l'(p) == l(p)
    ensures Family(l', heads, lists)
  {
    forall k | 0 <= k < |lists|
      ensures Linked(l', heads[k], lists[k])
    {
      OneListFrame(l, l', heads[k], lists[k]);
    }
  }

  lemma OneListFrame(l: nat -> Links, l': nat -> Links, head: Option<nat>, s: seq<nat>)
    requires Linked(l, head, s) && forall p | p in s :: l'(p) == l(p)
    ensures Linked(l', head, s)
  {
    forall i: nat | i < |s|
      ensures Joined(l', s, i)
    {
      assert Joined(l, s, i);
    }
  }

  /** How `push` rewrites the links: the new node first, then the old head's back link. */
  ghost predicate PushRewrites(l: nat -> Links, l': nat -> Links, head: Option<nat>, p: nat) {
    && l'(p) == Links(None, head)
    && (forall h: nat | head == Some(h) :: l'(h) == l(h).(prev := Some(p)))
    && forall q: nat | q != p && Some(q) != head :: l'(q) == l(q)
  }

  lemma PushLinks(l: nat -> Links, l': nat -> Links, head: Option<nat>, s: seq<nat>, p: nat)
    requires Linked(l, head, s) && p !in s && PushRewrites(l, l', head, p)
    ensures Linked(l', Some(p), [p] + s)
  {
    var t := [p] + s;
    forall i: nat | i < |t|
      ensures Joined(l', t, i)
    {
      if i > 0 {
        assert Joined(l, s, i - 1);
        assert t[i] == s[i - 1] && s[i - 1] in s;
      }
    }
    PushFacts(s, p);
  }

  /** Prepending a node that is on no list prepends it to list `k` and leaves the other lists alone. */
  lemma PushFamily(l: nat -> Links, l': nat -> Links, heads: seq<Option<nat>>, lists: seq<seq<nat>>, p: nat, k: nat)
    requires Family(l, heads, lists) && k < |lists| && !OnSomeList(lists, p) && PushRewrites(l, l', heads[k], p)
    ensures Family(l', heads[k := Some(p)], lists[k := [p] + lists[k]])
  {
    var heads', lists' := heads[k := Some(p)], lists[k := [p] + lists[k]];
    assert Linked(l, heads[k], lists[k]);
    PushLinks(l, l', heads[k], lists[k], p);
    forall j | 0 <= j < |lists|
      ensures Linked(l', heads'[j], lists'[j])
    {
      if j != k {
        OtherListUntouched(l, l', heads, lists, p, k, j);
      }
    }
    PushDisjoint(lists, p, k);
  }

  lemma OtherListUntouched(l: nat -> Links, l': nat -> Links, heads: seq<Option<nat>>, lists: seq<seq<nat>>, p: nat,
                           k: nat, j: nat)
    requires Family(l, heads, lists) && k < |lists| && j < |lists| && j != k
    requires !OnSomeList(lists, p) && PushRewrites(l, l', heads[k], p)
    ensures Linked(l', heads[j], lists[j])
  {
    assert Linked(l, heads[k], lists[k]) && Linked(l, heads[j], lists[j]);
    forall q | q in lists[j]
      ensures l'(q) == l(q)
    {
      assert q != p && Some(q) != heads[k];
    }
    OneListFrame(l, l', heads[j], lists[j]);
  }

  lemma PushDisjoint(lists: seq<seq<nat>>, p: nat, k: nat)
    requires Disjoint(lists) && k < |lists| && !OnSomeList(lists, p)
    ensures Disjoint(lists[k := [p] + lists[k]])
  {
    var lists' := lists[k := [p] + lists[k]];
    forall j, q | 0 <= j < |lists| && q in lists'[j]
      ensures q in lists[j] || (q == p && j == k)
    {
    }
    assert forall j | 0 <= j < |lists| :: p !in lists[j];
  }

  /** How `unlink` rewrites the links: each neighbour skips the node. */
  ghost predicate UnlinkRewrites(l: nat -> Links, l': nat -> Links, p: nat) {
    && (forall q: nat | l(p).prev == Some(q) :: l'(q) == l(q).(next := l(p).next))
    && (forall q: nat | l(p).next == Some(q) :: l'(q) == l(q).(prev := l(p).prev))
    && forall q: nat | q != p && l(p).prev != Some(q) && l(p).next != Some(q) :: l'(q) == l(q)
  }

  /** A node's neighbours are other nodes of its list, and differ. */
  lemma Neighbours(l: nat -> Links, head: Option<nat>, s: seq<nat>, p: nat)
    requires Linked(l, head, s) && p in s
    ensures forall q: nat | l(p).prev == Some(q) || l(p).next == Some(q) :: q in s && q != p
    ensures l(p).prev.Some? ==> l(p).prev != l(p).next
    ensures l(p).prev == None <==> head == Some(p)
  {
    var i := IndexOf(s, p);
    assert Joined(l, s, i);
  }

  lemma UnlinkLinks(l: nat -> Links, l': nat -> Links, head: Option<nat>, s: seq<nat>, p: nat)
    requires Linked(l, head, s) && p in s && UnlinkRewrites(l, l', p)
    ensures Linked(l', if head == Some(p) then l(p).next else head, Without(s, p))
  {
    var i := IndexOf(s, p);
    var t := Without(s, p);
    WithoutFacts(s, p);
    assert Joined(l, s, i);
    forall j: nat | j < |t|
      ensures Joined(l', t, j)
    {
      UnlinkedAt(l, l', s, i, j);
    }
  }

  lemma UnlinkedAt(l: nat -> Links, l': nat -> Links, s: seq<nat>, i: nat, j: nat)
    requires Distinct(s) && i < |s| && j + 1 < |s| && UnlinkRewrites(l, l', s[i])
    requires Joined(l, s, i) && Joined(l, s, if j < i then j else j + 1)
    ensures Joined(l', s[..i] + s[i + 1..], j)
  {
    var t := s[..i] + s[i + 1..];
    var q := if j < i then s[j] else s[j + 1];
    assert t[j] == q;
    if j + 1 == i {
      assert l(s[i]).prev == Some(q);
    } else if j == i {
      assert l(s[i]).next == Some(q);
    } else {
      assert l(s[i]).prev != Some(q) && l(s[i]).next != Some(q);
    }
  }

  /** Taking a node out of the middle of list `k` keeps the order of the rest and every other list. */
  lemma UnlinkFamily(l: nat -> Links, l': nat -> Links, heads: seq<Option<nat>>, lists: seq<seq<nat>>, p: nat, k: nat)
    requires Family(l, heads, lists) && k < |lists| && p in lists[k] && UnlinkRewrites(l, l', p)
    ensures Family(l', if l(p).prev == None then heads[k := l(p).next] else heads, lists[k := Without(lists[k], p)])
  {
    var lists' := lists[k := Without(lists[k], p)];
    var heads' := if l(p).prev == None then heads[k := l(p).next] else heads;
    assert Linked(l, heads[k], lists[k]);
    Neighbours(l, heads[k], lists[k], p);
    WithoutFacts(lists[k], p);
    UnlinkLinks(l, l', heads[k], lists[k], p);
    forall j | 0 <= j < |lists|
      ensures Linked(l', heads'[j], lists'[j])
    {
      if j != k {
        assert Linked(l, heads[j], lists[j]);
        assert forall q | q in lists[j] :: q !in lists[k];
        OneListFrame(l, l', heads[j], lists[j]);
      }
    }
  }
}
