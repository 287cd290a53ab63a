/** No mapping is ever replaced: a range in which nothing is mapped holds no leaf to overwrite. */
module Leaves {
  import opened Wrappers
  import opened Levels
  import opened Descriptors
  import opened Trees
  import opened RangeSteps

  /** Slot `i` of table `t` maps something and leads to no other table. */
  ghost predicate IsLeaf(w: seq<Word>, place: Places, t: nat, i: nat) {
    t in place && i < SLOTS && WordOf(t, i) < |w| && SlotAt(w, t, i).kind != Invalid && !Leads(w, place, t, i)
  }

  /** Every leaf there was is as it was. */
  ghost predicate LeavesKept(w: seq<Word>, w': seq<Word>, place: Places) {
    && |w'| == |w|
    && forall t: nat, i: nat | IsLeaf(w, place, t, i) :: w'[WordOf(t, i)] == w[WordOf(t, i)]
  }

  /** A table is on the way of every walk to its addresses. */
  lemma {:induction false} WalkThrough(w: seq<Word>, place: Places, root: nat, t: nat, va: nat)
    requires Tree(w, place, root) && t in place && place[t].Contains(va)
    ensures Walk(w, root, Level1, va) == Walk(w, t, place[t].level, va)
    decreases place[t].level.Number()
  {
    hide Walk, Tree;
    if place[t].level == Level1 {
      TopIsRoot(w, place, root, t);
    } else {
      var u := WalkFromParent(w, place, root, t, va);
      WalkThrough(w, place, root, u, va);
    }
  }

  lemma TopIsRoot(w: seq<Word>, place: Places, root: nat, t: nat)
    requires Tree(w, place, root) && t in place && place[t].level == Level1
    ensures t == root
  {
    GoodAt(|w|, place, t);
    OneTable(w, place, root, t, root);
  }

  /** A walk comes to a table from the table whose slot leads there. */
  lemma WalkFromParent(w: seq<Word>, place: Places, root: nat, t: nat, va: nat) returns (u: nat)
    requires Tree(w, place, root) && t in place && place[t].Contains(va) && place[t].level != Level1
    ensures u in place && place[u].Contains(va) && place[u].level.Number() < place[t].level.Number()
    ensures Walk(w, u, place[u].level, va) == Walk(w, t, place[t].level, va)
  {
    var i;
    u, i := ParentOf(w, place, root, t);
    GoodAt(|w|, place, u);
    hide Walk, Tree, LeadsTo, Level.SlotOf, Level.Span, Level.Size, GoodPlace;
    SlotOfChild(place[u], i, va);
    ThroughSlot(w, place, u, t, i, va);
  }

  lemma SlotOfChild(p: Place, i: nat, va: nat)
    requires GoodPlace(p) && p.level.Next().Some? && i < SLOTS && p.Child(i).Contains(va)
    ensures p.Contains(va) && p.level.SlotOf(va) == i && p.level.Number() < p.Child(i).level.Number()
  {
    ChildFacts(p, i, va);
    SlotBounds(p.level, p.start, i);
    hide Level.SlotOf, Level.Size;
    SlotsTile(p.level, p.start, va);
    assert p.start + i * p.level.Size() <= va < p.start + i * p.level.Size() + p.level.Size();
    assert (i + 1) * p.level.Size() == i * p.level.Size() + p.level.Size();
  }

  lemma ParentOf(w: seq<Word>, place: Places, root: nat, t: nat) returns (u: nat, i: nat)
    requires Tree(w, place, root) && t in place && place[t].level != Level1
    ensures LeadsTo(w, place, u, i, t) && u in place && i < SLOTS && place[u].level.Next().Some?
    ensures place[t] == place[u].Child(i) && t > 0
  {
    hide FromWord, WordOf;
    GoodAt(|w|, place, t);
    assert HasParent(w, place, t);
    u, i :| LeadsTo(w, place, u, i, t);
    assert Leads(w, place, u, i);
  }

  /** So every address of a leaf's slot is mapped. */
  lemma LeafIsFound(w: seq<Word>, place: Places, root: nat, t: nat, i: nat, va: nat)
    requires Tree(w, place, root) && IsLeaf(w, place, t, i) && place[t].SlotContains(i, va)
    ensures Walk(w, root, Level1, va).Some?
  {
    GoodAt(|w|, place, t);
    SlotBounds(place[t].level, place[t].start, i);
    SlotsTile(place[t].level, place[t].start, va);
    LeafEndsWalk(w, place, t, i, va);
    hide Tree, Walk, IsLeaf;
    WalkThrough(w, place, root, t, va);
  }

  lemma LeafEndsWalk(w: seq<Word>, place: Places, t: nat, i: nat, va: nat)
    requires IsLeaf(w, place, t, i)
    ensures place[t].level.SlotOf(va) == i ==> Walk(w, t, place[t].level, va).Some?
  {
    hide FromWord, Land, Level.SlotOf;
  }

  /** Writing only slots of a clear range rewrites no leaf. */
  lemma ClearKeepsLeaves(w: seq<Word>, w': seq<Word>, place: Places, root: nat, lo: nat, hi: nat)
    requires Tree(w, place, root) && root in place && place[root].level == Level1 && Clear(w, place, root, lo, hi)
    requires SlotsKept(w, w', place, Level1, lo, hi)
    ensures LeavesKept(w, w', place)
  {
    hide Walk, Tree, FromWord, WordOf;
    forall t: nat, i: nat | IsLeaf(w, place, t, i)
      ensures w'[WordOf(t, i)] == w[WordOf(t, i)]
    {
      var start := place[t].SlotStart(i);
      if Overlaps(place[t], i, lo, hi) {
        LeafIsFound(w, place, root, t, i, if start < lo then lo else start);
        assert false;
      }
    }
  }

  lemma LeavesChain(w0: seq<Word>, w: seq<Word>, w': seq<Word>, place0: Places, place: Places)
    requires LeavesKept(w0, w, place0) && LeavesKept(w, w', place)
    requires forall t | t in place0 :: t in place && place[t] == place0[t]
    ensures LeavesKept(w0, w', place0)
  {
    hide FromWord, WordOf;
    forall t: nat, i: nat | IsLeaf(w0, place0, t, i)
      ensures w'[WordOf(t, i)] == w0[WordOf(t, i)]
    {
      assert IsLeaf(w, place, t, i);
    }
  }
}
