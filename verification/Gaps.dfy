/**
 The parts of an arena that no taken region covers (src/mm/gaps.rs), produced one run at a time by a
 cursor that moves up through the arena.
*/
module Gaps {
  import opened Wrappers
  import opened Regions

  /** A whole page of the arena that no taken region touches. */
  ghost predicate Open(arena: Region, taken: seq<Region>, p: nat) {
    WholePage(arena, p) && forall r | r in taken :: !Touches(r, p)
  }

  /** A run of open pages that neither neighbour extends. */
  ghost predicate MaximalRun(arena: Region, taken: seq<Region>, run: PageRange) {
    && run.start < run.end
    && (forall p: nat | run.Contains(p) :: Open(arena, taken, p))
    && !Open(arena, taken, run.end)
    && (run.start > 0 ==> !Open(arena, taken, run.start - 1))
  }

  /** The end of the first taken range that covers a page. */
  function Containing(arena: Region, taken: seq<Region>, p: nat): Option<nat> {
    if taken == [] then None
    else
      var range := Clip(taken[0], arena);
      if range.Some? && range.value.Contains(p) then Some(range.value.end)
      else Containing(arena, taken[1..], p)
  }

  /** The nearest taken range that starts after a page. */
  function NextBaseAbove(arena: Region, taken: seq<Region>, p: nat): Option<nat> {
    if taken == [] then None
    else
      var range := Clip(taken[0], arena);
      var rest := NextBaseAbove(arena, taken[1..], p);
      if range.Some? && range.value.start > p && (rest.None? || range.value.start < rest.value)
      then Some(range.value.start)
      else rest
  }

  ghost predicate Covers(arena: Region, r: Region, p: nat) {
    Clip(r, arena).Some? && Clip(r, arena).value.Contains(p)
  }

  lemma {:induction false} ContainingFacts(arena: Region, taken: seq<Region>, p: nat)
    ensures Containing(arena, taken, p).None? ==> forall r | r in taken :: !Covers(arena, r, p)
    ensures Containing(arena, taken, p).Some? ==>
              exists r :: r in taken && Covers(arena, r, p) &&
                Clip(r, arena).value.end == Containing(arena, taken, p).value
  {
    if taken != [] {
      ContainingFacts(arena, taken[1..], p);
      assert forall r | r in taken :: r == taken[0] || r in taken[1..];
      assert Covers(arena, taken[0], p) ==> taken[0] in taken;
    }
  }

  lemma {:induction false} NextBaseFacts(arena: Region, taken: seq<Region>, p: nat)
    ensures var next := NextBaseAbove(arena, taken, p);
            && (forall r | r in taken && Clip(r, arena).Some? && Clip(r, arena).value.start > p ::
                  next.Some? && next.value <= Clip(r, arena).value.start)
            && (next.Some? ==> next.value > p && exists r :: r in taken && Covers(arena, r, next.value))
  {
    if taken != [] {
      NextBaseFacts(arena, taken[1..], p);
      assert forall r | r in taken :: r == taken[0] || r in taken[1..];
      if Clip(taken[0], arena).Some? {
        ClipBounds(taken[0], arena);
        assert Covers(arena, taken[0], Clip(taken[0], arena).value.start);
      }
    }
  }

  lemma CoveredIsNotOpen(arena: Region, taken: seq<Region>, r: Region, p: nat)
    requires r in taken && Covers(arena, r, p)
    ensures !Open(arena, taken, p)
  {
    if WholePage(arena, p) {
      ClipIsTouch(r, arena, p);
    }
  }

  lemma UncoveredIsOpen(arena: Region, taken: seq<Region>, p: nat)
    requires WholePage(arena, p) && forall r | r in taken :: !Covers(arena, r, p)
    ensures Open(arena, taken, p)
  {
    forall r | r in taken
      ensures !Touches(r, p)
    {
      ClipIsTouch(r, arena, p);
    }
  }

  /** Moving to the end of a range that covers the cursor passes no open page. */
  lemma StopSkipsTaken(arena: Region, taken: seq<Region>, p: nat)
    requires Containing(arena, taken, p).Some?
    ensures var stop := Containing(arena, taken, p).value;
            && p < stop <= FromAddrUp(arena.End())
            && forall q: nat | p <= q < stop :: !Open(arena, taken, q)
  {
    ContainingFacts(arena, taken, p);
    var stop := Containing(arena, taken, p).value;
    var r :| r in taken && Covers(arena, r, p) && Clip(r, arena).value.end == stop;
    ClipBounds(r, arena);
    forall q: nat | p <= q < stop
      ensures !Open(arena, taken, q)
    {
      CoveredIsNotOpen(arena, taken, r, q);
    }
  }

  lemma OpenIsInArena(arena: Region, taken: seq<Region>)
    ensures forall p: nat | Open(arena, taken, p) :: FromAddrUp(arena.base) <= p < FromAddrDown(arena.End())
  {
  }

  /** From an uncovered page, everything up to the next taken range or the end of the arena is open. */
  lemma RunUntilNext(arena: Region, taken: seq<Region>, p: nat, end: nat)
    requires Containing(arena, taken, p).None? && FromAddrUp(arena.base) <= p < end == FromAddrDown(arena.End())
    ensures var next := NextBaseAbove(arena, taken, p);
            var stop := Min(if next.Some? then next.value else end, end);
            && p < stop <= end
            && (forall q: nat | p <= q < stop :: Open(arena, taken, q))
            && !Open(arena, taken, stop)
  {
    ContainingFacts(arena, taken, p);
    NextBaseFacts(arena, taken, p);
    var next := NextBaseAbove(arena, taken, p);
    var stop := Min(if next.Some? then next.value else end, end);
    forall q: nat | p <= q < stop
      ensures Open(arena, taken, q)
    {
      UncoveredIsOpen(arena, taken, q);
    }
    if next.Some? && next.value <= end {
      var r :| r in taken && Covers(arena, r, next.value);
      CoveredIsNotOpen(arena, taken, r, next.value);
    }
  }

  class Gaps {
    const arena: Region
    const taken: seq<Region>
    const end: nat
    var cursor: nat

    ghost predicate Valid()
      reads this
    {
      && end == FromAddrDown(arena.End())
      && cursor >= FromAddrUp(arena.base)
      && (cursor == FromAddrUp(arena.base) || !Open(arena, taken, cursor))
    }

    constructor (arena: Region, taken: seq<Region>)
      ensures Valid() && this.arena == arena && this.taken == taken
      ensures forall p: nat | Open(arena, taken, p) :: cursor <= p
    {
      this.arena := arena;
      this.taken := taken;
      end := FromAddrDown(arena.End());
      cursor := FromAddrUp(arena.base);
    }

    /** The next run, or nothing once every open page has been produced. */
    method Next() returns (run: Option<PageRange>)
      requires Valid()
      modifies this
      ensures Valid() && old(cursor) <= cursor
      ensures run.None? ==> forall p: nat | Open(arena, taken, p) :: p < old(cursor)
      ensures run.Some? ==>
                && old(cursor) <= run.value.start < run.value.end && cursor == run.value.end <= end
                && MaximalRun(arena, taken, run.value)
                && forall p: nat | old(cursor) <= p < run.value.start :: !Open(arena, taken, p)
    {
      hide Open, Clip;
      var stop := Containing(arena, taken, cursor);
      while stop.Some?
        invariant old(cursor) <= cursor
        invariant forall p: nat | old(cursor) <= p < cursor :: !Open(arena, taken, p)
        invariant stop == Containing(arena, taken, cursor)
        decreases FromAddrUp(arena.End()) + 1 - cursor, if stop.Some? then 1 else 0
      {
        StopSkipsTaken(arena, taken, cursor);
        cursor := stop.value;
        stop := Containing(arena, taken, cursor);
      }
      OpenIsInArena(arena, taken);
      if cursor >= end {
        return None;
      }
      var next := NextBaseAbove(arena, taken, cursor);
      var result := PageRange(cursor, Min(if next.Some? then next.value else end, end));
      RunUntilNext(arena, taken, cursor, end);
      cursor := result.end;
      return Some(result);
    }
  }

  ghost predicate InSomeRun(runs: seq<PageRange>, p: nat) {
    exists i :: 0 <= i < |runs| && runs[i].Contains(p)
  }

  /** Every run `gaps` yields: ascending, maximal, and together exactly the open pages. */
  ghost predicate ExactRuns(arena: Region, taken: seq<Region>, runs: seq<PageRange>) {
    && Ascending(arena, taken, runs)
    && (forall p: nat :: Open(arena, taken, p) <==> InSomeRun(runs, p))
  }

  ghost predicate Ascending(arena: Region, taken: seq<Region>, runs: seq<PageRange>) {
    && (forall i | 0 <= i < |runs| :: MaximalRun(arena, taken, runs[i]))
    && (forall i, j | 0 <= i < j < |runs| :: runs[i].end < runs[j].start)
  }

  lemma AppendRun(arena: Region, taken: seq<Region>, runs: seq<PageRange>, run: PageRange, cursor: nat)
    requires Ascending(arena, taken, runs) && (forall i | 0 <= i < |runs| :: runs[i].end <= cursor)
    requires MaximalRun(arena, taken, run) && cursor <= run.start
    ensures Ascending(arena, taken, runs + [run])
    ensures forall p: nat :: InSomeRun(runs + [run], p) <==> InSomeRun(runs, p) || run.Contains(p)
  {
    var all := runs + [run];
    forall i | 0 <= i < |runs|
      ensures runs[i].end < run.start
    {
      assert !Open(arena, taken, runs[i].end);
      assert run.Contains(run.start);
    }
    forall p: nat | InSomeRun(runs, p) || run.Contains(p)
      ensures InSomeRun(all, p)
    {
      assert run.Contains(p) ==> all[|runs|].Contains(p);
      assert forall i | 0 <= i < |runs| :: all[i] == runs[i];
    }
  }

  method AllRuns(arena: Region, taken: seq<Region>) returns (runs: seq<PageRange>)
    ensures ExactRuns(arena, taken, runs)
  {
    hide Open, MaximalRun, InSomeRun;
    var gaps := new Gaps(arena, taken);
    runs := [];
    var run := gaps.Next();
    assert forall p: nat :: !InSomeRun([], p) by {
      NoRunYet();
    }
    ghost var from: nat := FromAddrUp(arena.base);
    while run.Some?
      invariant gaps.Valid() && gaps.arena == arena && gaps.taken == taken
      invariant Ascending(arena, taken, runs) && forall i | 0 <= i < |runs| :: runs[i].end <= from
      invariant run.Some? ==>
                  && MaximalRun(arena, taken, run.value) && run.value.start < run.value.end
                  && from <= run.value.start && gaps.cursor == run.value.end <= gaps.end
      invariant forall p: nat | InSomeRun(runs, p) :: Open(arena, taken, p)
      invariant forall p: nat | Open(arena, taken, p) && (run.Some? ==> p < run.value.start) :: InSomeRun(runs, p)
      decreases gaps.end + 1 - gaps.cursor, if run.Some? then 1 else 0
    {
      AppendRun(arena, taken, runs, run.value, from);
      assert forall p: nat | run.value.Contains(p) :: Open(arena, taken, p) by {
        RunIsOpen(arena, taken, run.value);
      }
      runs := runs + [run.value];
      from := gaps.cursor;
      run := gaps.Next();
    }
  }

  lemma NoRunYet()
    ensures forall p: nat :: !InSomeRun([], p)
  {
  }

  lemma RunIsOpen(arena: Region, taken: seq<Region>, run: PageRange)
    requires MaximalRun(arena, taken, run)
    ensures forall p: nat | run.Contains(p) :: Open(arena, taken, p)
  {
  }

  /** Maximal runs that share a page are one run. */
  lemma OneRun(arena: Region, taken: seq<Region>, a: PageRange, b: PageRange, p: nat)
    requires MaximalRun(arena, taken, a) && MaximalRun(arena, taken, b) && a.Contains(p) && b.Contains(p)
    ensures a == b
  {
    hide Open;
  }

  /** Every maximal run is among those `gaps` yields. */
  lemma RunIsListed(arena: Region, taken: seq<Region>, runs: seq<PageRange>, run: PageRange)
    requires ExactRuns(arena, taken, runs) && MaximalRun(arena, taken, run)
    ensures exists i: nat :: i < |runs| && runs[i] == run
  {
    hide Open;
    assert run.Contains(run.start);
    assert InSomeRun(runs, run.start);
    var i: nat :| i < |runs| && runs[i].Contains(run.start);
    OneRun(arena, taken, runs[i], run, run.start);
  }

  /** The lowest run of at least `n` pages. */
  ghost predicate FirstFit(arena: Region, taken: seq<Region>, n: nat, run: PageRange) {
    && MaximalRun(arena, taken, run) && run.Pages() >= n
    && forall other: PageRange | MaximalRun(arena, taken, other) && other.start < run.start :: other.Pages() < n
  }

  /** Below a run that is long enough there is a lowest one. */
  lemma {:induction false} SomeFirstFit(arena: Region, taken: seq<Region>, n: nat,
                                        run: PageRange) returns (first: PageRange)
    requires MaximalRun(arena, taken, run) && run.Pages() >= n
    ensures FirstFit(arena, taken, n, first) && first.start <= run.start
    decreases run.start
  {
    hide MaximalRun;
    if other: PageRange :| MaximalRun(arena, taken, other) && other.start < run.start && other.Pages() >= n {
      first := SomeFirstFit(arena, taken, n, other);
    } else {
      first := run;
    }
  }

  /** Looking through the runs in order finds it, if there is one. */
  lemma FirstFitFound(arena: Region, taken: seq<Region>, runs: seq<PageRange>, n: nat, i: nat)
    requires ExactRuns(arena, taken, runs) && i <= |runs| && forall j | 0 <= j < i :: runs[j].Pages() < n
    requires i < |runs| ==> runs[i].Pages() >= n
    ensures i < |runs| ==> FirstFit(arena, taken, n, runs[i]) && forall r | FirstFit(arena, taken, n, r) :: r == runs[i]
    ensures i == |runs| ==> forall r :: !FirstFit(arena, taken, n, r)
  {
    hide Open;
    forall r | MaximalRun(arena, taken, r)
      ensures exists j: nat :: j < |runs| && runs[j] == r
    {
      RunIsListed(arena, taken, runs, r);
    }
    forall r | FirstFit(arena, taken, n, r)
      ensures i < |runs| && r == runs[i]
    {
      var j: nat :| j < |runs| && runs[j] == r;
      if i < j {
        LaterIsNotFirst(arena, taken, runs, n, i, j);
      }
    }
    if i < |runs| {
      LowestIsFirst(arena, taken, runs, n, i);
    }
  }

  lemma LaterIsNotFirst(arena: Region, taken: seq<Region>, runs: seq<PageRange>, n: nat, i: nat, j: nat)
    requires Ascending(arena, taken, runs) && i < j < |runs| && runs[i].Pages() >= n
    ensures !FirstFit(arena, taken, n, runs[j])
  {
    hide Open;
  }

  lemma LowestIsFirst(arena: Region, taken: seq<Region>, runs: seq<PageRange>, n: nat, i: nat)
    requires ExactRuns(arena, taken, runs) && i < |runs| && runs[i].Pages() >= n && forall j | 0 <= j < i ::
               runs[j].Pages() < n
    ensures FirstFit(arena, taken, n, runs[i])
  {
    hide Open;
    forall other: PageRange | MaximalRun(arena, taken, other) && other.start < runs[i].start
      ensures other.Pages() < n
    {
      RunIsListed(arena, taken, runs, other);
      var j: nat :| j < |runs| && runs[j] == other;
    }
  }
}
