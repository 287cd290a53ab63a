/** The fixed queue between the serial interrupt and `getc` (src/lib/ring_buffer.rs). */
module RingBuffers {
  import opened Wrappers

  const RING_BUFFER_SIZE: nat := 256

  function PlaceOf(head: nat, i: nat): (p: nat)
    ensures p < RING_BUFFER_SIZE
  {
    (head + i) % RING_BUFFER_SIZE
  }

  /** How many values lie from `head` to `tail`. */
  function Span(head: nat, tail: nat, full: bool): (n: nat)
    requires head < RING_BUFFER_SIZE
    ensures n <= RING_BUFFER_SIZE
  {
    if full then RING_BUFFER_SIZE else (tail + RING_BUFFER_SIZE - head) % RING_BUFFER_SIZE
  }

  /** The `n` values from `head` on, around the ring. */
  ghost function Queued<T>(ring: seq<T>, head: nat, n: nat): (s: seq<T>)
    requires |ring| == RING_BUFFER_SIZE
    ensures |s| == n
  {
    seq(n, (i: nat) requires i < n => ring[PlaceOf(head, i)])
  }

  class RingBuffer<T(==)> {
    const buffer: array<T>
    var head: nat
    var tail: nat
    var full: bool

    ghost predicate Valid()
      reads this
    {
      && buffer.Length == RING_BUFFER_SIZE
      && head < RING_BUFFER_SIZE && tail < RING_BUFFER_SIZE
      && (full ==> head == tail)
    }

    function Len(): nat
      requires Valid()
      reads this
    {
      Span(head, tail, full)
    }

    /** The values queued, oldest first. */
    ghost function Contents(): (s: seq<T>)
      requires Valid()
      reads this, buffer
      ensures |s| == Len() <= RING_BUFFER_SIZE
    {
      Queued(buffer[..], head, Len())
    }

    constructor (default: T)
      ensures Valid() && fresh(buffer) && Contents() == []
    {
      buffer := new T[RING_BUFFER_SIZE](_ => default);
      head, tail, full := 0, 0, false;
    }

    /** Appends a value, or drops it when 256 are queued already. */
    method Push(value: T)
      requires Valid()
      modifies this, buffer
      ensures Valid()
      ensures Contents() == if |old(Contents())| < RING_BUFFER_SIZE then old(Contents()) + [value] else old(Contents())
    {
      if full {
        return;
      }
      hide PlaceOf, Span;
      TailMoves(head, tail);
      Appended(buffer[..], head, Len(), value);
      buffer[tail % RING_BUFFER_SIZE] := value;
      tail := (tail + 1) % RING_BUFFER_SIZE;
      full := tail == head;
    }

    /** Takes the oldest value, if there is one. */
    method Pop() returns (r: Option<T>)
      requires Valid()
      modifies this
      ensures Valid()
      ensures if old(Contents()) == [] then r == None && Contents() == []
              else r == Some(old(Contents())[0]) && Contents() == old(Contents())[1..]
    {
      EmptyMeans(head, tail, full);
      if !full && tail == head {
        return None;
      }
      var value := buffer[head % RING_BUFFER_SIZE];
      hide Span;
      HeadMoves(head, tail, full);
      Removed(buffer[..], head, Len());
      head := (head + 1) % RING_BUFFER_SIZE;
      full := false;
      return Some(value);
    }
  }

  /** The tail is where the next value goes, and moving it adds one. */
  lemma TailMoves(head: nat, tail: nat)
    requires head < RING_BUFFER_SIZE && tail < RING_BUFFER_SIZE
    ensures var tail' := (tail + 1) % RING_BUFFER_SIZE;
            Span(head, tail', tail' == head) == Span(head, tail, false) + 1
    ensures PlaceOf(head, Span(head, tail, false)) == tail == tail % RING_BUFFER_SIZE
  {
    Wraps(tail + 1);
    Wraps(tail + RING_BUFFER_SIZE - head);
    Wraps(head + Span(head, tail, false));
    Wraps((tail + 1) % RING_BUFFER_SIZE + RING_BUFFER_SIZE - head);
  }

  lemma Wraps(n: nat)
    requires n < 2 * RING_BUFFER_SIZE
    ensures n % RING_BUFFER_SIZE == if n < RING_BUFFER_SIZE then n else n - RING_BUFFER_SIZE
  {
  }

  lemma HeadMoves(head: nat, tail: nat, full: bool)
    requires head < RING_BUFFER_SIZE && tail < RING_BUFFER_SIZE && (full || tail != head) && (full ==> tail == head)
    ensures var head' := (head + 1) % RING_BUFFER_SIZE; Span(head', tail, false) + 1 == Span(head, tail, full)
    ensures head % RING_BUFFER_SIZE == head
  {
  }

  lemma EmptyMeans(head: nat, tail: nat, full: bool)
    requires head < RING_BUFFER_SIZE && tail < RING_BUFFER_SIZE
    ensures Span(head, tail, full) == 0 <==> !full && head == tail
  {
  }

  lemma PlacesDiffer(head: nat, i: nat, n: nat)
    requires i < n < RING_BUFFER_SIZE
    ensures PlaceOf(head, i) != PlaceOf(head, n)
  {
  }

  /** Writing one past the end appends. */
  lemma Appended<T>(ring: seq<T>, head: nat, n: nat, value: T)
    requires |ring| == RING_BUFFER_SIZE && n < RING_BUFFER_SIZE
    ensures Queued(ring[PlaceOf(head, n) := value], head, n + 1) == Queued(ring, head, n) + [value]
  {
    hide PlaceOf;
    var (after, before) := (Queued(ring[PlaceOf(head, n) := value], head, n + 1), Queued(ring, head, n) + [value]);
    forall i | 0 <= i < n
      ensures after[i] == before[i]
    {
      PlacesDiffer(head, i, n);
    }
  }

  /** Moving the head past the oldest value removes it. */
  lemma Removed<T>(ring: seq<T>, head: nat, n: nat)
    requires |ring| == RING_BUFFER_SIZE && 0 < n && head < RING_BUFFER_SIZE
    ensures Queued(ring, head, n)[0] == ring[head]
    ensures Queued(ring, (head + 1) % RING_BUFFER_SIZE, n - 1) == Queued(ring, head, n)[1..]
  {
    var (after, before) := (Queued(ring, (head + 1) % RING_BUFFER_SIZE, n - 1), Queued(ring, head, n)[1..]);
    forall i | 0 <= i < n - 1
      ensures after[i] == before[i]
    {
      Shifted(head, i);
    }
  }

  lemma Shifted(head: nat, i: nat)
    requires head < RING_BUFFER_SIZE
    ensures PlaceOf((head + 1) % RING_BUFFER_SIZE, i) == PlaceOf(head, i + 1)
  {
  }
}
