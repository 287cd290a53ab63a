/**
 Spin locks that mask interrupts while held (src/lib/lock.rs), on one processor: whoever finds a lock
 taken spins until it gives up, because nobody else can run to release it.
*/
module Locks {
  import opened Wrappers

  const MAX_LOCK_ATTEMPTS: nat := 0x100_0000

  /** The processor's interrupt mask. */
  class Cpu {
    var masked: bool
  }

  /** What a guard remembers: the mask as it was before the lock. */
  datatype Guard = Guard(daif: bool)

  class SpinLock {
    var locked: bool

    /** Takes a free lock at once; `None` stands for the panic after too many attempts. */
    method Lock(cpu: Cpu) returns (g: Option<Guard>)
      modifies this, cpu
      ensures g.Some? <==> !old(locked)
      ensures cpu.masked && locked
      ensures g.Some? ==> g.value.daif == old(cpu.masked)
    {
      var daif := cpu.masked;
      cpu.masked := true;
      var attempts := 0;
      while locked
        invariant locked == old(locked) && cpu.masked && attempts <= MAX_LOCK_ATTEMPTS
        decreases MAX_LOCK_ATTEMPTS - attempts
      {
        if attempts == MAX_LOCK_ATTEMPTS {
          return None;
        }
        attempts := attempts + 1;
      }
      locked := true;
      return Some(Guard(daif));
    }

    /** Takes the lock if it is free, and otherwise leaves everything as it was. */
    method TryLock(cpu: Cpu) returns (g: Option<Guard>)
      modifies this, cpu
      ensures if old(locked) then g == None && locked && cpu.masked == old(cpu.masked)
              else g == Some(Guard(old(cpu.masked))) && locked && cpu.masked
    {
      var daif := cpu.masked;
      cpu.masked := true;
      if !locked {
        locked := true;
        return Some(Guard(daif));
      }
      cpu.masked := daif;
      return None;
    }

    /** Dropping a guard. */
    method Release(cpu: Cpu, g: Guard)
      modifies this, cpu
      ensures !locked && cpu.masked == g.daif
    {
      locked := false;
      cpu.masked := g.daif;
    }
  }

  // ----- Several guards at once

  /** The mask, and what each guard still held remembers, oldest first. */
  datatype Guards = Guards(masked: bool, held: seq<bool>)

  function Take(s: Guards): Guards {
    Guards(true, s.held + [s.masked])
  }

  function Drop(s: Guards, i: nat): Guards
    requires i < |s.held|
  {
    Guards(s.held[i], s.held[..i] + s.held[i + 1..])
  }

  /** While any lock is held interrupts are masked, and only the first lock can have found them unmasked. */
  predicate Orderly(s: Guards) {
    (s.held != [] ==> s.masked) && forall i | 0 < i < |s.held| :: s.held[i]
  }

  lemma TakeOrderly(s: Guards)
    requires Orderly(s)
    ensures Orderly(Take(s))
  {
  }

  /** A guard that may go: not the outermost of several, or one that found interrupts masked. */
  predicate SafeDrop(s: Guards, i: nat)
    requires i < |s.held|
  {
    i > 0 || |s.held| == 1 || s.held[0]
  }

  /**
   Interrupts stay masked while a lock is held exactly unless the outermost guard, which found them
   unmasked, is dropped before the others.
  */
  lemma DropOrderly(s: Guards, i: nat)
    requires Orderly(s) && i < |s.held|
    ensures Orderly(Drop(s, i)) <==> SafeDrop(s, i)
  {
    var d := Drop(s, i);
    assert forall k | 0 <= k < |d.held| :: d.held[k] == s.held[if k < i then k else k + 1];
  }

  /** Two locks taken with interrupts on, and the first given up first: interrupts are on with the second held. */
  lemma OuterFirst()
    ensures var s := Drop(Take(Take(Guards(false, []))), 0); s.held != [] && !s.masked
  {
    assert Take(Take(Guards(false, []))).held == [false, true];
  }

  /** What a client does next: take another lock, or drop the `index`th guard it holds. */
  datatype Use = TakeLock | DropGuard(index: nat)

  function Used(s: Guards, use: Use): Guards {
    match use
    case TakeLock => Take(s)
    case DropGuard(i) => if i < |s.held| then Drop(s, i) else s
  }

  function After(s: Guards, uses: seq<Use>): Guards {
    if uses == [] then s else Used(After(s, uses[..|uses| - 1]), uses[|uses| - 1])
  }

  /** In order from the start to the end of a run. */
  predicate AlwaysOrderly(s: Guards, uses: seq<Use>) {
    if uses == [] then Orderly(s) else AlwaysOrderly(s, uses[..|uses| - 1]) && Orderly(After(s, uses))
  }

  predicate DropsSafely(s: Guards, uses: seq<Use>) {
    uses == [] || (DropsSafely(s, uses[..|uses| - 1]) && SafeUse(After(s, uses[..|uses| - 1]), uses[|uses| - 1]))
  }

  predicate SafeUse(s: Guards, use: Use) {
    use.DropGuard? && use.index < |s.held| ==> SafeDrop(s, use.index)
  }

  /** Over any run interrupts are masked whenever a lock is held exactly if every guard dropped may go. */
  lemma {:induction false} RunOrderly(s: Guards, uses: seq<Use>)
    requires Orderly(s)
    ensures AlwaysOrderly(s, uses) <==> DropsSafely(s, uses)
    ensures AlwaysOrderly(s, uses) ==> Orderly(After(s, uses))
    decreases |uses|
  {
    hide Orderly, SafeUse, Used;
    if uses != [] {
      RunOrderly(s, uses[..|uses| - 1]);
      UseOrderly(After(s, uses[..|uses| - 1]), uses[|uses| - 1]);
    }
  }

  lemma UseOrderly(s: Guards, use: Use)
    ensures Orderly(s) ==> (Orderly(Used(s, use)) <==> SafeUse(s, use))
  {
    if Orderly(s) {
      if use.TakeLock? {
        TakeOrderly(s);
      } else if use.index < |s.held| {
        DropOrderly(s, use.index);
      }
    }
  }

  /** Dropped newest first, the guards leave the mask as the first one found it. */
  lemma {:induction false} NestedRestores(s: Guards, n: nat)
    requires n <= |s.held|
    ensures DropNewest(TakeMany(s, n), n) == s
    decreases n
  {
    if n > 0 {
      var t := TakeMany(s, n - 1);
      assert Drop(Take(t), |t.held|) == Guards(t.masked, t.held) by {
        assert Take(t).held[..|t.held|] == t.held;
      }
      NestedRestores(s, n - 1);
    }
  }

  function TakeMany(s: Guards, n: nat): (r: Guards)
    ensures |r.held| == |s.held| + n
  {
    if n == 0 then s else Take(TakeMany(s, n - 1))
  }

  function DropNewest(s: Guards, n: nat): Guards
    requires n <= |s.held|
    decreases n
  {
    if n == 0 then s else DropNewest(Drop(s, |s.held| - 1), n - 1)
  }

  // ----- Runs over real locks

  /** A lock to take, waiting for it or not, or a guard to drop. */
  datatype Call = CallLock(lock: nat) | CallTryLock(lock: nat) | CallDrop(index: nat)

  /** A guard, and the lock it is for. */
  datatype Held = Held(lock: nat, guard: Guard)

  function Masks(held: seq<Held>): (r: seq<bool>)
    ensures |r| == |held| && forall i | 0 <= i < |held| :: r[i] == held[i].guard.daif
  {
    seq(|held|, i requires 0 <= i < |held| => held[i].guard.daif)
  }

  /** Exactly the locks with a guard are taken, each by one guard. */
  ghost predicate Guarded(taken: seq<bool>, held: seq<Held>) {
    && (forall i | 0 <= i < |held| :: held[i].lock < |taken|)
    && (forall i, j | 0 <= i < j < |held| :: held[i].lock != held[j].lock)
    && forall l | 0 <= l < |taken| :: taken[l] <==> HasGuard(held, l)
  }

  ghost predicate HasGuard(held: seq<Held>, l: nat) {
    exists i :: 0 <= i < |held| && held[i].lock == l
  }

  ghost function Taken(locks: seq<SpinLock>): (taken: seq<bool>)
    reads set l | l in locks
    ensures |taken| == |locks| && forall l | 0 <= l < |locks| :: taken[l] == locks[l].locked
  {
    seq(|locks|, l requires 0 <= l < |locks| reads set l | l in locks => locks[l].locked)
  }

  lemma OneMoreGuard(taken: seq<bool>, held: seq<Held>, l: nat, g: Guard)
    requires Guarded(taken, held) && l < |taken| && !taken[l]
    ensures Guarded(taken[l := true], held + [Held(l, g)]) && Masks(held + [Held(l, g)]) == Masks(held) + [g.daif]
  {
    var held' := held + [Held(l, g)];
    assert held'[|held|].lock == l;
    forall k | 0 <= k < |taken| && HasGuard(held, k)
      ensures HasGuard(held', k)
    {
      var i :| 0 <= i < |held| && held[i].lock == k;
      assert held'[i].lock == k;
    }
  }

  lemma OneGuardLess(taken: seq<bool>, held: seq<Held>, held': seq<Held>, i: nat)
    requires Guarded(taken, held) && i < |held| && |held'| == |held| - 1
    requires forall k | 0 <= k < |held'| :: held'[k] == held[if k < i then k else k + 1]
    ensures held[i].lock < |taken| && Guarded(taken[held[i].lock := false], held')
    ensures Masks(held') == Masks(held)[..i] + Masks(held)[i + 1..]
  {
    forall l | 0 <= l < |taken| && HasGuard(held, l) && l != held[i].lock
      ensures HasGuard(held', l)
    {
      var k :| 0 <= k < |held| && held[k].lock == l;
      assert held'[if k < i then k else k - 1].lock == l;
    }
  }

  lemma TakenIsHeld(taken: seq<bool>, held: seq<Held>, l: nat)
    requires Guarded(taken, held) && l < |taken|
    ensures taken[l] <==> HasGuard(held, l)
  {
  }

  lemma EndsMasked(s: Guards, uses: seq<Use>)
    requires s.held == []
    ensures DropsSafely(s, uses) && After(s, uses).held != [] ==> After(s, uses).masked
  {
    RunOrderly(s, uses);
  }

  lemma OneMoreUse(s: Guards, uses: seq<Use>, use: Use)
    ensures After(s, uses + [use]) == Used(After(s, uses), use)
  {
    assert (uses + [use])[..|uses|] == uses;
  }

  /** Taking one lock of several, waiting for it or not, leaves the others alone. */
  method TakeAt(cpu: Cpu, locks: seq<SpinLock>, l: nat, wait: bool) returns (g: Option<Guard>)
    requires (forall i, j | 0 <= i < j < |locks| :: locks[i] != locks[j]) && l < |locks|
    modifies cpu, set k | k in locks
    ensures g.Some? <==> !old(locks[l].locked)
    ensures Taken(locks) == if g.Some? then old(Taken(locks))[l := true] else old(Taken(locks))
    ensures g.Some? ==> cpu.masked && g.value.daif == old(cpu.masked)
    ensures g.None? ==> cpu.masked == (wait || old(cpu.masked))
  {
    if wait {
      g := locks[l].Lock(cpu);
    } else {
      g := locks[l].TryLock(cpu);
    }
  }

  method ReleaseAt(cpu: Cpu, locks: seq<SpinLock>, h: Held)
    requires (forall i, j | 0 <= i < j < |locks| :: locks[i] != locks[j]) && h.lock < |locks|
    modifies cpu, set k | k in locks
    ensures Taken(locks) == old(Taken(locks))[h.lock := false] && cpu.masked == h.guard.daif
  {
    locks[h.lock].Release(cpu, h.guard);
  }

  // ----- What a run of calls does

  /** The mask, and which locks are held with which guards, oldest first. */
  datatype Holding = Holding(masked: bool, held: seq<Held>)

  /** Waiting for a lock that is held: nobody else can run to release it. */
  ghost predicate Waits(h: Holding, count: nat, call: Call) {
    call.CallLock? && call.lock < count && HasGuard(h.held, call.lock)
  }

  /** What a call does to the guards, if anything: it takes a free lock, or drops a guard there is. */
  ghost function UseOf(h: Holding, count: nat, call: Call): Option<Use> {
    match call
    case CallDrop(i) => if i < |h.held| then Some(DropGuard(i)) else None
    case CallLock(l) => if l < count && !HasGuard(h.held, l) then Some(TakeLock) else None
    case CallTryLock(l) => if l < count && !HasGuard(h.held, l) then Some(TakeLock) else None
  }

  /** What is held after a call that does not wait. */
  ghost function Called(h: Holding, count: nat, call: Call): Holding {
    match call
    case CallDrop(i) =>
      if i < |h.held| then Holding(h.held[i].guard.daif, h.held[..i] + h.held[i + 1..]) else h
    case CallLock(l) => Locked(h, count, l)
    case CallTryLock(l) => Locked(h, count, l)
  }

  ghost function Locked(h: Holding, count: nat, l: nat): Holding {
    if l < count && !HasGuard(h.held, l) then Holding(true, h.held + [Held(l, Guard(h.masked))]) else h
  }

  ghost function Served(h: Holding, count: nat, calls: seq<Call>): Holding {
    if calls == [] then h else Called(Served(h, count, calls[..|calls| - 1]), count, calls[|calls| - 1])
  }

  /** The guards taken and dropped on the way. */
  ghost function UsesOf(h: Holding, count: nat, calls: seq<Call>): seq<Use> {
    if calls == [] then []
    else
      var (before, call) := (calls[..|calls| - 1], calls[|calls| - 1]);
      var use := UseOf(Served(h, count, before), count, call);
      UsesOf(h, count, before) + if use.Some? then [use.value] else []
  }

  function GuardsOf(h: Holding): Guards {
    Guards(h.masked, Masks(h.held))
  }

  lemma CalledIsUsed(h: Holding, count: nat, call: Call)
    ensures var use := UseOf(h, count, call);
            GuardsOf(Called(h, count, call)) == if use.Some? then Used(GuardsOf(h), use.value) else GuardsOf(h)
  {
    hide HasGuard;
  }

  /** The mask and the guards of any calls are those of the guards they take and drop. */
  lemma {:induction false} ServedIsAfter(h: Holding, count: nat, calls: seq<Call>)
    ensures GuardsOf(Served(h, count, calls)) == After(GuardsOf(h), UsesOf(h, count, calls))
    decreases |calls|
  {
    if calls != [] {
      var (before, call) := (calls[..|calls| - 1], calls[|calls| - 1]);
      ServedIsAfter(h, count, before);
      CalledIsUsed(Served(h, count, before), count, call);
      hide Used, UseOf, Called, Masks;
      var use := UseOf(Served(h, count, before), count, call);
      if use.Some? {
        OneMoreUse(GuardsOf(h), UsesOf(h, count, before), use.value);
      } else {
        assert UsesOf(h, count, calls) == UsesOf(h, count, before);
      }
    }
  }

  /** So if every guard dropped may go, no lock is ever held with interrupts on. */
  lemma CallsStayMasked(h: Holding, count: nat, calls: seq<Call>)
    requires h.held == [] && DropsSafely(GuardsOf(h), UsesOf(h, count, calls))
    ensures Served(h, count, calls).held != [] ==> Served(h, count, calls).masked
  {
    ServedIsAfter(h, count, calls);
    EndsMasked(GuardsOf(h), UsesOf(h, count, calls));
  }

  /** One call; it gives up exactly when it waits for a lock that is held, and then leaves interrupts masked. */
  method CallOne(cpu: Cpu, locks: seq<SpinLock>, call: Call, held: seq<Held>) returns (held': seq<Held>, panicked: bool)
    requires forall i, j | 0 <= i < j < |locks| :: locks[i] != locks[j]
    requires Guarded(Taken(locks), held)
    modifies cpu, set l | l in locks
    ensures Guarded(Taken(locks), held')
    ensures panicked <==> Waits(Holding(old(cpu.masked), held), |locks|, call)
    ensures Holding(cpu.masked, held') ==
            if panicked then Holding(true, held) else Called(Holding(old(cpu.masked), held), |locks|, call)
  {
    hide Guarded, HasGuard;
    ghost var taken := Taken(locks);
    held', panicked := held, false;
    match call {
      case CallDrop(i) =>
        if i < |held| {
          held' := held[..i] + held[i + 1..];
          OneGuardLess(taken, held, held', i);
          ReleaseAt(cpu, locks, held[i]);
        }
      case CallLock(l) =>
        if l < |locks| {
          TakenIsHeld(taken, held, l);
          var g := TakeAt(cpu, locks, l, true);
          if g == None {
            panicked := true;
          } else {
            OneMoreGuard(taken, held, l, g.value);
            held' := held + [Held(l, g.value)];
          }
        }
      case CallTryLock(l) =>
        if l < |locks| {
          TakenIsHeld(taken, held, l);
          var g := TakeAt(cpu, locks, l, false);
          if g.Some? {
            OneMoreGuard(taken, held, l, g.value);
            held' := held + [Held(l, g.value)];
          }
        }
    }
  }

  /**
   Any calls on any locks, up to the first that waits for a lock that is held: `done` says how many were
   served. What is held then, and the mask, are what those calls say, and exactly the locks with a guard are taken.
  */
  method RunCalls(cpu: Cpu, locks: seq<SpinLock>, calls: seq<Call>) returns (held: seq<Held>, done: nat)
    requires forall i, j | 0 <= i < j < |locks| :: locks[i] != locks[j]
    requires Guarded(Taken(locks), [])
    modifies cpu, set l | l in locks
    ensures done <= |calls| && Guarded(Taken(locks), held)
    ensures forall i: nat | i < done ::
              !Waits(Served(Holding(old(cpu.masked), []), |locks|, calls[..i]), |locks|, calls[i])
    ensures done < |calls| ==> cpu.masked && Waits(Holding(cpu.masked, held), |locks|, calls[done])
    ensures var served := Served(Holding(old(cpu.masked), []), |locks|, calls[..done]);
            held == served.held && (done == |calls| ==> cpu.masked == served.masked)
    ensures var uses := UsesOf(Holding(old(cpu.masked), []), |locks|, calls[..done]);
            DropsSafely(Guards(old(cpu.masked), []), uses) && held != [] ==> cpu.masked
  {
    hide Guarded, Called, DropsSafely, HasGuard, Taken, UsesOf, Masks;
    held, done := [], 0;
    ghost var start := Holding(cpu.masked, []);
    NoMasks([]);
    while done < |calls|
      invariant done <= |calls| && Guarded(Taken(locks), held)
      invariant Holding(cpu.masked, held) == Served(start, |locks|, calls[..done])
      invariant forall i: nat | i < done :: !Waits(Served(start, |locks|, calls[..i]), |locks|, calls[i])
    {
      var panicked;
      held, panicked := CallOne(cpu, locks, calls[done], held);
      if panicked {
        return;
      }
      ServedMore(start, |locks|, calls, done);
      done := done + 1;
    }
    if DropsSafely(GuardsOf(start), UsesOf(start, |locks|, calls[..done])) {
      CallsStayMasked(start, |locks|, calls[..done]);
    }
  }

  lemma ServedMore(h: Holding, count: nat, calls: seq<Call>, n: nat)
    requires n < |calls|
    ensures Served(h, count, calls[..n + 1]) == Called(Served(h, count, calls[..n]), count, calls[n])
  {
    assert calls[..n + 1][..n] == calls[..n];
  }

  lemma NoMasks(held: seq<Held>)
    ensures Masks(held) == [] <==> held == []
  {
  }
}
