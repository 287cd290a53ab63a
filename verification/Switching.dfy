/**
 Handing the processor from one task to another (src/arch/aarch64/switch.s): the callee-saved
 registers of section 6.1 of the AAPCS64 go to the old stack and come from the new one.
*/
module Switching {
  import opened Wrappers
  import opened Ram
  import opened Tasks

  /** One core: the saved registers x19 to x30 and d8 to d15, the stack pointer, where it returns to. */
  class Core {
    const ram: Memory
    var regs: seq<Word>
    var sp: nat
    var pc: Word

    /** The `sp` field of every task's `Context`. */
    var contexts: seq<nat>

    ghost predicate Valid()
      reads this
    {
      |regs| == SAVED
    }

    /** The machine with this core running a given task. */
    function View(running: nat): Machine
      reads this, ram
    {
      Machine(ram.words, regs, sp, contexts, running)
    }

    constructor (ram: Memory, regs: seq<Word>, sp: nat, contexts: seq<nat>)
      requires |regs| == SAVED
      ensures Valid() && this.ram == ram && this.regs == regs && this.sp == sp && this.contexts == contexts
    {
      this.ram := ram;
      this.regs := regs;
      this.sp := sp;
      this.contexts := contexts;
      pc := 0;
    }

    /** `stp` of the `k`th pair at `[sp, #16 * k]`, the pairs before it being saved over `w` already. */
    method Stp(k: nat, ghost w: seq<Word>)
      requires Valid() && k < SAVED / 2 && sp % 8 == 0 && sp / 8 + SAVED <= |w|
      requires ram.words == SavedTo(w, sp, regs, 2 * k)
      modifies ram
      ensures ram.words == SavedTo(w, sp, regs, 2 * k + 2)
    {
      ram.Store((sp + 16 * k) / 8, regs[2 * k]);
      ram.Store((sp + 16 * k + 8) / 8, regs[2 * k + 1]);
    }

    /** `ldp` of the `k`th pair, the pairs after it being loaded over `was` already. */
    method Ldp(k: nat, ghost was: seq<Word>)
      requires Valid() && |was| == SAVED && k < SAVED / 2 && sp % 8 == 0 && sp / 8 + SAVED <= |ram.words|
      requires regs == LoadedFrom(was, FrameAt(ram.words, sp), 2 * k + 2)
      modifies this`regs
      ensures Valid() && regs == LoadedFrom(was, FrameAt(ram.words, sp), 2 * k)
    {
      regs := regs[2 * k := ram.words[(sp + 16 * k) / 8]];
      regs := regs[2 * k + 1 := ram.words[(sp + 16 * k + 8) / 8]];
    }

    /** The ten `stp`s. */
    method SaveRegisters()
      requires Valid() && sp % 8 == 0 && sp / 8 + SAVED <= |ram.words|
      modifies ram
      ensures ram.words == Saved(old(ram.words), sp, regs)
    {
      hide SavedTo, Saved;
      ghost var w := ram.words;
      FrameEnds(w, sp, regs);
      Stp(0, w);
      Stp(1, w);
      Stp(2, w);
      Stp(3, w);
      Stp(4, w);
      Stp(5, w);
      Stp(6, w);
      Stp(7, w);
      Stp(8, w);
      Stp(9, w);
    }

    /** The ten `ldp`s, last pair first. */
    method LoadRegisters()
      requires Valid() && sp % 8 == 0 && sp / 8 + SAVED <= |ram.words|
      modifies this`regs
      ensures Valid() && regs == FrameAt(ram.words, sp)
    {
      hide LoadedFrom, FrameAt, SavedTo, Saved;
      ghost var was := regs;
      FrameEnds(ram.words, sp, was);
      Ldp(9, was);
      Ldp(8, was);
      Ldp(7, was);
      Ldp(6, was);
      Ldp(5, was);
      Ldp(4, was);
      Ldp(3, was);
      Ldp(2, was);
      Ldp(1, was);
      Ldp(0, was);
    }

    /** Saves this task's registers in a frame below its stack pointer and takes up another's. */
    method Switch(from: nat, to: nat)
      requires Valid() && from < |contexts| && to < |contexts| && from != to
      requires sp % 8 == 0 && SWITCH_FRAME_SIZE <= sp && sp / 8 <= |ram.words|
      requires contexts[to] % 8 == 0 && contexts[to] / 8 + SAVED <= |ram.words|
      modifies this, ram
      ensures Valid() && |ram.words| == |old(ram.words)|
      ensures ram.words == Saved(old(ram.words), old(sp) - SWITCH_FRAME_SIZE, old(regs))
      ensures contexts == old(contexts)[from := old(sp) - SWITCH_FRAME_SIZE]
      ensures regs == FrameAt(ram.words, contexts[to]) && sp == contexts[to] + SWITCH_FRAME_SIZE
      ensures pc == regs[11] == ram.words[(contexts[to] + 88) / 8]
      ensures Switches(old(View(from)), View(to), to)
    {
      hide Saved, FrameAt;
      sp := sp - SWITCH_FRAME_SIZE;
      SaveRegisters();
      contexts := contexts[from := sp];
      sp := contexts[to];
      LoadRegisters();
      sp := sp + SWITCH_FRAME_SIZE;
      pc := regs[X30];
      LinkWord(ram.words, contexts[to]);
    }
  }

  lemma LinkWord(w: seq<Word>, sp: nat)
    requires sp / 8 + SAVED <= |w|
    ensures (sp + 88) / 8 < |w| && FrameAt(w, sp)[11] == w[(sp + 88) / 8]
  {
  }

  /** Memory with the first `n` registers of a frame written at `sp`. */
  function SavedTo(w: seq<Word>, sp: nat, regs: seq<Word>, n: nat): (w': seq<Word>)
    requires |regs| == SAVED && sp / 8 + SAVED <= |w| && n <= SAVED
    ensures |w'| == |w|
  {
    w[..sp / 8] + regs[..n] + w[sp / 8 + n..]
  }

  /** Registers with all but the first `n` loaded from a frame. */
  function LoadedFrom(regs: seq<Word>, frame: seq<Word>, n: nat): (r: seq<Word>)
    requires |regs| == |frame| == SAVED && n <= SAVED
    ensures |r| == SAVED
  {
    regs[..n] + frame[n..]
  }

  lemma FrameEnds(w: seq<Word>, sp: nat, regs: seq<Word>)
    requires |regs| == SAVED && sp / 8 + SAVED <= |w|
    ensures SavedTo(w, sp, regs, 0) == w && SavedTo(w, sp, regs, SAVED) == Saved(w, sp, regs)
    ensures LoadedFrom(regs, FrameAt(w, sp), SAVED) == regs && LoadedFrom(regs, FrameAt(w, sp), 0) == FrameAt(w, sp)
  {
  }

  /** Memory with a frame written at `sp`. */
  function Saved(w: seq<Word>, sp: nat, regs: seq<Word>): (w': seq<Word>)
    requires |regs| == SAVED && sp / 8 + SAVED <= |w|
    ensures |w'| == |w|
  {
    w[..sp / 8] + regs + w[sp / 8 + SAVED..]
  }

  // ----- Any interleaving of switches

  datatype Machine = Machine(words: seq<Word>, regs: seq<Word>, sp: nat, contexts: seq<nat>, running: nat)

  /** What `Core.Switch` does. */
  ghost predicate Switches(m: Machine, m': Machine, to: nat) {
    && |m.regs| == SAVED && SWITCH_FRAME_SIZE <= m.sp && m.sp / 8 <= |m.words|
    && to < |m.contexts| && to != m.running < |m.contexts| && m'.running == to
    && m'.words == Saved(m.words, m.sp - SWITCH_FRAME_SIZE, m.regs)
    && m'.contexts == m.contexts[m.running := m.sp - SWITCH_FRAME_SIZE]
    && m'.contexts[to] / 8 + SAVED <= |m.words|
    && m'.regs == FrameAt(m'.words, m'.contexts[to]) && m'.sp == m'.contexts[to] + SWITCH_FRAME_SIZE
  }

  datatype Stack = Stack(low: nat, high: nat) {
    predicate Contains(k: nat) {
      low <= 8 * k < high
    }
  }

  /** What a task that is not running is owed when it next runs: registers and a stack pointer. */
  datatype Owed = Owed(regs: seq<Word>, sp: nat)

  /** The machine, the stacks of the tasks there are, and what each that is not running is owed. */
  datatype Scene = Scene(m: Machine, stacks: map<nat, Stack>, owed: map<nat, Owed>)

  /** Stacks are word-aligned pieces of memory that do not overlap. */
  ghost predicate Laid(stacks: map<nat, Stack>, size: nat) {
    && (forall i | i in stacks ::
          stacks[i].low % 8 == 0 && stacks[i].high % 8 == 0 && stacks[i].low <= stacks[i].high <= size * 8)
    && forall i, j | i in stacks && j in stacks && i != j ::
         stacks[i].high <= stacks[j].low || stacks[j].high <= stacks[i].low
  }

  /** The stack pointer is in the task's stack, with room for a frame below it. */
  predicate HasRoom(stack: Stack, sp: nat) {
    sp % 8 == 0 && stack.low + SWITCH_FRAME_SIZE <= sp <= stack.high
  }

  /** A task not running has what it is owed saved in its own stack. */
  ghost predicate Parked(s: Scene, i: nat)
    requires i in s.stacks
  {
    && i in s.owed && i < |s.m.contexts|
    && |s.owed[i].regs| == SAVED && HasRoom(s.stacks[i], s.owed[i].sp)
    && s.m.contexts[i] + SWITCH_FRAME_SIZE == s.owed[i].sp
    && s.m.contexts[i] / 8 + SAVED <= |s.m.words|
    && FrameAt(s.m.words, s.m.contexts[i]) == s.owed[i].regs
  }

  ghost predicate Sound(s: Scene) {
    && |s.m.regs| == SAVED && s.m.running in s.stacks && s.m.running < |s.m.contexts|
    && Laid(s.stacks, |s.m.words|)
    && forall i | i in s.stacks && i != s.m.running :: Parked(s, i)
  }

  /**
   What happens next: the running task computes, switches to another, or makes a new one; or one that is
   not running is reaped, after which its stack is memory like any other.
  */
  datatype Event =
    | Work(after: Machine)
    | SwitchTo(to: nat, after: Machine)
    | Born(task: nat, stack: Stack, entry: Word, trampoline: Word, after: Machine)
    | Reaped(task: nat, after: Machine)

  /** The running task writes any memory but another task's stack, and any register. */
  ghost predicate Undisturbed(s: Scene, m': Machine) {
    && m'.running == s.m.running && |m'.regs| == SAVED && |m'.words| == |s.m.words|
    && forall i, k: nat | i in s.stacks && i != s.m.running && k < |s.m.words| && s.stacks[i].Contains(k) ::
         m'.words[k] == s.m.words[k]
  }

  ghost predicate May(s: Scene, e: Event) {
    match e
    case Work(after) => Undisturbed(s, after) && after.contexts == s.m.contexts
    case SwitchTo(to, after) =>
      && to in s.stacks && s.m.running in s.stacks && HasRoom(s.stacks[s.m.running], s.m.sp)
      && Switches(s.m, after, to)
    case Born(task, stack, entry, trampoline, after) =>
      && task !in s.stacks && task < |s.m.contexts| && Laid(s.stacks[task := stack], |s.m.words|)
      && stack.low + CONTEXT_STACK_SIZE == stack.high && Undisturbed(s, after)
      && after.contexts == s.m.contexts[task := stack.high - SWITCH_FRAME_SIZE]
      && (stack.high - SWITCH_FRAME_SIZE) / 8 + SAVED <= |after.words|
      && FrameAt(after.words, stack.high - SWITCH_FRAME_SIZE) == Forged(entry, trampoline)
    case Reaped(task, after) =>
      task in s.stacks && task != s.m.running && Undisturbed(s, after) && after.contexts == s.m.contexts
  }

  function Then(s: Scene, e: Event): Scene {
    match e
    case Work(after) => s.(m := after)
    case SwitchTo(_, after) => s.(m := after, owed := s.owed[s.m.running := Owed(s.m.regs, s.m.sp)])
    case Born(task, stack, entry, trampoline, after) =>
      Scene(after, s.stacks[task := stack], s.owed[task := Owed(Forged(entry, trampoline), stack.high)])
    case Reaped(task, after) => Scene(after, s.stacks - {task}, s.owed - {task})
  }

  ghost predicate Happens(s: Scene, events: seq<Event>)
    decreases |events|
  {
    events == [] || (May(s, events[0]) && Happens(Then(s, events[0]), events[1..]))
  }

  function Final(s: Scene, events: seq<Event>): Scene
    decreases |events|
  {
    if events == [] then s else Final(Then(s, events[0]), events[1..])
  }

  // ----- One event

  lemma FrameFrame(w: seq<Word>, w': seq<Word>, sp: nat, stack: Stack)
    requires |w'| == |w| && sp % 8 == 0 && stack.low <= sp && sp + SWITCH_FRAME_SIZE <= stack.high
    requires sp / 8 + SAVED <= |w|
    requires forall k: nat | k < |w| && stack.Contains(k) :: w'[k] == w[k]
    ensures FrameAt(w', sp) == FrameAt(w, sp)
  {
    forall k: nat | sp / 8 <= k < sp / 8 + SAVED
      ensures w'[k] == w[k]
    {
      assert stack.Contains(k);
    }
  }

  lemma SavedFacts(w: seq<Word>, sp: nat, regs: seq<Word>)
    requires |regs| == SAVED && sp / 8 + SAVED <= |w|
    ensures FrameAt(Saved(w, sp, regs), sp) == regs
    ensures forall k: nat | k < |w| && !(sp / 8 <= k < sp / 8 + SAVED) :: Saved(w, sp, regs)[k] == w[k]
  {
  }

  /** A task whose stack nobody wrote is parked as it was. */
  lemma ParkedStill(s: Scene, s': Scene, i: nat)
    requires i in s.stacks && Parked(s, i) && i in s'.stacks && s'.stacks[i] == s.stacks[i]
    requires i in s'.owed && s'.owed[i] == s.owed[i] && |s'.m.contexts| == |s.m.contexts|
    requires s'.m.contexts[i] == s.m.contexts[i]
    requires |s'.m.words| == |s.m.words|
    requires forall k: nat | k < |s.m.words| && s.stacks[i].Contains(k) :: s'.m.words[k] == s.m.words[k]
    ensures Parked(s', i)
  {
    FrameFrame(s.m.words, s'.m.words, s.m.contexts[i], s.stacks[i]);
  }

  lemma UndisturbedKeeps(s: Scene, e: Event)
    requires Sound(s) && May(s, e) && !e.SwitchTo?
    ensures Sound(Then(s, e))
  {
    hide FrameAt, Forged;
    var s' := Then(s, e);
    forall i | i in s'.stacks && i != s'.m.running
      ensures Parked(s', i)
    {
      if e.Born? && i == e.task {
        BornParked(s, e);
      } else {
        ParkedStill(s, s', i);
      }
    }
  }

  /** The forged frame on a new task's stack is what its first resume needs. */
  lemma BornParked(s: Scene, e: Event)
    requires e.Born? && May(s, e)
    ensures Parked(Then(s, e), e.task)
  {
    hide FrameAt, Forged;
  }

  /** A switch saves what the task it leaves is owed, and the task it enters gets what it was owed. */
  lemma SwitchPaysOwed(s: Scene, to: nat, m': Machine)
    requires Sound(s) && May(s, SwitchTo(to, m'))
    ensures to in s.owed && m'.regs == s.owed[to].regs && m'.sp == s.owed[to].sp
    ensures Sound(Then(s, SwitchTo(to, m')))
  {
    var s' := Then(s, SwitchTo(to, m'));
    OthersParked(s, to, m', to);
    forall i | i in s'.stacks && i != to
      ensures Parked(s', i)
    {
      if i == s.m.running {
        LeftParked(s, to, m');
      } else {
        OthersParked(s, to, m', i);
      }
    }
    hide FrameAt, Saved;
  }

  /** With room below the stack pointer there is a frame's worth of words there. */
  lemma RoomForFrame(s: Scene)
    requires Sound(s) && s.m.running in s.stacks && HasRoom(s.stacks[s.m.running], s.m.sp)
    ensures SWITCH_FRAME_SIZE <= s.m.sp && s.m.sp / 8 <= |s.m.words| && (s.m.sp - SWITCH_FRAME_SIZE) % 8 == 0
    ensures (s.m.sp - SWITCH_FRAME_SIZE) / 8 + SAVED == s.m.sp / 8
  {
    hide Parked;
  }

  lemma StacksApart(s: Scene, i: nat, j: nat)
    requires Sound(s) && i in s.stacks && j in s.stacks && i != j
    ensures s.stacks[i].high <= s.stacks[j].low || s.stacks[j].high <= s.stacks[i].low
  {
    hide Parked;
  }

  lemma OthersParked(s: Scene, to: nat, m': Machine, i: nat)
    requires Sound(s) && May(s, SwitchTo(to, m')) && i in s.stacks && i != s.m.running
    ensures Parked(Then(s, SwitchTo(to, m')), i)
    ensures m'.contexts[i] == s.m.contexts[i] && FrameAt(m'.words, m'.contexts[i]) == s.owed[i].regs
  {
    OthersWords(s, to, m', i);
    assert Parked(s, i);
    hide Saved, FrameAt, Laid, HasRoom, Stack.Contains;
    ParkedStill(s, Then(s, SwitchTo(to, m')), i);
  }

  /** A switch writes no other task's stack. */
  lemma OthersWords(s: Scene, to: nat, m': Machine, i: nat)
    requires Sound(s) && May(s, SwitchTo(to, m')) && i in s.stacks && i != s.m.running
    ensures |m'.words| == |s.m.words|
    ensures forall k: nat | k < |s.m.words| && s.stacks[i].Contains(k) :: m'.words[k] == s.m.words[k]
  {
    RoomForFrame(s);
    StacksApart(s, i, s.m.running);
    SavedFacts(s.m.words, s.m.sp - SWITCH_FRAME_SIZE, s.m.regs);
    hide Saved, FrameAt, Laid, Parked;
    forall k: nat | k < |s.m.words| && s.stacks[i].Contains(k)
      ensures m'.words[k] == s.m.words[k]
    {
      OffFrame(s.stacks[i], s.stacks[s.m.running], s.m.sp, k);
    }
  }

  lemma OffFrame(stack: Stack, other: Stack, sp: nat, k: nat)
    requires HasRoom(other, sp) && stack.Contains(k) && (stack.high <= other.low || other.high <= stack.low)
    ensures !((sp - SWITCH_FRAME_SIZE) / 8 <= k < (sp - SWITCH_FRAME_SIZE) / 8 + SAVED)
  {
  }

  lemma LeftParked(s: Scene, to: nat, m': Machine)
    requires Sound(s) && May(s, SwitchTo(to, m'))
    ensures Parked(Then(s, SwitchTo(to, m')), s.m.running)
  {
    RoomForFrame(s);
    SavedFacts(s.m.words, s.m.sp - SWITCH_FRAME_SIZE, s.m.regs);
    hide Saved, FrameAt, Laid;
  }

  /** With room on its stack the running task may always switch to any other there is. */
  lemma SoundCanSwitch(s: Scene, to: nat) returns (m': Machine)
    requires Sound(s) && to in s.stacks && to != s.m.running && HasRoom(s.stacks[s.m.running], s.m.sp)
    ensures May(s, SwitchTo(to, m')) && s.m.contexts[to] % 8 == 0
  {
    RoomForFrame(s);
    FrameThere(s, to);
    hide Saved, FrameAt, Laid, Parked, HasRoom;
    var m := s.m;
    var words := Saved(m.words, m.sp - SWITCH_FRAME_SIZE, m.regs);
    m' := Machine(words, FrameAt(words, m.contexts[to]), m.contexts[to] + SWITCH_FRAME_SIZE,
                  m.contexts[m.running := m.sp - SWITCH_FRAME_SIZE], to);
  }

  lemma FrameThere(s: Scene, to: nat)
    requires Sound(s) && to in s.stacks && to != s.m.running
    ensures to < |s.m.contexts| && s.m.contexts[to] % 8 == 0 && s.m.contexts[to] / 8 + SAVED <= |s.m.words|
  {
    assert Parked(s, to);
    FrameBelow(s.owed[to].sp);
    hide FrameAt, Laid;
  }

  lemma FrameBelow(sp: nat)
    requires sp % 8 == 0 && sp >= SWITCH_FRAME_SIZE
    ensures (sp - SWITCH_FRAME_SIZE) % 8 == 0
  {
  }

  // ----- Whole runs

  lemma EventKeepsSound(s: Scene, e: Event)
    requires Sound(s) && May(s, e)
    ensures Sound(Then(s, e))
  {
    hide Sound, May, Then;
    if e.SwitchTo? {
      SwitchPaysOwed(s, e.to, e.after);
    } else {
      UndisturbedKeeps(s, e);
    }
  }

  lemma {:induction false} RunKeepsSound(s: Scene, events: seq<Event>)
    requires Sound(s) && Happens(s, events)
    ensures Sound(Final(s, events))
    decreases |events|
  {
    hide Sound, May, Then;
    if events != [] {
      EventKeepsSound(s, events[0]);
      RunKeepsSound(Then(s, events[0]), events[1..]);
    }
  }

  /** Nothing in these events makes, reaps or resumes the task. */
  predicate Dormant(events: seq<Event>, task: nat) {
    forall e | e in events :: !Concerns(e, task)
  }

  predicate Concerns(e: Event, task: nat) {
    match e
    case Work(_) => false
    case SwitchTo(to, _) => to == task
    case Born(t, _, _, _, _) => t == task
    case Reaped(t, _) => t == task
  }

  /** What a dormant task is owed, it stays owed. */
  lemma {:induction false} OwedStays(s: Scene, events: seq<Event>, task: nat)
    requires Happens(s, events) && Dormant(events, task) && task in s.owed && s.m.running != task
    ensures task in Final(s, events).owed && Final(s, events).owed[task] == s.owed[task]
    decreases |events|
  {
    if events != [] {
      var e := events[0];
      assert e in events && !Concerns(e, task);
      assert Then(s, e).m.running != task && task in Then(s, e).owed && Then(s, e).owed[task] == s.owed[task];
      hide May, Then, Concerns;
      OwedStays(Then(s, e), events[1..], task);
    }
  }

  /**
   Over any interleaving of work, switches, births and reapings, a task that switches away and is next
   switched to finds every saved register and its stack pointer as they were.
  */
  lemma ContextPreserved(s0: Scene, before: seq<Event>, next: nat, away: Machine, between: seq<Event>, back: Machine)
    requires Sound(s0) && Happens(s0, before)
    requires var s := Final(s0, before);
             && May(s, SwitchTo(next, away)) && Happens(Then(s, SwitchTo(next, away)), between)
             && Dormant(between, s.m.running)
             && May(Final(Then(s, SwitchTo(next, away)), between), SwitchTo(s.m.running, back))
    ensures back.regs == Final(s0, before).m.regs && back.sp == Final(s0, before).m.sp
  {
    hide Laid, Forged, FrameAt, Saved;
    RunKeepsSound(s0, before);
    var s := Final(s0, before);
    var s1 := Then(s, SwitchTo(next, away));
    EventKeepsSound(s, SwitchTo(next, away));
    RunKeepsSound(s1, between);
    OwedStays(s1, between, s.m.running);
    hide Sound, Happens, Final;
    SwitchPaysOwed(Final(s1, between), s.m.running, back);
  }

  lemma BirthOwes(s: Scene, birth: Event)
    requires Sound(s) && birth.Born? && May(s, birth)
    ensures var s' := Then(s, birth);
            && s'.m.running != birth.task && birth.task in s'.owed
            && s'.owed[birth.task] == Owed(Forged(birth.entry, birth.trampoline), birth.stack.high)
  {
    hide Laid, Forged, FrameAt;
  }

  /**
   However late a task born at any time is first switched to, it enters the trampoline with its entry, on an
   empty stack.
  */
  lemma FirstResume(s0: Scene, before: seq<Event>, birth: Event, between: seq<Event>, first: Machine)
    requires Sound(s0) && Happens(s0, before) && birth.Born?
    requires var s := Final(s0, before);
             && May(s, birth) && Happens(Then(s, birth), between) && Dormant(between, birth.task)
             && May(Final(Then(s, birth), between), SwitchTo(birth.task, first))
    ensures first.regs[X30] == birth.trampoline && first.regs[X19] == birth.entry && first.sp == birth.stack.high
  {
    hide FrameAt, Saved, Laid, Parked;
    RunKeepsSound(s0, before);
    var s := Final(s0, before);
    EventKeepsSound(s, birth);
    BirthOwes(s, birth);
    hide Sound, Happens, Final, May, Then;
    RunKeepsSound(Then(s, birth), between);
    OwedStays(Then(s, birth), between, birth.task);
    SwitchPaysOwed(Final(Then(s, birth), between), birth.task, first);
  }
}
