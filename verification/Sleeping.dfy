/**
 Tasks, interrupts and the wait queue as one system of steps (src/kernel/sched/mod.rs, wait.rs,
 src/tty/input.rs): `getc` on any number of tasks against `push_character` in the serial interrupt,
 with preemption, exit, reaping and an idle task.

 A step is one locked section, or what the processor does between two of them. Interrupts arrive
 between any two steps at which they are not masked. There is one processor, so a lock is never found
 taken; an `unwrap` of an empty slot and a return into `task_exit` are modelled as a panic.
*/
module Sleeping {
  import opened Wrappers
  import opened RingBuffers
  import opened Tasks
  import opened Scheduling

  datatype InputByte = InputByte(byte: nat, error: bool)

  /** Where a task's own code is. */
  datatype Base =
    | Fresh                    // never run
    | User                     // outside everything below
    | Calling                  // in `getc`, interrupts as they were
    | Masked                   // in `getc`, interrupts masked
    | Prepared                 // on the queue and blocked, buffer not checked
    | Found(byte: InputByte)   // took a byte, still on the queue
    | Empty                    // found none
    | Exiting                  // in `task_exit`
    | Exited                   // marked dead

  /** Where an interrupt on top of it is. */
  datatype Irq = NoIrq | Storing(byte: InputByte) | Waking | Flagging | Counting | Leaving

  /** Where a call of `schedule` on top of that is; a task not on the processor is `Away` in one. */
  datatype Call = Out | Entering | Switching(next: nat) | Away

  datatype Pos = Pos(base: Base, irq: Irq, call: Call)

  datatype System = System(
    table: Table,
    current: nat,
    cpu: nat,               // whose stack the processor is on
    masked: bool,
    resched: bool,
    waiters: set<nat>,
    buffer: seq<InputByte>,
    pos: seq<Pos>,
    accepted: seq<InputByte>,   // bytes stored, in order
    delivered: seq<InputByte>,  // bytes `getc` has returned, in order
    panicked: bool
  )

  datatype Action =
    | CallGetc | MaskIrqs | Prepare | Check | Finish | GiveUp
    | Return | Die | LeaveForGood
    | Spawn(slot: nat)
    | Serial(byte: InputByte) | StoreByte | WakeAll(more: Option<InputByte>)
    | Timer | Flag | Count
    | Preempt | Pick | Switch

  // ----- Steps

  function Here(s: System): Pos
    requires s.cpu < |s.pos|
  {
    s.pos[s.cpu]
  }

  function At(s: System, p: Pos): System
    requires s.cpu < |s.pos|
  {
    s.(pos := s.pos[s.cpu := p])
  }

  predicate InOwnCode(s: System, base: Base)
    requires s.cpu < |s.pos|
  {
    Here(s) == Pos(base, NoIrq, Out)
  }

  /** `task_table[current].as_mut().unwrap()` followed by a change of state. */
  function SetState(s: System, state: State): System {
    if s.current < |s.table| && s.table[s.current].Some? then s.(table := WithState(s.table, s.current, state))
    else s.(panicked := true)
  }

  /** `schedule` returns to the code that called it, which restores the interrupt mask it saw. */
  function Resume(s: System): System
    requires s.cpu < |s.pos|
  {
    var p := Here(s);
    if p.irq.Leaving? then At(s, Pos(p.base, NoIrq, Out)).(masked := false)
    else
      match p.base
      case Fresh => At(s, Pos(User, NoIrq, Out)).(masked := false)
      case Empty => At(s, Pos(Calling, NoIrq, Out)).(masked := false)
      case _ => s.(panicked := true)
  }

  function NewTaskIn(slot: nat): Task {
    Task(slot, 0, None, 0, Ready)
  }

  predicate FirstFree(table: Table, slot: nat) {
    slot < |table| && table[slot] == None && forall i | 0 <= i < slot :: table[i].Some?
  }

  /** Every waiter's slot is occupied, so waking them panics on none. */
  predicate Wakeable(s: System) {
    forall i | 0 <= i < |s.table| && i in s.waiters :: s.table[i].Some?
  }

  ghost predicate Step(s: System, a: Action, s': System)
    requires |s.pos| == |s.table| == TASKS_COUNT && s.cpu < TASKS_COUNT
  {
    match a
    case CallGetc => InOwnCode(s, User) && s.cpu != IDLE_TASK_ID && s' == At(s, Pos(Calling, NoIrq, Out))
    case MaskIrqs => InOwnCode(s, Calling) && s' == At(s, Pos(Masked, NoIrq, Out)).(masked := true)
    case Prepare =>
      InOwnCode(s, Masked) &&
      s' == At(SetState(s.(waiters := s.waiters + {s.current}), Blocked), Pos(Prepared, NoIrq, Out))
    case Check =>
      InOwnCode(s, Prepared) &&
      s' == if s.buffer == [] then At(s, Pos(Empty, NoIrq, Out))
            else At(s, Pos(Found(s.buffer[0]), NoIrq, Out)).(buffer := s.buffer[1..])
    case Finish =>
      Here(s).base.Found? && InOwnCode(s, Here(s).base) &&
      s' == At(SetState(s.(waiters := s.waiters - {s.current}), Ready), Pos(User, NoIrq, Out))
            .(masked := false, delivered := s.delivered + [Here(s).base.byte])
    case GiveUp => InOwnCode(s, Empty) && s' == At(s, Pos(Empty, NoIrq, Entering))
    case Return =>
      && InOwnCode(s, User) && s.cpu != IDLE_TASK_ID && s.cpu != BOOT_TASK_ID
      && s' == At(s, Pos(Exiting, NoIrq, Out))
    case Die => InOwnCode(s, Exiting) && s' == At(SetState(s, Dead), Pos(Exited, NoIrq, Out))
    case LeaveForGood => InOwnCode(s, Exited) && s' == At(s, Pos(Exited, NoIrq, Entering)).(masked := true)
    case Spawn(slot) =>
      InOwnCode(s, User) && FirstFree(s.table, slot) && slot < |s.pos| &&
      s' == s.(table := s.table[slot := Some(NewTaskIn(slot))], pos := s.pos[slot := Pos(Fresh, NoIrq, Away)])
    case Serial(byte) => Interruptible(s) && s' == At(s, Here(s).(irq := Storing(byte))).(masked := true)
    case StoreByte =>
      Here(s).irq.Storing? && Here(s).call.Out? &&
      var after := At(s, Here(s).(irq := Waking));
      s' == if |s.buffer| < RING_BUFFER_SIZE
            then after.(buffer := s.buffer + [Here(s).irq.byte], accepted := s.accepted + [Here(s).irq.byte]) else after
    case WakeAll(more) =>
      Here(s).irq.Waking? && Here(s).call.Out? &&
      s' == At(s, Here(s).(irq := if more.Some? then Storing(more.value) else Leaving))
            .(table := Woken(s.table, s.waiters), waiters := {}, resched := s.resched || s.waiters != {},
              panicked := s.panicked || !Wakeable(s))
    case Timer => Interruptible(s) && s' == At(s, Here(s).(irq := Flagging)).(masked := true)
    case Flag => Here(s).irq.Flagging? && Here(s).call.Out? && s' == At(s, Here(s).(irq := Counting)).(resched := true)
    case Count => Here(s).irq.Counting? && Here(s).call.Out? && s' == At(Ticked(s), Here(s).(irq := Leaving))
    case Preempt =>
      Here(s).irq.Leaving? && Here(s).call.Out? &&
      s' == if s.resched then At(s, Here(s).(call := Entering)).(resched := false)
            else At(s, Here(s).(irq := NoIrq)).(masked := false)
    case Pick =>
      Here(s).call.Entering? && |s'.table| == TASKS_COUNT &&
      var pruned := s.(table := Pruned(s.table, s.current));
      Chosen(pruned.table, s.current, s'.current) &&
      s' == if s'.current == s.current then Resume(pruned)
            else At(pruned, Here(s).(call := Switching(s'.current))).(current := s'.current)
    case Switch =>
      Here(s).call.Switching? && Here(s).call.next < TASKS_COUNT &&
      s' == Resume(At(s, Here(s).(call := Away)).(cpu := Here(s).call.next))
  }

  predicate Interruptible(s: System)
    requires s.cpu < |s.pos|
  {
    !s.masked && Here(s).irq.NoIrq? && Here(s).call.Out?
  }

  function Ticked(s: System): System {
    if s.current < |s.table| && s.table[s.current].Some? then
      s.(table := s.table[s.current := Some(s.table[s.current].value.(ticks := s.table[s.current].value.ticks + 1))])
    else s.(panicked := true)
  }

  // ----- What every reachable state keeps

  /** Code an interrupt may land on. */
  predicate Open(base: Base) {
    base.User? || base.Calling? || base.Exiting? || base.Exited?
  }

  predicate OnCpu(p: Pos) {
    && !p.base.Fresh? && !p.call.Away?
    && (!p.irq.NoIrq? ==> Open(p.base))
    && (!p.call.Out? ==> p.irq.Leaving? || (p.irq.NoIrq? && (p.base.Empty? || p.base.Exited?)))
  }

  predicate OffCpu(p: Pos) {
    && p.call.Away?
    && if p.irq.Leaving? then Open(p.base) else p.irq.NoIrq? && (p.base.Fresh? || p.base.Empty? || p.base.Exited?)
  }

  predicate MasksAt(p: Pos) {
    !p.irq.NoIrq? || !p.call.Out? || p.base.Masked? || p.base.Prepared? || p.base.Found? || p.base.Empty?
  }

  /** A task's state says where it is. */
  predicate StateFits(task: Task, base: Base) {
    && (task.state == Dead <==> base.Exited?)
    && (task.state == Blocked ==> base.Prepared? || base.Found? || base.Empty?)
    && (base.Prepared? || base.Found? ==> task.state == Blocked)
  }

  ghost predicate Shape(s: System) {
    && |s.pos| == |s.table| == TASKS_COUNT && s.cpu < TASKS_COUNT && !s.panicked
    && TableOk(s.table, s.current) && s.table[s.cpu].Some?
    && (if Here(s).call.Switching? then Here(s).call.next == s.current != s.cpu && IsReady(s.table[s.current])
         else s.current == s.cpu)
    && s.masked == MasksAt(Here(s))
  }

  ghost predicate Places(s: System)
    requires |s.pos| == |s.table| == TASKS_COUNT && s.cpu < TASKS_COUNT
  {
    && (forall i | 0 <= i < TASKS_COUNT && s.table[i].Some? ::
          (if i == s.cpu then OnCpu(s.pos[i]) else OffCpu(s.pos[i])) && StateFits(s.table[i].value, s.pos[i].base))
    && (s.pos[IDLE_TASK_ID].base.Fresh? || s.pos[IDLE_TASK_ID].base.User?)
  }

  /** A queue bit is set exactly when that task is blocked. */
  ghost predicate QueueTells(s: System) {
    forall i: nat :: i in s.waiters <==> i < |s.table| && IsBlocked(s.table[i])
  }

  /** The byte a `getc` has taken and not returned yet. */
  function InHand(s: System): seq<InputByte>
    requires s.cpu < |s.pos|
  {
    if Here(s).base.Found? then [Here(s).base.byte] else []
  }

  /** Nothing is lost, repeated or reordered between the interrupt and `getc`. */
  ghost predicate BytesAccounted(s: System)
    requires s.cpu < |s.pos|
  {
    s.accepted == s.delivered + InHand(s) + s.buffer && |s.buffer| <= RING_BUFFER_SIZE
  }

  /** A byte was stored and the waiters have not been woken yet. */
  predicate PushUnderWay(s: System)
    requires s.cpu < |s.pos|
  {
    Here(s).irq.Waking?
  }

  /** With a byte buffered and no push under way, whoever is blocked has yet to check, or holds a byte. */
  ghost predicate NoLostWakeup(s: System)
    requires |s.pos| == |s.table| == TASKS_COUNT && s.cpu < TASKS_COUNT
  {
    s.buffer != [] && !PushUnderWay(s) ==>
      forall i | 0 <= i < TASKS_COUNT && IsBlocked(s.table[i]) :: s.pos[i].base.Prepared? || s.pos[i].base.Found?
  }

  ghost predicate Inv(s: System) {
    Shape(s) && Places(s) && QueueTells(s) && BytesAccounted(s) && NoLostWakeup(s)
  }

  /** The state `sched::init` leaves: the boot task running, idle never run, nothing buffered. */
  function Initial(): System {
    System(
      [Some(NewTaskIn(BOOT_TASK_ID)), Some(NewTaskIn(IDLE_TASK_ID)), None, None], BOOT_TASK_ID, BOOT_TASK_ID,
      false, false, {}, [],
      [Pos(User, NoIrq, Out), Pos(Fresh, NoIrq, Away), Pos(Fresh, NoIrq, Away), Pos(Fresh, NoIrq, Away)],
      [], [], false)
  }

  lemma InitialInv()
    ensures Inv(Initial())
  {
  }

  /** The steps that move only the running task: in its own code, into `schedule`, or in an interrupt on top of it. */
  predicate Moves(a: Action) {
    a.CallGetc? || a.MaskIrqs? || a.Return?
  }

  predicate CallMoves(a: Action) {
    a.GiveUp? || a.LeaveForGood?
  }

  predicate IrqMoves(a: Action) {
    a.Serial? || a.Timer? || a.Flag? || a.Preempt?
  }

  lemma MoveKeeps(s: System, a: Action, s': System)
    requires Inv(s) && Step(s, a, s') && Moves(a)
    ensures Inv(s')
  {
    hide Woken, Pruned, Chosen, Resume, FirstFree, Wakeable, Ticked, SetState;
  }

  lemma CallMoveKeeps(s: System, a: Action, s': System)
    requires Inv(s) && Step(s, a, s') && CallMoves(a)
    ensures Inv(s')
  {
    hide Woken, Pruned, Chosen, Resume, FirstFree, Wakeable, Ticked, SetState;
  }

  lemma IrqMoveKeeps(s: System, a: Action, s': System)
    requires Inv(s) && Step(s, a, s') && IrqMoves(a)
    ensures Inv(s')
  {
    hide Woken, Pruned, Chosen, Resume, FirstFree, Wakeable, Ticked, SetState;
  }

  lemma PrepareKeeps(s: System, a: Action, s': System)
    requires Inv(s) && Step(s, a, s') && a.Prepare?
    ensures Inv(s')
  {
  }

  lemma CheckKeeps(s: System, a: Action, s': System)
    requires Inv(s) && Step(s, a, s') && a.Check?
    ensures Inv(s')
  {
  }

  lemma FinishKeeps(s: System, a: Action, s': System)
    requires Inv(s) && Step(s, a, s') && a.Finish?
    ensures Inv(s')
  {
  }

  lemma DieKeeps(s: System, a: Action, s': System)
    requires Inv(s) && Step(s, a, s') && a.Die?
    ensures Inv(s')
  {
  }

  lemma SpawnKeeps(s: System, a: Action, s': System)
    requires Inv(s) && Step(s, a, s') && a.Spawn?
    ensures Inv(s')
  {
  }

  lemma StoreByteKeeps(s: System, a: Action, s': System)
    requires Inv(s) && Step(s, a, s') && a.StoreByte?
    ensures Inv(s')
  {
  }

  lemma WakeAllKeeps(s: System, a: Action, s': System)
    requires Inv(s) && Step(s, a, s') && a.WakeAll?
    ensures Inv(s')
  {
    WokenOk(s.table, s.waiters, s.current);
    hide Pruned, Chosen, Resume, FirstFree, Ticked, SetState;
  }

  lemma CountKeeps(s: System, a: Action, s': System)
    requires Inv(s) && Step(s, a, s') && a.Count?
    ensures Inv(s')
  {
  }

  /** `schedule` returning to a task that is ready: it goes on, with interrupts as they were. */
  lemma ResumeFacts(s: System)
    requires s.cpu < |s.pos| && !s.panicked
    requires var p := Here(s);
             if p.irq.Leaving? then Open(p.base) else p.irq.NoIrq? && (p.base.Fresh? || p.base.Empty?)
    ensures var (p, q) := (Here(s), Here(Resume(s)));
            && Resume(s) == s.(pos := s.pos[s.cpu := q], masked := false)
            && OnCpu(q) && !MasksAt(q) && q.call.Out? && q.irq.NoIrq? && !q.base.Found?
            && (if p.irq.Leaving? then q.base == p.base else q.base == if p.base.Fresh? then User else Calling)
  {
  }

  lemma PickKeeps(s: System, a: Action, s': System)
    requires Inv(s) && Step(s, a, s') && a.Pick?
    ensures Inv(s')
  {
    PickedIsReady(s, s');
    PrunedFacts(s);
    if s'.current == s.current {
      ResumeFacts(s.(table := Pruned(s.table, s.current)));
    }
    PickPlaces(s, s');
    hide Resume, Chosen, Pruned, Step, Places, Shape;
  }

  lemma PrunedFacts(s: System)
    requires Inv(s)
    ensures var t := Pruned(s.table, s.current);
            && TableOk(t, s.current)
            && forall i | 0 <= i < TASKS_COUNT ::
                 && (t[i].Some? ==> t[i] == s.table[i])
                 && (!IsDead(s.table[i]) || i == s.current ==> t[i] == s.table[i])
  {
    PrunedOk(s.table, s.current);
  }

  lemma PickPlaces(s: System, s': System)
    requires Inv(s) && Step(s, Pick, s')
    ensures Shape(s') && Places(s')
  {
    hide QueueTells, BytesAccounted, NoLostWakeup;
    PickedIsReady(s, s');
    PrunedFacts(s);
    if s'.current == s.current {
      ResumeFacts(s.(table := Pruned(s.table, s.current)));
    }
    hide Resume, Chosen, Pruned, Step;
  }

  lemma PickedIsReady(s: System, s': System)
    requires Inv(s) && Step(s, Pick, s')
    ensures s'.current < TASKS_COUNT && IsReady(s.table[s'.current])
    ensures s'.current == s.current ==> !Here(s).base.Exited? && (Here(s).irq.Leaving? || Here(s).base.Empty?)
    ensures s' == if s'.current == s.current then Resume(s.(table := Pruned(s.table, s.current)))
                  else At(s.(table := Pruned(s.table, s.current)),
                          Here(s).(call := Switching(s'.current))).(current := s'.current)
  {
    PrunedOk(s.table, s.current);
    hide Resume;
  }

  lemma SwitchKeeps(s: System, a: Action, s': System)
    requires Inv(s) && Step(s, a, s') && a.Switch?
    ensures Inv(s')
  {
    var n := s.current;
    var left := At(s, Here(s).(call := Away)).(cpu := n);
    assert OffCpu(left.pos[s.cpu]);
    assert OffCpu(s.pos[n]) && !s.pos[n].base.Exited?;
    ResumeFacts(left);
    hide Resume;
    assert Shape(s') && Places(s');
  }

  /** The heart of it: every step keeps all of this. */
  lemma StepKeepsInv(s: System, a: Action, s': System)
    requires Inv(s) && Step(s, a, s')
    ensures Inv(s')
  {
    hide Inv, Step;
    match a {
      case Prepare => PrepareKeeps(s, a, s');
      case Check => CheckKeeps(s, a, s');
      case Finish => FinishKeeps(s, a, s');
      case Die => DieKeeps(s, a, s');
      case Spawn(_) => SpawnKeeps(s, a, s');
      case StoreByte => StoreByteKeeps(s, a, s');
      case WakeAll(_) => WakeAllKeeps(s, a, s');
      case Count => CountKeeps(s, a, s');
      case Pick => PickKeeps(s, a, s');
      case Switch => SwitchKeeps(s, a, s');
      case _ =>
        if Moves(a) {
          MoveKeeps(s, a, s');
        } else if CallMoves(a) {
          CallMoveKeeps(s, a, s');
        } else {
          IrqMoveKeeps(s, a, s');
        }
    }
  }

  // ----- Whole runs

  predicate Sized(s: System) {
    |s.pos| == |s.table| == TASKS_COUNT && s.cpu < TASKS_COUNT
  }

  ghost predicate Run(states: seq<System>, actions: seq<Action>) {
    && |states| == |actions| + 1
    && forall i | 0 <= i < |actions| :: Sized(states[i]) && Step(states[i], actions[i], states[i + 1])
  }

  lemma {:induction false} RunKeepsInv(states: seq<System>, actions: seq<Action>, n: nat)
    requires Run(states, actions) && Inv(states[0]) && n < |states|
    ensures Inv(states[n])
    decreases n
  {
    hide Inv, Step;
    if n > 0 {
      RunKeepsInv(states, actions, n - 1);
      StepKeepsInv(states[n - 1], actions[n - 1], states[n]);
    }
  }

  /**
   What any run from `sched::init` can rely on. No `unwrap` fails and `task_exit` is never returned to;
   bytes come out once each, in the order they were stored; the running task's slot is occupied; and
   with a byte buffered and no push under way, no task that is off the processor is blocked.
  */
  lemma Safety(states: seq<System>, actions: seq<Action>, n: nat)
    requires Run(states, actions) && states[0] == Initial() && n < |states|
    ensures var s := states[n];
            && Sized(s) && !s.panicked && s.table[s.cpu].Some? && TableOk(s.table, s.current)
            && s.delivered + InHand(s) + s.buffer == s.accepted
            && (forall i: nat :: i in s.waiters <==> i < TASKS_COUNT && IsBlocked(s.table[i]))
            && (s.buffer != [] && !PushUnderWay(s) ==>
                  forall i | 0 <= i < TASKS_COUNT && i != s.cpu && s.table[i].Some? :: !IsBlocked(s.table[i]))
  {
    InitialInv();
    RunKeepsInv(states, actions, n);
    hide Run, TableOk;
  }

  /** Pruning empties only slots of dead tasks, and never the one whose stack the processor is on. */
  lemma ReapSpares(s: System, s': System, i: nat)
    requires Inv(s) && Step(s, Pick, s') && i < TASKS_COUNT && s.table[i].Some? && s'.table[i] == None
    ensures IsDead(s.table[i]) && i != s.cpu && i != s'.current
  {
    PickedIsReady(s, s');
    PrunedFacts(s);
    hide Places, QueueTells, NoLostWakeup, BytesAccounted, Chosen;
  }

  // ----- Fairness

  function Picks(actions: seq<Action>): nat {
    if actions == [] then 0 else Picks(actions[..|actions| - 1]) + if actions[|actions| - 1].Pick? then 1 else 0
  }

  /** A task that is not running is made unready by nobody. */
  lemma StaysReady(s: System, a: Action, s': System, t: nat)
    requires Inv(s) && Step(s, a, s') && t < TASKS_COUNT && t != s.current && IsReady(s.table[t])
    ensures |s'.table| == TASKS_COUNT && IsReady(s'.table[t]) && s'.table[t].value.id == s.table[t].value.id
  {
    hide Places, QueueTells, NoLostWakeup, BytesAccounted, Chosen;
    if !ChangesTable(a) {
      TableStays(s, a, s');
    } else {
      hide Interruptible, Wakeable, Resume;
    }
  }

  predicate ChangesTable(a: Action) {
    a.Prepare? || a.Finish? || a.Die? || a.Spawn? || a.WakeAll? || a.Count? || a.Pick?
  }

  lemma TableStays(s: System, a: Action, s': System)
    requires Sized(s) && Step(s, a, s') && !ChangesTable(a)
    ensures s'.table == s.table
  {
    hide Woken, Pruned, Chosen, FirstFree, Wakeable, Ticked, SetState, Interruptible;
  }

  lemma CurrentMoves(s: System, a: Action, s': System, t: nat)
    requires Inv(s) && Step(s, a, s') && t < TASKS_COUNT && t != IDLE_TASK_ID && t != s.current && IsReady(s.table[t])
    requires s'.current != t
    ensures s'.current < TASKS_COUNT
    ensures Turns(s'.current, t) + (if a.Pick? then 1 else 0) <= Turns(s.current, t)
  {
    hide Places, QueueTells, NoLostWakeup, BytesAccounted, Turns;
    if a.Pick? {
      PrunedFacts(s);
      TurnComesNearer(Pruned(s.table, s.current), s.current, s'.current, t);
    } else {
      hide Chosen, Pruned;
    }
  }

  /** Until a ready task is chosen, `schedule` is called fewer than `TASKS_COUNT - 1` times. */
  lemma {:induction false} Fair(states: seq<System>, actions: seq<Action>, t: nat)
    requires Run(states, actions) && Inv(states[0]) && t < TASKS_COUNT && t != IDLE_TASK_ID
    requires IsReady(states[0].table[t])
    requires forall i | 0 <= i < |states| :: states[i].current != t
    ensures var last := states[|states| - 1];
            && Inv(last) && IsReady(last.table[t])
            && last.current < TASKS_COUNT && Turns(last.current, t) + Picks(actions) <= Turns(states[0].current, t)
    ensures Picks(actions) < TASKS_COUNT - 1
    decreases |actions|
  {
    hide Step, Inv, Turns;
    var n := |actions|;
    if n == 0 {
      CurrentInRange(states[0]);
    } else {
      assert states[..n][0] == states[0] && Run(states[..n], actions[..n - 1]);
      Fair(states[..n], actions[..n - 1], t);
      var s := states[n - 1];
      assert s == states[..n][n - 1] && Step(s, actions[n - 1], states[n]);
      StaysReady(s, actions[n - 1], states[n], t);
      CurrentMoves(s, actions[n - 1], states[n], t);
      StepKeepsInv(s, actions[n - 1], states[n]);
    }
    CurrentInRange(states[0]);
    OtherTurns(states[0].current, t);
  }

  lemma CurrentInRange(s: System)
    requires Inv(s)
    ensures s.current < TASKS_COUNT
  {
  }

  lemma OtherTurns(current: nat, t: nat)
    requires current < TASKS_COUNT && t < TASKS_COUNT && t != current
    ensures Turns(current, t) < TASKS_COUNT - 1
  {
  }

  /** A task asleep in `getc` while a byte is buffered and no push is under way is ready, and so is fairly chosen. */
  lemma SleeperIsReady(s: System, t: nat)
    requires Inv(s) && s.buffer != [] && !PushUnderWay(s)
    requires t < TASKS_COUNT && t != s.cpu && s.table[t].Some? && s.pos[t].base.Empty?
    ensures IsReady(s.table[t]) && t != IDLE_TASK_ID
  {
  }

  // ----- Preemption

  /** A reschedule was asked for in the interrupt being handled, or the interrupt is on its way into one. */
  predicate Owing(s: System)
    requires s.cpu < |s.pos|
  {
    var p := Here(s);
    if p.call.Out? then s.resched && (p.irq.Storing? || p.irq.Waking? || p.irq.Counting? || p.irq.Leaving?)
    else p.call.Entering? && p.irq.Leaving?
  }

  /** What is left of handling an interrupt, before `schedule`. */
  predicate Handling(a: Action) {
    a.StoreByte? || a.WakeAll? || a.Count? || a.Preempt?
  }

  /** The timer asks for a reschedule, and so does waking anybody. */
  predicate Asks(s: System, a: Action) {
    a.Flag? || (a.WakeAll? && s.waiters != {})
  }

  lemma AskingOwes(s: System, a: Action, s': System)
    requires Sized(s) && Step(s, a, s') && Asks(s, a)
    ensures Sized(s') && Owing(s') && s'.cpu == s.cpu
  {
    hide Woken, Pruned, Chosen, Resume, FirstFree, Wakeable, Ticked, SetState;
  }

  /** Until `schedule` is called, only the rest of the interrupt can happen, and it stays owed. */
  lemma OwingGoesOn(s: System, a: Action, s': System)
    requires Sized(s) && Owing(s) && Step(s, a, s') && !a.Pick?
    ensures Handling(a) && Sized(s') && Owing(s') && s'.cpu == s.cpu
  {
    hide Pruned, Chosen, Resume, FirstFree, Wakeable, SetState;
  }

  /**
   Once a reschedule is asked for, no step of any task's own code, and no new interrupt, comes before the
   next call of `schedule`.
  */
  lemma {:induction false} AskedIsPicked(states: seq<System>, actions: seq<Action>, i: nat, j: nat)
    requires Run(states, actions) && i < j <= |actions| && Asks(states[i], actions[i])
    requires forall k | i < k < j :: !actions[k].Pick?
    ensures forall k | i < k < j :: Handling(actions[k])
    ensures Sized(states[j]) && Owing(states[j]) && states[j].cpu == states[i].cpu
    decreases j
  {
    hide Step, Owing, Handling;
    if j == i + 1 {
      AskingOwes(states[i], actions[i], states[j]);
    } else {
      AskedIsPicked(states, actions, i, j - 1);
      OwingGoesOn(states[j - 1], actions[j - 1], states[j]);
    }
  }

  lemma TickCounts(s: System, a: Action, s': System)
    requires Sized(s) && Step(s, a, s') && Here(s).irq.Counting? && Here(s).call.Out? && s.resched
    ensures a.Count? && Sized(s') && Here(s').irq.Leaving? && Here(s').call.Out? && s'.resched
  {
    hide Woken, Pruned, Chosen, Resume, FirstFree, Wakeable, SetState;
  }

  lemma AskedEnters(s: System, a: Action, s': System)
    requires Sized(s) && Step(s, a, s') && Here(s).irq.Leaving? && Here(s).call.Out? && s.resched
    ensures a.Preempt? && Sized(s') && Here(s').irq.Leaving? && Here(s').call.Entering? && !s'.resched
  {
    hide Woken, Pruned, Chosen, Resume, FirstFree, Wakeable, SetState, Ticked;
  }

  lemma EnteredPicks(s: System, a: Action, s': System)
    requires Sized(s) && Step(s, a, s') && Here(s).call.Entering?
    ensures a.Pick?
  {
    hide Woken, Pruned, Chosen, Resume, FirstFree, Wakeable, SetState, Ticked;
  }

  /** Nobody asked: the interrupt returns to the code it came upon. */
  lemma UnaskedReturns(s: System, a: Action, s': System)
    requires Sized(s) && Step(s, a, s') && Here(s).irq.Leaving? && Here(s).call.Out? && !s.resched
    ensures a.Preempt? && Sized(s') && s'.cpu == s.cpu && Here(s') == Pos(Here(s).base, NoIrq, Out) && !s'.masked
  {
    hide Woken, Pruned, Chosen, Resume, FirstFree, Wakeable, SetState, Ticked;
  }

  /** A timer interrupt takes three more steps: count the tick, leave, and call `schedule`. */
  lemma TickIsPicked(states: seq<System>, actions: seq<Action>, i: nat)
    requires Run(states, actions) && i + 3 < |actions| && actions[i].Flag?
    ensures actions[i + 1].Count? && actions[i + 2].Preempt? && actions[i + 3].Pick?
  {
    FlagCounts(states[i], states[i + 1]);
    hide Step;
    TickCounts(states[i + 1], actions[i + 1], states[i + 2]);
    AskedEnters(states[i + 2], actions[i + 2], states[i + 3]);
    EnteredPicks(states[i + 3], actions[i + 3], states[i + 4]);
  }

  lemma FlagCounts(s: System, s': System)
    requires Sized(s) && Step(s, Flag, s')
    ensures Sized(s') && Here(s').irq.Counting? && Here(s').call.Out? && s'.resched
  {
  }

  /** Timer interrupts, from where each asks for its reschedule. */
  function Ticks(actions: seq<Action>): nat {
    if actions == [] then 0 else Ticks(actions[..|actions| - 1]) + if actions[|actions| - 1].Flag? then 1 else 0
  }

  lemma TickOwes(s: System, a: Action, s': System)
    requires Sized(s) && Step(s, a, s') && Sized(s')
    ensures (if a.Flag? then 1 else 0) + (if Owing(s) then 1 else 0) <=
            (if a.Pick? then 1 else 0) + if Owing(s') then 1 else 0
  {
    if Owing(s) && !a.Pick? {
      OwingGoesOn(s, a, s');
    } else if a.Flag? {
      AskingOwes(s, a, s');
    }
  }

  /** Every timer interrupt has its call of `schedule`, but perhaps the one being handled. */
  lemma {:induction false} TicksArePicked(states: seq<System>, actions: seq<Action>)
    requires Run(states, actions) && Inv(states[0])
    ensures Sized(states[|actions|])
    ensures Ticks(actions) <= Picks(actions) + if Owing(states[|actions|]) then 1 else 0
    decreases |actions|
  {
    hide Step, Inv, Owing;
    var n := |actions|;
    RunKeepsInv(states, actions, n);
    InvSized(states[n]);
    if n > 0 {
      assert states[..n][0] == states[0] && Run(states[..n], actions[..n - 1]);
      TicksArePicked(states[..n], actions[..n - 1]);
      assert Step(states[n - 1], actions[n - 1], states[n]);
      TickOwes(states[n - 1], actions[n - 1], states[n]);
    }
  }

  lemma InvSized(s: System)
    requires Inv(s)
    ensures Sized(s)
  {
  }

  /** A ready task other than idle is chosen before `TASKS_COUNT - 1` timer interrupts have been handled. */
  lemma ReadyRunsSoon(states: seq<System>, actions: seq<Action>, t: nat)
    requires Run(states, actions) && Inv(states[0]) && t < TASKS_COUNT && t != IDLE_TASK_ID
    requires IsReady(states[0].table[t]) && Sized(states[|actions|]) && !Owing(states[|actions|])
    requires Ticks(actions) >= TASKS_COUNT - 1
    ensures exists i :: 0 <= i < |states| && states[i].current == t
  {
    hide Step, Inv, Owing;
    if forall i | 0 <= i < |states| :: states[i].current != t {
      Fair(states, actions, t);
      TicksArePicked(states, actions);
      assert false;
    }
  }

  // ----- Progress

  lemma SomeChosen(table: Table, current: nat) returns (n: nat)
    requires |table| == TASKS_COUNT && current < TASKS_COUNT
    ensures n < TASKS_COUNT && Chosen(table, current, n)
  {
    var i := 0;
    while i < TASKS_COUNT && !Pickable(table[Ahead(current, i)])
      invariant i <= TASKS_COUNT && forall j: nat | j < i :: !Pickable(table[Ahead(current, j)])
    {
      i := i + 1;
    }
    if i < TASKS_COUNT {
      n := Ahead(current, i);
      AheadTurns(current, i);
    } else {
      n := IDLE_TASK_ID;
      forall m: nat | m < TASKS_COUNT
        ensures !Pickable(table[m])
      {
        TurnsAhead(current, m);
      }
    }
  }

  lemma PickStep(s: System) returns (a: Action, s': System)
    requires Sized(s) && s.current < TASKS_COUNT && Here(s).call.Entering?
    ensures Step(s, a, s')
  {
    hide Chosen, Pruned, Woken, Ticked, SetState, FirstFree, Wakeable;
    var pruned := s.(table := Pruned(s.table, s.current));
    var n := SomeChosen(pruned.table, s.current);
    a := Pick;
    s' := if n == s.current then Resume(pruned) else At(pruned, Here(s).(call := Switching(n))).(current := n);
  }

  /** No reachable state is stuck: whatever the processor is doing, it can go on. */
  lemma Progress(s: System) returns (a: Action, s': System)
    requires Inv(s)
    ensures Step(s, a, s')
  {
    var p := Here(s);
    hide Places, QueueTells, NoLostWakeup, BytesAccounted;
    assert OnCpu(p) by {
      CpuPlace(s);
    }
    match p.call {
      case Entering =>
        a, s' := PickStep(s);
      case Switching(n) =>
        a, s' := Switch, Resume(At(s, p.(call := Away)).(cpu := n));
      case Out =>
        a, s' := OutStep(s);
    }
  }

  lemma CpuPlace(s: System)
    requires Inv(s)
    ensures OnCpu(Here(s)) && s.masked == MasksAt(Here(s))
  {
  }

  lemma OutStep(s: System) returns (a: Action, s': System)
    requires Sized(s) && OnCpu(Here(s)) && Here(s).call.Out? && s.masked == MasksAt(Here(s))
    ensures Step(s, a, s')
  {
    if Here(s).irq.NoIrq? {
      a, s' := CodeStep(s);
    } else if Here(s).irq.Storing? || Here(s).irq.Waking? {
      a, s' := SerialStep(s);
    } else {
      a, s' := TimerStep(s);
    }
  }

  lemma SerialStep(s: System) returns (a: Action, s': System)
    requires Sized(s) && Here(s).call.Out? && (Here(s).irq.Storing? || Here(s).irq.Waking?)
    ensures Step(s, a, s')
  {
    var p := Here(s);
    hide Woken, Ticked, SetState, Pruned, Chosen, Resume, FirstFree, Wakeable;
    if p.irq.Storing? {
      var after := At(s, p.(irq := Waking));
      a, s' := StoreByte, if |s.buffer| < RING_BUFFER_SIZE
                          then after.(buffer := s.buffer + [p.irq.byte], accepted := s.accepted + [p.irq.byte])
                                 else after;
    } else {
      a, s' := WakeAll(None), At(s, p.(irq := Leaving)).(table := Woken(s.table, s.waiters), waiters := {},
        resched := s.resched || s.waiters != {}, panicked := s.panicked || !Wakeable(s));
    }
  }

  lemma TimerStep(s: System) returns (a: Action, s': System)
    requires Sized(s) && Here(s).call.Out? && (Here(s).irq.Flagging? || Here(s).irq.Counting? || Here(s).irq.Leaving?)
    ensures Step(s, a, s')
  {
    var p := Here(s);
    hide Woken, Ticked, SetState, Pruned, Chosen, Resume, FirstFree, Wakeable;
    if p.irq.Flagging? {
      a, s' := Flag, At(s, p.(irq := Counting)).(resched := true);
    } else if p.irq.Counting? {
      a, s' := Count, At(Ticked(s), p.(irq := Leaving));
    } else {
      a, s' := Preempt, if s.resched then At(s, p.(call := Entering)).(resched := false)
                        else At(s, p.(irq := NoIrq)).(masked := false);
    }
  }

  lemma CodeStep(s: System) returns (a: Action, s': System)
    requires Sized(s) && OnCpu(Here(s)) && Here(s).call.Out? && Here(s).irq.NoIrq? && s.masked == MasksAt(Here(s))
    ensures Step(s, a, s')
  {
    var p := Here(s);
    hide Woken, Ticked, SetState, Pruned, Chosen, Resume, FirstFree, Wakeable;
    match p.base {
      case Masked => a, s' := Prepare,
             At(SetState(s.(waiters := s.waiters + {s.current}), Blocked), Pos(Prepared, NoIrq, Out));
      case Prepared =>
        a, s' := Check, if s.buffer == [] then At(s, Pos(Empty, NoIrq, Out))
                        else At(s, Pos(Found(s.buffer[0]), NoIrq, Out)).(buffer := s.buffer[1..]);
      case Found(b) =>
        a, s' := Finish, At(SetState(s.(waiters := s.waiters - {s.current}), Ready), Pos(User, NoIrq, Out))
          .(masked := false, delivered := s.delivered + [b]);
      case Empty => a, s' := GiveUp, At(s, Pos(Empty, NoIrq, Entering));
      case Fresh => assert false;
      case _ => a, s' := Timer, At(s, p.(irq := Flagging)).(masked := true);
    }
  }
}
