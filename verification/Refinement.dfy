/**
 The steps of `Sleeping` against the methods that run in the kernel: what a method of the scheduler, the
 wait queue or the input does to the table, the running task, the queue and the flag, the step of that name
 does to the state. `Sleeping` leaves out the tasks' stacks, which none of this depends on.
*/
module Refinement {
  import opened Wrappers
  import opened RingBuffers
  import opened Tasks
  import opened Scheduling
  import opened Sleeping

  function Bare(slot: Option<Task>): Option<Task> {
    if slot.None? then None else Some(Task(slot.value.id, 0, None, slot.value.ticks, slot.value.state))
  }

  function BareTable(table: Table): (t: Table)
    ensures |t| == |table| && forall i | 0 <= i < |table| :: t[i] == Bare(table[i])
  {
    seq(|table|, i requires 0 <= i < |table| => Bare(table[i]))
  }

  /** What the objects hold, as the state has it. */
  ghost predicate Shows(s: System, table: Table, current: nat, slots: set<nat>, asked: bool, buffer: seq<InputByte>) {
    && s.table == BareTable(table) && s.current == current && s.waiters == slots && s.resched == asked
    && s.buffer == buffer
  }

  /** `WaitQueue.Prepare`. */
  lemma PrepareRefines(s: System, s': System, table: Table, current: nat, slots: set<nat>, asked: bool,
                       buffer: seq<InputByte>)
    requires Inv(s) && Shows(s, table, current, slots, asked, buffer) && Step(s, Prepare, s')
    ensures current < |table| && table[current].Some?
    ensures Shows(s', table[current := Some(table[current].value.(state := Blocked))], current, slots + {current},
                  asked, buffer)
  {
    assert table[current].Some?;
    BareAt(table, current, table[current].value.(state := Blocked));
  }

  /** `RingBuffer.Pop`, and `WaitQueue.Finish` once it has found a byte. */
  lemma CheckRefines(s: System, s': System, table: Table, current: nat, slots: set<nat>, asked: bool,
                     buffer: seq<InputByte>)
    requires Inv(s) && Shows(s, table, current, slots, asked, buffer) && Step(s, Check, s')
    ensures Shows(s', table, current, slots, asked, if buffer == [] then [] else buffer[1..])
    ensures Here(s').base == if buffer == [] then Empty else Found(buffer[0])
  {
  }

  lemma FinishRefines(s: System, s': System, table: Table, current: nat, slots: set<nat>, asked: bool,
                      buffer: seq<InputByte>)
    requires Inv(s) && Shows(s, table, current, slots, asked, buffer) && Step(s, Finish, s')
    ensures current < |table| && table[current].Some?
    ensures Shows(s', table[current := Some(table[current].value.(state := Ready))], current, slots - {current},
                  asked, buffer)
  {
    assert table[current].Some?;
    BareAt(table, current, table[current].value.(state := Ready));
  }

  /** `RingBuffer.Push`. */
  lemma StoreRefines(s: System, s': System, table: Table, current: nat, slots: set<nat>, asked: bool,
                     buffer: seq<InputByte>)
    requires Inv(s) && Shows(s, table, current, slots, asked, buffer) && Step(s, StoreByte, s')
    ensures Here(s).irq.Storing?
    ensures var byte := Here(s).irq.byte;
            Shows(s', table, current, slots, asked, if |buffer| < 256 then buffer + [byte] else buffer)
  {
  }

  /** `WaitQueue.WakeAll`. */
  lemma WakeAllRefines(s: System, more: Option<InputByte>, s': System, table: Table, woken: Table, current: nat,
                       slots: set<nat>, asked: bool, buffer: seq<InputByte>)
    requires Inv(s) && Shows(s, table, current, slots, asked, buffer) && Step(s, WakeAll(more), s')
    requires |woken| == |table| && forall i: nat | i < |table| ::
               if i in slots then table[i].Some? && woken[i] == Some(table[i].value.(state := Ready))
               else woken[i] == table[i]
    ensures Shows(s', woken, current, {}, asked || slots != {}, buffer)
  {
    assert BareTable(woken) == Woken(BareTable(table), slots);
  }

  /** `Scheduler.Tick` is two steps: an interrupt's flag is set, and then the task is charged. */
  lemma TickRefines(s: System, s1: System, s2: System, table: Table, current: nat, slots: set<nat>, asked: bool,
                    buffer: seq<InputByte>)
    requires Inv(s) && Shows(s, table, current, slots, asked, buffer) && Step(s, Flag, s1)
    requires Sized(s1) && Step(s1, Count, s2)
    ensures current < |table| && table[current].Some?
    ensures Shows(s2, table[current := Some(table[current].value.(ticks := table[current].value.ticks + 1))], current,
                  slots, true, buffer)
  {
    assert table[current].Some?;
    BareAt(table, current, table[current].value.(ticks := table[current].value.ticks + 1));
  }

  /** `Scheduler.Preempt`, up to its call of `schedule`. */
  lemma PreemptRefines(s: System, s': System, table: Table, current: nat, slots: set<nat>, asked: bool,
                       buffer: seq<InputByte>)
    requires Inv(s) && Shows(s, table, current, slots, asked, buffer) && Step(s, Preempt, s')
    ensures Shows(s', table, current, slots, false, buffer) && (Here(s').call.Entering? <==> asked)
  {
  }

  /** `Scheduler.Pick`: the dead are gone, and the same task is chosen. */
  lemma PickRefines(s: System, s': System, table: Table, table': Table, current: nat, next: nat, slots: set<nat>,
                    asked: bool, buffer: seq<InputByte>)
    requires Inv(s) && Shows(s, table, current, slots, asked, buffer) && Step(s, Pick, s')
    requires |table'| == |table| && forall i: nat | i < |table| ::
               table'[i] == if i != current && table[i].Some? && table[i].value.state == Dead then None else table[i]
    requires IsNearest(table', current, Some(next)) || (IsNearest(table', current, None) && next == IDLE_TASK_ID)
    ensures Shows(s', table', next, slots, asked, buffer)
    ensures next != current <==> Here(s').call == Switching(next)
  {
    assert BareTable(table') == Pruned(BareTable(table), current);
    hide Pruned, Resume, IsNext, Chosen, BareTable, Able, Inv, Step;
    SameChoice(s, s', table', current, next);
    PickedIsReady(s, s');
    InvSized(s);
    ResumeShows(s.(table := Pruned(s.table, s.current)));
  }

  lemma SameChoice(s: System, s': System, table': Table, current: nat, next: nat)
    requires Inv(s) && Step(s, Pick, s') && s.current == current && BareTable(table') == Pruned(s.table, current)
    requires IsNearest(table', current, Some(next)) || (IsNearest(table', current, None) && next == IDLE_TASK_ID)
    ensures s'.current == next && next < TASKS_COUNT
  {
    SameAble(table');
    NextIsNearest(BareTable(table'), current, Some(s'.current));
    NextIsNearest(BareTable(table'), current, None);
    hide Pruned, Resume, IsNext, BareTable, Able;
    OneNearest(table', current, next, s'.current);
  }

  lemma SameAble(table: Table)
    ensures Able(BareTable(table)) == Able(table)
  {
    assert forall i: nat :: i in Able(BareTable(table)) <==> i in Able(table);
  }

  /** Only one task is nearest. */
  lemma OneNearest(table: Table, current: nat, m: nat, n: nat)
    requires |table| == TASKS_COUNT && current < TASKS_COUNT
    requires IsNearest(table, current, Some(m)) || (IsNearest(table, current, None) && m == IDLE_TASK_ID)
    requires IsNearest(table, current, Some(n)) || (IsNearest(table, current, None) && n == IDLE_TASK_ID)
    ensures m == n
  {
  }

  lemma ResumeShows(s: System)
    requires s.cpu < |s.pos|
    ensures var t := Resume(s);
            t.table == s.table && t.current == s.current && t.waiters == s.waiters && t.resched == s.resched
            && t.buffer == s.buffer
  {
  }

  /** `Scheduler.MarkDead`. */
  lemma DieRefines(s: System, s': System, table: Table, current: nat, slots: set<nat>, asked: bool,
                   buffer: seq<InputByte>)
    requires Inv(s) && Shows(s, table, current, slots, asked, buffer) && Step(s, Die, s')
    ensures current < |table| && table[current].Some?
    ensures Shows(s', table[current := Some(table[current].value.(state := Dead))], current, slots, asked, buffer)
  {
    assert table[current].Some?;
    BareAt(table, current, table[current].value.(state := Dead));
  }

  /** `Scheduler.Spawn`, when there is memory: the new task is in the first empty slot, ready, its id that slot. */
  lemma SpawnRefines(s: System, slot: nat, s': System, table: Table, task: Task, current: nat, slots: set<nat>,
                     asked: bool, buffer: seq<InputByte>)
    requires Inv(s) && Shows(s, table, current, slots, asked, buffer) && Step(s, Spawn(slot), s')
    requires task.id == slot && task.ticks == 0 && task.state == Ready
    ensures slot < |table| && table[slot] == None && forall i | 0 <= i < slot :: table[i].Some?
    ensures Shows(s', table[slot := Some(task)], current, slots, asked, buffer)
  {
    BareAt(table, slot, task);
  }

  lemma BareAt(table: Table, i: nat, task: Task)
    requires i < |table|
    ensures BareTable(table[i := Some(task)]) == BareTable(table)[i := Bare(Some(task))]
  {
  }
}
