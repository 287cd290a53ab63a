/** The two ends of serial input (src/tty/input.rs), over the ring buffer and the wait queue. */
module Input {
  import opened Wrappers
  import opened Tasks
  import opened Scheduling
  import opened RingBuffers
  import opened Sleeping

  class Input {
    const buffer: RingBuffer<InputByte>
    const queue: WaitQueue

    ghost predicate Valid(sched: Scheduler)
      reads this, buffer, queue, sched, sched.tasks
    {
      && buffer.Valid() && sched.Valid() && sched.current != IDLE_TASK_ID
      && forall i | i in queue.slots :: i < TASKS_COUNT && sched.tasks[i].Some?
    }

    constructor ()
      ensures fresh(buffer) && fresh(buffer.buffer) && fresh(queue)
      ensures buffer.Valid() && buffer.Contents() == [] && queue.slots == {}
    {
      buffer := new RingBuffer(InputByte(0, false));
      queue := new WaitQueue();
    }

    /**
     One pass of the loop in `getc`, up to the call of `schedule`: join the queue, then look. Either the
     oldest byte is taken and the task is ready and off the queue, or there was none and it is blocked
     and on it.
    */
    method TryGetc(sched: Scheduler) returns (r: Option<InputByte>)
      requires Valid(sched) && buffer.buffer as object != sched.tasks as object
      modifies buffer, queue, sched.tasks
      ensures Valid(sched)
      ensures var was := old(buffer.Contents());
              if was == [] then
                && r == None && buffer.Contents() == [] && queue.slots == old(queue.slots) + {sched.current}
                && sched.tasks[..] == WithState(old(sched.tasks[..]), sched.current, Blocked)
              else
                && r == Some(was[0]) && buffer.Contents() == was[1..]
                && queue.slots == old(queue.slots) - {sched.current}
                && sched.tasks[..] == WithState(old(sched.tasks[..]), sched.current, Ready)
    {
      hide RingBuffer.Valid, RingBuffer.Contents;
      queue.Prepare(sched);
      r := buffer.Pop();
      if r.Some? {
        queue.Finish(sched);
      }
    }

    /** The interrupt's end: the byte goes in first, then everybody waiting is woken. */
    method PushCharacter(sched: Scheduler, byte: InputByte)
      requires buffer.Valid() && sched.Valid() && buffer.buffer as object != sched.tasks as object
      requires forall i | i in queue.slots :: i < TASKS_COUNT && sched.tasks[i].Some?
      modifies buffer, buffer.buffer, queue, sched`needReschedule, sched.tasks
      ensures buffer.Valid() && sched.Valid() && queue.slots == {}
      ensures var was := old(buffer.Contents());
              buffer.Contents() == if |was| < RING_BUFFER_SIZE then was + [byte] else was
      ensures sched.tasks[..] == Woken(old(sched.tasks[..]), old(queue.slots))
      ensures sched.needReschedule == (old(sched.needReschedule) || old(queue.slots) != {})
    {
      hide RingBuffer.Valid, RingBuffer.Contents;
      buffer.Push(byte);
      queue.WakeAll(sched);
    }
  }
}
