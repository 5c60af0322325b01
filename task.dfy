/**
 The parts of the kernel's task module that the process syscalls depend on.

 Only what the syscall layer can observe is modelled here: the task status
 enumeration and a scheduler whose internal state is an opaque value. The
 task-control-block bookkeeping (status transitions, syscall counters, first
 scheduled time, accumulated running time) is not part of this model; the
 scheduler's next state is supplied by the caller instead of being computed.
 */
module Task {

  /** Life-cycle status of a task, as reported in a task-info snapshot. */
  datatype TaskStatus = UnInit | Ready | Running | Exited

  /**
   The task manager, seen from the syscall layer. `S` is its internal state,
   which this model never inspects.
   */
  class Scheduler<S> {
    var state: S

    constructor (init: S)
      ensures state == init
    {
      state := init;
    }

    /**
     Suspends the current task and runs the next one; control comes back
     when the current task is scheduled again. `next` is the scheduler state
     at that point, decided by the task module.
     */
    method SuspendCurrentAndRunNext(next: S)
      modifies this
      ensures state == next
    {
      state := next;
    }

    /**
     Retires the current task and runs the next one. The one promise the
     syscall layer relies on: control never comes back to the exited task,
     which `resumed == false` records.
     */
    method ExitCurrentAndRunNext(next: S) returns (resumed: bool)
      modifies this
      ensures state == next
      ensures !resumed
    {
      state := next;
      resumed := false;
    }
  }
}
