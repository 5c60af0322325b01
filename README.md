# Process-management syscalls of a teaching RISC-V kernel

This project models the process syscalls of an rCore-style teaching kernel:
`sys_exit`, `sys_yield`, `sys_get_time` and `sys_task_info`, together with
the two records they hand to user space, `TimeVal` and `TaskInfo`.

- `task.dfy`, module `Task`: the part of the task module that the syscalls
  call into. It holds the `TaskStatus` enumeration and a `Scheduler` whose
  internal state is an opaque type parameter. Suspending or exiting the
  current task moves the scheduler to a state that the caller supplies. The
  exit primitive promises one thing only: it reports (`resumed == false`)
  that the exited task is never resumed.
- `process.dfy`, module `Process`:
  - machine-word ranges (`usize` and `isize` are 64 bits, `u32`, `i32`);
  - `TimeVal` and the conversion of a microsecond clock reading into seconds
    and microseconds, with its round trips, uniqueness and monotonicity;
  - `TaskInfo` and its all-zero initial record;
  - the caller-owned output buffers as classes (`TimeValBuf`, `TaskInfoBuf`);
  - the four syscalls as methods on those buffers and the scheduler.

The hardware clock reading (`get_time_us`) and the snapshot returned by
`fetch_current_task_info` are parameters of the syscall methods.

## Model

| member | source | states |
|---|---|---|
| Process.ToTimeVal | os/src/syscall/process.rs:61-66 | the split of a reading is normalized (usec < 1_000_000), stands for exactly the reading (sec * 1_000_000 + usec == us), and neither field exceeds the reading, so no overflow |
| Process.ToTimeValSecondsFloor | os/src/syscall/process.rs:64 | the seconds field is the reading divided by 1_000_000, rounded down: sec * 10^6 <= us < (sec + 1) * 10^6 |
| Process.ToTimeValUnique | os/src/syscall/process.rs:64-65 | any normalized TimeVal that stands for `us` is the one the conversion gives, so the split is the only lossless normalized one |
| Process.FromTimeVal | os/src/syscall/process.rs:61-66 | the reverse round trip: the value a TimeVal stands for is never negative, and for a normalized TimeVal the get-time split of that value (divide and remainder by 1_000_000) gives back its seconds and microseconds |
| Process.TimeValLeIsNumericOrder | os/src/syscall/process.rs:11-16 | the meaning of the (sec, usec) record: on normalized TimeVals, the lexicographic (sec, usec) order is the same as the order of the microsecond values they stand for, in both directions |
| Process.ToTimeValMonotone | os/src/syscall/process.rs:61-66 | us1 <= us2 if and only if the TimeVal of us1 is lexicographically no greater than the TimeVal of us2 |
| Process.SuccessiveReadingsOrdered | os/src/syscall/process.rs:59-68 | for a clock whose readings never decrease, every TimeVal that get-time writes is lexicographically no smaller than any earlier one |
| Process.NewTaskInfo | os/src/syscall/process.rs:34-41 | the new record has status UnInit, MAX_SYSCALL_NUM counters (by the `Counters` type) that are all 0, and start_time == time == 0 |
| Process.NewTaskInfoUnique | os/src/syscall/process.rs:34-41 | every record with status UnInit, all counters 0 and both times 0 is the new record |
| Process.SysGetTime | os/src/syscall/process.rs:59-69 | returns 0; the buffer then holds the conversion of the clock reading (normalized and recovering the reading, by ToTimeVal's contract); the timezone argument plays no part in the result |
| Process.SysTaskInfo | os/src/syscall/process.rs:72-78 | returns 0; the buffer then holds exactly the task module's snapshot, unchanged |
| Process.SysYield | os/src/syscall/process.rs:52-56 | returns 0 once the suspend call comes back; the only state change is the scheduler's |
| Process.SysExit | os/src/syscall/process.rs:45-49 | calls the exit primitive and passes on its report `resumed == false` to the caller; the panic after it is unreachable given the exit primitive's promise |
| Task.Scheduler.SuspendCurrentAndRunNext | os/src/syscall/process.rs:54 | suspends the current task: the scheduler reaches the supplied next state, then control returns |
| Task.Scheduler.ExitCurrentAndRunNext | os/src/syscall/process.rs:47 | retires the current task: the scheduler reaches the supplied next state, and it reports `resumed == false`: the exited task is never resumed |

## Left out

- Task-control-block bookkeeping is not modelled. This covers status transitions, syscall counters, first-scheduled time and accumulated running time. It lives in the task module (`os/src/task/`), which is not part of this model. The scheduler's next state and the task-info snapshot are parameters.
- The hardware timer (`timer::get_time_us`) is not modelled. Its microsecond reading is a parameter.
- `MAX_SYSCALL_NUM` is set to 500. Its value comes from `os/src/config.rs`, which is not part of this model; 500 is the value rCore uses there.
- Raw-pointer writes (`*ts = ...`, `*_ti = ...`) are modelled as assignments to caller-owned objects. User-pointer validity and address translation belong to the memory subsystem. In Dafny, "valid pointer" is an object reference, which is never null.
- Process.SysExit: divergence (`-> !`) is modelled as a `resumed` result that is always false, passed on from the exit primitive. The `panic!` branch is an `assert false`, unreachable given the exit primitive's promise. Kernel abort mechanics are not modelled.
- Task.Scheduler.ExitCurrentAndRunNext: non-return is encoded as a result flag (`resumed == false`), not as divergence; the method itself returns to its caller.
- The `trace!` logging calls are left out; they only print information.
- `#[repr(C)]` layout and the `Debug`/`Copy`/`Clone` derives are left out; they are representation details. A `TaskInfo` is a value, so its counter array is a `seq` of fixed length (the `Counters` type): copying the record copies the array.
- The exit code is accepted and not otherwise used, as in the source, where it is only logged.
- The per-syscall counter increment made on every dispatch is not modelled. It happens in the syscall dispatcher and the task module, which are not part of this model. A snapshot written by `sys_task_info` therefore already includes whatever counts the task module recorded.
- `time` is documented in the source as the task's total running time (process.rs:28). The model carries whatever value the task module reports; the initial status is `UnInit`, as in the code.
