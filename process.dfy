/**
 Process-management syscalls of the kernel: exit, yield, get-time and
 task-info.

 Machine words are modelled by their ranges: `usize` is 64 bits wide (the
 kernel's RISC-V 64 target), the per-syscall counters are `u32` and the exit
 code is `i32`; the syscalls return `isize`. The hardware clock reading and the task module's snapshot are
 parameters; the caller-owned output buffers are objects the syscalls write.
 */
module Process {
  import opened Task

  const USIZE_LIMIT: int := 0x1_0000_0000_0000_0000
  type usize = x: int | 0 <= x < USIZE_LIMIT
  type u32 = x: int | 0 <= x < 0x1_0000_0000
  type i32 = x: int | -0x8000_0000 <= x < 0x8000_0000
  type isize = x: int | -0x8000_0000_0000_0000 <= x < 0x8000_0000_0000_0000

  /** Size of the per-syscall counter array (the kernel configuration's value). */
  const MAX_SYSCALL_NUM: nat := 500

  /** Microseconds in one second. */
  const USEC_PER_SEC: nat := 1_000_000

  // ---------------------------------------------------------------------------
  // TimeVal

  /** A wall-clock sample split into whole seconds and microseconds. */
  datatype TimeVal = TimeVal(sec: usize, usec: usize)

  /** A TimeVal whose microsecond part is a proper fraction of a second. */
  predicate Normalized(tv: TimeVal) {
    tv.usec < USEC_PER_SEC
  }

  /**
   The microsecond count a TimeVal stands for. For a normalized TimeVal the
   get-time split of that count gives back both fields.
   */
  function FromTimeVal(tv: TimeVal): (us: int)
    ensures us >= 0
    ensures Normalized(tv) ==> us / USEC_PER_SEC == tv.sec && us % USEC_PER_SEC == tv.usec
  {
    tv.sec * USEC_PER_SEC + tv.usec
  }

  /**
   The conversion `sys_get_time` applies to a microsecond clock reading: the
   result is normalized and stands for exactly the reading, so nothing is lost
   and neither field can exceed the reading.
   */
  function ToTimeVal(us: usize): (tv: TimeVal)
    ensures Normalized(tv)
    ensures FromTimeVal(tv) == us
    ensures tv.sec <= us && tv.usec <= us
  {
    TimeVal(us / USEC_PER_SEC, us % USEC_PER_SEC)
  }

  /** The seconds field is the reading divided by 10^6, rounded down. */
  lemma ToTimeValSecondsFloor(us: usize)
    ensures ToTimeVal(us).sec * USEC_PER_SEC <= us < (ToTimeVal(us).sec + 1) * USEC_PER_SEC
  {
  }

  /**
   A normalized TimeVal is determined by the microseconds it stands for: it
   is the one ToTimeVal produces.
   */
  lemma ToTimeValUnique(us: usize, tv: TimeVal)
    requires Normalized(tv) && FromTimeVal(tv) == us
    ensures tv == ToTimeVal(us)
  {
  }

  /** Lexicographic order on (seconds, microseconds). */
  predicate TimeValLe(a: TimeVal, b: TimeVal) {
    a.sec < b.sec || (a.sec == b.sec && a.usec <= b.usec)
  }

  /**
   On normalized values the lexicographic order is the order of the
   microsecond counts they stand for.
   */
  lemma TimeValLeIsNumericOrder(a: TimeVal, b: TimeVal)
    requires Normalized(a) && Normalized(b)
    ensures TimeValLe(a, b) <==> FromTimeVal(a) <= FromTimeVal(b)
  {
  }

  /**
   Monotonicity of the conversion, in both directions: a later clock reading
   never gives a lexicographically smaller TimeVal, and a TimeVal that is not
   smaller comes from a reading that is not smaller.
   */
  lemma ToTimeValMonotone(us1: usize, us2: usize)
    ensures us1 <= us2 <==> TimeValLe(ToTimeVal(us1), ToTimeVal(us2))
  {
    TimeValLeIsNumericOrder(ToTimeVal(us1), ToTimeVal(us2));
  }

  /**
   For a clock that never runs backwards, the TimeVals written by successive
   get-time calls are ordered: each is lexicographically no smaller than any
   earlier one.
   */
  lemma {:induction false} SuccessiveReadingsOrdered(readings: seq<usize>)
    requires forall k :: 0 < k < |readings| ==> readings[k - 1] <= readings[k]
    ensures forall i, j :: 0 <= i <= j < |readings| ==>
              TimeValLe(ToTimeVal(readings[i]), ToTimeVal(readings[j]))
  {
    if |readings| > 0 {
      var init := readings[..|readings| - 1];
      SuccessiveReadingsOrdered(init);
      var last := |readings| - 1;
      forall i | 0 <= i <= last
        ensures readings[i] <= readings[last]
      {
        var k := i;
        while k < last
          invariant i <= k <= last
          invariant readings[i] <= readings[k]
        {
          k := k + 1;
        }
      }
      forall i, j | 0 <= i <= j < |readings|
        ensures TimeValLe(ToTimeVal(readings[i]), ToTimeVal(readings[j]))
      {
        if j < last {
          assert init[i] == readings[i] && init[j] == readings[j];
        } else {
          ToTimeValMonotone(readings[i], readings[j]);
        }
      }
    }
  }

  // ---------------------------------------------------------------------------
  // TaskInfo

  /** The per-syscall counter array: exactly MAX_SYSCALL_NUM entries. */
  type Counters = s: seq<u32> | |s| == MAX_SYSCALL_NUM
    witness seq(MAX_SYSCALL_NUM, _ => 0)

  /** A snapshot of one task's accounting, as copied out by `sys_task_info`. */
  datatype TaskInfo = TaskInfo(
    status: TaskStatus,
    syscall_times: Counters,
    start_time: usize,
    time: usize)

  /** The initial record: uninitialised status, every counter and time zero. */
  function NewTaskInfo(): (info: TaskInfo)
    ensures info.status == UnInit
    ensures forall id :: 0 <= id < |info.syscall_times| ==> info.syscall_times[id] == 0
    ensures info.start_time == 0 && info.time == 0
  {
    TaskInfo(UnInit, seq(MAX_SYSCALL_NUM, _ => 0), 0, 0)
  }

  /** No other record has the initial record's properties. */
  lemma NewTaskInfoUnique(info: TaskInfo)
    requires info.status == UnInit
    requires forall id :: 0 <= id < |info.syscall_times| ==> info.syscall_times[id] == 0
    requires info.start_time == 0 && info.time == 0
    ensures info == NewTaskInfo()
  {
    assert info.syscall_times == NewTaskInfo().syscall_times;
  }

  // ---------------------------------------------------------------------------
  // Caller-owned output buffers

  /** A user-space TimeVal the kernel writes through a pointer. */
  class TimeValBuf {
    var sec: usize
    var usec: usize

    constructor (init: TimeVal)
      ensures Value() == init
    {
      sec, usec := init.sec, init.usec;
    }

    function Value(): TimeVal
      reads this
    {
      TimeVal(sec, usec)
    }
  }

  /** A user-space TaskInfo the kernel writes through a pointer. */
  class TaskInfoBuf {
    var status: TaskStatus
    var syscall_times: Counters
    var start_time: usize
    var time: usize

    constructor (init: TaskInfo)
      ensures Value() == init
    {
      status, syscall_times := init.status, init.syscall_times;
      start_time, time := init.start_time, init.time;
    }

    function Value(): TaskInfo
      reads this
    {
      TaskInfo(status, syscall_times, start_time, time)
    }
  }

  // ---------------------------------------------------------------------------
  // Syscalls

  /**
   `sys_get_time`: converts the clock reading `clockUs` and writes it into
   the caller's buffer; returns 0. The timezone argument plays no part.
   */
  method SysGetTime(ts: TimeValBuf, tz: usize, clockUs: usize) returns (r: isize)
    modifies ts
    ensures r == 0
    ensures ts.Value() == ToTimeVal(clockUs)
  {
    var tv := ToTimeVal(clockUs);
    ts.sec, ts.usec := tv.sec, tv.usec;
    r := 0;
  }

  /**
   `sys_task_info`: writes the task module's snapshot of the current task
   into the caller's buffer, unchanged; returns 0.
   */
  method SysTaskInfo(ti: TaskInfoBuf, snapshot: TaskInfo) returns (r: isize)
    modifies ti
    ensures r == 0
    ensures ti.Value() == snapshot
  {
    ti.status, ti.syscall_times := snapshot.status, snapshot.syscall_times;
    ti.start_time, ti.time := snapshot.start_time, snapshot.time;
    r := 0;
  }

  /**
   `sys_yield`: suspends the current task; once it is scheduled again,
   returns 0. `next` is the scheduler state at that point.
   */
  method SysYield<S>(sched: Scheduler<S>, next: S) returns (r: isize)
    modifies sched
    ensures r == 0
    ensures sched.state == next
  {
    sched.SuspendCurrentAndRunNext(next);
    r := 0;
  }

  /**
   `sys_exit`: retires the current task. `resumed` reports whether control
   came back to the exited task; it never does, so the panic that follows
   the exit call is unreachable.
   */
  method SysExit<S>(sched: Scheduler<S>, exitCode: i32, next: S) returns (resumed: bool)
    modifies sched
    ensures sched.state == next
    ensures !resumed
  {
    resumed := sched.ExitCurrentAndRunNext(next);
    if resumed {
      assert false;
    }
  }
}
