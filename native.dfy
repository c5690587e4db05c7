/**
 * Native: the thin wrappers around read(2), write(2), close(2) and the
 * F_GETFL/F_SETFL pair of fcntl(2). Each system call is an entry of a
 * script of results, consumed in order; a script that ends the loop
 * somewhere stands for a kernel that eventually stops interrupting.
 */
module Native {
  import opened Wrappers
  import opened Posix
  import opened Nio

  /**
   * The do-while condition of read and write: go round again while
   * fewer than `size` bytes are counted and the call failed with EINTR.
   * A failing call adds nothing, so the count is still 0 whenever the
   * loop repeats.
   */
  predicate Repeats(size: int, counted: int, s: SysRet) {
    counted < size && s.rv < 0 && s.errno == EINTR
  }

  /** Some call of the script ends a read or write loop. */
  predicate TransferSettles(size: int, kernel: seq<SysRet>) {
    exists i :: 0 <= i < |kernel| && !Repeats(size, 0, kernel[i])
  }

  /** What the loop of read or write promises about the calls it made and its count. */
  predicate TransferDone(size: int, kernel: seq<SysRet>, count: int, calls: nat) {
    && 1 <= calls <= |kernel|
    && (forall i :: 0 <= i < calls - 1 ==> Repeats(size, 0, kernel[i]))
    && !Repeats(size, 0, kernel[calls - 1])
    && count == (if kernel[calls - 1].rv >= 0 then kernel[calls - 1].rv else 0)
  }

  /**
   * Native.read: re-issues read(2) only after an EINTR failure with
   * fewer than `remaining` bytes counted; any non-negative result ends
   * the loop. It never returns a negative value: a failure other than
   * EINTR yields the count so far, 0, instead of -1.
   */
  method Read(remaining: int, kernel: seq<SysRet>) returns (readed: int, calls: nat)
    requires TransferSettles(remaining, kernel)
    ensures TransferDone(remaining, kernel, readed, calls)
    ensures readed >= 0
  {
    ghost var k :| 0 <= k < |kernel| && !Repeats(remaining, 0, kernel[k]);
    readed := 0;
    calls := 0;
    while true
      invariant calls <= k
      invariant readed == 0
      invariant forall i :: 0 <= i < calls ==> Repeats(remaining, 0, kernel[i])
      decreases k - calls
    {
      var s := kernel[calls];
      var n := s.rv;
      if n >= 0 {
        readed := readed + n;
      }
      calls := calls + 1;
      if !(readed < remaining && n < 0 && s.errno == EINTR) {
        break;
      }
    }
  }

  /** Native.write: the same retry rule and the same non-negative result as read. */
  method Write(size: int, kernel: seq<SysRet>) returns (written: int, calls: nat)
    requires TransferSettles(size, kernel)
    ensures TransferDone(size, kernel, written, calls)
    ensures written >= 0
  {
    ghost var k :| 0 <= k < |kernel| && !Repeats(size, 0, kernel[k]);
    written := 0;
    calls := 0;
    while true
      invariant calls <= k
      invariant written == 0
      invariant forall i :: 0 <= i < calls ==> Repeats(size, 0, kernel[i])
      decreases k - calls
    {
      var s := kernel[calls];
      var n := s.rv;
      if n >= 0 {
        written := written + n;
      }
      calls := calls + 1;
      if !(written < size && n < 0 && s.errno == EINTR) {
        break;
      }
    }
  }

  /** Some call of the script is not interrupted, so the close loop ends. */
  predicate CloseSettles(kernel: seq<SysRet>) {
    exists i :: 0 <= i < |kernel| && !Interrupted(kernel[i])
  }

  /** A script that settles and starts with an interrupted call still settles after it. */
  lemma CloseSettlesTail(kernel: seq<SysRet>)
    requires CloseSettles(kernel) && Interrupted(kernel[0])
    ensures CloseSettles(kernel[1..])
  {
    var k :| 0 <= k < |kernel| && !Interrupted(kernel[k]);
    assert kernel[1..][k - 1] == kernel[k];
  }

  /** The index of the first close(2) call that was not interrupted. */
  function FirstSettled(kernel: seq<SysRet>): (i: nat)
    requires CloseSettles(kernel)
    ensures i < |kernel| && !Interrupted(kernel[i])
    ensures forall j :: 0 <= j < i ==> Interrupted(kernel[j])
  {
    if !Interrupted(kernel[0]) then 0
    else
      CloseSettlesTail(kernel);
      1 + FirstSettled(kernel[1..])
  }

  /** What Native.close reports for a script: the outcome of its first uninterrupted call. */
  function CloseResult(fdVal: int, kernel: seq<SysRet>): Result<int, ChannelError>
    requires CloseSettles(kernel)
  {
    var last := kernel[FirstSettled(kernel)];
    if last.rv < 0 then Failure(CloseFailed(fdVal, last.errno)) else Success(last.rv)
  }

  /**
   * Native.close: retries close(2) only on EINTR; any other failure
   * throws a RuntimeException naming the descriptor and the error;
   * success returns the non-negative return code.
   */
  method Close(fdVal: int, kernel: seq<SysRet>) returns (r: Result<int, ChannelError>, calls: nat)
    requires CloseSettles(kernel)
    ensures 1 <= calls <= |kernel|
    ensures forall i :: 0 <= i < calls - 1 ==> Interrupted(kernel[i])
    ensures !Interrupted(kernel[calls - 1])
    ensures r.Success? <==> kernel[calls - 1].rv >= 0
    ensures r.Success? ==> r.value == kernel[calls - 1].rv
    ensures r.Failure? ==> r.error == CloseFailed(fdVal, kernel[calls - 1].errno)
    ensures calls == FirstSettled(kernel) + 1 && r == CloseResult(fdVal, kernel)
  {
    ghost var k :| 0 <= k < |kernel| && !Interrupted(kernel[k]);
    var rc: int;
    var errno: int;
    calls := 0;
    while true
      invariant calls <= k
      invariant forall i :: 0 <= i < calls ==> Interrupted(kernel[i])
      decreases k - calls
    {
      rc, errno := kernel[calls].rv, kernel[calls].errno;
      calls := calls + 1;
      if !(rc < 0 && errno == EINTR) {
        break;
      }
    }
    if rc < 0 {
      r := Failure(CloseFailed(fdVal, errno));
    } else {
      r := Success(rc);
    }
  }

  /**
   * Native.setBlocking: `current` is what F_GETFL returned and `setfl`
   * the value handed to F_SETFL. Blocking clears O_NONBLOCK,
   * non-blocking sets it, and every other bit is written back as read.
   */
  method SetBlocking(fd: int, block: bool, current: bv32) returns (setfl: bv32)
    ensures setfl & !O_NONBLOCK == current & !O_NONBLOCK
    ensures setfl & O_NONBLOCK == (if block then 0 else O_NONBLOCK)
  {
    var flags := current;
    if block {
      flags := flags & !O_NONBLOCK;
    } else {
      flags := flags | O_NONBLOCK;
    }
    setfl := flags;
  }
}
