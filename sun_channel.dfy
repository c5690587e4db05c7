/**
 * sun.nio.ch.UnixSocketChannelImpl: the JDK-derived Unix-domain socket
 * channel. Each method runs atomically. A native call that blocks is one
 * step of a finite script; while it is in flight another thread may
 * close the channel or shut down one direction, and that interference is
 * part of the step. The fd close that kill() performs is counted in the
 * ghost field `fdCloses`, the two half-close syscalls in
 * `inputShutdowns`/`outputShutdowns`.
 */
module SunChannel {
  import opened Wrappers
  import opened Posix
  import opened Nio
  import opened UnixNet
  import opened RetryScript

  /**
   * The outcome of read once the loop has stopped with `ret`: end()
   * throws AsynchronousCloseException when nothing completed on a closed
   * channel; otherwise a shut-down input turns a non-positive result,
   * and even an exception, into EOF; otherwise the normalised count, or
   * the exception of the native call.
   */
  function ReadFinish(ret: IoReturn, open: bool, inputOpen: bool): Result<int, ChannelError> {
    if !Completed(ret) && !open then Failure(AsynchronousClose)
    else if Transferred(ret) <= 0 && !inputOpen then Success(IOS_EOF)
    else match ret
      case Code(n) => Success(Normalize(n))
      case Raised(e) => Failure(IOFailure(e))
  }

  /** The outcome of write: as read, but a shut-down output throws AsynchronousCloseException. */
  function WriteFinish(ret: IoReturn, open: bool, outputOpen: bool): Result<int, ChannelError> {
    if !Completed(ret) && !open then Failure(AsynchronousClose)
    else if Transferred(ret) <= 0 && !outputOpen then Failure(AsynchronousClose)
    else match ret
      case Code(n) => Success(Normalize(n))
      case Raised(e) => Failure(IOFailure(e))
  }

  /** A stopped loop's result: IOS_INTERRUPTED is only seen on a closed channel. */
  predicate StopResult(ret: IoReturn, open: bool) {
    (ret == Code(IOS_INTERRUPTED) ==> !open) && (ret.Code? ==> ret.n >= IOS_INTERRUPTED)
  }

  /** read reports a byte count or EOF: never IOS_UNAVAILABLE and never IOS_INTERRUPTED. */
  lemma ReadReportsCountOrEof(ret: IoReturn, open: bool, inputOpen: bool)
    requires StopResult(ret, open)
    ensures ReadFinish(ret, open, inputOpen).Success? ==> ReadFinish(ret, open, inputOpen).value >= IOS_EOF
  {
  }

  /**
   * After an input shutdown on an open channel, a read that moved no
   * bytes reports EOF, even if the native call threw; bytes that were
   * read are still reported.
   */
  lemma ReadAfterShutdown(ret: IoReturn)
    ensures Transferred(ret) <= 0 ==> ReadFinish(ret, true, false) == Success(IOS_EOF)
    ensures ret.Code? && ret.n > 0 ==> ReadFinish(ret, true, false) == Success(ret.n)
  {
  }

  /**
   * After an output shutdown, a write that moved no bytes throws
   * AsynchronousCloseException; bytes that were written are reported.
   */
  lemma WriteAfterShutdown(ret: IoReturn, open: bool)
    ensures Transferred(ret) <= 0 ==> WriteFinish(ret, open, false) == Failure(AsynchronousClose)
    ensures ret.Code? && ret.n > 0 ==> WriteFinish(ret, open, false) == Success(ret.n)
  {
  }

  /** The state kill() leaves: KILLED, except KILLPENDING while a reader or writer is in flight. */
  function KillState(state: int, busy: bool): int {
    if state == ST_KILLED || state == ST_UNINITIALIZED || !busy then ST_KILLED else ST_KILLPENDING
  }

  /** How many times kill() closes the fd: once, unless KILLED, UNINITIALIZED or postponed. */
  function KillCloses(state: int, busy: bool): nat {
    if state == ST_KILLED || state == ST_UNINITIALIZED || busy then 0 else 1
  }

  /** kill never lowers the state, and always ends in KILLPENDING or KILLED. */
  lemma KillMonotone(state: int, busy: bool)
    requires ST_UNINITIALIZED <= state <= ST_KILLED
    ensures state <= KillState(state, busy) && KillState(state, busy) >= ST_KILLPENDING
    ensures KillState(state, busy) == ST_KILLPENDING <==> busy && ST_UNCONNECTED <= state <= ST_KILLPENDING
  {
  }

  /** Two kills in a row close the fd at most once, however busy the channel is at each. */
  lemma KillClosesOnce(state: int, busy1: bool, busy2: bool)
    ensures KillCloses(state, busy1) + KillCloses(KillState(state, busy1), busy2) <= 1
  {
  }

  /** The part of the channel invariant that ties the state to isOpen(): open exactly while below KILLPENDING. */
  predicate OpenMatchesState(open: bool, state: int) {
    open <==> state < ST_KILLPENDING
  }

  /** The fields connect() writes once the native connect has returned `n`. */
  datatype ConnectCommit = ConnectCommit(state: int, address: Option<UnixSocketAddress>, connected: bool)

  /**
   * The commit step of connect as written: a result n > 0 sets
   * ST_CONNECTED even on a channel that was closed meanwhile (only the
   * address write checks isOpen()), and a non-blocking channel always
   * becomes ST_PENDING.
   */
  function ConnectCommitAsWritten(n: int, open: bool, blocking: bool, state: int,
                                  address: Option<UnixSocketAddress>, target: UnixSocketAddress): (c: ConnectCommit)
    ensures c.connected <==> n > 0
  {
    if n > 0 then ConnectCommit(ST_CONNECTED, if open then Some(target) else address, true)
    else if !blocking then ConnectCommit(ST_PENDING, Some(target), false)
    else ConnectCommit(state, address, false)
  }

  /**
   * As written, a close that lands during the connect syscall is undone:
   * the state goes back from KILLED to CONNECTED, so isConnected()
   * answers true on a closed channel, and the channel invariant (open
   * exactly while the state is below KILLPENDING) no longer holds. A
   * non-blocking connect likewise makes a killed channel PENDING.
   */
  lemma ConnectAsWrittenRegresses(target: UnixSocketAddress)
    ensures var c := ConnectCommitAsWritten(1, false, true, ST_KILLED, None, target);
      && c.state == ST_CONNECTED < ST_KILLED
      && c.connected
      && c.address == None
      && !OpenMatchesState(false, c.state)
    ensures ConnectCommitAsWritten(IOS_UNAVAILABLE, false, false, ST_KILLED, None, target).state == ST_PENDING
  {
  }

  /**
   * The commit step of connect, with the state write guarded by
   * isOpen() like the address write: a channel closed meanwhile keeps
   * its state and address.
   */
  function ConnectCommitGuarded(n: int, open: bool, blocking: bool, state: int,
                                address: Option<UnixSocketAddress>, target: UnixSocketAddress): (c: ConnectCommit)
    ensures c.connected <==> n > 0
    ensures !open ==> c.state == state && c.address == address
  {
    if !open then ConnectCommit(state, address, n > 0)
    else if n > 0 then ConnectCommit(ST_CONNECTED, Some(target), true)
    else if !blocking then ConnectCommit(ST_PENDING, Some(target), false)
    else ConnectCommit(state, address, false)
  }

  /** The guarded commit never lowers the state of a channel that connect may start on, and keeps it in step with isOpen(). */
  lemma ConnectCommitMonotone(n: int, open: bool, blocking: bool, state: int,
                              address: Option<UnixSocketAddress>, target: UnixSocketAddress)
    requires open ==> state <= ST_UNCONNECTED
    ensures state <= ConnectCommitGuarded(n, open, blocking, state, address, target).state
    ensures OpenMatchesState(open, state) ==> OpenMatchesState(open, ConnectCommitGuarded(n, open, blocking, state, address, target).state)
  {
  }

  /** The options this channel supports: none. */
  const SUPPORTED_OPTIONS: set<SocketOption> := {}

  /**
   * setOption: an option outside the supported set is refused before
   * the channel is looked at. The set is empty, so the checks that
   * follow in the source are never reached.
   */
  function SetOption(name: SocketOption, value: OptionValue): (r: Outcome<ChannelError>)
    ensures name !in SUPPORTED_OPTIONS ==> r == Fail(UnsupportedOption)
  {
    Fail(UnsupportedOption)
  }

  /** getOption: refused the same way. */
  function GetOption(name: SocketOption): (r: Result<OptionValue, ChannelError>)
    ensures name !in SUPPORTED_OPTIONS ==> r == Failure(UnsupportedOption)
  {
    Failure(UnsupportedOption)
  }

  class UnixSocketChannelImpl {
    const fdVal: int
    var open: bool
    var blocking: bool
    var state: int
    var socketAdress: Option<UnixSocketAddress>
    var isInputOpen: bool
    var isOutputOpen: bool
    /** A reader (resp. writer) thread is inside a native call. */
    var readerThread: bool
    var writerThread: bool
    ghost var fdCloses: nat
    ghost var inputShutdowns: nat
    ghost var outputShutdowns: nat

    /** The range of the state, and the at-most-once native calls. */
    ghost predicate Counters()
      reads this
    {
      && ST_UNINITIALIZED <= state <= ST_KILLED
      && fdCloses <= 1 && (fdCloses == 1 ==> state == ST_KILLED)
      && inputShutdowns <= 1 && (inputShutdowns == 1 ==> !isInputOpen)
      && outputShutdowns <= 1 && (outputShutdowns == 1 ==> !isOutputOpen)
    }

    /**
     * The channel invariant: it is open exactly while the state is below
     * KILLPENDING, a closed channel has both directions shut, and a kill
     * is pending only while a reader or writer is in flight.
     */
    ghost predicate Valid()
      reads this
    {
      && Counters()
      && OpenMatchesState(open, state)
      && (!open ==> !isInputOpen && !isOutputOpen)
      && (state == ST_KILLPENDING ==> readerThread || writerThread)
    }

    /** No native call is in flight: the state between two public calls. */
    predicate Idle()
      reads this
    {
      !readerThread && !writerThread
    }

    /** The channel of a freshly created AF_UNIX stream socket `fd`. */
    constructor (fd: int)
      ensures Valid() && Idle()
      ensures fdVal == fd && open && blocking && state == ST_UNCONNECTED
      ensures socketAdress.None? && isInputOpen && isOutputOpen
      ensures fdCloses == 0 && inputShutdowns == 0 && outputShutdowns == 0
    {
      fdVal := fd;
      open := true;
      blocking := true;
      state := ST_UNCONNECTED;
      socketAdress := None;
      isInputOpen := true;
      isOutputOpen := true;
      readerThread := false;
      writerThread := false;
      fdCloses := 0;
      inputShutdowns := 0;
      outputShutdowns := 0;
    }

    /**
     * The public constructor: create the socket with socket(AF_UNIX,
     * SOCK_STREAM, 0), answered by `kernel`; a failure raises.
     */
    static method Open(kernel: SocketArgs -> SysRet) returns (r: Result<UnixSocketChannelImpl, ChannelError>)
      ensures r.Success? <==> kernel(SocketArgs(AF_UNIX, SOCK_STREAM, 0)).rv >= 0
      ensures r.Failure? ==> r.error == IOFailure(kernel(SocketArgs(AF_UNIX, SOCK_STREAM, 0)).errno)
      ensures r.Success? ==>
        && fresh(r.value) && r.value.Valid() && r.value.Idle()
        && r.value.fdVal == kernel(SocketArgs(AF_UNIX, SOCK_STREAM, 0)).rv
        && r.value.open && r.value.state == ST_UNCONNECTED && r.value.socketAdress.None?
    {
      var fd := SocketU(true, kernel);
      match fd {
        case Raised(e) => r := Failure(IOFailure(e));
        case Code(v) =>
          var c := new UnixSocketChannelImpl(v);
          r := Success(c);
      }
    }

    predicate IsConnected()
      reads this
    {
      state == ST_CONNECTED
    }

    /** getLocalAddress: the bound address of an open channel. */
    function GetLocalAddress(): (r: Result<Option<UnixSocketAddress>, ChannelError>)
      reads this
      ensures r.Failure? <==> !open
      ensures r.Failure? ==> r.error == ClosedChannel
      ensures r.Success? ==> r.value == socketAdress
    {
      if !open then Failure(ClosedChannel) else Success(socketAdress)
    }

    /** getRemoteAddress: the same single address field. */
    function GetRemoteAddress(): (r: Result<Option<UnixSocketAddress>, ChannelError>)
      reads this
      ensures r.Failure? <==> !open
      ensures r.Failure? ==> r.error == ClosedChannel
      ensures r.Success? ==> r.value == socketAdress
    {
      if !open then Failure(ClosedChannel) else Success(socketAdress)
    }

    /** The local and the remote address are one and the same field. */
    lemma LocalIsRemote()
      ensures GetLocalAddress() == GetRemoteAddress()
    {
    }

    /**
     * ensureReadOpen: closed, then not connected, throw; otherwise the
     * answer is whether input is still open.
     */
    function EnsureReadOpen(): (r: Result<bool, ChannelError>)
      reads this
      ensures r == Failure(ClosedChannel) <==> !open
      ensures r == Failure(NotYetConnected) <==> open && !IsConnected()
      ensures r.Success? <==> open && IsConnected()
      ensures r.Success? ==> r.value == isInputOpen
    {
      if !open then Failure(ClosedChannel)
      else if !IsConnected() then Failure(NotYetConnected)
      else Success(isInputOpen)
    }

    /** ensureWriteOpen: closed or output shut throw ClosedChannelException, then not connected. */
    function EnsureWriteOpen(): (r: Outcome<ChannelError>)
      reads this
      ensures r == Fail(ClosedChannel) <==> !open || !isOutputOpen
      ensures r == Fail(NotYetConnected) <==> open && isOutputOpen && !IsConnected()
      ensures r == Pass <==> open && isOutputOpen && IsConnected()
    {
      if !open || !isOutputOpen then Fail(ClosedChannel)
      else if !IsConnected() then Fail(NotYetConnected)
      else Pass
    }

    /** ensureOpenAndUnconnected: closed, connected or pending channels are refused. */
    function EnsureOpenAndUnconnected(): (r: Outcome<ChannelError>)
      reads this
      ensures r == Fail(ClosedChannel) <==> !open
      ensures r == Fail(AlreadyConnected) <==> open && state == ST_CONNECTED
      ensures r == Fail(ConnectionPending) <==> open && state == ST_PENDING
      ensures r == Pass <==> open && state != ST_CONNECTED && state != ST_PENDING
    {
      if !open then Fail(ClosedChannel)
      else if state == ST_CONNECTED then Fail(AlreadyConnected)
      else if state == ST_PENDING then Fail(ConnectionPending)
      else Pass
    }

    /**
     * kill: nothing once KILLED; UNINITIALIZED goes to KILLED without a
     * close; otherwise the fd is closed and the state is KILLED, unless a
     * reader or writer is in flight, in which case the kill is postponed
     * (KILLPENDING). The channel is closed when kill runs.
     */
    method Kill()
      requires Counters() && !open && !isInputOpen && !isOutputOpen
      modifies this
      ensures Valid()
      ensures state == KillState(old(state), readerThread || writerThread)
      ensures fdCloses == old(fdCloses) + KillCloses(old(state), readerThread || writerThread)
      ensures open == old(open) && blocking == old(blocking) && socketAdress == old(socketAdress)
      ensures isInputOpen == old(isInputOpen) && isOutputOpen == old(isOutputOpen)
      ensures readerThread == old(readerThread) && writerThread == old(writerThread)
      ensures inputShutdowns == old(inputShutdowns) && outputShutdowns == old(outputShutdowns)
    {
      if state == ST_KILLED {
        return;
      }
      if state == ST_UNINITIALIZED {
        state := ST_KILLED;
        return;
      }
      if !readerThread && !writerThread {
        fdCloses := fdCloses + 1;
        state := ST_KILLED;
      } else {
        state := ST_KILLPENDING;
      }
    }

    /** implCloseSelectableChannel: shut both directions, then kill. */
    method ImplCloseSelectableChannel()
      requires Counters() && !open && state < ST_KILLPENDING
      modifies this
      ensures Valid()
      ensures !isInputOpen && !isOutputOpen
      ensures state == KillState(old(state), readerThread || writerThread)
      ensures fdCloses == old(fdCloses) + KillCloses(old(state), readerThread || writerThread)
      ensures open == old(open) && blocking == old(blocking) && socketAdress == old(socketAdress)
      ensures readerThread == old(readerThread) && writerThread == old(writerThread)
      ensures inputShutdowns == old(inputShutdowns) && outputShutdowns == old(outputShutdowns)
    {
      isInputOpen := false;
      isOutputOpen := false;
      Kill();
    }

    /** close (AbstractInterruptibleChannel): only the first call does anything. */
    method Close()
      requires Valid()
      modifies this
      ensures Valid() && !open
      ensures !old(open) ==> unchanged(this)
      ensures old(open) ==>
        && !isInputOpen && !isOutputOpen
        && state == KillState(old(state), readerThread || writerThread)
        && fdCloses == old(fdCloses) + KillCloses(old(state), readerThread || writerThread)
      ensures blocking == old(blocking) && socketAdress == old(socketAdress)
      ensures readerThread == old(readerThread) && writerThread == old(writerThread)
      ensures inputShutdowns == old(inputShutdowns) && outputShutdowns == old(outputShutdowns)
    {
      if !open {
        return;
      }
      open := false;
      ImplCloseSelectableChannel();
    }

    /** readerCleanup: the reader leaves; a postponed kill is carried out now. */
    method ReaderCleanup()
      requires Valid() && readerThread && !writerThread
      modifies this
      ensures Valid() && Idle()
      ensures state == (if old(state) == ST_KILLPENDING then ST_KILLED else old(state))
      ensures fdCloses == old(fdCloses) + (if old(state) == ST_KILLPENDING then 1 else 0)
      ensures open == old(open) && blocking == old(blocking) && socketAdress == old(socketAdress)
      ensures isInputOpen == old(isInputOpen) && isOutputOpen == old(isOutputOpen)
      ensures inputShutdowns == old(inputShutdowns) && outputShutdowns == old(outputShutdowns)
    {
      readerThread := false;
      if state == ST_KILLPENDING {
        Kill();
      }
    }

    /** writerCleanup: the writer leaves; a postponed kill is carried out now. */
    method WriterCleanup()
      requires Valid() && writerThread && !readerThread
      modifies this
      ensures Valid() && Idle()
      ensures state == (if old(state) == ST_KILLPENDING then ST_KILLED else old(state))
      ensures fdCloses == old(fdCloses) + (if old(state) == ST_KILLPENDING then 1 else 0)
      ensures open == old(open) && blocking == old(blocking) && socketAdress == old(socketAdress)
      ensures isInputOpen == old(isInputOpen) && isOutputOpen == old(isOutputOpen)
      ensures inputShutdowns == old(inputShutdowns) && outputShutdowns == old(outputShutdowns)
    {
      writerThread := false;
      if state == ST_KILLPENDING {
        Kill();
      }
    }

    /**
     * shutdownInput: an open, connected channel shuts its input with one
     * shutdown(SHUT_RD) (answered by `kernel`) the first time; later
     * calls do nothing.
     */
    method ShutdownInput(kernel: Outcome<int>) returns (r: Outcome<ChannelError>)
      requires Valid()
      modifies this
      ensures Valid()
      ensures !old(open) ==> r == Fail(ClosedChannel) && unchanged(this)
      ensures old(open) && old(state) != ST_CONNECTED ==> r == Fail(NotYetConnected) && unchanged(this)
      ensures old(open) && old(state) == ST_CONNECTED ==>
        && (!old(isInputOpen) ==> r == Pass && unchanged(this))
        && (old(isInputOpen) && kernel.Fail? ==> r == Fail(IOFailure(kernel.error)) && unchanged(this))
        && (old(isInputOpen) && kernel.Pass? ==> r == Pass && !isInputOpen && inputShutdowns == old(inputShutdowns) + 1)
      ensures open == old(open) && state == old(state) && fdCloses == old(fdCloses)
      ensures isOutputOpen == old(isOutputOpen) && outputShutdowns == old(outputShutdowns)
      ensures blocking == old(blocking) && socketAdress == old(socketAdress)
      ensures readerThread == old(readerThread) && writerThread == old(writerThread)
    {
      if !open {
        return Fail(ClosedChannel);
      }
      if !IsConnected() {
        return Fail(NotYetConnected);
      }
      if isInputOpen {
        if kernel.Fail? {
          return Fail(IOFailure(kernel.error));
        }
        inputShutdowns := inputShutdowns + 1;
        isInputOpen := false;
      }
      r := Pass;
    }

    /** shutdownOutput: as shutdownInput, for the output direction (SHUT_WR). */
    method ShutdownOutput(kernel: Outcome<int>) returns (r: Outcome<ChannelError>)
      requires Valid()
      modifies this
      ensures Valid()
      ensures !old(open) ==> r == Fail(ClosedChannel) && unchanged(this)
      ensures old(open) && old(state) != ST_CONNECTED ==> r == Fail(NotYetConnected) && unchanged(this)
      ensures old(open) && old(state) == ST_CONNECTED ==>
        && (!old(isOutputOpen) ==> r == Pass && unchanged(this))
        && (old(isOutputOpen) && kernel.Fail? ==> r == Fail(IOFailure(kernel.error)) && unchanged(this))
        && (old(isOutputOpen) && kernel.Pass? ==> r == Pass && !isOutputOpen && outputShutdowns == old(outputShutdowns) + 1)
      ensures open == old(open) && state == old(state) && fdCloses == old(fdCloses)
      ensures isInputOpen == old(isInputOpen) && inputShutdowns == old(inputShutdowns)
      ensures blocking == old(blocking) && socketAdress == old(socketAdress)
      ensures readerThread == old(readerThread) && writerThread == old(writerThread)
    {
      if !open {
        return Fail(ClosedChannel);
      }
      if !IsConnected() {
        return Fail(NotYetConnected);
      }
      if isOutputOpen {
        if kernel.Fail? {
          return Fail(IOFailure(kernel.error));
        }
        outputShutdowns := outputShutdowns + 1;
        isOutputOpen := false;
      }
      r := Pass;
    }

    /**
     * The retry loop shared by read, write, connect and finishConnect:
     * mark the reader (or writer) as in flight, then issue native calls
     * from `steps`, applying what lands during each, until one stops the
     * loop. The cleanup is left to the caller.
     */
    method Transfer(steps: seq<Step>, reading: bool, retryZero: bool) returns (ret: IoReturn, ghost calls: nat)
      requires Valid() && Idle() && open && Settles(steps, retryZero)
      modifies this
      ensures Valid()
      ensures reading ==> readerThread && !writerThread
      ensures !reading ==> writerThread && !readerThread
      ensures StoppedAt(steps, calls, retryZero) && ret == steps[calls - 1].ret
      ensures open == !ClosedWithin(steps, calls)
      ensures state == (if ClosedWithin(steps, calls) then KillState(old(state), true) else old(state))
      ensures fdCloses == old(fdCloses)
      ensures isInputOpen == (old(isInputOpen) && !ClosedWithin(steps, calls)
                              && !(old(state) == ST_CONNECTED && InputShutWithin(steps, calls)))
      ensures isOutputOpen == (old(isOutputOpen) && !ClosedWithin(steps, calls)
                               && !(old(state) == ST_CONNECTED && OutputShutWithin(steps, calls)))
      ensures blocking == old(blocking) && socketAdress == old(socketAdress)
    {
      if reading {
        readerThread := true;
      } else {
        writerThread := true;
      }
      ghost var k :| 0 <= k < |steps| && Stops(steps, k, retryZero);
      ret := Code(0);
      var i := 0;
      while true
        invariant Valid() && i <= k
        invariant reading ==> readerThread && !writerThread
        invariant !reading ==> writerThread && !readerThread
        invariant forall j :: 0 <= j < i ==> !Stops(steps, j, retryZero)
        invariant open == !ClosedWithin(steps, i)
        invariant state == (if ClosedWithin(steps, i) then KillState(old(state), true) else old(state))
        invariant fdCloses == old(fdCloses)
        invariant isInputOpen == (old(isInputOpen) && !ClosedWithin(steps, i)
                                  && !(old(state) == ST_CONNECTED && InputShutWithin(steps, i)))
        invariant isOutputOpen == (old(isOutputOpen) && !ClosedWithin(steps, i)
                                   && !(old(state) == ST_CONNECTED && OutputShutWithin(steps, i)))
        invariant blocking == old(blocking) && socketAdress == old(socketAdress)
        decreases k - i
      {
        match steps[i].during {
          case Quiet =>
          case AsyncClose => Close();
          case AsyncShutdownInput => var _ := ShutdownInput(Pass);
          case AsyncShutdownOutput => var _ := ShutdownOutput(Pass);
        }
        ret := steps[i].ret;
        i := i + 1;
        var retry := (retryZero && ret == Code(0)) || (ret == Code(IOS_INTERRUPTED) && open);
        if !retry {
          break;
        }
      }
      calls := i;
    }

    /**
     * What read (single or scattering) promises: the checks of
     * ensureReadOpen, then the loop and the finally block. A close that
     * landed leaves the channel KILLED with its fd closed once.
     */
    twostate predicate ReadBehaviour(steps: seq<Step>, new r: Result<int, ChannelError>, calls: nat)
      reads this
    {
      && (!old(open) ==> r == Failure(ClosedChannel) && calls == 0 && unchanged(this))
      && (old(open) && old(state) != ST_CONNECTED ==> r == Failure(NotYetConnected) && calls == 0 && unchanged(this))
      && (old(open) && old(state) == ST_CONNECTED && !old(isInputOpen) ==>
            r == Success(IOS_EOF) && calls == 0 && unchanged(this))
      && (old(open) && old(state) == ST_CONNECTED && old(isInputOpen) ==>
            && StoppedAt(steps, calls, false)
            && r == ReadFinish(steps[calls - 1].ret, open, isInputOpen)
            && socketAdress == old(socketAdress) && blocking == old(blocking)
            && (ClosedWithin(steps, calls) ==>
                  !open && state == ST_KILLED && fdCloses == 1 && !isInputOpen && !isOutputOpen)
            && (!ClosedWithin(steps, calls) ==>
                  && open && state == ST_CONNECTED && fdCloses == old(fdCloses)
                  && isInputOpen == !InputShutWithin(steps, calls)
                  && isOutputOpen == (old(isOutputOpen) && !OutputShutWithin(steps, calls))))
    }

    /** read(ByteBuffer). */
    method Read(steps: seq<Step>) returns (r: Result<int, ChannelError>, ghost calls: nat)
      requires Valid() && Idle() && Settles(steps, false)
      modifies this
      ensures Valid() && Idle() && old(state) <= state
      ensures ReadBehaviour(steps, r, calls)
    {
      var ready := EnsureReadOpen();
      if ready.Failure? {
        return Failure(ready.error), 0;
      }
      if !ready.value {
        return Success(IOS_EOF), 0;
      }
      var ret;
      ret, calls := Transfer(steps, true, false);
      ReaderCleanup();
      r := ReadFinish(ret, open, isInputOpen);
    }

    /** read(ByteBuffer[], offset, length): the bounds check, then as read. */
    method ReadScatter(dstsLength: nat, offset: int, length: int, steps: seq<Step>)
      returns (r: Result<int, ChannelError>, ghost calls: nat)
      requires Valid() && Idle() && Settles(steps, false)
      modifies this
      ensures Valid() && Idle() && old(state) <= state
      ensures offset < 0 || length < 0 || offset > dstsLength - length ==>
        r == Failure(IndexOutOfBounds) && calls == 0 && unchanged(this)
      ensures 0 <= offset && 0 <= length && offset <= dstsLength - length ==> ReadBehaviour(steps, r, calls)
    {
      if offset < 0 || length < 0 || offset > dstsLength - length {
        return Failure(IndexOutOfBounds), 0;
      }
      r, calls := Read(steps);
    }

    /** What write (single or gathering) promises. */
    twostate predicate WriteBehaviour(steps: seq<Step>, new r: Result<int, ChannelError>, calls: nat)
      reads this
    {
      && (!old(open) || !old(isOutputOpen) ==> r == Failure(ClosedChannel) && calls == 0 && unchanged(this))
      && (old(open) && old(isOutputOpen) && old(state) != ST_CONNECTED ==>
            r == Failure(NotYetConnected) && calls == 0 && unchanged(this))
      && (old(open) && old(isOutputOpen) && old(state) == ST_CONNECTED ==>
            && StoppedAt(steps, calls, false)
            && r == WriteFinish(steps[calls - 1].ret, open, isOutputOpen)
            && socketAdress == old(socketAdress) && blocking == old(blocking)
            && (ClosedWithin(steps, calls) ==>
                  !open && state == ST_KILLED && fdCloses == 1 && !isInputOpen && !isOutputOpen)
            && (!ClosedWithin(steps, calls) ==>
                  && open && state == ST_CONNECTED && fdCloses == old(fdCloses)
                  && isInputOpen == (old(isInputOpen) && !InputShutWithin(steps, calls))
                  && isOutputOpen == !OutputShutWithin(steps, calls)))
    }

    /** write(ByteBuffer). */
    method Write(steps: seq<Step>) returns (r: Result<int, ChannelError>, ghost calls: nat)
      requires Valid() && Idle() && Settles(steps, false)
      modifies this
      ensures Valid() && Idle() && old(state) <= state
      ensures WriteBehaviour(steps, r, calls)
    {
      var ready := EnsureWriteOpen();
      if ready.Fail? {
        return Failure(ready.error), 0;
      }
      var ret;
      ret, calls := Transfer(steps, false, false);
      WriterCleanup();
      r := WriteFinish(ret, open, isOutputOpen);
    }

    /** write(ByteBuffer[], offset, length): the bounds check, then as write. */
    method WriteGather(srcsLength: nat, offset: int, length: int, steps: seq<Step>)
      returns (r: Result<int, ChannelError>, ghost calls: nat)
      requires Valid() && Idle() && Settles(steps, false)
      modifies this
      ensures Valid() && Idle() && old(state) <= state
      ensures offset < 0 || length < 0 || offset > srcsLength - length ==>
        r == Failure(IndexOutOfBounds) && calls == 0 && unchanged(this)
      ensures 0 <= offset && 0 <= length && offset <= srcsLength - length ==> WriteBehaviour(steps, r, calls)
    {
      if offset < 0 || length < 0 || offset > srcsLength - length {
        return Failure(IndexOutOfBounds), 0;
      }
      r, calls := Write(steps);
    }

    /**
     * bind: refused on a closed channel, while a connection is pending,
     * or once an address is set; otherwise the bind syscall runs on the
     * address given, or on the empty path when none is (`kernel`
     * answering for the address), and, if it succeeds, `local` is stored
     * as given (binding to null stores nothing).
     */
    method Bind(local: Option<UnixSocketAddress>, kernel: UnixSocketAddress -> Outcome<int>) returns (r: Outcome<ChannelError>)
      requires Valid() && Idle()
      modifies this
      ensures Valid() && Idle()
      ensures !old(open) ==> r == Fail(ClosedChannel) && unchanged(this)
      ensures old(open) && old(state) == ST_PENDING ==> r == Fail(ConnectionPending) && unchanged(this)
      ensures old(open) && old(state) != ST_PENDING && old(socketAdress).Some? ==>
        r == Fail(AlreadyBound) && unchanged(this)
      ensures old(open) && old(state) != ST_PENDING && old(socketAdress).None? ==>
        && (kernel(BindAddress(local)).Fail? ==> r == Fail(IOFailure(kernel(BindAddress(local)).error)) && unchanged(this))
        && (kernel(BindAddress(local)).Pass? ==> r == Pass && socketAdress == local)
      ensures open == old(open) && state == old(state) && fdCloses == old(fdCloses)
      ensures isInputOpen == old(isInputOpen) && isOutputOpen == old(isOutputOpen) && blocking == old(blocking)
    {
      if !open {
        return Fail(ClosedChannel);
      }
      if state == ST_PENDING {
        return Fail(ConnectionPending);
      }
      if socketAdress.Some? {
        return Fail(AlreadyBound);
      }
      var bound := kernel(BindAddress(local));
      if bound.Fail? {
        return Fail(IOFailure(bound.error));
      }
      socketAdress := local;
      r := Pass;
    }

    /** configureBlocking: a closed channel refuses; otherwise the mode is set. */
    method ConfigureBlocking(block: bool) returns (r: Outcome<ChannelError>)
      requires Valid() && Idle()
      modifies this
      ensures Valid() && Idle()
      ensures !old(open) ==> r == Fail(ClosedChannel) && unchanged(this)
      ensures old(open) ==> r == Pass && blocking == block
      ensures open == old(open) && state == old(state) && socketAdress == old(socketAdress)
      ensures isInputOpen == old(isInputOpen) && isOutputOpen == old(isOutputOpen) && fdCloses == old(fdCloses)
    {
      if !open {
        return Fail(ClosedChannel);
      }
      blocking := block;
      r := Pass;
    }

    /**
     * connect: guarded by ensureOpenAndUnconnected; the connect call is
     * retried while interrupted on an open channel. An exception (from
     * the call, or AsynchronousCloseException from end() when nothing
     * completed on a closed channel) closes the channel and is rethrown.
     * Otherwise n > 0 connects to `usa`, and a non-blocking channel
     * without success becomes pending on `usa`; a channel closed during
     * the call keeps its state (see ConnectCommitGuarded).
     */
    method Connect(usa: UnixSocketAddress, steps: seq<Step>) returns (r: Result<bool, ChannelError>, ghost calls: nat)
      requires Valid() && Idle() && Settles(steps, false)
      modifies this
      ensures Valid() && Idle() && old(state) <= state
      ensures !old(open) ==> r == Failure(ClosedChannel) && calls == 0 && unchanged(this)
      ensures old(open) && old(state) == ST_CONNECTED ==> r == Failure(AlreadyConnected) && calls == 0 && unchanged(this)
      ensures old(open) && old(state) == ST_PENDING ==> r == Failure(ConnectionPending) && calls == 0 && unchanged(this)
      ensures old(open) && old(state) != ST_CONNECTED && old(state) != ST_PENDING ==>
        && StoppedAt(steps, calls, false)
        && var ret := steps[calls - 1].ret;
        && var closed := ClosedWithin(steps, calls);
        && (r.Failure? <==> ret.Raised? || (closed && !Completed(ret)))
        && (r.Failure? ==> r.error == (if closed then AsynchronousClose else IOFailure(ret.errno)))
        && (r.Failure? || closed ==>
              && !open && state == ST_KILLED
              && fdCloses == (if old(state) == ST_UNINITIALIZED then 0 else 1))
        && (r.Success? ==> r.value == (ret.n > 0))
        && (closed ==> socketAdress == old(socketAdress))
        && blocking == old(blocking)
        && (r.Success? && !closed ==>
              && open && isInputOpen == old(isInputOpen) && isOutputOpen == old(isOutputOpen)
              && state == (if ret.n > 0 then ST_CONNECTED else if !blocking then ST_PENDING else old(state))
              && socketAdress == (if ret.n > 0 || !blocking then Some(usa) else old(socketAdress)))
    {
      var guard := EnsureOpenAndUnconnected();
      if guard.Fail? {
        return Failure(guard.error), 0;
      }
      var ret;
      ret, calls := Transfer(steps, true, false);
      ReaderCleanup();
      var failure: Option<ChannelError> := None;
      if !Completed(ret) && !open {
        failure := Some(AsynchronousClose);
      } else if ret.Raised? {
        failure := Some(IOFailure(ret.errno));
      }
      if failure.Some? {
        Close();
        return Failure(failure.value), calls;
      }
      var c := ConnectCommitGuarded(ret.n, open, blocking, state, socketAdress, usa);
      state := c.state;
      socketAdress := c.address;
      r := Success(c.connected);
    }

    /**
     * finishConnect: true at once when connected; refused unless
     * pending. In blocking mode a result of 0 is retried too. A close
     * that landed is found as KILLPENDING in the finally block: the kill
     * is completed and n forced to 0, so end() throws
     * AsynchronousCloseException. Exceptions close the channel; n > 0
     * connects.
     */
    method FinishConnect(steps: seq<Step>) returns (r: Result<bool, ChannelError>, ghost calls: nat)
      requires Valid() && Idle() && Settles(steps, blocking)
      modifies this
      ensures Valid() && Idle() && old(state) <= state
      ensures !old(open) ==> r == Failure(ClosedChannel) && calls == 0 && unchanged(this)
      ensures old(open) && old(state) == ST_CONNECTED ==> r == Success(true) && calls == 0 && unchanged(this)
      ensures old(open) && old(state) != ST_CONNECTED && old(state) != ST_PENDING ==>
        r == Failure(NoConnectionPending) && calls == 0 && unchanged(this)
      ensures old(open) && old(state) == ST_PENDING ==>
        && StoppedAt(steps, calls, old(blocking))
        && var ret := steps[calls - 1].ret;
        && var closed := ClosedWithin(steps, calls);
        && (closed ==> r == Failure(AsynchronousClose))
        && (!closed && ret.Raised? ==> r == Failure(IOFailure(ret.errno)))
        && (r.Failure? ==> !open && state == ST_KILLED && fdCloses == 1)
        && (!closed && ret.Code? ==>
              && open && r == Success(ret.n > 0)
              && state == (if ret.n > 0 then ST_CONNECTED else ST_PENDING)
              && isInputOpen == old(isInputOpen) && isOutputOpen == old(isOutputOpen))
        && socketAdress == old(socketAdress) && blocking == old(blocking)
    {
      if !open {
        return Failure(ClosedChannel), 0;
      }
      if state == ST_CONNECTED {
        return Success(true), 0;
      }
      if state != ST_PENDING {
        return Failure(NoConnectionPending), 0;
      }
      var ret;
      ret, calls := Transfer(steps, true, blocking);
      var n := Transferred(ret);
      readerThread := false;
      if state == ST_KILLPENDING {
        Kill();
        n := 0;
      }
      var failure: Option<ChannelError> := None;
      if !(n > 0 || n == IOS_UNAVAILABLE) && !open {
        failure := Some(AsynchronousClose);
      } else if ret.Raised? {
        failure := Some(IOFailure(ret.errno));
      }
      if failure.Some? {
        Close();
        return Failure(failure.value), calls;
      }
      if n > 0 {
        state := ST_CONNECTED;
        return Success(true), calls;
      }
      r := Success(false);
    }
  }
}
