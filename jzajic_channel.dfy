/**
 * net.jzajic.graalvm.socket.channel.UnixSocketChannelImpl: the
 * standalone Unix-domain socket channel. It keeps a local and a remote
 * address, supports a fixed set of options, and reads and writes by
 * moving ByteBuffer positions. Closing it only closes the descriptor
 * (Native.close); the lifecycle state is left as it was. Buffers are
 * values (a position and a limit); each native read or write is an
 * abstract outcome.
 */
module JzajicChannel {
  import opened Wrappers
  import opened Posix
  import opened Nio
  import opened UnixNet
  import opened RetryScript
  import opened SocketOptions
  import JzajicOptionRegistry
  import Native

  /** The options setOption/getOption accept. */
  const SUPPORTED_OPTIONS: set<SocketOption> := {SO_PEERCRED, SO_RCVTIMEO, SO_SNDBUF, SO_RCVBUF, SO_KEEPALIVE}

  /**
   * Where the supported options sit in the registry: the four standard
   * ones under UNSPEC, and SO_PEERCRED only under UNIX.
   */
  lemma SupportedRegistered()
    ensures JzajicOptionRegistry.FindOption(SO_KEEPALIVE, UNSPEC) == Some(OptionKey(SOL_SOCKET, SO_KEEPALIVE_NAME))
    ensures JzajicOptionRegistry.FindOption(SO_SNDBUF, UNSPEC) == Some(OptionKey(SOL_SOCKET, SO_SNDBUF_NAME))
    ensures JzajicOptionRegistry.FindOption(SO_RCVBUF, UNSPEC) == Some(OptionKey(SOL_SOCKET, SO_RCVBUF_NAME))
    ensures JzajicOptionRegistry.FindOption(SO_RCVTIMEO, UNSPEC) == Some(OptionKey(SOL_SOCKET, SO_RCVTIMEO_NAME))
    ensures JzajicOptionRegistry.FindOption(SO_PEERCRED, UNSPEC) == None
    ensures JzajicOptionRegistry.FindOption(SO_PEERCRED, UNIX) == Some(OptionKey(SOL_SOCKET, 17))
  {
    JzajicOptionRegistry.FindOptionPut(1);
    JzajicOptionRegistry.FindOptionPut(3);
    JzajicOptionRegistry.FindOptionPut(4);
    JzajicOptionRegistry.FindOptionPut(15);
    JzajicOptionRegistry.PeerCredOnlyUnix(UNSPEC);
    JzajicOptionRegistry.PeerCredOnlyUnix(UNIX);
  }

  /**
   * The (level, name) the option calls hand to the socket: the registry
   * entry under UNSPEC, the family the calls pass, or else the entry
   * under UNIX, the channel's own family. Every supported option
   * resolves, to a SOL_SOCKET option.
   */
  function Lookup(name: SocketOption): (r: Option<OptionKey>)
    ensures name in SUPPORTED_OPTIONS ==> r.Some? && r.value.level == SOL_SOCKET
    ensures name == SO_PEERCRED ==> r == Some(OptionKey(SOL_SOCKET, 17))
    ensures JzajicOptionRegistry.FindOption(name, UNSPEC).Some? ==> r == JzajicOptionRegistry.FindOption(name, UNSPEC)
    ensures r.Some? ==> r == JzajicOptionRegistry.FindOption(name, UNSPEC) || r == JzajicOptionRegistry.FindOption(name, UNIX)
  {
    SupportedRegistered();
    var unspec := JzajicOptionRegistry.FindOption(name, UNSPEC);
    if unspec.Some? then unspec else JzajicOptionRegistry.FindOption(name, UNIX)
  }

  /**
   * getOption as written, on a channel that is `open` or not: the
   * option is looked up under UNSPEC only, and a miss fails before the
   * socket (`kernel`, answering for a level and name) is asked.
   */
  function GetOptionAsWritten(name: SocketOption, open: bool, kernel: OptionKey -> Result<OptionValue, int>): (r: Result<OptionValue, ChannelError>)
    ensures r == Failure(UnsupportedOption) <==> name !in SUPPORTED_OPTIONS
    ensures r == Failure(ClosedChannel) <==> name in SUPPORTED_OPTIONS && !open
    ensures r == Failure(OptionNotFound) <==>
      name in SUPPORTED_OPTIONS && open && JzajicOptionRegistry.FindOption(name, UNSPEC).None?
    ensures r.Success? ==> exists key :: JzajicOptionRegistry.FindOption(name, UNSPEC) == Some(key) && kernel(key) == Success(r.value)
  {
    if name !in SUPPORTED_OPTIONS then Failure(UnsupportedOption)
    else if !open then Failure(ClosedChannel)
    else match JzajicOptionRegistry.FindOption(name, UNSPEC)
      case None => Failure(OptionNotFound)
      case Some(key) => if kernel(key).Failure? then Failure(IOFailure(kernel(key).error)) else Success(kernel(key).value)
  }

  /**
   * As written, SO_PEERCRED is supported but not registered under
   * UNSPEC, so on an open channel getOption(SO_PEERCRED) always fails,
   * whatever the socket would report; the UNIX entry resolves it.
   */
  lemma PeerCredAsWrittenFails(kernel: OptionKey -> Result<OptionValue, int>)
    ensures SO_PEERCRED in SUPPORTED_OPTIONS
    ensures GetOptionAsWritten(SO_PEERCRED, true, kernel) == Failure(OptionNotFound)
    ensures Lookup(SO_PEERCRED).Some?
  {
  }

  /** EAGAIN or EWOULDBLOCK: the call would have blocked. */
  predicate WouldBlock(errno: int) {
    errno == EAGAIN || errno == EWOULDBLOCK
  }

  /**
   * read(ByteBuffer): the native result `out` mapped to the channel's
   * answer. 0 bytes is end of stream (-1); -1 with EAGAIN/EWOULDBLOCK
   * is "nothing now" (0); any other -1 throws; any other value is
   * returned as it is.
   */
  function ReadResult(out: SysRet): (r: Result<int, ChannelError>)
    ensures r == Success(IOS_EOF) <==> out.rv == 0
    ensures r == Success(0) <==> out.rv == -1 && WouldBlock(out.errno)
    ensures r.Failure? <==> out.rv == -1 && !WouldBlock(out.errno)
    ensures r.Failure? ==> r.error == IOFailure(out.errno)
    ensures out.rv > 0 ==> r == Success(out.rv)
  {
    if out.rv == 0 then Success(IOS_EOF)
    else if out.rv == -1 then
      if WouldBlock(out.errno) then Success(0) else Failure(IOFailure(out.errno))
    else Success(out.rv)
  }

  /**
   * The answer of read(ByteBuffer[], offset, length) from buffer `i` on,
   * with `total` counted so far: stop with -1 at the first buffer that
   * hits end of stream, propagate the first exception, and otherwise
   * sum the counts. A buffer index outside the array throws.
   */
  function ScatterFrom(outs: seq<SysRet>, dstsLength: int, offset: int, length: int, i: nat, total: int): Result<int, ChannelError>
    requires length <= |outs|
    decreases length - i
  {
    if i >= length then Success(total)
    else if offset + i < 0 || offset + i >= dstsLength then Failure(IndexOutOfBounds)
    else match ReadResult(outs[i])
      case Failure(e) => Failure(e)
      case Success(v) => if v == IOS_EOF then Success(IOS_EOF) else ScatterFrom(outs, dstsLength, offset, length, i + 1, total + v)
  }

  /** read(ByteBuffer[], offset, length): one read per buffer, `outs[i]` answering the i-th. */
  method ReadScatter(dstsLength: int, offset: int, length: int, outs: seq<SysRet>) returns (r: Result<int, ChannelError>)
    requires length <= |outs|
    ensures r == ScatterFrom(outs, dstsLength, offset, length, 0, 0)
  {
    var total := 0;
    var i := 0;
    while i < length
      invariant 0 <= i && (length >= 0 ==> i <= length)
      invariant ScatterFrom(outs, dstsLength, offset, length, 0, 0) == ScatterFrom(outs, dstsLength, offset, length, i, total)
      decreases length - i
    {
      if offset + i < 0 || offset + i >= dstsLength {
        return Failure(IndexOutOfBounds);
      }
      var read := ReadResult(outs[i]);
      if read.Failure? {
        return Failure(read.error);
      }
      if read.value == IOS_EOF {
        return Success(IOS_EOF);
      }
      total := total + read.value;
      i := i + 1;
    }
    r := Success(total);
  }

  /** Buffers `i` up to `j` are in the array and read some bytes, or nothing, but not end of stream. */
  predicate ReadsCount(outs: seq<SysRet>, dstsLength: int, offset: int, i: nat, j: nat)
    requires i <= j <= |outs|
  {
    forall m :: i <= m < j ==>
      && 0 <= offset + m < dstsLength
      && ReadResult(outs[m]).Success? && ReadResult(outs[m]).value != IOS_EOF
  }

  /** The counts of buffers `i` up to `j`. */
  function SumReads(outs: seq<SysRet>, dstsLength: int, offset: int, i: nat, j: nat): int
    requires i <= j <= |outs| && ReadsCount(outs, dstsLength, offset, i, j)
    decreases j - i
  {
    if i == j then 0 else ReadResult(outs[i]).value + SumReads(outs, dstsLength, offset, i + 1, j)
  }

  /** When every buffer reads without EOF or error, the scattering read returns the sum of the counts. */
  lemma {:induction false} ScatterSums(outs: seq<SysRet>, dstsLength: int, offset: int, length: nat, i: nat, total: int)
    requires i <= length <= |outs| && ReadsCount(outs, dstsLength, offset, i, length)
    ensures ScatterFrom(outs, dstsLength, offset, length, i, total) == Success(total + SumReads(outs, dstsLength, offset, i, length))
    decreases length - i
  {
    if i < length {
      ScatterSums(outs, dstsLength, offset, length, i + 1, total + ReadResult(outs[i]).value);
    }
  }

  /** The first buffer that hits end of stream makes the scattering read return -1, whatever was counted. */
  lemma {:induction false} ScatterStopsAtEof(outs: seq<SysRet>, dstsLength: int, offset: int, length: nat, i: nat, j: nat, total: int)
    requires i <= j < length <= |outs| && ReadsCount(outs, dstsLength, offset, i, j)
    requires 0 <= offset + j < dstsLength && outs[j].rv == 0
    ensures ScatterFrom(outs, dstsLength, offset, length, i, total) == Success(IOS_EOF)
    decreases j - i
  {
    if i < j {
      ScatterStopsAtEof(outs, dstsLength, offset, length, i + 1, j, total + ReadResult(outs[i]).value);
    }
  }

  /** A ByteBuffer's cursor: the next index to use and the end of the usable part. */
  datatype ByteBuffer = ByteBuffer(position: int, limit: int)

  predicate WellFormed(b: ByteBuffer) {
    0 <= b.position <= b.limit
  }

  function Remaining(b: ByteBuffer): int {
    b.limit - b.position
  }

  /** What a write reports, with the source buffer as it is left. */
  datatype WriteOutcome = WriteOutcome(result: Result<int, ChannelError>, src: ByteBuffer)

  /**
   * write(ByteBuffer): all `r` remaining bytes are copied out, which
   * moves `src` to its limit; then the position is moved back by what
   * the native write `out` did not take: r - n for a short write, r
   * when the write would block. Any other failure throws with `src`
   * left at its limit. The native result is returned as it is.
   */
  function WriteBuffer(src: ByteBuffer, out: SysRet): (w: WriteOutcome)
    ensures w.src.limit == src.limit
    ensures out.rv >= 0 ==> w.result == Success(out.rv)
    ensures 0 <= out.rv <= Remaining(src) ==> Remaining(w.src) == Remaining(src) - out.rv
    ensures out.rv >= 0 && out.rv > Remaining(src) ==> Remaining(w.src) == 0
    ensures out.rv < 0 && WouldBlock(out.errno) ==> w.result == Success(out.rv) && w.src == src
    ensures out.rv < 0 && !WouldBlock(out.errno) ==> w.result == Failure(IOFailure(out.errno)) && Remaining(w.src) == 0
  {
    // after the copy the position is at the limit; moving it back by
    // r - n leaves it n past where it started
    if out.rv >= 0 then
      if out.rv < Remaining(src) then WriteOutcome(Success(out.rv), ByteBuffer(src.position + out.rv, src.limit))
      else WriteOutcome(Success(out.rv), ByteBuffer(src.limit, src.limit))
    else if WouldBlock(out.errno) then WriteOutcome(Success(out.rv), src)
    else WriteOutcome(Failure(IOFailure(out.errno)), ByteBuffer(src.limit, src.limit))
  }

  /** A write leaves a well-formed buffer well-formed and never moves it back past where it started. */
  lemma WriteKeepsBuffer(src: ByteBuffer, out: SysRet)
    requires WellFormed(src)
    ensures WellFormed(WriteBuffer(src, out).src)
    ensures src.position <= WriteBuffer(src, out).src.position
  {
  }

  /** What a gathering write reports, with the buffer array as it is left. */
  datatype GatherOutcome = GatherOutcome(result: Result<int, ChannelError>, bufs: seq<ByteBuffer>)

  /**
   * Writing buffers `index` up to (not including) `end`, the k-th write
   * answered by `outs[k]`, with `total` summed so far. An index outside
   * the array throws; so does a write, leaving the buffers written
   * before it (and itself) as they are.
   */
  function GatherFrom(bufs: seq<ByteBuffer>, outs: seq<SysRet>, index: int, end: int, k: nat, total: int): GatherOutcome
    requires index < end ==> k + (end - index) <= |outs|
    decreases end - index
  {
    if index >= end then GatherOutcome(Success(total), bufs)
    else if index < 0 || index >= |bufs| then GatherOutcome(Failure(IndexOutOfBounds), bufs)
    else
      var w := WriteBuffer(bufs[index], outs[k]);
      var next := bufs[index := w.src];
      match w.result
        case Failure(e) => GatherOutcome(Failure(e), next)
        case Success(n) => GatherFrom(next, outs, index + 1, end, k + 1, total + n)
  }

  /** The gathering loop over `srcs[index..end)`, writing each buffer back in place. */
  method GatherRange(srcs: array<ByteBuffer>, index0: int, end: int, outs: seq<SysRet>) returns (r: Result<int, ChannelError>)
    requires index0 < end ==> end - index0 <= |outs|
    modifies srcs
    ensures var g := GatherFrom(old(srcs[..]), outs, index0, end, 0, 0); r == g.result && srcs[..] == g.bufs
  {
    var result := 0;
    var index := index0;
    while index < end
      invariant index0 <= index && (index0 < end ==> index <= end)
      invariant GatherFrom(old(srcs[..]), outs, index0, end, 0, 0) == GatherFrom(srcs[..], outs, index, end, index - index0, result)
      decreases end - index
    {
      if index < 0 || index >= srcs.Length {
        return Failure(IndexOutOfBounds);
      }
      var w := WriteBuffer(srcs[index], outs[index - index0]);
      srcs[index] := w.src;
      if w.result.Failure? {
        return Failure(w.result.error);
      }
      result := result + w.result.value;
      index := index + 1;
    }
    r := Success(result);
  }

  /** write(ByteBuffer[], offset, length) as written: the loop runs from `offset` while below `length`. */
  method WriteGatherAsWritten(srcs: array<ByteBuffer>, offset: int, length: int, outs: seq<SysRet>) returns (r: Result<int, ChannelError>)
    requires offset < length ==> length - offset <= |outs|
    modifies srcs
    ensures var g := GatherFrom(old(srcs[..]), outs, offset, length, 0, 0); r == g.result && srcs[..] == g.bufs
  {
    r := GatherRange(srcs, offset, length, outs);
  }

  /** write(ByteBuffer[], offset, length) with the loop bound corrected to `offset + length`. */
  method WriteGather(srcs: array<ByteBuffer>, offset: int, length: int, outs: seq<SysRet>) returns (r: Result<int, ChannelError>)
    requires 0 < length ==> length <= |outs|
    modifies srcs
    ensures var g := GatherFrom(old(srcs[..]), outs, offset, offset + length, 0, 0); r == g.result && srcs[..] == g.bufs
  {
    r := GatherRange(srcs, offset, offset + length, outs);
  }

  /** A gathering write touches no buffer outside the range it walks, and keeps the array's size. */
  lemma {:induction false} GatherStaysInRange(bufs: seq<ByteBuffer>, outs: seq<SysRet>, index: int, end: int, k: nat, total: int)
    requires index < end ==> k + (end - index) <= |outs|
    ensures |GatherFrom(bufs, outs, index, end, k, total).bufs| == |bufs|
    ensures forall j :: 0 <= j < |bufs| && (j < index || j >= end) ==> GatherFrom(bufs, outs, index, end, k, total).bufs[j] == bufs[j]
    decreases end - index
  {
    if index < end && 0 <= index < |bufs| {
      var w := WriteBuffer(bufs[index], outs[k]);
      if w.result.Success? {
        GatherStaysInRange(bufs[index := w.src], outs, index + 1, end, k + 1, total + w.result.value);
      }
    }
  }

  /** Every write `k` up to `k + count` succeeds. */
  predicate WritesSucceed(outs: seq<SysRet>, k: nat, count: nat)
    requires k + count <= |outs|
  {
    forall m :: k <= m < k + count ==> outs[m].rv >= 0
  }

  /** The bytes the writes `k` up to `k + count` report. */
  function SumWritten(outs: seq<SysRet>, k: nat, count: nat): int
    requires k + count <= |outs|
    decreases count
  {
    if count == 0 then 0 else outs[k].rv + SumWritten(outs, k + 1, count - 1)
  }

  /**
   * When every buffer of the range is in the array and every write
   * succeeds, the gathering write returns the sum of the bytes written.
   */
  lemma {:induction false} GatherSums(bufs: seq<ByteBuffer>, outs: seq<SysRet>, index: int, end: int, k: nat, total: int)
    requires index <= end && k + (end - index) <= |outs|
    requires 0 <= index && end <= |bufs| && WritesSucceed(outs, k, end - index)
    ensures GatherFrom(bufs, outs, index, end, k, total) == GatherOutcome(Success(total + SumWritten(outs, k, end - index)), GatherFrom(bufs, outs, index, end, k, total).bufs)
    decreases end - index
  {
    if index < end {
      var w := WriteBuffer(bufs[index], outs[k]);
      GatherSums(bufs[index := w.src], outs, index + 1, end, k + 1, total + outs[k].rv);
    }
  }

  /**
   * The loop bound as written skips buffers: with offset 1 and length 1
   * the second buffer is never written and 0 is returned, where the
   * intended bound writes it and reports its 5 bytes.
   */
  lemma GatherAsWrittenSkips(bufs: seq<ByteBuffer>, outs: seq<SysRet>)
    requires bufs == [ByteBuffer(0, 0), ByteBuffer(0, 5)] && outs == [SysRet(5, 0)]
    ensures GatherFrom(bufs, outs, 1, 1, 0, 0) == GatherOutcome(Success(0), bufs)
    ensures GatherFrom(bufs, outs, 1, 1 + 1, 0, 0) == GatherOutcome(Success(5), [ByteBuffer(0, 0), ByteBuffer(5, 5)])
  {
    var w := WriteBuffer(bufs[1], outs[0]);
    assert w.src == ByteBuffer(5, 5) && w.result == Success(5);
    var next := bufs[1 := w.src];
    assert GatherFrom(bufs, outs, 1, 2, 0, 0) == GatherFrom(next, outs, 2, 2, 1, 5);
  }

  /** What close reports for the descriptor `fdVal`: nothing, or Native.close's exception. */
  function CloseOutcome(fdVal: int, kernel: seq<SysRet>): (r: Outcome<ChannelError>)
    requires Native.CloseSettles(kernel)
    ensures r.Fail? <==> kernel[Native.FirstSettled(kernel)].rv < 0
    ensures r.Fail? ==> r.error == CloseFailed(fdVal, kernel[Native.FirstSettled(kernel)].errno)
  {
    match Native.CloseResult(fdVal, kernel)
      case Success(_) => Pass
      case Failure(e) => Fail(e)
  }

  class UnixSocketChannelImpl {
    const fdVal: int
    var open: bool
    var blocking: bool
    var state: int
    var remoteAddress: Option<UnixSocketAddress>
    var localAddress: Option<UnixSocketAddress>
    var isInputOpen: bool
    var isOutputOpen: bool
    /** Native.close calls made on the descriptor. */
    ghost var closeCalls: nat
    ghost var inputShutdowns: nat
    ghost var outputShutdowns: nat

    /**
     * The channel invariant: the state is in range, KILLPENDING and
     * KILLED are only seen on a closed channel, the descriptor is closed
     * exactly when the channel is, and each direction is shut at most
     * once.
     */
    ghost predicate Valid()
      reads this
    {
      && ST_UNINITIALIZED <= state <= ST_KILLED
      && (state >= ST_KILLPENDING ==> !open)
      && closeCalls == (if open then 0 else 1)
      && inputShutdowns <= 1 && (inputShutdowns == 1 ==> !isInputOpen)
      && outputShutdowns <= 1 && (outputShutdowns == 1 ==> !isOutputOpen)
    }

    /** The channel of a freshly created AF_UNIX stream socket `fd`. */
    constructor (fd: int)
      ensures Valid()
      ensures fdVal == fd && open && blocking && state == ST_UNCONNECTED
      ensures remoteAddress.None? && localAddress.None? && isInputOpen && isOutputOpen
      ensures closeCalls == 0 && inputShutdowns == 0 && outputShutdowns == 0
    {
      fdVal := fd;
      open := true;
      blocking := true;
      state := ST_UNCONNECTED;
      remoteAddress := None;
      localAddress := None;
      isInputOpen := true;
      isOutputOpen := true;
      closeCalls := 0;
      inputShutdowns := 0;
      outputShutdowns := 0;
    }

    /** The public constructor: socket(AF_UNIX, SOCK_STREAM, 0), answered by `kernel`; a failure raises. */
    static method Open(kernel: SocketArgs -> SysRet) returns (r: Result<UnixSocketChannelImpl, ChannelError>)
      ensures r.Success? <==> kernel(SocketArgs(AF_UNIX, SOCK_STREAM, 0)).rv >= 0
      ensures r.Failure? ==> r.error == IOFailure(kernel(SocketArgs(AF_UNIX, SOCK_STREAM, 0)).errno)
      ensures r.Success? ==>
        && fresh(r.value) && r.value.Valid()
        && r.value.fdVal == kernel(SocketArgs(AF_UNIX, SOCK_STREAM, 0)).rv
        && r.value.open && r.value.state == ST_UNCONNECTED && r.value.localAddress.None?
    {
      var fd := SocketU(true, kernel);
      match fd {
        case Raised(e) => r := Failure(IOFailure(e));
        case Code(v) =>
          var c := new UnixSocketChannelImpl(v);
          r := Success(c);
      }
    }

    predicate IsConnected()
      reads this
    {
      state == ST_CONNECTED
    }

    predicate IsConnectionPending()
      reads this
    {
      state == ST_PENDING
    }

    /** getRemoteAddress: the recorded remote address, without asking the socket. */
    function GetRemoteAddress(): Option<UnixSocketAddress>
      reads this
    {
      remoteAddress
    }

    /** getLocalAddress: the recorded local address, without asking the socket. */
    function GetLocalAddress(): Option<UnixSocketAddress>
      reads this
    {
      localAddress
    }

    /** isBound: a local address is known. */
    predicate IsBound()
      reads this
    {
      localAddress.Some?
    }

    /**
     * setOption: an unsupported option is refused first, then a closed
     * channel; otherwise the socket option call, made with the level and
     * name the option resolves to (`kernel` answering for them), decides.
     */
    function SetOption(name: SocketOption, value: OptionValue, kernel: OptionKey -> Outcome<int>): (r: Outcome<ChannelError>)
      reads this
      ensures r == Fail(UnsupportedOption) <==> name !in SUPPORTED_OPTIONS
      ensures r == Fail(ClosedChannel) <==> name in SUPPORTED_OPTIONS && !open
      ensures r == Pass <==> name in SUPPORTED_OPTIONS && open && kernel(Lookup(name).value).Pass?
      ensures name in SUPPORTED_OPTIONS && open && kernel(Lookup(name).value).Fail? ==>
        r == Fail(IOFailure(kernel(Lookup(name).value).error))
    {
      if name !in SUPPORTED_OPTIONS then Fail(UnsupportedOption)
      else if !open then Fail(ClosedChannel)
      else
        var key := Lookup(name).value;
        if kernel(key).Fail? then Fail(IOFailure(kernel(key).error)) else Pass
    }

    /** getOption: the same guards; `kernel` is what the socket reports for a level and name, or its errno. */
    function GetOption(name: SocketOption, kernel: OptionKey -> Result<OptionValue, int>): (r: Result<OptionValue, ChannelError>)
      reads this
      ensures r == Failure(UnsupportedOption) <==> name !in SUPPORTED_OPTIONS
      ensures r == Failure(ClosedChannel) <==> name in SUPPORTED_OPTIONS && !open
      ensures name in SUPPORTED_OPTIONS && open && kernel(Lookup(name).value).Success? ==>
        r == Success(kernel(Lookup(name).value).value)
      ensures name in SUPPORTED_OPTIONS && open && kernel(Lookup(name).value).Failure? ==>
        r == Failure(IOFailure(kernel(Lookup(name).value).error))
    {
      if name !in SUPPORTED_OPTIONS then Failure(UnsupportedOption)
      else if !open then Failure(ClosedChannel)
      else
        var key := Lookup(name).value;
        if kernel(key).Failure? then Failure(IOFailure(kernel(key).error)) else Success(kernel(key).value)
    }

    /**
     * close (AbstractInterruptibleChannel, then implCloseSelectableChannel):
     * the first call marks the channel closed and closes the descriptor
     * with Native.close (answered by `kernel`), whose failure escapes as
     * its RuntimeException. The state and the half-close flags are not
     * touched.
     */
    twostate predicate CloseBehaviour(kernel: seq<SysRet>, new r: Outcome<ChannelError>)
      requires Native.CloseSettles(kernel)
      reads this
    {
      && !open
      && (!old(open) ==> r == Pass && unchanged(this))
      && (old(open) ==> r == CloseOutcome(fdVal, kernel) && closeCalls == old(closeCalls) + 1)
      && state == old(state) && blocking == old(blocking)
      && remoteAddress == old(remoteAddress) && localAddress == old(localAddress)
      && isInputOpen == old(isInputOpen) && isOutputOpen == old(isOutputOpen)
      && inputShutdowns == old(inputShutdowns) && outputShutdowns == old(outputShutdowns)
    }

    method Close(kernel: seq<SysRet>) returns (r: Outcome<ChannelError>)
      requires Valid() && Native.CloseSettles(kernel)
      modifies this
      ensures Valid() && CloseBehaviour(kernel, r)
    {
      if !open {
        return Pass;
      }
      open := false;
      closeCalls := closeCalls + 1;
      var rc, _ := Native.Close(fdVal, kernel);
      if rc.Failure? {
        return Fail(rc.error);
      }
      r := Pass;
    }

    /** kill: KILLED stays KILLED, and every other state becomes KILLED; the channel is closed when it runs. */
    method Kill()
      requires Valid() && !open
      modifies this
      ensures Valid() && state == ST_KILLED
      ensures open == old(open) && blocking == old(blocking) && closeCalls == old(closeCalls)
      ensures remoteAddress == old(remoteAddress) && localAddress == old(localAddress)
      ensures isInputOpen == old(isInputOpen) && isOutputOpen == old(isOutputOpen)
      ensures inputShutdowns == old(inputShutdowns) && outputShutdowns == old(outputShutdowns)
    {
      if state == ST_KILLED {
        return;
      }
      if state == ST_UNINITIALIZED {
        state := ST_KILLED;
        return;
      }
      state := ST_KILLED;
    }

    /** readerCleanup: a pending kill is carried out; the answer says whether one was. */
    method ReaderCleanup() returns (killed: bool)
      requires Valid()
      modifies this
      ensures Valid()
      ensures killed <==> old(state) == ST_KILLPENDING
      ensures state == (if killed then ST_KILLED else old(state))
      ensures open == old(open) && blocking == old(blocking) && closeCalls == old(closeCalls)
      ensures remoteAddress == old(remoteAddress) && localAddress == old(localAddress)
      ensures isInputOpen == old(isInputOpen) && isOutputOpen == old(isOutputOpen)
      ensures inputShutdowns == old(inputShutdowns) && outputShutdowns == old(outputShutdowns)
    {
      killed := state == ST_KILLPENDING;
      if killed {
        Kill();
      }
    }

    /**
     * shutdownInput: an open, connected channel shuts its input with one
     * shutdown(SHUT_RD) (answered by `kernel`) the first time; later
     * calls do nothing.
     */
    twostate predicate ShutdownInputBehaviour(kernel: Outcome<int>, new r: Outcome<ChannelError>)
      reads this
    {
      && (!old(open) ==> r == Fail(ClosedChannel) && unchanged(this))
      && (old(open) && old(state) != ST_CONNECTED ==> r == Fail(NotYetConnected) && unchanged(this))
      && (old(open) && old(state) == ST_CONNECTED ==>
        && (!old(isInputOpen) ==> r == Pass && unchanged(this))
        && (old(isInputOpen) && kernel.Fail? ==> r == Fail(IOFailure(kernel.error)) && unchanged(this))
        && (old(isInputOpen) && kernel.Pass? ==> r == Pass && !isInputOpen && inputShutdowns == old(inputShutdowns) + 1))
      && open == old(open) && state == old(state) && closeCalls == old(closeCalls)
      && isOutputOpen == old(isOutputOpen) && outputShutdowns == old(outputShutdowns)
      && blocking == old(blocking) && remoteAddress == old(remoteAddress) && localAddress == old(localAddress)
    }

    method ShutdownInput(kernel: Outcome<int>) returns (r: Outcome<ChannelError>)
      requires Valid()
      modifies this
      ensures Valid() && ShutdownInputBehaviour(kernel, r)
    {
      if !open {
        return Fail(ClosedChannel);
      }
      if !IsConnected() {
        return Fail(NotYetConnected);
      }
      if isInputOpen {
        if kernel.Fail? {
          return Fail(IOFailure(kernel.error));
        }
        inputShutdowns := inputShutdowns + 1;
        isInputOpen := false;
      }
      r := Pass;
    }

    /** shutdownOutput: as shutdownInput, for the output direction (SHUT_WR). */
    twostate predicate ShutdownOutputBehaviour(kernel: Outcome<int>, new r: Outcome<ChannelError>)
      reads this
    {
      && (!old(open) ==> r == Fail(ClosedChannel) && unchanged(this))
      && (old(open) && old(state) != ST_CONNECTED ==> r == Fail(NotYetConnected) && unchanged(this))
      && (old(open) && old(state) == ST_CONNECTED ==>
        && (!old(isOutputOpen) ==> r == Pass && unchanged(this))
        && (old(isOutputOpen) && kernel.Fail? ==> r == Fail(IOFailure(kernel.error)) && unchanged(this))
        && (old(isOutputOpen) && kernel.Pass? ==> r == Pass && !isOutputOpen && outputShutdowns == old(outputShutdowns) + 1))
      && open == old(open) && state == old(state) && closeCalls == old(closeCalls)
      && isInputOpen == old(isInputOpen) && inputShutdowns == old(inputShutdowns)
      && blocking == old(blocking) && remoteAddress == old(remoteAddress) && localAddress == old(localAddress)
    }

    method ShutdownOutput(kernel: Outcome<int>) returns (r: Outcome<ChannelError>)
      requires Valid()
      modifies this
      ensures Valid() && ShutdownOutputBehaviour(kernel, r)
    {
      if !open {
        return Fail(ClosedChannel);
      }
      if !IsConnected() {
        return Fail(NotYetConnected);
      }
      if isOutputOpen {
        if kernel.Fail? {
          return Fail(IOFailure(kernel.error));
        }
        outputShutdowns := outputShutdowns + 1;
        isOutputOpen := false;
      }
      r := Pass;
    }

    /**
     * configureBlocking: refused once closed; otherwise the mode is
     * recorded (the descriptor's O_NONBLOCK flag is set by
     * Native.SetBlocking).
     */
    method ConfigureBlocking(block: bool) returns (r: Outcome<ChannelError>)
      requires Valid()
      modifies this
      ensures Valid()
      ensures !old(open) ==> r == Fail(ClosedChannel) && unchanged(this)
      ensures old(open) ==> r == Pass && blocking == block
      ensures open == old(open) && state == old(state) && closeCalls == old(closeCalls)
      ensures remoteAddress == old(remoteAddress) && localAddress == old(localAddress)
      ensures isInputOpen == old(isInputOpen) && isOutputOpen == old(isOutputOpen)
    {
      if !open {
        return Fail(ClosedChannel);
      }
      blocking := block;
      r := Pass;
    }

    /**
     * bind: refused on a closed channel, while a connection is pending,
     * or once bound; otherwise the bind syscall runs on the address
     * given, or on the empty path when none is (`kernel` answering for
     * the address), and the local address becomes what getsockname then
     * reports (`sockname`, which may be null).
     */
    twostate predicate BindBehaviour(local: Option<UnixSocketAddress>, kernel: UnixSocketAddress -> Outcome<int>,
                                     sockname: Option<UnixSocketAddress>, new r: Outcome<ChannelError>)
      reads this
    {
      && (!old(open) ==> r == Fail(ClosedChannel) && unchanged(this))
      && (old(open) && old(state) == ST_PENDING ==> r == Fail(ConnectionPending) && unchanged(this))
      && (old(open) && old(state) != ST_PENDING && old(IsBound()) ==> r == Fail(AlreadyBound) && unchanged(this))
      && (old(open) && old(state) != ST_PENDING && !old(IsBound()) ==>
        && (kernel(BindAddress(local)).Fail? ==> r == Fail(IOFailure(kernel(BindAddress(local)).error)) && unchanged(this))
        && (kernel(BindAddress(local)).Pass? ==> r == Pass && localAddress == sockname))
      && open == old(open) && state == old(state) && closeCalls == old(closeCalls)
      && remoteAddress == old(remoteAddress) && blocking == old(blocking)
      && isInputOpen == old(isInputOpen) && isOutputOpen == old(isOutputOpen)
    }

    method Bind(local: Option<UnixSocketAddress>, kernel: UnixSocketAddress -> Outcome<int>, sockname: Option<UnixSocketAddress>)
      returns (r: Outcome<ChannelError>)
      requires Valid()
      modifies this
      ensures Valid() && BindBehaviour(local, kernel, sockname, r)
    {
      if !open {
        return Fail(ClosedChannel);
      }
      if state == ST_PENDING {
        return Fail(ConnectionPending);
      }
      if localAddress.Some? {
        return Fail(AlreadyBound);
      }
      var usa := BindAddress(local);
      var bound := kernel(usa);
      if bound.Fail? {
        return Fail(IOFailure(bound.error));
      }
      localAddress := sockname;
      r := Pass;
    }

    /**
     * getRemoteSocketAddress: nothing unless connected; otherwise the
     * remote address, asking getpeername (`peername`, which may be null)
     * while none is cached, and caching its answer.
     */
    method GetRemoteSocketAddress(peername: Option<UnixSocketAddress>) returns (r: Option<UnixSocketAddress>)
      requires Valid()
      modifies this
      ensures Valid()
      ensures old(state) != ST_CONNECTED ==> r.None? && unchanged(this)
      ensures old(state) == ST_CONNECTED ==>
        && r == remoteAddress
        && r == (if old(remoteAddress).Some? then old(remoteAddress) else peername)
      ensures r.Some? ==> old(state) == ST_CONNECTED
      ensures open == old(open) && state == old(state) && localAddress == old(localAddress)
      ensures blocking == old(blocking) && isInputOpen == old(isInputOpen) && isOutputOpen == old(isOutputOpen)
    {
      if !IsConnected() {
        return None;
      }
      if remoteAddress.None? {
        remoteAddress := peername;
      }
      r := remoteAddress;
    }

    /**
     * getLocalSocketAddress: the local address, asking getsockname
     * (`sockname`, which may be null) while none is cached, and caching
     * its answer.
     */
    method GetLocalSocketAddress(sockname: Option<UnixSocketAddress>) returns (r: Option<UnixSocketAddress>)
      requires Valid()
      modifies this
      ensures Valid()
      ensures localAddress == r
      ensures r == (if old(localAddress).Some? then old(localAddress) else sockname)
      ensures old(IsBound()) ==> IsBound()
      ensures open == old(open) && state == old(state) && remoteAddress == old(remoteAddress)
      ensures blocking == old(blocking) && isInputOpen == old(isInputOpen) && isOutputOpen == old(isOutputOpen)
    {
      if localAddress.None? {
        localAddress := sockname;
      }
      r := localAddress;
    }

    /**
     * The retry loop of connect and finishConnect: native connect calls
     * from `steps` until one stops the loop. A close landing during a
     * call closes the descriptor with `closeKernel`; a shutdown landing
     * on a channel that is not connected is refused and changes nothing.
     */
    method ConnectLoop(steps: seq<Step>, retryZero: bool, closeKernel: seq<SysRet>) returns (ret: IoReturn, ghost calls: nat)
      requires Valid() && open && state != ST_CONNECTED && Settles(steps, retryZero) && Native.CloseSettles(closeKernel)
      modifies this
      ensures Valid()
      ensures StoppedAt(steps, calls, retryZero) && ret == steps[calls - 1].ret
      ensures open == !ClosedWithin(steps, calls)
      ensures state == old(state) && blocking == old(blocking)
      ensures remoteAddress == old(remoteAddress) && localAddress == old(localAddress)
      ensures isInputOpen == old(isInputOpen) && isOutputOpen == old(isOutputOpen)
    {
      ghost var k :| 0 <= k < |steps| && Stops(steps, k, retryZero);
      ret := Code(0);
      var i := 0;
      while true
        invariant Valid() && i <= k
        invariant forall j :: 0 <= j < i ==> !Stops(steps, j, retryZero)
        invariant open == !ClosedWithin(steps, i)
        invariant state == old(state) && blocking == old(blocking)
        invariant remoteAddress == old(remoteAddress) && localAddress == old(localAddress)
        invariant isInputOpen == old(isInputOpen) && isOutputOpen == old(isOutputOpen)
        decreases k - i
      {
        match steps[i].during {
          case Quiet =>
          case AsyncClose => var _ := Close(closeKernel);
          case AsyncShutdownInput => var _ := ShutdownInput(Pass);
          case AsyncShutdownOutput => var _ := ShutdownOutput(Pass);
        }
        ret := steps[i].ret;
        i := i + 1;
        var retry := (retryZero && ret == Code(0)) || (ret == Code(IOS_INTERRUPTED) && open);
        if !retry {
          break;
        }
      }
      calls := i;
    }

    /**
     * The exception connect or finishConnect ends with, if any: end()
     * throws AsynchronousCloseException when nothing completed on a
     * closed channel, else the native call's IOException stands; the
     * catch block then closes the channel, and a failing close replaces
     * the exception with its own.
     */
    function ConnectFailure(ret: IoReturn, closed: bool, closeKernel: seq<SysRet>): Option<ChannelError>
      requires Native.CloseSettles(closeKernel)
      reads this
    {
      if closed && !Completed(ret) then Some(AsynchronousClose)
      else if ret.Raised? then
        if !closed && Native.CloseResult(fdVal, closeKernel).Failure? then Some(Native.CloseResult(fdVal, closeKernel).error)
        else Some(IOFailure(ret.errno))
      else None
    }

    /**
     * connect: guarded by ensureOpenAndUnconnected; the connect call is
     * retried while interrupted on an open channel; an exception closes
     * the channel and is rethrown. n > 0 connects (recording `usa` as the
     * remote address only if the channel is still open); a non-blocking
     * channel without success becomes pending on `usa`.
     */
    twostate predicate ConnectBehaviour(usa: UnixSocketAddress, steps: seq<Step>, closeKernel: seq<SysRet>, new r: Result<bool, ChannelError>, calls: nat)
      requires Native.CloseSettles(closeKernel)
      reads this
    {
      && (!old(open) ==> r == Failure(ClosedChannel) && calls == 0 && unchanged(this))
      && (old(open) && old(state) == ST_CONNECTED ==> r == Failure(AlreadyConnected) && calls == 0 && unchanged(this))
      && (old(open) && old(state) == ST_PENDING ==> r == Failure(ConnectionPending) && calls == 0 && unchanged(this))
      && (old(open) && old(state) != ST_CONNECTED && old(state) != ST_PENDING ==>
          && StoppedAt(steps, calls, false)
          && var ret := steps[calls - 1].ret;
          && var closed := ClosedWithin(steps, calls);
          && var failure := ConnectFailure(ret, closed, closeKernel);
          && (failure.Some? ==> r == Failure(failure.value) && !open && state == old(state) && remoteAddress == old(remoteAddress))
          && (failure.None? ==>
                && r == Success(ret.n > 0) && open == !closed
                && state == (if ret.n > 0 then ST_CONNECTED else if !blocking then ST_PENDING else old(state))
                && remoteAddress == (if (ret.n > 0 && !closed) || (ret.n <= 0 && !blocking) then Some(usa) else old(remoteAddress)))
          && localAddress == old(localAddress) && blocking == old(blocking)
          && isInputOpen == old(isInputOpen) && isOutputOpen == old(isOutputOpen))
    }

    method Connect(usa: UnixSocketAddress, steps: seq<Step>, closeKernel: seq<SysRet>)
      returns (r: Result<bool, ChannelError>, ghost calls: nat)
      requires Valid() && Settles(steps, false) && Native.CloseSettles(closeKernel)
      modifies this
      ensures Valid() && old(state) <= state
      ensures ConnectBehaviour(usa, steps, closeKernel, r, calls)
    {
      if !open {
        return Failure(ClosedChannel), 0;
      }
      if state == ST_CONNECTED {
        return Failure(AlreadyConnected), 0;
      }
      if state == ST_PENDING {
        return Failure(ConnectionPending), 0;
      }
      var ret;
      ret, calls := ConnectLoop(steps, false, closeKernel);
      var _ := ReaderCleanup();
      var failure: Option<ChannelError> := None;
      if !Completed(ret) && !open {
        failure := Some(AsynchronousClose);
      } else if ret.Raised? {
        failure := Some(IOFailure(ret.errno));
      }
      if failure.Some? {
        var closing := Close(closeKernel);
        if closing.Fail? {
          return Failure(closing.error), calls;
        }
        return Failure(failure.value), calls;
      }
      if ret.n > 0 {
        state := ST_CONNECTED;
        if open {
          remoteAddress := Some(usa);
        }
        return Success(true), calls;
      }
      if !blocking {
        remoteAddress := Some(usa);
        state := ST_PENDING;
      }
      r := Success(false);
    }

    /**
     * finishConnect: true at once when connected; refused unless
     * pending. In blocking mode a result of 0 is retried too. A pending
     * kill found in the finally block is completed and forces n to 0.
     * Exceptions close the channel; n > 0 connects.
     */
    method FinishConnect(steps: seq<Step>, closeKernel: seq<SysRet>) returns (r: Result<bool, ChannelError>, ghost calls: nat)
      requires Valid() && Settles(steps, blocking) && Native.CloseSettles(closeKernel)
      modifies this
      ensures Valid() && old(state) <= state
      ensures !old(open) ==> r == Failure(ClosedChannel) && calls == 0 && unchanged(this)
      ensures old(open) && old(state) == ST_CONNECTED ==> r == Success(true) && calls == 0 && unchanged(this)
      ensures old(open) && old(state) != ST_CONNECTED && old(state) != ST_PENDING ==>
        r == Failure(NoConnectionPending) && calls == 0 && unchanged(this)
      ensures old(open) && old(state) == ST_PENDING ==>
        && StoppedAt(steps, calls, old(blocking))
        && var ret := steps[calls - 1].ret;
        && var closed := ClosedWithin(steps, calls);
        && var failure := ConnectFailure(ret, closed, closeKernel);
        && (failure.Some? ==> r == Failure(failure.value) && !open && state == ST_PENDING)
        && (failure.None? ==>
              r == Success(ret.n > 0) && open == !closed && state == (if ret.n > 0 then ST_CONNECTED else ST_PENDING))
        && remoteAddress == old(remoteAddress) && localAddress == old(localAddress)
        && blocking == old(blocking) && isInputOpen == old(isInputOpen) && isOutputOpen == old(isOutputOpen)
    {
      if !open {
        return Failure(ClosedChannel), 0;
      }
      if state == ST_CONNECTED {
        return Success(true), 0;
      }
      if state != ST_PENDING {
        return Failure(NoConnectionPending), 0;
      }
      var ret;
      ret, calls := ConnectLoop(steps, blocking, closeKernel);
      var n := Transferred(ret);
      var killed := ReaderCleanup();
      if killed {
        n := 0;
      }
      var failure: Option<ChannelError> := None;
      if !(n > 0 || n == IOS_UNAVAILABLE) && !open {
        failure := Some(AsynchronousClose);
      } else if ret.Raised? {
        failure := Some(IOFailure(ret.errno));
      }
      if failure.Some? {
        var closing := Close(closeKernel);
        if closing.Fail? {
          return Failure(closing.error), calls;
        }
        return Failure(failure.value), calls;
      }
      if n > 0 {
        state := ST_CONNECTED;
        return Success(true), calls;
      }
      r := Success(false);
    }
  }
}
