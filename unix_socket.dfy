/**
 * net.jzajic.graalvm.socket.channel.UnixSocket: the java.net.Socket
 * adaptor over a jzajic UnixSocketChannelImpl. It keeps its own closed
 * and half-shutdown flags, each set at most once, and forwards the rest
 * to the channel. IOExceptions from the channel's options and bind are
 * rethrown wrapped in a SocketException.
 */
module UnixSocketAdaptor {
  import opened Wrappers
  import opened Posix
  import opened Nio
  import opened RetryScript
  import opened SocketOptions
  import Native
  import opened JzajicChannel

  /** The address a caller hands to connect: a Unix-domain one or another kind. */
  datatype SocketAddress = UnixAddress(usa: UnixSocketAddress) | OtherAddress

  /** An exception as a `catch (IOException e)` that wraps it in a SocketException leaves it. */
  function WrapIO(e: ChannelError): (w: ChannelError)
    ensures IsIOException(e) ==> w == SocketFailure(e)
    ensures !IsIOException(e) ==> w == e
  {
    if IsIOException(e) then SocketFailure(e) else e
  }

  class UnixSocket {
    const chan: UnixSocketChannelImpl
    var closed: bool
    var indown: bool
    var outdown: bool

    /** The adaptor invariant: the channel's own, and a closed adaptor has closed its channel. */
    ghost predicate Valid()
      reads this, chan
    {
      chan.Valid() && (closed ==> !chan.open)
    }

    /** The adaptor the channel's socket() creates. */
    constructor (chan: UnixSocketChannelImpl)
      requires chan.Valid()
      ensures Valid() && this.chan == chan
      ensures !closed && !indown && !outdown
    {
      this.chan := chan;
      closed := false;
      indown := false;
      outdown := false;
    }

    predicate IsClosed()
      reads this
    {
      closed
    }

    predicate IsBound()
      reads this, chan
    {
      chan.IsBound()
    }

    predicate IsConnected()
      reads this, chan
    {
      chan.IsConnected()
    }

    /**
     * bind: refused once closed or bound; otherwise the channel binds,
     * and its IOExceptions are rethrown as SocketExceptions.
     */
    method Bind(local: Option<UnixSocketAddress>, kernel: UnixSocketAddress -> Outcome<int>, sockname: Option<UnixSocketAddress>)
      returns (r: Outcome<ChannelError>, ghost inner: Outcome<ChannelError>)
      requires Valid()
      modifies chan
      ensures Valid()
      ensures closed ==> r == Fail(SocketClosed) && unchanged(chan)
      ensures !closed && old(chan.IsBound()) ==> r == Fail(SocketAlreadyBound) && unchanged(chan)
      ensures !closed && !old(chan.IsBound()) ==>
        && chan.BindBehaviour(local, kernel, sockname, inner)
        && r == (if inner.Fail? then Fail(WrapIO(inner.error)) else Pass)
      ensures r == Pass <==>
        !closed && !old(chan.IsBound()) && old(chan.open) && old(chan.state) != ST_PENDING && kernel(BindAddress(local)).Pass?
      ensures r == Pass ==> chan.localAddress == sockname
    {
      inner := Pass;
      if closed {
        return Fail(SocketClosed), inner;
      }
      if chan.localAddress.Some? {
        return Fail(SocketAlreadyBound), inner;
      }
      var bound := chan.Bind(local, kernel, sockname);
      inner := bound;
      if bound.Fail? {
        return Fail(WrapIO(bound.error)), inner;
      }
      r := Pass;
    }

    /**
     * close: the first call marks the adaptor closed and closes the
     * channel; an IOException from the channel is swallowed, its
     * RuntimeException is not. Later calls do nothing.
     */
    method Close(kernel: seq<SysRet>) returns (r: Outcome<ChannelError>)
      requires Valid() && Native.CloseSettles(kernel)
      modifies this, chan
      ensures Valid() && closed && !chan.open
      ensures old(closed) ==> r == Pass && unchanged(chan)
      ensures !old(closed) ==> chan.CloseBehaviour(kernel, r)
      ensures indown == old(indown) && outdown == old(outdown)
    {
      if closed {
        return Pass;
      }
      closed := true;
      r := chan.Close(kernel);
      if r.Fail? && IsIOException(r.error) {
        r := Pass;
      }
    }

    /**
     * connect: a Unix-domain address is handed to the channel's connect
     * (whose boolean is dropped); any other address is refused.
     */
    method Connect(addr: SocketAddress, steps: seq<Step>, closeKernel: seq<SysRet>)
      returns (r: Outcome<ChannelError>, ghost inner: Result<bool, ChannelError>, ghost calls: nat)
      requires Valid() && Settles(steps, false) && Native.CloseSettles(closeKernel)
      modifies chan
      ensures Valid()
      ensures !addr.UnixAddress? ==> r == Fail(IllegalArgument) && unchanged(chan)
      ensures addr.UnixAddress? ==>
        && chan.ConnectBehaviour(addr.usa, steps, closeKernel, inner, calls)
        && r == (if inner.Failure? then Fail(inner.error) else Pass)
    {
      inner := Success(false);
      calls := 0;
      if !addr.UnixAddress? {
        return Fail(IllegalArgument), inner, calls;
      }
      var connected;
      connected, calls := chan.Connect(addr.usa, steps, closeKernel);
      inner := connected;
      r := if connected.Failure? then Fail(connected.error) else Pass;
    }

    /** getInputStream: the channel's stream once connected; "not connected" otherwise. */
    function GetInputStream(): (r: Outcome<ChannelError>)
      reads this, chan
      ensures r == Pass <==> chan.state == ST_CONNECTED
      ensures r.Fail? ==> r.error == NotConnected
    {
      if chan.IsConnected() then Pass else Fail(NotConnected)
    }

    /** getOutputStream: as getInputStream. */
    function GetOutputStream(): (r: Outcome<ChannelError>)
      reads this, chan
      ensures r == Pass <==> chan.state == ST_CONNECTED
      ensures r.Fail? ==> r.error == NotConnected
    {
      if chan.IsConnected() then Pass else Fail(NotConnected)
    }

    /** getLocalSocketAddress: the channel's local address, asking getsockname (`sockname`) while none is known. */
    method GetLocalSocketAddress(sockname: Option<UnixSocketAddress>) returns (r: Option<UnixSocketAddress>)
      requires Valid()
      modifies chan
      ensures Valid()
      ensures r == chan.localAddress
      ensures r == (if old(chan.localAddress).Some? then old(chan.localAddress) else sockname)
      ensures chan.open == old(chan.open) && chan.state == old(chan.state) && chan.remoteAddress == old(chan.remoteAddress)
      ensures chan.blocking == old(chan.blocking) && chan.isInputOpen == old(chan.isInputOpen) && chan.isOutputOpen == old(chan.isOutputOpen)
    {
      r := chan.GetLocalSocketAddress(sockname);
    }

    /** getRemoteSocketAddress: null unless the channel is connected; otherwise its remote address, asking getpeername (`peername`) while none is known. */
    method GetRemoteSocketAddress(peername: Option<UnixSocketAddress>) returns (r: Option<UnixSocketAddress>)
      requires Valid()
      modifies chan
      ensures Valid()
      ensures old(chan.state) != ST_CONNECTED ==> r.None? && unchanged(chan)
      ensures old(chan.state) == ST_CONNECTED ==>
        r == chan.remoteAddress && r == (if old(chan.remoteAddress).Some? then old(chan.remoteAddress) else peername)
      ensures chan.open == old(chan.open) && chan.state == old(chan.state) && chan.localAddress == old(chan.localAddress)
      ensures chan.blocking == old(chan.blocking) && chan.isInputOpen == old(chan.isInputOpen) && chan.isOutputOpen == old(chan.isOutputOpen)
    {
      r := chan.GetRemoteSocketAddress(peername);
    }

    /**
     * shutdownInput: the first call sets the adaptor's flag and then asks
     * the channel; later calls do nothing, even when the first one failed.
     */
    method ShutdownInput(kernel: Outcome<int>) returns (r: Outcome<ChannelError>)
      requires Valid()
      modifies this, chan
      ensures Valid() && indown
      ensures old(indown) ==> r == Pass && unchanged(chan)
      ensures !old(indown) ==> chan.ShutdownInputBehaviour(kernel, r)
      ensures closed == old(closed) && outdown == old(outdown)
    {
      if indown {
        return Pass;
      }
      indown := true;
      r := chan.ShutdownInput(kernel);
    }

    /** shutdownOutput: as shutdownInput, for the output direction. */
    method ShutdownOutput(kernel: Outcome<int>) returns (r: Outcome<ChannelError>)
      requires Valid()
      modifies this, chan
      ensures Valid() && outdown
      ensures old(outdown) ==> r == Pass && unchanged(chan)
      ensures !old(outdown) ==> chan.ShutdownOutputBehaviour(kernel, r)
      ensures closed == old(closed) && indown == old(indown)
    {
      if outdown {
        return Pass;
      }
      outdown := true;
      r := chan.ShutdownOutput(kernel);
    }

    /**
     * getCredentials: nothing unless connected; otherwise the channel's
     * SO_PEERCRED option, which resolves to (SOL_SOCKET, 17) (what the
     * socket reports for a level and name, or its errno, in `kernel`), an
     * IOException being rethrown as a SocketException.
     */
    function GetCredentials(kernel: OptionKey -> Result<Credentials, int>): (r: Result<Option<Credentials>, ChannelError>)
      reads this, chan
      ensures chan.state != ST_CONNECTED ==> r == Success(None)
      ensures chan.state == ST_CONNECTED && chan.open && kernel(OptionKey(SOL_SOCKET, 17)).Success? ==>
        r == Success(Some(kernel(OptionKey(SOL_SOCKET, 17)).value))
      ensures chan.state == ST_CONNECTED && !chan.open ==> r == Failure(SocketFailure(ClosedChannel))
      ensures chan.state == ST_CONNECTED && chan.open && kernel(OptionKey(SOL_SOCKET, 17)).Failure? ==>
        r == Failure(SocketFailure(IOFailure(kernel(OptionKey(SOL_SOCKET, 17)).error)))
    {
      if !chan.IsConnected() then Success(None)
      else
        var reported := (key: OptionKey) =>
          if kernel(key).Success? then Success(CredValue(kernel(key).value)) else Failure(kernel(key).error);
        var answer := chan.GetOption(SO_PEERCRED, reported);
        var peer := kernel(OptionKey(SOL_SOCKET, 17));
        if answer.Failure? then Failure(WrapIO(answer.error)) else Success(Some(peer.value))
    }

    /**
     * The option getters (getKeepAlive, getReceiveBufferSize,
     * getSendBufferSize, getSoTimeout): the channel's option, an
     * IOException being rethrown as a SocketException.
     */
    function GetSocketOption(name: SocketOption, kernel: OptionKey -> Result<OptionValue, int>): (r: Result<OptionValue, ChannelError>)
      reads this, chan
      ensures r.Success? <==> name in SUPPORTED_OPTIONS && chan.open && kernel(Lookup(name).value).Success?
      ensures r.Success? ==> r.value == kernel(Lookup(name).value).value
      ensures r.Failure? ==> r.error == (if name !in SUPPORTED_OPTIONS then UnsupportedOption
                                         else if !chan.open then SocketFailure(ClosedChannel)
                                         else SocketFailure(IOFailure(kernel(Lookup(name).value).error)))
    {
      match chan.GetOption(name, kernel)
        case Failure(e) => Failure(WrapIO(e))
        case Success(v) => Success(v)
    }

    /**
     * The option setters (setKeepAlive, setReceiveBufferSize,
     * setSendBufferSize): the channel's setOption, an IOException being
     * rethrown as a SocketException.
     */
    function SetSocketOption(name: SocketOption, value: OptionValue, kernel: OptionKey -> Outcome<int>): (r: Outcome<ChannelError>)
      reads this, chan
      ensures r.Pass? <==> name in SUPPORTED_OPTIONS && chan.open && kernel(Lookup(name).value).Pass?
      ensures r.Fail? ==> r.error == (if name !in SUPPORTED_OPTIONS then UnsupportedOption
                                      else if !chan.open then SocketFailure(ClosedChannel)
                                      else SocketFailure(IOFailure(kernel(Lookup(name).value).error)))
    {
      match chan.SetOption(name, value, kernel)
        case Fail(e) => Fail(WrapIO(e))
        case Pass => Pass
    }
  }

  /** Whatever the receive timeout asked for, setSoTimeout reports success and leaves the socket alone. */
  function SetSoTimeout(timeout: int): (r: Outcome<ChannelError>)
    ensures r.Pass?
  {
    Pass
  }
}
