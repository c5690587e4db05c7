/**
 * UnixNet: creating an AF_UNIX socket and connecting it to a path, with
 * the raw outcome of socket(2) and connect(2) turned into the status
 * codes the channels understand. `handleSocketError` always raises an
 * IOException for the errno, which is `Raised(errno)` here.
 */
module UnixNet {
  import opened Wrappers
  import opened Posix
  import opened Nio
  import opened Sockaddr

  /** The arguments of one socket(2) call. */
  datatype SocketArgs = SocketArgs(domain: int, sockType: int, protocol: int)

  /** The arguments of one connect(2) call: the fd, the address record's bytes and the length. */
  datatype ConnectCall = ConnectCall(fd: int, sunFamily: int, sunPath: seq<bv8>, addrLen: int)

  /** The socket type socketU asks for. */
  function SocketType(stream: bool): (t: int)
    ensures t == SOCK_STREAM <==> stream
    ensures t == SOCK_DGRAM <==> !stream
  {
    if stream then SOCK_STREAM else SOCK_DGRAM
  }

  /**
   * socketU: one socket(AF_UNIX, type, 0) call, answered by `kernel`.
   * A negative result raises with the errno; otherwise the descriptor
   * is returned in `Code`.
   */
  function SocketU(stream: bool, kernel: SocketArgs -> SysRet): (r: IoReturn)
    ensures var sys := kernel(SocketArgs(AF_UNIX, SocketType(stream), 0));
      && (r.Code? <==> sys.rv >= 0)
      && (r.Code? ==> r.n == sys.rv)
      && (r.Raised? ==> r.errno == sys.errno)
  {
    var sys := kernel(SocketArgs(AF_UNIX, SocketType(stream), 0));
    if sys.rv < 0 then Raised(sys.errno) else Code(sys.rv)
  }

  /**
   * The status code of a connect(2) outcome: 0 is "connected" (1),
   * EINPROGRESS is IOS_UNAVAILABLE, EINTR is IOS_INTERRUPTED, and any
   * other error raises.
   */
  function ClassifyConnect(sys: SysRet): (r: IoReturn)
    ensures r == Code(1) <==> sys.rv == 0
    ensures r == Code(IOS_UNAVAILABLE) <==> sys.rv != 0 && sys.errno == EINPROGRESS
    ensures r == Code(IOS_INTERRUPTED) <==> sys.rv != 0 && sys.errno == EINTR
    ensures r.Raised? <==> sys.rv != 0 && sys.errno != EINPROGRESS && sys.errno != EINTR
    ensures r.Raised? ==> r.errno == sys.errno
  {
    if sys.rv != 0 then
      if sys.errno == EINPROGRESS then Code(IOS_UNAVAILABLE)
      else if sys.errno == EINTR then Code(IOS_INTERRUPTED)
      else Raised(sys.errno)
    else Code(1)
  }

  /** A classified connect outcome is one of the three codes or an exception; never IOS_THROWN or EOF. */
  lemma ClassifyConnectCodes(sys: SysRet)
    ensures var r := ClassifyConnect(sys);
      r.Raised? || r.n == 1 || r.n == IOS_UNAVAILABLE || r.n == IOS_INTERRUPTED
    ensures ClassifyConnect(sys) != Code(IOS_THROWN) && ClassifyConnect(sys) != Code(IOS_EOF)
  {
  }

  /**
   * UnixNet.connect: build a `sockaddr_un` for `ia` on fresh storage
   * with the length cell set to sizeof(sockaddr_un), and, when the
   * conversion succeeds, issue one connect(2) (answered by `kernel`) and
   * classify its outcome. A failed conversion returns IOS_THROWN and
   * issues nothing. `otherRc` is the result of the platform conversion
   * used for non-Unix families.
   */
  method Connect(fd: int, ia: InetAddress, otherRc: int, kernel: ConnectCall -> SysRet)
    returns (r: IoReturn, issued: Option<ConnectCall>)
    ensures issued.None? <==> ia.family != UNIX_FAMILY && otherRc != 0
    ensures issued.None? ==> r == Code(IOS_THROWN)
    ensures issued.Some? ==> r == ClassifyConnect(kernel(issued.value)) && issued.value.fd == fd
    ensures issued.Some? && ia.family == UNIX_FAMILY ==>
      && issued.value.sunFamily == AF_UNIX
      && issued.value.addrLen == SIZEOF_SOCKADDR_UN
      && |issued.value.sunPath| == SUN_PATH_SIZE
      && (NulFree(ia.hostAddress) && |ia.hostAddress| < SUN_PATH_COPY ==>
            DecodeSunPath(issued.value.sunPath) == ia.hostAddress)
  {
    var sa := new SockaddrUn();
    var len := new int[1];
    len[0] := SIZEOF_SOCKADDR_UN;
    ghost var before := sa.sunPath[..];
    var rc := InetAddressToSockaddr(ia, sa, len, otherRc);
    if rc != 0 {
      return Code(IOS_THROWN), None;
    }
    if ia.family == UNIX_FAMILY && NulFree(ia.hostAddress) && |ia.hostAddress| < SUN_PATH_COPY {
      SunPathRoundTrip(before, ia.hostAddress);
    }
    var call := ConnectCall(fd, sa.sunFamily, sa.sunPath[..], len[0]);
    r := ClassifyConnect(kernel(call));
    issued := Some(call);
  }
}
