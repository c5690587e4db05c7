/**
 * The Unix-domain branches of the substitutions into sun.nio.ch.Net:
 * `connect0` and `socket` for the Unix family. Every other family takes
 * the platform's own implementation, whose result is a parameter here.
 * (The `sockaddr_un` conversion these rely on is in module Sockaddr.)
 */
module NioSubstitutions {
  import opened Wrappers
  import opened Posix
  import opened Nio
  import opened Sockaddr
  import opened SocketOptions
  import opened UnixNet

  /**
   * Net.connect0. For a Unix-family address the conversion cannot fail,
   * so exactly one connect(2) is issued, with a `sockaddr_un` of length
   * sizeof(sockaddr_un), and its outcome is classified; the result is
   * never IOS_THROWN. Other families return `other`.
   */
  method Connect0(preferIPv6: bool, fd: int, ia: InetAddress, port: int,
                  kernel: ConnectCall -> SysRet, other: IoReturn)
    returns (r: IoReturn, issued: Option<ConnectCall>)
    ensures ia.family == UNIX_FAMILY ==>
      && issued.Some?
      && issued.value.fd == fd
      && issued.value.sunFamily == AF_UNIX
      && issued.value.addrLen == SIZEOF_SOCKADDR_UN
      && r == ClassifyConnect(kernel(issued.value))
      && r != Code(IOS_THROWN)
    ensures ia.family != UNIX_FAMILY ==> r == other && issued.None?
  {
    if ia.family == UNIX_FAMILY {
      r, issued := UnixNet.Connect(fd, ia, 0, kernel);
      ClassifyConnectCodes(kernel(issued.value));
    } else {
      r, issued := other, None;
    }
  }

  /**
   * Net.socket. For the Unix family: one socket(AF_UNIX, type, 0) call
   * whose type follows `stream`; a negative result raises with its
   * errno, otherwise the result is the new descriptor. Other families
   * return `other`.
   */
  function Socket(family: ProtocolFamily, stream: bool, kernel: SocketArgs -> SysRet, other: IoReturn): (r: IoReturn)
    ensures family == UNIX ==>
      var sys := kernel(SocketArgs(AF_UNIX, if stream then SOCK_STREAM else SOCK_DGRAM, 0));
      && (r.Code? <==> sys.rv >= 0)
      && (r.Code? ==> r.n == sys.rv)
      && (r.Raised? ==> r.errno == sys.errno)
    ensures family != UNIX ==> r == other
  {
    if family == UNIX then SocketU(stream, kernel) else other
  }
}
