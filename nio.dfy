/**
 * The vocabulary shared by both channel implementations: the IOStatus
 * codes of the NIO layer, the lifecycle states, and the exceptions the
 * channels and the socket adaptor throw.
 */
module Nio {
  import opened Wrappers

  // sun.nio.ch.IOStatus
  const IOS_EOF: int := -1
  const IOS_UNAVAILABLE: int := -2
  const IOS_INTERRUPTED: int := -3
  const IOS_THROWN: int := -5

  /** IOStatus.normalize: "no data available now" is reported as zero bytes. */
  function Normalize(n: int): int {
    if n == IOS_UNAVAILABLE then 0 else n
  }

  // Channel lifecycle states; the field comment says they increase monotonically.
  const ST_UNINITIALIZED: int := -1
  const ST_UNCONNECTED: int := 0
  const ST_PENDING: int := 1
  const ST_CONNECTED: int := 2
  const ST_KILLPENDING: int := 3
  const ST_KILLED: int := 4

  /**
   * What one native I/O or connect call hands back to a channel: an
   * IOStatus-style code (a byte count, 1 for "connected", or one of the
   * negative IOS_ codes), or an IOException carrying the OS error.
   */
  datatype IoReturn = Code(n: int) | Raised(errno: int)

  /** A Unix-domain endpoint: a filesystem path (UnixSocketAddress). */
  datatype UnixSocketAddress = UnixSocketAddress(path: string)

  /** The address bind hands to the kernel: the one given, or a new UnixSocketAddress, whose path is empty. */
  function BindAddress(local: Option<UnixSocketAddress>): UnixSocketAddress {
    if local.Some? then local.value else UnixSocketAddress("")
  }

  /** The socket options a channel can be asked about. */
  datatype SocketOption =
    | SO_BROADCAST | SO_KEEPALIVE | SO_LINGER | SO_SNDBUF | SO_RCVBUF | SO_REUSEADDR
    | TCP_NODELAY | IP_TOS | IP_MULTICAST_IF | IP_MULTICAST_TTL | IP_MULTICAST_LOOP
    | SO_PEERCRED | SO_RCVTIMEO

  /** Peer credentials returned for SO_PEERCRED. */
  datatype Credentials = Credentials(pid: int, uid: int, gid: int)

  /** The value an option get/set carries. */
  datatype OptionValue = IntValue(i: int) | BoolValue(b: bool) | CredValue(c: Credentials)

  /** The exceptions thrown by the channels and the socket adaptor. */
  datatype ChannelError =
    | ClosedChannel            // ClosedChannelException
    | AsynchronousClose        // AsynchronousCloseException, a ClosedChannelException
    | NotYetConnected          // the IllegalStateException family ...
    | AlreadyConnected
    | ConnectionPending
    | NoConnectionPending
    | AlreadyBound
    | UnsupportedOption        // UnsupportedOperationException
    | IndexOutOfBounds         // IndexOutOfBoundsException / ArrayIndexOutOfBoundsException
    | IllegalArgument          // IllegalArgumentException
    | IOFailure(errno: int)    // IOException raised by the native layer
    | NotConnected             // IOException("not connected")
    | SocketClosed             // SocketException("Socket is closed")
    | SocketAlreadyBound       // SocketException("already bound")
    | SocketFailure(cause: ChannelError)   // SocketException wrapping an IOException
    | CloseFailed(fd: int, errno: int)     // RuntimeException("Error closing fd ...")
    | OptionNotFound           // the option registry has no entry for the option and family asked

  /** The exceptions that are IOExceptions (and so are caught by `catch (IOException e)`). */
  predicate IsIOException(e: ChannelError) {
    e.ClosedChannel? || e.AsynchronousClose? || e.IOFailure? || e.NotConnected?
    || e.SocketClosed? || e.SocketAlreadyBound? || e.SocketFailure?
  }
}
