# graal-unixsocket, modelled in Dafny

graal-unixsocket provides Unix-domain stream sockets to Java programs compiled with GraalVM native-image. This project models its core:

- **Two `SocketChannel` implementations.**
  - `sun.nio.ch.UnixSocketChannelImpl` is derived from the JDK's socket channel. It has the JDK's state machine: `ST_UNINITIALIZED` … `ST_KILLED`, reader and writer threads, a postponed kill, and half-close flags. It drives the native layer through IOUtil-style calls.
  - `net.jzajic.graalvm.socket.channel.UnixSocketChannelImpl` is a standalone channel with a local and a remote address and a fixed set of options. It works over `Native` and moves ByteBuffer positions itself.
- **The `UnixSocket` adaptor** over the jzajic channel.
- **The `Native` read/write/close/setBlocking helpers**, which retry on `EINTR`.
- **`UnixNet`.** `socket`/`socketU` and `connect` classify the result of a native call into the JDK's IOStatus codes.
- **The Unix branches of the native-image substitutions.** `NET_InetAddressToSockaddr` copies the path into `sockaddr_un.sun_path` with `strncpy`. `connect0`, `socket` and `socketU` also have Unix branches.
- **The two `SocketOptionRegistry` tables**, which map a socket option and a protocol family to a `(level, name)` pair.

How the model represents the system:

- Each channel is a `class` whose fields are the Java fields. Methods change them under `modifies` clauses.
- Every native call the model makes is a parameter, and so is every syscall that may be retried, including the calls into the jzajic `UnixNet` (see "## Left out"):
  - a kernel function, or a finite script of results;
  - a `Step` of a retry script also records whether a `close()` or a `shutdownInput()`/`shutdownOutput()` from another thread landed while the call was in flight. That is how `ST_KILLPENDING`, `AsynchronousCloseException` and the "asynchronous shutdown" branches become reachable in a sequential model.
- Ghost counters record how many times the descriptor is closed and each direction is shut. The class invariants bound them to one.

Modules:

| file | module | contents |
|---|---|---|
| wrappers.dfy | Wrappers | `Option`, `Result`, `Outcome` |
| posix.dfy | Posix | errno and socket constants (Linux values), raw syscall results |
| nio.dfy | Nio | IOStatus codes, channel states, exceptions, addresses, options |
| socket_options.dfy | SocketOptions | the option table as a map built from its `put` calls |
| jzajic_registry.dfy | JzajicOptionRegistry | the jzajic option table and `findOption` |
| svm_registry.dfy | SvmOptionRegistry | the svm option table and `findOption` |
| native.dfy | Native | `read`, `write`, `close` retry loops and `setBlocking` |
| sockaddr.dfy | Sockaddr | `sockaddr_un`, `strncpy`, `NET_InetAddressToSockaddr` |
| unix_net.dfy | UnixNet | `socketU`, connect classification, `connect` |
| nio_substitutions.dfy | NioSubstitutions | `connect0` and `socket` |
| retry_script.dfy | RetryScript | retry scripts with interference |
| sun_channel.dfy | SunChannel | the sun channel |
| jzajic_channel.dfy | JzajicChannel | the jzajic channel |
| unix_socket.dfy | UnixSocketAdaptor | the `UnixSocket` adaptor |

## Model

| member | source | states |
|---|---|---|
| SocketOptions.KeyEquals | src/main/java/net/jzajic/graalvm/posix/SocketOptionRegistry.java:27-34 | two registry keys are equal exactly when the other object is a key with the same option and family |
| SocketOptions.BuildKeys | src/main/java/net/jzajic/graalvm/posix/SocketOptionRegistry.java:40-60 | the map built by the `put` calls has exactly the keys that were put |
| SocketOptions.BuildLookup | src/main/java/net/jzajic/graalvm/posix/SocketOptionRegistry.java:40-60 | with distinct keys, every key put maps to the value put with it |
| SocketOptions.BuildSize | src/main/java/net/jzajic/graalvm/posix/SocketOptionRegistry.java:40-60 | with distinct keys, the map holds one entry per `put` |
| SocketOptions.BuildMissing | src/main/java/net/jzajic/graalvm/posix/SocketOptionRegistry.java:63-66 | a key never put is absent, so `findOption` returns null for it |
| JzajicOptionRegistry.FindOption | src/main/java/net/jzajic/graalvm/posix/SocketOptionRegistry.java:63-66 | a hit is a `(level, name)` that some `put` stored for exactly that option and family; a miss means no `put` used that key |
| JzajicOptionRegistry.TableDistinct | src/main/java/net/jzajic/graalvm/posix/SocketOptionRegistry.java:43-58 | no two `put` calls use the same key, so none overwrites another |
| JzajicOptionRegistry.TableSize | src/main/java/net/jzajic/graalvm/posix/SocketOptionRegistry.java:43-58 | the table has 16 entries |
| JzajicOptionRegistry.FindOptionPut | src/main/java/net/jzajic/graalvm/posix/SocketOptionRegistry.java:43-66 | every `put` is found by `findOption` |
| JzajicOptionRegistry.FindOptionMissing | src/main/java/net/jzajic/graalvm/posix/SocketOptionRegistry.java:63-66 | an option and family never put give null |
| JzajicOptionRegistry.PeerCredOnlyUnix | src/main/java/net/jzajic/graalvm/posix/SocketOptionRegistry.java:57 | SO_PEERCRED is registered only for the UNIX family, at SOL_SOCKET |
| JzajicOptionRegistry.MulticastTtlPerFamily | src/main/java/net/jzajic/graalvm/posix/SocketOptionRegistry.java:52-55 | IP_MULTICAST_TTL maps to IPPROTO_IP for INET and to IPV6_MULTICAST_HOPS for INET6, and is not registered for UNSPEC |
| JzajicOptionRegistry.Levels | src/main/java/net/jzajic/graalvm/posix/SocketOptionRegistry.java:43-58 | TCP_NODELAY is at level IPPROTO_TCP; every INET entry is at level IPPROTO_IP and every INET6 entry at IPPROTO_IPV6 |
| JzajicOptionRegistry.KeepAlive | src/main/java/net/jzajic/graalvm/posix/SocketOptionRegistry.java:43-58 | SO_KEEPALIVE maps to SOL_SOCKET/SO_KEEPALIVE for UNSPEC |
| SvmOptionRegistry.FindOption | src/main/java/com/oracle/svm/core/posix/SocketOptionRegistry.java:57-60 | a hit is a `(level, name)` that some `put` stored for that key; a miss means no `put` used it |
| SvmOptionRegistry.TableDistinct | src/main/java/com/oracle/svm/core/posix/SocketOptionRegistry.java:40-53 | no two `put` calls use the same key |
| SvmOptionRegistry.TableSize | src/main/java/com/oracle/svm/core/posix/SocketOptionRegistry.java:40-53 | the table has 14 entries |
| SvmOptionRegistry.FindOptionPut | src/main/java/com/oracle/svm/core/posix/SocketOptionRegistry.java:40-60 | every `put` is found by `findOption` |
| SvmOptionRegistry.NoPeerCredNoTimeout | src/main/java/com/oracle/svm/core/posix/SocketOptionRegistry.java:40-53 | this table knows neither SO_PEERCRED nor SO_RCVTIMEO, for any family |
| SvmOptionRegistry.IpTosOnlyInet | src/main/java/com/oracle/svm/core/posix/SocketOptionRegistry.java:40-53 | IP_TOS is registered only for INET, at IPPROTO_IP |
| SvmOptionRegistry.MulticastLevels | src/main/java/com/oracle/svm/core/posix/SocketOptionRegistry.java:40-53 | the three multicast options exist for INET at IPPROTO_IP and for INET6 at IPPROTO_IPV6 |
| Native.Read | src/main/java/net/jzajic/graalvm/posix/Native.java:15-26 | `read` is repeated only after an EINTR failure with fewer bytes counted than asked; the count is the stopping call's result, and 0 (never -1) when that call failed |
| Native.Write | src/main/java/net/jzajic/graalvm/posix/Native.java:28-39 | `write` follows the same retry rule and never returns a negative count |
| Native.CloseSettlesTail | src/main/java/net/jzajic/graalvm/posix/Native.java:61-73 | after an interrupted `close` the rest of the script still settles |
| Native.FirstSettled | src/main/java/net/jzajic/graalvm/posix/Native.java:61-73 | the index of the first `close` result that is not EINTR; all before it were interrupted |
| Native.Close | src/main/java/net/jzajic/graalvm/posix/Native.java:61-73 | `close` is retried exactly while it fails with EINTR; the first other result is returned, or a negative one raises the RuntimeException with the fd and errno |
| Native.SetBlocking | src/main/java/net/jzajic/graalvm/posix/Native.java:49-59 | the new flags keep every bit of the old ones except O_NONBLOCK, which is clear for blocking mode and set otherwise |
| Sockaddr.SockaddrUn.constructor | src/main/java/net/jzajic/graalvm/headers/Un.java:28-44 | a `sockaddr_un` has a 108-byte `sun_path` |
| Sockaddr.CStrLen | src/main/java/com/oracle/svm/core/posix/UnixSocketJavaNIOSubstitutions.java:50 | the C string length: all bytes before it are non-NUL and the byte at it is NUL |
| Sockaddr.Strncpy | src/main/java/com/oracle/svm/core/posix/UnixSocketJavaNIOSubstitutions.java:50 | `strncpy` copies the source up to its NUL and pads with NUL up to n; bytes from n on are untouched |
| Sockaddr.CString | src/main/java/com/oracle/svm/core/posix/UnixSocketJavaNIOSubstitutions.java:49 | `toCString` appends one NUL after the bytes |
| Sockaddr.InetAddressToSockaddr | src/main/java/com/oracle/svm/core/posix/UnixSocketJavaNIOSubstitutions.java:44-57 | for family 3: `sun_family` is AF_UNIX, the path is strncpy'd with limit 107, `len` is the size of `sockaddr_un`, and the result is 0; any other family is delegated and leaves the address alone |
| Sockaddr.SunPathLayout | src/main/java/com/oracle/svm/core/posix/UnixSocketJavaNIOSubstitutions.java:50 | after the copy, `sun_path` starts with the path bytes (at most 107), is NUL up to byte 107, and keeps its old byte 107 |
| Sockaddr.DecodeSunPath | src/main/java/com/oracle/svm/core/posix/UnixSocketJavaNIOSubstitutions.java:50 | reading `sun_path` back as a C string yields a NUL-free path |
| Sockaddr.SunPathRoundTrip | src/main/java/com/oracle/svm/core/posix/UnixSocketJavaNIOSubstitutions.java:44-57 | a NUL-free path shorter than 107 bytes reads back unchanged |
| Sockaddr.SunPathTruncates | src/main/java/com/oracle/svm/core/posix/UnixSocketJavaNIOSubstitutions.java:50 | a longer path is cut to its first 107 bytes, and `sun_path` is NUL-terminated only if its old last byte was NUL |
| UnixNet.SocketType | src/main/java/com/oracle/svm/core/posix/UnixNet.java:30-38 | SOCK_STREAM exactly for a stream socket, SOCK_DGRAM otherwise |
| UnixNet.SocketU | src/main/java/com/oracle/svm/core/posix/UnixNet.java:23-38 | `socket(AF_UNIX, type, 0)` is asked once; a non-negative result is the fd, a negative one raises its errno |
| UnixNet.ClassifyConnect | src/main/java/com/oracle/svm/core/posix/UnixNet.java:40-58 | a connect result of 0 gives 1; EINPROGRESS gives UNAVAILABLE; EINTR gives INTERRUPTED; any other failure raises its errno (each one an if-and-only-if) |
| UnixNet.ClassifyConnectCodes | src/main/java/com/oracle/svm/core/posix/UnixNet.java:40-58 | connect never reports THROWN or EOF, only 1, UNAVAILABLE, INTERRUPTED or an exception |
| UnixNet.Connect | src/main/java/com/oracle/svm/core/posix/UnixNet.java:40-58 | the connect syscall is issued unless the address conversion failed; it gets the fd, AF_UNIX, a 108-byte path and the `sockaddr_un` size; its result is classified; a short path reads back from the buffer passed |
| NioSubstitutions.Connect0 | src/main/java/com/oracle/svm/core/posix/UnixSocketJavaNIOSubstitutions.java:66-89 | for a Unix address the connect syscall is always issued and its result classified, never THROWN; other families keep the original behaviour |
| NioSubstitutions.Socket | src/main/java/com/oracle/svm/core/posix/UnixSocketJavaNIOSubstitutions.java:92-111 | for the UNIX family, exactly `socket(AF_UNIX, SOCK_STREAM or SOCK_DGRAM, 0)`, with the fd or the errno; other families keep the original behaviour |
| SunChannel.ReadReportsCountOrEof | src/main/java/sun/nio/ch/UnixSocketChannelImpl.java:287-324 | a read that returns reports a count or EOF, never UNAVAILABLE or INTERRUPTED |
| SunChannel.ReadAfterShutdown | src/main/java/sun/nio/ch/UnixSocketChannelImpl.java:315-322 | after an input shutdown, a read that moved no bytes returns EOF even if the call threw; bytes read are still reported |
| SunChannel.WriteAfterShutdown | src/main/java/sun/nio/ch/UnixSocketChannelImpl.java:384-391 | after an output shutdown, a write that moved no bytes throws AsynchronousCloseException; bytes written are reported |
| SunChannel.KillMonotone | src/main/java/sun/nio/ch/UnixSocketChannelImpl.java:728-748 | kill never lowers the state and ends in KILLPENDING (if and only if a thread is in flight on a live state) or KILLED |
| SunChannel.KillClosesOnce | src/main/java/sun/nio/ch/UnixSocketChannelImpl.java:728-748 | two kills in a row close the fd at most once |
| SunChannel.ConnectCommitAsWritten | src/main/java/sun/nio/ch/UnixSocketChannelImpl.java:533-551 | the commit step as written: connected exactly when n > 0; the state write is not guarded by isOpen() |
| SunChannel.ConnectAsWrittenRegresses | src/main/java/sun/nio/ch/UnixSocketChannelImpl.java:533-551 | as written, a channel KILLED during a connect that returns 1 goes back to CONNECTED, so isConnected() answers true on a closed channel and the state no longer matches isOpen(); a non-blocking connect makes it PENDING |
| SunChannel.ConnectCommitGuarded | src/main/java/sun/nio/ch/UnixSocketChannelImpl.java:533-551 | the corrected commit: connected exactly when n > 0, and a closed channel keeps its state and address |
| SunChannel.ConnectCommitMonotone | src/main/java/sun/nio/ch/UnixSocketChannelImpl.java:533-551 | the corrected commit never lowers the state, and keeps "open exactly while below KILLPENDING" |
| SunChannel.SetOption | src/main/java/sun/nio/ch/UnixSocketChannelImpl.java:114-131 | an option outside the (empty) supported set is refused with UnsupportedOperationException |
| SunChannel.GetOption | src/main/java/sun/nio/ch/UnixSocketChannelImpl.java:133-160 | the same, for getOption |
| SunChannel.UnixSocketChannelImpl.constructor | src/main/java/sun/nio/ch/UnixSocketChannelImpl.java:89-94 | a new channel is open, blocking, UNCONNECTED, unbound, with both directions open |
| SunChannel.UnixSocketChannelImpl.Open | src/main/java/sun/nio/ch/UnixSocketChannelImpl.java:89-94 | the channel exists exactly when `socket(AF_UNIX, SOCK_STREAM, 0)` succeeds, on that fd; otherwise its errno is thrown |
| SunChannel.UnixSocketChannelImpl.GetLocalAddress | src/main/java/sun/nio/ch/UnixSocketChannelImpl.java:96-103 | closed channels throw ClosedChannelException; open ones give the single address field |
| SunChannel.UnixSocketChannelImpl.GetRemoteAddress | src/main/java/sun/nio/ch/UnixSocketChannelImpl.java:105-112 | the same field, with the same guard |
| SunChannel.UnixSocketChannelImpl.LocalIsRemote | src/main/java/sun/nio/ch/UnixSocketChannelImpl.java:96-112 | the local and the remote address are always the same |
| SunChannel.UnixSocketChannelImpl.EnsureReadOpen | src/main/java/sun/nio/ch/UnixSocketChannelImpl.java:162-173 | closed throws, then not-connected throws; otherwise the answer is whether input is open (each an if-and-only-if) |
| SunChannel.UnixSocketChannelImpl.EnsureWriteOpen | src/main/java/sun/nio/ch/UnixSocketChannelImpl.java:175-184 | closed or output shut throws ClosedChannelException, then not-connected throws; passes exactly otherwise |
| SunChannel.UnixSocketChannelImpl.EnsureOpenAndUnconnected | src/main/java/sun/nio/ch/UnixSocketChannelImpl.java:480-489 | closed, connected and pending are refused with their exceptions; every other state passes |
| SunChannel.UnixSocketChannelImpl.Kill | src/main/java/sun/nio/ch/UnixSocketChannelImpl.java:728-748 | on a closed channel: KILLED stays, UNINITIALIZED is killed without a close, a busy channel goes to KILLPENDING, otherwise the fd is closed once and the state is KILLED |
| SunChannel.UnixSocketChannelImpl.ImplCloseSelectableChannel | src/main/java/sun/nio/ch/UnixSocketChannelImpl.java:690-726 | both directions are marked shut, then kill runs |
| SunChannel.UnixSocketChannelImpl.Close | src/main/java/sun/nio/ch/UnixSocketChannelImpl.java:690-726 | only the first close acts: the channel closes and is killed (fd closed at most once); later calls change nothing |
| SunChannel.UnixSocketChannelImpl.ReaderCleanup | src/main/java/sun/nio/ch/UnixSocketChannelImpl.java:186-192 | the reader leaves; a pending kill is completed, closing the fd |
| SunChannel.UnixSocketChannelImpl.WriterCleanup | src/main/java/sun/nio/ch/UnixSocketChannelImpl.java:194-200 | the writer leaves; a pending kill is completed |
| SunChannel.UnixSocketChannelImpl.ShutdownInput | src/main/java/sun/nio/ch/UnixSocketChannelImpl.java:639-654 | closed and unconnected channels throw; the first call on a connected channel shuts input with one syscall, later calls do nothing |
| SunChannel.UnixSocketChannelImpl.ShutdownOutput | src/main/java/sun/nio/ch/UnixSocketChannelImpl.java:656-671 | the same, for output |
| SunChannel.UnixSocketChannelImpl.Transfer | src/main/java/sun/nio/ch/UnixSocketChannelImpl.java:287-295 | the retry loop stops at the first result that is neither INTERRUPTED on an open channel nor (when asked) 0; the channel is closed exactly when a close landed, with the state and flags that close leaves |
| SunChannel.UnixSocketChannelImpl.Read | src/main/java/sun/nio/ch/UnixSocketChannelImpl.java:202-328 | the ensureReadOpen checks, then the loop result after end() and the shutdown check; a close that landed leaves the channel KILLED with its fd closed once; the state never decreases |
| SunChannel.UnixSocketChannelImpl.ReadScatter | src/main/java/sun/nio/ch/UnixSocketChannelImpl.java:330-363 | bad offset/length throws IndexOutOfBoundsException; otherwise as read |
| SunChannel.UnixSocketChannelImpl.Write | src/main/java/sun/nio/ch/UnixSocketChannelImpl.java:365-394 | the ensureWriteOpen checks, then the loop result after end() and the output-shutdown check |
| SunChannel.UnixSocketChannelImpl.WriteGather | src/main/java/sun/nio/ch/UnixSocketChannelImpl.java:396-427 | bad offset/length throws IndexOutOfBoundsException; otherwise as write |
| SunChannel.UnixSocketChannelImpl.Bind | src/main/java/sun/nio/ch/UnixSocketChannelImpl.java:445-464 | closed, pending and already-bound channels are refused; the bind syscall runs on the given address, or on the empty path for null; if it fails it throws; otherwise the given address (possibly null) is stored |
| SunChannel.UnixSocketChannelImpl.ConfigureBlocking | src/main/java/sun/nio/ch/UnixSocketChannelImpl.java:429-431 | the mode is set; the refusal of a closed channel is the inherited `configureBlocking`, which is not part of this model and is stated as the JDK documents it; the native `IOUtil.configureBlocking` call is not made (see "## Left out") |
| SunChannel.UnixSocketChannelImpl.Connect | src/main/java/sun/nio/ch/UnixSocketChannelImpl.java:491-556 | the guard, the retry loop, end(), close on exception, then the corrected commit; the state never decreases |
| SunChannel.UnixSocketChannelImpl.FinishConnect | src/main/java/sun/nio/ch/UnixSocketChannelImpl.java:558-637 | true at once when connected; refused unless pending; a pending kill forces n to 0 so end() throws; n > 0 connects |
| JzajicChannel.ReadResult | src/main/java/net/jzajic/graalvm/socket/channel/UnixSocketChannelImpl.java:154-181 | 0 bytes is EOF; -1 with EAGAIN/EWOULDBLOCK is 0; any other -1 throws; a positive count is returned (each an if-and-only-if) |
| JzajicChannel.ReadScatter | src/main/java/net/jzajic/graalvm/socket/channel/UnixSocketChannelImpl.java:183-197 | the loop computes the scatter specification: out-of-range buffers throw, the first EOF returns -1, otherwise the counts are summed |
| JzajicChannel.ScatterSums | src/main/java/net/jzajic/graalvm/socket/channel/UnixSocketChannelImpl.java:183-197 | if every buffer is in range and reads without EOF or error, the result is the sum of the counts |
| JzajicChannel.ScatterStopsAtEof | src/main/java/net/jzajic/graalvm/socket/channel/UnixSocketChannelImpl.java:189-193 | the first buffer to hit EOF makes the result -1, whatever was counted before |
| JzajicChannel.WriteBuffer | src/main/java/net/jzajic/graalvm/socket/channel/UnixSocketChannelImpl.java:199-228 | a write of n ≥ 0 bytes consumes exactly min(n, remaining) bytes and returns n; would-block leaves the buffer as it was; any other failure throws with the buffer consumed |
| JzajicChannel.WriteKeepsBuffer | src/main/java/net/jzajic/graalvm/socket/channel/UnixSocketChannelImpl.java:199-228 | a write keeps 0 ≤ position ≤ limit and never moves the position back past its start |
| JzajicChannel.GatherRange | src/main/java/net/jzajic/graalvm/socket/channel/UnixSocketChannelImpl.java:230-240 | the loop writes buffers `index .. end-1` in place and its result is the gather specification |
| JzajicChannel.WriteGatherAsWritten | src/main/java/net/jzajic/graalvm/socket/channel/UnixSocketChannelImpl.java:230-240 | as written: the loop runs from `offset` while below `length` |
| JzajicChannel.WriteGather | src/main/java/net/jzajic/graalvm/socket/channel/UnixSocketChannelImpl.java:230-240 | corrected: the loop covers `offset .. offset+length-1` |
| JzajicChannel.GatherStaysInRange | src/main/java/net/jzajic/graalvm/socket/channel/UnixSocketChannelImpl.java:230-240 | buffers outside the walked range are untouched and the array keeps its size |
| JzajicChannel.GatherSums | src/main/java/net/jzajic/graalvm/socket/channel/UnixSocketChannelImpl.java:230-240 | when all writes of the range succeed, the result is the sum of the bytes written |
| JzajicChannel.GatherAsWrittenSkips | src/main/java/net/jzajic/graalvm/socket/channel/UnixSocketChannelImpl.java:235-236 | with offset 1 and length 1, the loop as written writes nothing and returns 0, where the intended bound writes the buffer's 5 bytes |
| JzajicChannel.CloseOutcome | src/main/java/net/jzajic/graalvm/posix/Native.java:61-73 | close fails exactly when the first non-EINTR close result is negative, with that fd and errno |
| JzajicChannel.SupportedRegistered | src/main/java/net/jzajic/graalvm/posix/SocketOptionRegistry.java:43-58 | the four standard supported options are registered under UNSPEC at SOL_SOCKET; SO_PEERCRED is absent under UNSPEC and is (SOL_SOCKET, 17) under UNIX |
| JzajicChannel.Lookup | src/main/java/net/jzajic/graalvm/socket/channel/UnixSocketChannelImpl.java:107 | corrected option lookup: UNSPEC first, then the channel's own UNIX family; every supported option resolves, SO_PEERCRED to (SOL_SOCKET, 17) |
| JzajicChannel.GetOptionAsWritten | src/main/java/net/jzajic/graalvm/socket/channel/UnixSocketChannelImpl.java:112-125 | getOption with the lookup under UNSPEC only, as line 124 passes it: a supported option that is not registered there fails before the socket is asked |
| JzajicChannel.PeerCredAsWrittenFails | src/main/java/net/jzajic/graalvm/socket/channel/UnixSocketChannelImpl.java:124 | as written, getOption(SO_PEERCRED) fails on an open channel whatever the socket reports, while the corrected lookup resolves it |
| JzajicChannel.UnixSocketChannelImpl.constructor | src/main/java/net/jzajic/graalvm/socket/channel/UnixSocketChannelImpl.java:79-84 | a new channel is open, blocking, UNCONNECTED, with no addresses and both directions open |
| JzajicChannel.UnixSocketChannelImpl.Open | src/main/java/net/jzajic/graalvm/socket/channel/UnixSocketChannelImpl.java:79-84 | the channel exists exactly when `socket(AF_UNIX, SOCK_STREAM, 0)` succeeds, on that fd (the call is modelled by the svm `socketU`) |
| JzajicChannel.UnixSocketChannelImpl.SetOption | src/main/java/net/jzajic/graalvm/socket/channel/UnixSocketChannelImpl.java:96-110 | an unsupported option is refused first, then a closed channel; otherwise the syscall on the level and name the option resolves to decides (each an if-and-only-if); the option is resolved with the corrected lookup (Findings row 3), where line 107 looks under UNSPEC only |
| JzajicChannel.UnixSocketChannelImpl.GetOption | src/main/java/net/jzajic/graalvm/socket/channel/UnixSocketChannelImpl.java:112-125 | the same guards; otherwise the value the socket reports for the resolved level and name, or the syscall's exception; the option is resolved with the corrected lookup (Findings row 3), where line 124 looks under UNSPEC only and fails for SO_PEERCRED (GetOptionAsWritten) |
| JzajicChannel.UnixSocketChannelImpl.Close | src/main/java/net/jzajic/graalvm/socket/channel/UnixSocketChannelImpl.java:495-497 | only the first close acts: the channel closes and Native.close runs once, its failure escaping; the state and the flags are not touched |
| JzajicChannel.UnixSocketChannelImpl.Kill | src/main/java/net/jzajic/graalvm/socket/channel/UnixSocketChannelImpl.java:499-510 | on a closed channel kill always ends in KILLED, changing nothing else |
| JzajicChannel.UnixSocketChannelImpl.ReaderCleanup | src/main/java/net/jzajic/graalvm/socket/channel/UnixSocketChannelImpl.java:147-152 | a pending kill is carried out, and reported, exactly when the state is KILLPENDING |
| JzajicChannel.UnixSocketChannelImpl.ShutdownInput | src/main/java/net/jzajic/graalvm/socket/channel/UnixSocketChannelImpl.java:448-461 | closed and unconnected channels throw; the first call on a connected channel shuts input with one syscall, later calls do nothing |
| JzajicChannel.UnixSocketChannelImpl.ShutdownOutput | src/main/java/net/jzajic/graalvm/socket/channel/UnixSocketChannelImpl.java:463-476 | the same, for output |
| JzajicChannel.UnixSocketChannelImpl.ConfigureBlocking | src/main/java/net/jzajic/graalvm/socket/channel/UnixSocketChannelImpl.java:242-244 | the mode is recorded; the refusal of a closed channel is the inherited `configureBlocking`, not part of this model; the `Native.setBlocking` call on the descriptor is not made here (see Native.SetBlocking) |
| JzajicChannel.UnixSocketChannelImpl.Bind | src/main/java/net/jzajic/graalvm/socket/channel/UnixSocketChannelImpl.java:268-286 | closed, pending and bound channels are refused; the kernel binds the address given, or the empty path when none is; a failing bind throws; otherwise the local address is what getsockname reports, possibly null |
| JzajicChannel.UnixSocketChannelImpl.GetRemoteSocketAddress | src/main/java/net/jzajic/graalvm/socket/channel/UnixSocketChannelImpl.java:246-257 | null when not connected; otherwise the cached address, or getpeername's answer (possibly null), which is then cached |
| JzajicChannel.UnixSocketChannelImpl.GetLocalSocketAddress | src/main/java/net/jzajic/graalvm/socket/channel/UnixSocketChannelImpl.java:259-266 | the cached local address, or getsockname's answer (possibly null), which is then cached; a bound channel stays bound |
| JzajicChannel.UnixSocketChannelImpl.ConnectLoop | src/main/java/net/jzajic/graalvm/socket/channel/UnixSocketChannelImpl.java:324-335 | the connect call is retried until a result stops the loop; the channel is closed exactly when a close landed; state, addresses and flags are kept |
| JzajicChannel.UnixSocketChannelImpl.Connect | src/main/java/net/jzajic/graalvm/socket/channel/UnixSocketChannelImpl.java:313-369 | the guard; then end() or the call's exception, after which the channel is closed and a failing close replaces the exception; n > 0 connects (the address is recorded only if still open); non-blocking without success goes pending; the state never decreases |
| JzajicChannel.UnixSocketChannelImpl.FinishConnect | src/main/java/net/jzajic/graalvm/socket/channel/UnixSocketChannelImpl.java:371-446 | true at once when connected; refused unless pending; blocking mode retries 0; exceptions close the channel as in connect; n > 0 connects, otherwise it stays pending |
| UnixSocketAdaptor.WrapIO | src/main/java/net/jzajic/graalvm/socket/channel/UnixSocket.java:46-48 | IOExceptions are wrapped in a SocketException; other exceptions pass through |
| UnixSocketAdaptor.UnixSocket.constructor | src/main/java/net/jzajic/graalvm/socket/channel/UnixSocket.java:29-33 | a new adaptor is neither closed nor shut down |
| UnixSocketAdaptor.UnixSocket.Bind | src/main/java/net/jzajic/graalvm/socket/channel/UnixSocket.java:35-50 | a closed socket and a bound socket throw SocketException; otherwise the channel binds the given address and its IOExceptions are wrapped; success exactly when the channel accepts and the bind syscall on that address succeeds |
| UnixSocketAdaptor.UnixSocket.Close | src/main/java/net/jzajic/graalvm/socket/channel/UnixSocket.java:52-61 | only the first close reaches the channel; afterwards the adaptor and the channel are closed |
| UnixSocketAdaptor.UnixSocket.Connect | src/main/java/net/jzajic/graalvm/socket/channel/UnixSocket.java:63-76 | a Unix address goes to the channel's connect; any other throws IllegalArgumentException and changes nothing |
| UnixSocketAdaptor.UnixSocket.GetInputStream | src/main/java/net/jzajic/graalvm/socket/channel/UnixSocket.java:88-94 | the stream exactly when the channel is connected, otherwise IOException("not connected") |
| UnixSocketAdaptor.UnixSocket.GetOutputStream | src/main/java/net/jzajic/graalvm/socket/channel/UnixSocket.java:106-113 | the same, for output |
| UnixSocketAdaptor.UnixSocket.GetLocalSocketAddress | src/main/java/net/jzajic/graalvm/socket/channel/UnixSocket.java:96-103 | the channel's local address: the cached one, or getsockname's answer, which the channel then caches |
| UnixSocketAdaptor.UnixSocket.GetRemoteSocketAddress | src/main/java/net/jzajic/graalvm/socket/channel/UnixSocket.java:116-124 | null when the channel is not connected; otherwise its cached remote address or getpeername's answer |
| UnixSocketAdaptor.UnixSocket.ShutdownInput | src/main/java/net/jzajic/graalvm/socket/channel/UnixSocket.java:154-159 | the flag is set by the first call, which alone reaches the channel, even if that call fails |
| UnixSocketAdaptor.UnixSocket.ShutdownOutput | src/main/java/net/jzajic/graalvm/socket/channel/UnixSocket.java:161-166 | the same, for output |
| UnixSocketAdaptor.UnixSocket.GetCredentials | src/main/java/net/jzajic/graalvm/socket/channel/UnixSocket.java:181-190 | null when not connected; otherwise, with the corrected lookup (Findings row 3), the credentials the socket reports for (SOL_SOCKET, 17), or the channel's IOException wrapped in a SocketException; as written the lookup misses and no credentials are returned (PeerCredAsWrittenFails) |
| UnixSocketAdaptor.UnixSocket.GetSocketOption | src/main/java/net/jzajic/graalvm/socket/channel/UnixSocket.java:192-226 | the option getters succeed exactly for supported options on an open channel whose syscall on the resolved level and name succeeds; IOExceptions are wrapped |
| UnixSocketAdaptor.UnixSocket.SetSocketOption | src/main/java/net/jzajic/graalvm/socket/channel/UnixSocket.java:228-253 | the same, for the option setters |
| UnixSocketAdaptor.SetSoTimeout | src/main/java/net/jzajic/graalvm/socket/channel/UnixSocket.java:255-264 | setting the timeout always succeeds and does nothing (its body is commented out) |

## Left out

- Concurrency is left out: the locks, `begin()` interrupt handling and NativeThread signalling. Interference is modelled only as a close or a shutdown that lands during a native call. A method's own `if (!isOpen()) return` after `begin()` cannot fire when each method is atomic, so it is not modelled.
- The registration with a selector (`isRegistered`) is left out. The sun channel is treated as never registered, so `implCloseSelectableChannel` always kills.
- `poll`, `toString`, `getFD`, `getFDVal`, `socket()`, `isInputOpen()`/`isOutputOpen()` and the sun `localAddress()`/`remoteAddress()` accessors are plain reads or formatting, and are not modelled.
- Some accessors are plain field reads or delegations, and are modelled without contracts or rows. They are the jzajic `getRemoteAddress`/`getLocalAddress`, `isBound` (JzajicChannel.UnixSocketChannelImpl.IsBound), `isConnected` and `isConnectionPending` (IsConnected, IsConnectionPending), the sun `isConnected` (SunChannel.UnixSocketChannelImpl.IsConnected), and the adaptor's `isBound`/`isClosed`/`isConnected`. The guards of the modelled methods use these predicates, so the methods' contracts state their values. The adaptor's `getChannel`, `getInetAddress` (always null) and `isInputShutdown`/`isOutputShutdown` are not modelled.
- The mapping of a failed syscall to an exception message (`handleSocketError`, `getLastErrorString`) is left out. An exception carries the errno.
- The byte contents moved by the sun channel's IOUtil reads and writes are left out; so is the destination-buffer copy in the jzajic `read`. Only counts and buffer positions are modelled.
- The jzajic `read` and `write` call `Native.read`/`Native.write` overloads that take a ByteBuffer. Those overloads are not part of this model, so their result is a parameter. It is not tied to the two-argument `Native.Read`/`Native.Write`, which never return -1.
- ByteBuffer aliasing is not modelled: buffers are values.
- `net.jzajic.graalvm.posix.UnixNet`, which the jzajic channel calls, is not part of this model. Its calls are parameters of the members that make them: `socket` (JzajicChannel.UnixSocketChannelImpl.Open, modelled by the svm `socketU`), `bind`, `getsockname` and `getpeername` (Bind, GetLocalSocketAddress, GetRemoteSocketAddress and their UnixSocketAdaptor counterparts), `setSocketOption`/`getSocketOption` (SetOption, GetOption, and UnixSocketAdaptor.UnixSocket.GetCredentials, GetSocketOption, SetSocketOption) and `connect`. They are assumed to fail only with an errno IOException. `bind` is a function of the address it is given; `getsockname` and `getpeername` may answer null. The option calls are assumed to resolve the option through the jzajic registry and to fail with OptionNotFound (not an IOException) when it has no entry, as the JDK's Net does; JzajicChannel.GetOptionAsWritten models that lookup as written, and the channel's own members use the corrected one (Findings row 3).
- JzajicChannel.UnixSocketChannelImpl.GetLocalSocketAddress: no longer promises that the channel is bound afterwards, because getsockname may answer null.
- JzajicChannel.UnixSocketChannelImpl.Bind: a successful bind leaves the channel bound only when getsockname answers; the cast of a non-Unix address (a ClassCastException) is not modelled.
- OsConstants is not part of this model. Its Linux values are used for the option levels and names, errno codes, `AF_UNIX`, `SOCK_STREAM`/`SOCK_DGRAM` and `O_NONBLOCK`.
- `NET_InetAddressToSockaddr` and `connect0` for non-Unix families, and `InetAddress.getLocalHost`, call the original JDK code, which is not part of this model. That result is a parameter.
- `nd.close`/`nd.preClose` failures in the sun close path are not modelled: kill's close of the fd is counted but cannot fail.
- SunChannel.UnixSocketChannelImpl.Bind: the `(UnixSocketAddress) local` cast's ClassCastException for an address of another kind is not modelled, because `local` is typed as a Unix address or null. The conversion to a `java.net.UnixAddress` inside `Net.bind` is folded into `kernel`, which answers for the address.
- SunChannel.UnixSocketChannelImpl.ConfigureBlocking: the native `IOUtil.configureBlocking(fd, block)` call of `implConfigureBlocking` and the IOException it may throw are not modelled. On an open channel the model records the mode and always succeeds.
- SunChannel.UnixSocketChannelImpl.Connect: the `(UnixSocketAddress) sa` cast's ClassCastException for an address of another kind is not modelled, because the model takes a Unix address. The adaptor's Connect refuses other kinds before delegating.
- JzajicChannel.UnixSocketChannelImpl.Connect: the same `(UnixSocketAddress) sa` cast and its ClassCastException are not modelled, for the same reason.
- JzajicChannel.UnixSocketChannelImpl.SetOption: resolves the option with the corrected JzajicChannel.Lookup, not with the UNSPEC-only lookup that line 107 passes; for the options it accepts, the two differ only on SO_PEERCRED (Findings row 3).
- JzajicChannel.UnixSocketChannelImpl.GetOption: resolves the option with the corrected JzajicChannel.Lookup; as written (JzajicChannel.GetOptionAsWritten) SO_PEERCRED fails with OptionNotFound (Findings row 3).
- UnixSocketAdaptor.UnixSocket.GetCredentials: promises the credentials through the corrected lookup; as written the lookup under UNSPEC misses, so a connected, open socket never returns them (JzajicChannel.PeerCredAsWrittenFails, Findings row 3).
- The adaptor holds a non-null channel. The null checks in `UnixSocket.bind`, `close` and `isBound` are unreachable because only the channel creates its adaptor.
- UnixSocketAdaptor.UnixSocket.Connect: the Java `connect(addr, timeout)` ignores the timeout, and the model has no timeout parameter.
- UnixSocketAdaptor.SetSoTimeout: models the source, whose body is commented out. It does not model setting SO_RCVTIMEO.
- Native.Read: the bytes read into the buffer are not modelled, only the count and the retries.
- Java `int` overflow of `offset + i` in the scatter and gather loops is not modelled: integers are unbounded.

## Findings

| source | as written | input that shows it | evidently intended | confidence | as-written member | corrected member |
|---|---|---|---|---|---|---|
| src/main/java/sun/nio/ch/UnixSocketChannelImpl.java:533-551 | after the connect call returns, `state = ST_CONNECTED` (or `ST_PENDING`) is written whether or not the channel was closed meanwhile; only the address write checks `isOpen()` | a blocking connect returning 1 while a close lands: the state goes from KILLED back to CONNECTED, so isConnected() answers true on a closed channel, against the "State, increases monotonically" comment at line 65 (a second close of the fd would need a kill() that the source never makes on a killed channel) | a channel closed during connect keeps its state (KILLED), as the address write already does | not executed | SunChannel.ConnectAsWrittenRegresses | SunChannel.ConnectCommitMonotone |
| src/main/java/net/jzajic/graalvm/socket/channel/UnixSocketChannelImpl.java:235-236 | the gathering write loops `for (index = offset; index < length; index++)` | offset 1, length 1, buffers `[empty, 5 bytes]`: nothing is written and 0 is returned | the loop bound is `offset + length`, so buffers `offset .. offset+length-1` are written | not executed | JzajicChannel.GatherAsWrittenSkips | JzajicChannel.GatherSums |
| src/main/java/net/jzajic/graalvm/socket/channel/UnixSocketChannelImpl.java:107-124 | `setOption`/`getOption` pass `UnixNet.UNSPEC` as the family, but the registry has SO_PEERCRED only under UNIX (SocketOptionRegistry.java:57) | `UnixSocket.getCredentials()` on a connected, open socket: the lookup of SO_PEERCRED under UNSPEC misses, so no credentials are ever returned | SO_PEERCRED resolves for this AF_UNIX channel, through the UNIX entry | not executed; low: `net.jzajic.graalvm.posix.UnixNet` is not part of this model, and the row assumes it resolves options through this registry as the JDK's Net does | JzajicChannel.PeerCredAsWrittenFails | JzajicChannel.Lookup |
