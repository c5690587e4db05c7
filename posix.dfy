/**
 * The POSIX constants and raw system-call results the socket layer uses.
 * Values are those of Linux, the platform the library targets.
 */
module Posix {

  // errno values
  const EINTR: int := 4
  const EAGAIN: int := 11
  const EWOULDBLOCK: int := 11
  const EINPROGRESS: int := 115

  // socket(2) arguments
  const AF_UNIX: int := 1
  const SOCK_STREAM: int := 1
  const SOCK_DGRAM: int := 2

  // fcntl(2) file status flag
  const O_NONBLOCK: bv32 := 0x800

  /** Size of `sun_path` in `struct sockaddr_un` (Un.SUN_PATH_SIZE). */
  const SUN_PATH_SIZE: nat := 108
  /** `sizeof(struct sockaddr_un)`: a two-byte family tag followed by `sun_path`. */
  const SIZEOF_SOCKADDR_UN: int := 2 + SUN_PATH_SIZE

  /**
   * What a raw system call reports: its return value and the value
   * `errno` holds right after it (meaningful only when `rv` is negative
   * or, for connect(2), non-zero).
   */
  datatype SysRet = SysRet(rv: int, errno: int)

  predicate Interrupted(s: SysRet) {
    s.rv < 0 && s.errno == EINTR
  }
}
