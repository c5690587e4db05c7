/**
 * The unix branch of NET_InetAddressToSockaddr: filling a
 * `struct sockaddr_un` in place from an address whose family is the
 * Unix-domain family, copying the path with strncpy (section 7.24.2.4
 * of ISO/IEC 9899:2011) bounded to SUN_PATH_SIZE - 1 bytes.
 */
module Sockaddr {
  import opened Posix

  /** The address-family code that marks an InetAddress as a Unix-domain path. */
  const UNIX_FAMILY: int := 3

  /** The strncpy bound used for `sun_path`: one byte short of the buffer. */
  const SUN_PATH_COPY: nat := SUN_PATH_SIZE - 1

  /**
   * An InetAddress as the conversion sees it: its family code and the
   * bytes of its host-address string (for a Unix address, the path).
   */
  datatype InetAddress = InetAddress(family: int, hostAddress: seq<bv8>)

  /** `struct sockaddr_un`, as obtained from StackValue.get: its bytes start out arbitrary. */
  class SockaddrUn {
    var sunFamily: int
    const sunPath: array<bv8>

    constructor ()
      ensures sunPath.Length == SUN_PATH_SIZE && fresh(sunPath)
    {
      sunPath := new bv8[SUN_PATH_SIZE];
    }
  }

  /** strlen: the index of the first NUL byte, or the length when there is none. */
  function CStrLen(s: seq<bv8>): (n: nat)
    ensures n <= |s|
    ensures n < |s| ==> s[n] == 0
    ensures forall i :: 0 <= i < n ==> s[i] != 0
  {
    if s == [] then 0
    else if s[0] == 0 then 0
    else 1 + CStrLen(s[1..])
  }

  /** strncpy's source is readable: it is NUL-terminated or has at least `n` bytes. */
  predicate Readable(src: seq<bv8>, n: nat) {
    CStrLen(src) < |src| || n <= |src|
  }

  /**
   * The buffer after strncpy(dst, src, n): the first `n` bytes are the
   * characters of `src` up to its NUL, then NUL bytes; nothing at or
   * beyond index `n` is written.
   */
  function StrncpyResult(dst: seq<bv8>, src: seq<bv8>, n: nat): (r: seq<bv8>)
    requires n <= |dst| && Readable(src, n)
  {
    seq(|dst|, i requires 0 <= i < |dst| =>
      if i < n then (if i < CStrLen(src) then src[i] else 0) else dst[i])
  }

  /** LibC.strncpy, writing into the array in place. */
  method Strncpy(dst: array<bv8>, src: seq<bv8>, n: nat)
    requires n <= dst.Length && Readable(src, n)
    modifies dst
    ensures dst[..] == StrncpyResult(old(dst[..]), src, n)
  {
    var i := 0;
    while i < n && src[i] != 0
      invariant i <= n && i <= CStrLen(src)
      invariant forall j :: 0 <= j < i ==> dst[j] == src[j]
      invariant forall j :: i <= j < dst.Length ==> dst[j] == old(dst[j])
    {
      dst[i] := src[i];
      i := i + 1;
    }
    while i < n
      invariant i <= n
      invariant forall j :: 0 <= j < i ==> dst[j] == (if j < CStrLen(src) then src[j] else 0)
      invariant forall j :: i <= j < dst.Length ==> dst[j] == old(dst[j])
    {
      dst[i] := 0;
      i := i + 1;
    }
  }

  /** The C string toCString hands to strncpy: the host-address bytes and a NUL. */
  function CString(s: seq<bv8>): (c: seq<bv8>)
    ensures |c| == |s| + 1 && c[..|s|] == s && c[|s|] == 0
    ensures CStrLen(c) <= |s|
  {
    var c := s + [0];
    assert c[|s|] == 0;
    c
  }

  /**
   * NET_InetAddressToSockaddr. For the Unix family it sets `sun_family`
   * to AF_UNIX, strncpy's the path into `sun_path` bounded to 107
   * bytes, writes sizeof(struct sockaddr_un) to the length cell and
   * returns 0. Other families take the platform's own conversion, which
   * is not part of this model: its return code is `otherRc` and it is
   * taken to write nothing here.
   */
  method InetAddressToSockaddr(ia: InetAddress, him: SockaddrUn, len: array<int>, otherRc: int)
    returns (rc: int)
    requires him.sunPath.Length == SUN_PATH_SIZE && len.Length == 1
    modifies him, him.sunPath, len
    ensures ia.family == UNIX_FAMILY ==>
      && rc == 0
      && him.sunFamily == AF_UNIX
      && len[0] == SIZEOF_SOCKADDR_UN
      && him.sunPath[..] == StrncpyResult(old(him.sunPath[..]), CString(ia.hostAddress), SUN_PATH_COPY)
    ensures ia.family != UNIX_FAMILY ==>
      rc == otherRc && unchanged(him) && unchanged(him.sunPath) && unchanged(len)
  {
    if ia.family == UNIX_FAMILY {
      him.sunFamily := AF_UNIX;
      Strncpy(him.sunPath, CString(ia.hostAddress), SUN_PATH_COPY);
      len[0] := SIZEOF_SOCKADDR_UN;
      rc := 0;
    } else {
      rc := otherRc;
    }
  }

  /** A path without NUL bytes: the only kind a C string can carry whole. */
  predicate NulFree(path: seq<bv8>) {
    forall i :: 0 <= i < |path| ==> path[i] != 0
  }

  /**
   * The encoded `sun_path`: its first min(len, 107) bytes are the path,
   * the bytes after a shorter path up to index 106 are NUL, and byte
   * 107 keeps whatever it held.
   */
  lemma SunPathLayout(old_: seq<bv8>, path: seq<bv8>)
    requires |old_| == SUN_PATH_SIZE && NulFree(path)
    ensures var r := StrncpyResult(old_, CString(path), SUN_PATH_COPY);
      && |r| == SUN_PATH_SIZE
      && (forall i :: 0 <= i < SUN_PATH_COPY && i < |path| ==> r[i] == path[i])
      && (forall i :: |path| <= i < SUN_PATH_COPY ==> r[i] == 0)
      && r[SUN_PATH_SIZE - 1] == old_[SUN_PATH_SIZE - 1]
  {
    assert CStrLen(CString(path)) == |path|;
  }

  /** The path a `sun_path` buffer names: its bytes up to the first NUL. */
  function DecodeSunPath(buf: seq<bv8>): (p: seq<bv8>)
    ensures NulFree(p) && |p| <= |buf|
  {
    buf[..CStrLen(buf)]
  }

  /**
   * Round trip: a NUL-free path shorter than 107 bytes is read back
   * unchanged from the encoded `sun_path`, whatever the buffer held.
   */
  lemma {:induction false} SunPathRoundTrip(old_: seq<bv8>, path: seq<bv8>)
    requires |old_| == SUN_PATH_SIZE && NulFree(path) && |path| < SUN_PATH_COPY
    ensures DecodeSunPath(StrncpyResult(old_, CString(path), SUN_PATH_COPY)) == path
  {
    var r := StrncpyResult(old_, CString(path), SUN_PATH_COPY);
    SunPathLayout(old_, path);
    var n := CStrLen(r);
    assert r[|path|] == 0;
    assert n == |path|;
  }

  /**
   * A path of 107 bytes or more is cut to its first 107 bytes, and the
   * result is NUL-terminated only if byte 107 already held NUL.
   */
  lemma SunPathTruncates(old_: seq<bv8>, path: seq<bv8>)
    requires |old_| == SUN_PATH_SIZE && NulFree(path) && |path| >= SUN_PATH_COPY
    ensures var r := StrncpyResult(old_, CString(path), SUN_PATH_COPY);
      && r[..SUN_PATH_COPY] == path[..SUN_PATH_COPY]
      && (CStrLen(r) < |r| <==> old_[SUN_PATH_SIZE - 1] == 0)
  {
    var r := StrncpyResult(old_, CString(path), SUN_PATH_COPY);
    SunPathLayout(old_, path);
  }
}
