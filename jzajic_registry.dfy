/**
 * The socket-option registry of the standalone library
 * (net.jzajic.graalvm.posix.SocketOptionRegistry): sixteen entries,
 * including the Unix-only SO_PEERCRED and the receive timeout.
 */
module JzajicOptionRegistry {
  import opened Wrappers
  import opened Nio
  import opened SocketOptions

  /** The `put` calls of `options()`, in order. */
  const Puts: seq<Put> := [
    Put(RegistryKey(SO_BROADCAST, UNSPEC), OptionKey(SOL_SOCKET, SO_BROADCAST_NAME)),
    Put(RegistryKey(SO_KEEPALIVE, UNSPEC), OptionKey(SOL_SOCKET, SO_KEEPALIVE_NAME)),
    Put(RegistryKey(SO_LINGER, UNSPEC), OptionKey(SOL_SOCKET, SO_LINGER_NAME)),
    Put(RegistryKey(SO_SNDBUF, UNSPEC), OptionKey(SOL_SOCKET, SO_SNDBUF_NAME)),
    Put(RegistryKey(SO_RCVBUF, UNSPEC), OptionKey(SOL_SOCKET, SO_RCVBUF_NAME)),
    Put(RegistryKey(SO_REUSEADDR, UNSPEC), OptionKey(SOL_SOCKET, SO_REUSEADDR_NAME)),
    Put(RegistryKey(TCP_NODELAY, UNSPEC), OptionKey(6, TCP_NODELAY_NAME)),
    Put(RegistryKey(IP_TOS, INET), OptionKey(0, IP_TOS_NAME)),
    Put(RegistryKey(IP_MULTICAST_IF, INET), OptionKey(0, IP_MULTICAST_IF_NAME)),
    Put(RegistryKey(IP_MULTICAST_TTL, INET), OptionKey(0, IP_MULTICAST_TTL_NAME)),
    Put(RegistryKey(IP_MULTICAST_LOOP, INET), OptionKey(0, IP_MULTICAST_LOOP_NAME)),
    Put(RegistryKey(IP_MULTICAST_IF, INET6), OptionKey(41, IPV6_MULTICAST_IF_NAME)),
    Put(RegistryKey(IP_MULTICAST_TTL, INET6), OptionKey(41, IPV6_MULTICAST_HOPS_NAME)),
    Put(RegistryKey(IP_MULTICAST_LOOP, INET6), OptionKey(41, IPV6_MULTICAST_LOOP_NAME)),
    Put(RegistryKey(SO_PEERCRED, UNIX), OptionKey(SOL_SOCKET, 17)),
    Put(RegistryKey(SO_RCVTIMEO, UNSPEC), OptionKey(SOL_SOCKET, SO_RCVTIMEO_NAME))
  ]

  /** The table, built once from the puts and only read afterwards. */
  function Options(): map<RegistryKey, OptionKey> {
    Build(Puts)
  }

  /**
   * findOption: a present result is the value some put gave for exactly
   * this (option, family) pair; an absent result (null) means no put
   * used the pair.
   */
  function FindOption(name: SocketOption, family: ProtocolFamily): (r: Option<OptionKey>)
    ensures r.Some? ==> exists i :: 0 <= i < |Puts| && Puts[i] == Put(RegistryKey(name, family), r.value)
    ensures r.None? ==> forall i :: 0 <= i < |Puts| ==> Puts[i].key != RegistryKey(name, family)
  {
    var key := RegistryKey(name, family);
    BuildKeys(Puts);
    if key in Options() then
      (TableDistinct();
       var i :| 0 <= i < |Puts| && Puts[i].key == key;
       BuildLookup(Puts, i);
       Some(Options()[key]))
    else None
  }

  /** No two puts share a key. */
  lemma TableDistinct()
    ensures DistinctKeys(Puts)
  {
  }

  /** The table has exactly sixteen entries: no put overwrites another. */
  lemma TableSize()
    ensures |Options()| == 16
  {
    TableDistinct();
    BuildSize(Puts);
  }

  /** Every put is found again unchanged. */
  lemma FindOptionPut(i: nat)
    requires i < |Puts|
    ensures FindOption(Puts[i].key.name, Puts[i].key.family) == Some(Puts[i].value)
  {
    TableDistinct();
    BuildLookup(Puts, i);
  }

  /** A pair that no put used is not found. */
  lemma FindOptionMissing(name: SocketOption, family: ProtocolFamily)
    requires forall i :: 0 <= i < |Puts| ==> Puts[i].key != RegistryKey(name, family)
    ensures FindOption(name, family) == None
  {
  }

  /** SO_PEERCRED resolves only under UNIX, to (SOL_SOCKET, 17). */
  lemma PeerCredOnlyUnix(family: ProtocolFamily)
    ensures FindOption(SO_PEERCRED, family) ==
            (if family == UNIX then Some(OptionKey(SOL_SOCKET, 17)) else None)
  {
    if family == UNIX {
      FindOptionPut(14);
    }
  }

  /** Keys match on option and family together: the same option differs per family. */
  lemma MulticastTtlPerFamily()
    ensures FindOption(IP_MULTICAST_TTL, INET) == Some(OptionKey(0, IP_MULTICAST_TTL_NAME))
    ensures FindOption(IP_MULTICAST_TTL, INET6) == Some(OptionKey(41, IPV6_MULTICAST_HOPS_NAME))
    ensures FindOption(IP_MULTICAST_TTL, UNSPEC) == None
  {
    FindOptionPut(9);
    FindOptionPut(12);
  }

  /** The protocol levels: TCP_NODELAY at 6, IPv4 options at 0, IPv6 multicast options at 41. */
  lemma Levels(name: SocketOption)
    ensures FindOption(TCP_NODELAY, UNSPEC) == Some(OptionKey(6, TCP_NODELAY_NAME))
    ensures FindOption(name, INET).Some? ==> FindOption(name, INET).value.level == 0
    ensures FindOption(name, INET6).Some? ==> FindOption(name, INET6).value.level == 41
  {
    FindOptionPut(6);
  }

  /** SO_KEEPALIVE under UNSPEC gives (SOL_SOCKET, SO_KEEPALIVE). */
  lemma KeepAlive()
    ensures FindOption(SO_KEEPALIVE, UNSPEC) == Some(OptionKey(SOL_SOCKET, SO_KEEPALIVE_NAME))
  {
    FindOptionPut(1);
  }
}
