/**
 * The socket-option registry of the runtime substitution layer
 * (com.oracle.svm.core.posix.SocketOptionRegistry): the fourteen
 * standard entries, without SO_PEERCRED or a receive timeout.
 */
module SvmOptionRegistry {
  import opened Wrappers
  import opened Nio
  import opened SocketOptions

  /** The `put` calls of `options()`, in order. */
  const Puts: seq<Put> := [
    Put(RegistryKey(SO_BROADCAST, UNSPEC), OptionKey(SOL_SOCKET, SO_BROADCAST_NAME)),
    Put(RegistryKey(SO_KEEPALIVE, UNSPEC), OptionKey(SOL_SOCKET, SO_KEEPALIVE_NAME)),
    Put(RegistryKey(SO_LINGER, UNSPEC), OptionKey(SOL_SOCKET, SO_LINGER_NAME)),
    Put(RegistryKey(SO_SNDBUF, UNSPEC), OptionKey(SOL_SOCKET, SO_SNDBUF_NAME)),
    Put(RegistryKey(SO_RCVBUF, UNSPEC), OptionKey(SOL_SOCKET, SO_RCVBUF_NAME)),
    Put(RegistryKey(SO_REUSEADDR, UNSPEC), OptionKey(SOL_SOCKET, SO_REUSEADDR_NAME)),
    Put(RegistryKey(TCP_NODELAY, UNSPEC), OptionKey(6, TCP_NODELAY_NAME)),
    Put(RegistryKey(IP_TOS, INET), OptionKey(0, IP_TOS_NAME)),
    Put(RegistryKey(IP_MULTICAST_IF, INET), OptionKey(0, IP_MULTICAST_IF_NAME)),
    Put(RegistryKey(IP_MULTICAST_TTL, INET), OptionKey(0, IP_MULTICAST_TTL_NAME)),
    Put(RegistryKey(IP_MULTICAST_LOOP, INET), OptionKey(0, IP_MULTICAST_LOOP_NAME)),
    Put(RegistryKey(IP_MULTICAST_IF, INET6), OptionKey(41, IPV6_MULTICAST_IF_NAME)),
    Put(RegistryKey(IP_MULTICAST_TTL, INET6), OptionKey(41, IPV6_MULTICAST_HOPS_NAME)),
    Put(RegistryKey(IP_MULTICAST_LOOP, INET6), OptionKey(41, IPV6_MULTICAST_LOOP_NAME))
  ]

  /** The table, built once from the puts and never changed afterwards. */
  function Options(): map<RegistryKey, OptionKey> {
    Build(Puts)
  }

  /**
   * findOption: a present result is the value some put gave for exactly
   * this (option, family) pair; an absent result (null) means no put
   * used the pair.
   */
  function FindOption(name: SocketOption, family: ProtocolFamily): (r: Option<OptionKey>)
    ensures r.Some? ==> exists i :: 0 <= i < |Puts| && Puts[i] == Put(RegistryKey(name, family), r.value)
    ensures r.None? ==> forall i :: 0 <= i < |Puts| ==> Puts[i].key != RegistryKey(name, family)
  {
    var key := RegistryKey(name, family);
    BuildKeys(Puts);
    if key in Options() then
      (TableDistinct();
       var i :| 0 <= i < |Puts| && Puts[i].key == key;
       BuildLookup(Puts, i);
       Some(Options()[key]))
    else None
  }

  /** No two puts share a key. */
  lemma TableDistinct()
    ensures DistinctKeys(Puts)
  {
  }

  /** The table has exactly fourteen entries. */
  lemma TableSize()
    ensures |Options()| == 14
  {
    TableDistinct();
    BuildSize(Puts);
  }

  /** Every put is found again unchanged. */
  lemma FindOptionPut(i: nat)
    requires i < |Puts|
    ensures FindOption(Puts[i].key.name, Puts[i].key.family) == Some(Puts[i].value)
  {
    TableDistinct();
    BuildLookup(Puts, i);
  }

  /** There is no SO_PEERCRED and no SO_RCVTIMEO entry under any family. */
  lemma NoPeerCredNoTimeout(family: ProtocolFamily)
    ensures FindOption(SO_PEERCRED, family) == None
    ensures FindOption(SO_RCVTIMEO, family) == None
  {
  }

  /** IP_TOS resolves only under INET, to (0, IP_TOS). */
  lemma IpTosOnlyInet(family: ProtocolFamily)
    ensures FindOption(IP_TOS, family) ==
            (if family == INET then Some(OptionKey(0, IP_TOS_NAME)) else None)
  {
    if family == INET {
      FindOptionPut(7);
    }
  }

  /** The multicast options resolve under both INET and INET6, at levels 0 and 41. */
  lemma MulticastLevels(name: SocketOption)
    requires name == IP_MULTICAST_IF || name == IP_MULTICAST_TTL || name == IP_MULTICAST_LOOP
    ensures FindOption(name, INET).Some? && FindOption(name, INET).value.level == 0
    ensures FindOption(name, INET6).Some? && FindOption(name, INET6).value.level == 41
  {
    if name == IP_MULTICAST_IF {
      FindOptionPut(8); FindOptionPut(11);
    } else if name == IP_MULTICAST_TTL {
      FindOptionPut(9); FindOptionPut(12);
    } else {
      FindOptionPut(10); FindOptionPut(13);
    }
  }
}
