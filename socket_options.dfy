/**
 * The shape shared by the two socket-option registries: a table from
 * (option, protocol family) to the (level, name) pair passed to
 * getsockopt/setsockopt, built once by a fixed list of `put`s and then
 * only read.
 */
module SocketOptions {
  import opened Wrappers
  import opened Nio

  // OsConstants: Linux values of the levels and option names.
  const SOL_SOCKET: int := 1
  const SO_REUSEADDR_NAME: int := 2
  const SO_BROADCAST_NAME: int := 6
  const SO_SNDBUF_NAME: int := 7
  const SO_RCVBUF_NAME: int := 8
  const SO_KEEPALIVE_NAME: int := 9
  const SO_LINGER_NAME: int := 13
  const SO_RCVTIMEO_NAME: int := 20
  const TCP_NODELAY_NAME: int := 1
  const IP_TOS_NAME: int := 1
  const IP_MULTICAST_IF_NAME: int := 32
  const IP_MULTICAST_TTL_NAME: int := 33
  const IP_MULTICAST_LOOP_NAME: int := 34
  const IPV6_MULTICAST_IF_NAME: int := 17
  const IPV6_MULTICAST_HOPS_NAME: int := 18
  const IPV6_MULTICAST_LOOP_NAME: int := 19

  /** The protocol families a registry key can name; UNSPEC is "any family". */
  datatype ProtocolFamily = UNSPEC | INET | INET6 | UNIX

  /** OptionKey: the (level, name) pair of a socket option. */
  datatype OptionKey = OptionKey(level: int, name: int)

  /** RegistryKey: an option together with the family it is registered under. */
  datatype RegistryKey = RegistryKey(name: SocketOption, family: ProtocolFamily)

  /**
   * RegistryKey.equals: `ob` is the other object, `None` standing for
   * null or for an object that is not a RegistryKey. Options and
   * families are singletons, so the reference comparisons are value
   * comparisons.
   */
  function KeyEquals(k: RegistryKey, ob: Option<RegistryKey>): (r: bool)
    ensures r <==> ob == Some(k)
  {
    if ob.None? then false
    else if k.name != ob.value.name then false
    else if k.family != ob.value.family then false
    else true
  }

  /** One `map.put(key, value)` call. */
  datatype Put = Put(key: RegistryKey, value: OptionKey)

  /** The HashMap after the given `put`s have run in order (a later put wins). */
  function Build(puts: seq<Put>): map<RegistryKey, OptionKey>
  {
    if puts == [] then map[]
    else Build(puts[..|puts| - 1])[puts[|puts| - 1].key := puts[|puts| - 1].value]
  }

  /** No two `put`s use the same key, so none overwrites another. */
  predicate DistinctKeys(puts: seq<Put>) {
    forall i, j :: 0 <= i < j < |puts| ==> puts[i].key != puts[j].key
  }

  /** The keys a list of `put`s uses. */
  function PutKeys(puts: seq<Put>): set<RegistryKey> {
    set p | p in puts :: p.key
  }

  /** The table holds exactly the keys that were put. */
  lemma {:induction false} BuildKeys(puts: seq<Put>)
    ensures Build(puts).Keys == PutKeys(puts)
  {
    if puts != [] {
      var init, last := puts[..|puts| - 1], puts[|puts| - 1];
      BuildKeys(init);
      assert puts == init + [last];
      assert PutKeys(puts) == PutKeys(init) + {last.key};
    }
  }

  /** With distinct keys every lookup returns the value its own put gave. */
  lemma {:induction false} BuildLookup(puts: seq<Put>, i: nat)
    requires DistinctKeys(puts)
    requires i < |puts|
    ensures puts[i].key in Build(puts) && Build(puts)[puts[i].key] == puts[i].value
  {
    var init := puts[..|puts| - 1];
    if i < |puts| - 1 {
      assert init[i] == puts[i];
      BuildLookup(init, i);
    }
  }

  /** With distinct keys the table has one entry per put. */
  lemma {:induction false} BuildSize(puts: seq<Put>)
    requires DistinctKeys(puts)
    ensures |Build(puts)| == |puts|
  {
    if puts != [] {
      var init, last := puts[..|puts| - 1], puts[|puts| - 1];
      BuildSize(init);
      BuildKeys(init);
      assert last.key !in PutKeys(init);
    }
  }

  /** A key no put used is absent from the table. */
  lemma BuildMissing(puts: seq<Put>, k: RegistryKey)
    requires forall i :: 0 <= i < |puts| ==> puts[i].key != k
    ensures k !in Build(puts)
  {
    BuildKeys(puts);
  }
}
