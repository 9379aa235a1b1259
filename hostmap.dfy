/**
 * The peer records and the two host maps (pending and main) that the
 * handshake manager, the inside path, the relay path and the control API
 * share. hostmap.go is not part of this model; a host map is taken to be its
 * three indices keyed by network id, and a record lives in an arena of
 * records so that two maps can name the same record.
 */
module HostMaps {
  import opened Wrappers
  import opened GoTypes

  /** The identity of a record: what a `*HostInfo` pointer is in the program. */
  type HostId = nat

  /** udp.Addr: a public IPv4 address and port. */
  datatype Addr = Addr(ip: uint32, port: nat)

  /**
   * The parts of a Noise session the core reads: whether it is ready, whether
   * its encryption key exists, and the message counter every send consumes.
   */
  datatype ConnState = ConnState(ready: bool, hasKey: bool, messageCounter: uint64)

  /** header.MessageType; header.go is not part of this model. */
  datatype MessageType =
    | HandshakeMsg | Message | RecvError | LightHouse | Test | CloseTunnel | NonTunMessage | RelayPacket

  /** A packet held back while its session is not ready. */
  datatype CachedPacket = CachedPacket(msgType: MessageType, subType: uint8, payload: seq<uint8>)

  /** HostInfo: everything the core knows about one peer. */
  datatype HostInfo = HostInfo(
    vpnIp: VpnIp, networkID: uint64,
    localIndexId: uint32, remoteIndexId: uint32,
    handshakeReady: bool, handshakeComplete: bool, handshakeCounter: int,
    handshakePacket: map<uint8, seq<uint8>>, lastHandshakeTime: int,
    remotes: Option<seq<Addr>>, remote: Option<Addr>,
    relay: uint8, relayIP: Option<VpnIp>,
    packetStore: seq<CachedPacket>, connectionState: Option<ConnState>,
    vpnMode: uint8, inBytes: uint64, outBytes: uint64,
    hsDuration: int, lastRebindCount: int, name: string)

  /** A freshly allocated record: only its address and network are known. */
  function NewHostInfo(vpnIp: VpnIp, networkID: uint64): (h: HostInfo)
    ensures h.vpnIp == vpnIp && h.networkID == networkID
    ensures !h.handshakeReady && !h.handshakeComplete && h.handshakeCounter == 0
    ensures h.connectionState.None? && h.remotes.None? && h.remote.None? && h.packetStore == []
  {
    HostInfo(vpnIp, networkID, 0, 0, false, false, 0, map[], 0, None, None, 0, None,
             [], None, 0, 0, 0, 0, 0, "")
  }

  /** HandshakePacket[k], where a missing entry reads as the nil slice. */
  function PacketAt(h: HostInfo, k: uint8): seq<uint8>
  {
    if k in h.handshakePacket then h.handshakePacket[k] else []
  }

  /** A session that can carry traffic: present, keyed and ready. */
  predicate SessionReady(h: HostInfo)
  {
    h.connectionState.Some? && h.connectionState.value.hasKey && h.connectionState.value.ready
  }

  /** The three indices of a HostMap: by address, by local index, by remote index. */
  datatype HostMap = HostMap(
    hosts: map<(uint64, VpnIp), HostId>,
    indexes: map<(uint64, uint32), HostId>,
    remoteIndexes: map<(uint64, uint32), HostId>)

  const EMPTY_HOST_MAP: HostMap := HostMap(map[], map[], map[])

  /** Every record the map names. */
  function Ids(m: HostMap): set<HostId>
  {
    m.hosts.Values + m.indexes.Values + m.remoteIndexes.Values
  }

  /** QueryVpnIp: the record registered for an address in a network, if any. */
  function QueryVpnIp(m: HostMap, networkID: uint64, vpnIp: VpnIp): (r: Option<HostId>)
    ensures r.Some? <==> (networkID, vpnIp) in m.hosts
    ensures r.Some? ==> r.value in Ids(m)
  {
    if (networkID, vpnIp) in m.hosts then Some(m.hosts[(networkID, vpnIp)]) else None
  }

  /** QueryIndex: the record registered under a local index in a network, if any. */
  function QueryIndex(m: HostMap, networkID: uint64, index: uint32): (r: Option<HostId>)
    ensures r.Some? <==> (networkID, index) in m.indexes
    ensures r.Some? ==> r.value in Ids(m)
  {
    if (networkID, index) in m.indexes then Some(m.indexes[(networkID, index)]) else None
  }

  /**
   * The three deletes of a record's keys under a network: its address, its
   * local index and its remote index, whatever they currently map to.
   */
  function Unlink(m: HostMap, networkID: uint64, h: HostInfo): (r: HostMap)
    ensures (networkID, h.vpnIp) !in r.hosts
    ensures (networkID, h.localIndexId) !in r.indexes
    ensures (networkID, h.remoteIndexId) !in r.remoteIndexes
    ensures forall k :: k in m.hosts && k != (networkID, h.vpnIp) ==> k in r.hosts && r.hosts[k] == m.hosts[k]
    ensures forall k :: k in m.indexes && k != (networkID, h.localIndexId) ==> k in r.indexes && r.indexes[k] == m.indexes[k]
    ensures forall k :: k in m.remoteIndexes && k != (networkID, h.remoteIndexId) ==>
      k in r.remoteIndexes && r.remoteIndexes[k] == m.remoteIndexes[k]
    ensures r.hosts.Keys <= m.hosts.Keys && r.indexes.Keys <= m.indexes.Keys
    ensures r.remoteIndexes.Keys <= m.remoteIndexes.Keys
    ensures Ids(r) <= Ids(m)
  {
    HostMap(m.hosts - {(networkID, h.vpnIp)}, m.indexes - {(networkID, h.localIndexId)},
            m.remoteIndexes - {(networkID, h.remoteIndexId)})
  }

  /** DeleteHostInfo: the record's keys removed under its own network. */
  function DeleteHostInfo(m: HostMap, h: HostInfo): (r: HostMap)
    ensures QueryVpnIp(r, h.networkID, h.vpnIp).None?
    ensures QueryIndex(r, h.networkID, h.localIndexId).None?
    ensures Ids(r) <= Ids(m)
  {
    Unlink(m, h.networkID, h)
  }

  /** addHostInfo: the record registered under all three of its keys in its network, replacing what was there. */
  function AddHostInfo(m: HostMap, id: HostId, h: HostInfo): (r: HostMap)
    ensures QueryVpnIp(r, h.networkID, h.vpnIp) == Some(id)
    ensures QueryIndex(r, h.networkID, h.localIndexId) == Some(id)
    ensures (h.networkID, h.remoteIndexId) in r.remoteIndexes && r.remoteIndexes[(h.networkID, h.remoteIndexId)] == id
    ensures forall k :: k in m.hosts && k != (h.networkID, h.vpnIp) ==> k in r.hosts && r.hosts[k] == m.hosts[k]
    ensures forall k :: k in m.indexes && k != (h.networkID, h.localIndexId) ==> k in r.indexes && r.indexes[k] == m.indexes[k]
    ensures Ids(r) <= Ids(m) + {id}
  {
    HostMap(m.hosts[(h.networkID, h.vpnIp) := id], m.indexes[(h.networkID, h.localIndexId) := id],
            m.remoteIndexes[(h.networkID, h.remoteIndexId) := id])
  }

  /** Deleting a record that was just added leaves no trace of its keys. */
  lemma AddThenDelete(m: HostMap, id: HostId, h: HostInfo)
    ensures DeleteHostInfo(AddHostInfo(m, id, h), h) == Unlink(m, h.networkID, h)
  {
    UpdateThenRemove(m.hosts, (h.networkID, h.vpnIp), id);
    UpdateThenRemove(m.indexes, (h.networkID, h.localIndexId), id);
    UpdateThenRemove(m.remoteIndexes, (h.networkID, h.remoteIndexId), id);
  }

  lemma UpdateThenRemove<K, V>(m: map<K, V>, k: K, v: V)
    ensures m[k := v] - {k} == m - {k}
  {
  }

  /** The records of a network in the address index, in the order a listing visits them. */
  function HostsOf(m: HostMap, networkID: uint64): (r: set<HostId>)
    ensures forall id :: id in r <==> exists ip: VpnIp :: (networkID, ip) in m.hosts && m.hosts[(networkID, ip)] == id
  {
    set k | k in m.hosts && k.0 == networkID :: m.hosts[k]
  }
  /**
   * The record a map registers under an address carries that address: what
   * ties a host map's keys to the records it names.
   */
  predicate AddressesAgree(m: HostMap, infos: map<HostId, HostInfo>)
  {
    forall k {:trigger k in m.hosts} :: k in m.hosts ==> m.hosts[k] in infos && infos[m.hosts[k]].vpnIp == k.1
  }

  /**
   * A (network, local index) key taken in both the pending and the main map
   * names the same record in each: no two records share a local index of a
   * network across pending and main.
   */
  predicate IndexesAgree(pending: HostMap, main: HostMap)
  {
    forall k :: k in pending.indexes && k in main.indexes ==> pending.indexes[k] == main.indexes[k]
  }

  /** Unlinking keeps the agreement, whatever record and network it is given. */
  lemma UnlinkAgrees(m: HostMap, infos: map<HostId, HostInfo>, networkID: uint64, h: HostInfo)
    requires AddressesAgree(m, infos)
    ensures AddressesAgree(Unlink(m, networkID, h), infos)
  {
  }

  /**
   * Under agreement, unlinking the record of an address in the address's own
   * network takes exactly that address out of the address index.
   */
  lemma UnlinkRemovesAddress(m: HostMap, infos: map<HostId, HostInfo>, k: (uint64, VpnIp))
    requires AddressesAgree(m, infos) && k in m.hosts
    ensures Unlink(m, k.0, infos[m.hosts[k]]).hosts == m.hosts - {k}
  {
  }
  /** A record that keeps its address keeps the agreement. */
  lemma UpdateAgrees(m: HostMap, infos: map<HostId, HostInfo>, id: HostId, h: HostInfo)
    requires AddressesAgree(m, infos) && id in infos && h.vpnIp == infos[id].vpnIp
    ensures AddressesAgree(m, infos[id := h])
  {
  }

  /** A record no key names yet does not disturb the agreement. */
  lemma FreshAgrees(m: HostMap, infos: map<HostId, HostInfo>, id: HostId, h: HostInfo)
    requires AddressesAgree(m, infos) && id !in infos
    ensures AddressesAgree(m, infos[id := h])
  {
  }

  /** Registering a record under its own address keeps the agreement. */
  lemma AddAgrees(m: HostMap, infos: map<HostId, HostInfo>, id: HostId, h: HostInfo)
    requires AddressesAgree(m, infos) && id in infos && infos[id].vpnIp == h.vpnIp
    ensures AddressesAgree(AddHostInfo(m, id, h), infos)
  {
  }
}
