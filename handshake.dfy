/**
 * handshake.go: what an incoming handshake packet leads to. The stages
 * themselves (handshake_ix.go) are not part of this model; the answer of
 * stage 2 (whether to tear the pending record down) is an input.
 */
module Handshake {
  import opened Wrappers
  import opened GoTypes
  import opened HostMaps

  /** Handshake subtypes; only IX with pre-shared key 0 is handled. */
  datatype HandshakeSubtype = HandshakeIXPSK0 | OtherSubtype(code: uint8)

  /** The header fields the dispatch reads. */
  datatype HandshakeHeader = HandshakeHeader(subtype: HandshakeSubtype, messageCounter: uint64,
                                             networkID: uint64, remoteIndex: uint32)

  /**
   * What happens to the packet: ignored, handed to stage 1 (with the relay
   * flag and relay address it came with), or handed to stage 2 with the
   * network it was looked up in, the pending record found there and whether
   * that record is then deleted.
   */
  datatype IncomingAction =
    | Ignore
    | Stage1(relay: uint8, relayIP: Option<VpnIp>)
    | Stage2(networkID: uint64, record: Option<HostId>, deleteRecord: bool)

  /**
   * HandleIncomingHandshake. `allowed` is the remote allow-list's answer for
   * the sender's address, `tearDown` what stage 2 answers.
   */
  function HandleIncomingHandshake(allowed: bool, h: HandshakeHeader, relay: uint8, relayIP: Option<VpnIp>,
                                   amLighthouse: bool, ownNetworkID: uint64, pending: HostMap,
                                   tearDown: bool): (r: IncomingAction)
    ensures !allowed ==> r == Ignore
    ensures allowed && h.subtype != HandshakeIXPSK0 ==> r == Ignore
    ensures r.Stage1? <==> allowed && h.subtype == HandshakeIXPSK0 && h.messageCounter == 1
    ensures r.Stage1? ==> r.relay == relay && r.relayIP == relayIP
    ensures r.Stage2? <==> allowed && h.subtype == HandshakeIXPSK0 && h.messageCounter == 2
    ensures r.Stage2? ==>
      r.networkID == (if amLighthouse then h.networkID else ownNetworkID)
      && r.record == QueryIndex(pending, r.networkID, h.remoteIndex)
      && (r.deleteRecord <==> tearDown && r.record.Some?)
  {
    if !allowed then Ignore
    else match h.subtype
      case HandshakeIXPSK0 =>
        if h.messageCounter == 1 then Stage1(relay, relayIP)
        else if h.messageCounter == 2 then
          var networkID := if !amLighthouse then ownNetworkID else h.networkID;
          var found := QueryIndex(pending, networkID, h.remoteIndex);
          Stage2(networkID, found, tearDown && found.Some?)
        else Ignore
      case OtherSubtype(_) => Ignore
  }

  /**
   * The pending map after the dispatch: only a stage-2 teardown of a found
   * record changes it, by removing that record's keys.
   */
  function PendingAfter(a: IncomingAction, pending: HostMap, infos: map<HostId, HostInfo>): (r: HostMap)
    requires a.Stage2? && a.deleteRecord ==> a.record.Some? && a.record.value in infos
    ensures !(a.Stage2? && a.deleteRecord) ==> r == pending
    ensures a.Stage2? && a.deleteRecord ==>
      QueryVpnIp(r, infos[a.record.value].networkID, infos[a.record.value].vpnIp).None?
      && Ids(r) <= Ids(pending)
  {
    if a.Stage2? && a.deleteRecord then DeleteHostInfo(pending, infos[a.record.value]) else pending
  }

  /** A record named by the pending map is in the arena, so the teardown can always be applied. */
  lemma TeardownApplies(allowed: bool, h: HandshakeHeader, relay: uint8, relayIP: Option<VpnIp>,
                        amLighthouse: bool, ownNetworkID: uint64, pending: HostMap, tearDown: bool,
                        infos: map<HostId, HostInfo>)
    requires Ids(pending) <= infos.Keys
    ensures var a := HandleIncomingHandshake(allowed, h, relay, relayIP, amLighthouse, ownNetworkID, pending, tearDown);
      a.Stage2? && a.deleteRecord ==> a.record.Some? && a.record.value in infos
  {
  }
}
