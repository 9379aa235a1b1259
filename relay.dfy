/**
 * relay.go: a RelayPacket received from a relay partner. A lighthouse passes
 * the inner packet on towards its destination; a client unwraps it and
 * handles the inner packet as if it had arrived directly, by its type.
 */
module Relay {
  import opened Wrappers
  import opened GoTypes
  import opened HostMaps
  import opened HandshakeManagement
  import Handshake
  import opened Inside

  /**
   * handleEncrypted, on which the client's inner Message, CloseTunnel and
   * NonTunMessage cases depend: it refuses a packet for which there is no
   * session or whose counter the session's replay window refuses (outside.go
   * is not part of this model; `windowOk` is the window's answer).
   */
  predicate Accepted(ci: Option<ConnState>, windowOk: bool)
  {
    ci.Some? && windowOk
  }

  /** header.HandshakeIXPSK0 is subtype 0. */
  function SubtypeOf(st: uint8): (r: Handshake.HandshakeSubtype)
    ensures r == Handshake.HandshakeIXPSK0 <==> st == 0
  {
    if st == 0 then Handshake.HandshakeIXPSK0 else Handshake.OtherSubtype(st)
  }

  /** What a client does with the inner packet of a relay packet. */
  datatype InnerAction =
    | Rejected                                  // handleEncrypted refused it
    | ToTun(record: HostId, counter: uint64)     // decryptToTun on that record
    | ViaRelayHandshake(action: Handshake.IncomingAction)
    | NotConnectedToRelay                       // a handshake through a relay we have no tunnel with
    | Close(record: HostId)                     // closeTunnel on that record, in our own network
    | Undecryptable
    | ToMessaging(vpnIp: VpnIp, body: seq<uint8>)
    | Unexpected

  /**
   * The client branch of HandleRelay. `found` is the main map's record for
   * the inner header's remote index in the inner header's network,
   * `relayVpnIp` the address of the record the relay packet came from,
   * `relayConnected` whether the main map has that address in our network,
   * and `decrypted` what decrypting a NonTunMessage gave.
   */
  function InnerActionOf(inner: WireHeader, found: Option<HostId>, infos: map<HostId, HostInfo>,
                        windowOk: bool, relayVpnIp: VpnIp, relayConnected: bool, allowed: bool,
                        ownNetworkID: uint64, pending: HostMap, tearDown: bool,
                        decrypted: Option<seq<uint8>>): (r: InnerAction)
    requires found.Some? ==> found.value in infos
    ensures var ci := if found.Some? then infos[found.value].connectionState else None;
      (r.ToTun? || r.Close? || r.ToMessaging? || r.Undecryptable? ==> Accepted(ci, windowOk) && found.Some?)
      && (r == Rejected <==> inner.msgType in {Message, CloseTunnel, NonTunMessage} && !Accepted(ci, windowOk))
    ensures r.ToTun? <==> inner.msgType == Message && r != Rejected
    ensures r.ToTun? ==> Some(r.record) == found && r.counter == inner.counter
    ensures r.Close? <==> inner.msgType == CloseTunnel && r != Rejected
    ensures r.Close? ==> Some(r.record) == found
    ensures inner.msgType == NonTunMessage && r != Rejected ==>
      (decrypted.None? <==> r == Undecryptable)
      && (decrypted.Some? ==> r == ToMessaging(infos[found.value].vpnIp, decrypted.value))
    ensures inner.msgType == HandshakeMsg ==>
      (relayConnected <==> r.ViaRelayHandshake?)
      && (r.ViaRelayHandshake? ==>
            r.action == Handshake.HandleIncomingHandshake(
              allowed, Handshake.HandshakeHeader(SubtypeOf(inner.subType), inner.counter, inner.networkID, inner.remoteIndex),
              1, Some(relayVpnIp), false, ownNetworkID, pending, tearDown))
      && (r.ViaRelayHandshake? && r.action.Stage1? ==> r.action.relay == 1 && r.action.relayIP == Some(relayVpnIp))
    ensures inner.msgType !in {Message, HandshakeMsg, CloseTunnel, NonTunMessage} <==> r == Unexpected
  {
    var ci := if found.Some? then infos[found.value].connectionState else None;
    match inner.msgType
    case Message =>
      if !Accepted(ci, windowOk) then Rejected else ToTun(found.value, inner.counter)
    case HandshakeMsg =>
      if relayConnected then
        ViaRelayHandshake(Handshake.HandleIncomingHandshake(
          allowed, Handshake.HandshakeHeader(SubtypeOf(inner.subType), inner.counter, inner.networkID, inner.remoteIndex),
          1, Some(relayVpnIp), false, ownNetworkID, pending, tearDown))
      else NotConnectedToRelay
    case CloseTunnel =>
      if !Accepted(ci, windowOk) then Rejected else Close(found.value)
    case NonTunMessage =>
      if !Accepted(ci, windowOk) then Rejected
      else if decrypted.None? then Undecryptable
      else ToMessaging(infos[found.value].vpnIp, decrypted.value)
    case _ => Unexpected
  }

  /** What HandleRelay did. */
  datatype RelayOutcome =
    | Forwarded(err: Option<string>)   // lighthouse: SendRelay towards the destination
    | NoDestination                    // lighthouse: no record for the destination
    | Client(action: InnerAction)

  /**
   * HandleRelay. `outer` is the relay packet's header, `packetLen` the
   * length of the whole received packet, `inner` the bytes after the outer
   * header and `innerHeader` what parsing them gives. A lighthouse forwards
   * `inner` as a RelayPacket, keeping the outer header's addresses and ports,
   * through the record its main map has for the destination in the outer
   * header's network. A client acts on the inner packet as ApplyInner
   * does.
   */
  method HandleRelay(f: Interface, outer: WireHeader, packetLen: nat, inner: Packet, innerHeader: WireHeader,
                     relayVpnIp: VpnIp, windowOk: bool, allowed: bool, tearDown: bool,
                     decrypted: Option<seq<uint8>>, writeErr: Option<string>) returns (outcome: RelayOutcome)
    requires f.Valid()
    modifies f, f.hm
    ensures f.Valid()
    ensures f.hm.amLighthouse ==> outcome.Forwarded? || outcome.NoDestination?
    ensures f.hm.amLighthouse ==>
      (outcome.NoDestination? <==> f.LookupIn(old(f.hm.main), outer.destIP, outer.networkID).None?)
    ensures outcome.NoDestination? ==> f.wire == old(f.wire)
    ensures outcome.Forwarded? ==>
      var via := f.LookupIn(old(f.hm.main), outer.destIP, outer.networkID);
      via.Some? && via.value in old(f.hm.infos)
      && RelaySent(old(f.hm.infos), f.hm.infos, via, old(f.wire), f.wire, RelayPacket, 0, inner,
                   outer.destIP, outer.sourceIP, outer.destPort, outer.sourcePort)
      && (old(f.hm.infos)[via.value].remote.None? ==> outcome.err == Some("remotes from Relayhostinfo is nil"))
      && (old(f.hm.infos)[via.value].remote.Some? && old(f.hm.infos)[via.value].connectionState.Some? ==>
            outcome.err == writeErr)
    ensures f.hm.amLighthouse ==> f.hm.main == old(f.hm.main)
    ensures !f.hm.amLighthouse ==>
      var found := QueryIndex(old(f.hm.main), innerHeader.networkID, innerHeader.remoteIndex);
      outcome == Client(InnerActionOf(innerHeader, found, old(f.hm.infos), windowOk, relayVpnIp,
                                     old(f.AmIConnectedWithThisIP(relayVpnIp)), allowed, f.networkID, old(f.hm.pending),
                                     tearDown, decrypted))
      && f.wire == old(f.wire)
      && InnerApplied(outcome.action, f.networkID, packetLen, old(f.hm.infos), f.hm.infos,
                      old(f.hm.main), f.hm.main, old(f.hm.pending), f.hm.pending)
    ensures f.hm.amLighthouse ==> f.hm.pending == old(f.hm.pending)
  {
    if f.hm.amLighthouse {
      outcome := Forward(f, outer, inner, writeErr);
      return;
    }
    var action := ActOnInner(f, packetLen, innerHeader, relayVpnIp, windowOk, allowed, tearDown, decrypted);
    outcome := Client(action);
  }

  /**
   * The client branch of HandleRelay: the inner action InnerActionOf
   * chooses for the record the inner header names, carried out.
   */
  method ActOnInner(f: Interface, packetLen: nat, innerHeader: WireHeader, relayVpnIp: VpnIp, windowOk: bool,
                    allowed: bool, tearDown: bool, decrypted: Option<seq<uint8>>) returns (action: InnerAction)
    requires f.Valid()
    modifies f.hm
    ensures f.Valid()
    ensures var found := QueryIndex(old(f.hm.main), innerHeader.networkID, innerHeader.remoteIndex);
      action == InnerActionOf(innerHeader, found, old(f.hm.infos), windowOk, relayVpnIp,
                              old(f.AmIConnectedWithThisIP(relayVpnIp)), allowed, f.networkID, old(f.hm.pending),
                              tearDown, decrypted)
    ensures InnerApplied(action, f.networkID, packetLen, old(f.hm.infos), f.hm.infos,
                         old(f.hm.main), f.hm.main, old(f.hm.pending), f.hm.pending)
  {
    var found := QueryIndex(f.hm.main, innerHeader.networkID, innerHeader.remoteIndex);
    action := InnerActionOf(innerHeader, found, f.hm.infos, windowOk, relayVpnIp, f.AmIConnectedWithThisIP(relayVpnIp),
                            allowed, f.networkID, f.hm.pending, tearDown, decrypted);
    ApplyInner(f, action, packetLen);
  }

  /**
   * The lighthouse branch of HandleRelay: `inner` goes on as a RelayPacket,
   * with the outer header's addresses and ports, through the record the main
   * map has for the destination in the outer header's network.
   */
  method Forward(f: Interface, outer: WireHeader, inner: Packet, writeErr: Option<string>) returns (outcome: RelayOutcome)
    requires f.Valid() && f.hm.amLighthouse
    modifies f, f.hm
    ensures f.Valid()
    ensures outcome.Forwarded? || outcome.NoDestination?
    ensures outcome.NoDestination? <==> f.LookupIn(old(f.hm.main), outer.destIP, outer.networkID).None?
    ensures outcome.NoDestination? ==> f.wire == old(f.wire)
    ensures outcome.Forwarded? ==>
      var via := f.LookupIn(old(f.hm.main), outer.destIP, outer.networkID);
      via.Some? && via.value in old(f.hm.infos)
      && RelaySent(old(f.hm.infos), f.hm.infos, via, old(f.wire), f.wire, RelayPacket, 0, inner,
                   outer.destIP, outer.sourceIP, outer.destPort, outer.sourcePort)
      && (old(f.hm.infos)[via.value].remote.None? ==> outcome.err == Some("remotes from Relayhostinfo is nil"))
      && (old(f.hm.infos)[via.value].remote.Some? && old(f.hm.infos)[via.value].connectionState.Some? ==>
            outcome.err == writeErr)
    ensures f.hm.main == old(f.hm.main) && f.hm.pending == old(f.hm.pending)
  {
    ghost var infos0 := f.hm.infos;
    var dest := f.Lookup(outer.destIP, outer.networkID);
    if dest.None? {
      return NoDestination;
    }
    ghost var infos1 := f.hm.infos;
    ghost var wire1 := f.wire;
    var err, via := f.SendRelay(RelayPacket, 0, inner, outer.destIP, outer.sourceIP, outer.destPort, outer.sourcePort,
                                outer.networkID, None, writeErr);
    RelaySentModes(infos0, infos1, f.hm.infos, via, wire1, f.wire, RelayPacket, 0, inner,
                   outer.destIP, outer.sourceIP, outer.destPort, outer.sourcePort);
    return Forwarded(err);
  }

  /**
   * The effect of a client's inner action on the tables: a Message adds the
   * packet's length to the record's received bytes, a CloseTunnel unlinks
   * the record from the main map in our own network, and a relayed
   * handshake's stage-2 teardown deletes the pending record; nothing else
   * changes.
   */
  predicate InnerApplied(a: InnerAction, networkID: uint64, packetLen: nat,
                         infos0: map<HostId, HostInfo>, infos1: map<HostId, HostInfo>,
                         main0: HostMap, main1: HostMap, pending0: HostMap, pending1: HostMap)
  {
    (a.ToTun? ==>
       a.record in infos0
       && infos1 == infos0[a.record := infos0[a.record].(inBytes := AddU64(infos0[a.record].inBytes, packetLen % TWO_64))])
    && (!a.ToTun? ==> infos1 == infos0)
    && (a.Close? ==> a.record in infos0 && main1 == Unlink(main0, networkID, infos0[a.record]))
    && (!a.Close? ==> main1 == main0)
    && (a.ViaRelayHandshake? ==>
          (a.action.Stage2? && a.action.deleteRecord ==> a.action.record.Some? && a.action.record.value in infos0)
          && pending1 == Handshake.PendingAfter(a.action, pending0, infos0))
    && (!a.ViaRelayHandshake? ==> pending1 == pending0)
  }

  /** Carries out an inner action InnerActionOf chose for a record of the tables. */
  method ApplyInner(f: Interface, a: InnerAction, packetLen: nat)
    requires f.Valid()
    requires a.ToTun? || a.Close? ==> a.record in f.hm.infos
    requires a.ViaRelayHandshake? && a.action.Stage2? && a.action.deleteRecord ==>
      a.action.record.Some? && a.action.record.value in f.hm.infos
    modifies f.hm
    ensures f.Valid()
    ensures InnerApplied(a, f.networkID, packetLen, old(f.hm.infos), f.hm.infos,
                         old(f.hm.main), f.hm.main, old(f.hm.pending), f.hm.pending)
  {
    if a.ToTun? {
      var h := f.hm.infos[a.record];
      f.PutRecord(a.record, h.(inBytes := AddU64(h.inBytes, packetLen % TWO_64)));
    } else if a.Close? {
      f.CloseTunnel(a.record, f.networkID);
    } else if a.ViaRelayHandshake? && a.action.Stage2? && a.action.deleteRecord {
      f.hm.DeletePending(a.action.record.value);
    }
  }
}
