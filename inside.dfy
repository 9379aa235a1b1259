/**
 * inside.go: packets from the tun device and in-tunnel messages on their way
 * out. The drop rules, finding or starting a tunnel, the per-send message
 * counter, the relay hop, and the choice of the relay (lighthouse) host.
 */
module Inside {
  import opened Wrappers
  import opened GoTypes
  import opened HostMaps
  import opened HandshakeManagement

  /**
   * isMulticast: the top octet, masked with 0xf0, is 0xe0; that is, the
   * address lies in 224.0.0.0/4.
   */
  function IsMulticast(ip: VpnIp): (r: bool)
    ensures r <==> 0xE000_0000 <= ip < 0xF000_0000
  {
    var top := (ip / 0x100_0000) % 0x100;
    top - top % 0x10 == 0xe0
  }

  /** An IPv4 network as the tun device's CIDR: its address and prefix length. */
  datatype Cidr4 = Cidr4(network: VpnIp, bits: nat)

  /** The address with its low `drop` bits shifted out. */
  function Prefix(ip: nat, drop: nat): nat
    decreases drop
  {
    if drop == 0 then ip else Prefix(ip / 2, drop - 1)
  }

  /**
   * vpnCidr.Contains(ip.ToIP()): the address agrees with the network on the
   * first `bits` bits.
   */
  predicate InCidr(c: Cidr4, ip: VpnIp)
  {
    c.bits <= 32 && Prefix(ip, 32 - c.bits) == Prefix(c.network, 32 - c.bits)
  }

  /** The header fields header.Encode writes. */
  datatype WireHeader = WireHeader(msgType: MessageType, subType: uint8, remoteIndex: uint32, counter: uint64,
                                   destIP: uint32, sourceIP: uint32, destPort: nat, sourcePort: nat,
                                   networkID: uint64)

  /**
   * What goes on the wire: raw handshake bytes, a header followed by a
   * payload sealed under the header's counter, or a relay header followed by
   * an inner packet carried as it is.
   */
  datatype Packet =
    | Raw(bytes: seq<uint8>)
    | Sealed(header: WireHeader, plaintext: seq<uint8>)
    | Relayed(header: WireHeader, inner: Packet)

  /** A packet handed to a UDP writer, with its destination. */
  datatype Datagram = Datagram(to: Addr, packet: Packet)

  /**
   * sendNoMetrics on the record it sends with. Without a keyed session
   * nothing happens. Otherwise the counter is advanced once, before
   * encryption, so a failed encryption still uses up its value; a rebind
   * since the record's last send asks the lighthouse again (except for a
   * close); and a sealed packet carries the new counter and counts its
   * plaintext length in out_bytes.
   */
  datatype Seal = Seal(info: HostInfo, query: bool, sealed: Option<Packet>)

  predicate Keyed(h: HostInfo)
  {
    h.connectionState.Some? && h.connectionState.value.hasKey
  }

  function SealStep(h: HostInfo, t: MessageType, st: uint8, p: seq<uint8>, rebindCount: int, encryptOk: bool): (s: Seal)
    ensures !Keyed(h) ==> s == Seal(h, false, None)
    ensures Keyed(h) ==>
      var c := AddU64(h.connectionState.value.messageCounter, 1);
      s.info.connectionState == Some(h.connectionState.value.(messageCounter := c))
      && (s.query <==> t != CloseTunnel && h.lastRebindCount != rebindCount)
      && s.info.lastRebindCount == (if s.query then rebindCount else h.lastRebindCount)
      && (s.sealed.Some? <==> encryptOk)
      && (encryptOk ==> s.sealed.value == Sealed(WireHeader(t, st, h.remoteIndexId, c, 0, 0, 0, 0, h.networkID), p))
      && s.info.outBytes == (if encryptOk then AddU64(h.outBytes, |p| % TWO_64) else h.outBytes)
      && s.info == h.(connectionState := s.info.connectionState, lastRebindCount := s.info.lastRebindCount,
                      outBytes := s.info.outBytes)
  {
    if !Keyed(h) then Seal(h, false, None)
    else
      var c := AddU64(h.connectionState.value.messageCounter, 1);
      var h1 := h.(connectionState := Some(h.connectionState.value.(messageCounter := c)));
      var query := t != CloseTunnel && h.lastRebindCount != rebindCount;
      var h2 := if query then h1.(lastRebindCount := rebindCount) else h1;
      if !encryptOk then Seal(h2, query, None)
      else Seal(h2.(outBytes := AddU64(h2.outBytes, |p| % TWO_64)), query,
                Some(Sealed(WireHeader(t, st, h.remoteIndexId, c, 0, 0, 0, 0, h.networkID), p)))
  }

  /** Sealing changes neither the record's address nor its session's presence and readiness. */
  lemma SealKeepsSessions(infos: map<HostId, HostInfo>, hid: HostId, t: MessageType, st: uint8, p: seq<uint8>,
                          rebindCount: int, encryptOk: bool)
    requires hid in infos
    ensures SameSessions(infos, infos[hid := SealStep(infos[hid], t, st, p, rebindCount, encryptOk).info])
  {
    var h := infos[hid];
    var r := SealStep(h, t, st, p, rebindCount, encryptOk).info;
    assert r.vpnIp == h.vpnIp && (r.connectionState.Some? <==> h.connectionState.Some?);
    assert r.connectionState.Some? ==> r.connectionState.value.ready == h.connectionState.value.ready;
  }

  /**
   * Two successive sends on the same session never seal under the same
   * counter value (short of the 64-bit counter wrapping around).
   */
  lemma SuccessiveSealsDiffer(h: HostInfo, t1: MessageType, st1: uint8, p1: seq<uint8>, t2: MessageType, st2: uint8,
                              p2: seq<uint8>, rebindCount: int)
    requires Keyed(h) && h.connectionState.value.messageCounter + 2 < TWO_64
    ensures var s1 := SealStep(h, t1, st1, p1, rebindCount, true);
      var s2 := SealStep(s1.info, t2, st2, p2, rebindCount, true);
      s1.sealed.Some? && s2.sealed.Some?
      && s1.sealed.value.header.counter < s2.sealed.value.header.counter
  {
  }

  /** The reason a tun packet is dropped before a tunnel is looked up. */
  datatype InsideOutcome =
    | Malformed | DropBroadcast | DropSelf | DropMulticast | NoRoute | NilSession | NotReady | Sent

  /**
   * The first drop rules of consumeInsidePacket, in their order: the local
   * broadcast address when dropping those, our own address, and multicast
   * when dropping those.
   */
  function EarlyDrop(remote: VpnIp, dropLocalBroadcast: bool, localBroadcast: VpnIp, myVpnIp: VpnIp,
                     dropMulticast: bool): (r: Option<InsideOutcome>)
    ensures r.None? <==> !(dropLocalBroadcast && remote == localBroadcast) && remote != myVpnIp
                         && !(dropMulticast && 0xE000_0000 <= remote < 0xF000_0000)
    ensures r.Some? ==> r.value in {DropBroadcast, DropSelf, DropMulticast}
    ensures remote == myVpnIp && !(dropLocalBroadcast && remote == localBroadcast) ==> r == Some(DropSelf)
  {
    if dropLocalBroadcast && remote == localBroadcast then Some(DropBroadcast)
    else if remote == myVpnIp then Some(DropSelf)
    else if dropMulticast && IsMulticast(remote) then Some(DropMulticast)
    else None
  }

  /** What SendMessageToVpnIp did with its message. */
  datatype MessageOutcome = Dropped | Cached | Handed

  /** Whether a record can serve as relay host: present in main, not 0.0.0.0, with a ready session. */
  predicate RelayCandidate(ip: VpnIp, main: HostMap, infos: map<HostId, HostInfo>, networkID: uint64)
  {
    ip != 0 && (networkID, ip) in main.hosts && main.hosts[(networkID, ip)] in infos
    && infos[main.hosts[(networkID, ip)]].connectionState.Some?
    && infos[main.hosts[(networkID, ip)]].connectionState.value.ready
  }

  /**
   * The best relay host among the lighthouse addresses, scanning in order:
   * a candidate replaces the best so far only when its hsDuration is
   * strictly smaller, so the first of equals wins.
   */
  function BestRelay(ips: seq<VpnIp>, main: HostMap, infos: map<HostId, HostInfo>, networkID: uint64): (r: Option<HostId>)
    ensures r.Some? ==> r.value in infos
  {
    if |ips| == 0 then None
    else
      var prev := BestRelay(ips[..|ips| - 1], main, infos, networkID);
      var ip := ips[|ips| - 1];
      if !RelayCandidate(ip, main, infos, networkID) then prev
      else
        var id := main.hosts[(networkID, ip)];
        if prev.None? || infos[prev.value].hsDuration > infos[id].hsDuration then Some(id) else prev
  }

  /**
   * The candidate at index i has the record id, an hsDuration no candidate
   * beats, and one every earlier candidate exceeds.
   */
  predicate FirstMinimumAt(ips: seq<VpnIp>, main: HostMap, infos: map<HostId, HostInfo>, networkID: uint64, i: int,
                           id: HostId)
  {
    0 <= i < |ips| && RelayCandidate(ips[i], main, infos, networkID) && main.hosts[(networkID, ips[i])] == id
    && (forall j :: 0 <= j < |ips| && RelayCandidate(ips[j], main, infos, networkID) ==>
          infos[id].hsDuration <= infos[main.hosts[(networkID, ips[j])]].hsDuration)
    && (forall j :: 0 <= j < i && RelayCandidate(ips[j], main, infos, networkID) ==>
          infos[id].hsDuration < infos[main.hosts[(networkID, ips[j])]].hsDuration)
  }

  /**
   * BestRelay picks the first candidate of least hsDuration, and finds none
   * only when there is no candidate.
   */
  lemma {:induction false} BestRelayIsFirstMinimum(ips: seq<VpnIp>, main: HostMap, infos: map<HostId, HostInfo>, networkID: uint64)
    ensures var r := BestRelay(ips, main, infos, networkID);
      (r.None? <==> forall i :: 0 <= i < |ips| ==> !RelayCandidate(ips[i], main, infos, networkID))
      && (r.Some? ==> exists i :: FirstMinimumAt(ips, main, infos, networkID, i, r.value))
  {
    if |ips| > 0 {
      var n := |ips| - 1;
      var init := ips[..n];
      BestRelayIsFirstMinimum(init, main, infos, networkID);
      var prev := BestRelay(init, main, infos, networkID);
      var ip := ips[n];
      assert forall i :: 0 <= i < n ==> ips[i] == init[i];
      if RelayCandidate(ip, main, infos, networkID) {
        var id := main.hosts[(networkID, ip)];
        if prev.Some? && !(infos[prev.value].hsDuration > infos[id].hsDuration) {
          var i :| FirstMinimumAt(init, main, infos, networkID, i, prev.value);
          FirstMinimumExtends(ips, main, infos, networkID, i, prev.value);
        } else if prev.Some? {
          var i :| FirstMinimumAt(init, main, infos, networkID, i, prev.value);
          FirstMinimumLast(ips, main, infos, networkID, infos[prev.value].hsDuration);
        } else {
          FirstMinimumLast(ips, main, infos, networkID, infos[id].hsDuration + 1);
        }
      } else if prev.Some? {
        var i :| FirstMinimumAt(init, main, infos, networkID, i, prev.value);
        FirstMinimumExtends(ips, main, infos, networkID, i, prev.value);
      }
    }
  }

  /** A first minimum of all but the last address stays one when the last does not beat it. */
  lemma FirstMinimumExtends(ips: seq<VpnIp>, main: HostMap, infos: map<HostId, HostInfo>, networkID: uint64, i: int,
                            id: HostId)
    requires |ips| > 0 && FirstMinimumAt(ips[..|ips| - 1], main, infos, networkID, i, id)
    requires RelayCandidate(ips[|ips| - 1], main, infos, networkID) ==>
      infos[id].hsDuration <= infos[main.hosts[(networkID, ips[|ips| - 1])]].hsDuration
    ensures FirstMinimumAt(ips, main, infos, networkID, i, id)
  {
    assert forall j :: 0 <= j < |ips| - 1 ==> ips[j] == ips[..|ips| - 1][j];
  }

  /**
   * The last address is the first minimum when it is a candidate beating a
   * bound that every earlier candidate reaches.
   */
  lemma FirstMinimumLast(ips: seq<VpnIp>, main: HostMap, infos: map<HostId, HostInfo>, networkID: uint64, bound: int)
    requires |ips| > 0 && RelayCandidate(ips[|ips| - 1], main, infos, networkID)
    requires infos[main.hosts[(networkID, ips[|ips| - 1])]].hsDuration < bound
    requires forall j :: 0 <= j < |ips| - 1 && RelayCandidate(ips[j], main, infos, networkID) ==>
      bound <= infos[main.hosts[(networkID, ips[j])]].hsDuration
    ensures FirstMinimumAt(ips, main, infos, networkID, |ips| - 1, main.hosts[(networkID, ips[|ips| - 1])])
  {
  }

  /**
   * The relay host after UpdateRelayHostInfo found `best`: kept when there is
   * no candidate or it is the candidate; otherwise replaced only when there
   * is none yet or the candidate's hsDuration is more than 50 below.
   */
  function ReplaceRelay(current: Option<HostId>, best: Option<HostId>, infos: map<HostId, HostInfo>): (r: Option<HostId>)
    requires current.Some? ==> current.value in infos
    requires best.Some? ==> best.value in infos
    ensures r == current || r == best
    ensures r != current ==> best.Some? && (current.None? || infos[current.value].hsDuration > infos[best.value].hsDuration + 50)
    ensures current.None? ==> r == best
  {
    if best.None? then current
    else if current == best then current
    else if current.None? || infos[current.value].hsDuration > infos[best.value].hsDuration + 50 then best
    else current
  }

  /** The first lighthouse in the (shuffled) order that is a ready relay host other than the current one. */
  function FirstOtherRelay(ips: seq<VpnIp>, main: HostMap, infos: map<HostId, HostInfo>, networkID: uint64,
                           current: Option<HostId>): (r: Option<VpnIp>)
    ensures r.Some? ==> exists i :: 0 <= i < |ips| && RelayCandidate(ips[i], main, infos, networkID)
                                    && Some(main.hosts[(networkID, ips[i])]) != current
                                    && r.value == infos[main.hosts[(networkID, ips[i])]].vpnIp
    ensures r.None? <==> forall i :: 0 <= i < |ips| ==>
      !(RelayCandidate(ips[i], main, infos, networkID) && Some(main.hosts[(networkID, ips[i])]) != current)
  {
    if |ips| == 0 then None
    else if RelayCandidate(ips[0], main, infos, networkID) && Some(main.hosts[(networkID, ips[0])]) != current then
      Some(infos[main.hosts[(networkID, ips[0])]].vpnIp)
    else
      var r := FirstOtherRelay(ips[1..], main, infos, networkID, current);
      assert forall i :: 1 <= i < |ips| ==> ips[i] == ips[1..][i - 1];
      r
  }

  /**
   * The interface's state as far as the send path goes: the handshake
   * manager (whose arena holds every record and whose main map is the
   * interface's host map), the relay host, the rebind counter, and what was
   * handed to the UDP writers and asked of the lighthouse.
   */
  class Interface {
    const hm: HandshakeManager
    const networkID: uint64
    const myVpnIp: VpnIp
    const localBroadcast: VpnIp
    const dropLocalBroadcast: bool
    const dropMulticast: bool
    const vpnCidr: Cidr4
    /** The first address of our certificate, None when there is no certificate state. */
    const certIp: Option<VpnIp>
    const staticList: set<VpnIp>
    /** getLightHouseIPs; None is the nil slice. */
    const lighthouseIPs: Option<seq<VpnIp>>
    /** The tun device's RouteFor, 0 meaning no route. */
    const routeFor: VpnIp -> VpnIp

    var relayHostInfo: Option<HostId>
    var rebindCount: int
    var wire: seq<Datagram>
    var queries: seq<(VpnIp, uint64)>

    predicate Valid()
      reads this, hm
    {
      hm.Valid() && (relayHostInfo.Some? ==> relayHostInfo.value in hm.infos)
    }

    constructor(hm: HandshakeManager, networkID: uint64, myVpnIp: VpnIp, localBroadcast: VpnIp,
                dropLocalBroadcast: bool, dropMulticast: bool, vpnCidr: Cidr4, certIp: Option<VpnIp>,
                staticList: set<VpnIp>, lighthouseIPs: Option<seq<VpnIp>>, routeFor: VpnIp -> VpnIp)
      requires hm.Valid()
      ensures Valid()
      ensures this.hm == hm && this.networkID == networkID && this.myVpnIp == myVpnIp
      ensures this.localBroadcast == localBroadcast && this.dropLocalBroadcast == dropLocalBroadcast
      ensures this.dropMulticast == dropMulticast && this.vpnCidr == vpnCidr && this.certIp == certIp
      ensures this.staticList == staticList && this.lighthouseIPs == lighthouseIPs && this.routeFor == routeFor
      ensures relayHostInfo.None? && rebindCount == 0 && wire == [] && queries == []
    {
      this.hm := hm;
      this.networkID := networkID;
      this.myVpnIp := myVpnIp;
      this.localBroadcast := localBroadcast;
      this.dropLocalBroadcast := dropLocalBroadcast;
      this.dropMulticast := dropMulticast;
      this.vpnCidr := vpnCidr;
      this.certIp := certIp;
      this.staticList := staticList;
      this.lighthouseIPs := lighthouseIPs;
      this.routeFor := routeFor;
      relayHostInfo := None;
      rebindCount := 0;
      wire := [];
      queries := [];
    }

    /**
     * The address getOrHandshake works with and the VPN mode it implies: none
     * for a lighthouse asked about network 0; the address itself (mode 1)
     * inside the overlay network; otherwise its route (mode 2), none if unrouted.
     */
    function Resolve(vpnIp: VpnIp, networkID: uint64): (r: Option<(VpnIp, uint8)>)
      ensures hm.amLighthouse && networkID == 0 ==> r.None?
      ensures !(hm.amLighthouse && networkID == 0) && InCidr(vpnCidr, vpnIp) ==> r == Some((vpnIp, 1))
      ensures r.Some? && r.value.1 == 2 ==> r.value.0 != 0 && !InCidr(vpnCidr, vpnIp)
    {
      if hm.amLighthouse && networkID == 0 then None
      else if InCidr(vpnCidr, vpnIp) then Some((vpnIp, 1))
      else if routeFor(vpnIp) == 0 then None
      else Some((routeFor(vpnIp), 2))
    }

    /** The main map's record for the address getOrHandshake resolves to, none when it resolves to nothing. */
    function LookupIn(main: HostMap, vpnIp: VpnIp, networkID: uint64): (r: Option<HostId>)
      ensures Resolve(vpnIp, networkID).None? ==> r.None?
      ensures Resolve(vpnIp, networkID).Some? ==> r == QueryVpnIp(main, networkID, Resolve(vpnIp, networkID).value.0)
    {
      var target := Resolve(vpnIp, networkID);
      if target.None? then None else QueryVpnIp(main, networkID, target.value.0)
    }

    /**
     * getOrHandshake with initHandshake false: the main map's record for the
     * resolved address, whose VPN mode is updated; nothing else changes.
     */
    method Lookup(vpnIp: VpnIp, networkID: uint64) returns (r: Option<HostId>)
      requires Valid()
      modifies hm
      ensures Valid()
      ensures r == LookupIn(hm.main, vpnIp, networkID)
      ensures r.Some? ==> r.value in old(hm.infos) && r.value in hm.infos
      ensures r.None? ==> hm.infos == old(hm.infos)
      ensures r.Some? ==> hm.infos == old(hm.infos)[r.value := WithMode(old(hm.infos)[r.value], Resolve(vpnIp, networkID).value.1)]
      ensures ModesOnly(old(hm.infos), hm.infos) && KeepsStores(old(hm.infos), hm.infos)
      ensures hm.next == old(hm.next) && hm.pending == old(hm.pending) && hm.main == old(hm.main)
      ensures hm.wheel == old(hm.wheel) && hm.trigger == old(hm.trigger)
    {
      var target := Resolve(vpnIp, networkID);
      if target.None? {
        return None;
      }
      r := QueryVpnIp(hm.main, networkID, target.value.0);
      if r.Some? {
        PutRecord(r.value, WithMode(hm.infos[r.value], target.value.1));
      }
    }

    /**
     * The record getOrHandshake starts a handshake on when the main map did
     * not have the address: the pending record, else a new pending one built
     * with the session initHostInfo made.
     */
    method PendingRecord(vpnIp: VpnIp, networkID: uint64, session: Option<ConnState>) returns (r: HostId)
      requires Valid()
      modifies hm
      ensures Valid()
      ensures r in hm.infos && hm.main == old(hm.main) && hm.trigger == old(hm.trigger)
      ensures KeepsStores(old(hm.infos), hm.infos)
      ensures Some(r) == QueryVpnIp(hm.pending, networkID, vpnIp)
      ensures QueryVpnIp(old(hm.pending), networkID, vpnIp).Some? ==>
        Some(r) == QueryVpnIp(old(hm.pending), networkID, vpnIp) && hm.pending == old(hm.pending)
        && hm.infos == old(hm.infos)
      ensures QueryVpnIp(old(hm.pending), networkID, vpnIp).None? ==>
        r !in old(hm.infos) && hm.infos == old(hm.infos)[r := NewHostInfo(vpnIp, networkID).(connectionState := session)]
    {
      var p := QueryVpnIp(hm.pending, networkID, vpnIp);
      if p.Some? {
        r := p.value;
      } else {
        var created;
        r, created := hm.AddVpnIp(vpnIp, networkID, session);
      }
    }

    /**
     * The rest of getOrHandshake on a record without a ready session: its VPN
     * mode, and if it has no handshake packet yet the stage-0 packet (when
     * the stage produced one) and, for a static host, an immediate trigger.
     */
    method PrepareHandshake(r: HostId, target: (VpnIp, uint8), networkID: uint64, stage0: Option<seq<uint8>>)
      requires Valid() && r in hm.infos
      modifies hm
      ensures Valid()
      ensures hm.main == old(hm.main) && hm.pending == old(hm.pending)
      ensures SessionReady(old(hm.infos)[r]) ==> hm.infos == old(hm.infos) && hm.trigger == old(hm.trigger)
      ensures !SessionReady(old(hm.infos)[r]) ==>
        var h := WithMode(old(hm.infos)[r], target.1);
        hm.infos == old(hm.infos)[r := if !h.handshakeReady && stage0.Some? then
                                          h.(handshakePacket := h.handshakePacket[0 := stage0.value], handshakeReady := true)
                                        else h]
        && hm.trigger == old(hm.trigger) + (if !h.handshakeReady && target.0 in staticList && |old(hm.trigger)| < hm.triggerBuffer
                                            then [(target.0, networkID)] else [])
    {
      if SessionReady(hm.infos[r]) {
        return;
      }
      PutRecord(r, WithMode(hm.infos[r], target.1));
      if !hm.infos[r].handshakeReady {
        if stage0.Some? {
          var h := hm.infos[r];
          PutRecord(r, h.(handshakePacket := h.handshakePacket[0 := stage0.value], handshakeReady := true));
        }
        if target.0 in staticList {
          var _ := hm.Trigger(target.0, networkID);
        }
      }
    }

    /**
     * getOrHandshake. Unroutable addresses give nil; with initHandshake false
     * it is Lookup; otherwise a record is always returned: the main one, else
     * the one Initiate finds or makes.
     */
    method GetOrHandshake(vpnIp: VpnIp, networkID: uint64, initHandshake: bool,
                          session: Option<ConnState>, stage0: Option<seq<uint8>>) returns (r: Option<HostId>)
      requires Valid()
      modifies hm
      ensures Valid()
      ensures r.Some? ==> r.value in hm.infos
      ensures hm.main == old(hm.main)
      ensures KeepsStores(old(hm.infos), hm.infos)
      ensures Resolve(vpnIp, networkID).None? ==>
        r.None? && hm.infos == old(hm.infos) && hm.pending == old(hm.pending) && hm.trigger == old(hm.trigger)
      ensures !initHandshake ==> r == LookupIn(old(hm.main), vpnIp, networkID) && ModesOnly(old(hm.infos), hm.infos)
                                 && hm.pending == old(hm.pending) && hm.trigger == old(hm.trigger)
      ensures initHandshake ==> (r.None? <==> Resolve(vpnIp, networkID).None?)
      ensures initHandshake && LookupIn(old(hm.main), vpnIp, networkID).Some? ==>
        r == LookupIn(old(hm.main), vpnIp, networkID) && hm.pending == old(hm.pending)
      ensures initHandshake && Resolve(vpnIp, networkID).Some? && LookupIn(old(hm.main), vpnIp, networkID).None? ==>
        r == QueryVpnIp(hm.pending, networkID, Resolve(vpnIp, networkID).value.0)
    {
      r := Lookup(vpnIp, networkID);
      if !initHandshake || Resolve(vpnIp, networkID).None? {
        return;
      }
      var target := Resolve(vpnIp, networkID).value;
      var id := if r.Some? then r.value else 0;
      ghost var infos1 := hm.infos;
      if r.None? {
        id := PendingRecord(target.0, networkID, session);
      }
      ghost var infos2 := hm.infos;
      PrepareHandshake(id, target, networkID, stage0);
      if !SessionReady(infos2[id]) {
        var h := WithMode(infos2[id], target.1);
        KeepsStoresUpdate(infos2, id, if !h.handshakeReady && stage0.Some? then
                                        h.(handshakePacket := h.handshakePacket[0 := stage0.value], handshakeReady := true)
                                      else h);
      }
      KeepsStoresTrans(old(hm.infos), infos1, infos2);
      KeepsStoresTrans(old(hm.infos), infos2, hm.infos);
      r := Some(id);
    }

    /** amIConnectedWithThisIP: the main map has a record for the address in our network. */
    function AmIConnectedWithThisIP(ip: VpnIp): (r: bool)
      reads hm
      ensures r <==> QueryVpnIp(hm.main, networkID, ip).Some?
    {
      (networkID, ip) in hm.main.hosts
    }

    /**
     * UpdateRelayHostInfo: nothing on a lighthouse or without lighthouse
     * addresses; otherwise the best ready lighthouse record (least
     * hsDuration, first of equals) replaces the relay host only when there is
     * none or the current one is more than 50 slower.
     */
    method UpdateRelayHostInfo()
      requires Valid()
      modifies this
      ensures Valid()
      ensures hm.amLighthouse || lighthouseIPs.None? ==> relayHostInfo == old(relayHostInfo)
      ensures !hm.amLighthouse && lighthouseIPs.Some? ==>
        relayHostInfo == ReplaceRelay(old(relayHostInfo), BestRelay(lighthouseIPs.value, hm.main, hm.infos, networkID), hm.infos)
      ensures !hm.amLighthouse && lighthouseIPs.Some? && old(relayHostInfo).None? ==>
        relayHostInfo == BestRelay(lighthouseIPs.value, hm.main, hm.infos, networkID)
      ensures rebindCount == old(rebindCount) && wire == old(wire) && queries == old(queries)
    {
      if hm.amLighthouse || lighthouseIPs.None? {
        return;
      }
      var ips := lighthouseIPs.value;
      var best: Option<HostId> := None;
      var i := 0;
      while i < |ips|
        invariant 0 <= i <= |ips|
        invariant best == BestRelay(ips[..i], hm.main, hm.infos, networkID)
        invariant relayHostInfo == old(relayHostInfo) && rebindCount == old(rebindCount)
        invariant wire == old(wire) && queries == old(queries)
      {
        assert ips[..i + 1][..i] == ips[..i];
        var ip := ips[i];
        if ip != 0 && (networkID, ip) in hm.main.hosts {
          var id := hm.main.hosts[(networkID, ip)];
          var h := hm.infos[id];
          if h.connectionState.Some? && h.connectionState.value.ready {
            if best.None? {
              best := Some(id);
            } else if hm.infos[best.value].hsDuration > h.hsDuration {
              best := Some(id);
            }
          }
        }
        i := i + 1;
      }
      assert ips[..|ips|] == ips;
      if best.None? {
        return;
      }
      if relayHostInfo.Some? && relayHostInfo == best {
        return;
      }
      if relayHostInfo.None? || hm.infos[relayHostInfo.value].hsDuration > hm.infos[best.value].hsDuration + 50 {
        relayHostInfo := best;
      }
    }

    /**
     * GetABetterRelayServer: nil on a lighthouse or without lighthouse
     * addresses; otherwise, in a random order of those addresses, the first
     * ready lighthouse record that is not the current relay host.
     */
    method GetABetterRelayServer(shuffled: seq<VpnIp>) returns (ip: Option<VpnIp>)
      requires lighthouseIPs.Some? ==> multiset(shuffled) == multiset(lighthouseIPs.value)
      ensures hm.amLighthouse || lighthouseIPs.None? ==> ip.None?
      ensures !hm.amLighthouse && lighthouseIPs.Some? ==>
        ip == FirstOtherRelay(shuffled, hm.main, hm.infos, networkID, relayHostInfo)
      ensures ip.Some? ==> exists x :: x in lighthouseIPs.value && RelayCandidate(x, hm.main, hm.infos, networkID)
                                       && Some(hm.main.hosts[(networkID, x)]) != relayHostInfo
                                       && ip.value == hm.infos[hm.main.hosts[(networkID, x)]].vpnIp
    {
      if hm.amLighthouse || lighthouseIPs.None? {
        return None;
      }
      var i := 0;
      while i < |shuffled|
        invariant 0 <= i <= |shuffled|
        invariant FirstOtherRelay(shuffled, hm.main, hm.infos, networkID, relayHostInfo)
               == FirstOtherRelay(shuffled[i..], hm.main, hm.infos, networkID, relayHostInfo)
      {
        var x := shuffled[i];
        assert shuffled[i..][1..] == shuffled[i + 1..];
        if x != 0 && (networkID, x) in hm.main.hosts {
          var id := hm.main.hosts[(networkID, x)];
          if id in hm.infos && hm.infos[id].connectionState.Some? && hm.infos[id].connectionState.value.ready
             && relayHostInfo != Some(id) {
            ip := Some(hm.infos[id].vpnIp);
            assert x in multiset(shuffled);
            return;
          }
        }
        i := i + 1;
      }
      ip := None;
    }

    /**
     * The record a client's SendRelay tries first: the explicit relay
     * address, else the preferred relay of the destination's record.
     */
    function FirstHop(main: HostMap, infos: map<HostId, HostInfo>, destIP: VpnIp, networkID: uint64,
                      relayIP: Option<VpnIp>): (r: Option<HostId>)
    {
      if relayIP.Some? then LookupIn(main, relayIP.value, networkID)
      else
        var d := LookupIn(main, destIP, networkID);
        if d.Some? && d.value in infos && infos[d.value].relayIP.Some? then
          LookupIn(main, infos[d.value].relayIP.value, networkID)
        else None
    }

    /**
     * The relay record SendRelay goes through. A lighthouse forwards through
     * the destination's own record. A client goes through FirstHop when that
     * record has a remote and a session, else through the relay host, chosen
     * first if there is none.
     */
    method ChooseRelay(destIP: VpnIp, networkID: uint64, relayIP: Option<VpnIp>) returns (via: Option<HostId>)
      requires Valid()
      modifies this, hm
      ensures Valid()
      ensures via.Some? ==> via.value in old(hm.infos)
      ensures hm.amLighthouse ==> via == LookupIn(old(hm.main), destIP, networkID)
      ensures !hm.amLighthouse && Usable(old(hm.infos), FirstHop(old(hm.main), old(hm.infos), destIP, networkID, relayIP)) ==>
        via == FirstHop(old(hm.main), old(hm.infos), destIP, networkID, relayIP)
      ensures !hm.amLighthouse && !Usable(old(hm.infos), FirstHop(old(hm.main), old(hm.infos), destIP, networkID, relayIP))
              && old(relayHostInfo).Some? ==>
        via == old(relayHostInfo)
      ensures !hm.amLighthouse && !Usable(old(hm.infos), FirstHop(old(hm.main), old(hm.infos), destIP, networkID, relayIP))
              && old(relayHostInfo).None? ==>
        via == relayHostInfo
        && (lighthouseIPs.Some? ==> via == BestRelay(lighthouseIPs.value, old(hm.main), old(hm.infos), this.networkID))
      ensures ModesOnly(old(hm.infos), hm.infos)
      ensures relayHostInfo == old(relayHostInfo) || old(relayHostInfo).None?
      ensures hm.pending == old(hm.pending) && hm.main == old(hm.main) && hm.next == old(hm.next)
      ensures hm.wheel == old(hm.wheel) && hm.trigger == old(hm.trigger)
      ensures rebindCount == old(rebindCount) && queries == old(queries) && wire == old(wire)
    {
      ghost var infos0 := hm.infos;
      if hm.amLighthouse {
        via := Lookup(destIP, networkID);
        return;
      }
      via := LookupFirstHop(destIP, networkID, relayIP);
      if !Usable(hm.infos, via) {
        if relayHostInfo.None? {
          UpdateRelayHostInfo();
          if lighthouseIPs.Some? {
            FallbackIsBest(lighthouseIPs.value, hm.main, infos0, hm.infos, this.networkID, relayHostInfo);
          }
        }
        via := relayHostInfo;
      }
    }

    /** The lookups a client's SendRelay makes to find FirstHop. */
    method LookupFirstHop(destIP: VpnIp, networkID: uint64, relayIP: Option<VpnIp>) returns (first: Option<HostId>)
      requires Valid()
      modifies hm
      ensures Valid()
      ensures first == FirstHop(old(hm.main), old(hm.infos), destIP, networkID, relayIP)
      ensures Usable(hm.infos, first) == Usable(old(hm.infos), first)
      ensures ModesOnly(old(hm.infos), hm.infos)
      ensures hm.pending == old(hm.pending) && hm.main == old(hm.main) && hm.next == old(hm.next)
      ensures hm.wheel == old(hm.wheel) && hm.trigger == old(hm.trigger)
    {
      ghost var infos0 := hm.infos;
      first := None;
      if relayIP.Some? {
        first := Lookup(relayIP.value, networkID);
      } else {
        var dest := Lookup(destIP, networkID);
        ghost var infos1 := hm.infos;
        if dest.Some? && hm.infos[dest.value].relayIP.Some? {
          first := Lookup(hm.infos[dest.value].relayIP.value, networkID);
          ModesOnlyTrans(infos0, infos1, hm.infos);
        }
      }
    }

    /**
     * The second half of SendRelay: through the chosen record, the packet
     * goes out with a relay header carrying that record's next counter and
     * the addresses and ports given, followed by the payload as it is; the
     * writer's error is the result.
     */
    method EmitRelay(via: Option<HostId>, t: MessageType, st: uint8, payload: Packet, destIP: VpnIp, sourceIP: VpnIp,
                     destPort: nat, sourcePort: nat, writeErr: Option<string>) returns (err: Option<string>)
      requires Valid() && (via.Some? ==> via.value in hm.infos)
      modifies this, hm
      ensures Valid()
      ensures via.None? ==> err == Some("Relayhostinfo is nil")
      ensures via.Some? && old(hm.infos)[via.value].remote.None? ==> err == Some("remotes from Relayhostinfo is nil")
      ensures via.Some? && old(hm.infos)[via.value].remote.Some? && old(hm.infos)[via.value].connectionState.Some? ==>
        err == writeErr
      ensures RelaySent(old(hm.infos), hm.infos, via, old(wire), wire, t, st, payload, destIP, sourceIP, destPort, sourcePort)
      ensures RelayAdvanced(old(hm.infos), hm.infos, via)
      ensures Drift(old(hm.infos), hm.infos)
      ensures hm.infos.Keys == old(hm.infos).Keys
      ensures relayHostInfo == old(relayHostInfo)
      ensures hm.pending == old(hm.pending) && hm.main == old(hm.main) && hm.next == old(hm.next)
      ensures hm.wheel == old(hm.wheel) && hm.trigger == old(hm.trigger)
      ensures rebindCount == old(rebindCount) && queries == old(queries)
    {
      if via.None? {
        return Some("Relayhostinfo is nil");
      }
      var h := hm.infos[via.value];
      if h.remote.None? {
        return Some("remotes from Relayhostinfo is nil");
      }
      if h.connectionState.None? {
        // the program dereferences the missing session here
        return Some("nil ConnectionState");
      }
      err := EmitOn(via.value, t, st, payload, destIP, sourceIP, destPort, sourcePort, writeErr);
    }

    /** The send itself: the relay record's next counter, its remote index, one packet to its remote. */
    method EmitOn(hid: HostId, t: MessageType, st: uint8, payload: Packet, destIP: VpnIp, sourceIP: VpnIp,
                  destPort: nat, sourcePort: nat, writeErr: Option<string>) returns (err: Option<string>)
      requires Valid() && hid in hm.infos && hm.infos[hid].remote.Some? && hm.infos[hid].connectionState.Some?
      modifies this, hm
      ensures Valid()
      ensures err == writeErr
      ensures RelaySent(old(hm.infos), hm.infos, Some(hid), old(wire), wire, t, st, payload, destIP, sourceIP, destPort, sourcePort)
      ensures RelayAdvanced(old(hm.infos), hm.infos, Some(hid))
      ensures Drift(old(hm.infos), hm.infos)
      ensures relayHostInfo == old(relayHostInfo) && rebindCount == old(rebindCount) && queries == old(queries)
      ensures hm.pending == old(hm.pending) && hm.main == old(hm.main) && hm.next == old(hm.next)
      ensures hm.wheel == old(hm.wheel) && hm.trigger == old(hm.trigger)
    {
      var h := hm.infos[hid];
      var c := AddU64(h.connectionState.value.messageCounter, 1);
      DriftAfterSend(hm.infos, hid, c);
      PutRecord(hid, h.(connectionState := Some(h.connectionState.value.(messageCounter := c))));
      var hdr := WireHeader(t, st, h.remoteIndexId, c, destIP, sourceIP, destPort, sourcePort, h.networkID);
      wire := wire + [Datagram(h.remote.value, Relayed(hdr, payload))];
      err := writeErr;
    }

    /** SendRelay: ChooseRelay, then EmitRelay. */
    method SendRelay(t: MessageType, st: uint8, payload: Packet, destIP: VpnIp, sourceIP: VpnIp,
                     destPort: nat, sourcePort: nat, networkID: uint64, relayIP: Option<VpnIp>,
                     writeErr: Option<string>) returns (err: Option<string>, via: Option<HostId>)
      requires Valid()
      modifies this, hm
      ensures Valid()
      ensures via.Some? ==> via.value in old(hm.infos)
      ensures hm.amLighthouse ==> via == LookupIn(old(hm.main), destIP, networkID)
      ensures via.None? ==> err == Some("Relayhostinfo is nil")
      ensures via.Some? && old(hm.infos)[via.value].remote.None? ==> err == Some("remotes from Relayhostinfo is nil")
      ensures via.Some? && old(hm.infos)[via.value].remote.Some? && old(hm.infos)[via.value].connectionState.Some? ==>
        err == writeErr
      ensures RelaySent(old(hm.infos), hm.infos, via, old(wire), wire, t, st, payload, destIP, sourceIP, destPort, sourcePort)
      ensures RelayAdvanced(old(hm.infos), hm.infos, via)
      ensures hm.infos.Keys == old(hm.infos).Keys && SameSessions(old(hm.infos), hm.infos)
      ensures relayHostInfo == old(relayHostInfo) || old(relayHostInfo).None?
      ensures hm.pending == old(hm.pending) && hm.main == old(hm.main) && hm.next == old(hm.next)
      ensures hm.wheel == old(hm.wheel) && hm.trigger == old(hm.trigger)
      ensures rebindCount == old(rebindCount) && queries == old(queries)
    {
      ghost var infos0 := hm.infos;
      via := ChooseRelay(destIP, networkID, relayIP);
      ghost var infos1 := hm.infos;
      err := EmitRelay(via, t, st, payload, destIP, sourceIP, destPort, sourcePort, writeErr);
      RelaySentModes(infos0, infos1, hm.infos, via, old(wire), wire, t, st, payload, destIP, sourceIP, destPort, sourcePort);
      RelayAdvancedModes(infos0, infos1, hm.infos, via);
      ModesKeepSessions(infos0, infos1);
      DriftKeepsSessions(infos1, hm.infos);
      SameSessionsTrans(infos0, infos1, hm.infos);
    }

    /**
     * sendNoMetrics on record hid: SealStep, then (when sealed) through the
     * relay for a relayed record, else straight to its remote, and the
     * lighthouse query when the record has not sent since the last rebind.
     */
    method SendNoMetrics(t: MessageType, st: uint8, hid: HostId, p: seq<uint8>, encryptOk: bool,
                         writeErr: Option<string>) returns (via: Option<HostId>)
      requires Valid() && hid in hm.infos
      modifies this, hm
      ensures Valid()
      ensures hm.infos.Keys == old(hm.infos).Keys && SameSessions(old(hm.infos), hm.infos)
      ensures NoMetricsSentVia(old(hm.infos), hm.infos, hid, via, old(wire), wire, old(queries), queries,
                               t, st, p, old(rebindCount), encryptOk, certIp)
      ensures NoMetricsSent(old(hm.infos), hm.infos, hid, old(wire), wire, old(queries), queries,
                            t, st, p, old(rebindCount), encryptOk, certIp)
      ensures via.Some? ==> via.value in old(hm.infos)
      ensures hm.amLighthouse && via.Some? ==> via == LookupIn(old(hm.main), old(hm.infos)[hid].vpnIp, old(hm.infos)[hid].networkID)
      ensures hm.pending == old(hm.pending) && hm.main == old(hm.main)
      ensures rebindCount == old(rebindCount)
    {
      if Keyed(hm.infos[hid]) && encryptOk && hm.infos[hid].relay == 1 && certIp.Some? {
        via := SealRelayed(t, st, hid, p);
      } else {
        SealDirect(t, st, hid, p, encryptOk);
        via := None;
      }
    }

    /** sendNoMetrics for a keyed, relayed record whose packet encrypts, with a certificate address. */
    method SealRelayed(t: MessageType, st: uint8, hid: HostId, p: seq<uint8>) returns (via: Option<HostId>)
      requires Valid() && hid in hm.infos && Keyed(hm.infos[hid]) && hm.infos[hid].relay == 1 && certIp.Some?
      modifies this, hm
      ensures Valid()
      ensures hm.infos.Keys == old(hm.infos).Keys && SameSessions(old(hm.infos), hm.infos)
      ensures NoMetricsSentVia(old(hm.infos), hm.infos, hid, via, old(wire), wire, old(queries), queries,
                               t, st, p, old(rebindCount), true, certIp)
      ensures via.Some? ==> via.value in old(hm.infos)
      ensures hm.amLighthouse ==> via == LookupIn(old(hm.main), old(hm.infos)[hid].vpnIp, old(hm.infos)[hid].networkID)
      ensures hm.pending == old(hm.pending) && hm.main == old(hm.main)
      ensures rebindCount == old(rebindCount)
    {
      ghost var infos0, wire0, queries0 := hm.infos, wire, queries;
      var h := hm.infos[hid];
      var s := SealStep(h, t, st, p, rebindCount, true);
      SealKeepsSessions(hm.infos, hid, t, st, p, rebindCount, true);
      if s.query {
        queries := queries + [(h.vpnIp, h.networkID)];
      }
      via := RelaySealed(hid, s.info, s.sealed.value);
      RelayedSendIsNoMetrics(infos0, hm.infos, hid, via, wire0, wire, queries0, queries,
                             t, st, p, rebindCount, true, certIp);
    }

    /** sendNoMetrics in every other case: the record is sealed and the packet, if any, goes straight to its remote. */
    method SealDirect(t: MessageType, st: uint8, hid: HostId, p: seq<uint8>, encryptOk: bool)
      requires Valid() && hid in hm.infos
      requires !(Keyed(hm.infos[hid]) && encryptOk && hm.infos[hid].relay == 1 && certIp.Some?)
      modifies this, hm
      ensures Valid()
      ensures hm.infos.Keys == old(hm.infos).Keys && SameSessions(old(hm.infos), hm.infos)
      ensures NoMetricsSentVia(old(hm.infos), hm.infos, hid, None, old(wire), wire, old(queries), queries,
                               t, st, p, old(rebindCount), encryptOk, certIp)
      ensures hm.pending == old(hm.pending) && hm.main == old(hm.main)
      ensures rebindCount == old(rebindCount)
    {
      ghost var infos0, wire0, queries0 := hm.infos, wire, queries;
      var h := hm.infos[hid];
      var s := SealStep(h, t, st, p, rebindCount, encryptOk);
      SealKeepsSessions(hm.infos, hid, t, st, p, rebindCount, encryptOk);
      if s.query {
        queries := queries + [(h.vpnIp, h.networkID)];
      }
      var out := if Keyed(h) && encryptOk && h.relay != 1 && h.remote.Some? then Some(Datagram(h.remote.value, s.sealed.value)) else None;
      SendDirect(hid, s.info, out);
      DirectSendIsNoMetrics(infos0, hm.infos, hid, wire0, wire, queries0, queries,
                            t, st, p, rebindCount, encryptOk, certIp);
    }

    /** The direct end of sendNoMetrics: the record takes its sealed state and the packet, if any, goes out. */
    method SendDirect(hid: HostId, info: HostInfo, out: Option<Datagram>)
      requires Valid() && hid in hm.infos && info.vpnIp == hm.infos[hid].vpnIp
      modifies this, hm
      ensures Valid()
      ensures hm.infos == old(hm.infos)[hid := info]
      ensures wire == old(wire) + (if out.Some? then [out.value] else [])
      ensures queries == old(queries) && rebindCount == old(rebindCount)
      ensures hm.pending == old(hm.pending) && hm.main == old(hm.main)
    {
      PutRecord(hid, info);
      if out.Some? {
        wire := wire + [out.value];
      }
    }

    /**
     * The relayed end of sendNoMetrics: the record takes its sealed state,
     * the sealed packet goes to SendRelay as a RelayPacket from our
     * certificate's address, and out_bytes is counted afterwards on the
     * record as it then is.
     */
    method RelaySealed(hid: HostId, info: HostInfo, sealed: Packet) returns (via: Option<HostId>)
      requires Valid() && hid in hm.infos && certIp.Some?
      requires SameSessions(hm.infos, hm.infos[hid := info])
      modifies this, hm
      ensures Valid()
      ensures hm.infos.Keys == old(hm.infos).Keys && SameSessions(old(hm.infos), hm.infos)
      ensures via.Some? ==> via.value in old(hm.infos)
      ensures hm.amLighthouse ==> via == LookupIn(old(hm.main), info.vpnIp, info.networkID)
      ensures RelayAdvanced(old(hm.infos)[hid := info], hm.infos, via)
      ensures RelaySent(old(hm.infos)[hid := info], hm.infos, via, old(wire), wire,
                        RelayPacket, 0, sealed, info.vpnIp, certIp.value, 0, 0)
      ensures hm.infos[hid].outBytes == info.outBytes
      ensures wire == old(wire) || RelayCarries(wire, old(wire), RelayPacket, 0, sealed, info.vpnIp, certIp.value)
      ensures queries == old(queries) && rebindCount == old(rebindCount)
      ensures hm.pending == old(hm.pending) && hm.main == old(hm.main)
    {
      ghost var infos0 := hm.infos;
      PutRecord(hid, info);
      ghost var infos1 := hm.infos;
      ghost var wire1 := wire;
      var _, v := SendRelay(RelayPacket, 0, sealed, info.vpnIp, certIp.value, 0, 0, info.networkID, info.relayIP, None);
      via := v;
      RelaySentCarries(infos1, hm.infos, via, wire1, wire, RelayPacket, 0, sealed, info.vpnIp, certIp.value, 0, 0);
      SameSessionsTrans(infos0, infos1, hm.infos);
      ghost var infos2 := hm.infos;
      OutBytesSettled(infos1, infos2, hid, via);
      CountOutBytes(hid, info.outBytes);
    }

    /** out_bytes set on the record as it now is; nothing else changes. */
    method CountOutBytes(hid: HostId, outBytes: uint64)
      requires Valid() && hid in hm.infos
      modifies hm
      ensures Valid()
      ensures hm.infos == old(hm.infos)[hid := old(hm.infos)[hid].(outBytes := outBytes)]
      ensures SameSessions(old(hm.infos), hm.infos)
      ensures hm.pending == old(hm.pending) && hm.main == old(hm.main)
    {
      var h := hm.infos[hid];
      KeepSessionsUpdate(hm.infos, hid, h.(outBytes := outBytes));
      PutRecord(hid, h.(outBytes := outBytes));
    }
  
    /** Replaces one record of the arena. */
    method PutRecord(hid: HostId, r: HostInfo)
      requires Valid() && hid in hm.infos && r.vpnIp == hm.infos[hid].vpnIp
      modifies hm
      ensures Valid()
      ensures hm.infos == old(hm.infos)[hid := r]
      ensures hm.pending == old(hm.pending) && hm.main == old(hm.main) && hm.next == old(hm.next)
      ensures hm.wheel == old(hm.wheel) && hm.trigger == old(hm.trigger)
    {
      UpdateValid(hm.TablesOf(), hid, r);
      hm.infos := hm.infos[hid := r];
    }

    /**
     * closeTunnel, as the control API and the relay path call it: the
     * record's address, local index and remote index leave the main map under
     * the network it is given. The record itself stays in the arena, and
     * nothing else of the interface changes.
     */
    method CloseTunnel(hid: HostId, networkID: uint64)
      requires Valid() && hid in hm.infos
      modifies hm
      ensures Valid()
      ensures hm.main == Unlink(old(hm.main), networkID, old(hm.infos)[hid])
      ensures hm.infos == old(hm.infos) && hm.pending == old(hm.pending) && hm.next == old(hm.next)
      ensures hm.wheel == old(hm.wheel) && hm.trigger == old(hm.trigger)
    {
      UnlinkAgrees(hm.main, hm.infos, networkID, hm.infos[hid]);
      hm.main := Unlink(hm.main, networkID, hm.infos[hid]);
    }

    /**
     * SendMessageToVpnIp: multicast and 0.0.0.0 are dropped, and so is an
     * address getOrHandshake gives nothing for. A record whose session exists
     * but is not ready keeps the message in its packet store; anything else
     * goes to sendNoMetrics on that record.
     */
    method SendMessageToVpnIp(t: MessageType, st: uint8, vpnIp: VpnIp, p: seq<uint8>, networkID: uint64,
                              session: Option<ConnState>, stage0: Option<seq<uint8>>, encryptOk: bool,
                              writeErr: Option<string>)
      returns (outcome: MessageOutcome, hid: Option<HostId>, ghost mid: map<HostId, HostInfo>)
      requires Valid()
      modifies this, hm
      ensures Valid()
      ensures KeepsStores(old(hm.infos), mid)
      ensures outcome == Dropped <==> IsMulticast(vpnIp) || vpnIp == 0 || Resolve(vpnIp, networkID).None?
      ensures outcome == Dropped ==> hid.None? && wire == old(wire) && queries == old(queries)
      ensures outcome != Dropped ==>
        hid.Some? && hid.value in mid && hid.value in hm.infos
        && (outcome == Cached <==> mid[hid.value].connectionState.Some? && !mid[hid.value].connectionState.value.ready)
      ensures outcome == Cached ==>
        wire == old(wire) && queries == old(queries)
        && hm.infos == mid[hid.value := mid[hid.value].(packetStore := mid[hid.value].packetStore + [CachedPacket(t, st, p)])]
      ensures outcome == Handed ==>
        NoMetricsSent(mid, hm.infos, hid.value, old(wire), wire, old(queries), queries, t, st, p, old(rebindCount), encryptOk, certIp)
      ensures hm.main == old(hm.main)
    {
      mid := hm.infos;
      if IsMulticast(vpnIp) || vpnIp == 0 {
        return Dropped, None, mid;
      }
      hid := GetOrHandshake(vpnIp, networkID, true, session, stage0);
      mid := hm.infos;
      if hid.None? {
        return Dropped, None, mid;
      }
      var h := hm.infos[hid.value];
      if h.connectionState.Some? && !h.connectionState.value.ready {
        PutRecord(hid.value, h.(packetStore := h.packetStore + [CachedPacket(t, st, p)]));
        return Cached, hid, mid;
      }
      var _ := SendNoMetrics(t, st, hid.value, p, encryptOk, writeErr);
      outcome := Handed;
    }

    /**
     * consumeInsidePacket: a packet from the tun device. A packet newPacket
     * cannot parse (`remote` None) is dropped, then the early drop rules
     * apply, then an address getOrHandshake gives nothing for. A record
     * whose session is not ready drops the packet (it is not cached); one
     * without a session at all is a nil dereference in the program. Otherwise
     * the packet goes to sendNoMetrics as a Message.
     */
    method ConsumeInsidePacket(remote: Option<VpnIp>, packet: seq<uint8>, session: Option<ConnState>,
                               stage0: Option<seq<uint8>>, encryptOk: bool, writeErr: Option<string>)
      returns (outcome: InsideOutcome, hid: Option<HostId>, ghost mid: map<HostId, HostInfo>)
      requires Valid()
      modifies this, hm
      ensures Valid()
      ensures KeepsStores(old(hm.infos), mid)
      ensures outcome == Malformed <==> remote.None?
      ensures remote.Some? && EarlyDrop(remote.value, dropLocalBroadcast, localBroadcast, myVpnIp, dropMulticast).Some? ==>
        Some(outcome) == EarlyDrop(remote.value, dropLocalBroadcast, localBroadcast, myVpnIp, dropMulticast)
      ensures outcome == NoRoute <==>
        remote.Some? && EarlyDrop(remote.value, dropLocalBroadcast, localBroadcast, myVpnIp, dropMulticast).None?
        && Resolve(remote.value, networkID).None?
      ensures outcome in {Malformed, DropBroadcast, DropSelf, DropMulticast, NoRoute} ==>
        hid.None? && hm.infos == old(hm.infos) && hm.pending == old(hm.pending) && hm.trigger == old(hm.trigger)
      ensures outcome != Sent ==> wire == old(wire) && queries == old(queries)
      ensures hid.Some? <==> outcome in {NilSession, NotReady, Sent}
      ensures hid.Some? ==>
        hid.value in mid && hid.value in hm.infos
        && (outcome == NilSession <==> mid[hid.value].connectionState.None?)
        && (outcome == NotReady <==> mid[hid.value].connectionState.Some? && !mid[hid.value].connectionState.value.ready)
        && (outcome == Sent <==> mid[hid.value].connectionState.Some? && mid[hid.value].connectionState.value.ready)
      ensures outcome in {NilSession, NotReady} ==> hm.infos == mid
      ensures outcome == Sent ==>
        NoMetricsSent(mid, hm.infos, hid.value, old(wire), wire, old(queries), queries,
                      Message, 0, packet, old(rebindCount), encryptOk, certIp)
      ensures hm.main == old(hm.main)
    {
      mid := hm.infos;
      if remote.None? {
        return Malformed, None, mid;
      }
      var drop := EarlyDrop(remote.value, dropLocalBroadcast, localBroadcast, myVpnIp, dropMulticast);
      if drop.Some? {
        return drop.value, None, mid;
      }
      hid := GetOrHandshake(remote.value, networkID, true, session, stage0);
      mid := hm.infos;
      if hid.None? {
        return NoRoute, None, mid;
      }
      outcome := SendIfReady(hid.value, packet, encryptOk, writeErr);
    }

    /**
     * The tail of consumeInsidePacket, once getOrHandshake gave a record: a
     * record without a session or with one not ready keeps the packet back;
     * a ready one sends it as a Message through sendNoMetrics.
     */
    method SendIfReady(hid: HostId, packet: seq<uint8>, encryptOk: bool, writeErr: Option<string>)
      returns (outcome: InsideOutcome)
      requires Valid() && hid in hm.infos
      modifies this, hm
      ensures Valid() && hid in hm.infos
      ensures outcome == NilSession <==> old(hm.infos)[hid].connectionState.None?
      ensures outcome == NotReady <==>
        old(hm.infos)[hid].connectionState.Some? && !old(hm.infos)[hid].connectionState.value.ready
      ensures outcome == Sent <==>
        old(hm.infos)[hid].connectionState.Some? && old(hm.infos)[hid].connectionState.value.ready
      ensures outcome != Sent ==> hm.infos == old(hm.infos) && wire == old(wire) && queries == old(queries)
      ensures outcome == Sent ==>
        NoMetricsSent(old(hm.infos), hm.infos, hid, old(wire), wire, old(queries), queries,
                      Message, 0, packet, old(rebindCount), encryptOk, certIp)
      ensures hm.main == old(hm.main)
    {
      var ci := hm.infos[hid].connectionState;
      if ci.None? {
        return NilSession;
      }
      if !ci.value.ready {
        return NotReady;
      }
      var _ := SendNoMetrics(Message, 0, hid, packet, encryptOk, writeErr);
      outcome := Sent;
    }
  }

  /**
   * What sendNoMetrics does, from the arena, wire and query list before it to
   * those after it: the record is sealed by SealStep; a record without keys,
   * or a send that may not encrypt, or a relayed record without a
   * certificate address sends nothing; a direct record sends the sealed
   * packet to its remote, if it has one; a relayed record hands it to the
   * relay record `via` as a RelayPacket from the certificate address, and
   * that record consumes one more counter value (on a lighthouse it may be
   * the destination's own record). The lighthouse query is added whenever
   * SealStep asks for one.
   */
  predicate NoMetricsSentVia(before: map<HostId, HostInfo>, after: map<HostId, HostInfo>, hid: HostId,
                             via: Option<HostId>, wire0: seq<Datagram>, wire1: seq<Datagram>,
                             queries0: seq<(VpnIp, uint64)>, queries1: seq<(VpnIp, uint64)>,
                             t: MessageType, st: uint8, p: seq<uint8>, rebindCount: int, encryptOk: bool,
                             certIp: Option<VpnIp>)
  {
    hid in before && hid in after
    && var h := before[hid];
       var s := SealStep(h, t, st, p, rebindCount, encryptOk);
       queries1 == queries0 + (if s.query then [(h.vpnIp, h.networkID)] else [])
       && (!Keyed(h) || !encryptOk || (h.relay == 1 && certIp.None?) ==>
             after == before[hid := s.info] && wire1 == wire0 && via.None?)
       && (Keyed(h) && encryptOk && h.relay != 1 ==>
             after == before[hid := s.info] && via.None?
             && wire1 == wire0 + (if h.remote.Some? then [Datagram(h.remote.value, s.sealed.value)] else []))
       && (Keyed(h) && encryptOk && h.relay == 1 && certIp.Some? ==>
             RelayAdvanced(before[hid := s.info], after, via)
             && RelaySent(before[hid := s.info], after, via, wire0, wire1,
                          RelayPacket, 0, s.sealed.value, h.vpnIp, certIp.value, 0, 0))
  }

  /** The outcome of sendNoMetrics' relayed branch, in the terms of NoMetricsSentVia. */
  lemma RelayedSendIsNoMetrics(before: map<HostId, HostInfo>, after: map<HostId, HostInfo>, hid: HostId,
                               via: Option<HostId>, wire0: seq<Datagram>, wire1: seq<Datagram>,
                               queries0: seq<(VpnIp, uint64)>, queries1: seq<(VpnIp, uint64)>,
                               t: MessageType, st: uint8, p: seq<uint8>, rebindCount: int, encryptOk: bool,
                               certIp: Option<VpnIp>)
    requires hid in before && Keyed(before[hid]) && encryptOk && before[hid].relay == 1 && certIp.Some?
    requires var h := before[hid];
      var s := SealStep(h, t, st, p, rebindCount, encryptOk);
      queries1 == queries0 + (if s.query then [(h.vpnIp, h.networkID)] else [])
      && RelayAdvanced(before[hid := s.info], after, via)
      && RelaySent(before[hid := s.info], after, via, wire0, wire1, RelayPacket, 0, s.sealed.value, h.vpnIp, certIp.value, 0, 0)
    ensures NoMetricsSentVia(before, after, hid, via, wire0, wire1, queries0, queries1, t, st, p, rebindCount, encryptOk, certIp)
  {
  }

  /** The outcome of sendNoMetrics' other branches, in the terms of NoMetricsSentVia. */
  lemma DirectSendIsNoMetrics(before: map<HostId, HostInfo>, after: map<HostId, HostInfo>, hid: HostId,
                              wire0: seq<Datagram>, wire1: seq<Datagram>,
                              queries0: seq<(VpnIp, uint64)>, queries1: seq<(VpnIp, uint64)>,
                              t: MessageType, st: uint8, p: seq<uint8>, rebindCount: int, encryptOk: bool,
                              certIp: Option<VpnIp>)
    requires hid in before && !(Keyed(before[hid]) && encryptOk && before[hid].relay == 1 && certIp.Some?)
    requires var h := before[hid];
      var s := SealStep(h, t, st, p, rebindCount, encryptOk);
      queries1 == queries0 + (if s.query then [(h.vpnIp, h.networkID)] else [])
      && after == before[hid := s.info]
      && wire1 == wire0 + (if Keyed(h) && encryptOk && h.relay != 1 && h.remote.Some?
                           then [Datagram(h.remote.value, s.sealed.value)] else [])
    ensures NoMetricsSentVia(before, after, hid, None, wire0, wire1, queries0, queries1, t, st, p, rebindCount, encryptOk, certIp)
  {
  }

  /** sendNoMetrics' outcome, through whichever relay record SendRelay chose. */
  ghost predicate NoMetricsSent(before: map<HostId, HostInfo>, after: map<HostId, HostInfo>, hid: HostId,
                          wire0: seq<Datagram>, wire1: seq<Datagram>,
                          queries0: seq<(VpnIp, uint64)>, queries1: seq<(VpnIp, uint64)>,
                          t: MessageType, st: uint8, p: seq<uint8>, rebindCount: int, encryptOk: bool,
                          certIp: Option<VpnIp>)
  {
    exists via :: NoMetricsSentVia(before, after, hid, via, wire0, wire1, queries0, queries1,
                                   t, st, p, rebindCount, encryptOk, certIp)
  }

  /** Every record of the first snapshot is in the second with the same session and the same packet store. */
  predicate KeepsStores(a: map<HostId, HostInfo>, b: map<HostId, HostInfo>)
  {
    forall id :: id in a ==> id in b && b[id].connectionState == a[id].connectionState
                             && b[id].packetStore == a[id].packetStore
  }

  lemma KeepsStoresUpdate(a: map<HostId, HostInfo>, id: HostId, h: HostInfo)
    requires id in a && h.connectionState == a[id].connectionState && h.packetStore == a[id].packetStore
    ensures KeepsStores(a, a[id := h])
  {
  }

  lemma KeepsStoresTrans(a: map<HostId, HostInfo>, b: map<HostId, HostInfo>, c: map<HostId, HostInfo>)
    requires KeepsStores(a, b) && KeepsStores(b, c)
    ensures KeepsStores(a, c)
  {
  }

  /** Two snapshots of the arena that differ at most in the records' VPN modes. */
  predicate ModesOnly(a: map<HostId, HostInfo>, b: map<HostId, HostInfo>)
  {
    a.Keys == b.Keys && forall id :: id in a ==> b[id] == a[id].(vpnMode := b[id].vpnMode)
  }

  lemma ModesOnlyTrans(a: map<HostId, HostInfo>, b: map<HostId, HostInfo>, c: map<HostId, HostInfo>)
    requires ModesOnly(a, b) && ModesOnly(b, c)
    ensures ModesOnly(a, c)
  {
  }

  /** A record that has a remote and a session. */
  predicate Usable(infos: map<HostId, HostInfo>, r: Option<HostId>)
  {
    r.Some? && r.value in infos && infos[r.value].remote.Some? && infos[r.value].connectionState.Some?
  }

  /** Two snapshots with the same records, addresses, indices, and sessions present and ready alike. */
  predicate SameSessions(a: map<HostId, HostInfo>, b: map<HostId, HostInfo>)
  {
    a.Keys == b.Keys
    && forall id :: id in a ==>
         b[id].vpnIp == a[id].vpnIp && b[id].localIndexId == a[id].localIndexId
         && b[id].remoteIndexId == a[id].remoteIndexId
         && (a[id].connectionState.Some? <==> b[id].connectionState.Some?)
         && (a[id].connectionState.Some? ==> b[id].connectionState.value.ready == a[id].connectionState.value.ready)
  }

  lemma SameSessionsTrans(a: map<HostId, HostInfo>, b: map<HostId, HostInfo>, c: map<HostId, HostInfo>)
    requires SameSessions(a, b) && SameSessions(b, c)
    ensures SameSessions(a, c)
  {
  }

  lemma KeepSessionsUpdate(m: map<HostId, HostInfo>, id: HostId, r: HostInfo)
    requires id in m && r.vpnIp == m[id].vpnIp && r.connectionState == m[id].connectionState
    requires r.localIndexId == m[id].localIndexId && r.remoteIndexId == m[id].remoteIndexId
    ensures SameSessions(m, m[id := r])
  {
  }

  lemma ModesKeepSessions(a: map<HostId, HostInfo>, b: map<HostId, HostInfo>)
    requires ModesOnly(a, b)
    ensures SameSessions(a, b)
  {
  }

  lemma DriftKeepsSessions(a: map<HostId, HostInfo>, b: map<HostId, HostInfo>)
    requires Drift(a, b)
    ensures SameSessions(a, b)
  {
  }

  /** Two snapshots that differ at most in VPN modes and message counters. */
  predicate Drift(a: map<HostId, HostInfo>, b: map<HostId, HostInfo>)
  {
    a.Keys == b.Keys
    && forall id :: id in a ==>
         b[id] == a[id].(vpnMode := b[id].vpnMode, connectionState := b[id].connectionState)
         && (a[id].connectionState.Some? <==> b[id].connectionState.Some?)
         && (a[id].connectionState.Some? ==>
               b[id].connectionState.value == a[id].connectionState.value.(messageCounter := b[id].connectionState.value.messageCounter))
  }

  /** The record after getOrHandshake records the VPN mode it was reached by; mode 2 sticks. */
  function WithMode(h: HostInfo, mode: uint8): (r: HostInfo)
    ensures r == h.(vpnMode := r.vpnMode)
    ensures r.vpnMode == 2 || r.vpnMode == mode
    ensures h.vpnMode == 2 ==> r == h
  {
    if h.vpnMode != 2 then h.(vpnMode := mode) else h
  }

  /** The wire gained one relay packet carrying `payload` with the given header fields. */
  predicate RelayCarries(wire: seq<Datagram>, before: seq<Datagram>, t: MessageType, st: uint8, payload: Packet,
                         destIP: VpnIp, sourceIP: VpnIp)
  {
    |wire| == |before| + 1 && wire[..|before|] == before
    && wire[|before|].packet.Relayed? && wire[|before|].packet.inner == payload
    && wire[|before|].packet.header.msgType == t && wire[|before|].packet.header.subType == st
    && wire[|before|].packet.header.destIP == destIP && wire[|before|].packet.header.sourceIP == sourceIP
  }

  /**
   * What SendRelay put on the wire: nothing without a relay record with a
   * remote and a session; otherwise one packet to that remote, under the
   * record's next counter and remote index, and that counter consumed.
   */
  predicate RelaySent(before: map<HostId, HostInfo>, after: map<HostId, HostInfo>, via: Option<HostId>,
                      wire0: seq<Datagram>, wire: seq<Datagram>, t: MessageType, st: uint8, payload: Packet,
                      destIP: VpnIp, sourceIP: VpnIp, destPort: nat, sourcePort: nat)
  {
    if via.Some? && via.value in before && via.value in after && before[via.value].remote.Some?
       && before[via.value].connectionState.Some? then
      var h := before[via.value];
      var c := AddU64(h.connectionState.value.messageCounter, 1);
      wire == wire0 + [Datagram(h.remote.value, Relayed(WireHeader(t, st, h.remoteIndexId, c, destIP, sourceIP,
                                                                   destPort, sourcePort, h.networkID), payload))]
      && after[via.value].connectionState == Some(h.connectionState.value.(messageCounter := c))
    else wire == wire0
  }

  /**
   * The arena after SendRelay through `via`: only VPN modes change, except
   * that a relay record with a remote and a session consumes its next
   * message counter.
   */
  predicate RelayAdvanced(before: map<HostId, HostInfo>, after: map<HostId, HostInfo>, via: Option<HostId>)
  {
    before.Keys == after.Keys
    && forall id :: id in before ==>
         after[id] == before[id].(vpnMode := after[id].vpnMode,
                                  connectionState := if via == Some(id) && Usable(before, via)
                                                     then Some(before[id].connectionState.value.(messageCounter :=
                                                                 AddU64(before[id].connectionState.value.messageCounter, 1)))
                                                     else before[id].connectionState)
  }

  /** After a relay send, setting a record's out_bytes to its value before the send changes nothing. */
  lemma OutBytesSettled(before: map<HostId, HostInfo>, after: map<HostId, HostInfo>, hid: HostId, via: Option<HostId>)
    requires RelayAdvanced(before, after, via) && hid in before
    ensures after[hid := after[hid].(outBytes := before[hid].outBytes)] == after
  {
  }

  /** RelayAdvanced reads only what ModesOnly keeps. */
  lemma RelayAdvancedModes(a: map<HostId, HostInfo>, b: map<HostId, HostInfo>, c: map<HostId, HostInfo>,
                           via: Option<HostId>)
    requires ModesOnly(a, b) && RelayAdvanced(b, c, via)
    ensures RelayAdvanced(a, c, via)
  {
  }

  lemma FallbackIsBest(ips: seq<VpnIp>, main: HostMap, a: map<HostId, HostInfo>, b: map<HostId, HostInfo>,
                       networkID: uint64, r: Option<HostId>)
    requires ModesOnly(a, b) && r == BestRelay(ips, main, b, networkID)
    ensures r == BestRelay(ips, main, a, networkID)
  {
    BestRelayModes(ips, main, a, b, networkID);
  }

  lemma DriftAfterSend(a: map<HostId, HostInfo>, via: HostId, c: uint64)
    requires via in a && a[via].connectionState.Some?
    ensures Drift(a, a[via := a[via].(connectionState := Some(a[via].connectionState.value.(messageCounter := c)))])
  {
  }

  /** Whatever SendRelay puts on the wire is one relayed packet carrying the payload. */
  lemma RelaySentCarries(before: map<HostId, HostInfo>, after: map<HostId, HostInfo>, via: Option<HostId>,
                         wire0: seq<Datagram>, wire: seq<Datagram>, t: MessageType, st: uint8, payload: Packet,
                         destIP: VpnIp, sourceIP: VpnIp, destPort: nat, sourcePort: nat)
    requires RelaySent(before, after, via, wire0, wire, t, st, payload, destIP, sourceIP, destPort, sourcePort)
    ensures wire == wire0 || RelayCarries(wire, wire0, t, st, payload, destIP, sourceIP)
  {
  }

  /** RelaySent reads only what ModesOnly keeps of the record it names. */
  lemma RelaySentModes(a: map<HostId, HostInfo>, b: map<HostId, HostInfo>, c: map<HostId, HostInfo>,
                       via: Option<HostId>, wire0: seq<Datagram>, wire: seq<Datagram>, t: MessageType, st: uint8,
                       payload: Packet, destIP: VpnIp, sourceIP: VpnIp, destPort: nat, sourcePort: nat)
    requires ModesOnly(a, b) && c.Keys == b.Keys
    requires RelaySent(b, c, via, wire0, wire, t, st, payload, destIP, sourceIP, destPort, sourcePort)
    ensures RelaySent(a, c, via, wire0, wire, t, st, payload, destIP, sourceIP, destPort, sourcePort)
  {
  }

  /** BestRelay does not see VPN modes. */
  lemma {:induction false} BestRelayModes(ips: seq<VpnIp>, main: HostMap, a: map<HostId, HostInfo>,
                                           b: map<HostId, HostInfo>, networkID: uint64)
    requires ModesOnly(a, b)
    ensures BestRelay(ips, main, a, networkID) == BestRelay(ips, main, b, networkID)
  {
    if |ips| > 0 {
      BestRelayModes(ips[..|ips| - 1], main, a, b, networkID);
    }
  }
}
