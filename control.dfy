/**
 * control.go: the API the apps drive the tunnel with. Listing and looking up
 * peers returns copies of their records; closing tunnels sends a close and
 * tears the tunnel down; Stop closes every tunnel, lighthouses last.
 */
module Control {
  import opened Wrappers
  import opened GoTypes
  import opened HostMaps
  import opened HandshakeManagement
  import opened Inside
  import opened GoStrings
  import opened Strconv
  import Messaging

  /** ControlHostInfo: what the API reports about a peer (the certificate is not part of this model). */
  datatype ControlHostInfo = ControlHostInfo(
    vpnIp: VpnIp, localIndex: uint32, remoteIndex: uint32, remoteAddrs: seq<Addr>, cachedPackets: nat,
    messageCounter: uint64, currentRemote: Option<Addr>, relay: uint8, inBytes: uint64, outBytes: uint64,
    name: string, vpnMode: uint8)

  /**
   * copyHostInfo: the record's address, indices, remotes, number of cached
   * packets, counters, name and VPN mode; the message counter only when
   * there is a session (zero otherwise) and the current remote only when
   * there is one.
   */
  function CopyHostInfo(h: HostInfo): (c: ControlHostInfo)
    ensures c.vpnIp == h.vpnIp && c.localIndex == h.localIndexId && c.remoteIndex == h.remoteIndexId
    ensures c.cachedPackets == |h.packetStore|
    ensures h.connectionState.None? ==> c.messageCounter == 0
    ensures h.connectionState.Some? ==> c.messageCounter == h.connectionState.value.messageCounter
    ensures c.currentRemote == h.remote
    ensures h.remotes.None? ==> c.remoteAddrs == []
  {
    ControlHostInfo(
      h.vpnIp, h.localIndexId, h.remoteIndexId, if h.remotes.Some? then h.remotes.value else [],
      |h.packetStore|, if h.connectionState.Some? then h.connectionState.value.messageCounter else 0,
      h.remote, h.relay, h.inBytes, h.outBytes, h.name, h.vpnMode)
  }

  /** VpnIp.String: the dotted quad. */
  function VpnIpString(ip: VpnIp): string
  {
    Join([FormatNat(ip / 0x100_0000), FormatNat(ip / 0x1_0000 % 256), FormatNat(ip / 256 % 256), FormatNat(ip % 256)], '.')
  }

  /** The addresses a host map holds in a network. */
  function AddressesIn(m: HostMap, networkID: uint64): set<VpnIp>
  {
    set k | k in m.hosts && k.0 == networkID :: k.1
  }

  predicate Distinct<T(==)>(s: seq<T>)
  {
    forall i, j :: 0 <= i < j < |s| ==> s[i] != s[j]
  }

  /** A sequence without repeats has as many elements as its set. */
  lemma {:induction false} DistinctCard<T>(s: seq<T>)
    requires Distinct(s)
    ensures |set x | x in s| == |s|
  {
    if |s| > 0 {
      var init := s[..|s| - 1];
      DistinctCard(init);
      assert (set x | x in s) == (set x | x in init) + {s[|s| - 1]};
      forall i | 0 <= i < |init|
        ensures init[i] != s[|s| - 1]
      {
        assert init[i] == s[i];
      }
    }
  }

  /** An order that lists every address of the network once has one entry per address. */
  lemma OrderCount(m: HostMap, networkID: uint64, order: seq<VpnIp>)
    requires Distinct(order) && (forall ip :: ip in order <==> (networkID, ip) in m.hosts)
    ensures |order| == |AddressesIn(m, networkID)|
  {
    DistinctCard(order);
    forall x
      ensures x in AddressesIn(m, networkID) <==> x in order
    {
      if x in order {
        assert (networkID, x) in m.hosts && (networkID, x).1 == x;
      }
      if x in AddressesIn(m, networkID) {
        var k :| k in m.hosts && k.0 == networkID && k.1 == x;
        assert k == (networkID, x);
      }
    }
    assert (set x: VpnIp | x in order) == AddressesIn(m, networkID);
  }

  /**
   * listHostMap: one copy per address of the network, visited in the map's
   * (unspecified) order, which `order` gives.
   */
  method ListHostMap(m: HostMap, infos: map<HostId, HostInfo>, networkID: uint64, order: seq<VpnIp>)
    returns (hosts: seq<ControlHostInfo>)
    requires Ids(m) <= infos.Keys
    requires Distinct(order) && (forall ip :: ip in order <==> (networkID, ip) in m.hosts)
    ensures |hosts| == |order| == |AddressesIn(m, networkID)|
    ensures forall i :: 0 <= i < |order| ==> hosts[i] == CopyHostInfo(infos[m.hosts[(networkID, order[i])]])
  {
    hosts := [];
    var i := 0;
    while i < |order|
      invariant 0 <= i <= |order| && |hosts| == i
      invariant forall j :: 0 <= j < i ==> hosts[j] == CopyHostInfo(infos[m.hosts[(networkID, order[j])]])
    {
      var id := m.hosts[(networkID, order[i])];
      hosts := hosts + [CopyHostInfo(infos[id])];
      i := i + 1;
    }
    OrderCount(m, networkID, order);
  }

  /** Every address of the network is in the listing. */
  lemma ListingCovers(m: HostMap, infos: map<HostId, HostInfo>, networkID: uint64, order: seq<VpnIp>,
                      hosts: seq<ControlHostInfo>, ip: VpnIp)
    requires Ids(m) <= infos.Keys && |hosts| == |order|
    requires forall ip :: ip in order <==> (networkID, ip) in m.hosts
    requires forall i :: 0 <= i < |order| ==> hosts[i] == CopyHostInfo(infos[m.hosts[(networkID, order[i])]])
    requires (networkID, ip) in m.hosts
    ensures exists i :: 0 <= i < |hosts| && hosts[i] == CopyHostInfo(infos[m.hosts[(networkID, ip)]])
  {
    var k :| 0 <= k < |order| && order[k] == ip;
    assert hosts[k] == CopyHostInfo(infos[m.hosts[(networkID, ip)]]);
  }

  /** Whether CloseAllTunnels closes the record under key k of the main map. */
  predicate Closes(k: (uint64, VpnIp), main: HostMap, infos: map<HostId, HostInfo>, excludeLighthouses: bool,
                   lighthouses: set<VpnIp>)
  {
    k in main.hosts && main.hosts[k] in infos
    && !(excludeLighthouses && infos[main.hosts[k]].vpnIp in lighthouses)
    && infos[main.hosts[k]].connectionState.Some? && infos[main.hosts[k]].connectionState.value.ready
  }

  /** The records CloseAllTunnels closes, in the order it visits the main map's keys. */
  function Closable(order: seq<(uint64, VpnIp)>, main: HostMap, infos: map<HostId, HostInfo>,
                    excludeLighthouses: bool, lighthouses: set<VpnIp>): (r: seq<HostId>)
    ensures |r| <= |order|
  {
    if |order| == 0 then []
    else
      var k := order[|order| - 1];
      Closable(order[..|order| - 1], main, infos, excludeLighthouses, lighthouses)
      + if Closes(k, main, infos, excludeLighthouses, lighthouses) then [main.hosts[k]] else []
  }

  /**
   * What CloseAllTunnels closes: exactly the visited records with a ready
   * session, less the lighthouses when those are excluded.
   */
  lemma {:induction false} ClosableMembers(order: seq<(uint64, VpnIp)>, main: HostMap, infos: map<HostId, HostInfo>,
                                           excludeLighthouses: bool, lighthouses: set<VpnIp>)
    ensures forall id :: id in Closable(order, main, infos, excludeLighthouses, lighthouses) ==>
      exists k :: k in order && Closes(k, main, infos, excludeLighthouses, lighthouses) && main.hosts[k] == id
    ensures forall k :: k in order && Closes(k, main, infos, excludeLighthouses, lighthouses) ==>
      main.hosts[k] in Closable(order, main, infos, excludeLighthouses, lighthouses)
  {
    if |order| > 0 {
      var init := order[..|order| - 1];
      ClosableMembers(init, main, infos, excludeLighthouses, lighthouses);
      forall k | k in order
        ensures k in init || k == order[|order| - 1]
      {
        var i :| 0 <= i < |order| && order[i] == k;
        if i < |order| - 1 {
          assert init[i] == k;
        }
      }
    }
  }

  /** Every address of the map lies in one network. */
  predicate InNetwork(main: HostMap, networkID: uint64)
  {
    forall k :: k in main.hosts ==> k.0 == networkID
  }

  /**
   * One pass of CloseAllTunnels over the main map's keys, in the order
   * `order` gives: a key still present whose record Closes is closed, and
   * closeTunnel takes that record's keys out of the map under `networkID`,
   * the interface's own network, which every call passes. The result is the
   * map after the pass and the closed records, in order.
   */
  function ClosePass(order: seq<(uint64, VpnIp)>, main: HostMap, infos: map<HostId, HostInfo>,
                     excludeLighthouses: bool, lighthouses: set<VpnIp>, networkID: uint64): (r: (HostMap, seq<HostId>))
    ensures |r.1| <= |order|
    ensures r.0.hosts.Keys <= main.hosts.Keys
    ensures forall k :: k in r.0.hosts ==> r.0.hosts[k] == main.hosts[k]
    ensures AddressesAgree(main, infos) ==> AddressesAgree(r.0, infos)
  {
    if |order| == 0 then (main, [])
    else
      var p := ClosePass(order[..|order| - 1], main, infos, excludeLighthouses, lighthouses, networkID);
      var k := order[|order| - 1];
      if Closes(k, p.0, infos, excludeLighthouses, lighthouses) then
        (Unlink(p.0, networkID, infos[p.0.hosts[k]]), p.1 + [p.0.hosts[k]])
      else p
  }

  /** One more visited key: the pass so far, then that key. */
  lemma ClosePassStep(order: seq<(uint64, VpnIp)>, i: nat, main: HostMap, infos: map<HostId, HostInfo>,
                      excludeLighthouses: bool, lighthouses: set<VpnIp>, networkID: uint64)
    requires i < |order|
    ensures var p := ClosePass(order[..i], main, infos, excludeLighthouses, lighthouses, networkID);
      ClosePass(order[..i + 1], main, infos, excludeLighthouses, lighthouses, networkID)
      == if Closes(order[i], p.0, infos, excludeLighthouses, lighthouses) then
           (Unlink(p.0, networkID, infos[p.0.hosts[order[i]]]), p.1 + [p.0.hosts[order[i]]])
         else p
  {
    assert order[..i + 1][..i] == order[..i];
  }

  /**
   * In a map whose addresses all lie in the interface's network and name
   * records that carry them, a pass over distinct keys closes exactly the
   * records Closable lists, and takes out of the map exactly the keys of
   * those records.
   */
  lemma {:induction false} ClosePassExact(order: seq<(uint64, VpnIp)>, main: HostMap, infos: map<HostId, HostInfo>,
                                          excludeLighthouses: bool, lighthouses: set<VpnIp>, networkID: uint64)
    requires AddressesAgree(main, infos) && InNetwork(main, networkID) && Distinct(order)
    ensures var p := ClosePass(order, main, infos, excludeLighthouses, lighthouses, networkID);
      p.1 == Closable(order, main, infos, excludeLighthouses, lighthouses)
      && forall k :: k in p.0.hosts <==> k in main.hosts && !(k in order && Closes(k, main, infos, excludeLighthouses, lighthouses))
  {
    if |order| > 0 {
      var init := order[..|order| - 1];
      var k := order[|order| - 1];
      assert Distinct(init);
      ClosePassExact(init, main, infos, excludeLighthouses, lighthouses, networkID);
      var p := ClosePass(init, main, infos, excludeLighthouses, lighthouses, networkID);
      assert k !in init;
      assert Closes(k, p.0, infos, excludeLighthouses, lighthouses) == Closes(k, main, infos, excludeLighthouses, lighthouses);
      if Closes(k, p.0, infos, excludeLighthouses, lighthouses) {
        UnlinkRemovesAddress(p.0, infos, k);
      }
      forall k' | k' in order
        ensures k' in init || k' == k
      {
        var i :| 0 <= i < |order| && order[i] == k';
        if i < |order| - 1 {
          assert init[i] == k';
        }
      }
    }
  }

  /**
   * Stop's two passes, for a map whose addresses all lie in the interface's
   * network: the first closes only records that are not lighthouses; the
   * second, over the keys the first left, closes only lighthouses; every
   * record with a ready session is closed by one of them; and the map keeps
   * exactly the keys whose record had no ready session.
   */
  lemma StopClosesLighthousesLast(order1: seq<(uint64, VpnIp)>, order2: seq<(uint64, VpnIp)>, main: HostMap,
                                  infos: map<HostId, HostInfo>, lighthouses: set<VpnIp>, networkID: uint64)
    requires AddressesAgree(main, infos) && InNetwork(main, networkID)
    requires Distinct(order1) && forall k :: k in order1 <==> k in main.hosts
    requires Distinct(order2)
    requires forall k :: k in order2 <==> k in ClosePass(order1, main, infos, true, lighthouses, networkID).0.hosts
    ensures var p1 := ClosePass(order1, main, infos, true, lighthouses, networkID);
      var p2 := ClosePass(order2, p1.0, infos, false, lighthouses, networkID);
      (forall id :: id in p1.1 ==> id in infos && infos[id].vpnIp !in lighthouses)
      && (forall id :: id in p2.1 ==> id in infos && infos[id].vpnIp in lighthouses)
      && (forall k :: Closes(k, main, infos, false, lighthouses) ==> main.hosts[k] in p1.1 + p2.1)
      && (forall k :: k in p2.0.hosts <==> k in main.hosts && !Closes(k, main, infos, false, lighthouses))
  {
    var p1 := ClosePass(order1, main, infos, true, lighthouses, networkID);
    ClosePassExact(order1, main, infos, true, lighthouses, networkID);
    ClosableMembers(order1, main, infos, true, lighthouses);
    assert InNetwork(p1.0, networkID);
    ClosePassExact(order2, p1.0, infos, false, lighthouses, networkID);
    ClosableMembers(order2, p1.0, infos, false, lighthouses);
    forall k | Closes(k, main, infos, false, lighthouses) && !Closes(k, main, infos, true, lighthouses)
      ensures Closes(k, p1.0, infos, false, lighthouses)
    {
    }
  }

  /** Control: the API object around one interface. */
  class Control {
    const f: Interface
    const messaging: Messaging.Messaging
    /** The interface's Name. */
    const name: string
    /** The tunnels closeTunnel was called on, in order; its effect on the main map is Inside.Interface.CloseTunnel. */
    var closedTunnels: seq<HostId>
    /** outside.Rebind and lightHouse.SendUpdate calls. */
    var rebinds: nat
    var updatesSent: nat
    var interfaceClosed: bool
    var cancelled: bool

    predicate Valid()
      reads f, f.hm, messaging, messaging.ring
    {
      f.Valid() && messaging.Valid()
    }

    constructor(f: Interface, messaging: Messaging.Messaging, name: string)
      requires f.Valid() && messaging.Valid()
      ensures Valid() && this.f == f && this.messaging == messaging && this.name == name
      ensures closedTunnels == [] && rebinds == 0 && updatesSent == 0 && !interfaceClosed && !cancelled
    {
      this.f := f;
      this.messaging := messaging;
      this.name := name;
      closedTunnels := [];
      rebinds := 0;
      updatesSent := 0;
      interfaceClosed := false;
      cancelled := false;
    }

    /** GetName: "server" on a lighthouse, else the interface's name. */
    function GetName(): (r: string)
      ensures f.hm.amLighthouse ==> r == "server"
      ensures !f.hm.amLighthouse ==> r == name
    {
      if f.hm.amLighthouse then "server" else name
    }

    /** GetMyVPNIP: empty on a lighthouse, else our overlay address. */
    function GetMyVPNIP(): (r: string)
      ensures r == "" <==> f.hm.amLighthouse
      ensures !f.hm.amLighthouse ==> r == VpnIpString(f.myVpnIp)
    {
      if f.hm.amLighthouse then "" else VpnIpString(f.myVpnIp)
    }

    /** GetRelayHostIP: empty without a relay host, else its overlay address. */
    function GetRelayHostIP(): (r: string)
      reads f, f.hm
      requires f.Valid()
      ensures r == "" <==> f.relayHostInfo.None?
      ensures f.relayHostInfo.Some? ==> r == VpnIpString(f.hm.infos[f.relayHostInfo.value].vpnIp)
    {
      if f.relayHostInfo.None? then "" else VpnIpString(f.hm.infos[f.relayHostInfo.value].vpnIp)
    }

    /** GetHostInfoByVpnIp: a copy of the record the chosen map has for the address in our network, if any. */
    function GetHostInfoByVpnIp(vpnIp: VpnIp, pending: bool): (r: Option<ControlHostInfo>)
      reads f, f.hm
      requires f.Valid()
      ensures var m := if pending then f.hm.pending else f.hm.main;
        (r.None? <==> QueryVpnIp(m, f.networkID, vpnIp).None?)
        && (r.Some? ==> r.value == CopyHostInfo(f.hm.infos[m.hosts[(f.networkID, vpnIp)]]))
    {
      var m := if pending then f.hm.pending else f.hm.main;
      var h := QueryVpnIp(m, f.networkID, vpnIp);
      if h.None? then None else Some(CopyHostInfo(f.hm.infos[h.value]))
    }

    /** ListHostmap: listHostMap of the pending or the main map, in our network. */
    method ListHostmap(pending: bool, order: seq<VpnIp>) returns (hosts: seq<ControlHostInfo>)
      requires Valid()
      requires var m := if pending then f.hm.pending else f.hm.main;
        Distinct(order) && forall ip :: ip in order <==> (f.networkID, ip) in m.hosts
      ensures var m := if pending then f.hm.pending else f.hm.main;
        |hosts| == |order| == |AddressesIn(m, f.networkID)|
        && forall i :: 0 <= i < |order| ==> hosts[i] == CopyHostInfo(f.hm.infos[m.hosts[(f.networkID, order[i])]])
    {
      var m := if pending then f.hm.pending else f.hm.main;
      hosts := ListHostMap(m, f.hm.infos, f.networkID, order);
    }

    /** RebindUDPServer: rebind, send a lighthouse update, and count the rebind so tunnels query again. */
    method RebindUDPServer()
      requires Valid()
      modifies this, f
      ensures Valid()
      ensures rebinds == old(rebinds) + 1 && updatesSent == old(updatesSent) + 1
      ensures f.rebindCount == old(f.rebindCount) + 1
      ensures f.relayHostInfo == old(f.relayHostInfo) && f.wire == old(f.wire) && f.queries == old(f.queries)
      ensures closedTunnels == old(closedTunnels)
    {
      rebinds := rebinds + 1;
      updatesSent := updatesSent + 1;
      f.rebindCount := f.rebindCount + 1;
    }

    /**
     * SetRemoteForTunnel: nil when the main map has no record for the
     * address; otherwise the record's remote is set and a copy returned.
     */
    method SetRemoteForTunnel(vpnIp: VpnIp, addr: Addr) returns (r: Option<ControlHostInfo>)
      requires Valid()
      modifies f.hm
      ensures Valid()
      ensures r.None? <==> QueryVpnIp(f.hm.main, f.networkID, vpnIp).None?
      ensures r.None? ==> f.hm.infos == old(f.hm.infos)
      ensures r.Some? ==> var id := f.hm.main.hosts[(f.networkID, vpnIp)];
        id in old(f.hm.infos) && f.hm.infos == old(f.hm.infos)[id := old(f.hm.infos)[id].(remote := Some(addr))]
        && r.value == CopyHostInfo(f.hm.infos[id]) && r.value.currentRemote == Some(addr)
      ensures f.hm.main == old(f.hm.main) && f.hm.pending == old(f.hm.pending)
    {
      var h := QueryVpnIp(f.hm.main, f.networkID, vpnIp);
      if h.None? {
        return None;
      }
      var rec := f.hm.infos[h.value].(remote := Some(addr));
      f.PutRecord(h.value, rec);
      r := Some(CopyHostInfo(rec));
    }

    /**
     * CloseTunnel: false when the main map has no record for the address in
     * our network; otherwise, unless localOnly, a CloseTunnel message is sent
     * on it, and closeTunnel takes the record's keys out of the main map.
     */
    method CloseTunnel(vpnIp: VpnIp, localOnly: bool, encryptOk: bool) returns (ok: bool)
      requires Valid()
      modifies this, f, f.hm
      ensures Valid()
      ensures ok <==> QueryVpnIp(old(f.hm.main), f.networkID, vpnIp).Some?
      ensures !ok ==> closedTunnels == old(closedTunnels) && f.wire == old(f.wire) && f.hm.infos == old(f.hm.infos)
                      && f.hm.main == old(f.hm.main)
      ensures ok ==> var id := old(f.hm.main).hosts[(f.networkID, vpnIp)];
        closedTunnels == old(closedTunnels) + [id]
        && f.hm.main == Unlink(old(f.hm.main), f.networkID, old(f.hm.infos)[id])
        && f.hm.main.hosts == old(f.hm.main).hosts - {(f.networkID, vpnIp)}
      ensures localOnly ==> f.wire == old(f.wire) && f.hm.infos == old(f.hm.infos)
      ensures ok && !localOnly ==>
        NoMetricsSent(old(f.hm.infos), f.hm.infos, old(f.hm.main).hosts[(f.networkID, vpnIp)], old(f.wire), f.wire,
                      old(f.queries), f.queries, MessageType.CloseTunnel, 0, [], old(f.rebindCount), encryptOk, f.certIp)
      ensures SameSessions(old(f.hm.infos), f.hm.infos) && f.queries == old(f.queries)
    {
      var h := QueryVpnIp(f.hm.main, f.networkID, vpnIp);
      if h.None? {
        return false;
      }
      UnlinkRemovesAddress(f.hm.main, f.hm.infos, (f.networkID, vpnIp));
      if !localOnly {
        var _ := f.SendNoMetrics(MessageType.CloseTunnel, 0, h.value, [], encryptOk, None);
      }
      f.CloseTunnel(h.value, f.networkID);
      closedTunnels := closedTunnels + [h.value];
      ok := true;
    }

    /**
     * One step of CloseAllTunnels: the record under key k is sent a
     * CloseTunnel message and closed when Closes says so.
     */
    method CloseIfReady(k: (uint64, VpnIp), excludeLighthouses: bool, encryptOk: bool, ghost infos0: map<HostId, HostInfo>)
      returns (closedId: Option<HostId>)
      requires f.Valid() && SameSessions(infos0, f.hm.infos)
      modifies f, f.hm
      ensures f.Valid() && SameSessions(infos0, f.hm.infos)
      ensures closedId.Some? == Closes(k, old(f.hm.main), infos0, excludeLighthouses, f.hm.lighthouses)
      ensures closedId.Some? ==> closedId.value == old(f.hm.main).hosts[k]
                                 && f.hm.main == Unlink(old(f.hm.main), f.networkID, infos0[closedId.value])
      ensures closedId.None? ==> f.hm.main == old(f.hm.main) && f.hm.infos == old(f.hm.infos) && f.wire == old(f.wire)
      ensures closedId.Some? ==>
        NoMetricsSent(old(f.hm.infos), f.hm.infos, closedId.value, old(f.wire), f.wire, old(f.queries), f.queries,
                      MessageType.CloseTunnel, 0, [], old(f.rebindCount), encryptOk, f.certIp)
    {
      closedId := None;
      if k in f.hm.main.hosts {
        var id := f.hm.main.hosts[k];
        var h := f.hm.infos[id];
        if !(excludeLighthouses && h.vpnIp in f.hm.lighthouses) && h.connectionState.Some? && h.connectionState.value.ready {
          ghost var before := f.hm.infos;
          var _ := f.SendNoMetrics(MessageType.CloseTunnel, 0, id, [], encryptOk, None);
          SameSessionsTrans(infos0, before, f.hm.infos);
          ghost var sent := f.hm.infos;
          f.CloseTunnel(id, f.networkID);
          assert f.hm.infos == sent;
          closedId := Some(id);
        }
      }
    }

    /**
     * CloseAllTunnels: over every network of the main map, in the map's
     * order, each record still present with a ready session (lighthouses
     * skipped when excluded) is sent a CloseTunnel message and closed; the
     * count of closed tunnels is returned. In a map that holds only our own
     * network, exactly the records Closes picks are closed and exactly their
     * keys leave the map.
     */
    method CloseAllTunnels(excludeLighthouses: bool, order: seq<(uint64, VpnIp)>, encryptOk: bool) returns (closed: int)
      requires Valid()
      requires Distinct(order) && forall k :: k in order <==> k in f.hm.main.hosts
      modifies this, f, f.hm
      ensures Valid()
      ensures var p := ClosePass(order, old(f.hm.main), old(f.hm.infos), excludeLighthouses, f.hm.lighthouses, f.networkID);
        closedTunnels == old(closedTunnels) + p.1 && closed == |p.1| && f.hm.main == p.0
      ensures InNetwork(old(f.hm.main), f.networkID) ==>
        closedTunnels == old(closedTunnels) + Closable(order, old(f.hm.main), old(f.hm.infos), excludeLighthouses, f.hm.lighthouses)
        && forall k :: k in f.hm.main.hosts <==>
             k in old(f.hm.main).hosts && !Closes(k, old(f.hm.main), old(f.hm.infos), excludeLighthouses, f.hm.lighthouses)
      ensures SameSessions(old(f.hm.infos), f.hm.infos)
    {
      ghost var main0 := f.hm.main;
      ghost var infos0 := f.hm.infos;
      var ids := CloseEach(excludeLighthouses, order, encryptOk);
      closedTunnels := closedTunnels + ids;
      closed := |ids|;
      if InNetwork(main0, f.networkID) {
        ClosePassExact(order, main0, infos0, excludeLighthouses, f.hm.lighthouses, f.networkID);
      }
    }

    /** The loop of CloseAllTunnels: one ClosePass over the keys in `order`, returning the records it closed. */
    method CloseEach(excludeLighthouses: bool, order: seq<(uint64, VpnIp)>, encryptOk: bool) returns (ids: seq<HostId>)
      requires f.Valid()
      modifies f, f.hm
      ensures f.Valid() && SameSessions(old(f.hm.infos), f.hm.infos)
      ensures (f.hm.main, ids) == ClosePass(order, old(f.hm.main), old(f.hm.infos), excludeLighthouses, f.hm.lighthouses, f.networkID)
    {
      ghost var infos0 := f.hm.infos;
      ghost var main0 := f.hm.main;
      ghost var lighthouses := f.hm.lighthouses;
      ids := [];
      var i := 0;
      while i < |order|
        modifies f, f.hm
        invariant 0 <= i <= |order|
        invariant f.Valid() && SameSessions(infos0, f.hm.infos)
        invariant f.hm.main == ClosePass(order[..i], main0, infos0, excludeLighthouses, lighthouses, f.networkID).0
        invariant ids == ClosePass(order[..i], main0, infos0, excludeLighthouses, lighthouses, f.networkID).1
      {
        ClosePassStep(order, i, main0, infos0, excludeLighthouses, lighthouses, f.networkID);
        var closedId := CloseIfReady(order[i], excludeLighthouses, encryptOk, infos0);
        ghost var p := ClosePass(order[..i], main0, infos0, excludeLighthouses, lighthouses, f.networkID);
        if closedId.Some? {
          assert closedId.value == p.0.hosts[order[i]];
          ids := ids + [closedId.value];
        }
        i := i + 1;
      }
      assert order[..i] == order;
    }

    /**
     * Stop: close every tunnel except the lighthouses', then every tunnel
     * the first pass left (each pass visits the map as it then is, in its
     * own order), then close the interface and cancel its context.
     */
    method Stop(order1: seq<(uint64, VpnIp)>, order2: seq<(uint64, VpnIp)>, encryptOk: bool)
      requires Valid()
      requires Distinct(order1) && forall k :: k in order1 <==> k in f.hm.main.hosts
      requires Distinct(order2)
      requires forall k :: k in order2 <==>
        k in ClosePass(order1, f.hm.main, f.hm.infos, true, f.hm.lighthouses, f.networkID).0.hosts
      modifies this, f, f.hm
      ensures Valid()
      ensures var p1 := ClosePass(order1, old(f.hm.main), old(f.hm.infos), true, f.hm.lighthouses, f.networkID);
        var p2 := ClosePass(order2, p1.0, old(f.hm.infos), false, f.hm.lighthouses, f.networkID);
        closedTunnels == old(closedTunnels) + p1.1 + p2.1 && f.hm.main == p2.0
      ensures InNetwork(old(f.hm.main), f.networkID) ==>
        var p1 := ClosePass(order1, old(f.hm.main), old(f.hm.infos), true, f.hm.lighthouses, f.networkID);
        var p2 := ClosePass(order2, p1.0, old(f.hm.infos), false, f.hm.lighthouses, f.networkID);
        (forall id :: id in p1.1 ==> id in old(f.hm.infos) && old(f.hm.infos)[id].vpnIp !in f.hm.lighthouses)
        && (forall id :: id in p2.1 ==> id in old(f.hm.infos) && old(f.hm.infos)[id].vpnIp in f.hm.lighthouses)
        && (forall k :: Closes(k, old(f.hm.main), old(f.hm.infos), false, f.hm.lighthouses) ==>
              old(f.hm.main).hosts[k] in p1.1 + p2.1)
        && (forall k :: k in f.hm.main.hosts <==>
              k in old(f.hm.main).hosts && !Closes(k, old(f.hm.main), old(f.hm.infos), false, f.hm.lighthouses))
      ensures interfaceClosed && cancelled
    {
      ghost var infos0 := f.hm.infos;
      ghost var main0 := f.hm.main;
      CloseBothPasses(order1, order2, encryptOk);
      if InNetwork(main0, f.networkID) {
        StopClosesLighthousesLast(order1, order2, main0, infos0, f.hm.lighthouses, f.networkID);
      }
      interfaceClosed, cancelled := true, true;
    }

    /**
     * Stop's CloseAllTunnels(true) then CloseAllTunnels(false), whose counts
     * Stop discards: two passes, the second over the map the first left.
     */
    method CloseBothPasses(order1: seq<(uint64, VpnIp)>, order2: seq<(uint64, VpnIp)>, encryptOk: bool)
      requires Valid()
      modifies this, f, f.hm
      ensures Valid()
      ensures var p1 := ClosePass(order1, old(f.hm.main), old(f.hm.infos), true, f.hm.lighthouses, f.networkID);
        var p2 := ClosePass(order2, p1.0, old(f.hm.infos), false, f.hm.lighthouses, f.networkID);
        closedTunnels == old(closedTunnels) + p1.1 + p2.1 && f.hm.main == p2.0
    {
      ghost var infos0 := f.hm.infos;
      var ids1 := CloseEach(true, order1, encryptOk);
      ClosePassSessions(order2, f.hm.main, infos0, f.hm.infos, false, f.hm.lighthouses, f.networkID);
      var ids2 := CloseEach(false, order2, encryptOk);
      closedTunnels := closedTunnels + ids1 + ids2;
    }

    /**
     * SendNonTunMessage: Messaging.SendMessage to the address, as a main
     * message with sequence number 0.
     */
    method SendNonTunMessage(vpnIp: VpnIp, message: seq<uint8>, reach: Messaging.Reach,
                             acks: seq<Option<seq<uint8>>>)
      returns (reply: seq<uint8>, err: Option<string>)
      requires Valid()
      modifies messaging
      ensures Valid()
      ensures reach == Messaging.Unreachable ==> err == Some("Can't reach the host")
      ensures reach == Messaging.NotReady ==> err == Some("Host not ready")
      ensures reach == Messaging.Ready ==> (err.None? <==> Messaging.Acknowledged(acks))
      ensures reach == Messaging.Ready && Messaging.Acknowledged(acks) ==> reply == Messaging.AckPayload(acks)
    {
      var sent;
      reply, err, sent := messaging.SendMessage(vpnIp, message, Messaging.NonTunMessageMain, 0, reach, acks);
    }
  }

  /** A pass reads only what SameSessions keeps of the records. */
  lemma {:induction false} ClosePassSessions(order: seq<(uint64, VpnIp)>, main: HostMap, a: map<HostId, HostInfo>,
                                             b: map<HostId, HostInfo>, excludeLighthouses: bool, lighthouses: set<VpnIp>,
                                             networkID: uint64)
    requires SameSessions(a, b)
    ensures ClosePass(order, main, a, excludeLighthouses, lighthouses, networkID)
         == ClosePass(order, main, b, excludeLighthouses, lighthouses, networkID)
  {
    if |order| > 0 {
      ClosePassSessions(order[..|order| - 1], main, a, b, excludeLighthouses, lighthouses, networkID);
    }
  }
}
