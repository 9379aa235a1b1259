/**
 * handshake_manager.go: the per-peer retry machine that drives outbound
 * handshakes (direct, then through a relay, then abandoned), the promotion of
 * a finished handshake from the pending host map to the main one, and the
 * allocation of local indices.
 */
module HandshakeManagement {
  import opened Wrappers
  import opened GoTypes
  import opened HostMaps

  /** Defaults of HandshakeConfig, the interval in milliseconds. */
  const DEFAULT_HANDSHAKE_TRY_INTERVAL: int := 1000
  const DEFAULT_HANDSHAKE_RETRIES: int := 5
  const DEFAULT_HANDSHAKE_TRIGGER_BUFFER: nat := 64

  /** The local-index allocator gives up after this many draws that collide. */
  const INDEX_ATTEMPTS: nat := 32

  /**
   * hsTimeout: the longest delay the retry wheel is built for. Every delay the
   * retry machine schedules, one or two intervals, fits under it as soon as
   * there is at least one retry.
   */
  function HsTimeout(tries: int, interval: int): (r: int)
    ensures tries >= 1 && interval >= 0 ==> interval <= r && 2 * interval <= r
    ensures tries >= 0 && interval >= 0 ==> r >= 0
  {
    (tries + 1) * interval
  }

  /** A NetworkIPPair scheduled on the retry wheel with its delay. */
  datatype TimerEntry = TimerEntry(vpnIp: VpnIp, networkID: uint64, delay: int)

  /** The relay send handleOutbound asks the writer for: stage-0 packet, destination, source and relay. */
  datatype RelayRequest = RelayRequest(payload: seq<uint8>, dest: VpnIp, src: VpnIp,
                                       networkID: uint64, relayIP: Option<VpnIp>)

  /**
   * What the writer and the lighthouse answer during one retry: the relay
   * GetABetterRelayServer proposes, whether SendRelay succeeded, and what
   * QueryCache returns for a record without remotes.
   */
  datatype OutboundEnv = OutboundEnv(betterRelay: Option<VpnIp>, relayOk: bool, cached: Option<seq<Addr>>)

  /**
   * One retry of one record: its new value, whether it leaves the pending map,
   * the delay it is rescheduled at, the relay send it asked for, the remotes
   * the stage-0 packet was written to, and whether the lighthouse was queried.
   */
  datatype Step = Step(info: HostInfo, deletePending: bool, reschedule: Option<int>,
                       relaySend: Option<RelayRequest>, sendTo: seq<Addr>, queryServer: bool)

  function Idle(h: HostInfo, deletePending: bool, reschedule: Option<int>): Step
  {
    Step(h, deletePending, reschedule, None, [], false)
  }

  /** The relay branch: taken once the retries are spent, for a peer that is not a lighthouse. */
  predicate RelayBranch(h: HostInfo, retries: int, peerIsLighthouse: bool)
  {
    h.handshakeComplete == false && h.handshakeReady && h.handshakeCounter >= retries && !peerIsLighthouse
  }

  /**
   * handleOutbound for a record found in the pending map. A completed record
   * only leaves the pending map; one without a handshake packet is looked at
   * again after one interval; after `retries` attempts a non-lighthouse peer
   * is tried through a relay (a new relay at exactly twice the retries, given
   * up at three times); otherwise the stage-0 packet goes to every remote.
   */
  function OutboundStep(vpnIp: VpnIp, h: HostInfo, retries: int, tryInterval: int, peerIsLighthouse: bool,
                        cidrIp: VpnIp, lighthouseTriggered: bool, networkID: uint64, env: OutboundEnv): (s: Step)
    // completed: removed from pending, nothing else
    ensures h.handshakeComplete ==> s == Idle(h, true, None)
    // not ready: looked at again after one interval, nothing sent, nothing changed
    ensures !h.handshakeComplete && !h.handshakeReady ==> s == Idle(h, false, Some(tryInterval))
    // relay branch, no remotes: removed from pending
    ensures RelayBranch(h, retries, peerIsLighthouse) && (h.remotes.None? || |h.remotes.value| == 0) ==>
      s == Idle(h, true, None)
    // relay branch with remotes: one relay send of the stage-0 packet, a new relay only at 2 x retries
    ensures RelayBranch(h, retries, peerIsLighthouse) && h.remotes.Some? && |h.remotes.value| > 0 ==>
      s.relaySend == Some(RelayRequest(PacketAt(h, 0), vpnIp, cidrIp, networkID, s.info.relayIP))
      && s.info.relayIP == (if h.handshakeCounter == 2 * retries then env.betterRelay else h.relayIP)
      && s.info.networkID == networkID && s.sendTo == [] && !s.queryServer
      && (!env.relayOk ==> s.info.handshakeCounter == h.handshakeCounter && s.info.relay == h.relay
                           && !s.deletePending && s.reschedule.None?)
      && (env.relayOk ==> s.info.relay == 1 && s.info.handshakeCounter == h.handshakeCounter + 1
                          && (s.deletePending <==> h.handshakeCounter + 1 >= 3 * retries)
                          && s.reschedule == (if s.deletePending || lighthouseTriggered then None else Some(2 * tryInterval)))
    // direct branch: a lighthouse peer past its retries leaves pending but is still tried
    ensures !h.handshakeComplete && h.handshakeReady && !RelayBranch(h, retries, peerIsLighthouse) ==>
      s.relaySend.None? && (s.deletePending <==> h.handshakeCounter >= retries)
    // direct branch, lighthouse-triggered after a first attempt: nothing sent
    ensures !h.handshakeComplete && h.handshakeReady && !RelayBranch(h, retries, peerIsLighthouse)
            && lighthouseTriggered && h.handshakeCounter > 0 ==>
      s.info == h && s.sendTo == [] && s.reschedule.None? && !s.queryServer
    // direct branch otherwise: to every remote, one more attempt, the lighthouse queried for a short list
    ensures !h.handshakeComplete && h.handshakeReady && !RelayBranch(h, retries, peerIsLighthouse)
            && !(lighthouseTriggered && h.handshakeCounter > 0) ==>
      var remotes := if h.remotes.None? then env.cached else h.remotes;
      s.info == h.(remotes := remotes, handshakeCounter := h.handshakeCounter + 1)
      && s.sendTo == (if remotes.Some? then remotes.value else [])
      && (s.queryServer <==> remotes.Some? && |remotes.value| <= 1)
      && s.reschedule == (if lighthouseTriggered then None else Some(tryInterval))
  {
    if h.handshakeComplete then Idle(h, true, None)
    else if !h.handshakeReady then Idle(h, false, Some(tryInterval))
    else if h.handshakeCounter >= retries && !peerIsLighthouse then
      if h.remotes.None? || |h.remotes.value| == 0 then Idle(h, true, None)
      else
        var h1 := if h.handshakeCounter == 2 * retries then h.(relayIP := env.betterRelay) else h;
        var h2 := h1.(networkID := networkID);
        var req := RelayRequest(PacketAt(h2, 0), vpnIp, cidrIp, networkID, h2.relayIP);
        if !env.relayOk then Step(h2, false, None, Some(req), [], false)
        else
          var h3 := h2.(relay := 1, handshakeCounter := h2.handshakeCounter + 1);
          if h3.handshakeCounter >= 3 * retries then Step(h3, true, None, Some(req), [], false)
          else Step(h3, false, if lighthouseTriggered then None else Some(2 * tryInterval), Some(req), [], false)
    else
      var timedOut := h.handshakeCounter >= retries;
      if lighthouseTriggered && h.handshakeCounter > 0 then Idle(h, timedOut, None)
      else
        var h1 := if h.remotes.None? then h.(remotes := env.cached) else h;
        var query := h1.remotes.Some? && |h1.remotes.value| <= 1;
        var to := if h1.remotes.Some? then h1.remotes.value else [];
        Step(h1.(handshakeCounter := h1.handshakeCounter + 1), timedOut,
             if lighthouseTriggered then None else Some(tryInterval), None, to, query)
  }

  /**
   * A retry never changes which record it is about, and moves the counter by
   * at most one.
   */
  lemma OutboundKeepsIdentity(vpnIp: VpnIp, h: HostInfo, retries: int, tryInterval: int, peerIsLighthouse: bool,
                              cidrIp: VpnIp, lighthouseTriggered: bool, networkID: uint64, env: OutboundEnv)
    ensures var s := OutboundStep(vpnIp, h, retries, tryInterval, peerIsLighthouse, cidrIp, lighthouseTriggered, networkID, env);
      s.info.vpnIp == h.vpnIp && s.info.localIndexId == h.localIndexId && s.info.remoteIndexId == h.remoteIndexId
      && h.handshakeCounter <= s.info.handshakeCounter <= h.handshakeCounter + 1
  {
  }

  /**
   * Every delay the retry machine schedules fits in the wheel built by
   * NewHandshakeManager, once there is at least one retry.
   */
  lemma OutboundDelayFitsWheel(vpnIp: VpnIp, h: HostInfo, retries: int, tryInterval: int, peerIsLighthouse: bool,
                               cidrIp: VpnIp, lighthouseTriggered: bool, networkID: uint64, env: OutboundEnv)
    requires retries >= 1 && tryInterval >= 0
    ensures var s := OutboundStep(vpnIp, h, retries, tryInterval, peerIsLighthouse, cidrIp, lighthouseTriggered, networkID, env);
      s.reschedule.Some? ==> 0 <= s.reschedule.value <= HsTimeout(retries, tryInterval)
  {
    var _ := HsTimeout(retries, tryInterval);
  }

  /**
   * Abandonment: a record whose relay sends keep succeeding is rescheduled
   * at most 3 x retries - counter times before it leaves the pending map,
   * since each relay attempt raises the counter by one.
   */
  lemma RelayAttemptsBounded(vpnIp: VpnIp, h: HostInfo, retries: int, tryInterval: int,
                             cidrIp: VpnIp, networkID: uint64, env: OutboundEnv)
    requires RelayBranch(h, retries, false) && h.remotes.Some? && |h.remotes.value| > 0 && env.relayOk
    ensures var s := OutboundStep(vpnIp, h, retries, tryInterval, false, cidrIp, false, networkID, env);
      (s.deletePending <==> 3 * retries - s.info.handshakeCounter <= 0)
      && 3 * retries - s.info.handshakeCounter < 3 * retries - h.handshakeCounter
  {
  }

  /** The errors of CheckAndComplete, in the order it checks for them. */
  datatype HsError = ErrAlreadySeen | ErrExistingHostInfo | ErrLocalIndexCollision | ErrExistingHandshake

  /** The record arena and the two host maps. */
  datatype Tables = Tables(infos: map<HostId, HostInfo>, pending: HostMap, main: HostMap)

  predicate TablesValid(t: Tables)
  {
    Ids(t.pending) <= t.infos.Keys && Ids(t.main) <= t.infos.Keys
    && AddressesAgree(t.main, t.infos)
    && IndexesAgree(t.pending, t.main)
  }

  /** The outcome of a completion: the record it reports, its error, and the tables after it. */
  datatype Completion = Completion(other: Option<HostId>, err: Option<HsError>, tables: Tables)

  /** bytes.Equal on the handshake packets stored under one key, the missing one being nil. */
  predicate SamePacket(a: HostInfo, b: HostInfo, k: uint8)
  {
    PacketAt(a, k) == PacketAt(b, k)
  }

  /** The local index is already taken in main, or in pending by another record. */
  predicate IndexCollides(t: Tables, hid: HostId, networkID: uint64)
    requires hid in t.infos
  {
    var index := t.infos[hid].localIndexId;
    QueryIndex(t.main, networkID, index).Some?
    || (QueryIndex(t.pending, networkID, index).Some? && QueryIndex(t.pending, networkID, index).value != hid)
  }

  /**
   * CheckAndComplete: the checks in their order of precedence, then the
   * promotion. On every error the tables are untouched. On success the
   * record's network becomes `networkID`; with `overwrite`, a pending rival
   * for the same address hands over its cached packets and leaves pending;
   * the old main record for the address loses its three keys; and the record
   * is registered in main under its own three keys.
   */
  function CheckAndCompleteOf(t: Tables, hid: HostId, hp: uint8, overwrite: bool, networkID: uint64): (c: Completion)
    requires TablesValid(t) && hid in t.infos
    ensures TablesValid(c.tables) && c.tables.infos.Keys == t.infos.Keys
    ensures c.err.Some? ==> c.tables == t
    ensures c.other.Some? ==> c.other.value in t.infos
    ensures var existing := QueryVpnIp(t.main, networkID, t.infos[hid].vpnIp);
      (c.err == Some(ErrAlreadySeen) <==>
         existing.Some? && SamePacket(t.infos[hid], t.infos[existing.value], hp))
      && (c.err == Some(ErrExistingHostInfo) <==>
         existing.Some? && !SamePacket(t.infos[hid], t.infos[existing.value], hp)
         && t.infos[existing.value].lastHandshakeTime >= t.infos[hid].lastHandshakeTime)
      && (c.err == Some(ErrLocalIndexCollision) <==>
         !(existing.Some? && (SamePacket(t.infos[hid], t.infos[existing.value], hp)
                              || t.infos[existing.value].lastHandshakeTime >= t.infos[hid].lastHandshakeTime))
         && IndexCollides(t, hid, networkID))
      && (c.err == Some(ErrExistingHandshake) <==>
         !(existing.Some? && (SamePacket(t.infos[hid], t.infos[existing.value], hp)
                              || t.infos[existing.value].lastHandshakeTime >= t.infos[hid].lastHandshakeTime))
         && !IndexCollides(t, hid, networkID)
         && QueryVpnIp(t.pending, networkID, t.infos[hid].vpnIp).Some? && !overwrite)
      && (c.err == Some(ErrExistingHandshake) ==> c.other == QueryVpnIp(t.pending, networkID, t.infos[hid].vpnIp))
      && (c.err.None? || c.err == Some(ErrAlreadySeen) || c.err == Some(ErrExistingHostInfo) ==> c.other == existing)
    ensures c.err.None? ==> c.tables == Promote(t, hid, networkID)
  {
    var h := t.infos[hid];
    var existing := QueryVpnIp(t.main, networkID, h.vpnIp);
    if existing.Some? && SamePacket(h, t.infos[existing.value], hp) then
      Completion(existing, Some(ErrAlreadySeen), t)
    else if existing.Some? && t.infos[existing.value].lastHandshakeTime >= h.lastHandshakeTime then
      Completion(existing, Some(ErrExistingHostInfo), t)
    else if QueryIndex(t.main, networkID, h.localIndexId).Some? then
      Completion(QueryIndex(t.main, networkID, h.localIndexId), Some(ErrLocalIndexCollision), t)
    else if QueryIndex(t.pending, networkID, h.localIndexId).Some?
            && QueryIndex(t.pending, networkID, h.localIndexId).value != hid then
      Completion(QueryIndex(t.pending, networkID, h.localIndexId), Some(ErrLocalIndexCollision), t)
    else
      var rival := QueryVpnIp(t.pending, networkID, h.vpnIp);
      if rival.Some? && !overwrite then Completion(rival, Some(ErrExistingHandshake), t)
      else Completion(existing, None, Promote(t, hid, networkID))
  }

  /**
   * The promotion CheckAndComplete performs once no check failed. The record
   * takes the network it completed in and the cached packets of a pending
   * rival for its address, which leaves pending; the main record it replaces
   * loses its three keys; the record is registered in main; no other record
   * changes.
   */
  function Promote(t: Tables, hid: HostId, networkID: uint64): (r: Tables)
    requires TablesValid(t) && hid in t.infos && !IndexCollides(t, hid, networkID)
    ensures TablesValid(r) && r.infos.Keys == t.infos.Keys
    ensures var h := t.infos[hid];
      var rival := QueryVpnIp(t.pending, networkID, h.vpnIp);
      r.infos == t.infos[hid := h.(networkID := networkID,
                                   packetStore := h.packetStore + (if rival.Some? then t.infos[rival.value].packetStore else []))]
      && QueryVpnIp(r.main, networkID, h.vpnIp) == Some(hid)
      && QueryIndex(r.main, networkID, h.localIndexId) == Some(hid)
      && (rival.Some? ==> QueryVpnIp(r.pending, t.infos[rival.value].networkID, t.infos[rival.value].vpnIp).None?)
      && (rival.None? ==> r.pending == t.pending)
  {
    var h := t.infos[hid];
    var existing := QueryVpnIp(t.main, networkID, h.vpnIp);
    var rival := QueryVpnIp(t.pending, networkID, h.vpnIp);
    var store := h.packetStore + (if rival.Some? then t.infos[rival.value].packetStore else []);
    var replaced := if existing.Some? then t.infos[existing.value] else h;
    var pending := if rival.Some? then DeleteHostInfo(t.pending, t.infos[rival.value]) else t.pending;
    var main := if existing.Some? then Unlink(t.main, networkID, replaced) else t.main;
    var h' := h.(packetStore := store, networkID := networkID);
    UnlinkAgrees(t.main, t.infos, networkID, replaced);
    UpdateAgrees(main, t.infos, hid, h');
    AddAgrees(main, t.infos[hid := h'], hid, h');
    Tables(t.infos[hid := h'], pending, AddHostInfo(main, hid, h'))
  }

  /**
   * Promote leaves every other address of the main map on its record, and
   * every other local index except the replaced record's; the address index
   * gains the promoted address and loses no other.
   */
  lemma PromoteFrame(t: Tables, hid: HostId, networkID: uint64)
    requires TablesValid(t) && hid in t.infos && !IndexCollides(t, hid, networkID)
    ensures var h := t.infos[hid];
      var existing := QueryVpnIp(t.main, networkID, h.vpnIp);
      (forall k :: k in t.main.hosts && k != (networkID, h.vpnIp) ==> k in Promote(t, hid, networkID).main.hosts && Promote(t, hid, networkID).main.hosts[k] == t.main.hosts[k])
      && (forall k :: k in t.main.indexes && k != (networkID, h.localIndexId)
                      && (existing.None? || k != (networkID, t.infos[existing.value].localIndexId)) ==>
            k in Promote(t, hid, networkID).main.indexes && Promote(t, hid, networkID).main.indexes[k] == t.main.indexes[k])
      && Promote(t, hid, networkID).main.hosts.Keys == t.main.hosts.Keys + {(networkID, h.vpnIp)}
  {
  }

  /**
   * A promotion that replaces an older main record leaves none of that
   * record's keys behind, except those the new record shares with it.
   */
  lemma PromoteDropsOldKeys(t: Tables, hid: HostId, networkID: uint64)
    requires TablesValid(t) && hid in t.infos && !IndexCollides(t, hid, networkID)
    requires QueryVpnIp(t.main, networkID, t.infos[hid].vpnIp).Some?
    ensures var old_ := t.infos[QueryVpnIp(t.main, networkID, t.infos[hid].vpnIp).value];
      var m := Promote(t, hid, networkID).main;
      (old_.localIndexId != t.infos[hid].localIndexId ==> (networkID, old_.localIndexId) !in m.indexes)
      && (old_.remoteIndexId != t.infos[hid].remoteIndexId ==> (networkID, old_.remoteIndexId) !in m.remoteIndexes)
  {
  }

  /**
   * Complete: the old main record for the address loses its keys, the record
   * takes the node's own network (the caller's on a lighthouse), is
   * registered in main and leaves pending.
   */
  function CompleteOf(t: Tables, hid: HostId, networkID: uint64, amLighthouse: bool, ownNetworkID: uint64): (r: Tables)
    requires TablesValid(t) && hid in t.infos
    ensures TablesValid(r) && r.infos.Keys == t.infos.Keys
    ensures var nid := if amLighthouse then networkID else ownNetworkID;
      var h := t.infos[hid];
      r.infos == t.infos[hid := h.(networkID := nid)]
      && QueryVpnIp(r.main, nid, h.vpnIp) == Some(hid)
      && QueryIndex(r.main, nid, h.localIndexId) == Some(hid)
      && QueryVpnIp(r.pending, nid, h.vpnIp).None?
      && QueryIndex(r.pending, nid, h.localIndexId).None?
    ensures var h := t.infos[hid];
      var existing := QueryVpnIp(t.main, networkID, h.vpnIp);
      existing.Some? && (amLighthouse || ownNetworkID == networkID) ==>
        (t.infos[existing.value].localIndexId != h.localIndexId ==>
           (networkID, t.infos[existing.value].localIndexId) !in r.main.indexes)
        && (t.infos[existing.value].remoteIndexId != h.remoteIndexId ==>
           (networkID, t.infos[existing.value].remoteIndexId) !in r.main.remoteIndexes)
  {
    var h := t.infos[hid];
    var existing := QueryVpnIp(t.main, networkID, h.vpnIp);
    var replaced := if existing.Some? then t.infos[existing.value] else h;
    var main := if existing.Some? then Unlink(t.main, networkID, replaced) else t.main;
    var nid := if amLighthouse then networkID else ownNetworkID;
    var h' := h.(networkID := nid);
    UnlinkAgrees(t.main, t.infos, networkID, replaced);
    UpdateAgrees(main, t.infos, hid, h');
    AddAgrees(main, t.infos[hid := h'], hid, h');
    Tables(t.infos[hid := h'], DeleteHostInfo(t.pending, h'), AddHostInfo(main, hid, h'))
  }

  /** A draw of rand.Read that ends generateIndex's loop: an error, or a non-zero value. */
  predicate Decisive(d: Result<uint32, string>)
  {
    d.Err? || d.value != 0
  }

  /** How many draws from `from` on end a generateIndex loop. */
  function CountDecisive(draws: seq<Result<uint32, string>>, from: nat): (n: nat)
    ensures n <= |draws| - from || (from >= |draws| && n == 0)
    decreases |draws| - from
  {
    if from >= |draws| then 0
    else (if Decisive(draws[from]) then 1 else 0) + CountDecisive(draws, from + 1)
  }

  /** The draw generateIndex stops at, reading from `from`: the first decisive one. */
  function NextDraw(draws: seq<Result<uint32, string>>, from: nat): (k: nat)
    requires CountDecisive(draws, from) >= 1
    ensures from <= k < |draws| && Decisive(draws[k])
    ensures forall j :: from <= j < k ==> draws[j] == Ok(0)
    ensures CountDecisive(draws, k + 1) == CountDecisive(draws, from) - 1
    decreases |draws| - from
  {
    if Decisive(draws[from]) then from else NextDraw(draws, from + 1)
  }

  /**
   * generateIndex: reads 4-byte values until one is non-zero; a read error is
   * returned at once. Zero is never returned, since it means "unknown index".
   */
  method GenerateIndex(draws: seq<Result<uint32, string>>, from: nat) returns (r: Result<uint32, string>, next: nat)
    requires CountDecisive(draws, from) >= 1
    ensures next == NextDraw(draws, from) + 1 && r == draws[next - 1]
    ensures r.Ok? ==> r.value != 0
  {
    var index: uint32 := 0;
    var k := NextDraw(draws, from);
    next := from;
    while index == 0
      invariant from <= next <= k + 1
      invariant index == 0 ==> next <= k
      invariant index != 0 ==> next == k + 1 && draws[k] == Ok(index)
      decreases k + 1 - next
    {
      var d := draws[next];
      next := next + 1;
      if d.Err? {
        return d, next;
      }
      index := d.value;
    }
    r := Ok(index);
  }

  /** An index no record uses in the network, in pending or in main. */
  predicate IndexFree(pending: HostMap, main: HostMap, networkID: uint64, index: uint32)
  {
    (networkID, index) !in pending.indexes && (networkID, index) !in main.indexes
  }

  /**
   * AddIndexHostInfo's search over its remaining `tries`: the first draw
   * error, or the first generated index free in both maps, or failure.
   */
  function ChooseIndex(draws: seq<Result<uint32, string>>, from: nat, tries: nat,
                       pending: HostMap, main: HostMap, networkID: uint64): (r: Result<uint32, string>)
    requires CountDecisive(draws, from) >= tries
    ensures r.Ok? ==> r.value != 0 && IndexFree(pending, main, networkID, r.value)
    ensures r.Err? ==> r.error == "failed to generate unique localIndexId"
                       || exists k :: from <= k < |draws| && draws[k] == Err(r.error)
    decreases tries
  {
    if tries == 0 then Err("failed to generate unique localIndexId")
    else
      var k := NextDraw(draws, from);
      match draws[k]
      case Err(e) => Err(e)
      case Ok(index) =>
        if IndexFree(pending, main, networkID, index) then Ok(index)
        else ChooseIndex(draws, k + 1, tries - 1, pending, main, networkID)
  }

  /** When every draw is a taken index, the search gives up with its own error. */
  lemma {:induction false} ChooseIndexGivesUp(draws: seq<Result<uint32, string>>, from: nat, tries: nat,
                                              pending: HostMap, main: HostMap, networkID: uint64)
    requires CountDecisive(draws, from) >= tries
    requires forall j :: from <= j < |draws| ==> draws[j].Ok? && (draws[j].value == 0 || !IndexFree(pending, main, networkID, draws[j].value))
    ensures ChooseIndex(draws, from, tries, pending, main, networkID) == Err("failed to generate unique localIndexId")
    decreases tries
  {
    if tries > 0 {
      var k := NextDraw(draws, from);
      ChooseIndexGivesUp(draws, k + 1, tries - 1, pending, main, networkID);
    }
  }

  /** A record that keeps its address keeps the tables valid, also when it leaves pending. */
  lemma UpdateValid(t: Tables, id: HostId, h: HostInfo)
    requires TablesValid(t) && id in t.infos && h.vpnIp == t.infos[id].vpnIp
    ensures TablesValid(Tables(t.infos[id := h], t.pending, t.main))
    ensures TablesValid(Tables(t.infos[id := h], DeleteHostInfo(t.pending, h), t.main))
  {
    UpdateAgrees(t.main, t.infos, id, h);
  }

  /** A new record, registered in pending under its own address or not at all, keeps the tables valid. */
  lemma FreshValid(t: Tables, id: HostId, h: HostInfo, networkID: uint64)
    requires TablesValid(t) && id !in t.infos
    ensures TablesValid(Tables(t.infos[id := h], t.pending, t.main))
    ensures TablesValid(Tables(t.infos[id := h], t.pending.(hosts := t.pending.hosts[(networkID, h.vpnIp) := id]), t.main))
  {
    FreshAgrees(t.main, t.infos, id, h);
  }

  /** A record taking a new local index, registered for it in pending, keeps the tables valid. */
  lemma RegisterValid(t: Tables, hid: HostId, networkID: uint64, index: uint32)
    requires TablesValid(t) && hid in t.infos && IndexFree(t.pending, t.main, networkID, index)
    ensures TablesValid(Tables(t.infos[hid := t.infos[hid].(localIndexId := index)],
                               t.pending.(indexes := t.pending.indexes[(networkID, index) := hid]), t.main))
  {
    UpdateAgrees(t.main, t.infos, hid, t.infos[hid].(localIndexId := index));
  }

  /**
   * The handshake manager: the record arena, the pending map it owns, the
   * main map it shares with the interface, the retry wheel and the trigger
   * channel.
   */
  class HandshakeManager {
    var infos: map<HostId, HostInfo>
    var next: HostId
    var pending: HostMap
    var main: HostMap
    var wheel: seq<TimerEntry>
    var trigger: seq<(VpnIp, uint64)>

    const retries: int
    const tryInterval: int
    const triggerBuffer: nat
    const networkID: uint64
    const lighthouses: set<VpnIp>
    const amLighthouse: bool
    /** The address of the overlay network, the source of relayed handshakes. */
    const cidrIp: VpnIp
    /** The longest delay the wheel accepts. */
    const wheelMax: int

    predicate Valid()
      reads this
    {
      TablesValid(TablesOf())
      && (forall id :: id in infos ==> id < next)
      && |trigger| <= triggerBuffer
    }

    function TablesOf(): Tables
      reads this
    {
      Tables(infos, pending, main)
    }

    /** NewHandshakeManager: empty maps, a wheel sized by hsTimeout. */
    constructor(retries: int, tryInterval: int, triggerBuffer: nat, networkID: uint64,
                lighthouses: set<VpnIp>, amLighthouse: bool, cidrIp: VpnIp)
      ensures Valid()
      ensures this.retries == retries && this.tryInterval == tryInterval && this.triggerBuffer == triggerBuffer
      ensures this.networkID == networkID && this.lighthouses == lighthouses && this.amLighthouse == amLighthouse
      ensures this.cidrIp == cidrIp
      ensures wheelMax == HsTimeout(retries, tryInterval)
      ensures infos == map[] && pending == EMPTY_HOST_MAP && main == EMPTY_HOST_MAP && wheel == [] && trigger == []
    {
      this.retries := retries;
      this.tryInterval := tryInterval;
      this.triggerBuffer := triggerBuffer;
      this.networkID := networkID;
      this.lighthouses := lighthouses;
      this.amLighthouse := amLighthouse;
      this.cidrIp := cidrIp;
      wheelMax := HsTimeout(retries, tryInterval);
      infos := map[];
      next := 0;
      pending := EMPTY_HOST_MAP;
      main := EMPTY_HOST_MAP;
      wheel := [];
      trigger := [];
    }

    /**
     * handleOutbound: nothing when the address has no pending record;
     * otherwise the retry step is applied to the record, the pending map and
     * the wheel, and returned so that its sends can be made.
     */
    method HandleOutbound(vpnIp: VpnIp, lighthouseTriggered: bool, networkID: uint64, env: OutboundEnv)
      returns (step: Option<Step>)
      requires Valid()
      modifies this
      ensures Valid()
      ensures next == old(next) && main == old(main) && trigger == old(trigger)
      ensures QueryVpnIp(old(pending), networkID, vpnIp).None? ==>
        step.None? && infos == old(infos) && pending == old(pending) && wheel == old(wheel)
      ensures QueryVpnIp(old(pending), networkID, vpnIp).Some? ==>
        var id := QueryVpnIp(old(pending), networkID, vpnIp).value;
        var s := OutboundStep(vpnIp, old(infos)[id], retries, tryInterval, old(infos)[id].vpnIp in lighthouses,
                              cidrIp, lighthouseTriggered, networkID, env);
        step == Some(s)
        && infos == old(infos)[id := s.info]
        && pending == (if s.deletePending then DeleteHostInfo(old(pending), s.info) else old(pending))
        && wheel == old(wheel) + (if s.reschedule.Some? then [TimerEntry(vpnIp, networkID, s.reschedule.value)] else [])
    {
      var found := QueryVpnIp(pending, networkID, vpnIp);
      if found.None? {
        return None;
      }
      var id := found.value;
      var s := OutboundStep(vpnIp, infos[id], retries, tryInterval, infos[id].vpnIp in lighthouses,
                            cidrIp, lighthouseTriggered, networkID, env);
      OutboundKeepsIdentity(vpnIp, infos[id], retries, tryInterval, infos[id].vpnIp in lighthouses,
                            cidrIp, lighthouseTriggered, networkID, env);
      Retire(id, s.info, s.deletePending);
      if s.reschedule.Some? {
        wheel := wheel + [TimerEntry(vpnIp, networkID, s.reschedule.value)];
      }
      step := Some(s);
    }

    /** The record takes its retried value, and leaves pending when the step says so. */
    method Retire(id: HostId, info: HostInfo, deletePending: bool)
      requires Valid() && id in infos && info.vpnIp == infos[id].vpnIp
      modifies this
      ensures Valid()
      ensures infos == old(infos)[id := info]
      ensures pending == (if deletePending then DeleteHostInfo(old(pending), info) else old(pending))
      ensures next == old(next) && main == old(main) && trigger == old(trigger) && wheel == old(wheel)
    {
      UpdateValid(TablesOf(), id, info);
      infos := infos[id := info];
      if deletePending {
        pending := DeleteHostInfo(pending, info);
      }
    }

    /**
     * AddVpnIp: the pending record for the address, created (with the session
     * the initializer built) and scheduled at one interval only when there was
     * none.
     */
    method AddVpnIp(vpnIp: VpnIp, networkID: uint64, session: Option<ConnState>) returns (id: HostId, created: bool)
      requires Valid()
      modifies this
      ensures Valid()
      ensures main == old(main) && trigger == old(trigger)
      ensures created <==> QueryVpnIp(old(pending), networkID, vpnIp).None?
      ensures !created ==> Some(id) == QueryVpnIp(old(pending), networkID, vpnIp)
                           && infos == old(infos) && pending == old(pending) && wheel == old(wheel)
      ensures created ==> id !in old(infos)
                          && infos == old(infos)[id := NewHostInfo(vpnIp, networkID).(connectionState := session)]
                          && pending == old(pending).(hosts := old(pending).hosts[(networkID, vpnIp) := id])
                          && wheel == old(wheel) + [TimerEntry(vpnIp, networkID, tryInterval)]
      ensures id in infos && QueryVpnIp(pending, networkID, vpnIp) == Some(id)
    {
      var found := QueryVpnIp(pending, networkID, vpnIp);
      if found.Some? {
        return found.value, false;
      }
      id := next;
      next := next + 1;
      FreshValid(TablesOf(), id, NewHostInfo(vpnIp, networkID).(connectionState := session), networkID);
      infos := infos[id := NewHostInfo(vpnIp, networkID).(connectionState := session)];
      pending := pending.(hosts := pending.hosts[(networkID, vpnIp) := id]);
      wheel := wheel + [TimerEntry(vpnIp, networkID, tryInterval)];
      created := true;
    }

    /** A record created outside the pending map, such as the responder's record for an incoming handshake. */
    method NewRecord(h: HostInfo) returns (id: HostId)
      requires Valid()
      modifies this
      ensures Valid()
      ensures id !in old(infos) && infos == old(infos)[id := h]
      ensures pending == old(pending) && main == old(main) && wheel == old(wheel) && trigger == old(trigger)
    {
      id := next;
      next := next + 1;
      FreshValid(TablesOf(), id, h, networkID);
      infos := infos[id := h];
    }

    /** The non-blocking send on the trigger channel: dropped when the buffer is full. */
    method Trigger(vpnIp: VpnIp, networkID: uint64) returns (sent: bool)
      requires Valid()
      modifies this
      ensures Valid()
      ensures sent <==> |old(trigger)| < triggerBuffer
      ensures trigger == old(trigger) + (if sent then [(vpnIp, networkID)] else [])
      ensures infos == old(infos) && next == old(next) && pending == old(pending) && main == old(main) && wheel == old(wheel)
    {
      sent := |trigger| < triggerBuffer;
      if sent {
        trigger := trigger + [(vpnIp, networkID)];
      }
    }

    /** CheckAndComplete over the manager's tables. */
    method CheckAndComplete(hid: HostId, hp: uint8, overwrite: bool, networkID: uint64)
      returns (other: Option<HostId>, err: Option<HsError>)
      requires Valid() && hid in infos
      modifies this
      ensures Valid()
      ensures var c := CheckAndCompleteOf(old(TablesOf()), hid, hp, overwrite, networkID);
        other == c.other && err == c.err && TablesOf() == c.tables
      ensures next == old(next) && wheel == old(wheel) && trigger == old(trigger)
    {
      var c := CheckAndCompleteOf(TablesOf(), hid, hp, overwrite, networkID);
      infos, pending, main := c.tables.infos, c.tables.pending, c.tables.main;
      other, err := c.other, c.err;
    }

    /** Complete over the manager's tables. */
    method Complete(hid: HostId, networkID: uint64)
      requires Valid() && hid in infos
      modifies this
      ensures Valid()
      ensures TablesOf() == CompleteOf(old(TablesOf()), hid, networkID, amLighthouse, this.networkID)
      ensures next == old(next) && wheel == old(wheel) && trigger == old(trigger)
    {
      var t := CompleteOf(TablesOf(), hid, networkID, amLighthouse, this.networkID);
      infos, pending, main := t.infos, t.pending, t.main;
    }

    /** DeleteHostInfo on the pending map. */
    method DeletePending(hid: HostId)
      requires Valid() && hid in infos
      modifies this
      ensures Valid()
      ensures pending == DeleteHostInfo(old(pending), old(infos)[hid])
      ensures infos == old(infos) && next == old(next) && main == old(main) && wheel == old(wheel) && trigger == old(trigger)
    {
      pending := DeleteHostInfo(pending, infos[hid]);
    }

    /** The record takes a free index as its local index, registered for it in pending. */
    method RegisterIndex(hid: HostId, networkID: uint64, index: uint32)
      requires Valid() && hid in infos && IndexFree(pending, main, networkID, index)
      modifies this
      ensures Valid()
      ensures next == old(next) && main == old(main) && wheel == old(wheel) && trigger == old(trigger)
      ensures infos == old(infos)[hid := old(infos)[hid].(localIndexId := index)]
      ensures pending == old(pending).(indexes := old(pending).indexes[(networkID, index) := hid])
    {
      RegisterValid(TablesOf(), hid, networkID, index);
      infos := infos[hid := infos[hid].(localIndexId := index)];
      pending := pending.(indexes := pending.indexes[(networkID, index) := hid]);
    }

    /**
     * AddIndexHostInfo: up to 32 generated indices; the first free in both
     * maps becomes the record's local index and is registered for it in
     * pending. A draw error, or 32 collisions, is returned with nothing changed.
     */
    method AddIndexHostInfo(hid: HostId, networkID: uint64, draws: seq<Result<uint32, string>>)
      returns (err: Option<string>)
      requires Valid() && hid in infos
      requires CountDecisive(draws, 0) >= INDEX_ATTEMPTS
      modifies this
      ensures Valid()
      ensures next == old(next) && main == old(main) && wheel == old(wheel) && trigger == old(trigger)
      ensures var r := ChooseIndex(draws, 0, INDEX_ATTEMPTS, old(pending), old(main), networkID);
        (r.Err? ==> err == Some(r.error) && infos == old(infos) && pending == old(pending))
        && (r.Ok? ==> err.None?
                      && infos == old(infos)[hid := old(infos)[hid].(localIndexId := r.value)]
                      && pending == old(pending).(indexes := old(pending).indexes[(networkID, r.value) := hid]))
    {
      var pos := 0;
      var i := 0;
      while i < INDEX_ATTEMPTS
        invariant 0 <= i <= INDEX_ATTEMPTS
        invariant CountDecisive(draws, pos) >= INDEX_ATTEMPTS - i
        invariant ChooseIndex(draws, pos, INDEX_ATTEMPTS - i, pending, main, networkID)
               == ChooseIndex(draws, 0, INDEX_ATTEMPTS, pending, main, networkID)
        invariant infos == old(infos) && pending == old(pending)
        invariant next == old(next) && main == old(main) && wheel == old(wheel) && trigger == old(trigger)
      {
        var index, p := GenerateIndex(draws, pos);
        assert ChooseIndex(draws, pos, INDEX_ATTEMPTS - i, pending, main, networkID)
            == if index.Err? then Err(index.error)
               else if IndexFree(pending, main, networkID, index.value) then Ok(index.value)
               else ChooseIndex(draws, p, INDEX_ATTEMPTS - i - 1, pending, main, networkID);
        if index.Err? {
          return Some(index.error);
        }
        pos := p;
        if IndexFree(pending, main, networkID, index.value) {
          RegisterIndex(hid, networkID, index.value);
          return None;
        }
        i := i + 1;
      }
      err := Some("failed to generate unique localIndexId");
    }
  }
}
