/**
 * router/router_telemetry.go: the router's registry of LAN clients and
 * repeaters, fed by traffic and wireless telemetry, and the ring of the last
 * eight router events the app is told about (with the event constants of
 * router/router_common.go and the two flag setters of router/router_server.go).
 *
 * Clients are records in an arena: the registry maps a MAC address to a
 * record id, so an alias MAC (a repeater's second address) and an event can
 * refer to the same record, as the pointers of the source do.
 */
module RouterTelemetry {
  import opened Wrappers
  import opened GoStrings
  import opened Strconv
  import NhUtil
  import RouterAsus

  const MAX_NUMBER_OF_EVENTS: nat := 8
  const MAX_NUM_OF_REPEATERS: nat := 5
  /** messages.MAX_NUM_OF_CLIENTS: the size of the array dumpClientsJson fills. */
  const MAX_NUM_OF_CLIENTS: nat := 128
  const CLIENT_NAME_MAX_LENGTH: nat := 32
  /** ClientType WIRED and WIRELESS. */
  const WIRED: int := 0
  const WIRELESS: int := 1
  /** A day and a week, in seconds. */
  const DAY: int := 24 * 3600
  const WEEK: int := 24 * 7 * 3600

  type ClientId = nat

  datatype EventType = NewClientEvent | BlockedIpEvent

  /** RouterClient: one LAN client as the registry keeps it. */
  datatype RouterClient = RouterClient(macAddress: string, ipAddress: string, name: string, fwver: string,
                                       isRepeater: bool, clientType: int, channel: int, rssi: int, dirty: bool,
                                       paused: bool, lastseen: int)

  /** RouterEvent, with a serial number standing for the identity of the event object. */
  datatype RouterEvent = RouterEvent(serial: nat, active: bool, etype: EventType, extra: string, client: ClientId,
                                     tstamp: int)

  datatype Repeater = Repeater(name: string, mac: string, mmac: string, ip: string, fwver: string)
  datatype RepeaterMessage = RepeaterMessage(name: string, mac: string, mmac: string, ip: string, fwver: string)

  /** A telemetry device and the remote address of each of its connections. */
  datatype Device = Device(ip: string, mac: string, remoteIps: seq<string>)
  datatype Station = Station(mac: string, rssi: int)

  /** messages.ClientInfo as dumpClientsJson fills it. */
  datatype ClientInfo = ClientInfo(macAddress: string, ipAddress: string, name: string, clientType: int, channel: int,
                                   signalQuality: int, paused: bool, isRepeater: bool, lastseen: int)

  /** Everything the registry operations change. */
  datatype TelState = TelState(clients: map<string, ClientId>, records: map<ClientId, RouterClient>, next: ClientId,
                               ring: seq<Option<RouterEvent>>, pos: nat, serial: nat,
                               repeaters: map<string, Repeater>, newRepeater: Option<Repeater>)

  /**
   * The registry invariant: an eight-slot ring and its current position, every
   * MAC naming a record, record ids below the next fresh one, and at most five
   * repeaters.
   */
  predicate Good(s: TelState)
  {
    |s.ring| == MAX_NUMBER_OF_EVENTS && s.pos < MAX_NUMBER_OF_EVENTS
    && (forall m :: m in s.clients ==> s.clients[m] in s.records)
    && (forall id :: id in s.records ==> id < s.next)
    && |s.repeaters| <= MAX_NUM_OF_REPEATERS
  }

  // ---------------------------------------------------------------------------
  // The event ring

  /** newEvent: an active event in the current slot, and the ring moves on by one. */
  function NewEventState(s: TelState, etype: EventType, extra: string, client: ClientId, now: int): (r: TelState)
    requires Good(s)
    ensures Good(r)
    ensures r.ring[s.pos] == Some(RouterEvent(s.serial, true, etype, extra, client, now))
    ensures forall k :: 0 <= k < MAX_NUMBER_OF_EVENTS && k != s.pos ==> r.ring[k] == s.ring[k]
    ensures r.pos == (s.pos + 1) % MAX_NUMBER_OF_EVENTS && r.serial == s.serial + 1
    ensures r.clients == s.clients && r.records == s.records && r.next == s.next
    ensures r.repeaters == s.repeaters && r.newRepeater == s.newRepeater
  {
    s.(ring := s.ring[s.pos := Some(RouterEvent(s.serial, true, etype, extra, client, now))],
       pos := (s.pos + 1) % MAX_NUMBER_OF_EVENTS, serial := s.serial + 1)
  }

  /** The body of one new event: type, extra text, client and time. */
  datatype EventBody = EventBody(etype: EventType, extra: string, client: ClientId, tstamp: int)

  /** Several events raised one after the other. */
  function NewEventsState(s: TelState, bodies: seq<EventBody>): (r: TelState)
    requires Good(s)
    ensures Good(r)
    decreases |bodies|
  {
    if bodies == [] then s
    else
      var b := bodies[|bodies| - 1];
      NewEventState(NewEventsState(s, bodies[..|bodies| - 1]), b.etype, b.extra, b.client, b.tstamp)
  }

  /** After n events the ring has moved on n slots and n serial numbers. */
  lemma {:induction false} NewEventsPos(s: TelState, bodies: seq<EventBody>)
    requires Good(s)
    ensures NewEventsState(s, bodies).pos == Slot(s.pos, |bodies|)
    ensures NewEventsState(s, bodies).serial == s.serial + |bodies|
    decreases |bodies|
  {
    if bodies != [] {
      NewEventsPos(s, bodies[..|bodies| - 1]);
      SlotNext(s.pos, |bodies| - 1);
    }
  }

  /**
   * The ring keeps the last eight events: after n <= 8 of them the n slots
   * from the old position on hold the new events, in order ...
   */
  lemma {:induction false} NewEventsWritten(s: TelState, bodies: seq<EventBody>, j: nat)
    requires Good(s) && |bodies| <= MAX_NUMBER_OF_EVENTS && j < |bodies|
    ensures NewEventsState(s, bodies).ring[Slot(s.pos, j)]
      == Some(RouterEvent(s.serial + j, true, bodies[j].etype, bodies[j].extra, bodies[j].client, bodies[j].tstamp))
    decreases |bodies|
  {
    var n := |bodies| - 1;
    var p := bodies[..n];
    NewEventsPos(s, p);
    if j < n {
      NewEventsWritten(s, p, j);
      OffsetsDiffer(s.pos, j, n);
      assert p[j] == bodies[j];
    }
  }

  /**
   * ... and the other slots are as they were; so eight new events leave none
   * of the old ones.
   */
  lemma {:induction false} NewEventsKept(s: TelState, bodies: seq<EventBody>, j: nat)
    requires Good(s) && |bodies| <= j < MAX_NUMBER_OF_EVENTS
    ensures NewEventsState(s, bodies).ring[Slot(s.pos, j)] == s.ring[Slot(s.pos, j)]
    decreases |bodies|
  {
    if bodies != [] {
      var n := |bodies| - 1;
      NewEventsKept(s, bodies[..n], j);
      NewEventsPos(s, bodies[..n]);
      OffsetsDiffer(s.pos, n, j);
    }
  }

  /** The slot k places after pos, around the ring. */
  function Slot(pos: nat, k: nat): (slot: nat)
    ensures slot < MAX_NUMBER_OF_EVENTS
  {
    (pos + k) % MAX_NUMBER_OF_EVENTS
  }

  /** One step on from offset n is offset n + 1. */
  lemma SlotNext(pos: nat, n: nat)
    ensures (Slot(pos, n) + 1) % MAX_NUMBER_OF_EVENTS == Slot(pos, n + 1)
  {
  }

  /** Distinct offsets below eight from one position are distinct slots. */
  lemma OffsetsDiffer(pos: nat, j: nat, k: nat)
    requires pos < MAX_NUMBER_OF_EVENTS && j < k < MAX_NUMBER_OF_EVENTS
    ensures Slot(pos, j) != Slot(pos, k)
  {
  }

  /** The slot holds an event that is still to be told. */
  predicate Active(e: Option<RouterEvent>)
  {
    e.Some? && e.value.active
  }

  /**
   * getNextEvent's walk (Ring.Do from the current slot, that is from the
   * oldest event): the offset from the current slot of the first active
   * event at offset k or later.
   */
  function FirstActive(ring: seq<Option<RouterEvent>>, pos: nat, k: nat): Option<nat>
    requires |ring| == MAX_NUMBER_OF_EVENTS && k <= MAX_NUMBER_OF_EVENTS
    decreases MAX_NUMBER_OF_EVENTS - k
  {
    if k == MAX_NUMBER_OF_EVENTS then None
    else if Active(ring[Slot(pos, k)]) then Some(k)
    else FirstActive(ring, pos, k + 1)
  }

  /**
   * getNextEvent returns the oldest active event: the one it returns is
   * active and every slot walked before it is empty or told; when it returns
   * nothing, no slot from k on holds an active event.
   */
  lemma {:induction false} FirstActiveIsOldest(ring: seq<Option<RouterEvent>>, pos: nat, k: nat)
    requires |ring| == MAX_NUMBER_OF_EVENTS && k <= MAX_NUMBER_OF_EVENTS
    ensures var r := FirstActive(ring, pos, k);
      (r.Some? ==> k <= r.value < MAX_NUMBER_OF_EVENTS && Active(ring[Slot(pos, r.value)]))
      && (forall j :: k <= j < (if r.Some? then r.value else MAX_NUMBER_OF_EVENTS) ==>
            !Active(ring[Slot(pos, j)]))
    decreases MAX_NUMBER_OF_EVENTS - k
  {
    if k < MAX_NUMBER_OF_EVENTS && !Active(ring[Slot(pos, k)]) {
      FirstActiveIsOldest(ring, pos, k + 1);
    }
  }

  /** The walk visits every slot: each slot is some offset below eight from the current one. */
  lemma SlotOffset(pos: nat, slot: nat)
    requires pos < MAX_NUMBER_OF_EVENTS && slot < MAX_NUMBER_OF_EVENTS
    ensures var j := (slot - pos) % MAX_NUMBER_OF_EVENTS; j < MAX_NUMBER_OF_EVENTS && Slot(pos, j) == slot
  {
  }

  /** When getNextEvent returns nothing, no slot at all holds an active event. */
  lemma NoActiveEvent(ring: seq<Option<RouterEvent>>, pos: nat, slot: nat)
    requires |ring| == MAX_NUMBER_OF_EVENTS && pos < MAX_NUMBER_OF_EVENTS && slot < MAX_NUMBER_OF_EVENTS
    requires FirstActive(ring, pos, 0).None?
    ensures !Active(ring[slot])
  {
    FirstActiveIsOldest(ring, pos, 0);
    SlotOffset(pos, slot);
  }

  /** MarkRouterEvent: the event object's Active flag, if the ring still holds that event. */
  function Marked(ring: seq<Option<RouterEvent>>, slot: nat, serial: nat, value: bool): (r: seq<Option<RouterEvent>>)
    ensures |r| == |ring|
    ensures forall k :: 0 <= k < |ring| && k != slot ==> r[k] == ring[k]
    ensures slot < |ring| && ring[slot].Some? && ring[slot].value.serial == serial ==>
      r[slot] == Some(ring[slot].value.(active := value))
    ensures (slot >= |ring| || ring[slot].None? || ring[slot].value.serial != serial) ==> r == ring
  {
    if slot < |ring| && ring[slot].Some? && ring[slot].value.serial == serial
    then ring[slot := Some(ring[slot].value.(active := value))]
    else ring
  }

  /**
   * Once the app has been told of the event getNextEvent returned and it is
   * marked so, it is never returned again: the walk moves on past it.
   */
  lemma MarkedTold(ring: seq<Option<RouterEvent>>, pos: nat, o: nat, e: RouterEvent)
    requires |ring| == MAX_NUMBER_OF_EVENTS && pos < MAX_NUMBER_OF_EVENTS
    requires FirstActive(ring, pos, 0) == Some(o) && ring[Slot(pos, o)] == Some(e)
    ensures var r2 := Marked(ring, Slot(pos, o), e.serial, false);
      FirstActive(r2, pos, 0).None? || FirstActive(r2, pos, 0).value > o
  {
    var r2 := Marked(ring, Slot(pos, o), e.serial, false);
    FirstActiveIsOldest(ring, pos, 0);
    FirstActiveIsOldest(r2, pos, 0);
    forall j | 0 <= j < o ensures r2[Slot(pos, j)] == ring[Slot(pos, j)] {
      OffsetsDiffer(pos, j, o);
    }
    assert !Active(r2[Slot(pos, o)]);
  }

  // ---------------------------------------------------------------------------
  // createClient

  /** Why createClient refuses a new MAC address. */
  datatype ClientError = BadMac | MulticastMac | InvalidIp

  /**
   * The checks a MAC address not yet known must pass: its first byte must be
   * hexadecimal (a shorter address makes the source panic on the slice, here
   * a refusal) and not multicast, and the IP must be neither "0.0.0.0" nor "".
   */
  function Admission(mac: string, ip: string): Option<ClientError>
  {
    if |mac| < 2 then Some(BadMac)
    else match NhUtil.IsMulticastMac(mac)
      case Err(_) => Some(BadMac)
      case Ok(multicast) =>
        if multicast then Some(MulticastMac)
        else if ip == "0.0.0.0" || ip == "" then Some(InvalidIp)
        else None
  }

  /** A new client is admitted exactly when its MAC is unicast hexadecimal and its IP is set. */
  lemma AdmissionRules(mac: string, ip: string)
    ensures Admission(mac, ip).None? <==>
      |mac| >= 2 && IsHexDigit(mac[0]) && IsHexDigit(mac[1]) && HexVal(mac[1]) % 2 == 0
      && ip != "0.0.0.0" && ip != ""
  {
  }

  /**
   * The stored name of a new client: '-' becomes '_' and the result is cut
   * to 32 characters.
   */
  function ClientName(hostName: string): (name: string)
    ensures |name| <= CLIENT_NAME_MAX_LENGTH && '-' !in name
    ensures |name| == if |hostName| > CLIENT_NAME_MAX_LENGTH then CLIENT_NAME_MAX_LENGTH else |hostName|
    ensures forall i :: 0 <= i < |name| ==> name[i] == (if hostName[i] == '-' then '_' else hostName[i])
  {
    var r := ReplaceChar(hostName, '-', '_');
    if |r| > CLIENT_NAME_MAX_LENGTH then r[..CLIENT_NAME_MAX_LENGTH] else r
  }

  /** The record of a newly seen client: dirty, wired, never seen. */
  function NewClient(mac: string, ip: string, hostName: string, isRepeater: bool, fwver: string): RouterClient
  {
    RouterClient(mac, ip, ClientName(hostName), fwver, isRepeater, WIRED, 0, 0, true, false, 0)
  }

  /** The extra MAC, when given, names the same record, which becomes a repeater or not. */
  function Alias(s: TelState, mac: string, extramac: string, isRepeater: bool): (r: TelState)
    requires Good(s) && mac in s.clients
    ensures Good(r)
  {
    if extramac == "" then s
    else
      var id := s.clients[mac];
      s.(clients := s.clients[extramac := id], records := s.records[id := s.records[id].(isRepeater := isRepeater)])
  }

  /** createClient: the registry afterwards and the refusal, if any. */
  function CreateClientResult(s: TelState, mac: string, ip: string, isRepeater: bool, extramac: string, fwver: string,
                              hostName: string, now: int): (r: (TelState, Option<ClientError>))
    requires Good(s)
    ensures Good(r.0)
  {
    if mac !in s.clients then
      var refusal := Admission(mac, ip);
      if refusal.Some? then (s, refusal)
      else
        var id := s.next;
        var s1 := s.(clients := s.clients[mac := id], records := s.records[id := NewClient(mac, ip, hostName, isRepeater, fwver)],
                     next := id + 1);
        (Alias(NewEventState(s1, NewClientEvent, ip, id, now), mac, extramac, isRepeater), None)
    else
      var id := s.clients[mac];
      (Alias(s.(records := s.records[id := s.records[id].(fwver := fwver)]), mac, extramac, isRepeater), None)
  }

  /** A refused MAC changes nothing. */
  lemma CreateClientRefused(s: TelState, mac: string, ip: string, isRepeater: bool, extramac: string, fwver: string,
                            hostName: string, now: int)
    requires Good(s)
    requires CreateClientResult(s, mac, ip, isRepeater, extramac, fwver, hostName, now).1.Some?
    ensures mac !in s.clients && Admission(mac, ip).Some?
    ensures CreateClientResult(s, mac, ip, isRepeater, extramac, fwver, hostName, now).0 == s
  {
  }

  /**
   * A new client gets a fresh record (dirty, with its cleaned name) under its
   * MAC and raises a new-client event in the current slot ...
   */
  lemma CreateClientNew(s: TelState, mac: string, ip: string, isRepeater: bool, extramac: string, fwver: string,
                        hostName: string, now: int)
    requires Good(s) && mac !in s.clients && Admission(mac, ip).None?
    ensures var r := CreateClientResult(s, mac, ip, isRepeater, extramac, fwver, hostName, now);
      r.1.None? && s.next !in s.records
      && r.0.clients[mac] == s.next
      && r.0.records[s.next] == NewClient(mac, ip, hostName, isRepeater, fwver)
      && r.0.records[s.next].dirty
      && r.0.ring[s.pos] == Some(RouterEvent(s.serial, true, NewClientEvent, ip, s.next, now))
      && r.0.pos == (s.pos + 1) % MAX_NUMBER_OF_EVENTS
  {
  }

  /** ... and no other record and no other MAC but the alias changes. */
  lemma CreateClientNewOthers(s: TelState, mac: string, ip: string, isRepeater: bool, extramac: string, fwver: string,
                              hostName: string, now: int)
    requires Good(s) && mac !in s.clients
    ensures var r := CreateClientResult(s, mac, ip, isRepeater, extramac, fwver, hostName, now);
      (forall id :: id in s.records ==> id in r.0.records && r.0.records[id] == s.records[id])
      && (forall m :: m in s.clients && m != extramac ==> m in r.0.clients && r.0.clients[m] == s.clients[m])
  {
    if Admission(mac, ip).None? {
      var id := s.next;
      var s1 := s.(clients := s.clients[mac := id], records := s.records[id := NewClient(mac, ip, hostName, isRepeater, fwver)],
                   next := id + 1);
      var s2 := NewEventState(s1, NewClientEvent, ip, id, now);
      assert CreateClientResult(s, mac, ip, isRepeater, extramac, fwver, hostName, now).0 == Alias(s2, mac, extramac, isRepeater);
      assert id !in s.records;
    }
  }

  /**
   * For a known MAC only the firmware version changes (and the repeater flag
   * when an alias is given); no event is raised.
   */
  lemma CreateClientKnown(s: TelState, mac: string, ip: string, isRepeater: bool, extramac: string, fwver: string,
                          hostName: string, now: int)
    requires Good(s) && mac in s.clients
    ensures var r := CreateClientResult(s, mac, ip, isRepeater, extramac, fwver, hostName, now);
      var id := s.clients[mac];
      r.1.None? && r.0.ring == s.ring && r.0.pos == s.pos && r.0.next == s.next
      && r.0.records[id] == s.records[id].(fwver := fwver, isRepeater := if extramac == "" then s.records[id].isRepeater else isRepeater)
      && (forall other :: other in s.records && other != id ==> r.0.records[other] == s.records[other])
      && (forall m :: m in s.clients && m != extramac ==> r.0.clients[m] == s.clients[m])
  {
  }

  /** An accepted alias names the same record as the MAC, with the repeater flag given. */
  lemma CreateClientAlias(s: TelState, mac: string, ip: string, isRepeater: bool, extramac: string, fwver: string,
                          hostName: string, now: int)
    requires Good(s) && extramac != ""
    requires CreateClientResult(s, mac, ip, isRepeater, extramac, fwver, hostName, now).1.None?
    ensures var r := CreateClientResult(s, mac, ip, isRepeater, extramac, fwver, hostName, now).0;
      mac in r.clients && r.clients[extramac] == r.clients[mac] && r.records[r.clients[mac]].isRepeater == isRepeater
  {
  }

  // ---------------------------------------------------------------------------
  // processTelemetry and updateWireless

  /** anyIPBlockListed: the first remote address on the block list. */
  function FirstBlocked(remoteIps: seq<string>, blocklist: set<string>): Option<string>
  {
    if remoteIps == [] then None
    else if remoteIps[0] in blocklist then Some(remoteIps[0])
    else FirstBlocked(remoteIps[1..], blocklist)
  }

  /** The address reported is the first blocked one; none is reported exactly when none is blocked. */
  lemma {:induction false} FirstBlockedIsFirst(remoteIps: seq<string>, blocklist: set<string>)
    ensures FirstBlocked(remoteIps, blocklist).None? <==> forall i :: 0 <= i < |remoteIps| ==> remoteIps[i] !in blocklist
    ensures FirstBlocked(remoteIps, blocklist).Some? ==>
      (exists i :: 0 <= i < |remoteIps| && remoteIps[i] == FirstBlocked(remoteIps, blocklist).value
         && remoteIps[i] in blocklist && forall j :: 0 <= j < i ==> remoteIps[j] !in blocklist)
  {
    if remoteIps != [] {
      FirstBlockedIsFirst(remoteIps[1..], blocklist);
      if remoteIps[0] !in blocklist {
        if FirstBlocked(remoteIps, blocklist).Some? {
          var i :| 0 <= i < |remoteIps[1..]| && remoteIps[1..][i] == FirstBlocked(remoteIps, blocklist).value
            && remoteIps[1..][i] in blocklist && forall j :: 0 <= j < i ==> remoteIps[1..][j] !in blocklist;
          assert remoteIps[i + 1] == remoteIps[1..][i];
          assert forall j :: 1 <= j < i + 1 ==> remoteIps[j] == remoteIps[1..][j - 1];
        } else {
          assert forall i :: 1 <= i < |remoteIps| ==> remoteIps[i] == remoteIps[1..][i - 1];
        }
      }
    }
  }

  /** The record of a known MAC refreshed: seen now, at the device's address. */
  function Seen(s: TelState, mac: string, ip: string, now: int): (r: TelState)
    requires Good(s)
    ensures Good(r)
  {
    if mac in s.clients then
      var id := s.clients[mac];
      s.(records := s.records[id := s.records[id].(lastseen := now, ipAddress := ip)])
    else s
  }

  /**
   * One device of processTelemetry: a blocked-address event for a known
   * client, then createClient with no alias and an empty firmware version,
   * then the known record refreshed.
   */
  function ProcessDeviceState(s: TelState, d: Device, blocklist: set<string>, hostName: string, now: int): (r: TelState)
    requires Good(s)
    ensures Good(r)
  {
    var blocked := FirstBlocked(d.remoteIps, blocklist);
    var s1 := if blocked.Some? && d.mac in s.clients then NewEventState(s, BlockedIpEvent, blocked.value, s.clients[d.mac], now) else s;
    var s2 := CreateClientResult(s1, d.mac, d.ip, false, "", "", hostName, now).0;
    Seen(s2, d.mac, d.ip, now)
  }

  /** processTelemetry: the devices in order. */
  function ProcessDevicesState(s: TelState, devices: seq<Device>, blocklist: set<string>, hostNames: string -> string,
                               now: int): (r: TelState)
    requires Good(s)
    ensures Good(r)
    decreases |devices|
  {
    if devices == [] then s
    else
      var d := devices[|devices| - 1];
      ProcessDeviceState(ProcessDevicesState(s, devices[..|devices| - 1], blocklist, hostNames, now), d, blocklist, hostNames(d.mac), now)
  }

  /**
   * A blocked-address event is raised only for a client already known: for
   * an unknown MAC the only event a device can raise is the new-client one.
   * A known device is refreshed (seen now, at its address) and its firmware
   * version is reset to "".
   */
  lemma ProcessDeviceEvents(s: TelState, d: Device, blocklist: set<string>, hostName: string, now: int)
    requires Good(s)
    ensures var r := ProcessDeviceState(s, d, blocklist, hostName, now);
      (d.mac !in s.clients ==> forall k :: 0 <= k < MAX_NUMBER_OF_EVENTS && r.ring[k] != s.ring[k] ==>
         r.ring[k].Some? && r.ring[k].value.etype == NewClientEvent)
      && (d.mac in s.clients && FirstBlocked(d.remoteIps, blocklist).Some? ==>
         r.ring[s.pos] == Some(RouterEvent(s.serial, true, BlockedIpEvent, FirstBlocked(d.remoteIps, blocklist).value,
                                           s.clients[d.mac], now)))
      && (d.mac in s.clients && FirstBlocked(d.remoteIps, blocklist).None? ==> r.ring == s.ring)
  {
  }

  /** After a device is processed, a known MAC's record is seen now at the device's address. */
  lemma ProcessDeviceSeen(s: TelState, d: Device, blocklist: set<string>, hostName: string, now: int)
    requires Good(s)
    ensures var r := ProcessDeviceState(s, d, blocklist, hostName, now);
      (d.mac in r.clients <==> d.mac in s.clients || Admission(d.mac, d.ip).None?)
      && (d.mac in r.clients ==>
            r.records[r.clients[d.mac]].lastseen == now && r.records[r.clients[d.mac]].ipAddress == d.ip)
    ensures d.mac in s.clients ==>
      var r := ProcessDeviceState(s, d, blocklist, hostName, now);
      r.records[s.clients[d.mac]] == s.records[s.clients[d.mac]].(fwver := "", lastseen := now, ipAddress := d.ip)
  {
  }

  /**
   * updateWireless: a known station becomes a wireless client on the channel,
   * with its RSSI, dirty and seen now; an unknown station changes nothing.
   */
  function UpdateWirelessState(s: TelState, sta: Station, channel: int, now: int): (r: TelState)
    requires Good(s)
    ensures Good(r)
  {
    if sta.mac !in s.clients then s
    else
      var id := s.clients[sta.mac];
      s.(records := s.records[id := s.records[id].(clientType := WIRELESS, channel := channel, rssi := sta.rssi,
                                                    dirty := true, lastseen := now)])
  }

  /** Only the station's record changes, and only its wireless fields. */
  lemma UpdateWirelessOnly(s: TelState, sta: Station, channel: int, now: int)
    requires Good(s)
    ensures var r := UpdateWirelessState(s, sta, channel, now);
      r.clients == s.clients && r.ring == s.ring && r.records.Keys == s.records.Keys
      && (forall id :: id in s.records && (sta.mac !in s.clients || id != s.clients[sta.mac]) ==> r.records[id] == s.records[id])
      && (sta.mac in s.clients ==> var c := r.records[s.clients[sta.mac]];
            c == s.records[s.clients[sta.mac]].(clientType := c.clientType, channel := c.channel, rssi := c.rssi,
                                                  dirty := c.dirty, lastseen := c.lastseen)
            && c.clientType == WIRELESS && c.rssi == sta.rssi && c.channel == channel && c.dirty && c.lastseen == now)
  {
  }

  // ---------------------------------------------------------------------------
  // registerRepeater and dumpRouterClients

  /** Why registerRepeater fails. */
  datatype RepeaterError = DecodeFailed(reason: string) | TooManyRepeaters | WriteFailed(reason: string)
                         | ClientRefused(e: ClientError)

  /**
   * dumpRouterClients: each record reached through its own MAC that is dirty
   * or unseen for a week is written out and is clean afterwards (the file
   * writes are not part of this model).
   */
  function Cleaned(s: TelState, now: int): (r: TelState)
    requires Good(s)
    ensures Good(r)
  {
    s.(records := map id | id in s.records ::
         var c := s.records[id];
         if c.macAddress in s.clients && s.clients[c.macAddress] == id && (c.dirty || now - c.lastseen > WEEK)
         then c.(dirty := false) else c)
  }

  /**
   * registerRepeater: refused when five repeaters are registered, even for
   * one of them; otherwise the repeater is stored (and remembered as the new
   * one when its MAC is unseen), the list is written, its client is created
   * with the repeater's second MAC as an alias, and the clients are dumped.
   */
  function RegisterRepeaterResult(s: TelState, msg: Result<RepeaterMessage, string>, writeErr: Option<string>,
                                  hostName: string, now: int): (r: (TelState, Option<RepeaterError>))
    requires Good(s)
    ensures Good(r.0)
  {
    if msg.Err? then (s, Some(DecodeFailed(msg.error)))
    else
      var m := msg.value;
      var rep := Repeater(m.name, m.mac, m.mmac, m.ip, m.fwver);
      if |s.repeaters| >= MAX_NUM_OF_REPEATERS then (s, Some(TooManyRepeaters))
      else
        var s1 := s.(repeaters := s.repeaters[rep.mac := rep],
                     newRepeater := if rep.mac !in s.repeaters then Some(rep) else s.newRepeater);
        if writeErr.Some? then (s1, Some(WriteFailed(writeErr.value)))
        else
          var c := CreateClientResult(s1, rep.mac, rep.ip, true, m.mmac, m.fwver, hostName, now);
          if c.1.Some? then (c.0, Some(ClientRefused(c.1.value)))
          else (Cleaned(c.0, now), None)
  }

  /**
   * The repeater limit: with five repeaters registered every registration is
   * refused and changes nothing, re-registration included; below it the
   * repeater is stored, and it becomes the new repeater exactly when its MAC
   * was not registered.
   */
  lemma RegisterRepeaterLimit(s: TelState, msg: Result<RepeaterMessage, string>, writeErr: Option<string>,
                              hostName: string, now: int)
    requires Good(s) && msg.Ok?
    ensures var r := RegisterRepeaterResult(s, msg, writeErr, hostName, now);
      (|s.repeaters| >= MAX_NUM_OF_REPEATERS ==> r == (s, Some(TooManyRepeaters)))
      && (|s.repeaters| < MAX_NUM_OF_REPEATERS ==>
            msg.value.mac in r.0.repeaters
            && r.0.repeaters[msg.value.mac] == Repeater(msg.value.name, msg.value.mac, msg.value.mmac, msg.value.ip, msg.value.fwver)
            && (msg.value.mac !in s.repeaters ==> r.0.newRepeater == Some(r.0.repeaters[msg.value.mac]))
            && (msg.value.mac in s.repeaters ==> r.0.newRepeater == s.newRepeater))
  {
  }

  /** After a dump no record reached through its own MAC is dirty; nothing else changes. */
  lemma CleanedClean(s: TelState, now: int, id: ClientId)
    requires Good(s) && id in s.records
    ensures var c := s.records[id];
      var r := Cleaned(s, now);
      id in r.records
      && (c.macAddress in s.clients && s.clients[c.macAddress] == id ==> !r.records[id].dirty)
      && r.records[id] == c.(dirty := r.records[id].dirty)
  {
  }

  // ---------------------------------------------------------------------------
  // dumpClientsJson

  /** The record shown for a registry key: one reached through its own MAC and seen within a day. */
  predicate Shows(s: TelState, mac: string, now: int)
  {
    mac in s.clients && s.clients[mac] in s.records
    && s.records[s.clients[mac]].macAddress == mac && now - s.records[s.clients[mac]].lastseen <= DAY
  }

  /** The records dumpClientsJson lists, in the order the map walk visits the keys. */
  function Shown(s: TelState, order: seq<string>, now: int): seq<RouterClient>
    decreases |order|
  {
    if order == [] then []
    else
      var p := Shown(s, order[..|order| - 1], now);
      var mac := order[|order| - 1];
      if Shows(s, mac, now) then p + [s.records[s.clients[mac]]] else p
  }

  /** ClientInfo of a record, its RSSI turned into a signal band. */
  function InfoOf(c: RouterClient): ClientInfo
  {
    ClientInfo(c.macAddress, c.ipAddress, c.name, c.clientType, c.channel, RouterAsus.GetSignalQuality(c.rssi),
               c.paused, c.isRepeater, c.lastseen)
  }

  /**
   * Every listed record is a client reached through its own MAC and seen
   * within a day, and every such client of the walk is listed.
   */
  lemma {:induction false} ShownExactly(s: TelState, order: seq<string>, now: int, mac: string)
    ensures mac in order && Shows(s, mac, now) ==> s.records[s.clients[mac]] in Shown(s, order, now)
    ensures forall c :: c in Shown(s, order, now) ==> exists m :: m in order && Shows(s, m, now) && c == s.records[s.clients[m]]
    decreases |order|
  {
    if order != [] {
      var n := |order| - 1;
      ShownExactly(s, order[..n], now, mac);
      if mac in order && mac != order[n] {
        var i :| 0 <= i < |order| && order[i] == mac;
        assert order[..n][i] == mac;
      }
      forall c | c in Shown(s, order, now) ensures exists m :: m in order && Shows(s, m, now) && c == s.records[s.clients[m]] {
        if c in Shown(s, order[..n], now) {
          var m :| m in order[..n] && Shows(s, m, now) && c == s.records[s.clients[m]];
          var i :| 0 <= i < n && order[..n][i] == m;
          assert order[i] == m;
        } else {
          assert order[n] in order;
        }
      }
    }
  }

  lemma {:induction false} ShownPrefix(s: TelState, order: seq<string>, now: int, n: nat)
    requires n <= |order|
    ensures |Shown(s, order[..n], now)| <= |Shown(s, order, now)|
    decreases |order| - n
  {
    if n < |order| {
      ShownPrefix(s, order, now, n + 1);
      assert order[..n + 1][..n] == order[..n];
    } else {
      assert order[..n] == order;
    }
  }

  // ---------------------------------------------------------------------------
  // The Telemetry object

  /** `order` lists every key of `keys` exactly once: a map walk's visiting order. */
  predicate ListsKeysOnce(order: seq<string>, keys: set<string>)
  {
    (forall i, j :: 0 <= i < j < |order| ==> order[i] != order[j])
    && (forall i :: 0 <= i < |order| ==> order[i] in keys)
    && forall k :: k in keys ==> k in order
  }

  /**
   * The loop of dumpClientsJson over a registry state: each shown client's
   * info goes to the next free slot of a 128-slot array.
   */
  method FillClientInfos(s: TelState, order: seq<string>, now: int) returns (r: Result<seq<ClientInfo>, string>)
    ensures var sh := Shown(s, order, now);
      (|sh| <= MAX_NUM_OF_CLIENTS ==> r.Ok? && |r.value| == |sh| && forall k :: 0 <= k < |sh| ==> r.value[k] == InfoOf(sh[k]))
      && (|sh| > MAX_NUM_OF_CLIENTS ==> r.Err?)
  {
    var infos := new ClientInfo[MAX_NUM_OF_CLIENTS](_ => ClientInfo("", "", "", 0, 0, 0, false, false, 0));
    var index := 0;
    var i := 0;
    while i < |order|
      invariant 0 <= i <= |order|
      invariant index == |Shown(s, order[..i], now)| <= MAX_NUM_OF_CLIENTS
      invariant forall k :: 0 <= k < index ==> infos[k] == InfoOf(Shown(s, order[..i], now)[k])
    {
      assert order[..i + 1][..i] == order[..i];
      var mac := order[i];
      if mac in s.clients && s.clients[mac] in s.records && s.records[s.clients[mac]].macAddress == mac
         && now - s.records[s.clients[mac]].lastseen <= DAY {
        if index == MAX_NUM_OF_CLIENTS {
          ShownPrefix(s, order, now, i + 1);
          return Err("index out of range");
        }
        infos[index] := InfoOf(s.records[s.clients[mac]]);
        index := index + 1;
      }
      i := i + 1;
    }
    assert order[..i] == order;
    r := Ok(infos[..index]);
  }

  class Telemetry {
    var clients: map<string, ClientId>
    var records: map<ClientId, RouterClient>
    var next: ClientId
    /** The eight slots of EventRing; pos is the slot the ring pointer is at. */
    const ring: array<Option<RouterEvent>>
    var pos: nat
    var serial: nat
    var repeaters: map<string, Repeater>
    var newRepeater: Option<Repeater>
    /** blocklistips, as last downloaded. */
    var blocklist: set<string>
    /** RouterServer.uploadlogs. */
    var uploadLogs: bool

    function State(): TelState
      reads this, ring
    {
      TelState(clients, records, next, ring[..], pos, serial, repeaters, newRepeater)
    }

    predicate Valid()
      reads this, ring
    {
      ring.Length == MAX_NUMBER_OF_EVENTS && Good(State())
    }

    /**
     * NewTelemetry with nothing stored on disk: no client, no repeater, an
     * empty ring.
     */
    constructor(blocklist: set<string>)
      ensures Valid()
      ensures State() == TelState(map[], map[], 0, seq(MAX_NUMBER_OF_EVENTS, _ => None), 0, 0, map[], None)
      ensures this.blocklist == blocklist && !uploadLogs
    {
      clients := map[];
      records := map[];
      next := 0;
      ring := new Option<RouterEvent>[MAX_NUMBER_OF_EVENTS](_ => None);
      pos := 0;
      serial := 0;
      repeaters := map[];
      newRepeater := None;
      this.blocklist := blocklist;
      uploadLogs := false;
    }

    /** newEvent. */
    method NewEvent(etype: EventType, extra: string, client: ClientId, now: int)
      requires Valid()
      modifies this, ring
      ensures Valid()
      ensures State() == NewEventState(old(State()), etype, extra, client, now)
      ensures blocklist == old(blocklist) && uploadLogs == old(uploadLogs)
    {
      ring[pos] := Some(RouterEvent(serial, true, etype, extra, client, now));
      pos := (pos + 1) % MAX_NUMBER_OF_EVENTS;
      serial := serial + 1;
    }

    /**
     * getNextEvent: the walk from the current slot; the event is returned
     * with its slot and stays active.
     */
    method GetNextEvent() returns (r: Option<(nat, RouterEvent)>)
      requires Valid()
      ensures var o := FirstActive(ring[..], pos, 0);
        (o.None? <==> r.None?)
        && (o.Some? ==> r.value.0 == Slot(pos, o.value) && ring[r.value.0] == Some(r.value.1))
    {
      var k := 0;
      while k < MAX_NUMBER_OF_EVENTS
        invariant 0 <= k <= MAX_NUMBER_OF_EVENTS
        invariant FirstActive(ring[..], pos, 0) == FirstActive(ring[..], pos, k)
      {
        var slot := Slot(pos, k);
        if ring[slot].Some? && ring[slot].value.active {
          return Some((slot, ring[slot].value));
        }
        k := k + 1;
      }
      return None;
    }

    /** MarkRouterEvent: sets the Active flag of the event handed out, if the ring still holds it. */
    method MarkRouterEvent(slot: nat, serial: nat, value: bool)
      requires Valid()
      modifies ring
      ensures Valid()
      ensures ring[..] == Marked(old(ring[..]), slot, serial, value)
    {
      if slot < ring.Length && ring[slot].Some? && ring[slot].value.serial == serial {
        ring[slot] := Some(ring[slot].value.(active := value));
      }
    }

    /** createClient; hostName is what get_host_name reports for the MAC. */
    method CreateClient(mac: string, ip: string, isRepeater: bool, extramac: string, fwver: string, hostName: string,
                        now: int) returns (err: Option<ClientError>)
      requires Valid()
      modifies this, ring
      ensures Valid()
      ensures (State(), err) == CreateClientResult(old(State()), mac, ip, isRepeater, extramac, fwver, hostName, now)
      ensures blocklist == old(blocklist) && uploadLogs == old(uploadLogs)
    {
      if mac !in clients {
        var refusal := Admission(mac, ip);
        if refusal.Some? {
          return refusal;
        }
        AddNewClient(mac, ip, isRepeater, fwver, hostName, now);
      } else {
        var id := clients[mac];
        records := records[id := records[id].(fwver := fwver)];
      }
      AddAlias(mac, extramac, isRepeater);
      err := None;
    }

    /** The new-client step of createClient: a fresh record and its event. */
    method AddNewClient(mac: string, ip: string, isRepeater: bool, fwver: string, hostName: string, now: int)
      requires Valid() && mac !in clients
      modifies this, ring
      ensures Valid()
      ensures var s := old(State());
        State() == NewEventState(s.(clients := s.clients[mac := s.next], next := s.next + 1,
                                    records := s.records[s.next := NewClient(mac, ip, hostName, isRepeater, fwver)]),
                                 NewClientEvent, ip, s.next, now)
      ensures blocklist == old(blocklist) && uploadLogs == old(uploadLogs)
    {
      var id := next;
      clients := clients[mac := id];
      records := records[id := NewClient(mac, ip, hostName, isRepeater, fwver)];
      next := id + 1;
      NewEvent(NewClientEvent, ip, id, now);
    }

    /** The alias step of createClient. */
    method AddAlias(mac: string, extramac: string, isRepeater: bool)
      requires Valid() && mac in clients
      modifies this
      ensures Valid()
      ensures State() == Alias(old(State()), mac, extramac, isRepeater)
      ensures blocklist == old(blocklist) && uploadLogs == old(uploadLogs)
    {
      if extramac != "" {
        var id := clients[mac];
        clients := clients[extramac := id];
        records := records[id := records[id].(isRepeater := isRepeater)];
      }
    }

    /** The body of processTelemetry's loop, for one device. */
    method ProcessDevice(d: Device, hostName: string, now: int)
      requires Valid()
      modifies this, ring
      ensures Valid()
      ensures State() == ProcessDeviceState(old(State()), d, blocklist, hostName, now)
      ensures blocklist == old(blocklist) && uploadLogs == old(uploadLogs)
    {
      var blocked := FirstBlocked(d.remoteIps, blocklist);
      if blocked.Some? && d.mac in clients {
        NewEvent(BlockedIpEvent, blocked.value, clients[d.mac], now);
      }
      var _ := CreateClient(d.mac, d.ip, false, "", "", hostName, now);
      Refresh(d.mac, d.ip, now);
    }

    /** The last step of processTelemetry's loop: a known client is seen now, at its address. */
    method Refresh(mac: string, ip: string, now: int)
      requires Valid()
      modifies this
      ensures Valid()
      ensures State() == Seen(old(State()), mac, ip, now)
      ensures blocklist == old(blocklist) && uploadLogs == old(uploadLogs)
    {
      if mac in clients {
        var id := clients[mac];
        records := records[id := records[id].(lastseen := now, ipAddress := ip)];
      }
    }

    /** processTelemetry: each device in turn; refusals are only logged. */
    method ProcessTelemetry(devices: seq<Device>, hostNames: string -> string, now: int)
      requires Valid()
      modifies this, ring
      ensures Valid()
      ensures State() == ProcessDevicesState(old(State()), devices, blocklist, hostNames, now)
      ensures blocklist == old(blocklist) && uploadLogs == old(uploadLogs)
    {
      var i := 0;
      while i < |devices|
        invariant 0 <= i <= |devices|
        invariant Valid()
        invariant State() == ProcessDevicesState(old(State()), devices[..i], blocklist, hostNames, now)
        invariant blocklist == old(blocklist) && uploadLogs == old(uploadLogs)
      {
        assert devices[..i + 1][..i] == devices[..i];
        ProcessDevice(devices[i], hostNames(devices[i].mac), now);
        i := i + 1;
      }
      assert devices[..i] == devices;
    }

    /** updateWireless. */
    method UpdateWireless(sta: Station, channel: int, now: int)
      requires Valid()
      modifies this
      ensures Valid()
      ensures State() == UpdateWirelessState(old(State()), sta, channel, now)
      ensures blocklist == old(blocklist) && uploadLogs == old(uploadLogs)
    {
      if sta.mac in clients {
        var id := clients[sta.mac];
        records := records[id := records[id].(clientType := WIRELESS, channel := channel, rssi := sta.rssi,
                                               dirty := true, lastseen := now)];
      }
    }

    /** dumpRouterClients, without the file writes. */
    method DumpRouterClients(now: int)
      requires Valid()
      modifies this
      ensures Valid()
      ensures State() == Cleaned(old(State()), now)
      ensures blocklist == old(blocklist) && uploadLogs == old(uploadLogs)
    {
      records := Cleaned(State(), now).records;
    }

    /**
     * registerRepeater: msg is the decoded message and writeErr the outcome
     * of writing the repeater list.
     */
    method RegisterRepeater(msg: Result<RepeaterMessage, string>, writeErr: Option<string>, hostName: string, now: int)
      returns (err: Option<RepeaterError>)
      requires Valid()
      modifies this, ring
      ensures Valid()
      ensures (State(), err) == RegisterRepeaterResult(old(State()), msg, writeErr, hostName, now)
      ensures blocklist == old(blocklist) && uploadLogs == old(uploadLogs)
    {
      if msg.Err? {
        return Some(DecodeFailed(msg.error));
      }
      var m := msg.value;
      var rep := Repeater(m.name, m.mac, m.mmac, m.ip, m.fwver);
      if |repeaters| >= MAX_NUM_OF_REPEATERS {
        return Some(TooManyRepeaters);
      }
      if rep.mac !in repeaters {
        newRepeater := Some(rep);
      }
      repeaters := repeaters[rep.mac := rep];
      if writeErr.Some? {
        return Some(WriteFailed(writeErr.value));
      }
      var e := CreateClient(rep.mac, rep.ip, true, m.mmac, m.fwver, hostName, now);
      if e.Some? {
        return Some(ClientRefused(e.value));
      }
      DumpRouterClients(now);
      err := None;
    }

    /**
     * dumpClientsJson: the clients array filled by index in the order the map
     * walk visits the keys (`order` lists each key of the clients map once);
     * a 129th client overruns the array, which panics in the source and is
     * an error here.
     */
    method DumpClientsJson(order: seq<string>, now: int) returns (r: Result<seq<ClientInfo>, string>)
      requires Valid()
      requires ListsKeysOnce(order, clients.Keys)
      ensures var sh := Shown(State(), order, now);
        (|sh| <= MAX_NUM_OF_CLIENTS ==> r.Ok? && |r.value| == |sh| && forall k :: 0 <= k < |sh| ==> r.value[k] == InfoOf(sh[k]))
        && (|sh| > MAX_NUM_OF_CLIENTS ==> r.Err?)
    {
      r := FillClientInfos(State(), order, now);
    }

    /** The uploadLogs handler: a log upload is requested. */
    method RequestUploadLogs()
      modifies this
      ensures uploadLogs
      ensures State() == old(State()) && blocklist == old(blocklist)
    {
      uploadLogs := true;
    }

    /** ShallUploadLogs: reports a pending request and clears it. */
    method ShallUploadLogs() returns (r: bool)
      modifies this
      ensures r == old(uploadLogs) && !uploadLogs
      ensures State() == old(State()) && blocklist == old(blocklist)
    {
      r := uploadLogs;
      uploadLogs := false;
    }
  }
}
