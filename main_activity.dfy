/**
 * cmd/nebula/main_activity.go: the app-side driver of the tunnel. It turns the
 * settings the GUI saves into the tunnel's unsafe routes, picks the router's
 * overlay address, gates the GUI's connect and disconnect commands on the link
 * status, retries non-tunnel messages, and keeps the per-peer traffic snapshot
 * the home screen shows.
 */
module MainActivity {
  import opened Wrappers
  import opened GoTypes
  import opened Strconv
  import opened Control

  // ---------------------------------------------------------------------------
  // saveConfig

  /** screen.FullVPN, screen.SemiVPN, screen.CustomVPN. */
  const FULL_VPN := "FullVPN"
  const SEMI_VPN := "SemiVPN"
  const CUSTOM_VPN := "CustomVPN"
  /** The MTU and destination of the single full-VPN route. */
  const FULL_VPN_MTU: int := 1300
  const DEFAULT_ROUTE := "0.0.0.0/0"

  /** screen.RouteEntry: one route as the GUI edits it, every field a string. */
  datatype RouteEntry = RouteEntry(subnet: string, via: string, mtu: string, name: string)

  /** screen.Config: the VPN mode, the route entries and the DNS servers. */
  datatype ScreenConfig = ScreenConfig(vpnmode: string, rentries: seq<RouteEntry>, dnsServers: string)

  /** configUnsafeRoute as written to the second configuration file. */
  datatype UnsafeRoute = UnsafeRoute(route: string, via: string, name: string, mtu: int)

  /** The tun section saveConfig renders: unsafe routes, the full-VPN flag and the DNS servers. */
  datatype TunSettings = TunSettings(unsafeRoutes: seq<UnsafeRoute>, fullvpn: bool, dns: string)

  /**
   * Why saveConfig refuses: a kept entry whose MTU is not an integer, or full
   * VPN mode with no entry to take the gateway from (the source indexes the
   * first entry unchecked and panics).
   */
  datatype SaveError = InvalidMtu(mtu: string) | NoRouteEntries

  /** Some entry of routes goes to subnet. */
  predicate Taken(routes: seq<RouteEntry>, subnet: string)
  {
    exists k :: 0 <= k < |routes| && routes[k].subnet == subnet
  }

  /**
   * The entries the duplicate scan keeps: an entry is kept when no entry kept
   * before it has the same subnet.
   */
  function Kept(entries: seq<RouteEntry>): seq<RouteEntry>
    decreases |entries|
  {
    if entries == [] then []
    else
      var p := Kept(entries[..|entries| - 1]);
      if Taken(p, entries[|entries| - 1].subnet) then p else p + [entries[|entries| - 1]]
  }

  /** The index of the first entry with the subnet. */
  function FirstIndex(entries: seq<RouteEntry>, subnet: string): (i: nat)
    requires Taken(entries, subnet)
    ensures i < |entries| && entries[i].subnet == subnet
    ensures forall j :: 0 <= j < i ==> entries[j].subnet != subnet
    decreases |entries|
  {
    var p := entries[..|entries| - 1];
    if Taken(p, subnet) then FirstIndex(p, subnet) else |entries| - 1
  }

  /** A kept entry as a route with its parsed MTU. */
  function ToRoute(e: RouteEntry, mtu: int): UnsafeRoute
  {
    UnsafeRoute(e.subnet, e.via, e.name, mtu)
  }

  /** The kept entries as routes, in order; the first whose MTU is not an integer refuses them all. */
  function ToRoutes(kept: seq<RouteEntry>): Result<seq<UnsafeRoute>, SaveError>
  {
    if kept == [] then Ok([])
    else match Atoi(kept[0].mtu)
      case None => Err(InvalidMtu(kept[0].mtu))
      case Some(m) =>
        var rest := ToRoutes(kept[1..]);
        if rest.Err? then rest else Ok([ToRoute(kept[0], m)] + rest.value)
  }

  /** rs holds the routes of the kept entries, each with an integer MTU. */
  predicate Converted(kept: seq<RouteEntry>, rs: seq<UnsafeRoute>)
  {
    |rs| == |kept|
    && forall k :: 0 <= k < |kept| ==> Atoi(kept[k].mtu).Some? && rs[k] == ToRoute(kept[k], Atoi(kept[k].mtu).value)
  }

  /** The tun settings saveConfig renders for a saved GUI configuration. */
  function SaveSettings(c: ScreenConfig): Result<TunSettings, SaveError>
  {
    if c.vpnmode == CUSTOM_VPN then
      var r := ToRoutes(Kept(c.rentries));
      if r.Err? then Err(r.error) else Ok(TunSettings(r.value, false, c.dnsServers))
    else if c.vpnmode == FULL_VPN then
      if c.rentries == [] then Err(NoRouteEntries)
      else Ok(TunSettings([UnsafeRoute(DEFAULT_ROUTE, c.rentries[0].via, "", FULL_VPN_MTU)], true, c.dnsServers))
    else Ok(TunSettings([], false, c.dnsServers))
  }

  /**
   * saveConfig's route building in custom-VPN mode: a route slot per entry,
   * a scan of the routes kept so far for the entry's subnet, and the routes
   * cut to the number kept.
   */
  method BuildUnsafeRoutes(entries: seq<RouteEntry>) returns (r: Result<seq<UnsafeRoute>, SaveError>)
    ensures r == ToRoutes(Kept(entries))
  {
    var routes := new UnsafeRoute[|entries|](_ => UnsafeRoute("", "", "", 0));
    var index := 0;
    var i := 0;
    ghost var kept: seq<RouteEntry> := [];
    while i < |entries|
      invariant 0 <= index <= i <= |entries| == routes.Length
      invariant kept == Kept(entries[..i])
      invariant Converted(kept, routes[..index])
    {
      var next;
      next, kept := KeepOrSkip(routes, index, entries, i, kept);
      if next.None? {
        return Err(InvalidMtu(entries[i].mtu));
      }
      index := next.value;
      i := i + 1;
    }
    assert entries[..i] == entries;
    ConvertedRoutes(kept, routes[..index]);
    r := Ok(routes[..index]);
  }

  /**
   * One pass of the loop: an entry whose subnet is already among the first
   * index routes is skipped, a new one is written at index with its parsed
   * MTU, and a new one whose MTU is not an integer ends the build (None).
   */
  method KeepOrSkip(routes: array<UnsafeRoute>, index: nat, entries: seq<RouteEntry>, i: nat, ghost kept: seq<RouteEntry>)
    returns (next: Option<nat>, ghost kept': seq<RouteEntry>)
    requires index <= i < |entries| == routes.Length
    requires kept == Kept(entries[..i]) && Converted(kept, routes[..index])
    modifies routes
    ensures next.Some? ==> index <= next.value <= i + 1 && kept' == Kept(entries[..i + 1]) && Converted(kept', routes[..next.value])
    ensures next.None? ==> ToRoutes(Kept(entries)) == Err(InvalidMtu(entries[i].mtu))
  {
    ghost var rs := routes[..index];
    var found := ScanRoutes(routes, index, entries[i].subnet);
    if found {
      StepSkip(entries, i, kept, rs);
      return Some(index), kept;
    }
    var mtu := Atoi(entries[i].mtu);
    if mtu.None? {
      KeptStops(entries, i, kept, rs);
      return None, kept;
    }
    PutRoute(routes, index, ToRoute(entries[i], mtu.value));
    StepKeep(entries, i, kept, rs, mtu.value);
    next, kept' := Some(index + 1), kept + [entries[i]];
  }

  /** Some converted route goes to the subnet. */
  predicate RouteTo(rs: seq<UnsafeRoute>, subnet: string)
  {
    exists k :: 0 <= k < |rs| && rs[k].route == subnet
  }

  /** An entry whose subnet the scan finds is dropped. */
  lemma StepSkip(entries: seq<RouteEntry>, i: nat, kept: seq<RouteEntry>, rs: seq<UnsafeRoute>)
    requires i < |entries| && kept == Kept(entries[..i]) && Converted(kept, rs) && RouteTo(rs, entries[i].subnet)
    ensures kept == Kept(entries[..i + 1])
  {
    KeptStep(entries, i);
    ConvertedTaken(kept, rs, entries[i].subnet);
  }

  /** An entry whose subnet the scan does not find is kept, with its MTU. */
  lemma StepKeep(entries: seq<RouteEntry>, i: nat, kept: seq<RouteEntry>, rs: seq<UnsafeRoute>, mtu: int)
    requires i < |entries| && kept == Kept(entries[..i]) && Converted(kept, rs) && !RouteTo(rs, entries[i].subnet)
    requires Atoi(entries[i].mtu) == Some(mtu)
    ensures kept + [entries[i]] == Kept(entries[..i + 1])
    ensures Converted(kept + [entries[i]], rs + [ToRoute(entries[i], mtu)])
  {
    KeptStep(entries, i);
    ConvertedTaken(kept, rs, entries[i].subnet);
    ConvertedAppend(kept, rs, entries[i], mtu);
  }

  /** One more kept entry with an integer MTU, one more converted route. */
  lemma ConvertedAppend(kept: seq<RouteEntry>, rs: seq<UnsafeRoute>, e: RouteEntry, mtu: int)
    requires Converted(kept, rs) && Atoi(e.mtu) == Some(mtu)
    ensures Converted(kept + [e], rs + [ToRoute(e, mtu)])
  {
  }

  /** unsafe_routes[index] = route: the first index routes stay, followed by the new one. */
  method PutRoute(routes: array<UnsafeRoute>, index: nat, route: UnsafeRoute)
    requires index < routes.Length
    modifies routes
    ensures routes[..index + 1] == old(routes[..index]) + [route]
  {
    routes[index] := route;
    assert routes[..index + 1] == old(routes[..index]) + [route];
  }

  /** The duplicate scan over the first n routes. */
  method ScanRoutes(routes: array<UnsafeRoute>, n: nat, subnet: string) returns (found: bool)
    requires n <= routes.Length
    ensures found <==> RouteTo(routes[..n], subnet)
  {
    var j := 0;
    while j < n
      invariant 0 <= j <= n
      invariant forall k :: 0 <= k < j ==> routes[k].route != subnet
    {
      if routes[j].route == subnet {
        return true;
      }
      j := j + 1;
    }
    found := false;
  }

  /** One more entry: kept unless its subnet is already taken. */
  lemma KeptStep(entries: seq<RouteEntry>, i: nat)
    requires i < |entries|
    ensures Kept(entries[..i + 1]) ==
      if Taken(Kept(entries[..i]), entries[i].subnet) then Kept(entries[..i]) else Kept(entries[..i]) + [entries[i]]
  {
    assert entries[..i + 1][..i] == entries[..i];
  }

  /** The scan over converted routes finds a subnet exactly when a kept entry has it. */
  lemma ConvertedTaken(kept: seq<RouteEntry>, rs: seq<UnsafeRoute>, subnet: string)
    requires Converted(kept, rs)
    ensures RouteTo(rs, subnet) <==> Taken(kept, subnet)
  {
    if Taken(kept, subnet) {
      var k :| 0 <= k < |kept| && kept[k].subnet == subnet;
      assert rs[k].route == subnet;
    }
  }

  /** A new subnet whose MTU is not an integer refuses the whole list. */
  lemma KeptStops(entries: seq<RouteEntry>, i: nat, kept: seq<RouteEntry>, rs: seq<UnsafeRoute>)
    requires i < |entries| && kept == Kept(entries[..i]) && Converted(kept, rs)
    requires !RouteTo(rs, entries[i].subnet) && Atoi(entries[i].mtu).None?
    ensures ToRoutes(Kept(entries)) == Err(InvalidMtu(entries[i].mtu))
  {
    KeptStep(entries, i);
    ConvertedTaken(kept, rs, entries[i].subnet);
    KeptPrefix(entries, i + 1);
    var rest := Kept(entries)[|kept| + 1..];
    assert Kept(entries) == kept + [entries[i]] + rest;
    ConvertedStops(kept, rs, entries[i], rest);
  }

  /** Kept routes of a prefix are a prefix of the kept routes of the whole. */
  lemma {:induction false} KeptPrefix(entries: seq<RouteEntry>, n: nat)
    requires n <= |entries|
    ensures Kept(entries[..n]) <= Kept(entries)
    decreases |entries| - n
  {
    if n < |entries| {
      KeptPrefix(entries, n + 1);
      assert entries[..n + 1][..n] == entries[..n];
    } else {
      assert entries[..n] == entries;
    }
  }

  lemma {:induction false} ConvertedRoutes(kept: seq<RouteEntry>, rs: seq<UnsafeRoute>)
    requires Converted(kept, rs)
    ensures ToRoutes(kept) == Ok(rs)
    decreases |kept|
  {
    if kept != [] {
      ConvertedRoutes(kept[1..], rs[1..]);
      assert rs == [rs[0]] + rs[1..];
    }
  }

  lemma {:induction false} ConvertedStops(kept: seq<RouteEntry>, rs: seq<UnsafeRoute>, e: RouteEntry, rest: seq<RouteEntry>)
    requires Converted(kept, rs) && Atoi(e.mtu).None?
    ensures ToRoutes(kept + [e] + rest) == Err(InvalidMtu(e.mtu))
    decreases |kept|
  {
    if kept == [] {
      assert kept + [e] + rest == [e] + rest;
    } else {
      ConvertedStops(kept[1..], rs[1..], e, rest);
      assert (kept + [e] + rest)[1..] == kept[1..] + [e] + rest;
    }
  }

  /** Taken and FirstIndex of a list in terms of its list without the last entry. */
  lemma TakenStep(entries: seq<RouteEntry>, s: string)
    requires entries != []
    ensures Taken(entries, s) <==> Taken(entries[..|entries| - 1], s) || entries[|entries| - 1].subnet == s
    ensures Taken(entries[..|entries| - 1], s) ==> FirstIndex(entries, s) == FirstIndex(entries[..|entries| - 1], s)
    ensures Taken(entries, s) && !Taken(entries[..|entries| - 1], s) ==> FirstIndex(entries, s) == |entries| - 1
  {
    TakenPrefixMember(entries, s);
  }

  lemma TakenPrefixMember(entries: seq<RouteEntry>, s: string)
    requires entries != []
    ensures Taken(entries, s) <==> Taken(entries[..|entries| - 1], s) || entries[|entries| - 1].subnet == s
  {
    var n := |entries| - 1;
    var p := entries[..n];
    if Taken(p, s) {
      var k :| 0 <= k < n && p[k].subnet == s;
      assert entries[k].subnet == s;
    }
    if entries[n].subnet == s {
      assert Taken(entries, s);
    }
    if Taken(entries, s) && entries[n].subnet != s {
      var k :| 0 <= k < |entries| && entries[k].subnet == s;
      assert p[k].subnet == s;
    }
  }

  /** Taken on a list with one more entry. */
  lemma TakenAppend(q: seq<RouteEntry>, e: RouteEntry, s: string)
    ensures Taken(q + [e], s) <==> Taken(q, s) || e.subnet == s
  {
    TakenStep(q + [e], s);
    assert (q + [e])[..|q|] == q;
  }

  /** A subnet is kept exactly when some entry has it. */
  lemma {:induction false} KeptTaken(entries: seq<RouteEntry>, s: string)
    ensures Taken(Kept(entries), s) <==> Taken(entries, s)
    decreases |entries|
  {
    if entries != [] {
      var n := |entries| - 1;
      var e := entries[n];
      KeptTaken(entries[..n], s);
      KeptTaken(entries[..n], e.subnet);
      TakenStep(entries, s);
      TakenAppend(Kept(entries[..n]), e, s);
    }
  }

  /** Each kept entry is the first entry of its subnet. */
  lemma {:induction false} KeptIsFirst(entries: seq<RouteEntry>, k: nat)
    requires k < |Kept(entries)|
    ensures Taken(entries, Kept(entries)[k].subnet)
    ensures Kept(entries)[k] == entries[FirstIndex(entries, Kept(entries)[k].subnet)]
    decreases |entries|
  {
    var n := |entries| - 1;
    var p := entries[..n];
    var e := entries[n];
    if k < |Kept(p)| {
      KeptIsFirst(p, k);
      TakenStep(entries, Kept(p)[k].subnet);
      assert Kept(entries)[k] == Kept(p)[k];
    } else {
      KeptTaken(p, e.subnet);
      TakenStep(entries, e.subnet);
    }
  }

  /** Kept entries appear in the order of their first occurrence. */
  lemma {:induction false} KeptInOrder(entries: seq<RouteEntry>, a: nat, b: nat)
    requires a < b < |Kept(entries)|
    ensures Taken(entries, Kept(entries)[a].subnet) && Taken(entries, Kept(entries)[b].subnet)
    ensures FirstIndex(entries, Kept(entries)[a].subnet) < FirstIndex(entries, Kept(entries)[b].subnet)
    decreases |entries|
  {
    KeptIsFirst(entries, a);
    KeptIsFirst(entries, b);
    var n := |entries| - 1;
    var p := entries[..n];
    var e := entries[n];
    KeptIsFirst(p, a);
    TakenStep(entries, Kept(p)[a].subnet);
    assert Kept(entries)[a] == Kept(p)[a];
    if b < |Kept(p)| {
      KeptInOrder(p, a, b);
      TakenStep(entries, Kept(p)[b].subnet);
      assert Kept(entries)[b] == Kept(p)[b];
    } else {
      KeptTaken(p, e.subnet);
      TakenStep(entries, e.subnet);
    }
  }

  /** A kept list never holds the same subnet twice. */
  lemma KeptDistinct(entries: seq<RouteEntry>)
    ensures forall a, b :: 0 <= a < b < |Kept(entries)| ==> Kept(entries)[a].subnet != Kept(entries)[b].subnet
  {
    forall a, b | 0 <= a < b < |Kept(entries)| ensures Kept(entries)[a].subnet != Kept(entries)[b].subnet {
      KeptInOrder(entries, a, b);
    }
  }

  /**
   * Custom VPN: the routes are the first entry of each subnet, with no subnet
   * twice, and the full-VPN flag is off. Full VPN: a single default route via
   * the first entry with MTU 1300 and the flag on. Any other mode: no route and
   * the flag off. The flag is set exactly in full-VPN mode.
   */
  lemma SaveSettingsModes(c: ScreenConfig)
    ensures SaveSettings(c).Ok? ==> (SaveSettings(c).value.fullvpn <==> c.vpnmode == FULL_VPN)
    ensures SaveSettings(c).Ok? ==> SaveSettings(c).value.dns == c.dnsServers
    ensures c.vpnmode == FULL_VPN && c.rentries != [] ==>
      SaveSettings(c) == Ok(TunSettings([UnsafeRoute(DEFAULT_ROUTE, c.rentries[0].via, "", FULL_VPN_MTU)], true, c.dnsServers))
    ensures c.vpnmode != FULL_VPN && c.vpnmode != CUSTOM_VPN ==> SaveSettings(c) == Ok(TunSettings([], false, c.dnsServers))
    ensures c.vpnmode == CUSTOM_VPN && SaveSettings(c).Ok? ==>
      var rs := SaveSettings(c).value.unsafeRoutes;
      Converted(Kept(c.rentries), rs)
      && forall a, b :: 0 <= a < b < |rs| ==> rs[a].route != rs[b].route
  {
    if c.vpnmode == CUSTOM_VPN && SaveSettings(c).Ok? {
      ToRoutesConverted(Kept(c.rentries));
      KeptDistinct(c.rentries);
    }
  }

  /** Success means every kept entry converted. */
  lemma {:induction false} ToRoutesConverted(kept: seq<RouteEntry>)
    ensures ToRoutes(kept).Ok? ==> Converted(kept, ToRoutes(kept).value)
    decreases |kept|
  {
    if kept != [] {
      ToRoutesConverted(kept[1..]);
    }
  }

  /** A non-integer MTU on a kept entry refuses the whole configuration; on a dropped duplicate it does not matter. */
  lemma ToRoutesRefusesBadMtu(kept: seq<RouteEntry>, k: nat)
    requires k < |kept| && Atoi(kept[k].mtu).None?
    ensures ToRoutes(kept).Err?
  {
    ToRoutesConverted(kept);
  }

  // ---------------------------------------------------------------------------
  // getRouterIP

  /** RouterIP as the server lists it. */
  datatype RouterIP = RouterIP(deviceName: string, deviceIp: string, primaryRouter: int)

  /** The first listed router marked primary, or "" when none is. */
  function FirstPrimary(ms: seq<RouterIP>): string
  {
    if ms == [] then "" else if ms[0].primaryRouter != 0 then ms[0].deviceIp else FirstPrimary(ms[1..])
  }

  /** getRouterIP's choice: the only router when there is one, else the first primary one. */
  function RouterIPChoice(ms: seq<RouterIP>): (r: string)
    ensures |ms| == 1 ==> r == ms[0].deviceIp
  {
    if |ms| == 1 then ms[0].deviceIp else FirstPrimary(ms)
  }

  /**
   * With several routers (or none) the choice is the address of the first one
   * marked primary, and "" when none is.
   */
  lemma {:induction false} FirstPrimaryIsFirst(ms: seq<RouterIP>)
    ensures (forall i :: 0 <= i < |ms| ==> ms[i].primaryRouter == 0) ==> FirstPrimary(ms) == ""
    ensures forall i :: FirstPrimaryAt(ms, i) ==> FirstPrimary(ms) == ms[i].deviceIp
  {
    if ms != [] {
      FirstPrimaryIsFirst(ms[1..]);
      forall i | FirstPrimaryAt(ms, i) && i > 0 ensures FirstPrimary(ms) == ms[i].deviceIp {
        assert FirstPrimaryAt(ms[1..], i - 1);
      }
    }
  }

  /** i is the first router marked primary. */
  predicate FirstPrimaryAt(ms: seq<RouterIP>, i: int)
  {
    0 <= i < |ms| && ms[i].primaryRouter != 0 && forall j :: 0 <= j < i ==> ms[j].primaryRouter == 0
  }

  // ---------------------------------------------------------------------------
  // Link status and processCommands

  /** screen.LinkStatusType. */
  datatype LinkStatus = NotStarted | Disconnected | InProgress | Connected

  /**
   * getLinkStatus as written, with the host listings as it sees them: a nil
   * listing is told apart from an empty one.
   */
  function LinkStatusAsWritten(started: bool, hostsNil: bool, nHosts: nat, pendingNil: bool, nPending: nat): LinkStatus
  {
    if !started then NotStarted
    else if hostsNil && !pendingNil && nPending > 0 then InProgress
    else if !hostsNil && nHosts > 0 then Connected
    else Disconnected
  }

  /**
   * listHostMap always returns a slice it made, never nil, so getLinkStatus as
   * written never reports a connection in progress: with no established peer
   * and a handshake under way it says disconnected.
   */
  lemma LinkStatusNeverInProgress(started: bool, nHosts: nat, nPending: nat)
    ensures LinkStatusAsWritten(started, false, nHosts, false, nPending) != InProgress
    ensures started && nHosts == 0 && nPending > 0 ==> LinkStatusAsWritten(started, false, nHosts, false, nPending) == Disconnected
  {
  }

  /** The intended link status: in progress when no peer is established but handshakes are pending. */
  function LinkStatusOf(started: bool, nHosts: nat, nPending: nat): (s: LinkStatus)
    ensures s == NotStarted <==> !started
    ensures s == InProgress <==> started && nHosts == 0 && nPending > 0
    ensures s == Connected <==> started && nHosts > 0
    ensures s == Disconnected <==> started && nHosts == 0 && nPending == 0
  {
    if !started then NotStarted
    else if nHosts == 0 && nPending > 0 then InProgress
    else if nHosts > 0 then Connected
    else Disconnected
  }

  /** The intended status differs from the written one only where the written one cannot say in progress. */
  lemma LinkStatusOfAgrees(started: bool, nHosts: nat, nPending: nat)
    ensures LinkStatusOf(started, nHosts, nPending) != InProgress ==>
      LinkStatusOf(started, nHosts, nPending) == LinkStatusAsWritten(started, false, nHosts, false, nPending)
    ensures LinkStatusOf(started, nHosts, nPending) == InProgress ==>
      LinkStatusAsWritten(started, false, nHosts, false, nPending) == Disconnected
  {
  }

  /** screen.CommandType. */
  datatype Command = Connect | Disconnect | OnboardClient | UploadLogs | ResetConfig | StopMain | SaveConfig
                   | GetRouterIP | GetWiFiClientIPList | UnknownCommand(code: uint8)

  /** The command a CommandType code names. */
  function CommandOf(code: uint8): (c: Command)
    ensures code > 8 <==> c.UnknownCommand?
  {
    match code
    case 0 => Connect
    case 1 => Disconnect
    case 2 => OnboardClient
    case 3 => UploadLogs
    case 4 => ResetConfig
    case 5 => StopMain
    case 6 => SaveConfig
    case 7 => GetRouterIP
    case 8 => GetWiFiClientIPList
    case _ => UnknownCommand(code)
  }

  /** What processCommands goes on to do. */
  datatype Action = Ignored | Trigger(start: bool) | Onboard | Upload | Reset | Stop | Save | FetchRouterIP
                  | ListWiFiClients | NoAction

  /** processCommands: the link-status gate, then the switch on the command. */
  function Dispatch(cmd: Command, status: LinkStatus): (a: Action)
  {
    if cmd == Disconnect && status != Connected then Ignored
    else if cmd == Connect && status == Connected then Ignored
    else match cmd
      case Connect => Trigger(true)
      case Disconnect => Trigger(false)
      case OnboardClient => Onboard
      case UploadLogs => Upload
      case ResetConfig => Reset
      case StopMain => Stop
      case SaveConfig => Save
      case GetRouterIP => FetchRouterIP
      case GetWiFiClientIPList => ListWiFiClients
      case UnknownCommand(_) => NoAction
  }

  /**
   * The gate: a disconnect is acted on exactly when connected and a connect
   * exactly when not; every other command is dispatched whatever the status.
   */
  lemma DispatchGate(cmd: Command, s1: LinkStatus, s2: LinkStatus)
    ensures Dispatch(Disconnect, s1) == (if s1 == Connected then Trigger(false) else Ignored)
    ensures Dispatch(Connect, s1) == (if s1 == Connected then Ignored else Trigger(true))
    ensures cmd != Connect && cmd != Disconnect ==> Dispatch(cmd, s1) == Dispatch(cmd, s2) != Ignored
    ensures Dispatch(cmd, s1).Trigger? <==> (cmd == Connect && s1 != Connected) || (cmd == Disconnect && s1 == Connected)
  {
  }

  // ---------------------------------------------------------------------------
  // SendNonTunMessage

  /** One call of Control.SendNonTunMessage: the reply and the error. */
  datatype Attempt = Attempt(reply: string, err: Option<string>)

  /** The first call from `from` on, below limit, that succeeds; limit when none does. */
  function FirstSuccess(attempt: nat -> Attempt, from: nat, limit: nat): nat
    requires from <= limit
    decreases limit - from
  {
    if from == limit then limit
    else if attempt(from).err.None? then from
    else FirstSuccess(attempt, from + 1, limit)
  }

  /** How many calls a budget of `budget` calls makes: up to the first success. */
  function CallsMade(attempt: nat -> Attempt, budget: nat): nat
  {
    var s := FirstSuccess(attempt, 0, budget);
    if s < budget then s + 1 else budget
  }

  lemma {:induction false} FirstSuccessIsFirst(attempt: nat -> Attempt, from: nat, limit: nat)
    requires from <= limit
    ensures from <= FirstSuccess(attempt, from, limit) <= limit
    ensures forall k :: from <= k < FirstSuccess(attempt, from, limit) ==> attempt(k).err.Some?
    ensures FirstSuccess(attempt, from, limit) < limit ==> attempt(FirstSuccess(attempt, from, limit)).err.None?
    decreases limit - from
  {
    if from < limit && attempt(from).err.Some? {
      FirstSuccessIsFirst(attempt, from + 1, limit);
    }
  }

  /**
   * SendNonTunMessage as written: the loop runs while counter < 5 but the
   * counter moves twice per failed call, so calls 0, 1 and 2 are all it makes.
   * It returns the first success, or the last failure.
   */
  method SendNonTunMessage(attempt: nat -> Attempt) returns (reply: string, err: Option<string>, calls: nat)
    ensures calls == CallsMade(attempt, 3) && 1 <= calls
    ensures Attempt(reply, err) == attempt(calls - 1)
    ensures err.None? <==> exists k :: 0 <= k < 3 && attempt(k).err.None?
  {
    reply, err := "", None;
    calls := 0;
    var counter := 0;
    while counter < 5
      invariant counter == 2 * calls && calls <= 3
      invariant forall k :: 0 <= k < calls ==> attempt(k).err.Some?
      invariant calls > 0 ==> Attempt(reply, err) == attempt(calls - 1)
    {
      var a := attempt(calls);
      reply, err := a.reply, a.err;
      calls := calls + 1;
      if err.None? {
        FirstSuccessIsFirst(attempt, 0, 3);
        FirstSuccessFrom(attempt, 0, 3, calls - 1);
        return;
      }
      counter := counter + 1;
      counter := counter + 1;
    }
    FirstSuccessFrom(attempt, 0, 3, 3);
  }

  /**
   * SendNonTunMessage as its comment means it: five calls, one counter step
   * each. It returns the first success, or the last failure.
   */
  method SendNonTunMessageFiveTries(attempt: nat -> Attempt) returns (reply: string, err: Option<string>, calls: nat)
    ensures calls == CallsMade(attempt, 5) && 1 <= calls
    ensures Attempt(reply, err) == attempt(calls - 1)
    ensures err.None? <==> exists k :: 0 <= k < 5 && attempt(k).err.None?
  {
    reply, err := "", None;
    calls := 0;
    while calls < 5
      invariant calls <= 5
      invariant forall k :: 0 <= k < calls ==> attempt(k).err.Some?
      invariant calls > 0 ==> Attempt(reply, err) == attempt(calls - 1)
    {
      var a := attempt(calls);
      reply, err := a.reply, a.err;
      calls := calls + 1;
      if err.None? {
        FirstSuccessFrom(attempt, 0, 5, calls - 1);
        return;
      }
    }
    FirstSuccessFrom(attempt, 0, 5, 5);
  }

  /** When the calls before i all fail and i succeeds (or is the limit), i is the first success. */
  lemma {:induction false} FirstSuccessFrom(attempt: nat -> Attempt, from: nat, limit: nat, i: nat)
    requires from <= i <= limit
    requires forall k :: from <= k < i ==> attempt(k).err.Some?
    requires i < limit ==> attempt(i).err.None?
    ensures FirstSuccess(attempt, from, limit) == i
    decreases limit - from
  {
    if from < i {
      FirstSuccessFrom(attempt, from + 1, limit, i);
    }
  }

  /** A peer that answers only on the fourth call: the written loop gives up, five tries would not. */
  lemma FourthCallLost()
    ensures var attempt := (k: nat) => if k == 3 then Attempt("ok", None) else Attempt("", Some("timeout"));
      CallsMade(attempt, 3) == 3 && attempt(2).err.Some?
      && CallsMade(attempt, 5) == 4 && attempt(3).err.None?
  {
    var attempt := (k: nat) => if k == 3 then Attempt("ok", None) else Attempt("", Some("timeout"));
    FirstSuccessFrom(attempt, 0, 3, 3);
    FirstSuccessFrom(attempt, 0, 5, 3);
  }

  // ---------------------------------------------------------------------------
  // The traffic snapshot: addHostsEntry and getLinkStatus

  /** screen.NetworkEntry: what the home screen shows about one peer. */
  datatype NetworkEntry = NetworkEntry(vpnIp: uint32, relay: uint8, connected: bool, inBytes: uint64, outBytes: uint64,
                                       inDiffBytes: uint64, outDiffBytes: uint64, name: string)

  /**
   * The entry addHostsEntry makes for a listed peer. The traffic since the
   * previous snapshot is filled in only when the previous snapshot has the
   * peer, as a wrapping uint64 difference.
   */
  function Entry(h: ControlHostInfo, connected: bool, prev: map<uint32, NetworkEntry>): (e: NetworkEntry)
    ensures e.vpnIp == h.vpnIp && e.connected == connected && e.inBytes == h.inBytes && e.outBytes == h.outBytes
    ensures h.vpnIp !in prev ==> e.inDiffBytes == 0 && e.outDiffBytes == 0
    ensures h.vpnIp in prev && prev[h.vpnIp].inBytes <= h.inBytes ==> e.inDiffBytes == h.inBytes - prev[h.vpnIp].inBytes
    ensures h.vpnIp in prev && prev[h.vpnIp].outBytes <= h.outBytes ==> e.outDiffBytes == h.outBytes - prev[h.vpnIp].outBytes
  {
    var inDiff := if h.vpnIp in prev then SubU64(h.inBytes, prev[h.vpnIp].inBytes) else 0;
    var outDiff := if h.vpnIp in prev then SubU64(h.outBytes, prev[h.vpnIp].outBytes) else 0;
    NetworkEntry(h.vpnIp, h.relay, connected, h.inBytes, h.outBytes, inDiff, outDiff, h.name)
  }

  /** The snapshot after entering the listed peers in order into m; a later listing of an address wins. */
  function Listed(m: map<uint32, NetworkEntry>, hosts: seq<ControlHostInfo>, connected: bool,
                  prev: map<uint32, NetworkEntry>): map<uint32, NetworkEntry>
    decreases |hosts|
  {
    if hosts == [] then m
    else
      var h := hosts[|hosts| - 1];
      Listed(m, hosts[..|hosts| - 1], connected, prev)[h.vpnIp := Entry(h, connected, prev)]
  }

  /** The addresses of a listing. */
  function Ips(hosts: seq<ControlHostInfo>): set<uint32>
    decreases |hosts|
  {
    if hosts == [] then {} else Ips(hosts[..|hosts| - 1]) + {hosts[|hosts| - 1].vpnIp}
  }

  /** No listing has the address. */
  predicate Unlisted(hosts: seq<ControlHostInfo>, ip: uint32)
  {
    forall i :: 0 <= i < |hosts| ==> hosts[i].vpnIp != ip
  }

  /** i is the last listing of its address. */
  predicate LastListing(hosts: seq<ControlHostInfo>, i: int)
  {
    0 <= i < |hosts| && forall j :: i < j < |hosts| ==> hosts[j].vpnIp != hosts[i].vpnIp
  }

  /** An address is among a listing's addresses exactly when some listing has it. */
  lemma {:induction false} IpsListed(hosts: seq<ControlHostInfo>, ip: uint32)
    ensures ip in Ips(hosts) <==> !Unlisted(hosts, ip)
    decreases |hosts|
  {
    if hosts != [] {
      var n := |hosts| - 1;
      IpsListed(hosts[..n], ip);
      if ip in Ips(hosts[..n]) {
        var i :| 0 <= i < n && hosts[..n][i].vpnIp == ip;
        assert hosts[i].vpnIp == ip;
      } else if !Unlisted(hosts, ip) {
        var i :| 0 <= i < |hosts| && hosts[i].vpnIp == ip;
      }
    }
  }

  /** addHostsEntry adds exactly the listed addresses to the snapshot. */
  lemma {:induction false} ListedKeys(m: map<uint32, NetworkEntry>, hosts: seq<ControlHostInfo>, connected: bool,
                                      prev: map<uint32, NetworkEntry>)
    ensures Listed(m, hosts, connected, prev).Keys == m.Keys + Ips(hosts)
    decreases |hosts|
  {
    if hosts != [] {
      ListedKeys(m, hosts[..|hosts| - 1], connected, prev);
    }
  }

  /** Each listed address holds the entry of its last listing. */
  lemma {:induction false} ListedLast(m: map<uint32, NetworkEntry>, hosts: seq<ControlHostInfo>, connected: bool,
                                      prev: map<uint32, NetworkEntry>, i: nat)
    requires LastListing(hosts, i)
    ensures hosts[i].vpnIp in Listed(m, hosts, connected, prev)
    ensures Listed(m, hosts, connected, prev)[hosts[i].vpnIp] == Entry(hosts[i], connected, prev)
    decreases |hosts|
  {
    var n := |hosts| - 1;
    if i < n {
      assert LastListing(hosts[..n], i);
      ListedLast(m, hosts[..n], connected, prev, i);
    }
  }

  /** An address no listing has keeps its earlier entry. */
  lemma {:induction false} ListedUntouched(m: map<uint32, NetworkEntry>, hosts: seq<ControlHostInfo>, connected: bool,
                                           prev: map<uint32, NetworkEntry>, ip: uint32)
    requires ip in m && Unlisted(hosts, ip)
    ensures ip in Listed(m, hosts, connected, prev) && Listed(m, hosts, connected, prev)[ip] == m[ip]
    decreases |hosts|
  {
    if hosts != [] {
      var n := |hosts| - 1;
      assert Unlisted(hosts[..n], ip);
      ListedUntouched(m, hosts[..n], connected, prev, ip);
    }
  }

  /** The snapshot getLinkStatus takes when connected: established peers, then pending ones, against prev. */
  function Refreshed(listed: seq<ControlHostInfo>, pending: seq<ControlHostInfo>, prev: map<uint32, NetworkEntry>)
    : map<uint32, NetworkEntry>
  {
    Listed(Listed(map[], listed, true, prev), pending, false, prev)
  }

  /**
   * After a refresh the snapshot holds exactly the listed addresses; a peer
   * whose last listing is established and which is not pending is shown
   * connected, with its rates against the previous snapshot.
   */
  lemma RefreshedHolds(listed: seq<ControlHostInfo>, pending: seq<ControlHostInfo>, prev: map<uint32, NetworkEntry>, i: nat)
    requires LastListing(listed, i) && Unlisted(pending, listed[i].vpnIp)
    ensures Refreshed(listed, pending, prev).Keys == Ips(listed) + Ips(pending)
    ensures listed[i].vpnIp in Refreshed(listed, pending, prev)
    ensures Refreshed(listed, pending, prev)[listed[i].vpnIp] == Entry(listed[i], true, prev)
  {
    ListedKeys(map[], listed, true, prev);
    ListedKeys(Listed(map[], listed, true, prev), pending, false, prev);
    ListedLast(map[], listed, true, prev, i);
    ListedUntouched(Listed(map[], listed, true, prev), pending, false, prev, listed[i].vpnIp);
  }

  /** The MainActivity state this model keeps: the two traffic snapshots and the router address. */
  class MainActivity {
    var hosts: map<uint32, NetworkEntry>
    var prevhosts: map<uint32, NetworkEntry>
    var routerip: string

    /** NewMainActivity: both snapshots empty, no router address yet. */
    constructor()
      ensures hosts == map[] && prevhosts == map[] && routerip == ""
    {
      hosts := map[];
      prevhosts := map[];
      routerip := "";
    }

    /** addHostsEntry: enter each listed peer into the current snapshot, rated against prevhosts. */
    method AddHostsEntry(list: seq<ControlHostInfo>, connected: bool)
      modifies this
      ensures hosts == Listed(old(hosts), list, connected, prevhosts)
      ensures prevhosts == old(prevhosts) && routerip == old(routerip)
    {
      var i := 0;
      while i < |list|
        invariant 0 <= i <= |list|
        invariant hosts == Listed(old(hosts), list[..i], connected, prevhosts)
        invariant prevhosts == old(prevhosts) && routerip == old(routerip)
      {
        assert list[..i + 1][..i] == list[..i];
        hosts := hosts[list[i].vpnIp := Entry(list[i], connected, prevhosts)];
        i := i + 1;
      }
      assert list[..i] == list;
    }

    /**
     * getLinkStatus (as intended, see LinkStatusOf). When connected, the
     * current snapshot becomes the previous one and a fresh snapshot is taken
     * from the two listings; otherwise nothing changes.
     */
    method GetLinkStatus(started: bool, listed: seq<ControlHostInfo>, pending: seq<ControlHostInfo>)
      returns (status: LinkStatus)
      modifies this
      ensures status == LinkStatusOf(started, |listed|, |pending|)
      ensures status == Connected ==> prevhosts == old(hosts) && hosts == Refreshed(listed, pending, old(hosts))
      ensures status != Connected ==> hosts == old(hosts) && prevhosts == old(prevhosts)
      ensures routerip == old(routerip)
    {
      if !started {
        return NotStarted;
      }
      if |listed| == 0 && |pending| > 0 {
        return InProgress;
      } else if |listed| > 0 {
        prevhosts := hosts;
        hosts := map[];
        AddHostsEntry(listed, true);
        AddHostsEntry(pending, false);
        return Connected;
      }
      return Disconnected;
    }

    /** processCommands: refresh the link status, then gate and dispatch the command. */
    method ProcessCommands(cmd: Command, started: bool, listed: seq<ControlHostInfo>, pending: seq<ControlHostInfo>)
      returns (a: Action)
      modifies this
      ensures a == Dispatch(cmd, LinkStatusOf(started, |listed|, |pending|))
      ensures started && |listed| > 0 ==> prevhosts == old(hosts) && hosts == Refreshed(listed, pending, old(hosts))
      ensures !(started && |listed| > 0) ==> hosts == old(hosts) && prevhosts == old(prevhosts)
      ensures routerip == old(routerip)
    {
      var status := GetLinkStatus(started, listed, pending);
      a := Dispatch(cmd, status);
    }

    /**
     * getRouterIP: on a successful fetch the chosen address is remembered and
     * returned; a failed fetch or decode changes nothing.
     */
    method GetRouterIP(reply: Result<seq<RouterIP>, string>) returns (r: Result<string, string>)
      modifies this
      ensures reply.Err? ==> r == Err(reply.error) && routerip == old(routerip)
      ensures reply.Ok? ==> r == Ok(RouterIPChoice(reply.value)) && routerip == RouterIPChoice(reply.value)
      ensures hosts == old(hosts) && prevhosts == old(prevhosts)
    {
      if reply.Err? {
        return Err(reply.error);
      }
      routerip := RouterIPChoice(reply.value);
      r := Ok(routerip);
    }
  }
}
