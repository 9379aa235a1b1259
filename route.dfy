/**
 * overlay/route.go: validation of the `tun.routes` and `tun.unsafe_routes`
 * settings, the route tree of unsafe routes, DNS server lists, route entries
 * for the full-tunnel mode, and network containment.
 */
module Route {
  import opened Wrappers
  import opened GoTypes
  import opened GoStrings
  import opened Strconv
  import opened NetAddr
  import opened Config
  import NhUtil

  /** overlay.Route; a nil pointer or address is None. */
  datatype Route = Route(
    mtu: int, metric: int, cidr: Option<IPNet>, via: Option<VpnIp>, name: string,
    gw: Option<IP4>, iname: string, index: int, localIP: Option<IP4>)

  const ZeroRoute := Route(0, 0, None, None, "", None, "", 0, None)

  /** Why a route entry was refused. PanicNotString stands for the source's unchecked `.(string)` assertion panicking. */
  datatype EntryFault =
    | NotAMap | MtuMissing | MtuNotInteger | MtuBelow500(mtu: int)
    | MetricNotInteger | MetricOutOfRange(metric: int)
    | ViaMissing | ViaNotString | ViaUnparseable
    | RouteMissing | RouteUnparseable | RouteOutsideNetwork | RouteInsideNetwork
    | PanicNotString

  /** The errors of parseRoutes/parseUnsafeRoutes; entry numbers are 1-based, as in the messages. */
  datatype RouteError = NotAnArray | EntryError(entry: nat, fault: EntryFault)

  // ---------------------------------------------------------------------------
  // ipWithin

  /** The highest address of an IPv4 network: every host bit set. */
  function Last(i: IPNet): (r: IP4)
    requires i.Net4?
    ensures forall k :: 0 <= k < 4 ==> r[k] == i.ip[k] | !Mask(i)[k]
  {
    seq(4, k requires 0 <= k < 4 => i.ip[k] | !Mask(i)[k])
  }

  /** What ipWithin checks: o holds the lowest and the highest address of i. */
  predicate Within(o: IPNet, i: IPNet)
  {
    i.Net4? && Contains(o, MaskIP(i.ip, Mask(i))) && Contains(o, Last(i))
  }

  lemma LowHighInside(i: IPNet)
    requires i.Net4?
    ensures Contains(i, MaskIP(i.ip, Mask(i))) && Contains(i, Last(i))
  {
    forall k | 0 <= k < 4
      ensures i.ip[k] & Mask(i)[k] == MaskIP(i.ip, Mask(i))[k] & Mask(i)[k]
      ensures i.ip[k] & Mask(i)[k] == Last(i)[k] & Mask(i)[k]
    {
      LowHighByte(i, k);
    }
  }

  lemma LowHighByte(i: IPNet, k: nat)
    requires i.Net4? && k < 4
    ensures i.ip[k] & Mask(i)[k] == MaskIP(i.ip, Mask(i))[k] & Mask(i)[k]
    ensures i.ip[k] & Mask(i)[k] == Last(i)[k] & Mask(i)[k]
  {
  }

  /**
   * Checking the two extreme addresses is enough: o holds the lowest and the
   * highest address of an IPv4 network i exactly when it holds every address
   * of i.
   */
  lemma WithinIffEveryAddress(o: IPNet, i: IPNet)
    ensures Within(o, i) <==> i.Net4? && forall a: IP4 :: Contains(i, a) ==> Contains(o, a)
  {
    if i.Net4? {
      LowHighInside(i);
      if Within(o, i) {
        forall a: IP4 | Contains(i, a) ensures Contains(o, a) {
          WithinAt(o, i, a);
        }
      }
    }
  }

  lemma WithinAt(o: IPNet, i: IPNet, a: IP4)
    requires Within(o, i) && Contains(i, a)
    ensures Contains(o, a)
  {
    forall k | 0 <= k < 4 ensures o.ip[k] & Mask(o)[k] == a[k] & Mask(o)[k] {
      WithinAtByte(o, i, a, k);
    }
  }

  /**
   * One byte of the containment argument: if o agrees under its mask with the
   * lowest and the highest byte that i's mask allows, it agrees with every
   * byte a that i's mask allows.
   */
  lemma WithinAtByte(o: IPNet, i: IPNet, a: IP4, k: nat)
    requires o.Net4? && i.Net4? && k < 4
    requires o.ip[k] & Mask(o)[k] == MaskIP(i.ip, Mask(i))[k] & Mask(o)[k]
    requires o.ip[k] & Mask(o)[k] == Last(i)[k] & Mask(o)[k]
    requires i.ip[k] & Mask(i)[k] == a[k] & Mask(i)[k]
    ensures o.ip[k] & Mask(o)[k] == a[k] & Mask(o)[k]
  {
  }



  /**
   * ipWithin: o must contain i's address under i's mask, then the copy of the
   * address with every mask bit inverted into it, byte by byte. A network i
   * that is not IPv4 gives false (its To4 is nil, or o already refused it).
   */
  method IpWithin(o: IPNet, i: IPNet) returns (r: bool)
    ensures r == Within(o, i)
    ensures r <==> i.Net4? && forall a: IP4 :: Contains(i, a) ==> Contains(o, a)
  {
    WithinIffEveryAddress(o, i);
    if i.Net6? {
      return false;
    }
    if !Contains(o, MaskIP(i.ip, Mask(i))) {
      return false;
    }
    var last := SetHostBits(i.ip, Mask(i));
    assert last == Last(i);
    r := Contains(o, last);
  }

  /** The copy-then-invert loop of ipWithin: each byte of ip with the inverted mask byte or-ed in. */
  method SetHostBits(ip: IP4, m: IP4) returns (last: IP4)
    ensures forall k :: 0 <= k < 4 ==> last[k] == ip[k] | !m[k]
  {
    var buf := new bv8[4];
    buf[0], buf[1], buf[2], buf[3] := ip[0], ip[1], ip[2], ip[3];
    var x := 0;
    while x < 4
      invariant 0 <= x <= 4
      invariant forall k :: 0 <= k < x ==> buf[k] == ip[k] | !m[k]
      invariant forall k :: x <= k < 4 ==> buf[k] == ip[k]
    {
      buf[x] := buf[x] | !m[x];
      x := x + 1;
    }
    last := buf[..];
  }

  // ---------------------------------------------------------------------------
  // parseRoutes

  /** One `tun.routes` entry, numbered n from 1. */
  function RouteEntry(v: Value, network: IPNet, n: nat): (r: Result<Route, RouteError>)
    ensures r.Err? ==> r.error.EntryError? && r.error.entry == n
    ensures r.Ok? ==> (r.value.mtu >= 500 && r.value.metric == 0 && r.value.via.None?
      && r.value.cidr.Some? && Within(network, r.value.cidr.value))
    ensures (!v.VMap? || "mtu" !in v.entries || "route" !in v.entries) ==> r.Err?
  {
    if !v.VMap? then Err(EntryError(n, NotAMap))
    else if "mtu" !in v.entries then Err(EntryError(n, MtuMissing))
    else
      var rMtu := v.entries["mtu"];
      var mtu: Result<int, RouteError> :=
        match rMtu
        case VInt(k) => Ok(k)
        case VStr(s) => if Atoi(s).Some? then Ok(Atoi(s).value) else Err(EntryError(n, MtuNotInteger))
        case _ => Err(EntryError(n, PanicNotString));
      if mtu.Err? then Err(mtu.error)
      else if mtu.value < 500 then Err(EntryError(n, MtuBelow500(mtu.value)))
      else if "route" !in v.entries then Err(EntryError(n, RouteMissing))
      else match ParseCIDR(Sprint(v.entries["route"]))
        case None => Err(EntryError(n, RouteUnparseable))
        case Some(cidr) =>
          if !Within(network, cidr) then Err(EntryError(n, RouteOutsideNetwork))
          else Ok(ZeroRoute.(mtu := mtu.value, cidr := Some(cidr)))
  }

  /** The outcomes of a list of entries, gathered in order: the first error wins. */
  function Collect<T, E>(rs: seq<Result<T, E>>): Result<seq<T>, E>
  {
    if |rs| == 0 then Ok([])
    else match Collect(rs[..|rs| - 1])
      case Err(e) => Err(e)
      case Ok(vs) =>
        match rs[|rs| - 1]
        case Err(e) => Err(e)
        case Ok(v) => Ok(vs + [v])
  }

  lemma CollectStep<T, E>(rs: seq<Result<T, E>>, i: nat)
    requires i < |rs|
    ensures Collect(rs[..i + 1])
      == match Collect(rs[..i])
         case Err(e) => Err(e)
         case Ok(vs) => match rs[i]
           case Err(e) => Err(e)
           case Ok(v) => Ok(vs + [v])
  {
    assert rs[..i + 1][..i] == rs[..i];
  }

  /** Once an outcome is an error, later outcomes are never looked at. */
  lemma {:induction false} CollectErrSticks<T, E>(rs: seq<Result<T, E>>, j: nat)
    requires j <= |rs| && Collect(rs[..j]).Err?
    ensures Collect(rs) == Collect(rs[..j])
  {
    if j < |rs| {
      assert rs[..|rs| - 1][..j] == rs[..j];
      CollectErrSticks(rs[..|rs| - 1], j);
    } else {
      assert rs[..j] == rs;
    }
  }

  /** A success holds one value per outcome, in order. */
  lemma {:induction false} CollectOk<T, E>(rs: seq<Result<T, E>>)
    requires Collect(rs).Ok?
    ensures |Collect(rs).value| == |rs|
    ensures forall j :: 0 <= j < |rs| ==> rs[j] == Ok(Collect(rs).value[j])
  {
    if |rs| > 0 {
      var init := rs[..|rs| - 1];
      CollectOk(init);
      forall j | 0 <= j < |init| ensures init[j] == rs[j] { }
    }
  }

  /** A failure is the error of the first failing outcome, and every outcome before it succeeded. */
  lemma {:induction false} CollectErr<T, E>(rs: seq<Result<T, E>>) returns (f: nat)
    requires Collect(rs).Err?
    ensures f < |rs| && rs[f] == Err(Collect(rs).error)
    ensures forall j :: 0 <= j < f ==> rs[j].Ok?
  {
    var init := rs[..|rs| - 1];
    if Collect(init).Err? {
      f := CollectErr(init);
    } else {
      CollectOk(init);
      f := |rs| - 1;
    }
  }

  function RouteEntryResults(raw: seq<Value>, network: IPNet): (rs: seq<Result<Route, RouteError>>)
    ensures |rs| == |raw|
    ensures forall j :: 0 <= j < |raw| ==> rs[j] == RouteEntry(raw[j], network, j + 1)
  {
    seq(|raw|, j requires 0 <= j < |raw| => RouteEntry(raw[j], network, j + 1))
  }

  /** parseRoutes as a function of the `tun.routes` value. */
  function RoutesOf(v: Value, network: IPNet): Result<seq<Route>, RouteError>
  {
    match v
    case VNil => Ok([])
    case VList(items) => if |items| < 1 then Ok([]) else Collect(RouteEntryResults(items, network))
    case _ => Err(NotAnArray)
  }

  /**
   * A successful parse keeps one route per entry, in order, each with an MTU
   * of at least 500 and a network inside the certificate's network.
   */
  lemma RoutesOk(v: Value, network: IPNet)
    requires RoutesOf(v, network).Ok?
    ensures var rs := RoutesOf(v, network).value;
      (v.VNil? || (v.VList? && |v.items| == 0) ==> rs == [])
      && (v.VList? ==> (|rs| == |v.items|
         && forall j :: 0 <= j < |rs| ==>
           RouteEntry(v.items[j], network, j + 1) == Ok(rs[j])
           && rs[j].mtu >= 500 && rs[j].cidr.Some? && Within(network, rs[j].cidr.value)))
  {
    if v.VList? && |v.items| > 0 {
      CollectOk(RouteEntryResults(v.items, network));
    }
  }

  /**
   * A refused list names its first bad entry, counting from 1: every entry
   * before it parses, and that entry itself is refused with the reported fault.
   */
  lemma RoutesErr(v: Value, network: IPNet)
    requires RoutesOf(v, network).Err?
    ensures var e := RoutesOf(v, network).error;
      (!v.VList? <==> e == NotAnArray) && (v.VList? ==> FirstRefused(v.items, network, e))
  {
    if v.VList? {
      RouteEntriesErr(v.items, network);
    }
  }

  /** e is the error of the first refused entry, numbered from 1, and every entry before it parses. */
  predicate FirstRefused(items: seq<Value>, network: IPNet, e: RouteError)
  {
    e.EntryError? && 1 <= e.entry <= |items|
    && RouteEntry(items[e.entry - 1], network, e.entry) == Err(e)
    && forall j :: 0 <= j < e.entry - 1 ==> RouteEntry(items[j], network, j + 1).Ok?
  }

  lemma RouteEntriesErr(items: seq<Value>, network: IPNet)
    requires Collect(RouteEntryResults(items, network)).Err?
    ensures FirstRefused(items, network, Collect(RouteEntryResults(items, network)).error)
  {
    var rs := RouteEntryResults(items, network);
    var f := CollectErr(rs);
    RouteEntryErrAt(items, network, f, Collect(rs).error);
    forall j | 0 <= j < f
      ensures RouteEntry(items[j], network, j + 1).Ok?
    {
      assert rs[j].Ok?;
    }
  }

  /** The entry at index f that produced error e is the (f+1)-th and is refused with e. */
  lemma RouteEntryErrAt(items: seq<Value>, network: IPNet, f: nat, e: RouteError)
    requires f < |items| && RouteEntryResults(items, network)[f] == Err(e)
    ensures e.EntryError? && e.entry == f + 1
    ensures RouteEntry(items[e.entry - 1], network, e.entry) == Err(e)
  {
    var r := RouteEntry(items[f], network, f + 1);
    assert r == Err(e);
  }

  /**
   * parseRoutes: nothing configured or an empty list gives no routes, a
   * non-list is an error, otherwise each entry is checked in turn and the
   * first refused one ends the parse.
   */
  method ParseRoutes(c: C, network: IPNet) returns (r: Result<seq<Route>, RouteError>)
    ensures r == RoutesOf(c.Get("tun.routes"), network)
  {
    var v := c.GetPath("tun.routes", VMap(c.settings));
    r := ParseRoutesFrom(v, network);
  }

  /** The shape checks on the configured value, then the entry loop. */
  method ParseRoutesFrom(v: Value, network: IPNet) returns (r: Result<seq<Route>, RouteError>)
    ensures r == RoutesOf(v, network)
  {
    if v.VNil? {
      return Ok([]);
    }
    if !v.VList? {
      return Err(NotAnArray);
    }
    if |v.items| < 1 {
      return Ok([]);
    }
    r := ParseRouteList(v.items, network);
  }


  /** The entry loop of parseRoutes: routes are filled in order until an entry is refused. */
  method ParseRouteList(raw: seq<Value>, network: IPNet) returns (r: Result<seq<Route>, RouteError>)
    ensures r == Collect(RouteEntryResults(raw, network))
  {
    ghost var results := RouteEntryResults(raw, network);
    var routes: seq<Route> := [];
    var i := 0;
    while i < |raw|
      invariant 0 <= i <= |raw|
      invariant Collect(results[..i]) == Ok(routes)
    {
      CollectStep(results, i);
      var entry := RouteEntry(raw[i], network, i + 1);
      if entry.Err? {
        r := Err(entry.error);
        CollectErrSticks(results, i + 1);
        return;
      }
      routes := routes + [entry.value];
      i := i + 1;
    }
    assert results[..i] == results;
    r := Ok(routes);
  }

  // ---------------------------------------------------------------------------
  // parseUnsafeRoutes

  /** One `tun.unsafe_routes` entry, numbered n from 1. */
  function UnsafeRouteEntry(v: Value, network: Option<IPNet>, n: nat): (r: Result<Route, RouteError>)
    ensures r.Err? ==> r.error.EntryError? && r.error.entry == n
    ensures r.Ok? ==> (r.value.via.Some? && r.value.cidr.Some?
      && (r.value.mtu == 0 || r.value.mtu >= 500) && 0 <= r.value.metric <= MAX_INT32
      && !(network.Some? && Within(network.value, r.value.cidr.value)))
    ensures (!v.VMap? || "via" !in v.entries || "route" !in v.entries) ==> r.Err?
  {
    if !v.VMap? then Err(EntryError(n, NotAMap))
    else
      var m := v.entries;
      var mtu: Result<int, RouteError> :=
        if "mtu" !in m then Ok(0)
        else match m["mtu"]
          case VInt(k) => Ok(k)
          case VStr(s) => if Atoi(s).Some? then Ok(Atoi(s).value) else Err(EntryError(n, MtuNotInteger))
          case _ => Err(EntryError(n, PanicNotString));
      if mtu.Err? then Err(mtu.error)
      else if "mtu" in m && mtu.value != 0 && mtu.value < 500 then Err(EntryError(n, MtuBelow500(mtu.value)))
      else
        var rMetric := if "metric" in m then m["metric"] else VInt(0);
        var metric: Result<int, RouteError> :=
          match rMetric
          case VInt(k) => Ok(k)
          case VStr(s) => if ParseInt32(s).Some? then Ok(0) else Err(EntryError(n, MetricNotInteger))
          case _ => Err(EntryError(n, PanicNotString));
        if metric.Err? then Err(metric.error)
        else if metric.value < 0 || metric.value > MAX_INT32 then Err(EntryError(n, MetricOutOfRange(metric.value)))
        else
          var name := if "name" in m && m["name"].VStr? then m["name"].s else "";
          if "via" !in m then Err(EntryError(n, ViaMissing))
          else if !m["via"].VStr? then Err(EntryError(n, ViaNotString))
          else match ParseIPv4(m["via"].s)
            case None => Err(EntryError(n, ViaUnparseable))
            case Some(nVia) =>
              if "route" !in m then Err(EntryError(n, RouteMissing))
              else match ParseCIDR(Sprint(m["route"]))
                case None => Err(EntryError(n, RouteUnparseable))
                case Some(cidr) =>
                  if network.Some? && Within(network.value, cidr) then Err(EntryError(n, RouteInsideNetwork))
                  else Ok(ZeroRoute.(via := Some(VpnIpOf(nVia)), mtu := mtu.value, metric := metric.value,
                                     name := name, cidr := Some(cidr)))
  }

  /** iputil.Ip2VpnIp of a parsed IPv4 address: its four bytes big-endian. */
  function VpnIpOf(ip: IP4): (r: VpnIp)
    ensures NhUtil.PutBE32(r) == seq(4, k requires 0 <= k < 4 => ip[k] as int)
  {
    var b := seq(4, k requires 0 <= k < 4 => ip[k] as int);
    NhUtil.PutOfBE32(b);
    NhUtil.Ip2int(b)
  }

  function UnsafeRouteEntryResults(raw: seq<Value>, network: Option<IPNet>): (rs: seq<Result<Route, RouteError>>)
    ensures |rs| == |raw|
    ensures forall j :: 0 <= j < |raw| ==> rs[j] == UnsafeRouteEntry(raw[j], network, j + 1)
  {
    seq(|raw|, j requires 0 <= j < |raw| => UnsafeRouteEntry(raw[j], network, j + 1))
  }

  /** parseUnsafeRoutes as a function of the `tun.unsafe_routes` value. */
  function UnsafeRoutesOf(v: Value, network: Option<IPNet>): Result<seq<Route>, RouteError>
  {
    match v
    case VNil => Ok([])
    case VList(items) => if |items| < 1 then Ok([]) else Collect(UnsafeRouteEntryResults(items, network))
    case _ => Err(NotAnArray)
  }

  /**
   * Every accepted unsafe route has a gateway, an MTU that is 0 or at least
   * 500, a metric in [0, MaxInt32], and lies outside the certificate's network.
   */
  lemma UnsafeRoutesOk(v: Value, network: Option<IPNet>)
    requires UnsafeRoutesOf(v, network).Ok?
    ensures var rs := UnsafeRoutesOf(v, network).value;
      (v.VNil? || (v.VList? && |v.items| == 0) ==> rs == [])
      && (v.VList? ==> (|rs| == |v.items|
         && forall j :: 0 <= j < |rs| ==>
           UnsafeRouteEntry(v.items[j], network, j + 1) == Ok(rs[j])
           && rs[j].via.Some? && rs[j].cidr.Some?
           && (rs[j].mtu == 0 || rs[j].mtu >= 500)
           && 0 <= rs[j].metric <= MAX_INT32
           && !(network.Some? && Within(network.value, rs[j].cidr.value))))
  {
    if v.VList? && |v.items| > 0 {
      CollectOk(UnsafeRouteEntryResults(v.items, network));
    }
  }

  /** A refused unsafe route list names its first bad entry, counting from 1. */
  lemma UnsafeRoutesErr(v: Value, network: Option<IPNet>)
    requires UnsafeRoutesOf(v, network).Err?
    ensures var e := UnsafeRoutesOf(v, network).error;
      (!v.VList? <==> e == NotAnArray) && (v.VList? ==> FirstRefusedUnsafe(v.items, network, e))
  {
    if v.VList? {
      EntriesErr(v.items, network);
    }
  }

  /** e is the error of the first refused entry, numbered from 1, and every entry before it parses. */
  predicate FirstRefusedUnsafe(items: seq<Value>, network: Option<IPNet>, e: RouteError)
  {
    e.EntryError? && 1 <= e.entry <= |items|
    && UnsafeRouteEntry(items[e.entry - 1], network, e.entry) == Err(e)
    && forall j :: 0 <= j < e.entry - 1 ==> UnsafeRouteEntry(items[j], network, j + 1).Ok?
  }

  lemma EntriesErr(items: seq<Value>, network: Option<IPNet>)
    requires Collect(UnsafeRouteEntryResults(items, network)).Err?
    ensures FirstRefusedUnsafe(items, network, Collect(UnsafeRouteEntryResults(items, network)).error)
  {
    var rs := UnsafeRouteEntryResults(items, network);
    var f := CollectErr(rs);
    EntryErrAt(items, network, f, Collect(rs).error);
    forall j | 0 <= j < f
      ensures UnsafeRouteEntry(items[j], network, j + 1).Ok?
    {
      assert rs[j].Ok?;
    }
  }

  /** The entry at index f that produced error e is the (f+1)-th and is refused with e. */
  lemma EntryErrAt(items: seq<Value>, network: Option<IPNet>, f: nat, e: RouteError)
    requires f < |items| && UnsafeRouteEntryResults(items, network)[f] == Err(e)
    ensures e.EntryError? && e.entry == f + 1
    ensures UnsafeRouteEntry(items[e.entry - 1], network, e.entry) == Err(e)
  {
    var r := UnsafeRouteEntry(items[f], network, f + 1);
    assert r == Err(e);
  }

  /**
   * A metric given as a string is checked as a 32-bit decimal but the route
   * keeps metric 0; an integer metric is kept as it is.
   */
  lemma UnsafeRouteMetric(m: map<string, Value>, network: Option<IPNet>, n: nat)
    requires UnsafeRouteEntry(VMap(m), network, n).Ok?
    ensures "metric" in m && m["metric"].VStr? ==> UnsafeRouteEntry(VMap(m), network, n).value.metric == 0
    ensures "metric" in m && m["metric"].VInt? ==> UnsafeRouteEntry(VMap(m), network, n).value.metric == m["metric"].i
    ensures "metric" !in m ==> UnsafeRouteEntry(VMap(m), network, n).value.metric == 0
  {
  }

  /** The name is the configured string, or "" when absent or not a string. */
  lemma UnsafeRouteName(m: map<string, Value>, network: Option<IPNet>, n: nat)
    requires UnsafeRouteEntry(VMap(m), network, n).Ok?
    ensures UnsafeRouteEntry(VMap(m), network, n).value.name == (if "name" in m && m["name"].VStr? then m["name"].s else "")
  {
  }

  /** parseUnsafeRoutes, entry by entry with early error returns. */
  method ParseUnsafeRoutes(c: C, network: Option<IPNet>) returns (r: Result<seq<Route>, RouteError>)
    ensures r == UnsafeRoutesOf(c.Get("tun.unsafe_routes"), network)
  {
    var v := c.GetPath("tun.unsafe_routes", VMap(c.settings));
    r := ParseUnsafeRoutesFrom(v, network);
  }

  /** The shape checks on the configured value, then the entry loop. */
  method ParseUnsafeRoutesFrom(v: Value, network: Option<IPNet>) returns (r: Result<seq<Route>, RouteError>)
    ensures r == UnsafeRoutesOf(v, network)
  {
    if v.VNil? {
      return Ok([]);
    }
    if !v.VList? {
      return Err(NotAnArray);
    }
    if |v.items| < 1 {
      return Ok([]);
    }
    r := ParseUnsafeRouteList(v.items, network);
  }


  /** The entry loop of parseUnsafeRoutes. */
  method ParseUnsafeRouteList(raw: seq<Value>, network: Option<IPNet>) returns (r: Result<seq<Route>, RouteError>)
    ensures r == Collect(UnsafeRouteEntryResults(raw, network))
  {
    ghost var results := UnsafeRouteEntryResults(raw, network);
    var routes: seq<Route> := [];
    var i := 0;
    while i < |raw|
      invariant 0 <= i <= |raw|
      invariant Collect(results[..i]) == Ok(routes)
    {
      CollectStep(results, i);
      var entry := UnsafeRouteEntry(raw[i], network, i + 1);
      if entry.Err? {
        r := Err(entry.error);
        CollectErrSticks(results, i + 1);
        return;
      }
      routes := routes + [entry.value];
      i := i + 1;
    }
    assert results[..i] == results;
    r := Ok(routes);
  }

  // ---------------------------------------------------------------------------
  // makeRouteTree

  /** The (network, gateway) pairs of the routes that have a gateway, in order. */
  function ViaEntries(routes: seq<Route>): (t: seq<(Option<IPNet>, VpnIp)>)
    ensures |t| <= |routes|
  {
    if |routes| == 0 then []
    else
      var rest := ViaEntries(routes[..|routes| - 1]);
      var r := routes[|routes| - 1];
      if r.via.Some? then rest + [(r.cidr, r.via.value)] else rest
  }

  /** The tree gets exactly the routes with a gateway, each under its network. */
  lemma {:induction false} ViaEntriesExact(routes: seq<Route>)
    ensures forall e :: e in ViaEntries(routes) <==>
      exists j :: 0 <= j < |routes| && routes[j].via.Some? && e == (routes[j].cidr, routes[j].via.value)
  {
    if |routes| > 0 {
      var init := routes[..|routes| - 1];
      ViaEntriesExact(init);
      forall j | 0 <= j < |init| ensures init[j] == routes[j] { }
    }
  }

  /**
   * makeRouteTree: inserts each route's network with its gateway, skipping
   * routes without one. The cidr.Tree4 type is not part of this model; the
   * tree is the list of insertions.
   */
  method MakeRouteTree(routes: seq<Route>, allowMTU: bool) returns (tree: seq<(Option<IPNet>, VpnIp)>)
    ensures tree == ViaEntries(routes)
  {
    tree := [];
    var i := 0;
    while i < |routes|
      invariant 0 <= i <= |routes|
      invariant tree == ViaEntries(routes[..i])
    {
      assert routes[..i + 1][..i] == routes[..i];
      var r := routes[i];
      if r.via.Some? {
        tree := tree + [(r.cidr, r.via.value)];
      }
      i := i + 1;
    }
    assert routes[..i] == routes;
  }

  // ---------------------------------------------------------------------------
  // getDNSServers

  function ParseEach(pieces: seq<string>): (r: seq<Option<IP4>>)
    ensures |r| == |pieces|
    ensures forall i :: 0 <= i < |pieces| ==> r[i] == ParseIPv4(TrimSpaces(pieces[i]))
  {
    if |pieces| == 0 then [] else [ParseIPv4(TrimSpaces(pieces[0]))] + ParseEach(pieces[1..])
  }

  /** getDNSServers as a function of the `tun.dns` text: nil for "", else one parse per comma piece. */
  function DNSServersOf(s: string): Option<seq<Option<IP4>>>
  {
    if s == "" then None else Some(ParseEach(Split(s, ',')))
  }

  /** getDNSServers. */
  method GetDNSServers(c: C) returns (servers: Option<seq<Option<IP4>>>)
    ensures servers == DNSServersOf(c.GetString("tun.dns", ""))
  {
    var dnsString := c.GetString("tun.dns", "");
    servers := DNSServersFrom(dnsString);
  }

  /** The body of getDNSServers after reading the setting. */
  method DNSServersFrom(dnsString: string) returns (servers: Option<seq<Option<IP4>>>)
    ensures servers == DNSServersOf(dnsString)
  {
    if dnsString == "" {
      return None;
    }
    var parsed := ParsePieces(Split(dnsString, ','));
    servers := Some(parsed);
  }

  /** The fill loop of getDNSServers: one trimmed parse per piece. */
  method ParsePieces(pieces: seq<string>) returns (servers: seq<Option<IP4>>)
    ensures servers == ParseEach(pieces)
  {
    var out := new Option<IP4>[|pieces|](_ => None);
    var i := 0;
    while i < |pieces|
      invariant 0 <= i <= |pieces|
      invariant forall j :: 0 <= j < i ==> out[j] == ParseIPv4(TrimSpaces(pieces[j]))
    {
      out[i] := ParseIPv4(TrimSpaces(pieces[i]));
      i := i + 1;
    }
    servers := out[..];
  }

  function FormatAll(ips: seq<IP4>, sep: string): string
  {
    if |ips| == 0 then "" else if |ips| == 1 then FormatIPv4(ips[0]) else FormatIPv4(ips[0]) + sep + FormatAll(ips[1..], sep)
  }

  lemma FormatIPv4Digits(ip: IP4)
    ensures |FormatIPv4(ip)| > 0
    ensures ' ' !in FormatIPv4(ip) && ',' !in FormatIPv4(ip)
  {
    var parts := [FormatNat(ip[0] as nat), FormatNat(ip[1] as nat), FormatNat(ip[2] as nat), FormatNat(ip[3] as nat)];
    forall i | 0 <= i < 4 ensures ' ' !in parts[i] && ',' !in parts[i] {
      assert AllDigits(parts[i]);
    }
    NoCharInJoin(parts, '.', ',');
    NoCharInJoin(parts, '.', ' ');
    assert FormatIPv4(ip) == parts[0] + ['.'] + Join(parts[1..], '.');
  }

  /** A word without spaces, after leading spaces, trims back to itself. */
  lemma TrimLead(s: string, pre: string)
    requires forall i :: 0 <= i < |pre| ==> pre[i] == ' '
    requires |s| > 0 && ' ' !in s
    ensures TrimSpaces(pre + s) == s
  {
    assert s[0] in s && s[|s| - 1] in s;
    TrimLeftOf(pre, s);
    TrimRightOf(s, "");
    assert s + "" == s;
  }

  lemma {:induction false} TrimLeftOf(pre: string, s: string)
    requires forall i :: 0 <= i < |pre| ==> pre[i] == ' '
    requires |s| > 0 && s[0] != ' '
    ensures TrimLeftSpaces(pre + s) == s
  {
    if |pre| > 0 {
      assert (pre + s)[1..] == pre[1..] + s;
      TrimLeftOf(pre[1..], s);
    } else {
      assert pre + s == s;
    }
  }

  lemma {:induction false} TrimRightOf(s: string, post: string)
    requires forall i :: 0 <= i < |post| ==> post[i] == ' '
    requires |s| > 0 && s[|s| - 1] != ' '
    ensures TrimRightSpaces(s + post) == s
  {
    if |post| > 0 {
      assert (s + post)[..|s + post| - 1] == s + post[..|post| - 1];
      TrimRightOf(s, post[..|post| - 1]);
    } else {
      assert s + post == s;
    }
  }

  /** A ", "-separated list of printed addresses reads back as those addresses. */
  lemma DNSServersRoundTrip(ips: seq<IP4>)
    requires |ips| > 0
    ensures DNSServersOf(FormatAll(ips, ", ")) == Some(seq(|ips|, i requires 0 <= i < |ips| => Some(ips[i])))
  {
    var pieces := PiecesOf(ips);
    PiecesJoin(ips);
    PiecesHaveNoComma(ips);
    SplitJoin(pieces, ',');
    FormatIPv4Digits(ips[0]);
    assert |pieces[0]| > 0;
    ParsePiecesBack(ips);
  }

  lemma PiecesHaveNoComma(ips: seq<IP4>)
    ensures forall i :: 0 <= i < |ips| ==> ',' !in PiecesOf(ips)[i]
  {
    forall i | 0 <= i < |ips| ensures ',' !in PiecesOf(ips)[i] {
      FormatIPv4Digits(ips[i]);
    }
  }

  lemma ParsePiecesBack(ips: seq<IP4>)
    ensures ParseEach(PiecesOf(ips)) == seq(|ips|, i requires 0 <= i < |ips| => Some(ips[i]))
  {
    var pieces := PiecesOf(ips);
    forall i | 0 <= i < |ips| ensures ParseIPv4(TrimSpaces(pieces[i])) == Some(ips[i]) {
      ParsePieceBack(ips[i], if i == 0 then "" else " ");
    }
  }

  lemma ParsePieceBack(ip: IP4, pre: string)
    requires pre == "" || pre == " "
    ensures ParseIPv4(TrimSpaces(pre + FormatIPv4(ip))) == Some(ip)
  {
    TrimPiece(ip, pre);
    ParseFormatIPv4(ip);
  }

  lemma TrimPiece(ip: IP4, pre: string)
    requires pre == "" || pre == " "
    ensures TrimSpaces(pre + FormatIPv4(ip)) == FormatIPv4(ip)
  {
    FormatIPv4Digits(ip);
    TrimLead(FormatIPv4(ip), pre);
  }

  /** The comma-separated pieces of FormatAll(ips, ", "): a space before every address but the first. */
  function PiecesOf(ips: seq<IP4>): (p: seq<string>)
    ensures |p| == |ips|
    ensures forall i :: 0 <= i < |ips| ==> p[i] == (if i == 0 then "" else " ") + FormatIPv4(ips[i])
  {
    seq(|ips|, i requires 0 <= i < |ips| => (if i == 0 then "" else " ") + FormatIPv4(ips[i]))
  }

  lemma {:induction false} PiecesJoin(ips: seq<IP4>)
    requires |ips| > 0
    ensures Join(PiecesOf(ips), ',') == FormatAll(ips, ", ")
  {
    if |ips| > 1 {
      PiecesJoinTail(ips[1..]);
      var p := PiecesOf(ips);
      assert p[1..] == SpacedPieces(ips[1..]);
    }
  }

  function SpacedPieces(ips: seq<IP4>): (p: seq<string>)
    ensures |p| == |ips|
  {
    seq(|ips|, i requires 0 <= i < |ips| => " " + FormatIPv4(ips[i]))
  }

  lemma {:induction false} PiecesJoinTail(ips: seq<IP4>)
    requires |ips| > 0
    ensures Join(SpacedPieces(ips), ',') == " " + FormatAll(ips, ", ")
  {
    if |ips| > 1 {
      PiecesJoinTail(ips[1..]);
      assert SpacedPieces(ips)[1..] == SpacedPieces(ips[1..]);
    }
  }

  // ---------------------------------------------------------------------------
  // CreateRouteEntry

  datatype CreateError = GatewayUnparseable | DestinationUnparseable

  /** The text gwip.String() gives: "<nil>" for a nil address. */
  function IPString(gw: Option<IP4>): string
  {
    if gw.None? then "<nil>" else FormatIPv4(gw.value)
  }

  /** Printing an address and parsing it back gives the address; "<nil>" parses as nil. */
  lemma ParseIPString(gw: Option<IP4>)
    ensures ParseIPv4(IPString(gw)) == gw
  {
    if gw.Some? {
      ParseFormatIPv4(gw.value);
    } else {
      assert '.' !in "<nil>";
      assert |Split("<nil>", '.')| == 1;
    }
  }

  /**
   * CreateRouteEntry: the gateway is re-parsed from its own text, the
   * destination parsed as a network; the route has MTU 1100 and metric 0.
   */
  function CreateRouteEntry(destip: string, gwip: Option<IP4>, ifname: string, defaultIndex: int, localip: Option<IP4>)
    : (r: Result<Route, CreateError>)
    ensures gwip.None? ==> r == Err(GatewayUnparseable)
    ensures gwip.Some? && ParseCIDR(destip).None? ==> r == Err(DestinationUnparseable)
    ensures r.Ok? ==> (r.value.mtu == 1100 && r.value.metric == 0 && r.value.gw == gwip
      && r.value.cidr == ParseCIDR(destip) && r.value.iname == ifname
      && r.value.index == defaultIndex && r.value.localIP == localip && r.value.via.None?)
    ensures gwip.Some? && ParseCIDR(destip).Some? ==> r.Ok?
  {
    ParseIPString(gwip);
    var nVia := ParseIPv4(IPString(gwip));
    if nVia.None? then Err(GatewayUnparseable)
    else
      var r := ZeroRoute.(gw := nVia, mtu := 1100, metric := 0, iname := ifname, index := defaultIndex, localIP := localip);
      match ParseCIDR(destip)
      case None => Err(DestinationUnparseable)
      case Some(cidr) => Ok(r.(cidr := Some(cidr)))
  }
}
