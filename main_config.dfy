/**
 * main.go: how Main derives the interface's settings from the configuration
 * before anything touches the system: the tunnel identity (from the
 * certificate, or fixed for a lighthouse), the number of routines, the
 * conntrack cache timeout, the preferred ranges, the lighthouse and static
 * host checks, the cipher and the DNS gate. Certificates, the firewall, the
 * tun device, the UDP listeners and the allow lists are collaborators and
 * are not part of this model.
 */
module MainConfig {
  import opened Wrappers
  import opened GoTypes
  import opened Config
  import opened NetAddr
  import opened Strconv
  import opened HostMaps
  import opened Inside
  import opened Route

  /** Main's error returns, in the order it can reach them. */
  datatype MainError =
    | CertificateError(reason: string)
    | BadPreferredRange(raw: string)
    | BadLocalRange(raw: string)
    | LighthouseWithoutPort
    | BadLighthouseHost(host: string, entry: nat)
    | LighthouseOutsideSubnet(vpnIp: VpnIp)
    | StaticKeyOutsideSubnet(key: string)
    | BadStaticAddress(key: string)
    | UnknownCipher(cipher: string)

  /** What the certificate provides: the network id, the name and the first address with its mask. */
  datatype CertDetails = CertDetails(networkID: uint64, name: string, tunCidr: Cidr4)

  // ---------------------------------------------------------------------------
  // Identity

  /** byte(c.GetInt("lighthouse.relay_index", 1)): Go's conversion keeps the low eight bits. */
  function RelayIndexOf(setting: int64): (b: uint8)
    ensures 0 <= setting < 256 ==> b == setting
    ensures (setting - b) % 256 == 0
  {
    setting % 256
  }

  /** 172.16.128.0 */
  const LIGHTHOUSE_NET: VpnIp := 0xAC10_8000

  /** A lighthouse's tunnel network: 172.16.128.<relay index> with a /24 mask. */
  function LighthouseCidr(relayIndex: uint8): (c: Cidr4)
    ensures c.bits == 24 && c.network == LIGHTHOUSE_NET + relayIndex
  {
    Cidr4(LIGHTHOUSE_NET + relayIndex, 24)
  }

  /** Shifting out `drop` bits is dividing by 2^drop. */
  function Pow2(n: nat): (p: nat)
    ensures p >= 1
  {
    if n == 0 then 1 else 2 * Pow2(n - 1)
  }

  /** Shifting out `drop` bits of q * 2^drop + r, with r below 2^drop, leaves q. */
  lemma {:induction false} PrefixOf(q: nat, r: nat, drop: nat)
    requires r < Pow2(drop)
    ensures Prefix(q * Pow2(drop) + r, drop) == q
  {
    if drop > 0 {
      var p := Pow2(drop - 1);
      assert q * Pow2(drop) == (q * p) * 2;
      assert (q * Pow2(drop) + r) / 2 == q * p + r / 2;
      PrefixOf(q, r / 2, drop - 1);
    }
  }

  /** The lighthouse network holds exactly the addresses 172.16.128.0 to 172.16.128.255, whatever the relay index. */
  lemma LighthouseCidrMembers(relayIndex: uint8, ip: VpnIp)
    ensures InCidr(LighthouseCidr(relayIndex), ip) <==> LIGHTHOUSE_NET <= ip < LIGHTHOUSE_NET + 256
  {
    assert Pow2(8) == 256;
    PrefixOf(ip / 256, ip % 256, 8);
    PrefixOf(0xAC10_80, relayIndex as nat, 8);
  }

  /**
   * The lighthouse name as written: "Server" followed by string(relayIndex),
   * which in Go is the one character whose code is the byte.
   */
  function LighthouseNameAsWritten(relayIndex: uint8): (s: string)
    ensures |s| == 7 && s[..6] == "Server" && s[6] as int == relayIndex
  {
    "Server" + [relayIndex as char]
  }

  /** Relay index 1 names the lighthouse "Server" and a control character, not "Server1". */
  lemma LighthouseNameAsWrittenIsNotDecimal()
    ensures LighthouseNameAsWritten(1) != "Server1"
    ensures !AllDigits(LighthouseNameAsWritten(1)[6..])
  {
    assert LighthouseNameAsWritten(1)[6] == 1 as char;
  }

  /** The evidently intended name: "Server" and the relay index in decimal. */
  function LighthouseName(relayIndex: uint8): (s: string)
    ensures |s| >= 7 && s[..6] == "Server" && AllDigits(s[6..])
  {
    "Server" + FormatNat(relayIndex)
  }

  /** The decimal suffix of the corrected name reads back as the relay index, so distinct indices give distinct names. */
  lemma LighthouseNameNamesIndex(relayIndex: uint8, other: uint8)
    ensures DecimalValue(LighthouseName(relayIndex)[6..]) == relayIndex
    ensures relayIndex != other ==> LighthouseName(relayIndex) != LighthouseName(other)
  {
    assert LighthouseName(relayIndex)[6..] == FormatNat(relayIndex);
    assert LighthouseName(other)[6..] == FormatNat(other);
    DecimalValueOfFormat(relayIndex);
    DecimalValueOfFormat(other);
  }

  /**
   * The identity: a lighthouse has network 0, a name from its relay index and
   * the lighthouse network; anyone else takes all three from its certificate.
   */
  function Identity(amLighthouse: bool, cert: Result<CertDetails, string>, relayIndexSetting: int64): Result<CertDetails, MainError>
  {
    if amLighthouse then
      var i := RelayIndexOf(relayIndexSetting);
      Ok(CertDetails(0, LighthouseName(i), LighthouseCidr(i)))
    else match cert
      case Err(e) => Err(CertificateError(e))
      case Ok(d) => Ok(d)
  }

  // ---------------------------------------------------------------------------
  // Routines and the conntrack cache

  /**
   * routines: a non-zero `routines` setting raised to at least 1; otherwise
   * the larger of the deprecated tun.routines and listen.routines.
   */
  function RoutinesOf(routines: int, tunRoutines: int, listenRoutines: int): (r: int)
    ensures routines != 0 ==> r >= 1 && (routines >= 1 ==> r == routines)
    ensures routines == 0 ==> r >= tunRoutines && r >= listenRoutines && (r == tunRoutines || r == listenRoutines)
  {
    if routines != 0 then (if routines < 1 then 1 else routines)
    else if tunRoutines > listenRoutines then tunRoutines else listenRoutines
  }

  /** One second, in the nanoseconds a time.Duration counts. */
  const SECOND: int := 1_000_000_000

  /** The conntrack cache timeout: one second with several routines and no setting, else the setting. */
  function ConntrackCacheTimeout(routines: int, configured: int, isSet: bool): (r: int)
    ensures routines > 1 && !isSet ==> r == SECOND
    ensures routines <= 1 || isSet ==> r == configured
  {
    if routines > 1 && !isSet then SECOND else configured
  }

  // ---------------------------------------------------------------------------
  // Preferred ranges

  function RangeEntry(s: string): (r: Result<IPNet, MainError>)
    ensures r.Ok? <==> ParseCIDR(s).Some?
    ensures r.Ok? ==> r.value == ParseCIDR(s).value
  {
    match ParseCIDR(s)
    case None => Err(BadPreferredRange(s))
    case Some(n) => Ok(n)
  }

  function RangeResults(raw: seq<string>): (rs: seq<Result<IPNet, MainError>>)
    ensures |rs| == |raw| && forall j :: 0 <= j < |raw| ==> rs[j] == RangeEntry(raw[j])
  {
    seq(|raw|, j requires 0 <= j < |raw| => RangeEntry(raw[j]))
  }

  /** The string form a range is compared by (every parsed range is IPv4). */
  function Form(n: IPNet): string
  {
    if n.Net4? then FormatCIDR(n) else ""
  }

  /** Some range already has the string form of n. */
  predicate HasForm(ranges: seq<IPNet>, n: IPNet)
  {
    exists j :: 0 <= j < |ranges| && Form(ranges[j]) == Form(n)
  }

  /** The local range appended unless a range with its string form is present. */
  function MergeLocal(ranges: seq<IPNet>, local: IPNet): (r: seq<IPNet>)
  {
    if HasForm(ranges, local) then ranges else ranges + [local]
  }

  /**
   * After the merge the local range's form is present, the ranges before it
   * are kept in order, and merging again changes nothing.
   */
  lemma MergeLocalProperties(ranges: seq<IPNet>, local: IPNet)
    ensures HasForm(MergeLocal(ranges, local), local)
    ensures |ranges| <= |MergeLocal(ranges, local)| <= |ranges| + 1
    ensures MergeLocal(ranges, local)[..|ranges|] == ranges
    ensures MergeLocal(MergeLocal(ranges, local), local) == MergeLocal(ranges, local)
  {
    var r := MergeLocal(ranges, local);
    if !HasForm(ranges, local) {
      assert Form(r[|ranges|]) == Form(local);
    }
  }

  /** Distinct string forms stay distinct through the merge. */
  predicate DistinctForms(ranges: seq<IPNet>)
  {
    forall i, j :: 0 <= i < j < |ranges| ==> Form(ranges[i]) != Form(ranges[j])
  }

  lemma MergeLocalKeepsDistinct(ranges: seq<IPNet>, local: IPNet)
    requires DistinctForms(ranges)
    ensures DistinctForms(MergeLocal(ranges, local))
  {
  }

  /** The preferred ranges: every preferred_ranges entry parsed, then local_range merged in. */
  function PreferredRangesOf(raw: seq<string>, rawLocal: string): Result<seq<IPNet>, MainError>
  {
    match Collect(RangeResults(raw))
    case Err(e) => Err(e)
    case Ok(ranges) =>
      if rawLocal == "" then Ok(ranges)
      else match ParseCIDR(rawLocal)
        case None => Err(BadLocalRange(rawLocal))
        case Some(local) => Ok(MergeLocal(ranges, local))
  }

  /**
   * The preferred ranges fail exactly when an entry or the local range does
   * not parse; otherwise they are the parsed entries in order, followed by the
   * local range when its form is new.
   */
  lemma PreferredRangesCases(raw: seq<string>, rawLocal: string)
    ensures var r := PreferredRangesOf(raw, rawLocal);
      (r.Err? <==> (exists j :: 0 <= j < |raw| && ParseCIDR(raw[j]).None?) || (rawLocal != "" && ParseCIDR(rawLocal).None?))
      && (r.Ok? ==> |r.value| >= |raw| && forall j :: 0 <= j < |raw| ==> Some(r.value[j]) == ParseCIDR(raw[j]))
      && (r.Ok? && rawLocal != "" ==> HasForm(r.value, ParseCIDR(rawLocal).value))
  {
    var rs := RangeResults(raw);
    if Collect(rs).Ok? {
      CollectOk(rs);
      if rawLocal != "" && ParseCIDR(rawLocal).Some? {
        MergeLocalProperties(Collect(rs).value, ParseCIDR(rawLocal).value);
        var m := MergeLocal(Collect(rs).value, ParseCIDR(rawLocal).value);
        forall j | 0 <= j < |raw|
          ensures m[j] == Collect(rs).value[j]
        {
          assert m[..|raw|][j] == m[j];
        }
      }
    } else {
      var f := CollectErr(rs);
    }
  }

  /** The preferred_ranges loop: every entry parsed, the first failure returned. */
  method ParseRanges(raw: seq<string>) returns (r: Result<seq<IPNet>, MainError>)
    ensures r == Collect(RangeResults(raw))
  {
    ghost var results := RangeResults(raw);
    var ranges: seq<IPNet> := [];
    var i := 0;
    while i < |raw|
      invariant 0 <= i <= |raw|
      invariant Collect(results[..i]) == Ok(ranges)
    {
      CollectStep(results, i);
      var n := ParseCIDR(raw[i]);
      if n.None? {
        CollectErrSticks(results, i + 1);
        return Err(BadPreferredRange(raw[i]));
      }
      ranges := ranges + [n.value];
      i := i + 1;
    }
    assert results[..i] == results;
    r := Ok(ranges);
  }

  /** The search of the ranges for one with the local range's string form. */
  method FindForm(ranges: seq<IPNet>, local: IPNet) returns (found: bool)
    ensures found <==> HasForm(ranges, local)
  {
    found := false;
    var j := 0;
    while j < |ranges|
      invariant 0 <= j <= |ranges|
      invariant forall k :: 0 <= k < j ==> Form(ranges[k]) != Form(local)
    {
      if Form(ranges[j]) == Form(local) {
        return true;
      }
      j := j + 1;
    }
  }

  /** The preferred ranges, then the local_range merge. */
  method PreferredRanges(raw: seq<string>, rawLocal: string) returns (r: Result<seq<IPNet>, MainError>)
    ensures r == PreferredRangesOf(raw, rawLocal)
  {
    r := ParseRanges(raw);
    if r.Err? || rawLocal == "" {
      return;
    }
    var local := ParseCIDR(rawLocal);
    if local.None? {
      return Err(BadLocalRange(rawLocal));
    }
    var ranges := r.value;
    var found := FindForm(ranges, local.value);
    if !found {
      ranges := ranges + [local.value];
    }
    r := Ok(ranges);
  }

  // ---------------------------------------------------------------------------
  // Lighthouse hosts

  /** One lighthouse.hosts entry, numbered from 1: it must parse and lie in the tunnel network. */
  function LighthouseEntry(host: string, entry: nat, tunCidr: Cidr4): (r: Result<VpnIp, MainError>)
    ensures ParseIPv4(host).None? ==> r == Err(BadLighthouseHost(host, entry))
    ensures r.Ok? ==> ParseIPv4(host).Some? && r.value == VpnIpOf(ParseIPv4(host).value) && InCidr(tunCidr, r.value)
    ensures ParseIPv4(host).Some? && !InCidr(tunCidr, VpnIpOf(ParseIPv4(host).value)) ==>
      r == Err(LighthouseOutsideSubnet(VpnIpOf(ParseIPv4(host).value)))
  {
    match ParseIPv4(host)
    case None => Err(BadLighthouseHost(host, entry))
    case Some(ip) =>
      var v := VpnIpOf(ip);
      if !InCidr(tunCidr, v) then Err(LighthouseOutsideSubnet(v)) else Ok(v)
  }

  function LighthouseResults(raw: seq<string>, tunCidr: Cidr4): (rs: seq<Result<VpnIp, MainError>>)
    ensures |rs| == |raw| && forall j :: 0 <= j < |raw| ==> rs[j] == LighthouseEntry(raw[j], j + 1, tunCidr)
  {
    seq(|raw|, j requires 0 <= j < |raw| => LighthouseEntry(raw[j], j + 1, tunCidr))
  }

  /** Accepted lighthouse hosts are the configured entries, in order, and all lie in the tunnel network. */
  lemma LighthouseHostsInSubnet(raw: seq<string>, tunCidr: Cidr4)
    requires Collect(LighthouseResults(raw, tunCidr)).Ok?
    ensures var hs := Collect(LighthouseResults(raw, tunCidr)).value;
      |hs| == |raw| && forall j :: 0 <= j < |hs| ==> InCidr(tunCidr, hs[j]) && ParseIPv4(raw[j]).Some? && hs[j] == VpnIpOf(ParseIPv4(raw[j]).value)
  {
    CollectOk(LighthouseResults(raw, tunCidr));
  }

  /** One entry of the lighthouse.hosts loop: parse, then the subnet check. */
  method CheckLighthouseHost(host: string, entry: nat, tunCidr: Cidr4) returns (r: Result<VpnIp, MainError>)
    ensures r == LighthouseEntry(host, entry, tunCidr)
  {
    var ip := ParseIPv4(host);
    if ip.None? {
      return Err(BadLighthouseHost(host, entry));
    }
    var v := VpnIpOf(ip.value);
    if !InCidr(tunCidr, v) {
      return Err(LighthouseOutsideSubnet(v));
    }
    r := Ok(v);
  }

  /** The lighthouse.hosts loop, filling a slice of the entries' length by index. */
  method LighthouseHosts(raw: seq<string>, tunCidr: Cidr4) returns (r: Result<seq<VpnIp>, MainError>)
    ensures r == Collect(LighthouseResults(raw, tunCidr))
  {
    ghost var results := LighthouseResults(raw, tunCidr);
    var hosts := new VpnIp[|raw|](_ => 0);
    var i := 0;
    while i < |raw|
      invariant 0 <= i <= |raw|
      invariant Collect(results[..i]) == Ok(hosts[..i])
    {
      CollectStep(results, i);
      var v := CheckLighthouseHost(raw[i], i + 1, tunCidr);
      if v.Err? {
        CollectErrSticks(results, i + 1);
        return Err(v.error);
      }
      hosts[i] := v.value;
      assert hosts[..i + 1] == hosts[..i] + [v.value];
      i := i + 1;
    }
    assert results[..i] == results;
    assert hosts[..i] == hosts[..];
    r := Ok(hosts[..]);
  }

  // ---------------------------------------------------------------------------
  // static_host_map

  /** The static remotes and the relay server (the last address of the last list-valued entry). */
  datatype StaticHosts = StaticHosts(remotes: seq<(VpnIp, Addr)>, relayServer: Option<(VpnIp, Addr)>)

  /** One "ip:port" of an entry, parsed by udp.ParseIPAndPort (not part of this model, so a parameter). */
  function AddrEntry(key: string, s: string, parseAddr: string -> Option<Addr>): (r: Result<Addr, MainError>)
    ensures r.Ok? <==> parseAddr(s).Some?
    ensures r.Ok? ==> r.value == parseAddr(s).value
    ensures r.Err? ==> r.error == BadStaticAddress(key)
  {
    match parseAddr(s)
    case None => Err(BadStaticAddress(key))
    case Some(a) => Ok(a)
  }

  function AddrResults(key: string, items: seq<Value>, parseAddr: string -> Option<Addr>): (rs: seq<Result<Addr, MainError>>)
    ensures |rs| == |items| && forall j :: 0 <= j < |items| ==> rs[j] == AddrEntry(key, Sprint(items[j]), parseAddr)
  {
    seq(|items|, j requires 0 <= j < |items| => AddrEntry(key, Sprint(items[j]), parseAddr))
  }

  /** The addresses of one entry: each element of a list, or the value itself. */
  function EntryAddrs(key: string, v: Value, parseAddr: string -> Option<Addr>): Result<seq<Addr>, MainError>
  {
    if v.VList? then Collect(AddrResults(key, v.items, parseAddr))
    else match AddrEntry(key, Sprint(v), parseAddr)
      case Err(e) => Err(e)
      case Ok(a) => Ok([a])
  }

  /** The key of an entry as an address of the tunnel network, if it is one. */
  function StaticKey(key: string, tunCidr: Cidr4): (r: Option<VpnIp>)
    ensures r.Some? ==> InCidr(tunCidr, r.value)
  {
    match ParseIPv4(key)
    case None => None
    case Some(ip) => if InCidr(tunCidr, VpnIpOf(ip)) then Some(VpnIpOf(ip)) else None
  }

  function Pairs(vpnIp: VpnIp, addrs: seq<Addr>): (r: seq<(VpnIp, Addr)>)
    ensures |r| == |addrs| && forall j :: 0 <= j < |r| ==> r[j] == (vpnIp, addrs[j])
  {
    seq(|addrs|, j requires 0 <= j < |addrs| => (vpnIp, addrs[j]))
  }

  /** The entries in the map's iteration order: the first refused key or address stops Main. */
  function StaticHostMapOf(order: seq<string>, m: map<string, Value>, tunCidr: Cidr4,
                           parseAddr: string -> Option<Addr>): Result<StaticHosts, MainError>
  {
    if |order| == 0 then Ok(StaticHosts([], None))
    else match StaticHostMapOf(order[..|order| - 1], m, tunCidr, parseAddr)
      case Err(e) => Err(e)
      case Ok(acc) =>
        var k := order[|order| - 1];
        var v := if k in m then m[k] else VNil;
        match StaticKey(k, tunCidr)
        case None => Err(StaticKeyOutsideSubnet(k))
        case Some(ip) =>
          match EntryAddrs(k, v, parseAddr)
          case Err(e) => Err(e)
          case Ok(addrs) =>
            Ok(StaticHosts(acc.remotes + Pairs(ip, addrs),
                           if v.VList? && |addrs| > 0 then Some((ip, addrs[|addrs| - 1])) else acc.relayServer))
  }

  /** Every static remote, and the relay server, is keyed by an address of the tunnel network. */
  lemma {:induction false} StaticHostsInSubnet(order: seq<string>, m: map<string, Value>, tunCidr: Cidr4,
                                               parseAddr: string -> Option<Addr>)
    requires StaticHostMapOf(order, m, tunCidr, parseAddr).Ok?
    ensures var s := StaticHostMapOf(order, m, tunCidr, parseAddr).value;
      (forall j :: 0 <= j < |s.remotes| ==> InCidr(tunCidr, s.remotes[j].0))
      && (s.relayServer.Some? ==> s.relayServer.value in s.remotes)
  {
    if |order| > 0 {
      StaticHostsInSubnet(order[..|order| - 1], m, tunCidr, parseAddr);
      var acc := StaticHostMapOf(order[..|order| - 1], m, tunCidr, parseAddr).value;
      var k := order[|order| - 1];
      var ip := StaticKey(k, tunCidr).value;
      var v := if k in m then m[k] else VNil;
      var addrs := EntryAddrs(k, v, parseAddr).value;
      var s := StaticHostMapOf(order, m, tunCidr, parseAddr).value;
      assert s.remotes == acc.remotes + Pairs(ip, addrs);
      if v.VList? && |addrs| > 0 {
        assert s.remotes[|acc.remotes| + |addrs| - 1] == (ip, addrs[|addrs| - 1]);
      } else if acc.relayServer.Some? {
        var j :| 0 <= j < |acc.remotes| && acc.remotes[j] == acc.relayServer.value;
        assert s.remotes[j] == acc.relayServer.value;
      }
    }
  }

  /** The addresses of one entry: the loop over a list value, or the single value. */
  method ParseEntryAddrs(key: string, v: Value, parseAddr: string -> Option<Addr>) returns (r: Result<seq<Addr>, MainError>)
    ensures r == EntryAddrs(key, v, parseAddr)
  {
    if !v.VList? {
      var a := parseAddr(Sprint(v));
      if a.None? {
        return Err(BadStaticAddress(key));
      }
      return Ok([a.value]);
    }
    ghost var results := AddrResults(key, v.items, parseAddr);
    var addrs: seq<Addr> := [];
    var i := 0;
    while i < |v.items|
      invariant 0 <= i <= |v.items|
      invariant Collect(results[..i]) == Ok(addrs)
    {
      CollectStep(results, i);
      var a := parseAddr(Sprint(v.items[i]));
      if a.None? {
        CollectErrSticks(results, i + 1);
        return Err(BadStaticAddress(key));
      }
      addrs := addrs + [a.value];
      i := i + 1;
    }
    assert results[..i] == results;
    r := Ok(addrs);
  }

  /** The static_host_map loop: keys checked, remotes added, the relay server remembered. */
  method StaticHostMap(m: map<string, Value>, order: seq<string>, tunCidr: Cidr4, parseAddr: string -> Option<Addr>)
    returns (r: Result<StaticHosts, MainError>)
    ensures r == StaticHostMapOf(order, m, tunCidr, parseAddr)
  {
    var remotes: seq<(VpnIp, Addr)> := [];
    var relayServer: Option<(VpnIp, Addr)> := None;
    var i := 0;
    while i < |order|
      invariant 0 <= i <= |order|
      invariant StaticHostMapOf(order[..i], m, tunCidr, parseAddr) == Ok(StaticHosts(remotes, relayServer))
    {
      assert order[..i + 1][..i] == order[..i];
      var k := order[i];
      var v := if k in m then m[k] else VNil;
      var ip := StaticKey(k, tunCidr);
      if ip.None? {
        StaticErrSticks(order, m, tunCidr, parseAddr, i + 1);
        return Err(StaticKeyOutsideSubnet(k));
      }
      var addrs := ParseEntryAddrs(k, v, parseAddr);
      if addrs.Err? {
        StaticErrSticks(order, m, tunCidr, parseAddr, i + 1);
        return Err(addrs.error);
      }
      remotes := remotes + Pairs(ip.value, addrs.value);
      if v.VList? && |addrs.value| > 0 {
        relayServer := Some((ip.value, addrs.value[|addrs.value| - 1]));
      }
      i := i + 1;
    }
    assert order[..i] == order;
    r := Ok(StaticHosts(remotes, relayServer));
  }

  /** Once an entry is refused, the later entries do not change the outcome. */
  lemma {:induction false} StaticErrSticks(order: seq<string>, m: map<string, Value>, tunCidr: Cidr4,
                                           parseAddr: string -> Option<Addr>, j: nat)
    requires j <= |order| && StaticHostMapOf(order[..j], m, tunCidr, parseAddr).Err?
    ensures StaticHostMapOf(order, m, tunCidr, parseAddr) == StaticHostMapOf(order[..j], m, tunCidr, parseAddr)
  {
    if j < |order| {
      assert order[..|order| - 1][..j] == order[..j];
      StaticErrSticks(order[..|order| - 1], m, tunCidr, parseAddr, j);
    } else {
      assert order[..j] == order;
    }
  }

  // ---------------------------------------------------------------------------
  // Cipher and DNS

  /** The Noise nonce byte order: big-endian for "aes", little-endian for "chachapoly". */
  function NoiseBigEndian(cipher: string): (r: Result<bool, MainError>)
    ensures r.Ok? <==> cipher == "aes" || cipher == "chachapoly"
    ensures r.Ok? ==> (r.value <==> cipher == "aes")
    ensures r.Err? ==> r.error == UnknownCipher(cipher)
  {
    if cipher == "aes" then Ok(true)
    else if cipher == "chachapoly" then Ok(false)
    else Err(UnknownCipher(cipher))
  }

  // ---------------------------------------------------------------------------
  // The whole derivation

  /** The settings Main reads, with its defaults applied. */
  datatype Settings = Settings(
    amLighthouse: bool, relayIndex: int64, routines: int64, tunRoutines: int64, listenRoutines: int64,
    conntrackIsSet: bool, preferredRanges: seq<string>, localRange: string, listenPort: int64,
    lighthouseHosts: seq<string>, staticHostMap: map<string, Value>, cipher: string, serveDns: bool)

  /** c.GetStringSlice(k, []string{}) */
  function StringSlice(c: C, k: string): (r: seq<string>)
    reads c
  {
    var v := c.Get(k);
    if v.VList? then seq(|v.items|, i requires 0 <= i < |v.items| => Sprint(v.items[i])) else []
  }

  /** The settings as Main reads them from the configuration. */
  function SettingsOf(c: C): Settings
    reads c
  {
    Settings(
      c.GetBool("lighthouse.am_lighthouse", false), c.GetInt("lighthouse.relay_index", 1),
      c.GetInt("routines", 0), c.GetInt("tun.routines", 1), c.GetInt("listen.routines", 1),
      c.IsSet("firewall.conntrack.routine_cache_timeout"), StringSlice(c, "preferred_ranges"),
      c.GetString("local_range", ""), c.GetInt("listen.port", 0), StringSlice(c, "lighthouse.hosts"),
      c.GetMap("static_host_map", map[]), c.GetString("cipher", "aes"), c.GetBool("lighthouse.serve_dns", false))
  }

  /** What Main hands to the interface and the lighthouse. */
  datatype Derived = Derived(
    amLighthouse: bool, networkID: uint64, name: string, tunCidr: Cidr4, routines: int, conntrackCacheTimeout: int,
    preferredRanges: seq<IPNet>, lighthouseHosts: seq<VpnIp>, staticHosts: StaticHosts, bigEndian: bool,
    serveDns: bool)

  /** Everything after the identity, in Main's order. */
  function DeriveRest(s: Settings, id: CertDetails, conntrackSetting: int, staticOrder: seq<string>,
                      parseAddr: string -> Option<Addr>): Result<Derived, MainError>
  {
    var routines := RoutinesOf(s.routines, s.tunRoutines, s.listenRoutines);
    var conntrack := ConntrackCacheTimeout(routines, conntrackSetting, s.conntrackIsSet);
    match PreferredRangesOf(s.preferredRanges, s.localRange)
    case Err(e) => Err(e)
    case Ok(ranges) =>
      if s.amLighthouse && s.listenPort == 0 then Err(LighthouseWithoutPort)
      else match Collect(LighthouseResults(s.lighthouseHosts, id.tunCidr))
        case Err(e) => Err(e)
        case Ok(lighthouses) =>
          match StaticHostMapOf(staticOrder, s.staticHostMap, id.tunCidr, parseAddr)
          case Err(e) => Err(e)
          case Ok(statics) =>
            match NoiseBigEndian(s.cipher)
            case Err(e) => Err(e)
            case Ok(bigEndian) =>
              Ok(Derived(s.amLighthouse, id.networkID, id.name, id.tunCidr, routines, conntrack, ranges, lighthouses,
                         statics, bigEndian, s.serveDns && s.amLighthouse))
  }

  /**
   * The derivation in Main's order. `cert` is what loading the certificate
   * gives, `conntrackSetting` the firewall.conntrack.routine_cache_timeout
   * duration, `staticOrder` the iteration order of static_host_map.
   */
  function DeriveOf(s: Settings, cert: Result<CertDetails, string>, conntrackSetting: int, staticOrder: seq<string>,
                    parseAddr: string -> Option<Addr>): Result<Derived, MainError>
  {
    match Identity(s.amLighthouse, cert, s.relayIndex)
    case Err(e) => Err(e)
    case Ok(id) => DeriveRest(s, id, conntrackSetting, staticOrder, parseAddr)
  }

  /**
   * What a successful derivation guarantees: a lighthouse has network 0, the
   * lighthouse network of its relay index and a listen port; anyone else has
   * its certificate's network; every lighthouse host and static entry lies in
   * the tunnel network; the byte order follows the cipher; DNS is served only
   * by a lighthouse; and a non-zero routines setting yields at least one
   * routine.
   */
  lemma DeriveOk(s: Settings, cert: Result<CertDetails, string>, conntrackSetting: int, staticOrder: seq<string>,
                 parseAddr: string -> Option<Addr>)
    requires DeriveOf(s, cert, conntrackSetting, staticOrder, parseAddr).Ok?
    ensures var d := DeriveOf(s, cert, conntrackSetting, staticOrder, parseAddr).value;
      (d.amLighthouse ==> d.networkID == 0 && d.tunCidr == LighthouseCidr(RelayIndexOf(s.relayIndex)) && s.listenPort != 0)
      && (!d.amLighthouse ==> cert.Ok? && d.tunCidr == cert.value.tunCidr && d.networkID == cert.value.networkID)
      && (forall j :: 0 <= j < |d.lighthouseHosts| ==> InCidr(d.tunCidr, d.lighthouseHosts[j]))
      && (forall j :: 0 <= j < |d.staticHosts.remotes| ==> InCidr(d.tunCidr, d.staticHosts.remotes[j].0))
      && (d.bigEndian <==> s.cipher == "aes")
      && (d.serveDns ==> d.amLighthouse)
      && (s.routines != 0 ==> d.routines >= 1)
  {
    var id := Identity(s.amLighthouse, cert, s.relayIndex).value;
    LighthouseHostsInSubnet(s.lighthouseHosts, id.tunCidr);
    StaticHostsInSubnet(staticOrder, s.staticHostMap, id.tunCidr, parseAddr);
  }

  /** A refused certificate, a lighthouse without a listen port and an unknown cipher always stop Main. */
  lemma DeriveRefuses(s: Settings, cert: Result<CertDetails, string>, conntrackSetting: int, staticOrder: seq<string>,
                      parseAddr: string -> Option<Addr>)
    ensures !s.amLighthouse && cert.Err? ==>
      DeriveOf(s, cert, conntrackSetting, staticOrder, parseAddr) == Err(CertificateError(cert.error))
    ensures s.amLighthouse && s.listenPort == 0 ==> DeriveOf(s, cert, conntrackSetting, staticOrder, parseAddr).Err?
    ensures s.cipher != "aes" && s.cipher != "chachapoly" ==> DeriveOf(s, cert, conntrackSetting, staticOrder, parseAddr).Err?
  {
  }

  /** c.GetStringSlice(k, []string{}), as the method reads it. */
  method ReadStringSlice(c: C, k: string) returns (r: seq<string>)
    ensures r == StringSlice(c, k)
  {
    r := c.GetStringSlice(k, []);
  }

  /** Main's reads of the configuration. */
  method ReadSettings(c: C) returns (s: Settings)
    ensures s == SettingsOf(c)
  {
    var preferredRanges := ReadStringSlice(c, "preferred_ranges");
    var lighthouseHosts := ReadStringSlice(c, "lighthouse.hosts");
    s := Settings(
      c.GetBool("lighthouse.am_lighthouse", false), c.GetInt("lighthouse.relay_index", 1),
      c.GetInt("routines", 0), c.GetInt("tun.routines", 1), c.GetInt("listen.routines", 1),
      c.IsSet("firewall.conntrack.routine_cache_timeout"), preferredRanges,
      c.GetString("local_range", ""), c.GetInt("listen.port", 0), lighthouseHosts,
      c.GetMap("static_host_map", map[]), c.GetString("cipher", "aes"), c.GetBool("lighthouse.serve_dns", false));
  }

  /** Main up to the interface, step by step. */
  method Derive(c: C, cert: Result<CertDetails, string>, conntrackSetting: int, staticOrder: seq<string>,
                parseAddr: string -> Option<Addr>) returns (r: Result<Derived, MainError>)
    ensures r == DeriveOf(SettingsOf(c), cert, conntrackSetting, staticOrder, parseAddr)
  {
    var s := ReadSettings(c);
    var networkID: uint64 := 0;
    var name := "";
    var tunCidr := Cidr4(0, 0);
    if !s.amLighthouse {
      if cert.Err? {
        return Err(CertificateError(cert.error));
      }
      networkID := cert.value.networkID;
      name := cert.value.name;
      tunCidr := cert.value.tunCidr;
    } else {
      var relayIndex := RelayIndexOf(s.relayIndex);
      tunCidr := LighthouseCidr(relayIndex);
      name := LighthouseName(relayIndex);
    }
    r := DeriveSteps(s, CertDetails(networkID, name, tunCidr), conntrackSetting, staticOrder, parseAddr);
  }

  /** The steps of Main after the identity. */
  method DeriveSteps(s: Settings, id: CertDetails, conntrackSetting: int, staticOrder: seq<string>,
                     parseAddr: string -> Option<Addr>) returns (r: Result<Derived, MainError>)
    ensures r == DeriveRest(s, id, conntrackSetting, staticOrder, parseAddr)
  {
    var routines: int := s.routines;
    if routines != 0 {
      if routines < 1 {
        routines := 1;
      }
    } else if s.tunRoutines > s.listenRoutines {
      routines := s.tunRoutines;
    } else {
      routines := s.listenRoutines;
    }
    var conntrackCacheTimeout := conntrackSetting;
    if routines > 1 && !s.conntrackIsSet {
      conntrackCacheTimeout := SECOND;
    }

    var preferredRanges := PreferredRanges(s.preferredRanges, s.localRange);
    if preferredRanges.Err? {
      return Err(preferredRanges.error);
    }
    if s.amLighthouse && s.listenPort == 0 {
      return Err(LighthouseWithoutPort);
    }
    var lighthouseHosts := LighthouseHosts(s.lighthouseHosts, id.tunCidr);
    if lighthouseHosts.Err? {
      return Err(lighthouseHosts.error);
    }
    var statics := StaticHostMap(s.staticHostMap, staticOrder, id.tunCidr, parseAddr);
    if statics.Err? {
      return Err(statics.error);
    }
    var serveDns := false;
    if s.serveDns {
      if s.amLighthouse {
        serveDns := true;
      }
    }
    var bigEndian := NoiseBigEndian(s.cipher);
    if bigEndian.Err? {
      return Err(bigEndian.error);
    }
    r := Ok(Derived(s.amLighthouse, id.networkID, id.name, id.tunCidr, routines, conntrackCacheTimeout,
                    preferredRanges.value, lighthouseHosts.value, statics.value, bigEndian.value, serveDns));
  }
}
