/**
 * IPv4 addresses and networks as Go's `net` package handles them: ParseIP,
 * ParseCIDR, IP.String, IP.Mask and IPNet.Contains, byte by byte.
 */
module NetAddr {
  import opened Wrappers
  import opened GoStrings
  import opened Strconv

  /** A 4-byte net.IP. */
  type IP4 = s: seq<bv8> | |s| == 4 witness [0, 0, 0, 0]

  type PrefixLen = n: nat | n <= 32

  /**
   * A net.IPNet. Every network the program builds comes from ParseCIDR, so an
   * IPv4 network is an address and a prefix length (its mask is CIDRMask of it);
   * Net6 stands for any network that is not IPv4.
   */
  datatype IPNet = Net4(ip: IP4, bits: PrefixLen) | Net6

  /** The mask byte for a prefix of j bits, 0 <= j <= 8. */
  function PartialMaskByte(j: nat): bv8
    requires j <= 8
  {
    [0x00, 0x80, 0xC0, 0xE0, 0xF0, 0xF8, 0xFC, 0xFE, 0xFF][j]
  }

  /** net.CIDRMask(n, 32). */
  function CIDRMask(n: PrefixLen): (m: IP4)
    ensures forall k :: 0 <= k < 4 && n >= 8 * (k + 1) ==> m[k] == 0xFF
    ensures forall k :: 0 <= k < 4 && n <= 8 * k ==> m[k] == 0x00
  {
    seq(4, k requires 0 <= k < 4 =>
      if n >= 8 * (k + 1) then 0xFF
      else if n <= 8 * k then 0x00
      else PartialMaskByte(n - 8 * k))
  }

  function Mask(n: IPNet): IP4
    requires n.Net4?
  {
    CIDRMask(n.bits)
  }

  /** net.IP.Mask: the address with every bit outside the mask cleared. */
  function MaskIP(ip: IP4, m: IP4): (r: IP4)
    ensures forall k :: 0 <= k < 4 ==> r[k] == ip[k] & m[k]
  {
    seq(4, k requires 0 <= k < 4 => ip[k] & m[k])
  }

  /** net.IPNet.Contains for an IPv4 address: equal under the mask, byte by byte. */
  predicate Contains(n: IPNet, ip: IP4)
  {
    n.Net4? && forall k :: 0 <= k < 4 ==> n.ip[k] & Mask(n)[k] == ip[k] & Mask(n)[k]
  }

  /** A network always contains its own masked address. */
  lemma ContainsOwnAddress(n: IPNet)
    requires n.Net4?
    ensures Contains(n, MaskIP(n.ip, Mask(n)))
  {
    var m := Mask(n);
    forall k | 0 <= k < 4
      ensures n.ip[k] & m[k] == MaskIP(n.ip, m)[k] & m[k]
    {
      assert MaskIP(n.ip, m)[k] == n.ip[k] & m[k];
    }
  }

  /** One dotted-quad field: decimal digits without a leading zero, at most 255. */
  function ParseOctet(p: string): (r: Option<bv8>)
    ensures r.Some? ==> |p| >= 1 && AllDigits(p) && DecimalValue(p) <= 255
    ensures r.Some? <==> |p| >= 1 && AllDigits(p) && (|p| == 1 || p[0] != '0') && DecimalValue(p) <= 255
  {
    if |p| == 0 || !AllDigits(p) then None
    else if |p| > 1 && p[0] == '0' then None
    else if DecimalValue(p) > 255 then None
    else Some(DecimalValue(p) as bv8)
  }

  /**
   * net.ParseIP for IPv4 text: exactly four dot-separated fields. IPv6 text is
   * not part of this model and parses as nothing.
   */
  function ParseIPv4(s: string): (r: Option<IP4>)
  {
    var parts := Split(s, '.');
    if |parts| != 4 then None
    else
      var a, b, c, d := ParseOctet(parts[0]), ParseOctet(parts[1]), ParseOctet(parts[2]), ParseOctet(parts[3]);
      if a.Some? && b.Some? && c.Some? && d.Some? then
        var ip: IP4 := [a.value, b.value, c.value, d.value];
        Some(ip)
      else None
  }

  /** net.IP.String for an IPv4 address. */
  function FormatIPv4(ip: IP4): string
  {
    Join([FormatNat(ip[0] as nat), FormatNat(ip[1] as nat), FormatNat(ip[2] as nat), FormatNat(ip[3] as nat)], '.')
  }

  lemma ParseOctetFormat(b: bv8)
    ensures ParseOctet(FormatNat(b as nat)) == Some(b)
  {
    DecimalValueOfFormat(b as nat);
  }

  lemma DigitsHaveNoDot(s: string)
    requires AllDigits(s)
    ensures '.' !in s && '/' !in s
  {
  }

  /** ParseIP reads back every address that String prints. */
  lemma ParseFormatIPv4(ip: IP4)
    ensures ParseIPv4(FormatIPv4(ip)) == Some(ip)
  {
    var parts := [FormatNat(ip[0] as nat), FormatNat(ip[1] as nat), FormatNat(ip[2] as nat), FormatNat(ip[3] as nat)];
    forall i | 0 <= i < 4 ensures '.' !in parts[i] { DigitsHaveNoDot(parts[i]); }
    SplitJoin(parts, '.');
    ParseFields(FormatIPv4(ip), ip);
  }

  /** Text that splits at its dots into the four printed bytes of ip parses as ip. */
  lemma ParseFields(s: string, ip: IP4)
    requires Split(s, '.') == [FormatNat(ip[0] as nat), FormatNat(ip[1] as nat), FormatNat(ip[2] as nat), FormatNat(ip[3] as nat)]
    ensures ParseIPv4(s) == Some(ip)
  {
    ParseOctetFormat(ip[0]);
    ParseOctetFormat(ip[1]);
    ParseOctetFormat(ip[2]);
    ParseOctetFormat(ip[3]);
    Rebuild(ip);
  }

  lemma Rebuild(ip: IP4)
    ensures [ip[0], ip[1], ip[2], ip[3]] == ip
  {
  }

  /** Position of the first occurrence of c in s, if any. */
  function IndexOf(s: string, c: char): (r: Option<nat>)
    ensures r.Some? ==> r.value < |s| && s[r.value] == c && c !in s[..r.value]
    ensures r.None? ==> c !in s
  {
    if |s| == 0 then None
    else if s[0] == c then Some(0)
    else match IndexOf(s[1..], c)
      case None => None
      case Some(i) => assert s[1..][..i] == s[1..i + 1]; Some(i + 1)
  }

  /**
   * net.ParseCIDR(s), keeping the network it returns: an IPv4 address, a '/',
   * then a decimal prefix length (leading zeros allowed) of at most 32. The
   * network's address is the parsed address under the mask.
   */
  function ParseCIDR(s: string): (r: Option<IPNet>)
    ensures r.Some? ==> r.value.Net4? && MaskIP(r.value.ip, Mask(r.value)) == r.value.ip
  {
    match IndexOf(s, '/')
    case None => None
    case Some(i) =>
      var addr, bits := s[..i], s[i + 1..];
      var ip := ParseIPv4(addr);
      if ip.None? || |bits| == 0 || !AllDigits(bits) || DecimalValue(bits) > 32 then None
      else
        var n: PrefixLen := DecimalValue(bits);
        MaskTwice(ip.value, CIDRMask(n));
        Some(Net4(MaskIP(ip.value, CIDRMask(n)), n))
  }

  lemma MaskTwice(ip: IP4, m: IP4)
    ensures MaskIP(MaskIP(ip, m), m) == MaskIP(ip, m)
  {
    var once := MaskIP(ip, m);
    forall k | 0 <= k < 4 ensures MaskIP(once, m)[k] == once[k] {
      assert (ip[k] & m[k]) & m[k] == ip[k] & m[k];
    }
  }

  /** net.IPNet.String for a network ParseCIDR built: "address/bits". */
  function FormatCIDR(n: IPNet): string
    requires n.Net4?
  {
    FormatIPv4(n.ip) + "/" + FormatNat(n.bits)
  }

  /** ParseCIDR reads back every network that String prints. */
  lemma ParseFormatCIDR(n: IPNet)
    requires n.Net4? && MaskIP(n.ip, Mask(n)) == n.ip
    ensures ParseCIDR(FormatCIDR(n)) == Some(n)
  {
    var a := FormatIPv4(n.ip);
    var b := FormatNat(n.bits);
    var s := FormatCIDR(n);
    var parts := [FormatNat(n.ip[0] as nat), FormatNat(n.ip[1] as nat), FormatNat(n.ip[2] as nat), FormatNat(n.ip[3] as nat)];
    forall i | 0 <= i < 4 ensures '/' !in parts[i] { DigitsHaveNoDot(parts[i]); }
    NoCharInJoin(parts, '.', '/');
    SlashSplits(a, b);
    ParseFormatIPv4(n.ip);
    DecimalValueOfFormat(n.bits);
  }

  /** The first '/' of a + "/" + b is the one after a when a has none. */
  lemma SlashSplits(a: string, b: string)
    requires '/' !in a
    ensures var s := a + "/" + b; IndexOf(s, '/') == Some(|a|) && s[..|a|] == a && s[|a| + 1..] == b
  {
    var s := a + "/" + b;
    assert s[|a|] == '/';
    assert s[..|a|] == a;
    assert s[|a| + 1..] == b;
  }

  lemma {:induction false} NoCharInJoin(parts: seq<string>, sep: char, c: char)
    requires |parts| >= 1 && sep != c
    requires forall i :: 0 <= i < |parts| ==> c !in parts[i]
    ensures c !in Join(parts, sep)
  {
    if |parts| > 1 {
      NoCharInJoin(parts[1..], sep, c);
    }
  }
}
