/**
 * nh_util/nh_util.go: address/integer conversion, the in-tunnel message
 * checksum, numeric validation, human-readable byte and bit-rate strings and
 * the MAC multicast test.
 */
module NhUtil {
  import opened Wrappers
  import opened GoTypes
  import opened Strconv
  import opened GoStrings
  import NetAddr

  /** binary.BigEndian.Uint32 of the first four bytes. */
  function BE32(b: seq<uint8>): (r: uint32)
    requires |b| >= 4
  {
    ((b[0] as int * 256 + b[1] as int) * 256 + b[2] as int) * 256 + b[3] as int
  }

  /** binary.BigEndian.PutUint32 into a four-byte buffer. */
  function PutBE32(n: uint32): (r: seq<uint8>)
    ensures |r| == 4
  {
    [n / 0x100_0000, n / 0x1_0000 % 256, n / 256 % 256, n % 256]
  }

  /** Reading back the four bytes written for n gives n. */
  lemma BE32OfPut(n: uint32)
    ensures BE32(PutBE32(n)) == n
  {
    var a, b, c, d := n / 0x100_0000, n / 0x1_0000 % 256, n / 256 % 256, n % 256;
    assert n / 256 == (n / 0x1_0000) * 256 + c;
    assert n / 0x1_0000 == a * 256 + b;
    assert n == (n / 256) * 256 + d;
  }

  /** Writing the value of four bytes gives back those bytes. */
  lemma PutOfBE32(b: seq<uint8>)
    requires |b| == 4
    ensures PutBE32(BE32(b)) == b
  {
    var hi2 := b[0] as int * 256 + b[1] as int;
    var hi := hi2 * 256 + b[2] as int;
    var n := hi * 256 + b[3] as int;
    assert BE32(b) == n;
    SplitLow(hi, b[3] as int, 256);
    SplitLow(hi2, b[2] as int, 256);
    SplitLow(b[0] as int, b[1] as int, 256);
    SplitLow(hi2, b[2] as int * 256 + b[3] as int, 0x1_0000);
    SplitLow(b[0] as int, (b[1] as int * 256 + b[2] as int) * 256 + b[3] as int, 0x100_0000);
  }

  /** Dividing q * d + r by a byte-aligned d, for 0 <= r < d, gives back q and r. */
  lemma SplitLow(q: int, r: int, d: int)
    requires d == 256 || d == 0x1_0000 || d == 0x100_0000
    requires q >= 0 && 0 <= r < d
    ensures (q * d + r) / d == q && (q * d + r) % d == r
  {
    if d == 256 {
      assert q * d + r == q * 256 + r;
    } else if d == 0x1_0000 {
      assert q * d + r == q * 0x1_0000 + r;
    } else {
      assert q * d + r == q * 0x100_0000 + r;
    }
  }

  /**
   * Ip2int (and NetIp2int, its copy over net.IP): a 16-byte address is read
   * from bytes 12..15, anything else from its first four bytes. Fewer than four
   * bytes make the source panic, hence the precondition.
   */
  function Ip2int(ip: seq<uint8>): (r: uint32)
    requires |ip| >= 4
    ensures |ip| == 16 ==> r == BE32(ip[12..])
    ensures |ip| != 16 ==> r == BE32(ip[..4])
  {
    if |ip| == 16 then BE32(ip[12..16]) else BE32(ip)
  }

  /** Int2ip: a fresh 4-byte buffer holding nn big-endian. */
  method Int2ip(nn: uint32) returns (ip: array<uint8>)
    ensures fresh(ip) && ip[..] == PutBE32(nn)
  {
    ip := new uint8[4];
    var b := PutBE32(nn);
    ip[0], ip[1], ip[2], ip[3] := b[0], b[1], b[2], b[3];
  }

  /** Ip2int undoes Int2ip, and reads the same value from the IPv4-in-IPv6 form. */
  lemma Ip2intInt2ip(n: uint32)
    ensures Ip2int(PutBE32(n)) == n
    ensures Ip2int([0, 0, 0, 0, 0, 0, 0, 0, 0, 0, 0xff, 0xff] + PutBE32(n)) == n
  {
    BE32OfPut(n);
    var long: seq<uint8> := [0, 0, 0, 0, 0, 0, 0, 0, 0, 0, 0xff, 0xff] + PutBE32(n);
    assert |long| == 16;
    assert long[12..16] == PutBE32(n);
  }

  // ---------------------------------------------------------------------------
  // NH_checksum

  /** Sum of the first k big-endian 16-bit words of d. */
  function WordsSum(d: seq<uint8>, k: nat): nat
    requires 2 * k <= |d|
  {
    if k == 0 then 0 else WordsSum(d, k - 1) + d[2 * (k - 1)] as int * 256 + d[2 * k - 1] as int
  }

  /**
   * The message checksum: the sum, modulo 2^32, of the big-endian 16-bit words
   * of d, a trailing odd byte counting as the high byte of a last word. This is
   * a plain sum, not the one's-complement checksum of RFC 1071.
   */
  function Checksum(d: seq<uint8>): uint32
  {
    (WordsSum(d, |d| / 2) + (if |d| % 2 == 1 then d[|d| - 1] as int * 256 else 0)) % TWO_32
  }

  /** NH_checksum: the word loop with a wrapping uint32 accumulator. */
  method NHChecksum(data: seq<uint8>) returns (csum: uint32)
    ensures csum == Checksum(data)
  {
    csum := 0;
    var length := |data| - 1;
    var i := 0;
    while i < length
      invariant 0 <= i && i % 2 == 0
      invariant i <= |data|
      invariant i < length ==> i + 1 < |data|
      invariant csum == WordsSum(data, i / 2) % TWO_32
    {
      ChecksumWordStep(data, i);
      csum := AddU32(AddU32(csum, data[i] as int * 256), data[i + 1] as int);
      i := i + 2;
    }
    if |data| % 2 == 1 {
      ChecksumTailStep(data);
      csum := AddU32(csum, data[length] as int * 256);
    }
  }

  /** One pass of the word loop keeps the accumulator equal to the running sum modulo 2^32. */
  lemma ChecksumWordStep(data: seq<uint8>, i: nat)
    requires i % 2 == 0 && i + 1 < |data|
    ensures AddU32(AddU32(WordsSum(data, i / 2) % TWO_32, data[i] as int * 256), data[i + 1] as int)
      == WordsSum(data, i / 2 + 1) % TWO_32
  {
    var s := WordsSum(data, i / 2);
    var hi := data[i] as int * 256;
    assert WordsSum(data, i / 2 + 1) == s + hi + data[i + 1] as int;
    ModAdd(s, hi);
    ModAdd(s + hi, data[i + 1] as int);
  }

  /** The trailing odd byte, as the high byte of a last word, completes the checksum. */
  lemma ChecksumTailStep(data: seq<uint8>)
    requires |data| % 2 == 1
    ensures AddU32(WordsSum(data, |data| / 2) % TWO_32, data[|data| - 1] as int * 256) == Checksum(data)
  {
    ModAdd(WordsSum(data, |data| / 2), data[|data| - 1] as int * 256);
  }

  lemma ModAdd(x: nat, y: nat)
    ensures (x % TWO_32 + y) % TWO_32 == (x + y) % TWO_32
  {
  }

  lemma {:induction false} WordsSumPrefix(d: seq<uint8>, e: seq<uint8>, k: nat)
    requires 2 * k <= |d|
    ensures WordsSum(d + e, k) == WordsSum(d, k)
  {
    if k > 0 {
      WordsSumPrefix(d, e, k - 1);
      assert (d + e)[2 * (k - 1)] == d[2 * (k - 1)] && (d + e)[2 * k - 1] == d[2 * k - 1];
    }
  }

  /** The empty input sums to 0, and padding an odd input with a zero byte changes nothing. */
  lemma ChecksumPadding(d: seq<uint8>)
    ensures Checksum([]) == 0
    ensures |d| % 2 == 1 ==> Checksum(d + [0]) == Checksum(d)
  {
    if |d| % 2 == 1 {
      var k := |d| / 2;
      WordsSumPrefix(d, [0], k);
      assert (d + [0])[2 * k] == d[|d| - 1] && (d + [0])[2 * k + 1] == 0;
    }
  }

  lemma {:induction false} WordsSumChangeOne(d: seq<uint8>, i: nat, b: uint8, k: nat)
    requires i < |d| && 2 * k <= |d|
    ensures WordsSum(d[i := b], k) - WordsSum(d, k)
      == (if i < 2 * k then (b as int - d[i] as int) * (if i % 2 == 0 then 256 else 1) else 0)
  {
    if k > 0 {
      WordsSumChangeOne(d, i, b, k - 1);
    }
  }

  /**
   * Changing any single byte always changes the checksum: the sum moves by a
   * non-zero amount smaller than 2^16, which the modulus cannot absorb.
   */
  lemma ChecksumDetectsOneByteChange(d: seq<uint8>, i: nat, b: uint8)
    requires i < |d| && b != d[i]
    ensures Checksum(d[i := b]) != Checksum(d)
  {
    var e := d[i := b];
    var k := |d| / 2;
    WordsSumChangeOne(d, i, b, k);
    var delta := b as int - d[i] as int;
    assert delta != 0 && -256 < delta < 256;
    var tailD := if |d| % 2 == 1 then d[|d| - 1] as int * 256 else 0;
    var tailE := if |e| % 2 == 1 then e[|e| - 1] as int * 256 else 0;
    var sumD := WordsSum(d, k) + tailD;
    var sumE := WordsSum(e, k) + tailE;
    if i < 2 * k {
      assert tailE == tailD;
      assert sumE - sumD == delta * (if i % 2 == 0 then 256 else 1);
    } else {
      assert i == |d| - 1 && |d| % 2 == 1;
      assert sumE - sumD == delta * 256;
    }
    assert sumE - sumD != 0 && -TWO_16 < sumE - sumD < TWO_16;
    ModDiffers(sumD, sumE);
  }

  lemma ModDiffers(x: nat, y: nat)
    requires x != y && -TWO_16 < y - x < TWO_16
    ensures x % TWO_32 != y % TWO_32
  {
  }

  // ---------------------------------------------------------------------------
  // NH_is_proper_subnet / NH_is_proper_ip

  /** NH_is_proper_subnet: the text is an IPv4 network in CIDR notation. */
  function IsProperSubnet(subnet: string): (r: bool)
    ensures r ==> '/' in subnet
  {
    NetAddr.ParseCIDR(subnet).Some?
  }

  /** Every network, written out as net.IPNet.String writes it, passes the check. */
  lemma ProperSubnetOfFormat(n: NetAddr.IPNet)
    requires n.Net4? && NetAddr.MaskIP(n.ip, NetAddr.Mask(n)) == n.ip
    ensures IsProperSubnet(NetAddr.FormatCIDR(n))
  {
    NetAddr.ParseFormatCIDR(n);
  }

  /** NH_is_proper_ip: the text is a dotted IPv4 address. */
  function IsProperIp(ipstr: string): (r: bool)
    ensures r ==> |Split(ipstr, '.')| == 4
  {
    NetAddr.ParseIPv4(ipstr).Some?
  }

  /** Every address, written out as net.IP.String writes it, passes the check. */
  lemma ProperIpOfFormat(ip: NetAddr.IP4)
    ensures IsProperIp(NetAddr.FormatIPv4(ip))
  {
    NetAddr.ParseFormatIPv4(ip);
  }

  // ---------------------------------------------------------------------------
  // NH_is_proper_Integer

  /** NH_is_proper_Integer: s parses as a decimal int lying in [min, max]. */
  function IsProperInteger(svalue: string, min: int, max: int): (r: bool)
    ensures r ==> Atoi(svalue).Some? && min <= Atoi(svalue).value <= max
    ensures Atoi(svalue).Some? && min <= Atoi(svalue).value <= max ==> r
  {
    match Atoi(svalue)
    case None => false
    case Some(value) => !(value < min || value > max)
  }

  /** The printed form of a value passes the check exactly when the value is in range. */
  lemma IsProperIntegerOfItoa(v: int, min: int, max: int)
    requires MIN_INT64 <= v <= MAX_INT64
    ensures IsProperInteger(Itoa(v), min, max) <==> min <= v <= max
  {
    AtoiItoa(v);
  }

  // ---------------------------------------------------------------------------
  // NH_convert_into_xB / NH_convert_into_xbps

  const GIB: nat := 1024 * 1024 * 1024
  const MIB: nat := 1024 * 1024
  const KIB: nat := 1024

  /** remstr[0:2] when remstr is longer than one character, remstr otherwise. */
  function LeadingDigits(remstr: string): (f: string)
    ensures |f| == (if |remstr| > 1 then 2 else |remstr|)
    ensures f == remstr[..|f|]
  {
    if |remstr| > 1 then remstr[0..2] else remstr
  }

  /** The "<whole>.<fraction> <units>" text both converters build, fraction as written. */
  function Render(num: nat, rem: nat, units: string): string
  {
    FormatNat(num) + "." + LeadingDigits(FormatNat(rem)) + " " + units
  }

  /** NH_convert_into_xB: GB above 2^30 bytes, MB above 2^20, KB above 1024, no unit below. */
  function ConvertIntoXB(num: uint64): string
  {
    if num > GIB then Render(num / GIB, num % GIB, "GB")
    else if num > MIB then Render(num / MIB, num % MIB, "MB")
    else if num > KIB then Render(num / KIB, num % KIB, "KB")
    else Render(num, 0, "")
  }

  /** The unit chosen for a byte count, and how many bytes it stands for. */
  function XBScale(num: nat): (nat, string)
  {
    if num > GIB then (GIB, "GB") else if num > MIB then (MIB, "MB") else if num > KIB then (KIB, "KB") else (1, "")
  }

  /**
   * ConvertIntoXB prints the number of whole units, a '.', at most the first
   * two decimal digits of the raw remainder in bytes, a space and the unit;
   * counts of at most 1024 bytes get no unit and the fraction "0".
   */
  lemma ConvertIntoXBShape(num: uint64)
    ensures var (unit, name) := XBScale(num);
      ConvertIntoXB(num) == FormatNat(num / unit) + "." + LeadingDigits(FormatNat(num % unit)) + " " + name
      && (name == "GB" <==> num > GIB)
      && (name == "MB" <==> MIB < num <= GIB)
      && (name == "KB" <==> KIB < num <= MIB)
      && (name == "" <==> num <= KIB)
  {
  }

  /** The byte count as written: 1536 bytes are exactly 1.5 KB but print as "1.51 KB". */
  lemma ConvertIntoXBMisprintsFraction()
    ensures ConvertIntoXB(1536) == "1.51 KB"
    ensures 1536 * 100 == 150 * KIB
  {
    assert FormatNat(512) == "512";
    assert FormatNat(1) == "1";
  }

  /** Two decimal digits of a value below 100, zero-padded. */
  function TwoDigits(h: nat): (s: string)
    requires h < 100
    ensures |s| == 2 && AllDigits(s) && DecimalValue(s) == h
  {
    var s := [DigitChar(h / 10), DigitChar(h % 10)];
    assert s[..1] == [s[0]] && s[..0] == [];
    assert DecimalValue(s[..1]) == h / 10;
    s
  }

  /** The intended rendering: the count in units, cut to hundredths. */
  function RenderHundredths(num: nat, unit: nat, units: string): string
    requires unit > 0
  {
    FormatNat(num / unit) + "." + TwoDigits(num % unit * 100 / unit) + " " + units
  }

  /** NH_convert_into_xB with the fraction the text is meant to show. */
  function ConvertIntoXBHundredths(num: uint64): string
  {
    var (unit, name) := XBScale(num);
    RenderHundredths(num, unit, name)
  }

  /** num in hundredths of unit, rounded down: whole units and the first two decimals of the rest. */
  function Hundredths(num: nat, unit: nat): nat
    requires unit > 0
  {
    (num / unit) * 100 + num % unit * 100 / unit
  }

  lemma HundredthsBounds(num: nat, unit: nat)
    requires unit > 0
    ensures var h := Hundredths(num, unit);
      h * unit <= 100 * num < (h + 1) * unit
  {
    var q, r := num / unit, num % unit;
    var f := r * 100 / unit;
    assert num == q * unit + r;
    assert f * unit <= r * 100 < (f + 1) * unit;
    calc {
      (q * 100 + f) * unit;
      == q * 100 * unit + f * unit;
      <= { assert f * unit <= r * 100; } q * 100 * unit + r * 100;
      == 100 * num;
    }
    calc {
      100 * num;
      == q * 100 * unit + r * 100;
      < { assert r * 100 < (f + 1) * unit; } q * 100 * unit + (f + 1) * unit;
      == (q * 100 + f + 1) * unit;
    }
  }

  /** Text of the form "<digits>.<two digits> <units>" whose value, in hundredths, is h. */
  predicate ReadsAsHundredths(s: string, h: nat, units: string)
  {
    exists i :: 0 <= i && i + 3 <= |s| && s[i] == '.'
      && AllDigits(s[..i]) && AllDigits(s[i + 1..i + 3])
      && s[i + 3..] == " " + units
      && DecimalValue(s[..i]) * 100 + DecimalValue(s[i + 1..i + 3]) == h
  }

  lemma RenderHundredthsReads(num: nat, unit: nat, units: string)
    requires unit > 0
    ensures var h := Hundredths(num, unit);
      ReadsAsHundredths(RenderHundredths(num, unit, units), h, units)
      && h * unit <= 100 * num < (h + 1) * unit
  {
    var whole := FormatNat(num / unit);
    var frac := TwoDigits(num % unit * 100 / unit);
    var s := RenderHundredths(num, unit, units);
    var i := |whole|;
    assert s == whole + "." + frac + " " + units;
    assert s[..i] == whole;
    assert s[i] == '.';
    assert s[i + 1..i + 3] == frac;
    assert s[i + 3..] == " " + units;
    DecimalValueOfFormat(num / unit);
    HundredthsBounds(num, unit);
  }

  /**
   * The corrected text reads as the exact count in units cut to two decimals:
   * if it shows h hundredths of a unit then h/100 units <= num < (h+1)/100 units.
   */
  lemma ConvertIntoXBHundredthsIsTruncation(num: uint64)
    ensures ReadsAsHundredths(ConvertIntoXBHundredths(num), XBHundredths(num), XBScale(num).1)
    ensures XBHundredths(num) * XBScale(num).0 <= 100 * num < (XBHundredths(num) + 1) * XBScale(num).0
  {
    var unit, units := XBScale(num).0, XBScale(num).1;
    assert ConvertIntoXBHundredths(num) == RenderHundredths(num, unit, units);
    RenderHundredthsReads(num, unit, units);
  }

  /** The count in hundredths of its unit, rounded down. */
  function XBHundredths(num: nat): nat
  {
    Hundredths(num, XBScale(num).0)
  }

  /** The text as written reads as 151 hundredths of a KB for 1536 bytes, more than their exact 150. */
  lemma ConvertIntoXBOverstates()
    ensures ReadsAsHundredths(ConvertIntoXB(1536), 151, "KB")
    ensures 151 * KIB > 100 * 1536
  {
    var s := ConvertIntoXB(1536);
    ConvertIntoXBMisprintsFraction();
    assert s[..1] == "1" && s[1] == '.' && s[2..4] == "51" && s[4..] == " KB";
    assert DecimalValue("1") == 1;
    assert DecimalValue("51") == 51 by { assert "51"[..1] == "5"; }
  }

  /** NH_convert_into_xbps: bits per factor seconds (the product wraps at 2^64), in Gbps, Mbps or Kbps. */
  function ConvertIntoXbps(num: uint64, factor: uint64): string
    requires factor > 0
  {
    var bits: uint64 := (num * 8) % TWO_64;
    var rate := bits / factor;
    if rate > GIB then Render(rate / GIB, rate % GIB, "Gbps")
    else if rate > MIB then Render(rate / MIB, rate % MIB, "Mbps")
    else Render(rate / KIB, rate % KIB, "Kbps")
  }

  /** The rate text always carries a unit, Kbps being the smallest. */
  lemma ConvertIntoXbpsShape(num: uint64, factor: uint64)
    requires factor > 0
    ensures var rate := (num * 8) % TWO_64 / factor;
      var (unit, name) := if rate > GIB then (GIB, "Gbps") else if rate > MIB then (MIB, "Mbps") else (KIB, "Kbps");
      ConvertIntoXbps(num, factor) == FormatNat(rate / unit) + "." + LeadingDigits(FormatNat(rate % unit)) + " " + name
      && (rate <= MIB ==> name == "Kbps")
  {
  }

  // ---------------------------------------------------------------------------
  // NH_is_multicast_mac

  datatype MacError = InvalidHexByte

  /**
   * NH_is_multicast_mac: the group bit (bit 0) of the first octet, read from
   * the first two characters. Fewer than two characters make the source panic
   * on the slice, hence the precondition.
   */
  function IsMulticastMac(mac: string): (r: Result<bool, MacError>)
    requires |mac| >= 2
    ensures r.Ok? <==> IsHexDigit(mac[0]) && IsHexDigit(mac[1])
    ensures r.Ok? ==> (r.value <==> HexVal(mac[1]) % 2 == 1)
  {
    match DecodeHexByte(mac[0], mac[1])
    case None => Err(InvalidHexByte)
    case Some(b) => Ok(b % 2 == 1)
  }

  /** Lower-case hexadecimal digit, as encoding/json writes in a \u escape. */
  function HexDigit(n: nat): (c: char)
    requires n < 16
  {
    "0123456789abcdef"[n]
  }

  /**
   * How encoding/json writes one character inside a string: quote and
   * backslash escaped, newline, return and tab by name, every other control
   * character and the HTML-sensitive `<`, `>`, `&` as a \u escape, and the
   * line and paragraph separators U+2028 and U+2029 escaped too.
   */
  function JsonEscape(c: char): (r: string)
    ensures |r| >= 1
    ensures '\n' !in r
  {
    if c == '"' then "\\\""
    else if c == '\\' then "\\\\"
    else if c == '\n' then "\\n"
    else if c == '\r' then "\\r"
    else if c == '\t' then "\\t"
    else if c < ' ' || c == '<' || c == '>' || c == '&' then
      "\\u00" + [HexDigit(c as int / 16), HexDigit(c as int % 16)]
    else if c == '\U{2028}' then "\\u2028"
    else if c == '\U{2029}' then "\\u2029"
    else [c]
  }

  /** The characters that encoding/json writes unchanged inside a string. */
  predicate JsonPlain(c: char)
  {
    c >= ' ' && c != '"' && c != '\\' && c != '<' && c != '>' && c != '&'
    && c != '\U{2028}' && c != '\U{2029}'
  }

  function JsonEscapeAll(s: string): (r: string)
    ensures '\n' !in r
  {
    if |s| == 0 then "" else JsonEscape(s[0]) + JsonEscapeAll(s[1..])
  }

  /** A string of plain characters is written as it is. */
  lemma {:induction false} JsonEscapeAllPlain(s: string)
    requires forall i :: 0 <= i < |s| ==> JsonPlain(s[i])
    ensures JsonEscapeAll(s) == s
  {
    if |s| > 0 {
      JsonEscapeAllPlain(s[1..]);
      assert [s[0]] + s[1..] == s;
    }
  }

  /**
   * NH_getErrorStatusString: the JSON object {"error": e, "status": "fail"},
   * keys in the sorted order encoding/json writes map keys in. Marshalling a
   * map of strings cannot fail, so the fallback text is never produced.
   */
  function ErrorStatusString(e: string): (r: string)
    ensures '\n' !in r
    ensures |r| > 0 && r[0] == '{'
  {
    "{\"error\":\"" + JsonEscapeAll(e) + "\",\"status\":\"fail\"}"
  }

  /** An error text of plain characters appears verbatim in the status. */
  lemma ErrorStatusOfPlain(e: string)
    requires forall i :: 0 <= i < |e| ==> JsonPlain(e[i])
    ensures ErrorStatusString(e) == "{\"error\":\"" + e + "\",\"status\":\"fail\"}"
  {
    JsonEscapeAllPlain(e);
  }
}
