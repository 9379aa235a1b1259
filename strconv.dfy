/**
 * The decimal and hexadecimal conversions of Go's `strconv` and
 * `encoding/hex` packages that the core calls.
 */
module Strconv {
  import opened Wrappers
  import opened GoTypes

  predicate IsDigit(c: char) { '0' <= c <= '9' }

  predicate AllDigits(s: string) { forall i :: 0 <= i < |s| ==> IsDigit(s[i]) }

  function DigitVal(c: char): (d: nat)
    requires IsDigit(c)
    ensures d < 10
  {
    c as int - '0' as int
  }

  function DigitChar(d: nat): (c: char)
    requires d < 10
    ensures IsDigit(c) && DigitVal(c) == d
  {
    ('0' as int + d) as char
  }

  /** Value of a run of decimal digits, most significant first. */
  function DecimalValue(s: string): nat
    requires AllDigits(s)
  {
    if |s| == 0 then 0 else DecimalValue(s[..|s| - 1]) * 10 + DigitVal(s[|s| - 1])
  }

  /** strconv.FormatUint(n, 10): the shortest decimal form, without leading zeros. */
  function FormatNat(n: nat): (r: string)
    ensures |r| >= 1 && AllDigits(r)
    ensures |r| > 1 ==> r[0] != '0'
    ensures n < 10 <==> |r| == 1
  {
    if n < 10 then [DigitChar(n)] else FormatNat(n / 10) + [DigitChar(n % 10)]
  }

  /** Reading back the decimal form of n gives n. */
  lemma {:induction false} DecimalValueOfFormat(n: nat)
    ensures DecimalValue(FormatNat(n)) == n
  {
    if n >= 10 {
      DecimalValueOfFormat(n / 10);
      var r := FormatNat(n);
      assert r[..|r| - 1] == FormatNat(n / 10);
    }
  }

  /** The decimal form has at most k digits exactly when n < 10^k. */
  function Pow10(k: nat): (p: nat)
    ensures p >= 1
  {
    if k == 0 then 1 else 10 * Pow10(k - 1)
  }

  lemma {:induction false} FormatNatLength(n: nat, k: nat)
    ensures |FormatNat(n)| <= k + 1 <==> n < Pow10(k + 1)
  {
    if n >= 10 && k > 0 {
      FormatNatLength(n / 10, k - 1);
    }
  }

  /** strconv.Itoa. */
  function Itoa(n: int): string
  {
    if n < 0 then "-" + FormatNat(-n) else FormatNat(n)
  }

  /**
   * strconv.ParseInt(s, 10, bits): an optional sign followed by at least one
   * decimal digit, whose value must lie in [lo, hi].
   */
  function ParseSigned(s: string, lo: int, hi: int): (r: Option<int>)
    ensures r.Some? ==> lo <= r.value <= hi
  {
    if |s| == 0 then None
    else
      var neg := s[0] == '-';
      var digits := if s[0] == '+' || s[0] == '-' then s[1..] else s;
      if |digits| == 0 || !AllDigits(digits) then None
      else
        var mag: int := DecimalValue(digits);
        var v := if neg then 0 - mag else mag;
        if lo <= v <= hi then Some(v) else None
  }

  /** strconv.Atoi on a 64-bit platform. */
  function Atoi(s: string): (r: Option<int>)
    ensures r.Some? ==> MIN_INT64 <= r.value <= MAX_INT64
  {
    ParseSigned(s, MIN_INT64, MAX_INT64)
  }

  /** strconv.ParseInt(s, 10, 32). */
  function ParseInt32(s: string): (r: Option<int>)
    ensures r.Some? ==> MIN_INT32 <= r.value <= MAX_INT32
  {
    ParseSigned(s, MIN_INT32, MAX_INT32)
  }

  /** Atoi reads back every int that Itoa prints. */
  lemma AtoiItoa(n: int)
    requires MIN_INT64 <= n <= MAX_INT64
    ensures Atoi(Itoa(n)) == Some(n)
  {
    var s := Itoa(n);
    if n < 0 {
      var d := FormatNat(-n);
      DecimalValueOfFormat(-n);
      assert s == ['-'] + d;
      assert s[0] == '-' && s[1..] == d;
    } else {
      var d := FormatNat(n);
      DecimalValueOfFormat(n);
      assert s == d && IsDigit(s[0]);
    }
  }

  /** strconv.ParseBool. */
  function ParseBool(s: string): (r: Option<bool>)
    ensures r == Some(true) <==> s in {"1", "t", "T", "TRUE", "true", "True"}
    ensures r == Some(false) <==> s in {"0", "f", "F", "FALSE", "false", "False"}
  {
    if s in {"1", "t", "T", "TRUE", "true", "True"} then Some(true)
    else if s in {"0", "f", "F", "FALSE", "false", "False"} then Some(false)
    else None
  }

  predicate IsHexDigit(c: char)
  {
    IsDigit(c) || 'a' <= c <= 'f' || 'A' <= c <= 'F'
  }

  function HexVal(c: char): (v: nat)
    requires IsHexDigit(c)
    ensures v < 16
  {
    if IsDigit(c) then DigitVal(c)
    else if 'a' <= c <= 'f' then c as int - 'a' as int + 10
    else c as int - 'A' as int + 10
  }

  /** hex.DecodeString of a two-character string: one byte, or an error on a non-hex character. */
  function DecodeHexByte(a: char, b: char): (r: Option<uint8>)
    ensures r.Some? <==> IsHexDigit(a) && IsHexDigit(b)
    ensures r.Some? ==> r.value / 16 == HexVal(a) && r.value % 16 == HexVal(b)
  {
    if IsHexDigit(a) && IsHexDigit(b) then Some(HexVal(a) * 16 + HexVal(b)) else None
  }

  /** Value of the hex digits of s, skipping underscores, most significant first. */
  function HexDigitsValue(s: string): nat
    requires forall i :: 0 <= i < |s| ==> IsHexDigit(s[i]) || s[i] == '_'
  {
    if |s| == 0 then 0
    else if s[|s| - 1] == '_' then HexDigitsValue(s[..|s| - 1])
    else HexDigitsValue(s[..|s| - 1]) * 16 + HexVal(s[|s| - 1])
  }

  /**
   * Underscores in a base-prefixed literal may only separate digits: none at
   * the end and never two in a row (the "0x" prefix counts as a digit).
   */
  predicate UnderscoresSeparateDigits(s: string)
  {
    (|s| == 0 || s[|s| - 1] != '_')
    && forall i :: 0 <= i < |s| - 1 ==> !(s[i] == '_' && s[i + 1] == '_')
  }

  /**
   * strconv.ParseInt("0x" + s, 0, 64): the hex digits after the prefix, with
   * separating underscores allowed, and a value that fits an int64.
   */
  function ParseHexInt64(s: string): (r: Option<int>)
    ensures r.Some? ==> 0 <= r.value <= MAX_INT64
    ensures r.Some? ==> |s| > 0
  {
    if |s| == 0 then None
    else if !(forall i :: 0 <= i < |s| ==> IsHexDigit(s[i]) || s[i] == '_') then None
    else if !UnderscoresSeparateDigits(s) then None
    else if HexDigitsValue(s) > MAX_INT64 then None
    else Some(HexDigitsValue(s))
  }

  /** A hex run (underscores skipped) is worth zero exactly when every digit is '0'. */
  lemma {:induction false} HexDigitsValueZero(s: string)
    requires forall i :: 0 <= i < |s| ==> IsHexDigit(s[i]) || s[i] == '_'
    ensures HexDigitsValue(s) == 0 <==> forall i :: 0 <= i < |s| ==> s[i] == '0' || s[i] == '_'
  {
    if |s| > 0 {
      HexDigitsValueZero(s[..|s| - 1]);
      assert forall i :: 0 <= i < |s| - 1 ==> s[..|s| - 1][i] == s[i];
    }
  }
}
