/**
 * The pieces of Go's `strings` and `bufio` packages the core relies on,
 * restricted to the one-character separators it actually passes.
 */
module GoStrings {

  /** strings.Split(s, string(sep)): never empty, and no piece holds the separator. */
  function Split(s: string, sep: char): (r: seq<string>)
    ensures |r| >= 1
    ensures forall i :: 0 <= i < |r| ==> sep !in r[i]
  {
    if |s| == 0 then [""]
    else
      var rest := Split(s[1..], sep);
      if s[0] == sep then [""] + rest
      else [[s[0]] + rest[0]] + rest[1..]
  }

  /** strings.Join(parts, string(sep)). */
  function Join(parts: seq<string>, sep: char): string
    requires |parts| >= 1
  {
    if |parts| == 1 then parts[0] else parts[0] + [sep] + Join(parts[1..], sep)
  }

  lemma {:induction false} JoinConsHead(c: char, parts: seq<string>, sep: char)
    requires |parts| >= 1
    ensures Join([[c] + parts[0]] + parts[1..], sep) == [c] + Join(parts, sep)
  {
    var q := [[c] + parts[0]] + parts[1..];
    assert q[1..] == parts[1..];
  }

  /** Joining the pieces of a split with the same separator gives back the input. */
  lemma {:induction false} JoinSplit(s: string, sep: char)
    ensures Join(Split(s, sep), sep) == s
  {
    if |s| > 0 {
      JoinSplit(s[1..], sep);
      var rest := Split(s[1..], sep);
      if s[0] == sep {
        assert ([""] + rest)[1..] == rest;
      } else {
        JoinConsHead(s[0], rest, sep);
      }
      assert [s[0]] + s[1..] == s;
    }
  }

  /** Splitting a join of separator-free pieces gives back the pieces. */
  lemma {:induction false} SplitJoin(parts: seq<string>, sep: char)
    requires |parts| >= 1
    requires forall i :: 0 <= i < |parts| ==> sep !in parts[i]
    ensures Split(Join(parts, sep), sep) == parts
    decreases |parts|, |parts[0]|
  {
    var p := parts[0];
    if |p| == 0 {
      if |parts| > 1 {
        SplitJoin(parts[1..], sep);
        assert Join(parts, sep) == [sep] + Join(parts[1..], sep);
        assert ([sep] + Join(parts[1..], sep))[1..] == Join(parts[1..], sep);
        assert [""] + parts[1..] == parts;
      }
    } else {
      var shorter := [p[1..]] + parts[1..];
      assert shorter[1..] == parts[1..];
      SplitJoin(shorter, sep);
      assert Join(shorter, sep) == Join(parts, sep)[1..] by {
        if |parts| > 1 {
          assert Join(parts, sep) == p + [sep] + Join(parts[1..], sep);
        }
      }
      var j := Join(parts, sep);
      assert j[0] == p[0] && j[1..] == Join(shorter, sep);
      assert [p[0]] + p[1..] == p;
      assert [[p[0]] + p[1..]] + parts[1..] == parts;
    }
  }

  /** A separator-free first piece is split off on its own. */
  lemma {:induction false} SplitHead(a: string, sep: char, b: string)
    requires sep !in a
    ensures Split(a + [sep] + b, sep) == [a] + Split(b, sep)
    decreases |a|
  {
    var s := a + [sep] + b;
    if |a| == 0 {
      assert s == [sep] + b && s[1..] == b;
    } else {
      assert s[1..] == a[1..] + [sep] + b;
      SplitHead(a[1..], sep, b);
      assert [a[0]] + a[1..] == a;
    }
  }

  /** A string free of the separator splits into itself alone. */
  lemma {:induction false} SplitNoSep(s: string, sep: char)
    requires sep !in s
    ensures Split(s, sep) == [s]
  {
    if |s| > 0 {
      assert s == [s[0]] + s[1..];
      SplitNoSep(s[1..], sep);
    }
  }

  /** The whitespace set of unicode.IsSpace, which strings.Fields splits on. */
  predicate IsSpace(c: char)
  {
    c == '\t' || c == '\n' || c == '\U{000B}' || c == '\U{000C}' || c == '\r' || c == ' '
    || c == '\U{0085}' || c == '\U{00A0}' || c == '\U{1680}' || ('\U{2000}' <= c <= '\U{200A}')
    || c == '\U{2028}' || c == '\U{2029}' || c == '\U{202F}' || c == '\U{205F}' || c == '\U{3000}'
  }

  predicate AllSpace(s: string)
  {
    forall i :: 0 <= i < |s| ==> IsSpace(s[i])
  }

  /** Length of the longest prefix of s free of whitespace. */
  function TokenLen(s: string): (n: nat)
    ensures n <= |s|
    ensures forall i :: 0 <= i < n ==> !IsSpace(s[i])
    ensures n < |s| ==> IsSpace(s[n])
  {
    if |s| == 0 || IsSpace(s[0]) then 0 else 1 + TokenLen(s[1..])
  }

  /** strings.Fields: the maximal runs of non-whitespace characters, in order. */
  function Fields(s: string): (r: seq<string>)
    ensures forall i :: 0 <= i < |r| ==> |r[i]| > 0 && !(exists k :: 0 <= k < |r[i]| && IsSpace(r[i][k]))
    decreases |s|
  {
    if |s| == 0 then []
    else if IsSpace(s[0]) then Fields(s[1..])
    else
      var t := TokenLen(s);
      [s[..t]] + Fields(s[t..])
  }

  lemma {:induction false} FieldsOfSpace(w: string)
    requires AllSpace(w)
    ensures Fields(w) == []
    decreases |w|
  {
    if |w| > 0 { FieldsOfSpace(w[1..]); }
  }

  lemma {:induction false} FieldsSkipsLeadingSpace(w: string, s: string)
    requires AllSpace(w)
    ensures Fields(w + s) == Fields(s)
    decreases |w|
  {
    if |w| > 0 {
      assert (w + s)[0] == w[0] && IsSpace(w[0]);
      assert (w + s)[1..] == w[1..] + s;
      FieldsSkipsLeadingSpace(w[1..], s);
    } else {
      assert w + s == s;
    }
  }

  lemma {:induction false} TokenLenAppend(s: string, w: string)
    requires |w| == 0 || IsSpace(w[0])
    ensures TokenLen(s + w) == TokenLen(s)
    decreases |s|
  {
    if |s| > 0 && !IsSpace(s[0]) {
      assert (s + w)[1..] == s[1..] + w;
      TokenLenAppend(s[1..], w);
    }
  }

  lemma {:induction false} FieldsSkipsTrailingSpace(s: string, w: string)
    requires AllSpace(w)
    ensures Fields(s + w) == Fields(s)
    decreases |s|
  {
    if |s| == 0 {
      assert s + w == w;
      FieldsOfSpace(w);
    } else if IsSpace(s[0]) {
      assert (s + w)[1..] == s[1..] + w;
      FieldsSkipsTrailingSpace(s[1..], w);
    } else {
      TokenLenAppend(s, w);
      var t := TokenLen(s);
      assert (s + w)[..t] == s[..t];
      assert (s + w)[t..] == s[t..] + w;
      FieldsSkipsTrailingSpace(s[t..], w);
    }
  }

  /** Surrounding whitespace never changes the fields of a line. */
  lemma FieldsIgnoreSurroundingSpace(w1: string, s: string, w2: string)
    requires AllSpace(w1) && AllSpace(w2)
    ensures Fields(w1 + s + w2) == Fields(s)
  {
    FieldsSkipsLeadingSpace(w1, s + w2);
    assert w1 + s + w2 == w1 + (s + w2);
    FieldsSkipsTrailingSpace(s, w2);
  }

  /** strings.TrimLeft(s, " "). */
  function TrimLeftSpaces(s: string): (r: string)
    ensures |r| <= |s| && s[|s| - |r|..] == r
    ensures |r| == 0 || r[0] != ' '
    ensures forall i :: 0 <= i < |s| - |r| ==> s[i] == ' '
  {
    if |s| > 0 && s[0] == ' ' then TrimLeftSpaces(s[1..]) else s
  }

  /** strings.TrimRight(s, " "). */
  function TrimRightSpaces(s: string): (r: string)
    ensures |r| <= |s| && s[..|r|] == r
    ensures |r| == 0 || r[|r| - 1] != ' '
    ensures forall i :: |r| <= i < |s| ==> s[i] == ' '
  {
    if |s| > 0 && s[|s| - 1] == ' ' then TrimRightSpaces(s[..|s| - 1]) else s
  }

  /** strings.Trim(s, " "): both ends stripped of spaces, the middle untouched. */
  function TrimSpaces(s: string): (r: string)
  {
    TrimRightSpaces(TrimLeftSpaces(s))
  }

  /** strings.TrimSuffix(s, "\n"). */
  function TrimNewline(s: string): (r: string)
    ensures |s| > 0 && s[|s| - 1] == '\n' ==> r == s[..|s| - 1]
    ensures !(|s| > 0 && s[|s| - 1] == '\n') ==> r == s
  {
    if |s| > 0 && s[|s| - 1] == '\n' then s[..|s| - 1] else s
  }

  /** strings.ReplaceAll(s, string(a), string(b)) for single characters. */
  function ReplaceChar(s: string, a: char, b: char): (r: string)
    ensures |r| == |s|
    ensures forall i :: 0 <= i < |s| ==> r[i] == (if s[i] == a then b else s[i])
  {
    if |s| == 0 then [] else [if s[0] == a then b else s[0]] + ReplaceChar(s[1..], a, b)
  }

  function LowerChar(c: char): char
  {
    if 'A' <= c <= 'Z' then (c as int + 32) as char else c
  }

  /**
   * strings.ToLower restricted to ASCII letters. Every non-ASCII character
   * whose Go lower case is an ASCII letter (the Kelvin sign, to 'k') lowers to a
   * letter that none of the words compared against here contain.
   */
  function ToLower(s: string): (r: string)
    ensures |r| == |s|
    ensures forall i :: 0 <= i < |s| ==> r[i] == LowerChar(s[i])
  {
    if |s| == 0 then [] else [LowerChar(s[0])] + ToLower(s[1..])
  }

  /** Drops one trailing carriage return, as bufio.ScanLines does. */
  function DropCR(s: string): string
  {
    if |s| > 0 && s[|s| - 1] == '\r' then s[..|s| - 1] else s
  }

  function MapDropCR(lines: seq<string>): (r: seq<string>)
    ensures |r| == |lines|
    ensures forall i :: 0 <= i < |lines| ==> r[i] == DropCR(lines[i])
  {
    if |lines| == 0 then [] else [DropCR(lines[0])] + MapDropCR(lines[1..])
  }

  /**
   * The lines a bufio.Scanner yields with ScanLines: no lines for an empty
   * input, the text split on '\n' with one trailing '\r' dropped from each, and
   * no empty line after a final '\n'.
   */
  function ScanLines(s: string): (r: seq<string>)
    ensures |s| == 0 <==> |r| == 0
  {
    if |s| == 0 then []
    else
      var parts := Split(s, '\n');
      JoinSplit(s, '\n');
      var kept := if parts[|parts| - 1] == "" then parts[..|parts| - 1] else parts;
      MapDropCR(kept)
  }

  /** The first line of a scan is the text up to the first newline; the rest is scanned on its own. */
  lemma ScanLinesHead(h: string, rest: string)
    requires '\n' !in h
    ensures ScanLines(h + "\n" + rest) == [DropCR(h)] + ScanLines(rest)
  {
    if |rest| == 0 {
      ScanLinesLast(h);
      assert h + "\n" + rest == h + "\n";
    } else {
      SplitHead(h, '\n', rest);
      ScanLinesMore(h, rest);
    }
  }

  lemma ScanLinesLast(h: string)
    requires '\n' !in h
    ensures ScanLines(h + "\n") == [DropCR(h)]
  {
    SplitHead(h, '\n', "");
    assert h + "\n" + "" == h + "\n";
    var parts := Split(h + "\n", '\n');
    assert Split("", '\n') == [""];
    assert parts[..|parts| - 1] == [h];
  }

  lemma ScanLinesMore(h: string, rest: string)
    requires '\n' !in h && |rest| > 0 && Split(h + "\n" + rest, '\n') == [h] + Split(rest, '\n')
    ensures ScanLines(h + "\n" + rest) == [DropCR(h)] + ScanLines(rest)
  {
    var parts := Split(h + "\n" + rest, '\n');
    var tail := Split(rest, '\n');
    JoinSplit(rest, '\n');
    var kept := if tail[|tail| - 1] == "" then tail[..|tail| - 1] else tail;
    if tail[|tail| - 1] == "" {
      assert parts[..|parts| - 1] == [h] + kept;
    }
    assert MapDropCR([h] + kept)[1..] == MapDropCR(kept);
  }
}
