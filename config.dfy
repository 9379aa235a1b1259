/**
 * config/config.go: a parsed YAML document and the dotted-key lookups with
 * typed defaults that the rest of the program reads its settings through.
 */
module Config {
  import opened Wrappers
  import opened GoTypes
  import opened GoStrings
  import opened Strconv

  /**
   * A decoded YAML value: nil, a string, an int (yaml decodes integers that
   * fit Go's int as int), a bool, a float (kept as its %v text), a list, or a
   * map. Map keys are strings; a key of another type is never found by a
   * string lookup.
   */
  datatype Value =
    | VNil
    | VStr(s: string)
    | VInt(i: int64)
    | VBool(b: bool)
    | VFloat(text: string)
    | VList(items: seq<Value>)
    | VMap(entries: map<string, Value>)

  /**
   * fmt.Sprintf("%v", v). A map prints as "map[...]"; only that prefix is
   * modelled, and no reader in the program accepts text beginning with it.
   */
  function Sprint(v: Value): string
  {
    match v
    case VNil => "<nil>"
    case VStr(s) => s
    case VInt(i) => Itoa(i)
    case VBool(b) => if b then "true" else "false"
    case VFloat(t) => t
    case VList(items) => "[" + SprintList(items) + "]"
    case VMap(_) => "map[...]"
  }

  function SprintList(items: seq<Value>): string
    decreases items
  {
    if |items| == 0 then ""
    else if |items| == 1 then Sprint(items[0])
    else Sprint(items[0]) + " " + SprintList(items[1..])
  }

  /** One step of `get`: the value under key p of a map, nil otherwise. */
  function Step(v: Value, p: string): (r: Value)
    ensures r != VNil ==> v.VMap? && p in v.entries && r == v.entries[p]
  {
    match v
    case VMap(m) => if p in m then m[p] else VNil
    case _ => VNil
  }

  /** The value reached by following the parts of a path, nil once a step fails. */
  function Lookup(parts: seq<string>, v: Value): Value
  {
    if |parts| == 0 then v
    else if !v.VMap? || parts[0] !in v.entries then VNil
    else Lookup(parts[1..], v.entries[parts[0]])
  }

  lemma {:induction false} LookupOfNil(parts: seq<string>)
    requires |parts| > 0
    ensures Lookup(parts, VNil) == VNil
  {
  }

  /**
   * A path that leaves the maps early is nil: if following a prefix of the
   * parts reaches a non-map (or nil), every longer path from there is nil.
   */
  lemma {:induction false} LookupStopsAtNonMap(parts: seq<string>, v: Value, i: nat)
    requires i < |parts|
    requires !Lookup(parts[..i], v).VMap?
    ensures Lookup(parts, v) == VNil
  {
    if i > 0 && v.VMap? && parts[0] in v.entries {
      assert parts[1..][..i - 1] == parts[..i][1..];
      LookupStopsAtNonMap(parts[1..], v.entries[parts[0]], i - 1);
    }
  }

  /** Following p then q is following p, then q from where p led. */
  lemma {:induction false} LookupConcat(p: seq<string>, q: seq<string>, v: Value)
    ensures Lookup(p + q, v) == (if |p| > 0 && Lookup(p, v) == VNil then VNil else Lookup(q, Lookup(p, v)))
  {
    if |p| > 0 {
      assert (p + q)[0] == p[0] && (p + q)[1..] == p[1..] + q;
      if v.VMap? && p[0] in v.entries {
        LookupConcat(p[1..], q, v.entries[p[0]]);
        if |p| == 1 {
          assert p[1..] + q == q;
        }
      } else if |q| > 0 {
        LookupOfNil(q);
      }
    } else {
      assert p + q == q;
    }
  }

  /** The spellings GetBool meets most often, folded to lower case. */
  lemma LowerLiterals()
    ensures ToLower("true") == "true" && ToLower("false") == "false"
    ensures ToLower("Yes") == "yes" && ToLower("NO") == "no"
  {
    assert ToLower("true") == "true";
    assert ToLower("false") == "false";
    assert ToLower("Yes") == "yes";
    assert ToLower("NO") == "no";
  }

  /** The configuration object: current settings, and the previous ones once reloaded. */
  class C {
    var settings: map<string, Value>
    var oldSettings: Option<map<string, Value>>

    /** NewC: empty settings and no previous generation. */
    constructor ()
      ensures settings == map[] && oldSettings == None
    {
      settings := map[];
      oldSettings := None;
    }

    /** `get(k, Settings)`: the value at the dotted path k, nil if absent. */
    function Get(k: string): Value
      reads this
    {
      Lookup(Split(k, '.'), VMap(settings))
    }

    /** The loop of `get`, walking the parts and reassigning the current value. */
    method GetPath(k: string, root: Value) returns (r: Value)
      ensures r == Lookup(Split(k, '.'), root)
    {
      var parts := Split(k, '.');
      var v := root;
      var i := 0;
      while i < |parts|
        invariant 0 <= i <= |parts|
        invariant Lookup(parts, root) == Lookup(parts[i..], v)
      {
        if !v.VMap? {
          LookupStep(parts, i, v);
          return VNil;
        }
        if parts[i] !in v.entries {
          LookupStep(parts, i, v);
          return VNil;
        }
        LookupStep(parts, i, v);
        v := v.entries[parts[i]];
        i := i + 1;
      }
      assert parts[i..] == [];
      r := v;
    }

    static lemma LookupStep(parts: seq<string>, i: nat, v: Value)
      requires i < |parts|
      ensures Lookup(parts[i..], v)
        == (if v.VMap? && parts[i] in v.entries then Lookup(parts[i + 1..], v.entries[parts[i]]) else VNil)
    {
      assert parts[i..][0] == parts[i] && parts[i..][1..] == parts[i + 1..];
    }

    /** IsSet: the path leads to a non-nil value. */
    predicate IsSet(k: string)
      reads this
    {
      Get(k) != VNil
    }

    /** GetString: the %v text of the value, or the default when it is nil. */
    function GetString(k: string, d: string): (r: string)
      reads this
      ensures !IsSet(k) ==> r == d
      ensures IsSet(k) ==> r == Sprint(Get(k))
    {
      var v := Get(k);
      if v == VNil then d else Sprint(v)
    }

    /** GetInt: Atoi of GetString(k, Itoa(d)), the default when that fails. */
    function GetInt(k: string, d: int64): (r: int64)
      reads this
    {
      match Atoi(GetString(k, Itoa(d)))
      case Some(v) => v
      case None => d
    }

    /**
     * GetInt yields the default for a missing key (because Atoi reads back
     * Itoa(d)), the integer itself for an int, the parsed value for a string
     * holding a decimal int, and the default for anything that does not print
     * as one.
     */
    lemma GetIntCases(k: string, d: int64)
      ensures !IsSet(k) ==> GetInt(k, d) == d
      ensures Get(k).VInt? ==> GetInt(k, d) == Get(k).i
      ensures Get(k).VStr? && Atoi(Get(k).s).Some? ==> GetInt(k, d) == Atoi(Get(k).s).value
      ensures IsSet(k) && Atoi(Sprint(Get(k))).None? ==> GetInt(k, d) == d
    {
      AtoiItoa(d);
      if Get(k).VInt? {
        AtoiItoa(Get(k).i);
      }
    }

    /**
     * GetBool: the lower-cased text is read by strconv.ParseBool, else
     * "y"/"yes" are true, "n"/"no" are false, and anything else is the default.
     */
    function GetBool(k: string, d: bool): (r: bool)
      reads this
      ensures var t := ToLower(GetString(k, if d then "true" else "false"));
        (ParseBool(t).Some? ==> r == ParseBool(t).value)
        && (ParseBool(t).None? && (t == "y" || t == "yes") ==> r)
        && (ParseBool(t).None? && (t == "n" || t == "no") ==> !r)
        && (ParseBool(t).None? && t !in {"y", "yes", "n", "no"} ==> r == d)
    {
      var t := ToLower(GetString(k, if d then "true" else "false"));
      match ParseBool(t)
      case Some(v) => v
      case None =>
        if t == "y" || t == "yes" then true
        else if t == "n" || t == "no" then false
        else d
    }

    /** A missing key gives the default; YAML booleans read as themselves; "Yes" and "NO" are folded to lower case first. */
    lemma GetBoolCases(k: string, d: bool)
      ensures !IsSet(k) ==> GetBool(k, d) == d
      ensures Get(k) == VBool(true) ==> GetBool(k, d)
      ensures Get(k) == VBool(false) ==> !GetBool(k, d)
      ensures Get(k) == VStr("Yes") ==> GetBool(k, d)
      ensures Get(k) == VStr("NO") ==> !GetBool(k, d)
    {
      LowerLiterals();
    }

    /**
     * GetStringSlice: for a list, the %v text of every element, in order and
     * of the same length; the default for a missing key or any other shape.
     */
    method GetStringSlice(k: string, d: seq<string>) returns (r: seq<string>)
      ensures Get(k).VList? ==>
        (|r| == |Get(k).items| && forall i :: 0 <= i < |r| ==> r[i] == Sprint(Get(k).items[i]))
      ensures !Get(k).VList? ==> r == d
    {
      var v := GetPath(k, VMap(settings));
      if v == VNil {
        return d;
      }
      if !v.VList? {
        return d;
      }
      var rv := v.items;
      var out := new string[|rv|](_ => "");
      var i := 0;
      while i < out.Length
        invariant 0 <= i <= out.Length
        invariant forall j :: 0 <= j < i ==> out[j] == Sprint(rv[j])
      {
        out[i] := Sprint(rv[i]);
        i := i + 1;
      }
      r := out[..];
    }

    /** GetMap: the map at k, or the default for a missing key or a non-map. */
    function GetMap(k: string, d: map<string, Value>): (r: map<string, Value>)
      reads this
      ensures Get(k).VMap? ==> r == Get(k).entries
      ensures !Get(k).VMap? ==> r == d
    {
      match Get(k)
      case VMap(m) => m
      case _ => d
    }

    /**
     * HasChanged: false until a reload has kept a previous generation; after
     * that, whether the value at k (all settings for "") differs. The source
     * compares YAML dumps; equal values dump equally.
     */
    function HasChanged(k: string): (r: bool)
      reads this
      ensures oldSettings.None? ==> !r
      ensures oldSettings.Some? && k == "" ==> (r <==> settings != oldSettings.value)
      ensures oldSettings.Some? && k != "" ==>
        (r <==> Lookup(Split(k, '.'), VMap(settings)) != Lookup(Split(k, '.'), VMap(oldSettings.value)))
    {
      match oldSettings
      case None => false
      case Some(prev) =>
        if k == "" then settings != prev
        else Lookup(Split(k, '.'), VMap(settings)) != Lookup(Split(k, '.'), VMap(prev))
    }

    /**
     * LoadString: an empty document is an error and changes nothing; otherwise
     * the outcome of the YAML parse (not modelled; passed in) replaces the
     * settings, or is returned as the error. A document that decodes to
     * nothing gives empty settings.
     */
    method LoadString(raw: string, parsed: Result<map<string, Value>, string>) returns (err: Option<string>)
      modifies this
      ensures raw == "" ==> err == Some("Empty configuration") && settings == old(settings)
      ensures raw != "" && parsed.Err? ==> err == Some(parsed.error) && settings == old(settings)
      ensures raw != "" && parsed.Ok? ==> err == None && settings == parsed.value
      ensures oldSettings == old(oldSettings)
    {
      if raw == "" {
        return Some("Empty configuration");
      }
      match parsed
      case Err(e) => err := Some(e);
      case Ok(m) =>
        settings := m;
        err := None;
    }
  }
}
