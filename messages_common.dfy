/**
 * messages/messages_common.go: the `key=value` settings text the router's
 * scripts print, the wireless settings read from it, and the parental-control
 * block list in both directions.
 */
module MessagesCommon {
  import opened Wrappers
  import opened GoStrings
  import NhUtil

  /** The key of one settings line: the text before its first '='. */
  function KeyOf(entry: string): string
  {
    Split(entry, '=')[0]
  }

  /** The value of one settings line: the text between its first and second '=', or "". */
  function ValueOf(entry: string): string
  {
    var pair := Split(entry, '=');
    if |pair| < 2 then "" else pair[1]
  }

  /** The map the lines build when each is stored in turn, later lines overriding earlier ones. */
  function SettingsOf(entries: seq<string>): map<string, string>
  {
    if |entries| == 0 then map[]
    else
      var last := entries[|entries| - 1];
      SettingsOf(entries[..|entries| - 1])[KeyOf(last) := ValueOf(last)]
  }

  /** A missing key reads as "", as indexing a Go map does. */
  function Lookup(m: map<string, string>, k: string): string
  {
    if k in m then m[k] else ""
  }

  /** parseSettings: one map entry per line of the text, split on '\n'. */
  method ParseSettings(settings: string) returns (m: map<string, string>)
    ensures m == SettingsOf(Split(settings, '\n'))
  {
    var entries := Split(settings, '\n');
    m := map[];
    var i := 0;
    while i < |entries|
      invariant i <= |entries|
      invariant m == SettingsOf(entries[..i])
    {
      var pair := Split(entries[i], '=');
      var key := pair[0];
      var value := if |pair| < 2 then "" else pair[1];
      assert entries[..i + 1][..i] == entries[..i];
      m := m[key := value];
      i := i + 1;
    }
    assert entries[..|entries|] == entries;
  }

  /** The keys of the settings map are exactly the keys of the lines. */
  lemma {:induction false} SettingsKeys(entries: seq<string>, k: string)
    ensures k in SettingsOf(entries) <==> exists i :: 0 <= i < |entries| && KeyOf(entries[i]) == k
  {
    if |entries| > 0 {
      var init := entries[..|entries| - 1];
      SettingsKeys(init, k);
      if exists i :: 0 <= i < |init| && KeyOf(init[i]) == k {
        var i :| 0 <= i < |init| && KeyOf(init[i]) == k;
        assert KeyOf(entries[i]) == k;
      }
      if exists i :: 0 <= i < |entries| && KeyOf(entries[i]) == k {
        var i :| 0 <= i < |entries| && KeyOf(entries[i]) == k;
        if i < |init| {
          assert KeyOf(init[i]) == k;
        }
      }
    }
  }

  /** The last line carrying a key decides its value. */
  lemma {:induction false} SettingsLastWins(entries: seq<string>, i: nat)
    requires i < |entries|
    requires forall j :: i < j < |entries| ==> KeyOf(entries[j]) != KeyOf(entries[i])
    ensures KeyOf(entries[i]) in SettingsOf(entries)
    ensures SettingsOf(entries)[KeyOf(entries[i])] == ValueOf(entries[i])
  {
    if i < |entries| - 1 {
      var init := entries[..|entries| - 1];
      assert init[i] == entries[i];
      SettingsLastWins(init, i);
    }
  }

  /** A line `k=v` with '='-free k and v stores v under k. */
  lemma EntryKeyValue(k: string, v: string)
    requires '=' !in k && '=' !in v
    ensures KeyOf(k + "=" + v) == k && ValueOf(k + "=" + v) == v
  {
    SplitHead(k, '=', v);
    SplitNoSep(v, '=');
  }

  /** Anything after a second '=' is dropped from the value. */
  lemma EntryExtraEquals(k: string, v: string, rest: string)
    requires '=' !in k && '=' !in v
    ensures KeyOf(k + "=" + v + "=" + rest) == k
    ensures ValueOf(k + "=" + v + "=" + rest) == v
  {
    SplitHead(k, '=', v + "=" + rest);
    SplitHead(v, '=', rest);
    assert k + "=" + v + "=" + rest == k + ['='] + (v + "=" + rest);
    assert v + "=" + rest == v + ['='] + rest;
  }

  /** A line without '=' is a key with the empty value; the empty line stores "" under "". */
  lemma EntryWithoutEquals(k: string)
    requires '=' !in k
    ensures KeyOf(k) == k && ValueOf(k) == ""
  {
    SplitNoSep(k, '=');
  }

  /**
   * get_wireless: the script's output without one trailing newline, or the
   * error status when the script fails. The error status is never empty, so
   * only an empty (or lone-newline) output reads as "no settings".
   */
  function GetWireless(out: Result<string, string>): (r: string)
    ensures out.Err? ==> r == NhUtil.ErrorStatusString(out.error)
    ensures r == "" <==> out.Ok? && (out.value == "" || out.value == "\n")
    ensures out.Ok? ==> r == out.value || r + "\n" == out.value
  {
    match out
    case Err(e) => NhUtil.ErrorStatusString(e)
    case Ok(s) => TrimNewline(s)
  }

  /** The settings keys Get_wireless_message copies, one per field of the wireless message. */
  const WIRELESS_KEYS: seq<string> := [
    "ssid2", "ssid5", "ssid52", "key2", "key5", "key52",
    "gssid2", "gssid5", "gssid52", "gkey2", "gkey5", "gkey52",
    "disabled2", "disabled5", "disabled52", "gdisabled2", "gdisabled5", "gdisabled52",
    "meshid", "meshkey", "chan2", "chan51", "chan52", "chan6",
    "chanwidth2", "chanwidth51", "chanwidth52", "chanwidth6",
    "encryption", "gencryption", "fwupdate", "fwversion", "model", "uptime"]

  /**
   * Get_wireless_message over the text get_wireless returned: an error on
   * empty text, otherwise each wireless field (named by its settings key)
   * read from the parsed settings, "" when the key is missing.
   */
  method GetWirelessMessage(settings: string) returns (r: Result<map<string, string>, string>)
    ensures r.Err? <==> settings == ""
    ensures r.Err? ==> r.error == "Error while getting wireless settings"
    ensures r.Ok? ==> r.value.Keys == set k | k in WIRELESS_KEYS
    ensures r.Ok? ==> forall k :: k in WIRELESS_KEYS ==>
      r.value[k] == Lookup(SettingsOf(Split(settings, '\n')), k)
  {
    if settings == "" {
      return Err("Error while getting wireless settings");
    }
    var m := ParseSettings(settings);
    r := Ok(map k | k in WIRELESS_KEYS :: Lookup(m, k));
  }

  /** A failing wireless script still yields settings: its error status, read as one line. */
  lemma FailedWirelessScriptIsOneLine(e: string)
    ensures Split(GetWireless(Err(e)), '\n') == [NhUtil.ErrorStatusString(e)]
  {
    SplitNoSep(NhUtil.ErrorStatusString(e), '\n');
  }

  /** One row of the block list: a category and its "block<category>" setting. */
  datatype BlockEntry = BlockEntry(domain: string, blocked: string)

  /** The sixteen categories get_blocklist reports, in its order. */
  const BLOCK_DOMAINS: seq<string> := [
    "malware", "adult", "amongus", "banuba", "facebook", "instagram", "parlor", "roblox",
    "snapchat", "tellonym", "tiktok", "tinder", "youtube", "zoomerang", "discord", "fifamobile"]

  /**
   * get_blocklist over the block-list command's output: the error status on
   * empty output, otherwise exactly sixteen entries in the fixed order, each
   * blocked value read from "block" + category.
   */
  method GetBlocklist(output: string) returns (r: Result<seq<BlockEntry>, string>)
    ensures r.Err? <==> output == ""
    ensures r.Err? ==> r.error == NhUtil.ErrorStatusString("Error while getting blocklist settings")
    ensures r.Ok? ==> |r.value| == 16 && forall i :: 0 <= i < 16 ==>
      r.value[i].domain == BLOCK_DOMAINS[i]
      && r.value[i].blocked == Lookup(SettingsOf(Split(output, '\n')), "block" + BLOCK_DOMAINS[i])
  {
    if output == "" {
      return Err(NhUtil.ErrorStatusString("Error while getting blocklist settings"));
    }
    var m := ParseSettings(output);
    r := Ok(seq(16, i requires 0 <= i < 16 => BlockEntry(BLOCK_DOMAINS[i], Lookup(m, "block" + BLOCK_DOMAINS[i]))));
  }

  /** Reads an argument list back as (domain, blocked) pairs. */
  function EntriesOfArgs(args: seq<string>): (r: seq<BlockEntry>)
    requires |args| % 2 == 0
    ensures |r| == |args| / 2
  {
    if |args| == 0 then [] else [BlockEntry(args[0], args[1])] + EntriesOfArgs(args[2..])
  }

  /**
   * set_blocklist's argument building: the domain and blocked value of each
   * entry in turn, so reading the arguments back in pairs gives the entries.
   */
  method SetBlocklistArgs(domains: seq<BlockEntry>) returns (args: seq<string>)
    ensures |args| == 2 * |domains|
    ensures forall i :: 0 <= i < |domains| ==>
      args[2 * i] == domains[i].domain && args[2 * i + 1] == domains[i].blocked
    ensures EntriesOfArgs(args) == domains
  {
    var a := new string[2 * |domains|];
    var i := 0;
    while i < |domains|
      invariant i <= |domains|
      invariant forall j :: 0 <= j < i ==> a[2 * j] == domains[j].domain && a[2 * j + 1] == domains[j].blocked
    {
      a[2 * i] := domains[i].domain;
      a[2 * i + 1] := domains[i].blocked;
      i := i + 1;
    }
    args := a[..];
    PairsRead(args, domains);
  }

  lemma {:induction false} PairsRead(args: seq<string>, domains: seq<BlockEntry>)
    requires |args| == 2 * |domains|
    requires forall i :: 0 <= i < |domains| ==>
      args[2 * i] == domains[i].domain && args[2 * i + 1] == domains[i].blocked
    ensures EntriesOfArgs(args) == domains
  {
    if |domains| > 0 {
      assert forall i :: 0 <= i < |domains[1..]| ==>
        args[2..][2 * i] == args[2 * (i + 1)] && args[2..][2 * i + 1] == args[2 * (i + 1) + 1];
      PairsRead(args[2..], domains[1..]);
      assert domains == [domains[0]] + domains[1..];
    }
  }
}
