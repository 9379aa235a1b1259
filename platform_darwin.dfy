/** platform/platform_darwin.go: the interface line of `route -n get` output. */
module PlatformDarwin {
  import opened Wrappers
  import opened GoStrings

  /** The interface a line names, if its first field is exactly "interface:" and it has a second one. */
  function LineInterface(line: string): (r: Option<string>)
    ensures r.Some? <==> |Fields(line)| >= 2 && Fields(line)[0] == "interface:"
    ensures r.Some? ==> r.value == Fields(line)[1] && |r.value| > 0
  {
    var fields := Fields(line);
    if |fields| >= 2 && fields[0] == "interface:" then Some(fields[1]) else None
  }

  function FirstInterface(lines: seq<string>): Option<string>
  {
    if |lines| == 0 then None
    else if LineInterface(lines[0]).Some? then LineInterface(lines[0])
    else FirstInterface(lines[1..])
  }

  /** parseDarwinRouteGet: the first matching line of the output split on '\n', or "No interface". */
  function ParseDarwinRouteGet(output: string): (r: Result<string, string>)
    ensures r.Err? ==> r.error == "No interface"
  {
    match FirstInterface(Split(output, '\n'))
    case Some(name) => Ok(name)
    case None => Err("No interface")
  }

  /** A result comes from the first line that matches; no earlier line matches. */
  lemma {:induction false} FirstInterfaceFound(lines: seq<string>) returns (j: nat)
    requires FirstInterface(lines).Some?
    ensures j < |lines| && LineInterface(lines[j]) == FirstInterface(lines)
    ensures forall k :: 0 <= k < j ==> LineInterface(lines[k]).None?
  {
    if LineInterface(lines[0]).Some? {
      j := 0;
    } else {
      var k := FirstInterfaceFound(lines[1..]);
      j := k + 1;
    }
  }

  /** "No interface" exactly when no line matches. */
  lemma {:induction false} NoInterfaceIff(lines: seq<string>)
    ensures FirstInterface(lines).None? <==> forall k :: 0 <= k < |lines| ==> LineInterface(lines[k]).None?
  {
    if |lines| > 0 {
      NoInterfaceIff(lines[1..]);
      assert forall k :: 0 < k < |lines| ==> lines[k] == lines[1..][k - 1];
    }
  }

  /** Indentation and trailing blanks around a line do not change what it names. */
  lemma SurroundingSpaceIrrelevant(w1: string, line: string, w2: string)
    requires AllSpace(w1) && AllSpace(w2)
    ensures LineInterface(w1 + line + w2) == LineInterface(line)
  {
    FieldsIgnoreSurroundingSpace(w1, line, w2);
  }
}
