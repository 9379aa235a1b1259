/**
 * platform/platform_linux.go: finding the default interface in the text of
 * /proc/net/route.
 */
module PlatformLinux {
  import opened Wrappers
  import opened GoStrings
  import opened Strconv

  /** linuxRouteStruct: the eleven tab-separated columns of a route row. */
  datatype LinuxRoute = LinuxRoute(
    iface: string, destination: string, gateway: string, flags: string, refCnt: string,
    use: string, metric: string, mask: string, mtu: string, window: string, irtt: string)

  datatype RouteFileError =
    | InvalidRouteFile                        // no header line
    | ShortRow(row: string)                   // fewer than 11 fields
    | BadDestination(hex: string, row: string) // "0x" + field 1 does not parse
    | NoDefaultRoute                          // no row with destination 0

  const DestinationField := 1

  /** Whether a row names the default route, or why it cannot be read. */
  function RowDestinationIsDefault(row: string): (r: Result<bool, RouteFileError>)
    ensures r.Err? ==> r.error == ShortRow(row) || r.error.BadDestination?
  {
    var tokens := Split(row, '\t');
    if |tokens| < 11 then Err(ShortRow(row))
    else match ParseHexInt64(tokens[DestinationField])
      case None => Err(BadDestination("0x" + tokens[DestinationField], row))
      case Some(d) => Ok(d == 0)
  }

  function RouteOfRow(row: string): (r: LinuxRoute)
    requires |Split(row, '\t')| >= 11
    ensures r.iface == Split(row, '\t')[0] && r.destination == Split(row, '\t')[1]
  {
    var t := Split(row, '\t');
    LinuxRoute(t[0], t[1], t[2], t[3], t[4], t[5], t[6], t[7], t[8], t[9], t[10])
  }

  /** The data rows scanned in order: the first default row wins, the first bad row is an error. */
  function FirstDefaultRow(rows: seq<string>): Result<LinuxRoute, RouteFileError>
  {
    if |rows| == 0 then Err(NoDefaultRoute)
    else match RowDestinationIsDefault(rows[0])
      case Err(e) => Err(e)
      case Ok(isDefault) => if isDefault then Ok(RouteOfRow(rows[0])) else FirstDefaultRow(rows[1..])
  }

  /** parseToLinuxRouteStruct: the first scanned line is the header and is skipped. */
  function ParseToLinuxRouteStruct(output: string): (r: Result<LinuxRoute, RouteFileError>)
    ensures output == "" <==> r == Err(InvalidRouteFile)
  {
    var lines := ScanLines(output);
    if |lines| == 0 then Err(InvalidRouteFile)
    else
      var r := FirstDefaultRow(lines[1..]);
      assert r != Err(InvalidRouteFile) by { FirstDefaultRowNeverInvalid(lines[1..]); }
      r
  }

  /** parseLinuxGatewayIP: the interface of the default row. */
  function ParseLinuxGatewayIP(output: string): (r: Result<string, RouteFileError>)
    ensures ParseToLinuxRouteStruct(output).Ok? ==> r == Ok(ParseToLinuxRouteStruct(output).value.iface)
    ensures ParseToLinuxRouteStruct(output).Err? ==> r == Err(ParseToLinuxRouteStruct(output).error)
  {
    match ParseToLinuxRouteStruct(output)
    case Ok(s) => Ok(s.iface)
    case Err(e) => Err(e)
  }

  lemma {:induction false} FirstDefaultRowNeverInvalid(rows: seq<string>)
    ensures FirstDefaultRow(rows) != Err(InvalidRouteFile)
  {
    if |rows| > 0 && RowDestinationIsDefault(rows[0]) == Ok(false) {
      FirstDefaultRowNeverInvalid(rows[1..]);
    }
  }

  /** Rows before position j: well formed and not the default route. */
  predicate SkippedRows(rows: seq<string>, j: nat)
    requires j <= |rows|
  {
    forall k :: 0 <= k < j ==> RowDestinationIsDefault(rows[k]) == Ok(false)
  }

  /**
   * A found route is the first row whose destination parses as 0, all rows
   * before it well formed; its interface is that row's first field.
   */
  lemma {:induction false} FirstDefaultRowFound(rows: seq<string>) returns (j: nat)
    requires FirstDefaultRow(rows).Ok?
    ensures j < |rows| && SkippedRows(rows, j)
    ensures RowDestinationIsDefault(rows[j]) == Ok(true)
    ensures FirstDefaultRow(rows).value == RouteOfRow(rows[j])
    ensures FirstDefaultRow(rows).value.iface == Split(rows[j], '\t')[0]
  {
    if RowDestinationIsDefault(rows[0]) == Ok(true) {
      j := 0;
    } else {
      var k := FirstDefaultRowFound(rows[1..]);
      j := k + 1;
    }
  }

  /** A refused row is the first row that is short or has a bad destination. */
  lemma {:induction false} FirstDefaultRowRefused(rows: seq<string>) returns (j: nat)
    requires FirstDefaultRow(rows).Err? && FirstDefaultRow(rows).error != NoDefaultRoute
    ensures j < |rows| && SkippedRows(rows, j)
    ensures RowDestinationIsDefault(rows[j]) == Err(FirstDefaultRow(rows).error)
    ensures FirstDefaultRow(rows).error.ShortRow? ==> |Split(rows[j], '\t')| < 11
  {
    if RowDestinationIsDefault(rows[0]).Err? {
      j := 0;
    } else {
      var k := FirstDefaultRowRefused(rows[1..]);
      j := k + 1;
    }
  }

  /** No default route is reported exactly when every row is well formed and none is the default. */
  lemma {:induction false} NoDefaultRouteIff(rows: seq<string>)
    ensures FirstDefaultRow(rows) == Err(NoDefaultRoute) <==> SkippedRows(rows, |rows|)
  {
    if |rows| > 0 {
      NoDefaultRouteIff(rows[1..]);
      if RowDestinationIsDefault(rows[0]) == Ok(false) {
        if SkippedRows(rows[1..], |rows| - 1) {
          forall k | 0 <= k < |rows| ensures RowDestinationIsDefault(rows[k]) == Ok(false) {
            if k > 0 { assert rows[k] == rows[1..][k - 1]; }
          }
        }
        if SkippedRows(rows, |rows|) {
          forall k | 0 <= k < |rows| - 1 ensures RowDestinationIsDefault(rows[1..][k]) == Ok(false) {
            assert rows[1..][k] == rows[k + 1];
          }
        }
      } else {
        assert !SkippedRows(rows, |rows|) by {
          assert RowDestinationIsDefault(rows[0]) != Ok(false);
        }
      }
    }
  }

  /** Whatever the first line holds, it is never read as a route row. */
  lemma HeaderIgnored(header: string, rest: string)
    requires '\n' !in header
    ensures ParseToLinuxRouteStruct(header + "\n" + rest) == FirstDefaultRow(ScanLines(rest))
  {
    ScanLinesHead(header, rest);
    assert |header + "\n" + rest| > 0;
    var lines := ScanLines(header + "\n" + rest);
    assert lines[1..] == ScanLines(rest);
  }
}
