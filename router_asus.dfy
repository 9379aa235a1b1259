/**
 * router/router_asus.go: client database file names, the argument lists of
 * the pause scripts, and the signal-quality bands.
 */
module RouterAsus {
  import opened GoStrings

  const DB_CLIENTS_LOCATION := "/jffs/nearhop/clients/"

  const SIGNAL_QUALITY_EXCELLENT: int := 0
  const SIGNAL_QUALITY_GOOD: int := 1
  const SIGNAL_QUALITY_AVERAGE: int := 2

  /**
   * getFileName: the client directory followed by the MAC address with every
   * ':' turned into '_'; nothing else of the address changes.
   */
  function GetFileName(mac: string): (r: string)
    ensures |r| == |DB_CLIENTS_LOCATION| + |mac|
    ensures r[..|DB_CLIENTS_LOCATION|] == DB_CLIENTS_LOCATION
    ensures forall i :: 0 <= i < |mac| ==>
      r[|DB_CLIENTS_LOCATION| + i] == (if mac[i] == ':' then '_' else mac[i])
    ensures ':' !in r
  {
    DB_CLIENTS_LOCATION + ReplaceChar(mac, ':', '_')
  }

  /** Two MAC addresses without '_' get the same file exactly when they are equal. */
  lemma FileNamesDistinct(mac1: string, mac2: string)
    requires '_' !in mac1 && '_' !in mac2
    ensures GetFileName(mac1) == GetFileName(mac2) <==> mac1 == mac2
  {
    if GetFileName(mac1) == GetFileName(mac2) {
      var n := |DB_CLIENTS_LOCATION|;
      assert |mac1| == |mac2|;
      forall i | 0 <= i < |mac1| ensures mac1[i] == mac2[i] {
        assert GetFileName(mac1)[n + i] == GetFileName(mac2)[n + i];
        assert mac1[i] in mac1 && mac2[i] in mac2;
      }
    }
  }

  /** The "1"/"0" flag the scripts take. */
  function PauseFlag(pause: bool): (f: string)
    ensures f == "1" <==> pause
    ensures f == "0" <==> !pause
  {
    if pause then "1" else "0"
  }

  /** pauseClient: the four script arguments mac, ip, flag, name. */
  function PauseClientArgs(mac: string, ip: string, name: string, pause: bool): (args: seq<string>)
    ensures |args| == 4 && args[0] == mac && args[1] == ip && args[3] == name
    ensures args[2] == "1" <==> pause
    ensures args[2] == "0" <==> !pause
  {
    [mac, ip, PauseFlag(pause), name]
  }

  /** pauseAll: the single flag argument. */
  function PauseAllArgs(pause: bool): (args: seq<string>)
    ensures |args| == 1
    ensures args[0] == "1" <==> pause
    ensures args[0] == "0" <==> !pause
  {
    [PauseFlag(pause)]
  }

  /** getSignalQuality: three bands by RSSI, the boundary values falling into the lower band. */
  function GetSignalQuality(rssi: int): (q: int)
    ensures q == SIGNAL_QUALITY_EXCELLENT <==> rssi > -40
    ensures q == SIGNAL_QUALITY_GOOD <==> -75 < rssi <= -40
    ensures q == SIGNAL_QUALITY_AVERAGE <==> rssi <= -75
  {
    if rssi > -40 then SIGNAL_QUALITY_EXCELLENT
    else if rssi > -75 then SIGNAL_QUALITY_GOOD
    else SIGNAL_QUALITY_AVERAGE
  }

  /** A stronger signal never lands in a worse band. */
  lemma SignalQualityMonotone(a: int, b: int)
    requires a <= b
    ensures GetSignalQuality(b) <= GetSignalQuality(a)
  {
  }
}
