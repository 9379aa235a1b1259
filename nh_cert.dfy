/**
 * nh_cert.go: the throttle on certificate sign requests and the two-shape
 * reading of a sign response.
 */
module NhCert {
  import opened Wrappers
  import opened GoTypes

  datatype ServerEntry = ServerEntry(serverPvtIP: string, serverIP: string, port: string, id: string)

  datatype Certs = Certs(
    errorMessage: string, ca: string, cert: string, deviceIp: string,
    servers: seq<ServerEntry>, token: string, deviceId: string)

  datatype SignMessage = SignMessage(status: int64, message: Certs)

  datatype SignErrorMessage = SignErrorMessage(status: int64, message: string)

  /**
   * The minimum seconds between two sign requests for one network; a request
   * made exactly this long ago still holds the next one back.
   */
  const SIGN_REQUEST_INTERVAL: int64 := 5

  /**
   * shallSendSignRequest: the time of the last request for the network (0
   * when none was recorded) against the current Unix time `now`.
   */
  function ShallSendSignRequest(signRequest: map<uint64, int64>, networkID: uint64, now: int64): (r: bool)
    ensures networkID !in signRequest ==> r
    ensures networkID in signRequest && signRequest[networkID] == 0 ==> r
    ensures networkID in signRequest && signRequest[networkID] != 0
      ==> (r <==> SubI64(now, signRequest[networkID]) > SIGN_REQUEST_INTERVAL)
  {
    var lastSignRequest := if networkID in signRequest then signRequest[networkID] else 0;
    if lastSignRequest == 0 then true
    else SubI64(now, lastSignRequest) > SIGN_REQUEST_INTERVAL
  }

  /**
   * For real timestamps (a recorded request at or before now), a new request
   * goes out exactly when more than five seconds have passed.
   */
  lemma SignRequestThrottle(signRequest: map<uint64, int64>, networkID: uint64, now: int64)
    requires networkID in signRequest && 0 < signRequest[networkID] <= now
    ensures ShallSendSignRequest(signRequest, networkID, now) <==> now - signRequest[networkID] > 5
    ensures now - signRequest[networkID] <= 5 ==> !ShallSendSignRequest(signRequest, networkID, now)
  {
  }

  /**
   * parseSignResponse: the response is read as a SignMessage; if that
   * fails it is read as a SignErrorMessage, whose status and message are
   * copied into what the first decode left behind. Only when both decodes
   * fail is there an error, the second decode's.
   */
  function ParseSignResponse(first: Result<SignMessage, DecodeFailure<SignMessage>>,
                             second: Result<SignErrorMessage, string>): (r: Result<SignMessage, string>)
    ensures r.Err? <==> first.Err? && second.Err?
    ensures first.Ok? ==> r == Ok(first.value)
    ensures first.Err? && second.Ok? ==> (r.Ok?
      && r.value.status == second.value.status
      && r.value.message.errorMessage == second.value.message
      && r.value.message.(errorMessage := "") == first.error.partial.message.(errorMessage := ""))
    ensures first.Err? && second.Err? ==> r == Err(second.error)
  {
    match first
    case Ok(m) => Ok(m)
    case Err(failure) =>
      match second
      case Err(e) => Err(e)
      case Ok(em) =>
        var m := failure.partial;
        Ok(m.(status := em.status, message := m.message.(errorMessage := em.message)))
  }
}
