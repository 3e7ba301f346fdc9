/** The messages of the greetd IPC protocol and the one socket round trip
    every client request makes. The framing and JSON codec belong to the
    `greetd_ipc` crate and are not modelled: the daemon side of a round trip
    is an oracle, an `Exchange`, saying whether writing the request failed,
    reading the reply failed, or which reply came back. */
module GreetdIpc {
  import opened Wrappers

  datatype AuthMessageType = Visible | Secret | Info | Error

  datatype ErrorType = AuthError | Error

  datatype Request =
    | CreateSession(username: string)
    | PostAuthMessageResponse(response: Option<string>)
    | StartSession(cmd: seq<string>, env: seq<string>)
    | CancelSession

  datatype Response =
    | Success
    | AuthMessage(authMessageType: AuthMessageType, authMessage: string)
    | Error(errorType: ErrorType, description: string)

  /** `greetd_ipc::codec::Error`: the I/O error `NotConnected` that a client
      without a socket reports, or any other I/O or decoding failure. */
  datatype TransportError = NotConnected | Io(reason: string) | Codec(reason: string)

  type GreetdResult = Result<Response, TransportError>

  /** What the daemon's socket does with one request. */
  datatype Exchange =
    | WriteFailed(writeError: TransportError)
    | ReadFailed(readError: TransportError)
    | Replied(response: Response)

  /** `socket()?`, `request.write_to(socket)?`, `Response::read_from(socket)`:
      the requests that reach the socket (`sent`) and what the client gets
      back. Without a socket nothing is written and the result is the
      NotConnected error. */
  function RoundTrip(connected: bool, request: Request, ex: Exchange): (r: (seq<Request>, GreetdResult))
    ensures !connected ==> r == ([], Err(NotConnected))
    ensures r.1.Ok? <==> connected && ex.Replied?
    // the client returns the daemon's reply unchanged
    ensures connected && ex.Replied? ==> r == ([request], Ok(ex.response))
    // a failed write sends nothing; a failed read comes after the request was sent
    ensures connected && ex.WriteFailed? ==> r == ([], Err(ex.writeError))
    ensures connected && ex.ReadFailed? ==> r == ([request], Err(ex.readError))
    ensures r.0 == [] || r.0 == [request]
    ensures r.0 == [] ==> r.1.Err?
  {
    if !connected then ([], Err(NotConnected))
    else match ex
      case WriteFailed(e) => ([], Err(e))
      case ReadFailed(e) => ([request], Err(e))
      case Replied(resp) => ([request], Ok(resp))
  }
}
