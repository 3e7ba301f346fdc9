/** The greetd login-protocol client of the newer greeter
    (crates/greeters/src/greeters/greetd/client.rs). It makes no local
    legality checks: every request goes to the daemon. It keeps three lists
    of callbacks (show_prompt, show_message, authentication_complete) and
    notifies them from the daemon's replies. */
module GreetersClient {
  import opened Wrappers
  import opened GreetdIpc

  datatype AuthStatus = NotStarted | InAuthentication | Authenticated

  /** A registered callback, known only by identity. */
  type Handler = nat

  datatype SignalKind = ShowPrompt | ShowMessage | AuthenticationComplete

  /** One invocation of a callback with its arguments. */
  datatype Call = Call(signal: SignalKind, handler: Handler, args: seq<string>)

  /** The observable state of a client: socket presence, user, status, the
      three callback lists, the requests written to the socket and every
      callback invocation so far, in order. */
  datatype State = State(
    connected: bool,
    authUser: Option<string>,
    status: AuthStatus,
    showPrompt: seq<Handler>,
    showMessage: seq<Handler>,
    authenticationComplete: seq<Handler>,
    wire: seq<Request>,
    calls: seq<Call>)

  const StartPanic := "greetd responded with auth request after requesting session start."
  const CancelPanic := "greetd resonded with auth request after requesting session cancellation."

  /** The text a prompt notification carries for each auth message kind. */
  function AuthMessageLabel(t: AuthMessageType): (r: string)
    ensures r in {"Visible", "Secret", "Info", "Error"}
  {
    match t
    case Visible => "Visible"
    case Secret => "Secret"
    case Info => "Info"
    case Error => "Error"
  }

  /** The text a message notification carries for each error kind. */
  function ErrorLabel(t: ErrorType): (r: string)
    ensures r in {"AuthError", "Error"}
  {
    match t
    case AuthError => "AuthError"
    case Error => "Error"
  }

  /** Distinct kinds give distinct labels, so a callback can tell them apart. */
  lemma LabelsDistinguishKinds(t: AuthMessageType, u: AuthMessageType, e: ErrorType, f: ErrorType)
    ensures AuthMessageLabel(t) == AuthMessageLabel(u) ==> t == u
    ensures ErrorLabel(e) == ErrorLabel(f) ==> e == f
  {
  }

  /** `emit_*`: every handler of the list is called once, in registration
      order, with the same arguments. */
  function Fanout(handlers: seq<Handler>, signal: SignalKind, args: seq<string>): (r: seq<Call>)
    ensures |r| == |handlers|
    ensures forall i :: 0 <= i < |r| ==> r[i] == Call(signal, handlers[i], args)
  {
    seq(|handlers|, i requires 0 <= i < |handlers| => Call(signal, handlers[i], args))
  }

  function Initial(greetdSock: Option<string>, listening: set<string>): (s: State)
    ensures s.status == NotStarted && s.authUser == None
    ensures s.showPrompt == [] && s.showMessage == [] && s.authenticationComplete == []
    ensures s.wire == [] && s.calls == []
    ensures s.connected <==> greetdSock.Some? && greetdSock.value in listening
  {
    State(greetdSock.Some? && greetdSock.value in listening, None, NotStarted, [], [], [], [], [])
  }

  function EmitStep(s: State, signal: SignalKind, args: seq<string>): State {
    var hs := match signal
      case ShowPrompt => s.showPrompt
      case ShowMessage => s.showMessage
      case AuthenticationComplete => s.authenticationComplete;
    s.(calls := s.calls + Fanout(hs, signal, args))
  }

  /** `set_auth_status`: every authentication_complete callback runs each
      time the new status is Authenticated, whatever the old status was. */
  function SetAuthStatusStep(s: State, status: AuthStatus): (t: State)
    ensures t.status == status && t.authUser == s.authUser && t.wire == s.wire
    ensures status == Authenticated ==>
      t.calls == s.calls + Fanout(s.authenticationComplete, AuthenticationComplete, [])
    ensures status != Authenticated ==> t.calls == s.calls
  {
    var t := s.(status := status);
    if status == Authenticated then EmitStep(t, AuthenticationComplete, []) else t
  }

  /** The notification an Error reply produces: one show_message emission. */
  function ErrorNotice(s: State, res: GreetdResult): State {
    if res.Ok? && res.value.Error? then
      EmitStep(s, ShowMessage, [ErrorLabel(res.value.errorType), res.value.description])
    else s
  }

  /** `create_session`. */
  function CreateSessionStep(s: State, username: string, ex: Exchange): (r: (State, GreetdResult))
    ensures r.1.Err? ==> r.0 == s.(wire := r.0.wire)
    ensures r.1 == Ok(Success) ==>
      r.0.status == Authenticated && r.0.authUser == Some(username)
      && r.0.calls == s.calls + Fanout(s.authenticationComplete, AuthenticationComplete, [])
    ensures r.1.Ok? && r.1.value.AuthMessage? ==>
      r.0.status == InAuthentication && r.0.authUser == Some(username)
      && r.0.calls == s.calls + Fanout(s.showPrompt, ShowPrompt,
                                       [AuthMessageLabel(r.1.value.authMessageType), r.1.value.authMessage])
    ensures r.1.Ok? && r.1.value.Error? ==>
      r.0.status == s.status && r.0.authUser == s.authUser
      && r.0.calls == s.calls + Fanout(s.showMessage, ShowMessage,
                                       [ErrorLabel(r.1.value.errorType), r.1.value.description])
    ensures r.0.wire == s.wire || r.0.wire == s.wire + [Request.CreateSession(username)]
    // the result is the round trip's and the request is sent as it says
    ensures var (sent, res) := RoundTrip(s.connected, Request.CreateSession(username), ex);
      r.1 == res && r.0.wire == s.wire + sent
    // the socket and the three callback lists are kept
    ensures r.0.connected == s.connected && r.0.showPrompt == s.showPrompt
      && r.0.showMessage == s.showMessage && r.0.authenticationComplete == s.authenticationComplete
  {
    var (sent, res) := RoundTrip(s.connected, Request.CreateSession(username), ex);
    var s1 := s.(wire := s.wire + sent);
    match res
    case Ok(Success) =>
      (SetAuthStatusStep(s1.(authUser := Some(username)), Authenticated), res)
    case Ok(AuthMessage(t, text)) =>
      var s2 := SetAuthStatusStep(s1.(authUser := Some(username)), InAuthentication);
      (EmitStep(s2, ShowPrompt, [AuthMessageLabel(t), text]), res)
    case _ => (ErrorNotice(s1, res), res)
  }

  /** `post_response`. */
  function PostResponseStep(s: State, response: Option<string>, ex: Exchange): (r: (State, GreetdResult))
    ensures r.0.authUser == s.authUser
    ensures r.1 == Ok(Success) ==>
      r.0.status == Authenticated && r.0.calls == s.calls + Fanout(s.authenticationComplete, AuthenticationComplete, [])
    ensures r.1 != Ok(Success) ==> r.0.status == s.status
    ensures r.1.Ok? && r.1.value.AuthMessage? ==>
      r.0.calls == s.calls + Fanout(s.showPrompt, ShowPrompt,
                                    [AuthMessageLabel(r.1.value.authMessageType), r.1.value.authMessage])
    ensures r.1.Ok? && r.1.value.Error? ==>
      r.0.calls == s.calls + Fanout(s.showMessage, ShowMessage,
                                    [ErrorLabel(r.1.value.errorType), r.1.value.description])
    ensures r.1.Err? ==> r.0 == s.(wire := r.0.wire)
    ensures r.0.wire == s.wire || r.0.wire == s.wire + [PostAuthMessageResponse(response)]
    ensures var (sent, res) := RoundTrip(s.connected, PostAuthMessageResponse(response), ex);
      r.1 == res && r.0.wire == s.wire + sent
    // the socket and the three callback lists are kept
    ensures r.0.connected == s.connected && r.0.showPrompt == s.showPrompt
      && r.0.showMessage == s.showMessage && r.0.authenticationComplete == s.authenticationComplete
  {
    var (sent, res) := RoundTrip(s.connected, PostAuthMessageResponse(response), ex);
    var s1 := s.(wire := s.wire + sent);
    match res
    case Ok(Success) => (SetAuthStatusStep(s1, Authenticated), res)
    case Ok(AuthMessage(t, text)) => (EmitStep(s1, ShowPrompt, [AuthMessageLabel(t), text]), res)
    case _ => (ErrorNotice(s1, res), res)
  }

  /** `start_session`: a Success reply changes nothing; an AuthMessage reply
      is `unimplemented!`. */
  function StartSessionStep(s: State, cmd: seq<string>, env: seq<string>, ex: Exchange): (r: (State, Outcome<GreetdResult>))
    ensures r.0.status == s.status && r.0.authUser == s.authUser
    ensures r.1.Panic? <==> s.connected && ex.Replied? && ex.response.AuthMessage?
    ensures r.1 == Value(Ok(Success)) ==> r.0 == s.(wire := r.0.wire)
    ensures r.1.Value? && r.1.value.Err? ==> r.0 == s.(wire := r.0.wire)
    ensures r.1.Value? && r.1.value.Ok? && r.1.value.value.Error? ==>
      r.0.calls == s.calls + Fanout(s.showMessage, ShowMessage,
                                    [ErrorLabel(r.1.value.value.errorType), r.1.value.value.description])
    ensures r.0.wire == s.wire || r.0.wire == s.wire + [Request.StartSession(cmd, env)]
    ensures var (sent, res) := RoundTrip(s.connected, Request.StartSession(cmd, env), ex);
      r.0.wire == s.wire + sent && (r.1.Value? ==> r.1.value == res)
    ensures r.1.Panic? ==> r.0 == s.(wire := r.0.wire)
    // the socket and the three callback lists are kept
    ensures r.0.connected == s.connected && r.0.showPrompt == s.showPrompt
      && r.0.showMessage == s.showMessage && r.0.authenticationComplete == s.authenticationComplete
  {
    var (sent, res) := RoundTrip(s.connected, Request.StartSession(cmd, env), ex);
    var s1 := s.(wire := s.wire + sent);
    if res.Ok? && res.value.AuthMessage? then (s1, Panic(StartPanic))
    else (ErrorNotice(s1, res), Value(res))
  }

  /** `cancel_session`: the status and the user are reset BEFORE the socket
      is used, so the reset holds whatever the round trip does. */
  function CancelSessionStep(s: State, ex: Exchange): (r: (State, Outcome<GreetdResult>))
    ensures r.0.status == NotStarted && r.0.authUser == None
    ensures r.1.Panic? <==> s.connected && ex.Replied? && ex.response.AuthMessage?
    ensures r.1.Value? && r.1.value.Ok? && r.1.value.value.Error? ==>
      r.0.calls == s.calls + Fanout(s.showMessage, ShowMessage,
                                    [ErrorLabel(r.1.value.value.errorType), r.1.value.value.description])
    ensures !(r.1.Value? && r.1.value.Ok? && r.1.value.value.Error?) ==> r.0.calls == s.calls
    ensures r.0.wire == s.wire || r.0.wire == s.wire + [Request.CancelSession]
    ensures var (sent, res) := RoundTrip(s.connected, Request.CancelSession, ex);
      r.0.wire == s.wire + sent && (r.1.Value? ==> r.1.value == res)
    // the socket and the three callback lists are kept
    ensures r.0.connected == s.connected && r.0.showPrompt == s.showPrompt
      && r.0.showMessage == s.showMessage && r.0.authenticationComplete == s.authenticationComplete
  {
    var s1 := SetAuthStatusStep(s, NotStarted).(authUser := None);
    var (sent, res) := RoundTrip(s1.connected, Request.CancelSession, ex);
    var s2 := s1.(wire := s1.wire + sent);
    if res.Ok? && res.value.AuthMessage? then (s2, Panic(CancelPanic))
    else (ErrorNotice(s2, res), Value(res))
  }

  /** With a socket, the daemon's reply decides create_session: it is
      returned as it is; Success authenticates the user and fires the
      completion callbacks, a prompt starts the flow and is relayed, and an
      Error is relayed with status and user kept. */
  lemma DaemonReplyDecides(s: State, username: string, resp: Response)
    requires s.connected
    ensures var (t, res) := CreateSessionStep(s, username, Replied(resp));
      res == Ok(resp) && t.wire == s.wire + [Request.CreateSession(username)]
      && (resp == Success ==>
            (t.status == Authenticated && t.authUser == Some(username)
             && t.calls == s.calls + Fanout(s.authenticationComplete, AuthenticationComplete, [])))
      && (resp.AuthMessage? ==>
            (t.status == InAuthentication && t.authUser == Some(username)
             && t.calls == s.calls + Fanout(s.showPrompt, ShowPrompt, [AuthMessageLabel(resp.authMessageType), resp.authMessage])))
      && (resp.Error? ==>
            (t.status == s.status && t.authUser == s.authUser
             && t.calls == s.calls + Fanout(s.showMessage, ShowMessage, [ErrorLabel(resp.errorType), resp.description])))
  {
  }

  /** Unlike the guarded client, this one fires authentication_complete again
      when a second Success arrives while already Authenticated, and it can
      become Authenticated with no user at all when the daemon answers a
      response posted before any session was created. */
  lemma RepeatedSuccessFiresAgain(s: State, ex: Exchange)
    requires s.status == Authenticated && s.connected && ex == Replied(Success)
    ensures var t := PostResponseStep(s, None, ex).0;
      t.status == Authenticated && |t.calls| == |s.calls| + |s.authenticationComplete|
  {
  }

  lemma AuthenticatedWithoutUser(s: State)
    requires s == Initial(Some("/run/greetd.sock"), {"/run/greetd.sock"})
    ensures var t := PostResponseStep(s, Some("pw"), Replied(Success)).0;
      t.status == Authenticated && t.authUser == None
  {
  }

  /** The client object; each method is specified by the function above of
      the same name with "Step" appended. */
  class Client {
    var connected: bool
    var authUser: Option<string>
    var authStatus: AuthStatus
    var showPrompt: seq<Handler>
    var showMessage: seq<Handler>
    var authenticationComplete: seq<Handler>
    var wire: seq<Request>
    var calls: seq<Call>

    function Snapshot(): State
      reads this
    {
      State(connected, authUser, authStatus, showPrompt, showMessage, authenticationComplete, wire, calls)
    }

    constructor (greetdSock: Option<string>, listening: set<string>)
      ensures Snapshot() == Initial(greetdSock, listening)
    {
      connected := greetdSock.Some? && greetdSock.value in listening;
      authUser := None;
      authStatus := NotStarted;
      showPrompt, showMessage, authenticationComplete := [], [], [];
      wire := [];
      calls := [];
    }

    method ConnectShowPrompt(h: Handler)
      modifies this
      ensures Snapshot() == old(Snapshot()).(showPrompt := old(showPrompt) + [h])
    {
      showPrompt := showPrompt + [h];
    }

    method ConnectShowMessage(h: Handler)
      modifies this
      ensures Snapshot() == old(Snapshot()).(showMessage := old(showMessage) + [h])
    {
      showMessage := showMessage + [h];
    }

    method ConnectAuthenticationComplete(h: Handler)
      modifies this
      ensures Snapshot() == old(Snapshot()).(authenticationComplete := old(authenticationComplete) + [h])
    {
      authenticationComplete := authenticationComplete + [h];
    }

    /** The `for_each` over one callback list. */
    method Fire(handlers: seq<Handler>, signal: SignalKind, args: seq<string>)
      modifies this
      ensures Snapshot() == old(Snapshot()).(calls := old(calls) + Fanout(handlers, signal, args))
    {
      var i := 0;
      while i < |handlers|
        invariant 0 <= i <= |handlers|
        invariant Snapshot() == old(Snapshot()).(calls := old(calls) + Fanout(handlers[..i], signal, args))
      {
        assert Fanout(handlers[..i + 1], signal, args) == Fanout(handlers[..i], signal, args) + [Call(signal, handlers[i], args)];
        calls := calls + [Call(signal, handlers[i], args)];
        i := i + 1;
      }
      assert handlers[..i] == handlers;
    }

    method EmitShowPrompt(kind: string, text: string)
      modifies this
      ensures Snapshot() == EmitStep(old(Snapshot()), ShowPrompt, [kind, text])
    {
      Fire(showPrompt, ShowPrompt, [kind, text]);
    }

    method EmitShowMessage(kind: string, text: string)
      modifies this
      ensures Snapshot() == EmitStep(old(Snapshot()), ShowMessage, [kind, text])
    {
      Fire(showMessage, ShowMessage, [kind, text]);
    }

    method EmitAuthenticationComplete()
      modifies this
      ensures Snapshot() == EmitStep(old(Snapshot()), AuthenticationComplete, [])
    {
      Fire(authenticationComplete, AuthenticationComplete, []);
    }

    method SetAuthStatus(status: AuthStatus)
      modifies this
      ensures Snapshot() == SetAuthStatusStep(old(Snapshot()), status)
    {
      authStatus := status;
      if authStatus == Authenticated && authenticationComplete != [] {
        EmitAuthenticationComplete();
      }
    }

    /** `authentication_user`, `in_authentication`, `is_authenticated`:
        what the page can query of the client. */
    function AuthenticationUser(): (r: Option<string>)
      reads this
      ensures r == Snapshot().authUser
    {
      authUser
    }

    predicate InAuthentication()
      reads this
      ensures InAuthentication() <==> Snapshot().status == AuthStatus.InAuthentication
    {
      authStatus == AuthStatus.InAuthentication
    }

    predicate IsAuthenticated()
      reads this
      ensures IsAuthenticated() <==> Snapshot().status == Authenticated
    {
      authStatus == Authenticated
    }

    /** The `Response::Error` arm shared by the four requests. */
    method NotifyError(res: GreetdResult)
      modifies this
      ensures Snapshot() == ErrorNotice(old(Snapshot()), res)
    {
      if res.Ok? && res.value.Error? {
        EmitShowMessage(ErrorLabel(res.value.errorType), res.value.description);
      }
    }

    method CreateSession(username: string, ex: Exchange) returns (r: GreetdResult)
      modifies this
      ensures (Snapshot(), r) == CreateSessionStep(old(Snapshot()), username, ex)
    {
      var (sent, res) := RoundTrip(connected, Request.CreateSession(username), ex);
      wire := wire + sent;
      r := res;
      match res {
        case Ok(Success) =>
          authUser := Some(username);
          SetAuthStatus(Authenticated);
        case Ok(AuthMessage(t, text)) =>
          authUser := Some(username);
          SetAuthStatus(AuthStatus.InAuthentication);
          EmitShowPrompt(AuthMessageLabel(t), text);
        case _ =>
          NotifyError(res);
      }
    }

    method PostResponse(response: Option<string>, ex: Exchange) returns (r: GreetdResult)
      modifies this
      ensures (Snapshot(), r) == PostResponseStep(old(Snapshot()), response, ex)
    {
      var (sent, res) := RoundTrip(connected, PostAuthMessageResponse(response), ex);
      wire := wire + sent;
      r := res;
      match res {
        case Ok(Success) => SetAuthStatus(Authenticated);
        case Ok(AuthMessage(t, text)) => EmitShowPrompt(AuthMessageLabel(t), text);
        case _ => NotifyError(res);
      }
    }

    method StartSession(cmd: seq<string>, env: seq<string>, ex: Exchange) returns (r: Outcome<GreetdResult>)
      modifies this
      ensures (Snapshot(), r) == StartSessionStep(old(Snapshot()), cmd, env, ex)
    {
      var (sent, res) := RoundTrip(connected, Request.StartSession(cmd, env), ex);
      wire := wire + sent;
      if res.Ok? && res.value.AuthMessage? {
        return Panic(StartPanic);
      }
      NotifyError(res);
      r := Value(res);
    }

    method CancelSession(ex: Exchange) returns (r: Outcome<GreetdResult>)
      modifies this
      ensures (Snapshot(), r) == CancelSessionStep(old(Snapshot()), ex)
    {
      SetAuthStatus(NotStarted);
      authUser := None;
      var (sent, res) := RoundTrip(connected, Request.CancelSession, ex);
      wire := wire + sent;
      if res.Ok? && res.value.AuthMessage? {
        return Panic(CancelPanic);
      }
      NotifyError(res);
      r := Value(res);
    }
  }
}
