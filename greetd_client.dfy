/** The greetd login-protocol client that guards its own state machine
    (crates/greeters/src/greetd/client.rs): requests that are illegal in the
    current authentication status are answered locally with an error
    response and never reach the socket. One callback slot is fired when the
    status becomes Authenticated. */
module GreetdClient {
  import opened Wrappers
  import opened GreetdIpc

  datatype AuthStatus = NotStarted | InAuthentication | Authenticated

  /** A registered callback, known only by identity. */
  type Handler = nat

  /** Everything a caller can observe of a client: whether it holds a socket,
      the user under authentication, the status, the callback slot, the
      requests written to the socket so far and the callback invocations so
      far. */
  datatype State = State(
    connected: bool,
    authUser: Option<string>,
    status: AuthStatus,
    onComplete: Option<Handler>,
    wire: seq<Request>,
    completions: seq<Handler>)

  const AlreadyUnderAuthentication := "a session is already under authentication"
  const NoSessionUnderAuthentication := "no session under authentication"
  const AlreadyAuthenticated := "current session is already authenticated"
  const NotAuthenticated := "current session is not authenticated"
  const StartPanic := "greetd responded with auth request after requesting session start."
  const CancelPanic := "greetd resonded with auth request after requesting session cancellation."

  /** `GreetdClient::new`: connects to the path in GREETD_SOCK; a missing
      variable or a path nobody listens on leaves the client without a
      socket. */
  function Initial(greetdSock: Option<string>, listening: set<string>): (s: State)
    ensures s.status == NotStarted && s.authUser == None && s.onComplete == None
    ensures s.wire == [] && s.completions == []
    ensures s.connected <==> greetdSock.Some? && greetdSock.value in listening
  {
    State(greetdSock.Some? && greetdSock.value in listening, None, NotStarted, None, [], [])
  }

  /** `set_auth_status`: the registered callback runs when the new status is
      Authenticated. */
  function SetAuthStatusStep(s: State, status: AuthStatus): (t: State)
    ensures t.status == status && t.authUser == s.authUser && t.wire == s.wire
    ensures t.connected == s.connected && t.onComplete == s.onComplete
    ensures t.completions != s.completions <==> status == Authenticated && s.onComplete.Some?
    ensures t.completions != s.completions ==> t.completions == s.completions + [s.onComplete.value]
  {
    s.(status := status,
       completions := if status == Authenticated && s.onComplete.Some? then s.completions + [s.onComplete.value] else s.completions)
  }

  /** `connect_authentication_complete`: the new callback replaces any
      earlier one. */
  function ConnectAuthenticationCompleteStep(s: State, h: Handler): (t: State)
    ensures t.onComplete == Some(h) && t == s.(onComplete := t.onComplete)
  {
    s.(onComplete := Some(h))
  }

  /** `create_session`. */
  function CreateSessionStep(s: State, username: string, ex: Exchange): (r: (State, GreetdResult))
    // rejected locally unless NotStarted: nothing is sent and nothing changes
    ensures s.status != NotStarted ==>
      r == (s, Ok(Response.Error(ErrorType.Error, AlreadyUnderAuthentication)))
    // the user is recorded before the socket is used, so a transport error leaves it set
    ensures s.status == NotStarted && r.1.Err? ==>
      r.0.authUser == Some(username) && r.0.status == NotStarted && r.0.completions == s.completions
    ensures s.status == NotStarted && r.1 == Ok(Success) ==>
      r.0.status == Authenticated && r.0.authUser == Some(username)
    ensures s.status == NotStarted && r.1.Ok? && r.1.value.AuthMessage? ==>
      r.0.status == InAuthentication && r.0.authUser == Some(username)
    ensures s.status == NotStarted && r.1.Ok? && r.1.value.Error? ==>
      r.0.status == NotStarted && r.0.authUser == None
    ensures r.0.wire == s.wire || r.0.wire == s.wire + [Request.CreateSession(username)]
    // past the local check, the result is the round trip's and the request is sent as it says
    ensures s.status == NotStarted ==>
      var (sent, res) := RoundTrip(s.connected, Request.CreateSession(username), ex);
      r.1 == res && r.0.wire == s.wire + sent
    // the socket and the callback slot are kept; a Success fires the callback
    ensures r.0.connected == s.connected && r.0.onComplete == s.onComplete
    ensures r.0.completions == s.completions
      + (if s.status == NotStarted && r.1 == Ok(Success) && s.onComplete.Some? then [s.onComplete.value] else [])
  {
    if s.status != NotStarted then
      (s, Ok(Response.Error(ErrorType.Error, AlreadyUnderAuthentication)))
    else
      var s1 := s.(authUser := Some(username));
      var (sent, res) := RoundTrip(s1.connected, Request.CreateSession(username), ex);
      var s2 := s1.(wire := s1.wire + sent);
      match res
      case Ok(Success) => (SetAuthStatusStep(s2, Authenticated), res)
      case Ok(AuthMessage(_, _)) => (SetAuthStatusStep(s2, InAuthentication), res)
      case Ok(Error(_, _)) => (s2.(authUser := None), res)
      case Err(_) => (s2, res)
  }

  /** `post_response`. */
  function PostResponseStep(s: State, response: Option<string>, ex: Exchange): (r: (State, GreetdResult))
    ensures s.status == NotStarted ==>
      r == (s, Ok(Response.Error(ErrorType.Error, NoSessionUnderAuthentication)))
    ensures s.status == Authenticated ==>
      r == (s, Ok(Response.Error(ErrorType.Error, AlreadyAuthenticated)))
    // only a Success reply changes the status, and only to Authenticated
    ensures r.0.status != s.status ==> r.1 == Ok(Success) && r.0.status == Authenticated
    ensures r.0.authUser == s.authUser
    ensures r.0.wire == s.wire || r.0.wire == s.wire + [PostAuthMessageResponse(response)]
    ensures s.status == InAuthentication ==>
      var (sent, res) := RoundTrip(s.connected, PostAuthMessageResponse(response), ex);
      r.1 == res && r.0.wire == s.wire + sent
    ensures r.0.connected == s.connected && r.0.onComplete == s.onComplete
    ensures r.0.completions == s.completions
      + (if s.status == InAuthentication && r.1 == Ok(Success) && s.onComplete.Some? then [s.onComplete.value] else [])
  {
    match s.status
    case NotStarted => (s, Ok(Response.Error(ErrorType.Error, NoSessionUnderAuthentication)))
    case Authenticated => (s, Ok(Response.Error(ErrorType.Error, AlreadyAuthenticated)))
    case InAuthentication =>
      var (sent, res) := RoundTrip(s.connected, PostAuthMessageResponse(response), ex);
      var s1 := s.(wire := s.wire + sent);
      if res == Ok(Success) then (SetAuthStatusStep(s1, Authenticated), res) else (s1, res)
  }

  /** `start_session`: an AuthMessage reply is `unimplemented!`. */
  function StartSessionStep(s: State, cmd: seq<string>, env: seq<string>, ex: Exchange): (r: (State, Outcome<GreetdResult>))
    ensures s.status != Authenticated ==>
      r == (s, Value(Ok(Response.Error(ErrorType.AuthError, NotAuthenticated))))
    ensures r.0 == s.(wire := r.0.wire)
    ensures r.1.Panic? <==> s.status == Authenticated && s.connected && ex.Replied? && ex.response.AuthMessage?
    ensures r.0.wire == s.wire || r.0.wire == s.wire + [Request.StartSession(cmd, env)]
    ensures s.status == Authenticated ==>
      var (sent, res) := RoundTrip(s.connected, Request.StartSession(cmd, env), ex);
      r.0.wire == s.wire + sent && (r.1.Value? ==> r.1.value == res)
  {
    if s.status != Authenticated then
      (s, Value(Ok(Response.Error(ErrorType.AuthError, NotAuthenticated))))
    else
      var (sent, res) := RoundTrip(s.connected, Request.StartSession(cmd, env), ex);
      var s1 := s.(wire := s.wire + sent);
      if res.Ok? && res.value.AuthMessage? then (s1, Panic(StartPanic)) else (s1, Value(res))
  }

  /** `cancel_session`: no local check; an AuthMessage reply is
      `unimplemented!`. */
  function CancelSessionStep(s: State, ex: Exchange): (r: (State, Outcome<GreetdResult>))
    ensures r.1 == Value(Ok(Success)) ==> r.0.status == NotStarted && r.0.authUser == None
    ensures r.1 != Value(Ok(Success)) ==> r.0 == s.(wire := r.0.wire)
    ensures r.1.Panic? <==> s.connected && ex.Replied? && ex.response.AuthMessage?
    ensures r.0.completions == s.completions
    ensures r.0.wire == s.wire || r.0.wire == s.wire + [Request.CancelSession]
    ensures var (sent, res) := RoundTrip(s.connected, Request.CancelSession, ex);
      r.0.wire == s.wire + sent && (r.1.Value? ==> r.1.value == res)
    ensures r.0.connected == s.connected && r.0.onComplete == s.onComplete
  {
    var (sent, res) := RoundTrip(s.connected, Request.CancelSession, ex);
    var s1 := s.(wire := s.wire + sent);
    match res
    case Ok(Success) => (SetAuthStatusStep(s1, NotStarted).(authUser := None), Value(res))
    case Ok(AuthMessage(_, _)) => (s1, Panic(CancelPanic))
    case _ => (s1, Value(res))
  }

  /** With a socket, the daemon's reply decides each step: it is returned
      as it is, Success authenticates, a prompt keeps the flow going, an
      Error to create_session forgets the user, and only Success to
      cancel_session resets the client. */
  lemma DaemonReplyDecides(s: State, username: string, resp: Response)
    requires s.connected
    ensures s.status == NotStarted ==>
      var (t, res) := CreateSessionStep(s, username, Replied(resp));
      res == Ok(resp)
      && (resp == Success ==> t.status == Authenticated && t.authUser == Some(username))
      && (resp.AuthMessage? ==> t.status == InAuthentication && t.authUser == Some(username))
      && (resp.Error? ==> t.status == NotStarted && t.authUser == None)
    ensures s.status == InAuthentication ==>
      var (t, res) := PostResponseStep(s, None, Replied(resp));
      res == Ok(resp) && (t.status == Authenticated <==> resp == Success)
    ensures var (t, out) := CancelSessionStep(s, Replied(resp));
      (resp == Success ==> out == Value(Ok(Success)) && t.status == NotStarted && t.authUser == None)
      && (resp.Error? ==> out == Value(Ok(resp)) && t == s.(wire := s.wire + [Request.CancelSession]))
  {
  }

  /** One call a GUI can make on the client. */
  datatype Op =
    | Connect(handler: Handler)
    | Create(username: string, ex: Exchange)
    | Post(response: Option<string>, ex: Exchange)
    | Start(cmd: seq<string>, env: seq<string>, ex: Exchange)
    | Cancel(ex: Exchange)

  function Step(s: State, op: Op): (State, Outcome<GreetdResult>) {
    match op
    case Connect(h) => (ConnectAuthenticationCompleteStep(s, h), Value(Ok(Success)))
    case Create(u, ex) => var r := CreateSessionStep(s, u, ex); (r.0, Value(r.1))
    case Post(resp, ex) => var r := PostResponseStep(s, resp, ex); (r.0, Value(r.1))
    case Start(cmd, env, ex) => StartSessionStep(s, cmd, env, ex)
    case Cancel(ex) => CancelSessionStep(s, ex)
  }

  /** The state after a sequence of calls; a call that aborts the process
      ends the run. */
  function Run(s: State, ops: seq<Op>): State
    decreases |ops|
  {
    if ops == [] then s
    else
      var (t, out) := Step(s, ops[0]);
      if out.Panic? then t else Run(t, ops[1..])
  }

  /** While a flow is in progress or authenticated there is a user. */
  ghost predicate UserInvariant(s: State) {
    s.status != NotStarted ==> s.authUser.Some?
  }

  /** Every call keeps the user invariant, and the completion callback fires
      only on a transition INTO Authenticated, never while already there. */
  lemma StepKeepsInvariant(s: State, op: Op)
    requires UserInvariant(s)
    ensures UserInvariant(Step(s, op).0)
    ensures var t := Step(s, op).0;
      t.completions != s.completions ==>
        s.status != Authenticated && t.status == Authenticated && t.completions == s.completions + [s.onComplete.value]
  {
  }

  /** Number of calls along a run that move the status into Authenticated
      while a callback is registered. */
  function Entries(s: State, ops: seq<Op>): nat
    decreases |ops|
  {
    if ops == [] then 0
    else
      var (t, out) := Step(s, ops[0]);
      var here := if s.status != Authenticated && t.status == Authenticated && s.onComplete.Some? then 1 else 0;
      if out.Panic? then here else here + Entries(t, ops[1..])
  }

  /** Along any run from a fresh client, the user invariant holds and the
      callback has fired exactly once per entry into Authenticated. */
  lemma {:induction false} RunKeepsInvariant(s: State, ops: seq<Op>)
    requires UserInvariant(s)
    ensures UserInvariant(Run(s, ops))
    ensures |Run(s, ops).completions| == |s.completions| + Entries(s, ops)
    decreases |ops|
  {
    if ops != [] {
      StepKeepsInvariant(s, ops[0]);
      var (t, out) := Step(s, ops[0]);
      if !out.Panic? {
        RunKeepsInvariant(t, ops[1..]);
      }
    }
  }

  /** The client object; `Snapshot` is its observable state, and every
      method is specified by the function of the same name above. */
  class Client {
    var connected: bool
    var authUser: Option<string>
    var authStatus: AuthStatus
    var authenticationComplete: Option<Handler>
    var wire: seq<Request>
    var completions: seq<Handler>

    function Snapshot(): State
      reads this
    {
      State(connected, authUser, authStatus, authenticationComplete, wire, completions)
    }

    constructor (greetdSock: Option<string>, listening: set<string>)
      ensures Snapshot() == Initial(greetdSock, listening)
    {
      connected := greetdSock.Some? && greetdSock.value in listening;
      authUser := None;
      authStatus := NotStarted;
      authenticationComplete := None;
      wire := [];
      completions := [];
    }

    method ConnectAuthenticationComplete(h: Handler)
      modifies this
      ensures Snapshot() == ConnectAuthenticationCompleteStep(old(Snapshot()), h)
    {
      authenticationComplete := Some(h);
    }

    method SetAuthStatus(status: AuthStatus)
      modifies this
      ensures Snapshot() == SetAuthStatusStep(old(Snapshot()), status)
    {
      authStatus := status;
      if authStatus == Authenticated && authenticationComplete.Some? {
        completions := completions + [authenticationComplete.value];
      }
    }

    /** `authentication_user`, `in_authentication`, `is_authenticated`:
        what the page can query of the client. */
    function AuthenticationUser(): (r: Option<string>)
      reads this
      ensures r == Snapshot().authUser
      // a client that keeps the user invariant has a user whenever a flow is under way
      ensures UserInvariant(Snapshot()) && Snapshot().status != NotStarted ==> r.Some?
    {
      authUser
    }

    predicate InAuthentication()
      reads this
      ensures InAuthentication() <==> Snapshot().status == AuthStatus.InAuthentication
    {
      authStatus == AuthStatus.InAuthentication
    }

    predicate IsAuthenticated()
      reads this
      ensures IsAuthenticated() <==> Snapshot().status == Authenticated
    {
      authStatus == Authenticated
    }

    method CreateSession(username: string, ex: Exchange) returns (r: GreetdResult)
      modifies this
      ensures (Snapshot(), r) == CreateSessionStep(old(Snapshot()), username, ex)
    {
      if authStatus != NotStarted {
        return Ok(Response.Error(ErrorType.Error, AlreadyUnderAuthentication));
      }
      authUser := Some(username);
      var (sent, res) := RoundTrip(connected, Request.CreateSession(username), ex);
      wire := wire + sent;
      r := res;
      match r {
        case Ok(Success) => SetAuthStatus(Authenticated);
        case Ok(AuthMessage(_, _)) => SetAuthStatus(AuthStatus.InAuthentication);
        case Ok(Error(_, _)) => authUser := None;
        case Err(_) =>
      }
    }

    method PostResponse(response: Option<string>, ex: Exchange) returns (r: GreetdResult)
      modifies this
      ensures (Snapshot(), r) == PostResponseStep(old(Snapshot()), response, ex)
    {
      match authStatus {
        case NotStarted => return Ok(Response.Error(ErrorType.Error, NoSessionUnderAuthentication));
        case Authenticated => return Ok(Response.Error(ErrorType.Error, AlreadyAuthenticated));
        case InAuthentication =>
      }
      var (sent, res) := RoundTrip(connected, PostAuthMessageResponse(response), ex);
      wire := wire + sent;
      r := res;
      if r == Ok(Success) {
        SetAuthStatus(Authenticated);
      }
    }

    method StartSession(cmd: seq<string>, env: seq<string>, ex: Exchange) returns (r: Outcome<GreetdResult>)
      modifies this
      ensures (Snapshot(), r) == StartSessionStep(old(Snapshot()), cmd, env, ex)
    {
      if !IsAuthenticated() {
        return Value(Ok(Response.Error(ErrorType.AuthError, NotAuthenticated)));
      }
      var (sent, res) := RoundTrip(connected, Request.StartSession(cmd, env), ex);
      wire := wire + sent;
      if res.Ok? && res.value.AuthMessage? {
        return Panic(StartPanic);
      }
      r := Value(res);
    }

    method CancelSession(ex: Exchange) returns (r: Outcome<GreetdResult>)
      modifies this
      ensures (Snapshot(), r) == CancelSessionStep(old(Snapshot()), ex)
    {
      var (sent, res) := RoundTrip(connected, Request.CancelSession, ex);
      wire := wire + sent;
      match res {
        case Ok(Success) =>
          SetAuthStatus(NotStarted);
          authUser := None;
        case Ok(AuthMessage(_, _)) =>
          return Panic(CancelPanic);
        case _ =>
      }
      r := Value(res);
    }
  }
}
