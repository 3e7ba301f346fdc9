/** The login facade over the guarded client (crates/greeters/src/greetd/mod.rs):
    it answers the page's calls, turns client results into booleans and
    builds the StartSession request from the session catalogue. */
module GreetdGreeter {
  import opened Wrappers
  import opened GreetdIpc
  import opened GreetdClient
  import opened FacadeCommon
  import Sessions

  const NoArgNames: set<string> := {
    "can_hibernate", "can_restart", "can_shutdown", "can_suspend",
    "authentication_user", "in_authentication", "is_authenticated",
    "language", "languages", "sessions", "users",
    "hibernate", "restart", "shutdown", "suspend", "cancel_authentication"}

  const ArgNames: set<string> := {"set_language", "authenticate", "respond", "start_session"}

  /** `handle`: which operation a call runs. Parameters that are not a
      JSON array panic, whatever the name. */
  function Handle(name: string, parsed: Option<seq<JsParam>>): (r: Outcome<Action>)
    ensures r.Panic? <==> parsed.None?
    ensures r.Value? && r.value.Undefined? <==>
      (parsed.Some? && ((parsed.value == [] && name !in NoArgNames) || (parsed.value != [] && name !in ArgNames)))
    ensures r.Value? && r.value.WithArg? ==> parsed.value != [] && r.value.arg == parsed.value[0]
  {
    RouteParsed(NoArgNames, ArgNames, name, parsed)
  }

  /** `authenticate`: true for a Success or AuthMessage reply. */
  function AuthenticateStep(s: State, username: string, ex: Exchange): (r: (State, bool))
    ensures r.0 == CreateSessionStep(s, username, ex).0
    ensures r.1 <==> var res := CreateSessionStep(s, username, ex).1;
      res == Ok(Success) || (res.Ok? && res.value.AuthMessage?)
  {
    var (t, res) := CreateSessionStep(s, username, ex);
    (t, res == Ok(Success) || (res.Ok? && res.value.AuthMessage?))
  }

  /** `authenticate` answers true exactly when a flow for this user has
      started: the client was idle, and now holds the user and is in or past
      authentication. A false answer from an idle client leaves it idle. */
  lemma AuthenticateMeaning(s: State, username: string, ex: Exchange)
    ensures var (t, b) := AuthenticateStep(s, username, ex);
      b <==> s.status == NotStarted && t.status != NotStarted
    ensures var (t, b) := AuthenticateStep(s, username, ex);
      b ==> t.authUser == Some(username)
  {
  }

  /** `respond`: true only for a Success reply. */
  function RespondStep(s: State, response: string, ex: Exchange): (r: (State, bool))
    ensures r.0 == PostResponseStep(s, Some(response), ex).0
    ensures r.1 <==> PostResponseStep(s, Some(response), ex).1 == Ok(Success)
  {
    var (t, res) := PostResponseStep(s, Some(response), ex);
    (t, res == Ok(Success))
  }

  /** `respond` answers true exactly when it completes an authentication in
      progress; a further prompt (AuthMessage) gives false. */
  lemma RespondMeaning(s: State, response: string, ex: Exchange)
    ensures var (t, b) := RespondStep(s, response, ex);
      b <==> s.status == InAuthentication && t.status == Authenticated
    ensures s.status == InAuthentication && s.connected && ex.Replied? && ex.response.AuthMessage? ==>
      !RespondStep(s, response, ex).1
  {
  }

  /** `cancel_authentication`: true only for a Success reply. */
  function CancelStep(s: State, ex: Exchange): (r: (State, Outcome<bool>))
    ensures r.0 == CancelSessionStep(s, ex).0
    ensures r.1.Panic? <==> CancelSessionStep(s, ex).1.Panic?
    ensures r.1 == Value(true) <==> CancelSessionStep(s, ex).1 == Value(Ok(Success))
  {
    var (t, out) := CancelSessionStep(s, ex);
    match out
    case Panic(why) => (t, Panic(why))
    case Value(res) => (t, Value(res == Ok(Success)))
  }

  /** A true answer means the client is back to idle with no user; a false
      one means nothing but the socket traffic changed. */
  lemma CancelMeaning(s: State, ex: Exchange)
    ensures var (t, out) := CancelStep(s, ex);
      out == Value(true) ==> t.status == NotStarted && t.authUser == None
    ensures var (t, out) := CancelStep(s, ex);
      out == Value(false) ==> t == s.(wire := t.wire)
  {
  }

  /** `start_session`: an unknown key is refused without touching the
      client; otherwise the client is asked to start the session's command
      and the process exits on Success. */
  function StartStep(s: State, catalogue: map<string, Sessions.Session>, key: string, ex: Exchange): (r: (State, Outcome<StartReply>))
    ensures key !in catalogue ==> r == (s, Value(Returned(false)))
    ensures r.1 == Value(ExitProcess) ==>
      key in catalogue && s.status == Authenticated
      && r.0.wire == s.wire + [Request.StartSession(Sessions.LaunchCommand(catalogue[key]).0, Sessions.LaunchCommand(catalogue[key]).1)]
    ensures r.1.Value? && r.1.value.Returned? ==> !r.1.value.b
    ensures r.0 == s.(wire := r.0.wire)
    // the process exits exactly on the daemon's Success to a start the client lets through
    ensures r.1 == Value(ExitProcess) <==>
      (key in catalogue && s.status == Authenticated && s.connected && ex == Replied(Success))
    ensures r.1.Panic? <==>
      (key in catalogue && s.status == Authenticated && s.connected && ex.Replied? && ex.response.AuthMessage?)
  {
    if key !in catalogue then (s, Value(Returned(false)))
    else
      var (cmd, env) := Sessions.LaunchCommand(catalogue[key]);
      var (t, out) := StartSessionStep(s, cmd, env, ex);
      match out
      case Panic(why) => (t, Panic(why))
      case Value(res) => (t, Value(if res == Ok(Success) then ExitProcess else Returned(false)))
  }

  /** The greeter object: a `RefCell` around the guarded client, with the
      page's authentication_complete signal registered at construction. */
  class Greeter {
    const client: Client

    /** The handler that posts authentication_complete to the page. */
    static const PageSignal: Handler := 0

    constructor (greetdSock: Option<string>, listening: set<string>)
      ensures fresh(client)
      ensures client.Snapshot() == ConnectAuthenticationCompleteStep(Initial(greetdSock, listening), PageSignal)
    {
      var c := new Client(greetdSock, listening);
      c.ConnectAuthenticationComplete(PageSignal);
      client := c;
    }

    method Authenticate(username: string, ex: Exchange) returns (b: bool)
      modifies client
      ensures (client.Snapshot(), b) == AuthenticateStep(old(client.Snapshot()), username, ex)
    {
      var res := client.CreateSession(username, ex);
      b := res == Ok(Success) || (res.Ok? && res.value.AuthMessage?);
    }

    method Respond(response: string, ex: Exchange) returns (b: bool)
      modifies client
      ensures (client.Snapshot(), b) == RespondStep(old(client.Snapshot()), response, ex)
    {
      var res := client.PostResponse(Some(response), ex);
      b := res == Ok(Success);
    }

    method CancelAuthentication(ex: Exchange) returns (r: Outcome<bool>)
      modifies client
      ensures (client.Snapshot(), r) == CancelStep(old(client.Snapshot()), ex)
    {
      var out := client.CancelSession(ex);
      match out {
        case Panic(why) => r := Panic(why);
        case Value(res) => r := Value(res == Ok(Success));
      }
    }

    method StartSession(catalogue: map<string, Sessions.Session>, key: string, ex: Exchange) returns (r: Outcome<StartReply>)
      modifies client
      ensures (client.Snapshot(), r) == StartStep(old(client.Snapshot()), catalogue, key, ex)
    {
      if key !in catalogue {
        return Value(Returned(false));
      }
      var (cmd, env) := Sessions.LaunchCommand(catalogue[key]);
      var out := client.StartSession(cmd, env, ex);
      match out {
        case Panic(why) => r := Panic(why);
        case Value(res) => r := Value(if res == Ok(Success) then ExitProcess else Returned(false));
      }
    }

    /** `set_language`: with no user under authentication nothing is asked of
        the accounts service and the answer is false; otherwise the answer is
        whether the service (`accountsAccept`) took the change. */
    method SetLanguage(language: string, accountsAccept: bool) returns (request: Option<(string, string)>, b: bool)
      ensures client.authUser.None? ==> request == None && !b
      ensures client.authUser.Some? ==> request == Some((client.authUser.value, language)) && b == accountsAccept
    {
      match client.AuthenticationUser() {
        case None =>
          request, b := None, false;
        case Some(user) =>
          request, b := Some((user, language)), accountsAccept;
      }
    }
  }
}
