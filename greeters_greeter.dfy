/** The login facade over the unguarded client
    (crates/greeters/src/greeters/greetd/mod.rs): every Ok result counts as
    success, and the client's prompt and message notifications are relayed
    to the page as `["type", "text"]` payloads. */
module GreetersGreeter {
  import opened Wrappers
  import opened GreetdIpc
  import opened GreetersClient
  import opened FacadeCommon
  import Sessions
  import JsonText

  const NoArgNames: set<string> := {
    "can_hibernate", "can_restart", "can_shutdown", "can_suspend",
    "hibernate", "restart", "shutdown", "suspend",
    "language", "languages", "layout", "layouts", "sessions", "users",
    "authentication_user", "in_authentication", "is_authenticated", "cancel_authentication"}

  const ArgNames: set<string> := {"layout", "set_language", "authenticate", "respond", "start_session"}

  /** `handle`: which operation a call runs. Parameters that are not a
      JSON array panic, whatever the name. */
  function Handle(name: string, parsed: Option<seq<JsParam>>): (r: Outcome<Action>)
    ensures r.Panic? <==> parsed.None?
    ensures r.Value? && r.value.Undefined? <==>
      (parsed.Some? && ((parsed.value == [] && name !in NoArgNames) || (parsed.value != [] && name !in ArgNames)))
    ensures r.Value? && r.value.WithArg? ==> parsed.value != [] && r.value.arg == parsed.value[0]
  {
    RouteParsed(NoArgNames, ArgNames, name, parsed)
  }

  /** The `respond` argument: the text of a string parameter, and no
      response at all for any other value. */
  function RespondArg(p: JsParam): (r: Option<string>)
    ensures r.Some? <==> p.JsString?
    ensures r.Some? ==> r.value == p.s
  {
    if p.JsString? then Some(p.s) else None
  }

  /** `authenticate`, `respond` and `cancel_authentication` answer whether
      the client call returned Ok. */
  function Succeeded(r: GreetdResult): bool {
    r.Ok?
  }

  /** The answer is true exactly when the daemon replied at all: a daemon
      Error reply (a wrong user, say) still gives true. */
  lemma AuthenticateMeaning(s: State, username: string, ex: Exchange)
    ensures Succeeded(CreateSessionStep(s, username, ex).1) <==> s.connected && ex.Replied?
    ensures s.connected && ex.Replied? && ex.response.Error? ==>
      Succeeded(CreateSessionStep(s, username, ex).1)
      && CreateSessionStep(s, username, ex).0.status == s.status
  {
  }

  /** `start_session`: an unknown key gives false without touching the
      client; an Ok result exits the process and an Err gives false. */
  function StartStep(s: State, catalogue: map<string, Sessions.Session>, key: string, ex: Exchange): (r: (State, Outcome<StartReply>))
    ensures key !in catalogue ==> r == (s, Value(Returned(false)))
    ensures r.1 == Value(ExitProcess) <==> key in catalogue && s.connected && ex.Replied? && !ex.response.AuthMessage?
    ensures r.1 == Value(ExitProcess) ==>
      r.0.wire == s.wire + [Request.StartSession(Sessions.LaunchCommand(catalogue[key]).0, Sessions.LaunchCommand(catalogue[key]).1)]
    ensures r.1.Value? && r.1.value.Returned? ==> !r.1.value.b
    ensures r.0.status == s.status && r.0.authUser == s.authUser
    // a prompt in reply to the start request is `unimplemented!` in the client
    ensures r.1.Panic? <==> key in catalogue && s.connected && ex.Replied? && ex.response.AuthMessage?
    // the client ends as its start_session leaves it, a relayed Error included
    ensures key in catalogue ==>
      r.0 == StartSessionStep(s, Sessions.LaunchCommand(catalogue[key]).0, Sessions.LaunchCommand(catalogue[key]).1, ex).0
  {
    if key !in catalogue then (s, Value(Returned(false)))
    else
      var (cmd, env) := Sessions.LaunchCommand(catalogue[key]);
      var (t, out) := StartSessionStep(s, cmd, env, ex);
      match out
      case Panic(why) => (t, Panic(why))
      case Value(res) => (t, Value(if res.Ok? then ExitProcess else Returned(false)))
  }

  /** The handlers the facade registers at construction. */
  const PromptSignal: Handler := 0
  const MessageSignal: Handler := 1
  const CompleteSignal: Handler := 2

  /** The parameters of the UserMessage a relayed notification becomes, as
      the `signals` functions build them: the payload text is not escaped. */
  function PageMessageAsWritten(c: Call): (r: (string, string))
    ensures c.signal == ShowPrompt ==> r.0 == "show_prompt"
    ensures c.signal == ShowMessage ==> r.0 == "show_message"
    ensures c.signal != AuthenticationComplete ==> r.1 == JsonText.PayloadAsWritten(Arg(c, 0), Arg(c, 1))
    ensures c.signal == AuthenticationComplete ==> r == ("authentication_complete", "[]")
  {
    match c.signal
    case ShowPrompt => ("show_prompt", JsonText.PayloadAsWritten(Arg(c, 0), Arg(c, 1)))
    case ShowMessage => ("show_message", JsonText.PayloadAsWritten(Arg(c, 0), Arg(c, 1)))
    case AuthenticationComplete => ("authentication_complete", "[]")
  }

  /** The same parameters with the payload escaped, so that the page reads
      back exactly the type and text the client emitted. */
  function PageMessage(c: Call): (r: (string, string))
    ensures c.signal == ShowPrompt ==> r.0 == "show_prompt"
    ensures c.signal == ShowMessage ==> r.0 == "show_message"
    ensures c.signal != AuthenticationComplete ==> JsonText.ParsePair(r.1) == Some((Arg(c, 0), Arg(c, 1)))
    ensures c.signal == AuthenticationComplete ==> r == ("authentication_complete", "[]")
  {
    match c.signal
    case ShowPrompt => ("show_prompt", JsonText.Payload(Arg(c, 0), Arg(c, 1)))
    case ShowMessage => ("show_message", JsonText.Payload(Arg(c, 0), Arg(c, 1)))
    case AuthenticationComplete => ("authentication_complete", "[]")
  }

  function Arg(c: Call, i: nat): string {
    if i < |c.args| then c.args[i] else ""
  }

  /** A PAM prompt whose text holds a quote reaches the page intact only
      through the escaped payload. */
  lemma QuotedPromptRelay()
    ensures var c := Call(ShowPrompt, PromptSignal, ["Info", "say \"hi\""]);
      JsonText.ParsePair(PageMessageAsWritten(c).1) != Some(("Info", "say \"hi\""))
      && JsonText.ParsePair(PageMessage(c).1) == Some(("Info", "say \"hi\""))
  {
    JsonText.QuoteBreaksPayloadAsWritten();
  }

  /** The greeter object: a `RefCell` around the unguarded client, with the
      page's three signals registered at construction. */
  class Greeter {
    const client: Client

    constructor (greetdSock: Option<string>, listening: set<string>)
      ensures fresh(client)
      ensures client.Snapshot() == Initial(greetdSock, listening).(
        showPrompt := [PromptSignal], showMessage := [MessageSignal], authenticationComplete := [CompleteSignal])
    {
      var c := new Client(greetdSock, listening);
      c.ConnectShowPrompt(PromptSignal);
      c.ConnectShowMessage(MessageSignal);
      c.ConnectAuthenticationComplete(CompleteSignal);
      client := c;
    }

    method Authenticate(username: string, ex: Exchange) returns (b: bool)
      modifies client
      ensures client.Snapshot() == CreateSessionStep(old(client.Snapshot()), username, ex).0
      ensures b == Succeeded(CreateSessionStep(old(client.Snapshot()), username, ex).1)
    {
      var res := client.CreateSession(username, ex);
      b := res.Ok?;
    }

    method Respond(param: JsParam, ex: Exchange) returns (b: bool)
      modifies client
      ensures client.Snapshot() == PostResponseStep(old(client.Snapshot()), RespondArg(param), ex).0
      ensures b == Succeeded(PostResponseStep(old(client.Snapshot()), RespondArg(param), ex).1)
    {
      var res := client.PostResponse(RespondArg(param), ex);
      b := res.Ok?;
    }

    method CancelAuthentication(ex: Exchange) returns (r: Outcome<bool>)
      modifies client
      ensures client.Snapshot() == CancelSessionStep(old(client.Snapshot()), ex).0
      ensures r == match CancelSessionStep(old(client.Snapshot()), ex).1
        case Panic(why) => Panic(why)
        case Value(res) => Value(Succeeded(res))
    {
      var out := client.CancelSession(ex);
      match out {
        case Panic(why) => r := Panic(why);
        case Value(res) => r := Value(res.Ok?);
      }
    }

    method StartSession(catalogue: map<string, Sessions.Session>, key: string, ex: Exchange) returns (r: Outcome<StartReply>)
      modifies client
      ensures (client.Snapshot(), r) == StartStep(old(client.Snapshot()), catalogue, key, ex)
    {
      if key !in catalogue {
        return Value(Returned(false));
      }
      var (cmd, env) := Sessions.LaunchCommand(catalogue[key]);
      var out := client.StartSession(cmd, env, ex);
      match out {
        case Panic(why) => r := Panic(why);
        case Value(res) => r := Value(if res.Ok? then ExitProcess else Returned(false));
      }
    }

    /** `set_language`, as in the guarded facade. */
    method SetLanguage(language: string, accountsAccept: bool) returns (request: Option<(string, string)>, b: bool)
      ensures client.authUser.None? ==> request == None && !b
      ensures client.authUser.Some? ==> request == Some((client.authUser.value, language)) && b == accountsAccept
    {
      match client.AuthenticationUser() {
        case None =>
          request, b := None, false;
        case Some(user) =>
          request, b := Some((user, language)), accountsAccept;
      }
    }
  }
}
