/** The message dispatcher between the pages and the greeter process
    (crates/webkit-greeter/src/bridge/mod.rs): a page's user message names
    a target object and carries `[method, json_params]`; the dispatcher
    routes it to that object's handler and answers with exactly one reply.
    The four handlers are given as functions. */
module Bridge {
  import opened Wrappers

  /** The GVariant values the messages carry: a string, an array of
      values, or anything else. */
  datatype Variant = VString(s: string) | VArray(items: seq<Variant>) | VOther

  datatype UserMessage = UserMessage(name: Option<string>, parameters: Option<Variant>)

  datatype Target = Greeter | GreeterConfig | GreeterComm | ThemeUtils

  datatype Message = Routed(target: Target, methodName: string, jsonParams: string) | Unknown

  function TargetOf(name: Option<string>): (r: Option<Target>)
    ensures r.Some? <==> name.Some? && name.value in {"greeter", "greeter_config", "greeter_comm", "theme_utils"}
  {
    match name
    case Some("greeter") => Some(Greeter)
    case Some("greeter_config") => Some(GreeterConfig)
    case Some("greeter_comm") => Some(GreeterComm)
    case Some("theme_utils") => Some(ThemeUtils)
    case _ => None
  }

  /** The parameters have the shape `parse` looks for: an array of exactly
      two values whose first is a non-empty string. */
  predicate WellShaped(msg: UserMessage) {
    msg.parameters.Some? && msg.parameters.value.VArray? && |msg.parameters.value.items| == 2
    && msg.parameters.value.items[0].VString? && msg.parameters.value.items[0].s != ""
  }

  /** GVariant arrays are homogeneous: every child has the type of the
      first. */
  predicate Homogeneous(v: Variant) {
    v.VArray? ==> forall i :: 0 <= i < |v.items| ==> v.items[i].VString? == v.items[0].VString?
  }

  /** `parse`: a well-shaped message to a known target is routed with its
      method and JSON parameters; everything else is Unknown. A well-shaped
      message whose second value is not a string panics (`unwrap`), whatever
      its target. */
  function Parse(msg: UserMessage): (r: Outcome<Message>)
    ensures r.Panic? <==> WellShaped(msg) && !msg.parameters.value.items[1].VString?
    ensures r == Value(Unknown) <==> !WellShaped(msg) || (msg.parameters.value.items[1].VString? && TargetOf(msg.name).None?)
    ensures r.Value? && r.value.Routed? ==>
      WellShaped(msg) && Some(r.value.target) == TargetOf(msg.name)
      && r.value.methodName == msg.parameters.value.items[0].s && r.value.methodName != ""
      && VString(r.value.jsonParams) == msg.parameters.value.items[1]
  {
    if !WellShaped(msg) then Value(Unknown)
    else
      var items := msg.parameters.value.items;
      if !items[1].VString? then Panic("called `Option::unwrap()` on a `None` value")
      else match TargetOf(msg.name)
        case None => Value(Unknown)
        case Some(t) => Value(Routed(t, items[0].s, items[1].s))
  }

  /** The `unwrap` in `parse` cannot fail on a GVariant: when the method
      is a string, so are the JSON parameters. */
  lemma ParseNeverPanics(msg: UserMessage)
    requires msg.parameters.Some? ==> Homogeneous(msg.parameters.value)
    ensures Parse(msg).Value?
  {
    if WellShaped(msg) {
      assert msg.parameters.value.items[1].VString?;
    }
  }

  /** The reply to a routed message: named "reply", carrying the handler's
      JSON text. */
  function Reply(json: string): UserMessage {
    UserMessage(Some("reply"), Some(VString(json)))
  }

  /** The reply to an unknown message: an empty name and no parameters. */
  const EmptyReply: UserMessage := UserMessage(Some(""), None)

  /** `Dispatcher::send`: the one reply a message gets. The greeter_config
      handler is given only the method; the other handlers get the method
      and the JSON parameters. */
  function Send(msg: UserMessage, configHandler: string -> string, handler: (Target, string, string) -> string): (r: Outcome<UserMessage>)
    ensures r.Panic? <==> Parse(msg).Panic?
    ensures Parse(msg) == Value(Unknown) ==> r == Value(EmptyReply)
    ensures Parse(msg).Value? && Parse(msg).value.Routed? ==>
      r.Value? && r.value.name == Some("reply") && r.value.parameters.Some? && r.value.parameters.value.VString?
    ensures Parse(msg).Value? && Parse(msg).value.Routed? ==>
      var m := Parse(msg).value;
      r == Value(Reply(if m.target == GreeterConfig then configHandler(m.methodName)
                       else handler(m.target, m.methodName, m.jsonParams)))
  {
    match Parse(msg)
    case Panic(why) => Panic(why)
    case Value(Unknown) => Value(EmptyReply)
    case Value(Routed(GreeterConfig, m, _)) => Value(Reply(configHandler(m)))
    case Value(Routed(t, m, params)) => Value(Reply(handler(t, m, params)))
  }

  /** The greeter_config reply depends on the method alone: two calls that
      differ only in their parameters get the same reply. */
  lemma ConfigIgnoresParams(m: string, p1: string, p2: string,
                            configHandler: string -> string, handler: (Target, string, string) -> string)
    requires m != ""
    ensures var m1 := UserMessage(Some("greeter_config"), Some(VArray([VString(m), VString(p1)])));
      var m2 := UserMessage(Some("greeter_config"), Some(VArray([VString(m), VString(p2)])));
      Send(m1, configHandler, handler) == Send(m2, configHandler, handler) == Value(Reply(configHandler(m)))
  {
  }

  /** A message to an unknown target still gets its (empty) reply, unless
      its parameters make `parse` panic first. */
  lemma UnknownTargetGetsEmptyReply(msg: UserMessage, configHandler: string -> string, handler: (Target, string, string) -> string)
    requires TargetOf(msg.name).None?
    ensures Send(msg, configHandler, handler) == Value(EmptyReply) <==>
      !(WellShaped(msg) && !msg.parameters.value.items[1].VString?)
  {
  }

  /** `Dispatcher::new`: the directories the theme utilities may list start
      with the themes directory and the background images directory. */
  function DispatcherAllowedDirs(themesDir: string, backgroundImagesDir: string): (r: seq<string>)
    ensures |r| == 2 && r[0] == themesDir && r[1] == backgroundImagesDir
  {
    [themesDir, backgroundImagesDir]
  }
}
