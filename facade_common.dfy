/** What the two login facades share: the JavaScript values their `handle`
    receives, the action a call is routed to, and how a facade call ends. */
module FacadeCommon {
  import opened Wrappers

  /** A call parameter after `jsc::Value::from_json(...).to_vec()`: a string,
      or any other value together with the text `to_string` gives it. */
  datatype JsParam = JsString(s: string) | JsOther(text: string)

  /** `jsc::Value::to_string`. */
  function ToText(p: JsParam): string {
    match p
    case JsString(s) => s
    case JsOther(t) => t
  }

  /** What `handle` does with a call: run a no-argument operation, run an
      operation on the first parameter, or answer `undefined`. */
  datatype Action =
    | Query(name: string)
    | WithArg(name: string, arg: JsParam)
    | Undefined

  /** The routing rule both facades follow: a call without parameters runs
      only a name of `noArg`, a call with parameters only a name of `withArg`
      (on its first parameter); every other call is `undefined`. */
  function Route(noArg: set<string>, withArg: set<string>, name: string, params: seq<JsParam>): (r: Action)
    ensures r.Undefined? <==> (params == [] && name !in noArg) || (params != [] && name !in withArg)
    ensures r.Query? ==> params == [] && r.name == name
    ensures r.WithArg? ==> params != [] && r.name == name && r.arg == params[0]
  {
    if params == [] then (if name in noArg then Query(name) else Undefined)
    else if name in withArg then WithArg(name, params[0])
    else Undefined
  }

  /** `handle` of both facades: the JSON parameters are first turned into
      an array (`parsed`, None when the JSON value is not one), and
      `to_vec` panics for anything else, whatever the name; the array is
      then routed. */
  function RouteParsed(noArg: set<string>, withArg: set<string>, name: string, parsed: Option<seq<JsParam>>): (r: Outcome<Action>)
    ensures r.Panic? <==> parsed.None?
    ensures r.Value? && r.value.Undefined? <==>
      (parsed.Some? && ((parsed.value == [] && name !in noArg) || (parsed.value != [] && name !in withArg)))
    ensures r.Value? && r.value.Query? ==> parsed == Some([]) && r.value.name == name
    ensures r.Value? && r.value.WithArg? ==> parsed.Some? && parsed.value != [] && r.value.name == name && r.value.arg == parsed.value[0]
  {
    match parsed
    case None => Panic("JSCValue is not an array")
    case Some(params) => Value(Route(noArg, withArg, name, params))
  }

  /** How a facade's start_session ends: the greeter process exits, or the
      page gets a boolean. */
  datatype StartReply = ExitProcess | Returned(b: bool)
}
