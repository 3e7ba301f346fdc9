/** The cross-monitor channel (crates/webkit-greeter/src/bridge/greeter_comm.rs):
    window metadata with the bounding box of all monitors, broadcasting a
    page's data to every page, and loading the theme's pages. */
module GreeterComm {
  import opened Wrappers
  import opened FacadeCommon
  import opened Bridge

  /** A monitor's geometry (`gdk::Rectangle`). */
  datatype Rect = Rect(x: int, y: int, width: int, height: int)

  datatype Browser = Browser(id: nat, primary: bool, geometry: Rect)

  function Least(xs: seq<int>): (r: int)
    requires xs != []
    ensures r in xs && forall i :: 0 <= i < |xs| ==> r <= xs[i]
  {
    if |xs| == 1 then xs[0]
    else
      var m := Least(xs[1..]);
      assert forall i :: 1 <= i < |xs| ==> xs[1..][i - 1] == xs[i];
      if xs[0] <= m then xs[0] else m
  }

  function Greatest(xs: seq<int>): (r: int)
    requires xs != []
    ensures r in xs && forall i :: 0 <= i < |xs| ==> xs[i] <= r
  {
    if |xs| == 1 then xs[0]
    else
      var m := Greatest(xs[1..]);
      assert forall i :: 1 <= i < |xs| ==> xs[1..][i - 1] == xs[i];
      if xs[0] >= m then xs[0] else m
  }

  datatype Boundary = Boundary(minX: int, minY: int, maxX: int, maxY: int)

  function Lefts(bs: seq<Browser>): (r: seq<int>)
    ensures |r| == |bs| && forall i :: 0 <= i < |bs| ==> r[i] == bs[i].geometry.x
  {
    seq(|bs|, i requires 0 <= i < |bs| => bs[i].geometry.x)
  }

  function Tops(bs: seq<Browser>): (r: seq<int>)
    ensures |r| == |bs| && forall i :: 0 <= i < |bs| ==> r[i] == bs[i].geometry.y
  {
    seq(|bs|, i requires 0 <= i < |bs| => bs[i].geometry.y)
  }

  function Rights(bs: seq<Browser>): (r: seq<int>)
    ensures |r| == |bs| && forall i :: 0 <= i < |bs| ==> r[i] == bs[i].geometry.x + bs[i].geometry.width
  {
    seq(|bs|, i requires 0 <= i < |bs| => bs[i].geometry.x + bs[i].geometry.width)
  }

  function Bottoms(bs: seq<Browser>): (r: seq<int>)
    ensures |r| == |bs| && forall i :: 0 <= i < |bs| ==> r[i] == bs[i].geometry.y + bs[i].geometry.height
  {
    seq(|bs|, i requires 0 <= i < |bs| => bs[i].geometry.y + bs[i].geometry.height)
  }

  /** `overall_boundary`: the smallest box holding every monitor; there is
      none (the `unwrap` panics) when there is no monitor. */
  function OverallBoundary(browsers: seq<Browser>): (r: Outcome<Boundary>)
    ensures r.Panic? <==> browsers == []
    ensures r.Value? ==> forall i :: 0 <= i < |browsers| ==> Inside(browsers[i].geometry, r.value)
  {
    if browsers == [] then Panic("called `Option::unwrap()` on a `None` value")
    else Value(Boundary(Least(Lefts(browsers)), Least(Tops(browsers)), Greatest(Rights(browsers)), Greatest(Bottoms(browsers))))
  }

  /** No smaller box would do: each side of the boundary is a side of
      some monitor. */
  lemma BoundaryIsTight(browsers: seq<Browser>)
    requires browsers != []
    ensures var b := OverallBoundary(browsers).value;
      (exists i :: 0 <= i < |browsers| && browsers[i].geometry.x == b.minX)
      && (exists i :: 0 <= i < |browsers| && browsers[i].geometry.y == b.minY)
      && (exists i :: 0 <= i < |browsers| && browsers[i].geometry.x + browsers[i].geometry.width == b.maxX)
      && (exists i :: 0 <= i < |browsers| && browsers[i].geometry.y + browsers[i].geometry.height == b.maxY)
  {
    var b := OverallBoundary(browsers).value;
    Attained(Lefts(browsers), b.minX);
    Attained(Tops(browsers), b.minY);
    Attained(Rights(browsers), b.maxX);
    Attained(Bottoms(browsers), b.maxY);
  }

  lemma Attained(xs: seq<int>, v: int)
    requires v in xs
    ensures exists i :: 0 <= i < |xs| && xs[i] == v
  {
  }

  predicate Inside(g: Rect, b: Boundary) {
    b.minX <= g.x && b.minY <= g.y && g.x + g.width <= b.maxX && g.y + g.height <= b.maxY
  }

  /** The `window_metadata` answer of one page. */
  datatype WindowMetadata = WindowMetadata(id: nat, isPrimary: bool, position: (int, int), size: (int, int), overall: Boundary)

  /** What `handle` answers: window metadata, `null` after a broadcast, or
      `undefined`. */
  datatype CommReply = Metadata(metadata: WindowMetadata) | Null | UndefinedReply

  /** The message a broadcast posts to a page: `["_emit", json]`, in the
      dispatcher's own `[method, json_params]` shape, addressed to
      greeter_comm. */
  function EmitMessage(argsJson: string): (r: UserMessage)
    ensures Parse(r) == Value(Routed(GreeterComm, "_emit", argsJson))
  {
    UserMessage(Some("greeter_comm"), Some(VArray([VString("_emit"), VString(argsJson)])))
  }

  datatype Sent = Sent(browser: nat, message: UserMessage)

  /** `greeter_comm_broadcast_cb`: one `_emit` message to every page, the
      sender's included, in monitor order. */
  function Broadcast(browsers: seq<Browser>, argsJson: string): (r: seq<Sent>)
    ensures |r| == |browsers|
    ensures forall i :: 0 <= i < |r| ==> r[i] == Sent(browsers[i].id, EmitMessage(argsJson))
  {
    seq(|browsers|, i requires 0 <= i < |browsers| => Sent(browsers[i].id, EmitMessage(argsJson)))
  }

  /** Every page receives the broadcast, whichever page sent it. */
  lemma BroadcastReachesEveryPage(browsers: seq<Browser>, argsJson: string, sender: Browser)
    requires sender in browsers
    ensures Sent(sender.id, EmitMessage(argsJson)) in Broadcast(browsers, argsJson)
  {
    var i :| 0 <= i < |browsers| && browsers[i] == sender;
    assert Broadcast(browsers, argsJson)[i] == Sent(sender.id, EmitMessage(argsJson));
  }

  /** `handle`: the JSON parameters are first turned into an array
      (`parsed`, None when the JSON value is not one), which panics for
      anything else, whatever the name. window_metadata is then answered
      only without parameters, broadcast only with at least one; anything
      else is `undefined`. The parameters are serialised back to JSON by
      `toJson`. Window metadata panics when there is no monitor. */
  function Handle(browsers: seq<Browser>, props: Browser, name: string, parsed: Option<seq<JsParam>>,
                  toJson: seq<JsParam> -> string): (r: Outcome<(CommReply, seq<Sent>)>)
    ensures r.Panic? <==> parsed.None? || (name == "window_metadata" && parsed.value == [] && browsers == [])
    ensures r.Value? && r.value.0.Metadata? ==>
      name == "window_metadata" && parsed == Some([]) && r.value.1 == []
      && r.value.0.metadata.overall == OverallBoundary(browsers).value
      && r.value.0.metadata.id == props.id && r.value.0.metadata.isPrimary == props.primary
      && r.value.0.metadata.position == (props.geometry.x, props.geometry.y)
      && r.value.0.metadata.size == (props.geometry.width, props.geometry.height)
    ensures r.Value? && r.value.0 == Null <==> parsed.Some? && name == "broadcast" && parsed.value != []
    ensures r.Value? && r.value.0 == Null ==> r.value.1 == Broadcast(browsers, toJson(parsed.value))
    ensures r.Value? && r.value.0 == UndefinedReply <==>
      (parsed.Some? && !(name == "window_metadata" && parsed.value == []) && !(name == "broadcast" && parsed.value != []))
    ensures r.Value? && r.value.0 == UndefinedReply ==> r.value.1 == []
  {
    match parsed
    case None => Panic("JSCValue is not an array")
    case Some(params) =>
      if name == "window_metadata" && params == [] then
        match OverallBoundary(browsers)
        case Panic(why) => Panic(why)
        case Value(b) =>
          var g := props.geometry;
          Value((Metadata(WindowMetadata(props.id, props.primary, (g.x, g.y), (g.width, g.height), b)), []))
      else if name == "broadcast" && params != [] then
        Value((Null, Broadcast(browsers, toJson(params))))
      else Value((UndefinedReply, []))
  }

  /** `load_theme`: the URI each page loads, the primary html for the
      primary monitor's page and the secondary html for every other. */
  function LoadTheme(browsers: seq<Browser>, primary: string, secondary: string): (r: seq<string>)
    ensures |r| == |browsers|
    ensures forall i :: 0 <= i < |r| ==> r[i] == "file://" + (if browsers[i].primary then primary else secondary)
  {
    seq(|browsers|, i requires 0 <= i < |browsers| => "file://" + (if browsers[i].primary then primary else secondary))
  }
}
