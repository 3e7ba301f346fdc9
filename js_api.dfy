/** The page-side checks of `theme_utils.dirlist` and the small request
    wrappers of the page-side API: themes/javascript-api/common/mod.ts,
    crates/greeters/src/resources/greetd.js and
    crates/greeters/src/resources/lightdm.js. Requests go through
    `send_request`, whose answer (or thrown error) is given. JavaScript
    strings are modelled as sequences of characters. */
module JsApi {
  import opened Wrappers

  /** A request argument. */
  datatype Arg = AString(s: string) | ABool(b: bool) | AOther

  datatype Request = Request(target: string, methodName: string, args: seq<Arg>)

  /** `send_request(target, method, args = [])`: a missing argument list
      is sent as the empty one. */
  function SendRequest(target: string, methodName: string, args: Option<seq<Arg>>): (r: Request)
    ensures r.target == target && r.methodName == methodName
    ensures args.None? ==> r.args == []
    ensures args.Some? ==> r.args == args.value
  {
    Request(target, methodName, args.GetOr([]))
  }

  /** The path argument of `dirlist`: a string, or another value. */
  datatype PathArg = PString(s: string) | PNotString

  /** The characters the regular expression `.` does not match. */
  predicate IsLineTerminator(c: char) {
    c == '\n' || c == '\r' || c == '\U{2028}' || c == '\U{2029}'
  }

  /** `/^[^/].+/` matches: a first character other than '/' and a second
      one that `.` matches. A one-character relative path does not match. */
  predicate LooksRelative(p: string) {
    |p| >= 2 && p[0] != '/' && !IsLineTerminator(p[1])
  }

  /** The number of '.' characters `s` starts with. */
  function LeadingDots(s: string): (r: nat)
    ensures r <= |s|
    ensures forall i :: 0 <= i < r ==> s[i] == '.'
    ensures r < |s| ==> s[r] != '.'
  {
    if s != [] && s[0] == '.' then 1 + LeadingDots(s[1..]) else 0
  }

  /** `/\/\.+(?=\/)/` matches at index `i`: a '/', one or more dots, and a
      '/' right after them. */
  predicate DotSegmentAt(s: string, i: nat) {
    i < |s| && s[i] == '/' && LeadingDots(s[i + 1..]) >= 1
    && i + 1 + LeadingDots(s[i + 1..]) < |s| && s[i + 1 + LeadingDots(s[i + 1..])] == '/'
  }

  predicate HasDotSegment(s: string) {
    exists i :: 0 <= i < |s| && DotSegmentAt(s, i)
  }

  /** `s.replace(/\/\.+(?=\/)/g, "")`: scanning left to right, every '/'
      followed by a run of dots and another '/' loses the '/' and the dots;
      the '/' after them stays and may start the next match. */
  function StripDotSegments(s: string): (r: string)
    ensures |r| <= |s|
    decreases |s|
  {
    if s == [] then []
    else if DotSegmentAt(s, 0) then StripDotSegments(s[1 + LeadingDots(s[1..])..])
    else [s[0]] + StripDotSegments(s[1..])
  }

  lemma {:induction false} LeadingDotsExact(s: string, k: nat)
    requires k < |s| && s[k] != '.' && forall i :: 0 <= i < k ==> s[i] == '.'
    ensures LeadingDots(s) == k
  {
    if k > 0 {
      LeadingDotsExact(s[1..], k - 1);
    }
  }

  lemma {:induction false} LeadingDotsAll(s: string)
    requires forall i :: 0 <= i < |s| ==> s[i] == '.'
    ensures LeadingDots(s) == |s|
  {
    if s != [] {
      LeadingDotsAll(s[1..]);
    }
  }

  /** A match at index `i + 1` of a string is a match at index `i` of its
      tail, and the other way round. */
  lemma DotSegmentShift(c: char, s: string, i: nat)
    ensures DotSegmentAt([c] + s, i + 1) <==> DotSegmentAt(s, i)
  {
    if i < |s| {
      assert ([c] + s)[i + 2..] == s[i + 1..];
    }
  }

  /** The stripped path keeps the first character: an absolute path stays
      absolute. */
  lemma {:induction false} StripKeepsFirst(s: string)
    requires s != []
    ensures StripDotSegments(s) != [] && StripDotSegments(s)[0] == s[0]
    decreases |s|
  {
    if DotSegmentAt(s, 0) {
      var rest := s[1 + LeadingDots(s[1..])..];
      assert rest[0] == '/';
      StripKeepsFirst(rest);
    }
  }

  /** Leading dots are never part of a match, so they are kept. */
  lemma {:induction false} StripKeepsLeadingDots(s: string, k: nat)
    requires k <= |s| && forall i :: 0 <= i < k ==> s[i] == '.'
    ensures StripDotSegments(s) == s[..k] + StripDotSegments(s[k..])
  {
    if k == 0 {
      assert s[..k] == [] && s[k..] == s;
    } else {
      var t := s[1..];
      calc {
        StripDotSegments(s);
      == { StripKeepsFront(s); }
        [s[0]] + StripDotSegments(t);
      == { StripKeepsLeadingDots(t, k - 1); assert t[k - 1..] == s[k..]; }
        [s[0]] + (t[..k - 1] + StripDotSegments(s[k..]));
      == { assert [s[0]] + t[..k - 1] == s[..k]; }
        s[..k] + StripDotSegments(s[k..]);
      }
    }
  }

  /** A first character that does not start a match is kept. */
  lemma StripKeepsFront(s: string)
    requires s != [] && s[0] != '/'
    ensures StripDotSegments(s) == [s[0]] + StripDotSegments(s[1..])
  {
    assert !DotSegmentAt(s, 0);
  }

  /** Nothing to strip when the pattern does not match: the guard the
      sources put before `replace` changes nothing. */
  lemma {:induction false} StripWithoutMatch(s: string)
    requires !HasDotSegment(s)
    ensures StripDotSegments(s) == s
    decreases |s|
  {
    if s != [] {
      assert !DotSegmentAt(s, 0);
      assert !HasDotSegment(s[1..]) by {
        forall i | 0 <= i < |s[1..]| && DotSegmentAt(s[1..], i)
          ensures false
        {
          assert s == [s[0]] + s[1..];
          DotSegmentShift(s[0], s[1..], i);
        }
      }
      StripWithoutMatch(s[1..]);
      assert s == [s[0]] + s[1..];
    }
  }

  /** A first character that does not start a match still does not after
      its tail is stripped: the dots right after it come unchanged from the
      tail, and so does the character after them. */
  lemma NoMatchAtFront(c: char, t: string)
    requires !DotSegmentAt([c] + t, 0)
    ensures !DotSegmentAt([c] + StripDotSegments(t), 0)
  {
    var rest := StripDotSegments(t);
    var r := [c] + rest;
    assert r[1..] == rest;
    assert ([c] + t)[1..] == t;
    var k := LeadingDots(t);
    StripKeepsLeadingDots(t, k);
    if k == |t| {
      assert rest == t;
      LeadingDotsAll(rest);
    } else {
      StripKeepsFirst(t[k..]);
      assert rest[k] == t[k];
      LeadingDotsExact(rest, k);
    }
  }

  /** No '/'-dots-'/' sequence survives the stripping, so ".." and "."
      never remain as a directory in the middle of the path. */
  lemma {:induction false} StripLeavesNoDotSegment(s: string)
    ensures !HasDotSegment(StripDotSegments(s))
    decreases |s|
  {
    if s == [] {
    } else if DotSegmentAt(s, 0) {
      StripLeavesNoDotSegment(s[1 + LeadingDots(s[1..])..]);
    } else {
      var t := s[1..];
      var rest := StripDotSegments(t);
      StripLeavesNoDotSegment(t);
      var r := [s[0]] + rest;
      assert StripDotSegments(s) == r;
      assert s == [s[0]] + t;
      forall i | 0 <= i < |r|
        ensures !DotSegmentAt(r, i)
      {
        if i == 0 {
          NoMatchAtFront(s[0], t);
        } else {
          DotSegmentShift(s[0], rest, i - 1);
        }
      }
    }
  }

  /** The path a `dirlist` call requests, or None when it answers [] at
      once: an empty or non-string path, or one that looks relative. The
      dot segments of an accepted path are stripped. */
  function DirlistPath(path: PathArg): (r: Option<string>)
    ensures r.None? <==> !path.PString? || path.s == "" || LooksRelative(path.s)
    ensures r.Some? ==> r.value == StripDotSegments(path.s)
  {
    if !path.PString? || path.s == "" then None
    else if LooksRelative(path.s) then None
    else if HasDotSegment(path.s) then Some(StripDotSegments(path.s))
    else StripWithoutMatch(path.s); Some(path.s)
  }

  /** A requested path starts as the given one did, which is '/' unless
      the path is one character long or its second character is a line
      terminator, and holds no '/'-dots-'/' sequence. */
  lemma RequestedPathIsClean(path: PathArg)
    ensures var r := DirlistPath(path);
      r.Some? ==> r.value != [] && r.value[0] == path.s[0] && !HasDotSegment(r.value)
    ensures var r := DirlistPath(path);
      r.Some? && |path.s| >= 2 && !IsLineTerminator(path.s[1]) ==> r.value[0] == '/'
  {
    var r := DirlistPath(path);
    if r.Some? {
      if HasDotSegment(path.s) {
        StripKeepsFirst(path.s);
        StripLeavesNoDotSegment(path.s);
      } else {
        StripWithoutMatch(path.s);
      }
    }
  }

  /** What the request to the back end produced: its answer, or a thrown
      error. */
  datatype RequestResult = Answered(files: seq<string>) | Threw(message: string)

  /** The `only_image` argument as sent: an omitted (undefined) argument
      takes the default `true`; any other value is passed on as it is. */
  function OnlyImageArg(onlyImage: Option<Arg>): (r: Arg)
    ensures onlyImage.None? ==> r == ABool(true)
    ensures onlyImage.Some? ==> r == onlyImage.value
  {
    if onlyImage.Some? then onlyImage.value else ABool(true)
  }

  /** `dirlist` of common/mod.ts and greetd.js: the request made, if any,
      and the listing returned (a thrown error gives []). */
  function Dirlist(path: PathArg, onlyImage: Option<Arg>, result: RequestResult): (r: (Option<Request>, seq<string>))
    ensures DirlistPath(path).None? ==> r == (None, [])
    ensures DirlistPath(path).Some? ==>
      r.0 == Some(Request("theme_utils", "dirlist", [AString(DirlistPath(path).value), OnlyImageArg(onlyImage)]))
    ensures result.Threw? ==> r.1 == []
    ensures DirlistPath(path).Some? && result.Answered? ==> r.1 == result.files
  {
    match DirlistPath(path)
    case None => (None, [])
    case Some(p) =>
      var request := SendRequest("theme_utils", "dirlist", Some([AString(p), OnlyImageArg(onlyImage)]));
      (Some(request), if result.Answered? then result.files else [])
  }

  /** A one-character relative path passes the page-side checks and is
      requested as it is. */
  lemma OneCharacterRelativePathPasses()
    ensures Dirlist(PString("a"), None, Answered([])).0 == Some(Request("theme_utils", "dirlist", [AString("a"), ABool(true)]))
  {
    assert !HasDotSegment("a");
  }

  /** How the lightdm.js `dirlist` ends: it returns the callback's own
      return value or the listing, or the callback's exception escapes. */
  datatype CallbackReturn = CallbackValue | Listing(files: seq<string>) | Escaped

  /** The last `return callback([])`: an exception the callback throws on
      the empty listing is not caught. */
  function EmptyCallback(throwsOn: set<seq<string>>): (r: CallbackReturn)
    ensures r == Escaped <==> [] in throwsOn
    ensures r != Escaped ==> r == CallbackValue
  {
    if [] in throwsOn then Escaped else CallbackValue
  }

  /** `dirlist` of lightdm.js: the callback receives the listing, or []
      when the path is refused or the request throws. The callback is
      given by the listings it throws on (`throwsOn`). A callback that
      throws on the listing is caught like a failed request, so it is
      called a second time, with []; a throw on [] escapes. Returns the
      request, the callback's arguments in order, and how the call ends. */
  function CallbackDirlist(path: PathArg, onlyImage: Option<Arg>, result: RequestResult, throwsOn: set<seq<string>>)
    : (r: (Option<Request>, seq<seq<string>>, CallbackReturn))
    ensures DirlistPath(path).None? ==> r == (None, [[]], EmptyCallback(throwsOn))
    ensures r.0 == Dirlist(path, onlyImage, result).0
    ensures r.2.Listing? <==> DirlistPath(path).Some? && result.Answered? && result.files !in throwsOn
    ensures r.2.Listing? ==> r.1 == [result.files] && r.2.files == result.files
    ensures r.1 != [] && (r.1[|r.1| - 1] == Dirlist(path, onlyImage, result).1 || (result.Answered? && result.files in throwsOn))
    ensures DirlistPath(path).Some? && result.Answered? && result.files in throwsOn ==> r.1 == [result.files, []]
    // the call ends in an exception exactly when the last callback call throws, which is always one on []
    ensures r.2 == Escaped <==> r.1[|r.1| - 1] in throwsOn
    ensures r.2 == Escaped ==> r.1[|r.1| - 1] == [] && [] in throwsOn
  {
    match DirlistPath(path)
    case None => (None, [[]], EmptyCallback(throwsOn))
    case Some(p) =>
      var request := Some(SendRequest("theme_utils", "dirlist", Some([AString(p), OnlyImageArg(onlyImage)])));
      match result
      case Threw(_) => (request, [[]], EmptyCallback(throwsOn))
      case Answered(files) =>
        if files in throwsOn then (request, [files, []], EmptyCallback(throwsOn))
        else (request, [files], Listing(files))
  }

  /** A JavaScript reply of the back end: a falsy value (null, undefined,
      false, 0, "") or an object with its own string-valued properties. */
  datatype Reply = Falsy | Object(fields: map<string, string>)

  /** An own property, or undefined. */
  function Field(fields: map<string, string>, key: string): Option<string> {
    if key in fields then Some(fields[key]) else None
  }

  datatype Language = Language(code: Option<string>, name: Option<string>, territory: Option<string>)
  datatype Layout = Layout(description: Option<string>, name: Option<string>, shortDescription: Option<string>)

  /** What the `language` and `layout` getters return: the falsy reply
      itself, or the wrapped object. */
  datatype Got<T> = AsIs | Wrapped(value: T)

  /** The `language` getter: `language && new Language(language)`. */
  function LanguageGetter(reply: Reply): (r: Got<Language>)
    ensures r.AsIs? <==> reply.Falsy?
    ensures r.Wrapped? ==> (r.value.code == Field(reply.fields, "code") && r.value.name == Field(reply.fields, "name")
                            && r.value.territory == Field(reply.fields, "territory"))
  {
    match reply
    case Falsy => AsIs
    case Object(f) => Wrapped(Language(Field(f, "code"), Field(f, "name"), Field(f, "territory")))
  }

  /** The `layout` getter: `layout && new Layout(layout)`. */
  function LayoutGetter(reply: Reply): (r: Got<Layout>)
    ensures r.AsIs? <==> reply.Falsy?
    ensures r.Wrapped? ==> (r.value.name == Field(reply.fields, "name")
                            && r.value.description == Field(reply.fields, "description")
                            && r.value.shortDescription == Field(reply.fields, "short_description"))
  {
    match reply
    case Falsy => AsIs
    case Object(f) => Wrapped(Layout(Field(f, "description"), Field(f, "name"), Field(f, "short_description")))
  }

  /** A value assigned to `greeter.layout`. */
  datatype LayoutValue = LString(s: string) | LObject(fields: map<string, string>) | LNullish

  /** The `layout` setter: a string is sent as it is, an object by its
      `name` (undefined when it has none); reading `name` of null or
      undefined throws a TypeError, and no request is made. */
  function LayoutSetter(value: LayoutValue): (r: Result<Request, string>)
    ensures r.Err? <==> value.LNullish?
    ensures value.LString? ==> r == Ok(Request("greeter", "layout", [AString(value.s)]))
    ensures value.LObject? && "name" in value.fields ==> r == Ok(Request("greeter", "layout", [AString(value.fields["name"])]))
    ensures value.LObject? && "name" !in value.fields ==> r == Ok(Request("greeter", "layout", [AOther]))
  {
    match value
    case LNullish => Err("TypeError")
    case LString(s) => Ok(SendRequest("greeter", "layout", Some([AString(s)])))
    case LObject(f) =>
      var arg := if "name" in f then AString(f["name"]) else AOther;
      Ok(SendRequest("greeter", "layout", Some([arg])))
  }

  /** The own properties a user object declares: undefined until the
      constructor copies the user's record. */
  const GreetdUserFields: set<string> := {"display_name", "home_directory", "image", "language", "logged_in", "session", "username"}
  const LightDMUserFields: set<string> := {"background", "display_name", "home_directory", "image", "language", "layout", "layouts", "logged_in", "session", "username"}

  /** `User` of greetd.js and `LightDMUser` of lightdm.js: the declared
      fields start undefined, then every own key of the record is copied
      (`Object.keys(user_info).forEach`). */
  class User {
    var props: map<string, Option<string>>

    constructor (declared: set<string>, keys: seq<string>, info: map<string, string>)
      requires forall k :: k in keys <==> k in info
      ensures props.Keys == declared + info.Keys
      ensures forall k :: k in info ==> props[k] == Some(info[k])
      ensures forall k :: k in declared && k !in info ==> props[k] == None
    {
      var own: map<string, Option<string>> := map f | f in declared :: None;
      var i := 0;
      while i < |keys|
        invariant 0 <= i <= |keys|
        invariant own.Keys == declared + set j | 0 <= j < i :: keys[j]
        invariant forall j :: 0 <= j < i ==> own[keys[j]] == Some(info[keys[j]])
        invariant forall k :: k in declared && k !in keys[..i] ==> own[k] == None
      {
        own := own[keys[i] := Some(info[keys[i]])];
        i := i + 1;
      }
      assert keys[..i] == keys;
      props := own;
    }
  }
}
