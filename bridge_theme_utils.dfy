/** The theme utilities of the bridge revision
    (crates/webkit-greeter/src/bridge/theme_utils.rs): `dirlist` receives
    its parameters as JavaScript values. The model uses the intended allow
    rule and entry filter, as in ServiceThemeUtils. */
module BridgeThemeUtils {
  import opened Wrappers
  import opened Text
  import opened Paths
  import opened ThemeUtilsCommon
  import Bridge

  /** The JavaScript values the parameters may hold, as far as `dirlist`
      looks at them. */
  datatype JsValue = JsArray(items: seq<JsValue>) | JsString(s: string) | JsBool(b: bool) | JsOtherValue

  /** What `handle` answers: undefined, null, or an array of paths. */
  datatype Reply = Undefined | Null | Files(paths: seq<string>)

  /** Whether a path parameter is refused before it is resolved: not a
      string, blank after trimming, "/" itself, or starting with "./". */
  predicate RefusedPath(p: JsValue) {
    !p.JsString? || Trim(p.s) == "" || p.s == "/" || StartsWith(p.s, "./")
  }

  /** The listing `dirlist` returns for its parameters. The image filter
      applies only when the second parameter is the boolean true. */
  function Dirlist(allowed: seq<string>, params: seq<JsValue>, fs: Fs): (r: Reply)
    ensures r == Null <==> |params| < 2
    ensures |params| >= 2 && RefusedPath(params[0]) ==> r == Files([])
    ensures |params| >= 2 && !RefusedPath(params[0]) ==>
      r == Files(ListDir(allowed, params[0].s, params[1] == JsBool(true), fs))
  {
    if |params| < 2 then Null
    else if RefusedPath(params[0]) then Files([])
    else Files(ListDir(allowed, params[0].s, params[1] == JsBool(true), fs))
  }

  /** `handle`: the parameters are converted to an array first, which
      panics for a value that is not one; `dirlist` runs only for that name
      with at least one parameter. */
  function HandleReply(allowed: seq<string>, name: string, params: JsValue, fs: Fs): (r: Outcome<Reply>)
    ensures r.Panic? <==> !params.JsArray?
    ensures r == Value(Undefined) <==> params.JsArray? && (name != "dirlist" || params.items == [])
    ensures r.Value? && r.value != Undefined ==> r.value == Dirlist(allowed, params.items, fs)
  {
    if !params.JsArray? then Panic("JSCValue is not an array")
    else if name == "dirlist" && params.items != [] then Value(Dirlist(allowed, params.items, fs))
    else Value(Undefined)
  }

  /** `handle` with the allow check and the entry loop as written: besides
      parameters that are not an array, an image listing of a directory the
      check lets through panics in the loop. */
  function HandleReplyAsWritten(allowed: seq<string>, name: string, params: JsValue, fs: Fs): (r: Outcome<Reply>)
    ensures r.Panic? <==> (!params.JsArray?
      || (name == "dirlist" && |params.items| >= 2 && !RefusedPath(params.items[0])
          && ListDirAsWritten(allowed, params.items[0].s, params.items[1] == JsBool(true), fs).Panic?))
    ensures r == Value(Undefined) <==> params.JsArray? && (name != "dirlist" || params.items == [])
    ensures r.Value? && r.value.Files? && params.JsArray? && |params.items| >= 2 && !RefusedPath(params.items[0]) ==>
      Value(r.value.paths) == ListDirAsWritten(allowed, params.items[0].s, params.items[1] == JsBool(true), fs)
  {
    if !params.JsArray? then Panic("JSCValue is not an array")
    else if name == "dirlist" && params.items != [] then
      var ps := params.items;
      if |ps| < 2 then Value(Null)
      else if RefusedPath(ps[0]) then Value(Files([]))
      else match ListDirAsWritten(allowed, ps[0].s, ps[1] == JsBool(true), fs)
        case Panic(why) => Panic(why)
        case Value(files) => Value(Files(files))
    else Value(Undefined)
  }

  /** Without the image filter, and where the two allow checks agree, the
      handler as written answers what the intended one answers. */
  lemma HandleAsWrittenAgrees(allowed: seq<string>, name: string, params: JsValue, fs: Fs)
    requires params.JsArray? && |params.items| >= 2 && !RefusedPath(params.items[0]) ==>
      params.items[1] != JsBool(true) && RulesAgree(allowed, params.items[0].s, fs)
    ensures HandleReplyAsWritten(allowed, name, params, fs) == HandleReply(allowed, name, params, fs)
  {
    if params.JsArray? && |params.items| >= 2 && !RefusedPath(params.items[0]) {
      ListDirAgrees(allowed, params.items[0].s, fs);
    }
  }

  /** A single parameter reaches `dirlist` and gets null, not a listing. */
  lemma OneParamGetsNull(allowed: seq<string>, path: string, fs: Fs)
    ensures HandleReply(allowed, "dirlist", JsArray([JsString(path)]), fs) == Value(Null)
  {
  }

  /** Any second parameter other than the boolean true lists every entry,
      as `false` does. */
  lemma NonBooleanFlagListsAll(allowed: seq<string>, path: JsValue, flag: JsValue, fs: Fs)
    requires flag != JsBool(true)
    ensures Dirlist(allowed, [path, flag], fs) == Dirlist(allowed, [path, JsBool(false)], fs)
  {
  }

  /** The allowed directories of the dispatcher's theme utilities: the
      themes directory, the background images directory, the theme's own
      directory when it resolves, and the temporary directory. */
  lemma DispatcherDirs(themesDir: string, backgroundImagesDir: string, canonicalTheme: Option<string>, tmpDir: string)
    ensures var r := AllowedDirs(Bridge.DispatcherAllowedDirs(themesDir, backgroundImagesDir), canonicalTheme, tmpDir);
      r[0] == themesDir && r[1] == backgroundImagesDir && r[|r| - 1] == tmpDir
      && |r| == (if canonicalTheme.Some? then 4 else 3)
  {
    var given := Bridge.DispatcherAllowedDirs(themesDir, backgroundImagesDir);
    var r := AllowedDirs(given, canonicalTheme, tmpDir);
    assert r[..|given|][0] == r[0] && r[..|given|][1] == r[1];
  }

  /** The theme utilities object; the JavaScript context it holds only
      builds values and is not modelled. */
  class ThemeUtils {
    var allowedDirs: seq<string>

    constructor (given: seq<string>, canonicalTheme: Option<string>, tmpDir: string)
      ensures allowedDirs == AllowedDirs(given, canonicalTheme, tmpDir)
    {
      allowedDirs := given;
      if canonicalTheme.Some? {
        allowedDirs := allowedDirs + [DirOf(canonicalTheme.value)];
      }
      allowedDirs := allowedDirs + [tmpDir];
    }

    method Handle(name: string, params: JsValue, fs: Fs) returns (r: Outcome<Reply>)
      ensures r == HandleReply(allowedDirs, name, params, fs)
    {
      if !params.JsArray? {
        return Panic("JSCValue is not an array");
      }
      if name == "dirlist" && params.items != [] {
        var reply := DirlistEntries(params.items, fs);
        r := Value(reply);
      } else {
        r := Value(Undefined);
      }
    }

    /** `dirlist`: the parameter checks with their early returns, then the
        loop over the directory's readable entries. */
    method DirlistEntries(params: seq<JsValue>, fs: Fs) returns (r: Reply)
      ensures r == Dirlist(allowedDirs, params, fs)
    {
      if |params| < 2 {
        return Null;
      }
      var path, onlyImages := params[0], params[1];
      if !path.JsString? || Trim(path.s) == "" {
        return Files([]);
      }
      if path.s == "/" || StartsWith(path.s, "./") {
        return Files([]);
      }
      if path.s !in fs.canonical {
        return Files([]);
      }
      var resolved := fs.canonical[path.s];
      if !IsAbsolute(resolved) || resolved !in fs.dirs {
        return Files([]);
      }
      if !Permitted(allowedDirs, resolved) {
        return Files([]);
      }
      if resolved !in fs.listings {
        return Files([]);
      }
      var entries := fs.listings[resolved];
      ghost var images := onlyImages == JsBool(true);
      assert images <==> onlyImages.JsBool? && onlyImages.b;
      var files := [];
      var i := 0;
      while i < |entries|
        invariant 0 <= i <= |entries|
        invariant files == Listing(resolved, entries[..i], images)
      {
        var entry := entries[i];
        ListingSnoc(resolved, entries, images, i);
        if !IsDotEntry(entry.name) {
          var element := Element(resolved, entry.name);
          if onlyImages.JsBool? && onlyImages.b {
            if entry.fileType == Some(RegularFile) && IsImageName(entry.name) {
              files := files + [element];
            }
          } else {
            files := files + [element];
          }
        }
        i := i + 1;
      }
      assert entries[..i] == entries;
      r := Files(files);
    }

    /** `handle` as written, running the `dirlist` below. */
    method HandleAsWritten(name: string, params: JsValue, fs: Fs) returns (r: Outcome<Reply>)
      ensures r == HandleReplyAsWritten(allowedDirs, name, params, fs)
    {
      if !params.JsArray? {
        return Panic("JSCValue is not an array");
      }
      if name == "dirlist" && params.items != [] {
        r := DirlistEntriesAsWritten(params.items, fs);
      } else {
        r := Value(Undefined);
      }
    }

    /** `dirlist` as written: the allow check refuses only a directory
        inside every allowed one, and when the second parameter is the
        boolean true the first entry other than "." and ".." panics in
        `GStr::from_str_with_nul`. */
    method DirlistEntriesAsWritten(params: seq<JsValue>, fs: Fs) returns (r: Outcome<Reply>)
      ensures r == Value(Null) <==> |params| < 2
      ensures |params| >= 2 && RefusedPath(params[0]) ==> r == Value(Files([]))
      ensures |params| >= 2 && !RefusedPath(params[0]) ==>
        var listed := ListDirAsWritten(allowedDirs, params[0].s, params[1] == JsBool(true), fs);
        (r.Panic? <==> listed.Panic?) && (r.Panic? ==> r.reason == listed.reason)
        && (r.Value? ==> r.value.Files? && listed == Value(r.value.paths))
    {
      if |params| < 2 {
        return Value(Null);
      }
      var path, onlyImages := params[0], params[1];
      if !path.JsString? || Trim(path.s) == "" {
        return Value(Files([]));
      }
      if path.s == "/" || StartsWith(path.s, "./") {
        return Value(Files([]));
      }
      if path.s !in fs.canonical {
        return Value(Files([]));
      }
      var resolved := fs.canonical[path.s];
      if !IsAbsolute(resolved) || resolved !in fs.dirs {
        return Value(Files([]));
      }
      if RefusedAsWritten(allowedDirs, resolved) {
        return Value(Files([]));
      }
      if resolved !in fs.listings {
        return Value(Files([]));
      }
      var listed := ReadEntriesAsWritten(resolved, fs.listings[resolved], onlyImages.JsBool? && onlyImages.b);
      match listed
      case Panic(why) => r := Panic(why);
      case Value(files) => r := Value(Files(files));
    }
  }
}
