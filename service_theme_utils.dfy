/** The theme utilities of the service revision
    (crates/webkit-greeter/src/service/theme_utils.rs): `dirlist` receives
    its arguments as JSON text. The model uses the intended allow rule and
    the intended entry filter; the rule and the loop as written are in
    ThemeUtilsCommon. */
module ServiceThemeUtils {
  import opened Wrappers
  import opened Text
  import opened Paths
  import opened ThemeUtilsCommon

  /** The JSON values the arguments may hold, as far as `dirlist` looks at
      them. */
  datatype Json = JArray(items: seq<Json>) | JString(s: string) | JBool(b: bool) | JOther

  /** What `handle` answers: the text "undefined", or the JSON array of the
      listed paths (`"[]"` is the empty listing). */
  datatype Reply = Undefined | Files(paths: seq<string>)

  /** The arguments `dirlist` accepts: a two-element array of a path other
      than "/" and not starting with "./", and a boolean. */
  function DirlistArgs(args: Json): (r: Option<(string, bool)>)
    ensures r.Some? <==>
      args.JArray? && |args.items| == 2 && args.items[0].JString? && args.items[1].JBool?
      && args.items[0].s != "/" && !StartsWith(args.items[0].s, "./")
    ensures r.Some? ==> r.value == (args.items[0].s, args.items[1].b)
  {
    if args.JArray? && |args.items| == 2 && args.items[0].JString?
       && args.items[0].s != "/" && !StartsWith(args.items[0].s, "./") && args.items[1].JBool?
    then Some((args.items[0].s, args.items[1].b))
    else None
  }

  /** The listing `dirlist` returns for parsed arguments. */
  function Dirlist(allowed: seq<string>, args: Json, fs: Fs): (r: seq<string>)
    ensures DirlistArgs(args).None? ==> r == []
    ensures DirlistArgs(args).Some? ==>
      r == ListDir(allowed, DirlistArgs(args).value.0, DirlistArgs(args).value.1, fs)
  {
    match DirlistArgs(args)
    case None => []
    case Some((path, onlyImages)) => ListDir(allowed, path, onlyImages, fs)
  }

  /** `handle`: `dirlist` runs only for that method with arguments other
      than the text "[]"; text that is not JSON (`parsed` is None) makes the
      `expect` panic. */
  function HandleReply(allowed: seq<string>, methodName: string, jsonArgs: string, parsed: Option<Json>, fs: Fs): (r: Outcome<Reply>)
    ensures r == Value(Undefined) <==> methodName != "dirlist" || jsonArgs == "[]"
    ensures r.Panic? <==> methodName == "dirlist" && jsonArgs != "[]" && parsed.None?
    ensures r.Value? && r.value.Files? ==> parsed.Some? && r.value.paths == Dirlist(allowed, parsed.value, fs)
  {
    if methodName == "dirlist" && jsonArgs != "[]" then
      match parsed
      case None => Panic("args is not a JSON string")
      case Some(args) => Value(Files(Dirlist(allowed, args, fs)))
    else Value(Undefined)
  }

  /** `handle` with the allow check and the entry loop as written: besides
      text that is not JSON, an image listing of a directory the check lets
      through panics in the loop. */
  function HandleReplyAsWritten(allowed: seq<string>, methodName: string, jsonArgs: string, parsed: Option<Json>, fs: Fs): (r: Outcome<Reply>)
    ensures r == Value(Undefined) <==> methodName != "dirlist" || jsonArgs == "[]"
    ensures r.Panic? <==> (methodName == "dirlist" && jsonArgs != "[]"
      && (parsed.None? || (DirlistArgs(parsed.value).Some?
            && ListDirAsWritten(allowed, DirlistArgs(parsed.value).value.0, DirlistArgs(parsed.value).value.1, fs).Panic?)))
    ensures r.Value? && r.value.Files? && parsed.Some? && DirlistArgs(parsed.value).Some? ==>
      Value(r.value.paths) == ListDirAsWritten(allowed, DirlistArgs(parsed.value).value.0, DirlistArgs(parsed.value).value.1, fs)
  {
    if methodName == "dirlist" && jsonArgs != "[]" then
      match parsed
      case None => Panic("args is not a JSON string")
      case Some(args) =>
        match DirlistArgs(args)
        case None => Value(Files([]))
        case Some((path, onlyImages)) =>
          match ListDirAsWritten(allowed, path, onlyImages, fs)
          case Panic(why) => Panic(why)
          case Value(files) => Value(Files(files))
    else Value(Undefined)
  }

  /** Without the image filter, and where the two allow checks agree, the
      handler as written answers what the intended one answers. */
  lemma HandleAsWrittenAgrees(allowed: seq<string>, methodName: string, jsonArgs: string, args: Json, fs: Fs)
    requires DirlistArgs(args).Some? ==> !DirlistArgs(args).value.1 && RulesAgree(allowed, DirlistArgs(args).value.0, fs)
    ensures HandleReplyAsWritten(allowed, methodName, jsonArgs, Some(args), fs) == HandleReply(allowed, methodName, jsonArgs, Some(args), fs)
  {
    if DirlistArgs(args).Some? {
      ListDirAgrees(allowed, DirlistArgs(args).value.0, fs);
    }
  }

  /** A path outside every allowed directory is never listed. */
  lemma OutsideAllowedListsNothing(allowed: seq<string>, path: string, onlyImages: bool, fs: Fs)
    requires path in fs.canonical && !Permitted(allowed, fs.canonical[path])
    ensures Dirlist(allowed, JArray([JString(path), JBool(onlyImages)]), fs) == []
  {
  }

  /** The theme utilities object: the directories it may list, fixed at
      construction. */
  class ThemeUtils {
    var allowedDirs: seq<string>

    /** `new`: the given directories, then the theme's directory when the
        theme path resolves (`canonicalTheme`), then the temporary
        directory. */
    constructor (given: seq<string>, canonicalTheme: Option<string>, tmpDir: string)
      ensures allowedDirs == AllowedDirs(given, canonicalTheme, tmpDir)
    {
      allowedDirs := given;
      if canonicalTheme.Some? {
        allowedDirs := allowedDirs + [DirOf(canonicalTheme.value)];
      }
      allowedDirs := allowedDirs + [tmpDir];
    }

    method Handle(methodName: string, jsonArgs: string, parsed: Option<Json>, fs: Fs) returns (r: Outcome<Reply>)
      ensures r == HandleReply(allowedDirs, methodName, jsonArgs, parsed, fs)
    {
      if methodName == "dirlist" && jsonArgs != "[]" {
        if parsed.None? {
          return Panic("args is not a JSON string");
        }
        var files := DirlistEntries(parsed.value, fs);
        r := Value(Files(files));
      } else {
        r := Value(Undefined);
      }
    }

    /** `dirlist`: the argument checks with their early returns, then the
        loop over the directory's readable entries. */
    method DirlistEntries(args: Json, fs: Fs) returns (files: seq<string>)
      ensures files == Dirlist(allowedDirs, args, fs)
    {
      if !(args.JArray? && |args.items| == 2 && args.items[0].JString?
           && args.items[0].s != "/" && !StartsWith(args.items[0].s, "./") && args.items[1].JBool?) {
        return [];
      }
      var path, onlyImages := args.items[0].s, args.items[1].b;
      if path !in fs.canonical {
        return [];
      }
      var resolved := fs.canonical[path];
      if !IsAbsolute(resolved) || resolved !in fs.dirs {
        return [];
      }
      if !Permitted(allowedDirs, resolved) {
        return [];
      }
      if resolved !in fs.listings {
        return [];
      }
      var entries := fs.listings[resolved];
      files := [];
      var i := 0;
      while i < |entries|
        invariant 0 <= i <= |entries|
        invariant files == Listing(resolved, entries[..i], onlyImages)
      {
        var entry := entries[i];
        ListingSnoc(resolved, entries, onlyImages, i);
        if !IsDotEntry(entry.name) {
          var element := Element(resolved, entry.name);
          if onlyImages {
            if entry.fileType == Some(RegularFile) && IsImageName(entry.name) {
              files := files + [element];
            }
          } else {
            files := files + [element];
          }
        }
        i := i + 1;
      }
      assert entries[..i] == entries;
    }

    /** `handle` as written, running the `dirlist` below. */
    method HandleAsWritten(methodName: string, jsonArgs: string, parsed: Option<Json>, fs: Fs) returns (r: Outcome<Reply>)
      ensures r == HandleReplyAsWritten(allowedDirs, methodName, jsonArgs, parsed, fs)
    {
      if methodName == "dirlist" && jsonArgs != "[]" {
        if parsed.None? {
          return Panic("args is not a JSON string");
        }
        var listed := DirlistEntriesAsWritten(parsed.value, fs);
        match listed
        case Panic(why) => r := Panic(why);
        case Value(files) => r := Value(Files(files));
      } else {
        r := Value(Undefined);
      }
    }

    /** `dirlist` as written: the allow check refuses only a directory
        inside every allowed one, and with `onlyImages` the first entry other
        than "." and ".." panics in `GStr::from_str_with_nul`. */
    method DirlistEntriesAsWritten(args: Json, fs: Fs) returns (r: Outcome<seq<string>>)
      ensures DirlistArgs(args).None? ==> r == Value([])
      ensures DirlistArgs(args).Some? ==>
        r == ListDirAsWritten(allowedDirs, DirlistArgs(args).value.0, DirlistArgs(args).value.1, fs)
    {
      if !(args.JArray? && |args.items| == 2 && args.items[0].JString?
           && args.items[0].s != "/" && !StartsWith(args.items[0].s, "./") && args.items[1].JBool?) {
        return Value([]);
      }
      var path, onlyImages := args.items[0].s, args.items[1].b;
      if path !in fs.canonical {
        return Value([]);
      }
      var resolved := fs.canonical[path];
      if !IsAbsolute(resolved) || resolved !in fs.dirs {
        return Value([]);
      }
      if RefusedAsWritten(allowedDirs, resolved) {
        return Value([]);
      }
      if resolved !in fs.listings {
        return Value([]);
      }
      r := ReadEntriesAsWritten(resolved, fs.listings[resolved], onlyImages);
    }
  }
}
