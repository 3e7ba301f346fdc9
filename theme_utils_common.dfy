/** What the two revisions of the theme utilities share
    (crates/webkit-greeter/src/service/theme_utils.rs and
    crates/webkit-greeter/src/bridge/theme_utils.rs): the directories a
    theme may list, the image-name filter, and the listing of one
    directory. The file system is given as a `Fs` value. */
module ThemeUtilsCommon {
  import opened Wrappers
  import opened Text
  import opened Paths

  /** What the calls observe of the file system: the paths `canonicalize`
      resolves and what to, the paths that are directories, and the
      directories `read_dir` can open with their readable entries. */
  datatype Fs = Fs(canonical: map<string, string>, dirs: set<string>, listings: map<string, seq<Entry>>)

  /** The normal components of a path: a root for an absolute path, then
      its non-empty segments other than ".". */
  function Components(p: string): seq<string> {
    (if IsAbsolute(p) then ["/"] else []) + NormalSegments(Split(p, {'/'}))
  }

  function NormalSegments(segs: seq<string>): seq<string> {
    if segs == [] then []
    else (if segs[0] == "" || segs[0] == "." then [] else [segs[0]]) + NormalSegments(segs[1..])
  }

  /** `Path::starts_with`: `base` is a prefix of `p` component by component
      ("/usr/share" is a prefix of "/usr/share/backgrounds", not of
      "/usr/shared"). */
  predicate PathStartsWith(p: string, base: string) {
    Components(base) <= Components(p)
  }

  /** The intended rule: a path may be listed when it lies inside one of
      the allowed directories. */
  predicate Permitted(allowed: seq<string>, resolved: string) {
    exists i :: 0 <= i < |allowed| && PathStartsWith(resolved, allowed[i])
  }

  /** The rule the code applies: a path is refused when it lies inside
      every allowed directory. */
  predicate RefusedAsWritten(allowed: seq<string>, resolved: string) {
    forall i :: 0 <= i < |allowed| ==> PathStartsWith(resolved, allowed[i])
  }

  /** Splitting at a separator after a word without separators gives the
      word, then the pieces of the rest. */
  lemma {:induction false} SplitWord(w: string, c: char, rest: string, cs: set<char>)
    requires c in cs && forall ch :: ch in w ==> ch !in cs
    ensures Split(w + [c] + rest, cs) == [w] + Split(rest, cs)
  {
    var s := w + [c] + rest;
    if w == [] {
      assert s[1..] == rest;
    } else {
      assert s[1..] == w[1..] + [c] + rest;
      SplitWord(w[1..], c, rest, cs);
      assert [w[0]] + w[1..] == w;
    }
  }

  /** A path below the root whose first segment is `w`. */
  lemma {:induction false} SecondComponent(w: string, rest: string)
    requires w != "" && w != "." && '/' !in w
    ensures var p := "/" + w + "/" + rest;
      |Components(p)| >= 2 && Components(p)[1] == w
  {
    var p := "/" + w + "/" + rest;
    assert IsAbsolute(p);
    SplitWord("", '/', w + "/" + rest, {'/'});
    assert p == "" + ['/'] + (w + "/" + rest);
    SplitWord(w, '/', rest, {'/'});
    assert w + "/" + rest == w + ['/'] + rest;
    var segs := Split(p, {'/'});
    assert segs == [""] + ([w] + Split(rest, {'/'}));
    assert segs[1..] == [w] + Split(rest, {'/'});
    assert NormalSegments(segs) == NormalSegments(segs[1..]);
    assert NormalSegments(segs[1..]) == [w] + NormalSegments(Split(rest, {'/'}));
  }

  /** A one-segment absolute path has the root and that segment. */
  lemma TopLevelComponents(w: string)
    requires w != "" && w != "." && '/' !in w
    ensures Components("/" + w) == ["/", w]
  {
    var p := "/" + w;
    assert IsAbsolute(p);
    assert p == "" + ['/'] + w;
    SplitWord("", '/', w, {'/'});
    SplitWhole(w, {'/'});
    var segs := Split(p, {'/'});
    assert segs == ["", w];
    assert NormalSegments([w]) == [w] + NormalSegments([]);
    assert NormalSegments(segs) == NormalSegments([w]) by {
      assert segs[1..] == [w];
    }
  }

  lemma {:induction false} SplitWhole(w: string, cs: set<char>)
    requires forall ch :: ch in w ==> ch !in cs
    ensures Split(w, cs) == [w]
  {
    if w != [] {
      SplitWhole(w[1..], cs);
      assert [w[0]] + w[1..] == w;
    }
  }

  /** Two allowed directories that part ways right below the root are
      never both prefixes of one path, so the check as written refuses
      nothing. */
  lemma NothingRefusedAsWritten(allowed: seq<string>, i: nat, j: nat, resolved: string)
    requires i < |allowed| && j < |allowed|
    requires |Components(allowed[i])| >= 2 && |Components(allowed[j])| >= 2
    requires Components(allowed[i])[1] != Components(allowed[j])[1]
    ensures !RefusedAsWritten(allowed, resolved)
  {
  }

  /** With the usual allowed directories (the themes directory, the
      background images directory and "/tmp"), the written check lets
      "/etc" through although the intended rule refuses it. */
  lemma AllowCheckInverted()
    ensures var allowed := ["/" + "usr" + "/" + "share/webkit-greeter/themes",
                            "/" + "usr" + "/" + "share/backgrounds", "/" + "tmp"];
      !RefusedAsWritten(allowed, "/" + "etc") && !Permitted(allowed, "/" + "etc")
  {
    var allowed := ["/" + "usr" + "/" + "share/webkit-greeter/themes",
                    "/" + "usr" + "/" + "share/backgrounds", "/" + "tmp"];
    SecondComponent("usr", "share/webkit-greeter/themes");
    SecondComponent("usr", "share/backgrounds");
    TopLevelComponents("tmp");
    TopLevelComponents("etc");
    NothingRefusedAsWritten(allowed, 1, 2, "/" + "etc");
    assert forall k :: 0 <= k < 3 ==> |Components(allowed[k])| >= 2 && Components(allowed[k])[1] != "etc";
  }

  /** A letter of the pattern, matched without regard to ASCII case. */
  predicate SameLetter(c: char, lower: char)
    requires 'a' <= lower <= 'z'
  {
    c == lower || c as int == lower as int - 32
  }

  predicate CaselessPrefix(ext: string, s: string)
    requires forall i :: 0 <= i < |ext| ==> 'a' <= ext[i] <= 'z'
  {
    |ext| <= |s| && forall i :: 0 <= i < |ext| ==> SameLetter(s[i], ext[i])
  }

  predicate ExtensionAt(s: string, j: nat)
    requires j <= |s|
  {
    CaselessPrefix("jpg", s[j..]) || CaselessPrefix("jpeg", s[j..]) || CaselessPrefix("png", s[j..])
    || CaselessPrefix("gif", s[j..]) || CaselessPrefix("bmp", s[j..]) || CaselessPrefix("webp", s[j..])
  }

  /** The caseless, unanchored pattern `.+\.(jpe?g|png|gif|bmp|webp)`: a
      '.' preceded by a character other than a line terminator and followed by
      one of the extensions (in any case). */
  predicate IsImageName(s: string) {
    exists k :: 1 <= k < |s| && !IsLineTerminator(s[k - 1]) && s[k] == '.' && ExtensionAt(s, k + 1)
  }

  /** The characters a GLib regex's `.` does not match under its default
      newline convention (any Unicode line terminator). */
  predicate IsLineTerminator(c: char) {
    c in {'\n', '\r', '\U{B}', '\U{C}', '\U{85}', '\U{2028}', '\U{2029}'}
  }

  predicate IsDotEntry(name: string) {
    name == "." || name == ".."
  }

  /** The listed form of an entry: `"/".join(resolved).join(name)`. */
  function Element(resolved: string, name: string): string {
    Join(Join("/", resolved), name)
  }

  /** Whether an entry is listed: never "." or "..", and with `onlyImages`
      only regular files whose names look like images. */
  predicate Listed(e: Entry, onlyImages: bool) {
    !IsDotEntry(e.name) && (onlyImages ==> e.fileType == Some(RegularFile) && IsImageName(e.name))
  }

  /** The listing of a directory's entries, in `read_dir` order. */
  function Listing(resolved: string, es: seq<Entry>, onlyImages: bool): (r: seq<string>)
    ensures |r| <= |es|
  {
    if es == [] then []
    else
      var last := es[|es| - 1];
      Listing(resolved, es[..|es| - 1], onlyImages) + (if Listed(last, onlyImages) then [Element(resolved, last.name)] else [])
  }

  /** Every listed path is the element of an entry that passes the
      filter. */
  lemma {:induction false} ListingSound(resolved: string, es: seq<Entry>, onlyImages: bool, p: string)
    requires p in Listing(resolved, es, onlyImages)
    ensures exists i :: 0 <= i < |es| && Listed(es[i], onlyImages) && p == Element(resolved, es[i].name)
  {
    var init := es[..|es| - 1];
    if p in Listing(resolved, init, onlyImages) {
      ListingSound(resolved, init, onlyImages, p);
      var i :| 0 <= i < |init| && Listed(init[i], onlyImages) && p == Element(resolved, init[i].name);
      assert es[i] == init[i];
    } else {
      assert Listed(es[|es| - 1], onlyImages) && p == Element(resolved, es[|es| - 1].name);
    }
  }

  /** One more entry read from the directory adds its element exactly
      when it passes the filter. */
  lemma ListingSnoc(resolved: string, es: seq<Entry>, onlyImages: bool, i: nat)
    requires i < |es|
    ensures Listing(resolved, es[..i + 1], onlyImages) == Listing(resolved, es[..i], onlyImages)
      + (if Listed(es[i], onlyImages) then [Element(resolved, es[i].name)] else [])
  {
    assert es[..i + 1][..i] == es[..i];
  }

  /** The listing of a directory keeps the listing of all but its last
      entry as a prefix. */
  lemma ListingExtends(resolved: string, es: seq<Entry>, onlyImages: bool, p: string)
    requires es != [] && p in Listing(resolved, es[..|es| - 1], onlyImages)
    ensures p in Listing(resolved, es, onlyImages)
  {
    var rest := Listing(resolved, es[..|es| - 1], onlyImages);
    assert Listing(resolved, es, onlyImages)[..|rest|] == rest;
  }

  /** A last entry that passes the filter ends the listing. */
  lemma ListingLast(resolved: string, es: seq<Entry>, onlyImages: bool)
    requires es != [] && Listed(es[|es| - 1], onlyImages)
    ensures Element(resolved, es[|es| - 1].name) in Listing(resolved, es, onlyImages)
  {
    var r := Listing(resolved, es, onlyImages);
    assert r[|r| - 1] == Element(resolved, es[|es| - 1].name);
  }

  /** Every entry that passes the filter is listed. */
  lemma {:induction false} ListingComplete(resolved: string, es: seq<Entry>, onlyImages: bool, i: nat)
    requires i < |es| && Listed(es[i], onlyImages)
    ensures Element(resolved, es[i].name) in Listing(resolved, es, onlyImages)
  {
    var init := es[..|es| - 1];
    if i < |init| {
      assert init[i] == es[i];
      ListingComplete(resolved, init, onlyImages, i);
      ListingExtends(resolved, es, onlyImages, Element(resolved, es[i].name));
    } else {
      ListingLast(resolved, es, onlyImages);
    }
  }

  /** The listing holds exactly the elements of the entries that pass the
      filter. */
  lemma ListingMembers(resolved: string, es: seq<Entry>, onlyImages: bool, p: string)
    ensures p in Listing(resolved, es, onlyImages) <==>
      exists i :: 0 <= i < |es| && Listed(es[i], onlyImages) && p == Element(resolved, es[i].name)
  {
    if p in Listing(resolved, es, onlyImages) {
      ListingSound(resolved, es, onlyImages, p);
    }
    if exists i :: 0 <= i < |es| && Listed(es[i], onlyImages) && p == Element(resolved, es[i].name) {
      var i :| 0 <= i < |es| && Listed(es[i], onlyImages) && p == Element(resolved, es[i].name);
      ListingComplete(resolved, es, onlyImages, i);
    }
  }

  /** Without the image filter, everything but "." and ".." is listed. */
  lemma {:induction false} ListingAll(resolved: string, es: seq<Entry>)
    requires forall i :: 0 <= i < |es| ==> !IsDotEntry(es[i].name)
    ensures |Listing(resolved, es, false)| == |es|
  {
    if es != [] {
      ListingAll(resolved, es[..|es| - 1]);
    }
  }

  /** The listing as the entry loop is written: with `onlyImages` the
      first entry other than "." and ".." makes `GStr::from_str_with_nul`
      fail (a file name carries no trailing NUL), and the `expect` panics. */
  function ListingAsWritten(resolved: string, es: seq<Entry>, onlyImages: bool): (r: Outcome<seq<string>>)
    ensures r.Panic? <==> onlyImages && exists i :: 0 <= i < |es| && !IsDotEntry(es[i].name)
    ensures r.Value? ==> r.value == Listing(resolved, es, onlyImages)
    ensures r.Panic? ==> r.reason == "osstring to gstr error"
  {
    if es == [] then Value([])
    else
      var last := es[|es| - 1];
      assert forall i :: 0 <= i < |es| - 1 ==> es[..|es| - 1][i] == es[i];
      match ListingAsWritten(resolved, es[..|es| - 1], onlyImages)
      case Panic(why) => Panic(why)
      case Value(files) =>
        if IsDotEntry(last.name) then Value(files)
        else if onlyImages then Panic("osstring to gstr error")
        else Value(files + [Element(resolved, last.name)])
  }

  /** The entry loop of `dirlist` as written: every entry other than "."
      and ".." is pushed, except that with `onlyImages` the first such entry
      panics in `GStr::from_str_with_nul`. */
  method ReadEntriesAsWritten(resolved: string, entries: seq<Entry>, onlyImages: bool) returns (r: Outcome<seq<string>>)
    ensures r == ListingAsWritten(resolved, entries, onlyImages)
  {
    var files := [];
    var i := 0;
    while i < |entries|
      invariant 0 <= i <= |entries|
      invariant ListingAsWritten(resolved, entries[..i], onlyImages) == Value(files)
    {
      var entry := entries[i];
      assert entries[..i + 1][..i] == entries[..i];
      if !IsDotEntry(entry.name) {
        if onlyImages {
          assert ListingAsWritten(resolved, entries, onlyImages).Panic?;
          return Panic("osstring to gstr error");
        }
        files := files + [Element(resolved, entry.name)];
      }
      i := i + 1;
    }
    assert entries[..i] == entries;
    r := Value(files);
  }

  /** A background directory holding one PNG file: the written loop panics
      where the intended one lists the file. */
  lemma ImageListingPanicsAsWritten()
    ensures var es := [Entry("bg.png", Some(RegularFile))];
      ListingAsWritten("/usr/share/backgrounds", es, true).Panic?
      && Listing("/usr/share/backgrounds", es, true) == ["/usr/share/backgrounds" + "/" + "bg.png"]
  {
    var dir, name := "/usr/share/backgrounds", "bg.png";
    var es := [Entry(name, Some(RegularFile))];
    assert name[0] == 'b' && name[1] == 'g' && name[2] == '.';
    assert ExtensionAt(name, 3) by {
      assert name[3..] == "png";
    }
    assert IsImageName(name) by {
      assert !IsLineTerminator(name[1]) && name[2] == '.' && ExtensionAt(name, 2 + 1);
    }
    assert Listed(es[0], true);
    assert es[..0] == [];
    assert dir[0] == '/' && dir[|dir| - 1] == 's';
    assert Join("/", dir) == dir;
    assert Element(dir, name) == dir + "/" + name;
  }

  /** The directory of the theme file, as `with_file_name("")` leaves it:
      everything up to and including the last '/'. */
  function DirOf(p: string): (r: string)
    ensures r <= p
    ensures r != [] ==> r[|r| - 1] == '/'
  {
    if p == [] then []
    else if p[|p| - 1] == '/' then p
    else DirOf(p[..|p| - 1])
  }

  /** The allowed directories `new` builds: the given ones, the theme's
      directory when the theme path resolves, and the temporary directory. */
  function AllowedDirs(given: seq<string>, canonicalTheme: Option<string>, tmpDir: string): (r: seq<string>)
    ensures |r| == |given| + (if canonicalTheme.Some? then 2 else 1)
    ensures r[..|given|] == given && r[|r| - 1] == tmpDir
    ensures canonicalTheme.Some? ==> r[|given|] == DirOf(canonicalTheme.value)
  {
    given + (if canonicalTheme.Some? then [DirOf(canonicalTheme.value)] else []) + [tmpDir]
  }

  /** What becomes of a path after the argument checks, with the intended
      allow rule: no listing (`[]`) when it does not resolve, is not an
      absolute directory, is not permitted or cannot be opened. */
  function ListDir(allowed: seq<string>, path: string, onlyImages: bool, fs: Fs): (r: seq<string>)
    ensures path !in fs.canonical ==> r == []
    ensures path in fs.canonical && !Permitted(allowed, fs.canonical[path]) ==> r == []
    ensures r != [] ==> (path in fs.canonical && Permitted(allowed, fs.canonical[path])
                         && IsAbsolute(fs.canonical[path]) && fs.canonical[path] in fs.dirs && fs.canonical[path] in fs.listings)
  {
    if path !in fs.canonical then []
    else
      var resolved := fs.canonical[path];
      if !IsAbsolute(resolved) || resolved !in fs.dirs then []
      else if !Permitted(allowed, resolved) then []
      else if resolved !in fs.listings then []
      else Listing(resolved, fs.listings[resolved], onlyImages)
  }

  /** A listed path is the element of a filtered entry of a permitted,
      readable directory, and every such element is listed. */
  lemma ListDirMembers(allowed: seq<string>, path: string, onlyImages: bool, fs: Fs, p: string)
    ensures p in ListDir(allowed, path, onlyImages, fs) <==>
      (path in fs.canonical && IsAbsolute(fs.canonical[path]) && fs.canonical[path] in fs.dirs
       && Permitted(allowed, fs.canonical[path]) && fs.canonical[path] in fs.listings
       && exists i :: 0 <= i < |fs.listings[fs.canonical[path]]|
                      && Listed(fs.listings[fs.canonical[path]][i], onlyImages)
                      && p == Element(fs.canonical[path], fs.listings[fs.canonical[path]][i].name))
  {
    if path in fs.canonical && fs.canonical[path] in fs.listings {
      ListingMembers(fs.canonical[path], fs.listings[fs.canonical[path]], onlyImages, p);
    }
  }

  /** The checks before the entry loop as written let the path through:
      it resolves to an absolute, readable directory that the allow check as
      written does not refuse. */
  predicate OpensAsWritten(allowed: seq<string>, path: string, fs: Fs) {
    path in fs.canonical && IsAbsolute(fs.canonical[path]) && fs.canonical[path] in fs.dirs
    && !RefusedAsWritten(allowed, fs.canonical[path]) && fs.canonical[path] in fs.listings
  }

  /** The same with the allow check and the entry loop as written. */
  function ListDirAsWritten(allowed: seq<string>, path: string, onlyImages: bool, fs: Fs): (r: Outcome<seq<string>>)
    ensures !OpensAsWritten(allowed, path, fs) ==> r == Value([])
    ensures OpensAsWritten(allowed, path, fs)
      ==> r == ListingAsWritten(fs.canonical[path], fs.listings[fs.canonical[path]], onlyImages)
  {
    if path !in fs.canonical then Value([])
    else
      var resolved := fs.canonical[path];
      if !IsAbsolute(resolved) || resolved !in fs.dirs then Value([])
      else if RefusedAsWritten(allowed, resolved) then Value([])
      else if resolved !in fs.listings then Value([])
      else ListingAsWritten(resolved, fs.listings[resolved], onlyImages)
  }

  /** The allow check as written and the intended one decide the same for
      this path. */
  predicate RulesAgree(allowed: seq<string>, path: string, fs: Fs) {
    path in fs.canonical ==> (RefusedAsWritten(allowed, fs.canonical[path]) <==> !Permitted(allowed, fs.canonical[path]))
  }

  /** Without the image filter, and where the two allow checks agree, the
      listing as written is the intended one. */
  lemma ListDirAgrees(allowed: seq<string>, path: string, fs: Fs)
    requires RulesAgree(allowed, path, fs)
    ensures ListDirAsWritten(allowed, path, false, fs) == Value(ListDir(allowed, path, false, fs))
  {
    if OpensAsWritten(allowed, path, fs) {
      var resolved := fs.canonical[path];
      var r := ListingAsWritten(resolved, fs.listings[resolved], false);
      assert r.Value?;
    }
  }
}
