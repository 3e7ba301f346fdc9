/** The theme directory (crates/webkit-greeter/src/theme.rs): listing the
    installed themes, reading a theme's index.yml, and choosing the html
    files the primary and secondary monitors load. */
module Theme {
  import opened Wrappers
  import opened Text
  import opened Paths
  import Ordering

  const DefaultThemeDir: string := "/usr/share/webkit-greeter/themes"
  const DefaultTheme: string := "litarvan"
  const DefaultPrimary: string := "index.html"

  /** The themes in a themes directory: the names of the entries that are
      directories, in ascending order; a directory that cannot be read has
      none. */
  function ListThemes(entries: Option<map<string, Option<FileType>>>): (r: seq<string>)
    ensures entries.None? ==> r == []
    ensures entries.Some? ==> forall t :: t in r <==> t in entries.value && entries.value[t] == Some(Directory)
    ensures Ordering.StrictlySorted(r)
  {
    match entries
    case None => []
    case Some(es) => Ordering.SortedKeys(set t | t in es && es[t] == Some(Directory))
  }

  /** The lines `print_themes` writes: a header and one line per theme, or
      nothing when there is no theme; an unreadable directory yields only
      the notice that `list_themes` prints. */
  function PrintThemes(themesDir: string, entries: Option<map<string, Option<FileType>>>): (r: seq<string>)
    ensures entries.None? ==> r == ["Threre are no themes located at " + themesDir]
    ensures entries.Some? && ListThemes(entries) == [] ==> r == []
    ensures entries.Some? && ListThemes(entries) != [] ==>
      |r| == |ListThemes(entries)| + 1
      && r[0] == "Themes are located at " + themesDir + "\n"
      && forall i :: 0 <= i < |ListThemes(entries)| ==> r[i + 1] == "- " + ListThemes(entries)[i]
  {
    var themes := ListThemes(entries);
    if entries.None? then ["Threre are no themes located at " + themesDir]
    else if themes == [] then []
    else ["Themes are located at " + themesDir + "\n"] + seq(|themes|, i requires 0 <= i < |themes| => "- " + themes[i])
  }

  const Quotes: set<char> := {'"', '\''}

  /** What one line of index.yml contributes: a trimmed line that starts
      with primary_html or secondary_html and holds a ':' gives the trimmed
      text before the first ':' as key, and the trimmed text after it, with
      surrounding quotes removed, as value. */
  function ConfigEntry(line: string): (r: Option<(string, string)>)
    ensures r.Some? ==> ':' !in r.value.0
    ensures r.Some? ==> r.value.1 == [] || (r.value.1[0] !in Quotes && r.value.1[|r.value.1| - 1] !in Quotes)
  {
    var t := Trim(line);
    if !(StartsWith(t, "primary_html") || StartsWith(t, "secondary_html")) then None
    else match SplitOnce(t, ':')
      case None => None
      case Some((k, v)) =>
        var key := Trim(k);
        assert forall c :: c in key ==> c in k;
        Some((key, TrimMatches(Trim(v), Quotes)))
  }

  function ConfigEntries(lines: seq<string>): (r: seq<Option<(string, string)>>)
    ensures |r| == |lines|
    ensures forall i :: 0 <= i < |r| ==> r[i] == ConfigEntry(lines[i])
  {
    seq(|lines|, i requires 0 <= i < |lines| => ConfigEntry(lines[i]))
  }

  /** Some parsed line gives the key `k` the value `v`. */
  predicate GivenBy(es: seq<Option<(string, string)>>, k: string, v: string) {
    exists i :: 0 <= i < |es| && es[i] == Some((k, v))
  }

  /** `collect()` into a HashMap: a later pair replaces an earlier one with
      the same key. */
  function ToMap(es: seq<Option<(string, string)>>): (r: map<string, string>)
    ensures forall k :: k in r ==> GivenBy(es, k, r[k])
  {
    if es == [] then map[]
    else
      var init := es[..|es| - 1];
      var m := ToMap(init);
      assert forall i :: 0 <= i < |init| ==> init[i] == es[i];
      match es[|es| - 1]
      case None => m
      case Some((k, v)) => m[k := v]
  }

  lemma {:induction false} ToMapKeys(es: seq<Option<(string, string)>>, k: string)
    ensures k in ToMap(es) <==> exists i :: 0 <= i < |es| && es[i].Some? && es[i].value.0 == k
  {
    if es != [] {
      var init := es[..|es| - 1];
      ToMapKeys(init, k);
      if k in ToMap(es) && !(es[|es| - 1].Some? && es[|es| - 1].value.0 == k) {
        var i :| 0 <= i < |init| && init[i].Some? && init[i].value.0 == k;
        assert es[i] == init[i];
      }
      if exists i :: 0 <= i < |es| && es[i].Some? && es[i].value.0 == k {
        var i :| 0 <= i < |es| && es[i].Some? && es[i].value.0 == k;
        if i < |init| {
          assert init[i] == es[i];
        }
      }
    }
  }

  /** The value of a key is the one of the last pair that has it. */
  lemma {:induction false} ToMapLastWins(es: seq<Option<(string, string)>>, i: nat)
    requires i < |es| && es[i].Some?
    requires forall j :: i < j < |es| ==> es[j].None? || es[j].value.0 != es[i].value.0
    ensures es[i].value.0 in ToMap(es) && ToMap(es)[es[i].value.0] == es[i].value.1
  {
    if i < |es| - 1 {
      var init := es[..|es| - 1];
      ToMapLastWins(init, i);
    }
  }

  /** `load_theme_config`: the primary html name, "index.html" unless the
      file names one, and the secondary html name if the file names one; an
      unreadable index.yml gives ("index.html", None). */
  function LoadThemeConfig(indexYml: Option<string>): (r: (string, Option<string>))
    ensures indexYml.None? ==> r == (DefaultPrimary, None)
  {
    match indexYml
    case None => (DefaultPrimary, None)
    case Some(content) =>
      var m := ToMap(ConfigEntries(Lines(content)));
      (if "primary_html" in m then m["primary_html"] else DefaultPrimary,
       if "secondary_html" in m then Some(m["secondary_html"]) else None)
  }

  /** A key is in the map of index.yml exactly when some line gives it. */
  lemma ConfigKeyGiven(lines: seq<string>, k: string)
    ensures k in ToMap(ConfigEntries(lines)) <==>
      exists i :: 0 <= i < |lines| && ConfigEntry(lines[i]).Some? && ConfigEntry(lines[i]).value.0 == k
  {
    var es := ConfigEntries(lines);
    ToMapKeys(es, k);
    if k in ToMap(es) {
      var i :| 0 <= i < |es| && es[i].Some? && es[i].value.0 == k;
      assert ConfigEntry(lines[i]) == es[i];
    }
    if exists i :: 0 <= i < |lines| && ConfigEntry(lines[i]).Some? && ConfigEntry(lines[i]).value.0 == k {
      var i :| 0 <= i < |lines| && ConfigEntry(lines[i]).Some? && ConfigEntry(lines[i]).value.0 == k;
      assert es[i] == ConfigEntry(lines[i]);
    }
  }

  /** Some line of index.yml gives the key `k`. */
  predicate LineGives(lines: seq<string>, k: string) {
    exists i :: 0 <= i < |lines| && ConfigEntry(lines[i]).Some? && ConfigEntry(lines[i]).value.0 == k
  }

  /** A key no line of index.yml gives keeps its default. */
  lemma ConfigKeyAbsent(content: string)
    ensures !LineGives(Lines(content), "primary_html") ==> LoadThemeConfig(Some(content)).0 == DefaultPrimary
    ensures LoadThemeConfig(Some(content)).1.None? <==> !LineGives(Lines(content), "secondary_html")
  {
    var lines := Lines(content);
    var m := ToMap(ConfigEntries(lines));
    assert LoadThemeConfig(Some(content)) == (if "primary_html" in m then m["primary_html"] else DefaultPrimary,
      if "secondary_html" in m then Some(m["secondary_html"]) else None);
    ConfigKeyGiven(lines, "primary_html");
    ConfigKeyGiven(lines, "secondary_html");
  }

  /** Otherwise the last line that gives the key decides. */
  lemma ConfigLastLineWins(content: string, i: nat, key: string, value: string)
    requires key == "primary_html" || key == "secondary_html"
    requires i < |Lines(content)| && ConfigEntry(Lines(content)[i]) == Some((key, value))
    requires forall j :: i < j < |Lines(content)| ==>
      ConfigEntry(Lines(content)[j]).None? || ConfigEntry(Lines(content)[j]).value.0 != key
    ensures key == "primary_html" ==> LoadThemeConfig(Some(content)).0 == value
    ensures key == "secondary_html" ==> LoadThemeConfig(Some(content)).1 == Some(value)
  {
    var es := ConfigEntries(Lines(content));
    ToMapLastWins(es, i);
  }

  /** The page loaded when the theme names no usable primary html. */
  const FallbackHtml: string := "/usr/share/webkit-greeter/themes/litarvan/index.html"

  lemma FallbackHtmlIsJoined()
    ensures Join(Join(DefaultThemeDir, DefaultTheme), "index.html") == FallbackHtml
  {
    var dir := "/usr/share/webkit-greeter/themes/litarvan";
    JoinRelative(DefaultThemeDir, DefaultTheme);
    assert DefaultThemeDir + "/" + DefaultTheme == dir;
    JoinRelative(dir, "index.html");
    assert dir + "/" + "index.html" == FallbackHtml;
  }

  /** Joining a relative name to a base that does not end in '/' puts one
      separator between them. */
  lemma JoinRelative(base: string, name: string)
    requires base != [] && base[|base| - 1] != '/'
    requires name != [] && name[0] != '/'
    ensures Join(base, name) == base + "/" + name
  {
    assert !IsAbsolute(name);
  }

  /** The primary html: the theme's own file when its name ends in ".html"
      and it is a regular file (`files`), the default theme's index.html
      otherwise. */
  function PrimaryHtml(themeDir: string, primary: string, files: set<string>): (r: string)
    ensures Join(themeDir, primary) in files && EndsWith(primary, ".html") ==> r == Join(themeDir, primary)
    ensures !(Join(themeDir, primary) in files && EndsWith(primary, ".html")) ==> r == FallbackHtml
    ensures EndsWith(r, ".html")
  {
    var path := Join(themeDir, primary);
    JoinKeepsSuffix(themeDir, primary, ".html");
    if path in files && EndsWith(primary, ".html") then path else FallbackHtml
  }

  /** The secondary html: the theme's secondary file under the same two
      conditions, the primary html otherwise. */
  function SecondaryHtml(themeDir: string, secondary: Option<string>, files: set<string>, primaryHtml: string): (r: string)
    ensures secondary.Some? && EndsWith(secondary.value, ".html") && Join(themeDir, secondary.value) in files
      ==> r == Join(themeDir, secondary.value)
    ensures !(secondary.Some? && EndsWith(secondary.value, ".html") && Join(themeDir, secondary.value) in files)
      ==> r == primaryHtml
    ensures EndsWith(primaryHtml, ".html") ==> EndsWith(r, ".html")
  {
    match secondary
    case Some(s) =>
      JoinKeepsSuffix(themeDir, s, ".html");
      if EndsWith(s, ".html") && Join(themeDir, s) in files then Join(themeDir, s) else primaryHtml
    case None => primaryHtml
  }

  /** `load_theme_html`: the two pages the monitors load, both html files. */
  function LoadThemeHtml(themeDir: string, indexYml: Option<string>, files: set<string>): (r: (string, string))
    ensures var (primary, secondary) := LoadThemeConfig(indexYml);
      r.0 == PrimaryHtml(themeDir, primary, files) && r.1 == SecondaryHtml(themeDir, secondary, files, r.0)
    ensures EndsWith(r.0, ".html") && EndsWith(r.1, ".html")
  {
    var (primary, secondary) := LoadThemeConfig(indexYml);
    var primaryHtml := PrimaryHtml(themeDir, primary, files);
    (primaryHtml, SecondaryHtml(themeDir, secondary, files, primaryHtml))
  }

  lemma JoinKeepsSuffix(base: string, name: string, suffix: string)
    ensures EndsWith(name, suffix) ==> EndsWith(Join(base, name), suffix)
  {
    if EndsWith(name, suffix) && !IsAbsolute(name) {
      var r := Join(base, name);
      assert r[|r| - |suffix|..] == name[|name| - |suffix|..];
    }
  }
}
