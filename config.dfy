/** The greeter's configuration (crates/webkit-greeter/src/config.rs): the
    defaults, the choice of the configuration file, and the command-line
    overrides applied after the file is read. Reading and parsing the TOML
    file are given: `contents` holds the readable files, `parse` the
    deserialised settings (None when the structure is wrong). */
module ConfigFile {
  import opened Wrappers

  const DefaultBackgroundImagesDir: string := "/usr/share/backgrounds"
  const DefaultTheme: string := "litarvan"
  const DefaultThemeDir: string := "/usr/share/webkit-greeter/themes"

  datatype Branding = Branding(backgroundImagesDir: string, logoImage: string, userImage: string)

  /** The [greeter] section; the screensaver timeout is a `u32`. */
  datatype GreeterSection = GreeterSection(
    debugMode: bool, detectThemeErrors: bool, screensaverTimeout: nat, secureMode: bool,
    theme: string, iconTheme: Option<string>, timeLanguage: Option<string>)

  datatype Settings = Settings(branding: Branding, greeter: GreeterSection, themesDir: string, primaryMonitor: Option<string>)

  /** `Branding::default`. */
  function BrandingDefault(): (r: Branding)
    ensures r.backgroundImagesDir == DefaultBackgroundImagesDir && r.logoImage == "" && r.userImage == ""
  {
    Branding(DefaultBackgroundImagesDir, "", "")
  }

  /** `Greeter::default`. */
  function GreeterDefault(): (r: GreeterSection)
    ensures !r.debugMode && r.detectThemeErrors && r.screensaverTimeout == 300 && r.secureMode
    ensures r.theme == DefaultTheme && r.iconTheme == None && r.timeLanguage == None
  {
    GreeterSection(false, true, 300, true, DefaultTheme, None, None)
  }

  /** The themes directory of a parsed file: its `themes_dir`, or the
      default themes directory when the key is absent. */
  function ThemesDir(fileValue: Option<string>): (r: string)
    ensures fileValue.None? ==> r == DefaultThemeDir
    ensures fileValue.Some? ==> r == fileValue.value
  {
    fileValue.GetOr(DefaultThemeDir)
  }

  /** The two places the configuration file may be, in the order they are
      tried. */
  function Candidates(dm: string): (r: seq<string>)
    ensures |r| == 2
    ensures r[0] == "/usr/local/etc/" + dm + "/webkit-greeter.toml"
    ensures r[1] == "/etc/" + dm + "/webkit-greeter.toml"
  {
    ["/usr/local/etc/" + dm + "/webkit-greeter.toml", "/etc/" + dm + "/webkit-greeter.toml"]
  }

  /** The configuration file: the first candidate that is a file; with
      none, the process panics. */
  function ConfigPath(dm: string, files: set<string>): (r: Outcome<string>)
    ensures r.Panic? <==> Candidates(dm)[0] !in files && Candidates(dm)[1] !in files
    ensures r.Value? ==> r.value in files && r.value in Candidates(dm)
    ensures Candidates(dm)[0] in files ==> r == Value(Candidates(dm)[0])
  {
    var c := Candidates(dm);
    if c[0] in files then Value(c[0])
    else if c[1] in files then Value(c[1])
    else Panic("Neither config file exists")
  }

  /** The command-line overrides: the debug flag can only turn debug mode
      on, and a theme given on the command line replaces the file's. */
  function Overridden(s: Settings, debug: bool, theme: Option<string>): (r: Settings)
    ensures r.greeter.debugMode <==> s.greeter.debugMode || debug
    ensures r.greeter.theme == (if theme.Some? then theme.value else s.greeter.theme)
    ensures r.branding == s.branding && r.themesDir == s.themesDir && r.primaryMonitor == s.primaryMonitor
    ensures r.greeter == s.greeter.(debugMode := r.greeter.debugMode, theme := r.greeter.theme)
  {
    var g := s.greeter.(debugMode := s.greeter.debugMode || debug);
    var g' := if theme.Some? then g.(theme := theme.value) else g;
    s.(greeter := g')
  }

  /** Applying the overrides twice is applying them once, and without
      flags they change nothing. */
  lemma OverridesIdempotent(s: Settings, debug: bool, theme: Option<string>)
    ensures Overridden(Overridden(s, debug, theme), debug, theme) == Overridden(s, debug, theme)
    ensures Overridden(s, false, None) == s
  {
  }

  /** `Config::new`: the settings of the first existing configuration
      file with the overrides applied; a missing file, an unreadable one or
      a structure error panics. */
  function Load(debug: bool, theme: Option<string>, dm: string, files: set<string>,
                contents: map<string, string>, parse: string -> Option<Settings>): (r: Outcome<Settings>)
    ensures r.Panic? <==> ConfigPath(dm, files).Panic? || ConfigPath(dm, files).value !in contents
                          || parse(contents[ConfigPath(dm, files).value]).None?
    ensures r.Value? ==> r.value == Overridden(parse(contents[ConfigPath(dm, files).value]).value, debug, theme)
  {
    match ConfigPath(dm, files)
    case Panic(why) => Panic(why)
    case Value(path) =>
      if path !in contents then Panic("Can not read config file")
      else match parse(contents[path])
        case None => Panic("config file structure error")
        case Some(s) => Value(Overridden(s, debug, theme))
  }

  /** The configuration object. */
  class Config {
    var branding: Branding
    var greeter: GreeterSection
    var themesDir: string
    var primaryMonitor: Option<string>

    function Snapshot(): Settings
      reads this
    {
      Settings(branding, greeter, themesDir, primaryMonitor)
    }

    /** The derived `Default`: the section defaults, an empty themes
        directory and no primary monitor. */
    constructor Default()
      ensures Snapshot() == Settings(BrandingDefault(), GreeterDefault(), "", None)
    {
      branding := BrandingDefault();
      greeter := GreeterDefault();
      themesDir := "";
      primaryMonitor := None;
    }

    constructor FromSettings(s: Settings)
      ensures Snapshot() == s
    {
      branding, greeter, themesDir, primaryMonitor := s.branding, s.greeter, s.themesDir, s.primaryMonitor;
    }

    /** `new`: read the file, then apply the overrides in place. */
    static method New(debug: bool, theme: Option<string>, dm: string, files: set<string>,
                      contents: map<string, string>, parse: string -> Option<Settings>) returns (r: Outcome<Config>)
      ensures r.Panic? <==> Load(debug, theme, dm, files, contents, parse).Panic?
      ensures r.Value? ==> fresh(r.value) && r.value.Snapshot() == Load(debug, theme, dm, files, contents, parse).value
    {
      var path := ConfigPath(dm, files);
      if path.Panic? {
        return Panic(path.reason);
      }
      if path.value !in contents {
        return Panic("Can not read config file");
      }
      var parsed := parse(contents[path.value]);
      if parsed.None? {
        return Panic("config file structure error");
      }
      var config := new Config.FromSettings(parsed.value);
      if debug {
        config.SetDebugMode(true);
      }
      if theme.Some? {
        config.SetTheme(theme.value);
      }
      r := Value(config);
    }

    /** `set_debug_mode`: or-assigns the flag. */
    method SetDebugMode(debugMode: bool)
      modifies this
      ensures Snapshot() == old(Snapshot()).(greeter := old(greeter).(debugMode := old(greeter.debugMode) || debugMode))
    {
      greeter := greeter.(debugMode := greeter.debugMode || debugMode);
    }

    /** `set_theme`. */
    method SetTheme(theme: string)
      modifies this
      ensures Snapshot() == old(Snapshot()).(greeter := old(greeter).(theme := theme))
    {
      greeter := greeter.(theme := theme);
    }
  }
}
