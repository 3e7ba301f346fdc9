/** The desktop-session catalogue (crates/greeters/src/common/session.rs;
    crates/greeters/src/greetd/session.rs holds the same functions). Session
    files are found in `xsessions` and `wayland-sessions` under each system
    data directory; the file system, GLib's key-file loader and the PATH
    lookup of TryExec are given as inputs. */
module Sessions {
  import opened Wrappers
  import opened Text
  import opened Ordering
  import Paths

  datatype Session = Session(key: string, sessionType: string, name: string, comment: string, exec: string)

  /** A parsed key file: group name to key to raw value. */
  datatype KeyFile = KeyFile(groups: map<string, map<string, string>>)

  /** One directory entry: its file name and the key file it loads as
      (None when `load_from_file` fails). */
  datatype DirEntry = DirEntry(fileName: string, keyfile: Option<KeyFile>)

  /** The directories that exist (`is_dir`), each with its entries in the
      order `read_dir` yields them. */
  type Listing = map<string, seq<DirEntry>>

  const DesktopGroup := "Desktop Entry"

  function Get(kf: KeyFile, key: string): Option<string> {
    if DesktopGroup in kf.groups && key in kf.groups[DesktopGroup]
    then Some(kf.groups[DesktopGroup][key]) else None
  }

  /** `KeyFile::boolean`: GLib accepts "true"/"1" and "false"/"0". */
  function ParseBool(v: string): (r: Option<bool>)
    ensures r == Some(true) <==> v in {"true", "1"}
    ensures r == Some(false) <==> v in {"false", "0"}
  {
    if v == "true" || v == "1" then Some(true)
    else if v == "false" || v == "0" then Some(false)
    else None
  }

  function Boolean(kf: KeyFile, key: string): Option<bool> {
    match Get(kf, key)
    case None => None
    case Some(v) => ParseBool(v)
  }

  /** `is_session_desktop_file`: neither NoDisplay nor Hidden reads as true,
      and a TryExec program, if named, is found on the PATH. A missing or
      unparsable flag counts as false. */
  function IsSessionDesktopFile(kf: KeyFile, onPath: set<string>): (r: bool)
    ensures r <==>
      Get(kf, "NoDisplay") !in {Some("true"), Some("1")}
      && Get(kf, "Hidden") !in {Some("true"), Some("1")}
      && (Get(kf, "TryExec").None? || Get(kf, "TryExec").value in onPath)
  {
    var noDisplay := Boolean(kf, "NoDisplay") == Some(true);
    var hidden := Boolean(kf, "Hidden") == Some(true);
    var tryExecFailed := match Get(kf, "TryExec")
      case Some(p) => p !in onPath
      case None => false;
    !noDisplay && !hidden && !tryExecFailed
  }

  /** The session key: the file name with every trailing ".desktop" removed. */
  function SessionKey(fileName: string): (r: string)
    ensures r <= fileName && !EndsWith(r, ".desktop")
    ensures exists n: nat :: fileName == r + Repeat(".desktop", n)
  {
    var r := TrimEndMatches(fileName, ".desktop");
    TrimEndMatchesCopies(fileName, ".desktop");
    assert fileName == r + Repeat(".desktop", CopiesTrimmed(fileName, ".desktop"));
    r
  }

  /** The per-entry step of `load_session_dir`. */
  function LoadEntry(e: DirEntry, sessionType: string, onPath: set<string>): (r: Option<(string, Session)>)
    ensures r.Some? <==>
      e.keyfile.Some? && DesktopGroup in e.keyfile.value.groups
      && IsSessionDesktopFile(e.keyfile.value, onPath)
      && Get(e.keyfile.value, "Name").Some? && Get(e.keyfile.value, "Exec").Some?
    ensures r.Some? ==>
      var kf := e.keyfile.value;
      r.value.0 == SessionKey(e.fileName)
      && r.value.1 == Session(SessionKey(e.fileName), sessionType, Get(kf, "Name").value,
                             Get(kf, "Comment").GetOr(""), Get(kf, "Exec").value)
  {
    match e.keyfile
    case None => None
    case Some(kf) =>
      if DesktopGroup in kf.groups && IsSessionDesktopFile(kf, onPath)
         && Get(kf, "Name").Some? && Get(kf, "Exec").Some?
      then
        var key := SessionKey(e.fileName);
        Some((key, Session(key, sessionType, Get(kf, "Name").value, Get(kf, "Comment").GetOr(""), Get(kf, "Exec").value)))
      else None
  }

  /** `collect::<HashMap<_, _>>()`: a later pair overwrites an earlier one
      with the same key. */
  function Collect(pairs: seq<(string, Session)>): (r: map<string, Session>)
    ensures forall k :: k in r <==> exists i :: 0 <= i < |pairs| && pairs[i].0 == k
  {
    if pairs == [] then map[]
    else
      var r := Collect(pairs[..|pairs| - 1]);
      assert forall i :: 0 <= i < |pairs| - 1 ==> pairs[..|pairs| - 1][i] == pairs[i];
      r[pairs[|pairs| - 1].0 := pairs[|pairs| - 1].1]
  }

  lemma {:induction false} CollectLastWins(pairs: seq<(string, Session)>, i: nat)
    requires i < |pairs|
    requires forall j :: i < j < |pairs| ==> pairs[j].0 != pairs[i].0
    ensures pairs[i].0 in Collect(pairs) && Collect(pairs)[pairs[i].0] == pairs[i].1
  {
    if i < |pairs| - 1 {
      var init := pairs[..|pairs| - 1];
      assert init[i] == pairs[i];
      CollectLastWins(init, i);
    }
  }

  /** The `filter_map` over the entries: the pair of every entry that
      loads, in directory order. */
  function Accepted(entries: seq<DirEntry>, sessionType: string, onPath: set<string>): (r: seq<(string, Session)>)
    ensures |r| <= |entries|
    ensures forall i :: 0 <= i < |r| ==>
      r[i].1.key == r[i].0 && r[i].1.sessionType == sessionType
      && exists e :: e in entries && LoadEntry(e, sessionType, onPath) == Some(r[i])
    ensures forall e :: e in entries && LoadEntry(e, sessionType, onPath).Some? ==>
      LoadEntry(e, sessionType, onPath).value in r
  {
    if entries == [] then []
    else
      var rest := Accepted(entries[1..], sessionType, onPath);
      EntriesSplit(entries);
      match LoadEntry(entries[0], sessionType, onPath)
      case None => rest
      case Some(p) =>
        assert entries[0] in entries;
        [p] + rest
  }

  /** Every entry is the first one or one of the rest, and the other way
      round. */
  lemma EntriesSplit(entries: seq<DirEntry>)
    requires entries != []
    ensures forall e :: e in entries[1..] ==> e in entries
    ensures forall e :: e in entries ==> e == entries[0] || e in entries[1..]
  {
    assert entries == [entries[0]] + entries[1..];
  }

  /** `load_session_dir`: a path that is not a directory gives an empty
      map; otherwise every accepted entry, keyed by its session key. */
  function LoadSessionDir(fs: Listing, dir: string, sessionType: string, onPath: set<string>): (r: map<string, Session>)
    ensures dir !in fs ==> r == map[]
    ensures forall k :: k in r ==>
      r[k].key == k && r[k].sessionType == sessionType
      && exists e :: e in fs[dir] && LoadEntry(e, sessionType, onPath) == Some((k, r[k]))
    ensures dir in fs ==> forall e :: e in fs[dir] && LoadEntry(e, sessionType, onPath).Some? ==>
      LoadEntry(e, sessionType, onPath).value.0 in r
  {
    if dir !in fs then map[]
    else
      var pairs := Accepted(fs[dir], sessionType, onPath);
      var r := Collect(pairs);
      forall e | e in fs[dir] && LoadEntry(e, sessionType, onPath).Some?
        ensures LoadEntry(e, sessionType, onPath).value.0 in r
      {
        var p := LoadEntry(e, sessionType, onPath).value;
        var i :| 0 <= i < |pairs| && pairs[i] == p;
      }
      forall k | k in r
        ensures r[k].key == k && r[k].sessionType == sessionType
        ensures exists e :: e in fs[dir] && LoadEntry(e, sessionType, onPath) == Some((k, r[k]))
      {
        var i := LastIndexOf(pairs, k);
        CollectLastWins(pairs, i);
      }
      r
  }

  ghost function LastIndexOf(pairs: seq<(string, Session)>, k: string): (i: nat)
    requires exists i :: 0 <= i < |pairs| && pairs[i].0 == k
    ensures i < |pairs| && pairs[i].0 == k
    ensures forall j :: i < j < |pairs| ==> pairs[j].0 != k
  {
    if pairs[|pairs| - 1].0 == k then |pairs| - 1
    else
      var init := pairs[..|pairs| - 1];
      var w :| 0 <= w < |pairs| && pairs[w].0 == k;
      assert init[w].0 == k;
      LastIndexOf(init, k)
  }

  /** The sessions of one data directory: wayland-sessions entries override
      xsessions entries with the same key. */
  function DataDirSessions(fs: Listing, dataDir: string, onPath: set<string>): (r: map<string, Session>)
    ensures KeysConsistent(r)
  {
    var x := LoadSessionDir(fs, Paths.Join(dataDir, "xsessions"), "x", onPath);
    var wayland := LoadSessionDir(fs, Paths.Join(dataDir, "wayland-sessions"), "wayland", onPath);
    UnionConsistent(x, "x", wayland, "wayland");
    x + wayland
  }

  /** Two maps whose values sit under their own keys, each with one type
      the loader assigns, merge into such a map. */
  lemma UnionConsistent(a: map<string, Session>, ta: string, b: map<string, Session>, tb: string)
    requires ta in {"x", "wayland"} && tb in {"x", "wayland"}
    requires forall k :: k in a ==> a[k].key == k && a[k].sessionType == ta
    requires forall k :: k in b ==> b[k].key == k && b[k].sessionType == tb
    ensures KeysConsistent(a + b)
  {
  }

  /** Every value is stored under its own key and has one of the two
      session types the loader assigns. */
  predicate KeysConsistent(m: map<string, Session>) {
    forall k :: k in m ==> m[k].key == k && m[k].sessionType in {"x", "wayland"}
  }

  /** Merging maps in order, a later map overriding an earlier one (the
      `collect` of a `flat_map` into a `HashMap`). */
  function Overlay(ms: seq<map<string, Session>>): (r: map<string, Session>)
    ensures (forall i :: 0 <= i < |ms| ==> KeysConsistent(ms[i])) ==> KeysConsistent(r)
  {
    if ms == [] then map[] else Overlay(ms[..|ms| - 1]) + ms[|ms| - 1]
  }

  lemma {:induction false} OverlayKeys(ms: seq<map<string, Session>>, k: string)
    ensures k in Overlay(ms) <==> exists i :: 0 <= i < |ms| && k in ms[i]
  {
    if ms != [] {
      var init := ms[..|ms| - 1];
      OverlayKeys(init, k);
      if k in Overlay(ms) && k !in ms[|ms| - 1] {
        var i :| 0 <= i < |init| && k in init[i];
        assert ms[i] == init[i];
      }
      if exists i :: 0 <= i < |ms| && k in ms[i] {
        var i :| 0 <= i < |ms| && k in ms[i];
        if i < |init| {
          assert ms[i] == init[i];
        }
      }
    }
  }

  lemma {:induction false} OverlayLastWins(ms: seq<map<string, Session>>, i: nat, k: string)
    requires i < |ms| && k in ms[i]
    requires forall j :: i < j < |ms| ==> k !in ms[j]
    ensures k in Overlay(ms) && Overlay(ms)[k] == ms[i][k]
  {
    if i < |ms| - 1 {
      var init := ms[..|ms| - 1];
      assert init[i] == ms[i];
      OverlayLastWins(init, i, k);
    }
  }

  function DirMaps(fs: Listing, dataDirs: seq<string>, onPath: set<string>): (r: seq<map<string, Session>>)
    ensures |r| == |dataDirs|
    ensures forall i :: 0 <= i < |r| ==> r[i] == DataDirSessions(fs, dataDirs[i], onPath)
  {
    seq(|dataDirs|, i requires 0 <= i < |dataDirs| => DataDirSessions(fs, dataDirs[i], onPath))
  }

  /** `available_sessions_map`: the data directories in order, a later one
      overriding an earlier one. */
  function AvailableSessionsMap(fs: Listing, dataDirs: seq<string>, onPath: set<string>): (r: map<string, Session>)
    ensures KeysConsistent(r)
  {
    Overlay(DirMaps(fs, dataDirs, onPath))
  }

  /** A key is listed iff some data directory provides it; a duplicated key
      resolves to the last data directory that has it, and within that
      directory to its wayland session when there is one. */
  lemma LastDataDirWins(fs: Listing, dataDirs: seq<string>, onPath: set<string>, i: nat, k: string)
    requires i < |dataDirs| && k in DataDirSessions(fs, dataDirs[i], onPath)
    requires forall j :: i < j < |dataDirs| ==> k !in DataDirSessions(fs, dataDirs[j], onPath)
    ensures k in AvailableSessionsMap(fs, dataDirs, onPath)
    ensures var wayland := LoadSessionDir(fs, Paths.Join(dataDirs[i], "wayland-sessions"), "wayland", onPath);
            var x := LoadSessionDir(fs, Paths.Join(dataDirs[i], "xsessions"), "x", onPath);
            AvailableSessionsMap(fs, dataDirs, onPath)[k] == if k in wayland then wayland[k] else x[k]
  {
    OverlayLastWins(DirMaps(fs, dataDirs, onPath), i, k);
  }

  lemma AvailableSessionsMapKeys(fs: Listing, dataDirs: seq<string>, onPath: set<string>, k: string)
    ensures k in AvailableSessionsMap(fs, dataDirs, onPath) <==>
      exists i :: 0 <= i < |dataDirs| && k in DataDirSessions(fs, dataDirs[i], onPath)
  {
    OverlayKeys(DirMaps(fs, dataDirs, onPath), k);
  }

  /** `sessions()`: every session, sorted by key. */
  function SessionList(m: map<string, Session>): (r: seq<Session>)
    ensures |r| == |m|
    ensures forall s :: s in r <==> s in m.Values
    ensures KeysConsistent(m) ==> forall i, j :: 0 <= i < j < |r| ==> Below(r[i].key, r[j].key)
  {
    var ks := SortedKeys(m.Keys);
    var r := seq(|ks|, i requires 0 <= i < |ks| => m[ks[i]]);
    SessionListFacts(m, ks, r);
    r
  }

  /** The sessions looked up in key order hold every session once, and
      they are sorted when each session carries its own key. */
  lemma SessionListFacts(m: map<string, Session>, ks: seq<string>, r: seq<Session>)
    requires |ks| == |m.Keys| && Ordering.StrictlySorted(ks)
    requires forall k :: k in ks <==> k in m.Keys
    requires |r| == |ks| && forall i :: 0 <= i < |ks| ==> r[i] == m[ks[i]]
    ensures |r| == |m|
    ensures forall s :: s in r <==> s in m.Values
    ensures KeysConsistent(m) ==> forall i, j :: 0 <= i < j < |r| ==> Below(r[i].key, r[j].key)
  {
    assert |m.Keys| == |m|;
    forall s | s in m.Values
      ensures s in r
    {
      var k :| k in m && m[k] == s;
      var i :| 0 <= i < |ks| && ks[i] == k;
      assert r[i] == s;
    }
    forall s | s in r
      ensures s in m.Values
    {
      var i :| 0 <= i < |r| && r[i] == s;
      assert ks[i] in m;
    }
    if KeysConsistent(m) {
      forall i, j | 0 <= i < j < |r|
        ensures Below(r[i].key, r[j].key)
      {
        assert ks[i] in m && ks[j] in m;
        assert r[i].key == ks[i] && r[j].key == ks[j];
      }
    }
  }

  /** The `cmd` and `env` of the StartSession request for a session, as
      both login facades build them. */
  function LaunchCommand(s: Session): (r: (seq<string>, seq<string>))
    ensures r.0 == [s.exec]
    ensures s.sessionType == "wayland" ==> r.1 == ["XDG_SESSION_TYPE=wayland"]
    ensures s.sessionType == "x" ==> r.1 == ["XDG_SESSION_TYPE=x11"]
    ensures s.sessionType !in {"wayland", "x"} ==> r.1 == []
  {
    var env := match s.sessionType
      case "wayland" => ["XDG_SESSION_TYPE=wayland"]
      case "x" => ["XDG_SESSION_TYPE=x11"]
      case _ => [];
    ([s.exec], env)
  }

  /** Every catalogued session is started with XDG_SESSION_TYPE set: the
      empty-env fallback is never reached from the catalogue. */
  lemma CataloguedSessionsSetType(fs: Listing, dataDirs: seq<string>, onPath: set<string>, k: string)
    requires k in AvailableSessionsMap(fs, dataDirs, onPath)
    ensures |LaunchCommand(AvailableSessionsMap(fs, dataDirs, onPath)[k]).1| == 1
  {
  }

  /** The serialized form of a session: exec is skipped and type_ is
      written as "type". */
  function Serialize(s: Session): (r: seq<(string, string)>)
    ensures forall p :: p in r ==> p.0 != "exec"
    ensures ("type", s.sessionType) in r && ("key", s.key) in r
    ensures ("name", s.name) in r && ("comment", s.comment) in r
    ensures |r| == 4
  {
    [("key", s.key), ("type", s.sessionType), ("name", s.name), ("comment", s.comment)]
  }
}
