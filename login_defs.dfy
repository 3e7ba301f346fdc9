/** The UID_MIN / UID_MAX pair read from login.defs
    (crates/greeters/src/greetd/constants.rs). The file system is given as a
    map from the paths that are regular files to their contents, None when
    reading fails. */
module LoginDefs {
  import opened Wrappers
  import opened Text

  const LoginDefsPaths: seq<string> := ["/etc/login.defs", "/usr/local/etc/login.defs"]
  const DefaultUidMin: nat := 1000
  const DefaultUidMax: nat := 60000
  const U64Limit: nat := 0x1_0000_0000_0000_0000

  predicate IsDigit(c: char) {
    '0' <= c <= '9'
  }

  predicate AllDigits(s: string) {
    forall i :: 0 <= i < |s| ==> IsDigit(s[i])
  }

  /** The value of a string of decimal digits, most significant first. */
  function DigitsValue(s: string): nat
    requires AllDigits(s)
  {
    if s == [] then 0 else DigitsValue(s[..|s| - 1]) * 10 + (s[|s| - 1] as int - '0' as int)
  }

  /** `str::parse::<u64>`: an optional '+', then one or more ASCII digits,
      with a value that fits in 64 bits. */
  function ParseU64(s: string): (r: Option<nat>)
    ensures r.Some? ==> r.value < U64Limit
  {
    var d := if StartsWith(s, "+") then s[1..] else s;
    if d != [] && AllDigits(d) && DigitsValue(d) < U64Limit then Some(DigitsValue(d)) else None
  }

  /** What `parse::<u64>` accepts, and the value it gives. */
  lemma ParseU64Meaning(s: string)
    ensures var d := if StartsWith(s, "+") then s[1..] else s;
      (ParseU64(s).Some? <==> d != [] && AllDigits(d) && DigitsValue(d) < U64Limit)
      && (ParseU64(s).Some? ==> ParseU64(s).value == DigitsValue(d))
  {
  }

  /** The decimal form of a number, as login.defs writes it. */
  function Decimal(n: nat): (r: string)
    ensures r != [] && AllDigits(r)
  {
    var last := [('0' as int + n % 10) as char];
    if n < 10 then last else Decimal(n / 10) + last
  }

  lemma {:induction false} DecimalValue(n: nat)
    ensures DigitsValue(Decimal(n)) == n
  {
    var last := [('0' as int + n % 10) as char];
    if n >= 10 {
      DecimalValue(n / 10);
      var r := Decimal(n / 10) + last;
      assert r[..|r| - 1] == Decimal(n / 10);
    }
  }

  /** Every 64-bit value written in decimal parses back to itself. */
  lemma ParseDecimal(n: nat)
    requires n < U64Limit
    ensures ParseU64(Decimal(n)) == Some(n)
  {
    DecimalValue(n);
    var d := Decimal(n);
    assert !StartsWith(d, "+") by {
      assert IsDigit(d[0]);
    }
  }

  /** The value a matching line gives: the rest after the key, ls and
      parsed, or the default when it does not parse. */
  function LineValue(line: string, key: string, default: nat): (r: nat)
    ensures r == default || r < U64Limit
  {
    ParseU64(Trim(TrimStartMatches(line, key))).GetOr(default)
  }

  /** What one line says about `key`: its value when the line, trimmed,
      starts with the key, and nothing otherwise. */
  function Classify(line: string, key: string, default: nat): (r: Option<nat>)
    ensures r.Some? <==> StartsWith(Trim(line), key)
    ensures r.Some? ==> r.value == LineValue(Trim(line), key, default)
  {
    var t := Trim(line);
    if StartsWith(t, key) then Some(LineValue(t, key, default)) else None
  }

  function Classes(lines: seq<string>, key: string, default: nat): (r: seq<Option<nat>>)
    ensures |r| == |lines|
    ensures forall i :: 0 <= i < |r| ==> r[i] == Classify(lines[i], key, default)
  {
    seq(|lines|, i requires 0 <= i < |lines| => Classify(lines[i], key, default))
  }

  /** The first value found, if any. */
  function FirstSome(cs: seq<Option<nat>>): Option<nat>
  {
    if cs == [] then None
    else if cs[0].Some? then cs[0]
    else FirstSome(cs[1..])
  }

  /** The first value is the earliest line that has one: nothing before it
      has a value, and no value at all means no line has one. */
  lemma {:induction false} FirstSomeIsFirst(cs: seq<Option<nat>>)
    ensures FirstSome(cs).None? <==> forall i :: 0 <= i < |cs| ==> cs[i].None?
    ensures FirstSome(cs).Some? ==>
      exists j :: 0 <= j < |cs| && cs[j] == FirstSome(cs) && forall i :: 0 <= i < j ==> cs[i].None?
  {
    if cs != [] && cs[0].None? {
      FirstSomeIsFirst(cs[1..]);
      assert forall i :: 1 <= i < |cs| ==> cs[1..][i - 1] == cs[i];
      if FirstSome(cs).Some? {
        var j :| 0 <= j < |cs[1..]| && cs[1..][j] == FirstSome(cs) && forall i :: 0 <= i < j ==> cs[1..][i].None?;
        assert cs[j + 1] == FirstSome(cs);
      }
    }
  }

  /** Lines after the first match do not matter. */
  lemma {:induction false} FirstSomeAppend(a: seq<Option<nat>>, b: seq<Option<nat>>)
    ensures FirstSome(a + b) == if FirstSome(a).Some? then FirstSome(a) else FirstSome(b)
  {
    if a != [] {
      assert (a + b)[1..] == a[1..] + b;
      FirstSomeAppend(a[1..], b);
    } else {
      assert a + b == b;
    }
  }

  /** The pair a readable login.defs gives: each key from the first line
      that has it, its default when no line has it. */
  function UidMinMax(content: string): (r: (nat, nat))
    ensures r.0 < U64Limit && r.1 < U64Limit
  {
    var ls := Lines(content);
    var mins := Classes(ls, "UID_MIN", DefaultUidMin);
    var maxs := Classes(ls, "UID_MAX", DefaultUidMax);
    FirstSomeIsFirst(mins);
    FirstSomeIsFirst(maxs);
    (FirstSome(mins).GetOr(DefaultUidMin), FirstSome(maxs).GetOr(DefaultUidMax))
  }

  /** Lines none of which starts with the key yield no value for it. */
  lemma NoKeyLine(ls: seq<string>, key: string, default: nat)
    requires forall i :: 0 <= i < |ls| ==> !StartsWith(Trim(ls[i]), key)
    ensures FirstSome(Classes(ls, key, default)) == None
  {
    var cs := Classes(ls, key, default);
    forall i | 0 <= i < |cs|
      ensures cs[i].None?
    {
      assert cs[i] == Classify(ls[i], key, default);
    }
    FirstSomeIsFirst(cs);
  }

  /** A key that no line of the file starts with keeps its default. */
  lemma MissingKeyKeepsDefault(content: string)
    ensures (forall i :: 0 <= i < |Lines(content)| ==> !StartsWith(Trim(Lines(content)[i]), "UID_MIN"))
      ==> UidMinMax(content).0 == DefaultUidMin
    ensures (forall i :: 0 <= i < |Lines(content)| ==> !StartsWith(Trim(Lines(content)[i]), "UID_MAX"))
      ==> UidMinMax(content).1 == DefaultUidMax
  {
    var ls := Lines(content);
    var mins := Classes(ls, "UID_MIN", DefaultUidMin);
    var maxs := Classes(ls, "UID_MAX", DefaultUidMax);
    assert UidMinMax(content) == (FirstSome(mins).GetOr(DefaultUidMin), FirstSome(maxs).GetOr(DefaultUidMax));
    if forall i :: 0 <= i < |ls| ==> !StartsWith(Trim(ls[i]), "UID_MIN") {
      NoKeyLine(ls, "UID_MIN", DefaultUidMin);
    }
    if forall i :: 0 <= i < |ls| ==> !StartsWith(Trim(ls[i]), "UID_MAX") {
      NoKeyLine(ls, "UID_MAX", DefaultUidMax);
    }
  }

  /** Otherwise the first line that starts with the key decides, whatever
      the lines after it say. */
  lemma FirstKeyLineDecides(content: string, j: nat)
    requires j < |Lines(content)| && StartsWith(Trim(Lines(content)[j]), "UID_MIN")
    requires forall i :: 0 <= i < j ==> !StartsWith(Trim(Lines(content)[i]), "UID_MIN")
    ensures UidMinMax(content).0 == LineValue(Trim(Lines(content)[j]), "UID_MIN", DefaultUidMin)
  {
    var cs := Classes(Lines(content), "UID_MIN", DefaultUidMin);
    FirstSomeAt(cs, j);
  }

  lemma {:induction false} FirstSomeAt(cs: seq<Option<nat>>, j: nat)
    requires j < |cs| && cs[j].Some? && forall i :: 0 <= i < j ==> cs[i].None?
    ensures FirstSome(cs) == cs[j]
  {
    if j > 0 {
      FirstSomeAt(cs[1..], j - 1);
    }
  }

  lemma FirstSomeSnoc(cs: seq<Option<nat>>, i: nat)
    requires i < |cs|
    ensures FirstSome(cs[..i + 1]) == if FirstSome(cs[..i]).Some? then FirstSome(cs[..i]) else cs[i]
  {
    assert cs[..i + 1] == cs[..i] + [cs[i]];
    FirstSomeAppend(cs[..i], [cs[i]]);
  }

  lemma FirstSomeStop(cs: seq<Option<nat>>, i: nat)
    requires i <= |cs| && FirstSome(cs[..i]).Some?
    ensures FirstSome(cs) == FirstSome(cs[..i])
  {
    assert cs == cs[..i] + cs[i..];
    FirstSomeAppend(cs[..i], cs[i..]);
  }

  /** A scan that stopped at line `i` has found the first value: either
      it found one already or it read every line. */
  lemma ScanDone(cs: seq<Option<nat>>, i: nat)
    requires i <= |cs| && (i == |cs| || FirstSome(cs[..i]).Some?)
    ensures FirstSome(cs) == FirstSome(cs[..i])
  {
    if i == |cs| {
      assert cs[..i] == cs;
    } else {
      FirstSomeStop(cs, i);
    }
  }

  lemma ClassifyTrimmed(line: string, t: string, key: string, default: nat)
    requires t == Trim(line)
    ensures Classify(line, key, default) == if StartsWith(t, key) then Some(LineValue(t, key, default)) else None
  {
  }

  /** No line starts with both keys. */
  lemma KeysExclusive(line: string)
    ensures !(StartsWith(line, "UID_MIN") && StartsWith(line, "UID_MAX"))
  {
    if StartsWith(line, "UID_MIN") {
      assert line[5] == "UID_MIN"[5] == 'I';
    }
  }

  /** What one more line does to the first values found so far: a key line
      sets its key if it is still unset, and no line sets both keys. */
  lemma ScanStep(ls: seq<string>, mins: seq<Option<nat>>, maxs: seq<Option<nat>>, i: nat, line: string)
    requires mins == Classes(ls, "UID_MIN", DefaultUidMin) && maxs == Classes(ls, "UID_MAX", DefaultUidMax)
    requires i < |ls| && line == Trim(ls[i])
    ensures FirstSome(mins[..i + 1]) ==
      if FirstSome(mins[..i]).None? && StartsWith(line, "UID_MIN")
      then Some(LineValue(line, "UID_MIN", DefaultUidMin)) else FirstSome(mins[..i])
    ensures FirstSome(maxs[..i + 1]) ==
      if FirstSome(maxs[..i]).None? && StartsWith(line, "UID_MAX")
      then Some(LineValue(line, "UID_MAX", DefaultUidMax)) else FirstSome(maxs[..i])
    ensures !(StartsWith(line, "UID_MIN") && StartsWith(line, "UID_MAX"))
  {
    FirstSomeSnoc(mins, i);
    FirstSomeSnoc(maxs, i);
    ClassifyTrimmed(ls[i], line, "UID_MIN", DefaultUidMin);
    ClassifyTrimmed(ls[i], line, "UID_MAX", DefaultUidMax);
    KeysExclusive(line);
  }

  /** The `for` loop over the lines, which stops once both keys are set. */
  method ScanLoginDefs(content: string) returns (uidMin: nat, uidMax: nat)
    ensures (uidMin, uidMax) == UidMinMax(content)
  {
    var ls := Lines(content);
    ghost var mins := Classes(ls, "UID_MIN", DefaultUidMin);
    ghost var maxs := Classes(ls, "UID_MAX", DefaultUidMax);
    var foundMin: Option<nat> := None;
    var foundMax: Option<nat> := None;
    var i := 0;
    while i < |ls|
      invariant 0 <= i <= |ls|
      invariant foundMin == FirstSome(mins[..i])
      invariant foundMax == FirstSome(maxs[..i])
    {
      var line := Trim(ls[i]);
      ScanStep(ls, mins, maxs, i, line);
      if foundMin.None? && StartsWith(line, "UID_MIN") {
        foundMin := Some(LineValue(line, "UID_MIN", DefaultUidMin));
      } else if foundMax.None? && StartsWith(line, "UID_MAX") {
        foundMax := Some(LineValue(line, "UID_MAX", DefaultUidMax));
      } else if foundMin.Some? && foundMax.Some? {
        break;
      }
      i := i + 1;
    }
    ScanDone(mins, i);
    ScanDone(maxs, i);
    assert UidMinMax(content) == (FirstSome(mins).GetOr(DefaultUidMin), FirstSome(maxs).GetOr(DefaultUidMax));
    uidMin := foundMin.GetOr(DefaultUidMin);
    uidMax := foundMax.GetOr(DefaultUidMax);
  }

  /** `find(|path| is_file())` over the candidate paths. */
  function FirstFile(paths: seq<string>, files: map<string, Option<string>>): (r: Option<string>)
    ensures r.None? <==> forall j :: 0 <= j < |paths| ==> paths[j] !in files
    ensures r.Some? ==>
      exists j :: 0 <= j < |paths| && paths[j] == r.value && r.value in files && forall i :: 0 <= i < j ==> paths[i] !in files
  {
    if paths == [] then None
    else if paths[0] in files then Some(paths[0])
    else
      var r := FirstFile(paths[1..], files);
      assert forall j :: 1 <= j < |paths| ==> paths[1..][j - 1] == paths[j];
      r
  }

  /** `LOGIN_UID_MINMAX`: the first of the two paths that is a regular file
      is read; no such file, or a failed read, gives the defaults. */
  method LoginUidMinMax(files: map<string, Option<string>>) returns (uidMin: nat, uidMax: nat)
    ensures LoginDefsPaths[0] in files ==>
      (uidMin, uidMax) == match files[LoginDefsPaths[0]]
        case Some(c) => UidMinMax(c)
        case None => (DefaultUidMin, DefaultUidMax)
    ensures LoginDefsPaths[0] !in files && LoginDefsPaths[1] in files ==>
      (uidMin, uidMax) == match files[LoginDefsPaths[1]]
        case Some(c) => UidMinMax(c)
        case None => (DefaultUidMin, DefaultUidMax)
    ensures LoginDefsPaths[0] !in files && LoginDefsPaths[1] !in files ==>
      (uidMin, uidMax) == (DefaultUidMin, DefaultUidMax)
  {
    match FirstFile(LoginDefsPaths, files) {
      case None =>
        uidMin, uidMax := DefaultUidMin, DefaultUidMax;
      case Some(p) =>
        match files[p] {
          case None =>
            uidMin, uidMax := DefaultUidMin, DefaultUidMax;
          case Some(content) =>
            uidMin, uidMax := ScanLoginDefs(content);
        }
    }
  }
}
