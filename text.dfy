/** String operations of the Rust standard library (`str::trim`,
    `starts_with`, `trim_start_matches`, `split`, `lines`, ...) as the
    sources use them. Strings are sequences of Unicode scalar values. */
module Text {
  import opened Wrappers

  /** Rust's `char::is_whitespace`: the Unicode White_Space property. */
  predicate IsWhitespace(c: char) {
    c == '\t' || c == '\n' || c == '\U{0B}' || c == '\U{0C}' || c == '\r' || c == ' '
    || c == '\U{85}' || c == '\U{A0}' || c == '\U{1680}'
    || ('\U{2000}' <= c <= '\U{200A}')
    || c == '\U{2028}' || c == '\U{2029}' || c == '\U{202F}' || c == '\U{205F}' || c == '\U{3000}'
  }

  predicate StartsWith(s: string, prefix: string) {
    prefix <= s
  }

  predicate EndsWith(s: string, suffix: string) {
    |suffix| <= |s| && s[|s| - |suffix|..] == suffix
  }

  /** `str::trim_start`. */
  function TrimStart(s: string): (r: string)
    ensures |r| <= |s| && r == s[|s| - |r|..]
    ensures r == [] || !IsWhitespace(r[0])
  {
    if s != [] && IsWhitespace(s[0]) then TrimStart(s[1..]) else s
  }

  /** Everything `trim_start` removes is whitespace. */
  lemma {:induction false} TrimStartRemovesWhitespace(s: string)
    ensures forall i :: 0 <= i < |s| - |TrimStart(s)| ==> IsWhitespace(s[i])
  {
    if s != [] && IsWhitespace(s[0]) {
      TrimStartRemovesWhitespace(s[1..]);
      assert forall i :: 1 <= i < |s| ==> s[1..][i - 1] == s[i];
    }
  }

  /** `str::trim_end`. */
  function TrimEnd(s: string): (r: string)
    ensures |r| <= |s| && r == s[..|r|]
    ensures r == [] || !IsWhitespace(r[|r| - 1])
  {
    if s != [] && IsWhitespace(s[|s| - 1]) then TrimEnd(s[..|s| - 1]) else s
  }

  /** Everything `trim_end` removes is whitespace. */
  lemma {:induction false} TrimEndRemovesWhitespace(s: string)
    ensures forall i :: |TrimEnd(s)| <= i < |s| ==> IsWhitespace(s[i])
  {
    if s != [] && IsWhitespace(s[|s| - 1]) {
      TrimEndRemovesWhitespace(s[..|s| - 1]);
    }
  }

  /** `str::trim`. */
  function Trim(s: string): string {
    TrimEnd(TrimStart(s))
  }

  /** `str::trim_start_matches(prefix)`: removes every leading repetition of
      `prefix` (nothing when `prefix` is empty). */
  function TrimStartMatches(s: string, prefix: string): (r: string)
    ensures |r| <= |s| && r == s[|s| - |r|..]
    ensures prefix != [] ==> !StartsWith(r, prefix)
    decreases |s|
  {
    if prefix != [] && StartsWith(s, prefix) then TrimStartMatches(s[|prefix|..], prefix) else s
  }

  /** `str::trim_end_matches(suffix)`: removes every trailing repetition of
      `suffix` (nothing when `suffix` is empty). */
  function TrimEndMatches(s: string, suffix: string): (r: string)
    ensures |r| <= |s| && r == s[..|r|]
    ensures suffix != [] ==> !EndsWith(r, suffix)
    decreases |s|
  {
    if suffix != [] && EndsWith(s, suffix) then TrimEndMatches(s[..|s| - |suffix|], suffix) else s
  }

  /** `n` copies of `s` in a row. */
  function Repeat(s: string, n: nat): string {
    if n == 0 then [] else Repeat(s, n - 1) + s
  }

  /** How many copies of the suffix `TrimEndMatches` removes. */
  function CopiesTrimmed(s: string, suffix: string): nat
    decreases |s|
  {
    if suffix != [] && EndsWith(s, suffix) then CopiesTrimmed(s[..|s| - |suffix|], suffix) + 1 else 0
  }

  /** What `TrimEndMatches` removes is a run of whole copies of the
      suffix. */
  lemma {:induction false} TrimEndMatchesCopies(s: string, suffix: string)
    ensures s == TrimEndMatches(s, suffix) + Repeat(suffix, CopiesTrimmed(s, suffix))
    decreases |s|
  {
    if suffix != [] && EndsWith(s, suffix) {
      var init := TrimOnce(s, suffix);
      TrimEndMatchesCopies(init, suffix);
      var r, n := TrimEndMatches(init, suffix), CopiesTrimmed(init, suffix);
      AppendAssoc(r, Repeat(suffix, n), suffix);
    }
  }

  /** One step of `TrimEndMatches`: a string ending in the suffix is what
      precedes it plus the suffix, and trimming goes on from there with one
      copy more. */
  lemma TrimOnce(s: string, suffix: string) returns (init: string)
    requires suffix != [] && EndsWith(s, suffix)
    ensures s == init + suffix
    ensures TrimEndMatches(s, suffix) == TrimEndMatches(init, suffix)
    ensures CopiesTrimmed(s, suffix) == CopiesTrimmed(init, suffix) + 1
  {
    init := s[..|s| - |suffix|];
    assert s == init + suffix;
  }

  lemma AppendAssoc(a: string, b: string, c: string)
    ensures (a + b) + c == a + (b + c)
  {
  }

  /** `str::trim_matches(chars)`: strips leading and trailing characters
      that belong to `cs`. */
  function TrimMatches(s: string, cs: set<char>): (r: string)
    ensures r == [] || (r[0] !in cs && r[|r| - 1] !in cs)
    ensures exists i, j :: 0 <= i <= j <= |s| && r == s[i..j]
  {
    var a := TrimStartChars(s, cs);
    var r := TrimEndChars(a, cs);
    assert r == s[|s| - |a|..|s| - |a| + |r|];
    r
  }

  function TrimStartChars(s: string, cs: set<char>): (r: string)
    ensures |r| <= |s| && r == s[|s| - |r|..]
    ensures r == [] || r[0] !in cs
  {
    if s != [] && s[0] in cs then TrimStartChars(s[1..], cs) else s
  }

  function TrimEndChars(s: string, cs: set<char>): (r: string)
    ensures |r| <= |s| && r == s[..|r|]
    ensures r == [] || r[|r| - 1] !in cs
  {
    if s != [] && s[|s| - 1] in cs then TrimEndChars(s[..|s| - 1], cs) else s
  }

  /** Index of the first character of `s` that belongs to `cs`. */
  function IndexOfAny(s: string, cs: set<char>): (r: Option<nat>)
    ensures r.Some? ==> r.value < |s| && s[r.value] in cs
    ensures forall i :: 0 <= i < (if r.Some? then r.value else |s|) ==> s[i] !in cs
  {
    if s == [] then None
    else if s[0] in cs then Some(0)
    else match IndexOfAny(s[1..], cs)
      case None => None
      case Some(i) => Some(i + 1)
  }

  /** `str::split_once(c)`: the parts before and after the first `c`. */
  function SplitOnce(s: string, c: char): (r: Option<(string, string)>)
    ensures r.None? <==> c !in s
    ensures r.Some? ==> s == r.value.0 + [c] + r.value.1 && c !in r.value.0
  {
    match IndexOfAny(s, {c})
    case None => None
    case Some(i) => assert s == s[..i] + [c] + s[i + 1..]; Some((s[..i], s[i + 1..]))
  }

  /** `s.split(cs)`: the pieces between separators, in order; there is
      always at least one piece. */
  function Split(s: string, cs: set<char>): (r: seq<string>)
    ensures |r| >= 1
    ensures forall k :: 0 <= k < |r| ==> forall c :: c in r[k] ==> c !in cs
    ensures (exists i :: 0 <= i < |s| && s[i] in cs) ==> |r| >= 2
  {
    if s == [] then [""]
    else
      var rest := Split(s[1..], cs);
      if s[0] in cs then
        [""] + rest
      else
        assert forall i :: 1 <= i < |s| && s[i] in cs ==> s[1..][i - 1] in cs;
        [[s[0]] + rest[0]] + rest[1..]
  }

  /** The first piece of a split is the text before the first separator,
      and there is one piece more than there are separators. */
  lemma {:induction false} SplitPieces(s: string, cs: set<char>)
    ensures Split(s, cs)[0] == FirstSegment(s, cs)
    ensures |Split(s, cs)| == 1 + SeparatorCount(s, cs)
  {
    if s != [] {
      SplitPieces(s[1..], cs);
      if s[0] !in cs {
        FirstSegmentCons(s, cs);
      }
    }
  }

  /** How many characters of `s` are separators. */
  function SeparatorCount(s: string, cs: set<char>): (n: nat)
    ensures n <= |s|
    ensures n == 0 <==> forall i :: 0 <= i < |s| ==> s[i] !in cs
  {
    if s == [] then 0
    else
      assert forall i :: 1 <= i < |s| ==> s[1..][i - 1] == s[i];
      (if s[0] in cs then 1 else 0) + SeparatorCount(s[1..], cs)
  }

  /** A first character that is no separator belongs to the first
      segment. */
  lemma FirstSegmentCons(s: string, cs: set<char>)
    requires s != [] && s[0] !in cs
    ensures FirstSegment(s, cs) == [s[0]] + FirstSegment(s[1..], cs)
  {
  }

  /** `s.split(cs).next()`: the text before the first separator. */
  function FirstSegment(s: string, cs: set<char>): (r: string)
    ensures r <= s
    ensures forall c :: c in r ==> c !in cs
    ensures |r| < |s| ==> s[|r|] in cs
  {
    match IndexOfAny(s, cs)
    case None => s
    case Some(i) => s[..i]
  }

  /** `str::lines`: splits at "\n" (dropping a "\r" right before it);
      a final line ending is optional and yields no empty last line. */
  function Lines(s: string): (r: seq<string>)
    ensures forall k :: 0 <= k < |r| ==> '\n' !in r[k]
  {
    if s == [] then []
    else match IndexOfAny(s, {'\n'})
      case None => [s]
      case Some(i) =>
        var line := if i > 0 && s[i - 1] == '\r' then s[..i - 1] else s[..i];
        assert forall c :: c in line ==> c in s[..i];
        [line] + Lines(s[i + 1..])
  }
}
