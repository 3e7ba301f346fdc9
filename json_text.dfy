/** JSON string literals (section 7 of RFC 8259) and the two-string array
    `["type", "text"]` that the newer login facade sends to the page with
    its show_prompt and show_message notifications. */
module JsonText {
  import opened Wrappers
  import opened Text

  function HexDigit(n: nat): (c: char)
    requires n < 16
    ensures HexValue(c) == Some(n)
  {
    if n < 10 then ('0' as int + n) as char else ('a' as int + n - 10) as char
  }

  function HexValue(c: char): (r: Option<nat>)
    ensures r.Some? ==> r.value < 16
  {
    if '0' <= c <= '9' then Some(c as int - '0' as int)
    else if 'a' <= c <= 'f' then Some(c as int - 'a' as int + 10)
    else if 'A' <= c <= 'F' then Some(c as int - 'A' as int + 10)
    else None
  }

  /** How one character is written inside a JSON string: a quote and a
      backslash are escaped, and so is every control character, as \u00XX. */
  function EscapeChar(c: char): (r: string)
    ensures |r| >= 1 && r[0] != '"'
    ensures c != '"' && c != '\\' && c >= ' ' ==> r == [c]
  {
    if c == '"' then "\\\""
    else if c == '\\' then "\\\\"
    else if c < ' ' then "\\u00" + [HexDigit(c as int / 16), HexDigit(c as int % 16)]
    else [c]
  }

  function Escape(s: string): string {
    if s == [] then [] else EscapeChar(s[0]) + Escape(s[1..])
  }

  /** Text without quotes, backslashes or control characters is written as
      it is. */
  predicate Plain(s: string) {
    forall i :: 0 <= i < |s| ==> s[i] != '"' && s[i] != '\\' && s[i] >= ' '
  }

  lemma {:induction false} EscapePlain(s: string)
    requires Plain(s)
    ensures Escape(s) == s
  {
    if s != [] {
      assert Plain(s[1..]);
      EscapePlain(s[1..]);
    }
  }

  /** Reads the body of a string literal whose opening quote has been
      consumed: the decoded text and what follows the closing quote. */
  function DecodeString(s: string): (r: Option<(string, string)>)
    decreases |s|
  {
    if s == [] then None
    else if s[0] == '"' then Some(([], s[1..]))
    else match DecodeUnit(s)
      case None => None
      case Some((c, n)) =>
        match DecodeString(s[n..])
        case None => None
        case Some((t, rest)) => Some(([c] + t, rest))
  }

  /** One character of a string body, or one escape sequence: the character
      it stands for and how many input characters it takes. */
  function DecodeUnit(s: string): (r: Option<(char, nat)>)
    requires s != []
    ensures r.Some? ==> 1 <= r.value.1 <= |s|
  {
    if s[0] < ' ' || s[0] == '"' then None
    else if s[0] != '\\' then Some((s[0], 1))
    else if |s| < 2 then None
    else
      var e := s[1];
      if e == '"' then Some(('"', 2)) else if e == '\\' then Some(('\\', 2))
      else if e == '/' then Some(('/', 2)) else if e == 'b' then Some(('\U{8}', 2))
      else if e == 'f' then Some(('\U{C}', 2)) else if e == 'n' then Some(('\n', 2))
      else if e == 'r' then Some(('\r', 2)) else if e == 't' then Some(('\t', 2))
      else if e != 'u' || |s| < 6 then None
      else match UnicodeEscape(s[2..6])
        case None => None
        case Some(c) => Some((c, 6))
  }

  /** The character named by the four hex digits of a \u escape; a
      surrogate code unit is not decoded. */
  function UnicodeEscape(h: string): Option<char>
    requires |h| == 4
  {
    match (HexValue(h[0]), HexValue(h[1]), HexValue(h[2]), HexValue(h[3]))
    case (Some(a), Some(b), Some(c), Some(d)) =>
      var v := ((a * 16 + b) * 16 + c) * 16 + d;
      if 0xD800 <= v < 0xE000 then None else Some(v as char)
    case _ => None
  }

  /** Decoding an escaped text followed by a closing quote gives the text
      back and leaves the rest of the input. */
  lemma {:induction false} DecodeEscape(s: string, rest: string)
    ensures DecodeString(Escape(s) + "\"" + rest) == Some((s, rest))
  {
    if s == [] {
      assert Escape(s) + "\"" + rest == "\"" + rest;
    } else {
      DecodeEscape(s[1..], rest);
      DecodeEscapeStep(s, rest);
    }
  }

  /** The induction step: decoding the escape of the whole text follows
      from decoding the escape of all but its first character. */
  lemma DecodeEscapeStep(s: string, rest: string)
    requires s != [] && DecodeString(Escape(s[1..]) + "\"" + rest) == Some((s[1..], rest))
    ensures DecodeString(Escape(s) + "\"" + rest) == Some((s, rest))
  {
    var c := s[0];
    var tail := Escape(s[1..]) + "\"" + rest;
    DecodeEscapeCons(c, s[1..], tail, rest);
    assert Escape(s) == EscapeChar(c) + Escape(s[1..]);
    RegroupFront(EscapeChar(c), Escape(s[1..]), "\"", rest);
    assert [c] + s[1..] == s;
  }

  lemma RegroupFront(a: string, b: string, c: string, d: string)
    ensures a + b + c + d == a + (b + c + d)
  {
  }

  /** An escaped character in front of a decodable body decodes to that
      character in front of the body's text. */
  lemma DecodeEscapeCons(c: char, t: string, tail: string, rest: string)
    requires DecodeString(tail) == Some((t, rest))
    ensures DecodeString(EscapeChar(c) + tail) == Some(([c] + t, rest))
  {
    var w := EscapeChar(c) + tail;
    DecodeEscapeChar(c, tail);
    assert w[|EscapeChar(c)|..] == tail;
    DecodeStringUnit(w, c, |EscapeChar(c)|, t, rest);
  }

  /** A string body that starts with a decodable unit decodes to that
      unit's character followed by the decoding of what comes after it. */
  lemma DecodeStringUnit(w: string, c: char, n: nat, t: string, rest: string)
    requires w != [] && DecodeUnit(w) == Some((c, n))
    requires DecodeString(w[n..]) == Some((t, rest))
    ensures DecodeString(w) == Some(([c] + t, rest))
  {
  }

  lemma DecodeEscapeChar(c: char, tail: string)
    ensures DecodeUnit(EscapeChar(c) + tail) == Some((c, |EscapeChar(c)|))
  {
    var w := EscapeChar(c) + tail;
    if c < ' ' {
      assert w[0] == '\\' && w[1] == 'u';
      assert w[2..6] == EscapeChar(c)[2..6];
      ControlEscape(c);
    } else if c == '"' || c == '\\' {
      assert w[0] == '\\' && w[1] == c;
    } else {
      assert w[0] == c;
    }
  }

  lemma ControlEscape(c: char)
    requires c < ' '
    ensures UnicodeEscape(EscapeChar(c)[2..6]) == Some(c)
  {
    var h := EscapeChar(c)[2..6];
    assert h == ['0', '0', HexDigit(c as int / 16), HexDigit(c as int % 16)];
    assert HexValue(h[2]) == Some(c as int / 16);
    assert HexValue(h[3]) == Some(c as int % 16);
    var v := ((0 * 16 + 0) * 16 + c as int / 16) * 16 + c as int % 16;
    assert v == c as int;
  }

  /** Reads `["a", "b"]` in the exact layout the facade writes. */
  function ParsePair(p: string): (r: Option<(string, string)>)
  {
    if !StartsWith(p, "[\"") then None
    else match DecodeString(p[2..])
      case None => None
      case Some((a, r1)) =>
        if !StartsWith(r1, ", \"") then None
        else match DecodeString(r1[3..])
          case None => None
          case Some((b, r2)) => if r2 == "]" then Some((a, b)) else None
  }

  /** The payload as `format!("[\"{type_}\", \"{text}\"]")` builds it:
      the text is pasted in without escaping. */
  function PayloadAsWritten(kind: string, text: string): (r: string)
    ensures |r| == |kind| + |text| + 8
    ensures r[2..2 + |kind|] == kind && r[|kind| + 6..|kind| + 6 + |text|] == text
  {
    "[\"" + (kind + "\"" + (", \"" + (text + "\"" + "]")))
  }

  /** The payload with both strings escaped. */
  function Payload(kind: string, text: string): (r: string)
    ensures ParsePair(r) == Some((kind, text))
  {
    var r := "[\"" + (Escape(kind) + "\"" + (", \"" + (Escape(text) + "\"" + "]")));
    PayloadParses(kind, text, r);
    r
  }

  lemma PayloadParses(kind: string, text: string, r: string)
    requires r == "[\"" + (Escape(kind) + "\"" + (", \"" + (Escape(text) + "\"" + "]")))
    ensures ParsePair(r) == Some((kind, text))
  {
    var y := Escape(text) + "\"" + "]";
    var r1 := ", \"" + y;
    var x := Escape(kind) + "\"" + r1;
    DecodeEscape(kind, r1);
    DecodeEscape(text, "]");
    ParsePairRest(x, kind, y, text, "]");
  }

  /** Without quotes, backslashes or control characters in either string
      the two payloads agree, so the defect only shows on such text. */
  lemma PayloadsAgreeOnPlainText(kind: string, text: string)
    requires Plain(kind) && Plain(text)
    ensures PayloadAsWritten(kind, text) == Payload(kind, text)
  {
    EscapePlain(kind);
    EscapePlain(text);
  }

  /** A quote in the text ends the second string early, so the unescaped
      payload of such a text never reads back as that text. */
  lemma QuoteCutsText(kind: string, a: string, b: string)
    requires Plain(kind) && Plain(a)
    ensures ParsePair(PayloadAsWritten(kind, a + "\"" + b)) == None
  {
    var text := a + "\"" + b;
    var r2 := b + "\"" + "]";
    var y := text + "\"" + "]";
    var r1 := ", \"" + y;
    EscapePlain(kind);
    DecodeEscape(kind, r1);
    EscapePlain(a);
    assert y == Escape(a) + "\"" + r2;
    DecodeEscape(a, r2);
    ParsePairRest(kind + "\"" + r1, kind, y, a, r2);
    assert |r2| >= 2;
  }

  /** A PAM message containing a quote does not survive the unescaped
      payload. */
  lemma QuoteBreaksPayloadAsWritten()
    ensures ParsePair(PayloadAsWritten("Info", "say \"hi\"")) != Some(("Info", "say \"hi\""))
  {
    var a, b := "say ", "hi\"";
    assert Plain("Info");
    assert Plain(a);
    assert "say \"hi\"" == a + "\"" + b;
    QuoteCutsText("Info", a, b);
  }

  lemma ParsePairRest(x: string, a: string, y: string, b: string, r2: string)
    requires DecodeString(x) == Some((a, ", \"" + y)) && DecodeString(y) == Some((b, r2))
    ensures ParsePair("[\"" + x) == if r2 == "]" then Some((a, b)) else None
  {
    assert ("[\"" + x)[2..] == x;
    assert (", \"" + y)[3..] == y;
  }
}
