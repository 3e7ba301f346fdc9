/** The locale catalogue (crates/greeters/src/common/language.rs): the
    languages `locale -a` lists, their names and territories, and the
    language LANG selects. The C library's locale database is given as
    functions: `database(code, messages)` stands for the English language
    and territory names `nl_langinfo` reports with LC_IDENTIFICATION set to
    `code` and LC_MESSAGES to `messages`, `translate` for `dgettext`. */
module Language {
  import opened Wrappers
  import opened Text

  datatype Language = Language(code: string, name: string, territory: string)

  const CodeSeparators: set<char> := {'_', '.', '@'}

  /** `code.split('.').next()`: a locale code without its codeset. */
  function CodePrefix(code: string): (r: string)
    ensures r <= code && '.' !in r
  {
    FirstSegment(code, {'.'})
  }

  /** `current`: the first language whose code agrees with LANG up to the
      codeset; None when LANG is unset or no language agrees. */
  function Current(lang: Option<string>, languages: seq<Language>): (r: Option<Language>)
    ensures lang.None? ==> r.None?
    ensures lang.Some? && r.None? ==>
      forall i :: 0 <= i < |languages| ==> CodePrefix(languages[i].code) != CodePrefix(lang.value)
    ensures r.Some? ==> lang.Some? && exists i :: (0 <= i < |languages| && languages[i] == r.value
      && CodePrefix(r.value.code) == CodePrefix(lang.value)
      && forall j :: 0 <= j < i ==> CodePrefix(languages[j].code) != CodePrefix(lang.value))
  {
    match lang
    case None => None
    case Some(code) => FindByPrefix(CodePrefix(code), languages)
  }

  function FindByPrefix(prefix: string, languages: seq<Language>): (r: Option<Language>)
    ensures r.None? ==> forall i :: 0 <= i < |languages| ==> CodePrefix(languages[i].code) != prefix
    ensures r.Some? ==> exists i :: (0 <= i < |languages| && languages[i] == r.value
      && CodePrefix(r.value.code) == prefix
      && forall j :: 0 <= j < i ==> CodePrefix(languages[j].code) != prefix)
  {
    if languages == [] then None
    else if CodePrefix(languages[0].code) == prefix then Some(languages[0])
    else
      var r := FindByPrefix(prefix, languages[1..]);
      assert forall i :: 1 <= i < |languages| ==> languages[1..][i - 1] == languages[i];
      if r.Some? then
        var i :| 0 <= i < |languages[1..]| && languages[1..][i] == r.value
          && CodePrefix(r.value.code) == prefix
          && forall j :: 0 <= j < i ==> CodePrefix(languages[1..][j].code) != prefix;
        assert languages[i + 1] == r.value;
        r
      else r
  }

  /** The language name: the translated English name, or, when the locale
      database has none, the code up to its first '_', '.' or '@'. */
  function LanguageName(code: string, languageEn: string, translate: (string, string) -> string): (r: string)
    ensures languageEn == "" ==> r <= code && forall c :: c in r ==> c !in CodeSeparators
    ensures languageEn == "" && |r| < |code| ==> code[|r|] in CodeSeparators
    ensures languageEn != "" ==> r == translate("iso_639-3", languageEn)
  {
    if languageEn == "" then FirstSegment(code, CodeSeparators) else translate("iso_639-3", languageEn)
  }

  /** The territory: empty for a code without '_'; otherwise the translated
      English territory name, or the second '_'/'.'/'@' segment of the code
      when the locale database has none. */
  function Territory(code: string, territoryEn: string, translate: (string, string) -> string): (r: string)
    ensures '_' !in code ==> r == ""
    ensures '_' in code && territoryEn == "" ==>
      r == Split(code, CodeSeparators)[1] && forall c :: c in r ==> c !in CodeSeparators
    ensures '_' in code && territoryEn != "" ==> r == translate("iso_3166-1", territoryEn)
  {
    if '_' !in code then ""
    else if territoryEn == "" then
      var i :| 0 <= i < |code| && code[i] == '_';
      assert code[i] in CodeSeparators;
      Split(code, CodeSeparators)[1]
    else translate("iso_3166-1", territoryEn)
  }

  /** The codes `locale -a` prints that name a UTF-8 locale, in order. */
  function Utf8Codes(codes: seq<string>): (r: seq<string>)
    ensures forall c :: c in r <==> c in codes && EndsWith(c, ".utf8")
  {
    if codes == [] then []
    else
      var rest := Utf8Codes(codes[1..]);
      assert forall c :: c in codes <==> c == codes[0] || c in codes[1..];
      if EndsWith(codes[0], ".utf8") then [codes[0]] + rest else rest
  }

  /** The catalogue entry of one code, under the locale database's English
      language and territory names for it. */
  function Describe(code: string, info: (string, string), translate: (string, string) -> string): (r: Language)
    ensures r.code == code
    ensures info.0 == "" ==> r.name <= code
    ensures '_' !in code ==> r.territory == ""
    ensures r.name == LanguageName(code, info.0, translate) && r.territory == Territory(code, info.1, translate)
  {
    Language(code, LanguageName(code, info.0, translate), Territory(code, info.1, translate))
  }

  /** `languages`: one entry per UTF-8 code of the `locale -a` output, in
      its order, described under the environment's LC_MESSAGES; no entries
      when the command fails. */
  function Languages(output: Option<string>, environment: string,
                     database: (string, string) -> (string, string), translate: (string, string) -> string): (r: seq<Language>)
    ensures output.None? ==> r == []
    ensures output.Some? ==>
      |r| == |Utf8Codes(Split(output.value, {'\n'}))|
      && forall i :: 0 <= i < |r| ==>
        (var code := Utf8Codes(Split(output.value, {'\n'}))[i];
         r[i] == Describe(code, database(code, environment), translate))
  {
    match output
    case None => []
    case Some(text) =>
      var codes := Utf8Codes(Split(text, {'\n'}));
      seq(|codes|, i requires 0 <= i < |codes| => Describe(codes[i], database(codes[i], environment), translate))
  }

  /** A catalogue that describes each UTF-8 code of the output in turn is
      the one `languages` returns. */
  lemma LanguagesByEntry(text: string, environment: string, database: (string, string) -> (string, string),
                         translate: (string, string) -> string, ls: seq<Language>)
    requires |ls| == |Utf8Codes(Split(text, {'\n'}))|
    requires forall j :: 0 <= j < |ls| ==>
      ls[j] == Describe(Utf8Codes(Split(text, {'\n'}))[j], database(Utf8Codes(Split(text, {'\n'}))[j], environment), translate)
    ensures ls == Languages(Some(text), environment, database, translate)
  {
  }

  /** Every catalogued language is a UTF-8 locale. */
  lemma LanguagesAreUtf8(output: Option<string>, environment: string,
                         database: (string, string) -> (string, string), translate: (string, string) -> string)
    ensures forall l :: l in Languages(output, environment, database, translate) ==> EndsWith(l.code, ".utf8")
  {
    if output.Some? {
      var codes := Utf8Codes(Split(output.value, {'\n'}));
      forall l | l in Languages(output, environment, database, translate)
        ensures EndsWith(l.code, ".utf8")
      {
        var i :| 0 <= i < |codes| && Languages(output, environment, database, translate)[i] == l;
        assert codes[i] in codes;
      }
    }
  }

  /** The process's locale, as far as probing the catalogue touches it. */
  class ProcessLocale {
    var identification: string
    var messages: string

    constructor (identification: string, messages: string)
      ensures this.identification == identification && this.messages == messages
    {
      this.identification := identification;
      this.messages := messages;
    }

    /** The loop that builds the catalogue: for each UTF-8 code it saves
        the LC_ALL locale, switches LC_IDENTIFICATION to the code and
        LC_MESSAGES to the environment's (`environment`), reads the names,
        and restores the saved locale. */
    method ProbeLanguages(output: Option<string>, environment: string,
                          database: (string, string) -> (string, string), translate: (string, string) -> string)
      returns (languages: seq<Language>)
      modifies this
      ensures identification == old(identification) && messages == old(messages)
      ensures languages == Languages(output, environment, database, translate)
    {
      languages := [];
      if output.None? {
        return;
      }
      var codes := Utf8Codes(Split(output.value, {'\n'}));
      var i := 0;
      while i < |codes|
        invariant 0 <= i <= |codes|
        invariant identification == old(identification) && messages == old(messages)
        invariant |languages| == i
        invariant forall j :: 0 <= j < i ==>
          languages[j] == Describe(codes[j], database(codes[j], environment), translate)
      {
        var saved := (identification, messages);
        identification := codes[i];
        messages := environment;
        var info := database(identification, messages);
        languages := languages + [Describe(codes[i], info, translate)];
        identification, messages := saved.0, saved.1;
        i := i + 1;
      }
      LanguagesByEntry(output.value, environment, database, translate, languages);
    }
  }
}
