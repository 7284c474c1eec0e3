/**
 What reaches the log (logging.rs): free text under a sensitive key is replaced whole, and any
 other text loses its path-like and sensitive words.
 */
module Sanitizer {
  import opened Text

  datatype Json =
    | Null
    | Boolean(flag: bool)
    | Number(amount: real)
    | Str(text: string)
    | Arr(values: seq<Json>)
    | Obj(members: seq<Member>)

  datatype Member = Member(key: string, value: Json)

  const MARK: string := "[redacted]"

  // ---------------------------------------------------------------- words

  predicate IsWord(w: string) {
    w != "" && forall i :: 0 <= i < |w| ==> !IsWhitespace(w[i])
  }

  predicate AllWords(ws: seq<string>) {
    forall i :: 0 <= i < |ws| ==> IsWord(ws[i])
  }

  /** Where the text's leading run of visible characters ends. */
  function WordEnd(s: string): (n: nat)
    ensures n <= |s| && (forall i :: 0 <= i < n ==> !IsWhitespace(s[i])) && (n < |s| ==> IsWhitespace(s[n]))
  {
    if s == "" || IsWhitespace(s[0]) then 0 else 1 + WordEnd(s[1..])
  }

  /** The text split at runs of whitespace. */
  function Words(s: string): (ws: seq<string>)
    ensures AllWords(ws)
    decreases |s|
  {
    if s == "" then []
    else if IsWhitespace(s[0]) then Words(s[1..])
    else
      var n := WordEnd(s);
      [s[..n]] + Words(s[n..])
  }

  function Join(ws: seq<string>): string {
    if ws == [] then "" else if |ws| == 1 then ws[0] else ws[0] + " " + Join(ws[1..])
  }

  lemma {:induction false} WordEndsAtSpace(w: string, rest: string)
    requires IsWord(w) && (rest == "" || IsWhitespace(rest[0]))
    ensures WordEnd(w + rest) == |w|
    decreases |w|
  {
    assert (w + rest)[1..] == w[1..] + rest;
    if |w| > 1 {
      WordEndsAtSpace(w[1..], rest);
    } else {
      assert w[1..] + rest == rest;
    }
  }

  /** Joining words with single spaces and splitting again gives the same words. */
  lemma {:induction false} SplitUndoesJoin(ws: seq<string>)
    requires AllWords(ws)
    ensures Words(Join(ws)) == ws
    decreases |ws|
  {
    hide IsWhitespace;
    if ws != [] {
      var w := ws[0];
      assert IsWord(w);
      if |ws| == 1 {
        WordEndsAtSpace(w, "");
        assert w + "" == w && w[..|w|] == w && w[|w|..] == "";
      } else {
        var rest := " " + Join(ws[1..]);
        SpaceIsWhitespace();
        WordEndsAtSpace(w, rest);
        SplitUndoesJoin(ws[1..]);
        assert Join(ws) == w + rest;
        assert (w + rest)[..|w|] == w && (w + rest)[|w|..] == rest && rest[1..] == Join(ws[1..]);
      }
    }
  }

  lemma SpaceIsWhitespace()
    ensures IsWhitespace(' ')
  {
  }

  // ---------------------------------------------------------------- what is sensitive

  function AsciiLower(s: string): (r: string)
    ensures |r| == |s|
  {
    seq(|s|, i requires 0 <= i < |s| => if 'A' <= s[i] <= 'Z' then (s[i] as int + 32) as char else s[i])
  }

  const NEEDLES: seq<string> :=
    ["prompt", "secret", "token", "password", "credential", "authorization", "content", "output", "path"]

  const KEY_NEEDLES: seq<string> := NEEDLES + ["message", "error", "command", "cwd", "environment"]

  const SAFE_SUFFIXES: seq<string> := ["_kind", "_code", "_count", "_bytes", "_status"]

  predicate EndsWith(s: string, suffix: string) {
    |suffix| <= |s| && s[|s| - |suffix|..] == suffix
  }

  predicate ContainsAny(s: string, needles: seq<string>) {
    exists i :: 0 <= i < |needles| && Contains(s, needles[i])
  }

  predicate SensitiveKey(key: string) {
    var lower := AsciiLower(key);
    !(exists i :: 0 <= i < |SAFE_SUFFIXES| && EndsWith(lower, SAFE_SUFFIXES[i])) && ContainsAny(lower, KEY_NEEDLES)
  }

  predicate SensitiveWord(word: string) {
    ContainsAny(AsciiLower(word), NEEDLES)
  }

  predicate IsQuoting(c: char) {
    c in "\"'`,;:()[]{}"
  }

  function Unquoted(s: string): string
    decreases |s|
  {
    if s != "" && IsQuoting(s[0]) then Unquoted(s[1..])
    else if s != "" && IsQuoting(s[|s| - 1]) then Unquoted(s[..|s| - 1])
    else s
  }

  predicate IsSeparator(c: char) {
    c == '/' || c == '\\'
  }

  predicate IsLetter(c: char) {
    'a' <= c <= 'z' || 'A' <= c <= 'Z'
  }

  predicate PathLike(word: string) {
    var bare := Unquoted(word);
    bare != "" && (IsSeparator(bare[0]) || (|bare| >= 3 && IsLetter(bare[0]) && bare[1] == ':' && IsSeparator(bare[2])))
  }

  predicate Harmless(word: string) {
    !PathLike(word) && !SensitiveWord(word)
  }

  lemma PartsBringTheirLetters(text: string, part: string, c: char)
    requires Contains(text, part) && c in part
    ensures c in text
  {
    var i :| 0 <= i <= |text| && OccursAt(text, part, i);
    var k :| 0 <= k < |part| && part[k] == c;
    assert text[i..i + |part|][k] == text[i + k];
  }

  lemma MarkUnquoted()
    ensures Unquoted(MARK) == "redacted"
  {
    assert MARK[1..] == "redacted]";
    assert "redacted]"[..8] == "redacted";
    assert Unquoted("redacted]") == Unquoted("redacted");
  }

  lemma NotInMark(needle: string, letter: char)
    requires letter in needle && letter in "pson"
    ensures !Contains(MARK, needle)
  {
    hide Contains;
    if Contains(MARK, needle) {
      PartsBringTheirLetters(MARK, needle, letter);
      assert false;
    }
  }

  lemma MarkIsNotSensitive()
    ensures !SensitiveWord(MARK)
  {
    hide Contains;
    assert AsciiLower(MARK) == MARK;
    NotInMark("prompt", "prompt"[0]);
    NotInMark("secret", "secret"[0]);
    NotInMark("token", "token"[1]);
    NotInMark("password", "password"[0]);
    NotInMark("credential", "credential"[5]);
    NotInMark("authorization", "authorization"[4]);
    NotInMark("content", "content"[1]);
    NotInMark("output", "output"[0]);
    NotInMark("path", "path"[0]);
  }

  /** The mark itself is neither a path nor sensitive, so it is never replaced again. */
  lemma MarkIsHarmless()
    ensures IsWord(MARK) && Harmless(MARK)
  {
    hide SensitiveWord, Unquoted;
    MarkUnquoted();
    MarkIsNotSensitive();
  }

  // ---------------------------------------------------------------- sanitizing

  function SanitizeWord(w: string): string {
    if Harmless(w) then w else MARK
  }

  function SanitizeWords(ws: seq<string>): (r: seq<string>)
    ensures |r| == |ws| && forall i :: 0 <= i < |r| ==> r[i] == SanitizeWord(ws[i])
  {
    seq(|ws|, i requires 0 <= i < |ws| => SanitizeWord(ws[i]))
  }

  function SanitizeText(s: string): string {
    Join(SanitizeWords(Words(s)))
  }

  function Sanitize(v: Json): Json
    decreases v
  {
    match v
    case Str(text) => Str(SanitizeText(text))
    case Arr(values) => Arr(seq(|values|, i requires 0 <= i < |values| => Sanitize(values[i])))
    case Obj(members) => Obj(seq(|members|, i requires 0 <= i < |members| => SanitizeMember(members[i])))
    case _ => v
  }

  function SanitizeMember(m: Member): Member
    decreases m
  {
    if SensitiveKey(m.key) && !m.value.Boolean? then Member(m.key, Str(MARK)) else Member(m.key, Sanitize(m.value))
  }

  // ---------------------------------------------------------------- what it guarantees

  /** Single-spaced text of harmless words. */
  predicate CleanText(s: string) {
    s == Join(Words(s)) && forall i :: 0 <= i < |Words(s)| ==> Harmless(Words(s)[i])
  }

  /** Every text is clean; under a sensitive key there is a boolean or the mark. */
  predicate Clean(v: Json)
    decreases v
  {
    match v
    case Str(text) => CleanText(text)
    case Arr(values) => forall i :: 0 <= i < |values| ==> Clean(values[i])
    case Obj(members) => forall i :: 0 <= i < |members| ==> CleanMember(members[i])
    case _ => true
  }

  predicate CleanMember(m: Member)
    decreases m
  {
    if SensitiveKey(m.key) then m.value.Boolean? || m.value == Str(MARK) else Clean(m.value)
  }

  /** Word by word: each word of the output is the input's word, or the mark in its place. */
  lemma SanitizedWords(s: string)
    ensures Words(SanitizeText(s)) == SanitizeWords(Words(s))
  {
    hide Words, Harmless;
    MarkIsHarmless();
    SplitUndoesJoin(SanitizeWords(Words(s)));
  }

  lemma SanitizedTextIsClean(s: string)
    ensures CleanText(SanitizeText(s))
  {
    hide Words, Harmless;
    SanitizedWords(s);
    MarkIsHarmless();
  }

  lemma CleanTextIsKept(s: string)
    ensures SanitizeText(s) == s <==> CleanText(s)
  {
    hide Words, Harmless;
    if CleanText(s) {
      assert SanitizeWords(Words(s)) == Words(s);
    } else if SanitizeText(s) == s {
      SanitizedTextIsClean(s);
      assert false;
    }
  }

  /** Only quotes, brackets and the marks that end a word. */
  predicate AllQuoting(s: string) {
    forall i :: 0 <= i < |s| ==>
                  || s[i] == '"' || s[i] == '\'' || s[i] == '`' || s[i] == ',' || s[i] == ';' || s[i] == ':'
                  || s[i] == '(' || s[i] == ')' || s[i] == '[' || s[i] == ']' || s[i] == '{' || s[i] == '}'
  }

  /** Stripping quotes never cuts into a start that neither begins nor ends with one. */
  lemma {:induction false} UnquotedKeepsItsStart(word: string, n: nat)
    requires 1 <= n <= |word| && !IsQuoting(word[0]) && !IsQuoting(word[n - 1])
    ensures n <= |Unquoted(word)| && Unquoted(word)[..n] == word[..n]
    decreases |word|
  {
    if IsQuoting(word[|word| - 1]) {
      var shorter := word[..|word| - 1];
      UnquotedKeepsItsStart(shorter, n);
      assert shorter[..n] == word[..n];
    }
  }

  lemma QuotesAreQuoting(s: string)
    requires AllQuoting(s) && s != ""
    ensures IsQuoting(s[0]) && AllQuoting(s[1..])
  {
  }

  lemma {:induction false} LeadingQuotesGo(before: string, rest: string)
    requires AllQuoting(before)
    ensures Unquoted(before + rest) == Unquoted(rest)
    decreases |before|
  {
    hide AllQuoting, IsQuoting;
    if before == "" {
      assert before + rest == rest;
    } else {
      QuotesAreQuoting(before);
      LeadingQuotesGo(before[1..], rest);
      assert (before + rest)[1..] == before[1..] + rest;
    }
  }

  /** A slash or a backslash. */
  predicate Slash(c: char) {
    c as int == 47 || c as int == 92
  }

  /** An absolute path, in either system's form: one that begins with a slash, or with a drive's letter, a
      colon and a slash. */
  predicate Absolute(path: string) {
    || (path != "" && Slash(path[0]))
    || (|path| >= 3 && (65 <= path[0] as int <= 90 || 97 <= path[0] as int <= 122) && path[1] as int == 58 && Slash(path[2]))
  }

  lemma QuotedPathIsPathLike(before: string, path: string, after: string)
    requires AllQuoting(before) && Absolute(path)
    ensures PathLike(before + path + after)
  {
    var rest := path + after;
    var n := if IsSeparator(path[0]) then 1 else 3;
    assert before + path + after == before + rest;
    LeadingQuotesGo(before, rest);
    assert rest[0] == path[0] && rest[n - 1] == path[n - 1];
    UnquotedKeepsItsStart(rest, n);
    var bare := Unquoted(rest);
    assert forall i :: 0 <= i < n ==> bare[i] == bare[..n][i] == rest[..n][i] == path[i];
    hide Unquoted;
  }

  lemma QuotedPathIsNotHarmless(before: string, path: string, after: string)
    requires AllQuoting(before) && Absolute(path)
    ensures !Harmless(before + path + after)
  {
    hide SensitiveWord, PathLike;
    QuotedPathIsPathLike(before, path, after);
  }

  /** No absolute path in a text reaches the log, however it is quoted; the other words keep their
      places. */
  lemma PathsAreRedacted(s: string, i: nat, before: string, path: string, after: string)
    requires i < |Words(s)| && Words(s)[i] == before + path + after && AllQuoting(before) && Absolute(path)
    ensures var out := Words(SanitizeText(s)); |out| == |Words(s)| && out[i] == MARK
  {
    hide Words, Harmless, Join, Absolute, AllQuoting;
    SanitizedWords(s);
    QuotedPathIsNotHarmless(before, path, after);
  }

  /** No text of the output holds a path-like or sensitive word, and a sensitive key holds a boolean or
      the mark.  Keys themselves are not texts: see OutputIsWhollyClean. */
  lemma {:induction false} OutputIsClean(v: Json)
    ensures Clean(Sanitize(v))
    decreases v
  {
    hide CleanText, SanitizeText, SensitiveKey;
    match v
    case Str(text) => SanitizedTextIsClean(text);
    case Arr(values) =>
      forall i | 0 <= i < |values|
        ensures Clean(Sanitize(values[i]))
      {
        OutputIsClean(values[i]);
      }
    case Obj(members) =>
      forall i | 0 <= i < |members|
        ensures CleanMember(SanitizeMember(members[i]))
      {
        OutputIsClean(members[i].value);
      }
    case _ =>
  }

  /** A value is left alone exactly when it is already clean, so nothing harmless is lost. */
  lemma {:induction false} OnlyCleanIsKept(v: Json)
    ensures Sanitize(v) == v <==> Clean(v)
    decreases v
  {
    hide CleanText, SanitizeText, SensitiveKey;
    match v
    case Str(text) => CleanTextIsKept(text);
    case Arr(values) =>
      forall i | 0 <= i < |values|
        ensures Sanitize(values[i]) == values[i] <==> Clean(values[i])
      {
        OnlyCleanIsKept(values[i]);
      }
      assert Sanitize(v) == v <==> Sanitize(v).values == values;
    case Obj(members) =>
      forall i | 0 <= i < |members|
        ensures SanitizeMember(members[i]) == members[i] <==> CleanMember(members[i])
      {
        OnlyCleanIsKept(members[i].value);
      }
      assert Sanitize(v) == v <==> Sanitize(v).members == members;
    case _ =>
  }

  /** Sanitizing twice is sanitizing once. */
  lemma SanitizingIsIdempotent(v: Json)
    ensures Sanitize(Sanitize(v)) == Sanitize(v)
  {
    OutputIsClean(v);
    OnlyCleanIsKept(Sanitize(v));
  }

  // ---------------------------------------------------------------- keys

  predicate HarmlessKey(key: string) {
    forall i :: 0 <= i < |Words(key)| ==> Harmless(Words(key)[i])
  }

  /** Clean, and the keys too. */
  predicate WhollyClean(v: Json)
    decreases v
  {
    match v
    case Str(text) => CleanText(text)
    case Arr(values) => forall i :: 0 <= i < |values| ==> WhollyClean(values[i])
    case Obj(members) => forall i :: 0 <= i < |members| ==> WhollyCleanMember(members[i])
    case _ => true
  }

  predicate WhollyCleanMember(m: Member)
    decreases m
  {
    && HarmlessKey(m.key)
    && if SensitiveKey(m.key) then m.value.Boolean? || m.value == Str(MARK) else WhollyClean(m.value)
  }

  /** Every key that is not dropped with the value it lies in is harmless. */
  predicate HarmlessKeys(v: Json)
    decreases v
  {
    match v
    case Arr(values) => forall i :: 0 <= i < |values| ==> HarmlessKeys(values[i])
    case Obj(members) => forall i :: 0 <= i < |members| ==> HarmlessKeysOf(members[i])
    case _ => true
  }

  predicate HarmlessKeysOf(m: Member)
    decreases m
  {
    HarmlessKey(m.key) && (SensitiveKey(m.key) || HarmlessKeys(m.value))
  }

  /** Keys are written as they are, so the whole output is clean if and only if every key that reaches
      it was harmless. */
  lemma {:induction false} OutputIsWhollyClean(v: Json)
    ensures WhollyClean(Sanitize(v)) <==> HarmlessKeys(v)
    decreases v
  {
    hide CleanText, SanitizeText, SensitiveKey, HarmlessKey;
    match v
    case Str(text) => SanitizedTextIsClean(text);
    case Arr(values) =>
      forall i | 0 <= i < |values|
        ensures WhollyClean(Sanitize(values[i])) <==> HarmlessKeys(values[i])
      {
        OutputIsWhollyClean(values[i]);
      }
      assert forall i :: 0 <= i < |values| ==> Sanitize(v).values[i] == Sanitize(values[i]);
    case Obj(members) =>
      forall i | 0 <= i < |members|
        ensures WhollyCleanMember(SanitizeMember(members[i])) <==> HarmlessKeysOf(members[i])
      {
        OutputIsWhollyClean(members[i].value);
      }
      assert forall i :: 0 <= i < |members| ==> Sanitize(v).members[i] == SanitizeMember(members[i]);
    case _ =>
  }

  lemma PathKeyIsNotHarmless(key: string)
    requires IsWord(key) && Absolute(key)
    ensures !HarmlessKey(key)
  {
    hide Harmless, Absolute;
    SplitUndoesJoin([key]);
    QuotedPathIsNotHarmless("", key, "");
    assert "" + key + "" == key;
    assert Words(key)[0] == key;
  }

  /** A path used as a key reaches the log, whatever its value. */
  lemma PathKeySurvives(key: string, value: Json)
    requires IsWord(key) && Absolute(key)
    ensures Sanitize(Obj([Member(key, value)])).members[0].key == key
    ensures !WhollyClean(Sanitize(Obj([Member(key, value)])))
  {
    var v := Obj([Member(key, value)]);
    PathKeyIsNotHarmless(key);
    hide SensitiveKey, HarmlessKey, Absolute;
    OutputIsWhollyClean(v);
    assert !HarmlessKeysOf(v.members[0]);
  }

  // ---------------------------------------------------------------- which values and words are marked

  /** The letters are the same, whatever the case of the first. */
  predicate SameLetter(c: char, lower: char) {
    c == lower || ('A' <= c <= 'Z' && lower as int == c as int + 32)
  }

  predicate SpeltAt(text: string, word: string, i: nat) {
    i + |word| <= |text| && forall k :: 0 <= k < |word| ==> SameLetter(text[i + k], word[k])
  }

  /** The word is somewhere in the text, in any case. */
  predicate Spells(text: string, word: string) {
    exists i :: 0 <= i <= |text| && SpeltAt(text, word, i)
  }

  predicate EndsIn(text: string, word: string) {
    |word| <= |text| && SpeltAt(text, word, |text| - |word|)
  }

  /** The words that make a word of a text sensitive. */
  predicate SpeaksOfSecrets(text: string) {
    || Spells(text, "prompt") || Spells(text, "secret") || Spells(text, "token") || Spells(text, "password")
    || Spells(text, "credential") || Spells(text, "authorization") || Spells(text, "content")
    || Spells(text, "output") || Spells(text, "path")
  }

  /** A key is sensitive for five more. */
  predicate KeyOfSecrets(key: string) {
    || SpeaksOfSecrets(key)
    || Spells(key, "message") || Spells(key, "error") || Spells(key, "command") || Spells(key, "cwd") || Spells(key, "environment")
  }

  predicate EndsSafely(key: string) {
    || EndsIn(key, "_kind") || EndsIn(key, "_code") || EndsIn(key, "_count") || EndsIn(key, "_bytes") || EndsIn(key, "_status")
  }

  predicate NoCapitals(word: string) {
    forall k :: 0 <= k < |word| ==> !('A' <= word[k] <= 'Z')
  }

  lemma SpeltIsOccurring(text: string, word: string, i: nat)
    requires NoCapitals(word)
    ensures SpeltAt(text, word, i) <==> OccursAt(AsciiLower(text), word, i)
  {
    var lower := AsciiLower(text);
    if i + |word| <= |text| {
      assert forall k :: 0 <= k < |word| ==> (SameLetter(text[i + k], word[k]) <==> lower[i + k] == word[k]);
      var part := lower[i..i + |word|];
      assert forall k :: 0 <= k < |word| ==> part[k] == lower[i + k];
    }
  }

  lemma SpeltIsContained(text: string, word: string)
    requires NoCapitals(word)
    ensures Spells(text, word) <==> Contains(AsciiLower(text), word)
    ensures EndsIn(text, word) <==> EndsWith(AsciiLower(text), word)
  {
    hide SpeltAt, OccursAt;
    forall i: nat
      ensures SpeltAt(text, word, i) <==> OccursAt(AsciiLower(text), word, i)
    {
      SpeltIsOccurring(text, word, i);
    }
    EndsAtOccurrence(AsciiLower(text), word);
  }

  lemma EndsAtOccurrence(text: string, word: string)
    ensures EndsWith(text, word) <==> |word| <= |text| && OccursAt(text, word, |text| - |word|)
  {
    if |word| <= |text| {
      assert text[|text| - |word|..] == text[|text| - |word|..|text| - |word| + |word|];
    }
  }

  lemma AnySpelt(text: string, words: seq<string>)
    requires forall i :: 0 <= i < |words| ==> NoCapitals(words[i])
    ensures ContainsAny(AsciiLower(text), words) <==> exists i :: 0 <= i < |words| && Spells(text, words[i])
  {
    hide Spells, Contains;
    forall i | 0 <= i < |words|
      ensures Spells(text, words[i]) <==> Contains(AsciiLower(text), words[i])
    {
      SpeltIsContained(text, words[i]);
    }
  }

  lemma SensitiveWordsAreSpelt(word: string)
    ensures SensitiveWord(word) <==> SpeaksOfSecrets(word)
  {
    hide Spells, ContainsAny;
    AnySpelt(word, NEEDLES);
    var w := NEEDLES;
    assert w[0] == "prompt" && w[1] == "secret" && w[2] == "token" && w[3] == "password" && w[4] == "credential";
    assert w[5] == "authorization" && w[6] == "content" && w[7] == "output" && w[8] == "path" && |w| == 9;
  }

  lemma SensitiveKeysAreSpelt(key: string)
    ensures SensitiveKey(key) <==> KeyOfSecrets(key) && !EndsSafely(key)
  {
    hide Spells, ContainsAny, EndsIn, EndsWith, SpeaksOfSecrets;
    SensitiveWordsAreSpelt(key);
    KeyNeedlesAreMore(key);
    SafeEndings(key);
  }

  lemma KeyNeedlesAreMore(key: string)
    ensures ContainsAny(AsciiLower(key), KEY_NEEDLES) <==> SensitiveWord(key) || KeyOfSecrets(key)
  {
    hide Spells, ContainsAny;
    AnySpelt(key, KEY_NEEDLES);
    SensitiveWordsAreSpelt(key);
    AnySpelt(key, NEEDLES);
    var w := KEY_NEEDLES;
    assert w[9] == "message" && w[10] == "error" && w[11] == "command" && w[12] == "cwd" && w[13] == "environment" && |w| == 14;
    assert forall i :: 0 <= i < 9 ==> w[i] == NEEDLES[i];
  }

  lemma SafeEndings(key: string)
    ensures (exists i :: 0 <= i < |SAFE_SUFFIXES| && EndsWith(AsciiLower(key), SAFE_SUFFIXES[i])) <==> EndsSafely(key)
  {
    hide EndsIn, EndsWith;
    var w := SAFE_SUFFIXES;
    assert w[0] == "_kind" && w[1] == "_code" && w[2] == "_count" && w[3] == "_bytes" && w[4] == "_status" && |w| == 5;
    forall i | 0 <= i < |w|
      ensures EndsIn(key, w[i]) <==> EndsWith(AsciiLower(key), w[i])
    {
      SpeltIsContained(key, w[i]);
    }
  }

  /** Which members lose their value: those whose key speaks of secrets and does not end in one of the
      safe suffixes, unless the value is a boolean.  Every other value is only sanitized. */
  lemma SecretsAreMarked(members: seq<Member>, i: nat)
    requires i < |members|
    ensures var out, m := Sanitize(Obj(members)), members[i];
            && out.Obj? && |out.members| == |members|
            && out.members[i] == if KeyOfSecrets(m.key) && !EndsSafely(m.key) && !m.value.Boolean?
                                 then Member(m.key, Str("[redacted]"))
                                 else Member(m.key, Sanitize(m.value))
  {
    hide SensitiveKey, KeyOfSecrets, EndsSafely;
    SensitiveKeysAreSpelt(members[i].key);
  }

  /** The word is an absolute path behind any number of quotes and brackets. */
  predicate QuotedPath(word: string) {
    exists n :: 0 <= n <= |word| && AllQuoting(word[..n]) && Absolute(word[n..])
  }

  lemma {:induction false} UnquotedIsAPart(word: string) returns (n: nat)
    ensures n <= |word| && AllQuoting(word[..n]) && Unquoted(word) <= word[n..]
    decreases |word|
  {
    if word != "" && IsQuoting(word[0]) {
      var k := UnquotedIsAPart(word[1..]);
      n := k + 1;
      assert word[1..][k..] == word[n..];
      assert forall i :: 1 <= i < n ==> word[..n][i] == word[1..][..k][i - 1];
    } else if word != "" && IsQuoting(word[|word| - 1]) {
      var shorter := word[..|word| - 1];
      n := UnquotedIsAPart(shorter);
      assert shorter[..n] == word[..n];
      assert shorter[n..] <= word[n..];
    } else {
      n := 0;
      assert word[0..] == word;
    }
  }

  lemma PathLikeIsQuotedPath(word: string)
    ensures PathLike(word) <==> QuotedPath(word)
  {
    if PathLike(word) {
      var n := UnquotedIsAPart(word);
      assert Absolute(word[n..]);
    }
    if QuotedPath(word) {
      var n :| 0 <= n <= |word| && AllQuoting(word[..n]) && Absolute(word[n..]);
      assert word[..n] + word[n..] + "" == word;
      QuotedPathIsPathLike(word[..n], word[n..], "");
    }
  }

  /** Word by word, what reaches the log: the mark for a path and for a word that speaks of secrets, and
      every other word as it is. */
  lemma WordsAreMarked(s: string, i: nat)
    requires i < |Words(s)|
    ensures var out, word := Words(SanitizeText(s)), Words(s)[i];
            && |out| == |Words(s)|
            && out[i] == if QuotedPath(word) || SpeaksOfSecrets(word) then "[redacted]" else word
  {
    hide Words, PathLike, SensitiveWord, SpeaksOfSecrets, QuotedPath, Join;
    SanitizedWords(s);
    PathLikeIsQuotedPath(Words(s)[i]);
    SensitiveWordsAreSpelt(Words(s)[i]);
  }
}
