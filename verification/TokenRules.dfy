/** Rules that C has for single tokens, apart from how they are scanned: escapes in literals, the longest punctuator,
    and where an identifier ends. */
module TokenRules {
  import opened Lexing
  import opened Relexing

  // ----- literals -----

  /** A character as it can be written in any literal. */
  function Written(c: char): string {
    if c == '\0' then "\\0"
    else if c == '\n' then "\\n"
    else if c == '\t' then "\\t"
    else if c == '\r' then "\\r"
    else if c == '\\' then "\\\\"
    else if c == '\'' then "\\'"
    else if c == '"' then "\\\""
    else [c]
  }

  function WrittenAll(text: string): string {
    if text == "" then "" else Written(text[0]) + WrittenAll(text[1..])
  }

  lemma {:induction false} ReadWritten(s: string, p: nat, c: char, done: string)
    requires WrittenAt(s, p, Written(c))
    ensures ContentsAt(s, p, done) == ContentsAt(s, p + |Written(c)|, done + [c])
  {
    hide ContentsAt;
    var w := Written(c);
    assert s[p] == w[0] && (|w| == 2 ==> s[p + 1] == w[1]);
    if |w| == 2 { ReadEscape(s, p, done); } else { ReadPlain(s, p, done); }
  }

  lemma {:induction false} ReadAllWritten(s: string, p: nat, text: string, done: string)
    requires WrittenAt(s, p, WrittenAll(text) + "\"")
    ensures ContentsAt(s, p, done) == Contents(done + text, p + |WrittenAll(text)|)
    decreases text
  {
    hide ContentsAt, Written;
    if text == "" {
      assert (WrittenAll(text) + "\"")[0] == '"';
      ReadClose(s, p, done);
      assert done + text == done;
    } else {
      var w, rest := Written(text[0]), WrittenAll(text[1..]);
      assert WrittenAll(text) + "\"" == w + (rest + "\"");
      WrittenSplit(s, p, w, rest + "\"");
      ReadWritten(s, p, text[0], done);
      ReadAllWritten(s, p + |w|, text[1..], done + [text[0]]);
      assert done + [text[0]] + text[1..] == done + text;
    }
  }

  lemma {:induction false} SliceOf(s: string, p: nat, w: string)
    requires WrittenAt(s, p, w)
    ensures Slice(s, p, p + |w|) == w
  {
  }

  /** Every text can be written as a string literal, and the literal stands for it. */
  lemma {:induction false} StringStandsForText(o: Options, s: string, p: nat, text: string)
    requires WrittenAt(s, p, "\"" + (WrittenAll(text) + "\""))
    ensures TokenAt(o, s, p) == Got(StringToken(WrittenAll(text), text), p + |WrittenAll(text)| + 2)
  {
    hide ContentsAt, WrittenAll;
    var w := WrittenAll(text);
    WrittenSplit(s, p, "\"", w + "\"");
    assert s[p] == "\""[0];
    ReadAllWritten(s, p + 1, text, "");
    assert "" + text == text;
    WrittenSplit(s, p + 1, w, "\"");
    SliceOf(s, p + 1, w);
  }

  /** Every character can be written as a character constant, and the constant stands for it. */
  lemma {:induction false} ConstantStandsForCharacter(o: Options, s: string, p: nat, c: char)
    requires WrittenAt(s, p, "'" + (Written(c) + "'"))
    ensures TokenAt(o, s, p) == Got(CharToken(Written(c), c), p + |Written(c)| + 2)
  {
    var w := Written(c);
    WrittenSplit(s, p, "'", w + "'");
    assert s[p] == "'"[0];
    WrittenSplit(s, p + 1, w, "'");
    SliceOf(s, p + 1, w);
    assert s[p + 1] == w[0] && (|w| == 2 ==> s[p + 2] == w[1]) && s[p + 1 + |w|] == "'"[0];
  }

  /** There are no other escapes. */
  lemma {:induction false} OtherEscapesRefused(o: Options, s: string, p: nat)
    requires p + 2 < |s| && s[p] in {'"', '\''} && s[p + 1] == '\\'
    requires s[p + 2] !in {'0', 'n', 't', 'r', '\\', '\'', '"'}
    ensures TokenAt(o, s, p) == Problem
  {
  }

  // ----- punctuators -----

  predicate IsOne(a: char) {
    a in "[](){}.&*+-~!/%<>^|?:;=,#"
  }

  predicate IsTwo(a: char, b: char) {
    match a
    case '-' => b == '>' || b == '-' || b == '='
    case '+' => b == '+' || b == '='
    case '<' => b == '<' || b == '='
    case '>' => b == '>' || b == '='
    case '&' => b == '&' || b == '='
    case '|' => b == '|' || b == '='
    case '=' | '!' | '*' | '/' | '%' | '^' => b == '='
    case '#' => b == '#'
    case _ => false
  }

  predicate IsThree(a: char, b: char, c: char) {
    (a == '<' && b == '<' && c == '=') || (a == '>' && b == '>' && c == '=') || (a == '.' && b == '.' && c == '.')
  }

  /** w is a punctuator (C99 section 6.4.6, but for digraphs). */
  predicate IsPunctuator(w: string) {
    match |w|
    case 1 => IsOne(w[0])
    case 2 => IsTwo(w[0], w[1])
    case 3 => IsThree(w[0], w[1], w[2])
    case _ => false
  }

  /** The lexer takes the longest punctuator that the text goes on with, and none exactly where there is none. */
  lemma {:induction false} LongestPunctuator(s: string, p: nat, w: string)
    requires p < |s|
    ensures var n := PunctLength(s, p);
            && p + n <= |s| && (n > 0 ==> IsPunctuator(s[p..p + n]))
            && (IsPunctuator(w) && WrittenAt(s, p, w) ==> 0 < |w| <= n)
  {
    var n := PunctLength(s, p);
    if n > 0 {
      var t := s[p..p + n];
      assert t[0] == s[p] && (n > 1 ==> t[1] == s[p + 1]) && (n > 2 ==> t[2] == s[p + 2]);
    }
    if IsPunctuator(w) && WrittenAt(s, p, w) {
      assert w[0] == s[p] && (|w| > 1 ==> w[1] == s[p + 1]) && (|w| > 2 ==> w[2] == s[p + 2]);
    }
  }

  // ----- identifiers -----

  lemma {:induction false} ScanIsLongest(s: string, p: nat, f: char -> bool)
    requires p <= |s|
    ensures var q := ScanWhile(s, p, f);
            p <= q <= |s| && (forall i :: p <= i < q ==> f(s[i])) && (q < |s| ==> !f(s[q]))
    decreases |s| - p
  {
    if p < |s| && f(s[p]) { ScanIsLongest(s, p + 1, f); }
  }

  /** An identifier is the longest run of letters, digits and underscores from a letter or underscore on. */
  lemma {:induction false} IdentifierIsLongest(o: Options, s: string, p: nat, q: nat)
    requires p < q <= |s| && ('a' <= s[p] <= 'z' || 'A' <= s[p] <= 'Z' || s[p] == '_')
    requires forall i :: p <= i < q ==> 'a' <= s[i] <= 'z' || 'A' <= s[i] <= 'Z' || '0' <= s[i] <= '9' || s[i] == '_'
    requires q < |s| ==> !('a' <= s[q] <= 'z' || 'A' <= s[q] <= 'Z' || '0' <= s[q] <= '9' || s[q] == '_')
    ensures TokenAt(o, s, p) == Got(Word(s[p..q]), q)
  {
    ScanIsLongest(s, p, IsWord);
  }
}
