/** What the preprocessor writes is read back by the lexer: quoted file names, stringized arguments, and whole output
    texts. */
module Relexing {
  import opened Lexing
  import M = MacroExpansion
  import T = PPTokens

  // ----- quoting -----

  function Quote(text: string): string {
    "\"" + Quoted(text) + "\""
  }

  function Quoted(text: string): string {
    if text == "" then "" else QuotedChar(text[0]) + Quoted(text[1..])
  }

  function QuotedChar(c: char): string {
    if c == '\n' then "\\n"
    else if c == '\r' then "\\r"
    else if c == '\t' then "\\t"
    else if c == '\\' || c == '"' then ['\\', c]
    else [c]
  }

  lemma {:induction false} QuotedThen(a: string, c: char)
    ensures Quoted(a + [c]) == Quoted(a) + QuotedChar(c)
    decreases a
  {
    if a == "" {
      assert [c][1..] == "";
      assert "" + [c] == [c];
    } else {
      QuotedThen(a[1..], c);
      assert (a + [c])[1..] == a[1..] + [c];
    }
  }

  /** Quotes a text, character by character. */
  method QuoteText(text: string) returns (result: string)
    ensures result == Quote(text)
  {
    result := "\"";
    for i := 0 to |text|
      invariant result == "\"" + Quoted(text[..i])
    {
      var c := text[i];
      QuotedThen(text[..i], c);
      assert text[..i + 1] == text[..i] + [c];
      if c == '\n' || c == '\r' || c == '\t' {
        result := result + if c == '\n' then "\\n" else if c == '\r' then "\\r" else "\\t";
      } else {
        if c == '\\' || c == '"' { result := result + "\\"; }
        result := result + [c];
      }
    }
    assert text[..|text|] == text;
    result := result + "\"";
  }

  /** s goes on with w at p. */
  predicate WrittenAt(s: string, p: nat, w: string) {
    p + |w| <= |s| && forall k :: 0 <= k < |w| ==> s[p + k] == w[k]
  }

  lemma {:induction false} WrittenSplit(s: string, p: nat, a: string, b: string)
    requires WrittenAt(s, p, a + b)
    ensures WrittenAt(s, p, a) && WrittenAt(s, p + |a|, b)
  {
    forall k | 0 <= k < |a|
      ensures s[p + k] == a[k]
    {
      assert (a + b)[k] == a[k];
    }
    forall k | 0 <= k < |b|
      ensures s[p + |a| + k] == b[k]
    {
      assert (a + b)[|a| + k] == b[k];
    }
  }

  // One step of reading the contents of a string.

  lemma {:induction false} ReadPlain(s: string, p: nat, done: string)
    requires p < |s| && s[p] != '"' && s[p] != '\\' && s[p] != '\n'
    ensures ContentsAt(s, p, done) == if s[p] == NUL then Broken else ContentsAt(s, p + 1, done + [s[p]])
  {
  }

  lemma {:induction false} ReadEscape(s: string, p: nat, done: string)
    requires p + 1 < |s| && s[p] == '\\' && Escape(s[p + 1]).Some?
    ensures ContentsAt(s, p, done) == ContentsAt(s, p + 2, done + [Escape(s[p + 1]).value])
  {
  }

  lemma {:induction false} ReadClose(s: string, p: nat, done: string)
    requires p < |s| && s[p] == '"'
    ensures ContentsAt(s, p, done) == Contents(done, p)
  {
  }

  lemma {:induction false} ReadQuotedChar(s: string, p: nat, c: char, done: string)
    requires WrittenAt(s, p, QuotedChar(c))
    ensures ContentsAt(s, p, done) == if c == NUL then Broken else ContentsAt(s, p + |QuotedChar(c)|, done + [c])
  {
    hide ContentsAt;
    var q := QuotedChar(c);
    assert s[p] == q[0] && (|q| == 2 ==> s[p + 1] == q[1]);
    if |q| == 2 { ReadEscape(s, p, done); } else { ReadPlain(s, p, done); }
  }

  lemma {:induction false} ReadQuoted(s: string, p: nat, f: string, done: string)
    requires WrittenAt(s, p, Quoted(f) + "\"")
    ensures ContentsAt(s, p, done) == if NUL in f then Broken else Contents(done + f, p + |Quoted(f)|)
    decreases f
  {
    hide ContentsAt, QuotedChar;
    if f == "" {
      assert (Quoted(f) + "\"")[0] == '"';
      ReadClose(s, p, done);
      assert done + "" == done;
    } else {
      var q, rest := QuotedChar(f[0]), Quoted(f[1..]) + "\"";
      assert Quoted(f) + "\"" == q + rest;
      WrittenSplit(s, p, q, rest);
      ReadQuotedChar(s, p, f[0], done);
      ReadQuoted(s, p + |q|, f[1..], done + [f[0]]);
      assert done + f == done + [f[0]] + f[1..];
    }
  }

  /** A quoted text is read back as that text exactly when it contains no NUL; with one it is malformed. */
  lemma {:induction false} QuoteIsReadBack(f: string)
    ensures StringAt(Quote(f), 0) == if NUL in f then Problem else Got(StringToken(Quoted(f), f), |Quote(f)|)
  {
    var s := Quote(f);
    assert WrittenAt(s, 1, Quoted(f) + "\"");
    ReadQuoted(s, 1, f, "");
    assert "" + f == f;
    assert Slice(s, 1, 1 + |Quoted(f)|) == Quoted(f);
  }

  // ----- stringizing -----

  /** The spelling of an argument, with one space where there was white space between its tokens. */
  function Spaced(arg: seq<T.PPToken>, first: bool): string {
    if arg == [] then "" else (if !first && arg[0].space then " " else "") + arg[0].Spelling() + Spaced(arg[1..], false)
  }

  predicate IsLiteral(t: T.PPToken) {
    t.kind == T.StringKind || t.kind == T.CharacterKind
  }

  /** No NUL or line end, and backslashes and quotes only inside literals. */
  predicate Clean(t: T.PPToken) {
    && NUL !in t.Spelling() && '\n' !in t.Spelling()
    && (!IsLiteral(t) ==> '\\' !in t.Spelling() && '"' !in t.Spelling())
  }

  lemma {:induction false} ReadEscaped(s: string, p: nat, w: string, literal: bool, done: string)
    requires WrittenAt(s, p, M.Escaped(w, literal)) && NUL !in w && '\n' !in w && (!literal ==> '\\' !in w && '"' !in w)
    ensures ContentsAt(s, p, done) == ContentsAt(s, p + |M.Escaped(w, literal)|, done + w)
    decreases w
  {
    hide ContentsAt;
    if w == "" {
      assert done + w == done;
    } else {
      var q := if literal && (w[0] == '\\' || w[0] == '"') then ['\\', w[0]] else [w[0]];
      assert M.Escaped(w, literal) == q + M.Escaped(w[1..], literal);
      WrittenSplit(s, p, q, M.Escaped(w[1..], literal));
      assert s[p] == q[0] && (|q| == 2 ==> s[p + 1] == q[1]);
      if |q| == 2 { ReadEscape(s, p, done); } else { ReadPlain(s, p, done); }
      ReadEscaped(s, p + |q|, w[1..], literal, done + [w[0]]);
      assert done + [w[0]] + w[1..] == done + w;
    }
  }

  lemma {:induction false} ReadSpace(s: string, p: nat, space: string, done: string)
    requires WrittenAt(s, p, space) && (space == "" || space == " ")
    ensures ContentsAt(s, p, done) == ContentsAt(s, p + |space|, done + space)
  {
    if space == "" {
      assert done + space == done;
    } else {
      assert s[p] == space[0];
      ReadPlain(s, p, done);
    }
  }

  lemma {:induction false} ReadSpellings(s: string, p: nat, arg: seq<T.PPToken>, first: bool, done: string)
    requires WrittenAt(s, p, M.Spellings(arg, first) + "\"") && forall t :: t in arg ==> Clean(t)
    ensures ContentsAt(s, p, done) == Contents(done + Spaced(arg, first), p + |M.Spellings(arg, first)|)
    decreases arg
  {
    hide ContentsAt, WrittenAt, M.Escaped, M.Spellings, Spaced, Clean;
    if arg == [] {
      NoSpellings(first);
      Closes(s, p);
      ReadClose(s, p, done);
      assert done + "" == done;
    } else {
      var space := if !first && arg[0].space then " " else "";
      var e, rest := M.Escaped(arg[0].Spelling(), IsLiteral(arg[0])), M.Spellings(arg[1..], false) + "\"";
      FirstSpelling(arg, first, done);
      WrittenSplit(s, p, space, e + rest);
      WrittenSplit(s, p + |space|, e, rest);
      ReadSpelling(s, p, arg[0], space, done);
      ReadSpellings(s, p + |space| + |e|, arg[1..], false, done + space + arg[0].Spelling());
    }
  }

  lemma {:induction false} NoSpellings(first: bool)
    ensures M.Spellings([], first) == Spaced([], first) == ""
  {
  }

  lemma {:induction false} FirstSpelling(arg: seq<T.PPToken>, first: bool, done: string)
    requires arg != []
    ensures var space := if !first && arg[0].space then " " else "";
            var e, rest := M.Escaped(arg[0].Spelling(), IsLiteral(arg[0])), M.Spellings(arg[1..], false) + "\"";
            M.Spellings(arg, first) + "\"" == space + (e + rest)
    ensures var space := if !first && arg[0].space then " " else "";
            done + space + arg[0].Spelling() + Spaced(arg[1..], false) == done + Spaced(arg, first)
  {
    hide M.Escaped;
    var space := if !first && arg[0].space then " " else "";
    Regroup(space, M.Escaped(arg[0].Spelling(), IsLiteral(arg[0])), M.Spellings(arg[1..], false), "\"");
    Regroup(done, space, arg[0].Spelling(), Spaced(arg[1..], false));
    Regroup("", space, arg[0].Spelling(), Spaced(arg[1..], false));
  }

  lemma {:induction false} Regroup(a: string, b: string, c: string, d: string)
    ensures a + b + c + d == a + (b + (c + d)) == a + (b + c + d)
  {
  }

  lemma {:induction false} Closes(s: string, p: nat)
    requires WrittenAt(s, p, "" + "\"")
    ensures p < |s| && s[p] == '"'
  {
    assert ("" + "\"")[0] == '"';
  }

  lemma {:induction false} ReadSpelling(s: string, p: nat, t: T.PPToken, space: string, done: string)
    requires Clean(t) && (space == "" || space == " ") && WrittenAt(s, p, space)
    requires WrittenAt(s, p + |space|, M.Escaped(t.Spelling(), IsLiteral(t)))
    ensures ContentsAt(s, p, done)
      == ContentsAt(s, p + |space| + |M.Escaped(t.Spelling(), IsLiteral(t))|, done + space + t.Spelling())
  {
    hide ContentsAt, M.Escaped;
    ReadSpace(s, p, space, done);
    ReadEscaped(s, p + |space|, t.Spelling(), IsLiteral(t), done + space);
  }

  /** A stringized argument is read as the argument's spelling, for arguments without stray backslashes, quotes or NULs.
      */
  lemma {:induction false} StringizedIsReadBack(arg: seq<T.PPToken>)
    requires forall t :: t in arg ==> Clean(t)
    ensures var s := M.Stringify(arg);
            StringAt(s, 0) == Got(StringToken(M.Spellings(arg, true), Spaced(arg, true)), |s|)
  {
    var s := M.Stringify(arg);
    assert WrittenAt(s, 1, M.Spellings(arg, true) + "\"");
    ReadSpellings(s, 1, arg, true, "");
    assert "" + Spaced(arg, true) == Spaced(arg, true);
    assert Slice(s, 1, 1 + |M.Spellings(arg, true)|) == M.Spellings(arg, true);
  }
}
