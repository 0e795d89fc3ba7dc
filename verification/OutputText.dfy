/** The preprocessed text: its tokens, on their lines. The lexer reads back the same tokens, whatever their neighbours.
    */
module OutputText {
  import opened Lexing
  import opened Relexing
  import opened Wrappers

  datatype Placed = Placed(text: string, file: string, line: nat)

  function Separator(some: bool, previous: Placed, t: Placed): string {
    if !some then ""
    else if previous.file != t.file || previous.line != t.line then "\n"
    else " "
  }

  /** What is written from ts on, when some text is written already. */
  function Rest(some: bool, previous: Placed, ts: seq<Placed>): string
    decreases ts
  {
    if ts == [] then ""
    else Separator(some, previous, ts[0]) + ts[0].text + Rest(some || ts[0].text != "", ts[0], ts[1..])
  }

  function Text(ts: seq<Placed>): string {
    var body := Rest(false, Placed("", "", 0), ts);
    if body == "" then "" else body + "\n"
  }

  lemma {:induction false} RestStep(done: string, previous: Placed, ts: seq<Placed>, i: nat)
    requires i < |ts|
    ensures var next := done + Separator(done != "", previous, ts[i]) + ts[i].text;
            done + Rest(done != "", previous, ts[i..]) == next + Rest(next != "", ts[i], ts[i + 1..])
  {
    assert ts[i..][0] == ts[i] && ts[i..][1..] == ts[i + 1..];
  }

  method WriteText(ts: seq<Placed>) returns (result: string)
    ensures result == Text(ts)
  {
    hide Rest;
    result := "";
    var previous := Placed("", "", 0);
    ghost var all := Rest(false, previous, ts);
    assert ts[0..] == ts;
    for i := 0 to |ts|
      invariant result + Rest(result != "", previous, ts[i..]) == all
    {
      RestStep(result, previous, ts, i);
      if result != "" {
        result := result + if previous.file != ts[i].file || previous.line != ts[i].line then "\n" else " ";
      }
      result := result + ts[i].text;
      previous := ts[i];
    }
    assert ts[|ts|..] == [];
    NothingLeftToWrite(result != "", previous);
    if result != "" { result := result + "\n"; }
  }

  lemma {:induction false} NothingLeftToWrite(some: bool, previous: Placed)
    ensures Rest(some, previous, []) == ""
  {
  }

  // ----- a token followed by white space -----

  /** t stands in s at k, and a separator follows. */
  predicate Embedded(t: string, s: string, k: nat) {
    WrittenAt(s, k, t) && k + |t| < |s| && (s[k + |t|] == ' ' || s[k + |t|] == '\n')
  }

  lemma {:induction false} SameAt(t: string, s: string, k: nat, p: nat)
    requires Embedded(t, s, k) && p <= |t|
    ensures p < |t| ==> At(s, k + p) == At(t, p)
    ensures p == |t| ==> (At(s, k + p) == ' ' || At(s, k + p) == '\n') && At(t, p) == NUL
  {
  }

  lemma {:induction false} SameSlice(t: string, s: string, k: nat, p: nat, q: nat)
    requires Embedded(t, s, k) && p <= q <= |t|
    ensures Slice(s, k + p, k + q) == Slice(t, p, q)
  {
    forall i | 0 <= i < q - p
      ensures s[k + p..k + q][i] == t[p..q][i]
    {
      assert s[k + (p + i)] == t[p + i];
    }
  }

  lemma {:induction false} SameScan(t: string, s: string, k: nat, p: nat, f: char -> bool)
    requires Embedded(t, s, k) && p <= |t| && !f(' ') && !f('\n')
    ensures ScanWhile(s, k + p, f) == k + ScanWhile(t, p, f)
    decreases |t| - p
  {
    SameAt(t, s, k, p);
    if p < |t| && f(t[p]) { SameScan(t, s, k, p + 1, f); }
  }

  lemma {:induction false} SameNumeral(t: string, s: string, k: nat, p: nat)
    requires Embedded(t, s, k) && p < |t|
    ensures NumeralAt(t, p).end <= |t|
    ensures NumeralAt(s, k + p) == Numeral(k + NumeralAt(t, p).end, NumeralAt(t, p).isFloat)
  {
    hide ScanWhile;
    SameAt(t, s, k, p);
    SameAt(t, s, k, p + 1);
    if At(t, p) == '0' && (At(t, p + 1) == 'x' || At(t, p + 1) == 'X') {
      SameScan(t, s, k, p + 2, IsHex);
    } else {
      SameFraction(t, s, k, p);
      SameExponent(t, s, k, Fraction(t, p));
    }
  }

  /** Where the digits and the point of a number end. */
  function Fraction(s: string, p: nat): nat {
    var whole := ScanWhile(s, p, IsDigit);
    if At(s, whole) == '.' then ScanWhile(s, whole + 1, IsDigit) else whole
  }

  lemma {:induction false} SameFraction(t: string, s: string, k: nat, p: nat)
    requires Embedded(t, s, k) && p <= |t|
    ensures Fraction(t, p) <= |t| && Fraction(s, k + p) == k + Fraction(t, p)
    ensures ScanWhile(s, k + p, IsDigit) == k + ScanWhile(t, p, IsDigit)
  {
    hide ScanWhile;
    SameScan(t, s, k, p, IsDigit);
    var whole := ScanWhile(t, p, IsDigit);
    SameAt(t, s, k, whole);
    if At(t, whole) == '.' { SameScan(t, s, k, whole + 1, IsDigit); }
  }

  function Sign(s: string, p: nat): nat {
    if At(s, p + 1) == '+' || At(s, p + 1) == '-' then p + 2 else p + 1
  }

  lemma {:induction false} SameExponent(t: string, s: string, k: nat, p: nat)
    requires Embedded(t, s, k) && p <= |t|
    ensures (At(s, k + p) == 'e' || At(s, k + p) == 'E') == (At(t, p) == 'e' || At(t, p) == 'E')
    ensures At(t, p) == 'e' || At(t, p) == 'E' ==>
      Sign(t, p) <= |t| && ScanWhile(s, Sign(s, k + p), IsDigit) == k + ScanWhile(t, Sign(t, p), IsDigit)
  {
    hide ScanWhile;
    SameAt(t, s, k, p);
    if At(t, p) == 'e' || At(t, p) == 'E' {
      SameAt(t, s, k, p + 1);
      SameScan(t, s, k, Sign(t, p), IsDigit);
    }
  }

  lemma {:induction false} SameNumber(o: Options, t: string, s: string, k: nat)
    requires Embedded(t, s, k) && t != "" && NumberAt(o, t, 0).Got?
    ensures NumberAt(o, s, k) == Got(NumberAt(o, t, 0).token, k + NumberAt(o, t, 0).end)
  {
    hide ScanWhile, NumeralAt;
    SameNumeral(t, s, k, 0);
    var n := NumeralAt(t, 0);
    SameScan(t, s, k, n.end, IsSuffix);
    SameSlice(t, s, k, 0, n.end);
    SameSlice(t, s, k, 0, ScanWhile(t, n.end, IsSuffix));
  }

  lemma {:induction false} SameContents(t: string, s: string, k: nat, p: nat, done: string)
    requires Embedded(t, s, k) && p <= |t| && ContentsAt(t, p, done).Contents?
    ensures var r := ContentsAt(t, p, done); ContentsAt(s, k + p, done) == Contents(r.decoded, k + r.close)
    decreases |t| - p
  {
    SameAt(t, s, k, p);
    if t[p] == '\\' {
      SameAt(t, s, k, p + 1);
      SameContents(t, s, k, p + 2, done + [Escape(t[p + 1]).value]);
    } else if t[p] != '"' {
      SameContents(t, s, k, p + 1, done + [t[p]]);
    }
  }

  lemma {:induction false} SameString(t: string, s: string, k: nat)
    requires Embedded(t, s, k) && t != "" && StringAt(t, 0).Got?
    ensures StringAt(s, k) == Got(StringAt(t, 0).token, k + StringAt(t, 0).end)
  {
    hide ContentsAt;
    SameContents(t, s, k, 1, "");
    SameSlice(t, s, k, 1, ContentsAt(t, 1, "").close);
  }

  lemma {:induction false} SameChar(t: string, s: string, k: nat)
    requires Embedded(t, s, k) && t != "" && CharAt(t, 0).Got?
    ensures CharAt(s, k) == Got(CharAt(t, 0).token, k + CharAt(t, 0).end)
  {
    SameAt(t, s, k, 1);
    SameAt(t, s, k, 2);
    if t[1] == '\\' {
      SameAt(t, s, k, 3);
      SameSlice(t, s, k, 1, 3);
    } else {
      SameSlice(t, s, k, 1, 2);
    }
  }

  lemma {:induction false} SamePunct(t: string, s: string, k: nat)
    requires Embedded(t, s, k) && t != "" && PunctAt(t, 0).Got?
    ensures PunctAt(s, k) == Got(PunctAt(t, 0).token, k + PunctAt(t, 0).end)
  {
    SameAt(t, s, k, 0);
    SameAt(t, s, k, 1);
    if |t| >= 2 { SameAt(t, s, k, 2); }
    assert PunctLength(t, 0) == PunctLength(s, k);
    SameSlice(t, s, k, 0, PunctLength(t, 0));
  }

  /** t is one token, from its first character to its last. */
  predicate Whole(o: Options, t: string, token: Token) {
    t != "" && Skip(o, t, 0) == Some(0) && TokenAt(o, t, 0) == Got(token, |t|)
  }

  lemma {:induction false} SameToken(o: Options, t: string, token: Token, s: string, k: nat)
    requires Whole(o, t, token) && Embedded(t, s, k)
    ensures TokenAt(o, s, k) == Got(token, k + |t|)
  {
    hide ScanWhile, NumberAt, CharAt, StringAt, PunctAt;
    SameAt(t, s, k, 0);
    SameAt(t, s, k, 1);
    var c := t[0];
    if IsAlpha(c) || c == '_' {
      SameScan(t, s, k, 0, IsWord);
      SameSlice(t, s, k, 0, |t|);
    } else if IsDigit(c) || (c == '.' && IsDigit(At(t, 1))) {
      SameNumber(o, t, s, k);
    } else if c == '\'' {
      SameChar(t, s, k);
    } else if c == '"' {
      SameString(t, s, k);
    } else {
      SamePunct(t, s, k);
    }
  }

  lemma {:induction false} NothingSkipped(o: Options, t: string, s: string, k: nat)
    requires t != "" && Skip(o, t, 0) == Some(0) && Embedded(t, s, k)
    ensures Skip(o, s, k) == Some(k)
  {
    SameAt(t, s, k, 0);
    SameAt(t, s, k, 1);
  }

  // ----- whole texts -----

  lemma {:induction false} SpaceSkipped(o: Options, s: string, k: nat)
    requires k < |s| && IsSpace(s[k])
    ensures Tokens(o, s, k) == Tokens(o, s, k + 1)
  {
    assert Skip(o, s, k) == Skip(o, s, k + 1);
    if k + 1 == |s| { assert Skip(o, s, k + 1) == Some(k + 1); }
  }

  lemma {:induction false} FirstToken(o: Options, t: string, token: Token, s: string, k: nat)
    requires Whole(o, t, token) && Embedded(t, s, k) && Tokens(o, s, k + |t|).Some?
    ensures Tokens(o, s, k) == Some([token] + Tokens(o, s, k + |t|).value)
  {
    hide Skip, TokenAt;
    NothingSkipped(o, t, s, k);
    SameToken(o, t, token, s, k);
  }

  predicate AllWhole(o: Options, ts: seq<Placed>, tokens: seq<Token>) {
    |tokens| == |ts| && forall i :: 0 <= i < |ts| ==> Whole(o, ts[i].text, tokens[i])
  }

  lemma {:induction false} NonEmptyNext(previous: Placed, ts: seq<Placed>)
    ensures var w := Rest(true, previous, ts) + "\n"; w[0] == ' ' || w[0] == '\n'
  {
  }

  lemma {:induction false} RestIsRead(o: Options, s: string, k: nat, some: bool, previous: Placed, ts: seq<Placed>,
                                      tokens: seq<Token>)
    requires AllWhole(o, ts, tokens)
    requires WrittenAt(s, k, Rest(some, previous, ts) + "\n") && k + |Rest(some, previous, ts)| + 1 == |s|
    ensures Tokens(o, s, k) == Some(tokens)
    decreases ts
  {
    hide Whole, Tokens;
    if ts == [] {
      assert s[k] == (Rest(some, previous, ts) + "\n")[0] == '\n';
      SpaceSkipped(o, s, k);
      NothingLeft(o, s);
    } else {
      var t, space := ts[0], Separator(some, previous, ts[0]);
      var rest := Rest(true, t, ts[1..]) + "\n";
      assert t.text != "" by { NotEmpty(o, t.text, tokens[0]); }
      assert Rest(some, previous, ts) + "\n" == space + (t.text + rest);
      WrittenSplit(s, k, space, t.text + rest);
      WrittenSplit(s, k + |space|, t.text, rest);
      if space != "" {
        assert s[k] == space[0];
        SpaceSkipped(o, s, k);
      }
      NonEmptyNext(t, ts[1..]);
      assert s[k + |space| + |t.text|] == rest[0];
      RestIsRead(o, s, k + |space| + |t.text|, true, t, ts[1..], tokens[1..]);
      FirstToken(o, t.text, tokens[0], s, k + |space|);
      assert [tokens[0]] + tokens[1..] == tokens;
    }
  }

  lemma {:induction false} NothingLeft(o: Options, s: string)
    ensures Tokens(o, s, |s|) == Some([])
  {
  }

  lemma {:induction false} NotEmpty(o: Options, t: string, token: Token)
    requires Whole(o, t, token)
    ensures t != ""
  {
  }

  /** The preprocessed text is read as the tokens it was written from. */
  lemma {:induction false} TextIsReadBack(o: Options, ts: seq<Placed>, tokens: seq<Token>)
    requires AllWhole(o, ts, tokens)
    ensures Tokens(o, Text(ts), 0) == Some(tokens)
  {
    hide Whole, Tokens;
    if ts == [] {
      NothingLeft(o, "");
    } else {
      NotEmpty(o, ts[0].text, tokens[0]);
      RestIsRead(o, Text(ts), 0, false, Placed("", "", 0), ts, tokens);
    }
  }
}
