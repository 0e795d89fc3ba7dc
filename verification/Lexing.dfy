/** The C lexer, as functions of a source text and a position. The class in Lexer.dfy reads the same tokens. */
module Lexing {
  import opened Wrappers

  datatype Token =
    | Word(text: string)
    | NumberToken(text: string, isFloat: bool)
    | CharToken(text: string, value: char)
    | StringToken(text: string, contents: string)
    | PunctToken(text: string)

  datatype Lexed = Got(token: Token, end: nat) | EndOfFile | Problem

  /** Options and library functions: whether // starts a comment, and whether a number can be decoded. */
  datatype Options = Options(lineComments: bool, decodes: (string, bool) -> bool)

  const NUL: char := '\0'

  function At(s: string, p: nat): char {
    if p < |s| then s[p] else NUL
  }

  predicate IsSpace(c: char) { c == ' ' || 9 as char <= c <= 13 as char }
  predicate IsAlpha(c: char) { 'a' <= c <= 'z' || 'A' <= c <= 'Z' }
  predicate IsDigit(c: char) { '0' <= c <= '9' }
  predicate IsHex(c: char) { IsDigit(c) || 'a' <= c <= 'f' || 'A' <= c <= 'F' }
  predicate IsWord(c: char) { IsAlpha(c) || IsDigit(c) || c == '_' }
  predicate IsSuffix(c: char) { c in {'u', 'U', 'l', 'L', 'f', 'F'} }

  /** Where the characters of a class end. */
  function ScanWhile(s: string, p: nat, f: char -> bool): (q: nat)
    ensures p <= q && (p <= |s| ==> q <= |s|)
    decreases |s| - p
  {
    if p < |s| && f(s[p]) then ScanWhile(s, p + 1, f) else p
  }

  // ----- white space and comments -----

  function CommentEnd(s: string, p: nat): (q: Option<nat>)
    ensures q.Some? ==> p < q.value
    decreases |s| - p
  {
    if p >= |s| then None
    else if s[p] == '*' && At(s, p + 1) == '/' then Some(p + 2)
    else CommentEnd(s, p + 1)
  }

  /** None for a comment that does not end. */
  function Skip(o: Options, s: string, p: nat): (q: Option<nat>)
    ensures q.Some? ==> p <= q.value
    decreases |s| - p
  {
    if p >= |s| then Some(p)
    else if IsSpace(s[p]) then Skip(o, s, p + 1)
    else if o.lineComments && s[p] == '/' && At(s, p + 1)
      == '/' then Skip(o, s, ScanWhile(s, p + 2, c => c != '\n' && c != '\r'))
    else if s[p] == '/' && At(s, p + 1) == '*' then
      match CommentEnd(s, p + 2)
      case None => None
      case Some(q) => Skip(o, s, q)
    else Some(p)
  }

  // ----- numbers -----

  datatype Numeral = Numeral(end: nat, isFloat: bool)

  /** The digits, point and exponent of a number. */
  function NumeralAt(s: string, p: nat): (n: Numeral)
    ensures p <= n.end
  {
    if At(s, p) == '0' && (At(s, p + 1) == 'x' || At(s, p + 1) == 'X') then Numeral(ScanWhile(s, p + 2, IsHex), false)
    else
      var whole := ScanWhile(s, p, IsDigit);
      var point := if At(s, whole) == '.' then ScanWhile(s, whole + 1, IsDigit) else whole;
      if At(s, point) == 'e' || At(s, point) == 'E' then
        var sign := if At(s, point + 1) == '+' || At(s, point + 1) == '-' then point + 2 else point + 1;
        Numeral(ScanWhile(s, sign, IsDigit), true)
      else Numeral(point, point != whole)
  }

  /** The text of s from p to q, as far as it goes. */
  function Slice(s: string, p: nat, q: nat): string {
    if p <= q <= |s| then s[p..q] else ""
  }

  function NumberAt(o: Options, s: string, p: nat): Lexed {
    var n := NumeralAt(s, p);
    var end := ScanWhile(s, n.end, IsSuffix);
    if o.decodes(Slice(s, p, n.end), n.isFloat) then Got(NumberToken(Slice(s, p, end), n.isFloat), end) else Problem
  }

  // ----- character and string literals -----

  /** The character an escape stands for. */
  function Escape(c: char): Option<char> {
    if c == 'n' then Some('\n')
    else if c == 't' then Some('\t')
    else if c == 'r' then Some('\r')
    else if c == '0' then Some(NUL)
    else if c == '\\' || c == '\'' || c == '"' then Some(c)
    else None
  }

  function CharAt(s: string, p: nat): Lexed {
    var c := At(s, p + 1);
    if c == NUL || c == '\n' then Problem
    else if c == '\\' then
      match Escape(At(s, p + 2))
      case None => Problem
      case Some(v) => if At(s, p + 3) == '\'' then Got(CharToken(Slice(s, p + 1, p + 3), v), p + 4) else Problem
    else if At(s, p + 2) == '\'' then Got(CharToken(Slice(s, p + 1, p + 2), c), p + 3)
    else Problem
  }

  datatype Contents = Contents(decoded: string, close: nat) | Broken

  /** The decoded contents up to the closing quote. */
  function ContentsAt(s: string, p: nat, done: string): (r: Contents)
    ensures r.Contents? ==> p <= r.close < |s| && s[r.close] == '"' && done <= r.decoded
    decreases |s| - p
  {
    if p >= |s| then Broken
    else if s[p] == '"' then Contents(done, p)
    else if s[p] == NUL || s[p] == '\n' then Broken
    else if s[p] == '\\' then
      match Escape(At(s, p + 1))
      case None => Broken
      case Some(c) => ContentsAt(s, p + 2, done + [c])
    else ContentsAt(s, p + 1, done + [s[p]])
  }

  function StringAt(s: string, p: nat): Lexed {
    match ContentsAt(s, p + 1, "")
    case Broken => Problem
    case Contents(decoded, close) => Got(StringToken(Slice(s, p + 1, close), decoded), close + 1)
  }

  // ----- punctuators -----

  /** How many characters the punctuator at p has; none for a character that starts no token. */
  function PunctLength(s: string, p: nat): nat {
    var c, n := At(s, p), At(s, p + 1);
    if c in "(){}[];:,?~" then 1
    else if c == '.' then if n == '.' && At(s, p + 2) == '.' then 3 else 1
    else if c == '#' then if n == '#' then 2 else 1
    else if c in "+&|" then if n == c || n == '=' then 2 else 1
    else if c == '-' then if n == '-' || n == '=' || n == '>' then 2 else 1
    else if c in "*/%^!=" then if n == '=' then 2 else 1
    else if c in "<>" then if n == c then (if At(s, p + 2) == '=' then 3 else 2) else if n == '=' then 2 else 1
    else 0
  }

  function PunctAt(s: string, p: nat): Lexed {
    var n := PunctLength(s, p);
    if n == 0 then Problem else Got(PunctToken(Slice(s, p, p + n)), p + n)
  }

  // ----- tokens -----

  /** The token at p, where white space has been skipped. */
  function TokenAt(o: Options, s: string, p: nat): Lexed {
    if p >= |s| then EndOfFile
    else
      var c := s[p];
      if IsAlpha(c) || c == '_' then Got(Word(Slice(s, p, ScanWhile(s, p, IsWord))), ScanWhile(s, p, IsWord))
      else if IsDigit(c) || (c == '.' && IsDigit(At(s, p + 1))) then NumberAt(o, s, p)
      else if c == '\'' then CharAt(s, p)
      else if c == '"' then StringAt(s, p)
      else PunctAt(s, p)
  }

  function Next(o: Options, s: string, p: nat): Lexed {
    match Skip(o, s, p)
    case None => Problem
    case Some(q) => TokenAt(o, s, q)
  }

  /** Every token takes at least a character. */
  lemma {:induction false} TokenGrows(o: Options, s: string, p: nat)
    ensures Next(o, s, p).Got? ==> p < Next(o, s, p).end
  {
    if Skip(o, s, p).Some? {
      var q := Skip(o, s, p).value;
      if q < |s| && IsDigit(s[q]) { NumberGrows(o, s, q); }
      if q < |s| && s[q] == '.' && IsDigit(At(s, q + 1)) { NumberGrows(o, s, q); }
    }
  }

  lemma {:induction false} NumberGrows(o: Options, s: string, p: nat)
    requires p < |s| && (IsDigit(s[p]) || (s[p] == '.' && IsDigit(At(s, p + 1))))
    ensures NumberAt(o, s, p).Got? ==> p < NumberAt(o, s, p).end
  {
    assert IsDigit(s[p]) ==> ScanWhile(s, p, IsDigit) >= p + 1;
  }

  /** The tokens of a text from p on; None when one of them is malformed. */
  function Tokens(o: Options, s: string, p: nat): Option<seq<Token>>
    decreases |s| - p
  {
    TokenGrows(o, s, p);
    match Next(o, s, p)
    case Problem => None
    case EndOfFile => Some([])
    case Got(t, end) =>
      if p >= |s| then None
      else
        match Tokens(o, s, end)
        case None => None
        case Some(ts) => Some([t] + ts)
  }
}
