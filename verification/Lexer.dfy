/** The lexer as it is written: a cursor over the source, moved one character at a time. */
module Lexers {
  import opened Lexing
  import opened Wrappers

  class Lexer {
    const src: string
    const options: Options
    var pos: nat

    constructor (src: string, options: Options)
      ensures this.src == src && this.options == options && pos == 0
    {
      this.src, this.options, pos := src, options, 0;
    }

    function Cur(): char
      reads this
    {
      At(src, pos)
    }

    function Look(offset: nat): char
      reads this
    {
      At(src, pos + offset)
    }

    method Advance() returns (c: char)
      modifies `pos
      ensures c == old(Cur()) && pos == old(pos) + 1
    {
      c := Cur();
      pos := pos + 1;
    }

    /** False for a comment that does not end. */
    method SkipWhiteSpaceAndComments() returns (ok: bool)
      modifies `pos
      ensures Skip(options, src, old(pos)) == if ok then Some(pos) else None
    {
      while pos < |src|
        invariant Skip(options, src, old(pos)) == Skip(options, src, pos)
        decreases |src| - pos
      {
        if IsSpace(Cur()) {
          pos := pos + 1;
        } else if options.lineComments && Cur() == '/' && Look(1) == '/' {
          ghost var start := pos;
          pos := pos + 2;
          while pos < |src| && Cur() != '\n' && Cur() != '\r'
            invariant start + 2 <= pos
            invariant ScanWhile(src, start + 2, c => c != '\n' && c != '\r')
                == ScanWhile(src, pos, c => c != '\n' && c != '\r')
          {
            pos := pos + 1;
          }
        } else if Cur() == '/' && Look(1) == '*' {
          ghost var start := pos;
          pos := pos + 2;
          while pos < |src| && !(Cur() == '*' && Look(1) == '/')
            invariant start + 2 <= pos && CommentEnd(src, start + 2) == CommentEnd(src, pos)
          {
            pos := pos + 1;
          }
          if pos >= |src| { return false; }
          pos := pos + 2;
        } else {
          return true;
        }
      }
      ok := true;
    }

    method AdvanceWhile(f: char -> bool)
      modifies `pos
      ensures pos == ScanWhile(src, old(pos), f)
    {
      while pos < |src| && f(Cur())
        invariant ScanWhile(src, old(pos), f) == ScanWhile(src, pos, f)
      {
        pos := pos + 1;
      }
    }

    method LexIdent() returns (r: Lexed)
      requires pos < |src| && (IsAlpha(Cur()) || Cur() == '_')
      modifies `pos
      ensures r == TokenAt(options, src, old(pos)) && (r.Got? ==> pos == r.end)
    {
      var start := pos;
      AdvanceWhile(IsWord);
      r := Got(Word(Slice(src, start, pos)), pos);
    }

    method LexNumber() returns (r: Lexed)
      modifies `pos
      ensures r == NumberAt(options, src, old(pos)) && (r.Got? ==> pos == r.end)
    {
      hide ScanWhile, NumeralAt;
      var start := pos;
      var isFloat := LexNumeral();
      var numeric := Slice(src, start, pos);
      AdvanceWhile(IsSuffix);
      r := if options.decodes(numeric, isFloat) then Got(NumberToken(Slice(src, start, pos), isFloat),
                                                         pos) else Problem;
    }

    /** Digits, point and exponent. */
    method LexNumeral() returns (isFloat: bool)
      modifies `pos
      ensures NumeralAt(src, old(pos)) == Numeral(pos, isFloat)
    {
      hide ScanWhile;
      isFloat := false;
      if Cur() == '0' && (Look(1) == 'x' || Look(1) == 'X') {
        pos := pos + 2;
        AdvanceWhile(IsHex);
        return;
      }
      AdvanceWhile(IsDigit);
      if Cur() == '.' {
        isFloat := true;
        pos := pos + 1;
        AdvanceWhile(IsDigit);
      }
      if Cur() == 'e' || Cur() == 'E' {
        isFloat := true;
        pos := pos + 1;
        if Cur() == '+' || Cur() == '-' { pos := pos + 1; }
        AdvanceWhile(IsDigit);
      }
    }

    method LexChar() returns (r: Lexed)
      modifies `pos
      ensures r == CharAt(src, old(pos)) && (r.Got? ==> pos == r.end)
    {
      var start := pos;
      pos := pos + 1;
      if Cur() == NUL || Cur() == '\n' { return Problem; }
      var value := Cur();
      if value == '\\' {
        pos := pos + 1;
        var escaped := Escape(Cur());
        if escaped.None? { return Problem; }
        value := escaped.value;
      }
      pos := pos + 1;
      if Cur() != '\'' { return Problem; }
      var text := Slice(src, start + 1, pos);
      pos := pos + 1;
      r := Got(CharToken(text, value), pos);
    }

    method LexString() returns (r: Lexed)
      modifies `pos
      ensures r == StringAt(src, old(pos)) && (r.Got? ==> pos == r.end)
    {
      pos := pos + 1;
      var contentStart := pos;
      var s := "";
      while pos < |src| && Cur() != '"'
        invariant contentStart <= pos && contentStart == old(pos) + 1
        invariant ContentsAt(src, contentStart, "") == ContentsAt(src, pos, s)
        decreases |src| - pos
      {
        if Cur() == NUL || Cur() == '\n' { return Problem; }
        if Cur() == '\\' {
          pos := pos + 1;
          var escaped := Escape(Cur());
          if escaped.None? { return Problem; }
          s := s + [escaped.value];
          pos := pos + 1;
        } else {
          s := s + [Cur()];
          pos := pos + 1;
        }
      }
      if Cur() != '"' { return Problem; }
      var text := Slice(src, contentStart, pos);
      pos := pos + 1;
      r := Got(StringToken(text, s), pos);
    }

    method LexPunct() returns (r: Lexed)
      modifies `pos
      ensures r == PunctAt(src, old(pos)) && (r.Got? ==> pos == r.end)
    {
      var start, n := pos, PunctLength(src, pos);
      if n == 0 { return Problem; }
      pos := pos + n;
      r := Got(PunctToken(Slice(src, start, pos)), pos);
    }

    method NextToken() returns (r: Lexed)
      modifies `pos
      ensures r == Next(options, src, old(pos)) && (r.Got? ==> pos == r.end)
    {
      var ok := SkipWhiteSpaceAndComments();
      if !ok { return Problem; }
      if pos >= |src| { return EndOfFile; }
      var c := Cur();
      if IsAlpha(c) || c == '_' {
        r := LexIdent();
      } else if IsDigit(c) || (c == '.' && IsDigit(Look(1))) {
        r := LexNumber();
      } else if c == '\'' {
        r := LexChar();
      } else if c == '"' {
        r := LexString();
      } else {
        r := LexPunct();
      }
    }

    /** Every token up to the end of the source; None as soon as one is malformed. */
    method TokenizeAll() returns (r: Option<seq<Token>>)
      modifies `pos
      ensures r == Tokens(options, src, old(pos))
      decreases |src| - pos
    {
      TokenGrows(options, src, pos);
      ghost var start := pos;
      var t := NextToken();
      match t
      case Problem => r := None;
      case EndOfFile => r := Some([]);
      case Got(token, end) => {
        TokenInside(options, src, start);
        var rest := TokenizeAll();
        r := if rest.None? then None else Some([token] + rest.value);
      }
    }
  }

  lemma {:induction false} TokenInside(o: Options, s: string, p: nat)
    requires Next(o, s, p).Got?
    ensures p < |s|
  {
  }
}
