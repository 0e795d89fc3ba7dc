/** The expression parser: precedence climbing with a ternary operator and right-associative assignments, and postfix
    operators read in a loop. */
module ParseExpr {
  import opened Wrappers

  datatype Punct =
    | Comma
    | Assign | PlusAssign | MinusAssign | MulAssign | DivAssign | ModAssign
    | AmpAssign | PipeAssign | CaretAssign | LShiftAssign | RShiftAssign
    | PipePipe | AmpAmp | Pipe | Caret | Amp | Eq | Neq | Lt | Leq | Gt | Geq
    | LShift | RShift | Plus | Minus | Mul | Div | Mod
    | PlusPlus | MinusMinus | Bang | Tilde
    | Question | Colon | LParen | RParen | LBracket | RBracket | Dot | Arrow
    | KwSizeof

  datatype Token = Ident(name: string) | Literal(text: string) | Punct(p: Punct) | OtherToken

  datatype UnaryOp = PreInc | PreDec | Pos | Neg | Not | BitNot | Deref | Addr | PostInc | PostDec

  datatype BinaryOp =
    | Add | Sub | Times | Quot | Rem
    | AddAssign | SubAssign | TimesAssign | QuotAssign | RemAssign
    | BitAnd | BitOr | BitXor | AndAssign | OrAssign | XorAssign
    | ShiftLeft | ShiftRight | ShiftLeftAssign | ShiftRightAssign
    | And | Or | Equal | NotEqual | Less | Greater | LessEqual | GreaterEqual
    | SimpleAssign | Sequence

  datatype Expr =
    | Leaf(token: Token)
    | Unary(op: UnaryOp, operand: Expr)
    | Binary(bop: BinaryOp, lhs: Expr, rhs: Expr)
    | Ternary(cond: Expr, thn: Expr, els: Expr)
    | Call(callee: Expr, args: seq<Expr>)
    | Index(base: Expr, index: Expr)
    | Member(whole: Expr, arrow: bool, member: string)
    | Sizeof(sized: Expr)

  const TERNARY := 3

  /** -1 for what is no infix operator. */
  function InfixPrec(t: Token): (p: int)
    ensures (p == -1 || 0 < p <= 13) && (p > 0 ==> t.Punct?)
  {
    if !t.Punct? then -1
    else
      match t.p
      case Comma => 1
      case Assign => 2
      case PlusAssign => 2
      case MinusAssign => 2
      case MulAssign => 2
      case DivAssign => 2
      case ModAssign => 2
      case AmpAssign => 2
      case PipeAssign => 2
      case CaretAssign => 2
      case LShiftAssign => 2
      case RShiftAssign => 2
      case PipePipe => 4
      case AmpAmp => 5
      case Pipe => 6
      case Caret => 7
      case Amp => 8
      case Eq => 9
      case Neq => 9
      case Lt => 10
      case Leq => 10
      case Gt => 10
      case Geq => 10
      case LShift => 11
      case RShift => 11
      case Plus => 12
      case Minus => 12
      case Mul => 13
      case Div => 13
      case Mod => 13
      case _ => -1
  }

  predicate IsRightAssoc(t: Token) {
    && t.Punct?
    && t.p in {Assign, PlusAssign, MinusAssign, MulAssign, DivAssign, ModAssign,
               AmpAssign, PipeAssign, CaretAssign, LShiftAssign, RShiftAssign}
  }

  function ToBinaryOp(p: Punct): BinaryOp {
    match p
    case Plus => Add
    case Minus => Sub
    case Mul => Times
    case Div => Quot
    case Mod => Rem
    case PlusAssign => AddAssign
    case MinusAssign => SubAssign
    case MulAssign => TimesAssign
    case DivAssign => QuotAssign
    case ModAssign => RemAssign
    case Amp => BitAnd
    case Pipe => BitOr
    case Caret => BitXor
    case AmpAssign => AndAssign
    case PipeAssign => OrAssign
    case CaretAssign => XorAssign
    case LShift => ShiftLeft
    case RShift => ShiftRight
    case LShiftAssign => ShiftLeftAssign
    case RShiftAssign => ShiftRightAssign
    case AmpAmp => And
    case PipePipe => Or
    case Eq => Equal
    case Neq => NotEqual
    case Lt => Less
    case Gt => Greater
    case Leq => LessEqual
    case Geq => GreaterEqual
    case Assign => SimpleAssign
    case Comma => Sequence
    case _ => Add
  }

  function PrefixOp(t: Token): Option<UnaryOp> {
    if !t.Punct? then None
    else
      match t.p
      case PlusPlus => Some(PreInc)
      case MinusMinus => Some(PreDec)
      case Plus => Some(Pos)
      case Minus => Some(Neg)
      case Bang => Some(Not)
      case Tilde => Some(BitNot)
      case Mul => Some(Deref)
      case Amp => Some(Addr)
      case _ => None
  }

  // ----- what the parser does, as functions -----

  datatype Parsed = Parsed(expr: Expr, pos: nat) | NoParse
  datatype ParsedArgs = ParsedArgs(args: seq<Expr>, next: nat) | NoArgs

  predicate At(ts: seq<Token>, pos: nat, p: Punct) {
    pos < |ts| && ts[pos] == Punct(p)
  }

  /** What the parser looks at; OtherToken at the end. */
  function Current(ts: seq<Token>, pos: nat): Token {
    if pos < |ts| then ts[pos] else OtherToken
  }

  predicate IsTypeName(typedefs: set<string>, t: Token) {
    t.Ident? && t.name in typedefs
  }

  function ParseExpression(ts: seq<Token>, pos: nat, min: int, typedefs: set<string>): (r: Parsed)
    requires pos <= |ts| && min >= 0
    ensures r.Parsed? ==> pos < r.pos <= |ts|
    decreases |ts| - pos, 3
  {
    match ParseUnary(ts, pos, typedefs)
    case NoParse => NoParse
    case Parsed(lhs, next) => Climb(ts, lhs, next, min, typedefs)
  }

  /** The rest of an expression whose left operand has been read. */
  function Climb(ts: seq<Token>, lhs: Expr, pos: nat, min: int, typedefs: set<string>): (r: Parsed)
    requires pos <= |ts| && min >= 0
    ensures r.Parsed? ==> pos <= r.pos <= |ts|
    decreases |ts| - pos, 2
  {
    if At(ts, pos, Question) then
      if TERNARY < min then Parsed(lhs, pos)
      else
        match ParseBranches(ts, lhs, pos, typedefs)
        case NoParse => NoParse
        case Parsed(e, next) => Climb(ts, e, next, min, typedefs)
    else if InfixPrec(Current(ts, pos)) < min then Parsed(lhs, pos)
    else
      match ParseInfix(ts, lhs, pos, typedefs)
      case NoParse => NoParse
      case Parsed(e, next) => Climb(ts, e, next, min, typedefs)
  }

  /** The question mark at pos and the two operands after it. */
  function ParseBranches(ts: seq<Token>, cond: Expr, pos: nat, typedefs: set<string>): (r: Parsed)
    requires At(ts, pos, Question)
    ensures r.Parsed? ==> pos < r.pos <= |ts|
    decreases |ts| - pos, 1
  {
    match ParseExpression(ts, pos + 1, 0, typedefs)
    case NoParse => NoParse
    case Parsed(thn, colon) =>
      if !At(ts, colon, Colon) then NoParse
      else
        match ParseExpression(ts, colon + 1, TERNARY, typedefs)
        case NoParse => NoParse
        case Parsed(els, next) => Parsed(Ternary(cond, thn, els), next)
  }

  /** The infix operator at pos and its right operand. */
  function ParseInfix(ts: seq<Token>, lhs: Expr, pos: nat, typedefs: set<string>): (r: Parsed)
    requires pos < |ts| && InfixPrec(ts[pos]) > 0
    ensures r.Parsed? ==> pos < r.pos <= |ts|
    decreases |ts| - pos, 1
  {
    var prec := InfixPrec(ts[pos]);
    match ParseExpression(ts, pos + 1, if IsRightAssoc(ts[pos]) then prec else prec + 1, typedefs)
    case NoParse => NoParse
    case Parsed(rhs, next) => Parsed(Binary(ToBinaryOp(ts[pos].p), lhs, rhs), next)
  }

  function ParseUnary(ts: seq<Token>, pos: nat, typedefs: set<string>): (r: Parsed)
    requires pos <= |ts|
    ensures r.Parsed? ==> pos < r.pos <= |ts|
    decreases |ts| - pos, 1
  {
    var t := Current(ts, pos);
    if PrefixOp(t).Some? then
      match ParseUnary(ts, pos + 1, typedefs)
      case NoParse => NoParse
      case Parsed(x, next) => Parsed(Unary(PrefixOp(t).value, x), next)
    else if t == Punct(KwSizeof) then ParseSizeof(ts, pos, typedefs)
    else
      match ParsePrimary(ts, pos, typedefs)
      case NoParse => NoParse
      case Parsed(base, next) => ParsePostfix(ts, base, next, typedefs)
  }

  /** sizeof applied to an expression. What is in parentheses right after it is the whole operand. */
  function ParseSizeof(ts: seq<Token>, pos: nat, typedefs: set<string>): (r: Parsed)
    requires At(ts, pos, KwSizeof)
    ensures r.Parsed? ==> pos < r.pos <= |ts|
    decreases |ts| - pos, 0
  {
    if At(ts, pos + 1, LParen) then
      if IsTypeName(typedefs, Current(ts, pos + 2)) then NoParse
      else
        match ParseExpression(ts, pos + 2, 0, typedefs)
        case NoParse => NoParse
        case Parsed(x, next) => if At(ts, next, RParen) then Parsed(Sizeof(x), next + 1) else NoParse
    else
      match ParseUnary(ts, pos + 1, typedefs)
      case NoParse => NoParse
      case Parsed(x, next) => Parsed(Sizeof(x), next)
  }

  function ParsePrimary(ts: seq<Token>, pos: nat, typedefs: set<string>): (r: Parsed)
    requires pos <= |ts|
    ensures r.Parsed? ==> pos < r.pos <= |ts|
    decreases |ts| - pos, 0
  {
    var t := Current(ts, pos);
    if t.Ident? || t.Literal? then Parsed(Leaf(t), pos + 1)
    else if t == Punct(LParen) then
      match ParseExpression(ts, pos + 1, 0, typedefs)
      case NoParse => NoParse
      case Parsed(e, next) => if At(ts, next, RParen) then Parsed(e, next + 1) else NoParse
    else NoParse
  }

  function ParsePostfix(ts: seq<Token>, base: Expr, pos: nat, typedefs: set<string>): (r: Parsed)
    requires pos <= |ts|
    ensures r.Parsed? ==> pos <= r.pos <= |ts|
    decreases |ts| - pos, 1
  {
    if !IsPostfix(Current(ts, pos)) then Parsed(base, pos)
    else
      match ParseOnePostfix(ts, base, pos, typedefs)
      case NoParse => NoParse
      case Parsed(e, next) => ParsePostfix(ts, e, next, typedefs)
  }

  predicate IsPostfix(t: Token) {
    t.Punct? && t.p in {LParen, LBracket, Dot, Arrow, PlusPlus, MinusMinus}
  }

  /** One call, subscript, member access, increment or decrement. */
  function ParseOnePostfix(ts: seq<Token>, base: Expr, pos: nat, typedefs: set<string>): (r: Parsed)
    requires pos < |ts| && IsPostfix(ts[pos])
    ensures r.Parsed? ==> pos < r.pos <= |ts|
    decreases |ts| - pos, 0
  {
    match ts[pos].p
    case LParen =>
      if At(ts, pos + 1, RParen) then Parsed(Call(base, []), pos + 2)
      else
        (match ParseArgs(ts, pos + 1, [], typedefs)
         case NoArgs => NoParse
         case ParsedArgs(args, next) => if At(ts, next, RParen) then Parsed(Call(base, args), next + 1) else NoParse)
    case LBracket =>
      (match ParseExpression(ts, pos + 1, 0, typedefs)
       case NoParse => NoParse
       case Parsed(i, next) => if At(ts, next, RBracket) then Parsed(Index(base, i), next + 1) else NoParse)
    case PlusPlus => Parsed(Unary(PostInc, base), pos + 1)
    case MinusMinus => Parsed(Unary(PostDec, base), pos + 1)
    case _ =>
      if Current(ts, pos + 1).Ident? then Parsed(Member(base, ts[pos].p == Arrow, ts[pos + 1].name),
                                                 pos + 2) else NoParse
  }

  /** Arguments with commas between them. Each is read above the comma operator. */
  function ParseArgs(ts: seq<Token>, pos: nat, done: seq<Expr>, typedefs: set<string>): (r: ParsedArgs)
    requires pos <= |ts|
    ensures r.ParsedArgs? ==> pos < r.next <= |ts|
    decreases |ts| - pos, 4
  {
    match ParseExpression(ts, pos, InfixPrec(Punct(Assign)), typedefs)
    case NoParse => NoArgs
    case Parsed(a, next) =>
      if At(ts, next, Comma) then ParseArgs(ts, next + 1, done + [a], typedefs) else ParsedArgs(done + [a], next)
  }

  // ----- the parser -----

  class Parser {
    const tokens: seq<Token>
    const typedefs: set<string>
    var pos: nat

    constructor (tokens: seq<Token>, typedefs: set<string>)
      ensures this.tokens == tokens && this.typedefs == typedefs && pos == 0
    {
      this.tokens := tokens;
      this.typedefs := typedefs;
      pos := 0;
    }

    method Match(p: Punct) returns (matched: bool)
      requires pos <= |tokens|
      modifies this
      ensures matched == At(tokens, old(pos), p) && pos == if matched then old(pos) + 1 else old(pos)
    {
      matched := At(tokens, pos, p);
      if matched { pos := pos + 1; }
    }

    /** None once an error has been reported. */
    method Expression(min: int) returns (r: Option<Expr>)
      requires pos <= |tokens| && min >= 0
      modifies this
      ensures match ParseExpression(tokens, old(pos), min, typedefs)
              case NoParse => r == None
              case Parsed(e, next) => r == Some(e) && pos == next
      decreases |tokens| - pos, 3
    {
      hide ParseUnary, InfixPrec, ToBinaryOp;
      ghost var start := pos;
      r := UnaryExpression();
      if r.None? { return; }
      var lhs := r.value;
      ghost var whole := ParseExpression(tokens, start, min, typedefs);
      while true
        invariant start < pos <= |tokens| && Climb(tokens, lhs, pos, min, typedefs) == whole
        decreases |tokens| - pos
      {
        if At(tokens, pos, Question) {
          if TERNARY < min { break; }
          r := Branches(lhs);
        } else {
          if InfixPrec(Current(tokens, pos)) < min { break; }
          r := Infix(lhs);
        }
        if r.None? { return; }
        lhs := r.value;
      }
      r := Some(lhs);
    }

    method Branches(cond: Expr) returns (r: Option<Expr>)
      requires At(tokens, pos, Question)
      modifies this
      ensures match ParseBranches(tokens, cond, old(pos), typedefs)
              case NoParse => r == None
              case Parsed(e, next) => r == Some(e) && pos == next
      decreases |tokens| - pos, 1
    {
      pos := pos + 1;
      var thn := Expression(0);
      if thn.None? { return None; }
      var matched := Match(Colon);
      if !matched { return None; }
      var els := Expression(TERNARY);
      if els.None? { return None; }
      r := Some(Ternary(cond, thn.value, els.value));
    }

    method Infix(lhs: Expr) returns (r: Option<Expr>)
      requires pos < |tokens| && InfixPrec(tokens[pos]) > 0
      modifies this
      ensures match ParseInfix(tokens, lhs, old(pos), typedefs)
              case NoParse => r == None
              case Parsed(e, next) => r == Some(e) && pos == next
      decreases |tokens| - pos, 1
    {
      var opTok := tokens[pos];
      var prec := InfixPrec(opTok);
      pos := pos + 1;
      var rhs := Expression(if IsRightAssoc(opTok) then prec else prec + 1);
      if rhs.None? { return None; }
      r := Some(Binary(ToBinaryOp(opTok.p), lhs, rhs.value));
    }

    method UnaryExpression() returns (r: Option<Expr>)
      requires pos <= |tokens|
      modifies this
      ensures match ParseUnary(tokens, old(pos), typedefs)
              case NoParse => r == None
              case Parsed(e, next) => r == Some(e) && pos == next
      decreases |tokens| - pos, 2
    {
      var t := Current(tokens, pos);
      var op := PrefixOp(t);
      if op.Some? {
        pos := pos + 1;
        var operand := UnaryExpression();
        if operand.None? { return None; }
        return Some(Unary(op.value, operand.value));
      }
      if t == Punct(KwSizeof) {
        r := SizeofExpression();
        return;
      }
      r := Primary();
      if r.None? { return; }
      r := Postfix(r.value);
    }

    method SizeofExpression() returns (r: Option<Expr>)
      requires At(tokens, pos, KwSizeof)
      modifies this
      ensures match ParseSizeof(tokens, old(pos), typedefs)
              case NoParse => r == None
              case Parsed(e, next) => r == Some(e) && pos == next
      decreases |tokens| - pos, 1
    {
      pos := pos + 1;
      var matched := Match(LParen);
      if !matched {
        var operand := UnaryExpression();
        if operand.None? { return None; }
        return Some(Sizeof(operand.value));
      }
      if IsTypeName(typedefs, Current(tokens, pos)) { return None; }
      var operand := Expression(0);
      if operand.None? { return None; }
      matched := Match(RParen);
      if !matched { return None; }
      r := Some(Sizeof(operand.value));
    }

    method Primary() returns (r: Option<Expr>)
      requires pos <= |tokens|
      modifies this
      ensures match ParsePrimary(tokens, old(pos), typedefs)
              case NoParse => r == None
              case Parsed(e, next) => r == Some(e) && pos == next
      decreases |tokens| - pos, 1
    {
      var t := Current(tokens, pos);
      if t.Ident? || t.Literal? {
        pos := pos + 1;
        return Some(Leaf(t));
      }
      var matched := Match(LParen);
      if !matched { return None; }
      r := Expression(0);
      if r.None? { return; }
      matched := Match(RParen);
      if !matched { r := None; }
    }

    method Postfix(first: Expr) returns (r: Option<Expr>)
      requires pos <= |tokens|
      modifies this
      ensures match ParsePostfix(tokens, first, old(pos), typedefs)
              case NoParse => r == None
              case Parsed(e, next) => r == Some(e) && pos == next
      decreases |tokens| - pos, 1
    {
      hide ParseOnePostfix;
      var base := first;
      ghost var start := pos;
      while IsPostfix(Current(tokens, pos))
        invariant start <= pos <= |tokens|
        invariant ParsePostfix(tokens, base, pos, typedefs) == ParsePostfix(tokens, first, start, typedefs)
        decreases |tokens| - pos
      {
        r := OnePostfix(base);
        if r.None? { return; }
        base := r.value;
      }
      r := Some(base);
    }

    method OnePostfix(base: Expr) returns (r: Option<Expr>)
      requires pos < |tokens| && IsPostfix(tokens[pos])
      modifies this
      ensures match ParseOnePostfix(tokens, base, old(pos), typedefs)
              case NoParse => r == None
              case Parsed(e, next) => r == Some(e) && pos == next
      decreases |tokens| - pos, 0
    {
      var opTok := tokens[pos].p;
      pos := pos + 1;
      if opTok == LParen {
        var args := [];
        if !At(tokens, pos, RParen) {
          var parsed := Arguments();
          if parsed.None? { return None; }
          args := parsed.value;
        }
        var matched := Match(RParen);
        return if matched then Some(Call(base, args)) else None;
      }
      if opTok == LBracket {
        var index := Expression(0);
        if index.None? { return None; }
        var matched := Match(RBracket);
        return if matched then Some(Index(base, index.value)) else None;
      }
      if opTok == Dot || opTok == Arrow {
        if !Current(tokens, pos).Ident? { return None; }
        r := Some(Member(base, opTok == Arrow, tokens[pos].name));
        pos := pos + 1;
        return;
      }
      r := Some(Unary(if opTok == PlusPlus then PostInc else PostDec, base));
    }

    method Arguments() returns (r: Option<seq<Expr>>)
      requires pos <= |tokens|
      modifies this
      ensures match ParseArgs(tokens, old(pos), [], typedefs)
              case NoArgs => r == None
              case ParsedArgs(args, next) => r == Some(args) && pos == next
      decreases |tokens| - pos, 4
    {
      ghost var start := pos;
      var args: seq<Expr>, more := [], true;
      while more
        invariant start <= pos <= |tokens|
        invariant if more then ParseArgs(tokens, pos, args, typedefs) == ParseArgs(tokens, start, [], typedefs)
                  else ParseArgs(tokens, start, [], typedefs) == ParsedArgs(args, pos)
        decreases |tokens| - pos, more
      {
        var arg := Expression(InfixPrec(Punct(Assign)));
        if arg.None? { return None; }
        args := args + [arg.value];
        more := Match(Comma);
      }
      r := Some(args);
    }
  }
}
