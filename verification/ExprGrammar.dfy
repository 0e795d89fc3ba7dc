/** The grammar of expressions (C99 section 6.5): derivation trees with the parentheses in them, one predicate for each
    nonterminal, the tokens a tree derives and the syntax tree it stands for. */
module ExprGrammar {
  import opened ParseExpr

  datatype Tree =
    | Atom(token: Token)
    | Paren(inner: Tree)
    | Prefix(op: UnaryOp, operand: Tree)
    | Postfix(op: UnaryOp, operand: Tree)
    | Infix(bop: BinaryOp, lhs: Tree, rhs: Tree)
    | Choice(cond: Tree, thn: Tree, els: Tree)
    | Apply(callee: Tree, args: seq<Tree>)
    | Subscript(base: Tree, index: Tree)
    | Select(whole: Tree, arrow: bool, member: string)
    | SizeOf(sized: Tree)

  // ----- the nonterminals -----

  // Each lists its own operators and the nonterminals of its operands. There are no casts. On the left of an
  // assignment C has a unary expression; here, as in the source, any conditional expression may stand there.

  predicate PrimaryExpression(d: Tree)
    decreases d, 0
  {
    (d.Atom? && (d.token.Ident? || d.token.Literal?)) || (d.Paren? && Expression(d.inner))
  }

  predicate PostfixExpression(d: Tree)
    decreases d, 1
  {
    || PrimaryExpression(d)
    || (d.Postfix? && d.op in {PostInc, PostDec} && PostfixExpression(d.operand))
    || (d.Apply? && PostfixExpression(d.callee) && forall a :: a in d.args ==> AssignmentExpression(a))
    || (d.Subscript? && PostfixExpression(d.base) && Expression(d.index))
    || (d.Select? && PostfixExpression(d.whole))
  }

  predicate UnaryExpression(d: Tree)
    decreases d, 2
  {
    || PostfixExpression(d)
    || (&& d.Prefix? && d.op in {PreInc, PreDec, Addr, Deref, Pos, Neg, BitNot, Not}
        && UnaryExpression(d.operand))
    || (d.SizeOf? && UnaryExpression(d.sized))
  }

  predicate MultiplicativeExpression(d: Tree)
    decreases d, 3
  {
    || UnaryExpression(d)
    || (d.Infix? && d.bop in {Times, Quot, Rem} && MultiplicativeExpression(d.lhs) && UnaryExpression(d.rhs))
  }

  predicate AdditiveExpression(d: Tree)
    decreases d, 4
  {
    || MultiplicativeExpression(d)
    || (d.Infix? && d.bop in {Add, Sub} && AdditiveExpression(d.lhs) && MultiplicativeExpression(d.rhs))
  }

  predicate ShiftExpression(d: Tree)
    decreases d, 5
  {
    || AdditiveExpression(d)
    || (d.Infix? && d.bop in {ShiftLeft, ShiftRight} && ShiftExpression(d.lhs) && AdditiveExpression(d.rhs))
  }

  predicate RelationalExpression(d: Tree)
    decreases d, 6
  {
    || ShiftExpression(d)
    || (&& d.Infix? && d.bop in {Less, Greater, LessEqual, GreaterEqual} && RelationalExpression(d.lhs)
        && ShiftExpression(d.rhs))
  }

  predicate EqualityExpression(d: Tree)
    decreases d, 7
  {
    || RelationalExpression(d)
    || (d.Infix? && d.bop in {Equal, NotEqual} && EqualityExpression(d.lhs) && RelationalExpression(d.rhs))
  }

  predicate AndExpression(d: Tree)
    decreases d, 8
  {
    || EqualityExpression(d)
    || (d.Infix? && d.bop == BitAnd && AndExpression(d.lhs) && EqualityExpression(d.rhs))
  }

  predicate ExclusiveOrExpression(d: Tree)
    decreases d, 9
  {
    || AndExpression(d)
    || (d.Infix? && d.bop == BitXor && ExclusiveOrExpression(d.lhs) && AndExpression(d.rhs))
  }

  predicate InclusiveOrExpression(d: Tree)
    decreases d, 10
  {
    || ExclusiveOrExpression(d)
    || (d.Infix? && d.bop == BitOr && InclusiveOrExpression(d.lhs) && ExclusiveOrExpression(d.rhs))
  }

  predicate LogicalAndExpression(d: Tree)
    decreases d, 11
  {
    || InclusiveOrExpression(d)
    || (d.Infix? && d.bop == And && LogicalAndExpression(d.lhs) && InclusiveOrExpression(d.rhs))
  }

  predicate LogicalOrExpression(d: Tree)
    decreases d, 12
  {
    || LogicalAndExpression(d)
    || (d.Infix? && d.bop == Or && LogicalOrExpression(d.lhs) && LogicalAndExpression(d.rhs))
  }

  predicate ConditionalExpression(d: Tree)
    decreases d, 13
  {
    || LogicalOrExpression(d)
    || (d.Choice? && LogicalOrExpression(d.cond) && Expression(d.thn) && ConditionalExpression(d.els))
  }

  predicate IsAssignment(op: BinaryOp) {
    op in {SimpleAssign, AddAssign, SubAssign, TimesAssign, QuotAssign, RemAssign, AndAssign, OrAssign, XorAssign,
           ShiftLeftAssign, ShiftRightAssign}
  }

  predicate AssignmentExpression(d: Tree)
    decreases d, 14
  {
    || ConditionalExpression(d)
    || (d.Infix? && IsAssignment(d.bop) && ConditionalExpression(d.lhs) && AssignmentExpression(d.rhs))
  }

  predicate Expression(d: Tree)
    decreases d, 15
  {
    || AssignmentExpression(d)
    || (d.Infix? && d.bop == Sequence && Expression(d.lhs) && AssignmentExpression(d.rhs))
  }

  // ----- the tokens and the syntax tree -----

  function OpToken(op: BinaryOp): Punct {
    match op
    case Add => Plus
    case Sub => Minus
    case Times => Mul
    case Quot => Div
    case Rem => Mod
    case AddAssign => PlusAssign
    case SubAssign => MinusAssign
    case TimesAssign => MulAssign
    case QuotAssign => DivAssign
    case RemAssign => ModAssign
    case BitAnd => Amp
    case BitOr => Pipe
    case BitXor => Caret
    case AndAssign => AmpAssign
    case OrAssign => PipeAssign
    case XorAssign => CaretAssign
    case ShiftLeft => LShift
    case ShiftRight => RShift
    case ShiftLeftAssign => LShiftAssign
    case ShiftRightAssign => RShiftAssign
    case And => AmpAmp
    case Or => PipePipe
    case Equal => Eq
    case NotEqual => Neq
    case Less => Lt
    case Greater => Gt
    case LessEqual => Leq
    case GreaterEqual => Geq
    case SimpleAssign => Assign
    case Sequence => Comma
  }

  function UnaryToken(op: UnaryOp): Punct {
    match op
    case PreInc => PlusPlus
    case PreDec => MinusMinus
    case Pos => Plus
    case Neg => Minus
    case Not => Bang
    case BitNot => Tilde
    case Deref => Mul
    case Addr => Amp
    case PostInc => PlusPlus
    case PostDec => MinusMinus
  }

  function Print(d: Tree): (ts: seq<Token>)
    ensures ts != []
    decreases d
  {
    match d
    case Atom(t) => [t]
    case Paren(x) => [Punct(LParen)] + Print(x) + [Punct(RParen)]
    case Prefix(op, x) => [Punct(UnaryToken(op))] + Print(x)
    case Postfix(op, x) => Print(x) + [Punct(UnaryToken(op))]
    case Infix(op, l, r) => Print(l) + [Punct(OpToken(op))] + Print(r)
    case Choice(c, t, f) => Print(c) + [Punct(Question)] + Print(t) + [Punct(Colon)] + Print(f)
    case Apply(f, args) => Print(f) + [Punct(LParen)] + PrintArgs(args) + [Punct(RParen)]
    case Subscript(b, i) => Print(b) + [Punct(LBracket)] + Print(i) + [Punct(RBracket)]
    case Select(x, arrow, name) => Print(x) + [Punct(if arrow then Arrow else Dot)] + [Ident(name)]
    case SizeOf(x) => [Punct(KwSizeof)] + Print(x)
  }

  function PrintArgs(args: seq<Tree>): seq<Token>
    decreases args
  {
    if args == [] then []
    else if |args| == 1 then Print(args[0])
    else Print(args[0]) + [Punct(Comma)] + PrintArgs(args[1..])
  }

  /** What a derivation stands for: parentheses group and leave no trace. */
  function Abstract(d: Tree): Expr
    decreases d
  {
    match d
    case Atom(t) => Leaf(t)
    case Paren(x) => Abstract(x)
    case Prefix(op, x) => Unary(op, Abstract(x))
    case Postfix(op, x) => Unary(op, Abstract(x))
    case Infix(op, l, r) => Binary(op, Abstract(l), Abstract(r))
    case Choice(c, t, f) => Ternary(Abstract(c), Abstract(t), Abstract(f))
    case Apply(f, args) => Call(Abstract(f), AbstractAll(args))
    case Subscript(b, i) => Index(Abstract(b), Abstract(i))
    case Select(x, arrow, name) => Member(Abstract(x), arrow, name)
    case SizeOf(x) => Sizeof(Abstract(x))
  }

  function AbstractAll(args: seq<Tree>): seq<Expr>
    decreases args
  {
    if args == [] then [] else [Abstract(args[0])] + AbstractAll(args[1..])
  }

  /** No operand of sizeof starts with a parenthesis and goes on after it, as in sizeof (a)[0], and none is a
      parenthesis that starts with the name of a type. */
  predicate PlainSizeof(d: Tree, typedefs: set<string>)
    decreases d
  {
    match d
    case Atom(_) => true
    case Paren(x) => PlainSizeof(x, typedefs)
    case Prefix(_, x) => PlainSizeof(x, typedefs)
    case Postfix(_, x) => PlainSizeof(x, typedefs)
    case Infix(_, l, r) => PlainSizeof(l, typedefs) && PlainSizeof(r, typedefs)
    case Choice(c, t, f) => PlainSizeof(c, typedefs) && PlainSizeof(t, typedefs) && PlainSizeof(f, typedefs)
    case Apply(f, args) => PlainSizeof(f, typedefs) && forall a :: a in args ==> PlainSizeof(a, typedefs)
    case Subscript(b, i) => PlainSizeof(b, typedefs) && PlainSizeof(i, typedefs)
    case Select(x, _, _) => PlainSizeof(x, typedefs)
    case SizeOf(x) =>
      && PlainSizeof(x, typedefs)
      && if x.Paren? then !IsTypeName(typedefs, Print(x.inner)[0]) else Print(x)[0] != Punct(LParen)
  }

  // ----- the parser's levels -----

  const PREFIX := 14
  const POSTFIX := 15

  function OpPrec(op: BinaryOp): int { InfixPrec(Punct(OpToken(op))) }

  /** How tightly the outermost operator binds. */
  function Level(d: Tree): int {
    match d
    case Prefix(_, _) => PREFIX
    case SizeOf(_) => PREFIX
    case Infix(op, _, _) => OpPrec(op)
    case Choice(_, _, _) => TERNARY
    case _ => POSTFIX
  }

  function LeftMin(op: BinaryOp): int { if IsRightAssoc(Punct(OpToken(op))) then OpPrec(op) + 1 else OpPrec(op) }
  function RightMin(op: BinaryOp): int { if IsRightAssoc(Punct(OpToken(op))) then OpPrec(op) else OpPrec(op) + 1 }

  predicate IsPostfixOp(op: UnaryOp) { op == PostInc || op == PostDec }

  /** The trees the parser's tables allow. */
  predicate Grammatical(d: Tree)
    decreases d
  {
    match d
    case Atom(t) => t.Ident? || t.Literal?
    case Paren(x) => Grammatical(x)
    case Prefix(op, x) => !IsPostfixOp(op) && Level(x) >= PREFIX && Grammatical(x)
    case Postfix(op, x) => IsPostfixOp(op) && Level(x) >= POSTFIX && Grammatical(x)
    case Infix(op, l, r) => Level(l) >= LeftMin(op) && Level(r) >= RightMin(op) && Grammatical(l) && Grammatical(r)
    case Choice(c, t, f) =>
      Level(c) > TERNARY && Level(f) >= TERNARY && Grammatical(c) && Grammatical(t) && Grammatical(f)
    case Apply(f, args) =>
      && Level(f) >= POSTFIX && Grammatical(f)
      && forall a :: a in args ==> Level(a) >= OpPrec(SimpleAssign) && Grammatical(a)
    case Subscript(b, i) => Level(b) >= POSTFIX && Grammatical(b) && Grammatical(i)
    case Select(x, _, _) => Level(x) >= POSTFIX && Grammatical(x)
    case SizeOf(x) => Level(x) >= PREFIX && Grammatical(x)
  }

  predicate LevelsMatch(d: Tree) {
    && PostfixExpression(d) == (Grammatical(d) && Level(d) >= POSTFIX)
    && UnaryExpression(d) == (Grammatical(d) && Level(d) >= PREFIX)
    && MultiplicativeExpression(d) == (Grammatical(d) && Level(d) >= 13)
    && AdditiveExpression(d) == (Grammatical(d) && Level(d) >= 12)
    && ShiftExpression(d) == (Grammatical(d) && Level(d) >= 11)
    && RelationalExpression(d) == (Grammatical(d) && Level(d) >= 10)
    && EqualityExpression(d) == (Grammatical(d) && Level(d) >= 9)
    && AndExpression(d) == (Grammatical(d) && Level(d) >= 8)
    && ExclusiveOrExpression(d) == (Grammatical(d) && Level(d) >= 7)
    && InclusiveOrExpression(d) == (Grammatical(d) && Level(d) >= 6)
    && LogicalAndExpression(d) == (Grammatical(d) && Level(d) >= 5)
    && LogicalOrExpression(d) == (Grammatical(d) && Level(d) >= 4)
    && ConditionalExpression(d) == (Grammatical(d) && Level(d) >= TERNARY)
    && AssignmentExpression(d) == (Grammatical(d) && Level(d) >= 2)
    && Expression(d) == Grammatical(d)
  }

  /** The parser's levels are C's nonterminals, from postfix expressions at 15 to whole expressions at 1. */
  lemma {:induction false} LevelsAreNonterminals(d: Tree)
    ensures LevelsMatch(d)
    decreases d
  {
    hide LevelsMatch;
    match d
    case Atom(_) => OperandLevels(d);
    case Paren(x) => LevelsAreNonterminals(x); OperandLevels(d);
    case Prefix(_, x) => LevelsAreNonterminals(x); OperandLevels(d);
    case Postfix(_, x) => LevelsAreNonterminals(x); OperandLevels(d);
    case Infix(_, l, r) => LevelsAreNonterminals(l); LevelsAreNonterminals(r); InfixLevels(d);
    case Choice(c, t, f) =>
      LevelsAreNonterminals(c);
      LevelsAreNonterminals(t);
      LevelsAreNonterminals(f);
      ChoiceLevels(d);
    case Apply(f, args) =>
      LevelsAreNonterminals(f);
      forall a | a in args ensures LevelsMatch(a) { LevelsAreNonterminals(a); }
      ApplyLevels(d);
    case Subscript(b, i) => LevelsAreNonterminals(b); LevelsAreNonterminals(i); OperandLevels(d);
    case Select(x, _, _) => LevelsAreNonterminals(x); OperandLevels(d);
    case SizeOf(x) => LevelsAreNonterminals(x); OperandLevels(d);
  }

  lemma {:induction false} OperandLevels(d: Tree)
    requires match d
             case Atom(_) => true
             case Paren(x) => LevelsMatch(x)
             case Prefix(_, x) => LevelsMatch(x)
             case Postfix(_, x) => LevelsMatch(x)
             case Subscript(b, i) => LevelsMatch(b) && LevelsMatch(i)
             case Select(x, _, _) => LevelsMatch(x)
             case SizeOf(x) => LevelsMatch(x)
             case _ => false
    ensures LevelsMatch(d)
  {
  }

  lemma {:induction false} ApplyLevels(d: Tree)
    requires d.Apply? && LevelsMatch(d.callee) && forall a :: a in d.args ==> LevelsMatch(a)
    ensures LevelsMatch(d)
  {
  }

  lemma {:induction false} ChoiceLevels(d: Tree)
    requires d.Choice? && LevelsMatch(d.cond) && LevelsMatch(d.thn) && LevelsMatch(d.els)
    ensures LevelsMatch(d)
  {
  }

  lemma {:induction false} OperatorLevels(op: BinaryOp)
    ensures OpPrec(op)
         == match op
            case Times | Quot | Rem => 13
            case Add | Sub => 12
            case ShiftLeft | ShiftRight => 11
            case Less | Greater | LessEqual | GreaterEqual => 10
            case Equal | NotEqual => 9
            case BitAnd => 8
            case BitXor => 7
            case BitOr => 6
            case And => 5
            case Or => 4
            case Sequence => 1
            case _ => 2
    ensures IsRightAssoc(Punct(OpToken(op))) == IsAssignment(op) == (OpPrec(op) == 2)
  {
  }

  lemma {:induction false} EveryLevel(d: Tree)
    ensures 1 <= Level(d) <= POSTFIX
  {
    if d.Infix? { OperatorLevels(d.bop); }
  }

  lemma {:induction false} InfixAllowed(d: Tree)
    requires d.Infix?
    ensures Level(d) == OpPrec(d.bop)
    ensures Grammatical(d)
         == (&& Level(d.lhs) >= LeftMin(d.bop) && Level(d.rhs) >= RightMin(d.bop)
             && Grammatical(d.lhs) && Grammatical(d.rhs))
  {
  }

  lemma {:induction false} InfixProductions(d: Tree)
    requires d.Infix?
    ensures !PostfixExpression(d) && !UnaryExpression(d)
    ensures MultiplicativeExpression(d)
         == (d.bop in {Times, Quot, Rem} && MultiplicativeExpression(d.lhs) && UnaryExpression(d.rhs))
  {
  }

  lemma {:induction false} TightLevels(d: Tree)
    requires d.Infix? && LevelsMatch(d.lhs) && LevelsMatch(d.rhs)
    ensures MultiplicativeExpression(d) == (Grammatical(d) && Level(d) >= 13)
    ensures AdditiveExpression(d) == (Grammatical(d) && Level(d) >= 12)
    ensures ShiftExpression(d) == (Grammatical(d) && Level(d) >= 11)
    ensures RelationalExpression(d) == (Grammatical(d) && Level(d) >= 10)
    ensures EqualityExpression(d) == (Grammatical(d) && Level(d) >= 9)
  {
    hide Grammatical, Level, OpPrec, PostfixExpression, UnaryExpression;
    OperatorLevels(d.bop);
    InfixAllowed(d);
    InfixProductions(d);
  }

  lemma {:induction false} LooseLevels(d: Tree)
    requires d.Infix? && LevelsMatch(d.lhs) && LevelsMatch(d.rhs)
    requires EqualityExpression(d) == (Grammatical(d) && Level(d) >= 9)
    ensures AndExpression(d) == (Grammatical(d) && Level(d) >= 8)
    ensures ExclusiveOrExpression(d) == (Grammatical(d) && Level(d) >= 7)
    ensures InclusiveOrExpression(d) == (Grammatical(d) && Level(d) >= 6)
    ensures LogicalAndExpression(d) == (Grammatical(d) && Level(d) >= 5)
    ensures LogicalOrExpression(d) == (Grammatical(d) && Level(d) >= 4)
    ensures ConditionalExpression(d) == (Grammatical(d) && Level(d) >= TERNARY)
    ensures AssignmentExpression(d) == (Grammatical(d) && Level(d) >= 2)
    ensures Expression(d) == Grammatical(d)
  {
    hide Grammatical, Level, OpPrec, EqualityExpression;
    OperatorLevels(d.bop);
    EveryLevel(d.lhs);
    InfixAllowed(d);
  }

  lemma {:induction false} InfixLevels(d: Tree)
    requires d.Infix? && LevelsMatch(d.lhs) && LevelsMatch(d.rhs)
    ensures LevelsMatch(d)
  {
    hide Grammatical, Level, OpPrec;
    OperatorLevels(d.bop);
    InfixAllowed(d);
    InfixProductions(d);
    TightLevels(d);
    LooseLevels(d);
  }
}
