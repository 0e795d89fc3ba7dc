/** The expression parser reads exactly the token lists that derive from the grammar, as the trees they derive; and an
    expression written with as few parentheses as possible is read back. */
module ExprRoundTrip {
  import opened Sequences
  import opened Wrappers
  import opened ParseExpr
  import opened ExprGrammar

  /** A tree the parser's tables allow, with no operand of sizeof that it would cut short. */
  predicate Derived(d: Tree, typedefs: set<string>) {
    Grammatical(d) && PlainSizeof(d, typedefs)
  }

  // ----- the tables -----

  /** The table of operators that the grammar is written with is the inverse of the parser's. */
  lemma {:induction false} OperatorTables(op: BinaryOp)
    ensures ToBinaryOp(OpToken(op)) == op
  {
    if IsAssignment(op) { AssignmentTables(op);
    } else if IsArithmetic(op) { ArithmeticTables(op);
    } else { OtherTables(op); }
  }

  lemma {:induction false} AssignmentTables(op: BinaryOp)
    requires IsAssignment(op)
    ensures ToBinaryOp(OpToken(op)) == op
  {
  }

  predicate IsArithmetic(op: BinaryOp) {
    op in {Add, Sub, Times, Quot, Rem, BitAnd, BitOr, BitXor, ShiftLeft, ShiftRight}
  }

  lemma {:induction false} ArithmeticTables(op: BinaryOp)
    requires IsArithmetic(op)
    ensures ToBinaryOp(OpToken(op)) == op
  {
  }

  lemma {:induction false} OtherTables(op: BinaryOp)
    requires !IsAssignment(op) && !IsArithmetic(op)
    ensures ToBinaryOp(OpToken(op)) == op
  {
  }

  lemma {:induction false} PrefixTables(op: UnaryOp)
    ensures !IsPostfixOp(op) ==> PrefixOp(Punct(UnaryToken(op))) == Some(op)
  {
  }

  // ----- what may follow -----

  /** How tightly the next token would take in what stands before it; -1 for a token that would not. */
  function Follow(ts: seq<Token>, pos: nat): int {
    if At(ts, pos, Question) then TERNARY else InfixPrec(Current(ts, pos))
  }

  predicate NoPostfix(ts: seq<Token>, pos: nat) {
    !IsPostfix(Current(ts, pos))
  }

  /** The tightest operator that may follow d without being taken into d's last operand. */
  function Stop(d: Tree): int {
    match d
    case Infix(op, _, _) => if IsAssignment(op) then OpPrec(op) - 1 else OpPrec(op)
    case Choice(_, _, _) => TERNARY - 1
    case _ => POSTFIX
  }

  lemma {:induction false} StopEnough(x: Tree, min: int, follow: int)
    requires Level(x) >= min
    requires follow < min || (follow == min && follow != TERNARY && follow != OpPrec(SimpleAssign))
    ensures follow <= Stop(x)
  {
    if x.Infix? { OperatorLevels(x.bop); }
  }

  predicate PrintedAt(ts: seq<Token>, pos: nat, w: seq<Token>) {
    pos + |w| <= |ts| && ts[pos..pos + |w|] == w
  }

  // ----- where the parts of a printed expression are -----

  lemma {:induction false} SplitOne(ts: seq<Token>, pos: nat, w: seq<Token>, a: seq<Token>, t: Token, b: seq<Token>)
    requires PrintedAt(ts, pos, w) && w == a + [t] + b
    ensures PrintedAt(ts, pos, a)
    ensures var j := pos + |a|; j < |ts| && ts[j] == t && PrintedAt(ts, j + 1, b) && pos + |w| == j + 1 + |b|
  {
    SplitAtToken(ts, pos, pos + |w|, a, t, b);
  }

  lemma {:induction false} SplitTwo(ts: seq<Token>, pos: nat, w: seq<Token>, a: seq<Token>, t: Token, b: seq<Token>,
                                    u: Token, c: seq<Token>)
    requires PrintedAt(ts, pos, w) && w == a + [t] + b + [u] + c
    ensures PrintedAt(ts, pos, a)
    ensures var i := pos + |a|;
            && i < |ts| && ts[i] == t && PrintedAt(ts, i + 1, b)
            && var j := i + 1 + |b|;
               j < |ts| && ts[j] == u && PrintedAt(ts, j + 1, c) && pos + |w| == j + 1 + |c|
  {
    SplitAtTokens(ts, pos, pos + |w|, a, t, b, u, c);
  }

  lemma {:induction false} SplitFirst(ts: seq<Token>, pos: nat, w: seq<Token>, t: Token, b: seq<Token>)
    requires PrintedAt(ts, pos, w) && w == [t] + b
    ensures pos < |ts| && ts[pos] == t && PrintedAt(ts, pos + 1, b) && pos + |w| == pos + 1 + |b|
  {
    assert [t] + b == [] + [t] + b;
    SplitOne(ts, pos, w, [], t, b);
  }

  /** A pair of brackets with something between them. */
  lemma {:induction false} SplitLast(ts: seq<Token>, pos: nat, w: seq<Token>, a: seq<Token>, t: Token, b: seq<Token>,
                                     u: Token)
    requires PrintedAt(ts, pos, w) && w == a + [t] + b + [u]
    ensures PrintedAt(ts, pos, a)
    ensures var i := pos + |a|;
            && i < |ts| && ts[i] == t && PrintedAt(ts, i + 1, b)
            && var j := i + 1 + |b|; j < |ts| && ts[j] == u && pos + |w| == j + 1
  {
    assert a + [t] + b + [u] == a + [t] + b + [u] + [];
    SplitTwo(ts, pos, w, a, t, b, u, []);
  }

  lemma {:induction false} SplitParens(ts: seq<Token>, pos: nat, w: seq<Token>, b: seq<Token>)
    requires PrintedAt(ts, pos, w) && w == [Punct(LParen)] + b + [Punct(RParen)]
    ensures pos < |ts| && ts[pos] == Punct(LParen) && PrintedAt(ts, pos + 1, b)
    ensures var j := pos + 1 + |b|; j < |ts| && ts[j] == Punct(RParen) && pos + |w| == j + 1
  {
    assert w == [] + [Punct(LParen)] + b + [Punct(RParen)];
    SplitLast(ts, pos, w, [], Punct(LParen), b, Punct(RParen));
  }

  // ----- one step of the parser -----

  lemma {:induction false} UnaryByPrimary(ts: seq<Token>, pos: nat, base: Expr, next: nat, typedefs: set<string>)
    requires pos < |ts| && PrefixOp(ts[pos]).None? && ts[pos] != Punct(KwSizeof)
    requires ParsePrimary(ts, pos, typedefs) == Parsed(base, next)
    ensures next <= |ts| && ParseUnary(ts, pos, typedefs) == ParsePostfix(ts, base, next, typedefs)
  {
    hide ParsePrimary, ParsePostfix;
  }

  lemma {:induction false} PostfixStops(ts: seq<Token>, base: Expr, pos: nat, typedefs: set<string>)
    requires pos <= |ts| && NoPostfix(ts, pos)
    ensures ParsePostfix(ts, base, pos, typedefs) == Parsed(base, pos)
  {
  }

  lemma {:induction false} PostfixGoesOn(ts: seq<Token>, base: Expr, pos: nat, e: Expr, next: nat,
                                         typedefs: set<string>)
    requires pos < |ts| && IsPostfix(ts[pos]) && ParseOnePostfix(ts, base, pos, typedefs) == Parsed(e, next)
    ensures next <= |ts| && ParsePostfix(ts, base, pos, typedefs) == ParsePostfix(ts, e, next, typedefs)
  {
    hide ParseOnePostfix;
  }

  lemma {:induction false} ClimbStops(ts: seq<Token>, lhs: Expr, pos: nat, min: int, typedefs: set<string>)
    requires pos <= |ts| && min >= 0 && Follow(ts, pos) < min
    ensures Climb(ts, lhs, pos, min, typedefs) == Parsed(lhs, pos)
  {
  }

  lemma {:induction false} PrimaryParens(ts: seq<Token>, pos: nat, e: Expr, next: nat, typedefs: set<string>)
    requires pos + 1 <= |ts| && At(ts, pos, LParen) && ParseExpression(ts, pos + 1, 0, typedefs) == Parsed(e, next)
    requires At(ts, next, RParen)
    ensures ParsePrimary(ts, pos, typedefs) == Parsed(e, next + 1)
  {
    hide ParseExpression;
  }

  lemma {:induction false} ExpressionByUnary(ts: seq<Token>, pos: nat, min: int, lhs: Expr, next: nat,
                                             typedefs: set<string>)
    requires pos <= |ts| && min >= 0 && ParseUnary(ts, pos, typedefs) == Parsed(lhs, next)
    ensures next <= |ts| && ParseExpression(ts, pos, min, typedefs) == Climb(ts, lhs, next, min, typedefs)
  {
    hide ParseUnary, Climb;
  }

  // ----- every derivation is read -----

  /** A primary expression and the postfix operators after it. */
  lemma {:induction false} ReadPostfix(ts: seq<Token>, pos: nat, d: Tree, typedefs: set<string>)
    requires Derived(d, typedefs) && Level(d) >= POSTFIX && PrintedAt(ts, pos, Print(d))
    ensures ParseUnary(ts, pos, typedefs) == ParsePostfix(ts, Abstract(d), pos + |Print(d)|, typedefs)
    decreases d, 5
  {
    hide ParseUnary, ParsePostfix, ParseOnePostfix, ParsePrimary, OpPrec, PrintedAt;
    match d
    case Atom(t) => ReadAtom(ts, pos, d, typedefs);
    case Paren(_) => ReadParens(ts, pos, d, typedefs);
    case Postfix(_, _) => ReadIncrement(ts, pos, d, typedefs);
    case Apply(_, _) => ReadCall(ts, pos, d, typedefs);
    case Subscript(_, _) => ReadIndex(ts, pos, d, typedefs);
    case Select(_, _, _) => ReadMember(ts, pos, d, typedefs);
    case Infix(op, _, _) => OperatorLevels(op);
  }

  lemma {:induction false} ReadAtom(ts: seq<Token>, pos: nat, d: Tree, typedefs: set<string>)
    requires d.Atom? && Grammatical(d) && PrintedAt(ts, pos, Print(d))
    ensures ParseUnary(ts, pos, typedefs) == ParsePostfix(ts, Abstract(d), pos + |Print(d)|, typedefs)
  {
    hide ParseUnary, ParsePostfix;
    SplitFirst(ts, pos, Print(d), d.token, []);
    UnaryByPrimary(ts, pos, Abstract(d), pos + 1, typedefs);
  }

  lemma {:induction false} ParensAt(ts: seq<Token>, pos: nat, d: Tree)
    requires d.Paren? && PrintedAt(ts, pos, Print(d))
    ensures At(ts, pos, LParen) && PrintedAt(ts, pos + 1, Print(d.inner))
    ensures var j := pos + 1 + |Print(d.inner)|;
            At(ts, j, RParen) && Follow(ts, j) < 0 && NoPostfix(ts, j) && pos + |Print(d)| == j + 1
  {
    SplitParens(ts, pos, Print(d), Print(d.inner));
  }

  lemma {:induction false} ReadParens(ts: seq<Token>, pos: nat, d: Tree, typedefs: set<string>)
    requires d.Paren? && Derived(d, typedefs) && PrintedAt(ts, pos, Print(d))
    ensures ParseUnary(ts, pos, typedefs) == ParsePostfix(ts, Abstract(d), pos + |Print(d)|, typedefs)
    decreases d, 4
  {
    hide Print, ParseUnary, ParsePostfix, ParsePrimary, ParseExpression, Follow, NoPostfix, PrintedAt;
    ParensAt(ts, pos, d);
    EveryLevel(d.inner);
    ReadExpression(ts, pos + 1, d.inner, 0, typedefs);
    PrimaryParens(ts, pos, Abstract(d), pos + 1 + |Print(d.inner)|, typedefs);
    UnaryByPrimary(ts, pos, Abstract(d), pos + |Print(d)|, typedefs);
  }

  lemma {:induction false} IncrementAt(ts: seq<Token>, pos: nat, d: Tree)
    requires d.Postfix? && PrintedAt(ts, pos, Print(d))
    ensures PrintedAt(ts, pos, Print(d.operand)) && At(ts, pos + |Print(d.operand)|, UnaryToken(d.op))
    ensures |Print(d)| == |Print(d.operand)| + 1
  {
    var a, t := Print(d.operand), Punct(UnaryToken(d.op));
    assert a + [t] == a + [t] + [];
    SplitOne(ts, pos, Print(d), a, t, []);
  }

  lemma {:induction false} ReadIncrement(ts: seq<Token>, pos: nat, d: Tree, typedefs: set<string>)
    requires d.Postfix? && Derived(d, typedefs) && PrintedAt(ts, pos, Print(d))
    ensures ParseUnary(ts, pos, typedefs) == ParsePostfix(ts, Abstract(d), pos + |Print(d)|, typedefs)
    decreases d, 4
  {
    hide Print, ParseUnary, ParsePostfix, PrintedAt;
    IncrementAt(ts, pos, d);
    ReadPostfix(ts, pos, d.operand, typedefs);
    PostfixGoesOn(ts, Abstract(d.operand), pos + |Print(d.operand)|, Abstract(d), pos + |Print(d)|, typedefs);
  }

  lemma {:induction false} MemberAt(ts: seq<Token>, pos: nat, d: Tree)
    requires d.Select? && PrintedAt(ts, pos, Print(d))
    ensures PrintedAt(ts, pos, Print(d.whole))
    ensures var i := pos + |Print(d.whole)|;
            && i + 1 < |ts| && ts[i] == Punct(if d.arrow then Arrow else Dot) && ts[i + 1] == Ident(d.member)
            && pos + |Print(d)| == i + 2
  {
    var a, t := Print(d.whole), Punct(if d.arrow then Arrow else Dot);
    SplitOne(ts, pos, Print(d), a, t, [Ident(d.member)]);
    SplitFirst(ts, pos + |a| + 1, [Ident(d.member)], Ident(d.member), []);
  }

  lemma {:induction false} ReadMember(ts: seq<Token>, pos: nat, d: Tree, typedefs: set<string>)
    requires d.Select? && Derived(d, typedefs) && PrintedAt(ts, pos, Print(d))
    ensures ParseUnary(ts, pos, typedefs) == ParsePostfix(ts, Abstract(d), pos + |Print(d)|, typedefs)
    decreases d, 4
  {
    hide Print, PrintedAt, ParseUnary, ParsePostfix;
    MemberAt(ts, pos, d);
    ReadPostfix(ts, pos, d.whole, typedefs);
    PostfixGoesOn(ts, Abstract(d.whole), pos + |Print(d.whole)|, Abstract(d), pos + |Print(d)|, typedefs);
  }

  lemma {:induction false} IndexAt(ts: seq<Token>, pos: nat, d: Tree)
    requires d.Subscript? && PrintedAt(ts, pos, Print(d))
    ensures PrintedAt(ts, pos, Print(d.base))
    ensures var i := pos + |Print(d.base)|;
            && At(ts, i, LBracket) && PrintedAt(ts, i + 1, Print(d.index))
            && var j := i + 1 + |Print(d.index)|;
               At(ts, j, RBracket) && Follow(ts, j) < 0 && NoPostfix(ts, j) && pos + |Print(d)| == j + 1
  {
    SplitLast(ts, pos, Print(d), Print(d.base), Punct(LBracket), Print(d.index), Punct(RBracket));
  }

  lemma {:induction false} ReadIndex(ts: seq<Token>, pos: nat, d: Tree, typedefs: set<string>)
    requires d.Subscript? && Derived(d, typedefs) && PrintedAt(ts, pos, Print(d))
    ensures ParseUnary(ts, pos, typedefs) == ParsePostfix(ts, Abstract(d), pos + |Print(d)|, typedefs)
    decreases d, 4
  {
    hide Print, PrintedAt, ParseUnary, ParsePostfix, ParseExpression, Follow, NoPostfix;
    IndexAt(ts, pos, d);
    var i := pos + |Print(d.base)|;
    ReadPostfix(ts, pos, d.base, typedefs);
    EveryLevel(d.index);
    ReadExpression(ts, i + 1, d.index, 0, typedefs);
    PostfixGoesOn(ts, Abstract(d.base), i, Abstract(d), pos + |Print(d)|, typedefs);
  }

  lemma {:induction false} CallAt(ts: seq<Token>, pos: nat, d: Tree)
    requires d.Apply? && PrintedAt(ts, pos, Print(d))
    ensures PrintedAt(ts, pos, Print(d.callee))
    ensures var i := pos + |Print(d.callee)|;
            && At(ts, i, LParen) && PrintedAt(ts, i + 1, PrintArgs(d.args))
            && var j := i + 1 + |PrintArgs(d.args)|; At(ts, j, RParen) && pos + |Print(d)| == j + 1
  {
    hide PrintArgs;
    SplitLast(ts, pos, Print(d), Print(d.callee), Punct(LParen), PrintArgs(d.args), Punct(RParen));
  }

  lemma {:induction false} ReadCall(ts: seq<Token>, pos: nat, d: Tree, typedefs: set<string>)
    requires d.Apply? && Derived(d, typedefs) && PrintedAt(ts, pos, Print(d))
    ensures ParseUnary(ts, pos, typedefs) == ParsePostfix(ts, Abstract(d), pos + |Print(d)|, typedefs)
    decreases d, 4
  {
    hide Print, PrintedAt, ParseUnary, ParsePostfix, ParseArgs, PrintArgs, OpPrec;
    CallAt(ts, pos, d);
    var i := pos + |Print(d.callee)|;
    ReadPostfix(ts, pos, d.callee, typedefs);
    if d.args == [] {
      NoArguments(d.args);
    } else {
      ReadArgs(ts, i + 1, d.args, [], typedefs);
      ArgumentsFirst(ts, i + 1, typedefs);
      assert [] + AbstractAll(d.args) == AbstractAll(d.args);
    }
    PostfixGoesOn(ts, Abstract(d.callee), i, Abstract(d), pos + |Print(d)|, typedefs);
  }

  lemma {:induction false} NoArguments(args: seq<Tree>)
    ensures args == [] ==> PrintArgs(args) == [] && AbstractAll(args) == []
  {
  }

  /** No argument list starts with its closing parenthesis. */
  lemma {:induction false} ArgumentsFirst(ts: seq<Token>, pos: nat, typedefs: set<string>)
    requires pos <= |ts|
    ensures At(ts, pos, RParen) ==> ParseArgs(ts, pos, [], typedefs) == NoArgs
  {
    if At(ts, pos, RParen) {
      assert ParsePrimary(ts, pos, typedefs) == NoParse;
      assert ParseUnary(ts, pos, typedefs) == NoParse;
    }
  }

  lemma {:induction false} ArgumentsPrint(args: seq<Tree>)
    requires |args| > 1
    ensures PrintArgs(args) == Print(args[0]) + [Punct(Comma)] + PrintArgs(args[1..])
  {
  }

  lemma {:induction false} ArgsAt(ts: seq<Token>, pos: nat, args: seq<Tree>)
    requires |args| > 1 && PrintedAt(ts, pos, PrintArgs(args))
    ensures PrintedAt(ts, pos, Print(args[0]))
    ensures var i := pos + |Print(args[0])|;
            && At(ts, i, Comma) && Follow(ts, i) < OpPrec(SimpleAssign) && NoPostfix(ts, i)
            && PrintedAt(ts, i + 1, PrintArgs(args[1..])) && pos + |PrintArgs(args)| == i + 1 + |PrintArgs(args[1..])|
  {
    hide Print, InfixPrec, OpPrec, Follow, NoPostfix;
    var a := Print(args[0]);
    ArgumentsPrint(args);
    hide PrintArgs;
    SplitOne(ts, pos, PrintArgs(args), a, Punct(Comma), PrintArgs(args[1..]));
    hide PrintedAt;
    Delimiter(ts, pos + |a|, Comma);
  }

  lemma {:induction false} ReadArgs(ts: seq<Token>, pos: nat, args: seq<Tree>, done: seq<Expr>, typedefs: set<string>)
    requires args != [] && forall a :: a in args ==> Derived(a, typedefs) && Level(a) >= OpPrec(SimpleAssign)
    requires PrintedAt(ts, pos, PrintArgs(args)) && At(ts, pos + |PrintArgs(args)|, RParen)
    ensures ParseArgs(ts, pos, done, typedefs) == ParsedArgs(done + AbstractAll(args), pos + |PrintArgs(args)|)
    decreases args
  {
    hide Print, ParseExpression, Follow, NoPostfix, Derived, PrintedAt, Level, Abstract;
    if |args| == 1 {
      Delimiter(ts, pos + |PrintArgs(args)|, RParen);
      ReadExpression(ts, pos, args[0], OpPrec(SimpleAssign), typedefs);
      assert AbstractAll(args) == [Abstract(args[0])] + AbstractAll(args[1..]) == [Abstract(args[0])];
    } else {
      ArgsAt(ts, pos, args);
      ReadExpression(ts, pos, args[0], OpPrec(SimpleAssign), typedefs);
      ReadArgs(ts, pos + |Print(args[0])| + 1, args[1..], done + [Abstract(args[0])], typedefs);
      assert done + [Abstract(args[0])] + AbstractAll(args[1..]) == done + AbstractAll(args);
    }
  }

  lemma {:induction false} PrefixAt(ts: seq<Token>, pos: nat, d: Tree)
    requires d.Prefix? && PrintedAt(ts, pos, Print(d))
    ensures At(ts, pos, UnaryToken(d.op)) && PrintedAt(ts, pos + 1, Print(d.operand))
    ensures |Print(d)| == 1 + |Print(d.operand)|
  {
    SplitFirst(ts, pos, Print(d), Punct(UnaryToken(d.op)), Print(d.operand));
  }

  lemma {:induction false} ReadUnary(ts: seq<Token>, pos: nat, d: Tree, typedefs: set<string>)
    requires Derived(d, typedefs) && Level(d) >= PREFIX && PrintedAt(ts, pos, Print(d))
    requires NoPostfix(ts, pos + |Print(d)|)
    ensures ParseUnary(ts, pos, typedefs) == Parsed(Abstract(d), pos + |Print(d)|)
    decreases d, 6
  {
    hide Print, ParsePostfix, ParsePrimary, ParseExpression, OpPrec, OpToken, NoPostfix;
    if Level(d) >= POSTFIX {
      ReadPostfix(ts, pos, d, typedefs);
      PostfixStops(ts, Abstract(d), pos + |Print(d)|, typedefs);
    } else if d.Prefix? {
      PrefixTables(d.op);
      PrefixAt(ts, pos, d);
      ReadUnary(ts, pos + 1, d.operand, typedefs);
    } else if d.SizeOf? {
      ReadSizeof(ts, pos, d, typedefs);
    } else {
      OperatorLevels(d.bop);
    }
  }

  lemma {:induction false} SizeofAt(ts: seq<Token>, pos: nat, d: Tree)
    requires d.SizeOf? && PrintedAt(ts, pos, Print(d))
    ensures At(ts, pos, KwSizeof) && PrintedAt(ts, pos + 1, Print(d.sized)) && |Print(d)| == 1 + |Print(d.sized)|
    ensures pos + 1 < |ts| && ts[pos + 1] == Print(d.sized)[0]
    ensures d.sized.Paren? ==> pos + 2 < |ts| && ts[pos + 2] == Print(d.sized.inner)[0]
  {
    SplitFirst(ts, pos, Print(d), Punct(KwSizeof), Print(d.sized));
    assert ts[pos + 1] == ts[pos + 1..pos + 1 + |Print(d.sized)|][0];
    if d.sized.Paren? {
      ParensAt(ts, pos + 1, d.sized);
      assert ts[pos + 2] == ts[pos + 2..pos + 2 + |Print(d.sized.inner)|][0];
    }
  }

  lemma {:induction false} ReadSizeof(ts: seq<Token>, pos: nat, d: Tree, typedefs: set<string>)
    requires d.SizeOf? && Derived(d, typedefs) && PrintedAt(ts, pos, Print(d)) && NoPostfix(ts, pos + |Print(d)|)
    ensures ParseUnary(ts, pos, typedefs) == Parsed(Abstract(d), pos + |Print(d)|)
    decreases d, 5
  {
    hide Print, ParsePostfix, ParsePrimary, ParseExpression, PrintedAt, NoPostfix, Follow;
    SizeofAt(ts, pos, d);
    if d.sized.Paren? {
      ParensAt(ts, pos + 1, d.sized);
      EveryLevel(d.sized.inner);
      ReadExpression(ts, pos + 2, d.sized.inner, 0, typedefs);
    } else {
      ReadUnary(ts, pos + 1, d.sized, typedefs);
    }
  }

  /** A whole expression, followed by something that does not belong to it. */
  lemma {:induction false} ReadExpression(ts: seq<Token>, pos: nat, d: Tree, min: int, typedefs: set<string>)
    requires Derived(d, typedefs) && 0 <= min <= Level(d) && PrintedAt(ts, pos, Print(d))
    requires Follow(ts, pos + |Print(d)|) < min && NoPostfix(ts, pos + |Print(d)|)
    ensures ParseExpression(ts, pos, min, typedefs) == Parsed(Abstract(d), pos + |Print(d)|)
    decreases d, 9
  {
    hide Print, Abstract, ParseUnary, ParseExpression, Climb, Derived, Follow, Stop, Level, NoPostfix;
    StopEnough(d, min, Follow(ts, pos + |Print(d)|));
    Reach(ts, pos, d, min, typedefs);
    ClimbStops(ts, Abstract(d), pos + |Print(d)|, min, typedefs);
  }

  /** An expression read by the climbing loop, which then stands after it. */
  lemma {:induction false} Reach(ts: seq<Token>, pos: nat, d: Tree, min: int, typedefs: set<string>)
    requires Derived(d, typedefs) && 0 <= min <= Level(d) && PrintedAt(ts, pos, Print(d))
    requires NoPostfix(ts, pos + |Print(d)|) && Follow(ts, pos + |Print(d)|) <= Stop(d)
    ensures ParseExpression(ts, pos, min, typedefs) == Climb(ts, Abstract(d), pos + |Print(d)|, min, typedefs)
    decreases d, 8
  {
    hide Print, Abstract, ParseUnary, ParseExpression, Climb, Derived, Follow, PrintedAt, NoPostfix;
    var next := pos + |Print(d)|;
    if Level(d) >= PREFIX {
      ReadUnary(ts, pos, d, typedefs);
      ExpressionByUnary(ts, pos, min, Abstract(d), next, typedefs);
    } else if d.Infix? {
      ReachInfix(ts, pos, d, min, typedefs);
    } else {
      ReachChoice(ts, pos, d, min, typedefs);
    }
  }

  lemma {:induction false} InfixAt(ts: seq<Token>, pos: nat, d: Tree)
    requires d.Infix? && PrintedAt(ts, pos, Print(d))
    ensures PrintedAt(ts, pos, Print(d.lhs))
    ensures var i := pos + |Print(d.lhs)|;
            && i < |ts| && ts[i] == Punct(OpToken(d.bop)) && Follow(ts, i) == OpPrec(d.bop) && NoPostfix(ts, i)
            && PrintedAt(ts, i + 1, Print(d.rhs)) && pos + |Print(d)| == i + 1 + |Print(d.rhs)|
  {
    hide InfixPrec, OpToken, OpPrec, Follow, NoPostfix;
    SplitOne(ts, pos, Print(d), Print(d.lhs), Punct(OpToken(d.bop)), Print(d.rhs));
    hide PrintedAt, Print;
    OperatorFollows(ts, pos + |Print(d.lhs)|, d.bop);
  }

  lemma {:induction false} InfixParts(d: Tree, typedefs: set<string>)
    requires d.Infix? && Derived(d, typedefs)
    ensures Derived(d.lhs, typedefs) && Derived(d.rhs, typedefs)
    ensures Level(d.lhs) >= LeftMin(d.bop) >= Level(d) && Level(d.rhs) >= RightMin(d.bop) >= Level(d)
    ensures Abstract(d) == Binary(d.bop, Abstract(d.lhs), Abstract(d.rhs))
  {
    hide OpPrec;
  }

  lemma {:induction false} OperatorMins(op: BinaryOp)
    ensures 1 <= OpPrec(op) <= 13 && OpPrec(op) != TERNARY && OpPrec(SimpleAssign) == 2
    ensures IsAssignment(op) ==> LeftMin(op) == 3 && RightMin(op) == 2 == OpPrec(op)
    ensures !IsAssignment(op) ==> LeftMin(op) == OpPrec(op) != 2 && RightMin(op) == OpPrec(op) + 1
  {
    hide OpPrec;
    OperatorLevels(op);
    OperatorLevels(SimpleAssign);
  }

  lemma {:induction false} ReachInfix(ts: seq<Token>, pos: nat, d: Tree, min: int, typedefs: set<string>)
    requires Derived(d, typedefs) && d.Infix? && 0 <= min <= Level(d) && PrintedAt(ts, pos, Print(d))
    requires Follow(ts, pos + |Print(d)|) <= Stop(d) && NoPostfix(ts, pos + |Print(d)|)
    ensures ParseExpression(ts, pos, min, typedefs) == Climb(ts, Abstract(d), pos + |Print(d)|, min, typedefs)
    decreases d, 7
  {
    hide Print, PrintedAt, ParseExpression, Climb, Follow, NoPostfix, OpPrec, LeftMin, RightMin, Derived, Abstract;
    var op := d.bop;
    OperatorMins(op);
    InfixParts(d, typedefs);
    InfixAt(ts, pos, d);
    var i := pos + |Print(d.lhs)|;
    StopEnough(d.lhs, LeftMin(op), OpPrec(op));
    Reach(ts, pos, d.lhs, min, typedefs);
    ReadExpression(ts, i + 1, d.rhs, RightMin(op), typedefs);
    InfixRead(ts, i, d, pos + |Print(d)|, min, typedefs);
  }

  lemma {:induction false} InfixRead(ts: seq<Token>, pos: nat, d: Tree, next: nat, min: int, typedefs: set<string>)
    requires d.Infix? && 0 <= min <= Level(d) && pos < |ts| && ts[pos] == Punct(OpToken(d.bop))
    requires ParseExpression(ts, pos + 1, RightMin(d.bop), typedefs) == Parsed(Abstract(d.rhs), next)
    ensures next <= |ts|
    ensures Climb(ts, Abstract(d.lhs), pos, min, typedefs) == Climb(ts, Abstract(d), next, min, typedefs)
  {
    OperatorTables(d.bop);
    OperatorLevels(d.bop);
    OperatorFollows(ts, pos, d.bop);
    hide ParseExpression, ToBinaryOp, InfixPrec, OpToken;
  }

  lemma {:induction false} BranchesRead(ts: seq<Token>, pos: nat, d: Tree, colon: nat, next: nat, min: int,
                                        typedefs: set<string>)
    requires d.Choice? && 0 <= min <= TERNARY && At(ts, pos, Question) && At(ts, colon, Colon)
    requires ParseExpression(ts, pos + 1, 0, typedefs) == Parsed(Abstract(d.thn), colon)
    requires ParseExpression(ts, colon + 1, TERNARY, typedefs) == Parsed(Abstract(d.els), next)
    ensures next <= |ts|
    ensures Climb(ts, Abstract(d.cond), pos, min, typedefs) == Climb(ts, Abstract(d), next, min, typedefs)
  {
    hide ParseExpression;
  }

  /** Tokens that end the expression before them. */
  lemma {:induction false} Delimiter(ts: seq<Token>, pos: nat, p: Punct)
    requires At(ts, pos, p)
    ensures p in {RParen, RBracket, Colon} ==> Follow(ts, pos) == -1 && NoPostfix(ts, pos)
    ensures p == Comma ==> Follow(ts, pos) == 1 < OpPrec(SimpleAssign) && NoPostfix(ts, pos)
    ensures p == Question ==> Follow(ts, pos) == TERNARY && NoPostfix(ts, pos)
  {
  }

  lemma {:induction false} OperatorFollows(ts: seq<Token>, pos: nat, op: BinaryOp)
    requires pos < |ts| && ts[pos] == Punct(OpToken(op))
    ensures Follow(ts, pos) == OpPrec(op) && NoPostfix(ts, pos) && !At(ts, pos, Question)
  {
  }

  /** Where the operands of a conditional expression stand, and what follows the first two. */
  lemma {:induction false} ChoiceAt(ts: seq<Token>, pos: nat, d: Tree)
    requires d.Choice? && PrintedAt(ts, pos, Print(d))
    ensures PrintedAt(ts, pos, Print(d.cond))
    ensures var i := pos + |Print(d.cond)|;
            && At(ts, i, Question) && Follow(ts, i) == TERNARY && NoPostfix(ts, i)
            && PrintedAt(ts, i + 1, Print(d.thn))
            && var j := i + 1 + |Print(d.thn)|;
               && At(ts, j, Colon) && Follow(ts, j) < 0 && NoPostfix(ts, j)
               && PrintedAt(ts, j + 1, Print(d.els)) && pos + |Print(d)| == j + 1 + |Print(d.els)|
  {
    hide InfixPrec, Follow, NoPostfix;
    var a, b, c := Print(d.cond), Print(d.thn), Print(d.els);
    SplitTwo(ts, pos, Print(d), a, Punct(Question), b, Punct(Colon), c);
    hide PrintedAt, Print;
    Delimiter(ts, pos + |a|, Question);
    Delimiter(ts, pos + |a| + 1 + |b|, Colon);
  }

  lemma {:induction false} ChoiceParts(d: Tree, typedefs: set<string>)
    requires d.Choice? && Derived(d, typedefs)
    ensures Derived(d.cond, typedefs) && Derived(d.thn, typedefs) && Derived(d.els, typedefs)
    ensures Level(d.cond) > TERNARY && Level(d.els) >= TERNARY && Stop(d) == TERNARY - 1
  {
    hide OpPrec;
  }

  lemma {:induction false} ReachChoice(ts: seq<Token>, pos: nat, d: Tree, min: int, typedefs: set<string>)
    requires Derived(d, typedefs) && d.Choice? && 0 <= min <= TERNARY && PrintedAt(ts, pos, Print(d))
    requires Follow(ts, pos + |Print(d)|) <= Stop(d) && NoPostfix(ts, pos + |Print(d)|)
    ensures ParseExpression(ts, pos, min, typedefs) == Climb(ts, Abstract(d), pos + |Print(d)|, min, typedefs)
    decreases d, 7
  {
    hide Print, PrintedAt, ParseExpression, Climb, Follow, NoPostfix, Derived, Abstract, Stop, Level;
    ChoiceParts(d, typedefs);
    ChoiceAt(ts, pos, d);
    var i := pos + |Print(d.cond)|;
    var j := i + 1 + |Print(d.thn)|;
    StopEnough(d.cond, TERNARY + 1, TERNARY);
    Reach(ts, pos, d.cond, min, typedefs);
    EveryLevel(d.thn);
    ReadExpression(ts, i + 1, d.thn, 0, typedefs);
    ReadExpression(ts, j + 1, d.els, TERNARY, typedefs);
    BranchesRead(ts, i, d, j, pos + |Print(d)|, min, typedefs);
  }

  // ----- everything read is a derivation -----

  /** d derives the tokens that were read, and stands for the tree that was returned. */
  predicate Yields(ts: seq<Token>, start: nat, r: Parsed, d: Tree, typedefs: set<string>) {
    && r.Parsed? && start <= r.pos <= |ts| && ts[start..r.pos] == Print(d) && Abstract(d) == r.expr
    && Derived(d, typedefs)
  }

  lemma {:induction false} TokenTables(p: Punct)
    ensures InfixPrec(Punct(p)) > 0 ==> OpToken(ToBinaryOp(p)) == p
    ensures PrefixOp(Punct(p)).Some? ==>
              UnaryToken(PrefixOp(Punct(p)).value) == p && !IsPostfixOp(PrefixOp(Punct(p)).value)
  {
  }

  /** What follows a tree without being taken into it has that tree as its left operand. */
  lemma {:induction false} StopAllows(l: Tree, op: BinaryOp)
    ensures TERNARY <= Stop(l) ==> Level(l) > TERNARY
    ensures OpPrec(op) <= Stop(l) ==> Level(l) >= LeftMin(op)
  {
    hide OpPrec;
    OperatorLevels(op);
    OperatorMins(op);
    if l.Infix? {
      OperatorLevels(l.bop);
      OperatorMins(l.bop);
    }
  }

  lemma {:induction false} ParenBuilds(ts: seq<Token>, i: nat, k: nat, x: Tree, typedefs: set<string>)
    requires i < k < |ts| && ts[i] == Punct(LParen) && ts[k] == Punct(RParen) && ts[i + 1..k] == Print(x)
    requires Derived(x, typedefs)
    ensures ts[i..k + 1] == Print(Paren(x)) && Derived(Paren(x), typedefs) && Level(Paren(x)) == POSTFIX
  {
    AroundToken(ts, i, i, k);
    AroundToken(ts, i, k, k + 1);
    assert ts[i..i] + [Punct(LParen)] == [Punct(LParen)];
  }

  lemma {:induction false} PrimaryIsTree(ts: seq<Token>, pos: nat, typedefs: set<string>) returns (d: Tree)
    requires pos <= |ts| && ParsePrimary(ts, pos, typedefs).Parsed?
    ensures Yields(ts, pos, ParsePrimary(ts, pos, typedefs), d, typedefs) && Level(d) == POSTFIX
    ensures pos < |ts| && (d.Paren? <==> ts[pos] == Punct(LParen))
    decreases |ts| - pos, 0
  {
    hide ParseExpression, Follow, Print, Derived;
    var t := ts[pos];
    if t == Punct(LParen) {
      var x := ExpressionIsTree(ts, pos + 1, 0, typedefs);
      d := Paren(x);
      ParenBuilds(ts, pos, ParseExpression(ts, pos + 1, 0, typedefs).pos, x, typedefs);
    } else {
      d := Atom(t);
      AtomBuilds(ts, pos, typedefs);
    }
  }

  lemma {:induction false} AtomBuilds(ts: seq<Token>, i: nat, typedefs: set<string>)
    requires i < |ts| && (ts[i].Ident? || ts[i].Literal?)
    ensures ts[i..i + 1] == Print(Atom(ts[i])) && Derived(Atom(ts[i]), typedefs)
  {
  }

  lemma {:induction false} PostfixIsTree(ts: seq<Token>, start: nat, b: Tree, pos: nat, typedefs: set<string>)
    returns (d: Tree)
    requires start < pos <= |ts| && ts[start..pos] == Print(b) && Derived(b, typedefs) && Level(b) >= POSTFIX
    requires ParsePostfix(ts, Abstract(b), pos, typedefs).Parsed?
    ensures Yields(ts, start, ParsePostfix(ts, Abstract(b), pos, typedefs), d, typedefs) && Level(d) >= POSTFIX
    decreases |ts| - pos, 2
  {
    hide ParseOnePostfix, Print, Derived, Abstract, Level;
    if !IsPostfix(Current(ts, pos)) {
      d := b;
    } else {
      var one := OnePostfixIsTree(ts, start, b, pos, typedefs);
      d := PostfixIsTree(ts, start, one, ParseOnePostfix(ts, Abstract(b), pos, typedefs).pos, typedefs);
    }
  }

  lemma {:induction false} OnePostfixIsTree(ts: seq<Token>, start: nat, b: Tree, pos: nat, typedefs: set<string>)
    returns (d: Tree)
    requires start < pos < |ts| && IsPostfix(ts[pos])
    requires ts[start..pos] == Print(b) && Derived(b, typedefs) && Level(b) >= POSTFIX
    requires ParseOnePostfix(ts, Abstract(b), pos, typedefs).Parsed?
    ensures Yields(ts, start, ParseOnePostfix(ts, Abstract(b), pos, typedefs), d, typedefs) && Level(d) >= POSTFIX
    decreases |ts| - pos, 1
  {
    hide ParseExpression, ParseArgs, Follow, Print, Derived, Abstract, Level;
    var p := ts[pos].p;
    if p == LParen {
      d := CallIsTree(ts, start, b, pos, typedefs);
    } else if p == LBracket {
      var i := ExpressionIsTree(ts, pos + 1, 0, typedefs);
      d := Subscript(b, i);
      SubscriptBuilds(ts, start, pos, ParseExpression(ts, pos + 1, 0, typedefs).pos, b, i, typedefs);
    } else if p == PlusPlus || p == MinusMinus {
      var op := if p == PlusPlus then PostInc else PostDec;
      d := Postfix(op, b);
      PostfixBuilds(ts, start, pos, b, op, typedefs);
    } else {
      d := Select(b, p == Arrow, ts[pos + 1].name);
      SelectBuilds(ts, start, pos, b, typedefs);
    }
  }

  lemma {:induction false} CallIsTree(ts: seq<Token>, start: nat, b: Tree, pos: nat, typedefs: set<string>)
    returns (d: Tree)
    requires start < pos && At(ts, pos, LParen)
    requires ts[start..pos] == Print(b) && Derived(b, typedefs) && Level(b) >= POSTFIX
    requires ParseOnePostfix(ts, Abstract(b), pos, typedefs).Parsed?
    ensures Yields(ts, start, ParseOnePostfix(ts, Abstract(b), pos, typedefs), d, typedefs) && Level(d) >= POSTFIX
    decreases |ts| - pos, 0
  {
    hide ParseExpression, ParseArgs, Print, PrintArgs, Derived, Abstract, AbstractAll, Level, OpPrec;
    if At(ts, pos + 1, RParen) {
      d := Apply(b, []);
      NoArguments([]);
      assert ts[pos + 1..pos + 1] == [];
      ApplyBuilds(ts, start, pos, pos + 1, b, [], typedefs);
    } else {
      var args := ArgsAreTrees(ts, pos + 1, [], typedefs);
      d := Apply(b, args);
      ApplyBuilds(ts, start, pos, ParseArgs(ts, pos + 1, [], typedefs).next, b, args, typedefs);
    }
  }

  lemma {:induction false} Enclosed(ts: seq<Token>, i: nat, j: nat, k: nat)
    requires i <= j < k < |ts|
    ensures ts[i..k + 1] == ts[i..j] + [ts[j]] + ts[j + 1..k] + [ts[k]]
  {
    AroundTwoTokens(ts, i, j, k, k + 1);
    assert ts[k + 1..k + 1] == [];
  }

  lemma {:induction false} ApplyTree(b: Tree, args: seq<Tree>, typedefs: set<string>)
    requires Derived(b, typedefs) && Level(b) >= POSTFIX
    requires forall a :: a in args ==> Derived(a, typedefs) && Level(a) >= OpPrec(SimpleAssign)
    ensures Derived(Apply(b, args), typedefs)
  {
    hide OpPrec;
  }

  lemma {:induction false} SubscriptTree(b: Tree, x: Tree, typedefs: set<string>)
    requires Derived(b, typedefs) && Level(b) >= POSTFIX && Derived(x, typedefs)
    ensures Derived(Subscript(b, x), typedefs)
  {
  }

  lemma {:induction false} ApplyBuilds(ts: seq<Token>, i: nat, j: nat, k: nat, b: Tree, args: seq<Tree>,
                                       typedefs: set<string>)
    requires i <= j < k < |ts| && ts[j] == Punct(LParen) && ts[k] == Punct(RParen) && ts[i..j] == Print(b)
    requires ts[j + 1..k] == PrintArgs(args) && Derived(b, typedefs) && Level(b) >= POSTFIX
    requires forall a :: a in args ==> Derived(a, typedefs) && Level(a) >= OpPrec(SimpleAssign)
    ensures var d := Apply(b, args);
            && ts[i..k + 1] == Print(d) && Derived(d, typedefs) && Level(d) == POSTFIX
            && Abstract(d) == Call(Abstract(b), AbstractAll(args))
  {
    hide Derived, PrintArgs, OpPrec;
    ApplyTree(b, args, typedefs);
    Enclosed(ts, i, j, k);
  }

  lemma {:induction false} SubscriptBuilds(ts: seq<Token>, i: nat, j: nat, k: nat, b: Tree, x: Tree,
                                           typedefs: set<string>)
    requires i <= j < k < |ts| && ts[j] == Punct(LBracket) && ts[k] == Punct(RBracket) && ts[i..j] == Print(b)
    requires ts[j + 1..k] == Print(x) && Derived(b, typedefs) && Level(b) >= POSTFIX && Derived(x, typedefs)
    ensures var d := Subscript(b, x);
            && ts[i..k + 1] == Print(d) && Derived(d, typedefs) && Level(d) == POSTFIX
            && Abstract(d) == Index(Abstract(b), Abstract(x))
  {
    hide Derived;
    SubscriptTree(b, x, typedefs);
    Enclosed(ts, i, j, k);
  }

  lemma {:induction false} PostfixBuilds(ts: seq<Token>, i: nat, j: nat, b: Tree, op: UnaryOp, typedefs: set<string>)
    requires i <= j < |ts| && ts[j] == Punct(UnaryToken(op)) && IsPostfixOp(op) && ts[i..j] == Print(b)
    requires Derived(b, typedefs) && Level(b) >= POSTFIX
    ensures var d := Postfix(op, b);
            && ts[i..j + 1] == Print(d) && Derived(d, typedefs) && Level(d) == POSTFIX
            && Abstract(d) == Unary(op, Abstract(b))
  {
    AroundToken(ts, i, j, j + 1);
    assert ts[j + 1..j + 1] == [];
  }

  lemma {:induction false} SelectBuilds(ts: seq<Token>, i: nat, j: nat, b: Tree, typedefs: set<string>)
    requires i <= j && j + 1 < |ts| && ts[j] in {Punct(Dot), Punct(Arrow)} && ts[j + 1].Ident? && ts[i..j] == Print(b)
    requires Derived(b, typedefs) && Level(b) >= POSTFIX
    ensures var d := Select(b, ts[j].p == Arrow, ts[j + 1].name);
            && ts[i..j + 2] == Print(d) && Derived(d, typedefs) && Level(d) == POSTFIX
            && Abstract(d) == Member(Abstract(b), ts[j].p == Arrow, ts[j + 1].name)
  {
    AroundToken(ts, i, j, j + 2);
    assert ts[j + 1..j + 2] == [ts[j + 1]];
  }

  /** Arguments that were read, after those already done. */
  lemma {:induction false} ArgsAreTrees(ts: seq<Token>, pos: nat, done: seq<Expr>, typedefs: set<string>)
    returns (args: seq<Tree>)
    requires pos <= |ts| && ParseArgs(ts, pos, done, typedefs).ParsedArgs?
    ensures var r := ParseArgs(ts, pos, done, typedefs);
            ts[pos..r.next] == PrintArgs(args) && r.args == done + AbstractAll(args) && args != []
    ensures forall a :: a in args ==> Derived(a, typedefs) && Level(a) >= OpPrec(SimpleAssign)
    decreases |ts| - pos, 4
  {
    hide ParseExpression, Follow, Print, PrintArgs, Derived, Abstract, AbstractAll, Level, OpPrec;
    OperatorMins(SimpleAssign);
    ArgumentLevel();
    var a := ExpressionIsTree(ts, pos, OpPrec(SimpleAssign), typedefs);
    var next := ParseExpression(ts, pos, OpPrec(SimpleAssign), typedefs).pos;
    OneArgument(a);
    args := [a];
    if At(ts, next, Comma) {
      var more := ArgsAreTrees(ts, next + 1, done + [Abstract(a)], typedefs);
      args := [a] + more;
      MoreArguments(a, more);
      AroundToken(ts, pos, next, ParseArgs(ts, pos, done, typedefs).next);
      assert done + [Abstract(a)] + AbstractAll(more) == done + ([Abstract(a)] + AbstractAll(more));
    }
  }

  lemma {:induction false} OneArgument(a: Tree)
    ensures PrintArgs([a]) == Print(a) && AbstractAll([a]) == [Abstract(a)]
  {
    assert AbstractAll([a]) == [Abstract(a)] + AbstractAll([a][1..]);
  }

  lemma {:induction false} MoreArguments(a: Tree, more: seq<Tree>)
    requires more != []
    ensures PrintArgs([a] + more) == Print(a) + [Punct(Comma)] + PrintArgs(more)
    ensures AbstractAll([a] + more) == [Abstract(a)] + AbstractAll(more)
  {
    assert ([a] + more)[1..] == more;
  }

  lemma {:induction false} ArgumentLevel()
    ensures InfixPrec(Punct(Assign)) == OpPrec(SimpleAssign)
  {
  }

  lemma {:induction false} PrefixBuilds(ts: seq<Token>, i: nat, k: nat, op: UnaryOp, x: Tree, typedefs: set<string>)
    requires i < k <= |ts| && ts[i] == Punct(UnaryToken(op)) && !IsPostfixOp(op) && ts[i + 1..k] == Print(x)
    requires Derived(x, typedefs) && Level(x) >= PREFIX
    ensures var d := Prefix(op, x);
            && ts[i..k] == Print(d) && Derived(d, typedefs) && Level(d) == PREFIX
            && Abstract(d) == Unary(op, Abstract(x))
  {
    AroundToken(ts, i, i, k);
    assert ts[i..i] + [ts[i]] == [ts[i]];
  }

  lemma {:induction false} SizeofBuilds(ts: seq<Token>, i: nat, k: nat, x: Tree, typedefs: set<string>)
    requires i + 1 < k <= |ts| && ts[i] == Punct(KwSizeof) && ts[i + 1..k] == Print(x)
    requires Derived(x, typedefs) && Level(x) >= PREFIX
    requires if x.Paren? then i + 2 < |ts| && !IsTypeName(typedefs, ts[i + 2]) else ts[i + 1] != Punct(LParen)
    ensures var d := SizeOf(x);
            && ts[i..k] == Print(d) && Derived(d, typedefs) && Level(d) == PREFIX
            && Abstract(d) == Sizeof(Abstract(x))
  {
    AroundToken(ts, i, i, k);
    assert ts[i..i] + [ts[i]] == [ts[i]];
    assert Print(x)[0] == ts[i + 1];
    if x.Paren? {
      SplitParens(ts, i + 1, Print(x), Print(x.inner));
      assert ts[i + 2] == ts[i + 2..i + 2 + |Print(x.inner)|][0];
    }
  }

  lemma {:induction false} UnaryIsTree(ts: seq<Token>, pos: nat, typedefs: set<string>) returns (d: Tree)
    requires pos <= |ts| && ParseUnary(ts, pos, typedefs).Parsed?
    ensures Yields(ts, pos, ParseUnary(ts, pos, typedefs), d, typedefs) && Level(d) >= PREFIX
    decreases |ts| - pos, 1
  {
    hide ParsePrimary, ParsePostfix, ParseSizeof, Print, Derived, Abstract, Level;
    var t := Current(ts, pos);
    if PrefixOp(t).Some? {
      TokenTables(t.p);
      var x := UnaryIsTree(ts, pos + 1, typedefs);
      d := Prefix(PrefixOp(t).value, x);
      PrefixBuilds(ts, pos, ParseUnary(ts, pos + 1, typedefs).pos, PrefixOp(t).value, x, typedefs);
    } else if t == Punct(KwSizeof) {
      d := SizeofIsTree(ts, pos, typedefs);
    } else {
      var b := PrimaryIsTree(ts, pos, typedefs);
      d := PostfixIsTree(ts, pos, b, ParsePrimary(ts, pos, typedefs).pos, typedefs);
    }
  }

  lemma {:induction false} SizeofIsTree(ts: seq<Token>, pos: nat, typedefs: set<string>) returns (d: Tree)
    requires At(ts, pos, KwSizeof) && ParseSizeof(ts, pos, typedefs).Parsed?
    ensures Yields(ts, pos, ParseSizeof(ts, pos, typedefs), d, typedefs) && Level(d) == PREFIX
    decreases |ts| - pos, 0
  {
    hide ParseExpression, ParseUnary, Follow, Print, Derived, Abstract, Level;
    if At(ts, pos + 1, LParen) {
      var x := ExpressionIsTree(ts, pos + 2, 0, typedefs);
      var close := ParseExpression(ts, pos + 2, 0, typedefs).pos;
      ParenBuilds(ts, pos + 1, close, x, typedefs);
      ParenStandsFor(x);
      SizeofBuilds(ts, pos, close + 1, Paren(x), typedefs);
      d := SizeOf(Paren(x));
    } else {
      var x := UnaryIsTree(ts, pos + 1, typedefs);
      FirstOfParen(x);
      SizeofBuilds(ts, pos, ParseUnary(ts, pos + 1, typedefs).pos, x, typedefs);
      d := SizeOf(x);
    }
  }

  lemma {:induction false} ParenStandsFor(x: Tree)
    ensures Abstract(Paren(x)) == Abstract(x)
  {
  }

  lemma {:induction false} FirstOfParen(x: Tree)
    ensures x.Paren? ==> Print(x)[0] == Punct(LParen)
  {
  }

  lemma {:induction false} ExpressionIsTree(ts: seq<Token>, pos: nat, min: int, typedefs: set<string>)
    returns (d: Tree)
    requires pos <= |ts| && 0 <= min <= PREFIX && ParseExpression(ts, pos, min, typedefs).Parsed?
    ensures Yields(ts, pos, ParseExpression(ts, pos, min, typedefs), d, typedefs) && Level(d) >= min
    ensures Follow(ts, ParseExpression(ts, pos, min, typedefs).pos) < min
    decreases |ts| - pos, 3
  {
    hide ParseUnary, Climb, Print, Derived, Abstract, Follow;
    var l := UnaryIsTree(ts, pos, typedefs);
    var next := ParseUnary(ts, pos, typedefs).pos;
    FollowLow(ts, next);
    UnaryStop(l);
    d := ClimbIsTree(ts, pos, l, next, min, typedefs);
  }

  lemma {:induction false} FollowLow(ts: seq<Token>, pos: nat)
    ensures -1 <= Follow(ts, pos) <= 13
  {
  }

  lemma {:induction false} UnaryStop(l: Tree)
    requires Level(l) >= PREFIX
    ensures Stop(l) == POSTFIX
  {
    if l.Infix? { OperatorLevels(l.bop); }
  }

  lemma {:induction false} ClimbIsTree(ts: seq<Token>, start: nat, l: Tree, pos: nat, min: int, typedefs: set<string>)
    returns (d: Tree)
    requires start < pos <= |ts| && 0 <= min <= PREFIX && ts[start..pos] == Print(l) && Derived(l, typedefs)
    requires Level(l) >= min && Follow(ts, pos) <= Stop(l) && Climb(ts, Abstract(l), pos, min, typedefs).Parsed?
    ensures Yields(ts, start, Climb(ts, Abstract(l), pos, min, typedefs), d, typedefs) && Level(d) >= min
    ensures Follow(ts, Climb(ts, Abstract(l), pos, min, typedefs).pos) < min
    decreases |ts| - pos, 2
  {
    hide ParseBranches, ParseInfix, Print, Derived, Abstract, Level, Stop, InfixPrec;
    if Follow(ts, pos) < min {
      d := l;
    } else {
      var both: Tree;
      var next: nat;
      if At(ts, pos, Question) {
        both := BranchesAreTree(ts, start, l, pos, typedefs);
        next := ParseBranches(ts, Abstract(l), pos, typedefs).pos;
      } else {
        both := InfixIsTree(ts, start, l, pos, typedefs);
        next := ParseInfix(ts, Abstract(l), pos, typedefs).pos;
      }
      d := ClimbIsTree(ts, start, both, next, min, typedefs);
    }
  }

  lemma {:induction false} ChoiceBuilds(ts: seq<Token>, i: nat, j: nat, k: nat, n: nat, c: Tree, t: Tree, f: Tree,
                                        typedefs: set<string>)
    requires i <= j < k < n <= |ts| && ts[j] == Punct(Question) && ts[k] == Punct(Colon)
    requires ts[i..j] == Print(c) && ts[j + 1..k] == Print(t) && ts[k + 1..n] == Print(f)
    requires Derived(c, typedefs) && Derived(t, typedefs) && Derived(f, typedefs)
    requires Level(c) > TERNARY && Level(f) >= TERNARY
    ensures var d := Choice(c, t, f);
            && ts[i..n] == Print(d) && Derived(d, typedefs) && Level(d) == TERNARY && Stop(d) == TERNARY - 1
            && Abstract(d) == Ternary(Abstract(c), Abstract(t), Abstract(f))
  {
    AroundTwoTokens(ts, i, j, k, n);
  }

  lemma {:induction false} BranchesAreTree(ts: seq<Token>, start: nat, c: Tree, pos: nat, typedefs: set<string>)
    returns (d: Tree)
    requires start < pos && At(ts, pos, Question) && ts[start..pos] == Print(c) && Derived(c, typedefs)
    requires TERNARY <= Stop(c) && ParseBranches(ts, Abstract(c), pos, typedefs).Parsed?
    ensures Yields(ts, start, ParseBranches(ts, Abstract(c), pos, typedefs), d, typedefs)
    ensures Level(d) == TERNARY && Follow(ts, ParseBranches(ts, Abstract(c), pos, typedefs).pos) <= Stop(d)
    decreases |ts| - pos, 1
  {
    hide ParseExpression, Follow, Print, Derived, Abstract, Level, Stop;
    StopAllows(c, SimpleAssign);
    var t := ExpressionIsTree(ts, pos + 1, 0, typedefs);
    var colon := ParseExpression(ts, pos + 1, 0, typedefs).pos;
    var f := ExpressionIsTree(ts, colon + 1, TERNARY, typedefs);
    d := Choice(c, t, f);
    ChoiceBuilds(ts, start, pos, colon, ParseExpression(ts, colon + 1, TERNARY, typedefs).pos, c, t, f, typedefs);
  }

  lemma {:induction false} InfixBuilds(ts: seq<Token>, i: nat, j: nat, k: nat, l: Tree, op: BinaryOp, r: Tree,
                                       typedefs: set<string>)
    requires i <= j < k <= |ts| && ts[j] == Punct(OpToken(op)) && ts[i..j] == Print(l) && ts[j + 1..k] == Print(r)
    requires Derived(l, typedefs) && Derived(r, typedefs) && Level(l) >= LeftMin(op) && Level(r) >= RightMin(op)
    ensures var d := Infix(op, l, r);
            && ts[i..k] == Print(d) && Derived(d, typedefs) && Level(d) == OpPrec(op)
            && Stop(d) == (if IsAssignment(op) then OpPrec(op) - 1 else OpPrec(op))
            && Abstract(d) == Binary(op, Abstract(l), Abstract(r))
  {
    hide OpPrec, OpToken, LeftMin, RightMin;
    AroundToken(ts, i, j, k);
  }

  lemma {:induction false} InfixIsTree(ts: seq<Token>, start: nat, l: Tree, pos: nat, typedefs: set<string>)
    returns (d: Tree)
    requires start < pos < |ts| && InfixPrec(ts[pos]) > 0 && ts[start..pos] == Print(l) && Derived(l, typedefs)
    requires InfixPrec(ts[pos]) <= Stop(l) && ParseInfix(ts, Abstract(l), pos, typedefs).Parsed?
    ensures Yields(ts, start, ParseInfix(ts, Abstract(l), pos, typedefs), d, typedefs)
    ensures Level(d) == InfixPrec(ts[pos]) && Follow(ts, ParseInfix(ts, Abstract(l), pos, typedefs).pos) <= Stop(d)
    decreases |ts| - pos, 1
  {
    hide ParseExpression, Follow, Print, Derived, Abstract, Level, Stop, OpToken, InfixPrec, ToBinaryOp;
    TokenTables(ts[pos].p);
    var op := ToBinaryOp(ts[pos].p);
    StopAllows(l, op);
    OperatorMins(op);
    var r := ExpressionIsTree(ts, pos + 1, RightMin(op), typedefs);
    d := Infix(op, l, r);
    InfixBuilds(ts, start, pos, ParseExpression(ts, pos + 1, RightMin(op), typedefs).pos, l, op, r, typedefs);
  }

  // ----- the parser reads the grammar -----

  /** d derives the whole list, and sizeof is plain in it. */
  predicate Derives(d: Tree, ts: seq<Token>, typedefs: set<string>) {
    Expression(d) && Print(d) == ts && PlainSizeof(d, typedefs)
  }

  /** A derivation is read as the tree it stands for, to its end. */
  lemma {:induction false} DerivationIsRead(ts: seq<Token>, d: Tree, typedefs: set<string>)
    requires Derives(d, ts, typedefs)
    ensures ParseExpression(ts, 0, 0, typedefs) == Parsed(Abstract(d), |ts|)
  {
    LevelsAreNonterminals(d);
    EveryLevel(d);
    hide Expression, Print, ParseExpression, Grammatical, PlainSizeof;
    assert ts[0..|ts|] == ts;
    ReadExpression(ts, 0, d, 0, typedefs);
  }

  /** The parser takes a whole token list for e exactly when the list derives from the grammar as e. */
  lemma {:induction false} ParsesExactly(ts: seq<Token>, e: Expr, typedefs: set<string>)
    ensures ParseExpression(ts, 0, 0, typedefs) == Parsed(e, |ts|)
       <==> exists d :: Derives(d, ts, typedefs) && Abstract(d) == e
  {
    if ParseExpression(ts, 0, 0, typedefs) == Parsed(e, |ts|) {
      var d := ExpressionIsTree(ts, 0, 0, typedefs);
      assert ts[0..|ts|] == ts;
      LevelsAreNonterminals(d);
      assert Derives(d, ts, typedefs);
    }
    if exists d :: Derives(d, ts, typedefs) && Abstract(d) == e {
      var d :| Derives(d, ts, typedefs) && Abstract(d) == e;
      DerivationIsRead(ts, d, typedefs);
    }
  }

  /** The grammar is not ambiguous where it matters: what a list derives stands for one tree. */
  lemma {:induction false} TreeIsUnique(ts: seq<Token>, d: Tree, d': Tree, typedefs: set<string>)
    requires Derives(d, ts, typedefs) && Derives(d', ts, typedefs)
    ensures Abstract(d) == Abstract(d')
  {
    DerivationIsRead(ts, d, typedefs);
    DerivationIsRead(ts, d', typedefs);
  }

  /** sizeof (a)[0] derives from the grammar, but the parser stops after the parenthesis. */
  lemma {:induction false} SizeofStopsEarly(typedefs: set<string>)
    requires "a" !in typedefs
    ensures var a, zero := Atom(Ident("a")), Atom(Literal("0"));
            var d := SizeOf(Subscript(Paren(a), zero));
            Expression(d) && ParseExpression(Print(d), 0, 0, typedefs) == Parsed(Sizeof(Abstract(a)), 4)
  {
    hide Expression, Print, ParseExpression, ParseUnary, Follow;
    var a, zero := Atom(Ident("a")), Atom(Literal("0"));
    var ts := Print(SizeOf(Subscript(Paren(a), zero)));
    ElementSize();
    assert ts[2..3] == Print(a);
    Delimiter(ts, 3, RParen);
    ReadExpression(ts, 2, a, 0, typedefs);
    SizeofOfParens(ts, 0, Abstract(a), typedefs);
    ExpressionByUnary(ts, 0, 0, Sizeof(Abstract(a)), 4, typedefs);
    BracketStops(ts, 4);
    ClimbStops(ts, Sizeof(Abstract(a)), 4, 0, typedefs);
  }

  /** sizeof (a)[0] by C's grammar, and its tokens. */
  lemma {:induction false} ElementSize()
    ensures var a, zero := Atom(Ident("a")), Atom(Literal("0"));
            var d := SizeOf(Subscript(Paren(a), zero));
            && Expression(d) && Print(a) == [Ident("a")]
            && Print(d) == [Punct(KwSizeof), Punct(LParen), Ident("a"), Punct(RParen), Punct(LBracket), Literal("0"),
                            Punct(RBracket)]
  {
    var a, zero := Atom(Ident("a")), Atom(Literal("0"));
    var element := Subscript(Paren(a), zero);
    LevelsAreNonterminals(SizeOf(element));
    hide Expression;
    assert Print(element) == [Punct(LParen), Ident("a"), Punct(RParen), Punct(LBracket), Literal("0"), Punct(RBracket)];
  }

  lemma {:induction false} SizeofOfParens(ts: seq<Token>, pos: nat, x: Expr, typedefs: set<string>)
    requires At(ts, pos, KwSizeof) && At(ts, pos + 1, LParen) && !IsTypeName(typedefs, Current(ts, pos + 2))
    requires ParseExpression(ts, pos + 2, 0, typedefs) == Parsed(x, pos + 3) && At(ts, pos + 3, RParen)
    ensures ParseUnary(ts, pos, typedefs) == Parsed(Sizeof(x), pos + 4)
  {
    hide ParseExpression;
  }

  lemma {:induction false} BracketStops(ts: seq<Token>, pos: nat)
    requires At(ts, pos, LBracket)
    ensures Follow(ts, pos) == -1
  {
  }

  // ----- writing with few parentheses -----

  /** d, in parentheses if it binds less tightly than min. */
  function Guarded(d: Tree, min: int): Tree { if Level(d) < min then Paren(d) else d }

  /** A derivation of e with a pair of parentheses only where the grammar needs one, and around operands of sizeof. */
  function Minimal(e: Expr): Tree
    decreases e
  {
    match e
    case Leaf(t) => Atom(t)
    case Unary(op, x) =>
      if IsPostfixOp(op) then Postfix(op, Guarded(Minimal(x), POSTFIX)) else Prefix(op, Guarded(Minimal(x), PREFIX))
    case Binary(op, l, r) => Infix(op, Guarded(Minimal(l), LeftMin(op)), Guarded(Minimal(r), RightMin(op)))
    case Ternary(c, t, f) => Choice(Guarded(Minimal(c), TERNARY + 1), Minimal(t), Guarded(Minimal(f), TERNARY))
    case Call(f, args) => Apply(Guarded(Minimal(f), POSTFIX), MinimalArgs(args))
    case Index(b, i) => Subscript(Guarded(Minimal(b), POSTFIX), Minimal(i))
    case Member(x, arrow, name) => Select(Guarded(Minimal(x), POSTFIX), arrow, name)
    case Sizeof(x) => SizeOf(Paren(Minimal(x)))
  }

  function MinimalArgs(args: seq<Expr>): (ds: seq<Tree>)
    decreases args
  {
    if args == [] then [] else [Guarded(Minimal(args[0]), OpPrec(SimpleAssign))] + MinimalArgs(args[1..])
  }

  /** Leaves are identifiers that name no type, or literals. */
  predicate Printable(e: Expr, typedefs: set<string>)
    decreases e
  {
    match e
    case Leaf(t) => (t.Ident? && t.name !in typedefs) || t.Literal?
    case Unary(_, x) => Printable(x, typedefs)
    case Binary(_, l, r) => Printable(l, typedefs) && Printable(r, typedefs)
    case Ternary(c, t, f) => Printable(c, typedefs) && Printable(t, typedefs) && Printable(f, typedefs)
    case Call(f, args) => Printable(f, typedefs) && forall a :: a in args ==> Printable(a, typedefs)
    case Index(b, i) => Printable(b, typedefs) && Printable(i, typedefs)
    case Member(x, _, _) => Printable(x, typedefs)
    case Sizeof(x) => Printable(x, typedefs)
  }

  /** d is a derivation that stands for e and does not start with the name of a type. */
  predicate Writes(d: Tree, e: Expr, typedefs: set<string>) {
    Derived(d, typedefs) && Abstract(d) == e && !IsTypeName(typedefs, Print(d)[0])
  }

  lemma {:induction false} GuardedWrites(d: Tree, e: Expr, min: int, typedefs: set<string>)
    requires Writes(d, e, typedefs) && min <= POSTFIX
    ensures Writes(Guarded(d, min), e, typedefs) && Level(Guarded(d, min)) >= min
  {
  }

  lemma {:induction false} UnaryWrites(e: Expr, x: Tree, typedefs: set<string>)
    requires e.Unary? && Writes(x, e.operand, typedefs) && Level(x) >= if IsPostfixOp(e.op) then POSTFIX else PREFIX
    ensures Writes(if IsPostfixOp(e.op) then Postfix(e.op, x) else Prefix(e.op, x), e, typedefs)
  {
  }

  lemma {:induction false} BinaryWrites(e: Expr, l: Tree, r: Tree, typedefs: set<string>)
    requires e.Binary? && Writes(l, e.lhs, typedefs) && Writes(r, e.rhs, typedefs)
    requires Level(l) >= LeftMin(e.bop) && Level(r) >= RightMin(e.bop)
    ensures Writes(Infix(e.bop, l, r), e, typedefs)
  {
    hide LeftMin, RightMin, OpPrec, OpToken;
  }

  lemma {:induction false} TernaryWrites(e: Expr, c: Tree, t: Tree, f: Tree, typedefs: set<string>)
    requires e.Ternary? && Writes(c, e.cond, typedefs) && Writes(t, e.thn, typedefs) && Writes(f, e.els, typedefs)
    requires Level(c) > TERNARY && Level(f) >= TERNARY
    ensures Writes(Choice(c, t, f), e, typedefs)
  {
  }

  lemma {:induction false} CallWrites(e: Expr, f: Tree, args: seq<Tree>, typedefs: set<string>)
    requires e.Call? && Writes(f, e.callee, typedefs) && Level(f) >= POSTFIX && AbstractAll(args) == e.args
    requires forall a :: a in args ==> Derived(a, typedefs) && Level(a) >= OpPrec(SimpleAssign)
    ensures Writes(Apply(f, args), e, typedefs)
  {
    hide OpPrec;
  }

  lemma {:induction false} PostfixWrites(e: Expr, b: Tree, i: Tree, typedefs: set<string>)
    requires match e
             case Index(base, index) => Writes(b, base, typedefs) && Writes(i, index, typedefs)
             case Member(whole, _, _) => Writes(b, whole, typedefs)
             case _ => false
    requires Level(b) >= POSTFIX
    ensures Writes(if e.Index? then Subscript(b, i) else Select(b, e.arrow, e.member), e, typedefs)
  {
  }

  lemma {:induction false} SizeofWrites(e: Expr, x: Tree, typedefs: set<string>)
    requires e.Sizeof? && Writes(x, e.sized, typedefs)
    ensures Writes(SizeOf(Paren(x)), e, typedefs)
  {
  }

  lemma {:induction false} MinimalWrites(e: Expr, typedefs: set<string>)
    requires Printable(e, typedefs)
    ensures Writes(Minimal(e), e, typedefs)
    decreases e
  {
    hide Guarded, OpPrec, Writes, Level;
    match e
    case Leaf(_) => LeafWrites(e, typedefs);
    case Unary(op, x) =>
      MinimalWrites(x, typedefs);
      var min := if IsPostfixOp(op) then POSTFIX else PREFIX;
      GuardedWrites(Minimal(x), x, min, typedefs);
      UnaryWrites(e, Guarded(Minimal(x), min), typedefs);
    case Binary(op, l, r) =>
      MinimalWrites(l, typedefs);
      MinimalWrites(r, typedefs);
      OperatorMins(op);
      GuardedWrites(Minimal(l), l, LeftMin(op), typedefs);
      GuardedWrites(Minimal(r), r, RightMin(op), typedefs);
      BinaryWrites(e, Guarded(Minimal(l), LeftMin(op)), Guarded(Minimal(r), RightMin(op)), typedefs);
    case Ternary(c, t, f) =>
      MinimalWrites(c, typedefs);
      MinimalWrites(t, typedefs);
      MinimalWrites(f, typedefs);
      GuardedWrites(Minimal(c), c, TERNARY + 1, typedefs);
      GuardedWrites(Minimal(f), f, TERNARY, typedefs);
      TernaryWrites(e, Guarded(Minimal(c), TERNARY + 1), Minimal(t), Guarded(Minimal(f), TERNARY), typedefs);
    case Call(f, args) =>
      MinimalWrites(f, typedefs);
      GuardedWrites(Minimal(f), f, POSTFIX, typedefs);
      MinimalArgsWrite(args, typedefs);
      CallWrites(e, Guarded(Minimal(f), POSTFIX), MinimalArgs(args), typedefs);
    case Index(b, i) =>
      MinimalWrites(b, typedefs);
      MinimalWrites(i, typedefs);
      GuardedWrites(Minimal(b), b, POSTFIX, typedefs);
      PostfixWrites(e, Guarded(Minimal(b), POSTFIX), Minimal(i), typedefs);
    case Member(x, _, _) =>
      MinimalWrites(x, typedefs);
      GuardedWrites(Minimal(x), x, POSTFIX, typedefs);
      PostfixWrites(e, Guarded(Minimal(x), POSTFIX), Minimal(x), typedefs);
    case Sizeof(x) =>
      MinimalWrites(x, typedefs);
      SizeofWrites(e, Minimal(x), typedefs);
  }

  lemma {:induction false} LeafWrites(e: Expr, typedefs: set<string>)
    requires e.Leaf? && Printable(e, typedefs)
    ensures Writes(Minimal(e), e, typedefs)
  {
  }

  lemma {:induction false} MinimalArgsWrite(args: seq<Expr>, typedefs: set<string>)
    requires forall a :: a in args ==> Printable(a, typedefs)
    ensures AbstractAll(MinimalArgs(args)) == args
    ensures forall a :: a in MinimalArgs(args) ==> Derived(a, typedefs) && Level(a) >= OpPrec(SimpleAssign)
    decreases args
  {
    hide Guarded, OpPrec;
    if args != [] {
      MinimalWrites(args[0], typedefs);
      OperatorMins(SimpleAssign);
      GuardedWrites(Minimal(args[0]), args[0], OpPrec(SimpleAssign), typedefs);
      MinimalArgsWrite(args[1..], typedefs);
      var d := Guarded(Minimal(args[0]), OpPrec(SimpleAssign));
      assert MinimalArgs(args)[1..] == MinimalArgs(args[1..]);
      assert [args[0]] + args[1..] == args;
    }
  }

  /** Printing and parsing are inverse: an expression written for level min with only the parentheses the grammar needs
      is read back as the same tree, and parsing stops right after it. */
  lemma {:induction false} RoundTrip(e: Expr, min: int, rest: seq<Token>, typedefs: set<string>)
    requires Printable(e, typedefs) && 0 <= min <= POSTFIX && Follow(rest, 0) < min && NoPostfix(rest, 0)
    ensures var w := Print(Guarded(Minimal(e), min)); ParseExpression(w + rest, 0, min, typedefs) == Parsed(e, |w|)
  {
    hide Print, ParseExpression, Guarded, Minimal, Printable, Derived;
    MinimalWrites(e, typedefs);
    var d := Guarded(Minimal(e), min);
    GuardedWrites(Minimal(e), e, min, typedefs);
    var w := Print(d);
    var ts := w + rest;
    assert ts[0..|w|] == w;
    assert Current(ts, |w|) == Current(rest, 0);
    ReadExpression(ts, 0, d, min, typedefs);
  }
}
