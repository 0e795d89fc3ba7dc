/** C's grammar of #if expressions and what they mean, and the proof that the one-pass evaluator accepts exactly the
    token lists that have a meaning and answers with it. */
module PPGrammar {
  import opened Integers
  import opened Sequences
  import opened Wrappers
  import opened PPValues
  import opened PPExpression

  // ----- trees and their tokens -----

  datatype Tree =
    | Leaf(token: Token)
    | Prefix(op: Operator, operand: Tree)
    | Paren(inner: Tree)
    | Infix(op: Operator, lhs: Tree, rhs: Tree)
    | Ternary(cond: Tree, thn: Tree, els: Tree)

  function Print(e: Tree): (ts: seq<Token>)
    ensures ts != []
  {
    match e
    case Leaf(t) => [t]
    case Prefix(op, x) => [Punct(op)] + Print(x)
    case Paren(x) => [LeftParen] + Print(x) + [RightParen]
    case Infix(op, l, r) => Print(l) + [Punct(op)] + Print(r)
    case Ternary(c, t, f) => Print(c) + [Question] + Print(t) + [Colon] + Print(f)
  }

  /** How tightly a tree's outermost operator binds. */
  function Level(e: Tree): nat {
    match e
    case Infix(op, _, _) => Precedence(Punct(op))
    case Ternary(_, _, _) => 0
    case _ => 11
  }

  predicate IsConstant(t: Token) {
    match t
    case Number(v) => v.Some?
    case Character(c) => c.Some?
    case Identifier => true
    case _ => false
  }

  /** The trees the evaluator's levels allow: binary operators associate to the left, the conditional operator to the
      right. */
  predicate Grammatical(e: Tree) {
    match e
    case Leaf(t) => IsConstant(t)
    case Prefix(op, x) => IsPrefix(Punct(op)) && Level(x) == 11 && Grammatical(x)
    case Paren(x) => Grammatical(x)
    case Infix(op, l, r) =>
      Level(e) > 0 && Level(l) >= Level(e) && Level(r) > Level(e) && Grammatical(l) && Grammatical(r)
    case Ternary(c, t, f) => Level(c) > 0 && Grammatical(c) && Grammatical(t) && Grammatical(f)
  }

  // ----- C's grammar -----

  // One predicate for each nonterminal of C99 section 6.5 that section 6.10.1 leaves: its own operators, and operands
  // of the nonterminals that the production names.

  predicate PrimaryExpression(e: Tree)
    decreases e, 0
  {
    (e.Leaf? && IsConstant(e.token)) || (e.Paren? && ConditionalExpression(e.inner))
  }

  predicate UnaryExpression(e: Tree)
    decreases e, 1
  {
    PrimaryExpression(e) || (e.Prefix? && e.op in {Plus, Minus, Complement, Not} && UnaryExpression(e.operand))
  }

  predicate MultiplicativeExpression(e: Tree)
    decreases e, 2
  {
    || UnaryExpression(e)
    || (e.Infix? && e.op in {Times, Divide, Remainder} && MultiplicativeExpression(e.lhs) && UnaryExpression(e.rhs))
  }

  predicate AdditiveExpression(e: Tree)
    decreases e, 3
  {
    || MultiplicativeExpression(e)
    || (e.Infix? && e.op in {Plus, Minus} && AdditiveExpression(e.lhs) && MultiplicativeExpression(e.rhs))
  }

  predicate ShiftExpression(e: Tree)
    decreases e, 4
  {
    || AdditiveExpression(e)
    || (e.Infix? && e.op in {ShiftLeft, ShiftRight} && ShiftExpression(e.lhs) && AdditiveExpression(e.rhs))
  }

  predicate RelationalExpression(e: Tree)
    decreases e, 5
  {
    || ShiftExpression(e)
    || (&& e.Infix? && e.op in {Less, Greater, LessEqual, GreaterEqual} && RelationalExpression(e.lhs)
        && ShiftExpression(e.rhs))
  }

  predicate EqualityExpression(e: Tree)
    decreases e, 6
  {
    || RelationalExpression(e)
    || (e.Infix? && e.op in {Equal, NotEqual} && EqualityExpression(e.lhs) && RelationalExpression(e.rhs))
  }

  predicate AndExpression(e: Tree)
    decreases e, 7
  {
    || EqualityExpression(e)
    || (e.Infix? && e.op == BitAnd && AndExpression(e.lhs) && EqualityExpression(e.rhs))
  }

  predicate ExclusiveOrExpression(e: Tree)
    decreases e, 8
  {
    || AndExpression(e)
    || (e.Infix? && e.op == BitXor && ExclusiveOrExpression(e.lhs) && AndExpression(e.rhs))
  }

  predicate InclusiveOrExpression(e: Tree)
    decreases e, 9
  {
    || ExclusiveOrExpression(e)
    || (e.Infix? && e.op == BitOr && InclusiveOrExpression(e.lhs) && ExclusiveOrExpression(e.rhs))
  }

  predicate LogicalAndExpression(e: Tree)
    decreases e, 10
  {
    || InclusiveOrExpression(e)
    || (e.Infix? && e.op == LogicalAnd && LogicalAndExpression(e.lhs) && InclusiveOrExpression(e.rhs))
  }

  predicate LogicalOrExpression(e: Tree)
    decreases e, 11
  {
    || LogicalAndExpression(e)
    || (e.Infix? && e.op == LogicalOr && LogicalOrExpression(e.lhs) && LogicalAndExpression(e.rhs))
  }

  predicate ConditionalExpression(e: Tree)
    decreases e, 12
  {
    || LogicalOrExpression(e)
    || (&& e.Ternary? && LogicalOrExpression(e.cond) && ConditionalExpression(e.thn)
        && ConditionalExpression(e.els))
  }

  /** The evaluator's levels are C's nonterminals, from unary expressions at 11 to conditional ones at 0. */
  predicate LevelsMatch(e: Tree) {
    && UnaryExpression(e) == (Grammatical(e) && Level(e) == 11)
    && MultiplicativeExpression(e) == (Grammatical(e) && Level(e) >= 10)
    && AdditiveExpression(e) == (Grammatical(e) && Level(e) >= 9)
    && ShiftExpression(e) == (Grammatical(e) && Level(e) >= 8)
    && RelationalExpression(e) == (Grammatical(e) && Level(e) >= 7)
    && EqualityExpression(e) == (Grammatical(e) && Level(e) >= 6)
    && AndExpression(e) == (Grammatical(e) && Level(e) >= 5)
    && ExclusiveOrExpression(e) == (Grammatical(e) && Level(e) >= 4)
    && InclusiveOrExpression(e) == (Grammatical(e) && Level(e) >= 3)
    && LogicalAndExpression(e) == (Grammatical(e) && Level(e) >= 2)
    && LogicalOrExpression(e) == (Grammatical(e) && Level(e) >= 1)
    && ConditionalExpression(e) == Grammatical(e)
  }

  lemma {:induction false} LevelsAreNonterminals(e: Tree)
    ensures LevelsMatch(e)
  {
    hide LevelsMatch;
    match e
    case Leaf(_) => OperandLevels(e);
    case Prefix(_, x) =>
      LevelsAreNonterminals(x);
      OperandLevels(e);
    case Paren(x) =>
      LevelsAreNonterminals(x);
      OperandLevels(e);
    case Infix(_, l, r) =>
      LevelsAreNonterminals(l);
      LevelsAreNonterminals(r);
      InfixLevels(e);
    case Ternary(c, t, f) =>
      LevelsAreNonterminals(c);
      LevelsAreNonterminals(t);
      LevelsAreNonterminals(f);
      TernaryLevels(e);
  }

  lemma {:induction false} OperandLevels(e: Tree)
    requires e.Leaf? || (e.Prefix? && LevelsMatch(e.operand)) || (e.Paren? && LevelsMatch(e.inner))
    ensures LevelsMatch(e)
  {
  }

  lemma {:induction false} InfixLevels(e: Tree)
    requires e.Infix? && LevelsMatch(e.lhs) && LevelsMatch(e.rhs)
    ensures LevelsMatch(e)
  {
  }

  lemma {:induction false} TernaryLevels(e: Tree)
    requires e.Ternary? && LevelsMatch(e.cond) && LevelsMatch(e.thn) && LevelsMatch(e.els)
    ensures LevelsMatch(e)
  {
  }

  /** How many levels of operand and conditional expression the tree needs below its own. */
  function Nesting(e: Tree): nat {
    match e
    case Leaf(_) => 1
    case Prefix(_, x) => 1 + Nesting(x)
    case Paren(x) => 2 + Nesting(x)
    case Infix(_, l, r) => Max(Nesting(l), Nesting(r))
    case Ternary(c, t, f) => Max(Nesting(c), 1 + Max(Nesting(t), Nesting(f)))
  }

  // ----- meaning -----

  /** The type of a tree, which does not depend on what is evaluated. */
  predicate Unsigned(e: Tree) {
    match e
    case Leaf(t) => t.Number? && t.value.Some? && t.value.value.isUnsigned
    case Prefix(op, x) => op != Not && Unsigned(x)
    case Paren(x) => Unsigned(x)
    case Infix(op, l, r) =>
      (match op
       case LogicalAnd | LogicalOr | Equal | NotEqual | Less | LessEqual | Greater | GreaterEqual => false
       case ShiftLeft | ShiftRight => Unsigned(l)
       case _ => Unsigned(l) || Unsigned(r))
    case Ternary(_, t, f) => Unsigned(t) || Unsigned(f)
  }

  function Constant(t: Token): int {
    match t
    case Number(Some(v)) => v.Number()
    case Character(Some(c)) => Bits(8, c)
    case _ => 0
  }

  function Negated(op: Operator, isUnsigned: bool, m: int): int {
    match op
    case Not => if m == 0 then 1 else 0
    case Minus => Wrap(isUnsigned, -m)
    case Complement => Wrap(isUnsigned, -m - 1)
    case _ => m
  }

  /** The number a tree stands for, or the first fault met evaluating it from left to right. Operands of &&, || and ?:
      that C does not evaluate cannot fault. */
  function Denote(e: Tree): Meaning {
    match e
    case Leaf(t) => Means(Constant(t))
    case Prefix(op, x) =>
      (match Denote(x)
       case Fault(p) => Fault(p)
       case Means(m) => Means(Negated(op, Unsigned(x), m)))
    case Paren(x) => Denote(x)
    case Infix(op, l, r) =>
      (match Denote(l)
       case Fault(p) => Fault(p)
       case Means(a) =>
         if op == LogicalAnd && a == 0 then Means(0)
         else if op == LogicalOr && a != 0 then Means(1)
         else
           match Denote(r)
           case Fault(p) => Fault(p)
           case Means(b) =>
             if op == LogicalAnd || op == LogicalOr then Truth(b != 0)
             else Compute(op, Unsigned(l), Unsigned(r), a, b))
    case Ternary(c, t, f) =>
      (match Denote(c)
       case Fault(p) => Fault(p)
       case Means(m) =>
         match Denote(if m != 0 then t else f)
         case Fault(p) => Fault(p)
         case Means(v) => Means(Wrap(Unsigned(e), v)))
  }

  // ----- reading a tree's tokens -----

  predicate PrintedAt(ts: seq<Token>, pos: nat, e: Tree) {
    pos + |Print(e)| <= |ts| && ts[pos..pos + |Print(e)|] == Print(e)
  }

  /** The precedence of what comes next; nothing counts as no operator. */
  function NextLevel(ts: seq<Token>, pos: nat): nat {
    if pos < |ts| then Precedence(ts[pos]) else 0
  }

  /** v has the tree's type and, if it was evaluated, its number. */
  ghost predicate Carries(e: Tree, evaluate: bool, v: Value) {
    v.isUnsigned == Unsigned(e) && (evaluate ==> Denote(e) == Means(v.Number()))
  }

  /** Reading e from s led to r: past its tokens with its value, or to the fault of evaluating it. */
  ghost predicate ReadTo(e: Tree, evaluate: bool, s: State, r: Result) {
    if evaluate && Denote(e).Fault? then r.next.problem == Some(Denote(e).problem)
    else r.next == State(s.pos + |Print(e)|, None) && Carries(e, evaluate, r.value)
  }

  lemma {:induction false} PrefixCarries(e: Tree, evaluate: bool, v: Value)
    requires e.Prefix? && IsPrefix(Punct(e.op)) && Carries(e.operand, evaluate, v)
    ensures Carries(e, evaluate, ApplyPrefix(e.op, v, evaluate))
  {
    hide Pow2;
    OneAndZero(false);
    ZeroNumber(v);
    NegatedNumber(v);
  }

  lemma {:induction false} NegatedNumber(v: Value)
    ensures Value(Bits(WIDTH, 0 - v.bits), v.isUnsigned).Number() == Wrap(v.isUnsigned, 0 - v.Number())
    ensures Value(Pow2(WIDTH) - 1 - v.bits, v.isUnsigned).Number() == Wrap(v.isUnsigned, 0 - v.Number() - 1)
  {
    hide Pow2;
    var m := Pow2(WIDTH);
    var k := ReadingOffset(!v.isUnsigned, WIDTH, v.bits);
    Congruent(0 - v.Number(), 0 - v.bits, 0 - k, m);
    var c := m - 1 - v.bits;
    Congruent(0 - v.Number() - 1, c, 0 - k - 1, m);
    UniqueRemainder(c, 0, c, m);
  }

  lemma {:induction false} LeafCarries(t: Token, evaluate: bool, v: Value)
    requires match t
             case Number(Some(n)) => v == n
             case Identifier => v == ZERO
             case Character(Some(c)) => v == Value(CharacterBits(c), false)
             case _ => false
    ensures Carries(Leaf(t), evaluate, v)
  {
    hide Pow2;
    OneAndZero(false);
    if t.Character? { CharacterFits(t.code.value); }
  }

  /** Applying an operator to the values of its operands. */
  lemma {:induction false} InfixCarries(e: Tree, evaluate: bool, left: Value, right: Value)
    requires e.Infix? && Level(e) > 0 && Carries(e.lhs, evaluate, left)
    requires Carries(e.rhs, RightActive(e.op, left, evaluate), right)
    ensures var a := Apply(e.op, left, right, evaluate);
            match a.problem
            case None => Carries(e, evaluate, a.value) && (evaluate ==> Denote(e).Means?)
            case Some(p) => evaluate && Denote(e) == Fault(p)
  {
    hide Pow2, Compute;
    OneAndZero(false);
    ZeroNumber(left);
    ZeroNumber(right);
    if evaluate && e.op != LogicalAnd && e.op != LogicalOr {
      ApplyMeans(e.op, left, right);
      AppliedType(e.op, left, right);
    }
  }

  lemma {:induction false} AppliedType(op: Operator, left: Value, right: Value)
    requires op != Not && op != Complement
    ensures var u := match op
                     case LogicalAnd | LogicalOr | Equal | NotEqual | Less | LessEqual | Greater | GreaterEqual => false
                     case ShiftLeft | ShiftRight => left.isUnsigned
                     case _ => left.isUnsigned || right.isUnsigned;
            Apply(op, left, right, true).problem == None ==> Apply(op, left, right, true).value.isUnsigned == u
  {
    hide Bitwise, Truncated, Pow2;
  }

  lemma {:induction false} InfixPrints(l: Tree, op: Operator, r: Tree)
    ensures Print(Infix(op, l, r)) == Print(l) + [Punct(op)] + Print(r)
  {
  }

  lemma {:induction false} TernaryPrints(c: Tree, t: Tree, f: Tree)
    ensures Print(Ternary(c, t, f)) == Print(c) + [Question] + Print(t) + [Colon] + Print(f)
  {
  }

  lemma {:induction false} InfixPrinted(ts: seq<Token>, pos: nat, e: Tree)
    requires e.Infix? && PrintedAt(ts, pos, e)
    ensures PrintedAt(ts, pos, e.lhs) && pos + |Print(e.lhs)| < |ts|
    ensures ts[pos + |Print(e.lhs)|] == Punct(e.op) && PrintedAt(ts, pos + |Print(e.lhs)| + 1, e.rhs)
    ensures |Print(e)| == |Print(e.lhs)| + 1 + |Print(e.rhs)|
  {
    hide Print;
    InfixPrints(e.lhs, e.op, e.rhs);
    SplitAtToken(ts, pos, pos + |Print(e)|, Print(e.lhs), Punct(e.op), Print(e.rhs));
  }

  lemma {:induction false} PrefixPrinted(ts: seq<Token>, pos: nat, e: Tree)
    requires e.Prefix? && PrintedAt(ts, pos, e)
    ensures ts[pos] == Punct(e.op) && PrintedAt(ts, pos + 1, e.operand) && |Print(e)| == 1 + |Print(e.operand)|
  {
    assert [Punct(e.op)] + Print(e.operand) == [] + [Punct(e.op)] + Print(e.operand);
    SplitAtToken(ts, pos, pos + |Print(e)|, [], Punct(e.op), Print(e.operand));
  }

  lemma {:induction false} ParenPrinted(ts: seq<Token>, pos: nat, e: Tree)
    requires e.Paren? && PrintedAt(ts, pos, e)
    ensures ts[pos] == LeftParen && PrintedAt(ts, pos + 1, e.inner) && |Print(e)| == |Print(e.inner)| + 2
    ensures pos + 1 + |Print(e.inner)| < |ts| && ts[pos + 1 + |Print(e.inner)|] == RightParen
  {
    var x := Print(e.inner);
    assert [LeftParen] + x + [RightParen] == ([LeftParen] + x) + [RightParen] + [];
    SplitAtToken(ts, pos, pos + |Print(e)|, [LeftParen] + x, RightParen, []);
    assert [LeftParen] + x == [] + [LeftParen] + x;
    SplitAtToken(ts, pos, pos + 1 + |x|, [], LeftParen, x);
  }

  lemma {:induction false} TernaryPrinted(ts: seq<Token>, pos: nat, e: Tree)
    requires e.Ternary? && PrintedAt(ts, pos, e)
    ensures var q := pos + |Print(e.cond)|;
            && PrintedAt(ts, pos, e.cond) && q < |ts| && ts[q] == Question && PrintedAt(ts, q + 1, e.thn)
            && var r := q + 1 + |Print(e.thn)|;
               && r < |ts| && ts[r] == Colon && PrintedAt(ts, r + 1, e.els)
               && pos + |Print(e)| == r + 1 + |Print(e.els)|
  {
    hide Print;
    TernaryPrints(e.cond, e.thn, e.els);
    var c, t, f := Print(e.cond), Print(e.thn), Print(e.els);
    var k := pos + |Print(e)|;
    SplitAtTokens(ts, pos, k, c, Question, t, Colon, f);
  }

  // ----- every derivation is read, with its meaning -----

  lemma {:induction false} ReadUnary(ts: seq<Token>, s: State, depth: nat, evaluate: bool, e: Tree)
    requires s.pos <= |ts| && s.problem == None && PrintedAt(ts, s.pos, e) && Grammatical(e) && Level(e) == 11
    requires depth + Nesting(e) <= LIMIT
    ensures ReadTo(e, evaluate, s, Unary(ts, s, depth, evaluate))
    decreases e, 1
  {
    hide ReadTo, PrintedAt, Unary;
    match e
    case Leaf(_) => ReadLeaf(ts, s, depth, evaluate, e);
    case Prefix(_, _) => ReadPrefix(ts, s, depth, evaluate, e);
    case Paren(_) => ReadParen(ts, s, depth, evaluate, e);
  }

  lemma {:induction false} ReadLeaf(ts: seq<Token>, s: State, depth: nat, evaluate: bool, e: Tree)
    requires s.pos <= |ts| && s.problem == None && PrintedAt(ts, s.pos, e) && e.Leaf? && IsConstant(e.token)
    requires depth + 1 <= LIMIT
    ensures ReadTo(e, evaluate, s, Unary(ts, s, depth, evaluate))
  {
    hide Carries, Constant, CharacterBits;
    assert ts[s.pos] == ts[s.pos..s.pos + 1][0] == e.token;
    LeafCarries(e.token, evaluate, Unary(ts, s, depth, evaluate).value);
  }

  lemma {:induction false} ReadPrefix(ts: seq<Token>, s: State, depth: nat, evaluate: bool, e: Tree)
    requires s.pos <= |ts| && s.problem == None && PrintedAt(ts, s.pos, e) && Grammatical(e) && e.Prefix?
    requires depth + Nesting(e) <= LIMIT
    ensures ReadTo(e, evaluate, s, Unary(ts, s, depth, evaluate))
    decreases e, 0
  {
    hide Carries, ApplyPrefix, PrintedAt, Print;
    PrefixPrinted(ts, s.pos, e);
    ReadUnary(ts, s.Advance(), depth + 1, evaluate, e.operand);
    var r := Unary(ts, s.Advance(), depth + 1, evaluate);
    if !(evaluate && Denote(e.operand).Fault?) { PrefixCarries(e, evaluate, r.value); }
  }

  lemma {:induction false} ReadParen(ts: seq<Token>, s: State, depth: nat, evaluate: bool, e: Tree)
    requires s.pos <= |ts| && s.problem == None && PrintedAt(ts, s.pos, e) && Grammatical(e) && e.Paren?
    requires depth + Nesting(e) <= LIMIT
    ensures ReadTo(e, evaluate, s, Unary(ts, s, depth, evaluate))
    decreases e, 0
  {
    hide Carries, PrintedAt, Print, Conditional;
    ParenPrinted(ts, s.pos, e);
    assert s.Advance().pos + |Print(e.inner)| == s.pos + 1 + |Print(e.inner)|;
    ReadConditional(ts, s.Advance(), depth + 1, evaluate, e.inner);
    var r := Conditional(ts, s.Advance(), depth + 1, evaluate);
    ParenCarries(e.inner, evaluate, r.value);
  }

  lemma {:induction false} ParenCarries(x: Tree, evaluate: bool, v: Value)
    ensures Carries(Paren(x), evaluate, v) == Carries(x, evaluate, v)
  {
  }

  lemma {:induction false} InfixParts(e: Tree)
    requires e.Infix? && Grammatical(e)
    ensures Grammatical(e.lhs) && Grammatical(e.rhs) && Level(e.lhs) >= Level(e) > 0 && Level(e.rhs) > Level(e)
    ensures Nesting(e.lhs) <= Nesting(e) && Nesting(e.rhs) <= Nesting(e)
    ensures Denote(e.lhs).Fault? ==> Denote(e) == Denote(e.lhs)
  {
    hide Compute;
  }

  /** An operator that binds tightly enough is taken in. */
  lemma {:induction false} ClimbGoesOn(ts: seq<Token>, left: Result, depth: nat, minimum: nat, evaluate: bool)
    requires left.next.pos < |ts| && Precedence(ts[left.next.pos]) >= minimum > 0 && left.next.problem == None
    ensures Climb(ts, left, depth, minimum, evaluate)
         == Climb(ts, ClimbOnce(ts, left, depth, evaluate), depth, minimum, evaluate)
  {
    hide ClimbOnce, Precedence;
  }

  /** A binary expression's tokens are read by the climbing loop, which then stands after them. */
  lemma {:induction false} ReadBinary(ts: seq<Token>, s: State, depth: nat, minimum: nat, evaluate: bool, e: Tree)
    returns (r: Result)
    requires s.pos <= |ts| && s.problem == None && PrintedAt(ts, s.pos, e) && Grammatical(e) && Level(e) >= minimum > 0
    requires depth + Nesting(e) <= LIMIT && NextLevel(ts, s.pos + |Print(e)|) <= Level(e)
    ensures ReadTo(e, evaluate, s, r) && s.pos <= r.next.pos <= |ts|
    ensures Binary(ts, s, depth, minimum, evaluate) == Climb(ts, r, depth, minimum, evaluate)
    decreases e, 2
  {
    hide Carries, PrintedAt, Print, Unary, ClimbOnce, Climb, Apply, Grammatical, Nesting, Denote, Precedence;
    if !e.Infix? {
      ReadUnary(ts, s, depth, evaluate, e);
      r := Unary(ts, s, depth, evaluate);
    } else {
      InfixParts(e);
      InfixPrinted(ts, s.pos, e);
      var left := ReadBinary(ts, s, depth, minimum, evaluate, e.lhs);
      if left.next.problem.Some? {
        r := left;
      } else {
        ReadRight(ts, s, depth, evaluate, e, left);
        ClimbGoesOn(ts, left, depth, minimum, evaluate);
        r := ClimbOnce(ts, left, depth, evaluate);
      }
    }
  }

  /** When what follows cannot continue the expression, that is all there is. */
  lemma {:induction false} ReadOperand(ts: seq<Token>, s: State, depth: nat, minimum: nat, evaluate: bool, e: Tree)
    requires s.pos <= |ts| && s.problem == None && PrintedAt(ts, s.pos, e) && Grammatical(e) && Level(e) >= minimum > 0
    requires depth + Nesting(e) <= LIMIT && NextLevel(ts, s.pos + |Print(e)|) < minimum
    ensures ReadTo(e, evaluate, s, Binary(ts, s, depth, minimum, evaluate))
    decreases e, 3
  {
    hide Carries, PrintedAt, Print, Unary, ClimbOnce, Denote, Grammatical, Nesting, Precedence, Level, Binary;
    var r := ReadBinary(ts, s, depth, minimum, evaluate, e);
    if r.next.problem.None? { ClimbStops(ts, r, depth, minimum, evaluate); }
  }

  lemma {:induction false} ReadRight(ts: seq<Token>, s: State, depth: nat, evaluate: bool, e: Tree, left: Result)
    requires s.pos <= |ts| && PrintedAt(ts, s.pos, e) && e.Infix? && Grammatical(e.rhs) && Level(e.rhs) > Level(e) > 0
    requires depth + Nesting(e.rhs) <= LIMIT && NextLevel(ts, s.pos + |Print(e)|) <= Level(e)
    requires ReadTo(e.lhs, evaluate, s, left) && left.next.problem == None
    ensures left.next.pos < |ts| && ts[left.next.pos] == Punct(e.op)
    ensures ReadTo(e, evaluate, s, ClimbOnce(ts, left, depth, evaluate))
    decreases e, 0
  {
    hide Carries, Apply, PrintedAt, Print, Unary, Denote, Climb, Binary, Grammatical, Nesting;
    InfixPrinted(ts, s.pos, e);
    var wanted := RightActive(e.op, left.value, evaluate);
    var next := left.next.Advance();
    assert next.pos + |Print(e.rhs)| == s.pos + |Print(e)|;
    ReadOperand(ts, next, depth, Level(e) + 1, wanted, e.rhs);
    var right := Binary(ts, next, depth, Level(e) + 1, wanted);
    if right.next.problem.Some? {
      RightFault(e, evaluate, left.value);
    } else {
      InfixCarries(e, evaluate, left.value, right.value);
    }
  }

  /** A fault in an operand that is wanted is a fault of the whole. */
  lemma {:induction false} RightFault(e: Tree, evaluate: bool, left: Value)
    requires e.Infix? && Carries(e.lhs, evaluate, left) && RightActive(e.op, left, evaluate) && Denote(e.rhs).Fault?
    ensures Denote(e) == Denote(e.rhs)
  {
    hide Pow2;
    ZeroNumber(left);
  }

  /** What may follow a conditional expression. */
  predicate Ends(ts: seq<Token>, pos: nat) {
    NextLevel(ts, pos) == 0 && !At(ts, State(pos, None), Question)
  }

  /** The branches of a conditional expression whose condition has been read. */
  function Branches(ts: seq<Token>, c: Result, depth: nat, evaluate: bool): Result
    requires c.next.pos < |ts|
  {
    var thn := Conditional(ts, c.next.Advance(), depth + 1, evaluate && c.value.bits != 0);
    var els := Conditional(ts, Expect(ts, thn.next, Colon, ExpectedColon), depth + 1, evaluate && c.value.bits == 0);
    Result(Value(if c.value.bits != 0 then thn.value.bits else els.value.bits, thn.value.isUnsigned ||
                 els.value.isUnsigned),
           els.next)
  }

  lemma {:induction false} ReadConditional(ts: seq<Token>, s: State, depth: nat, evaluate: bool, e: Tree)
    requires s.pos <= |ts| && s.problem == None && PrintedAt(ts, s.pos, e) && Grammatical(e)
    requires depth + 1 + Nesting(e) <= LIMIT && Ends(ts, s.pos + |Print(e)|)
    ensures ReadTo(e, evaluate, s, Conditional(ts, s, depth, evaluate))
    decreases e, 4
  {
    hide Carries, PrintedAt, Print, Binary, Precedence, Denote, Branches, Conditional;
    ConditionalStep(ts, s, depth, evaluate);
    if !e.Ternary? { ReadOperand(ts, s, depth + 1, 1, evaluate, e); } else { ReadTernary(ts, s, depth, evaluate, e); }
  }

  lemma {:induction false} ReadTernary(ts: seq<Token>, s: State, depth: nat, evaluate: bool, e: Tree)
    requires s.pos <= |ts| && s.problem == None && PrintedAt(ts, s.pos, e) && Grammatical(e) && e.Ternary?
    requires depth + 1 + Nesting(e) <= LIMIT && Ends(ts, s.pos + |Print(e)|)
    ensures ReadTo(e, evaluate, s, Conditional(ts, s, depth, evaluate))
    decreases e, 3
  {
    hide Carries, PrintedAt, Print, Binary, Precedence, Denote, Branches, Conditional, Ends;
    ConditionalStep(ts, s, depth, evaluate);
    var c := Binary(ts, s, depth + 1, 1, evaluate);
    ReadCondition(ts, s, depth, evaluate, e);
    ConditionFault(e);
    if c.next.problem.None? { ReadBranches(ts, s, depth, evaluate, e, c); }
  }

  lemma {:induction false} ConditionalStep(ts: seq<Token>, s: State, depth: nat, evaluate: bool)
    requires s.pos <= |ts| && depth + 1 <= LIMIT
    ensures var c, r := Binary(ts, s, depth + 1, 1, evaluate), Conditional(ts, s, depth, evaluate);
            r == if c.next.problem.Some? || !At(ts, c.next, Question) then c else Branches(ts, c, depth, evaluate)
  {
    hide Binary;
  }

  lemma {:induction false} ConditionFault(e: Tree)
    requires e.Ternary?
    ensures Denote(e.cond).Fault? ==> Denote(e) == Denote(e.cond)
  {
  }

  lemma {:induction false} ReadCondition(ts: seq<Token>, s: State, depth: nat, evaluate: bool, e: Tree)
    requires s.pos <= |ts| && s.problem == None && PrintedAt(ts, s.pos, e) && e.Ternary?
    requires Grammatical(e.cond) && Level(e.cond) > 0 && depth + 1 + Nesting(e.cond) <= LIMIT
    ensures ReadTo(e.cond, evaluate, s, Binary(ts, s, depth + 1, 1, evaluate))
    decreases e, 0
  {
    hide Carries, PrintedAt, Print, Binary, Denote, Grammatical, Nesting, Level;
    TernaryPrinted(ts, s.pos, e);
    assert Precedence(Question) == 0;
    ReadOperand(ts, s, depth + 1, 1, evaluate, e.cond);
  }

  lemma {:induction false} ColonEnds(ts: seq<Token>, pos: nat)
    requires pos < |ts| && ts[pos] == Colon
    ensures Ends(ts, pos)
  {
  }

  lemma {:induction false} ReadBranches(ts: seq<Token>, s: State, depth: nat, evaluate: bool, e: Tree, c: Result)
    requires s.pos <= |ts| && PrintedAt(ts, s.pos, e) && e.Ternary? && Grammatical(e.thn) && Grammatical(e.els)
    requires depth + 2 + Nesting(e.thn) <= LIMIT && depth + 2 + Nesting(e.els) <= LIMIT && Ends(ts, s.pos + |Print(e)|)
    requires ReadTo(e.cond, evaluate, s, c) && c.next.problem == None
    ensures At(ts, c.next, Question) && ReadTo(e, evaluate, s, Branches(ts, c, depth, evaluate))
    decreases e, 1
  {
    hide Carries, PrintedAt, Print, Denote, Conditional, Ends, Precedence, Grammatical, Nesting, Level;
    TernaryPrinted(ts, s.pos, e);
    var yes, no := evaluate && c.value.bits != 0, evaluate && c.value.bits == 0;
    var next := c.next.Advance();
    ColonEnds(ts, next.pos + |Print(e.thn)|);
    ReadConditional(ts, next, depth + 1, yes, e.thn);
    var thn := Conditional(ts, next, depth + 1, yes);
    if thn.next.problem.None? {
      ReadConditional(ts, thn.next.Advance(), depth + 1, no, e.els);
      var els := Conditional(ts, thn.next.Advance(), depth + 1, no);
      TernaryCarries(e, evaluate, c.value, thn.value, els.value, els.next.problem.Some?);
    } else {
      TernaryCarries(e, evaluate, c.value, thn.value, ZERO, true);
    }
  }

  lemma {:induction false} TernaryCarries(e: Tree, evaluate: bool, c: Value, thn: Value, els: Value, faulted: bool)
    requires e.Ternary? && Carries(e.cond, evaluate, c)
    requires !faulted ==> Carries(e.thn, evaluate && c.bits != 0, thn) && Carries(e.els, evaluate && c.bits == 0, els)
    ensures !faulted ==>
              Carries(e, evaluate, Value(if c.bits != 0 then thn.bits else els.bits, thn.isUnsigned || els.isUnsigned))
    ensures evaluate ==> Denote(e).Fault? == Denote(if c.bits != 0 then e.thn else e.els).Fault?
    ensures evaluate && Denote(e).Fault? ==> Denote(e) == Denote(if c.bits != 0 then e.thn else e.els)
  {
    hide Pow2;
    ZeroNumber(c);
    if !faulted { WrapNumber(if c.bits != 0 then thn else els, Unsigned(e)); }
  }

  // ----- whatever is read is a derivation -----

  lemma {:induction false} PrefixBuilds(ts: seq<Token>, i: nat, k: nat, op: Operator, x: Tree)
    requires i < k <= |ts| && ts[i] == Punct(op) && ts[i + 1..k] == Print(x)
    requires IsPrefix(Punct(op)) && Grammatical(x) && Level(x) == 11
    ensures var e := Prefix(op, x);
            ts[i..k] == Print(e) && Grammatical(e) && Level(e) == 11 && Nesting(e) == 1 + Nesting(x)
  {
    AroundToken(ts, i, i, k);
    assert ts[i..i] + [Punct(op)] == [Punct(op)];
  }

  lemma {:induction false} ParenBuilds(ts: seq<Token>, i: nat, k: nat, x: Tree)
    requires i < k < |ts| && ts[i] == LeftParen && ts[k] == RightParen && ts[i + 1..k] == Print(x) && Grammatical(x)
    ensures var e := Paren(x);
            ts[i..k + 1] == Print(e) && Grammatical(e) && Level(e) == 11 && Nesting(e) == 2 + Nesting(x)
  {
    AroundToken(ts, i, i, k);
    AroundToken(ts, i, k, k + 1);
    assert ts[i..i] + [LeftParen] == [LeftParen];
  }

  lemma {:induction false} InfixBuilds(ts: seq<Token>, i: nat, j: nat, k: nat, l: Tree, op: Operator, r: Tree)
    requires i <= j < k <= |ts| && ts[i..j] == Print(l) && ts[j] == Punct(op) && ts[j + 1..k] == Print(r)
    requires Grammatical(l) && Grammatical(r) && Level(l) >= Precedence(Punct(op)) > 0
    requires Level(r) > Precedence(Punct(op))
    ensures var e := Infix(op, l, r);
            && ts[i..k] == Print(e) && Grammatical(e) && Level(e) == Precedence(Punct(op))
            && Nesting(e) == Max(Nesting(l), Nesting(r))
  {
    hide Precedence;
    AroundToken(ts, i, j, k);
  }

  lemma {:induction false} TernaryGrammatical(c: Tree, t: Tree, f: Tree)
    requires Grammatical(c) && Level(c) > 0 && Grammatical(t) && Grammatical(f)
    ensures var e := Ternary(c, t, f);
            Grammatical(e) && Nesting(e) == Max(Nesting(c), 1 + Max(Nesting(t), Nesting(f)))
  {
  }

  lemma {:induction false} TernaryBuilds(ts: seq<Token>, i: nat, j: nat, k: nat, n: nat, c: Tree, t: Tree, f: Tree)
    requires i <= j < k < n <= |ts| && ts[j] == Question && ts[k] == Colon
    requires ts[i..j] == Print(c) && ts[j + 1..k] == Print(t) && ts[k + 1..n] == Print(f)
    requires Grammatical(c) && Level(c) > 0 && Grammatical(t) && Grammatical(f)
    ensures var e := Ternary(c, t, f);
            && ts[i..n] == Print(e) && Grammatical(e)
            && Nesting(e) == Max(Nesting(c), 1 + Max(Nesting(t), Nesting(f)))
  {
    TernaryGrammatical(c, t, f);
    hide Level, Print, Grammatical, Nesting;
    AroundTwoTokens(ts, i, j, k, n);
    TernaryPrints(c, t, f);
  }

  /** How an operand was read, if all went well. */
  lemma {:induction false} UnaryCases(ts: seq<Token>, s: State, depth: nat, evaluate: bool)
    requires s.pos <= |ts| && Unary(ts, s, depth, evaluate).next.problem == None
    ensures s.pos < |ts| && depth + 1 <= LIMIT
    ensures var next, t := Unary(ts, s, depth, evaluate).next, ts[s.pos];
            if IsPrefix(t) then next == Unary(ts, s.Advance(), depth + 1, evaluate).next
            else if t == LeftParen then
              var r := Conditional(ts, s.Advance(), depth + 1, evaluate).next;
              r.problem == None && At(ts, r, RightParen) && next == r.Advance()
            else IsConstant(t) && next == s.Advance()
  {
    hide Conditional, ApplyPrefix, CharacterBits;
  }

  lemma {:induction false} UnaryIsTree(ts: seq<Token>, s: State, depth: nat, evaluate: bool) returns (e: Tree)
    requires s.pos <= |ts| && Unary(ts, s, depth, evaluate).next.problem == None
    ensures Grammatical(e) && Level(e) == 11 && depth + Nesting(e) <= LIMIT
    ensures ts[s.pos..Unary(ts, s, depth, evaluate).next.pos] == Print(e)
    decreases |ts| - s.pos, 0
  {
    hide Print, Conditional, Unary, Grammatical, Level, Nesting;
    UnaryCases(ts, s, depth, evaluate);
    var r, t := Unary(ts, s, depth, evaluate), ts[s.pos];
    if IsPrefix(t) {
      var x := UnaryIsTree(ts, s.Advance(), depth + 1, evaluate);
      e := Prefix(t.op, x);
      PrefixBuilds(ts, s.pos, r.next.pos, t.op, x);
    } else if t == LeftParen {
      var x := ConditionalIsTree(ts, s.Advance(), depth + 1, evaluate);
      e := Paren(x);
      ParenBuilds(ts, s.pos, r.next.pos - 1, x);
    } else {
      e := Leaf(t);
      LeafBuilds(ts, s.pos);
    }
  }

  lemma {:induction false} LeafBuilds(ts: seq<Token>, i: nat)
    requires i < |ts| && IsConstant(ts[i])
    ensures var e := Leaf(ts[i]); ts[i..i + 1] == Print(e) && Grammatical(e) && Level(e) == 11 && Nesting(e) == 1
  {
  }

  lemma {:induction false} ClimbStops(ts: seq<Token>, left: Result, depth: nat, minimum: nat, evaluate: bool)
    requires left.next.pos <= |ts| && NextLevel(ts, left.next.pos) < minimum
    ensures Climb(ts, left, depth, minimum, evaluate) == left
  {
    hide ClimbOnce, Precedence;
  }

  lemma {:induction false} ClimbedOperand(ts: seq<Token>, left: Result, depth: nat, evaluate: bool)
    requires left.next.pos < |ts| && ts[left.next.pos].Punct?
    requires ClimbOnce(ts, left, depth, evaluate).next.problem == None
    ensures var t := ts[left.next.pos];
            var right := Binary(ts, left.next.Advance(), depth, Precedence(t) + 1,
                                RightActive(t.op, left.value, evaluate));
            right.next.problem == None && right.next.pos == ClimbOnce(ts, left, depth, evaluate).next.pos
  {
    hide Binary, Apply, Precedence;
  }

  /** The climbing loop turns the tree on its left into one that takes in every operator that belongs to it. */
  lemma {:induction false} ClimbIsTree(ts: seq<Token>, start: nat, left: Result, l: Tree, depth: nat, minimum: nat,
                                       evaluate: bool)
    returns (e: Tree)
    requires start <= left.next.pos <= |ts| && 0 < minimum <= 11
    requires ts[start..left.next.pos] == Print(l) && Grammatical(l) && Level(l) >= minimum
    requires depth + Nesting(l) <= LIMIT && NextLevel(ts, left.next.pos) <= Level(l)
    requires Climb(ts, left, depth, minimum, evaluate).next.problem == None
    ensures var r := Climb(ts, left, depth, minimum, evaluate);
            && Grammatical(e) && Level(e) >= minimum && depth + Nesting(e) <= LIMIT
            && ts[start..r.next.pos] == Print(e) && NextLevel(ts, r.next.pos) < minimum
    decreases |ts| - left.next.pos, 1
  {
    hide Precedence, Apply, Print, Grammatical, Level, Nesting, Binary, Climb, ClimbOnce;
    var pos := left.next.pos;
    if pos == |ts| || Precedence(ts[pos]) < minimum {
      ClimbStops(ts, left, depth, minimum, evaluate);
      e := l;
    } else {
      ClimbGoesOn(ts, left, depth, minimum, evaluate);
      var both := ClimbOnceIsTree(ts, start, left, l, depth, evaluate);
      e := ClimbIsTree(ts, start, ClimbOnce(ts, left, depth, evaluate), both, depth, minimum, evaluate);
    }
  }

  lemma {:induction false} ClimbOnceIsTree(ts: seq<Token>, start: nat, left: Result, l: Tree, depth: nat,
                                           evaluate: bool)
    returns (e: Tree)
    requires start <= left.next.pos < |ts| && ts[start..left.next.pos] == Print(l) && Grammatical(l)
    requires depth + Nesting(l) <= LIMIT && 0 < Precedence(ts[left.next.pos]) <= Level(l)
    requires ClimbOnce(ts, left, depth, evaluate).next.problem == None
    ensures var next := ClimbOnce(ts, left, depth, evaluate).next;
            && Grammatical(e) && Level(e) == Precedence(ts[left.next.pos]) && depth + Nesting(e) <= LIMIT
            && ts[start..next.pos] == Print(e) && NextLevel(ts, next.pos) <= Level(e)
    decreases |ts| - left.next.pos, 0
  {
    hide Precedence, Apply, Print, Grammatical, Level, Nesting, Binary, ClimbOnce;
    var pos := left.next.pos;
    var t := ts[pos];
    ClimbedOperand(ts, left, depth, evaluate);
    var r := BinaryIsTree(ts, left.next.Advance(), depth, Precedence(t) + 1, RightActive(t.op, left.value, evaluate));
    e := Infix(t.op, l, r);
    InfixBuilds(ts, start, pos, ClimbOnce(ts, left, depth, evaluate).next.pos, l, t.op, r);
  }

  lemma {:induction false} BinaryIsTree(ts: seq<Token>, s: State, depth: nat, minimum: nat,
                                        evaluate: bool) returns (e: Tree)
    requires s.pos <= |ts| && 0 < minimum <= 11 && Binary(ts, s, depth, minimum, evaluate).next.problem == None
    ensures var r := Binary(ts, s, depth, minimum, evaluate);
            && Grammatical(e) && Level(e) >= minimum && depth + Nesting(e) <= LIMIT
            && ts[s.pos..r.next.pos] == Print(e) && NextLevel(ts, r.next.pos) < minimum
    decreases |ts| - s.pos, 2
  {
    var l := UnaryIsTree(ts, s, depth, evaluate);
    e := ClimbIsTree(ts, s.pos, Unary(ts, s, depth, evaluate), l, depth, minimum, evaluate);
  }

  lemma {:induction false} WithinLimit(ts: seq<Token>, s: State, depth: nat, evaluate: bool)
    requires s.pos <= |ts| && Conditional(ts, s, depth, evaluate).next.problem == None
    ensures depth + 1 <= LIMIT
  {
    hide Binary;
  }

  lemma {:induction false} ConditionalIsTree(ts: seq<Token>, s: State, depth: nat, evaluate: bool) returns (e: Tree)
    requires s.pos <= |ts| && Conditional(ts, s, depth, evaluate).next.problem == None
    ensures Grammatical(e) && depth + 1 + Nesting(e) <= LIMIT
    ensures ts[s.pos..Conditional(ts, s, depth, evaluate).next.pos] == Print(e)
    decreases |ts| - s.pos, 3
  {
    hide Precedence, Binary, Print, Grammatical, Nesting, Level, Branches;
    WithinLimit(ts, s, depth, evaluate);
    hide Conditional;
    ConditionalStep(ts, s, depth, evaluate);
    var c := Binary(ts, s, depth + 1, 1, evaluate);
    e := BinaryIsTree(ts, s, depth + 1, 1, evaluate);
    if At(ts, c.next, Question) {
      e := BranchesAreTree(ts, s.pos, c, e, depth, evaluate);
    }
  }

  lemma {:induction false} BranchesCases(ts: seq<Token>, c: Result, depth: nat, evaluate: bool)
    requires c.next.pos < |ts| && Branches(ts, c, depth, evaluate).next.problem == None
    ensures var thn := Conditional(ts, c.next.Advance(), depth + 1, evaluate && c.value.bits != 0).next;
            && thn.problem == None && At(ts, thn, Colon)
            && Branches(ts, c, depth, evaluate).next == Conditional(ts, thn.Advance(), depth + 1, evaluate &&
                                                                    c.value.bits == 0).next
  {
    hide Conditional;
  }

  lemma {:induction false} BranchesAreTree(ts: seq<Token>, start: nat, c: Result, cond: Tree, depth: nat,
                                           evaluate: bool)
    returns (e: Tree)
    requires At(ts, c.next, Question) && Branches(ts, c, depth, evaluate).next.problem == None
    requires start <= c.next.pos && ts[start..c.next.pos] == Print(cond) && Grammatical(cond) && Level(cond) > 0
    requires depth + 1 + Nesting(cond) <= LIMIT
    ensures Grammatical(e) && depth + 1 + Nesting(e) <= LIMIT
    ensures ts[start..Branches(ts, c, depth, evaluate).next.pos] == Print(e)
    decreases |ts| - c.next.pos, 2
  {
    hide Conditional, Print, Branches, Grammatical, Level, Nesting;
    BranchesCases(ts, c, depth, evaluate);
    var yes, no := evaluate && c.value.bits != 0, evaluate && c.value.bits == 0;
    var thn := Conditional(ts, c.next.Advance(), depth + 1, yes);
    var after := Expect(ts, thn.next, Colon, ExpectedColon);
    var els := Conditional(ts, after, depth + 1, no);
    var t := ConditionalIsTree(ts, c.next.Advance(), depth + 1, yes);
    var f := ConditionalIsTree(ts, after, depth + 1, no);
    e := Ternary(cond, t, f);
    TernaryBuilds(ts, start, c.next.pos, thn.next.pos, els.next.pos, cond, t, f);
  }

  // ----- the evaluator is right -----

  /** e derives the whole list within the nesting limit. */
  predicate Derives(e: Tree, ts: seq<Token>) {
    ConditionalExpression(e) && Print(e) == ts && 1 + Nesting(e) <= LIMIT
  }

  function Answer(m: Meaning): Verdict {
    match m
    case Means(n) => Holds(n != 0)
    case Fault(p) => Rejected(p)
  }

  /** A derivable token list is answered with its meaning: the condition's value or its first fault. */
  lemma {:induction false} EvaluatesToMeaning(ts: seq<Token>, e: Tree)
    requires Derives(e, ts)
    ensures Evaluate(ts, None) == Answer(Denote(e))
  {
    hide Pow2, Conditional, Denote, Print, Grammatical, Nesting;
    assert ts[0..|Print(e)|] == Print(e);
    LevelsAreNonterminals(e);
    ReadConditional(ts, State(0, None), 0, true, e);
    var r := Conditional(ts, State(0, None), 0, true);
    ZeroNumber(r.value);
  }

  /** The evaluator gives a truth value exactly to the token lists that derive from the grammar within the nesting limit
      and have a meaning, and the truth value is the meaning's. */
  lemma {:induction false} EvaluatesExactly(ts: seq<Token>, holds: bool)
    ensures Evaluate(ts, None) == Holds(holds)
       <==> exists e :: Derives(e, ts) && Answer(Denote(e)) == Holds(holds)
  {
    if Evaluate(ts, None) == Holds(holds) {
      var e := ConditionalIsTree(ts, State(0, None), 0, true);
      assert ts[0..|ts|] == ts;
      LevelsAreNonterminals(e);
      assert Derives(e, ts);
      EvaluatesToMeaning(ts, e);
    }
    if exists e :: Derives(e, ts) && Answer(Denote(e)) == Holds(holds) {
      var e :| Derives(e, ts) && Answer(Denote(e)) == Holds(holds);
      EvaluatesToMeaning(ts, e);
    }
  }

  /** The grammar leaves no ambiguity that matters: two derivations of one list mean the same condition. */
  lemma {:induction false} MeaningIsUnique(ts: seq<Token>, e: Tree, e': Tree)
    requires Derives(e, ts) && Derives(e', ts)
    ensures Answer(Denote(e)) == Answer(Denote(e'))
  {
    EvaluatesToMeaning(ts, e);
    EvaluatesToMeaning(ts, e');
  }

  /** A fault in an operand that C does not evaluate goes unnoticed: read from the tokens, the right side of && after
      zero and of || after anything else, and the branch of ?: that is not taken, change nothing, whatever they divide
      or shift by. */
  lemma {:induction false} UnevaluatedCannotFault(c: Tree, l: Tree, r: Tree)
    ensures var e := Infix(LogicalAnd, l, r);
            Derives(e, Print(e)) && Denote(l) == Means(0) ==> Evaluate(Print(e), None) == Holds(false)
    ensures var e := Infix(LogicalOr, l, r);
            Derives(e, Print(e)) && Denote(l).Means? && Denote(l).number != 0 ==>
              Evaluate(Print(e), None) == Holds(true)
    ensures var e := Ternary(c, l, r);
            Derives(e, Print(e)) && Denote(c) == Means(0) && Denote(r).Means? ==> !Evaluate(Print(e), None).Rejected?
    ensures var e := Ternary(c, l, r);
            Derives(e, Print(e)) && Denote(c).Means? && Denote(c).number != 0 && Denote(l).Means? ==>
              !Evaluate(Print(e), None).Rejected?
  {
    hide Pow2, Compute, Wrap, Derives, Print, Evaluate;
    var both, either, choice := Infix(LogicalAnd, l, r), Infix(LogicalOr, l, r), Ternary(c, l, r);
    if Derives(both, Print(both)) { EvaluatesToMeaning(Print(both), both); }
    if Derives(either, Print(either)) { EvaluatesToMeaning(Print(either), either); }
    if Derives(choice, Print(choice)) { EvaluatesToMeaning(Print(choice), choice); }
  }

  /** With a problem already reported the answer is that problem. */
  lemma {:induction false} ReportedProblemStays(ts: seq<Token>, p: Problem)
    ensures Evaluate(ts, Some(p)) == Rejected(p)
  {
  }
}
