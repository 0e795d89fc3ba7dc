/** The evaluator of #if expressions: one pass over the tokens that parses by precedence climbing and evaluates as it
    goes, with a flag for operands whose value is not wanted. It is compared with expression trees and what C says they
    mean. */
module PPExpression {
  import opened Integers
  import opened Wrappers
  import opened PPValues

  /** Numbers and characters come decoded; None is one that does not decode. */
  datatype Token =
    | Number(value: Option<Value>)
    | Identifier
    | Character(code: Option<int>)
    | Punct(op: Operator)
    | LeftParen | RightParen | Question | Colon
    | Other

  const LIMIT: nat := 256

  /** Zero for what is no binary operator. */
  function Precedence(t: Token): (p: nat)
    ensures p <= 10 && (p > 0 ==> t.Punct? && t.op != Not && t.op != Complement)
  {
    if !t.Punct? then 0
    else
      match t.op
      case LogicalOr => 1
      case LogicalAnd => 2
      case BitOr => 3
      case BitXor => 4
      case BitAnd => 5
      case Equal => 6
      case NotEqual => 6
      case Less => 7
      case LessEqual => 7
      case Greater => 7
      case GreaterEqual => 7
      case ShiftLeft => 8
      case ShiftRight => 8
      case Plus => 9
      case Minus => 9
      case Times => 10
      case Divide => 10
      case Remainder => 10
      case _ => 0
  }

  predicate IsPrefix(t: Token) {
    t.Punct? && t.op in {Plus, Minus, Not, Complement}
  }

  /** A character constant's value is that of an unsigned char. */
  function CharacterBits(code: int): (b: Word) {
    CharacterFits(code);
    Bits(8, code)
  }

  lemma {:induction false} CharacterFits(code: int)
    ensures Bits(8, code) < Pow2(WIDTH - 1) <= Pow2(WIDTH)
  {
    Pow2Grows(8, WIDTH - 1);
    Pow2Grows(WIDTH - 1, WIDTH);
  }

  function ApplyPrefix(op: Operator, v: Value, evaluate: bool): Value {
    if op == Not then Flag(evaluate && v.bits == 0)
    else if !evaluate then Value(0, v.isUnsigned)
    else if op == Minus then Value(Bits(WIDTH, 0 - v.bits), v.isUnsigned)
    else if op == Complement then Value(Pow2(WIDTH) - 1 - v.bits, v.isUnsigned)
    else v
  }

  // ----- what the evaluator does, as functions -----

  /** The position in the token list and the first problem reported. */
  datatype State = State(pos: nat, problem: Option<Problem>) {
    function Advance(): State { this.(pos := pos + 1) }
    function Report(p: Problem): State { if problem.None? then this.(problem := Some(p)) else this }
    function ReportIf(p: Option<Problem>): State { if p.Some? then Report(p.value) else this }
  }

  datatype Result = Result(value: Value, next: State)

  predicate At(ts: seq<Token>, s: State, t: Token) {
    s.pos < |ts| && ts[s.pos] == t
  }

  /** Steps over t if it is next, and reports p if it is not. */
  function Expect(ts: seq<Token>, s: State, t: Token, p: Problem): State {
    if At(ts, s, t) then s.Advance() else s.Report(p)
  }

  /** Moves on inside the list; a problem once reported stays the one reported. */
  predicate Moves(ts: seq<Token>, s: State, s': State) {
    s.pos <= s'.pos <= |ts| && (s.problem.Some? ==> s'.problem == s.problem)
  }

  function Unary(ts: seq<Token>, s: State, depth: nat, evaluate: bool): (r: Result)
    requires s.pos <= |ts|
    ensures Moves(ts, s, r.next)
    decreases |ts| - s.pos, 0
  {
    if depth + 1 > LIMIT then Result(ZERO, s.Report(NestingLimit))
    else if s.pos == |ts| then Result(ZERO, s.Report(ExpectedExpression))
    else
      var t := ts[s.pos];
      if IsPrefix(t) then
        var r := Unary(ts, s.Advance(), depth + 1, evaluate);
        Result(ApplyPrefix(t.op, r.value, evaluate), r.next)
      else
        match t
        case LeftParen =>
          var r := Conditional(ts, s.Advance(), depth + 1, evaluate);
          Result(r.value, Expect(ts, r.next, RightParen, ExpectedParen))
        case Number(Some(v)) => Result(v, s.Advance())
        case Number(None) => Result(ZERO, s.Report(BadNumber).Advance())
        case Identifier => Result(ZERO, s.Advance())
        case Character(Some(c)) => Result(Value(CharacterBits(c), false), s.Advance())
        case Character(None) => Result(ZERO, s.Report(BadCharacter).Advance())
        case _ => Result(ZERO, s.Report(ExpectedExpression).Advance())
  }

  function Binary(ts: seq<Token>, s: State, depth: nat, minimum: nat, evaluate: bool): (r: Result)
    requires s.pos <= |ts| && minimum > 0
    ensures Moves(ts, s, r.next)
    decreases |ts| - s.pos, 1
  {
    var left := Unary(ts, s, depth, evaluate);
    Climb(ts, left, depth, minimum, evaluate)
  }

  /** Whether the value of an operator's right operand is wanted. */
  predicate RightActive(op: Operator, left: Value, evaluate: bool) {
    evaluate && !(op == LogicalAnd && left.bits == 0) && !(op == LogicalOr && left.bits != 0)
  }

  /** The rest of a binary expression whose left operand has been read. */
  function Climb(ts: seq<Token>, left: Result, depth: nat, minimum: nat, evaluate: bool): (r: Result)
    requires left.next.pos <= |ts| && minimum > 0
    ensures Moves(ts, left.next, r.next)
    decreases |ts| - left.next.pos, 0
  {
    var s := left.next;
    if s.problem.Some? || s.pos == |ts| || Precedence(ts[s.pos]) < minimum then left
    else Climb(ts, ClimbOnce(ts, left, depth, evaluate), depth, minimum, evaluate)
  }

  /** One operator and its right operand. */
  function ClimbOnce(ts: seq<Token>, left: Result, depth: nat, evaluate: bool): (r: Result)
    requires left.next.pos < |ts| && ts[left.next.pos].Punct?
    ensures Moves(ts, left.next.Advance(), r.next)
    decreases |ts| - left.next.pos - 1, 2
  {
    var t := ts[left.next.pos];
    var right := Binary(ts, left.next.Advance(), depth, Precedence(t) + 1, RightActive(t.op, left.value, evaluate));
    var applied := Apply(t.op, left.value, right.value, evaluate);
    Result(applied.value, right.next.ReportIf(applied.problem))
  }

  function Conditional(ts: seq<Token>, s: State, depth: nat, evaluate: bool): (r: Result)
    requires s.pos <= |ts|
    ensures Moves(ts, s, r.next)
    decreases |ts| - s.pos, 2
  {
    if depth + 1 > LIMIT then Result(ZERO, s.Report(NestingLimit))
    else
      var c := Binary(ts, s, depth + 1, 1, evaluate);
      if c.next.problem.Some? || !At(ts, c.next, Question) then c
      else
        var thn := Conditional(ts, c.next.Advance(), depth + 1, evaluate && c.value.bits != 0);
        var els := Conditional(ts, Expect(ts, thn.next, Colon, ExpectedColon), depth + 1, evaluate &&
                               c.value.bits == 0);
        Result(Value(if c.value.bits != 0 then thn.value.bits else els.value.bits, thn.value.isUnsigned ||
                     els.value.isUnsigned),
               els.next)
  }

  datatype Verdict = Holds(holds: bool) | Rejected(problem: Problem)

  function Evaluate(ts: seq<Token>, reported: Option<Problem>): Verdict {
    var r := Conditional(ts, State(0, reported), 0, true);
    var s := if r.next.pos != |ts| then r.next.Report(UnexpectedToken) else r.next;
    match s.problem
    case None => Holds(r.value.bits != 0)
    case Some(p) => Rejected(p)
  }

  // ----- the evaluator -----

  class Expression {
    const tokens: seq<Token>
    var pos: nat
    var depth: nat
    var problem: Option<Problem>

    constructor (tokens: seq<Token>, reported: Option<Problem>)
      ensures this.tokens == tokens && Now() == State(0, reported) && depth == 0
    {
      this.tokens := tokens;
      pos, depth, problem := 0, 0, reported;
    }

    ghost function Now(): State
      reads this
    {
      State(pos, problem)
    }

    /** Only the first problem is reported. */
    method Error(p: Problem)
      modifies `problem
      ensures Now() == old(Now()).Report(p)
    {
      if problem == None { problem := Some(p); }
    }

    method Match(t: Token) returns (matched: bool)
      requires pos <= |tokens|
      modifies `pos
      ensures matched == old(At(tokens, Now(), t))
      ensures Now() == if matched then old(Now()).Advance() else old(Now())
    {
      if pos == |tokens| || tokens[pos] != t { return false; }
      pos := pos + 1;
      return true;
    }

    method UnaryOperand(evaluate: bool) returns (v: Value)
      requires pos <= |tokens|
      modifies this
      ensures Result(v, Now()) == Unary(tokens, old(Now()), old(depth), evaluate) && depth == old(depth)
      decreases |tokens| - pos, 1
    {
      depth := depth + 1;
      if depth > LIMIT {
        Error(NestingLimit);
        v := ZERO;
      } else if pos == |tokens| {
        Error(ExpectedExpression);
        v := ZERO;
      } else {
        var t := tokens[pos];
        if IsPrefix(t) {
          pos := pos + 1;
          v := UnaryOperand(evaluate);
          v := ApplyPrefix(t.op, v, evaluate);
        } else {
          v := Primary(t, evaluate);
        }
      }
      depth := depth - 1;
    }

    method Primary(t: Token, evaluate: bool) returns (v: Value)
      requires pos < |tokens| && tokens[pos] == t && !IsPrefix(t) && 0 < depth <= LIMIT
      modifies this
      ensures Result(v, Now()) == Unary(tokens, old(Now()), old(depth) - 1, evaluate) && depth == old(depth)
      decreases |tokens| - pos, 0
    {
      var matched := Match(LeftParen);
      if matched {
        v := ConditionalExpression(evaluate);
        matched := Match(RightParen);
        if !matched { Error(ExpectedParen); }
        return;
      }
      v := ZERO;
      if t.Number? {
        if t.value.Some? { v := t.value.value; } else { Error(BadNumber); }
      } else if t.Character? {
        if t.code.Some? { v := Value(CharacterBits(t.code.value), false); } else { Error(BadCharacter); }
      } else if t != Identifier {
        Error(ExpectedExpression);
      }
      pos := pos + 1;
    }

    method BinaryExpression(minimum: nat, evaluate: bool) returns (left: Value)
      requires pos <= |tokens| && minimum > 0
      modifies this
      ensures Result(left, Now()) == Binary(tokens, old(Now()), old(depth), minimum, evaluate) && depth == old(depth)
      decreases |tokens| - pos, 2
    {
      hide Apply, Precedence, Unary, Conditional;
      ghost var start := pos;
      left := UnaryOperand(evaluate);
      while problem == None && pos < |tokens|
        invariant start <= pos <= |tokens| && depth == old(depth)
        invariant Climb(tokens, Result(left, Now()), depth, minimum, evaluate)
               == Binary(tokens, old(Now()), old(depth), minimum, evaluate)
        decreases |tokens| - pos
      {
        var t := tokens[pos];
        if Precedence(t) < minimum { break; }
        pos := pos + 1;
        var right := BinaryExpression(Precedence(t) + 1, RightActive(t.op, left, evaluate));
        var applied := Apply(t.op, left, right, evaluate);
        if applied.problem.Some? { Error(applied.problem.value); }
        left := applied.value;
      }
    }

    method ConditionalExpression(evaluate: bool) returns (v: Value)
      requires pos <= |tokens|
      modifies this
      ensures Result(v, Now()) == Conditional(tokens, old(Now()), old(depth), evaluate) && depth == old(depth)
      decreases |tokens| - pos, 3
    {
      depth := depth + 1;
      if depth > LIMIT {
        Error(NestingLimit);
        v := ZERO;
      } else {
        v := BinaryExpression(1, evaluate);
        var matched := false;
        if problem == None { matched := Match(Question); }
        if matched {
          var thn := ConditionalExpression(evaluate && v.bits != 0);
          matched := Match(Colon);
          if !matched { Error(ExpectedColon); }
          var els := ConditionalExpression(evaluate && v.bits == 0);
          v := Value(if v.bits != 0 then thn.bits else els.bits, thn.isUnsigned || els.isUnsigned);
        }
      }
      depth := depth - 1;
    }

    method EvaluateAll() returns (verdict: Verdict)
      requires pos == 0 && depth == 0
      modifies this
      ensures verdict == Evaluate(tokens, old(problem))
    {
      var v := ConditionalExpression(true);
      if pos != |tokens| { Error(UnexpectedToken); }
      verdict := match problem
                 case None => Holds(v.bits != 0)
                 case Some(p) => Rejected(p);
    }
  }
}
