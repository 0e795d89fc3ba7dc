/** Type analysis of expressions: what is accepted, what type it gets, and which conversions are written into it. */
module SemaExpr {
  import C = CAst
  import P = ParseExpr
  import opened Qualifiers
  import opened SemaConversions
  import opened SemaTree
  import opened SemaTypes
  import opened Wrappers

  /** What an expression is analyzed in. decode reads the spelling of a literal. */
  datatype Setting = Setting(platform: Platform, decode: string -> Literal, scopes: seq<Scope>) {
    predicate Valid() { platform.target.Valid() }
  }

  predicate Modifiable(e: Typed) {
    e.lval && !e.ty.quals.isConst && !e.ty.Array? && e.ty.IsComplete()
  }

  predicate ObjectPointer(t: Type) {
    t.Pointer? && t.pointee.IsComplete()
  }

  function SizeType(p: Platform, signed: bool): Type {
    if p.pointerBits == p.target.longBits then Integer(if signed then C.Long else C.ULong, NO_QUALS)
    else Integer(if signed then C.Int else C.UInt, NO_QUALS)
  }

  // ----- names and literals -----

  function AnalyzeLiteral(s: Setting, text: string): Option<Typed>
    requires s.Valid()
  {
    var literal := s.decode(text);
    match literal
    case IntegerLiteral(v, nondecimal, suffix) =>
      (match FirstFitting(s.platform, Candidates(nondecimal, suffix), v)
       case None => None
       case Some(k) => Some(Typed(Constant(text, literal), Integer(k, NO_QUALS), false)))
    case CharacterLiteral => Some(Typed(Constant(text, literal), INT, false))
    case FloatingLiteral(size) =>
      if size.None? then None else Some(Typed(Constant(text, literal), Floating(size.value, NO_QUALS), false))
    case StringLiteral(n) => Some(Typed(Constant(text, literal), Array(Integer(C.Char, NO_QUALS), n + 1, NO_QUALS),
                                        true))
  }

  function AnalyzeName(s: Setting, name: string): Option<Typed> {
    match Lookup(s.scopes, name)
    case None => None
    case Some(d) => if d.TypeName? then None else Some(Typed(Name(name, d), d.ty, !d.ty.Function?))
  }

  // ----- unary operators -----

  function AnalyzeUnary(op: P.UnaryOp, e: Typed): Option<Typed> {
    match op
    case Addr =>
      if !e.lval && !e.ty.Function? then None
      else if e.node.Name? && e.node.symbol.Variable? && !e.node.symbol.isParameter &&
        e.node.symbol.storage == Register then None
      else Some(Typed(Unary(op, e), PointerTo(e.ty), false))
    case PreInc | PreDec | PostInc | PostDec =>
      if !Modifiable(e) || !(e.ty.IsArithmetic() || ObjectPointer(e.ty)) then None
      else Some(Typed(Unary(op, e), Unqualified(e.ty), false))
    case Deref =>
      var v := Value(e);
      if !v.ty.Pointer? || v.ty.pointee.Void? then None
      else Some(Typed(Unary(op, v), v.ty.pointee, !v.ty.pointee.Function?))
    case Not =>
      var v := Value(e);
      if !v.ty.IsScalar() then None else Some(Typed(Unary(op, v), INT, false))
    case Pos | Neg | BitNot =>
      var v := Value(e);
      if !v.ty.IsArithmetic() || (op == P.BitNot && !v.ty.IsIntegral()) then None
      else
        var to := Promoted(v.ty);
        Some(Typed(Unary(op, if Compatible(to, v.ty, false) then v else Cast(v, to, Arithmetic)), to, false))
  }

  // ----- binary operators -----

  predicate IsAssignment(op: P.BinaryOp) {
    op in {P.SimpleAssign, P.AddAssign, P.SubAssign, P.TimesAssign, P.QuotAssign, P.RemAssign,
           P.AndAssign, P.OrAssign, P.XorAssign, P.ShiftLeftAssign, P.ShiftRightAssign}
  }

  /** The operation of a compound assignment. */
  function OperationOf(op: P.BinaryOp): P.BinaryOp {
    match op
    case AddAssign => P.Add
    case SubAssign => P.Sub
    case TimesAssign => P.Times
    case QuotAssign => P.Quot
    case RemAssign => P.Rem
    case AndAssign => P.BitAnd
    case OrAssign => P.BitOr
    case XorAssign => P.BitXor
    case ShiftLeftAssign => P.ShiftLeft
    case ShiftRightAssign => P.ShiftRight
    case _ => op
  }

  predicate IsComparison(op: P.BinaryOp) {
    op in {P.Equal, P.NotEqual, P.Less, P.Greater, P.LessEqual, P.GreaterEqual}
  }

  /** The type of the result, and what each operand is converted to, when it is. */
  datatype Rule = Rule(result: Type, left: Option<Type>, right: Option<Type>)

  /** The rule for an operator applied to two values; None when there is none. */
  function RuleFor(p: Platform, op: P.BinaryOp, l: Typed, r: Typed): Option<Rule>
    requires p.target.Valid()
  {
    var a, b := l.ty, r.ty;
    var common := if a.IsArithmetic() && b.IsArithmetic() then Some(UsualArithmetic(p, a, b)) else None;
    if op == P.Sequence then Some(Rule(b, None, None))
    else if op == P.And || op == P.Or then
      if a.IsScalar() && b.IsScalar() then Some(Rule(INT, None, None)) else None
    else if IsComparison(op) then
      if common.Some? then Some(Rule(INT, common, common)) else PointerComparison(op == P.Equal ||
          op == P.NotEqual, l, r)
    else if op == P.Add || op == P.Sub then
      if common.Some? then Some(Rule(common.value, common, common)) else PointerArithmetic(p, op, a, b)
    else if op == P.ShiftLeft || op == P.ShiftRight then
      if a.IsIntegral() && b.IsIntegral() then Some(Rule(Promoted(a), Some(Promoted(a)), Some(Promoted(b)))) else None
    else
      var integralOnly := op in {P.Rem, P.BitAnd, P.BitOr, P.BitXor};
      if common.Some? && (integralOnly ==>
                          a.IsIntegral() && b.IsIntegral()) then Some(Rule(common.value, common, common)) else None
  }

  function PointerComparison(equality: bool, l: Typed, r: Typed): Option<Rule> {
    var a, b := l.ty, r.ty;
    var common :=
      if a.Pointer? && b.Pointer? && (equality || (!a.pointee.Function? && !a.pointee.Void?)) then CommonPointer(a, b,
          equality)
      else None;
    if common.Some? then Some(Rule(INT, common, common))
    else if equality && a.Pointer? && NullConstant(r) then Some(Rule(INT, None, Some(a)))
    else if equality && b.Pointer? && NullConstant(l) then Some(Rule(INT, Some(b), None))
    else None
  }

  function PointerArithmetic(p: Platform, op: P.BinaryOp, a: Type, b: Type): Option<Rule> {
    if ObjectPointer(a) && b.IsIntegral() then Some(Rule(a, None, Some(Promoted(b))))
    else if op == P.Add && a.IsIntegral() && ObjectPointer(b) then Some(Rule(b, Some(Promoted(a)), None))
    else if op == P.Sub && ObjectPointer(a) && ObjectPointer(b) && Compatible(a.pointee, b.pointee, true) then
      Some(Rule(SizeType(p, true), None, None))
    else None
  }

  function Applied(e: Typed, to: Option<Type>): Option<Typed> {
    if to.None? then Some(e) else Convert(e, to.value)
  }

  datatype Operands = Operands(result: Type, left: Typed, right: Typed) | Incompatible

  function BinaryOperands(p: Platform, op: P.BinaryOp, lhs: Typed, rhs: Typed): Operands
    requires p.target.Valid()
  {
    match RuleFor(p, op, Value(lhs), Value(rhs))
    case None => Incompatible
    case Some(rule) =>
      var l, r := Applied(Value(lhs), rule.left), Applied(Value(rhs), rule.right);
      if l.Some? && r.Some? then Operands(rule.result, l.value, r.value) else Incompatible
  }

  function AnalyzeBinary(p: Platform, op: P.BinaryOp, lhs: Typed, rhs: Typed): Option<Typed>
    requires p.target.Valid()
  {
    if !IsAssignment(op) then
      match BinaryOperands(p, op, lhs, rhs)
      case Incompatible => None
      case Operands(result, l, r) => Some(Typed(Binary(op, l, r, None), result, false))
    else if !Modifiable(lhs) then None
    else if op == P.SimpleAssign then
      match Convert(rhs, lhs.ty)
      case None => None
      case Some(r) => Some(Typed(Binary(op, lhs, r, Some(Unqualified(lhs.ty))), Unqualified(lhs.ty), false))
    else
      match BinaryOperands(p, OperationOf(op), lhs, rhs)
      case Incompatible => None
      case Operands(result, _, r) =>
        if !(lhs.ty.IsArithmetic() && result.IsArithmetic()) && !Compatible(lhs.ty, result, true) then None
        else Some(Typed(Binary(op, lhs, r, Some(result)), Unqualified(lhs.ty), false))
  }

  // ----- the other operators -----

  /** The type two values of a conditional are brought to. */
  function CommonType(p: Platform, l: Typed, r: Typed): Option<Type>
    requires p.target.Valid()
  {
    var a, b := l.ty, r.ty;
    if a.IsArithmetic() && b.IsArithmetic() then Some(UsualArithmetic(p, a, b))
    else if a.Void? && b.Void? then Some(a)
    else if a.Pointer? && NullConstant(r) then Some(a)
    else if b.Pointer? && NullConstant(l) then Some(b)
    else if a.Pointer? && b.Pointer? then CommonPointer(a, b, true)
    else if Compatible(a, b, true) then Some(Unqualified(a))
    else None
  }

  function AnalyzeConditional(p: Platform, cond: Typed, thn: Typed, els: Typed): Option<Typed>
    requires p.target.Valid()
  {
    var c, l, r := Value(cond), Value(thn), Value(els);
    if !c.ty.IsScalar() then None
    else
      match CommonType(p, l, r)
      case None => None
      case Some(t) =>
        var l', r' := Convert(l, t), Convert(r, t);
        if l'.Some? && r'.Some? then Some(Typed(Ternary(c, l'.value, r'.value), t, false)) else None
  }

  /** The arguments converted to the parameters; those beyond a prototype are promoted. */
  function Arguments(args: seq<Typed>, params: seq<Type>): (r: Option<seq<Typed>>)
    ensures r.Some? ==> |r.value| == |args|
  {
    if args == [] then Some([])
    else
      var first := if params == [] then Some(DefaultPromote(args[0])) else Convert(args[0], params[0]);
      var rest := Arguments(args[1..], if params == [] then [] else params[1..]);
      if first.Some? && rest.Some? then Some([first.value] + rest.value) else None
  }

  function AnalyzeCall(callee: Typed, args: seq<Typed>): Option<Typed> {
    var f := Value(callee);
    if !f.ty.Pointer? || !f.ty.pointee.Function? then None
    else
      var fn := f.ty.pointee;
      if fn.hasPrototype && (|args| < |fn.params| || (!fn.variadic && |args| != |fn.params|)) then None
      else
        match Arguments(args, if fn.hasPrototype then fn.params else [])
        case None => None
        case Some(converted) =>
          if !fn.ret.Void? && !fn.ret.IsComplete() then None
          else Some(Typed(Call(f, converted), Unqualified(fn.ret), false))
  }

  function AnalyzeIndex(base: Typed, index: Typed): Option<Typed> {
    var a, b := Value(base), Value(index);
    var swapped := a.ty.IsIntegral() && b.ty.Pointer?;
    var pointer, integer := if swapped then b else a, if swapped then a else b;
    if !ObjectPointer(pointer.ty) || !integer.ty.IsIntegral() then None
    else
      match Convert(integer, Promoted(integer.ty))
      case None => None
      case Some(i) => Some(Typed(if swapped then Index(i, pointer) else Index(pointer, i), pointer.ty.pointee, true))
  }

  function AnalyzeSizeof(p: Platform, e: Typed): Option<Typed> {
    if Valid(e.ty) && e.ty.IsComplete() then Some(Typed(Sizeof(e), SizeType(p, false), false)) else None
  }

  /** The analyzed expression; None when an error is reported. */
  function Analyze(s: Setting, e: P.Expr): Option<Typed>
    requires s.Valid()
    decreases e
  {
    match e
    case Leaf(Ident(name)) => AnalyzeName(s, name)
    case Leaf(Literal(text)) => AnalyzeLiteral(s, text)
    case Leaf(_) => None
    case Unary(op, operand) =>
      (match Analyze(s, operand)
       case None => None
       case Some(t) => AnalyzeUnary(op, t))
    case Binary(op, lhs, rhs) =>
      var a, b := Analyze(s, lhs), Analyze(s, rhs);
      if a.Some? && b.Some? then AnalyzeBinary(s.platform, op, a.value, b.value) else None
    case Ternary(cond, thn, els) =>
      var c, a, b := Analyze(s, cond), Analyze(s, thn), Analyze(s, els);
      if c.Some? && a.Some? && b.Some? then AnalyzeConditional(s.platform, c.value, a.value, b.value) else None
    case Call(callee, args) =>
      var f, ts := Analyze(s, callee), AnalyzeAll(s, args);
      if f.Some? && ts.Some? then AnalyzeCall(f.value, ts.value) else None
    case Index(base, index) =>
      var a, b := Analyze(s, base), Analyze(s, index);
      if a.Some? && b.Some? then AnalyzeIndex(a.value, b.value) else None
    case Member(_, _, _) => None  // no struct or union is ever complete
    case Sizeof(sized) =>
      (match Analyze(s, sized)
       case None => None
       case Some(t) => AnalyzeSizeof(s.platform, t))
  }

  function AnalyzeAll(s: Setting, es: seq<P.Expr>): (r: Option<seq<Typed>>)
    requires s.Valid()
    ensures r.Some? ==> |r.value| == |es|
    decreases es
  {
    if es == [] then Some([])
    else
      var first, rest := Analyze(s, es[0]), AnalyzeAll(s, es[1..]);
      if first.Some? && rest.Some? then Some([first.value] + rest.value) else None
  }

  // ----- conversions whose outcome nobody looks at -----

  lemma {:induction false} ValueWellFormed(e: Typed)
    requires WellFormed(e.ty)
    ensures WellFormed(Value(e).ty)
  {
    QualifiedWellFormed(e.ty, NO_QUALS);
  }

  lemma {:induction false} IntegerConverts(e: Typed, to: Type)
    requires Value(e).ty.IsArithmetic() && to.IsArithmetic()
    ensures Convert(e, to).Some?
  {
  }

  lemma {:induction false} NullConverts(e: Typed, to: Type)
    requires to.Pointer? && NullConstant(Value(e))
    ensures Convert(e, to).Some?
  {
  }

  lemma {:induction false} PointersConvert(a: Typed, b: Typed, allowVoid: bool)
    requires Value(a) == a && Value(b) == b && a.ty.Pointer? && b.ty.Pointer? && WellFormed(a.ty) && WellFormed(b.ty)
    requires CommonPointer(a.ty, b.ty, allowVoid).Some?
    ensures var t := CommonPointer(a.ty, b.ty, allowVoid).value; Convert(a, t).Some? && Convert(b, t).Some?
  {
    CommonPointerConverts(a.ty, b.ty, allowVoid);
  }

  lemma {:induction false} PromotedArithmetic(t: Type)
    requires t.IsIntegral()
    ensures Promoted(t).IsArithmetic()
  {
  }

  /** Both values convert as the rule says. */
  predicate Converts(rule: Rule, l: Typed, r: Typed) {
    Applied(l, rule.left).Some? && Applied(r, rule.right).Some?
  }

  lemma {:induction false} ComparisonConverts(equality: bool, l: Typed, r: Typed)
    requires Value(l) == l && Value(r) == r && WellFormed(l.ty) && WellFormed(r.ty)
    requires PointerComparison(equality, l, r).Some?
    ensures Converts(PointerComparison(equality, l, r).value, l, r)
  {
    hide CommonPointer, Convert;
    if l.ty.Pointer? && NullConstant(r) { NullConverts(r, l.ty); }
    if r.ty.Pointer? && NullConstant(l) { NullConverts(l, r.ty); }
    if l.ty.Pointer? && r.ty.Pointer? && CommonPointer(l.ty, r.ty, equality).Some? { PointersConvert(l, r, equality); }
  }

  lemma {:induction false} OffsetConverts(p: Platform, op: P.BinaryOp, l: Typed, r: Typed)
    requires Value(l) == l && Value(r) == r && PointerArithmetic(p, op, l.ty, r.ty).Some?
    ensures Converts(PointerArithmetic(p, op, l.ty, r.ty).value, l, r)
  {
    hide Promoted, Convert;
    if l.ty.IsIntegral() { PromotedArithmetic(l.ty); IntegerConverts(l, Promoted(l.ty)); }
    if r.ty.IsIntegral() { PromotedArithmetic(r.ty); IntegerConverts(r, Promoted(r.ty)); }
  }

  lemma {:induction false} RuleConverts(p: Platform, op: P.BinaryOp, l: Typed, r: Typed)
    requires p.target.Valid() && Value(l) == l && Value(r) == r && WellFormed(l.ty) && WellFormed(r.ty)
    requires RuleFor(p, op, l, r).Some?
    ensures Converts(RuleFor(p, op, l, r).value, l, r)
  {
    hide UsualArithmetic, Convert, Promoted, PointerComparison, PointerArithmetic;
    if l.ty.IsArithmetic() && r.ty.IsArithmetic() {
      IntegerConverts(l, UsualArithmetic(p, l.ty, r.ty));
      IntegerConverts(r, UsualArithmetic(p, l.ty, r.ty));
    }
    if l.ty.IsIntegral() { PromotedArithmetic(l.ty); IntegerConverts(l, Promoted(l.ty)); }
    if r.ty.IsIntegral() { PromotedArithmetic(r.ty); IntegerConverts(r, Promoted(r.ty)); }
    var equality := op == P.Equal || op == P.NotEqual;
    if PointerComparison(equality, l, r).Some? { ComparisonConverts(equality, l, r); }
    if PointerArithmetic(p, op, l.ty, r.ty).Some? { OffsetConverts(p, op, l, r); }
  }

  /** Whenever there is a rule for a binary operator, both operands convert as it says. */
  lemma {:induction false} OperandsConvert(p: Platform, op: P.BinaryOp, lhs: Typed, rhs: Typed)
    requires p.target.Valid() && WellFormed(lhs.ty) && WellFormed(rhs.ty)
    ensures BinaryOperands(p, op, lhs, rhs).Operands? <==> RuleFor(p, op, Value(lhs), Value(rhs)).Some?
  {
    hide RuleFor, Convert;
    ValueTwice(lhs);
    ValueTwice(rhs);
    ValueWellFormed(lhs);
    ValueWellFormed(rhs);
    if RuleFor(p, op, Value(lhs), Value(rhs)).Some? { RuleConverts(p, op, Value(lhs), Value(rhs)); }
  }

  /** Whenever the operands of a conditional have a common type, both convert to it. */
  lemma {:induction false} ConditionalConverts(p: Platform, cond: Typed, thn: Typed, els: Typed)
    requires p.target.Valid() && WellFormed(thn.ty) && WellFormed(els.ty)
    ensures AnalyzeConditional(p, cond, thn, els).Some?
       <==> Value(cond).ty.IsScalar() && CommonType(p, Value(thn), Value(els)).Some?
  {
    hide CommonPointer, UsualArithmetic;
    var l, r := Value(thn), Value(els);
    ValueTwice(thn);
    ValueTwice(els);
    ValueWellFormed(thn);
    ValueWellFormed(els);
    if CommonType(p, l, r).None? { return; }
    var t := CommonType(p, l, r).value;
    if l.ty.IsArithmetic() && r.ty.IsArithmetic() {
      IntegerConverts(l, t);
      IntegerConverts(r, t);
    } else if l.ty.Pointer? && r.ty.Pointer? && !NullConstant(l) && !NullConstant(r) {
      PointersConvert(l, r, true);
    } else {
      UnqualifiedAlike(l.ty);
      if !l.ty.Pointer? && !r.ty.Pointer? && !l.ty.Void? { IgnoringQualifiers(l.ty, r.ty, Unqualified(l.ty)); }
      if r.ty.Pointer? { UnqualifiedAlike(r.ty); }
    }
  }
}
