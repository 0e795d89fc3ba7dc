/** What analysis preserves and establishes on expressions: it only adds to the tree, its types keep the invariant of
    qualified arrays, and the tree that code generation receives satisfies the contract it relies on. */
module SemaSoundness {
  import C = CAst
  import P = ParseExpr
  import opened Contract
  import opened Handover
  import opened Qualifiers
  import opened SemaConversions
  import opened SemaExpr
  import opened SemaTree
  import opened SemaTypes
  import opened Wrappers

  // ----- only additions -----

  lemma {:induction false} ValuePlain(e: Typed)
    ensures Plain(Value(e)) == Plain(e)
  {
  }

  lemma {:induction false} ConvertPlain(e: Typed, to: Type)
    requires Convert(e, to).Some?
    ensures Plain(Convert(e, to).value) == Plain(e)
  {
    ValuePlain(e);
  }

  lemma {:induction false} ArgumentsPlain(args: seq<Typed>, params: seq<Type>)
    requires Arguments(args, params).Some?
    ensures PlainAll(Arguments(args, params).value) == PlainAll(args)
    decreases args
  {
    if args != [] {
      var rest := if params == [] then [] else params[1..];
      ArgumentsPlain(args[1..], rest);
      ValuePlain(args[0]);
      if params != [] { ConvertPlain(args[0], params[0]); }
      assert Arguments(args, params).value[1..] == Arguments(args[1..], rest).value;
    }
  }

  lemma {:induction false} OperandsPlain(p: Platform, op: P.BinaryOp, l: Typed, r: Typed)
    requires p.target.Valid() && BinaryOperands(p, op, l, r).Operands?
    ensures Plain(BinaryOperands(p, op, l, r).left) == Plain(l) && Plain(BinaryOperands(p, op, l, r).right) == Plain(r)
  {
    hide RuleFor, Convert, Plain;
    ValuePlain(l);
    ValuePlain(r);
    var rule := RuleFor(p, op, Value(l), Value(r)).value;
    if rule.left.Some? { ConvertPlain(Value(l), rule.left.value); }
    if rule.right.Some? { ConvertPlain(Value(r), rule.right.value); }
  }

  lemma {:induction false} UnaryPlain(op: P.UnaryOp, e: Typed)
    requires AnalyzeUnary(op, e).Some?
    ensures Plain(AnalyzeUnary(op, e).value) == P.Unary(op, Plain(e))
  {
    ValuePlain(e);
  }

  lemma {:induction false} BinaryPlain(p: Platform, op: P.BinaryOp, l: Typed, r: Typed)
    requires p.target.Valid() && AnalyzeBinary(p, op, l, r).Some?
    ensures Plain(AnalyzeBinary(p, op, l, r).value) == P.Binary(op, Plain(l), Plain(r))
  {
    hide BinaryOperands, Convert;
    if !IsAssignment(op) {
      OperandsPlain(p, op, l, r);
    } else if op == P.SimpleAssign {
      ConvertPlain(r, l.ty);
    } else {
      OperandsPlain(p, OperationOf(op), l, r);
    }
  }

  lemma {:induction false} ConditionalPlain(p: Platform, c: Typed, l: Typed, r: Typed)
    requires p.target.Valid() && AnalyzeConditional(p, c, l, r).Some?
    ensures Plain(AnalyzeConditional(p, c, l, r).value) == P.Ternary(Plain(c), Plain(l), Plain(r))
  {
    hide CommonType, Convert;
    ValuePlain(c);
    ValuePlain(l);
    ValuePlain(r);
    var t := CommonType(p, Value(l), Value(r)).value;
    ConvertPlain(Value(l), t);
    ConvertPlain(Value(r), t);
  }

  lemma {:induction false} CallPlain(f: Typed, args: seq<Typed>)
    requires AnalyzeCall(f, args).Some?
    ensures Plain(AnalyzeCall(f, args).value) == P.Call(Plain(f), PlainAll(args))
  {
    hide Arguments;
    ValuePlain(f);
    var fn := Value(f).ty.pointee;
    ArgumentsPlain(args, if fn.hasPrototype then fn.params else []);
  }

  lemma {:induction false} IndexPlain(base: Typed, index: Typed)
    requires AnalyzeIndex(base, index).Some?
    ensures Plain(AnalyzeIndex(base, index).value) == P.Index(Plain(base), Plain(index))
  {
    hide Convert;
    var a, b := Value(base), Value(index);
    ValuePlain(base);
    ValuePlain(index);
    var integer := if a.ty.IsIntegral() && b.ty.Pointer? then a else b;
    ConvertPlain(integer, Promoted(integer.ty));
  }

  /** Without the added types, declarations and conversions, the analyzed tree is the parsed one. */
  lemma {:induction false} OnlyAdds(s: Setting, e: P.Expr)
    requires s.Valid() && Analyze(s, e).Some?
    ensures Plain(Analyze(s, e).value) == e
    decreases e
  {
    hide AnalyzeUnary, AnalyzeBinary, AnalyzeConditional, AnalyzeCall, AnalyzeIndex;
    match e
    case Leaf(_) =>
    case Unary(op, operand) => {
      OnlyAdds(s, operand);
      UnaryPlain(op, Analyze(s, operand).value);
    }
    case Binary(op, lhs, rhs) => {
      OnlyAdds(s, lhs);
      OnlyAdds(s, rhs);
      BinaryPlain(s.platform, op, Analyze(s, lhs).value, Analyze(s, rhs).value);
    }
    case Ternary(cond, thn, els) => {
      OnlyAdds(s, cond);
      OnlyAdds(s, thn);
      OnlyAdds(s, els);
      ConditionalPlain(s.platform, Analyze(s, cond).value, Analyze(s, thn).value, Analyze(s, els).value);
    }
    case Call(callee, args) => {
      OnlyAdds(s, callee);
      OnlyAddsAll(s, args);
      CallPlain(Analyze(s, callee).value, AnalyzeAll(s, args).value);
    }
    case Index(base, index) => {
      OnlyAdds(s, base);
      OnlyAdds(s, index);
      IndexPlain(Analyze(s, base).value, Analyze(s, index).value);
    }
    case Member(_, _, _) =>
    case Sizeof(sized) => OnlyAdds(s, sized);
  }

  lemma {:induction false} OnlyAddsAll(s: Setting, es: seq<P.Expr>)
    requires s.Valid() && AnalyzeAll(s, es).Some?
    ensures PlainAll(AnalyzeAll(s, es).value) == es
    decreases es
  {
    if es != [] {
      OnlyAdds(s, es[0]);
      OnlyAddsAll(s, es[1..]);
      assert AnalyzeAll(s, es).value[1..] == AnalyzeAll(s, es[1..]).value;
    }
  }

  // ----- qualified arrays -----

  lemma {:induction false} UnqualifiedWellFormed(t: Type)
    requires WellFormed(t)
    ensures WellFormed(Unqualified(t)) && WellFormed(Promoted(t))
  {
    QualifiedWellFormed(t, NO_QUALS);
  }

  lemma {:induction false} RuleWellFormed(p: Platform, op: P.BinaryOp, l: Typed, r: Typed)
    requires p.target.Valid() && WellFormed(l.ty) && WellFormed(r.ty) && RuleFor(p, op, l, r).Some?
    ensures WellFormed(RuleFor(p, op, l, r).value.result)
  {
    UnqualifiedWellFormed(l.ty);
  }

  lemma {:induction false} BinaryWellFormed(p: Platform, op: P.BinaryOp, l: Typed, r: Typed)
    requires p.target.Valid() && WellFormed(l.ty) && WellFormed(r.ty) && AnalyzeBinary(p, op, l, r).Some?
    ensures WellFormed(AnalyzeBinary(p, op, l, r).value.ty)
  {
    hide RuleFor, Convert;
    ValueWellFormed(l);
    ValueWellFormed(r);
    UnqualifiedWellFormed(l.ty);
    if !IsAssignment(op) { RuleWellFormed(p, op, Value(l), Value(r)); }
  }

  lemma {:induction false} ConditionalWellFormed(p: Platform, c: Typed, l: Typed, r: Typed)
    requires p.target.Valid() && WellFormed(l.ty) && WellFormed(r.ty) && AnalyzeConditional(p, c, l, r).Some?
    ensures WellFormed(AnalyzeConditional(p, c, l, r).value.ty)
  {
    hide Convert, CommonPointer;
    ValueWellFormed(l);
    ValueWellFormed(r);
    UnqualifiedWellFormed(Value(l).ty);
    if Value(l).ty.Pointer? && Value(r).ty.Pointer? && CommonPointer(Value(l).ty, Value(r).ty, true).Some? {
      CommonPointerConverts(Value(l).ty, Value(r).ty, true);
    }
  }

  /** Declared types are well formed, and so is the type of every analyzed expression; so the conversions of
      OperandsConvert and ConditionalConverts succeed wherever they are written. */
  lemma {:induction false} AnalyzedWellFormed(s: Setting, e: P.Expr)
    requires s.Valid() && Analyze(s, e).Some?
    ensures WellFormed(Analyze(s, e).value.ty)
    decreases e
  {
    hide AnalyzeBinary, AnalyzeConditional, Convert, Arguments;
    match e
    case Leaf(_) =>
    case Unary(op, operand) => {
      AnalyzedWellFormed(s, operand);
      var t := Analyze(s, operand).value;
      ValueWellFormed(t);
      UnqualifiedWellFormed(t.ty);
      UnqualifiedWellFormed(Value(t).ty);
    }
    case Binary(op, lhs, rhs) => {
      AnalyzedWellFormed(s, lhs);
      AnalyzedWellFormed(s, rhs);
      BinaryWellFormed(s.platform, op, Analyze(s, lhs).value, Analyze(s, rhs).value);
    }
    case Ternary(cond, thn, els) => {
      AnalyzedWellFormed(s, thn);
      AnalyzedWellFormed(s, els);
      ConditionalWellFormed(s.platform, Analyze(s, cond).value, Analyze(s, thn).value, Analyze(s, els).value);
    }
    case Call(callee, _) => {
      AnalyzedWellFormed(s, callee);
      ValueWellFormed(Analyze(s, callee).value);
      UnqualifiedWellFormed(Value(Analyze(s, callee).value).ty.pointee.ret);
    }
    case Index(base, index) => {
      AnalyzedWellFormed(s, base);
      AnalyzedWellFormed(s, index);
      ValueWellFormed(Analyze(s, base).value);
      ValueWellFormed(Analyze(s, index).value);
    }
    case Member(_, _, _) =>
    case Sizeof(_) =>
  }

  /** A binary operator is accepted exactly when its operands are and there is a rule for their values: converting the
      operands, whose outcome nobody looks at, never fails. */
  lemma {:induction false} BinaryAcceptedByRule(s: Setting, op: P.BinaryOp, lhs: P.Expr, rhs: P.Expr)
    requires s.Valid() && !IsAssignment(op)
    ensures var a, b := Analyze(s, lhs), Analyze(s, rhs);
            (Analyze(s, P.Binary(op, lhs, rhs)).Some? <==>
               a.Some? && b.Some? && RuleFor(s.platform, op, Value(a.value), Value(b.value)).Some?)
  {
    hide RuleFor, BinaryOperands;
    var a, b := Analyze(s, lhs), Analyze(s, rhs);
    if a.Some? && b.Some? {
      AnalyzedWellFormed(s, lhs);
      AnalyzedWellFormed(s, rhs);
      OperandsConvert(s.platform, op, a.value, b.value);
    }
  }

  /** The same for the two branches of a conditional. */
  lemma {:induction false} ConditionalAcceptedByType(s: Setting, cond: P.Expr, thn: P.Expr, els: P.Expr)
    requires s.Valid()
    ensures var c, a, b := Analyze(s, cond), Analyze(s, thn), Analyze(s, els);
            (Analyze(s, P.Ternary(cond, thn, els)).Some? <==>
               && c.Some? && a.Some? && b.Some? && Value(c.value).ty.IsScalar()
               && CommonType(s.platform, Value(a.value), Value(b.value)).Some?)
  {
    hide CommonType, AnalyzeConditional;
    var c, a, b := Analyze(s, cond), Analyze(s, thn), Analyze(s, els);
    if c.Some? && a.Some? && b.Some? {
      AnalyzedWellFormed(s, thn);
      AnalyzedWellFormed(s, els);
      ConditionalConverts(s.platform, c.value, a.value, b.value);
    }
  }

  // ----- the contract of code generation -----

  lemma {:induction false} UnqualifiedErased(t: Type)
    ensures EraseBase(Unqualified(t)) == EraseBase(t) && Unqualified(t).quals == NO_QUALS
    ensures EraseType(Unqualified(t)) == EraseBase(t)
  {
  }

  lemma {:induction false} ErasedAsBase(t: Type)
    ensures EraseType(t) == EraseBase(t) || EraseType(t) == C.Other
    ensures t.quals == NO_QUALS ==> EraseType(t) == EraseBase(t)
    ensures t.Pointer? ==> EraseBase(t).Pointer?
    ensures Promoted(t).quals == NO_QUALS
  {
  }

  lemma {:induction false} CompatibleErased(a: Type, b: Type, ignoreQuals: bool)
    requires Compatible(a, b, ignoreQuals)
    ensures EraseBase(a) == EraseBase(b) && (!ignoreQuals ==> EraseType(a) == EraseType(b))
    decreases a
  {
    if a.Pointer? { CompatibleErased(a.pointee, b.pointee, false); }
  }

  /** What code generation may assume of an analyzed expression; and a value that is not an object has no qualifiers. */
  predicate Sound(ctx: C.Context, scope: set<C.Decl>, t: Typed) {
    && Checked(ctx, scope, Erase(t)) && C.TypeOf(Erase(t)) == EraseType(t.ty)
    && (!t.lval && !t.ty.Array? && !t.ty.Function? ==> t.ty.quals == NO_QUALS)
  }

  predicate SoundAll(ctx: C.Context, scope: set<C.Decl>, ts: seq<Typed>) {
    forall t :: t in ts ==> Sound(ctx, scope, t)
  }

  lemma {:induction false} ValueSound(ctx: C.Context, scope: set<C.Decl>, e: Typed)
    requires Sound(ctx, scope, e)
    ensures Sound(ctx, scope, Value(e)) && Value(e).ty.quals == NO_QUALS
  {
    UnqualifiedErased(e.ty);
  }

  lemma {:induction false} ConvertSound(ctx: C.Context, scope: set<C.Decl>, e: Typed, to: Type)
    requires Sound(ctx, scope, e) && Convert(e, to).Some?
    ensures Sound(ctx, scope, Convert(e, to).value) && EraseType(Convert(e, to).value.ty) == EraseBase(to)
  {
    hide Value, Compatible, Unqualified;
    var v := Value(e);
    ValueSound(ctx, scope, e);
    UnqualifiedErased(to);
    ErasedAsBase(v.ty);
    ErasedAsBase(Unqualified(to));
    if Compatible(Unqualified(to), v.ty, true) { CompatibleErased(Unqualified(to), v.ty, true); }
  }

  lemma {:induction false} LocalInScope(scopes: seq<Scope>, name: string)
    requires Lookup(scopes, name).Some? && IsLocal(Lookup(scopes, name).value)
    ensures Declared(Lookup(scopes, name).value) in Locals(scopes)
    decreases |scopes|
  {
    if name !in scopes[|scopes| - 1] { LocalInScope(scopes[..|scopes| - 1], name); }
  }

  lemma {:induction false} OperandsSound(ctx: C.Context, scope: set<C.Decl>, p: Platform, op: P.BinaryOp, l: Typed,
                                         r: Typed)
    requires p.target.Valid() && Sound(ctx, scope, l) && Sound(ctx, scope, r) && BinaryOperands(p, op, l, r).Operands?
    ensures var o := BinaryOperands(p, op, l, r);
            && Sound(ctx, scope, o.left) && Sound(ctx, scope, o.right) && o.result.quals == NO_QUALS
            && (IsComparison(op) ==> o.result == INT && EraseType(o.left.ty) == EraseType(o.right.ty))
            && (op in {P.Add, P.Sub, P.Times} ==>
                  || o.left.ty.Pointer? || o.right.ty.Pointer?
                  || EraseType(o.left.ty) == EraseType(o.right.ty) == EraseType(o.result))
  {
    hide Sound, Applied, Value, UsualArithmetic, CommonPointer, Promoted, NullConstant, Compatible;
    ValueSound(ctx, scope, l);
    ValueSound(ctx, scope, r);
    ErasedAsBase(Value(l).ty);
    ErasedAsBase(Value(r).ty);
    var rule := RuleFor(p, op, Value(l), Value(r)).value;
    AppliedSound(ctx, scope, Value(l), rule.left);
    AppliedSound(ctx, scope, Value(r), rule.right);
  }

  lemma {:induction false} AppliedSound(ctx: C.Context, scope: set<C.Decl>, e: Typed, to: Option<Type>)
    requires Sound(ctx, scope, e) && Applied(e, to).Some?
    ensures Sound(ctx, scope, Applied(e, to).value) && (to.None? ==> Applied(e, to) == Some(e))
    ensures to.Some? ==> EraseType(Applied(e, to).value.ty) == EraseBase(to.value)
  {
    hide Sound, Convert;
    if to.Some? { ConvertSound(ctx, scope, e, to.value); }
  }

  lemma {:induction false} NodeSound(ctx: C.Context, scope: set<C.Decl>, op: P.BinaryOp, l: Typed, r: Typed,
                                     computation: Option<Type>, ty: Type)
    requires Sound(ctx, scope, l) && Sound(ctx, scope, r)
    requires IsComparison(op) ==> ty == INT && EraseType(l.ty) == EraseType(r.ty)
    requires op in {P.Add, P.Sub, P.Times} ==>
               l.ty.Pointer? || r.ty.Pointer? || EraseType(l.ty) == EraseType(r.ty) == EraseType(ty)
    requires op == P.SimpleAssign ==> EraseType(l.ty) == EraseType(r.ty) == EraseType(ty) || EraseType(l.ty) == C.Other
    requires ty.quals == NO_QUALS
    ensures Sound(ctx, scope, Typed(Binary(op, l, r, computation), ty, false))
  {
  }

  lemma {:induction false} BinarySound(ctx: C.Context, scope: set<C.Decl>, p: Platform, op: P.BinaryOp, l: Typed,
                                       r: Typed)
    requires p.target.Valid() && Sound(ctx, scope, l) && Sound(ctx, scope, r) && AnalyzeBinary(p, op, l, r).Some?
    ensures Sound(ctx, scope, AnalyzeBinary(p, op, l, r).value)
  {
    hide BinaryOperands, Convert, Sound, EraseType;
    UnqualifiedErased(l.ty);
    ErasedAsBase(l.ty);
    if !IsAssignment(op) {
      OperandsSound(ctx, scope, p, op, l, r);
      var o := BinaryOperands(p, op, l, r);
      NodeSound(ctx, scope, op, o.left, o.right, None, o.result);
    } else if op == P.SimpleAssign {
      ConvertSound(ctx, scope, r, l.ty);
      NodeSound(ctx, scope, op, l, Convert(r, l.ty).value, Some(Unqualified(l.ty)), Unqualified(l.ty));
    } else {
      OperandsSound(ctx, scope, p, OperationOf(op), l, r);
      var o := BinaryOperands(p, OperationOf(op), l, r);
      NodeSound(ctx, scope, op, l, o.right, Some(o.result), Unqualified(l.ty));
    }
  }

  lemma {:induction false} UnarySound(ctx: C.Context, scope: set<C.Decl>, op: P.UnaryOp, e: Typed)
    requires Sound(ctx, scope, e) && AnalyzeUnary(op, e).Some?
    ensures Sound(ctx, scope, AnalyzeUnary(op, e).value)
  {
    hide Value, Promoted, Compatible;
    ValueSound(ctx, scope, e);
    UnqualifiedErased(e.ty);
    ErasedAsBase(e.ty);
    ErasedAsBase(Value(e).ty);
    ErasedAsBase(PointerTo(e.ty));
  }

  lemma {:induction false} CommonUnqualified(p: Platform, l: Typed, r: Typed)
    requires p.target.Valid() && CommonType(p, l, r).Some?
    ensures l.ty.quals == NO_QUALS && r.ty.quals == NO_QUALS ==> CommonType(p, l, r).value.quals == NO_QUALS
  {
    UnqualifiedErased(l.ty);
  }

  lemma {:induction false} ConditionalSound(ctx: C.Context, scope: set<C.Decl>, p: Platform, c: Typed, l: Typed,
                                            r: Typed)
    requires p.target.Valid() && Sound(ctx, scope, c) && Sound(ctx, scope, l) && Sound(ctx, scope, r)
    requires AnalyzeConditional(p, c, l, r).Some?
    ensures Sound(ctx, scope, AnalyzeConditional(p, c, l, r).value)
  {
    hide Value, Convert, CommonType;
    CommonUnqualified(p, Value(l), Value(r));
    ValueSound(ctx, scope, c);
    ValueSound(ctx, scope, l);
    ValueSound(ctx, scope, r);
    var t := CommonType(p, Value(l), Value(r)).value;
    ConvertSound(ctx, scope, Value(l), t);
    ConvertSound(ctx, scope, Value(r), t);
  }

  lemma {:induction false} IndexSound(ctx: C.Context, scope: set<C.Decl>, base: Typed, index: Typed)
    requires Sound(ctx, scope, base) && Sound(ctx, scope, index) && AnalyzeIndex(base, index).Some?
    ensures Sound(ctx, scope, AnalyzeIndex(base, index).value)
  {
    hide Value, Convert, Promoted;
    ValueSound(ctx, scope, base);
    ValueSound(ctx, scope, index);
    var a, b := Value(base), Value(index);
    var integer := if a.ty.IsIntegral() && b.ty.Pointer? then a else b;
    ConvertSound(ctx, scope, integer, Promoted(integer.ty));
  }

  lemma {:induction false} PromoteSound(ctx: C.Context, scope: set<C.Decl>, e: Typed)
    requires Sound(ctx, scope, e)
    ensures Sound(ctx, scope, DefaultPromote(e))
  {
    hide Value, Promoted, Compatible;
    ValueSound(ctx, scope, e);
    ErasedAsBase(Value(e).ty);
  }

  lemma {:induction false} ArgumentsSound(ctx: C.Context, scope: set<C.Decl>, args: seq<Typed>, params: seq<Type>)
    requires SoundAll(ctx, scope, args) && Arguments(args, params).Some?
    ensures var r := Arguments(args, params).value;
            && SoundAll(ctx, scope, r)
            && (|args| == |params| ==> forall i :: 0 <= i < |r| ==> EraseType(r[i].ty) == EraseBase(params[i]))
    decreases args
  {
    hide Convert, Value, Promoted, Compatible;
    if args != [] {
      var rest := if params == [] then [] else params[1..];
      ArgumentsSound(ctx, scope, args[1..], rest);
      if params == [] { PromoteSound(ctx, scope, args[0]); } else { ConvertSound(ctx, scope, args[0], params[0]); }
      assert Arguments(args, params).value[1..] == Arguments(args[1..], rest).value;
    }
  }

  lemma {:induction false} ErasedAll(ts: seq<Typed>, i: nat)
    requires i < |ts|
    ensures EraseAll(ts)[i] == Erase(ts[i])
  {
    if i > 0 { ErasedAll(ts[1..], i - 1); }
  }

  lemma {:induction false} CallSound(ctx: C.Context, scope: set<C.Decl>, f: Typed, args: seq<Typed>)
    requires Sound(ctx, scope, f) && SoundAll(ctx, scope, args) && AnalyzeCall(f, args).Some? && !f.node.Implicit?
    requires f.node.Name? && f.node.symbol.Routine? ==> f.ty == f.node.symbol.ty && AgreesOn(ctx, f.node.name, f.ty)
    ensures Sound(ctx, scope, AnalyzeCall(f, args).value)
  {
    hide Arguments;
    ValueSound(ctx, scope, f);
    var fn := Value(f).ty.pointee;
    var params := if fn.hasPrototype then fn.params else [];
    ArgumentsSound(ctx, scope, args, params);
    UnqualifiedErased(fn.ret);
    var converted := Arguments(args, params).value;
    forall i | 0 <= i < |converted|
      ensures C.TypeOf(EraseAll(converted)[i]) == EraseType(converted[i].ty)
    {
      ErasedAll(converted, i);
      assert converted[i] in converted;
    }
    forall a | a in EraseAll(converted)
      ensures Checked(ctx, scope, a)
    {
      var i :| 0 <= i < |converted| && EraseAll(converted)[i] == a;
      ErasedAll(converted, i);
      assert converted[i] in converted;
    }
  }

  lemma {:induction false} NameFound(s: Setting, e: P.Expr)
    requires s.Valid() && Analyze(s, e).Some?
    ensures var t := Analyze(s, e).value;
            && !t.node.Implicit?
            && (t.node.Name? ==> Lookup(s.scopes, t.node.name) == Some(t.node.symbol) && t.ty == t.node.symbol.ty)
  {
  }

  lemma {:induction false} LeafSound(ctx: C.Context, s: Setting, token: P.Token)
    requires s.Valid() && Agrees(ctx, s.scopes) && Analyze(s, P.Leaf(token)).Some?
    ensures Sound(ctx, Locals(s.scopes), Analyze(s, P.Leaf(token)).value)
  {
    ErasedAsBase(Analyze(s, P.Leaf(token)).value.ty);
    if token.Ident? && IsLocal(Lookup(s.scopes, token.name).value) { LocalInScope(s.scopes, token.name); }
  }

  /** Every node is typed and resolved, and the types that code generation compares agree. */
  lemma {:induction false} AnalyzedSound(ctx: C.Context, s: Setting, e: P.Expr)
    requires s.Valid() && Agrees(ctx, s.scopes) && Analyze(s, e).Some?
    ensures Sound(ctx, Locals(s.scopes), Analyze(s, e).value)
    decreases e
  {
    hide AnalyzeUnary, AnalyzeBinary, AnalyzeConditional, AnalyzeCall, AnalyzeIndex;
    var scope := Locals(s.scopes);
    match e
    case Leaf(token) => LeafSound(ctx, s, token);
    case Unary(op, operand) => {
      AnalyzedSound(ctx, s, operand);
      UnarySound(ctx, scope, op, Analyze(s, operand).value);
    }
    case Binary(op, lhs, rhs) => {
      AnalyzedSound(ctx, s, lhs);
      AnalyzedSound(ctx, s, rhs);
      BinarySound(ctx, scope, s.platform, op, Analyze(s, lhs).value, Analyze(s, rhs).value);
    }
    case Ternary(cond, thn, els) => {
      AnalyzedSound(ctx, s, cond);
      AnalyzedSound(ctx, s, thn);
      AnalyzedSound(ctx, s, els);
      ConditionalSound(ctx, scope, s.platform, Analyze(s, cond).value, Analyze(s, thn).value, Analyze(s, els).value);
    }
    case Call(callee, args) => {
      AnalyzedSound(ctx, s, callee);
      AnalyzedSoundAll(ctx, s, args);
      NameFound(s, callee);
      CallSound(ctx, scope, Analyze(s, callee).value, AnalyzeAll(s, args).value);
    }
    case Index(base, index) => {
      AnalyzedSound(ctx, s, base);
      AnalyzedSound(ctx, s, index);
      IndexSound(ctx, scope, Analyze(s, base).value, Analyze(s, index).value);
    }
    case Member(_, _, _) =>
    case Sizeof(sized) => AnalyzedSound(ctx, s, sized);
  }

  lemma {:induction false} AnalyzedSoundAll(ctx: C.Context, s: Setting, es: seq<P.Expr>)
    requires s.Valid() && Agrees(ctx, s.scopes) && AnalyzeAll(s, es).Some?
    ensures SoundAll(ctx, Locals(s.scopes), AnalyzeAll(s, es).value)
    decreases es
  {
    hide Sound;
    if es != [] {
      AnalyzedSound(ctx, s, es[0]);
      AnalyzedSoundAll(ctx, s, es[1..]);
      var r, rest := AnalyzeAll(s, es).value, AnalyzeAll(s, es[1..]).value;
      assert r == [Analyze(s, es[0]).value] + rest;
    }
  }
}
