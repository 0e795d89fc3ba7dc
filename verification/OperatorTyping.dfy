/** The types that C99 sections 6.3.1 and 6.5 give to operators and their operands, written down from the standard's own
    lists, and the proof that analysis gives them. */
module OperatorTyping {
  import C = CAst
  import P = ParseExpr
  import opened CValues
  import opened Integers
  import opened Qualifiers
  import opened SemaConversions
  import opened SemaExpr
  import opened SemaTree
  import opened SemaTypes
  import opened Wrappers

  // ----- the integer promotions and the usual arithmetic conversions -----

  /** What an integral type is promoted to: everything below int, and every enumeration, to int. */
  function PromotesTo(t: Type): C.IntKind
    requires t.IsIntegral()
  {
    match t
    case Integer(UInt, _) => C.UInt
    case Integer(Long, _) => C.Long
    case Integer(ULong, _) => C.ULong
    case Integer(LongLong, _) => C.LongLong
    case Integer(ULongLong, _) => C.ULongLong
    case _ => C.Int
  }

  /** The order in which the usual arithmetic conversions try the kinds; the kinds below int are not tried. */
  function Height(k: C.IntKind): int {
    match k
    case Int => 0
    case UInt => 1
    case Long => 2
    case ULong => 3
    case LongLong => 4
    case ULongLong => 5
    case _ => -1
  }

  /** Operands of kind a can be brought to kind k: the rank does not fall, and if k is signed no value is lost. */
  ghost predicate Admits(p: Platform, k: C.IntKind, a: C.IntKind)
    requires p.Valid()
  {
    && Height(a) / 2 <= Height(k) / 2
    && (HoldsNegatives(k) ==> forall v :: IsValue(p.target, a, v) ==> IsValue(p.target, k, v))
  }

  /** The first kind that admits both. */
  ghost predicate IsCommon(p: Platform, a: C.IntKind, b: C.IntKind, k: C.IntKind)
    requires p.Valid()
  {
    && Height(k) >= 0 && Admits(p, k, a) && Admits(p, k, b)
    && forall c :: Height(c) >= 0 && Admits(p, c, a) && Admits(p, c, b) ==> Height(k) <= Height(c)
  }

  /** Bringing values of kind j to kind k keeps them, or, where k is unsigned and they are negative, adds 2 to the width
      of k. */
  ghost predicate KeepsOrReduces(p: Platform, j: C.IntKind, k: C.IntKind)
    requires p.Valid()
  {
    forall v :: IsValue(p.target, j, v) ==>
      ConvertTo(p.target, k, v) == if HoldsNegatives(k) || v >= 0 then v else v + Pow2(BitsOf(p.target, k))
  }

  function SizeOrder(s: FloatKind): nat {
    match s
    case Float => 0
    case Double => 1
    case LongDouble => 2
  }

  /** The largest of the floating types among the two. */
  predicate IsLargest(a: Type, b: Type, s: FloatKind) {
    && ((a.Floating? && a.size == s) || (b.Floating? && b.size == s))
    && (a.Floating? ==> SizeOrder(a.size) <= SizeOrder(s)) && (b.Floating? ==> SizeOrder(b.size) <= SizeOrder(s))
  }

  /** v in an arithmetic type: as it is if it has that type. */
  function In(v: Typed, t: Type): Typed {
    if SameArithmetic(v.ty, t) then v else Typed(Implicit(Arithmetic, v), t, false)
  }

  predicate SameArithmetic(a: Type, b: Type) {
    (a.Integer? && b.Integer? && a.kind == b.kind) || (a.Floating? && b.Floating? && a.size == b.size)
  }

  function InKind(v: Typed, k: C.IntKind): Typed { In(v, Integer(k, NO_QUALS)) }
  function InSize(v: Typed, s: FloatKind): Typed { In(v, Floating(s, NO_QUALS)) }

  // ----- analysis makes these conversions -----

  lemma {:induction false} PromotionAgrees(t: Type)
    requires t.IsIntegral()
    ensures Promoted(t).Integer? && Promoted(t).kind == PromotesTo(t) && Height(PromotesTo(t)) >= 0
    ensures Promoted(t) == Integer(PromotesTo(t), NO_QUALS)
  {
  }

  lemma {:induction false} HeightIsRank(k: C.IntKind)
    ensures IsPromoted(k) == (Height(k) >= 0)
    ensures IsPromoted(k) ==> RankOf(k) == 3 + Height(k) / 2 && IsUnsigned(k) == (Height(k) % 2 == 1)
    ensures IsPromoted(k) ==> IsUnsigned(k) == !HoldsNegatives(k)
  {
  }

  lemma {:induction false} WidthsGrow(p: Platform, a: C.IntKind, b: C.IntKind)
    requires p.Valid() && IsPromoted(a) && IsPromoted(b) && RankOf(a) <= RankOf(b)
    ensures BitsOf(p.target, a) <= BitsOf(p.target, b)
  {
  }

  /** Admitting is fitting: what decides is the ranks, and the widths where only one kind is unsigned. */
  lemma {:induction false} AdmitsExactly(p: Platform, k: C.IntKind, a: C.IntKind)
    requires p.Valid() && IsPromoted(k) && IsPromoted(a)
    ensures Admits(p, k, a) == Fits(p, a, k)
  {
    HeightIsRank(k);
    HeightIsRank(a);
    SameWidths(p.target, k);
    SameWidths(p.target, a);
    if RankOf(a) <= RankOf(k) && HoldsNegatives(k) {
      WidthsGrow(p, a, k);
      ValuesFit(p, a, k);
    }
  }

  lemma {:induction false} ValuesFit(p: Platform, a: C.IntKind, k: C.IntKind)
    requires p.Valid() && HoldsNegatives(k) && BitsOf(p.target, a) <= BitsOf(p.target, k)
    ensures (forall v :: IsValue(p.target, a, v) ==> IsValue(p.target, k, v))
       <==> HoldsNegatives(a) || BitsOf(p.target, a) < BitsOf(p.target, k)
  {
    hide IsValue, BitsOf, HoldsNegatives;
    if HoldsNegatives(a) || BitsOf(p.target, a) < BitsOf(p.target, k) {
      forall v | IsValue(p.target, a, v)
        ensures IsValue(p.target, k, v)
      {
        ValueFits(p, a, k, v);
      }
    } else {
      LargestDoesNotFit(p, a, k);
    }
  }

  lemma {:induction false} ValueFits(p: Platform, a: C.IntKind, k: C.IntKind, v: int)
    requires p.Valid() && HoldsNegatives(k) && BitsOf(p.target, a) <= BitsOf(p.target, k)
    requires (HoldsNegatives(a) || BitsOf(p.target, a) < BitsOf(p.target, k)) && IsValue(p.target, a, v)
    ensures IsValue(p.target, k, v)
  {
    hide Pow2, BitsOf, HoldsNegatives;
    var n, w := BitsOf(p.target, a), BitsOf(p.target, k);
    if HoldsNegatives(a) { Pow2Grows(n - 1, w - 1); } else { Pow2Grows(n, w - 1); }
  }

  lemma {:induction false} LargestDoesNotFit(p: Platform, a: C.IntKind, k: C.IntKind)
    requires p.Valid() && HoldsNegatives(k) && !HoldsNegatives(a) && BitsOf(p.target, a) == BitsOf(p.target, k)
    ensures exists v :: IsValue(p.target, a, v) && !IsValue(p.target, k, v)
  {
    hide Pow2, BitsOf, HoldsNegatives;
    var v := Pow2(BitsOf(p.target, a)) - 1;
    Doubles(BitsOf(p.target, k));
    assert IsValue(p.target, a, v) && !IsValue(p.target, k, v);
  }

  lemma {:induction false} Doubles(w: nat)
    requires w > 0
    ensures Pow2(w) == 2 * Pow2(w - 1) > Pow2(w - 1)
  {
  }

  lemma {:induction false} CommonKindIsCommon(p: Platform, a: C.IntKind, b: C.IntKind)
    requires p.Valid() && IsPromoted(a) && IsPromoted(b)
    ensures IsCommon(p, a, b, CommonKind(p, a, b))
  {
    hide Admits, CommonKind, RankOf;
    var k := CommonKind(p, a, b);
    CommonKindIsLeast(p, a, b, a);
    HeightIsRank(k);
    AdmitsExactly(p, k, a);
    AdmitsExactly(p, k, b);
    forall c | Height(c) >= 0 && Admits(p, c, a) && Admits(p, c, b)
      ensures Height(k) <= Height(c)
    {
      HeightIsRank(c);
      AdmitsExactly(p, c, a);
      AdmitsExactly(p, c, b);
      CommonKindIsLeast(p, a, b, c);
      AdmitsExactly(p, c, k);
      if RankOf(k) == RankOf(c) { SameRankWidth(p, k, c); }
    }
  }

  lemma {:induction false} SameRankWidth(p: Platform, a: C.IntKind, b: C.IntKind)
    requires p.Valid() && IsPromoted(a) && IsPromoted(b) && RankOf(a) == RankOf(b)
    ensures p.target.Width(a) == p.target.Width(b)
  {
  }

  lemma {:induction false} CommonKeeps(p: Platform, a: C.IntKind, b: C.IntKind)
    requires p.Valid() && IsPromoted(a) && IsPromoted(b)
    ensures KeepsOrReduces(p, a, CommonKind(p, a, b))
  {
    var k := CommonKind(p, a, b);
    forall v | IsValue(p.target, a, v)
      ensures ConvertTo(p.target, k, v) == if HoldsNegatives(k) || v >= 0 then v else v + Pow2(BitsOf(p.target, k))
    {
      WrapReduces(p.target, a, v);
      ValuesStay(p.target, a, v);
      CommonKindKeepsValues(p, a, b, v);
      WrapReduces(p.target, k, v);
      SameWidths(p.target, k);
    }
  }

  lemma {:induction false} IntegralCommon(p: Platform, a: Type, b: Type) returns (k: C.IntKind)
    requires p.Valid() && a.IsIntegral() && b.IsIntegral()
    ensures UsualArithmetic(p, a, b) == Integer(k, NO_QUALS) && IsCommon(p, PromotesTo(a), PromotesTo(b), k)
    ensures KeepsOrReduces(p, PromotesTo(a), k) && KeepsOrReduces(p, PromotesTo(b), k)
  {
    hide IsCommon, KeepsOrReduces, CommonKind;
    PromotionAgrees(a);
    PromotionAgrees(b);
    var i, j := PromotesTo(a), PromotesTo(b);
    HeightIsRank(i);
    HeightIsRank(j);
    k := CommonKind(p, i, j);
    CommonKindIsCommon(p, i, j);
    CommonKeeps(p, i, j);
    CommonKeeps(p, j, i);
    CommonKindIsJoin(p, i, j, i);
  }

  lemma {:induction false} FloatingCommon(p: Platform, a: Type, b: Type) returns (s: FloatKind)
    requires p.Valid() && a.IsArithmetic() && b.IsArithmetic() && (a.Floating? || b.Floating?)
    ensures UsualArithmetic(p, a, b) == Floating(s, NO_QUALS) && IsLargest(a, b, s)
  {
    s := UsualArithmetic(p, a, b).size;
  }

  lemma {:induction false} ConvertedIn(v: Typed, t: Type)
    requires Value(v) == v && v.ty.IsArithmetic() && (t.Integer? || t.Floating?) && t.quals == NO_QUALS
    ensures Convert(v, t) == Some(In(v, t))
  {
  }

  // ----- binary operators -----

  predicate Compares(op: P.BinaryOp) {
    op in {P.Less, P.Greater, P.LessEqual, P.GreaterEqual, P.Equal, P.NotEqual}
  }

  /** The multiplicative, additive and bitwise operators. */
  predicate Calculates(op: P.BinaryOp) {
    op in {P.Times, P.Quot, P.Rem, P.Add, P.Sub, P.BitAnd, P.BitXor, P.BitOr}
  }

  /** These have a floating result, too. */
  predicate CalculatesFloating(op: P.BinaryOp) {
    op in {P.Times, P.Quot, P.Add, P.Sub}
  }

  lemma {:induction false} ArithmeticRule(p: Platform, op: P.BinaryOp, l: Typed, r: Typed)
    requires p.Valid() && l.ty.IsArithmetic() && r.ty.IsArithmetic() && !IsAssignment(op)
    requires Compares(op) || CalculatesFloating(op) || (Calculates(op) && l.ty.IsIntegral() && r.ty.IsIntegral())
    ensures var t := UsualArithmetic(p, l.ty, r.ty);
            RuleFor(p, op, l, r) == Some(Rule(if Compares(op) then Integer(C.Int, NO_QUALS) else t, Some(t), Some(t)))
  {
    hide UsualArithmetic, PointerComparison, PointerArithmetic, Promoted;
  }

  lemma {:induction false} NoAssignment(op: P.BinaryOp)
    requires Compares(op) || Calculates(op) || CalculatesFloating(op)
    ensures !IsAssignment(op)
  {
  }

  /** The multiplicative, additive, bitwise, relational and equality operators on integral operands: both are brought to
      the common kind, which is the type of the result except for comparisons, whose result is an int. */
  lemma {:induction false} IntegralOperands(p: Platform, op: P.BinaryOp, lhs: Typed, rhs: Typed) returns (k: C.IntKind)
    requires p.Valid() && Value(lhs).ty.IsIntegral() && Value(rhs).ty.IsIntegral()
    requires Calculates(op) || Compares(op)
    ensures IsCommon(p, PromotesTo(Value(lhs).ty), PromotesTo(Value(rhs).ty), k)
    ensures KeepsOrReduces(p, PromotesTo(Value(lhs).ty), k) && KeepsOrReduces(p, PromotesTo(Value(rhs).ty), k)
    ensures AnalyzeBinary(p, op, lhs, rhs)
         == Some(Typed(Binary(op, InKind(Value(lhs), k), InKind(Value(rhs), k), None),
                       Integer(if Compares(op) then C.Int else k, NO_QUALS), false))
  {
    hide UsualArithmetic, Convert, IsCommon, KeepsOrReduces, RuleFor, Value, Calculates, Compares, In;
    ValueTwice(lhs);
    ValueTwice(rhs);
    NoAssignment(op);
    ArithmeticRule(p, op, Value(lhs), Value(rhs));
    k := IntegralCommon(p, Value(lhs).ty, Value(rhs).ty);
    ConvertedIn(Value(lhs), Integer(k, NO_QUALS));
    ConvertedIn(Value(rhs), Integer(k, NO_QUALS));
  }

  /** With a floating operand both are brought to the largest floating type among them. */
  lemma {:induction false} FloatingOperands(p: Platform, op: P.BinaryOp, lhs: Typed, rhs: Typed) returns (s: FloatKind)
    requires p.Valid() && Value(lhs).ty.IsArithmetic() && Value(rhs).ty.IsArithmetic()
    requires Value(lhs).ty.Floating? || Value(rhs).ty.Floating?
    requires CalculatesFloating(op) || Compares(op)
    ensures IsLargest(Value(lhs).ty, Value(rhs).ty, s)
    ensures AnalyzeBinary(p, op, lhs, rhs)
         == Some(Typed(Binary(op, InSize(Value(lhs), s), InSize(Value(rhs), s), None),
                       if Compares(op) then Integer(C.Int, NO_QUALS) else Floating(s, NO_QUALS), false))
  {
    hide UsualArithmetic, Convert, RuleFor, Value, CalculatesFloating, Compares, In;
    ValueTwice(lhs);
    ValueTwice(rhs);
    NoAssignment(op);
    ArithmeticRule(p, op, Value(lhs), Value(rhs));
    s := FloatingCommon(p, Value(lhs).ty, Value(rhs).ty);
    ConvertedIn(Value(lhs), Floating(s, NO_QUALS));
    ConvertedIn(Value(rhs), Floating(s, NO_QUALS));
  }

  /** The operands of a shift are promoted each on its own, and the result has the type of the left one. */
  lemma {:induction false} ShiftOperands(p: Platform, op: P.BinaryOp, lhs: Typed, rhs: Typed)
    requires p.Valid() && Value(lhs).ty.IsIntegral() && Value(rhs).ty.IsIntegral()
    requires op == P.ShiftLeft || op == P.ShiftRight
    ensures var j, k := PromotesTo(Value(lhs).ty), PromotesTo(Value(rhs).ty);
            AnalyzeBinary(p, op, lhs, rhs) ==
              Some(Typed(Binary(op, InKind(Value(lhs), j), InKind(Value(rhs), k), None), Integer(j, NO_QUALS), false))
  {
    hide Convert, Promoted;
    ValueTwice(lhs);
    ValueTwice(rhs);
    PromotionAgrees(Value(lhs).ty);
    PromotionAgrees(Value(rhs).ty);
    ConvertedIn(Value(lhs), Integer(PromotesTo(Value(lhs).ty), NO_QUALS));
    ConvertedIn(Value(rhs), Integer(PromotesTo(Value(rhs).ty), NO_QUALS));
  }

  /** && and || take scalars and give an int; the comma operator gives the type of its right operand. */
  lemma {:induction false} SequencedOperands(p: Platform, op: P.BinaryOp, lhs: Typed, rhs: Typed)
    requires p.Valid() && op in {P.And, P.Or, P.Sequence}
    requires op != P.Sequence ==> Value(lhs).ty.IsScalar() && Value(rhs).ty.IsScalar()
    ensures AnalyzeBinary(p, op, lhs, rhs)
         == Some(Typed(Binary(op, Value(lhs), Value(rhs), None),
                       if op == P.Sequence then Value(rhs).ty else Integer(C.Int, NO_QUALS), false))
  {
  }

  /** The type of the difference of two pointers and, unsigned, of sizeof: the integer type as wide as a pointer. */
  function WordKind(p: Platform, signed: bool): C.IntKind {
    if p.pointerBits == p.target.longBits then if signed then C.Long else C.ULong
    else if signed then C.Int else C.UInt
  }

  /** An integer added to a pointer or subtracted from it is promoted, and the pointer keeps its type; the difference of
      two pointers to compatible types is a signed integer. */
  lemma {:induction false} PointerOperands(p: Platform, op: P.BinaryOp, lhs: Typed, rhs: Typed)
    requires p.Valid()
    ensures var l, r := Value(lhs), Value(rhs);
            op in {P.Add, P.Sub} && ObjectPointer(l.ty) && r.ty.IsIntegral() ==>
              AnalyzeBinary(p, op, lhs, rhs) ==
                Some(Typed(Binary(op, l, InKind(r, PromotesTo(r.ty)), None), l.ty, false))
    ensures var l, r := Value(lhs), Value(rhs);
            op == P.Add && l.ty.IsIntegral() && ObjectPointer(r.ty) ==>
              AnalyzeBinary(p, op, lhs, rhs) ==
                Some(Typed(Binary(op, InKind(l, PromotesTo(l.ty)), r, None), r.ty, false))
    ensures var l, r := Value(lhs), Value(rhs);
            && op == P.Sub && ObjectPointer(l.ty) && ObjectPointer(r.ty)
            && Compatible(l.ty.pointee, r.ty.pointee, true) ==>
              AnalyzeBinary(p, op, lhs, rhs) ==
                Some(Typed(Binary(op, l, r, None), Integer(WordKind(p, true), NO_QUALS), false))
  {
    hide Convert, Promoted, Compatible;
    var l, r := Value(lhs), Value(rhs);
    ValueTwice(lhs);
    ValueTwice(rhs);
    if l.ty.IsIntegral() {
      PromotionAgrees(l.ty);
      ConvertedIn(l, Integer(PromotesTo(l.ty), NO_QUALS));
    }
    if r.ty.IsIntegral() {
      PromotionAgrees(r.ty);
      ConvertedIn(r, Integer(PromotesTo(r.ty), NO_QUALS));
    }
  }

  /** Which operands an operator takes (the constraints of C99 sections 6.5.5 to 6.5.17). */
  predicate Permits(op: P.BinaryOp, l: Typed, r: Typed) {
    var a, b := l.ty, r.ty;
    var arithmetic, integral := a.IsArithmetic() && b.IsArithmetic(), a.IsIntegral() && b.IsIntegral();
    var alike := a.Pointer? && b.Pointer? && Compatible(a.pointee, b.pointee, true);
    match op
    case Times | Quot => arithmetic
    case Rem | BitAnd | BitXor | BitOr | ShiftLeft | ShiftRight => integral
    case Add => arithmetic || (ObjectPointer(a) && b.IsIntegral()) || (a.IsIntegral() && ObjectPointer(b))
    case Sub =>
      arithmetic || (ObjectPointer(a) && b.IsIntegral()) || (ObjectPointer(a) && ObjectPointer(b) && alike)
    case Less | Greater | LessEqual | GreaterEqual => arithmetic || (alike && !a.pointee.Void? && !a.pointee.Function?)
    case Equal | NotEqual =>
      || arithmetic || alike
      || (&& a.Pointer? && b.Pointer?
          && ((a.pointee.Void? && !b.pointee.Function?) || (b.pointee.Void? && !a.pointee.Function?)))
      || (a.Pointer? && NullConstant(r)) || (b.Pointer? && NullConstant(l))
    case And | Or => a.IsScalar() && b.IsScalar()
    case Sequence => true
    case _ => false
  }

  lemma {:induction false} RuleExactlyWhenPermitted(p: Platform, op: P.BinaryOp, l: Typed, r: Typed)
    requires p.Valid() && !IsAssignment(op)
    ensures RuleFor(p, op, l, r).Some? <==> Permits(op, l, r)
  {
    hide UsualArithmetic, Promoted, Compatible, NullConstant;
  }

  /** An operator that is no assignment is accepted exactly when it takes the values of its operands. */
  lemma {:induction false} AcceptedExactlyWhenPermitted(p: Platform, op: P.BinaryOp, lhs: Typed, rhs: Typed)
    requires p.Valid() && WellFormed(lhs.ty) && WellFormed(rhs.ty)
    requires op !in {P.SimpleAssign, P.AddAssign, P.SubAssign, P.TimesAssign, P.QuotAssign, P.RemAssign, P.AndAssign,
                     P.OrAssign, P.XorAssign, P.ShiftLeftAssign, P.ShiftRightAssign}
    ensures AnalyzeBinary(p, op, lhs, rhs).Some? <==> Permits(op, Value(lhs), Value(rhs))
  {
    hide RuleFor, Permits;
    OperandsConvert(p, op, lhs, rhs);
    RuleExactlyWhenPermitted(p, op, Value(lhs), Value(rhs));
  }

  // ----- assignments -----

  /** The operation that a compound assignment does before it stores. */
  predicate Computes(op: P.BinaryOp, base: P.BinaryOp) {
    (op, base) in {(P.TimesAssign, P.Times), (P.QuotAssign, P.Quot), (P.RemAssign, P.Rem), (P.AddAssign, P.Add),
                   (P.SubAssign, P.Sub), (P.ShiftLeftAssign, P.ShiftLeft), (P.ShiftRightAssign, P.ShiftRight),
                   (P.AndAssign, P.BitAnd), (P.XorAssign, P.BitXor), (P.OrAssign, P.BitOr)}
  }

  /** A compound assignment converts its right operand as its operation does, computes in the type of that operation,
      and has the type of its left operand. */
  lemma {:induction false} CompoundOperands(p: Platform, op: P.BinaryOp, base: P.BinaryOp, lhs: Typed, rhs: Typed)
    requires p.Valid() && Computes(op, base)
    ensures var e := AnalyzeBinary(p, base, lhs, rhs);
            && (e.Some? ==> e.value.node.Binary?)
            && AnalyzeBinary(p, op, lhs, rhs) ==
                 if && e.Some? && Modifiable(lhs)
                    && ((lhs.ty.IsArithmetic() && e.value.ty.IsArithmetic()) || Compatible(lhs.ty, e.value.ty, true))
                 then Some(Typed(Binary(op, lhs, e.value.node.rhs, Some(e.value.ty)), Unqualified(lhs.ty), false))
                 else None
  {
    hide BinaryOperands, Computes, Modifiable, Compatible, OperationOf, IsAssignment;
    ComputedAs(op, base);
  }

  lemma {:induction false} ComputedAs(op: P.BinaryOp, base: P.BinaryOp)
    requires Computes(op, base)
    ensures OperationOf(op) == base && IsAssignment(op) && op != P.SimpleAssign && !IsAssignment(base)
  {
  }

  /** The value assigned to an arithmetic object is brought to the object's type, which is the type of the whole. */
  lemma {:induction false} AssignedOperand(p: Platform, lhs: Typed, rhs: Typed)
    requires p.Valid() && Modifiable(lhs) && (lhs.ty.Integer? || lhs.ty.Floating?) && Value(rhs).ty.IsArithmetic()
    ensures var t := Unqualified(lhs.ty);
            AnalyzeBinary(p, P.SimpleAssign, lhs, rhs) ==
              Some(Typed(Binary(P.SimpleAssign, lhs, In(Value(rhs), t), Some(t)), t, false))
  {
    ValueTwice(rhs);
  }

  /** What may be assigned to an object of unqualified type to (C99 section 6.5.16.1): arithmetic types go with each
      other, other types with compatible ones, and a pointer with a null pointer constant and with pointers to the same
      type or to and from void, as long as it keeps every qualifier of what they point to. */
  predicate MayAssign(to: Type, v: Typed) {
    var from := v.ty;
    || (to.IsArithmetic() && from.IsArithmetic())
    || (!to.Pointer? && Compatible(to, from, true))
    || (to.Pointer? && NullConstant(v))
    || (&& to.Pointer? && from.Pointer?
        && (from.pointee.quals.isConst ==> to.pointee.quals.isConst)
        && (from.pointee.quals.isVolatile ==> to.pointee.quals.isVolatile)
        && (|| Compatible(to.pointee, from.pointee, true)
            || (to.pointee.Void? && !from.pointee.Function?) || (from.pointee.Void? && !to.pointee.Function?)))
  }

  lemma {:induction false} CompatiblePointees(a: Type, b: Type)
    requires Compatible(a, b, false)
    ensures Compatible(a, b, true) && a.quals == b.quals
  {
  }

  /** A value converts to a type exactly where it may be assigned to an object of it. It is converted in the way that
      its type calls for, and not at all where the types are compatible. */
  lemma {:induction false} ConvertsExactly(e: Typed, to: Type)
    ensures Convert(e, to).Some? <==> MayAssign(Unqualified(to), Value(e))
    ensures Convert(e, to).Some? ==>
              var t, v := Unqualified(to), Value(e);
              if Compatible(t, v.ty, true) then Convert(e, to).value == v
              else
                && Convert(e, to).value.node.Implicit? && Convert(e, to).value.node.converted == v
                && Convert(e, to).value.ty == t && !Convert(e, to).value.lval
                && Convert(e, to).value.node.kind ==
                     if t.IsArithmetic() then Arithmetic
                     else if NullConstant(v) then NullToPointer else PointerConversion
  {
    hide NullConstant;
    var t, v := Unqualified(to), Value(e);
    if t.Pointer? && v.ty.Pointer? && Compatible(t, v.ty, true) { CompatiblePointees(t.pointee, v.ty.pointee); }
  }

  // ----- the other operators -----

  /** The unary arithmetic operators promote; ~ takes no floating operand, and ! gives an int for any scalar. */
  lemma {:induction false} UnaryOperand(op: P.UnaryOp, e: Typed)
    requires op in {P.Pos, P.Neg, P.BitNot, P.Not}
    ensures AnalyzeUnary(op, e).Some?
       <==> match op
            case Not => Value(e).ty.IsScalar()
            case BitNot => Value(e).ty.IsIntegral()
            case _ => Value(e).ty.IsArithmetic()
    ensures var v, r := Value(e), AnalyzeUnary(op, e);
            r.Some? ==>
              && r.value.node.Unary? && r.value.node.op == op && !r.value.lval
              && if op == P.Not then r.value.ty == Integer(C.Int, NO_QUALS) && r.value.node.operand == v
                 else if v.ty.IsIntegral() then
                   && r.value.ty == Integer(PromotesTo(v.ty), NO_QUALS)
                   && r.value.node.operand in {v, Typed(Implicit(Arithmetic, v), r.value.ty, false)}
                   && r.value.node.operand.ty == r.value.ty
                 else
                   && v.ty.Floating? && r.value.ty == Floating(v.ty.size, NO_QUALS)
                   && r.value.node.operand.ty == r.value.ty
  {
  }

  /** The operands of a conditional whose values are arithmetic are brought to a common type, which is its own. */
  lemma {:induction false} ConditionalOperands(p: Platform, cond: Typed, thn: Typed, els: Typed) returns (t: Type)
    requires p.Valid() && Value(cond).ty.IsScalar() && Value(thn).ty.IsArithmetic() && Value(els).ty.IsArithmetic()
    ensures var a, b := Value(thn).ty, Value(els).ty;
            if a.IsIntegral() && b.IsIntegral() then
              && t.Integer? && IsCommon(p, PromotesTo(a), PromotesTo(b), t.kind)
              && KeepsOrReduces(p, PromotesTo(a), t.kind) && KeepsOrReduces(p, PromotesTo(b), t.kind)
            else t.Floating? && IsLargest(a, b, t.size)
    ensures t.quals == NO_QUALS
    ensures AnalyzeConditional(p, cond, thn, els)
         == Some(Typed(Ternary(Value(cond), In(Value(thn), t), In(Value(els), t)), t, false))
  {
    hide UsualArithmetic, Convert, IsCommon, KeepsOrReduces;
    ValueTwice(thn);
    ValueTwice(els);
    var a, b := Value(thn).ty, Value(els).ty;
    if a.IsIntegral() && b.IsIntegral() {
      var k := IntegralCommon(p, a, b);
      t := Integer(k, NO_QUALS);
    } else {
      var s := FloatingCommon(p, a, b);
      t := Floating(s, NO_QUALS);
    }
    ConvertedIn(Value(thn), t);
    ConvertedIn(Value(els), t);
  }

  /** The value of an expression: an array is the pointer to its first element, a function the pointer to it, and an
      lvalue is what it holds, without qualifiers. */
  lemma {:induction false} ValueOfExpression(e: Typed)
    ensures Value(e)
         == if e.ty.Array? then Typed(Implicit(ArrayToPointer, e), Pointer(e.ty.elem, NO_QUALS), false)
            else if e.ty.Function? then Typed(Implicit(FunctionToPointer, e), Pointer(e.ty, NO_QUALS), false)
            else if e.lval then Typed(Implicit(LValueToRValue, e), Qualified(e.ty, NO_QUALS), false)
            else e
  {
    if !e.ty.Array? && e.ty.quals == NO_QUALS { assert Qualified(e.ty, NO_QUALS) == e.ty; }
  }

  predicate IsRegister(e: Typed) {
    e.node.Name? && e.node.symbol.Variable? && !e.node.symbol.isParameter && e.node.symbol.storage == Register
  }

  /** & takes an lvalue that is no register variable, or a function, and gives a pointer to it; * takes a pointer to an
      object or function and gives what it points to, which is an lvalue unless it is a function. */
  lemma {:induction false} PlaceOperand(e: Typed)
    ensures AnalyzeUnary(P.Addr, e)
         == if (e.lval || e.ty.Function?) && !IsRegister(e) then
              Some(Typed(Unary(P.Addr, e), Pointer(e.ty, NO_QUALS), false))
            else None
    ensures var v := Value(e);
            AnalyzeUnary(P.Deref, e) ==
              if v.ty.Pointer? && !v.ty.pointee.Void? then
                Some(Typed(Unary(P.Deref, v), v.ty.pointee, !v.ty.pointee.Function?))
              else None
  {
  }

  /** ++ and -- take a modifiable lvalue that is a number or a pointer to an object, and have its type unqualified. */
  lemma {:induction false} StepOperand(op: P.UnaryOp, e: Typed)
    requires op in {P.PreInc, P.PreDec, P.PostInc, P.PostDec}
    ensures AnalyzeUnary(op, e)
         == if && e.lval && !e.ty.quals.isConst && !e.ty.Array? && e.ty.IsComplete()
               && (e.ty.IsArithmetic() || (e.ty.Pointer? && e.ty.pointee.IsComplete())) then
              Some(Typed(Unary(op, e), Unqualified(e.ty), false))
            else None
  {
  }

  /** A subscript applies a pointer to an object and a promoted integer to each other, in either order, and is an lvalue
      of the type that is pointed to. */
  lemma {:induction false} IndexOperands(base: Typed, index: Typed)
    ensures var a, b := Value(base), Value(index);
            AnalyzeIndex(base, index) ==
              if ObjectPointer(a.ty) && b.ty.IsIntegral() then
                Some(Typed(Index(a, InKind(b, PromotesTo(b.ty))), a.ty.pointee, true))
              else if a.ty.IsIntegral() && ObjectPointer(b.ty) then
                Some(Typed(Index(InKind(a, PromotesTo(a.ty)), b), b.ty.pointee, true))
              else None
  {
    hide Promoted, Convert;
    var a, b := Value(base), Value(index);
    ValueTwice(base);
    ValueTwice(index);
    if a.ty.IsIntegral() {
      PromotionAgrees(a.ty);
      ConvertedIn(a, Integer(PromotesTo(a.ty), NO_QUALS));
    }
    if b.ty.IsIntegral() {
      PromotionAgrees(b.ty);
      ConvertedIn(b, Integer(PromotesTo(b.ty), NO_QUALS));
    }
  }

  lemma {:induction false} SizeOperand(p: Platform, e: Typed)
    requires p.Valid()
    ensures AnalyzeSizeof(p, e).Some? <==> Valid(e.ty) && e.ty.IsComplete()
    ensures AnalyzeSizeof(p, e).Some? ==>
        AnalyzeSizeof(p, e).value == Typed(Sizeof(e), Integer(WordKind(p, false), NO_QUALS), false)
  {
  }

  /** An argument that no parameter stands for: float becomes double, integral types are promoted, and any other value
      is passed as it is (C99 section 6.5.2.2). */
  lemma {:induction false} DefaultPromotions(e: Typed)
    requires Value(e).ty.quals == NO_QUALS
    ensures var v := Value(e);
            DefaultPromote(e) ==
              if v.ty.Floating? && v.ty.size == Float then
                Typed(Implicit(DefaultPromotion, v), Floating(Double, NO_QUALS), false)
              else if v.ty.IsIntegral() && v.ty != Integer(PromotesTo(v.ty), NO_QUALS) then
                Typed(Implicit(DefaultPromotion, v), Integer(PromotesTo(v.ty), NO_QUALS), false)
              else v
  {
    var v := Value(e);
    CompatibleReflexive(v.ty, false);
  }

  /** What argument i is passed as. */
  function Passed(args: seq<Typed>, params: seq<Type>, i: nat): Option<Typed>
    requires i < |args|
  {
    if i < |params| then Convert(args[i], params[i]) else Some(DefaultPromote(args[i]))
  }

  /** Each argument is converted to its own parameter, and those beyond the parameters are promoted. */
  lemma {:induction false} EachArgument(args: seq<Typed>, params: seq<Type>)
    ensures Arguments(args, params).Some? <==> forall i :: 0 <= i < |args| ==> Passed(args, params, i).Some?
    ensures Arguments(args, params).Some? ==>
              forall i :: 0 <= i < |args| ==> Passed(args, params, i) == Some(Arguments(args, params).value[i])
    decreases |args|
  {
    hide Convert, DefaultPromote;
    if args == [] { return; }
    var rest, others := args[1..], if params == [] then [] else params[1..];
    EachArgument(rest, others);
    assert forall i :: 0 < i < |args| ==> Passed(args, params, i) == Passed(rest, others, i - 1);
    if Arguments(args, params).None? && Passed(args, params, 0).Some? {
      var i :| 0 <= i < |rest| && Passed(rest, others, i).None?;
      assert Passed(args, params, i + 1).None?;
    }
  }

  function ListedParameters(fn: Type): seq<Type>
    requires fn.Function?
  {
    if fn.hasPrototype then fn.params else []
  }

  /** A call is accepted exactly when the callee is a function or a pointer to one, the number of arguments suits its
      prototype, every argument can be passed and its result is void or complete; it has the type of the result. */
  lemma {:induction false} CallOperands(callee: Typed, args: seq<Typed>)
    ensures var t, r := Value(callee).ty, AnalyzeCall(callee, args);
            r.Some? <==>
              && t.Pointer? && t.pointee.Function?
              && (t.pointee.hasPrototype ==>
                    |args| == |t.pointee.params| || (t.pointee.variadic && |args| > |t.pointee.params|))
              && (forall i :: 0 <= i < |args| ==> Passed(args, ListedParameters(t.pointee), i).Some?)
              && (t.pointee.ret.Void? || t.pointee.ret.IsComplete())
    ensures var t, r := Value(callee).ty, AnalyzeCall(callee, args);
            r.Some? ==>
              && r.value.ty == Unqualified(t.pointee.ret) && !r.value.lval && r.value.node.Call?
              && r.value.node.callee == Value(callee) && |r.value.node.args| == |args|
              && forall i :: 0 <= i < |args| ==>
                   Passed(args, ListedParameters(t.pointee), i) == Some(r.value.node.args[i])
  {
    hide Value, Passed, Arguments;
    var t := Value(callee).ty;
    if t.Pointer? && t.pointee.Function? {
      EachArgument(args, ListedParameters(t.pointee));
    }
  }

  // ----- integer literals -----

  predicate SaysUnsigned(suffix: Suffix) {
    suffix == U || suffix == UL || suffix == ULL
  }

  /** The l's of a suffix ask for at least the rank of long or of long long. */
  function LeastRank(suffix: Suffix): nat {
    match suffix
    case L | UL => 1
    case LL | ULL => 2
    case _ => 0
  }

  /** The types that the form of a literal leaves open (C99 section 6.4.4.1): unsigned ones exactly with a u, or, where
      the literal is not decimal, beside the signed ones. */
  predicate MayHave(k: C.IntKind, nondecimal: bool, suffix: Suffix) {
    && suffix != BadSuffix && Height(k) >= 0 && LeastRank(suffix) <= Height(k) / 2
    && (SaysUnsigned(suffix) ==> !HoldsNegatives(k))
    && (!HoldsNegatives(k) ==> SaysUnsigned(suffix) || nondecimal)
  }

  lemma {:induction false} CandidatesInOrder(nondecimal: bool, suffix: Suffix)
    ensures var ks := Candidates(nondecimal, suffix);
            && (forall k :: k in ks <==> MayHave(k, nondecimal, suffix))
            && forall i, j :: 0 <= i < j < |ks| ==> Height(ks[i]) < Height(ks[j])
  {
  }

  /** An integer literal that the lexer could decode has the lowest of the types open to it that can hold its value, and
      is refused exactly when none can. */
  lemma {:induction false} LiteralTyped(s: Setting, text: string, v: nat, nondecimal: bool, suffix: Suffix)
    requires s.platform.Valid() && s.decode(text) == IntegerLiteral(v, nondecimal, suffix) && v <= LONG_LONG_MAX
    ensures match AnalyzeLiteral(s, text)
            case None => forall k :: MayHave(k, nondecimal, suffix) ==> !IsValue(s.platform.target, k, v)
            case Some(e) =>
              && e.node == Constant(text, IntegerLiteral(v, nondecimal, suffix)) && !e.lval && e.ty.Integer?
              && e.ty.quals == NO_QUALS && MayHave(e.ty.kind, nondecimal, suffix)
              && IsValue(s.platform.target, e.ty.kind, v)
              && forall k :: MayHave(k, nondecimal, suffix) && IsValue(s.platform.target, k, v) ==>
                   Height(e.ty.kind) <= Height(k)
  {
    var p, ks := s.platform, Candidates(nondecimal, suffix);
    CandidatesInOrder(nondecimal, suffix);
    hide MayHave, Candidates, IsValue, Represents, FirstFitting, Height;
    forall k | k in ks
      ensures IsPromoted(k)
    {
      OpenToLiterals(k, nondecimal, suffix);
    }
    LiteralHasFirstType(p, ks, v);
    forall k
      ensures Represents(p, k, v) == IsValue(p.target, k, v)
    {
      Represented(p, k, v);
    }
  }

  lemma {:induction false} OpenToLiterals(k: C.IntKind, nondecimal: bool, suffix: Suffix)
    requires MayHave(k, nondecimal, suffix)
    ensures IsPromoted(k)
  {
    HeightIsRank(k);
  }

  lemma {:induction false} Represented(p: Platform, k: C.IntKind, v: int)
    requires p.Valid()
    ensures Represents(p, k, v) == IsValue(p.target, k, v)
  {
    WrapReduces(p.target, k, v);
    if IsValue(p.target, k, v) { ValuesStay(p.target, k, v); }
  }
}
