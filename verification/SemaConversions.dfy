/** Promotions, the usual arithmetic conversions, and the conversions that are written into the tree. */
module SemaConversions {
  import C = CAst
  import P = ParseExpr
  import opened Integers
  import opened Qualifiers
  import opened SemaTree
  import opened SemaTypes
  import opened Wrappers

  datatype Platform = Platform(target: C.Target, pointerBits: nat) {
    predicate Valid() {
      target.Valid() && target.intBits <= target.longBits <= target.longLongBits
    }
  }

  // ----- arithmetic types -----

  predicate IsUnsigned(k: C.IntKind) {
    k in {C.UChar, C.UShort, C.UInt, C.ULong, C.ULongLong}
  }

  function PromotedKind(k: C.IntKind): C.IntKind {
    if RankOf(k) < 3 then C.Int else k
  }

  function Promoted(t: Type): Type {
    if t.IsIntegral() && Rank(t) < 3 then INT
    else if t.Tagged? && t.sort == Enum then INT
    else Unqualified(t)
  }

  /** The common kind of two promoted kinds. */
  function CommonKind(p: Platform, a: C.IntKind, b: C.IntKind): C.IntKind
    requires p.target.Valid()
  {
    if a == b then a
    else if IsUnsigned(a) == IsUnsigned(b) then if RankOf(a) >= RankOf(b) then a else b
    else
      var u, s := if IsUnsigned(a) then a else b, if IsUnsigned(a) then b else a;
      if RankOf(u) >= RankOf(s) then u
      else if p.target.Width(s) > p.target.Width(u) then s
      else if s == C.Long then C.ULong else C.ULongLong
  }

  predicate HasSize(t: Type, size: FloatKind) {
    t.Floating? && t.size == size
  }

  function UsualArithmetic(p: Platform, a: Type, b: Type): (t: Type)
    requires p.target.Valid() && a.IsArithmetic() && b.IsArithmetic()
    ensures t.IsArithmetic() && !t.Tagged? && t.quals == NO_QUALS
  {
    if HasSize(a, LongDouble) || HasSize(b, LongDouble) then Floating(LongDouble, NO_QUALS)
    else if HasSize(a, Double) || HasSize(b, Double) then Floating(Double, NO_QUALS)
    else if HasSize(a, Float) || HasSize(b, Float) then Floating(Float, NO_QUALS)
    else Integer(CommonKind(p, Promoted(a).kind, Promoted(b).kind), NO_QUALS)
  }

  predicate IsPromoted(k: C.IntKind) {
    RankOf(k) >= 3
  }

  /** Values of kind a can be computed with in kind b: b has at least the rank of a, and if only a is unsigned then b is
      wider. */
  predicate Fits(p: Platform, a: C.IntKind, b: C.IntKind)
    requires p.target.Valid()
  {
    RankOf(a) <= RankOf(b) && (IsUnsigned(a) && !IsUnsigned(b) ==> p.target.Width(a) < p.target.Width(b))
  }

  lemma {:induction false} FitsIsPartialOrder(p: Platform, a: C.IntKind, b: C.IntKind, c: C.IntKind)
    requires p.Valid() && IsPromoted(a) && IsPromoted(b) && IsPromoted(c)
    ensures Fits(p, a, a)
    ensures Fits(p, a, b) && Fits(p, b, a) ==> a == b
    ensures Fits(p, a, b) && Fits(p, b, c) ==> Fits(p, a, c)
  {
    assert Fits(p, a, b) ==> p.target.Width(a) <= p.target.Width(b);
    assert Fits(p, b, c) ==> p.target.Width(b) <= p.target.Width(c);
  }

  /** The common kind is the least kind that both operands fit. */
  lemma {:induction false} CommonKindIsLeast(p: Platform, a: C.IntKind, b: C.IntKind, c: C.IntKind)
    requires p.Valid() && IsPromoted(a) && IsPromoted(b) && IsPromoted(c)
    ensures var k := CommonKind(p, a, b);
            IsPromoted(k) && Fits(p, a, k) && Fits(p, b, k) && (Fits(p, a, c) && Fits(p, b, c) ==> Fits(p, k, c))
  {
  }

  /** The usual arithmetic conversions are a join on the promoted kinds. */
  lemma {:induction false} CommonKindIsJoin(p: Platform, a: C.IntKind, b: C.IntKind, c: C.IntKind)
    requires p.Valid() && IsPromoted(a) && IsPromoted(b) && IsPromoted(c)
    ensures CommonKind(p, a, a) == a
    ensures CommonKind(p, a, b) == CommonKind(p, b, a)
    ensures CommonKind(p, CommonKind(p, a, b), c) == CommonKind(p, a, CommonKind(p, b, c))
  {
    hide CommonKind, Fits, RankOf, IsUnsigned;
    var ab, ba, bc := CommonKind(p, a, b), CommonKind(p, b, a), CommonKind(p, b, c);
    CommonKindIsLeast(p, a, b, c);
    CommonKindIsLeast(p, b, c, c);
    CommonKindIsLeast(p, b, a, c);
    Idempotent(p, a);
    CommonKindIsLeast(p, a, b, ba);
    CommonKindIsLeast(p, b, a, ab);
    FitsIsPartialOrder(p, ab, ba, ab);
    var left, right := CommonKind(p, ab, c), CommonKind(p, a, bc);
    CommonKindIsLeast(p, ab, c, c);
    CommonKindIsLeast(p, a, bc, c);
    FitsIsPartialOrder(p, a, ab, left);
    FitsIsPartialOrder(p, b, ab, left);
    FitsIsPartialOrder(p, b, bc, right);
    FitsIsPartialOrder(p, c, bc, right);
    CommonKindIsLeast(p, b, c, left);
    CommonKindIsLeast(p, a, bc, left);
    CommonKindIsLeast(p, a, b, right);
    CommonKindIsLeast(p, ab, c, right);
    FitsIsPartialOrder(p, left, right, left);
  }

  lemma {:induction false} Idempotent(p: Platform, a: C.IntKind)
    requires p.target.Valid()
    ensures CommonKind(p, a, a) == a
  {
  }

  /** A value of kind k. */
  predicate Represents(p: Platform, k: C.IntKind, v: int)
    requires p.target.Valid()
  {
    p.target.Wrap(k, v) == v
  }

  lemma {:induction false} RepresentsRange(p: Platform, k: C.IntKind, v: int)
    requires p.target.Valid()
    ensures var w := p.target.Width(k);
            Represents(p, k, v) <==> if C.IsSigned(k) then 0 - Pow2(w - 1) <= v < Pow2(w - 1) else 0 <= v < Pow2(w)
  {
    var w := p.target.Width(k);
    if 0 <= v < Pow2(w) { UniqueRemainder(v, 0, v, Pow2(w)); }
    if 0 - Pow2(w) <= v < 0 { UniqueRemainder(v, -1, v + Pow2(w), Pow2(w)); }
  }

  /** Converting an operand to the common kind keeps its value, except that a negative value becomes congruent modulo
      2^width when the common kind is unsigned. */
  lemma {:induction false} CommonKindKeepsValues(p: Platform, a: C.IntKind, b: C.IntKind, v: int)
    requires p.Valid() && IsPromoted(a) && IsPromoted(b) && Represents(p, a, v)
    ensures var k := CommonKind(p, a, b);
            p.target.Convert(k, v) == if C.IsSigned(k) || v >= 0 then v else v + Pow2(p.target.Width(k))
  {
    var k := CommonKind(p, a, b);
    var w, n := p.target.Width(k), p.target.Width(a);
    RepresentsRange(p, a, v);
    RepresentsRange(p, k, v);
    if C.IsSigned(k) {
      SignedCommonHolds(p, a, b, v);
    } else {
      Pow2Grows(n, w);
      UniqueRemainder(v, if v < 0 then -1 else 0, if v < 0 then v + Pow2(w) else v, Pow2(w));
    }
  }

  lemma {:induction false} SignedCommonHolds(p: Platform, a: C.IntKind, b: C.IntKind, v: int)
    requires p.Valid() && IsPromoted(a) && IsPromoted(b) && Represents(p, a, v) && C.IsSigned(CommonKind(p, a, b))
    ensures Represents(p, CommonKind(p, a, b), v)
  {
    var k := CommonKind(p, a, b);
    var w, n := p.target.Width(k), p.target.Width(a);
    RepresentsRange(p, a, v);
    RepresentsRange(p, k, v);
    if C.IsSigned(a) { Pow2Grows(n - 1, w - 1); } else { Pow2Grows(n, w - 1); }
  }

  /** Promotion goes to int whatever the widths are, so it keeps every value of an unsigned short exactly when an int is
      wider than a short. */
  lemma {:induction false} PromotionKeepsValuesExactly(p: Platform, k: C.IntKind)
    requires p.target.Valid() && p.target.shortBits <= p.target.intBits
    ensures (forall v :: Represents(p, k, v) ==> p.target.Convert(PromotedKind(k), v) == v)
       <==> !(IsUnsigned(k) && RankOf(k) < 3 && p.target.Width(k) == p.target.intBits)
  {
    if IsUnsigned(k) && RankOf(k) < 3 && p.target.Width(k) == p.target.intBits {
      LargestIsLost(p, k);
    } else {
      forall v | Represents(p, k, v)
        ensures p.target.Convert(PromotedKind(k), v) == v
      {
        PromotionKeeps(p, k, v);
      }
    }
  }

  /** The targets that ship, i386, x86-64 and AArch64, have 16 bits in a short and 32 in an int, so that promotion keeps
      every value there. */
  lemma {:induction false} PromotionKeepsOnShippedTargets(p: Platform, k: C.IntKind, v: int)
    requires p.target.shortBits == 16 && p.target.intBits == 32 && p.target.longBits in {32, 64}
    requires p.target.longLongBits == 64 && Represents(p, k, v)
    ensures p.target.Convert(PromotedKind(k), v) == v
  {
    PromotionKeepsValuesExactly(p, k);
  }

  /** Where int has 16 bits, 65535 is promoted from unsigned short to -1. */
  lemma {:induction false} WideShortIsLost(p: Platform)
    requires p.target == C.Target(16, 16, 32, 64)
    ensures Represents(p, C.UShort, 65535) && p.target.Convert(PromotedKind(C.UShort), 65535) == -1
  {
    assert Pow2(4) == 16 && Pow2(8) == 16 * Pow2(4) && Pow2(12) == 16 * Pow2(8) && Pow2(16) == 16 * Pow2(12);
    assert Pow2(16) == 2 * Pow2(15);
    UniqueRemainder(65535, 0, 65535, Pow2(16));
  }

  lemma {:induction false} LargestIsLost(p: Platform, k: C.IntKind)
    requires p.target.Valid() && IsUnsigned(k) && RankOf(k) < 3 && p.target.Width(k) == p.target.intBits
    ensures exists v :: Represents(p, k, v) && p.target.Convert(PromotedKind(k), v) != v
  {
    var w := p.target.Width(k);
    var v := Pow2(w) - 1;
    assert Pow2(w) == 2 * Pow2(w - 1);
    RepresentsRange(p, k, v);
    RepresentsRange(p, C.Int, v);
    assert Represents(p, k, v) && p.target.Convert(PromotedKind(k), v) != v;
  }

  lemma {:induction false} PromotionKeeps(p: Platform, k: C.IntKind, v: int)
    requires p.target.Valid() && p.target.shortBits <= p.target.intBits && Represents(p, k, v)
    requires !(IsUnsigned(k) && RankOf(k) < 3 && p.target.Width(k) == p.target.intBits)
    ensures p.target.Convert(PromotedKind(k), v) == v
  {
    var w, n := p.target.Width(k), p.target.intBits;
    if RankOf(k) < 3 {
      RepresentsRange(p, k, v);
      RepresentsRange(p, C.Int, v);
      if C.IsSigned(k) { Pow2Grows(w - 1, n - 1); } else { Pow2Grows(w, n - 1); }
    }
  }

  // ----- integer literals -----

  function Candidates(nondecimal: bool, suffix: Suffix): seq<C.IntKind> {
    match suffix
    case NoSuffix =>
      if nondecimal then [C.Int, C.UInt, C.Long, C.ULong, C.LongLong, C.ULongLong] else [C.Int, C.Long, C.LongLong]
    case U => [C.UInt, C.ULong, C.ULongLong]
    case L => if nondecimal then [C.Long, C.ULong, C.LongLong, C.ULongLong] else [C.Long, C.LongLong]
    case UL => [C.ULong, C.ULongLong]
    case LL => if nondecimal then [C.LongLong, C.ULongLong] else [C.LongLong]
    case ULL => [C.ULongLong]
    case BadSuffix => []
  }

  const LONG_LONG_MAX: int := 0x7FFF_FFFF_FFFF_FFFF

  function Maximum(p: Platform, k: C.IntKind): int
    requires p.target.Valid()
  {
    var w := p.target.Width(k);
    if w >= 64 then LONG_LONG_MAX else Pow2(w - (if IsUnsigned(k) then 0 else 1)) - 1
  }

  function FirstFitting(p: Platform, kinds: seq<C.IntKind>, v: nat): Option<C.IntKind>
    requires p.target.Valid()
  {
    if kinds == [] then None
    else if v <= Maximum(p, kinds[0]) then Some(kinds[0])
    else FirstFitting(p, kinds[1..], v)
  }

  lemma {:induction false} MaximumRepresents(p: Platform, k: C.IntKind, v: nat)
    requires p.target.Valid() && IsPromoted(k) && v <= LONG_LONG_MAX
    ensures v <= Maximum(p, k) <==> Represents(p, k, v)
  {
    var w := p.target.Width(k);
    RepresentsRange(p, k, v);
    if w >= 64 {
      Pow2Grows(63, w - 1);
      assert Pow2(63) == LONG_LONG_MAX + 1 by { Power63(); }
    }
  }

  lemma {:induction false} Power63()
    ensures Pow2(63) == LONG_LONG_MAX + 1
  {
    assert Pow2(8) == 256;
    assert Pow2(16) == 0x1_0000;
    assert Pow2(24) == 0x100_0000;
    assert Pow2(32) == 0x1_0000_0000;
    assert Pow2(40) == 0x100_0000_0000;
    assert Pow2(48) == 0x1_0000_0000_0000;
    assert Pow2(56) == 0x100_0000_0000_0000;
  }

  /** kinds[i] is the first of kinds that can represent v. */
  ghost predicate FirstFor(p: Platform, kinds: seq<C.IntKind>, v: nat, i: int)
    requires p.target.Valid()
  {
    0 <= i < |kinds| && Represents(p, kinds[i], v) && forall j :: 0 <= j < i ==> !Represents(p, kinds[j], v)
  }

  /** An integer literal that the lexer could decode has the first type of its list that can represent it, and is
      refused exactly when none can. */
  lemma {:induction false} LiteralHasFirstType(p: Platform, kinds: seq<C.IntKind>, v: nat)
    requires p.target.Valid() && v <= LONG_LONG_MAX && forall k :: k in kinds ==> IsPromoted(k)
    ensures var r := FirstFitting(p, kinds, v);
            if r.None? then forall i :: 0 <= i < |kinds| ==> !Represents(p, kinds[i], v)
            else exists i :: FirstFor(p, kinds, v, i) && kinds[i] == r.value
    decreases kinds
  {
    hide Represents;
    if kinds == [] { return; }
    MaximumRepresents(p, kinds[0], v);
    if v <= Maximum(p, kinds[0]) {
      assert FirstFor(p, kinds, v, 0);
      return;
    }
    var rest := kinds[1..];
    LiteralHasFirstType(p, rest, v);
    assert forall i :: 0 < i < |kinds| ==> kinds[i] == rest[i - 1];
    if FirstFitting(p, rest, v).Some? {
      var i :| FirstFor(p, rest, v, i) && rest[i] == FirstFitting(p, rest, v).value;
      forall j | 0 <= j < i + 1
        ensures !Represents(p, kinds[j], v)
      {
        if j > 0 { assert !Represents(p, rest[j - 1], v); }
      }
      assert FirstFor(p, kinds, v, i + 1);
    }
  }

  // ----- conversions in the tree -----

  function Cast(e: Typed, to: Type, kind: Conversion): Typed {
    Typed(Implicit(kind, e), to, false)
  }

  /** The value of e: arrays and functions become pointers, and objects are read. */
  function Value(e: Typed): (r: Typed)
    ensures !r.ty.Array? && !r.ty.Function? && !r.lval
  {
    if e.ty.Array? then Cast(e, PointerTo(e.ty.elem), ArrayToPointer)
    else if e.ty.Function? then Cast(e, PointerTo(e.ty), FunctionToPointer)
    else if e.lval then Cast(e, Unqualified(e.ty), LValueToRValue)
    else e
  }

  predicate NullConstant(e: Typed)
    decreases e
  {
    match e.node
    case Implicit(_, operand) => e.ty.IsIntegral() && NullConstant(operand)
    case Constant(_, IntegerLiteral(v, _, _)) => v == 0
    case Unary(op, operand) => (op == P.Pos || op == P.Neg) && NullConstant(operand)
    case _ => false
  }

  predicate PointerConvertible(to: Type, from: Type) {
    && to.Pointer? && from.Pointer?
    && Within(from.pointee.quals, to.pointee.quals)
    && (|| Compatible(to.pointee, from.pointee, true)
        || (to.pointee.Void? && !from.pointee.Function?)
        || (from.pointee.Void? && !to.pointee.Function?))
  }

  function CommonPointer(a: Type, b: Type, allowVoid: bool): Option<Type>
    requires a.Pointer? && b.Pointer?
  {
    var pa, pb := a.pointee, b.pointee;
    if !Compatible(pa, pb, true)
       && !(allowVoid && ((pa.Void? && !pb.Function?) || (pb.Void? && !pa.Function?))) then None
    else
      var t := if pa.Void? then pa else if pb.Void? then pb else pa;
      Some(PointerTo(Qualified(t, Qualifiers.Union(pa.quals, pb.quals))))
  }

  /** How a value of type from gets to type to, when it does. */
  datatype Way = AsIs | Through(kind: Conversion) | NoWay

  function WayTo(to: Type, from: Type, nullConstant: bool): Way {
    if Compatible(to, from, true) then AsIs
    else if to.IsArithmetic() && from.IsArithmetic() then Through(Arithmetic)
    else if to.Pointer? && nullConstant then Through(NullToPointer)
    else if PointerConvertible(to, from) then Through(PointerConversion)
    else NoWay
  }

  /** e as a value of type to; None when it cannot be converted. */
  function Convert(e: Typed, to: Type): Option<Typed> {
    var v := Value(e);
    match WayTo(Unqualified(to), v.ty, NullConstant(v))
    case AsIs => Some(v)
    case Through(kind) => Some(Cast(v, Unqualified(to), kind))
    case NoWay => None
  }

  function DefaultPromote(e: Typed): Typed {
    var v := Value(e);
    var to := if HasSize(v.ty, Float) then Floating(Double, NO_QUALS) else Promoted(v.ty);
    if Compatible(v.ty, to, false) then v else Cast(v, to, DefaultPromotion)
  }

  lemma {:induction false} ValueTwice(e: Typed)
    ensures Value(Value(e)) == Value(e)
  {
  }

  lemma {:induction false} UnqualifiedAlike(t: Type)
    requires !t.Array?
    ensures Unqualified(Unqualified(t)) == Unqualified(t) && Unqualified(t).quals == NO_QUALS
    ensures Compatible(Unqualified(t), t, true)
  {
    CompatibleReflexive(t, true);
    match t
    case Pointer(p, _) => CompatibleReflexive(p, false);
    case Function(r, ps, _, _, _) => {
      CompatibleReflexive(r, true);
      CompatibleAllReflexive(ps);
    }
    case _ =>
  }

  lemma {:induction false} IgnoringQualifiers(a: Type, b: Type, c: Type)
    requires Compatible(a, b, true) && !a.Array? && c == Qualified(a, c.quals)
    ensures Compatible(c, b, true)
  {
  }

  /** Both pointers convert to their common pointer type, and neither loses a qualifier of what it points to. */
  lemma {:induction false} CommonPointerConverts(a: Type, b: Type, allowVoid: bool)
    requires a.Pointer? && b.Pointer? && WellFormed(a) && WellFormed(b) && CommonPointer(a, b, allowVoid).Some?
    ensures var t := CommonPointer(a, b, allowVoid).value;
            && WellFormed(t)
            && Within(a.pointee.quals, t.pointee.quals) && Within(b.pointee.quals, t.pointee.quals)
            && forall n :: WayTo(t, a, n) != NoWay && WayTo(t, b, n) != NoWay
  {
    var pa, pb := a.pointee, b.pointee;
    var quals := Qualifiers.Union(pa.quals, pb.quals);
    var t := CommonPointer(a, b, allowVoid).value;
    var base := if pa.Void? then pa else if pb.Void? then pb else pa;
    QualifiedWellFormed(base, quals);
    if Compatible(pa, pb, true) {
      if base.Array? {
        // The element types agree in their qualifiers, and both arrays' qualifiers are among those.
        assert Compatible(pa.elem, pb.elem, false);
        assert pa.elem.quals == pb.elem.quals;
        SameQualifiers(pa.elem);
        assert Qualifiers.Union(pa.elem.quals, quals) == pa.elem.quals;
        assert t.pointee == Array(pa.elem, pa.bound, quals);
        CompatibleReflexive(pa.elem, false);
      } else {
        CompatibleReflexive(pa, true);
        IgnoringQualifiers(pa, pa, Qualified(pa, quals));
        IgnoringQualifiers(pa, pb, Qualified(pa, quals));
        if pb.Void? { assert pa.Void?; }
      }
    }
  }

  /** A pointer that is converted as a pointer keeps every qualifier of what it points to. */
  lemma {:induction false} PointeeQualifiersKept(e: Typed, to: Type)
    requires to.Pointer? && Value(e).ty.Pointer? && Convert(e, to).Some? && !NullConstant(Value(e))
    ensures Within(Value(e).ty.pointee.quals, to.pointee.quals)
    ensures Convert(e, to).value.ty.Pointer? && Convert(e, to).value.ty.pointee.quals == to.pointee.quals
  {
    var from, target := Value(e).ty, Unqualified(to);
    assert target == Pointer(to.pointee, NO_QUALS);
    if Compatible(target, from, true) {
      assert Compatible(to.pointee, from.pointee, false);
      assert to.pointee.quals == from.pointee.quals;
    } else {
      assert PointerConvertible(target, from);
    }
  }
}
