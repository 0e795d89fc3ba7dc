/** C types as semantic analysis compares and qualifies them. Typedef names are resolved, and a struct, union or enum is
    its tag. */
module SemaTypes {
  import C = CAst
  import opened Qualifiers

  datatype FloatKind = Float | Double | LongDouble
  datatype TagKind = Struct | Union | Enum

  datatype Type =
    | Void(quals: Quals)
    | Integer(kind: C.IntKind, quals: Quals)
    | Floating(size: FloatKind, quals: Quals)
    | Pointer(pointee: Type, quals: Quals)
    | Array(elem: Type, bound: int, quals: Quals)  // a negative bound: none was given
    | Function(ret: Type, params: seq<Type>, variadic: bool, hasPrototype: bool, quals: Quals)
    | Tagged(sort: TagKind, tag: string, quals: Quals)
  {
    predicate IsIntegral() { Integer? || (Tagged? && sort == Enum) }
    predicate IsArithmetic() { IsIntegral() || Floating? }
    predicate IsScalar() { IsArithmetic() || Pointer? }

    /** Bodies of structs, unions and enums are not parsed, so those never become complete. */
    predicate IsComplete() {
      match this
      case Void(_) => false
      case Function(_, _, _, _, _) => false
      case Array(e, n, _) => n > 0 && e.IsComplete()
      case Tagged(_, _, _) => false
      case _ => true
    }
  }

  const INT := Integer(C.Int, NO_QUALS)

  function PointerTo(t: Type): Type { Pointer(t, NO_QUALS) }

  function RankOf(k: C.IntKind): nat {
    match k
    case Bool => 0
    case Char | SChar | UChar => 1
    case Short | UShort => 2
    case Int | UInt => 3
    case Long | ULong => 4
    case LongLong | ULongLong => 5
  }

  function Rank(t: Type): nat
    requires t.IsIntegral()
  {
    if t.Integer? then RankOf(t.kind) else 3
  }

  /** A copy of base with exactly these qualifiers; an array hands them on to its elements. */
  function Qualified(base: Type, quals: Quals): (t: Type)
    ensures t.quals == quals
    decreases base
  {
    match base
    case Array(e, n, _) => Array(Qualified(e, Qualifiers.Union(e.quals, quals)), n, quals)
    case Void(_) => Void(quals)
    case Integer(k, _) => Integer(k, quals)
    case Floating(k, _) => Floating(k, quals)
    case Pointer(p, _) => Pointer(p, quals)
    case Function(r, ps, v, h, _) => Function(r, ps, v, h, quals)
    case Tagged(k, tag, _) => Tagged(k, tag, quals)
  }

  function Unqualified(t: Type): Type {
    if t.quals == NO_QUALS then t else Qualified(t, NO_QUALS)
  }

  // ----- compatibility -----

  predicate SameKind(a: Type, b: Type) {
    match a
    case Void(_) => b.Void?
    case Integer(k, _) => b.Integer? && b.kind == k
    case Floating(k, _) => b.Floating? && b.size == k
    case Pointer(_, _) => b.Pointer?
    case Array(_, _, _) => b.Array?
    case Function(_, _, _, _, _) => b.Function?
    case Tagged(k, _, _) => b.Tagged? && b.sort == k
  }

  /** A parameter type that default argument promotion changes. */
  predicate Promotable(t: Type) {
    (t.Floating? && t.size == Float) || (t.IsIntegral() && Rank(t) < 3)
  }

  predicate Compatible(a: Type, b: Type, ignoreQuals: bool)
    decreases a
  {
    && SameKind(a, b) && (ignoreQuals || a.quals == b.quals)
    && match a
       case Pointer(p, _) => Compatible(p, b.pointee, false)
       case Array(e, n, _) => (n < 0 || b.bound < 0 || n == b.bound) && Compatible(e, b.elem, false)
       case Function(r, ps, v, h, _) =>
         && Compatible(r, b.ret, true)
         && if h && b.hasPrototype then v == b.variadic && CompatibleAll(ps, b.params)
            else MatchesUnprototyped(if h then a else b)
       case Tagged(_, tag, _) => tag == b.tag
       case _ => true
  }

  predicate CompatibleAll(a: seq<Type>, b: seq<Type>)
    decreases a
  {
    if a == [] || b == [] then a == [] && b == []
    else Compatible(a[0], b[0], true) && CompatibleAll(a[1..], b[1..])
  }

  /** The function type without a prototype is compatible with this one, as far as parameters go. */
  predicate MatchesUnprototyped(f: Type)
    requires f.Function?
  {
    f.hasPrototype ==> !f.variadic && forall p :: p in f.params ==> !Promotable(p)
  }

  lemma {:induction false} CompatibleReflexive(a: Type, ignoreQuals: bool)
    ensures Compatible(a, a, ignoreQuals)
    decreases a
  {
    match a
    case Pointer(p, _) => CompatibleReflexive(p, false);
    case Array(e, _, _) => CompatibleReflexive(e, false);
    case Function(r, ps, _, _, _) => {
      CompatibleReflexive(r, true);
      CompatibleAllReflexive(ps);
    }
    case _ =>
  }

  lemma {:induction false} CompatibleAllReflexive(a: seq<Type>)
    ensures CompatibleAll(a, a)
    decreases a
  {
    if a != [] {
      CompatibleReflexive(a[0], true);
      CompatibleAllReflexive(a[1..]);
    }
  }

  lemma {:induction false} CompatibleSymmetric(a: Type, b: Type, ignoreQuals: bool)
    ensures Compatible(a, b, ignoreQuals) <==> Compatible(b, a, ignoreQuals)
    decreases a
  {
    if SameKind(a, b) {
      match a
      case Pointer(p, _) => CompatibleSymmetric(p, b.pointee, false);
      case Array(e, _, _) => CompatibleSymmetric(e, b.elem, false);
      case Function(r, ps, _, _, _) => {
        CompatibleSymmetric(r, b.ret, true);
        CompatibleAllSymmetric(ps, b.params);
      }
      case _ =>
    }
  }

  lemma {:induction false} CompatibleAllSymmetric(a: seq<Type>, b: seq<Type>)
    ensures CompatibleAll(a, b) <==> CompatibleAll(b, a)
    decreases a
  {
    if a != [] && b != [] {
      CompatibleSymmetric(a[0], b[0], true);
      CompatibleAllSymmetric(a[1..], b[1..]);
    }
  }

  /** Nothing in the type is left open: every array has a bound and every function a prototype. */
  predicate Definite(t: Type)
    decreases t
  {
    match t
    case Pointer(p, _) => Definite(p)
    case Array(e, n, _) => n >= 0 && Definite(e)
    case Function(r, ps, _, h, _) => h && Definite(r) && DefiniteAll(ps)
    case _ => true
  }

  predicate DefiniteAll(ts: seq<Type>)
    decreases ts
  {
    ts == [] || (Definite(ts[0]) && DefiniteAll(ts[1..]))
  }

  /** Compatibility is not transitive: it can be chained through b exactly when b leaves nothing open. */
  lemma {:induction false} ChainsExactlyThroughDefinite(b: Type)
    ensures (forall a, c :: Compatible(a, b, false) && Compatible(b, c, false) ==> Compatible(a, c, false)) <==>
        Definite(b)
  {
    if Definite(b) {
      forall a, c | Compatible(a, b, false) && Compatible(b, c, false)
        ensures Compatible(a, c, false)
      {
        ThroughDefinite(a, b, c, false);
      }
    } else {
      FillCompatible(b, 1, false);
      FillCompatible(b, 2, false);
      CompatibleSymmetric(b, Fill(b, 2), false);
      FillsDiffer(b, false);
    }
  }

  /** int[2] and int[3] are both compatible with int[], but not with each other. */
  lemma {:induction false} UnknownSizeLinksSizes()
    ensures var two, unknown, three := Array(INT, 2, NO_QUALS), Array(INT, -1, NO_QUALS), Array(INT, 3, NO_QUALS);
            Compatible(two, unknown, false) && Compatible(unknown, three, false) && !Compatible(two, three, false)
  {
  }

  lemma {:induction false} ThroughDefinite(a: Type, b: Type, c: Type, ignoreQuals: bool)
    requires Definite(b) && Compatible(a, b, ignoreQuals) && Compatible(b, c, ignoreQuals)
    ensures Compatible(a, c, ignoreQuals)
    decreases b
  {
    match b
    case Pointer(p, _) => ThroughDefinite(a.pointee, p, c.pointee, false);
    case Array(e, _, _) => ThroughDefinite(a.elem, e, c.elem, false);
    case Function(r, ps, _, _, _) => {
      ThroughDefinite(a.ret, r, c.ret, true);
      if a.hasPrototype && c.hasPrototype {
        AllThroughDefinite(a.params, ps, c.params);
      } else if a.hasPrototype {
        CompatibleAllSymmetric(a.params, ps);
        PromotableAlike(ps, a.params);
      } else if c.hasPrototype {
        PromotableAlike(ps, c.params);
      }
    }
    case _ =>
  }

  lemma {:induction false} AllThroughDefinite(a: seq<Type>, b: seq<Type>, c: seq<Type>)
    requires DefiniteAll(b) && CompatibleAll(a, b) && CompatibleAll(b, c)
    ensures CompatibleAll(a, c)
    decreases b
  {
    if b != [] {
      ThroughDefinite(a[0], b[0], c[0], true);
      AllThroughDefinite(a[1..], b[1..], c[1..]);
    }
  }

  lemma {:induction false} PromotableAlike(a: seq<Type>, b: seq<Type>)
    requires CompatibleAll(a, b) && forall p :: p in a ==> !Promotable(p)
    ensures forall p :: p in b ==> !Promotable(p)
    decreases |b|
  {
    if b != [] {
      PromotableAlike(a[1..], b[1..]);
      assert a[0] in a && !Promotable(b[0]);
      forall p | p in b
        ensures !Promotable(p)
      {
        assert p == b[0] || p in b[1..];
      }
    }
  }

  /** The type with every missing bound set to k and every missing prototype filled with k int parameters. */
  function Fill(t: Type, k: nat): Type
    decreases t
  {
    match t
    case Pointer(p, q) => Pointer(Fill(p, k), q)
    case Array(e, n, q) => Array(Fill(e, k), if n < 0 then k else n, q)
    case Function(r, ps, v, h, q) =>
      if h then Function(Fill(r, k), FillAll(ps, k), v, true, q) else Function(Fill(r, k), seq(k, i => INT), false,
          true, q)
    case _ => t
  }

  function FillAll(ts: seq<Type>, k: nat): seq<Type>
    decreases ts
  {
    if ts == [] then [] else [Fill(ts[0], k)] + FillAll(ts[1..], k)
  }

  lemma {:induction false} FillCompatible(t: Type, k: nat, ignoreQuals: bool)
    ensures Compatible(Fill(t, k), t, ignoreQuals)
    decreases t
  {
    match t
    case Pointer(p, _) => FillCompatible(p, k, false);
    case Array(e, _, _) => FillCompatible(e, k, false);
    case Function(r, ps, _, h, _) => {
      FillCompatible(r, k, true);
      if h { FillAllCompatible(ps, k); }
    }
    case _ =>
  }

  lemma {:induction false} FillAllCompatible(ts: seq<Type>, k: nat)
    ensures CompatibleAll(FillAll(ts, k), ts)
    decreases ts
  {
    if ts != [] {
      FillCompatible(ts[0], k, true);
      FillAllCompatible(ts[1..], k);
    }
  }

  lemma {:induction false} FillsDiffer(t: Type, ignoreQuals: bool)
    requires !Definite(t)
    ensures !Compatible(Fill(t, 1), Fill(t, 2), ignoreQuals)
    decreases t
  {
    match t
    case Pointer(p, _) => FillsDiffer(p, false);
    case Array(e, n, _) => if n >= 0 { FillsDiffer(e, false); }
    case Function(r, ps, _, h, _) =>
      if !h {
        LengthsAlike(Fill(t, 1).params, Fill(t, 2).params);
      } else if !Definite(r) {
        FillsDiffer(r, true);
      } else {
        FillAllDiffer(ps);
      }
  }

  lemma {:induction false} FillAllDiffer(ts: seq<Type>)
    requires !DefiniteAll(ts)
    ensures !CompatibleAll(FillAll(ts, 1), FillAll(ts, 2))
    decreases ts
  {
    if !Definite(ts[0]) { FillsDiffer(ts[0], true); } else { FillAllDiffer(ts[1..]); }
  }

  lemma {:induction false} LengthsAlike(a: seq<Type>, b: seq<Type>)
    ensures CompatibleAll(a, b) ==> |a| == |b|
    decreases a
  {
    if a != [] && b != [] { LengthsAlike(a[1..], b[1..]); }
  }

  // ----- the invariant of qualified types -----

  /** Whatever qualifies an array also qualifies its elements. */
  predicate WellFormed(t: Type)
    decreases t
  {
    match t
    case Pointer(p, _) => WellFormed(p)
    case Array(e, _, q) => Within(q, e.quals) && WellFormed(e)
    case Function(r, ps, _, _, _) => WellFormed(r) && forall p :: p in ps ==> WellFormed(p)
    case _ => true
  }

  /** A declared type: qualifiers of arrays have been handed on to the elements. */
  type DeclaredType = t: Type | WellFormed(t) witness INT

  /** The declared type of a function; without a prototype it lists no parameters. */
  type FunctionType = t: Type | WellFormed(t) && t.Function? && (!t.hasPrototype ==> t.params == [])
    witness Function(INT, [], false, true, NO_QUALS)

  lemma {:induction false} QualifiedWellFormed(t: Type, quals: Quals)
    requires WellFormed(t)
    ensures WellFormed(Qualified(t, quals))
    decreases t
  {
    if t.Array? { QualifiedWellFormed(t.elem, Qualifiers.Union(t.elem.quals, quals)); }
  }

  lemma {:induction false} SameQualifiers(t: Type)
    requires WellFormed(t)
    ensures Qualified(t, t.quals) == t
    decreases t
  {
    if t.Array? {
      assert Qualifiers.Union(t.elem.quals, t.quals) == t.elem.quals;
      SameQualifiers(t.elem);
    }
  }

  // ----- declared types -----

  /** Parameters of array or function type become pointers. */
  function Normalized(t: Type): Type
    decreases t
  {
    match t
    case Pointer(p, q) => Pointer(Normalized(p), q)
    case Array(e, n, q) => Array(Normalized(e), n, q)
    case Function(r, ps, v, h, q) => Function(Normalized(r), NormalizedParams(ps), v, h, q)
    case _ => t
  }

  function NormalizedParams(ps: seq<Type>): seq<Type>
    decreases ps
  {
    if ps == [] then [] else [Adjusted(Normalized(ps[0]))] + NormalizedParams(ps[1..])
  }

  function Adjusted(p: Type): Type {
    if p.Array? then PointerTo(p.elem) else if p.Function? then PointerTo(p) else p
  }

  /** Array parameters are valid types before they are adjusted. */
  predicate ArrayParamsValid(t: Type)
    decreases t
  {
    match t
    case Pointer(p, _) => ArrayParamsValid(p)
    case Array(e, _, _) => ArrayParamsValid(e)
    case Function(r, ps, _, _, _) =>
      ArrayParamsValid(r) && forall p :: p in ps ==> ArrayParamsValid(p) && (p.Array? ==> Valid(Normalized(p)))
    case _ => true
  }

  predicate Valid(t: Type)
    decreases t
  {
    match t
    case Pointer(p, _) => Valid(p)
    case Array(e, n, _) => e.IsComplete() && n != 0 && Valid(e)
    case Function(r, ps, v, _, _) =>
      && !r.Array? && !r.Function? && Valid(r)
      && !(v && ps == [])
      && forall p :: p in ps ==> !p.Void? && Valid(p)
    case _ => true
  }

  lemma {:induction false} NormalizedWellFormed(t: Type)
    requires WellFormed(t)
    ensures WellFormed(Normalized(t)) && Normalized(t).quals == t.quals
    ensures t.Function? ==> |Normalized(t).params| == |t.params|
    decreases t
  {
    match t
    case Pointer(p, _) => NormalizedWellFormed(p);
    case Array(e, _, _) => NormalizedWellFormed(e);
    case Function(r, ps, _, _, _) => {
      NormalizedWellFormed(r);
      ParamsWellFormed(ps);
    }
    case _ =>
  }

  lemma {:induction false} ParamsWellFormed(ps: seq<Type>)
    requires forall p :: p in ps ==> WellFormed(p)
    ensures |NormalizedParams(ps)| == |ps| && forall p :: p in NormalizedParams(ps) ==> WellFormed(p)
    decreases ps
  {
    if ps != [] {
      NormalizedWellFormed(ps[0]);
      ParamsWellFormed(ps[1..]);
      var first := Adjusted(Normalized(ps[0]));
      assert WellFormed(first);
    }
  }
}
