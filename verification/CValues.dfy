/** The values of C's integer types, and what converting a number to a type gives (C99 sections 6.2.5, 6.2.6.2 and
    6.3.1.3), from the widths alone. */
module CValues {
  import opened CAst
  import opened Integers

  function BitsOf(target: Target, kind: IntKind): (w: nat)
    requires target.Valid()
    ensures w > 0
  {
    match kind
    case Bool => 1
    case Char | SChar | UChar => 8
    case Short | UShort => target.shortBits
    case Int | UInt => target.intBits
    case Long | ULong => target.longBits
    case LongLong | ULongLong => target.longLongBits
  }

  /** Char is signed; _Bool holds 0 and 1. */
  predicate HoldsNegatives(kind: IntKind) {
    match kind
    case Char | SChar | Short | Int | Long | LongLong => true
    case Bool | UChar | UShort | UInt | ULong | ULongLong => false
  }

  /** v is a value of the type: two's complement for the types with negative values. */
  predicate IsValue(target: Target, kind: IntKind, v: int)
    requires target.Valid()
  {
    if HoldsNegatives(kind) then 0 - Pow2(BitsOf(target, kind) - 1) <= v < Pow2(BitsOf(target, kind) - 1)
    else 0 <= v < Pow2(BitsOf(target, kind))
  }

  /** The value of the type that differs from v by a multiple of 2 to the type's width. */
  function Reduced(target: Target, kind: IntKind, v: int): (r: int)
    requires target.Valid()
    ensures IsValue(target, kind, r) && (r - v) % Pow2(BitsOf(target, kind)) == 0
  {
    var m := Pow2(BitsOf(target, kind));
    var r := v % m;
    assert v == (v / m) * m + r;
    UniqueRemainder(r - v, -(v / m), 0, m);
    if HoldsNegatives(kind) && r >= Pow2(BitsOf(target, kind) - 1) then
      assert r - m - v == (-(v / m) - 1) * m by { assert (-(v / m) - 1) * m == -(v / m) * m - m; }
      UniqueRemainder(r - m - v, -(v / m) - 1, 0, m);
      r - m
    else r
  }

  /** What v becomes in the type: _Bool asks whether it is zero, every other type reduces it. */
  function ConvertTo(target: Target, kind: IntKind, v: int): (r: int)
    requires target.Valid()
    ensures IsValue(target, kind, r)
  {
    if kind == Bool then BoolRange(); if v == 0 then 0 else 1 else Reduced(target, kind, v)
  }

  lemma {:induction false} BoolRange()
    ensures Pow2(1) == 2
  {
  }

  lemma {:induction false} ValuesAreClose(target: Target, kind: IntKind, a: int, b: int)
    requires target.Valid() && IsValue(target, kind, a) && IsValue(target, kind, b)
    ensures 0 - Pow2(BitsOf(target, kind)) < a - b < Pow2(BitsOf(target, kind))
  {
    var w := BitsOf(target, kind);
    assert Pow2(w) == 2 * Pow2(w - 1);
  }

  lemma {:induction false} CloseAndCongruent(a: int, b: int, v: int, m: int)
    requires m > 0 && (a - v) % m == 0 && (b - v) % m == 0 && 0 - m < a - b < m
    ensures a == b
  {
    var x, y := (a - v) / m, (b - v) / m;
    assert a - v == x * m && b - v == y * m;
    assert (x - y) * m == x * m - y * m;
    MultipleIsFar(x - y, m);
  }

  /** Only one value of the type is congruent to v. */
  lemma {:induction false} ReducedIsOnly(target: Target, kind: IntKind, v: int, r: int)
    requires target.Valid() && IsValue(target, kind, r) && (r - v) % Pow2(BitsOf(target, kind)) == 0
    ensures r == Reduced(target, kind, v)
  {
    hide Pow2, BitsOf;
    ValuesAreClose(target, kind, r, Reduced(target, kind, v));
    CloseAndCongruent(r, Reduced(target, kind, v), v, Pow2(BitsOf(target, kind)));
  }

  /** Values of the type are not changed. */
  lemma {:induction false} ValuesStay(target: Target, kind: IntKind, v: int)
    requires target.Valid() && IsValue(target, kind, v)
    ensures Reduced(target, kind, v) == v && ConvertTo(target, kind, v) == v
  {
    UniqueRemainder(0, 0, 0, Pow2(BitsOf(target, kind)));
    ReducedIsOnly(target, kind, v, v);
    BoolRange();
  }

  // ----- the conversions of code generation -----

  lemma {:induction false} SameWidths(target: Target, kind: IntKind)
    requires target.Valid()
    ensures target.Width(kind) == BitsOf(target, kind) && IsSigned(kind) == HoldsNegatives(kind)
  {
  }

  /** Reading stored bits back is reduction to the type. */
  lemma {:induction false} WrapReduces(target: Target, kind: IntKind, v: int)
    requires target.Valid()
    ensures target.Wrap(kind, v) == Reduced(target, kind, v) && target.Convert(kind, v) == ConvertTo(target, kind, v)
  {
    hide Pow2;
    SameWidths(target, kind);
  }
}
