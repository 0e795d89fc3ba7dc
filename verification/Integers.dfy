/** Fixed-width integers: bit patterns, their signed reading, and the arithmetic facts the lowering proof needs. A bit
    pattern of width w is a natural number below Pow2(w). */
module Integers {

  function Pow2(w: nat): (p: nat)
    ensures p > 0
  {
    if w == 0 then 1 else 2 * Pow2(w - 1)
  }

  function Max(a: nat, b: nat): nat { if a >= b then a else b }

  /** The bit pattern of width w that represents v. */
  function Bits(w: nat, v: int): (b: nat)
    ensures b < Pow2(w)
  {
    v % Pow2(w)
  }

  /** The two's-complement reading of a bit pattern. */
  function Signed(w: nat, b: nat): (v: int)
    requires w > 0 && b < Pow2(w)
    ensures 0 - Pow2(w - 1) <= v < Pow2(w - 1)
  {
    if b < Pow2(w - 1) then b else b - Pow2(w)
  }

  /** The reading of a bit pattern under a signedness. */
  function Reading(isSigned: bool, w: nat, b: nat): (v: int)
    requires w > 0 && b < Pow2(w)
  {
    if isSigned then Signed(w, b) else b
  }

  lemma {:induction false} Congruent(a: int, b: int, k: int, m: int)
    requires m > 0 && a == b + k * m
    ensures a % m == b % m
  {
    var q, r := b / m, b % m;
    assert b == q * m + r;
    assert a == (q + k) * m + r by { assert (q + k) * m == q * m + k * m; }
    UniqueRemainder(a, q + k, r, m);
  }

  lemma {:induction false} UniqueRemainder(a: int, q: int, r: int, m: int)
    requires m > 0 && 0 <= r < m && a == q * m + r
    ensures a / m == q && a % m == r
  {
    var q', r' := a / m, a % m;
    assert a == q' * m + r';
    assert (q - q') * m == r' - r by { assert (q - q') * m == q * m - q' * m; }
    MultipleIsFar(q - q', m);
  }

  lemma {:induction false} MultipleIsFar(x: int, m: int)
    requires m > 0
    ensures x >= 1 ==> x * m >= m
    ensures x <= -1 ==> x * m <= -m
  {
    if x >= 1 {
      assert (x - 1) * m >= 0;
    } else if x <= -1 {
      assert (-x - 1) * m >= 0;
    }
  }

  /** Encoding and reading are inverse on bit patterns. */
  lemma {:induction false} BitsOfReading(isSigned: bool, w: nat, b: nat)
    requires w > 0 && b < Pow2(w)
    ensures Bits(w, Reading(isSigned, w, b)) == b
  {
    var m := Pow2(w);
    var k := ReadingOffset(isSigned, w, b);
    Congruent(Reading(isSigned, w, b), b, k, m);
    UniqueRemainder(b, 0, b, m);
  }

  lemma {:induction false} SmallPow2(w: nat)
    requires w > 0
    ensures Pow2(w) >= 2
  {
  }

  lemma {:induction false} Pow2Grows(v: nat, w: nat)
    requires v <= w
    ensures Pow2(v) <= Pow2(w)
    decreases w
  {
    if v < w { Pow2Grows(v, w - 1); }
  }

  /** A reading differs from its bit pattern by a multiple of 2^w. */
  lemma {:induction false} ReadingOffset(isSigned: bool, w: nat, b: nat) returns (k: int)
    requires w > 0 && b < Pow2(w)
    ensures Reading(isSigned, w, b) == b + k * Pow2(w)
  {
    k := if isSigned && b >= Pow2(w - 1) then -1 else 0;
  }

  lemma {:induction false} SumOfReadings(isSigned: bool, w: nat, a: nat, b: nat)
    requires w > 0 && a < Pow2(w) && b < Pow2(w)
    ensures Bits(w, Reading(isSigned, w, a) + Reading(isSigned, w, b)) == Bits(w, a + b)
  {
    var m := Pow2(w);
    var i := ReadingOffset(isSigned, w, a);
    var j := ReadingOffset(isSigned, w, b);
    assert (a + i * m) + (b + j * m) == (a + b) + (i + j) * m;
    Congruent((a + i * m) + (b + j * m), a + b, i + j, m);
  }

  lemma {:induction false} DifferenceOfReadings(isSigned: bool, w: nat, a: nat, b: nat)
    requires w > 0 && a < Pow2(w) && b < Pow2(w)
    ensures Bits(w, Reading(isSigned, w, a) - Reading(isSigned, w, b)) == Bits(w, a - b)
  {
    var m := Pow2(w);
    var i := ReadingOffset(isSigned, w, a);
    var j := ReadingOffset(isSigned, w, b);
    assert (a + i * m) - (b + j * m) == (a - b) + (i - j) * m;
    Congruent((a + i * m) - (b + j * m), a - b, i - j, m);
  }

  lemma {:induction false} ProductOfReadings(isSigned: bool, w: nat, a: nat, b: nat)
    requires w > 0 && a < Pow2(w) && b < Pow2(w)
    ensures Bits(w, Reading(isSigned, w, a) * Reading(isSigned, w, b)) == Bits(w, a * b)
  {
    var m := Pow2(w);
    var i := ReadingOffset(isSigned, w, a);
    var j := ReadingOffset(isSigned, w, b);
    ProductExpansion(a, b, i, j, m);
    Congruent((a + i * m) * (b + j * m), a * b, a * j + i * (b + j * m), m);
  }

  lemma {:induction false} ProductExpansion(a: int, b: int, i: int, j: int, m: int)
    ensures (a + i * m) * (b + j * m) == a * b + (a * j + i * (b + j * m)) * m
  {
    var y := b + j * m;
    assert (a + i * m) * y == a * y + (i * m) * y;
    assert a * y == a * b + a * (j * m);
    assert a * (j * m) == (a * j) * m;
    assert (i * m) * y == (i * y) * m;
    assert (a * j) * m + (i * y) * m == (a * j + i * y) * m;
  }

  /** Narrowing: the low bits of a reading are the low bits of its pattern. */
  lemma {:induction false} Pow2Splits(v: nat, w: nat) returns (k: nat)
    requires v <= w
    ensures Pow2(w) == k * Pow2(v)
    decreases w
  {
    if v == w {
      k := 1;
    } else {
      k := Pow2Splits(v, w - 1);
      assert 2 * (k * Pow2(v)) == (2 * k) * Pow2(v);
      k := 2 * k;
    }
  }

  lemma {:induction false} NarrowedReading(isSigned: bool, w: nat, to: nat, b: nat)
    requires w > 0 && b < Pow2(w) && to <= w
    ensures Bits(to, Reading(isSigned, w, b)) == Bits(to, b)
  {
    var k := Pow2Splits(to, w);
    var i := ReadingOffset(isSigned, w, b);
    var m := Pow2(to);
    assert i * (k * m) == (i * k) * m;
    Congruent(b + (i * k) * m, b, i * k, m);
  }
}
