/** The 64-bit values of #if expressions: how the evaluator combines bit patterns, and what C says the results are. */
module PPValues {
  import opened Integers
  import opened Wrappers

  const WIDTH: nat := 64

  type Word = b: nat | b < Pow2(WIDTH) witness 0

  /** A bit pattern with its signedness: intmax_t or uintmax_t. */
  datatype Value = Value(bits: Word, isUnsigned: bool) {
    function SignedValue(): (v: int)
      ensures 0 - Pow2(WIDTH - 1) <= v < Pow2(WIDTH - 1)
    {
      Signed(WIDTH, bits)
    }

    /** The number this value stands for. */
    function Number(): int {
      Reading(!isUnsigned, WIDTH, bits)
    }
  }

  const ZERO := Value(0, false)

  datatype Operator =
    | LogicalOr | LogicalAnd
    | BitOr | BitXor | BitAnd
    | Equal | NotEqual
    | Less | LessEqual | Greater | GreaterEqual
    | ShiftLeft | ShiftRight
    | Plus | Minus
    | Times | Divide | Remainder
    | Not | Complement

  datatype Problem =
    | NestingLimit | ExpectedExpression | BadNumber | BadCharacter | ExpectedParen | ExpectedColon | UnexpectedToken
    | ShiftCount | DivisionByZero | Overflow

  predicate IsLogical(op: Operator) {
    op in {LogicalAnd, LogicalOr, Equal, NotEqual, Less, LessEqual, Greater, GreaterEqual}
  }

  predicate IsShift(op: Operator) {
    op == ShiftLeft || op == ShiftRight
  }

  /** &, | or ^ on the low w bits. */
  function Bitwise(op: Operator, w: nat, a: nat, b: nat): (r: nat)
    ensures r < Pow2(w)
  {
    if w == 0 then 0
    else
      var x, y := a % 2 == 1, b % 2 == 1;
      var bit := match op
                 case BitAnd => x && y
                 case BitOr => x || y
                 case _ => x != y;
      2 * Bitwise(op, w - 1, a / 2, b / 2) + if bit then 1 else 0
  }

  function Bit(a: nat, k: nat): bool {
    a / Pow2(k) % 2 == 1
  }

  /** Bitwise acts on each bit separately. */
  lemma {:induction false} BitwiseAt(op: Operator, w: nat, a: nat, b: nat, k: nat)
    requires op in {BitAnd, BitOr, BitXor} && k < w
    ensures Bit(Bitwise(op, w, a, b), k)
         == match op
            case BitAnd => Bit(a, k) && Bit(b, k)
            case BitOr => Bit(a, k) || Bit(b, k)
            case _ => Bit(a, k) != Bit(b, k)
    decreases w
  {
    hide Bit;
    var r := Bitwise(op, w, a, b);
    if k == 0 {
      LowBit(a);
      LowBit(b);
      LowBit(r);
    } else {
      BitwiseAt(op, w - 1, a / 2, b / 2, k - 1);
      Halved(a, k);
      Halved(b, k);
      Halved(r, k);
      assert r / 2 == Bitwise(op, w - 1, a / 2, b / 2);
    }
  }

  lemma {:induction false} LowBit(a: nat)
    ensures Bit(a, 0) == (a % 2 == 1)
  {
    assert a / Pow2(0) == a;
  }

  lemma {:induction false} Halved(a: nat, k: nat)
    requires k > 0
    ensures Bit(a, k) == Bit(a / 2, k - 1)
  {
    var n := Pow2(k - 1);
    var h := a / 2;
    assert h == (h / n) * n + h % n && a == 2 * h + a % 2;
    assert a == (h / n) * (2 * n) + (2 * (h % n) + a % 2) by { assert 2 * ((h / n) * n) == (h / n) * (2 * n); }
    UniqueRemainder(a, h / n, 2 * (h % n) + a % 2, 2 * n);
  }

  /** Division as C does it, towards zero. */
  function Truncated(a: int, b: int): int
    requires b != 0
  {
    if a >= 0 then (if b > 0 then a / b else -(a / -b))
    else (if b > 0 then -(-a / b) else -a / -b)
  }

  function Flag(b: bool): Value {
    Value(if b then 1 else 0, false)
  }

  // ----- what the evaluator computes -----

  datatype Applied = Applied(value: Value, problem: Option<Problem>)

  function Done(v: Value): Applied { Applied(v, None) }
  function Failed(p: Problem): Applied { Applied(ZERO, Some(p)) }

  function Apply(op: Operator, left: Value, right: Value, evaluate: bool): Applied {
    var isUnsigned := if IsShift(op) then left.isUnsigned else left.isUnsigned || right.isUnsigned;
    if !evaluate then Done(Value(0, if IsLogical(op) then false else isUnsigned))
    else
      match op
      case LogicalAnd => Done(Flag(left.bits != 0 && right.bits != 0))
      case LogicalOr => Done(Flag(left.bits != 0 || right.bits != 0))
      case Equal => Done(Flag(left.bits == right.bits))
      case NotEqual => Done(Flag(left.bits != right.bits))
      case Less => Done(Flag(IsLess(left, right, isUnsigned)))
      case LessEqual => Done(Flag(IsLess(left, right, isUnsigned) || left.bits == right.bits))
      case Greater => Done(Flag(!IsLess(left, right, isUnsigned) && left.bits != right.bits))
      case GreaterEqual => Done(Flag(!IsLess(left, right, isUnsigned)))
      case Plus => Done(Value(Bits(WIDTH, left.bits + right.bits), isUnsigned))
      case Minus => Done(Value(Bits(WIDTH, left.bits - right.bits), isUnsigned))
      case Times => Done(Value(Bits(WIDTH, left.bits * right.bits), isUnsigned))
      case BitAnd => Done(Value(Bitwise(op, WIDTH, left.bits, right.bits), isUnsigned))
      case BitOr => Done(Value(Bitwise(op, WIDTH, left.bits, right.bits), isUnsigned))
      case BitXor => Done(Value(Bitwise(op, WIDTH, left.bits, right.bits), isUnsigned))
      case ShiftLeft =>
        if right.bits >= WIDTH then Failed(ShiftCount)
        else Done(Value(Bits(WIDTH, left.bits * Pow2(right.bits)), isUnsigned))
      case ShiftRight =>
        if right.bits >= WIDTH then Failed(ShiftCount)
        else if isUnsigned then Done(Value(Bits(WIDTH, left.bits / Pow2(right.bits)), isUnsigned))
        else Done(Value(Bits(WIDTH, left.SignedValue() / Pow2(right.bits)), isUnsigned))
      case _ => Quotient(op, left, right, isUnsigned)
  }

  function IsLess(left: Value, right: Value, isUnsigned: bool): bool {
    if isUnsigned then left.bits < right.bits else left.SignedValue() < right.SignedValue()
  }

  /** / and, for every other operator, %. */
  function Quotient(op: Operator, left: Value, right: Value, isUnsigned: bool): Applied {
    if right.bits == 0 then Failed(DivisionByZero)
    else if isUnsigned then
      Done(Value(Bits(WIDTH, if op == Divide then left.bits / right.bits else left.bits % right.bits), true))
    else
      var a, b := left.SignedValue(), right.SignedValue();
      if a == 0 - Pow2(WIDTH - 1) && b == -1 then Failed(Overflow)
      else
        var q := if b == 0 then 0 else Truncated(a, b);
        Done(Value(Bits(WIDTH, if op == Divide then q else a - b * q), false))
  }

  // ----- what the results mean -----

  datatype Meaning = Means(number: int) | Fault(problem: Problem)

  function Truth(b: bool): Meaning { Means(if b then 1 else 0) }

  /** The number of the given type congruent to v. */
  function Wrap(isUnsigned: bool, v: int): int {
    Reading(!isUnsigned, WIDTH, Bits(WIDTH, v))
  }

  /** A binary operation on numbers of the given types, after the usual conversions (C99 sections 6.10.1 and 6.5.5 to
      6.5.12). The logical operators are not here: they do not always evaluate both operands. */
  function Compute(op: Operator, leftUnsigned: bool, rightUnsigned: bool, left: int, right: int): Meaning {
    var u := leftUnsigned || rightUnsigned;
    var a, b := Wrap(u, left), Wrap(u, right);
    match op
    case Equal => Truth(a == b)
    case NotEqual => Truth(a != b)
    case Less => Truth(a < b)
    case LessEqual => Truth(a <= b)
    case Greater => Truth(a > b)
    case GreaterEqual => Truth(a >= b)
    case Plus => Means(Wrap(u, a + b))
    case Minus => Means(Wrap(u, a - b))
    case Times => Means(Wrap(u, a * b))
    case ShiftLeft => if 0 <= right < WIDTH then Means(Wrap(leftUnsigned, left * Pow2(right))) else Fault(ShiftCount)
    case ShiftRight => if 0 <= right < WIDTH then Means(left / Pow2(right)) else Fault(ShiftCount)
    case Divide => if b == 0 then Fault(DivisionByZero) else if Overflows(u, a,
        b) then Fault(Overflow) else Means(Truncated(a, b))
    case Remainder =>
      if b == 0 then Fault(DivisionByZero) else if Overflows(u, a,
                                                             b) then Fault(Overflow) else Means(a - b * Truncated(a, b))
    case _ => Means(Wrap(u, Bitwise(op, WIDTH, Bits(WIDTH, a), Bits(WIDTH, b))))
  }

  predicate Overflows(isUnsigned: bool, a: int, b: int) {
    !isUnsigned && a == 0 - Pow2(WIDTH - 1) && b == -1
  }

  /** What an applied operation says. */
  function Said(a: Applied): Meaning {
    match a.problem
    case None => Means(a.value.Number())
    case Some(p) => Fault(p)
  }

  // ----- the two agree -----

  lemma {:induction false} WrapNumber(v: Value, isUnsigned: bool)
    ensures Wrap(isUnsigned, v.Number()) == Value(v.bits, isUnsigned).Number()
    ensures Bits(WIDTH, v.Number()) == v.bits
  {
    BitsOfReading(!v.isUnsigned, WIDTH, v.bits);
  }

  lemma {:induction false} InRange(isUnsigned: bool, v: int)
    requires if isUnsigned then 0 <= v < Pow2(WIDTH) else 0 - Pow2(WIDTH - 1) <= v < Pow2(WIDTH - 1)
    ensures Value(Bits(WIDTH, v), isUnsigned).Number() == v
  {
    hide Pow2;
    HalfWord();
    var m := Pow2(WIDTH);
    if v >= 0 {
      UniqueRemainder(v, 0, v, m);
    } else {
      UniqueRemainder(v, -1, v + m, m);
    }
  }

  lemma {:induction false} HalfWord()
    ensures Pow2(WIDTH) == 2 * Pow2(WIDTH - 1) && Pow2(WIDTH - 1) > WIDTH
  {
    assert Pow2(WIDTH - 1) == 2 * Pow2(WIDTH - 2);
    Pow2Grows(7, WIDTH - 2);
    assert Pow2(7) == 128;
  }

  lemma {:induction false} OneAndZero(isUnsigned: bool)
    ensures 1 < Pow2(WIDTH - 1)
    ensures Value(0, isUnsigned).Number() == 0 && Flag(true).Number() == 1
  {
    HalfWord();
  }

  /** Numbers of one type are equal exactly when their bits are. */
  lemma {:induction false} EqualBits(a: Word, b: Word, isUnsigned: bool)
    ensures Value(a, isUnsigned).Number() == Value(b, isUnsigned).Number() <==> a == b
  {
    BitsOfReading(!isUnsigned, WIDTH, a);
    BitsOfReading(!isUnsigned, WIDTH, b);
  }

  lemma {:induction false} ZeroNumber(v: Value)
    ensures v.Number() == 0 <==> v.bits == 0
  {
    EqualBits(v.bits, 0, v.isUnsigned);
    OneAndZero(v.isUnsigned);
  }

  /** The operation, the types of its operands and the numbers they stand for. */
  function Computed(op: Operator, left: Value, right: Value): Meaning {
    Compute(op, left.isUnsigned, right.isUnsigned, left.Number(), right.Number())
  }

  /** The evaluator's arithmetic is C's. */
  lemma {:induction false} ApplyMeans(op: Operator, left: Value, right: Value)
    requires op != LogicalAnd && op != LogicalOr && op != Not && op != Complement
    ensures Said(Apply(op, left, right, true)) == Computed(op, left, right)
  {
    hide Apply, Compute, Computed, Said;
    match op
    case Plus => SumMeans(op, left, right);
    case Minus => SumMeans(op, left, right);
    case Times => SumMeans(op, left, right);
    case BitAnd => BitwiseMeans(op, left, right);
    case BitOr => BitwiseMeans(op, left, right);
    case BitXor => BitwiseMeans(op, left, right);
    case ShiftLeft => ShiftMeans(op, left, right);
    case ShiftRight => ShiftMeans(op, left, right);
    case Divide => QuotientMeans(op, left, right);
    case Remainder => QuotientMeans(op, left, right);
    case _ => ComparisonMeans(op, left, right);
  }

  lemma {:induction false} SumMeans(op: Operator, left: Value, right: Value)
    requires op in {Plus, Minus, Times}
    ensures Said(Apply(op, left, right, true)) == Computed(op, left, right)
  {
    hide Pow2, Bitwise, Truncated, Reading, Bits;
    var u := left.isUnsigned || right.isUnsigned;
    WrapNumber(left, u);
    WrapNumber(right, u);
    var a, b := Value(left.bits, u).Number(), Value(right.bits, u).Number();
    SumsOfNumbers(u, left.bits, right.bits);
    assert Computed(op, left, right)
        == Means(Wrap(u, if op == Plus then a + b else if op == Minus then a - b else a * b));
  }

  lemma {:induction false} SumsOfNumbers(isUnsigned: bool, a: Word, b: Word)
    ensures var x, y := Value(a, isUnsigned).Number(), Value(b, isUnsigned).Number();
            && Bits(WIDTH, x + y) == Bits(WIDTH, a + b)
            && Bits(WIDTH, x - y) == Bits(WIDTH, a - b)
            && Bits(WIDTH, x * y) == Bits(WIDTH, a * b)
  {
    hide Pow2, Reading, Bits;
    SumOfReadings(!isUnsigned, WIDTH, a, b);
    DifferenceOfReadings(!isUnsigned, WIDTH, a, b);
    ProductOfReadings(!isUnsigned, WIDTH, a, b);
  }

  lemma {:induction false} BitwiseMeans(op: Operator, left: Value, right: Value)
    requires op in {BitAnd, BitOr, BitXor}
    ensures Said(Apply(op, left, right, true)) == Computed(op, left, right)
  {
    hide Pow2, Bitwise, Truncated;
    var u := left.isUnsigned || right.isUnsigned;
    WrapNumber(left, u);
    WrapNumber(right, u);
    BitsOfReading(!u, WIDTH, left.bits);
    BitsOfReading(!u, WIDTH, right.bits);
    var r := Bitwise(op, WIDTH, left.bits, right.bits);
    UniqueRemainder(r, 0, r, Pow2(WIDTH));
  }

  lemma {:induction false} ComparisonMeans(op: Operator, left: Value, right: Value)
    requires op in {Equal, NotEqual, Less, LessEqual, Greater, GreaterEqual}
    ensures Said(Apply(op, left, right, true)) == Computed(op, left, right)
  {
    hide Pow2, Bitwise, Truncated;
    var u := left.isUnsigned || right.isUnsigned;
    WrapNumber(left, u);
    WrapNumber(right, u);
    EqualBits(left.bits, right.bits, u);
    OneAndZero(false);
  }

  lemma {:induction false} ShiftMeans(op: Operator, left: Value, right: Value)
    requires IsShift(op)
    ensures Said(Apply(op, left, right, true)) == Computed(op, left, right)
  {
    hide Pow2, Bitwise, Truncated;
    CountMeans(right);
    if right.bits < WIDTH {
      if op == ShiftLeft { LeftShifted(left, Pow2(right.bits)); } else { RightShifted(left, Pow2(right.bits)); }
    }
  }

  /** A count is in range as a number exactly when it is as bits: a negative one has large bits. */
  lemma {:induction false} CountMeans(v: Value)
    ensures 0 <= v.Number() < WIDTH <==> v.bits < WIDTH
    ensures v.bits < WIDTH ==> v.Number() == v.bits
  {
    hide Pow2;
    HalfWord();
  }

  lemma {:induction false} LeftShifted(v: Value, n: nat)
    ensures Bits(WIDTH, v.Number() * n) == Bits(WIDTH, v.bits * n)
  {
    hide Pow2;
    var m := Pow2(WIDTH);
    var k := ReadingOffset(!v.isUnsigned, WIDTH, v.bits);
    assert (v.bits + k * m) * n == v.bits * n + (k * m) * n;
    assert (k * m) * n == (k * n) * m;
    Congruent(v.Number() * n, v.bits * n, k * n, m);
  }

  lemma {:induction false} RightShifted(v: Value, n: nat)
    requires n > 0
    ensures Value(Bits(WIDTH, v.Number() / n), v.isUnsigned).Number() == v.Number() / n
  {
    hide Pow2;
    if v.isUnsigned { DivisionShrinks(v.bits, n); } else { ShiftedStays(v.Number(), n, Pow2(WIDTH - 1)); }
    InRange(v.isUnsigned, v.Number() / n);
  }

  lemma {:induction false} Scaled(x: int, y: int, n: nat)
    requires x <= y
    ensures x * n <= y * n && n * x <= n * y
  {
    assert (y - x) * n >= 0;
    assert (y - x) * n == y * n - x * n;
  }

  lemma {:induction false} DivisionShrinks(a: nat, n: nat)
    requires n > 0
    ensures a / n <= a
  {
    var q := a / n;
    assert a == q * n + a % n;
    Scaled(1, n, q);
    assert n * q == q * n;
  }

  lemma {:induction false} ShiftedStays(v: int, n: nat, h: nat)
    requires n > 0 && 0 - h <= v < h
    ensures 0 - h <= v / n < h
  {
    if v >= 0 {
      DivisionShrinks(v, n);
    } else {
      var q := v / n;
      assert v == q * n + v % n;
      if q >= 0 { Scaled(0, q, n); }
      if q <= 0 - h - 1 {
        Scaled(q, 0 - h - 1, n);
        assert (0 - h - 1) * n == 0 - h * n - n;
        Scaled(1, n, h);
      }
    }
  }

  function Abs(a: int): (r: nat) {
    if a >= 0 then a else -a
  }

  /** The quotient's magnitude, and the remainder. */
  lemma {:induction false} TruncatedParts(a: int, b: int)
    requires b != 0
    ensures var x, y, q := Abs(a), Abs(b), Truncated(a, b);
            && q == (if (a >= 0) == (b > 0) then x / y else 0 - x / y)
            && a - b * q == if a >= 0 then x % y else 0 - x % y
  {
    var x, y, q := Abs(a), Abs(b), Truncated(a, b);
    var k: int := x / y;
    assert x == k * y + x % y;
    assert b * k == if b > 0 then y * k else 0 - y * k;
    assert b * (0 - k) == 0 - b * k;
    assert k * y == y * k;
  }

  /** Quotients and remainders stay in range, but for the one that overflows. */
  lemma {:induction false} TruncatedFits(a: int, b: int, h: nat)
    requires b != 0 && 0 - h <= a < h && 0 - h <= b < h && !(a == 0 - h && b == -1)
    ensures 0 - h <= Truncated(a, b) < h
    ensures 0 - h <= a - b * Truncated(a, b) < h
  {
    hide Truncated;
    TruncatedParts(a, b);
    var x, y := Abs(a), Abs(b);
    DivisionShrinks(x, y);
    if a == 0 - h && b < 0 {
      assert x == (x / y) * y + x % y;
      if x / y >= h {
        Scaled(h, x / y, y);
        Scaled(2, y, h);
      }
    }
  }

  lemma {:induction false} UnsignedQuotient(a: Word, b: Word)
    requires b != 0
    ensures Truncated(a, b) == a / b && a - b * Truncated(a, b) == a % b
    ensures Bits(WIDTH, a / b) == a / b && Bits(WIDTH, a % b) == a % b
  {
    hide Pow2, Truncated;
    TruncatedParts(a, b);
    DivisionShrinks(a, b);
    UniqueRemainder(a / b, 0, a / b, Pow2(WIDTH));
    UniqueRemainder(a % b, 0, a % b, Pow2(WIDTH));
  }

  /** A quotient or remainder that C defines is what its bits say. */
  lemma {:induction false} SignedQuotient(a: int, b: int)
    requires var h := Pow2(WIDTH - 1); 0 - h <= a < h && 0 - h <= b < h
    requires b != 0 && !Overflows(false, a, b)
    ensures Value(Bits(WIDTH, Truncated(a, b)), false).Number() == Truncated(a, b)
    ensures Value(Bits(WIDTH, a - b * Truncated(a, b)), false).Number() == a - b * Truncated(a, b)
  {
    hide Pow2, Truncated, Bits, Reading;
    TruncatedFits(a, b, Pow2(WIDTH - 1));
    InRange(false, Truncated(a, b));
    InRange(false, a - b * Truncated(a, b));
  }

  lemma {:induction false} QuotientMeans(op: Operator, left: Value, right: Value)
    requires op == Divide || op == Remainder
    ensures Said(Apply(op, left, right, true)) == Computed(op, left, right)
  {
    hide Pow2, Truncated, Bits;
    var u := left.isUnsigned || right.isUnsigned;
    WrapNumber(left, u);
    WrapNumber(right, u);
    ZeroNumber(Value(right.bits, u));
    var a, b := Value(left.bits, u).Number(), Value(right.bits, u).Number();
    if right.bits != 0 {
      if u { UnsignedQuotient(left.bits, right.bits); } else if !Overflows(u, a, b) { SignedQuotient(a, b); }
    }
  }
}
