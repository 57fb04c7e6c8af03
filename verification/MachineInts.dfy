/**
  Integers of a given width and signedness: the bit patterns the evaluator computes with,
  and the mathematical integers they stand for.

  A bit pattern is kept as the natural number it spells; every operation works on patterns
  alone, as the compiler's arbitrary-precision integers do, and the lemmas say when the
  number a result stands for is the number the operation is named after.
 */
module MachineInts {

  function Pow2(n: nat): (p: nat)
    ensures p >= 1
  {
    if n == 0 then 1 else 2 * Pow2(n - 1)
  }

  /** An integer type of the language, `_Bool` and enumerations included. */
  datatype IntTy = IntTy(width: nat, signed: bool, isBool: bool)

  const INT: IntTy := IntTy(32, true, false)

  predicate ValidTy(t: IntTy) {
    if t.isBool then t.width == 1 && !t.signed else t.width >= 8
  }

  /** The pattern of `width` bits that spells `bits`, and how its top bit is read. */
  datatype APSInt = APSInt(width: nat, unsigned: bool, bits: nat)

  predicate Valid(a: APSInt) {
    a.width >= 1 && a.bits < Pow2(a.width)
  }

  predicate OfType(a: APSInt, t: IntTy) {
    Valid(a) && a.width == t.width && a.unsigned == !t.signed
  }

  predicate Negative(a: APSInt)
    requires a.width >= 1
  {
    a.bits >= Pow2(a.width - 1)
  }

  /** The integer a pattern stands for. */
  function Value(a: APSInt): int
    requires Valid(a)
  {
    if !a.unsigned && Negative(a) then a.bits - Pow2(a.width) else a.bits
  }

  predicate InRange(t: IntTy, v: int)
    requires t.width >= 1
  {
    if t.signed then 0 - Pow2(t.width - 1) <= v < Pow2(t.width - 1) else 0 <= v < Pow2(t.width)
  }

  function Low(v: int, width: nat): (r: nat)
    ensures r < Pow2(width)
  {
    v % Pow2(width)
  }

  /** The pattern of type `t` that agrees with `v` modulo two to the width. */
  function Encode(t: IntTy, v: int): (a: APSInt)
    requires t.width >= 1
    ensures OfType(a, t)
  {
    APSInt(t.width, !t.signed, Low(v, t.width))
  }

  // ------------------------------------------------------------------ pattern arithmetic

  function Add(a: APSInt, b: APSInt): APSInt { a.(bits := Low(a.bits + b.bits, a.width)) }

  function Sub(a: APSInt, b: APSInt): APSInt { a.(bits := Low(a.bits - b.bits, a.width)) }

  function Mul(a: APSInt, b: APSInt): APSInt { a.(bits := Low(a.bits * b.bits, a.width)) }

  function Neg(a: APSInt): APSInt { a.(bits := Low(0 - a.bits, a.width)) }

  function Not(a: APSInt): APSInt
    requires Valid(a)
  {
    a.(bits := Pow2(a.width) - 1 - a.bits)
  }

  function UDiv(a: APSInt, b: APSInt): APSInt
    requires b.bits != 0
  {
    a.(bits := a.bits / b.bits)
  }

  function URem(a: APSInt, b: APSInt): APSInt
    requires b.bits != 0
  {
    a.(bits := a.bits % b.bits)
  }

  /** Signed division is carried out on the magnitudes. */
  function Div(a: APSInt, b: APSInt): APSInt
    requires Valid(a) && Valid(b) && a.width == b.width && b.bits != 0
  {
    NegNonzero(b);
    if a.unsigned then UDiv(a, b)
    else if Negative(a) then
      if Negative(b) then UDiv(Neg(a), Neg(b)) else Neg(UDiv(Neg(a), b))
    else if Negative(b) then Neg(UDiv(a, Neg(b)))
    else UDiv(a, b)
  }

  function Rem(a: APSInt, b: APSInt): APSInt
    requires Valid(a) && Valid(b) && a.width == b.width && b.bits != 0
  {
    NegNonzero(b);
    if a.unsigned then URem(a, b)
    else if Negative(a) then
      if Negative(b) then Neg(URem(Neg(a), Neg(b))) else Neg(URem(Neg(a), b))
    else if Negative(b) then URem(a, Neg(b))
    else URem(a, b)
  }

  function Shl(a: APSInt, amount: nat): APSInt {
    a.(bits := Low(a.bits * Pow2(amount), a.width))
  }

  /** An arithmetic shift when signed, a logical one when not. */
  function Shr(a: APSInt, amount: nat): APSInt
    requires Valid(a)
  {
    a.(bits := Low(Value(a) / Pow2(amount), a.width))
  }

  predicate Less(a: APSInt, b: APSInt)
    requires Valid(a) && Valid(b)
  {
    if a.unsigned then a.bits < b.bits
    else if Negative(a) != Negative(b) then Negative(a)
    else a.bits < b.bits
  }

  datatype BitOp = BitAnd | BitXor | BitOr

  function OnBit(op: BitOp, x: nat, y: nat): (r: nat)
    ensures r <= 1
  {
    match op
    case BitAnd => if x == 1 && y == 1 then 1 else 0
    case BitXor => if x == y then 0 else 1
    case BitOr => if x == 1 || y == 1 then 1 else 0
  }

  function OnBits(op: BitOp, x: nat, y: nat, width: nat): (r: nat)
    ensures r < Pow2(width)
  {
    if width == 0 then 0
    else 2 * OnBits(op, x / 2, y / 2, width - 1) + OnBit(op, x % 2, y % 2)
  }

  function Bitwise(op: BitOp, a: APSInt, b: APSInt): APSInt {
    a.(bits := OnBits(op, a.bits, b.bits, a.width))
  }

  /** Widening repeats the sign bit of a signed pattern; narrowing drops the top bits. */
  function ExtOrTrunc(a: APSInt, width: nat): APSInt
    requires Valid(a)
  {
    if width < a.width then APSInt(width, a.unsigned, Low(a.bits, width))
    else if a.unsigned || !Negative(a) then APSInt(width, a.unsigned, a.bits)
    else
      Pow2Grows(a.width, width);
      APSInt(width, a.unsigned, a.bits + (Pow2(width) - Pow2(a.width)))
  }

  // ------------------------------------------------------------------------------ lemmas

  lemma {:induction false} Pow2Grows(m: nat, n: nat)
    requires m <= n
    ensures Pow2(m) <= Pow2(n)
    ensures Pow2(n) == Pow2(n - m) * Pow2(m)
  {
    if m < n {
      Pow2Grows(m, n - 1);
      TwiceTimes(Pow2(n - 1 - m), Pow2(m));
    }
  }

  lemma TwiceTimes(a: int, b: int)
    ensures 2 * (a * b) == 2 * a * b
  {
  }

  /** Quotient and remainder are unique. */
  lemma ModIs(x: int, q: int, r: int, m: int)
    requires 0 <= r < m && x == q * m + r
    ensures x % m == r && x / m == q
  {
    var d := x / m - q;
    assert d * m == (x / m) * m - q * m == r - x % m;
    MulGrows(d, m);
  }

  lemma MulGrows(d: int, m: int)
    requires m >= 0
    ensures d >= 1 ==> d * m >= m
    ensures d <= -1 ==> d * m <= -m
  {
    if d >= 1 {
      assert d * m == (d - 1) * m + m;
    } else if d <= -1 {
      assert d * m == -((-d - 1) * m) - m;
    }
  }

  lemma ModPlus(x: int, k: int, m: int)
    requires m > 0
    ensures (x + k * m) % m == x % m
  {
    assert x + k * m == (x / m + k) * m + x % m by {
      assert (x / m + k) * m == (x / m) * m + k * m;
    }
    ModIs(x + k * m, x / m + k, x % m, m);
  }

  lemma NegNonzero(b: APSInt)
    requires Valid(b) && b.bits != 0
    ensures Neg(b).bits == Pow2(b.width) - b.bits
    ensures Valid(Neg(b)) && Neg(b).bits != 0
  {
    ModIs(0 - b.bits, -1, Pow2(b.width) - b.bits, Pow2(b.width));
  }

  /** A pattern is the low part of the integer it stands for. */
  lemma BitsOfValue(a: APSInt)
    requires Valid(a)
    ensures Low(Value(a), a.width) == a.bits
  {
    ModIs(Value(a), -Excess(a), a.bits, Pow2(a.width));
  }

  /** The only integer of the type's range with a given low part is the one it spells. */
  lemma ValueOfBits(t: IntTy, a: APSInt, v: int)
    requires t.width >= 1 && OfType(a, t) && a.bits == Low(v, t.width)
    ensures InRange(t, Value(a))
    ensures InRange(t, v) ==> Value(a) == v
  {
    var m := Pow2(t.width);
    assert m == 2 * Pow2(t.width - 1);
    if InRange(t, v) {
      if v >= 0 { ModIs(v, 0, v, m); } else { ModIs(v, -1, v + m, m); }
    }
  }

  lemma ValueInRange(t: IntTy, a: APSInt)
    requires t.width >= 1 && OfType(a, t)
    ensures InRange(t, Value(a))
  {
    BitsOfValue(a);
    ValueOfBits(t, a, Value(a));
  }

  /** How far a pattern is from the integer it stands for. */
  function Excess(a: APSInt): (k: int)
    requires Valid(a)
    ensures k == 0 || k == 1
    ensures a.bits == Value(a) + k * Pow2(a.width)
  {
    if Value(a) == a.bits then 0 else 1
  }

  lemma AddLow(a: APSInt, b: APSInt)
    requires Valid(a) && Valid(b) && a.width == b.width
    ensures Add(a, b).bits == Low(Value(a) + Value(b), a.width)
  {
    var m := Pow2(a.width);
    ModPlus(Value(a) + Value(b), Excess(a) + Excess(b), m);
    assert a.bits + b.bits == Value(a) + Value(b) + (Excess(a) + Excess(b)) * m;
  }

  lemma SubLow(a: APSInt, b: APSInt)
    requires Valid(a) && Valid(b) && a.width == b.width
    ensures Sub(a, b).bits == Low(Value(a) - Value(b), a.width)
  {
    var m := Pow2(a.width);
    ModPlus(Value(a) - Value(b), Excess(a) - Excess(b), m);
    assert a.bits - b.bits == Value(a) - Value(b) + (Excess(a) - Excess(b)) * m;
  }

  lemma Expand(x: int, i: int, y: int, j: int, m: int)
    ensures (x + i * m) * (y + j * m) == x * y + (i * y + j * x + i * j * m) * m
  {
    var u := i * m;
    var v := j * m;
    assert (x + u) * (y + v) == x * y + u * y + x * v + u * v;
    assert u * y == (i * y) * m;
    assert x * v == (j * x) * m;
    assert u * v == (i * j * m) * m;
  }

  lemma MulLow(a: APSInt, b: APSInt)
    requires Valid(a) && Valid(b) && a.width == b.width
    ensures Mul(a, b).bits == Low(Value(a) * Value(b), a.width)
  {
    var m, x, y, i, j := Pow2(a.width), Value(a), Value(b), Excess(a), Excess(b);
    ModPlus(x * y, i * y + j * x + i * j * m, m);
    Expand(x, i, y, j, m);
  }

  lemma NegLow(a: APSInt)
    requires Valid(a)
    ensures Neg(a).bits == Low(-Value(a), a.width)
  {
    var m := Pow2(a.width);
    ModPlus(-Value(a), -Excess(a), m);
    assert 0 - a.bits == -Value(a) + (-Excess(a)) * m;
  }

  lemma NotLow(a: APSInt)
    requires Valid(a)
    ensures Not(a).bits == Low(-Value(a) - 1, a.width)
  {
    ModIs(-Value(a) - 1, Excess(a) - 1, Not(a).bits, Pow2(a.width));
  }

  lemma {:induction false} ShlLow(a: APSInt, amount: nat)
    requires Valid(a)
    ensures Shl(a, amount).bits == Low(Value(a) * Pow2(amount), a.width)
  {
    var m, p := Pow2(a.width), Pow2(amount);
    ModPlus(Value(a) * p, Excess(a) * p, m);
    Expand(Value(a), Excess(a), p, 0, m);
  }

  /** Widening and narrowing keep the integer modulo two to the new width. */
  lemma ExtOrTruncLow(a: APSInt, width: nat)
    requires Valid(a)
    ensures ExtOrTrunc(a, width).bits == Low(Value(a), width)
  {
    var k := Excess(a);
    if width < a.width {
      Pow2Grows(width, a.width);
      var p := Pow2(a.width - width);
      ModPlus(Value(a), k * p, Pow2(width));
      assert k * (p * Pow2(width)) == (k * p) * Pow2(width);
    } else {
      Pow2Grows(a.width, width);
      ModIs(Value(a), -k, ExtOrTrunc(a, width).bits, Pow2(width));
    }
  }

  /** Division as the language defines it, truncating toward zero. */
  function TruncDiv(x: int, y: int): int
    requires y != 0
  {
    if x >= 0 then (if y > 0 then x / y else -(x / -y))
    else (if y > 0 then -(-x / y) else -x / -y)
  }

  lemma DivLow(a: APSInt, b: APSInt)
    requires Valid(a) && Valid(b) && a.width == b.width && a.unsigned == b.unsigned && b.bits != 0
    ensures Value(b) != 0
    ensures Div(a, b).bits == Low(TruncDiv(Value(a), Value(b)), a.width)
  {
    hide Pow2;
    var x, y := Magnitude(a), Magnitude(b);
    DivBound(x, y);
    DivRemMod(x / y, a.width);
  }

  lemma RemLow(a: APSInt, b: APSInt)
    requires Valid(a) && Valid(b) && a.width == b.width && a.unsigned == b.unsigned && b.bits != 0
    ensures Value(b) != 0
    ensures Rem(a, b).bits == Low(Value(a) - TruncDiv(Value(a), Value(b)) * Value(b), a.width)
  {
    var x, y := Magnitude(a), Magnitude(b);
    DivBound(x, y);
    RemFromDiv(Value(a), Value(b));
    DivRemMod(x % y, a.width);
  }

  /** The magnitude of the integer, as the pattern division works on. */
  function Magnitude(a: APSInt): (r: nat)
    requires Valid(a)
    ensures r < Pow2(a.width)
    ensures r == (if Value(a) < 0 then -Value(a) else Value(a))
    ensures r == (if Value(a) < 0 then Neg(a).bits else a.bits)
    ensures a.bits != 0 ==> r != 0
  {
    if Value(a) < 0 then NegNonzero(a); -Value(a) else Value(a)
  }

  lemma QuotientBound(q: int, y: int, r: int)
    requires y > 0 && q * y + r >= 0 && 0 <= r < y
    ensures 0 <= q <= q * y + r && r <= q * y + r
  {
    MulGrows(q, y);
    if q > 0 { MulGrows(y, q); assert y * q == q * y; }
  }

  lemma DivBound(x: nat, y: nat)
    requires y > 0
    ensures 0 <= x / y <= x && x % y <= x && x == (x / y) * y + x % y
  {
    QuotientBound(x / y, y, x % y);
  }

  lemma {:induction false} DivRemMod(v: int, width: nat)
    ensures 0 <= v < Pow2(width) ==> Low(v, width) == v
  {
    if 0 <= v < Pow2(width) { ModIs(v, 0, v, Pow2(width)); }
  }

  lemma RemFromDiv(x: int, y: int)
    requires y != 0
    ensures x - TruncDiv(x, y) * y ==
            (if x >= 0 then x % (if y > 0 then y else -y) else -(-x % (if y > 0 then y else -y)))
  {
    var n := if y > 0 then y else -y;
    var m := if x >= 0 then x else -x;
    assert m == (m / n) * n + m % n;
    assert (-(m / n)) * n == -((m / n) * n);
    assert (m / n) * (-n) == -((m / n) * n);
  }

  /** Comparing patterns compares the integers. */
  lemma LessIsLess(a: APSInt, b: APSInt)
    requires Valid(a) && Valid(b) && a.width == b.width && a.unsigned == b.unsigned
    ensures Less(a, b) <==> Value(a) < Value(b)
    ensures a.bits == b.bits <==> Value(a) == Value(b)
  {
    assert Pow2(a.width) == 2 * Pow2(a.width - 1);
  }

  // ------------------------------------------------------------------------------ bits

  predicate BitAt(x: nat, k: nat) {
    x / Pow2(k) % 2 == 1
  }

  lemma {:induction false} BitAbove(x: nat, k: nat)
    ensures BitAt(x, k + 1) == BitAt(x / 2, k)
    ensures BitAt(x, 0) == (x % 2 == 1)
  {
    var p, y := Pow2(k), x / 2;
    assert x == 2 * y + x % 2;
    ModIs(x, y / p, 2 * (y % p) + x % 2, 2 * p) by {
      assert y == y / p * p + y % p;
      assert y / p * (2 * p) == 2 * (y / p * p);
    }
  }

  /** Each operation is that of the logic on every bit. */
  lemma {:induction false} BitsAre(op: BitOp, x: nat, y: nat, width: nat, k: nat)
    requires k < width
    ensures BitAt(OnBits(op, x, y, width), k) <==>
              match op
              case BitAnd => BitAt(x, k) && BitAt(y, k)
              case BitXor => BitAt(x, k) != BitAt(y, k)
              case BitOr => BitAt(x, k) || BitAt(y, k)
  {
    var r := OnBits(op, x, y, width);
    var rest := OnBits(op, x / 2, y / 2, width - 1);
    assert r / 2 == rest && r % 2 == OnBit(op, x % 2, y % 2);
    if k == 0 {
      BitAbove(r, 0);
      BitAbove(x, 0);
      BitAbove(y, 0);
    } else {
      BitAbove(r, k - 1);
      BitAbove(x, k - 1);
      BitAbove(y, k - 1);
      BitsAre(op, x / 2, y / 2, width - 1, k - 1);
    }
  }
}
