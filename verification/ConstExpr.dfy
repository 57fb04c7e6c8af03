/**
  Integer expressions, what folding makes of them, and what the language says they mean
  (sections 6.3.1.3, 6.5 and 6.6 of C99).

  Everything the evaluator cannot look into (a variable, a call, an assignment, an
  increment, a dereference, a pointer or floating-point computation) is an `Opaque` node.
 */
module ConstExpr {
  import opened Options
  import opened MachineInts

  datatype UnaryOp = LNot | Minus | BitNot | Plus | Extension | Real | Imag

  datatype BinaryOp =
    | MulOp | DivOp | RemOp | AddOp | SubOp | ShlOp | ShrOp
    | LT | GT | LE | GE | EQ | NE | Bits(op: BitOp)
    | Comma | LAnd | LOr

  datatype Expr =
    | Literal(ty: IntTy, value: int)
    | SizeOf(ty: IntTy, bytes: Option<int>, site: nat)   // None: a variable-length array
    | EnumConst(ty: IntTy, init: APSInt)
    | ConstVar(ty: IntTy, id: nat, source: Expr)         // const, with its initializer
    | Opaque(kind: Option<IntTy>, site: nat)             // None: not of integer type
    | Paren(sub: Expr)
    | ConstantP(ty: IntTy, arg: Expr)                    // __builtin_constant_p
    | Unary(uop: UnaryOp, ty: IntTy, sub: Expr)
    | Binary(bop: BinaryOp, ty: IntTy, lhs: Expr, rhs: Expr)
    | Cast(ty: IntTy, sub: Expr)
    | Conditional(ty: IntTy, cond: Expr, yes: Expr, no: Expr)

  function TypeOf(e: Expr): Option<IntTy> {
    match e
    case Opaque(kind, _) => kind
    case Paren(sub) => TypeOf(sub)
    case _ => Some(e.ty)
  }

  predicate Relational(op: BinaryOp) {
    op.LT? || op.GT? || op.LE? || op.GE? || op.EQ? || op.NE?
  }

  predicate Logical(op: BinaryOp) {
    op.LAnd? || op.LOr?
  }

  /** What semantic analysis guarantees: the usual conversions are explicit casts. */
  predicate WellTyped(e: Expr) {
    && (TypeOf(e).Some? ==> ValidTy(TypeOf(e).value))
    && match e {
      case Literal(ty, value) => InRange(ty, value)
      case SizeOf(ty, bytes, _) => bytes.Some? ==> InRange(ty, bytes.value)
      case EnumConst(ty, init) =>
        && Valid(init) && InRange(ty, Value(init))
        && Value(init.(unsigned := !ty.signed)) == Value(init)
      case ConstVar(ty, _, source) => WellTyped(source) && TypeOf(source) == Some(ty)
      case Opaque(_, _) => true
      case Paren(sub) => WellTyped(sub)
      case ConstantP(_, arg) => WellTyped(arg)
      case Unary(op, ty, sub) => WellTyped(sub) && (op.LNot? || TypeOf(sub) == Some(ty))
      case Binary(op, ty, lhs, rhs) =>
        && WellTyped(lhs) && WellTyped(rhs)
        && (if Logical(op) then true
            else if op.Comma? then TypeOf(rhs) == Some(ty)
            else if Relational(op) then TypeOf(lhs).Some? && TypeOf(rhs) == TypeOf(lhs)
            else if op.ShlOp? || op.ShrOp? then TypeOf(lhs) == Some(ty) && TypeOf(rhs).Some?
            else TypeOf(lhs) == Some(ty) == TypeOf(rhs))
      case Cast(_, sub) => WellTyped(sub) && TypeOf(sub).Some?
      case Conditional(ty, cond, yes, no) =>
        && WellTyped(cond) && WellTyped(yes) && WellTyped(no)
        && TypeOf(yes) == Some(ty) == TypeOf(no)
    }
  }

  // ----------------------------------------------------------------------------- folding

  /** The folded value, if there is one, and whether a side effect may have been dropped. */
  datatype Folded = Folded(value: Option<APSInt>, effects: bool)

  function Truth(b: bool): int { if b then 1 else 0 }

  /** A shift amount, read as unsigned, with every amount beyond the last bit cut down to it. */
  function ShiftAmount(b: APSInt, width: nat): nat
    requires width >= 1
  {
    if b.bits >= width then width - 1 else b.bits
  }

  /** A binary operation on two folded operands; None is division by zero. */
  function OnValues(op: BinaryOp, ty: IntTy, a: APSInt, b: APSInt): (r: Option<APSInt>)
    requires !Logical(op) && !op.Comma? && ValidTy(ty) && Valid(a) && Valid(b)
    requires !op.ShlOp? && !op.ShrOp? ==> a.width == b.width
    requires !Relational(op) ==> OfType(a, ty)
    ensures r.Some? ==> OfType(r.value, ty)
  {
    match op
    case MulOp => Some(Mul(a, b))
    case AddOp => Some(Add(a, b))
    case SubOp => Some(Sub(a, b))
    case Bits(op) => Some(Bitwise(op, a, b))
    case DivOp =>
      if b.bits == 0 then None else DivRemOfType(ty, a, b); Some(Div(a, b))
    case RemOp =>
      if b.bits == 0 then None else DivRemOfType(ty, a, b); Some(Rem(a, b))
    case ShlOp => Some(Shl(a, ShiftAmount(b, a.width)))
    case ShrOp => Some(Shr(a, ShiftAmount(b, a.width)))
    case LT => Some(Encode(ty, Truth(Less(a, b))))
    case GT => Some(Encode(ty, Truth(Less(b, a))))
    case LE => Some(Encode(ty, Truth(!Less(b, a))))
    case GE => Some(Encode(ty, Truth(!Less(a, b))))
    case EQ => Some(Encode(ty, Truth(a.bits == b.bits)))
    case NE => Some(Encode(ty, Truth(a.bits != b.bits)))
  }

  lemma DivRemOfType(ty: IntTy, a: APSInt, b: APSInt)
    requires OfType(a, ty) && Valid(b) && a.width == b.width && b.bits != 0
    ensures OfType(Div(a, b), ty) && OfType(Rem(a, b), ty)
  {
    NegNonzero(b);
    if a.bits != 0 { NegNonzero(a); }
    DivBound(a.bits, b.bits);
    DivBound(a.bits, Neg(b).bits);
    DivBound(Neg(a).bits, b.bits);
    DivBound(Neg(a).bits, Neg(b).bits);
  }

  function OnValue(op: UnaryOp, a: APSInt): APSInt
    requires Valid(a)
  {
    match op
    case Minus => Neg(a)
    case BitNot => Not(a)
    case _ => a
  }

  /** What folding computes, with `effects` the flag it leaves raised. */
  function Fold(e: Expr): (r: Folded)
    requires WellTyped(e)
    ensures r.value.Some? ==> TypeOf(e).Some? && OfType(r.value.value, TypeOf(e).value)
  {
    match e
    case Literal(ty, value) => Folded(Some(Encode(ty, value)), false)
    case SizeOf(ty, bytes, _) =>
      if bytes.Some? then Folded(Some(Encode(ty, bytes.value)), false) else Folded(None, false)
    case EnumConst(ty, init) =>
      EnumOfType(ty, init);
      Folded(Some(ExtOrTrunc(init.(unsigned := !ty.signed), ty.width)), false)
    case ConstVar(_, _, source) => Fold(source)
    case Opaque(_, _) => Folded(None, false)
    case Paren(sub) => Fold(sub)
    case ConstantP(ty, arg) => Folded(Some(Encode(ty, Truth(Clean(Fold(arg))))), false)
    case Unary(op, ty, sub) => FoldUnary(op, ty, Fold(sub))
    case Binary(op, ty, lhs, rhs) =>
      if Logical(op) then FoldLogical(op.LOr?, ty, Fold(lhs), Fold(rhs))
      else if op.Comma? then FoldComma(Fold(lhs), Fold(rhs))
      else FoldOperands(op, ty, Fold(lhs), Fold(rhs))
    case Cast(ty, sub) =>
      var s := Fold(sub);
      if s.value.None? then s else Folded(Some(CastTo(ty, s.value.value)), s.effects)
    case Conditional(_, cond, yes, no) =>
      var c := Fold(cond);
      if c.value.None? then c
      else
        var chosen := if c.value.value.bits != 0 then Fold(yes) else Fold(no);
        Folded(chosen.value, c.effects || chosen.effects)
  }

  /** A folded value with no effect dropped. */
  predicate Clean(f: Folded) {
    f.value.Some? && !f.effects
  }

  function FoldUnary(op: UnaryOp, ty: IntTy, s: Folded): (f: Folded)
    requires ValidTy(ty)
    requires s.value.Some? ==> Valid(s.value.value) && (op.LNot? || OfType(s.value.value, ty))
    ensures f.value.Some? ==> OfType(f.value.value, ty)
  {
    if op.Imag? then Folded(Some(Encode(ty, 0)), !Clean(s))
    else if s.value.None? then s
    else if op.LNot? then Folded(Some(Encode(ty, Truth(s.value.value.bits == 0))), s.effects)
    else Folded(Some(OnValue(op, s.value.value)), s.effects)
  }

  /** The left operand of a comma is given up; the flag records what that may lose. */
  function FoldComma(l: Folded, r: Folded): Folded {
    if r.value.None? then r else Folded(r.value, r.effects || !Clean(l))
  }

  function FoldOperands(op: BinaryOp, ty: IntTy, l: Folded, r: Folded): (f: Folded)
    requires !Logical(op) && !op.Comma? && ValidTy(ty)
    requires l.value.Some? ==> Valid(l.value.value) && (!Relational(op) ==> OfType(l.value.value, ty))
    requires r.value.Some? ==> Valid(r.value.value)
    requires l.value.Some? && r.value.Some? && !op.ShlOp? && !op.ShrOp? ==>
               l.value.value.width == r.value.value.width
    ensures f.value.Some? ==> OfType(f.value.value, ty)
  {
    if l.value.None? then l
    else if r.value.None? then Folded(None, l.effects || r.effects)
    else Folded(OnValues(op, ty, l.value.value, r.value.value), l.effects || r.effects)
  }

  /**
    The right operand is not looked at when the left one decides; when the left one
    cannot be folded the right one may still decide, at the price of the flag.
   */
  function FoldLogical(isOr: bool, ty: IntTy, l: Folded, r: Folded): (f: Folded)
    requires ValidTy(ty)
    ensures f.value.Some? ==> OfType(f.value.value, ty)
  {
    if l.value.Some? && (l.value.value.bits != 0) == isOr then
      Folded(Some(Encode(ty, Truth(isOr))), l.effects)
    else if r.value.None? then
      Folded(None, l.effects || r.effects)
    else if l.value.Some? || (r.value.value.bits != 0) == isOr then
      Folded(Some(Encode(ty, Truth(r.value.value.bits != 0))), l.effects || r.effects || l.value.None?)
    else
      Folded(None, l.effects || r.effects)
  }

  /** Whether the expression folds to a value with no effect dropped. */
  predicate Evaluatable(e: Expr)
    requires WellTyped(e)
  {
    Clean(Fold(e))
  }

  /** The conversion of a folded value to an integer type. */
  function CastTo(ty: IntTy, a: APSInt): (r: APSInt)
    requires ValidTy(ty) && Valid(a)
    ensures OfType(r, ty)
  {
    if ty.isBool then Encode(ty, Truth(a.bits != 0))
    else ExtOrTruncLow(a, ty.width); ExtOrTrunc(a, ty.width).(unsigned := !ty.signed)
  }

  lemma EnumOfType(ty: IntTy, init: APSInt)
    requires ValidTy(ty) && Valid(init)
    ensures OfType(ExtOrTrunc(init.(unsigned := !ty.signed), ty.width), ty)
  {
    ExtOrTruncLow(init.(unsigned := !ty.signed), ty.width);
  }

  // ----------------------------------------------------------------------------- meaning

  /** Every effect an execution has had so far. */
  type History = seq<int>

  datatype Outcome = Undefined | Yields(value: int, history: History)

  /**
    An execution environment: what an opaque expression does and yields given everything
    that happened before it, the values the constant variables hold, and the order in
    which an implementation evaluates the operands of a node.
   */
  datatype Machine = Machine(
    run: (nat, History) -> Outcome,
    constant: nat -> int,
    leftFirst: Expr -> bool)

  /** The result of an operation whose exact value is `v`. */
  function Exactly(ty: IntTy, v: int): Option<int>
    requires ty.width >= 1
  {
    if !ty.signed then Some(Low(v, ty.width))
    else if InRange(ty, v) then Some(v)
    else None
  }

  /** The conversion of an integer to an integer type. */
  function Convert(ty: IntTy, v: int): int
    requires ty.width >= 1
  {
    if ty.isBool then Truth(v != 0) else Value(Encode(ty, v))
  }

  /** The value of a binary operation on two integers; None where the language gives none. */
  function Arith(op: BinaryOp, ty: IntTy, x: int, y: int): Option<int>
    requires !Logical(op) && !op.Comma? && ty.width >= 1
  {
    match op
    case MulOp => Exactly(ty, x * y)
    case AddOp => Exactly(ty, x + y)
    case SubOp => Exactly(ty, x - y)
    case Bits(op) => Some(Value(Encode(ty, OnBits(op, Low(x, ty.width), Low(y, ty.width), ty.width))))
    case DivOp => if y == 0 then None else Exactly(ty, TruncDiv(x, y))
    case RemOp =>
      if y == 0 || Exactly(ty, TruncDiv(x, y)).None? then None
      else Exactly(ty, x - TruncDiv(x, y) * y)
    case ShlOp =>
      if !(0 <= y < ty.width) || (ty.signed && x < 0) then None else Exactly(ty, x * Pow2(y))
    case ShrOp =>
      if !(0 <= y < ty.width) then None else Exactly(ty, x / Pow2(y))
    case LT => Some(Truth(x < y))
    case GT => Some(Truth(x > y))
    case LE => Some(Truth(x <= y))
    case GE => Some(Truth(x >= y))
    case EQ => Some(Truth(x == y))
    case NE => Some(Truth(x != y))
  }

  function Arith1(op: UnaryOp, ty: IntTy, x: int): Option<int>
    requires ty.width >= 1
  {
    match op
    case LNot => Some(Truth(x == 0))
    case Minus => Exactly(ty, -x)
    case BitNot => Exactly(ty, -x - 1)
    case Imag => Some(0)
    case _ => Some(x)
  }

  /** The value of a binary expression both of whose operands were evaluated. */
  function Join(op: BinaryOp, ty: IntTy, x: int, y: int): Option<int>
    requires ty.width >= 1
  {
    if Logical(op) then Some(Truth(y != 0)) else if op.Comma? then Some(y) else Arith(op, ty, x, y)
  }

  function Finish(v: Option<int>, h: History): Outcome {
    if v.None? then Undefined else Yields(v.value, h)
  }

  /** What evaluating `e` after the history `h` does and yields. */
  function Meaning(e: Expr, m: Machine, h: History): Outcome
    requires WellTyped(e)
    decreases e
  {
    match e
    case Literal(_, value) => Yields(value, h)
    case SizeOf(_, bytes, site) => if bytes.Some? then Yields(bytes.value, h) else m.run(site, h)
    case EnumConst(_, init) => Yields(Value(init), h)
    case ConstVar(_, id, _) => Yields(m.constant(id), h)
    case Opaque(_, site) => m.run(site, h)
    case Paren(sub) => Meaning(sub, m, h)
    case ConstantP(_, arg) => Yields(Truth(Evaluatable(arg)), h)
    case Unary(op, ty, sub) =>
      var s := Meaning(sub, m, h);
      if s.Undefined? then Undefined else Finish(Arith1(op, ty, s.value), s.history)
    case Binary(op, ty, lhs, rhs) =>
      if Logical(op) || op.Comma? || m.leftFirst(e) then
        var l := Meaning(lhs, m, h);
        if l.Undefined? then Undefined
        else if Logical(op) && (l.value != 0) == op.LOr? then Yields(Truth(op.LOr?), l.history)
        else
          var r := Meaning(rhs, m, l.history);
          if r.Undefined? then Undefined else Finish(Join(op, ty, l.value, r.value), r.history)
      else
        var r := Meaning(rhs, m, h);
        if r.Undefined? then Undefined
        else
          var l := Meaning(lhs, m, r.history);
          if l.Undefined? then Undefined else Finish(Join(op, ty, l.value, r.value), l.history)
    case Cast(ty, sub) =>
      var s := Meaning(sub, m, h);
      if s.Undefined? then Undefined else Yields(Convert(ty, s.value), s.history)
    case Conditional(_, cond, yes, no) =>
      var c := Meaning(cond, m, h);
      if c.Undefined? then Undefined
      else if c.value != 0 then Meaning(yes, m, c.history)
      else Meaning(no, m, c.history)
  }

  /** The initializer was evaluated, at some earlier time, to the value `v`. */
  ghost predicate Initialized(source: Expr, m: Machine, v: int)
    requires WellTyped(source)
  {
    exists h: History :: Meaning(source, m, h).Yields? && Meaning(source, m, h).value == v
  }

  /** Every constant variable read in `e` holds what its initializer evaluated to. */
  ghost predicate Consistent(e: Expr, m: Machine)
    requires WellTyped(e)
  {
    match e
    case ConstVar(_, id, source) => Initialized(source, m, m.constant(id)) && Consistent(source, m)
    case Paren(sub) => Consistent(sub, m)
    case Unary(_, _, sub) => Consistent(sub, m)
    case Binary(_, _, lhs, rhs) => Consistent(lhs, m) && Consistent(rhs, m)
    case Cast(_, sub) => Consistent(sub, m)
    case Conditional(_, cond, yes, no) => Consistent(cond, m) && Consistent(yes, m) && Consistent(no, m)
    case _ => true
  }

  /**
    Every operation that is evaluated has a value: no signed result leaves its type's
    range, no shift amount is out of range, no signed left operand of `<<` is negative.
   */
  predicate Exact(e: Expr)
    requires WellTyped(e)
  {
    match e
    case Literal(_, _) => true
    case SizeOf(_, bytes, _) => bytes.Some?
    case EnumConst(_, _) => true
    case ConstVar(_, _, _) => true
    case Opaque(_, _) => false
    case Paren(sub) => Exact(sub)
    case ConstantP(_, _) => true
    case Unary(op, ty, sub) =>
      && Exact(sub)
      && Fold(sub).value.Some? && Arith1(op, ty, Value(Fold(sub).value.value)).Some?
    case Binary(op, ty, lhs, rhs) =>
      && Exact(lhs) && Fold(lhs).value.Some?
      && var l := Fold(lhs).value.value;
         if Logical(op) && (l.bits != 0) == op.LOr? then true
         else
           && Exact(rhs) && Fold(rhs).value.Some?
           && Join(op, ty, Value(l), Value(Fold(rhs).value.value)).Some?
    case Cast(_, sub) => Exact(sub)
    case Conditional(_, cond, yes, no) =>
      && Exact(cond) && Fold(cond).value.Some?
      && if Fold(cond).value.value.bits != 0 then Exact(yes) else Exact(no)
  }

  // ---------------------------------------------------- operations on patterns and values

  lemma EncodeValue(ty: IntTy, v: int)
    requires ty.width >= 1 && InRange(ty, v)
    ensures Value(Encode(ty, v)) == v
  {
    ValueOfBits(ty, Encode(ty, v), v);
  }

  lemma TruthValue(ty: IntTy, b: bool)
    requires ValidTy(ty)
    ensures Value(Encode(ty, Truth(b))) == Truth(b)
  {
    if !ty.isBool { Pow2Grows(1, ty.width - 1); }
    assert InRange(ty, Truth(b)) by { Pow2Grows(1, ty.width); assert Pow2(1) == 2; }
    EncodeValue(ty, Truth(b));
  }

  lemma ZeroValue(a: APSInt)
    requires Valid(a)
    ensures Value(a) == 0 <==> a.bits == 0
  {
  }

  /** A pattern whose bits are the low part of `v` stands for `v` wherever `v` is allowed. */
  lemma ExactlyValue(ty: IntTy, a: APSInt, v: int)
    requires ty.width >= 1 && OfType(a, ty) && a.bits == Low(v, ty.width)
    ensures Exactly(ty, v).Some? ==> Exactly(ty, v).value == Value(a)
  {
    ValueOfBits(ty, a, v);
  }

  /** Where the language gives an operation a value, the folded pattern stands for it. */
  lemma OnValuesSound(op: BinaryOp, ty: IntTy, a: APSInt, b: APSInt)
    requires !Logical(op) && !op.Comma? && ValidTy(ty) && Valid(a) && Valid(b)
    requires !op.ShlOp? && !op.ShrOp? ==> a.width == b.width && a.unsigned == b.unsigned
    requires !Relational(op) ==> OfType(a, ty)
    ensures OnValues(op, ty, a, b).None? ==> Arith(op, ty, Value(a), Value(b)).None?
    ensures OnValues(op, ty, a, b).Some? && Arith(op, ty, Value(a), Value(b)).Some? ==>
              Value(OnValues(op, ty, a, b).value) == Arith(op, ty, Value(a), Value(b)).value
  {
    hide Value, Low, Exactly, Mul, Add, Sub, Div, Rem, TruncDiv, Bitwise, Less, Encode;
    match op {
      case MulOp => SumSound(op, ty, a, b);
      case AddOp => SumSound(op, ty, a, b);
      case SubOp => SumSound(op, ty, a, b);
      case Bits(bit) => BitwiseSound(bit, ty, a, b);
      case DivOp => QuotientSound(op, ty, a, b);
      case RemOp => QuotientSound(op, ty, a, b);
      case ShlOp => ShiftSound(op, ty, a, b);
      case ShrOp => ShiftSound(op, ty, a, b);
      case _ => CompareSound(op, ty, a, b);
    }
  }

  lemma SumSound(op: BinaryOp, ty: IntTy, a: APSInt, b: APSInt)
    requires op.MulOp? || op.AddOp? || op.SubOp?
    requires ValidTy(ty) && OfType(a, ty) && OfType(b, ty)
    ensures OnValues(op, ty, a, b).Some?
    ensures Arith(op, ty, Value(a), Value(b)).Some? ==>
              Value(OnValues(op, ty, a, b).value) == Arith(op, ty, Value(a), Value(b)).value
  {
    var r := OnValues(op, ty, a, b).value;
    var v := if op.MulOp? then Value(a) * Value(b) else if op.AddOp? then Value(a) + Value(b) else Value(a) - Value(b);
    assert OfType(r, ty);
    hide Value, Low, Exactly, Mul, Add, Sub;
    match op {
      case MulOp => MulLow(a, b);
      case AddOp => AddLow(a, b);
      case _ => SubLow(a, b);
    }
    ExactlyValue(ty, r, v);
  }

  lemma QuotientSound(op: BinaryOp, ty: IntTy, a: APSInt, b: APSInt)
    requires op.DivOp? || op.RemOp?
    requires ValidTy(ty) && OfType(a, ty) && OfType(b, ty)
    ensures OnValues(op, ty, a, b).None? ==> Arith(op, ty, Value(a), Value(b)).None?
    ensures OnValues(op, ty, a, b).Some? && Arith(op, ty, Value(a), Value(b)).Some? ==>
              Value(OnValues(op, ty, a, b).value) == Arith(op, ty, Value(a), Value(b)).value
  {
    ZeroValue(b);
    hide Value, Low, Exactly, Div, Rem, TruncDiv;
    if b.bits != 0 {
      DivRemOfType(ty, a, b);
      if op.DivOp? {
        DivLow(a, b);
        ExactlyValue(ty, Div(a, b), TruncDiv(Value(a), Value(b)));
      } else {
        RemLow(a, b);
        ExactlyValue(ty, Rem(a, b), Value(a) - TruncDiv(Value(a), Value(b)) * Value(b));
      }
    }
  }

  lemma BitwiseSound(op: BitOp, ty: IntTy, a: APSInt, b: APSInt)
    requires ValidTy(ty) && OfType(a, ty) && Valid(b) && a.width == b.width
    ensures Value(Bitwise(op, a, b)) == Arith(Bits(op), ty, Value(a), Value(b)).value
  {
    BitsOfValue(a);
    BitsOfValue(b);
    BitsOfValue(Bitwise(op, a, b));
    DivRemMod(Bitwise(op, a, b).bits, ty.width);
  }

  lemma ShiftSound(op: BinaryOp, ty: IntTy, a: APSInt, b: APSInt)
    requires op.ShlOp? || op.ShrOp?
    requires ValidTy(ty) && Valid(b) && OfType(a, ty)
    ensures Arith(op, ty, Value(a), Value(b)).Some? ==>
              Value(OnValues(op, ty, a, b).value) == Arith(op, ty, Value(a), Value(b)).value
  {
    if 0 <= Value(b) < ty.width {
      var n := Value(b);
      assert b.bits == n by {
        assert b.bits == n + Excess(b) * Pow2(b.width);
      }
      if op.ShlOp? {
        ShlLow(a, n);
        ExactlyValue(ty, Shl(a, n), Value(a) * Pow2(n));
      } else {
        ExactlyValue(ty, Shr(a, n), Value(a) / Pow2(n));
      }
    }
  }

  lemma CompareSound(op: BinaryOp, ty: IntTy, a: APSInt, b: APSInt)
    requires Relational(op)
    requires ValidTy(ty) && Valid(a) && Valid(b) && a.width == b.width && a.unsigned == b.unsigned
    ensures Value(OnValues(op, ty, a, b).value) == Arith(op, ty, Value(a), Value(b)).value
  {
    LessIsLess(a, b);
    LessIsLess(b, a);
    TruthValue(ty, true);
    TruthValue(ty, false);
  }

  lemma OnValueSound(op: UnaryOp, ty: IntTy, a: APSInt)
    requires !op.LNot? && !op.Imag? && ValidTy(ty) && OfType(a, ty)
    ensures OfType(OnValue(op, a), ty)
    ensures Arith1(op, ty, Value(a)).Some? ==> Value(OnValue(op, a)) == Arith1(op, ty, Value(a)).value
  {
    if op.Minus? {
      NegLow(a);
      ExactlyValue(ty, Neg(a), -Value(a));
    } else if op.BitNot? {
      NotLow(a);
      ExactlyValue(ty, Not(a), -Value(a) - 1);
    }
  }

  // ------------------------------------------------------------ what is computed in any case

  /** A shift amount y of a type with `from` bits: read as unsigned, and no more than the last bit. */
  function Amount(y: int, from: nat, width: nat): (n: nat)
    requires width >= 1
  {
    if Low(y, from) >= width then width - 1 else Low(y, from)
  }

  /** The integer an operation is computed as before its type cuts it down; n is the shift amount. */
  function Computed(op: BinaryOp, ty: IntTy, x: int, y: int, n: nat): Option<int>
    requires !Logical(op) && !op.Comma?
  {
    match op
    case MulOp => Some(x * y)
    case AddOp => Some(x + y)
    case SubOp => Some(x - y)
    case Bits(bit) => Some(OnBits(bit, Low(x, ty.width), Low(y, ty.width), ty.width))
    case DivOp => if y == 0 then None else Some(TruncDiv(x, y))
    case RemOp => if y == 0 then None else Some(x - TruncDiv(x, y) * y)
    case ShlOp => Some(x * Pow2(n))
    case ShrOp => Some(x / Pow2(n))
    case LT => Some(Truth(x < y))
    case GT => Some(Truth(x > y))
    case LE => Some(Truth(x <= y))
    case GE => Some(Truth(x >= y))
    case EQ => Some(Truth(x == y))
    case NE => Some(Truth(x != y))
  }

  function Encoded(ty: IntTy, v: Option<int>): Option<APSInt>
    requires ty.width >= 1
  {
    if v.None? then None else Some(Encode(ty, v.value))
  }

  /** Defined or not, every operation but division by zero gives the low bits of its exact result. */
  lemma OnValuesWraps(op: BinaryOp, ty: IntTy, a: APSInt, b: APSInt)
    requires !Logical(op) && !op.Comma? && ValidTy(ty) && Valid(a) && Valid(b)
    requires !op.ShlOp? && !op.ShrOp? ==> a.width == b.width && a.unsigned == b.unsigned
    requires !Relational(op) ==> OfType(a, ty)
    ensures OnValues(op, ty, a, b) ==
            Encoded(ty, Computed(op, ty, Value(a), Value(b), Amount(Value(b), b.width, a.width)))
  {
    BitsOfValue(a);
    BitsOfValue(b);
    ZeroValue(b);
    hide Value, Low, Mul, Add, Sub, Div, Rem, TruncDiv, Less, OnBits, Shl, Shr, Negative;
    match op {
      case MulOp => MulLow(a, b);
      case AddOp => AddLow(a, b);
      case SubOp => SubLow(a, b);
      case Bits(bit) => BitwiseWraps(bit, ty, a, b);
      case DivOp => if b.bits != 0 { DivRemOfType(ty, a, b); DivLow(a, b); }
      case RemOp => if b.bits != 0 { DivRemOfType(ty, a, b); RemLow(a, b); }
      case ShlOp => ShiftWraps(ty, a, ShiftAmount(b, a.width));
      case ShrOp => ShiftWraps(ty, a, ShiftAmount(b, a.width));
      case _ => LessIsLess(a, b); LessIsLess(b, a);
    }
  }

  lemma {:induction false} BitwiseWraps(op: BitOp, ty: IntTy, a: APSInt, b: APSInt)
    requires ValidTy(ty) && OfType(a, ty) && Valid(b) && a.width == b.width
    ensures Bitwise(op, a, b) == Encode(ty, OnBits(op, a.bits, b.bits, ty.width))
  {
    DivRemMod(Bitwise(op, a, b).bits, ty.width);
  }

  lemma {:induction false} ShiftWraps(ty: IntTy, a: APSInt, n: nat)
    requires ValidTy(ty) && OfType(a, ty)
    ensures Shl(a, n) == Encode(ty, Value(a) * Pow2(n)) && Shr(a, n) == Encode(ty, Value(a) / Pow2(n))
  {
    ShlLow(a, n);
  }

  lemma OnValueWraps(op: UnaryOp, ty: IntTy, a: APSInt)
    requires ValidTy(ty) && OfType(a, ty)
    ensures op.Minus? ==> OnValue(op, a) == Encode(ty, -Value(a))
    ensures op.BitNot? ==> OnValue(op, a) == Encode(ty, -Value(a) - 1)
  {
    NegLow(a);
    NotLow(a);
  }

  lemma CastSound(ty: IntTy, a: APSInt)
    requires ValidTy(ty) && Valid(a)
    ensures Value(CastTo(ty, a)) == Convert(ty, Value(a))
  {
    if ty.isBool {
      TruthValue(ty, a.bits != 0);
      ZeroValue(a);
    } else {
      ExtOrTruncLow(a, ty.width);
    }
  }

  lemma {:induction false} EnumSound(ty: IntTy, init: APSInt)
    requires WellTyped(EnumConst(ty, init))
    ensures Value(Fold(EnumConst(ty, init)).value.value) == Value(init)
  {
    var a := init.(unsigned := !ty.signed);
    EnumOfType(ty, init);
    ExtOrTruncLow(a, ty.width);
    ValueOfBits(ty, ExtOrTrunc(a, ty.width), Value(init));
  }
}
