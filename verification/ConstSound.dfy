/**
  Folding against the meaning of expressions.

  A folded value is the value the expression has in every execution that gives it one.
  When the effects flag is clear, every execution agrees, none has an effect, and whether
  there is a value at all is decided by the arithmetic alone.
 */
module ConstSound {
  import opened Options
  import opened MachineInts
  import opened ConstExpr

  /** The integer an expression folds to. */
  function FoldedValue(e: Expr): int
    requires WellTyped(e) && Fold(e).value.Some?
  {
    Value(Fold(e).value.value)
  }

  /** Section 6.6: no execution that yields a value yields another one than folding does. */
  lemma {:induction false} FoldSound(e: Expr, m: Machine, h: History)
    requires WellTyped(e) && Fold(e).value.Some? && Consistent(e, m)
    requires Meaning(e, m, h).Yields?
    ensures Meaning(e, m, h).value == FoldedValue(e)
    decreases e
  {
    match e {
      case Literal(ty, value) => EncodeValue(ty, value);
      case SizeOf(ty, bytes, _) => EncodeValue(ty, bytes.value);
      case EnumConst(ty, init) => EnumSound(ty, init);
      case ConstVar(_, id, source) =>
        var h0: History :| Meaning(source, m, h0).Yields? && Meaning(source, m, h0).value == m.constant(id);
        FoldSound(source, m, h0);
      case Opaque(_, _) =>
      case Paren(sub) => FoldSound(sub, m, h);
      case ConstantP(ty, arg) => TruthValue(ty, Clean(Fold(arg)));
      case Unary(op, ty, sub) =>
        if op.Imag? {
          TruthValue(ty, false);
        } else {
          FoldSound(sub, m, h);
          UnarySound(op, ty, sub);
        }
      case Binary(op, ty, lhs, rhs) =>
        if Logical(op) { LogicalSound(e, m, h); } else { OperandsSound(e, m, h); }
      case Cast(ty, sub) =>
        FoldSound(sub, m, h);
        CastSound(ty, Fold(sub).value.value);
      case Conditional(_, cond, yes, no) =>
        FoldSound(cond, m, h);
        ZeroValue(Fold(cond).value.value);
        FoldSound(if Fold(cond).value.value.bits != 0 then yes else no, m, Meaning(cond, m, h).history);
    }
  }

  lemma {:induction false} UnarySound(op: UnaryOp, ty: IntTy, sub: Expr)
    requires !op.Imag? && WellTyped(Unary(op, ty, sub)) && Fold(sub).value.Some?
    ensures Fold(Unary(op, ty, sub)).value.Some?
    ensures Arith1(op, ty, FoldedValue(sub)).Some? ==>
              FoldedValue(Unary(op, ty, sub)) == Arith1(op, ty, FoldedValue(sub)).value
  {
    var a := Fold(sub).value.value;
    if op.LNot? {
      ZeroValue(a);
      TruthValue(ty, a.bits == 0);
    } else {
      OnValueSound(op, ty, a);
    }
  }

  /** `X && 0` and `X || 1` included: the operand that cannot be folded cannot change them. */
  lemma {:induction false} LogicalSound(e: Expr, m: Machine, h: History)
    requires e.Binary? && Logical(e.bop)
    requires WellTyped(e) && Fold(e).value.Some? && Consistent(e, m)
    requires Meaning(e, m, h).Yields?
    ensures Meaning(e, m, h).value == FoldedValue(e)
    decreases e, 0
  {
    var l, r := Fold(e.lhs), Fold(e.rhs);
    var mid := Meaning(e.lhs, m, h);
    TruthValue(e.ty, true);
    TruthValue(e.ty, false);
    if l.value.Some? {
      FoldSound(e.lhs, m, h);
      ZeroValue(l.value.value);
    }
    if (mid.value != 0) != e.bop.LOr? && r.value.Some? {
      FoldSound(e.rhs, m, mid.history);
      ZeroValue(r.value.value);
    }
  }

  lemma {:induction false} OperandsSound(e: Expr, m: Machine, h: History)
    requires e.Binary? && !Logical(e.bop)
    requires WellTyped(e) && Fold(e).value.Some? && Consistent(e, m)
    requires Meaning(e, m, h).Yields?
    ensures Meaning(e, m, h).value == FoldedValue(e)
    decreases e, 0
  {
    if e.bop.Comma? {
      FoldSound(e.rhs, m, Meaning(e.lhs, m, h).history);
    } else {
      if m.leftFirst(e) {
        FoldSound(e.lhs, m, h);
        FoldSound(e.rhs, m, Meaning(e.lhs, m, h).history);
      } else {
        FoldSound(e.rhs, m, h);
        FoldSound(e.lhs, m, Meaning(e.rhs, m, h).history);
      }
      OnValuesSound(e.bop, e.ty, Fold(e.lhs).value.value, Fold(e.rhs).value.value);
    }
  }

  /**
    When the flag is clear no execution has an effect, all agree, and each yields the
    folded value exactly when every operation evaluated on the way has one.
   */
  lemma {:induction false} FoldDecides(e: Expr, m: Machine, h: History)
    requires WellTyped(e) && Evaluatable(e) && Consistent(e, m)
    ensures Meaning(e, m, h) == if Exact(e) then Yields(FoldedValue(e), h) else Undefined
    decreases e
  {
    match e {
      case Literal(ty, value) => EncodeValue(ty, value);
      case SizeOf(ty, bytes, _) => EncodeValue(ty, bytes.value);
      case EnumConst(ty, init) => EnumSound(ty, init);
      case ConstVar(_, _, _) => FoldSound(e, m, h);
      case Opaque(_, _) =>
      case Paren(sub) => FoldDecides(sub, m, h);
      case ConstantP(ty, arg) => TruthValue(ty, Clean(Fold(arg)));
      case Unary(op, ty, sub) =>
        FoldDecides(sub, m, h);
        if op.Imag? { TruthValue(ty, false); } else { UnarySound(op, ty, sub); }
      case Binary(op, ty, lhs, rhs) =>
        if Logical(op) { LogicalDecides(e, m, h); } else { OperandsDecide(e, m, h); }
      case Cast(ty, sub) =>
        FoldDecides(sub, m, h);
        CastSound(ty, Fold(sub).value.value);
      case Conditional(_, cond, yes, no) =>
        FoldDecides(cond, m, h);
        ZeroValue(Fold(cond).value.value);
        FoldDecides(if Fold(cond).value.value.bits != 0 then yes else no, m, h);
    }
  }

  lemma {:induction false} LogicalDecides(e: Expr, m: Machine, h: History)
    requires e.Binary? && Logical(e.bop)
    requires WellTyped(e) && Evaluatable(e) && Consistent(e, m)
    ensures Meaning(e, m, h) == if Exact(e) then Yields(FoldedValue(e), h) else Undefined
    decreases e, 0
  {
    FoldDecides(e.lhs, m, h);
    ZeroValue(Fold(e.lhs).value.value);
    TruthValue(e.ty, true);
    TruthValue(e.ty, false);
    if (Fold(e.lhs).value.value.bits != 0) != e.bop.LOr? {
      FoldDecides(e.rhs, m, h);
      ZeroValue(Fold(e.rhs).value.value);
    }
  }

  lemma {:induction false} OperandsDecide(e: Expr, m: Machine, h: History)
    requires e.Binary? && !Logical(e.bop)
    requires WellTyped(e) && Evaluatable(e) && Consistent(e, m)
    ensures Meaning(e, m, h) == if Exact(e) then Yields(FoldedValue(e), h) else Undefined
    decreases e, 0
  {
    hide FoldLogical, FoldUnary, OnValues, Arith;
    FoldDecides(e.lhs, m, h);
    FoldDecides(e.rhs, m, h);
    if !e.bop.Comma? {
      OnValuesSound(e.bop, e.ty, Fold(e.lhs).value.value, Fold(e.rhs).value.value);
    }
  }

  /** Folding wraps around where the language gives no value: INT_MAX + 1 with a clear flag. */
  lemma {:induction false} OverflowFolds(m: Machine, h: History)
    ensures var e := Binary(AddOp, INT, Literal(INT, 0x7fff_ffff), Literal(INT, 1));
            WellTyped(e) && Evaluatable(e) && FoldedValue(e) == -0x8000_0000 && Meaning(e, m, h).Undefined?
  {
    var x, y := Literal(INT, 0x7fff_ffff), Literal(INT, 1);
    IntLimit();
    assert InRange(INT, x.value) && InRange(INT, y.value) && !InRange(INT, 0x8000_0000);
    hide Value, Encode, Low, Pow2, InRange;
    var a, b := Encode(INT, x.value), Encode(INT, y.value);
    EncodeValue(INT, x.value);
    EncodeValue(INT, y.value);
    OnValuesWraps(AddOp, INT, a, b);
    SmallestInt();
  }

  lemma SmallestInt()
    ensures Value(Encode(INT, 0x8000_0000)) == -0x8000_0000
  {
    IntLimit();
    assert Pow2(32) == 2 * Pow2(31);
    hide Pow2;
    DivRemMod(0x8000_0000, 32);
  }

  lemma IntLimit()
    ensures Pow2(31) == 0x8000_0000
  {
    assert Pow2(7) == 128;
    Pow2Grows(7, 14);
    Pow2Grows(14, 28);
    assert Pow2(31) == 8 * Pow2(28);
  }
}
