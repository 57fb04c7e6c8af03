/**
  When folding succeeds.

  Whatever has a value without anything opaque being run folds, and with a clear flag; and
  where an operand that does not fold cannot change the value, it does not stand in the
  way either, at the price of the flag.
 */
module ConstComplete {
  import opened Options
  import opened MachineInts
  import opened ConstExpr
  import opened ConstSound

  /** Nothing opaque has a value in this environment. */
  ghost predicate Blind(m: Machine) {
    forall site: nat, h: History :: m.run(site, h).Undefined?
  }

  /** There is nothing opaque in e. */
  predicate Transparent(e: Expr) {
    match e
    case SizeOf(_, bytes, _) => bytes.Some?
    case ConstVar(_, _, source) => Transparent(source)
    case Opaque(_, _) => false
    case Paren(sub) => Transparent(sub)
    case Unary(_, _, sub) => Transparent(sub)
    case Binary(_, _, lhs, rhs) => Transparent(lhs) && Transparent(rhs)
    case Cast(_, sub) => Transparent(sub)
    case Conditional(_, cond, yes, no) => Transparent(cond) && Transparent(yes) && Transparent(no)
    case _ => true
  }

  /** The value of e comes about without anything opaque. */
  ghost predicate Seen(e: Expr, m: Machine, h: History)
    requires WellTyped(e)
  {
    Consistent(e, m) && (Transparent(e) || Blind(m)) && Meaning(e, m, h).Yields?
  }

  /** What has a value without anything opaque folds, and nothing is dropped. */
  lemma {:induction false} SeenFolds(e: Expr, m: Machine, h: History)
    requires WellTyped(e) && Seen(e, m, h)
    ensures Evaluatable(e) && FoldedValue(e) == Meaning(e, m, h).value
    decreases e
  {
    match e {
      case ConstVar(_, id, source) =>
        var h0: History :| Meaning(source, m, h0).Yields? && Meaning(source, m, h0).value == m.constant(id);
        SeenFolds(source, m, h0);
      case Paren(sub) => SeenFolds(sub, m, h);
      case Unary(op, ty, sub) => SeenFolds(sub, m, h);
      case Binary(op, ty, lhs, rhs) =>
        if Logical(op) { SeenLogical(e, m, h); } else { SeenOperands(e, m, h); }
      case Cast(ty, sub) => SeenFolds(sub, m, h);
      case Conditional(_, cond, yes, no) =>
        SeenFolds(cond, m, h);
        ZeroValue(Fold(cond).value.value);
        SeenFolds(if Fold(cond).value.value.bits != 0 then yes else no, m, Meaning(cond, m, h).history);
      case _ =>
    }
    FoldSound(e, m, h);
  }

  lemma {:induction false} SeenLogical(e: Expr, m: Machine, h: History)
    requires e.Binary? && Logical(e.bop) && WellTyped(e) && Seen(e, m, h)
    ensures Evaluatable(e)
    decreases e, 0
  {
    SeenFolds(e.lhs, m, h);
    ZeroValue(Fold(e.lhs).value.value);
    if (FoldedValue(e.lhs) != 0) != e.bop.LOr? {
      SeenFolds(e.rhs, m, Meaning(e.lhs, m, h).history);
    }
  }

  lemma {:induction false} SeenOperands(e: Expr, m: Machine, h: History)
    requires e.Binary? && !Logical(e.bop) && WellTyped(e) && Seen(e, m, h)
    ensures Evaluatable(e)
    decreases e, 0
  {
    if e.bop.Comma? || m.leftFirst(e) {
      SeenFolds(e.lhs, m, h);
      SeenFolds(e.rhs, m, Meaning(e.lhs, m, h).history);
    } else {
      SeenFolds(e.rhs, m, h);
      SeenFolds(e.lhs, m, Meaning(e.rhs, m, h).history);
    }
    if !e.bop.Comma? {
      OnValuesSound(e.bop, e.ty, Fold(e.lhs).value.value, Fold(e.rhs).value.value);
    }
  }

  /**
    Where nothing opaque has a value an expression has one exactly when it folds with a
    clear flag and all its arithmetic is defined.
   */
  lemma {:induction false} EvaluatableIff(e: Expr, m: Machine, h: History)
    requires WellTyped(e) && Consistent(e, m) && (Transparent(e) || Blind(m))
    ensures Meaning(e, m, h).Yields? <==> Evaluatable(e) && Exact(e)
  {
    if Evaluatable(e) { FoldDecides(e, m, h); } else if Meaning(e, m, h).Yields? { SeenFolds(e, m, h); }
  }

  /** `X && 0` and `X || 1` fold, whatever X is; the flag says whether X would. */
  lemma {:induction false} RightDecides(e: Expr, m: Machine, h: History)
    requires WellTyped(e) && e.Binary? && Logical(e.bop)
    requires Seen(e.rhs, m, h) && (Meaning(e.rhs, m, h).value != 0) == e.bop.LOr?
    ensures Fold(e).value.Some? && FoldedValue(e) == Truth(e.bop.LOr?)
    ensures Fold(e).effects <==> !Evaluatable(e.lhs)
  {
    SeenFolds(e.rhs, m, h);
    ZeroValue(Fold(e.rhs).value.value);
    TruthValue(e.ty, e.bop.LOr?);
  }

  /** `X, Y` folds to what Y is, whatever X is. */
  lemma {:induction false} CommaKeepsRight(e: Expr, m: Machine, h: History)
    requires WellTyped(e) && e.Binary? && e.bop.Comma? && Seen(e.rhs, m, h)
    ensures Fold(e).value.Some? && FoldedValue(e) == Meaning(e.rhs, m, h).value
    ensures Fold(e).effects <==> !Evaluatable(e.lhs)
  {
    SeenFolds(e.rhs, m, h);
  }

  // ----------------------------------------------------------------- unknown operands

  /** An operation on what may be unknown, cut down to the type; `from` is the width of the right operand. */
  function Lift(op: BinaryOp, ty: IntTy, x: Option<int>, y: Option<int>, from: nat): Option<int>
    requires !Logical(op) && !op.Comma? && ValidTy(ty)
  {
    if x.None? || y.None? then None
    else
      var v := Computed(op, ty, x.value, y.value, Amount(y.value, from, ty.width));
      if v.None? then None else Some(Value(Encode(ty, v.value)))
  }

  /** Sections 6.5.13 and 6.5.14 with operands that may be unknown: either can decide. */
  function LogicalOf(isOr: bool, x: Option<int>, y: Option<int>): Option<int> {
    if (x.Some? && (x.value != 0) == isOr) || (y.Some? && (y.value != 0) == isOr) then Some(Truth(isOr))
    else if x.Some? && y.Some? then Some(Truth(!isOr))
    else None
  }

  /**
    The integer that can be told for e, knowing nothing of what is opaque, minding no
    effects, and with every result cut down to its type.
   */
  function Known(e: Expr): Option<int>
    requires WellTyped(e)
  {
    match e
    case Literal(_, value) => Some(value)
    case SizeOf(_, bytes, _) => bytes
    case EnumConst(_, init) => Some(Value(init))
    case ConstVar(_, _, source) => Known(source)
    case Opaque(_, _) => None
    case Paren(sub) => Known(sub)
    case ConstantP(_, arg) => Some(Truth(Evaluatable(arg)))
    case Unary(op, ty, sub) => if op.Imag? then Some(0) else KnownUnary(op, ty, Known(sub))
    case Binary(op, ty, lhs, rhs) =>
      if Logical(op) then LogicalOf(op.LOr?, Known(lhs), Known(rhs))
      else if op.Comma? then Known(rhs)
      else Lift(op, ty, Known(lhs), Known(rhs), WidthOf(rhs))
    case Cast(ty, sub) => if Known(sub).Some? then Some(Convert(ty, Known(sub).value)) else None
    case Conditional(_, cond, yes, no) =>
      if Known(cond).None? then None else if Known(cond).value != 0 then Known(yes) else Known(no)
  }

  function KnownUnary(op: UnaryOp, ty: IntTy, x: Option<int>): Option<int>
    requires ValidTy(ty)
  {
    if x.None? then None
    else match op
      case LNot => Some(Truth(x.value == 0))
      case Minus => Some(Value(Encode(ty, -x.value)))
      case BitNot => Some(Value(Encode(ty, -x.value - 1)))
      case _ => x
  }

  function WidthOf(e: Expr): nat {
    if TypeOf(e).Some? then TypeOf(e).value.width else 0
  }

  /** Folding tells exactly what can be told. */
  ghost predicate Tells(e: Expr)
    requires WellTyped(e)
  {
    if Fold(e).value.Some? then Known(e) == Some(FoldedValue(e)) else Known(e).None?
  }

  /** An expression folds exactly when its value can be told, and to that value. */
  lemma {:induction false} FoldTells(e: Expr)
    requires WellTyped(e)
    ensures Tells(e)
    decreases e
  {
    match e {
      case Literal(ty, value) => EncodeValue(ty, value);
      case SizeOf(ty, bytes, _) => if bytes.Some? { EncodeValue(ty, bytes.value); }
      case EnumConst(ty, init) => EnumSound(ty, init);
      case ConstVar(_, _, source) => FoldTells(source);
      case Opaque(_, _) =>
      case Paren(sub) => FoldTells(sub);
      case ConstantP(ty, arg) => TruthValue(ty, Clean(Fold(arg)));
      case Unary(op, ty, sub) =>
        FoldTells(sub);
        UnaryTells(op, ty, sub);
      case Binary(op, ty, lhs, rhs) =>
        FoldTells(lhs);
        FoldTells(rhs);
        if Logical(op) { LogicalTells(e); } else if !op.Comma? { OperandsTell(e); }
      case Cast(ty, sub) =>
        FoldTells(sub);
        if Fold(sub).value.Some? { CastSound(ty, Fold(sub).value.value); }
      case Conditional(_, cond, yes, no) =>
        FoldTells(cond);
        FoldTells(yes);
        FoldTells(no);
        if Fold(cond).value.Some? { ZeroValue(Fold(cond).value.value); }
    }
  }

  lemma {:induction false} UnaryTells(op: UnaryOp, ty: IntTy, sub: Expr)
    requires WellTyped(Unary(op, ty, sub)) && Tells(sub)
    ensures Tells(Unary(op, ty, sub))
  {
    TruthValue(ty, false);
    if Fold(sub).value.Some? {
      var a := Fold(sub).value.value;
      ZeroValue(a);
      if op.LNot? { TruthValue(ty, a.bits == 0); } else { OnValueWraps(op, ty, a); }
    }
  }

  lemma {:induction false} LogicalTells(e: Expr)
    requires WellTyped(e) && e.Binary? && Logical(e.bop) && Tells(e.lhs) && Tells(e.rhs)
    ensures Tells(e)
  {
    if Fold(e.lhs).value.Some? { ZeroValue(Fold(e.lhs).value.value); }
    if Fold(e.rhs).value.Some? { ZeroValue(Fold(e.rhs).value.value); }
    TruthValue(e.ty, true);
    TruthValue(e.ty, false);
  }

  lemma {:induction false} OperandsTell(e: Expr)
    requires WellTyped(e) && e.Binary? && !Logical(e.bop) && !e.bop.Comma? && Tells(e.lhs) && Tells(e.rhs)
    ensures Tells(e)
  {
    if Fold(e.lhs).value.Some? && Fold(e.rhs).value.Some? {
      var a, b := Fold(e.lhs).value.value, Fold(e.rhs).value.value;
      OnValuesWraps(e.bop, e.ty, a, b);
      if !Relational(e.bop) { assert a.width == e.ty.width; }
    }
  }
}
