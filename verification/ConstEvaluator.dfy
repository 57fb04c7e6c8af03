/**
  The evaluator as it is written: a visitor that leaves the value in its own field and
  raises a flag shared by every visitor of one evaluation.  Each method is proved to do
  what folding says.
 */
module ConstEvaluator {
  import opened Options
  import opened MachineInts
  import opened ConstExpr
  import opened ConstSound
  import opened ConstComplete

  class EvalResult {
    var Val: APSInt
    var HasSideEffects: bool

    constructor ()
      ensures !HasSideEffects
    {
      Val := APSInt(1, true, 0);
      HasSideEffects := false;
    }
  }

  /** The visit of `e` succeeded or not, left `r`, and took the flag from `was` to `now`. */
  ghost predicate Reports(e: Expr, ok: bool, r: APSInt, was: bool, now: bool)
    requires WellTyped(e)
  {
    && ok == Fold(e).value.Some?
    && (ok ==> r == Fold(e).value.value)
    && now == (was || Fold(e).effects)
  }

  class IntExprEvaluator {
    const info: EvalResult
    var result: APSInt

    constructor (info: EvalResult)
      ensures this.info == info
    {
      this.info := info;
      result := APSInt(1, true, 0);
    }

    method Visit(e: Expr) returns (ok: bool)
      requires WellTyped(e)
      modifies this, info
      ensures Reports(e, ok, result, old(info.HasSideEffects), info.HasSideEffects)
      decreases e, 2
    {
      match e {
        case Literal(ty, value) =>
          result := Encode(ty, value);
          ok := true;
        case SizeOf(ty, bytes, _) =>
          if bytes.None? { return false; }
          result := Encode(ty, bytes.value);
          ok := true;
        case EnumConst(ty, init) =>
          result := ExtOrTrunc(init.(unsigned := !ty.signed), ty.width);
          ok := true;
        case ConstVar(_, _, source) => ok := Visit(source);
        case Opaque(_, _) => ok := false;
        case Paren(sub) => ok := Visit(sub);
        case ConstantP(ty, arg) =>
          var folds := IsEvaluatable(arg);
          result := Encode(ty, Truth(folds));
          ok := true;
        case Unary(_, _, _) => ok := VisitUnaryOperator(e);
        case Binary(_, _, _, _) => ok := VisitBinaryOperator(e);
        case Cast(_, _) => ok := VisitCastExpr(e);
        case Conditional(_, cond, yes, no) =>
          var c;
          ok, c := HandleConversionToBool(cond, info);
          if !ok { return false; }
          if c { ok := Visit(yes); } else { ok := Visit(no); }
      }
    }

    method VisitUnaryOperator(e: Expr) returns (ok: bool)
      requires WellTyped(e) && e.Unary?
      modifies this, info
      ensures Reports(e, ok, result, old(info.HasSideEffects), info.HasSideEffects)
      decreases e, 1
    {
      if e.uop.LNot? {
        var b;
        ok, b := HandleConversionToBool(e.sub, info);
        if !ok { return false; }
        result := Encode(e.ty, Truth(!b));
        return true;
      }
      if e.uop.Imag? {
        var folds := IsEvaluatable(e.sub);
        if !folds { info.HasSideEffects := true; }
        result := Encode(e.ty, 0);
        return true;
      }
      ok := Visit(e.sub);
      if !ok { return false; }
      match e.uop {
        case Minus => result := Neg(result);
        case BitNot => result := Not(result);
        case _ =>
      }
    }

    method VisitBinaryOperator(e: Expr) returns (ok: bool)
      requires WellTyped(e) && e.Binary?
      modifies this, info
      ensures Reports(e, ok, result, old(info.HasSideEffects), info.HasSideEffects)
      decreases e, 1
    {
      if e.bop.Comma? {
        ok := Visit(e.rhs);
        if !ok { return false; }
        var folds := IsEvaluatable(e.lhs);
        if !folds { info.HasSideEffects := true; }
        return true;
      }
      if Logical(e.bop) {
        ok := VisitLogical(e);
        return;
      }
      ok := Visit(e.lhs);
      if !ok { return false; }
      var rhs;
      ok, rhs := EvaluateInteger(e.rhs, info);
      if !ok { return false; }
      var value := OnValues(e.bop, e.ty, result, rhs);
      if value.None? { return false; }
      result := value.value;
    }

    method VisitLogical(e: Expr) returns (ok: bool)
      requires WellTyped(e) && e.Binary? && Logical(e.bop)
      modifies this, info
      ensures Reports(e, ok, result, old(info.HasSideEffects), info.HasSideEffects)
      ensures if ok then Known(e) == Some(Value(result)) else Known(e).None?
      decreases e, 0
    {
      FoldTells(e);
      var isOr := e.bop.LOr?;
      var l, r, known;
      known, l := HandleConversionToBool(e.lhs, info);
      if known {
        if l == isOr {
          result := Encode(e.ty, Truth(l));
          return true;
        }
        ok, r := HandleConversionToBool(e.rhs, info);
        if !ok { return false; }
        result := Encode(e.ty, Truth(if isOr then l || r else l && r));
      } else {
        ok, r := HandleConversionToBool(e.rhs, info);
        if !ok || r != isOr { return false; }
        info.HasSideEffects := true;
        result := Encode(e.ty, Truth(r));
      }
    }

    method VisitCastExpr(e: Expr) returns (ok: bool)
      requires WellTyped(e) && e.Cast?
      modifies this, info
      ensures Reports(e, ok, result, old(info.HasSideEffects), info.HasSideEffects)
      decreases e, 1
    {
      if e.ty.isBool {
        var b;
        ok, b := HandleConversionToBool(e.sub, info);
        if !ok { return false; }
        result := Encode(e.ty, Truth(b));
      } else {
        ok := Visit(e.sub);
        if !ok { return false; }
        result := ExtOrTrunc(result, e.ty.width).(unsigned := !e.ty.signed);
      }
    }
  }

  method EvaluateInteger(e: Expr, info: EvalResult) returns (ok: bool, r: APSInt)
    requires WellTyped(e)
    modifies info
    ensures Reports(e, ok, r, old(info.HasSideEffects), info.HasSideEffects)
    decreases e, 3
  {
    var evaluator := new IntExprEvaluator(info);
    ok := evaluator.Visit(e);
    r := evaluator.result;
  }

  method HandleConversionToBool(e: Expr, info: EvalResult) returns (ok: bool, b: bool)
    requires WellTyped(e)
    modifies info
    ensures ok == Fold(e).value.Some?
    ensures ok ==> b == (Fold(e).value.value.bits != 0)
    ensures info.HasSideEffects == (old(info.HasSideEffects) || Fold(e).effects)
    decreases e, 4
  {
    var r;
    ok, r := EvaluateInteger(e, info);
    b := r.bits != 0;
  }

  /** Evaluation from the outside, with a flag of its own. */
  method Evaluate(e: Expr, out: EvalResult) returns (ok: bool)
    requires WellTyped(e)
    modifies out
    ensures ok == Fold(e).value.Some?
    ensures ok ==> out.Val == Fold(e).value.value
    ensures out.HasSideEffects == (old(out.HasSideEffects) || Fold(e).effects)
    ensures if ok then Known(e) == Some(Value(out.Val)) else Known(e).None?
    ensures forall m: Machine, h: History {:trigger Meaning(e, m, h)} :: Seen(e, m, h) ==>
              ok && Value(out.Val) == Meaning(e, m, h).value && out.HasSideEffects == old(out.HasSideEffects)
    decreases e, 4
  {
    FoldTells(e);
    forall m: Machine, h: History | Seen(e, m, h)
      ensures Evaluatable(e) && FoldedValue(e) == Meaning(e, m, h).value
    {
      SeenFolds(e, m, h);
    }
    var r;
    ok, r := EvaluateInteger(e, out);
    if ok { out.Val := r; }
  }

  method IsEvaluatable(e: Expr) returns (ok: bool)
    requires WellTyped(e)
    ensures ok == Evaluatable(e)
    decreases e, 5
  {
    var out := new EvalResult();
    ok := Evaluate(e, out);
    ok := ok && !out.HasSideEffects;
  }
}
