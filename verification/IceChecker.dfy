/**
  The checker that decides in advance whether an expression is an integer constant
  expression (section 6.6 of C99), and the query built on it.

  The checker asks for the value of an operand in a few places without first making sure
  that there is one.  Where there is none it gets an arbitrary pattern, given here by
  `any`; a build with assertions stops instead.
 */
module IceChecker {
  import opened Options
  import opened MachineInts
  import opened ConstExpr
  import opened ConstSound
  import opened ConstEvaluator

  datatype Lang = C89 | C99 | CPlusPlus

  /** 0: constant if it can be evaluated; 1: only if it is not evaluated; 2: never. */
  datatype Verdict = Verdict(val: nat, at: Option<Expr>)

  const OK: Verdict := Verdict(0, None)

  type AnyInt = Expr -> APSInt

  function EvaluateAsInt(e: Expr, any: AnyInt): APSInt
    requires WellTyped(e)
  {
    if Fold(e).value.Some? then Fold(e).value.value else any(e)
  }

  function CheckEvalInICE(e: Expr): Verdict
    requires WellTyped(e)
  {
    if Evaluatable(e) then OK else Verdict(2, Some(e))
  }

  function Worse(l: Verdict, r: Verdict): Verdict {
    if l.val >= r.val then l else r
  }

  predicate AllOnes(a: APSInt) {
    a.bits == Pow2(a.width) - 1
  }

  predicate IsMinSigned(a: APSInt) {
    a.width >= 1 && a.bits == Pow2(a.width - 1)
  }

  /** Parentheses and casts are looked through. */
  function IgnoreParenCasts(e: Expr): Expr {
    match e
    case Paren(sub) => IgnoreParenCasts(sub)
    case Cast(_, sub) => IgnoreParenCasts(sub)
    case _ => e
  }

  function CheckICE(e: Expr, lang: Lang, any: AnyInt): Verdict
    requires WellTyped(e)
  {
    if TypeOf(e).None? then Verdict(2, Some(e))
    else match e
      case Literal(_, _) => OK
      case SizeOf(_, bytes, _) => if bytes.None? then Verdict(2, Some(e)) else OK
      case EnumConst(_, _) => OK
      case ConstVar(_, _, source) =>
        if lang.CPlusPlus? then CheckICE(source, lang, any) else Verdict(2, Some(e))
      case Opaque(_, _) => Verdict(2, Some(e))
      case Paren(sub) => CheckICE(sub, lang, any)
      case ConstantP(_, _) => CheckEvalInICE(e)
      case Unary(_, _, sub) => CheckICE(sub, lang, any)
      case Binary(op, _, lhs, rhs) =>
        CheckBinary(e, CheckICE(lhs, lang, any), CheckICE(rhs, lang, any), lang, any)
      case Cast(_, sub) => CheckICE(sub, lang, any)
      case Conditional(_, cond, yes, no) =>
        if IgnoreParenCasts(cond).ConstantP? then CheckEvalInICE(e)
        else
          CheckConditional(e, CheckICE(cond, lang, any), CheckICE(yes, lang, any),
                           CheckICE(no, lang, any), any)
  }

  function CheckBinary(e: Expr, l: Verdict, r: Verdict, lang: Lang, any: AnyInt): Verdict
    requires WellTyped(e) && e.Binary?
  {
    if Logical(e.bop) then
      if l.val == 0 && r.val == 1 then
        if e.bop.LAnd? != (EvaluateAsInt(e.lhs, any).bits == 0) then r else OK
      else Worse(l, r)
    else if (e.bop.DivOp? || e.bop.RemOp?) && l.val != 2 && r.val != 2 && UndefinedDivision(e, any) then
      Verdict(1, Some(e))
    else if e.bop.Comma? && !lang.C99? then Verdict(2, Some(e))
    else if e.bop.Comma? && l.val == 0 && r.val == 0 then Verdict(1, Some(e))
    else Worse(l, r)
  }

  predicate UndefinedDivision(e: Expr, any: AnyInt)
    requires WellTyped(e) && e.Binary?
  {
    var r := EvaluateAsInt(e.rhs, any);
    || r.bits == 0
    || (!r.unsigned && AllOnes(r) && IsMinSigned(EvaluateAsInt(e.lhs, any)))
  }

  function CheckConditional(e: Expr, c: Verdict, y: Verdict, n: Verdict, any: AnyInt): Verdict
    requires WellTyped(e) && e.Conditional?
  {
    if c.val == 2 then c
    else if y.val == 2 then y
    else if n.val == 2 then n
    else if c.val == 1 then c
    else if y.val == 0 && n.val == 0 then OK
    else if EvaluateAsInt(e.cond, any).bits == 0 then n
    else y
  }

  // ----------------------------------------------------------------------------- verdicts

  lemma {:induction false} VerdictBound(e: Expr, lang: Lang, any: AnyInt)
    requires WellTyped(e)
    ensures CheckICE(e, lang, any).val <= 2
  {
    match e {
      case ConstVar(_, _, source) => VerdictBound(source, lang, any);
      case Paren(sub) => VerdictBound(sub, lang, any);
      case Unary(_, _, sub) => VerdictBound(sub, lang, any);
      case Binary(_, _, lhs, rhs) => VerdictBound(lhs, lang, any); VerdictBound(rhs, lang, any);
      case Cast(_, sub) => VerdictBound(sub, lang, any);
      case Conditional(_, cond, yes, no) =>
        VerdictBound(cond, lang, any); VerdictBound(yes, lang, any); VerdictBound(no, lang, any);
      case _ =>
    }
  }

  /** What the checker accepts folds to a value without dropping an effect. */
  lemma {:induction false} AcceptedFolds(e: Expr, lang: Lang, any: AnyInt)
    requires WellTyped(e) && CheckICE(e, lang, any).val == 0
    ensures Evaluatable(e)
  {
    match e {
      case ConstVar(_, _, source) => AcceptedFolds(source, lang, any);
      case Paren(sub) => AcceptedFolds(sub, lang, any);
      case Unary(_, _, sub) => AcceptedFolds(sub, lang, any);
      case Binary(_, _, lhs, rhs) =>
        if CheckICE(lhs, lang, any).val == 0 { AcceptedFolds(lhs, lang, any); }
        if CheckICE(rhs, lang, any).val == 0 { AcceptedFolds(rhs, lang, any); }
      case Cast(_, sub) => AcceptedFolds(sub, lang, any);
      case Conditional(_, cond, yes, no) =>
        VerdictBound(cond, lang, any);
        if CheckICE(cond, lang, any).val == 0 { AcceptedFolds(cond, lang, any); }
        if CheckICE(yes, lang, any).val == 0 { AcceptedFolds(yes, lang, any); }
        if CheckICE(no, lang, any).val == 0 { AcceptedFolds(no, lang, any); }
      case _ =>
    }
  }

  /** Patterns made up for operands without a value never change a verdict. */
  lemma {:induction false} VerdictIsDetermined(e: Expr, lang: Lang, any: AnyInt, other: AnyInt)
    requires WellTyped(e)
    ensures CheckICE(e, lang, any).val == CheckICE(e, lang, other).val
  {
    match e {
      case ConstVar(_, _, source) => VerdictIsDetermined(source, lang, any, other);
      case Paren(sub) => VerdictIsDetermined(sub, lang, any, other);
      case Unary(_, _, sub) => VerdictIsDetermined(sub, lang, any, other);
      case Binary(_, _, lhs, rhs) =>
        VerdictIsDetermined(lhs, lang, any, other);
        VerdictIsDetermined(rhs, lang, any, other);
        BinaryIsDetermined(e, lang, any, other);
      case Cast(_, sub) => VerdictIsDetermined(sub, lang, any, other);
      case Conditional(_, cond, yes, no) =>
        VerdictIsDetermined(cond, lang, any, other);
        VerdictIsDetermined(yes, lang, any, other);
        VerdictIsDetermined(no, lang, any, other);
        if CheckICE(cond, lang, any).val == 0 { AcceptedFolds(cond, lang, any); }
        VerdictBound(cond, lang, any);
      case _ =>
    }
  }

  lemma {:induction false} BinaryIsDetermined(e: Expr, lang: Lang, any: AnyInt, other: AnyInt)
    requires WellTyped(e) && e.Binary?
    requires CheckICE(e.lhs, lang, any).val == CheckICE(e.lhs, lang, other).val
    requires CheckICE(e.rhs, lang, any).val == CheckICE(e.rhs, lang, other).val
    ensures CheckICE(e, lang, any).val == CheckICE(e, lang, other).val
  {
    var l, r := CheckICE(e.lhs, lang, any), CheckICE(e.rhs, lang, any);
    VerdictBound(e.lhs, lang, any);
    VerdictBound(e.rhs, lang, any);
    if l.val == 0 { AcceptedFolds(e.lhs, lang, any); }
    if r.val == 0 { AcceptedFolds(e.rhs, lang, any); }
  }

  // --------------------------------------------------- which expressions are constant

  /** The expression has a value other than zero. */
  predicate Holds(e: Expr)
    requires WellTyped(e)
  {
    Fold(e).value.Some? && FoldedValue(e) != 0
  }

  /** The quotient of the operands exists in the type of the division (section 6.5.5). */
  predicate Divides(e: Expr)
    requires WellTyped(e) && e.Binary?
  {
    && Fold(e.lhs).value.Some? && Fold(e.rhs).value.Some? && e.ty.width >= 1
    && FoldedValue(e.rhs) != 0
    && !(e.ty.signed && FoldedValue(e.rhs) == -1 && FoldedValue(e.lhs) == 0 - Pow2(e.ty.width - 1))
  }

  /** Section 6.6: e is a constant expression where it is evaluated. */
  predicate Constant(e: Expr, lang: Lang)
    requires WellTyped(e)
  {
    match e
    case Literal(_, _) => true
    case SizeOf(_, bytes, _) => bytes.Some?
    case EnumConst(_, _) => true
    case ConstVar(_, _, source) => lang.CPlusPlus? && Constant(source, lang)
    case Opaque(_, _) => false
    case Paren(sub) => Constant(sub, lang)
    case ConstantP(_, _) => true
    case Unary(_, _, sub) => Constant(sub, lang)
    case Binary(op, _, lhs, rhs) =>
      && Constant(lhs, lang) && !op.Comma?
      && (if Logical(op) then Constant(rhs, lang) || (Holds(lhs) == op.LOr? && Admitted(rhs, lang))
          else Constant(rhs, lang) && (op.DivOp? || op.RemOp? ==> Divides(e)))
    case Cast(_, sub) => Constant(sub, lang)
    case Conditional(_, cond, yes, no) =>
      if IgnoreParenCasts(cond).ConstantP? then Evaluatable(e)
      else
        && Constant(cond, lang)
        && (if Holds(cond) then Constant(yes, lang) && Admitted(no, lang)
            else Constant(no, lang) && Admitted(yes, lang))
  }

  /** It may be part of a constant expression where it is not evaluated (section 6.6p3). */
  predicate Admitted(e: Expr, lang: Lang)
    requires WellTyped(e)
  {
    match e
    case SizeOf(_, bytes, _) => bytes.Some?
    case ConstVar(_, _, source) => lang.CPlusPlus? && Admitted(source, lang)
    case Opaque(_, _) => false
    case Paren(sub) => Admitted(sub, lang)
    case Unary(_, _, sub) => Admitted(sub, lang)
    case Binary(op, _, lhs, rhs) => (op.Comma? ==> lang.C99?) && Admitted(lhs, lang) && Admitted(rhs, lang)
    case Cast(_, sub) => Admitted(sub, lang)
    case Conditional(_, cond, yes, no) =>
      if IgnoreParenCasts(cond).ConstantP? then Evaluatable(e)
      else Admitted(cond, lang) && Admitted(yes, lang) && Admitted(no, lang)
    case _ => true
  }

  /** The checker accepts exactly the constant expressions, and bears with exactly the admitted ones. */
  lemma {:induction false} AcceptedIff(e: Expr, lang: Lang, any: AnyInt)
    requires WellTyped(e)
    ensures CheckICE(e, lang, any).val == 0 <==> Constant(e, lang)
    ensures CheckICE(e, lang, any).val <= 1 <==> Admitted(e, lang)
    decreases e
  {
    match e {
      case ConstVar(_, _, source) => AcceptedIff(source, lang, any);
      case Paren(sub) =>
        AcceptedIff(sub, lang, any);
        if TypeOf(sub).None? { assert CheckICE(sub, lang, any).val == 2; }
      case Unary(_, _, sub) => AcceptedIff(sub, lang, any);
      case Binary(_, _, lhs, rhs) => BinaryAcceptedIff(e, lang, any);
      case Cast(_, sub) => AcceptedIff(sub, lang, any);
      case Conditional(_, cond, yes, no) => ConditionalAcceptedIff(e, lang, any);
      case _ =>
    }
  }

  lemma {:induction false} ConditionalAcceptedIff(e: Expr, lang: Lang, any: AnyInt)
    requires WellTyped(e) && e.Conditional?
    ensures CheckICE(e, lang, any).val == 0 <==> Constant(e, lang)
    ensures CheckICE(e, lang, any).val <= 1 <==> Admitted(e, lang)
    decreases e, 0
  {
    hide Fold;
    AcceptedIff(e.cond, lang, any);
    AcceptedIff(e.yes, lang, any);
    AcceptedIff(e.no, lang, any);
    VerdictBound(e.cond, lang, any);
    VerdictBound(e.yes, lang, any);
    VerdictBound(e.no, lang, any);
    if Constant(e.cond, lang) {
      AcceptedFolds(e.cond, lang, any);
      ZeroValue(Fold(e.cond).value.value);
    }
  }

  lemma {:induction false} BinaryAcceptedIff(e: Expr, lang: Lang, any: AnyInt)
    requires WellTyped(e) && e.Binary?
    ensures CheckICE(e, lang, any).val == 0 <==> Constant(e, lang)
    ensures CheckICE(e, lang, any).val <= 1 <==> Admitted(e, lang)
    decreases e, 0
  {
    hide Fold, UndefinedDivision, Divides;
    AcceptedIff(e.lhs, lang, any);
    AcceptedIff(e.rhs, lang, any);
    VerdictBound(e.lhs, lang, any);
    VerdictBound(e.rhs, lang, any);
    if Constant(e.lhs, lang) {
      AcceptedFolds(e.lhs, lang, any);
      ZeroValue(Fold(e.lhs).value.value);
      if Constant(e.rhs, lang) {
        AcceptedFolds(e.rhs, lang, any);
        if e.bop.DivOp? || e.bop.RemOp? { DividesIff(e, any); }
      }
    }
  }

  lemma {:induction false} DividesIff(e: Expr, any: AnyInt)
    requires WellTyped(e) && e.Binary? && (e.bop.DivOp? || e.bop.RemOp?)
    requires Fold(e.lhs).value.Some? && Fold(e.rhs).value.Some?
    ensures UndefinedDivision(e, any) <==> !Divides(e)
  {
    var l, r := Fold(e.lhs).value.value, Fold(e.rhs).value.value;
    assert OfType(l, e.ty) && OfType(r, e.ty);
    hide Fold;
    ZeroValue(r);
    if e.ty.signed {
      SignedEnds(l);
      SignedEnds(r);
    }
  }

  lemma SignedEnds(a: APSInt)
    requires Valid(a) && !a.unsigned
    ensures AllOnes(a) <==> Value(a) == -1
    ensures IsMinSigned(a) <==> Value(a) == 0 - Pow2(a.width - 1)
  {
  }

  /**
    Section 6.6p6: built from literals, enumerators, sizes and casts with operators other
    than the comma, and in C++ from constants with such initializers; every divisor has a
    value, which is neither zero nor minus one.
   */
  ghost predicate Formed(e: Expr, lang: Lang)
    requires WellTyped(e)
  {
    match e
    case Literal(_, _) => true
    case SizeOf(_, bytes, _) => bytes.Some?
    case EnumConst(_, _) => true
    case ConstVar(_, _, source) => lang.CPlusPlus? && Formed(source, lang)
    case Paren(sub) => Formed(sub, lang)
    case Unary(_, _, sub) => Formed(sub, lang)
    case Binary(op, _, lhs, rhs) =>
      && Formed(lhs, lang) && Formed(rhs, lang) && !op.Comma?
      && (op.DivOp? || op.RemOp? ==> SafeDivisor(rhs))
    case Cast(_, sub) => Formed(sub, lang)
    case Conditional(_, cond, yes, no) => Formed(cond, lang) && Formed(yes, lang) && Formed(no, lang)
    case _ => false
  }

  /** In some execution the divisor has a value by which every integer can be divided. */
  ghost predicate SafeDivisor(e: Expr)
    requires WellTyped(e)
  {
    exists m: Machine, h: History {:trigger Meaning(e, m, h)} ::
      Consistent(e, m) && Meaning(e, m, h).Yields? && Meaning(e, m, h).value != 0 && Meaning(e, m, h).value != -1
  }

  lemma {:induction false} NoConstantP(e: Expr, lang: Lang)
    requires WellTyped(e) && Formed(e, lang)
    ensures !IgnoreParenCasts(e).ConstantP?
  {
    match e {
      case Paren(sub) => NoConstantP(sub, lang);
      case Cast(_, sub) => NoConstantP(sub, lang);
      case _ =>
    }
  }

  /** Everything so formed is accepted. */
  lemma {:induction false} FormedIsAccepted(e: Expr, lang: Lang, any: AnyInt)
    requires WellTyped(e) && Formed(e, lang)
    ensures CheckICE(e, lang, any).val == 0 && Constant(e, lang) && Admitted(e, lang)
  {
    hide Fold;
    match e {
      case ConstVar(_, _, source) => FormedIsAccepted(source, lang, any);
      case Paren(sub) => FormedIsAccepted(sub, lang, any);
      case Unary(_, _, sub) => FormedIsAccepted(sub, lang, any);
      case Binary(op, _, lhs, rhs) =>
        FormedIsAccepted(lhs, lang, any);
        FormedIsAccepted(rhs, lang, any);
        if op.DivOp? || op.RemOp? {
          AcceptedFolds(lhs, lang, any);
          AcceptedFolds(rhs, lang, any);
          var m: Machine, h: History :| Consistent(rhs, m) && Meaning(rhs, m, h).Yields? &&
                                        Meaning(rhs, m, h).value != 0 && Meaning(rhs, m, h).value != -1;
          FoldSound(rhs, m, h);
        }
      case Cast(_, sub) => FormedIsAccepted(sub, lang, any);
      case Conditional(_, cond, yes, no) =>
        FormedIsAccepted(cond, lang, any);
        FormedIsAccepted(yes, lang, any);
        FormedIsAccepted(no, lang, any);
        NoConstantP(cond, lang);
      case _ =>
    }
    AcceptedIff(e, lang, any);
  }

  /** An accepted expression has its folded value in every execution, with no effect. */
  lemma {:induction false} AcceptedMeans(e: Expr, lang: Lang, any: AnyInt, m: Machine, h: History)
    requires WellTyped(e) && CheckICE(e, lang, any).val == 0 && Consistent(e, m)
    ensures Fold(e).value.Some?
    ensures Meaning(e, m, h) == if Exact(e) then Yields(FoldedValue(e), h) else Undefined
  {
    AcceptedFolds(e, lang, any);
    FoldDecides(e, m, h);
  }

  // ------------------------------------------------------- where a value is missing

  /** The nodes the checker comes to on its way through `e`. */
  function Checked(e: Expr, lang: Lang): set<Expr> {
    {e} + if TypeOf(e).None? then {}
          else match e
            case ConstVar(_, _, source) => if lang.CPlusPlus? then Checked(source, lang) else {}
            case Paren(sub) => Checked(sub, lang)
            case Unary(_, _, sub) => Checked(sub, lang)
            case Binary(_, _, lhs, rhs) => Checked(lhs, lang) + Checked(rhs, lang)
            case Cast(_, sub) => Checked(sub, lang)
            case Conditional(_, cond, yes, no) =>
              if IgnoreParenCasts(cond).ConstantP? then {}
              else Checked(cond, lang) + Checked(yes, lang) + Checked(no, lang)
            case _ => {}
  }

  /** Checking the node itself asks for the value of an operand that has none. */
  predicate AsksInVain(e: Expr, lang: Lang, any: AnyInt)
    requires WellTyped(e)
  {
    match e
    case Binary(op, _, lhs, rhs) =>
      var l, r := CheckICE(lhs, lang, any).val, CheckICE(rhs, lang, any).val;
      if Logical(op) then l == 0 && r == 1 && Fold(lhs).value.None?
      else if op.DivOp? || op.RemOp? then l != 2 && r != 2 && DivisorMissing(e)
      else false
    case Conditional(_, cond, yes, no) =>
      var c, y, n := CheckICE(cond, lang, any).val, CheckICE(yes, lang, any).val, CheckICE(no, lang, any).val;
      && !IgnoreParenCasts(cond).ConstantP?
      && c == 0 && y != 2 && n != 2 && !(y == 0 && n == 0)
      && Fold(cond).value.None?
    case _ => false
  }

  /** The divisor has no value, or is minus one and the dividend has none. */
  predicate DivisorMissing(e: Expr)
    requires WellTyped(e) && e.Binary?
  {
    var r := Fold(e.rhs).value;
    || r.None?
    || (!r.value.unsigned && r.value.bits != 0 && AllOnes(r.value) && Fold(e.lhs).value.None?)
  }

  /**
    Exactly the divisions with an operand that is legal only unevaluated and does not
    fold, such as 1/(1/0), ask in vain; conditions and short-circuit operands never do.
   */
  lemma {:induction false} AsksInVainIff(e: Expr, lang: Lang, any: AnyInt)
    requires WellTyped(e)
    ensures AsksInVain(e, lang, any) <==>
              && e.Binary? && (e.bop.DivOp? || e.bop.RemOp?)
              && CheckICE(e.lhs, lang, any).val != 2 && CheckICE(e.rhs, lang, any).val != 2
              && DivisorMissing(e)
    ensures AsksInVain(e, lang, any) ==>
              CheckICE(e.lhs, lang, any).val == 1 || CheckICE(e.rhs, lang, any).val == 1
  {
    match e {
      case Binary(_, _, lhs, rhs) =>
        VerdictBound(lhs, lang, any);
        VerdictBound(rhs, lang, any);
        if CheckICE(lhs, lang, any).val == 0 { AcceptedFolds(lhs, lang, any); }
        if CheckICE(rhs, lang, any).val == 0 { AcceptedFolds(rhs, lang, any); }
      case Conditional(_, cond, _, _) =>
        if CheckICE(cond, lang, any).val == 0 { AcceptedFolds(cond, lang, any); }
      case _ =>
    }
  }

  /** One divided by one divided by zero: the inner quotient is asked for and has no value. */
  lemma NestedDivisionAsksInVain(lang: Lang, any: AnyInt)
    ensures var one, zero := Literal(INT, 1), Literal(INT, 0);
            var e := Binary(DivOp, INT, one, Binary(DivOp, INT, one, zero));
            WellTyped(e) && AsksInVain(e, lang, any)
  {
    IntLimit();
    assert Pow2(32) == 2 * Pow2(31);
    hide Pow2;
    var zero, one := Encode(INT, 0), Encode(INT, 1);
    assert zero.bits == 0;
    assert one.bits == 1 by { DivRemMod(1, 32); }
  }

  /** Unless some node asks in vain, the reported place does not depend on the patterns either. */
  lemma {:induction false} PlaceIsDetermined(e: Expr, lang: Lang, any: AnyInt, other: AnyInt)
    requires WellTyped(e)
    requires forall n <- Checked(e, lang) :: WellTyped(n) ==> !AsksInVain(n, lang, any)
    ensures CheckICE(e, lang, any) == CheckICE(e, lang, other)
  {
    hide Fold;
    assert e in Checked(e, lang);
    match e {
      case ConstVar(_, _, source) =>
        if lang.CPlusPlus? { PlaceIsDetermined(source, lang, any, other); }
      case Paren(sub) =>
        if TypeOf(e).Some? { PlaceIsDetermined(sub, lang, any, other); }
      case Unary(_, _, sub) => PlaceIsDetermined(sub, lang, any, other);
      case Binary(_, _, lhs, rhs) =>
        PlaceIsDetermined(lhs, lang, any, other);
        PlaceIsDetermined(rhs, lang, any, other);
      case Cast(_, sub) => PlaceIsDetermined(sub, lang, any, other);
      case Conditional(_, cond, yes, no) =>
        if !IgnoreParenCasts(cond).ConstantP? {
          PlaceIsDetermined(cond, lang, any, other);
          PlaceIsDetermined(yes, lang, any, other);
          PlaceIsDetermined(no, lang, any, other);
          VerdictBound(cond, lang, any);
        }
      case _ =>
    }
  }

  /** A node on the way through `e` whose own verdict is `d`. */
  predicate Placed(d: Verdict, e: Expr, lang: Lang, any: AnyInt) {
    && d.at.Some? && d.at.value in Checked(e, lang) && WellTyped(d.at.value)
    && CheckICE(d.at.value, lang, any) == d
  }

  /** A rejection names a node on the way whose own verdict is the one reported. */
  lemma {:induction false} RejectionIsPlaced(e: Expr, lang: Lang, any: AnyInt)
    requires WellTyped(e) && CheckICE(e, lang, any).val != 0
    ensures Placed(CheckICE(e, lang, any), e, lang, any)
    decreases e
  {
    match e {
      case ConstVar(_, _, source) => if lang.CPlusPlus? { RejectionIsPlaced(source, lang, any); }
      case Paren(sub) => if TypeOf(e).Some? { RejectionIsPlaced(sub, lang, any); }
      case Unary(_, _, sub) => RejectionIsPlaced(sub, lang, any);
      case Binary(_, _, _, _) => BinaryIsPlaced(e, lang, any);
      case Cast(_, sub) => RejectionIsPlaced(sub, lang, any);
      case Conditional(_, _, _, _) => ConditionalIsPlaced(e, lang, any);
      case _ =>
    }
  }

  lemma {:induction false} BinaryIsPlaced(e: Expr, lang: Lang, any: AnyInt)
    requires e.Binary? && WellTyped(e) && CheckICE(e, lang, any).val != 0
    ensures Placed(CheckICE(e, lang, any), e, lang, any)
    decreases e, 0
  {
    var d := CheckICE(e, lang, any);
    if d.at != Some(e) {
      if d == CheckICE(e.lhs, lang, any) {
        RejectionIsPlaced(e.lhs, lang, any);
      } else {
        RejectionIsPlaced(e.rhs, lang, any);
      }
    }
  }

  lemma {:induction false} ConditionalIsPlaced(e: Expr, lang: Lang, any: AnyInt)
    requires e.Conditional? && WellTyped(e) && CheckICE(e, lang, any).val != 0
    ensures Placed(CheckICE(e, lang, any), e, lang, any)
    decreases e, 0
  {
    var d := CheckICE(e, lang, any);
    if d.at != Some(e) {
      if d == CheckICE(e.cond, lang, any) {
        RejectionIsPlaced(e.cond, lang, any);
      } else if d == CheckICE(e.yes, lang, any) {
        RejectionIsPlaced(e.yes, lang, any);
      } else {
        RejectionIsPlaced(e.no, lang, any);
      }
    }
  }

  // ------------------------------------------------------------------------- the query

  /** None of the three assertions in the body can fail, whatever `any` is. */
  method IsIntegerConstantExpr(e: Expr, lang: Lang, any: AnyInt)
    returns (ok: bool, result: APSInt, at: Option<Expr>)
    requires WellTyped(e)
    ensures ok <==> CheckICE(e, lang, any).val == 0
    ensures ok <==> Constant(e, lang)
    ensures ok ==> Fold(e).value == Some(result)
    ensures ok ==> forall m: Machine, h: History {:trigger Meaning(e, m, h)} :: Consistent(e, m) ==>
              Meaning(e, m, h) == if Exact(e) then Yields(Value(result), h) else Undefined
    ensures !ok ==> at == CheckICE(e, lang, any).at
  {
    AcceptedIff(e, lang, any);
    var d := CheckICE(e, lang, any);
    if d.val != 0 {
      return false, APSInt(1, true, 0), d.at;
    }
    AcceptedFolds(e, lang, any);
    var evalResult := new EvalResult();
    var evaluated := Evaluate(e, evalResult);
    assert evaluated;
    assert !evalResult.HasSideEffects;
    forall m: Machine, h: History | Consistent(e, m)
      ensures Meaning(e, m, h) == if Exact(e) then Yields(FoldedValue(e), h) else Undefined
    {
      FoldDecides(e, m, h);
    }
    return true, evalResult.Val, None;
  }
}
