/**
  Compatible types and the composite type of two of them (sections 6.2.7, 6.7.2.2,
  6.7.3, 6.7.5.1 to 6.7.5.3 of C99), on the structures canonical types stand for.
 */
module TypeMerge {
  import opened Options
  import opened Qualifiers

  datatype BuiltinKind =
    | Void | Bool | CharU | UChar | UShort | UInt | ULong | ULongLong
    | CharS | SChar | Short | Int | Long | LongLong | Float | Double | LongDouble

  datatype Ty = Ty(quals: Quals, base: Base)

  datatype Base =
    | Builtin(kind: BuiltinKind)
    | Record(decl: nat)
    | Enum(decl: nat, integer: BuiltinKind)
    | Pointer(pointee: Ty)
    | ConstArray(elem: Ty, size: nat, modifier: nat, index: Quals)
    | IncArray(elem: Ty, modifier: nat, index: Quals)
    | NoProto(result: Ty)
    | Proto(result: Ty, args: seq<Ty>, variadic: bool, onThis: Quals)

  function Unqualified(t: Ty): Ty {
    t.(quals := NONE)
  }

  /** The canonical type classes, with the two kinds of functions and of arrays taken for one. */
  datatype Class = BuiltinClass | RecordClass | EnumClass | PointerClass | ArrayClass | FunctionClass

  function ClassOf(b: Base): Class {
    match b
    case Builtin(_) => BuiltinClass
    case Record(_) => RecordClass
    case Enum(_, _) => EnumClass
    case Pointer(_) => PointerClass
    case ConstArray(_, _, _, _) => ArrayClass
    case IncArray(_, _, _) => ArrayClass
    case NoProto(_) => FunctionClass
    case Proto(_, _, _, _) => FunctionClass
  }

  /** Changed by the default argument promotions. */
  predicate Promoted(t: Ty) {
    t.base.Builtin? && t.base.kind in {Bool, CharS, CharU, SChar, UChar, Short, UShort, Float}
  }

  /** Sections 6.3.1.1p2 and 6.5.2.2p6: what an argument of the type is passed as. */
  function PassedAs(kind: BuiltinKind): BuiltinKind {
    if kind == Float then Double else if IntegerBits(kind) < 32 then Int else kind
  }

  /** The width of an integer type of fewer bits than `int`; 32 for all others. */
  function IntegerBits(kind: BuiltinKind): nat {
    match kind
    case Bool => 1
    case CharU => 8
    case CharS => 8
    case UChar => 8
    case SChar => 8
    case UShort => 16
    case Short => 16
    case _ => 32
  }

  lemma PromotedIff(t: Ty)
    ensures Promoted(t) <==> t.base.Builtin? && PassedAs(t.base.kind) != t.base.kind
  {
  }

  predicate NonePromoted(args: seq<Ty>) {
    forall a <- args :: !Promoted(a)
  }

  // --------------------------------------------------------------------------- merging

  /** Stuck is the use of a left prototype that is not there. */
  datatype Outcome = Incompatible | Merged(ty: Ty) | Stuck

  datatype ArgsOutcome = ArgsIncompatible | ArgsMerged(types: seq<Ty>) | ArgsStuck

  function MergeTypes(l: Ty, r: Ty): Outcome
    decreases l, 1
  {
    if l.quals != r.quals then Incompatible else MergeBases(l.quals, l.base, r.base)
  }

  /** Merges two types with the same qualifiers. */
  function MergeBases(q: Quals, l: Base, r: Base): Outcome
    decreases l, 1
  {
    if l == r then Merged(Ty(q, l))
    else if ClassOf(l) != ClassOf(r) then
      // an enumeration and its integer type
      if l.Enum? && r == Builtin(l.integer) then Merged(Ty(q, r))
      else if r.Enum? && l == Builtin(r.integer) then Merged(Ty(q, l))
      else Incompatible
    else match ClassOf(l)
      case PointerClass =>
        var t := MergeTypes(l.pointee, r.pointee);
        if !t.Merged? then t
        else if l.pointee == t.ty then Merged(Ty(q, l))
        else if r.pointee == t.ty then Merged(Ty(q, r))
        else Merged(Ty(NONE, Pointer(t.ty)))
      case ArrayClass =>
        if l.ConstArray? && r.ConstArray? && l.size != r.size then Incompatible
        else
          var t := MergeTypes(l.elem, r.elem);
          if !t.Merged? then t else Merged(MergedArray(q, l, r, t.ty))
      case FunctionClass => MergeFunctionTypes(q, l, r)
      case _ => Incompatible
  }

  /** A known size wins; a side whose element type is the merged one is kept as it is. */
  function MergedArray(q: Quals, l: Base, r: Base, elem: Ty): Ty
    requires ClassOf(l).ArrayClass? && ClassOf(r).ArrayClass?
  {
    if l.ConstArray? && l.elem == elem then Ty(q, l)
    else if r.ConstArray? && r.elem == elem then Ty(q, r)
    else if l.ConstArray? then Ty(NONE, ConstArray(elem, l.size, 0, NONE))
    else if r.ConstArray? then Ty(NONE, ConstArray(elem, r.size, 0, NONE))
    else if l.elem == elem then Ty(q, l)
    else if r.elem == elem then Ty(q, r)
    else Ty(NONE, IncArray(elem, 0, NONE))
  }

  function MergeFunctionTypes(q: Quals, l: Base, r: Base): Outcome
    requires ClassOf(l).FunctionClass? && ClassOf(r).FunctionClass?
    decreases l, 0
  {
    var ret := MergeTypes(l.result, r.result);
    if !ret.Merged? then ret
    else
      var allL, allR := ret.ty == l.result, ret.ty == r.result;
      if l.Proto? && r.Proto? then
        if |l.args| != |r.args| || l.variadic != r.variadic || l.onThis != r.onThis then Incompatible
        else
          var args := MergeArgs(l.args, r.args);
          match args
          case ArgsIncompatible => Incompatible
          case ArgsStuck => Stuck
          case ArgsMerged(types) =>
            if allL && types == AllUnqualified(l.args) then Merged(Ty(q, l))
            else if allR && types == AllUnqualified(r.args) then Merged(Ty(q, r))
            else Merged(Ty(NONE, Proto(ret.ty, types, l.variadic, l.onThis)))
      else if l.Proto? then
        if l.variadic || !NonePromoted(l.args) then Incompatible
        else if allL then Merged(Ty(q, l))
        else Merged(Ty(NONE, Proto(ret.ty, l.args, l.variadic, l.onThis)))
      else if r.Proto? then
        if r.variadic || !NonePromoted(r.args) then Incompatible
        else if allR then Merged(Ty(q, r))
        else Stuck   // the left prototype is asked whether it is variadic
      else if allL then Merged(Ty(q, l))
      else if allR then Merged(Ty(q, r))
      else Merged(Ty(NONE, NoProto(ret.ty)))
  }

  function AllUnqualified(ts: seq<Ty>): (r: seq<Ty>)
    ensures |r| == |ts|
    ensures forall i :: 0 <= i < |ts| ==> r[i] == Unqualified(ts[i])
  {
    if ts == [] then [] else AllUnqualified(ts[..|ts| - 1]) + [Unqualified(ts[|ts| - 1])]
  }

  /** Parameters are merged in order, without their own qualifiers. */
  function MergeArgs(ls: seq<Ty>, rs: seq<Ty>): (a: ArgsOutcome)
    requires |ls| == |rs|
    ensures a.ArgsMerged? ==> |a.types| == |ls|
    decreases ls, 0
  {
    if ls == [] then ArgsMerged([])
    else
      var n := |ls| - 1;
      var before := MergeArgs(ls[..n], rs[..n]);
      if !before.ArgsMerged? then before
      else
        match MergeParameter(ls[n], rs[n])
        case Incompatible => ArgsIncompatible
        case Stuck => ArgsStuck
        case Merged(ty) => ArgsMerged(before.types + [ty])
  }

  function MergeParameter(l: Ty, r: Ty): Outcome
    decreases l, 1
  {
    MergeBases(NONE, l.base, r.base)
  }

  // ---------------------------------------------------------------------- compatibility

  /** Compatible types, as the language defines them and regardless of order. */
  ghost predicate Compatible(l: Ty, r: Ty)
    decreases l, 1
  {
    l.quals == r.quals && CompatibleBases(l.base, r.base)
  }

  ghost predicate CompatibleBases(l: Base, r: Base)
    decreases l, 1
  {
    || l == r
    || (l.Enum? && r == Builtin(l.integer))
    || (r.Enum? && l == Builtin(r.integer))
    || (l.Pointer? && r.Pointer? && Compatible(l.pointee, r.pointee))
    || (ClassOf(l).ArrayClass? && ClassOf(r).ArrayClass? && Compatible(l.elem, r.elem) &&
        (l.ConstArray? && r.ConstArray? ==> l.size == r.size))
    || (ClassOf(l).FunctionClass? && ClassOf(r).FunctionClass? && Compatible(l.result, r.result) &&
        CompatibleParameters(l, r))
  }

  ghost predicate CompatibleParameters(l: Base, r: Base)
    requires ClassOf(l).FunctionClass? && ClassOf(r).FunctionClass?
    decreases l, 0
  {
    if l.Proto? && r.Proto? then
      && |l.args| == |r.args| && l.variadic == r.variadic && l.onThis == r.onThis
      && forall i :: 0 <= i < |l.args| ==> CompatibleBases(l.args[i].base, r.args[i].base)
    else
      && (l.Proto? ==> !l.variadic && NonePromoted(l.args))
      && (r.Proto? ==> !r.variadic && NonePromoted(r.args))
  }

  lemma {:induction false} CompatibleIsSymmetric(l: Base, r: Base)
    requires CompatibleBases(l, r)
    ensures CompatibleBases(r, l)
    decreases l
  {
    if l != r && ClassOf(l) == ClassOf(r) {
      match ClassOf(l) {
        case PointerClass => CompatibleIsSymmetric(l.pointee.base, r.pointee.base);
        case ArrayClass => CompatibleIsSymmetric(l.elem.base, r.elem.base);
        case FunctionClass =>
          CompatibleIsSymmetric(l.result.base, r.result.base);
          if l.Proto? && r.Proto? {
            forall i | 0 <= i < |l.args| ensures CompatibleBases(r.args[i].base, l.args[i].base) {
              CompatibleIsSymmetric(l.args[i].base, r.args[i].base);
            }
          }
          assert CompatibleParameters(r, l);
        case _ =>
      }
    }
  }

  // ------------------------------------------------------------ the missing left prototype

  /**
    Merging comes to a function type on the left without a prototype that the one on the
    right has, and the right type will not do as it is: its result is not the merged one.
    Function types are merged result first, and then parameter by parameter.
   */
  ghost predicate NeedsPrototype(l: Base, r: Base)
    decreases l, 1
  {
    l != r && ClassOf(l) == ClassOf(r) && match ClassOf(l)
      case PointerClass => l.pointee.quals == r.pointee.quals && NeedsPrototype(l.pointee.base, r.pointee.base)
      case ArrayClass =>
        && l.elem.quals == r.elem.quals && (l.ConstArray? && r.ConstArray? ==> l.size == r.size)
        && NeedsPrototype(l.elem.base, r.elem.base)
      case FunctionClass =>
        && l.result.quals == r.result.quals
        && (|| NeedsPrototype(l.result.base, r.result.base)
            || (Compatible(l.result, r.result) && FunctionNeedsPrototype(l, r)))
      case _ => false
  }

  /** The same for two function types whose results are compatible. */
  ghost predicate FunctionNeedsPrototype(l: Base, r: Base)
    requires ClassOf(l).FunctionClass? && ClassOf(r).FunctionClass?
    decreases l, 0
  {
    if l.Proto? && r.Proto? then
      && |l.args| == |r.args| && l.variadic == r.variadic && l.onThis == r.onThis
      && exists i :: 0 <= i < |l.args| && NeedsPrototype(l.args[i].base, r.args[i].base) &&
                     forall j :: 0 <= j < i ==> CompatibleBases(l.args[j].base, r.args[j].base)
    else
      && l.NoProto? && r.Proto? && !r.variadic && NonePromoted(r.args)
      && MergeTypes(l.result, r.result) != Merged(r.result)
  }

  /**
    Merging is stuck exactly where it needs the missing prototype, and otherwise finds a type
    exactly for compatible types.
   */
  lemma {:induction false} MergesIffCompatible(q: Quals, l: Base, r: Base)
    ensures MergeBases(q, l, r).Stuck? <==> NeedsPrototype(l, r)
    ensures MergeBases(q, l, r).Merged? <==> CompatibleBases(l, r) && !NeedsPrototype(l, r)
    decreases l, 1
  {
    if l != r && ClassOf(l) == ClassOf(r) {
      match ClassOf(l) {
        case PointerClass => MergesIffCompatible(l.pointee.quals, l.pointee.base, r.pointee.base);
        case ArrayClass => MergesIffCompatible(l.elem.quals, l.elem.base, r.elem.base);
        case FunctionClass => FunctionsMergeIffCompatible(q, l, r);
        case _ =>
      }
    }
  }

  lemma {:induction false} FunctionsMergeIffCompatible(q: Quals, l: Base, r: Base)
    requires ClassOf(l).FunctionClass? && ClassOf(r).FunctionClass? && l != r
    ensures MergeFunctionTypes(q, l, r).Stuck? <==> NeedsPrototype(l, r)
    ensures MergeFunctionTypes(q, l, r).Merged? <==> CompatibleBases(l, r) && !NeedsPrototype(l, r)
    decreases l, 0
  {
    MergesIffCompatible(l.result.quals, l.result.base, r.result.base);
    if l.Proto? && r.Proto? && |l.args| == |r.args| { ArgsMergeIffCompatible(l.args, r.args); }
  }

  lemma {:induction false} ArgsMergeIffCompatible(ls: seq<Ty>, rs: seq<Ty>)
    requires |ls| == |rs|
    ensures MergeArgs(ls, rs).ArgsStuck? <==>
              exists i :: 0 <= i < |ls| && NeedsPrototype(ls[i].base, rs[i].base) &&
                          forall j :: 0 <= j < i ==> CompatibleBases(ls[j].base, rs[j].base)
    ensures MergeArgs(ls, rs).ArgsMerged? <==>
              forall i :: 0 <= i < |ls| ==> CompatibleBases(ls[i].base, rs[i].base) && !NeedsPrototype(ls[i].base, rs[i].base)
    decreases ls, 0
  {
    if ls != [] {
      var n := |ls| - 1;
      ArgsMergeIffCompatible(ls[..n], rs[..n]);
      ParameterMergesIffCompatible(ls[n], rs[n]);
      assert forall i :: 0 <= i < n ==> ls[..n][i] == ls[i] && rs[..n][i] == rs[i];
    }
  }

  lemma {:induction false} ParameterMergesIffCompatible(l: Ty, r: Ty)
    ensures MergeParameter(l, r).Stuck? <==> NeedsPrototype(l.base, r.base)
    ensures MergeParameter(l, r).Merged? <==> CompatibleBases(l.base, r.base) && !NeedsPrototype(l.base, r.base)
    decreases l, 1
  {
    MergesIffCompatible(NONE, l.base, r.base);
  }

  /** No function type in it lacks a prototype. */
  predicate Prototyped(b: Base) {
    match b
    case Pointer(pointee) => Prototyped(pointee.base)
    case ConstArray(elem, _, _, _) => Prototyped(elem.base)
    case IncArray(elem, _, _) => Prototyped(elem.base)
    case NoProto(_) => false
    case Proto(result, args, _, _) => Prototyped(result.base) && forall i :: 0 <= i < |args| ==> Prototyped(args[i].base)
    case _ => true
  }

  lemma {:induction false} PrototypedNeedsNone(l: Base, r: Base)
    requires Prototyped(l)
    ensures !NeedsPrototype(l, r)
    decreases l
  {
    if l != r && ClassOf(l) == ClassOf(r) {
      match ClassOf(l) {
        case PointerClass => PrototypedNeedsNone(l.pointee.base, r.pointee.base);
        case ArrayClass => PrototypedNeedsNone(l.elem.base, r.elem.base);
        case FunctionClass =>
          PrototypedNeedsNone(l.result.base, r.result.base);
          if r.Proto? && |l.args| == |r.args| {
            forall i | 0 <= i < |l.args| ensures !NeedsPrototype(l.args[i].base, r.args[i].base) {
              PrototypedNeedsNone(l.args[i].base, r.args[i].base);
            }
          }
        case _ =>
      }
    }
  }

  /**
    Merging is defined for (L, R) exactly when it is for (R, L), unless the types are
    compatible and the prototype is missing in one of the two orders only.
   */
  lemma {:induction false} MergeIsSymmetric(l: Ty, r: Ty)
    ensures MergeTypes(l, r).Merged? <==> Compatible(l, r) && !NeedsPrototype(l.base, r.base)
    ensures (MergeTypes(l, r).Merged? <==> MergeTypes(r, l).Merged?) <==>
              (Compatible(l, r) ==> (NeedsPrototype(l.base, r.base) <==> NeedsPrototype(r.base, l.base)))
    ensures Prototyped(l.base) && Prototyped(r.base) ==> (MergeTypes(l, r).Merged? <==> MergeTypes(r, l).Merged?)
  {
    MergesIffCompatible(l.quals, l.base, r.base);
    MergesIffCompatible(l.quals, r.base, l.base);
    if CompatibleBases(l.base, r.base) { CompatibleIsSymmetric(l.base, r.base); }
    if CompatibleBases(r.base, l.base) { CompatibleIsSymmetric(r.base, l.base); }
    if Prototyped(l.base) { PrototypedNeedsNone(l.base, r.base); }
    if Prototyped(r.base) { PrototypedNeedsNone(r.base, l.base); }
  }

  /** Stuck one way round, merged the other: functions returning pointers to arrays. */
  lemma MissingPrototype()
    ensures var known, open := PointerToArray(true), PointerToArray(false);
            var l, r := Ty(NONE, NoProto(known)), Ty(NONE, Proto(open, [INT], false, NONE));
            MergeTypes(l, r).Stuck? && MergeTypes(r, l) == Merged(Ty(NONE, Proto(known, [INT], false, NONE)))
  {
    var known, open := PointerToArray(true), PointerToArray(false);
    var l, r := NoProto(known), Proto(open, [INT], false, NONE);
    OpenMeetsKnown();
    assert MergeFunctionTypes(NONE, l, r).Stuck?;
    assert MergeFunctionTypes(NONE, r, l) == Merged(Ty(NONE, Proto(known, [INT], false, NONE)));
  }

  const INT: Ty := Ty(NONE, Builtin(Int))

  function PointerToArray(known: bool): Ty {
    Ty(NONE, Pointer(Ty(NONE, if known then ConstArray(INT, 3, 0, NONE) else IncArray(INT, 0, NONE))))
  }

  lemma OpenMeetsKnown()
    ensures var known, open := PointerToArray(true), PointerToArray(false);
            MergeTypes(known, open) == MergeTypes(open, known) == Merged(known) && known != open
  {
    var known, open := PointerToArray(true).base.pointee, PointerToArray(false).base.pointee;
    assert MergeTypes(INT, INT) == Merged(INT);
    assert MergeTypes(known, open) == MergeTypes(open, known) == Merged(known);
  }

  // ------------------------------------------------------------------- the merged type

  /** Merging these two builds a pointer anew and drops the qualifiers it had. */
  ghost predicate LosesQuals(q: Quals, l: Base, r: Base)
    decreases l
  {
    l != r && ClassOf(l) == ClassOf(r) && match ClassOf(l)
      case PointerClass =>
        && l.pointee.quals == r.pointee.quals
        && var t := MergeTypes(l.pointee, r.pointee);
           && t.Merged?
           && ((q != NONE && t.ty != l.pointee && t.ty != r.pointee) ||
               LosesQuals(l.pointee.quals, l.pointee.base, r.pointee.base))
      case ArrayClass => l.elem.quals == r.elem.quals && LosesQuals(l.elem.quals, l.elem.base, r.elem.base)
      case FunctionClass =>
        || (l.result.quals == r.result.quals && LosesQuals(l.result.quals, l.result.base, r.result.base))
        || (l.Proto? && r.Proto? && |l.args| == |r.args| &&
            exists i :: 0 <= i < |l.args| && LosesQuals(NONE, l.args[i].base, r.args[i].base))
      case _ => false
  }

  /** What canonical types guarantee: arrays and functions carry no qualifiers themselves. */
  predicate Canonical(q: Quals, b: Base)
    decreases b
  {
    match b
    case Builtin(_) => true
    case Record(_) => true
    case Enum(_, _) => true
    case Pointer(pointee) => Canonical(pointee.quals, pointee.base)
    case ConstArray(elem, _, _, _) => q == NONE && Canonical(elem.quals, elem.base)
    case IncArray(elem, _, _) => q == NONE && Canonical(elem.quals, elem.base)
    case NoProto(result) => q == NONE && Canonical(result.quals, result.base)
    case Proto(result, args, _, _) =>
      && q == NONE && Canonical(result.quals, result.base)
      && forall i :: 0 <= i < |args| ==> Canonical(NONE, args[i].base)
  }

  lemma {:induction false} MergesWithItself(t: Ty)
    ensures MergeTypes(t, t) == Merged(t)
  {
  }

  /** A list of parameters merges exactly when each of them does. */
  lemma {:induction false} ArgsMergeEach(ls: seq<Ty>, rs: seq<Ty>)
    requires |ls| == |rs|
    ensures MergeArgs(ls, rs).ArgsMerged? <==>
              forall i :: 0 <= i < |ls| ==> MergeParameter(ls[i], rs[i]).Merged?
    ensures MergeArgs(ls, rs).ArgsMerged? ==>
              forall i :: 0 <= i < |ls| ==> MergeArgs(ls, rs).types[i] == MergeParameter(ls[i], rs[i]).ty
    decreases |ls|
  {
    if ls != [] {
      var n := |ls| - 1;
      ArgsMergeEach(ls[..n], rs[..n]);
      if MergeArgs(ls[..n], rs[..n]).ArgsMerged? {
        forall i | 0 <= i < n ensures MergeParameter(ls[i], rs[i]).Merged? {
          assert MergeParameter(ls[..n][i], rs[..n][i]).Merged?;
        }
      } else {
        var i :| 0 <= i < n && !MergeParameter(ls[..n][i], rs[..n][i]).Merged?;
        assert !MergeParameter(ls[i], rs[i]).Merged?;
      }
      if MergeArgs(ls, rs).ArgsMerged? {
        forall i | 0 <= i < |ls| ensures MergeArgs(ls, rs).types[i] == MergeParameter(ls[i], rs[i]).ty {
          if i < n { assert MergeParameter(ls[..n][i], rs[..n][i]) == MergeParameter(ls[i], rs[i]); }
        }
      }
    }
  }

  /** t says all that l says: known sizes and prototypes included, whatever the qualifiers of rebuilt types. */
  ghost predicate Covers(t: Base, l: Base)
    decreases l
  {
    t == l || match l
      case Enum(_, integer) => t == Builtin(integer)
      case Pointer(pointee) => t.Pointer? && Covers(t.pointee.base, pointee.base)
      case ConstArray(elem, size, _, _) => t.ConstArray? && t.size == size && Covers(t.elem.base, elem.base)
      case IncArray(elem, _, _) => ClassOf(t).ArrayClass? && Covers(t.elem.base, elem.base)
      case NoProto(result) => ClassOf(t).FunctionClass? && Covers(t.result.base, result.base)
      case Proto(result, args, variadic, onThis) =>
        && t.Proto? && |t.args| == |args| && t.variadic == variadic && t.onThis == onThis
        && Covers(t.result.base, result.base)
        && forall i :: 0 <= i < |args| ==> Covers(t.args[i].base, args[i].base)
      case _ => false
  }

  /** Section 6.2.7p3: a merged type says all that either of its parts says. */
  lemma {:induction false} MergedCovers(q: Quals, l: Base, r: Base)
    requires MergeBases(q, l, r).Merged?
    ensures Covers(MergeBases(q, l, r).ty.base, l) && Covers(MergeBases(q, l, r).ty.base, r)
    decreases l, 1
  {
    if l != r && ClassOf(l) == ClassOf(r) {
      match ClassOf(l) {
        case PointerClass => MergedCovers(l.pointee.quals, l.pointee.base, r.pointee.base);
        case ArrayClass => MergedCovers(l.elem.quals, l.elem.base, r.elem.base);
        case FunctionClass => FunctionCovers(q, l, r);
        case _ =>
      }
    }
  }

  lemma {:induction false} FunctionCovers(q: Quals, l: Base, r: Base)
    requires ClassOf(l).FunctionClass? && ClassOf(r).FunctionClass? && MergeFunctionTypes(q, l, r).Merged?
    ensures Covers(MergeFunctionTypes(q, l, r).ty.base, l) && Covers(MergeFunctionTypes(q, l, r).ty.base, r)
    decreases l, 0
  {
    hide Covers, MergeArgs, MergeBases;
    var t := MergeFunctionTypes(q, l, r).ty.base;
    MergedCovers(l.result.quals, l.result.base, r.result.base);
    assert t.result == MergeTypes(l.result, r.result).ty;
    if l.Proto? && r.Proto? {
      ArgsMergeEach(l.args, r.args);
      forall i | 0 <= i < |l.args|
        ensures Covers(t.args[i].base, l.args[i].base) && Covers(t.args[i].base, r.args[i].base)
      {
        MergedCovers(NONE, l.args[i].base, r.args[i].base);
      }
    } else {
      forall i | l.Proto? && 0 <= i < |l.args| ensures Covers(t.args[i].base, l.args[i].base) { CoversItself(l.args[i].base); }
      forall i | r.Proto? && 0 <= i < |r.args| ensures Covers(t.args[i].base, r.args[i].base) { CoversItself(r.args[i].base); }
    }
    FunctionCovered(t, l);
    FunctionCovered(t, r);
  }

  lemma {:induction false} CoversItself(b: Base)
    ensures Covers(b, b)
  {
  }

  lemma {:induction false} FunctionCovered(t: Base, l: Base)
    requires ClassOf(t).FunctionClass? && ClassOf(l).FunctionClass? && Covers(t.result.base, l.result.base)
    requires l.Proto? ==>
               && t.Proto? && |t.args| == |l.args| && t.variadic == l.variadic && t.onThis == l.onThis
               && forall i :: 0 <= i < |l.args| ==> Covers(t.args[i].base, l.args[i].base)
    ensures Covers(t, l)
  {
  }

  /** The merged type of a pair, and what merging it again with either of them gives. */
  ghost predicate MergesBack(q: Quals, l: Base, r: Base, t: Ty) {
    && (q == NONE ==> t.quals == NONE)
    && (MergeTypes(t, Ty(q, l)).Merged? <==> !LosesQuals(q, l, r))
    && (MergeTypes(t, Ty(q, r)).Merged? <==> !LosesQuals(q, l, r))
  }

  /** Two parts that merge, and whose merged type merges back as it should. */
  ghost predicate PartMergesBack(l: Ty, r: Ty) {
    && l.quals == r.quals && MergeTypes(l, r).Merged?
    && MergesBack(l.quals, l.base, r.base, MergeTypes(l, r).ty)
  }

  ghost predicate ParameterMergesBack(l: Ty, r: Ty) {
    MergeParameter(l, r).Merged? && MergesBack(NONE, l.base, r.base, MergeParameter(l, r).ty)
  }

  /**
    The merged type merges with both types it was made from, exactly when no qualified
    pointer was built anew on the way.
   */
  lemma {:induction false} MergedMergesBack(q: Quals, l: Base, r: Base)
    requires Canonical(q, l) && Canonical(q, r) && MergeBases(q, l, r).Merged?
    ensures MergesBack(q, l, r, MergeBases(q, l, r).ty)
    decreases l, 1
  {
    if l == r {
      MergesWithItself(Ty(q, l));
    } else if ClassOf(l) == ClassOf(r) {
      match ClassOf(l) {
        case PointerClass =>
          TypesMergeBack(l.pointee, r.pointee);
          PointerMergesBack(q, l, r);
        case ArrayClass =>
          TypesMergeBack(l.elem, r.elem);
          ArrayMergesBack(l, r);
        case FunctionClass =>
          FunctionParts(q, l, r);
          TypesMergeBack(l.result, r.result);
          if l.Proto? && r.Proto? {
            forall i | 0 <= i < |l.args| ensures ParameterMergesBack(l.args[i], r.args[i]) {
              ParametersMergeBack(l.args[i], r.args[i]);
            }
            PrototypesMergeBack(l, r);
          } else {
            FunctionMergesBack(l, r);
          }
        case _ =>
      }
    }
  }

  lemma {:induction false} TypesMergeBack(l: Ty, r: Ty)
    requires MergeTypes(l, r).Merged? && Canonical(l.quals, l.base) && Canonical(r.quals, r.base)
    ensures PartMergesBack(l, r)
    decreases l, 1
  {
    MergedMergesBack(l.quals, l.base, r.base);
  }

  lemma {:induction false} ParametersMergeBack(l: Ty, r: Ty)
    requires MergeParameter(l, r).Merged? && Canonical(NONE, l.base) && Canonical(NONE, r.base)
    ensures ParameterMergesBack(l, r)
    decreases l, 1
  {
    MergedMergesBack(NONE, l.base, r.base);
  }

  /** Functions merge only if their results do, and their parameters if both list them. */
  lemma {:induction false} FunctionParts(q: Quals, l: Base, r: Base)
    requires ClassOf(l).FunctionClass? && ClassOf(r).FunctionClass? && l != r && MergeBases(q, l, r).Merged?
    requires Canonical(q, l) && Canonical(q, r)
    ensures q == NONE && MergeFunctionTypes(q, l, r).Merged? && MergeTypes(l.result, r.result).Merged?
    ensures Canonical(l.result.quals, l.result.base) && Canonical(r.result.quals, r.result.base)
    ensures l.Proto? && r.Proto? ==>
              && |l.args| == |r.args| && MergeArgs(l.args, r.args).ArgsMerged?
              && l.variadic == r.variadic && l.onThis == r.onThis
              && forall i :: 0 <= i < |l.args| ==>
                   && MergeParameter(l.args[i], r.args[i]).Merged?
                   && Canonical(NONE, l.args[i].base) && Canonical(NONE, r.args[i].base)
  {
    if l.Proto? && r.Proto? && |l.args| == |r.args| { ArgsMergeEach(l.args, r.args); }
  }

  lemma {:induction false} PointerMergesBack(q: Quals, l: Base, r: Base)
    requires l.Pointer? && r.Pointer? && l != r && MergeBases(q, l, r).Merged?
    requires PartMergesBack(l.pointee, r.pointee)
    ensures MergesBack(q, l, r, MergeBases(q, l, r).ty)
  {
    MergesWithItself(l.pointee);
    MergesWithItself(r.pointee);
  }

  lemma {:induction false} ArrayMergesBack(l: Base, r: Base)
    requires ClassOf(l).ArrayClass? && ClassOf(r).ArrayClass? && l != r && MergeBases(NONE, l, r).Merged?
    requires PartMergesBack(l.elem, r.elem)
    ensures MergesBack(NONE, l, r, MergeBases(NONE, l, r).ty)
  {
    MergesWithItself(l.elem);
    MergesWithItself(r.elem);
    MergesWithItself(Ty(NONE, l));
    MergesWithItself(Ty(NONE, r));
  }

  /** When functions merge, from what their parts do. */
  lemma {:induction false} FunctionsMergeIff(a: Base, b: Base)
    requires ClassOf(a).FunctionClass? && ClassOf(b).FunctionClass?
    ensures a.Proto? && b.Proto? ==>
              (MergeBases(NONE, a, b).Merged? <==>
                 || a == b
                 || (&& MergeTypes(a.result, b.result).Merged?
                     && |a.args| == |b.args| && a.variadic == b.variadic && a.onThis == b.onThis
                     && forall i :: 0 <= i < |a.args| ==> MergeParameter(a.args[i], b.args[i]).Merged?))
    ensures a.Proto? && !b.Proto? ==>
              (MergeBases(NONE, a, b).Merged? <==>
                 MergeTypes(a.result, b.result).Merged? && !a.variadic && NonePromoted(a.args))
    ensures !a.Proto? && !b.Proto? ==>
              (MergeBases(NONE, a, b).Merged? <==> MergeTypes(a.result, b.result).Merged?)
  {
    if a == b {
      MergesWithItself(a.result);
    } else {
      assert MergeBases(NONE, a, b) == MergeFunctionTypes(NONE, a, b);
      if a.Proto? && b.Proto? && |a.args| == |b.args| { ArgsMergeEach(a.args, b.args); }
    }
  }

  /** At most one of the functions has a prototype. */
  lemma {:induction false} FunctionMergesBack(l: Base, r: Base)
    requires ClassOf(l).FunctionClass? && ClassOf(r).FunctionClass? && l != r && !(l.Proto? && r.Proto?)
    requires MergeFunctionTypes(NONE, l, r).Merged? && PartMergesBack(l.result, r.result)
    ensures MergesBack(NONE, l, r, MergeFunctionTypes(NONE, l, r).ty)
  {
    var t := MergeFunctionTypes(NONE, l, r).ty.base;
    assert LosesQuals(NONE, l, r) <==> LosesQuals(l.result.quals, l.result.base, r.result.base);
    assert t.result == MergeTypes(l.result, r.result).ty;
    hide MergeBases, MergeFunctionTypes, LosesQuals;
    MergesWithItself(l.result);
    MergesWithItself(r.result);
    FunctionsMergeIff(t, l);
    FunctionsMergeIff(t, r);
    if l.Proto? { EachMergesWithItself(l.args); }
    if r.Proto? { EachMergesWithItself(r.args); }
  }

  lemma EachMergesWithItself(ts: seq<Ty>)
    ensures forall i :: 0 <= i < |ts| ==> MergeParameter(ts[i], ts[i]).Merged?
  {
  }

  /** What the merged prototype is made of, whichever of the three it is. */
  lemma {:induction false} MergedPrototype(l: Base, r: Base)
    requires l.Proto? && r.Proto? && |l.args| == |r.args| && MergeFunctionTypes(NONE, l, r).Merged?
    ensures var t := MergeFunctionTypes(NONE, l, r).ty;
            && t.quals == NONE && t.base.Proto?
            && MergeTypes(l.result, r.result) == Merged(t.base.result)
            && l.variadic == r.variadic == t.base.variadic && l.onThis == r.onThis == t.base.onThis
            && |t.base.args| == |l.args|
            && forall i :: 0 <= i < |l.args| ==>
                 && MergeParameter(l.args[i], r.args[i]).Merged?
                 && t.base.args[i].base == MergeParameter(l.args[i], r.args[i]).ty.base
  {
    var types := MergeArgs(l.args, r.args).types;
    ArgsMergeEach(l.args, r.args);
    hide MergeBases;
    var t := MergeFunctionTypes(NONE, l, r).ty.base;
    forall i | 0 <= i < |l.args| ensures t.args[i].base == MergeParameter(l.args[i], r.args[i]).ty.base {
      assert types[i] == MergeParameter(l.args[i], r.args[i]).ty;
    }
  }

  lemma {:induction false} PrototypesMergeBack(l: Base, r: Base)
    requires l.Proto? && r.Proto? && l != r && MergeFunctionTypes(NONE, l, r).Merged?
    requires PartMergesBack(l.result, r.result) && |l.args| == |r.args|
    requires forall i :: 0 <= i < |l.args| ==> ParameterMergesBack(l.args[i], r.args[i])
    ensures MergesBack(NONE, l, r, MergeFunctionTypes(NONE, l, r).ty)
  {
    var t := MergeFunctionTypes(NONE, l, r).ty.base;
    MergedPrototype(l, r);
    assert LosesQuals(NONE, l, r) <==>
           || LosesQuals(l.result.quals, l.result.base, r.result.base)
           || exists i :: 0 <= i < |l.args| && LosesQuals(NONE, l.args[i].base, r.args[i].base);
    hide MergeBases, MergeFunctionTypes, LosesQuals, MergeArgs;
    FunctionsMergeIff(t, l);
    FunctionsMergeIff(t, r);
    MergesWithItself(l.result);
    MergesWithItself(r.result);
    EachMergesWithItself(l.args);
    EachMergesWithItself(r.args);
    forall i | 0 <= i < |l.args|
      ensures MergeParameter(t.args[i], l.args[i]).Merged? <==> !LosesQuals(NONE, l.args[i].base, r.args[i].base)
      ensures MergeParameter(t.args[i], r.args[i]).Merged? <==> !LosesQuals(NONE, l.args[i].base, r.args[i].base)
    {
      assert ParameterMergesBack(l.args[i], r.args[i]);
      SameParameter(t.args[i], MergeParameter(l.args[i], r.args[i]).ty, l.args[i]);
      SameParameter(t.args[i], MergeParameter(l.args[i], r.args[i]).ty, r.args[i]);
    }
  }

  /** Merging parameters looks at nothing but what they are without their qualifiers. */
  lemma {:induction false} SameParameter(a: Ty, b: Ty, c: Ty)
    requires a.base == b.base && b.quals == NONE
    ensures MergeParameter(a, c) == MergeTypes(b, Ty(NONE, c.base))
  {
  }

  /** Pointers to functions, both `const`: the merged one is not, and merges with neither. */
  lemma QualifierLost()
    ensures var known, open := PointerToArray(true), PointerToArray(false);
            var f, g := Ty(NONE, Proto(INT, [known, open], false, NONE)), Ty(NONE, Proto(INT, [open, known], false, NONE));
            var c := NONE.(c := true);
            var l, r := Ty(c, Pointer(f)), Ty(c, Pointer(g));
            && MergeTypes(l, r) == Merged(Ty(NONE, Pointer(Ty(NONE, Proto(INT, [known, known], false, NONE)))))
            && !MergeTypes(MergeTypes(l, r).ty, l).Merged?
  {
    MergedParameters();
    var known, open := PointerToArray(true), PointerToArray(false);
    var f, g := Proto(INT, [known, open], false, NONE), Proto(INT, [open, known], false, NONE);
    assert f.args[1] != known && g.args[0] != known;
    assert MergeTypes(INT, INT) == Merged(INT);
    assert MergeFunctionTypes(NONE, f, g) == Merged(Ty(NONE, Proto(INT, [known, known], false, NONE)));
    assert MergeTypes(Ty(NONE, f), Ty(NONE, g)) == Merged(Ty(NONE, Proto(INT, [known, known], false, NONE)));
  }

  lemma MergedParameters()
    ensures var known, open := PointerToArray(true), PointerToArray(false);
            known != open && MergeArgs([known, open], [open, known]) == ArgsMerged([known, known])
  {
    var known, open := PointerToArray(true), PointerToArray(false);
    OpenMeetsKnown();
    hide MergeBases;
    assert MergeParameter(known, open) == MergeTypes(known, open) && MergeParameter(open, known) == MergeTypes(open, known);
    assert [known, open][..1] == [known] && [open, known][..1] == [open];
    var none: seq<Ty> := [];
    assert [known][..0] == none && [open][..0] == none;
    assert MergeArgs([known], [open]) == ArgsMerged([known]);
  }
}
