/**
  Programs that are a single loop or a single `if`: traces that the builder and the language
  do not agree on, and that there are none just for regular ones.
 */
module CfgLoops {
  import opened Options
  import opened CfgSyntax
  import opened CfgReach
  import opened CfgModes

  // ---------------------------------------------------------------- shortest evaluations

  /** The events of a shortest evaluation of e. */
  function Path(e: Expr, always: bool): seq<Event> {
    match e
    case Op(id, args) => ArgsPath(args) + (if always then [Elem(id)] else [])
    case Paren(sub) => Path(sub, always)
    case Comma(id, l, r) => Path(l, true) + Path(r, true) + [Elem(id)]
    case Logical(id, isOr, l, r) => Path(l, true) + [Branch(id, isOr), Elem(id)]
    case Conditional(id, c, l, r) =>
      var left := |Path(l, true)| <= |Path(r, true)|;
      Path(c, true) + [Branch(id, left)] + Path(if left then l else r, true) + [Elem(id)]
  }

  function ArgsPath(args: seq<Expr>): seq<Event> {
    if args == [] then [] else Path(args[|args| - 1], false) + ArgsPath(args[..|args| - 1])
  }

  function OptPath(e: Option<Expr>): seq<Event> {
    if e.Some? then Path(e.value, true) else []
  }

  lemma {:induction false} PathNonempty(e: Expr)
    ensures |Path(e, true)| >= 1
    decreases e
  {
    if e.Paren? { PathNonempty(e.sub); }
  }

  lemma {:induction false} PathRuns(m: Mode, root: Stmt, e: Expr, always: bool, k: Kont, tr: seq<Event>)
    ensures Run(m, root, Then(WExpr(e, always), k), Path(e, always) + tr) <==> Run(m, root, k, tr)
    decreases e
  {
    hide Run;
    RunExpr(m, root, e, always, k, Path(e, always) + tr);
    match e
    case Op(id, args) =>
      var last := if always then [Elem(id)] else [];
      var k1 := if always then Then(WElem(id), k) else k;
      assert Path(e, always) + tr == ArgsPath(args) + (last + tr);
      ArgsRun(m, root, args, k1, last + tr);
      RunElem(m, root, id, k, tr);
      assert [] + tr == tr;
    case Paren(sub) =>
      PathRuns(m, root, sub, always, k, tr);
    case Comma(id, l, r) =>
      var t1 := [Elem(id)] + tr;
      assert Path(e, always) + tr == Path(l, true) + (Path(r, true) + t1);
      PathRuns(m, root, l, true, Then(WExpr(r, true), Then(WElem(id), k)), Path(r, true) + t1);
      PathRuns(m, root, r, true, Then(WElem(id), k), t1);
      RunElem(m, root, id, k, tr);
    case Logical(_, _, _, _) => LogicalPathRuns(m, root, e, always, k, tr);
    case Conditional(_, _, _, _) => ConditionalPathRuns(m, root, e, always, k, tr);
  }

  lemma {:induction false} LogicalPathRuns(m: Mode, root: Stmt, e: Expr, always: bool, k: Kont, tr: seq<Event>)
    requires e.Logical?
    ensures Run(m, root, ExprWork(e, always, k), Path(e, always) + tr) <==> Run(m, root, k, tr)
    decreases e, 0
  {
    hide Run;
    var t1 := [Elem(e.id)] + tr;
    var t2 := [Branch(e.id, e.isOr)] + t1;
    assert Path(e, always) + tr == Path(e.lhs, true) + t2;
    PathRuns(m, root, e.lhs, true, Then(WLogical(e.id, e.isOr, e.rhs), k), t2);
    RunBranch(m, root, WLogical(e.id, e.isOr, e.rhs), k, e.isOr, t1);
    RunElem(m, root, e.id, k, tr);
  }

  lemma {:induction false} ConditionalPathRuns(m: Mode, root: Stmt, e: Expr, always: bool, k: Kont, tr: seq<Event>)
    requires e.Conditional?
    ensures Run(m, root, ExprWork(e, always, k), Path(e, always) + tr) <==> Run(m, root, k, tr)
    decreases e, 0
  {
    hide Run;
    var left := |Path(e.lhs, true)| <= |Path(e.rhs, true)|;
    var x := if left then e.lhs else e.rhs;
    var t1 := [Elem(e.id)] + tr;
    var t2 := Path(x, true) + t1;
    assert Path(e, always) + tr == Path(e.cond, true) + ([Branch(e.id, left)] + t2);
    PathRuns(m, root, e.cond, true, Then(WConditional(e.id, e.lhs, e.rhs), k), [Branch(e.id, left)] + t2);
    RunBranch(m, root, WConditional(e.id, e.lhs, e.rhs), k, left, t2);
    PathRuns(m, root, x, true, Then(WElem(e.id), k), t1);
    RunElem(m, root, e.id, k, tr);
  }

  lemma {:induction false} ArgsRun(m: Mode, root: Stmt, args: seq<Expr>, k: Kont, tr: seq<Event>)
    ensures Run(m, root, Then(WArgs(args), k), ArgsPath(args) + tr) <==> Run(m, root, k, tr)
    decreases args
  {
    hide Run;
    RunArgs(m, root, args, k, ArgsPath(args) + tr);
    if args == [] {
      assert [] + tr == tr;
    } else {
      var n := |args| - 1;
      var t1 := ArgsPath(args[..n]) + tr;
      assert ArgsPath(args) + tr == Path(args[n], false) + t1;
      PathRuns(m, root, args[n], false, Then(WArgs(args[..n]), k), t1);
      ArgsRun(m, root, args[..n], k, tr);
    }
  }

  lemma {:induction false} OptRuns(m: Mode, root: Stmt, e: Option<Expr>, k: Kont, tr: seq<Event>)
    ensures Run(m, root, PushExpr(e, k), OptPath(e) + tr) <==> Run(m, root, k, tr)
  {
    if e.Some? { PathRuns(m, root, e.value, true, k, tr); } else { assert [] + tr == tr; }
  }

  // ---------------------------------------------------------------- no evaluation is shorter

  predicate Complete(tr: seq<Event>) {
    tr != [] && tr[|tr| - 1] == Halt
  }

  /** A complete behaviour of k has at least n events. */
  ghost predicate AtLeast(m: Mode, root: Stmt, k: Kont, n: nat) {
    forall tr: seq<Event> :: Run(m, root, k, tr) && Complete(tr) ==> |tr| >= n
  }

  lemma LeastElem(m: Mode, root: Stmt, id: Id, k: Kont, n: nat)
    requires AtLeast(m, root, k, n)
    ensures AtLeast(m, root, Then(WElem(id), k), n + 1)
  {
    forall tr: seq<Event> | Run(m, root, Then(WElem(id), k), tr) && Complete(tr) ensures |tr| >= n + 1 {
      assert Run(m, root, k, tr[1..]) && Complete(tr[1..]);
    }
  }

  /** After a decision, the shorter of the two continuations remains. */
  lemma LeastBranch(m: Mode, root: Stmt, w: Work, k: Kont, n: nat)
    requires w.WLogical? || w.WConditional? || (w.WTest? && IsLoop(w.loop))
    requires forall taken :: AtLeast(m, root, BranchWork(m, w, taken, k), n)
    ensures AtLeast(m, root, Then(w, k), n + 1)
  {
    forall tr: seq<Event> | Run(m, root, Then(w, k), tr) && Complete(tr) ensures |tr| >= n + 1 {
      assert AtLeast(m, root, BranchWork(m, w, tr[0].taken, k), n);
      assert Run(m, root, BranchWork(m, w, tr[0].taken, k), tr[1..]);
      if tr[1..] != [] { assert Complete(tr[1..]); }
    }
  }

  lemma {:induction false} LeastStep(m: Mode, root: Stmt, k: Kont, k': Kont, n: nat)
    requires AtLeast(m, root, k', n) && forall tr: seq<Event> :: Run(m, root, k, tr) ==> Run(m, root, k', tr)
    ensures AtLeast(m, root, k, n)
  {
    hide Run;
  }

  lemma {:induction false} LeastLogical(m: Mode, root: Stmt, id: Id, isOr: bool, r: Expr, k: Kont, n: nat)
    requires AtLeast(m, root, Then(WElem(id), k), n + 1)
    requires AtLeast(m, root, Then(WExpr(r, true), Then(WElem(id), k)), |Path(r, true)| + (n + 1))
    ensures AtLeast(m, root, Then(WLogical(id, isOr, r), k), n + 2)
  {
    hide Run, AtLeast;
    var w := WLogical(id, isOr, r);
    LeastLess(m, root, Then(WExpr(r, true), Then(WElem(id), k)), |Path(r, true)| + (n + 1), n + 1);
    forall taken ensures AtLeast(m, root, BranchWork(m, w, taken, k), n + 1) {}
    LeastBranch(m, root, w, k, n + 1);
  }

  function Shorter(l: Expr, r: Expr): nat {
    if |Path(l, true)| <= |Path(r, true)| then |Path(l, true)| else |Path(r, true)|
  }

  lemma {:induction false} LeastConditional(m: Mode, root: Stmt, id: Id, l: Expr, r: Expr, k: Kont, n: nat)
    requires AtLeast(m, root, Then(WExpr(l, true), Then(WElem(id), k)), |Path(l, true)| + (n + 1))
    requires AtLeast(m, root, Then(WExpr(r, true), Then(WElem(id), k)), |Path(r, true)| + (n + 1))
    ensures AtLeast(m, root, Then(WConditional(id, l, r), k), Shorter(l, r) + n + 2)
  {
    hide Run, AtLeast;
    var w, least := WConditional(id, l, r), Shorter(l, r) + (n + 1);
    LeastLess(m, root, Then(WExpr(l, true), Then(WElem(id), k)), |Path(l, true)| + (n + 1), least);
    LeastLess(m, root, Then(WExpr(r, true), Then(WElem(id), k)), |Path(r, true)| + (n + 1), least);
    forall taken ensures AtLeast(m, root, BranchWork(m, w, taken, k), least) {}
    LeastBranch(m, root, w, k, least);
  }

  lemma {:induction false} PathLength(e: Expr, always: bool)
    ensures |Path(e, always)| ==
            match e
            case Op(_, args) => |ArgsPath(args)| + (if always then 1 else 0)
            case Paren(sub) => |Path(sub, always)|
            case Comma(_, l, r) => |Path(l, true)| + |Path(r, true)| + 1
            case Logical(_, _, l, _) => |Path(l, true)| + 2
            case Conditional(_, c, l, r) => |Path(c, true)| + Shorter(l, r) + 2
  {
  }

  lemma {:induction false} LeastExpr(m: Mode, root: Stmt, e: Expr, always: bool, k: Kont, n: nat)
    requires AtLeast(m, root, k, n)
    ensures AtLeast(m, root, Then(WExpr(e, always), k), |Path(e, always)| + n)
    decreases e
  {
    hide Run, AtLeast, Path, ArgsPath, Shorter;
    PathLength(e, always);
    match e {
    case Op(id, args) =>
      if always { LeastElem(m, root, id, k, n); }
      var n' := if always then n + 1 else n;
      LeastArgs(m, root, args, if always then Then(WElem(id), k) else k, n');
      LeastWork(m, root, e, always, k, |ArgsPath(args)| + n');
    case Paren(sub) =>
      LeastExpr(m, root, sub, always, k, n);
      LeastWork(m, root, e, always, k, |Path(sub, always)| + n);
    case Comma(id, l, r) =>
      LeastElem(m, root, id, k, n);
      LeastExpr(m, root, r, true, Then(WElem(id), k), n + 1);
      LeastExpr(m, root, l, true, Then(WExpr(r, true), Then(WElem(id), k)), |Path(r, true)| + (n + 1));
      LeastWork(m, root, e, always, k, |Path(l, true)| + (|Path(r, true)| + (n + 1)));
    case Logical(id, isOr, l, r) =>
      LeastElem(m, root, id, k, n);
      LeastExpr(m, root, r, true, Then(WElem(id), k), n + 1);
      LeastLogical(m, root, id, isOr, r, k, n);
      LeastExpr(m, root, l, true, Then(WLogical(id, isOr, r), k), n + 2);
      LeastWork(m, root, e, always, k, |Path(l, true)| + (n + 2));
    case Conditional(id, c, l, r) =>
      LeastElem(m, root, id, k, n);
      LeastExpr(m, root, l, true, Then(WElem(id), k), n + 1);
      LeastExpr(m, root, r, true, Then(WElem(id), k), n + 1);
      LeastConditional(m, root, id, l, r, k, n);
      LeastExpr(m, root, c, true, Then(WConditional(id, l, r), k), Shorter(l, r) + n + 2);
      LeastWork(m, root, e, always, k, |Path(c, true)| + (Shorter(l, r) + n + 2));
    }
  }

  lemma LeastWork(m: Mode, root: Stmt, e: Expr, always: bool, k: Kont, n: nat)
    requires AtLeast(m, root, ExprWork(e, always, k), n)
    ensures AtLeast(m, root, Then(WExpr(e, always), k), n)
  {
    hide Run, AtLeast;
    forall tr: seq<Event> ensures Run(m, root, Then(WExpr(e, always), k), tr) ==> Run(m, root, ExprWork(e, always, k), tr) {
      RunExpr(m, root, e, always, k, tr);
    }
    LeastStep(m, root, Then(WExpr(e, always), k), ExprWork(e, always, k), n);
  }

  lemma LeastLess(m: Mode, root: Stmt, k: Kont, n: nat, n': nat)
    requires AtLeast(m, root, k, n) && n' <= n
    ensures AtLeast(m, root, k, n')
  {
    hide Run;
  }

  lemma {:induction false} LeastArgs(m: Mode, root: Stmt, args: seq<Expr>, k: Kont, n: nat)
    requires AtLeast(m, root, k, n)
    ensures AtLeast(m, root, Then(WArgs(args), k), |ArgsPath(args)| + n)
    decreases args
  {
    hide Run, AtLeast;
    var i := |args| - 1;
    var k' := if args == [] then k else Then(WExpr(args[i], false), Then(WArgs(args[..i]), k));
    if args != [] {
      LeastArgs(m, root, args[..i], k, n);
      LeastExpr(m, root, args[i], false, Then(WArgs(args[..i]), k), |ArgsPath(args[..i])| + n);
    }
    forall tr: seq<Event> ensures Run(m, root, Then(WArgs(args), k), tr) ==> Run(m, root, k', tr) {
      RunArgs(m, root, args, k, tr);
    }
    LeastStep(m, root, Then(WArgs(args), k), k', |ArgsPath(args)| + n);
  }

  // ---------------------------------------------------------------- a program that is one loop

  /** The events before the body of the loop is entered for the first time. */
  function UpToBody(s: Stmt): seq<Event>
    requires IsLoop(s)
  {
    if s.Do? then [] else UpToTest(s) + [Branch(s.id, true)]
  }

  function UpToTest(s: Stmt): seq<Event>
    requires IsLoop(s)
  {
    (if s.For? then OptPath(s.init) else []) + OptPath(CondOf(s))
  }

  lemma {:induction false} UpToTestRuns(m: Mode, s: Stmt, tr: seq<Event>)
    requires IsLoop(s) && !s.Do?
    ensures Behaviour(m, s, UpToTest(s) + tr) <==> Run(m, s, Then(WTest(s), Stop), tr)
  {
    hide Run;
    RunStmt(m, s, s, Stop, UpToTest(s) + tr);
    if s.For? {
      assert UpToTest(s) + tr == OptPath(s.init) + (OptPath(CondOf(s)) + tr);
      OptRuns(m, s, s.init, HeadWork(s, Stop), OptPath(CondOf(s)) + tr);
    } else {
      assert UpToTest(s) + tr == OptPath(CondOf(s)) + tr;
    }
    OptRuns(m, s, CondOf(s), Then(WTest(s), Stop), tr);
  }

  lemma {:induction false} UpToBodyRuns(m: Mode, s: Stmt, tr: seq<Event>)
    requires IsLoop(s)
    ensures Behaviour(m, s, UpToBody(s) + tr) <==> Run(m, s, BodyWork(m, s, Stop), tr)
  {
    hide Run;
    if s.Do? {
      assert [] + tr == tr;
      RunStmt(m, s, s, Stop, tr);
    } else {
      assert UpToBody(s) + tr == UpToTest(s) + ([Branch(s.id, true)] + tr);
      UpToTestRuns(m, s, [Branch(s.id, true)] + tr);
      RunBranch(m, s, WTest(s), Stop, true, tr);
    }
  }

  /** Without a condition, the builder lets the loop end. */
  lemma NoConditionDiffers(s: Stmt)
    requires s.For? && s.cond.None?
    ensures Behaviour(AsBuilt, s, UpToTest(s) + [Branch(s.id, false)])
    ensures !Behaviour(Standard, s, UpToTest(s) + [Branch(s.id, false)])
  {
    var tr := [Branch(s.id, false)];
    UpToTestRuns(AsBuilt, s, tr);
    UpToTestRuns(Standard, s, tr);
    assert tr[1..] == [];
  }

  /** The events of one evaluation of the condition and of leaving the loop. */
  function Leaving(s: Stmt): seq<Event>
    requires IsLoop(s)
  {
    OptPath(CondOf(s)) + [Branch(s.id, false), Halt]
  }

  lemma {:induction false} LeavingRuns(m: Mode, s: Stmt)
    requires IsLoop(s) && CondOf(s).Some?
    ensures Run(m, s, HeadWork(s, Stop), Leaving(s))
  {
    hide Run;
    var out := [Branch(s.id, false), Halt];
    OptRuns(m, s, CondOf(s), Then(WTest(s), Stop), out);
    assert out == [Branch(s.id, false)] + [Halt];
    RunBranch(m, s, WTest(s), Stop, false, [Halt]);
    RunStop(m, s);
  }

  /** A body that is bypassed at the cost of its effects, or of the increment. */
  lemma BypassedBodyDiffers(s: Stmt)
    requires IsLoop(s) && CondOf(s).Some? && Bypassed(s.sub) && IdsS(s.sub) !! IdsO(CondOf(s)) + {s.id}
    requires !Silent(s.sub) || IncOf(s).Some?
    ensures Behaviour(AsBuilt, s, UpToBody(s) + Leaving(s))
    ensures !Behaviour(Standard, s, UpToBody(s) + Leaving(s))
  {
    hide Run;
    var tr := Leaving(s);
    UpToBodyRuns(AsBuilt, s, tr);
    UpToBodyRuns(Standard, s, tr);
    LeavingRuns(AsBuilt, s);
    FirstOfHead(AsBuilt, s, s, Stop, tr);
    var next := Then(WNext(s), Stop);
    if Run(Standard, s, Then(WStmt(s.sub), next), tr) {
      FirstOfStmt(s, s.sub, next, tr);
      RunNext(Standard, s, s, Stop, tr);
      IncrementTooLong(s);
    }
  }

  /** Evaluating the increment first takes more events than there are. */
  lemma {:induction false} IncrementTooLong(s: Stmt)
    requires IsLoop(s) && CondOf(s).Some? && IncOf(s).Some?
    ensures !Run(Standard, s, PushExpr(IncOf(s), HeadWork(s, Stop)), Leaving(s))
  {
    hide Run, AtLeast;
    var test := Then(WTest(s), Stop);
    LeastTest(s);
    LeastExpr(Standard, s, CondOf(s).value, true, test, 2);
    LeastExpr(Standard, s, s.inc.value, true, Then(WExpr(CondOf(s).value, true), test), |OptPath(CondOf(s))| + 2);
    PathNonempty(s.inc.value);
    TooShort(Standard, s, PushExpr(s.inc, HeadWork(s, Stop)), |OptPath(s.inc)| + (|OptPath(CondOf(s))| + 2), Leaving(s));
  }

  lemma {:induction false} RunStop(m: Mode, root: Stmt)
    ensures Run(m, root, Stop, [Halt])
  {
  }

  lemma {:induction false} TooShort(m: Mode, root: Stmt, k: Kont, n: nat, tr: seq<Event>)
    requires AtLeast(m, root, k, n) && Complete(tr) && |tr| < n
    ensures !Run(m, root, k, tr)
  {
    hide Run;
  }

  /** Leaving the loop takes a decision and the end of the program. */
  lemma LeastTest(s: Stmt)
    requires IsLoop(s)
    ensures AtLeast(Standard, s, Then(WTest(s), Stop), 2)
  {
    forall tr: seq<Event> | Run(Standard, s, Then(WTest(s), Stop), tr) && Complete(tr) ensures |tr| >= 2 {
    }
  }

  /**
    For a program that is one loop, of nodes that are all different, the two readings agree
    exactly when the loop is regular.
   */
  lemma LoopAgreesIff(s: Stmt)
    requires IsLoop(s) && Regular(s.sub) && IdsS(s.sub) !! IdsO(CondOf(s)) + {s.id}
    ensures (forall tr :: Behaviour(Standard, s, tr) <==> Behaviour(AsBuilt, s, tr)) <==> RegularLoop(s)
  {
    hide Run;
    if RegularLoop(s) {
      ProgramsAgree(s);
    } else if CondOf(s).None? {
      NoConditionDiffers(s);
    } else {
      BypassedBodyDiffers(s);
    }
  }

  // ---------------------------------------------------------------- a program that is one `if`

  /** A branch that is bypassed at the cost of its effects. */
  lemma BypassedArmDiffers(s: Stmt, taken: bool)
    requires s.If? && (!taken ==> s.els.Some?) && !RegularArm(if taken then s.thn else s.els.value)
    ensures var tr := Path(s.test, true) + [Branch(s.id, taken), Halt];
            Behaviour(AsBuilt, s, tr) && !Behaviour(Standard, s, tr)
  {
    hide Run, Silent, Bypassed, Path;
    var arm := if taken then s.thn else s.els.value;
    var w, out := WIf(s.id, s.thn, s.els), [Branch(s.id, taken), Halt];
    assert out[1..] == [Halt];
    forall m: Mode
      ensures Behaviour(m, s, Path(s.test, true) + out) <==> Run(m, s, BranchWork(m, w, taken, Stop), [Halt])
    {
      RunStmt(m, s, s, Stop, Path(s.test, true) + out);
      PathRuns(m, s, s.test, true, Then(w, Stop), out);
      RunDecision(m, s, w, Stop, out);
    }
    RunStop(AsBuilt, s);
    if Run(Standard, s, Then(WStmt(arm), Stop), [Halt]) { FirstOfStmt(s, arm, Stop, [Halt]); }
  }

  /** For a program that is one `if` the two readings agree exactly when its branches are regular. */
  lemma {:induction false} IfAgreesIff(s: Stmt)
    requires s.If? && Regular(s.thn) && (s.els.Some? ==> Regular(s.els.value))
    ensures (forall tr :: Behaviour(Standard, s, tr) <==> Behaviour(AsBuilt, s, tr)) <==> Regular(s)
  {
    hide Run, Path, RegularArm;
    if Regular(s) {
      ProgramsAgree(s);
    } else {
      BypassedArmDiffers(s, !RegularArm(s.thn));
    }
  }
}
