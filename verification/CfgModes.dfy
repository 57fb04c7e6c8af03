/**
  Where the builder's reading of a program differs from the language's.

  The graph of a program has the behaviours of the program as built.  A choice is regular
  when nothing with an effect is bypassed at it and no condition is missing.  For a program
  of distinct nodes the two readings agree if and only if every choice it comes to is regular.
 */
module CfgModes {
  import opened Options
  import opened CfgSyntax
  import opened CfgReach

  // ---------------------------------------------------------------- when the readings agree

  /** Statements that add no event, labelled or not. */
  predicate Silent(s: Stmt) {
    match s
    case Null => true
    case Compound(body) => AllSilent(body)
    case Case(_, b) => Silent(b)
    case Default(_, b) => Silent(b)
    case Label(_, b) => Silent(b)
    case _ => false
  }

  predicate AllSilent(ss: seq<Stmt>) {
    ss == [] || (Silent(ss[0]) && AllSilent(ss[1..]))
  }

  /** A branch or body that is lost to nobody. */
  predicate RegularArm(s: Stmt) {
    Bypassed(s) ==> Silent(s)
  }

  predicate RegularLoop(s: Stmt) {
    && IsLoop(s) && CondOf(s).Some?
    && RegularArm(s.sub) && (Bypassed(s.sub) ==> IncOf(s).None?)
  }

  /** Whatever is chosen at w, nothing is lost. */
  predicate RegularChoice(w: Work) {
    match w
    case WIf(_, t, e) => RegularArm(t) && (e.Some? ==> RegularArm(e.value))
    case WTest(s) => IsLoop(s) ==> RegularLoop(s)
    case WStmt(s) => s.Do? ==> RegularLoop(s)
    case _ => true
  }

  predicate RegularHere(k: Kont) {
    k.Then? ==> RegularChoice(k.work)
  }

  /** Every loop in s is regular, and so is every branch. */
  predicate Regular(s: Stmt) {
    match s
    case Compound(body) => AllRegular(body)
    case If(_, _, t, e) =>
      Regular(t) && RegularArm(t) && (e.Some? ==> Regular(e.value) && RegularArm(e.value))
    case While(_, _, b) => RegularLoop(s) && Regular(b)
    case Do(_, b, _) => RegularLoop(s) && Regular(b)
    case For(_, _, _, _, b) => RegularLoop(s) && Regular(b)
    case Switch(_, _, b) => Regular(b)
    case Case(_, b) => Regular(b)
    case Default(_, b) => Regular(b)
    case Label(_, b) => Regular(b)
    case _ => true
  }

  predicate AllRegular(ss: seq<Stmt>) {
    ss == [] || (Regular(ss[0]) && AllRegular(ss[1..]))
  }

  predicate RegularWork(w: Work) {
    match w
    case WStmt(s) => Regular(s)
    case WStmts(ss) => AllRegular(ss)
    case WIf(_, t, e) => Regular(t) && RegularArm(t) && (e.Some? ==> Regular(e.value) && RegularArm(e.value))
    case WTest(s) => IsLoop(s) ==> Regular(s)
    case WNext(s) => IsLoop(s) ==> Regular(s)
    case WSelect(_, b) => Regular(b)
    case _ => true
  }

  predicate RegularKont(k: Kont) {
    match k
    case Stop => true
    case Then(w, rest) => RegularWork(w) && RegularKont(rest)
  }

  lemma {:induction false} ExprRegular(e: Expr, always: bool, k: Kont)
    requires RegularKont(k)
    ensures RegularKont(ExprWork(e, always, k))
  {
    match e
    case Op(id, args) => assert RegularKont(if always then Then(WElem(id), k) else k);
    case Paren(sub) =>
    case Comma(id, l, r) => assert RegularKont(Then(WExpr(r, true), Then(WElem(id), k)));
    case Logical(id, isOr, l, r) => assert RegularKont(Then(WLogical(id, isOr, r), k));
    case Conditional(id, c, l, r) => assert RegularKont(Then(WConditional(id, l, r), k));
  }

  lemma {:induction false} OptRegular(e: Option<Expr>, k: Kont)
    requires RegularKont(k)
    ensures RegularKont(PushExpr(e, k))
  {
  }

  lemma {:induction false} HeadRegular(s: Stmt, k: Kont)
    requires IsLoop(s) && Regular(s) && RegularKont(k)
    ensures RegularKont(HeadWork(s, k))
  {
    assert RegularKont(Then(WTest(s), k));
    OptRegular(CondOf(s), Then(WTest(s), k));
  }

  lemma {:induction false} BodyRegular(s: Stmt, k: Kont)
    requires IsLoop(s) && Regular(s) && RegularKont(k)
    ensures RegularKont(BodyWork(AsBuilt, s, k))
  {
    HeadRegular(s, k);
    assert RegularKont(Then(WNext(s), k));
  }

  lemma {:induction false} LoopRegular(s: Stmt, k: Kont)
    requires IsLoop(s) && Regular(s) && RegularKont(k)
    ensures RegularKont(LoopWork(AsBuilt, s, k))
  {
    hide HeadWork, BodyWork, Regular;
    HeadRegular(s, k);
    BodyRegular(s, k);
    OptRegular(if s.For? then s.init else None, HeadWork(s, k));
  }

  lemma {:induction false} StmtRegular(s: Stmt, k: Kont)
    requires Regular(s) && RegularKont(k) && !IsJump(s)
    ensures RegularKont(StmtWork(AsBuilt, s, k))
  {
    hide LoopWork, RegularArm, RegularLoop, OptionArgs, PushExpr;
    match s
    case If(id, c, t, e) => assert RegularKont(Then(WIf(id, t, e), k));
    case While(_, _, _) => LoopRegular(s, k);
    case Do(_, _, _) => LoopRegular(s, k);
    case For(_, _, _, _, _) => LoopRegular(s, k);
    case Switch(id, c, b) => assert RegularKont(Then(WSelect(id, b), k));
    case Return(id, v) => assert RegularKont(Then(WElem(id), Stop));
    case _ =>
  }

  lemma {:induction false} BranchRegular(w: Work, taken: bool, k: Kont)
    requires w.WLogical? || w.WConditional? || w.WIf? || (w.WTest? && IsLoop(w.loop))
    requires RegularWork(w) && RegularKont(k)
    ensures RegularKont(BranchWork(AsBuilt, w, taken, k))
  {
    match w
    case WLogical(id, _, r) => assert RegularKont(Then(WElem(id), k));
    case WConditional(id, l, r) => assert RegularKont(Then(WElem(id), k));
    case WIf(_, t, e) =>
    case WTest(s) => if taken { BodyRegular(s, k); }
  }

  lemma {:induction false} FindRegular(s: Stmt, t: Target, k: Kont)
    requires Regular(s) && RegularKont(k)
    ensures Find(s, t, k).Some? ==> RegularKont(Find(s, t, k).value)
    decreases s
  {
    hide FindIn, AllRegular, RegularArm, RegularLoop;
    match s
    case Compound(body) => FindInRegular(body, t, k);
    case If(_, _, thn, els) =>
      FindRegular(thn, t, k);
      if els.Some? { FindRegular(els.value, t, k); }
    case While(_, _, sub) => FindRegular(sub, t, Then(WNext(s), k));
    case Do(_, sub, _) => FindRegular(sub, t, Then(WNext(s), k));
    case For(_, _, _, _, sub) => FindRegular(sub, t, Then(WNext(s), k));
    case Switch(_, _, sub) => FindRegular(sub, t, Then(WEndSwitch, k));
    case Case(_, sub) => FindRegular(sub, t, k);
    case Default(_, sub) => FindRegular(sub, t, k);
    case Label(_, sub) => FindRegular(sub, t, k);
    case _ =>
  }

  lemma {:induction false} FindInRegular(ss: seq<Stmt>, t: Target, k: Kont)
    requires AllRegular(ss) && RegularKont(k)
    ensures FindIn(ss, t, k).Some? ==> RegularKont(FindIn(ss, t, k).value)
    decreases ss
  {
    if ss != [] {
      FindRegular(ss[0], t, Then(WStmts(ss[1..]), k));
      FindInRegular(ss[1..], t, k);
    }
  }

  lemma {:induction false} JumpRegular(k: Kont)
    requires RegularKont(k)
    ensures BreakTo(k).Some? ==> RegularKont(BreakTo(k).value)
    ensures ContinueTo(k).Some? ==> RegularKont(ContinueTo(k).value)
    decreases k
  {
    if k.Then? { JumpRegular(k.rest); }
  }

  lemma {:induction false} QuietRegular(k: Kont)
    requires RegularKont(k) && Quiet(AsBuilt, k).Some?
    ensures RegularKont(Quiet(AsBuilt, k).value)
  {
    hide ExprWork, StmtWork, HeadWork, PushExpr, Regular;
    match k.work {
      case WExpr(e, always) => ExprRegular(e, always, k.rest);
      case WArgs(args) => if args != [] { assert RegularKont(Then(WArgs(args[..|args| - 1]), k.rest)); }
      case WStmt(s) => StmtRegular(s, k.rest);
      case WStmts(ss) => if ss != [] { assert RegularKont(Then(WStmts(ss[1..]), k.rest)); }
      case WNext(s) =>
        HeadRegular(s, k.rest);
        OptRegular(IncOf(s), HeadWork(s, k.rest));
      case _ =>
    }
  }

  lemma {:induction false} AnswerRegular(root: Stmt, k: Kont, ev: Event)
    requires Regular(root) && RegularKont(k) && Answer(AsBuilt, root, k, ev).Some?
    ensures RegularKont(Answer(AsBuilt, root, k, ev).value)
  {
    hide BranchWork, Find, Regular;
    if Decides(k.work) {
      BranchRegular(k.work, ev.taken, k.rest);
    } else if k.work.WStmt? {
      JumpRegular(k.rest);
      if k.work.s.Goto? { FindRegular(root, ToLabel(k.work.s.dest), Stop); }
    } else if k.work.WSelect? {
      FindRegular(k.work.body, ev.arm, Push(WEndSwitch, k.rest));
    }
  }

  /** A regular program comes to regular choices only. */
  lemma {:induction false} ReachesRegular(root: Stmt, k: Kont, tr: seq<Event>, k': Kont)
    requires Regular(root) && RegularKont(k) && Reaches(AsBuilt, root, k, tr, k')
    ensures RegularHere(k')
    decreases |tr|, KSize(k)
  {
    if k == k' && tr == [] {
    } else {
      hide Regular, RegularChoice, Answer, Quiet;
      if Quiet(AsBuilt, k).Some? {
        QuietRegular(k);
        ReachesRegular(root, Quiet(AsBuilt, k).value, tr, k');
      } else {
        AnswerRegular(root, k, tr[0]);
        ReachesRegular(root, Answer(AsBuilt, root, k, tr[0]).value, tr[1..], k');
      }
    }
  }

  // ---------------------------------------------------------------- what is bypassed

  lemma {:induction false} RunStmt(m: Mode, root: Stmt, s: Stmt, k: Kont, tr: seq<Event>)
    requires !IsJump(s)
    ensures Run(m, root, Then(WStmt(s), k), tr) <==> Run(m, root, StmtWork(m, s, k), tr)
  {
  }

  lemma {:induction false} RunStmts(m: Mode, root: Stmt, ss: seq<Stmt>, k: Kont, tr: seq<Event>)
    ensures Run(m, root, Then(WStmts(ss), k), tr) <==>
            Run(m, root, if ss == [] then k else Then(WStmt(ss[0]), Then(WStmts(ss[1..]), k)), tr)
  {
  }

  lemma {:induction false} SilentRuns(m: Mode, root: Stmt, s: Stmt, k: Kont, tr: seq<Event>)
    requires Silent(s)
    ensures Run(m, root, Then(WStmt(s), k), tr) <==> Run(m, root, k, tr)
    decreases s
  {
    hide Run;
    RunStmt(m, root, s, k, tr);
    match s
    case Compound(body) => AllSilentRun(m, root, body, k, tr);
    case Case(_, b) => SilentRuns(m, root, b, k, tr);
    case Default(_, b) => SilentRuns(m, root, b, k, tr);
    case Label(_, b) => SilentRuns(m, root, b, k, tr);
    case _ =>
  }

  lemma {:induction false} AllSilentRun(m: Mode, root: Stmt, ss: seq<Stmt>, k: Kont, tr: seq<Event>)
    requires AllSilent(ss)
    ensures Run(m, root, Then(WStmts(ss), k), tr) <==> Run(m, root, k, tr)
    decreases ss
  {
    hide Run;
    RunStmts(m, root, ss, k, tr);
    if ss != [] {
      SilentRuns(m, root, ss[0], Then(WStmts(ss[1..]), k), tr);
      AllSilentRun(m, root, ss[1..], k, tr);
    }
  }

  lemma {:induction false} RunElem(m: Mode, root: Stmt, id: Id, k: Kont, tr: seq<Event>)
    ensures Run(m, root, Then(WElem(id), k), [Elem(id)] + tr) <==> Run(m, root, k, tr)
  {
    assert ([Elem(id)] + tr)[1..] == tr;
  }

  lemma {:induction false} RunExpr(m: Mode, root: Stmt, e: Expr, always: bool, k: Kont, tr: seq<Event>)
    ensures Run(m, root, Then(WExpr(e, always), k), tr) <==> Run(m, root, ExprWork(e, always, k), tr)
  {
  }

  lemma {:induction false} RunBranch(m: Mode, root: Stmt, w: Work, k: Kont, taken: bool, tr: seq<Event>)
    requires w.WLogical? || w.WConditional? || (w.WTest? && IsLoop(w.loop))
    ensures var id := if w.WTest? then w.loop.id else w.id;
            Run(m, root, Then(w, k), [Branch(id, taken)] + tr) <==>
            && (w.WTest? && m.Standard? && CondOf(w.loop).None? ==> taken)
            && Run(m, root, BranchWork(m, w, taken, k), tr)
  {
    hide Run, BranchWork;
    var id := if w.WTest? then w.loop.id else w.id;
    RunDecision(m, root, w, k, [Branch(id, taken)] + tr);
    assert ([Branch(id, taken)] + tr)[1..] == tr;
  }

  lemma RunArgs(m: Mode, root: Stmt, args: seq<Expr>, k: Kont, tr: seq<Event>)
    ensures Run(m, root, Then(WArgs(args), k), tr) <==>
            if args == [] then Run(m, root, k, tr)
            else var n := |args| - 1; Run(m, root, Then(WExpr(args[n], false), Then(WArgs(args[..n]), k)), tr)
  {
  }

  lemma {:induction false} RunNext(m: Mode, root: Stmt, s: Stmt, k: Kont, tr: seq<Event>)
    requires IsLoop(s)
    ensures Run(m, root, Then(WNext(s), k), tr) <==> Run(m, root, PushExpr(IncOf(s), HeadWork(s, k)), tr)
  {
  }

  /** A regular body that is bypassed would not have been noticed. */
  lemma {:induction false} BodySame(root: Stmt, s: Stmt, k: Kont, tr: seq<Event>)
    requires RegularLoop(s)
    ensures Run(Standard, root, BodyWork(Standard, s, k), tr) <==> Run(Standard, root, BodyWork(AsBuilt, s, k), tr)
  {
    hide Run;
    if Bypassed(s.sub) {
      SilentRuns(Standard, root, s.sub, Then(WNext(s), k), tr);
      RunNext(Standard, root, s, k, tr);
    }
  }

  lemma {:induction false} BranchSame(root: Stmt, w: Work, taken: bool, k: Kont, tr: seq<Event>)
    requires w.WLogical? || w.WConditional? || w.WIf? || (w.WTest? && IsLoop(w.loop))
    requires RegularChoice(w)
    ensures Run(Standard, root, BranchWork(Standard, w, taken, k), tr) <==>
            Run(Standard, root, BranchWork(AsBuilt, w, taken, k), tr)
  {
    hide Run;
    match w
    case WIf(_, t, e) =>
      if taken && Bypassed(t) { SilentRuns(Standard, root, t, k, tr); }
      if !taken && e.Some? && Bypassed(e.value) { SilentRuns(Standard, root, e.value, k, tr); }
    case WTest(s) => if taken { BodySame(root, s, k, tr); }
    case _ =>
  }

  lemma {:induction false} StmtSame(root: Stmt, s: Stmt, k: Kont, tr: seq<Event>)
    requires (s.Do? ==> RegularLoop(s)) && !IsJump(s)
    ensures Run(Standard, root, StmtWork(Standard, s, k), tr) <==> Run(Standard, root, StmtWork(AsBuilt, s, k), tr)
  {
    hide Run, RegularLoop, BodyWork;
    if s.Do? { BodySame(root, s, k, tr); }
  }

  /** A branch decision is due. */
  lemma {:induction false} RunDecision(m: Mode, root: Stmt, w: Work, k: Kont, tr: seq<Event>)
    requires w.WLogical? || w.WConditional? || w.WIf? || w.WTest?
    requires tr != []
    ensures Run(m, root, Then(w, k), tr) <==>
            && (w.WTest? ==> IsLoop(w.loop)) && tr[0].Branch? && tr[0].id == (if w.WTest? then w.loop.id else w.id)
            && (w.WTest? && m.Standard? && CondOf(w.loop).None? ==> tr[0].taken)
            && Run(m, root, BranchWork(m, w, tr[0].taken, k), tr[1..])
  {
    hide BranchWork;
  }

  // ---------------------------------------------------------------- agreement

  /** The continuation of a whole program. */
  function Begin(root: Stmt): Kont {
    Push(WStmt(root), Stop)
  }

  /** Every choice the program comes to, as built, is regular. */
  ghost predicate AlwaysRegular(root: Stmt) {
    forall tr, k :: Reaches(AsBuilt, root, Begin(root), tr, k) ==> RegularHere(k)
  }

  /** A step of the program as built that shows nothing is no loss to the language either. */
  lemma {:induction false} QuietSame(root: Stmt, k: Kont, tr: seq<Event>)
    requires Quiet(AsBuilt, k).Some? && RegularHere(k)
    ensures Run(Standard, root, k, tr) <==> Run(Standard, root, Quiet(AsBuilt, k).value, tr)
  {
    hide Run, StmtWork, ExprWork, HeadWork, PushExpr, RegularLoop;
    RunQuiet(Standard, root, k, tr);
    if k.work.WStmt? { StmtSame(root, k.work.s, k.rest, tr); }
  }

  /** Nor is an answer. */
  lemma {:induction false} AnswerSame(root: Stmt, k: Kont, tr: seq<Event>)
    requires Quiet(AsBuilt, k).None? && RegularHere(k) && tr != []
    ensures Run(Standard, root, k, tr) <==>
              var next := Answer(AsBuilt, root, k, tr[0]);
              if next.Some? then Run(Standard, root, next.value, tr[1..]) else Ends(k, tr[0]) && |tr| == 1
  {
    hide Run, BranchWork, JumpTo, ArmOf, RegularArm;
    RunAnswer(Standard, root, k, tr);
    if k.Then? && Decides(k.work) && tr[0].Branch? { BranchSame(root, k.work, tr[0].taken, k.rest, tr[1..]); }
  }

  lemma {:induction false} RunsAgree(root: Stmt, before: seq<Event>, k: Kont, tr: seq<Event>)
    requires AlwaysRegular(root) && Reaches(AsBuilt, root, Begin(root), before, k)
    ensures Run(Standard, root, k, tr) <==> Run(AsBuilt, root, k, tr)
    decreases |tr|, KSize(k)
  {
    if tr == [] { return; }
    hide Run, Quiet, Answer, Reaches, RegularHere;
    if Quiet(AsBuilt, k).Some? {
      RunQuiet(AsBuilt, root, k, tr);
      QuietSame(root, k, tr);
      ReachesQuiet(AsBuilt, root, Begin(root), before, k);
      RunsAgree(root, before, Quiet(AsBuilt, k).value, tr);
    } else {
      RunAnswer(AsBuilt, root, k, tr);
      AnswerSame(root, k, tr);
      if Answer(AsBuilt, root, k, tr[0]).Some? {
        ReachesAnswer(AsBuilt, root, Begin(root), before, k, tr[0]);
        RunsAgree(root, before + [tr[0]], Answer(AsBuilt, root, k, tr[0]).value, tr[1..]);
      }
    }
  }

  // ---------------------------------------------------------------- first events

  /** The nodes of an expression that show in behaviours. */
  function IdsE(e: Expr): set<Id> {
    match e
    case Op(id, args) => {id} + IdsArgs(args)
    case Paren(sub) => IdsE(sub)
    case Comma(id, l, r) => {id} + IdsE(l) + IdsE(r)
    case Logical(id, _, l, r) => {id} + IdsE(l) + IdsE(r)
    case Conditional(id, c, l, r) => {id} + IdsE(c) + IdsE(l) + IdsE(r)
  }

  function IdsArgs(args: seq<Expr>): set<Id> {
    if args == [] then {} else IdsArgs(args[..|args| - 1]) + IdsE(args[|args| - 1])
  }

  function IdsO(e: Option<Expr>): set<Id> {
    if e.Some? then IdsE(e.value) else {}
  }

  function IdsS(s: Stmt): set<Id> {
    match s
    case Null => {}
    case Eval(e) => IdsE(e)
    case Compound(body) => IdsL(body)
    case If(id, c, t, e) => {id} + IdsE(c) + IdsS(t) + if e.Some? then IdsS(e.value) else {}
    case While(id, c, b) => {id} + IdsE(c) + IdsS(b)
    case Do(id, b, c) => {id} + IdsE(c) + IdsS(b)
    case For(id, i, c, n, b) => {id} + IdsO(i) + IdsO(c) + IdsO(n) + IdsS(b)
    case Switch(id, c, b) => {id} + IdsE(c) + IdsS(b)
    case Case(_, b) => IdsS(b)
    case Default(_, b) => IdsS(b)
    case Label(_, b) => IdsS(b)
    case Return(id, v) => {id} + IdsArgs(OptionArgs(v))
    case _ => {s.id}
  }

  function IdsL(ss: seq<Stmt>): set<Id> {
    if ss == [] then {} else IdsS(ss[0]) + IdsL(ss[1..])
  }

  /** The event comes from one of the nodes. */
  predicate From(ev: Event, ids: set<Id>) {
    !ev.Halt? && ev.id in ids
  }

  lemma {:induction false} FirstOfExpr(m: Mode, root: Stmt, e: Expr, always: bool, k: Kont, tr: seq<Event>)
    requires tr != [] && Run(m, root, Then(WExpr(e, always), k), tr)
    ensures From(tr[0], IdsE(e)) || (!always && Run(m, root, k, tr))
    decreases e
  {
    hide Run;
    RunExpr(m, root, e, always, k, tr);
    match e
    case Op(id, args) =>
      FirstOfArgs(m, root, args, if always then Then(WElem(id), k) else k, tr);
      if always && !From(tr[0], IdsArgs(args)) { ElemFirst(m, root, id, k, tr); }
    case Paren(sub) => FirstOfExpr(m, root, sub, always, k, tr);
    case Comma(id, l, r) => FirstOfExpr(m, root, l, true, Then(WExpr(r, true), Then(WElem(id), k)), tr);
    case Logical(id, isOr, l, r) => FirstOfExpr(m, root, l, true, Then(WLogical(id, isOr, r), k), tr);
    case Conditional(id, c, l, r) => FirstOfExpr(m, root, c, true, Then(WConditional(id, l, r), k), tr);
  }

  lemma {:induction false} FirstOfArgs(m: Mode, root: Stmt, args: seq<Expr>, k: Kont, tr: seq<Event>)
    requires tr != [] && Run(m, root, Then(WArgs(args), k), tr)
    ensures From(tr[0], IdsArgs(args)) || Run(m, root, k, tr)
    decreases args
  {
    hide Run;
    RunArgs(m, root, args, k, tr);
    if args != [] {
      var n := |args| - 1;
      FirstOfExpr(m, root, args[n], false, Then(WArgs(args[..n]), k), tr);
      if !From(tr[0], IdsE(args[n])) { FirstOfArgs(m, root, args[..n], k, tr); }
    }
  }

  lemma {:induction false} ElemFirst(m: Mode, root: Stmt, id: Id, k: Kont, tr: seq<Event>)
    requires tr != [] && Run(m, root, Then(WElem(id), k), tr)
    ensures tr[0] == Elem(id)
  {
  }

  lemma {:induction false} TestFirst(m: Mode, root: Stmt, s: Stmt, k: Kont, tr: seq<Event>)
    requires IsLoop(s) && tr != [] && Run(m, root, Then(WTest(s), k), tr)
    ensures tr[0].Branch? && tr[0].id == s.id
  {
  }

  lemma {:induction false} JumpFirst(m: Mode, root: Stmt, s: Stmt, k: Kont, tr: seq<Event>)
    requires IsJump(s) && tr != [] && Run(m, root, Then(WStmt(s), k), tr)
    ensures tr[0] == Jump(s.id)
  {
  }

  lemma {:induction false} FirstOfHead(m: Mode, root: Stmt, s: Stmt, k: Kont, tr: seq<Event>)
    requires IsLoop(s) && tr != [] && Run(m, root, HeadWork(s, k), tr)
    ensures From(tr[0], IdsO(CondOf(s)) + {s.id})
  {
    hide Run;
    if CondOf(s).Some? {
      FirstOfExpr(m, root, CondOf(s).value, true, Then(WTest(s), k), tr);
    } else {
      TestFirst(m, root, s, k, tr);
    }
  }

  /** In the language, a statement's first event is its own unless it is silent. */
  lemma {:induction false} FirstOfStmt(root: Stmt, s: Stmt, k: Kont, tr: seq<Event>)
    requires tr != [] && Run(Standard, root, Then(WStmt(s), k), tr)
    ensures From(tr[0], IdsS(s)) || (Silent(s) && Run(Standard, root, k, tr))
    decreases s
  {
    hide Run;
    var m := Standard;
    if IsJump(s) {
      JumpFirst(m, root, s, k, tr);
    } else {
      RunStmt(m, root, s, k, tr);
      match s
      case Null =>
      case Eval(e) => FirstOfExpr(m, root, e, true, k, tr);
      case Compound(body) => FirstOfList(root, body, k, tr);
      case If(id, c, t, e) => FirstOfExpr(m, root, c, true, Then(WIf(id, t, e), k), tr);
      case While(_, _, _) => FirstOfHead(m, root, s, k, tr);
      case Do(_, b, _) =>
        FirstOfStmt(root, b, Then(WNext(s), k), tr);
        if !From(tr[0], IdsS(b)) {
          RunNext(m, root, s, k, tr);
          FirstOfHead(m, root, s, k, tr);
        }
      case For(_, i, _, _, _) =>
        if i.Some? { FirstOfExpr(m, root, i.value, true, HeadWork(s, k), tr); } else { FirstOfHead(m, root, s, k, tr); }
      case Switch(id, c, b) => FirstOfExpr(m, root, c, true, Then(WSelect(id, b), k), tr);
      case Case(_, b) => FirstOfStmt(root, b, k, tr);
      case Default(_, b) => FirstOfStmt(root, b, k, tr);
      case Label(_, b) => FirstOfStmt(root, b, k, tr);
      case Return(id, v) =>
        FirstOfArgs(m, root, OptionArgs(v), Then(WElem(id), Stop), tr);
        if !From(tr[0], IdsArgs(OptionArgs(v))) { ElemFirst(m, root, id, Stop, tr); }
    }
  }

  lemma {:induction false} FirstOfList(root: Stmt, ss: seq<Stmt>, k: Kont, tr: seq<Event>)
    requires tr != [] && Run(Standard, root, Then(WStmts(ss), k), tr)
    ensures From(tr[0], IdsL(ss)) || (AllSilent(ss) && Run(Standard, root, k, tr))
    decreases ss
  {
    if ss != [] {
      FirstOfStmt(root, ss[0], Then(WStmts(ss[1..]), k), tr);
      if !From(tr[0], IdsS(ss[0])) { FirstOfList(root, ss[1..], k, tr); }
    }
  }

  // ---------------------------------------------------------------- distinct nodes

  /** The nodes of what can be bypassed are not met in what comes instead. */
  predicate Apart(s: Stmt) {
    match s
    case Compound(body) => AllApart(body)
    case If(_, _, t, e) => Apart(t) && (e.Some? ==> Apart(e.value))
    case While(_, _, b) => LoopApart(s) && Apart(b)
    case Do(_, b, _) => LoopApart(s) && Apart(b)
    case For(_, _, _, _, b) => LoopApart(s) && Apart(b)
    case Switch(_, _, b) => Apart(b)
    case Case(_, b) => Apart(b)
    case Default(_, b) => Apart(b)
    case Label(_, b) => Apart(b)
    case _ => true
  }

  predicate AllApart(ss: seq<Stmt>) {
    ss == [] || (Apart(ss[0]) && AllApart(ss[1..]) && IdsS(ss[0]) !! IdsL(ss[1..]))
  }

  /** Body, increment and condition of a loop share no nodes. */
  predicate LoopApart(s: Stmt)
    requires IsLoop(s)
  {
    IdsS(s.sub) !! IdsO(IncOf(s)) + HeadIds(s) && IdsO(IncOf(s)) !! HeadIds(s)
  }

  function HeadIds(s: Stmt): set<Id>
    requires IsLoop(s)
  {
    IdsO(CondOf(s)) + {s.id}
  }

  /** The nodes the first event of w can come from. */
  function FirstIds(w: Work): set<Id> {
    match w
    case WElem(id) => {id}
    case WExpr(e, _) => IdsE(e)
    case WArgs(args) => IdsArgs(args)
    case WStmt(s) => IdsS(s)
    case WStmts(ss) => IdsL(ss)
    case WNext(s) => if IsLoop(s) then IdsO(IncOf(s)) + HeadIds(s) else {}
    case WTest(s) => if IsLoop(s) then {s.id} else {}
    case WEndSwitch => {}
    case _ => {w.id}
  }

  function FirstOf(k: Kont): set<Id> {
    if k.Stop? then {} else FirstIds(k.work) + FirstOf(k.rest)
  }

  /** The nodes of the statements that w is about. */
  function OwnIds(w: Work): set<Id> {
    match w
    case WStmt(s) => IdsS(s)
    case WStmts(ss) => IdsL(ss)
    case WIf(_, t, e) => IdsS(t) + if e.Some? then IdsS(e.value) else {}
    case WTest(s) => IdsS(s)
    case WNext(s) => IdsS(s)
    case WSelect(_, b) => IdsS(b)
    case _ => {}
  }

  predicate ApartWork(w: Work) {
    match w
    case WStmt(s) => Apart(s)
    case WStmts(ss) => AllApart(ss)
    case WIf(_, t, e) => Apart(t) && (e.Some? ==> Apart(e.value))
    case WTest(s) => IsLoop(s) && Apart(s)
    case WNext(s) => IsLoop(s) && Apart(s)
    case WSelect(_, b) => Apart(b)
    case _ => true
  }

  /** No statement shares nodes with what can come right after it. */
  predicate ApartKont(k: Kont) {
    k.Then? ==> ApartWork(k.work) && OwnIds(k.work) !! FirstOf(k.rest) && ApartKont(k.rest)
  }

  lemma {:induction false} ExprApart(e: Expr, always: bool, k: Kont)
    requires ApartKont(k)
    ensures ApartKont(ExprWork(e, always, k)) && FirstOf(ExprWork(e, always, k)) <= IdsE(e) + FirstOf(k)
  {
    match e
    case Op(id, args) => assert ApartKont(if always then Then(WElem(id), k) else k);
    case Paren(sub) =>
    case Comma(id, l, r) => assert ApartKont(Then(WExpr(r, true), Then(WElem(id), k)));
    case Logical(id, isOr, l, r) => assert ApartKont(Then(WLogical(id, isOr, r), k));
    case Conditional(id, c, l, r) => assert ApartKont(Then(WConditional(id, l, r), k));
  }

  lemma {:induction false} OptApart(e: Option<Expr>, k: Kont)
    requires ApartKont(k)
    ensures ApartKont(PushExpr(e, k)) && FirstOf(PushExpr(e, k)) == IdsO(e) + FirstOf(k)
  {
  }

  lemma {:induction false} HeadApart(s: Stmt, k: Kont)
    requires IsLoop(s) && Apart(s) && IdsS(s) !! FirstOf(k) && ApartKont(k)
    ensures ApartKont(HeadWork(s, k)) && FirstOf(HeadWork(s, k)) == HeadIds(s) + FirstOf(k)
  {
    hide Apart;
    assert ApartKont(Then(WTest(s), k));
    OptApart(CondOf(s), Then(WTest(s), k));
  }

  lemma {:induction false} LoopIds(s: Stmt)
    requires IsLoop(s)
    ensures IdsS(s) == HeadIds(s) + IdsO(IncOf(s)) + IdsS(s.sub) + (if s.For? then IdsO(s.init) else {})
    ensures Apart(s) <==> LoopApart(s) && Apart(s.sub)
  {
    hide LoopApart, IdsE;
  }

  lemma {:induction false} BodyApart(s: Stmt, k: Kont)
    requires IsLoop(s) && Apart(s) && IdsS(s) !! FirstOf(k) && ApartKont(k)
    ensures ApartKont(BodyWork(AsBuilt, s, k)) && FirstOf(BodyWork(AsBuilt, s, k)) <= IdsS(s) + FirstOf(k)
  {
    hide Apart, IdsS, HeadWork, Bypassed, IdsO;
    LoopIds(s);
    HeadApart(s, k);
    var next := Then(WNext(s), k);
    assert ApartKont(next) && FirstOf(next) == IdsO(IncOf(s)) + HeadIds(s) + FirstOf(k);
    assert ApartKont(Then(WStmt(s.sub), next));
  }

  lemma {:induction false} LoopWorkApart(s: Stmt, k: Kont)
    requires IsLoop(s) && Apart(s) && IdsS(s) !! FirstOf(k) && ApartKont(k)
    ensures ApartKont(LoopWork(AsBuilt, s, k)) && FirstOf(LoopWork(AsBuilt, s, k)) <= IdsS(s) + FirstOf(k)
  {
    hide Apart, IdsS, HeadWork, BodyWork, PushExpr, IdsO;
    LoopIds(s);
    HeadApart(s, k);
    BodyApart(s, k);
    OptApart(if s.For? then s.init else None, HeadWork(s, k));
  }

  lemma {:induction false} StmtApart(s: Stmt, k: Kont)
    requires Apart(s) && IdsS(s) !! FirstOf(k) && ApartKont(k) && !IsJump(s)
    ensures ApartKont(StmtWork(AsBuilt, s, k)) && FirstOf(StmtWork(AsBuilt, s, k)) <= IdsS(s) + FirstOf(k)
  {
    hide LoopWork, LoopApart, OptionArgs, IdsE, IdsArgs, IdsL, AllApart;
    match s
    case If(id, c, t, e) => assert ApartKont(Then(WIf(id, t, e), k));
    case While(_, _, _) => LoopWorkApart(s, k);
    case Do(_, _, _) => LoopWorkApart(s, k);
    case For(_, _, _, _, _) => LoopWorkApart(s, k);
    case Switch(id, c, b) => assert ApartKont(Then(WSelect(id, b), k));
    case Return(id, v) => assert ApartKont(Then(WElem(id), Stop)) && FirstOf(Then(WElem(id), Stop)) == {id};
    case _ =>
  }

  lemma {:induction false} ListApart(ss: seq<Stmt>, k: Kont)
    requires AllApart(ss) && IdsL(ss) !! FirstOf(k) && ApartKont(k)
    ensures ApartKont(ListWork(ss, k)) && FirstOf(ListWork(ss, k)) <= IdsL(ss) + FirstOf(k)
  {
    hide Apart, IdsS;
    if ss != [] { assert ApartKont(Then(WStmts(ss[1..]), k)); }
  }

  lemma {:induction false} QuietApart(k: Kont)
    requires ApartKont(k) && Quiet(AsBuilt, k).Some?
    ensures ApartKont(Quiet(AsBuilt, k).value) && FirstOf(Quiet(AsBuilt, k).value) <= FirstOf(k)
  {
    hide ExprWork, StmtWork, HeadWork, PushExpr, Apart, ListWork, AllApart, IdsE, IdsS, IdsL, IdsO;
    match k.work {
      case WExpr(e, always) => ExprApart(e, always, k.rest);
      case WArgs(args) =>
        if args != [] {
          var inner := Then(WArgs(args[..|args| - 1]), k.rest);
          assert ApartKont(inner) && FirstOf(inner) == IdsArgs(args[..|args| - 1]) + FirstOf(k.rest);
        }
      case WStmt(s) => StmtApart(s, k.rest);
      case WStmts(ss) => ListApart(ss, k.rest);
      case WNext(s) =>
        HeadApart(s, k.rest);
        OptApart(IncOf(s), HeadWork(s, k.rest));
      case _ =>
    }
  }

  lemma {:induction false} BranchApart(w: Work, taken: bool, k: Kont)
    requires Decides(w) && ApartKont(Then(w, k))
    ensures ApartKont(BranchWork(AsBuilt, w, taken, k))
  {
    hide BodyWork, Bypassed, Apart, IdsS;
    match w
    case WLogical(id, _, r) => assert ApartKont(Then(WElem(id), k));
    case WConditional(id, l, r) => assert ApartKont(Then(WElem(id), k));
    case WIf(_, t, e) =>
    case WTest(s) => if taken { BodyApart(s, k); }
  }

  lemma {:induction false} FindApart(s: Stmt, t: Target, k: Kont)
    requires Apart(s) && IdsS(s) !! FirstOf(k) && ApartKont(k)
    ensures Find(s, t, k).Some? ==> ApartKont(Find(s, t, k).value)
    decreases s
  {
    hide FindIn, AllApart, LoopApart, IdsL, IdsE, IdsO;
    match s
    case Compound(body) => FindInApart(body, t, k);
    case If(_, _, thn, els) =>
      FindApart(thn, t, k);
      if els.Some? { FindApart(els.value, t, k); }
    case While(_, _, _) => FindLoopApart(s, t, k);
    case Do(_, _, _) => FindLoopApart(s, t, k);
    case For(_, _, _, _, _) => FindLoopApart(s, t, k);
    case Switch(_, _, sub) => FindApart(sub, t, Then(WEndSwitch, k));
    case Case(_, sub) => FindApart(sub, t, k);
    case Default(_, sub) => FindApart(sub, t, k);
    case Label(_, sub) => FindApart(sub, t, k);
    case _ =>
  }

  lemma {:induction false} FindLoopApart(s: Stmt, t: Target, k: Kont)
    requires IsLoop(s) && Apart(s) && IdsS(s) !! FirstOf(k) && ApartKont(k)
    ensures Find(s.sub, t, Then(WNext(s), k)).Some? ==> ApartKont(Find(s.sub, t, Then(WNext(s), k)).value)
    decreases s, 0
  {
    hide Find, Apart, IdsS, IdsO;
    LoopIds(s);
    var next := Then(WNext(s), k);
    assert FirstOf(next) == IdsO(IncOf(s)) + HeadIds(s) + FirstOf(k);
    FindApart(s.sub, t, next);
  }

  lemma {:induction false} FindInApart(ss: seq<Stmt>, t: Target, k: Kont)
    requires AllApart(ss) && IdsL(ss) !! FirstOf(k) && ApartKont(k)
    ensures FindIn(ss, t, k).Some? ==> ApartKont(FindIn(ss, t, k).value)
    decreases ss
  {
    hide Find, Apart, IdsS;
    if ss != [] {
      FindApart(ss[0], t, Then(WStmts(ss[1..]), k));
      FindInApart(ss[1..], t, k);
    }
  }

  lemma {:induction false} JumpApart(k: Kont)
    requires ApartKont(k)
    ensures BreakTo(k).Some? ==> ApartKont(BreakTo(k).value)
    ensures ContinueTo(k).Some? ==> ApartKont(ContinueTo(k).value)
    decreases k
  {
    hide ApartWork, OwnIds, FirstOf;
    if k.Then? { JumpApart(k.rest); }
  }

  lemma {:induction false} AnswerApart(root: Stmt, k: Kont, ev: Event)
    requires Apart(root) && ApartKont(k) && Answer(AsBuilt, root, k, ev).Some?
    ensures ApartKont(Answer(AsBuilt, root, k, ev).value)
  {
    hide BranchWork, Find, Apart, IdsS;
    if Decides(k.work) {
      BranchApart(k.work, ev.taken, k.rest);
    } else if k.work.WStmt? {
      JumpApart(k.rest);
      if k.work.s.Goto? { FindApart(root, ToLabel(k.work.s.dest), Stop); }
    } else if k.work.WSelect? {
      var inner := Push(WEndSwitch, k.rest);
      assert FirstOf(inner) == FirstOf(k.rest);
      FindApart(k.work.body, ev.arm, inner);
    }
  }

  // ---------------------------------------------------------------- what comes next

  /** There always is a next event, and it comes from where it can. */
  lemma {:induction false} NextEvent(root: Stmt, k: Kont) returns (ev: Event)
    requires ApartKont(k)
    ensures Run(AsBuilt, root, k, [ev]) && (ev == Halt || From(ev, FirstOf(k)))
    decreases KSize(k)
  {
    hide Run, Apart;
    if Quiet(AsBuilt, k).Some? {
      QuietApart(k);
      hide Quiet;
      ev := NextEvent(root, Quiet(AsBuilt, k).value);
      RunQuiet(AsBuilt, root, k, [ev]);
    } else {
      ev := EventOf(k);
      RunAnswer(AsBuilt, root, k, [ev]);
      if Answer(AsBuilt, root, k, ev).Some? { RunNothing(AsBuilt, root, k, ev); }
    }
  }

  /** An event that k allows. */
  function EventOf(k: Kont): Event {
    if k.Stop? then Halt
    else if Decides(k.work) then Branch(DecisionOf(k.work), true)
    else match k.work
      case WElem(id) => Elem(id)
      case WStmt(s) => if IsJump(s) then Jump(s.id) else Halt
      case WSelect(id, _) => Select(id, ToDefault)
      case _ => Halt
  }

  lemma {:induction false} RunNothing(mode: Mode, root: Stmt, k: Kont, ev: Event)
    requires Answer(mode, root, k, ev).Some?
    ensures Run(mode, root, Answer(mode, root, k, ev).value, [ev][1..])
  {
    assert [ev][1..] == [];
  }

  // ---------------------------------------------------------------- divergence

  /** What is lost at an irregular choice shows. */
  lemma LostBody(root: Stmt, s: Stmt, k: Kont) returns (ev: Event)
    requires IsLoop(s) && Apart(s) && IdsS(s) !! FirstOf(k) && ApartKont(k)
    requires CondOf(s).Some? && !RegularLoop(s)
    ensures Run(AsBuilt, root, BodyWork(AsBuilt, s, k), [ev]) && !Run(Standard, root, BodyWork(Standard, s, k), [ev])
  {
    hide Run, Apart, IdsS, IdsO, Silent, HeadWork, Bypassed, Reports, FirstOf, ApartKont;
    LoopIds(s);
    HeadApart(s, k);
    ev := NextEvent(root, HeadWork(s, k));
    FirstOfHead(AsBuilt, root, s, k, [ev]);
    assert !From(ev, IdsS(s.sub)) && !From(ev, IdsO(IncOf(s)));
    var next := Then(WNext(s), k);
    if Run(Standard, root, Then(WStmt(s.sub), next), [ev]) {
      FirstOfStmt(root, s.sub, next, [ev]);
      RunNext(Standard, root, s, k, [ev]);
      if IncOf(s).Some? { LostIncrement(root, s, k, ev); }
    }
  }

  lemma {:induction false} LostIncrement(root: Stmt, s: Stmt, k: Kont, ev: Event)
    requires IsLoop(s) && IncOf(s).Some? && !From(ev, IdsO(IncOf(s)))
    ensures !Run(Standard, root, PushExpr(IncOf(s), HeadWork(s, k)), [ev])
  {
    hide Run, HeadWork;
    if Run(Standard, root, PushExpr(IncOf(s), HeadWork(s, k)), [ev]) {
      FirstOfExpr(Standard, root, IncOf(s).value, true, HeadWork(s, k), [ev]);
    }
  }

  lemma LostArm(root: Stmt, s: Stmt, k: Kont) returns (ev: Event)
    requires ApartKont(k) && IdsS(s) !! FirstOf(k) && !RegularArm(s)
    ensures Run(AsBuilt, root, ArmWork(AsBuilt, s, k), [ev]) && !Run(Standard, root, ArmWork(Standard, s, k), [ev])
  {
    hide Run, IdsS, Silent, Bypassed;
    ev := NextEvent(root, k);
    if Run(Standard, root, Then(WStmt(s), k), [ev]) { FirstOfStmt(root, s, k, [ev]); }
  }

  /** At an irregular choice the readings part. */
  lemma ChoiceDiffers(root: Stmt, k: Kont) returns (tr: seq<Event>)
    requires ApartKont(k) && !RegularHere(k)
    ensures Run(AsBuilt, root, k, tr) && !Run(Standard, root, k, tr)
  {
    hide Run, Apart, IdsS, RegularArm, RegularLoop, FirstOf, BodyWork, ArmWork;
    var w, rest := k.work, k.rest;
    if w.WStmt? {
      tr := DoDiffers(root, w.s, rest);
    } else if w.WIf? {
      tr := IfDiffers(root, w, rest);
    } else if CondOf(w.loop).None? {
      tr := [Branch(w.loop.id, false)];
      RunDecision(AsBuilt, root, w, rest, tr);
      RunDecision(Standard, root, w, rest, tr);
      RunEmpty(AsBuilt, root, rest, tr[1..]);
    } else {
      var ev := LostBody(root, w.loop, rest);
      tr := [Branch(w.loop.id, true)] + [ev];
      RunBranch(AsBuilt, root, w, rest, true, [ev]);
      RunBranch(Standard, root, w, rest, true, [ev]);
    }
  }

  lemma {:induction false} RunEmpty(mode: Mode, root: Stmt, k: Kont, tr: seq<Event>)
    requires tr == []
    ensures Run(mode, root, k, tr)
  {
  }

  lemma DoDiffers(root: Stmt, s: Stmt, k: Kont) returns (tr: seq<Event>)
    requires s.Do? && Apart(s) && IdsS(s) !! FirstOf(k) && ApartKont(k) && !RegularLoop(s)
    ensures Run(AsBuilt, root, Then(WStmt(s), k), tr) && !Run(Standard, root, Then(WStmt(s), k), tr)
  {
    hide Run, Apart, IdsS, RegularLoop, FirstOf, BodyWork;
    var ev := LostBody(root, s, k);
    tr := [ev];
    RunStmt(AsBuilt, root, s, k, tr);
    RunStmt(Standard, root, s, k, tr);
  }

  lemma IfDiffers(root: Stmt, w: Work, k: Kont) returns (tr: seq<Event>)
    requires w.WIf? && ApartKont(Then(w, k)) && !RegularChoice(w)
    ensures Run(AsBuilt, root, Then(w, k), tr) && !Run(Standard, root, Then(w, k), tr)
  {
    hide Run, IdsS, RegularArm, FirstOf, ArmWork, Apart;
    var taken := !RegularArm(w.thn);
    var ev := LostArm(root, if taken then w.thn else w.els.value, k);
    tr := [Branch(w.id, taken)] + [ev];
    assert tr[1..] == [ev];
    RunDecision(AsBuilt, root, w, k, tr);
    RunDecision(Standard, root, w, k, tr);
  }

  /** And so they do from wherever such a choice can be come to. */
  lemma {:induction false} Diverges(root: Stmt, k: Kont, tr: seq<Event>, k': Kont) returns (u: seq<Event>)
    requires Apart(root) && ApartKont(k) && Reaches(AsBuilt, root, k, tr, k') && !RegularHere(k')
    ensures Run(AsBuilt, root, k, u) && !Run(Standard, root, k, u)
    decreases |tr|, KSize(k)
  {
    hide Run, Apart, ApartKont, RegularHere;
    if !RegularHere(k) {
      u := ChoiceDiffers(root, k);
    } else {
      hide Quiet, Answer;
      if Quiet(AsBuilt, k).Some? {
        QuietApart(k);
        u := Diverges(root, Quiet(AsBuilt, k).value, tr, k');
        RunQuiet(AsBuilt, root, k, u);
        QuietSame(root, k, u);
      } else {
        var next := Answer(AsBuilt, root, k, tr[0]).value;
        AnswerApart(root, k, tr[0]);
        var v := Diverges(root, next, tr[1..], k');
        u := [tr[0]] + v;
        assert u[1..] == v;
        RunAnswer(AsBuilt, root, k, u);
        AnswerSame(root, k, u);
      }
    }
  }

  // ---------------------------------------------------------------- whole programs

  /**
    A program of distinct nodes means the same to the builder and to the language if and
    only if every choice it can come to is regular.
   */
  lemma {:induction false} ProgramsAgreeIff(root: Stmt)
    requires Apart(root)
    ensures (forall tr :: Behaviour(Standard, root, tr) <==> Behaviour(AsBuilt, root, tr)) <==> AlwaysRegular(root)
  {
    hide Run, Apart, Reaches, RegularHere;
    if AlwaysRegular(root) {
      SoundIfRegular(root);
    } else {
      var tr, k :| Reaches(AsBuilt, root, Begin(root), tr, k) && !RegularHere(k);
      assert ApartKont(Begin(root)) && FirstOf(Stop) == {};
      var u := Diverges(root, Begin(root), tr, k);
      assert Behaviour(AsBuilt, root, u) && !Behaviour(Standard, root, u);
    }
  }

  /** Whatever its nodes, a program with regular choices only is built right. */
  lemma SoundIfRegular(root: Stmt)
    requires AlwaysRegular(root)
    ensures forall tr :: Behaviour(Standard, root, tr) <==> Behaviour(AsBuilt, root, tr)
  {
    hide Run;
    forall tr ensures Behaviour(Standard, root, tr) <==> Behaviour(AsBuilt, root, tr) {
      assert Reaches(AsBuilt, root, Begin(root), [], Begin(root));
      RunsAgree(root, [], Begin(root), tr);
    }
  }

  /** In particular a regular program is. */
  lemma {:induction false} ProgramsAgree(s: Stmt)
    requires Regular(s)
    ensures forall tr :: Behaviour(Standard, s, tr) <==> Behaviour(AsBuilt, s, tr)
  {
    hide Run, Regular, Reaches, RegularHere;
    forall tr, k | Reaches(AsBuilt, s, Begin(s), tr, k) ensures RegularHere(k) {
      assert RegularKont(Begin(s));
      ReachesRegular(s, Begin(s), tr, k);
    }
    SoundIfRegular(s);
  }
}
