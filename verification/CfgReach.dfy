/**
  The steps of a program: those that show nothing, those that answer an event, and the
  continuations they lead to.
 */
module CfgReach {
  import opened Options
  import opened CfgSyntax

  /** The continuation after a step without an event; None where the next step shows one. */
  function Quiet(mode: Mode, k: Kont): (r: Option<Kont>)
    ensures r.Some? ==> KSize(r.value) < KSize(k)
  {
    if k.Stop? then None
    else match k.work
      case WExpr(e, always) => Some(ExprWork(e, always, k.rest))
      case WArgs(args) => Some(ArgsWork(args, k.rest))
      case WStmt(s) => if IsJump(s) then None else Some(StmtWork(mode, s, k.rest))
      case WStmts(ss) => Some(ListWork(ss, k.rest))
      case WNext(s) => if IsLoop(s) then Some(PushExpr(IncOf(s), HeadWork(s, k.rest))) else None
      case WEndSwitch => Some(k.rest)
      case _ => None
  }

  function ArgsWork(args: seq<Expr>, k: Kont): (r: Kont)
    ensures KSize(r) < 1 + ArgsSize(args) + KSize(k)
  {
    if args == [] then k
    else
      var n := |args| - 1;
      Push(WExpr(args[n], false), Push(WArgs(args[..n]), k))
  }

  function ListWork(ss: seq<Stmt>, k: Kont): (r: Kont)
    ensures KSize(r) < 1 + ListSize(ss) + KSize(k)
  {
    if ss == [] then k else Push(WStmt(ss[0]), Push(WStmts(ss[1..]), k))
  }

  /** Where a decision is due. */
  predicate Decides(w: Work) {
    w.WLogical? || w.WConditional? || w.WIf? || (w.WTest? && IsLoop(w.loop))
  }

  function DecisionOf(w: Work): Id
    requires Decides(w)
  {
    if w.WTest? then w.loop.id else w.id
  }

  /** The continuation after the event ev; None where it ends the behaviour or cannot be. */
  function Answer(mode: Mode, root: Stmt, k: Kont, ev: Event): Option<Kont> {
    if k.Stop? then None
    else if Decides(k.work) then
      if ev.Branch? && ev.id == DecisionOf(k.work) &&
         (k.work.WTest? && mode.Standard? && CondOf(k.work.loop).None? ==> ev.taken)
      then Some(BranchWork(mode, k.work, ev.taken, k.rest)) else None
    else match k.work
      case WElem(id) => if ev == Elem(id) then Some(k.rest) else None
      case WStmt(s) => if IsJump(s) && ev == Jump(s.id) then JumpTo(root, s, k.rest) else None
      case WSelect(id, body) => if ev.Select? && ev.id == id then ArmOf(body, ev.arm, k.rest) else None
      case _ => None
  }

  /** Where selecting an arm leads: without a default label past the switch. */
  function ArmOf(body: Stmt, arm: Target, k: Kont): Option<Kont> {
    if arm.ToLabel? then None
    else
      var target := Find(body, arm, Push(WEndSwitch, k));
      if target.None? && arm.ToDefault? then Some(k) else target
  }

  /** The event ev ends a behaviour: the program halts, or a jump finds no target. */
  predicate Ends(k: Kont, ev: Event) {
    if k.Stop? then ev == Halt else k.work.WStmt? && IsJump(k.work.s) && ev == Jump(k.work.s.id)
  }

  lemma {:induction false} RunQuiet(mode: Mode, root: Stmt, k: Kont, tr: seq<Event>)
    requires Quiet(mode, k).Some?
    ensures Run(mode, root, k, tr) <==> Run(mode, root, Quiet(mode, k).value, tr)
  {
    hide ExprWork, StmtWork, PushExpr, HeadWork;
  }

  lemma {:induction false} RunAnswer(mode: Mode, root: Stmt, k: Kont, tr: seq<Event>)
    requires Quiet(mode, k).None? && tr != []
    ensures Run(mode, root, k, tr) <==>
              var next := Answer(mode, root, k, tr[0]);
              if next.Some? then Run(mode, root, next.value, tr[1..]) else Ends(k, tr[0]) && |tr| == 1
  {
    hide BranchWork, JumpTo, ExprWork, StmtWork;
  }

  /** From k, the trace tr leads to the continuation k'. */
  ghost predicate Reaches(mode: Mode, root: Stmt, k: Kont, tr: seq<Event>, k': Kont)
    decreases |tr|, KSize(k)
  {
    || (k == k' && tr == [])
    || (if Quiet(mode, k).Some? then Reaches(mode, root, Quiet(mode, k).value, tr, k')
        else
          && tr != [] && Answer(mode, root, k, tr[0]).Some?
          && Reaches(mode, root, Answer(mode, root, k, tr[0]).value, tr[1..], k'))
  }

  /** Whatever leads on from where one gets can be got to. */
  lemma {:induction false} ReachesOn(mode: Mode, root: Stmt, k: Kont, tr: seq<Event>, k': Kont, tr': seq<Event>, k'': Kont)
    requires Reaches(mode, root, k, tr, k') && Reaches(mode, root, k', tr', k'')
    ensures Reaches(mode, root, k, tr + tr', k'')
    decreases |tr|, KSize(k)
  {
    hide Quiet, Answer;
    if k == k' && tr == [] {
      assert tr + tr' == tr';
    } else if Quiet(mode, k).Some? {
      ReachesOn(mode, root, Quiet(mode, k).value, tr, k', tr', k'');
    } else {
      assert (tr + tr')[1..] == tr[1..] + tr';
      ReachesOn(mode, root, Answer(mode, root, k, tr[0]).value, tr[1..], k', tr', k'');
    }
  }

  lemma {:induction false} ReachesQuiet(mode: Mode, root: Stmt, k: Kont, tr: seq<Event>, k': Kont)
    requires Reaches(mode, root, k, tr, k') && Quiet(mode, k').Some?
    ensures Reaches(mode, root, k, tr, Quiet(mode, k').value)
  {
    hide Quiet, Answer;
    var next := Quiet(mode, k').value;
    assert Reaches(mode, root, next, [], next);
    assert Reaches(mode, root, k', [], next);
    ReachesOn(mode, root, k, tr, k', [], next);
    assert tr + [] == tr;
  }

  lemma {:induction false} ReachesAnswer(mode: Mode, root: Stmt, k: Kont, tr: seq<Event>, k': Kont, ev: Event)
    requires Reaches(mode, root, k, tr, k') && Quiet(mode, k').None? && Answer(mode, root, k', ev).Some?
    ensures Reaches(mode, root, k, tr + [ev], Answer(mode, root, k', ev).value)
  {
    hide Quiet, Answer;
    var next := Answer(mode, root, k', ev).value;
    assert [ev][1..] == [];
    assert Reaches(mode, root, next, [], next);
    assert Reaches(mode, root, k', [ev], next);
    ReachesOn(mode, root, k, tr, k', [ev], next);
  }

  /** Wherever a program gets, it goes on as it would from there. */
  lemma {:induction false} RunReaches(mode: Mode, root: Stmt, k: Kont, tr: seq<Event>, k': Kont, tr': seq<Event>)
    requires Reaches(mode, root, k, tr, k')
    ensures Run(mode, root, k, tr + tr') <==> Run(mode, root, k', tr')
    decreases |tr|, KSize(k)
  {
    hide Quiet, Answer, Run;
    if k == k' && tr == [] {
      assert tr + tr' == tr';
    } else if Quiet(mode, k).Some? {
      RunQuiet(mode, root, k, tr + tr');
      RunReaches(mode, root, Quiet(mode, k).value, tr, k', tr');
    } else {
      assert (tr + tr')[1..] == tr[1..] + tr';
      RunAnswer(mode, root, k, tr + tr');
      RunReaches(mode, root, Answer(mode, root, k, tr[0]).value, tr[1..], k', tr');
    }
  }
}
