/**
  The statements and expressions from which a control-flow graph is built, and their
  meaning as written: which block-level elements are evaluated, which branch decisions
  are taken, and in which order (sections 6.8.1 to 6.8.6 and 6.5.13 to 6.5.17 of C99).

  A node's `id` stands for its address.  A behaviour is a finite sequence of events, and
  the set of behaviours of a program is closed under prefixes, so programs that do not
  terminate have behaviours too.
 */
module CfgSyntax {
  import opened Options

  type Id = nat

  datatype Expr =
    | Op(id: Id, args: seq<Expr>)
    | Paren(sub: Expr)
    | Comma(id: Id, lhs: Expr, rhs: Expr)
    | Logical(id: Id, isOr: bool, lhs: Expr, rhs: Expr)
    | Conditional(id: Id, cond: Expr, lhs: Expr, rhs: Expr)

  datatype Stmt =
    | Null
    | Eval(e: Expr)
    | Compound(body: seq<Stmt>)
    | If(id: Id, test: Expr, thn: Stmt, els: Option<Stmt>)
    | While(id: Id, test: Expr, sub: Stmt)
    | Do(id: Id, sub: Stmt, test: Expr)
    | For(id: Id, init: Option<Expr>, cond: Option<Expr>, inc: Option<Expr>, sub: Stmt)
    | Switch(id: Id, test: Expr, sub: Stmt)
    | Case(id: Id, sub: Stmt)
    | Default(id: Id, sub: Stmt)
    | Label(id: Id, sub: Stmt)
    | Goto(id: Id, dest: Id)
    | Break(id: Id)
    | Continue(id: Id)
    | Return(id: Id, value: Option<Expr>)

  /** A place control can be transferred to by name. */
  datatype Target = ToLabel(id: Id) | ToCase(id: Id) | ToDefault

  datatype Event =
    | Elem(id: Id)                  // a block-level element is evaluated
    | Branch(id: Id, taken: bool)   // a two-way terminator decides
    | Select(id: Id, arm: Target)   // a switch selects an arm
    | Jump(id: Id)                  // a break, continue or goto is executed
    | Halt                          // the end of the program is reached

  /**
    Two readings of a program.  Standard is the language's.  AsBuilt is what the graph
    builder makes of it: a missing condition of a `for` may turn out false, and a branch
    or a loop body for which the builder gets no block is bypassed, with the increment of
    the loop, although what is in it can still be jumped into.
   */
  datatype Mode = Standard | AsBuilt

  // ---------------------------------------------------------------- parts of statements

  /** Is a block under construction after the visit of s, which starts with one or without? */
  predicate BlockAfter(s: Stmt, block: bool) {
    match s
    case Null => block
    case Compound(body) => BlockAfterAll(body, block)
    case While(_, _, _) => false
    case Do(_, _, _) => false
    case For(_, init, _, _, _) => init.Some?
    case Case(_, _) => false
    case Default(_, _) => false
    case Label(_, _) => false
    case _ => true
  }

  /** The statements of a list are visited last to first. */
  predicate BlockAfterAll(ss: seq<Stmt>, block: bool) {
    if ss == [] then block else BlockAfter(ss[0], BlockAfterAll(ss[1..], block))
  }

  /** Does the visit of s report a block? An empty statement reports the one there is, if any. */
  predicate Reports(s: Stmt, block: bool) {
    match s
    case Null => block
    case Compound(body) => body != [] && Reports(body[0], BlockAfterAll(body[1..], block))
    case _ => true
  }

  /** A branch or loop body for which no block is reported. */
  predicate Bypassed(s: Stmt) {
    !Reports(s, false)
  }

  /** Is there a break or continue in s without a construct to leave, inside s or around it? */
  predicate Stray(s: Stmt, breakable: bool, continuable: bool) {
    match s
    case Break(_) => !breakable
    case Continue(_) => !continuable
    case Compound(body) => StrayIn(body, breakable, continuable)
    case If(_, _, t, e) =>
      Stray(t, breakable, continuable) || (e.Some? && Stray(e.value, breakable, continuable))
    case While(_, _, b) => Stray(b, true, true)
    case Do(_, b, _) => Stray(b, true, true)
    case For(_, _, _, _, b) => Stray(b, true, true)
    case Switch(_, _, b) => Stray(b, true, continuable)
    case Case(_, b) => Stray(b, breakable, continuable)
    case Default(_, b) => Stray(b, breakable, continuable)
    case Label(_, b) => Stray(b, breakable, continuable)
    case _ => false
  }

  predicate StrayIn(ss: seq<Stmt>, breakable: bool, continuable: bool) {
    ss != [] && (Stray(ss[0], breakable, continuable) || StrayIn(ss[1..], breakable, continuable))
  }

  predicate IsLoop(s: Stmt) {
    s.While? || s.Do? || s.For?
  }

  function CondOf(s: Stmt): Option<Expr>
    requires IsLoop(s)
  {
    if s.For? then s.cond else Some(s.test)
  }

  /** The increment that runs after an iteration of the body. */
  function IncOf(s: Stmt): Option<Expr>
    requires IsLoop(s)
  {
    if s.For? then s.inc else None
  }

  function OptionArgs(e: Option<Expr>): (args: seq<Expr>)
    ensures ArgsSize(args) <= 1 + OptSize(e)
  {
    if e.Some? then
      assert [e.value][..0] == [];
      [e.value]
    else []
  }

  // ---------------------------------------------------------------- continuations

  /** A unit of work still to be done. */
  datatype Work =
    | WElem(id: Id)
    | WExpr(e: Expr, always: bool)
    | WArgs(args: seq<Expr>)
    | WLogical(id: Id, isOr: bool, rhs: Expr)
    | WConditional(id: Id, lhs: Expr, rhs: Expr)
    | WStmt(s: Stmt)
    | WStmts(ss: seq<Stmt>)
    | WIf(id: Id, thn: Stmt, els: Option<Stmt>)
    | WTest(loop: Stmt)             // the condition has been evaluated: iterate or leave
    | WNext(loop: Stmt)             // the body has been executed
    | WSelect(id: Id, body: Stmt)   // the controlling expression has been evaluated
    | WEndSwitch

  datatype Kont = Stop | Then(work: Work, rest: Kont)

  /** Where `break` leads: past the innermost enclosing loop or switch. */
  function BreakTo(k: Kont): Option<Kont> {
    match k
    case Stop => None
    case Then(w, rest) => if w.WNext? || w.WEndSwitch? then Some(rest) else BreakTo(rest)
  }

  /** Where `continue` leads: to the end of the body of the innermost enclosing loop. */
  function ContinueTo(k: Kont): Option<Kont> {
    match k
    case Stop => None
    case Then(w, rest) => if w.WNext? then Some(k) else ContinueTo(rest)
  }

  /** The continuation at the place named t inside s, when s is followed by k. */
  function Find(s: Stmt, t: Target, k: Kont): Option<Kont> {
    match s
    case Compound(body) => FindIn(body, t, k)
    case If(_, _, thn, els) =>
      var r := Find(thn, t, k);
      if r.Some? || els.None? then r else Find(els.value, t, k)
    case While(_, _, sub) => Find(sub, t, Then(WNext(s), k))
    case Do(_, sub, _) => Find(sub, t, Then(WNext(s), k))
    case For(_, _, _, _, sub) => Find(sub, t, Then(WNext(s), k))
    case Switch(_, _, sub) => if t.ToLabel? then Find(sub, t, Then(WEndSwitch, k)) else None
    case Case(id, sub) => if t == ToCase(id) then Some(Then(WStmt(sub), k)) else Find(sub, t, k)
    case Default(_, sub) => if t == ToDefault then Some(Then(WStmt(sub), k)) else Find(sub, t, k)
    case Label(id, sub) => if t == ToLabel(id) then Some(Then(WStmt(sub), k)) else Find(sub, t, k)
    case _ => None
  }

  function FindIn(ss: seq<Stmt>, t: Target, k: Kont): Option<Kont> {
    if ss == [] then None else
    var r := Find(ss[0], t, Then(WStmts(ss[1..]), k));
    if r.Some? then r else FindIn(ss[1..], t, k)
  }

  // ---------------------------------------------------------------- sizes

  function ESize(e: Expr): nat {
    match e
    case Op(_, args) => 3 + ArgsSize(args)
    case Paren(sub) => 1 + ESize(sub)
    case Comma(_, l, r) => 2 + ESize(l) + ESize(r)
    case Logical(_, _, l, r) => 2 + ESize(l) + ESize(r)
    case Conditional(_, c, l, r) => 2 + ESize(c) + ESize(l) + ESize(r)
  }

  function ArgsSize(args: seq<Expr>): nat {
    if args == [] then 0 else 1 + ESize(args[|args| - 1]) + ArgsSize(args[..|args| - 1])
  }

  function OptSize(e: Option<Expr>): nat {
    if e.Some? then ESize(e.value) else 0
  }

  function SSize(s: Stmt): nat {
    match s
    case Null => 1
    case Eval(e) => 1 + ESize(e)
    case Compound(body) => 2 + ListSize(body)
    case If(_, c, t, e) => 2 + ESize(c) + SSize(t) + (if e.Some? then SSize(e.value) else 0)
    case While(_, c, b) => 4 + ESize(c) + SSize(b)
    case Do(_, b, c) => 4 + ESize(c) + SSize(b)
    case For(_, i, c, n, b) => 4 + OptSize(i) + OptSize(c) + OptSize(n) + SSize(b)
    case Switch(_, c, b) => 2 + ESize(c) + SSize(b)
    case Case(_, b) => 1 + SSize(b)
    case Default(_, b) => 1 + SSize(b)
    case Label(_, b) => 1 + SSize(b)
    case Return(_, v) => 5 + OptSize(v)
    case _ => 1
  }

  function ListSize(ss: seq<Stmt>): nat {
    if ss == [] then 0 else 1 + SSize(ss[0]) + ListSize(ss[1..])
  }

  function WSize(w: Work): nat {
    match w
    case WExpr(e, _) => ESize(e)
    case WArgs(args) => 1 + ArgsSize(args)
    case WStmt(s) => SSize(s)
    case WStmts(ss) => 1 + ListSize(ss)
    case WNext(s) => if IsLoop(s) then 2 + OptSize(CondOf(s)) + OptSize(IncOf(s)) else 1
    case _ => 1
  }

  function KSize(k: Kont): nat {
    match k
    case Stop => 0
    case Then(w, rest) => WSize(w) + KSize(rest)
  }

  function Push(w: Work, k: Kont): (r: Kont)
    ensures KSize(r) == WSize(w) + KSize(k)
  {
    Then(w, k)
  }

  function PushExpr(e: Option<Expr>, k: Kont): (r: Kont)
    ensures KSize(r) == OptSize(e) + KSize(k)
  {
    if e.Some? then Then(WExpr(e.value, true), k) else k
  }

  // ---------------------------------------------------------------- behaviours

  /** What evaluating e amounts to; `always` says whether e itself is a block-level element. */
  function ExprWork(e: Expr, always: bool, k: Kont): (r: Kont)
    ensures KSize(r) < ESize(e) + KSize(k)
  {
    match e
    case Op(id, args) => Push(WArgs(args), if always then Push(WElem(id), k) else k)
    case Paren(sub) => Push(WExpr(sub, always), k)
    case Comma(id, l, r) => Push(WExpr(l, true), Push(WExpr(r, true), Push(WElem(id), k)))
    case Logical(id, isOr, l, r) => Push(WExpr(l, true), Push(WLogical(id, isOr, r), k))
    case Conditional(id, c, l, r) => Push(WExpr(c, true), Push(WConditional(id, l, r), k))
  }

  /** The condition of a loop and the decision it leads to. */
  function HeadWork(s: Stmt, k: Kont): (r: Kont)
    requires IsLoop(s)
    ensures KSize(r) == 1 + OptSize(CondOf(s)) + KSize(k)
  {
    PushExpr(CondOf(s), Push(WTest(s), k))
  }

  predicate Skips(mode: Mode, s: Stmt) {
    mode.AsBuilt? && Bypassed(s)
  }

  /** A branch. */
  function ArmWork(mode: Mode, s: Stmt, k: Kont): (r: Kont)
    ensures KSize(r) <= SSize(s) + KSize(k)
  {
    if Skips(mode, s) then k else Push(WStmt(s), k)
  }

  /** The body of a loop, and on to the next iteration. */
  function BodyWork(mode: Mode, s: Stmt, k: Kont): (r: Kont)
    requires IsLoop(s)
    ensures s.Do? ==> KSize(r) < SSize(s) + KSize(k)
  {
    if Skips(mode, s.sub) then HeadWork(s, k) else Push(WStmt(s.sub), Push(WNext(s), k))
  }

  /** The first steps of a loop. */
  function LoopWork(mode: Mode, s: Stmt, k: Kont): (r: Kont)
    requires IsLoop(s)
    ensures KSize(r) < SSize(s) + KSize(k)
  {
    if s.Do? then BodyWork(mode, s, k) else PushExpr(if s.For? then s.init else None, HeadWork(s, k))
  }

  /** The first steps of a statement that is not a jump. */
  function StmtWork(mode: Mode, s: Stmt, k: Kont): (r: Kont)
    ensures KSize(r) < SSize(s) + KSize(k)
  {
    match s
    case Eval(e) => Push(WExpr(e, true), k)
    case Compound(body) => Push(WStmts(body), k)
    case If(id, c, t, e) => Push(WExpr(c, true), Push(WIf(id, t, e), k))
    case While(_, _, _) => LoopWork(mode, s, k)
    case Do(_, _, _) => LoopWork(mode, s, k)
    case For(_, _, _, _, _) => LoopWork(mode, s, k)
    case Switch(id, c, b) => Push(WExpr(c, true), Push(WSelect(id, b), k))
    case Case(_, b) => Push(WStmt(b), k)
    case Default(_, b) => Push(WStmt(b), k)
    case Label(_, b) => Push(WStmt(b), k)
    case Return(id, v) => Push(WArgs(OptionArgs(v)), Push(WElem(id), Stop))
    case _ => k
  }

  predicate IsJump(s: Stmt) {
    s.Break? || s.Continue? || s.Goto?
  }

  /** Where a jump out of the continuation k leads, in the program root. */
  function JumpTo(root: Stmt, s: Stmt, k: Kont): Option<Kont>
    requires IsJump(s)
  {
    match s
    case Break(_) => BreakTo(k)
    case Continue(_) => ContinueTo(k)
    case Goto(_, l) => Find(root, ToLabel(l), Stop)
  }

  /** What follows the branch decision `taken` at w. */
  function BranchWork(mode: Mode, w: Work, taken: bool, k: Kont): Kont
    requires w.WLogical? || w.WConditional? || w.WIf? || (w.WTest? && IsLoop(w.loop))
  {
    match w
    case WLogical(id, isOr, r) =>
      if taken == isOr then Push(WElem(id), k) else Push(WExpr(r, true), Push(WElem(id), k))
    case WConditional(id, l, r) => Push(WExpr(if taken then l else r, true), Push(WElem(id), k))
    case WIf(_, t, e) =>
      if taken then ArmWork(mode, t, k) else if e.Some? then ArmWork(mode, e.value, k) else k
    case WTest(s) => if taken then BodyWork(mode, s, k) else k
  }

  /** Does the continuation k of the program root allow the behaviour tr? */
  predicate Run(mode: Mode, root: Stmt, k: Kont, tr: seq<Event>)
    decreases |tr|, KSize(k)
  {
    if tr == [] then true
    else
      match k
      case Stop => tr == [Halt]
      case Then(w, rest) =>
        match w
        case WElem(id) => tr[0] == Elem(id) && Run(mode, root, rest, tr[1..])
        case WExpr(e, always) => Run(mode, root, ExprWork(e, always, rest), tr)
        case WArgs(args) =>
          if args == [] then Run(mode, root, rest, tr)
          else
            var n := |args| - 1;
            Run(mode, root, Push(WExpr(args[n], false), Push(WArgs(args[..n]), rest)), tr)
        case WStmt(s) =>
          if IsJump(s) then
            && tr[0] == Jump(s.id)
            && var target := JumpTo(root, s, rest);
            if target.Some? then Run(mode, root, target.value, tr[1..]) else |tr| == 1
          else Run(mode, root, StmtWork(mode, s, rest), tr)
        case WStmts(ss) =>
          Run(mode, root, if ss == [] then rest else Push(WStmt(ss[0]), Push(WStmts(ss[1..]), rest)), tr)
        case WNext(s) =>
          IsLoop(s) && Run(mode, root, PushExpr(IncOf(s), HeadWork(s, rest)), tr)
        case WTest(s) =>
          && IsLoop(s)
          && tr[0].Branch? && tr[0].id == s.id
          && (mode.Standard? && CondOf(s).None? ==> tr[0].taken)
          && Run(mode, root, BranchWork(mode, w, tr[0].taken, rest), tr[1..])
        case WSelect(id, body) =>
          && tr[0].Select? && tr[0].id == id && !tr[0].arm.ToLabel?
          && var target := Find(body, tr[0].arm, Push(WEndSwitch, rest));
          if target.Some? then Run(mode, root, target.value, tr[1..])
          else tr[0].arm.ToDefault? && Run(mode, root, rest, tr[1..])
        case WEndSwitch => Run(mode, root, rest, tr)
        case _ =>
          tr[0].Branch? && tr[0].id == w.id && Run(mode, root, BranchWork(mode, w, tr[0].taken, rest), tr[1..])
  }

  /** The behaviours of a whole program. */
  predicate Behaviour(mode: Mode, program: Stmt, tr: seq<Event>) {
    Run(mode, program, Push(WStmt(program), Stop), tr)
  }
}
