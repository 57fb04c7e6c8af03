/**
  When a part of a graph under construction implements a statement.

  The builder works backwards, so a block's elements are collected last to first and put
  in order once, when the block is finished.  A position inside a block is therefore
  given by the number of elements still to be executed there: that number does not change
  when more elements are put in front.  The relations below describe a stretch of graph
  from a position to a position, and survive every later addition to the graph.
 */
module CfgMatch {
  import opened Options
  import opened CfgSyntax
  import opened CfgGraph

  /**
    A block as seen by the builder: its elements in the order of their addition, whether
    that list has been reversed in place, whether elements may still be added (`sealed`)
    and whether its terminator and successors are final (`edges`).
   */
  datatype Draft = Draft(rev: seq<Id>, reversed: bool, sealed: bool,
                         term: Term, succs: seq<nat>, edges: bool, mark: Mark)

  type Graph = seq<Draft>

  datatype Pos = Pos(b: nat, r: nat)

  /** Break and continue targets, and the arms of the innermost switch. */
  datatype Ctx = Ctx(brk: Option<nat>, cont: Option<nat>, arms: map<Target, nat>)

  // ---------------------------------------------------------------- witnesses

  datatype ExprWit =
    | NoE
    | OpW(args: ArgsWit, mid: Pos)
    | ParenW(sub: ExprWit)
    | CommaW(lhs: ExprWit, rhs: ExprWit, m1: Pos, m2: Pos)
    | ForkW(first: ExprWit, fb: nat, lhs: ExprWit, lin: Pos, lout: Pos, rhs: ExprWit, rin: Pos, rout: Pos, join: Pos)

  datatype ArgsWit = NoA | MoreA(last: ExprWit, mid: Pos, init: ArgsWit)

  datatype StmtWit =
    | NoS
    | EvalW(e: ExprWit, end: Pos)
    | ListW(list: ListWit)
    | IfW(e: ExprWit, fb: nat, yes: Pos, tin: Pos, thn: StmtWit, no: Pos, ein: Pos, els: StmtWit)
    | LoopW(init: ExprWit, initEnd: Pos, next: Pos, inc: ExprWit, incEnd: Pos,
            head: Pos, e: ExprWit, fb: nat, yes: Pos, bin: Pos, sub: StmtWit)
    | SwitchW(e: ExprWit, fb: nat, bin: Pos, sub: StmtWit, arms: map<Target, nat>)
    | MarkW(bin: Pos, sub: StmtWit)
    | ReturnW(args: ArgsWit, mid: Pos)

  datatype ListWit = NoL | MoreL(first: StmtWit, mid: Pos, rest: ListWit)

  // ---------------------------------------------------------------- single steps

  function Entry(g: Graph, b: nat): Pos
    requires b < |g|
  {
    Pos(b, |g[b].rev|)
  }

  /** p is the start of a block to which nothing more is added. */
  predicate Closed(g: Graph, p: Pos) {
    p.b < |g| && g[p.b].sealed && p.r == |g[p.b].rev|
  }

  predicate IsElem(g: Graph, p: Pos, q: Pos, id: Id) {
    && p.b == q.b && p.b < |g| && p.r == q.r + 1 && p.r <= |g[p.b].rev|
    && g[p.b].rev[q.r] == id
  }

  /** Control passes from p to q without any event. */
  predicate Goes(g: Graph, p: Pos, q: Pos) {
    || p == q
    || (&& p.b < |g| && p.r == 0 && p.b != EXIT && g[p.b].edges && g[p.b].term == NoTerm
        && g[p.b].succs == [q.b] && Closed(g, q))
  }

  predicate Forks(g: Graph, b: nat, id: Id, yes: Pos, no: Pos) {
    && b < |g| && g[b].edges && g[b].term == Branching(id)
    && g[b].succs == [yes.b, no.b] && Closed(g, yes) && Closed(g, no)
  }

  // ---------------------------------------------------------------- expressions

  predicate MatchE(g: Graph, e: Expr, w: ExprWit, always: bool, p: Pos, q: Pos)
    decreases w
  {
    match e
    case Op(id, args) =>
      && w.OpW?
      && MatchArgs(g, args, w.args, p, w.mid)
      && (if always then IsElem(g, w.mid, q, id) else w.mid == q)
    case Paren(sub) => w.ParenW? && MatchE(g, sub, w.sub, always, p, q)
    case Comma(id, l, r) =>
      && w.CommaW?
      && MatchE(g, l, w.lhs, true, p, w.m1)
      && MatchE(g, r, w.rhs, true, w.m1, w.m2)
      && IsElem(g, w.m2, q, id)
    case Logical(id, isOr, l, r) =>
      w.ForkW? && MatchE(g, l, w.first, true, p, Pos(w.fb, 0)) && LogicalTail(g, id, isOr, r, w, q)
    case Conditional(id, c, l, r) =>
      w.ForkW? && MatchE(g, c, w.first, true, p, Pos(w.fb, 0)) && ConditionalTail(g, id, l, r, w, q)
  }

  /** The last argument is executed first. */
  predicate MatchArgs(g: Graph, args: seq<Expr>, w: ArgsWit, p: Pos, q: Pos)
    decreases w
  {
    if args == [] then p == q
    else
      var n := |args| - 1;
      && w.MoreA?
      && MatchE(g, args[n], w.last, false, p, w.mid)
      && MatchArgs(g, args[..n], w.init, w.mid, q)
  }

  predicate LogicalTail(g: Graph, id: Id, isOr: bool, r: Expr, w: ExprWit, q: Pos)
    requires w.ForkW?
    decreases w, 0
  {
    && Forks(g, w.fb, id, if isOr then w.join else w.rin, if isOr then w.rin else w.join)
    && MatchE(g, r, w.rhs, true, w.rin, w.rout) && Goes(g, w.rout, w.join)
    && IsElem(g, w.join, q, id)
  }

  predicate ConditionalTail(g: Graph, id: Id, l: Expr, r: Expr, w: ExprWit, q: Pos)
    requires w.ForkW?
    decreases w, 0
  {
    && Forks(g, w.fb, id, w.lin, w.rin)
    && MatchE(g, l, w.lhs, true, w.lin, w.lout) && Goes(g, w.lout, w.join)
    && MatchE(g, r, w.rhs, true, w.rin, w.rout) && Goes(g, w.rout, w.join)
    && Closed(g, w.join) && IsElem(g, w.join, q, id)
  }

  // ---------------------------------------------------------------- named places

  /** The labels of s. */
  ghost function Labels(s: Stmt): multiset<Target> {
    match s
    case Compound(body) => LabelsIn(body)
    case If(_, _, t, e) => Labels(t) + if e.Some? then Labels(e.value) else multiset{}
    case While(_, _, b) => Labels(b)
    case Do(_, b, _) => Labels(b)
    case For(_, _, _, _, b) => Labels(b)
    case Switch(_, _, b) => Labels(b)
    case Case(_, b) => Labels(b)
    case Default(_, b) => Labels(b)
    case Label(id, b) => Labels(b) + multiset{ToLabel(id)}
    case _ => multiset{}
  }

  ghost function LabelsIn(ss: seq<Stmt>): multiset<Target> {
    if ss == [] then multiset{} else Labels(ss[0]) + LabelsIn(ss[1..])
  }

  /** The case and default labels of s that belong to a switch around s. */
  ghost function Arms(s: Stmt): multiset<Target> {
    match s
    case Compound(body) => ArmsIn(body)
    case If(_, _, t, e) => Arms(t) + if e.Some? then Arms(e.value) else multiset{}
    case While(_, _, b) => Arms(b)
    case Do(_, b, _) => Arms(b)
    case For(_, _, _, _, b) => Arms(b)
    case Case(id, b) => Arms(b) + multiset{ToCase(id)}
    case Default(_, b) => Arms(b) + multiset{ToDefault}
    case Label(_, b) => Arms(b)
    case _ => multiset{}
  }

  ghost function ArmsIn(ss: seq<Stmt>): multiset<Target> {
    if ss == [] then multiset{} else Arms(ss[0]) + ArmsIn(ss[1..])
  }

  // ---------------------------------------------------------------- statements

  /** Statement s, in context c, is implemented from p to q. */
  ghost predicate MatchS(g: Graph, lm: map<Id, nat>, s: Stmt, w: StmtWit, p: Pos, q: Pos, c: Ctx)
    decreases w
  {
    match s
    case Null => p == q
    case Eval(e) => w.EvalW? && MatchE(g, e, w.e, true, p, w.end) && Goes(g, w.end, q)
    case Compound(body) => w.ListW? && MatchL(g, lm, body, w.list, p, q, c)
    case If(id, e, t, f) => w.IfW? && MatchE(g, e, w.e, true, p, Pos(w.fb, 0)) && IfTail(g, lm, id, t, f, w, q, c)
    case While(_, _, _) => w.LoopW? && p == w.head && LoopOk(g, lm, s, w, q, c)
    case Do(_, _, _) => w.LoopW? && p == w.yes && LoopOk(g, lm, s, w, q, c)
    case For(_, init, _, _, _) =>
      && w.LoopW? && LoopOk(g, lm, s, w, q, c)
      && if init.Some? then MatchE(g, init.value, w.init, true, p, w.initEnd) && Goes(g, w.initEnd, w.head)
         else p == w.head
    case Switch(id, e, b) =>
      w.SwitchW? && MatchE(g, e, w.e, true, p, Pos(w.fb, 0)) && SwitchTail(g, lm, id, b, w, q, c)
    case Case(id, b) =>
      && Closed(g, p) && g[p.b].mark == AtCase(id)
      && ToCase(id) in c.arms && c.arms[ToCase(id)] == p.b
      && w.MarkW? && Goes(g, p, w.bin) && MatchS(g, lm, b, w.sub, w.bin, q, c)
    case Default(id, b) =>
      && Closed(g, p) && g[p.b].mark == AtDefault(id) && ToDefault in c.arms && c.arms[ToDefault] == p.b
      && w.MarkW? && Goes(g, p, w.bin) && MatchS(g, lm, b, w.sub, w.bin, q, c)
    case Label(id, b) =>
      && Closed(g, p) && g[p.b].mark == AtLabel(id) && id in lm && lm[id] == p.b
      && w.MarkW? && Goes(g, p, w.bin) && MatchS(g, lm, b, w.sub, w.bin, q, c)
    case Goto(id, l) => p.b < |g| && p.r == 0 && g[p.b].term == Going(id, l)
    case Break(id) => Jumps(g, id, p, c.brk)
    case Continue(id) => Jumps(g, id, p, c.cont)
    case Return(id, v) =>
      && w.ReturnW? && MatchArgs(g, OptionArgs(v), w.args, p, w.mid) && IsElem(g, w.mid, Pos(w.mid.b, 0), id)
      && Goes(g, Pos(w.mid.b, 0), Pos(EXIT, 0)) && w.mid.b != EXIT
  }

  predicate Jumps(g: Graph, id: Id, p: Pos, to: Option<nat>) {
    && p.b < |g| && p.r == 0 && g[p.b].edges && g[p.b].term == Jumping(id)
    && g[p.b].succs == (if to.Some? then [to.value] else [])
  }

  ghost predicate MatchL(g: Graph, lm: map<Id, nat>, ss: seq<Stmt>, w: ListWit, p: Pos, q: Pos, c: Ctx)
    decreases w
  {
    if ss == [] then p == q
    else w.MoreL? && MatchS(g, lm, ss[0], w.first, p, w.mid, c) && MatchL(g, lm, ss[1..], w.rest, w.mid, q, c)
  }

  ghost predicate IfTail(g: Graph, lm: map<Id, nat>, id: Id, t: Stmt, f: Option<Stmt>, w: StmtWit, q: Pos, c: Ctx)
    requires w.IfW?
    decreases w, 0
  {
    && Forks(g, w.fb, id, w.yes, w.no)
    && Goes(g, w.yes, if Bypassed(t) then q else w.tin) && MatchS(g, lm, t, w.thn, w.tin, q, c)
    && if f.Some? then
         Goes(g, w.no, if Bypassed(f.value) then q else w.ein) && MatchS(g, lm, f.value, w.els, w.ein, q, c)
       else w.no == q
  }

  /** A loop with the end of its body at w.next, its condition at w.head, and followed by q. */
  ghost predicate LoopOk(g: Graph, lm: map<Id, nat>, s: Stmt, w: StmtWit, q: Pos, c: Ctx)
    requires IsLoop(s) && w.LoopW?
    decreases w, 0
  {
    var inc, cond := IncOf(s), CondOf(s);
    && Closed(g, w.next)
    && (if inc.Some? then MatchE(g, inc.value, w.inc, true, w.next, w.incEnd) && Goes(g, w.incEnd, w.head)
        else w.next == w.head)
    && (if cond.Some? then MatchE(g, cond.value, w.e, true, w.head, Pos(w.fb, 0)) else w.head == Pos(w.fb, 0))
    && Forks(g, w.fb, s.id, w.yes, q)
    && Goes(g, w.yes, if Bypassed(s.sub) then w.head else w.bin)
    && MatchS(g, lm, s.sub, w.sub, w.bin, w.next, Ctx(Some(q.b), Some(w.next.b), c.arms))
  }

  ghost predicate SwitchTail(g: Graph, lm: map<Id, nat>, id: Id, body: Stmt, w: StmtWit, q: Pos, c: Ctx)
    requires w.SwitchW?
    decreases w, 0
  {
    && Closed(g, q) && w.fb < |g| && g[w.fb].edges && g[w.fb].term == Switching(id)
    && MatchS(g, lm, body, w.sub, w.bin, q, Ctx(Some(q.b), c.cont, w.arms))
    && (forall t: Target :: !t.ToLabel? ==> (t in w.arms <==> t in Arms(body)))
    && ArmsLinked(g, g[w.fb].succs, w.arms, q.b)
  }

  /** The arms are the successors but the last, which is the default arm or the way out. */
  ghost predicate ArmsLinked(g: Graph, succs: seq<nat>, arms: map<Target, nat>, out: nat) {
    && |succs| >= 1
    && succs[|succs| - 1] == (if ToDefault in arms then arms[ToDefault] else out)
    && CasesLinked(g, succs[..|succs| - 1], arms)
  }

  ghost predicate CasesLinked(g: Graph, cases: seq<nat>, arms: map<Target, nat>) {
    && (forall j {:trigger CaseOk(g, cases[j], arms)} :: 0 <= j < |cases| ==> CaseOk(g, cases[j], arms))
    && (forall t {:trigger ArmOk(g, cases, arms, t)} :: t in arms && t.ToCase? ==> ArmOk(g, cases, arms, t))
  }

  ghost predicate CaseOk(g: Graph, b: nat, arms: map<Target, nat>) {
    && b < |g| && g[b].mark.AtCase?
    && ToCase(g[b].mark.id) in arms && arms[ToCase(g[b].mark.id)] == b
  }

  ghost predicate ArmOk(g: Graph, cases: seq<nat>, arms: map<Target, nat>, t: Target)
    requires t in arms && t.ToCase?
  {
    arms[t] in cases && arms[t] < |g| && g[arms[t]].mark == AtCase(t.id)
  }

  // ---------------------------------------------------------------- additions to the graph

  ghost predicate Grows(d: Draft, d': Draft) {
    && d.rev <= d'.rev
    && (d.sealed ==> d'.sealed && d'.rev == d.rev)
    && (d.edges ==> d'.edges && d'.succs == d.succs && d'.term == d.term)
    && (d.term != NoTerm ==> d'.term == d.term)
    && (d.mark != NoMark ==> d'.mark == d.mark)
  }

  ghost predicate Extends(g: Graph, g': Graph) {
    && |g| <= |g'|
    && forall b {:trigger Grows(g[b], g'[b])} :: 0 <= b < |g| ==> Grows(g[b], g'[b])
  }

  lemma StepMono(g: Graph, g': Graph, p: Pos, q: Pos)
    requires Extends(g, g')
    ensures Closed(g, p) ==> Closed(g', p)
    ensures Goes(g, p, q) ==> Goes(g', p, q)
    ensures forall id :: IsElem(g, p, q, id) ==> IsElem(g', p, q, id)
  {
    if p.b < |g| { assert Grows(g[p.b], g'[p.b]); }
    if q.b < |g| { assert Grows(g[q.b], g'[q.b]); }
  }

  lemma ForksMono(g: Graph, g': Graph, b: nat, id: Id, yes: Pos, no: Pos)
    requires Extends(g, g') && Forks(g, b, id, yes, no)
    ensures Forks(g', b, id, yes, no)
  {
    assert Grows(g[b], g'[b]);
    StepMono(g, g', yes, no);
    StepMono(g, g', no, yes);
  }

  ghost predicate SubMap<K(!new), V>(m: map<K, V>, m': map<K, V>) {
    forall k :: k in m ==> k in m' && m'[k] == m[k]
  }

  lemma {:induction false} MatchEMono(g: Graph, g': Graph, e: Expr, w: ExprWit, always: bool, p: Pos, q: Pos)
    requires Extends(g, g') && MatchE(g, e, w, always, p, q)
    ensures MatchE(g', e, w, always, p, q)
    decreases w
  {
    match e
    case Op(id, args) =>
      MatchArgsMono(g, g', args, w.args, p, w.mid);
      StepMono(g, g', w.mid, q);
    case Paren(sub) => MatchEMono(g, g', sub, w.sub, always, p, q);
    case Comma(id, l, r) =>
      MatchEMono(g, g', l, w.lhs, true, p, w.m1);
      MatchEMono(g, g', r, w.rhs, true, w.m1, w.m2);
      StepMono(g, g', w.m2, q);
    case Logical(id, isOr, l, r) =>
      MatchEMono(g, g', l, w.first, true, p, Pos(w.fb, 0));
      LogicalTailMono(g, g', id, isOr, r, w, q);
    case Conditional(id, c, l, r) =>
      MatchEMono(g, g', c, w.first, true, p, Pos(w.fb, 0));
      ConditionalTailMono(g, g', id, l, r, w, q);
  }

  lemma {:induction false} LogicalTailMono(g: Graph, g': Graph, id: Id, isOr: bool, r: Expr, w: ExprWit, q: Pos)
    requires w.ForkW? && Extends(g, g') && LogicalTail(g, id, isOr, r, w, q)
    ensures LogicalTail(g', id, isOr, r, w, q)
    decreases w, 0
  {
    ForksMono(g, g', w.fb, id, if isOr then w.join else w.rin, if isOr then w.rin else w.join);
    MatchEMono(g, g', r, w.rhs, true, w.rin, w.rout);
    StepMono(g, g', w.rout, w.join);
    StepMono(g, g', w.join, q);
  }

  lemma {:induction false} ConditionalTailMono(g: Graph, g': Graph, id: Id, l: Expr, r: Expr, w: ExprWit, q: Pos)
    requires w.ForkW? && Extends(g, g') && ConditionalTail(g, id, l, r, w, q)
    ensures ConditionalTail(g', id, l, r, w, q)
    decreases w, 0
  {
    ForksMono(g, g', w.fb, id, w.lin, w.rin);
    MatchEMono(g, g', l, w.lhs, true, w.lin, w.lout);
    MatchEMono(g, g', r, w.rhs, true, w.rin, w.rout);
    StepMono(g, g', w.lout, w.join);
    StepMono(g, g', w.rout, w.join);
    StepMono(g, g', w.join, q);
  }

  lemma {:induction false} MatchArgsMono(g: Graph, g': Graph, args: seq<Expr>, w: ArgsWit, p: Pos, q: Pos)
    requires Extends(g, g') && MatchArgs(g, args, w, p, q)
    ensures MatchArgs(g', args, w, p, q)
    decreases w
  {
    if args != [] {
      var n := |args| - 1;
      MatchEMono(g, g', args[n], w.last, false, p, w.mid);
      MatchArgsMono(g, g', args[..n], w.init, w.mid, q);
    }
  }

  lemma {:induction false} MatchSMono(g: Graph, g': Graph, lm: map<Id, nat>, lm': map<Id, nat>,
                                      s: Stmt, w: StmtWit, p: Pos, q: Pos, c: Ctx, c': Ctx)
    requires Extends(g, g') && SubMap(lm, lm') && MatchS(g, lm, s, w, p, q, c)
    requires c'.brk == c.brk && c'.cont == c.cont && SubMap(c.arms, c'.arms)
    ensures MatchS(g', lm', s, w, p, q, c')
    decreases w
  {
    match s
    case Null =>
    case Eval(e) =>
      MatchEMono(g, g', e, w.e, true, p, w.end);
      StepMono(g, g', w.end, q);
    case Compound(body) => MatchLMono(g, g', lm, lm', body, w.list, p, q, c, c');
    case If(id, e, t, f) =>
      MatchEMono(g, g', e, w.e, true, p, Pos(w.fb, 0));
      IfTailMono(g, g', lm, lm', id, t, f, w, q, c, c');
    case While(_, _, _) => LoopMono(g, g', lm, lm', s, w, q, c, c');
    case Do(_, _, _) => LoopMono(g, g', lm, lm', s, w, q, c, c');
    case For(_, init, _, _, _) =>
      LoopMono(g, g', lm, lm', s, w, q, c, c');
      if init.Some? {
        MatchEMono(g, g', init.value, w.init, true, p, w.initEnd);
        StepMono(g, g', w.initEnd, w.head);
      }
    case Switch(id, e, b) =>
      MatchEMono(g, g', e, w.e, true, p, Pos(w.fb, 0));
      SwitchTailMono(g, g', lm, lm', id, b, w, q, c, c');
    case Return(_, v) =>
      MatchArgsMono(g, g', OptionArgs(v), w.args, p, w.mid);
      StepMono(g, g', w.mid, Pos(w.mid.b, 0));
      StepMono(g, g', Pos(w.mid.b, 0), Pos(EXIT, 0));
    case Case(_, _) => MarkMono(g, g', lm, lm', s, w, p, q, c, c');
    case Default(_, _) => MarkMono(g, g', lm, lm', s, w, p, q, c, c');
    case Label(_, _) => MarkMono(g, g', lm, lm', s, w, p, q, c, c');
    case Goto(_, _) => assert Grows(g[p.b], g'[p.b]);
    case Break(_) => assert Grows(g[p.b], g'[p.b]);
    case Continue(_) => assert Grows(g[p.b], g'[p.b]);
  }

  lemma {:induction false} MarkMono(g: Graph, g': Graph, lm: map<Id, nat>, lm': map<Id, nat>,
                                    s: Stmt, w: StmtWit, p: Pos, q: Pos, c: Ctx, c': Ctx)
    requires s.Case? || s.Default? || s.Label?
    requires Extends(g, g') && SubMap(lm, lm') && MatchS(g, lm, s, w, p, q, c)
    requires c'.brk == c.brk && c'.cont == c.cont && SubMap(c.arms, c'.arms)
    ensures MatchS(g', lm', s, w, p, q, c')
    decreases w, 0
  {
    MatchSMono(g, g', lm, lm', s.sub, w.sub, w.bin, q, c, c');
    assert Grows(g[p.b], g'[p.b]);
    StepMono(g, g', p, w.bin);
  }

  lemma {:induction false} IfTailMono(g: Graph, g': Graph, lm: map<Id, nat>, lm': map<Id, nat>,
                                      id: Id, t: Stmt, f: Option<Stmt>, w: StmtWit, q: Pos, c: Ctx, c': Ctx)
    requires Extends(g, g') && SubMap(lm, lm') && w.IfW? && IfTail(g, lm, id, t, f, w, q, c)
    requires c'.brk == c.brk && c'.cont == c.cont && SubMap(c.arms, c'.arms)
    ensures IfTail(g', lm', id, t, f, w, q, c')
    decreases w, 0
  {
    ForksMono(g, g', w.fb, id, w.yes, w.no);
    StepMono(g, g', w.yes, if Bypassed(t) then q else w.tin);
    MatchSMono(g, g', lm, lm', t, w.thn, w.tin, q, c, c');
    if f.Some? {
      StepMono(g, g', w.no, if Bypassed(f.value) then q else w.ein);
      MatchSMono(g, g', lm, lm', f.value, w.els, w.ein, q, c, c');
    }
  }

  lemma {:induction false} SwitchTailMono(g: Graph, g': Graph, lm: map<Id, nat>, lm': map<Id, nat>,
                                          id: Id, body: Stmt, w: StmtWit, q: Pos, c: Ctx, c': Ctx)
    requires Extends(g, g') && SubMap(lm, lm') && w.SwitchW? && SwitchTail(g, lm, id, body, w, q, c)
    requires c'.brk == c.brk && c'.cont == c.cont
    ensures SwitchTail(g', lm', id, body, w, q, c')
    decreases w, 0
  {
    StepMono(g, g', q, q);
    assert Grows(g[w.fb], g'[w.fb]);
    var bc := Ctx(Some(q.b), c.cont, w.arms);
    MatchSMono(g, g', lm, lm', body, w.sub, w.bin, q, bc, bc);
    var succs := g[w.fb].succs;
    CasesLinkedMono(g, g', succs[..|succs| - 1], w.arms);
  }

  lemma CasesLinkedMono(g: Graph, g': Graph, cases: seq<nat>, arms: map<Target, nat>)
    requires Extends(g, g') && CasesLinked(g, cases, arms)
    ensures CasesLinked(g', cases, arms)
  {
    forall j | 0 <= j < |cases|
      ensures CaseOk(g', cases[j], arms)
    {
      assert CaseOk(g, cases[j], arms) && Grows(g[cases[j]], g'[cases[j]]);
    }
    forall t | t in arms && t.ToCase?
      ensures ArmOk(g', cases, arms, t)
    {
      assert ArmOk(g, cases, arms, t) && Grows(g[arms[t]], g'[arms[t]]);
    }
  }

  lemma {:induction false} MatchLMono(g: Graph, g': Graph, lm: map<Id, nat>, lm': map<Id, nat>,
                                      ss: seq<Stmt>, w: ListWit, p: Pos, q: Pos, c: Ctx, c': Ctx)
    requires Extends(g, g') && SubMap(lm, lm') && MatchL(g, lm, ss, w, p, q, c)
    requires c'.brk == c.brk && c'.cont == c.cont && SubMap(c.arms, c'.arms)
    ensures MatchL(g', lm', ss, w, p, q, c')
    decreases w
  {
    if ss != [] {
      MatchSMono(g, g', lm, lm', ss[0], w.first, p, w.mid, c, c');
      MatchLMono(g, g', lm, lm', ss[1..], w.rest, w.mid, q, c, c');
    }
  }

  lemma {:induction false} LoopMono(g: Graph, g': Graph, lm: map<Id, nat>, lm': map<Id, nat>,
                                    s: Stmt, w: StmtWit, q: Pos, c: Ctx, c': Ctx)
    requires IsLoop(s) && w.LoopW?
    requires Extends(g, g') && SubMap(lm, lm') && LoopOk(g, lm, s, w, q, c)
    requires SubMap(c.arms, c'.arms)
    ensures LoopOk(g', lm', s, w, q, c')
    decreases w, 0
  {
    var inc, cond := IncOf(s), CondOf(s);
    StepMono(g, g', w.next, w.next);
    if inc.Some? {
      MatchEMono(g, g', inc.value, w.inc, true, w.next, w.incEnd);
      StepMono(g, g', w.incEnd, w.head);
    }
    ForksMono(g, g', w.fb, s.id, w.yes, q);
    StepMono(g, g', w.yes, if Bypassed(s.sub) then w.head else w.bin);
    if cond.Some? { MatchEMono(g, g', cond.value, w.e, true, w.head, Pos(w.fb, 0)); }
    MatchSMono(g, g', lm, lm', s.sub, w.sub, w.bin, w.next,
               Ctx(Some(q.b), Some(w.next.b), c.arms), Ctx(Some(q.b), Some(w.next.b), c'.arms));
  }
}
