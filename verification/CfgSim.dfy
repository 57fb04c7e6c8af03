/**
  A graph that implements a program has exactly the behaviours of that program.

  Every unit of work of the program's semantics is matched by a stretch of graph, so one
  induction over the behaviour and the remaining work proves both directions at once.
 */
module CfgSim {
  import opened Options
  import opened CfgSyntax
  import opened CfgGraph
  import opened CfgMatch

  // ---------------------------------------------------------------- finished graphs

  ghost predicate InOrder(elems: seq<Id>, rev: seq<Id>) {
    |elems| == |rev| && forall i :: 0 <= i < |rev| ==> elems[i] == rev[|rev| - 1 - i]
  }

  ghost predicate Finished(d: Draft, b: Block) {
    d.sealed && b.term == d.term && b.succs == d.succs && b.mark == d.mark && InOrder(b.elems, d.rev)
  }

  ghost predicate GotoLinked(d: Draft, lm: map<Id, nat>) {
    d.term.Going? ==> d.succs == (if d.term.dest in lm then [lm[d.term.dest]] else [])
  }

  /** bs is the graph of which g is the draft, with its gotos linked through lm. */
  ghost predicate Built(bs: seq<Block>, g: Graph, lm: map<Id, nat>) {
    && |bs| == |g| > EXIT
    && g[EXIT].rev == [] && g[EXIT].term == NoTerm
    && (forall b {:trigger Finished(g[b], bs[b])} :: 0 <= b < |g| ==> Finished(g[b], bs[b]))
    && (forall b {:trigger GotoLinked(g[b], lm)} :: 0 <= b < |g| ==> GotoLinked(g[b], lm))
  }

  const TopLevel := Ctx(None, None, map[])

  /** The whole program is implemented from p to the exit. */
  ghost predicate Whole(g: Graph, lm: map<Id, nat>, root: Stmt, w: StmtWit, p: Pos) {
    && MatchS(g, lm, root, w, p, Pos(EXIT, 0), TopLevel)
    && forall l :: l in lm <==> ToLabel(l) in Labels(root)
  }

  ghost predicate At(bs: seq<Block>, p: Pos, tr: seq<Event>) {
    || tr == []
    || (p.b < |bs| && p.r <= |bs[p.b].elems| && Walk(bs, p.b, |bs[p.b].elems| - p.r, tr))
  }

  lemma AtGoes(bs: seq<Block>, g: Graph, lm: map<Id, nat>, p: Pos, q: Pos, tr: seq<Event>)
    requires Built(bs, g, lm) && Goes(g, p, q)
    ensures At(bs, p, tr) <==> At(bs, q, tr)
  {
    if p != q {
      assert Finished(g[p.b], bs[p.b]) && Finished(g[q.b], bs[q.b]);
      WalkFall(bs, p.b, tr);
    }
  }

  lemma AtElem(bs: seq<Block>, g: Graph, lm: map<Id, nat>, p: Pos, q: Pos, id: Id, tr: seq<Event>)
    requires Built(bs, g, lm) && IsElem(g, p, q, id) && tr != []
    ensures At(bs, p, tr) <==> tr[0] == Elem(id) && At(bs, q, tr[1..])
  {
    assert Finished(g[p.b], bs[p.b]);
    var i := |bs[p.b].elems| - p.r;
    assert bs[p.b].elems[i] == id;
    WalkElem(bs, p.b, i, tr);
    if tr[1..] == [] { assert Steps(bs, p.b, i + 1, tr[1..], 0); }
  }

  lemma AtFork(bs: seq<Block>, g: Graph, lm: map<Id, nat>, b: nat, id: Id, yes: Pos, no: Pos, tr: seq<Event>)
    requires Built(bs, g, lm) && Forks(g, b, id, yes, no) && tr != []
    ensures At(bs, Pos(b, 0), tr) <==>
            tr[0].Branch? && tr[0].id == id && At(bs, if tr[0].taken then yes else no, tr[1..])
  {
    assert Finished(g[b], bs[b]) && Finished(g[yes.b], bs[yes.b]) && Finished(g[no.b], bs[no.b]);
    WalkBranch(bs, b, tr);
    if tr[1..] == [] { assert Steps(bs, yes.b, 0, tr[1..], 0) && Steps(bs, no.b, 0, tr[1..], 0); }
  }

  lemma AtJump(bs: seq<Block>, g: Graph, lm: map<Id, nat>, p: Pos, to: Option<nat>, tr: seq<Event>)
    requires Built(bs, g, lm) && tr != []
    requires p.b < |g| && p.r == 0 && (g[p.b].term.Jumping? || g[p.b].term.Going?)
    requires g[p.b].succs == (if to.Some? then [to.value] else [])
    requires to.Some? ==> to.value < |g| && g[to.value].sealed
    ensures At(bs, p, tr) <==>
            && tr[0] == Jump(g[p.b].term.id)
            && if to.Some? then At(bs, Entry(g, to.value), tr[1..]) else |tr| == 1
  {
    assert Finished(g[p.b], bs[p.b]);
    WalkJump(bs, p.b, tr);
    if to.Some? {
      assert Finished(g[to.value], bs[to.value]);
      if tr[1..] == [] { assert Steps(bs, to.value, 0, tr[1..], 0); }
    }
  }

  lemma AtExit(bs: seq<Block>, g: Graph, lm: map<Id, nat>, tr: seq<Event>)
    requires Built(bs, g, lm)
    ensures At(bs, Pos(EXIT, 0), tr) <==> tr == [] || tr == [Halt]
  {
    assert Finished(g[EXIT], bs[EXIT]);
    if tr == [Halt] { assert Steps(bs, EXIT, 0, tr, 1); }
  }

  // ---------------------------------------------------------------- matched continuations

  datatype WorkWit = NoWit | EWit(e: ExprWit) | AWit(a: ArgsWit) | SWit(s: StmtWit) | LWit(l: ListWit)

  /** Where each unit of work of a continuation ends, and where and in which context the next begins. */
  datatype Ann = AStop | ACons(w: WorkWit, q: Pos, n: Pos, c: Ctx, rest: Ann)

  ghost predicate MatchW(g: Graph, lm: map<Id, nat>, work: Work, w: WorkWit, p: Pos, q: Pos, c: Ctx) {
    match work
    case WElem(id) => IsElem(g, p, q, id)
    case WExpr(e, always) => w.EWit? && MatchE(g, e, w.e, always, p, q)
    case WArgs(args) => w.AWit? && MatchArgs(g, args, w.a, p, q)
    case WLogical(id, isOr, r) =>
      w.EWit? && w.e.ForkW? && p == Pos(w.e.fb, 0) && LogicalTail(g, id, isOr, r, w.e, q)
    case WConditional(id, l, r) =>
      w.EWit? && w.e.ForkW? && p == Pos(w.e.fb, 0) && ConditionalTail(g, id, l, r, w.e, q)
    case WStmt(s) => w.SWit? && MatchS(g, lm, s, w.s, p, q, c)
    case WStmts(ss) => w.LWit? && MatchL(g, lm, ss, w.l, p, q, c)
    case WIf(id, t, f) => w.SWit? && w.s.IfW? && p == Pos(w.s.fb, 0) && IfTail(g, lm, id, t, f, w.s, q, c)
    case WTest(s) => w.SWit? && w.s.LoopW? && IsLoop(s) && p == Pos(w.s.fb, 0) && LoopOk(g, lm, s, w.s, q, c)
    case WSelect(id, body) =>
      w.SWit? && w.s.SwitchW? && p == Pos(w.s.fb, 0) && SwitchTail(g, lm, id, body, w.s, q, c)
    case _ => false
  }

  predicate OfExpr(w: Work) {
    w.WElem? || w.WExpr? || w.WArgs? || w.WLogical? || w.WConditional?
  }

  ghost predicate MatchK(g: Graph, lm: map<Id, nat>, k: Kont, a: Ann, p: Pos, c: Ctx)
    decreases k
  {
    match k
    case Stop => a.AStop? && p == Pos(EXIT, 0) && c.brk.None? && c.cont.None?
    case Then(work, rest) =>
      && a.ACons?
      && (match work
          case WNext(s) =>
            && IsLoop(s) && a.w.SWit? && a.w.s.LoopW? && LoopOk(g, lm, s, a.w.s, a.q, a.c)
            && p == a.w.s.next && c.brk == Some(a.q.b) && c.cont == Some(p.b) && a.n == a.q
          case WEndSwitch =>
            Closed(g, p) && c.brk == Some(p.b) && c.cont == a.c.cont && a.n == p
          case _ =>
            && a.c == c && MatchW(g, lm, work, a.w, p, a.q, c)
            && (if OfExpr(work) then Goes(g, a.q, a.n) else a.q == a.n))
      && MatchK(g, lm, rest, a.rest, a.n, a.c)
  }

  lemma MatchKBreak(g: Graph, lm: map<Id, nat>, k: Kont, a: Ann, p: Pos, c: Ctx) returns (a': Ann, c': Ctx)
    requires MatchK(g, lm, k, a, p, c)
    ensures BreakTo(k).Some? <==> c.brk.Some?
    ensures c.brk.Some? ==> c.brk.value < |g| && g[c.brk.value].sealed
    ensures c.brk.Some? ==> MatchK(g, lm, BreakTo(k).value, a', Entry(g, c.brk.value), c')
    decreases k
  {
    a', c' := a, c;
    if k.Then? {
      if k.work.WNext? || k.work.WEndSwitch? {
        a', c' := a.rest, a.c;
      } else {
        a', c' := MatchKBreak(g, lm, k.rest, a.rest, a.n, a.c);
      }
    }
  }

  lemma MatchKContinue(g: Graph, lm: map<Id, nat>, k: Kont, a: Ann, p: Pos, c: Ctx) returns (a': Ann, c': Ctx)
    requires MatchK(g, lm, k, a, p, c)
    ensures ContinueTo(k).Some? <==> c.cont.Some?
    ensures c.cont.Some? ==> c.cont.value < |g| && g[c.cont.value].sealed
    ensures c.cont.Some? ==> MatchK(g, lm, ContinueTo(k).value, a', Entry(g, c.cont.value), c')
    decreases k
  {
    a', c' := a, c;
    if k.Then? && !k.work.WNext? {
      a', c' := MatchKContinue(g, lm, k.rest, a.rest, a.n, a.c);
    }
  }

  // ---------------------------------------------------------------- named places

  lemma {:induction false} FindSome(s: Stmt, t: Target, k: Kont)
    ensures Find(s, t, k).Some? <==> if t.ToLabel? then t in Labels(s) else t in Arms(s)
    decreases s
  {
    hide FindIn, LabelsIn, ArmsIn, IsLoop;
    match s
    case Compound(body) => FindInSome(body, t, k);
    case If(_, _, thn, els) =>
      FindSome(thn, t, k);
      if els.Some? { FindSome(els.value, t, k); }
    case While(_, _, sub) => FindSome(sub, t, Then(WNext(s), k));
    case Do(_, sub, _) => FindSome(sub, t, Then(WNext(s), k));
    case For(_, _, _, _, sub) => FindSome(sub, t, Then(WNext(s), k));
    case Switch(_, _, sub) => FindSome(sub, t, Then(WEndSwitch, k));
    case Case(_, _) => FindMarkSome(s, t, k);
    case Default(_, _) => FindMarkSome(s, t, k);
    case Label(_, _) => FindMarkSome(s, t, k);
    case _ =>
  }

  lemma {:induction false} FindMarkSome(s: Stmt, t: Target, k: Kont)
    requires s.Case? || s.Default? || s.Label?
    ensures Find(s, t, k).Some? <==> if t.ToLabel? then t in Labels(s) else t in Arms(s)
    decreases s, 0
  {
    var here := if s.Case? then ToCase(s.id) else if s.Default? then ToDefault else ToLabel(s.id);
    assert Find(s, t, k) == if t == here then Some(Then(WStmt(s.sub), k)) else Find(s.sub, t, k);
    assert s.Label? ==> Labels(s) == Labels(s.sub) + multiset{here} && Arms(s) == Arms(s.sub);
    assert !s.Label? ==> Arms(s) == Arms(s.sub) + multiset{here} && Labels(s) == Labels(s.sub);
    hide Find, Labels, Arms;
    FindSome(s.sub, t, k);
    InPlus(if s.Label? then Labels(s.sub) else Arms(s.sub), here, t);
  }

  lemma InPlus(m: multiset<Target>, x: Target, t: Target)
    ensures t in m + multiset{x} <==> t in m || t == x
  {
  }

  lemma {:induction false} FindInSome(ss: seq<Stmt>, t: Target, k: Kont)
    ensures FindIn(ss, t, k).Some? <==> if t.ToLabel? then t in LabelsIn(ss) else t in ArmsIn(ss)
    decreases ss
  {
    if ss != [] {
      FindSome(ss[0], t, Then(WStmts(ss[1..]), k));
      FindInSome(ss[1..], t, k);
    }
  }

  ghost predicate Landed(g: Graph, lm: map<Id, nat>, t: Target, c: Ctx, b: nat) {
    && b < |g| && g[b].sealed
    && (if t.ToLabel? then t.id in lm && lm[t.id] == b else t in c.arms && c.arms[t] == b)
  }

  /** The place found by name is where the graph's block for that name begins. */
  lemma {:induction false} FindMatch(g: Graph, lm: map<Id, nat>, s: Stmt, w: StmtWit, p: Pos, q: Pos, c: Ctx,
                                     t: Target, k: Kont, a: Ann)
    returns (b: nat, a': Ann, p': Pos, c': Ctx)
    requires MatchS(g, lm, s, w, p, q, c) && MatchK(g, lm, k, a, q, c) && Find(s, t, k).Some?
    ensures Landed(g, lm, t, c, b) && Goes(g, Entry(g, b), p')
    ensures MatchK(g, lm, Find(s, t, k).value, a', p', c')
    decreases s
  {
    hide MatchE, MatchArgs, LoopOk, MatchW, Forks, ArmsLinked, Goes, FindIn, MatchL;
    match s
    case Compound(body) => b, a', p', c' := FindInMatch(g, lm, body, w.list, p, q, c, t, k, a);
    case If(_, _, thn, els) =>
      if Find(thn, t, k).Some? {
        b, a', p', c' := FindMatch(g, lm, thn, w.thn, w.tin, q, c, t, k, a);
      } else {
        b, a', p', c' := FindMatch(g, lm, els.value, w.els, w.ein, q, c, t, k, a);
      }
    case While(_, _, _) => b, a', p', c' := FindLoopMatch(g, lm, s, w, q, c, t, k, a);
    case Do(_, _, _) => b, a', p', c' := FindLoopMatch(g, lm, s, w, q, c, t, k, a);
    case For(_, _, _, _, _) => b, a', p', c' := FindLoopMatch(g, lm, s, w, q, c, t, k, a);
    case Switch(_, _, _) => b, a', p', c' := FindSwitchMatch(g, lm, s, w, p, q, c, t, k, a);
    case Case(id, sub) => b, a', p', c' := FindMarkMatch(g, lm, s, w, p, q, c, t, k, a);
    case Default(id, sub) => b, a', p', c' := FindMarkMatch(g, lm, s, w, p, q, c, t, k, a);
    case Label(id, sub) => b, a', p', c' := FindMarkMatch(g, lm, s, w, p, q, c, t, k, a);
  }

  lemma {:induction false} FindSwitchMatch(g: Graph, lm: map<Id, nat>, s: Stmt, w: StmtWit, p: Pos, q: Pos, c: Ctx,
                                           t: Target, k: Kont, a: Ann)
    returns (b: nat, a': Ann, p': Pos, c': Ctx)
    requires s.Switch? && MatchS(g, lm, s, w, p, q, c) && MatchK(g, lm, k, a, q, c) && Find(s, t, k).Some?
    ensures Landed(g, lm, t, c, b) && Goes(g, Entry(g, b), p')
    ensures MatchK(g, lm, Find(s, t, k).value, a', p', c')
    decreases s, 0
  {
    hide MatchE, ArmsLinked, Goes;
    b, a', p', c' := FindMatch(g, lm, s.sub, w.sub, w.bin, q, Ctx(Some(q.b), c.cont, w.arms),
                               t, Then(WEndSwitch, k), ACons(NoWit, q, q, c, a));
  }

  lemma {:induction false} FindMarkMatch(g: Graph, lm: map<Id, nat>, s: Stmt, w: StmtWit, p: Pos, q: Pos, c: Ctx,
                                         t: Target, k: Kont, a: Ann)
    returns (b: nat, a': Ann, p': Pos, c': Ctx)
    requires s.Case? || s.Default? || s.Label?
    requires MatchS(g, lm, s, w, p, q, c) && MatchK(g, lm, k, a, q, c) && Find(s, t, k).Some?
    ensures Landed(g, lm, t, c, b) && Goes(g, Entry(g, b), p')
    ensures MatchK(g, lm, Find(s, t, k).value, a', p', c')
    decreases s, 0
  {
    var here := if s.Case? then ToCase(s.id) else if s.Default? then ToDefault else ToLabel(s.id);
    if t == here {
      b, a', p', c' := p.b, ACons(SWit(w.sub), q, q, c, a), w.bin, c;
    } else {
      b, a', p', c' := FindMatch(g, lm, s.sub, w.sub, w.bin, q, c, t, k, a);
    }
  }

  lemma {:induction false} FindLoopMatch(g: Graph, lm: map<Id, nat>, s: Stmt, w: StmtWit, q: Pos, c: Ctx,
                                         t: Target, k: Kont, a: Ann)
    returns (b: nat, a': Ann, p': Pos, c': Ctx)
    requires IsLoop(s) && w.LoopW? && LoopOk(g, lm, s, w, q, c)
    requires MatchK(g, lm, k, a, q, c) && Find(s, t, k).Some?
    ensures Landed(g, lm, t, c, b) && Goes(g, Entry(g, b), p')
    ensures MatchK(g, lm, Find(s, t, k).value, a', p', c')
    decreases s, 0
  {
    var a1 := ACons(SWit(w), q, q, c, a);
    b, a', p', c' := FindMatch(g, lm, s.sub, w.sub, w.bin, w.next, Ctx(Some(q.b), Some(w.next.b), c.arms),
                               t, Then(WNext(s), k), a1);
  }

  lemma {:induction false} FindInMatch(g: Graph, lm: map<Id, nat>, ss: seq<Stmt>, w: ListWit, p: Pos, q: Pos, c: Ctx,
                                       t: Target, k: Kont, a: Ann)
    returns (b: nat, a': Ann, p': Pos, c': Ctx)
    requires MatchL(g, lm, ss, w, p, q, c) && MatchK(g, lm, k, a, q, c) && FindIn(ss, t, k).Some?
    ensures Landed(g, lm, t, c, b) && Goes(g, Entry(g, b), p')
    ensures MatchK(g, lm, FindIn(ss, t, k).value, a', p', c')
    decreases ss
  {
    var k1 := Then(WStmts(ss[1..]), k);
    if Find(ss[0], t, k1).Some? {
      var a1 := ACons(LWit(w.rest), q, q, c, a);
      b, a', p', c' := FindMatch(g, lm, ss[0], w.first, p, w.mid, c, t, k1, a1);
    } else {
      b, a', p', c' := FindInMatch(g, lm, ss[1..], w.rest, w.mid, q, c, t, k, a);
    }
  }

  // ---------------------------------------------------------------- single moves

  lemma ExprMatch(g: Graph, lm: map<Id, nat>, e: Expr, always: bool, rest: Kont, a: Ann, p: Pos, c: Ctx)
    returns (a': Ann)
    requires MatchK(g, lm, Then(WExpr(e, always), rest), a, p, c)
    ensures MatchK(g, lm, ExprWork(e, always, rest), a', p, c)
  {
    hide MatchArgs, LogicalTail, ConditionalTail, IsElem, MatchS;
    var w := a.w.e;
    match e
    case Op(_, _) =>
      a' := if always then ACons(AWit(w.args), w.mid, w.mid, c, ACons(NoWit, a.q, a.n, c, a.rest))
            else ACons(AWit(w.args), a.q, a.n, c, a.rest);
    case Paren(_) => a' := ACons(EWit(w.sub), a.q, a.n, c, a.rest);
    case Comma(_, _, _) =>
      var a1 := ACons(EWit(w.rhs), w.m2, w.m2, c, ACons(NoWit, a.q, a.n, c, a.rest));
      assert MatchK(g, lm, Then(WExpr(e.rhs, true), Then(WElem(e.id), rest)), a1, w.m1, c);
      a' := ACons(EWit(w.lhs), w.m1, w.m1, c, a1);
    case _ => a' := ACons(EWit(w.first), Pos(w.fb, 0), Pos(w.fb, 0), c, ACons(EWit(w), a.q, a.n, c, a.rest));
  }

  /** Pushing the optional expression e in front of k, which begins at m. */
  function PushAnn(e: Option<Expr>, w: ExprWit, end: Pos, m: Pos, c: Ctx, a: Ann): Ann {
    if e.Some? then ACons(EWit(w), end, m, c, a) else a
  }

  lemma LoopMatch(g: Graph, lm: map<Id, nat>, s: Stmt, w: StmtWit, rest: Kont, a: Ann, q: Pos, c: Ctx)
    returns (a': Ann)
    requires IsLoop(s) && w.LoopW? && LoopOk(g, lm, s, w, q, c) && MatchK(g, lm, rest, a, q, c)
    ensures MatchK(g, lm, HeadWork(s, rest), a', w.head, c)
  {
    var f := Pos(w.fb, 0);
    a' := PushAnn(CondOf(s), w.e, f, f, c, ACons(SWit(w), q, q, c, a));
    assert MatchK(g, lm, Then(WTest(s), rest), ACons(SWit(w), q, q, c, a), f, c);
  }

  lemma LoopStmtMatch(g: Graph, lm: map<Id, nat>, s: Stmt, rest: Kont, a: Ann, p: Pos, c: Ctx)
    returns (a': Ann, p': Pos, c': Ctx)
    requires MatchK(g, lm, Then(WStmt(s), rest), a, p, c) && IsLoop(s)
    ensures MatchK(g, lm, StmtWork(AsBuilt, s, rest), a', p', c') && Goes(g, p, p')
  {
    hide MatchE, MatchArgs, Forks;
    var w := a.w.s;
    if s.Do? && Bypassed(s.sub) {
      p', c' := w.head, c;
      a' := LoopMatch(g, lm, s, w, rest, a.rest, a.q, c);
    } else if s.Do? {
      p', c' := w.bin, Ctx(Some(a.q.b), Some(w.next.b), c.arms);
      var a1 := ACons(SWit(w), a.q, a.q, c, a.rest);
      assert MatchK(g, lm, Then(WNext(s), rest), a1, w.next, c');
      a' := ACons(SWit(w.sub), w.next, w.next, c', a1);
    } else {
      p', c' := p, c;
      a' := LoopMatch(g, lm, s, w, rest, a.rest, a.q, c);
      if s.For? { a' := PushAnn(s.init, w.init, w.initEnd, w.head, c, a'); }
    }
  }

  lemma MarkStmtMatch(g: Graph, lm: map<Id, nat>, s: Stmt, rest: Kont, a: Ann, p: Pos, c: Ctx)
    returns (a': Ann, p': Pos)
    requires MatchK(g, lm, Then(WStmt(s), rest), a, p, c) && (s.Case? || s.Default? || s.Label?)
    ensures MatchK(g, lm, StmtWork(AsBuilt, s, rest), a', p', c) && Goes(g, p, p')
  {
    var w := a.w.s;
    a', p' := ACons(SWit(w.sub), a.q, a.n, c, a.rest), w.bin;
    assert MatchS(g, lm, s.sub, w.sub, p', a.q, c);
  }

  lemma ReturnStmtMatch(g: Graph, lm: map<Id, nat>, s: Stmt, rest: Kont, a: Ann, p: Pos, c: Ctx) returns (a': Ann)
    requires MatchK(g, lm, Then(WStmt(s), rest), a, p, c) && s.Return?
    ensures MatchK(g, lm, StmtWork(AsBuilt, s, rest), a', p, TopLevel)
  {
    hide MatchArgs, OptionArgs;
    var w := a.w.s;
    var a1 := ACons(NoWit, Pos(w.mid.b, 0), Pos(EXIT, 0), TopLevel, AStop);
    assert MatchK(g, lm, Then(WElem(s.id), Stop), a1, w.mid, TopLevel);
    a' := ACons(AWit(w.args), w.mid, w.mid, TopLevel, a1);
  }

  lemma StmtMatch(g: Graph, lm: map<Id, nat>, s: Stmt, rest: Kont, a: Ann, p: Pos, c: Ctx)
    returns (a': Ann, p': Pos, c': Ctx)
    requires MatchK(g, lm, Then(WStmt(s), rest), a, p, c) && !IsJump(s)
    ensures MatchK(g, lm, StmtWork(AsBuilt, s, rest), a', p', c') && Goes(g, p, p')
  {
    hide LoopOk, IfTail, SwitchTail, MatchE, MatchL, MatchArgs, Forks, HeadWork, BodyWork, PushExpr, OptionArgs, IsElem;
    var w := a.w.s;
    p', c' := p, c;
    match s
    case Null => a' := a.rest;
    case Eval(_) => a' := ACons(EWit(w.e), w.end, a.n, c, a.rest);
    case Compound(_) => a' := ACons(LWit(w.list), a.q, a.n, c, a.rest);
    case If(_, _, _, _) =>
      a' := ACons(EWit(w.e), Pos(w.fb, 0), Pos(w.fb, 0), c, ACons(SWit(w), a.q, a.n, c, a.rest));
    case Switch(_, _, _) =>
      a' := ACons(EWit(w.e), Pos(w.fb, 0), Pos(w.fb, 0), c, ACons(SWit(w), a.q, a.n, c, a.rest));
    case Return(_, _) =>
      c' := TopLevel;
      a' := ReturnStmtMatch(g, lm, s, rest, a, p, c);
    case While(_, _, _) => a', p', c' := LoopStmtMatch(g, lm, s, rest, a, p, c);
    case Do(_, _, _) => a', p', c' := LoopStmtMatch(g, lm, s, rest, a, p, c);
    case For(_, _, _, _, _) => a', p', c' := LoopStmtMatch(g, lm, s, rest, a, p, c);
    case Case(_, _) => a', p' := MarkStmtMatch(g, lm, s, rest, a, p, c);
    case Default(_, _) => a', p' := MarkStmtMatch(g, lm, s, rest, a, p, c);
    case Label(_, _) => a', p' := MarkStmtMatch(g, lm, s, rest, a, p, c);
  }

  /** Where the two edges of a decision lead. */
  function Edges(work: Work, a: Ann): (Pos, Pos)
    requires a.ACons?
  {
    match a.w
    case EWit(ForkW(_, _, _, lin, _, _, rin, _, join)) =>
      if work.WLogical? then (if work.isOr then (join, rin) else (rin, join)) else (lin, rin)
    case SWit(IfW(_, _, yes, _, _, no, _, _)) => (yes, no)
    case SWit(LoopW(_, _, _, _, _, _, _, _, yes, _, _)) => (yes, a.q)
    case _ => (a.q, a.q)
  }

  predicate IsDecision(work: Work) {
    work.WLogical? || work.WConditional? || work.WIf? || (work.WTest? && IsLoop(work.loop))
  }

  function DecisionId(work: Work): Id
    requires IsDecision(work)
  {
    if work.WTest? then work.loop.id else work.id
  }

  /** The branches of an `if`, one of them perhaps bypassed. */
  lemma ArmMatch(g: Graph, lm: map<Id, nat>, id: Id, t: Stmt, f: Option<Stmt>, rest: Kont, a: Ann, p: Pos, c: Ctx,
                 taken: bool)
    returns (a': Ann, p': Pos)
    requires MatchK(g, lm, Then(WIf(id, t, f), rest), a, p, c)
    ensures Goes(g, if taken then a.w.s.yes else a.w.s.no, p')
    ensures MatchK(g, lm, BranchWork(AsBuilt, WIf(id, t, f), taken, rest), a', p', c)
  {
    hide MatchE, MatchArgs, MatchS, Forks, Goes, Bypassed;
    var w := a.w.s;
    assert IfTail(g, lm, id, t, f, w, a.q, c);
    if taken && !Bypassed(t) {
      a', p' := ACons(SWit(w.thn), a.q, a.n, c, a.rest), w.tin;
    } else if !taken && f.Some? && !Bypassed(f.value) {
      a', p' := ACons(SWit(w.els), a.q, a.n, c, a.rest), w.ein;
    } else {
      a', p' := a.rest, a.q;
      GoesSelf(g, a.q);
    }
  }

  lemma GoesSelf(g: Graph, p: Pos)
    ensures Goes(g, p, p)
  {
  }

  /** The body of a loop, perhaps bypassed. */
  lemma BodyMatch(g: Graph, lm: map<Id, nat>, s: Stmt, rest: Kont, a: Ann, p: Pos, c: Ctx)
    returns (a': Ann, p': Pos, c': Ctx)
    requires IsLoop(s) && MatchK(g, lm, Then(WTest(s), rest), a, p, c)
    ensures Goes(g, a.w.s.yes, p')
    ensures MatchK(g, lm, BodyWork(AsBuilt, s, rest), a', p', c')
  {
    hide MatchE, MatchArgs, MatchS, Forks, Goes, Bypassed;
    var w := a.w.s;
    if Bypassed(s.sub) {
      p', c' := w.head, c;
      a' := LoopMatch(g, lm, s, w, rest, a.rest, a.q, c);
    } else {
      p', c' := w.bin, Ctx(Some(a.q.b), Some(w.next.b), c.arms);
      var a1 := ACons(SWit(w), a.q, a.q, c, a.rest);
      assert MatchK(g, lm, Then(WNext(s), rest), a1, w.next, c');
      a' := ACons(SWit(w.sub), w.next, w.next, c', a1);
    }
  }

  lemma BranchMatch(g: Graph, lm: map<Id, nat>, work: Work, rest: Kont, a: Ann, p: Pos, c: Ctx, taken: bool)
    returns (a': Ann, p': Pos, c': Ctx)
    requires IsDecision(work) && MatchK(g, lm, Then(work, rest), a, p, c)
    ensures p.r == 0 && Forks(g, p.b, DecisionId(work), Edges(work, a).0, Edges(work, a).1)
    ensures Goes(g, if taken then Edges(work, a).0 else Edges(work, a).1, p')
    ensures MatchK(g, lm, BranchWork(AsBuilt, work, taken, rest), a', p', c')
  {
    hide MatchE, MatchArgs, MatchS, Forks;
    p', c' := if taken then Edges(work, a).0 else Edges(work, a).1, c;
    match work
    case WLogical(id, isOr, r) =>
      var w := a.w.e;
      a' := ACons(NoWit, a.q, a.n, c, a.rest);
      if taken != isOr { a' := ACons(EWit(w.rhs), w.rout, w.join, c, a'); }
    case WConditional(id, l, r) =>
      var w := a.w.e;
      a' := ACons(NoWit, a.q, a.n, c, a.rest);
      a' := if taken then ACons(EWit(w.lhs), w.lout, w.join, c, a') else ACons(EWit(w.rhs), w.rout, w.join, c, a');
    case WIf(id, t, f) =>
      a', p' := ArmMatch(g, lm, id, t, f, rest, a, p, c, taken);
    case WTest(s) =>
      if taken { a', p', c' := BodyMatch(g, lm, s, rest, a, p, c); } else { a' := a.rest; }
  }

  /** The arm of a switch that an event selects. */
  lemma {:induction false} AtSelect(bs: seq<Block>, g: Graph, lm: map<Id, nat>, id: Id, body: Stmt, w: StmtWit, q: Pos, c: Ctx,
                 tr: seq<Event>)
    requires Built(bs, g, lm) && w.SwitchW? && SwitchTail(g, lm, id, body, w, q, c) && tr != []
    requires forall t :: t in w.arms && !t.ToLabel? ==> w.arms[t] < |g| && g[w.arms[t]].sealed
    ensures At(bs, Pos(w.fb, 0), tr) <==>
            && tr[0].Select? && tr[0].id == id
            && if tr[0].arm in w.arms && !tr[0].arm.ToLabel? then At(bs, Entry(g, w.arms[tr[0].arm]), tr[1..])
               else tr[0].arm.ToDefault? && At(bs, q, tr[1..])
  {
    var succs := g[w.fb].succs;
    var last := |succs| - 1;
    assert Finished(g[w.fb], bs[w.fb]) && Finished(g[q.b], bs[q.b]);
    if tr[0].Select? && tr[0].id == id {
      if tr[0].arm.ToDefault? {
        assert tr[0] == Select(id, ToDefault);
        WalkDefault(bs, w.fb, tr);
        var to := if ToDefault in w.arms then Entry(g, w.arms[ToDefault]) else q;
        assert to.b == succs[last] && Finished(g[to.b], bs[to.b]);
        if tr[1..] == [] { assert Steps(bs, to.b, 0, tr[1..], 0); }
      } else if tr[0].arm.ToCase? {
        forall j | 0 <= j < last
          ensures Leads(bs, succs[j], tr[0].arm.id) ==> tr[0].arm in w.arms && w.arms[tr[0].arm] == succs[j]
        {
          assert succs[..last][j] == succs[j] && CaseOk(g, succs[..last][j], w.arms);
          if succs[j] < |bs| { assert Finished(g[succs[j]], bs[succs[j]]); }
        }
        if tr[0].arm in w.arms {
          var b := w.arms[tr[0].arm];
          assert ArmOk(g, succs[..last], w.arms, tr[0].arm);
          assert Finished(g[b], bs[b]);
          var j: nat :| j < last && succs[..last][j] == b;
          WalkCase(bs, w.fb, j, tr);
          if tr[1..] == [] { assert Steps(bs, b, 0, tr[1..], 0); }
        }
      }
    }
  }

  // ---------------------------------------------------------------- the simulation

  /** A finished graph together with the evidence that it implements a program. */
  datatype Image = Image(bs: seq<Block>, g: Graph, lm: map<Id, nat>, root: Stmt, w: StmtWit, p: Pos)

  ghost predicate Faithful(im: Image) {
    Built(im.bs, im.g, im.lm) && Whole(im.g, im.lm, im.root, im.w, im.p)
  }

  /** Where the jump s at p leads, in the graph and in the program alike. */
  lemma JumpMatch(im: Image, s: Stmt, rest: Kont, a: Ann, p: Pos, c: Ctx)
    returns (to: Option<nat>, a': Ann, p': Pos, c': Ctx)
    requires Faithful(im) && IsJump(s) && MatchK(im.g, im.lm, Then(WStmt(s), rest), a, p, c)
    ensures p.b < |im.g| && p.r == 0
    ensures (im.g[p.b].term.Jumping? || im.g[p.b].term.Going?) && im.g[p.b].term.id == s.id
    ensures im.g[p.b].succs == (if to.Some? then [to.value] else [])
    ensures to.Some? <==> JumpTo(im.root, s, rest).Some?
    ensures to.Some? ==> to.value < |im.g| && im.g[to.value].sealed && Goes(im.g, Entry(im.g, to.value), p')
    ensures to.Some? ==> MatchK(im.g, im.lm, JumpTo(im.root, s, rest).value, a', p', c')
  {
    hide MatchE, MatchArgs, LoopOk;
    match s
    case Break(id) =>
      to := c.brk;
      a', c' := MatchKBreak(im.g, im.lm, rest, a.rest, a.n, c);
      p' := if to.Some? then Entry(im.g, to.value) else p;
    case Continue(id) =>
      to := c.cont;
      a', c' := MatchKContinue(im.g, im.lm, rest, a.rest, a.n, c);
      p' := if to.Some? then Entry(im.g, to.value) else p;
    case Goto(id, l) =>
      assert GotoLinked(im.g[p.b], im.lm);
      FindSome(im.root, ToLabel(l), Stop);
      a', p', c' := AStop, p, c;
      to := None;
      if l in im.lm {
        var b;
        b, a', p', c' := FindMatch(im.g, im.lm, im.root, im.w, im.p, Pos(EXIT, 0), TopLevel, ToLabel(l), Stop, AStop);
        to := Some(b);
      }
  }

  lemma {:induction false} Simulation(im: Image, k: Kont, a: Ann, p: Pos, c: Ctx, tr: seq<Event>)
    requires Faithful(im) && MatchK(im.g, im.lm, k, a, p, c)
    ensures Run(AsBuilt, im.root, k, tr) <==> At(im.bs, p, tr)
    decreases |tr|, KSize(k)
  {
    hide MatchE, MatchS, MatchArgs, LoopOk, IfTail, SwitchTail, LogicalTail, ConditionalTail, Goes, IsElem, Built, Whole;
    if tr == [] { return; }
    match k
    case Stop => AtExit(im.bs, im.g, im.lm, tr);
    case Then(work, rest) =>
      if IsDecision(work) {
        SimulateDecision(im, k, a, p, c, tr);
      } else {
        match work
        case WElem(id) =>
          AtElem(im.bs, im.g, im.lm, p, a.q, id, tr);
          AtGoes(im.bs, im.g, im.lm, a.q, a.n, tr[1..]);
          Simulation(im, rest, a.rest, a.n, a.c, tr[1..]);
        case WExpr(e, always) =>
          var a' := ExprMatch(im.g, im.lm, e, always, rest, a, p, c);
          Simulation(im, ExprWork(e, always, rest), a', p, c, tr);
        case WArgs(args) => SimulateArgs(im, k, a, p, c, tr);
        case WStmt(s) => SimulateStmt(im, k, a, p, c, tr);
        case WStmts(ss) =>
          if ss == [] {
            Simulation(im, rest, a.rest, a.n, a.c, tr);
          } else {
            var w := a.w.l;
            Simulation(im, Push(WStmt(ss[0]), Push(WStmts(ss[1..]), rest)),
                       ACons(SWit(w.first), w.mid, w.mid, c, ACons(LWit(w.rest), a.q, a.n, c, a.rest)), p, c, tr);
          }
        case WNext(s) => SimulateNext(im, k, a, p, c, tr);
        case WSelect(id, body) => SimulateSelect(im, k, a, p, c, tr);
        case WEndSwitch => Simulation(im, rest, a.rest, a.n, a.c, tr);
      }
  }

  lemma {:induction false} SimulateDecision(im: Image, k: Kont, a: Ann, p: Pos, c: Ctx, tr: seq<Event>)
    requires Faithful(im) && MatchK(im.g, im.lm, k, a, p, c) && tr != [] && k.Then? && IsDecision(k.work)
    ensures Run(AsBuilt, im.root, k, tr) <==> At(im.bs, p, tr)
    decreases |tr|, KSize(k), 0
  {
    hide MatchE, MatchS, MatchArgs, LogicalTail, ConditionalTail, IfTail, LoopOk, MatchW, At, Forks, Goes, Built, Whole;
    var taken := tr[0].Branch? && tr[0].taken;
    var a', p', c' := BranchMatch(im.g, im.lm, k.work, k.rest, a, p, c, taken);
    var (yes, no) := Edges(k.work, a);
    AtFork(im.bs, im.g, im.lm, p.b, DecisionId(k.work), yes, no, tr);
    AtGoes(im.bs, im.g, im.lm, if taken then yes else no, p', tr[1..]);
    Simulation(im, BranchWork(AsBuilt, k.work, taken, k.rest), a', p', c', tr[1..]);
  }

  lemma {:induction false} SimulateArgs(im: Image, k: Kont, a: Ann, p: Pos, c: Ctx, tr: seq<Event>)
    requires Faithful(im) && MatchK(im.g, im.lm, k, a, p, c) && tr != [] && k.Then? && k.work.WArgs?
    ensures Run(AsBuilt, im.root, k, tr) <==> At(im.bs, p, tr)
    decreases |tr|, KSize(k), 0
  {
    var args, w := k.work.args, a.w.a;
    if args == [] {
      AtGoes(im.bs, im.g, im.lm, a.q, a.n, tr);
      Simulation(im, k.rest, a.rest, a.n, a.c, tr);
    } else {
      var n := |args| - 1;
      Simulation(im, Push(WExpr(args[n], false), Push(WArgs(args[..n]), k.rest)),
                 ACons(EWit(w.last), w.mid, w.mid, c, ACons(AWit(w.init), a.q, a.n, c, a.rest)), p, c, tr);
    }
  }

  lemma {:induction false} SimulateStmt(im: Image, k: Kont, a: Ann, p: Pos, c: Ctx, tr: seq<Event>)
    requires Faithful(im) && MatchK(im.g, im.lm, k, a, p, c) && tr != [] && k.Then? && k.work.WStmt?
    ensures Run(AsBuilt, im.root, k, tr) <==> At(im.bs, p, tr)
    decreases |tr|, KSize(k), 0
  {
    var s := k.work.s;
    if IsJump(s) {
      var to, a', p', c' := JumpMatch(im, s, k.rest, a, p, c);
      AtJump(im.bs, im.g, im.lm, p, to, tr);
      if to.Some? {
        AtGoes(im.bs, im.g, im.lm, Entry(im.g, to.value), p', tr[1..]);
        Simulation(im, JumpTo(im.root, s, k.rest).value, a', p', c', tr[1..]);
      }
    } else {
      var a', p', c' := StmtMatch(im.g, im.lm, s, k.rest, a, p, c);
      AtGoes(im.bs, im.g, im.lm, p, p', tr);
      Simulation(im, StmtWork(AsBuilt, s, k.rest), a', p', c', tr);
    }
  }

  lemma {:induction false} SimulateNext(im: Image, k: Kont, a: Ann, p: Pos, c: Ctx, tr: seq<Event>)
    requires Faithful(im) && MatchK(im.g, im.lm, k, a, p, c) && tr != [] && k.Then? && k.work.WNext?
    ensures Run(AsBuilt, im.root, k, tr) <==> At(im.bs, p, tr)
    decreases |tr|, KSize(k), 0
  {
    hide MatchE, MatchS, MatchArgs, Forks, At, Built, Whole;
    var s, w := k.work.loop, a.w.s;
    var a' := LoopMatch(im.g, im.lm, s, w, k.rest, a.rest, a.q, a.c);
    var inc, k' := IncOf(s), HeadWork(s, k.rest);
    Simulation(im, PushExpr(inc, k'), PushAnn(inc, w.inc, w.incEnd, w.head, a.c, a'), p, a.c, tr);
  }

  lemma {:induction false} SimulateSelect(im: Image, k: Kont, a: Ann, p: Pos, c: Ctx, tr: seq<Event>)
    requires Faithful(im) && MatchK(im.g, im.lm, k, a, p, c) && tr != [] && k.Then? && k.work.WSelect?
    ensures Run(AsBuilt, im.root, k, tr) <==> At(im.bs, p, tr)
    decreases |tr|, KSize(k), 0
  {
    hide MatchE, MatchS, MatchArgs, Built, At, Goes, ArmsLinked;
    var body, w, q := k.work.body, a.w.s, a.q;
    var c1, k1, a1 := Ctx(Some(q.b), c.cont, w.arms), Then(WEndSwitch, k.rest), ACons(NoWit, q, q, c, a.rest);
    assert MatchK(im.g, im.lm, k1, a1, q, c1);
    forall t | t in w.arms && !t.ToLabel?
      ensures w.arms[t] < |im.g| && im.g[w.arms[t]].sealed
    {
      FindSome(body, t, k1);
      var b, a', p', c' := FindMatch(im.g, im.lm, body, w.sub, w.bin, q, c1, t, k1, a1);
    }
    AtSelect(im.bs, im.g, im.lm, k.work.id, body, w, q, c, tr);
    if tr[0].Select? && tr[0].id == k.work.id && !tr[0].arm.ToLabel? {
      var t := tr[0].arm;
      FindSome(body, t, k1);
      if t in w.arms {
        var b, a', p', c' := FindMatch(im.g, im.lm, body, w.sub, w.bin, q, c1, t, k1, a1);
        AtGoes(im.bs, im.g, im.lm, Entry(im.g, b), p', tr[1..]);
        Simulation(im, Find(body, t, k1).value, a', p', c', tr[1..]);
      } else {
        Simulation(im, k.rest, a.rest, a.n, a.c, tr[1..]);
      }
    }
  }
}
