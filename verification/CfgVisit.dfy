/**
  What visiting a statement does to the builder's state, and how the visits of the parts
  of a statement add up to the visit of the whole.
 */
module CfgVisit {
  import opened Options
  import opened CfgSyntax
  import opened CfgGraph
  import opened CfgMatch
  import opened CfgSim
  import opened CfgDraft

  /**
    The visit of s on its own reports the block it leaves under construction.  What does
    not starts with `{}` before other code: the block of that code would be given up, with
    its elements in the wrong order.
   */
  predicate Keeps(s: Stmt) {
    Reports(s, false) || !BlockAfter(s, false)
  }

  /**
    Statements the builder is meant for: branches and bodies give no block up, and the case
    labels of a switch are distinct (section 6.8.4.2 of C99).
   */
  ghost predicate Fit(s: Stmt) {
    match s
    case Compound(body) => AllFit(body)
    case If(_, _, t, e) => Fit(t) && Keeps(t) && (e.Some? ==> Fit(e.value) && Keeps(e.value))
    case While(_, _, b) => Fit(b) && Keeps(b)
    case Do(_, b, _) => Fit(b) && Keeps(b)
    case For(_, _, _, _, b) => Fit(b) && Keeps(b)
    case Switch(_, _, b) => Fit(b) && Keeps(b) && forall t :: Arms(b)[t] <= 1
    case Case(_, b) => Fit(b)
    case Default(_, b) => Fit(b)
    case Label(_, b) => Fit(b)
    case _ => true
  }

  ghost predicate AllFit(ss: seq<Stmt>) {
    ss == [] || (Fit(ss[0]) && AllFit(ss[1..]))
  }

  /** The state of the builder. */
  datatype Snap = Snap(f: Sheet, block: Option<nat>, succ: Option<nat>, bad: bool)

  /** The place where code added now will run is known. */
  ghost predicate OkCursor(v: Snap) {
    && v.succ.Some? && v.succ.value < |v.f.g|
    && if v.block.Some? then
         && v.block.value in v.f.open && v.block.value < |v.f.g|
         && !v.f.g[v.block.value].sealed && v.f.g[v.block.value].mark == NoMark
         && v.block != v.f.sw
       else v.f.g[v.succ.value].sealed
  }

  /** Where the code built so far begins. */
  ghost function CurOf(v: Snap): Pos
    requires OkCursor(v)
  {
    Entry(v.f.g, if v.block.Some? then v.block.value else v.succ.value)
  }

  /** The blocks that can still grow, apart from the current one. */
  ghost function PendingOf(v: Snap): set<nat> {
    if v.block.Some? then v.f.open - {v.block.value} else v.f.open
  }

  ghost function CtxOf(v: Snap): Ctx {
    Ctx(v.f.brk, v.f.cont, v.f.arms)
  }

  // ---------------------------------------------------------------- names

  ghost function Names(s: Stmt): multiset<Target> {
    Labels(s) + Arms(s)
  }

  ghost function NamesIn(ss: seq<Stmt>): multiset<Target> {
    LabelsIn(ss) + ArmsIn(ss)
  }

  ghost predicate Used(t: Target, v: Snap) {
    if t.ToLabel? then t.id in v.f.lm else t in v.f.arms
  }

  ghost predicate Unused(names: multiset<Target>, v: Snap) {
    && (forall t {:trigger Used(t, v)} {:trigger names[t]} :: t in names ==> names[t] == 1 && !Used(t, v))
    && ((exists t :: t in names && !t.ToLabel?) ==> v.f.sw.Some?)
  }

  /** Arms are not labels, and labels are not arms. */
  lemma {:induction false} NameKinds(s: Stmt, t: Target)
    ensures t in Arms(s) ==> !t.ToLabel?
    ensures t in Labels(s) ==> t.ToLabel?
    decreases s
  {
    match s
    case Compound(body) => NameKindsIn(body, t);
    case If(_, _, thn, els) =>
      NameKinds(thn, t);
      if els.Some? { NameKinds(els.value, t); }
    case While(_, _, sub) => NameKinds(sub, t);
    case Do(_, sub, _) => NameKinds(sub, t);
    case For(_, _, _, _, sub) => NameKinds(sub, t);
    case Switch(_, _, sub) => NameKinds(sub, t);
    case Case(_, sub) => NameKinds(sub, t);
    case Default(_, sub) => NameKinds(sub, t);
    case Label(_, sub) => NameKinds(sub, t);
    case _ =>
  }

  lemma {:induction false} NameKindsIn(ss: seq<Stmt>, t: Target)
    ensures t in ArmsIn(ss) ==> !t.ToLabel?
    ensures t in LabelsIn(ss) ==> t.ToLabel?
    decreases ss
  {
    if ss != [] {
      NameKinds(ss[0], t);
      NameKindsIn(ss[1..], t);
    }
  }

  // ---------------------------------------------------------------- moves

  /** From v to v' the builder added code with the given names, elements and stray jumps. */
  ghost predicate Moved(v: Snap, v': Snap, names: multiset<Target>, elems: multiset<Item>, stray: bool) {
    && Framed(v.f.g, v'.f.g, v.block, v.f.sw)
    && v'.f.brk == v.f.brk && v'.f.cont == v.f.cont && v'.f.sw == v.f.sw
    && PendingOf(v') == PendingOf(v)
    && (v'.block == v.block || v'.block.None? || v'.block.value >= |v.f.g|)
    && SubMap(v.f.lm, v'.f.lm) && SubMap(v.f.arms, v'.f.arms)
    && (forall t {:trigger Used(t, v')} :: Used(t, v') <==> Used(t, v) || t in names)
    && (ToDefault !in names ==> v'.f.dflt == v.f.dflt)
    && v'.f.placed == v.f.placed + elems
    && (v'.bad <==> v.bad || stray)
  }

  lemma MovedRefl(v: Snap)
    ensures Moved(v, v, multiset{}, multiset{}, false)
  {
    FramedRefl(v.f.g, v.block, v.f.sw);
    assert v.f.placed == v.f.placed + multiset{};
  }

  lemma MovedTrans(v0: Snap, v1: Snap, v2: Snap, n1: multiset<Target>, e1: multiset<Item>, s1: bool,
                   n2: multiset<Target>, e2: multiset<Item>, s2: bool)
    requires Moved(v0, v1, n1, e1, s1) && Moved(v1, v2, n2, e2, s2)
    ensures Moved(v0, v2, n1 + n2, e1 + e2, s1 || s2)
  {
    FramedTrans(v0.f.g, v1.f.g, v2.f.g, v0.block, v1.block, v0.f.sw, v0.f.sw);
    forall t
      ensures Used(t, v2) <==> Used(t, v0) || t in n1 + n2
    {
      assert Used(t, v2) <==> Used(t, v1) || t in n2;
      assert Used(t, v1) <==> Used(t, v0) || t in n1;
    }
    assert v0.f.placed + e1 + e2 == v0.f.placed + (e1 + e2);
  }

  /** The names still to come are unused before and after the visit of others. */
  lemma UnusedSplit(v: Snap, v': Snap, names: multiset<Target>, n1: multiset<Target>, n2: multiset<Target>,
                    elems: multiset<Item>, stray: bool)
    requires Unused(names, v) && names == n1 + n2 && Moved(v, v', n1, elems, stray)
    ensures Unused(n2, v')
  {
    forall t | t in n2
      ensures n2[t] == 1 && !Used(t, v')
    {
      assert names[t] == n1[t] + n2[t] && !Used(t, v);
    }
    if t :| t in n2 && !t.ToLabel? { assert t in names; }
  }

  lemma UnusedKept(names: multiset<Target>, v: Snap, v': Snap, elems: multiset<Item>)
    requires Unused(names, v) && Moved(v, v', multiset{}, elems, false)
    ensures Unused(names, v')
  {
    assert multiset{} + names == names;
    UnusedSplit(v, v', names, multiset{}, names, elems, false);
  }

  lemma UnusedPart(v: Snap, names: multiset<Target>, n1: multiset<Target>, n2: multiset<Target>)
    requires Unused(names, v) && names == n1 + n2
    ensures Unused(n1, v)
  {
    forall t | t in n1
      ensures n1[t] == 1 && !Used(t, v)
    {
      assert names[t] == n1[t] + n2[t] && !Used(t, v);
    }
    if t :| t in n1 && !t.ToLabel? { assert t in names; }
  }

  // ---------------------------------------------------------------- visits

  /** The visit of s, witnessed by w, from v to v'. */
  ghost predicate Visited(s: Stmt, w: StmtWit, v: Snap, v': Snap) {
    && Sound(v'.f) && OkCursor(v) && OkCursor(v')
    && Moved(v, v', Names(s), ElemsS(s), Stray(s, v.f.brk.Some?, v.f.cont.Some?))
    && MatchS(v'.f.g, v'.f.lm, s, w, CurOf(v'), CurOf(v), CtxOf(v'))
    && (v'.block.Some? <==> BlockAfter(s, v.block.Some?))
  }

  ghost predicate VisitedL(ss: seq<Stmt>, w: ListWit, v: Snap, v': Snap) {
    && Sound(v'.f) && OkCursor(v) && OkCursor(v')
    && Moved(v, v', NamesIn(ss), ElemsL(ss), StrayIn(ss, v.f.brk.Some?, v.f.cont.Some?))
    && MatchL(v'.f.g, v'.f.lm, ss, w, CurOf(v'), CurOf(v), CtxOf(v'))
    && (v'.block.Some? <==> BlockAfterAll(ss, v.block.Some?))
  }

  lemma VisitedNil(v: Snap)
    requires Sound(v.f) && OkCursor(v)
    ensures VisitedL([], NoL, v, v)
  {
    MovedRefl(v);
  }

  lemma {:induction false} JoinList(g: Graph, lm: map<Id, nat>, ss: seq<Stmt>, w: StmtWit, ws: ListWit, p: Pos, mid: Pos, q: Pos, c: Ctx)
    requires ss != [] && MatchS(g, lm, ss[0], w, p, mid, c) && MatchL(g, lm, ss[1..], ws, mid, q, c)
    ensures MatchL(g, lm, ss, MoreL(w, mid, ws), p, q, c)
  {
  }

  /** The rest of a list has been visited, and then its first statement. */
  lemma VisitedCons(ss: seq<Stmt>, w: StmtWit, ws: ListWit, v: Snap, v1: Snap, v2: Snap)
    requires ss != [] && VisitedL(ss[1..], ws, v, v1) && Visited(ss[0], w, v1, v2)
    ensures VisitedL(ss, MoreL(w, CurOf(v1), ws), v, v2)
  {
    hide Sound, MatchS, MatchL, Moved, ElemsS, Labels, Arms, Stray, Framed, Names, NamesIn, BlockAfter;
    var b, c := v.f.brk.Some?, v.f.cont.Some?;
    ConsNames(ss);
    MovedExtends(v, v1, NamesIn(ss[1..]), ElemsL(ss[1..]), StrayIn(ss[1..], b, c));
    MovedTrans(v, v1, v2, NamesIn(ss[1..]), ElemsL(ss[1..]), StrayIn(ss[1..], b, c), Names(ss[0]), ElemsS(ss[0]), Stray(ss[0], b, c));
    MovedExtends(v1, v2, Names(ss[0]), ElemsS(ss[0]), Stray(ss[0], b, c));
    MatchLMono(v1.f.g, v2.f.g, v1.f.lm, v2.f.lm, ss[1..], ws, CurOf(v1), CurOf(v), CtxOf(v1), CtxOf(v2));
    JoinList(v2.f.g, v2.f.lm, ss, w, ws, CurOf(v2), CurOf(v1), CurOf(v), CtxOf(v2));
  }

  lemma ConsNames(ss: seq<Stmt>)
    requires ss != []
    ensures NamesIn(ss[1..]) + Names(ss[0]) == NamesIn(ss)
  {
    hide Labels, Arms;
  }

  lemma MovedExtends(v: Snap, v': Snap, names: multiset<Target>, elems: multiset<Item>, stray: bool)
    requires Moved(v, v', names, elems, stray)
    ensures Extends(v.f.g, v'.f.g) && SubMap(v.f.lm, v'.f.lm) && SubMap(v.f.arms, v'.f.arms)
    ensures CtxOf(v').brk == CtxOf(v).brk && CtxOf(v').cont == CtxOf(v).cont && v'.f.sw == v.f.sw
  {
    FramedExtends(v.f.g, v'.f.g, v.block, v.f.sw);
  }

  lemma MovedCode(v0: Snap, v1: Snap, v2: Snap, names: multiset<Target>, e1: multiset<Item>, s: bool, e2: multiset<Item>)
    requires Moved(v0, v1, names, e1, s) && Moved(v1, v2, multiset{}, e2, false)
    ensures Moved(v0, v2, names, e1 + e2, s)
  {
    MovedTrans(v0, v1, v2, names, e1, s, multiset{}, e2, false);
    assert names + multiset{} == names;
  }

  lemma MovedOn(v0: Snap, v1: Snap, v2: Snap, names: multiset<Target>, elems: multiset<Item>, s: bool)
    requires Moved(v0, v1, names, elems, s) && Moved(v1, v2, multiset{}, multiset{}, false)
    ensures Moved(v0, v2, names, elems, s)
  {
    MovedCode(v0, v1, v2, names, elems, s, multiset{});
    assert elems + multiset{} == elems;
  }

  /** Only blocks were added or extended, by the elements given. */
  lemma MovedPlain(v: Snap, v': Snap, elems: multiset<Item>)
    requires Framed(v.f.g, v'.f.g, v.block, None)
    requires v'.f == v.f.(bs := v'.f.bs, g := v'.f.g, open := v'.f.open, placed := v.f.placed + elems)
    requires PendingOf(v') == PendingOf(v) && v'.bad == v.bad
    requires v'.block == v.block || v'.block.None? || v'.block.value >= |v.f.g|
    ensures Moved(v, v', multiset{}, elems, false)
  {
    FramedWeaken(v.f.g, v'.f.g, v.block, v.f.sw);
  }

  // ---------------------------------------------------------------- branches

  /** What is known of a branch: the block reported for it, if any, and where its code begins. */
  datatype Way = Way(entry: Option<nat>, start: Pos)

  /** Where a branch leads; one without a block leads past it. */
  ghost function Place(v: Snap, way: Way): Pos
    requires OkCursor(v)
  {
    if way.entry.Some? then way.start else CurOf(v)
  }

  /** The visit of s on its own, between two states without a current block. */
  ghost predicate Branched(s: Stmt, w: StmtWit, v: Snap, v': Snap, way: Way) {
    && Sound(v'.f) && OkCursor(v) && OkCursor(v') && v.block.None? && v'.block.None? && v'.succ == v.succ
    && Moved(v, v', Names(s), ElemsS(s), Stray(s, v.f.brk.Some?, v.f.cont.Some?))
    && CurOf(v') == CurOf(v)
    && (way.entry.None? <==> Bypassed(s)) && Closed(v'.f.g, way.start) && (way.entry.Some? ==> way.entry.value == way.start.b)
    && MatchS(v'.f.g, v'.f.lm, s, w, way.start, CurOf(v), CtxOf(v'))
  }

  /** The current block, if any, has been finished and is no longer the current one. */
  ghost predicate BranchEnded(v1: Snap, v2: Snap)
    requires OkCursor(v1)
  {
    && Sound(v2.f) && v2.block.None? && v2.bad == v1.bad
    && v2.f == v1.f.(bs := v2.f.bs, g := v2.f.g, open := v2.f.open)
    && if v1.block.Some? then v2.f.g == Sealed(v1.f.g, v1.block.value) && v2.f.open == v1.f.open - {v1.block.value}
       else v2.f == v1.f
  }

  lemma BranchOfVisit(s: Stmt, w: StmtWit, v: Snap, v1: Snap, v2: Snap, entry: Option<nat>)
    requires v.block.None? && Visited(s, w, v, v1) && Keeps(s)
    requires if Bypassed(s) then entry.None? else entry == Some(CurOf(v1).b)
    requires BranchEnded(v1, v2) && v2.succ == v.succ
    ensures Branched(s, w, v, v2, Way(entry, CurOf(v1)))
  {
    hide Sound, MatchS, Names, ElemsS, Stray, Reports, BlockAfter;
    var b, c := v.f.brk.Some?, v.f.cont.Some?;
    if v1.block.Some? {
      var x := v1.block.value;
      FramedRefl(v1.f.g, v1.block, None);
      FramedUpdate(v1.f.g, v1.f.g, x, v2.f.g[x], v1.block, None);
    } else {
      FramedRefl(v1.f.g, v1.block, None);
    }
    assert v1.f.placed + multiset{} == v1.f.placed;
    MovedPlain(v1, v2, multiset{});
    MovedOn(v, v1, v2, Names(s), ElemsS(s), Stray(s, b, c));
    MovedExtends(v1, v2, multiset{}, multiset{}, false);
    MovedExtends(v, v2, Names(s), ElemsS(s), Stray(s, b, c));
    assert Grows(v.f.g[v.succ.value], v2.f.g[v.succ.value]);
    MatchSMono(v1.f.g, v2.f.g, v1.f.lm, v2.f.lm, s, w, CurOf(v1), CurOf(v), CtxOf(v1), CtxOf(v2));
  }

  /** A block under construction after the visit of a branch is the one reported. */
  lemma {:induction false} VisitedBlock(s: Stmt, w: StmtWit, v: Snap, v1: Snap)
    requires v.block.None? && Visited(s, w, v, v1) && Keeps(s)
    ensures Sound(v1.f) && OkCursor(v1) && (v1.block.Some? ==> Reports(s, false)) && v1.f.sw == v.f.sw
    ensures PendingOf(v1) == PendingOf(v)
  {
    hide Sound, MatchS, Reports, BlockAfter;
  }

  /**
    What Keeps is for: exactly without it, the visit of a branch, of a body or of the program
    leaves a block under construction that it does not report.  Nobody finishes that block;
    its elements stay as they were collected, last to first.
   */
  lemma {:induction false} GivenUpIff(s: Stmt, w: StmtWit, v: Snap, v1: Snap)
    requires v.block.None? && Visited(s, w, v, v1)
    ensures OkCursor(v1) && |v1.f.bs| == |v1.f.g|
    ensures !Keeps(s) <==> v1.block.Some? && !Reports(s, false)
    ensures v1.block.Some? ==> var b := v1.block.value;
              !v1.f.g[b].sealed && !v1.f.g[b].reversed && v1.f.bs[b].elems == v1.f.g[b].rev
  {
    hide MatchS, Moved, Reports, BlockAfter, Total;
    if v1.block.Some? { Look(v1.f, v1.block.value); }
  }

  /** `{ {} a; b; }` is such a program: a and b are collected as b, a and stay so. */
  lemma EmptyFirstGivesUp(a: Id, b: Id)
    ensures var s := Compound([Compound([]), Eval(Op(a, [])), Eval(Op(b, []))]);
            Fit(s) && !Keeps(s) && BlockAfter(s, false) && Bypassed(s)
  {
    var rest := [Eval(Op(a, [])), Eval(Op(b, []))];
    var body := [Compound([])] + rest;
    assert body == [Compound([]), Eval(Op(a, [])), Eval(Op(b, []))] && body[1..] == rest && rest[1..] == [rest[1]];
    var last := [Eval(Op(b, []))];
    assert rest[1..] == last && last[1..] == [] && body[0] == Compound([]) && rest[0] == Eval(Op(a, []));
    assert BlockAfterAll(last, false) && BlockAfterAll(rest, false);
    assert BlockAfter(Compound([]), true) && BlockAfterAll(body, false) && !Reports(Compound([]), true);
    assert AllFit([]) && Fit(body[0]) && Fit(rest[0]) && Fit(last[0]);
    assert AllFit(last) && AllFit(rest) && AllFit(body);
  }

  // ---------------------------------------------------------------- forks and expressions

  /** A new current block that decides the branch id. */
  ghost predicate ForkAdded(v: Snap, v': Snap, id: Id, yes: Pos, no: Pos) {
    && v.block.None? && v'.block == Some(|v.f.g|) && |v.f.g| !in v.f.open && v'.bad == v.bad
    && v'.f == v.f.(bs := v'.f.bs, g := Decided(Forked(v.f.g, id), |v.f.g|, id, yes.b, no.b), open := v.f.open + {|v.f.g|})
    && OkCursor(v') && Sound(v'.f)
  }

  lemma MovedFork(v: Snap, v': Snap, id: Id, yes: Pos, no: Pos)
    requires ForkAdded(v, v', id, yes, no) && Closed(v.f.g, yes) && Closed(v.f.g, no)
    ensures Moved(v, v', multiset{}, multiset{}, false) && CurOf(v') == Pos(|v.f.g|, 0)
    ensures Forks(v'.f.g, |v.f.g|, id, yes, no)
  {
    hide Sound;
    FramedRefl(v.f.g, v.block, None);
    BuildNewFork(v.f.g, v.f.g, id, yes, no, v.block, None);
    assert v.f.placed + multiset{} == v.f.placed;
    MovedPlain(v, v', multiset{});
  }

  /** The code of e has been put in front. */
  ghost predicate ExprAdded(v: Snap, v': Snap, e: Expr, w: ExprWit, end: Pos) {
    && Sound(v'.f) && OkCursor(v) && OkCursor(v') && v'.block.Some?
    && Moved(v, v', multiset{}, ElemsE(e, true), false)
    && v'.f.lm == v.f.lm && v'.f.arms == v.f.arms && v'.f.dflt == v.f.dflt && v'.f.backpatch == v.f.backpatch
    && MatchE(v'.f.g, e, w, true, CurOf(v'), end) && Goes(v'.f.g, end, CurOf(v))
    && (v.block.Some? ==> end == CurOf(v))
  }

  // ---------------------------------------------------------------- if

  ghost function ElseNames(s: Stmt): multiset<Target>
    requires s.If?
  {
    if s.els.Some? then Names(s.els.value) else multiset{}
  }

  lemma IfNames(s: Stmt, v0: Snap, v1: Snap)
    requires s.If? && Unused(Names(s), v0) && Moved(v0, v1, multiset{}, multiset{}, false)
    ensures Names(s) == ElseNames(s) + Names(s.thn)
    ensures Unused(Names(s), v1) && Unused(ElseNames(s), v1) && Unused(Names(s.thn), v1)
  {
    UnusedSplit(v0, v1, Names(s), multiset{}, Names(s), multiset{}, false);
    UnusedPart(v1, Names(s), ElseNames(s), Names(s.thn));
    UnusedPart(v1, Names(s), Names(s.thn), ElseNames(s));
  }

  /** The two branches of an `if` and the fork between them, seen from the state before the condition. */
  lemma IfBranches(s: Stmt, v1: Snap, v2: Snap, v3: Snap, v5: Snap,
                   ew: StmtWit, eb: Way, tw: StmtWit, tb: Way, f: nat, yes: Pos, no: Pos, cw: ExprWit) returns (w: StmtWit)
    requires s.If? && OkCursor(v1) && Closed(v1.f.g, CurOf(v1))
    requires if s.els.Some? then Branched(s.els.value, ew, v1, v2, eb) else v2 == v1 && eb.entry.None?
    requires Branched(s.thn, tw, v2, v3, tb)
    requires v5.f.brk == v3.f.brk && v5.f.cont == v3.f.cont
    requires Extends(v3.f.g, v5.f.g) && SubMap(v3.f.lm, v5.f.lm) && SubMap(v3.f.arms, v5.f.arms)
    requires Forks(v5.f.g, f, s.id, yes, no) && Goes(v5.f.g, yes, Place(v3, tb)) && no == Place(v2, eb)
    ensures w.IfW? && w.e == cw && w.fb == f
    ensures IfTail(v5.f.g, v5.f.lm, s.id, s.thn, s.els, w, CurOf(v1), CtxOf(v5))
  {
    hide Sound, MatchS, Stray, ElemsS, Framed, Forks;
    var q := CurOf(v1);
    MovedExtends(v2, v3, Names(s.thn), ElemsS(s.thn), Stray(s.thn, v2.f.brk.Some?, v2.f.cont.Some?));
    ExtendsTrans(v2.f.g, v3.f.g, v5.f.g);
    MatchSMono(v3.f.g, v5.f.g, v3.f.lm, v5.f.lm, s.thn, tw, tb.start, q, CtxOf(v3), CtxOf(v5));
    if s.els.Some? {
      MatchSMono(v2.f.g, v5.f.g, v2.f.lm, v5.f.lm, s.els.value, ew, eb.start, q, CtxOf(v2), CtxOf(v5));
    }
    w := IfW(cw, f, yes, tb.start, tw, no, eb.start, ew);
  }

  lemma ExtendsTrans(g0: Graph, g1: Graph, g2: Graph)
    requires Extends(g0, g1) && Extends(g1, g2)
    ensures Extends(g0, g2)
  {
    forall b | 0 <= b < |g0| ensures Grows(g0[b], g2[b]) { assert Grows(g0[b], g1[b]) && Grows(g1[b], g2[b]); }
  }

  lemma {:induction false} MovedIf(s: Stmt, v0: Snap, v1: Snap, v2: Snap, v3: Snap, v5: Snap, v6: Snap)
    requires s.If? && Moved(v0, v1, multiset{}, multiset{}, false)
    requires if s.els.Some? then
               Moved(v1, v2, Names(s.els.value), ElemsS(s.els.value), Stray(s.els.value, v1.f.brk.Some?, v1.f.cont.Some?))
             else v2 == v1
    requires Moved(v2, v3, Names(s.thn), ElemsS(s.thn), Stray(s.thn, v2.f.brk.Some?, v2.f.cont.Some?))
    requires Moved(v3, v5, multiset{}, multiset{}, false) && Moved(v5, v6, multiset{}, ElemsE(s.test, true), false)
    ensures Moved(v0, v6, Names(s), ElemsS(s), Stray(s, v0.f.brk.Some?, v0.f.cont.Some?))
  {
    hide Moved, Labels, Arms, Names, ElemsS, ElemsE, Stray;
    var b, c := v0.f.brk.Some?, v0.f.cont.Some?;
    IfParts(s, b, c);
    var n := if s.els.Some? then Names(s.els.value) else multiset{};
    var e := if s.els.Some? then ElemsS(s.els.value) else multiset{};
    var r := s.els.Some? && Stray(s.els.value, b, c);
    if s.els.None? { MovedRefl(v1); }
    MovedExtends(v0, v1, multiset{}, multiset{}, false);
    MovedTrans(v0, v1, v2, multiset{}, multiset{}, false, n, e, r);
    MovedExtends(v0, v2, multiset{} + n, multiset{} + e, r);
    MovedTrans(v0, v2, v3, multiset{} + n, multiset{} + e, r, Names(s.thn), ElemsS(s.thn), Stray(s.thn, b, c));
    MovedOn(v0, v3, v5, multiset{} + n + Names(s.thn), multiset{} + e + ElemsS(s.thn), r || Stray(s.thn, b, c));
    MovedCode(v0, v5, v6, multiset{} + n + Names(s.thn), multiset{} + e + ElemsS(s.thn), r || Stray(s.thn, b, c), ElemsE(s.test, true));
  }

  lemma {:induction false} IfParts(s: Stmt, b: bool, c: bool)
    requires s.If?
    ensures var n := if s.els.Some? then Names(s.els.value) else multiset{};
            Names(s) == multiset{} + n + Names(s.thn)
    ensures var e := if s.els.Some? then ElemsS(s.els.value) else multiset{};
            ElemsS(s) == multiset{} + e + ElemsS(s.thn) + ElemsE(s.test, true)
    ensures Stray(s, b, c) == ((s.els.Some? && Stray(s.els.value, b, c)) || Stray(s.thn, b, c))
  {
    var none: multiset<Target> := multiset{};
    var t, e := s.thn, s.els;
    Regroup(Labels(t), if e.Some? then Labels(e.value) else none, Arms(t), if e.Some? then Arms(e.value) else none);
  }

  lemma Regroup(lt: multiset<Target>, le: multiset<Target>, at: multiset<Target>, ae: multiset<Target>)
    ensures (lt + le) + (at + ae) == multiset{} + (le + ae) + (lt + at)
  {
  }

  /** The whole `if`. */
  lemma VisitedIf(s: Stmt, v0: Snap, v1: Snap, v2: Snap, v3: Snap, v4: Snap, v5: Snap, v6: Snap,
                  ew: StmtWit, eb: Way, tw: StmtWit, tb: Way, yes: Pos, no: Pos, cw: ExprWit, end: Pos)
    returns (w: StmtWit)
    requires s.If? && OkCursor(v0) && OkCursor(v1) && CurOf(v1) == CurOf(v0) && Closed(v1.f.g, CurOf(v1))
    requires Moved(v0, v1, multiset{}, multiset{}, false)
    requires if s.els.Some? then Branched(s.els.value, ew, v1, v2, eb) else v2 == v1 && eb.entry.None?
    requires Branched(s.thn, tw, v2, v3, tb)
    requires Moved(v3, v4, multiset{}, multiset{}, false) && Goes(v4.f.g, yes, Place(v3, tb)) && no == Place(v2, eb)
    requires ForkAdded(v4, v5, s.id, yes, no) && Closed(v4.f.g, yes) && Closed(v4.f.g, no)
    requires ExprAdded(v5, v6, s.test, cw, end)
    ensures Visited(s, w, v0, v6)
  {
    hide Sound, MatchS, MatchE, Moved, Stray, ElemsS, ElemsE, Labels, Arms, Framed, Goes, Forks, Extends, IfTail;
    MovedFork(v4, v5, s.id, yes, no);
    MovedOn(v3, v4, v5, multiset{}, multiset{}, false);
    MovedIf(s, v0, v1, v2, v3, v5, v6);
    MovedExtends(v4, v5, multiset{}, multiset{}, false);
    MovedExtends(v3, v5, multiset{}, multiset{}, false);
    StepMono(v4.f.g, v5.f.g, yes, Place(v3, tb));
    w := IfBranches(s, v1, v2, v3, v5, ew, eb, tw, tb, |v4.f.g|, yes, no, cw);
    MovedExtends(v5, v6, multiset{}, ElemsE(s.test, true), false);
    IfTailMono(v5.f.g, v6.f.g, v5.f.lm, v6.f.lm, s.id, s.thn, s.els, w, CurOf(v0), CtxOf(v5), CtxOf(v6));
    MatchIf(v6.f.g, v6.f.lm, s, w, CurOf(v6), CurOf(v0), CtxOf(v6));
  }

  /** A finished block is still there after the visit of a branch and more. */
  lemma KeepPlace(s: Stmt, w: StmtWit, v2: Snap, v3: Snap, g4: Graph, b: Way, p: Pos)
    requires Branched(s, w, v2, v3, b) && Extends(v3.f.g, g4) && Closed(v2.f.g, p)
    ensures Closed(g4, p)
  {
    hide Sound, MatchS;
    MovedExtends(v2, v3, Names(s), ElemsS(s), Stray(s, v2.f.brk.Some?, v2.f.cont.Some?));
    StepMono(v2.f.g, v3.f.g, p, p);
    StepMono(v3.f.g, g4, p, p);
  }

  /** Where a branch begins is a finished block. */
  lemma ClosedPlace(s: Stmt, w: StmtWit, v: Snap, v': Snap, b: Way)
    requires Branched(s, w, v, v', b)
    ensures Closed(v'.f.g, b.start) && Closed(v'.f.g, Place(v', b)) && Closed(v'.f.g, CurOf(v'))
  {
    hide Sound, MatchS, Moved;
  }

  lemma {:induction false} MatchIf(g: Graph, lm: map<Id, nat>, s: Stmt, w: StmtWit, p: Pos, q: Pos, c: Ctx)
    requires s.If? && w.IfW? && MatchE(g, s.test, w.e, true, p, Pos(w.fb, 0)) && IfTail(g, lm, s.id, s.thn, s.els, w, q, c)
    ensures MatchS(g, lm, s, w, p, q, c)
  {
  }

  // ---------------------------------------------------------------- loops

  /** The condition of a loop has been built between `entry` and the end of block x, which will decide. */
  ghost predicate CondBuilt(v: Snap, v': Snap, id: Id, cond: Option<Expr>, w: ExprWit, x: nat, entry: nat) {
    && Sound(v'.f) && OkCursor(v') && v'.block.None? && v'.succ == Some(entry)
    && Moved(v, v', multiset{}, ElemsO(cond), false)
    && |v.f.g| <= x < |v'.f.g| && entry < |v'.f.g| && Closed(v'.f.g, Entry(v'.f.g, entry))
    && (if cond.Some? then MatchE(v'.f.g, cond.value, w, true, Entry(v'.f.g, entry), Pos(x, 0))
        else Entry(v'.f.g, entry) == Pos(x, 0))
    && v'.f.g[x].term == Branching(id) && v'.f.g[x].succs == [] && !v'.f.g[x].edges && Some(x) != v'.f.sw && x != EXIT
  }

  lemma MovedNewFork(v: Snap, v': Snap, id: Id)
    requires v.block.None? && (v'.block.None? || v'.block == Some(|v.f.g|)) && v'.bad == v.bad && |v.f.g| !in v.f.open
    requires v'.f == v.f.(bs := v'.f.bs, g := v'.f.g, open := v'.f.open)
    requires |v'.f.g| == |v.f.g| + 1 && v'.f.g == Forked(v.f.g, id)[|v.f.g| := v'.f.g[|v.f.g|]]
    requires v'.f.open == if v'.block.Some? then v.f.open + {|v.f.g|} else v.f.open
    ensures Moved(v, v', multiset{}, multiset{}, false)
  {
    FramedRefl(v.f.g, None, None);
    assert v'.f.g == v.f.g + [v'.f.g[|v.f.g|]];
    FramedAppend(v.f.g, v.f.g, v'.f.g[|v.f.g|], None, None);
    assert v.f.placed + multiset{} == v.f.placed;
    MovedPlain(v, v', multiset{});
  }

  /** A block new since v has been finished. */
  lemma MovedSealed(v: Snap, v1: Snap, v2: Snap, names: multiset<Target>, elems: multiset<Item>, stray: bool)
    requires Moved(v, v1, names, elems, stray) && v1.block.Some? && v1.block.value < |v1.f.g|
    requires v2.block.None? && v2.bad == v1.bad && v2.f == v1.f.(bs := v2.f.bs, g := v2.f.g, open := v2.f.open)
    requires v2.f.g == Sealed(v1.f.g, v1.block.value) && v2.f.open == v1.f.open - {v1.block.value}
    ensures Moved(v, v2, names, elems, stray) && Moved(v1, v2, multiset{}, multiset{}, false)
  {
    FramedRefl(v1.f.g, v1.block, None);
    FramedUpdate(v1.f.g, v1.f.g, v1.block.value, v2.f.g[v1.block.value], v1.block, None);
    assert v1.f.placed + multiset{} == v1.f.placed;
    MovedPlain(v1, v2, multiset{});
    MovedOn(v, v1, v2, names, elems, stray);
  }

  /** The condition, when there is one: fork v1, expression v2, finished v3. */
  lemma CondOfExpr(v: Snap, v1: Snap, v2: Snap, v3: Snap, id: Id, e: Expr, w: ExprWit, x: nat, entry: nat, end: Pos)
    requires v.block.None? && OkCursor(v) && x == |v.f.g| && Moved(v, v1, multiset{}, multiset{}, false)
    requires OkCursor(v1) && v1.block == Some(x) && v1.f.g == Forked(v.f.g, id) && x != EXIT && Some(x) != v.f.sw
    requires ExprAdded(v1, v2, e, w, end) && v2.block == Some(entry)
    requires Sound(v3.f) && v3.block.None? && v3.succ == Some(entry) && v3.bad == v2.bad
    requires v3.f == v2.f.(bs := v3.f.bs, g := Sealed(v2.f.g, entry), open := v2.f.open - {entry})
    ensures CondBuilt(v, v3, id, Some(e), w, x, entry)
  {
    hide Sound, MatchE, Framed, ElemsE;
    MovedSealed(v1, v2, v3, multiset{}, ElemsE(e, true), false);
    MovedCode(v, v1, v3, multiset{}, multiset{}, false, ElemsE(e, true));
    assert multiset{} + ElemsE(e, true) == ElemsE(e, true);
    MovedExtends(v2, v3, multiset{}, multiset{}, false);
    MatchEMono(v2.f.g, v3.f.g, e, w, true, CurOf(v2), end);
    MovedAt(v1, v3, x, multiset{}, ElemsE(e, true), false);
  }

  /** The end of a block is only touched when it is that of the switch. */
  lemma MovedAt(v: Snap, v': Snap, x: nat, names: multiset<Target>, elems: multiset<Item>, stray: bool)
    requires Moved(v, v', names, elems, stray) && x < |v.f.g| && Some(x) != v.f.sw
    ensures x < |v'.f.g| && v'.f.g[x].term == v.f.g[x].term && v'.f.g[x].succs == v.f.g[x].succs && v'.f.sw == v.f.sw
    ensures v'.f.g[x].edges == v.f.g[x].edges
  {
    assert KeptAt(v.f.g, v'.f.g, x, v.block, v.f.sw);
  }

  /** The parts of a loop other than its body, in the graph g. */
  ghost predicate LoopParts(g: Graph, s: Stmt, w: StmtWit)
    requires IsLoop(s)
  {
    var inc, cond := IncOf(s), CondOf(s);
    && w.LoopW? && Closed(g, w.next) && Closed(g, w.head)
    && (if inc.Some? then MatchE(g, inc.value, w.inc, true, w.next, w.incEnd) && Goes(g, w.incEnd, w.head)
        else w.next == w.head)
    && (if cond.Some? then MatchE(g, cond.value, w.e, true, w.head, Pos(w.fb, 0)) else w.head == Pos(w.fb, 0))
  }

  lemma LoopPartsMono(g: Graph, g': Graph, s: Stmt, w: StmtWit)
    requires IsLoop(s) && LoopParts(g, s, w) && Extends(g, g')
    ensures LoopParts(g', s, w) && Closed(g', w.head)
  {
    hide MatchE;
    var inc, cond := IncOf(s), CondOf(s);
    StepMono(g, g', w.next, w.next);
    StepMono(g, g', w.head, w.head);
    if inc.Some? {
      MatchEMono(g, g', inc.value, w.inc, true, w.next, w.incEnd);
      StepMono(g, g', w.incEnd, w.head);
    }
    if cond.Some? { MatchEMono(g, g', cond.value, w.e, true, w.head, Pos(w.fb, 0)); }
  }

  /** The targets of break and continue are set for the body of a construct, or set back. */
  lemma SoundTargets(f: Sheet, brk: Option<nat>, cont: Option<nat>)
    requires Sound(f) && Ended(f.g, brk) && Ended(f.g, cont)
    ensures Sound(f.(brk := brk, cont := cont))
  {
  }

  lemma UnusedTargets(names: multiset<Target>, v: Snap, v1: Snap)
    requires Unused(names, v) && v1 == v.(f := v1.f) && v1.f == v.f.(brk := v1.f.brk, cont := v1.f.cont)
    ensures Unused(names, v1)
  {
    forall t | t in names ensures names[t] == 1 && !Used(t, v1) { assert !Used(t, v); }
  }

  lemma RestoredTargets(v: Snap, v1: Snap, v2: Snap, names: multiset<Target>, elems: multiset<Item>, stray: bool)
    requires Sound(v.f) && Sound(v2.f) && v1 == v.(f := v1.f) && v1.f == v.f.(brk := v1.f.brk, cont := v1.f.cont)
    requires Moved(v1, v2, names, elems, stray)
    ensures Sound(v2.f.(brk := v.f.brk, cont := v.f.cont))
  {
    hide Drawn, SwitchOk;
    MovedExtends(v1, v2, names, elems, stray);
    EndedKept(v.f.g, v2.f.g, v.f.brk);
    EndedKept(v.f.g, v2.f.g, v.f.cont);
  }

  lemma MovedTargets(v: Snap, v1: Snap, v2: Snap, v3: Snap, names: multiset<Target>, elems: multiset<Item>, stray: bool)
    requires v1 == v.(f := v1.f) && v1.f == v.f.(brk := v1.f.brk, cont := v1.f.cont)
    requires Moved(v1, v2, names, elems, stray)
    requires v3 == v2.(f := v2.f.(brk := v.f.brk, cont := v.f.cont))
    ensures Moved(v, v3, names, elems, stray)
  {
    hide Framed, SubMap;
    forall t ensures Used(t, v3) <==> Used(t, v) || t in names {
      assert Used(t, v2) <==> Used(t, v1) || t in names;
    }
  }

  ghost function WithTargets(v: Snap, brk: Option<nat>, cont: Option<nat>): Snap {
    v.(f := v.f.(brk := brk, cont := cont))
  }

  lemma {:induction false} BranchedFacts(s: Stmt, w: StmtWit, v: Snap, v': Snap, b: Way)
    requires Branched(s, w, v, v', b)
    ensures Sound(v'.f) && OkCursor(v') && v'.block.None? && v'.succ == v.succ && CurOf(v') == CurOf(v)
    ensures Moved(v, v', Names(s), ElemsS(s), Stray(s, v.f.brk.Some?, v.f.cont.Some?))
    ensures v'.f.brk == v.f.brk && v'.f.cont == v.f.cont
  {
    hide Sound, MatchS, ElemsS, Stray, Framed;
  }

  lemma BodyMoved(v: Snap, v1: Snap, v2: Snap, names: multiset<Target>, elems: multiset<Item>, stray: bool)
    requires Sound(v.f) && Sound(v2.f) && v1 == WithTargets(v, v1.f.brk, v1.f.cont)
    requires Moved(v1, v2, names, elems, stray)
    ensures var v3 := WithTargets(v2, v.f.brk, v.f.cont); Sound(v3.f) && Moved(v, v3, names, elems, stray)
  {
    hide Sound, Moved;
    RestoredTargets(v, v1, v2, names, elems, stray);
    MovedTargets(v, v1, v2, WithTargets(v2, v.f.brk, v.f.cont), names, elems, stray);
  }

  /** From v, with the parts w0 built, to v', with the body and the edges of the condition added. */
  ghost predicate BodyLinked(s: Stmt, w0: StmtWit, w: StmtWit, v: Snap, v3: Snap, v': Snap, body: nat, q: Pos)
    requires IsLoop(s) && w0.LoopW?
  {
    && w0.fb < |v3.f.g| && v' == v3.(f := v3.f.(bs := v'.f.bs, g := Decided(v3.f.g, w0.fb, s.id, body, q.b)))
    && w.LoopW? && w.fb == w0.fb && w.head == w0.head && w.yes.b == body && Closed(v'.f.g, w.yes) && Closed(v'.f.g, w.head)
    && Closed(v'.f.g, q) && LoopOk(v'.f.g, v'.f.lm, s, w, q, CtxOf(v'))
    && Extends(v.f.g, v'.f.g)
  }

  /**
    The loop closed: in v the parts are built; v1 has the targets of the body, v2 its code,
    v3 the targets set back, and in v4 the condition decides between body and exit.
   */
  lemma LoopClosed(s: Stmt, w0: StmtWit, v: Snap, v1: Snap, v2: Snap, v3: Snap, v4: Snap, bw: StmtWit, b: Way, q: Pos)
    returns (w: StmtWit)
    requires IsLoop(s) && w0.LoopW? && LoopParts(v.f.g, s, w0) && Closed(v.f.g, q)
    requires OkCursor(v) && v.block.None? && v1 == WithTargets(v, Some(q.b), Some(CurOf(v).b))
    requires Branched(s.sub, bw, v1, v2, b) && v3 == WithTargets(v2, v.f.brk, v.f.cont)
    requires CurOf(v) == w0.next
    requires v4 == v3.(f := v3.f.(bs := v4.f.bs, g := v4.f.g))
    requires w0.fb < |v3.f.g| && v3.f.g[w0.fb].term == Branching(s.id) && !v3.f.g[w0.fb].edges
    requires v4.f.g == Decided(v3.f.g, w0.fb, s.id, if b.entry.Some? then b.entry.value else w0.head.b, q.b)
    ensures BodyLinked(s, w0, w, v, v3, v4, if b.entry.Some? then b.entry.value else w0.head.b, q)
  {
    hide Sound, MatchE, MatchS, Moved, Framed, ElemsS, Stray, LoopParts, LoopOk, Extends, Names;
    var g2, g4 := v2.f.g, v4.f.g;
    ClosedPlace(s.sub, bw, v1, v2, b);
    MovedExtends(v1, v2, Names(s.sub), ElemsS(s.sub), Stray(s.sub, true, true));
    ExtendsUpdate(g2, w0.fb, g4[w0.fb]);
    ExtendsTrans(v.f.g, g2, g4);
    LoopPartsMono(v.f.g, g2, s, w0);
    LoopPartsMono(g2, g4, s, w0);
    StepMono(v.f.g, g2, q, q);
    StepMono(g2, g4, q, q);
    var yes := if b.entry.Some? then b.start else w0.head;
    StepMono(g2, g4, yes, yes);
    StepMono(v.f.g, g2, CurOf(v), CurOf(v));
    var body := Ctx(Some(q.b), Some(w0.next.b), v4.f.arms);
    MatchSMono(g2, g4, v2.f.lm, v4.f.lm, s.sub, bw, b.start, CurOf(v1), CtxOf(v2), body);
    w := w0.(yes := yes, bin := b.start, sub := bw);
    LoopJoined(g4, v4.f.lm, s, w0, w, q, CtxOf(v4));
  }

  lemma {:induction false} LoopJoined(g: Graph, lm: map<Id, nat>, s: Stmt, w0: StmtWit, w: StmtWit, q: Pos, c: Ctx)
    requires IsLoop(s) && LoopParts(g, s, w0) && w.LoopW? && Closed(g, w.yes) && Closed(g, q)
    requires w == w0.(yes := w.yes, bin := w.bin, sub := w.sub)
    requires w.yes == if Bypassed(s.sub) then w.head else w.bin
    requires Forks(g, w.fb, s.id, w.yes, q)
    requires MatchS(g, lm, s.sub, w.sub, w.bin, w.next, Ctx(Some(q.b), Some(w.next.b), c.arms))
    ensures LoopOk(g, lm, s, w, q, c) && Closed(g, w.head)
  {
    hide MatchE, MatchS, Forks;
  }

  /** A block new since v0 has received its terminator and successors. */
  lemma MovedDecided(v0: Snap, v: Snap, v': Snap, x: nat, id: Id, yes: nat, no: nat,
                     names: multiset<Target>, elems: multiset<Item>, stray: bool)
    requires Moved(v0, v, names, elems, stray) && |v0.f.g| <= x < |v.f.g|
    requires v' == v.(f := v.f.(bs := v'.f.bs, g := Decided(v.f.g, x, id, yes, no)))
    ensures Moved(v0, v', names, elems, stray)
  {
    FramedUpdate(v0.f.g, v.f.g, x, v'.f.g[x], v0.block, v0.f.sw);
    forall t ensures Used(t, v') <==> Used(t, v0) || t in names {
      assert Used(t, v) <==> Used(t, v0) || t in names;
    }
  }

  /** The loop s, without its initialisation, has been built in front of CurOf(v). */
  ghost predicate LoopBuilt(s: Stmt, w: StmtWit, v: Snap, v': Snap, entry: nat, body: nat) {
    && IsLoop(s) && Sound(v'.f) && OkCursor(v) && OkCursor(v') && v'.block.None? && v'.succ == Some(entry)
    && Moved(v, v', Names(s.sub), LoopElems(s), Stray(s.sub, true, true))
    && w.LoopW? && LoopOk(v'.f.g, v'.f.lm, s, w, CurOf(v), CtxOf(v'))
    && entry < |v'.f.g| && w.head == Entry(v'.f.g, entry) && Closed(v'.f.g, w.head)
    && body < |v'.f.g| && w.yes == Entry(v'.f.g, body) && Closed(v'.f.g, w.yes)
  }

  ghost function LoopElems(s: Stmt): multiset<Item>
    requires IsLoop(s)
  {
    ElemsO(CondOf(s)) + (if s.For? then ElemsO(s.inc) else multiset{}) + ElemsS(s.sub)
  }

  lemma LoopNames(s: Stmt, v0: Snap, v1: Snap)
    requires IsLoop(s) && Unused(Names(s), v0) && Moved(v0, v1, multiset{}, multiset{}, false)
    ensures Names(s) == Names(s.sub) && Unused(Names(s.sub), v1)
  {
    UnusedKept(Names(s), v0, v1, multiset{});
  }

  lemma VisitedCursor(s: Stmt, w: StmtWit, v: Snap, v': Snap)
    requires Visited(s, w, v, v')
    ensures Sound(v'.f) && OkCursor(v')
  {
    hide Sound, Moved, MatchS;
  }

  lemma VisitedWhile(s: Stmt, w: StmtWit, v0: Snap, v1: Snap, v2: Snap, entry: nat, body: nat)
    requires s.While? && OkCursor(v0) && OkCursor(v1) && CurOf(v1) == CurOf(v0)
    requires Moved(v0, v1, multiset{}, multiset{}, false) && LoopBuilt(s, w, v1, v2, entry, body)
    ensures Visited(s, w, v0, v2)
  {
    hide Sound, Framed, LoopOk, Stray;
    MovedTrans(v0, v1, v2, multiset{}, multiset{}, false, Names(s.sub), LoopElems(s), Stray(s.sub, true, true));
    StraySub(s, v0);
    assert multiset{} + Names(s.sub) == Names(s);
    assert multiset{} + LoopElems(s) == ElemsS(s);
  }

  lemma {:induction false} StraySub(s: Stmt, v: Snap)
    requires IsLoop(s)
    ensures Stray(s, v.f.brk.Some?, v.f.cont.Some?) == Stray(s.sub, true, true)
  {
  }

  lemma VisitedDo(s: Stmt, w: StmtWit, v0: Snap, v1: Snap, v2: Snap, v3: Snap, entry: nat, body: nat)
    requires s.Do? && OkCursor(v0) && OkCursor(v1) && CurOf(v1) == CurOf(v0)
    requires Moved(v0, v1, multiset{}, multiset{}, false) && LoopBuilt(s, w, v1, v2, entry, body)
    requires v3 == v2.(succ := Some(body))
    ensures Visited(s, w, v0, v3)
  {
    hide Sound, LoopOk, Stray, Moved;
    MovedTrans(v0, v1, v2, multiset{}, multiset{}, false, Names(s.sub), LoopElems(s), Stray(s.sub, true, true));
    StraySub(s, v0);
    assert multiset{} + Names(s.sub) == Names(s);
    assert multiset{} + LoopElems(s) == ElemsS(s);
    MovedSucc(v0, v2, v3, Names(s), ElemsS(s), Stray(s.sub, true, true));
  }

  /** A `for`; its initialisation, when there is one, has been put in front. */
  lemma VisitedFor(s: Stmt, w0: StmtWit, v0: Snap, v1: Snap, v2: Snap, v3: Snap, entry: nat, body: nat,
                   iw: ExprWit, end: Pos) returns (w: StmtWit)
    requires s.For? && OkCursor(v0) && OkCursor(v1) && CurOf(v1) == CurOf(v0)
    requires Moved(v0, v1, multiset{}, multiset{}, false) && LoopBuilt(s, w0, v1, v2, entry, body)
    requires if s.init.Some? then ExprAdded(v2, v3, s.init.value, iw, end) else v3 == v2
    ensures Visited(s, w, v0, v3)
  {
    hide Sound, Framed, LoopOk, Stray, MatchE, Moved;
    var st := Stray(s.sub, true, true);
    w := w0.(init := iw, initEnd := end);
    StraySub(s, v0);
    MovedTrans(v0, v1, v2, multiset{}, multiset{}, false, Names(s.sub), LoopElems(s), st);
    assert multiset{} + Names(s.sub) == Names(s) && multiset{} + LoopElems(s) == LoopElems(s);
    if s.init.Some? {
      MovedCode(v0, v2, v3, Names(s), LoopElems(s), st, ElemsO(s.init));
      MovedExtends(v2, v3, multiset{}, ElemsO(s.init), false);
    } else {
      assert LoopElems(s) + ElemsO(s.init) == LoopElems(s);
    }
    assert LoopElems(s) + ElemsO(s.init) == ElemsS(s);
    ForMono(v2, v3, s, w0, w, CurOf(v0));
    MatchFor(v3.f.g, v3.f.lm, s, w, CurOf(v3), CurOf(v0), CtxOf(v3));
  }

  lemma {:induction false} ForMono(v2: Snap, v3: Snap, s: Stmt, w0: StmtWit, w: StmtWit, q: Pos)
    requires IsLoop(s) && w0.LoopW? && LoopOk(v2.f.g, v2.f.lm, s, w0, q, CtxOf(v2))
    requires w.LoopW? && w == w0.(init := w.init, initEnd := w.initEnd)
    requires Extends(v2.f.g, v3.f.g) && SubMap(v2.f.lm, v3.f.lm) && SubMap(v2.f.arms, v3.f.arms)
    ensures LoopOk(v3.f.g, v3.f.lm, s, w, q, CtxOf(v3))
  {
    assert LoopOk(v2.f.g, v2.f.lm, s, w, q, CtxOf(v2)) by { hide MatchE, MatchS; }
    LoopMono(v2.f.g, v3.f.g, v2.f.lm, v3.f.lm, s, w, q, CtxOf(v2), CtxOf(v3));
  }

  lemma {:induction false} MatchFor(g: Graph, lm: map<Id, nat>, s: Stmt, w: StmtWit, p: Pos, q: Pos, c: Ctx)
    requires s.For? && w.LoopW? && LoopOk(g, lm, s, w, q, c)
    requires if s.init.Some? then MatchE(g, s.init.value, w.init, true, p, w.initEnd) && Goes(g, w.initEnd, w.head)
             else p == w.head
    ensures MatchS(g, lm, s, w, p, q, c)
  {
  }

  /** The state before the body of a loop that followed v1, its parts being w0. */
  ghost predicate Ready(s: Stmt, w0: StmtWit, v1: Snap, v: Snap, e: multiset<Item>) {
    && IsLoop(s) && OkCursor(v1) && OkCursor(v) && v.block.None?
    && Moved(v1, v, multiset{}, e, false) && e + ElemsS(s.sub) == LoopElems(s)
    && w0.LoopW? && LoopParts(v.f.g, s, w0) && CurOf(v) == w0.next
    && var x := w0.fb;
    && |v1.f.g| <= x < |v.f.g| && x != EXIT && Some(x) != v.f.sw
    && v.f.g[x].term == Branching(s.id) && v.f.g[x].succs == [] && !v.f.g[x].edges
  }

  lemma ReadyPlain(s: Stmt, v1: Snap, v: Snap, cw: ExprWit, x: nat, entry: nat) returns (w0: StmtWit)
    requires IsLoop(s) && !(s.For? && s.inc.Some?) && OkCursor(v1)
    requires CondBuilt(v1, v, s.id, CondOf(s), cw, x, entry)
    ensures Ready(s, w0, v1, v, ElemsO(CondOf(s))) && w0.fb == x && w0.head == Entry(v.f.g, entry)
  {
    hide Sound, MatchE, Moved, ElemsS, ElemsE;
    var head := Entry(v.f.g, entry);
    w0 := LoopW(NoE, head, head, NoE, head, head, cw, x, head, head, NoS);
    var e := ElemsO(CondOf(s));
    assert e + multiset{} == e;
  }

  /** The increment has been built between the condition, at v, and the body. */
  lemma ReadyInc(s: Stmt, v1: Snap, v: Snap, v': Snap, cw: ExprWit, x: nat, entry: nat, iw: ExprWit, end: Pos)
    returns (w0: StmtWit)
    requires s.For? && s.inc.Some? && OkCursor(v1) && OkCursor(v')
    requires CondBuilt(v1, v, s.id, s.cond, cw, x, entry)
    requires Moved(v, v', multiset{}, ElemsE(s.inc.value, true), false) && v'.block.None? && Closed(v'.f.g, CurOf(v'))
    requires MatchE(v'.f.g, s.inc.value, iw, true, CurOf(v'), end) && Goes(v'.f.g, end, Entry(v.f.g, entry))
    ensures Ready(s, w0, v1, v', ElemsO(s.cond) + ElemsE(s.inc.value, true)) && w0.fb == x && w0.head == Entry(v.f.g, entry)
  {
    hide Sound, MatchE, Moved, ElemsS, ElemsE, LoopParts;
    var g, g', head := v.f.g, v'.f.g, Entry(v.f.g, entry);
    MovedExtends(v, v', multiset{}, ElemsE(s.inc.value, true), false);
    MovedCode(v1, v, v', multiset{}, ElemsO(s.cond), false, ElemsE(s.inc.value, true));
    MovedAt(v, v', x, multiset{}, ElemsE(s.inc.value, true), false);
    StepMono(g, g', head, head);
    if s.cond.Some? { MatchEMono(g, g', s.cond.value, cw, true, head, Pos(x, 0)); }
    w0 := LoopW(NoE, head, CurOf(v'), iw, end, head, cw, x, head, head, NoS);
    assert head == Pos(x, 0) ==> Entry(g', x) == head by { StepMono(g, g', head, head); }
    IncParts(g', s, w0);
  }

  lemma {:induction false} IncParts(g: Graph, s: Stmt, w: StmtWit)
    requires s.For? && s.inc.Some? && w.LoopW? && Closed(g, w.next) && Closed(g, w.head)
    requires if s.cond.Some? then MatchE(g, s.cond.value, w.e, true, w.head, Pos(w.fb, 0)) else w.head == Pos(w.fb, 0)
    requires MatchE(g, s.inc.value, w.inc, true, w.next, w.incEnd) && Goes(g, w.incEnd, w.head)
    ensures LoopParts(g, s, w)
  {
    hide MatchE;
  }

  lemma KeepClosed(s: Stmt, w0: StmtWit, v1: Snap, v: Snap, e: multiset<Item>, q: Pos)
    requires Ready(s, w0, v1, v, e) && Closed(v1.f.g, q) && Unused(Names(s.sub), v1)
    ensures Closed(v.f.g, q) && Unused(Names(s.sub), v) && OkCursor(v) && v.block.None?
  {
    hide Moved, LoopParts, Unused, ElemsS, Names;
    MovedExtends(v1, v, multiset{}, e, false);
    StepMono(v1.f.g, v.f.g, q, q);
    UnusedKept(Names(s.sub), v1, v, e);
  }

  /** The parts, the body and the edges make the loop. */
  lemma LoopOfParts(s: Stmt, w0: StmtWit, w: StmtWit, v1: Snap, v2: Snap, v3: Snap, v4: Snap, v5: Snap,
                    entry: nat, body: nat, e: multiset<Item>)
    requires Ready(s, w0, v1, v2, e) && Sound(v4.f)
    requires Moved(v2, v3, Names(s.sub), ElemsS(s.sub), Stray(s.sub, true, true)) && v3.block.None?
    requires BodyLinked(s, w0, w, v2, v3, v4, body, CurOf(v1))
    requires v5 == v4.(succ := Some(entry)) && entry == w0.head.b
    ensures LoopBuilt(s, w, v1, v5, entry, body)
  {
    hide Sound, Framed, LoopOk, LoopParts, Stray, Moved, Extends, ElemsS;
    var st := Stray(s.sub, true, true);
    MovedTrans(v1, v2, v3, multiset{}, e, false, Names(s.sub), ElemsS(s.sub), st);
    assert multiset{} + Names(s.sub) == Names(s.sub);
    MovedDecided(v1, v3, v4, w0.fb, s.id, body, CurOf(v1).b, Names(s.sub), LoopElems(s), st);
    MovedSucc(v1, v4, v5, Names(s.sub), LoopElems(s), st);
  }

  lemma MovedSucc(v: Snap, v1: Snap, v2: Snap, names: multiset<Target>, elems: multiset<Item>, stray: bool)
    requires Moved(v, v1, names, elems, stray) && v2 == v1.(succ := v2.succ)
    ensures Moved(v, v2, names, elems, stray)
  {
    forall t ensures Used(t, v2) <==> Used(t, v) || t in names {
      assert Used(t, v1) <==> Used(t, v) || t in names;
    }
  }

  // ---------------------------------------------------------------- jumps

  /** A new current block, with draft d. */
  ghost predicate BlockAdded(v: Snap, v': Snap, d: Draft) {
    && v.block.None? && v'.block == Some(|v.f.g|) && |v.f.g| !in v.f.open && OkCursor(v')
    && v'.f == v.f.(bs := v'.f.bs, g := v.f.g + [d], open := v.f.open + {|v.f.g|}, backpatch := v'.f.backpatch)
    && Sound(v'.f)
  }

  lemma MovedBlock(v: Snap, v': Snap, d: Draft, stray: bool)
    requires BlockAdded(v, v', d) && (v'.bad <==> v.bad || stray)
    ensures Moved(v, v', multiset{}, multiset{}, stray) && Extends(v.f.g, v'.f.g)
    ensures CurOf(v') == Pos(|v.f.g|, |d.rev|) && v'.f.g[|v.f.g|] == d
  {
    hide Sound;
    FramedRefl(v.f.g, v.block, v.f.sw);
    FramedAppend(v.f.g, v.f.g, d, v.block, v.f.sw);
    FramedExtends(v.f.g, v'.f.g, v.block, v.f.sw);
    assert v.f.placed + multiset{} == v.f.placed;
  }

  lemma VisitedJump(s: Stmt, v0: Snap, v1: Snap, v2: Snap, to: Option<nat>)
    requires (s.Break? && to == v1.f.brk) || (s.Continue? && to == v1.f.cont)
    requires OkCursor(v0) && OkCursor(v1) && CurOf(v1) == CurOf(v0) && Moved(v0, v1, multiset{}, multiset{}, false)
    requires BlockAdded(v1, v2, Draft([], false, false, Jumping(s.id), if to.Some? then [to.value] else [], true, NoMark))
    requires v2.bad <==> v1.bad || to.None?
    ensures Visited(s, NoS, v0, v2)
  {
    hide Sound, Framed;
    MovedBlock(v1, v2, v2.f.g[|v1.f.g|], to.None?);
    var names: multiset<Target>, elems: multiset<Item> := multiset{}, multiset{};
    MovedTrans(v0, v1, v2, names, elems, false, names, elems, to.None?);
    assert names + names == names && elems + elems == elems;
  }

  lemma VisitedGoto(s: Stmt, v0: Snap, v1: Snap, v2: Snap, d: Draft)
    requires s.Goto? && OkCursor(v0) && OkCursor(v1) && CurOf(v1) == CurOf(v0) && Moved(v0, v1, multiset{}, multiset{}, false)
    requires BlockAdded(v1, v2, d) && d.rev == [] && d.term == Going(s.id, s.dest) && v2.bad == v1.bad
    ensures Visited(s, NoS, v0, v2)
  {
    hide Sound, Framed;
    MovedBlock(v1, v2, d, false);
    MovedOn(v0, v1, v2, multiset{}, multiset{}, false);
  }

  lemma {:induction false} VisitedReturn(s: Stmt, v0: Snap, v1: Snap, v2: Snap, v3: Snap, v4: Snap, aw: ArgsWit)
    requires s.Return? && OkCursor(v0) && OkCursor(v1) && CurOf(v1) == CurOf(v0) && Moved(v0, v1, multiset{}, multiset{}, false)
    requires BlockAdded(v1, v2, Draft([], false, false, NoTerm, [EXIT], true, NoMark)) && v2.bad == v1.bad && |v1.f.g| > EXIT
    requires OkCursor(v3) && v3.block == v2.block && Moved(v2, v3, multiset{}, multiset{Held(s.id)}, false)
    requires IsElem(v3.f.g, CurOf(v3), CurOf(v2), s.id)
    requires OkCursor(v4) && v4.block.Some? && Sound(v4.f) && Moved(v3, v4, multiset{}, ElemsArgs(OptionArgs(s.value)), false)
    requires MatchArgs(v4.f.g, OptionArgs(s.value), aw, CurOf(v4), CurOf(v3))
    ensures Visited(s, ReturnW(aw, CurOf(v3)), v0, v4)
  {
    hide Moved, Framed, MatchArgs, ElemsArgs;
    assert v2.f.g[EXIT] == ExitDraft;
    hide Sound;
    ReturnParts(s, v0.f.brk.Some?, v0.f.cont.Some?);
    hide Names, ElemsS, Stray;
    var b := |v1.f.g|;
    MovedBlock(v1, v2, v2.f.g[b], false);
    MovedOn(v0, v1, v2, multiset{}, multiset{}, false);
    MovedCode(v0, v2, v3, multiset{}, multiset{}, false, multiset{Held(s.id)});
    MovedCode(v0, v3, v4, multiset{}, multiset{} + multiset{Held(s.id)}, false, ElemsArgs(OptionArgs(s.value)));
    MovedExtends(v2, v3, multiset{}, multiset{Held(s.id)}, false);
    MovedExtends(v3, v4, multiset{}, ElemsArgs(OptionArgs(s.value)), false);
    StepMono(v2.f.g, v3.f.g, Pos(b, 0), Pos(EXIT, 0));
    StepMono(v3.f.g, v4.f.g, Pos(b, 0), Pos(EXIT, 0));
    StepMono(v3.f.g, v4.f.g, CurOf(v3), Pos(b, 0));
  }

  lemma {:induction false} ReturnParts(s: Stmt, b: bool, c: bool)
    requires s.Return?
    ensures Names(s) == multiset{} && !Stray(s, b, c)
    ensures multiset{} + multiset{Held(s.id)} + ElemsArgs(OptionArgs(s.value)) == ElemsS(s)
  {
    hide ElemsArgs;
  }

  lemma VisitedEval(s: Stmt, v: Snap, v': Snap, w: ExprWit, end: Pos)
    requires s.Eval? && ExprAdded(v, v', s.e, w, end)
    ensures Visited(s, EvalW(w, end), v, v')
  {
    hide Sound, Moved, MatchE;
    assert Names(s) == multiset{};
  }

  lemma VisitedCompound(s: Stmt, v: Snap, v': Snap, w: ListWit)
    requires s.Compound? && VisitedL(s.body, w, v, v')
    ensures Visited(s, ListW(w), v, v')
  {
    hide Sound, Moved, MatchL, LabelsIn, ArmsIn, ElemsL, StrayIn;
  }

  lemma VisitedNull(v: Snap)
    requires Sound(v.f) && OkCursor(v)
    ensures Visited(Null, NoS, v, v)
  {
    hide Sound;
    MovedRefl(v);
  }

  // ---------------------------------------------------------------- labels

  /** Block b, with the mark m, starts the code built so far, and nothing is put in front of it any more. */
  ghost predicate Labelled(v: Snap, v': Snap, m: Mark, b: nat) {
    && Sound(v'.f) && OkCursor(v) && OkCursor(v') && v'.block.None? && v'.succ == Some(b) && b < |v'.f.g|
    && v'.f == v.f.(bs := v'.f.bs, g := v'.f.g, open := v'.f.open, placed := v'.f.placed)
    && Moved(v, v', multiset{}, multiset{Marked(m)}, false)
    && Closed(v'.f.g, Entry(v'.f.g, b)) && v'.f.g[b].mark == m && Goes(v'.f.g, Entry(v'.f.g, b), CurOf(v))
  }

  function MarkTarget(s: Stmt): Target
    requires s.Case? || s.Default? || s.Label?
  {
    if s.Case? then ToCase(s.id) else if s.Default? then ToDefault else ToLabel(s.id)
  }

  function MarkOf(s: Stmt): Mark
    requires s.Case? || s.Default? || s.Label?
  {
    if s.Case? then AtCase(s.id) else if s.Default? then AtDefault(s.id) else AtLabel(s.id)
  }

  /** The place of s is registered under its name. */
  ghost predicate Registered(s: Stmt, v: Snap, v': Snap, b: nat)
    requires s.Case? || s.Default? || s.Label?
  {
    && v'.block.None? && v'.succ == v.succ && Sound(v'.f) && OkCursor(v')
    && Moved(v, v', multiset{MarkTarget(s)}, multiset{}, false)
    && (if s.Label? then s.id in v'.f.lm && v'.f.lm[s.id] == b
        else MarkTarget(s) in v'.f.arms && v'.f.arms[MarkTarget(s)] == b)
  }

  lemma {:induction false} MarkFacts(s: Stmt, b: bool, c: bool)
    requires s.Case? || s.Default? || s.Label?
    ensures Names(s) == Names(s.sub) + multiset{MarkTarget(s)}
    ensures ElemsS(s) == ElemsS(s.sub) + multiset{Marked(MarkOf(s))} && Stray(s, b, c) == Stray(s.sub, b, c)
  {
    assert ElemsS(s) == ElemsS(s.sub) + multiset{Marked(MarkOf(s))} && Stray(s, b, c) == Stray(s.sub, b, c);
    hide ElemsS, Stray;
    MarkNamed(s);
    MarkNames(Labels(s.sub), Arms(s.sub), multiset{MarkTarget(s)});
  }

  lemma {:induction false} MarkNamed(s: Stmt)
    requires s.Case? || s.Default? || s.Label?
    ensures if s.Label? then Labels(s) == Labels(s.sub) + multiset{MarkTarget(s)} && Arms(s) == Arms(s.sub)
            else Labels(s) == Labels(s.sub) && Arms(s) == Arms(s.sub) + multiset{MarkTarget(s)}
  {
  }

  lemma MarkNames(l: multiset<Target>, a: multiset<Target>, m: multiset<Target>)
    ensures (l + a) + m == l + (a + m) == (l + m) + a
  {
  }

  lemma VisitedMark(s: Stmt, w: StmtWit, v0: Snap, v1: Snap, v2: Snap, v3: Snap, b: nat)
    requires s.Case? || s.Default? || s.Label?
    requires Visited(s.sub, w, v0, v1) && Labelled(v1, v2, MarkOf(s), b) && Registered(s, v2, v3, b)
    ensures Visited(s, MarkW(CurOf(v1), w), v0, v3)
  {
    hide Sound, Moved, MatchS, ElemsS, Framed, Names, Stray;
    var sub, t := s.sub, MarkTarget(s);
    var st := Stray(sub, v0.f.brk.Some?, v0.f.cont.Some?);
    var added := multiset{Marked(MarkOf(s))};
    MovedCode(v0, v1, v2, Names(sub), ElemsS(sub), st, added);
    MovedTrans(v0, v2, v3, Names(sub), ElemsS(sub) + added, st, multiset{t}, multiset{}, false);
    MarkFacts(s, v0.f.brk.Some?, v0.f.cont.Some?);
    assert ElemsS(sub) + added + multiset{} == ElemsS(s);
    MovedExtends(v1, v2, multiset{}, added, false);
    MovedExtends(v2, v3, multiset{t}, multiset{}, false);
    ExtendsTrans(v1.f.g, v2.f.g, v3.f.g);
    MatchSMono(v1.f.g, v3.f.g, v1.f.lm, v3.f.lm, sub, w, CurOf(v1), CurOf(v0), CtxOf(v1), CtxOf(v3));
    MarkMatch(v3, s, w, v2, b, CurOf(v1), CurOf(v0));
  }

  lemma {:induction false} MarkMatch(v3: Snap, s: Stmt, w: StmtWit, v2: Snap, b: nat, bin: Pos, q: Pos)
    requires s.Case? || s.Default? || s.Label?
    requires OkCursor(v2) && v2.block.None? && v2.succ == Some(b) && Extends(v2.f.g, v3.f.g)
    requires Closed(v2.f.g, CurOf(v2)) && v2.f.g[b].mark == MarkOf(s) && Goes(v2.f.g, CurOf(v2), bin)
    requires Registered(s, v2, v3, b)
    requires MatchS(v3.f.g, v3.f.lm, s.sub, w, bin, q, CtxOf(v3))
    ensures MatchS(v3.f.g, v3.f.lm, s, MarkW(bin, w), CurOf(v3), q, CtxOf(v3))
  {
    hide Sound, Moved;
    assert Grows(v2.f.g[b], v3.f.g[b]);
    StepMono(v2.f.g, v3.f.g, CurOf(v2), bin);
  }

  // ---------------------------------------------------------------- switch

  const PlainDraft := Draft([], false, false, NoTerm, [], false, NoMark)

  /** The fields for the body of a switch whose block x has just been created. */
  ghost function Opened(f: Sheet, x: nat, after: nat): Sheet {
    f.(brk := Some(after), sw := Some(x), dflt := Some(after), arms := map[])
  }

  /** The fields of the enclosing switch again. */
  ghost function Reopened(f: Sheet, outer: Sheet): Sheet {
    f.(brk := outer.brk, sw := outer.sw, dflt := outer.dflt, arms := outer.arms)
  }

  lemma SoundOpened(f: Sheet, x: nat, after: nat)
    requires Sound(f) && Ended(f.g, Some(after)) && x < |f.g| && f.g[x] == PlainDraft
    ensures Sound(Opened(f, x, after))
  {
    hide Drawn, Total;
  }

  /** The inner names are unused when the switch is opened. */
  lemma {:induction false} UnusedOpened(s: Stmt, v: Snap, v2: Snap)
    requires s.Switch? && Fit(s) && Unused(Names(s), v)
    requires v2.f.lm == v.f.lm && v2.f.arms == map[] && v2.f.sw.Some?
    ensures Unused(Names(s.sub), v2)
  {
    hide Fit;
    forall t | t in Names(s.sub)
      ensures Names(s.sub)[t] == 1 && !Used(t, v2)
    {
      NameKinds(s.sub, t);
      if t.ToLabel? {
        assert t in Names(s) && Names(s)[t] == Labels(s.sub)[t];
        assert !Used(t, v);
      } else {
        ArmsDistinct(s, t);
      }
    }
  }

  lemma {:induction false} ArmsDistinct(s: Stmt, t: Target)
    requires s.Switch? && Fit(s)
    ensures Arms(s.sub)[t] <= 1
  {
  }

  /** Before the visit of the body, v1; with the block of the switch, v2; after the visit, v3. */
  lemma FramedSwitch(v1: Snap, v2: Snap, v3: Snap, x: nat, after: nat, names: multiset<Target>, elems: multiset<Item>, stray: bool)
    requires Sound(v1.f) && Sound(v3.f) && v1.block.None? && v2.block.None? && x == |v1.f.g| && v2.f.g == v1.f.g + [PlainDraft]
    requires v2.f == Opened(v1.f.(bs := v2.f.bs, g := v2.f.g, open := v2.f.open), x, after)
    requires Moved(v2, v3, names, elems, stray)
    ensures Framed(v1.f.g, v3.f.g, None, None) && Sound(Reopened(v3.f, v1.f))
    ensures x < |v3.f.g| && v3.f.g[x].term == NoTerm && !v3.f.g[x].edges && !v3.f.g[x].sealed && v3.f.g[x].mark == NoMark
    ensures v3.f.g[x].rev == []
  {
    hide Drawn, Total, SwitchOk;
    FramedRefl(v1.f.g, None, None);
    FramedAppend(v1.f.g, v1.f.g, PlainDraft, None, None);
    FramedTrans(v1.f.g, v2.f.g, v3.f.g, None, None, Some(x), None);
    FramedExtends(v1.f.g, v3.f.g, None, None);
    EndedKept(v1.f.g, v3.f.g, v1.f.brk);
    assert KeptAt(v2.f.g, v3.f.g, x, None, Some(x));
    SwitchReopened(v1.f.g, v3.f.g, v1.f.sw, v1.f.dflt, v1.f.arms);
  }

  lemma SwitchReopened(g1: Graph, g3: Graph, sw: Option<nat>, dflt: Option<nat>, arms: map<Target, nat>)
    requires SwitchOk(g1, sw, dflt, arms) && Framed(g1, g3, None, None)
    ensures SwitchOk(g3, sw, dflt, arms)
  {
    FramedExtends(g1, g3, None, None);
    if sw.Some? { Untouched(g1, g3, sw.value, None, None); }
    SwitchKept(g1, g3, sw, dflt, arms);
  }

  /** The block x of the switch closed: its last successor is `last`. */
  function Switched(g: Graph, x: nat, id: Id, last: nat): Graph
    requires x < |g|
  {
    g[x := g[x].(succs := g[x].succs + [last], term := Switching(id), edges := true)]
  }

  /** All states of a switch but those of its condition. */
  ghost predicate SwitchBuilt(s: Stmt, v1: Snap, v2: Snap, v3: Snap, v5: Snap, x: nat, w: StmtWit, b: Way) {
    && s.Switch? && Sound(v1.f) && OkCursor(v1) && v1.block.None? && Closed(v1.f.g, CurOf(v1)) && x == |v1.f.g|
    && v2.f.g == v1.f.g + [PlainDraft] && v2.f.open == v1.f.open + {x} && x !in v1.f.open
    && v2 == v1.(f := Opened(v1.f.(bs := v2.f.bs, g := v2.f.g, open := v2.f.open), x, CurOf(v1).b))
    && Branched(s.sub, w, v2, v3, b)
    && x < |v3.f.g| && v3.f.dflt.Some?
    && v5.block == Some(x) && v5.bad == v3.bad && OkCursor(v5)
    && v5.f == Reopened(v3.f, v1.f).(bs := v5.f.bs, g := Switched(v3.f.g, x, s.id, v3.f.dflt.value))
  }

  /** The body of a switch has been visited, and the enclosing context is back. */
  ghost predicate SwitchVisited(s: Stmt, v1: Snap, v2: Snap, v3: Snap, v4: Snap, x: nat, w: StmtWit, b: Way) {
    && s.Switch? && Sound(v1.f) && OkCursor(v1) && v1.block.None? && Closed(v1.f.g, CurOf(v1)) && x == |v1.f.g|
    && v2.f.g == v1.f.g + [PlainDraft] && v2.f.open == v1.f.open + {x} && x !in v1.f.open
    && v2 == v1.(f := Opened(v1.f.(bs := v2.f.bs, g := v2.f.g, open := v2.f.open), x, CurOf(v1).b))
    && Branched(s.sub, w, v2, v3, b)
    && v4 == v3.(f := Reopened(v3.f, v1.f))
  }

  lemma SwitchState(s: Stmt, v1: Snap, v2: Snap, v3: Snap, v4: Snap, x: nat, w: StmtWit, b: Way)
    requires SwitchVisited(s, v1, v2, v3, v4, x, w, b)
    ensures v4.f.g == v3.f.g
  {
    hide Sound, Branched;
  }

  lemma BuiltSwitch(s: Stmt, v1: Snap, v2: Snap, v3: Snap, v4: Snap, v5: Snap, x: nat, w: StmtWit, b: Way)
    requires SwitchVisited(s, v1, v2, v3, v4, x, w, b) && x < |v3.f.g| && v3.f.dflt.Some?
    requires v5.block == Some(x) && v5.bad == v4.bad && OkCursor(v5)
    requires v5.f == v4.f.(bs := v5.f.bs, g := Switched(v4.f.g, x, s.id, v3.f.dflt.value))
    ensures SwitchBuilt(s, v1, v2, v3, v5, x, w, b)
  {
    hide Sound, Branched;
  }

  lemma MovedSwitch(s: Stmt, v1: Snap, v2: Snap, v3: Snap, v5: Snap, x: nat, w: StmtWit, b: Way)
    requires SwitchBuilt(s, v1, v2, v3, v5, x, w, b)
    ensures Moved(v1, v5, Names(s), ElemsS(s.sub), Stray(s.sub, true, v1.f.cont.Some?))
    ensures CurOf(v5) == Pos(x, 0) && Extends(v3.f.g, v5.f.g)
  {
    hide Sound, MatchS, ElemsS, Stray, Framed;
    var st := Stray(s.sub, true, v1.f.cont.Some?);
    BranchedFacts(s.sub, w, v2, v3, b);
    FramedSwitch(v1, v2, v3, x, CurOf(v1).b, Names(s.sub), ElemsS(s.sub), st);
    FramedUpdate(v1.f.g, v3.f.g, x, v5.f.g[x], None, None);
    FramedWeaken(v1.f.g, v5.f.g, None, v1.f.sw);
    ExtendsUpdate(v3.f.g, x, v5.f.g[x]);
    forall t
      ensures Used(t, v5) <==> Used(t, v1) || t in Names(s)
    {
      NameKinds(s.sub, t);
      assert Used(t, v3) <==> Used(t, v2) || t in Names(s.sub);
    }
    NameKinds(s.sub, ToDefault);
  }

  lemma TailOfSwitch(s: Stmt, v1: Snap, v2: Snap, v3: Snap, v5: Snap, x: nat, w: StmtWit, b: Way, ew: ExprWit)
    returns (sw: StmtWit)
    requires SwitchBuilt(s, v1, v2, v3, v5, x, w, b) && Extends(v3.f.g, v5.f.g)
    ensures sw.SwitchW? && sw.e == ew && sw.fb == x
    ensures SwitchTail(v5.f.g, v5.f.lm, s.id, s.sub, sw, CurOf(v1), CtxOf(v5))
  {
    hide MatchS, ElemsS, Stray, Framed, Drawn, Total, CasesLinked;
    var q, succs, arms := CurOf(v1), v3.f.g[x].succs, v3.f.arms;
    ClosedPlace(s.sub, w, v2, v3, b);
    BranchedFacts(s.sub, w, v2, v3, b);
    StepMono(v3.f.g, v5.f.g, q, q);
    sw := SwitchW(ew, x, b.start, w, arms);
    MatchSMono(v3.f.g, v5.f.g, v3.f.lm, v5.f.lm, s.sub, w, b.start, q, CtxOf(v3), CtxOf(v3));
    forall t: Target | !t.ToLabel?
      ensures t in arms <==> t in Arms(s.sub)
    {
      NameKinds(s.sub, t);
      assert Used(t, v3) <==> Used(t, v2) || t in Names(s.sub);
    }
    CasesLinkedMono(v3.f.g, v5.f.g, succs, arms);
    var last := v5.f.g[x].succs;
    assert last[..|last| - 1] == succs;
    NameKinds(s.sub, ToDefault);
  }

  lemma VisitedSwitch(s: Stmt, v0: Snap, v1: Snap, v2: Snap, v3: Snap, v5: Snap, v6: Snap, x: nat,
                      bw: StmtWit, b: Way, ew: ExprWit, end: Pos) returns (w: StmtWit)
    requires OkCursor(v0) && OkCursor(v1) && CurOf(v1) == CurOf(v0) && Moved(v0, v1, multiset{}, multiset{}, false)
    requires SwitchBuilt(s, v1, v2, v3, v5, x, bw, b) && ExprAdded(v5, v6, s.test, ew, end)
    ensures Visited(s, w, v0, v6)
  {
    hide Sound, MatchS, MatchE, Moved, ElemsS, ElemsE, Stray, Framed, SwitchTail;
    var st := Stray(s.sub, true, v1.f.cont.Some?);
    MovedSwitch(s, v1, v2, v3, v5, x, bw, b);
    w := TailOfSwitch(s, v1, v2, v3, v5, x, bw, b, ew);
    MovedExtends(v0, v1, multiset{}, multiset{}, false);
    MovedTrans(v0, v1, v5, multiset{}, multiset{}, false, Names(s), ElemsS(s.sub), st);
    assert multiset{} + Names(s) == Names(s) && multiset{} + ElemsS(s.sub) == ElemsS(s.sub);
    MovedCode(v0, v5, v6, Names(s), ElemsS(s.sub), st, ElemsE(s.test, true));
    SwitchFacts(s, v0.f.brk.Some?, v0.f.cont.Some?);
    MovedExtends(v5, v6, multiset{}, ElemsE(s.test, true), false);
    SwitchTailMono(v5.f.g, v6.f.g, v5.f.lm, v6.f.lm, s.id, s.sub, w, CurOf(v0), CtxOf(v5), CtxOf(v6));
    MatchSwitch(v6.f.g, v6.f.lm, s, w, CurOf(v6), CurOf(v0), CtxOf(v6));
  }

  lemma {:induction false} SwitchFacts(s: Stmt, b: bool, c: bool)
    requires s.Switch?
    ensures ElemsS(s) == ElemsS(s.sub) + ElemsE(s.test, true) && Stray(s, b, c) == Stray(s.sub, true, c)
  {
  }

  lemma {:induction false} MatchSwitch(g: Graph, lm: map<Id, nat>, s: Stmt, w: StmtWit, p: Pos, q: Pos, c: Ctx)
    requires s.Switch? && w.SwitchW? && MatchE(g, s.test, w.e, true, p, Pos(w.fb, 0)) && SwitchTail(g, lm, s.id, s.sub, w, q, c)
    ensures MatchS(g, lm, s, w, p, q, c)
  {
  }

  // ---------------------------------------------------------------- lists of statements

  lemma {:induction false} ListParts(ss: seq<Stmt>, i: nat)
    requires i < |ss|
    ensures LabelsIn(ss[..i + 1]) == LabelsIn(ss[..i]) + Labels(ss[i])
    ensures ArmsIn(ss[..i + 1]) == ArmsIn(ss[..i]) + Arms(ss[i])
    decreases i
  {
    var a, b := ss[..i + 1], ss[..i];
    if i == 0 {
      assert a[1..] == [] && a[0] == ss[0];
    } else {
      ListParts(ss[1..], i - 1);
      assert a[1..] == ss[1..][..i] && b[1..] == ss[1..][..i - 1] && a[0] == b[0] == ss[0] && ss[1..][i - 1] == ss[i];
      assert LabelsIn(a) == Labels(ss[0]) + LabelsIn(ss[1..][..i]);
      assert ArmsIn(a) == Arms(ss[0]) + ArmsIn(ss[1..][..i]);
    }
  }

  lemma ListNames(ss: seq<Stmt>, i: nat)
    requires i < |ss|
    ensures NamesIn(ss[..i + 1]) == NamesIn(ss[..i]) + Names(ss[i])
  {
    hide LabelsIn, ArmsIn, Labels, Arms;
    ListParts(ss, i);
  }

  lemma {:induction false} FitAt(ss: seq<Stmt>, i: nat)
    requires i < |ss| && AllFit(ss)
    ensures Fit(ss[i])
    decreases i
  {
    if i > 0 { FitAt(ss[1..], i - 1); }
  }

  lemma {:induction false} BlockAfterCons(ss: seq<Stmt>, block: bool)
    requires ss != []
    ensures BlockAfterAll(ss, block) == BlockAfter(ss[0], BlockAfterAll(ss[1..], block))
  {
  }

  lemma CompoundNames(s: Stmt)
    requires s.Compound?
    ensures Names(s) == NamesIn(s.body)
  {
  }

  lemma {:induction false} VisitedMoved(s: Stmt, w: StmtWit, v: Snap, v': Snap)
    requires Visited(s, w, v, v')
    ensures Moved(v, v', Names(s), ElemsS(s), Stray(s, v.f.brk.Some?, v.f.cont.Some?))
    ensures v'.block.Some? <==> BlockAfter(s, v.block.Some?)
  {
    hide Sound, Moved, MatchS;
  }

  /** The current block gets a label and is finished. */
  lemma LabelledBlock(v: Snap, v1: Snap, v2: Snap, m: Mark, b: nat)
    requires OkCursor(v) && OkCursor(v1) && v1.block == Some(b) && Goes(v1.f.g, CurOf(v1), CurOf(v))
    requires Moved(v, v1, multiset{}, multiset{}, false) && v1.f == v.f.(bs := v1.f.bs, g := v1.f.g, open := v1.f.open)
    requires v2.block.None? && v2.succ == Some(b) && v2.bad == v1.bad && Sound(v2.f)
    requires v2.f == v1.f.(bs := v2.f.bs, g := v1.f.g[b := v1.f.g[b].(mark := m, reversed := true, sealed := true)], open := v1.f.open - {b},
                           placed := v1.f.placed + multiset{Marked(m)})
    ensures Labelled(v, v2, m, b)
  {
    hide Sound, Moved, Framed, Goes;
    FramedRefl(v1.f.g, v1.block, None);
    FramedUpdate(v1.f.g, v1.f.g, b, v2.f.g[b], v1.block, None);
    var added := multiset{Marked(m)};
    MovedPlain(v1, v2, added);
    MovedCode(v, v1, v2, multiset{}, multiset{}, false, added);
    assert multiset{} + added == added;
    MovedExtends(v1, v2, multiset{}, added, false);
    StepMono(v1.f.g, v2.f.g, CurOf(v1), CurOf(v));
  }

  lemma CaseFrame(g: Graph, g': Graph, x: nat, b: nat)
    requires x < |g| && !g[x].edges && !g[x].sealed && g' == g[x := g[x].(succs := g[x].succs + [b])]
    ensures Framed(g, g', None, Some(x))
  {
    FramedRefl(g, None, Some(x));
    FramedUpdate(g, g, x, g'[x], None, Some(x));
  }

  lemma {:induction false} MarkUnused(s: Stmt, v: Snap)
    requires s.Case? || s.Default? || s.Label?
    requires Unused(Names(s), v) && Fit(s)
    ensures Unused(Names(s.sub), v) && Fit(s.sub)
  {
    MarkFacts(s, true, true);
    UnusedPart(v, Names(s), Names(s.sub), multiset{MarkTarget(s)});
  }

  lemma MarkStillUnused(s: Stmt, w: StmtWit, v: Snap, v': Snap)
    requires s.Case? || s.Default? || s.Label?
    requires Unused(Names(s), v) && Visited(s.sub, w, v, v')
    ensures !Used(MarkTarget(s), v') && (!s.Label? ==> v'.f.sw.Some?)
  {
    hide Sound, MatchS, Fit, ElemsS, Stray, Names, Framed;
    var t := MarkTarget(s);
    MarkFacts(s, true, true);
    VisitedMoved(s.sub, w, v, v');
    UnusedSplit(v, v', Names(s), Names(s.sub), multiset{t}, ElemsS(s.sub), Stray(s.sub, v.f.brk.Some?, v.f.cont.Some?));
    assert t in multiset{t} && t in Names(s);
  }

  lemma {:induction false} FitSub(s: Stmt)
    requires s.Switch? && Fit(s)
    ensures Fit(s.sub) && Keeps(s.sub)
  {
  }

  lemma SwitchReady(s: Stmt, v1: Snap, v2: Snap, v3: Snap, x: nat, w: StmtWit, b: Way)
    requires s.Switch? && Sound(v1.f) && OkCursor(v1) && v1.block.None? && v2.block.None? && x == |v1.f.g|
    requires v2.f.g == v1.f.g + [PlainDraft]
    requires v2.f == Opened(v1.f.(bs := v2.f.bs, g := v2.f.g, open := v2.f.open), x, CurOf(v1).b)
    requires Branched(s.sub, w, v2, v3, b)
    ensures Sound(Reopened(v3.f, v1.f)) && v3.f.dflt.Some? && v3.block.None? && v3.succ == v2.succ
    ensures x < |v3.f.g| && v3.f.g[x].term == NoTerm && !v3.f.g[x].edges && !v3.f.g[x].sealed && v3.f.g[x].mark == NoMark
    ensures v3.f.cont == v1.f.cont && v1.f.sw != Some(x) && x != EXIT && x in v3.f.open
  {
    hide MatchS, ElemsS, Stray, Framed, Drawn, Total;
    BranchedFacts(s.sub, w, v2, v3, b);
    FramedSwitch(v1, v2, v3, x, CurOf(v1).b, Names(s.sub), ElemsS(s.sub), Stray(s.sub, true, v1.f.cont.Some?));
    Look(v3.f, x);
    if ToDefault in Names(s.sub) {
      assert Used(ToDefault, v3);
    }
  }

  // ---------------------------------------------------------------- the whole graph

  /** A finished control-flow graph; its exit is the first block. */
  datatype CFG = CFG(blocks: seq<Block>, entry: nat)

  /** The graph has exactly the behaviours that the program has for the builder. */
  ghost predicate Implements(cfg: CFG, program: Stmt) {
    forall tr :: Walk(cfg.blocks, cfg.entry, 0, tr) <==> Behaviour(AsBuilt, program, tr)
  }

  /** Every goto leads to the block of its label, or nowhere when there is no such label. */
  ghost predicate GotosResolved(cfg: CFG, program: Stmt) {
    forall b :: 0 <= b < |cfg.blocks| && cfg.blocks[b].term.Going? ==> GotoResolved(cfg.blocks, cfg.blocks[b], program)
  }

  ghost predicate GotoResolved(bs: seq<Block>, blk: Block, program: Stmt)
    requires blk.term.Going?
  {
    if ToLabel(blk.term.dest) in Labels(program) then
      |blk.succs| == 1 && blk.succs[0] < |bs| && bs[blk.succs[0]].mark == AtLabel(blk.term.dest)
    else blk.succs == []
  }

  /** Programs whose labels are distinct and whose case labels are inside switches. */
  ghost predicate Proper(program: Stmt) {
    && Fit(program) && Keeps(program)
    && forall t {:trigger Names(program)[t]} :: Names(program)[t] <= 1 && (t in Names(program) ==> t.ToLabel?)
  }

  const StartSheet := Sheet([Block([], NoTerm, [], NoMark)], [ExitDraft], map[], [], {}, None, None, None, None, map[], multiset{})

  lemma StartSound()
    ensures Sound(StartSheet)
  {
    var s := StartSheet;
    forall b | 0 <= b < |s.g|
      ensures Shows(s.g[b], s.bs[b]) && OpenOk(s.g[b], b, s.open) && GotoOk(s.g[b], b, s.lm, s.backpatch)
    {
    }
    forall l ensures LabelOk(s.g, s.lm, l) {}
    assert s.bs[..0] == [];
  }

  lemma StartUnused(program: Stmt, v: Snap)
    requires Proper(program) && v.f == StartSheet
    ensures Unused(Names(program), v)
  {
    forall t | t in Names(program) ensures Names(program)[t] == 1 && !Used(t, v) {}
  }

  // ---------------------------------------------------------------- patching

  function Patched(s: Sheet, b: nat, kept: seq<nat>, rest: seq<nat>): Sheet
    requires b < |s.bs| == |s.g| && s.g[b].term.Going? && s.g[b].term.dest in s.lm
  {
    var t := s.lm[s.g[b].term.dest];
    s.(bs := s.bs[b := s.bs[b].(succs := s.bs[b].succs + [t])],
       g := s.g[b := s.g[b].(succs := s.g[b].succs + [t], edges := true)],
       backpatch := kept + rest)
  }

  lemma LookPatch(s: Sheet, b: nat)
    requires Sound(s) && b in s.backpatch
    ensures b < |s.g| == |s.bs| && WaitOk(s.g, b) && s.g[b].succs == [] && Shows(s.g[b], s.bs[b]) && b != EXIT
  {
    assert WaitOk(s.g, b) && GotoOk(s.g[b], b, s.lm, s.backpatch);
  }

  /** The goto at the end of block b gets its target, and leaves the list. */
  lemma DrawnPatched(s: Sheet, b: nat, kept: seq<nat>, rest: seq<nat>)
    requires Sound(s) && s.backpatch == kept + [b] + rest
    requires b < |s.bs| == |s.g| && s.g[b].term.Going? && s.g[b].term.dest in s.lm
    ensures var s' := Patched(s, b, kept, rest);
            Drawn(s'.bs, s'.g, s'.lm, s'.backpatch, s'.open) && NoRepeat(s'.backpatch) && Extends(s.g, s'.g)
  {
    var s' := Patched(s, b, kept, rest);
    assert s.backpatch[|kept|] == b;
    LookPatch(s, b);
    forall i | 0 <= i < |s.g|
      ensures Shows(s'.g[i], s'.bs[i]) && OpenOk(s'.g[i], i, s'.open) && GotoOk(s'.g[i], i, s'.lm, s'.backpatch)
    {
      assert Shows(s.g[i], s.bs[i]) && OpenOk(s.g[i], i, s.open) && GotoOk(s.g[i], i, s.lm, s.backpatch);
    }
    forall l ensures LabelOk(s'.g, s'.lm, l) { assert LabelOk(s.g, s.lm, l); }
    NoRepeatWithout(kept, b, rest);
    forall i | i in s'.backpatch ensures WaitOk(s'.g, i) {
      assert i in s.backpatch && WaitOk(s.g, i);
    }
    ExtendsUpdate(s.g, b, s'.g[b]);
  }

  lemma NoRepeatWithout(kept: seq<nat>, b: nat, rest: seq<nat>)
    requires NoRepeat(kept + [b] + rest)
    ensures NoRepeat(kept + rest) && b !in kept + rest
  {
    var s, s' := kept + [b] + rest, kept + rest;
    forall i, j | 0 <= i < j < |s'| ensures s'[i] != s'[j] {
      var i', j' := if i < |kept| then i else i + 1, if j < |kept| then j else j + 1;
      assert s[i'] == s'[i] && s[j'] == s'[j];
    }
    forall i | 0 <= i < |s'| ensures s'[i] != b {
      assert s[|kept|] == b && s[if i < |kept| then i else i + 1] == s'[i];
    }
  }

  lemma SoundPatched(s: Sheet, b: nat, kept: seq<nat>, rest: seq<nat>)
    requires Sound(s) && s.backpatch == kept + [b] + rest && s.sw.None?
    requires b < |s.bs| == |s.g| && s.g[b].term.Going? && s.g[b].term.dest in s.lm
    ensures Sound(Patched(s, b, kept, rest)) && Extends(s.g, Patched(s, b, kept, rest).g)
  {
    var s' := Patched(s, b, kept, rest);
    DrawnPatched(s, b, kept, rest);
    hide Drawn, NoRepeat;
    TotalUpdate(s.bs, b, s'.bs[b], multiset{});
    EndedKept(s.g, s'.g, s.brk);
    EndedKept(s.g, s'.g, s.cont);
  }

  // ---------------------------------------------------------------- conclusion

  /** Once every block is sealed and only gotos without a label wait, the draft is the graph. */
  lemma BuiltOfSound(s: Sheet)
    requires Sound(s) && s.open == {}
    requires forall b :: b in s.backpatch ==> b < |s.g| && s.g[b].term.Going? && s.g[b].term.dest !in s.lm
    ensures Built(s.bs, s.g, s.lm)
  {
    forall b | 0 <= b < |s.g| ensures Finished(s.g[b], s.bs[b]) && GotoLinked(s.g[b], s.lm) {
      assert Shows(s.g[b], s.bs[b]) && OpenOk(s.g[b], b, s.open) && GotoOk(s.g[b], b, s.lm, s.backpatch);
      ReverseInOrder(s.g[b].rev);
    }
  }

  lemma {:induction false} ResolvedOfSound(s: Sheet, program: Stmt, entry: nat)
    requires Sound(s) && Built(s.bs, s.g, s.lm) && forall l :: l in s.lm <==> ToLabel(l) in Labels(program)
    ensures GotosResolved(CFG(s.bs, entry), program)
  {
    forall b | 0 <= b < |s.bs| && s.bs[b].term.Going?
      ensures GotoResolved(s.bs, s.bs[b], program)
    {
      var l := s.bs[b].term.dest;
      assert Finished(s.g[b], s.bs[b]) && GotoLinked(s.g[b], s.lm);
      if l in s.lm { assert LabelOk(s.g, s.lm, l) && Finished(s.g[s.lm[l]], s.bs[s.lm[l]]); }
    }
  }

  lemma ImplementsOfMatch(s: Sheet, program: Stmt, w: StmtWit, first: nat, entry: nat)
    requires Built(s.bs, s.g, s.lm) && first < |s.g|
    requires Whole(s.g, s.lm, program, w, Entry(s.g, first))
    requires entry < |s.g| && s.g[entry].rev == [] && Goes(s.g, Pos(entry, 0), Entry(s.g, first))
    ensures Implements(CFG(s.bs, entry), program)
  {
    hide Built, Whole, Run, Steps, MatchS, Goes;
    var im := Image(s.bs, s.g, s.lm, program, w, Entry(s.g, first));
    var e := Pos(EXIT, 0);
    var k, a := Then(WStmt(program), Stop), ACons(SWit(w), e, e, TopLevel, AStop);
    StartMatch(im, a);
    forall tr
      ensures Walk(s.bs, entry, 0, tr) <==> Behaviour(AsBuilt, program, tr)
    {
      Simulation(im, k, a, im.p, TopLevel, tr);
      AtGoes(s.bs, s.g, s.lm, Pos(entry, 0), im.p, tr);
      AtStart(s, entry, tr);
    }
  }

  lemma {:induction false} StartMatch(im: Image, a: Ann)
    requires Faithful(im) && a == ACons(SWit(im.w), Pos(EXIT, 0), Pos(EXIT, 0), TopLevel, AStop)
    ensures MatchK(im.g, im.lm, Then(WStmt(im.root), Stop), a, im.p, TopLevel)
  {
    hide MatchS, Built;
  }

  lemma AtStart(s: Sheet, entry: nat, tr: seq<Event>)
    requires Built(s.bs, s.g, s.lm) && entry < |s.g| && s.g[entry].rev == []
    ensures At(s.bs, Pos(entry, 0), tr) <==> Walk(s.bs, entry, 0, tr)
  {
    assert Finished(s.g[entry], s.bs[entry]);
    if tr == [] { assert Steps(s.bs, entry, 0, tr, 0); }
  }

  lemma {:induction false} ProperFit(program: Stmt)
    requires Proper(program)
    ensures Fit(program) && Keeps(program)
  {
  }

  lemma {:induction false} VisitedEnd(s: Stmt, w: StmtWit, v0: Snap, v1: Snap)
    requires Visited(s, w, v0, v1) && v0.f == StartSheet && v0.block.None? && v0.succ == Some(EXIT) && !v0.bad
    ensures v1.f.brk.None? && v1.f.cont.None? && v1.f.sw.None? && v1.f.arms == map[] && PendingOf(v1) == {}
    ensures v1.f.placed == ElemsS(s) && (v1.bad <==> Stray(s, false, false))
    ensures forall l :: l in v1.f.lm <==> ToLabel(l) in Labels(s)
    ensures OkCursor(v1) && MatchS(v1.f.g, v1.f.lm, s, w, CurOf(v1), Pos(EXIT, 0), TopLevel)
    ensures v1.block.Some? <==> BlockAfter(s, false)
  {
    hide Drawn, Total, MatchS, Framed, Stray;
    forall l: Id ensures l in v1.f.lm <==> ToLabel(l) in Labels(s) {
      NameKinds(s, ToLabel(l));
      assert Used(ToLabel(l), v1) <==> Used(ToLabel(l), v0) || ToLabel(l) in Names(s);
    }
    assert v1.f.placed == multiset{} + ElemsS(s);
  }

  /** A goto without a label. */
  ghost predicate Dangling(g: Graph, lm: map<Id, nat>, b: nat) {
    b < |g| && g[b].term.Going? && g[b].term.dest !in lm
  }

  lemma IsDangling(g: Graph, lm: map<Id, nat>, b: nat)
    requires b < |g| && g[b].term.Going? && g[b].term.dest !in lm
    ensures Dangling(g, lm, b)
  {
  }

  lemma DanglingMono(g: Graph, g': Graph, lm: map<Id, nat>, b: nat)
    requires Dangling(g, lm, b) && Extends(g, g')
    ensures Dangling(g', lm, b)
  {
    assert Grows(g[b], g'[b]);
  }

  lemma ExtendsRefl(g: Graph)
    ensures Extends(g, g)
  {
  }

  lemma KeptEntry(v: Snap, g2: Graph, g3: Graph, first: nat)
    requires OkCursor(v) && Extends(v.f.g, g2) && Extends(g2, g3)
    requires first < |g2| && g2[first].sealed && Entry(g2, first) == CurOf(v)
    ensures Extends(v.f.g, g3) && first < |g3| && g3[first].sealed && Entry(g3, first) == CurOf(v)
  {
    ExtendsTrans(v.f.g, g2, g3);
    assert Grows(g2[first], g3[first]);
  }

  /** The finished graph of a program that was visited from an empty state, v, to v1. */
  lemma {:induction false} Concluded(program: Stmt, w: StmtWit, v1: Snap, f: Sheet, f': Sheet, first: nat)
    requires OkCursor(v1) && MatchS(v1.f.g, v1.f.lm, program, w, CurOf(v1), Pos(EXIT, 0), TopLevel)
    requires forall l :: l in v1.f.lm <==> ToLabel(l) in Labels(program)
    requires Extends(v1.f.g, f.g) && first < |f.g| && CurOf(v1) == Entry(f.g, first) && f.g[first].sealed
    requires f'.lm == f.lm == v1.f.lm && Sound(f') && f'.open == {} && f'.placed == ElemsS(program)
    requires f'.g == f.g + [Draft([], false, true, NoTerm, [first], true, NoMark)]
    requires forall b :: b in f'.backpatch ==> Dangling(f.g, f.lm, b)
    ensures Implements(CFG(f'.bs, |f.g|), program) && GotosResolved(CFG(f'.bs, |f.g|), program)
    ensures Total(f'.bs) == ElemsS(program)
  {
    hide MatchS, Labels, ElemsS, Implements, GotosResolved, Built, Drawn, Total;
    var g', entry := f'.g, |f.g|;
    ExtendsAppend(f.g, g'[entry]);
    ExtendsTrans(v1.f.g, f.g, g');
    MatchSMono(v1.f.g, g', v1.f.lm, f'.lm, program, w, CurOf(v1), Pos(EXIT, 0), TopLevel, TopLevel);
    assert Whole(g', f'.lm, program, w, Entry(g', first));
    BuiltOfSound(f');
    assert entry != EXIT by { assert f'.g[EXIT] == f'.g[EXIT]; }
    ImplementsOfMatch(f', program, w, first, entry);
    ResolvedOfSound(f', program, entry);
  }
}
