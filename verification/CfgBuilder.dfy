/**
  The construction of a control-flow graph from a statement.

  The builder walks the program backwards: the block under construction (`block`) is
  extended at its front, and when there is none, new code falls through to `succ`.
 */
module CfgBuilder {
  import opened Options
  import opened CfgSyntax
  import opened CfgGraph
  import opened CfgMatch
  import opened CfgSim
  import opened CfgDraft
  import opened CfgVisit
  import CfgModes

  class CFGBuilder {
    var blocks: seq<Block>
    var block: Option<nat>
    var succ: Option<nat>
    var continueTarget: Option<nat>
    var breakTarget: Option<nat>
    var switchBlock: Option<nat>
    var defaultBlock: Option<nat>
    var labelMap: map<Id, nat>
    var backpatch: seq<nat>
    var badCFG: bool

    ghost var g: Graph                // the drafts of the blocks
    ghost var open: set<nat>          // the blocks that can still grow
    ghost var arms: map<Target, nat>  // the arms seen of the current switch
    ghost var placed: multiset<Item>    // the elements handed to AppendElem

    ghost function Fields(): Sheet
      reads this
    {
      Sheet(blocks, g, labelMap, backpatch, open, breakTarget, continueTarget, switchBlock, defaultBlock, arms, placed)
    }

    ghost predicate Core()
      reads this
    {
      Sound(Fields())
    }

    ghost function V(): Snap
      reads this
    {
      Snap(Fields(), block, succ, badCFG)
    }

    ghost predicate Valid()
      reads this
    {
      Sound(Fields()) && OkCursor(V())
    }

    /** Where the code built so far begins. */
    ghost function Cur(): Pos
      reads this
      requires OkCursor(V())
    {
      CurOf(V())
    }

    /** The blocks that can still grow, apart from the current one. */
    ghost function Pending(): set<nat>
      reads this
    {
      PendingOf(V())
    }

    constructor ()
      ensures Fields() == StartSheet.(bs := [], g := []) && block.None? && succ.None? && !badCFG
    {
      blocks, block, succ := [], None, None;
      continueTarget, breakTarget, switchBlock, defaultBlock := None, None, None, None;
      labelMap, backpatch, badCFG := map[], [], false;
      g, open, arms, placed := [], {}, map[], multiset{};
    }

    // -------------------------------------------------------------- operations on blocks

    method CreateBlock(addSuccessor: bool) returns (b: nat)
      requires Core() && succ.Some? && succ.value < |g|
      modifies this`blocks, this`g, this`open
      ensures Core() && b == |old(g)| && open == old(open) + {b} && b !in old(open)
      ensures b != EXIT && Some(b) != switchBlock
      ensures g == old(g) + [Draft([], false, false, NoTerm, if addSuccessor then [succ.value] else [], addSuccessor, NoMark)]
    {
      hide Items, Total, NoRepeat, Shows, GotoOk, CasesLinked;
      b := |blocks|;
      var succs := if addSuccessor && succ.Some? then [succ.value] else [];
      SoundAppend(Fields(), succs, addSuccessor);
      blocks := blocks + [Block([], NoTerm, succs, NoMark)];
      g := g + [Draft([], false, false, NoTerm, succs, addSuccessor, NoMark)];
      open := open + {b};
      assert Fields() == Appended(old(Fields()), succs, addSuccessor);
    }

    /** Replaces block b, which then has the draft d, and accounts for the elements added. */
    method Update(b: nat, blk: Block, ghost d: Draft, ghost more: multiset<Item>)
      requires Core() && Allowed(Fields(), b, blk, d, more)
      modifies this`blocks, this`g, this`open, this`placed
      ensures Core() && b < |old(g)| && g == old(g)[b := d] && placed == old(placed) + more
      ensures open == if d.sealed then old(open) - {b} else old(open)
    {
      hide Items, Total, Drawn, SwitchOk, Ended, NoRepeat, Shows, Grows;
      SoundUpdate(Fields(), b, blk, d, more);
      blocks := blocks[b := blk];
      g := g[b := d];
      open := if d.sealed then open - {b} else open;
      placed := placed + more;
      assert Fields() == Updated(old(Fields()), b, blk, d, more);
    }

    method AppendElem(b: nat, id: Id)
      requires Core() && b in open
      modifies this`blocks, this`g, this`open, this`placed
      ensures Core() && placed == old(placed) + multiset{Held(id)} && open == old(open) && b < |old(g)|
      ensures g == old(g)[b := old(g)[b].(rev := old(g)[b].rev + [id])]
      ensures Framed(old(g), g, Some(b), None) && IsElem(g, Entry(g, b), Entry(old(g), b), id)
    {
      Look(Fields(), b);
      FramedElem(g, b, id);
      ItemsAppend(blocks[b].elems, id);
      Update(b, blocks[b].(elems := blocks[b].elems + [id]), g[b].(rev := g[b].rev + [id]), multiset{Held(id)});
    }

    /** Puts the elements of a block, collected last to first, in order. */
    method FinishBlock(b: nat)
      requires Core() && b in open && Some(b) != switchBlock
      modifies this`blocks, this`g, this`open, this`placed
      ensures Core() && open == old(open) - {b} && placed == old(placed) && b < |old(g)|
      ensures g == old(g)[b := old(g)[b].(reversed := true, sealed := true)]
    {
      Look(Fields(), b);
      ItemsReversed(blocks[b].elems);
      Update(b, blocks[b].(elems := Reverse(blocks[b].elems)), g[b].(reversed := true, sealed := true), multiset{});
    }

    /** Notes that a block remains empty. */
    ghost method SealEmpty(b: nat)
      requires Core() && b in open && Some(b) != switchBlock && b < |g| && g[b].rev == []
      modifies this`g, this`open
      ensures Core() && open == old(open) - {b}
      ensures g == old(g)[b := old(g)[b].(sealed := true)]
    {
      SoundSeal(Fields(), b);
      hide Sound;
      g := g[b := g[b].(sealed := true)];
      open := open - {b};
      assert Fields() == SealedEmpty(old(Fields()), b);
    }

    method SetTerminator(b: nat, t: Term, ghost last: bool)
      requires Core() && b < |g| && Some(b) != switchBlock && b != EXIT
      requires g[b].term == NoTerm && !g[b].edges && !t.Going?
      modifies this`blocks, this`g, this`open, this`placed
      ensures Core() && open == old(open) && placed == old(placed)
      ensures g == old(g)[b := old(g)[b].(term := t, edges := last)]
    {
      Look(Fields(), b);
      hide Sound, ItemsOf;
      Update(b, blocks[b].(term := t), g[b].(term := t, edges := last), multiset{});
    }

    method AddSuccessor(b: nat, s: nat, ghost last: bool)
      requires Core() && b < |g| && Some(b) != switchBlock && b != EXIT && !g[b].edges && !g[b].term.Going?
      modifies this`blocks, this`g, this`open, this`placed
      ensures Core() && open == old(open) && placed == old(placed)
      ensures g == old(g)[b := old(g)[b].(succs := old(g)[b].succs + [s], edges := last)]
    {
      Look(Fields(), b);
      hide Sound, ItemsOf;
      Update(b, blocks[b].(succs := blocks[b].succs + [s]), g[b].(succs := g[b].succs + [s], edges := last), multiset{});
    }

    /** A new block that ends in the two-way terminator id. */
    method NewFork(id: Id) returns (f: nat)
      requires Core() && succ.Some? && succ.value < |g|
      modifies this`blocks, this`g, this`open, this`placed
      ensures Core() && f == |old(g)| && g == Forked(old(g), id) && open == old(open) + {f} && f !in old(open)
      ensures f != EXIT && Some(f) != switchBlock && placed == old(placed)
    {
      f := CreateBlock(false);
      SetTerminator(f, Branching(id), false);
    }

    /** Gives the two-way terminator of f its true and its false successor, in this order. */
    method AddBranches(f: nat, yes: nat, no: nat)
      requires Core() && f < |g| && Some(f) != switchBlock && f != EXIT
      requires g[f].term.Branching? && g[f].succs == [] && !g[f].edges
      modifies this`blocks, this`g, this`open, this`placed
      ensures Core() && g == Decided(old(g), f, old(g)[f].term.id, yes, no) && open == old(open) && placed == old(placed)
    {
      AddSuccessor(f, yes, false);
      AddSuccessor(f, no, true);
      assert [] + [yes] + [no] == [yes, no];
    }

    method SetLabel(b: nat, m: Mark)
      requires Core() && b < |g| && g[b].mark == NoMark && b != EXIT && m != NoMark
      modifies this`blocks, this`g, this`open, this`placed
      ensures Core() && open == old(open) && placed == old(placed) + multiset{Marked(m)}
      ensures g == old(g)[b := old(g)[b].(mark := m)]
    {
      Look(Fields(), b);
      hide Sound, ItemsOf;
      Update(b, blocks[b].(mark := m), g[b].(mark := m), multiset{Marked(m)});
    }

    /** Makes block b the arm of the current switch for the case statement id. */
    method AddCase(b: nat, id: Id)
      requires Core() && switchBlock.Some? && b < |g| && g[b].mark == AtCase(id) && ToCase(id) !in arms
      modifies this`blocks, this`g, this`arms
      ensures Core() && arms == old(arms)[ToCase(id) := b] && switchBlock.value < |old(g)|
      ensures var w := switchBlock.value; g == old(g)[w := old(g)[w].(succs := old(g)[w].succs + [b])]
    {
      var w := switchBlock.value;
      SoundCase(Fields(), b, id);
      blocks := blocks[w := blocks[w].(succs := blocks[w].succs + [b])];
      g := g[w := g[w].(succs := g[w].succs + [b])];
      arms := arms[ToCase(id) := b];
      assert Fields() == WithCase(old(Fields()), b, id);
    }

    // -------------------------------------------------------------- expressions

    /** Walks an expression in front of the current block; `always` asks for e itself as an element. */
    method WalkAST(e: Expr, always: bool) returns (ret: nat, ghost w: ExprWit)
      requires Valid() && block.Some?
      modifies this`blocks, this`g, this`open, this`placed, this`block, this`succ
      ensures Valid() && block == Some(ret) && Pending() == old(Pending())
      ensures block == old(block) || ret >= |old(g)|
      ensures Framed(old(g), g, old(block), None)
      ensures MatchE(g, e, w, always, Cur(), old(Cur()))
      ensures placed == old(placed) + ElemsE(e, always)
      decreases e, 2
    {
      hide Sound, MatchArgs, KeptAt, Framed, Goes, IsElem;
      match e
      case Op(id, args) =>
        FramedRefl(g, block, None);
        if always { AppendElem(block.value, id); }
        ghost var g1, mid := g, Cur();
        ghost var aw;
        ret, aw := WalkChildren(args);
        w := OpW(aw, mid);
        FramedTrans(old(g), g1, g, old(block), old(block), None, None);
        JoinOp(g1, g, e, always, old(block), aw, Cur(), mid, old(Cur()));
      case Paren(sub) =>
        ghost var sw;
        ret, sw := WalkAST(sub, always);
        w := ParenW(sw);
      case Comma(_, _, _) => ret, w := WalkComma(e, always);
      case Logical(_, _, _, _) => ret, w := WalkLogical(e, always);
      case Conditional(_, _, _, _) => ret, w := WalkConditional(e, always);
    }

    method WalkChildren(args: seq<Expr>) returns (ret: nat, ghost w: ArgsWit)
      requires Valid() && block.Some?
      modifies this`blocks, this`g, this`open, this`placed, this`block, this`succ
      ensures Valid() && block == Some(ret) && Pending() == old(Pending())
      ensures block == old(block) || ret >= |old(g)|
      ensures Framed(old(g), g, old(block), None)
      ensures MatchArgs(g, args, w, Cur(), old(Cur()))
      ensures placed == old(placed) + ElemsArgs(args)
      decreases args
    {
      hide Sound, MatchE, KeptAt, ElemsE;
      ret := block.value;
      w := NoA;
      FramedRefl(g, block, None);
      assert MatchArgs(g, args[..0], w, Cur(), Cur());
      hide MatchArgs;
      for i := 0 to |args|
        invariant Valid() && block == Some(ret) && Pending() == old(Pending())
        invariant Framed(old(g), g, old(block), None)
        invariant block == old(block) || block.value >= |old(g)|
        invariant MatchArgs(g, args[..i], w, Cur(), old(Cur()))
        invariant placed == old(placed) + ElemsArgs(args[..i])
      {
        ghost var g1, p1, b1 := g, Cur(), block;
        ghost var ew;
        ret, ew := WalkAST(args[i], false);
        FramedTrans(old(g), g1, g, old(block), b1, None, None);
        JoinArgs(g1, g, args, i, b1, ew, w, Cur(), p1, old(Cur()));
        w := MoreA(ew, p1, w);
        assert args[..i + 1][..i] == args[..i];
        assert placed == old(placed) + (ElemsArgs(args[..i]) + ElemsE(args[i], false));
      }
      assert args[..|args|] == args;
    }

    method WalkComma(e: Expr, always: bool) returns (ret: nat, ghost w: ExprWit)
      requires Valid() && block.Some? && e.Comma?
      modifies this`blocks, this`g, this`open, this`placed, this`block, this`succ
      ensures Valid() && block == Some(ret) && Pending() == old(Pending())
      ensures block == old(block) || ret >= |old(g)|
      ensures Framed(old(g), g, old(block), None)
      ensures MatchE(g, e, w, always, Cur(), old(Cur()))
      ensures placed == old(placed) + ElemsE(e, true)
      decreases e, 0
    {
      hide Sound, MatchE, MatchArgs, KeptAt, IsElem, Framed, ElemsE, ExprAdded;
      AppendElem(block.value, e.id);
      ghost var g1, m2, b1 := g, Cur(), block;
      var _, rw, _ := AddStmt(e.rhs);
      ghost var g2, m1, b2 := g, Cur(), block;
      ghost var lw, lout;
      ret, lw, lout := AddStmt(e.lhs);
      w := CommaW(lw, rw, m1, m2);
      FramedTrans(old(g), g1, g2, b1, b1, None, None);
      FramedTrans(old(g), g2, g, b1, b2, None, None);
      JoinComma(g1, g2, g, e, always, b1, b2, lw, rw, Cur(), m1, m2, old(Cur()));
      assert placed == old(placed) + (multiset{Held(e.id)} + ElemsE(e.rhs, true) + ElemsE(e.lhs, true));
    }

    /** Ends the current block with the element id in front, to become a point of confluence. */
    method BuildConfluence(id: Id) returns (x: nat)
      requires Valid() && block.Some?
      modifies this`blocks, this`g, this`open, this`placed
      ensures Core() && block == Some(x) && open == old(open) - {x} && x < |g| == |old(g)|
      ensures Framed(old(g), g, block, None)
      ensures Closed(g, Entry(g, x)) && IsElem(g, Entry(g, x), old(Cur()), id)
      ensures placed == old(placed) + multiset{Held(id)}
    {
      hide Sound, Framed, IsElem;
      x := block.value;
      AppendElem(x, id);
      BuildJoin(old(g), g, x, id);
      FinishBlock(x);
    }

    /** Builds the code of an operand, which runs into the block x. */
    method BuildArm(e: Expr, x: nat) returns (b: nat, ghost w: ExprWit, ghost end: Pos)
      requires Core() && x < |g| && g[x].sealed
      modifies this`blocks, this`g, this`open, this`placed, this`block, this`succ
      ensures Core() && block == None && succ.Some? && succ.value < |g| && open == old(open)
      ensures |old(g)| <= b < |g| && Framed(old(g), g, None, None) && Closed(g, Entry(g, b))
      ensures MatchE(g, e, w, true, Entry(g, b), end) && Goes(g, end, Entry(old(g), x))
      ensures placed == old(placed) + ElemsE(e, true)
      decreases e, 5
    {
      hide Sound, MatchE, MatchArgs, KeptAt, Framed, Goes, ElemsE, ExprAdded;
      succ := Some(x);
      block := None;
      b, w, end := VisitExpr(e);
      ghost var g1 := g;
      BuildSealed(old(g), g1, b, None, None);
      FinishBlock(b);
      assert g == Sealed(g1, b);
      MatchEMono(g1, g, e, w, true, Entry(g1, b), end);
      StepMono(g1, g, end, Entry(old(g), x));
      block := None;
    }

    /** Lets block f decide between two others, and evaluates what it decides on in front of it. */
    method WalkTest(f: nat, yes: nat, no: nat, test: Expr) returns (ret: nat, ghost g4: Graph, ghost w: ExprWit)
      requires Core() && succ.Some? && succ.value < |g| && f in open && f < |g| && Some(f) != switchBlock && f != EXIT
      requires g[f].term.Branching? && g[f].succs == [] && g[f].rev == [] && !g[f].edges && !g[f].sealed && g[f].mark == NoMark
      modifies this`blocks, this`g, this`open, this`placed, this`block, this`succ
      ensures Valid() && block == Some(ret) && Pending() == old(open) - {f} && (ret == f || ret >= |old(g)|)
      ensures g4 == Decided(old(g), f, old(g)[f].term.id, yes, no) && Framed(g4, g, Some(f), None)
      ensures MatchE(g, test, w, true, Cur(), Pos(f, 0)) && placed == old(placed) + ElemsE(test, true)
      decreases test, 4
    {
      hide Sound, MatchE, KeptAt, Framed, ElemsE, ExprAdded;
      AddBranches(f, yes, no);
      g4 := g;
      block := Some(f);
      ghost var end;
      ret, w, end := AddStmt(test);
    }

    /** Builds the two operands of a conditional expression, which run into the block x. */
    method BuildArms(e: Expr, x: nat)
      returns (l: nat, r: nat, ghost lw: ExprWit, ghost lin: Pos, ghost lout: Pos, ghost rw: ExprWit, ghost rin: Pos, ghost rout: Pos)
      requires Core() && x < |g| && Closed(g, Entry(g, x)) && e.Conditional?
      modifies this`blocks, this`g, this`open, this`placed, this`block, this`succ
      ensures Core() && block == None && succ.Some? && succ.value < |g| && open == old(open)
      ensures |old(g)| <= l < |g| && |old(g)| <= r < |g| && Framed(old(g), g, None, None)
      ensures lin.b == l && Closed(g, lin) && MatchE(g, e.lhs, lw, true, lin, lout) && Goes(g, lout, Entry(old(g), x))
      ensures rin.b == r && Closed(g, rin) && MatchE(g, e.rhs, rw, true, rin, rout) && Goes(g, rout, Entry(old(g), x))
      ensures placed == old(placed) + ElemsE(e.lhs, true) + ElemsE(e.rhs, true)
      decreases e, 0
    {
      hide Sound, MatchE, MatchArgs, KeptAt, Framed, Goes, ElemsE;
      ghost var join := Entry(g, x);
      l, lw, lout := BuildArm(e.lhs, x);
      lin := Entry(g, l);
      ghost var g2 := g;
      FramedExtends(old(g), g2, None, None);
      StepMono(old(g), g2, join, join);
      assert Entry(g2, x) == join;
      r, rw, rout := BuildArm(e.rhs, x);
      rin := Entry(g, r);
      FramedExtends(g2, g, None, None);
      FramedTrans(old(g), g2, g, None, None, None, None);
      ArmMono(g2, g, e.lhs, lw, lin, lout, join);
    }

    method WalkLogical(e: Expr, always: bool) returns (ret: nat, ghost w: ExprWit)
      requires Valid() && block.Some? && e.Logical?
      modifies this`blocks, this`g, this`open, this`placed, this`block, this`succ
      ensures Valid() && block == Some(ret) && Pending() == old(Pending())
      ensures block == old(block) || ret >= |old(g)|
      ensures Framed(old(g), g, old(block), None)
      ensures MatchE(g, e, w, always, Cur(), old(Cur()))
      ensures placed == old(placed) + ElemsE(e, true)
      decreases e, 0
    {
      hide Sound, MatchE, MatchArgs, KeptAt, Framed, Extends, Forks, Goes, IsElem, ElemsE;
      ghost var q := Cur();
      var confluence := BuildConfluence(e.id);
      ghost var g1, join := g, Entry(g, confluence);

      // the block that evaluates the left-hand side
      var lhsBlock := NewFork(e.id);
      ghost var g2 := g;

      // the blocks that evaluate the right-hand side
      var rhsBlock, rw, rout := BuildArm(e.rhs, confluence);
      ghost var g3, rin := g, Entry(g, rhsBlock);
      KeepFork(old(g), g1, g2, g3, old(block), join, q, e.id);

      ghost var g4, lw;
      ret, g4, lw := WalkTest(lhsBlock, if e.isOr then confluence else rhsBlock, if e.isOr then rhsBlock else confluence, e.lhs);
      BuildFork(old(g), g3, lhsBlock, e.id, if e.isOr then join else rin, if e.isOr then rin else join, old(block), None);
      FramedTrans(old(g), g4, g, old(block), Some(lhsBlock), None, None);
      JoinLogical(g3, g4, g, e, always, lhsBlock, Some(lhsBlock), lw, rw, rin, rout, Cur(), join, q);
      w := ForkW(lw, lhsBlock, NoE, rin, rin, rw, rin, rout, join);
      assert placed == old(placed) + (multiset{Held(e.id)} + ElemsE(e.rhs, true) + ElemsE(e.lhs, true));
    }

    method WalkConditional(e: Expr, always: bool) returns (ret: nat, ghost w: ExprWit)
      requires Valid() && block.Some? && e.Conditional?
      modifies this`blocks, this`g, this`open, this`placed, this`block, this`succ
      ensures Valid() && block == Some(ret) && Pending() == old(Pending())
      ensures block == old(block) || ret >= |old(g)|
      ensures Framed(old(g), g, old(block), None)
      ensures MatchE(g, e, w, always, Cur(), old(Cur()))
      ensures placed == old(placed) + ElemsE(e, true)
      decreases e, 1
    {
      hide Sound, MatchE, MatchArgs, KeptAt, Framed, Extends, Forks, Goes, IsElem, ElemsE;
      ghost var q := Cur();
      var confluence := BuildConfluence(e.id);
      ghost var g1, join := g, Entry(g, confluence);

      var lhsBlock, rhsBlock, lw, lin, lout, rw, rin, rout := BuildArms(e, confluence);
      ghost var g3 := g;
      KeepJoin(old(g), g1, g3, old(block), join, q, e.id);

      // the block that evaluates the condition
      var condBlock := NewFork(e.id);
      BuildNewFork(old(g), g3, e.id, lin, rin, old(block), None);
      ghost var g5, cw;
      ret, g5, cw := WalkTest(condBlock, lhsBlock, rhsBlock, e.cond);
      FramedTrans(old(g), g5, g, old(block), Some(condBlock), None, None);
      JoinConditional(g3, g5, g, e, always, condBlock, Some(condBlock), cw, lw, lin, lout, rw, rin, rout, Cur(), join, q);
      w := ForkW(cw, condBlock, lw, lin, lout, rw, rin, rout, join);
      assert placed == old(placed) + (multiset{Held(e.id)} + ElemsE(e.lhs, true) + ElemsE(e.rhs, true) + ElemsE(e.cond, true));
    }

    /** Adds e in front of the current block, which is created if there is none. */
    method AddStmt(e: Expr) returns (ret: nat, ghost w: ExprWit, ghost end: Pos)
      requires Valid()
      modifies this`blocks, this`g, this`open, this`placed, this`block, this`succ
      ensures Valid() && block == Some(ret) && Pending() == old(Pending())
      ensures block == old(block) || ret >= |old(g)|
      ensures Framed(old(g), g, old(block), None)
      ensures MatchE(g, e, w, true, Cur(), end) && Goes(g, end, old(Cur()))
      ensures old(block).Some? ==> end == old(Cur())
      ensures placed == old(placed) + ElemsE(e, true)
      ensures ExprAdded(old(V()), V(), e, w, end)
      decreases e, 3
    {
      hide Sound, MatchE, KeptAt, Framed;
      FramedRefl(g, block, None);
      if block.None? {
        var b := CreateBlock(true);
        block := Some(b);
        FramedAppend(old(g), old(g), g[b], None, None);
      }
      end := Cur();
      ghost var g1, b1 := g, block;
      ret, w := WalkAST(e, true);
      FramedTrans(old(g), g1, g, old(block), b1, None, None);
      FramedExtends(g1, g, b1, None);
      StepMono(g1, g, end, old(Cur()));
      MovedPlain(old(V()), V(), ElemsE(e, true));
    }

    /** An expression statement, or an operand with control flow of its own. */
    method VisitExpr(e: Expr) returns (ret: nat, ghost w: ExprWit, ghost end: Pos)
      requires Valid()
      modifies this`blocks, this`g, this`open, this`placed, this`block, this`succ
      ensures Valid() && block == Some(ret) && Pending() == old(Pending())
      ensures block == old(block) || ret >= |old(g)|
      ensures Framed(old(g), g, old(block), None)
      ensures MatchE(g, e, w, true, Cur(), end) && Goes(g, end, old(Cur()))
      ensures old(block).Some? ==> end == old(Cur())
      ensures placed == old(placed) + ElemsE(e, true)
      ensures ExprAdded(old(V()), V(), e, w, end)
      decreases e, 4
    {
      ret, w, end := AddStmt(e);
    }

    // -------------------------------------------------------------- statements

    /** Ends the current block, if any; what is built next runs into what was built last. */
    method EndBlock() returns (after: nat)
      requires Valid()
      modifies this`blocks, this`g, this`open, this`placed, this`block, this`succ
      ensures Valid() && block == None && succ == Some(after) && after == Cur().b
      ensures Cur() == old(Cur()) && Closed(g, Cur())
      ensures Moved(old(V()), V(), multiset{}, multiset{}, false)
    {
      hide Sound, Framed;
      FramedRefl(g, block, None);
      after := if block.Some? then block.value else succ.value;
      if block.Some? {
        FinishBlock(after);
        FramedUpdate(old(g), old(g), after, g[after], block, None);
      }
      block := None;
      succ := Some(after);
      assert placed + multiset{} == placed;
      MovedPlain(old(V()), V(), multiset{});
    }

    /** Visits a statement on its own, in front of the successor. */
    method VisitBranch(s: Stmt) returns (entry: Option<nat>, ghost w: StmtWit, ghost way: Way)
      requires Valid() && block.None? && Fit(s) && Keeps(s) && Unused(Names(s), V())
      modifies this
      ensures Branched(s, w, old(V()), V(), way) && way.entry == entry
      decreases s, 7
    {
      hide Sound, MatchS, Moved, Stray, ElemsS, Names, Reports, BlockAfter, Unused, Fit, Branched, Visited, Keeps, BranchEnded;
      ghost var v0 := V();
      var saved := succ;
      entry, w := Visit(s);
      ghost var v1 := V();
      VisitedBlock(s, w, v0, v1);
      way := Way(entry, CurOf(v1));
      EndBranch(entry, saved);
      BranchOfVisit(s, w, v0, v1, V(), entry);
    }

    /** Ends the block of a branch; entry is the one reported for it. */
    method EndBranch(entry: Option<nat>, saved: Option<nat>)
      requires Core() && OkCursor(V()) && (block.Some? ==> entry == block)
      modifies this`blocks, this`g, this`open, this`placed, this`block, this`succ
      ensures BranchEnded(old(V()), V()) && succ == saved
    {
      hide Sound;
      if entry.Some? && block.Some? {
        FinishBlock(entry.value);
      }
      block := None;
      succ := saved;
    }

    /** A new current block with the two-way terminator id and the condition in front of it. */
    method AddFork(id: Id, yes: nat, no: nat, test: Expr) returns (ret: nat, ghost w: ExprWit, ghost end: Pos, ghost v: Snap)
      requires Valid() && block.None? && yes < |g| && no < |g|
      modifies this`blocks, this`g, this`open, this`placed, this`block, this`succ
      ensures ForkAdded(old(V()), v, id, Entry(old(g), yes), Entry(old(g), no)) && ExprAdded(v, V(), test, w, end)
      ensures block == Some(ret)
    {
      hide Sound, MatchE, Moved, ElemsE, Framed, Goes;
      var f := NewFork(id);
      AddBranches(f, yes, no);
      block := Some(f);
      v := V();
      ret, w, end := AddStmt(test);
    }

    /** The block of a true branch; an empty one keeps it distinct from the false branch. */
    method ThenBlock(tb: Option<nat>, after: nat, ghost way: Way) returns (b: nat)
      requires Valid() && block.None? && after == Cur().b && Closed(g, Cur())
      requires way.entry == tb && (tb.Some? ==> tb.value == way.start.b && Closed(g, way.start))
      modifies this`blocks, this`g, this`open, this`placed
      ensures Valid() && Cur() == old(Cur()) && Moved(old(V()), V(), multiset{}, multiset{}, false)
      ensures b < |g| && Closed(g, Entry(g, b)) && Goes(g, Entry(g, b), Place(old(V()), way))
      ensures Extends(old(g), g)
    {
      hide Sound, Framed, KeptAt;
      FramedRefl(g, block, None);
      assert placed + multiset{} == placed;
      if tb.None? {
        b := CreateBlock(false);
        AddSuccessor(b, after, true);
        SealEmpty(b);
        assert g == old(g) + [g[b]];
        FramedAppend(old(g), old(g), g[b], None, None);
      } else {
        b := tb.value;
      }
      MovedPlain(old(V()), V(), multiset{});
      FramedExtends(old(g), g, None, None);
      assert g[after] == old(g)[after];
    }

    method VisitIf(s: Stmt) returns (ret: Option<nat>, ghost w: StmtWit)
      requires Valid() && Fit(s) && Unused(Names(s), V()) && s.If?
      modifies this
      ensures Visited(s, w, old(V()), V()) && ret == Some(Cur().b)
      decreases s, 5
    {
      hide Sound, MatchS, MatchE, Moved, Stray, ElemsS, ElemsE, Labels, Arms, Framed, Unused, Goes, Forks, Extends;
      ghost var v0 := V();
      var after := EndBlock();
      ghost var v1 := V();
      IfNames(s, v0, v1);

      var elseBlock := after;
      ghost var ew, eb := NoS, Way(None, Cur());
      if s.els.Some? {
        var b;
        b, ew, eb := VisitBranch(s.els.value);
        if b.Some? { elseBlock := b.value; }
        UnusedSplit(v1, V(), Names(s), ElseNames(s), Names(s.thn), ElemsS(s.els.value),
                    Stray(s.els.value, v1.f.brk.Some?, v1.f.cont.Some?));
        ClosedPlace(s.els.value, ew, v1, V(), eb);
      }
      ghost var v2 := V();

      var tb, tw, ta := VisitBranch(s.thn);
      ghost var v3 := V();
      ClosedPlace(s.thn, tw, v2, v3, ta);
      var thenBlock := ThenBlock(tb, after, ta);
      ghost var v4 := V();
      KeepPlace(s.thn, tw, v2, v3, v4.f.g, ta, Place(v2, eb));
      var b, cw, end, v5 := AddFork(s.id, thenBlock, elseBlock, s.test);
      ret := Some(b);
      w := VisitedIf(s, v0, v1, v2, v3, v4, v5, V(), ew, eb, tw, ta, Entry(v4.f.g, thenBlock), Place(v2, eb), cw, end);
    }

    /** Builds the condition of a loop, which may span several blocks; block x decides. */
    method BuildCondition(id: Id, cond: Option<Expr>) returns (x: nat, entry: nat, ghost w: ExprWit)
      requires Valid() && block.None?
      modifies this`blocks, this`g, this`open, this`placed, this`block, this`succ
      ensures CondBuilt(old(V()), V(), id, cond, w, x, entry)
    {
      hide Sound, MatchE, Moved, Framed, ElemsE;
      ghost var v0 := V();
      x := NewFork(id);
      if cond.Some? {
        block := Some(x);
        ghost var v1 := V();
        MovedNewFork(v0, v1, id);
        var b, ew, end := AddStmt(cond.value);
        ghost var v2 := V();
        FinishBlock(b);
        block, succ := None, Some(b);
        CondOfExpr(v0, v1, v2, V(), id, cond.value, ew, x, b, end);
        entry, w := b, ew;
      } else {
        SealEmpty(x);
        block, succ := None, Some(x);
        entry, w := x, NoE;
        MovedNewFork(v0, V(), id);
      }
    }

    /** Visits the body of a loop: continue leads to what comes next, break to the block after the loop. */
    method VisitBody(s: Stmt, after: nat)
      returns (b: Option<nat>, ghost w: StmtWit, ghost way: Way, ghost v1: Snap, ghost v2: Snap)
      requires Valid() && block.None? && Fit(s) && Keeps(s) && Unused(Names(s), V()) && Ended(g, Some(after))
      modifies this
      ensures Valid() && Moved(old(V()), V(), Names(s), ElemsS(s), Stray(s, true, true))
      ensures v1 == WithTargets(old(V()), Some(after), Some(old(Cur()).b)) && Branched(s, w, v1, v2, way) && way.entry == b
      ensures V() == WithTargets(v2, old(breakTarget), old(continueTarget))
      decreases s, 8
    {
      hide Sound, MatchS, Moved, Unused, Branched, Fit, Names, Stray, ElemsS;
      ghost var v0 := V();
      var savedBreak, savedContinue := breakTarget, continueTarget;
      SoundTargets(Fields(), Some(after), succ);
      continueTarget := succ;
      breakTarget := Some(after);
      v1 := V();
      UnusedTargets(Names(s), v0, v1);
      b, w, way := VisitBranch(s);
      v2 := V();
      BranchedFacts(s, w, v1, v2, way);
      BodyMoved(v0, v1, v2, Names(s), ElemsS(s), Stray(s, true, true));
      breakTarget, continueTarget := savedBreak, savedContinue;
    }

    /** Builds the body of a loop and lets block x decide between it and the code after the loop. */
    method BuildLoopBody(s: Stmt, x: nat, entry: nat, after: nat, ghost q: Pos, ghost w0: StmtWit, ghost v1: Snap, ghost e: multiset<Item>)
      returns (body: nat, ghost w: StmtWit, ghost v: Snap)
      requires Valid() && block.None? && IsLoop(s) && Fit(s.sub) && Keeps(s.sub) && Unused(Names(s.sub), V())
      requires Ready(s, w0, v1, V(), e) && w0.fb == x && w0.head.b == entry && Closed(g, q) && q.b == after
      modifies this
      ensures Moved(old(V()), v, Names(s.sub), ElemsS(s.sub), Stray(s.sub, true, true)) && OkCursor(v)
      ensures v.block.None? && v.succ == old(succ) && CurOf(v) == old(Cur())
      ensures Core() && BodyLinked(s, w0, w, old(V()), v, V(), body, q)
      decreases s, 3
    {
      hide Sound, MatchE, MatchS, Moved, ElemsS, Stray, LoopParts, Names, BodyLinked, Unused, Fit;
      ghost var v0 := V();
      var b, bw, way, va, vb := VisitBody(s.sub, after);
      BranchedFacts(s.sub, bw, va, vb, way);
      v := V();
      MovedAt(v0, v, x, Names(s.sub), ElemsS(s.sub), Stray(s.sub, true, true));
      body := if b.Some? then b.value else entry;
      AddBranches(x, body, after);
      w := LoopClosed(s, w0, v0, va, vb, v, V(), bw, way, q);
    }

    /** Builds a loop, but for the initialisation of a `for`. */
    method BuildLoop(s: Stmt) returns (entry: nat, body: nat, ghost w: StmtWit)
      requires Valid() && block.None? && Closed(g, Cur()) && succ == Some(Cur().b)
      requires IsLoop(s) && Fit(s.sub) && Keeps(s.sub) && Unused(Names(s.sub), V())
      modifies this
      ensures LoopBuilt(s, w, old(V()), V(), entry, body)
      decreases s, 4
    {
      hide Sound, MatchE, MatchS, Moved, Framed, ElemsS, ElemsE, Stray, LoopParts, LoopOk, Names, BodyLinked, Unused, Fit, LoopBuilt, Extends, Ready;
      ghost var v1, q := V(), Cur();
      var after := succ.value;
      var x;
      ghost var w0, cw;
      ghost var e := ElemsO(CondOf(s));
      x, entry, cw := BuildCondition(s.id, CondOf(s));
      ghost var v2 := V();
      if s.For? && s.inc.Some? {
        // the increment, where continue leads
        var next, iw, end := BuildArm(s.inc.value, entry);
        succ := Some(next);
        MovedPlain(v2, V(), ElemsE(s.inc.value, true));
        w0 := ReadyInc(s, v1, v2, V(), cw, x, entry, iw, end);
        e := e + ElemsE(s.inc.value, true);
      } else {
        w0 := ReadyPlain(s, v1, v2, cw, x, entry);
      }
      ghost var v3 := V();
      KeepClosed(s, w0, v1, v3, e, q);
      ghost var v4;
      body, w, v4 := BuildLoopBody(s, x, entry, after, q, w0, v1, e);
      ghost var v5 := V();
      succ := Some(entry);
      LoopOfParts(s, w0, w, v1, v3, v4, v5, V(), entry, body, e);
    }

    method VisitWhile(s: Stmt) returns (ret: Option<nat>, ghost w: StmtWit)
      requires Valid() && Fit(s) && Unused(Names(s), V()) && s.While?
      modifies this
      ensures Visited(s, w, old(V()), V()) && ret == Some(Cur().b)
      decreases s, 5
    {
      hide Sound, MatchE, MatchS, Moved, Framed, ElemsS, Stray, LoopOk, Unused, Visited;
      ghost var v0 := V();
      var after := EndBlock();
      ghost var v1 := V();
      LoopNames(s, v0, v1);
      var entry, body;
      entry, body, w := BuildLoop(s);
      ret := Some(entry);
      VisitedWhile(s, w, v0, v1, V(), entry, body);
      VisitedCursor(s, w, v0, V());
    }

    method VisitDo(s: Stmt) returns (ret: Option<nat>, ghost w: StmtWit)
      requires Valid() && Fit(s) && Unused(Names(s), V()) && s.Do?
      modifies this
      ensures Visited(s, w, old(V()), V()) && ret == Some(Cur().b)
      decreases s, 5
    {
      hide Sound, MatchE, MatchS, Moved, Framed, ElemsS, Stray, LoopOk, Unused, Visited;
      ghost var v0 := V();
      var after := EndBlock();
      ghost var v1 := V();
      LoopNames(s, v0, v1);
      var entry, body;
      entry, body, w := BuildLoop(s);
      ghost var v2 := V();
      succ := Some(body);
      ret := Some(body);
      VisitedDo(s, w, v0, v1, v2, V(), entry, body);
      VisitedCursor(s, w, v0, V());
    }

    method VisitFor(s: Stmt) returns (ret: Option<nat>, ghost w: StmtWit)
      requires Valid() && Fit(s) && Unused(Names(s), V()) && s.For?
      modifies this
      ensures Visited(s, w, old(V()), V()) && ret == Some(Cur().b)
      decreases s, 5
    {
      hide Sound, MatchE, MatchS, Moved, Framed, ElemsS, Stray, LoopOk, Unused, Visited;
      ghost var v0 := V();
      var after := EndBlock();
      ghost var v1 := V();
      LoopNames(s, v0, v1);
      var entry, body;
      ghost var lw;
      entry, body, lw := BuildLoop(s);
      ghost var v2, iw, end := V(), NoE, Pos(0, 0);
      ret := Some(entry);
      if s.init.Some? {
        var b;
        b, iw, end := AddStmt(s.init.value);
        ret := Some(b);
      }
      w := VisitedFor(s, lw, v0, v1, v2, V(), entry, body, iw, end);
      VisitedCursor(s, w, v0, V());
    }

    /** A new current block that only jumps; without a target, the graph cannot be built. */
    method AddJump(id: Id, to: Option<nat>)
      requires Valid() && block.None?
      modifies this`blocks, this`g, this`open, this`placed, this`block, this`badCFG
      ensures BlockAdded(old(V()), V(), Draft([], false, false, Jumping(id), if to.Some? then [to.value] else [], true, NoMark))
      ensures badCFG == (old(badCFG) || to.None?)
    {
      hide Sound;
      var b := CreateBlock(false);
      SetTerminator(b, Jumping(id), to.None?);
      if to.Some? {
        AddSuccessor(b, to.value, true);
        assert [] + [to.value] == [to.value];
      } else {
        badCFG := true;
      }
      block := Some(b);
      assert g == old(g) + [g[b]];
    }

    method VisitJump(s: Stmt) returns (ret: Option<nat>, ghost w: StmtWit)
      requires Valid() && Fit(s) && Unused(Names(s), V()) && (s.Break? || s.Continue?)
      modifies this
      ensures Visited(s, w, old(V()), V()) && ret == Some(Cur().b)
      decreases s, 5
    {
      hide Sound, Moved, Framed, Unused, Visited;
      ghost var v0 := V();
      var after := EndBlock();
      ghost var v1 := V();
      MovedExtends(v0, v1, multiset{}, multiset{}, false);
      var to := if s.Break? then breakTarget else continueTarget;
      AddJump(s.id, to);
      ret, w := block, NoS;
      VisitedJump(s, v0, v1, V(), to);
    }

    /** A new current block that goes to a label, at once or when the label is known. */
    method AddGoto(id: Id, dest: Id) returns (ghost d: Draft)
      requires Valid() && block.None?
      modifies this`blocks, this`g, this`open, this`block, this`backpatch
      ensures BlockAdded(old(V()), V(), d) && d.rev == [] && d.term == Going(id, dest)
    {
      hide Sound;
      SoundGoto(Fields(), id, dest);
      var b := |blocks|;
      var succs := if dest in labelMap then [labelMap[dest]] else [];
      d := Draft([], false, false, Going(id, dest), succs, dest in labelMap, NoMark);
      blocks := blocks + [Block([], Going(id, dest), succs, NoMark)];
      g, open := g + [d], open + {b};
      if dest !in labelMap {
        // to be patched when the label is known
        backpatch := backpatch + [b];
      }
      block := Some(b);
      assert Fields() == WithGoto(old(Fields()), id, dest);
    }

    method VisitGoto(s: Stmt) returns (ret: Option<nat>, ghost w: StmtWit)
      requires Valid() && Fit(s) && Unused(Names(s), V()) && s.Goto?
      modifies this
      ensures Visited(s, w, old(V()), V()) && ret == Some(Cur().b)
      decreases s, 5
    {
      hide Sound, Moved, Framed, Unused, Visited;
      ghost var v0 := V();
      var after := EndBlock();
      ghost var v1 := V();
      ghost var d := AddGoto(s.id, s.dest);
      ret, w := block, NoS;
      VisitedGoto(s, v0, v1, V(), d);
    }

    method VisitReturn(s: Stmt) returns (ret: Option<nat>, ghost w: StmtWit)
      requires Valid() && Fit(s) && Unused(Names(s), V()) && s.Return?
      modifies this
      ensures Visited(s, w, old(V()), V()) && ret == Some(Cur().b)
      decreases s, 5
    {
      hide Sound, Moved, Framed, Unused, Visited, MatchArgs, ElemsArgs;
      ghost var v0 := V();
      var after := EndBlock();
      ghost var v1 := V();
      var b := AddReturn();
      ghost var v2 := V();
      AppendElem(b, s.id);
      ghost var v3 := V();
      MovedPlain(v2, v3, multiset{Held(s.id)});
      var r, aw := WalkChildren(OptionArgs(s.value));
      MovedPlain(v3, V(), ElemsArgs(OptionArgs(s.value)));
      ret, w := Some(r), ReturnW(aw, CurOf(v3));
      VisitedReturn(s, v0, v1, v2, v3, V(), aw);
    }

    /** A new current block that leads to the exit. */
    method AddReturn() returns (b: nat)
      requires Valid() && block.None?
      modifies this`blocks, this`g, this`open, this`placed, this`block
      ensures BlockAdded(old(V()), V(), Draft([], false, false, NoTerm, [EXIT], true, NoMark)) && block == Some(b)
      ensures badCFG == old(badCFG) && |old(g)| > EXIT
    {
      hide Total, SwitchOk, NoRepeat;
      b := CreateBlock(false);
      AddSuccessor(b, EXIT, true);
      assert [] + [EXIT] == [EXIT];
      block := Some(b);
      assert g == old(g) + [g[b]];
    }

    method VisitCompound(s: Stmt) returns (ret: Option<nat>, ghost w: StmtWit)
      requires Valid() && Fit(s) && Unused(Names(s), V()) && s.Compound?
      modifies this
      ensures Visited(s, w, old(V()), V())
      ensures ret == if Reports(s, old(block).Some?) then Some(Cur().b) else None
      decreases s, 5
    {
      hide Sound, Moved, Framed, Unused, Visited, VisitedL, MatchL, Labels, Arms, LabelsIn, ArmsIn, Stray, ElemsS, BlockAfter, BlockAfterAll;
      ghost var v0, lw := V(), NoL;
      var body := s.body;
      ghost var b0 := block.Some?;
      ret := None;
      VisitedNil(v0);
      assert body[|body|..] == [] && body[..|body|] == body;
      CompoundNames(s);
      for i := |body| downto 0
        invariant Valid() && VisitedL(body[i..], lw, v0, V()) && Unused(NamesIn(body[..i]), V())
        invariant block.Some? == BlockAfterAll(body[i..], b0)
        invariant ret == if i < |body| && Reports(body[i], BlockAfterAll(body[i + 1..], b0)) then Some(Cur().b) else None
      {
        ghost var v1 := V();
        ListNames(body, i);
        UnusedPart(v1, NamesIn(body[..i + 1]), Names(body[i]), NamesIn(body[..i]));
        FitAt(body, i);
        ghost var sw;
        ret, sw := Visit(body[i]);
        VisitedCursor(body[i], sw, v1, V());
        VisitedMoved(body[i], sw, v1, V());
        UnusedSplit(v1, V(), NamesIn(body[..i + 1]), Names(body[i]), NamesIn(body[..i]), ElemsS(body[i]),
                    Stray(body[i], v1.f.brk.Some?, v1.f.cont.Some?));
        assert body[i..][0] == body[i] && body[i..][1..] == body[i + 1..];
        VisitedCons(body[i..], sw, lw, v0, v1, V());
        BlockAfterCons(body[i..], b0);
        lw := MoreL(sw, CurOf(v1), lw);
      }
      assert body[0..] == body;
      w := ListW(lw);
      VisitedCompound(s, v0, V(), lw);
    }

    /** The current block, which is created if there is none. */
    method CurrentBlock() returns (b: nat)
      requires Valid()
      modifies this`blocks, this`g, this`open, this`block
      ensures Valid() && block == Some(b) && Moved(old(V()), V(), multiset{}, multiset{}, false)
      ensures Goes(g, Cur(), old(Cur())) && b != EXIT
    {
      hide Framed, KeptAt, Items, Total, SwitchOk, NoRepeat;
      FramedRefl(g, block, None);
      assert placed + multiset{} == placed;
      if block.Some? {
        b := block.value;
        Look(Fields(), b);
      } else {
        b := CreateBlock(true);
        FramedAppend(old(g), old(g), g[b], block, None);
        block := Some(b);
      }
      hide Sound;
      MovedPlain(old(V()), V(), multiset{});
    }

    /** Marks the start of the code built so far as a labelled block, which ends there. */
    method EndLabelled(m: Mark) returns (b: nat)
      requires Valid() && m != NoMark
      modifies this`blocks, this`g, this`open, this`placed, this`block, this`succ
      ensures Labelled(old(V()), V(), m, b) && Some(b) != switchBlock
    {
      hide Sound, Moved, Goes;
      b := CurrentBlock();
      ghost var v1 := V();
      SetLabel(b, m);
      FinishBlock(b);
      block, succ := None, Some(b);
      assert g == v1.f.g[b := v1.f.g[b].(mark := m, reversed := true, sealed := true)];
      LabelledBlock(old(V()), v1, V(), m, b);
    }

    /** Registers the place of a labelled statement under its name. */
    method Register(s: Stmt, b: nat)
      requires s.Case? || s.Default? || s.Label?
      requires Valid() && block.None? && succ == Some(b) && b < |g| && Closed(g, Entry(g, b)) && g[b].mark == MarkOf(s)
      requires Some(b) != switchBlock && !Used(MarkTarget(s), V()) && (!s.Label? ==> switchBlock.Some?)
      modifies this`blocks, this`g, this`arms, this`labelMap, this`defaultBlock
      ensures Registered(s, old(V()), V(), b)
    {
      hide Sound, Framed, KeptAt;
      FramedRefl(g, block, switchBlock);
      assert placed + multiset{} == placed;
      if s.Case? {
        LookSwitch(Fields());
        AddCase(b, s.id);
        CaseFrame(old(g), g, switchBlock.value, b);
      } else if s.Default? {
        SoundDefault(Fields(), b);
        defaultBlock := Some(b);
        arms := arms[ToDefault := b];
      } else {
        SoundLabel(Fields(), s.id, b);
        labelMap := labelMap[s.id := b];
      }
    }

    /** Labelled statements partition blocks: each begins the block it labels. */
    method VisitMark(s: Stmt) returns (ret: Option<nat>, ghost w: StmtWit)
      requires Valid() && Fit(s) && Unused(Names(s), V()) && (s.Case? || s.Default? || s.Label?)
      modifies this
      ensures Visited(s, w, old(V()), V()) && ret == Some(Cur().b)
      decreases s, 5
    {
      hide Sound, Moved, Framed, Unused, Visited, Labels, Arms, Stray, ElemsS, MatchS, Names;
      ghost var v0 := V();
      MarkUnused(s, v0);
      var _, sw := Visit(s.sub);
      ghost var v1 := V();
      VisitedCursor(s.sub, sw, v0, v1);
      MarkStillUnused(s, sw, v0, v1);
      var b := EndLabelled(MarkOf(s));
      ghost var v2 := V();
      Register(s, b);
      ret, w := Some(b), MarkW(CurOf(v1), sw);
      VisitedMark(s, sw, v0, v1, v2, V(), b);
    }

    /** Creates the block of a switch and sets up the context of its body. */
    method OpenSwitch(after: nat) returns (x: nat)
      requires Valid() && block.None? && succ == Some(after) && after == Cur().b && Closed(g, Cur())
      modifies this`blocks, this`g, this`open, this`switchBlock, this`defaultBlock, this`breakTarget, this`arms
      ensures Valid() && x == |old(g)| && g == old(g) + [PlainDraft] && open == old(open) + {x} && x !in old(open)
      ensures V() == old(V()).(f := Opened(old(Fields()).(bs := blocks, g := g, open := open), x, after))
    {
      hide Sound;
      x := CreateBlock(false);
      SoundOpened(Fields(), x, after);
      switchBlock, defaultBlock, breakTarget, arms := Some(x), Some(after), Some(after), map[];
    }

    /** Ends the block of a switch, whose last successor is the default one. */
    method CloseSwitch(x: nat, id: Id, last: nat)
      requires Core() && x < |g| && Some(x) != switchBlock && x != EXIT && g[x].term == NoTerm && !g[x].edges
      modifies this`blocks, this`g, this`open, this`placed, this`block
      ensures Core() && g == Switched(old(g), x, id, last) && open == old(open) && placed == old(placed) && block == Some(x)
    {
      hide Sound;
      AddSuccessor(x, last, false);
      SetTerminator(x, Switching(id), true);
      block := Some(x);
      assert g == Switched(old(g), x, id, last);
    }

    /** Visits the body of a switch; its default target is `last`, without a default label the code after the switch. */
    method VisitSwitchBody(s: Stmt, after: nat)
      returns (x: nat, last: nat, ghost w: StmtWit, ghost b: Way, ghost v2: Snap, ghost v3: Snap)
      requires Valid() && block.None? && succ == Some(after) && after == Cur().b && Closed(g, Cur())
      requires s.Switch? && Fit(s) && Unused(Names(s), V())
      modifies this
      ensures SwitchVisited(s, old(V()), v2, v3, V(), x, w, b) && v3.f.dflt == Some(last)
      ensures Core() && block.None? && x < |g| && Some(x) != switchBlock && x != EXIT && x in open && succ.Some? && succ.value < |g|
      ensures g[x].term == NoTerm && !g[x].edges && !g[x].sealed && g[x].mark == NoMark
      decreases s, 4
    {
      hide Sound, MatchS, MatchE, Moved, Unused, Fit, Names, ElemsS, Stray, Goes;
      ghost var v1 := V();
      // save the context of the enclosing switch
      var savedSwitch, savedBreak, savedDefault := switchBlock, breakTarget, defaultBlock;
      ghost var savedArms := arms;
      x := OpenSwitch(after);
      v2 := V();
      UnusedOpened(s, v1, v2);
      FitSub(s);
      var entry;
      entry, w, b := VisitBranch(s.sub);
      v3 := V();
      SwitchReady(s, v1, v2, v3, x, w, b);
      BranchedFacts(s.sub, w, v2, v3, b);
      last := defaultBlock.value;
      switchBlock, breakTarget, defaultBlock, arms := savedSwitch, savedBreak, savedDefault, savedArms;
    }

    method VisitSwitch(s: Stmt) returns (ret: Option<nat>, ghost w: StmtWit)
      requires Valid() && Fit(s) && Unused(Names(s), V()) && s.Switch?
      modifies this
      ensures Visited(s, w, old(V()), V()) && ret == Some(Cur().b)
      decreases s, 5
    {
      hide Sound, MatchS, MatchE, Moved, Unused, Visited, Fit, Names, ElemsS, ElemsE, Stray, SwitchVisited, SwitchBuilt, Goes;
      ghost var v0 := V();
      var after := EndBlock();
      ghost var v1 := V();
      UnusedKept(Names(s), v0, v1, multiset{});
      var x, last, bw, b, v2, v3 := VisitSwitchBody(s, after);
      ghost var v4 := V();
      SwitchState(s, v1, v2, v3, v4, x, bw, b);
      CloseSwitch(x, s.id, last);
      ghost var v5 := V();
      BuiltSwitch(s, v1, v2, v3, v4, v5, x, bw, b);
      var r, ew, end := AddStmt(s.test);
      ret := Some(r);
      w := VisitedSwitch(s, v0, v1, v2, v3, v5, V(), x, bw, b, ew, end);
      VisitedCursor(s, w, v0, V());
    }

    method Visit(s: Stmt) returns (ret: Option<nat>, ghost w: StmtWit)
      requires Valid() && Fit(s) && Unused(Names(s), V())
      modifies this
      ensures Visited(s, w, old(V()), V())
      ensures ret == if Reports(s, old(block).Some?) then Some(Cur().b) else None
      decreases s, 6
    {
      hide Sound, Moved, Visited, Unused, Fit, Names;
      match s
      case Null =>
        ret, w := block, NoS;
        VisitedNull(V());
      case Eval(e) =>
        var r, ew, end := VisitExpr(e);
        ret, w := Some(r), EvalW(ew, end);
        VisitedEval(s, old(V()), V(), ew, end);
      case Compound(_) => ret, w := VisitCompound(s);
      case If(_, _, _, _) => ret, w := VisitIf(s);
      case While(_, _, _) => ret, w := VisitWhile(s);
      case Do(_, _, _) => ret, w := VisitDo(s);
      case For(_, _, _, _, _) => ret, w := VisitFor(s);
      case Switch(_, _, _) => ret, w := VisitSwitch(s);
      case Case(_, _) => ret, w := VisitMark(s);
      case Default(_, _) => ret, w := VisitMark(s);
      case Label(_, _) => ret, w := VisitMark(s);
      case Goto(_, _) => ret, w := VisitGoto(s);
      case Break(_) => ret, w := VisitJump(s);
      case Continue(_) => ret, w := VisitJump(s);
      case Return(_, _) => ret, w := VisitReturn(s);
    }

    // -------------------------------------------------------------- programs

    /** Links the goto at the end of block b, the first that is pending after those without a label. */
    method PatchGoto(i: nat, b: nat, ghost kept: seq<nat>, ghost rest: seq<nat>) returns (linked: bool)
      requires Core() && switchBlock.None? && backpatch == kept + [b] + rest && i == |kept|
      modifies this`blocks, this`g, this`backpatch
      ensures Core() && Extends(old(g), g) && b < |g| && g[b].term.Going?
      ensures linked <==> g[b].term.dest in labelMap
      ensures backpatch == if linked then kept + rest else kept + [b] + rest
    {
      hide Sound, Extends;
      assert backpatch[|kept|] == b;
      LookPatch(Fields(), b);
      var target := blocks[b].term.dest;
      linked := target in labelMap;
      if linked {
        SoundPatched(Fields(), b, kept, rest);
        ghost var f := Patched(Fields(), b, kept, rest);
        blocks := blocks[b := blocks[b].(succs := blocks[b].succs + [labelMap[target]])];
        g := f.g;
        backpatch := backpatch[..i] + backpatch[i + 1..];
        assert Fields() == f;
      } else {
        ExtendsRefl(g);
      }
    }

    /** Links the gotos that were met before their labels. */
    method Backpatch()
      requires Core() && switchBlock.None?
      modifies this`blocks, this`g, this`backpatch
      ensures Core() && Extends(old(g), g)
      ensures forall b :: b in backpatch ==> Dangling(g, labelMap, b)
    {
      hide Sound, Extends, Dangling;
      var pending, unknown := backpatch, 0;
      ghost var kept: seq<nat> := [];
      ExtendsRefl(g);
      for i := 0 to |pending|
        invariant Core() && backpatch == kept + pending[i..] && unknown == |kept| && Extends(old(g), g)
        invariant forall b :: b in kept ==> Dangling(g, labelMap, b)
      {
        ghost var g1 := g;
        assert pending[i..] == [pending[i]] + pending[i + 1..];
        assert backpatch == kept + [pending[i]] + pending[i + 1..];
        var linked := PatchGoto(unknown, pending[i], kept, pending[i + 1..]);
        ExtendsTrans(old(g), g1, g);
        forall b | b in kept ensures Dangling(g, labelMap, b) { DanglingMono(g1, g, labelMap, b); }
        if !linked {
          assert Dangling(g, labelMap, pending[i]) by { IsDangling(g, labelMap, pending[i]); }
          kept, unknown := kept + [pending[i]], unknown + 1;
        }
      }
      assert pending[|pending|..] == [];
      assert backpatch == kept;
    }

    /** Creates the exit block, which stays empty. */
    method Start()
      requires Fields() == StartSheet.(bs := [], g := [])
      modifies this`blocks, this`g, this`succ
      ensures Fields() == StartSheet && Core() && succ == Some(EXIT)
    {
      StartSound();
      blocks := [Block([], NoTerm, [], NoMark)];
      g := [ExitDraft];
      succ := Some(EXIT);
    }

    /** Builds the graph of a program, unless a break or continue has nothing to leave. */
    method BuildCFG(program: Stmt) returns (r: Option<CFG>)
      requires Fields() == StartSheet.(bs := [], g := []) && block.None? && succ.None? && !badCFG
      requires Proper(program)
      modifies this
      ensures r.None? <==> Stray(program, false, false)
      ensures r.Some? ==> Implements(r.value, program)
      ensures r.Some? ==> GotosResolved(r.value, program)
      ensures r.Some? ==> Total(r.value.blocks) == ElemsS(program)
    {
      hide Sound, MatchS, Moved, Visited, Unused, Extends, ElemsS, Stray, Labels, Arms, Proper, Implements, GotosResolved, Total, Dangling, Fit, Names, Reports, BlockAfter;
      var first, w, v1 := BuildBlocks(program);
      ghost var g2 := g;
      Backpatch();
      ghost var f := Fields();
      KeptEntry(v1, g2, g, first);
      var entry := AddEntry(first);
      Concluded(program, w, v1, f, Fields(), first);
      if badCFG {
        return None;
      }
      r := Some(CFG(blocks, entry));
    }

    /** Builds the blocks of a program; the block first is where it begins. */
    method BuildBlocks(program: Stmt) returns (first: nat, ghost w: StmtWit, ghost v1: Snap)
      requires Fields() == StartSheet.(bs := [], g := []) && block.None? && succ.None? && !badCFG
      requires Proper(program)
      modifies this
      ensures OkCursor(v1) && MatchS(v1.f.g, v1.f.lm, program, w, CurOf(v1), Pos(EXIT, 0), TopLevel)
      ensures forall l :: l in v1.f.lm <==> ToLabel(l) in Labels(program)
      ensures Core() && Extends(v1.f.g, g) && first < |g| && g[first].sealed && Entry(g, first) == CurOf(v1)
      ensures labelMap == v1.f.lm && open == {} && placed == ElemsS(program) && switchBlock.None?
      ensures badCFG <==> Stray(program, false, false)
    {
      hide Sound, MatchS, Moved, Visited, Unused, Extends, ElemsS, Stray, Labels, Arms, Proper, Fit, Names, Reports, BlockAfter;
      Start();
      ghost var v0 := V();
      StartUnused(program, v0);
      ProperFit(program);

      var ret;
      ret, w := Visit(program);
      v1 := V();
      VisitedCursor(program, w, v0, v1);
      VisitedEnd(program, w, v0, v1);
      first := if ret.Some? then ret.value else succ.value;
      FinishLast(first);
    }

    /** The entry of the graph, an empty block that leads to the first one. */
    method AddEntry(first: nat) returns (entry: nat)
      requires Core() && open == {} && first < |g| && switchBlock.None?
      modifies this`blocks, this`g, this`open, this`succ
      ensures Core() && open == {} && entry == |old(g)|
      ensures g == old(g) + [Draft([], false, true, NoTerm, [first], true, NoMark)]
    {
      hide Sound;
      succ := Some(first);
      entry := CreateBlock(true);
      SealEmpty(entry);
    }

    /** Ends the last block built, which is where the program begins. */
    method FinishLast(first: nat)
      requires Valid() && first == Cur().b && Pending() == {} && switchBlock.None?
      modifies this`blocks, this`g, this`open, this`placed, this`block
      ensures Core() && open == {} && block.None? && placed == old(placed) && Extends(old(g), g)
      ensures first < |g| == |old(g)| && g[first].sealed && Entry(g, first) == old(Cur())
    {
      FramedRefl(g, block, None);
      if block.Some? {
        FinishBlock(first);
        FramedUpdate(old(g), old(g), first, g[first], block, None);
      }
      FramedExtends(old(g), g, block, None);
      block := None;
    }
  }

  /** The graph of a program of distinct nodes has the language's behaviours exactly when no choice loses any. */
  lemma {:induction false} GraphIsRightIff(cfg: CFG, program: Stmt)
    requires Implements(cfg, program) && CfgModes.Apart(program)
    ensures (forall tr :: Walk(cfg.blocks, cfg.entry, 0, tr) <==> Behaviour(Standard, program, tr)) <==>
            CfgModes.AlwaysRegular(program)
  {
    hide Walk, Behaviour, CfgModes.AlwaysRegular, CfgModes.Apart;
    CfgModes.ProgramsAgreeIff(program);
  }
}
