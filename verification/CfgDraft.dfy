/**
  What holds between the graph a builder is constructing and its draft, whatever part of
  the program is being visited; and that each elementary update keeps it.
 */
module CfgDraft {
  import opened Options
  import opened CfgSyntax
  import opened CfgGraph
  import opened CfgMatch

  // ---------------------------------------------------------------- elements and their order

  function Reverse(s: seq<Id>): seq<Id> {
    if s == [] then [] else [s[|s| - 1]] + Reverse(s[..|s| - 1])
  }

  lemma {:induction false} ReverseInOrder(s: seq<Id>)
    ensures |Reverse(s)| == |s| && multiset(Reverse(s)) == multiset(s)
    ensures forall i :: 0 <= i < |s| ==> Reverse(s)[i] == s[|s| - 1 - i]
    decreases |s|
  {
    if s != [] {
      var n := |s| - 1;
      ReverseInOrder(s[..n]);
      assert s == s[..n] + [s[n]];
    }
  }

  /** What a block holds: an element, or its label. */
  datatype Item = Held(id: Id) | Marked(mark: Mark)

  ghost function ItemsOf(elems: seq<Id>): multiset<Item> {
    if elems == [] then multiset{} else ItemsOf(elems[..|elems| - 1]) + multiset{Held(elems[|elems| - 1])}
  }

  /** The elements of a block, and its label if it has one. */
  ghost function Items(b: Block): multiset<Item> {
    ItemsOf(b.elems) + if b.mark == NoMark then multiset{} else multiset{Marked(b.mark)}
  }

  lemma {:induction false} ItemsCount(elems: seq<Id>, x: Item)
    ensures ItemsOf(elems)[x] == if x.Held? then multiset(elems)[x.id] else 0
    decreases |elems|
  {
    if elems != [] {
      var n := |elems| - 1;
      ItemsCount(elems[..n], x);
      assert elems == elems[..n] + [elems[n]];
    }
  }

  /** The order of the elements does not matter. */
  lemma {:induction false} ItemsReversed(elems: seq<Id>)
    ensures ItemsOf(Reverse(elems)) == ItemsOf(elems)
  {
    ReverseInOrder(elems);
    forall x: Item ensures ItemsOf(Reverse(elems))[x] == ItemsOf(elems)[x] {
      ItemsCount(elems, x);
      ItemsCount(Reverse(elems), x);
    }
  }

  lemma {:induction false} ItemsAppend(elems: seq<Id>, id: Id)
    ensures ItemsOf(elems + [id]) == ItemsOf(elems) + multiset{Held(id)}
  {
    assert (elems + [id])[..|elems|] == elems;
  }

  /** All elements and labels of a graph. */
  ghost function Total(bs: seq<Block>): multiset<Item> {
    if bs == [] then multiset{} else Total(bs[..|bs| - 1]) + Items(bs[|bs| - 1])
  }

  lemma {:induction false} TotalAppend(bs: seq<Block>, b: Block)
    ensures Total(bs + [b]) == Total(bs) + Items(b)
  {
    assert (bs + [b])[..|bs|] == bs;
  }

  lemma {:induction false} TotalUpdate(bs: seq<Block>, i: nat, b: Block, more: multiset<Item>)
    requires i < |bs| && Items(b) == Items(bs[i]) + more
    ensures Total(bs[i := b]) == Total(bs) + more
    decreases |bs|
  {
    hide Items;
    var n := |bs| - 1;
    var bs' := bs[i := b];
    if i < n {
      TotalUpdate(bs[..n], i, b, more);
      assert bs'[..n] == bs[..n][i := b];
      assert Total(bs') == Total(bs[..n]) + more + Items(bs[n]);
    } else {
      assert bs'[..n] == bs[..n];
    }
  }

  // ---------------------------------------------------------------- drafts

  /** blk is what d looks like in the graph; a finished block has been reversed exactly once, unless empty. */
  ghost predicate Shows(d: Draft, blk: Block) {
    && blk.term == d.term && blk.succs == d.succs && blk.mark == d.mark
    && blk.elems == (if d.reversed then Reverse(d.rev) else d.rev)
    && (d.reversed ==> d.sealed)
    && (d.sealed ==> d.reversed || d.rev == [])
  }

  /** Gotos either have their target or wait for it in the backpatch list. */
  ghost predicate GotoOk(d: Draft, b: nat, lm: map<Id, nat>, backpatch: seq<nat>) {
    d.term.Going? ==>
      if d.edges then d.term.dest in lm && d.succs == [lm[d.term.dest]]
      else d.succs == [] && b in backpatch
  }

  ghost predicate OpenOk(d: Draft, b: nat, open: set<nat>) {
    b in open <==> !d.sealed
  }

  ghost predicate LabelOk(g: Graph, lm: map<Id, nat>, l: Id) {
    l in lm ==> lm[l] < |g| && g[lm[l]].sealed && g[lm[l]].mark == AtLabel(l)
  }

  ghost predicate WaitOk(g: Graph, b: nat) {
    b < |g| && g[b].term.Going? && !g[b].edges
  }

  ghost predicate Ended(g: Graph, b: Option<nat>) {
    b.Some? ==> b.value < |g| && g[b.value].sealed
  }

  const ExitDraft := Draft([], false, true, NoTerm, [], true, NoMark)

  /** The graph bs has the draft g, with the labels, pending gotos and growing blocks given. */
  ghost predicate Drawn(bs: seq<Block>, g: Graph, lm: map<Id, nat>, backpatch: seq<nat>, open: set<nat>) {
    && |bs| == |g| > EXIT && g[EXIT] == ExitDraft
    && (forall b {:trigger Shows(g[b], bs[b])} :: 0 <= b < |g| ==> Shows(g[b], bs[b]))
    && (forall b {:trigger OpenOk(g[b], b, open)} :: 0 <= b < |g| ==> OpenOk(g[b], b, open))
    && (forall b {:trigger b in open} :: b in open ==> b < |g|)
    && (forall b {:trigger GotoOk(g[b], b, lm, backpatch)} :: 0 <= b < |g| ==> GotoOk(g[b], b, lm, backpatch))
    && (forall l {:trigger LabelOk(g, lm, l)} :: LabelOk(g, lm, l))
    && (forall b {:trigger WaitOk(g, b)} :: b in backpatch ==> WaitOk(g, b))
  }

  ghost predicate SwitchOk(g: Graph, sw: Option<nat>, dflt: Option<nat>, arms: map<Target, nat>) {
    && (sw.Some? ==>
          && sw.value < |g| && !g[sw.value].edges && !g[sw.value].sealed && g[sw.value].term == NoTerm
          && CasesLinked(g, g[sw.value].succs, arms))
    && (sw.None? ==> arms == map[])
    && (ToDefault in arms ==> dflt == Some(arms[ToDefault]))
  }

  lemma DrawnAppend(bs: seq<Block>, g: Graph, lm: map<Id, nat>, backpatch: seq<nat>, open: set<nat>, succs: seq<nat>, edges: bool)
    requires Drawn(bs, g, lm, backpatch, open)
    ensures Drawn(bs + [Block([], NoTerm, succs, NoMark)], g + [Draft([], false, false, NoTerm, succs, edges, NoMark)],
                  lm, backpatch, open + {|g|})
  {
    var bs', g', open' := bs + [Block([], NoTerm, succs, NoMark)],
                          g + [Draft([], false, false, NoTerm, succs, edges, NoMark)], open + {|g|};
    forall b | 0 <= b < |g'|
      ensures Shows(g'[b], bs'[b]) && OpenOk(g'[b], b, open') && GotoOk(g'[b], b, lm, backpatch)
    {
      if b < |g| { assert Shows(g[b], bs[b]) && OpenOk(g[b], b, open) && GotoOk(g[b], b, lm, backpatch); }
    }
    forall l ensures LabelOk(g', lm, l) { assert LabelOk(g, lm, l); }
    forall b | b in backpatch ensures WaitOk(g', b) { assert WaitOk(g, b); }
  }

  /** Updates of a block that neither end a goto nor remove a label. */
  lemma DrawnUpdate(bs: seq<Block>, g: Graph, lm: map<Id, nat>, backpatch: seq<nat>, open: set<nat>,
                    i: nat, blk: Block, d: Draft)
    requires Drawn(bs, g, lm, backpatch, open) && i < |g| && i != EXIT
    requires Shows(d, blk) && Grows(g[i], d)
    requires d.term.Going? ==> GotoOk(d, i, lm, backpatch)
    requires i in backpatch ==> WaitOk(g[i := d], i)
    ensures Drawn(bs[i := blk], g[i := d], lm, backpatch, if d.sealed then open - {i} else open)
  {
    var bs', g', open' := bs[i := blk], g[i := d], if d.sealed then open - {i} else open;
    forall b | 0 <= b < |g'|
      ensures Shows(g'[b], bs'[b]) && OpenOk(g'[b], b, open') && GotoOk(g'[b], b, lm, backpatch)
    {
      assert Shows(g[b], bs[b]) && OpenOk(g[b], b, open) && GotoOk(g[b], b, lm, backpatch);
    }
    forall l ensures LabelOk(g', lm, l) { assert LabelOk(g, lm, l); }
    forall b | b in backpatch ensures WaitOk(g', b) { assert WaitOk(g, b); }
  }

  lemma SwitchKept(g: Graph, g': Graph, sw: Option<nat>, dflt: Option<nat>, arms: map<Target, nat>)
    requires SwitchOk(g, sw, dflt, arms) && Extends(g, g')
    requires sw.Some? ==> var d := g'[sw.value]; !d.edges && !d.sealed && d.term == NoTerm && d.succs == g[sw.value].succs
    ensures SwitchOk(g', sw, dflt, arms)
  {
    if sw.Some? { CasesLinkedMono(g, g', g[sw.value].succs, arms); }
  }

  /** A further arm of the switch at w. */
  lemma SwitchCase(g: Graph, w: nat, dflt: Option<nat>, arms: map<Target, nat>, b: nat, id: Id)
    requires SwitchOk(g, Some(w), dflt, arms) && b < |g| && g[b].mark == AtCase(id) && ToCase(id) !in arms
    ensures SwitchOk(g[w := g[w].(succs := g[w].succs + [b])], Some(w), dflt, arms[ToCase(id) := b])
  {
    var cases, arms' := g[w].succs, arms[ToCase(id) := b];
    var g' := g[w := g[w].(succs := cases + [b])];
    forall j | 0 <= j < |cases + [b]|
      ensures CaseOk(g', (cases + [b])[j], arms')
    {
      if j < |cases| { assert CaseOk(g, cases[j], arms); }
    }
    forall t | t in arms' && t.ToCase?
      ensures ArmOk(g', cases + [b], arms', t)
    {
      if t in arms && t != ToCase(id) {
        assert ArmOk(g, cases, arms, t);
        assert arms[t] in cases + [b];
      }
    }
  }

  lemma EndedKept(g: Graph, g': Graph, b: Option<nat>)
    requires Ended(g, b) && Extends(g, g')
    ensures Ended(g', b)
  {
    if b.Some? { assert Grows(g[b.value], g'[b.value]); }
  }

  lemma ExtendsUpdate(g: Graph, i: nat, d: Draft)
    requires i < |g| && Grows(g[i], d)
    ensures Extends(g, g[i := d])
  {
  }

  lemma ExtendsAppend(g: Graph, d: Draft)
    ensures Extends(g, g + [d])
  {
  }

  // ---------------------------------------------------------------- the builder's state

  /** The fields of the builder that Core relates. */
  datatype Sheet = Sheet(bs: seq<Block>, g: Graph, lm: map<Id, nat>, backpatch: seq<nat>, open: set<nat>,
                         brk: Option<nat>, cont: Option<nat>,
                         sw: Option<nat>, dflt: Option<nat>, arms: map<Target, nat>, placed: multiset<Item>)

  ghost predicate NoRepeat(s: seq<nat>) {
    forall i, j :: 0 <= i < j < |s| ==> s[i] != s[j]
  }

  ghost predicate Sound(s: Sheet) {
    && Drawn(s.bs, s.g, s.lm, s.backpatch, s.open)
    && NoRepeat(s.backpatch)
    && Ended(s.g, s.brk) && Ended(s.g, s.cont)
    && SwitchOk(s.g, s.sw, s.dflt, s.arms)
    && Total(s.bs) == s.placed
  }

  /** What is known of a block that exists. */
  lemma Look(s: Sheet, b: nat)
    requires Sound(s) && b < |s.g|
    ensures Shows(s.g[b], s.bs[b]) && (b in s.open <==> !s.g[b].sealed) && (b in s.open ==> b != EXIT)
    ensures GotoOk(s.g[b], b, s.lm, s.backpatch) && (b in s.backpatch ==> WaitOk(s.g, b))
  {
    assert OpenOk(s.g[b], b, s.open);
  }

  function Appended(s: Sheet, succs: seq<nat>, edges: bool): Sheet {
    s.(bs := s.bs + [Block([], NoTerm, succs, NoMark)],
       g := s.g + [Draft([], false, false, NoTerm, succs, edges, NoMark)],
       open := s.open + {|s.g|})
  }

  lemma SoundAppend(s: Sheet, succs: seq<nat>, edges: bool)
    requires Sound(s)
    ensures Sound(Appended(s, succs, edges)) && Extends(s.g, Appended(s, succs, edges).g)
  {
    var s' := Appended(s, succs, edges);
    DrawnAppend(s.bs, s.g, s.lm, s.backpatch, s.open, succs, edges);
    TotalAppend(s.bs, s'.bs[|s.bs|]);
    ExtendsAppend(s.g, s'.g[|s.g|]);
    SwitchKept(s.g, s'.g, s.sw, s.dflt, s.arms);
    EndedKept(s.g, s'.g, s.brk);
    EndedKept(s.g, s'.g, s.cont);
  }

  function Updated(s: Sheet, b: nat, blk: Block, d: Draft, more: multiset<Item>): Sheet
    requires b < |s.bs| == |s.g|
  {
    s.(bs := s.bs[b := blk], g := s.g[b := d], open := if d.sealed then s.open - {b} else s.open,
       placed := s.placed + more)
  }

  /** Block b may become blk, with draft d, by receiving the items `more`. */
  ghost predicate Allowed(s: Sheet, b: nat, blk: Block, d: Draft, more: multiset<Item>) {
    && b < |s.g| == |s.bs| && b != EXIT && Shows(d, blk) && Grows(s.g[b], d)
    && (d.term.Going? ==> GotoOk(d, b, s.lm, s.backpatch))
    && (b in s.backpatch ==> WaitOk(s.g[b := d], b))
    && (s.sw == Some(b) ==> !d.edges && !d.sealed && d.term == NoTerm && d.succs == s.g[b].succs)
    && Items(blk) == Items(s.bs[b]) + more
  }

  lemma SoundUpdate(s: Sheet, b: nat, blk: Block, d: Draft, more: multiset<Item>)
    requires Sound(s) && Allowed(s, b, blk, d, more)
    ensures Sound(Updated(s, b, blk, d, more)) && Extends(s.g, s.g[b := d])
  {
    hide Items, Total;
    var s' := Updated(s, b, blk, d, more);
    DrawnUpdate(s.bs, s.g, s.lm, s.backpatch, s.open, b, blk, d);
    hide Drawn, NoRepeat, Shows, GotoOk;
    TotalUpdate(s.bs, b, blk, more);
    ExtendsUpdate(s.g, b, d);
    SwitchKept(s.g, s'.g, s.sw, s.dflt, s.arms);
    EndedKept(s.g, s'.g, s.brk);
    EndedKept(s.g, s'.g, s.cont);
  }

  function SealedEmpty(s: Sheet, b: nat): Sheet
    requires b < |s.g|
  {
    s.(g := s.g[b := s.g[b].(sealed := true)], open := s.open - {b})
  }

  lemma SoundSeal(s: Sheet, b: nat)
    requires Sound(s) && b in s.open && Some(b) != s.sw && b < |s.g| && s.g[b].rev == []
    ensures Sound(SealedEmpty(s, b)) && Extends(s.g, SealedEmpty(s, b).g)
  {
    Look(s, b);
    hide Drawn, SwitchOk, ItemsOf, Total;
    var d := s.g[b].(sealed := true);
    SoundUpdate(s, b, s.bs[b], d, multiset{});
    assert s.bs[b := s.bs[b]] == s.bs;
    assert Updated(s, b, s.bs[b], d, multiset{}) == SealedEmpty(s, b);
  }

  function WithGoto(s: Sheet, id: Id, dest: Id): Sheet {
    var d := Draft([], false, false, Going(id, dest), if dest in s.lm then [s.lm[dest]] else [], dest in s.lm, NoMark);
    s.(bs := s.bs + [Block(d.rev, d.term, d.succs, d.mark)], g := s.g + [d], open := s.open + {|s.g|},
       backpatch := if dest in s.lm then s.backpatch else s.backpatch + [|s.g|])
  }

  lemma DrawnGoto(s: Sheet, id: Id, dest: Id)
    requires Sound(s)
    ensures var s' := WithGoto(s, id, dest); Drawn(s'.bs, s'.g, s'.lm, s'.backpatch, s'.open)
  {
    var s' := WithGoto(s, id, dest);
    var n := |s.g|;
    forall b | 0 <= b < |s'.g|
      ensures Shows(s'.g[b], s'.bs[b]) && OpenOk(s'.g[b], b, s'.open) && GotoOk(s'.g[b], b, s'.lm, s'.backpatch)
    {
      if b < n { assert Shows(s.g[b], s.bs[b]) && OpenOk(s.g[b], b, s.open) && GotoOk(s.g[b], b, s.lm, s.backpatch); }
    }
    forall l ensures LabelOk(s'.g, s'.lm, l) { assert LabelOk(s.g, s.lm, l); }
    forall b | b in s'.backpatch ensures WaitOk(s'.g, b) { if b in s.backpatch { assert WaitOk(s.g, b); } }
  }

  lemma NoRepeatGoto(s: Sheet, id: Id, dest: Id)
    requires Sound(s)
    ensures NoRepeat(WithGoto(s, id, dest).backpatch)
  {
    hide Shows, GotoOk, OpenOk, LabelOk, SwitchOk, Total;
    var bp := WithGoto(s, id, dest).backpatch;
    forall i, j | 0 <= i < j < |bp| ensures bp[i] != bp[j] {
      assert s.backpatch[i] in s.backpatch && WaitOk(s.g, s.backpatch[i]);
    }
  }

  /** A new block ends in a goto, whose target is known or will be patched in. */
  lemma SoundGoto(s: Sheet, id: Id, dest: Id)
    requires Sound(s)
    ensures Sound(WithGoto(s, id, dest)) && |s.bs| == |s.g| && |s.g| !in s.open && s.sw != Some(|s.g|)
  {
    var s' := WithGoto(s, id, dest);
    DrawnGoto(s, id, dest);
    NoRepeatGoto(s, id, dest);
    hide Drawn, NoRepeat;
    TotalAppend(s.bs, s'.bs[|s.bs|]);
    ExtendsAppend(s.g, s'.g[|s.g|]);
    SwitchKept(s.g, s'.g, s.sw, s.dflt, s.arms);
    EndedKept(s.g, s'.g, s.brk);
    EndedKept(s.g, s'.g, s.cont);
  }

  /** Label l is at the finished block b. */
  lemma SoundLabel(s: Sheet, l: Id, b: nat)
    requires Sound(s) && l !in s.lm && b < |s.g| && s.g[b].sealed && s.g[b].mark == AtLabel(l)
    ensures Sound(s.(lm := s.lm[l := b]))
  {
    hide Total, SwitchOk, Shows, OpenOk;
    var lm' := s.lm[l := b];
    forall i | 0 <= i < |s.g| ensures GotoOk(s.g[i], i, lm', s.backpatch) {
      assert GotoOk(s.g[i], i, s.lm, s.backpatch);
    }
    forall l' ensures LabelOk(s.g, lm', l') { assert LabelOk(s.g, s.lm, l'); }
  }

  /** The default label of the current switch is at block b. */
  lemma SoundDefault(s: Sheet, b: nat)
    requires Sound(s) && s.sw.Some? && ToDefault !in s.arms
    ensures Sound(s.(arms := s.arms[ToDefault := b], dflt := Some(b)))
  {
    hide Total, Drawn;
    var arms', cases := s.arms[ToDefault := b], s.g[s.sw.value].succs;
    forall j | 0 <= j < |cases| ensures CaseOk(s.g, cases[j], arms') { assert CaseOk(s.g, cases[j], s.arms); }
    forall t | t in arms' && t.ToCase? ensures ArmOk(s.g, cases, arms', t) { assert ArmOk(s.g, cases, s.arms, t); }
  }

  lemma LookSwitch(s: Sheet)
    requires Sound(s) && s.sw.Some?
    ensures s.sw.value < |s.g| && !s.g[s.sw.value].edges && !s.g[s.sw.value].sealed
  {
  }

  function WithCase(s: Sheet, b: nat, id: Id): Sheet
    requires s.sw.Some? && s.sw.value < |s.bs| == |s.g|
  {
    var w := s.sw.value;
    s.(bs := s.bs[w := s.bs[w].(succs := s.bs[w].succs + [b])],
       g := s.g[w := s.g[w].(succs := s.g[w].succs + [b])],
       arms := s.arms[ToCase(id) := b])
  }

  lemma SoundCase(s: Sheet, b: nat, id: Id)
    requires Sound(s) && s.sw.Some? && b < |s.g| && s.g[b].mark == AtCase(id) && ToCase(id) !in s.arms
    ensures Sound(WithCase(s, b, id)) && Extends(s.g, WithCase(s, b, id).g)
  {
    var w := s.sw.value;
    var s' := WithCase(s, b, id);
    Look(s, w);
    DrawnUpdate(s.bs, s.g, s.lm, s.backpatch, s.open, w, s'.bs[w], s'.g[w]);
    TotalUpdate(s.bs, w, s'.bs[w], multiset{});
    SwitchCase(s.g, w, s.dflt, s.arms, b, id);
    ExtendsUpdate(s.g, w, s'.g[w]);
    EndedKept(s.g, s'.g, s.brk);
    EndedKept(s.g, s'.g, s.cont);
  }

  // ---------------------------------------------------------------- what a visit leaves alone

  /**
    The part of block b that a visit keeps: everything, but that the current block receives
    elements and perhaps a label and its end, and the block of the switch receives successors.
   */
  ghost predicate KeptAt(g: Graph, g': Graph, b: nat, cur: Option<nat>, sw: Option<nat>)
    requires b < |g| <= |g'|
  {
    var d, d' := g[b], g'[b];
    && Grows(d, d')
    && d'.term == d.term && d'.edges == d.edges
    && (cur != Some(b) ==> d'.rev == d.rev && d'.reversed == d.reversed && d'.sealed == d.sealed && d'.mark == d.mark)
    && (sw != Some(b) ==> d'.succs == d.succs)
  }

  ghost predicate Framed(g: Graph, g': Graph, cur: Option<nat>, sw: Option<nat>) {
    && |g| <= |g'|
    && forall b {:trigger KeptAt(g, g', b, cur, sw)} :: 0 <= b < |g| ==> KeptAt(g, g', b, cur, sw)
  }

  lemma FramedExtends(g: Graph, g': Graph, cur: Option<nat>, sw: Option<nat>)
    requires Framed(g, g', cur, sw)
    ensures Extends(g, g')
  {
    forall b | 0 <= b < |g| ensures Grows(g[b], g'[b]) { assert KeptAt(g, g', b, cur, sw); }
  }

  lemma FramedTrans(g0: Graph, g1: Graph, g2: Graph, c0: Option<nat>, c1: Option<nat>, s1: Option<nat>, sw: Option<nat>)
    requires Framed(g0, g1, c0, sw) && Framed(g1, g2, c1, s1)
    requires c1 == c0 || c1.None? || c1.value >= |g0|
    requires s1 == sw || s1.None? || s1.value >= |g0|
    ensures Framed(g0, g2, c0, sw)
  {
    forall b | 0 <= b < |g0| ensures KeptAt(g0, g2, b, c0, sw) {
      assert KeptAt(g0, g1, b, c0, sw) && KeptAt(g1, g2, b, c1, s1);
    }
  }

  lemma FramedWeaken(g: Graph, g': Graph, cur: Option<nat>, sw: Option<nat>)
    requires Framed(g, g', cur, None)
    ensures Framed(g, g', cur, sw)
  {
    forall b | 0 <= b < |g| ensures KeptAt(g, g', b, cur, sw) { assert KeptAt(g, g', b, cur, None); }
  }

  lemma FramedRefl(g: Graph, cur: Option<nat>, sw: Option<nat>)
    ensures Framed(g, g, cur, sw)
  {
  }

  lemma FramedAppend(g0: Graph, g: Graph, d: Draft, cur: Option<nat>, sw: Option<nat>)
    requires Framed(g0, g, cur, sw)
    ensures Framed(g0, g + [d], cur, sw)
  {
    var g' := g + [d];
    forall b | 0 <= b < |g0| ensures KeptAt(g0, g', b, cur, sw) { assert KeptAt(g0, g, b, cur, sw); }
  }

  lemma FramedUpdate(g0: Graph, g: Graph, i: nat, d: Draft, cur: Option<nat>, sw: Option<nat>)
    requires Framed(g0, g, cur, sw) && i < |g|
    requires i < |g0| ==> KeptAt(g, g[i := d], i, cur, sw)
    ensures Framed(g0, g[i := d], cur, sw)
  {
    var g' := g[i := d];
    forall b | 0 <= b < |g0| ensures KeptAt(g0, g', b, cur, sw) { assert KeptAt(g0, g, b, cur, sw); }
  }

  // ---------------------------------------------------------------- stretches put together

  /** An element put in front of q, at the start of its block. */
  lemma FramedElem(g: Graph, b: nat, id: Id)
    requires b < |g| && !g[b].sealed
    ensures var g' := g[b := g[b].(rev := g[b].rev + [id])];
            Framed(g, g', Some(b), None) && IsElem(g', Entry(g', b), Entry(g, b), id)
  {
  }

  lemma {:induction false} JoinArgs(g1: Graph, g: Graph, args: seq<Expr>, i: nat, b: Option<nat>,
                 ew: ExprWit, aw: ArgsWit, p: Pos, mid: Pos, q: Pos)
    requires i < |args| && Framed(g1, g, b, None)
    requires MatchE(g, args[i], ew, false, p, mid) && MatchArgs(g1, args[..i], aw, mid, q)
    ensures MatchArgs(g, args[..i + 1], MoreA(ew, mid, aw), p, q)
  {
    FramedExtends(g1, g, b, None);
    MatchArgsMono(g1, g, args[..i], aw, mid, q);
    assert args[..i + 1][..i] == args[..i];
  }

  lemma {:induction false} JoinOp(g1: Graph, g: Graph, e: Expr, always: bool, b: Option<nat>, aw: ArgsWit, p: Pos, mid: Pos, q: Pos)
    requires e.Op? && Framed(g1, g, b, None) && MatchArgs(g, e.args, aw, p, mid)
    requires if always then IsElem(g1, mid, q, e.id) else mid == q
    ensures MatchE(g, e, OpW(aw, mid), always, p, q)
  {
    FramedExtends(g1, g, b, None);
    StepMono(g1, g, mid, q);
  }

  lemma {:induction false} JoinComma(g1: Graph, g2: Graph, g: Graph, e: Expr, always: bool, b1: Option<nat>, b2: Option<nat>,
                  lw: ExprWit, rw: ExprWit, p: Pos, m1: Pos, m2: Pos, q: Pos)
    requires e.Comma? && Framed(g1, g2, b1, None) && Framed(g2, g, b2, None)
    requires IsElem(g1, m2, q, e.id) && MatchE(g2, e.rhs, rw, true, m1, m2) && MatchE(g, e.lhs, lw, true, p, m1)
    ensures MatchE(g, e, CommaW(lw, rw, m1, m2), always, p, q)
    ensures ElemsE(e, true) == multiset{Held(e.id)} + ElemsE(e.rhs, true) + ElemsE(e.lhs, true)
  {
    FramedExtends(g1, g2, b1, None);
    FramedExtends(g2, g, b2, None);
    MatchEMono(g2, g, e.rhs, rw, true, m1, m2);
    StepMono(g1, g2, m2, q);
    StepMono(g2, g, m2, q);
  }

  lemma Untouched(g: Graph, g': Graph, b: nat, cur: Option<nat>, sw: Option<nat>)
    requires Framed(g, g', cur, sw) && b < |g| && cur != Some(b) && sw != Some(b)
    ensures b < |g'| && g'[b] == g[b]
  {
    assert KeptAt(g, g', b, cur, sw);
  }

  function Sealed(g: Graph, b: nat): Graph
    requires b < |g|
  {
    g[b := g[b].(reversed := true, sealed := true)]
  }

  /** A fresh block that will decide the branch id. */
  function Forked(g: Graph, id: Id): Graph {
    g + [Draft([], false, false, Branching(id), [], false, NoMark)]
  }

  /** Block f decides the branch id. */
  function Decided(g: Graph, f: nat, id: Id, yes: nat, no: nat): Graph
    requires f < |g|
  {
    g[f := g[f].(term := Branching(id), succs := [yes, no], edges := true)]
  }

  /** The confluence block x with the element id in front, and finished. */
  lemma BuildJoin(g0: Graph, g1: Graph, x: nat, id: Id)
    requires x < |g0| == |g1| && Framed(g0, g1, Some(x), None) && IsElem(g1, Entry(g1, x), Entry(g0, x), id)
    ensures Framed(g0, Sealed(g1, x), Some(x), None) && Closed(Sealed(g1, x), Entry(g1, x))
    ensures IsElem(Sealed(g1, x), Entry(g1, x), Entry(g0, x), id)
  {
    assert KeptAt(g0, g1, x, Some(x), None);
    FramedUpdate(g0, g1, x, Sealed(g1, x)[x], Some(x), None);
  }

  /** The block x, new since g0, is finished. */
  lemma BuildSealed(g0: Graph, g: Graph, x: nat, cur: Option<nat>, sw: Option<nat>)
    requires |g0| <= x < |g| && Framed(g0, g, cur, sw) && !g[x].sealed
    ensures Framed(g0, Sealed(g, x), cur, sw) && Extends(g, Sealed(g, x)) && Closed(Sealed(g, x), Entry(g, x))
  {
    FramedUpdate(g0, g, x, Sealed(g, x)[x], cur, sw);
  }

  /** A fork at the fresh block f, with two arms that are closed. */
  lemma BuildFork(g0: Graph, g: Graph, f: nat, id: Id, yes: Pos, no: Pos, cur: Option<nat>, sw: Option<nat>)
    requires |g0| <= f < |g| && Framed(g0, g, cur, sw) && Closed(g, yes) && Closed(g, no)
    requires (g[f].term == Branching(id) || g[f].term == NoTerm) && !g[f].edges
    ensures var g' := Decided(g, f, id, yes.b, no.b);
            Framed(g0, g', cur, sw) && Extends(g, g') && Forks(g', f, id, yes, no)
  {
    FramedUpdate(g0, g, f, Decided(g, f, id, yes.b, no.b)[f], cur, sw);
  }

  /** A fork at a new block, with two arms that are closed. */
  lemma BuildNewFork(g0: Graph, g: Graph, id: Id, yes: Pos, no: Pos, cur: Option<nat>, sw: Option<nat>)
    requires Framed(g0, g, cur, sw) && Closed(g, yes) && Closed(g, no)
    ensures var g' := Decided(Forked(g, id), |g|, id, yes.b, no.b);
            Framed(g0, g', cur, sw) && Extends(g, g') && Forks(g', |g|, id, yes, no)
  {
    var g1 := Forked(g, id);
    FramedAppend(g0, g, g1[|g|], cur, sw);
    BuildFork(g0, g1, |g|, id, yes, no, cur, sw);
    var g' := Decided(g1, |g|, id, yes.b, no.b);
    forall b | 0 <= b < |g| ensures Grows(g[b], g'[b]) { assert g'[b] == g[b]; }
  }

  /** A point of confluence stays one while other blocks are built. */
  lemma KeepJoin(g0: Graph, g1: Graph, g2: Graph, cur: Option<nat>, join: Pos, q: Pos, id: Id)
    requires Framed(g0, g1, cur, None) && Framed(g1, g2, None, None) && IsElem(g1, join, q, id) && Closed(g1, join)
    ensures Framed(g0, g2, cur, None) && Extends(g1, g2) && IsElem(g2, join, q, id) && Closed(g2, join)
  {
    FramedTrans(g0, g1, g2, cur, None, None, None);
    FramedExtends(g1, g2, None, None);
    StepMono(g1, g2, join, q);
  }

  /** The same, when a block for the fork is created in between. */
  lemma KeepFork(g0: Graph, g1: Graph, g2: Graph, g3: Graph, cur: Option<nat>, join: Pos, q: Pos, id: Id)
    requires Framed(g0, g1, cur, None) && IsElem(g1, join, q, id) && Closed(g1, join)
    requires g2 == Forked(g1, id) && Framed(g2, g3, None, None)
    ensures Framed(g0, g3, cur, None) && IsElem(g3, join, q, id) && Closed(g3, join)
    ensures |g1| < |g3| && g3[|g1|] == g2[|g1|]
  {
    FramedAppend(g1, g1, g2[|g1|], None, None);
    KeepJoin(g0, g1, g2, cur, join, q, id);
    KeepJoin(g0, g2, g3, cur, join, q, id);
    Untouched(g2, g3, |g1|, None, None);
  }

  lemma {:induction false} JoinLogical(g3: Graph, g4: Graph, g: Graph, e: Expr, always: bool, f: nat, b: Option<nat>,
                    lw: ExprWit, rw: ExprWit, rin: Pos, rout: Pos, p: Pos, join: Pos, q: Pos)
    requires e.Logical? && Extends(g3, g4) && Framed(g4, g, b, None)
    requires IsElem(g3, join, q, e.id) && Closed(g3, join)
    requires MatchE(g3, e.rhs, rw, true, rin, rout) && Goes(g3, rout, join)
    requires Forks(g4, f, e.id, if e.isOr then join else rin, if e.isOr then rin else join)
    requires MatchE(g, e.lhs, lw, true, p, Pos(f, 0))
    ensures MatchE(g, e, ForkW(lw, f, NoE, rin, rin, rw, rin, rout, join), always, p, q)
    ensures ElemsE(e, true) == multiset{Held(e.id)} + ElemsE(e.rhs, true) + ElemsE(e.lhs, true)
  {
    var w := ForkW(lw, f, NoE, rin, rin, rw, rin, rout, join);
    StepMono(g3, g4, join, q);
    StepMono(g3, g4, rout, join);
    MatchEMono(g3, g4, e.rhs, rw, true, rin, rout);
    assert LogicalTail(g4, e.id, e.isOr, e.rhs, w, q);
    FramedExtends(g4, g, b, None);
    LogicalTailMono(g4, g, e.id, e.isOr, e.rhs, w, q);
  }

  lemma {:induction false} JoinConditional(g4: Graph, g5: Graph, g: Graph, e: Expr, always: bool, f: nat, b: Option<nat>,
                        cw: ExprWit, lw: ExprWit, lin: Pos, lout: Pos, rw: ExprWit, rin: Pos, rout: Pos,
                        p: Pos, join: Pos, q: Pos)
    requires e.Conditional? && Extends(g4, g5) && Framed(g5, g, b, None)
    requires IsElem(g4, join, q, e.id) && Closed(g4, join)
    requires MatchE(g4, e.lhs, lw, true, lin, lout) && Goes(g4, lout, join)
    requires MatchE(g4, e.rhs, rw, true, rin, rout) && Goes(g4, rout, join)
    requires Forks(g5, f, e.id, lin, rin)
    requires MatchE(g, e.cond, cw, true, p, Pos(f, 0))
    ensures MatchE(g, e, ForkW(cw, f, lw, lin, lout, rw, rin, rout, join), always, p, q)
    ensures ElemsE(e, true) == multiset{Held(e.id)} + ElemsE(e.lhs, true) + ElemsE(e.rhs, true) + ElemsE(e.cond, true)
  {
    var w := ForkW(cw, f, lw, lin, lout, rw, rin, rout, join);
    StepMono(g4, g5, join, q);
    StepMono(g4, g5, lout, join);
    StepMono(g4, g5, rout, join);
    MatchEMono(g4, g5, e.lhs, lw, true, lin, lout);
    MatchEMono(g4, g5, e.rhs, rw, true, rin, rout);
    assert ConditionalTail(g5, e.id, e.lhs, e.rhs, w, q);
    FramedExtends(g5, g, b, None);
    ConditionalTailMono(g5, g, e.id, e.lhs, e.rhs, w, q);
  }

  /** An arm built in front of the closed place join stays so when more is built. */
  lemma {:induction false} ArmMono(g: Graph, g': Graph, e: Expr, w: ExprWit, p: Pos, end: Pos, join: Pos)
    requires Extends(g, g') && MatchE(g, e, w, true, p, end) && Goes(g, end, join) && Closed(g, p)
    ensures MatchE(g', e, w, true, p, end) && Goes(g', end, join) && Closed(g', p)
  {
    MatchEMono(g, g', e, w, true, p, end);
    StepMono(g, g', end, join);
    StepMono(g, g', p, p);
  }

  // ---------------------------------------------------------------- the elements of a program

  /** The elements of e, as items; e itself is one only if `always` says so or control flow demands it. */
  ghost function ElemsE(e: Expr, always: bool): multiset<Item> {
    match e
    case Op(id, args) => ElemsArgs(args) + if always then multiset{Held(id)} else multiset{}
    case Paren(sub) => ElemsE(sub, always)
    case Comma(id, l, r) => multiset{Held(id)} + ElemsE(r, true) + ElemsE(l, true)
    case Logical(id, _, l, r) => multiset{Held(id)} + ElemsE(r, true) + ElemsE(l, true)
    case Conditional(id, c, l, r) => multiset{Held(id)} + ElemsE(l, true) + ElemsE(r, true) + ElemsE(c, true)
  }

  ghost function ElemsArgs(args: seq<Expr>): multiset<Item> {
    if args == [] then multiset{} else ElemsArgs(args[..|args| - 1]) + ElemsE(args[|args| - 1], false)
  }

  ghost function ElemsO(e: Option<Expr>): multiset<Item> {
    if e.Some? then ElemsE(e.value, true) else multiset{}
  }

  /** The elements and labels of s. */
  ghost function ElemsS(s: Stmt): multiset<Item> {
    match s
    case Eval(e) => ElemsE(e, true)
    case Compound(body) => ElemsL(body)
    case If(_, c, t, f) => (if f.Some? then ElemsS(f.value) else multiset{}) + ElemsS(t) + ElemsE(c, true)
    case While(_, c, b) => ElemsE(c, true) + ElemsS(b)
    case Do(_, b, c) => ElemsE(c, true) + ElemsS(b)
    case For(_, i, c, n, b) => ElemsO(c) + ElemsO(n) + ElemsS(b) + ElemsO(i)
    case Switch(_, c, b) => ElemsS(b) + ElemsE(c, true)
    case Case(id, b) => ElemsS(b) + multiset{Marked(AtCase(id))}
    case Default(id, b) => ElemsS(b) + multiset{Marked(AtDefault(id))}
    case Label(id, b) => ElemsS(b) + multiset{Marked(AtLabel(id))}
    case Return(id, v) => multiset{Held(id)} + ElemsArgs(OptionArgs(v))
    case _ => multiset{}
  }

  ghost function ElemsL(ss: seq<Stmt>): multiset<Item> {
    if ss == [] then multiset{} else ElemsL(ss[1..]) + ElemsS(ss[0])
  }
}
