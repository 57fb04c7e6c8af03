/**
  Declaration contexts: the order in which the declarations visible in a context are met,
  through the later parts of a reopened namespace and through transparent contexts nested
  in it, and where a declaration added to a context comes in that order.

  A context is named by its place in `cs`, a sequence in the order of creation.
 */
module DeclContexts {
  import opened Options
  import opened LookupTable

  datatype ContextKind =
    | TranslationUnit | Namespace | LinkageSpec | Enum | Record(anonymous: bool) | OtherContext

  /** `original` and `next` are a namespace's first declaration and its next one. */
  datatype Context = Context(
    kind: ContextKind,
    parent: Option<nat>,
    original: nat,
    next: Option<nat>,
    decls: seq<Decl>)

  predicate Transparent(c: Context) {
    c.kind.Enum? || c.kind.LinkageSpec? || (c.kind.Record? && c.kind.anonymous)
  }

  type Contexts = seq<Context>

  /** The context that holds the table. */
  function Primary(cs: Contexts, c: nat): nat
    requires c < |cs|
  {
    if cs[c].kind.Namespace? then cs[c].original else c
  }

  predicate IsInner(cs: Contexts, d: Decl, t: nat) {
    d.inner == Some(t) && t < |cs| && Transparent(cs[t])
  }

  // ---------------------------------------------------------------------- well-formedness

  predicate DeclFits(cs: Contexts, c: nat, d: Decl) {
    d.inner.Some? ==>
      && c < d.inner.value < |cs|
      && (Transparent(cs[d.inner.value]) ==> cs[d.inner.value].parent == Some(c))
  }

  /** Both declare one transparent context. */
  predicate SameInner(cs: Contexts, d: Decl, e: Decl) {
    d.inner.Some? && d.inner == e.inner && IsInner(cs, d, d.inner.value)
  }

  predicate Fits(cs: Contexts, c: nat)
    requires c < |cs|
  {
    var x := cs[c];
    && (x.parent.Some? ==> x.parent.value < c)
    && (Transparent(x) ==> x.parent.Some?)
    && (if x.kind.Namespace? then
          && x.original <= c && cs[x.original].kind.Namespace? && cs[x.original].original == x.original
          && (x.next.Some? ==>
                && c < x.next.value < |cs| && cs[x.next.value].kind.Namespace?
                && cs[x.next.value].original == x.original)
        else x.next.None?)
    && (forall i :: 0 <= i < |x.decls| ==> DeclFits(cs, c, x.decls[i]))
    && (forall i, j :: 0 <= i < j < |x.decls| ==> !SameInner(cs, x.decls[i], x.decls[j]))
  }

  ghost predicate Follows(cs: Contexts, p: nat, c: nat) {
    p < c < |cs| && cs[p].next == Some(c)
  }

  ghost predicate Chained(cs: Contexts) {
    && (forall a, b, n :: Follows(cs, a, n) && Follows(cs, b, n) ==> a == b)
    && (forall c :: 0 <= c < |cs| && Primary(cs, c) != c ==> exists p :: Follows(cs, p, c))
    && (forall a, n :: Follows(cs, a, n) ==> Primary(cs, n) != n)
  }

  ghost predicate Formed(cs: Contexts) {
    (forall c :: 0 <= c < |cs| ==> Fits(cs, c)) && Chained(cs)
  }

  // --------------------------------------------------------------------- declaration order

  /** The declarations met from `c` on: its own and those of the parts after it. */
  ghost function Flatten(cs: Contexts, c: nat): seq<Decl>
    requires Formed(cs) && c < |cs|
    decreases |cs| - c, 1, 0
  {
    assert Fits(cs, c);
    Members(cs, c, |cs[c].decls|) + if cs[c].next.Some? then Flatten(cs, cs[c].next.value) else []
  }

  /** The first `k` declarations of `c`, each followed by what is nested in it transparently. */
  ghost function Members(cs: Contexts, c: nat, k: nat): seq<Decl>
    requires Formed(cs) && c < |cs| && k <= |cs[c].decls|
    decreases |cs| - c, 0, k
  {
    if k == 0 then []
    else
      assert Fits(cs, c);
      var d := cs[c].decls[k - 1];
      assert DeclFits(cs, c, d);
      Members(cs, c, k - 1) + [d] + Nested(cs, c, d)
  }

  ghost function Nested(cs: Contexts, c: nat, d: Decl): seq<Decl>
    requires Formed(cs) && c < |cs| && DeclFits(cs, c, d)
    decreases |cs| - c, 0, 0
  {
    if d.inner.Some? && Transparent(cs[d.inner.value]) then Flatten(cs, d.inner.value) else []
  }

  lemma {:induction false} FlattenStep(cs: Contexts, c: nat)
    requires Formed(cs) && c < |cs|
    ensures cs[c].next.Some? ==> c < cs[c].next.value < |cs|
    ensures Flatten(cs, c) ==
            Members(cs, c, |cs[c].decls|) + if cs[c].next.Some? then Flatten(cs, cs[c].next.value) else []
  {
    assert Fits(cs, c);
  }

  /** The table a walk over the declarations makes. */
  ghost function FromScratch(cs: Contexts, c: nat): Option<Table>
    requires Formed(cs) && c < |cs|
  {
    Fill(None, Flatten(cs, c))
  }

  // ------------------------------------------------------------------- adding a declaration

  /** The walk from `x` comes to `c`. */
  ghost predicate Sees(cs: Contexts, x: nat, c: nat)
    requires Formed(cs) && c < |cs|
    decreases c
  {
    assert Fits(cs, c);
    || x == c
    || (exists p :: Follows(cs, p, c) && Sees(cs, x, p))
    || (Transparent(cs[c]) && Sees(cs, x, cs[c].parent.value))
  }

  /** The place of the declaration of `c` in the list; the end when there is none. */
  function IndexOf(ds: seq<Decl>, c: nat): (i: nat)
    ensures i <= |ds| && (i < |ds| ==> ds[i].inner == Some(c))
    ensures forall j :: 0 <= j < i ==> ds[j].inner != Some(c)
  {
    if ds == [] || ds[0].inner == Some(c) then 0 else 1 + IndexOf(ds[1..], c)
  }

  /** A transparent context that has been declared in its parent. */
  predicate Nests(cs: Contexts, c: nat)
    requires c < |cs|
  {
    && Transparent(cs[c]) && cs[c].parent.Some? && cs[c].parent.value < c
    && IndexOf(cs[cs[c].parent.value].decls, c) < |cs[cs[c].parent.value].decls|
  }

  /** The walk from `x` meets what is declared in `c`. */
  ghost predicate Meets(cs: Contexts, x: nat, c: nat)
    requires c < |cs|
    decreases c
  {
    || x == c
    || (exists p :: Follows(cs, p, c) && Meets(cs, x, p))
    || (Nests(cs, c) && Meets(cs, x, cs[c].parent.value))
  }

  /** What is met from the declaration `i` of `x` on, in `x` itself. */
  ghost function MembersFrom(cs: Contexts, x: nat, i: nat): seq<Decl>
    requires Formed(cs) && x < |cs| && i <= |cs[x].decls|
    decreases |cs[x].decls| - i
  {
    if i == |cs[x].decls| then []
    else
      assert Fits(cs, x);
      assert DeclFits(cs, x, cs[x].decls[i]);
      [cs[x].decls[i]] + Nested(cs, x, cs[x].decls[i]) + MembersFrom(cs, x, i + 1)
  }

  /** What is met in the later parts of `c`. */
  ghost function Rest(cs: Contexts, c: nat): seq<Decl>
    requires Formed(cs) && c < |cs|
  {
    assert Fits(cs, c);
    if cs[c].next.Some? then Flatten(cs, cs[c].next.value) else []
  }

  /** What the walk from `x` meets after the end of `c`. */
  ghost function Later(cs: Contexts, x: nat, c: nat): seq<Decl>
    requires Formed(cs) && c < |cs| && Meets(cs, x, c)
    decreases c
  {
    if x == c || cs[c].kind.Namespace? then Rest(cs, c)
    else
      var p := cs[c].parent.value;
      MembersFrom(cs, p, IndexOf(cs[p].decls, c) + 1) + Later(cs, x, p)
  }

  /** What it meets before that. */
  ghost function Sooner(cs: Contexts, x: nat, c: nat): seq<Decl>
    requires Formed(cs) && x < |cs| && c < |cs| && Meets(cs, x, c)
  {
    var all, later := Flatten(cs, x), Later(cs, x, c);
    if |later| <= |all| then all[..|all| - |later|] else []
  }

  /** What a declaration must be to be added: a transparent context is added empty, once. */
  ghost predicate Addable(cs: Contexts, c: nat, d: Decl) {
    && c < |cs| && DeclFits(cs, c, d)
    && (d.inner.Some? && Transparent(cs[d.inner.value]) ==>
          && cs[d.inner.value].decls == []
          && forall i :: 0 <= i < |cs[c].decls| ==> cs[c].decls[i].inner != d.inner)
  }

  function Added(cs: Contexts, c: nat, d: Decl): Contexts
    requires c < |cs|
  {
    cs[c := cs[c].(decls := cs[c].decls + [d])]
  }

  lemma AddedIsFormed(cs: Contexts, c: nat, d: Decl)
    requires Formed(cs) && Addable(cs, c, d)
    ensures Formed(Added(cs, c, d))
  {
    var after := Added(cs, c, d);
    forall x | 0 <= x < |after| ensures Fits(after, x) {
      assert Fits(cs, x);
      forall i | 0 <= i < |after[x].decls| ensures DeclFits(after, x, after[x].decls[i]) {
        if x != c || i < |cs[c].decls| { assert DeclFits(cs, x, cs[x].decls[i]); }
      }
      forall i, j | 0 <= i < j < |after[x].decls|
        ensures !SameInner(after, after[x].decls[i], after[x].decls[j])
      {
        if x != c || j < |cs[c].decls| { assert !SameInner(cs, cs[x].decls[i], cs[x].decls[j]); }
      }
    }
    assert forall p, n :: Follows(after, p, n) <==> Follows(cs, p, n);
    forall x | 0 <= x < |after| && Primary(after, x) != x ensures exists p :: Follows(after, p, x) {
      assert Primary(cs, x) != x;
      var p :| Follows(cs, p, x);
      assert Follows(after, p, x);
    }
    forall a, n | Follows(after, a, n) ensures Primary(after, n) != n {
      assert Follows(cs, a, n);
    }
  }

  lemma {:induction false} SeesUpward(cs: Contexts, x: nat, c: nat)
    requires Formed(cs) && c < |cs| && Sees(cs, x, c)
    ensures x <= c
    decreases c
  {
    assert Fits(cs, c);
    if x != c {
      if p :| Follows(cs, p, c) && Sees(cs, x, p) {
        SeesUpward(cs, x, p);
      } else {
        SeesUpward(cs, x, cs[c].parent.value);
      }
    }
  }

  lemma {:induction false} OnlyNamespacesFollow(cs: Contexts, t: nat, p: nat)
    requires Formed(cs) && p < |cs| && cs[p].kind.Namespace? && Sees(cs, t, p)
    ensures t < |cs| && cs[t].kind.Namespace? && Primary(cs, t) == Primary(cs, p)
    decreases p
  {
    assert Fits(cs, p);
    if t != p {
      var q :| Follows(cs, q, p) && Sees(cs, t, q);
      assert Fits(cs, q);
      OnlyNamespacesFollow(cs, t, q);
    }
  }

  lemma {:induction false} MeetsIsSeen(cs: Contexts, x: nat, c: nat)
    requires Formed(cs) && c < |cs| && Meets(cs, x, c)
    ensures Sees(cs, x, c) && x <= c
    decreases c
  {
    assert Fits(cs, c);
    if x != c {
      if p :| Follows(cs, p, c) && Meets(cs, x, p) {
        MeetsIsSeen(cs, x, p);
      } else {
        MeetsIsSeen(cs, x, cs[c].parent.value);
      }
    }
  }

  /** `t` is what the walk from `x` goes into: the next part or a nested transparent context. */
  ghost predicate IsPart(cs: Contexts, x: nat, t: nat)
    requires x < |cs|
  {
    Follows(cs, x, t) || (t < |cs| && Nests(cs, t) && cs[t].parent == Some(x))
  }

  /** The first step of a walk that meets `c`. */
  lemma {:induction false} MeetsDownward(cs: Contexts, x: nat, c: nat) returns (t: nat)
    requires Formed(cs) && c < |cs| && x < |cs| && Meets(cs, x, c) && x != c
    ensures t < |cs| && IsPart(cs, x, t) && Meets(cs, t, c)
    decreases c
  {
    assert Fits(cs, c);
    var y: nat;
    if p :| Follows(cs, p, c) && Meets(cs, x, p) {
      y := p;
    } else {
      y := cs[c].parent.value;
    }
    if x == y {
      t := c;
    } else {
      t := MeetsDownward(cs, x, y);
    }
  }

  lemma {:induction false} MeetsFromAbove(cs: Contexts, x: nat, t: nat, c: nat)
    requires Formed(cs) && c < |cs| && x < |cs| && IsPart(cs, x, t) && Meets(cs, t, c)
    ensures Meets(cs, x, c)
    decreases c
  {
    assert Fits(cs, c);
    assert Meets(cs, x, x);
    if t != c {
      if p :| Follows(cs, p, c) && Meets(cs, t, p) {
        MeetsFromAbove(cs, x, t, p);
      } else {
        MeetsFromAbove(cs, x, t, cs[c].parent.value);
      }
    }
  }

  /** A walk meets a context in one way only. */
  lemma {:induction false} OnePart(cs: Contexts, x: nat, t: nat, u: nat, c: nat)
    requires Formed(cs) && c < |cs| && x < |cs| && t < |cs| && u < |cs|
    requires IsPart(cs, x, t) && IsPart(cs, x, u) && Meets(cs, t, c) && Meets(cs, u, c)
    ensures t == u
    decreases c
  {
    assert Fits(cs, c) && x < t && x < u;
    if t != u {
      var y := if cs[c].kind.Namespace? then Before(cs, c) else cs[c].parent.value;
      if t != c { MeetsAbove(cs, t, c, y); } else { PartOf(cs, x, c, y); }
      if u != c { MeetsAbove(cs, u, c, y); } else { PartOf(cs, x, c, y); }
      if t == c {
        MeetsIsSeen(cs, u, x);
      } else if u == c {
        MeetsIsSeen(cs, t, x);
      } else {
        OnePart(cs, x, t, u, y);
      }
    }
  }

  /** The part before a later part of a namespace. */
  ghost function Before(cs: Contexts, c: nat): (p: nat)
    requires Formed(cs) && c < |cs|
    ensures (exists q :: Follows(cs, q, c)) ==> Follows(cs, p, c)
  {
    if exists q: nat :: Follows(cs, q, c) then
      var q: nat :| Follows(cs, q, c);
      q
    else 0
  }

  lemma {:induction false} MeetsAbove(cs: Contexts, t: nat, c: nat, y: nat)
    requires Formed(cs) && c < |cs| && Meets(cs, t, c) && t != c
    requires cs[c].kind.Namespace? || cs[c].parent.Some?
    requires y == if cs[c].kind.Namespace? then Before(cs, c) else cs[c].parent.value
    ensures y < c && Meets(cs, t, y)
  {
    assert Fits(cs, c);
    if p :| Follows(cs, p, c) && Meets(cs, t, p) { assert Fits(cs, p); }
  }

  lemma PartOf(cs: Contexts, x: nat, c: nat, y: nat)
    requires Formed(cs) && c < |cs| && x < |cs| && IsPart(cs, x, c)
    requires cs[c].kind.Namespace? || cs[c].parent.Some?
    requires y == if cs[c].kind.Namespace? then Before(cs, c) else cs[c].parent.value
    ensures x == y
  {
    assert Fits(cs, c) && Fits(cs, x);
  }

  /**
    `c` is open at its end: it is the last part of its namespace, and if it is transparent
    it is the last declaration of its parent, which is open at its end too.
   */
  ghost predicate Tail(cs: Contexts, c: nat)
    requires Formed(cs) && c < |cs|
    decreases c
  {
    assert Fits(cs, c);
    && cs[c].next.None?
    && (Transparent(cs[c]) ==>
          var p := cs[c].parent.value;
          && cs[p].decls != [] && cs[p].decls[|cs[p].decls| - 1].inner == Some(c)
          && Tail(cs, p))
  }

  /** After an open end nothing is met. */
  lemma {:induction false} NothingLater(cs: Contexts, x: nat, c: nat)
    requires Formed(cs) && c < |cs| && x < |cs| && Tail(cs, c) && Sees(cs, x, c)
    ensures Meets(cs, x, c) && Later(cs, x, c) == []
    decreases c
  {
    assert Fits(cs, c);
    if x != c {
      if cs[c].kind.Namespace? {
        PartsMeet(cs, x, c);
      } else {
        var p := cs[c].parent.value;
        var n := |cs[p].decls| - 1;
        assert Fits(cs, p) && IsInner(cs, cs[p].decls[n], c);
        InnerIsPart(cs, p, n, c);
        NothingLater(cs, x, p);
      }
    }
  }

  lemma {:induction false} PartsMeet(cs: Contexts, x: nat, c: nat)
    requires Formed(cs) && c < |cs| && cs[c].kind.Namespace? && Sees(cs, x, c)
    ensures Meets(cs, x, c)
    decreases c
  {
    assert Fits(cs, c);
    if x != c {
      var p :| Follows(cs, p, c) && Sees(cs, x, p);
      assert Fits(cs, p);
      PartsMeet(cs, x, p);
    }
  }

  // ------------------------------------------------------------------ the walk afterwards

  lemma {:induction false} MembersSplit(cs: Contexts, x: nat, i: nat)
    requires Formed(cs) && x < |cs| && i <= |cs[x].decls|
    ensures Members(cs, x, |cs[x].decls|) == Members(cs, x, i) + MembersFrom(cs, x, i)
    decreases |cs[x].decls| - i
  {
    if i < |cs[x].decls| {
      MembersSplit(cs, x, i + 1);
      assert Fits(cs, x) && DeclFits(cs, x, cs[x].decls[i]);
      assert Members(cs, x, i + 1) == Members(cs, x, i) + [cs[x].decls[i]] + Nested(cs, x, cs[x].decls[i]);
    }
  }

  /** What comes after `c` comes after it in the part the walk goes into, and then the rest. */
  lemma {:induction false} LaterThrough(cs: Contexts, x: nat, t: nat, c: nat)
    requires Formed(cs) && c < |cs| && x < |cs| && t < |cs| && IsPart(cs, x, t) && Meets(cs, t, c) && Meets(cs, x, c)
    ensures Later(cs, x, c) ==
            Later(cs, t, c) + if Follows(cs, x, t) then []
                              else MembersFrom(cs, x, IndexOf(cs[x].decls, t) + 1) + Rest(cs, x)
    decreases c
  {
    assert Fits(cs, c) && Fits(cs, t) && Fits(cs, x);
    MeetsIsSeen(cs, t, c);
    if cs[c].kind.Namespace? { OnlyNamespacesFollow(cs, t, c); }
    if t != c && !cs[c].kind.Namespace? {
      var p := cs[c].parent.value;
      MeetsIsSeen(cs, t, p);
      LaterThrough(cs, x, t, p);
    }
  }

  /** The nested contexts declared from `i` up to `k` do not meet `c`. */
  ghost predicate Apart(cs: Contexts, x: nat, i: nat, k: nat, c: nat)
    requires x < |cs| && k <= |cs[x].decls| && c < |cs|
  {
    forall j, t :: i <= j < k && IsInner(cs, cs[x].decls[j], t) ==> !Meets(cs, t, c)
  }

  lemma {:induction false} SameMembers(cs: Contexts, c: nat, d: Decl, x: nat, k: nat)
    requires Formed(cs) && Addable(cs, c, d) && x < |cs| && k <= |cs[x].decls|
    requires Apart(cs, x, 0, k, c)
    ensures Formed(Added(cs, c, d)) && k <= |Added(cs, c, d)[x].decls|
    ensures Members(Added(cs, c, d), x, k) == Members(cs, x, k)
    decreases |cs| - x, 0, k
  {
    AddedIsFormed(cs, c, d);
    if k > 0 {
      SameMembers(cs, c, d, x, k - 1);
      SameNested(cs, c, d, x, k - 1);
    }
  }

  lemma {:induction false} SameMembersFrom(cs: Contexts, c: nat, d: Decl, x: nat, i: nat)
    requires Formed(cs) && Addable(cs, c, d) && x < |cs| && x != c && i <= |cs[x].decls|
    requires Apart(cs, x, i, |cs[x].decls|, c)
    ensures Formed(Added(cs, c, d)) && Added(cs, c, d)[x] == cs[x]
    ensures MembersFrom(Added(cs, c, d), x, i) == MembersFrom(cs, x, i)
    decreases |cs| - x, 0, |cs[x].decls| - i
  {
    AddedIsFormed(cs, c, d);
    if i < |cs[x].decls| {
      SameMembersFrom(cs, c, d, x, i + 1);
      SameNested(cs, c, d, x, i);
    }
  }

  lemma {:induction false} SameNested(cs: Contexts, c: nat, d: Decl, x: nat, i: nat)
    requires Formed(cs) && Addable(cs, c, d) && x < |cs| && i < |cs[x].decls|
    requires forall t :: IsInner(cs, cs[x].decls[i], t) ==> !Meets(cs, t, c)
    ensures Formed(Added(cs, c, d)) && i < |Added(cs, c, d)[x].decls| && Added(cs, c, d)[x].decls[i] == cs[x].decls[i]
    ensures DeclFits(cs, x, cs[x].decls[i]) && DeclFits(Added(cs, c, d), x, cs[x].decls[i])
    ensures Nested(Added(cs, c, d), x, cs[x].decls[i]) == Nested(cs, x, cs[x].decls[i])
    decreases |cs| - x, 0, 0
  {
    AddedIsFormed(cs, c, d);
    var e := cs[x].decls[i];
    assert Fits(cs, x) && DeclFits(cs, x, e) && Fits(Added(cs, c, d), x);
    assert Added(cs, c, d)[x].decls[i] == e;
    if e.inner.Some? && Transparent(cs[e.inner.value]) {
      assert IsInner(cs, e, e.inner.value);
      AddedElsewhere(cs, c, d, e.inner.value);
    }
  }

  lemma {:induction false} EmptyInner(cs: Contexts, c: nat, d: Decl)
    requires Formed(cs) && Addable(cs, c, d)
    ensures Formed(Added(cs, c, d)) && DeclFits(Added(cs, c, d), c, d)
    ensures Nested(Added(cs, c, d), c, d) == []
  {
    AddedIsFormed(cs, c, d);
    if d.inner.Some? && Transparent(cs[d.inner.value]) {
      var after, t := Added(cs, c, d), d.inner.value;
      assert Fits(cs, t) && Fits(after, t);
      assert after[t] == cs[t];
      assert Members(after, t, 0) == [];
    }
  }

  /** A declared transparent context is what its declaration nests. */
  lemma {:induction false} InnerIsPart(cs: Contexts, x: nat, i: nat, t: nat)
    requires Formed(cs) && x < |cs| && i < |cs[x].decls| && IsInner(cs, cs[x].decls[i], t)
    ensures IsPart(cs, x, t) && IndexOf(cs[x].decls, t) == i
  {
    assert Fits(cs, x) && DeclFits(cs, x, cs[x].decls[i]);
    var k := IndexOf(cs[x].decls, t);
    if k < i { assert SameInner(cs, cs[x].decls[k], cs[x].decls[i]); }
  }

  /** No other part of `x` meets `c`, if `t` does. */
  lemma {:induction false} OthersApart(cs: Contexts, c: nat, x: nat, t: nat, i: nat, k: nat)
    requires Formed(cs) && c < |cs| && x < |cs| && t < |cs| && i <= k <= |cs[x].decls|
    requires IsPart(cs, x, t) && Meets(cs, t, c)
    requires Follows(cs, x, t) || k <= IndexOf(cs[x].decls, t) || i > IndexOf(cs[x].decls, t)
    ensures Apart(cs, x, i, k, c)
  {
    assert Fits(cs, t);
    forall j, u | i <= j < k && IsInner(cs, cs[x].decls[j], u) ensures !Meets(cs, u, c) {
      InnerIsPart(cs, x, j, u);
      if Meets(cs, u, c) { OnePart(cs, x, t, u, c); }
    }
  }

  /** The added declaration comes where `c` ends. */
  lemma {:induction false} AddedIsPlaced(cs: Contexts, c: nat, d: Decl, x: nat)
    requires Formed(cs) && Addable(cs, c, d) && x < |cs| && Meets(cs, x, c)
    ensures Formed(Added(cs, c, d))
    ensures Flatten(cs, x) == Sooner(cs, x, c) + Later(cs, x, c)
    ensures Flatten(Added(cs, c, d), x) == Sooner(cs, x, c) + [d] + Later(cs, x, c)
    decreases |cs| - x, 2
  {
    var before: seq<Decl>;
    if x == c {
      before := AddedHere(cs, c, d);
    } else {
      var t := MeetsDownward(cs, x, c);
      if Follows(cs, x, t) {
        before := AddedAfter(cs, c, d, x, t);
      } else {
        before := AddedWithin(cs, c, d, x, t);
      }
    }
    assert Flatten(cs, x)[..|before|] == before;
  }

  lemma {:induction false} AddedHere(cs: Contexts, c: nat, d: Decl) returns (before: seq<Decl>)
    requires Formed(cs) && Addable(cs, c, d)
    ensures Formed(Added(cs, c, d)) && Meets(cs, c, c)
    ensures Flatten(cs, c) == before + Later(cs, c, c)
    ensures Flatten(Added(cs, c, d), c) == before + [d] + Later(cs, c, c)
    decreases |cs| - c, 1
  {
    var after, n := Added(cs, c, d), |cs[c].decls|;
    AddedIsFormed(cs, c, d);
    assert Fits(cs, c) && Fits(after, c);
    forall i, u | 0 <= i < n && IsInner(cs, cs[c].decls[i], u) ensures !Meets(cs, u, c) {
      assert DeclFits(cs, c, cs[c].decls[i]);
      if Meets(cs, u, c) { MeetsIsSeen(cs, u, c); }
    }
    SameMembers(cs, c, d, c, n);
    EmptyInner(cs, c, d);
    before := Members(cs, c, n);
    assert Members(after, c, n + 1) == Members(after, c, n) + [d] + Nested(after, c, d);
    if cs[c].next.Some? {
      var y := cs[c].next.value;
      if Meets(cs, y, c) { MeetsIsSeen(cs, y, c); }
      AddedElsewhere(cs, c, d, y);
    }
  }

  lemma {:induction false} AddedAfter(cs: Contexts, c: nat, d: Decl, x: nat, t: nat) returns (before: seq<Decl>)
    requires Formed(cs) && Addable(cs, c, d) && x < |cs| && x != c && Meets(cs, x, c)
    requires t < |cs| && Follows(cs, x, t) && Meets(cs, t, c)
    ensures Formed(Added(cs, c, d))
    ensures Flatten(cs, x) == before + Later(cs, x, c)
    ensures Flatten(Added(cs, c, d), x) == before + [d] + Later(cs, x, c)
    decreases |cs| - x, 1
  {
    var after, n := Added(cs, c, d), |cs[x].decls|;
    AddedIsFormed(cs, c, d);
    assert Fits(cs, x) && Fits(after, x);
    assert Flatten(cs, x) == Members(cs, x, n) + Flatten(cs, t);
    assert Flatten(after, x) == Members(after, x, n) + Flatten(after, t);
    hide Flatten, Members, Later, Sooner, Formed, Meets, Fits, Rest;
    AddedIsPlaced(cs, c, d, t);
    OthersApart(cs, c, x, t, 0, n);
    SameMembers(cs, c, d, x, n);
    LaterThrough(cs, x, t, c);
    before := Members(cs, x, n) + Sooner(cs, t, c);
    assert Later(cs, t, c) + [] == Later(cs, t, c);
    InTheMiddle(Members(cs, x, n), Sooner(cs, t, c), [d], Later(cs, t, c), [], [], Flatten(cs, t), Flatten(after, t));
    assert Flatten(cs, x) + [] + [] == Flatten(cs, x) && Flatten(after, x) + [] + [] == Flatten(after, x);
  }

  lemma {:induction false} AddedWithin(cs: Contexts, c: nat, d: Decl, x: nat, t: nat) returns (before: seq<Decl>)
    requires Formed(cs) && Addable(cs, c, d) && x < |cs| && x != c && Meets(cs, x, c)
    requires t < |cs| && IsPart(cs, x, t) && !Follows(cs, x, t) && Meets(cs, t, c)
    ensures Formed(Added(cs, c, d))
    ensures Flatten(cs, x) == before + Later(cs, x, c)
    ensures Flatten(Added(cs, c, d), x) == before + [d] + Later(cs, x, c)
    decreases |cs| - x, 1
  {
    hide Flatten, Members, MembersFrom, Rest, Later, Sooner, Formed, Meets;
    var k := IndexOf(cs[x].decls, t);
    AddedIsPlaced(cs, c, d, t);
    LaterThrough(cs, x, t, c);
    WalksWithin(cs, c, d, x, t);
    before := Members(cs, x, k) + [cs[x].decls[k]] + Sooner(cs, t, c);
    InTheMiddle(Members(cs, x, k) + [cs[x].decls[k]], Sooner(cs, t, c), [d], Later(cs, t, c),
                MembersFrom(cs, x, k + 1), Rest(cs, x), Flatten(cs, t), Flatten(Added(cs, c, d), t));
  }

  /** Around what comes to `c` the walk from `x` does not change. */
  lemma {:induction false} WalksWithin(cs: Contexts, c: nat, d: Decl, x: nat, t: nat)
    requires Formed(cs) && Addable(cs, c, d) && x < |cs| && x != c && Meets(cs, x, c)
    requires t < |cs| && IsPart(cs, x, t) && !Follows(cs, x, t) && Meets(cs, t, c)
    ensures Formed(Added(cs, c, d))
    ensures var k := IndexOf(cs[x].decls, t);
            var head, tail := Members(cs, x, k) + [cs[x].decls[k]], MembersFrom(cs, x, k + 1);
            && Flatten(cs, x) == head + Flatten(cs, t) + tail + Rest(cs, x)
            && Flatten(Added(cs, c, d), x) == head + Flatten(Added(cs, c, d), t) + tail + Rest(cs, x)
    decreases |cs| - x, 0, 1
  {
    hide Flatten, Members, MembersFrom, Rest, Formed, Meets;
    var k := IndexOf(cs[x].decls, t);
    AddedIsFormed(cs, c, d);
    OthersApart(cs, c, x, t, 0, k);
    OthersApart(cs, c, x, t, k + 1, |cs[x].decls|);
    SameMembers(cs, c, d, x, k);
    SameMembersFrom(cs, c, d, x, k + 1);
    SameRest(cs, c, d, x, t);
    WithinWalk(cs, x, k, t);
    WithinWalk(Added(cs, c, d), x, k, t);
  }

  lemma InTheMiddle(a: seq<Decl>, b: seq<Decl>, m: seq<Decl>, u: seq<Decl>, v: seq<Decl>, w: seq<Decl>,
                    inner: seq<Decl>, inner': seq<Decl>)
    requires inner == b + u && inner' == b + m + u
    ensures a + inner + v + w == (a + b) + (u + (v + w))
    ensures a + inner' + v + w == (a + b) + m + (u + (v + w))
  {
  }

  /** The later parts of `x` do not meet `c` if a context nested in `x` does. */
  lemma {:induction false} SameRest(cs: Contexts, c: nat, d: Decl, x: nat, t: nat)
    requires Formed(cs) && Addable(cs, c, d) && x < |cs| && x != c
    requires t < |cs| && IsPart(cs, x, t) && !Follows(cs, x, t) && Meets(cs, t, c)
    ensures Formed(Added(cs, c, d)) && Rest(Added(cs, c, d), x) == Rest(cs, x)
    decreases |cs| - x, 0
  {
    AddedIsFormed(cs, c, d);
    assert Fits(cs, x);
    if cs[x].next.Some? {
      var y := cs[x].next.value;
      assert Follows(cs, x, y);
      if Meets(cs, y, c) { OnePart(cs, x, t, y, c); }
      AddedElsewhere(cs, c, d, y);
    }
  }

  /** The walk from `x`, around what its declaration `k` nests. */
  lemma {:induction false} WithinWalk(cs: Contexts, x: nat, k: nat, t: nat)
    requires Formed(cs) && x < |cs| && k < |cs[x].decls| && IsInner(cs, cs[x].decls[k], t)
    ensures Flatten(cs, x) == Members(cs, x, k) + [cs[x].decls[k]] + Flatten(cs, t) + MembersFrom(cs, x, k + 1) + Rest(cs, x)
  {
    assert Fits(cs, x) && DeclFits(cs, x, cs[x].decls[k]);
    var all, e := Members(cs, x, |cs[x].decls|), cs[x].decls[k];
    assert Flatten(cs, x) == all + Rest(cs, x);
    assert MembersFrom(cs, x, k) == [e] + Flatten(cs, t) + MembersFrom(cs, x, k + 1);
    hide Flatten, Members, MembersFrom, Rest, Formed, Fits, DeclFits;
    MembersSplit(cs, x, k);
    Unnest(Members(cs, x, k), [e], Flatten(cs, t), MembersFrom(cs, x, k + 1), Rest(cs, x));
  }

  lemma Unnest(a: seq<Decl>, b: seq<Decl>, u: seq<Decl>, v: seq<Decl>, w: seq<Decl>)
    ensures a + (b + u + v) + w == a + b + u + v + w
  {
  }

  lemma {:induction false} AddedElsewhere(cs: Contexts, c: nat, d: Decl, x: nat)
    requires Formed(cs) && Addable(cs, c, d) && x < |cs| && !Meets(cs, x, c)
    ensures Formed(Added(cs, c, d))
    ensures Flatten(Added(cs, c, d), x) == Flatten(cs, x)
    decreases |cs| - x, 1
  {
    var after, n := Added(cs, c, d), |cs[x].decls|;
    AddedIsFormed(cs, c, d);
    assert x != c;
    assert Fits(cs, x) && Fits(after, x);
    forall i, u | 0 <= i < n && IsInner(cs, cs[x].decls[i], u) ensures !Meets(cs, u, c) {
      InnerIsPart(cs, x, i, u);
      if Meets(cs, u, c) { MeetsFromAbove(cs, x, u, c); }
    }
    SameMembers(cs, c, d, x, n);
    if cs[x].next.Some? {
      var y := cs[x].next.value;
      assert Follows(cs, x, y);
      if Meets(cs, y, c) { MeetsFromAbove(cs, x, y, c); }
      AddedElsewhere(cs, c, d, y);
    }
  }

  ghost predicate ParentSees(cs: Contexts, x: nat, c: nat)
    requires Formed(cs) && c < |cs|
  {
    assert Fits(cs, c);
    Transparent(cs[c]) && Sees(cs, x, cs[c].parent.value)
  }

  /** From a context that holds a table: up through its own parts, or on from its parent. */
  lemma {:induction false} PrimarySees(cs: Contexts, x: nat, c: nat)
    requires Formed(cs) && c < |cs| && x < |cs| && Primary(cs, x) == x
    ensures Sees(cs, x, c) <==>
              x == Primary(cs, c) || ParentSees(cs, x, c)
    decreases c
  {
    assert Fits(cs, c);
    if cs[c].kind.Namespace? {
      if Sees(cs, x, c) { OnlyNamespacesFollow(cs, x, c); }
      OriginalSees(cs, c);
    }
  }

  lemma {:induction false} OriginalSees(cs: Contexts, c: nat)
    requires Formed(cs) && c < |cs| && cs[c].kind.Namespace?
    ensures Primary(cs, c) < |cs| && Sees(cs, Primary(cs, c), c)
    decreases c
  {
    assert Fits(cs, c);
    if Primary(cs, c) != c {
      var p :| Follows(cs, p, c);
      assert Fits(cs, p);
      OriginalSees(cs, p);
    }
  }

  // ------------------------------------------------------------------- what a walk comes to

  lemma {:induction false} OwnAreMembers(cs: Contexts, c: nat, k: nat, i: nat)
    requires Formed(cs) && c < |cs| && i < k <= |cs[c].decls|
    ensures cs[c].decls[i] in Members(cs, c, k)
    ensures var d := cs[c].decls[i]; DeclFits(cs, c, d) && forall e <- Nested(cs, c, d) :: e in Members(cs, c, k)
  {
    assert Fits(cs, c);
    if i < k - 1 { OwnAreMembers(cs, c, k - 1, i); }
  }

  /** Whatever is met from a context that is met is met. */
  lemma {:induction false} MetWithin(cs: Contexts, x: nat, c: nat, e: Decl)
    requires Formed(cs) && x < |cs| && c < |cs| && Meets(cs, x, c) && e in Flatten(cs, c)
    ensures e in Flatten(cs, x)
    decreases c
  {
    assert Fits(cs, c);
    if x != c {
      if p :| Follows(cs, p, c) && Meets(cs, x, p) {
        assert e in Flatten(cs, p);
        MetWithin(cs, x, p, e);
      } else {
        var p := cs[c].parent.value;
        var i := IndexOf(cs[p].decls, c);
        OwnAreMembers(cs, p, |cs[p].decls|, i);
        assert e in Flatten(cs, p);
        MetWithin(cs, x, p, e);
      }
    }
  }

  lemma {:induction false} MeetsOn(cs: Contexts, x: nat, y: nat, c: nat)
    requires Formed(cs) && x < |cs| && y < |cs| && c < |cs| && Meets(cs, x, y) && Meets(cs, y, c)
    ensures Meets(cs, x, c)
    decreases c
  {
    assert Fits(cs, c);
    if y != c {
      if p :| Follows(cs, p, c) && Meets(cs, y, p) { MeetsOn(cs, x, y, p); } else { MeetsOn(cs, x, y, cs[c].parent.value); }
    }
  }

  /** Everything met is declared in some context that is met. */
  lemma {:induction false} MetSomewhere(cs: Contexts, x: nat, e: Decl) returns (c: nat)
    requires Formed(cs) && x < |cs| && e in Flatten(cs, x)
    ensures c < |cs| && Meets(cs, x, c) && e in cs[c].decls
    decreases |cs| - x, 1, 0
  {
    assert Fits(cs, x);
    if e in Members(cs, x, |cs[x].decls|) {
      c := MemberSomewhere(cs, x, |cs[x].decls|, e);
    } else {
      var next := cs[x].next.value;
      c := MetSomewhere(cs, next, e);
      assert Follows(cs, x, next) && Meets(cs, x, x);
      MeetsOn(cs, x, next, c);
    }
  }

  lemma {:induction false} MemberSomewhere(cs: Contexts, x: nat, k: nat, e: Decl) returns (c: nat)
    requires Formed(cs) && x < |cs| && k <= |cs[x].decls| && e in Members(cs, x, k)
    ensures c < |cs| && Meets(cs, x, c) && e in cs[c].decls
    decreases |cs| - x, 0, k
  {
    assert Fits(cs, x);
    var d := cs[x].decls[k - 1];
    assert DeclFits(cs, x, d);
    if e in Members(cs, x, k - 1) {
      c := MemberSomewhere(cs, x, k - 1, e);
    } else if e == d {
      c := x;
    } else {
      var inner := d.inner.value;
      c := MetSomewhere(cs, inner, e);
      IndexFound(cs[x].decls, inner, k - 1);
      assert Meets(cs, x, x) && Nests(cs, inner);
      MeetsOn(cs, x, inner, c);
    }
  }

  lemma {:induction false} IndexFound(ds: seq<Decl>, c: nat, i: nat)
    requires i < |ds| && ds[i].inner == Some(c)
    ensures IndexOf(ds, c) < |ds|
  {
    if i > 0 && ds[0].inner != Some(c) { IndexFound(ds[1..], c, i - 1); }
  }

  /** A walk meets exactly what is declared in the contexts it comes to. */
  lemma {:induction false} MetIff(cs: Contexts, x: nat, e: Decl)
    requires Formed(cs) && x < |cs|
    ensures e in Flatten(cs, x) <==> exists c :: 0 <= c < |cs| && Meets(cs, x, c) && e in cs[c].decls
  {
    if e in Flatten(cs, x) { var c := MetSomewhere(cs, x, e); }
    if c :| 0 <= c < |cs| && Meets(cs, x, c) && e in cs[c].decls {
      var i :| 0 <= i < |cs[c].decls| && cs[c].decls[i] == e;
      OwnAreMembers(cs, c, |cs[c].decls|, i);
      MetWithin(cs, x, c, e);
    }
  }

  predicate DeclaredInParent(cs: Contexts, c: nat)
    requires c < |cs|
  {
    var p := cs[c].parent;
    p.Some? && p.value < |cs| && exists d <- cs[p.value].decls :: d.inner == Some(c)
  }

  /**
    Enumerators, and members of linkage specifications and of anonymous records, are met
    where these are declared; nothing else is met from outside but the parts of a namespace.
   */
  lemma {:induction false} Enclosed(cs: Contexts, x: nat, c: nat)
    requires Formed(cs) && x < |cs| && c < |cs|
    ensures cs[c].kind.Enum? || cs[c].kind.LinkageSpec? || cs[c].kind == Record(true) ==>
              (DeclaredInParent(cs, c) ==> Meets(cs, cs[c].parent.value, c))
    ensures !cs[c].kind.Enum? && !cs[c].kind.LinkageSpec? && cs[c].kind != Record(true) && x != c && Meets(cs, x, c) ==>
              cs[c].kind.Namespace? && cs[x].kind.Namespace? && cs[x].original == cs[c].original
    decreases c
  {
    assert Fits(cs, c);
    if DeclaredInParent(cs, c) {
      var ds := cs[cs[c].parent.value].decls;
      var i :| 0 <= i < |ds| && ds[i].inner == Some(c);
      IndexFound(ds, c, i);
      var p := cs[c].parent.value;
      assert Meets(cs, p, p);
    }
    if x != c && Meets(cs, x, c) && !Transparent(cs[c]) {
      var p :| Follows(cs, p, c) && Meets(cs, x, p);
      assert Fits(cs, p);
      if x != p { Enclosed(cs, x, p); }
    }
  }
}
