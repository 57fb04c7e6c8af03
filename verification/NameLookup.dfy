/**
  Name lookup in declaration contexts: tables made when first asked for and kept up to
  date as declarations are added, proved to hold at all times what a walk over the
  declarations would make.
 */
module NameLookup {
  import opened Options
  import opened LookupTable
  import opened DeclContexts

  /** A context without an entry has not made its table yet. */
  type Tables = map<nat, Table>

  function TableOf(tables: Tables, c: nat): Option<Table> {
    if c in tables then Some(tables[c]) else None
  }

  /** Only the table of `c` may differ. */
  ghost predicate SameElsewhere(before: Tables, after: Tables, c: nat) {
    forall p: nat :: p != c ==> TableOf(after, p) == TableOf(before, p)
  }

  lemma SameAsBefore(tables: Tables, c: nat)
    ensures SameElsewhere(tables, tables, c)
  {
  }

  lemma SameThrough(a: Tables, b: Tables, z: Tables, c: nat)
    requires SameElsewhere(a, b, c) && SameElsewhere(b, z, c)
    ensures SameElsewhere(a, z, c)
  {
  }

  /** Every table there is is the one a walk makes. */
  ghost predicate UpToDate(cs: Contexts, tables: Tables)
    requires Formed(cs)
  {
    forall p <- tables :: p < |cs| && Primary(cs, p) == p && Some(tables[p]) == FromScratch(cs, p)
  }

  /**
    Whether entering `d`, declared last in `c`, into the table of `p` is what a walk from `p`
    would have done: it comes to the same for the later declarations of its name; or, when
    `c` itself has not been declared yet, the table has it already.
   */
  ghost predicate InPlace(cs: Contexts, p: nat, c: nat, d: Decl)
    requires Formed(cs) && p < |cs| && c < |cs|
  {
    if Meets(cs, p, c) then Settles(Sooner(cs, p, c), d, Later(cs, p, c))
    else Entered(d) ==> AlreadyIn(Entries(FromScratch(cs, p), d.name.value), d)
  }

  /** An entered declaration leaves the table right exactly when it is in place. */
  lemma InPlaceIff(cs: Contexts, p: nat, c: nat, d: Decl)
    requires Formed(cs) && p < |cs| && Addable(cs, c, d)
    ensures Formed(Added(cs, c, d))
    ensures FromScratch(Added(cs, c, d), p) == Insert(FromScratch(cs, p), d) <==> InPlace(cs, p, c, d)
  {
    hide Fill, Insert, Flatten, Later, Sooner, Settles, Meets, Entered;
    if Meets(cs, p, c) {
      AddedIsPlaced(cs, c, d, p);
      SettlesIff(Sooner(cs, p, c), d, Later(cs, p, c));
    } else {
      AddedElsewhere(cs, c, d, p);
      AlreadyInIff(FromScratch(cs, p), d);
    }
  }

  /** Every table that can be asked is that of a primary context. */
  ghost predicate Primaries(cs: Contexts, tables: Tables) {
    forall p <- tables :: p < |cs| && Primary(cs, p) == p
  }

  /** The tables of the contexts whose walk comes to `c` got `d`, and no others. */
  ghost predicate EnteredFrom(cs: Contexts, before: Tables, after: Tables, c: nat, d: Decl)
    requires Formed(cs) && c < |cs|
  {
    forall p: nat :: TableOf(after, p) ==
                     if p in before && Sees(cs, p, c) then Insert(Some(before[p]), d) else TableOf(before, p)
  }

  /** After that the tables are right exactly when `d` is in place in all that got it. */
  lemma {:induction false} EnteredIff(cs: Contexts, before: Tables, after: Tables, c: nat, d: Decl)
    requires Formed(cs) && UpToDate(cs, before) && Addable(cs, c, d) && EnteredFrom(cs, before, after, c, d)
    ensures Formed(Added(cs, c, d))
    ensures UpToDate(Added(cs, c, d), after) <==> forall p <- before :: Sees(cs, p, c) ==> InPlace(cs, p, c, d)
  {
    hide Fill, Insert, InPlace, FromScratch, Formed;
    AddedIsFormed(cs, c, d);
    forall p | p in before && p < |cs|
      ensures p in after && Primary(Added(cs, c, d), p) == p
      ensures Some(after[p]) == FromScratch(Added(cs, c, d), p) <==> (Sees(cs, p, c) ==> InPlace(cs, p, c, d))
    {
      assert TableOf(after, p).Some? by { InsertSome(before[p], d); }
      InPlaceIff(cs, p, c, d);
      if !Sees(cs, p, c) { Unseen(cs, p, c, d); }
    }
    forall p | p in after ensures p in before { assert TableOf(after, p).Some?; }
    assert forall p <- before :: p < |cs|;
    assert UpToDate(Added(cs, c, d), after) <==>
             forall p <- before :: Some(after[p]) == FromScratch(Added(cs, c, d), p);
  }

  lemma InsertSome(t: Table, d: Decl)
    ensures Insert(Some(t), d).Some?
  {
  }

  lemma {:induction false} Unseen(cs: Contexts, p: nat, c: nat, d: Decl)
    requires Formed(cs) && p < |cs| && Addable(cs, c, d) && !Sees(cs, p, c)
    ensures Formed(Added(cs, c, d)) && FromScratch(Added(cs, c, d), p) == FromScratch(cs, p)
  {
    if Meets(cs, p, c) { MeetsIsSeen(cs, p, c); }
    AddedElsewhere(cs, c, d, p);
  }

  lemma {:induction false} SameSees(cs: Contexts, c: nat, d: Decl, x: nat, y: nat)
    requires Formed(cs) && Addable(cs, c, d) && y < |cs|
    ensures Formed(Added(cs, c, d)) && (Sees(Added(cs, c, d), x, y) <==> Sees(cs, x, y))
    decreases y
  {
    var after := Added(cs, c, d);
    AddedIsFormed(cs, c, d);
    assert Fits(cs, y) && Fits(after, y);
    assert forall p :: Follows(after, p, y) <==> Follows(cs, p, y);
    forall p | Follows(cs, p, y) ensures Sees(after, x, p) <==> Sees(cs, x, p) {
      SameSees(cs, c, d, x, p);
    }
    if Transparent(cs[y]) { SameSees(cs, c, d, x, cs[y].parent.value); }
  }

  /** What comes to a namespace comes to its first declaration. */
  lemma EnteredAtPrimary(cs: Contexts, before: Tables, after: Tables, c: nat, d: Decl)
    requires Formed(cs) && c < |cs| && Primaries(cs, before)
    ensures Primary(cs, c) <= c && Primary(cs, Primary(cs, c)) == Primary(cs, c)
    ensures EnteredFrom(cs, before, after, Primary(cs, c), d) ==> EnteredFrom(cs, before, after, c, d)
  {
    var q := Primary(cs, c);
    assert Fits(cs, c);
    if q != c {
      forall p <- before ensures Sees(cs, p, q) <==> Sees(cs, p, c) {
        PrimarySees(cs, p, c);
        PrimarySees(cs, p, q);
      }
    }
  }

  /** Once the context's own table has got `d`, what is left comes to its parent, if to any. */
  lemma EnteredAbove(cs: Contexts, before: Tables, middle: Tables, after: Tables, c: nat, d: Decl)
    requires Formed(cs) && c < |cs| && Primary(cs, c) == c && Primaries(cs, before)
    requires SameElsewhere(before, middle, c)
    requires TableOf(middle, c) == if c in before then Insert(TableOf(before, c), d) else None
    ensures Fits(cs, c) && Primaries(cs, middle)
    ensures (if Transparent(cs[c]) then EnteredFrom(cs, middle, after, cs[c].parent.value, d) else after == middle) ==>
              EnteredFrom(cs, before, after, c, d)
  {
    hide Insert;
    assert Fits(cs, c);
    forall p | p in middle ensures p in before {
      assert TableOf(middle, p).Some?;
      assert p != c ==> TableOf(middle, p) == TableOf(before, p);
    }
    forall p | p in before
      ensures Sees(cs, p, c) <==> p == c || ParentSees(cs, p, c)
    {
      PrimarySees(cs, p, c);
    }
    if c in before { InsertSome(before[c], d); }
    if (if Transparent(cs[c]) then EnteredFrom(cs, middle, after, cs[c].parent.value, d) else after == middle) {
      forall p: nat
        ensures TableOf(after, p) ==
                if p in before && Sees(cs, p, c) then Insert(Some(before[p]), d) else TableOf(before, p)
      {
        if p != c { assert TableOf(middle, p) == TableOf(before, p); }
        if p == c && Transparent(cs[c]) { NotAbove(cs, c); }
      }
    }
  }

  lemma NotAbove(cs: Contexts, c: nat)
    requires Formed(cs) && c < |cs|
    ensures !ParentSees(cs, c, c)
  {
    assert Fits(cs, c);
    if ParentSees(cs, c, c) { SeesUpward(cs, c, cs[c].parent.value); }
  }

  lemma BuiltIsUpToDate(cs: Contexts, before: Tables, after: Tables, c: nat)
    requires Formed(cs) && UpToDate(cs, before) && c < |cs| && Primary(cs, c) == c
    requires SameElsewhere(before, after, c) && TableOf(after, c) == FromScratch(cs, c)
    ensures UpToDate(cs, after)
  {
    forall p <- after ensures p < |cs| && Primary(cs, p) == p && Some(after[p]) == FromScratch(cs, p) {
      assert TableOf(after, p) == Some(after[p]);
      assert p != c ==> TableOf(after, p) == TableOf(before, p);
    }
  }

  lemma NothingEntered(cs: Contexts, tables: Tables, c: nat, d: Decl)
    requires Formed(cs) && c < |cs| && !Entered(d)
    ensures EnteredFrom(cs, tables, tables, c, d)
  {
  }

  // ------------------------------------------------------------------------ new contexts

  /** A new, empty context, linked after the namespace part `last` if there is one. */
  function Extended(cs: Contexts, c: Context, last: Option<nat>): Contexts
    requires last.Some? ==> last.value < |cs|
  {
    (if last.Some? then cs[last.value := cs[last.value].(next := Some(|cs|))] else cs) + [c]
  }

  ghost predicate Extends(cs: Contexts, c: Context, last: Option<nat>) {
    && c.decls == [] && c.next.None?
    && (c.parent.Some? ==> c.parent.value < |cs|)
    && (Transparent(c) ==> c.parent.Some?)
    && (if last.Some? then
          && last.value < |cs| && cs[last.value].kind.Namespace? && cs[last.value].next.None?
          && c.kind.Namespace? && c.original == cs[last.value].original
        else c.original == |cs|)
  }

  lemma ExtendedIsFormed(cs: Contexts, c: Context, last: Option<nat>)
    requires Formed(cs) && Extends(cs, c, last)
    ensures Formed(Extended(cs, c, last))
  {
    var after, n := Extended(cs, c, last), |cs|;
    if last.Some? { assert Fits(cs, last.value); }
    forall x | 0 <= x < |after| ensures Fits(after, x) {
      if x < n {
        assert Fits(cs, x);
        if cs[x].kind.Namespace? { assert Fits(cs, cs[x].original); }
        forall i | 0 <= i < |after[x].decls| ensures DeclFits(after, x, after[x].decls[i]) {
          assert DeclFits(cs, x, cs[x].decls[i]);
        }
        forall i, j | 0 <= i < j < |after[x].decls|
          ensures !SameInner(after, after[x].decls[i], after[x].decls[j])
        {
          assert !SameInner(cs, cs[x].decls[i], cs[x].decls[j]);
          assert DeclFits(cs, x, cs[x].decls[i]);
        }
      }
    }
    forall p: nat, y: nat | Follows(after, p, y)
      ensures Primary(after, y) != y && (Follows(cs, p, y) || (y == n && last == Some(p)))
    {
      if last != Some(p) { assert Fits(cs, p); assert Follows(cs, p, y); }
    }
    forall x | 0 <= x < |after| && Primary(after, x) != x ensures exists p :: Follows(after, p, x) {
      if x < n {
        assert Primary(cs, x) != x;
        var p :| Follows(cs, p, x);
        assert Follows(after, p, x);
      } else {
        assert Follows(after, last.value, x);
      }
    }
  }

  /** A new context changes no walk. */
  lemma {:induction false} ExtendedFlatten(cs: Contexts, c: Context, last: Option<nat>, x: nat)
    requires Formed(cs) && Extends(cs, c, last) && x < |cs|
    ensures Formed(Extended(cs, c, last))
    ensures Flatten(Extended(cs, c, last), x) == Flatten(cs, x)
    decreases |cs| - x, 1, 0
  {
    var after, n := Extended(cs, c, last), |cs[x].decls|;
    ExtendedIsFormed(cs, c, last);
    assert Fits(cs, x) && Fits(after, x);
    ExtendedMembers(cs, c, last, x, n);
    assert after[x].decls == cs[x].decls;
    if cs[x].next.Some? {
      assert last != Some(x);
      ExtendedFlatten(cs, c, last, cs[x].next.value);
    } else if last == Some(x) {
      assert Members(after, |cs|, 0) == [];
      assert Flatten(after, |cs|) == [];
    }
  }

  lemma {:induction false} ExtendedMembers(cs: Contexts, c: Context, last: Option<nat>, x: nat, k: nat)
    requires Formed(cs) && Extends(cs, c, last) && x < |cs| && k <= |cs[x].decls|
    ensures Formed(Extended(cs, c, last)) && |Extended(cs, c, last)[x].decls| == |cs[x].decls|
    ensures Members(Extended(cs, c, last), x, k) == Members(cs, x, k)
    decreases |cs| - x, 0, k
  {
    var after := Extended(cs, c, last);
    ExtendedIsFormed(cs, c, last);
    if k > 0 {
      ExtendedMembers(cs, c, last, x, k - 1);
      var e := cs[x].decls[k - 1];
      assert Fits(cs, x) && Fits(after, x) && DeclFits(cs, x, e);
      assert after[x].decls[k - 1] == e;
      if e.inner.Some? && Transparent(cs[e.inner.value]) {
        ExtendedFlatten(cs, c, last, e.inner.value);
      }
    }
  }

  lemma FitsHere(cs: Contexts, x: nat, i: nat)
    requires Formed(cs) && x < |cs| && i < |cs[x].decls|
    ensures Fits(cs, x) && DeclFits(cs, x, cs[x].decls[i])
    ensures Members(cs, x, i + 1) == Members(cs, x, i) + [cs[x].decls[i]] + Nested(cs, x, cs[x].decls[i])
  {
    assert Fits(cs, x);
  }

  lemma {:induction false} FillNone(t: Option<Table>)
    ensures Fill(t, []) == t
  {
  }

  lemma NotInserted(t: Option<Table>, d: Decl)
    requires d.kind.NotNamed?
    ensures Insert(t, d) == t
  {
  }

  /** Adding a declaration does not change what comes to where. */
  lemma SameEntered(cs: Contexts, before: Tables, after: Tables, c: nat, d: Decl)
    requires Formed(cs) && Addable(cs, c, d) && Formed(Added(cs, c, d))
    requires EnteredFrom(Added(cs, c, d), before, after, c, d)
    ensures EnteredFrom(cs, before, after, c, d)
  {
    forall p: nat ensures Sees(Added(cs, c, d), p, c) <==> Sees(cs, p, c) {
      SameSees(cs, c, d, p, c);
    }
  }

  // --------------------------------------------------------------------------- the class

  class DeclContextTable {
    var contexts: Contexts
    var tables: Tables

    ghost predicate Valid()
      reads this
    {
      Formed(contexts) && UpToDate(contexts, tables)
    }

    constructor ()
      ensures Valid() && contexts == []
    {
      contexts := [];
      tables := map[];
    }

    method CreateContext(kind: ContextKind, parent: Option<nat>) returns (c: nat)
      requires Valid()
      requires parent.Some? ==> parent.value < |contexts|
      requires parent.None? ==> kind.TranslationUnit?
      modifies this
      ensures Valid() && c == |old(contexts)|
      ensures contexts == old(contexts) + [Context(kind, parent, c, None, [])]
    {
      c := |contexts|;
      ghost var before, new_ := contexts, Context(kind, parent, c, None, []);
      ExtendedIsFormed(before, new_, None);
      forall p <- tables ensures FromScratch(Extended(before, new_, None), p) == FromScratch(before, p) {
        ExtendedFlatten(before, new_, None, p);
      }
      contexts := contexts + [Context(kind, parent, c, None, [])];
    }

    method ReopenNamespace(last: nat, parent: nat) returns (c: nat)
      requires Valid() && last < |contexts| && parent < |contexts|
      requires contexts[last].kind.Namespace? && contexts[last].next.None?
      modifies this
      ensures Valid() && c == |old(contexts)|
      ensures contexts == old(contexts[last := contexts[last].(next := Some(c))]) +
                          [Context(Namespace, Some(parent), old(contexts[last].original), None, [])]
    {
      c := |contexts|;
      ghost var before, new_ := contexts, Context(Namespace, Some(parent), contexts[last].original, None, []);
      ExtendedIsFormed(before, new_, Some(last));
      forall p <- tables ensures FromScratch(Extended(before, new_, Some(last)), p) == FromScratch(before, p) {
        ExtendedFlatten(before, new_, Some(last), p);
      }
      contexts := contexts[last := contexts[last].(next := Some(c))] +
                  [Context(Namespace, Some(parent), contexts[last].original, None, [])];
    }

    /** Enters a declaration; the tables stay right exactly when it is in place. */
    method AddDecl(c: nat, d: Decl)
      requires Valid() && Addable(contexts, c, d)
      modifies this
      ensures Formed(contexts) && contexts == Added(old(contexts), c, d)
      ensures EnteredFrom(old(contexts), old(tables), tables, c, d)
      ensures Valid() <==> forall p <- old(tables) :: Sees(old(contexts), p, c) ==> InPlace(old(contexts), p, c, d)
    {
      ghost var before, known := contexts, tables;
      AddedIsFormed(contexts, c, d);
      contexts := contexts[c := contexts[c].(decls := contexts[c].decls + [d])];
      if !d.kind.NotNamed? {
        MakeDeclVisibleInContext(c, d);
      } else {
        NothingEntered(contexts, tables, c, d);
      }
      SameEntered(before, known, tables, c, d);
      EnteredIff(before, known, tables, c, d);
    }

    method MakeDeclVisibleInContext(c: nat, d: Decl)
      requires Formed(contexts) && c < |contexts| && Primaries(contexts, tables)
      modifies this`tables
      ensures EnteredFrom(contexts, old(tables), tables, c, d)
      decreases c
    {
      if d.kind.ClassTemplateSpecialization? {
        NothingEntered(contexts, tables, c, d);
        return;
      }
      ghost var before := tables;
      EnteredAtPrimary(contexts, before, before, c, d);
      var primary := Primary(contexts, c);
      if primary != c {
        MakeDeclVisibleInContext(primary, d);
        EnteredAtPrimary(contexts, before, tables, c, d);
        return;
      }
      if c in tables {
        MakeDeclVisibleInContextImpl(c, d);
      }
      ghost var middle := tables;
      EnteredAbove(contexts, before, middle, middle, c, d);
      if Transparent(contexts[c]) {
        MakeDeclVisibleInContext(contexts[c].parent.value, d);
        EnteredAbove(contexts, before, middle, tables, c, d);
      }
    }

    method MakeDeclVisibleInContextImpl(c: nat, d: Decl)
      modifies this`tables
      ensures TableOf(tables, c) == Insert(TableOf(old(tables), c), d)
      ensures SameElsewhere(old(tables), tables, c)
    {
      if d.kind.NotNamed? || d.name.None? {
        return;
      }
      if d.kind.ClassTemplateSpecialization? {
        return;
      }
      var map_ := if c in tables then tables[c] else map[];
      var name := d.name.value;
      var entries := if name in map_ then map_[name] else [];
      tables := tables[c := map_[name := Put(entries, d)]];
    }

    /** Enters what the walk from `from` meets into the table of `c`. */
    method BuildLookup(c: nat, from: nat)
      requires Formed(contexts) && from < |contexts|
      modifies this`tables
      ensures TableOf(tables, c) == Fill(TableOf(old(tables), c), Flatten(contexts, from))
      ensures SameElsewhere(old(tables), tables, c)
      decreases |contexts| - from, 1
    {
      hide Fill, Insert, Flatten, Members, Formed, TableOf, SameElsewhere;
      SameAsBefore(tables, c);
      FillNone(TableOf(tables, c));
      ghost var start := TableOf(tables, c);
      ghost var done: seq<Decl> := [];
      var part := Some(from);
      while part.Some?
        invariant part.Some? ==> from <= part.value < |contexts|
        invariant Flatten(contexts, from) == done + if part.Some? then Flatten(contexts, part.value) else []
        invariant TableOf(tables, c) == Fill(start, done)
        invariant SameElsewhere(old(tables), tables, c)
        decreases if part.Some? then |contexts| - part.value else -1
      {
        var x := part.value;
        FlattenStep(contexts, x);
        ghost var now := tables;
        BuildLookupPart(c, x);
        SameThrough(old(tables), now, tables, c);
        FillTwice(start, done, Members(contexts, x, |contexts[x].decls|));
        part := contexts[x].next;
        done := done + Members(contexts, x, |contexts[x].decls|);
      }
      assert done == Flatten(contexts, from);
    }

    /** The declarations of one part, each with what is nested in it transparently. */
    method BuildLookupPart(c: nat, x: nat)
      requires Formed(contexts) && x < |contexts|
      modifies this`tables
      ensures TableOf(tables, c) == Fill(TableOf(old(tables), c), Members(contexts, x, |contexts[x].decls|))
      ensures SameElsewhere(old(tables), tables, c)
      decreases |contexts| - x, 0
    {
      hide Fill, Insert, Flatten, Formed;
      ghost var start := TableOf(tables, c);
      assert Fill(start, []) == start by { FillNone(start); }
      var i := 0;
      while i < |contexts[x].decls|
        invariant 0 <= i <= |contexts[x].decls|
        invariant TableOf(tables, c) == Fill(start, Members(contexts, x, i))
        invariant SameElsewhere(old(tables), tables, c)
      {
        FitsHere(contexts, x, i);
        var d := contexts[x].decls[i];
        ghost var seen := Members(contexts, x, i);
        FillOne(start, seen, d);
        if !d.kind.NotNamed? {
          MakeDeclVisibleInContextImpl(c, d);
        } else {
          NotInserted(TableOf(tables, c), d);
        }
        if d.inner.Some? && Transparent(contexts[d.inner.value]) {
          BuildLookup(c, Primary(contexts, d.inner.value));
          FillTwice(start, seen + [d], Flatten(contexts, d.inner.value));
        } else {
          assert seen + [d] + [] == seen + [d];
        }
        i := i + 1;
      }
    }

    method Lookup(c: nat, name: nat) returns (r: seq<Decl>)
      requires Valid() && c < |contexts|
      modifies this`tables
      ensures Valid() && Primary(contexts, c) < |contexts|
      ensures r == Entries(FromScratch(contexts, Primary(contexts, c)), name)
      ensures OneOfEach(r) && Lists(contexts, Primary(contexts, c), name, r)
      decreases c
    {
      assert Fits(contexts, c);
      LookupIsExact(contexts, Primary(contexts, c), name);
      hide OneOfEach, Lists, FromScratch;
      var primary := Primary(contexts, c);
      if primary != c {
        r := Lookup(primary, name);
        return;
      }
      if c !in tables {
        ghost var before := tables;
        BuildLookup(c, c);
        BuiltIsUpToDate(contexts, before, tables, c);
        if c !in tables {
          return [];
        }
      }
      r := if name in tables[c] then tables[c][name] else [];
    }
  }

  // ------------------------------------------------------------------------ main results

  /** A looked-up declaration is declared where the walk comes, under the name asked for. */
  lemma {:induction false} LookupIsSound(cs: Contexts, c: nat, name: nat, e: Decl)
    requires Formed(cs) && c < |cs| && e in Entries(FromScratch(cs, c), name)
    ensures e in Flatten(cs, c) && e.name == Some(name) && Entered(e)
  {
    EntriesAreDeclared(Flatten(cs, c), name, e);
  }

  /** A declaration the walk comes to is found, unless a later one has replaced it. */
  lemma {:induction false} LookupIsComplete(cs: Contexts, c: nat, name: nat, i: nat)
    requires Formed(cs) && c < |cs| && i < |Flatten(cs, c)|
    requires Entered(Flatten(cs, c)[i]) && Flatten(cs, c)[i].name == Some(name)
    ensures Kept(Entries(FromScratch(cs, c), name), Flatten(cs, c), i)
  {
    DeclaredAreEntries(Flatten(cs, c), name, i);
  }

  predicate Listable(d: Decl, name: nat) {
    d.name == Some(name) && !d.kind.NotNamed? && !d.kind.ClassTemplateSpecialization?
  }

  /** The result r of a lookup consists of the declarations that are not declared again on the walk. */
  ghost predicate Lists(cs: Contexts, c: nat, name: nat, r: seq<Decl>)
    requires Formed(cs) && c < |cs|
  {
    var ds := Flatten(cs, c);
    Linked(ds) ==>
      && NoDuplicates(r)
      && forall i :: 0 <= i < |ds| && Listable(ds[i], name) ==> (ds[i] in r <==> Latest(ds, i))
  }

  /** A lookup finds exactly the last of each chain of redeclarations, and no two of one kind. */
  lemma {:induction false} LookupIsExact(cs: Contexts, c: nat, name: nat)
    requires Formed(cs) && c < |cs|
    ensures var r := Entries(FromScratch(cs, c), name);
            OneOfEach(r) && Lists(cs, c, name, r)
  {
    var ds := Flatten(cs, c);
    hide Flatten, Fill, Latest, Formed;
    OneEntryOfEach(ds, name);
    if Linked(ds) {
      ListedOnce(ds, name);
      forall i | 0 <= i < |ds| && Listable(ds[i], name)
        ensures ds[i] in Entries(FromScratch(cs, c), name) <==> Latest(ds, i)
      {
        ListedIff(ds, name, i);
      }
    }
  }

  /** A declaration whose name is not declared later on is in place. */
  lemma {:induction false} InPlaceWithoutNamesake(cs: Contexts, p: nat, c: nat, d: Decl)
    requires Formed(cs) && p < |cs| && c < |cs| && Meets(cs, p, c)
    requires Entered(d) ==> Namesakes(Later(cs, p, c), d.name.value) == []
    ensures InPlace(cs, p, c, d)
  {
    SettlesWithoutNamesake(Sooner(cs, p, c), d, Later(cs, p, c));
  }

  /** So is every declaration added to a context that is open at its end. */
  lemma {:induction false} InPlaceAtTheEnd(cs: Contexts, p: nat, c: nat, d: Decl)
    requires Formed(cs) && p < |cs| && c < |cs| && Tail(cs, c) && Sees(cs, p, c)
    ensures InPlace(cs, p, c, d)
  {
    NothingLater(cs, p, c);
    InPlaceWithoutNamesake(cs, p, c, d);
  }

  /**
    With one later declaration x of its name, it depends on when the table was made exactly
    unless the two can be entered in either order.
   */
  lemma {:induction false} FilledTooLate(cs: Contexts, p: nat, c: nat, d: Decl, x: Decl)
    requires Formed(cs) && p < |cs| && Addable(cs, c, d) && Meets(cs, p, c) && Entered(d)
    requires Namesakes(Later(cs, p, c), d.name.value) == [x]
    requires Linked(Namesakes(Sooner(cs, p, c), d.name.value) + [d, x])
    ensures Formed(Added(cs, c, d))
    ensures var list := PutAll([], Namesakes(Sooner(cs, p, c), d.name.value));
            Insert(FromScratch(cs, p), d) == FromScratch(Added(cs, c, d), p) <==> Passes(list, d, x)
  {
    var earlier := Namesakes(Sooner(cs, p, c), d.name.value);
    hide Later, Sooner, Flatten, Fill, Insert, Namesakes, Passes, Put, Formed, Addable;
    InPlaceIff(cs, p, c, d);
    PutOne(Put(PutAll([], earlier), d), x);
    PutOne(PutAll([], earlier), x);
    PutAllLinked(earlier, d, x);
    PassesIff(PutAll([], earlier), d, x);
  }

  /** An unnamed enum and a variable in a translation unit, and an enumerator named alike. */
  const ENUM: Decl := Decl(0, None, Tag(0), Some(1))
  const VARIABLE: Decl := Decl(1, Some(5), OtherKind(1), None)
  const ENUMERATOR: Decl := Decl(2, Some(5), OtherKind(2), None)
  const UNIT: Contexts := [
    Context(TranslationUnit, None, 0, None, [ENUM, VARIABLE]), Context(Enum, Some(0), 1, None, [])]

  /** An enumerator added after a later declaration of its name is entered last but met first. */
  lemma EnumeratorTooLate()
    ensures Formed(UNIT) && Addable(UNIT, 1, ENUMERATOR)
    ensures Formed(Added(UNIT, 1, ENUMERATOR))
    ensures Insert(FromScratch(UNIT, 0), ENUMERATOR) != FromScratch(Added(UNIT, 1, ENUMERATOR), 0)
  {
    hide Flatten, Fill, Insert;
    UnitIsFormed();
    AddedIsFormed(UNIT, 1, ENUMERATOR);
    UnitBefore();
    UnitAfter();
    TwoEntries(ENUM, VARIABLE, ENUMERATOR);
    TwoEntries(ENUM, ENUMERATOR, VARIABLE);
    assert [VARIABLE, ENUMERATOR][0] != [ENUMERATOR, VARIABLE][0];
    assert map[5 := [VARIABLE, ENUMERATOR]][5] != map[5 := [ENUMERATOR, VARIABLE]][5];
  }

  lemma UnitIsFormed()
    ensures Formed(UNIT) && Addable(UNIT, 1, ENUMERATOR)
  {
    assert DeclFits(UNIT, 0, ENUM) && DeclFits(UNIT, 0, VARIABLE);
    assert Fits(UNIT, 0) && Fits(UNIT, 1);
  }

  lemma UnitBefore()
    requires Formed(UNIT)
    ensures Flatten(UNIT, 0) == [ENUM, VARIABLE]
  {
    FitsHere(UNIT, 0, 0);
    FitsHere(UNIT, 0, 1);
    assert Members(UNIT, 1, 0) == [];
  }

  lemma UnitAfter()
    requires Formed(Added(UNIT, 1, ENUMERATOR))
    ensures Flatten(Added(UNIT, 1, ENUMERATOR), 0) == [ENUM, ENUMERATOR, VARIABLE]
  {
    var after := Added(UNIT, 1, ENUMERATOR);
    assert after[1] == Context(Enum, Some(0), 1, None, [ENUMERATOR]) && after[0] == UNIT[0];
    FitsHere(after, 1, 0);
    assert Flatten(after, 1) == [ENUMERATOR];
    FitsHere(after, 0, 0);
    FitsHere(after, 0, 1);
  }

  lemma TwoEntries(e: Decl, x: Decl, y: Decl)
    requires !Entered(e) && Entered(x) && Entered(y) && x.name == y.name
    requires x.kind.OtherKind? && y.kind.OtherKind? && x.kind != y.kind
    ensures Fill(None, [e, x]) == Some(map[x.name.value := [x]])
    ensures Insert(Fill(None, [e, x]), y) == Fill(None, [e, x, y]) == Some(map[x.name.value := [x, y]])
  {
    hide Fill, Insert;
    FillNone(None);
    FillOne(None, [], e);
    FillOne(None, [e], x);
    FillOne(None, [e, x], y);
    assert [] + [e] == [e] && [e] + [x] == [e, x] && [e, x] + [y] == [e, x, y];
    InsertSecond(e, x, y);
  }

  lemma InsertSecond(e: Decl, x: Decl, y: Decl)
    requires !Entered(e) && Entered(x) && Entered(y) && x.name == y.name
    requires x.kind.OtherKind? && y.kind.OtherKind? && x.kind != y.kind
    ensures Insert(None, e) == None && Insert(None, x) == Some(map[x.name.value := [x]])
    ensures Insert(Some(map[x.name.value := [x]]), y) == Some(map[x.name.value := [x, y]])
  {
    assert [x][1..] == [] && Replaced([x], y) == 1;
    assert Put([x], y) == [x, y];
    var n := x.name.value;
    assert map[n := [x]][n := [x, y]] == map[n := [x, y]];
  }
}
