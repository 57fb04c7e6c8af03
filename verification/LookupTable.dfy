/**
  Declarations, and the table from names to declarations that a context keeps: what
  entering one more declaration does to it, and which declarations it ends up holding.
 */
module LookupTable {
  import opened Options

  datatype Kind =
    | NotNamed
    | ClassTemplateSpecialization
    | UsingDirective(nominated: nat)
    | Function(previous: Option<nat>)
    | ObjCMethod
    | Tag(kind: nat)
    | OtherKind(kind: nat)

  /** `inner` is the context the declaration is itself, if it is one. */
  datatype Decl = Decl(id: nat, name: Option<nat>, kind: Kind, inner: Option<nat>)

  /** Declarations that are entered in tables at all. */
  predicate Entered(d: Decl) {
    d.name.Some? && !d.kind.NotNamed? && !d.kind.ClassTemplateSpecialization?
  }

  predicate DeclarationReplaces(d: Decl, earlier: Decl) {
    match d.kind
    case UsingDirective(_) => earlier.kind == d.kind
    case Function(previous) => previous == Some(earlier.id)
    case ObjCMethod => false
    case _ => d.kind == earlier.kind
  }

  type Table = map<nat, seq<Decl>>

  /** The first declaration of the list that `d` replaces. */
  function Replaced(list: seq<Decl>, d: Decl): (i: nat)
    ensures i <= |list|
    ensures i < |list| ==> DeclarationReplaces(d, list[i])
    ensures forall j :: 0 <= j < i ==> !DeclarationReplaces(d, list[j])
  {
    if list == [] then 0
    else if DeclarationReplaces(d, list[0]) then 0
    else 1 + Replaced(list[1..], d)
  }

  /** A declaration that replaces none goes last, but before a tag unless it is one itself. */
  function AddSubsequent(list: seq<Decl>, d: Decl): seq<Decl>
    requires list != []
  {
    if !d.kind.UsingDirective? && !d.kind.Tag? && list[|list| - 1].kind.Tag?
    then list[..|list| - 1] + [d, list[|list| - 1]]
    else list + [d]
  }

  function Put(list: seq<Decl>, d: Decl): seq<Decl> {
    if list == [] then [d]
    else
      var i := Replaced(list, d);
      if i < |list| then list[i := d] else AddSubsequent(list, d)
  }

  function Entries(t: Option<Table>, name: nat): seq<Decl> {
    if t.Some? && name in t.value then t.value[name] else []
  }

  /** None is the table that has not been made yet. */
  function Insert(t: Option<Table>, d: Decl): Option<Table> {
    if !Entered(d) then t
    else Some((if t.Some? then t.value else map[])[d.name.value := Put(Entries(t, d.name.value), d)])
  }

  function Fill(t: Option<Table>, ds: seq<Decl>): Option<Table>
    decreases |ds|
  {
    if ds == [] then t else Insert(Fill(t, ds[..|ds| - 1]), ds[|ds| - 1])
  }

  lemma {:induction false} FillOne(t: Option<Table>, ds: seq<Decl>, d: Decl)
    ensures Fill(t, ds + [d]) == Insert(Fill(t, ds), d)
  {
    assert (ds + [d])[..|ds|] == ds;
  }

  lemma {:induction false} FillTwice(t: Option<Table>, a: seq<Decl>, b: seq<Decl>)
    ensures Fill(t, a + b) == Fill(Fill(t, a), b)
    decreases |b|
  {
    if b == [] {
      assert a + b == a;
    } else {
      var n := |b| - 1;
      assert a + b == (a + b[..n]) + [b[n]];
      FillOne(t, a + b[..n], b[n]);
      FillTwice(t, a, b[..n]);
    }
  }

  // ------------------------------------------------------------- what a table holds

  /** `d` is in the list, or a later declaration of the sequence took its place. */
  ghost predicate Kept(list: seq<Decl>, ds: seq<Decl>, i: nat)
    requires i < |ds|
  {
    ds[i] in list || exists j :: i < j < |ds| && Supersedes(ds[j], ds[i])
  }

  predicate Supersedes(d: Decl, earlier: Decl) {
    Entered(d) && d.name == earlier.name && DeclarationReplaces(d, earlier)
  }

  /** The entries of a name are declarations of that name, none of them made up. */
  lemma {:induction false} EntriesAreDeclared(ds: seq<Decl>, name: nat, e: Decl)
    requires e in Entries(Fill(None, ds), name)
    ensures e in ds && Entered(e) && e.name == Some(name)
    decreases |ds|
  {
    var n := |ds| - 1;
    var list := Entries(Fill(None, ds[..n]), name);
    if ds[n].name == Some(name) && Entered(ds[n]) {
      PutHolds(list, ds[n], e);
    }
    if e in list {
      EntriesAreDeclared(ds[..n], name, e);
    }
  }

  lemma PutHolds(list: seq<Decl>, d: Decl, e: Decl)
    ensures e in Put(list, d) ==> e == d || e in list
    ensures d in Put(list, d)
    ensures e in list ==> e in Put(list, d) || DeclarationReplaces(d, e)
  {
    if list != [] {
      var i, n := Replaced(list, d), |list|;
      if i < n {
        assert list[i := d][i] == d;
        if e in list {
          var k :| 0 <= k < n && list[k] == e;
          assert k != i ==> list[i := d][k] == e;
        }
      } else {
        var put := AddSubsequent(list, d);
        assert put == list + [d] || (put == list[..n - 1] + [d, list[n - 1]] && put[n - 1] == d && put[n] == list[n - 1]);
        assert list == list[..n - 1] + [list[n - 1]];
      }
    }
  }

  /** Every declaration of the name is among its entries unless a later one replaced it. */
  lemma {:induction false} DeclaredAreEntries(ds: seq<Decl>, name: nat, i: nat)
    requires i < |ds| && Entered(ds[i]) && ds[i].name == Some(name)
    ensures Kept(Entries(Fill(None, ds), name), ds, i)
    decreases |ds|
  {
    var n := |ds| - 1;
    var list := Entries(Fill(None, ds[..n]), name);
    if ds[n].name == Some(name) && Entered(ds[n]) {
      PutHolds(list, ds[n], ds[i]);
    }
    if i < n {
      DeclaredAreEntries(ds[..n], name, i);
      if ds[i] !in list {
        var j :| i < j < n && Supersedes(ds[..n][j], ds[..n][i]);
        assert Supersedes(ds[j], ds[i]);
      } else if ds[i] !in Entries(Fill(None, ds), name) {
        assert Supersedes(ds[n], ds[i]);
      }
    }
  }

  // -------------------------------------------------------------- entering one too late

  /** The declarations entered under a name. */
  function Namesakes(ds: seq<Decl>, name: nat): seq<Decl> {
    if ds == [] then []
    else
      var d := ds[|ds| - 1];
      Namesakes(ds[..|ds| - 1], name) + if Entered(d) && d.name == Some(name) then [d] else []
  }

  function PutAll(list: seq<Decl>, ds: seq<Decl>): seq<Decl> {
    if ds == [] then list else Put(PutAll(list, ds[..|ds| - 1]), ds[|ds| - 1])
  }

  lemma {:induction false} NamesakesOfBoth(a: seq<Decl>, b: seq<Decl>, name: nat)
    ensures Namesakes(a + b, name) == Namesakes(a, name) + Namesakes(b, name)
    decreases |b|
  {
    if b == [] {
      assert a + b == a;
    } else {
      var n := |b| - 1;
      assert (a + b)[..|a| + n] == a + b[..n];
      NamesakesOfBoth(a, b[..n], name);
    }
  }

  lemma {:induction false} PutAllTwice(list: seq<Decl>, a: seq<Decl>, b: seq<Decl>)
    ensures PutAll(list, a + b) == PutAll(PutAll(list, a), b)
    decreases |b|
  {
    hide Put;
    if b == [] {
      assert a + b == a;
    } else {
      var n := |b| - 1;
      assert (a + b)[..|a| + n] == a + b[..n];
      PutAllTwice(list, a, b[..n]);
    }
  }

  /** The entries of a name depend on what was entered under it only. */
  lemma {:induction false} EntriesOfFill(ds: seq<Decl>, name: nat)
    ensures Entries(Fill(None, ds), name) == PutAll([], Namesakes(ds, name))
    ensures Fill(None, ds).Some? && name in Fill(None, ds).value <==> Namesakes(ds, name) != []
    decreases |ds|
  {
    if ds != [] {
      hide Put, PutAll;
      var n := |ds| - 1;
      var d, before := ds[n], Namesakes(ds[..n], name);
      EntriesOfFill(ds[..n], name);
      assert before + [] == before;
      if Entered(d) {
        hide Insert;
        InsertedEntries(Fill(None, ds[..n]), d);
        PutAllTwice([], before, [d]);
        PutOne(PutAll([], before), d);
      }
    }
  }

  /** Whether d, entered last, ends up where it would have between a and b. */
  predicate Settles(a: seq<Decl>, d: Decl, b: seq<Decl>) {
    Entered(d) ==>
      var list, later := PutAll([], Namesakes(a, d.name.value)), Namesakes(b, d.name.value);
      PutAll(Put(list, d), later) == Put(PutAll(list, later), d)
  }

  /** Entering d last or in its place comes to the same exactly when it does for its namesakes. */
  lemma {:induction false} SettlesIff(a: seq<Decl>, d: Decl, b: seq<Decl>)
    ensures Fill(None, a + [d] + b) == Insert(Fill(None, a + b), d) <==> Settles(a, d, b)
  {
    hide Fill, Put, PutAll;
    if !Entered(d) {
      NotEntered(a, d, b);
    } else {
      var name := d.name.value;
      NamesakeEntries(a, d, b, name);
      hide Insert;
      InsertedEntries(Fill(None, a + b), d);
      forall n: nat | n != name
        ensures EntriesAlike(Fill(None, a + [d] + b), Insert(Fill(None, a + b), d), n)
      {
        NamesakeEntries(a, d, b, n);
      }
      if Settles(a, d, b) {
        assert EntriesAlike(Fill(None, a + [d] + b), Insert(Fill(None, a + b), d), name);
        SameTables(Fill(None, a + [d] + b), Insert(Fill(None, a + b), d));
      }
    }
  }

  lemma InsertedEntries(t: Option<Table>, d: Decl)
    requires Entered(d)
    ensures Insert(t, d).Some? && d.name.value in Insert(t, d).value
    ensures Entries(Insert(t, d), d.name.value) == Put(Entries(t, d.name.value), d)
    ensures forall n: nat :: n != d.name.value ==>
              Entries(Insert(t, d), n) == Entries(t, n) && (n in Insert(t, d).value <==> t.Some? && n in t.value)
  {
    hide Put;
  }

  /** Both tables have the name or neither has, with the same entries. */
  ghost predicate EntriesAlike(s: Option<Table>, t: Option<Table>, name: nat) {
    (s.Some? && name in s.value <==> t.Some? && name in t.value) && Entries(s, name) == Entries(t, name)
  }

  lemma SameTables(s: Option<Table>, t: Option<Table>)
    requires s.Some? && t.Some? && forall n: nat :: EntriesAlike(s, t, n)
    ensures s == t
  {
    forall n: nat ensures (n in s.value <==> n in t.value) && (n in s.value ==> s.value[n] == t.value[n]) {
      assert EntriesAlike(s, t, n);
    }
    assert s.value == t.value;
  }

  lemma {:induction false} NotEntered(a: seq<Decl>, d: Decl, b: seq<Decl>)
    requires !Entered(d)
    ensures Fill(None, a + [d] + b) == Fill(None, a + b)
  {
    hide Fill;
    FillTwice(None, a + [d], b);
    FillOne(None, a, d);
    FillTwice(None, a, b);
  }

  /** The entries of a name with d in its place, and without it. */
  lemma {:induction false} NamesakeEntries(a: seq<Decl>, d: Decl, b: seq<Decl>, name: nat)
    requires Entered(d)
    ensures var list, later := PutAll([], Namesakes(a, name)), Namesakes(b, name);
            var t, u := Fill(None, a + [d] + b), Fill(None, a + b);
            && Entries(t, name) == PutAll(if d.name == Some(name) then Put(list, d) else list, later)
            && Entries(u, name) == PutAll(list, later)
            && (t.Some? && name in t.value <==> d.name == Some(name) || (u.Some? && name in u.value))
    ensures Fill(None, a + [d] + b).Some?
  {
    hide Fill, Put;
    EntriesOfFill(a + [d] + b, name);
    EntriesOfFill(a + b, name);
    EntriesOfFill(a + [d] + b, d.name.value);
    NamesakesOfBoth(a, b, name);
    NamesakesOfBoth(a + [d], b, name);
    NamesakesOfBoth(a, [d], name);
    NamesakesOfBoth(a + [d], b, d.name.value);
    NamesakesOfBoth(a, [d], d.name.value);
    OneNamesake(d, name);
    OneNamesake(d, d.name.value);
    var list, before := Namesakes(a, name), Namesakes(a, name) + Namesakes([d], name);
    PutAllTwice([], before, Namesakes(b, name));
    PutAllTwice([], list, Namesakes(b, name));
    PutAllTwice([], list, Namesakes([d], name));
    PutOne(PutAll([], list), d);
    assert list + [] == list;
  }

  lemma {:induction false} OneNamesake(d: Decl, name: nat)
    requires Entered(d)
    ensures Namesakes([d], name) == if d.name == Some(name) then [d] else []
  {
    assert [d][..0] == [] && Namesakes([], name) == [];
  }

  lemma {:induction false} PutOne(list: seq<Decl>, d: Decl)
    ensures PutAll(list, []) == list && PutAll(list, [d]) == Put(list, d)
  {
    assert [d][..0] == [];
  }

  /** Without a later namesake it always does. */
  lemma {:induction false} SettlesWithoutNamesake(a: seq<Decl>, d: Decl, b: seq<Decl>)
    requires Entered(d) ==> Namesakes(b, d.name.value) == []
    ensures Settles(a, d, b)
  {
  }

  /** Entering the declaration changes nothing. */
  predicate AlreadyIn(list: seq<Decl>, d: Decl) {
    Replaced(list, d) < |list| && list[Replaced(list, d)] == d
  }

  lemma AlreadyInIff(t: Option<Table>, d: Decl)
    ensures t == Insert(t, d) <==> (Entered(d) ==> AlreadyIn(Entries(t, d.name.value), d))
  {
    if Entered(d) {
      var list := Entries(t, d.name.value);
      if AlreadyIn(list, d) {
        assert list[Replaced(list, d) := d] == list;
        assert t.value[d.name.value := list] == t.value;
      } else if t == Insert(t, d) {
        InsertedEntries(t, d);
        assert Put(list, d) == list;
        PutLength(list, d);
      }
    }
  }

  lemma PutLength(list: seq<Decl>, d: Decl)
    ensures Put(list, d) == list ==> AlreadyIn(list, d)
  {
  }

  // -------------------------------------------------------------- one later namesake

  /** Declarations are told apart by their ids, and functions are redeclarations of functions. */
  ghost predicate Linked(ds: seq<Decl>) {
    && (forall i, j :: 0 <= i < j < |ds| ==> ds[i].id != ds[j].id)
    && forall i, j :: 0 <= i < |ds| && 0 <= j < |ds| && ds[i].kind == Function(Some(ds[j].id)) ==> ds[j].kind.Function?
  }

  /**
    Whether d and x can be entered in either order: neither replaces the other, and at most
    one of them is added rather than put in the place of an earlier declaration, unless just
    one of them is a tag, which goes last, and the other is of the kind that goes before it.
   */
  predicate Passes(list: seq<Decl>, d: Decl, x: Decl) {
    var i, j, n := Replaced(list, d), Replaced(list, x), |list|;
    && !DeclarationReplaces(d, x) && !DeclarationReplaces(x, d)
    && (if i < n && j < n then i != j
        else i < n || j < n || ((list == [] || !list[n - 1].kind.Tag?) && (MovesTag(d, x) || MovesTag(x, d))))
  }

  /** d goes before x although it is entered after it. */
  predicate MovesTag(d: Decl, x: Decl) {
    x.kind.Tag? && !d.kind.Tag? && !d.kind.UsingDirective?
  }

  lemma PassesIff(list: seq<Decl>, d: Decl, x: Decl)
    requires Linked(list + [d, x])
    ensures Put(Put(list, d), x) == Put(Put(list, x), d) <==> Passes(list, d, x)
  {
    LinkedFacts(list, d, x);
    var i, j, n := Replaced(list, d), Replaced(list, x), |list|;
    if DeclarationReplaces(x, d) {
      Displaced(list, d, x);
      PutHolds(Put(list, x), d, d);
    } else if DeclarationReplaces(d, x) {
      Displaced(list, x, d);
      PutHolds(Put(list, d), x, x);
    } else if i < n && j < n {
      if i == j { SamePlace(list, d, x); } else { OtherPlace(list, d, x); }
    } else if i < n {
      PlaceAndAdd(list, d, x);
    } else if j < n {
      PlaceAndAdd(list, x, d);
    } else {
      AddBoth(list, d, x);
    }
  }

  /** What makes a list Linked, for two declarations that are not in it. */
  ghost predicate Fresh(list: seq<Decl>, d: Decl, x: Decl) {
    && d.id != x.id
    && (forall k :: 0 <= k < |list| ==> list[k].id != d.id && list[k].id != x.id)
    && (forall k, l :: 0 <= k < l < |list| ==> list[k].id != list[l].id)
    && (forall k :: 0 <= k < |list| && DeclarationReplaces(d, list[k]) ==> d.kind.Tag? == list[k].kind.Tag? && d.kind.Function? == list[k].kind.Function?)
    && (forall k :: 0 <= k < |list| && DeclarationReplaces(x, list[k]) ==> x.kind.Tag? == list[k].kind.Tag? && x.kind.Function? == list[k].kind.Function?)
    && (DeclarationReplaces(x, d) ==> x.kind.Tag? == d.kind.Tag? && x.kind.Function? == d.kind.Function?)
    && (DeclarationReplaces(d, x) ==> x.kind.Tag? == d.kind.Tag? && x.kind.Function? == d.kind.Function?)
  }

  lemma LinkedFacts(list: seq<Decl>, d: Decl, x: Decl)
    requires Linked(list + [d, x])
    ensures Fresh(list, d, x) && Fresh(list, x, d)
  {
    var ds, n := list + [d, x], |list|;
    assert ds[n] == d && ds[n + 1] == x;
    forall k | 0 <= k < n ensures ds[k] == list[k] {}
    forall k | 0 <= k < n && DeclarationReplaces(d, list[k]) ensures d.kind.Function? == list[k].kind.Function? {
      if d.kind.Function? { assert ds[n].kind == Function(Some(ds[k].id)); }
    }
    forall k | 0 <= k < n && DeclarationReplaces(x, list[k]) ensures x.kind.Function? == list[k].kind.Function? {
      if x.kind.Function? { assert ds[n + 1].kind == Function(Some(ds[k].id)); }
    }
    if DeclarationReplaces(x, d) && x.kind.Function? { assert ds[n + 1].kind == Function(Some(ds[n].id)); }
    if DeclarationReplaces(d, x) && d.kind.Function? { assert ds[n].kind == Function(Some(ds[n + 1].id)); }
  }

  lemma {:induction false} ReplacedIs(list: seq<Decl>, d: Decl, i: nat)
    requires i <= |list| && (i < |list| ==> DeclarationReplaces(d, list[i]))
    requires forall j :: 0 <= j < i ==> !DeclarationReplaces(d, list[j])
    ensures Replaced(list, d) == i
  {
  }

  /** A declaration that replaces another takes its place when it is entered right after it. */
  lemma Displaced(list: seq<Decl>, d: Decl, x: Decl)
    requires Fresh(list, d, x) && DeclarationReplaces(x, d)
    ensures d !in Put(Put(list, d), x)
  {
    var i, n := Replaced(list, d), |list|;
    var with := Put(list, d);
    var p := if list == [] then 0 else if i < n then i else if MovesTag(d, list[n - 1]) then n - 1 else n;
    assert |with| >= 1 && p < |with| && with[p] == d;
    forall k | 0 <= k < |with| && k != p ensures with[k] != d && with[k] in list {}
    forall k | 0 <= k < p ensures !DeclarationReplaces(x, with[k]) {
      assert with[k] == list[k];
    }
    ReplacedIs(with, x, p);
  }

  lemma {:induction false} SamePlace(list: seq<Decl>, d: Decl, x: Decl)
    requires Fresh(list, d, x) && !DeclarationReplaces(d, x) && !DeclarationReplaces(x, d)
    requires Replaced(list, d) == Replaced(list, x) < |list|
    ensures Put(Put(list, d), x) != Put(Put(list, x), d)
  {
    var i, n := Replaced(list, d), |list|;
    assert d.kind.Function? && x.kind.Function?;
    ReplacedIs(list[i := d], x, n);
    ReplacedIs(list[i := x], d, n);
    assert Put(list[i := d], x)[i] == d && Put(list[i := x], d)[i] == x;
  }

  lemma {:induction false} OtherPlace(list: seq<Decl>, d: Decl, x: Decl)
    requires !DeclarationReplaces(d, x) && !DeclarationReplaces(x, d)
    requires Replaced(list, d) < |list| && Replaced(list, x) < |list| && Replaced(list, d) != Replaced(list, x)
    ensures Put(Put(list, d), x) == Put(Put(list, x), d)
  {
    var i, j := Replaced(list, d), Replaced(list, x);
    ReplacedIs(list[i := d], x, j);
    ReplacedIs(list[j := x], d, i);
    assert list[i := d][j := x] == list[j := x][i := d];
  }

  lemma {:induction false} PlaceAndAdd(list: seq<Decl>, d: Decl, x: Decl)
    requires Fresh(list, d, x) && !DeclarationReplaces(d, x) && !DeclarationReplaces(x, d)
    requires Replaced(list, d) < |list| == Replaced(list, x)
    ensures Put(Put(list, d), x) == Put(Put(list, x), d)
  {
    var i, n := Replaced(list, d), |list|;
    ReplacedIs(list[i := d], x, n);
    var with := AddSubsequent(list, x);
    if MovesTag(x, list[n - 1]) {
      assert with == list[..n - 1] + [x, list[n - 1]];
      var k := if i < n - 1 then i else n;
      ReplacedIs(with, d, k);
      assert with[k := d] == AddSubsequent(list[i := d], x);
    } else {
      ReplacedIs(with, d, i);
      assert with[i := d] == list[i := d] + [x];
    }
  }

  lemma {:induction false} AddBoth(list: seq<Decl>, d: Decl, x: Decl)
    requires Fresh(list, d, x) && !DeclarationReplaces(d, x) && !DeclarationReplaces(x, d)
    requires Replaced(list, d) == Replaced(list, x) == |list|
    ensures Put(Put(list, d), x) == Put(Put(list, x), d) <==>
              (list == [] || !list[|list| - 1].kind.Tag?) && (MovesTag(d, x) || MovesTag(x, d))
  {
    AddedNext(list, d, x);
    AddedNext(list, x, d);
    hide Put, Replaced, DeclarationReplaces;
    var n := |list|;
    if n > 0 && list[n - 1].kind.Tag? {
      assert list == list[..n - 1] + [list[n - 1]];
      BeforeTag(list[..n - 1], list[n - 1], d, x);
    } else {
      assert (list + [x, d])[n] == x && (list + [d, x])[n] == d;
    }
  }

  /** With a tag at the end, the order of two more declarations shows. */
  lemma BeforeTag(init: seq<Decl>, tag: Decl, d: Decl, x: Decl)
    requires d != x && d != tag && x != tag
    ensures init + [d, x, tag] != init + [x, d, tag] && init + [d, x, tag] != init + [x, tag, d]
    ensures init + [d, tag, x] != init + [x, d, tag] && init + [d, tag, x] != init + [x, tag, d]
    ensures init + [tag] + [d, x] != init + [tag] + [x, d] && init + [tag] + [x, d] != init + [d, tag, x]
    ensures init + [tag] + [d, x] != init + [x, tag, d] && init + [tag] + [d, x] != init + [x, d, tag]
    ensures init + [tag] + [x, d] != init + [d, x, tag]
    ensures init + [tag] + [d, x] != init + [d, tag, x] && init + [tag] + [x, d] != init + [x, tag, d]
  {
    var n := |init|;
    assert (init + [d, x, tag])[n] == (init + [d, tag, x])[n] == d;
    assert (init + [x, d, tag])[n] == (init + [x, tag, d])[n] == x;
    assert (init + [tag] + [d, x])[n] == (init + [tag] + [x, d])[n] == tag;
    assert (init + [tag] + [d, x])[n + 1] == d && (init + [tag] + [x, d])[n + 1] == x;
  }

  /** Where x goes when it is entered right after d and replaces nothing. */
  lemma {:induction false} AddedNext(list: seq<Decl>, d: Decl, x: Decl)
    requires Fresh(list, d, x) && !DeclarationReplaces(x, d)
    requires Replaced(list, d) == Replaced(list, x) == |list|
    ensures var n := |list|;
            Put(Put(list, d), x) ==
              if n > 0 && MovesTag(d, list[n - 1]) then
                if MovesTag(x, list[n - 1]) then list[..n - 1] + [d, x, list[n - 1]] else list[..n - 1] + [d, list[n - 1], x]
              else if MovesTag(x, d) then list + [x, d] else list + [d, x]
  {
    var n, with := |list|, Put(list, d);
    if n > 0 { assert list == list[..n - 1] + [list[n - 1]]; }
    assert |with| == n + 1;
    forall k | 0 <= k < |with| ensures !DeclarationReplaces(x, with[k]) {
      assert with[k] == d || with[k] in list;
    }
    ReplacedIs(with, x, n + 1);
  }

  /** The entries of linked declarations are linked. */
  lemma {:induction false} PutAllLinked(ds: seq<Decl>, d: Decl, x: Decl)
    requires Linked(ds + [d, x])
    ensures Linked(PutAll([], ds) + [d, x])
  {
    PutAllFrom(ds, d, x);
    var list, all := PutAll([], ds), ds + [d, x];
    var linked := list + [d, x];
    forall i | 0 <= i < |linked| ensures linked[i] in all { assert i < |list| ==> linked[i] in ds; }
    forall i, j | 0 <= i < j < |linked| ensures linked[i].id != linked[j].id {
      assert all[|ds|] == d && all[|ds| + 1] == x;
      if i < |list| && j >= |list| { NotAmong(ds, d, x, linked[i]); }
    }
    forall i, j | 0 <= i < |linked| && 0 <= j < |linked| && linked[i].kind == Function(Some(linked[j].id))
      ensures linked[j].kind.Function?
    {
      var k :| 0 <= k < |all| && all[k] == linked[i];
      var l :| 0 <= l < |all| && all[l] == linked[j];
    }
  }

  lemma NotAmong(ds: seq<Decl>, d: Decl, x: Decl, e: Decl)
    requires Linked(ds + [d, x]) && e in ds
    ensures e.id != d.id && e.id != x.id && d.id != x.id
  {
    var i :| 0 <= i < |ds| && ds[i] == e;
    var all, n := ds + [d, x], |ds|;
    assert all[i] == e && all[n] == d && all[n + 1] == x;
  }

  lemma {:induction false} PutAllFrom(ds: seq<Decl>, d: Decl, x: Decl)
    requires Linked(ds + [d, x])
    ensures forall e <- PutAll([], ds) :: e in ds
    ensures forall i, j :: 0 <= i < j < |PutAll([], ds)| ==> PutAll([], ds)[i].id != PutAll([], ds)[j].id
    decreases |ds|
  {
    var all := ds + [d, x];
    assert all[|ds|] == d && all[|ds| + 1] == x && d.id != x.id;
    if ds != [] {
      var n := |ds| - 1;
      var before := ds[..n] + [d, x];
      forall k | 0 <= k < |before| ensures before[k] == all[if k < n then k else k + 1] {}
      PutAllFrom(ds[..n], d, x);
      var list := PutAll([], ds[..n]);
      forall e | e in list ensures e.id != ds[n].id {
        var k :| 0 <= k < n && ds[..n][k] == e;
        assert all[k] == e && all[n] == ds[n];
      }
      PutDistinct(list, ds[n]);
      forall e | e in Put(list, ds[n]) ensures e in ds {
        PutHolds(list, ds[n], e);
      }
    }
  }

  lemma PutDistinct(list: seq<Decl>, d: Decl)
    requires forall i, j :: 0 <= i < j < |list| ==> list[i].id != list[j].id
    requires forall e <- list :: e.id != d.id
    ensures forall i, j :: 0 <= i < j < |Put(list, d)| ==> Put(list, d)[i].id != Put(list, d)[j].id
  {
  }

  // ------------------------------------------------------------- which declarations a table lists

  /** Declarations of one name and one of these kinds are one declaration. */
  predicate Single(k: Kind) {
    !k.Function? && !k.ObjCMethod?
  }

  predicate OneOfEach(list: seq<Decl>) {
    forall k, l :: 0 <= k < l < |list| && list[k].kind == list[l].kind ==> !Single(list[k].kind)
  }

  lemma PutOneOfEach(list: seq<Decl>, d: Decl)
    requires OneOfEach(list)
    ensures OneOfEach(Put(list, d))
  {
    var i, n, put := Replaced(list, d), |list|, Put(list, d);
    if 0 < n == i {
      assert put == list + [d] || put == list[..n - 1] + [d, list[n - 1]];
    }
  }

  /** No list has two tags of one kind, two variables, or two directives for one namespace. */
  lemma {:induction false} OneEntryOfEach(ds: seq<Decl>, name: nat)
    ensures OneOfEach(Entries(Fill(None, ds), name))
    decreases |ds|
  {
    if ds != [] {
      var n := |ds| - 1;
      OneEntryOfEach(ds[..n], name);
      PutOneOfEach(Entries(Fill(None, ds[..n]), name), ds[n]);
    }
  }

  /** A declaration of the kind and name of e, or a function of which e is the previous declaration. */
  predicate Redeclares(d: Decl, e: Decl) {
    d.name == e.name && if Single(e.kind) then d.kind == e.kind else d.kind == Function(Some(e.id))
  }

  /** ds[i] is not declared again later. */
  ghost predicate Latest(ds: seq<Decl>, i: nat)
    requires i < |ds|
  {
    forall j :: i < j < |ds| ==> !Redeclares(ds[j], ds[i])
  }

  predicate NoDuplicates(list: seq<Decl>) {
    forall k, l :: 0 <= k < l < |list| ==> list[k].id != list[l].id
  }

  lemma PutNoDuplicates(list: seq<Decl>, d: Decl)
    requires NoDuplicates(list) && forall k :: 0 <= k < |list| ==> list[k].id != d.id
    ensures NoDuplicates(Put(list, d))
  {
    var i, n, put := Replaced(list, d), |list|, Put(list, d);
    if 0 < n == i {
      assert put == list + [d] || put == list[..n - 1] + [d, list[n - 1]];
    }
  }

  /** No declaration is listed twice. */
  lemma {:induction false} ListedOnce(ds: seq<Decl>, name: nat)
    requires Linked(ds)
    ensures NoDuplicates(Entries(Fill(None, ds), name))
    decreases |ds|
  {
    if ds != [] {
      var n := |ds| - 1;
      var list := Entries(Fill(None, ds[..n]), name);
      ListedOnce(ds[..n], name);
      forall k | 0 <= k < |list| ensures list[k].id != ds[n].id {
        EntriesAreDeclared(ds[..n], name, list[k]);
      }
      PutNoDuplicates(list, ds[n]);
    }
  }

  /** A redeclaration takes the place of what it redeclares. */
  lemma PutDrops(list: seq<Decl>, d: Decl, e: Decl)
    requires OneOfEach(list) && NoDuplicates(list) && Redeclares(d, e) && d.id != e.id
    ensures e !in Put(list, d)
  {
    if e in list {
      var k :| 0 <= k < |list| && list[k] == e;
      assert DeclarationReplaces(d, e);
      assert Replaced(list, d) == k;
    } else {
      PutHolds(list, d, e);
    }
  }

  /** Exactly the declarations that were not declared again are listed. */
  lemma {:induction false} ListedIff(ds: seq<Decl>, name: nat, i: nat)
    requires Linked(ds) && i < |ds| && ds[i].name == Some(name)
    requires !ds[i].kind.NotNamed? && !ds[i].kind.ClassTemplateSpecialization?
    ensures ds[i] in Entries(Fill(None, ds), name) <==> Latest(ds, i)
  {
    if j :| i < j < |ds| && Redeclares(ds[j], ds[i]) {
      Dropped(ds, name, i, j);
    } else {
      DeclaredAreEntries(ds, name, i);
      assert forall j :: i < j < |ds| && Supersedes(ds[j], ds[i]) ==> Redeclares(ds[j], ds[i]);
    }
  }

  lemma {:induction false} Dropped(ds: seq<Decl>, name: nat, i: nat, j: nat)
    requires Linked(ds) && i < j < |ds| && Entered(ds[i]) && ds[i].name == Some(name) && Redeclares(ds[j], ds[i])
    ensures ds[i] !in Entries(Fill(None, ds), name)
    decreases |ds|
  {
    var n := |ds| - 1;
    var list := Entries(Fill(None, ds[..n]), name);
    if j == n {
      OneEntryOfEach(ds[..n], name);
      ListedOnce(ds[..n], name);
      PutDrops(list, ds[n], ds[i]);
    } else {
      Dropped(ds[..n], name, i, j);
      PutHolds(list, ds[n], ds[i]);
    }
  }

  /** A name that is a tag and something else: the tag comes last. */
  lemma {:induction false} TagIsLast(ds: seq<Decl>, name: nat, kind: nat, k: nat)
    requires Linked(ds)
    requires forall d <- ds :: Entered(d) && d.name == Some(name) ==>
               !d.kind.UsingDirective? && (d.kind.Tag? ==> d.kind.kind == kind)
    requires k < |Entries(Fill(None, ds), name)| && Entries(Fill(None, ds), name)[k].kind.Tag?
    ensures k == |Entries(Fill(None, ds), name)| - 1
    decreases |ds|
  {
    var n := |ds| - 1;
    var list, d := Entries(Fill(None, ds[..n]), name), ds[n];
    if Entered(d) && d.name == Some(name) {
      forall m | 0 <= m < |list| && list[m].kind.Tag? ensures m == |list| - 1 && list[m].kind == Tag(kind) {
        TagIsLast(ds[..n], name, kind, m);
        EntriesAreDeclared(ds[..n], name, list[m]);
      }
      forall m | 0 <= m < |list| && DeclarationReplaces(d, list[m]) ensures list[m].kind.Tag? == d.kind.Tag? {
        EntriesAreDeclared(ds[..n], name, list[m]);
        if d.kind.Function? { assert d.kind == Function(Some(list[m].id)); }
      }
      PutTagLast(list, d, k);
    } else {
      TagIsLast(ds[..n], name, kind, k);
    }
  }

  lemma PutTagLast(list: seq<Decl>, d: Decl, k: nat)
    requires forall m :: 0 <= m < |list| && list[m].kind.Tag? ==> m == |list| - 1 && (d.kind.Tag? ==> list[m].kind == d.kind)
    requires forall m :: 0 <= m < |list| && DeclarationReplaces(d, list[m]) ==> list[m].kind.Tag? == d.kind.Tag?
    requires !d.kind.UsingDirective? && k < |Put(list, d)| && Put(list, d)[k].kind.Tag?
    ensures k == |Put(list, d)| - 1
  {
    var i, n := Replaced(list, d), |list|;
    if n > 0 && d.kind.Tag? && list[n - 1].kind.Tag? { assert DeclarationReplaces(d, list[n - 1]); }
  }
}
