/**
  The lists delta debugging works on: sublists of one list of distinct changes that keep
  its order, cut into consecutive pieces.
 */
module DeltaSets {

  type Change = nat

  type Changes = seq<Change>

  function SetOf(s: Changes): set<Change> {
    set x | x in s
  }

  ghost predicate Distinct(s: Changes) {
    forall i, j :: 0 <= i < j < |s| ==> s[i] != s[j]
  }

  /** The elements of `s` that are kept, in the order of `s`. */
  function Restrict(s: Changes, keep: set<Change>): Changes {
    if s == [] then []
    else (if s[0] in keep then [s[0]] else []) + Restrict(s[1..], keep)
  }

  /** `s` is what its set leaves of `whole`. */
  ghost predicate Sublist(s: Changes, whole: Changes) {
    SetOf(s) <= SetOf(whole) && s == Restrict(whole, SetOf(s))
  }

  function Without(s: Changes, i: nat): Changes
    requires i < |s|
  {
    s[..i] + s[i + 1..]
  }

  function Concat(sets: seq<Changes>): Changes {
    if sets == [] then [] else sets[0] + Concat(sets[1..])
  }

  /** One piece or two. */
  function Split(s: Changes): (r: seq<Changes>)
    ensures Concat(r) == s
    ensures |r| == if |s| < 2 then 1 else 2
    ensures forall p <- r :: s != [] ==> p != []
  {
    var mid := |s| / 2;
    if mid == 0 then
      assert Concat([s][1..]) == [];
      [s]
    else
      assert Concat([s[mid..]]) == s[mid..] by { assert [s[mid..]][1..] == []; }
      assert [s[..mid], s[mid..]][1..] == [s[mid..]];
      [s[..mid], s[mid..]]
  }

  function SplitAll(sets: seq<Changes>): seq<Changes> {
    if sets == [] then [] else Split(sets[0]) + SplitAll(sets[1..])
  }

  /** Consecutive nonempty pieces of `c`; one piece only of a list with nothing to cut. */
  ghost predicate Pieces(c: Changes, sets: seq<Changes>) {
    && Concat(sets) == c
    && |sets| >= 1
    && (|sets| == 1 ==> |c| <= 1)
    && (c == [] ==> |sets| == 1)
    && (c != [] ==> forall p <- sets :: p != [])
  }

  // ------------------------------------------------------------------------------ lemmas

  lemma SetOfPlus(a: Changes, b: Changes)
    ensures SetOf(a + b) == SetOf(a) + SetOf(b)
  {
    forall x | x in a ensures x in a + b { var i :| 0 <= i < |a| && a[i] == x; assert (a + b)[i] == x; }
    forall x | x in b ensures x in a + b { var i :| 0 <= i < |b| && b[i] == x; assert (a + b)[|a| + i] == x; }
  }

  lemma {:induction false} RestrictMembers(s: Changes, keep: set<Change>)
    ensures SetOf(Restrict(s, keep)) == SetOf(s) * keep
  {
    if s != [] {
      var rest := Restrict(s[1..], keep);
      RestrictMembers(s[1..], keep);
      SetOfPlus([s[0]], s[1..]);
      assert s == [s[0]] + s[1..];
      SetOfPlus([s[0]], rest);
      assert Restrict(s, keep) == if s[0] in keep then [s[0]] + rest else rest;
      assert SetOf([s[0]]) == {s[0]};
    }
  }

  lemma {:induction false} RestrictTwice(s: Changes, big: set<Change>, small: set<Change>)
    requires small <= big
    ensures Restrict(Restrict(s, big), small) == Restrict(s, small)
  {
    if s != [] {
      RestrictTwice(s[1..], big, small);
      var rest := Restrict(s[1..], big);
      if s[0] in big {
        assert Restrict(s, big) == [s[0]] + rest;
        assert ([s[0]] + rest)[1..] == rest;
      } else {
        assert Restrict(s, big) == rest;
      }
    }
  }

  lemma {:induction false} RestrictConcat(a: Changes, b: Changes, keep: set<Change>)
    ensures Restrict(a + b, keep) == Restrict(a, keep) + Restrict(b, keep)
  {
    if a == [] {
      assert a + b == b && Restrict(a, keep) == [];
      assert [] + Restrict(b, keep) == Restrict(b, keep);
    } else {
      assert (a + b)[1..] == a[1..] + b;
      var head := if a[0] in keep then [a[0]] else [];
      assert Restrict(a + b, keep) == head + Restrict(a[1..] + b, keep);
      assert Restrict(a, keep) == head + Restrict(a[1..], keep);
      hide Restrict;
      RestrictConcat(a[1..], b, keep);
      Associate(head, Restrict(a[1..], keep), Restrict(b, keep));
    }
  }

  lemma Associate(a: Changes, b: Changes, d: Changes)
    ensures a + (b + d) == (a + b) + d
  {
  }

  lemma {:induction false} RestrictAll(s: Changes, keep: set<Change>)
    ensures SetOf(s) <= keep ==> Restrict(s, keep) == s
    ensures SetOf(s) !! keep ==> Restrict(s, keep) == []
  {
    if s != [] {
      assert s[0] in SetOf(s) && SetOf(s[1..]) <= SetOf(s);
      RestrictAll(s[1..], keep);
    }
  }

  lemma {:induction false} RestrictDistinct(s: Changes, keep: set<Change>)
    requires Distinct(s)
    ensures Distinct(Restrict(s, keep))
  {
    if s != [] {
      RestrictDistinct(s[1..], keep);
      RestrictMembers(s[1..], keep);
      var rest := Restrict(s[1..], keep);
      forall x | x in rest ensures x != s[0] {
        assert x in SetOf(rest);
        var i :| 0 <= i < |s[1..]| && s[1..][i] == x;
        assert s[i + 1] == x;
      }
      var r := Restrict(s, keep);
      assert r == if s[0] in keep then [s[0]] + rest else rest;
      forall i, j | 0 <= i < j < |r| ensures r[i] != r[j] {
        if s[0] in keep {
          assert r[j] == rest[j - 1] && rest[j - 1] in rest;
          if i > 0 { assert r[i] == rest[i - 1]; }
        }
      }
    }
  }

  /** Sublists of one list are told apart by their sets. */
  lemma SublistIsItsSet(a: Changes, b: Changes, whole: Changes)
    requires Sublist(a, whole) && Sublist(b, whole) && SetOf(a) == SetOf(b)
    ensures a == b
  {
  }

  /** Cutting a middle piece out of a sublist leaves a sublist, and so is the piece. */
  lemma CutIsSublist(a: Changes, b: Changes, d: Changes, whole: Changes)
    requires Distinct(whole) && Sublist(a + b + d, whole)
    ensures Sublist(a + d, whole) && Sublist(b, whole)
    ensures b != [] ==> SetOf(a + d) < SetOf(a + b + d)
    ensures a + d != [] ==> SetOf(b) < SetOf(a + b + d)
  {
    hide Restrict, SetOf;
    RestrictDistinct(whole, SetOf(a + b + d));
    Apart(a, b, d);
    SetOfPlus(a + b, d);
    SetOfPlus(a, b);
    SetOfPlus(a, d);
    RestrictTwice(whole, SetOf(a + b + d), SetOf(a + d));
    RestrictTwice(whole, SetOf(a + b + d), SetOf(b));
    RestrictThree(a, b, d, SetOf(a + d));
    RestrictThree(a, b, d, SetOf(b));
    assert a + [] + d == a + d && [] + b + [] == b;
    SetOfSome(b);
    SetOfSome(a + d);
  }

  lemma SetOfSome(s: Changes)
    ensures s != [] ==> s[0] in SetOf(s)
  {
  }

  lemma {:induction false} RestrictThree(a: Changes, b: Changes, d: Changes, keep: set<Change>)
    ensures SetOf(a) <= keep && SetOf(b) !! keep && SetOf(d) <= keep ==>
              Restrict(a + b + d, keep) == a + [] + d
    ensures SetOf(a) !! keep && SetOf(b) <= keep && SetOf(d) !! keep ==>
              Restrict(a + b + d, keep) == [] + b + []
  {
    RestrictConcat(a + b, d, keep);
    RestrictConcat(a, b, keep);
    RestrictAll(a, keep);
    RestrictAll(b, keep);
    RestrictAll(d, keep);
  }

  lemma Apart(a: Changes, b: Changes, d: Changes)
    requires Distinct(a + b + d)
    ensures SetOf(a) !! SetOf(b) && SetOf(d) !! SetOf(b)
  {
    var c := a + b + d;
    forall x | x in SetOf(b) ensures x !in SetOf(a) && x !in SetOf(d) {
      var i :| 0 <= i < |b| && b[i] == x;
      assert c[|a| + i] == x;
      forall j | 0 <= j < |a| ensures a[j] != x { assert c[j] == a[j]; }
      forall j | 0 <= j < |d| ensures d[j] != x { assert c[|a| + |b| + j] == d[j]; }
    }
  }

  lemma ConcatOne(s: Changes)
    ensures Concat([s]) == s
  {
    var one: seq<Changes> := [s];
    assert one[1..] == [];
  }

  lemma {:induction false} ConcatSplit(sets: seq<Changes>, i: nat)
    requires i <= |sets|
    ensures Concat(sets) == Concat(sets[..i]) + Concat(sets[i..])
  {
    if i == 0 {
      assert sets[..0] == [] && sets[0..] == sets;
    } else {
      ConcatSplit(sets[1..], i - 1);
      assert sets[1..][..i - 1] == sets[..i][1..] && sets[1..][i - 1..] == sets[i..];
      assert sets[..i][0] == sets[0];
    }
  }

  /** The piece `i`, and the rest of the pieces, as parts of the list. */
  lemma {:induction false} PieceAt(sets: seq<Changes>, i: nat)
    requires i < |sets|
    ensures Concat(sets) == Concat(sets[..i]) + sets[i] + Concat(sets[i + 1..])
    ensures Concat(sets[..i] + sets[i + 1..]) == Concat(sets[..i]) + Concat(sets[i + 1..])
  {
    ConcatSplit(sets, i);
    assert sets[i..][0] == sets[i] && sets[i..][1..] == sets[i + 1..];
    var rest := sets[..i] + sets[i + 1..];
    ConcatSplit(rest, i);
    assert rest[..i] == sets[..i] && rest[i..] == sets[i + 1..];
  }

  lemma {:induction false} ConcatLength(sets: seq<Changes>)
    requires forall p <- sets :: p != []
    ensures |Concat(sets)| >= |sets|
    ensures |Concat(sets)| == |sets| ==> forall p <- sets :: |p| == 1
  {
    if sets != [] {
      assert sets[0] in sets && forall p <- sets[1..] :: p in sets;
      ConcatLength(sets[1..]);
      assert sets == [sets[0]] + sets[1..];
    }
  }

  lemma {:induction false} ConcatTwo(a: seq<Changes>, b: seq<Changes>)
    ensures Concat(a + b) == Concat(a) + Concat(b)
  {
    ConcatSplit(a + b, |a|);
    assert (a + b)[..|a|] == a && (a + b)[|a|..] == b;
  }

  /** Refining keeps the list; it stops cutting when every piece is a single change. */
  lemma {:induction false} Refined(sets: seq<Changes>)
    requires forall p <- sets :: p != []
    ensures Concat(SplitAll(sets)) == Concat(sets)
    ensures forall p <- SplitAll(sets) :: p != []
    ensures |SplitAll(sets)| >= |sets|
    ensures |SplitAll(sets)| == |sets| ==> forall p <- sets :: |p| == 1
  {
    if sets != [] {
      assert sets[0] in sets && forall p <- sets[1..] :: p in sets;
      Refined(sets[1..]);
      ConcatTwo(Split(sets[0]), SplitAll(sets[1..]));
      assert sets == [sets[0]] + sets[1..];
    }
  }

  /** The change at `k` is in the only piece that holds it, when every piece is one change. */
  lemma {:induction false} Singles(sets: seq<Changes>, k: nat)
    requires forall p <- sets :: |p| == 1
    requires k < |Concat(sets)|
    ensures |Concat(sets)| == |sets|
    ensures Without(Concat(sets), k) == Concat(sets[..k] + sets[k + 1..])
  {
    SinglesLength(sets);
    SinglesLength(sets[..k]);
    PieceAt(sets, k);
    assert sets[k] in sets;
  }

  lemma {:induction false} SinglesLength(sets: seq<Changes>)
    requires forall p <- sets :: |p| == 1
    ensures |Concat(sets)| == |sets|
  {
    if sets != [] {
      assert sets[0] in sets && forall p <- sets[1..] :: p in sets;
      SinglesLength(sets[1..]);
    }
  }
}
