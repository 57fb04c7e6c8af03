/**
  Delta debugging: the search for a small list of changes that still passes a test, with a
  cache of the sets that failed.

  The test is a deterministic function of the list it is given.  `log` records the sets
  the test was called on; `whole` stands for the list the search started from.
 */
module DeltaDebugging {
  import opened Options
  import opened DeltaSets

  type Test = Changes -> bool

  /** What the cache says of sublists of `whole` is what the test says. */
  ghost predicate Sound(cache: set<set<Change>>, test: Test, whole: Changes) {
    forall k <- cache :: k <= SetOf(whole) ==> !test(Restrict(whole, k))
  }

  /** Removing any one change makes the test fail. */
  ghost predicate OneMinimal(test: Test, c: Changes) {
    forall k :: 0 <= k < |c| ==> !test(Without(c, k))
  }

  type Log = seq<set<Change>>

  /** The tests since `before` were on sets not cached, and no two on the same set. */
  ghost predicate NoRepeats(before: Log, after: Log, cache: set<set<Change>>) {
    && before <= after
    && (forall i :: |before| <= i < |after| ==> after[i] !in cache)
    && (forall i, j :: |before| <= i < j < |after| ==> after[i] != after[j])
  }

  /** Moreover each was on a proper subset of `big`. */
  ghost predicate Within(before: Log, after: Log, cache: set<set<Change>>, big: set<Change>) {
    && NoRepeats(before, after, cache)
    && forall i :: |before| <= i < |after| ==> after[i] < big
  }

  /** All of them failed, but for the one on `passed`. */
  ghost predicate Settled(before: Log, after: Log, cache: set<set<Change>>, passed: set<Change>) {
    && before <= after
    && forall i :: |before| <= i < |after| ==> after[i] in cache || after[i] == passed
  }

  /**
    The tests of a run: none is repeated, but for that of the empty set in a run on no changes
    that is not forced; and there are no more than the square of the changes asks for.
   */
  ghost predicate Economical(before: Log, after: Log, cache: set<set<Change>>, changes: Changes, force: bool, passes: bool) {
    && (NoRepeats(before, after, cache) <==> changes != [] || force || !passes)
    && (changes != [] ==> |after| - |before| <= 4 * |changes| * |changes| - 4 * |changes| + 2)
    && (changes == [] ==> after == before + Repeat({}, EmptyTests({} in cache, force, passes)))
  }

  lemma Followed(a: Log, b: Log, c: Log, cache: set<set<Change>>, later: set<set<Change>>,
                 big: set<Change>, small: set<Change>)
    requires Within(a, b, cache, big) && cache <= later && Settled(a, b, later, small)
    requires Within(b, c, later, small) && small <= big
    ensures Within(a, c, cache, big)
  {
    forall i, j | |a| <= i < j < |c| ensures c[i] != c[j] {
      if i < |b| {
        assert c[i] == b[i];
        if j < |b| { assert c[j] == b[j]; }
      }
    }
    forall i | |a| <= i < |c| ensures c[i] !in cache && c[i] < big {
      if i < |b| { assert c[i] == b[i]; }
    }
  }

  /** What the search may still cost: it shrinks with every step, as the measure does. */
  function Budget(c: Changes, sets: seq<Changes>): int {
    if |sets| <= 1 then 0 else 2 * |c| * Measure(c, sets)
  }

  function Measure(c: Changes, sets: seq<Changes>): int {
    2 * |c| - |sets|
  }

  lemma BudgetShrinks(c: Changes, sets: seq<Changes>, d: Changes, parts: seq<Changes>)
    requires |sets| >= 2 && |d| <= |c| && |sets| <= |c|
    requires Measure(d, parts) < Measure(c, sets) && |parts| <= |d|
    ensures 2 * |sets| + Budget(d, parts) <= Budget(c, sets)
    ensures Budget(c, sets) >= 2 * |sets|
  {
    var n, m := 2 * |c|, Measure(c, sets);
    assert n * m == n * (m - 1) + n;
    assert n * (m - 1) >= 0;
    if |parts| > 1 {
      var k := Measure(d, parts);
      Products(2 * |d|, n, k, m - 1);
    }
  }

  lemma Products(a: int, b: int, c: int, d: int)
    requires 0 <= a <= b && 0 <= c <= d
    ensures a * c <= b * d
  {
    assert b * d == a * c + a * (d - c) + (b - a) * d;
  }

  /** A piece that passes, and the rest of the pieces, are smaller problems. */
  lemma PieceIsSmaller(c: Changes, sets: seq<Changes>, i: nat, whole: Changes)
    requires Distinct(whole) && Sublist(c, whole) && Pieces(c, sets) && |sets| >= 2 && i < |sets|
    ensures |sets| <= |c|
    ensures Sublist(sets[i], whole) && SetOf(sets[i]) < SetOf(c)
    ensures Pieces(sets[i], Split(sets[i]))
    ensures |sets[i]| <= |c| && |Split(sets[i])| <= |sets[i]|
    ensures Measure(sets[i], Split(sets[i])) < Measure(c, sets)
  {
    hide Restrict, Concat, Split;
    var rest := sets[..i] + sets[i + 1..];
    PieceAt(sets, i);
    CutIsSublist(Concat(sets[..i]), sets[i], Concat(sets[i + 1..]), whole);
    assert forall p <- rest :: p in sets;
    ConcatLength(rest);
    ConcatLength(sets);
    assert sets[i] in sets;
    assert |c| == |sets[i]| + |Concat(rest)|;
  }

  lemma ComplementIsSmaller(c: Changes, sets: seq<Changes>, i: nat, whole: Changes)
    requires Distinct(whole) && Sublist(c, whole) && Pieces(c, sets) && |sets| > 2 && i < |sets|
    ensures |sets| <= |c|
    ensures var rest := sets[..i] + sets[i + 1..];
            && Sublist(Concat(rest), whole) && SetOf(Concat(rest)) < SetOf(c)
            && Pieces(Concat(rest), rest)
            && |Concat(rest)| <= |c| && |rest| <= |Concat(rest)|
            && Measure(Concat(rest), rest) < Measure(c, sets)
  {
    hide Restrict, Concat;
    var rest := sets[..i] + sets[i + 1..];
    PieceAt(sets, i);
    CutIsSublist(Concat(sets[..i]), sets[i], Concat(sets[i + 1..]), whole);
    assert forall p <- rest :: p in sets;
    ConcatLength(rest);
    ConcatLength(sets);
    assert sets[i] in sets;
    assert |c| == |sets[i]| + |Concat(rest)|;
  }

  /** Neither piece `i` nor the rest without it passes. */
  ghost predicate FailsAt(test: Test, sets: seq<Changes>, i: nat)
    requires i < |sets|
  {
    && !test(sets[i])
    && (|sets| > 2 ==> !test(Concat(sets[..i] + sets[i + 1..])))
  }

  /** When single changes and their complements all fail there is nothing left to remove. */
  lemma NothingLeft(test: Test, c: Changes, sets: seq<Changes>)
    requires Pieces(c, sets) && !test([])
    requires |sets| <= 1 || forall i :: 0 <= i < |sets| ==> FailsAt(test, sets, i)
    requires |sets| <= 1 || forall p <- sets :: |p| == 1
    ensures OneMinimal(test, c)
  {
    forall k | 0 <= k < |c| ensures !test(Without(c, k)) {
      if |sets| <= 1 {
        assert Without(c, k) == [];
      } else {
        Singles(sets, k);
        assert FailsAt(test, sets, k);
        if |sets| == 2 {
          var other := sets[1 - k];
          assert FailsAt(test, sets, 1 - k);
          assert sets[..k] + sets[k + 1..] == [other];
          ConcatOne(other);
        }
      }
    }
  }

  datatype Outcome = InitialTestFails | Reduced(changes: Changes)

  class DeltaAlgorithm {
    const test: Test
    var cache: set<set<Change>>
    ghost var log: Log

    constructor (test: Test)
      ensures this.test == test && cache == {} && log == []
      ensures forall whole :: Sound(cache, test, whole)
    {
      this.test := test;
      cache := {};
      log := [];
    }

    method GetTestResult(changes: Changes, ghost whole: Changes) returns (r: bool)
      requires Sublist(changes, whole) && Sound(cache, test, whole)
      modifies this
      ensures Sound(cache, test, whole) && old(cache) <= cache
      ensures r == test(changes)
      ensures !r ==> SetOf(changes) in cache
      ensures log == old(log) + if SetOf(changes) in old(cache) then [] else [SetOf(changes)]
    {
      var changeset := SetOf(changes);
      if changeset in cache {
        return false;
      }
      log := log + [changeset];
      if !test(changes) {
        cache := cache + {changeset};
        return false;
      }
      return true;
    }

    method Run(changes: Changes, force: bool) returns (r: Outcome)
      requires Distinct(changes) && Sound(cache, test, changes)
      modifies this
      ensures Sound(cache, test, changes)
      ensures r.InitialTestFails? <==> !force && !test(changes)
      ensures r.Reduced? ==> Sublist(r.changes, changes) && OneMinimal(test, r.changes)
      ensures r.Reduced? ==> test(r.changes) || (force && r.changes == changes)
      ensures Economical(old(log), log, old(cache), changes, force, test([]))
    {
      hide Sound, Restrict, Sublist, Split, Within, Budget, OneMinimal, Initial, Economical, SetOf, Distinct;
      WholeAndEmpty(changes);
      ghost var start, cached, all := log, cache, SetOf(changes);
      if !force {
        var passes := GetTestResult(changes, changes);
        if !passes {
          FailedAtOnce(start, log, cached, changes, test([]));
          return InitialTestFails;
        }
      }
      ghost var first, known := log, cache;
      var emptyPasses := GetTestResult([], changes);
      PassesUncached(cached, test, changes);
      InitialTests(start, first, log, cached, known, changes, force, test([]));
      if emptyPasses {
        NothingToRemove(test);
        return Reduced([]);
      }
      ghost var middle, later := log, cache;
      var c := Delta(changes, Split(changes), changes);
      Searched(start, middle, log, cached, later, changes, force);
      return Reduced(c);
    }

    method Delta(c: Changes, sets: seq<Changes>, ghost whole: Changes) returns (r: Changes)
      requires Distinct(whole) && Sublist(c, whole) && Pieces(c, sets)
      requires Sound(cache, test, whole) && !test([])
      modifies this
      ensures Sound(cache, test, whole) && old(cache) <= cache
      ensures Sublist(r, whole) && OneMinimal(test, r) && (r == c || test(r))
      ensures Within(old(log), log, old(cache), SetOf(c))
      ensures |log| - |old(log)| <= Budget(c, sets)
      decreases Measure(c, sets), 1
    {
      hide Sound, Restrict, SplitAll, Settled, Within, Budget, Concat;
      if |sets| <= 1 {
        NothingLeft(test, c, sets);
        NoTests(log, cache, SetOf(c));
        BudgetFacts(c, sets);
        return c;
      }
      PieceIsSmaller(c, sets, 0, whole);
      ghost var start, cached := log, cache;
      var found := Search(c, sets, whole);
      if found.Some? {
        return found.value;
      }
      var refined := SplitAll(sets);
      Refined(sets);
      BudgetFacts(c, sets);
      if |refined| == |sets| {
        NothingLeft(test, c, sets);
        return c;
      }
      ghost var middle, known := log, cache;
      ConcatLength(refined);
      r := Delta(c, refined, whole);
      Followed(start, middle, log, cached, known, SetOf(c), SetOf(c));
      BudgetShrinks(c, sets, c, refined);
    }

    method Search(c: Changes, sets: seq<Changes>, ghost whole: Changes) returns (r: Option<Changes>)
      requires Distinct(whole) && Sublist(c, whole) && Pieces(c, sets) && |sets| >= 2
      requires Sound(cache, test, whole) && !test([])
      modifies this
      ensures Sound(cache, test, whole) && old(cache) <= cache
      ensures Within(old(log), log, old(cache), SetOf(c))
      ensures r.Some? ==> Sublist(r.value, whole) && OneMinimal(test, r.value) && test(r.value)
      ensures r.Some? ==> |log| - |old(log)| <= Budget(c, sets)
      ensures r.None? ==> forall i :: 0 <= i < |sets| ==> FailsAt(test, sets, i)
      ensures r.None? ==> |log| - |old(log)| <= 2 * |sets|
      ensures r.None? ==> Settled(old(log), log, cache, SetOf(c))
      decreases Measure(c, sets), 0
    {
      hide Sound, Restrict, Settled, Within, Budget, Concat, Split, OneMinimal, Pieces;
      ghost var start, cached := log, cache;
      NoTests(log, cache, SetOf(c));
      var i := 0;
      while i < |sets|
        invariant 0 <= i <= |sets|
        invariant Sound(cache, test, whole) && cached <= cache
        invariant Within(start, log, cached, SetOf(c)) && Settled(start, log, cache, SetOf(c))
        invariant forall j :: 0 <= j < i ==> FailsAt(test, sets, j)
        invariant |log| - |start| <= 2 * i
      {
        var piece := sets[i];
        PieceIsSmaller(c, sets, i, whole);
        ghost var l0, k0 := log, cache;
        var passes := GetTestResult(piece, whole);
        OneTest(start, l0, log, cached, k0, cache, SetOf(c), SetOf(piece), passes);
        if passes {
          ghost var l1, k1 := log, cache;
          var d := Delta(piece, Split(piece), whole);
          Followed(start, l1, log, cached, k1, SetOf(c), SetOf(piece));
          BudgetShrinks(c, sets, piece, Split(piece));
          return Some(d);
        }
        if |sets| > 2 {
          var rest := sets[..i] + sets[i + 1..];
          var complement := Concat(rest);
          ComplementIsSmaller(c, sets, i, whole);
          ghost var l2, k2 := log, cache;
          passes := GetTestResult(complement, whole);
          OneTest(start, l2, log, cached, k2, cache, SetOf(c), SetOf(complement), passes);
          if passes {
            ghost var l3, k3 := log, cache;
            var d := Delta(complement, rest, whole);
            Followed(start, l3, log, cached, k3, SetOf(c), SetOf(complement));
            BudgetShrinks(c, sets, complement, rest);
            return Some(d);
          }
        }
        i := i + 1;
      }
      return None;
    }
  }

  // ------------------------------------------------------------------- steps of the methods

  lemma WholeAndEmpty(changes: Changes)
    ensures Sublist(changes, changes) && Sublist([], changes)
    ensures Pieces(changes, Split(changes)) && SetOf([]) == {}
  {
    RestrictAll(changes, SetOf(changes));
    assert SetOf([]) == {};
    RestrictAll(changes, SetOf([]));
  }

  /** How often a run on no changes at all calls the test; a result is remembered only if it fails. */
  function EmptyTests(known: bool, force: bool, passes: bool): nat {
    if known then 0 else if passes && !force then 2 else 1
  }

  function Repeat(s: set<Change>, n: nat): Log {
    seq(n, i => s)
  }

  /** The tests of a run that is refused. */
  lemma FailedAtOnce(start: Log, log: Log, cached: set<set<Change>>, changes: Changes, passes: bool)
    requires log == start + if SetOf(changes) in cached then [] else [SetOf(changes)]
    requires changes == [] ==> !passes
    ensures Economical(start, log, cached, changes, false, passes)
  {
    hide SetOf;
    if changes == [] { EmptySet(); } else { RunBudget(changes); }
  }

  lemma EmptySet()
    ensures SetOf([]) == {}
  {
  }

  /** The tests of a run before the search. */
  lemma InitialTests(start: Log, first: Log, middle: Log, cached: set<set<Change>>, known: set<set<Change>>,
                     changes: Changes, force: bool, passes: bool)
    requires first == start + if force || SetOf(changes) in cached then [] else [SetOf(changes)]
    requires middle == first + if {} in known then [] else [{}]
    requires cached <= known && (force ==> cached == known)
    requires passes ==> {} !in cached && {} !in known
    requires changes == [] && !passes ==> force
    ensures Initial(start, middle, cached, SetOf(changes))
    ensures passes ==> Economical(start, middle, cached, changes, force, true)
    ensures changes == [] ==> Economical(start, middle, cached, changes, force, passes)
  {
    var whole := SetOf(changes);
    var a: Log := if first == start then [] else [whole];
    var b: Log := if middle == first then [] else [{}];
    assert middle == start + a + b;
    if changes == [] {
      EmptySet();
      var n := |start|;
      if |middle| == n + 2 { assert middle[n] == middle[n + 1] == {}; }
    } else {
      SetOfSome(changes);
      hide SetOf;
      InitialRepeatsNothing(start, middle, cached, whole);
      RunBudget(changes);
    }
  }

  /** The tests of a run with a search. */
  lemma Searched(start: Log, middle: Log, after: Log, cached: set<set<Change>>, known: set<set<Change>>,
                 changes: Changes, force: bool)
    requires Initial(start, middle, cached, SetOf(changes)) && Within(middle, after, known, SetOf(changes))
    requires cached <= known && {} in known && |after| - |middle| <= Budget(changes, Split(changes))
    requires |middle| - |start| <= 2
    requires changes == [] ==> Economical(start, middle, cached, changes, force, false)
    ensures Economical(start, after, cached, changes, force, false)
  {
    if changes == [] {
      EmptySet();
      assert after == middle;
    } else {
      SetOfSome(changes);
      hide SetOf, Within, Initial;
      RunRepeatsNothing(start, middle, after, cached, known, SetOf(changes));
      RunBudget(changes);
    }
  }

  lemma NothingToRemove(test: Test)
    ensures OneMinimal(test, [])
  {
  }

  /** A set that passes is not cached. */
  lemma PassesUncached(cache: set<set<Change>>, test: Test, whole: Changes)
    requires Sound(cache, test, whole)
    ensures test([]) ==> {} !in cache
  {
    RestrictAll(whole, {});
  }

  lemma NoTests(log: Log, cache: set<set<Change>>, big: set<Change>)
    ensures Within(log, log, cache, big) && Settled(log, log, cache, big)
  {
  }

  lemma BudgetFacts(c: Changes, sets: seq<Changes>)
    ensures |sets| <= 1 ==> Budget(c, sets) == 0
    ensures 2 <= |sets| <= |c| ==> Budget(c, sets) >= 2 * |sets|
  {
    if 2 <= |sets| <= |c| { Products(1, Measure(c, sets), 2 * |c|, 2 * |c|); }
  }

  /** One more test, cached if it failed. */
  lemma OneTest(start: Log, before: Log, after: Log, cached: set<set<Change>>, known: set<set<Change>>,
                now: set<set<Change>>, big: set<Change>, tested: set<Change>, passes: bool)
    requires Within(start, before, cached, big) && Settled(start, before, known, big)
    requires cached <= known <= now && tested < big
    requires after == before + if tested in known then [] else [tested]
    requires !passes ==> tested in now
    ensures Within(start, after, cached, big)
    ensures Settled(start, after, now, if passes then tested else big)
  {
    forall i | |start| <= i < |before| ensures before[i] in known { assert before[i] < big; }
    forall i | |start| <= i < |after| ensures after[i] !in cached && after[i] < big {
      if i < |before| { assert after[i] == before[i]; }
    }
    forall i, j | |start| <= i < j < |after| ensures after[i] != after[j] {
      assert after[i] == before[i];
      if j < |before| { assert after[j] == before[j]; }
    }
  }

  /** The tests on the whole list and on the empty one, as far as they were made. */
  ghost predicate Initial(start: Log, middle: Log, cached: set<set<Change>>, whole: set<Change>) {
    exists a, b {:trigger start + a + b} ::
      && (a == [] || (a == [whole] && whole !in cached))
      && (b == [] || (b == [{}] && {} !in cached))
      && middle == start + a + b
  }

  lemma InitialRepeatsNothing(start: Log, middle: Log, cached: set<set<Change>>, whole: set<Change>)
    requires Initial(start, middle, cached, whole) && whole != {}
    ensures NoRepeats(start, middle, cached)
    ensures forall i :: |start| <= i < |middle| ==> middle[i] == whole || middle[i] == {}
  {
    var a, b :| (a == [] || (a == [whole] && whole !in cached)) && (b == [] || (b == [{}] && {} !in cached)) &&
                middle == start + a + b;
    assert forall i :: |start| <= i < |middle| ==> middle[i] == (a + b)[i - |start|];
  }

  lemma RunRepeatsNothing(start: Log, middle: Log, after: Log, cached: set<set<Change>>,
                          known: set<set<Change>>, whole: set<Change>)
    requires cached <= known && {} in known && whole != {}
    requires Initial(start, middle, cached, whole) && Within(middle, after, known, whole)
    ensures NoRepeats(start, after, cached)
  {
    InitialRepeatsNothing(start, middle, cached, whole);
    forall i | |start| <= i < |after| ensures after[i] !in cached {
      if i < |middle| { assert after[i] == middle[i]; }
    }
    forall i, j | |start| <= i < j < |after| ensures after[i] != after[j] {
      if i < |middle| { assert after[i] == middle[i]; }
      if j < |middle| { assert after[j] == middle[j]; }
    }
  }

  lemma RunBudget(c: Changes)
    requires c != []
    ensures Budget(c, Split(c)) <= 4 * |c| * |c| - 4 * |c|
  {
    var n := |c|;
    if n >= 2 {
      assert 2 * n * (2 * n - 2) == 4 * n * n - 4 * n;
    }
  }
}
