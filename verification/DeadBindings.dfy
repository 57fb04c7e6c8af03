/**
  Sweeping dead bindings out of the simple store: everything reachable from live variables,
  ivars and the given regions, through stored addresses and enclosing regions, is kept.
 */
module DeadBindings {
  import opened Options
  import opened BasicStore

  /** The tracked region a region is part of, met before any symbolic one. */
  function Base(r: Region): Option<Region> {
    match r
    case Space(_) => None
    case Symbolic(_, _) => None
    case Var(_, _) => Some(r)
    case Ivar(_, _) => Some(r)
    case View(_, _, super) => Base(super)
    case Other(_, super) => Base(super)
  }

  /** The symbol of the symbolic region a region is part of, met before any tracked one. */
  function BaseSymbol(r: Region): set<Symbol> {
    match r
    case Symbolic(sym, _) => {sym}
    case View(_, _, super) => BaseSymbol(super)
    case Other(_, super) => BaseSymbol(super)
    case _ => {}
  }

  function Holds(store: Store, m: Region): SVal {
    Retrieve(store, Address(m))
  }

  /** The region a tracked region leads to: that of the address it holds. */
  function Next(store: Store, m: Region): Option<Region> {
    if Holds(store, m).Address? then Base(Holds(store, m).region) else None
  }

  function Follow(store: Store, m: Option<Region>, steps: nat): Option<Region> {
    if steps == 0 then m
    else
      var n := Follow(store, m, steps - 1);
      if n.Some? then Next(store, n.value) else None
  }

  ghost predicate Reachable(store: Store, roots: set<Region>, m: Region) {
    exists r, steps: nat :: r in roots && Follow(store, Base(r), steps) == Some(m)
  }

  /** The bindings a sweep starts from: those of live variables, and all of ivars. */
  predicate Anchored(live: nat -> bool, r: Region) {
    (r.Var? && live(r.decl)) || r.Ivar?
  }

  function Roots(store: Store, live: nat -> bool, given: seq<Region>): set<Region> {
    (set r | r in given) + (set r | r in store && Anchored(live, r))
  }

  /** The regions a sweep visits: the roots and the addresses held by what is reachable. */
  ghost predicate Visited(store: Store, roots: set<Region>, r: Region) {
    r in roots || exists m :: Reachable(store, roots, m) && Holds(store, m) == Address(r)
  }

  /** The symbols a sweep finds alive. */
  ghost predicate FoundLive(store: Store, roots: set<Region>, s: Symbol) {
    || (exists m :: Reachable(store, roots, m) && s in SymbolsOf(Holds(store, m)))
    || (exists r :: Visited(store, roots, r) && s in BaseSymbol(r))
  }

  /** What is left of the store: the reachable bindings. */
  ghost predicate Swept(before: Store, after: Store, roots: set<Region>) {
    && (forall r <- after :: r in before && after[r] == before[r])
    && (forall r <- before :: r in after <==> Reachable(before, roots, r))
  }

  // ------------------------------------------------------------------------------ lemmas

  lemma {:induction false} RootIsReachable(store: Store, roots: set<Region>, r: Region)
    requires r in roots && Base(r).Some?
    ensures Reachable(store, roots, Base(r).value)
  {
    assert Follow(store, Base(r), 0) == Some(Base(r).value);
  }

  lemma NextIsReachable(store: Store, roots: set<Region>, m: Region)
    requires Reachable(store, roots, m) && Next(store, m).Some?
    ensures Reachable(store, roots, Next(store, m).value)
  {
    var r, steps: nat :| r in roots && Follow(store, Base(r), steps) == Some(m);
    assert Follow(store, Base(r), steps + 1) == Next(store, m);
  }

  /** A set that has the roots' regions and is closed under following has all that is reachable. */
  lemma {:induction false} ClosedHasAll(store: Store, roots: set<Region>, marked: set<Region>, m: Region)
    requires forall r <- roots :: Base(r).Some? ==> Base(r).value in marked
    requires forall x <- marked :: Next(store, x).Some? ==> Next(store, x).value in marked
    requires Reachable(store, roots, m)
    ensures m in marked
  {
    var r, steps: nat :| r in roots && Follow(store, Base(r), steps) == Some(m);
    ClosedAlong(store, marked, Base(r), steps);
  }

  lemma {:induction false} ClosedAlong(store: Store, marked: set<Region>, start: Option<Region>, steps: nat)
    requires start.Some? ==> start.value in marked
    requires forall x <- marked :: Next(store, x).Some? ==> Next(store, x).value in marked
    ensures Follow(store, start, steps).Some? ==> Follow(store, start, steps).value in marked
  {
    if steps > 0 { ClosedAlong(store, marked, start, steps - 1); }
  }

  /** The sweep does not change what can be read through a reachable region. */
  lemma SweepKeepsReads(before: Store, after: Store, roots: set<Region>, q: Region)
    requires Swept(before, after, roots)
    requires ReadRegion(q).Some? ==> Reachable(before, roots, ReadRegion(q).value)
    ensures Retrieve(after, Address(q)) == Retrieve(before, Address(q))
  {
  }

  /** The value found by loading n times, beginning with a location. */
  function Loaded(store: Store, loc: SVal, n: nat): SVal {
    if n == 0 then loc else Retrieve(store, Loaded(store, loc, n - 1))
  }

  /** What can be read at a location is part of what the location's region is based on. */
  lemma {:induction false} ReadsItsBase(q: Region)
    requires ReadRegion(q).Some?
    ensures Base(q) == ReadRegion(q)
  {
    BaseOfStripped(q);
  }

  lemma {:induction false} BaseOfStripped(q: Region)
    ensures Base(RemoveViews(q)) == Base(q)
  {
    if q.View? { BaseOfStripped(q.super); }
  }

  /** Whatever is loaded by way of a root is the same after the sweep, and its symbols are found alive. */
  lemma {:induction false} LoadsKept(before: Store, after: Store, roots: set<Region>, r: Region, n: nat)
    requires Swept(before, after, roots) && r in roots
    ensures Loaded(after, Address(r), n) == Loaded(before, Address(r), n)
    ensures n > 0 ==> forall s <- SymbolsOf(Loaded(before, Address(r), n)) :: FoundLive(before, roots, s)
    ensures Loaded(before, Address(r), n).Address? ==>
              var q := Loaded(before, Address(r), n).region;
              Base(q).Some? ==> Reachable(before, roots, Base(q).value)
  {
    if n == 0 {
      if Base(r).Some? { RootIsReachable(before, roots, r); }
    } else {
      LoadsKept(before, after, roots, r, n - 1);
      var loc := Loaded(before, Address(r), n - 1);
      if loc.Address? && ReadRegion(loc.region).Some? {
        var b := ReadRegion(loc.region).value;
        ReadsItsBase(loc.region);
        StrippedIsNoView(loc.region);
        SweepKeepsReads(before, after, roots, loc.region);
        assert Retrieve(before, loc) == Holds(before, b);
        if Next(before, b).Some? { NextIsReachable(before, roots, b); }
      }
    }
  }

  /** In particular what is loaded by way of a live variable, an ivar or a given region. */
  lemma {:induction false} LiveLoadsKept(before: Store, after: Store, live: nat -> bool, given: seq<Region>, r: Region, n: nat)
    requires Swept(before, after, Roots(before, live, given))
    requires r in given || (r in before && (r.Ivar? || (r.Var? && live(r.decl))))
    ensures Loaded(after, Address(r), n) == Loaded(before, Address(r), n)
    ensures n > 0 ==> forall s <- SymbolsOf(Loaded(before, Address(r), n)) :: FoundLive(before, Roots(before, live, given), s)
  {
    LoadsKept(before, after, Roots(before, live, given), r, n);
  }

  // ----------------------------------------------------------------------------- symbols

  class SymbolReaper {
    const live: nat -> bool
    var living: set<Symbol>
    var dead: set<Symbol>

    constructor (live: nat -> bool)
      ensures this.live == live && living == {} && dead == {}
    {
      this.live := live;
      living, dead := {}, {};
    }

    predicate Valid()
      reads this
    {
      living !! dead
    }

    predicate IsLive(s: Symbol)
      reads this
    {
      s in living || s.fromRegion
    }

    method MarkLive(s: Symbol)
      modifies this
      ensures living == old(living) + {s} && dead == old(dead) - {s}
    {
      living := living + {s};
      dead := dead - {s};
    }

    method MaybeDead(s: Symbol) returns (r: bool)
      modifies this
      ensures r == !old(IsLive(s))
      ensures living == old(living) && dead == old(dead) + if r then {s} else {}
    {
      if IsLive(s) {
        return false;
      }
      dead := dead + {s};
      return true;
    }

    /** Visits the symbols of a value from the end of a stack of expressions. */
    method MarkSymbols(v: SVal)
      modifies this
      ensures living == old(living) + SymbolsOf(v) && dead == old(dead) - SymbolsOf(v)
    {
      var e := AsSymbolicExpression(v);
      var stack: seq<SymExpr> := if e.Some? then [e.value] else [];
      ghost var done: set<Symbol> := {};
      PendingTop([], if e.Some? then e.value else Data(Symbol(0, false)));
      while stack != []
        invariant done + Pending(stack) == SymbolsOf(v)
        invariant living == old(living) + done && dead == old(dead) - done
        decreases Weight(stack)
      {
        var top := stack[|stack| - 1];
        stack := stack[..|stack| - 1];
        match top {
          case Data(s) =>
            MarkLive(s);
            done := done + {s};
          case SymInt(lhs) =>
            PendingTop(stack, lhs);
            stack := stack + [lhs];
          case SymSym(left, right) =>
            PendingTop(stack, left);
            PendingTop(stack + [left], right);
            stack := stack + [left] + [right];
        }
      }
    }

    method MaybeDeadSymbols(v: SVal)
      modifies this
      ensures living == old(living)
      ensures forall s :: s in dead <==> s in old(dead) || (s in SymbolsOf(v) && !IsLive(s))
    {
      var todo := SymbolsOf(v);
      while todo != {}
        invariant todo <= SymbolsOf(v)
        invariant living == old(living)
        invariant forall s :: s in dead <==> s in old(dead) || (s in SymbolsOf(v) - todo && !IsLive(s))
        decreases |todo|
      {
        var s :| s in todo;
        var _ := MaybeDead(s);
        todo := todo - {s};
      }
    }
  }

  function Pending(stack: seq<SymExpr>): set<Symbol> {
    if stack == [] then {} else Pending(stack[..|stack| - 1]) + Symbols(stack[|stack| - 1])
  }

  function Size(e: SymExpr): nat {
    match e
    case Data(_) => 1
    case SymInt(lhs) => 1 + Size(lhs)
    case SymSym(left, right) => 1 + Size(left) + Size(right)
  }

  function Weight(stack: seq<SymExpr>): nat {
    if stack == [] then 0 else Weight(stack[..|stack| - 1]) + Size(stack[|stack| - 1])
  }

  lemma {:induction false} PendingTop(stack: seq<SymExpr>, e: SymExpr)
    ensures Pending(stack + [e]) == Pending(stack) + Symbols(e)
    ensures Weight(stack + [e]) == Weight(stack) + Size(e)
    ensures Size(e) > 0
  {
    assert (stack + [e])[..|stack|] == stack;
  }

  // ------------------------------------------------------------------------------- sweep

  /** The region has been dealt with: what it is part of is marked, or its symbol is alive. */
  ghost predicate Handled(r: Region, marked: set<Region>, living: set<Symbol>) {
    && (Base(r).Some? ==> Base(r).value in marked)
    && BaseSymbol(r) <= living
  }

  /** The state of the marking loop, with `stack` the regions still to visit. */
  ghost predicate Marking(store: Store, roots: set<Region>, stack: seq<Region>,
                          marked: set<Region>, living: set<Symbol>) {
    && (forall r <- stack :: Visited(store, roots, r))
    && (forall m <- marked :: Tracked(m) && Reachable(store, roots, m))
    && (forall r <- roots :: NowOrLater(stack, r, marked, living))
    && (forall m <- marked :: SymbolsOf(Holds(store, m)) <= living)
    && (forall m <- marked :: Holds(store, m).Address? ==>
          NowOrLater(stack, Holds(store, m).region, marked, living))
  }

  /** Nothing is taken for alive without cause. */
  ghost predicate Caused(store: Store, roots: set<Region>, before: set<Symbol>, living: set<Symbol>) {
    before <= living && forall s <- living - before :: FoundLive(store, roots, s)
  }

  /** The symbols of the bindings that are dropped. */
  ghost predicate Dropped(before: Store, after: Store, s: Symbol) {
    exists r :: r in before && r !in after && s in SymbolsOf(before[r])
  }

  /** Collects the roots, and takes the symbols of the bindings among them for alive. */
  method AnchorRoots(store: Store, reaper: SymbolReaper, given: seq<Region>) returns (stack: seq<Region>)
    requires reaper.Valid() && forall r <- store :: Tracked(r)
    modifies reaper
    ensures reaper.Valid() && reaper.dead == old(reaper.dead) - reaper.living
    ensures (set r | r in stack) == Roots(store, reaper.live, given)
    ensures Caused(store, Roots(store, reaper.live, given), old(reaper.living), reaper.living)
  {
    ghost var roots := Roots(store, reaper.live, given);
    stack := given;
    var todo := store.Keys;
    while todo != {}
      invariant todo <= store.Keys
      invariant reaper.Valid() && reaper.dead == old(reaper.dead) - reaper.living
      invariant (set r | r in stack) == (set r | r in given) + set r | r in store && r !in todo && Anchored(reaper.live, r)
      invariant Caused(store, roots, old(reaper.living), reaper.living)
      decreases |todo|
    {
      var r :| r in todo;
      todo := todo - {r};
      if Anchored(reaper.live, r) {
        Extended(stack, r);
        stack := stack + [r];
        RootIsReachable(store, roots, r);
        assert Holds(store, r) == store[r];
        reaper.MarkSymbols(store[r]);
      }
    }
  }

  lemma Extended(stack: seq<Region>, r: Region)
    ensures (set x | x in stack + [r]) == (set x | x in stack) + {r}
  {
  }

  lemma {:induction false} BaseIsTracked(r: Region)
    ensures Base(r).Some? ==> Tracked(Base(r).value) && BaseSymbol(r) == {}
  {
    match r {
      case View(_, _, super) => BaseIsTracked(super);
      case Other(_, super) => BaseIsTracked(super);
      case _ =>
    }
  }

  lemma StillHandled(r: Region, marked: set<Region>, living: set<Symbol>, more: set<Region>, later: set<Symbol>)
    requires Handled(r, marked, living) && marked <= more && living <= later
    ensures Handled(r, more, later)
  {
  }

  /** The top of the stack led nowhere new. */
  lemma Popped(store: Store, roots: set<Region>, stack: seq<Region>, top: Region,
               marked: set<Region>, living: set<Symbol>, later: set<Symbol>)
    requires Marking(store, roots, stack + [top], marked, living)
    requires living <= later && Handled(top, marked, later)
    ensures Marking(store, roots, stack, marked, later)
  {
    assert forall r :: r in stack + [top] <==> r in stack || r == top;
    NowHandled(stack + [top], top, stack, marked, living, marked, later);
  }

  /** The top of the stack led to a tracked region not met before. */
  lemma {:induction false} Marked(store: Store, roots: set<Region>, stack: seq<Region>, top: Region, m: Region,
               marked: set<Region>, living: set<Symbol>, later: set<Symbol>)
    requires Marking(store, roots, stack + [top], marked, living)
    requires Base(top) == Some(m) && living <= later && SymbolsOf(Holds(store, m)) <= later
    requires Reachable(store, roots, m)
    ensures Marking(store, roots, stack + if Holds(store, m).Address? then [Holds(store, m).region] else [],
                    marked + {m}, later)
  {
    hide Reachable, SymbolsOf, Holds;
    BaseIsTracked(top);
    var v := Holds(store, m);
    var next := stack + if v.Address? then [v.region] else [];
    var more := marked + {m};
    assert forall r :: r in stack + [top] <==> r in stack || r == top;
    assert forall r :: r in next <==> r in stack || (v.Address? && r == v.region);
    assert v.Address? ==> Visited(store, roots, v.region);
    NowHandled(stack + [top], top, next, marked, living, more, later);
    forall x | x in more && Holds(store, x).Address?
      ensures NowOrLater(next, Holds(store, x).region, more, later)
    {
      if x != m { assert NowOrLater(stack + [top], Holds(store, x).region, marked, living); }
    }
    forall r | r in roots ensures NowOrLater(next, r, more, later) {
      assert NowOrLater(stack + [top], r, marked, living);
    }
  }

  ghost predicate NowOrLater(stack: seq<Region>, r: Region, marked: set<Region>, living: set<Symbol>) {
    r in stack || Handled(r, marked, living)
  }

  lemma NowHandled(before: seq<Region>, top: Region, after: seq<Region>,
                   marked: set<Region>, living: set<Symbol>, more: set<Region>, later: set<Symbol>)
    requires marked <= more && living <= later && Handled(top, more, later)
    requires forall r <- before :: r == top || r in after
    ensures forall r :: NowOrLater(before, r, marked, living) ==> NowOrLater(after, r, more, later)
  {
    forall r | Handled(r, marked, living) ensures Handled(r, more, later) {
      StillHandled(r, marked, living, more, later);
    }
  }

  /** What the top of the stack leads to is reachable. */
  lemma {:induction false} VisitedIsReachable(store: Store, roots: set<Region>, r: Region)
    requires Visited(store, roots, r)
    ensures Base(r).Some? ==> Reachable(store, roots, Base(r).value)
  {
    if Base(r).Some? {
      if r in roots {
        RootIsReachable(store, roots, r);
      } else {
        var m :| Reachable(store, roots, m) && Holds(store, m) == Address(r);
        NextIsReachable(store, roots, m);
      }
    }
  }

  lemma AllMarked(store: Store, roots: set<Region>, marked: set<Region>, living: set<Symbol>)
    requires Marking(store, roots, [], marked, living)
    ensures forall m :: m in marked <==> Reachable(store, roots, m)
    ensures forall s :: FoundLive(store, roots, s) ==> s in living
  {
    forall x | x in marked && Next(store, x).Some? ensures Next(store, x).value in marked {
      assert Handled(Holds(store, x).region, marked, living);
    }
    forall m | Reachable(store, roots, m) ensures m in marked { ClosedHasAll(store, roots, marked, m); }
  }

  /** Goes up from `top` to the region that has a binding, or to a symbolic region. */
  method Climb(top: Region, reaper: SymbolReaper) returns (m: Option<Region>)
    modifies reaper
    ensures m == Base(top)
    ensures reaper.living == old(reaper.living) + BaseSymbol(top)
    ensures reaper.dead == old(reaper.dead) - BaseSymbol(top)
  {
    var mr := top;
    while true
      invariant Base(mr) == Base(top) && BaseSymbol(mr) == BaseSymbol(top)
      invariant reaper.living == old(reaper.living) && reaper.dead == old(reaper.dead)
      decreases mr
    {
      match mr {
        case Symbolic(sym, _) =>
          reaper.MarkLive(sym);
          return None;
        case Space(_) => return None;
        case Var(_, _) => return Some(mr);
        case Ivar(_, _) => return Some(mr);
        case View(_, _, super) => mr := super;
        case Other(_, super) => mr := super;
      }
    }
  }

  /** The worklist: from each region up to the one that has a binding, and on from its value. */
  method MarkReachable(store: Store, reaper: SymbolReaper, given: seq<Region>) returns (marked: set<Region>)
    requires reaper.Valid() && forall r <- store :: Tracked(r)
    modifies reaper
    ensures reaper.Valid() && reaper.dead == old(reaper.dead) - reaper.living
    ensures forall m :: m in marked <==> Reachable(store, SetOf(given), m)
    ensures Caused(store, SetOf(given), old(reaper.living), reaper.living)
    ensures forall s :: FoundLive(store, SetOf(given), s) ==> s in reaper.living
  {
    hide Reachable, Handled, Marking, Visited, Caused, Base, BaseSymbol, Symbols, SymbolsOf;
    ghost var roots := SetOf(given);
    var stack := given;
    marked := {};
    StartOfMarking(store, given, reaper.living);
    while stack != []
      invariant reaper.Valid() && reaper.dead == old(reaper.dead) - reaper.living
      invariant Marking(store, roots, stack, marked, reaper.living)
      invariant Caused(store, roots, old(reaper.living), reaper.living)
      decreases |store.Keys - marked|, |stack|
    {
      ghost var living := reaper.living;
      var top := stack[|stack| - 1];
      assert stack == stack[..|stack| - 1] + [top];
      TopIsVisited(store, roots, stack, marked, living);
      VisitedIsReachable(store, roots, top);
      stack := stack[..|stack| - 1];
      var mr := Climb(top, reaper);
      CausedByVisit(store, roots, old(reaper.living), living, top);
      if mr.None? || mr.value in marked {
        TopIsHandled(top, marked, reaper.living);
        Popped(store, roots, stack, top, marked, living, reaper.living);
      } else {
        var m := mr.value;
        ghost var climbed := reaper.living;
        var x := Retrieve(store, Address(m));
        reaper.MarkSymbols(x);
        CausedByValue(store, roots, old(reaper.living), climbed, m);
        Marked(store, roots, stack, top, m, marked, living, reaper.living);
        BaseIsTracked(top);
        FewerLeft(store, marked, m);
        marked := marked + {m};
        if x.Address? {
          stack := stack + [x.region];
        } else {
          assert stack + [] == stack;
        }
      }
    }
    AllMarked(store, roots, marked, reaper.living);
  }

  function SetOf(rs: seq<Region>): set<Region> {
    set r | r in rs
  }

  lemma StartOfMarking(store: Store, given: seq<Region>, living: set<Symbol>)
    ensures Marking(store, SetOf(given), given, {}, living)
    ensures Caused(store, SetOf(given), living, living)
  {
  }

  lemma TopIsVisited(store: Store, roots: set<Region>, stack: seq<Region>, marked: set<Region>, living: set<Symbol>)
    requires stack != [] && Marking(store, roots, stack, marked, living)
    ensures Visited(store, roots, stack[|stack| - 1])
  {
  }

  lemma {:induction false} TopIsHandled(top: Region, marked: set<Region>, living: set<Symbol>)
    requires Base(top).None? || Base(top).value in marked
    requires BaseSymbol(top) <= living
    ensures Handled(top, marked, living)
  {
  }

  lemma {:induction false} CausedByVisit(store: Store, roots: set<Region>, before: set<Symbol>, living: set<Symbol>, r: Region)
    requires Caused(store, roots, before, living) && Visited(store, roots, r)
    ensures Caused(store, roots, before, living + BaseSymbol(r))
  {
  }

  lemma CausedByValue(store: Store, roots: set<Region>, before: set<Symbol>, living: set<Symbol>, m: Region)
    requires Caused(store, roots, before, living) && Reachable(store, roots, m)
    ensures Caused(store, roots, before, living + SymbolsOf(Holds(store, m)))
  {
  }

  /** Marking a region that is bound leaves fewer to mark; one that is not holds no address. */
  lemma FewerLeft(store: Store, marked: set<Region>, m: Region)
    requires m !in marked && Tracked(m)
    ensures if m in store then |store.Keys - (marked + {m})| < |store.Keys - marked|
            else !Holds(store, m).Address? && store.Keys - (marked + {m}) == store.Keys - marked
  {
    if m in store {
      var rest := store.Keys - (marked + {m});
      assert store.Keys - marked == rest + {m};
    }
  }

  /** Drops the bindings that are not marked. */
  method SweepUnmarked(store: Store, marked: set<Region>, reaper: SymbolReaper) returns (r: Store)
    requires reaper.Valid() && forall k <- store :: Tracked(k)
    modifies reaper
    ensures reaper.Valid() && reaper.living == old(reaper.living)
    ensures r == map k | k in store && k in marked :: store[k]
    ensures forall s :: s in reaper.dead <==>
              s in old(reaper.dead) || (Dropped(store, r, s) && !reaper.IsLive(s))
  {
    r := store;
    var todo := store.Keys;
    while todo != {}
      invariant todo <= store.Keys
      invariant reaper.Valid() && reaper.living == old(reaper.living)
      invariant r == map k | k in store && (k in todo || k in marked) :: store[k]
      invariant forall s :: s in reaper.dead <==>
                  s in old(reaper.dead) || (Dropped(store, r, s) && !reaper.IsLive(s))
      decreases |todo|
    {
      var k :| k in todo;
      todo := todo - {k};
      if k !in marked {
        ghost var before, dead := r, reaper.dead;
        r := Remove(r, Address(k));
        reaper.MaybeDeadSymbols(store[k]);
        DroppedOne(store, before, k);
      }
    }
  }

  lemma DroppedOne(store: Store, before: Store, k: Region)
    requires k in store && k in before
    ensures forall s :: Dropped(store, before - {k}, s) <==>
              Dropped(store, before, s) || s in SymbolsOf(store[k])
  {
    forall s | Dropped(store, before, s) ensures Dropped(store, before - {k}, s) {
      var r :| r in store && r !in before && s in SymbolsOf(store[r]);
      assert r !in before - {k};
    }
    forall s | s in SymbolsOf(store[k]) ensures Dropped(store, before - {k}, s) {
      assert k !in before - {k};
    }
  }

  /**
    Keeps exactly the reachable bindings; the symbols alive are those that were and those
    found by the way, the dead ones those that were or are dropped, and are not alive.
   */
  method RemoveDeadBindings(store: Store, ghost self: Option<Region>, reaper: SymbolReaper, given: seq<Region>)
    returns (r: Store)
    requires Proper(store, self) && reaper.Valid()
    modifies reaper
    ensures Proper(r, self) && reaper.Valid()
    ensures Swept(store, r, Roots(store, reaper.live, given))
    ensures forall s :: s in reaper.living <==>
              s in old(reaper.living) || FoundLive(store, Roots(store, reaper.live, given), s)
    ensures forall s :: s in reaper.dead <==>
              (s in old(reaper.dead) && s !in reaper.living) || (Dropped(store, r, s) && !reaper.IsLive(s))
    ensures forall k <- r :: SymbolsOf(r[k]) <= reaper.living
  {
    hide Reachable, FoundLive, Dropped;
    ghost var roots := Roots(store, reaper.live, given);
    var stack := AnchorRoots(store, reaper, given);
    assert SetOf(stack) == roots;
    var marked := MarkReachable(store, reaper, stack);
    r := SweepUnmarked(store, marked, reaper);
    forall k | k in r ensures SymbolsOf(r[k]) <= reaper.living {
      KeptSymbols(store, roots, k);
    }
  }

  /** The symbols of a reachable binding are found alive. */
  lemma KeptSymbols(store: Store, roots: set<Region>, k: Region)
    requires k in store && Tracked(k) && Reachable(store, roots, k)
    ensures forall s <- SymbolsOf(store[k]) :: FoundLive(store, roots, s)
  {
    assert Holds(store, k) == store[k];
  }
}
