/**
  Equality and disequality constraints on symbols: what assuming a comparison of a symbol
  with a constant does to them, against the valuations of the symbols they describe.

  Constants are references to interned integers, and sets of them are sets of addresses.
 */
module ConstraintManager {
  import opened Options
  import opened MachineInts
  import opened ValueInterning
  import opened BasicStore
  import opened DeadBindings

  datatype State = State(eq: map<Symbol, Ref>, ne: map<Symbol, set<Ref>>)

  datatype Comparison = EQ | NE | LT | GT | GE | LE

  datatype Assumed = Assumed(state: State, feasible: bool)

  /** The interned integers, and the type of the values each symbol stands for. */
  datatype Setting = Setting(nodes: Nodes, types: Symbol -> IntTy)

  ghost predicate Typed(c: Setting, sym: Symbol, v: Ref) {
    v < |c.nodes| && c.types(sym).width >= 1 && OfType(c.nodes[v], c.types(sym))
  }

  function IntOf(c: Setting, v: Ref): int
    requires v < |c.nodes| && Valid(c.nodes[v])
  {
    Value(c.nodes[v])
  }

  predicate IsMin(a: APSInt)
    requires a.width >= 1
  {
    a.bits == if a.unsigned then 0 else Pow2(a.width - 1)
  }

  predicate IsMax(a: APSInt)
    requires a.width >= 1
  {
    a.bits == if a.unsigned then Pow2(a.width) - 1 else Pow2(a.width - 1) - 1
  }

  /** Every constant is of its symbol's type, and no symbol is held equal and unequal to one. */
  ghost predicate WellFormed(c: Setting, st: State) {
    && Interned(c.nodes)
    && (forall s <- st.eq :: Typed(c, s, st.eq[s]))
    && (forall s <- st.ne :: forall v <- st.ne[s] :: Typed(c, s, v))
    && (forall s <- st.eq :: s in st.ne ==> st.eq[s] !in st.ne[s])
  }

  // -------------------------------------------------------------------------- assumptions

  predicate IsNotEqual(st: State, sym: Symbol, v: Ref) {
    sym in st.ne && v in st.ne[sym]
  }

  function AddEQ(st: State, sym: Symbol, v: Ref): State {
    st.(eq := st.eq[sym := v])
  }

  function AddNE(st: State, sym: Symbol, v: Ref): State {
    st.(ne := st.ne[sym := (if sym in st.ne then st.ne[sym] else {}) + {v}])
  }

  function AssumeSymNE(c: Setting, st: State, sym: Symbol, v: Ref): Assumed
    requires WellFormed(c, st) && Typed(c, sym, v)
  {
    if sym in st.eq then Assumed(st, c.nodes[st.eq[sym]].bits != c.nodes[v].bits)
    else if IsNotEqual(st, sym, v) then Assumed(st, true)
    else Assumed(AddNE(st, sym, v), true)
  }

  function AssumeSymEQ(c: Setting, st: State, sym: Symbol, v: Ref): Assumed
    requires WellFormed(c, st) && Typed(c, sym, v)
  {
    if sym in st.eq then Assumed(st, c.nodes[st.eq[sym]].bits == c.nodes[v].bits)
    else if IsNotEqual(st, sym, v) then Assumed(st, false)
    else Assumed(AddEQ(st, sym, v), true)
  }

  function AssumeSymLT(c: Setting, st: State, sym: Symbol, v: Ref): Assumed
    requires WellFormed(c, st) && Typed(c, sym, v)
  {
    if IsMin(c.nodes[v]) then Assumed(st, false) else AssumeSymNE(c, st, sym, v)
  }

  function AssumeSymGT(c: Setting, st: State, sym: Symbol, v: Ref): Assumed
    requires WellFormed(c, st) && Typed(c, sym, v)
  {
    if IsMax(c.nodes[v]) then Assumed(st, false) else AssumeSymNE(c, st, sym, v)
  }

  function AssumeSymGE(c: Setting, st: State, sym: Symbol, v: Ref): Assumed
    requires WellFormed(c, st) && Typed(c, sym, v)
  {
    if sym in st.eq then Assumed(st, !Less(c.nodes[st.eq[sym]], c.nodes[v]))
    else if IsMax(c.nodes[v]) then
      if IsNotEqual(st, sym, v) then Assumed(st, false) else Assumed(AddEQ(st, sym, v), true)
    else Assumed(st, true)
  }

  function AssumeSymLE(c: Setting, st: State, sym: Symbol, v: Ref): Assumed
    requires WellFormed(c, st) && Typed(c, sym, v)
  {
    if sym in st.eq then Assumed(st, !Less(c.nodes[v], c.nodes[st.eq[sym]]))
    else if IsMin(c.nodes[v]) then
      if IsNotEqual(st, sym, v) then Assumed(st, false) else Assumed(AddEQ(st, sym, v), true)
    else Assumed(st, true)
  }

  function Assume(c: Setting, st: State, op: Comparison, sym: Symbol, v: Ref): Assumed
    requires WellFormed(c, st) && Typed(c, sym, v)
  {
    match op
    case EQ => AssumeSymEQ(c, st, sym, v)
    case NE => AssumeSymNE(c, st, sym, v)
    case LT => AssumeSymLT(c, st, sym, v)
    case GT => AssumeSymGT(c, st, sym, v)
    case GE => AssumeSymGE(c, st, sym, v)
    case LE => AssumeSymLE(c, st, sym, v)
  }

  function Negation(op: Comparison): Comparison {
    match op
    case EQ => NE
    case NE => EQ
    case LT => GE
    case GE => LT
    case GT => LE
    case LE => GT
  }

  // -------------------------------------------------------------------------- valuations

  type Valuation = Symbol -> int

  predicate Compare(op: Comparison, x: int, y: int) {
    match op
    case EQ => x == y
    case NE => x != y
    case LT => x < y
    case GT => x > y
    case GE => x >= y
    case LE => x <= y
  }

  /** The symbols have values of their types, as the constraints say. */
  ghost predicate Models(c: Setting, st: State, rho: Valuation)
    requires WellFormed(c, st)
  {
    && (forall s <- st.eq :: rho(s) == IntOf(c, st.eq[s]))
    && (forall s <- st.ne :: forall v <- st.ne[s] :: rho(s) != IntOf(c, v))
  }

  ghost predicate InTypes(c: Setting, rho: Valuation) {
    forall s :: c.types(s).width >= 1 ==> InRange(c.types(s), rho(s))
  }

  // ------------------------------------------------------------------------------ lemmas

  lemma MinMax(ty: IntTy, a: APSInt)
    requires ty.width >= 1 && OfType(a, ty)
    ensures IsMin(a) <==> forall x :: InRange(ty, x) ==> Value(a) <= x
    ensures IsMax(a) <==> forall x :: InRange(ty, x) ==> x <= Value(a)
    ensures !(IsMin(a) && IsMax(a))
  {
    assert Pow2(ty.width) == 2 * Pow2(ty.width - 1);
    ValueInRange(ty, a);
    var low := if ty.signed then 0 - Pow2(ty.width - 1) else 0;
    var high := (if ty.signed then Pow2(ty.width - 1) else Pow2(ty.width)) - 1;
    assert InRange(ty, low) && InRange(ty, high);
  }

  /** The invariant is kept: in particular no symbol's value gets into its disequality set. */
  lemma AssumeKeepsWellFormed(c: Setting, st: State, op: Comparison, sym: Symbol, v: Ref)
    requires WellFormed(c, st) && Typed(c, sym, v)
    ensures WellFormed(c, Assume(c, st, op, sym, v).state)
  {
    AssumeAdds(c, st, op, sym, v);
  }

  /** By value as well: the constant a symbol equals differs from all it is known to differ from. */
  lemma NeverEqualAndUnequal(c: Setting, st: State, s: Symbol, v: Ref)
    requires WellFormed(c, st) && s in st.eq && s in st.ne && v in st.ne[s]
    ensures IntOf(c, st.eq[s]) != IntOf(c, v)
  {
    AddressIsValue(c.nodes, st.eq[s], v);
  }

  /**
    Soundness of one step: a valuation of the old state that satisfies the comparison is one
    of the new state, and the step is feasible.  What the new state says was said before or
    follows from the comparison.
   */
  lemma AssumeSound(c: Setting, st: State, op: Comparison, sym: Symbol, v: Ref, rho: Valuation)
    requires WellFormed(c, st) && Typed(c, sym, v) && InTypes(c, rho)
    requires Models(c, st, rho) && Compare(op, rho(sym), IntOf(c, v))
    ensures WellFormed(c, Assume(c, st, op, sym, v).state)
    ensures Assume(c, st, op, sym, v).feasible
    ensures Models(c, Assume(c, st, op, sym, v).state, rho)
  {
    AssumeKeepsWellFormed(c, st, op, sym, v);
    MinMax(c.types(sym), c.nodes[v]);
    if sym in st.eq {
      LessIsLess(c.nodes[st.eq[sym]], c.nodes[v]);
      LessIsLess(c.nodes[v], c.nodes[st.eq[sym]]);
    }
    assert InRange(c.types(sym), rho(sym));
  }

  /** A step forgets nothing: every valuation of the new state is one of the old. */
  lemma AssumeRefines(c: Setting, st: State, op: Comparison, sym: Symbol, v: Ref, rho: Valuation)
    requires WellFormed(c, st) && Typed(c, sym, v)
    requires WellFormed(c, Assume(c, st, op, sym, v).state) && Models(c, Assume(c, st, op, sym, v).state, rho)
    ensures Models(c, st, rho)
  {
    AssumeAdds(c, st, op, sym, v);
    var next := Assume(c, st, op, sym, v).state;
    hide Assume;
    forall s | s in st.eq ensures rho(s) == IntOf(c, st.eq[s]) { assert next.eq[s] == st.eq[s]; }
    forall s, w | s in st.ne && w in st.ne[s] ensures rho(s) != IntOf(c, w) { assert w in next.ne[s]; }
  }

  /** A step adds at most one constraint: an equality for a symbol without one, or a disequality. */
  lemma AssumeAdds(c: Setting, st: State, op: Comparison, sym: Symbol, v: Ref)
    requires WellFormed(c, st) && Typed(c, sym, v)
    ensures var next := Assume(c, st, op, sym, v).state;
            || next == st
            || (next == AddEQ(st, sym, v) && sym !in st.eq && !IsNotEqual(st, sym, v))
            || (next == AddNE(st, sym, v) && sym !in st.eq)
  {
  }

  /** For == and != a feasible step is exact, and an infeasible one has no valuation. */
  lemma EqualityIsExact(c: Setting, st: State, op: Comparison, sym: Symbol, v: Ref, rho: Valuation)
    requires op.EQ? || op.NE?
    requires WellFormed(c, st) && Typed(c, sym, v) && InTypes(c, rho)
    ensures WellFormed(c, Assume(c, st, op, sym, v).state)
    ensures var a := Assume(c, st, op, sym, v);
            if a.feasible then
              Models(c, a.state, rho) <==> Models(c, st, rho) && Compare(op, rho(sym), IntOf(c, v))
            else Models(c, st, rho) ==> !Compare(op, rho(sym), IntOf(c, v))
  {
    AssumeKeepsWellFormed(c, st, op, sym, v);
    var a := Assume(c, st, op, sym, v);
    if sym in st.eq { LessIsLess(c.nodes[st.eq[sym]], c.nodes[v]); }
    if Models(c, st, rho) && Compare(op, rho(sym), IntOf(c, v)) { AssumeSound(c, st, op, sym, v, rho); }
    if a.feasible && Models(c, a.state, rho) {
      AssumeRefines(c, st, op, sym, v, rho);
      assert op.EQ? && sym !in st.eq ==> a.state.eq[sym] == v;
      assert op.NE? && sym !in st.eq ==> v in a.state.ne[sym];
    }
  }

  /** What a feasible step says of a symbol with no known value: an order only at its ends. */
  predicate Said(op: Comparison, a: APSInt, x: int)
    requires Valid(a) && a.width >= 1
  {
    match op
    case EQ => x == Value(a)
    case NE => x != Value(a)
    case LT => x != Value(a)
    case GT => x != Value(a)
    case GE => IsMax(a) ==> x == Value(a)
    case LE => IsMin(a) ==> x == Value(a)
  }

  /** A feasible step narrows the valuations by exactly what it says. */
  lemma StepSays(c: Setting, st: State, op: Comparison, sym: Symbol, v: Ref, rho: Valuation)
    requires WellFormed(c, st) && Typed(c, sym, v) && Assume(c, st, op, sym, v).feasible
    ensures WellFormed(c, Assume(c, st, op, sym, v).state)
    ensures Models(c, Assume(c, st, op, sym, v).state, rho) <==>
              Models(c, st, rho) && (sym in st.eq || Said(op, c.nodes[v], rho(sym)))
  {
    AssumeKeepsWellFormed(c, st, op, sym, v);
    AssumeAdds(c, st, op, sym, v);
    var next := Assume(c, st, op, sym, v).state;
    if next == AddEQ(st, sym, v) && next != st { AddEQSays(c, st, sym, v, rho); }
    if next == AddNE(st, sym, v) && next != st { AddNESays(c, st, sym, v, rho); }
    if next == st && IsNotEqual(st, sym, v) { assert Models(c, st, rho) ==> rho(sym) != IntOf(c, v); }
  }

  lemma AddEQSays(c: Setting, st: State, sym: Symbol, v: Ref, rho: Valuation)
    requires WellFormed(c, st) && WellFormed(c, AddEQ(st, sym, v)) && sym !in st.eq && Typed(c, sym, v)
    ensures Models(c, AddEQ(st, sym, v), rho) <==> Models(c, st, rho) && rho(sym) == IntOf(c, v)
  {
    var next := AddEQ(st, sym, v);
    assert next.eq[sym] == v;
    assert forall s <- st.eq :: next.eq[s] == st.eq[s];
  }

  lemma AddNESays(c: Setting, st: State, sym: Symbol, v: Ref, rho: Valuation)
    requires WellFormed(c, st) && WellFormed(c, AddNE(st, sym, v)) && Typed(c, sym, v)
    ensures Models(c, AddNE(st, sym, v), rho) <==> Models(c, st, rho) && rho(sym) != IntOf(c, v)
  {
    var next := AddNE(st, sym, v);
    assert v in next.ne[sym];
    assert forall s <- st.ne :: st.ne[s] <= next.ne[s];
  }

  /** Some integer of the type compares so with y. */
  ghost predicate Possible(op: Comparison, ty: IntTy, y: int)
    requires ty.width >= 1
  {
    exists x :: InRange(ty, x) && Compare(op, x, y)
  }

  /** None but y itself does. */
  ghost predicate OnlyItself(op: Comparison, ty: IntTy, y: int)
    requires ty.width >= 1
  {
    forall x :: InRange(ty, x) && Compare(op, x, y) ==> x == y
  }

  /**
    When exactly an assumption is feasible.  For a symbol of known value: when the comparison
    holds, except that an order that does not hold is refused only where no integer of the
    type is in it, or for the constant itself.  For any other: when some integer of the type
    is in the comparison, and if that is the constant alone the symbol is not known to differ.
   */
  lemma FeasibleIff(c: Setting, st: State, op: Comparison, sym: Symbol, v: Ref)
    requires WellFormed(c, st) && Typed(c, sym, v)
    ensures var ty, y := c.types(sym), IntOf(c, v);
            Assume(c, st, op, sym, v).feasible <==>
              if sym in st.eq then
                var x := IntOf(c, st.eq[sym]);
                Compare(op, x, y) || ((op.LT? || op.GT?) && x != y && Possible(op, ty, y))
              else Possible(op, ty, y) && (OnlyItself(op, ty, y) ==> !IsNotEqual(st, sym, v))
  {
    var ty, y := c.types(sym), IntOf(c, v);
    Ends(op, ty, c.nodes[v]);
    if sym in st.eq {
      LessIsLess(c.nodes[st.eq[sym]], c.nodes[v]);
      LessIsLess(c.nodes[v], c.nodes[st.eq[sym]]);
      ValueInRange(ty, c.nodes[st.eq[sym]]);
    }
  }

  /** Of a symbol known to be 5 it is feasible to assume that it is less than 3. */
  lemma OrderIsNotChecked(sym: Symbol)
    ensures var c := Setting([Encode(INT, 5), Encode(INT, 3)], _ => INT);
            var st := State(map[sym := 0], map[]);
            && WellFormed(c, st) && Typed(c, sym, 1) && IntOf(c, st.eq[sym]) == 5 && IntOf(c, 1) == 3
            && Assume(c, st, LT, sym, 1).feasible
  {
    var five, three := Encode(INT, 5), Encode(INT, 3);
    Pow2Grows(3, 31);
    assert Pow2(3) == 8;
    ValueOfBits(INT, five, 5);
    ValueOfBits(INT, three, 3);
    MinMax(INT, three);
    assert InRange(INT, 0);
    hide Value, Encode, Pow2;
    LessIsLess(five, three);
  }

  lemma Ends(op: Comparison, ty: IntTy, a: APSInt)
    requires ty.width >= 1 && OfType(a, ty)
    ensures Possible(op, ty, Value(a)) <==> !(op.LT? && IsMin(a)) && !(op.GT? && IsMax(a))
    ensures Possible(op, ty, Value(a)) ==>
              (OnlyItself(op, ty, Value(a)) <==> op.EQ? || (op.GE? && IsMax(a)) || (op.LE? && IsMin(a)))
  {
    MinMax(ty, a);
    ValueInRange(ty, a);
    var y := Value(a);
    assert Compare(EQ, y, y) && Compare(GE, y, y) && Compare(LE, y, y);
    if !IsMin(a) {
      var x :| InRange(ty, x) && x < y;
      assert Compare(LT, x, y) && Compare(NE, x, y) && Compare(LE, x, y);
    }
    if !IsMax(a) {
      var x :| InRange(ty, x) && x > y;
      assert Compare(GT, x, y) && Compare(NE, x, y) && Compare(GE, x, y);
    }
  }

  /** Of a comparison and its negation one is always feasible. */
  lemma OneSideIsFeasible(c: Setting, st: State, op: Comparison, sym: Symbol, v: Ref)
    requires WellFormed(c, st) && Typed(c, sym, v)
    ensures Assume(c, st, op, sym, v).feasible || Assume(c, st, Negation(op), sym, v).feasible
  {
    MinMax(c.types(sym), c.nodes[v]);
    if sym in st.eq {
      ValueInRange(c.types(sym), c.nodes[st.eq[sym]]);
      LessIsLess(c.nodes[st.eq[sym]], c.nodes[v]);
      LessIsLess(c.nodes[v], c.nodes[st.eq[sym]]);
    }
  }

  // --------------------------------------------------------------------------------- runs

  datatype Step = Step(op: Comparison, sym: Symbol, v: Ref)

  /** The state after a path of assumptions, and whether each was feasible. */
  ghost function Run(c: Setting, st: State, steps: seq<Step>): Assumed
    requires WellFormed(c, st) && forall s <- steps :: Typed(c, s.sym, s.v)
    decreases |steps|
  {
    if steps == [] then Assumed(st, true)
    else
      var a := Assume(c, st, steps[0].op, steps[0].sym, steps[0].v);
      AssumeKeepsWellFormed(c, st, steps[0].op, steps[0].sym, steps[0].v);
      var rest := Run(c, a.state, steps[1..]);
      Assumed(rest.state, a.feasible && rest.feasible)
  }

  ghost predicate Satisfied(c: Setting, rho: Valuation, s: Step) {
    Typed(c, s.sym, s.v) && Compare(s.op, rho(s.sym), IntOf(c, s.v))
  }

  /** A valuation that satisfies every comparison on a path is never lost on it. */
  lemma {:induction false} RunSound(c: Setting, st: State, steps: seq<Step>, rho: Valuation)
    requires WellFormed(c, st) && forall s <- steps :: Typed(c, s.sym, s.v)
    requires InTypes(c, rho) && Models(c, st, rho)
    requires forall s <- steps :: Satisfied(c, rho, s)
    ensures Run(c, st, steps).feasible
    ensures WellFormed(c, Run(c, st, steps).state) && Models(c, Run(c, st, steps).state, rho)
    decreases |steps|
  {
    if steps != [] {
      var s := steps[0];
      assert s in steps;
      AssumeSound(c, st, s.op, s.sym, s.v, rho);
      RunSound(c, Assume(c, st, s.op, s.sym, s.v).state, steps[1..], rho);
    }
  }

  // --------------------------------------------------------------------------------- sweep

  /** Keeps the entries of symbols that are alive, and reports the other symbols dead. */
  method KeepLive<T>(m: map<Symbol, T>, reaper: SymbolReaper) returns (r: map<Symbol, T>)
    requires reaper.Valid()
    modifies reaper
    ensures reaper.Valid() && reaper.living == old(reaper.living)
    ensures r.Keys == set s | s in m && reaper.IsLive(s)
    ensures forall s <- r :: r[s] == m[s]
    ensures forall s :: s in reaper.dead <==> s in old(reaper.dead) || (s in m && !reaper.IsLive(s))
  {
    r := m;
    var todo := m.Keys;
    while todo != {}
      invariant todo <= m.Keys
      invariant reaper.Valid() && reaper.living == old(reaper.living)
      invariant forall s :: s in r <==> s in m && (s in todo || reaper.IsLive(s))
      invariant forall s <- r :: r[s] == m[s]
      invariant forall s :: s in reaper.dead <==>
                  s in old(reaper.dead) || (s in m && s !in todo && !reaper.IsLive(s))
      decreases |todo|
    {
      var s :| s in todo;
      todo := todo - {s};
      var dead := reaper.MaybeDead(s);
      if dead { r := r - {s}; }
    }
  }

  /** Drops the constraints on symbols that are not alive. */
  method RemoveDeadConstraints(st: State, reaper: SymbolReaper) returns (r: State)
    requires reaper.Valid()
    modifies reaper
    ensures reaper.Valid() && reaper.living == old(reaper.living)
    ensures r.eq.Keys == (set s | s in st.eq && reaper.IsLive(s)) && forall s <- r.eq :: r.eq[s] == st.eq[s]
    ensures r.ne.Keys == (set s | s in st.ne && reaper.IsLive(s)) && forall s <- r.ne :: r.ne[s] == st.ne[s]
    ensures forall s :: s in reaper.dead <==>
              s in old(reaper.dead) || ((s in st.eq || s in st.ne) && !reaper.IsLive(s))
  {
    var eq := KeepLive(st.eq, reaper);
    var ne := KeepLive(st.ne, reaper);
    r := State(eq, ne);
  }

  /** Dropping constraints loses no valuation and keeps the invariant. */
  lemma SweepSound(c: Setting, st: State, r: State, rho: Valuation)
    requires WellFormed(c, st) && Models(c, st, rho)
    requires forall s <- r.eq :: s in st.eq && r.eq[s] == st.eq[s]
    requires forall s <- r.ne :: s in st.ne && r.ne[s] == st.ne[s]
    ensures WellFormed(c, r) && Models(c, r, rho)
  {
  }
}
