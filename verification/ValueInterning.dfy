/**
  Interned machine integers: one node for each width, signedness and value, so that
  comparing the addresses of nodes compares the integers.

  A node's place in `nodes` stands for its address.
 */
module ValueInterning {
  import opened Options
  import opened MachineInts
  import opened ConstExpr

  type Ref = nat

  type Nodes = seq<APSInt>

  ghost predicate Interned(nodes: Nodes) {
    && (forall r :: 0 <= r < |nodes| ==> Valid(nodes[r]))
    && (forall r, s :: 0 <= r < s < |nodes| ==> nodes[r] != nodes[s])
  }

  /** References to interned nodes are equal exactly when width, signedness and value are. */
  lemma AddressIsValue(nodes: Nodes, r: Ref, s: Ref)
    requires Interned(nodes) && r < |nodes| && s < |nodes|
    ensures r == s <==>
              && nodes[r].width == nodes[s].width && nodes[r].unsigned == nodes[s].unsigned
              && Value(nodes[r]) == Value(nodes[s])
  {
    if nodes[r].width == nodes[s].width && nodes[r].unsigned == nodes[s].unsigned {
      LessIsLess(nodes[r], nodes[s]);
    }
  }

  /** A set of references answers membership of a node exactly as the set of its values would. */
  lemma MembershipIsValueMembership(nodes: Nodes, s: set<Ref>, r: Ref, ty: IntTy)
    requires Interned(nodes) && r < |nodes| && OfType(nodes[r], ty)
    requires forall x <- s :: x < |nodes| && OfType(nodes[x], ty)
    ensures r in s <==> exists x :: x in s && Value(nodes[x]) == Value(nodes[r])
  {
    forall x | x in s ensures x == r <==> Value(nodes[x]) == Value(nodes[r]) {
      AddressIsValue(nodes, x, r);
    }
  }

  // ---------------------------------------------------------------- operations on integers

  function TypeOfInt(a: APSInt): IntTy {
    IntTy(a.width, !a.unsigned, false)
  }

  predicate Shift(op: BinaryOp) {
    op.ShlOp? || op.ShrOp?
  }

  predicate Divides(op: BinaryOp) {
    op.DivOp? || op.RemOp?
  }

  predicate Evaluable(op: BinaryOp, a: APSInt, b: APSInt) {
    && !Logical(op) && !op.Comma? && Valid(a) && Valid(b) && a.width >= 8
    && (!Shift(op) ==> a.width == b.width && a.unsigned == b.unsigned)
    && (Divides(op) ==> b.bits != 0)
  }

  function ResultType(op: BinaryOp, a: APSInt): IntTy {
    if Relational(op) then INT else TypeOfInt(a)
  }

  /** The result of an operation; None for a shift by a negative or too large an amount. */
  function Evaluated(op: BinaryOp, a: APSInt, b: APSInt): (r: Option<APSInt>)
    requires Evaluable(op, a, b)
    ensures r.Some? ==> OfType(r.value, ResultType(op, a))
  {
    if Shift(op) then
      if !b.unsigned && Negative(b) then None
      else if b.bits > a.width then None
      else if op.ShlOp? then Some(Shl(a, b.bits))
      else Some(Shr(a, b.bits))
    else OnValues(op, ResultType(op, a), a, b)
  }

  /** Wherever the language gives an operation a value, that is the value computed. */
  lemma EvaluatedSound(op: BinaryOp, a: APSInt, b: APSInt)
    requires Evaluable(op, a, b)
    ensures Arith(op, ResultType(op, a), Value(a), Value(b)).Some? ==>
              && Evaluated(op, a, b).Some?
              && Value(Evaluated(op, a, b).value) == Arith(op, ResultType(op, a), Value(a), Value(b)).value
  {
    var ty := ResultType(op, a);
    if Shift(op) {
      if Arith(op, ty, Value(a), Value(b)).Some? {
        assert b.bits == Value(b) + Excess(b) * Pow2(b.width);
        ShiftSound(op, ty, a, b);
      }
    } else {
      OnValuesSound(op, ty, a, b);
    }
  }

  /** Exactly the shifts by less than nothing or more than the width fail; everything else wraps around. */
  lemma EvaluatedIff(op: BinaryOp, a: APSInt, b: APSInt)
    requires Evaluable(op, a, b)
    ensures Evaluated(op, a, b).None? <==> Shift(op) && !(0 <= Value(b) <= a.width)
    ensures Evaluated(op, a, b).Some? ==>
              Evaluated(op, a, b) ==
              Encoded(ResultType(op, a), Computed(op, ResultType(op, a), Value(a), Value(b), if Shift(op) then Value(b) else 0))
  {
    var ty := ResultType(op, a);
    if Shift(op) {
      assert b.bits == Value(b) + Excess(b) * Pow2(b.width);
      ShiftWraps(ty, a, b.bits);
    } else {
      ZeroValue(b);
      OnValuesWraps(op, ty, a, b);
    }
  }

  // --------------------------------------------------------------------------- the factory

  class BasicValueFactory {
    var nodes: Nodes
    var index: map<APSInt, Ref>

    ghost predicate Valid()
      reads this
    {
      && Interned(nodes)
      && (forall x <- index :: index[x] < |nodes| && nodes[index[x]] == x)
      && (forall r :: 0 <= r < |nodes| ==> nodes[r] in index)
    }

    constructor ()
      ensures Valid() && nodes == []
    {
      nodes := [];
      index := map[];
    }

    /** The node of `x`: the one there is, or a new one. */
    method GetValue(x: APSInt) returns (r: Ref)
      requires Valid() && MachineInts.Valid(x)
      modifies this
      ensures Valid() && r < |nodes| && nodes[r] == x
      ensures nodes == if x in old(nodes) then old(nodes) else old(nodes) + [x]
    {
      if x !in index {
        index := index[x := |nodes|];
        nodes := nodes + [x];
      }
      r := index[x];
    }

    /** The low bits of `x` as an integer of the given width and signedness. */
    method GetValueOfWidth(x: nat, width: nat, unsigned: bool) returns (r: Ref)
      requires Valid() && width >= 1
      modifies this
      ensures Valid() && old(nodes) <= nodes && r < |nodes|
      ensures nodes[r] == Encode(IntTy(width, !unsigned, false), x)
    {
      r := GetValue(Encode(IntTy(width, !unsigned, false), x));
    }

    method EvaluateAPSInt(op: BinaryOp, v1: Ref, v2: Ref) returns (r: Option<Ref>)
      requires Valid() && v1 < |nodes| && v2 < |nodes| && Evaluable(op, nodes[v1], nodes[v2])
      modifies this
      ensures Valid() && old(nodes) <= nodes
      ensures r.None? <==> Evaluated(op, old(nodes[v1]), old(nodes[v2])).None?
      ensures r.Some? ==> r.value < |nodes| && Some(nodes[r.value]) == Evaluated(op, nodes[v1], nodes[v2])
    {
      var a, b := nodes[v1], nodes[v2];
      if Shift(op) {
        if !b.unsigned && Negative(b) {
          return None;
        }
        if b.bits > a.width {
          return None;
        }
      }
      var value := Evaluated(op, a, b);
      if value.None? {
        DivisionIsDefined(op, a, b);
        assert false;
        return None;
      }
      var ref := GetValue(value.value);
      r := Some(ref);
    }
  }

  lemma DivisionIsDefined(op: BinaryOp, a: APSInt, b: APSInt)
    requires Evaluable(op, a, b) && !Shift(op)
    ensures Evaluated(op, a, b).Some?
  {
  }

  /** Two requests give one address exactly when they ask for one integer. */
  lemma RequestsAgree(before: Nodes, after: Nodes, r: Ref, s: Ref, x: APSInt, y: APSInt)
    requires Interned(after) && before <= after
    requires r < |before| && before[r] == x && s < |after| && after[s] == y
    ensures r == s <==> x.width == y.width && x.unsigned == y.unsigned && Value(x) == Value(y)
  {
    AddressIsValue(after, r, s);
  }
}
