/**
  The constructors of uniqued types and the computation of canonical types.

  Each constructor looks its key up; if the key is new and some part is not canonical, it
  first builds the same type from the canonical parts, which inserts into the same table,
  and only then inserts the node it was asked for.
 */
module TypeContext {
  import opened Qualifiers
  import opened TypeGraph

  /** The index of the table: where the node of each key is. */
  ghost predicate Indexed(types: Types, folding: map<Key, nat>) {
    && (forall k <- folding :: folding[k] < |types| && types[folding[k]].key == k)
    && (forall i :: 0 <= i < |types| ==> types[i].key in folding)
  }

  predicate CanonNodes(types: Types, parts: seq<QualType>) {
    forall k :: 0 <= k < |parts| ==> CanonNode(types, parts[k].node)
  }

  /**
    What a constructor asks of its parts: when it will not canonicalize them, none of them
    is an array that itself carries qualifiers.
   */
  predicate Settled(types: Types, parts: seq<QualType>) {
    CanonNodes(types, parts) ==> CanonParts(types, parts)
  }

  predicate Known(types: Types, parts: seq<QualType>) {
    forall k :: 0 <= k < |parts| ==> parts[k].node < |types|
  }

  /** The table grew by canonical nodes and, possibly, the node `last`. */
  ghost predicate Grew(before: Types, after: Types, last: nat) {
    && before <= after
    && Uniqued(after)
    && forall i :: |before| <= i < |after| && i != last ==> CanonNode(after, i)
  }

  /** `r` is the one node of the key, and means what the key says. */
  ghost predicate Made(before: Types, after: Types, key: Key, r: QualType) {
    && Grew(before, after, r.node)
    && r.node < |after| && r.quals == NONE && after[r.node].key == key
    && Grounded(before) && Known(before, key.parts)
    && Norm(after, r) == Plain(key.shape, NormAll(before, key.parts, |before|))
    && (!key.shape.Typedef? && CanonParts(before, key.parts) ==> Canon(after, r))
    && ((exists i :: 0 <= i < |before| && before[i].key == key) ==> after == before)
  }

  /**
    What a constructor returns.  Given parts that are not settled it takes a new node to be
    canonical that is not.
   */
  ghost predicate Constructed(before: Types, after: Types, key: Key, r: QualType) {
    if Settled(before, key.parts) || Has(before, key) then Made(before, after, key, r)
    else r == QualType(|before|, NONE) && after == before + [Node(key, r)] && !Uniqued(after)
  }

  ghost predicate Has(types: Types, key: Key) {
    exists i :: 0 <= i < |types| && types[i].key == key
  }

  /** A canonical type for `t`; canonical types are their own. */
  ghost predicate Canonicalized(before: Types, after: Types, t: QualType, r: QualType) {
    && Grew(before, after, |after|)
    && Canon(after, r)
    && Grounded(before) && t.node < |before|
    && Norm(after, r) == Norm(before, t)
    && (Canon(before, t) ==> r == t && after == before)
  }

  // ------------------------------------------------------------------------------ lemmas

  lemma GrewTwice(a: Types, b: Types, c: Types, last: nat)
    requires Grew(a, b, |b|) && Grew(b, c, last)
    ensures Grew(a, c, last)
  {
    forall i | |a| <= i < |c| && i != last ensures CanonNode(c, i) {
      if i < |b| { assert CanonNode(b, i); }
    }
  }

  /** The nodes built on the way are canonical, so none of them has the key being built. */
  lemma NeverInserted(before: Types, after: Types, key: Key)
    requires Grew(before, after, |after|) && Known(before, key.parts)
    requires !CanonNodes(before, key.parts)
    requires forall i :: 0 <= i < |before| ==> before[i].key != key
    ensures forall i :: 0 <= i < |after| ==> after[i].key != key
  {
    var k :| 0 <= k < |key.parts| && !CanonNode(before, key.parts[k].node);
    assert !Canon(after, key.parts[k]);
    forall i | 0 <= i < |after| ensures after[i].key != key {
      if i < |before| {
        assert after[i] == before[i];
      } else {
        assert CanonNode(after, i) && Recorded(after, i);
        assert CanonParts(after, after[i].key.parts);
      }
    }
  }

  lemma FoundIsMade(types: Types, key: Key, i: nat)
    requires Uniqued(types) && i < |types| && types[i].key == key
    requires Known(types, key.parts)
    ensures Made(types, types, key, QualType(i, NONE))
  {
    assert Recorded(types, i);
    NormOfKey(types, i);
    assert NormAll(types, key.parts, i) == NormAll(types, key.parts, |types|);
    if !key.shape.Typedef? && CanonParts(types, key.parts) {
      var c := types[i].canon;
      CanonShape(types, c);
      assert NormAll(types, key.parts, i) == NormAll(types, types[c.node].key.parts, c.node);
      SamePartsSameKey(types, key, c);
    }
  }

  /** A canonical type with the structure of a key with canonical parts has that key. */
  lemma {:induction false} SamePartsSameKey(types: Types, key: Key, c: QualType)
    requires Uniqued(types) && Canon(types, c) && Known(types, key.parts) && CanonParts(types, key.parts)
    requires Based(types[c.node].key, c.node)
    requires NormAll(types, key.parts, |types|) == NormAll(types, types[c.node].key.parts, c.node)
    ensures types[c.node].key.parts == key.parts
  {
    var parts := types[c.node].key.parts;
    assert Recorded(types, c.node);
    var a, b := NormAll(types, key.parts, |types|), NormAll(types, parts, c.node);
    forall k | 0 <= k < |parts| ensures parts[k] == key.parts[k] {
      assert a[k] == b[k];
      CanonicalIsUnique(types, parts[k], key.parts[k]);
    }
  }

  /** Appending the node for a key, after the table grew from `before` to `types`. */
  lemma AppendedIsMade(before: Types, types: Types, key: Key, canon: QualType)
    requires Grew(before, types, |types|) && Uniqued(before) && Known(before, key.parts)
    requires Based(key, |types|) && MayRecord(types, key, canon)
    requires forall i :: 0 <= i < |types| ==> types[i].key != key
    requires CanonParts(before, key.parts) && !key.shape.Typedef? ==> canon == QualType(|types|, NONE)
    ensures Made(before, types + [Node(key, canon)], key, QualType(|types|, NONE))
  {
    var after, i := types + [Node(key, canon)], |types|;
    Appended(types, key, canon);
    NormOfKey(after, i);
    var a, b := NormAll(before, key.parts, |before|), NormAll(after, key.parts, i);
    forall k | 0 <= k < |a| ensures a[k] == b[k] { NormStable(before, after, key.parts[k]); }
    assert a == b;
    forall j | |before| <= j < |after| && j != i ensures CanonNode(after, j) {
      assert CanonNode(types, j);
    }
    assert forall j :: 0 <= j < |before| ==> before[j] == types[j];
  }

  /** `c` is the canonical type of `p`. */
  ghost predicate CanonOf(before: Types, now: Types, p: QualType, c: QualType) {
    && Grounded(before) && Grounded(now)
    && p.node < |before| && Canon(now, c)
    && Norm(now, c) == Norm(before, p)
  }

  ghost predicate CanonPartsOf(before: Types, now: Types, parts: seq<QualType>, canonical: seq<QualType>) {
    && |canonical| == |parts|
    && forall k :: 0 <= k < |parts| ==> CanonOf(before, now, parts[k], canonical[k])
  }

  lemma CanonOfStable(before: Types, now: Types, later: Types, p: QualType, c: QualType)
    requires CanonOf(before, now, p, c) && now <= later && Grounded(later)
    ensures CanonOf(before, later, p, c)
  {
    NormStable(now, later, c);
  }

  /** The type built from the canonical parts is one the node for the parts may record. */
  lemma RecursionIsRight(before: Types, middle: Types, last: Types, key: Key,
                         canonical: seq<QualType>, c: QualType)
    requires Uniqued(before) && Grew(before, middle, |middle|) && !key.shape.Typedef?
    requires Arity(key.shape, |key.parts|) && Known(before, key.parts)
    requires CanonPartsOf(before, middle, key.parts, canonical)
    requires Made(middle, last, Key(key.shape, canonical), c)
    ensures Grew(before, last, |last|)
    ensures Based(key, |last|) && MayRecord(last, key, c)
  {
    assert forall k :: 0 <= k < |key.parts| ==> CanonOf(before, middle, key.parts[k], canonical[k]);
    assert CanonParts(middle, canonical);
    assert Canon(last, c);
    assert Grew(middle, last, |last|);
    GrewTwice(before, middle, last, |last|);
    forall k | 0 <= k < |canonical|
      ensures Canon(last, canonical[k]) && Norm(last, canonical[k]) == Norm(last, key.parts[k])
    {
      assert CanonOf(before, middle, key.parts[k], canonical[k]);
      NormStable(middle, last, canonical[k]);
      NormStable(before, last, key.parts[k]);
    }
    CanonicalOfParts(last, key, c, canonical);
  }

  /** Moving the qualifiers of an array to its element, and building the array of that. */
  lemma ArrayIsRight(before: Types, middle: Types, last: Types, t: QualType, elem: QualType, r: QualType)
    requires Uniqued(before) && t.node < |before|
    requires Canon(before, before[t.node].canon)
    requires var c := before[t.node].canon;
             var key := before[c.node].key;
             && IsArray(key.shape) && |key.parts| == 1 && Based(key, c.node)
             && Both(t.quals, c.quals) != NONE
             && Canonicalized(before, middle, QualType(key.parts[0].node, Both(key.parts[0].quals, t.quals)), elem)
             && Made(middle, last, Key(key.shape, [elem]), r)
    ensures Canonicalized(before, last, t, r)
  {
    var c := before[t.node].canon;
    var e := before[c.node].key.parts[0];
    QualifiedCanon(before, t);
    assert CanonParts(middle, [elem]);
    assert Canon(last, r) && Grew(middle, last, |last|);
    GrewTwice(before, middle, last, |last|);
    NormStable(middle, last, elem);
    NormStable(before, last, QualType(e.node, Both(e.quals, t.quals)));
    NormStable(before, last, QualType(c.node, Both(c.quals, t.quals)));
    assert Canon(last, c) && Canon(last, elem);
    QualifiedArray(last, c, t.quals, r, elem);
    assert !Canon(before, t);
  }

  /** Canonicalizing neither drops nor adds a qualifier. */
  lemma {:induction false} CanonicalCarries(before: Types, after: Types, t: QualType, r: QualType)
    requires Canonicalized(before, after, t, r)
    ensures Grounded(before) && t.node < |before| && Grounded(after) && r.node < |after|
    ensures forall which :: Carries(after, r, which) <==> Carries(before, t, which)
  {
    hide Norm, Carries, Recorded;
    forall which ensures Carries(after, r, which) <==> Carries(before, t, which) {
      NormCarries(before, t, which);
      NormCarries(after, r, which);
    }
  }

  /** Anything but a qualified array: the recorded type with the qualifiers joined. */
  lemma DirectIsRight(types: Types, t: QualType)
    requires Uniqued(types) && t.node < |types|
    ensures Canon(types, types[t.node].canon)
    ensures var c := types[t.node].canon;
            var quals := Both(t.quals, c.quals);
            quals == NONE || !IsArray(types[c.node].key.shape) ==>
              Canonicalized(types, types, t, QualType(c.node, quals))
  {
    assert Recorded(types, t.node);
    QualifiedCanon(types, t);
    var c := types[t.node].canon;
    assert Both(c.quals, t.quals) == Both(t.quals, c.quals);
    if Canon(types, t) {
      assert c == QualType(t.node, NONE);
      assert Both(t.quals, NONE) == t.quals;
    }
  }

  lemma OneMore(before: Types, now: Types, later: Types, t: QualType, c: QualType)
    requires Grew(before, now, |now|) && Canonicalized(now, later, t, c)
    requires Uniqued(before) && t.node < |before|
    ensures Grew(before, later, |later|) && Grounded(later) && now <= later
    ensures CanonOf(before, later, t, c)
  {
    GrewTwice(before, now, later, |later|);
    NormStable(before, now, t);
  }

  lemma ElementFacts(before: Types, middle: Types, t: QualType, elem: QualType)
    requires Canonicalized(before, middle, t, elem)
    ensures Known(middle, [elem]) && Settled(middle, [elem]) && CanonNodes(middle, [elem])
  {
  }

  lemma CanonicalPartsFacts(before: Types, middle: Types, parts: seq<QualType>, canonical: seq<QualType>)
    requires CanonPartsOf(before, middle, parts, canonical)
    ensures |canonical| == |parts|
    ensures Known(middle, canonical) && Settled(middle, canonical) && CanonNodes(middle, canonical)
  {
    assert forall k :: 0 <= k < |parts| ==> CanonOf(before, middle, parts[k], canonical[k]);
  }

  lemma NotCanonParts(types: Types, parts: seq<QualType>)
    requires !CanonNodes(types, parts)
    ensures !CanonParts(types, parts)
  {
    var k :| 0 <= k < |parts| && !CanonNode(types, parts[k].node);
    assert !Canon(types, parts[k]);
  }

  lemma MadeIsUniqued(before: Types, after: Types, key: Key, r: QualType)
    requires Made(before, after, key, r)
    ensures Uniqued(after)
  {
  }

  lemma CanonicalMayRecord(types: Types, key: Key)
    requires Uniqued(types) && !key.shape.Typedef? && Arity(key.shape, |key.parts|)
    requires Known(types, key.parts) && CanonParts(types, key.parts)
    ensures Grew(types, types, |types|)
    ensures Based(key, |types|) && MayRecord(types, key, QualType(|types|, NONE))
  {
  }

  /** A node for parts that are not settled breaks the invariant, whatever else is in the table. */
  lemma UnsettledIsNotRecorded(types: Types, key: Key)
    requires Uniqued(types) && !Settled(types, key.parts) && Known(types, key.parts)
    ensures !Uniqued(types + [Node(key, QualType(|types|, NONE))])
  {
    var after := types + [Node(key, QualType(|types|, NONE))];
    var k :| 0 <= k < |key.parts| && !Canon(types, key.parts[k]);
    assert !Canon(after, key.parts[k]);
    assert CanonNode(after, |types|) && !CanonParts(after, after[|types|].key.parts);
    assert Grounded(after) ==> !Recorded(after, |types|);
  }

  class ASTContext {
    var types: Types
    var folding: map<Key, nat>

    ghost predicate Valid()
      reads this
    {
      Uniqued(types) && Indexed(types, folding)
    }

    constructor ()
      ensures Valid() && types == []
    {
      types := [];
      folding := map[];
    }

    method Insert(key: Key, canon: QualType) returns (r: QualType)
      requires Indexed(types, folding) && key !in folding
      modifies this
      ensures types == old(types) + [Node(key, canon)] && Indexed(types, folding)
      ensures r == QualType(|old(types)|, NONE)
    {
      r := QualType(|types|, NONE);
      folding := folding[key := |types|];
      types := types + [Node(key, canon)];
    }

    /** The shape shared by the constructors of pointer, complex, array and function types. */
    method GetUniqued(shape: Shape, parts: seq<QualType>) returns (r: QualType)
      requires Valid() && !shape.Typedef? && Arity(shape, |parts|) && Known(types, parts)
      modifies this
      ensures Indexed(types, folding) && Constructed(old(types), types, Key(shape, parts), r)
      decreases if CanonNodes(types, parts) then 0 else 2, 0, 0
    {
      hide Uniqued, Norm, NormAll, Plain, Recorded, Made, Grew, MayRecord, CanonPartsOf;
      var key := Key(shape, parts);
      if key in folding {
        FoundIsMade(types, key, folding[key]);
        assert types[folding[key]].key == key;
        return QualType(folding[key], NONE);
      }
      var isCanonical := true;
      var i := 0;
      while i < |parts| && isCanonical
        invariant 0 <= i <= |parts|
        invariant isCanonical ==> forall k :: 0 <= k < i ==> CanonNode(types, parts[k].node)
        invariant !isCanonical ==> !CanonNodes(types, parts)
      {
        if !CanonNode(types, parts[i].node) { isCanonical := false; }
        i := i + 1;
      }
      ghost var before := types;
      assert forall j :: 0 <= j < |before| ==> before[j].key != key;
      if isCanonical {
        assert CanonNodes(types, parts);
        r := Insert(key, QualType(|types|, NONE));
        if Settled(before, parts) {
          CanonicalMayRecord(before, key);
          AppendedIsMade(before, before, key, QualType(|before|, NONE));
        } else {
          UnsettledIsNotRecorded(before, key);
        }
      } else {
        var canonical := GetCanonicalParts(parts);
        ghost var middle := types;
        CanonicalPartsFacts(before, middle, parts, canonical);
        var c := GetUniqued(shape, canonical);
        ghost var last := types;
        assert Made(middle, last, Key(shape, canonical), c);
        MadeIsUniqued(middle, last, Key(shape, canonical), c);
        RecursionIsRight(before, middle, last, key, canonical, c);
        NeverInserted(before, last, key);
        assert key !in folding;
        r := Insert(key, c);
        NotCanonParts(before, parts);
        AppendedIsMade(before, last, key, c);
      }
    }

    /** The parameters are canonicalized in order, and the result after them. */
    method GetCanonicalParts(parts: seq<QualType>) returns (canonical: seq<QualType>)
      requires Valid() && Known(types, parts) && |parts| >= 1
      modifies this
      ensures Valid() && Grew(old(types), types, |types|)
      ensures CanonPartsOf(old(types), types, parts, canonical)
      decreases 1, |types|, 1
    {
      hide Uniqued, Norm, Recorded, CanonOf;
      ghost var before := types;
      canonical := parts;
      var i := 1;
      while i < |parts|
        invariant Valid() && 1 <= i <= |parts| == |canonical|
        invariant Grew(before, types, |types|)
        invariant forall k :: 1 <= k < i ==> CanonOf(before, types, parts[k], canonical[k])
      {
        ghost var now := types;
        var c := GetCanonicalType(parts[i]);
        OneMore(before, now, types, parts[i], c);
        forall k | 1 <= k < i ensures CanonOf(before, types, parts[k], canonical[k]) {
          CanonOfStable(before, now, types, parts[k], canonical[k]);
        }
        canonical := canonical[i := c];
        i := i + 1;
      }
      ghost var now := types;
      var c := GetCanonicalType(parts[0]);
      OneMore(before, now, types, parts[0], c);
      forall k | 1 <= k < |parts| ensures CanonOf(before, types, parts[k], canonical[k]) {
        CanonOfStable(before, now, types, parts[k], canonical[k]);
      }
      canonical := canonical[0 := c];
    }

    method GetCanonicalType(t: QualType) returns (r: QualType)
      requires Valid() && t.node < |types|
      modifies this
      ensures Valid() && Canonicalized(old(types), types, t, r)
      ensures forall which :: Carries(types, r, which) <==> Carries(old(types), t, which)
      decreases 1, t.node, 0
    {
      hide Norm, Made, Canonicalized, Carries;
      ghost var before := types;
      var c := types[t.node].canon;
      var quals := Both(t.quals, c.quals);
      DirectIsRight(types, t);
      assert Recorded(types, t.node);
      if quals == NONE {
        CanonicalCarries(before, types, t, c);
        return c;
      }
      if !IsArray(types[c.node].key.shape) {
        CanonicalCarries(before, types, t, QualType(c.node, quals));
        return QualType(c.node, quals);
      }
      var array_ := types[c.node].key;
      assert Based(array_, c.node);
      var elem := QualType(array_.parts[0].node, Both(array_.parts[0].quals, quals));
      elem := GetCanonicalType(elem);
      ghost var middle := types;
      ElementFacts(before, middle, QualType(array_.parts[0].node, Both(array_.parts[0].quals, quals)), elem);
      r := GetUniqued(array_.shape, [elem]);
      assert Made(middle, types, Key(array_.shape, [elem]), r);
      MadeIsUniqued(middle, types, Key(array_.shape, [elem]), r);
      assert quals == t.quals;
      ArrayIsRight(before, middle, types, t, elem, r);
      CanonicalCarries(before, types, t, r);
    }

    /** The node of a typedef records the canonical type of what it names. */
    method GetTypedefType(name: nat, underlying: QualType) returns (r: QualType)
      requires Valid() && underlying.node < |types|
      modifies this
      ensures Valid() && Made(old(types), types, Key(Typedef(name), [underlying]), r)
    {
      hide Uniqued, Norm, NormAll, Plain, Recorded, Made, Grew, MayRecord;
      var key := Key(Typedef(name), [underlying]);
      if key in folding {
        FoundIsMade(types, key, folding[key]);
        return QualType(folding[key], NONE);
      }
      ghost var before := types;
      assert forall j :: 0 <= j < |before| ==> before[j].key != key;
      var c := GetCanonicalType(underlying);
      ghost var last := types;
      TypedefMayRecord(before, last, key, c);
      assert key !in folding;
      r := Insert(key, c);
      AppendedIsMade(before, last, key, c);
      MadeIsUniqued(before, types, key, r);
    }

    method GetPointerType(t: QualType) returns (r: QualType)
      requires Valid() && Known(types, [t])
      modifies this
      ensures Indexed(types, folding) && Constructed(old(types), types, Key(Pointer, [t]), r)
    {
      r := GetUniqued(Pointer, [t]);
    }

    method GetComplexType(t: QualType) returns (r: QualType)
      requires Valid() && Known(types, [t])
      modifies this
      ensures Indexed(types, folding) && Constructed(old(types), types, Key(Complex, [t]), r)
    {
      r := GetUniqued(Complex, [t]);
    }

    method GetConstantArrayType(elem: QualType, size: nat, modifier: nat, index: Quals) returns (r: QualType)
      requires Valid() && Known(types, [elem])
      modifies this
      ensures Indexed(types, folding) && Constructed(old(types), types, Key(ConstantArray(size, modifier, index), [elem]), r)
    {
      r := GetUniqued(ConstantArray(size, modifier, index), [elem]);
    }

    method GetIncompleteArrayType(elem: QualType, modifier: nat, index: Quals) returns (r: QualType)
      requires Valid() && Known(types, [elem])
      modifies this
      ensures Indexed(types, folding) && Constructed(old(types), types, Key(IncompleteArray(modifier, index), [elem]), r)
    {
      r := GetUniqued(IncompleteArray(modifier, index), [elem]);
    }

    method GetFunctionNoProtoType(result: QualType) returns (r: QualType)
      requires Valid() && Known(types, [result])
      modifies this
      ensures Indexed(types, folding) && Constructed(old(types), types, Key(FunctionNoProto, [result]), r)
    {
      r := GetUniqued(FunctionNoProto, [result]);
    }

    method GetFunctionType(result: QualType, args: seq<QualType>, variadic: bool, onThis: Quals)
      returns (r: QualType)
      requires Valid() && Known(types, [result] + args)
      modifies this
      ensures Indexed(types, folding) && Constructed(old(types), types, Key(FunctionProto(variadic, onThis), [result] + args), r)
    {
      r := GetUniqued(FunctionProto(variadic, onThis), [result] + args);
    }

    /** Comparing canonical types by address and qualifiers compares structures. */
    method SameType(a: QualType, b: QualType) returns (same: bool)
      requires Valid() && a.node < |types| && b.node < |types|
      modifies this
      ensures Valid() && Grew(old(types), types, |types|)
      ensures same <==> Norm(old(types), a) == Norm(old(types), b)
      ensures same ==> forall which :: Carries(old(types), a, which) <==> Carries(old(types), b, which)
    {
      hide Norm, Carries;
      ghost var before := types;
      var ca := GetCanonicalType(a);
      ghost var middle := types;
      NormStable(before, middle, b);
      var cb := GetCanonicalType(b);
      SameCanonicalIff(before, middle, types, a, b, ca, cb);
      GrewTwice(before, middle, types, |types|);
      same := ca == cb;
      if same { AlikeCarry(before, a, b); }
    }
  }

  // ------------------------------------------------------------------------ main results

  /** Types that mean the same carry the same qualifiers. */
  lemma {:induction false} AlikeCarry(types: Types, a: QualType, b: QualType)
    requires Grounded(types) && a.node < |types| && b.node < |types| && Norm(types, a) == Norm(types, b)
    ensures forall which :: Carries(types, a, which) <==> Carries(types, b, which)
  {
    hide Norm, Carries;
    forall which ensures Carries(types, a, which) <==> Carries(types, b, which) {
      NormCarries(types, a, which);
      NormCarries(types, b, which);
    }
  }

  /** Two types have one canonical type exactly when they mean the same. */
  lemma {:induction false} SameCanonicalIff(before: Types, middle: Types, last: Types,
                         a: QualType, b: QualType, ca: QualType, cb: QualType)
    requires Grounded(before) && a.node < |before| && b.node < |before|
    requires Canonicalized(before, middle, a, ca) && Canonicalized(middle, last, b, cb)
    ensures ca == cb <==> Norm(before, a) == Norm(before, b)
  {
    NormStable(before, middle, b);
    NormStable(middle, last, ca);
    assert Canon(last, ca);
    CanonicalIsUnique(last, ca, cb);
  }

  /** The canonical type of a canonical type is itself, and nothing is inserted. */
  lemma CanonicalIsIdempotent(before: Types, middle: Types, last: Types,
                              t: QualType, c: QualType, again: QualType)
    requires Canonicalized(before, middle, t, c) && Canonicalized(middle, last, c, again)
    ensures again == c && last == middle
  {
  }

  /** A constructor called twice gives one node; called with different parts, two. */
  lemma ConstructorsAreInjective(a: Types, b: Types, c: Types, k: Key, l: Key, r: QualType, s: QualType)
    requires Made(a, b, k, r) && Made(b, c, l, s)
    ensures r == s <==> k == l
    ensures k == l ==> c == b
  {
    assert c[r.node] == b[r.node];
    if k == l { assert b[r.node].key == l; }
  }

  /**
    Why the parts must be settled.  A node inserted for canonical parts one of which is a
    qualified array is taken to be canonical, although a canonical type `r` with the same
    structure is already there.
   */
  lemma {:induction false} UnsettledPartsBreak(types: Types, key: Key, r: QualType)
    requires Uniqued(types) && Based(key, |types|) && CanonNodes(types, key.parts)
    requires !Settled(types, key.parts) && !key.shape.Typedef?
    requires Canon(types, r) && Norm(types, r) == Plain(key.shape, NormAll(types, key.parts, |types|))
    ensures var twin := QualType(|types|, NONE);
            var after := types + [Node(key, twin)];
            Grounded(after) && Norm(after, twin) == Norm(after, r) &&
            after[twin.node].canon == twin && after[r.node].canon.node == r.node && twin.node != r.node
  {
    var twin := QualType(|types|, NONE);
    var after := types + [Node(key, twin)];
    forall i | 0 <= i < |after| ensures Based(after[i].key, i) {
      assert i < |types| ==> Based(types[i].key, i);
    }
    NormStable(types, after, r);
    NormOfKey(after, |types|);
    var a, b := NormAll(types, key.parts, |types|), NormAll(after, key.parts, |types|);
    forall k | 0 <= k < |a| ensures a[k] == b[k] { NormStable(types, after, key.parts[k]); }
    assert a == b;
  }

  /**
    The same when it comes first.  Once the type of the canonical parts is constructed too,
    there are two nodes for one structure that both are taken to be canonical.
   */
  lemma UnsettledFirst(types: Types, key: Key, canonical: seq<QualType>)
    requires Uniqued(types) && Based(key, |types|) && !key.shape.Typedef? && !Settled(types, key.parts)
    requires CanonPartsOf(types, types, key.parts, canonical)
    ensures var n := |types|;
            var settled := Key(key.shape, canonical);
            var after := types + [Node(key, QualType(n, NONE)), Node(settled, QualType(n + 1, NONE))];
            && settled != key && Settled(types, canonical) && CanonNodes(types, canonical) && Grounded(after)
            && Norm(after, QualType(n, NONE)) == Norm(after, QualType(n + 1, NONE))
  {
    hide *;
    var n, settled := |types|, Key(key.shape, canonical);
    DifferentParts(types, key, canonical);
    TwoMore(types, key, settled);
    Alike(types, types + [Node(key, QualType(n, NONE)), Node(settled, QualType(n + 1, NONE))], key, settled);
  }

  lemma {:induction false} Alike(types: Types, after: Types, key: Key, other: Key)
    requires Grounded(types) && Grounded(after) && types <= after && |after| == |types| + 2
    requires after[|types|].key == key && after[|types| + 1].key == other && key.shape == other.shape
    requires CanonPartsOf(types, types, key.parts, other.parts)
    ensures Norm(after, QualType(|types|, NONE)) == Norm(after, QualType(|types| + 1, NONE))
  {
    var n := |types|;
    assert Based(after[n].key, n) && Based(after[n + 1].key, n + 1);
    hide Norm, NormAll, Plain, Canon, Grounded, Based;
    forall k | 0 <= k < |key.parts| ensures Norm(after, key.parts[k]) == Norm(after, other.parts[k]) {
      NormStable(types, after, key.parts[k]);
      NormStable(types, after, other.parts[k]);
    }
    KeysAlike(after, n, n + 1);
  }

  lemma TwoMore(types: Types, key: Key, other: Key)
    requires Grounded(types) && Based(key, |types|) && Based(other, |types|)
    ensures var n := |types|;
            var after := types + [Node(key, QualType(n, NONE)), Node(other, QualType(n + 1, NONE))];
            && Grounded(after) && types <= after && |after| == n + 2 && after[n].key == key && after[n + 1].key == other
            && Based(key, n) && Based(other, n + 1)
  {
    var n := |types|;
    var after := types + [Node(key, QualType(n, NONE)), Node(other, QualType(n + 1, NONE))];
    forall i | 0 <= i < |after| ensures Based(after[i].key, i) {
      assert i < n ==> Based(types[i].key, i) && after[i] == types[i];
    }
  }

  lemma DifferentParts(types: Types, key: Key, canonical: seq<QualType>)
    requires Uniqued(types) && Based(key, |types|) && !Settled(types, key.parts)
    requires CanonPartsOf(types, types, key.parts, canonical)
    ensures Grounded(types) && Based(Key(key.shape, canonical), |types|) && Key(key.shape, canonical) != key
    ensures CanonNodes(types, canonical) && Settled(types, canonical)
  {
    hide Norm;
    var k :| 0 <= k < |key.parts| && !Canon(types, key.parts[k]);
    assert canonical[k] != key.parts[k];
  }

  lemma {:induction false} KeysAlike(types: Types, i: nat, j: nat)
    requires Grounded(types) && i < |types| && j < |types| && types[i].key.shape == types[j].key.shape
    requires |types[i].key.parts| == |types[j].key.parts| && Based(types[i].key, i) && Based(types[j].key, j)
    requires forall k :: 0 <= k < |types[i].key.parts| ==> Norm(types, types[i].key.parts[k]) == Norm(types, types[j].key.parts[k])
    ensures Norm(types, QualType(i, NONE)) == Norm(types, QualType(j, NONE))
  {
    hide Norm, Plain;
    NormOfKey(types, i);
    NormOfKey(types, j);
    assert NormAll(types, types[i].key.parts, i) == NormAll(types, types[j].key.parts, j);
  }

  const CONST: Quals := NONE.(c := true)
  const THREE: Shape := ConstantArray(3, 0, NONE)

  /** `int`, its array of three, that of `const int`, and the pointer to the latter. */
  const KEYS: seq<Key> := [Key(Builtin(0), []), Key(THREE, [QualType(0, NONE)]), Key(THREE, [QualType(0, CONST)]),
                           Key(Pointer, [QualType(2, NONE)])]

  lemma FourTypes()
    ensures Uniqued(Selves(KEYS))
  {
    var types := Selves(KEYS);
    forall i | 0 <= i < 4 ensures Based(types[i].key, i) {}
    forall i | 0 <= i < 4 ensures Recorded(types, i) {
      assert types[i] == Node(KEYS[i], QualType(i, NONE));
    }
  }

  /** A `const` array of `int` is an array of `const int`. */
  lemma ArraysAlike()
    ensures Uniqued(Selves(KEYS)) && Norm(Selves(KEYS), QualType(1, CONST)) == Norm(Selves(KEYS), QualType(2, NONE))
  {
    FourTypes();
    var types := Selves(KEYS);
    assert types[1].key == KEYS[1] && types[2].key == KEYS[2];
    hide Uniqued;
    NormQuals(types, 1, NONE, CONST);
    NormOfKey(types, 1);
    NormOfKey(types, 2);
    NormQuals(types, 0, NONE, CONST);
    NormQuals(types, 0, CONST, NONE);
    assert NormAll(types, [QualType(0, NONE)], 1) == [Norm(types, QualType(0, NONE))];
    assert NormAll(types, [QualType(0, CONST)], 2) == [Norm(types, QualType(0, CONST))];
  }

  /** Pointer to `const` array of `int`, beside pointer to array of `const int`. */
  lemma PointerToQualifiedArray()
    ensures var types, key := Selves(KEYS), Key(Pointer, [QualType(1, CONST)]);
            var after := types + [Node(key, QualType(4, NONE))];
            Uniqued(types) && Grounded(after) && Norm(after, QualType(4, NONE)) == Norm(after, QualType(3, NONE))
  {
    var types, key, r := Selves(KEYS), Key(Pointer, [QualType(1, CONST)]), QualType(3, NONE);
    FourTypes();
    ArraysAlike();
    assert types[1].key == KEYS[1] && types[3] == Node(KEYS[3], QualType(3, NONE));
    assert !Canon(types, key.parts[0]) && CanonNodes(types, key.parts);
    CanonShape(types, r);
    hide Norm;
    assert NormAll(types, key.parts, 4) == NormAll(types, [QualType(2, NONE)], 3);
    UnsettledPartsBreak(types, key, r);
  }

  /** A table of canonical nodes. */
  function Selves(keys: seq<Key>): (types: Types)
    ensures |types| == |keys|
    ensures forall i :: 0 <= i < |keys| ==> types[i] == Node(keys[i], QualType(i, NONE))
  {
    seq(|keys|, i requires 0 <= i < |keys| => Node(keys[i], QualType(i, NONE)))
  }

  lemma TypedefMayRecord(before: Types, last: Types, key: Key, c: QualType)
    requires Uniqued(before) && key.shape.Typedef? && |key.parts| == 1 && Known(before, key.parts)
    requires Canonicalized(before, last, key.parts[0], c)
    requires forall j :: 0 <= j < |before| ==> before[j].key != key
    ensures Grew(before, last, |last|) && Uniqued(last)
    ensures Based(key, |last|) && MayRecord(last, key, c)
    ensures forall j :: 0 <= j < |last| ==> last[j].key != key
  {
    NormStable(before, last, key.parts[0]);
    forall j | 0 <= j < |last| ensures last[j].key != key {
      assert Recorded(last, j);
      if j < |before| { assert last[j] == before[j]; } else { assert CanonNode(last, j); }
    }
  }
}
