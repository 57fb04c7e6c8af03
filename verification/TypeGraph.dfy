/**
  Uniqued types as nodes of a table, and the structure a type stands for (sections 6.2.5,
  6.7.3 and 6.7.7 of C99).

  A node's place in the table stands for its address.  A node is described by a key: its
  shape and the qualified types it is made of.  `Norm` is what a qualified type means: the
  tree left once typedefs are replaced by what they name and the qualifiers of an array
  type are moved to its element type.
 */
module TypeGraph {
  import opened Qualifiers

  datatype Shape =
    | Builtin(kind: nat)
    | Tag(decl: nat)
    | Typedef(name: nat)
    | Pointer
    | Complex
    | ConstantArray(size: nat, modifier: nat, index: Quals)
    | IncompleteArray(modifier: nat, index: Quals)
    | FunctionNoProto
    | FunctionProto(variadic: bool, onThis: Quals)

  predicate IsArray(s: Shape) {
    s.ConstantArray? || s.IncompleteArray?
  }

  predicate Arity(s: Shape, n: nat) {
    if s.Builtin? || s.Tag? then n == 0
    else if s.FunctionProto? then n >= 1   // the result, then the parameters
    else n == 1
  }

  datatype QualType = QualType(node: nat, quals: Quals)

  datatype Key = Key(shape: Shape, parts: seq<QualType>)

  datatype Node = Node(key: Key, canon: QualType)

  type Types = seq<Node>

  // ------------------------------------------------------------------------- structures

  datatype Tree = Tree(quals: Quals, shape: Shape, parts: seq<Tree>)

  /** Section 6.7.3p8: the qualifiers of an array type belong to its element type. */
  function AddQuals(t: Tree, q: Quals): Tree {
    if IsArray(t.shape) && |t.parts| == 1 then t.(parts := [AddQuals(t.parts[0], q)])
    else t.(quals := Both(t.quals, q))
  }

  /** The parts of every node come before it. */
  ghost predicate Grounded(types: Types) {
    forall i :: 0 <= i < |types| ==> Based(types[i].key, i)
  }

  ghost predicate Based(key: Key, i: int) {
    && Arity(key.shape, |key.parts|)
    && forall k :: 0 <= k < |key.parts| ==> key.parts[k].node < i
  }

  ghost function Norm(types: Types, q: QualType): Tree
    requires Grounded(types) && q.node < |types|
    decreases q.node
  {
    var key := types[q.node].key;
    assert Based(key, q.node);
    AddQuals(Plain(key.shape, NormAll(types, key.parts, q.node)), q.quals)
  }

  ghost function NormAll(types: Types, parts: seq<QualType>, bound: nat): (r: seq<Tree>)
    requires Grounded(types) && bound <= |types|
    requires forall k :: 0 <= k < |parts| ==> parts[k].node < bound
    ensures |r| == |parts|
    ensures forall k :: 0 <= k < |parts| ==> r[k] == Norm(types, parts[k])
    decreases bound, 0, |parts|
  {
    if parts == [] then [] else [Norm(types, parts[0])] + NormAll(types, parts[1..], bound)
  }

  /** A tree without qualifiers of its own; a typedef is what it names. */
  function Plain(shape: Shape, parts: seq<Tree>): Tree {
    if shape.Typedef? && |parts| == 1 then parts[0] else Tree(NONE, shape, parts)
  }

  // --------------------------------------------------------------------- canonical types

  predicate CanonNode(types: Types, i: nat) {
    i < |types| && types[i].canon == QualType(i, NONE)
  }

  /** A canonical node, with no qualifiers on it if it is an array. */
  predicate Canon(types: Types, q: QualType) {
    && CanonNode(types, q.node)
    && (IsArray(types[q.node].key.shape) ==> q.quals == NONE)
  }

  predicate CanonParts(types: Types, parts: seq<QualType>) {
    forall k :: 0 <= k < |parts| ==> Canon(types, parts[k])
  }

  /** The canonical type recorded in a node has the node's structure. */
  ghost predicate Recorded(types: Types, i: nat)
    requires Grounded(types) && i < |types|
  {
    var n := types[i];
    && n.canon.node <= i
    && Canon(types, n.canon)
    && (CanonNode(types, i) ==> !n.key.shape.Typedef? && CanonParts(types, n.key.parts))
    && Norm(types, n.canon) == Norm(types, QualType(i, NONE))
  }

  ghost predicate Distinct(types: Types) {
    forall i, j :: 0 <= i < |types| && 0 <= j < |types| && types[i].key == types[j].key ==> i == j
  }

  /** The invariant of the table. */
  ghost predicate Uniqued(types: Types) {
    && Grounded(types)
    && Distinct(types)
    && forall i :: 0 <= i < |types| ==> Recorded(types, i)
  }

  // ------------------------------------------------------------------------------ lemmas

  lemma {:induction false} AddNone(t: Tree)
    ensures AddQuals(t, NONE) == t
  {
    if IsArray(t.shape) && |t.parts| == 1 {
      AddNone(t.parts[0]);
      assert t.parts == [t.parts[0]];
    }
  }

  lemma {:induction false} AddTwice(t: Tree, p: Quals, q: Quals)
    ensures AddQuals(AddQuals(t, p), q) == AddQuals(t, Both(p, q))
  {
    if IsArray(t.shape) && |t.parts| == 1 {
      AddTwice(t.parts[0], p, q);
    }
  }

  lemma {:induction false} NormQuals(types: Types, n: nat, p: Quals, q: Quals)
    requires Grounded(types) && n < |types|
    ensures Norm(types, QualType(n, Both(p, q))) == AddQuals(Norm(types, QualType(n, p)), q)
  {
    assert Based(types[n].key, n);
    AddTwice(Plain(types[n].key.shape, NormAll(types, types[n].key.parts, n)), p, q);
  }

  /** What a type means does not change when the table grows. */
  lemma {:induction false} NormStable(types: Types, more: Types, q: QualType)
    requires types <= more && Grounded(types) && Grounded(more) && q.node < |types|
    ensures Norm(more, q) == Norm(types, q)
    decreases q.node
  {
    var key := types[q.node].key;
    assert Based(key, q.node);
    var a, b := NormAll(types, key.parts, q.node), NormAll(more, key.parts, q.node);
    forall k | 0 <= k < |a| ensures a[k] == b[k] { NormStable(types, more, key.parts[k]); }
    assert a == b;
  }

  /** Canonical types with one structure are one type. */
  lemma {:induction false} CanonicalIsUnique(types: Types, a: QualType, b: QualType)
    requires Uniqued(types) && Canon(types, a) && Canon(types, b)
    ensures a == b <==> Norm(types, a) == Norm(types, b)
    decreases a.node
  {
    if Norm(types, a) == Norm(types, b) {
      var k, l := types[a.node].key, types[b.node].key;
      assert Based(k, a.node) && Based(l, b.node);
      assert Recorded(types, a.node) && Recorded(types, b.node);
      CanonShape(types, a);
      CanonShape(types, b);
      var ks, ls := NormAll(types, k.parts, a.node), NormAll(types, l.parts, b.node);
      assert k.shape == l.shape && ks == ls && a.quals == b.quals;
      forall i | 0 <= i < |k.parts| ensures k.parts[i] == l.parts[i] {
        assert ks[i] == ls[i];
        CanonicalIsUnique(types, k.parts[i], l.parts[i]);
      }
      assert k.parts == l.parts;
      assert k == l;
    }
  }

  lemma {:induction false} CanonShape(types: Types, a: QualType)
    requires Uniqued(types) && Canon(types, a)
    ensures Based(types[a.node].key, a.node)
    ensures Norm(types, a) ==
            Tree(a.quals, types[a.node].key.shape, NormAll(types, types[a.node].key.parts, a.node))
  {
    var key := types[a.node].key;
    assert Based(key, a.node);
    assert Recorded(types, a.node);
    var t := Tree(NONE, key.shape, NormAll(types, key.parts, a.node));
    AddNone(t);
  }

  /** A type with more qualifiers, from its canonical type: not an array. */
  lemma {:induction false} QualifiedCanon(types: Types, q: QualType)
    requires Uniqued(types) && q.node < |types|
    ensures var c := types[q.node].canon;
            c.node < |types| &&
            Norm(types, QualType(c.node, Both(c.quals, q.quals))) == Norm(types, q)
  {
    var c := types[q.node].canon;
    assert Recorded(types, q.node);
    NormQuals(types, q.node, NONE, q.quals);
    assert Both(NONE, q.quals) == q.quals;
    NormQuals(types, c.node, c.quals, q.quals);
  }

  /** The structure of a node, from the structures of its parts. */
  lemma {:induction false} NormOfKey(types: Types, i: nat)
    requires Grounded(types) && i < |types|
    ensures Based(types[i].key, i)
    ensures Norm(types, QualType(i, NONE)) ==
            Plain(types[i].key.shape, NormAll(types, types[i].key.parts, i))
  {
    assert Based(types[i].key, i);
    AddNone(Plain(types[i].key.shape, NormAll(types, types[i].key.parts, i)));
  }

  /** Qualifying a canonical array: the same array of the qualified element. */
  lemma {:induction false} QualifiedArray(types: Types, a: QualType, quals: Quals, arr: QualType, elem: QualType)
    requires Uniqued(types) && Canon(types, a) && IsArray(types[a.node].key.shape)
    requires Canon(types, arr) && Canon(types, elem)
    requires types[arr.node].key == Key(types[a.node].key.shape, [elem])
    requires |types[a.node].key.parts| == 1
    requires var e := types[a.node].key.parts[0];
             e.node < |types| && Norm(types, elem) == Norm(types, QualType(e.node, Both(e.quals, quals)))
    ensures Norm(types, arr) == Norm(types, QualType(a.node, Both(a.quals, quals)))
  {
    var e := types[a.node].key.parts[0];
    CanonShape(types, a);
    CanonShape(types, arr);
    NormQuals(types, e.node, e.quals, quals);
    NormQuals(types, a.node, a.quals, quals);
    assert NormAll(types, [elem], arr.node) == [Norm(types, elem)];
    assert NormAll(types, types[a.node].key.parts, a.node) == [Norm(types, e)];
  }

  // ----------------------------------------------------------------------- adding a node

  /** The canonical type a new node may record. */
  ghost predicate MayRecord(types: Types, key: Key, canon: QualType)
    requires Grounded(types) && Based(key, |types|)
  {
    if canon == QualType(|types|, NONE) then
      !key.shape.Typedef? && CanonParts(types, key.parts)
    else
      && Canon(types, canon)
      && Norm(types, canon) == Plain(key.shape, NormAll(types, key.parts, |types|))
  }

  lemma Appended(types: Types, key: Key, canon: QualType)
    requires Uniqued(types) && Based(key, |types|)
    requires forall i :: 0 <= i < |types| ==> types[i].key != key
    requires MayRecord(types, key, canon)
    ensures Uniqued(types + [Node(key, canon)])
  {
    var more := types + [Node(key, canon)];
    assert Grounded(more) by {
      forall i | 0 <= i < |more| ensures Based(more[i].key, i) {
        assert i < |types| ==> Based(types[i].key, i);
      }
    }
    forall i | 0 <= i < |more| ensures Recorded(more, i) {
      if i < |types| {
        StillRecorded(types, more, i);
      } else {
        NewRecorded(types, key, canon);
      }
    }
  }

  lemma StillRecorded(types: Types, more: Types, i: nat)
    requires Uniqued(types) && types <= more && Grounded(more) && i < |types|
    ensures Recorded(more, i)
  {
    assert Recorded(types, i);
    NormStable(types, more, types[i].canon);
    NormStable(types, more, QualType(i, NONE));
  }

  lemma NewRecorded(types: Types, key: Key, canon: QualType)
    requires Uniqued(types) && Based(key, |types|) && MayRecord(types, key, canon)
    requires Grounded(types + [Node(key, canon)])
    ensures Recorded(types + [Node(key, canon)], |types|)
  {
    var i, more := |types|, types + [Node(key, canon)];
    if canon != QualType(i, NONE) {
      NormStable(types, more, canon);
      NormOfKey(more, i);
      var a, b := NormAll(types, key.parts, i), NormAll(more, key.parts, i);
      forall k | 0 <= k < |a| ensures a[k] == b[k] { NormStable(types, more, key.parts[k]); }
      assert a == b;
    }
  }

  /** The recursive construction, on canonical parts, is what the new node records. */
  lemma {:induction false} CanonicalOfParts(types: Types, key: Key, c: QualType, parts: seq<QualType>)
    requires Uniqued(types) && Based(key, |types|) && !key.shape.Typedef?
    requires Canon(types, c) && c.quals == NONE && types[c.node].key == Key(key.shape, parts)
    requires |parts| == |key.parts| && CanonParts(types, parts)
    requires forall k :: 0 <= k < |parts| ==> Norm(types, parts[k]) == Norm(types, key.parts[k])
    ensures MayRecord(types, key, c)
  {
    NormOfKey(types, c.node);
    assert NormAll(types, parts, c.node) == NormAll(types, key.parts, |types|);
  }

  // ----------------------------------------------------------------------- qualifiers

  datatype Qualifier = Const | Restrict | Volatile

  predicate Has(q: Quals, which: Qualifier) {
    match which
    case Const => q.c
    case Restrict => q.r
    case Volatile => q.v
  }

  /** What a typedef names, and the elements of an array, lend their qualifiers to the type. */
  predicate Lends(s: Shape) {
    s.Typedef? || IsArray(s)
  }

  /** Sections 6.7.3p8 and 6.7.7p3: the qualifier is on the type, on what it names or on its elements. */
  ghost predicate Carries(types: Types, q: QualType, which: Qualifier)
    requires Grounded(types) && q.node < |types|
    decreases q.node
  {
    var key := types[q.node].key;
    assert Based(key, q.node);
    Has(q.quals, which) || (Lends(key.shape) && Carries(types, key.parts[0], which))
  }

  /** The same of a structure. */
  predicate TreeCarries(t: Tree, which: Qualifier) {
    if IsArray(t.shape) && |t.parts| == 1 then TreeCarries(t.parts[0], which) else Has(t.quals, which)
  }

  lemma BothHave(p: Quals, q: Quals, which: Qualifier)
    ensures Has(Both(p, q), which) <==> Has(p, which) || Has(q, which)
    ensures !Has(NONE, which)
  {
  }

  lemma {:induction false} AddedCarries(t: Tree, q: Quals, which: Qualifier)
    ensures TreeCarries(AddQuals(t, q), which) <==> TreeCarries(t, which) || Has(q, which)
  {
    if IsArray(t.shape) && |t.parts| == 1 {
      AddedCarries(t.parts[0], q, which);
    } else {
      BothHave(t.quals, q, which);
    }
  }

  /** What a type means has the qualifiers that the type carries. */
  lemma {:induction false} NormCarries(types: Types, q: QualType, which: Qualifier)
    requires Grounded(types) && q.node < |types|
    ensures TreeCarries(Norm(types, q), which) <==> Carries(types, q, which)
    decreases q.node
  {
    var key := types[q.node].key;
    assert Based(key, q.node);
    var parts := NormAll(types, key.parts, q.node);
    assert Norm(types, q) == AddQuals(Plain(key.shape, parts), q.quals);
    hide Norm, NormAll, AddQuals;
    AddedCarries(Plain(key.shape, parts), q.quals, which);
    if Lends(key.shape) {
      NormCarries(types, key.parts[0], which);
    }
  }
}
