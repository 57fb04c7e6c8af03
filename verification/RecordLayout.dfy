/**
  The layout of structures and unions: where each field goes, in bits.

  Offsets are 64-bit integers and alignments 32-bit ones, and so is the mask an offset is
  rounded up with; the layout is right as long as no offset comes near that width.
 */
module RecordLayout {
  import opened Options
  import opened MachineInts

  const LIMIT: nat := 0x1_0000_0000

  function Wrap64(x: nat): nat {
    x % 0x1_0000_0000_0000_0000
  }

  function And64(x: nat, y: nat): nat {
    OnBits(BitAnd, x, y, 64)
  }

  function Min(a: nat, b: nat): nat { if a < b then a else b }

  function Max(a: nat, b: nat): nat { if a > b then a else b }

  /** `(x + (a - 1)) & ~(a - 1)` with a 64-bit `x` and a 32-bit `a`. */
  function RoundUp(x: nat, a: nat): nat
    requires 1 <= a <= LIMIT
  {
    And64(Wrap64(x + (a - 1)), LIMIT - 1 - (a - 1))
  }

  /** The least multiple of `a` that is not below `x`. */
  function UpTo(x: nat, a: nat): nat
    requires a >= 1
  {
    (x + (a - 1)) / a * a
  }

  ghost predicate IsPow2(a: nat) {
    exists k: nat :: k <= 31 && a == Pow2(k)
  }

  /** `bits` is the width of a bit-field; a flexible array is counted as having no size. */
  datatype Field = Field(
    named: bool,
    bits: Option<nat>,
    flexible: bool,
    typeSize: nat,
    typeAlign: nat,
    packed: Option<nat>,
    aligned: Option<nat>)

  ghost predicate Proper(f: Field) {
    && IsPow2(f.typeAlign)
    && (f.packed.Some? && f.packed.value != 0 ==> IsPow2(f.packed.value))
    && (f.aligned.Some? ==> IsPow2(f.aligned.value))
  }

  ghost predicate AllProper(fields: seq<Field>, packing: nat) {
    (forall f <- fields :: Proper(f)) && (packing != 0 ==> IsPow2(packing))
  }

  function SizeOf(f: Field): nat {
    if f.bits.Some? then f.bits.value else if f.flexible then 0 else f.typeSize
  }

  /** Packing is a maximum, and at least a byte but for bit-fields; `aligned` is a minimum. */
  function AlignOf(f: Field, packing: nat): nat {
    var p := if f.packed.Some? then f.packed.value else packing;
    var a := if p == 0 then f.typeAlign
             else Min(f.typeAlign, if f.bits.Some? then p else Max(8, p));
    if f.aligned.Some? then Max(a, f.aligned.value) else a
  }

  /** What a field asks of its record: an unnamed bit-field asks nothing. */
  function RecordAlignOf(f: Field, packing: nat): nat {
    if f.bits.Some? && !f.named then 1 else AlignOf(f, packing)
  }

  function Place(f: Field, packing: nat, start: nat): nat
    requires 1 <= AlignOf(f, packing) <= LIMIT
  {
    var a := AlignOf(f, packing);
    if f.bits.Some? && f.bits.value != 0 && Wrap64(And64(start, a - 1) + f.bits.value) <= f.typeSize
    then start
    else RoundUp(start, a)
  }

  datatype Layout = Layout(size: nat, alignment: nat, offsets: seq<nat>)

  function LayField(l: Layout, f: Field, isUnion: bool, packing: nat): Layout
    requires 1 <= AlignOf(f, packing) <= LIMIT
  {
    var offset := Place(f, packing, if isUnion then 0 else l.size);
    Layout(
      if isUnion then Max(l.size, SizeOf(f)) else Wrap64(offset + SizeOf(f)),
      Max(l.alignment, RecordAlignOf(f, packing)),
      l.offsets + [offset])
  }

  /** The layout of the fields before the size is rounded up. */
  ghost function LayFields(fields: seq<Field>, isUnion: bool, packing: nat, align: nat): (l: Layout)
    requires AllProper(fields, packing)
    ensures |l.offsets| == |fields|
    decreases |fields|
  {
    if fields == [] then Layout(0, align, [])
    else
      var n := |fields| - 1;
      AlignIsPow2(fields[n], packing);
      LayField(LayFields(fields[..n], isUnion, packing, align), fields[n], isUnion, packing)
  }

  ghost function LayRecord(fields: seq<Field>, isUnion: bool, packing: nat, align: nat): (l: Layout)
    requires AllProper(fields, packing) && IsPow2(align)
    ensures |l.offsets| == |fields|
  {
    var l := LayFields(fields, isUnion, packing, align);
    AlignmentIsPow2(fields, isUnion, packing, align);
    Pow2Range(l.alignment);
    l.(size := RoundUp(l.size, l.alignment))
  }

  /**
    No offset the layout rounds up comes within its alignment of the limit, and no field
    extends beyond what 64 bits can count.
   */
  ghost predicate Bounded(fields: seq<Field>, isUnion: bool, packing: nat, align: nat)
    requires AllProper(fields, packing)
    decreases |fields|
  {
    if fields == [] then true
    else
      var n := |fields| - 1;
      var l := LayFields(fields[..n], isUnion, packing, align);
      && Bounded(fields[..n], isUnion, packing, align)
      && Fits(fields[n], packing, if isUnion then 0 else l.size)
  }

  /** The field can be placed from `start` on. */
  predicate Fits(f: Field, packing: nat, start: nat) {
    start + AlignOf(f, packing) <= LIMIT && start + AlignOf(f, packing) + SizeOf(f) <= 0x1_0000_0000_0000_0000
  }

  ghost predicate RecordBounded(fields: seq<Field>, isUnion: bool, packing: nat, align: nat)
    requires AllProper(fields, packing)
  {
    && Bounded(fields, isUnion, packing, align)
    && var l := LayFields(fields, isUnion, packing, align);
       l.size + l.alignment <= LIMIT
  }

  // ------------------------------------------------------------------------- arithmetic

  lemma Pow2Range(a: nat)
    requires IsPow2(a)
    ensures 1 <= a <= LIMIT
  {
    var k: nat :| k <= 31 && a == Pow2(k);
    Pow2Grows(k, 32);
    Limit();
  }

  lemma Limit()
    ensures Pow2(32) == LIMIT
  {
    assert Pow2(8) == 256;
    Pow2Grows(8, 16);
    Pow2Grows(16, 32);
  }

  lemma ModHalf(x: nat, n: nat)
    requires n >= 1
    ensures Low(x, n) == 2 * Low(x / 2, n - 1) + x % 2
  {
    var p := Pow2(n - 1);
    var q, r := (x / 2) / p, (x / 2) % p;
    assert x / 2 == q * p + r;
    assert x == q * (2 * p) + (2 * r + x % 2);
    ModIs(x, q, 2 * r + x % 2, 2 * p);
  }

  /** Masking with ones from bit `k` up to bit `n`. */
  lemma {:induction false} MaskIsMod(x: nat, k: nat, n: nat, width: nat)
    requires k <= n <= width
    ensures Pow2(n) >= Pow2(k)
    ensures OnBits(BitAnd, x, Pow2(n) - Pow2(k), width) == Low(x, n) - Low(x, k)
    decreases width
  {
    hide OnBits, Pow2, Low;
    Double(n);
    Double(k);
    if n == 0 {
      AndZero(x, width);
    } else if k == 0 {
      LowOfOne(x);
      LowOfOne(x / 2);
      Double(0);
      MaskIsMod(x / 2, 0, n - 1, width - 1);
      MaskStep(x, Pow2(n - 1) - 1, 1, width, Low(x / 2, n - 1));
      ModHalf(x, n);
    } else {
      MaskIsMod(x / 2, k - 1, n - 1, width - 1);
      MaskStep(x, Pow2(n - 1) - Pow2(k - 1), 0, width, Low(x / 2, n - 1) - Low(x / 2, k - 1));
      ModHalf(x, n);
      ModHalf(x, k);
    }
  }

  lemma MaskStep(x: nat, h: nat, b: nat, width: nat, r: int)
    requires b <= 1 && width >= 1 && OnBits(BitAnd, x / 2, h, width - 1) == r
    ensures OnBits(BitAnd, x, 2 * h + b, width) == 2 * r + (if b == 1 then x % 2 else 0)
  {
    hide OnBits;
    AndStep(x, h, b, width);
  }

  lemma LowOfOne(x: nat)
    ensures Low(x, 0) == 0
  {
    ModIs(x, x, 0, 1);
  }

  lemma Double(n: nat)
    ensures Pow2(n) == if n == 0 then 1 else 2 * Pow2(n - 1)
  {
  }

  lemma Halves(h: nat, b: nat)
    requires b <= 1
    ensures (2 * h + b) / 2 == h && (2 * h + b) % 2 == b
  {
  }

  lemma AndStep(x: nat, h: nat, b: nat, width: nat)
    requires b <= 1 && width >= 1
    ensures OnBits(BitAnd, x, 2 * h + b, width) == 2 * OnBits(BitAnd, x / 2, h, width - 1) + (if b == 1 then x % 2 else 0)
  {
    Halves(h, b);
  }

  lemma {:induction false} AndZero(x: nat, width: nat)
    ensures OnBits(BitAnd, x, 0, width) == 0
  {
    if width > 0 { AndZero(x / 2, width - 1); }
  }

  /** Rounding is right exactly while the rounded sum stays below the limit. */
  lemma RoundUpIff(x: nat, a: nat)
    requires IsPow2(a) && x + a <= 0x1_0000_0000_0000_0000
    ensures 1 <= a <= LIMIT
    ensures RoundUp(x, a) == UpTo(x, a) <==> x + a <= LIMIT
  {
    hide OnBits, Pow2;
    Pow2Range(a);
    var k: nat :| k <= 31 && a == Pow2(k);
    var y := x + (a - 1);
    Limit();
    MaskIsMod(y, k, 32, 64);
    BelowWrap(y);
    DivMod(y, a);
    if y < LIMIT { ModIs(y, 0, y, LIMIT); }
  }

  lemma BelowWrap(y: nat)
    requires y < 0x1_0000_0000_0000_0000
    ensures Wrap64(y) == y
  {
    ModIs(y, 0, y, 0x1_0000_0000_0000_0000);
  }

  lemma DivMod(y: nat, a: nat)
    requires a >= 1
    ensures y / a * a == y - y % a
  {
  }

  lemma UpToIsLeast(x: nat, a: nat)
    requires a >= 1
    ensures x <= UpTo(x, a) < x + a && UpTo(x, a) % a == 0
  {
    var y := x + (a - 1);
    assert y == y / a * a + y % a;
    ModIs(UpTo(x, a), y / a, 0, a);
  }

  lemma LowBits(x: nat, a: nat)
    requires IsPow2(a)
    ensures 1 <= a && And64(x, a - 1) == x % a
  {
    Pow2Range(a);
    var k: nat :| k <= 31 && a == Pow2(k);
    MaskIsMod(x, 0, k, 64);
  }

  lemma {:induction false} DividesLarger(a: nat, b: nat)
    requires IsPow2(a) && IsPow2(b) && a <= b
    ensures a >= 1 && b % a == 0
  {
    var k: nat :| k <= 31 && a == Pow2(k);
    var n: nat :| n <= 31 && b == Pow2(n);
    if k > n {
      Pow2Grows(n + 1, k);
    } else {
      Pow2Grows(k, n);
      ModIs(b, Pow2(n - k), 0, a);
    }
  }

  lemma AlignIsPow2(f: Field, packing: nat)
    requires Proper(f) && (packing != 0 ==> IsPow2(packing))
    ensures IsPow2(AlignOf(f, packing)) && IsPow2(RecordAlignOf(f, packing))
    ensures 1 <= AlignOf(f, packing) <= LIMIT
  {
    assert IsPow2(8) by { assert Pow2(3) == 8; }
    assert IsPow2(1) by { assert Pow2(0) == 1; }
    Pow2Range(AlignOf(f, packing));
  }

  lemma {:induction false} AlignmentIsPow2(fields: seq<Field>, isUnion: bool, packing: nat, align: nat)
    requires AllProper(fields, packing) && IsPow2(align)
    ensures IsPow2(LayFields(fields, isUnion, packing, align).alignment)
    ensures align <= LayFields(fields, isUnion, packing, align).alignment
    ensures forall f <- fields ::
              RecordAlignOf(f, packing) <= LayFields(fields, isUnion, packing, align).alignment
    decreases |fields|
  {
    if fields != [] {
      var n := |fields| - 1;
      AlignIsPow2(fields[n], packing);
      AlignmentIsPow2(fields[..n], isUnion, packing, align);
      forall f | f in fields ensures f in fields[..n] || f == fields[n] {
        var i :| 0 <= i < |fields| && fields[i] == f;
        if i < n { assert fields[..n][i] == f; }
      }
    }
  }

  // ---------------------------------------------------------------------- where fields go

  /** A field's offset: no further on than alignment asks, and moved only if it has to be. */
  ghost predicate Placed(f: Field, packing: nat, start: nat, offset: nat) {
    var a := AlignOf(f, packing);
    && a >= 1
    && start <= offset < start + a
    && (f.bits.None? || f.bits.value == 0 ==> offset % a == 0)
    && (f.bits.Some? && f.bits.value <= f.typeSize ==> offset % a + f.bits.value <= f.typeSize)
    && (f.bits.Some? && offset != start ==>
          offset % a == 0 && (f.bits.value == 0 || start % a + f.bits.value > f.typeSize))
  }

  lemma PlaceIsRight(f: Field, packing: nat, start: nat)
    requires Proper(f) && (packing != 0 ==> IsPow2(packing))
    requires Fits(f, packing, start)
    ensures 1 <= AlignOf(f, packing) <= LIMIT
    ensures Placed(f, packing, start, Place(f, packing, start))
  {
    hide And64, RoundUp, AlignOf, UpTo, Wrap64, Placed;
    AlignIsPow2(f, packing);
    var a := AlignOf(f, packing);
    RoundUpIff(start, a);
    LowBits(start, a);
    var m := Remainder(start, a);
    if f.bits.Some? { BelowWrap(m + f.bits.value); }
    if Place(f, packing, start) == start && f.bits.Some? && f.bits.value != 0 && m + f.bits.value <= f.typeSize {
      PlacedAtStart(f, packing, start);
    } else {
      PlacedUp(f, packing, start);
    }
  }

  lemma Remainder(x: nat, a: nat) returns (m: nat)
    requires a >= 1
    ensures m == x % a < a
  {
    m := x % a;
  }

  lemma PlacedAtStart(f: Field, packing: nat, start: nat)
    requires AlignOf(f, packing) >= 1
    requires f.bits.Some? && f.bits.value != 0 && start % AlignOf(f, packing) + f.bits.value <= f.typeSize
    ensures Placed(f, packing, start, start)
  {
    hide AlignOf;
  }

  lemma PlacedUp(f: Field, packing: nat, start: nat)
    requires AlignOf(f, packing) >= 1
    requires f.bits.Some? && f.bits.value != 0 ==> start % AlignOf(f, packing) + f.bits.value > f.typeSize
    ensures Placed(f, packing, start, UpTo(start, AlignOf(f, packing)))
  {
    hide AlignOf, UpTo;
    UpToIsLeast(start, AlignOf(f, packing));
  }

  /** Laying out more fields does not move the ones laid out before. */
  lemma {:induction false} EarlierStay(fields: seq<Field>, isUnion: bool, packing: nat, align: nat, k: nat)
    requires AllProper(fields, packing) && k <= |fields|
    ensures LayFields(fields, isUnion, packing, align).offsets[..k] ==
            LayFields(fields[..k], isUnion, packing, align).offsets
    decreases |fields|
  {
    hide AlignOf, Place;
    var n := |fields| - 1;
    if k == |fields| {
      assert fields[..k] == fields;
    } else {
      EarlierStay(fields[..n], isUnion, packing, align, k);
      assert fields[..n][..k] == fields[..k];
      AlignIsPow2(fields[n], packing);
    }
  }

  lemma {:induction false} BoundedPrefix(fields: seq<Field>, isUnion: bool, packing: nat, align: nat, k: nat)
    requires AllProper(fields, packing) && k <= |fields| && Bounded(fields, isUnion, packing, align)
    ensures Bounded(fields[..k], isUnion, packing, align)
    decreases |fields|
  {
    if k == |fields| {
      assert fields[..k] == fields;
    } else {
      BoundedPrefix(fields[..|fields| - 1], isUnion, packing, align, k);
      assert fields[..|fields| - 1][..k] == fields[..k];
    }
  }

  /** The size before the field `i`, where a structure's field may start. */
  ghost function SizeBefore(fields: seq<Field>, isUnion: bool, packing: nat, align: nat, i: nat): nat
    requires AllProper(fields, packing) && i <= |fields|
  {
    LayFields(fields[..i], isUnion, packing, align).size
  }

  /** Every field of a structure is placed after the fields before it, every union field at zero. */
  lemma {:induction false} FieldIsPlaced(fields: seq<Field>, isUnion: bool, packing: nat, align: nat, i: nat)
    requires AllProper(fields, packing) && Bounded(fields, isUnion, packing, align) && i < |fields|
    ensures var offset := LayFields(fields, isUnion, packing, align).offsets[i];
            && Placed(fields[i], packing, if isUnion then 0 else SizeBefore(fields, isUnion, packing, align, i), offset)
            && (isUnion ==> offset == 0)
            && SizeBefore(fields, isUnion, packing, align, i + 1) ==
               if isUnion then Max(SizeBefore(fields, isUnion, packing, align, i), SizeOf(fields[i]))
               else offset + SizeOf(fields[i])
  {
    hide LayFields, Bounded, Placed, AlignOf, SizeOf, Proper, IsPow2;
    var upTo := fields[..i + 1];
    EarlierStay(fields, isUnion, packing, align, i + 1);
    BoundedPrefix(fields, isUnion, packing, align, i + 1);
    assert upTo[..i] == fields[..i] && upTo[i] == fields[i];
    LastIsPlaced(upTo, isUnion, packing, align);
    assert LayFields(fields, isUnion, packing, align).offsets[..i + 1][i] ==
           LayFields(fields, isUnion, packing, align).offsets[i];
  }

  lemma {:induction false} LastIsPlaced(fields: seq<Field>, isUnion: bool, packing: nat, align: nat)
    requires AllProper(fields, packing) && Bounded(fields, isUnion, packing, align) && fields != []
    ensures var n := |fields| - 1;
            var before, l := LayFields(fields[..n], isUnion, packing, align).size, LayFields(fields, isUnion, packing, align);
            var offset := l.offsets[n];
            && Placed(fields[n], packing, if isUnion then 0 else before, offset)
            && (isUnion ==> offset == 0)
            && l.size == if isUnion then Max(before, SizeOf(fields[n])) else offset + SizeOf(fields[n])
  {
    hide Place, AlignOf, Placed, SizeOf, RecordAlignOf;
    var n := |fields| - 1;
    var start := if isUnion then 0 else LayFields(fields[..n], isUnion, packing, align).size;
    AlignIsPow2(fields[n], packing);
    PlaceIsRight(fields[n], packing, start);
    var offset := Place(fields[n], packing, start);
    PlacedIsNear(fields[n], packing, start, offset);
    hide Proper, IsPow2, Bounded;
    BelowWrap(offset + SizeOf(fields[n]));
    hide Wrap64;
    if isUnion { ZeroStays(fields[n], packing, offset); }
  }

  lemma PlacedIsNear(f: Field, packing: nat, start: nat, offset: nat)
    requires Placed(f, packing, start, offset)
    ensures offset < start + AlignOf(f, packing)
  {
    hide AlignOf;
  }

  lemma ZeroStays(f: Field, packing: nat, offset: nat)
    requires Placed(f, packing, 0, offset)
    ensures offset == 0
  {
    var a := AlignOf(f, packing);
    if offset != 0 { ModIs(offset, 0, offset, a); }
  }

  lemma {:induction false} SizesGrow(fields: seq<Field>, isUnion: bool, packing: nat, align: nat, i: nat, j: nat)
    requires AllProper(fields, packing) && Bounded(fields, isUnion, packing, align) && i <= j <= |fields|
    ensures SizeBefore(fields, isUnion, packing, align, i) <= SizeBefore(fields, isUnion, packing, align, j)
    decreases j
  {
    if i < j {
      SizesGrow(fields, isUnion, packing, align, i, j - 1);
      FieldIsPlaced(fields, isUnion, packing, align, j - 1);
    }
  }

  // ------------------------------------------------------------------------ main results

  /** The fields of a structure are disjoint and in order. */
  lemma {:induction false} StructFieldsInOrder(fields: seq<Field>, packing: nat, align: nat, i: nat, j: nat)
    requires AllProper(fields, packing) && Bounded(fields, false, packing, align) && i < j < |fields|
    ensures var l := LayFields(fields, false, packing, align);
            l.offsets[i] + SizeOf(fields[i]) <= l.offsets[j]
  {
    FieldIsPlaced(fields, false, packing, align, i);
    FieldIsPlaced(fields, false, packing, align, j);
    SizesGrow(fields, false, packing, align, i + 1, j);
  }

  /** Every field lies within the record. */
  lemma FieldsFit(fields: seq<Field>, isUnion: bool, packing: nat, align: nat, i: nat)
    requires AllProper(fields, packing) && IsPow2(align) && RecordBounded(fields, isUnion, packing, align)
    requires i < |fields|
    ensures var l := LayRecord(fields, isUnion, packing, align);
            l.offsets[i] + SizeOf(fields[i]) <= l.size
  {
    FieldIsPlaced(fields, isUnion, packing, align, i);
    SizesGrow(fields, isUnion, packing, align, i + 1, |fields|);
    assert fields[..|fields|] == fields;
    SizeIsRounded(fields, isUnion, packing, align);
  }

  /** The size is the least multiple of the alignment that holds the fields. */
  lemma {:induction false} SizeIsRounded(fields: seq<Field>, isUnion: bool, packing: nat, align: nat)
    requires AllProper(fields, packing) && IsPow2(align) && RecordBounded(fields, isUnion, packing, align)
    ensures var l := LayRecord(fields, isUnion, packing, align);
            var used := LayFields(fields, isUnion, packing, align).size;
            l.alignment >= 1 && l.size % l.alignment == 0 && used <= l.size < used + l.alignment
  {
    hide RoundUp;
    var l := LayFields(fields, isUnion, packing, align);
    AlignmentIsPow2(fields, isUnion, packing, align);
    RoundUpIff(l.size, l.alignment);
    UpToIsLeast(l.size, l.alignment);
  }

  /** The record's alignment is a multiple of what it was given and of what each field asks. */
  lemma AlignmentServesAll(fields: seq<Field>, isUnion: bool, packing: nat, align: nat)
    requires AllProper(fields, packing) && IsPow2(align)
    ensures var l := LayRecord(fields, isUnion, packing, align);
            && align >= 1 && l.alignment % align == 0
            && forall f <- fields :: Serves(l.alignment, RecordAlignOf(f, packing))
  {
    var l := LayRecord(fields, isUnion, packing, align);
    AlignmentIsPow2(fields, isUnion, packing, align);
    DividesLarger(align, l.alignment);
    forall f | f in fields ensures Serves(l.alignment, RecordAlignOf(f, packing)) {
      AlignIsPow2(f, packing);
      DividesLarger(RecordAlignOf(f, packing), l.alignment);
    }
  }

  predicate Serves(x: nat, a: nat) {
    a >= 1 && x % a == 0
  }

  /** An unpacked field, and one with an alignment of its own, is at a multiple of that. */
  lemma {:induction false} AlignedAsAsked(fields: seq<Field>, isUnion: bool, packing: nat, align: nat, i: nat)
    requires AllProper(fields, packing) && Bounded(fields, isUnion, packing, align) && i < |fields|
    requires fields[i].bits.None?
    ensures var offset, f := LayFields(fields, isUnion, packing, align).offsets[i], fields[i];
            && (packing == 0 && f.packed.None? ==> Serves(offset, f.typeAlign))
            && (f.aligned.Some? ==> Serves(offset, f.aligned.value))
  {
    var f, a := fields[i], AlignOf(fields[i], packing);
    var offset := LayFields(fields, isUnion, packing, align).offsets[i];
    FieldIsPlaced(fields, isUnion, packing, align, i);
    assert Placed(f, packing, if isUnion then 0 else SizeBefore(fields, isUnion, packing, align, i), offset);
    hide LayFields, Bounded;
    assert Proper(f);
    AlignIsPow2(f, packing);
    if packing == 0 && f.packed.None? { MultipleOf(offset, a, f.typeAlign); }
    if f.aligned.Some? { MultipleOf(offset, a, f.aligned.value); }
  }

  lemma MultipleOf(x: nat, a: nat, b: nat)
    requires IsPow2(a) && IsPow2(b) && b <= a && a >= 1 && x % a == 0
    ensures Serves(x, b)
  {
    DividesLarger(b, a);
    hide *;
    var q := Times(x, a);
    var r := Times(a, b);
    TimesTimes(q, r, b);
    ModIs(x, q * r, 0, b);
    assert x % b == 0;
    AtMultiple(x, b);
  }

  lemma Times(x: nat, a: nat) returns (q: nat)
    requires a >= 1 && x % a == 0
    ensures x == q * a
  {
    q := x / a;
  }

  lemma AtMultiple(x: nat, a: nat)
    requires a >= 1 && x % a == 0
    ensures Serves(x, a)
  {
  }

  lemma TimesTimes(q: int, r: int, b: int)
    ensures q * (r * b) == q * r * b
  {
  }

  /** Packing is a limit: no field is moved by more than that, or than its type asks for. */
  lemma {:induction false} PackingLimits(fields: seq<Field>, packing: nat, align: nat, i: nat)
    requires AllProper(fields, packing) && Bounded(fields, false, packing, align) && i < |fields|
    requires fields[i].aligned.None?
    ensures var offset, f := LayFields(fields, false, packing, align).offsets[i], fields[i];
            var moved := offset - SizeBefore(fields, false, packing, align, i);
            var limit := if f.packed.Some? then f.packed.value else packing;
            && 0 <= moved < f.typeAlign
            && (limit != 0 ==> moved < if f.bits.Some? then limit else Max(8, limit))
  {
    hide LayFields, Bounded;
    FieldIsPlaced(fields, false, packing, align, i);
  }

  /** Fields that packing reduces to bytes, as in `__attribute__((packed))`. */
  predicate Packed(f: Field, packing: nat) {
    && f.bits.None? && f.aligned.None? && Serves(SizeOf(f), 8)
    && (if f.packed.Some? then 1 <= f.packed.value <= 8 else 1 <= packing <= 8)
  }

  ghost function SumOfSizes(fields: seq<Field>): nat
    decreases |fields|
  {
    if fields == [] then 0 else SumOfSizes(fields[..|fields| - 1]) + SizeOf(fields[|fields| - 1])
  }

  lemma NothingBefore(fields: seq<Field>, isUnion: bool, packing: nat, align: nat)
    requires AllProper(fields, packing)
    ensures SizeBefore(fields, isUnion, packing, align, 0) == 0 && fields[..0] == []
  {
  }

  /** A packed structure has no padding. */
  lemma {:induction false} PackedHasNoPadding(fields: seq<Field>, packing: nat, align: nat, i: nat)
    requires AllProper(fields, packing) && Bounded(fields, false, packing, align) && i <= |fields|
    requires forall f <- fields :: Packed(f, packing)
    ensures SizeBefore(fields, false, packing, align, i) == SumOfSizes(fields[..i]) && Serves(SumOfSizes(fields[..i]), 8)
    ensures i < |fields| ==> LayFields(fields, false, packing, align).offsets[i] == SumOfSizes(fields[..i])
  {
    hide LayFields, Bounded, SizeBefore, Placed, AlignOf, SizeOf, Proper, IsPow2;
    if i > 0 {
      PackedHasNoPadding(fields, packing, align, i - 1);
      assert fields[..i][..i - 1] == fields[..i - 1];
      assert Packed(fields[i - 1], packing);
      FieldIsPlaced(fields, false, packing, align, i - 1);
    } else {
      NothingBefore(fields, false, packing, align);
    }
    if i < |fields| {
      FieldIsPlaced(fields, false, packing, align, i);
      assert Packed(fields[i], packing) && Proper(fields[i]);
      PackedStays(fields[i], packing, SumOfSizes(fields[..i]), LayFields(fields, false, packing, align).offsets[i]);
    }
  }

  /** At a byte boundary a packed field goes right there. */
  lemma PackedStays(f: Field, packing: nat, start: nat, offset: nat)
    requires Proper(f) && (packing != 0 ==> IsPow2(packing))
    requires Packed(f, packing) && Serves(start, 8) && Placed(f, packing, start, offset)
    ensures offset == start
  {
    var a := AlignOf(f, packing);
    AlignIsPow2(f, packing);
    assert IsPow2(8) by { assert Pow2(3) == 8; }
    assert a <= 8;
    MultipleOf(start, 8, a);
    hide AlignOf, Proper, IsPow2;
    if offset != start { NextMultiple(start, offset, a); }
  }

  lemma NextMultiple(x: nat, y: nat, a: nat)
    requires a >= 1 && x % a == 0 && y % a == 0 && x < y
    ensures y >= x + a
  {
    assert x == (x / a) * a && y == (y / a) * a;
    MulGrows(y / a - x / a, a);
    assert (y / a - x / a) * a == y - x;
  }

  // ------------------------------------------------------------------------------ the class

  class ASTRecordLayout {
    var size: nat
    var alignment: nat
    const fieldOffsets: array<nat>

    constructor (fieldCount: nat)
      ensures size == 0 && alignment == 8
      ensures fresh(fieldOffsets) && fieldOffsets.Length == fieldCount
    {
      size, alignment := 0, 8;
      fieldOffsets := new nat[fieldCount];
    }

    method LayoutField(f: Field, fieldNo: nat, isUnion: bool, structPacking: nat)
      requires Proper(f) && (structPacking != 0 ==> IsPow2(structPacking)) && fieldNo < fieldOffsets.Length
      modifies this`size, this`alignment, fieldOffsets
      ensures 1 <= AlignOf(f, structPacking) <= LIMIT
      ensures LayField(Layout(old(size), old(alignment), old(fieldOffsets[..fieldNo])), f, isUnion, structPacking) ==
              Layout(size, alignment, fieldOffsets[..fieldNo + 1])
    {
      hide And64, RoundUp, Wrap64, IsPow2;
      AlignIsPow2(f, structPacking);
      var fieldPacking := structPacking;
      var fieldOffset := if isUnion then 0 else size;
      var fieldSize, fieldAlign;
      if f.packed.Some? { fieldPacking := f.packed.value; }
      if f.bits.Some? {
        fieldSize := f.bits.value;
        fieldAlign := f.typeAlign;
        if fieldPacking != 0 { fieldAlign := Min(fieldAlign, fieldPacking); }
        if f.aligned.Some? { fieldAlign := Max(fieldAlign, f.aligned.value); }
        if fieldSize == 0 || Wrap64(And64(fieldOffset, fieldAlign - 1) + fieldSize) > f.typeSize {
          fieldOffset := RoundUp(fieldOffset, fieldAlign);
        }
        if !f.named { fieldAlign := 1; }
      } else {
        fieldSize := if f.flexible then 0 else f.typeSize;
        fieldAlign := f.typeAlign;
        if fieldPacking != 0 { fieldAlign := Min(fieldAlign, Max(8, fieldPacking)); }
        if f.aligned.Some? { fieldAlign := Max(fieldAlign, f.aligned.value); }
        fieldOffset := RoundUp(fieldOffset, fieldAlign);
      }
      assert fieldOffset == Place(f, structPacking, if isUnion then 0 else size);
      assert fieldAlign == RecordAlignOf(f, structPacking) && fieldSize == SizeOf(f);
      ghost var before := fieldOffsets[..fieldNo];
      fieldOffsets[fieldNo] := fieldOffset;
      assert fieldOffsets[..fieldNo + 1] == before + [fieldOffset];
      if isUnion {
        size := Max(size, fieldSize);
      } else {
        size := Wrap64(fieldOffset + fieldSize);
      }
      alignment := Max(alignment, fieldAlign);
    }

    method FinalizeLayout()
      requires 1 <= alignment <= LIMIT
      modifies this`size
      ensures size == RoundUp(old(size), alignment)
    {
      size := RoundUp(size, alignment);
    }
  }

  /** The layout of a whole record: its fields one after the other, then the rounding. */
  method GetASTRecordLayout(fields: seq<Field>, isUnion: bool, packed: Option<nat>, aligned: Option<nat>)
    returns (layout: ASTRecordLayout)
    requires AllProper(fields, if packed.Some? then packed.value else 0)
    requires aligned.Some? ==> IsPow2(aligned.value)
    ensures fresh(layout) && layout.fieldOffsets.Length == |fields|
    ensures IsPow2(Max(8, if aligned.Some? then aligned.value else 0))
    ensures Layout(layout.size, layout.alignment, layout.fieldOffsets[..]) ==
            LayRecord(fields, isUnion, if packed.Some? then packed.value else 0,
                      Max(8, if aligned.Some? then aligned.value else 0))
  {
    hide LayField;
    assert IsPow2(8) by { assert Pow2(3) == 8; }
    layout := new ASTRecordLayout(|fields|);
    var structPacking := if packed.Some? then packed.value else 0;
    if aligned.Some? { layout.alignment := Max(layout.alignment, aligned.value); }
    ghost var align := layout.alignment;
    var i := 0;
    while i < |fields|
      invariant 0 <= i <= |fields|
      invariant Layout(layout.size, layout.alignment, layout.fieldOffsets[..i]) ==
                LayFields(fields[..i], isUnion, structPacking, align)
    {
      assert fields[..i + 1][..i] == fields[..i] && fields[..i + 1][i] == fields[i];
      layout.LayoutField(fields[i], i, isUnion, structPacking);
      i := i + 1;
    }
    assert fields[..i] == fields && layout.fieldOffsets[..i] == layout.fieldOffsets[..];
    AlignmentIsPow2(fields, isUnion, structPacking, align);
    Pow2Range(layout.alignment);
    layout.FinalizeLayout();
  }
}
