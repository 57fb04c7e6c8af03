/**
  The encoding of C types as strings.

  Records refer to each other by number, so types can be cyclic through pointers.  The
  encoder is shown to end on all of them whose records do not contain themselves by value,
  never to expand a record within itself, and to produce matching brackets.
 */
module TypeEncoding {
  import opened Options
  import opened TypeMerge

  datatype CType = CType(isConst: bool, form: Form)

  datatype Form =
    | Scalar(kind: BuiltinKind)
    | ComplexOf(elem: CType)
    | PointerTo(pointee: CType)
    | ArrayOf(elem: CType, size: nat)
    | OpenArrayOf(elem: CType)
    | VariableArrayOf(elem: CType)
    | Function
    | RecordType(id: nat)
    | EnumType
    | TypedefOf(name: string, underlying: CType)

  datatype Field = Field(name: string, ty: CType, bits: Option<nat>)

  datatype RecordDecl = RecordDecl(name: Option<string>, isUnion: bool, fields: seq<Field>)

  /** The records of a program, and whether `long` has 32 bits. */
  datatype Program = Program(longIs32: bool, records: nat -> RecordDecl)

  function Size(f: Form): nat {
    match f
    case ComplexOf(elem) => 1 + Size(elem.form)
    case PointerTo(pointee) => 1 + Size(pointee.form)
    case ArrayOf(elem, _) => 1 + Size(elem.form)
    case OpenArrayOf(elem) => 1 + Size(elem.form)
    case VariableArrayOf(elem) => 1 + Size(elem.form)
    case TypedefOf(_, underlying) => 1 + Size(underlying.form)
    case _ => 0
  }

  /** What is left when typedefs are looked through. */
  function Desugar(f: Form): (r: Form)
    ensures Size(r) <= Size(f) && !r.TypedefOf?
  {
    if f.TypedefOf? then Desugar(f.underlying.form) else f
  }

  // ------------------------------------------------------------------------- containment

  type Rank = nat -> nat

  /** How deep records are nested by value in a type. */
  function Depth(rank: Rank, f: Form): nat {
    match f
    case RecordType(id) => 1 + rank(id)
    case ArrayOf(elem, _) => Depth(rank, elem.form)
    case OpenArrayOf(elem) => Depth(rank, elem.form)
    case VariableArrayOf(elem) => Depth(rank, elem.form)
    case TypedefOf(_, underlying) => Depth(rank, underlying.form)
    case _ => 0
  }

  lemma {:induction false} DesugarDepth(rank: Rank, f: Form)
    ensures Depth(rank, Desugar(f)) == Depth(rank, f)
  {
    if f.TypedefOf? { DesugarDepth(rank, f.underlying.form); }
  }

  /** No record contains itself by value: records can be ranked above what they contain. */
  ghost predicate Acyclic(p: Program, rank: Rank) {
    forall id: nat :: RanksFields(p, rank, id)
  }

  ghost predicate RanksFields(p: Program, rank: Rank, id: nat) {
    forall f <- p.records(id).fields :: Depth(rank, f.ty.form) <= rank(id)
  }

  // ---------------------------------------------------------------------------- encoding

  function Digits(n: nat): string {
    if n < 10 then [('0' as int + n) as char] else Digits(n / 10) + [('0' as int + n % 10) as char]
  }

  function ScalarCode(kind: BuiltinKind, longIs32: bool): char {
    match kind
    case Void => 'v'
    case Bool => 'B'
    case CharU => 'C'
    case UChar => 'C'
    case UShort => 'S'
    case UInt => 'I'
    case ULong => if longIs32 then 'L' else 'Q'
    case ULongLong => 'Q'
    case CharS => 'c'
    case SChar => 'c'
    case Short => 's'
    case Int => 'i'
    case Long => if longIs32 then 'l' else 'q'
    case LongLong => 'q'
    case Float => 'f'
    case Double => 'd'
    case LongDouble => 'd'
  }

  /** A 32-bit `long` under a typedef counts as an `int`. */
  function Legacy(p: Program, t: CType): (r: CType)
    ensures Size(r.form) <= Size(t.form)
    ensures forall rank :: Depth(rank, r.form) <= Depth(rank, t.form)
  {
    if t.form.TypedefOf? && p.longIs32 && Desugar(t.form) == Scalar(ULong) then CType(false, Scalar(UInt))
    else if t.form.TypedefOf? && p.longIs32 && Desugar(t.form) == Scalar(Long) then CType(false, Scalar(Int))
    else t
  }

  /** The canonical type: typedefs are looked through everywhere, and qualifiers of arrays are the elements'. */
  function CanonicalType(t: CType): (r: CType)
    ensures Size(r.form) <= Size(t.form)
    ensures forall rank :: Depth(rank, r.form) == Depth(rank, t.form)
    decreases Size(t.form)
  {
    match t.form
    case TypedefOf(_, u) => CanonicalType(CType(u.isConst || t.isConst, u.form))
    case ComplexOf(elem) => CType(t.isConst, ComplexOf(CanonicalType(elem)))
    case PointerTo(pointee) => CType(t.isConst, PointerTo(CanonicalType(pointee)))
    case ArrayOf(elem, size) => CType(false, ArrayOf(CanonicalType(CType(elem.isConst || t.isConst, elem.form)), size))
    case OpenArrayOf(elem) => CType(false, OpenArrayOf(CanonicalType(CType(elem.isConst || t.isConst, elem.form))))
    case VariableArrayOf(elem) => CType(false, VariableArrayOf(CanonicalType(CType(elem.isConst || t.isConst, elem.form))))
    case _ => t
  }

  predicate IsChar(f: Form) {
    Desugar(f).Scalar? && Desugar(f).kind in {CharU, UChar, CharS, SChar}
  }

  /** Whether what a chain of pointers ends in is `const`. */
  predicate EndsInConst(t: CType)
    decreases Size(t.form)
  {
    var f := Desugar(t.form);
    if f.PointerTo? then EndsInConst(f.pointee) else t.isConst
  }

  predicate ReadOnly(t: CType, outermost: bool) {
    && outermost && Desugar(t.form).PointerTo?
    && if t.form.TypedefOf? then t.isConst else EndsInConst(Desugar(t.form).pointee)
  }

  /** The mark of a read-only pointer goes before an `n` that was written just before it. */
  function MarkReadOnly(s: string): string {
    if s != "" && s[|s| - 1] == 'n' then s[..|s| - 1] + "rn" else s + "r"
  }

  predicate IsBitField(fd: Option<Field>) {
    fd.Some? && fd.value.bits.Some?
  }

  function BitFieldCode(f: Field): string
    requires f.bits.Some?
  {
    "b" + Digits(f.bits.value)
  }

  function RecordName(d: RecordDecl): string {
    if d.name.Some? then d.name.value else "?"
  }

  /**
    What the encoder appends, apart from the read-only mark.  The measure: the two flags,
    the depth of containment while records are expanded, and the size of the type.
   */
  ghost function Code(p: Program, rank: Rank, t: CType, expandPointed: bool, expand: bool, fd: Option<Field>): string
    requires Acyclic(p, rank)
    decreases expandPointed, expand, if expand then Depth(rank, t.form) else 0, Size(t.form), 0
  {
    DesugarDepth(rank, t.form);
    match Desugar(t.form)
    case Scalar(kind) =>
      if IsBitField(fd) then BitFieldCode(fd.value) else [ScalarCode(kind, p.longIs32)]
    case ComplexOf(elem) => "j" + Code(p, rank, elem, false, false, None)
    case PointerTo(pointee) =>
      if IsChar(pointee.form) && !(pointee.form.TypedefOf? && pointee.form.name == "BOOL") then "*"
      else "^" + Code(p, rank, Legacy(p, pointee), false, expandPointed, None)
    case ArrayOf(elem, size) => "[" + Digits(size) + Code(p, rank, CanonicalType(elem), false, expand, fd) + "]"
    case OpenArrayOf(elem) => "^" + Code(p, rank, CanonicalType(elem), false, expand, fd)
    case VariableArrayOf(elem) => "[0" + Code(p, rank, CanonicalType(elem), false, expand, fd) + "]"
    case Function => "?"
    case RecordType(id) =>
      assert RanksFields(p, rank, id);
      var d := p.records(id);
      (if d.isUnion then "(" else "{") + RecordName(d) +
      (if expand then "=" + FieldsCode(p, rank, id, |d.fields|, fd) else "") +
      (if d.isUnion then ")" else "}")
    case EnumType => if IsBitField(fd) then BitFieldCode(fd.value) else "i"
  }

  /** The first `n` fields of an expanded record. */
  ghost function FieldsCode(p: Program, rank: Rank, id: nat, n: nat, fd: Option<Field>): string
    requires Acyclic(p, rank) && n <= |p.records(id).fields|
    decreases false, true, 1 + rank(id), 0, 0, n
  {
    if n == 0 then ""
    else
      var f := p.records(id).fields[n - 1];
      assert RanksFields(p, rank, id);
      FieldsCode(p, rank, id, n - 1, fd) +
      (if fd.Some? then "\"" + f.name + "\"" else "") +
      (if f.bits.Some? then Code(p, rank, f.ty, false, true, Some(f))
       else Code(p, rank, Legacy(p, f.ty), false, true, fd))
  }

  /** What is in the string once `t` is encoded. */
  ghost function Encoded(p: Program, rank: Rank, s: string, t: CType, expandPointed: bool, expand: bool,
                         fd: Option<Field>, outermost: bool): string
    requires Acyclic(p, rank)
  {
    (if ReadOnly(t, outermost) then MarkReadOnly(s) else s) + Code(p, rank, t, expandPointed, expand, fd)
  }

  class EncodingBuffer {
    var s: string

    constructor ()
      ensures s == ""
    {
      s := "";
    }

    method GetObjCEncodingForType(p: Program, ghost rank: Rank, t: CType, field: Option<Field>)
      requires Acyclic(p, rank)
      modifies this
      ensures s == Encoded(p, rank, old(s), t, true, true, field, true)
    {
      EncodeType(p, rank, t, true, true, field, true);
    }

    method EncodeType(p: Program, ghost rank: Rank, t: CType, expandPointed: bool, expand: bool,
                      fd: Option<Field>, outermost: bool)
      requires Acyclic(p, rank)
      modifies this
      ensures s == Encoded(p, rank, old(s), t, expandPointed, expand, fd, outermost)
      decreases expandPointed, expand, if expand then Depth(rank, t.form) else 0, Size(t.form), 2
    {
      hide EndsInConst, MarkReadOnly, Legacy;
      DesugarDepth(rank, t.form);
      match Desugar(t.form) {
        case Scalar(kind) =>
          if IsBitField(fd) {
            s := s + BitFieldCode(fd.value);
          } else {
            s := s + [ScalarCode(kind, p.longIs32)];
          }
        case ComplexOf(elem) =>
          s := s + "j";
          EncodeType(p, rank, elem, false, false, None, false);
          Together(old(s), "j", Code(p, rank, elem, false, false, None), "");
        case PointerTo(pointee) => EncodePointer(p, rank, t, pointee, expandPointed, expand, fd, outermost);
        case ArrayOf(elem, size) => EncodeArray(p, rank, "[" + Digits(size), CanonicalType(elem), "]", expand, fd);
        case OpenArrayOf(elem) => EncodeArray(p, rank, "^", CanonicalType(elem), "", expand, fd);
        case VariableArrayOf(elem) => EncodeArray(p, rank, "[0", CanonicalType(elem), "]", expand, fd);
        case Function => s := s + "?";
        case RecordType(id) => EncodeRecord(p, rank, t, id, expandPointed, expand, fd, outermost);
        case EnumType =>
          if IsBitField(fd) { s := s + BitFieldCode(fd.value); } else { s := s + "i"; }
      }
    }

    method EncodeArray(p: Program, ghost rank: Rank, before: string, elem: CType, after: string,
                       expand: bool, fd: Option<Field>)
      requires Acyclic(p, rank)
      modifies this
      ensures s == old(s) + (before + Code(p, rank, elem, false, expand, fd) + after)
      decreases false, expand, if expand then Depth(rank, elem.form) else 0, Size(elem.form), 3
    {
      hide Code;
      s := s + before;
      EncodeType(p, rank, elem, false, expand, fd, false);
      s := s + after;
      Together(old(s), before, Code(p, rank, elem, false, expand, fd), after);
    }

    method EncodePointer(p: Program, ghost rank: Rank, t: CType, pointee: CType, expandPointed: bool,
                         expand: bool, fd: Option<Field>, outermost: bool)
      requires Acyclic(p, rank) && Desugar(t.form) == PointerTo(pointee)
      modifies this
      ensures s == Encoded(p, rank, old(s), t, expandPointed, expand, fd, outermost)
      decreases expandPointed, expand, if expand then Depth(rank, t.form) else 0, Size(t.form), 1
    {
      hide Legacy, Depth, Acyclic;
      MarkIfReadOnly(t, pointee, outermost);
      ghost var marked := s;
      if IsChar(pointee.form) && !(pointee.form.TypedefOf? && pointee.form.name == "BOOL") {
        s := s + "*";
        return;
      }
      s := s + "^";
      EncodeType(p, rank, Legacy(p, pointee), false, expandPointed, None, false);
      Together(marked, "^", Code(p, rank, Legacy(p, pointee), false, expandPointed, None), "");
    }

    method MarkIfReadOnly(t: CType, pointee: CType, outermost: bool)
      requires Desugar(t.form) == PointerTo(pointee)
      modifies this
      ensures s == if ReadOnly(t, outermost) then MarkReadOnly(old(s)) else old(s)
    {
      var isReadOnly := false;
      if t.form.TypedefOf? {
        isReadOnly := outermost && t.isConst;
      } else if outermost {
        var q := pointee;
        while Desugar(q.form).PointerTo?
          invariant EndsInConst(q) == EndsInConst(pointee)
          decreases Size(q.form)
        {
          q := Desugar(q.form).pointee;
        }
        isReadOnly := q.isConst;
      }
      if isReadOnly {
        s := s + "r";
        var n := |s|;
        if n >= 2 && s[n - 2] == 'n' && s[n - 1] == 'r' {
          s := s[..n - 2] + "rn";
        }
      }
    }

    method EncodeRecord(p: Program, ghost rank: Rank, t: CType, id: nat, expandPointed: bool,
                        expand: bool, fd: Option<Field>, outermost: bool)
      requires Acyclic(p, rank) && Desugar(t.form) == RecordType(id)
      modifies this
      ensures s == Encoded(p, rank, old(s), t, expandPointed, expand, fd, outermost)
      decreases expandPointed, expand, if expand then Depth(rank, t.form) else 0, Size(t.form), 1
    {
      hide Legacy, FieldsCode;
      DesugarDepth(rank, t.form);
      var d := p.records(id);
      var open, close := if d.isUnion then "(" else "{", if d.isUnion then ")" else "}";
      s := s + open;
      s := s + RecordName(d);
      ghost var body := "";
      if expand {
        s := s + "=";
        EncodeFields(p, rank, id, fd);
        body := "=" + FieldsCode(p, rank, id, |d.fields|, fd);
        Together(old(s) + open + RecordName(d), "=", FieldsCode(p, rank, id, |d.fields|, fd), "");
      }
      assert s == old(s) + open + RecordName(d) + body;
      s := s + close;
      Together(old(s), open + RecordName(d), body, close);
      Together(old(s), open, RecordName(d), "");
    }

    method EncodeFields(p: Program, ghost rank: Rank, id: nat, fd: Option<Field>)
      requires Acyclic(p, rank)
      modifies this
      ensures s == old(s) + FieldsCode(p, rank, id, |p.records(id).fields|, fd)
      decreases false, true, 1 + rank(id), 0, 0
    {
      hide Code, Legacy;
      var d := p.records(id);
      assert RanksFields(p, rank, id);
      ghost var start := s;
      var i := 0;
      while i < |d.fields|
        invariant 0 <= i <= |d.fields|
        invariant s == start + FieldsCode(p, rank, id, i, fd)
      {
        var f := d.fields[i];
        ghost var before := FieldsCode(p, rank, id, i, fd);
        var quoted := if fd.Some? then "\"" + f.name + "\"" else "";
        s := s + quoted;
        ghost var code;
        if f.bits.Some? {
          EncodeType(p, rank, f.ty, false, true, Some(f), false);
          code := Code(p, rank, f.ty, false, true, Some(f));
        } else {
          EncodeType(p, rank, Legacy(p, f.ty), false, true, fd, false);
          code := Code(p, rank, Legacy(p, f.ty), false, true, fd);
        }
        Together(start, before, quoted, code);
        assert FieldsCode(p, rank, id, i + 1, fd) == before + quoted + code;
        i := i + 1;
      }
    }
  }

  lemma Together(a: string, b: string, c: string, d: string)
    ensures a + b + c + d == a + (b + c + d)
    ensures a + b + c == a + (b + c)
  {
  }

  // --------------------------------------------------------------- no body within itself

  /** No record is expanded while it is one of those whose bodies are `open`. */
  ghost predicate WellNested(p: Program, rank: Rank, t: CType, expandPointed: bool, expand: bool, open: set<nat>)
    requires Acyclic(p, rank)
    decreases expandPointed, expand, if expand then Depth(rank, t.form) else 0, Size(t.form), 0
  {
    DesugarDepth(rank, t.form);
    match Desugar(t.form)
    case ComplexOf(elem) => WellNested(p, rank, elem, false, false, open)
    case PointerTo(pointee) => WellNested(p, rank, Legacy(p, pointee), false, expandPointed, open)
    case ArrayOf(elem, _) => WellNested(p, rank, CanonicalType(elem), false, expand, open)
    case OpenArrayOf(elem) => WellNested(p, rank, CanonicalType(elem), false, expand, open)
    case VariableArrayOf(elem) => WellNested(p, rank, CanonicalType(elem), false, expand, open)
    case RecordType(id) =>
      assert RanksFields(p, rank, id);
      expand ==>
        && id !in open
        && forall f <- p.records(id).fields ::
             && WellNested(p, rank, f.ty, false, true, open + {id})
             && WellNested(p, rank, Legacy(p, f.ty), false, true, open + {id})
    case _ => true
  }

  /** Inside a body pointed-to records are not expanded, and the others are ranked lower. */
  lemma {:induction false} BodiesAreNested(p: Program, rank: Rank, t: CType, expandPointed: bool, expand: bool, open: set<nat>)
    requires Acyclic(p, rank)
    requires expandPointed ==> open == {}
    requires expand ==> forall id <- open :: Depth(rank, t.form) <= rank(id)
    ensures WellNested(p, rank, t, expandPointed, expand, open)
    decreases expandPointed, expand, if expand then Depth(rank, t.form) else 0, Size(t.form), 0
  {
    DesugarDepth(rank, t.form);
    match Desugar(t.form) {
      case ComplexOf(elem) => BodiesAreNested(p, rank, elem, false, false, open);
      case PointerTo(pointee) => BodiesAreNested(p, rank, Legacy(p, pointee), false, expandPointed, open);
      case ArrayOf(elem, _) => BodiesAreNested(p, rank, CanonicalType(elem), false, expand, open);
      case OpenArrayOf(elem) => BodiesAreNested(p, rank, CanonicalType(elem), false, expand, open);
      case VariableArrayOf(elem) => BodiesAreNested(p, rank, CanonicalType(elem), false, expand, open);
      case RecordType(id) =>
        if expand {
          assert RanksFields(p, rank, id);
          forall f | f in p.records(id).fields
            ensures WellNested(p, rank, f.ty, false, true, open + {id})
            ensures WellNested(p, rank, Legacy(p, f.ty), false, true, open + {id})
          {
            BodiesAreNested(p, rank, f.ty, false, true, open + {id});
            BodiesAreNested(p, rank, Legacy(p, f.ty), false, true, open + {id});
          }
        }
      case _ =>
    }
  }

  /** Whatever a type is, encoding it expands no record within itself. */
  lemma {:induction false} NoBodyWithinItself(p: Program, rank: Rank, t: CType)
    requires Acyclic(p, rank)
    ensures WellNested(p, rank, t, true, true, {})
  {
    BodiesAreNested(p, rank, t, true, true, {});
  }

  // --------------------------------------------------------------------------- brackets

  predicate Opens(c: char) { c == '(' || c == '[' || c == '{' }

  predicate Closes(c: char) { c == ')' || c == ']' || c == '}' }

  function Closing(c: char): char {
    if c == '(' then ')' else if c == '[' then ']' else '}'
  }

  /** The brackets still open after `s`; None if one is closed by another. */
  function Scan(stack: string, s: string): Option<string>
    decreases |s|
  {
    if s == "" then Some(stack)
    else if Opens(s[0]) then Scan(stack + [s[0]], s[1..])
    else if !Closes(s[0]) then Scan(stack, s[1..])
    else if stack != "" && Closing(stack[|stack| - 1]) == s[0] then Scan(stack[..|stack| - 1], s[1..])
    else None
  }

  predicate NoBrackets(s: string) {
    forall c <- s :: !Opens(c) && !Closes(c)
  }

  /** Names are identifiers. */
  ghost predicate PlainNames(p: Program) {
    forall id: nat :: PlainRecord(p.records(id))
  }

  predicate PlainRecord(d: RecordDecl) {
    (d.name.Some? ==> NoBrackets(d.name.value)) && forall f <- d.fields :: NoBrackets(f.name)
  }

  lemma {:induction false} ScanTwo(stack: string, a: string, b: string)
    ensures Scan(stack, a + b) == if Scan(stack, a).None? then None else Scan(Scan(stack, a).value, b)
    decreases |a|
  {
    if a == "" {
      assert a + b == b;
    } else {
      assert (a + b)[1..] == a[1..] + b;
      if Opens(a[0]) {
        ScanTwo(stack + [a[0]], a[1..], b);
      } else if !Closes(a[0]) {
        ScanTwo(stack, a[1..], b);
      } else if stack != "" && Closing(stack[|stack| - 1]) == a[0] {
        ScanTwo(stack[..|stack| - 1], a[1..], b);
      }
    }
  }

  lemma {:induction false} ScanPlain(stack: string, s: string)
    requires NoBrackets(s)
    ensures Scan(stack, s) == Some(stack)
  {
    if s != "" {
      assert s[0] in s;
      ScanPlain(stack, s[1..]);
    }
  }

  lemma {:induction false} DigitsArePlain(n: nat)
    ensures NoBrackets(Digits(n))
  {
    if n >= 10 { DigitsArePlain(n / 10); }
  }

  /** A balanced text between two matching brackets is balanced. */
  lemma {:induction false} ScanEnclosed(stack: string, open: string, s: string, close: string)
    requires |open| == |close| == 1 && Opens(open[0]) && close[0] == Closing(open[0])
    requires Scan(stack + open, s) == Some(stack + open)
    ensures Scan(stack, open + s + close) == Some(stack)
  {
    assert open[1..] == "" && close[1..] == "" && open == [open[0]];
    assert (stack + open)[..|stack|] == stack && (stack + open)[|stack|] == open[0];
    ScanTwo(stack, open + s, close);
    ScanTwo(stack, open, s);
    assert Scan(stack, open) == Some(stack + open);
    assert Scan(stack + open, close) == Scan(stack, close[1..]);
  }

  /** Text without brackets before balanced text. */
  lemma {:induction false} ScanAfter(stack: string, plain: string, s: string)
    requires NoBrackets(plain) && Scan(stack, s) == Some(stack)
    ensures Scan(stack, plain + s) == Some(stack)
  {
    ScanPlain(stack, plain);
    ScanTwo(stack, plain, s);
  }

  /** Every encoding leaves the brackets as it found them, each closed by its own kind. */
  lemma {:induction false} BracketsMatch(p: Program, rank: Rank, t: CType, expandPointed: bool, expand: bool,
                                         fd: Option<Field>, stack: string)
    requires Acyclic(p, rank) && PlainNames(p)
    ensures Scan(stack, Code(p, rank, t, expandPointed, expand, fd)) == Some(stack)
    decreases expandPointed, expand, if expand then Depth(rank, t.form) else 0, Size(t.form), 0
  {
    hide Scan;
    DesugarDepth(rank, t.form);
    if IsBitField(fd) { DigitsArePlain(fd.value.bits.value); }
    match Desugar(t.form) {
      case Scalar(kind) => ScanPlain(stack, Code(p, rank, t, expandPointed, expand, fd));
      case ComplexOf(elem) =>
        BracketsMatch(p, rank, elem, false, false, None, stack);
        ScanAfter(stack, "j", Code(p, rank, elem, false, false, None));
      case PointerTo(pointee) =>
        ScanPlain(stack, "*");
        BracketsMatch(p, rank, Legacy(p, pointee), false, expandPointed, None, stack);
        ScanAfter(stack, "^", Code(p, rank, Legacy(p, pointee), false, expandPointed, None));
      case ArrayOf(elem, size) =>
        BracketsMatch(p, rank, CanonicalType(elem), false, expand, fd, stack + "[");
        DigitsArePlain(size);
        ArrayBrackets(stack, Digits(size), Code(p, rank, CanonicalType(elem), false, expand, fd));
      case OpenArrayOf(elem) =>
        BracketsMatch(p, rank, CanonicalType(elem), false, expand, fd, stack);
        ScanAfter(stack, "^", Code(p, rank, CanonicalType(elem), false, expand, fd));
      case VariableArrayOf(elem) =>
        BracketsMatch(p, rank, CanonicalType(elem), false, expand, fd, stack + "[");
        ArrayBrackets(stack, "0", Code(p, rank, CanonicalType(elem), false, expand, fd));
        assert "[" + "0" == "[0";
      case Function => ScanPlain(stack, "?");
      case RecordType(id) =>
        if expand { FieldsMatch(p, rank, id, |p.records(id).fields|, fd, stack + if p.records(id).isUnion then "(" else "{"); }
        RecordBrackets(p, rank, t, id, expandPointed, expand, fd, stack);
      case EnumType => ScanPlain(stack, Code(p, rank, t, expandPointed, expand, fd));
    }
  }

  lemma {:induction false} ArrayBrackets(stack: string, digits: string, s: string)
    requires NoBrackets(digits) && Scan(stack + "[", s) == Some(stack + "[")
    ensures Scan(stack, "[" + digits + s + "]") == Some(stack)
  {
    ScanAfter(stack + "[", digits, s);
    ScanEnclosed(stack, "[", digits + s, "]");
    assert "[" + (digits + s) + "]" == "[" + digits + s + "]";
  }

  lemma RecordBrackets(p: Program, rank: Rank, t: CType, id: nat, expandPointed: bool, expand: bool,
                       fd: Option<Field>, stack: string)
    requires Acyclic(p, rank) && PlainNames(p) && Desugar(t.form) == RecordType(id)
    requires var inner := stack + if p.records(id).isUnion then "(" else "{";
             expand ==> Scan(inner, FieldsCode(p, rank, id, |p.records(id).fields|, fd)) == Some(inner)
    ensures Scan(stack, Code(p, rank, t, expandPointed, expand, fd)) == Some(stack)
  {
    hide Scan, FieldsCode, Legacy, CanonicalType;
    var d := p.records(id);
    assert PlainRecord(d);
    var open, close := if d.isUnion then "(" else "{", if d.isUnion then ")" else "}";
    var body := if expand then "=" + FieldsCode(p, rank, id, |d.fields|, fd) else "";
    var inner := stack + open;
    assert Code(p, rank, t, expandPointed, expand, fd) == open + RecordName(d) + body + close;
    hide Code, Acyclic;
    if expand { ScanAfter(inner, "=", FieldsCode(p, rank, id, |d.fields|, fd)); } else { ScanPlain(inner, ""); }
    ScanAfter(inner, RecordName(d), body);
    ScanEnclosed(stack, open, RecordName(d) + body, close);
    assert open + (RecordName(d) + body) + close == open + RecordName(d) + body + close;
  }

  lemma {:induction false} FieldsMatch(p: Program, rank: Rank, id: nat, n: nat, fd: Option<Field>, stack: string)
    requires Acyclic(p, rank) && PlainNames(p) && n <= |p.records(id).fields|
    ensures Scan(stack, FieldsCode(p, rank, id, n, fd)) == Some(stack)
    decreases false, true, 1 + rank(id), 0, 0, n
  {
    hide Scan;
    if n == 0 {
      ScanPlain(stack, "");
    } else {
      var f := p.records(id).fields[n - 1];
      assert RanksFields(p, rank, id) && PlainRecord(p.records(id)) && f in p.records(id).fields;
      FieldsMatch(p, rank, id, n - 1, fd, stack);
      var before := FieldsCode(p, rank, id, n - 1, fd);
      var label_ := if fd.Some? then "\"" + f.name + "\"" else "";
      var code := if f.bits.Some? then Code(p, rank, f.ty, false, true, Some(f))
                  else Code(p, rank, Legacy(p, f.ty), false, true, fd);
      if f.bits.Some? {
        BracketsMatch(p, rank, f.ty, false, true, Some(f), stack);
      } else {
        BracketsMatch(p, rank, Legacy(p, f.ty), false, true, fd, stack);
      }
      ScanPlain(stack, label_);
      ScanTwo(stack, before, label_);
      ScanTwo(stack, before + label_, code);
    }
  }
}
