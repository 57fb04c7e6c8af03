/**
  Reading type codes back: what a code says about the type, told without strings, and a
  reader of codes that recovers it.
 */
module TypeDecoding {
  import opened Options
  import opened TypeMerge
  import opened TypeEncoding

  // ------------------------------------------------------------------------ what is coded

  /** A 32-bit `long` has letters of its own. */
  datatype Basic = Nothing | Truth | Integer(bytes: nat, signed: bool) | ShortLong(signed: bool) | Floating(wide: bool)

  datatype Coded =
    | Plain(basic: Basic)
    | Text                                // a pointer to char
    | Pointed(to: Coded)
    | Paired(of: Coded)                   // a complex number
    | Many(count: nat, of: Coded)
    | Callable
    | Named(isUnion: bool, name: string)  // a record whose members are left out
    | Whole(isUnion: bool, name: string, members: Members)
    | Bits(width: nat)

  datatype Members = End | And(name: Option<string>, ty: Coded, more: Members)

  function Bytes(kind: BuiltinKind, longIs32: bool): nat {
    match kind
    case CharU => 1
    case CharS => 1
    case UChar => 1
    case SChar => 1
    case UShort => 2
    case Short => 2
    case UInt => 4
    case Int => 4
    case ULong => if longIs32 then 4 else 8
    case Long => if longIs32 then 4 else 8
    case ULongLong => 8
    case LongLong => 8
    case _ => 0
  }

  predicate Signed(kind: BuiltinKind) {
    kind in {CharS, SChar, Short, Int, Long, LongLong}
  }

  function BasicOf(kind: BuiltinKind, longIs32: bool): Basic {
    match kind
    case Void => Nothing
    case Bool => Truth
    case Float => Floating(false)
    case Double => Floating(true)
    case LongDouble => Floating(true)
    case _ =>
      if longIs32 && kind in {Long, ULong} then ShortLong(Signed(kind))
      else Integer(Bytes(kind, longIs32), Signed(kind))
  }

  /** What the code of a type says, with the encoder's flags. */
  ghost function Said(p: Program, rank: Rank, t: CType, expandPointed: bool, expand: bool, fd: Option<Field>): Coded
    requires Acyclic(p, rank)
    decreases expandPointed, expand, if expand then Depth(rank, t.form) else 0, Size(t.form), 0
  {
    DesugarDepth(rank, t.form);
    match Desugar(t.form)
    case Scalar(kind) =>
      if IsBitField(fd) then Bits(fd.value.bits.value) else Plain(BasicOf(kind, p.longIs32))
    case ComplexOf(elem) => Paired(Said(p, rank, elem, false, false, None))
    case PointerTo(pointee) =>
      if IsChar(pointee.form) && !(pointee.form.TypedefOf? && pointee.form.name == "BOOL") then Text
      else Pointed(Said(p, rank, Legacy(p, pointee), false, expandPointed, None))
    case ArrayOf(elem, size) => Many(size, Said(p, rank, CanonicalType(elem), false, expand, fd))
    case OpenArrayOf(elem) => Pointed(Said(p, rank, CanonicalType(elem), false, expand, fd))
    case VariableArrayOf(elem) => Many(0, Said(p, rank, CanonicalType(elem), false, expand, fd))
    case Function => Callable
    case RecordType(id) =>
      assert RanksFields(p, rank, id);
      var d := p.records(id);
      if expand then Whole(d.isUnion, RecordName(d), MembersFrom(p, rank, id, 0, fd))
      else Named(d.isUnion, RecordName(d))
    case EnumType => if IsBitField(fd) then Bits(fd.value.bits.value) else Plain(Integer(4, true))
  }

  /** The members from the i-th on, in the order of declaration. */
  ghost function MembersFrom(p: Program, rank: Rank, id: nat, i: nat, fd: Option<Field>): Members
    requires Acyclic(p, rank) && i <= |p.records(id).fields|
    decreases false, true, 1 + rank(id), 0, 0, |p.records(id).fields| - i
  {
    if i == |p.records(id).fields| then End
    else
      var f := p.records(id).fields[i];
      assert RanksFields(p, rank, id);
      And(if fd.Some? then Some(f.name) else None,
          if f.bits.Some? then Said(p, rank, f.ty, false, true, Some(f))
          else Said(p, rank, Legacy(p, f.ty), false, true, fd),
          MembersFrom(p, rank, id, i + 1, fd))
  }

  // ------------------------------------------------------------------------ the notation

  function LetterOf(b: Basic): char {
    match b
    case Nothing => 'v'
    case Truth => 'B'
    case Integer(bytes, signed) =>
      if bytes == 1 then (if signed then 'c' else 'C')
      else if bytes == 2 then (if signed then 's' else 'S')
      else if bytes == 4 then (if signed then 'i' else 'I')
      else (if signed then 'q' else 'Q')
    case ShortLong(signed) => if signed then 'l' else 'L'
    case Floating(wide) => if wide then 'd' else 'f'
  }

  function Written(c: Coded): string {
    match c
    case Plain(basic) => [LetterOf(basic)]
    case Text => "*"
    case Pointed(to) => "^" + Written(to)
    case Paired(of) => "j" + Written(of)
    case Many(count, of) => "[" + Digits(count) + Written(of) + "]"
    case Callable => "?"
    case Named(isUnion, name) => Braced(isUnion, name)
    case Whole(isUnion, name, members) => Braced(isUnion, name + "=" + AllWritten(members))
    case Bits(width) => "b" + Digits(width)
  }

  function Braced(isUnion: bool, s: string): string {
    (if isUnion then "(" else "{") + s + (if isUnion then ")" else "}")
  }

  function AllWritten(ms: Members): string {
    if ms.End? then ""
    else Quoted(ms.name) + Written(ms.ty) + AllWritten(ms.more)
  }

  function Quoted(name: Option<string>): string {
    if name.Some? then "\"" + name.value + "\"" else ""
  }

  // ------------------------------------------------------------------------ reading

  predicate IsDigit(c: char) {
    '0' <= c <= '9'
  }

  /** The number that begins with the digits read so far, and what follows it. */
  function TakeNumber(s: string, sofar: nat): (r: (nat, string))
    ensures |r.1| <= |s|
  {
    if s != "" && IsDigit(s[0]) then TakeNumber(s[1..], 10 * sofar + (s[0] as int - '0' as int)) else (sofar, s)
  }

  predicate Ends(c: char) {
    c in {'=', '}', ')', '"'}
  }

  function TakeName(s: string): (r: (string, string))
    ensures |r.1| <= |s|
  {
    if s == "" || Ends(s[0]) then ("", s) else var rest := TakeName(s[1..]); ([s[0]] + rest.0, rest.1)
  }

  function BasicNamed(c: char): Option<Basic> {
    match c
    case 'v' => Some(Nothing)
    case 'B' => Some(Truth)
    case 'c' => Some(Integer(1, true))
    case 'C' => Some(Integer(1, false))
    case 's' => Some(Integer(2, true))
    case 'S' => Some(Integer(2, false))
    case 'i' => Some(Integer(4, true))
    case 'I' => Some(Integer(4, false))
    case 'q' => Some(Integer(8, true))
    case 'Q' => Some(Integer(8, false))
    case 'l' => Some(ShortLong(true))
    case 'L' => Some(ShortLong(false))
    case 'f' => Some(Floating(false))
    case 'd' => Some(Floating(true))
    case _ => None
  }

  predicate Starts(s: string, c: char) {
    s != "" && s[0] == c
  }

  /** The type at the start of a string, and what follows it. */
  function Read(s: string): (r: Option<(Coded, string)>)
    ensures r.Some? ==> |r.value.1| < |s|
    decreases |s|, 0
  {
    if s == "" then None
    else match s[0]
      case '*' => Some((Text, s[1..]))
      case '?' => Some((Callable, s[1..]))
      case '^' => var to := Read(s[1..]); if to.None? then None else Some((Pointed(to.value.0), to.value.1))
      case 'j' => var of := Read(s[1..]); if of.None? then None else Some((Paired(of.value.0), of.value.1))
      case 'b' => var n := TakeNumber(s[1..], 0); Some((Bits(n.0), n.1))
      case '[' =>
        var n := TakeNumber(s[1..], 0);
        var of := Read(n.1);
        if of.None? || !Starts(of.value.1, ']') then None else Some((Many(n.0, of.value.0), of.value.1[1..]))
      case '{' => ReadWhole(s, false)
      case '(' => ReadWhole(s, true)
      case _ => if BasicNamed(s[0]).Some? then Some((Plain(BasicNamed(s[0]).value), s[1..])) else None
  }

  function ReadWhole(s: string, isUnion: bool): (r: Option<(Coded, string)>)
    requires s != ""
    ensures r.Some? ==> |r.value.1| < |s|
    decreases |s| - 1, 2
  {
    var name := TakeName(s[1..]);
    var close := if isUnion then ')' else '}';
    if Starts(name.1, close) then Some((Named(isUnion, name.0), name.1[1..]))
    else if Starts(name.1, '=') then
      var ms := ReadAll(name.1[1..]);
      if ms.None? || !Starts(ms.value.1, close) then None
      else Some((Whole(isUnion, name.0, ms.value.0), ms.value.1[1..]))
    else None
  }

  function ReadAll(s: string): (r: Option<(Members, string)>)
    ensures r.Some? ==> |r.value.1| <= |s|
    decreases |s|, 1
  {
    if s == "" then None
    else if s[0] == '}' || s[0] == ')' then Some((End, s))
    else
      var name := if s[0] == '"' then TakeName(s[1..]) else ("", s);
      if s[0] == '"' && !Starts(name.1, '"') then None
      else
        var ty := Read(if s[0] == '"' then name.1[1..] else s);
        if ty.None? then None
        else
          var rest := ReadAll(ty.value.1);
          if rest.None? then None
          else
            Some((And(if s[0] == '"' then Some(name.0) else None, ty.value.0, rest.value.0), rest.value.1))
  }

  // ------------------------------------------------------------------------ round trip

  predicate PlainName(n: string) {
    forall i :: 0 <= i < |n| ==> !Ends(n[i])
  }

  predicate Lettered(b: Basic) {
    b.Integer? ==> b.bytes in {1, 2, 4, 8}
  }

  predicate Legible(c: Coded)
  {
    match c
    case Plain(basic) => Lettered(basic)
    case Pointed(to) => Legible(to)
    case Paired(of) => Legible(of)
    case Many(_, of) => Legible(of)
    case Named(_, name) => PlainName(name)
    case Whole(_, name, members) => PlainName(name) && AllLegible(members)
    case _ => true
  }

  predicate AllLegible(ms: Members) {
    ms.And? ==> (ms.name.Some? ==> PlainName(ms.name.value)) && Legible(ms.ty) && AllLegible(ms.more)
  }

  lemma {:induction false} NumberReadsBack(n: nat, rest: string)
    ensures TakeNumber(Digits(n) + rest, 0) == TakeNumber(rest, n)
    decreases n
  {
    var d := ('0' as int + n % 10) as char;
    if n < 10 {
      assert (Digits(n) + rest)[1..] == rest;
    } else {
      assert Digits(n) + rest == Digits(n / 10) + ([d] + rest);
      NumberReadsBack(n / 10, [d] + rest);
      assert ([d] + rest)[1..] == rest;
    }
  }

  lemma {:induction false} NameReadsBack(n: string, rest: string)
    requires PlainName(n) && rest != "" && Ends(rest[0])
    ensures TakeName(n + rest) == (n, rest)
  {
    if n == "" {
      assert n + rest == rest;
    } else {
      assert (n + rest)[1..] == n[1..] + rest;
      NameReadsBack(n[1..], rest);
      assert [n[0]] + n[1..] == n;
    }
  }

  predicate NoDigit(s: string) {
    s == "" || !IsDigit(s[0])
  }

  /** How codes begin. */
  lemma {:induction false} Begins(c: Coded)
    requires Legible(c)
    ensures Written(c) != "" && !IsDigit(Written(c)[0]) && !Ends(Written(c)[0])
  {
  }

  // What is left of a string after its first character.

  lemma AfterFirst(c: char, s: string, rest: string)
    ensures ([c] + s + rest)[1..] == s + rest && ([c] + rest)[1..] == rest
  {
    assert [c] + s + rest == [c] + (s + rest);
  }

  lemma AfterBracket(count: string, of: string, rest: string)
    ensures ("[" + count + of + "]" + rest)[1..] == count + (of + ("]" + rest))
  {
    assert "[" + count + of + "]" + rest == "[" + (count + (of + ("]" + rest)));
  }

  function Close(isUnion: bool): string {
    if isUnion then ")" else "}"
  }

  lemma AfterBrace(isUnion: bool, s: string, rest: string)
    ensures (Braced(isUnion, s) + rest)[1..] == s + (Close(isUnion) + rest)
    ensures (Braced(isUnion, s) + rest)[0] == (if isUnion then '(' else '{')
  {
    var open := if isUnion then "(" else "{";
    assert Braced(isUnion, s) + rest == open + (s + (Close(isUnion) + rest));
  }

  lemma AfterQuote(name: string, rest: string)
    ensures ("\"" + name + "\"" + rest)[1..] == name + ("\"" + rest)
  {
    assert "\"" + name + "\"" + rest == "\"" + (name + ("\"" + rest));
  }

  lemma Regroup(a: string, b: string, c: string)
    ensures a + b + c == a + (b + c)
  {
  }

  /** A code is read back as what it was written for, whatever follows it. */
  lemma {:induction false} ReadsBack(c: Coded, rest: string)
    requires Legible(c) && NoDigit(rest)
    ensures Read(Written(c) + rest) == Some((c, rest))
    decreases c, 1
  {
    match c {
      case Pointed(to) =>
        ReadsBack(to, rest);
        PrefixReadsBack(c, to, rest);
      case Paired(of) =>
        ReadsBack(of, rest);
        PrefixReadsBack(c, of, rest);
      case Many(_, _) => ManyReadsBack(c, rest);
      case Named(_, _) => NamedReadsBack(c, rest);
      case Whole(_, _, _) => WholeReadsBack(c, rest);
      case _ => LeafReadsBack(c, rest);
    }
  }

  lemma {:induction false} LeafReadsBack(c: Coded, rest: string)
    requires (c.Plain? || c.Text? || c.Callable? || c.Bits?) && Legible(c) && NoDigit(rest)
    ensures Read(Written(c) + rest) == Some((c, rest))
  {
    var s := Written(c) + rest;
    AfterFirst(Written(c)[0], "", rest);
    if c.Bits? {
      NumberReadsBack(c.width, rest);
      AfterFirst('b', Digits(c.width), rest);
      hide Digits;
    } else if c.Plain? {
      assert BasicNamed(LetterOf(c.basic)) == Some(c.basic);
      assert Written(c) == [LetterOf(c.basic)] && s[1..] == rest;
      LetterReads(s);
    }
  }

  lemma {:induction false} LetterReads(s: string)
    requires s != "" && BasicNamed(s[0]).Some?
    ensures Read(s) == Some((Plain(BasicNamed(s[0]).value), s[1..]))
  {
  }

  lemma {:induction false} PrefixReadsBack(c: Coded, inner: Coded, rest: string)
    requires c == Pointed(inner) || c == Paired(inner)
    requires Read(Written(inner) + rest) == Some((inner, rest))
    ensures Read(Written(c) + rest) == Some((c, rest))
  {
    AfterFirst('^', Written(inner), rest);
    AfterFirst('j', Written(inner), rest);
    hide BasicNamed, ReadWhole, TakeNumber, LetterOf;
  }

  lemma {:induction false} ManyReadsBack(c: Coded, rest: string)
    requires c.Many? && Legible(c) && NoDigit(rest)
    ensures Read(Written(c) + rest) == Some((c, rest))
    decreases c, 0
  {
    var code, after := Written(c.of), "]" + rest;
    ReadsBack(c.of, after);
    Begins(c.of);
    NumberReadsBack(c.count, code + after);
    AfterBracket(Digits(c.count), code, rest);
    AfterFirst(']', "", rest);
    assert Written(c) == "[" + Digits(c.count) + code + "]";
    hide Written, Legible, Digits, BasicNamed;
    assert TakeNumber(code + after, c.count) == (c.count, code + after);
  }

  lemma {:induction false} NamedReadsBack(c: Coded, rest: string)
    requires c.Named? && Legible(c) && NoDigit(rest)
    ensures Read(Written(c) + rest) == Some((c, rest))
  {
    var s, after := Written(c) + rest, Close(c.isUnion) + rest;
    AfterBrace(c.isUnion, c.name, rest);
    AfterFirst(Close(c.isUnion)[0], "", rest);
    NameReadsBack(c.name, after);
    BraceReads(s, c.isUnion);
    hide Read, Written, Legible, TakeName, Braced;
  }

  lemma {:induction false} WholeReadsBack(c: Coded, rest: string)
    requires c.Whole? && Legible(c) && NoDigit(rest)
    ensures Read(Written(c) + rest) == Some((c, rest))
    decreases c, 0
  {
    var s, after := Written(c) + rest, Close(c.isUnion) + rest;
    var inner := "=" + (AllWritten(c.members) + after);
    AfterBrace(c.isUnion, c.name + "=" + AllWritten(c.members), rest);
    AfterFirst(Close(c.isUnion)[0], "", rest);
    AfterFirst('=', AllWritten(c.members), after);
    AllReadBack(c.members, after);
    NameReadsBack(c.name, inner);
    BraceReads(s, c.isUnion);
    hide Read, ReadAll, Written, AllWritten, Legible, AllLegible, TakeName, Braced;
    assert s[1..] == c.name + inner by {
      Regroup(c.name + "=", AllWritten(c.members), after);
      Regroup(c.name, "=", AllWritten(c.members) + after);
    }
    Regroup("=", AllWritten(c.members), after);
  }

  lemma {:induction false} BraceReads(s: string, isUnion: bool)
    requires Starts(s, if isUnion then '(' else '{')
    ensures Read(s) == ReadWhole(s, isUnion)
  {
  }

  lemma {:induction false} AllReadBack(ms: Members, rest: string)
    requires AllLegible(ms) && rest != "" && (rest[0] == '}' || rest[0] == ')')
    ensures ReadAll(AllWritten(ms) + rest) == Some((ms, rest))
    decreases ms
  {
    if ms.And? {
      var more := AllWritten(ms.more) + rest;
      MoreBegins(ms.more, rest);
      AllReadBack(ms.more, rest);
      ReadsBack(ms.ty, more);
      OneReads(ms.name, ms.ty, more);
      var name, code := Quoted(ms.name), Written(ms.ty);
      assert AllWritten(ms) == name + code + AllWritten(ms.more);
      hide Written, AllWritten, ReadAll, Read, AllLegible, Legible, Quoted;
      Regroup(name + code, AllWritten(ms.more), rest);
      Regroup(name, code, more);
    } else {
      assert AllWritten(ms) + rest == rest;
    }
  }

  lemma {:induction false} MoreBegins(ms: Members, rest: string)
    requires AllLegible(ms) && rest != "" && (rest[0] == '}' || rest[0] == ')')
    ensures NoDigit(AllWritten(ms) + rest)
  {
    if ms.And? { Begins(ms.ty); } else { assert AllWritten(ms) + rest == rest; }
  }

  /** A member at the start of a list. */
  lemma {:induction false} OneReads(name: Option<string>, ty: Coded, more: string)
    requires name.Some? ==> PlainName(name.value)
    requires Legible(ty) && Read(Written(ty) + more) == Some((ty, more))
    ensures var all := ReadAll(Quoted(name) + (Written(ty) + more));
            var rest := ReadAll(more);
            all == if rest.None? then None else Some((And(name, ty, rest.value.0), rest.value.1))
  {
    Begins(ty);
    var code := Written(ty) + more;
    var s := Quoted(name) + code;
    hide Read, Written, Legible, TakeName;
    if name.Some? {
      var after := "\"" + code;
      AfterQuote(name.value, code);
      AfterFirst('"', "", code);
      NameReadsBack(name.value, after);
      hide Quoted;
    } else {
      assert s == code;
    }
  }

  // ------------------------------------------------------------------------ the encoder's codes

  /** No name of a record or a field is mistaken for punctuation. */
  ghost predicate PlainNames(p: Program) {
    forall id: nat :: PlainName(RecordName(p.records(id))) && forall f <- p.records(id).fields :: PlainName(f.name)
  }

  lemma ScalarLetter(kind: BuiltinKind, longIs32: bool)
    ensures ScalarCode(kind, longIs32) == LetterOf(BasicOf(kind, longIs32)) && Lettered(BasicOf(kind, longIs32))
  {
  }

  /** What the encoder appends is the notation of what is said. */
  ghost predicate Agrees(p: Program, rank: Rank, t: CType, expandPointed: bool, expand: bool, fd: Option<Field>)
    requires Acyclic(p, rank)
  {
    var said := Said(p, rank, t, expandPointed, expand, fd);
    Code(p, rank, t, expandPointed, expand, fd) == Written(said) && Legible(said)
  }

  lemma {:induction false} CodeIsWritten(p: Program, rank: Rank, t: CType, expandPointed: bool, expand: bool, fd: Option<Field>)
    requires Acyclic(p, rank) && PlainNames(p)
    ensures Agrees(p, rank, t, expandPointed, expand, fd)
    decreases expandPointed, expand, if expand then Depth(rank, t.form) else 0, Size(t.form), 2
  {
    hide Agrees, CanonicalType, Legacy, EndsInConst;
    DesugarDepth(rank, t.form);
    match Desugar(t.form) {
      case ComplexOf(elem) => CodeIsWritten(p, rank, elem, false, false, None);
      case PointerTo(pointee) => CodeIsWritten(p, rank, Legacy(p, pointee), false, expandPointed, None);
      case ArrayOf(elem, size) => CodeIsWritten(p, rank, CanonicalType(elem), false, expand, fd);
      case OpenArrayOf(elem) => CodeIsWritten(p, rank, CanonicalType(elem), false, expand, fd);
      case VariableArrayOf(elem) => CodeIsWritten(p, rank, CanonicalType(elem), false, expand, fd);
      case RecordType(id) =>
        assert PlainName(RecordName(p.records(id)));
        if expand { FieldsAreWritten(p, rank, id, 0, fd); }
      case _ =>
    }
    OneStep(p, rank, t, expandPointed, expand, fd);
  }

  /** The parts of t agree. */
  ghost predicate PartsAgree(p: Program, rank: Rank, t: CType, expandPointed: bool, expand: bool, fd: Option<Field>)
    requires Acyclic(p, rank)
  {
    match Desugar(t.form)
    case ComplexOf(elem) => Agrees(p, rank, elem, false, false, None)
    case PointerTo(pointee) => Agrees(p, rank, Legacy(p, pointee), false, expandPointed, None)
    case ArrayOf(elem, _) => Agrees(p, rank, CanonicalType(elem), false, expand, fd)
    case OpenArrayOf(elem) => Agrees(p, rank, CanonicalType(elem), false, expand, fd)
    case VariableArrayOf(elem) => Agrees(p, rank, CanonicalType(elem), false, expand, fd)
    case RecordType(id) =>
      && PlainName(RecordName(p.records(id)))
      && (expand ==> FieldsAgree(p, rank, id, 0, fd))
    case _ => true
  }

  lemma {:induction false} OneStep(p: Program, rank: Rank, t: CType, expandPointed: bool, expand: bool, fd: Option<Field>)
    requires Acyclic(p, rank) && PartsAgree(p, rank, t, expandPointed, expand, fd)
    ensures Agrees(p, rank, t, expandPointed, expand, fd)
  {
    hide CanonicalType, Legacy, EndsInConst, Depth, Size, Acyclic, RanksFields, IsChar, FieldsCode, MembersFrom, Digits, AllWritten, AllLegible;
    match Desugar(t.form) {
      case Scalar(kind) => ScalarLetter(kind, p.longIs32);
      case RecordType(id) => RecordStep(p, rank, t, id, expandPointed, expand, fd);
      case ComplexOf(_) =>
      case PointerTo(_) =>
      case Function =>
      case EnumType =>
      case _ => ArrayStep(p, rank, t, expandPointed, expand, fd);
    }
  }

  lemma {:induction false} ArrayStep(p: Program, rank: Rank, t: CType, expandPointed: bool, expand: bool, fd: Option<Field>)
    requires Acyclic(p, rank) && PartsAgree(p, rank, t, expandPointed, expand, fd)
    requires var f := Desugar(t.form); f.ArrayOf? || f.OpenArrayOf? || f.VariableArrayOf?
    ensures Agrees(p, rank, t, expandPointed, expand, fd)
  {
    hide CanonicalType, Legacy, EndsInConst, Depth, Size, Acyclic, RanksFields, IsChar, FieldsCode, MembersFrom, Digits, AllWritten, AllLegible;
    ZeroDigits();
  }

  lemma ZeroDigits()
    ensures "[" + Digits(0) == "[0"
  {
    assert Digits(0) == "0";
  }

  lemma {:induction false} CodeOfRecord(p: Program, rank: Rank, t: CType, id: nat, expandPointed: bool, expand: bool, fd: Option<Field>)
    requires Acyclic(p, rank) && Desugar(t.form) == RecordType(id)
    ensures Code(p, rank, t, expandPointed, expand, fd) ==
            var d := p.records(id);
            (if d.isUnion then "(" else "{") + RecordName(d) +
            (if expand then "=" + FieldsCode(p, rank, id, |d.fields|, fd) else "") + Close(d.isUnion)
  {
    hide Depth, Acyclic, RanksFields, FieldsCode, RecordName;
  }

  lemma {:induction false} SaidOfRecord(p: Program, rank: Rank, t: CType, id: nat, expandPointed: bool, expand: bool, fd: Option<Field>)
    requires Acyclic(p, rank) && Desugar(t.form) == RecordType(id)
    ensures Said(p, rank, t, expandPointed, expand, fd) ==
            var d := p.records(id);
            if expand then Whole(d.isUnion, RecordName(d), MembersFrom(p, rank, id, 0, fd)) else Named(d.isUnion, RecordName(d))
  {
    hide Depth, Acyclic, RanksFields, MembersFrom, RecordName;
  }

  lemma {:induction false} RecordStep(p: Program, rank: Rank, t: CType, id: nat, expandPointed: bool, expand: bool, fd: Option<Field>)
    requires Acyclic(p, rank) && PartsAgree(p, rank, t, expandPointed, expand, fd) && Desugar(t.form) == RecordType(id)
    ensures Agrees(p, rank, t, expandPointed, expand, fd)
  {
    CodeOfRecord(p, rank, t, id, expandPointed, expand, fd);
    SaidOfRecord(p, rank, t, id, expandPointed, expand, fd);
    hide Code, Said, Legacy, CanonicalType, Depth, Acyclic, FieldsAgree, FieldsCode, MembersFrom, AllWritten, RecordName;
    var d := p.records(id);
    var open := if d.isUnion then "(" else "{";
    if expand {
      NoFields(p, rank, id, fd);
      Headed(open, RecordName(d), FieldsCode(p, rank, id, |d.fields|, fd));
    } else {
      assert open + RecordName(d) + "" == open + RecordName(d);
    }
  }

  lemma Headed(open: string, name: string, fields: string)
    ensures open + name + ("=" + fields) == open + (name + "=" + fields)
  {
  }

  lemma {:induction false} NoFields(p: Program, rank: Rank, id: nat, fd: Option<Field>)
    requires Acyclic(p, rank) && FieldsAgree(p, rank, id, 0, fd)
    ensures FieldsCode(p, rank, id, |p.records(id).fields|, fd) == AllWritten(MembersFrom(p, rank, id, 0, fd))
    ensures AllLegible(MembersFrom(p, rank, id, 0, fd))
  {
    hide MembersFrom, Acyclic, AllWritten;
    assert FieldsCode(p, rank, id, 0, fd) == "";
    assert "" + AllWritten(MembersFrom(p, rank, id, 0, fd)) == AllWritten(MembersFrom(p, rank, id, 0, fd));
  }

  /** The members from the i-th on complete what is written of the first. */
  ghost predicate FieldsAgree(p: Program, rank: Rank, id: nat, i: nat, fd: Option<Field>)
    requires Acyclic(p, rank) && i <= |p.records(id).fields|
  {
    var rest := MembersFrom(p, rank, id, i, fd);
    FieldsCode(p, rank, id, |p.records(id).fields|, fd) == FieldsCode(p, rank, id, i, fd) + AllWritten(rest) && AllLegible(rest)
  }

  lemma {:induction false} FieldsAreWritten(p: Program, rank: Rank, id: nat, i: nat, fd: Option<Field>)
    requires Acyclic(p, rank) && PlainNames(p) && i <= |p.records(id).fields|
    ensures FieldsAgree(p, rank, id, i, fd)
    decreases false, true, 1 + rank(id), 0, 0, |p.records(id).fields| - i
  {
    if i < |p.records(id).fields| {
      hide Agrees, FieldsAgree, Legacy;
      var f := p.records(id).fields[i];
      assert RanksFields(p, rank, id) && PlainName(f.name);
      FieldsAreWritten(p, rank, id, i + 1, fd);
      if f.bits.Some? {
        CodeIsWritten(p, rank, f.ty, false, true, Some(f));
      } else {
        CodeIsWritten(p, rank, Legacy(p, f.ty), false, true, fd);
      }
      OneField(p, rank, id, i, fd);
    }
  }

  lemma {:induction false} OneField(p: Program, rank: Rank, id: nat, i: nat, fd: Option<Field>)
    requires Acyclic(p, rank) && i < |p.records(id).fields| && FieldsAgree(p, rank, id, i + 1, fd)
    requires var f := p.records(id).fields[i];
             && PlainName(f.name)
             && if f.bits.Some? then Agrees(p, rank, f.ty, false, true, Some(f))
                else Agrees(p, rank, Legacy(p, f.ty), false, true, fd)
    ensures FieldsAgree(p, rank, id, i, fd)
  {
    var rest, ms := MembersFrom(p, rank, id, i + 1, fd), MembersFrom(p, rank, id, i, fd);
    FieldsStep(p, rank, id, i, fd);
    assert ms.And? && ms.more == rest && (ms.name.Some? ==> PlainName(ms.name.value)) && Legible(ms.ty);
    assert AllWritten(ms) == Quoted(ms.name) + Written(ms.ty) + AllWritten(rest);
    hide Said, Code, Written, AllWritten, Legible, Legacy, Acyclic, RanksFields, PlainName, Quoted, FieldsCode, MembersFrom;
    FourParts(FieldsCode(p, rank, id, i, fd), Quoted(ms.name), Written(ms.ty), AllWritten(rest));
  }

  lemma FourParts(a: string, b: string, c: string, d: string)
    ensures a + b + c + d == a + (b + c + d)
  {
  }

  lemma {:induction false} FieldsStep(p: Program, rank: Rank, id: nat, i: nat, fd: Option<Field>)
    requires Acyclic(p, rank) && i < |p.records(id).fields|
    requires var f := p.records(id).fields[i];
             if f.bits.Some? then Agrees(p, rank, f.ty, false, true, Some(f))
             else Agrees(p, rank, Legacy(p, f.ty), false, true, fd)
    ensures var ms := MembersFrom(p, rank, id, i, fd);
            ms.And? && FieldsCode(p, rank, id, i + 1, fd) == FieldsCode(p, rank, id, i, fd) + Quoted(ms.name) + Written(ms.ty)
  {
    hide Said, Code, Written, Legible, Legacy, Depth, Size;
  }

  /** The code of a type can be read, and tells all that the encoder says of it. */
  lemma {:induction false} CodeReadsBack(p: Program, rank: Rank, t: CType, expandPointed: bool, expand: bool, fd: Option<Field>)
    requires Acyclic(p, rank) && PlainNames(p)
    ensures Read(Code(p, rank, t, expandPointed, expand, fd)) == Some((Said(p, rank, t, expandPointed, expand, fd), ""))
  {
    var said := Said(p, rank, t, expandPointed, expand, fd);
    CodeIsWritten(p, rank, t, expandPointed, expand, fd);
    ReadsBack(said, "");
    assert Written(said) + "" == Written(said);
  }
}
