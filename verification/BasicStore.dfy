/**
  The simple store: a map from the regions of variables and of the ivars of `self` to
  values, with reading, writing and removing.
 */
module BasicStore {
  import opened Options

  /** A symbol stands for an unknown value; one read from a region is an input. */
  datatype Symbol = Symbol(id: nat, fromRegion: bool)

  /** Symbolic expressions; the constants in them do not matter here. */
  datatype SymExpr = Data(sym: Symbol) | SymInt(lhs: SymExpr) | SymSym(left: SymExpr, right: SymExpr)

  /** Every region but a memory space is part of another. */
  datatype Region =
    | Space(id: nat)
    | Symbolic(sym: Symbol, super: Region)
    | Var(decl: nat, super: Region)
    | Ivar(decl: nat, super: Region)
    | View(ty: nat, higherOrderVoid: bool, super: Region)
    | Other(id: nat, super: Region)

  datatype SVal =
    | Unknown
    | Undefined
    | Address(region: Region)
    | LocInt(n: int)
    | FuncVal(id: nat)
    | SymbolVal(sym: Symbol)
    | SymExprVal(expr: SymExpr)
    | OtherVal(id: nat)

  type Store = map<Region, SVal>

  predicate Tracked(r: Region) {
    r.Var? || r.Ivar?
  }

  function RemoveViews(r: Region): Region {
    if r.View? then RemoveViews(r.super) else r
  }

  /** The symbols an expression is built from. */
  function Symbols(e: SymExpr): set<Symbol> {
    match e
    case Data(sym) => {sym}
    case SymInt(lhs) => Symbols(lhs)
    case SymSym(left, right) => Symbols(left) + Symbols(right)
  }

  /** The part of an expression reached by going to its left operands (false) and right ones. */
  function PartAt(e: SymExpr, path: seq<bool>): Option<SymExpr> {
    if path == [] then Some(e)
    else match e
      case Data(_) => None
      case SymInt(lhs) => if path[0] then None else PartAt(lhs, path[1..])
      case SymSym(left, right) => PartAt(if path[0] then right else left, path[1..])
  }

  lemma {:induction false} FoundIsSymbol(e: SymExpr, s: Symbol, path: seq<bool>)
    requires PartAt(e, path) == Some(Data(s))
    ensures s in Symbols(e)
    decreases e
  {
    match e {
      case Data(_) =>
      case SymInt(lhs) => FoundIsSymbol(lhs, s, path[1..]);
      case SymSym(left, right) => FoundIsSymbol(if path[0] then right else left, s, path[1..]);
    }
  }

  lemma {:induction false} SymbolIsFound(e: SymExpr, s: Symbol) returns (path: seq<bool>)
    requires s in Symbols(e)
    ensures PartAt(e, path) == Some(Data(s))
    decreases e
  {
    path := [];
    if !e.Data? {
      var inRight := e.SymSym? && s !in Symbols(e.left);
      var rest := SymbolIsFound(if e.SymInt? then e.lhs else if inRight then e.right else e.left, s);
      path := [inRight] + rest;
      assert path[1..] == rest;
    }
  }

  /** The symbols of an expression are exactly those found somewhere in it. */
  lemma {:induction false} SymbolsIff(e: SymExpr, s: Symbol)
    ensures s in Symbols(e) <==> exists path :: PartAt(e, path) == Some(Data(s))
  {
    if s in Symbols(e) { var path := SymbolIsFound(e, s); }
    if path :| PartAt(e, path) == Some(Data(s)) { FoundIsSymbol(e, s, path); }
  }

  /** The expression whose symbols a value has: its own, or the symbol of a symbolic region. */
  function AsSymbolicExpression(v: SVal): Option<SymExpr> {
    match v
    case SymExprVal(e) => Some(e)
    case SymbolVal(s) => Some(Data(s))
    case Address(r) => if RemoveViews(r).Symbolic? then Some(Data(RemoveViews(r).sym)) else None
    case _ => None
  }

  function SymbolsOf(v: SVal): set<Symbol> {
    var e := AsSymbolicExpression(v);
    if e.Some? then Symbols(e.value) else {}
  }

  /** The region whose binding a read goes to. */
  function ReadRegion(r: Region): Option<Region> {
    if r.View? && !r.higherOrderVoid then None
    else if Tracked(RemoveViews(r)) then Some(RemoveViews(r))
    else None
  }

  function Lookup(store: Store, r: Region): SVal {
    if r in store then store[r] else Unknown
  }

  function Retrieve(store: Store, loc: SVal): SVal {
    match loc
    case Address(r) =>
      if r.View? && !r.higherOrderVoid then Unknown
      else
        var base := RemoveViews(r);
        if !Tracked(base) then Unknown else Lookup(store, base)
    case LocInt(_) => Undefined
    case FuncVal(_) => loc
    case _ => Unknown
  }

  function BindInternal(store: Store, self: Option<Region>, loc: SVal, v: SVal): Store {
    match loc
    case Address(r) =>
      if !Tracked(r) then store
      else if r.Ivar? && Some(r.super) != self then store
      else if v.Unknown? then store - {r}
      else store[r := v]
    case _ => store
  }

  function Remove(store: Store, loc: SVal): Store {
    match loc
    case Address(r) => if Tracked(r) then store - {r} else store
    case _ => store
  }

  /** What every store built by `BindInternal` keeps. */
  predicate Proper(store: Store, self: Option<Region>) {
    forall r <- store :: Tracked(r) && (r.Ivar? ==> Some(r.super) == self) && !store[r].Unknown?
  }

  /** Whether a write to `r` is kept. */
  predicate Kept(self: Option<Region>, r: Region) {
    r.Var? || (r.Ivar? && Some(r.super) == self)
  }

  /** A read after a write: the written value where the write is kept and the read goes there. */
  lemma ReadAfterWrite(store: Store, self: Option<Region>, r: Region, v: SVal, q: Region)
    requires Proper(store, self)
    ensures Proper(BindInternal(store, self, Address(r), v), self)
    ensures Retrieve(BindInternal(store, self, Address(r), v), Address(q)) ==
            if Kept(self, r) && ReadRegion(q) == Some(r) then v else Retrieve(store, Address(q))
  {
    StrippedIsNoView(q);
  }

  lemma ReadAfterRemove(store: Store, self: Option<Region>, r: Region, q: Region)
    requires Proper(store, self)
    ensures Proper(Remove(store, Address(r)), self)
    ensures Retrieve(Remove(store, Address(r)), Address(q)) ==
            if ReadRegion(q) == Some(r) then Unknown else Retrieve(store, Address(q))
  {
    StrippedIsNoView(q);
  }

  lemma {:induction false} StrippedIsNoView(r: Region)
    ensures !RemoveViews(r).View?
  {
    if r.View? { StrippedIsNoView(r.super); }
  }
}
