/**
  Control-flow graphs: basic blocks with an ordered list of elements, a terminator, an
  ordered list of successors and possibly a label; and the walks through such a graph.
 */
module CfgGraph {
  import opened CfgSyntax

  datatype Term = NoTerm | Branching(id: Id) | Switching(id: Id) | Jumping(id: Id) | Going(id: Id, dest: Id)

  datatype Mark = NoMark | AtLabel(id: Id) | AtCase(id: Id) | AtDefault(id: Id)

  datatype Block = Block(elems: seq<Id>, term: Term, succs: seq<nat>, mark: Mark)

  /** The first block created is the exit of the graph. */
  const EXIT: nat := 0

  /** Does a walk of at most n steps from element i of block b show the behaviour tr? */
  predicate Steps(bs: seq<Block>, b: nat, i: nat, tr: seq<Event>, n: nat)
    decreases n
  {
    if tr == [] then true
    else if n == 0 || b >= |bs| || i > |bs[b].elems| then false
    else if i < |bs[b].elems| then
      tr[0] == Elem(bs[b].elems[i]) && Steps(bs, b, i + 1, tr[1..], n - 1)
    else
      var succs := bs[b].succs;
      match bs[b].term
      case NoTerm =>
        if b == EXIT then tr == [Halt] else |succs| == 1 && Steps(bs, succs[0], 0, tr, n - 1)
      case Branching(id) =>
        && tr[0].Branch? && tr[0].id == id && |succs| == 2
        && Steps(bs, if tr[0].taken then succs[0] else succs[1], 0, tr[1..], n - 1)
      case Switching(id) =>
        && tr[0].Select? && tr[0].id == id && |succs| >= 1
        && var last := |succs| - 1;
        (match tr[0].arm
         case ToDefault => Steps(bs, succs[last], 0, tr[1..], n - 1)
         case ToCase(c) =>
           exists j :: 0 <= j < last && Leads(bs, succs[j], c) && Steps(bs, succs[j], 0, tr[1..], n - 1)
         case ToLabel(_) => false)
      case _ =>
        && tr[0] == Jump(bs[b].term.id)
        && if |succs| == 1 then Steps(bs, succs[0], 0, tr[1..], n - 1) else |tr| == 1
  }

  /** Is block b the arm labelled by the case statement c? */
  predicate Leads(bs: seq<Block>, b: nat, c: Id) {
    b < |bs| && bs[b].mark == AtCase(c)
  }

  /** Does some walk from element i of block b show the behaviour tr? */
  ghost predicate Walk(bs: seq<Block>, b: nat, i: nat, tr: seq<Event>) {
    exists n: nat :: Steps(bs, b, i, tr, n)
  }

  lemma WalkElem(bs: seq<Block>, b: nat, i: nat, tr: seq<Event>)
    requires b < |bs| && i < |bs[b].elems| && tr != []
    ensures Walk(bs, b, i, tr) <==> tr[0] == Elem(bs[b].elems[i]) && Walk(bs, b, i + 1, tr[1..])
  {
    if Walk(bs, b, i, tr) {
      var n: nat :| Steps(bs, b, i, tr, n);
      assert Steps(bs, b, i + 1, tr[1..], n - 1);
    }
    if tr[0] == Elem(bs[b].elems[i]) && Walk(bs, b, i + 1, tr[1..]) {
      var n: nat :| Steps(bs, b, i + 1, tr[1..], n);
      assert Steps(bs, b, i, tr, n + 1);
    }
  }

  lemma WalkFall(bs: seq<Block>, b: nat, tr: seq<Event>)
    requires b < |bs| && b != EXIT && bs[b].term == NoTerm && |bs[b].succs| == 1
    ensures Walk(bs, b, |bs[b].elems|, tr) <==> Walk(bs, bs[b].succs[0], 0, tr)
  {
    if tr == [] {
      assert Steps(bs, b, |bs[b].elems|, tr, 0) && Steps(bs, bs[b].succs[0], 0, tr, 0);
    } else {
      if Walk(bs, b, |bs[b].elems|, tr) {
        var n: nat :| Steps(bs, b, |bs[b].elems|, tr, n);
        assert Steps(bs, bs[b].succs[0], 0, tr, n - 1);
      }
      if Walk(bs, bs[b].succs[0], 0, tr) {
        var n: nat :| Steps(bs, bs[b].succs[0], 0, tr, n);
        assert Steps(bs, b, |bs[b].elems|, tr, n + 1);
      }
    }
  }

  lemma WalkBranch(bs: seq<Block>, b: nat, tr: seq<Event>)
    requires b < |bs| && bs[b].term.Branching? && |bs[b].succs| == 2 && tr != []
    ensures Walk(bs, b, |bs[b].elems|, tr) <==>
            && tr[0].Branch? && tr[0].id == bs[b].term.id
            && Walk(bs, if tr[0].taken then bs[b].succs[0] else bs[b].succs[1], 0, tr[1..])
  {
    if tr[0].Branch? && tr[0].id == bs[b].term.id {
      var s := if tr[0].taken then bs[b].succs[0] else bs[b].succs[1];
      if Walk(bs, b, |bs[b].elems|, tr) {
        var n: nat :| Steps(bs, b, |bs[b].elems|, tr, n);
        assert Steps(bs, s, 0, tr[1..], n - 1);
      }
      if Walk(bs, s, 0, tr[1..]) {
        var n: nat :| Steps(bs, s, 0, tr[1..], n);
        assert Steps(bs, b, |bs[b].elems|, tr, n + 1);
      }
    }
  }

  lemma WalkJump(bs: seq<Block>, b: nat, tr: seq<Event>)
    requires b < |bs| && (bs[b].term.Jumping? || bs[b].term.Going?) && tr != []
    ensures Walk(bs, b, |bs[b].elems|, tr) <==>
            && tr[0] == Jump(bs[b].term.id)
            && if |bs[b].succs| == 1 then Walk(bs, bs[b].succs[0], 0, tr[1..]) else |tr| == 1
  {
    var succs := bs[b].succs;
    if tr[0] == Jump(bs[b].term.id) {
      if |succs| == 1 {
        if Walk(bs, b, |bs[b].elems|, tr) {
          var n: nat :| Steps(bs, b, |bs[b].elems|, tr, n);
          assert Steps(bs, succs[0], 0, tr[1..], n - 1);
        }
        if Walk(bs, succs[0], 0, tr[1..]) {
          var n: nat :| Steps(bs, succs[0], 0, tr[1..], n);
          assert Steps(bs, b, |bs[b].elems|, tr, n + 1);
        }
      } else if |tr| == 1 {
        assert Steps(bs, b, |bs[b].elems|, tr, 1);
      }
    }
  }

  lemma WalkDefault(bs: seq<Block>, b: nat, tr: seq<Event>)
    requires b < |bs| && bs[b].term.Switching? && |bs[b].succs| >= 1
    requires tr != [] && tr[0] == Select(bs[b].term.id, ToDefault)
    ensures Walk(bs, b, |bs[b].elems|, tr) <==> Walk(bs, bs[b].succs[|bs[b].succs| - 1], 0, tr[1..])
  {
    var s := bs[b].succs[|bs[b].succs| - 1];
    if Walk(bs, b, |bs[b].elems|, tr) {
      var n: nat :| Steps(bs, b, |bs[b].elems|, tr, n);
      assert Steps(bs, s, 0, tr[1..], n - 1);
    }
    if Walk(bs, s, 0, tr[1..]) {
      var n: nat :| Steps(bs, s, 0, tr[1..], n);
      assert Steps(bs, b, |bs[b].elems|, tr, n + 1);
    }
  }

  /** When exactly one arm is labelled c, selecting c leads there. */
  lemma WalkCase(bs: seq<Block>, b: nat, j: nat, tr: seq<Event>)
    requires b < |bs| && bs[b].term.Switching? && j < |bs[b].succs| - 1
    requires tr != [] && tr[0].Select? && tr[0].id == bs[b].term.id && tr[0].arm.ToCase?
    requires Leads(bs, bs[b].succs[j], tr[0].arm.id)
    requires forall i :: 0 <= i < |bs[b].succs| - 1 && Leads(bs, bs[b].succs[i], tr[0].arm.id)
                         ==> bs[b].succs[i] == bs[b].succs[j]
    ensures Walk(bs, b, |bs[b].elems|, tr) <==> Walk(bs, bs[b].succs[j], 0, tr[1..])
  {
    var s := bs[b].succs[j];
    if Walk(bs, s, 0, tr[1..]) {
      var n: nat :| Steps(bs, s, 0, tr[1..], n);
      assert Steps(bs, b, |bs[b].elems|, tr, n + 1);
    }
    if Walk(bs, b, |bs[b].elems|, tr) {
      var n: nat :| Steps(bs, b, |bs[b].elems|, tr, n);
      assert Steps(bs, s, 0, tr[1..], n - 1);
    }
  }
}
