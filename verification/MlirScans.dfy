/** Numbering the operations of a body and reading its edges off the operands. */
module MlirScans {
  import opened Digraphs
  import opened MlirGraphs
  import opened Numberings
  import opened Quotients
  import opened Traversals

  lemma FeedsWithin(ops: seq<Op>, E: set<(Op, Op)>)
    requires Feeds(Elems(ops), E)
    ensures forall e :: e in E ==> e.0 in ops && e.1 in ops && e.0 != e.1
  {
    forall e | e in E ensures e.0 in ops && e.1 in ops {
      assert e.0 in Elems(ops) && e.1 in Elems(ops);
    }
  }

  ghost function Numbers(s: seq<Op>, ops: seq<Op>): set<nat> {
    set t | t in s && t in ops :: Number(ops)(t)
  }

  /** The operations before `i` that take the token of operation `j`. */
  ghost function Users(ops: seq<Op>, i: nat, j: nat): set<nat>
    requires i <= |ops| && j < |ops|
    reads Elems(ops)`operands
  {
    set k: nat | k < i && ops[j] in OperandsAt(ops, k)
  }

  ghost function OperandsAt(ops: seq<Op>, k: nat): seq<Op>
    requires k < |ops|
    reads Elems(ops)`operands
  {
    assert ops[k] in Elems(ops);
    ops[k].operands
  }

  lemma NumberedOperand(ops: seq<Op>, E: set<(Op, Op)>, i: nat, j: nat)
    requires NoDup(ops) && Feeds(Elems(ops), E) && i < |ops| && j < |ops|
    ensures (i, j) in Quotient(E, Number(ops)) <==> ops[i] in ops[j].operands
  {
    NumberedEdge(ops, E, i, j);
    assert ops[j] in Elems(ops);
    NotAnEdge(E, ops[i], ops[j]);
    assert ops[i] in Elems(ops[j].operands) <==> ops[i] in ops[j].operands;
  }

  lemma NumberedNeighbours(ops: seq<Op>, E: set<(Op, Op)>, a: nat)
    requires NoDup(ops) && Feeds(Elems(ops), E) && a < |ops|
    ensures Targets(Quotient(E, Number(ops)), a) == Users(ops, |ops|, a)
    ensures Sources(Quotient(E, Number(ops)), a) == Numbers(ops[a].operands, ops)
  {
    var Q := Quotient(E, Number(ops));
    FeedsWithin(ops, E);
    forall j: nat ensures j in Targets(Q, a) <==> j in Users(ops, |ops|, a) {
      NotAnEdge(Q, a, j);
      NumberedRange(ops, E);
      if j < |ops| { NumberedOperand(ops, E, a, j); }
    }
    forall j: nat ensures j in Sources(Q, a) <==> j in Numbers(ops[a].operands, ops) {
      NotAnEdge(Q, j, a);
      NumberedRange(ops, E);
      if j < |ops| {
        NumberedOperand(ops, E, j, a);
        NumberAt(ops, j);
      }
    }
  }

  method IndexOps(ops: seq<Op>) returns (id: map<Op, nat>)
    requires NoDup(ops)
    ensures id.Keys == Elems(ops) && forall i :: 0 <= i < |ops| ==> id[ops[i]] == i
  {
    id := map[];
    for i := 0 to |ops|
      invariant id.Keys == Elems(ops[..i])
      invariant forall k :: 0 <= k < i ==> id[ops[k]] == k
    {
      ElemsPrefix(ops, i);
      id := id[ops[i] := i];
    }
    assert ops[..|ops|] == ops;
  }
}
