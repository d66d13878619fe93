/** What pass_sequence means for execution order. */
module SequenceOrder {
  import opened Chains
  import opened CommandGraphs
  import opened Contractions
  import opened Digraphs
  import opened Quotients
  import opened Sequence

  /** The top-level node that holds `u` after the contractions. */
  ghost function Rep(steps: seq<Step>, u: Node): Node {
    if steps == [] then u
    else
      var r, s := Rep(steps[..|steps| - 1], u), steps[|steps| - 1];
      if r in s.chain then s.batch else r
  }

  ghost predicate Together(steps: seq<Step>, u: Node, v: Node) {
    exists s :: s in steps && u in s.chain && v in s.chain
  }

  ghost predicate InsideBefore(steps: seq<Step>, u: Node, v: Node) {
    exists s :: s in steps && u in s.chain && v in s.chain && IndexOf(s.chain, u) < IndexOf(s.chain, v)
  }

  /** The graph stays a DAG between its entry and its exit. */
  lemma {:induction false} CollapseClosed(steps: seq<Step>, N: set<Node>, E: set<(Node, Node)>)
    requires StepsValid(steps, N, E) && Acyclic(E) && forall e :: e in E ==> e.0 in N && e.1 in N
    ensures var r := Collapse(steps, N, E);
            Acyclic(r.1) && forall e :: e in r.1 ==> e.0 in r.0 && e.1 in r.0
  {
    if steps != [] {
      var front, s := steps[..|steps| - 1], steps[|steps| - 1];
      var r := Collapse(front, N, E);
      CollapseClosed(front, N, E);
      assert s.batch !in Elems(s.chain);
      RewiredAcyclic(r.1, s.chain, s.batch);
      forall e | e in Rewired(r.1, s.chain, s.batch)
        ensures e.0 in r.0 - Elems(s.chain) + {s.batch} && e.1 in r.0 - Elems(s.chain) + {s.batch}
      {
        RewiredEdge(r.1, s.chain, s.batch, e);
      }
    }
  }

  lemma {:induction false} RepLive(steps: seq<Step>, N: set<Node>, E: set<(Node, Node)>, u: Node)
    requires StepsValid(steps, N, E) && u in N
    ensures Rep(steps, u) in Collapse(steps, N, E).0 && (Rep(steps, u) == u || Rep(steps, u) !in N)
    ensures u in Collapse(steps, N, E).0 ==> Rep(steps, u) == u
  {
    if steps != [] {
      RepLive(steps[..|steps| - 1], N, E, u);
    }
  }

  /** The nested order of the result (by top-level node, then by position in the batch) is the
      original order, exactly and in both directions. */
  lemma {:induction false} SequenceKeepsOrder(steps: seq<Step>, N: set<Node>, E: set<(Node, Node)>, u: Node, v: Node)
    requires StepsValid(steps, N, E) && Acyclic(E) && forall e :: e in E ==> e.0 in N && e.1 in N
    requires u in N && v in N
    ensures Before(E, u, v) <==>
            if Together(steps, u, v) then InsideBefore(steps, u, v)
            else Before(Collapse(steps, N, E).1, Rep(steps, u), Rep(steps, v))
    ensures Together(steps, u, v) ==> Rep(steps, u) == Rep(steps, v) && Rep(steps, u) !in N
  {
    hide IsChain, Acyclic, Before, Together, InsideBefore;
    if steps == [] {
      NotTogether(u, v);
    } else {
      var front, s := steps[..|steps| - 1], steps[|steps| - 1];
      var F := Collapse(front, N, E).1;
      SequenceKeepsOrder(front, N, E, u, v);
      CollapseClosed(front, N, E);
      RepLive(front, N, E, u);
      RepLive(front, N, E, v);
      assert s.batch !in Elems(s.chain);
      TogetherStep(steps, u, v);
      RepInChain(steps, N, E, u);
      RepInChain(steps, N, E, v);
      ChainNestedOrder(F, s.chain, s.batch, Rep(front, u), Rep(front, v));
    }
  }

  lemma NotTogether(u: Node, v: Node)
    ensures !Together([], u, v)
  {
  }

  /** A member of the last chain was still at the top level, standing for itself only. */
  lemma RepInChain(steps: seq<Step>, N: set<Node>, E: set<(Node, Node)>, u: Node)
    requires StepsValid(steps, N, E) && steps != [] && u in N
    ensures var front, s := steps[..|steps| - 1], steps[|steps| - 1];
            (u in s.chain <==> Rep(front, u) in s.chain) && (u in s.chain ==> Rep(front, u) == u)
            && s.batch != Rep(front, u)
  {
    var front, s := steps[..|steps| - 1], steps[|steps| - 1];
    RepLive(front, N, E, u);
    if u in s.chain {
      assert u in Elems(s.chain);
    }
    if Rep(front, u) in s.chain {
      assert Rep(front, u) in Elems(s.chain);
    }
  }

  lemma TogetherStep(steps: seq<Step>, u: Node, v: Node)
    requires steps != []
    ensures var front, s := steps[..|steps| - 1], steps[|steps| - 1];
            && (Together(steps, u, v) <==> Together(front, u, v) || (u in s.chain && v in s.chain))
            && (InsideBefore(steps, u, v) <==>
                (InsideBefore(front, u, v) || (u in s.chain && v in s.chain &&
                    IndexOf(s.chain, u) < IndexOf(s.chain, v))))
            && (InsideBefore(front, u, v) ==> Together(front, u, v))
  {
    var front, s := steps[..|steps| - 1], steps[|steps| - 1];
    assert steps == front + [s];
    assert forall x :: x in steps <==> x in front || x == s;
  }

  /** The contractions the pass makes. */
  ghost function AsContractions(steps: seq<Step>): (groups: seq<Contraction<Node>>)
    ensures |groups| == |steps|
  {
    seq(|steps|, i requires 0 <= i < |steps| => Contraction(Elems(steps[i].chain), steps[i].batch))
  }

  /** Moving a chain's boundary onto its batch is contracting the chain. */
  lemma {:induction false} SequenceContracts(steps: seq<Step>, N: set<Node>, E: set<(Node, Node)>)
    requires StepsValid(steps, N, E) && Acyclic(E) && forall e :: e in E ==> e.0 in N && e.1 in N
    ensures Sensible(AsContractions(steps), N, E) && Contracted(AsContractions(steps), N, E) == Collapse(steps, N, E)
  {
    hide IsChain, Acyclic, Rewired, Quotient;
    if steps != [] {
      var k := |steps| - 1;
      var front, s := steps[..k], steps[k];
      var F := Collapse(front, N, E).1;
      SequenceContracts(front, N, E);
      CollapseClosed(front, N, E);
      assert s.batch !in Elems(s.chain);
      RewiredIsQuotient(F, s.chain, s.batch);
      RewiredAcyclic(F, s.chain, s.batch);
      assert AsContractions(steps)[..k] == AsContractions(front);
      assert AsContractions(steps)[k] == Contraction(Elems(s.chain), s.batch);
    }
  }
}
