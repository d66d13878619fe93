/** What a batch node replays: a sub-graph with the commands of its members, ordered as they were. */
module BatchReplays {
  import opened Chains
  import opened CommandGraphs
  import opened Contractions
  import opened Digraphs
  import opened Plans
  import opened Quotients
  import opened Sequence
  import opened SequenceOrder

  /** `y` does what `x` did. */
  ghost predicate Copies(x: Node, y: Node)
    reads x`command, y`command
  {
    x.kind == y.kind && x.device == y.device && (x.kind == CommandNode ==> x.command == y.command)
  }

  /** The sub-graph of `b` holds one copy of every node of `S`, besides an entry and an exit that may be
      control nodes of its own, and orders the copies exactly as `I` orders the nodes. */
  ghost predicate Replays(b: Node, S: set<Node>, I: set<(Node, Node)>, copy: map<Node, Node>)
    reads b`command, if b.command.Batch? then {b.command.graph} else {}, S`command, copy.Values`command
  {
    && b.command.Batch? && copy.Keys == S
    && (forall x, y :: x in S && y in S && copy[x] == copy[y] ==> x == y)
    && (forall x :: x in S ==> copy[x] in b.command.graph.nodes && Copies(x, copy[x]))
    && (forall y :: y in b.command.graph.nodes && y !in copy.Values ==>
          (y == b.command.graph.entry || y == b.command.graph.exit) && y.kind == EmptyNode)
    && (forall x, y :: x in S && y in S ==> (Before(b.command.graph.edges, copy[x], copy[y]) <==> Before(I, x, y)))
  }

  /** Every contraction's batch replays what it contracted. */
  ghost predicate AllReplay(groups: seq<Contraction<Node>>, N: set<Node>, E: set<(Node, Node)>,
                            copies: seq<map<Node, Node>>)
    reads (set j: nat | j < |groups| :: groups[j].batch)`command
    reads set j: nat | j < |groups| && groups[j].batch.command.Batch? :: groups[j].batch.command.graph
    reads (set j: nat, x | j < |groups| && x in groups[j].members :: x)`command
    reads (set j: nat, x | j < |copies| && x in copies[j].Values :: x)`command
  {
    && |copies| == |groups|
    && forall j: nat :: j < |groups| ==>
      Replays(groups[j].batch, groups[j].members, Inside(Contracted(groups[..j], N, E).1, groups[j].members), copies[j])
  }

  /** The commands of the nodes copied into the sub-graph of `b`. */
  ghost function HeldLeaves(p: Plan<Node>, S: set<Node>, b: Node, copy: map<Node, Node>): set<Node>
    requires Closed(p) && S <= p.nodes && copy.Keys == S && b.command.Batch?
    reads b`command, if b.command.Batch? then {b.command.graph} else {}
  {
    set u, x | u in S && copy[u] in b.command.graph.nodes && x in p.leaves[u] :: x
  }

  /** The pairs of commands that the sub-graph of `b` orders. */
  ghost function HeldPairs(p: Plan<Node>, S: set<Node>, b: Node, copy: map<Node, Node>): set<(Node, Node)>
    requires Closed(p) && S <= p.nodes && copy.Keys == S && b.command.Batch?
    reads b`command, if b.command.Batch? then {b.command.graph} else {}
  {
    set x, y, u, v | u in S && v in S && x in p.leaves[u] && y in p.leaves[v] &&
                     Before(b.command.graph.edges, copy[u], copy[v]) :: (x, y)
  }

  /** The plan of a contraction, read off the batch's own sub-graph. */
  ghost function Expanded(p: Plan<Node>, S: set<Node>, b: Node, copy: map<Node, Node>): Plan<Node>
    requires Closed(p) && S <= p.nodes && copy.Keys == S && b.command.Batch?
    reads b`command, if b.command.Batch? then {b.command.graph} else {}
  {
    var all := HeldLeaves(p, S, b, copy);
    Plan(p.nodes - S + {b}, Quotient(p.edges, Into(S, b)),
         map u | u in p.nodes - S + {b} :: if u == b then all else p.leaves[u],
         p.nested + HeldPairs(p, S, b, copy),
         p.blocks + {all})
  }

  /** Contracting a group is expanding the batch that replays it in place. */
  lemma ContractExpands(p: Plan<Node>, S: set<Node>, b: Node, copy: map<Node, Node>)
    requires Closed(p) && S <= p.nodes && Replays(b, S, Inside(p.edges, S), copy)
    ensures Contract(p, S, b) == Expanded(p, S, b, copy)
  {
    LeavesHeld(p, S, b, copy);
    PairsHeld(p, S, b, copy);
    var q, r := Contract(p, S, b), Expanded(p, S, b, copy);
    hide Replays, HeldLeaves, HeldPairs, Before, Quotient, Inside;
    assert b in q.nodes && q.leaves[b] == HeldLeaves(p, S, b, copy);
    assert q.blocks == p.blocks + {q.leaves[b]} && r.blocks == p.blocks + {r.leaves[b]};
    assert q.nested == r.nested;
    assert q.leaves.Keys == r.leaves.Keys && forall u :: u in q.leaves ==> q.leaves[u] == r.leaves[u];
    assert q.leaves == r.leaves;
  }

  lemma LeavesHeld(p: Plan<Node>, S: set<Node>, b: Node, copy: map<Node, Node>)
    requires Closed(p) && S <= p.nodes && Replays(b, S, Inside(p.edges, S), copy)
    ensures HeldLeaves(p, S, b, copy) == set t, x | t in S && x in p.leaves[t] :: x
  {
    hide Before, Inside;
    forall x, u | u in S && x in p.leaves[u] ensures x in HeldLeaves(p, S, b, copy) {
      assert copy[u] in b.command.graph.nodes;
    }
  }

  lemma PairsHeld(p: Plan<Node>, S: set<Node>, b: Node, copy: map<Node, Node>)
    requires Closed(p) && S <= p.nodes && Replays(b, S, Inside(p.edges, S), copy)
    ensures HeldPairs(p, S, b, copy)
         == set x, y, u, v | u in S && v in S && x in p.leaves[u] && y in p.leaves[v] &&
             Before(Inside(p.edges, S), u, v) :: (x, y)
  {
    assert forall u, v :: u in S && v in S ==>
      (Before(b.command.graph.edges, copy[u], copy[v]) <==> Before(Inside(p.edges, S), u, v));
    hide Before, Inside, Replays;
  }

  /** The plan after a stage, read off the sub-graphs of its batches, one batch after the other. */
  ghost function ExpandAll(groups: seq<Contraction<Node>>, p: Plan<Node>, copies: seq<map<Node, Node>>): Plan<Node>
    reads (set j: nat | j < |groups| :: groups[j].batch)`command
    reads set j: nat | j < |groups| && groups[j].batch.command.Batch? :: groups[j].batch.command.graph
    decreases |groups|
  {
    if groups == [] || |copies| != |groups| then p
    else
      var k := |groups| - 1;
      var m, g, copy := ExpandAll(groups[..k], p, copies[..k]), groups[k], copies[k];
      if Closed(m) && g.members <= m.nodes && copy.Keys == g.members && g.batch.command.Batch?
      then Expanded(m, g.members, g.batch, copy)
      else m
  }

  /** When every batch replays its group, contracting the groups is expanding the batches in place. */
  lemma {:induction false} AllExpand(groups: seq<Contraction<Node>>, p: Plan<Node>, copies: seq<map<Node, Node>>)
    requires Closed(p) && Sensible(groups, p.nodes, p.edges) && AllReplay(groups, p.nodes, p.edges, copies)
    ensures ContractAll(groups, p) == ExpandAll(groups, p, copies)
  {
    if groups != [] {
      var k := |groups| - 1;
      ReplayPrefix(groups, p.nodes, p.edges, copies);
      AllExpand(groups[..k], p, copies[..k]);
      var m, g := ContractAll(groups[..k], p), groups[k];
      ContractExpands(m, g.members, g.batch, copies[k]);
      hide Expanded, Contract;
    }
  }

  lemma ReplayPrefix(groups: seq<Contraction<Node>>, N: set<Node>, E: set<(Node, Node)>, copies: seq<map<Node, Node>>)
    requires groups != [] && AllReplay(groups, N, E, copies)
    ensures var k := |groups| - 1; |copies| == |groups| && AllReplay(groups[..k], N, E, copies[..k])
    ensures var k := |groups| - 1;
            Replays(groups[k].batch, groups[k].members, Inside(Contracted(groups[..k], N, E).1, groups[k].members),
                copies[k])
  {
    var k := |groups| - 1;
    hide Replays, Inside, Contracted;
    forall j: nat | j < k
      ensures Replays(groups[..k][j].batch, groups[..k][j].members,
                      Inside(Contracted(groups[..k][..j], N, E).1, groups[..k][j].members), copies[..k][j])
    {
      assert groups[..k][..j] == groups[..j];
    }
  }

  // ------------------------------------------------------------ ends do not matter

  lemma {:induction false} EndSteps<V>(I: set<(V, V)>, K: set<(V, V)>, s: V, t: V, k: nat, u: V, v: V)
    requires I <= K && (forall e :: e in K ==> e.1 != s && e.0 != t)
    requires forall e :: e in K && e !in I ==> e.0 == s || e.1 == t
    requires u != s && v != t && Steps(K, k, u, v)
    ensures Steps(I, k, u, v)
  {
    if k > 0 {
      var e :| e in K && e.0 == u && Steps(K, k - 1, e.1, v);
      EndSteps(I, K, s, t, k - 1, e.1, v);
      if k > 1 {
        var f :| f in K && f.0 == e.1 && Steps(K, k - 2, f.1, v);
      }
      assert e in I;
    }
  }

  /** Edges out of the entry and into the exit order nothing else. */
  lemma EndsKeepOrder<V>(I: set<(V, V)>, K: set<(V, V)>, s: V, t: V, u: V, v: V)
    requires I <= K && (forall e :: e in K ==> e.1 != s && e.0 != t)
    requires forall e :: e in K && e !in I ==> e.0 == s || e.1 == t
    requires u != s && v != t
    ensures Before(K, u, v) <==> Before(I, u, v)
  {
    if Before(K, u, v) {
      var e :| e in K && e.0 == u && Reach(K, e.1, v);
      var k: nat :| Steps(K, k, e.1, v);
      assert Steps(K, k + 1, u, v);
      EndSteps(I, K, s, t, k + 1, u, v);
      var f :| f in I && f.0 == u && Steps(I, k, f.1, v);
    }
    if Before(I, u, v) {
      var e :| e in I && e.0 == u && Reach(I, e.1, v);
      ReachSubset(I, K, e.1, v);
    }
  }

  // ------------------------------------------------------------ sequence batches

  ghost function Same(S: set<Node>): map<Node, Node> {
    map x | x in S :: x
  }

  ghost function SameAll(groups: seq<Contraction<Node>>): (copies: seq<map<Node, Node>>)
    ensures |copies| == |groups| && forall j: nat :: j < |groups| ==> copies[j] == Same(groups[j].members)
  {
    seq(|groups|, j requires 0 <= j < |groups| => Same(groups[j].members))
  }

  lemma SequenceReplays(b: Node, c: seq<Node>, E: set<(Node, Node)>)
    requires SequenceBatch(b, c) && IsChain(E, c) && Acyclic(E)
    ensures Replays(b, Elems(c), Inside(E, Elems(c)), Same(Elems(c)))
  {
    hide *;
    InsideIsPath(E, c);
    SequenceHolds(b, c);
    HoldsItself(b, Elems(c), Inside(E, Elems(c)));
  }

  lemma SequenceHolds(b: Node, c: seq<Node>)
    requires SequenceBatch(b, c)
    ensures b.command.Batch? && b.command.graph.nodes == Elems(c) && b.command.graph.edges == PathEdges(c)
  {
    hide Coherent, Linked, PathEdges;
  }

  /** A batch over the very nodes it contracts. */
  lemma HoldsItself(b: Node, S: set<Node>, I: set<(Node, Node)>)
    requires b.command.Batch? && b.command.graph.nodes == S && b.command.graph.edges == I
    ensures Replays(b, S, I, Same(S))
  {
    hide Before;
  }

  lemma {:induction false} StepIsChain(steps: seq<Step>, N: set<Node>, E: set<(Node, Node)>, i: nat)
    requires StepsValid(steps, N, E) && i < |steps|
    ensures IsChain(Collapse(steps[..i], N, E).1, steps[i].chain) && StepsValid(steps[..i], N, E)
  {
    var k := |steps| - 1;
    if i < k {
      StepIsChain(steps[..k], N, E, i);
      assert steps[..k][..i] == steps[..i];
    }
  }

  /** The batches of the sequence pass replay their chains. */
  lemma SequencesReplay(steps: seq<Step>, N: set<Node>, E: set<(Node, Node)>)
    requires StepsValid(steps, N, E) && Acyclic(E) && (forall e :: e in E ==> e.0 in N && e.1 in N)
    requires forall s :: s in steps ==> SequenceBatch(s.batch, s.chain)
    ensures AllReplay(AsContractions(steps), N, E, SameAll(AsContractions(steps)))
  {
    var groups := AsContractions(steps);
    forall j: nat | j < |groups|
      ensures Replays(groups[j].batch, groups[j].members, Inside(Contracted(groups[..j], N, E).1, groups[j].members),
          SameAll(groups)[j])
    {
      assert steps[j] in steps;
      hide *;
      StepReplay(steps, N, E, j);
    }
  }

  lemma StepReplay(steps: seq<Step>, N: set<Node>, E: set<(Node, Node)>, j: nat)
    requires StepsValid(steps, N, E) && Acyclic(E) && (forall e :: e in E ==> e.0 in N && e.1 in N)
    requires j < |steps| && SequenceBatch(steps[j].batch, steps[j].chain)
    ensures var groups := AsContractions(steps);
            Replays(groups[j].batch, groups[j].members, Inside(Contracted(groups[..j], N, E).1, groups[j].members),
                SameAll(groups)[j])
  {
    hide SequenceBatch, Replays, IsChain, Acyclic, Inside;
    var groups := AsContractions(steps);
    StepIsChain(steps, N, E, j);
    SequenceContracts(steps[..j], N, E);
    CollapseClosed(steps[..j], N, E);
    assert groups[..j] == AsContractions(steps[..j]);
    SequenceReplays(steps[j].batch, steps[j].chain, Collapse(steps[..j], N, E).1);
  }
}
