/** pass_reduce_edge: the reachability closure filled in depth-first post-order, then
    the in-place transitive reduction of every successor list. */
module ReduceEdge {
  import opened BitSet2Ds
  import opened CommandGraphs
  import opened Digraphs
  import opened Lists
  import opened TransitiveReduction
  import opened Traversals

  /** Row `i` of the matrix marks exactly the nodes of `S`. */
  ghost predicate RowIs<V>(P: set<(nat, nat)>, vec: seq<V>, i: nat, S: set<V>) {
    forall j :: 0 <= j < |vec| ==> ((i, j) in P <==> vec[j] in S)
  }

  ghost function ReachSet<V>(N: set<V>, E: set<(V, V)>, u: V): set<V> {
    set v | v in N && Reach(E, u, v)
  }

  /** The nodes in `vec` are numbered by their position. */
  ghost predicate Numbered(vec: seq<Node>)
    reads (set u | u in vec)`iteratorIndex
  {
    forall u :: u in vec ==> u.iteratorIndex < |vec| && vec[u.iteratorIndex] == u
  }

  /** Rows of the nodes in `done` are complete, the others empty. */
  ghost predicate Filled<V>(P: set<(nat, nat)>, vec: seq<V>, N: set<V>, E: set<(V, V)>, done: set<V>) {
    forall i :: 0 <= i < |vec| ==> RowIs(P, vec, i, if vec[i] in done then ReachSet(N, E, vec[i]) else {})
  }

  /** What a row holds once it has inherited the rows of `ss`. */
  ghost function Gathered<V>(N: set<V>, E: set<(V, V)>, node: V, ss: seq<V>): set<V> {
    set v | v in N && (v == node || exists w :: w in ss && Reach(E, w, v))
  }

  lemma GatheredAll<V>(N: set<V>, E: set<(V, V)>, node: V, ss: seq<V>)
    requires Elems(ss) == Targets(E, node)
    ensures Gathered(N, E, node, ss) == ReachSet(N, E, node)
  {
    forall v ensures Reach(E, node, v) <==> v == node || exists w :: w in ss && Reach(E, w, v) {
      ReachCases(E, node, v);
      if Before(E, node, v) {
        var e :| e in E && e.0 == node && Reach(E, e.1, v);
        assert e.1 in Targets(E, node);
      }
      if w :| w in ss && Reach(E, w, v) {
        assert w in Elems(ss);
        NotAnEdge(E, node, w);
        assert (node, w) in E && (node, w).0 == node;
      }
    }
  }

  lemma GatheredNone<V>(N: set<V>, E: set<(V, V)>, node: V)
    requires node in N
    ensures Gathered(N, E, node, []) == {node}
  {
  }

  lemma GatherStep<V>(N: set<V>, E: set<(V, V)>, node: V, ss: seq<V>, k: nat)
    requires k < |ss|
    ensures Gathered(N, E, node, ss[..k + 1]) == Gathered(N, E, node, ss[..k]) + ReachSet(N, E, ss[k])
  {
    assert ss[..k + 1] == ss[..k] + [ss[k]];
    forall v | v in N ensures (exists w :: w in ss[..k + 1] && Reach(E, w, v)) <==>
                               (exists w :: w in ss[..k] && Reach(E, w, v)) || Reach(E, ss[k], v) {
      if w :| w in ss[..k + 1] && Reach(E, w, v) {
        assert w in ss[..k] || w == ss[k];
      }
      if Reach(E, ss[k], v) {
        assert ss[k] in ss[..k + 1];
      }
      if w :| w in ss[..k] && Reach(E, w, v) {
        assert w in ss[..k + 1];
      }
    }
  }

  /** Row `i` is being built: it holds `S`; every other row is as `done` says. */
  ghost predicate Filling<V>(P: set<(nat, nat)>, vec: seq<V>, N: set<V>, E: set<(V, V)>, done: set<V>, i: nat,
                             S: set<V>) {
    && RowIs(P, vec, i, S)
    && forall a :: 0 <= a < |vec| && a != i ==> RowIs(P, vec, a, if vec[a] in done then ReachSet(N, E, vec[a]) else {})
  }

  lemma FillStart<V>(P: set<(nat, nat)>, vec: seq<V>, N: set<V>, E: set<(V, V)>, done: set<V>, i: nat)
    requires Filled(P, vec, N, E, done) && i < |vec| && vec[i] !in done && NoDup(vec)
    ensures Filling(P + {(i, i)}, vec, N, E, done, i, {vec[i]})
  {
    hide ReachSet;
    assert RowIs(P, vec, i, {});
    forall a | 0 <= a < |vec| && a != i
      ensures RowIs(P + {(i, i)}, vec, a, if vec[a] in done then ReachSet(N, E, vec[a]) else {})
    {
      assert RowIs(P, vec, a, if vec[a] in done then ReachSet(N, E, vec[a]) else {});
    }
  }

  lemma FillInherit<V>(P: set<(nat, nat)>, vec: seq<V>, N: set<V>, E: set<(V, V)>, done: set<V>, i: nat, S: set<V>,
                       s: nat)
    requires Filling(P, vec, N, E, done, i, S) && i < |vec| && s < |vec| && i != s && vec[s] in done
    ensures Filling(OrRow(|vec|, P, i, s), vec, N, E, done, i, S + ReachSet(N, E, vec[s]))
  {
    hide ReachSet;
    var Q := OrRow(|vec|, P, i, s);
    assert RowIs(P, vec, s, ReachSet(N, E, vec[s]));
    forall a | 0 <= a < |vec| && a != i
      ensures RowIs(Q, vec, a, if vec[a] in done then ReachSet(N, E, vec[a]) else {})
    {
      assert RowIs(P, vec, a, if vec[a] in done then ReachSet(N, E, vec[a]) else {});
    }
  }

  lemma FillEnd<V>(P: set<(nat, nat)>, vec: seq<V>, N: set<V>, E: set<(V, V)>, done: set<V>, i: nat)
    requires i < |vec| && NoDup(vec) && Filling(P, vec, N, E, done, i, ReachSet(N, E, vec[i]))
    ensures Filled(P, vec, N, E, done + {vec[i]})
  {
    hide ReachSet, RowIs;
    forall a | 0 <= a < |vec|
      ensures RowIs(P, vec, a, if vec[a] in done + {vec[i]} then ReachSet(N, E, vec[a]) else {})
    {
      assert a != i ==> vec[a] != vec[i];
    }
  }

  /** A node whose successors all have complete rows gets a complete row. */
  method FillRow(r: BitSet2D, node: Node, vec: seq<Node>, ghost nodes: set<Node>, ghost E: set<(Node, Node)>,
                 ghost done: set<Node>)
    requires r.Valid() && r.n == |vec|
    requires Linked(nodes, E) && Elems(vec) == nodes && NoDup(vec) && Numbered(vec)
    requires node in nodes && node !in done && Targets(E, node) <= done
    requires Filled(r.Pairs(), vec, nodes, E, done)
    modifies r.words
    ensures Filled(r.Pairs(), vec, nodes, E, done + {node})
  {
    hide Filling, Filled, RowIs, Gathered, ReachSet, NoDup, Linked;
    assert node in Elems(vec);
    var i := node.iteratorIndex;
    FillStart(r.Pairs(), vec, nodes, E, done, i);
    r.Set(i, i);
    GatheredNone(nodes, E, node);
    assert node.successors[..0] == [];
    var k := 0;
    while k < |node.successors|
      invariant 0 <= k <= |node.successors|
      invariant Filling(r.Pairs(), vec, nodes, E, done, i, Gathered(nodes, E, node, node.successors[..k]))
    {
      var succ := node.successors[k];
      SuccessorEdge(nodes, E, node, k);
      NotAnEdge(E, node, succ);
      assert succ in Elems(vec) && succ in done;
      FillInherit(r.Pairs(), vec, nodes, E, done, i, Gathered(nodes, E, node, node.successors[..k]),
          succ.iteratorIndex);
      GatherStep(nodes, E, node, node.successors, k);
      r.OrRows(i, succ.iteratorIndex);
      k := k + 1;
    }
    assert node.successors[..k] == node.successors;
    NodeTargets(nodes, E, node);
    GatheredAll(nodes, E, node, node.successors);
    FillEnd(r.Pairs(), vec, nodes, E, done, i);
  }

  lemma NodeTargets(nodes: set<Node>, E: set<(Node, Node)>, u: Node)
    requires Linked(nodes, E) && u in nodes
    ensures Elems(u.successors) == Targets(E, u) && Elems(u.predecessors) == Sources(E, u)
    ensures NoDup(u.successors) && NoDup(u.predecessors)
  {
  }

  /** The matrix is the reachability of the whole graph, node by node. */
  ghost predicate Closure(P: set<(nat, nat)>, nodes: set<Node>, E: set<(Node, Node)>)
    reads nodes`iteratorIndex
  {
    forall u, v :: u in nodes && v in nodes ==> ((u.iteratorIndex, v.iteratorIndex) in P <==> Reach(E, u, v))
  }

  /** Post-order lists a node after its successors, so their rows are complete when it inherits them. */
  method FillClosure(r: BitSet2D, order: seq<Node>, vec: seq<Node>, ghost nodes: set<Node>, ghost E: set<(Node, Node)>)
    requires r.Valid() && r.n == |vec| && r.Pairs() == {}
    requires Linked(nodes, E) && Elems(vec) == nodes && NoDup(vec) && Numbered(vec)
    requires NoDup(order) && Elems(order) == nodes && ChildrenFirst(E, order, {})
    modifies r.words
    ensures Closure(r.Pairs(), nodes, E)
  {
    hide Linked;
    assert Elems(order[..0]) == {};
    var k := 0;
    while k < |order|
      invariant 0 <= k <= |order|
      invariant Filled(r.Pairs(), vec, nodes, E, Elems(order[..k]))
    {
      var node := order[k];
      assert node in Elems(order);
      ElemsPrefix(order, k);
      FillRow(r, node, vec, nodes, E, Elems(order[..k]));
      k := k + 1;
    }
    assert order[..k] == order;
    forall u, v | u in nodes && v in nodes
      ensures (u.iteratorIndex, v.iteratorIndex) in r.Pairs() <==> Reach(E, u, v)
    {
      assert u in Elems(vec) && v in Elems(vec);
      assert RowIs(r.Pairs(), vec, u.iteratorIndex, ReachSet(nodes, E, u));
    }
  }

  // ---------------------------------------------------------------- pruning

  /** `F` is `E` with redundant edges removed, some of them perhaps still there. */
  ghost predicate Pruning<V>(E: set<(V, V)>, F: set<(V, V)>) {
    F <= E && forall e :: e in E && !Redundant(E, e) ==> e in F
  }

  /** Some non-redundant edge out of the same node leads to `e.1`. */
  lemma {:induction false} MinimalBelow<V>(E: set<(V, V)>, e: (V, V), bound: set<V>) returns (m: (V, V))
    requires Acyclic(E) && e in E
    requires forall f :: f in E && f.0 == e.0 && Before(E, f.1, e.1) ==> f.1 in bound
    ensures m in E && m.0 == e.0 && !Redundant(E, m) && Reach(E, m.1, e.1)
    decreases bound
  {
    if Redundant(E, e) {
      var f :| f in E && f.0 == e.0 && f.1 != e.1 && Reach(E, f.1, e.1);
      ReachCases(E, f.1, e.1);
      forall g | g in E && g.0 == f.0 && Before(E, g.1, f.1) ensures g.1 in bound - {f.1} {
        BeforeTrans(E, g.1, f.1, e.1);
        AcyclicStrict(E, g.1, f.1);
      }
      m := MinimalBelow(E, f, bound - {f.1});
      ReachTrans(E, m.1, f.1, e.1);
    } else {
      m := e;
      ReachSelf(E, e.1);
    }
  }

  /** Testing against the shrinking list finds exactly the edges redundant in the whole graph. */
  lemma PruningTest<V>(E: set<(V, V)>, F: set<(V, V)>, e: (V, V))
    requires Acyclic(E) && Pruning(E, F) && e in F
    ensures Redundant(E, e) <==> exists f :: f in F && f.0 == e.0 && f.1 != e.1 && Reach(E, f.1, e.1)
  {
    if Redundant(E, e) {
      var bound := set f | f in E :: f.1;
      var m := MinimalBelow(E, e, bound);
      assert m in F;
      assert m.1 != e.1 by {
        assert m != e;
      }
    }
  }

  /** Is `v` reachable from another successor of `u`? */
  method IsImplied(r: BitSet2D, u: Node, v: Node, vec: seq<Node>, ghost nodes: set<Node>, ghost E: set<(Node, Node)>,
                   ghost F: set<(Node, Node)>)
    returns (implied: bool)
    requires r.Valid() && r.n == |vec| && Elems(vec) == nodes && Numbered(vec)
    requires Linked(nodes, F) && (u, v) in F
    requires Closure(r.Pairs(), nodes, E)
    ensures implied <==> exists f :: f in F && f.0 == u && f.1 != v && Reach(E, f.1, v)
  {
    hide Linked, Reach;
    LinkedEnds(nodes, F, u, v);
    NodeTargets(nodes, F, u);
    assert v in Elems(vec);
    var k := 0;
    while k < |u.successors|
      invariant 0 <= k <= |u.successors|
      invariant forall m :: 0 <= m < k ==> u.successors[m] == v || !Reach(E, u.successors[m], v)
    {
      var w := u.successors[k];
      SuccessorEdge(nodes, F, u, k);
      if v != w {
        assert w in Elems(vec);
        var b := r.Test(w.iteratorIndex, v.iteratorIndex);
        if b {
          assert (u, w) in F && (u, w).0 == u;
          return true;
        }
      }
      k := k + 1;
    }
    forall f | f in F && f.0 == u && f.1 != v ensures !Reach(E, f.1, v) {
      assert f == (u, f.1);
      NotAnEdge(F, u, f.1);
      assert f.1 in Elems(u.successors);
    }
    return false;
  }

  /** Erase from the successor list of `u` what another successor already implies. */
  method PruneNode(r: BitSet2D, u: Node, vec: seq<Node>, ghost nodes: set<Node>, ghost E: set<(Node, Node)>,
                   ghost F0: set<(Node, Node)>)
    returns (ghost F: set<(Node, Node)>)
    requires r.Valid() && r.n == |vec| && Elems(vec) == nodes && Numbered(vec)
    requires Acyclic(E) && Pruning(E, F0) && Linked(nodes, F0) && u in nodes
    requires Closure(r.Pairs(), nodes, E)
    modifies nodes`successors, nodes`predecessors
    ensures Pruning(E, F) && F <= F0 && Linked(nodes, F)
    ensures forall e :: e in F && e.0 == u ==> !Redundant(E, e)
  {
    hide Linked, Reach, Acyclic, Redundant;
    F := F0;
    var p := 0;
    while p < |u.successors|
      invariant 0 <= p <= |u.successors|
      invariant Pruning(E, F) && F <= F0 && Linked(nodes, F)
      invariant forall k :: 0 <= k < p ==> !Redundant(E, (u, u.successors[k]))
      decreases |u.successors| - p
    {
      var v := u.successors[p];
      SuccessorEdge(nodes, F, u, p);
      NodeTargets(nodes, F, u);
      var implied := IsImplied(r, u, v, vec, nodes, E, F);
      PruningTest(E, F, (u, v));
      if implied {
        EraseAt(u.successors, p);
        Unlink(u, v, nodes, F);
        F := F - {(u, v)};
      } else {
        p := p + 1;
      }
    }
    NodeTargets(nodes, F, u);
    forall e | e in F && e.0 == u ensures !Redundant(E, e) {
      assert e == (u, e.1);
      NotAnEdge(F, u, e.1);
      assert e.1 in Elems(u.successors);
    }
  }

  lemma PruningDone(nodes: set<Node>, E: set<(Node, Node)>, F: set<(Node, Node)>, vec: seq<Node>)
    requires Pruning(E, F) && Linked(nodes, F) && Elems(vec) == nodes
    requires forall e :: e in F && e.0 in vec ==> !Redundant(E, e)
    ensures F == Reduction(E)
  {
    forall e | e in F ensures e in Reduction(E) {
      assert e.0 in Elems(vec);
    }
  }

  /** A node that had a successor keeps one, and a node that had a predecessor keeps one. */
  lemma ReductionKeepsEnds<V>(E: set<(V, V)>, u: V)
    requires Acyclic(E)
    ensures Targets(E, u) != {} ==> Targets(Reduction(E), u) != {}
    ensures Sources(E, u) != {} ==> Sources(Reduction(E), u) != {}
  {
    if v :| v in Targets(E, u) {
      NotAnEdge(E, u, v);
      ReachEdge(E, u, v);
      AcyclicStrict(E, u, v);
      ReductionKeepsWalks(E, u, v);
      ReachCases(Reduction(E), u, v);
      var e :| e in Reduction(E) && e.0 == u;
      assert e.1 in Targets(Reduction(E), u);
    }
    if v :| v in Sources(E, u) {
      NotAnEdge(E, v, u);
      ReachEdge(E, v, u);
      AcyclicStrict(E, v, u);
      ReductionKeepsWalks(E, v, u);
      ReachCases(Reduction(E), v, u);
      var e := BeforeLast(Reduction(E), v, u);
      assert e.0 in Sources(Reduction(E), u);
    }
  }

  lemma ReducedCoherent<V>(N: set<V>, E: set<(V, V)>, s: V, t: V)
    requires Coherent(N, E, s, t)
    ensures Coherent(N, Reduction(E), s, t)
  {
    var F := Reduction(E);
    AcyclicSubset(F, E);
    forall u | u in N ensures Targets(F, u) == {} <==> u == t {
      ReductionKeepsEnds(E, u);
      assert Targets(F, u) <= Targets(E, u);
    }
    forall u | u in N ensures Sources(F, u) == {} <==> u == s {
      ReductionKeepsEnds(E, u);
      assert Sources(F, u) <= Sources(E, u);
    }
  }

  method PruneAll(r: BitSet2D, vec: seq<Node>, ghost nodes: set<Node>, ghost E: set<(Node, Node)>)
    requires r.Valid() && r.n == |vec| && Elems(vec) == nodes && Numbered(vec)
    requires Acyclic(E) && Linked(nodes, E) && Closure(r.Pairs(), nodes, E)
    modifies nodes`successors, nodes`predecessors
    ensures Linked(nodes, Reduction(E))
  {
    hide Linked, Acyclic, Redundant, Closure, Numbered, Reduction;
    ghost var F := E;
    var i := 0;
    while i < |vec|
      invariant 0 <= i <= |vec|
      invariant Pruning(E, F) && Linked(nodes, F)
      invariant forall e :: e in F && e.0 in vec[..i] ==> !Redundant(E, e)
    {
      assert vec[i] in Elems(vec);
      ghost var F' := PruneNode(r, vec[i], vec, nodes, E, F);
      F := F';
      assert vec[..i + 1] == vec[..i] + [vec[i]];
      i := i + 1;
    }
    assert vec[..i] == vec;
    PruningDone(nodes, E, F, vec);
  }

  /** The pass: the graph keeps its nodes and is left with the transitive reduction of its edges. */
  method PassReduceEdge(cg: CommandGraph)
    requires cg.Valid() && cg.Fresh()
    modifies cg`walkId, cg`edges, cg.nodes`walkId, cg.nodes`iteratorIndex, cg.nodes`successors, cg.nodes`predecessors
    ensures cg.Valid() && cg.edges == Reduction(old(cg.edges))
    ensures cg.walkId == NextWalkId(NextWalkId(old(cg.walkId))) && forall u :: u in cg.nodes ==> u.walkId == cg.walkId
  {
    hide Coherent, Linked, Reach, Acyclic, Redundant, HasParents, ChildrenFirst, Reduction, Closure;
    CoherentParts(cg.nodes, cg.edges, cg.entry, cg.exit);
    var vec := cg.CreateNodeIterators(true);
    var r := new BitSet2D(|vec|);
    var order := cg.Walk(Post);
    NumberedByPosition(vec);
    FillClosure(r, order, vec, cg.nodes, cg.edges);
    PruneAll(r, vec, cg.nodes, cg.edges);
    ReducedCoherent(cg.nodes, cg.edges, cg.entry, cg.exit);
    cg.edges := Reduction(cg.edges);
  }

  lemma NumberedByPosition(vec: seq<Node>)
    requires forall i :: 0 <= i < |vec| ==> vec[i].iteratorIndex == i
    ensures Numbered(vec)
  {
    forall u | u in vec ensures u.iteratorIndex < |vec| && vec[u.iteratorIndex] == u {
      var i :| 0 <= i < |vec| && vec[i] == u;
    }
  }
}
