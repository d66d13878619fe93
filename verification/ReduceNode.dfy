/** remove and pass_reduce_node: taking control nodes out while keeping the order of the rest. */
module ReduceNode {
  import opened CommandGraphs
  import opened Digraphs
  import opened Lists
  import opened Traversals

  ghost function Product<V>(A: set<V>, B: set<V>): set<(V, V)> {
    set a, b | a in A && b in B :: (a, b)
  }

  /** The graph without `u`, every predecessor of `u` joined to every successor. */
  ghost function Bypass<V>(E: set<(V, V)>, u: V): set<(V, V)> {
    Without(E, u) + Product(Sources(E, u), Targets(E, u))
  }

  lemma BypassEdge<V>(E: set<(V, V)>, u: V, e: (V, V))
    requires e in Bypass(E, u)
    ensures Before(E, e.0, e.1)
  {
    assert e == (e.0, e.1);
    if e in E {
      ReachEdge(E, e.0, e.1);
    } else {
      NotAnEdge(E, e.0, u);
      NotAnEdge(E, u, e.1);
      ReachEdge(E, e.0, u);
      ReachEdge(E, u, e.1);
      BeforeTrans(E, e.0, u, e.1);
    }
  }

  lemma {:induction false} BypassSteps<V>(E: set<(V, V)>, u: V, k: nat, x: V, y: V)
    requires Steps(E, k, x, y) && x != u && y != u && (u, u) !in E
    ensures Reach(Bypass(E, u), x, y)
  {
    var B := Bypass(E, u);
    if k == 0 {
      ReachSelf(B, x);
    } else {
      var e :| e in E && e.0 == x && Steps(E, k - 1, e.1, y);
      assert e == (x, e.1);
      if e.1 == u {
        var f :| f in E && f.0 == u && Steps(E, k - 2, f.1, y);
        assert f == (u, f.1);
        NotAnEdge(E, x, u);
        NotAnEdge(E, u, f.1);
        BypassSteps(E, u, k - 2, f.1, y);
        assert (x, f.1) in B;
        ReachEdge(B, x, f.1);
        ReachTrans(B, x, f.1, y);
      } else {
        BypassSteps(E, u, k - 1, e.1, y);
        assert e in B;
        ReachEdge(B, x, e.1);
        ReachTrans(B, x, e.1, y);
      }
    }
  }

  /** Taking `u` out changes nothing about the order of the other nodes. */
  lemma BypassOrder<V>(E: set<(V, V)>, u: V, x: V, y: V)
    requires Acyclic(E) && x != u && y != u
    ensures Before(Bypass(E, u), x, y) <==> Before(E, x, y)
  {
    var B := Bypass(E, u);
    if Before(B, x, y) {
      var e :| e in B && e.0 == x && Reach(B, e.1, y);
      forall f | f in B ensures Reach(E, f.0, f.1) {
        BypassEdge(E, u, f);
        ReachCases(E, f.0, f.1);
      }
      ReachMono(B, E, e.1, y);
      BypassEdge(E, u, e);
      BeforeTrans(E, x, e.1, y);
    }
    if Before(E, x, y) {
      AcyclicStrict(E, x, y);
      ReachCases(E, x, y);
      NoSelfLoop(E, u);
      var k: nat :| Steps(E, k, x, y);
      BypassSteps(E, u, k, x, y);
      ReachCases(B, x, y);
    }
  }

  lemma BypassCoherent<V>(N: set<V>, E: set<(V, V)>, s: V, t: V, u: V)
    requires Coherent(N, E, s, t) && u in N && u != s && u != t
    ensures Coherent(N - {u}, Bypass(E, u), s, t)
  {
    var B := Bypass(E, u);
    forall e | e in B ensures e.0 in N - {u} && e.1 in N - {u} && !Reach(B, e.1, e.0) {
      BypassEdge(E, u, e);
      AcyclicStrict(E, e.0, e.1);
      BypassEnds(E, u, e);
      if Reach(B, e.1, e.0) {
        ReachCases(B, e.1, e.0);
        BypassOrder(E, u, e.1, e.0);
        BeforeTrans(E, e.0, e.1, e.0) by { ReachCases(E, e.1, e.0); }
        AcyclicStrict(E, e.0, e.0);
      }
    }
    forall x | x in N - {u} ensures Sources(B, x) == {} <==> x == s {
      BypassNeighbours(E, u, x);
    }
    forall x | x in N - {u} ensures Targets(B, x) == {} <==> x == t {
      BypassNeighbours(E, u, x);
    }
  }

  lemma BypassEnds<V>(E: set<(V, V)>, u: V, e: (V, V))
    requires Acyclic(E) && e in Bypass(E, u)
    ensures e.0 != u && e.1 != u
    ensures exists f, g :: f in E && g in E && f.0 == e.0 && g.1 == e.1
  {
    if e !in Without(E, u) {
      var a, b :| a in Sources(E, u) && b in Targets(E, u) && e == (a, b);
      NotAnEdge(E, a, u);
      NotAnEdge(E, u, b);
      ReachEdge(E, a, u);
      ReachEdge(E, u, b);
      AcyclicStrict(E, a, u);
      AcyclicStrict(E, u, b);
      assert (a, u) in E && (u, b) in E && (a, u).0 == e.0 && (u, b).1 == e.1;
    } else {
      assert e in E && e.0 == e.0 && e.1 == e.1;
    }
  }

  lemma BypassNeighbours<V>(E: set<(V, V)>, u: V, x: V)
    requires x != u
    ensures Targets(Bypass(E, u), x) == Targets(E, x) - {u} + if x in Sources(E, u) then Targets(E, u) else {}
    ensures Sources(Bypass(E, u), x) == Sources(E, x) - {u} + if x in Targets(E, u) then Sources(E, u) else {}
  {
    hide Bypass;
    var B := Bypass(E, u);
    var T := Targets(E, x) - {u} + if x in Sources(E, u) then Targets(E, u) else {};
    var S := Sources(E, x) - {u} + if x in Targets(E, u) then Sources(E, u) else {};
    forall y ensures y in Targets(B, x) <==> y in T {
      NotAnEdge(B, x, y);
      NotAnEdge(E, x, y);
      BypassHas(E, u, x, y);
    }
    assert Targets(B, x) == T;
    forall y ensures y in Sources(B, x) <==> y in S {
      NotAnEdge(B, y, x);
      NotAnEdge(E, y, x);
      BypassHas(E, u, y, x);
    }
    assert Sources(B, x) == S;
  }

  lemma BypassHas<V>(E: set<(V, V)>, u: V, a: V, b: V)
    ensures (a, b) in Bypass(E, u) <==> ((a, b) in E && a != u && b != u) || (a in Sources(E, u) && b in Targets(E, u))
  {
    hide Sources, Targets;
  }

  // ---------------------------------------------------------------- cost

  lemma {:induction false} ProductSize<V>(A: set<V>, B: set<V>)
    ensures |Product(A, B)| == |A| * |B|
    decreases A
  {
    if A == {} {
      assert Product(A, B) == {};
    } else {
      var a :| a in A;
      ProductSize(A - {a}, B);
      PairsSize(a, B);
      ProductSplit(A, a, B);
      OneMoreRow(|A - {a}|, |B|);
    }
  }

  lemma ProductSplit<V>(A: set<V>, a: V, B: set<V>)
    requires a in A
    ensures |Product(A, B)| == |Product(A - {a}, B)| + |Product({a}, B)| && |A| == |A - {a}| + 1
  {
    assert Product(A, B) == Product(A - {a}, B) + Product({a}, B);
    assert Product(A - {a}, B) !! Product({a}, B);
    assert A == A - {a} + {a};
  }

  lemma OneMoreRow(m: nat, n: nat)
    ensures m * n + n == (m + 1) * n
  {
  }

  lemma {:induction false} PairsSize<V>(a: V, B: set<V>)
    ensures |Product({a}, B)| == |B|
    decreases B
  {
    if B == {} {
      assert Product({a}, B) == {};
    } else {
      var b :| b in B;
      PairsSize(a, B - {b});
      assert Product({a}, B) == Product({a}, B - {b}) + {(a, b)};
    }
  }

  lemma {:induction false} TurnedSize<V>(u: V, B: set<V>)
    ensures |Product(B, {u})| == |B|
  {
    ProductSize(B, {u});
  }

  /** What removing `u` saves: its edges go, at most one edge per pair of neighbours comes. */
  lemma RemovalCost<V>(E: set<(V, V)>, u: V)
    requires Acyclic(E)
    ensures |Bypass(E, u)| + |Sources(E, u)| + |Targets(E, u)| <= |E| + |Sources(E, u)| * |Targets(E, u)|
  {
    var S, T, W := Sources(E, u), Targets(E, u), Without(E, u);
    TurnedSize(u, S);
    PairsSize(u, T);
    ProductSize(S, T);
    EdgesAround(E, u);
    UnionSize(W, Product(S, T));
  }

  /** The edges at `u` are those from its predecessors and those to its successors. */
  lemma EdgesAround<V>(E: set<(V, V)>, u: V)
    requires Acyclic(E)
    ensures |E| == |Without(E, u)| + |Product(Sources(E, u), {u})| + |Product({u}, Targets(E, u))|
  {
    NoSelfLoop(E, u);
    NotAnEdge(E, u, u);
    hide Acyclic;
    var W, i, o := Without(E, u), Product(Sources(E, u), {u}), Product({u}, Targets(E, u));
    forall e | e in E ensures e in W + i + o {
      assert e == (e.0, e.1);
      NotAnEdge(E, e.0, e.1);
    }
    forall e | e in W + i + o ensures e in E {
      NotAnEdge(E, e.0, e.1);
    }
    assert E == W + i + o;
    assert W !! i && W + i !! o;
  }

  lemma UnionSize<V>(A: set<V>, B: set<V>)
    ensures |A + B| <= |A| + |B|
  {
    assert A + B == A + (B - A);
    assert |B - A| <= |B| by {
      assert B == (B - A) + (A * B);
    }
  }

  // ---------------------------------------------------------------- remove

  /** Drop `u` from the successor lists of its predecessors. */
  method DetachPredecessors(u: Node, ghost live: set<Node>,
                            ghost E: set<(Node, Node)>) returns (ghost S: set<(Node, Node)>)
    requires u !in live && Elems(u.predecessors) == Sources(E, u) && Sources(E, u) <= live && NoDup(u.predecessors)
    requires forall x :: x in live ==> HalfLinked(x, E, E)
    modifies live`successors
    ensures forall x :: x in live ==> HalfLinked(x, S, E)
    ensures S == set e | e in E && e.1 != u
  {
    hide Targets;
    S := E;
    var k := 0;
    while k < |u.predecessors|
      invariant 0 <= k <= |u.predecessors|
      invariant forall x :: x in live ==> HalfLinked(x, S, E)
      invariant S == set e | e in E && !(e.1 == u && e.0 in Elems(u.predecessors[..k]))
    {
      var pred := u.predecessors[k];
      assert pred in Elems(u.predecessors);
      ElemsPrefix(u.predecessors, k);
      EraseElems(pred.successors, u);
      RemovedEdge(S, pred, u);
      pred.successors := Erase(pred.successors, u);
      S := S - {(pred, u)};
      k := k + 1;
    }
    assert u.predecessors[..k] == u.predecessors;
    forall e | e in E && e.1 == u ensures e.0 in Elems(u.predecessors) {
      NotAnEdge(E, e.0, u);
    }
  }

  /** Drop `u` from the predecessor lists of its successors. */
  method DetachSuccessors(u: Node, ghost live: set<Node>, ghost E: set<(Node, Node)>, ghost S: set<(Node, Node)>)
    returns (ghost P: set<(Node, Node)>)
    requires u !in live && Elems(u.successors) == Targets(E, u) && Targets(E, u) <= live && NoDup(u.successors)
    requires forall x :: x in live ==> HalfLinked(x, S, E)
    modifies live`predecessors
    ensures forall x :: x in live ==> HalfLinked(x, S, P)
    ensures P == set e | e in E && e.0 != u
  {
    hide Sources;
    P := E;
    var k := 0;
    while k < |u.successors|
      invariant 0 <= k <= |u.successors|
      invariant forall x :: x in live ==> HalfLinked(x, S, P)
      invariant P == set e | e in E && !(e.0 == u && e.1 in Elems(u.successors[..k]))
    {
      var succ := u.successors[k];
      assert succ in Elems(u.successors);
      ElemsPrefix(u.successors, k);
      EraseElems(succ.predecessors, u);
      RemovedEdge(P, u, succ);
      succ.predecessors := Erase(succ.predecessors, u);
      P := P - {(u, succ)};
      k := k + 1;
    }
    assert u.successors[..k] == u.successors;
    forall e | e in E && e.0 == u ensures e.1 in Elems(u.successors) {
      NotAnEdge(E, u, e.1);
    }
  }

  /** Join every predecessor of `u` to every successor it is not joined to yet. */
  method JoinNeighbours(u: Node, ghost live: set<Node>, ghost W: set<(Node, Node)>)
    requires u !in live && Linked(live, W) && Elems(u.predecessors) <= live && Elems(u.successors) <= live
    modifies live`successors, live`predecessors
    ensures Linked(live, W + Product(Elems(u.predecessors), Elems(u.successors)))
  {
    hide Linked, Targets, Sources, Product;
    ghost var T, F := Elems(u.successors), W;
    EmptyProduct(u.predecessors[..0], T);
    var i := 0;
    while i < |u.predecessors|
      invariant 0 <= i <= |u.predecessors|
      invariant Linked(live, F) && F == W + Product(Elems(u.predecessors[..i]), T)
    {
      var pred := u.predecessors[i];
      assert pred in Elems(u.predecessors);
      ghost var G := F;
      EmptyProduct(u.successors[..0], {pred});
      var j := 0;
      while j < |u.successors|
        invariant 0 <= j <= |u.successors|
        invariant Linked(live, F) && F == G + Product({pred}, Elems(u.successors[..j]))
      {
        var succ := u.successors[j];
        assert succ in Elems(u.successors);
        SuccessorIsEdge(live, F, pred, succ);
        if succ !in pred.successors {
          Link(pred, succ, live, F);
        }
        F := F + {(pred, succ)};
        assert u.successors[..j + 1] == u.successors[..j] + [succ];
        GrowRight(pred, Elems(u.successors[..j]), succ);
        assert Elems(u.successors[..j + 1]) == Elems(u.successors[..j]) + {succ};
        j := j + 1;
      }
      assert u.successors[..j] == u.successors;
      assert u.predecessors[..i + 1] == u.predecessors[..i] + [pred];
      GrowLeft(Elems(u.predecessors[..i]), pred, T);
      assert Elems(u.predecessors[..i + 1]) == Elems(u.predecessors[..i]) + {pred};
      i := i + 1;
    }
    assert u.predecessors[..i] == u.predecessors;
  }

  lemma EmptyProduct<V>(s: seq<V>, B: set<V>)
    requires s == []
    ensures Product(Elems(s), B) == {} && Product(B, Elems(s)) == {}
  {
  }

  lemma GrowRight<V>(a: V, B: set<V>, b: V)
    ensures Product({a}, B + {b}) == Product({a}, B) + {(a, b)}
  {
  }

  lemma GrowLeft<V>(A: set<V>, a: V, B: set<V>)
    ensures Product(A + {a}, B) == Product(A, B) + Product({a}, B)
  {
  }

  /** Detach `u` from its neighbours and join its predecessors to its successors. */
  method Remove(u: Node, ghost nodes: set<Node>, ghost E: set<(Node, Node)>)
    requires Linked(nodes, E) && Acyclic(E) && u in nodes
    modifies (nodes - {u})`successors, (nodes - {u})`predecessors
    ensures Linked(nodes - {u}, Bypass(E, u))
  {
    hide Acyclic, Product, NoDup;
    ghost var live := nodes - {u};
    NeighboursLive(nodes, E, u);
    ghost var S := DetachPredecessors(u, live, E);
    ghost var P := DetachSuccessors(u, live, E, S);
    HalvesAgree(live, E, S, P, u);
    JoinNeighbours(u, live, Without(E, u));
  }

  lemma NeighboursLive(nodes: set<Node>, E: set<(Node, Node)>, u: Node)
    requires Linked(nodes, E) && Acyclic(E) && u in nodes
    ensures Sources(E, u) <= nodes - {u} && Targets(E, u) <= nodes - {u}
    ensures forall x :: x in nodes ==> HalfLinked(x, E, E)
  {
    NoSelfLoop(E, u);
    NotAnEdge(E, u, u);
  }

  lemma HalvesAgree(live: set<Node>, E: set<(Node, Node)>, S: set<(Node, Node)>, P: set<(Node, Node)>, u: Node)
    requires u !in live && forall e :: e in E ==> e.0 in live + {u} && e.1 in live + {u}
    requires S == (set e | e in E && e.1 != u) && P == set e | e in E && e.0 != u
    requires forall x :: x in live ==> HalfLinked(x, S, P)
    ensures Linked(live, Without(E, u))
  {
    forall x | x in live ensures NodeLinked(x, Without(E, u)) {
      assert Targets(S, x) == Targets(Without(E, u), x);
      assert Sources(P, x) == Sources(Without(E, u), x);
    }
  }

  // ---------------------------------------------------------------- the pass

  /** A control node that costs more than the edges that would replace it. */
  ghost predicate Removable(E: set<(Node, Node)>, u: Node) {
    && u.kind == EmptyNode
    && |Sources(E, u)| * |Targets(E, u)| < 1 + |Sources(E, u)| + |Targets(E, u)|
  }

  /** The live nodes and edges after visiting the nodes of `vec` in turn. */
  ghost function Visited(vec: seq<Node>, N: set<Node>, E: set<(Node, Node)>): (set<Node>, set<(Node, Node)>) {
    if vec == [] then (N, E)
    else
      var u, r := vec[|vec| - 1], Visited(vec[..|vec| - 1], N, E);
      if Removable(r.1, u) then (r.0 - {u}, Bypass(r.1, u)) else r
  }

  /** Whatever control nodes go, the nodes that stay keep their order and no edge count grows. */
  lemma {:induction false} VisitedOrder(vec: seq<Node>, N: set<Node>, E: set<(Node, Node)>, s: Node, t: Node)
    requires Coherent(N, E, s, t) && NoDup(vec) && Elems(vec) <= N - {s, t}
    ensures var r := Visited(vec, N, E);
            && Coherent(r.0, r.1, s, t) && N - Elems(vec) <= r.0 <= N && |r.1| <= |E|
            && (forall u :: u in N - r.0 ==> u.kind == EmptyNode)
            && forall x, y :: x in r.0 && y in r.0 ==> (Before(r.1, x, y) <==> Before(E, x, y))
  {
    if vec != [] {
      var k := |vec| - 1;
      var u, front := vec[k], vec[..k];
      assert vec[..k + 1] == vec;
      ElemsPrefix(vec, k);
      VisitedOrder(front, N, E, s, t);
      var r := Visited(front, N, E);
      if Removable(r.1, u) {
        BypassCoherent(r.0, r.1, s, t, u);
        RemovalCost(r.1, u);
        forall x, y | x in r.0 - {u} && y in r.0 - {u} ensures Before(Bypass(r.1, u), x, y) <==> Before(E, x, y) {
          BypassOrder(r.1, u, x, y);
        }
      }
    }
  }

  /** Remove `u` if that pays. */
  /** Removing a control node pays when it has at most one neighbour on one side, or two on both. */
  lemma RemovableExactly(E: set<(Node, Node)>, u: Node)
    ensures Removable(E, u) <==>
            u.kind == EmptyNode &&
            (|Sources(E, u)| <= 1 || |Targets(E, u)| <= 1 || |Sources(E, u)| == |Targets(E, u)| == 2)
  {
    var m, n := |Sources(E, u)|, |Targets(E, u)|;
    if m == 0 {
      assert m * n == 0;
    } else if m == 1 {
      assert m * n == n;
    } else if n <= 2 {
      assert n == 0 ==> m * n == 0;
      assert n == 1 ==> m * n == m;
      assert n == 2 ==> m * n == m + m;
    } else if m == 2 {
      assert m * n == n + n;
    } else {
      assert (m - 1) * (n - 1) == m * n - m - n + 1;
      assert (m - 1) * (n - 1) >= 2 * (n - 1) by { MoreTimes(m - 1, n - 1); }
    }
  }

  lemma MoreTimes(a: nat, b: nat)
    requires a >= 2
    ensures a * b >= 2 * b
  {
    assert a * b == 2 * b + (a - 2) * b;
  }

  method VisitNode(cg: CommandGraph, u: Node)
    requires cg.Valid() && u in cg.nodes && u != cg.entry && u != cg.exit
    modifies cg`nodes, cg`edges, cg.nodes`successors, cg.nodes`predecessors
    ensures cg.Valid()
    ensures if Removable(old(cg.edges), u)
            then cg.nodes == old(cg.nodes) - {u} && cg.edges == Bypass(old(cg.edges), u)
            else cg.nodes == old(cg.nodes) && cg.edges == old(cg.edges)
  {
    hide Coherent, Linked, Acyclic, Bypass, Sources, Targets;
    CoherentParts(cg.nodes, cg.edges, cg.entry, cg.exit);
    NeighbourCounts(cg.nodes, cg.edges, u);
    if u.kind == EmptyNode {
      var m, n := |u.predecessors|, |u.successors|;
      if m * n < 1 + m + n {
        Remove(u, cg.nodes, cg.edges);
        BypassCoherent(cg.nodes, cg.edges, cg.entry, cg.exit, u);
        cg.nodes, cg.edges := cg.nodes - {u}, Bypass(cg.edges, u);
      }
    }
  }

  lemma VisitedMore(vec: seq<Node>, i: nat, N: set<Node>, E: set<(Node, Node)>)
    requires NoDup(vec) && i < |vec|
    ensures var u, r := vec[i], Visited(vec[..i], N, E);
            Visited(vec[..i + 1], N, E) == if Removable(r.1, u) then (r.0 - {u}, Bypass(r.1, u)) else r
    ensures vec[i] in Elems(vec) - Elems(vec[..i]) && Elems(vec[..i + 1]) == Elems(vec[..i]) + {vec[i]}
  {
    ElemsPrefix(vec, i);
    assert vec[..i + 1][..i] == vec[..i] && vec[i] in Elems(vec);
    assert vec[i] !in vec[..i];
  }

  lemma NoneVisited(vec: seq<Node>, N: set<Node>, E: set<(Node, Node)>)
    ensures Visited(vec[..0], N, E) == (N, E) && Elems(vec[..0]) == {} && vec[..|vec|] == vec
  {
  }

  /** Every inner control node whose removal adds no edge is bypassed, in the order of the walk. */
  method PassReduceNode(cg: CommandGraph) returns (vec: seq<Node>)
    requires cg.Valid() && cg.Fresh()
    modifies cg`walkId, cg`nodes, cg`edges, cg.nodes`walkId, cg.nodes`iteratorIndex, cg.nodes`successors,
        cg.nodes`predecessors
    ensures NoDup(vec) && Elems(vec) == old(cg.nodes) - {cg.entry, cg.exit}
    ensures cg.Valid() && (cg.nodes, cg.edges) == Visited(vec, old(cg.nodes), old(cg.edges))
    ensures cg.walkId == NextWalkId(old(cg.walkId)) && forall u :: u in cg.nodes ==> u.walkId == cg.walkId
  {
    hide *;
    ghost var N, E := cg.nodes, cg.edges;
    vec := cg.CreateNodeIterators(false);
    NoneVisited(vec, N, E);
    for i := 0 to |vec|
      invariant cg.Valid() && cg.nodes <= N && Elems(vec) - Elems(vec[..i]) <= cg.nodes
      invariant (cg.nodes, cg.edges) == Visited(vec[..i], N, E)
      modifies cg`nodes, cg`edges, N`successors, N`predecessors
    {
      VisitedMore(vec, i, N, E);
      VisitNode(cg, vec[i]);
    }
  }

  lemma NeighbourCounts(nodes: set<Node>, E: set<(Node, Node)>, u: Node)
    requires Linked(nodes, E) && u in nodes
    ensures |u.predecessors| == |Sources(E, u)| && |u.successors| == |Targets(E, u)|
  {
    NoDupSize(u.predecessors);
    NoDupSize(u.successors);
  }
}
