/** Schedule refinement over whole runs of the optimiser. */
module Pipeline {
  import opened Chains
  import opened CommandGraphs
  import opened Contractions
  import opened Digraphs
  import opened Plans
  import opened QuotientCoherence
  import opened Quotients
  import opened ReduceEdge
  import opened ReduceNode
  import opened Sequence
  import opened SequenceOrder
  import opened SeriesFusions
  import opened TransitiveReduction

  /** What one pass did to the nodes and edges: nothing, the nodes it visited, the chains it fused into their heads
      or the groups it contracted. */
  datatype Stage =
    | Rewrites
    | Visits(vec: seq<Node>)
    | Reduces
    | Fuses(chains: seq<seq<Node>>)
    | Sequences(steps: seq<Step>)
    | Batches(groups: seq<Contraction<Node>>)

  ghost function After(stage: Stage, N: set<Node>, E: set<(Node, Node)>): (set<Node>, set<(Node, Node)>) {
    match stage
    case Rewrites => (N, E)
    case Visits(vec) => Visited(vec, N, E)
    case Reduces => (N, Reduction(E))
    case Fuses(chains) => (N - Absorbed(chains), ShortenedAll(chains, E))
    case Sequences(steps) => Collapse(steps, N, E)
    case Batches(groups) => Contracted(groups, N, E)
  }

  /** What each pass guarantees about its own groups. */
  ghost predicate Fits(stage: Stage, N: set<Node>, E: set<(Node, Node)>, s: Node, t: Node) {
    match stage
    case Rewrites => true
    case Visits(vec) => NoDup(vec) && Elems(vec) <= N - {s, t}
    case Reduces => true
    case Fuses(chains) =>
      && InTurn(chains, N, E)
      && forall c: seq<Node> :: c in chains ==> c != [] && s !in c && t !in c && c[0].kind == CommandNode
    case Sequences(steps) =>
      StepsValid(steps, N, E) && forall x :: x in steps ==>
          s !in x.chain && t !in x.chain && x.batch.kind == CommandNode
    case Batches(groups) =>
      Sensible(groups, N, E) && forall g :: g in groups ==>
          g.members != {} && s !in g.members && t !in g.members && g.batch.kind == CommandNode
  }

  /** The state of a run: a command graph, seen as a plan whose control nodes stand for no command. */
  ghost predicate Running(p: Plan<Node>, w: map<Node, seq<Node>>, s: Node, t: Node) {
    && Sound(p, w) && Coherent(p.nodes, p.edges, s, t)
    && forall u :: u in p.nodes && u.kind == EmptyNode ==> p.leaves[u] == {}
  }

  /** The run goes on with `q`, which allows no execution `p` did not. */
  ghost predicate Refined(p: Plan<Node>, q: Plan<Node>, w: map<Node, seq<Node>>, s: Node, t: Node) {
    Running(q, w, s, t) && Closed(p) && Tightens(p, q)
  }

  lemma RefinedSelf(p: Plan<Node>, w: map<Node, seq<Node>>, s: Node, t: Node)
    requires Running(p, w, s, t)
    ensures Refined(p, p, w, s, t)
  {
    TightensSelf(p);
  }

  lemma RefinedTrans(p: Plan<Node>, m: Plan<Node>, wm: map<Node, seq<Node>>, q: Plan<Node>, w: map<Node, seq<Node>>,
                     s: Node, t: Node)
    requires Refined(p, m, wm, s, t) && Refined(m, q, w, s, t)
    ensures Refined(p, q, w, s, t)
  {
    TightensTrans(p, m, q);
  }

  lemma RunningParts(p: Plan<Node>, w: map<Node, seq<Node>>, s: Node, t: Node)
    requires Running(p, w, s, t)
    ensures Closed(p) && w.Keys == p.nodes && Acyclic(p.edges) && Sound(p, w) && Coherent(p.nodes, p.edges, s, t)
    ensures forall u :: u in p.nodes && u.kind == EmptyNode ==> p.leaves[u] == {}
  {
  }

  // ------------------------------------------------------------ one pass

  /** The plan without some control nodes. */
  ghost function Restrict(p: Plan<Node>, N: set<Node>, E: set<(Node, Node)>): Plan<Node>
    requires Closed(p) && N <= p.nodes
  {
    Plan(N, E, map u | u in N :: p.leaves[u], p.nested, p.blocks)
  }

  /** `N` and `E` are the plan's top level without some control nodes, the rest ordered as before. */
  ghost predicate Keeps(p: Plan<Node>, N: set<Node>, E: set<(Node, Node)>)
    requires Closed(p)
  {
    && N <= p.nodes && (forall e :: e in E ==> e.0 in N && e.1 in N)
    && (forall u :: u in p.nodes - N ==> p.leaves[u] == {})
    && (forall x, y :: x in N && y in N ==> (Before(E, x, y) <==> Before(p.edges, x, y)))
  }

  lemma RestrictCommands(p: Plan<Node>, N: set<Node>, E: set<(Node, Node)>)
    requires Closed(p) && Keeps(p, N, E)
    ensures Closed(Restrict(p, N, E)) && Commands(Restrict(p, N, E)) == Commands(p)
  {
    var q := Restrict(p, N, E);
    forall x ensures x in Commands(q) <==> x in Commands(p) {
      if x in Commands(p) {
        var u :| u in p.nodes && x in p.leaves[u];
        assert u in q.nodes && x in q.leaves[u];
      }
      if x in Commands(q) {
        var u :| u in q.nodes && x in q.leaves[u];
        assert u in p.nodes && x in p.leaves[u];
      }
    }
  }

  lemma RestrictWitness(p: Plan<Node>, w: map<Node, seq<Node>>, N: set<Node>, E: set<(Node, Node)>, s: Node)
    requires Closed(p) && Witness(p, w) && Keeps(p, N, E) && s in N && Closed(Restrict(p, N, E))
    ensures Witness(Restrict(p, N, E), map u | u in N :: w[u])
  {
    var q, v := Restrict(p, N, E), map u | u in N :: w[u];
    forall e | e in q.nested ensures exists u :: u in q.nodes && InOrder(v[u], e) {
      var u: Node :| u in p.nodes && InOrder(w[u], e);
      assert e.0 in Elems(w[u]);
      assert InOrder(v[u], e);
    }
    forall b | b in q.blocks ensures exists u :: u in q.nodes && Contiguous(v[u], b) {
      var u: Node :| u in p.nodes && Contiguous(w[u], b);
      if u in N {
        assert Contiguous(v[u], b);
      } else {
        if w[u] != [] { HasElements(w[u]); }
        EmptyBlock(w[u], v[s], b);
      }
    }
  }

  /** Dropping control nodes and keeping the order of the rest allows exactly the same executions. */
  lemma RestrictPlan(p: Plan<Node>, w: map<Node, seq<Node>>, N: set<Node>, E: set<(Node, Node)>, s: Node, t: Node)
    returns (w': map<Node, seq<Node>>)
    requires Running(p, w, s, t) && Coherent(N, E, s, t) && Closed(p) && Keeps(p, N, E) && N <= p.nodes
    ensures Refined(p, Restrict(p, N, E), w', s, t) && Refined(Restrict(p, N, E), p, w, s, t)
  {
    hide *;
    RunningParts(p, w, s, t);
    SoundParts(p, w);
    CoherentParts(N, E, s, t);
    w' := map u | u in N :: w[u];
    RestrictCommands(p, N, E);
    RestrictWitness(p, w, N, E, s);
    RestrictRunning(p, w', N, E, s, t);
    forall x, y | x in Commands(p) && y in Commands(p) ensures Ordered(Restrict(p, N, E), x, y) <==> Ordered(p, x, y) {
      RestrictOrdered(p, N, E, x, y);
    }
    RestrictTightens(p, N, E);
    IsRefined(p, Restrict(p, N, E), w', s, t);
    IsRefined(Restrict(p, N, E), p, w, s, t);
  }

  lemma SoundParts(p: Plan<Node>, w: map<Node, seq<Node>>)
    requires Sound(p, w)
    ensures Closed(p) && Witness(p, w) && Acyclic(p.edges)
  {
  }

  lemma IsRefined(p: Plan<Node>, q: Plan<Node>, w: map<Node, seq<Node>>, s: Node, t: Node)
    requires Running(q, w, s, t) && Closed(p) && Closed(q) && Tightens(p, q)
    ensures Refined(p, q, w, s, t)
  {
  }

  lemma RestrictRunning(p: Plan<Node>, w': map<Node, seq<Node>>, N: set<Node>, E: set<(Node, Node)>, s: Node, t: Node)
    requires Closed(p) && N <= p.nodes && Closed(Restrict(p, N, E)) && Witness(Restrict(p, N, E), w') &&
        Coherent(N, E, s, t)
    requires forall u :: u in p.nodes && u.kind == EmptyNode ==> p.leaves[u] == {}
    ensures Running(Restrict(p, N, E), w', s, t)
  {
    hide Witness;
  }

  lemma RestrictTightens(p: Plan<Node>, N: set<Node>, E: set<(Node, Node)>)
    requires Closed(p) && N <= p.nodes && Closed(Restrict(p, N, E)) && Commands(Restrict(p, N, E)) == Commands(p)
    requires forall x, y :: x in Commands(p) && y in Commands(p) ==>
        (Ordered(Restrict(p, N, E), x, y) <==> Ordered(p, x, y))
    ensures Tightens(p, Restrict(p, N, E)) && Tightens(Restrict(p, N, E), p)
  {
    hide Ordered, Commands;
  }

  lemma RestrictOrdered(p: Plan<Node>, N: set<Node>, E: set<(Node, Node)>, x: Node, y: Node)
    requires Closed(p) && Keeps(p, N, E) && Closed(Restrict(p, N, E))
    ensures Ordered(Restrict(p, N, E), x, y) <==> Ordered(p, x, y)
  {
    var q := Restrict(p, N, E);
    if Ordered(p, x, y) && (x, y) !in p.nested {
      var u, v :| u in p.nodes && v in p.nodes && x in p.leaves[u] && y in p.leaves[v] && Before(p.edges, u, v);
      assert u in q.nodes && v in q.nodes && x in q.leaves[u] && y in q.leaves[v];
    }
    if Ordered(q, x, y) && (x, y) !in p.nested {
      var u, v :| u in q.nodes && v in q.nodes && x in q.leaves[u] && y in q.leaves[v] && Before(q.edges, u, v);
      assert u in p.nodes && v in p.nodes && x in p.leaves[u] && y in p.leaves[v];
    }
  }

  lemma HasElements(a: seq<Node>)
    requires a != []
    ensures Elems(a) != {}
  {
    assert a[0] in Elems(a);
  }

  lemma EmptyBlock(a: seq<Node>, c: seq<Node>, b: set<Node>)
    requires Contiguous(a, b) && a == []
    ensures Contiguous(c, b)
  {
    var i, j :| 0 <= i <= j <= |a| && Elems(a[i..j]) == b;
    assert a[i..j] == [] && b == {};
    assert Elems(c[0..0]) == {};
  }

  /** The reduction orders the nodes as the graph does. */
  lemma ReductionOrder(E: set<(Node, Node)>, x: Node, y: Node)
    requires Acyclic(E)
    ensures Before(Reduction(E), x, y) <==> Before(E, x, y)
  {
    var R := Reduction(E);
    ReductionSameOrder(E);
    SameOrderReach(E, R, x, y);
    ReachCases(E, x, y);
    ReachCases(R, x, y);
    AcyclicSubset(R, E);
    if x == y {
      if Before(E, x, y) { AcyclicStrict(E, x, y); }
      if Before(R, x, y) { AcyclicStrict(R, x, y); }
    }
  }

  lemma KeepsAll(p: Plan<Node>, w: map<Node, seq<Node>>, N: set<Node>, E: set<(Node, Node)>, s: Node, t: Node)
    requires Running(p, w, s, t) && Closed(p) && Coherent(N, E, s, t) && N <= p.nodes
    requires forall u :: u in p.nodes - N ==> u.kind == EmptyNode
    requires forall x, y :: x in N && y in N ==> (Before(E, x, y) <==> Before(p.edges, x, y))
    ensures Keeps(p, N, E)
  {
    hide *;
    RunningParts(p, w, s, t);
    CoherentEnds(N, E, s, t);
    KeepsIs(p, N, E);
  }

  lemma KeepsIs(p: Plan<Node>, N: set<Node>, E: set<(Node, Node)>)
    requires Closed(p) && N <= p.nodes && forall e :: e in E ==> e.0 in N && e.1 in N
    requires forall u :: u in p.nodes - N ==> p.leaves[u] == {}
    requires forall x, y :: x in N && y in N ==> (Before(E, x, y) <==> Before(p.edges, x, y))
    ensures Keeps(p, N, E)
  {
  }

  lemma VisitsRefine(vec: seq<Node>, p: Plan<Node>, w: map<Node, seq<Node>>, s: Node, t: Node)
    returns (w': map<Node, seq<Node>>)
    requires Running(p, w, s, t) && NoDup(vec) && Elems(vec) <= p.nodes - {s, t}
    ensures Closed(p) && var r := Visited(vec, p.nodes, p.edges);
            r.0 <= p.nodes && Refined(p, Restrict(p, r.0, r.1), w', s, t) && Refined(Restrict(p, r.0, r.1), p, w, s, t)
  {
    hide *;
    RunningParts(p, w, s, t);
    VisitedOrder(vec, p.nodes, p.edges, s, t);
    var r := Visited(vec, p.nodes, p.edges);
    KeepsAll(p, w, r.0, r.1, s, t);
    w' := RestrictPlan(p, w, r.0, r.1, s, t);
  }

  lemma ReducesRefines(p: Plan<Node>, w: map<Node, seq<Node>>, s: Node, t: Node)
    returns (w': map<Node, seq<Node>>)
    requires Running(p, w, s, t)
    ensures Closed(p)
    ensures var q := Restrict(p, p.nodes, Reduction(p.edges)); Refined(p, q, w', s, t) && Refined(q, p, w, s, t)
  {
    hide *;
    RunningParts(p, w, s, t);
    ReducedCoherent(p.nodes, p.edges, s, t);
    forall x, y | x in p.nodes && y in p.nodes ensures Before(Reduction(p.edges), x, y) <==> Before(p.edges, x, y) {
      ReductionOrder(p.edges, x, y);
    }
    KeepsAll(p, w, p.nodes, Reduction(p.edges), s, t);
    w' := RestrictPlan(p, w, p.nodes, Reduction(p.edges), s, t);
  }

  /** Contracting one group away from the entry and the exit. */
  lemma ContractRunning(p: Plan<Node>, w: map<Node, seq<Node>>, S: set<Node>, b: Node, s: Node, t: Node)
    returns (w': map<Node, seq<Node>>)
    requires Running(p, w, s, t) && S <= p.nodes && S != {} && b !in p.nodes - S && s !in S && t !in S &&
        b.kind == CommandNode
    requires Acyclic(Quotient(p.edges, Into(S, b)))
    ensures Closed(p) && Refined(p, Contract(p, S, b), w', s, t)
  {
    CoherentParts(p.nodes, p.edges, s, t);
    ContractTightens(p, S, b);
    var q := Contract(p, S, b);
    w' := ContractSound(p, w, S, b);
    IntoCoherent(p.nodes, p.edges, S, b, s, t);
    hide Sound, Tightens, Coherent, Acyclic, Quotient;
    forall u | u in q.nodes && u.kind == EmptyNode ensures q.leaves[u] == {} {
      assert u != b;
    }
  }

  /** Contracting a group away from the entry and the exit keeps them the only source and sink. */
  lemma IntoCoherent(N: set<Node>, E: set<(Node, Node)>, S: set<Node>, b: Node, s: Node, t: Node)
    requires Coherent(N, E, s, t) && S <= N && S != {} && b !in N - S && s !in S && t !in S &&
        Acyclic(Quotient(E, Into(S, b)))
    ensures Coherent(N - S + {b}, Quotient(E, Into(S, b)), s, t)
  {
    hide *;
    CoherentEnds(N, E, s, t);
    IntoAlone(N, S, b, s);
    IntoAlone(N, S, b, t);
    TopCoherent(N, E, Into(S, b), s, t);
    IntoTops(N, S, b);
  }

  lemma IntoAlone(N: set<Node>, S: set<Node>, b: Node, u: Node)
    requires b !in N - S && u in N && u !in S
    ensures Alone(Into(S, b), N, u)
  {
  }

  lemma IntoTops(N: set<Node>, S: set<Node>, b: Node)
    requires S <= N && S != {}
    ensures Tops(N, Into(S, b)) == N - S + {b}
  {
    var h := Into(S, b);
    var m :| m in S;
    assert h(m) == b;
    forall x | x in N - S + {b} && x != b ensures x in Tops(N, h) {
      assert h(x) == x;
    }
  }

  lemma {:induction false} BatchesRefine(groups: seq<Contraction<Node>>, p: Plan<Node>, w: map<Node, seq<Node>>,
                                         s: Node, t: Node)
    returns (w': map<Node, seq<Node>>)
    requires Running(p, w, s, t) && Fits(Batches(groups), p.nodes, p.edges, s, t)
    ensures Closed(p) && Refined(p, ContractAll(groups, p), w', s, t)
  {
    if groups == [] {
      w' := w;
      RefinedSelf(p, w, s, t);
    } else {
      var k := |groups| - 1;
      assert groups[k] in groups;
      var m := ContractAll(groups[..k], p);
      var wm := BatchesRefine(groups[..k], p, w, s, t);
      w' := ContractRunning(m, wm, groups[k].members, groups[k].batch, s, t);
      RefinedTrans(p, m, wm, Contract(m, groups[k].members, groups[k].batch), w', s, t);
    }
  }

  /** The sequence pass is a stage of contractions. */
  lemma SequenceFitsBatches(steps: seq<Step>, N: set<Node>, E: set<(Node, Node)>, s: Node, t: Node)
    requires Coherent(N, E, s, t) && Fits(Sequences(steps), N, E, s, t)
    ensures Fits(Batches(AsContractions(steps)), N, E, s, t)
    ensures Contracted(AsContractions(steps), N, E) == Collapse(steps, N, E)
  {
    SequenceContracts(steps, N, E);
    forall g | g in AsContractions(steps)
      ensures g.members != {} && s !in g.members && t !in g.members && g.batch.kind == CommandNode
    {
      var i := IndexOf(AsContractions(steps), g);
      StepChain(steps, N, E, i);
      assert steps[i] in steps && steps[i].chain[0] in g.members;
    }
  }

  lemma {:induction false} StepChain(steps: seq<Step>, N: set<Node>, E: set<(Node, Node)>, i: nat)
    requires StepsValid(steps, N, E) && i < |steps|
    ensures steps[i].chain != []
  {
    if i < |steps| - 1 {
      StepChain(steps[..|steps| - 1], N, E, i);
    }
  }

  ghost predicate AllHeaded(chains: seq<seq<Node>>) {
    forall k :: 0 <= k < |chains| ==> chains[k] != []
  }

  /** Fusing chains into their heads is contracting them, each into one of its own nodes. */
  ghost function AsHeads(chains: seq<seq<Node>>): (groups: seq<Contraction<Node>>)
    requires AllHeaded(chains)
    ensures |groups| == |chains|
    ensures forall k :: 0 <= k < |chains| ==> groups[k] == Contraction(Elems(chains[k]), chains[k][0])
  {
    seq(|chains|, k requires 0 <= k < |chains| => Contraction(Elems(chains[k]), chains[k][0]))
  }

  lemma IntoIsHead(E: set<(Node, Node)>, c: seq<Node>)
    requires c != []
    ensures Quotient(E, Into(Elems(c), c[0])) == Shortened(E, c)
  {
    var f, h := Into(Elems(c), c[0]), ToHead(c);
    assert forall x :: f(x) == h(x);
  }

  lemma HeadsSnoc(front: seq<seq<Node>>, c: seq<Node>)
    requires AllHeaded(front) && c != []
    ensures AllHeaded(front + [c]) && AsHeads(front + [c]) == AsHeads(front) + [Contraction(Elems(c), c[0])]
  {
  }

  lemma HeadStep(N: set<Node>, E: set<(Node, Node)>, c: seq<Node>)
    requires Acyclic(E) && IsChain(E, c) && Elems(c) <= N
    ensures c != [] && N - Elems(c) + {c[0]} == N - Tail(c) && c[0] !in N - Elems(c)
    ensures Quotient(E, Into(Elems(c), c[0])) == Shortened(E, c) && Acyclic(Shortened(E, c))
  {
    TailIs(c);
    ShortenedAcyclic(E, c);
    IntoIsHead(E, c);
    assert c[0] in Elems(c);
  }

  lemma {:induction false} FusesContract(chains: seq<seq<Node>>, N: set<Node>, E: set<(Node, Node)>)
    requires Acyclic(E) && InTurn(chains, N, E)
    ensures AllHeaded(chains) && Sensible(AsHeads(chains), N, E)
    ensures Contracted(AsHeads(chains), N, E) == (N - Absorbed(chains), ShortenedAll(chains, E))
  {
    hide Acyclic, Shortened, Quotient, Into, IsChain, Elems, Tail, Absorbed, AllHeaded;
    if chains == [] {
      NoHeads(N);
    } else {
      var front, c := chains[..|chains| - 1], chains[|chains| - 1];
      assert chains == front + [c];
      FusesContract(front, N, E);
      AllAcyclic(front, N, E);
      HeadStep(N - Absorbed(front), ShortenedAll(front, E), c);
      ChainsSnoc(front, c);
      HeadsSnoc(front, c);
      ContractedSnoc(AsHeads(front), Contraction(Elems(c), c[0]), N, E);
      assert N - Absorbed(front) - Tail(c) == N - Absorbed(chains);
    }
  }

  lemma NoHeads(N: set<Node>)
    ensures AllHeaded([]) && AsHeads([]) == [] && N - Absorbed([]) == N
  {
  }

  lemma FusesFitBatches(chains: seq<seq<Node>>, N: set<Node>, E: set<(Node, Node)>, s: Node, t: Node)
    requires Coherent(N, E, s, t) && Fits(Fuses(chains), N, E, s, t)
    ensures AllHeaded(chains) && Fits(Batches(AsHeads(chains)), N, E, s, t)
    ensures Contracted(AsHeads(chains), N, E) == (N - Absorbed(chains), ShortenedAll(chains, E))
  {
    FusesContract(chains, N, E);
    forall g | g in AsHeads(chains)
      ensures g.members != {} && s !in g.members && t !in g.members && g.batch.kind == CommandNode
    {
      var i := IndexOf(AsHeads(chains), g);
      assert chains[i] in chains && chains[i][0] in g.members;
    }
  }

  /** Every pass leaves a DAG with the same single source and sink. */
  lemma StageCoherent(stage: Stage, N: set<Node>, E: set<(Node, Node)>, s: Node, t: Node)
    requires Coherent(N, E, s, t) && Fits(stage, N, E, s, t)
    ensures var r := After(stage, N, E); Coherent(r.0, r.1, s, t)
  {
    match stage
    case Rewrites =>
    case Visits(vec) => VisitedOrder(vec, N, E, s, t);
    case Reduces => ReducedCoherent(N, E, s, t);
    case Fuses(chains) =>
      FusesFitBatches(chains, N, E, s, t);
      BatchesCoherent(AsHeads(chains), N, E, s, t);
    case Sequences(steps) =>
      SequenceFitsBatches(steps, N, E, s, t);
      BatchesCoherent(AsContractions(steps), N, E, s, t);
    case Batches(groups) => BatchesCoherent(groups, N, E, s, t);
  }

  lemma {:induction false} BatchesCoherent(groups: seq<Contraction<Node>>, N: set<Node>, E: set<(Node, Node)>, s: Node,
                                           t: Node)
    requires Coherent(N, E, s, t) && Fits(Batches(groups), N, E, s, t)
    ensures var r := Contracted(groups, N, E); Coherent(r.0, r.1, s, t)
  {
    if groups != [] {
      var k := |groups| - 1;
      assert groups[k] in groups;
      BatchesCoherent(groups[..k], N, E, s, t);
      var r := Contracted(groups[..k], N, E);
      IntoCoherent(r.0, r.1, groups[k].members, groups[k].batch, s, t);
    }
  }

  /** The plan after one pass: control nodes are dropped, edges reduced, groups expanded where they stand. */
  ghost function PlanAfter(stage: Stage, p: Plan<Node>, s: Node, t: Node): (q: Plan<Node>)
    requires Closed(p) && Coherent(p.nodes, p.edges, s, t) && Fits(stage, p.nodes, p.edges, s, t)
    ensures Closed(q) && (q.nodes, q.edges) == After(stage, p.nodes, p.edges)
  {
    StageCoherent(stage, p.nodes, p.edges, s, t);
    match stage
    case Rewrites => p
    case Visits(vec) =>
      VisitedOrder(vec, p.nodes, p.edges, s, t);
      var r := Visited(vec, p.nodes, p.edges);
      Restrict(p, r.0, r.1)
    case Reduces => Restrict(p, p.nodes, Reduction(p.edges))
    case Fuses(chains) =>
      FusesFitBatches(chains, p.nodes, p.edges, s, t);
      ContractAll(AsHeads(chains), p)
    case Sequences(steps) =>
      SequenceFitsBatches(steps, p.nodes, p.edges, s, t);
      ContractAll(AsContractions(steps), p)
    case Batches(groups) => ContractAll(groups, p)
  }

  /** One pass, whichever it is. */
  lemma StageRefines(stage: Stage, p: Plan<Node>, w: map<Node, seq<Node>>, s: Node, t: Node)
    returns (w': map<Node, seq<Node>>)
    requires Running(p, w, s, t) && Fits(stage, p.nodes, p.edges, s, t)
    ensures Closed(p) && Refined(p, PlanAfter(stage, p, s, t), w', s, t)
  {
    RunningParts(p, w, s, t);
    match stage
    case Rewrites =>
      w' := w;
      RefinedSelf(p, w, s, t);
    case Visits(vec) => w' := VisitsRefine(vec, p, w, s, t);
    case Reduces => w' := ReducesRefines(p, w, s, t);
    case Fuses(chains) =>
      FusesFitBatches(chains, p.nodes, p.edges, s, t);
      w' := BatchesRefine(AsHeads(chains), p, w, s, t);
    case Sequences(steps) =>
      SequenceFitsBatches(steps, p.nodes, p.edges, s, t);
      w' := BatchesRefine(AsContractions(steps), p, w, s, t);
    case Batches(groups) => w' := BatchesRefine(groups, p, w, s, t);
  }

  // ------------------------------------------------------------ a whole run

  ghost function AfterAll(stages: seq<Stage>, N: set<Node>, E: set<(Node, Node)>): (set<Node>, set<(Node, Node)>) {
    if stages == [] then (N, E)
    else
      var r := AfterAll(stages[..|stages| - 1], N, E);
      After(stages[|stages| - 1], r.0, r.1)
  }

  ghost predicate AllFit(stages: seq<Stage>, N: set<Node>, E: set<(Node, Node)>, s: Node, t: Node) {
    stages != [] ==>
      var r := AfterAll(stages[..|stages| - 1], N, E);
      AllFit(stages[..|stages| - 1], N, E, s, t) && Fits(stages[|stages| - 1], r.0, r.1, s, t)
  }

  /** A command graph nothing has been done to: every node that is not a control node is one command. */
  ghost function Fresh(N: set<Node>, E: set<(Node, Node)>): Plan<Node> {
    Plan(N, E, map u | u in N :: if u.kind == EmptyNode then {} else {u}, {}, {})
  }

  ghost function CommandsOf(N: set<Node>): set<Node> {
    set u | u in N && u.kind != EmptyNode
  }

  /** `x` runs every command once and never before one it depends on. */
  ghost predicate Executes(x: seq<Node>, N: set<Node>, E: set<(Node, Node)>) {
    && NoDup(x) && Elems(x) == CommandsOf(N)
    && forall i, j :: 0 <= i <= j < |x| ==> !Before(E, x[j], x[i])
  }

  lemma FreshRuns(N: set<Node>, E: set<(Node, Node)>, s: Node, t: Node)
    requires Coherent(N, E, s, t)
    ensures Closed(Fresh(N, E)) && Commands(Fresh(N, E)) == CommandsOf(N)
    ensures Running(Fresh(N, E), map u | u in N :: if u.kind == EmptyNode then [] else [u], s, t)
  {
    CoherentEnds(N, E, s, t);
    FreshCommands(N, E);
    FreshWitness(N, E);
  }

  lemma FreshCommands(N: set<Node>, E: set<(Node, Node)>)
    requires forall e :: e in E ==> e.0 in N && e.1 in N
    ensures Closed(Fresh(N, E)) && Commands(Fresh(N, E)) == CommandsOf(N)
  {
    var p := Fresh(N, E);
    assert p.leaves.Keys == N;
    forall u ensures u in Commands(p) <==> u in CommandsOf(N) {
      if u in CommandsOf(N) {
        assert u in p.nodes && u in p.leaves[u];
      }
    }
  }

  lemma FreshWitness(N: set<Node>, E: set<(Node, Node)>)
    requires forall e :: e in E ==> e.0 in N && e.1 in N
    ensures Closed(Fresh(N, E)) && Witness(Fresh(N, E), map u | u in N :: if u.kind == EmptyNode then [] else [u])
  {
    var p, w := Fresh(N, E), map u | u in N :: if u.kind == EmptyNode then [] else [u];
    assert p.leaves.Keys == N && w.Keys == N;
    forall u | u in N ensures NoDup(w[u]) && Elems(w[u]) == p.leaves[u] { }
  }

  lemma FreshOrdered(N: set<Node>, E: set<(Node, Node)>, x: Node, y: Node)
    requires Closed(Fresh(N, E)) && x in CommandsOf(N) && y in CommandsOf(N)
    ensures Ordered(Fresh(N, E), x, y) <==> Before(E, x, y)
  {
    var p := Fresh(N, E);
    assert x in p.leaves[x] && y in p.leaves[y];
  }

  lemma FreshLegal(N: set<Node>, E: set<(Node, Node)>, x: seq<Node>)
    requires Closed(Fresh(N, E)) && Commands(Fresh(N, E)) == CommandsOf(N)
    ensures Legal(Fresh(N, E), x) <==> Executes(x, N, E)
  {
    if Elems(x) == CommandsOf(N) {
      forall i, j | 0 <= i <= j < |x| ensures Ordered(Fresh(N, E), x[j], x[i]) <==> Before(E, x[j], x[i]) {
        assert x[i] in Elems(x) && x[j] in Elems(x);
        FreshOrdered(N, E, x[j], x[i]);
      }
    }
  }

  /** What a run makes of a fresh command graph, one pass after the other. */
  ghost function PlanOf(stages: seq<Stage>, N: set<Node>, E: set<(Node, Node)>, s: Node, t: Node): (q: Plan<Node>)
    requires Coherent(N, E, s, t) && AllFit(stages, N, E, s, t)
    ensures Closed(q) && (q.nodes, q.edges) == AfterAll(stages, N, E) && Coherent(q.nodes, q.edges, s, t)
  {
    if stages == [] then
      FreshRuns(N, E, s, t);
      Fresh(N, E)
    else
      var k := |stages| - 1;
      var m := PlanOf(stages[..k], N, E, s, t);
      StageCoherent(stages[k], m.nodes, m.edges, s, t);
      PlanAfter(stages[k], m, s, t)
  }

  lemma {:induction false} RunRefines(stages: seq<Stage>, N: set<Node>, E: set<(Node, Node)>, s: Node, t: Node)
    returns (w: map<Node, seq<Node>>)
    requires Coherent(N, E, s, t) && AllFit(stages, N, E, s, t)
    ensures Refined(Fresh(N, E), PlanOf(stages, N, E, s, t), w, s, t)
  {
    FreshRuns(N, E, s, t);
    if stages == [] {
      w := map u | u in N :: if u.kind == EmptyNode then [] else [u];
      RefinedSelf(Fresh(N, E), w, s, t);
    } else {
      var k := |stages| - 1;
      var m := PlanOf(stages[..k], N, E, s, t);
      var wm := RunRefines(stages[..k], N, E, s, t);
      w := StageRefines(stages[k], m, wm, s, t);
      RefinedTrans(Fresh(N, E), m, wm, PlanAfter(stages[k], m, s, t), w, s, t);
    }
  }

  /** Whatever subset of the passes ran, in whatever order: some execution of the result exists, and
      every execution of the result, batches expanded in place, executes the original graph. */
  lemma OptimisedExecutes(stages: seq<Stage>, N: set<Node>, E: set<(Node, Node)>, s: Node, t: Node)
    returns (x: seq<Node>)
    requires Coherent(N, E, s, t) && AllFit(stages, N, E, s, t)
    ensures Legal(PlanOf(stages, N, E, s, t), x)
    ensures forall y :: Legal(PlanOf(stages, N, E, s, t), y) ==> Executes(y, N, E)
  {
    var q := PlanOf(stages, N, E, s, t);
    var w := RunRefines(stages, N, E, s, t);
    x := SoundRuns(q, w);
    forall y | Legal(q, y) ensures Executes(y, N, E) {
      EveryExecution(N, E, s, t, q, y);
    }
  }

  lemma EveryExecution(N: set<Node>, E: set<(Node, Node)>, s: Node, t: Node, q: Plan<Node>, x: seq<Node>)
    requires Coherent(N, E, s, t) && Closed(Fresh(N, E)) && Closed(q) && Tightens(Fresh(N, E), q) && Legal(q, x)
    ensures Executes(x, N, E)
  {
    FreshRuns(N, E, s, t);
    TightensLegal(Fresh(N, E), q, x);
    FreshLegal(N, E, x);
  }
}
