/** The command-graph copy-fuse pass: absorbed nodes are visited again, and absorb in turn. */
module PodCopyFusePass {
  import opened AdjacencyLists
  import opened CommandGraphs
  import opened Copies
  import opened Digraphs
  import opened PodCopyFuse
  import opened TwinRuns

  /** The lists of `x` name what the pool says. */
  ghost predicate ListsAre(g: Pool<Node>, x: Node)
    reads x`successors, x`predecessors
  {
    && x in g.succs && NoDup(x.successors) && Elems(x.successors) == g.succs[x]
    && x in g.preds && NoDup(x.predecessors) && Elems(x.predecessors) == g.preds[x]
  }

  /** `x` holds the copy the pool says, or what it held at first. */
  ghost predicate CommandIs(g: Pool<Node>, C: map<Node, Command>, x: Node)
    reads x`command
  {
    && x in C && (x in g.copies <==> x.kind == CommandNode && C[x].Copy1D?)
    && x.command == if x in g.copies then Copy1D(C[x].direction, g.copies[x]) else C[x]
  }

  /** The nodes, whether linked or absorbed, are as the pool says. */
  ghost predicate Mirrors(g: Pool<Node>, N: set<Node>, C: map<Node, Command>)
    reads N`successors, N`predecessors, N`command
  {
    forall x :: x in N ==> ListsAre(g, x) && CommandIs(g, C, x)
  }

  /** The linear copies the nodes hold. */
  ghost function CopiesOf(N: set<Node>): map<Node, LinearCopy>
    reads N`command
  {
    map x | x in N && x.kind == CommandNode && x.command.Copy1D? :: x.command.linear
  }

  lemma MirrorsAt(g: Pool<Node>, N: set<Node>, C: map<Node, Command>, x: Node)
    requires Mirrors(g, N, C) && x in N
    ensures ListsAre(g, x) && CommandIs(g, C, x)
  {
  }

  lemma SameMultisets(a: seq<Node>, b: seq<Node>)
    requires NoDup(a) && NoDup(b)
    ensures multiset(a) == multiset(b) <==> Elems(a) == Elems(b)
  {
    OneEach(a);
    OneEach(b);
    if Elems(a) == Elems(b) {
      forall x ensures multiset(a)[x] == multiset(b)[x] {
        assert x in a <==> x in Elems(a);
        assert x in b <==> x in Elems(b);
      }
    }
    if multiset(a) == multiset(b) {
      forall x ensures x in Elems(a) <==> x in Elems(b) {
        assert x in a <==> x in multiset(a);
        assert x in b <==> x in multiset(b);
      }
    }
  }

  lemma NeighboursAre(g: Pool<Node>, u: Node, v: Node)
    requires ListsAre(g, u) && ListsAre(g, v)
    ensures SameNeighbours(u, v) <==> g.succs[u] == g.succs[v] && g.preds[u] == g.preds[v]
  {
    SameMultisets(u.successors, v.successors);
    SameMultisets(u.predecessors, v.predecessors);
  }

  lemma TidyIs(g: Pool<Node>, N: set<Node>, u: Node)
    requires Sound(g, N) && u in N && ListsAre(g, u)
    ensures Tidy(u)
  {
    assert u in u.successors <==> u in Elems(u.successors);
    assert u in u.predecessors <==> u in Elems(u.predecessors);
  }

  lemma LiveLinked(g: Pool<Node>, N: set<Node>, C: map<Node, Command>)
    requires Sound(g, N) && Mirrors(g, N, C)
    ensures Linked(g.live, g.edges) && Acyclic(g.edges)
  {
    hide Acyclic, NoDup, Elems, Targets, Sources, CommandIs;
    forall x | x in g.live ensures NodeLinked(x, g.edges) {
      MirrorsAt(g, N, C, x);
    }
  }

  lemma FiresIs(g: Pool<Node>, C: map<Node, Command>, u: Node, v: Node)
    requires ListsAre(g, u) && ListsAre(g, v) && CommandIs(g, C, u) && CommandIs(g, C, v)
    ensures Fires(g, u, v) <==> (CommandTwins(u, v) && LinearNode(u) && LinearNode(v)
                                 && Fusable(u.command.linear, v.command.linear))
  {
    NeighboursAre(g, u, v);
    hide Fusable, SameNeighbours;
  }

  lemma TwinKinds(u: Node, v: Node)
    ensures CommandTwins(u, v) ==> u.kind == v.kind == CommandNode
  {
  }

  /** Some node held a two-dimensional copy at first. */
  ghost predicate SomeBlock(N: set<Node>, C: map<Node, Command>) {
    exists x :: x in N && x.kind == CommandNode && x in C && C[x].Copy2D?
  }

  lemma GaveUpOnBlock(g: Pool<Node>, N: set<Node>, C: map<Node, Command>, u: Node, v: Node)
    requires u in N && v in N && CommandIs(g, C, u) && CommandIs(g, C, v)
    requires u.kind == v.kind == CommandNode && Unfinished(u.command, v.command)
    ensures SomeBlock(N, C)
  {
  }

  lemma StillAbsorbed(g: Pool<Node>, N: set<Node>, u: Node, v: Node, x: Node)
    requires Sound(g, N) && Fires(g, u, v) && v in g.live && x in N && u in N
    requires if x == u || x == v || x !in g.live then ListsAre(g, x) else NodeLinked(x, Without(g.edges, v))
    ensures ListsAre(Taken(g, u, v), x)
  {
    hide Fused, Fusable, NoDup, Elems, Without, Targets, Sources;
    if x != u && x != v && x in g.live {
      TakenNeighbours(g, N, u, v, x);
    } else if x in g.preds[v] || x in g.succs[v] {
      NamedByLive(g, N, x, v);
    }
  }

  lemma AllMirror(g: Pool<Node>, N: set<Node>, C: map<Node, Command>)
    requires Mirrors(g, N, C)
    ensures forall x :: x in N ==> ListsAre(g, x) && CommandIs(g, C, x)
  {
  }

  lemma MirrorsIs(g: Pool<Node>, N: set<Node>, C: map<Node, Command>)
    requires forall x :: x in N ==> ListsAre(g, x) && CommandIs(g, C, x)
    ensures Mirrors(g, N, C)
  {
  }

  lemma LinkedAt(nodes: set<Node>, E: set<(Node, Node)>, x: Node)
    requires Linked(nodes, E)
    ensures x in nodes ==> NodeLinked(x, E)
  {
  }

  lemma FiresHolds(g: Pool<Node>, N: set<Node>, u: Node, v: Node)
    requires Sound(g, N) && Fires(g, u, v)
    ensures u in g.held && v in g.held && u in g.copies && v in g.copies && u != v
  {
  }

  lemma CommandTaken(g: Pool<Node>, C: map<Node, Command>, u: Node, v: Node, x: Node)
    requires Fires(g, u, v) && u in g.held && v in g.held
    requires x != u ==> CommandIs(g, C, x)
    requires x == u ==> u in C && u.kind == CommandNode && C[u].Copy1D? &&
                        u.command == Copy1D(C[u].direction, Fused(g.copies[u], g.copies[v]))
    ensures CommandIs(Taken(g, u, v), C, x)
  {
    hide Fusable, Fused, Without;
  }

  /** No list of the nodes has changed since they read `S` and `P`. */
  ghost predicate ListsKept(N: set<Node>, S: map<Node, seq<Node>>, P: map<Node, seq<Node>>)
    reads N`successors, N`predecessors
  {
    forall x :: x in N ==> x in S && x.successors == S[x] && x in P && x.predecessors == P[x]
  }

  lemma ListsKeptParts(N: set<Node>, S: map<Node, seq<Node>>, P: map<Node, seq<Node>>)
    requires ListsKept(N, S, P)
    ensures forall x :: x in N ==> x in S && x.successors == S[x] && x in P && x.predecessors == P[x]
  {
  }

  lemma ListsKeptIs(N: set<Node>, S: map<Node, seq<Node>>, P: map<Node, seq<Node>>)
    requires forall x :: x in N ==> x in S && x.successors == S[x] && x in P && x.predecessors == P[x]
    ensures ListsKept(N, S, P)
  {
  }

  /** The step on the nodes is the step on the pool. */
  method Step(u: Node, v: Node, ghost g: Pool<Node>, ghost N: set<Node>, ghost C: map<Node, Command>,
              ghost S: map<Node, seq<Node>>, ghost P: map<Node, seq<Node>>)
    returns (outcome: Outcome, ghost h: Pool<Node>)
    requires Sound(g, N) && Mirrors(g, N, C) && u in N && v in N && (SameNeighbours(u, v) ==> v in g.live)
    requires ListsKept(N, S, P)
    modifies N`successors, N`predecessors, N`command
    ensures Mirrors(h, N, C)
    ensures outcome == Merged ==> Fires(g, u, v) && u in g.held && v in g.held && h == Taken(g, u, v)
    ensures outcome == Merged ==> v in g.live
    ensures outcome != Merged ==> h == g && ListsKept(N, S, P)
    ensures outcome == Unmerged ==> !Fires(g, u, v)
    ensures outcome == GaveUp ==> SomeBlock(N, C)
  {
    hide *;
    MirrorsAt(g, N, C, u);
    MirrorsAt(g, N, C, v);
    LiveLinked(g, N, C);
    LiveIn(g, N);
    TidyIs(g, N, u);
    FiresIs(g, C, u, v);
    TwinKinds(u, v);
    if u.kind == CommandNode && v.kind == CommandNode && Unfinished(u.command, v.command) {
      GaveUpOnBlock(g, N, C, u, v);
    }
    AllMirror(g, N, C);
    ListsKeptParts(N, S, P);
    outcome := TryFuse(u, v, g.live, g.edges);
    h := g;
    if outcome == Merged {
      FiresHolds(g, N, u, v);
      h := Taken(g, u, v);
      forall x | x in N ensures ListsAre(h, x) && CommandIs(h, C, x) {
        LinkedAt(g.live - {v}, Without(g.edges, v), x);
        StillAbsorbed(g, N, u, v, x);
        CommandTaken(g, C, u, v, x);
      }
    } else {
      ListsKeptIs(N, S, P);
    }
    MirrorsIs(h, N, C);
  }

  lemma ListsElems(g: Pool<Node>, x: Node)
    requires ListsAre(g, x)
    ensures x in g.succs && Elems(x.successors) == g.succs[x] && x in g.preds && Elems(x.predecessors) == g.preds[x]
  {
  }

  lemma PredecessorIn(g: Pool<Node>, N: set<Node>, u: Node, preds: seq<Node>, a: nat)
    requires Sound(g, N) && u in N && u in g.preds && Elems(preds) == g.preds[u] && a < |preds|
    ensures preds[a] in N && preds[a] in g.preds[u]
  {
    assert preds[a] in Elems(preds);
  }

  lemma SiblingIn(g: Pool<Node>, N: set<Node>, C: map<Node, Command>, u: Node, p: Node, siblings: seq<Node>, b: nat)
    requires Sound(g, N) && Mirrors(g, N, C) && u in N && u in g.preds && p in g.preds[u] && p in g.succs
    requires Elems(siblings) == g.succs[p] && b < |siblings|
    ensures siblings[b] in N && (SameNeighbours(u, siblings[b]) ==> siblings[b] in g.live)
  {
    var v := siblings[b];
    assert v in Elems(siblings);
    hide SameNeighbours, Sound;
    OnlyLive(g, N, u, p, v);
    NeighboursAre(g, u, v);
  }

  lemma AllSiblings(g: Pool<Node>, u: Node, p: Node, siblings: seq<Node>)
    requires p in g.succs && Elems(siblings) == g.succs[p]
    requires forall k: nat :: k < |siblings| ==> !Fires(g, u, siblings[k])
    ensures forall v :: v in g.succs[p] ==> !Fires(g, u, v)
  {
    hide Fires;
    forall v | v in g.succs[p] ensures !Fires(g, u, v) {
      assert v in Elems(siblings);
    }
  }

  lemma NoneFires(g: Pool<Node>, u: Node, preds: seq<Node>)
    requires u in g.preds && Elems(preds) == g.preds[u]
    requires forall k: nat, v :: k < |preds| && preds[k] in g.succs && v in g.succs[preds[k]] ==> !Fires(g, u, v)
    ensures Exhausted(g, u)
  {
    hide Fires;
    forall p, v | p in g.preds[u] && p in g.succs && v in g.succs[p] ensures !Fires(g, u, v) {
      assert p in Elems(preds);
    }
  }

  /** One pass over the siblings of `u`: the first that fuses ends it. */
  method Siblings(u: Node, ghost g: Pool<Node>, ghost N: set<Node>, ghost C: map<Node, Command>,
                  ghost S: map<Node, seq<Node>>, ghost P: map<Node, seq<Node>>)
    returns (outcome: Outcome, ghost h: Pool<Node>, ghost gone: Node)
    requires Sound(g, N) && Mirrors(g, N, C) && u in N && ListsKept(N, S, P)
    modifies N`successors, N`predecessors, N`command
    ensures Mirrors(h, N, C) && gone in N
    ensures outcome == Merged ==> gone in g.live && Fires(g, u, gone) && u in g.held && gone in g.held
                                  && h == Taken(g, u, gone)
    ensures outcome != Merged ==> h == g && ListsKept(N, S, P)
    ensures outcome == Unmerged ==> Exhausted(g, u)
    ensures outcome == GaveUp ==> SomeBlock(N, C)
  {
    hide *;
    MirrorsAt(g, N, C, u);
    ListsElems(g, u);
    h, gone := g, u;
    var preds := u.predecessors;
    for a := 0 to |preds|
      invariant Mirrors(g, N, C) && ListsKept(N, S, P)
      invariant forall k: nat, v :: k < a && preds[k] in g.succs && v in g.succs[preds[k]] ==> !Fires(g, u, v)
    {
      var pred := preds[a];
      PredecessorIn(g, N, u, preds, a);
      MirrorsAt(g, N, C, pred);
      ListsElems(g, pred);
      var siblings := pred.successors;
      for b := 0 to |siblings|
        invariant Mirrors(g, N, C) && ListsKept(N, S, P)
        invariant forall k: nat :: k < b ==> !Fires(g, u, siblings[k])
      {
        SiblingIn(g, N, C, u, pred, siblings, b);
        ghost var next;
        outcome, next := Step(u, siblings[b], g, N, C, S, P);
        if outcome != Unmerged {
          h, gone := next, siblings[b];
          return;
        }
      }
      AllSiblings(g, u, pred, siblings);
    }
    NoneFires(g, u, preds);
    return Unmerged, g, u;
  }

  ghost function SuccessorsOf(N: set<Node>): map<Node, seq<Node>>
    reads N`successors
  {
    map x | x in N :: x.successors
  }

  ghost function PredecessorsOf(N: set<Node>): map<Node, seq<Node>>
    reads N`predecessors
  {
    map x | x in N :: x.predecessors
  }

  lemma NowKept(N: set<Node>)
    ensures ListsKept(N, SuccessorsOf(N), PredecessorsOf(N))
  {
  }

  lemma NowLists(N: set<Node>)
    ensures forall x :: x in N ==> x in SuccessorsOf(N) && SuccessorsOf(N)[x] == x.successors
    ensures forall x :: x in N ==> x in PredecessorsOf(N) && PredecessorsOf(N)[x] == x.predecessors
  {
  }

  lemma GoingParts(g: Pool<Node>, N: set<Node>, E: set<(Node, Node)>, c: map<Node, LinearCopy>, s: Node, t: Node,
                   vec: seq<Node>, i: nat, lost: bool)
    requires i <= |vec| && Going(g, N, E, c, s, t, vec, i, lost)
    ensures Sound(g, N) && Holding(g, N) && g.live <= N && g.copies.Keys == c.Keys && (InRanges(c) ==> Meaning(g, c))
  {
    hide Holding, InRanges, Meaning, Unlost;
  }

  /** `retry_node`: look for siblings to absorb until there is none. */
  method Visit(vec: seq<Node>, i: nat, ghost g: Pool<Node>, ghost N: set<Node>, ghost E: set<(Node, Node)>,
               ghost C: map<Node, Command>, ghost c: map<Node, LinearCopy>, ghost s: Node, ghost t: Node,
               ghost lost: bool, ghost S: map<Node, seq<Node>>, ghost P: map<Node, seq<Node>>)
    returns (aborted: bool, ghost h: Pool<Node>, ghost l: bool)
    requires Coherent(N, E, s, t) && c.Keys <= N && i < |vec| && Elems(vec) == N - {s, t}
    requires Going(g, N, E, c, s, t, vec, i, lost) && Mirrors(g, N, C) && (g.live == N ==> ListsKept(N, S, P))
    modifies N`successors, N`predecessors, N`command
    ensures Going(h, N, E, c, s, t, vec, if aborted then i else i + 1, l) && Mirrors(h, N, C)
    ensures h.live == N ==> ListsKept(N, S, P)
    ensures aborted ==> SomeBlock(N, C)
  {
    hide *;
    ListedIn(vec, i, N - {s, t});
    h, l := g, lost;
    while true
      invariant Going(h, N, E, c, s, t, vec, i, l) && Mirrors(h, N, C)
      invariant h.live == N ==> ListsKept(N, S, P)
      decreases h.live
    {
      GoingParts(h, N, E, c, s, t, vec, i, l);
      NowKept(N);
      ghost var S', P' := SuccessorsOf(N), PredecessorsOf(N);
      if h.live == N {
        S', P' := S, P;
      }
      var outcome;
      ghost var next, gone;
      outcome, next, gone := Siblings(vec[i], h, N, C, S', P');
      if outcome == GaveUp {
        return true, h, l;
      }
      if outcome == Unmerged {
        Visited(h, N, E, c, s, t, vec, i, l);
        return false, h, l;
      }
      TakenParts(h, vec[i], gone);
      Absorbed(h, N, E, c, s, t, vec, i, l, gone);
      h, l := next, l || vec[i] !in h.live;
    }
  }

  lemma ListedIn<V>(vec: seq<V>, i: nat, M: set<V>)
    requires i < |vec| && Elems(vec) == M
    ensures vec[i] in M
  {
  }

  /** `c` are the linear copies of `C`. */
  ghost predicate Selects(c: map<Node, LinearCopy>, N: set<Node>, C: map<Node, Command>) {
    && c.Keys <= N == C.Keys
    && (forall x :: x in N ==> (x in c <==> x.kind == CommandNode && C[x].Copy1D?))
    && (forall x :: x in c && x in C && C[x].Copy1D? ==> c[x] == C[x].linear)
  }

  lemma StartingPoint(cg: CommandGraph)
    requires cg.Valid()
    ensures Coherent(cg.nodes, cg.edges, cg.entry, cg.exit)
    ensures Selects(CopiesOf(cg.nodes), cg.nodes, CommandsHeld(cg.nodes)) && CopiesOf(cg.nodes).Keys <= cg.nodes
    ensures Mirrors(Initial(cg.nodes, cg.edges, CopiesOf(cg.nodes)), cg.nodes, CommandsHeld(cg.nodes))
    ensures forall x :: x in cg.nodes ==> x in CommandsHeld(cg.nodes) && CommandsHeld(cg.nodes)[x] == x.command
  {
    hide Acyclic, NoDup, Elems, Targets, Sources;
    forall x | x in cg.nodes ensures NodeLinked(x, cg.edges) { }
  }

  lemma Untouched(N: set<Node>, E: set<(Node, Node)>, C: map<Node, Command>, c: map<Node, LinearCopy>)
    requires Selects(c, N, C) && Mirrors(Initial(N, E, c), N, C)
    ensures forall x :: x in N ==> x in C && x.command == C[x]
  {
    hide ListsAre;
  }

  lemma GoingTwins(g: Pool<Node>, N: set<Node>, E: set<(Node, Node)>, c: map<Node, LinearCopy>, s: Node, t: Node,
                   vec: seq<Node>, i: nat, lost: bool)
    requires i <= |vec| && Going(g, N, E, c, s, t, vec, i, lost) && !HasTwins(N - {s, t}, E, c)
    ensures g == Initial(N, E, c) && g.live == N && g.edges == E
  {
    hide Holding, Sound, InRanges, Meaning, Unlost;
  }

  lemma BlockAmong(N: set<Node>, C: map<Node, Command>)
    requires SomeBlock(N, C)
    ensures exists x :: x in N && x.kind == CommandNode && x in C && C[x].Copy2D?
  {
  }

  lemma ValidIs(cg: CommandGraph)
    ensures Coherent(cg.nodes, cg.edges, cg.entry, cg.exit) && Linked(cg.nodes, cg.edges) ==> cg.Valid()
  {
  }

  /** The pass: every inner node is visited, absorbed or not. */
  method PassCopyFuse(cg: CommandGraph) returns (aborted: bool, ghost g: Pool<Node>)
    requires cg.Valid() && cg.Fresh()
    modifies cg`nodes, cg`edges, cg`walkId
    modifies cg.nodes`walkId, cg.nodes`iteratorIndex, cg.nodes`successors, cg.nodes`predecessors, cg.nodes`command
    ensures cg.nodes == g.live && cg.nodes <= old(cg.nodes) && cg.edges == g.edges
    ensures Linked(cg.nodes, cg.edges) && Acyclic(cg.edges) && cg.walkId == NextWalkId(old(cg.walkId))
    ensures Mirrors(g, old(cg.nodes), old(CommandsHeld(cg.nodes))) && Holding(g, old(cg.nodes))
    ensures g.copies.Keys == old(CopiesOf(cg.nodes)).Keys
    ensures InRanges(old(CopiesOf(cg.nodes))) ==> Meaning(g, old(CopiesOf(cg.nodes)))
    ensures aborted ==> exists x :: x in old(cg.nodes) && x.kind == CommandNode && old(x.command).Copy2D?
    ensures !HasTwins(old(cg.nodes) - {cg.entry, cg.exit}, old(cg.edges), old(CopiesOf(cg.nodes))) ==>
              cg.Valid() && cg.nodes == old(cg.nodes) && cg.edges == old(cg.edges)
              && forall x :: x in cg.nodes ==> x.command == old(x.command) && x.successors == old(x.successors)
                                               && x.predecessors == old(x.predecessors)
    ensures !aborted && InRanges(old(CopiesOf(cg.nodes))) ==>
              (AllHeld(g, old(CopiesOf(cg.nodes)).Keys - {cg.entry, cg.exit}) <==>
               !HasTwins(old(cg.nodes) - {cg.entry, cg.exit}, old(cg.edges), old(CopiesOf(cg.nodes))))
  {
    hide *;
    ghost var N, E, s, t, C, c := cg.nodes, cg.edges, cg.entry, cg.exit, CommandsHeld(cg.nodes), CopiesOf(cg.nodes);
    ghost var S, P, lost := SuccessorsOf(N), PredecessorsOf(N), false;
    NowLists(N);
    StartingPoint(cg);
    NowKept(N);
    var vec := cg.CreateNodeIterators(false);
    Start(N, E, c, s, t, vec);
    g := Initial(N, E, c);
    aborted := false;
    ghost var k := 0;
    for i := 0 to |vec|
      invariant k == i && Going(g, N, E, c, s, t, vec, i, lost) && Mirrors(g, N, C)
      invariant g.live == N ==> ListsKept(N, S, P)
      invariant cg.entry == s && cg.exit == t && cg.nodes == N && cg.edges == E && !aborted
      invariant cg.walkId == NextWalkId(old(cg.walkId))
    {
      aborted, g, lost := Visit(vec, i, g, N, E, C, c, s, t, lost, S, P);
      if aborted {
        break;
      }
      k := k + 1;
    }
    cg.nodes, cg.edges := g.live, g.edges;
    GoingParts(g, N, E, c, s, t, vec, k, lost);
    LiveLinked(g, N, C);
    if !aborted {
      AllOrNothing(g, N, E, c, s, t, vec, lost);
    }
    if !HasTwins(N - {s, t}, E, c) {
      GoingTwins(g, N, E, c, s, t, vec, k, lost);
      Untouched(N, E, C, c);
      ListsKeptParts(N, S, P);
    }
    if SomeBlock(N, C) {
      BlockAmong(N, C);
    }
    ValidIs(cg);
  }

  /** Two linear copies side by side between the ends. */
  ghost predicate SideBySide(cg: CommandGraph, u: Node, v: Node)
    reads cg, u`command, v`command
  {
    && Different(cg.entry, cg.exit, u, v) && cg.nodes == {cg.entry, cg.exit, u, v}
    && cg.edges == {(cg.entry, u), (cg.entry, v), (u, cg.exit), (v, cg.exit)}
    && cg.entry.kind == cg.exit.kind == EmptyNode && LinearNode(u) && LinearNode(v)
  }

  lemma DiamondCoherent<V>(s: V, t: V, u: V, v: V)
    requires Different(s, t, u, v)
    ensures Coherent({s, t, u, v}, {(s, u), (s, v), (u, t), (v, t)}, s, t)
    ensures FalseTwins({(s, u), (s, v), (u, t), (v, t)}, u, v)
    ensures var E := {(s, u), (s, v), (u, t), (v, t)};
            && Targets(E, s) == {u, v} && Targets(E, u) == Targets(E, v) == {t} && Targets(E, t) == {}
            && Sources(E, t) == {u, v} && Sources(E, u) == Sources(E, v) == {s} && Sources(E, s) == {}
  {
    var E := {(s, u), (s, v), (u, t), (v, t)};
    assert Targets(E, s) == {u, v} && Targets(E, u) == {t} && Targets(E, v) == {t} && Targets(E, t) == {};
    assert Sources(E, t) == {u, v} && Sources(E, u) == {s} && Sources(E, v) == {s} && Sources(E, s) == {};
    RankedAcyclic(E, x => if x == s then 0 else if x == t then 2 else 1);
    hide Acyclic;
  }

  lemma DiamondLinked(s: Node, t: Node, u: Node, v: Node)
    requires Different(s, t, u, v)
    requires s.successors == [u, v] && u.successors == v.successors == [t] && t.successors == []
    requires s.predecessors == [] && u.predecessors == v.predecessors == [s] && t.predecessors == [u, v]
    ensures Linked({s, t, u, v}, {(s, u), (s, v), (u, t), (v, t)})
  {
    hide Coherent, FalseTwins, Targets, Sources;
    DiamondCoherent(s, t, u, v);
  }

  method BuildSideBySide(direction: CopyDirection, a: LinearCopy, b: LinearCopy)
    returns (cg: CommandGraph, u: Node, v: Node)
    ensures cg.Valid() && cg.Fresh() && SideBySide(cg, u, v)
    ensures u.command == Copy1D(direction, a) && v.command == Copy1D(direction, b)
  {
    hide *;
    var s := new Node(UNSPECIFIED_DEVICE, EmptyNode);
    var t := new Node(UNSPECIFIED_DEVICE, EmptyNode);
    u := new Node(UNSPECIFIED_DEVICE, CommandNode);
    v := new Node(UNSPECIFIED_DEVICE, CommandNode);
    u.command, v.command := Copy1D(direction, a), Copy1D(direction, b);
    Precedes(s, u);
    Precedes(s, v);
    Precedes(u, t);
    Precedes(v, t);
    cg := new CommandGraph.Around(s, t, {s, t, u, v}, {(s, u), (s, v), (u, t), (v, t)});
    AreDifferent(s, t, u, v);
    DiamondCoherent(s, t, u, v);
    DiamondLinked(s, t, u, v);
    ValidIs(cg);
    SideBySideIs(cg, u, v);
  }

  lemma AreDifferent<V>(s: V, t: V, u: V, v: V)
    requires s != t && s != u && s != v && t != u && t != v && u != v
    ensures Different(s, t, u, v)
  {
  }

  lemma SideBySideIs(cg: CommandGraph, u: Node, v: Node)
    requires Different(cg.entry, cg.exit, u, v) && cg.nodes == {cg.entry, cg.exit, u, v}
    requires cg.edges == {(cg.entry, u), (cg.entry, v), (u, cg.exit), (v, cg.exit)}
    requires cg.entry.kind == cg.exit.kind == EmptyNode && u.kind == v.kind == CommandNode
    requires u.command.Copy1D? && v.command.Copy1D?
    requires cg.walkId == 0 && forall x :: x in cg.nodes ==> x.walkId == 0
    ensures SideBySide(cg, u, v) && cg.Fresh()
  {
  }

  lemma SideBySideCopies(cg: CommandGraph, u: Node, v: Node)
    requires SideBySide(cg, u, v)
    ensures var c := CopiesOf(cg.nodes); c.Keys == {u, v} && c[u] == u.command.linear && c[v] == v.command.linear
    ensures Different(cg.entry, cg.exit, u, v) && cg.nodes == {cg.entry, cg.exit, u, v}
    ensures forall x :: x in cg.nodes && x.kind == CommandNode ==> x.command.Copy1D?
    ensures {u, v} - {cg.entry, cg.exit} == {u, v}
  {
  }

  lemma SideBySideTwins(cg: CommandGraph, u: Node, v: Node)
    requires SideBySide(cg, u, v) && Fusable(u.command.linear, v.command.linear)
    ensures HasTwins(cg.nodes - {cg.entry, cg.exit}, cg.edges, CopiesOf(cg.nodes))
    ensures InRange(u.command.linear) && InRange(v.command.linear) ==> InRanges(CopiesOf(cg.nodes))
  {
    hide FalseTwins, Fusable, InRange, Coherent, Targets, Sources, CopiesOf;
    DiamondCoherent(cg.entry, cg.exit, u, v);
    SideBySideCopies(cg, u, v);
  }

  /** Two copies that touch, side by side between the ends, are both gone after the pass. */
  method LoseBoth(cg: CommandGraph, u: Node, v: Node) returns (aborted: bool)
    requires cg.Valid() && cg.Fresh() && SideBySide(cg, u, v)
    requires InRange(u.command.linear) && InRange(v.command.linear) && Fusable(u.command.linear, v.command.linear)
    modifies cg`nodes, cg`edges, cg`walkId
    modifies cg.nodes`walkId, cg.nodes`iteratorIndex, cg.nodes`successors, cg.nodes`predecessors, cg.nodes`command
    ensures !aborted && cg.nodes == {cg.entry, cg.exit}
  {
    hide *;
    SideBySideCopies(cg, u, v);
    SideBySideTwins(cg, u, v);
    ghost var s, t := cg.entry, cg.exit;
    ghost var g;
    aborted, g := PassCopyFuse(cg);
    BothLost(g, s, t, u, v);
  }
}
