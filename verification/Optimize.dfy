/** `optimize` over a set of passes: the chosen ones in canonical order, each leaving what it promises. */
module Optimize {
  import opened AdjacencyLists
  import opened BatchReplays
  import opened CommandGraphs
  import opened Contractions
  import opened CopyNormalize
  import opened Digraphs
  import opened LinkChains
  import opened MlirBatch
  import opened MlirBatchStage
  import opened MlirRoundTrip
  import opened Pipeline
  import opened Plans
  import opened ProgFuse
  import opened QuotientCoherence
  import opened ReduceEdge
  import opened ReduceNode
  import opened Sequence
  import opened SequenceOrder
  import opened SeriesFusions
  import opened TransitiveReduction

  /** Copy normalisation, the reductions, program fusion, the sequence pass and the MLIR batch pass. */
  datatype Pass = CopyNormalizePass | ReduceNodePass | ReduceEdgePass | ProgFusePass | SequencePass | BatchPass

  const CANONICAL_ORDER: seq<Pass> :=
    [CopyNormalizePass, ReduceNodePass, ReduceEdgePass, ProgFusePass, SequencePass, BatchPass]

  /** The passes of the set among the first `p`, whatever the order of the bits. */
  function SelectedUpTo(passes: set<Pass>, p: nat): seq<Pass>
    requires p <= |CANONICAL_ORDER|
  {
    if p == 0 then []
    else SelectedUpTo(passes, p - 1) + if CANONICAL_ORDER[p - 1] in passes then [CANONICAL_ORDER[p - 1]] else []
  }

  function Selected(passes: set<Pass>): seq<Pass> {
    SelectedUpTo(passes, |CANONICAL_ORDER|)
  }

  /** Where a pass stands among all eight: copy-fuse is 1 and jit 5. */
  ghost function Rank(pass: Pass): nat {
    match pass
    case CopyNormalizePass => 0
    case ReduceNodePass => 2
    case ReduceEdgePass => 3
    case ProgFusePass => 4
    case SequencePass => 6
    case BatchPass => 7
  }

  /** The chosen passes, each once, by rank. */
  lemma {:induction false} SelectedRanked(passes: set<Pass>, p: nat)
    requires p <= |CANONICAL_ORDER|
    ensures forall pass :: pass in SelectedUpTo(passes, p) <==> pass in passes && pass in CANONICAL_ORDER[..p]
    ensures forall i, j :: 0 <= i < j < |SelectedUpTo(passes, p)| ==>
        Rank(SelectedUpTo(passes, p)[i]) < Rank(SelectedUpTo(passes, p)[j])
  {
    if p > 0 {
      SelectedRanked(passes, p - 1);
      assert CANONICAL_ORDER[..p] == CANONICAL_ORDER[..p - 1] + [CANONICAL_ORDER[p - 1]];
      var front := SelectedUpTo(passes, p - 1);
      forall i | 0 <= i < |front| ensures Rank(front[i]) < Rank(CANONICAL_ORDER[p - 1]) {
        assert front[i] in CANONICAL_ORDER[..p - 1];
        var a :| 0 <= a < p - 1 && CANONICAL_ORDER[a] == front[i];
        RankRises(a, p - 1);
      }
    }
  }

  lemma RankRises(a: nat, b: nat)
    requires a < b < |CANONICAL_ORDER|
    ensures Rank(CANONICAL_ORDER[a]) < Rank(CANONICAL_ORDER[b])
  {
  }

  /** What runs are exactly the chosen passes, in the order of the source whatever the order of the bits. */
  lemma SelectedExactly(passes: set<Pass>)
    ensures forall pass :: pass in Selected(passes) <==> pass in passes
    ensures forall i, j :: 0 <= i < j < |Selected(passes)| ==> Rank(Selected(passes)[i]) < Rank(Selected(passes)[j])
  {
    SelectedRanked(passes, |CANONICAL_ORDER|);
    forall pass: Pass ensures pass in CANONICAL_ORDER[..|CANONICAL_ORDER|] {
      match pass
      case CopyNormalizePass => assert CANONICAL_ORDER[0] == pass;
      case ReduceNodePass => assert CANONICAL_ORDER[1] == pass;
      case ReduceEdgePass => assert CANONICAL_ORDER[2] == pass;
      case ProgFusePass => assert CANONICAL_ORDER[3] == pass;
      case SequencePass => assert CANONICAL_ORDER[4] == pass;
      case BatchPass => assert CANONICAL_ORDER[5] == pass;
    }
  }

  /** How often a pass walks the graph. */
  function Walks(pass: Pass): nat {
    if pass == ReduceEdgePass then 2 else 1
  }

  function AllWalks(run: seq<Pass>): nat {
    if run == [] then 0 else AllWalks(run[..|run| - 1]) + Walks(run[|run| - 1])
  }

  function Advance(id: WalkId, n: nat): WalkId {
    if n == 0 then id else NextWalkId(Advance(id, n - 1))
  }

  lemma {:induction false} AdvanceMore(id: WalkId, n: nat, m: nat)
    ensures Advance(Advance(id, n), m) == Advance(id, n + m)
  {
    if m > 0 {
      AdvanceMore(id, n, m - 1);
    }
  }

  // ------------------------------------------------------------ what one pass did

  /** What a pass did, with the evidence for it. */
  datatype Report =
    | CopiesNormalized
    | NodesReduced(vec: seq<Node>)
    | EdgesReduced
    | ProgsFused(chains: seq<seq<Node>>, key: map<Node, Launch>, was: map<Node, Command>, fuse: seq<nat> -> nat)
    | Sequenced(cands: set<Node>, found: seq<seq<Node>>, steps: seq<Step>)
    | Batched(vec: seq<Node>, groups: seq<Contraction<Node>>, copies: seq<map<Node, Node>>, scratch: Grouping,
        reps: seq<nat>)

  function PassOf(r: Report): Pass {
    match r
    case CopiesNormalized => CopyNormalizePass
    case NodesReduced(_) => ReduceNodePass
    case EdgesReduced => ReduceEdgePass
    case ProgsFused(_, _, _, _) => ProgFusePass
    case Sequenced(_, _, _) => SequencePass
    case Batched(_, _, _, _, _) => BatchPass
  }

  ghost function StageOf(r: Report): Stage {
    match r
    case CopiesNormalized => Rewrites
    case NodesReduced(vec) => Visits(vec)
    case EdgesReduced => Reduces
    case ProgsFused(chains, _, _, _) => Fuses(chains)
    case Sequenced(_, _, steps) => Sequences(steps)
    case Batched(_, groups, _, _, _) => Batches(groups)
  }

  /** The groups a pass put into batches, and the copies made of their members. */
  ghost function GroupsOf(r: Report): seq<Contraction<Node>> {
    match r
    case Sequenced(_, _, steps) => AsContractions(steps)
    case Batched(_, groups, _, _, _) => groups
    case _ => []
  }

  ghost function CopiesOf(r: Report): seq<map<Node, Node>> {
    match r
    case Sequenced(_, _, steps) => SameAll(AsContractions(steps))
    case Batched(_, _, copies, _, _) => copies
    case _ => []
  }

  /** The chains contracted are the worthwhile ones among all maximal chains of candidates. */
  ghost predicate ChainsTaken(cands: set<Node>, found: seq<seq<Node>>, steps: seq<Step>, E: set<(Node, Node)>) {
    && (forall c :: c in found ==> MaximalChain(E, cands, c))
    && (forall a, b :: 0 <= a < b < |found| ==> Elems(found[a]) !! Elems(found[b]))
    && (forall u, v :: u in cands && v in cands && IsLink(E, cands, u, v) ==>
        exists c :: c in found && u in c && v in c)
    && ChainsOf(steps) == Worthwhile(found)
  }

  /** The nodes a sequence may hold. */
  ghost function Candidates(N: set<Node>, s: Node, t: Node): set<Node>
    reads N`command
  {
    set u | u in N && u != s && u != t && SeqAble(u)
  }

  lemma CandidatesAre(cg: CommandGraph)
    ensures forall u :: u in cg.nodes ==> (IsCand(cg, u) <==> u in Candidates(cg.nodes, cg.entry, cg.exit))
    ensures Candidates(cg.nodes, cg.entry, cg.exit) <= cg.nodes - {cg.entry, cg.exit}
  {
  }

  /** The nodes visited, the chains found or fused or the groups formed are those of the graph. */
  ghost predicate Evident(r: Report, N: set<Node>, E: set<(Node, Node)>, s: Node, t: Node)
    reads N`command, if r.Batched? then {r.scratch} else {}
  {
    match r
    case CopiesNormalized => true
    case NodesReduced(vec) => NoDup(vec) && Elems(vec) == N - {s, t}
    case EdgesReduced => true
    case ProgsFused(chains, key, was, fuse) =>
      && Keyed(N, key, s)
      && FusedAll(chains, N, E, key, was, fuse, N - SeriesFusions.Absorbed(chains), ShortenedAll(chains, E))
    case Sequenced(cands, found, steps) => cands == Candidates(N, s, t) && ChainsTaken(cands, found, steps, E)
    case Batched(vec, groups, _, scratch, reps) => Elems(vec) == N && Grouped(groups, vec, E, s, t, scratch, reps)
  }

  // ------------------------------------------------------------ the passes, one by one

  lemma SequenceFits(cands: set<Node>, found: seq<seq<Node>>, steps: seq<Step>, N: set<Node>, E: set<(Node, Node)>,
                     s: Node, t: Node)
    requires StepsValid(steps, N, E) && ChainsTaken(cands, found, steps, E) && s !in cands && t !in cands
    requires forall x :: x in steps ==> SequenceBatch(x.batch, x.chain)
    ensures Fits(Sequences(steps), N, E, s, t)
  {
    forall x | x in steps ensures s !in x.chain && t !in x.chain && x.batch.kind == CommandNode {
      var i := IndexOf(steps, x);
      assert ChainsOf(steps)[i] == x.chain;
      WorthwhileFound(found, x.chain);
      ChainCands(E, cands, x.chain);
      assert s !in Elems(x.chain) && t !in Elems(x.chain);
    }
  }

  lemma {:induction false} VisitedWithin(vec: seq<Node>, N: set<Node>, E: set<(Node, Node)>, s: Node, t: Node)
    ensures Visited(vec, N, E).0 <= N
  {
    if vec != [] {
      VisitedWithin(vec[..|vec| - 1], N, E, s, t);
    }
  }

  lemma NothingReplays(N: set<Node>, E: set<(Node, Node)>)
    ensures AllReplay([], N, E, [])
  {
  }

  lemma NodesPerformed(vec: seq<Node>, N: set<Node>, E: set<(Node, Node)>, s: Node, t: Node)
    requires NoDup(vec) && Elems(vec) == N - {s, t}
    ensures Evident(NodesReduced(vec), N, E, s, t) && AllReplay(GroupsOf(NodesReduced(vec)), N, E,
        CopiesOf(NodesReduced(vec))) && Fits(Visits(vec), N, E, s, t)
    ensures Visited(vec, N, E).0 <= N && After(Visits(vec), N, E) == Visited(vec, N, E)
  {
    NothingReplays(N, E);
    VisitedWithin(vec, N, E, s, t);
  }

  lemma EdgesPerformed(N: set<Node>, E: set<(Node, Node)>, s: Node, t: Node)
    ensures Evident(EdgesReduced, N, E, s, t) && AllReplay(GroupsOf(EdgesReduced), N, E, CopiesOf(EdgesReduced)) &&
        Fits(Reduces, N, E, s, t) && After(Reduces, N, E) == (N, Reduction(E))
  {
    NothingReplays(N, E);
  }

  lemma MarkedFresh(cg: CommandGraph)
    requires forall u :: u in cg.nodes ==> u.walkId == cg.walkId
    ensures cg.Fresh()
  {
  }

  /** A pass can be run, and the batch pass too. */
  ghost predicate Ready(cg: CommandGraph)
    reads cg, cg.nodes`successors, cg.nodes`predecessors
  {
    cg.Valid() && Importable(cg)
  }

  lemma ReadyParts(cg: CommandGraph)
    requires Ready(cg)
    ensures cg.Valid() && Importable(cg)
  {
  }

  lemma StaysReady(cg: CommandGraph, N: set<Node>)
    requires cg.Valid() && cg.entry.kind == EmptyNode && cg.exit.kind == EmptyNode
    requires forall u :: u in cg.nodes && u !in N ==> u.kind == CommandNode
    requires forall u :: u in N ==> u.kind == EmptyNode || u.kind == CommandNode
    ensures Ready(cg)
  {
  }

  lemma Kinds(cg: CommandGraph)
    requires Importable(cg)
    ensures cg.entry.kind == EmptyNode && cg.exit.kind == EmptyNode &&
        forall u :: u in cg.nodes ==> u.kind == EmptyNode || u.kind == CommandNode
  {
  }

  method RunReduceNode(cg: CommandGraph) returns (ghost r: Report)
    requires Ready(cg) && cg.Fresh()
    modifies cg`walkId, cg`nodes, cg`edges, cg.nodes`walkId, cg.nodes`iteratorIndex, cg.nodes`successors,
        cg.nodes`predecessors
    ensures PassOf(r) == ReduceNodePass && Evident(r, old(cg.nodes), old(cg.edges), cg.entry, cg.exit) &&
        AllReplay(GroupsOf(r), old(cg.nodes), old(cg.edges), CopiesOf(r))
    ensures Fits(StageOf(r), old(cg.nodes), old(cg.edges), cg.entry, cg.exit) && GroupsOf(r) == []
    ensures (cg.nodes, cg.edges) == After(StageOf(r), old(cg.nodes), old(cg.edges))
    ensures Ready(cg) && cg.Fresh() && cg.walkId == Advance(old(cg.walkId), Walks(PassOf(r))) &&
        cg.nodes <= old(cg.nodes)
  {
    ghost var N, E := cg.nodes, cg.edges;
    hide Ready, Importable, Evident, AllReplay, GroupsOf, CopiesOf, Fits, After, CommandGraph.Valid, CommandGraph.Fresh,
        Visited;
    ReadyParts(cg);
    Kinds(cg);
    var vec := PassReduceNode(cg);
    r := NodesReduced(vec);
    NodesPerformed(vec, N, E, cg.entry, cg.exit);
    MarkedFresh(cg);
    StaysReady(cg, N);
    assert Advance(old(cg.walkId), 1) == NextWalkId(Advance(old(cg.walkId), 0));
  }

  method RunReduceEdge(cg: CommandGraph) returns (ghost r: Report)
    requires Ready(cg) && cg.Fresh()
    modifies cg`walkId, cg`edges, cg.nodes`walkId, cg.nodes`iteratorIndex, cg.nodes`successors, cg.nodes`predecessors
    ensures PassOf(r) == ReduceEdgePass && Evident(r, cg.nodes, old(cg.edges), cg.entry, cg.exit) &&
        AllReplay(GroupsOf(r), cg.nodes, old(cg.edges), CopiesOf(r))
    ensures Fits(StageOf(r), cg.nodes, old(cg.edges), cg.entry, cg.exit) && GroupsOf(r) == []
    ensures (cg.nodes, cg.edges) == After(StageOf(r), cg.nodes, old(cg.edges))
    ensures Ready(cg) && cg.Fresh() && cg.walkId == Advance(old(cg.walkId), Walks(PassOf(r)))
  {
    ghost var N, E := cg.nodes, cg.edges;
    hide Ready, Importable, Evident, AllReplay, GroupsOf, CopiesOf, Fits, After, CommandGraph.Valid, CommandGraph.Fresh,
        Reduction;
    ReadyParts(cg);
    Kinds(cg);
    PassReduceEdge(cg);
    r := EdgesReduced;
    EdgesPerformed(N, E, cg.entry, cg.exit);
    MarkedFresh(cg);
    StaysReady(cg, N);
    assert Advance(old(cg.walkId), 2) == NextWalkId(Advance(old(cg.walkId), 1));
    assert Advance(old(cg.walkId), 1) == NextWalkId(Advance(old(cg.walkId), 0));
  }

  lemma OneWalk(id: WalkId)
    ensures Advance(id, 1) == NextWalkId(id)
  {
    assert Advance(id, 1) == NextWalkId(Advance(id, 0));
  }

  lemma CopiesPerformed(N: set<Node>, E: set<(Node, Node)>, s: Node, t: Node)
    ensures Evident(CopiesNormalized, N, E, s, t)
    ensures AllReplay(GroupsOf(CopiesNormalized), N, E, CopiesOf(CopiesNormalized))
    ensures Fits(Rewrites, N, E, s, t) && After(Rewrites, N, E) == (N, E)
  {
    NothingReplays(N, E);
  }

  method RunCopyNormalize(cg: CommandGraph) returns (ghost r: Report)
    requires Ready(cg) && cg.Fresh()
    modifies cg`walkId, cg.nodes`walkId, cg.nodes`iteratorIndex, cg.nodes`command
    ensures r == CopiesNormalized && Evident(r, cg.nodes, cg.edges, cg.entry, cg.exit)
    ensures AllReplay(GroupsOf(r), cg.nodes, cg.edges, CopiesOf(r))
    ensures Fits(StageOf(r), cg.nodes, cg.edges, cg.entry, cg.exit)
    ensures (cg.nodes, cg.edges) == After(StageOf(r), cg.nodes, cg.edges)
    ensures Ready(cg) && cg.Fresh() && cg.walkId == Advance(old(cg.walkId), Walks(PassOf(r)))
    ensures forall u :: u in cg.nodes ==>
              u.command == if u in {cg.entry, cg.exit} then old(u.command) else NormalizedAt(u, old(u.command))
  {
    hide *;
    ReadyParts(cg);
    Kinds(cg);
    PassCopyNormalize(cg);
    r := CopiesNormalized;
    CopiesPerformed(cg.nodes, cg.edges, cg.entry, cg.exit);
    PlainReport(r, cg.nodes);
    MarkedFresh(cg);
    StaysReady(cg, cg.nodes);
    OneWalk(old(cg.walkId));
  }

  lemma PlainReport(r: Report, N: set<Node>)
    ensures r == CopiesNormalized ==> StageOf(r) == Rewrites && GroupsOf(r) == [] && Walks(PassOf(r)) == 1
    ensures r.ProgsFused? ==> StageOf(r) == Fuses(r.chains) && GroupsOf(r) == [] && Walks(PassOf(r)) == 1
    ensures r.ProgsFused? ==> PassOf(r) == ProgFusePass
  {
  }

  lemma ProgsPerformed(chains: seq<seq<Node>>, key: map<Node, Launch>, was: map<Node, Command>, fuse: seq<nat> -> nat,
                       N: set<Node>, E: set<(Node, Node)>, M: set<Node>, F: set<(Node, Node)>, s: Node, t: Node)
    requires Keyed(N, key, s) && FusedAll(chains, N, E, key, was, fuse, M, F) && Coherent(N, E, s, t)
    requires key.Keys <= N && t !in key && forall u :: u in key ==> u.kind == CommandNode
    ensures var r := ProgsFused(chains, key, was, fuse);
            && Evident(r, N, E, s, t) && AllReplay(GroupsOf(r), N, E, CopiesOf(r))
            && Fits(Fuses(chains), N, E, s, t) && (M, F) == After(Fuses(chains), N, E)
  {
    hide Coherent, Programs, SameOrderOn, InTurn;
    NothingReplays(N, E);
    forall c: seq<Node> | c in chains ensures c != [] && s !in c && t !in c && c[0].kind == CommandNode {
      FuseChainIsChain(E, key, c);
      assert c[0] in c;
    }
  }

  lemma ExitIsNoProgram(cg: CommandGraph)
    requires cg.exit.kind == EmptyNode
    ensures ExitLeftAlone(cg) && cg.exit !in KeysOf(cg.nodes, cg.entry) && KeysOf(cg.nodes, cg.entry).Keys <= cg.nodes
    ensures forall u :: u in KeysOf(cg.nodes, cg.entry) ==> u.kind == CommandNode
  {
  }

  method RunProgFuse(cg: CommandGraph, fuse: seq<nat> -> nat) returns (ghost r: Report)
    requires Ready(cg) && cg.Fresh()
    modifies cg`walkId, cg`nodes, cg`edges
    modifies cg.nodes`walkId, cg.nodes`iteratorIndex, cg.nodes`successors, cg.nodes`predecessors, cg.nodes`command
    ensures r.ProgsFused? && r.was == old(CommandsHeld(cg.nodes)) && r.fuse == fuse
    ensures Evident(r, old(cg.nodes), old(cg.edges), cg.entry, cg.exit)
    ensures AllReplay(GroupsOf(r), old(cg.nodes), old(cg.edges), CopiesOf(r))
    ensures Fits(StageOf(r), old(cg.nodes), old(cg.edges), cg.entry, cg.exit)
    ensures (cg.nodes, cg.edges) == After(StageOf(r), old(cg.nodes), old(cg.edges)) && cg.nodes <= old(cg.nodes)
    ensures Ready(cg) && cg.Fresh() && cg.walkId == Advance(old(cg.walkId), Walks(PassOf(r)))
  {
    hide *;
    ghost var N, E, s, t := cg.nodes, cg.edges, cg.entry, cg.exit;
    ReadyParts(cg);
    Kinds(cg);
    ValidParts(cg);
    ExitIsNoProgram(cg);
    ghost var key, was := KeysOf(N, s), CommandsHeld(N);
    ghost var chains := PassProgFuse(cg, fuse);
    r := ProgsFused(chains, key, was, fuse);
    ProgsPerformed(chains, key, was, fuse, N, E, cg.nodes, cg.edges, s, t);
    PlainReport(r, N);
    MarkedFresh(cg);
    StaysReady(cg, N);
    OneWalk(old(cg.walkId));
  }

  lemma SequencePerformed(cands: set<Node>, found: seq<seq<Node>>, steps: seq<Step>, N: set<Node>,
                          E: set<(Node, Node)>, s: Node, t: Node)
    requires cands == Candidates(N, s, t)
    requires ChainsTaken(cands, found, steps, E) && StepsValid(steps, N, E) && Coherent(N, E, s, t)
    requires forall x :: x in steps ==> SequenceBatch(x.batch, x.chain)
    ensures var r := Sequenced(cands, found, steps);
            Evident(r, N, E, s, t) && AllReplay(GroupsOf(r), N, E, CopiesOf(r)) && Fits(StageOf(r), N, E, s, t) &&
                After(StageOf(r), N, E) == Collapse(steps, N, E)
  {
    hide ChainsTaken, StepsValid, SequenceBatch, Coherent, AllReplay, Acyclic, Collapse;
    CoherentParts(N, E, s, t);
    CoherentEnds(N, E, s, t);
    SequenceFits(cands, found, steps, N, E, s, t);
    SequencesReplay(steps, N, E);
  }

  /** The batches of a report are nodes over graphs in `K`, themselves in `W` with their members and copies. */
  ghost predicate Inventory(r: Report, N: set<Node>, W: set<Node>, K: set<CommandGraph>, L: set<Grouping>)
    reads W`command
  {
    && N <= W && (r.Batched? ==> r.scratch in L)
    && (forall j: nat :: j < |GroupsOf(r)| ==>
          GroupsOf(r)[j].batch in W && GroupsOf(r)[j].members <= W
          && (GroupsOf(r)[j].batch.command.Batch? ==> GroupsOf(r)[j].batch.command.graph in K))
    && forall j: nat :: j < |CopiesOf(r)| ==> CopiesOf(r)[j].Values <= W
  }

  lemma SequenceInventory(cands: set<Node>, found: seq<seq<Node>>, steps: seq<Step>, N: set<Node>,
                          E: set<(Node, Node)>, N': set<Node>, W: set<Node>, K: set<CommandGraph>, L: set<Grouping>)
    returns (W': set<Node>, K': set<CommandGraph>)
    requires StepsValid(steps, N, E)
    ensures W <= W' && K <= K' && Inventory(Sequenced(cands, found, steps), N, W', K', L)
    ensures forall g :: g in K' ==>
        g in K || exists x :: x in steps && x.batch.command.Batch? && x.batch.command.graph == g
  {
    W' := W + N + (set x | x in steps :: x.batch) + set x, u | x in steps && u in x.chain :: u;
    K' := K + set x | x in steps && x.batch.command.Batch? :: x.batch.command.graph;
    var groups := AsContractions(steps);
    forall j: nat | j < |groups|
      ensures groups[j].batch in W' && groups[j].members <= W' &&
          (groups[j].batch.command.Batch? ==> groups[j].batch.command.graph in K')
    {
      assert steps[j] in steps;
    }
  }

  lemma {:induction false} CollapsedFrom(steps: seq<Step>, N: set<Node>, E: set<(Node, Node)>)
    requires StepsValid(steps, N, E)
    ensures forall u :: u in Collapse(steps, N, E).0 ==> u in N || exists x :: x in steps && x.batch == u
  {
    if steps != [] {
      var k := |steps| - 1;
      CollapsedFrom(steps[..k], N, E);
      assert steps[k] in steps && forall x :: x in steps[..k] ==> x in steps;
    }
  }

  lemma SequenceKinds(steps: seq<Step>)
    requires forall x :: x in steps ==> SequenceBatch(x.batch, x.chain)
    ensures forall x :: x in steps ==> x.batch.kind == CommandNode
  {
  }

  lemma SequenceReport(cands: set<Node>, found: seq<seq<Node>>, steps: seq<Step>, id: WalkId)
    ensures PassOf(Sequenced(cands, found, steps)) == SequencePass
    ensures Advance(id, Walks(PassOf(Sequenced(cands, found, steps)))) == NextWalkId(id)
  {
    assert Advance(id, 1) == NextWalkId(Advance(id, 0));
  }

  method RunSequence(cg: CommandGraph, ghost W: set<Node>, ghost K: set<CommandGraph>, ghost L: set<Grouping>)
    returns (ghost r: Report, ghost W': set<Node>, ghost K': set<CommandGraph>)
    requires Ready(cg) && cg.Fresh() && cg !in K
    modifies cg`walkId, cg`nodes, cg`edges, cg.nodes`walkId, cg.nodes`iteratorIndex, cg.nodes`successors,
        cg.nodes`predecessors
    ensures PassOf(r) == SequencePass && Evident(r, old(cg.nodes), old(cg.edges), cg.entry, cg.exit) &&
        AllReplay(GroupsOf(r), old(cg.nodes), old(cg.edges), CopiesOf(r))
    ensures Fits(StageOf(r), old(cg.nodes), old(cg.edges), cg.entry, cg.exit)
    ensures (cg.nodes, cg.edges) == After(StageOf(r), old(cg.nodes), old(cg.edges))
    ensures Ready(cg) && cg.walkId == Advance(old(cg.walkId), Walks(PassOf(r)))
    ensures NextWalkId(cg.walkId) != 0 ==> cg.Fresh()
    ensures W <= W' && K <= K' && Inventory(r, old(cg.nodes), W', K', L) && cg !in K'
    ensures forall u :: u in cg.nodes ==> u in old(cg.nodes) || fresh(u)
  {
    hide *;
    ghost var N, E, s, t := cg.nodes, cg.edges, cg.entry, cg.exit;
    ReadyParts(cg);
    Kinds(cg);
    ValidParts(cg);
    CandidatesAre(cg);
    ghost var c := Candidates(N, s, t);
    ghost var cands, found, steps := PassSequence(cg);
    assert cands == c;
    TakenChains(cands, found, steps, E);
    r := Sequenced(cands, found, steps);
    W', K' := SequenceInventory(cands, found, steps, N, E, cg.nodes, W, K, L);
    SequencePerformed(cands, found, steps, N, E, s, t);
    CollapsedFrom(steps, N, E);
    SequenceKinds(steps);
    SequenceReport(cands, found, steps, old(cg.walkId));
    StaysReady(cg, N);
  }

  lemma TakenChains(cands: set<Node>, found: seq<seq<Node>>, steps: seq<Step>, E: set<(Node, Node)>)
    requires forall c :: c in found ==> MaximalChain(E, cands, c)
    requires forall a, b :: 0 <= a < b < |found| ==> Elems(found[a]) !! Elems(found[b])
    requires forall u, v :: u in cands && v in cands && IsLink(E, cands, u, v) ==>
        exists c :: c in found && u in c && v in c
    requires ChainsOf(steps) == Worthwhile(found)
    ensures ChainsTaken(cands, found, steps, E)
  {
  }

  lemma BatchPerformed(vec: seq<Node>, groups: seq<Contraction<Node>>, copies: seq<map<Node, Node>>, scratch: Grouping,
                       reps: seq<nat>, N: set<Node>, E: set<(Node, Node)>, s: Node, t: Node, id: WalkId)
    requires Elems(vec) == N && Grouped(groups, vec, E, s, t, scratch, reps) && AllReplay(groups, N, E, copies)
    ensures var r := Batched(vec, groups, copies, scratch, reps);
            && PassOf(r) == BatchPass && StageOf(r) == Batches(groups) && Evident(r, N, E, s, t)
            && AllReplay(GroupsOf(r), N, E, CopiesOf(r))
            && Advance(id, Walks(PassOf(r))) == NextWalkId(id)
  {
    hide Grouped, AllReplay;
    assert Advance(id, 1) == NextWalkId(Advance(id, 0));
  }

  /** Sets holding the nodes and the sub-graphs of some groups. */
  lemma GroupsStored(groups: seq<Contraction<Node>>) returns (W: set<Node>, K: set<CommandGraph>)
    ensures forall j: nat :: j < |groups| ==>
        groups[j].batch in W && groups[j].members <= W
        && (groups[j].batch.command.Batch? ==> groups[j].batch.command.graph in K)
  {
    W := (set g | g in groups :: g.batch) + set g, u | g in groups && u in g.members :: u;
    K := set g | g in groups && g.batch.command.Batch? :: g.batch.command.graph;
    forall j: nat | j < |groups|
      ensures groups[j].batch in W && groups[j].members <= W &&
          (groups[j].batch.command.Batch? ==> groups[j].batch.command.graph in K)
    {
      assert groups[j] in groups;
    }
  }

  lemma ValuesStored(copies: seq<map<Node, Node>>) returns (W: set<Node>)
    ensures forall j: nat :: j < |copies| ==> copies[j].Values <= W
  {
    W := set c, u | c in copies && u in c.Values :: u;
    forall j: nat | j < |copies| ensures copies[j].Values <= W {
      assert copies[j] in copies;
    }
  }

  lemma BatchInventory(vec: seq<Node>, groups: seq<Contraction<Node>>, copies: seq<map<Node, Node>>, scratch: Grouping,
                       reps: seq<nat>, N: set<Node>, W: set<Node>, K: set<CommandGraph>, L: set<Grouping>)
    returns (W': set<Node>, K': set<CommandGraph>, L': set<Grouping>)
    ensures W <= W' && K <= K' && L <= L' && Inventory(Batched(vec, groups, copies, scratch, reps), N, W', K', L')
  {
    var held, graphs := GroupsStored(groups);
    var values := ValuesStored(copies);
    W', K', L' := W + N + held + values, K + graphs, L + {scratch};
  }

  method RunBatch(cg: CommandGraph, ghost W: set<Node>, ghost K: set<CommandGraph>, ghost L: set<Grouping>)
    returns (ghost r: Report, ghost W': set<Node>, ghost K': set<CommandGraph>, ghost L': set<Grouping>)
    requires Ready(cg) && cg.Fresh()
    modifies cg`walkId, cg`entry, cg`exit, cg`nodes, cg`edges, cg.nodes
    ensures cg.entry == old(cg.entry) && cg.exit == old(cg.exit)
    ensures PassOf(r) == BatchPass && Evident(r, old(cg.nodes), old(cg.edges), cg.entry, cg.exit) &&
        AllReplay(GroupsOf(r), old(cg.nodes), old(cg.edges), CopiesOf(r))
    ensures Fits(StageOf(r), old(cg.nodes), old(cg.edges), cg.entry, cg.exit)
    ensures (cg.nodes, cg.edges) == After(StageOf(r), old(cg.nodes), old(cg.edges))
    ensures Coherent(cg.nodes, cg.edges, cg.entry, cg.exit) && Listed(cg.nodes, cg.edges)
    ensures cg.walkId == Advance(old(cg.walkId), Walks(PassOf(r)))
    ensures W <= W' && K <= K' && L <= L' && Inventory(r, old(cg.nodes), W', K', L')
    ensures forall u :: u in old(cg.nodes) ==> u.command == old(u.command)
  {
    hide *;
    ghost var N, E := cg.nodes, cg.edges;
    ReadyParts(cg);
    var vec, scratch;
    ghost var groups, copies, reps;
    vec, groups, copies, scratch, reps := BatchOnMlir(cg);
    r := Batched(vec, groups, copies, scratch, reps);
    W', K', L' := BatchInventory(vec, groups, copies, scratch, reps, N, W, K, L);
    BatchPerformed(vec, groups, copies, scratch, reps, N, E, cg.entry, cg.exit, old(cg.walkId));
  }

  // ------------------------------------------------------------ a whole run

  ghost function StagesOf(reports: seq<Report>): (stages: seq<Stage>)
    ensures |stages| == |reports| && forall k: nat :: k < |reports| ==> stages[k] == StageOf(reports[k])
  {
    seq(|reports|, k requires 0 <= k < |reports| => StageOf(reports[k]))
  }

  ghost function PassesOf(reports: seq<Report>): (run: seq<Pass>)
    ensures |run| == |reports| && forall k: nat :: k < |reports| ==> run[k] == PassOf(reports[k])
  {
    seq(|reports|, k requires 0 <= k < |reports| => PassOf(reports[k]))
  }

  lemma ReportsSnoc(reports: seq<Report>, r: Report)
    ensures StagesOf(reports + [r]) == StagesOf(reports) + [StageOf(r)] &&
        PassesOf(reports + [r]) == PassesOf(reports) + [PassOf(r)]
    ensures forall k: nat :: k <= |reports| ==> StagesOf(reports + [r])[..k] == StagesOf(reports)[..k]
  {
  }

  /** The report `r` is what its pass does to a graph of nodes `N` and edges `E` from `s` to `t`. */
  ghost predicate Reported(r: Report, N: set<Node>, E: set<(Node, Node)>, s: Node, t: Node, W: set<Node>,
                           K: set<CommandGraph>, L: set<Grouping>)
    reads W`command, K, L
  {
    Inventory(r, N, W, K, L) && Evident(r, N, E, s, t) && AllReplay(GroupsOf(r), N, E, CopiesOf(r))
  }

  /** Every pass did what it promises, to the graph the passes before it left. */
  ghost predicate History(reports: seq<Report>, N: set<Node>, E: set<(Node, Node)>, s: Node, t: Node, W: set<Node>,
                          K: set<CommandGraph>, L: set<Grouping>)
    reads W`command, K, L
  {
    && AllFit(StagesOf(reports), N, E, s, t)
    && forall k: nat :: k < |reports| ==>
         var g := AfterAll(StagesOf(reports)[..k], N, E);
         Reported(reports[k], g.0, g.1, s, t, W, K, L)
  }

  lemma Wider(reports: seq<Report>, N: set<Node>, E: set<(Node, Node)>, s: Node, t: Node, W: set<Node>,
              K: set<CommandGraph>, L: set<Grouping>, W': set<Node>, K': set<CommandGraph>, L': set<Grouping>)
    requires History(reports, N, E, s, t, W, K, L) && W <= W' && K <= K' && L <= L'
    ensures History(reports, N, E, s, t, W', K', L')
  {
    hide Evident, AllReplay, AllFit, AfterAll;
    forall k: nat | k < |reports|
      ensures var g := AfterAll(StagesOf(reports)[..k], N, E); Reported(reports[k], g.0, g.1, s, t, W', K', L')
    {
      var g := AfterAll(StagesOf(reports)[..k], N, E);
      assert Reported(reports[k], g.0, g.1, s, t, W, K, L);
    }
  }

  lemma HistorySnoc(reports: seq<Report>, r: Report, N: set<Node>, E: set<(Node, Node)>, s: Node, t: Node,
                    W: set<Node>, K: set<CommandGraph>, L: set<Grouping>)
    requires History(reports, N, E, s, t, W, K, L)
    requires var g := AfterAll(StagesOf(reports), N, E);
             Fits(StageOf(r), g.0, g.1, s, t) && Reported(r, g.0, g.1, s, t, W, K, L)
    ensures History(reports + [r], N, E, s, t, W, K, L)
    ensures var g := AfterAll(StagesOf(reports), N, E); AfterAll(StagesOf(reports + [r]), N, E) == After(StageOf(r),
        g.0, g.1)
  {
    ReportsSnoc(reports, r);
    StagesSnoc(StagesOf(reports), StageOf(r), N, E, s, t);
    assert StagesOf(reports)[..|reports|] == StagesOf(reports);
    hide Reported, Fits, After, AfterAll, AllFit;
    forall k: nat | k < |reports + [r]|
      ensures var g := AfterAll(StagesOf(reports + [r])[..k], N, E); Reported((reports + [r])[k], g.0, g.1, s, t, W, K,
          L)
    {
      assert StagesOf(reports + [r])[..k] == StagesOf(reports)[..k];
    }
  }

  lemma StagesSnoc(stages: seq<Stage>, stage: Stage, N: set<Node>, E: set<(Node, Node)>, s: Node, t: Node)
    ensures var r := AfterAll(stages, N, E);
            && AfterAll(stages + [stage], N, E) == After(stage, r.0, r.1)
            && (AllFit(stages + [stage], N, E, s, t) <==> AllFit(stages, N, E, s, t) && Fits(stage, r.0, r.1, s, t))
  {
    assert (stages + [stage])[..|stages|] == stages;
  }

  lemma ReportedPlain(r: Report, N: set<Node>, E: set<(Node, Node)>, s: Node, t: Node, W: set<Node>,
                      K: set<CommandGraph>, L: set<Grouping>)
    requires Evident(r, N, E, s, t) && AllReplay(GroupsOf(r), N, E, CopiesOf(r)) && !r.Sequenced? && !r.Batched?
    ensures Reported(r, N, E, s, t, W + N, K, L)
  {
  }

  lemma IsReported(r: Report, N: set<Node>, E: set<(Node, Node)>, s: Node, t: Node, W: set<Node>, K: set<CommandGraph>,
                   L: set<Grouping>)
    requires Evident(r, N, E, s, t) && AllReplay(GroupsOf(r), N, E, CopiesOf(r)) && Inventory(r, N, W, K, L)
    ensures Reported(r, N, E, s, t, W, K, L)
  {
  }

  lemma ReadyShape(cg: CommandGraph)
    requires Ready(cg)
    ensures Coherent(cg.nodes, cg.edges, cg.entry, cg.exit) && Listed(cg.nodes, cg.edges)
  {
    LinkedListed(cg.nodes, cg.edges);
  }

  lemma Kinded(r: Report)
    ensures PassOf(r) == CopyNormalizePass <==> r.CopiesNormalized?
    ensures PassOf(r) == ReduceNodePass <==> r.NodesReduced?
    ensures PassOf(r) == ReduceEdgePass <==> r.EdgesReduced?
    ensures PassOf(r) == ProgFusePass <==> r.ProgsFused?
    ensures PassOf(r) == SequencePass <==> r.Sequenced?
  {
  }

  predicate Rewriting(pass: Pass) {
    pass == CopyNormalizePass || pass == ProgFusePass
  }

  /** One pass of the set.  After the sequence pass the next walk is sound if its mark is not 0, the one new
      nodes carry; the batch pass comes last. */
  method RunPass(cg: CommandGraph, pass: Pass, fuse: seq<nat> -> nat, ghost W: set<Node>, ghost K: set<CommandGraph>,
                 ghost L: set<Grouping>)
    returns (ghost r: Report, ghost W': set<Node>, ghost K': set<CommandGraph>, ghost L': set<Grouping>)
    requires Ready(cg) && cg.Fresh() && cg !in K
    modifies cg`walkId, cg`entry, cg`exit, cg`nodes, cg`edges, cg.nodes
    ensures PassOf(r) == pass && cg.entry == old(cg.entry) && cg.exit == old(cg.exit)
    ensures W <= W' && K <= K' && L <= L' && Reported(r, old(cg.nodes), old(cg.edges), cg.entry, cg.exit, W', K', L')
    ensures Fits(StageOf(r), old(cg.nodes), old(cg.edges), cg.entry, cg.exit)
    ensures (cg.nodes, cg.edges) == After(StageOf(r), old(cg.nodes), old(cg.edges))
    ensures Coherent(cg.nodes, cg.edges, cg.entry, cg.exit) && Listed(cg.nodes, cg.edges)
    ensures cg.walkId == Advance(old(cg.walkId), Walks(pass))
    ensures pass != BatchPass ==> Ready(cg) && cg !in K' && forall u :: u in cg.nodes ==> u in old(cg.nodes) || fresh(u)
    ensures pass != SequencePass && pass != BatchPass ==> cg.Fresh() && cg.nodes <= old(cg.nodes)
    ensures pass == SequencePass && NextWalkId(cg.walkId) != 0 ==> cg.Fresh()
    ensures !Rewriting(pass) ==> forall u :: u in old(cg.nodes) ==> u.command == old(u.command)
    ensures pass == CopyNormalizePass ==>
              cg.nodes == old(cg.nodes) && forall u :: u in old(cg.nodes) ==>
                u.command == if u in {cg.entry, cg.exit} then old(u.command) else NormalizedAt(u, old(u.command))
    ensures pass == ProgFusePass ==> r.ProgsFused? && r.was == old(CommandsHeld(cg.nodes)) && r.fuse == fuse
  {
    hide *;
    ghost var N, E := cg.nodes, cg.edges;
    W', K', L' := W + N, K, L;
    match pass {
      case CopyNormalizePass =>
        r := RunCopyNormalize(cg);
        PlainPass(r);
        ReportedPlain(r, N, E, cg.entry, cg.exit, W, K, L);
        ReadyShape(cg);
      case ReduceNodePass =>
        r := RunReduceNode(cg);
        Kinded(r);
        ReportedPlain(r, N, E, cg.entry, cg.exit, W, K, L);
        ReadyShape(cg);
      case ReduceEdgePass =>
        r := RunReduceEdge(cg);
        Kinded(r);
        ReportedPlain(r, N, E, cg.entry, cg.exit, W, K, L);
        ReadyShape(cg);
      case ProgFusePass =>
        r := RunProgFuse(cg, fuse);
        Kinded(r);
        ReportedPlain(r, N, E, cg.entry, cg.exit, W, K, L);
        ReadyShape(cg);
      case SequencePass =>
        r, W', K' := RunSequence(cg, W, K, L);
        IsReported(r, N, E, cg.entry, cg.exit, W', K', L);
        ReadyShape(cg);
      case BatchPass =>
        r, W', K', L' := RunBatch(cg, W, K, L);
        IsReported(r, N, E, cg.entry, cg.exit, W', K', L');
    }
    RewritingIs(pass);
  }

  lemma PlainPass(r: Report)
    ensures r == CopiesNormalized ==> PassOf(r) == CopyNormalizePass && !r.Sequenced? && !r.Batched?
  {
  }

  lemma RewritingIs(pass: Pass)
    ensures Rewriting(pass) <==> pass == CopyNormalizePass || pass == ProgFusePass
  {
  }

  // ------------------------------------------------------------ what the commands become

  /** The nodes that hold a program fused in the run. */
  ghost function FusedHeads(reports: seq<Report>): set<Node> {
    set k, u | 0 <= k < |reports| && reports[k].ProgsFused? && u in Heads(reports[k].chains) :: u
  }

  /** Every node but those holds what `base` says, and that is what was fused. */
  ghost predicate CommandsTold(reports: seq<Report>, N: set<Node>, base: map<Node, Command>, fuse: seq<nat> -> nat)
    reads N`command
  {
    && (forall u :: u in N && u !in FusedHeads(reports) ==> u in base && u.command == base[u])
    && forall k: nat, u :: k < |reports| && reports[k].ProgsFused? && u in reports[k].was ==>
         u in base && reports[k].was[u] == base[u] && reports[k].fuse == fuse
  }

  /** The inner commands normalised. */
  ghost function AllNormalized(was: map<Node, Command>, s: Node, t: Node): map<Node, Command> {
    map u | u in was :: if u in {s, t} then was[u] else NormalizedAt(u, was[u])
  }

  /** What the nodes hold before programs are fused. */
  ghost function BaseOf(passes: set<Pass>, was: map<Node, Command>, s: Node, t: Node): map<Node, Command> {
    if CopyNormalizePass in passes then AllNormalized(was, s, t) else was
  }

  /** Nothing so far depends on what the nodes hold. */
  ghost predicate AllPlain(reports: seq<Report>) {
    forall k: nat :: k < |reports| ==>
      reports[k].CopiesNormalized? || reports[k].NodesReduced? || reports[k].EdgesReduced?
  }

  ghost predicate PlainHistory(reports: seq<Report>, N: set<Node>, E: set<(Node, Node)>, s: Node, t: Node, W: set<Node>)
  {
    && AllFit(StagesOf(reports), N, E, s, t) && AllPlain(reports)
    && forall k: nat :: k < |reports| ==>
         var g := AfterAll(StagesOf(reports)[..k], N, E);
         g.0 <= W && (reports[k].NodesReduced? ==> NoDup(reports[k].vec) && Elems(reports[k].vec) == g.0 - {s, t})
  }

  lemma PlainReported(r: Report, N: set<Node>, E: set<(Node, Node)>, s: Node, t: Node, W: set<Node>,
                      K: set<CommandGraph>, L: set<Grouping>)
    requires r.CopiesNormalized? || r.NodesReduced? || r.EdgesReduced?
    ensures Reported(r, N, E, s, t, W, K, L) <==>
            (N <= W && (r.NodesReduced? ==> NoDup(r.vec) && Elems(r.vec) == N - {s, t}))
  {
    NothingReplays(N, E);
  }

  lemma PlainIs(reports: seq<Report>, N: set<Node>, E: set<(Node, Node)>, s: Node, t: Node, W: set<Node>,
                K: set<CommandGraph>, L: set<Grouping>)
    requires AllPlain(reports)
    ensures History(reports, N, E, s, t, W, K, L) <==> PlainHistory(reports, N, E, s, t, W)
  {
    hide Reported, AllFit, AfterAll, NoDup, Elems;
    forall k: nat | k < |reports|
      ensures var g := AfterAll(StagesOf(reports)[..k], N, E);
              Reported(reports[k], g.0, g.1, s, t, W, K, L) <==>
              (g.0 <= W && (reports[k].NodesReduced? ==>
                            NoDup(reports[k].vec) && Elems(reports[k].vec) == g.0 - {s, t}))
    {
      var g := AfterAll(StagesOf(reports)[..k], N, E);
      PlainReported(reports[k], g.0, g.1, s, t, W, K, L);
    }
  }

  /** One more pass of a run. */
  method RunNext(cg: CommandGraph, pass: Pass, fuse: seq<nat> -> nat, ghost reports: seq<Report>, ghost N: set<Node>,
                 ghost E: set<(Node, Node)>, ghost W: set<Node>, ghost K: set<CommandGraph>, ghost L: set<Grouping>)
    returns (ghost r: Report, ghost W': set<Node>, ghost K': set<CommandGraph>, ghost L': set<Grouping>)
    requires Ready(cg) && cg.Fresh() && cg !in K && N <= W
    requires History(reports, N, E, cg.entry, cg.exit, W, K, L) &&
        (cg.nodes, cg.edges) == AfterAll(StagesOf(reports), N, E)
    requires Rewriting(pass) ==> AllPlain(reports)
    modifies cg`walkId, cg`entry, cg`exit, cg`nodes, cg`edges, cg.nodes
    ensures PassOf(r) == pass && cg.entry == old(cg.entry) && cg.exit == old(cg.exit) && W <= W'
    ensures History(reports + [r], N, E, cg.entry, cg.exit, W', K', L')
    ensures (cg.nodes, cg.edges) == AfterAll(StagesOf(reports + [r]), N, E)
    ensures Coherent(cg.nodes, cg.edges, cg.entry, cg.exit) && Listed(cg.nodes, cg.edges)
    ensures cg.walkId == Advance(old(cg.walkId), Walks(pass))
    ensures pass != BatchPass ==> Ready(cg) && cg !in K' && forall u :: u in cg.nodes ==> u in old(cg.nodes) || fresh(u)
    ensures pass != SequencePass && pass != BatchPass ==> cg.Fresh() && cg.nodes <= old(cg.nodes)
    ensures pass == SequencePass && NextWalkId(cg.walkId) != 0 ==> cg.Fresh()
    ensures !Rewriting(pass) ==> forall u :: u in W ==> u.command == old(u.command)
    ensures pass == CopyNormalizePass ==> forall u :: u in old(cg.nodes) ==>
              u.command == if u in {cg.entry, cg.exit} then old(u.command) else NormalizedAt(u, old(u.command))
    ensures pass == ProgFusePass ==> r.ProgsFused? && r.was == old(CommandsHeld(cg.nodes)) && r.fuse == fuse
    ensures Reported(r, old(cg.nodes), old(cg.edges), cg.entry, cg.exit, W', K', L')
  {
    hide *;
    ghost var N1, E1, s, t := cg.nodes, cg.edges, cg.entry, cg.exit;
    if Rewriting(pass) {
      PlainIs(reports, N, E, s, t, W, K, L);
    }
    r, W', K', L' := RunPass(cg, pass, fuse, W, K, L);
    if Rewriting(pass) {
      PlainIs(reports, N, E, s, t, W, K, L);
    }
    Wider(reports, N, E, s, t, W, K, L, W', K', L');
    HistorySnoc(reports, r, N, E, s, t, W', K', L');
  }

  lemma ToldMore(reports: seq<Report>, r: Report, N: set<Node>, base: map<Node, Command>, fuse: seq<nat> -> nat)
    requires CommandsTold(reports, N, base, fuse) && !r.ProgsFused?
    ensures CommandsTold(reports + [r], N, base, fuse)
  {
    forall u ensures u in FusedHeads(reports + [r]) <==> u in FusedHeads(reports) {
      if k :| 0 <= k < |reports| && reports[k].ProgsFused? && u in Heads(reports[k].chains) {
        assert (reports + [r])[k] == reports[k];
      }
    }
  }

  lemma PlainHeads(reports: seq<Report>)
    requires AllPlain(reports)
    ensures FusedHeads(reports) == {}
  {
  }

  lemma ToldParts(reports: seq<Report>, N: set<Node>, base: map<Node, Command>, fuse: seq<nat> -> nat)
    requires CommandsTold(reports, N, base, fuse)
    ensures AllPlain(reports) ==> forall u :: u in N ==> u in base && u.command == base[u]
  {
    if AllPlain(reports) { PlainHeads(reports); }
  }

  lemma ToldNormalized(r: Report, N: set<Node>, base: map<Node, Command>, s: Node, t: Node, fuse: seq<nat> -> nat)
    requires PassOf(r) == CopyNormalizePass
    requires forall u :: u in N ==> u in base && u.command == if u in {s, t} then base[u] else NormalizedAt(u, base[u])
    ensures CommandsTold([r], N, AllNormalized(base, s, t), fuse)
  {
  }

  lemma ToldFused(reports: seq<Report>, r: Report, N: set<Node>, M: set<Node>, base: map<Node, Command>,
                  fuse: seq<nat> -> nat)
    requires AllPlain(reports) && r.ProgsFused? && r.fuse == fuse && M <= N && r.was.Keys == M
    requires Programs(CommandsHeld(M), r.was, r.chains, r.fuse)
    requires forall u :: u in N ==> u in base && if u in M then r.was[u] == base[u] else u.command == base[u]
    ensures CommandsTold(reports + [r], N, base, fuse)
  {
    PlainHeads(reports);
    assert FusedHeads(reports + [r]) == Heads(r.chains) by {
      assert (reports + [r])[|reports|] == r;
    }
    forall u | u in N && u !in FusedHeads(reports + [r]) ensures u in base && u.command == base[u] {
      assert u in M ==> u in CommandsHeld(M) && CommandsHeld(M)[u] == u.command;
    }
  }

  lemma ReportedPrograms(r: Report, N: set<Node>, E: set<(Node, Node)>, s: Node, t: Node, W: set<Node>,
                         K: set<CommandGraph>, L: set<Grouping>)
    requires Reported(r, N, E, s, t, W, K, L) && r.ProgsFused?
    ensures Programs(CommandsHeld(N), r.was, r.chains, r.fuse)
  {
    hide Programs;
  }

  lemma NotFused(r: Report)
    ensures PassOf(r) != ProgFusePass ==> !r.ProgsFused?
  {
  }

  /** ... told what the commands become. */
  method RunTold(cg: CommandGraph, pass: Pass, fuse: seq<nat> -> nat, ghost reports: seq<Report>, ghost N: set<Node>,
                 ghost E: set<(Node, Node)>, ghost W: set<Node>, ghost K: set<CommandGraph>, ghost L: set<Grouping>,
                 ghost base: map<Node, Command>)
    returns (ghost r: Report, ghost W': set<Node>, ghost K': set<CommandGraph>, ghost L': set<Grouping>)
    requires Ready(cg) && cg.Fresh() && cg !in K && N <= W
    requires History(reports, N, E, cg.entry, cg.exit, W, K, L) &&
        (cg.nodes, cg.edges) == AfterAll(StagesOf(reports), N, E)
    requires Rewriting(pass) ==> AllPlain(reports) && cg.nodes <= N
    requires pass == CopyNormalizePass ==> reports == [] && cg.nodes == N
    requires CommandsTold(reports, N, base, fuse)
    modifies cg`walkId, cg`entry, cg`exit, cg`nodes, cg`edges, cg.nodes
    ensures PassOf(r) == pass && cg.entry == old(cg.entry) && cg.exit == old(cg.exit) && W <= W'
    ensures History(reports + [r], N, E, cg.entry, cg.exit, W', K', L')
    ensures (cg.nodes, cg.edges) == AfterAll(StagesOf(reports + [r]), N, E)
    ensures Coherent(cg.nodes, cg.edges, cg.entry, cg.exit) && Listed(cg.nodes, cg.edges)
    ensures cg.walkId == Advance(old(cg.walkId), Walks(pass))
    ensures pass != BatchPass ==> Ready(cg) && cg !in K' && forall u :: u in cg.nodes ==> u in old(cg.nodes) || fresh(u)
    ensures pass != SequencePass && pass != BatchPass ==> cg.Fresh() && cg.nodes <= old(cg.nodes)
    ensures pass == SequencePass && NextWalkId(cg.walkId) != 0 ==> cg.Fresh()
    ensures CommandsTold(reports + [r], N,
                         if pass == CopyNormalizePass then AllNormalized(base, cg.entry, cg.exit) else base, fuse)
  {
    hide *;
    ghost var M, E1, s, t := cg.nodes, cg.edges, cg.entry, cg.exit;
    ghost var was := CommandsHeld(M);
    HeldNow(M);
    ToldParts(reports, N, base, fuse);
    RewritingIs(pass);
    r, W', K', L' := RunNext(cg, pass, fuse, reports, N, E, W, K, L);
    NotFused(r);
    if pass == CopyNormalizePass {
      assert reports + [r] == [r];
      ToldNormalized(r, N, base, s, t, fuse);
    } else if pass == ProgFusePass {
      ReportedPrograms(r, M, E1, s, t, W', K', L');
      ToldFused(reports, r, N, M, base, fuse);
    } else {
      ToldMore(reports, r, N, base, fuse);
    }
  }

  lemma HeldNow(M: set<Node>)
    ensures CommandsHeld(M).Keys == M && forall u :: u in M ==> CommandsHeld(M)[u] == u.command
  {
  }

  /** The batch pass walks a graph that may hold new nodes: the mark of its walk must not be theirs. */
  ghost predicate MarksApart(passes: set<Pass>, id: WalkId) {
    SequencePass in passes && BatchPass in passes ==> Advance(id, AllWalks(Selected(passes))) != 0
  }

  lemma SelectedMore(passes: set<Pass>, p: nat)
    requires p < |CANONICAL_ORDER|
    ensures SelectedUpTo(passes, p + 1)
         == SelectedUpTo(passes, p) + if CANONICAL_ORDER[p] in passes then [CANONICAL_ORDER[p]] else []
  {
  }

  lemma WalksMore(run: seq<Pass>, pass: Pass)
    ensures AllWalks(run + [pass]) == AllWalks(run) + Walks(pass)
  {
    assert (run + [pass])[..|run|] == run;
  }

  lemma SelectedNext(passes: set<Pass>, p: nat, id: WalkId, mark: WalkId)
    requires p < |CANONICAL_ORDER| && mark == Advance(id, AllWalks(SelectedUpTo(passes, p)))
    ensures var pass := CANONICAL_ORDER[p];
            && (pass in passes ==> SelectedUpTo(passes, p + 1) == SelectedUpTo(passes, p) + [pass]
                                   && Advance(mark, Walks(pass)) == Advance(id, AllWalks(SelectedUpTo(passes, p + 1))))
            && (pass !in passes ==> SelectedUpTo(passes, p + 1) == SelectedUpTo(passes, p))
  {
    hide SelectedUpTo, AllWalks, Advance, Walks;
    var run, pass := SelectedUpTo(passes, p), CANONICAL_ORDER[p];
    SelectedMore(passes, p);
    WalksMore(run, pass);
    AdvanceMore(id, AllWalks(run), Walks(pass));
  }

  lemma MarkOfBatch(passes: set<Pass>, id: WalkId, mark: WalkId)
    requires MarksApart(passes, id) && SequencePass in passes && BatchPass in passes
    requires mark == Advance(id, AllWalks(SelectedUpTo(passes, |CANONICAL_ORDER| - 1)))
    ensures NextWalkId(mark) != 0
  {
    SelectedNext(passes, |CANONICAL_ORDER| - 1, id, mark);
    assert Advance(mark, 1) == NextWalkId(Advance(mark, 0));
  }

  lemma BatchIsLast(p: nat)
    requires p < |CANONICAL_ORDER|
    ensures |CANONICAL_ORDER| == 6 && (CANONICAL_ORDER[p] == BatchPass <==> p == 5)
    ensures CANONICAL_ORDER[p] == SequencePass <==> p == 4
    ensures CANONICAL_ORDER[p] == ProgFusePass <==> p == 3
    ensures CANONICAL_ORDER[p] == CopyNormalizePass <==> p == 0
  {
  }

  lemma NothingYet(passes: set<Pass>, N: set<Node>, E: set<(Node, Node)>, s: Node, t: Node, id: WalkId,
                   fuse: seq<nat> -> nat)
    ensures History([], N, E, s, t, N, {}, {}) && AfterAll(StagesOf([]), N, E) == (N, E) && AllPlain([])
    ensures PassesOf([]) == SelectedUpTo(passes, 0) == [] && id == Advance(id, AllWalks(SelectedUpTo(passes, 0)))
    ensures CommandsTold([], N, CommandsHeld(N), fuse)
  {
  }

  lemma PlainSnoc(reports: seq<Report>, r: Report)
    requires AllPlain(reports)
    ensures PassOf(r) in {CopyNormalizePass, ReduceNodePass, ReduceEdgePass} ==> AllPlain(reports + [r])
  {
  }

  /** What the nodes hold before programs are fused, once the first `p` passes had their turn. */
  ghost function BaseUpTo(passes: set<Pass>, p: nat, was: map<Node, Command>, s: Node, t: Node): map<Node, Command> {
    if p == 0 then was else BaseOf(passes, was, s, t)
  }

  lemma BaseNext(passes: set<Pass>, p: nat, was: map<Node, Command>, s: Node, t: Node)
    ensures BaseUpTo(passes, p + 1, was, s, t) == BaseOf(passes, was, s, t) && BaseUpTo(passes, 0, was, s, t) == was
    ensures p == 0 && CopyNormalizePass in passes ==>
              BaseUpTo(passes, p + 1, was, s, t) == AllNormalized(BaseUpTo(passes, p, was, s, t), s, t)
    ensures p > 0 || CopyNormalizePass !in passes ==>
              BaseUpTo(passes, p + 1, was, s, t) == BaseUpTo(passes, p, was, s, t)
  {
  }

  lemma PassesSnoc(reports: seq<Report>, r: Report)
    ensures PassesOf(reports + [r]) == PassesOf(reports) + [PassOf(r)]
  {
    ReportsSnoc(reports, r);
  }

  lemma IsSelected(passes: set<Pass>)
    ensures Selected(passes) == SelectedUpTo(passes, |CANONICAL_ORDER|)
  {
  }

  lemma MakeReady(cg: CommandGraph)
    requires cg.Valid() && Importable(cg)
    ensures Ready(cg)
  {
  }

  /** Run the passes of the set, in canonical order whatever the order of the bits: exactly the chosen ones
      ran, each did what it promises to the graph the ones before it left, and the commands changed only as
      normalising copies and fusing programs change them. */
  method OptimizeGraph(cg: CommandGraph, passes: set<Pass>, fuse: seq<nat> -> nat)
    returns (ghost reports: seq<Report>, ghost W: set<Node>, ghost K: set<CommandGraph>, ghost L: set<Grouping>)
    requires cg.Valid() && Importable(cg) && cg.Fresh() && MarksApart(passes, cg.walkId)
    modifies cg`walkId, cg`entry, cg`exit, cg`nodes, cg`edges, cg.nodes
    ensures PassesOf(reports) == Selected(passes) && cg.entry == old(cg.entry) && cg.exit == old(cg.exit)
    ensures History(reports, old(cg.nodes), old(cg.edges), cg.entry, cg.exit, W, K, L)
    ensures (cg.nodes, cg.edges) == AfterAll(StagesOf(reports), old(cg.nodes), old(cg.edges))
    ensures Coherent(cg.nodes, cg.edges, cg.entry, cg.exit) && Listed(cg.nodes, cg.edges)
    ensures BatchPass !in passes ==> cg.Valid() && Importable(cg)
    ensures CommandsTold(reports, old(cg.nodes), BaseOf(passes, old(CommandsHeld(cg.nodes)), cg.entry, cg.exit), fuse)
  {
    hide *;
    MakeReady(cg);
    ReadyShape(cg);
    ghost var N, E, s, t, id, C := cg.nodes, cg.edges, cg.entry, cg.exit, cg.walkId, CommandsHeld(cg.nodes);
    reports, W, K, L := [], N, {}, {};
    NothingYet(passes, N, E, s, t, id, fuse);
    BaseNext(passes, 0, C, s, t);
    SixPasses();
    for p := 0 to |CANONICAL_ORDER|
      invariant PassesOf(reports) == SelectedUpTo(passes, p) && cg.entry == s && cg.exit == t && N <= W
      invariant History(reports, N, E, s, t, W, K, L) && (cg.nodes, cg.edges) == AfterAll(StagesOf(reports), N, E)
      invariant Coherent(cg.nodes, cg.edges, s, t) && Listed(cg.nodes, cg.edges)
      invariant cg.walkId == Advance(id, AllWalks(SelectedUpTo(passes, p)))
      invariant p < |CANONICAL_ORDER| || BatchPass !in passes ==>
          Ready(cg) && cg !in K && forall u :: u in cg.nodes ==> u in N || fresh(u)
      invariant p < 5 || (p == 5 && (SequencePass !in passes || NextWalkId(cg.walkId) != 0)) ==> cg.Fresh()
      invariant (p == 0 ==> reports == [] && cg.nodes == N) && (p <= 3 ==> AllPlain(reports) && cg.nodes <= N)
      invariant CommandsTold(reports, N, BaseUpTo(passes, p, C, s, t), fuse)
    {
      var pass := CANONICAL_ORDER[p];
      BatchIsLast(p);
      RewritingIs(pass);
      BaseNext(passes, p, C, s, t);
      SelectedNext(passes, p, id, cg.walkId);
      if pass in passes {
        if p == 5 && SequencePass in passes { MarkOfBatch(passes, id, cg.walkId); }
        ghost var r;
        r, W, K, L := RunTold(cg, pass, fuse, reports, N, E, W, K, L, BaseUpTo(passes, p, C, s, t));
        PassesSnoc(reports, r);
        if p < 3 {
          PlainPasses(p);
          PlainSnoc(reports, r);
        }
        reports := reports + [r];
      }
    }
    BaseNext(passes, 5, C, s, t);
    IsSelected(passes);
    if BatchPass !in passes { ReadyParts(cg); }
  }

  lemma SixPasses()
    ensures |CANONICAL_ORDER| == 6
  {
  }

  lemma PlainPasses(p: nat)
    requires p < 3
    ensures |CANONICAL_ORDER| > 3 && CANONICAL_ORDER[p] in {CopyNormalizePass, ReduceNodePass, ReduceEdgePass}
  {
  }

  // ------------------------------------------------------------ what the runs mean

  lemma {:induction false} FitPrefix(stages: seq<Stage>, k: nat, N: set<Node>, E: set<(Node, Node)>, s: Node, t: Node)
    requires AllFit(stages, N, E, s, t) && k <= |stages|
    ensures AllFit(stages[..k], N, E, s, t)
  {
    if k < |stages| {
      FitPrefix(stages[..|stages| - 1], k, N, E, s, t);
      assert stages[..|stages| - 1][..k] == stages[..k];
    } else {
      assert stages[..k] == stages;
    }
  }

  lemma StageExpanded(r: Report, p: Plan<Node>, s: Node, t: Node, W: set<Node>, K: set<CommandGraph>, L: set<Grouping>)
    requires Closed(p) && Coherent(p.nodes, p.edges, s, t) && Fits(StageOf(r), p.nodes, p.edges, s, t)
    requires Reported(r, p.nodes, p.edges, s, t, W, K, L) && (r.Sequenced? || r.Batched?)
    ensures PlanAfter(StageOf(r), p, s, t) == ExpandAll(GroupsOf(r), p, CopiesOf(r))
  {
    hide Evident, Inventory, AllReplay, Coherent, ContractAll, ExpandAll, Sensible;
    if r.Sequenced? {
      SequenceFitsBatches(r.steps, p.nodes, p.edges, s, t);
    }
    AllExpand(GroupsOf(r), p, CopiesOf(r));
  }

  lemma PlanNext(stages: seq<Stage>, k: nat, N: set<Node>, E: set<(Node, Node)>, s: Node, t: Node)
    requires Coherent(N, E, s, t) && AllFit(stages, N, E, s, t) && k < |stages|
    ensures AllFit(stages[..k], N, E, s, t) && AllFit(stages[..k + 1], N, E, s, t)
    ensures var p := PlanOf(stages[..k], N, E, s, t);
            && Fits(stages[k], p.nodes, p.edges, s, t) && (p.nodes, p.edges) == AfterAll(stages[..k], N, E)
            && PlanOf(stages[..k + 1], N, E, s, t) == PlanAfter(stages[k], p, s, t)
  {
    hide PlanAfter, Fits, After, Coherent;
    FitPrefix(stages, k, N, E, s, t);
    FitPrefix(stages, k + 1, N, E, s, t);
    assert stages[..k + 1][..k] == stages[..k];
  }

  lemma ReportAt(reports: seq<Report>, N: set<Node>, E: set<(Node, Node)>, s: Node, t: Node, W: set<Node>,
                 K: set<CommandGraph>, L: set<Grouping>, k: nat)
    requires History(reports, N, E, s, t, W, K, L) && k < |reports|
    ensures AllFit(StagesOf(reports), N, E, s, t) && StagesOf(reports)[k] == StageOf(reports[k])
    ensures var g := AfterAll(StagesOf(reports)[..k], N, E); Reported(reports[k], g.0, g.1, s, t, W, K, L)
  {
    hide Reported;
  }

  /** The plan of a run, pass by pass: one that makes batches expands each of them, in place, into what its
      own sub-graph holds and orders. */
  lemma BatchesAreExpanded(reports: seq<Report>, N: set<Node>, E: set<(Node, Node)>, s: Node, t: Node, W: set<Node>,
                           K: set<CommandGraph>, L: set<Grouping>, k: nat)
    requires Coherent(N, E, s, t) && History(reports, N, E, s, t, W, K, L)
    requires k < |reports| && (reports[k].Sequenced? || reports[k].Batched?)
    ensures AllFit(StagesOf(reports)[..k], N, E, s, t) && AllFit(StagesOf(reports)[..k + 1], N, E, s, t)
    ensures var p := PlanOf(StagesOf(reports)[..k], N, E, s, t);
            PlanOf(StagesOf(reports)[..k + 1], N, E, s, t) == ExpandAll(GroupsOf(reports[k]), p, CopiesOf(reports[k]))
  {
    hide *;
    ReportAt(reports, N, E, s, t, W, K, L, k);
    PlanNext(StagesOf(reports), k, N, E, s, t);
    StageExpanded(reports[k], PlanOf(StagesOf(reports)[..k], N, E, s, t), s, t, W, K, L);
  }

  /** Whatever passes were chosen: the optimised graph can be executed, and every execution of it executes the
      original graph. */
  lemma RunExecutes(reports: seq<Report>, N: set<Node>, E: set<(Node, Node)>, s: Node, t: Node, W: set<Node>,
                    K: set<CommandGraph>, L: set<Grouping>)
    returns (x: seq<Node>)
    requires Coherent(N, E, s, t) && History(reports, N, E, s, t, W, K, L)
    ensures Legal(PlanOf(StagesOf(reports), N, E, s, t), x)
    ensures forall y :: Legal(PlanOf(StagesOf(reports), N, E, s, t), y) ==> Executes(y, N, E)
  {
    x := OptimisedExecutes(StagesOf(reports), N, E, s, t);
  }
}
