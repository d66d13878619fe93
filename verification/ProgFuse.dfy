/** pass_prog_fuse: every maximal chain of LLVM-IR programs in series, launched alike, becomes one program. */
module ProgFuse {
  import opened Chains
  import opened CommandGraphs
  import opened Digraphs
  import opened Lists
  import opened Sequence
  import opened SeriesFusions
  import opened Traversals

  // ------------------------------------------------------------ contracting a series in place

  /** The predecessor lists of the nodes in `done` name `u` where they named `v`. */
  ghost predicate Renamed(nodes: set<Node>, was: map<Node, seq<Node>>, done: set<Node>, v: Node, u: Node)
    reads nodes`predecessors
  {
    forall x :: x in nodes ==> x in was && x.predecessors == if x in done then Overwrite(was[x], v, u) else was[x]
  }

  method RenameOne(x: Node, v: Node, u: Node, ghost nodes: set<Node>, ghost was: map<Node, seq<Node>>,
                   ghost done: set<Node>)
    requires x in nodes && x !in done && Renamed(nodes, was, done, v, u)
    modifies x`predecessors
    ensures Renamed(nodes, was, done + {x}, v, u)
  {
    hide Overwrite;
    x.predecessors := Overwrite(x.predecessors, v, u);
  }

  lemma SeriesLists(nodes: set<Node>, E: set<(Node, Node)>, u: Node, v: Node)
    requires Linked(nodes, E) && u in nodes && v in nodes
    ensures u.successors == [v] && v.predecessors == [u] <==> Series(E, u, v)
  {
    NodeLists(nodes, E, u);
    NodeLists(nodes, E, v);
  }

  lemma SeriesChain(E: set<(Node, Node)>, u: Node, v: Node)
    requires Acyclic(E) && Series(E, u, v)
    ensures IsChain(E, [u, v]) && Tail([u, v]) == {v}
  {
    SeriesEdge(E, u, v);
    NoSelfLoop(E, u);
    assert [u, v][1..] == [v];
  }

  /** The lists after `v` was absorbed into `u`. */
  ghost predicate AbsorbedLists(nodes: set<Node>, succs: map<Node, seq<Node>>, preds: map<Node, seq<Node>>, u: Node,
                                v: Node)
    reads nodes`successors, nodes`predecessors
  {
    && succs.Keys == preds.Keys == nodes && u in nodes && v in nodes
    && (forall x :: x in nodes && x != v ==> x.successors == if x == u then succs[v] else succs[x])
    && (forall x :: x in nodes ==> x.predecessors == if x in succs[v] then Overwrite(preds[x], v, u) else preds[x])
  }

  lemma AbsorbedLinked(nodes: set<Node>, E: set<(Node, Node)>, succs: map<Node, seq<Node>>,
                       preds: map<Node, seq<Node>>, u: Node, v: Node)
    requires Acyclic(E) && Series(E, u, v) && AbsorbedLists(nodes, succs, preds, u, v) &&
        forall e :: e in E ==> e.0 in nodes && e.1 in nodes
    requires forall x :: x in nodes ==> NoDup(succs[x]) && Elems(succs[x]) == Targets(E, x)
    requires forall x :: x in nodes ==> NoDup(preds[x]) && Elems(preds[x]) == Sources(E, x)
    ensures Linked(nodes - {v}, Shortened(E, [u, v]))
  {
    SeriesChain(E, u, v);
    var c := [u, v];
    hide Shortened, IsChain, Acyclic, NoDup, Overwrite;
    forall e | e in Shortened(E, c) ensures e.0 in nodes - {v} && e.1 in nodes - {v} {
      assert e == (e.0, e.1);
      ShortenedEdge(E, c, e.0, e.1);
      assert (Out(c, u, e.0), e.1).1 in nodes && (Out(c, u, e.0), e.1).0 in nodes;
    }
    forall x | x in nodes - {v} ensures NodeLinked(x, Shortened(E, c)) {
      ShortenedNeighbours(E, c, x);
      NotAnEdge(E, v, x);
      NotAnEdge(E, u, x);
      assert x in succs[v] <==> x in Elems(succs[v]);
      if x in succs[v] {
        assert u !in Elems(preds[x]) by { assert x !in Targets(E, u); }
        assert v in Elems(preds[x]);
        OverwriteElems(preds[x], v, u);
      }
    }
  }

  lemma ListsAre(nodes: set<Node>, E: set<(Node, Node)>)
    requires Linked(nodes, E)
    ensures forall x :: x in nodes ==> NoDup(x.successors) && Elems(x.successors) == Targets(E, x)
    ensures forall x :: x in nodes ==> NoDup(x.predecessors) && Elems(x.predecessors) == Sources(E, x)
    ensures forall e :: e in E ==> e.0 in nodes && e.1 in nodes
  {
    forall x | x in nodes
      ensures NoDup(x.successors) && Elems(x.successors) == Targets(E, x)
      ensures NoDup(x.predecessors) && Elems(x.predecessors) == Sources(E, x)
    {
      assert NodeLinked(x, E);
    }
  }

  /** Absorb `v` into `u`, its only predecessor, whose only successor it is: the nodes after `v` name `u`
      where they named `v`, and `u` takes the successor list of `v`. */
  method ContractSeries(u: Node, v: Node, ghost nodes: set<Node>, ghost E: set<(Node, Node)>)
    requires Linked(nodes, E) && Acyclic(E) && u in nodes && v in nodes && u.successors == [v] && v.predecessors == [u]
    modifies nodes`successors, nodes`predecessors
    ensures u.successors == old(v.successors)
    ensures forall x :: x in nodes && x != u && x != v ==> x.successors == old(x.successors)
    ensures forall x :: x in nodes ==> x.predecessors == if x in old(v.successors) then Overwrite(old(x.predecessors),
        v, u) else old(x.predecessors)
    ensures Series(E, u, v) && Linked(nodes - {v}, Shortened(E, [u, v]))
  {
    hide *;
    SeriesLists(nodes, E, u, v);
    ListsAre(nodes, E);
    SeriesApart(E, u, v);
    SuccessorsIn(nodes, E, v);
    ghost var succs, preds := map x | x in nodes :: x.successors, map x | x in nodes :: x.predecessors;
    NotRenamedYet(nodes, preds, v, u);
    var vs := v.successors;
    RenameAll(vs, v, u, nodes, preds);
    u.successors := vs;
    v.successors := [];
    AllRenamed(nodes, succs, preds, u, v);
    AbsorbedLinked(nodes, E, succs, preds, u, v);
  }

  lemma SeriesApart(E: set<(Node, Node)>, u: Node, v: Node)
    requires Acyclic(E) && Series(E, u, v)
    ensures u != v
  {
    SeriesEdge(E, u, v);
    NoSelfLoop(E, u);
  }

  lemma NotRenamedYet(nodes: set<Node>, was: map<Node, seq<Node>>, v: Node, u: Node)
    requires forall x :: x in nodes ==> x in was && x.predecessors == was[x]
    ensures Renamed(nodes, was, {}, v, u)
  {
  }

  lemma AllRenamed(nodes: set<Node>, succs: map<Node, seq<Node>>, preds: map<Node, seq<Node>>, u: Node, v: Node)
    requires succs.Keys == preds.Keys == nodes && u in nodes && v in nodes &&
        Renamed(nodes, preds, Elems(succs[v]), v, u)
    requires forall x :: x in nodes && x != v ==> x.successors == if x == u then succs[v] else succs[x]
    ensures AbsorbedLists(nodes, succs, preds, u, v)
    ensures forall x :: x in nodes ==> x.predecessors == if x in succs[v] then Overwrite(preds[x], v, u) else preds[x]
  {
    hide Overwrite;
  }

  method RenameAll(vs: seq<Node>, v: Node, u: Node, ghost nodes: set<Node>, ghost was: map<Node, seq<Node>>)
    requires NoDup(vs) && (forall x :: x in vs ==> x in nodes) && Renamed(nodes, was, {}, v, u)
    modifies nodes`predecessors
    ensures Renamed(nodes, was, Elems(vs), v, u)
  {
    hide NoDup, Renamed, Overwrite;
    assert Elems(vs[..0]) == {};
    for k := 0 to |vs|
      invariant Renamed(nodes, was, Elems(vs[..k]), v, u)
    {
      ElemsPrefix(vs, k);
      Distinct(vs, k);
      RenameOne(vs[k], v, u, nodes, was, Elems(vs[..k]));
    }
    assert vs[..|vs|] == vs;
  }

  lemma Distinct(s: seq<Node>, k: nat)
    requires NoDup(s) && k < |s|
    ensures s[k] !in Elems(s[..k])
  {
  }

  lemma SuccessorsIn(nodes: set<Node>, E: set<(Node, Node)>, u: Node)
    requires Linked(nodes, E) && u in nodes
    ensures forall x :: x in u.successors ==> x in nodes
  {
    forall x | x in u.successors ensures x in nodes {
      SuccessorEdge(nodes, E, u, IndexOf(u.successors, x));
    }
  }

  // ------------------------------------------------------------ programs

  /** How a program is launched. */
  datatype Launch = Launch(mode: LaunchMode, grid: (nat, nat, nat), block: (nat, nat, nat))

  predicate IsProgram(c: Command) {
    c.Prog? && c.source.LlvmIr?
  }

  function LaunchOf(c: Command): Launch
    requires IsProgram(c)
  {
    Launch(c.launch, c.source.grid, c.source.block)
  }

  /** A command node over an LLVM-IR program. */
  predicate Fusable(u: Node)
    reads u`command
  {
    u.kind == CommandNode && IsProgram(u.command)
  }

  /** The nodes that may be fused, with their launches. */
  ghost function KeysOf(nodes: set<Node>, entry: Node): map<Node, Launch>
    reads nodes`command
  {
    map u | u in nodes && u != entry && Fusable(u) :: LaunchOf(u.command)
  }

  /** `key` says of every node but the entry whether it may be fused, and its launch. */
  ghost predicate Keyed(nodes: set<Node>, key: map<Node, Launch>, entry: Node)
    reads nodes`command
  {
    entry !in key && forall u :: u in nodes && u != entry ==>
        (Fusable(u) <==> u in key) && (u in key ==> key[u] == LaunchOf(u.command))
  }

  ghost function CodeOf(u: Node, was: map<Node, Command>): nat {
    if u in was && IsProgram(was[u]) then was[u].source.code else 0
  }

  /** The code of the programs of a chain, in its order. */
  ghost function Codes(c: seq<Node>, was: map<Node, Command>): (s: seq<nat>)
    ensures |s| == |c| && forall k :: 0 <= k < |c| ==> s[k] == CodeOf(c[k], was)
  {
    seq(|c|, k requires 0 <= k < |c| => CodeOf(c[k], was))
  }

  /** The program that stands for a chain: all of its code, launched as its head was. */
  ghost predicate FusedFrom(now: Command, c: seq<Node>, was: map<Node, Command>, fuse: seq<nat> -> nat) {
    && c != [] && c[0] in was && IsProgram(was[c[0]])
    && now == Prog(was[c[0]].launch, LlvmIr(fuse(Codes(c, was)), was[c[0]].source.grid, was[c[0]].source.block))
  }

  ghost function Heads(chains: seq<seq<Node>>): set<Node> {
    set c | c in chains && c != [] :: c[0]
  }

  /** The heads of the fused chains hold the fused programs, every other node what it held. */
  ghost predicate Programs(now: map<Node, Command>, was: map<Node, Command>, chains: seq<seq<Node>>,
                           fuse: seq<nat> -> nat) {
    && now.Keys == was.Keys
    && (forall c: seq<Node> :: c in chains ==> c != [] && c[0] in now && FusedFrom(now[c[0]], c, was, fuse))
    && forall u :: u in now && u !in Heads(chains) ==> now[u] == was[u]
  }

  // ------------------------------------------------------------ collecting a chain

  /** The next program of the chain that starts at `u`, if `cur` is not its last. */
  method NextInChain(u: Node, cur: Node, ghost nodes: set<Node>, ghost E: set<(Node, Node)>,
                     ghost key: map<Node, Launch>, ghost s: Node)
    returns (w: Node?)
    requires Linked(nodes, E) && Keyed(nodes, key, s) && (forall e :: e in E ==> e.1 != s)
    requires u in nodes && cur in nodes && u in key && cur in key && key[cur] == key[u]
    ensures w != null ==> w in nodes && FuseLink(E, key, cur, w)
    ensures w == null ==> forall x :: x in key && x in nodes ==> !FuseLink(E, key, cur, x)
  {
    NodeLists(nodes, E, cur);
    hide Series;
    if |cur.successors| != 1 {
      NoSeries(E, cur);
      return null;
    }
    SuccessorEdge(nodes, E, cur, 0);
    w := cur.successors[0];
    NodeLists(nodes, E, w);
    OnlySeries(E, cur, w);
    assert (cur, w).1 != s;
    if !Fusable(w) || w.predecessors != [cur] {
      w := null;
    } else if LaunchOf(u.command) != LaunchOf(w.command) {
      w := null;
    }
  }

  lemma NoSeries(E: set<(Node, Node)>, u: Node)
    requires forall x :: Targets(E, u) != {x}
    ensures forall x :: !Series(E, u, x)
  {
  }

  lemma OnlySeries(E: set<(Node, Node)>, u: Node, w: Node)
    requires Targets(E, u) == {w}
    ensures forall x :: Series(E, u, x) ==> x == w
    ensures Series(E, u, w) <==> Sources(E, w) == {u}
  {
    forall x | Series(E, u, x) ensures x == w {
      assert x in {w};
    }
  }

  lemma ChainLonger(E: set<(Node, Node)>, key: map<Node, Launch>, c: seq<Node>, w: Node)
    requires Acyclic(E) && FuseChain(E, key, c) && FuseLink(E, key, c[|c| - 1], w)
    ensures FuseChain(E, key, c + [w]) && w !in Elems(c) && Elems(c + [w]) == Elems(c) + {w} && w in key &&
        key[w] == key[c[0]]
  {
    FuseChainIsChain(E, key, c);
    SeriesEdge(E, c[|c| - 1], w);
    LeavesChain(E, c, w);
    NoDupSnoc(c, w);
    var d := c + [w];
    assert c[|c| - 1] in c;
    forall k | 0 <= k < |d| - 1 ensures FuseLink(E, key, d[k], d[k + 1]) {
      if k < |c| - 1 {
        assert FuseLink(E, key, c[k], c[k + 1]);
      }
    }
  }

  /** The longest chain of programs launched as `u` is, from `u` on. */
  method CollectPrograms(u: Node, ghost nodes: set<Node>, ghost E: set<(Node, Node)>, ghost key: map<Node, Launch>,
                         ghost s: Node)
    returns (chain: seq<Node>)
    requires Linked(nodes, E) && Acyclic(E) && Keyed(nodes, key, s) && (forall e :: e in E ==> e.1 != s) &&
        u in nodes && u in key
    ensures chain != [] && chain[0] == u && FuseChain(E, key, chain) && Elems(chain) <= nodes
    ensures forall x :: x in key && x in nodes ==> !FuseLink(E, key, chain[|chain| - 1], x)
  {
    OneProgram(E, key, u);
    hide *;
    chain := [u];
    var w := NextInChain(u, u, nodes, E, key, s);
    while w != null
      invariant chain != [] && chain[0] == u && FuseChain(E, key, chain) && Elems(chain) <= nodes
      invariant w != null ==> w in nodes && FuseLink(E, key, chain[|chain| - 1], w)
      invariant w == null ==> forall x :: x in key && x in nodes ==> !FuseLink(E, key, chain[|chain| - 1], x)
      decreases nodes - Elems(chain), if w == null then 0 else 1
    {
      ChainLonger(E, key, chain, w);
      chain := chain + [w];
      w := NextInChain(u, w, nodes, E, key, s);
    }
  }

  lemma OneProgram(E: set<(Node, Node)>, key: map<Node, Launch>, u: Node)
    requires u in key
    ensures FuseChain(E, key, [u]) && Elems([u]) == {u}
  {
  }

  // ------------------------------------------------------------ fusing a chain

  /** The programs of a chain, in its order. */
  method CodesOf(chain: seq<Node>, ghost nodes: set<Node>, ghost key: map<Node, Launch>, ghost s: Node,
                 ghost was: map<Node, Command>)
    returns (codes: seq<nat>)
    requires Keyed(nodes, key, s) && Elems(chain) <= nodes && forall x :: x in chain ==>
        x in key && x in was && x.command == was[x]
    ensures codes == Codes(chain, was)
  {
    codes := [];
    for k := 0 to |chain|
      invariant codes == Codes(chain[..k], was)
    {
      var x := chain[k];
      assert x in chain && x in Elems(chain) && chain[..k + 1] == chain[..k] + [x];
      codes := codes + [x.command.source.code];
    }
    assert chain[..|chain|] == chain;
  }

  lemma NextSeries(E: set<(Node, Node)>, c: seq<Node>, k: nat)
    requires Acyclic(E) && IsChain(E, c) && 0 < k < |c|
    ensures var G := Shortened(E, c[..k]);
            && Series(G, c[0], c[k]) && Acyclic(G) && Shortened(G, [c[0], c[k]]) == Shortened(E, c[..k + 1])
    ensures Tail(c[..k + 1]) == Tail(c[..k]) + {c[k]} && c[k] !in Tail(c[..k]) && c[k] != c[0]
  {
    ChainPrefix(E, c, k);
    ShortenedStep(E, c[..k], c[k]);
    ShortenedAcyclic(E, c[..k]);
    var d := [c[0], c[k]];
    assert Series(Shortened(E, c[..k]), d[0], d[0 + 1]);
  }

  lemma NothingAbsorbed(E: set<(Node, Node)>, c: seq<Node>)
    requires Acyclic(E) && c != []
    ensures Shortened(E, c[..1]) == E && Tail(c[..1]) == {}
  {
    assert c[..1] == [c[0]];
    OneIsChain(E, c[0]);
  }

  lemma WholeChain(E: set<(Node, Node)>, c: seq<Node>)
    ensures c[..|c|] == c
  {
  }

  /** Member `k` is absorbed and flagged; it is a series with the head each time. */
  method AbsorbOne(chain: seq<Node>, k: nat, flags: array<bool>, ghost vec: seq<Node>, ghost F: set<Node>,
                   ghost nodes: set<Node>, ghost E: set<(Node, Node)>)
    requires 0 < k < |chain| && Acyclic(E) && IsChain(E, chain) && chain[0] in nodes - Tail(chain[..k]) &&
        chain[k] in nodes && chain[k] in Elems(vec)
    requires Linked(nodes - Tail(chain[..k]), Shortened(E, chain[..k]))
    requires (forall i :: 0 <= i < |vec| ==> vec[i].iteratorIndex == i) && Flagged(flags[..], vec, F + Tail(chain[..k]))
    modifies flags, nodes`successors, nodes`predecessors
    ensures Linked(nodes - Tail(chain[..k + 1]), Shortened(E, chain[..k + 1]))
    ensures Flagged(flags[..], vec, F + Tail(chain[..k + 1]))
  {
    hide *;
    NextSeries(E, chain, k);
    ghost var M, G := nodes - Tail(chain[..k]), Shortened(E, chain[..k]);
    SeriesLists(M, G, chain[0], chain[k]);
    ContractSeries(chain[0], chain[k], M, G);
    assert M - {chain[k]} == nodes - Tail(chain[..k + 1]);
    FlagOne(flags[..], vec, F + Tail(chain[..k]), chain[k]);
    flags[chain[k].iteratorIndex] := true;
    assert F + Tail(chain[..k]) + {chain[k]} == F + Tail(chain[..k + 1]);
  }

  /** Contract the chain into its head, one member after the other. */
  method AbsorbChain(chain: seq<Node>, flags: array<bool>, ghost vec: seq<Node>, ghost F: set<Node>,
                     ghost nodes: set<Node>, ghost E: set<(Node, Node)>)
    requires |chain| >= 2 && Acyclic(E) && IsChain(E, chain) && Elems(chain) <= nodes && Elems(chain) <= Elems(vec) &&
        Linked(nodes, E)
    requires (forall i :: 0 <= i < |vec| ==> vec[i].iteratorIndex == i) && Flagged(flags[..], vec, F)
    modifies flags, nodes`successors, nodes`predecessors
    ensures Linked(nodes - Tail(chain), Shortened(E, chain)) && Flagged(flags[..], vec, F + Tail(chain))
  {
    hide *;
    NothingAbsorbed(E, chain);
    assert nodes - Tail(chain[..1]) == nodes && F + Tail(chain[..1]) == F;
    for k := 1 to |chain|
      invariant Linked(nodes - Tail(chain[..k]), Shortened(E, chain[..k]))
      invariant Flagged(flags[..], vec, F + Tail(chain[..k]))
    {
      HeadStays(E, chain, k, nodes, vec);
      AbsorbOne(chain, k, flags, vec, F, nodes, E);
    }
    WholeChain(E, chain);
  }

  lemma HeadStays(E: set<(Node, Node)>, c: seq<Node>, k: nat, nodes: set<Node>, vec: seq<Node>)
    requires IsChain(E, c) && 0 < k < |c| && Elems(c) <= nodes && Elems(c) <= Elems(vec)
    ensures c[0] in nodes - Tail(c[..k]) && c[k] in nodes && c[k] in Elems(vec)
  {
    ChainPrefix(E, c, k);
    TailIs(c[..k]);
    assert c[0] in Elems(c) && c[k] in Elems(c);
  }

  // ------------------------------------------------------------ the pass

  lemma InTurnSnoc(chains: seq<seq<Node>>, c: seq<Node>, N: set<Node>, E: set<(Node, Node)>)
    requires InTurn(chains, N, E) && IsChain(ShortenedAll(chains, E), c) && Elems(c) <= N - Absorbed(chains)
    ensures InTurn(chains + [c], N, E)
  {
    assert (chains + [c])[..|chains|] == chains;
  }

  /** An execution of the fused graph with every fused program run as the chain it stands for. */
  ghost function Unfused(x: seq<Node>, chains: seq<seq<Node>>): seq<Node>
    decreases |chains|
  {
    if chains == [] then x else Unfused(Expand(x, chains[|chains| - 1]), chains[..|chains| - 1])
  }

  /** Every schedule of the fused graph is a schedule of the graph once the chains run in place of their heads. */
  lemma {:induction false} UnfusedSchedule(chains: seq<seq<Node>>, N: set<Node>, E: set<(Node, Node)>, x: seq<Node>)
    requires Acyclic(E) && InTurn(chains, N, E) && Schedule(x, N - Absorbed(chains), ShortenedAll(chains, E))
    ensures Schedule(Unfused(x, chains), N, E)
  {
    if chains == [] {
      assert N - Absorbed(chains) == N;
    } else {
      var front, c := chains[..|chains| - 1], chains[|chains| - 1];
      assert chains == front + [c];
      ChainsSnoc(front, c);
      AllAcyclic(front, N, E);
      hide Schedule, Shortened, IsChain;
      assert N - Absorbed(chains) == N - Absorbed(front) - Tail(c);
      ExpandSchedule(N - Absorbed(front), ShortenedAll(front, E), c, x);
      UnfusedSchedule(front, N, E, Expand(x, c));
    }
  }

  lemma ShortenedSnoc(chains: seq<seq<Node>>, c: seq<Node>, E: set<(Node, Node)>)
    ensures ShortenedAll(chains + [c], E) == Shortened(ShortenedAll(chains, E), c)
  {
    assert (chains + [c])[..|chains|] == chains;
  }

  /** A program of the same launch. */
  method SetProgram(u: Node, code: nat, ghost nodes: set<Node>, ghost key: map<Node, Launch>, ghost s: Node)
    requires Fusable(u) && Keyed(nodes, key, s)
    modifies u`command
    ensures Keyed(nodes, key, s) && u.command == Prog(old(u.command).launch,
        LlvmIr(code, old(u.command).source.grid, old(u.command).source.block))
  {
    u.command := Prog(u.command.launch, LlvmIr(code, u.command.source.grid, u.command.source.block));
  }

  lemma ProgramsMore(now: map<Node, Command>, next: map<Node, Command>, was: map<Node, Command>,
                     chains: seq<seq<Node>>, c: seq<Node>, fuse: seq<nat> -> nat)
    requires Programs(now, was, chains, fuse) && c != [] && c[0] in now && c[0] !in Heads(chains) &&
        IsProgram(was[c[0]])
    requires next == now[c[0] := Prog(was[c[0]].launch, LlvmIr(fuse(Codes(c, was)), was[c[0]].source.grid,
        was[c[0]].source.block))]
    ensures Programs(next, was, chains + [c], fuse)
  {
    assert Heads(chains + [c]) == Heads(chains) + {c[0]} by {
      assert forall d :: d in chains + [c] <==> d in chains || d == c;
    }
    forall d: seq<Node> | d in chains ensures d[0] != c[0] {
      assert d[0] in Heads(chains);
    }
  }

  lemma HeadsIn(chains: seq<seq<Node>>)
    ensures Heads(chains) <= InChains(chains)
  {
    forall x | x in Heads(chains) ensures x in InChains(chains) {
      var c :| c in chains && c != [] && x == c[0];
      assert x in c;
    }
  }

  /** The members of a chain apart from the fused ones still hold what they held. */
  lemma StillHeld(nodes: set<Node>, key: map<Node, Launch>, s: Node, was: map<Node, Command>, chains: seq<seq<Node>>,
                  c: seq<Node>, fuse: seq<nat> -> nat)
    requires Keyed(nodes, key, s) && Programs(CommandsHeld(nodes), was, chains, fuse) && Elems(c) !! InChains(chains) &&
        Elems(c) <= nodes
    requires forall x :: x in c ==> x in key
    ensures forall x :: x in c ==> x in was && x.command == was[x] && Fusable(x)
  {
    HeadsIn(chains);
    forall x: Node | x in c ensures x in was && x.command == was[x] && Fusable(x) {
      assert x in Elems(c) && x != s;
      assert x !in Heads(chains) && x in CommandsHeld(nodes) && CommandsHeld(nodes)[x] == x.command;
    }
  }

  lemma HeldNext(nodes: set<Node>, held: map<Node, Command>, u: Node, c: Command)
    requires u in nodes && held.Keys == nodes && u.command == c && forall x :: x in nodes && x != u ==>
        x.command == held[x]
    ensures CommandsHeld(nodes) == held[u := c]
  {
  }

  lemma HeldAre(nodes: set<Node>, held: map<Node, Command>)
    requires held == CommandsHeld(nodes)
    ensures held.Keys == nodes && forall x :: x in nodes ==> held[x] == x.command
  {
  }

  /** One chain fused into the command of its head. */
  method FuseCommands(u: Node, chain: seq<Node>, fuse: seq<nat> -> nat, ghost nodes: set<Node>,
                      ghost key: map<Node, Launch>, ghost s: Node, ghost was: map<Node, Command>,
                      ghost chains: seq<seq<Node>>)
    requires chain != [] && chain[0] == u && Keyed(nodes, key, s) && Programs(CommandsHeld(nodes), was, chains, fuse)
    requires Elems(chain) !! InChains(chains) && Elems(chain) <= nodes && forall x :: x in chain ==> x in key
    modifies u`command
    ensures Keyed(nodes, key, s) && Programs(CommandsHeld(nodes), was, chains + [chain], fuse)
  {
    hide *;
    StillHeld(nodes, key, s, was, chains, chain, fuse);
    ghost var held := CommandsHeld(nodes);
    HeldAre(nodes, held);
    HeadApart(chain, chains, nodes);
    ProgramHead(u);
    var codes := CodesOf(chain, nodes, key, s, was);
    SetProgram(u, fuse(codes), nodes, key, s);
    HeldNext(nodes, held, u, u.command);
    ProgramsMore(held, CommandsHeld(nodes), was, chains, chain, fuse);
  }

  lemma ProgramHead(u: Node)
    requires Fusable(u)
    ensures IsProgram(u.command) && u.command.Prog? && u.command.source.LlvmIr?
  {
  }

  lemma HeadApart(c: seq<Node>, chains: seq<seq<Node>>, nodes: set<Node>)
    requires c != [] && Elems(c) !! InChains(chains) && Elems(c) <= nodes
    ensures c[0] in c && c[0] !in Heads(chains) && c[0] in nodes
  {
    HeadsIn(chains);
    assert c[0] in Elems(c);
  }

  /** The state of the scan: the graph is valid, the chains found so far are fused, and nothing else is. */
  ghost predicate Scan(cg: CommandGraph, N0: set<Node>, E0: set<(Node, Node)>, key: map<Node, Launch>,
                       was: map<Node, Command>, fuse: seq<nat> -> nat, seen: seq<Node>, chains: seq<seq<Node>>)
    reads cg, cg.nodes`successors, cg.nodes`predecessors, N0`command
  {
    && cg.Valid() && Fusing(N0, E0, key, seen, chains, cg.nodes, cg.edges) && cg.edges == ShortenedAll(chains, E0) &&
        InTurn(chains, N0, E0)
    && Keyed(N0, key, cg.entry) && Programs(CommandsHeld(N0), was, chains, fuse)
  }

  lemma ScanParts(cg: CommandGraph, N0: set<Node>, E0: set<(Node, Node)>, key: map<Node, Launch>,
                  was: map<Node, Command>, fuse: seq<nat> -> nat, seen: seq<Node>, chains: seq<seq<Node>>)
    requires Scan(cg, N0, E0, key, was, fuse, seen, chains)
    ensures Coherent(cg.nodes, cg.edges, cg.entry, cg.exit) && Linked(cg.nodes, cg.edges) && Acyclic(cg.edges)
    ensures forall e :: e in cg.edges ==> e.0 in cg.nodes && e.1 in cg.nodes && e.1 != cg.entry
    ensures Fusing(N0, E0, key, seen, chains, cg.nodes, cg.edges) && cg.edges == ShortenedAll(chains, E0) &&
        InTurn(chains, N0, E0)
    ensures Keyed(N0, key, cg.entry) && Programs(CommandsHeld(N0), was, chains, fuse) &&
        cg.nodes == N0 - Absorbed(chains)
    ensures cg.entry !in key && Keyed(cg.nodes, key, cg.entry)
  {
    CoherentParts(cg.nodes, cg.edges, cg.entry, cg.exit);
    forall e | e in cg.edges ensures e.1 != cg.entry { NotAnEdge(cg.edges, e.0, e.1); }
  }

  lemma IsScan(cg: CommandGraph, N0: set<Node>, E0: set<(Node, Node)>, key: map<Node, Launch>, was: map<Node, Command>,
               fuse: seq<nat> -> nat, seen: seq<Node>, chains: seq<seq<Node>>)
    requires Coherent(cg.nodes, cg.edges, cg.entry, cg.exit) && Linked(cg.nodes, cg.edges)
    requires Fusing(N0, E0, key, seen, chains, cg.nodes, cg.edges) && cg.edges == ShortenedAll(chains, E0) &&
        InTurn(chains, N0, E0)
    requires Keyed(N0, key, cg.entry) && Programs(CommandsHeld(N0), was, chains, fuse)
    ensures Scan(cg, N0, E0, key, was, fuse, seen, chains)
  {
  }

  /** Nodes that may be fused are listed but for the exit, and no program is linked to that one. */
  ghost predicate Scannable(N0: set<Node>, E0: set<(Node, Node)>, key: map<Node, Launch>, s: Node, t: Node,
                            vec: seq<Node>) {
    && NoDup(vec) && Elems(vec) == N0 - {s, t} && key.Keys <= N0 - {s} && ParentsFirst(E0, key, s, vec)
    && LeftAlone(E0, key, t) && Targets(E0, t) == {}
    && forall i :: 0 <= i < |vec| ==> s != vec[i] && vec[i] in N0
  }

  lemma ScannableParts(N0: set<Node>, E0: set<(Node, Node)>, key: map<Node, Launch>, s: Node, t: Node, vec: seq<Node>)
    requires Scannable(N0, E0, key, s, t, vec)
    ensures NoDup(vec) && key.Keys <= N0 && Elems(vec) == N0 - {s, t} && s !in key && ParentsFirst(E0, key, s, vec)
    ensures LeftAlone(E0, key, t) && Targets(E0, t) == {}
    ensures forall i :: 0 <= i < |vec| ==> vec[i] != s && vec[i] in N0
  {
  }

  lemma AtFlag(flags: seq<bool>, vec: seq<Node>, S: set<Node>, i: nat)
    requires Flagged(flags, vec, S) && i < |vec|
    ensures i < |flags| && (flags[i] <==> vec[i] in S)
  {
  }

  lemma MaximalParts(E: set<(Node, Node)>, E0: set<(Node, Node)>, key: map<Node, Launch>, c: seq<Node>, N: set<Node>,
                     N0: set<Node>, s: Node, t: Node)
    requires MaximalFuse(E, key, c) && MaximalFuse(E0, key, c) && Elems(c) <= N && N <= N0 && s !in key
    requires LeftAlone(E0, key, t) && Targets(E0, t) == {}
    ensures c != [] && IsChain(E, c) && (forall x :: x in c ==> x in key) && Elems(c) <= N0 - {s, t} &&
        Elems(c) <= N - {s, t} && c[0] in N
  {
    FuseChainIsChain(E, key, c);
    SinkLeftAlone(E0, key, c, t);
    forall x | x in Elems(c) ensures x in N - {s, t} {
      assert x in c;
    }
    assert c[0] in Elems(c);
  }

  lemma KeyOf(nodes: set<Node>, key: map<Node, Launch>, s: Node, u: Node)
    requires Keyed(nodes, key, s) && u in nodes && u != s
    ensures Fusable(u) <==> u in key
  {
  }

  /** Fuse a chain: its programs into its head's command, its nodes into its head. */
  method FuseChainAt(cg: CommandGraph, chain: seq<Node>, flags: array<bool>, fuse: seq<nat> -> nat,
                     ghost vec: seq<Node>, ghost i: nat, ghost N0: set<Node>, ghost E0: set<(Node, Node)>,
                     ghost key: map<Node, Launch>, ghost was: map<Node, Command>, ghost chains: seq<seq<Node>>)
    requires i < |vec| && Scan(cg, N0, E0, key, was, fuse, vec[..i], chains) &&
        Scannable(N0, E0, key, cg.entry, cg.exit, vec)
    requires (forall j :: 0 <= j < |vec| ==> vec[j].iteratorIndex == j) && Flagged(flags[..], vec, Absorbed(chains))
    requires |chain| >= 2 && chain[0] == vec[i] && Elems(chain) <= cg.nodes && Elems(chain) !! InChains(chains)
    requires MaximalFuse(E0, key, chain) && MaximalFuse(cg.edges, key, chain)
    modifies cg`nodes, cg`edges, flags, cg.nodes`successors, cg.nodes`predecessors, cg.nodes`command
    ensures Scan(cg, N0, E0, key, was, fuse, vec[..i + 1], chains + [chain])
    ensures Flagged(flags[..], vec, Absorbed(chains + [chain]))
  {
    hide *;
    ghost var N, E, s, t := cg.nodes, cg.edges, cg.entry, cg.exit;
    ScanParts(cg, N0, E0, key, was, fuse, vec[..i], chains);
    ScannableParts(N0, E0, key, s, t, vec);
    MaximalParts(E, E0, key, chain, N, N0, s, t);
    ChainsSnoc(chains, chain);
    ShortenedSnoc(chains, chain, E0);
    InTurnSnoc(chains, chain, N0, E0);
    FuseCommands(chain[0], chain, fuse, N0, key, s, was, chains);
    AbsorbChain(chain, flags, vec, Absorbed(chains), N, E);
    cg.nodes, cg.edges := N - Tail(chain), Shortened(E, chain);
    FusedOne(N0, E0, key, vec, i, chains, N, E, chain);
    ShortenedCoherent(N, E, s, t, chain);
    IsScan(cg, N0, E0, key, was, fuse, vec[..i + 1], chains + [chain]);
  }

  /** One node of the scan. */
  method ScanNode(cg: CommandGraph, vec: seq<Node>, i: nat, flags: array<bool>, fuse: seq<nat> -> nat,
                  ghost N0: set<Node>, ghost E0: set<(Node, Node)>, ghost key: map<Node, Launch>,
                  ghost was: map<Node, Command>, ghost chains: seq<seq<Node>>)
    returns (ghost more: seq<seq<Node>>)
    requires i < |vec| && Scan(cg, N0, E0, key, was, fuse, vec[..i], chains) &&
        Scannable(N0, E0, key, cg.entry, cg.exit, vec)
    requires (forall j :: 0 <= j < |vec| ==> vec[j].iteratorIndex == j) && Flagged(flags[..], vec, Absorbed(chains))
    modifies cg`nodes, cg`edges, flags, cg.nodes`successors, cg.nodes`predecessors, cg.nodes`command
    ensures cg.nodes <= old(cg.nodes)
    ensures Scan(cg, N0, E0, key, was, fuse, vec[..i + 1], more) && Flagged(flags[..], vec, Absorbed(more))
  {
    hide *;
    ghost var N, E, s, t := cg.nodes, cg.edges, cg.entry, cg.exit;
    ScanParts(cg, N0, E0, key, was, fuse, vec[..i], chains);
    ScannableParts(N0, E0, key, s, t, vec);
    AtFlag(flags[..], vec, Absorbed(chains), i);
    var u := vec[i];
    KeyOf(N0, key, s, u);
    more := chains;
    if flags[i] || !Fusable(u) {
      FusedNone(N0, E0, key, vec, i, chains, N, E);
      IsScan(cg, N0, E0, key, was, fuse, vec[..i + 1], chains);
      return;
    }
    var chain := CollectPrograms(u, N, E, key, s);
    if |chain| < 2 {
      FusedNone(N0, E0, key, vec, i, chains, N, E);
      IsScan(cg, N0, E0, key, was, fuse, vec[..i + 1], chains);
      return;
    }
    CollectedIsMaximal(N0, E0, key, s, vec, i, chains, N, E, chain);
    FuseChainAt(cg, chain, flags, fuse, vec, i, N0, E0, key, was, chains);
    more := chains + [chain];
    Fewer(N0, chains, chain);
    ScanParts(cg, N0, E0, key, was, fuse, vec[..i + 1], more);
  }

  lemma Fewer(N0: set<Node>, chains: seq<seq<Node>>, c: seq<Node>)
    ensures N0 - Absorbed(chains + [c]) <= N0 - Absorbed(chains)
  {
    ChainsSnoc(chains, c);
  }

  lemma ScannableStart(N: set<Node>, E: set<(Node, Node)>, s: Node, t: Node, vec: seq<Node>)
    requires NoDup(vec) && Elems(vec) == N - {s, t} && LeftAlone(E, KeysOf(N, s), t) && Targets(E, t) == {}
    requires forall i: nat :: i < |vec| ==> (s, vec[i]) in E || HasParent(E, vec, i)
    ensures Scannable(N, E, KeysOf(N, s), s, t, vec)
  {
    hide HasParent;
    forall i | 0 <= i < |vec| ensures s != vec[i] && vec[i] in N {
      assert vec[i] in Elems(vec);
    }
  }

  lemma ScanStart(cg: CommandGraph, fuse: seq<nat> -> nat)
    requires cg.Valid()
    ensures Scan(cg, cg.nodes, cg.edges, KeysOf(cg.nodes, cg.entry), CommandsHeld(cg.nodes), fuse, [], [])
  {
    hide Coherent, Linked, Fusing;
    NothingFused(cg.nodes, cg.edges, KeysOf(cg.nodes, cg.entry));
  }

  /** What the whole pass did: the maximal chains of the graph, all of them and nothing else, are fused. */
  ghost predicate FusedAll(chains: seq<seq<Node>>, N0: set<Node>, E0: set<(Node, Node)>, key: map<Node, Launch>,
                           was: map<Node, Command>, fuse: seq<nat> -> nat, N: set<Node>, E: set<(Node, Node)>)
    reads N0`command
  {
    && (forall c :: c in chains ==> MaximalFuse(E0, key, c))
    && (forall a, b :: 0 <= a < b < |chains| ==> Elems(chains[a]) !! Elems(chains[b]))
    && (forall u, v :: u in key && v in key && FuseLink(E0, key, u, v) ==> exists c :: c in chains && u in c && v in c)
    && N == N0 - Absorbed(chains) && E == ShortenedAll(chains, E0) && InTurn(chains, N0, E0) && SameOrderOn(E0, E, N)
    && Programs(CommandsHeld(N0), was, chains, fuse)
  }

  lemma PassOver(cg: CommandGraph, N0: set<Node>, E0: set<(Node, Node)>, key: map<Node, Launch>,
                 was: map<Node, Command>, fuse: seq<nat> -> nat, vec: seq<Node>, chains: seq<seq<Node>>)
    requires Scan(cg, N0, E0, key, was, fuse, vec, chains) && Scannable(N0, E0, key, cg.entry, cg.exit, vec)
    requires forall e :: e in E0 ==> e.0 in N0
    ensures cg.Valid() && FusedAll(chains, N0, E0, key, was, fuse, cg.nodes, cg.edges)
    ensures NothingLeft(cg) && Keyed(N0, key, cg.entry)
  {
    hide Programs, Coherent, Linked, SameOrderOn, MaximalFuse;
    ScannableParts(N0, E0, key, cg.entry, cg.exit, vec);
    forall u, v | FuseLink(E0, key, u, v) ensures u in Elems(vec) {
      SeriesEdge(E0, u, v);
      NotAnEdge(E0, u, v);
      assert (u, v).0 in N0;
    }
    ScanOver(N0, E0, key, vec, chains, cg.nodes, cg.edges);
    var now := KeysOf(cg.nodes, cg.entry);
    assert cg.nodes <= N0;
    forall u, v | u in now && v in now ensures !FuseLink(cg.edges, now, u, v) {
      assert u in key && v in key && key[u] == now[u] && key[v] == now[v];
      assert !FuseLink(cg.edges, key, u, v);
    }
  }

  /** No two programs in series are launched alike. */
  ghost predicate NothingLeft(cg: CommandGraph)
    reads cg, cg.nodes`command
  {
    var key := KeysOf(cg.nodes, cg.entry); forall u, v :: u in key && v in key ==> !FuseLink(cg.edges, key, u, v)
  }

  /** No program is in series with the exit and launched as it is. */
  ghost predicate ExitLeftAlone(cg: CommandGraph)
    reads cg, cg.nodes`command
  {
    LeftAlone(cg.edges, KeysOf(cg.nodes, cg.entry), cg.exit)
  }

  lemma NothingLeftAlone(cg: CommandGraph)
    requires NothingLeft(cg)
    ensures ExitLeftAlone(cg)
  {
  }

  lemma ExitIsLeftAlone(cg: CommandGraph)
    requires cg.Valid() && ExitLeftAlone(cg)
    ensures LeftAlone(cg.edges, KeysOf(cg.nodes, cg.entry), cg.exit) && Targets(cg.edges, cg.exit) == {}
    ensures forall e :: e in cg.edges ==> e.0 in cg.nodes
  {
  }

  /** Fuse every maximal chain of programs in series launched alike into its head.  The order of the nodes
      left is the order they had; nothing is left to fuse.  The exit is not numbered, so no program may be in series
      with it and launched alike: it would be absorbed. */
  method PassProgFuse(cg: CommandGraph, fuse: seq<nat> -> nat) returns (ghost chains: seq<seq<Node>>)
    requires cg.Valid() && cg.Fresh() && ExitLeftAlone(cg)
    modifies cg`walkId, cg`nodes, cg`edges
    modifies cg.nodes`walkId, cg.nodes`iteratorIndex, cg.nodes`successors, cg.nodes`predecessors, cg.nodes`command
    ensures cg.Valid() && cg.nodes <= old(cg.nodes)
    ensures FusedAll(chains, old(cg.nodes), old(cg.edges), old(KeysOf(cg.nodes, cg.entry)), old(CommandsHeld(cg.nodes)),
        fuse, cg.nodes, cg.edges)
    ensures NothingLeft(cg) && Keyed(old(cg.nodes), old(KeysOf(cg.nodes, cg.entry)), cg.entry)
    ensures FusedAlike(chains, old(cg.nodes), old(cg.edges), cg.entry, old(CommandsHeld(cg.nodes))) && NoneAlike(cg)
    ensures cg.walkId == NextWalkId(old(cg.walkId)) && forall u :: u in cg.nodes ==> u.walkId == cg.walkId
  {
    hide *;
    ghost var N0, E0, s, t := cg.nodes, cg.edges, cg.entry, cg.exit;
    ExitIsLeftAlone(cg);
    EdgesLeaveEntry(cg);
    var vec := cg.CreateNodeIterators(false);
    ghost var key, was := KeysOf(N0, s), CommandsHeld(N0);
    KeysAreHeld(N0, s);
    ScannableStart(N0, E0, s, t, vec);
    ScanStart(cg, fuse);
    var flags := new bool[|vec|](_ => false);
    chains := [];
    NoneFlagged(flags[..], vec);
    for i := 0 to |vec|
      invariant cg.nodes <= N0 && cg.walkId == NextWalkId(old(cg.walkId)) &&
          forall u :: u in N0 ==> u.walkId == cg.walkId
      invariant forall j :: 0 <= j < |vec| ==> vec[j].iteratorIndex == j
      invariant Scan(cg, N0, E0, key, was, fuse, vec[..i], chains) && Flagged(flags[..], vec, Absorbed(chains))
    {
      chains := ScanNode(cg, vec, i, flags, fuse, N0, E0, key, was, chains);
    }
    WholeList(vec);
    PassOver(cg, N0, E0, key, was, fuse, vec, chains);
    AllFusedAlike(chains, N0, E0, s, key, was, fuse, cg.nodes, cg.edges);
    LeftNoneAlike(cg);
  }

  lemma WholeList(vec: seq<Node>)
    ensures vec[..|vec|] == vec && vec[..0] == []
  {
  }

  lemma NoneFlagged(flags: seq<bool>, vec: seq<Node>)
    requires |flags| == |vec| && forall i :: 0 <= i < |vec| ==> !flags[i]
    ensures Flagged(flags, vec, Absorbed<Node>([]))
  {
  }

  // ------------------------------------------------------------ on the fields of the commands

  /** Two LLVM-IR programs of one launch mode, one grid and one block. */
  ghost predicate LaunchedAlike(a: Command, b: Command) {
    && a.Prog? && a.source.LlvmIr? && b.Prog? && b.source.LlvmIr?
    && a.launch == b.launch && a.source.grid == b.source.grid && a.source.block == b.source.block
  }

  /** `key` holds the launches of the command nodes over LLVM-IR programs, as `was` has them. */
  ghost predicate KeysHeld(N: set<Node>, s: Node, key: map<Node, Launch>, was: map<Node, Command>) {
    && was.Keys == N && key.Keys <= N && s !in key
    && forall u :: u in N && u != s ==>
         (u in key <==> u.kind == CommandNode && was[u].Prog? && was[u].source.LlvmIr?)
         && (u in key ==> key[u] == Launch(was[u].launch, was[u].source.grid, was[u].source.block))
  }

  lemma KeysAreHeld(N: set<Node>, s: Node)
    ensures KeysHeld(N, s, KeysOf(N, s), CommandsHeld(N))
  {
  }

  lemma KeysAlike(N: set<Node>, s: Node, key: map<Node, Launch>, was: map<Node, Command>, u: Node, v: Node)
    requires KeysHeld(N, s, key, was) && u in N && v in N && u != s && v != s
    ensures u in key && v in key && key[u] == key[v] <==>
            u.kind == v.kind == CommandNode && LaunchedAlike(was[u], was[v])
  {
  }

  /** What was fused, on the commands the nodes held: only programs of one mode, grid and block, and all of
      them that are in series. */
  ghost predicate FusedAlike(chains: seq<seq<Node>>, N: set<Node>, E: set<(Node, Node)>, s: Node,
                             was: map<Node, Command>) {
    && was.Keys == N
    && (forall c, u :: c in chains && u in c ==>
          c[0] in N && u in N && u != s && u.kind == c[0].kind == CommandNode && LaunchedAlike(was[u], was[c[0]]))
    && forall u, v ::
         (u in N && v in N && u != s && u.kind == v.kind == CommandNode && LaunchedAlike(was[u], was[v])
          && Series(E, u, v)) ==> exists c :: c in chains && u in c && v in c
  }

  lemma AllFusedAlike(chains: seq<seq<Node>>, N: set<Node>, E: set<(Node, Node)>, s: Node, key: map<Node, Launch>,
                      was: map<Node, Command>, fuse: seq<nat> -> nat, M: set<Node>, F: set<(Node, Node)>)
    requires KeysHeld(N, s, key, was) && FusedAll(chains, N, E, key, was, fuse, M, F)
    requires forall e :: e in E ==> e.1 != s
    ensures FusedAlike(chains, N, E, s, was)
  {
    hide KeysHeld, LaunchedAlike, Programs, SameOrderOn, InTurn, Series;
    assert was.Keys == N && key.Keys <= N && s !in key by { HeldKeys(N, s, key, was); }
    forall c, u | c in chains && u in c
      ensures c[0] in N && u in N && u != s && u.kind == c[0].kind == CommandNode && LaunchedAlike(was[u], was[c[0]])
    {
      SameKey(E, key, c, IndexOf(c, u));
      KeysAlike(N, s, key, was, u, c[0]);
    }
    forall u, v | u in N && v in N && u != s && u.kind == v.kind == CommandNode && LaunchedAlike(was[u], was[v]) &&
        Series(E, u, v)
      ensures exists c :: c in chains && u in c && v in c
    {
      SeriesEdge(E, u, v);
      assert (u, v).1 != s;
      KeysAlike(N, s, key, was, u, v);
      assert FuseLink(E, key, u, v);
    }
  }

  lemma HeldKeys(N: set<Node>, s: Node, key: map<Node, Launch>, was: map<Node, Command>)
    requires KeysHeld(N, s, key, was)
    ensures was.Keys == N && key.Keys <= N && s !in key
  {
  }

  /** No two inner programs of one mode, grid and block are each other's only neighbour on that side. */
  ghost predicate NoneAlike(cg: CommandGraph)
    reads cg, cg.nodes`command, cg.nodes`successors, cg.nodes`predecessors
  {
    forall u, v ::
      (u in cg.nodes && v in cg.nodes && u != cg.entry && u.kind == v.kind == CommandNode
       && LaunchedAlike(u.command, v.command)) ==> !(u.successors == [v] && v.predecessors == [u])
  }

  lemma EdgesLeaveEntry(cg: CommandGraph)
    requires cg.Valid()
    ensures Linked(cg.nodes, cg.edges) && forall e :: e in cg.edges ==> e.1 != cg.entry
  {
    forall e | e in cg.edges ensures e.1 != cg.entry {
      assert e == (e.0, e.1);
      NotAnEdge(cg.edges, e.0, e.1);
    }
  }

  lemma LeftNoneAlike(cg: CommandGraph)
    requires cg.Valid() && NothingLeft(cg)
    ensures NoneAlike(cg)
  {
    hide LaunchedAlike, KeysHeld, Linked, Coherent;
    var s, key, was := cg.entry, KeysOf(cg.nodes, cg.entry), CommandsHeld(cg.nodes);
    KeysAreHeld(cg.nodes, s);
    EdgesLeaveEntry(cg);
    forall u, v | u in cg.nodes && v in cg.nodes && u != s && u.kind == v.kind == CommandNode &&
        LaunchedAlike(u.command, v.command)
      ensures !(u.successors == [v] && v.predecessors == [u])
    {
      if u.successors == [v] && v.predecessors == [u] {
        NodeLists(cg.nodes, cg.edges, u);
        NodeLists(cg.nodes, cg.edges, v);
        SeriesEdge(cg.edges, u, v);
        assert (u, v) in cg.edges && (u, v).1 != s;
        KeysAlike(cg.nodes, s, key, was, u, v);
      }
    }
  }

  /** A graph with nothing to fuse is left as it is. */
  lemma NothingToFuse(chains: seq<seq<Node>>, N0: set<Node>, E0: set<(Node, Node)>, key: map<Node, Launch>,
                      was: map<Node, Command>, fuse: seq<nat> -> nat, N: set<Node>, E: set<(Node, Node)>)
    requires FusedAll(chains, N0, E0, key, was, fuse, N, E) && forall u, v :: u in key && v in key ==>
        !FuseLink(E0, key, u, v)
    ensures chains == [] && N == N0 && E == E0 && CommandsHeld(N0) == was
  {
    if chains != [] {
      HoldsLink(E0, key, chains[0]);
    }
    assert chains == [] ==> Absorbed(chains) == {} && Heads(chains) == {};
  }

  lemma HoldsLink(E: set<(Node, Node)>, key: map<Node, Launch>, c: seq<Node>)
    requires MaximalFuse(E, key, c)
    ensures exists u, v :: u in key && v in key && FuseLink(E, key, u, v)
  {
    assert FuseLink(E, key, c[0], c[0 + 1]);
  }

  lemma LeftIs(cg: CommandGraph)
    requires NothingLeft(cg)
    ensures var key := KeysOf(cg.nodes, cg.entry); forall u, v :: u in key && v in key ==>
        !FuseLink(cg.edges, key, u, v)
  {
  }

  lemma AllMarked(cg: CommandGraph)
    requires forall u :: u in cg.nodes ==> u.walkId == cg.walkId
    ensures cg.Fresh()
  {
  }

  /** A second run fuses nothing. */
  method FuseTwice(cg: CommandGraph, fuse: seq<nat> -> nat) returns (ghost first: seq<seq<Node>>,
                   ghost second: seq<seq<Node>>)
    requires cg.Valid() && cg.Fresh() && ExitLeftAlone(cg)
    modifies cg`walkId, cg`nodes, cg`edges
    modifies cg.nodes`walkId, cg.nodes`iteratorIndex, cg.nodes`successors, cg.nodes`predecessors, cg.nodes`command
    ensures cg.Valid() && second == []
    ensures FusedAll(first, old(cg.nodes), old(cg.edges), old(KeysOf(cg.nodes, cg.entry)), old(CommandsHeld(cg.nodes)),
        fuse, cg.nodes, cg.edges)
  {
    hide *;
    first := PassProgFuse(cg, fuse);
    ghost var N, E, key, was := cg.nodes, cg.edges, KeysOf(cg.nodes, cg.entry), CommandsHeld(cg.nodes);
    AllMarked(cg);
    LeftIs(cg);
    NothingLeftAlone(cg);
    HeldAre(N, was);
    second := PassProgFuse(cg, fuse);
    NothingToFuse(second, N, E, key, was, fuse, cg.nodes, cg.edges);
    HeldAre(N, CommandsHeld(N));
  }
}
