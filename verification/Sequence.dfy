/** pass_sequence: maximal same-device chains of task programs become sequence batches. */
module Sequence {
  import opened Chains
  import opened CommandGraphs
  import opened Digraphs
  import opened LinkChains
  import opened Lists
  import opened Plans
  import opened Traversals

  // ---------------------------------------------------------------- detaching the boundary

  /** `E` with the edges from `done` into `h` moved onto `b`. */
  ghost function MovedIn<V>(E: set<(V, V)>, done: set<V>, h: V, b: V): set<(V, V)> {
    (set e | e in E && !(e.1 == h && e.0 in done)) + (set p | p in done :: (p, b))
  }

  /** `E` with the edges from `t` into `done` moved onto `b`. */
  ghost function MovedOut<V>(E: set<(V, V)>, done: set<V>, t: V, b: V): set<(V, V)> {
    (set e | e in E && !(e.0 == t && e.1 in done)) + (set s | s in done :: (b, s))
  }

  lemma MoveIn<V>(E: set<(V, V)>, done: set<V>, p: V, h: V, b: V)
    requires (forall e :: e in E ==> e.0 != b && e.1 != b) && p !in done && (p, h) in E && h != b && p != b
    ensures var S, S' := MovedIn(E, done, h, b), MovedIn(E, done + {p}, h, b);
            && Targets(S', p) == Targets(S, p) - {h} + {b} && h in Targets(S, p) && b !in Targets(S, p)
            && forall x :: x != p ==> Targets(S', x) == Targets(S, x)
  {
    var S, S' := MovedIn(E, done, h, b), MovedIn(E, done + {p}, h, b);
    assert S' == S - {(p, h)} + {(p, b)};
    NotAnEdge(S, p, h);
    NotAnEdge(S, p, b);
    AddedEdge(S - {(p, h)}, p, b);
    RemovedEdge(S, p, h);
  }

  lemma MoveOut<V>(E: set<(V, V)>, done: set<V>, s: V, t: V, b: V)
    requires (forall e :: e in E ==> e.0 != b && e.1 != b) && s !in done && (t, s) in E && t != b && s != b
    ensures var P, P' := MovedOut(E, done, t, b), MovedOut(E, done + {s}, t, b);
            && Sources(P', s) == Sources(P, s) - {t} + {b} && t in Sources(P, s) && b !in Sources(P, s)
            && forall x :: x != s ==> Sources(P', x) == Sources(P, x)
  {
    var P, P' := MovedOut(E, done, t, b), MovedOut(E, done + {s}, t, b);
    assert P' == P - {(t, s)} + {(b, s)};
    NotAnEdge(P, t, s);
    NotAnEdge(P, b, s);
    AddedEdge(P - {(t, s)}, b, s);
    RemovedEdge(P, t, s);
  }

  /** The predecessors of `head` now precede `b`: the entry for `head` is overwritten in place. */
  method RedirectPredecessors(b: Node, head: Node, ghost live: set<Node>, ghost E: set<(Node, Node)>)
    requires head !in live && b !in live && head != b && Elems(head.predecessors) == Sources(E, head) <= live
    requires NoDup(head.predecessors) && forall e :: e in E ==> e.0 != b && e.1 != b
    requires forall x :: x in live ==> HalfLinked(x, E, E)
    modifies live`successors
    ensures forall x :: x in live ==> HalfLinked(x, MovedIn(E, Sources(E, head), head, b), E)
  {
    hide Targets, NoDup, Sources;
    assert MovedIn(E, {}, head, b) == E && Elems(head.predecessors[..0]) == {};
    var k := 0;
    while k < |head.predecessors|
      invariant 0 <= k <= |head.predecessors|
      invariant forall x :: x in live ==> HalfLinked(x, MovedIn(E, Elems(head.predecessors[..k]), head, b), E)
    {
      var p := head.predecessors[k];
      assert p in Elems(head.predecessors);
      ElemsPrefix(head.predecessors, k);
      NotAnEdge(E, p, head);
      MoveIn(E, Elems(head.predecessors[..k]), p, head, b);
      assert head in Elems(p.successors) && b !in Elems(p.successors);
      if b !in p.successors {
        OverwriteElems(p.successors, head, b);
        p.successors := Overwrite(p.successors, head, b);
      } else {
        assert false;
      }
      k := k + 1;
    }
    assert head.predecessors[..k] == head.predecessors;
  }

  method RedirectSuccessors(b: Node, tail: Node, ghost live: set<Node>, ghost E: set<(Node, Node)>,
                            ghost S: set<(Node, Node)>)
    requires tail !in live && b !in live && tail != b && Elems(tail.successors) == Targets(E, tail) <= live
    requires NoDup(tail.successors) && forall e :: e in E ==> e.0 != b && e.1 != b
    requires forall x :: x in live ==> HalfLinked(x, S, E)
    modifies live`predecessors
    ensures forall x :: x in live ==> HalfLinked(x, S, MovedOut(E, Targets(E, tail), tail, b))
  {
    hide Targets, NoDup, Sources;
    assert MovedOut(E, {}, tail, b) == E && Elems(tail.successors[..0]) == {};
    var k := 0;
    while k < |tail.successors|
      invariant 0 <= k <= |tail.successors|
      invariant forall x :: x in live ==> HalfLinked(x, S, MovedOut(E, Elems(tail.successors[..k]), tail, b))
    {
      var s := tail.successors[k];
      assert s in Elems(tail.successors);
      ElemsPrefix(tail.successors, k);
      NotAnEdge(E, tail, s);
      MoveOut(E, Elems(tail.successors[..k]), s, tail, b);
      assert tail in Elems(s.predecessors) && b !in Elems(s.predecessors);
      if b !in s.predecessors {
        OverwriteElems(s.predecessors, tail, b);
        s.predecessors := Overwrite(s.predecessors, tail, b);
      } else {
        assert false;
      }
      k := k + 1;
    }
    assert tail.successors[..k] == tail.successors;
  }

  lemma MovedIsRewired<V>(E: set<(V, V)>, c: seq<V>, b: V, x: V)
    requires Acyclic(E) && IsChain(E, c) && (forall e :: e in E ==> e.0 != b && e.1 != b) && b !in c
    requires x !in c && x != b
    ensures var h, t := c[0], c[|c| - 1];
            && Targets(MovedIn(E, Sources(E, h), h, b), x) == Targets(Rewired(E, c, b), x)
            && Sources(MovedOut(E, Targets(E, t), t, b), x) == Sources(Rewired(E, c, b), x)
  {
    var h, t := c[0], c[|c| - 1];
    RewiredNeighbours(E, c, b, x);
    NotAnEdge(E, x, h);
    NotAnEdge(E, t, x);
    var S, P := MovedIn(E, Sources(E, h), h, b), MovedOut(E, Targets(E, t), t, b);
    forall y ensures y in Targets(S, x) <==> y in Targets(Rewired(E, c, b), x) {
      NotAnEdge(S, x, y);
      NotAnEdge(E, x, y);
    }
    forall y ensures y in Sources(P, x) <==> y in Sources(Rewired(E, c, b), x) {
      NotAnEdge(P, y, x);
      NotAnEdge(E, y, x);
    }
  }

  lemma BoundaryLive(nodes: set<Node>, E: set<(Node, Node)>, c: seq<Node>, b: Node)
    requires Linked(nodes, E) && Acyclic(E) && IsChain(E, c) && Elems(c) <= nodes && b !in nodes
    ensures c != [] && b !in c && (forall e :: e in E ==> e.0 != b && e.1 != b)
    ensures Sources(E, c[0]) <= nodes - Elems(c) && Targets(E, c[|c| - 1]) <= nodes - Elems(c)
    ensures forall x :: x in nodes ==> HalfLinked(x, E, E)
    ensures c[0] in c && c[|c| - 1] in c && forall x :: x in c ==> x in nodes
  {
    forall x | x in c ensures x in nodes { assert x in Elems(c); }
    forall y | y in Sources(E, c[0]) ensures y in nodes - Elems(c) {
      NotAnEdge(E, y, c[0]);
      EntersChain(E, c, y);
    }
    forall y | y in Targets(E, c[|c| - 1]) ensures y in nodes - Elems(c) {
      NotAnEdge(E, c[|c| - 1], y);
      LeavesChain(E, c, y);
    }
  }

  lemma DetachedOutside(live: set<Node>, E: set<(Node, Node)>, c: seq<Node>, b: Node)
    requires Acyclic(E) && IsChain(E, c) && (forall e :: e in E ==> e.0 != b && e.1 != b) && b !in c
    requires Elems(c) !! live && b !in live && forall e :: e in E ==> e.0 in live + Elems(c) && e.1 in live + Elems(c)
    requires forall x :: x in live ==> HalfLinked(x, MovedIn(E, Sources(E, c[0]), c[0], b),
        MovedOut(E, Targets(E, c[|c| - 1]), c[|c| - 1], b))
    requires HalfLinked(b, set y | y in Targets(E, c[|c| - 1]) :: (b, y), set y | y in Sources(E, c[0]) :: (y, b))
    ensures Linked(live + {b}, Rewired(E, c, b))
  {
    var R := Rewired(E, c, b);
    assert b !in Elems(c);
    forall q | q in R ensures q.0 in live + {b} && q.1 in live + {b} {
      RewiredEdge(E, c, b, q);
      assert q.0 !in Elems(c) && q.1 !in Elems(c);
    }
    forall x | x in live ensures NodeLinked(x, R) {
      assert x !in Elems(c);
      MovedIsRewired(E, c, b, x);
    }
    RewiredNeighbours(E, c, b, b);
    FanIs(Targets(E, c[|c| - 1]), b);
    FanIs(Sources(E, c[0]), b);
  }

  lemma FanIs<V>(S: set<V>, b: V)
    ensures Targets(set y | y in S :: (b, y), b) == S && Sources(set y | y in S :: (y, b), b) == S
  {
    var T, P := set y | y in S :: (b, y), set y | y in S :: (y, b);
    forall y ensures (y in Targets(T, b) <==> y in S) && (y in Sources(P, b) <==> y in S) {
      NotAnEdge(T, b, y);
      NotAnEdge(P, y, b);
    }
  }

  lemma DetachedInside(E: set<(Node, Node)>, c: seq<Node>)
    requires Acyclic(E) && IsChain(E, c)
    requires forall x :: x in c ==> NoDup(x.successors) && NoDup(x.predecessors)
    requires forall x :: x in c ==> Elems(x.successors) == if x == c[|c| - 1] then {} else Targets(E, x)
    requires forall x :: x in c ==> Elems(x.predecessors) == if x == c[0] then {} else Sources(E, x)
    ensures Linked(Elems(c), Inside(E, Elems(c)))
  {
    forall x | x in Elems(c) ensures NodeLinked(x, Inside(E, Elems(c))) {
      var k := IndexOf(c, x);
      ChainInside(E, c, k);
      if k < |c| - 1 { assert Series(E, c[k], c[k + 1]); }
      if k > 0 { assert Series(E, c[k - 1], c[k - 1 + 1]); }
    }
  }

  /** Move the chain's boundary onto `b`; head and tail are left as source and sink of the inside. */
  method DetachBoundary(b: Node, head: Node, tail: Node, ghost c: seq<Node>, ghost nodes: set<Node>,
                        ghost E: set<(Node, Node)>)
    requires Linked(nodes, E) && Acyclic(E) && IsChain(E, c) && Elems(c) <= nodes && b !in nodes
    requires head == c[0] && tail == c[|c| - 1] && b.predecessors == [] && b.successors == []
    modifies nodes`successors, nodes`predecessors, b`successors, b`predecessors
    ensures Linked(nodes - Elems(c) + {b}, Rewired(E, c, b))
    ensures Linked(Elems(c), Inside(E, Elems(c)))
    ensures head.predecessors == [] && tail.successors == []
  {
    hide Acyclic, IsChain, Rewired, Inside;
    ghost var live := nodes - Elems(c);
    BoundaryLive(nodes, E, c, b);
    RedirectPredecessors(b, head, live, E);
    b.predecessors := head.predecessors;
    head.predecessors := [];
    RedirectSuccessors(b, tail, live, E, MovedIn(E, Sources(E, head), head, b));
    b.successors := tail.successors;
    tail.successors := [];
    FanIs(Targets(E, tail), b);
    FanIs(Sources(E, head), b);
    assert live + Elems(c) == nodes;
    DetachedOutside(live, E, c, b);
    DetachedInside(E, c);
  }

  // ---------------------------------------------------------------- collecting a chain

  /** A control node, or a program that is replayed as a spawned task. */
  predicate SeqAble(u: Node)
    reads u`command
  {
    u.kind == EmptyNode || (u.kind == CommandNode && u.command.Prog? && u.command.launch == TaskSpawn)
  }

  predicate IsCand(cg: CommandGraph, u: Node)
    reads cg`entry, cg`exit, u`command
  {
    u != cg.entry && u != cg.exit && SeqAble(u)
  }

  ghost predicate CandsAre(cg: CommandGraph, nodes: set<Node>, cands: set<Node>)
    reads cg`entry, cg`exit, nodes`command
  {
    forall u :: u in nodes ==> (IsCand(cg, u) <==> u in cands)
  }

  /** Is the link from `u` to its only successor a sequence edge? */
  method LinkFrom(cg: CommandGraph, u: Node, ghost nodes: set<Node>, ghost E: set<(Node, Node)>, ghost cands: set<Node>)
    returns (yes: bool)
    requires Linked(nodes, E) && u in nodes && u in cands && CandsAre(cg, nodes, cands)
    ensures yes ==> |u.successors| == 1 && u.successors[0] in nodes
    ensures yes ==> (u, u.successors[0]) in E && IsLink(E, cands, u, u.successors[0])
    ensures !yes ==> forall x :: x in cands && x in nodes ==> !IsLink(E, cands, u, x)
  {
    NodeLists(nodes, E, u);
    if |u.successors| != 1 {
      return false;
    }
    SuccessorEdge(nodes, E, u, 0);
    var nxt := u.successors[0];
    NodeLists(nodes, E, nxt);
    NotAnEdge(E, u, nxt);
    yes := IsCand(cg, nxt) && nxt.device == u.device && |nxt.predecessors| == 1;
  }

  /** A node has a single successor, or predecessor, exactly when its list has length one. */
  lemma NodeLists(nodes: set<Node>, E: set<(Node, Node)>, u: Node)
    requires Linked(nodes, E) && u in nodes
    ensures forall x :: Targets(E, u) == {x} <==> u.successors == [x]
    ensures forall x :: Sources(E, u) == {x} <==> u.predecessors == [x]
  {
    forall x ensures Targets(E, u) == {x} <==> u.successors == [x] {
      SingletonList(u.successors, x);
    }
    forall x ensures Sources(E, u) == {x} <==> u.predecessors == [x] {
      SingletonList(u.predecessors, x);
    }
  }

  lemma SingletonList<V>(s: seq<V>, x: V)
    requires NoDup(s)
    ensures Elems(s) == {x} <==> s == [x]
  {
    if Elems(s) == {x} {
      NoDupSize(s);
      assert s[0] in Elems(s);
    }
  }

  ghost predicate Flagged(flags: seq<bool>, vec: seq<Node>, S: set<Node>) {
    |flags| == |vec| && forall i :: 0 <= i < |vec| ==> (flags[i] <==> vec[i] in S)
  }

  lemma FlagOne(flags: seq<bool>, vec: seq<Node>, S: set<Node>, u: Node)
    requires (forall i :: 0 <= i < |vec| ==> vec[i].iteratorIndex == i) && u in Elems(vec) && Flagged(flags, vec, S)
    ensures u.iteratorIndex < |flags| && Flagged(flags[u.iteratorIndex := true], vec, S + {u})
  {
  }

  lemma ChainGrows(E: set<(Node, Node)>, cands: set<Node>, c: seq<Node>, nxt: Node)
    requires Acyclic(E) && LinkChain(E, cands, c) && IsLink(E, cands, c[|c| - 1], nxt) && (c[|c| - 1], nxt) in E
    ensures LinkChain(E, cands, c + [nxt]) && nxt !in Elems(c) && Elems(c + [nxt]) == Elems(c) + {nxt}
    ensures CommandNodes(c + [nxt]) == CommandNodes(c) + if nxt.kind == CommandNode then 1 else 0
  {
    LinkChainIsChain(E, cands, c);
    LeavesChain(E, c, nxt);
    NoDupSnoc(c, nxt);
    var d := c + [nxt];
    assert d[..|d| - 1] == c;
    forall k | 0 <= k < |d| - 1 ensures IsLink(E, cands, d[k], d[k + 1]) {
      if k < |c| - 1 {
        assert IsLink(E, cands, c[k], c[k + 1]);
      }
    }
  }

  /** Walk forward from `u` along sequence edges, marking every member of the chain. */
  method CollectChain(cg: CommandGraph, u: Node, flags: array<bool>, ghost vec: seq<Node>, ghost nodes: set<Node>,
                      ghost E: set<(Node, Node)>, ghost cands: set<Node>, ghost F: set<Node>)
    returns (tail: Node, ncmd: nat, ghost c: seq<Node>)
    requires Linked(nodes, E) && Acyclic(E) && u in nodes && u in cands && CandsAre(cg, nodes, cands) &&
        cands <= Elems(vec)
    requires forall i :: 0 <= i < |vec| ==> vec[i].iteratorIndex == i
    requires Flagged(flags[..], vec, F)
    modifies flags
    ensures c != [] && c[0] == u && c[|c| - 1] == tail && ncmd == CommandNodes(c)
    ensures LinkChain(E, cands, c) && Elems(c) <= nodes && Elems(c) <= cands
    ensures forall x :: x in cands && x in nodes ==> !IsLink(E, cands, tail, x)
    ensures Flagged(flags[..], vec, F + Elems(c))
  {
    hide Linked, Acyclic, CandsAre, Flagged, IsLink, LinkChain;
    SingleChain(E, cands, u);
    c := [u];
    tail := u;
    ncmd := if u.kind == CommandNode then 1 else 0;
    FlagOne(flags[..], vec, F, u);
    flags[u.iteratorIndex] := true;
    var more := LinkFrom(cg, tail, nodes, E, cands);
    while more
      invariant c != [] && c[0] == u && c[|c| - 1] == tail && ncmd == CommandNodes(c)
      invariant LinkChain(E, cands, c) && Elems(c) <= nodes && Elems(c) <= cands && tail in nodes && tail in cands
      invariant more ==> |tail.successors| == 1 && tail.successors[0] in nodes
      invariant more ==> (tail, tail.successors[0]) in E && IsLink(E, cands, tail, tail.successors[0])
      invariant !more ==> forall x :: x in cands && x in nodes ==> !IsLink(E, cands, tail, x)
      invariant Flagged(flags[..], vec, F + Elems(c))
      decreases nodes - Elems(c), more
    {
      var nxt := tail.successors[0];
      LinkEnds(E, cands, tail, nxt);
      ChainGrows(E, cands, c, nxt);
      FlagOne(flags[..], vec, F + Elems(c), nxt);
      flags[nxt.iteratorIndex] := true;
      if nxt.kind == CommandNode {
        ncmd := ncmd + 1;
      }
      assert F + Elems(c) + {nxt} == F + Elems(c + [nxt]);
      c := c + [nxt];
      tail := nxt;
      more := LinkFrom(cg, tail, nodes, E, cands);
    }
  }

  lemma LinkEnds(E: set<(Node, Node)>, cands: set<Node>, u: Node, v: Node)
    requires IsLink(E, cands, u, v)
    ensures u in cands && v in cands
  {
  }

  lemma SingleChain(E: set<(Node, Node)>, cands: set<Node>, u: Node)
    ensures LinkChain(E, cands, [u]) && Elems([u]) == {u}
    ensures CommandNodes([u]) == if u.kind == CommandNode then 1 else 0
  {
    assert [u][..0] == [];
  }

  // ---------------------------------------------------------------- the pass

  /** One contraction: the chain and the batch node that replaced it. */
  datatype Step = Step(chain: seq<Node>, batch: Node)

  /** The top level after the contractions `steps`. */
  ghost function Collapse(steps: seq<Step>, N: set<Node>, E: set<(Node, Node)>): (set<Node>, set<(Node, Node)>) {
    if steps == [] then (N, E)
    else
      var r, s := Collapse(steps[..|steps| - 1], N, E), steps[|steps| - 1];
      (r.0 - Elems(s.chain) + {s.batch}, Rewired(r.1, s.chain, s.batch))
  }

  /** Every step contracts a chain of original nodes that is a chain at that point, into a node not there before. */
  ghost predicate StepsValid(steps: seq<Step>, N: set<Node>, E: set<(Node, Node)>) {
    steps != [] ==>
      var front, s := steps[..|steps| - 1], steps[|steps| - 1];
      var r := Collapse(front, N, E);
      && StepsValid(front, N, E)
      && IsChain(r.1, s.chain) && Elems(s.chain) <= r.0 * N && s.batch !in N && s.batch !in r.0
  }

  /** The found chains with at least two commands, in the order they were found. */
  ghost function Worthwhile(found: seq<seq<Node>>): seq<seq<Node>> {
    if found == [] then []
    else
      var c := found[|found| - 1];
      Worthwhile(found[..|found| - 1]) + if CommandNodes(c) >= 2 then [c] else []
  }

  ghost function ChainsOf(steps: seq<Step>): seq<seq<Node>> {
    seq(|steps|, i requires 0 <= i < |steps| => steps[i].chain)
  }

  ghost function PathEdges<V>(c: seq<V>): set<(V, V)> {
    set i, j | 0 <= i < |c| && 0 <= j < |c| && j == i + 1 :: (c[i], c[j])
  }

  /** `b` is a command node that replays exactly the chain `c`: its sub-graph reuses the chain's
      nodes and edges, head as entry and tail as exit. */
  ghost predicate SequenceBatch(b: Node, c: seq<Node>)
    reads b`command, if b.command.Batch? then {b.command.graph} else {}
    reads (set x | x in c)`successors, (set x | x in c)`predecessors
  {
    && c != [] && b.kind == CommandNode && b.device == c[0].device && b.command.Batch?
    && var g := b.command.graph;
       && g.isSequence && g.entry == c[0] && g.exit == c[|c| - 1]
       && g.nodes == Elems(c) && g.edges == PathEdges(c)
       && Coherent(Elems(c), PathEdges(c), c[0], c[|c| - 1]) && Linked(Elems(c), PathEdges(c))
  }

  lemma InsideIsPath<V>(E: set<(V, V)>, c: seq<V>)
    requires Acyclic(E) && IsChain(E, c)
    ensures Inside(E, Elems(c)) == PathEdges(c)
  {
    var F := Inside(E, Elems(c));
    forall e | e in F ensures e in PathEdges(c) {
      var k := IndexOf(c, e.0);
      ChainInside(E, c, k);
      NotAnEdge(F, e.0, e.1);
      assert e == (c[k], e.1);
    }
    forall k | 0 <= k < |c| - 1 ensures (c[k], c[k + 1]) in F {
      ChainInside(E, c, k);
      NotAnEdge(F, c[k], c[k + 1]);
    }
  }

  /** Replace the chain by a fresh batch node. */
  method ContractChain(cg: CommandGraph, head: Node, tail: Node, ghost c: seq<Node>) returns (b: Node)
    requires cg.Valid() && IsChain(cg.edges, c) && |c| >= 2 && Elems(c) <= cg.nodes - {cg.entry, cg.exit}
    requires head == c[0] && tail == c[|c| - 1]
    modifies cg`nodes, cg`edges, cg.nodes`successors, cg.nodes`predecessors
    ensures fresh(b) && b.kind == CommandNode && b.command.Batch? && fresh(b.command.graph) && SequenceBatch(b, c) &&
        b.walkId == 0
    ensures cg.nodes == old(cg.nodes) - Elems(c) + {b} && cg.edges == Rewired(old(cg.edges), c, b)
    ensures cg.Valid()
  {
    hide Coherent, Acyclic, IsChain, Rewired, Linked, PathEdges, Inside, SequenceBatch, NoDup;
    CoherentParts(cg.nodes, cg.edges, cg.entry, cg.exit);
    b := new Node(head.device, CommandNode);
    DetachBoundary(b, head, tail, c, cg.nodes, cg.edges);
    RewiredCoherent(cg.nodes, cg.edges, cg.entry, cg.exit, c, b);
    ChainCoherent(cg.edges, c);
    InsideIsPath(cg.edges, c);
    var sub := new CommandGraph.Around(head, tail, Elems(c), PathEdges(c));
    sub.isSequence := true;
    b.command := Batch(sub);
    IsSequenceBatch(b, c);
    cg.nodes, cg.edges := cg.nodes - Elems(c) + {b}, Rewired(cg.edges, c, b);
  }

  lemma IsSequenceBatch(b: Node, c: seq<Node>)
    requires c != [] && b.kind == CommandNode && b.device == c[0].device && b.command.Batch?
    requires var g := b.command.graph;
             && g.isSequence && g.entry == c[0] && g.exit == c[|c| - 1]
             && g.nodes == Elems(c) && g.edges == PathEdges(c)
    requires Coherent(Elems(c), PathEdges(c), c[0], c[|c| - 1]) && Linked(Elems(c), PathEdges(c))
    ensures SequenceBatch(b, c)
  {
  }

  /** What holds of the whole pass between two nodes of the scan. */
  ghost predicate Progress(N0: set<Node>, E0: set<(Node, Node)>, cands: set<Node>, seen: seq<Node>,
                           found: seq<seq<Node>>, steps: seq<Step>, N: set<Node>, E: set<(Node, Node)>)
  {
    && Scanned(N0, E0, cands, seen, found, N, E)
    && ChainsOf(steps) == Worthwhile(found) && (N, E) == Collapse(steps, N0, E0) && StepsValid(steps, N0, E0)
    && (forall s :: s in steps ==> Elems(s.chain) !! N && s.batch !in N0)
    && (forall c :: c in found ==> CommandNodes(c) < 2 ==> Elems(c) <= N)
  }

  lemma StartProgress(N: set<Node>, E: set<(Node, Node)>, cands: set<Node>)
    ensures Progress(N, E, cands, [], [], [], N, E)
  {
  }

  /** A collected chain of less than two commands is recorded and left in place. */
  lemma RecordProgress(N0: set<Node>, E0: set<(Node, Node)>, cands: set<Node>, vec: seq<Node>, i: nat,
                       found: seq<seq<Node>>, steps: seq<Step>, N: set<Node>, E: set<(Node, Node)>, c: seq<Node>)
    requires i < |vec| && Progress(N0, E0, cands, vec[..i], found, steps, N, E)
    requires MaximalChain(E0, cands, c) && c[0] == vec[i] && Elems(c) <= N && CommandNodes(c) < 2
    requires forall d :: d in found ==> Elems(d) !! Elems(c)
    ensures Progress(N0, E0, cands, vec[..i + 1], found + [c], steps, N, E)
  {
    hide MaximalChain, Scanned, Worthwhile;
    ScanRecord(N0, E0, cands, vec, i, found, N, E, c);
    WorthwhileSnoc(found, c);
  }

  /** A longer one is recorded and contracted into `b`. */
  lemma ContractProgress(N0: set<Node>, E0: set<(Node, Node)>, cands: set<Node>, vec: seq<Node>, i: nat,
                         found: seq<seq<Node>>, steps: seq<Step>, N: set<Node>, E: set<(Node, Node)>, c: seq<Node>,
                         b: Node)
    requires i < |vec| && Progress(N0, E0, cands, vec[..i], found, steps, N, E)
    requires MaximalChain(E0, cands, c) && c[0] == vec[i] && Elems(c) <= N && cands <= N0 && CommandNodes(c) >= 2
    requires forall d :: d in found ==> Elems(d) !! Elems(c)
    requires Acyclic(E) && IsChain(E, c) && (forall e :: e in E ==> e.0 != b && e.1 != b) && b !in N0 && b !in N
    ensures Progress(N0, E0, cands, vec[..i + 1], found + [c], steps + [Step(c, b)], N - Elems(c) + {b},
        Rewired(E, c, b))
  {
    hide MaximalChain, Scanned, Rewired, IsChain, Acyclic, Collapse, Worthwhile, ChainsOf, StepsValid;
    var more, all := steps + [Step(c, b)], found + [c];
    ScanRecord(N0, E0, cands, vec, i, found, N, E, c);
    ChainCands(E0, cands, c);
    assert c in all && b !in Elems(c);
    ScanContract(N0, E0, cands, vec[..i + 1], all, N, E, c, b);
    WorthwhileSnoc(found, c);
    StepsSnoc(steps, c, b, N0, E0);
    forall s | s in steps ensures Elems(s.chain) !! N - Elems(c) + {b} {
      StepChainOld(N0, E0, cands, vec[..i], found, steps, N, E, s);
    }
  }

  lemma WorthwhileSnoc(found: seq<seq<Node>>, c: seq<Node>)
    ensures Worthwhile(found + [c]) == if CommandNodes(c) >= 2 then Worthwhile(found) + [c] else Worthwhile(found)
  {
    assert (found + [c])[..|found|] == found;
  }

  lemma StepsSnoc(steps: seq<Step>, c: seq<Node>, b: Node, N: set<Node>, E: set<(Node, Node)>)
    ensures ChainsOf(steps + [Step(c, b)]) == ChainsOf(steps) + [c]
    ensures var r := Collapse(steps, N, E);
            Collapse(steps + [Step(c, b)], N, E) == (r.0 - Elems(c) + {b}, Rewired(r.1, c, b))
    ensures var r := Collapse(steps, N, E);
            StepsValid(steps, N, E) && IsChain(r.1, c) && Elems(c) <= r.0 * N && b !in N && b !in r.0
            ==> StepsValid(steps + [Step(c, b)], N, E)
  {
    var more := steps + [Step(c, b)];
    assert more[..|steps|] == steps;
  }

  lemma StepsApart(N0: set<Node>, E0: set<(Node, Node)>, cands: set<Node>, seen: seq<Node>, found: seq<seq<Node>>,
                   steps: seq<Step>, N: set<Node>, E: set<(Node, Node)>)
    requires Progress(N0, E0, cands, seen, found, steps, N, E)
    ensures forall s :: s in steps ==> Elems(s.chain) !! N
  {
  }

  lemma ChainCands(E0: set<(Node, Node)>, cands: set<Node>, c: seq<Node>)
    requires MaximalChain(E0, cands, c)
    ensures Elems(c) <= cands
  {
    LinkChainIsChain(E0, cands, c);
  }

  lemma {:induction false} WorthwhileFound(found: seq<seq<Node>>, d: seq<Node>)
    ensures d in Worthwhile(found) <==> d in found && CommandNodes(d) >= 2
  {
    if found != [] {
      WorthwhileFound(found[..|found| - 1], d);
      assert found == found[..|found| - 1] + [found[|found| - 1]];
    }
  }

  lemma StepChainOld(N0: set<Node>, E0: set<(Node, Node)>, cands: set<Node>, seen: seq<Node>, found: seq<seq<Node>>,
                     steps: seq<Step>, N: set<Node>, E: set<(Node, Node)>, s: Step)
    requires Progress(N0, E0, cands, seen, found, steps, N, E) && s in steps
    ensures s.chain in found && Elems(s.chain) <= cands
  {
    var i := IndexOf(steps, s);
    assert ChainsOf(steps)[i] == s.chain;
    WorthwhileFound(found, s.chain);
    LinkChainIsChain(E0, cands, s.chain);
  }

  lemma TwoNodesOnly(nodes: set<Node>, a: Node, b: Node)
    requires a in nodes && b in nodes && a != b && |nodes| <= 2
    ensures nodes == {a, b}
  {
    if x :| x in nodes && x != a && x != b {
      assert {a, b, x} <= nodes;
      assert |{a, b, x}| == 3;
      SubsetSize({a, b, x}, nodes);
    }
  }

  lemma {:induction false} SubsetSize<V>(A: set<V>, B: set<V>)
    requires A <= B
    ensures |A| <= |B|
  {
    assert B == A + (B - A);
  }

  lemma AllLinksFound(N0: set<Node>, E0: set<(Node, Node)>, cands: set<Node>, vec: seq<Node>, found: seq<seq<Node>>,
                      N: set<Node>, E: set<(Node, Node)>)
    requires Scanned(N0, E0, cands, vec, found, N, E) && cands <= Elems(vec)
    ensures forall u, v :: u in cands && v in cands && IsLink(E0, cands, u, v) ==>
        exists c :: c in found && u in c && v in c
  {
    forall u, v | u in cands && v in cands && IsLink(E0, cands, u, v)
      ensures exists c :: c in found && u in c && v in c
    {
      assert u in Elems(vec);
      var c :| c in found && u in c;
      MaximalClosed(E0, cands, c, u, v);
    }
  }

  /** One step of the scan: unless `vec[i]` is marked or starts no chain, collect its chain and contract it. */
  method ScanNode(cg: CommandGraph, vec: seq<Node>, i: nat, flags: array<bool>, ghost N0: set<Node>,
                  ghost E0: set<(Node, Node)>, ghost cands: set<Node>, ghost found: seq<seq<Node>>,
                  ghost steps: seq<Step>)
    returns (ghost found': seq<seq<Node>>, ghost steps': seq<Step>)
    requires cg.Valid() && CandsAre(cg, cg.nodes, cands) && cands <= N0 == Elems(vec) && i < |vec|
    requires (forall k :: 0 <= k < |vec| ==> vec[k].iteratorIndex == k) && HasParents(E0, vec) && vec[0] == cg.entry
    requires cg.entry !in cands && cg.exit !in cands
    requires Progress(N0, E0, cands, vec[..i], found, steps, cg.nodes, cg.edges)
    requires Flagged(flags[..], vec, Members(found))
    modifies flags, cg`nodes, cg`edges, cg.nodes`successors, cg.nodes`predecessors
    ensures cg.Valid() && CandsAre(cg, cg.nodes, cands)
    ensures Progress(N0, E0, cands, vec[..i + 1], found', steps', cg.nodes, cg.edges)
    ensures Flagged(flags[..], vec, Members(found'))
    ensures forall u :: u in cg.nodes ==> u in old(cg.nodes) || (fresh(u) && u.walkId == 0)
    ensures forall s :: s in steps' && s !in steps ==>
      (fresh(s.batch) && s.batch.command.Batch? && fresh(s.batch.command.graph) && SequenceBatch(s.batch, s.chain))
  {
    hide Coherent, Linked, Acyclic, HasParents, Progress, Scanned, Flagged, SequenceBatch, Rewired, CandsAre, IsLink,
        LinkChain;
    found', steps' := found, steps;
    var u := vec[i];
    UnmarkedIsLive(N0, E0, cands, vec, i, found, steps, cg.nodes, cg.edges, flags[..]);
    if flags[i] {
      SkipProgress(N0, E0, cands, vec, i, found, steps, cg.nodes, cg.edges);
      return;
    }
    CandMeans(cg, cg.nodes, cands, u);
    var starts := IsCand(cg, u);
    if starts {
      starts := LinkFrom(cg, u, cg.nodes, cg.edges, cands);
    }
    if !starts {
      NoCandNoLink(cg.edges, cands, u);
      SkipProgress(N0, E0, cands, vec, i, found, steps, cg.nodes, cg.edges);
      return;
    }
    CoherentParts(cg.nodes, cg.edges, cg.entry, cg.exit);
    ghost var next := u.successors[0];
    var tail, ncmd;
    ghost var c;
    tail, ncmd, c := CollectChain(cg, u, flags, vec, cg.nodes, cg.edges, cands, Members(found));
    CollectedProgress(N0, E0, cands, vec, i, found, steps, cg.nodes, cg.edges, c, cg.entry, next);
    MembersSnoc(found, c);
    found' := found + [c];
    if ncmd >= 2 {
      LinkChainIsChain(cg.edges, cands, c);
      ghost var N, E := cg.nodes, cg.edges;
      EndsLive(N, E, cg.entry, cg.exit);
      var b := ContractChain(cg, u, tail, c);
      ContractProgress(N0, E0, cands, vec, i, found, steps, N, E, c, b);
      steps' := steps + [Step(c, b)];
      BatchIsNoCand(cg, N, cands, c, b);
    } else {
      RecordProgress(N0, E0, cands, vec, i, found, steps, cg.nodes, cg.edges, c);
    }
  }

  lemma UnmarkedIsLive(N0: set<Node>, E0: set<(Node, Node)>, cands: set<Node>, vec: seq<Node>, i: nat,
                       found: seq<seq<Node>>, steps: seq<Step>, N: set<Node>, E: set<(Node, Node)>, flags: seq<bool>)
    requires i < |vec| && Progress(N0, E0, cands, vec[..i], found, steps, N, E) && Elems(vec) == N0
    requires Flagged(flags, vec, Members(found))
    ensures |flags| == |vec| && (flags[i] <==> vec[i] in Members(found)) && (!flags[i] ==> vec[i] in N)
  {
    assert vec[i] in Elems(vec);
  }

  lemma SkipProgress(N0: set<Node>, E0: set<(Node, Node)>, cands: set<Node>, vec: seq<Node>, i: nat,
                     found: seq<seq<Node>>, steps: seq<Step>, N: set<Node>, E: set<(Node, Node)>)
    requires i < |vec| && Progress(N0, E0, cands, vec[..i], found, steps, N, E) && cands <= N0 == Elems(vec)
    requires vec[i] in Members(found) || forall x :: x in cands && x in N ==> !IsLink(E, cands, vec[i], x)
    ensures Progress(N0, E0, cands, vec[..i + 1], found, steps, N, E)
  {
    assert vec[i] in Elems(vec);
    ScanSkip(N0, E0, cands, vec, i, found, N, E);
  }

  lemma CandMeans(cg: CommandGraph, nodes: set<Node>, cands: set<Node>, u: Node)
    requires CandsAre(cg, nodes, cands) && u in nodes
    ensures IsCand(cg, u) <==> u in cands
  {
  }

  lemma NoCandNoLink(E: set<(Node, Node)>, cands: set<Node>, u: Node)
    ensures u !in cands ==> forall x :: !IsLink(E, cands, u, x)
  {
  }

  /** The collected chain is maximal in the original graph and meets no chain found before. */
  lemma CollectedProgress(N0: set<Node>, E0: set<(Node, Node)>, cands: set<Node>, vec: seq<Node>, i: nat,
                          found: seq<seq<Node>>, steps: seq<Step>, N: set<Node>, E: set<(Node, Node)>, c: seq<Node>,
                          s: Node, next: Node)
    requires i < |vec| && Progress(N0, E0, cands, vec[..i], found, steps, N, E)
    requires HasParents(E0, vec) && vec[0] == s && s !in cands && cands <= N0
    requires c != [] && c[0] == vec[i] && vec[i] !in Members(found) && LinkChain(E, cands, c) && Elems(c) <= N
    requires forall x :: x in cands && x in N ==> !IsLink(E, cands, c[|c| - 1], x)
    requires next in N && IsLink(E, cands, c[0], next)
    ensures |c| >= 2 && MaximalChain(E0, cands, c)
    ensures forall d :: d in found ==> Elems(d) !! Elems(c)
  {
    CollectedMaximal(N0, E0, cands, vec, i, found, N, E, c);
  }

  lemma EndsLive(N: set<Node>, E: set<(Node, Node)>, s: Node, t: Node)
    requires Coherent(N, E, s, t)
    ensures forall e :: e in E ==> e.0 in N && e.1 in N
  {
  }

  lemma BatchIsNoCand(cg: CommandGraph, N: set<Node>, cands: set<Node>, c: seq<Node>, b: Node)
    requires CandsAre(cg, N, cands) && b.kind == CommandNode && b.command.Batch? && b !in cands
    ensures CandsAre(cg, N - Elems(c) + {b}, cands)
  {
  }

  // ---------------------------------------------------------------- on the fields of the nodes

  /** A command node over a program that is replayed as a spawned task. */
  ghost predicate Spawned(u: Node)
    reads u`command
  {
    u.kind == CommandNode && u.command.Prog? && u.command.launch == TaskSpawn
  }

  /** The candidates among `N` are the inner control nodes and the spawned tasks. */
  ghost predicate TasksAre(N: set<Node>, s: Node, t: Node, cands: set<Node>)
    reads N`command
  {
    cands <= N && forall u :: u in N ==> (u in cands <==> u != s && u != t && (u.kind == EmptyNode || Spawned(u)))
  }

  lemma CandsAreTasks(cg: CommandGraph, cands: set<Node>)
    requires cands == set u | u in cg.nodes && IsCand(cg, u)
    ensures TasksAre(cg.nodes, cg.entry, cg.exit, cands)
  {
  }

  /** A batch holds only control nodes and spawned tasks, and two tasks at least. */
  ghost predicate HoldsTasks(b: Node, s: Node, t: Node)
    reads b, if b.command.Batch? then {b.command.graph} else {}
    reads (if b.command.Batch? then b.command.graph.nodes else {})`command
  {
    && b.command.Batch?
    && (forall u :: u in b.command.graph.nodes ==> u != s && u != t && (u.kind == EmptyNode || Spawned(u)))
    && exists u, v :: u in b.command.graph.nodes && v in b.command.graph.nodes && u != v && Spawned(u) && Spawned(v)
  }

  /** No two inner tasks of one device are each other's only neighbour on that side. */
  ghost predicate TasksApart(cg: CommandGraph)
    reads cg, cg.nodes`command, cg.nodes`successors, cg.nodes`predecessors
  {
    forall u, v :: u in cg.nodes - {cg.entry, cg.exit} && v in cg.nodes - {cg.entry, cg.exit} ==>
      u.device == v.device && Spawned(u) && Spawned(v) ==> !(u.successors == [v] && v.predecessors == [u])
  }

  lemma {:induction false} TwoCommands(c: seq<Node>)
    requires NoDup(c)
    ensures CommandNodes(c) >= 1 ==> exists u :: u in c && u.kind == CommandNode
    ensures CommandNodes(c) >= 2 ==> exists u, v :: u in c && v in c && u != v && u.kind == v.kind == CommandNode
  {
    if c != [] {
      var front, x := c[..|c| - 1], c[|c| - 1];
      assert c == front + [x] && forall y :: y in front ==> y in c && y != x;
      TwoCommands(front);
    }
  }

  lemma StepHoldsTasks(N: set<Node>, E: set<(Node, Node)>, s: Node, t: Node, cands: set<Node>, x: Step)
    requires TasksAre(N, s, t, cands) && MaximalChain(E, cands, x.chain) && CommandNodes(x.chain) >= 2
    requires SequenceBatch(x.batch, x.chain)
    ensures HoldsTasks(x.batch, s, t)
  {
    ChainCands(E, cands, x.chain);
    TwoCommands(x.chain);
    assert x.batch.command.graph.nodes == Elems(x.chain);
    var u, v :| u in x.chain && v in x.chain && u != v && u.kind == v.kind == CommandNode;
    assert u in Elems(x.chain) && v in Elems(x.chain);
  }

  lemma AllHoldTasks(N: set<Node>, E: set<(Node, Node)>, s: Node, t: Node, cands: set<Node>, found: seq<seq<Node>>,
                     steps: seq<Step>)
    requires TasksAre(N, s, t, cands) && ChainsOf(steps) == Worthwhile(found)
    requires forall c :: c in found ==> MaximalChain(E, cands, c)
    requires forall x :: x in steps ==> SequenceBatch(x.batch, x.chain)
    ensures forall x :: x in steps ==> HoldsTasks(x.batch, s, t)
  {
    hide TasksAre, MaximalChain, SequenceBatch, HoldsTasks, CommandNodes, Worthwhile;
    forall x | x in steps ensures HoldsTasks(x.batch, s, t) {
      assert ChainsOf(steps)[IndexOf(steps, x)] == x.chain;
      WorthwhileFound(found, x.chain);
      StepHoldsTasks(N, E, s, t, cands, x);
    }
  }

  /** Two live tasks in series would be in a chain of two commands, and that was contracted. */
  lemma LiveApart(N0: set<Node>, E0: set<(Node, Node)>, s: Node, t: Node, cands: set<Node>, vec: seq<Node>,
                  found: seq<seq<Node>>, steps: seq<Step>, N: set<Node>, E: set<(Node, Node)>, u: Node, v: Node)
    requires TasksAre(N0, s, t, cands) && Progress(N0, E0, cands, vec, found, steps, N, E) && cands <= Elems(vec)
    requires u in cands && v in cands && u in N && v in N && Spawned(u) && Spawned(v) && u.device == v.device
    requires Acyclic(E0)
    ensures !Series(E, u, v)
  {
    hide MaximalChain, Worthwhile, ChainsOf, Collapse, StepsValid;
    if Series(E, u, v) {
      assert IsLink(E, cands, u, v);
      assert IsLink(E0, cands, u, v);
      AllLinksFound(N0, E0, cands, vec, found, N, E);
      var c :| c in found && u in c && v in c;
      LinkIsProper(E0, cands, u, v);
      ChainOfTasks(E0, cands, c, u, v);
      WorthwhileFound(found, c);
      StepOfChain(steps, Worthwhile(found), c);
    }
  }

  lemma LinkIsProper(E: set<(Node, Node)>, cands: set<Node>, u: Node, v: Node)
    requires Acyclic(E) && IsLink(E, cands, u, v)
    ensures u != v
  {
    SeriesEdge(E, u, v);
    NoSelfLoop(E, u);
  }

  lemma ChainOfTasks(E: set<(Node, Node)>, cands: set<Node>, c: seq<Node>, u: Node, v: Node)
    requires MaximalChain(E, cands, c) && u in c && v in c && u != v && u.kind == v.kind == CommandNode
    ensures CommandNodes(c) >= 2
  {
    CountedTwice(c, u, v);
  }

  lemma {:induction false} CountedOnce(c: seq<Node>, u: Node)
    requires u in c && u.kind == CommandNode
    ensures CommandNodes(c) >= 1
  {
    var front, x := c[..|c| - 1], c[|c| - 1];
    assert c == front + [x];
    if x != u {
      CountedOnce(front, u);
    }
  }

  lemma {:induction false} CountedTwice(c: seq<Node>, u: Node, v: Node)
    requires u in c && v in c && u != v && u.kind == v.kind == CommandNode
    ensures CommandNodes(c) >= 2
  {
    var front, x := c[..|c| - 1], c[|c| - 1];
    assert c == front + [x];
    if x == u {
      CountedOnce(front, v);
    } else if x == v {
      CountedOnce(front, u);
    } else {
      CountedTwice(front, u, v);
    }
  }

  lemma StepOfChain(steps: seq<Step>, chains: seq<seq<Node>>, c: seq<Node>)
    requires ChainsOf(steps) == chains && c in chains
    ensures exists x :: x in steps && x.chain == c
  {
    var i := IndexOf(chains, c);
    assert ChainsOf(steps)[i] == steps[i].chain && steps[i] in steps;
  }

  lemma AllTasksApart(cg: CommandGraph, N0: set<Node>, E0: set<(Node, Node)>, cands: set<Node>, vec: seq<Node>,
                      found: seq<seq<Node>>, steps: seq<Step>)
    requires cg.Valid() && TasksAre(N0, cg.entry, cg.exit, cands) && CandsAre(cg, cg.nodes, cands) && Acyclic(E0)
    requires Progress(N0, E0, cands, vec, found, steps, cg.nodes, cg.edges) && cands <= Elems(vec)
    ensures TasksApart(cg)
  {
    hide Progress, TasksAre, Coherent, Linked, Acyclic;
    assert Linked(cg.nodes, cg.edges);
    forall u, v | u in cg.nodes - {cg.entry, cg.exit} && v in cg.nodes - {cg.entry, cg.exit} &&
        u.device == v.device && Spawned(u) && Spawned(v)
      ensures !(u.successors == [v] && v.predecessors == [u])
    {
      LiveApart(N0, E0, cg.entry, cg.exit, cands, vec, found, steps, cg.nodes, cg.edges, u, v);
      NodeLists(cg.nodes, cg.edges, u);
      NodeLists(cg.nodes, cg.edges, v);
    }
  }

  lemma NoTasks(cg: CommandGraph)
    requires cg.nodes == {cg.entry, cg.exit}
    ensures TasksApart(cg)
  {
  }

  method PassSequence(cg: CommandGraph) returns (ghost cands: set<Node>, ghost found: seq<seq<Node>>,
                      ghost steps: seq<Step>)
    requires cg.Valid() && cg.Fresh()
    modifies cg`walkId, cg`nodes, cg`edges, cg.nodes`walkId, cg.nodes`iteratorIndex, cg.nodes`successors,
        cg.nodes`predecessors
    ensures cg.Valid()
    ensures cands == set u | u in old(cg.nodes) && old(IsCand(cg, u))
    ensures forall c :: c in found ==> MaximalChain(old(cg.edges), cands, c)
    ensures forall a, b :: 0 <= a < b < |found| ==> Elems(found[a]) !! Elems(found[b])
    ensures forall u, v :: u in cands && v in cands && IsLink(old(cg.edges), cands, u, v) ==>
        exists c :: c in found && u in c && v in c
    ensures ChainsOf(steps) == Worthwhile(found)
    ensures (cg.nodes, cg.edges) == Collapse(steps, old(cg.nodes), old(cg.edges))
    ensures StepsValid(steps, old(cg.nodes), old(cg.edges))
    ensures forall s :: s in steps ==> fresh(s.batch) && SequenceBatch(s.batch, s.chain)
    ensures forall s :: s in steps ==> s.batch.command.Batch? && fresh(s.batch.command.graph)
    ensures cg.walkId == NextWalkId(old(cg.walkId)) && cg.entry == old(cg.entry) && cg.exit == old(cg.exit)
    ensures cg.Fresh() <==> steps == [] || NextWalkId(cg.walkId) != 0
    ensures TasksApart(cg) && forall s :: s in steps ==> HoldsTasks(s.batch, cg.entry, cg.exit)
  {
    hide Coherent, Linked, Acyclic, HasParents, Scanned, Flagged, SequenceBatch, Rewired, MaximalChain, IsLink,
        Progress, CandsAre, HoldsTasks, TasksAre, TasksApart;
    ghost var N0, E0 := cg.nodes, cg.edges;
    cands := set u | u in cg.nodes && IsCand(cg, u);
    found, steps := [], [];
    StartProgress(N0, E0, cands);
    CandsAreAll(cg, cands);
    CandsAreTasks(cg, cands);
    CoherentParts(cg.nodes, cg.edges, cg.entry, cg.exit);
    var vec := cg.CreateNodeIterators(true);
    if |vec| <= 2 {
      NoDupSize(vec);
      TwoNodesOnly(cg.nodes, cg.entry, cg.exit);
      ProgressEmpty(N0, E0, cands, cg.entry, cg.exit);
      NextIsOther(cg.walkId);
      NoTasks(cg);
      return;
    }
    found, steps := ScanAll(cg, vec, N0, E0, cands);
    assert cg.Fresh() <==> steps == [] || NextWalkId(cg.walkId) != 0 by {
      CollapsedNodes(N0, E0, cands, vec, found, steps, cg.nodes, cg.edges);
      NextIsOther(cg.walkId);
    }
    ProgressFound(N0, E0, cands, vec, found, steps, cg.nodes, cg.edges);
    AllHoldTasks(N0, E0, cg.entry, cg.exit, cands, found, steps);
    AllTasksApart(cg, N0, E0, cands, vec, found, steps);
  }

  lemma NextIsOther(id: WalkId)
    ensures NextWalkId(id) != id
  {
  }

  /** The last batch is live, and none of the original nodes; without batches the nodes are the original ones. */
  lemma CollapsedNodes(N0: set<Node>, E0: set<(Node, Node)>, cands: set<Node>, seen: seq<Node>, found: seq<seq<Node>>,
                       steps: seq<Step>, N: set<Node>, E: set<(Node, Node)>)
    requires Progress(N0, E0, cands, seen, found, steps, N, E)
    ensures if steps == [] then N == N0 else steps[|steps| - 1].batch in N && steps[|steps| - 1].batch !in N0
  {
  }

  method ScanAll(cg: CommandGraph, vec: seq<Node>, ghost N0: set<Node>, ghost E0: set<(Node, Node)>,
                 ghost cands: set<Node>)
    returns (ghost found: seq<seq<Node>>, ghost steps: seq<Step>)
    requires cg.Valid() && cg.nodes == N0 && cg.edges == E0
    requires CandsAre(cg, N0, cands) && cands <= N0 == Elems(vec) && cg.entry !in cands && cg.exit !in cands
    requires vec != [] && (forall k :: 0 <= k < |vec| ==> vec[k].iteratorIndex == k) && HasParents(E0, vec) &&
        vec[0] == cg.entry
    modifies cg`nodes, cg`edges, cg.nodes`successors, cg.nodes`predecessors
    ensures cg.Valid() && Progress(N0, E0, cands, vec, found, steps, cg.nodes, cg.edges) &&
        CandsAre(cg, cg.nodes, cands)
    ensures forall s :: s in steps ==> fresh(s.batch) && SequenceBatch(s.batch, s.chain)
    ensures forall s :: s in steps ==> s.batch.command.Batch? && fresh(s.batch.command.graph)
    ensures forall u :: u in cg.nodes ==> u in N0 || u.walkId == 0
  {
    hide Coherent, Linked, Acyclic, HasParents, Scanned, Flagged, SequenceBatch, Rewired, MaximalChain, IsLink,
        Progress, CandsAre;
    found, steps := [], [];
    StartProgress(N0, E0, cands);
    var flags := new bool[|vec|](_ => false);
    NothingFlagged(flags[..], vec);
    var i := 0;
    while i < |vec|
      invariant 0 <= i <= |vec|
      invariant cg.Valid() && CandsAre(cg, cg.nodes, cands)
      invariant Progress(N0, E0, cands, vec[..i], found, steps, cg.nodes, cg.edges)
      invariant Flagged(flags[..], vec, Members(found))
      invariant forall u :: u in cg.nodes ==> u in N0 || (fresh(u) && u.walkId == 0)
      invariant forall s :: s in steps ==>
          fresh(s.batch) && s.batch.command.Batch? && fresh(s.batch.command.graph) && SequenceBatch(s.batch, s.chain)
    {
      StepsApart(N0, E0, cands, vec[..i], found, steps, cg.nodes, cg.edges);
      ghost var found', steps' := ScanNode(cg, vec, i, flags, N0, E0, cands, found, steps);
      found, steps := found', steps';
      i := i + 1;
    }
    assert vec[..i] == vec;
  }

  lemma CandsAreAll(cg: CommandGraph, cands: set<Node>)
    requires cands == set u | u in cg.nodes && IsCand(cg, u)
    ensures CandsAre(cg, cg.nodes, cands) && cands <= cg.nodes && cg.entry !in cands && cg.exit !in cands
  {
  }

  lemma ProgressEmpty(N: set<Node>, E: set<(Node, Node)>, cands: set<Node>, s: Node, t: Node)
    requires N == {s, t} && cands <= N && s !in cands && t !in cands
    ensures cands == {} && Collapse([], N, E) == (N, E) && StepsValid([], N, E) && ChainsOf([]) == Worthwhile([])
  {
  }

  lemma NothingFlagged(flags: seq<bool>, vec: seq<Node>)
    requires |flags| == |vec| && forall i :: 0 <= i < |flags| ==> !flags[i]
    ensures Flagged(flags, vec, Members([]))
  {
  }

  lemma ProgressFound(N0: set<Node>, E0: set<(Node, Node)>, cands: set<Node>, vec: seq<Node>, found: seq<seq<Node>>,
                      steps: seq<Step>, N: set<Node>, E: set<(Node, Node)>)
    requires Progress(N0, E0, cands, vec, found, steps, N, E) && cands <= Elems(vec)
    ensures forall c :: c in found ==> MaximalChain(E0, cands, c)
    ensures forall a, b :: 0 <= a < b < |found| ==> Elems(found[a]) !! Elems(found[b])
    ensures forall u, v :: u in cands && v in cands && IsLink(E0, cands, u, v) ==>
        exists c :: c in found && u in c && v in c
    ensures ChainsOf(steps) == Worthwhile(found)
    ensures (N, E) == Collapse(steps, N0, E0) && StepsValid(steps, N0, E0)
  {
    AllLinksFound(N0, E0, cands, vec, found, N, E);
  }
}
