/** When the POD batch pass keeps the order of the commands, and the graphs on which it does not. */
module PodBatchOrder {
  import opened CommandGraphs
  import opened Digraphs
  import opened Islands
  import opened Numberings
  import opened Plans
  import opened PodBatch
  import opened PodBatchPass
  import opened PodIslands
  import opened QuotientCoherence
  import opened Quotients

  /** The island with root `r` has the two commands that make it a batch. */
  ghost predicate Worth(vec: seq<Node>, cand: seq<bool>, cls: seq<nat>, r: nat)
    requires |vec| == |cand| == |cls|
  {
    TwoCommands(MembersOf(vec, cand, cls, r, |vec|))
  }

  /** The class of a node when only islands with two commands are contracted: its island, or itself. */
  ghost function KeptClass(vec: seq<Node>, cand: seq<bool>, cls: seq<nat>): Node -> (bool, nat)
    requires |vec| == |cand| == |cls|
  {
    (x: Node) =>
      var i := Number(vec)(x);
      if i < |vec| && cand[i] && Worth(vec, cand, cls, cls[i]) then (true, cls[i]) else (false, i)
  }

  /** The result is a command graph exactly when contracting just the islands with two commands closes no cycle. */
  lemma AcyclicExactly(vec: seq<Node>, N: set<Node>, E: set<(Node, Node)>, cand: seq<bool>, dev: seq<DeviceId>,
                       flood: seq<nat>, cls: seq<nat>, mats: seq<Island>, h: Node -> Node)
    requires NoDup(vec) && Elems(vec) == N && Grouping(vec, E, cand, dev, flood, cls, mats)
    requires Partitions(mats, N, h) && Represents(h, N) && Acyclic(E) && Spans(E, N)
    ensures Acyclic(Quotient(E, h)) <==> Acyclic(Quotient(E, KeptClass(vec, cand, cls)))
  {
    var c := KeptClass(vec, cand, cls);
    forall x, y | x in N && y in N ensures h(x) == h(y) <==> c(x) == c(y) {
      SameKept(vec, N, E, cand, dev, flood, cls, mats, h, IndexOf(vec, x), IndexOf(vec, y));
      NumberAt(vec, IndexOf(vec, x));
      NumberAt(vec, IndexOf(vec, y));
    }
    SameClassesSameCycles(N, E, h, c);
  }

  /** Class functions with the same classes make the same contraction, up to names. */
  lemma SameClassesSameCycles<X, Y>(N: set<Node>, E: set<(Node, Node)>, f: Node -> X, g: Node -> Y)
    requires (forall e :: e in E ==> e.0 in N && e.1 in N) && Acyclic(E)
    requires forall x, y :: x in N && y in N ==> (f(x) == f(y) <==> g(x) == g(y))
    ensures Acyclic(Quotient(E, f)) <==> Acyclic(Quotient(E, g))
  {
    var fs, gs := set x | x in N :: f(x), set x | x in N :: g(x);
    if Acyclic(Quotient(E, f)) {
      DissolveAcyclic(N, E, f, fs, g);
    }
    if Acyclic(Quotient(E, g)) {
      DissolveAcyclic(N, E, g, gs, f);
    }
  }

  lemma SameKept(vec: seq<Node>, N: set<Node>, E: set<(Node, Node)>, cand: seq<bool>, dev: seq<DeviceId>,
                 flood: seq<nat>, cls: seq<nat>, mats: seq<Island>, h: Node -> Node, a: nat, b: nat)
    requires NoDup(vec) && Elems(vec) == N && Grouping(vec, E, cand, dev, flood, cls, mats)
    requires Partitions(mats, N, h) && Represents(h, N) && a < |vec| == |cand| == |cls| && b < |vec|
    ensures h(vec[a]) == h(vec[b]) <==>
        a == b || (cls[a] == cls[b] && cand[a] && cand[b] && Worth(vec, cand, cls, cls[a]))
    ensures NoDup(vec) && h(vec[a]) == h(vec[b]) <==>
        KeptClass(vec, cand, cls)(vec[a]) == KeptClass(vec, cand, cls)(vec[b])
  {
    NumberAt(vec, a);
    NumberAt(vec, b);
    hide *;
    if a != b {
      if h(vec[a]) == h(vec[b]) {
        SharedBatch(vec, N, E, cand, dev, flood, cls, mats, h, a, b);
      }
      if cls[a] == cls[b] && cand[a] && cand[b] && Worth(vec, cand, cls, cls[a]) {
        SharedRoot(vec, N, E, cand, dev, flood, cls, mats, h, a, b);
      }
    }
    KeptAt(vec, cand, cls, a);
    KeptAt(vec, cand, cls, b);
  }

  lemma KeptAt(vec: seq<Node>, cand: seq<bool>, cls: seq<nat>, a: nat)
    requires |vec| == |cand| == |cls| && NoDup(vec) && a < |vec|
    ensures KeptClass(vec, cand, cls)(vec[a]) == if cand[a] &&
        Worth(vec, cand, cls, cls[a]) then (true, cls[a]) else (false, a)
  {
    NumberAt(vec, a);
  }

  /** Every island of several nodes has the two commands that make it a batch. */
  ghost predicate AllWorth(vec: seq<Node>, cand: seq<bool>, cls: seq<nat>) {
    && |vec| == |cand| == |cls|
    && forall a: nat, b: nat :: a < b < |cls| && cls[a] == cls[b] ==> Worth(vec, cand, cls, cls[a])
  }

  /** When every flood-fill island of several nodes has two commands, the result is a command graph exactly when
      the flood-fill closes no cycle: folding twins and building batches never make a difference. */
  lemma FloodExactly(vec: seq<Node>, N: set<Node>, E: set<(Node, Node)>, cand: seq<bool>, dev: seq<DeviceId>,
                     flood: seq<nat>, cls: seq<nat>, mats: seq<Island>, h: Node -> Node)
    requires NoDup(vec) && Elems(vec) == N && Grouping(vec, E, cand, dev, flood, cls, mats)
    requires Partitions(mats, N, h) && Represents(h, N) && Acyclic(E) && Spans(E, N) && AllWorth(vec, cand, flood)
    ensures Acyclic(Quotient(E, h)) <==> Acyclic(Quotient(E, ClassOf(vec, flood)))
  {
    hide Quotient, Acyclic, Detected, Chosen, Partitions, Represents, AllWorth, ClassOf, NoDup;
    var f, c := ClassOf(vec, flood), ClassOf(vec, cls);
    forall x, y | x in N && y in N ensures (f(x) == f(y) ==> h(x) == h(y)) && (h(x) == h(y) ==> c(x) == c(y)) {
      FloodBelow(vec, N, E, cand, dev, flood, cls, mats, h, x, y);
    }
    forall e | e in E && c(e.0) == c(e.1) ensures f(e.0) == f(e.1) {
      FloodApart(vec, E, cand, dev, flood, cls, e);
    }
    assert Acyclic(Quotient(E, c)) <==> Acyclic(Quotient(E, f)) by {
      SameCycles(vec, E, cand, dev, flood, cls);
    }
    if Acyclic(Quotient(E, h)) {
      SplitAcyclic(N, E, f, h);
    }
    if Acyclic(Quotient(E, c)) {
      SplitAcyclic(N, E, h, c);
    }
  }

  lemma SameCycles(vec: seq<Node>, E: set<(Node, Node)>, cand: seq<bool>, dev: seq<DeviceId>, flood: seq<nat>,
                   cls: seq<nat>)
    requires NoDup(vec) && Spans(E, Elems(vec)) && Acyclic(E) && Detected(vec, E, cand, dev, flood, cls)
    ensures Acyclic(Quotient(E, ClassOf(vec, cls))) <==> Acyclic(Quotient(E, ClassOf(vec, flood)))
  {
    GroupsCompose(vec, E, flood);
    GroupsCompose(vec, E, cls);
  }

  /** What the flood-fill puts together stays together in the result, and what the result puts together the
      detection did. */
  lemma FloodBelow(vec: seq<Node>, N: set<Node>, E: set<(Node, Node)>, cand: seq<bool>, dev: seq<DeviceId>,
                   flood: seq<nat>, cls: seq<nat>, mats: seq<Island>, h: Node -> Node, x: Node, y: Node)
    requires NoDup(vec) && Elems(vec) == N && Grouping(vec, E, cand, dev, flood, cls, mats)
    requires Partitions(mats, N, h) && Represents(h, N) && AllWorth(vec, cand, flood) && x in N && y in N
    ensures ClassOf(vec, flood)(x) == ClassOf(vec, flood)(y) ==> h(x) == h(y)
    ensures h(x) == h(y) ==> ClassOf(vec, cls)(x) == ClassOf(vec, cls)(y)
  {
    var a, b := IndexOf(vec, x), IndexOf(vec, y);
    DetectedLengths(vec, E, cand, dev, flood, cls);
    SameKept(vec, N, E, cand, dev, flood, cls, mats, h, a, b);
    ClassAt(vec, flood, a);
    ClassAt(vec, flood, b);
    ClassAt(vec, cls, a);
    ClassAt(vec, cls, b);
    if a != b && flood[a] == flood[b] {
      WorthStays(vec, E, cand, dev, flood, cls, a, b);
    }
  }

  lemma DetectedLengths(vec: seq<Node>, E: set<(Node, Node)>, cand: seq<bool>, dev: seq<DeviceId>, flood: seq<nat>,
                        cls: seq<nat>)
    requires Detected(vec, E, cand, dev, flood, cls)
    ensures |vec| == |cand| == |dev| == |flood| == |cls|
  {
  }

  /** An island only gains members. */
  lemma WorthStays(vec: seq<Node>, E: set<(Node, Node)>, cand: seq<bool>, dev: seq<DeviceId>, flood: seq<nat>,
                   cls: seq<nat>, a: nat, b: nat)
    requires NoDup(vec) && Detected(vec, E, cand, dev, flood, cls) && AllWorth(vec, cand, flood)
    requires a < |vec| && b < |vec| && a != b && |flood| == |vec| == |cls| && flood[a] == flood[b]
    ensures |cand| == |vec| && cls[a] == cls[b] && cand[a] && cand[b] && Worth(vec, cand, cls, cls[a])
  {
    hide Quotient, Joins, Links, NoTwins, Acyclic;
    UniformRoots(cls, cand, dev, a, b);
    assert Worth(vec, cand, flood, flood[a]) by {
      assert if a < b then Worth(vec, cand, flood, flood[a]) else Worth(vec, cand, flood, flood[b]);
    }
    RootInRange(cls, cand, dev, a);
    assert MembersOf(vec, cand, flood, flood[a], |vec|) <= MembersOf(vec, cand, cls, cls[a], |vec|);
  }

  lemma FloodApart(vec: seq<Node>, E: set<(Node, Node)>, cand: seq<bool>, dev: seq<DeviceId>, flood: seq<nat>,
                   cls: seq<nat>, e: (Node, Node))
    requires NoDup(vec) && Spans(E, Elems(vec)) && Acyclic(E) && Detected(vec, E, cand, dev, flood, cls) && e in E
    requires ClassOf(vec, cls)(e.0) == ClassOf(vec, cls)(e.1)
    ensures ClassOf(vec, flood)(e.0) == ClassOf(vec, flood)(e.1)
  {
    assert e.0 in Elems(vec) && e.1 in Elems(vec);
    var a, b := IndexOf(vec, e.0), IndexOf(vec, e.1);
    NoSelfLoop(E, e.0);
    forall e | e in E ensures e.0 in vec && e.1 in vec && e.0 != e.1 {
      assert e.0 in Elems(vec) && e.1 in Elems(vec) && e == (e.0, e.1);
      NoSelfLoop(E, e.0);
    }
    NumberedEdge(vec, E, a, b);
    ClassAt(vec, flood, a);
    ClassAt(vec, flood, b);
    ClassAt(vec, cls, a);
    ClassAt(vec, cls, b);
    assert (a, b) in Quotient(E, Number(vec)) && Group(cls)((a, b).0) == Group(cls)((a, b).1);
  }

  /** With nothing but commands to group that is always so. */
  lemma CommandsAreWorth(vec: seq<Node>, E: set<(Node, Node)>, cand: seq<bool>, dev: seq<DeviceId>, flood: seq<nat>,
                         cls: seq<nat>)
    requires NoDup(vec) && Detected(vec, E, cand, dev, flood, cls)
    requires forall k :: 0 <= k < |vec| && cand[k] ==> vec[k].kind == CommandNode
    ensures AllWorth(vec, cand, flood)
  {
    hide Quotient, Joins, Links, NoTwins, MembersOf;
    forall a: nat, b: nat | a < b < |flood| && flood[a] == flood[b] ensures Worth(vec, cand, flood, flood[a]) {
      UniformRoots(cls, cand, dev, a, b);
      MemberIs(vec, cand, flood, flood[a], a);
      MemberIs(vec, cand, flood, flood[a], b);
      assert vec[a] != vec[b];
    }
  }

  lemma SharedBatch(vec: seq<Node>, N: set<Node>, E: set<(Node, Node)>, cand: seq<bool>, dev: seq<DeviceId>,
                    flood: seq<nat>, cls: seq<nat>, mats: seq<Island>, h: Node -> Node, a: nat, b: nat)
    requires NoDup(vec) && Elems(vec) == N && Grouping(vec, E, cand, dev, flood, cls, mats)
    requires Partitions(mats, N, h) && Represents(h, N) && a < |vec| == |cls| && b < |vec| && a != b &&
        h(vec[a]) == h(vec[b])
    ensures |cand| == |vec| && cls[a] == cls[b] && cand[a] && cand[b] && Worth(vec, cand, cls, cls[a])
  {
    assert vec[a] in N && vec[b] in N && vec[a] != vec[b];
    var i :| i in mats && h(vec[a]) == i.batch;
    assert vec[a] in Elems(i.members) && vec[b] in Elems(i.members);
    hide Partitions, Detected, Represents;
    MemberIs(vec, cand, cls, i.root, a);
    MemberIs(vec, cand, cls, i.root, b);
  }

  lemma SharedRoot(vec: seq<Node>, N: set<Node>, E: set<(Node, Node)>, cand: seq<bool>, dev: seq<DeviceId>,
                   flood: seq<nat>, cls: seq<nat>, mats: seq<Island>, h: Node -> Node, a: nat, b: nat)
    requires NoDup(vec) && Elems(vec) == N && Grouping(vec, E, cand, dev, flood, cls, mats)
    requires Partitions(mats, N, h) && a < |vec| == |cand| == |cls| && b < |vec|
    requires cls[a] == cls[b] && cand[a] && cand[b] && Worth(vec, cand, cls, cls[a])
    ensures h(vec[a]) == h(vec[b])
  {
    RootInRange(cls, cand, dev, a);
    var r: nat := cls[a];
    MemberIs(vec, cand, cls, r, a);
    MemberIs(vec, cand, cls, r, b);
    hide Detected, MembersOf;
    var i :| i in mats && i.root == r;
    assert vec[a] in Elems(i.members) && vec[b] in Elems(i.members);
  }

  lemma RootInRange(cls: seq<nat>, cand: seq<bool>, dev: seq<DeviceId>, a: nat)
    requires Uniform(cls, cand, dev) && a < |cls|
    ensures cls[a] < |cls|
  {
  }

  lemma UniformRoots(cls: seq<nat>, cand: seq<bool>, dev: seq<DeviceId>, a: nat, b: nat)
    requires Uniform(cls, cand, dev) && a < |cls| && b < |cls| && a != b && cls[a] == cls[b]
    ensures cand[a] && cand[b] && cls[a] < |cls|
  {
  }

  // ------------------------------------------------------------ order

  /** A walk along inner edges never leaves its island. */
  lemma {:induction false} InsideSteps(E: set<(Node, Node)>, h: Node -> Node, S: set<Node>, k: nat, u: Node, v: Node)
    requires Steps(Inner(E, h), k, u, v) && u in S
    requires forall e :: e in Inner(E, h) && e.0 in S ==> e.1 in S
    ensures Steps(Inside(E, S), k, u, v)
  {
    if k > 0 {
      var e :| e in Inner(E, h) && e.0 == u && Steps(Inner(E, h), k - 1, e.1, v);
      InsideSteps(E, h, S, k - 1, e.1, v);
      assert e in Inside(E, S);
    }
  }

  /** A batched graph that is a command graph again puts every command after all it depends on: through
      the top level when they ended up apart, through the batch's sub-graph when they share one. */
  lemma BatchKeepsOrder(cg: CommandGraph, N: set<Node>, E: set<(Node, Node)>, vec: seq<Node>, flood: seq<nat>,
                        mats: seq<Island>, h: Node -> Node, u: Node, v: Node)
    requires Batched(cg, N, E, vec, flood, mats, h) && cg.Valid() && Acyclic(E) && Spans(E, N)
    requires u in N && v in N && Before(E, u, v)
    ensures h(u) != h(v) ==> Before(cg.edges, h(u), h(v))
    ensures h(u) == h(v) ==> exists i :: i in mats && u in i.sub.nodes && v in i.sub.nodes && Before(i.sub.edges, u, v)
  {
    NestedOrder(E, h, u, v);
    if h(u) == h(v) {
      AcyclicStrict(E, u, v);
      assert h(u) != u || h(v) != v;
      var i :| i in mats && h(u) == i.batch;
      assert Finished(i, E);
      var S := Elems(i.members);
      assert u in S && v in S;
      forall e | e in Inner(E, h) && e.0 in S ensures e.1 in S { }
      var e :| e in Inner(E, h) && e.0 == u && Reach(Inner(E, h), e.1, v);
      var k: nat :| Steps(Inner(E, h), k, e.1, v);
      InsideSteps(E, h, S, k, e.1, v);
      ReachSubset(Inside(E, S), i.sub.edges, e.1, v);
      assert e in i.sub.edges;
    }
  }

  // ------------------------------------------------------------ the flood-fill can close a cycle

  lemma IslandDevice(cls: seq<nat>, cand: seq<bool>, dev: seq<DeviceId>, a: nat, b: nat)
    requires Uniform(cls, cand, dev) && a < |cls| && b < |cls| && dev[a] != dev[b]
    ensures cls[a] != cls[b]
  {
  }

  /** A walk that leaves a class and comes back closes a cycle in the contraction. */
  lemma LeavesAndReturns<W>(E: set<(Node, Node)>, f: Node -> W, a: Node, b: Node, c: Node)
    requires Before(E, a, b) && Before(E, b, c) && f(a) == f(c) && f(a) != f(b)
    ensures !Acyclic(Quotient(E, f))
  {
    var Q := Quotient(E, f);
    ReachCases(E, a, b);
    ReachCases(E, b, c);
    QuotientReach(E, f, a, b);
    QuotientReach(E, f, b, c);
    ReachCases(Q, f(a), f(b));
    if Acyclic(Q) {
      AcyclicStrict(Q, f(a), f(b));
    }
  }

  /** On a graph where a command `a` precedes `c` on its own device both directly and through some `b` on
      another device, the pass always leaves a cycle. */
  lemma DetourBreaks(cg: CommandGraph, N: set<Node>, E: set<(Node, Node)>, vec: seq<Node>, cand: seq<bool>,
                     dev: seq<DeviceId>, flood: seq<nat>, cls: seq<nat>, mats: seq<Island>, h: Node -> Node, a: Node,
                     b: Node, c: Node)
    requires NoDup(vec) && Elems(vec) == N && Acyclic(E) && Spans(E, N)
    requires Batched(cg, N, E, vec, flood, mats, h) && Grouping(vec, E, cand, dev, flood, cls, mats)
    requires Candidates(vec, cg.entry, cg.exit, cand)
    requires (a, c) in E && Before(E, a, b) && Before(E, b, c) && b in N
    requires a.device == c.device != b.device && a.kind == c.kind == CommandNode
    requires !IsBoundary(a, cg.entry, cg.exit) && !IsBoundary(c, cg.entry, cg.exit)
    ensures !Acyclic(cg.edges) && !cg.Valid()
  {
    assert a in Elems(vec) && c in Elems(vec);
    var i, j, k := IndexOf(vec, a), IndexOf(vec, c), IndexOf(vec, b);
    NoSelfLoop(E, a);
    LinkedShare(vec, E, cand, dev, flood, cls, i, j);
    assert Uniform(cls, cand, dev) && dev[i] != dev[k];
    IslandDevice(cls, cand, dev, i, k);
    MemberIs(vec, cand, cls, cls[i], i);
    MemberIs(vec, cand, cls, cls[i], j);
    hide Detected, Candidates, Before, Finished, Links, Joins;
    assert Worth(vec, cand, cls, cls[i]);
    SameKept(vec, N, E, cand, dev, flood, cls, mats, h, i, j);
    SameKept(vec, N, E, cand, dev, flood, cls, mats, h, i, k);
    LeavesAndReturns(E, h, a, b, c);
  }

  /** The other direction needs islands of two commands: a detour of control nodes closes a cycle in the
      flood-fill, but with at most one command in the graph nothing is contracted. */
  lemma ControlDetour(cg: CommandGraph, N: set<Node>, E: set<(Node, Node)>, vec: seq<Node>, cand: seq<bool>,
                      dev: seq<DeviceId>, flood: seq<nat>, cls: seq<nat>, mats: seq<Island>, h: Node -> Node, a: Node,
                      b: Node, c: Node)
    requires NoDup(vec) && Elems(vec) == N && Acyclic(E) && Spans(E, N)
    requires Batched(cg, N, E, vec, flood, mats, h) && Grouping(vec, E, cand, dev, flood, cls, mats)
    requires Candidates(vec, cg.entry, cg.exit, cand) && !TwoCommands(N)
    requires (a, c) in E && Before(E, a, b) && Before(E, b, c) && b in N && a.device == c.device != b.device
    requires !IsBoundary(a, cg.entry, cg.exit) && !IsBoundary(c, cg.entry, cg.exit)
    ensures mats == [] && cg.edges == E && cg.Valid()
    ensures !Acyclic(Quotient(E, ClassOf(vec, flood)))
  {
    assert a in Elems(vec) && c in Elems(vec);
    var i, j, k := IndexOf(vec, a), IndexOf(vec, c), IndexOf(vec, b);
    NoSelfLoop(E, a);
    LinkedShare(vec, E, cand, dev, flood, cls, i, j);
    IslandDevice(cls, cand, dev, i, k);
    ClassAt(vec, flood, i);
    ClassAt(vec, flood, j);
    ClassAt(vec, flood, k);
    LeavesAndReturns(E, ClassOf(vec, flood), a, b, c);
    hide Detected, Candidates, Before, Finished, Links, Joins, Linked, Coherent;
    IslandHasCommands(mats, vec, cand, cls, N);
    assert forall x :: x in N ==> h(x) == x;
    SameAsItself(E, N, h);
  }

  lemma IslandHasCommands(mats: seq<Island>, vec: seq<Node>, cand: seq<bool>, cls: seq<nat>, N: set<Node>)
    requires |vec| == |cand| == |cls| && Chosen(mats, vec, cand, cls) && Elems(vec) == N
    ensures mats != [] ==> TwoCommands(N)
  {
    if mats != [] {
      var m := mats[0];
      assert m in mats;
      var x, y :| x in Elems(m.members) && y in Elems(m.members) && x != y && x.kind == CommandNode &&
          y.kind == CommandNode;
      assert x in N && y in N;
    }
  }

  lemma SameAsItself(E: set<(Node, Node)>, N: set<Node>, h: Node -> Node)
    requires Spans(E, N) && forall x :: x in N ==> h(x) == x
    ensures Quotient(E, h) == E
  {
    forall e | e in E ensures e in Quotient(E, h) {
      InQuotient(E, h, e);
      assert e == (e.0, e.1);
    }
    forall q | q in Quotient(E, h) ensures q in E {
      var e := QuotientEdge(E, h, q);
      assert q == e;
    }
  }

  // ------------------------------------------------------------ the pass on such a graph

  lemma ThreeListed(vec: seq<Node>, a: Node, b: Node, c: Node)
    requires a in Elems(vec) && b in Elems(vec) && c in Elems(vec) && a != b && b != c && a != c
    ensures |vec| > 2
  {
    var i, j, k := IndexOf(vec, a), IndexOf(vec, b), IndexOf(vec, c);
    assert i != j && j != k && i != k;
  }

  lemma DetourDistinct(E: set<(Node, Node)>, a: Node, b: Node, c: Node)
    requires Acyclic(E) && (a, c) in E && a.device == c.device != b.device
    ensures a != b && b != c && a != c
  {
    NoSelfLoop(E, a);
  }

  lemma ValidParts(cg: CommandGraph)
    requires cg.Valid()
    ensures Coherent(cg.nodes, cg.edges, cg.entry, cg.exit) && Acyclic(cg.edges) && Linked(cg.nodes, cg.edges)
  {
    CoherentParts(cg.nodes, cg.edges, cg.entry, cg.exit);
  }

  /** The pass leaves no command graph when a command precedes another of its device directly and also through a
      node of another device. */
  method BatchDetour(cg: CommandGraph, ghost a: Node, ghost b: Node, ghost c: Node)
    requires cg.Valid() && cg.Fresh()
    requires (a, c) in cg.edges && Before(cg.edges, a, b) && Before(cg.edges, b, c) && b in cg.nodes
    requires a.device == c.device != b.device && a.kind == c.kind == CommandNode
    requires !IsBoundary(a, cg.entry, cg.exit) && !IsBoundary(c, cg.entry, cg.exit)
    modifies cg, cg.nodes`successors, cg.nodes`predecessors, cg.nodes`walkId, cg.nodes`iteratorIndex
    ensures !Acyclic(cg.edges) && !cg.Valid()
  {
    hide *;
    ghost var N, E := cg.nodes, cg.edges;
    ValidParts(cg);
    CoherentSpans(N, E, cg.entry, cg.exit);
    DetourDistinct(E, a, b, c);
    LinkedEnds(N, E, a, c);
    ghost var vec, cand, flood, cls, h;
    var mats;
    vec, cand, flood, cls, mats, h := PassBatch(cg);
    ThreeListed(vec, a, b, c);
    ghost var dev :| Grouping(vec, E, cand, dev, flood, cls, mats);
    DetourBreaks(cg, N, E, vec, cand, dev, flood, cls, mats, h, a, b, c);
  }

  predicate AllDifferent(s: Node, a: Node, b: Node, c: Node, t: Node) {
    && s != a && s != b && s != c && s != t && a != b && a != c && a != t && b != c && b != t && c != t
  }

  /** `a -> b -> c` and `a -> c` between an entry and an exit. */
  ghost function DetourEdges(s: Node, a: Node, b: Node, c: Node, t: Node): set<(Node, Node)> {
    {(s, a), (a, b), (b, c), (a, c), (c, t)}
  }

  lemma DetourNeighbours(s: Node, a: Node, b: Node, c: Node, t: Node)
    requires AllDifferent(s, a, b, c, t)
    ensures var E := DetourEdges(s, a, b, c, t);
            && Targets(E, s) == {a} && Targets(E, a) == {b, c} && Targets(E, b) == {c} && Targets(E, c) == {t}
            && Sources(E, a) == {s} && Sources(E, b) == {a} && Sources(E, c) == {b, a} && Sources(E, t) == {c}
            && Targets(E, t) == {} && Sources(E, s) == {}
  {
  }

  lemma DetourCoherent(s: Node, a: Node, b: Node, c: Node, t: Node)
    requires AllDifferent(s, a, b, c, t)
    ensures Coherent({s, a, b, c, t}, DetourEdges(s, a, b, c, t), s, t)
    ensures var E := DetourEdges(s, a, b, c, t); (a, c) in E && Before(E, a, b) && Before(E, b, c)
  {
    hide Acyclic, Sources, Targets, Before;
    var E := DetourEdges(s, a, b, c, t);
    DetourNeighbours(s, a, b, c, t);
    var rank := (x: Node) => if x == s then 0 else if x == a then 1 else if x == b then 2 else if x == c then 3 else 4;
    RankedAcyclic(E, rank);
    EdgeBefore(E, a, b);
    EdgeBefore(E, b, c);
  }

  lemma EdgeBefore(E: set<(Node, Node)>, x: Node, y: Node)
    requires (x, y) in E
    ensures Before(E, x, y)
  {
    ReachSelf(E, y);
    assert (x, y).0 == x;
  }

  lemma DetourLinked(s: Node, a: Node, b: Node, c: Node, t: Node)
    requires AllDifferent(s, a, b, c, t)
    requires s.successors == [a] && a.successors == [b, c] && b.successors == [c] && c.successors == [t]
    requires t.successors == []
    requires s.predecessors == [] && a.predecessors == [s] && b.predecessors == [a] && c.predecessors == [b, a]
    requires t.predecessors == [c]
    ensures Linked({s, a, b, c, t}, DetourEdges(s, a, b, c, t))
  {
    hide Sources, Targets;
    DetourNeighbours(s, a, b, c, t);
  }

  method LinkDetour(s: Node, a: Node, b: Node, c: Node, t: Node)
    requires s != a && s != b && s != c && s != t && a != b && a != c && a != t && b != c && b != t && c != t
    requires forall x :: x in {s, a, b, c, t} ==> x.successors == [] && x.predecessors == []
    modifies {s, a, b, c, t}`successors, {s, a, b, c, t}`predecessors
    ensures Linked({s, a, b, c, t}, DetourEdges(s, a, b, c, t)) && s.predecessors == [] && t.successors == []
  {
    hide *;
    Precedes(s, a);
    Precedes(a, b);
    Precedes(b, c);
    Precedes(a, c);
    Precedes(c, t);
    AreDifferent(s, a, b, c, t);
    DetourLinked(s, a, b, c, t);
  }

  /** Such a graph: two programs on device 1 around one on device 2. */
  method BuildDetour() returns (cg: CommandGraph, a: Node, b: Node, c: Node)
    ensures cg.Valid() && cg.Fresh() && b in cg.nodes
    ensures (a, c) in cg.edges && Before(cg.edges, a, b) && Before(cg.edges, b, c)
    ensures a.device == c.device != b.device && a.kind == c.kind == CommandNode
    ensures !IsBoundary(a, cg.entry, cg.exit) && !IsBoundary(c, cg.entry, cg.exit)
  {
    hide *;
    var s := new Node(UNSPECIFIED_DEVICE, EmptyNode);
    a := new Node(1, CommandNode);
    b := new Node(2, CommandNode);
    c := new Node(1, CommandNode);
    var t := new Node(UNSPECIFIED_DEVICE, EmptyNode);
    a.command, b.command, c.command := FileAccess, FileAccess, FileAccess;
    LinkDetour(s, a, b, c, t);
    cg := new CommandGraph.Around(s, t, {s, a, b, c, t}, DetourEdges(s, a, b, c, t));
    AreDifferent(s, a, b, c, t);
    DetourCoherent(s, a, b, c, t);
    DetourBuilt(cg, a, c);
  }

  lemma AreDifferent(s: Node, a: Node, b: Node, c: Node, t: Node)
    requires s != a && s != b && s != c && s != t && a != b && a != c && a != t && b != c && b != t && c != t
    ensures AllDifferent(s, a, b, c, t)
  {
  }

  lemma DetourBuilt(cg: CommandGraph, a: Node, c: Node)
    requires Coherent(cg.nodes, cg.edges, cg.entry, cg.exit) && Linked(cg.nodes, cg.edges)
    requires cg.walkId == 0 && forall x :: x in cg.nodes ==> x.walkId == 0
    requires a != cg.entry && a != cg.exit && c != cg.entry && c != cg.exit
    requires a.kind == c.kind == CommandNode && a.command == c.command == FileAccess
    ensures cg.Valid() && cg.Fresh()
    ensures !IsBoundary(a, cg.entry, cg.exit) && !IsBoundary(c, cg.entry, cg.exit)
  {
  }
}
