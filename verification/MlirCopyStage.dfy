/** Copy fusion on a command graph by way of its operations: import, fuse, export. */
module MlirCopyStage {
  import opened AdjacencyLists
  import opened CommandGraphs
  import opened Copies
  import opened CopyFusions
  import opened Digraphs
  import opened MlirCopyFuse
  import opened MlirExport
  import opened MlirGraphs
  import opened MlirImport
  import opened MlirRoundTrip
  import opened Quotients
  import opened Renamings
  import opened TransitiveReduction
  import opened TwinEdges

  // ------------------------------------------------------------ fusions do not depend on what nodes are called

  /** The state with every node under another name. */
  ghost function Called<V, W>(g: State<V>, f: V -> W): State<W>
    requires Injects(g.nodes, f) && g.commands.Keys == g.nodes
  {
    State(Image(g.nodes, f), Quotient(g.edges, f), map x | x in g.nodes :: f(x) := g.commands[x])
  }

  lemma CalledCommands<V, W>(g: State<V>, f: V -> W)
    requires Injects(g.nodes, f) && g.commands.Keys == g.nodes
    ensures var h := Called(g, f);
            && h.commands.Keys == h.nodes
            && forall x :: x in g.nodes ==> f(x) in h.nodes && f(x) in h.commands && h.commands[f(x)] == g.commands[x]
  {
  }

  lemma SourcesCalled<V, W>(N: set<V>, E: set<(V, V)>, f: V -> W, x: V)
    requires Renames(N, E, f) && x in N
    ensures Sources(Quotient(E, f), f(x)) == Image(Sources(E, x), f)
  {
    var Q := Quotient(E, f);
    forall y | y in Sources(Q, f(x)) ensures y in Image(Sources(E, x), f) {
      NotAnEdge(Q, y, f(x));
      var e := QuotientEdge(E, f, (y, f(x)));
      assert e == (e.0, x);
      NotAnEdge(E, e.0, x);
    }
    forall y | y in Image(Sources(E, x), f) ensures y in Sources(Q, f(x)) {
      var p :| p in Sources(E, x) && f(p) == y;
      NotAnEdge(Q, y, f(x));
      NotAnEdge(E, p, x);
      assert (p, x).0 in N && (p, x).0 != (p, x).1;
      InQuotient(E, f, (p, x));
    }
  }

  lemma TargetsCalled<V, W>(N: set<V>, E: set<(V, V)>, f: V -> W, x: V)
    requires Renames(N, E, f) && x in N
    ensures Targets(Quotient(E, f), f(x)) == Image(Targets(E, x), f)
  {
    var Q := Quotient(E, f);
    forall y | y in Targets(Q, f(x)) ensures y in Image(Targets(E, x), f) {
      NotAnEdge(Q, f(x), y);
      var e := QuotientEdge(E, f, (f(x), y));
      assert e == (x, e.1);
      NotAnEdge(E, x, e.1);
    }
    forall y | y in Image(Targets(E, x), f) ensures y in Targets(Q, f(x)) {
      var p :| p in Targets(E, x) && f(p) == y;
      NotAnEdge(Q, f(x), y);
      NotAnEdge(E, x, p);
      assert (x, p).1 in N && (x, p).0 != (x, p).1;
      InQuotient(E, f, (x, p));
    }
  }

  lemma SameImage<V, W>(N: set<V>, f: V -> W, A: set<V>, B: set<V>)
    requires Injects(N, f) && A <= N && B <= N && Image(A, f) == Image(B, f)
    ensures A == B
  {
    forall x | x in A ensures x in B {
      assert f(x) in Image(B, f);
    }
    forall x | x in B ensures x in A {
      assert f(x) in Image(A, f);
    }
  }

  lemma SidesIn<V>(N: set<V>, E: set<(V, V)>, x: V)
    requires forall e :: e in E ==> e.0 in N && e.1 in N
    ensures Sources(E, x) <= N && Targets(E, x) <= N
  {
  }

  lemma TwinsCalled<V, W>(N: set<V>, E: set<(V, V)>, f: V -> W, a: V, b: V)
    requires Renames(N, E, f) && a in N && b in N
    ensures FalseTwins(Quotient(E, f), f(a), f(b)) <==> FalseTwins(E, a, b)
    ensures Sources(Quotient(E, f), f(a)) == {} <==> Sources(E, a) == {}
  {
    SourcesCalled(N, E, f, a);
    SourcesCalled(N, E, f, b);
    TargetsCalled(N, E, f, a);
    TargetsCalled(N, E, f, b);
    SidesIn(N, E, a);
    SidesIn(N, E, b);
    if p :| p in Sources(E, a) {
      assert f(p) in Image(Sources(E, a), f);
    }
    if FalseTwins(Quotient(E, f), f(a), f(b)) {
      SameImage(N, f, Sources(E, a), Sources(E, b));
      SameImage(N, f, Targets(E, a), Targets(E, b));
    }
  }

  lemma WithoutCalled<V, W>(N: set<V>, E: set<(V, V)>, f: V -> W, v: V)
    requires Renames(N, E, f) && v in N
    ensures Without(Quotient(E, f), f(v)) == Quotient(Without(E, v), f) && Renames(N, Without(E, v), f)
  {
    var A, B := Without(Quotient(E, f), f(v)), Quotient(Without(E, v), f);
    forall q | q in A ensures q in B {
      var e := QuotientEdge(E, f, q);
      assert e in Without(E, v);
      InQuotient(Without(E, v), f, e);
    }
    forall q | q in B ensures q in A {
      var e := QuotientEdge(Without(E, v), f, q);
      InQuotient(E, f, e);
    }
  }

  lemma AbsorbCalled<V, W>(N: set<V>, g: State<V>, u: Fusion<V>, f: V -> W)
    requires Renames(N, g.edges, f) && g.nodes <= N && Fits(g, u)
    ensures var h, k := Called(g, f), Fusion(f(u.into), f(u.gone));
            Fits(h, k) && Absorb(h, k) == Called(Absorb(g, u), f)
    ensures Renames(N, Absorb(g, u).edges, f)
  {
    var h, k, a := Called(g, f), Fusion(f(u.into), f(u.gone)), Absorb(g, u);
    CalledCommands(g, f);
    CalledCommands(a, f);
    TwinsCalled(N, g.edges, f, u.into, u.gone);
    WithoutCalled(N, g.edges, f, u.gone);
    assert Fits(h, k) by { hide Fusable, FalseTwins, Without, Quotient; }
    SameCalled(g, u, f);
  }

  lemma SameCalled<V, W>(g: State<V>, u: Fusion<V>, f: V -> W)
    requires Injects(g.nodes, f) && Fits(g, u) && Fits(Called(g, f), Fusion(f(u.into), f(u.gone)))
    requires Without(Quotient(g.edges, f), f(u.gone)) == Quotient(Without(g.edges, u.gone), f)
    ensures Absorb(Called(g, f), Fusion(f(u.into), f(u.gone))) == Called(Absorb(g, u), f)
  {
    var h, k, a := Called(g, f), Fusion(f(u.into), f(u.gone)), Absorb(g, u);
    CalledCommands(g, f);
    CalledCommands(a, f);
    hide Fusable, Fused, FalseTwins, Without, Quotient, Fits;
    var b, c := Absorb(h, k), Called(a, f);
    forall y ensures y in b.nodes <==> y in c.nodes {
      if y in b.nodes {
        var x :| x in g.nodes && f(x) == y;
        assert x in a.nodes;
      }
    }
    assert b.nodes == c.nodes;
    forall y | y in c.nodes ensures b.commands[y] == c.commands[y] {
      var x :| x in a.nodes && f(x) == y;
    }
    assert b.commands == c.commands;
  }

  ghost function CalledSteps<V, W>(steps: seq<Fusion<V>>, f: V -> W): (r: seq<Fusion<W>>)
    ensures |r| == |steps| && forall i :: 0 <= i < |steps| ==> r[i] == Fusion(f(steps[i].into), f(steps[i].gone))
  {
    seq(|steps|, i requires 0 <= i < |steps| => Fusion(f(steps[i].into), f(steps[i].gone)))
  }

  lemma IsInjective<V, W>(N: set<V>, g: State<V>, f: V -> W)
    requires Renames(N, g.edges, f) && g.nodes <= N
    ensures Injects(g.nodes, f)
  {
  }

  /** Fusing and then naming is naming and then fusing. */
  lemma {:induction false} FusionsCalled<V, W>(N: set<V>, steps: seq<Fusion<V>>, g: State<V>, f: V -> W)
    requires Renames(N, g.edges, f) && g.nodes <= N && g.commands.Keys == g.nodes && Faithful(steps, g)
    ensures Final(steps, g).nodes <= g.nodes && Final(steps, g).commands.Keys == Final(steps, g).nodes
    ensures Faithful(CalledSteps(steps, f), Called(g, f))
    ensures Final(CalledSteps(steps, f), Called(g, f)) == Called(Final(steps, g), f)
    decreases |steps|
  {
    hide Called, Fits, Renames;
    assert Injects(g.nodes, f) by { IsInjective(N, g, f); }
    if steps == [] {
      assert CalledSteps(steps, f) == [];
    } else {
      var h := Absorb(g, steps[0]);
      AbsorbCalled(N, g, steps[0], f);
      FusionsCalled(N, steps[1..], h, f);
      assert CalledSteps(steps, f)[1..] == CalledSteps(steps[1..], f);
      assert CalledSteps(steps, f)[0] == Fusion(f(steps[0].into), f(steps[0].gone));
    }
  }

  // ------------------------------------------------------------ what fusions leave alone

  ghost predicate Kept(was: Command, now: Command) {
    now == was || (now.Copy1D? && was.Copy1D?)
  }

  /** A node left holds what it held, or a linear copy in place of one; what holds no linear copy is left. */
  lemma {:induction false} FusionsKeep<V>(steps: seq<Fusion<V>>, g: State<V>)
    requires Faithful(steps, g) && g.commands.Keys == g.nodes
    ensures Final(steps, g).commands.Keys == Final(steps, g).nodes <= g.nodes
    ensures forall x :: x in Final(steps, g).nodes ==> Kept(g.commands[x], Final(steps, g).commands[x])
    ensures forall x :: x in g.nodes && !g.commands[x].Copy1D? ==> x in Final(steps, g).nodes
    decreases |steps|
  {
    if steps != [] {
      FusionsKeep(steps[1..], Absorb(g, steps[0]));
    }
  }

  lemma {:induction false} FusionsCoherent<V>(steps: seq<Fusion<V>>, g: State<V>, s: V, t: V)
    requires Faithful(steps, g) && g.commands.Keys == g.nodes && Coherent(g.nodes, g.edges, s, t)
    requires !g.commands[s].Copy1D? && !g.commands[t].Copy1D?
    ensures Coherent(Final(steps, g).nodes, Final(steps, g).edges, s, t)
    decreases |steps|
  {
    if steps != [] {
      var f, h := steps[0], Absorb(g, steps[0]);
      CoherentParts(g.nodes, g.edges, s, t);
      AbsorbCoherent(g.nodes, g.edges, s, t, f.into, f.gone);
      hide Coherent, FalseTwins, Without, Fusable, Fused;
      FusionsCoherent(steps[1..], h, s, t);
    }
  }

  // ------------------------------------------------------------ the stage

  /** What a node executes: its command, or nothing if it is a control node. */
  ghost function Executed(u: Node): Command
    reads u`command
  {
    if u.kind == CommandNode then u.command else NoCommand
  }

  ghost function StateOf(N: set<Node>, E: set<(Node, Node)>): State<Node>
    reads N`command
  {
    State(N, E, map u | u in N :: Executed(u))
  }

  ghost function OpState(N: set<Op>, E: set<(Op, Op)>): State<Op>
    reads N`command
  {
    State(N, E, map o | o in N :: o.command)
  }

  /** An import is the graph with its operations for names. */
  lemma ImportIsCalled(ops: seq<Op>, vec: seq<Node>, s: Node, t: Node, E: set<(Node, Node)>)
    requires Bridged(ops, vec, s, t) && AllMirror(ops, vec, s, t)
    requires forall u :: u in vec ==> Supported(u)
    requires forall e :: e in E ==> e.0 in Elems(vec) && e.1 in Elems(vec) && e.0 != e.1
    ensures Renames(Elems(ops), Lifted(ops, vec, E), SourceOr(s)) && Injects(Elems(ops), SourceOr(s))
    ensures Called(OpState(Elems(ops), Lifted(ops, vec, E)), SourceOr(s)) == StateOf(Elems(vec), E)
  {
    LiftedIs(ops, vec, E, s);
    var f, g, h := SourceOr(s), OpState(Elems(ops), Lifted(ops, vec, E)), StateOf(Elems(vec), E);
    var c := Called(g, f);
    CalledCommands(g, f);
    assert h.nodes == Elems(vec) && h.commands.Keys == Elems(vec);
    hide Lifted, Quotient, Called, Renames, Bridged, AllMirror;
    forall u | u in c.nodes ensures u in h.nodes && c.commands[u] == h.commands[u] {
      OpOf(ops, vec, s, t, g, c, u);
    }
    forall u | u in h.nodes ensures u in c.nodes {
      HasOp(ops, vec, s, t, u);
    }
    assert c.nodes == h.nodes;
    assert c.commands == h.commands;
    assert c.edges == h.edges by { CalledEdges(g, f); }
  }

  lemma HasOp(ops: seq<Op>, vec: seq<Node>, s: Node, t: Node, u: Node)
    requires Bridged(ops, vec, s, t) && u in Elems(vec)
    ensures exists o :: o in Elems(ops) && SourceOr(s)(o) == u
  {
    var i: nat := IndexOf(vec, u);
    assert ops[i] in Elems(ops) && SourceOr(s)(ops[i]) == u;
  }

  lemma CalledEdges<V, W>(g: State<V>, f: V -> W)
    requires Injects(g.nodes, f) && g.commands.Keys == g.nodes
    ensures Called(g, f).edges == Quotient(g.edges, f) && Called(g, f).nodes == Image(g.nodes, f)
  {
  }

  lemma OpOf(ops: seq<Op>, vec: seq<Node>, s: Node, t: Node, g: State<Op>, c: State<Node>, u: Node)
    requires Bridged(ops, vec, s, t) && AllMirror(ops, vec, s, t) && (forall u :: u in vec ==> Supported(u))
    requires g.nodes == g.commands.Keys == Elems(ops) && (forall o :: o in ops ==> g.commands[o] == o.command)
    requires c.nodes == Image(g.nodes, SourceOr(s)) && c.commands.Keys == c.nodes && u in c.nodes
    requires forall x :: x in g.nodes ==> SourceOr(s)(x) in c.nodes && c.commands[SourceOr(s)(x)] == g.commands[x]
    ensures u in vec && c.commands[u] == Executed(u)
  {
    var o :| o in g.nodes && SourceOr(s)(o) == u;
    var i: nat := IndexOf(ops, o);
    assert ops[i].source == vec[i] == u;
    assert Mirrors(ops[i], vec[i], vec[i] == s, vec[i] == t);
  }

  /** What is left of an import can be exported if the ends are left. */
  lemma LiveExports(ops: seq<Op>, vec: seq<Node>, s: Node, t: Node, live: seq<Op>)
    requires Bridged(ops, vec, s, t) && Elems(live) <= Elems(ops)
    requires forall i: nat :: i < |ops| && (vec[i] == s || vec[i] == t) ==> ops[i] in Elems(live)
    ensures MlirExport.Separate(live) && MembersApart(live) && AllBuildable(live, map[]) &&
        SourcesOf(Elems(live)) <= Elems(vec)
    ensures (exists o :: o in live && MarkedAs(o.name, true)) && (exists o :: o in live && MarkedAs(o.name, false))
  {
    forall o | o in live ensures o in ops && o.source != null && o.source in Elems(vec) {
      assert o in Elems(live);
      var i: nat := IndexOf(ops, o);
      assert ops[i].source == vec[i];
    }
    forall o, p | o in live && p in live && o.source == p.source ensures o == p {
      var i: nat, j: nat := IndexOf(ops, o), IndexOf(ops, p);
      assert vec[i] == vec[j];
    }
    var i: nat, j: nat := IndexOf(vec, s), IndexOf(vec, t);
    assert MarkedAs(ops[i].name, true) && MarkedAs(ops[j].name, false);
    assert ops[i] in live && ops[j] in live;
  }

  lemma LiveEnd(ops: seq<Op>, vec: seq<Node>, s: Node, t: Node, live: seq<Op>, xs: seq<Export>, end: Node,
                isEntry: bool)
    requires Bridged(ops, vec, s, t) && Elems(live) <= Elems(ops) && |xs| == |live| && Produced(live, xs)
    requires FoundEnd(live, xs, end, isEntry)
    ensures end == if isEntry then s else t
  {
    var j: nat :| j < |xs| && MarkedAs(live[j].name, isEntry) && end == xs[j].node;
    assert live[j] in Elems(live);
    var i: nat := IndexOf(ops, live[j]);
    assert ops[i].source == vec[i];
  }

  lemma LiveNames(ops: seq<Op>, vec: seq<Node>, s: Node, t: Node, live: seq<Op>, xs: seq<Export>, out: map<Op, Node>)
    requires Bridged(ops, vec, s, t) && Elems(live) <= Elems(ops) && |xs| == |live|
    requires Named(live, xs, out) && Produced(live, xs)
    ensures out.Keys == Elems(live) && forall o :: o in Elems(live) ==> o.source != null && out[o] == o.source
  {
    assert live[..|live|] == live;
    forall o | o in Elems(live) ensures o.source != null && o in out && out[o] == o.source {
      var j: nat := IndexOf(live, o);
      assert live[j] in Elems(live);
      var i: nat := IndexOf(ops, o);
      assert ops[i].source == vec[i];
    }
  }

  lemma SameQuotient<V, W>(E: set<(V, V)>, f: V -> W, g: V -> W)
    requires forall e :: e in E ==> f(e.0) == g(e.0) && f(e.1) == g(e.1)
    ensures Quotient(E, f) == Quotient(E, g)
  {
    forall q | q in Quotient(E, f) ensures q in Quotient(E, g) {
      var e := QuotientEdge(E, f, q);
      InQuotient(E, g, e);
    }
    forall q | q in Quotient(E, g) ensures q in Quotient(E, f) {
      var e := QuotientEdge(E, g, q);
      InQuotient(E, f, e);
    }
  }

  /** What the operations held at first, as the nodes had it. */
  ghost predicate HeldAs(live: seq<Op>, first: map<Op, Command>, was: map<Node, Command>)
    reads (set o | o in live)`command
  {
    forall o :: o in live ==>
      && o.source != null && o.source in was && o in first && Kept(first[o], o.command)
      && (if o.source.kind == EmptyNode then first[o] == NoCommand
          else o.name == CommandOp && o.source.kind == CommandNode && first[o] == was[o.source])
  }

  /** An export of what fusions left is that, with the nodes for names. */
  lemma ExportIsCalled(live: seq<Op>, L: set<(Op, Op)>, first: map<Op, Command>, was: map<Node, Command>,
                       out: map<Op, Node>, s: Node, other: Node)
    requires HeldAs(live, first, was) && CopiesWritten(live, was) && Injects(Elems(live), SourceOr(s))
    requires out.Keys == Elems(live) && forall o :: o in Elems(live) ==> o.source != null && out[o] == o.source
    requires forall e :: e in L ==> e.0 in Elems(live) && e.1 in Elems(live)
    ensures Called(OpState(Elems(live), L), SourceOr(s)) == StateOf(out.Values, Quotient(L, NodeOf(out, other)))
  {
    var f, g := SourceOr(s), OpState(Elems(live), L);
    var c, h := Called(g, f), StateOf(out.Values, Quotient(L, NodeOf(out, other)));
    CalledCommands(g, f);
    CalledEdges(g, f);
    SameQuotient(L, f, NodeOf(out, other));
    hide Called, Quotient, HeldAs, CopiesWritten;
    forall u | u in c.nodes ensures u in h.nodes && c.commands[u] == h.commands[u] {
      var o :| o in Elems(live) && f(o) == u;
      assert out[o] == u;
      Written1(live, first, was, o);
    }
    forall u | u in h.nodes ensures u in c.nodes {
      var o :| o in out && out[o] == u;
      assert o in g.nodes && f(o) == u;
    }
    assert c.nodes == h.nodes;
    assert c.commands == h.commands;
  }

  lemma Written1(live: seq<Op>, first: map<Op, Command>, was: map<Node, Command>, o: Op)
    requires HeldAs(live, first, was) && CopiesWritten(live, was) && o in live
    ensures o.source != null && Executed(o.source) == o.command
  {
  }

  /** Fuse the copies of an import. */
  method FuseImported(g: GraphOp) returns (ghost steps: seq<Fusion<Op>>)
    requires g.Valid()
    modifies g, Elems(g.body)`command, Elems(g.body)`operands
    ensures g.Valid() && Faithful(steps, old(OpState(Elems(g.body), g.edges)))
    ensures Final(steps, old(OpState(Elems(g.body), g.edges))) == OpState(Elems(g.body), g.edges)
    ensures old(AllInRange(OpState(Elems(g.body), g.edges))) ==> NothingTouches(Elems(g.body), g.edges)
  {
    SnapshotEdges(Elems(g.body), g.edges);
    hide Faithful, Final, NothingTouches, Feeds, NoDup, AllInRange, Settled, MlirCopyFuse.SameOutcome,
        CopyFusions.Separate;
    steps := PassCopyFuse(g);
  }

  /** No two nodes that are twins with a predecessor hold linear copies that one copy could replace. */
  ghost predicate NoneLeft(N: set<Node>, E: set<(Node, Node)>)
    reads N`command
  {
    forall u, v ::
      (u in N && v in N && u != v && Sources(E, u) != {} && FalseTwins(E, u, v)
       && u.kind == v.kind == CommandNode && u.command.Copy1D? && v.command.Copy1D?)
      ==> !Fusable(u.command.linear, v.command.linear)
  }

  ghost predicate NoneLeftIn(g: State<Node>) {
    forall u, v ::
      (u in g.nodes && v in g.nodes && u in g.commands && v in g.commands && u != v && Sources(g.edges, u) != {}
       && FalseTwins(g.edges, u, v) && u.kind == v.kind == CommandNode
       && g.commands[u].Copy1D? && g.commands[v].Copy1D?)
      ==> !Fusable(g.commands[u].linear, g.commands[v].linear)
  }

  lemma NothingIsLeft(live: seq<Op>, L: set<(Op, Op)>, s: Node, g: State<Node>)
    requires Renames(Elems(live), L, SourceOr(s)) && IsCalled(live, L, SourceOr(s), g)
    requires NothingTouches(Elems(live), L)
    requires forall o :: o in Elems(live) ==> o.source != null && (o.source.kind == CommandNode ==> o.name == CommandOp)
    ensures NoneLeftIn(g)
  {
    var f, h := SourceOr(s), OpState(Elems(live), L);
    CalledCommands(h, f);
    CalledEdges(h, f);
    assert g.nodes == Image(Elems(live), f) && g.edges == Quotient(L, f);
    hide Called, Quotient, FalseTwins, Fusable, Renames, Sources;
    forall u, v | u in g.nodes && v in g.nodes && u in g.commands && v in g.commands && u != v
      && Sources(g.edges, u) != {} && FalseTwins(g.edges, u, v) && u.kind == v.kind == CommandNode
      && g.commands[u].Copy1D? && g.commands[v].Copy1D?
      ensures !Fusable(g.commands[u].linear, g.commands[v].linear)
    {
      var a :| a in Elems(live) && f(a) == u;
      var b :| b in Elems(live) && f(b) == v;
      TwinsCalled(Elems(live), L, f, a, b);
      assert a.source == u && b.source == v && a.command == g.commands[u] && b.command == g.commands[v];
    }
  }

  lemma Sublists(ops: seq<Op>, L0: set<(Op, Op)>, f: Op -> Node, live: seq<Op>, L: set<(Op, Op)>)
    requires Renames(Elems(ops), L0, f) && Elems(live) <= Elems(ops)
    requires forall e :: e in L ==> e.0 in Elems(live) && e.1 in Elems(live) && e.0 != e.1
    ensures Renames(Elems(live), L, f) && Injects(Elems(live), f)
  {
  }

  /** The operations left by fusions of an import. */
  lemma FusedLive(ops: seq<Op>, vec: seq<Node>, s: Node, t: Node, E: set<(Node, Node)>, first: State<Op>,
                  steps: seq<Fusion<Op>>, live: seq<Op>, L: set<(Op, Op)>)
    requires Bridged(ops, vec, s, t) && Faithful(steps, first) && Final(steps, first) == OpState(Elems(live), L)
    requires first.nodes == first.commands.Keys == Elems(ops) && Injects(Elems(ops), SourceOr(s))
    requires Called(first, SourceOr(s)) == StateOf(Elems(vec), E)
    ensures Elems(live) <= Elems(ops)
    ensures forall i: nat :: i < |ops| && (vec[i] == s || vec[i] == t) ==> ops[i] in Elems(live)
    ensures forall o :: o in Elems(live) ==> o in first.commands && Kept(first.commands[o], o.command)
  {
    FusionsKeep(steps, first);
    EndsHoldNothing(ops, vec, s, t, E, first);
    hide Bridged, Faithful, Final, Kept, Called, SourceOr;
    assert forall o :: o in Elems(live) ==> OpState(Elems(live), L).commands[o] == o.command;
  }

  lemma EndCommands(vec: seq<Node>, s: Node, t: Node, E: set<(Node, Node)>)
    requires s in Elems(vec) && t in Elems(vec) && Executed(s) == Executed(t) == NoCommand
    ensures var g := StateOf(Elems(vec), E);
            && g.nodes == g.commands.Keys == Elems(vec) && g.edges == E
            && !g.commands[s].Copy1D? && !g.commands[t].Copy1D?
  {
  }

  /** The graph left by fusions of an import, on the nodes. */
  lemma FusedNodes(ops: seq<Op>, vec: seq<Node>, s: Node, t: Node, E: set<(Node, Node)>, first: State<Op>,
                   steps: seq<Fusion<Op>>, last: State<Op>)
    requires Bridged(ops, vec, s, t) && Faithful(steps, first) && Final(steps, first) == last
    requires first.nodes == first.commands.Keys == Elems(ops) && Injects(Elems(ops), SourceOr(s))
    requires Called(first, SourceOr(s)) == StateOf(Elems(vec), E)
    requires Renames(Elems(ops), first.edges, SourceOr(s)) && Coherent(Elems(vec), E, s, t)
    ensures Injects(last.nodes, SourceOr(s)) && last.commands.Keys == last.nodes
    ensures Faithful(CalledSteps(steps, SourceOr(s)), StateOf(Elems(vec), E))
    ensures Final(CalledSteps(steps, SourceOr(s)), StateOf(Elems(vec), E)) == Called(last, SourceOr(s))
    ensures Coherent(Called(last, SourceOr(s)).nodes, Called(last, SourceOr(s)).edges, s, t)
  {
    hide *;
    FusionsCalled(Elems(ops), steps, first, SourceOr(s));
    IsInjective(Elems(ops), first, SourceOr(s));
    InjectsLess(first.nodes, last.nodes, SourceOr(s));
    EndsHoldNothing(ops, vec, s, t, E, first);
    EndCommands(vec, s, t, E);
    FusionsCoherent(CalledSteps(steps, SourceOr(s)), StateOf(Elems(vec), E), s, t);
  }

  lemma InjectsLess<V, W>(A: set<V>, B: set<V>, f: V -> W)
    requires Injects(A, f) && B <= A
    ensures Injects(B, f)
  {
  }

  lemma EndsHoldNothing(ops: seq<Op>, vec: seq<Node>, s: Node, t: Node, E: set<(Node, Node)>, first: State<Op>)
    requires Bridged(ops, vec, s, t) && first.nodes == first.commands.Keys == Elems(ops)
    requires Injects(Elems(ops), SourceOr(s)) && Called(first, SourceOr(s)) == StateOf(Elems(vec), E)
    ensures s in Elems(vec) && t in Elems(vec) && Executed(s) == Executed(t) == NoCommand
    ensures forall i: nat :: i < |ops| && (vec[i] == s || vec[i] == t) ==>
        ops[i] in first.nodes && !first.commands[ops[i]].Copy1D?
    ensures forall i: nat :: i < |ops| ==> ops[i] in first.nodes && first.commands[ops[i]] == Executed(vec[i])
  {
    CalledCommands(first, SourceOr(s));
    hide Called;
    forall i: nat | i < |ops| ensures ops[i] in first.nodes && first.commands[ops[i]] == Executed(vec[i]) {
      assert ops[i] in Elems(ops) && SourceOr(s)(ops[i]) == vec[i] && vec[i] in Elems(vec);
      assert StateOf(Elems(vec), E).commands[vec[i]] == Executed(vec[i]);
    }
  }

  lemma LiveHeld(ops: seq<Op>, vec: seq<Node>, s: Node, t: Node, E: set<(Node, Node)>, first: State<Op>, live: seq<Op>,
                 was: map<Node, Command>)
    requires Bridged(ops, vec, s, t) && first.nodes == first.commands.Keys == Elems(ops)
    requires Injects(Elems(ops), SourceOr(s)) && Called(first, SourceOr(s)) == StateOf(Elems(vec), E)
    requires Elems(live) <= Elems(ops) && (forall u :: u in vec ==> Supported(u))
    requires forall o :: o in Elems(live) ==> o in first.commands && Kept(first.commands[o], o.command)
    requires was == SourceCommands(live)
    ensures HeldAs(live, first.commands, was)
    ensures forall o :: o in Elems(live) ==> o.source != null && (o.source.kind == CommandNode ==> o.name == CommandOp)
  {
    EndsHoldNothing(ops, vec, s, t, E, first);
    hide Called, Kept;
    forall o | o in live
      ensures o.source != null && o.source in was && o in first.commands && Kept(first.commands[o], o.command)
      ensures if o.source.kind == EmptyNode then first.commands[o] == NoCommand
              else o.name == CommandOp && o.source.kind == CommandNode && first.commands[o] == was[o.source]
    {
      assert o in Elems(live);
      var i: nat := IndexOf(ops, o);
      assert ops[i].source == vec[i] && vec[i] in vec && o.source in SourcesOf(Elems(live));
    }
  }

  lemma IsFirst(ops: seq<Op>, L: set<(Op, Op)>)
    ensures var g := OpState(Elems(ops), L); g.nodes == g.commands.Keys == Elems(ops) && g.edges == L
  {
  }

  lemma FedWithin(g: GraphOp)
    requires g.Valid()
    ensures forall e :: e in g.edges ==> e.0 in Elems(g.body) && e.1 in Elems(g.body) && e.0 != e.1
  {
  }

  lemma AllSupported(N: set<Node>, vec: seq<Node>)
    requires (forall u :: u in N ==> Supported(u)) && Elems(vec) == N
    ensures forall u :: u in vec ==> Supported(u)
  {
    forall u | u in vec ensures Supported(u) { assert u in Elems(vec); }
  }

  /** Export without batches, and what is needed of it here. */
  method ExportSome(g: GraphOp, cg: CommandGraph, ghost N: set<Node>)
    returns (out: map<Op, Node>, ghost xs: seq<Export>)
    requires g.Valid() && MlirExport.Separate(g.body) && MembersApart(g.body) && AllBuildable(g.body, map[])
    requires exists o :: o in g.body && MarkedAs(o.name, true)
    requires exists o :: o in g.body && MarkedAs(o.name, false)
    requires SourcesOf(Elems(g.body)) <= N
    modifies cg`entry, cg`exit, cg`nodes, cg`edges, N
    ensures |xs| == |g.body| && Named(g.body, xs, out) && Produced(g.body, xs)
    ensures CopiesWritten(g.body, old(SourceCommands(g.body)))
    ensures FoundEnd(g.body, xs, cg.entry, true) && FoundEnd(g.body, xs, cg.exit, false)
    ensures cg.nodes == out.Values && cg.edges == Quotient(g.edges, NodeOf(out, cg.entry)) && Listed(cg.nodes, cg.edges)
    ensures forall o: Op :: old(allocated(o)) ==> o.command == old(o.command)
  {
    hide *;
    ghost var news;
    out, xs, news := ExportGraph(g, cg, map[]);
  }

  /** The operations `live` left of the import `ops` hold what the nodes held, or fused copies. */
  ghost predicate LeftOf(ops: seq<Op>, vec: seq<Node>, s: Node, t: Node, live: seq<Op>, first: map<Op, Command>,
                         was: map<Node, Command>)
    reads (set o | o in live)`command
  {
    && Bridged(ops, vec, s, t) && Elems(live) <= Elems(ops) && Injects(Elems(live), SourceOr(s))
    && (forall i: nat :: i < |ops| && i < |vec| && (vec[i] == s || vec[i] == t) ==> ops[i] in Elems(live))
    && HeldAs(live, first, was) && was.Keys == SourcesOf(Elems(live))
  }

  lemma LeftExports(ops: seq<Op>, vec: seq<Node>, s: Node, t: Node, live: seq<Op>, first: map<Op, Command>,
                    was: map<Node, Command>)
    requires LeftOf(ops, vec, s, t, live, first, was)
    ensures MlirExport.Separate(live) && MembersApart(live) && AllBuildable(live, map[]) &&
        SourcesOf(Elems(live)) <= Elems(vec)
    ensures (exists o :: o in live && MarkedAs(o.name, true)) && (exists o :: o in live && MarkedAs(o.name, false))
  {
    LiveExports(ops, vec, s, t, live);
  }

  /** Export what is left of an import after its copies were fused. */
  method ExportLive(g: GraphOp, cg: CommandGraph, ghost ops: seq<Op>, ghost vec: seq<Node>,
                    ghost first: map<Op, Command>)
    requires g.Valid() && LeftOf(ops, vec, cg.entry, cg.exit, g.body, first, SourceCommands(g.body))
    modifies cg`entry, cg`exit, cg`nodes, cg`edges, Elems(vec)
    ensures cg.entry == old(cg.entry) && cg.exit == old(cg.exit) && Listed(cg.nodes, cg.edges)
    ensures IsCalled(g.body, g.edges, SourceOr(cg.entry), StateOf(cg.nodes, cg.edges)) && cg.nodes <= Elems(vec)
    ensures OpState(Elems(g.body), g.edges) == old(OpState(Elems(g.body), g.edges))
  {
    hide *;
    ghost var s, t, was := cg.entry, cg.exit, SourceCommands(g.body);
    LeftExports(ops, vec, s, t, g.body, first, was);
    FedWithin(g);
    var out;
    ghost var xs;
    ghost var left := OpState(Elems(g.body), g.edges);
    HoldsCommands(Elems(g.body), g.edges);
    out, xs := ExportSome(g, cg, Elems(vec));
    SameState(Elems(g.body), g.edges, left);
    LiveExported(ops, vec, s, t, g.body, g.edges, first, was, out, xs, cg.entry, cg.exit);
  }

  /** The operations left, named by their nodes, are in the state `g`. */
  ghost predicate IsCalled(live: seq<Op>, L: set<(Op, Op)>, f: Op -> Node, g: State<Node>)
    reads Elems(live)`command
  {
    Injects(Elems(live), f) && Called(OpState(Elems(live), L), f) == g
  }

  lemma HoldsCommands(N: set<Op>, E: set<(Op, Op)>)
    ensures var g := OpState(N, E);
            g.nodes == g.commands.Keys == N && g.edges == E && forall o :: o in N ==> g.commands[o] == o.command
  {
  }

  lemma SameState(N: set<Op>, E: set<(Op, Op)>, g: State<Op>)
    requires g.nodes == g.commands.Keys == N && g.edges == E && forall o :: o in N ==> g.commands[o] == o.command
    ensures OpState(N, E) == g
  {
  }

  ghost predicate WasCalled(g: State<Op>, f: Op -> Node, h: State<Node>) {
    Injects(g.nodes, f) && g.commands.Keys == g.nodes && Called(g, f) == h
  }

  lemma NowCalled(live: seq<Op>, L: set<(Op, Op)>, f: Op -> Node, g: State<Node>)
    requires IsCalled(live, L, f, g)
    ensures WasCalled(OpState(Elems(live), L), f, g)
  {
  }

  lemma MakeCalled(live: seq<Op>, L: set<(Op, Op)>, f: Op -> Node, g: State<Node>)
    requires Injects(Elems(live), f) && (IsFirst(live, L); Called(OpState(Elems(live), L), f) == g)
    ensures IsCalled(live, L, f, g)
  {
  }

  lemma LeftParts(ops: seq<Op>, vec: seq<Node>, s: Node, t: Node, live: seq<Op>, first: map<Op, Command>,
                  was: map<Node, Command>)
    requires LeftOf(ops, vec, s, t, live, first, was)
    ensures Bridged(ops, vec, s, t) && Elems(live) <= Elems(ops) && HeldAs(live, first, was) &&
        Injects(Elems(live), SourceOr(s))
  {
  }

  lemma LiveExported(ops: seq<Op>, vec: seq<Node>, s: Node, t: Node, live: seq<Op>, L: set<(Op, Op)>,
                     first: map<Op, Command>, was: map<Node, Command>, out: map<Op, Node>, xs: seq<Export>,
                     entry: Node, exit: Node)
    requires LeftOf(ops, vec, s, t, live, first, was) && CopiesWritten(live, was) && |xs| == |live|
    requires Named(live, xs, out) && Produced(live, xs) && FoundEnd(live, xs, entry, true) &&
        FoundEnd(live, xs, exit, false)
    requires SourcesOf(Elems(live)) <= Elems(vec) && forall e :: e in L ==> e.0 in Elems(live) && e.1 in Elems(live)
    ensures entry == s && exit == t && out.Values <= Elems(vec)
    ensures IsCalled(live, L, SourceOr(s), StateOf(out.Values, Quotient(L, NodeOf(out, entry))))
  {
    LeftParts(ops, vec, s, t, live, first, was);
    hide *;
    LiveEnd(ops, vec, s, t, live, xs, entry, true);
    LiveEnd(ops, vec, s, t, live, xs, exit, false);
    LiveNames(ops, vec, s, t, live, xs, out);
    ExportIsCalled(live, L, first, was, out, s, entry);
    NamedIn(live, out, vec);
    MakeCalled(live, L, SourceOr(s), StateOf(out.Values, Quotient(L, NodeOf(out, entry))));
  }

  lemma NamedIn(live: seq<Op>, out: map<Op, Node>, vec: seq<Node>)
    requires out.Keys == Elems(live) && forall o :: o in Elems(live) ==> o.source != null && out[o] == o.source
    requires SourcesOf(Elems(live)) <= Elems(vec)
    ensures out.Values <= Elems(vec)
  {
  }

  /** The operations `ops` are the graph `g` on the nodes `vec`, in the state `first`. */
  ghost predicate Imported(ops: seq<Op>, vec: seq<Node>, s: Node, t: Node, first: State<Op>, g: State<Node>) {
    && Bridged(ops, vec, s, t) && (forall u :: u in vec ==> Supported(u))
    && first.nodes == first.commands.Keys == Elems(ops) && Renames(Elems(ops), first.edges, SourceOr(s))
    && Injects(Elems(ops), SourceOr(s)) && Called(first, SourceOr(s)) == g && Coherent(Elems(vec), g.edges, s, t)
  }

  lemma IsImported(ops: seq<Op>, vec: seq<Node>, s: Node, t: Node, E: set<(Node, Node)>)
    requires Bridged(ops, vec, s, t) && AllMirror(ops, vec, s, t) && Coherent(Elems(vec), E, s, t)
    requires forall u :: u in vec ==> Supported(u)
    requires forall e :: e in E ==> e.0 in Elems(vec) && e.1 in Elems(vec) && e.0 != e.1
    ensures Imported(ops, vec, s, t, OpState(Elems(ops), Lifted(ops, vec, E)), StateOf(Elems(vec), E))
  {
    hide Bridged, AllMirror, Coherent, Renames, Called, Lifted;
    ImportIsCalled(ops, vec, s, t, E);
  }

  method ImportForFusion(cg: CommandGraph) returns (g: GraphOp, vec: seq<Node>)
    requires cg.Valid() && cg.Fresh() && Importable(cg)
    modifies cg`walkId, cg.nodes`walkId, cg.nodes`iteratorIndex
    ensures g.Valid() && fresh(g) && fresh(Elems(g.body)) && Elems(vec) == cg.nodes
    ensures Imported(g.body, vec, cg.entry, cg.exit, OpState(Elems(g.body), g.edges),
        old(StateOf(cg.nodes, cg.edges)))
  {
    hide *;
    ghost var N, E, s, t, was := cg.nodes, cg.edges, cg.entry, cg.exit, StateOf(cg.nodes, cg.edges);
    ValidParts(cg);
    ImportableParts(cg);
    ghost var preds, commands;
    g, vec, preds, commands := ImportReady(cg);
    AllSupported(N, vec);
    IsImported(g.body, vec, s, t, E);
  }

  /** What the fusions of an import left, on the operations and on the nodes. */
  lemma FusedImport(ops: seq<Op>, vec: seq<Node>, s: Node, t: Node, E: set<(Node, Node)>, first: State<Op>,
                    steps: seq<Fusion<Op>>, live: seq<Op>, L: set<(Op, Op)>)
    requires Imported(ops, vec, s, t, first, StateOf(Elems(vec), E))
    requires Faithful(steps, first) && Final(steps, first) == OpState(Elems(live), L)
    requires forall e :: e in L ==> e.0 in Elems(live) && e.1 in Elems(live) && e.0 != e.1
    ensures LeftOf(ops, vec, s, t, live, first.commands, SourceCommands(live))
    ensures Faithful(CalledSteps(steps, SourceOr(s)), StateOf(Elems(vec), E))
    ensures var last := Final(CalledSteps(steps, SourceOr(s)), StateOf(Elems(vec), E));
            IsCalled(live, L, SourceOr(s), last) && Coherent(last.nodes, last.edges, s, t)
    ensures Renames(Elems(live), L, SourceOr(s))
    ensures forall o :: o in Elems(live) ==> o.source != null && (o.source.kind == CommandNode ==> o.name == CommandOp)
  {
    var f, st := SourceOr(s), StateOf(Elems(vec), E);
    var last := OpState(Elems(live), L);
    ImportedParts(ops, vec, s, t, first, E);
    IsFirst(live, L);
    hide *;
    FusedLive(ops, vec, s, t, E, first, steps, live, L);
    Sublists(ops, first.edges, f, live, L);
    FusedNodes(ops, vec, s, t, E, first, steps, last);
    LiveHeld(ops, vec, s, t, E, first, live, SourceCommands(live));
    IsLeft(ops, vec, s, t, live, first.commands, SourceCommands(live));
    MakeCalled(live, L, f, Called(last, f));
  }

  /** The graph exported is the one the fusions left. */
  lemma Concluded(live: seq<Op>, L: set<(Op, Op)>, s: Node, t: Node, last: State<Node>, left: State<Op>, N: set<Node>,
                  E: set<(Node, Node)>)
    requires OpState(Elems(live), L) == left && WasCalled(left, SourceOr(s), last)
    requires IsCalled(live, L, SourceOr(s), StateOf(N, E)) && Coherent(last.nodes, last.edges, s, t)
    ensures last == StateOf(N, E) && Coherent(N, E, s, t) && (NoneLeftIn(last) ==> NoneLeft(N, E))
  {
    hide Coherent, Called, FalseTwins, Fusable, Sources;
  }

  lemma ImportedParts(ops: seq<Op>, vec: seq<Node>, s: Node, t: Node, first: State<Op>, E: set<(Node, Node)>)
    requires Imported(ops, vec, s, t, first, StateOf(Elems(vec), E))
    ensures Bridged(ops, vec, s, t) && (forall u :: u in vec ==> Supported(u))
    ensures first.nodes == first.commands.Keys == Elems(ops) && Renames(Elems(ops), first.edges, SourceOr(s))
    ensures Injects(Elems(ops), SourceOr(s)) && Called(first, SourceOr(s)) == StateOf(Elems(vec), E)
    ensures Coherent(Elems(vec), E, s, t)
  {
  }

  lemma ImportedInRange(ops: seq<Op>, vec: seq<Node>, s: Node, t: Node, first: State<Op>, g: State<Node>)
    requires Imported(ops, vec, s, t, first, g) && AllInRange(g)
    ensures AllInRange(first)
  {
    RangesCalled(first, g, SourceOr(s));
  }

  /** Fuse copies on the operations of a command graph.  The graph is what fusing its own nodes leaves, a DAG between
      the same ends; if all copies are in range, its linear copies move exactly the bytes they moved before, and no
      two twins are left that one copy could replace. */
  method CopyFuseOnMlir(cg: CommandGraph) returns (ghost steps: seq<Fusion<Node>>)
    requires cg.Valid() && cg.Fresh() && Importable(cg)
    modifies cg`walkId, cg`entry, cg`exit, cg`nodes, cg`edges, cg.nodes
    ensures cg.entry == old(cg.entry) && cg.exit == old(cg.exit) && cg.nodes <= old(cg.nodes)
    ensures Coherent(cg.nodes, cg.edges, cg.entry, cg.exit) && Listed(cg.nodes, cg.edges)
    ensures Faithful(steps, old(StateOf(cg.nodes, cg.edges)))
    ensures Final(steps, old(StateOf(cg.nodes, cg.edges))) == StateOf(cg.nodes, cg.edges)
    ensures old(AllInRange(StateOf(cg.nodes, cg.edges))) ==> NoneLeft(cg.nodes, cg.edges)
    ensures old(AllInRange(StateOf(cg.nodes, cg.edges))) ==> forall a, s, b, d ::
              Carries(StateOf(cg.nodes, cg.edges), a, s, b, d) <==>
              Carries(old(StateOf(cg.nodes, cg.edges)), a, s, b, d)
  {
    hide *;
    ghost var N, E, s, t, was := cg.nodes, cg.edges, cg.entry, cg.exit, StateOf(cg.nodes, cg.edges);
    var g, vec := ImportForFusion(cg);
    ghost var ops, first := g.body, OpState(Elems(g.body), g.edges);
    if AllInRange(was) { ImportedInRange(ops, vec, s, t, first, was); }
    ghost var opSteps := FuseImported(g);
    FedWithin(g);
    FusedImport(ops, vec, s, t, E, first, opSteps, g.body, g.edges);
    steps := CalledSteps(opSteps, SourceOr(s));
    if AllInRange(was) { NothingIsLeft(g.body, g.edges, s, Final(steps, was)); }
    ghost var left := OpState(Elems(g.body), g.edges);
    NowCalled(g.body, g.edges, SourceOr(s), Final(steps, was));
    ExportLive(g, cg, ops, vec, first.commands);
    Concluded(g.body, g.edges, s, t, Final(steps, was), left, cg.nodes, cg.edges);
    CarriedOver(steps, was, StateOf(cg.nodes, cg.edges));
  }

  lemma IsLeft(ops: seq<Op>, vec: seq<Node>, s: Node, t: Node, live: seq<Op>, first: map<Op, Command>,
               was: map<Node, Command>)
    requires Bridged(ops, vec, s, t) && Elems(live) <= Elems(ops) && Injects(Elems(live), SourceOr(s))
    requires forall i: nat :: i < |ops| && (vec[i] == s || vec[i] == t) ==> ops[i] in Elems(live)
    requires HeldAs(live, first, was) && was == SourceCommands(live)
    ensures LeftOf(ops, vec, s, t, live, first, was)
  {
  }

  lemma CarriedOver(steps: seq<Fusion<Node>>, was: State<Node>, now: State<Node>)
    requires Faithful(steps, was) && Final(steps, was) == now
    ensures AllInRange(was) ==> forall a, s, b, d :: Carries(now, a, s, b, d) <==> Carries(was, a, s, b, d)
  {
    hide Carries;
    if AllInRange(was) {
      forall a, s, b, d ensures Carries(now, a, s, b, d) <==> Carries(was, a, s, b, d) {
        FusionsCarry(steps, was, a, s, b, d);
      }
    }
  }

  lemma RangesCalled<V, W>(g: State<V>, h: State<W>, f: V -> W)
    requires Injects(g.nodes, f) && g.commands.Keys == g.nodes && Called(g, f) == h && AllInRange(h)
    ensures AllInRange(g)
  {
    CalledCommands(g, f);
  }
}
