/** import_command_graph: one operation per node, its operands the tokens of the node's predecessors. */
module MlirImport {
  import opened CommandGraphs
  import opened Digraphs
  import opened MlirGraphs
  import opened Quotients
  import opened TransitiveReduction

  /** Control nodes and command nodes have an operation; nested graphs and conditions have none yet. */
  predicate Supported(u: Node) {
    u.kind == EmptyNode || u.kind == CommandNode
  }

  /** The operation says what the node says. */
  ghost predicate Mirrors(o: Op, u: Node, isEntry: bool, isExit: bool)
    reads o`command, o`region, u`command
  {
    && o.source == u && o.device == u.device && o.region == []
    && (if u.kind == EmptyNode then o.name == EmptyOp(isEntry, isExit) && o.command == NoCommand
        else o.name == CommandOp && o.command == u.command)
  }

  method CreateNodeOp(u: Node, isEntry: bool, isExit: bool) returns (o: Op)
    requires Supported(u)
    ensures fresh(o) && Mirrors(o, u, isEntry, isExit) && o.operands == []
  {
    if u.kind == EmptyNode {
      o := new Op(EmptyOp(isEntry, isExit), u.device, u, NoCommand);
    } else {
      o := new Op(CommandOp, u.device, u, u.command);
    }
  }

  /** The operations mirror the nodes, in the order of the nodes. */
  ghost predicate AllMirror(body: seq<Op>, vec: seq<Node>, entry: Node, exit: Node)
    reads (set o | o in body)`command, (set o | o in body)`region, (set u | u in vec)`command
  {
    |body| == |vec| && forall i :: 0 <= i < |vec| ==>
      (assert body[i] in body && vec[i] in vec; Mirrors(body[i], vec[i], vec[i] == entry, vec[i] == exit))
  }

  /** The operands are the tokens of the nodes listed. */
  ghost predicate Tokens(operands: seq<Op>, nodes: seq<Node>, body: seq<Op>) {
    |operands| == |nodes| && forall k :: 0 <= k < |nodes| ==> operands[k] in body && operands[k].source == nodes[k]
  }

  /** Every operation takes the tokens of its node's predecessors, in their order. */
  ghost predicate Wired(body: seq<Op>, vec: seq<Node>)
    reads Elems(body)`operands, Elems(vec)`predecessors
  {
    |body| == |vec| && forall i :: 0 <= i < |vec| ==>
      (assert body[i] in Elems(body) && vec[i] in Elems(vec); Tokens(body[i].operands, vec[i].predecessors, body))
  }

  /** The edges `E` between the operations of the nodes. */
  ghost function Lifted(body: seq<Op>, vec: seq<Node>, E: set<(Node, Node)>): set<(Op, Op)>
    requires |body| == |vec|
  {
    set i: nat, j: nat | i < |vec| && j < |vec| && (vec[i], vec[j]) in E :: (body[i], body[j])
  }

  /** The node an operation was imported from. */
  ghost function SourceOr(other: Node): Op -> Node {
    (o: Op) => if o.source == null then other else o.source
  }

  lemma SourcesDiffer(body: seq<Op>, vec: seq<Node>, i: nat, j: nat)
    requires |body| == |vec| && NoDup(vec) && i < |vec| && j < |vec|
    requires forall k :: 0 <= k < |vec| ==> body[k].source == vec[k]
    ensures body[i] == body[j] <==> i == j
  {
  }

  /** The lifted graph is the graph, its nodes renamed. */
  lemma LiftedIs(body: seq<Op>, vec: seq<Node>, E: set<(Node, Node)>, other: Node)
    requires |body| == |vec| && NoDup(vec) && forall k :: 0 <= k < |vec| ==> body[k].source == vec[k]
    requires forall e :: e in E ==> e.0 in Elems(vec) && e.1 in Elems(vec) && e.0 != e.1
    ensures NoDup(body) && Renames(Elems(body), Lifted(body, vec, E), SourceOr(other))
    ensures Quotient(Lifted(body, vec, E), SourceOr(other)) == E
  {
    var L, f := Lifted(body, vec, E), SourceOr(other);
    forall x, y | x in Elems(body) && y in Elems(body) && f(x) == f(y) ensures x == y {
      var i, j := IndexOf(body, x), IndexOf(body, y);
      assert vec[i] == vec[j];
    }
    forall e | e in E ensures e in Quotient(L, f) {
      var i, j := IndexOf(vec, e.0), IndexOf(vec, e.1);
      assert (body[i], body[j]) in L;
      InQuotient(L, f, (body[i], body[j]));
    }
    forall q | q in Quotient(L, f) ensures q in E {
      var l := QuotientEdge(L, f, q);
    }
  }

  /** The operands of operation `i` are its predecessors in the lifted graph. */
  lemma WiredFeeds(body: seq<Op>, vec: seq<Node>, E: set<(Node, Node)>)
    requires |body| == |vec| && NoDup(vec) && Linked(Elems(vec), E) && Wired(body, vec)
    requires forall k :: 0 <= k < |vec| ==> body[k].source == vec[k]
    requires forall e :: e in E ==> e.0 != e.1
    ensures Feeds(Elems(body), Lifted(body, vec, E))
  {
    var L := Lifted(body, vec, E);
    forall o | o in Elems(body) ensures Elems(o.operands) == Sources(L, o) {
      var j: nat := IndexOf(body, o);
      assert vec[j] in Elems(vec) && NodeLinked(vec[j], E);
      hide Linked, NoDup, NodeLinked;
      forall x: Op ensures x in Elems(o.operands) <==> x in Sources(L, o) {
        NotAnEdge(L, x, o);
        if x in Elems(o.operands) {
          var k := IndexOf(o.operands, x);
          var i: nat := IndexOf(body, x);
          assert vec[i] == vec[j].predecessors[k] && vec[i] in Elems(vec[j].predecessors);
          NotAnEdge(E, vec[i], vec[j]);
          assert (body[i], body[j]) in L;
        }
        if (x, o) in L {
          var i: nat, m: nat :| i < |vec| && m < |vec| && (vec[i], vec[m]) in E && (x, o) == (body[i], body[m]);
          SourcesDiffer(body, vec, m, j);
          NotAnEdge(E, vec[i], vec[j]);
          assert vec[i] in Elems(vec[j].predecessors);
          var k := IndexOf(vec[j].predecessors, vec[i]);
          var a: nat := IndexOf(body, o.operands[k]);
          SourcesDiffer(body, vec, a, i);
        }
      }
    }
    forall e | e in L ensures e.0 in Elems(body) && e.1 in Elems(body) && e.0 != e.1 {
    }
  }

  /** Pass 1: one operation per node. */
  method CreateOps(vec: seq<Node>, entry: Node, exit: Node) returns (body: seq<Op>)
    requires forall u :: u in vec ==> Supported(u)
    ensures AllMirror(body, vec, entry, exit) && fresh(Elems(body)) && forall o :: o in body ==> o.operands == []
  {
    body := [];
    for i := 0 to |vec|
      invariant |body| == i && forall o :: o in body ==> fresh(o) && o.operands == []
      invariant forall k :: 0 <= k < i ==> Mirrors(body[k], vec[k], vec[k] == entry, vec[k] == exit)
    {
      var o := CreateNodeOp(vec[i], vec[i] == entry, vec[i] == exit);
      body := body + [o];
    }
  }

  /** The tokens of the nodes listed, found through their indices. */
  method TokensOf(nodes: seq<Node>, body: seq<Op>, ghost vec: seq<Node>) returns (operands: seq<Op>)
    requires |body| == |vec| && (forall k :: 0 <= k < |vec| ==> body[k].source == vec[k]) && Elems(nodes) <= Elems(vec)
    requires forall k :: 0 <= k < |vec| ==> vec[k].iteratorIndex == k
    ensures Tokens(operands, nodes, body)
  {
    operands := [];
    for k := 0 to |nodes|
      invariant |operands| == k && forall m :: 0 <= m < k ==> operands[m] in body && operands[m].source == nodes[m]
    {
      assert nodes[k] in Elems(nodes) && nodes[k] in vec;
      operands := operands + [body[nodes[k].iteratorIndex]];
    }
  }

  /** Pass 2: wire the predecessors' tokens. */
  method WireOps(body: seq<Op>, vec: seq<Node>, ghost E: set<(Node, Node)>)
    requires |body| == |vec| && NoDup(vec) && Linked(Elems(vec), E) &&
        forall k :: 0 <= k < |vec| ==> body[k].source == vec[k]
    requires forall k :: 0 <= k < |vec| ==> vec[k].iteratorIndex == k
    modifies Elems(body)`operands
    ensures Wired(body, vec)
  {
    for i := 0 to |vec|
      invariant forall k :: 0 <= k < i ==> Tokens(body[k].operands, vec[k].predecessors, body)
    {
      assert vec[i] in Elems(vec) && body[i] in Elems(body) && NodeLinked(vec[i], E);
      assert Elems(vec[i].predecessors) <= Elems(vec) by { SourcesWithin(E, Elems(vec), vec[i]); }
      var operands := TokensOf(vec[i].predecessors, body, vec);
      forall k | 0 <= k < i ensures body[k] != body[i] { SourcesDiffer(body, vec, k, i); }
      body[i].operands := operands;
    }
  }

  lemma SourcesWithin(E: set<(Node, Node)>, N: set<Node>, u: Node)
    requires forall e :: e in E ==> e.0 in N && e.1 in N
    ensures Sources(E, u) <= N
  {
  }

  /** The MLIR form of a command graph. */
  method ImportGraph(cg: CommandGraph) returns (g: GraphOp, vec: seq<Node>)
    requires cg.Valid() && cg.Fresh() && forall u :: u in cg.nodes ==> Supported(u)
    modifies cg`walkId, cg.nodes`walkId, cg.nodes`iteratorIndex
    ensures cg.Valid() && cg.walkId == NextWalkId(old(cg.walkId))
    ensures NoDup(vec) && Elems(vec) == cg.nodes && vec != [] && vec[0] == cg.entry
    ensures fresh(g) && fresh(Elems(g.body)) && g.Valid()
    ensures AllMirror(g.body, vec, cg.entry, cg.exit) && Wired(g.body, vec) && g.edges == Lifted(g.body, vec, cg.edges)
  {
    hide Coherent, Linked, Feeds, NoDup, Acyclic;
    vec := cg.CreateNodeIterators(true);
    assert vec != [] by { assert cg.entry in Elems(vec) by { CoherentParts(cg.nodes, cg.edges, cg.entry, cg.exit); } }
    var body := CreateOps(vec, cg.entry, cg.exit);
    assert forall k :: 0 <= k < |vec| ==> body[k].source == vec[k];
    WireOps(body, vec, cg.edges);
    NoLoops(cg.nodes, cg.edges, cg.entry, cg.exit);
    WiredFeeds(body, vec, cg.edges);
    LiftedIs(body, vec, cg.edges, cg.entry);
    g := new GraphOp(body, Lifted(body, vec, cg.edges));
  }

  lemma NoLoops(N: set<Node>, E: set<(Node, Node)>, s: Node, t: Node)
    requires Coherent(N, E, s, t)
    ensures forall e :: e in E ==> e.0 in N && e.1 in N && e.0 != e.1
  {
    forall e | e in E ensures e.0 != e.1 { NoSelfLoop(E, e.0); }
  }
}
