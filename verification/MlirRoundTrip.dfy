/** Importing a command graph and exporting it again changes nothing but the order of successors. */
module MlirRoundTrip {
  import opened AdjacencyLists
  import opened CommandGraphs
  import opened Digraphs
  import opened MlirExport
  import opened MlirGraphs
  import opened MlirImport
  import opened Quotients

  /** What an import leaves for good: every operation comes from its node, and the ends are marked. */
  ghost predicate Bridged(body: seq<Op>, vec: seq<Node>, entry: Node, exit: Node) {
    && NoDup(vec) && |body| == |vec| && entry in Elems(vec) && exit in Elems(vec) && entry.kind == EmptyNode &&
        exit.kind == EmptyNode
    && (forall j: nat :: j < |vec| ==> body[j].source == vec[j] && body[j].device == vec[j].device)
    && forall j: nat :: j < |vec| ==>
         body[j].name == if vec[j].kind == EmptyNode then EmptyOp(vec[j] == entry, vec[j] == exit) else CommandOp
  }

  lemma MirrorsBridge(body: seq<Op>, vec: seq<Node>, entry: Node, exit: Node)
    requires AllMirror(body, vec, entry, exit) && NoDup(vec) && entry in Elems(vec) && exit in Elems(vec) &&
        entry.kind == EmptyNode && exit.kind == EmptyNode
    ensures Bridged(body, vec, entry, exit)
  {
    forall j: nat | j < |vec| ensures Mirrors(body[j], vec[j], vec[j] == entry, vec[j] == exit) {
      assert body[j] in Elems(body) && vec[j] in Elems(vec);
    }
  }

  /** Imported operations can be exported: every one has a node of its own, and the ends are marked. */
  lemma BridgedExports(body: seq<Op>, vec: seq<Node>, entry: Node, exit: Node)
    requires Bridged(body, vec, entry, exit)
    ensures Separate(body) && MembersApart(body) && AllBuildable(body, map[]) && SourcesOf(Elems(body)) == Elems(vec)
    ensures (exists o :: o in body && MarkedAs(o.name, true)) && (exists o :: o in body && MarkedAs(o.name, false))
  {
    forall o, p | o in body && p in body && o.source == p.source ensures o == p {
      var i: nat, j: nat := IndexOf(body, o), IndexOf(body, p);
      assert vec[i] == vec[j];
    }
    forall o | o in body ensures o.source != null {
      var i: nat := IndexOf(body, o);
    }
    forall u ensures u in SourcesOf(Elems(body)) <==> u in Elems(vec) {
      if u in Elems(vec) {
        var i: nat := IndexOf(vec, u);
        assert body[i] in Elems(body) && body[i].source == u;
      }
    }
    var i: nat, j: nat := IndexOf(vec, entry), IndexOf(vec, exit);
    assert MarkedAs(body[i].name, true) && MarkedAs(body[j].name, false);
    assert body[i] in body && body[j] in body;
  }

  /** Imported operations are exported as the nodes they came from. */
  lemma BridgedNames(body: seq<Op>, vec: seq<Node>, entry: Node, exit: Node, xs: seq<Export>, out: map<Op, Node>)
    requires Bridged(body, vec, entry, exit) && |xs| == |body| && Named(body, xs, out) && Produced(body, xs)
    ensures forall j: nat :: j < |body| ==> body[j] in out && out[body[j]] == vec[j]
    ensures out.Keys == Elems(body) && out.Values == Elems(vec)
  {
    assert body[..|body|] == body;
    assert forall j: nat :: j < |body| ==> out[body[j]] == vec[j];
    forall u ensures u in out.Values <==> u in Elems(vec) {
      if u in Elems(vec) {
        var i: nat := IndexOf(vec, u);
        assert out[body[i]] == u;
      }
      if u in out.Values {
        var o :| o in out && out[o] == u;
        var i: nat := IndexOf(body, o);
        assert vec[i] == u;
      }
    }
  }

  lemma BridgedEnd(body: seq<Op>, vec: seq<Node>, entry: Node, exit: Node, xs: seq<Export>, end: Node, isEntry: bool)
    requires Bridged(body, vec, entry, exit) && |xs| == |body| && Produced(body, xs)
    requires FoundEnd(body, xs, end, isEntry)
    ensures end == if isEntry then entry else exit
  {
    var j: nat :| j < |xs| && MarkedAs(body[j].name, isEntry) && end == xs[j].node;
    assert xs[j].node == vec[j];
  }

  lemma BridgedEdges(body: seq<Op>, vec: seq<Node>, E: set<(Node, Node)>, out: map<Op, Node>, other: Node)
    requires |body| == |vec| && NoDup(vec) && forall j: nat :: j < |body| ==>
        body[j] in out && out[body[j]] == vec[j] && body[j].source == vec[j]
    requires forall e :: e in E ==> e.0 in Elems(vec) && e.1 in Elems(vec) && e.0 != e.1
    ensures Quotient(Lifted(body, vec, E), NodeOf(out, other)) == E
  {
    var L, f, g := Lifted(body, vec, E), NodeOf(out, other), SourceOr(other);
    LiftedIs(body, vec, E, other);
    forall l | l in L ensures f(l.0) == g(l.0) && f(l.1) == g(l.1) {
      var i: nat, j: nat :| i < |vec| && j < |vec| && (vec[i], vec[j]) in E && l == (body[i], body[j]);
    }
    forall q | q in Quotient(L, f) ensures q in Quotient(L, g) {
      var l := QuotientEdge(L, f, q);
      InQuotient(L, g, l);
    }
    forall q | q in Quotient(L, g) ensures q in Quotient(L, f) {
      var l := QuotientEdge(L, g, q);
      InQuotient(L, f, l);
    }
  }

  /** The lists of predecessors are the ones that were imported. */
  lemma BridgedLists(body: seq<Op>, vec: seq<Node>, out: map<Op, Node>, preds: map<Node, seq<Node>>)
    requires |body| == |vec| &&
             (forall j: nat :: j < |body| ==> body[j] in out && out[body[j]] == vec[j] && body[j].source == vec[j])
    requires preds.Keys == Elems(vec) && InOperandOrder(body, out)
    requires forall i: nat :: i < |vec| ==> vec[i] in preds && Tokens(body[i].operands, preds[vec[i]], body)
    ensures forall u :: u in Elems(vec) ==> u.predecessors == preds[u]
  {
    forall u | u in Elems(vec) ensures u.predecessors == preds[u] {
      var i: nat := IndexOf(vec, u);
      var ts := body[i].operands;
      assert body[i] in Elems(body) && u.predecessors == Mapped(ts, out) && Tokens(ts, preds[u], body);
      forall k | 0 <= k < |ts| ensures u.predecessors[k] == preds[u][k] {
        var j: nat := IndexOf(body, ts[k]);
      }
    }
  }

  /** Attributes that were only read are written back as they were. */
  lemma BridgedCommands(body: seq<Op>, vec: seq<Node>, was: map<Node, Command>, now: map<Node, Command>)
    requires |body| == |vec| && Written(body, was, now) && was.Keys == Elems(vec)
    requires forall j: nat :: j < |body| ==>
        body[j].source == vec[j] && (WrittenBack(body[j]) ==> vec[j] in was && body[j].command == was[vec[j]])
    ensures now == was
  {
    forall u | u in Elems(vec) ensures now[u] == was[u] {
      var j: nat := IndexOf(vec, u);
      assert body[j] in Elems(body);
    }
  }

  /** The operations of an import that no pass has changed: the tokens and attributes it read. */
  ghost predicate Untouched(body: seq<Op>, vec: seq<Node>, preds: map<Node, seq<Node>>, commands: map<Node, Command>)
    reads (set o | o in body)`command, (set o | o in body)`operands
  {
    && |body| == |vec| && preds.Keys == commands.Keys == Elems(vec)
    && (forall j: nat :: j < |vec| ==> vec[j] in preds && Tokens(body[j].operands, preds[vec[j]], body))
    && (forall j: nat :: j < |vec| ==> WrittenBack(body[j]) ==>
        vec[j] in commands && body[j].command == commands[vec[j]])
  }

  ghost function PredecessorsOf(N: set<Node>): map<Node, seq<Node>>
    reads N`predecessors
  {
    map u | u in N :: u.predecessors
  }

  lemma ImportUntouched(body: seq<Op>, vec: seq<Node>, entry: Node, exit: Node, preds: map<Node, seq<Node>>,
                        commands: map<Node, Command>)
    requires AllMirror(body, vec, entry, exit) && Wired(body, vec)
    requires preds == PredecessorsOf(Elems(vec)) && commands == CommandsHeld(Elems(vec))
    ensures Untouched(body, vec, preds, commands)
  {
    forall j: nat | j < |vec|
      ensures vec[j] in preds && Tokens(body[j].operands, preds[vec[j]], body)
      ensures WrittenBack(body[j]) ==> vec[j] in commands && body[j].command == commands[vec[j]]
    {
      assert body[j] in Elems(body) && vec[j] in Elems(vec);
      assert Mirrors(body[j], vec[j], vec[j] == entry, vec[j] == exit);
    }
  }

  /** What the export of an untouched import leaves. */
  lemma Restored(body: seq<Op>, vec: seq<Node>, entry: Node, exit: Node, E: set<(Node, Node)>,
                 preds: map<Node, seq<Node>>, commands: map<Node, Command>, xs: seq<Export>, out: map<Op, Node>,
                 now: map<Node, Command>, first: Node, last: Node)
    requires Bridged(body, vec, entry, exit) && |xs| == |body| && Named(body, xs, out) && Produced(body, xs) &&
        InOperandOrder(body, out)
    requires forall e :: e in E ==> e.0 in Elems(vec) && e.1 in Elems(vec) && e.0 != e.1
    requires Written(body, commands, now) && Untouched(body, vec, preds, commands)
    requires FoundEnd(body, xs, first, true) && FoundEnd(body, xs, last, false)
    ensures out.Values == Elems(vec) && Quotient(Lifted(body, vec, E), NodeOf(out, first)) == E && now == commands
    ensures commands.Keys == preds.Keys == Elems(vec) && forall u :: u in Elems(vec) ==> u.predecessors == preds[u]
    ensures first == entry && last == exit
  {
    BridgedNames(body, vec, entry, exit, xs, out);
    BridgedEnd(body, vec, entry, exit, xs, first, true);
    BridgedEnd(body, vec, entry, exit, xs, last, false);
    hide Named, Produced, Tokens, InOperandOrder, Written, NoDup, WrittenBack, FoundEnd;
    BridgedEdges(body, vec, E, out, first);
    BridgedLists(body, vec, out, preds);
    BridgedCommands(body, vec, commands, now);
  }

  lemma CommandsKnown(body: seq<Op>, vec: seq<Node>, entry: Node, exit: Node, commands: map<Node, Command>)
    requires Bridged(body, vec, entry, exit) && commands == SourceCommands(body)
    ensures commands.Keys == Elems(vec) && forall u :: u in Elems(vec) ==> u.command == commands[u]
  {
    BridgedExports(body, vec, entry, exit);
  }

  lemma AllCommands(body: seq<Op>, vec: seq<Node>, entry: Node, exit: Node, commands: map<Node, Command>)
    requires Bridged(body, vec, entry, exit) && commands == CommandsHeld(Elems(vec))
    ensures commands == SourceCommands(body)
  {
    BridgedExports(body, vec, entry, exit);
  }

  /** Export without batches, and what is needed of it here. */
  method ExportImported(g: GraphOp, cg: CommandGraph, ghost vec: seq<Node>)
    returns (out: map<Op, Node>, ghost xs: seq<Export>)
    requires g.Valid() && Bridged(g.body, vec, cg.entry, cg.exit)
    modifies cg`entry, cg`exit, cg`nodes, cg`edges, Elems(vec)
    ensures |xs| == |g.body| && Named(g.body, xs, out) && Produced(g.body, xs) && InOperandOrder(g.body, out)
    ensures Written(g.body, old(SourceCommands(g.body)), SourceCommands(g.body))
    ensures FoundEnd(g.body, xs, cg.entry, true) && FoundEnd(g.body, xs, cg.exit, false)
    ensures cg.nodes == out.Values && cg.edges == Quotient(g.edges, NodeOf(out, cg.entry)) && Listed(cg.nodes, cg.edges)
  {
    BridgedExports(g.body, vec, cg.entry, cg.exit);
    hide *;
    ghost var news;
    out, xs, news := ExportGraph(g, cg, map[]);
  }

  /** Exporting what was just imported restores the graph. */
  method ExportBack(g: GraphOp, cg: CommandGraph, vec: seq<Node>, ghost E: set<(Node, Node)>,
                    ghost preds: map<Node, seq<Node>>, ghost commands: map<Node, Command>)
    requires g.Valid() && Bridged(g.body, vec, cg.entry, cg.exit) && Untouched(g.body, vec, preds, commands) &&
        g.edges == Lifted(g.body, vec, E)
    requires commands == SourceCommands(g.body)
    requires forall e :: e in E ==> e.0 in Elems(vec) && e.1 in Elems(vec) && e.0 != e.1
    modifies cg`entry, cg`exit, cg`nodes, cg`edges, Elems(vec)
    ensures cg.nodes == Elems(vec) && cg.edges == E && cg.entry == old(cg.entry) && cg.exit == old(cg.exit) &&
        Listed(cg.nodes, cg.edges)
    ensures commands.Keys == preds.Keys == Elems(vec)
    ensures forall u :: u in Elems(vec) ==> u.predecessors == preds[u] && u.command == commands[u]
  {
    hide *;
    ghost var s, t := cg.entry, cg.exit;
    var out;
    ghost var xs;
    out, xs := ExportImported(g, cg, vec);
    ghost var now := SourceCommands(g.body);
    Restored(g.body, vec, s, t, E, preds, commands, xs, out, now, cg.entry, cg.exit);
    CommandsKnown(g.body, vec, s, t, now);
  }

  /** Control nodes at the ends, and nothing that has no operation. */
  ghost predicate Importable(cg: CommandGraph)
    reads cg
  {
    (forall u :: u in cg.nodes ==> Supported(u)) && cg.entry.kind == EmptyNode && cg.exit.kind == EmptyNode
  }

  lemma ImportableParts(cg: CommandGraph)
    requires Importable(cg)
    ensures (forall u :: u in cg.nodes ==> Supported(u)) && cg.entry.kind == EmptyNode && cg.exit.kind == EmptyNode
  {
  }

  /** Import, and what the export will need of it. */
  method ImportReady(cg: CommandGraph) returns (g: GraphOp, vec: seq<Node>, ghost preds: map<Node, seq<Node>>,
                     ghost commands: map<Node, Command>)
    requires cg.Valid() && cg.Fresh() && Importable(cg)
    modifies cg`walkId, cg.nodes`walkId, cg.nodes`iteratorIndex
    ensures cg.Valid() && Elems(vec) == cg.nodes && g.Valid() && fresh(g) && fresh(Elems(g.body))
    ensures Bridged(g.body, vec, cg.entry, cg.exit) && AllMirror(g.body, vec, cg.entry, cg.exit)
    ensures Untouched(g.body, vec, preds, commands) && g.edges == Lifted(g.body, vec, cg.edges)
    ensures preds == old(PredecessorsOf(cg.nodes)) && commands == old(CommandsHeld(cg.nodes)) &&
        commands == SourceCommands(g.body)
    ensures cg.walkId == NextWalkId(old(cg.walkId))
  {
    hide *;
    ValidParts(cg);
    CoherentParts(cg.nodes, cg.edges, cg.entry, cg.exit);
    ImportableParts(cg);
    preds, commands := PredecessorsOf(cg.nodes), CommandsHeld(cg.nodes);
    g, vec := ImportGraph(cg);
    MirrorsBridge(g.body, vec, cg.entry, cg.exit);
    ImportUntouched(g.body, vec, cg.entry, cg.exit, preds, commands);
    AllCommands(g.body, vec, cg.entry, cg.exit, commands);
  }

  /** Same nodes, same edges, same predecessor lists, same commands. */
  method RoundTrip(cg: CommandGraph)
    requires cg.Valid() && cg.Fresh() && Importable(cg)
    modifies cg`walkId, cg`entry, cg`exit, cg`nodes, cg`edges, cg.nodes
    ensures cg.Valid() && cg.nodes == old(cg.nodes) && cg.edges == old(cg.edges) && cg.entry == old(cg.entry) &&
        cg.exit == old(cg.exit)
    ensures forall u :: u in cg.nodes ==> u.predecessors == old(u.predecessors) && u.command == old(u.command)
  {
    ghost var N, E, was, held := cg.nodes, cg.edges, PredecessorsOf(cg.nodes), CommandsHeld(cg.nodes);
    ValidParts(cg);
    HeldNow(N, was, held);
    assert forall u :: u in N ==> NoDup(was[u]);
    hide *;
    var g, vec;
    ghost var preds, commands;
    g, vec, preds, commands := ImportReady(cg);
    ExportBack(g, cg, vec, E, preds, commands);
    KeptLists(N, E, preds);
    IsValid(cg, N, E);
  }

  lemma HeldNow(N: set<Node>, preds: map<Node, seq<Node>>, commands: map<Node, Command>)
    requires preds == PredecessorsOf(N) && commands == CommandsHeld(N)
    ensures preds.Keys == commands.Keys == N && forall u :: u in N ==>
        preds[u] == u.predecessors && commands[u] == u.command
  {
  }

  lemma IsValid(cg: CommandGraph, N: set<Node>, E: set<(Node, Node)>)
    requires cg.nodes == N && cg.edges == E && Coherent(N, E, cg.entry, cg.exit) && Linked(N, E)
    ensures cg.Valid()
  {
  }

  lemma ValidParts(cg: CommandGraph)
    requires cg.Valid()
    ensures Coherent(cg.nodes, cg.edges, cg.entry, cg.exit)
    ensures forall e :: e in cg.edges ==> e.0 in cg.nodes && e.1 in cg.nodes && e.0 != e.1
    ensures forall u :: u in cg.nodes ==> NoDup(u.predecessors)
  {
    NoLoops(cg.nodes, cg.edges, cg.entry, cg.exit);
  }

  /** With the predecessor lists it had, the graph is linked as it was. */
  lemma KeptLists(N: set<Node>, E: set<(Node, Node)>, preds: map<Node, seq<Node>>)
    requires Listed(N, E) && preds.Keys == N && forall u :: u in N ==> u.predecessors == preds[u] && NoDup(preds[u])
    ensures Linked(N, E)
  {
    ListedOnce(N, E);
  }
}
