/** The MLIR batch pass on a command graph: import, batch, export, seen as one more stage of a run. */
module MlirBatchStage {
  import opened AdjacencyLists
  import opened BatchReplays
  import opened CommandGraphs
  import opened Contractions
  import opened Digraphs
  import opened GreedyRuns
  import opened MlirBatch
  import opened MlirBatchPass
  import opened MlirExport
  import opened MlirGraphs
  import opened MlirImport
  import opened MlirRoundTrip
  import opened Numberings
  import opened Pipeline
  import opened Plans
  import opened QuotientCoherence
  import opened Quotients
  import opened Renamings

  // ------------------------------------------------------------ from the pass to the export

  /** What the batch pass leaves of an imported graph: the kept groups contracted, every batch holding its group. */
  ghost predicate Batched(ops: seq<Op>, E: set<(Op, Op)>, body: seq<Op>, F: set<(Op, Op)>, steps: seq<Contraction<Op>>,
                          c: Op -> nat, reps: seq<nat>)
    reads (set s | s in steps :: s.batch)`region, (set s, m | s in steps && m in s.members :: m)`operands
  {
    && ByClass(steps, Elems(ops), c, reps) && (Elems(body), F) == Contracted(steps, Elems(ops), E) && NoDup(body)
    && Acyclic(E) && (forall e :: e in E ==> e.0 in Elems(ops) && e.1 in Elems(ops))
    && forall j :: 0 <= j < |steps| ==> Held(steps[j], E)
  }

  /** The edges among the members of every batch. */
  ghost function InnerEdges(body: seq<Op>, E: set<(Op, Op)>): map<Op, set<(Op, Op)>>
    reads (set o | o in body)`region
  {
    map o | o in body && o.source == null :: Inside(E, Elems(o.region))
  }

  /** A live operation is an imported one that was not grouped, or a batch. */
  lemma LiveOps(ops: seq<Op>, vec: seq<Node>, entry: Node, exit: Node, E: set<(Op, Op)>, body: seq<Op>,
                F: set<(Op, Op)>, steps: seq<Contraction<Op>>, c: Op -> nat, reps: seq<nat>, o: Op)
    requires Bridged(ops, vec, entry, exit) && Batched(ops, E, body, F, steps, c, reps)
    ensures o in body <==> (o in ops && c(o) !in reps) || exists j :: 0 <= j < |steps| && steps[j].batch == o
    ensures o in body && o.source != null ==> o in ops && c(o) !in reps
    ensures o in body && o.source == null ==> exists j :: 0 <= j < |steps| && steps[j].batch == o
    ensures forall j :: 0 <= j < |steps| ==> steps[j].batch.source == null && steps[j].batch !in ops
    ensures o in ops ==> o.source != null
  {
    NodesByClass(steps, Elems(ops), E, c, reps, o);
    assert o in body <==> o in Elems(body);
    assert o in ops <==> o in Elems(ops);
    forall j | 0 <= j < |steps| ensures steps[j].batch.source == null && steps[j].batch !in ops {
      assert Held(steps[j], E) && steps[j].batch !in Elems(ops);
    }
    if o in ops {
      var i: nat := IndexOf(ops, o);
      assert ops[i].source == vec[i];
    }
  }

  lemma SameSource(ops: seq<Op>, vec: seq<Node>, entry: Node, exit: Node, o: Op, p: Op)
    requires Bridged(ops, vec, entry, exit) && o in ops && p in ops
    ensures o.source == p.source ==> o == p
    ensures o.source != null && o.source in Elems(vec)
  {
    var i: nat, j: nat := IndexOf(ops, o), IndexOf(ops, p);
    assert ops[i].source == vec[i] && ops[j].source == vec[j];
  }

  lemma BatchedSeparate(ops: seq<Op>, vec: seq<Node>, entry: Node, exit: Node, E: set<(Op, Op)>, body: seq<Op>,
                        F: set<(Op, Op)>, steps: seq<Contraction<Op>>, c: Op -> nat, reps: seq<nat>)
    requires Bridged(ops, vec, entry, exit) && Batched(ops, E, body, F, steps, c, reps)
    ensures Separate(body) && MembersApart(body)
  {
    hide Bridged, Held;
    forall o, p | o in body && p in body && o.source != null && o.source == p.source ensures o == p {
      LiveOps(ops, vec, entry, exit, E, body, F, steps, c, reps, o);
      LiveOps(ops, vec, entry, exit, E, body, F, steps, c, reps, p);
      SameSource(ops, vec, entry, exit, o, p);
    }
    forall o, m | o in body && o.source == null && m in o.region ensures m.source !in SourcesOf(Elems(body)) {
      LiveOps(ops, vec, entry, exit, E, body, F, steps, c, reps, o);
      var j :| 0 <= j < |steps| && steps[j].batch == o;
      MemberOf(ops, E, body, F, steps, c, reps, j, m);
      forall p | p in body && p.source != null ensures p.source != m.source {
        LiveOps(ops, vec, entry, exit, E, body, F, steps, c, reps, p);
        SameSource(ops, vec, entry, exit, p, m);
      }
    }
  }

  lemma MemberOf(ops: seq<Op>, E: set<(Op, Op)>, body: seq<Op>, F: set<(Op, Op)>, steps: seq<Contraction<Op>>,
                 c: Op -> nat, reps: seq<nat>, j: int, m: Op)
    requires Batched(ops, E, body, F, steps, c, reps) && 0 <= j < |steps|
    ensures m in steps[j].batch.region <==> m in steps[j].members
    ensures m in steps[j].members <==> m in ops && c(m) == reps[j]
    ensures m in steps[j].members ==> c(m) in reps && !IsEntryExit(m.name)
    ensures NoDup(steps[j].batch.region) && Elems(steps[j].batch.region) == steps[j].members &&
        steps[j].batch.region != []
    ensures Feeds(steps[j].members, Inside(E, steps[j].members)) && steps[j].batch.source == null &&
        steps[j].batch.name == BatchOp
  {
    assert Held(steps[j], E);
    assert m in steps[j].batch.region <==> m in Elems(steps[j].batch.region);
    assert m in ops <==> m in Elems(ops);
    var x :| x in steps[j].members;
    assert x in steps[j].batch.region;
  }

  lemma MemberAgrees(ops: seq<Op>, vec: seq<Node>, entry: Node, exit: Node, m: Op)
    requires AllMirror(ops, vec, entry, exit) && m in ops && forall u :: u in Elems(vec) ==> Supported(u)
    ensures Agrees(m)
  {
    var i := IndexOf(ops, m);
    assert ops[i] in Elems(ops) && vec[i] in Elems(vec);
    assert Mirrors(ops[i], vec[i], vec[i] == entry, vec[i] == exit);
  }

  /** Every batch can be built from its region. */
  lemma BatchedBuildable(ops: seq<Op>, vec: seq<Node>, entry: Node, exit: Node, E: set<(Op, Op)>, body: seq<Op>,
                         F: set<(Op, Op)>, steps: seq<Contraction<Op>>, c: Op -> nat, reps: seq<nat>)
    requires Bridged(ops, vec, entry, exit) && Batched(ops, E, body, F, steps, c, reps)
    requires AllMirror(ops, vec, entry, exit) && forall u :: u in Elems(vec) ==> Supported(u)
    ensures AllBuildable(body, InnerEdges(body, E))
  {
    var inner := InnerEdges(body, E);
    forall o | o in body && o.source == null && o.name == BatchOp ensures o in inner && Buildable(o, inner[o]) {
      LiveOps(ops, vec, entry, exit, E, body, F, steps, c, reps, o);
      var j :| 0 <= j < |steps| && steps[j].batch == o;
      MemberOf(ops, E, body, F, steps, c, reps, j, o);
      AcyclicSubset(Inside(E, steps[j].members), E);
      forall m | m in Elems(o.region) ensures Agrees(m) {
        MemberOf(ops, E, body, F, steps, c, reps, j, m);
        MemberAgrees(ops, vec, entry, exit, m);
      }
    }
  }

  /** Entry and exit are never grouped. */
  lemma BatchedEnds(ops: seq<Op>, vec: seq<Node>, entry: Node, exit: Node, E: set<(Op, Op)>, body: seq<Op>,
                    F: set<(Op, Op)>, steps: seq<Contraction<Op>>, c: Op -> nat, reps: seq<nat>)
    requires Bridged(ops, vec, entry, exit) && Batched(ops, E, body, F, steps, c, reps)
    ensures exists o :: o in body && MarkedAs(o.name, true) && o.source == entry
    ensures exists o :: o in body && MarkedAs(o.name, false) && o.source == exit
  {
    var a: nat, b: nat := IndexOf(vec, entry), IndexOf(vec, exit);
    forall o | o == ops[a] || o == ops[b] ensures o in body {
      assert o in ops && IsEntryExit(o.name);
      LiveOps(ops, vec, entry, exit, E, body, F, steps, c, reps, o);
      if c(o) in reps {
        MemberOf(ops, E, body, F, steps, c, reps, IndexOf(reps, c(o)), o);
      }
    }
    assert MarkedAs(ops[a].name, true) && ops[a].source == entry;
    assert MarkedAs(ops[b].name, false) && ops[b].source == exit;
  }

  // ------------------------------------------------------------ names

  /** The node an operation stands for: its source, or the node built for it. */
  ghost function NameOf(out: map<Op, Node>, other: Node): Op -> Node {
    (o: Op) => if o.source != null then o.source else if o in out then out[o] else other
  }

  /** What the export made of the batched body. */
  ghost predicate ExportedAs(ops: seq<Op>, vec: seq<Node>, body: seq<Op>, xs: seq<Export>, out: map<Op, Node>) {
    && |xs| == |body| && Named(body, xs, out) && Produced(body, xs)
    && forall j: nat :: j < |xs| && body[j].source == null ==> xs[j].node !in Elems(vec)
  }

  lemma NamesAgree(ops: seq<Op>, vec: seq<Node>, body: seq<Op>, xs: seq<Export>, out: map<Op, Node>, other: Node, o: Op)
    requires ExportedAs(ops, vec, body, xs, out) && o in body
    ensures o in out && NameOf(out, other)(o) == out[o] == NodeOf(out, other)(o)
    ensures o.source == null ==> out[o] !in Elems(vec)
  {
    NamedAll(body, xs, out);
    var j: nat := IndexOf(body, o);
  }

  /** Imported operations and batches all have names of their own. */
  lemma NamesInject(ops: seq<Op>, vec: seq<Node>, entry: Node, exit: Node, E: set<(Op, Op)>, body: seq<Op>,
                    F: set<(Op, Op)>, steps: seq<Contraction<Op>>, c: Op -> nat, reps: seq<nat>, xs: seq<Export>,
                    out: map<Op, Node>, other: Node)
    requires Bridged(ops, vec, entry, exit) && Batched(ops, E, body, F, steps, c, reps) &&
        ExportedAs(ops, vec, body, xs, out)
    ensures Injects(Elems(ops) + BatchesIn(steps), NameOf(out, other))
    ensures forall o :: o in Elems(ops) ==>
        NameOf(out, other)(o) == o.source && o.source != null && o.source in Elems(vec)
  {
    var f := NameOf(out, other);
    NamedAll(body, xs, out);
    forall o | o in Elems(ops) ensures f(o) == o.source && o.source != null && o.source in Elems(vec) {
      SameSource(ops, vec, entry, exit, o, o);
    }
    forall b | b in BatchesIn(steps) ensures b in body && b.source == null && f(b) == out[b] && f(b) !in Elems(vec) {
      var s :| s in steps && s.batch == b;
      var j := IndexOf(steps, s);
      LiveOps(ops, vec, entry, exit, E, body, F, steps, c, reps, b);
      NamesAgree(ops, vec, body, xs, out, other, b);
    }
    hide Bridged, Batched, ExportedAs, Named, Produced;
    forall o, p | o in Elems(ops) + BatchesIn(steps) && p in Elems(ops) + BatchesIn(steps) &&
        f(o) == f(p) ensures o == p {
      if o in Elems(ops) && p in Elems(ops) {
        SameSource(ops, vec, entry, exit, o, p);
      }
    }
  }

  /** Quotients by names that agree on the nodes are the same. */
  lemma SameNames<W>(N: set<Op>, E: set<(Op, Op)>, f: Op -> W, g: Op -> W)
    requires Within(E, N) && forall o :: o in N ==> f(o) == g(o)
    ensures Quotient(E, f) == Quotient(E, g)
  {
    forall q | q in Quotient(E, f) ensures q in Quotient(E, g) {
      var e := QuotientEdge(E, f, q);
      InQuotient(E, g, e);
    }
    forall q | q in Quotient(E, g) ensures q in Quotient(E, f) {
      var e := QuotientEdge(E, g, q);
      InQuotient(E, f, e);
    }
  }

  lemma ImportedImage(ops: seq<Op>, vec: seq<Node>, entry: Node, exit: Node, f: Op -> Node)
    requires Bridged(ops, vec, entry, exit) && forall o :: o in Elems(ops) ==> f(o) == o.source
    ensures Image(Elems(ops), f) == Elems(vec)
  {
    forall u ensures u in Image(Elems(ops), f) <==> u in Elems(vec) {
      if u in Elems(vec) {
        var i: nat := IndexOf(vec, u);
        assert ops[i] in Elems(ops) && f(ops[i]) == u;
      }
      if u in Image(Elems(ops), f) {
        var o :| o in Elems(ops) && u == f(o);
        var i: nat := IndexOf(ops, o);
      }
    }
  }

  lemma ExportedImage(ops: seq<Op>, vec: seq<Node>, body: seq<Op>, xs: seq<Export>, out: map<Op, Node>, other: Node)
    requires ExportedAs(ops, vec, body, xs, out)
    ensures Image(Elems(body), NameOf(out, other)) == out.Values
  {
    NamedAll(body, xs, out);
    var f := NameOf(out, other);
    forall u ensures u in Image(Elems(body), f) <==> u in out.Values {
      if u in out.Values {
        var o :| o in out && out[o] == u;
        NamesAgree(ops, vec, body, xs, out, other, o);
      }
      if u in Image(Elems(body), f) {
        var o :| o in Elems(body) && u == f(o);
        NamesAgree(ops, vec, body, xs, out, other, o);
      }
    }
  }

  /** The exported graph is the contraction of the original one, group by group. */
  lemma ExportContracted(ops: seq<Op>, vec: seq<Node>, entry: Node, exit: Node, G: set<(Node, Node)>, body: seq<Op>,
                         F: set<(Op, Op)>, steps: seq<Contraction<Op>>, c: Op -> nat, reps: seq<nat>, xs: seq<Export>,
                         out: map<Op, Node>, other: Node)
    requires Bridged(ops, vec, entry, exit) && Batched(ops, Lifted(ops, vec, G), body, F, steps, c, reps) &&
        ExportedAs(ops, vec, body, xs, out)
    requires (forall e :: e in G ==> e.0 in Elems(vec) && e.1 in Elems(vec) && e.0 != e.1) &&
        Sensible(steps, Elems(ops), Lifted(ops, vec, G))
    ensures var groups := RenamedSteps(steps, NameOf(out, other));
            && Contracted(groups, Elems(vec), G) == (out.Values, Quotient(F, NodeOf(out, other))) &&
                Sensible(groups, Elems(vec), G)
  {
    var E, f := Lifted(ops, vec, G), NameOf(out, other);
    var U := Elems(ops) + BatchesIn(steps);
    NamesInject(ops, vec, entry, exit, E, body, F, steps, c, reps, xs, out, other);
    ImportedImage(ops, vec, entry, exit, f);
    ExportedImage(ops, vec, body, xs, out, other);
    LiftedIs(ops, vec, G, other);
    forall o | o in Elems(body) ensures f(o) == NodeOf(out, other)(o) {
      NamesAgree(ops, vec, body, xs, out, other, o);
    }
    BatchedParts(ops, E, body, F, steps, c, reps);
    hide *;
    SourceNames(ops, f, other);
    SameNames(Elems(ops), E, f, SourceOr(other));
    SameNames(Elems(body), F, f, NodeOf(out, other));
    ContractedRenamed(steps, Elems(ops), E, f, U);
  }

  lemma SourceNames(ops: seq<Op>, f: Op -> Node, other: Node)
    requires forall o :: o in Elems(ops) ==> f(o) == o.source
    ensures forall o :: o in Elems(ops) ==> f(o) == SourceOr(other)(o)
  {
  }

  lemma BatchedParts(ops: seq<Op>, E: set<(Op, Op)>, body: seq<Op>, F: set<(Op, Op)>, steps: seq<Contraction<Op>>,
                     c: Op -> nat, reps: seq<nat>)
    requires Batched(ops, E, body, F, steps, c, reps) && Sensible(steps, Elems(ops), E)
    ensures Within(E, Elems(ops)) && Acyclic(E) && (Elems(body), F) == Contracted(steps, Elems(ops), E) &&
        Within(F, Elems(body))
  {
    ContractedWithin(steps, Elems(ops), E);
  }

  // ------------------------------------------------------------ what the batches replay

  /** The member named `u`. */
  ghost function MemberNamed(S: set<Op>, f: Op -> Node, u: Node): (m: Op)
    requires u in Image(S, f)
    ensures m in S && f(m) == u
  {
    var m :| m in S && f(m) == u;
    m
  }

  /** The copies of a batch's members, by the node of the member. */
  ghost function CopiesByNode(S: set<Op>, f: Op -> Node, copy: map<Op, Node>): (byNode: map<Node, Node>)
    ensures copy.Keys == S ==> byNode.Keys == Image(S, f)
  {
    map u | u in Image(S, f) && MemberNamed(S, f, u) in copy :: copy[MemberNamed(S, f, u)]
  }

  lemma CopyOfMember(S: set<Op>, f: Op -> Node, copy: map<Op, Node>, m: Op)
    requires copy.Keys == S && Injects(S, f) && m in S
    ensures f(m) in Image(S, f) && CopiesByNode(S, f, copy)[f(m)] == copy[m]
  {
    assert MemberNamed(S, f, f(m)) == m;
  }

  /** The sub-graph built for a batch orders the copies as the members' edges order the members' nodes. */
  lemma CopiesOrdered(S: set<Op>, I: set<(Op, Op)>, f: Op -> Node, copy: map<Op, Node>, b: Node, s: Node, t: Node,
                      m: Op, n: Op)
    requires copy.Keys == S && Injective(copy) && Within(I, S) && Acyclic(I) && Injects(S, f) && s !in copy.Values &&
        t !in copy.Values
    requires Coherent(copy.Values + {s, t}, CopiedEdges(I, copy, b, s, t), s, t) && m in S && n in S
    ensures Before(CopiedEdges(I, copy, b, s, t), copy[m], copy[n]) <==> Before(Quotient(I, f), f(m), f(n))
  {
    var h := NodeOf(copy, b);
    var C, K := Quotient(I, h), CopiedEdges(I, copy, b, s, t);
    CoherentEnds(copy.Values + {s, t}, K, s, t);
    CopiedEnds(I, copy, b, s, t);
    assert forall o :: o in S ==> h(o) == copy[o];
    IsRenaming(S, I, h);
    IsRenaming(S, I, f);
    hide Coherent, CopiedEdges, Before, Quotient, Acyclic;
    EndsKeepOrder(C, K, s, t, copy[m], copy[n]);
    BeforeRenamed(S, I, h, m, n);
    BeforeRenamed(S, I, f, m, n);
  }

  lemma CopiedEnds(I: set<(Op, Op)>, copy: map<Op, Node>, b: Node, s: Node, t: Node)
    ensures Quotient(I, NodeOf(copy, b)) <= CopiedEdges(I, copy, b, s, t)
    ensures forall e :: e in CopiedEdges(I, copy, b, s, t) && e !in Quotient(I, NodeOf(copy, b)) ==>
        e.0 == s || e.1 == t
  {
    hide Quotient;
  }

  /** Copies of different members differ, and are ordered as the members' nodes. */
  lemma BuiltPair(b: Node, o: Op, S: set<Op>, I: set<(Op, Op)>, f: Op -> Node, copy: map<Op, Node>, u: Node, v: Node)
    requires BatchBuilt(b, o, I, copy) && Elems(o.region) == S && Within(I, S) && Acyclic(I) && Injects(S, f)
    requires u in Image(S, f) && v in Image(S, f)
    ensures Before(b.command.graph.edges, CopiesByNode(S, f, copy)[u], CopiesByNode(S, f, copy)[v]) <==>
        Before(Quotient(I, f), u, v)
    ensures CopiesByNode(S, f, copy)[u] == CopiesByNode(S, f, copy)[v] ==> u == v
  {
    hide Before, Quotient, CopiedEdges, Coherent, CopiesByNode, Acyclic, Within;
    var m, n := MemberNamed(S, f, u), MemberNamed(S, f, v);
    CopyOfMember(S, f, copy, m);
    CopyOfMember(S, f, copy, n);
    CopiesOrdered(S, I, f, copy, b, b.command.graph.entry, b.command.graph.exit, m, n);
  }

  /** Every member's node has its copy in the sub-graph. */
  lemma BuiltCopy(b: Node, o: Op, S: set<Op>, I: set<(Op, Op)>, f: Op -> Node, copy: map<Op, Node>, u: Node)
    requires BatchBuilt(b, o, I, copy) && MembersCopied(copy) && Elems(o.region) == S && Injects(S, f) &&
        u in Image(S, f)
    requires forall m :: m in S ==> m.source != null && f(m) == m.source
    ensures CopiesByNode(S, f, copy)[u] in b.command.graph.nodes && Copies(u, CopiesByNode(S, f, copy)[u])
  {
    hide CopiedEdges, Coherent, CopiesByNode;
    var m := MemberNamed(S, f, u);
    CopyOfMember(S, f, copy, m);
    assert copy[m] in copy.Values;
  }

  /** Everything else in the sub-graph is its entry or its exit. */
  lemma BuiltRest(b: Node, o: Op, S: set<Op>, I: set<(Op, Op)>, f: Op -> Node, copy: map<Op, Node>)
    requires BatchBuilt(b, o, I, copy) && Elems(o.region) == S && Injects(S, f)
    ensures b.command.Batch? && copy.Keys == S && CopiesByNode(S, f, copy).Values == copy.Values
    ensures forall y :: y in b.command.graph.nodes && y !in copy.Values ==>
      (y == b.command.graph.entry || y == b.command.graph.exit) && y.kind == EmptyNode
  {
    hide CopiedEdges, Coherent, CopiesByNode;
    CopiedNodes(S, f, copy);
  }

  /** A built batch replays the group it was built for. */
  lemma BuiltReplays(o: Op, b: Node, S: set<Op>, I: set<(Op, Op)>, f: Op -> Node, copy: map<Op, Node>)
    requires BatchBuilt(b, o, I, copy) && MembersCopied(copy) && Elems(o.region) == S && Within(I, S) && Acyclic(I) &&
        Injects(S, f)
    requires forall m :: m in S ==> m.source != null && f(m) == m.source
    ensures copy.Keys == S && Replays(b, Image(S, f), Quotient(I, f), CopiesByNode(S, f, copy))
  {
    hide *;
    BuiltRest(b, o, S, I, f, copy);
    forall u | u in Image(S, f)
      ensures CopiesByNode(S, f, copy)[u] in b.command.graph.nodes && Copies(u, CopiesByNode(S, f, copy)[u])
    {
      BuiltCopy(b, o, S, I, f, copy, u);
    }
    forall u, v | u in Image(S, f) && v in Image(S, f)
      ensures Before(b.command.graph.edges, CopiesByNode(S, f, copy)[u], CopiesByNode(S, f, copy)[v]) <==>
          Before(Quotient(I, f), u, v)
      ensures CopiesByNode(S, f, copy)[u] == CopiesByNode(S, f, copy)[v] ==> u == v
    {
      BuiltPair(b, o, S, I, f, copy, u, v);
    }
    IsReplay(b, Image(S, f), Quotient(I, f), CopiesByNode(S, f, copy));
  }

  lemma IsReplay(b: Node, S: set<Node>, I: set<(Node, Node)>, copy: map<Node, Node>)
    requires b.command.Batch? && copy.Keys == S
    requires forall u :: u in S ==> copy[u] in b.command.graph.nodes && Copies(u, copy[u])
    requires forall u, v :: u in S && v in S ==>
        (Before(b.command.graph.edges, copy[u], copy[v]) <==> Before(I, u, v)) && (copy[u] == copy[v] ==> u == v)
    requires forall y :: y in b.command.graph.nodes && y !in copy.Values ==>
      (y == b.command.graph.entry || y == b.command.graph.exit) && y.kind == EmptyNode
    ensures Replays(b, S, I, copy)
  {
    hide Before, Copies;
  }

  lemma CopiedNodes(S: set<Op>, f: Op -> Node, copy: map<Op, Node>)
    requires copy.Keys == S && Injects(S, f)
    ensures CopiesByNode(S, f, copy).Values == copy.Values
  {
    var byNode := CopiesByNode(S, f, copy);
    forall y ensures y in byNode.Values <==> y in copy.Values {
      if y in copy.Values {
        var m :| m in copy && copy[m] == y;
        CopyOfMember(S, f, copy, m);
        assert f(m) in byNode && byNode[f(m)] == y;
      }
      if y in byNode.Values {
        var u :| u in byNode && byNode[u] == y;
        assert copy[MemberNamed(S, f, u)] == y;
      }
    }
  }

  // ------------------------------------------------------------ the stage

  lemma {:induction false} SensiblePrefix<V>(steps: seq<Contraction<V>>, N: set<V>, E: set<(V, V)>, j: nat)
    requires Sensible(steps, N, E) && j <= |steps|
    ensures Sensible(steps[..j], N, E)
  {
    if j < |steps| {
      SensiblePrefix(steps[..|steps| - 1], N, E, j);
      assert steps[..|steps| - 1][..j] == steps[..j];
    } else {
      assert steps[..j] == steps;
    }
  }

  lemma ByClassPrefix(steps: seq<Contraction<Op>>, N: set<Op>, c: Op -> nat, reps: seq<nat>, j: nat)
    requires ByClass(steps, N, c, reps) && j < |steps|
    ensures ByClass(steps[..j], N, c, reps[..j]) && reps[j] !in reps[..j]
    ensures steps[j].members == set x | x in N && c(x) == reps[j]
  {
    forall k: nat | k < j ensures reps[..j][k] != reps[j] {}
  }

  /** When its turn comes a group has exactly the edges it had at first, under the names of the nodes. */
  lemma GroupEdges(N: set<Op>, E: set<(Op, Op)>, steps: seq<Contraction<Op>>, c: Op -> nat, reps: seq<nat>,
                   f: Op -> Node, j: nat)
    requires ByClass(steps, N, c, reps) && Sensible(steps, N, E) && Within(E, N) && Acyclic(E) &&
        Injects(N + BatchesIn(steps), f) && j < |steps|
    ensures Inside(Contracted(RenamedSteps(steps, f)[..j], Image(N, f), Quotient(E, f)).1, Image(steps[j].members, f))
         == Quotient(Inside(E, steps[j].members), f)
  {
    var front, S, U := steps[..j], steps[j].members, N + BatchesIn(steps);
    ByClassPrefix(steps, N, c, reps, j);
    SensiblePrefix(steps, N, E, j);
    assert RenamedSteps(steps, f)[..j] == RenamedSteps(front, f);
    assert BatchesIn(front) <= BatchesIn(steps) by { assert forall s :: s in front ==> s in steps; }
    ContractedRenamed(front, N, E, f, U);
    ContractedWithin(front, N, E);
    var r := Contracted(front, N, E);
    IsRenaming(r.0 + S, r.1, f);
    InsideRenamed(r.0 + S, r.1, f, S);
    UntouchedInside(front, N, E, c, reps[..j], reps[j], S);
  }

  /** The copies made for every group. */
  ghost function StageCopies(steps: seq<Contraction<Op>>, f: Op -> Node, body: seq<Op>,
                             xs: seq<Export>): (copies: seq<map<Node, Node>>)
    requires |xs| == |body| && forall j: nat :: j < |steps| ==> steps[j].batch in body
    ensures |copies| == |steps|
    ensures forall j: nat :: j < |steps| ==> copies[j] == CopiesByNode(steps[j].members, f,
        xs[IndexOf(body, steps[j].batch)].copy)
  {
    seq(|steps|, j requires 0 <= j < |steps| => CopiesByNode(steps[j].members, f,
        xs[IndexOf(body, steps[j].batch)].copy))
  }

  lemma BatchesLive(ops: seq<Op>, vec: seq<Node>, entry: Node, exit: Node, E: set<(Op, Op)>, body: seq<Op>,
                    F: set<(Op, Op)>, steps: seq<Contraction<Op>>, c: Op -> nat, reps: seq<nat>)
    requires Bridged(ops, vec, entry, exit) && Batched(ops, E, body, F, steps, c, reps)
    ensures forall j: nat :: j < |steps| ==> steps[j].batch in body
  {
    forall j: nat | j < |steps| ensures steps[j].batch in body {
      LiveOps(ops, vec, entry, exit, E, body, F, steps, c, reps, steps[j].batch);
    }
  }

  /** The node built for batch `j` replays its group. */
  lemma StageReplay(ops: seq<Op>, vec: seq<Node>, entry: Node, exit: Node, E: set<(Op, Op)>, body: seq<Op>,
                    F: set<(Op, Op)>, steps: seq<Contraction<Op>>, c: Op -> nat, reps: seq<nat>, xs: seq<Export>,
                    out: map<Op, Node>, other: Node, inner: map<Op, set<(Op, Op)>>, j: nat)
    requires Bridged(ops, vec, entry, exit) && Batched(ops, E, body, F, steps, c, reps) &&
        ExportedAs(ops, vec, body, xs, out)
    requires inner == InnerEdges(body, E) && j < |steps| && steps[j].batch in body
    requires forall k: nat :: k < |xs| ==> IsExport(body[k], InnerOf(inner, body[k]), xs[k])
    ensures var f, S := NameOf(out, other), steps[j].members;
            Replays(f(steps[j].batch), Image(S, f), Quotient(Inside(E, S), f),
                CopiesByNode(S, f, xs[IndexOf(body, steps[j].batch)].copy))
    ensures NameOf(out, other)(steps[j].batch).kind == CommandNode
  {
    var f, o, S := NameOf(out, other), steps[j].batch, steps[j].members;
    var k: nat := IndexOf(body, o);
    MemberOf(ops, E, body, F, steps, c, reps, j, o);
    assert InnerOf(inner, o) == Inside(E, S);
    NamesInject(ops, vec, entry, exit, E, body, F, steps, c, reps, xs, out, other);
    NamesAgree(ops, vec, body, xs, out, other, o);
    NamedAll(body, xs, out);
    assert IsExport(body[k], InnerOf(inner, body[k]), xs[k]) && f(o) == xs[k].node;
    AcyclicSubset(Inside(E, S), E);
    forall m | m in S ensures m in Elems(ops) { MemberOf(ops, E, body, F, steps, c, reps, j, m); }
    hide Batched, Bridged, ExportedAs, Replays, Quotient, Acyclic, Inside;
    BuiltReplays(o, xs[k].node, S, Inside(E, S), f, xs[k].copy) by {
      assert Within(Inside(E, S), S) by { InsideWithin(E, S); }
    }
  }

  lemma InsideWithin<V>(E: set<(V, V)>, S: set<V>)
    ensures Within(Inside(E, S), S)
  {
  }

  lemma LiftedAcyclic(ops: seq<Op>, vec: seq<Node>, entry: Node, exit: Node, G: set<(Node, Node)>)
    requires Bridged(ops, vec, entry, exit) && Acyclic(G) && forall e :: e in G ==>
        e.0 in Elems(vec) && e.1 in Elems(vec) && e.0 != e.1
    ensures Acyclic(Lifted(ops, vec, G)) && Within(Lifted(ops, vec, G), Elems(ops)) && NoDup(ops)
  {
    LiftedIs(ops, vec, G, entry);
    AcyclicRenamed(Elems(ops), Lifted(ops, vec, G), SourceOr(entry));
  }

  lemma IsBatched(ops: seq<Op>, E: set<(Op, Op)>, body: seq<Op>, F: set<(Op, Op)>, steps: seq<Contraction<Op>>,
                  c: Op -> nat, reps: seq<nat>)
    requires ByClass(steps, Elems(ops), c, reps) && (Elems(body), F) == Contracted(steps, Elems(ops), E) && NoDup(body)
    requires Acyclic(E) && Within(E, Elems(ops)) && forall j :: 0 <= j < |steps| ==> Held(steps[j], E)
    ensures Batched(ops, E, body, F, steps, c, reps)
  {
  }

  lemma BodyNoDup(g: GraphOp)
    requires g.Valid()
    ensures NoDup(g.body)
  {
  }

  /** The groups materialised are the alive candidate groups with two commands or more. */
  ghost predicate KeepsExactly(scratch: Grouping, reps: seq<nat>)
    reads scratch
  {
    scratch.Partition() && forall a: nat :: a in reps <==> a < scratch.n && scratch.Kept(a)
  }

  lemma KeptIs(ops: seq<Op>, scratch: Grouping, reps: seq<nat>)
    requires Indexed(ops, scratch) && forall a: nat :: a in reps <==> a < scratch.n && scratch.Kept(a)
    ensures KeepsExactly(scratch, reps)
  {
  }

  /** The batch pass, and what is needed of it here. */
  method BatchImported(g: GraphOp) returns (ghost steps: seq<Contraction<Op>>, scratch: Grouping, ghost reps: seq<nat>)
    requires g.Valid() && Acyclic(g.edges) && Within(g.edges, Elems(g.body))
    modifies g, Elems(g.body)`operands
    ensures g.Valid() && Indexed(old(g.body), scratch)
    ensures Batched(old(g.body), old(g.edges), g.body, g.edges, steps, ClassOf(old(g.body), scratch.cls), reps)
    ensures Sensible(steps, old(Elems(g.body)), old(g.edges))
    ensures KeepsExactly(scratch, reps) && scratch.Exhausted(Quotient(old(g.edges), ClassOf(old(g.body), scratch.cls)))
    ensures Greedily(Quotient(old(g.edges), Number(old(g.body))), scratch.dev, scratch.cand, scratch.cls)
  {
    hide *;
    ghost var ops, E := g.body, g.edges;
    steps, scratch, reps := PassBatch(g);
    BodyNoDup(g);
    KeptIs(ops, scratch, reps);
    IsBatched(ops, E, g.body, g.edges, steps, ClassOf(ops, scratch.cls), reps);
  }

  /** Import a command graph: an acyclic graph of operations. */
  method ImportAcyclic(cg: CommandGraph) returns (g: GraphOp, vec: seq<Node>)
    requires cg.Valid() && cg.Fresh() && Importable(cg)
    modifies cg`walkId, cg.nodes`walkId, cg.nodes`iteratorIndex
    ensures cg.Valid() && Elems(vec) == cg.nodes && g.Valid() && fresh(g) && fresh(Elems(g.body))
    ensures Bridged(g.body, vec, cg.entry, cg.exit) && AllMirror(g.body, vec, cg.entry, cg.exit)
    ensures g.edges == Lifted(g.body, vec, cg.edges) && Acyclic(g.edges) && Within(g.edges, Elems(g.body))
    ensures cg.walkId == NextWalkId(old(cg.walkId))
  {
    ValidParts(cg);
    CoherentParts(cg.nodes, cg.edges, cg.entry, cg.exit);
    hide *;
    ghost var preds, commands;
    g, vec, preds, commands := ImportReady(cg);
    LiftedAcyclic(g.body, vec, cg.entry, cg.exit, cg.edges);
  }

  /** Import a command graph and batch its operations. */
  method ImportAndBatch(cg: CommandGraph)
    returns (g: GraphOp, vec: seq<Node>, ghost ops: seq<Op>, ghost steps: seq<Contraction<Op>>, scratch: Grouping,
             ghost reps: seq<nat>)
    requires cg.Valid() && cg.Fresh() && Importable(cg)
    modifies cg`walkId, cg.nodes`walkId, cg.nodes`iteratorIndex
    ensures cg.Valid() && Elems(vec) == cg.nodes && g.Valid() && fresh(g)
    ensures Bridged(ops, vec, cg.entry, cg.exit) && AllMirror(ops, vec, cg.entry, cg.exit) && Indexed(ops, scratch)
    ensures Batched(ops, Lifted(ops, vec, cg.edges), g.body, g.edges, steps, ClassOf(ops, scratch.cls), reps)
    ensures Sensible(steps, Elems(ops), Lifted(ops, vec, cg.edges))
    ensures KeepsExactly(scratch, reps) && scratch.Exhausted(Quotient(Lifted(ops, vec, cg.edges),
        ClassOf(ops, scratch.cls)))
    ensures Greedily(Quotient(Lifted(ops, vec, cg.edges), Number(ops)), scratch.dev, scratch.cand, scratch.cls)
    ensures cg.walkId == NextWalkId(old(cg.walkId))
  {
    hide *;
    g, vec := ImportAcyclic(cg);
    ops := g.body;
    steps, scratch, reps := BatchImported(g);
  }

  // ------------------------------------------------------------ exporting the batches

  lemma SourcesIn(ops: seq<Op>, vec: seq<Node>, entry: Node, exit: Node, E: set<(Op, Op)>, body: seq<Op>,
                  F: set<(Op, Op)>, steps: seq<Contraction<Op>>, c: Op -> nat, reps: seq<nat>)
    requires Bridged(ops, vec, entry, exit) && Batched(ops, E, body, F, steps, c, reps)
    ensures SourcesOf(Elems(body)) <= Elems(vec)
  {
    forall o | o in Elems(body) && o.source != null ensures o.source in Elems(vec) {
      LiveOps(ops, vec, entry, exit, E, body, F, steps, c, reps, o);
      SameSource(ops, vec, entry, exit, o, o);
    }
  }

  /** The end found is the end the graph had. */
  lemma EndIs(ops: seq<Op>, vec: seq<Node>, entry: Node, exit: Node, E: set<(Op, Op)>, body: seq<Op>, F: set<(Op, Op)>,
              steps: seq<Contraction<Op>>, c: Op -> nat, reps: seq<nat>, xs: seq<Export>, end: Node, isEntry: bool)
    requires Bridged(ops, vec, entry, exit) && Batched(ops, E, body, F, steps, c, reps)
    requires |xs| == |body| && Produced(body, xs) && FoundEnd(body, xs, end, isEntry)
    ensures end == if isEntry then entry else exit
  {
    var j: nat :| j < |xs| && MarkedAs(body[j].name, isEntry) && end == xs[j].node;
    var o := body[j];
    LiveOps(ops, vec, entry, exit, E, body, F, steps, c, reps, o);
    if o.source == null {
      var k :| 0 <= k < |steps| && steps[k].batch == o;
      MemberOf(ops, E, body, F, steps, c, reps, k, o);
    } else {
      var i: nat := IndexOf(ops, o);
      assert ops[i].source == vec[i];
    }
  }

  lemma NewApart(ops: seq<Op>, vec: seq<Node>, body: seq<Op>, xs: seq<Export>, out: map<Op, Node>, news: set<object>)
    requires |xs| == |body| && Named(body, xs, out) && Produced(body, xs) && AllNew(body, xs, news)
    requires forall u :: u in Elems(vec) ==> u !in news
    ensures ExportedAs(ops, vec, body, xs, out)
  {
    hide Named, Produced;
  }

  /** The operations that will be written back hold the commands their nodes had. */
  ghost predicate HoldCommands(ops: seq<Op>, vec: seq<Node>, was: map<Node, Command>)
    reads (set o | o in ops)`command
  {
    |ops| == |vec| && forall i: nat :: i < |ops| && WrittenBack(ops[i]) && vec[i] in was ==>
        ops[i].command == was[vec[i]]
  }

  /** Nothing but what was read is written back. */
  lemma CommandsSame(ops: seq<Op>, vec: seq<Node>, entry: Node, exit: Node, E: set<(Op, Op)>, body: seq<Op>,
                     F: set<(Op, Op)>, steps: seq<Contraction<Op>>, c: Op -> nat, reps: seq<nat>,
                     was: map<Node, Command>, now: map<Node, Command>)
    requires Bridged(ops, vec, entry, exit) && Batched(ops, E, body, F, steps, c, reps) && Written(body, was, now)
    requires HoldCommands(ops, vec, was)
    ensures now == was
  {
    forall u | u in was ensures now[u] == was[u] {
      var o :| o in Elems(body) && o.source == u;
      LiveOps(ops, vec, entry, exit, E, body, F, steps, c, reps, o);
      var i: nat := IndexOf(ops, o);
      assert ops[i].source == vec[i];
    }
  }

  lemma MirroredCommands(ops: seq<Op>, vec: seq<Node>, entry: Node, exit: Node, body: seq<Op>, was: map<Node, Command>)
    requires AllMirror(ops, vec, entry, exit) && was == SourceCommands(body)
    ensures HoldCommands(ops, vec, was) && forall u :: u in SourcesOf(Elems(body)) ==> u in was && was[u] == u.command
  {
    forall i: nat | i < |ops| && WrittenBack(ops[i]) && vec[i] in was ensures ops[i].command == was[vec[i]] {
      assert Mirrors(ops[i], vec[i], vec[i] == entry, vec[i] == exit);
    }
  }

  lemma CommandsNow(body: seq<Op>, now: map<Node, Command>)
    requires now == SourceCommands(body)
    ensures now.Keys == SourcesOf(Elems(body)) && forall u :: u in SourcesOf(Elems(body)) ==>
        u in now && now[u] == u.command
  {
  }

  /** Every group is away from the ends, holds something and becomes a command node. */
  lemma GroupShape(ops: seq<Op>, vec: seq<Node>, entry: Node, exit: Node, E: set<(Op, Op)>, body: seq<Op>,
                   F: set<(Op, Op)>, steps: seq<Contraction<Op>>, c: Op -> nat, reps: seq<nat>, f: Op -> Node, j: nat)
    requires Bridged(ops, vec, entry, exit) && Batched(ops, E, body, F, steps, c, reps) && j < |steps|
    requires forall o :: o in Elems(ops) ==> f(o) == o.source
    ensures Image(steps[j].members, f) != {} && entry !in Image(steps[j].members, f) &&
        exit !in Image(steps[j].members, f)
  {
    MemberOf(ops, E, body, F, steps, c, reps, j, steps[j].batch);
    var x := steps[j].batch.region[0];
    assert x in Elems(steps[j].batch.region);
    assert f(x) in Image(steps[j].members, f);
    forall m | m in steps[j].members ensures f(m) != entry && f(m) != exit {
      MemberOf(ops, E, body, F, steps, c, reps, j, m);
      var i: nat := IndexOf(ops, m);
      assert ops[i].source == vec[i] && m in Elems(ops);
    }
  }

  /** Group `j` of the stage. */
  lemma StageDoneAt(ops: seq<Op>, vec: seq<Node>, entry: Node, exit: Node, G: set<(Node, Node)>, body: seq<Op>,
                    F: set<(Op, Op)>, steps: seq<Contraction<Op>>, c: Op -> nat, reps: seq<nat>, xs: seq<Export>,
                    out: map<Op, Node>, inner: map<Op, set<(Op, Op)>>, j: nat)
    requires Bridged(ops, vec, entry, exit) && Batched(ops, Lifted(ops, vec, G), body, F, steps, c, reps) &&
        ExportedAs(ops, vec, body, xs, out)
    requires (forall e :: e in G ==> e.0 in Elems(vec) && e.1 in Elems(vec) && e.0 != e.1) &&
        Sensible(steps, Elems(ops), Lifted(ops, vec, G))
    requires inner == InnerEdges(body, Lifted(ops, vec, G)) && |xs| == |body| && j < |steps| && steps[j].batch in body
    requires forall k: nat :: k < |xs| ==> IsExport(body[k], InnerOf(inner, body[k]), xs[k])
    ensures var f := NameOf(out, entry);
            var g := Contraction(Image(steps[j].members, f), f(steps[j].batch));
            && Replays(g.batch, g.members, Inside(Contracted(RenamedSteps(steps, f)[..j], Elems(vec), G).1, g.members),
                       CopiesByNode(steps[j].members, f, xs[IndexOf(body, steps[j].batch)].copy))
            && g.batch.kind == CommandNode && g.members != {} && entry !in g.members && exit !in g.members
  {
    var E, f := Lifted(ops, vec, G), NameOf(out, entry);
    hide *;
    NamesInject(ops, vec, entry, exit, E, body, F, steps, c, reps, xs, out, entry);
    StageEdges(ops, vec, entry, exit, G, body, F, steps, c, reps, f, entry, j);
    StageReplay(ops, vec, entry, exit, E, body, F, steps, c, reps, xs, out, entry, inner, j);
    GroupShape(ops, vec, entry, exit, E, body, F, steps, c, reps, f, j);
  }

  /** What the whole stage did: the groups contracted, and the copies in their sub-graphs. */
  lemma StageDone(ops: seq<Op>, vec: seq<Node>, entry: Node, exit: Node, G: set<(Node, Node)>, body: seq<Op>,
                  F: set<(Op, Op)>, steps: seq<Contraction<Op>>, c: Op -> nat, reps: seq<nat>, xs: seq<Export>,
                  out: map<Op, Node>, inner: map<Op, set<(Op, Op)>>)
    requires Bridged(ops, vec, entry, exit) && Batched(ops, Lifted(ops, vec, G), body, F, steps, c, reps) &&
        ExportedAs(ops, vec, body, xs, out)
    requires (forall e :: e in G ==> e.0 in Elems(vec) && e.1 in Elems(vec) && e.0 != e.1) &&
        Sensible(steps, Elems(ops), Lifted(ops, vec, G))
    requires inner == InnerEdges(body, Lifted(ops, vec, G)) && |xs| == |body| &&
        forall j: nat :: j < |steps| ==> steps[j].batch in body
    requires forall k: nat :: k < |xs| ==> IsExport(body[k], InnerOf(inner, body[k]), xs[k])
    ensures var f := NameOf(out, entry);
            AllReplay(RenamedSteps(steps, f), Elems(vec), G, StageCopies(steps, f, body, xs))
    ensures Fits(Batches(RenamedSteps(steps, NameOf(out, entry))), Elems(vec), G, entry, exit)
  {
    hide *;
    var f := NameOf(out, entry);
    var groups, copies := RenamedSteps(steps, f), StageCopies(steps, f, body, xs);
    ExportContracted(ops, vec, entry, exit, G, body, F, steps, c, reps, xs, out, entry);
    forall j: nat | j < |groups|
      ensures Replays(groups[j].batch, groups[j].members, Inside(Contracted(groups[..j], Elems(vec), G).1,
          groups[j].members), copies[j])
      ensures groups[j].batch.kind == CommandNode && groups[j].members != {} && entry !in groups[j].members &&
          exit !in groups[j].members
    {
      StageDoneAt(ops, vec, entry, exit, G, body, F, steps, c, reps, xs, out, inner, j);
    }
    GroupsReplay(groups, Elems(vec), G, copies);
    GroupsFit(groups, Elems(vec), G, entry, exit);
  }

  lemma GroupsReplay(groups: seq<Contraction<Node>>, N: set<Node>, E: set<(Node, Node)>, copies: seq<map<Node, Node>>)
    requires |copies| == |groups| && forall j: nat :: j < |groups| ==>
      Replays(groups[j].batch, groups[j].members, Inside(Contracted(groups[..j], N, E).1, groups[j].members), copies[j])
    ensures AllReplay(groups, N, E, copies)
  {
    hide Replays, Inside, Contracted;
  }

  lemma GroupsFit(groups: seq<Contraction<Node>>, N: set<Node>, E: set<(Node, Node)>, s: Node, t: Node)
    requires Sensible(groups, N, E) && forall j: nat :: j < |groups| ==>
      groups[j].batch.kind == CommandNode && groups[j].members != {} && s !in groups[j].members &&
          t !in groups[j].members
    ensures Fits(Batches(groups), N, E, s, t)
  {
    forall g | g in groups
      ensures g.members != {} && s !in g.members && t !in g.members && g.batch.kind == CommandNode
    {
      var j: nat := IndexOf(groups, g);
    }
  }

  lemma StageEdges(ops: seq<Op>, vec: seq<Node>, entry: Node, exit: Node, G: set<(Node, Node)>, body: seq<Op>,
                   F: set<(Op, Op)>, steps: seq<Contraction<Op>>, c: Op -> nat, reps: seq<nat>, f: Op -> Node,
                   other: Node, j: nat)
    requires Bridged(ops, vec, entry, exit) && Batched(ops, Lifted(ops, vec, G), body, F, steps, c, reps) && j < |steps|
    requires (forall e :: e in G ==> e.0 in Elems(vec) && e.1 in Elems(vec) && e.0 != e.1) &&
        Sensible(steps, Elems(ops), Lifted(ops, vec, G))
    requires Injects(Elems(ops) + BatchesIn(steps), f) && forall o :: o in Elems(ops) ==> f(o) == o.source
    ensures Inside(Contracted(RenamedSteps(steps, f)[..j], Elems(vec), G).1, Image(steps[j].members, f))
         == Quotient(Inside(Lifted(ops, vec, G), steps[j].members), f)
  {
    var E := Lifted(ops, vec, G);
    LiftedIs(ops, vec, G, other);
    ImportedImage(ops, vec, entry, exit, f);
    BatchedParts(ops, E, body, F, steps, c, reps);
    GroupsByClass(ops, E, body, F, steps, c, reps);
    hide *;
    SourceNames(ops, f, other);
    SameNames(Elems(ops), E, f, SourceOr(other));
    GroupEdges(Elems(ops), E, steps, c, reps, f, j);
  }

  lemma GroupsByClass(ops: seq<Op>, E: set<(Op, Op)>, body: seq<Op>, F: set<(Op, Op)>, steps: seq<Contraction<Op>>,
                      c: Op -> nat, reps: seq<nat>)
    requires Batched(ops, E, body, F, steps, c, reps)
    ensures ByClass(steps, Elems(ops), c, reps)
  {
  }

  lemma ReadyToExport(ops: seq<Op>, vec: seq<Node>, entry: Node, exit: Node, E: set<(Op, Op)>, body: seq<Op>,
                      F: set<(Op, Op)>, steps: seq<Contraction<Op>>, c: Op -> nat, reps: seq<nat>)
    requires Bridged(ops, vec, entry, exit) && Batched(ops, E, body, F, steps, c, reps)
    requires AllMirror(ops, vec, entry, exit) && forall u :: u in Elems(vec) ==> Supported(u)
    ensures Separate(body) && MembersApart(body) && AllBuildable(body, InnerEdges(body, E)) &&
        SourcesOf(Elems(body)) <= Elems(vec)
    ensures (exists o :: o in body && MarkedAs(o.name, true)) && (exists o :: o in body && MarkedAs(o.name, false))
  {
    BatchedSeparate(ops, vec, entry, exit, E, body, F, steps, c, reps);
    BatchedBuildable(ops, vec, entry, exit, E, body, F, steps, c, reps);
    BatchedEnds(ops, vec, entry, exit, E, body, F, steps, c, reps);
    SourcesIn(ops, vec, entry, exit, E, body, F, steps, c, reps);
  }

  /** What the export of a batched graph leaves. */
  lemma StageFinished(ops: seq<Op>, vec: seq<Node>, entry: Node, exit: Node, G: set<(Node, Node)>, body: seq<Op>,
                      F: set<(Op, Op)>, steps: seq<Contraction<Op>>, c: Op -> nat, reps: seq<nat>, xs: seq<Export>,
                      out: map<Op, Node>, news: set<object>, inner: map<Op, set<(Op, Op)>>, first: Node, last: Node,
                      nodes: set<Node>, edges: set<(Node, Node)>)
    returns (groups: seq<Contraction<Node>>, copies: seq<map<Node, Node>>)
    requires Bridged(ops, vec, entry, exit) && Batched(ops, Lifted(ops, vec, G), body, F, steps, c, reps)
    requires (forall e :: e in G ==> e.0 in Elems(vec) && e.1 in Elems(vec) && e.0 != e.1) &&
        Sensible(steps, Elems(ops), Lifted(ops, vec, G))
    requires |xs| == |body| && Named(body, xs, out) && Produced(body, xs) && AllNew(body, xs, news) &&
        forall u :: u in Elems(vec) ==> u !in news
    requires inner == InnerEdges(body, Lifted(ops, vec, G)) &&
        forall k: nat :: k < |xs| ==> IsExport(body[k], InnerOf(inner, body[k]), xs[k])
    requires FoundEnd(body, xs, first, true) && FoundEnd(body, xs, last, false)
    requires nodes == out.Values && edges == Quotient(F, NodeOf(out, first))
    ensures first == entry && last == exit && (nodes, edges) == Contracted(groups, Elems(vec), G)
    ensures groups == RenamedSteps(steps, NameOf(out, entry)) &&
        forall o :: o in Elems(ops) ==> NameOf(out, entry)(o) == o.source
    ensures AllReplay(groups, Elems(vec), G, copies) && Fits(Batches(groups), Elems(vec), G, entry, exit)
  {
    var E, f := Lifted(ops, vec, G), NameOf(out, entry);
    hide *;
    EndIs(ops, vec, entry, exit, E, body, F, steps, c, reps, xs, first, true);
    EndIs(ops, vec, entry, exit, E, body, F, steps, c, reps, xs, last, false);
    NewApart(ops, vec, body, xs, out, news);
    BatchesLive(ops, vec, entry, exit, E, body, F, steps, c, reps);
    groups, copies := RenamedSteps(steps, f), StageCopies(steps, f, body, xs);
    NamesInject(ops, vec, entry, exit, E, body, F, steps, c, reps, xs, out, entry);
    ExportContracted(ops, vec, entry, exit, G, body, F, steps, c, reps, xs, out, entry);
    StageDone(ops, vec, entry, exit, G, body, F, steps, c, reps, xs, out, inner);
  }

  /** The batched operations, all of them in `U`, with the edges inside the batches and the commands read. */
  ghost predicate Remembered(U: set<Op>, ops: seq<Op>, vec: seq<Node>, E: set<(Op, Op)>, body: seq<Op>,
                             F: set<(Op, Op)>, steps: seq<Contraction<Op>>, c: Op -> nat, reps: seq<nat>,
                             inner: map<Op, set<(Op, Op)>>, was: map<Node, Command>)
    reads U
  {
    && U == Elems(ops) + BatchesIn(steps) && Elems(body) <= U &&
        (forall s, m :: s in steps && m in s.members ==> m in U)
    && Batched(ops, E, body, F, steps, c, reps) && inner == InnerEdges(body, E) && HoldCommands(ops, vec, was)
  }

  lemma Remember(ops: seq<Op>, vec: seq<Node>, entry: Node, exit: Node, E: set<(Op, Op)>, body: seq<Op>,
                 F: set<(Op, Op)>, steps: seq<Contraction<Op>>, c: Op -> nat, reps: seq<nat>,
                 inner: map<Op, set<(Op, Op)>>, was: map<Node, Command>)
    requires Bridged(ops, vec, entry, exit) && AllMirror(ops, vec, entry, exit) &&
        Batched(ops, E, body, F, steps, c, reps)
    requires inner == InnerEdges(body, E) && was == SourceCommands(body)
    ensures Remembered(Elems(ops) + BatchesIn(steps), ops, vec, E, body, F, steps, c, reps, inner, was)
    ensures forall u :: u in SourcesOf(Elems(body)) ==> u in was && was[u] == u.command
  {
    MirroredCommands(ops, vec, entry, exit, body, was);
    forall o | o in Elems(body) ensures o in Elems(ops) + BatchesIn(steps) {
      LiveOps(ops, vec, entry, exit, E, body, F, steps, c, reps, o);
    }
  }

  lemma Recall(U: set<Op>, ops: seq<Op>, vec: seq<Node>, E: set<(Op, Op)>, body: seq<Op>, F: set<(Op, Op)>,
               steps: seq<Contraction<Op>>, c: Op -> nat, reps: seq<nat>, inner: map<Op, set<(Op, Op)>>,
               was: map<Node, Command>)
    requires Remembered(U, ops, vec, E, body, F, steps, c, reps, inner, was)
    ensures Batched(ops, E, body, F, steps, c, reps) && inner == InnerEdges(body, E) && HoldCommands(ops, vec, was)
  {
  }

  /** The export, and what it leaves alone: the operations and the commands. */
  method ExportKept(g: GraphOp, cg: CommandGraph, ghost vec: seq<Node>, ghost N: set<Node>, ghost ops: seq<Op>,
                    ghost U: set<Op>, ghost E: set<(Op, Op)>, ghost steps: seq<Contraction<Op>>, ghost c: Op -> nat,
                    ghost reps: seq<nat>, ghost inner: map<Op, set<(Op, Op)>>)
    returns (out: map<Op, Node>, ghost xs: seq<Export>, ghost news: set<object>)
    requires g.Valid() && Bridged(ops, vec, cg.entry, cg.exit) && AllMirror(ops, vec, cg.entry, cg.exit)
    requires N == Elems(vec) && U == Elems(ops) + BatchesIn(steps)
    requires Batched(ops, E, g.body, g.edges, steps, c, reps) && inner == InnerEdges(g.body, E) &&
        forall u :: u in N ==> Supported(u)
    modifies cg`entry, cg`exit, cg`nodes, cg`edges, N
    ensures Batched(ops, E, g.body, g.edges, steps, c, reps) && inner == InnerEdges(g.body, E)
    ensures |xs| == |g.body| && Named(g.body, xs, out) && Produced(g.body, xs) && AllNew(g.body, xs, news) &&
        fresh(news)
    ensures forall j: nat :: j < |xs| ==> IsExport(g.body[j], InnerOf(inner, g.body[j]), xs[j])
    ensures FoundEnd(g.body, xs, cg.entry, true) && FoundEnd(g.body, xs, cg.exit, false)
    ensures cg.nodes == out.Values && cg.edges == Quotient(g.edges, NodeOf(out, cg.entry)) && Listed(cg.nodes, cg.edges)
    ensures forall u :: u in N ==> u.command == old(u.command) && u.walkId == old(u.walkId)
  {
    hide *;
    ReadyToExport(ops, vec, cg.entry, cg.exit, E, g.body, g.edges, steps, c, reps);
    ghost var s, t, was := cg.entry, cg.exit, SourceCommands(g.body);
    Remember(ops, vec, s, t, E, g.body, g.edges, steps, c, reps, inner, was);
    out, xs, news := ExportGraph(g, cg, inner);
    Recall(U, ops, vec, E, g.body, g.edges, steps, c, reps, inner, was);
    CommandsSame(ops, vec, s, t, E, g.body, g.edges, steps, c, reps, was, SourceCommands(g.body));
    CommandsNow(g.body, was);
  }

  /** Export a batched graph: the contracted command graph, its batches replaying their groups.
      `N` are the imported nodes, `U` their operations and the batches. */
  method ExportBatched(g: GraphOp, cg: CommandGraph, ghost vec: seq<Node>, ghost N: set<Node>, ghost ops: seq<Op>,
                       ghost U: set<Op>, ghost G: set<(Node, Node)>, ghost steps: seq<Contraction<Op>>,
                       ghost c: Op -> nat, ghost reps: seq<nat>)
    returns (ghost groups: seq<Contraction<Node>>, ghost copies: seq<map<Node, Node>>, ghost f: Op -> Node)
    requires g.Valid() && Bridged(ops, vec, cg.entry, cg.exit) && AllMirror(ops, vec, cg.entry, cg.exit)
    requires N == Elems(vec) && U == Elems(ops) + BatchesIn(steps)
    requires Batched(ops, Lifted(ops, vec, G), g.body, g.edges, steps, c, reps) &&
        Sensible(steps, Elems(ops), Lifted(ops, vec, G))
    requires (forall e :: e in G ==> e.0 in Elems(vec) && e.1 in Elems(vec) && e.0 != e.1) &&
        forall u :: u in N ==> Supported(u)
    modifies cg`entry, cg`exit, cg`nodes, cg`edges, N
    ensures cg.entry == old(cg.entry) && cg.exit == old(cg.exit) && Listed(cg.nodes, cg.edges)
    ensures (cg.nodes, cg.edges) == Contracted(groups, N, G)
    ensures AllReplay(groups, N, G, copies) && Fits(Batches(groups), N, G, cg.entry, cg.exit)
    ensures groups == RenamedSteps(steps, f) && forall o :: o in Elems(ops) ==> f(o) == o.source
    ensures forall u :: u in N ==> u.command == old(u.command) && u.walkId == old(u.walkId)
  {
    ghost var E, s, t := Lifted(ops, vec, G), cg.entry, cg.exit;
    hide *;
    ghost var inner := InnerEdges(g.body, E);
    var out;
    ghost var xs, news;
    out, xs, news := ExportKept(g, cg, vec, N, ops, U, E, steps, c, reps, inner);
    f := NameOf(out, s);
    groups, copies := StageFinished(ops, vec, s, t, G, g.body, g.edges, steps, c, reps, xs, out, news, inner, cg.entry,
        cg.exit, cg.nodes, cg.edges);
  }

  // ------------------------------------------------------------ the whole stage

  /** The nodes of class `a`. */
  ghost function NodesOf(vec: seq<Node>, cls: seq<nat>, a: nat): set<Node>
    requires |cls| == |vec|
  {
    set i: nat | i < |vec| && cls[i] == a :: vec[i]
  }

  /** The groups contracted are those the greedy rule makes of the graph, with two commands or more, and the
      scratch arrays describe the nodes `vec`. */
  ghost predicate Grouped(groups: seq<Contraction<Node>>, vec: seq<Node>, E: set<(Node, Node)>, s: Node, t: Node,
                          scratch: Grouping, reps: seq<nat>)
    reads scratch
  {
    && KeepsExactly(scratch, reps) && scratch.Exhausted(Quotient(E, ClassOf(vec, scratch.cls))) && scratch.n == |vec| &&
        |groups| == |reps| && NoDup(reps)
    && Greedily(Quotient(E, Number(vec)), scratch.dev, scratch.cand, scratch.cls)
    && (forall i: nat :: i < |vec| ==>
         && scratch.dev[i] == vec[i].device && scratch.empty[i] == (vec[i].kind == EmptyNode)
         && scratch.cand[i] == (vec[i] != s && vec[i] != t))
    && forall j: nat :: j < |groups| ==> groups[j].members == NodesOf(vec, scratch.cls, reps[j])
  }

  lemma GroupMembers(ops: seq<Op>, vec: seq<Node>, s: Node, t: Node, cls: seq<nat>, a: nat, f: Op -> Node)
    requires Bridged(ops, vec, s, t) && |cls| == |ops| && forall o :: o in Elems(ops) ==> f(o) == o.source
    ensures Image((set x: Op | x in Elems(ops) && ClassOf(ops, cls)(x) == a), f) == NodesOf(vec, cls, a)
  {
    var M, L := (set x: Op | x in Elems(ops) && ClassOf(ops, cls)(x) == a), NodesOf(vec, cls, a);
    forall i: nat, k: nat | i < |ops| && k < |ops| && ops[i] == ops[k] ensures i == k {
      assert vec[i] == vec[k];
    }
    forall u ensures u in Image(M, f) <==> u in L {
      if u in Image(M, f) {
        var o :| o in M && u == f(o);
        var i: nat := IndexOf(ops, o);
        NumberAt(ops, i);
        assert vec[i] == u && cls[i] == a;
      }
      if u in L {
        var i: nat :| i < |vec| && cls[i] == a && vec[i] == u;
        NumberAt(ops, i);
        assert ops[i] in M && f(ops[i]) == u;
      }
    }
  }

  /** The edges between the classes are the same for the nodes and for their operations. */
  lemma ClassedEdges(ops: seq<Op>, vec: seq<Node>, s: Node, t: Node, G: set<(Node, Node)>, cls: seq<nat>)
    requires Bridged(ops, vec, s, t) && forall e :: e in G ==> e.0 in Elems(vec) && e.1 in Elems(vec) && e.0 != e.1
    ensures Quotient(Lifted(ops, vec, G), ClassOf(ops, cls)) == Quotient(G, ClassOf(vec, cls))
  {
    LiftedIs(ops, vec, G, s);
    var L := Lifted(ops, vec, G);
    forall e | e in L
      ensures ClassOf(ops, cls)(e.0) == ClassOf(vec, cls)(SourceOr(s)(e.0)) &&
          ClassOf(ops, cls)(e.1) == ClassOf(vec, cls)(SourceOr(s)(e.1))
    {
      var i: nat, j: nat :| i < |vec| && j < |vec| && (vec[i], vec[j]) in G && e == (ops[i], ops[j]);
      NumberAt(ops, i);
      NumberAt(ops, j);
      NumberAt(vec, i);
      NumberAt(vec, j);
      assert ops[i].source == vec[i] && ops[j].source == vec[j];
    }
    QuotientCompose(L, SourceOr(s), ClassOf(vec, cls), ClassOf(ops, cls));
  }

  lemma NumberedEdges(ops: seq<Op>, vec: seq<Node>, s: Node, t: Node, G: set<(Node, Node)>)
    requires Bridged(ops, vec, s, t) && forall e :: e in G ==> e.0 in Elems(vec) && e.1 in Elems(vec) && e.0 != e.1
    ensures Quotient(Lifted(ops, vec, G), Number(ops)) == Quotient(G, Number(vec))
  {
    LiftedIs(ops, vec, G, s);
    var L := Lifted(ops, vec, G);
    forall e | e in L
      ensures Number(ops)(e.0) == Number(vec)(SourceOr(s)(e.0)) && Number(ops)(e.1) == Number(vec)(SourceOr(s)(e.1))
    {
      var i: nat, j: nat :| i < |vec| && j < |vec| && (vec[i], vec[j]) in G && e == (ops[i], ops[j]);
      NumberAt(ops, i);
      NumberAt(ops, j);
      NumberAt(vec, i);
      NumberAt(vec, j);
      assert ops[i].source == vec[i] && ops[j].source == vec[j];
    }
    QuotientCompose(L, SourceOr(s), Number(vec), Number(ops));
  }

  lemma IsGrouped(ops: seq<Op>, vec: seq<Node>, s: Node, t: Node, G: set<(Node, Node)>, body: seq<Op>,
                  F: set<(Op, Op)>, steps: seq<Contraction<Op>>, scratch: Grouping, reps: seq<nat>, f: Op -> Node)
    requires Bridged(ops, vec, s, t) && Indexed(ops, scratch) && KeepsExactly(scratch, reps)
    requires scratch.Exhausted(Quotient(Lifted(ops, vec, G), ClassOf(ops, scratch.cls)))
    requires Greedily(Quotient(Lifted(ops, vec, G), Number(ops)), scratch.dev, scratch.cand, scratch.cls)
    requires forall e :: e in G ==> e.0 in Elems(vec) && e.1 in Elems(vec) && e.0 != e.1
    requires Batched(ops, Lifted(ops, vec, G), body, F, steps, ClassOf(ops, scratch.cls), reps) &&
        forall o :: o in Elems(ops) ==> f(o) == o.source
    ensures Grouped(RenamedSteps(steps, f), vec, G, s, t, scratch, reps)
  {
    hide Greedily, Grouping.Exhausted;
    var c := ClassOf(ops, scratch.cls);
    var groups := RenamedSteps(steps, f);
    ClassedEdges(ops, vec, s, t, G, scratch.cls);
    NumberedEdges(ops, vec, s, t, G);
    GroupsByClass(ops, Lifted(ops, vec, G), body, F, steps, c, reps);
    forall i: nat | i < |vec|
      ensures scratch.dev[i] == vec[i].device && scratch.empty[i] == (vec[i].kind == EmptyNode)
      ensures scratch.cand[i] == (vec[i] != s && vec[i] != t)
    {
      assert ops[i].source == vec[i] && ops[i].name == if vec[i].kind == EmptyNode then EmptyOp(vec[i] == s,
          vec[i] == t) else CommandOp;
    }
    forall j: nat | j < |groups| ensures groups[j].members == NodesOf(vec, scratch.cls, reps[j]) {
      GroupMembers(ops, vec, s, t, scratch.cls, reps[j], f);
    }
  }

  /** The MLIR batch pass on a command graph.  The top level becomes the contraction of the kept groups
      and stays a DAG between the same ends; every batch replays its group; the nodes keep their commands.
      Two tokens of one batch make a doubled edge, so the lists are exact as sets and dual as multisets. */
  method BatchOnMlir(cg: CommandGraph)
    returns (vec: seq<Node>, ghost groups: seq<Contraction<Node>>, ghost copies: seq<map<Node, Node>>,
             scratch: Grouping, ghost reps: seq<nat>)
    requires cg.Valid() && cg.Fresh() && Importable(cg)
    modifies cg`walkId, cg`entry, cg`exit, cg`nodes, cg`edges, cg.nodes
    ensures cg.entry == old(cg.entry) && cg.exit == old(cg.exit) && cg.walkId == NextWalkId(old(cg.walkId))
    ensures Elems(vec) == old(cg.nodes) && Grouped(groups, vec, old(cg.edges), cg.entry, cg.exit, scratch, reps)
    ensures Fits(Batches(groups), old(cg.nodes), old(cg.edges), cg.entry, cg.exit)
    ensures (cg.nodes, cg.edges) == After(Batches(groups), old(cg.nodes), old(cg.edges))
    ensures AllReplay(groups, old(cg.nodes), old(cg.edges), copies)
    ensures Coherent(cg.nodes, cg.edges, cg.entry, cg.exit) && Listed(cg.nodes, cg.edges)
    ensures forall u :: u in old(cg.nodes) ==> u.command == old(u.command)
  {
    hide *;
    ghost var N, E, s, t := cg.nodes, cg.edges, cg.entry, cg.exit;
    var g;
    ghost var ops, steps;
    ImportableParts(cg);
    g, vec, ops, steps, scratch, reps := ImportAndBatch(cg);
    ValidParts(cg);
    ghost var f;
    groups, copies, f := ExportBatched(g, cg, vec, N, ops, Elems(ops) + BatchesIn(steps), E, steps,
        ClassOf(ops, scratch.cls), reps);
    BatchesCoherent(groups, N, E, s, t);
    AfterBatches(groups, N, E);
    IsGrouped(ops, vec, s, t, E, g.body, g.edges, steps, scratch, reps, f);
  }

  lemma AfterBatches(groups: seq<Contraction<Node>>, N: set<Node>, E: set<(Node, Node)>)
    ensures After(Batches(groups), N, E) == Contracted(groups, N, E)
  {
  }
}
