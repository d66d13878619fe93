/** export_command_graph: nodes reused or built from the operations, adjacency relinked from the operands. */
module MlirExport {
  import opened AdjacencyLists
  import opened CommandGraphs
  import opened Digraphs
  import opened Lists
  import opened MlirGraphs
  import opened Plans
  import opened PodBatch
  import opened QuotientCoherence
  import opened Quotients
  import opened TransitiveReduction
  import opened Traversals

  // ------------------------------------------------------------ relinking

  /** The nodes the operations listed stand for. */
  function Mapped(s: seq<Op>, out: map<Op, Node>): (r: seq<Node>)
    requires forall o :: o in s ==> o in out
    ensures |r| == |s| && forall k :: 0 <= k < |s| ==> r[k] == out[s[k]]
  {
    seq(|s|, k requires 0 <= k < |s| => out[s[k]])
  }

  ghost function NodeOf(out: map<Op, Node>, other: Node): Op -> Node {
    (o: Op) => if o in out then out[o] else other
  }

  ghost predicate Injective(out: map<Op, Node>) {
    forall x, y :: x in out && y in out && out[x] == out[y] ==> x == y
  }

  /** The edges that the tokens `s` of `o` stand for. */
  ghost function Arrivals(s: seq<Op>, out: map<Op, Node>, o: Op): set<(Node, Node)>
    requires o in out && forall t :: t in s ==> t in out
  {
    set t | t in s :: (out[t], out[o])
  }

  lemma MappedMore(s: seq<Op>, out: map<Op, Node>, o: Op, k: nat)
    requires k < |s| && o in out && forall t :: t in s ==> t in out
    ensures Mapped(s[..k + 1], out) == Mapped(s[..k], out) + [out[s[k]]]
    ensures Arrivals(s[..k + 1], out, o) == Arrivals(s[..k], out, o) + {(out[s[k]], out[o])}
  {
    assert s[..k + 1] == s[..k] + [s[k]];
  }

  /** One operation's operands, relinked in their order. */
  method RelinkOne(o: Op, v: Node, out: map<Op, Node>, ghost nodes: set<Node>, ghost E: set<(Node, Node)>)
    requires o in out && v == out[o] && (forall t :: t in o.operands ==> t in out) && nodes == out.Values
    requires Listed(nodes, E) && v.predecessors == []
    modifies nodes`successors, v`predecessors
    ensures v.predecessors == Mapped(o.operands, out)
    ensures Listed(nodes, E + Arrivals(o.operands, out, o))
  {
    hide Listed;
    var s := o.operands;
    assert E + Arrivals(s[..0], out, o) == E && Mapped(s[..0], out) == [];
    for k := 0 to |s|
      invariant v.predecessors == Mapped(s[..k], out)
      invariant Listed(nodes, E + Arrivals(s[..k], out, o))
    {
      MappedMore(s, out, o, k);
      assert out[s[k]] in nodes && v in nodes;
      LinkAgain(out[s[k]], v, nodes, E + Arrivals(s[..k], out, o));
      assert E + Arrivals(s[..k], out, o) + {(out[s[k]], out[o])} == E + Arrivals(s[..k + 1], out, o);
    }
    assert s[..|s|] == s;
  }

  /** The edges into the first `i` operations. */
  ghost function Relinked(ops: seq<Op>, F: set<(Op, Op)>, f: Op -> Node, i: nat): set<(Node, Node)>
    requires i <= |ops|
  {
    set e | e in F && e.1 in ops[..i] :: (f(e.0), f(e.1))
  }

  lemma RelinkedMore(ops: seq<Op>, F: set<(Op, Op)>, out: map<Op, Node>, other: Node, i: nat)
    requires NoDup(ops) && Feeds(Elems(ops), F) && out.Keys == Elems(ops) && i < |ops|
    ensures ops[i] in out && forall t :: t in ops[i].operands ==> t in out
    ensures Relinked(ops, F, NodeOf(out, other), i + 1) == Relinked(ops, F, NodeOf(out, other),
        i) + Arrivals(ops[i].operands, out, ops[i])
  {
    var f, o := NodeOf(out, other), ops[i];
    assert ops[..i + 1] == ops[..i] + [o];
    assert o in Elems(ops) && Elems(o.operands) == Sources(F, o);
    forall t | t in o.operands ensures t in out && (t, o) in F {
      assert t in Elems(o.operands);
      NotAnEdge(F, t, o);
    }
    forall e | e in F && e.1 == o ensures e.0 in o.operands {
      assert e.0 in Elems(o.operands);
    }
    hide Feeds, NoDup;
    var A, B := Relinked(ops, F, f, i), Arrivals(o.operands, out, o);
    forall q ensures q in Relinked(ops, F, f, i + 1) <==> q in A + B {
      if q in B {
        var t :| t in o.operands && q == (out[t], out[o]);
        assert (t, o) in F && (t, o).1 in ops[..i + 1];
      }
      if q in Relinked(ops, F, f, i + 1) {
        var e :| e in F && e.1 in ops[..i + 1] && q == (f(e.0), f(e.1));
        if e.1 == o { assert e.0 in o.operands; }
      }
    }
  }

  lemma RelinkedAll(ops: seq<Op>, F: set<(Op, Op)>, out: map<Op, Node>, other: Node)
    requires Feeds(Elems(ops), F) && out.Keys == Elems(ops) && Injective(out)
    ensures Relinked(ops, F, NodeOf(out, other), |ops|) == Quotient(F, NodeOf(out, other))
    ensures Relinked(ops, F, NodeOf(out, other), 0) == {}
    ensures Renames(Elems(ops), F, NodeOf(out, other))
  {
    var f := NodeOf(out, other);
    assert ops[..|ops|] == ops;
    forall e | e in F ensures e.1 in ops && e.0 in ops && f(e.0) != f(e.1) {
      assert e.1 in Elems(ops) && e.0 in Elems(ops);
    }
  }

  /** The nodes of the first `i` operations have their operands' nodes as predecessors, the others have none yet. */
  ghost predicate RelinkedUpTo(ops: seq<Op>, out: map<Op, Node>, i: nat)
    reads (set o | o in ops)`operands, (set o | o in ops && o in out :: out[o])`predecessors
  {
    forall j: nat :: j < |ops| ==>
      && ops[j] in out && (j >= i ==> out[ops[j]].predecessors == [])
      && (j < i ==>
           && (forall t :: t in ops[j].operands ==> t in out)
           && out[ops[j]].predecessors == Mapped(ops[j].operands, out))
  }

  /** Nodes with cleared lists, relinked from the operands: predecessor lists are the operand lists. */
  method Relink(ops: seq<Op>, out: map<Op, Node>, ghost F: set<(Op, Op)>, ghost other: Node)
    requires NoDup(ops) && Feeds(Elems(ops), F) && out.Keys == Elems(ops) && Injective(out)
    requires forall u :: u in out.Values ==> u.successors == [] && u.predecessors == []
    modifies out.Values`successors, out.Values`predecessors
    ensures RelinkedUpTo(ops, out, |ops|)
    ensures Listed(out.Values, Quotient(F, NodeOf(out, other)))
  {
    ghost var nodes, f := out.Values, NodeOf(out, other);
    NothingListed(nodes);
    RelinkedAll(ops, F, out, other);
    assert RelinkedUpTo(ops, out, 0);
    hide Listed, Quotient, NodeOf, Relinked, NoDup, Feeds, RelinkedUpTo;
    for i := 0 to |ops|
      invariant RelinkedUpTo(ops, out, i) && Listed(nodes, Relinked(ops, F, f, i))
    {
      RelinkedMore(ops, F, out, other, i);
      RelinkStep(ops, out, i, nodes, Relinked(ops, F, f, i));
    }
  }

  method RelinkStep(ops: seq<Op>, out: map<Op, Node>, i: nat, ghost nodes: set<Node>, ghost E: set<(Node, Node)>)
    requires i < |ops| && RelinkedUpTo(ops, out, i) && NoDup(ops) && Injective(out) && nodes == out.Values &&
        Listed(nodes, E)
    requires ops[i] in out && forall t :: t in ops[i].operands ==> t in out
    modifies nodes`successors, nodes`predecessors
    ensures RelinkedUpTo(ops, out, i + 1) && Listed(nodes, E + Arrivals(ops[i].operands, out, ops[i]))
  {
    hide Listed, NoDup, Arrivals;
    Distinct(ops, i);
    RelinkOne(ops[i], out[ops[i]], out, nodes, E);
  }

  lemma Distinct(ops: seq<Op>, i: nat)
    requires NoDup(ops) && i < |ops|
    ensures forall j: nat :: j < |ops| && j != i ==> ops[j] != ops[i]
  {
  }

  // ------------------------------------------------------------ nodes from operations

  /** A copy's attributes are written back; anything else keeps its command. */
  predicate WrittenBack(o: Op)
    reads o`command
  {
    o.name == CommandOp && (o.command.Copy1D? || o.command.Copy2D?)
  }

  method UpdateNode(u: Node, o: Op)
    modifies u`command
    ensures u.command == if WrittenBack(o) && !old(u.command).NoCommand? then o.command else old(u.command)
  {
    if o.name == CommandOp && (o.command.Copy1D? || o.command.Copy2D?) {
      if !u.command.NoCommand? {
        u.command := o.command;
      }
    }
  }

  /** A new node for an operation a pass created. */
  method CreateNode(o: Op) returns (u: Node)
    requires o.name != BatchOp
    ensures fresh(u) && u.device == o.device && u.successors == [] && u.predecessors == [] && u.walkId == 0
    ensures u.kind == (if o.name.EmptyOp? then EmptyNode else CommandNode)
    ensures u.command == if o.name.EmptyOp? then NoCommand else o.command
  {
    if o.name.EmptyOp? {
      u := new Node(o.device, EmptyNode);
    } else {
      u := new Node(o.device, CommandNode);
      u.command := o.command;
    }
  }

  /** A member of a batch agrees with the node it was imported from. */
  ghost predicate Agrees(m: Op)
    reads m`command, (if m.source == null then {} else {m.source})`command
  {
    && m.source != null && m.source.device == m.device
    && (m.source.kind == EmptyNode || (m.source.kind == CommandNode && m.name == CommandOp &&
        m.command == m.source.command))
  }

  /** The sub-node of a batch member: a new node over the command of the member's own node. */
  method CreateMember(m: Op) returns (u: Node)
    requires Agrees(m)
    ensures fresh(u) && u.successors == [] && u.predecessors == []
    ensures u.kind == m.source.kind && u.device == m.source.device &&
        (u.kind == CommandNode ==> u.command == m.source.command)
  {
    if m.source.kind == CommandNode && !m.source.command.NoCommand? {
      u := new Node(m.device, CommandNode);
      u.command := m.source.command;
      UpdateNode(u, m);
    } else if m.source.kind == EmptyNode {
      u := new Node(m.device, EmptyNode);
    } else {
      u := CreateNode(m);
    }
  }

  // ------------------------------------------------------------ a batch's sub-graph

  lemma NoneListed(nodes: set<Node>, E: set<(Node, Node)>, u: Node)
    requires Listed(nodes, E) && u in nodes
    ensures u.predecessors == [] <==> Sources(E, u) == {}
    ensures u.successors == [] <==> Targets(E, u) == {}
  {
    assert NodeListed(u, E);
    if u.predecessors != [] { assert u.predecessors[0] in Elems(u.predecessors); }
    if u.successors != [] { assert u.successors[0] in Elems(u.successors); }
  }

  /** Hang one member under the entry if nothing precedes it and over the exit if nothing succeeds it. */
  method ConnectOne(m: Node, entry: Node, exit: Node, ghost all: set<Node>, ghost G: set<(Node, Node)>)
    requires Listed(all, G) && m in all && entry in all && exit in all && m != entry && m != exit && entry != exit
    modifies all`successors, all`predecessors
    ensures Listed(all, G + (if Sources(G, m) == {} then {(entry, m)} else {}) + (if Targets(G,
        m) == {} then {(m, exit)} else {}))
  {
    hide Listed;
    ghost var G1 := G;
    NoneListed(all, G, m);
    if m.predecessors == [] {
      LinkAgain(entry, m, all, G);
      G1 := G + {(entry, m)};
      AddedEdge(G, entry, m);
    } else {
      assert G + {} == G;
    }
    NoneListed(all, G1, m);
    if m.successors == [] {
      LinkAgain(m, exit, all, G1);
    } else {
      assert G1 + {} == G1;
    }
  }

  method ConnectMembers(members: seq<Node>, entry: Node, exit: Node, ghost all: set<Node>, ghost F: set<(Node, Node)>)
    requires Listed(all, F) && NoDup(members) && Elems(members) <= all
    requires entry in all && exit in all && entry != exit && entry !in members && exit !in members
    modifies all`successors, all`predecessors
    ensures Listed(all, F + Ends(F, Elems(members), entry, exit))
  {
    hide Listed, Ends, NoDup;
    NoEnds(F, entry, exit);
    assert Elems(members[..0]) == {};
    for k := 0 to |members|
      invariant Listed(all, F + Ends(F, Elems(members[..k]), entry, exit))
    {
      var m := members[k];
      ElemsPrefix(members, k);
      assert m in Elems(members);
      EndsStep(F, Elems(members[..k]), m, entry, exit);
      ConnectOne(m, entry, exit, all, F + Ends(F, Elems(members[..k]), entry, exit));
    }
    assert members[..|members|] == members;
  }

  /** Unconnected nodes may join. */
  lemma ListedJoin(nodes: set<Node>, E: set<(Node, Node)>, more: set<Node>)
    requires Listed(nodes, E) && nodes !! more && forall u :: u in more ==> u.successors == [] && u.predecessors == []
    ensures Listed(nodes + more, E)
  {
    forall u | u in more ensures NodeListed(u, E) {
      NoSources(E, u);
    }
    forall u, v | u in nodes + more && v in nodes + more ensures Dual(u, v) {
      if u in nodes && v in more {
        assert v !in u.successors by { if v in u.successors { assert v in Elems(u.successors); NotAnEdge(E, u, v); } }
      }
      if u in more && v in nodes {
        assert u !in v.predecessors by { if u in v.predecessors { assert u in Elems(v.predecessors); NotAnEdge(E, u,
            v); } }
      }
    }
  }

  /** The members' copies, listed in the order of the region. */
  method CreateMembers(region: seq<Op>) returns (us: seq<Node>, copy: map<Op, Node>)
    requires NoDup(region) && forall m :: m in region ==> Agrees(m)
    ensures copy.Keys == Elems(region) && Injective(copy) && NoDup(us) && Elems(us) == copy.Values
    ensures forall u :: u in us ==> fresh(u) && u.successors == [] && u.predecessors == []
    ensures forall m :: m in copy ==>
      (m.source != null && copy[m].kind == m.source.kind && copy[m].device == m.source.device &&
          (copy[m].kind == CommandNode ==> copy[m].command == m.source.command))
  {
    us, copy := [], map[];
    for k := 0 to |region|
      invariant copy.Keys == Elems(region[..k]) && Injective(copy) && NoDup(us) && Elems(us) == copy.Values
      invariant forall u :: u in us ==> fresh(u) && u.successors == [] && u.predecessors == []
      invariant forall m :: m in copy ==>
        (m.source != null && copy[m].kind == m.source.kind && copy[m].device == m.source.device &&
            (copy[m].kind == CommandNode ==> copy[m].command == m.source.command))
    {
      var m := region[k];
      ElemsPrefix(region, k);
      assert m !in Elems(region[..k]);
      var u := CreateMember(m);
      assert u !in Elems(us);
      NoDupSnoc(us, u);
      copy := copy[m := u];
      us := us + [u];
    }
    assert region[..|region|] == region;
  }

  /** The edges of a sub-graph: those among the copies, and its own ends. */
  ghost function CopiedEdges(I: set<(Op, Op)>, copy: map<Op, Node>, other: Node, entry: Node,
                             exit: Node): set<(Node, Node)> {
    var F := Quotient(I, NodeOf(copy, other));
    F + Ends(F, copy.Values, entry, exit)
  }

  /** `b` is a batch over copies of the members of `o`, between an entry and an exit of its own, with the edges `I`. */
  ghost predicate BatchBuilt(b: Node, o: Op, I: set<(Op, Op)>, copy: map<Op, Node>)
    reads o`region, b`command, if b.command.Batch? then {b.command.graph} else {}
  {
    && b.kind == CommandNode && b.device == o.device && b.command.Batch? && copy.Keys == Elems(o.region) &&
        Injective(copy)
    && var g := b.command.graph;
       && g.entry.kind == EmptyNode && g.exit.kind == EmptyNode && g.entry !in copy.Values && g.exit !in copy.Values &&
           !g.isSequence
       && g.nodes == copy.Values + {g.entry, g.exit} && g.edges == CopiedEdges(I, copy, b, g.entry, g.exit)
       && Coherent(g.nodes, g.edges, g.entry, g.exit)
  }

  ghost predicate MembersCopied(copy: map<Op, Node>)
    reads copy.Values`command, (set m | m in copy && m.source != null :: m.source)`command
  {
    forall m :: m in copy ==>
      && m.source != null && copy[m].kind == m.source.kind && copy[m].device == m.source.device
      && (copy[m].kind == CommandNode ==> copy[m].command == m.source.command)
  }

  lemma CopiedCoherent(I: set<(Op, Op)>, copy: map<Op, Node>, us: seq<Node>, sub: CommandGraph, b: Node, entry: Node,
                       exit: Node)
    requires Feeds(copy.Keys, I) && Acyclic(I) && Injective(copy) && NoDup(us) && Elems(us) == copy.Values && us != []
    requires entry !in us && exit !in us && entry != exit
    ensures Coherent(copy.Values + {entry, exit}, CopiedEdges(I, copy, b, entry, exit), entry, exit)
  {
    var f := NodeOf(copy, b);
    var F := Quotient(I, f);
    forall q | q in F ensures q.0 in copy.Values && q.1 in copy.Values {
      var e := QuotientEdge(I, f, q);
    }
    CopiedAcyclic(copy.Keys, I, copy, b);
    var i := Island(0, us, b, sub, entry, exit);
    assert Inside(F, copy.Values) == F;
    assert SubEdges(F, i) == CopiedEdges(I, copy, b, entry, exit) && SubNodes(i) == copy.Values + {entry, exit};
    hide Quotient, Ends, Acyclic, Coherent;
    SubCoherent(F, i);
  }

  lemma CopiedAcyclic(N: set<Op>, I: set<(Op, Op)>, copy: map<Op, Node>, b: Node)
    requires Feeds(N, I) && Acyclic(I) && Injective(copy) && copy.Keys == N
    ensures Acyclic(Quotient(I, NodeOf(copy, b))) && Renames(N, I, NodeOf(copy, b))
  {
    var f := NodeOf(copy, b);
    forall q | q in Quotient(I, f) ensures !Reach(Quotient(I, f), q.1, q.0) {
      var e := QuotientEdge(I, f, q);
      ReachRenamed(N, I, f, e.1, e.0);
    }
  }

  /** Relink the copies among each other and hang them between the sub-graph's entry and exit. */
  method ConnectSub(sub: CommandGraph, region: seq<Op>, us: seq<Node>, copy: map<Op, Node>, ghost I: set<(Op, Op)>,
                    ghost b: Node)
    requires NoDup(region) && region != [] && Feeds(Elems(region), I) && Acyclic(I) && copy.Keys == Elems(region) &&
        Injective(copy)
    requires NoDup(us) && Elems(us) == copy.Values && forall u :: u in us ==> u.successors == [] && u.predecessors == []
    requires sub.entry != sub.exit && sub.entry !in us && sub.exit !in us
    requires sub.entry.successors == [] && sub.entry.predecessors == [] && sub.exit.successors == [] &&
        sub.exit.predecessors == []
    modifies sub`nodes, sub`edges
    modifies copy.Values`successors, copy.Values`predecessors, {sub.entry, sub.exit}`successors,
        {sub.entry, sub.exit}`predecessors
    ensures sub.nodes == copy.Values + {sub.entry, sub.exit} &&
        sub.edges == CopiedEdges(I, copy, b, sub.entry, sub.exit)
    ensures Coherent(sub.nodes, sub.edges, sub.entry, sub.exit) && Listed(sub.nodes, sub.edges)
  {
    hide Coherent, Feeds, Listed, Ends, Quotient, Acyclic, NoDup, Injective;
    forall u | u in copy.Values ensures u in us { assert u in Elems(us); }
    Relink(region, copy, I, b);
    ghost var F, all := Quotient(I, NodeOf(copy, b)), copy.Values + {sub.entry, sub.exit};
    assert copy.Values !! {sub.entry, sub.exit} by {
      forall u | u in copy.Values ensures u != sub.entry && u != sub.exit { assert u in us; }
    }
    ListedJoin(copy.Values, F, {sub.entry, sub.exit});
    SomeMember(region, copy, us);
    ConnectMembers(us, sub.entry, sub.exit, all, F);
    CopiedCoherent(I, copy, us, sub, b, sub.entry, sub.exit);
    sub.nodes, sub.edges := all, CopiedEdges(I, copy, b, sub.entry, sub.exit);
  }

  /** An empty sub-graph: entry and exit, not linked. */
  method BareGraph() returns (sub: CommandGraph)
    ensures fresh(sub) && fresh(sub.entry) && fresh(sub.exit) && sub.entry != sub.exit && !sub.isSequence
    ensures sub.entry.successors == [] && sub.entry.predecessors == [] && sub.exit.successors == [] &&
        sub.exit.predecessors == []
    ensures sub.entry.kind == EmptyNode && sub.exit.kind == EmptyNode
  {
    hide Coherent, Linked;
    sub := new CommandGraph();
    CoherentParts(sub.nodes, sub.edges, sub.entry, sub.exit);
    SubEndsBare(sub);
    sub.entry.successors := [];
    sub.exit.predecessors := [];
  }

  /** A batch operation becomes a command node over a command graph of its own. */
  method BuildBatchNode(o: Op, ghost I: set<(Op, Op)>) returns (b: Node, ghost copy: map<Op, Node>)
    requires NoDup(o.region) && o.region != [] && Feeds(Elems(o.region), I) && Acyclic(I) &&
        forall m :: m in o.region ==> Agrees(m)
    ensures fresh(b) && fresh(copy.Values) && b.successors == [] && b.predecessors == [] && b.walkId == 0
    ensures BatchBuilt(b, o, I, copy) && Listed(b.command.graph.nodes, b.command.graph.edges) && MembersCopied(copy)
    ensures copy.Keys == Elems(o.region) && b.command.Batch? && copy.Values <= b.command.graph.nodes
    ensures b !in copy.Values && fresh(b.command.graph) && fresh(b.command.graph.nodes) && b !in b.command.graph.nodes
  {
    hide Coherent, Linked, Feeds, Listed, Ends, Quotient, Acyclic, NoDup, Agrees, CopiedEdges;
    var sub := BareGraph();
    var us, copies := CreateMembers(o.region);
    copy := copies;
    forall u | u in copy.Values ensures fresh(u) { assert u in Elems(us); }
    b := new Node(o.device, CommandNode);
    ConnectSub(sub, o.region, us, copies, I, b);
    b.command := Batch(sub);
  }

  lemma SomeMember(region: seq<Op>, copy: map<Op, Node>, us: seq<Node>)
    requires region != [] && copy.Keys == Elems(region) && Elems(us) == copy.Values
    ensures us != []
  {
    assert region[0] in Elems(region) && copy[region[0]] in Elems(us);
  }

  lemma SubEndsBare(sub: CommandGraph)
    requires sub.Valid() && sub.nodes == {sub.entry, sub.exit}
    ensures sub.entry.predecessors == [] && sub.exit.successors == []
  {
    NoNeighbours(sub.nodes, sub.edges, sub.entry);
    NoNeighbours(sub.nodes, sub.edges, sub.exit);
  }

  // ------------------------------------------------------------ export

  /** The nodes the operations were imported from. */
  ghost function SourcesOf(ops: set<Op>): set<Node> {
    set o | o in ops && o.source != null :: o.source
  }

  /** A batch operation with its members and the edges `I` among them. */
  ghost predicate Buildable(o: Op, I: set<(Op, Op)>)
    reads o`region, Elems(o.region)`operands, Elems(o.region)`command, SourcesOf(Elems(o.region))`command
  {
    && NoDup(o.region) && o.region != [] && Feeds(Elems(o.region), I) && Acyclic(I)
    && forall m :: m in Elems(o.region) ==> Agrees(m)
  }

  /** `u` is what operation `o` is exported as: for a batch, a node over the graph `g` on the new nodes `own`. */
  ghost predicate Exported(o: Op, u: Node, I: set<(Op, Op)>, copy: map<Op, Node>, g: CommandGraph?, own: set<Node>)
    reads o`region, u`command, if g == null then {} else {g}
    reads own, copy.Values`command, (set m | m in copy && m.source != null :: m.source)`command
  {
    if o.source != null then u == o.source && copy == map[] && own == {}
    else if o.name == BatchOp then
      && g != null && u.command == Batch(g) && g.nodes == own && copy.Values <= own && u !in own
      && BatchBuilt(u, o, I, copy) && Listed(own, g.edges) && MembersCopied(copy)
    else
      && copy == map[] && own == {}
      && u.kind == (if o.name.EmptyOp? then EmptyNode else CommandNode) && u.device == o.device
  }

  /** The node of an imported operation has its command written back, if it is a copy. */
  ghost predicate Updated(o: Op, was: Command)
    requires o.source != null
    reads o`command, (if o.source == null then {} else {o.source})`command
  {
    o.source.command == if WrittenBack(o) && !was.NoCommand? then o.command else was
  }

  /** What the operations so far were exported as: a node each, and for a batch its copies, its graph and its own
      nodes. */
  datatype Export = Export(node: Node, copy: map<Op, Node>, graph: CommandGraph?, own: set<Node>)

  ghost predicate IsExport(o: Op, I: set<(Op, Op)>, x: Export)
    reads o`region, x.node`command, if x.graph == null then {} else {x.graph}
    reads x.own, x.copy.Values`command, (set m | m in x.copy && m.source != null :: m.source)`command
  {
    Exported(o, x.node, I, x.copy, x.graph, x.own)
  }

  /** Resolve the node of one operation and clear its lists. */
  method ResolveNode(o: Op, ghost I: set<(Op, Op)>) returns (u: Node, ghost x: Export)
    requires o.source == null && o.name == BatchOp ==> Buildable(o, I)
    modifies if o.source == null then {} else {o.source}
    ensures x.node == u && IsExport(o, I, x) && u.successors == [] && u.predecessors == []
    ensures o.source == null ==> fresh(u) && fresh(x.own) && u.walkId == 0 && x.copy.Keys <= Elems(o.region)
    ensures x.graph != null ==> fresh(x.graph)
    ensures u !in x.own && x.copy.Values <= x.own &&
            (o.source != null ==> u == o.source && x.own == {} && x.copy == map[])
    ensures o.source != null ==> Updated(o, old(o.source.command)) && o.source.walkId == old(o.source.walkId)
  {
    hide BatchBuilt, MembersCopied, Feeds, Acyclic, NoDup, Agrees, Listed;
    if o.source != null {
      u := o.source;
      UpdateNode(u, o);
      x := Export(u, map[], null, {});
    } else if o.name == BatchOp {
      ghost var copy;
      u, copy := BuildBatchNode(o, I);
      x := Export(u, copy, u.command.graph, u.command.graph.nodes);
    } else {
      u := CreateNode(o);
      x := Export(u, map[], null, {});
    }
    u.predecessors := [];
    u.successors := [];
  }

  /** No two operations come from one node. */
  ghost predicate Separate(ops: seq<Op>) {
    forall o, p :: o in ops && p in ops && o.source != null && o.source == p.source ==> o == p
  }

  /** Members come from nodes of their own, not from top-level ones. */
  ghost predicate MembersApart(ops: seq<Op>)
    reads (set o | o in ops)`region
  {
    forall o, m :: o in ops && o.source == null && m in o.region ==> m.source !in SourcesOf(Elems(ops))
  }

  ghost predicate AllBuildable(ops: seq<Op>, inner: map<Op, set<(Op, Op)>>)
    reads (set o | o in ops)`region, (set o, m | o in ops && m in o.region :: m)`operands
    reads (set o, m | o in ops && m in o.region :: m)`command
    reads (set o, m | o in ops && o.source == null && m in o.region && m.source != null :: m.source)`command
  {
    forall o :: o in ops && o.source == null && o.name == BatchOp ==> o in inner && Buildable(o, inner[o])
  }

  ghost function InnerOf(inner: map<Op, set<(Op, Op)>>, o: Op): set<(Op, Op)> {
    if o in inner then inner[o] else {}
  }

  /** New nodes are neither top-level sources nor shared between operations. */
  ghost predicate Produced(body: seq<Op>, xs: seq<Export>) {
    && |xs| <= |body|
    && (forall j: nat :: j < |xs| ==>
        if body[j].source == null then xs[j].node !in SourcesOf(Elems(body)) else xs[j].node == body[j].source)
    && (forall j: nat :: j < |xs| ==> xs[j].own !! SourcesOf(Elems(body)) && xs[j].copy.Values <= xs[j].own)
    && (forall j: nat, m :: j < |xs| && m in xs[j].copy ==> m.source !in SourcesOf(Elems(body)))
    && (forall j: nat, k: nat :: j < |xs| && k < |xs| ==> xs[k].node !in xs[j].own)
    && (forall j: nat, k: nat :: j < k < |xs| ==> xs[j].node != xs[k].node)
  }

  ghost predicate Cleared(xs: seq<Export>)
    reads (set x | x in xs :: x.node)`successors, (set x | x in xs :: x.node)`predecessors
  {
    forall j: nat :: j < |xs| ==> xs[j].node.successors == [] && xs[j].node.predecessors == []
  }

  /** One more operation exported. */
  method ResolveNext(body: seq<Op>, i: nat, ghost inner: map<Op, set<(Op, Op)>>, ghost xs: seq<Export>)
    returns (u: Node, ghost x: Export)
    requires NoDup(body) && Separate(body) && i < |body| && AllBuildable(body, inner) && MembersApart(body)
    requires Produced(body, xs) && |xs| == i && Cleared(xs)
    requires forall j: nat :: j < i ==> IsExport(body[j], InnerOf(inner, body[j]), xs[j])
    modifies if body[i].source == null then {} else {body[i].source}
    ensures x.node == u && Produced(body, xs + [x]) && Cleared(xs + [x])
    ensures forall j: nat :: j < i ==> IsExport(body[j], InnerOf(inner, body[j]), xs[j])
    ensures IsExport(body[i], InnerOf(inner, body[i]), x)
    ensures (body[i].source == null ==> fresh(u) && fresh(x.own) && u.walkId == 0) &&
        (x.graph != null ==> fresh(x.graph))
    ensures body[i].source != null ==>
        Updated(body[i], old(body[i].source.command)) && body[i].source.walkId == old(body[i].source.walkId)
  {
    hide IsExport, AllBuildable, Buildable, Updated, InnerOf, NoDup, Separate, MembersApart;
    var o := body[i];
    BodyHolds(body, o);
    BuildableAt(body, inner, o);
    SourceOnce(body, xs, i);
    u, x := ResolveNode(o, InnerOf(inner, o));
    ProducedMore(body, xs, x) by {
      assert forall j: nat :: j < i ==> xs[j].node != u && u !in xs[j].own && xs[j].node !in x.own;
    }
  }

  lemma BodyHolds(body: seq<Op>, o: Op)
    requires o in body
    ensures o in Elems(body)
  {
  }

  /** The node a later operation was imported from is none of those produced before. */
  lemma SourceOnce(body: seq<Op>, xs: seq<Export>, i: nat)
    requires NoDup(body) && Separate(body) && i < |body| && Produced(body, xs) && |xs| == i
    ensures body[i].source != null ==> forall j: nat :: j < i ==> xs[j].node != body[i].source
  {
    assert body[i] in Elems(body);
  }

  lemma ProducedMore(body: seq<Op>, xs: seq<Export>, x: Export)
    requires Produced(body, xs) && |xs| < |body| && MembersApart(body)
    requires var o := body[|xs|];
             && (if o.source == null then x.node !in SourcesOf(Elems(body)) else x.node == o.source)
             && x.own !! SourcesOf(Elems(body)) && x.copy.Values <= x.own && x.node !in x.own
             && (o.source == null ==> x.copy.Keys <= Elems(o.region)) && (o.source != null ==> x.copy == map[])
    requires forall j: nat :: j < |xs| ==> xs[j].node != x.node && x.node !in xs[j].own && xs[j].node !in x.own
    ensures Produced(body, xs + [x])
  {
    var o := body[|xs|];
    forall m | m in x.copy ensures m.source !in SourcesOf(Elems(body)) {
      assert o in body && m in Elems(o.region);
    }
  }

  lemma BuildableAt(body: seq<Op>, inner: map<Op, set<(Op, Op)>>, o: Op)
    requires AllBuildable(body, inner) && o in body
    ensures o.source == null && o.name == BatchOp ==> Buildable(o, InnerOf(inner, o))
  {
  }

  /** `out` sends every operation so far to the node it was exported as. */
  ghost predicate Named(body: seq<Op>, xs: seq<Export>, out: map<Op, Node>) {
    |xs| <= |body| && out.Keys == Elems(body[..|xs|]) && forall j: nat :: j < |xs| ==>
        body[j] in out && out[body[j]] == xs[j].node
  }

  lemma NamedMore(body: seq<Op>, xs: seq<Export>, out: map<Op, Node>, x: Export)
    requires NoDup(body) && Named(body, xs, out) && |xs| < |body|
    ensures Named(body, xs + [x], out[body[|xs|] := x.node])
  {
    ElemsPrefix(body, |xs|);
    Distinct(body, |xs|);
  }

  lemma NamedAll(body: seq<Op>, xs: seq<Export>, out: map<Op, Node>)
    requires Named(body, xs, out) && Produced(body, xs) && |xs| == |body|
    ensures out.Keys == Elems(body) && Injective(out)
    ensures forall j: nat :: j < |xs| ==>
        body[j] in out && out[body[j]] == xs[j].node && xs[j].own !! out.Values && xs[j].copy.Values <= xs[j].own
    ensures forall u :: u in out.Values ==> exists j: nat :: j < |xs| && u == xs[j].node
  {
    assert body[..|body|] == body;
    forall o | o in out ensures exists j: nat :: j < |xs| && body[j] == o && out[o] == xs[j].node {
      var j: nat := IndexOf(body, o);
    }
  }

  ghost predicate MarkedAs(name: OpName, isEntry: bool) {
    name.EmptyOp? && (if isEntry then name.isEntry else name.isExit)
  }

  /** The node of the operation with the mark, among those so far; none without one. */
  ghost predicate FoundEnd(body: seq<Op>, xs: seq<Export>, end: Node?, isEntry: bool)
    requires |xs| <= |body|
  {
    && (forall j: nat :: j < |xs| && MarkedAs(body[j].name, isEntry) ==> end != null)
    && (end != null ==> exists j: nat :: j < |xs| && MarkedAs(body[j].name, isEntry) && end == xs[j].node)
  }

  /** The commands the imported nodes held before. */
  ghost function SourceCommands(body: seq<Op>): map<Node, Command>
    reads (set o | o in body && o.source != null :: o.source)`command
  {
    map u | u in SourcesOf(Elems(body)) :: u.command
  }

  /** The nodes of the first `i` operations are written back, the others are as they were. */
  ghost predicate WrittenUpTo(body: seq<Op>, i: nat, was: map<Node, Command>)
    reads Elems(body)`command, SourcesOf(Elems(body))`command
  {
    && was.Keys == SourcesOf(Elems(body))
    && forall j: nat :: j < |body| && body[j].source != null ==>
      (assert body[j] in Elems(body);
       if j < i then Updated(body[j], was[body[j].source]) else body[j].source.command == was[body[j].source])
  }

  /** `now` are the commands `was` with the copies' attributes written back. */
  ghost predicate Written(body: seq<Op>, was: map<Node, Command>, now: map<Node, Command>)
    reads Elems(body)`command
  {
    was.Keys == now.Keys == SourcesOf(Elems(body)) && forall o :: o in Elems(body) && o.source != null ==>
      now[o.source] == if WrittenBack(o) && !was[o.source].NoCommand? then o.command else was[o.source]
  }

  lemma WrittenAll(body: seq<Op>, was: map<Node, Command>)
    requires WrittenUpTo(body, |body|, was)
    ensures Written(body, was, SourceCommands(body))
  {
    forall o | o in Elems(body) && o.source != null ensures Updated(o, was[o.source]) {
      var j: nat := IndexOf(body, o);
    }
  }

  /** A linear or two-dimensional copy ends up on its node, if the node held a command; every other node keeps
      what it held. */
  ghost predicate CopiesWritten(body: seq<Op>, was: map<Node, Command>)
    reads (set o | o in body)`command, (set o | o in body && o.source != null :: o.source)`command
  {
    forall o :: o in body && o.source != null ==>
      o.source in was && o.source.command ==
        if o.name == CommandOp && (o.command.Copy1D? || o.command.Copy2D?) && was[o.source] != NoCommand
        then o.command else was[o.source]
  }

  lemma AllCopiesWritten(body: seq<Op>, was: map<Node, Command>)
    requires Written(body, was, SourceCommands(body)) && was.Keys == SourcesOf(Elems(body))
    ensures CopiesWritten(body, was)
  {
    forall o | o in body && o.source != null
      ensures o.source in was && o.source.command ==
        if o.name == CommandOp && (o.command.Copy1D? || o.command.Copy2D?) && was[o.source] != NoCommand
        then o.command else was[o.source]
    {
      assert o in Elems(body) && o.source in SourcesOf(Elems(body));
    }
  }

  /** Everything produced that was not there before is in `news`. */
  ghost predicate AllNew(body: seq<Op>, xs: seq<Export>, news: set<object>)
    requires |xs| <= |body|
    reads (set x | x in xs :: x.node)`walkId
  {
    && (forall j: nat :: j < |xs| && body[j].source == null ==>
        xs[j].node in news && xs[j].own <= news && xs[j].node.walkId == 0)
    && (forall j: nat :: j < |xs| && xs[j].graph != null ==> xs[j].graph in news)
  }

  /** Pass 1: a node for every operation, its lists cleared, and the two ends found on the way. */
  method ResolveAll(body: seq<Op>, ghost inner: map<Op, set<(Op, Op)>>)
    returns (out: map<Op, Node>, entry: Node?, exit: Node?, ghost xs: seq<Export>, ghost news: set<object>)
    requires NoDup(body) && Separate(body) && MembersApart(body) && AllBuildable(body, inner)
    modifies SourcesOf(Elems(body))
    ensures |xs| == |body| && Named(body, xs, out) && Produced(body, xs) && Cleared(xs)
    ensures forall j: nat :: j < |xs| ==> IsExport(body[j], InnerOf(inner, body[j]), xs[j])
    ensures FoundEnd(body, xs, entry, true) && FoundEnd(body, xs, exit, false)
    ensures fresh(news) && AllNew(body, xs, news) && WrittenUpTo(body, |body|, old(SourceCommands(body)))
    ensures forall u :: u in SourcesOf(Elems(body)) ==> u.walkId == old(u.walkId)
  {
    hide IsExport, AllBuildable, Buildable, Updated, InnerOf, NoDup, Separate, Produced, Named, FoundEnd, MarkedAs,
        WrittenUpTo, AllNew, Cleared;
    ghost var was := SourceCommands(body);
    out, entry, exit, xs, news := map[], null, null, [], {};
    NothingProduced(body, was);
    for i := 0 to |body|
      invariant |xs| == i && Named(body, xs, out) && Produced(body, xs) && Cleared(xs) && AllBuildable(body, inner) &&
          MembersApart(body)
      invariant forall j: nat :: j < i ==> IsExport(body[j], InnerOf(inner, body[j]), xs[j])
      invariant FoundEnd(body, xs, entry, true) && FoundEnd(body, xs, exit, false)
      invariant fresh(news) && AllNew(body, xs, news) && WrittenUpTo(body, i, was)
      invariant forall u :: u in SourcesOf(Elems(body)) ==> u.walkId == old(u.walkId)
    {
      var o := body[i];
      ghost var x, more;
      var u;
      u, x, more := ResolveStep(body, i, inner, xs, news, was);
      NamedMore(body, xs, out, x);
      FoundMore(body, xs, entry, true, x);
      FoundMore(body, xs, exit, false, x);
      out := out[o := u];
      if o.name.EmptyOp? && o.name.isEntry { entry := u; }
      if o.name.EmptyOp? && o.name.isExit { exit := u; }
      xs, news := xs + [x], more;
    }
  }

  /** One more operation exported, with what it is recorded as. */
  method ResolveStep(body: seq<Op>, i: nat, ghost inner: map<Op, set<(Op, Op)>>, ghost xs: seq<Export>,
                     ghost news: set<object>, ghost was: map<Node, Command>)
    returns (u: Node, ghost x: Export, ghost more: set<object>)
    requires NoDup(body) && Separate(body) && i < |body| && AllBuildable(body, inner) && MembersApart(body)
    requires Produced(body, xs) && |xs| == i && Cleared(xs) && AllNew(body, xs, news) && WrittenUpTo(body, i, was)
    requires forall j: nat :: j < i ==> IsExport(body[j], InnerOf(inner, body[j]), xs[j])
    modifies if body[i].source == null then {} else {body[i].source}
    ensures x.node == u && Produced(body, xs + [x]) && Cleared(xs + [x]) && AllBuildable(body, inner)
    ensures IsExport(body[i], InnerOf(inner, body[i]), x) &&
        forall j: nat :: j < i ==> IsExport(body[j], InnerOf(inner, body[j]), xs[j])
    ensures fresh(more - news) && AllNew(body, xs + [x], more) && WrittenUpTo(body, i + 1, was)
    ensures body[i].source != null ==> body[i].source.walkId == old(body[i].source.walkId)
  {
    hide *;
    OtherSources(body, i);
    WrittenParts(body, i, was);
    ProducedLength(body, xs);
    ApartParts(body, i);
    AllNewParts(body, xs, news);
    u, x := ResolveNext(body, i, inner, xs);
    more := news + (if body[i].source == null then {u} + x.own else {}) + (if x.graph != null then {x.graph} else {});
    AllNewMore(body, xs, news, x, more);
    WrittenIs(body, i + 1, was);
  }

  lemma ProducedLength(body: seq<Op>, xs: seq<Export>)
    requires Produced(body, xs)
    ensures |xs| <= |body|
  {
  }

  lemma WrittenParts(body: seq<Op>, i: nat, was: map<Node, Command>)
    requires WrittenUpTo(body, i, was)
    ensures was.Keys == SourcesOf(Elems(body))
    ensures forall j: nat :: j < |body| && body[j].source != null ==> body[j].source in was
    ensures forall j: nat :: j < |body| && j < i && body[j].source != null ==> Updated(body[j], was[body[j].source])
    ensures forall j: nat :: j < |body| && i <= j && body[j].source != null ==>
              body[j].source.command == was[body[j].source]
  {
    hide Updated;
    forall j: nat | j < |body| && body[j].source != null ensures body[j].source in was {
      assert body[j] in Elems(body);
    }
  }

  lemma WrittenIs(body: seq<Op>, i: nat, was: map<Node, Command>)
    requires was.Keys == SourcesOf(Elems(body))
    requires forall j: nat :: j < |body| && body[j].source != null ==> body[j].source in was
    requires forall j: nat :: j < |body| && j < i && body[j].source != null ==> Updated(body[j], was[body[j].source])
    requires forall j: nat :: j < |body| && i <= j && body[j].source != null ==>
               body[j].source.command == was[body[j].source]
    ensures WrittenUpTo(body, i, was)
  {
    hide Updated;
  }

  lemma ApartParts(body: seq<Op>, i: nat)
    requires MembersApart(body) && i < |body|
    ensures body[i].source != null ==>
              forall o, m :: o in body && o.source == null && m in o.region ==> m.source != body[i].source
  {
    assert body[i] in Elems(body);
  }

  lemma AllNewParts(body: seq<Op>, xs: seq<Export>, news: set<object>)
    requires |xs| <= |body| && AllNew(body, xs, news)
    ensures forall j: nat :: j < |xs| && body[j].source == null ==>
              xs[j].node in news && xs[j].own <= news && xs[j].node.walkId == 0
    ensures forall j: nat :: j < |xs| && xs[j].graph != null ==> xs[j].graph in news
  {
  }

  lemma AllNewMore(body: seq<Op>, xs: seq<Export>, news: set<object>, x: Export, more: set<object>)
    requires |xs| < |body| && news <= more
    requires forall j: nat :: j < |xs| && body[j].source == null ==>
               xs[j].node in news && xs[j].own <= news && xs[j].node.walkId == 0
    requires forall j: nat :: j < |xs| && xs[j].graph != null ==> xs[j].graph in news
    requires body[|xs|].source == null ==> x.node in more && x.own <= more && x.node.walkId == 0
    requires x.graph != null ==> x.graph in more
    ensures AllNew(body, xs + [x], more)
  {
  }

  lemma OtherSources(body: seq<Op>, i: nat)
    requires NoDup(body) && Separate(body) && i < |body|
    ensures body[i] in Elems(body)
    ensures forall j: nat :: j < |body| && j != i && body[j].source != null ==> body[j].source != body[i].source
  {
  }

  lemma NothingProduced(body: seq<Op>, was: map<Node, Command>)
    requires was == SourceCommands(body)
    ensures Cleared([]) && AllNew(body, [], {}) && WrittenUpTo(body, 0, was)
    ensures Named(body, [], map[]) && Produced(body, []) && FoundEnd(body, [], null, true) &&
        FoundEnd(body, [], null, false)
  {
  }

  lemma FoundMore(body: seq<Op>, xs: seq<Export>, end: Node?, isEntry: bool, x: Export)
    requires |xs| < |body| && FoundEnd(body, xs, end, isEntry)
    ensures FoundEnd(body, xs + [x], if MarkedAs(body[|xs|].name, isEntry) then x.node else end, isEntry)
    ensures MarkedAs(body[|xs|].name, isEntry) <==>
        body[|xs|].name.EmptyOp? && (if isEntry then body[|xs|].name.isEntry else body[|xs|].name.isExit)
  {
    var more := xs + [x];
    if MarkedAs(body[|xs|].name, isEntry) {
      assert more[|xs|] == x;
    } else if end != null {
      var j: nat :| j < |xs| && MarkedAs(body[j].name, isEntry) && end == xs[j].node;
      assert more[j] == xs[j];
    }
  }

  lemma ClearedValues(body: seq<Op>, xs: seq<Export>, out: map<Op, Node>)
    requires Named(body, xs, out) && Produced(body, xs) && Cleared(xs) && |xs| == |body|
    ensures out.Keys == Elems(body) && Injective(out)
    ensures forall u :: u in out.Values ==> u.successors == [] && u.predecessors == []
    ensures forall j: nat :: j < |xs| ==> xs[j].own !! out.Values && xs[j].copy.Values <= xs[j].own
  {
    NamedAll(body, xs, out);
  }

  lemma ProducedIn(body: seq<Op>, xs: seq<Export>, out: map<Op, Node>, news: set<object>)
    requires Named(body, xs, out) && Produced(body, xs) && AllNew(body, xs, news) && |xs| == |body|
    ensures forall u :: u in out.Values ==> u in SourcesOf(Elems(body)) || u in news
    ensures forall j: nat :: j < |xs| && xs[j].graph != null ==> xs[j].graph in news
  {
    NamedAll(body, xs, out);
    forall j: nat | j < |xs| ensures xs[j].node in SourcesOf(Elems(body)) || xs[j].node in news {
      assert body[j] in Elems(body);
    }
  }

  lemma EndFound(body: seq<Op>, xs: seq<Export>, end: Node?, isEntry: bool)
    requires |xs| == |body| && FoundEnd(body, xs, end, isEntry) && exists o :: o in body && MarkedAs(o.name, isEntry)
    ensures end != null
  {
    var o :| o in body && MarkedAs(o.name, isEntry);
    var j: nat := IndexOf(body, o);
  }

  /** The predecessor lists are the operand lists. */
  ghost predicate InOperandOrder(body: seq<Op>, out: map<Op, Node>)
    reads Elems(body)`operands, out.Values`predecessors
  {
    forall o :: o in Elems(body) ==>
        o in out && (forall t :: t in o.operands ==> t in out) && out[o].predecessors == Mapped(o.operands, out)
  }

  /** Relinking the top level leaves the batches' own graphs alone. */
  method RelinkTops(body: seq<Op>, out: map<Op, Node>, ghost F: set<(Op, Op)>, ghost other: Node,
                    ghost inner: map<Op, set<(Op, Op)>>, ghost xs: seq<Export>)
    requires NoDup(body) && Feeds(Elems(body), F) && out.Keys == Elems(body) && Injective(out) && |xs| == |body|
    requires forall u :: u in out.Values ==> u.successors == [] && u.predecessors == []
    requires forall j: nat :: j < |xs| ==> xs[j].own !! out.Values
    requires forall j: nat :: j < |xs| ==> IsExport(body[j], InnerOf(inner, body[j]), xs[j])
    modifies out.Values`successors, out.Values`predecessors
    ensures forall j: nat :: j < |xs| ==> IsExport(body[j], InnerOf(inner, body[j]), xs[j])
    ensures RelinkedUpTo(body, out, |body|) && Listed(out.Values, Quotient(F, NodeOf(out, other)))
  {
    hide IsExport, Listed, Quotient, NodeOf, Feeds, NoDup, Injective, InnerOf, Mapped, RelinkedUpTo;
    Relink(body, out, F, other);
  }

  method RelinkExported(body: seq<Op>, out: map<Op, Node>, ghost F: set<(Op, Op)>, ghost other: Node,
                        ghost inner: map<Op, set<(Op, Op)>>, ghost xs: seq<Export>, ghost news: set<object>)
    requires |xs| <= |body| && AllNew(body, xs, news)
    requires NoDup(body) && Feeds(Elems(body), F) && out.Keys == Elems(body) && Injective(out) && |xs| == |body|
    requires forall u :: u in out.Values ==> u.successors == [] && u.predecessors == []
    requires forall j: nat :: j < |xs| ==> xs[j].own !! out.Values
    requires forall j: nat :: j < |xs| ==> IsExport(body[j], InnerOf(inner, body[j]), xs[j])
    modifies out.Values`successors, out.Values`predecessors
    ensures forall j: nat :: j < |xs| ==> IsExport(body[j], InnerOf(inner, body[j]), xs[j])
    ensures InOperandOrder(body, out) && Listed(out.Values, Quotient(F, NodeOf(out, other)))
    ensures AllNew(body, xs, news) && SourceCommands(body) == old(SourceCommands(body))
  {
    hide IsExport, Listed, Quotient, NodeOf, Feeds, NoDup, Injective, InnerOf, Mapped, AllNew, InOperandOrder,
        RelinkedUpTo;
    RelinkTops(body, out, F, other, inner, xs);
    OperandOrder(body, out);
  }

  lemma OperandOrder(body: seq<Op>, out: map<Op, Node>)
    requires RelinkedUpTo(body, out, |body|)
    ensures InOperandOrder(body, out)
  {
    forall o | o in Elems(body)
      ensures o in out && (forall t :: t in o.operands ==> t in out) && out[o].predecessors == Mapped(o.operands, out)
    {
      var j: nat := IndexOf(body, o);
    }
  }

  /** Pass 2: relink, and set the graph's ends. */
  method Rewire(g: GraphOp, cg: CommandGraph, out: map<Op, Node>, entry: Node, exit: Node,
                ghost inner: map<Op, set<(Op, Op)>>, ghost xs: seq<Export>, ghost news: set<object>)
    requires g.Valid() && |xs| == |g.body| && Named(g.body, xs, out) && Produced(g.body, xs) && Cleared(xs) &&
        cg !in news
    requires AllNew(g.body, xs, news)
    requires forall j: nat :: j < |xs| ==> IsExport(g.body[j], InnerOf(inner, g.body[j]), xs[j])
    modifies cg`entry, cg`exit, cg`nodes, cg`edges, out.Values`successors, out.Values`predecessors
    ensures AllNew(g.body, xs, news) && SourceCommands(g.body) == old(SourceCommands(g.body))
    ensures forall j: nat :: j < |xs| ==> IsExport(g.body[j], InnerOf(inner, g.body[j]), xs[j])
    ensures InOperandOrder(g.body, out) && cg.entry == entry && cg.exit == exit
    ensures cg.nodes == out.Values && cg.edges == Quotient(g.edges, NodeOf(out, entry)) && Listed(cg.nodes, cg.edges)
  {
    hide IsExport, InnerOf, NoDup, Produced, Named, AllNew, Cleared, Listed, Quotient, Feeds, NodeOf, Injective,
        InOperandOrder, SourceCommands;
    ClearedValues(g.body, xs, out);
    ProducedIn(g.body, xs, out, news);
    RelinkExported(g.body, out, g.edges, entry, inner, xs, news);
    SetGraph(cg, entry, exit, out.Values, Quotient(g.edges, NodeOf(out, entry)));
  }

  method SetGraph(cg: CommandGraph, entry: Node, exit: Node, ghost nodes: set<Node>, ghost edges: set<(Node, Node)>)
    modifies cg`entry, cg`exit, cg`nodes, cg`edges
    ensures cg.entry == entry && cg.exit == exit && cg.nodes == nodes && cg.edges == edges
  {
    cg.entry := entry;
    cg.exit := exit;
    cg.nodes, cg.edges := nodes, edges;
  }

  /** Rebuild the command graph from its operations: imported nodes are reused, batches get a node over a
      graph of their own, and the lists are relinked from the operands. */
  method ExportGraph(g: GraphOp, cg: CommandGraph, ghost inner: map<Op, set<(Op, Op)>>)
    returns (out: map<Op, Node>, ghost xs: seq<Export>, ghost news: set<object>)
    requires g.Valid() && Separate(g.body) && MembersApart(g.body) && AllBuildable(g.body, inner)
    requires exists o :: o in g.body && MarkedAs(o.name, true)
    requires exists o :: o in g.body && MarkedAs(o.name, false)
    modifies cg`entry, cg`exit, cg`nodes, cg`edges, SourcesOf(Elems(g.body))
    ensures |xs| == |g.body| && Named(g.body, xs, out) && Produced(g.body, xs)
    ensures forall j: nat :: j < |xs| ==> IsExport(g.body[j], InnerOf(inner, g.body[j]), xs[j])
    ensures fresh(news) && AllNew(g.body, xs, news) && Written(g.body, old(SourceCommands(g.body)),
        SourceCommands(g.body))
    ensures CopiesWritten(g.body, old(SourceCommands(g.body)))
    ensures forall u :: u in SourcesOf(Elems(g.body)) ==> u.walkId == old(u.walkId)
    ensures FoundEnd(g.body, xs, cg.entry, true) && FoundEnd(g.body, xs, cg.exit, false) && InOperandOrder(g.body, out)
    ensures cg.nodes == out.Values && cg.edges == Quotient(g.edges, NodeOf(out, cg.entry)) && Listed(cg.nodes, cg.edges)
  {
    hide IsExport, AllBuildable, Buildable, Updated, InnerOf, NoDup, Separate, MembersApart, Produced, Named, FoundEnd,
        MarkedAs;
    hide WrittenUpTo, AllNew, Cleared, Listed, Quotient, Feeds, InOperandOrder, CopiesWritten, Written;
    ghost var was := SourceCommands(g.body);
    var entry, exit;
    out, entry, exit, xs, news := ResolveAll(g.body, inner);
    EndFound(g.body, xs, entry, true);
    EndFound(g.body, xs, exit, false);
    ProducedIn(g.body, xs, out, news);
    WrittenAll(g.body, was);
    Rewire(g, cg, out, entry, exit, inner, xs, news);
    AllCopiesWritten(g.body, was);
  }
}
