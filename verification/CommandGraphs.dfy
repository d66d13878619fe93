/** The command graph itself: node objects with doubly linked adjacency lists, edited in place. */
module CommandGraphs {
  import opened Digraphs
  import opened Lists
  import opened Traversals

  newtype WalkId = x: int | -128 <= x < 128
  newtype DeviceId = x: int | 0 <= x < 256

  const UNSPECIFIED_DEVICE: DeviceId := 255

  datatype NodeKind = EmptyNode | CommandNode | GraphNode | ConditionNode

  datatype LaunchMode = Direct | TaskSpawn

  datatype CopyDirection = H2H | H2D | D2H | D2D

  /** What a command node holds; `NoCommand` is the null pointer of a control node. */
  datatype Command =
    | NoCommand
    | Prog(launch: LaunchMode, source: ProgSource)
    | Copy1D(direction: CopyDirection, linear: LinearCopy)
    | Copy2D(direction: CopyDirection, block: BlockCopy)
    | FileAccess
    | Batch(graph: CommandGraph)
    | ControlFlow

  /** A program's code is opaque; what matters is whether it is LLVM IR and how it is launched. */
  datatype ProgSource = LlvmIr(code: nat, grid: (nat, nat, nat), block: (nat, nat, nat)) | OtherSource(code: nat)

  datatype LinearCopy = LinearCopy(srcDevice: DeviceId, dstDevice: DeviceId, src: nat, dst: nat, size: nat)

  datatype BlockCopy = BlockCopy(srcDevice: DeviceId, dstDevice: DeviceId,
                                 src: nat, srcLd: nat, dst: nat, dstLd: nat, m: nat, n: nat, elem: nat)

  class Node {
    const kind: NodeKind
    const device: DeviceId
    var command: Command
    var predecessors: seq<Node>
    var successors: seq<Node>
    var iteratorIndex: nat
    var walkId: WalkId

    constructor (device: DeviceId, kind: NodeKind)
      ensures this.kind == kind && this.device == device && command == NoCommand
      ensures predecessors == [] && successors == [] && iteratorIndex == 0 && walkId == 0
    {
      this.kind := kind;
      this.device := device;
      command := NoCommand;
      predecessors, successors, iteratorIndex, walkId := [], [], 0, 0;
    }
  }

  /** What the nodes hold. */
  ghost function CommandsHeld(N: set<Node>): map<Node, Command>
    reads N`command
  {
    map u | u in N :: u.command
  }

  /** Both adjacency lists of `u` hold, without repetition, what the edges `E` say. */
  ghost predicate NodeLinked(u: Node, E: set<(Node, Node)>)
    reads u`successors, u`predecessors
  {
    && NoDup(u.successors) && Elems(u.successors) == Targets(E, u)
    && NoDup(u.predecessors) && Elems(u.predecessors) == Sources(E, u)
  }

  /** The lists of the live nodes are the edge relation `E`, forwards and backwards: `v` is a
      successor of `u` exactly when `u` is a predecessor of `v`, and no edge is doubled. */
  ghost predicate Linked(nodes: set<Node>, E: set<(Node, Node)>)
    reads nodes`successors, nodes`predecessors
  {
    && (forall e :: e in E ==> e.0 in nodes && e.1 in nodes)
    && (forall u :: u in nodes ==> NodeLinked(u, E))
  }

  /** The successor list of `x` follows `S` and its predecessor list `P`. */
  ghost predicate HalfLinked(x: Node, S: set<(Node, Node)>, P: set<(Node, Node)>)
    reads x`successors, x`predecessors
  {
    && NoDup(x.successors) && Elems(x.successors) == Targets(S, x)
    && NoDup(x.predecessors) && Elems(x.predecessors) == Sources(P, x)
  }

  method Precedes(u: Node, succ: Node)
    modifies u`successors, succ`predecessors
    ensures u.successors == old(u.successors) + [succ]
    ensures succ.predecessors == old(succ.predecessors) + [u]
  {
    u.successors := u.successors + [succ];
    succ.predecessors := succ.predecessors + [u];
  }

  /** Add the edge `u -> v` to both lists: they stay an exact picture of the edges unless it was there before. */
  method Link(u: Node, v: Node, ghost nodes: set<Node>, ghost E: set<(Node, Node)>)
    requires Linked(nodes, E) && u in nodes && v in nodes
    modifies u`successors, v`predecessors
    ensures u.successors == old(u.successors) + [v] && v.predecessors == old(v.predecessors) + [u]
    ensures Linked(nodes, E + {(u, v)}) <==> (u, v) !in E
  {
    hide Targets, Sources, NoDup;
    NotAnEdge(E, u, v);
    if (u, v) in E {
      AgainDoubles(u.successors, v);
    } else {
      AddedEdge(E, u, v);
      NoDupSnoc(u.successors, v);
      NoDupSnoc(v.predecessors, u);
    }
    Precedes(u, v);
    assert Linked(nodes, E + {(u, v)}) ==> NodeLinked(u, E + {(u, v)});
  }

  lemma AgainDoubles(s: seq<Node>, x: Node)
    requires x in Elems(s)
    ensures !NoDup(s + [x])
  {
    var i :| 0 <= i < |s| && s[i] == x;
    assert (s + [x])[i] == (s + [x])[|s|];
  }

  /** Take the edge `u -> v` out of both lists. */
  method Unlink(u: Node, v: Node, ghost nodes: set<Node>, ghost E: set<(Node, Node)>)
    requires Linked(nodes, E) && (u, v) in E
    modifies u`successors, v`predecessors
    ensures u.successors == Erase(old(u.successors), v) && v.predecessors == Erase(old(v.predecessors), u)
    ensures Linked(nodes, E - {(u, v)})
  {
    hide Targets, Sources, NoDup;
    RemovedEdge(E, u, v);
    EraseElems(u.successors, v);
    EraseElems(v.predecessors, u);
    u.successors := Erase(u.successors, v);
    v.predecessors := Erase(v.predecessors, u);
  }

  lemma AddedEdge<V>(E: set<(V, V)>, u: V, v: V)
    ensures forall x :: Targets(E + {(u, v)}, x) == if x == u then Targets(E, x) + {v} else Targets(E, x)
    ensures forall x :: Sources(E + {(u, v)}, x) == if x == v then Sources(E, x) + {u} else Sources(E, x)
  {
    forall x ensures Targets(E + {(u, v)}, x) == if x == u then Targets(E, x) + {v} else Targets(E, x) {
      assert (u, v) in E + {(u, v)};
    }
    forall x ensures Sources(E + {(u, v)}, x) == if x == v then Sources(E, x) + {u} else Sources(E, x) {
      assert (u, v) in E + {(u, v)};
    }
  }

  lemma RemovedEdge<V>(E: set<(V, V)>, u: V, v: V)
    ensures forall x :: Targets(E - {(u, v)}, x) == if x == u then Targets(E, x) - {v} else Targets(E, x)
    ensures forall x :: Sources(E - {(u, v)}, x) == if x == v then Sources(E, x) - {u} else Sources(E, x)
  {
  }

  lemma SuccessorEdge(nodes: set<Node>, E: set<(Node, Node)>, u: Node, i: nat)
    requires Linked(nodes, E) && u in nodes && i < |u.successors|
    ensures u.successors[i] in nodes && (u, u.successors[i]) in E
  {
    assert u.successors[i] in Elems(u.successors);
    NotAnEdge(E, u, u.successors[i]);
  }

  lemma LinkedEnds(nodes: set<Node>, E: set<(Node, Node)>, u: Node, v: Node)
    requires Linked(nodes, E) && (u, v) in E
    ensures u in nodes && v in nodes
  {
    assert (u, v).0 in nodes && (u, v).1 in nodes;
  }

  lemma SuccessorIsEdge(nodes: set<Node>, E: set<(Node, Node)>, u: Node, v: Node)
    requires Linked(nodes, E) && u in nodes
    ensures v in u.successors <==> (u, v) in E
    ensures (u, v) in E ==> E + {(u, v)} == E
  {
    NotAnEdge(E, u, v);
    assert v in u.successors <==> v in Elems(u.successors);
  }

  /** How many of the listed nodes are commands. */
  function CommandNodes(s: seq<Node>): nat {
    if s == [] then 0 else CommandNodes(s[..|s| - 1]) + if s[|s| - 1].kind == CommandNode then 1 else 0
  }

  lemma EdgesFrom(nodes: set<Node>, E: set<(Node, Node)>, u: Node, S: set<Node>)
    requires Linked(nodes, E) && u in nodes
    requires forall k :: 0 <= k < |u.successors| ==> u.successors[k] in S
    ensures forall e :: e in E && e.0 == u ==> e.1 in S
  {
    forall e | e in E && e.0 == u ensures e.1 in S {
      assert e.1 in Elems(u.successors);
    }
  }

  // ---------------------------------------------------------------- walks

  /** The live nodes a walk has marked. */
  ghost function Marked(nodes: set<Node>, id: WalkId): set<Node>
    reads nodes`walkId
  {
    set u | u in nodes && u.walkId == id
  }

  /** The nodes on which a depth-first walk from `node` calls back, in the order it does.
      `done` are the nodes marked before `node` was. */
  method Dfs(node: Node, id: WalkId, order: WalkOrder, ghost nodes: set<Node>, ghost E: set<(Node, Node)>,
             ghost done: set<Node>)
    returns (out: seq<Node>)
    requires Linked(nodes, E) && Acyclic(E)
    requires node in nodes && node !in done && Marked(nodes, id) == done + {node}
    modifies nodes`walkId
    ensures Walked(E, node, order, done, out)
    ensures Marked(nodes, id) == done + Elems(out)
    ensures forall u :: u in nodes && u !in done + Elems(out) ==> u.walkId == old(u.walkId)
    decreases nodes - done
  {
    hide Walking, Walked, Acyclic, Linked;
    ghost var kids: seq<Node> := [];
    out := if order == Pre then [node] else [];
    var i := 0;
    WalkStart(E, node, order, done);
    while i < |node.successors|
      invariant 0 <= i <= |node.successors|
      invariant out == if order == Pre then [node] + kids else kids
      invariant Walking(E, node, order, done, kids)
      invariant Marked(nodes, id) == done + {node} + Elems(kids)
      invariant forall u :: u in nodes && u !in done + {node} + Elems(kids) ==> u.walkId == old(u.walkId)
      invariant forall k :: 0 <= k < i ==> node.successors[k] in done + {node} + Elems(kids)
    {
      var succ := node.successors[i];
      SuccessorEdge(nodes, E, node, i);
      if succ.walkId != id {
        ghost var before := Marked(nodes, id);
        assert succ !in before;
        succ.walkId := id;
        var sub := Dfs(succ, id, order, nodes, E, before);
        WalkStep(E, node, order, done, kids, succ, sub);
        kids := kids + sub;
        out := out + sub;
      }
      i := i + 1;
    }
    EdgesFrom(nodes, E, node, done + {node} + Elems(kids));
    WalkEnd(E, node, order, done, kids);
    if order == Post {
      out := out + [node];
    }
  }

  /** Breadth-first: a queue of marked nodes whose callback is still due. */
  method Bfs(node: Node, id: WalkId, ghost nodes: set<Node>, ghost E: set<(Node, Node)>)
    returns (out: seq<Node>)
    requires Linked(nodes, E)
    requires node in nodes && Marked(nodes, id) == {node}
    modifies nodes`walkId
    ensures NoDup(out) && out != [] && out[0] == node && HasParents(E, out)
    ensures Marked(nodes, id) == Elems(out)
    ensures forall u :: u in out <==> Reach(E, node, u)
  {
    hide HasParents, Reach, NoDup, Linked;
    var q := [node];
    out := [];
    BfsStart(E, node);
    while q != []
      invariant NoDup(out + q) && out + q != [] && (out + q)[0] == node && HasParents(E, out + q)
      invariant Marked(nodes, id) == Elems(out + q)
      invariant forall u :: u in out + q ==> Reach(E, node, u)
      invariant forall e :: e in E && e.0 in out ==> e.1 in Elems(out + q)
      decreases nodes - Elems(out)
    {
      var u := q[0];
      ghost var before := out;
      assert u in Elems(out + q) && u in nodes;
      QueueHead(out, q);
      q := q[1..];
      out := out + [u];
      assert Elems(out) == Elems(before) + {u} && u !in Elems(before);
      var i := 0;
      while i < |u.successors|
        invariant 0 <= i <= |u.successors|
        invariant NoDup(out + q) && out + q != [] && (out + q)[0] == node && HasParents(E, out + q)
        invariant Marked(nodes, id) == Elems(out + q)
        invariant forall u :: u in out + q ==> Reach(E, node, u)
        invariant forall e :: e in E && e.0 in before ==> e.1 in Elems(out + q)
        invariant forall k :: 0 <= k < i ==> u.successors[k] in Elems(out + q)
      {
        var succ := u.successors[i];
        SuccessorEdge(nodes, E, u, i);
        if succ.walkId != id {
          assert succ !in Marked(nodes, id);
          succ.walkId := id;
          BfsStep(E, node, out, q, u, succ);
          q := q + [succ];
        }
        i := i + 1;
      }
      EdgesFrom(nodes, E, u, Elems(out + q));
    }
    assert out + q == out;
    forall u | Reach(E, node, u) ensures u in out {
      ReachClosed(E, Elems(out), node, u);
    }
  }

  // ---------------------------------------------------------------- graphs

  function NextWalkId(id: WalkId): WalkId {
    if id == 127 then -128 else id + 1
  }

  lemma EntryBeforeExit(a: Node, b: Node)
    requires a != b && a.successors == [b] && b.predecessors == [a] && a.predecessors == [] && b.successors == []
    ensures Coherent({a, b}, {(a, b)}, a, b) && Linked({a, b}, {(a, b)})
  {
    assert Targets({(a, b)}, a) == {b} && Targets({(a, b)}, b) == {};
    assert Sources({(a, b)}, b) == {a} && Sources({(a, b)}, a) == {};
    RankedAcyclic({(a, b)}, u => if u == b then 1 else 0);
  }

  class CommandGraph {
    var entry: Node
    var exit: Node
    var walkId: WalkId
    var isSequence: bool
    ghost var nodes: set<Node>
    ghost var edges: set<(Node, Node)>

    /** A graph of its own: a fresh entry that precedes a fresh exit. */
    constructor ()
      ensures Valid() && fresh(nodes) && nodes == {entry, exit} && edges == {(entry, exit)}
      ensures walkId == 0 && !isSequence && Fresh()
      ensures entry.kind == exit.kind == EmptyNode && entry.device == exit.device == UNSPECIFIED_DEVICE
    {
      var a := new Node(UNSPECIFIED_DEVICE, EmptyNode);
      var b := new Node(UNSPECIFIED_DEVICE, EmptyNode);
      entry, exit, walkId, isSequence := a, b, 0, false;
      nodes, edges := {a, b}, {(a, b)};
      new;
      Precedes(a, b);
      hide Coherent, Linked;
      EntryBeforeExit(a, b);
    }

    /** A graph around existing nodes, reused as its source and sink; `members` are its nodes. */
    constructor Around(entry: Node, exit: Node, ghost members: set<Node>, ghost inner: set<(Node, Node)>)
      requires entry.predecessors == [] && exit.successors == []
      ensures this.entry == entry && this.exit == exit && walkId == 0 && !isSequence
      ensures nodes == members && edges == inner
    {
      this.entry, this.exit, walkId, isSequence := entry, exit, 0, false;
      nodes, edges := members, inner;
    }

    /** The live nodes form a DAG whose only source is the entry and whose only sink is the exit,
        and their adjacency lists say so. */
    ghost predicate Valid()
      reads this, nodes`successors, nodes`predecessors
    {
      Coherent(nodes, edges, entry, exit) && Linked(nodes, edges)
    }

    /** No live node carries the mark the next walk will use. */
    ghost predicate Fresh()
      reads this, nodes`walkId
    {
      forall u :: u in nodes ==> u.walkId != NextWalkId(walkId)
    }

    lemma ClosedIsAll(S: set<Node>)
      requires Coherent(nodes, edges, entry, exit) && entry in S && S <= nodes
      requires forall e :: e in edges && e.0 in S ==> e.1 in S
      ensures S == nodes
    {
      forall u | u in nodes ensures u in S {
        EntryReaches(nodes, edges, entry, exit, u);
        ReachClosed(edges, S, entry, u);
      }
    }

    lemma WalkedAll(order: WalkOrder, out: seq<Node>)
      requires Valid() && Walked(edges, entry, order, {}, out) && Elems(out) <= nodes
      ensures NoDup(out) && Elems(out) == nodes
      ensures order == Pre ==> out[0] == entry && HasParents(edges, out)
      ensures order == Post ==> ChildrenFirst(edges, out, {})
    {
      ClosedIsAll(Elems(out));
    }

    /** Walk the graph from its entry under the next id. */
    method Walk(order: WalkOrder) returns (out: seq<Node>)
      requires Valid() && Fresh()
      modifies `walkId, nodes`walkId
      ensures Valid() && walkId == NextWalkId(old(walkId))
      ensures NoDup(out) && Elems(out) == nodes
      ensures forall u :: u in nodes ==> u.walkId == walkId
      ensures order == Pre ==> out[0] == entry && HasParents(edges, out)
      ensures order == Post ==> ChildrenFirst(edges, out, {})
    {
      hide Coherent, Acyclic, Walked, HasParents, ChildrenFirst, Linked;
      walkId := NextWalkId(walkId);
      assert Marked(nodes, walkId) == {};
      CoherentParts(nodes, edges, entry, exit);
      entry.walkId := walkId;
      out := Dfs(entry, walkId, order, nodes, edges, {});
      assert Elems(out) == Marked(nodes, walkId);
      WalkedAll(order, out);
    }

    method WalkBreadthFirst() returns (out: seq<Node>)
      requires Valid() && Fresh()
      modifies `walkId, nodes`walkId
      ensures Valid() && walkId == NextWalkId(old(walkId))
      ensures NoDup(out) && Elems(out) == nodes
      ensures forall u :: u in nodes ==> u.walkId == walkId
      ensures out[0] == entry && HasParents(edges, out)
    {
      hide Coherent, Acyclic, HasParents, Reach, Linked;
      walkId := NextWalkId(walkId);
      assert Marked(nodes, walkId) == {};
      CoherentParts(nodes, edges, entry, exit);
      entry.walkId := walkId;
      out := Bfs(entry, walkId, nodes, edges);
      assert Elems(out) == Marked(nodes, walkId);
      forall u | u in nodes ensures u in Elems(out) {
        EntryReaches(nodes, edges, entry, exit, u);
      }
    }

    /** The node vector a pass works on: every node once, numbered by its position. */
    method CreateNodeIterators(includeEntryExit: bool) returns (vec: seq<Node>)
      requires Valid() && Fresh()
      modifies `walkId, nodes`walkId, nodes`iteratorIndex
      ensures Valid() && walkId == NextWalkId(old(walkId))
      ensures NoDup(vec) && Elems(vec) == if includeEntryExit then nodes else nodes - {entry, exit}
      ensures forall i :: 0 <= i < |vec| ==> vec[i].iteratorIndex == i
      ensures forall u :: u in nodes ==> u.walkId == walkId
      ensures includeEntryExit ==> vec[0] == entry && HasParents(edges, vec)
      ensures !includeEntryExit ==> forall i: nat :: i < |vec| ==> (entry, vec[i]) in edges || HasParent(edges, vec, i)
    {
      hide Coherent, Acyclic, HasParents, Linked, HasParent, Follows;
      var out := Walk(Pre);
      vec := NumberNodes(out, if includeEntryExit then {} else {entry, exit}, nodes);
      if !includeEntryExit {
        NothingAfterExit(nodes, edges, entry, exit);
        forall i: nat | i < |vec| ensures (entry, vec[i]) in edges || HasParent(edges, vec, i) {
          assert vec[i] in Elems(vec);
          ParentKept(edges, entry, exit, out, vec, i);
        }
      }
    }
  }

  /** What `out` lists before the node `vec[i]`, `vec` does too, but for `skip`. */
  ghost predicate Follows(out: seq<Node>, skip: set<Node>, vec: seq<Node>, i: nat)
    requires i < |vec|
  {
    exists k: nat :: k < |out| && out[k] == vec[i] && Elems(out[..k]) - skip <= Elems(vec[..i])
  }

  lemma FollowsMore(out: seq<Node>, skip: set<Node>, vec: seq<Node>, k: nat)
    requires k < |out| && Elems(vec) == Elems(out[..k]) - skip &&
        forall i: nat :: i < |vec| ==> Follows(out, skip, vec, i)
    ensures forall i: nat :: i < |vec| + 1 ==> Follows(out, skip, vec + [out[k]], i)
  {
    var more := vec + [out[k]];
    assert more[..|vec|] == vec && more[|vec|] == out[k];
    forall i: nat | i < |vec| ensures Follows(out, skip, more, i) {
      assert more[..i] == vec[..i] && more[i] == vec[i];
      assert Follows(out, skip, vec, i);
    }
    assert Follows(out, skip, more, |vec|);
  }

  /** Leaving out the entry and the exit, every node still follows a predecessor, or the entry precedes it. */
  lemma ParentKept(E: set<(Node, Node)>, s: Node, t: Node, out: seq<Node>, vec: seq<Node>, i: nat)
    requires (forall e :: e in E ==> e.0 != t) && HasParents(E, out) && out != [] && out[0] == s
    requires i < |vec| && vec[i] != s && Follows(out, {s, t}, vec, i)
    ensures (s, vec[i]) in E || HasParent(E, vec, i)
  {
    var k: nat :| k < |out| && out[k] == vec[i] && Elems(out[..k]) - {s, t} <= Elems(vec[..i]);
    var w := ParentAmong(E, out, k);
    assert (w, vec[i]).0 != t;
    if w != s {
      assert w in Elems(out[..k]) - {s, t} && w in vec[..i];
      assert vec[IndexOf(vec[..i], w)] == w;
    }
  }

  lemma ParentAmong(E: set<(Node, Node)>, out: seq<Node>, k: nat) returns (w: Node)
    requires HasParents(E, out) && 0 < k < |out|
    ensures (w, out[k]) in E && w in Elems(out[..k])
  {
    assert HasParent(E, out, k);
    var j :| 0 <= j < k && (out[j], out[k]) in E;
    w := out[j];
    assert out[..k][j] == w;
  }

  lemma NothingAfterExit(N: set<Node>, E: set<(Node, Node)>, s: Node, t: Node)
    requires Coherent(N, E, s, t)
    ensures forall e :: e in E ==> e.0 != t
  {
    forall e | e in E ensures e.0 != t { NotAnEdge(E, e.0, e.1); }
  }

  /** Number the nodes of `out` that are not in `skip` in the order they are listed. */
  method NumberNodes(out: seq<Node>, skip: set<Node>, ghost nodes: set<Node>) returns (vec: seq<Node>)
    requires NoDup(out) && Elems(out) <= nodes
    modifies nodes`iteratorIndex
    ensures NoDup(vec) && Elems(vec) == Elems(out) - skip
    ensures skip == {} ==> vec == out
    ensures forall i :: 0 <= i < |vec| ==> vec[i].iteratorIndex == i
    ensures forall i: nat :: i < |vec| ==> Follows(out, skip, vec, i)
  {
    hide Follows;
    vec := [];
    var k := 0;
    while k < |out|
      invariant 0 <= k <= |out|
      invariant NoDup(vec)
      invariant Elems(vec) == Elems(out[..k]) - skip
      invariant skip == {} ==> vec == out[..k]
      invariant forall i :: 0 <= i < |vec| ==> vec[i].iteratorIndex == i
      invariant forall i: nat :: i < |vec| ==> Follows(out, skip, vec, i)
    {
      var node := out[k];
      ElemsPrefix(out, k);
      assert node in Elems(out);
      if node !in skip {
        assert node !in Elems(vec);
        NoDupConcat(vec, [node]);
        node.iteratorIndex := |vec|;
        FollowsMore(out, skip, vec, k);
        vec := vec + [node];
      }
      k := k + 1;
    }
    assert out[..k] == out;
  }
}
