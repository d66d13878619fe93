/** The fusion step of the command-graph copy-fuse pass. */
module PodCopyFuse {
  import opened CommandGraphs
  import opened Copies
  import opened Digraphs
  import opened Lists
  import opened Traversals
  import opened TwinEdges
  import opened TwinRuns

  // ------------------------------------------------------------ contracting twins in place

  /** The successor lists of the nodes in `done` have lost `v`. */
  ghost predicate SuccessorsLost(nodes: set<Node>, was: map<Node, seq<Node>>, done: set<Node>, v: Node)
    reads nodes`successors
  {
    forall x :: x in nodes ==> x in was && x.successors == if x in done then Erase(was[x], v) else was[x]
  }

  ghost predicate PredecessorsLost(nodes: set<Node>, was: map<Node, seq<Node>>, done: set<Node>, v: Node)
    reads nodes`predecessors
  {
    forall x :: x in nodes ==> x in was && x.predecessors == if x in done then Erase(was[x], v) else was[x]
  }

  lemma NewInPrefix(s: seq<Node>, k: nat)
    requires NoDup(s) && k < |s|
    ensures s[k] !in Elems(s[..k])
  {
  }

  method LoseSuccessor(ps: seq<Node>, v: Node, ghost nodes: set<Node>, ghost was: map<Node, seq<Node>>)
    requires NoDup(ps) && (forall x :: x in ps ==> x in nodes) && SuccessorsLost(nodes, was, {}, v)
    modifies nodes`successors
    ensures SuccessorsLost(nodes, was, Elems(ps), v)
  {
    hide NoDup, Erase;
    assert Elems(ps[..0]) == {};
    for k := 0 to |ps|
      invariant SuccessorsLost(nodes, was, Elems(ps[..k]), v)
    {
      ElemsPrefix(ps, k);
      NewInPrefix(ps, k);
      ps[k].successors := Erase(ps[k].successors, v);
    }
    assert ps[..|ps|] == ps;
  }

  method LosePredecessor(ss: seq<Node>, v: Node, ghost nodes: set<Node>, ghost was: map<Node, seq<Node>>)
    requires NoDup(ss) && (forall x :: x in ss ==> x in nodes) && PredecessorsLost(nodes, was, {}, v)
    modifies nodes`predecessors
    ensures PredecessorsLost(nodes, was, Elems(ss), v)
  {
    hide NoDup, Erase;
    assert Elems(ss[..0]) == {};
    for k := 0 to |ss|
      invariant PredecessorsLost(nodes, was, Elems(ss[..k]), v)
    {
      ElemsPrefix(ss, k);
      NewInPrefix(ss, k);
      ss[k].predecessors := Erase(ss[k].predecessors, v);
    }
    assert ss[..|ss|] == ss;
  }

  /** The lists of `u` name the neighbours of `v` in the graph. */
  ghost predicate TwinLists(u: Node, v: Node, nodes: set<Node>, E: set<(Node, Node)>)
    reads u`successors, u`predecessors
  {
    && NoDup(u.successors) && Elems(u.successors) == Targets(E, v) && NoDup(u.predecessors) &&
        Elems(u.predecessors) == Sources(E, v)
    && u !in u.successors && u !in u.predecessors
  }

  lemma LostIsWithout(nodes: set<Node>, E: set<(Node, Node)>, succs: map<Node, seq<Node>>, preds: map<Node, seq<Node>>,
                      v: Node)
    requires succs.Keys == preds.Keys == nodes && (forall e :: e in E ==> e.0 in nodes && e.1 in nodes)
    requires forall x :: x in nodes ==> NoDup(succs[x]) && Elems(succs[x]) == Targets(E, x)
    requires forall x :: x in nodes ==> NoDup(preds[x]) && Elems(preds[x]) == Sources(E, x)
    requires SuccessorsLost(nodes, succs, Sources(E, v), v) && PredecessorsLost(nodes, preds, Targets(E, v), v)
    ensures Linked(nodes - {v}, Without(E, v))
  {
    hide NoDup, Erase, SuccessorsLost, PredecessorsLost;
    forall x | x in nodes - {v} ensures NodeLinked(x, Without(E, v)) {
      WithoutNeighbours(E, v, x);
      EraseElems(succs[x], v);
      EraseElems(preds[x], v);
      NotAnEdge(E, x, v);
      NotAnEdge(E, v, x);
      LostAt(nodes, succs, preds, E, v, x);
    }
  }

  lemma LostAt(nodes: set<Node>, succs: map<Node, seq<Node>>, preds: map<Node, seq<Node>>, E: set<(Node, Node)>,
               v: Node, x: Node)
    requires SuccessorsLost(nodes, succs, Sources(E, v), v) && PredecessorsLost(nodes, preds, Targets(E, v), v) &&
        x in nodes
    ensures x in succs && x.successors == if x in Sources(E, v) then Erase(succs[x], v) else succs[x]
    ensures x in preds && x.predecessors == if x in Targets(E, v) then Erase(preds[x], v) else preds[x]
  {
  }

  lemma ListsOf(nodes: set<Node>, E: set<(Node, Node)>)
    requires Linked(nodes, E)
    ensures forall x :: x in nodes ==> NoDup(x.successors) && Elems(x.successors) == Targets(E, x)
    ensures forall x :: x in nodes ==> NoDup(x.predecessors) && Elems(x.predecessors) == Sources(E, x)
    ensures forall e :: e in E ==> e.0 in nodes && e.1 in nodes
  {
    forall x | x in nodes
      ensures NoDup(x.successors) && Elems(x.successors) == Targets(E, x)
      ensures NoDup(x.predecessors) && Elems(x.predecessors) == Sources(E, x)
    {
      assert NodeLinked(x, E);
    }
  }

  lemma TwinParts(u: Node, v: Node, nodes: set<Node>, E: set<(Node, Node)>)
    requires TwinLists(u, v, nodes, E) && forall e :: e in E ==> e.0 in nodes && e.1 in nodes
    ensures NoDup(u.successors) && NoDup(u.predecessors) && u !in u.successors && u !in u.predecessors
    ensures (forall x :: x in u.successors ==> x in nodes) && (forall x :: x in u.predecessors ==> x in nodes)
    ensures Elems(u.successors) == Targets(E, v) && Elems(u.predecessors) == Sources(E, v)
    ensures forall x :: (x !in u.predecessors ==> x !in Sources(E, v)) && (x !in u.successors ==> x !in Targets(E, v))
  {
    forall x ensures (x !in u.predecessors ==> x !in Sources(E, v)) && (x !in u.successors ==> x !in Targets(E, v)) {
      assert (x in u.predecessors <==> x in Elems(u.predecessors)) && (x in u.successors <==> x in Elems(u.successors));
    }
    forall x | x in u.successors ensures x in nodes { assert x in Elems(u.successors); }
    forall x | x in u.predecessors ensures x in nodes { assert x in Elems(u.predecessors); }
  }

  lemma NothingLost(nodes: set<Node>, succs: map<Node, seq<Node>>, preds: map<Node, seq<Node>>, v: Node)
    requires forall x :: x in nodes ==>
        x in succs && x.successors == succs[x] && x in preds && x.predecessors == preds[x]
    ensures SuccessorsLost(nodes, succs, {}, v) && PredecessorsLost(nodes, preds, {}, v)
  {
  }

  /** Take `v` out of its neighbours' lists, found through the lists of its twin `u`; the lists of `u` and of
      `v` themselves stay as they are. */
  method ContractTwins(u: Node, v: Node, ghost nodes: set<Node>, ghost E: set<(Node, Node)>)
    requires Linked(nodes, E) && v in nodes && TwinLists(u, v, nodes, E) && v !in u.successors && v !in u.predecessors
    modifies nodes`successors, nodes`predecessors
    ensures Linked(nodes - {v}, Without(E, v))
    ensures u.successors == old(u.successors) && u.predecessors == old(u.predecessors)
    ensures v.successors == old(v.successors) && v.predecessors == old(v.predecessors)
  {
    hide *;
    ListsOf(nodes, E);
    TwinParts(u, v, nodes, E);
    ghost var succs, preds := map x | x in nodes :: x.successors, map x | x in nodes :: x.predecessors;
    NothingLost(nodes, succs, preds, v);
    var ps, ss := u.predecessors, u.successors;
    LoseSuccessor(ps, v, nodes, succs);
    LosePredecessor(ss, v, nodes, preds);
    assert u !in Sources(E, v) && u !in Targets(E, v) && v !in Sources(E, v) && v !in Targets(E, v);
    SelfKept(nodes, succs, preds, E, v, u);
    SelfKept(nodes, succs, preds, E, v, v);
    LostIsWithout(nodes, E, succs, preds, v);
  }

  lemma SelfKept(nodes: set<Node>, succs: map<Node, seq<Node>>, preds: map<Node, seq<Node>>, E: set<(Node, Node)>,
                 v: Node, x: Node)
    requires SuccessorsLost(nodes, succs, Sources(E, v), v) && PredecessorsLost(nodes, preds, Targets(E, v), v)
    ensures x in nodes && x !in Sources(E, v) ==> x in succs && x.successors == succs[x]
    ensures x in nodes && x !in Targets(E, v) ==> x in preds && x.predecessors == preds[x]
  {
  }

  // ------------------------------------------------------------ the fusion step

  /** `are_false_twins`: the same lists up to order. */
  ghost predicate SameNeighbours(u: Node, v: Node)
    reads u`successors, u`predecessors, v`successors, v`predecessors
  {
    multiset(u.successors) == multiset(v.successors) && multiset(u.predecessors) == multiset(v.predecessors)
  }

  method AreFalseTwins(u: Node, v: Node) returns (twins: bool)
    ensures twins <==> SameNeighbours(u, v)
  {
    twins := multiset(u.successors) == multiset(v.successors) && multiset(u.predecessors) == multiset(v.predecessors);
  }

  ghost predicate LinearNode(u: Node)
    reads u`command
  {
    u.kind == CommandNode && u.command.Copy1D?
  }

  /** The lists of `u` repeat nothing and do not name it. */
  ghost predicate Tidy(u: Node)
    reads u`successors, u`predecessors
  {
    NoDup(u.successors) && NoDup(u.predecessors) && u !in u.successors && u !in u.predecessors
  }

  lemma TwinsAlike(u: Node, v: Node, nodes: set<Node>, E: set<(Node, Node)>)
    requires Linked(nodes, E) && Acyclic(E) && v in nodes && Tidy(u) && SameNeighbours(u, v)
    ensures TwinLists(u, v, nodes, E) && v !in u.successors && v !in u.predecessors
  {
    assert NodeLinked(v, E);
    NoSelfLoop(E, v);
    NotAnEdge(E, v, v);
    assert forall x :: x in u.successors <==> x in multiset(u.successors);
    assert forall x :: x in v.successors <==> x in multiset(v.successors);
    assert forall x :: x in u.predecessors <==> x in multiset(u.predecessors);
    assert forall x :: x in v.predecessors <==> x in multiset(v.predecessors);
    assert v !in Elems(v.successors) && v !in Elems(v.predecessors);
    assert Elems(u.successors) == Elems(v.successors) && Elems(u.predecessors) == Elems(v.predecessors);
  }

  datatype Outcome = Merged | Unmerged | GaveUp

  /** Two copies the source aborts on: one of them, or both with equal extents and the same bias, is two-dimensional. */
  ghost predicate Unfinished(a: Command, b: Command) {
    || (a.Copy1D? && b.Copy2D?) || (a.Copy2D? && b.Copy1D?)
    || (a.Copy2D? && b.Copy2D? && SameShape(a.block, b.block))
  }

  ghost predicate SameShape(a: BlockCopy, b: BlockCopy) {
    && a.srcDevice == b.srcDevice && a.dstDevice == b.dstDevice
    && Wrap(a.elem * a.m) == Wrap(b.elem * b.m)
    && Wrap(a.elem * a.srcLd) == Wrap(b.elem * b.srcLd) && Wrap(a.elem * a.dstLd) == Wrap(b.elem * b.dstLd)
    && Wrap(a.src - a.dst) == Wrap(b.src - b.dst)
  }

  /** Different command nodes with the same neighbours. */
  ghost predicate CommandTwins(u: Node, v: Node)
    reads u`successors, u`predecessors, v`successors, v`predecessors
  {
    u != v && SameNeighbours(u, v) && u.kind == CommandNode && v.kind == CommandNode
  }

  /** Fuse `v` into `u` if they are linear copies, false twins, and touch. */
  method TryFuse(u: Node, v: Node, ghost nodes: set<Node>, ghost E: set<(Node, Node)>) returns (outcome: Outcome)
    requires Linked(nodes, E) && Acyclic(E) && Tidy(u) && (u != v && SameNeighbours(u, v) ==> v in nodes)
    modifies nodes`successors, nodes`predecessors, u`command
    ensures outcome == Merged <==> old(CommandTwins(u, v) && LinearNode(u) && LinearNode(v))
                                   && Fusable(old(u.command).linear, old(v.command).linear)
    ensures outcome == GaveUp <==> old(CommandTwins(u, v) && Unfinished(u.command, v.command))
    ensures outcome == Merged ==> v in nodes && Linked(nodes - {v}, Without(E, v))
    ensures outcome == Merged ==> u.command == Copy1D(old(u.command).direction,
                                                      Fused(old(u.command).linear, old(v.command).linear))
    ensures outcome != Merged ==> u.command == old(u.command)
    ensures outcome != Merged ==> forall x :: x in nodes ==>
                                    x.successors == old(x.successors) && x.predecessors == old(x.predecessors)
    ensures u.successors == old(u.successors) && u.predecessors == old(u.predecessors)
    ensures v.successors == old(v.successors) && v.predecessors == old(v.predecessors)
  {
    hide Linked, Acyclic, SameNeighbours, Tidy, Fusable, Fused, TwinLists, Wrap;
    var twins := AreFalseTwins(u, v);
    if u == v || !twins || u.kind != CommandNode || v.kind != CommandNode {
      return Unmerged;
    }
    var a, b := u.command, v.command;
    if (a.Copy1D? && b.Copy2D?) || (a.Copy2D? && b.Copy1D?) {
      return GaveUp;
    }
    if a.Copy2D? && b.Copy2D? {
      var x, y := a.block, b.block;
      var same := x.srcDevice == y.srcDevice && x.dstDevice == y.dstDevice
                  && Wrap(x.elem * x.m) == Wrap(y.elem * y.m) && Wrap(x.elem * x.srcLd) == Wrap(y.elem * y.srcLd)
                  && Wrap(x.elem * x.dstLd) == Wrap(y.elem * y.dstLd) && Wrap(x.src - x.dst) == Wrap(y.src - y.dst);
      return if same then GaveUp else Unmerged;
    }
    if !u.command.Copy1D? || !v.command.Copy1D? || !Fusable(u.command.linear, v.command.linear) {
      return Unmerged;
    }
    TwinsAlike(u, v, nodes, E);
    ContractTwins(u, v, nodes, E);
    u.command := Copy1D(u.command.direction, Fused(u.command.linear, v.command.linear));
    return Merged;
  }
}
