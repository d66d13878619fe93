/** Adjacency lists that may hold a neighbour more than once: what they say as sets, and their duality. */
module AdjacencyLists {
  import opened CommandGraphs
  import opened Digraphs
  import opened Lists

  /** As sets, the lists of `u` are what the edges `E` say. */
  ghost predicate NodeListed(u: Node, E: set<(Node, Node)>)
    reads u`successors, u`predecessors
  {
    Elems(u.successors) == Targets(E, u) && Elems(u.predecessors) == Sources(E, u)
  }

  /** `v` is as often a successor of `u` as `u` is a predecessor of `v`. */
  ghost predicate Dual(u: Node, v: Node)
    reads u`successors, v`predecessors
  {
    multiset(u.successors)[v] == multiset(v.predecessors)[u]
  }

  ghost predicate Listed(nodes: set<Node>, E: set<(Node, Node)>)
    reads nodes`successors, nodes`predecessors
  {
    && (forall e :: e in E ==> e.0 in nodes && e.1 in nodes)
    && (forall u :: u in nodes ==> NodeListed(u, E))
    && (forall u, v :: u in nodes && v in nodes ==> Dual(u, v))
  }

  lemma CountsOnce<V>(s: seq<V>)
    ensures NoDup(s) <==> forall x :: x in s ==> multiset(s)[x] == 1
  {
    if NoDup(s) {
      OneEach(s);
    } else {
      var i, j :| 0 <= i < j < |s| && s[i] == s[j];
      assert s == s[..j] + [s[j]] + s[j + 1..];
      assert s[j] in s[..j] by { assert s[..j][i] == s[j]; }
      assert multiset(s) == multiset(s[..j]) + multiset{s[j]} + multiset(s[j + 1..]);
      assert multiset(s)[s[j]] >= 2 && s[j] in s;
    }
  }

  lemma {:induction false} OneEach<V>(s: seq<V>)
    requires NoDup(s)
    ensures forall x :: x in s ==> multiset(s)[x] == 1
  {
    if s != [] {
      NoDupTail(s);
      OneEach(s[1..]);
      assert s == [s[0]] + s[1..];
      assert multiset(s) == multiset{s[0]} + multiset(s[1..]);
    }
  }

  /** Without repeated predecessors nothing is doubled, in either direction. */
  lemma ListedOnce(nodes: set<Node>, E: set<(Node, Node)>)
    requires Listed(nodes, E) && forall u :: u in nodes ==> NoDup(u.predecessors)
    ensures Linked(nodes, E)
  {
    forall u | u in nodes ensures NodeLinked(u, E) {
      forall v | v in u.successors ensures multiset(u.successors)[v] == 1 {
        assert v in Elems(u.successors) && v in Targets(E, u);
        NotAnEdge(E, u, v);
        assert (u, v).1 in nodes && Dual(u, v);
        CountsOnce(v.predecessors);
      }
      CountsOnce(u.successors);
    }
  }

  lemma LinkedListed(nodes: set<Node>, E: set<(Node, Node)>)
    requires Linked(nodes, E)
    ensures Listed(nodes, E)
  {
    forall u, v | u in nodes && v in nodes ensures Dual(u, v) {
      CountsOnce(u.successors);
      CountsOnce(v.predecessors);
      NotAnEdge(E, u, v);
      assert v in u.successors <==> v in Elems(u.successors);
      assert u in v.predecessors <==> u in Elems(v.predecessors);
    }
  }

  lemma AppendedOne<V>(s: seq<V>, x: V, y: V)
    ensures multiset(s + [x])[y] == multiset(s)[y] + if x == y then 1 else 0
    ensures Elems(s + [x]) == Elems(s) + {x}
  {
    assert multiset(s + [x]) == multiset(s) + multiset{x};
  }

  /** `u` precedes `v` once more. */
  method LinkAgain(u: Node, v: Node, ghost nodes: set<Node>, ghost E: set<(Node, Node)>)
    requires Listed(nodes, E) && u in nodes && v in nodes
    modifies u`successors, v`predecessors
    ensures u.successors == old(u.successors) + [v] && v.predecessors == old(v.predecessors) + [u]
    ensures Listed(nodes, E + {(u, v)})
  {
    Precedes(u, v);
    forall x | x in nodes ensures NodeListed(x, E + {(u, v)}) {
      assert old(NodeListed(x, E));
      hide NodeListed, Dual;
      ListedAfter(x, E, u, v, old(x.successors), old(x.predecessors));
    }
    forall x, y | x in nodes && y in nodes ensures Dual(x, y) {
      assert old(Dual(x, y));
      hide NodeListed, Dual;
      DualAfter(x, y, u, v, old(x.successors), old(y.predecessors));
    }
    hide NodeListed, Dual;
  }

  lemma ListedAfter(x: Node, E: set<(Node, Node)>, u: Node, v: Node, succs: seq<Node>, preds: seq<Node>)
    requires Elems(succs) == Targets(E, x) && Elems(preds) == Sources(E, x)
    requires x.successors == (if x == u then succs + [v] else succs) &&
        x.predecessors == if x == v then preds + [u] else preds
    ensures NodeListed(x, E + {(u, v)})
  {
    hide Targets, Sources;
    AddedEdge(E, u, v);
    AppendedOne(succs, v, v);
    AppendedOne(preds, u, u);
  }

  lemma DualAfter(x: Node, y: Node, u: Node, v: Node, succs: seq<Node>, preds: seq<Node>)
    requires multiset(succs)[y] == multiset(preds)[x]
    requires x.successors == (if x == u then succs + [v] else succs) &&
        y.predecessors == if y == v then preds + [u] else preds
    ensures Dual(x, y)
  {
    AppendedOne(succs, v, y);
    AppendedOne(preds, u, x);
  }

  /** Nodes without neighbours. */
  lemma NothingListed(nodes: set<Node>)
    requires forall u :: u in nodes ==> u.successors == [] && u.predecessors == []
    ensures Listed(nodes, {})
  {
  }
}
