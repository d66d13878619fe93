/** The POD batch pass, after island detection: fresh batch nodes, boundary edges moved onto them, and
    every island handed to a sub-graph that reuses its nodes in place. */
module PodBatch {
  import opened CommandGraphs
  import opened Digraphs
  import opened Plans
  import opened QuotientCoherence
  import opened Quotients
  import opened Traversals

  // ------------------------------------------------------------ boundary edges

  /** An edge between different representatives, one of which is a batch. */
  ghost predicate Boundary(h: Node -> Node, e: (Node, Node)) {
    h(e.0) != h(e.1) && !(h(e.0) == e.0 && h(e.1) == e.1)
  }

  /** `E` with the edges `M` moved onto the representatives of their ends. */
  ghost function Moved(E: set<(Node, Node)>, M: set<(Node, Node)>, h: Node -> Node): set<(Node, Node)> {
    E - M + set e | e in M :: (h(e.0), h(e.1))
  }

  ghost predicate Spans(E: set<(Node, Node)>, N: set<Node>) {
    forall e :: e in E ==> e.0 in N && e.1 in N && e.0 != e.1
  }

  lemma MovedStep(E: set<(Node, Node)>, M: set<(Node, Node)>, h: Node -> Node, N: set<Node>, e: (Node, Node))
    requires Spans(E, N) && Represents(h, N) && M <= E && (forall f :: f in M ==> Boundary(h, f))
    requires e in E && e !in M
    ensures e in Moved(E, M, h)
    ensures Boundary(h, e) ==>
      && (h(e.0), h(e.1)) != e
      && Moved(E, M + {e}, h) == Moved(E, M, h) - {e} + {(h(e.0), h(e.1))}
  {
    if Boundary(h, e) {
      var a, b := Moved(E, M + {e}, h), Moved(E, M, h) - {e} + {(h(e.0), h(e.1))};
      forall f | f in M ensures (h(f.0), h(f.1)) != e { }
      forall x | x in a ensures x in b {
        if x !in E - (M + {e}) {
          var f :| f in M + {e} && x == (h(f.0), h(f.1));
        }
      }
      forall x | x in b ensures x in a {
        if x == (h(e.0), h(e.1)) {
          assert e in M + {e};
        } else if x !in E - M {
          var f :| f in M && x == (h(f.0), h(f.1));
          assert f in M + {e};
        }
      }
    }
  }

  /** Once every boundary edge is moved, an edge either stays inside its island or joins representatives. */
  lemma MovedAll(E: set<(Node, Node)>, h: Node -> Node)
    ensures Moved(E, (set e | e in E && Boundary(h, e)), h) == Inner(E, h) + Quotient(E, h)
    ensures Moved(E, {}, h) == E
  {
    var M := set e | e in E && Boundary(h, e);
    forall x | x in Moved(E, M, h) ensures x in Inner(E, h) + Quotient(E, h) {
      if x in E - M {
        if h(x.0) != h(x.1) {
          InQuotient(E, h, x);
          assert x == (h(x.0), h(x.1));
        }
      } else {
        var e :| e in M && x == (h(e.0), h(e.1));
        InQuotient(E, h, e);
      }
    }
    forall x | x in Quotient(E, h) ensures x in Moved(E, M, h) {
      var e := QuotientEdge(E, h, x);
      if e in M {
        assert x == (h(e.0), h(e.1));
      } else {
        assert x == (e.0, e.1) == e;
      }
    }
  }

  /** Move one boundary edge onto the representatives `ru -> rv`, once. */
  method MoveEdge(u: Node, v: Node, ru: Node, rv: Node, ghost all: set<Node>, ghost F: set<(Node, Node)>)
    requires Linked(all, F) && (u, v) in F && ru in all && rv in all && (ru, rv) != (u, v)
    modifies all`successors, all`predecessors
    ensures Linked(all, F - {(u, v)} + {(ru, rv)})
  {
    LinkedEnds(all, F, u, v);
    hide Linked;
    Unlink(u, v, all, F);
    SuccessorIsEdge(all, F - {(u, v)}, ru, rv);
    if rv !in ru.successors {
      Link(ru, rv, all, F - {(u, v)});
    } else {
      assert F - {(u, v)} + {(ru, rv)} == F - {(u, v)};
    }
  }

  /** Walk over the original edges, listed before any of them moved. */
  method MoveBoundaries(es: seq<(Node, Node)>, rep: seq<Node>, ghost all: set<Node>, ghost N: set<Node>,
                        ghost E: set<(Node, Node)>, ghost h: Node -> Node)
    requires Linked(all, E) && Spans(E, N) && NoDup(es) && Elems(es) == E && Represents(h, N) && N <= all
    requires forall u :: u in N ==> u.iteratorIndex < |rep| && rep[u.iteratorIndex] == h(u) && h(u) in all
    modifies all`successors, all`predecessors
    ensures Linked(all, Inner(E, h) + Quotient(E, h))
  {
    hide Linked, Moved, Represents, NoDup, Inner, Quotient;
    ghost var M: set<(Node, Node)> := {};
    MovedAll(E, h);
    for k := 0 to |es|
      invariant M == set e | e in es[..k] && Boundary(h, e)
      invariant M <= E && Linked(all, Moved(E, M, h))
    {
      var u, v := es[k].0, es[k].1;
      ElemsPrefix(es, k);
      assert es[k] in Elems(es) && es[k] == (u, v);
      var ru, rv := rep[u.iteratorIndex], rep[v.iteratorIndex];
      MovedStep(E, M, h, N, es[k]);
      if ru == rv {
      } else if ru == u && rv == v {
      } else {
        MoveEdge(u, v, ru, rv, all, Moved(E, M, h));
        M := M + {es[k]};
      }
    }
    assert M == set e | e in E && Boundary(h, e);
  }

  // ------------------------------------------------------------ sub-graph ends

  /** The edges that hang the sources of `S` under `entry` and its sinks over `exit`. */
  ghost function Ends(F: set<(Node, Node)>, S: set<Node>, entry: Node, exit: Node): set<(Node, Node)> {
    (set m | m in S && Sources(F, m) == {} :: (entry, m)) + set m | m in S && Targets(F, m) == {} :: (m, exit)
  }

  /** Hanging `S` leaves the neighbours of other nodes alone. */
  lemma EndsElsewhere(F: set<(Node, Node)>, S: set<Node>, m: Node, entry: Node, exit: Node)
    requires m !in S && entry != m && exit != m
    ensures var G := F + Ends(F, S, entry, exit); Sources(G, m) == Sources(F, m) && Targets(G, m) == Targets(F, m)
  {
    var G := F + Ends(F, S, entry, exit);
    forall e | e in Ends(F, S, entry, exit) ensures e.0 != m && e.1 != m {}
    hide Ends;
    forall x: Node ensures x in Sources(G, m) <==> x in Sources(F, m) {
      NotAnEdge(G, x, m);
      NotAnEdge(F, x, m);
    }
    forall x: Node ensures x in Targets(G, m) <==> x in Targets(F, m) {
      NotAnEdge(G, m, x);
      NotAnEdge(F, m, x);
    }
  }

  /** The ends of one more member. */
  ghost function EndsOf(F: set<(Node, Node)>, m: Node, entry: Node, exit: Node): set<(Node, Node)> {
    (if Sources(F, m) == {} then {(entry, m)} else {}) + if Targets(F, m) == {} then {(m, exit)} else {}
  }

  lemma EndsMore(F: set<(Node, Node)>, S: set<Node>, m: Node, entry: Node, exit: Node)
    ensures Ends(F, S + {m}, entry, exit) == Ends(F, S, entry, exit) + EndsOf(F, m, entry, exit)
  {
    hide Sources, Targets;
    var A, B := Ends(F, S + {m}, entry, exit), Ends(F, S, entry, exit) + EndsOf(F, m, entry, exit);
    assert m in S + {m};
    forall e | e in A ensures e in B {
      if e !in Ends(F, S, entry, exit) {
        assert (e == (entry, m) && Sources(F, m) == {}) || (e == (m, exit) && Targets(F, m) == {});
      }
    }
    forall e | e in B ensures e in A {}
  }

  lemma EndsStep(F: set<(Node, Node)>, S: set<Node>, m: Node, entry: Node, exit: Node)
    requires m !in S && entry != exit && entry != m && exit != m
    ensures var G := F + Ends(F, S, entry, exit);
            Sources(G, m) == Sources(F, m) && Targets(G, m) == Targets(F, m)
    ensures F + Ends(F, S + {m}, entry, exit) == F + Ends(F, S, entry, exit)
              + (if Sources(F, m) == {} then {(entry, m)} else {}) + (if Targets(F, m) == {} then {(m, exit)} else {})
  {
    hide Ends, Sources, Targets;
    EndsElsewhere(F, S, m, entry, exit);
    EndsMore(F, S, m, entry, exit);
  }

  lemma NoNeighbours(all: set<Node>, F: set<(Node, Node)>, u: Node)
    requires Linked(all, F) && u in all
    ensures u.predecessors == [] <==> Sources(F, u) == {}
    ensures u.successors == [] <==> Targets(F, u) == {}
  {
    assert NodeLinked(u, F);
    if u.predecessors != [] { assert u.predecessors[0] in Elems(u.predecessors); }
    if u.successors != [] { assert u.successors[0] in Elems(u.successors); }
  }

  /** Hang one member under the entry if nothing precedes it and over the exit if nothing succeeds it. */
  method ConnectMember(m: Node, entry: Node, exit: Node, ghost all: set<Node>, ghost G: set<(Node, Node)>)
    requires Linked(all, G) && m in all && entry in all && exit in all && m != entry && m != exit && entry != exit
    modifies all`successors, all`predecessors
    ensures Linked(all, G + (if Sources(G, m) == {} then {(entry, m)} else {}) + (if Targets(G,
        m) == {} then {(m, exit)} else {}))
  {
    hide Linked;
    ghost var G1 := G;
    NoNeighbours(all, G, m);
    if m.predecessors == [] {
      NotAnEdge(G, entry, m);
      Link(entry, m, all, G);
      G1 := G + {(entry, m)};
      AddedEdge(G, entry, m);
    } else {
      assert G + {} == G;
    }
    NoNeighbours(all, G1, m);
    if m.successors == [] {
      NotAnEdge(G1, m, exit);
      Link(m, exit, all, G1);
    } else {
      assert G1 + {} == G1;
    }
  }

  method ConnectEnds(members: seq<Node>, entry: Node, exit: Node, ghost all: set<Node>, ghost F: set<(Node, Node)>)
    requires Linked(all, F) && NoDup(members) && Elems(members) <= all
    requires entry in all && exit in all && entry != exit && entry !in members && exit !in members
    modifies all`successors, all`predecessors
    ensures Linked(all, F + Ends(F, Elems(members), entry, exit))
  {
    hide Linked, Ends, NoDup;
    NoEnds(F, entry, exit);
    assert Elems(members[..0]) == {};
    for k := 0 to |members|
      invariant Linked(all, F + Ends(F, Elems(members[..k]), entry, exit))
    {
      var m := members[k];
      ElemsPrefix(members, k);
      assert m in Elems(members);
      EndsStep(F, Elems(members[..k]), m, entry, exit);
      ConnectMember(m, entry, exit, all, F + Ends(F, Elems(members[..k]), entry, exit));
    }
    assert members[..|members|] == members;
  }

  lemma NoEnds(F: set<(Node, Node)>, entry: Node, exit: Node)
    ensures F + Ends(F, {}, entry, exit) == F
  {
  }

  // ------------------------------------------------------------ the parts of the result

  /** What the pass records about a materialised island. */
  datatype Island = Island(root: nat, members: seq<Node>, batch: Node, sub: CommandGraph, entry: Node, exit: Node)

  ghost function FreshOf(i: Island): set<Node> {
    {i.batch, i.entry, i.exit}
  }

  ghost function FreshNodes(mats: seq<Island>): set<Node> {
    set i, u | i in mats && u in FreshOf(i) :: u
  }

  /** The islands are the classes `h` sends to a batch; their batches and sub-graph ends are nodes of their own. */
  ghost predicate Partitions(mats: seq<Island>, N: set<Node>, h: Node -> Node) {
    && (forall x :: x in N ==> h(x) == x || exists i :: i in mats && h(x) == i.batch)
    && (forall i :: i in mats ==>
          && NoDup(i.members) && i.members != [] && Elems(i.members) == (set x | x in N && h(x) == i.batch)
          && FreshOf(i) !! N && i.batch != i.entry && i.batch != i.exit && i.entry != i.exit)
    && (forall j, k :: 0 <= j < k < |mats| ==> FreshOf(mats[j]) !! FreshOf(mats[k]))
  }

  /** Every sub-graph end edge, for nodes with the neighbours `F`. */
  ghost function AllEnds(F: set<(Node, Node)>, mats: seq<Island>): set<(Node, Node)> {
    set i, e | i in mats && e in Ends(F, Elems(i.members), i.entry, i.exit) :: e
  }

  lemma SameIsland(mats: seq<Island>, N: set<Node>, h: Node -> Node, i: Island, j: Island, x: Node)
    requires Partitions(mats, N, h) && i in mats && j in mats
    requires (x in FreshOf(i) && x in FreshOf(j)) || (x in i.members && x in j.members)
    ensures i == j
  {
    var a, b := IndexOf(mats, i), IndexOf(mats, j);
    if x in i.members && x in j.members {
      assert x in Elems(i.members) && x in Elems(j.members);
      assert i.batch == j.batch;
    }
  }

  /** The ends of one island do not show among the neighbours of another. */
  lemma EndsApart(F: set<(Node, Node)>, mats: seq<Island>, N: set<Node>, h: Node -> Node, k: nat)
    requires Partitions(mats, N, h) && k < |mats|
    ensures var i, G := mats[k], F + AllEnds(F, mats[..k]);
            && Ends(G, Elems(i.members), i.entry, i.exit) == Ends(F, Elems(i.members), i.entry, i.exit)
            && F + AllEnds(F, mats[..k + 1]) == G + Ends(F, Elems(i.members), i.entry, i.exit)
  {
    var i, G := mats[k], F + AllEnds(F, mats[..k]);
    forall m | m in Elems(i.members) ensures Sources(G, m) == Sources(F, m) && Targets(G, m) == Targets(F, m) {
      forall e | e in AllEnds(F, mats[..k]) ensures e.0 != m && e.1 != m {
        var j :| j in mats[..k] && e in Ends(F, Elems(j.members), j.entry, j.exit);
        var a := IndexOf(mats[..k], j);
        assert mats[a] == j && m in N && m !in FreshOf(j);
      }
    }
    assert mats[..k + 1] == mats[..k] + [i];
    forall e | e in Ends(F, Elems(i.members), i.entry, i.exit) ensures e in AllEnds(F, mats[..k + 1]) {
      assert i in mats[..k + 1];
    }
    forall e | e in AllEnds(F, mats[..k + 1]) ensures e in G + Ends(F, Elems(i.members), i.entry, i.exit) {
      var j :| j in mats[..k + 1] && e in Ends(F, Elems(j.members), j.entry, j.exit);
      if j != i { assert j in mats[..k]; }
    }
  }

  /** Connect every sub-graph's ends. */
  method ConnectAll(mats: seq<Island>, ghost all: set<Node>, ghost N: set<Node>, ghost h: Node -> Node,
                    ghost F: set<(Node, Node)>)
    requires Partitions(mats, N, h) && all == N + FreshNodes(mats) && Linked(all, F)
    modifies all`successors, all`predecessors
    ensures Linked(all, F + AllEnds(F, mats))
  {
    hide *;
    NoneConnected(F, mats);
    for k := 0 to |mats|
      invariant Linked(all, F + AllEnds(F, mats[..k]))
    {
      var i := mats[k];
      IslandParts(mats, N, h, i);
      EndsApart(F, mats, N, h, k);
      ConnectEnds(i.members, i.entry, i.exit, all, F + AllEnds(F, mats[..k]));
    }
    assert mats[..|mats|] == mats;
  }

  lemma NoneConnected(F: set<(Node, Node)>, mats: seq<Island>)
    ensures F + AllEnds(F, mats[..0]) == F
  {
  }

  lemma IslandParts(mats: seq<Island>, N: set<Node>, h: Node -> Node, i: Island)
    requires Partitions(mats, N, h) && i in mats
    ensures NoDup(i.members) && Elems(i.members) <= N && i.entry in FreshNodes(mats) && i.exit in FreshNodes(mats)
    ensures i.entry != i.exit && i.entry !in i.members && i.exit !in i.members
  {
    assert i.entry !in Elems(i.members) && i.exit !in Elems(i.members);
    assert i.entry in FreshOf(i) && i.exit in FreshOf(i);
  }

  /** A part of the nodes no other edge touches. */
  lemma LinkedPart(all: set<Node>, G: set<(Node, Node)>, P: set<Node>, K: set<(Node, Node)>)
    requires Linked(all, G) && P <= all && K <= G
    requires forall e :: e in K ==> e.0 in P && e.1 in P
    requires forall e :: e in G && (e.0 in P || e.1 in P) ==> e in K
    ensures Linked(P, K)
  {
    forall u | u in P ensures NodeLinked(u, K) {
      assert NodeLinked(u, G);
      assert Targets(K, u) == Targets(G, u);
      assert Sources(K, u) == Sources(G, u);
    }
  }

  lemma EndsTouch(F: set<(Node, Node)>, mats: seq<Island>, N: set<Node>, h: Node -> Node,
                  e: (Node, Node)) returns (i: Island)
    requires Partitions(mats, N, h) && e in AllEnds(F, mats)
    ensures i in mats && e in Ends(F, Elems(i.members), i.entry, i.exit)
    ensures (e.0 == i.entry && e.1 in i.members) || (e.0 in i.members && e.1 == i.exit)
    ensures e.0 !in Tops(N, h) && e.1 !in Tops(N, h)
  {
    i :| i in mats && e in Ends(F, Elems(i.members), i.entry, i.exit);
    NotTop(mats, N, h, i, e.0);
    NotTop(mats, N, h, i, e.1);
  }

  lemma NotTop(mats: seq<Island>, N: set<Node>, h: Node -> Node, i: Island, u: Node)
    requires Partitions(mats, N, h) && i in mats && (u in i.members || u == i.entry || u == i.exit)
    ensures u !in Tops(N, h)
  {
    assert u in i.members ==> u in Elems(i.members);
    if u in Tops(N, h) {
      var x :| x in N && u == h(x);
      if u !in i.members && h(x) != x {
        var j :| j in mats && h(x) == j.batch;
        SameIsland(mats, N, h, i, j, u);
      }
    }
  }

  /** The top-level nodes are linked by the quotient alone. */
  lemma TopLinked(mats: seq<Island>, N: set<Node>, E: set<(Node, Node)>, h: Node -> Node, all: set<Node>)
    requires Partitions(mats, N, h) && Represents(h, N) && Spans(E, N) && all == N + FreshNodes(mats)
    requires Linked(all, Inner(E, h) + Quotient(E, h) + AllEnds(Inner(E, h) + Quotient(E, h), mats))
    ensures Linked(Tops(N, h), Quotient(E, h))
  {
    hide Linked;
    var F := Inner(E, h) + Quotient(E, h);
    var G, P := F + AllEnds(F, mats), Tops(N, h);
    forall x | x in P ensures x in all {
      var y :| y in N && x == h(y);
      if h(y) != y {
        var i :| i in mats && h(y) == i.batch;
        assert x in FreshOf(i);
      }
    }
    forall e | e in Quotient(E, h) ensures e.0 in P && e.1 in P {
      var f := QuotientEdge(E, h, e);
    }
    forall e | e in G && (e.0 in P || e.1 in P) ensures e in Quotient(E, h) {
      if e in AllEnds(F, mats) {
        var i := EndsTouch(F, mats, N, h, e);
      } else if e in Inner(E, h) {
        InnerNotTop(N, E, h, e);
      }
    }
    LinkedPart(all, G, P, Quotient(E, h));
  }

  lemma InnerNotTop(N: set<Node>, E: set<(Node, Node)>, h: Node -> Node, e: (Node, Node))
    requires Represents(h, N) && Spans(E, N) && e in Inner(E, h)
    ensures e.0 !in Tops(N, h) && e.1 !in Tops(N, h)
  {
  }

  /** What a sub-graph's nodes are linked by: the edges among the members, and its own ends. */
  ghost function SubEdges(E: set<(Node, Node)>, i: Island): set<(Node, Node)> {
    var S := Elems(i.members);
    Inside(E, S) + Ends(Inside(E, S), S, i.entry, i.exit)
  }

  ghost function SubNodes(i: Island): set<Node> {
    Elems(i.members) + {i.entry, i.exit}
  }

  /** Seen from a member, only the edges inside its island remain. */
  lemma MemberNeighbours(mats: seq<Island>, N: set<Node>, E: set<(Node, Node)>, h: Node -> Node, i: Island)
    requires Partitions(mats, N, h) && Represents(h, N) && Spans(E, N) && i in mats
    ensures var F, S := Inner(E, h) + Quotient(E, h), Elems(i.members);
            && (forall e :: e in F && (e.0 in S || e.1 in S) ==> e in Inside(E, S))
            && Inside(E, S) <= F && Ends(F, S, i.entry, i.exit) == Ends(Inside(E, S), S, i.entry, i.exit)
  {
    var F, S := Inner(E, h) + Quotient(E, h), Elems(i.members);
    forall e | e in F && (e.0 in S || e.1 in S) ensures e in Inside(E, S) {
      if e in Quotient(E, h) {
        var f := QuotientEdge(E, h, e);
        NotTop(mats, N, h, i, if e.0 in S then e.0 else e.1);
      }
    }
    forall m | m in S ensures Sources(F, m) == Sources(Inside(E, S), m) && Targets(F, m) == Targets(Inside(E, S), m) { }
  }

  lemma SubLinked(mats: seq<Island>, N: set<Node>, E: set<(Node, Node)>, h: Node -> Node, all: set<Node>, i: Island)
    requires Partitions(mats, N, h) && Represents(h, N) && Spans(E, N) && all == N + FreshNodes(mats) && i in mats
    requires Linked(all, Inner(E, h) + Quotient(E, h) + AllEnds(Inner(E, h) + Quotient(E, h), mats))
    ensures Linked(SubNodes(i), SubEdges(E, i))
  {
    hide Linked;
    var F, S := Inner(E, h) + Quotient(E, h), Elems(i.members);
    var G, P, K := F + AllEnds(F, mats), SubNodes(i), SubEdges(E, i);
    IslandParts(mats, N, h, i);
    MemberNeighbours(mats, N, E, h, i);
    forall e | e in K ensures e in G && e.0 in P && e.1 in P { }
    forall e | e in G && (e.0 in P || e.1 in P) ensures e in K {
      if e in AllEnds(F, mats) {
        var j := EndsTouch(F, mats, N, h, e);
        OwnEnds(mats, N, h, i, j, if e.0 in P then e.0 else e.1);
      } else {
        FreshUntouched(mats, N, E, h, i, e);
      }
    }
    LinkedPart(all, G, P, K);
  }

  lemma OwnEnds(mats: seq<Island>, N: set<Node>, h: Node -> Node, i: Island, j: Island, x: Node)
    requires Partitions(mats, N, h) && i in mats && j in mats
    requires x in SubNodes(i) && (x in j.members || x == j.entry || x == j.exit)
    ensures i == j
  {
    if x in N {
      assert x in i.members by { assert x !in FreshOf(i); }
      assert x in j.members by { assert x !in FreshOf(j); }
    } else {
      assert x in FreshOf(i) by { assert x !in Elems(i.members); }
      assert x in FreshOf(j) by { assert x !in Elems(j.members); }
    }
    SameIsland(mats, N, h, i, j, x);
  }

  /** No edge between original nodes or representatives touches a sub-graph's entry or exit. */
  lemma FreshUntouched(mats: seq<Island>, N: set<Node>, E: set<(Node, Node)>, h: Node -> Node, i: Island,
                       e: (Node, Node))
    requires Partitions(mats, N, h) && Spans(E, N) && i in mats && e in Inner(E, h) + Quotient(E, h)
    ensures e.0 != i.entry && e.0 != i.exit && e.1 != i.entry && e.1 != i.exit
  {
    NotTop(mats, N, h, i, i.entry);
    NotTop(mats, N, h, i, i.exit);
    assert i.entry in FreshOf(i) && i.exit in FreshOf(i);
    if e in Quotient(E, h) {
      var f := QuotientEdge(E, h, e);
      assert h(f.0) in Tops(N, h) && h(f.1) in Tops(N, h);
    }
  }

  // ------------------------------------------------------------ coherence

  lemma SubAcyclic(E: set<(Node, Node)>, i: Island)
    requires Acyclic(E) && i.entry !in i.members && i.exit !in i.members && i.entry != i.exit
    ensures Acyclic(SubEdges(E, i))
  {
    var S := Elems(i.members);
    var I, K := Inside(E, S), SubEdges(E, i);
    AcyclicSubset(I, E);
    var s := HasSchedule(S, I);
    var r := (x: Node) => if x == i.entry then -1 else if x == i.exit then |s| else if x in s then IndexOf(s, x) else 0;
    forall e | e in K ensures r(e.0) < r(e.1) {
      if e in I {
        assert e.0 in Elems(s) && e.1 in Elems(s);
        var a, b := IndexOf(s, e.0), IndexOf(s, e.1);
        assert e == (s[a], s[b]);
      } else {
        forall x | x in S ensures x in s { assert x in Elems(s); }
      }
    }
    RankedAcyclic(K, r);
  }

  /** The neighbours in a sub-graph are those inside, or else its entry or exit. */
  lemma SubNeighbours(E: set<(Node, Node)>, i: Island, m: Node)
    requires m in i.members
    ensures Sources(SubEdges(E, i), m) != {} && Targets(SubEdges(E, i), m) != {}
  {
    var S := Elems(i.members);
    var I, K := Inside(E, S), SubEdges(E, i);
    NoSources(I, m);
    NoSources(K, m);
    assert m in S;
    assert Sources(I, m) == {} ==> (i.entry, m) in K;
    assert Targets(I, m) == {} ==> (m, i.exit) in K;
    hide Sources, Targets;
    if Sources(I, m) == {} {
      assert (i.entry, m).1 == m;
    } else {
      var e :| e in I && e.1 == m;
      assert e in K;
    }
    if Targets(I, m) == {} {
      assert (m, i.exit).0 == m;
    } else {
      var e :| e in I && e.0 == m;
      assert e in K;
    }
  }

  lemma SubEnds(E: set<(Node, Node)>, i: Island)
    requires Acyclic(E) && i.entry !in i.members && i.exit !in i.members && i.entry != i.exit && i.members != []
    ensures Targets(SubEdges(E, i), i.entry) != {} && Sources(SubEdges(E, i), i.exit) != {}
    ensures Sources(SubEdges(E, i), i.entry) == {} && Targets(SubEdges(E, i), i.exit) == {}
  {
    var K := SubEdges(E, i);
    SubEndEdges(E, i);
    NoSources(K, i.entry);
    NoSources(K, i.exit);
  }

  lemma SubEndEdges(E: set<(Node, Node)>, i: Island)
    requires Acyclic(E) && i.entry !in i.members && i.exit !in i.members && i.entry != i.exit && i.members != []
    ensures forall e :: e in SubEdges(E, i) ==> e.1 != i.entry && e.0 != i.exit
    ensures exists e :: e in SubEdges(E, i) && e.0 == i.entry
    ensures exists e :: e in SubEdges(E, i) && e.1 == i.exit
  {
    var S := Elems(i.members);
    var I, K := Inside(E, S), SubEdges(E, i);
    assert i.members[0] in S;
    AcyclicSubset(I, E);
    var first := HasSource(S, I, i.members[0]);
    var last := HasSink(S, I);
    hide Acyclic;
    NoSources(I, first);
    NoSources(I, last);
    assert (i.entry, first) in K && (last, i.exit) in K;
    assert (i.entry, first).0 == i.entry && (last, i.exit).1 == i.exit;
  }

  /** A sub-graph is a command graph of its own, whatever the contraction did to the top level. */
  lemma SubCoherent(E: set<(Node, Node)>, i: Island)
    requires Acyclic(E) && i.entry !in i.members && i.exit !in i.members && i.entry != i.exit && i.members != []
    ensures Coherent(SubNodes(i), SubEdges(E, i), i.entry, i.exit)
  {
    var K := SubEdges(E, i);
    SubAcyclic(E, i);
    SubEnds(E, i);
    SubWithin(E, i);
    hide SubEdges, Sources, Targets, Acyclic;
    forall u | u in SubNodes(i)
      ensures (Sources(K, u) == {} <==> u == i.entry) && (Targets(K, u) == {} <==> u == i.exit)
    {
      if u in i.members {
        SubNeighbours(E, i, u);
      }
    }
    IsCoherent(SubNodes(i), K, i.entry, i.exit);
  }

  lemma SubWithin(E: set<(Node, Node)>, i: Island)
    ensures forall e :: e in SubEdges(E, i) ==> e.0 in SubNodes(i) && e.1 in SubNodes(i)
  {
  }
}
