/** Island detection of the POD batch pass: flood-fill, then folding of false twins until stable. */
module PodIslands {
  import opened CommandGraphs
  import opened Digraphs
  import opened Islands
  import opened Numberings
  import opened Quotients
  import opened UnionFinds

  /** The edges the flood-fill follows. */
  ghost function Links(E: set<(nat, nat)>, cand: seq<bool>, dev: seq<DeviceId>): set<(nat, nat)> {
    set e | e in E && e.0 < |cand| && e.1 < |cand| && |dev| == |cand| && cand[e.0] && cand[e.1] && dev[e.0] == dev[e.1]
  }

  /** The links from the nodes before `i`, and from `i` to `S`. */
  ghost function LinksUpTo(L: set<(nat, nat)>, i: nat, S: set<nat>): set<(nat, nat)> {
    set e | e in L && (e.0 < i || (e.0 == i && e.1 in S))
  }

  /** An island holds candidates of one device, or a single node. */
  ghost predicate Uniform(cls: seq<nat>, cand: seq<bool>, dev: seq<DeviceId>) {
    && |cls| == |cand| == |dev|
    && forall i: nat :: i < |cls| ==>
        cls[i] < |cls| && cls[cls[i]] == cls[i] && dev[i] == dev[cls[i]] && (i != cls[i] ==> cand[i] && cand[cls[i]])
  }

  lemma NextLink(E: set<(nat, nat)>, cand: seq<bool>, dev: seq<DeviceId>, i: nat, S: set<nat>, j: nat)
    requires |cand| == |dev| && i < |cand| && j < |cand| && j in Targets(E, i) && cand[i]
    ensures var L := Links(E, cand, dev);
            LinksUpTo(L, i, S + {j}) == LinksUpTo(L, i, S) + if cand[j] && dev[i] == dev[j] then {(i, j)} else {}
  {
    NotAnEdge(E, i, j);
    var L := Links(E, cand, dev);
    assert (i, j) in L <==> cand[j] && dev[i] == dev[j];
    forall e | e in LinksUpTo(L, i, S + {j}) && e !in LinksUpTo(L, i, S) ensures e == (i, j) { }
  }

  lemma JoinsLinks(cls: seq<nat>, E: set<(nat, nat)>, cand: seq<bool>, dev: seq<DeviceId>, i: nat, S: set<nat>, j: nat)
    requires |cls| == |cand| == |dev| && i < |cls| && j < |cls| && Joins(cls, LinksUpTo(Links(E, cand, dev), i, S))
    ensures Joins(United(cls, i, j), LinksUpTo(Links(E, cand, dev), i, S) + {(i, j)})
    ensures LinksUpTo(Links(E, cand, dev), i, S) + {} == LinksUpTo(Links(E, cand, dev), i, S)
  {
    JoinsMore(cls, LinksUpTo(Links(E, cand, dev), i, S), i, j);
  }

  lemma AllLinks(E: set<(nat, nat)>, cand: seq<bool>, dev: seq<DeviceId>, i: nat)
    ensures LinksUpTo(Links(E, cand, dev), i, Targets(E, i)) == LinksUpTo(Links(E, cand, dev), i + 1, {})
  {
  }

  lemma LinkEnds(E: set<(nat, nat)>, cand: seq<bool>, dev: seq<DeviceId>, i: nat)
    requires |cand| == |dev| && i < |cand| && !cand[i]
    ensures LinksUpTo(Links(E, cand, dev), i + 1, {}) == LinksUpTo(Links(E, cand, dev), i, {})
  {
  }

  /** The links of one node. */
  method FloodFrom(succ: seq<seq<nat>>, i: nat, cand: seq<bool>, dev: seq<DeviceId>, uf: UnionFind,
                   ghost E: set<(nat, nat)>)
    requires Spells(succ, E) && |cand| == |dev| == |succ| && i < |succ| && cand[i]
    requires uf.Valid() && |uf.cls| == |succ| && Joins(uf.cls, LinksUpTo(Links(E, cand, dev), i, {}))
    modifies uf`parent, uf`cls, uf`rank
    ensures uf.Valid() && |uf.cls| == |succ| && Joins(uf.cls, LinksUpTo(Links(E, cand, dev), i + 1, {}))
  {
    ghost var L := Links(E, cand, dev);
    assert Elems(succ[i][..0]) == {};
    hide Joins, United, Links, LinksUpTo, Spells;
    for k := 0 to |succ[i]|
      invariant uf.Valid() && |uf.cls| == |succ| && Joins(uf.cls, LinksUpTo(L, i, Elems(succ[i][..k])))
    {
      var j := succ[i][k];
      SuccessorNumber(succ, E, i, k);
      assert succ[i][..k + 1] == succ[i][..k] + [j];
      NextLink(E, cand, dev, i, Elems(succ[i][..k]), j);
      JoinsLinks(uf.cls, E, cand, dev, i, Elems(succ[i][..k]), j);
      if cand[j] && dev[i] == dev[j] {
        uf.Unite(i, j);
      }
      assert Elems(succ[i][..k + 1]) == Elems(succ[i][..k]) + {j};
    }
    AllSuccessors(succ, E, i);
    AllLinks(E, cand, dev, i);
  }

  /** The flood-fill: two nodes share an island exactly when an undirected path of links joins them. */
  method FloodFill(succ: seq<seq<nat>>, cand: seq<bool>, dev: seq<DeviceId>, uf: UnionFind, ghost E: set<(nat, nat)>)
    requires Spells(succ, E) && |cand| == |dev| == |succ|
    requires uf.Valid() && |uf.cls| == |succ| && forall i :: 0 <= i < |succ| ==> uf.cls[i] == i
    modifies uf`parent, uf`cls, uf`rank
    ensures uf.Valid() && |uf.cls| == |succ| && Joins(uf.cls, Links(E, cand, dev)) && Uniform(uf.cls, cand, dev)
  {
    ghost var L := Links(E, cand, dev);
    JoinsNothing(uf.cls);
    NoLinks(L, |succ|);
    hide Joins, LinksUpTo, Links, Spells;
    for i := 0 to |succ|
      invariant uf.Valid() && |uf.cls| == |succ|
      invariant Joins(uf.cls, LinksUpTo(L, i, {}))
    {
      if cand[i] {
        FloodFrom(succ, i, cand, dev, uf, E);
      } else {
        LinkEnds(E, cand, dev, i);
      }
    }
    EveryLink(E, cand, dev);
    FloodUniform(uf, E, cand, dev);
  }

  lemma NoLinks(L: set<(nat, nat)>, n: nat)
    ensures LinksUpTo(L, 0, {}) == {}
  {
  }

  lemma EveryLink(E: set<(nat, nat)>, cand: seq<bool>, dev: seq<DeviceId>)
    ensures LinksUpTo(Links(E, cand, dev), |cand|, {}) == Links(E, cand, dev)
  {
  }

  lemma FloodUniform(uf: UnionFind, E: set<(nat, nat)>, cand: seq<bool>, dev: seq<DeviceId>)
    requires uf.Valid() && |uf.cls| == |cand| == |dev| && Joins(uf.cls, Links(E, cand, dev))
    ensures Uniform(uf.cls, cand, dev)
  {
    var L, cls := Links(E, cand, dev), uf.cls;
    forall i: nat | i < |cls|
      ensures cls[i] < |cls| && cls[cls[i]] == cls[i] && dev[i] == dev[cls[i]] &&
          (i != cls[i] ==> cand[i] && cand[cls[i]])
    {
      uf.Rooted(i);
      var r: nat := cls[i];
      assert Reach(Undirected(L), i, r) && Reach(Undirected(L), r, i);
      ReachConstant(Undirected(L), (x: nat) => if x < |dev| then dev[x] else UNSPECIFIED_DEVICE, i, r);
      if i != r {
        ReachCases(Undirected(L), i, r);
        ReachCases(Undirected(L), r, i);
        LinkedIsCandidate(E, cand, dev, i, r);
        LinkedIsCandidate(E, cand, dev, r, i);
      }
    }
  }

  lemma LinkedIsCandidate(E: set<(nat, nat)>, cand: seq<bool>, dev: seq<DeviceId>, u: nat, v: nat)
    requires Before(Undirected(Links(E, cand, dev)), u, v)
    ensures u < |cand| && cand[u]
  {
    var e :| e in Undirected(Links(E, cand, dev)) && e.0 == u && Reach(Undirected(Links(E, cand, dev)), e.1, v);
  }

  // ------------------------------------------------------------ false twins

  /** The scratch sets hold the edges `Q` between islands. */
  ghost predicate Stored(rpred: seq<set<nat>>, rsucc: seq<set<nat>>, Q: set<(nat, nat)>) {
    |rpred| == |rsucc| && forall r: nat :: r < |rpred| ==> rpred[r] == Sources(Q, r) && rsucc[r] == Targets(Q, r)
  }

  lemma StoreEdge(rpred: seq<set<nat>>, rsucc: seq<set<nat>>, P: set<(nat, nat)>, cls: seq<nat>, i: nat, j: nat)
    requires Stored(rpred, rsucc, Quotient(P, Group(cls))) && i < |cls| && j < |cls|
    requires cls[i] < |rpred| && cls[j] < |rpred|
    ensures cls[i] == cls[j] ==> Stored(rpred, rsucc, Quotient(P + {(i, j)}, Group(cls)))
    ensures cls[i] != cls[j] ==>
      Stored(rpred[cls[j] := rpred[cls[j]] + {cls[i]}], rsucc[cls[i] := rsucc[cls[i]] + {cls[j]}],
          Quotient(P + {(i, j)}, Group(cls)))
  {
    var c := Group(cls);
    var Q, R := Quotient(P, c), Quotient(P + {(i, j)}, c);
    var a: nat, b: nat := cls[i], cls[j];
    assert c(i) == a && c(j) == b;
    if a == b {
      forall q | q in R ensures q in Q {
        var e := QuotientEdge(P + {(i, j)}, c, q);
        InQuotient(P, c, e);
      }
      forall q | q in Q ensures q in R {
        var e := QuotientEdge(P, c, q);
        InQuotient(P + {(i, j)}, c, e);
      }
      assert R == Q;
    } else {
      assert R == Q + {(a, b)} by {
        InQuotient(P + {(i, j)}, c, (i, j));
        forall q | q in R && q != (a, b) ensures q in Q {
          var e := QuotientEdge(P + {(i, j)}, c, q);
          InQuotient(P, c, e);
        }
        forall q | q in Q ensures q in R {
          var e := QuotientEdge(P, c, q);
          InQuotient(P + {(i, j)}, c, e);
        }
      }
      AddedEdge(Q, a, b);
    }
  }

  /** The edges out of one node, entered under the roots of its ends. */
  method StoreFrom(succ: seq<seq<nat>>, i: nat, uf: UnionFind, ghost E: set<(nat, nat)>, rpred: seq<set<nat>>,
                   rsucc: seq<set<nat>>)
    returns (rpred': seq<set<nat>>, rsucc': seq<set<nat>>)
    requires Spells(succ, E) && i < |succ| && uf.Valid() && |uf.cls| == |succ| == |rpred|
    requires Stored(rpred, rsucc, Quotient(LinksUpTo(E, i, {}), Group(uf.cls)))
    modifies uf`parent
    ensures uf.Valid() && |rpred'| == |succ|
    ensures Stored(rpred', rsucc', Quotient(LinksUpTo(E, i + 1, {}), Group(uf.cls)))
  {
    rpred', rsucc' := rpred, rsucc;
    var ri := uf.Find(i);
    uf.Rooted(i);
    assert Elems(succ[i][..0]) == {};
    hide Quotient, LinksUpTo, Spells, Targets, Sources;
    for k := 0 to |succ[i]|
      invariant uf.Valid() && |rpred'| == |rsucc'| == |succ|
      invariant Stored(rpred', rsucc', Quotient(LinksUpTo(E, i, Elems(succ[i][..k])), Group(uf.cls)))
    {
      var j := succ[i][k];
      SuccessorNumber(succ, E, i, k);
      UpToMore(E, i, Elems(succ[i][..k]), j);
      var rj := uf.Find(j);
      uf.Rooted(j);
      StoreEdge(rpred', rsucc', LinksUpTo(E, i, Elems(succ[i][..k])), uf.cls, i, j);
      if ri != rj {
        rsucc' := rsucc'[ri := rsucc'[ri] + {rj}];
        rpred' := rpred'[rj := rpred'[rj] + {ri}];
      }
      assert succ[i][..k + 1] == succ[i][..k] + [j];
      assert Elems(succ[i][..k + 1]) == Elems(succ[i][..k]) + {j};
    }
    AllSuccessors(succ, E, i);
    UpToAll(E, i);
  }

  lemma UpToMore(E: set<(nat, nat)>, i: nat, S: set<nat>, j: nat)
    requires j in Targets(E, i)
    ensures LinksUpTo(E, i, S + {j}) == LinksUpTo(E, i, S) + {(i, j)}
  {
    NotAnEdge(E, i, j);
    forall e | e in LinksUpTo(E, i, S + {j}) && e !in LinksUpTo(E, i, S) ensures e == (i, j) { }
  }

  lemma UpToAll(E: set<(nat, nat)>, i: nat)
    ensures LinksUpTo(E, i, Targets(E, i)) == LinksUpTo(E, i + 1, {})
  {
  }

  /** The neighbour islands of every island, under the roots of the moment. */
  method IslandNeighbours(succ: seq<seq<nat>>, uf: UnionFind, ghost E: set<(nat, nat)>) returns (rpred: seq<set<nat>>,
                          rsucc: seq<set<nat>>)
    requires Spells(succ, E) && uf.Valid() && |uf.cls| == |succ|
    modifies uf`parent
    ensures uf.Valid() && |rpred| == |succ| && Stored(rpred, rsucc, Quotient(E, Group(uf.cls)))
  {
    rpred, rsucc := seq(|succ|, i => {}), seq(|succ|, i => {});
    StoreNothing(rpred, rsucc, E, uf.cls);
    WithinBounds(succ, E);
    hide Quotient, LinksUpTo, Spells, Targets, Sources, Stored;
    for i := 0 to |succ|
      invariant uf.Valid() && |rpred| == |succ|
      invariant Stored(rpred, rsucc, Quotient(LinksUpTo(E, i, {}), Group(uf.cls)))
    {
      rpred, rsucc := StoreFrom(succ, i, uf, E, rpred, rsucc);
    }
  }

  lemma StoreNothing(rpred: seq<set<nat>>, rsucc: seq<set<nat>>, E: set<(nat, nat)>, cls: seq<nat>)
    requires |rpred| == |rsucc| && forall r :: 0 <= r < |rpred| ==> rpred[r] == {} && rsucc[r] == {}
    ensures Stored(rpred, rsucc, Quotient(LinksUpTo(E, 0, {}), Group(cls)))
  {
    assert LinksUpTo(E, 0, {}) == {};
  }

  lemma WithinBounds(succ: seq<seq<nat>>, E: set<(nat, nat)>)
    requires Spells(succ, E)
    ensures LinksUpTo(E, |succ|, {}) == E
  {
  }

  type Key = (DeviceId, set<nat>, set<nat>)

  /** A candidate that is the root of its island. */
  ghost predicate Root(cls: seq<nat>, cand: seq<bool>, r: nat) {
    r < |cls| == |cand| && cls[r] == r && cand[r]
  }

  /** The first root seen under each key keeps its island; the others up to `i` have joined it. */
  ghost predicate FoldedUpTo(was: seq<nat>, cls: seq<nat>, cand: seq<bool>, key: seq<Key>, seen: map<Key, nat>,
                             i: nat) {
    && |was| == |cls| == |cand| == |key|
    && (forall x: nat :: x < |was| ==> was[x] < |was| && was[was[x]] == was[x])
    && (forall r: nat :: r < i && Root(was, cand, r) ==> key[r] in seen)
    && (forall k :: k in seen ==> seen[k] < i && Root(was, cand, seen[k]) && key[seen[k]] == k)
    && (forall x: nat :: x < |was| ==> cls[x] == if cand[was[x]] &&
        was[x] < i then First(key, seen, was[x]) else was[x])
  }

  ghost function First(key: seq<Key>, seen: map<Key, nat>, r: nat): nat
    requires r < |key|
  {
    if key[r] in seen then seen[key[r]] else r
  }

  lemma FoldSkip(was: seq<nat>, cls: seq<nat>, cand: seq<bool>, key: seq<Key>, seen: map<Key, nat>, i: nat)
    requires FoldedUpTo(was, cls, cand, key, seen, i) && i < |was|
    ensures cls[i] == i <==> was[i] == i
    ensures !Root(was, cand, i) ==> FoldedUpTo(was, cls, cand, key, seen, i + 1)
  {
  }

  lemma FoldFirst(was: seq<nat>, cls: seq<nat>, cand: seq<bool>, key: seq<Key>, seen: map<Key, nat>, i: nat)
    requires FoldedUpTo(was, cls, cand, key, seen, i) && Root(was, cand, i) && key[i] !in seen
    ensures FoldedUpTo(was, cls, cand, key, seen[key[i] := i], i + 1)
  {
  }

  lemma FoldTwin(was: seq<nat>, cls: seq<nat>, cand: seq<bool>, key: seq<Key>, seen: map<Key, nat>, i: nat)
    requires FoldedUpTo(was, cls, cand, key, seen, i) && Root(was, cand, i) && key[i] in seen
    ensures seen[key[i]] < |cls| && FoldedUpTo(was, United(cls, i, seen[key[i]]), cand, key, seen, i + 1)
  {
    var v := seen[key[i]];
    assert cls[i] == i && cls[v] == v;
  }

  /** Two candidate islands of one device with the same neighbour islands. */
  ghost predicate TwinRoots(Q: set<(nat, nat)>, cand: seq<bool>, dev: seq<DeviceId>, a: nat, b: nat) {
    && a < |cand| == |dev| && b < |cand|
    && cand[a] && cand[b] && dev[a] == dev[b] && FalseTwins(Q, a, b)
  }

  /** Exactly the twins of the old quotient share an island now, all of them in one round. */
  ghost predicate Folded(was: seq<nat>, cls: seq<nat>, cand: seq<bool>, dev: seq<DeviceId>, Q: set<(nat, nat)>) {
    && |was| == |cls|
    && (forall x: nat, y: nat :: x < |cls| && y < |cls| ==>
          (cls[x] == cls[y] <==> was[x] == was[y] || TwinRoots(Q, cand, dev, was[x], was[y])))
    && (forall x: nat :: x < |cls| ==>
          && was[x] < |cls| && cls[was[x]] == cls[x]
          && cls[x] < |cls| && cls[cls[x]] == cls[x] && was[cls[x]] == cls[x]
          && (cls[x] == was[x] || TwinRoots(Q, cand, dev, was[x], cls[x])))
  }

  ghost predicate NoTwins(cls: seq<nat>, cand: seq<bool>, dev: seq<DeviceId>, Q: set<(nat, nat)>) {
    forall a: nat, b: nat :: Root(cls, cand, a) && Root(cls, cand, b) && a != b ==> !TwinRoots(Q, cand, dev, a, b)
  }

  ghost function Roots(cls: seq<nat>): set<nat> {
    set r: nat | r < |cls| && cls[r] == r
  }

  /** The keys say who is a twin of whom. */
  ghost predicate Keyed(key: seq<Key>, dev: seq<DeviceId>, Q: set<(nat, nat)>) {
    |key| == |dev| && forall r: nat :: r < |key| ==> key[r] == (dev[r], Sources(Q, r), Targets(Q, r))
  }

  lemma FoldedRound(was: seq<nat>, cls: seq<nat>, cand: seq<bool>, dev: seq<DeviceId>, key: seq<Key>,
                    seen: map<Key, nat>, Q: set<(nat, nat)>)
    requires FoldedUpTo(was, cls, cand, key, seen, |was|) && Keyed(key, dev, Q) && |dev| == |cand|
    ensures Folded(was, cls, cand, dev, Q)
    ensures Roots(cls) <= Roots(was)
  {
    hide Sources, Targets;
    forall a: nat, b: nat | a < |was| && b < |was|
      ensures key[a] == key[b] <==> dev[a] == dev[b] && FalseTwins(Q, a, b)
    { }
    forall x: nat | x < |cls|
      ensures was[x] < |cls| && cls[was[x]] == cls[x] && cls[x] < |cls| && cls[cls[x]] == cls[x] &&
          was[cls[x]] == cls[x]
      ensures cls[x] == was[x] || TwinRoots(Q, cand, dev, was[x], cls[x])
    {
      FoldedAt(was, cls, cand, key, seen, x);
    }
    forall x: nat, y: nat | x < |cls| && y < |cls|
      ensures cls[x] == cls[y] <==> was[x] == was[y] || TwinRoots(Q, cand, dev, was[x], was[y])
    {
      FoldedAt(was, cls, cand, key, seen, x);
      FoldedAt(was, cls, cand, key, seen, y);
    }
  }

  lemma FoldedAt(was: seq<nat>, cls: seq<nat>, cand: seq<bool>, key: seq<Key>, seen: map<Key, nat>, x: nat)
    requires FoldedUpTo(was, cls, cand, key, seen, |was|) && x < |was|
    ensures was[x] < |was| && was[was[x]] == was[x] && cls[was[x]] == cls[x]
    ensures cls[x] < |was| && cls[cls[x]] == cls[x] && was[cls[x]] == cls[x]
    ensures key[cls[x]] == key[was[x]] &&
            (cand[was[x]] ==> key[was[x]] in seen && cls[x] == seen[key[was[x]]] && cand[cls[x]])
    ensures !cand[was[x]] ==> cls[x] == was[x]
  {
    var r := was[x];
    if cand[r] {
      assert Root(was, cand, r);
      assert Root(was, cand, seen[key[r]]);
    }
  }

  lemma Unchanged(was: seq<nat>, cls: seq<nat>, cand: seq<bool>, dev: seq<DeviceId>, key: seq<Key>,
                  seen: map<Key, nat>, Q: set<(nat, nat)>)
    requires FoldedUpTo(was, cls, cand, key, seen, |was|) && Keyed(key, dev, Q) && |dev| == |cand| && cls == was
    ensures NoTwins(cls, cand, dev, Q)
  {
    forall a: nat, b: nat | Root(cls, cand, a) && Root(cls, cand, b) && a != b ensures !TwinRoots(Q, cand, dev, a, b) {
      FoldedAt(was, cls, cand, key, seen, a);
      FoldedAt(was, cls, cand, key, seen, b);
    }
  }

  lemma FoldedUniform(was: seq<nat>, cls: seq<nat>, cand: seq<bool>, dev: seq<DeviceId>, Q: set<(nat, nat)>)
    requires Folded(was, cls, cand, dev, Q) && Uniform(was, cand, dev)
    ensures Uniform(cls, cand, dev)
  {
    forall i: nat | i < |cls| ensures dev[i] == dev[cls[i]] && (i != cls[i] ==> cand[i] && cand[cls[i]]) {
      assert dev[i] == dev[was[i]];
    }
  }

  lemma SeenBefore(was: seq<nat>, cls: seq<nat>, cand: seq<bool>, key: seq<Key>, seen: map<Key, nat>, i: nat)
    requires FoldedUpTo(was, cls, cand, key, seen, i) && i < |key| && key[i] in seen
    ensures seen[key[i]] < i
  {
  }

  /** The candidate roots in index order: each joins the first one with its key. */
  method FoldByKey(cand: seq<bool>, dev: seq<DeviceId>, uf: UnionFind, rpred: seq<set<nat>>, rsucc: seq<set<nat>>,
                   ghost key: seq<Key>)
    returns (seen: map<Key, nat>, changed: bool, ghost moved: nat)
    requires uf.Valid() && |uf.cls| == |cand| == |dev| == |rpred| == |rsucc| == |key|
    requires forall r :: 0 <= r < |key| ==> key[r] == (dev[r], rpred[r], rsucc[r])
    requires FoldedUpTo(uf.cls, uf.cls, cand, key, map[], 0)
    modifies uf`parent, uf`cls, uf`rank
    ensures uf.Valid() && |uf.cls| == |cand| && FoldedUpTo(old(uf.cls), uf.cls, cand, key, seen, |cand|)
    ensures !changed ==> uf.cls == old(uf.cls)
    ensures changed ==> moved < |cand| && Root(old(uf.cls), cand, moved)
    ensures changed ==> key[moved] in seen && seen[key[moved]] != moved
  {
    ghost var was := uf.cls;
    hide FoldedUpTo, United;
    seen, changed, moved := map[], false, 0;
    for i := 0 to |cand|
      invariant uf.Valid() && |uf.cls| == |cand| && FoldedUpTo(was, uf.cls, cand, key, seen, i)
      invariant !changed ==> uf.cls == was
      invariant changed ==> moved < i && Root(was, cand, moved) && key[moved] in seen && seen[key[moved]] != moved
    {
      FoldSkip(was, uf.cls, cand, key, seen, i);
      var r := uf.Find(i);
      if cand[i] && r == i {
        var k := (dev[i], rpred[i], rsucc[i]);
        if k !in seen {
          FoldFirst(was, uf.cls, cand, key, seen, i);
          seen := seen[k := i];
        } else {
          FoldTwin(was, uf.cls, cand, key, seen, i);
          SeenBefore(was, uf.cls, cand, key, seen, i);
          uf.Unite(i, seen[k]);
          changed, moved := true, i;
        }
      }
    }
  }

  /** One round of folding; the neighbour sets are computed once, before it. */
  method FoldRound(succ: seq<seq<nat>>, cand: seq<bool>, dev: seq<DeviceId>, uf: UnionFind,
                   ghost E: set<(nat, nat)>) returns (changed: bool)
    requires Spells(succ, E) && |cand| == |dev| == |succ|
    requires uf.Valid() && |uf.cls| == |succ| && Uniform(uf.cls, cand, dev)
    modifies uf`parent, uf`cls, uf`rank
    ensures uf.Valid() && |uf.cls| == |succ| && Uniform(uf.cls, cand, dev)
    ensures Folded(old(uf.cls), uf.cls, cand, dev, Quotient(E, Group(old(uf.cls))))
    ensures !changed ==> uf.cls == old(uf.cls) && NoTwins(uf.cls, cand, dev, Quotient(E, Group(uf.cls)))
    ensures changed ==> Roots(uf.cls) < Roots(old(uf.cls))
  {
    ghost var was := uf.cls;
    ghost var Q := Quotient(E, Group(was));
    var rpred, rsucc := IslandNeighbours(succ, uf, E);
    ghost var key := seq(|succ|, r requires 0 <= r < |succ| => (dev[r], rpred[r], rsucc[r]));
    assert Keyed(key, dev, Q);
    assert FoldedUpTo(was, was, cand, key, map[], 0);
    hide Quotient, Targets, Sources, Keyed, FoldedUpTo, Spells, Uniform, Folded;
    var seen;
    ghost var moved;
    seen, changed, moved := FoldByKey(cand, dev, uf, rpred, rsucc, key);
    FoldedRound(was, uf.cls, cand, dev, key, seen, Q);
    FoldedUniform(was, uf.cls, cand, dev, Q);
    if changed {
      FoldedAt(was, uf.cls, cand, key, seen, moved);
      assert moved in Roots(was) && moved !in Roots(uf.cls);
    } else {
      Unchanged(was, uf.cls, cand, dev, key, seen, Q);
    }
  }

  /** Every round keeps what matters for the order of islands. */
  lemma RoundKeeps(E: set<(nat, nat)>, was: seq<nat>, cls: seq<nat>, cand: seq<bool>, dev: seq<DeviceId>)
    requires Folded(was, cls, cand, dev, Quotient(E, Group(was))) && Uniform(was, cand, dev)
    requires forall e :: e in E ==> e.0 < |cls| && e.1 < |cls|
    ensures Quotient(Quotient(E, Group(was)), Group(cls)) == Quotient(E, Group(cls))
    ensures Acyclic(Quotient(E, Group(cls))) <==> Acyclic(Quotient(E, Group(was)))
  {
    var Q := Quotient(E, Group(was));
    QuotientCompose(E, Group(was), Group(cls), Group(cls));
    NoLoops(E, Group(was));
    RootFoldTwins(was, cls, cand, dev, Q);
    FoldAcyclic(Q, RootFold(was, cls));
    SameOnRoots(E, was, cls);
  }

  /** The round as a function on roots. */
  ghost function RootFold(was: seq<nat>, cls: seq<nat>): nat -> nat {
    (x: nat) => if x < |cls| == |was| && was[x] == x then cls[x] else x
  }

  lemma RootFoldTwins(was: seq<nat>, cls: seq<nat>, cand: seq<bool>, dev: seq<DeviceId>, Q: set<(nat, nat)>)
    requires Folded(was, cls, cand, dev, Q)
    ensures FoldsTwins(Q, RootFold(was, cls))
  {
    var fold := RootFold(was, cls);
    forall x: nat ensures fold(fold(x)) == fold(x) && (fold(x) != x ==> FalseTwins(Q, x, fold(x))) { }
  }

  lemma SameOnRoots(E: set<(nat, nat)>, was: seq<nat>, cls: seq<nat>)
    requires |was| == |cls| && forall x: nat :: x < |cls| ==> was[x] < |cls| && was[was[x]] == was[x]
    requires forall e :: e in E ==> e.0 < |cls| && e.1 < |cls|
    ensures Quotient(Quotient(E, Group(was)), RootFold(was, cls)) == Quotient(Quotient(E, Group(was)), Group(cls))
  {
    var Q, fold := Quotient(E, Group(was)), RootFold(was, cls);
    forall q | q in Q ensures fold(q.0) == Group(cls)(q.0) && fold(q.1) == Group(cls)(q.1) {
      var e := QuotientEdge(E, Group(was), q);
    }
    forall r | r in Quotient(Q, fold) ensures r in Quotient(Q, Group(cls)) {
      var q := QuotientEdge(Q, fold, r);
      InQuotient(Q, Group(cls), q);
    }
    forall r | r in Quotient(Q, Group(cls)) ensures r in Quotient(Q, fold) {
      var q := QuotientEdge(Q, Group(cls), r);
      InQuotient(Q, fold, q);
    }
  }

  /** `cls` only joins islands of `flood` that no edge links, and orders the islands acyclically exactly when
      `flood` does. */
  ghost predicate Coarsens(E: set<(nat, nat)>, flood: seq<nat>, cls: seq<nat>) {
    && |flood| == |cls|
    && (forall x: nat, y: nat :: x < |cls| && y < |cls| && flood[x] == flood[y] ==> cls[x] == cls[y])
    && (forall e :: e in E && Group(cls)(e.0) == Group(cls)(e.1) ==> Group(flood)(e.0) == Group(flood)(e.1))
    && (Acyclic(Quotient(E, Group(cls))) <==> Acyclic(Quotient(E, Group(flood))))
  }

  lemma CoarsensMore(E: set<(nat, nat)>, flood: seq<nat>, was: seq<nat>, cls: seq<nat>, cand: seq<bool>,
                     dev: seq<DeviceId>)
    requires Coarsens(E, flood, was) && Folded(was, cls, cand, dev, Quotient(E, Group(was))) && Uniform(was, cand, dev)
    requires forall e :: e in E ==> e.0 < |cls| && e.1 < |cls|
    ensures Coarsens(E, flood, cls)
  {
    hide Folded, Uniform, Quotient, Acyclic;
    RoundKeeps(E, was, cls, cand, dev);
    RoundJoins(E, was, cls, cand, dev);
    forall e | e in E && Group(cls)(e.0) == Group(cls)(e.1) ensures Group(was)(e.0) == Group(was)(e.1) {
      RoundApart(E, was, cls, cand, dev, e);
    }
  }

  lemma RoundJoins(E: set<(nat, nat)>, was: seq<nat>, cls: seq<nat>, cand: seq<bool>, dev: seq<DeviceId>)
    requires Folded(was, cls, cand, dev, Quotient(E, Group(was)))
    ensures |was| == |cls| && forall x: nat, y: nat :: x < |cls| && y < |cls| && was[x] == was[y] ==> cls[x] == cls[y]
  {
  }

  /** Twins are not linked, so a round joins no linked islands. */
  lemma RoundApart(E: set<(nat, nat)>, was: seq<nat>, cls: seq<nat>, cand: seq<bool>, dev: seq<DeviceId>, e: (nat, nat))
    requires Folded(was, cls, cand, dev, Quotient(E, Group(was))) && Uniform(was, cand, dev)
    requires e in E && e.0 < |cls| && e.1 < |cls|
    ensures |was| == |cls| && (cls[e.0] == cls[e.1] ==> was[e.0] == was[e.1])
  {
    var Q := Quotient(E, Group(was));
    if was[e.0] != was[e.1] {
      NoLoops(E, Group(was));
      InQuotient(E, Group(was), e);
      RootFoldTwins(was, cls, cand, dev, Q);
      hide Quotient;
      FoldEdge(Q, RootFold(was, cls), (was[e.0], was[e.1]));
    }
  }

  lemma NumberedBounds(succ: seq<seq<nat>>, E: set<(nat, nat)>)
    requires Spells(succ, E)
    ensures forall e :: e in E ==> e.0 < |succ| && e.1 < |succ|
  {
  }

  lemma CoarsensSelf(E: set<(nat, nat)>, cls: seq<nat>)
    ensures Coarsens(E, cls, cls)
  {
  }

  /** Flood-fill islands that are twins at the start end in one island. */
  ghost predicate TwinsJoined(E: set<(nat, nat)>, cand: seq<bool>, dev: seq<DeviceId>, flood: seq<nat>,
                              cls: seq<nat>) {
    && |flood| == |cls|
    && forall x: nat, y: nat ::
         (x < |flood| && y < |flood| && TwinRoots(Quotient(E, Group(flood)), cand, dev, flood[x], flood[y]))
         ==> cls[x] == cls[y]
  }

  lemma FirstJoins(E: set<(nat, nat)>, flood: seq<nat>, cls: seq<nat>, cand: seq<bool>, dev: seq<DeviceId>)
    requires Folded(flood, cls, cand, dev, Quotient(E, Group(flood)))
    ensures TwinsJoined(E, cand, dev, flood, cls)
  {
    hide Quotient, TwinRoots;
  }

  lemma StayJoined(E: set<(nat, nat)>, flood: seq<nat>, was: seq<nat>, cls: seq<nat>, cand: seq<bool>,
                   dev: seq<DeviceId>)
    requires TwinsJoined(E, cand, dev, flood, was) && Folded(was, cls, cand, dev, Quotient(E, Group(was)))
    ensures TwinsJoined(E, cand, dev, flood, cls)
  {
    hide Folded, Quotient, TwinRoots;
    RoundJoins(E, was, cls, cand, dev);
  }

  /** The islands: the flood-fill partition, coarsened by folding false twins until there are none left. */
  method DetectIslands(succ: seq<seq<nat>>, cand: seq<bool>, dev: seq<DeviceId>, uf: UnionFind,
                       ghost E: set<(nat, nat)>)
    returns (ghost flood: seq<nat>)
    requires Spells(succ, E) && |cand| == |dev| == |succ|
    requires uf.Valid() && |uf.cls| == |succ| && forall i :: 0 <= i < |succ| ==> uf.cls[i] == i
    modifies uf`parent, uf`cls, uf`rank
    ensures uf.Valid() && |uf.cls| == |succ| && Uniform(uf.cls, cand, dev) && Uniform(flood, cand, dev)
    ensures Joins(flood, Links(E, cand, dev)) && Coarsens(E, flood, uf.cls)
    ensures NoTwins(uf.cls, cand, dev, Quotient(E, Group(uf.cls))) && TwinsJoined(E, cand, dev, flood, uf.cls)
  {
    NumberedBounds(succ, E);
    FloodFill(succ, cand, dev, uf, E);
    flood := uf.cls;
    CoarsensSelf(E, flood);
    hide Quotient, Acyclic, Folded, NoTwins, Uniform, Joins, Links, Spells, Coarsens, TwinsJoined;
    var changed := true;
    ghost var first := true;
    while changed
      invariant if first then changed && uf.cls == flood else TwinsJoined(E, cand, dev, flood, uf.cls)
      invariant uf.Valid() && |uf.cls| == |succ| && Uniform(uf.cls, cand, dev)
      invariant Coarsens(E, flood, uf.cls)
      invariant !changed ==> NoTwins(uf.cls, cand, dev, Quotient(E, Group(uf.cls)))
      decreases Roots(uf.cls), changed
    {
      ghost var was := uf.cls;
      changed := FoldRound(succ, cand, dev, uf, E);
      CoarsensMore(E, flood, was, uf.cls, cand, dev);
      if first {
        FirstJoins(E, flood, uf.cls, cand, dev);
      } else {
        StayJoined(E, flood, was, uf.cls, cand, dev);
      }
      first := false;
    }
  }
}
