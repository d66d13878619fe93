/** The two partitions the batch pass builds: connected same-device islands, and islands folded with
    their false twins. */
module Islands {
  import opened Digraphs
  import opened Quotients
  import opened UnionFinds

  /** Every edge usable in both directions. */
  ghost function Undirected<V>(E: set<(V, V)>): set<(V, V)> {
    E + set e | e in E :: (e.1, e.0)
  }

  /** Two elements share a root exactly when a path of `D`, walked in any direction, joins them. */
  ghost predicate Joins(cls: seq<nat>, D: set<(nat, nat)>) {
    forall i: nat, j: nat :: i < |cls| && j < |cls| ==> (cls[i] == cls[j] <==> Reach(Undirected(D), i, j))
  }

  lemma {:induction false} ReachConstant<V, W>(E: set<(V, V)>, f: V -> W, u: V, v: V)
    requires (forall e :: e in E ==> f(e.0) == f(e.1)) && Reach(E, u, v)
    ensures f(u) == f(v)
  {
    var k: nat :| Steps(E, k, u, v);
    StepsConstant(E, f, k, u, v);
  }

  lemma {:induction false} StepsConstant<V, W>(E: set<(V, V)>, f: V -> W, k: nat, u: V, v: V)
    requires (forall e :: e in E ==> f(e.0) == f(e.1)) && Steps(E, k, u, v)
    ensures f(u) == f(v)
  {
    if k > 0 {
      var e :| e in E && e.0 == u && Steps(E, k - 1, e.1, v);
      StepsConstant(E, f, k - 1, e.1, v);
    }
  }

  lemma {:induction false} ReachBack<V>(D: set<(V, V)>, u: V, v: V)
    requires Reach(Undirected(D), u, v)
    ensures Reach(Undirected(D), v, u)
  {
    var k: nat :| Steps(Undirected(D), k, u, v);
    StepsBack(D, k, u, v);
  }

  lemma {:induction false} StepsBack<V>(D: set<(V, V)>, k: nat, u: V, v: V)
    requires Steps(Undirected(D), k, u, v)
    ensures Reach(Undirected(D), v, u)
  {
    var U := Undirected(D);
    if k == 0 {
      ReachSelf(U, u);
    } else {
      var e :| e in U && e.0 == u && Steps(U, k - 1, e.1, v);
      StepsBack(D, k - 1, e.1, v);
      assert (e.1, e.0) in U by {
        if e !in D {
          var d :| d in D && e == (d.1, d.0);
          assert d == (e.1, e.0);
        }
      }
      ReachEdge(U, e.1, e.0);
      ReachTrans(U, v, e.1, u);
    }
  }

  lemma JoinsNothing(cls: seq<nat>)
    requires forall i :: 0 <= i < |cls| ==> cls[i] == i
    ensures Joins(cls, {})
  {
    forall i: nat, j: nat | i < |cls| && j < |cls| ensures cls[i] == cls[j] <==> Reach(Undirected({}), i, j) {
      if Reach(Undirected({}), i, j) {
        ReachConstant(Undirected({}), (x: nat) => x, i, j);
      }
      ReachSelf(Undirected({}), i);
    }
  }

  /** Uniting the ends of one more link keeps the partition that of the links. */
  lemma JoinsMore(cls: seq<nat>, D: set<(nat, nat)>, a: nat, b: nat)
    requires Joins(cls, D) && a < |cls| && b < |cls|
    requires forall e :: e in D ==> e.0 < |cls| && e.1 < |cls|
    ensures Joins(United(cls, a, b), D + {(a, b)})
  {
    var c, U := United(cls, a, b), Undirected(D + {(a, b)});
    assert (a, b) in U && (b, a) in U by { assert (a, b) in D + {(a, b)}; }
    ReachEdge(U, a, b);
    forall i: nat, j: nat | i < |cls| && j < |cls| ensures c[i] == c[j] <==> Reach(U, i, j) {
      if Reach(U, i, j) {
        UnitedConstant(cls, D, a, b);
        ReachConstant(U, Group(c), i, j);
      }
      if c[i] == c[j] {
        UnitedReach(cls, D, a, b, i, j);
      }
    }
  }

  lemma UnitedConstant(cls: seq<nat>, D: set<(nat, nat)>, a: nat, b: nat)
    requires Joins(cls, D) && a < |cls| && b < |cls|
    requires forall e :: e in D ==> e.0 < |cls| && e.1 < |cls|
    ensures forall e :: e in Undirected(D + {(a, b)}) ==> Group(United(cls, a, b))(e.0) == Group(United(cls, a, b))(e.1)
  {
    forall e | e in D ensures cls[e.0] == cls[e.1] {
      assert e == (e.0, e.1) && e in Undirected(D);
      ReachEdge(Undirected(D), e.0, e.1);
    }
  }

  lemma UnitedReach(cls: seq<nat>, D: set<(nat, nat)>, a: nat, b: nat, i: nat, j: nat)
    requires Joins(cls, D) && a < |cls| && b < |cls| && i < |cls| && j < |cls|
    requires United(cls, a, b)[i] == United(cls, a, b)[j]
    ensures Reach(Undirected(D + {(a, b)}), i, j)
  {
    var U := Undirected(D + {(a, b)});
    forall x: nat, y: nat | x < |cls| && y < |cls| && cls[x] == cls[y] ensures Reach(U, x, y) {
      assert Reach(Undirected(D), x, y);
      ReachSubset(Undirected(D), U, x, y);
    }
    assert (a, b) in D + {(a, b)};
    ReachEdge(U, a, b);
    ReachBack(D + {(a, b)}, a, b);
    if cls[i] != cls[j] {
      if cls[i] == cls[a] {
        ReachTrans(U, i, a, b);
        ReachTrans(U, i, b, j);
      } else {
        ReachTrans(U, i, b, a);
        ReachTrans(U, i, a, j);
      }
    }
  }

  // ------------------------------------------------------------ false twins

  /** `fold` sends every node to a false twin of it that it keeps. */
  ghost predicate FoldsTwins<V(!new)>(Q: set<(V, V)>, fold: V -> V) {
    forall x :: fold(fold(x)) == fold(x) && (fold(x) != x ==> FalseTwins(Q, x, fold(x)))
  }

  /** The sets may be stale: folding all twins at once leaves the graph on the kept nodes. */
  lemma FoldedIsRestricted<V(!new)>(Q: set<(V, V)>, fold: V -> V)
    requires FoldsTwins(Q, fold) && forall x :: (x, x) !in Q
    ensures Quotient(Q, fold) == set q | q in Q && fold(q.0) == q.0 && fold(q.1) == q.1
    ensures forall q :: q in Q ==> fold(q.0) != fold(q.1)
  {
    forall q | q in Q ensures (fold(q.0), fold(q.1)) in Q && fold(q.0) != fold(q.1) {
      FoldEdge(Q, fold, q);
    }
    forall q | q in Q && fold(q.0) == q.0 && fold(q.1) == q.1 ensures q in Quotient(Q, fold) {
      assert q == (q.0, q.1);
      InQuotient(Q, fold, q);
    }
    forall q | q in Quotient(Q, fold) ensures q in Q && fold(q.0) == q.0 && fold(q.1) == q.1 {
      var e := QuotientEdge(Q, fold, q);
      assert q == (fold(e.0), fold(e.1));
    }
  }

  lemma FoldEdge<V(!new)>(Q: set<(V, V)>, fold: V -> V, q: (V, V))
    requires FoldsTwins(Q, fold) && q in Q && forall x :: (x, x) !in Q
    ensures (fold(q.0), fold(q.1)) in Q && fold(q.0) != fold(q.1)
  {
    var x, y := fold(q.0), fold(q.1);
    assert q == (q.0, q.1);
    NotAnEdge(Q, q.0, q.1);
    NotAnEdge(Q, x, q.1);
    assert (x, q.1) in Q;
    NotAnEdge(Q, x, y);
    assert (x, y) in Q;
  }

  /** Folding false twins neither closes nor opens a cycle. */
  lemma FoldAcyclic<V(!new)>(Q: set<(V, V)>, fold: V -> V)
    requires FoldsTwins(Q, fold) && forall x :: (x, x) !in Q
    ensures Acyclic(Quotient(Q, fold)) <==> Acyclic(Q)
  {
    var R := Quotient(Q, fold);
    FoldedIsRestricted(Q, fold);
    if Acyclic(Q) {
      AcyclicSubset(R, Q);
    }
    if Acyclic(R) {
      forall q | q in Q ensures !Reach(Q, q.1, q.0) {
        if Reach(Q, q.1, q.0) {
          QuotientReach(Q, fold, q.1, q.0);
          InQuotient(Q, fold, q);
        }
      }
    }
  }

  lemma NoLoops<V, W(!new)>(E: set<(V, V)>, c: V -> W)
    ensures forall x :: (x, x) !in Quotient(E, c)
  {
    forall x ensures (x, x) !in Quotient(E, c) {
      if (x, x) in Quotient(E, c) {
        var e := QuotientEdge(E, c, (x, x));
      }
    }
  }
}
