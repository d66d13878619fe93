/** The transitive reduction of a DAG: what the edge-reduction passes must leave. */
module TransitiveReduction {
  import opened Digraphs
  import opened Quotients

  /** The edge is implied by another edge out of the same node followed by a walk. */
  ghost predicate Redundant<V>(E: set<(V, V)>, e: (V, V)) {
    exists f :: f in E && f.0 == e.0 && f.1 != e.1 && Reach(E, f.1, e.1)
  }

  ghost function Reduction<V>(E: set<(V, V)>): set<(V, V)> {
    set e | e in E && !Redundant(E, e)
  }

  ghost predicate SameOrder<V>(E: set<(V, V)>, F: set<(V, V)>) {
    && (forall e :: e in E ==> Reach(F, e.0, e.1))
    && (forall e :: e in F ==> Reach(E, e.0, e.1))
  }

  lemma SameOrderReach<V>(E: set<(V, V)>, F: set<(V, V)>, u: V, v: V)
    requires SameOrder(E, F)
    ensures Reach(E, u, v) <==> Reach(F, u, v)
  {
    if Reach(E, u, v) {
      ReachMono(E, F, u, v);
    }
    if Reach(F, u, v) {
      ReachMono(F, E, u, v);
    }
  }

  ghost function Between<V>(E: set<(V, V)>, u: V, v: V): set<V> {
    set e | e in E && Before(E, u, e.0) && Before(E, e.0, v) :: e.0
  }

  /** No edge is lost from the order: walks survive the reduction. */
  lemma {:induction false} ReductionKeepsWalks<V>(E: set<(V, V)>, u: V, v: V)
    requires Acyclic(E) && Before(E, u, v)
    ensures Reach(Reduction(E), u, v)
    decreases Between(E, u, v)
  {
    var mid := Between(E, u, v);
    assert forall e :: e in E && Before(E, u, e.0) && Before(E, e.0, v) ==> e.0 in mid;
    if x :| x in mid {
      BetweenShrinks(E, u, x, v);
      ReductionKeepsWalks(E, u, x);
      ReductionKeepsWalks(E, x, v);
      ReachTrans(Reduction(E), u, x, v);
    } else {
      var e :| e in E && e.0 == u && Reach(E, e.1, v);
      ReachCases(E, e.1, v);
      if e.1 != v {
        var g :| g in E && g.0 == e.1 && Reach(E, g.1, v);
        ReachEdge(E, e.0, e.1);
      }
      if Redundant(E, e) {
        var f :| f in E && f.0 == e.0 && f.1 != e.1 && Reach(E, f.1, e.1);
        assert f.1 != v && Reach(E, f.1, v);
        ReachCases(E, f.1, v);
        ReachEdge(E, f.0, f.1);
      }
      assert e in Reduction(E);
      ReachEdge(Reduction(E), e.0, e.1);
    }
  }

  lemma BetweenShrinks<V>(E: set<(V, V)>, u: V, x: V, v: V)
    requires Acyclic(E) && x in Between(E, u, v)
    ensures Before(E, u, x) && Before(E, x, v)
    ensures Between(E, u, x) < Between(E, u, v)
    ensures Between(E, x, v) < Between(E, u, v)
  {
    ReachCases(E, u, x);
    ReachCases(E, x, v);
    forall y | y in Between(E, u, x) ensures y in Between(E, u, v) {
      var e :| e in E && e.0 == y && Before(E, u, y) && Before(E, y, x);
      BeforeTrans(E, y, x, v);
    }
    forall y | y in Between(E, x, v) ensures y in Between(E, u, v) {
      var e :| e in E && e.0 == y && Before(E, x, y) && Before(E, y, v);
      BeforeTrans(E, u, x, y);
    }
    if x in Between(E, u, x) || x in Between(E, x, v) {
      AcyclicStrict(E, x, x);
    }
  }

  /** Dropping the redundant edges changes no order. */
  lemma ReductionSameOrder<V>(E: set<(V, V)>)
    requires Acyclic(E)
    ensures SameOrder(E, Reduction(E))
  {
    forall e | e in E ensures Reach(E, e.0, e.1) && Reach(Reduction(E), e.0, e.1) {
      ReachEdge(E, e.0, e.1);
      assert e == (e.0, e.1);
      ReductionKeepsWalks(E, e.0, e.1);
    }
  }

  lemma {:induction false} ProperFirstStep<V>(F: set<(V, V)>, k: nat, u: V, v: V) returns (f: (V, V))
    requires Steps(F, k, u, v) && u != v
    ensures f in F && f.0 == u && f.1 != u && Reach(F, f.1, v)
  {
    f :| f in F && f.0 == u && Steps(F, k - 1, f.1, v);
    if f.1 == u {
      f := ProperFirstStep(F, k - 1, u, v);
    }
  }

  /** Any graph with the same order contains the reduction. */
  lemma ReductionLeast<V>(E: set<(V, V)>, F: set<(V, V)>)
    requires Acyclic(E) && SameOrder(E, F)
    ensures Reduction(E) <= F
  {
    forall e | e in Reduction(E) ensures e in F {
      ReachSelf(E, e.0);
      var k: nat :| Steps(F, k, e.0, e.1);
      var f := ProperFirstStep(F, k, e.0, e.1);
      if f.1 != e.1 {
        SameOrderReach(E, F, f.1, e.1);
        ReachCases(E, e.0, f.1);
        var g :| g in E && g.0 == e.0 && Reach(E, g.1, f.1);
        ReachTrans(E, g.1, f.1, e.1);
        if g.1 == e.1 {
          ReachCases(E, f.1, g.1);
          AcyclicStrict(E, f.1, g.1);
        }
      } else {
        assert e == f;
      }
    }
  }

  /** The reduction is the one graph with the same order and no edge to spare. */
  lemma ReductionUnique<V>(E: set<(V, V)>, F: set<(V, V)>)
    requires Acyclic(E) && SameOrder(E, F)
    requires forall f :: f in F ==> !Reach(F - {f}, f.0, f.1)
    ensures F == Reduction(E)
  {
    ReductionLeast(E, F);
    ReductionSameOrder(E);
    forall f | f in F ensures f in Reduction(E) {
      if f !in Reduction(E) {
        assert Reach(E, f.0, f.1);
        SameOrderReach(E, Reduction(E), f.0, f.1);
        ReachSubset(Reduction(E), F - {f}, f.0, f.1);
      }
    }
  }

  /** ... and it has no edge to spare itself. */
  lemma ReductionTight<V>(E: set<(V, V)>, e: (V, V))
    requires Acyclic(E) && e in Reduction(E)
    ensures !Reach(Reduction(E) - {e}, e.0, e.1)
  {
    var R := Reduction(E) - {e};
    if Reach(R, e.0, e.1) {
      ReachSelf(E, e.0);
      var k: nat :| Steps(R, k, e.0, e.1);
      var f := ProperFirstStep(R, k, e.0, e.1);
      ReachSubset(R, E, f.1, e.1);
    }
  }

  // ------------------------------------------------------------ renaming

  /** `f` gives the nodes of `N` different names, and `E` is a graph on them. */
  ghost predicate Renames<V, W>(N: set<V>, E: set<(V, V)>, f: V -> W) {
    && (forall x, y :: x in N && y in N && f(x) == f(y) ==> x == y)
    && (forall e :: e in E ==> e.0 in N && e.1 in N && e.0 != e.1)
  }

  lemma {:induction false} StepsRenamed<V, W>(N: set<V>, E: set<(V, V)>, f: V -> W, k: nat, u: V, v: V)
    requires Renames(N, E, f) && u in N && v in N && Steps(Quotient(E, f), k, f(u), f(v))
    ensures Reach(E, u, v)
  {
    if k == 0 {
      ReachSelf(E, u);
    } else {
      var q :| q in Quotient(E, f) && q.0 == f(u) && Steps(Quotient(E, f), k - 1, q.1, f(v));
      var e := QuotientEdge(E, f, q);
      StepsRenamed(N, E, f, k - 1, e.1, v);
      ReachEdge(E, e.0, e.1);
      assert e.0 == u;
      ReachTrans(E, u, e.1, v);
    }
  }

  lemma ReachRenamed<V, W>(N: set<V>, E: set<(V, V)>, f: V -> W, u: V, v: V)
    requires Renames(N, E, f) && u in N && v in N
    ensures Reach(Quotient(E, f), f(u), f(v)) <==> Reach(E, u, v)
  {
    if Reach(E, u, v) {
      QuotientReach(E, f, u, v);
    }
    if Reach(Quotient(E, f), f(u), f(v)) {
      var k: nat :| Steps(Quotient(E, f), k, f(u), f(v));
      StepsRenamed(N, E, f, k, u, v);
    }
  }

  lemma RedundantRenamed<V, W>(N: set<V>, E: set<(V, V)>, f: V -> W, e: (V, V))
    requires Renames(N, E, f) && e in E
    ensures Redundant(Quotient(E, f), (f(e.0), f(e.1))) <==> Redundant(E, e)
  {
    var Q := Quotient(E, f);
    if Redundant(E, e) {
      var g :| g in E && g.0 == e.0 && g.1 != e.1 && Reach(E, g.1, e.1);
      InQuotient(E, f, g);
      ReachRenamed(N, E, f, g.1, e.1);
      assert (f(g.0), f(g.1)) in Q;
    }
    if Redundant(Q, (f(e.0), f(e.1))) {
      var q :| q in Q && q.0 == f(e.0) && q.1 != f(e.1) && Reach(Q, q.1, f(e.1));
      var g := QuotientEdge(E, f, q);
      ReachRenamed(N, E, f, g.1, e.1);
    }
  }

  /** Which edges go does not depend on what the nodes are called: the reduction of a renamed graph is
      the renamed reduction. */
  lemma ReductionRenamed<V, W>(N: set<V>, E: set<(V, V)>, f: V -> W)
    requires Renames(N, E, f)
    ensures Reduction(Quotient(E, f)) == Quotient(Reduction(E), f)
  {
    forall q | q in Reduction(Quotient(E, f)) ensures q in Quotient(Reduction(E), f) {
      var e := QuotientEdge(E, f, q);
      RedundantRenamed(N, E, f, e);
      InQuotient(Reduction(E), f, e);
    }
    forall q | q in Quotient(Reduction(E), f) ensures q in Reduction(Quotient(E, f)) {
      var e := QuotientEdge(Reduction(E), f, q);
      RedundantRenamed(N, E, f, e);
      InQuotient(E, f, e);
    }
  }
}
