/** Merging two nodes of an acyclic contraction: the steps of greedy batching. */
module Merging {
  import opened Digraphs
  import opened Quotients

  /** The class function that absorbs `b` into `a`. */
  ghost function Absorb<V>(a: V, b: V): V -> V {
    x => if x == b then a else x
  }

  ghost function Merged<V>(Q: set<(V, V)>, a: V, b: V): set<(V, V)> {
    Quotient(Q, Absorb(a, b))
  }

  /** Merging false twins only drops edges. */
  lemma MergeTwins<V>(Q: set<(V, V)>, a: V, b: V)
    requires FalseTwins(Q, a, b)
    ensures Merged(Q, a, b) <= Q
  {
    forall x | x in Merged(Q, a, b) ensures x in Q {
      var q := QuotientEdge(Q, Absorb(a, b), x);
      assert q == (q.0, q.1) && x == (x.0, x.1);
      NotAnEdge(Q, q.0, b);
      NotAnEdge(Q, q.0, a);
      NotAnEdge(Q, b, q.1);
      NotAnEdge(Q, a, q.1);
    }
  }

  /** Merging false twins or a series, in either direction, keeps every rank function valid. */
  lemma MergeRanked<V>(Q: set<(V, V)>, r: V -> int, a: V, b: V)
    requires Ranked(Q, r) && a != b && (FalseTwins(Q, a, b) || Series(Q, a, b) || Series(Q, b, a))
    ensures Ranked(Merged(Q, a, b), r)
  {
    forall x | x in Merged(Q, a, b) ensures r(x.0) < r(x.1) {
      if FalseTwins(Q, a, b) {
        MergeTwins(Q, a, b);
      } else {
        var q := QuotientEdge(Q, Absorb(a, b), x);
        MergeRankedSeries(Q, r, a, b, q);
      }
    }
  }

  lemma MergeRankedSeries<V>(Q: set<(V, V)>, r: V -> int, a: V, b: V, q: (V, V))
    requires Ranked(Q, r) && (Series(Q, a, b) || Series(Q, b, a)) && q in Q && Absorb(a, b)(q.0) != Absorb(a, b)(q.1)
    ensures r(Absorb(a, b)(q.0)) < r(Absorb(a, b)(q.1))
  {
    assert q == (q.0, q.1);
    if Series(Q, a, b) {
      NotAnEdge(Q, a, b);
      assert r((a, b).0) < r((a, b).1);
      NotAnEdge(Q, q.0, b);
    } else {
      NotAnEdge(Q, b, a);
      assert r((b, a).0) < r((b, a).1);
      NotAnEdge(Q, b, q.1);
    }
  }

  /** The neighbours `own` of `x` on one side after `b` is absorbed into `a`, given those of `a` and `b`
      on that side and those of `b` on the other. */
  ghost function Rewritten<V>(a: V, b: V, x: V, own: set<V>, ofA: set<V>, ofB: set<V>, back: set<V>): set<V> {
    if x == b then {}
    else if x == a then ofA + ofB - {a, b}
    else if x in back then own - {b} + {a}
    else own
  }

  /** The neighbours after absorbing `b` into `a`. */
  lemma MergedNeighbours<V>(Q: set<(V, V)>, a: V, b: V, x: V)
    requires a != b && forall y :: (y, y) !in Q
    ensures var M := Merged(Q, a, b);
            && Targets(M, x) == Rewritten(a, b, x, Targets(Q, x), Targets(Q, a), Targets(Q, b), Sources(Q, b))
            && Sources(M, x) == Rewritten(a, b, x, Sources(Q, x), Sources(Q, a), Sources(Q, b), Targets(Q, b))
  {
    var M := Merged(Q, a, b);
    forall y ensures y in Targets(M, x) <==>
      y in Rewritten(a, b, x, Targets(Q, x), Targets(Q, a), Targets(Q, b), Sources(Q, b))
    {
      MergedEdge(Q, a, b, x, y);
      NotAnEdge(M, x, y);
      NotAnEdge(Q, x, y);
      NotAnEdge(Q, x, b);
      NotAnEdge(Q, b, y);
    }
    forall y ensures y in Sources(M, x) <==>
      y in Rewritten(a, b, x, Sources(Q, x), Sources(Q, a), Sources(Q, b), Targets(Q, b))
    {
      MergedEdge(Q, a, b, y, x);
      NotAnEdge(M, y, x);
      NotAnEdge(Q, y, x);
      NotAnEdge(Q, y, b);
      NotAnEdge(Q, b, x);
    }
  }

  /** A merge puts nothing in series but the merged node. */
  lemma MergedSeries<V>(Q: set<(V, V)>, a: V, b: V, x: V, y: V)
    requires a != b && (forall z :: (z, z) !in Q) && x != a && x != b && y != a && y != b
    ensures Series(Merged(Q, a, b), x, y) ==> Series(Q, x, y)
  {
    hide Merged, Targets, Sources;
    MergedNeighbours(Q, a, b, x);
    MergedNeighbours(Q, a, b, y);
  }

  lemma MergedEdge<V>(Q: set<(V, V)>, a: V, b: V, x: V, y: V)
    requires a != b
    ensures (x, y) in Merged(Q, a, b) <==>
            x != b && y != b && x != y && ((x, y) in Q || (x == a && (b, y) in Q) || (y == a && (x, b) in Q))
  {
    var d := Absorb(a, b);
    if (x, y) in Merged(Q, a, b) {
      var q := QuotientEdge(Q, d, (x, y));
      assert q == (q.0, q.1);
    }
    if x != b && y != b && x != y {
      if (x, y) in Q { InQuotient(Q, d, (x, y)); }
      if x == a && (b, y) in Q { InQuotient(Q, d, (b, y)); }
      if y == a && (x, b) in Q { InQuotient(Q, d, (x, b)); }
    }
  }
}
