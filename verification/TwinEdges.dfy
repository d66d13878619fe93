/** False twins and the copies they hold: what taking one twin away leaves of the others. */
module TwinEdges {
  import opened CommandGraphs
  import opened Copies
  import opened Digraphs

  lemma WithoutNeighbours<V>(E: set<(V, V)>, v: V, x: V)
    requires x != v
    ensures Targets(Without(E, v), x) == Targets(E, x) - {v} && Sources(Without(E, v), x) == Sources(E, x) - {v}
  {
    forall y ensures y in Targets(Without(E, v), x) <==> y in Targets(E, x) - {v} {
      NotAnEdge(E, x, y);
      NotAnEdge(Without(E, v), x, y);
    }
    forall y ensures y in Sources(Without(E, v), x) <==> y in Sources(E, x) - {v} {
      NotAnEdge(E, y, x);
      NotAnEdge(Without(E, v), y, x);
    }
  }

  lemma {:induction false} TwinsKept<V>(E: set<(V, V)>, u: V, v: V, a: V, b: V)
    requires FalseTwins(E, u, v) && u != v && a != v && b != v
    ensures FalseTwins(Without(E, v), a, b) <==> FalseTwins(E, a, b)
  {
    WithoutNeighbours(E, v, a);
    WithoutNeighbours(E, v, b);
    SameEnds(E, u, v, a);
    SameEnds(E, u, v, b);
    SameButOne(Sources(E, a), Sources(E, b), u, v);
    SameButOne(Targets(E, a), Targets(E, b), u, v);
  }

  lemma SameButOne<V>(A: set<V>, B: set<V>, u: V, v: V)
    requires u != v && (v in A <==> u in A) && (v in B <==> u in B)
    ensures A - {v} == B - {v} <==> A == B
  {
    if A - {v} == B - {v} {
      assert u in A <==> u in A - {v};
      assert u in B <==> u in B - {v};
      forall x ensures x in A <==> x in B {
        assert x != v ==> (x in A <==> x in A - {v}) && (x in B <==> x in B - {v});
      }
    }
  }

  lemma SameEnds<V>(E: set<(V, V)>, u: V, v: V, a: V)
    requires FalseTwins(E, u, v)
    ensures (v in Sources(E, a) <==> u in Sources(E, a)) && (v in Targets(E, a) <==> u in Targets(E, a))
  {
    NotAnEdge(E, u, a);
    NotAnEdge(E, v, a);
    NotAnEdge(E, a, u);
    NotAnEdge(E, a, v);
  }

  lemma AbsorbEnds<V>(E: set<(V, V)>, u: V, v: V, x: V)
    requires u != v && FalseTwins(E, u, v) && x != v
    ensures Sources(Without(E, v), x) == {} <==> Sources(E, x) == {}
    ensures Targets(Without(E, v), x) == {} <==> Targets(E, x) == {}
  {
    hide FalseTwins, Sources, Targets, Without;
    WithoutNeighbours(E, v, x);
    SameEnds(E, u, v, x);
    EmptyButOne(Sources(E, x), u, v);
    EmptyButOne(Targets(E, x), u, v);
  }

  lemma AbsorbCoherent<V>(N: set<V>, E: set<(V, V)>, s: V, t: V, u: V, v: V)
    requires Coherent(N, E, s, t) && u != v && FalseTwins(E, u, v) && v != s && v != t
    ensures Coherent(N - {v}, Without(E, v), s, t)
  {
    hide Acyclic, FalseTwins, Sources, Targets;
    AcyclicSubset(Without(E, v), E);
    forall x | x in N - {v}
      ensures Sources(Without(E, v), x) == {} <==> x == s
      ensures Targets(Without(E, v), x) == {} <==> x == t
    {
      AbsorbEnds(E, u, v, x);
    }
  }

  lemma EmptyButOne<V>(A: set<V>, u: V, v: V)
    requires u != v && (v in A <==> u in A)
    ensures A - {v} == {} <==> A == {}
  {
    if u in A { assert u in A - {v}; }
  }

  /** What touches the fused copy touched one of the two. */
  lemma TouchedOne(x: LinearCopy, u: LinearCopy, v: LinearCopy)
    requires InRange(x) && InRange(u) && InRange(v) && Fusable(u, v) && Fusable(x, Fused(u, v))
    ensures Fusable(x, u) || Fusable(x, v)
  {
    FusedFields(u, v);
    SameBias(u, v);
    SameBias(x, Fused(u, v));
    hide Fused;
    assert Wrap(x.src - x.dst) == Wrap(u.src - u.dst) == Wrap(v.src - v.dst);
  }

  /** The fused copy still touches the one it absorbed. */
  lemma StillTouches(u: LinearCopy, v: LinearCopy)
    requires InRange(u) && InRange(v) && Fusable(u, v)
    ensures Fusable(v, Fused(u, v))
  {
    SameBias(u, v);
    FusedFields(u, v);
  }
}
