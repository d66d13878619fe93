/** A contraction of a command graph keeps its single source and its single sink. */
module QuotientCoherence {
  import opened Digraphs
  import opened Quotients

  /** A representative is the node itself or not one of `N`. */
  ghost predicate Represents<V>(h: V -> V, N: set<V>) {
    forall x :: x in N ==> h(x) == x || h(x) !in N
  }

  /** `u` is contracted with nothing. */
  ghost predicate Alone<V>(h: V -> V, N: set<V>, u: V) {
    h(u) == u && forall x :: x in N && h(x) == u ==> x == u
  }

  /** The top level of a contraction. */
  ghost function Tops<V>(N: set<V>, h: V -> V): set<V> {
    set x | x in N :: h(x)
  }

  lemma NoSources<V>(E: set<(V, V)>, u: V)
    ensures Sources(E, u) == {} <==> forall e :: e in E ==> e.1 != u
    ensures Targets(E, u) == {} <==> forall e :: e in E ==> e.0 != u
  {
    if e :| e in E && e.1 == u { assert e.0 in Sources(E, u); }
    if e :| e in E && e.0 == u { assert e.1 in Targets(E, u); }
  }

  lemma HasSink<V>(S: set<V>, E: set<(V, V)>) returns (m: V)
    requires Acyclic(E) && S != {}
    ensures m in S && forall y :: y in S ==> (m, y) !in E
  {
    var s := HasSchedule(S, E);
    assert s != [] by { var x :| x in S; assert x in Elems(s); }
    m := s[|s| - 1];
    assert m in Elems(s);
    forall y | y in S ensures (m, y) !in E {
      assert y in Elems(s);
      var i := IndexOf(s, y);
    }
  }

  lemma CoherentEnds<V>(N: set<V>, E: set<(V, V)>, s: V, t: V)
    requires Coherent(N, E, s, t)
    ensures forall e :: e in E ==> e.1 != s && e.0 != t && e.0 in N && e.1 in N
    ensures s in N && t in N && s != t && Acyclic(E)
  {
    NoSources(E, s);
    NoSources(E, t);
  }

  lemma CoherentNeighbours<V>(N: set<V>, E: set<(V, V)>, s: V, t: V, m: V)
    requires Coherent(N, E, s, t) && m in N
    ensures m != s ==> exists e :: e in E && e.1 == m
    ensures m != t ==> exists e :: e in E && e.0 == m
  {
    NoSources(E, m);
  }

  lemma IsCoherent<V>(N: set<V>, E: set<(V, V)>, s: V, t: V)
    requires s in N && t in N && s != t && forall e :: e in E ==> e.0 in N && e.1 in N
    requires forall u :: u in N ==> (Sources(E, u) == {} <==> u == s) && (Targets(E, u) == {} <==> u == t)
    ensures Coherent(N, E, s, t) <==> Acyclic(E)
  {
  }

  /** The contracted top level still has the entry as its only source and the exit as its only sink;
      it is a command graph exactly when it is acyclic. */
  lemma TopCoherent<V>(N: set<V>, E: set<(V, V)>, h: V -> V, entry: V, exit: V)
    requires Coherent(N, E, entry, exit) && Alone(h, N, entry) && Alone(h, N, exit)
    ensures Coherent(Tops(N, h), Quotient(E, h), entry, exit) <==> Acyclic(Quotient(E, h))
  {
    var Q, T := Quotient(E, h), Tops(N, h);
    CoherentEnds(N, E, entry, exit);
    forall q | q in Q ensures q.0 in T && q.1 in T {
      var e := QuotientEdge(E, h, q);
    }
    assert entry in T && exit in T;
    hide Quotient, Tops, Sources, Targets, Acyclic, Alone, Coherent;
    forall u | u in T ensures (Sources(Q, u) == {} <==> u == entry) && (Targets(Q, u) == {} <==> u == exit) {
      TopSource(N, E, h, entry, exit, u);
      TopSink(N, E, h, entry, exit, u);
    }
    IsCoherent(T, Q, entry, exit);
  }

  lemma TopSource<V>(N: set<V>, E: set<(V, V)>, h: V -> V, entry: V, exit: V, u: V)
    requires Coherent(N, E, entry, exit) && Alone(h, N, entry) && u in Tops(N, h)
    ensures Sources(Quotient(E, h), u) == {} <==> u == entry
  {
    var Q := Quotient(E, h);
    CoherentEnds(N, E, entry, exit);
    NoSources(Q, u);
    hide Coherent, Sources, Targets, Quotient, Acyclic;
    if u == entry {
      forall q | q in Q ensures q.1 != u {
        var e := QuotientEdge(E, h, q);
      }
    } else {
      var S := set x | x in N && h(x) == u;
      var x :| x in N && h(x) == u;
      var m := HasSource(S, E, x);
      CoherentNeighbours(N, E, entry, exit, m);
      var e :| e in E && e.1 == m;
      assert e == (e.0, m);
      InQuotient(E, h, e);
      assert (h(e.0), u).1 == u;
    }
  }

  lemma TopSink<V>(N: set<V>, E: set<(V, V)>, h: V -> V, entry: V, exit: V, u: V)
    requires Coherent(N, E, entry, exit) && Alone(h, N, exit) && u in Tops(N, h)
    ensures Targets(Quotient(E, h), u) == {} <==> u == exit
  {
    var Q := Quotient(E, h);
    CoherentEnds(N, E, entry, exit);
    NoSources(Q, u);
    hide Coherent, Sources, Targets, Quotient, Acyclic;
    if u == exit {
      forall q | q in Q ensures q.0 != u {
        var e := QuotientEdge(E, h, q);
      }
    } else {
      var S := set x | x in N && h(x) == u;
      var x :| x in N && h(x) == u;
      assert x in S;
      var m := HasSink(S, E);
      CoherentNeighbours(N, E, entry, exit, m);
      var e :| e in E && e.0 == m;
      assert e == (m, e.1);
      InQuotient(E, h, e);
      assert (u, h(e.1)).0 == u;
    }
  }
}
