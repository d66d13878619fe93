/** Contractions do not depend on what the nodes are called. */
module Renamings {
  import opened Contractions
  import opened Digraphs
  import opened Plans
  import opened Quotients
  import opened TransitiveReduction

  ghost predicate Injects<V, W>(N: set<V>, f: V -> W) {
    forall x, y :: x in N && y in N && f(x) == f(y) ==> x == y
  }

  ghost function Image<V, W>(S: set<V>, f: V -> W): set<W> {
    set x | x in S :: f(x)
  }

  lemma IsRenaming<V, W>(N: set<V>, E: set<(V, V)>, f: V -> W)
    requires Injects(N, f) && Within(E, N) && Acyclic(E)
    ensures Renames(N, E, f)
  {
    forall e | e in E ensures e.0 != e.1 { NoSelfLoop(E, e.0); }
  }

  lemma BeforeRenamed<V, W>(N: set<V>, E: set<(V, V)>, f: V -> W, u: V, v: V)
    requires Renames(N, E, f) && u in N && v in N
    ensures Before(Quotient(E, f), f(u), f(v)) <==> Before(E, u, v)
  {
    var Q := Quotient(E, f);
    if Before(E, u, v) {
      var e :| e in E && e.0 == u && Reach(E, e.1, v);
      ReachRenamed(N, E, f, e.1, v);
      InQuotient(E, f, e);
      assert (f(e.0), f(e.1)) in Q && (f(e.0), f(e.1)).0 == f(u);
    }
    if Before(Q, f(u), f(v)) {
      var q :| q in Q && q.0 == f(u) && Reach(Q, q.1, f(v));
      var e := QuotientEdge(E, f, q);
      ReachRenamed(N, E, f, e.1, v);
      assert e.0 == u;
    }
  }

  lemma AcyclicRenamed<V, W>(N: set<V>, E: set<(V, V)>, f: V -> W)
    requires Renames(N, E, f)
    ensures Acyclic(Quotient(E, f)) <==> Acyclic(E)
  {
    if Acyclic(E) {
      forall q | q in Quotient(E, f) ensures !Reach(Quotient(E, f), q.1, q.0) {
        var e := QuotientEdge(E, f, q);
        ReachRenamed(N, E, f, e.1, e.0);
      }
    }
    if Acyclic(Quotient(E, f)) {
      forall e | e in E ensures !Reach(E, e.1, e.0) {
        ReachRenamed(N, E, f, e.1, e.0);
        InQuotient(E, f, e);
        assert (f(e.0), f(e.1)).0 == f(e.0);
      }
    }
  }

  lemma InsideRenamed<V, W>(N: set<V>, E: set<(V, V)>, f: V -> W, S: set<V>)
    requires Renames(N, E, f) && S <= N
    ensures Inside(Quotient(E, f), Image(S, f)) == Quotient(Inside(E, S), f)
  {
    forall q | q in Inside(Quotient(E, f), Image(S, f)) ensures q in Quotient(Inside(E, S), f) {
      var e := QuotientEdge(E, f, q);
      assert e.0 in S && e.1 in S;
      InQuotient(Inside(E, S), f, e);
    }
    forall q | q in Quotient(Inside(E, S), f) ensures q in Inside(Quotient(E, f), Image(S, f)) {
      var e := QuotientEdge(Inside(E, S), f, q);
      InQuotient(E, f, e);
    }
  }

  // ------------------------------------------------------------ one contraction

  /** Contract, then rename. */
  ghost function Through<V, W>(S: set<V>, b: V, f: V -> W): V -> W {
    x => f(Into(S, b)(x))
  }

  lemma IntoRenamed<V, W>(U: set<V>, E: set<(V, V)>, f: V -> W, S: set<V>, b: V)
    requires Injects(U, f) && Within(E, U) && S <= U
    ensures Quotient(Quotient(E, f), Into(Image(S, f), f(b))) == Quotient(Quotient(E, Into(S, b)), f)
  {
    var F := Through(S, b, f);
    forall x | x in U ensures F(x) == Into(Image(S, f), f(b))(f(x)) {
      assert f(x) in Image(S, f) <==> x in S;
      var g, h := Into(S, b), Into(Image(S, f), f(b));
      assert g(x) == if x in S then b else x;
      assert h(f(x)) == if f(x) in Image(S, f) then f(b) else f(x);
      assert F(x) == f(g(x));
    }
    QuotientCompose(E, f, Into(Image(S, f), f(b)), F);
    QuotientCompose(E, Into(S, b), f, F);
  }

  lemma NodesRenamed<V, W>(U: set<V>, N: set<V>, f: V -> W, S: set<V>, b: V)
    requires Injects(U, f) && N <= U && S <= N
    ensures Image(N, f) - Image(S, f) + {f(b)} == Image(N - S + {b}, f)
  {
    var A, B := Image(N, f) - Image(S, f) + {f(b)}, Image(N - S + {b}, f);
    forall y: W ensures y in A <==> y in B {
      if y in B {
        var x :| x in N - S + {b} && y == f(x);
        if x != b {
          forall z | z in S ensures f(z) != f(x) { assert z in U && x in U; }
        }
      }
      if y in A && y != f(b) {
        var x :| x in N && y == f(x);
        assert x in N - S + {b};
      }
    }
    assert A == B;
  }

  // ------------------------------------------------------------ a run of contractions

  ghost function RenamedSteps<V, W>(steps: seq<Contraction<V>>, f: V -> W): (renamed: seq<Contraction<W>>)
    ensures |renamed| == |steps|
    ensures forall j :: 0 <= j < |steps| ==> renamed[j] == Contraction(Image(steps[j].members, f), f(steps[j].batch))
  {
    seq(|steps|, j requires 0 <= j < |steps| => Contraction(Image(steps[j].members, f), f(steps[j].batch)))
  }

  ghost function BatchesIn<V>(steps: seq<Contraction<V>>): set<V> {
    set s | s in steps :: s.batch
  }

  /** What is live during a run of contractions. */
  lemma {:induction false} ContractedWithin<V>(steps: seq<Contraction<V>>, N: set<V>, E: set<(V, V)>)
    requires Sensible(steps, N, E) && Within(E, N) && Acyclic(E)
    ensures var r := Contracted(steps, N, E); r.0 <= N + BatchesIn(steps) && Within(r.1, r.0) && Acyclic(r.1)
  {
    if steps != [] {
      var k := |steps| - 1;
      ContractedWithin(steps[..k], N, E);
      var r := Contracted(steps[..k], N, E);
      assert steps[k] in steps && forall s :: s in steps[..k] ==> s in steps;
      forall q | q in Quotient(r.1, Into(steps[k].members, steps[k].batch))
        ensures q.0 in r.0 - steps[k].members + {steps[k].batch} && q.1 in r.0 - steps[k].members + {steps[k].batch}
      {
        var e := QuotientEdge(r.1, Into(steps[k].members, steps[k].batch), q);
      }
    }
  }

  /** Renaming everything that is ever live renames the result, and keeps every step sensible. */
  lemma {:induction false} ContractedRenamed<V, W>(steps: seq<Contraction<V>>, N: set<V>, E: set<(V, V)>, f: V -> W,
      U: set<V>)
    requires Sensible(steps, N, E) && Within(E, N) && Acyclic(E) && N + BatchesIn(steps) <= U && Injects(U, f)
    ensures
      var r, t := Contracted(steps, N, E), RenamedSteps(steps, f);
      Contracted(t, Image(N, f), Quotient(E, f)) == (Image(r.0, f), Quotient(r.1, f)) &&
          Sensible(t, Image(N, f), Quotient(E, f))
  {
    if steps != [] {
      var k := |steps| - 1;
      var front, s := steps[..k], steps[k];
      assert forall x :: x in front ==> x in steps;
      assert s in steps && BatchesIn(front) <= BatchesIn(steps) && s.batch in U;
      ContractedRenamed(front, N, E, f, U);
      ContractedWithin(front, N, E);
      var r := Contracted(front, N, E);
      assert RenamedSteps(steps, f)[..k] == RenamedSteps(front, f);
      ContractedWithin(steps, N, E);
      RenamedStep(r.0, r.1, s, f, U);
    }
  }

  lemma RenamedStep<V, W>(N: set<V>, E: set<(V, V)>, s: Contraction<V>, f: V -> W, U: set<V>)
    requires Within(E, N) && N <= U && s.batch in U && Injects(U, f) && s.members <= N && s.batch !in N - s.members
    requires Acyclic(Quotient(E, Into(s.members, s.batch))) &&
        Within(Quotient(E, Into(s.members, s.batch)), N - s.members + {s.batch})
    ensures Image(s.members, f) <= Image(N, f) && f(s.batch) !in Image(N, f) - Image(s.members, f)
    ensures Image(N, f) - Image(s.members, f) + {f(s.batch)} == Image(N - s.members + {s.batch}, f)
    ensures Quotient(Quotient(E, f), Into(Image(s.members, f), f(s.batch))) == Quotient(Quotient(E,
        Into(s.members, s.batch)), f)
    ensures Acyclic(Quotient(Quotient(E, f), Into(Image(s.members, f), f(s.batch))))
  {
    var Q, M := Quotient(E, Into(s.members, s.batch)), N - s.members + {s.batch};
    IntoRenamed(U, E, f, s.members, s.batch);
    NodesRenamed(U, N, f, s.members, s.batch);
    assert Injects(M, f);
    IsRenaming(M, Q, f);
    AcyclicRenamed(M, Q, f);
  }
}
