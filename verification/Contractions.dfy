/** Several groups contracted one after the other. */
module Contractions {
  import opened Digraphs
  import opened Plans
  import opened Quotients

  datatype Contraction<V> = Contraction(members: set<V>, batch: V)

  /** The top level after the contractions. */
  ghost function Contracted<V>(steps: seq<Contraction<V>>, N: set<V>, E: set<(V, V)>): (set<V>, set<(V, V)>) {
    if steps == [] then (N, E)
    else
      var r, s := Contracted(steps[..|steps| - 1], N, E), steps[|steps| - 1];
      (r.0 - s.members + {s.batch}, Quotient(r.1, Into(s.members, s.batch)))
  }

  /** Every step contracts live nodes, into a fresh one or into one of them, and closes no cycle. */
  ghost predicate Sensible<V>(steps: seq<Contraction<V>>, N: set<V>, E: set<(V, V)>) {
    steps != [] ==>
      var front, s := steps[..|steps| - 1], steps[|steps| - 1];
      var r := Contracted(front, N, E);
      && Sensible(front, N, E)
      && s.members <= r.0 && s.batch !in r.0 - s.members
      && Acyclic(Quotient(r.1, Into(s.members, s.batch)))
  }

  lemma ContractedSnoc<V>(steps: seq<Contraction<V>>, s: Contraction<V>, N: set<V>, E: set<(V, V)>)
    ensures var r := Contracted(steps, N, E);
            && Contracted(steps + [s], N, E) == (r.0 - s.members + {s.batch}, Quotient(r.1, Into(s.members, s.batch)))
            && (Sensible(steps + [s], N, E) <==>
                (Sensible(steps, N, E) && s.members <= r.0 && s.batch !in r.0 - s.members &&
                 Acyclic(Quotient(r.1, Into(s.members, s.batch)))))
  {
    assert (steps + [s])[..|steps|] == steps;
  }

  /** The plan after the contractions: a batch stands for the commands of its members, ordered as the
      edges among them order them, and is replayed as one block. */
  ghost function ContractAll<V>(steps: seq<Contraction<V>>, p: Plan<V>): (q: Plan<V>)
    requires Closed(p) && Sensible(steps, p.nodes, p.edges)
    ensures Closed(q) && (q.nodes, q.edges) == Contracted(steps, p.nodes, p.edges)
  {
    if steps == [] then p
    else
      var s := steps[|steps| - 1];
      var m := ContractAll(steps[..|steps| - 1], p);
      ContractClosed(m, s.members, s.batch);
      Contract(m, s.members, s.batch)
  }

  /** Contracting groups never allows an execution that was not allowed before, and leaves one that is. */
  lemma {:induction false} ContractionsTighten<V>(steps: seq<Contraction<V>>, p: Plan<V>, w: map<V, seq<V>>)
    returns (w': map<V, seq<V>>)
    requires Sound(p, w) && Sensible(steps, p.nodes, p.edges)
    ensures Sound(ContractAll(steps, p), w') && Tightens(p, ContractAll(steps, p))
  {
    if steps == [] {
      w' := w;
      TightensSelf(p);
    } else {
      var front, s := steps[..|steps| - 1], steps[|steps| - 1];
      var m := ContractAll(front, p);
      var wm := ContractionsTighten(front, p, w);
      ContractTightens(m, s.members, s.batch);
      w' := ContractSound(m, wm, s.members, s.batch);
      TightensTrans(p, m, Contract(m, s.members, s.batch));
    }
  }

  /** The node a contraction sends each original node to. */
  ghost function Home<V>(steps: seq<Contraction<V>>, x: V): V {
    if steps == [] then x
    else
      var h, s := Home(steps[..|steps| - 1], x), steps[|steps| - 1];
      if h in s.members then s.batch else h
  }

  /** The class function of a whole run of contractions. */
  ghost function ToHome<V>(steps: seq<Contraction<V>>): V -> V {
    x => Home(steps, x)
  }

  /** All at once or one by one: the result is the quotient by the final homes. */
  lemma {:induction false} ContractedIsQuotient<V>(steps: seq<Contraction<V>>, N: set<V>, E: set<(V, V)>)
    requires Acyclic(E)
    ensures Contracted(steps, N, E).1 == Quotient(E, ToHome(steps))
  {
    if steps == [] {
      forall e | e in E ensures e in Quotient(E, ToHome(steps)) {
        NoSelfLoop(E, e.0);
        assert e == (e.0, e.1);
        InQuotient(E, ToHome(steps), e);
      }
      forall q | q in Quotient(E, ToHome(steps)) ensures q in E {
        var e := QuotientEdge(E, ToHome(steps), q);
      }
    } else {
      var front, s := steps[..|steps| - 1], steps[|steps| - 1];
      ContractedIsQuotient(front, N, E);
      HomeCompose(E, steps);
    }
  }

  lemma HomeCompose<V>(E: set<(V, V)>, steps: seq<Contraction<V>>)
    requires steps != []
    ensures var front, s := steps[..|steps| - 1], steps[|steps| - 1];
            Quotient(Quotient(E, ToHome(front)), Into(s.members, s.batch)) == Quotient(E, ToHome(steps))
  {
    var front, s := steps[..|steps| - 1], steps[|steps| - 1];
    QuotientCompose(E, ToHome(front), Into(s.members, s.batch), ToHome(steps));
  }

  /** Step `j` contracts the class `reps[j]` of `c`, each into a node of its own. */
  ghost predicate ByClass<V, W>(steps: seq<Contraction<V>>, N: set<V>, c: V -> W, reps: seq<W>) {
    && |steps| == |reps| && NoDup(reps)
    && (forall j :: 0 <= j < |steps| ==> steps[j].batch !in N && steps[j].members == set x | x in N && c(x) == reps[j])
    && (forall i, j :: 0 <= i < j < |steps| ==> steps[i].batch != steps[j].batch)
  }

  lemma ByClassFront<V, W>(steps: seq<Contraction<V>>, N: set<V>, c: V -> W, reps: seq<W>)
    requires ByClass(steps, N, c, reps) && steps != []
    ensures ByClass(steps[..|steps| - 1], N, c, reps[..|steps| - 1])
  {
  }

  lemma {:induction false} HomeByClass<V, W>(steps: seq<Contraction<V>>, N: set<V>, c: V -> W, reps: seq<W>, x: V)
    requires ByClass(steps, N, c, reps) && x in N
    ensures forall j :: 0 <= j < |steps| && c(x) == reps[j] ==> Home(steps, x) == steps[j].batch
    ensures c(x) !in reps ==> Home(steps, x) == x
  {
    if steps != [] {
      var n := |steps| - 1;
      var front := steps[..n];
      ByClassFront(steps, N, c, reps);
      HomeByClass(front, N, c, reps[..n], x);
      forall j | 0 <= j < |steps| && c(x) == reps[j] ensures Home(steps, x) == steps[j].batch {
        if j < n {
          assert reps[..n][j] == c(x) && Home(front, x) == front[j].batch;
        } else {
          assert c(x) !in reps[..n];
        }
      }
      if c(x) !in reps {
        assert c(x) !in reps[..n] && c(x) != reps[n];
      }
    }
  }

  lemma {:induction false} NodesByClass<V, W>(steps: seq<Contraction<V>>, N: set<V>, E: set<(V, V)>, c: V -> W,
      reps: seq<W>, x: V)
    requires ByClass(steps, N, c, reps)
    ensures x in Contracted(steps, N, E).0 <==>
      (x in N && c(x) !in reps) || exists j :: 0 <= j < |steps| && steps[j].batch == x
  {
    if steps != [] {
      var n := |steps| - 1;
      ByClassFront(steps, N, c, reps);
      NodesByClass(steps[..n], N, E, c, reps[..n], x);
      assert reps == reps[..n] + [reps[n]];
      if x == steps[n].batch {
      } else if exists j :: 0 <= j < |steps| && steps[j].batch == x {
        var j :| 0 <= j < |steps| && steps[j].batch == x;
        assert steps[..n][j].batch == x;
      }
    }
  }

  lemma HomeDissolves<V, W>(steps: seq<Contraction<V>>, N: set<V>, c: V -> W, reps: seq<W>)
    requires ByClass(steps, N, c, reps)
    ensures Dissolves(N, c, Elems(reps), ToHome(steps))
  {
    forall x, y | x in N && y in N
      ensures Home(steps, x) == Home(steps, y) <==> x == y || (c(x) == c(y) && c(x) in Elems(reps))
    {
      HomeByClass(steps, N, c, reps, x);
      HomeByClass(steps, N, c, reps, y);
      if c(x) in reps {
        var i := IndexOf(reps, c(x));
        if c(y) in reps {
          var j := IndexOf(reps, c(y));
        }
      } else if c(y) in reps {
        var j := IndexOf(reps, c(y));
      }
    }
  }

  /** Contracting some classes of an acyclic quotient, in any order, closes no cycle on the way. */
  lemma {:induction false} ByClassSensible<V, W>(steps: seq<Contraction<V>>, N: set<V>, E: set<(V, V)>, c: V -> W,
      reps: seq<W>)
    requires ByClass(steps, N, c, reps) && (forall e :: e in E ==> e.0 in N && e.1 in N)
    requires Acyclic(E) && Acyclic(Quotient(E, c))
    ensures Sensible(steps, N, E) && Acyclic(Contracted(steps, N, E).1)
  {
    ContractedIsQuotient(steps, N, E);
    HomeDissolves(steps, N, c, reps);
    DissolveAcyclic(N, E, c, Elems(reps), ToHome(steps));
    if steps != [] {
      var n := |steps| - 1;
      ByClassFront(steps, N, c, reps);
      ByClassSensible(steps[..n], N, E, c, reps[..n]);
      var r := Contracted(steps[..n], N, E);
      NodesByClass(steps[..n], N, E, c, reps[..n], steps[n].batch);
      forall x | x in steps[n].members ensures x in r.0 {
        NodesByClass(steps[..n], N, E, c, reps[..n], x);
      }
    }
  }

  /** A class no step has contracted yet still has all its inner edges, and no others. */
  lemma UntouchedInside<V, W>(steps: seq<Contraction<V>>, N: set<V>, E: set<(V, V)>, c: V -> W, reps: seq<W>, w: W,
                              S: set<V>)
    requires ByClass(steps, N, c, reps) && (forall e :: e in E ==> e.0 in N && e.1 in N) && Acyclic(E)
    requires w !in reps && S == set x | x in N && c(x) == w
    ensures Inside(Contracted(steps, N, E).1, S) == Inside(E, S)
  {
    var h := ToHome(steps);
    ContractedIsQuotient(steps, N, E);
    forall x | x in N
      ensures h(x) in S <==> x in S ensures x in S ==> h(x) == x
    {
      HomeByClass(steps, N, c, reps, x);
      if c(x) in reps {
        var j := IndexOf(reps, c(x));
      }
    }
    forall q | q in Inside(Quotient(E, h), S) ensures q in Inside(E, S) {
      var e := QuotientEdge(E, h, q);
      assert e == q;
    }
    forall e | e in Inside(E, S) ensures e in Inside(Quotient(E, h), S) {
      NoSelfLoop(E, e.0);
      assert e == (e.0, e.1);
      InQuotient(E, h, e);
    }
  }

  // ------------------------------------------------------------ nested order

  /** `u` comes before `v` once batches are expanded: their top-level nodes are ordered, or one batch holds
      both and its inside orders them. */
  ghost predicate NestedBefore<V>(steps: seq<Contraction<V>>, N: set<V>, E: set<(V, V)>, u: V, v: V) {
    if Home(steps, u) != Home(steps, v) then Before(Contracted(steps, N, E).1, Home(steps, u), Home(steps, v))
    else exists s :: s in steps && u in s.members && v in s.members && Before(Inside(E, s.members), u, v)
  }

  lemma {:induction false} InnerSteps<V, W>(E: set<(V, V)>, h: V -> W, S: set<V>, k: nat, u: V, v: V)
    requires forall e :: e in E && e.0 in S && h(e.0) == h(e.1) ==> e.1 in S
    requires u in S && Steps(Inner(E, h), k, u, v)
    ensures Reach(Inside(E, S), u, v)
  {
    if k == 0 {
      ReachSelf(Inside(E, S), u);
    } else {
      var e :| e in Inner(E, h) && e.0 == u && Steps(Inner(E, h), k - 1, e.1, v);
      InnerSteps(E, h, S, k - 1, e.1, v);
      ReachEdge(Inside(E, S), e.0, e.1);
      ReachTrans(Inside(E, S), u, e.1, v);
    }
  }

  /** Whatever was ordered before the contractions is ordered after them, batches expanded. */
  lemma ByClassNested<V, W>(steps: seq<Contraction<V>>, N: set<V>, E: set<(V, V)>, c: V -> W, reps: seq<W>, u: V, v: V)
    requires ByClass(steps, N, c, reps) && (forall e :: e in E ==> e.0 in N && e.1 in N)
    requires Acyclic(E) && Acyclic(Contracted(steps, N, E).1) && Before(E, u, v)
    ensures NestedBefore(steps, N, E, u, v)
  {
    var h := ToHome(steps);
    ContractedIsQuotient(steps, N, E);
    NestedOrder(E, h, u, v);
    AcyclicStrict(E, u, v);
    if h(u) == h(v) {
      var last := BeforeLast(E, u, v);
      assert u in N && v in N;
      HomeDissolves(steps, N, c, reps);
      HomeByClass(steps, N, c, reps, u);
      var j := IndexOf(reps, c(u));
      var S := steps[j].members;
      assert steps[j] in steps && u in S && v in S;
      forall e | e in E && e.0 in S && h(e.0) == h(e.1) ensures e.1 in S {
        assert h(e.0) == h(e.1) <==> e.0 == e.1 || (c(e.0) == c(e.1) && c(e.0) in Elems(reps));
      }
      ReachCases(Inner(E, h), u, v);
      var k: nat :| Steps(Inner(E, h), k, u, v);
      InnerSteps(E, h, S, k, u, v);
      ReachCases(Inside(E, S), u, v);
    }
  }
}
