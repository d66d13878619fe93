/** Linear chains in a DAG and what contracting one into a fresh node does to the order. */
module Chains {
  import opened Digraphs
  import opened Plans
  import opened Quotients

  ghost predicate IsChain<V>(E: set<(V, V)>, c: seq<V>) {
    && c != [] && NoDup(c)
    && forall k :: 0 <= k < |c| - 1 ==> Series(E, c[k], c[k + 1])
  }

  /** The edges after the chain's boundary has moved onto `b`. */
  ghost function Rewired<V>(E: set<(V, V)>, c: seq<V>, b: V): set<(V, V)> {
    (set e | e in E && e.0 !in c && e.1 !in c) +
    (set e | e in E && e.0 !in c && e.1 == First(c, b) :: (e.0, b)) +
    (set e | e in E && e.0 == Last(c, b) && e.1 !in c :: (b, e.1))
  }

  ghost function First<V>(c: seq<V>, b: V): V {
    if c == [] then b else c[0]
  }

  ghost function Last<V>(c: seq<V>, b: V): V {
    if c == [] then b else c[|c| - 1]
  }

  lemma SeriesEdge<V>(E: set<(V, V)>, u: V, v: V)
    requires Series(E, u, v)
    ensures (u, v) in E
    ensures forall e :: e in E && e.0 == u ==> e.1 == v
    ensures forall e :: e in E && e.1 == v ==> e.0 == u
  {
    assert v in Targets(E, u);
    NotAnEdge(E, u, v);
    forall e | e in E && e.0 == u ensures e.1 == v { assert e.1 in Targets(E, u); }
    forall e | e in E && e.1 == v ensures e.0 == u { assert e.0 in Sources(E, v); }
  }

  /** The chain is entered at its head and left at its tail only. */
  lemma ChainBoundary<V>(E: set<(V, V)>, c: seq<V>, e: (V, V))
    requires IsChain(E, c) && e in E
    ensures e.0 !in c && e.1 in c ==> e.1 == c[0]
    ensures e.0 in c && e.1 !in c ==> e.0 == c[|c| - 1]
    ensures e.0 in c && e.1 in c && e.1 != c[0] ==> exists k :: 0 <= k < |c| - 1 && e == (c[k], c[k + 1])
  {
    if e.1 in c && e.1 != c[0] {
      var k := IndexOf(c, e.1);
      assert Series(E, c[k - 1], c[k - 1 + 1]);
      SeriesEdge(E, c[k - 1], c[k]);
      assert e == (c[k - 1], c[k - 1 + 1]);
    }
    if e.0 in c && e.0 != c[|c| - 1] {
      var k := IndexOf(c, e.0);
      assert Series(E, c[k], c[k + 1]);
      SeriesEdge(E, c[k], c[k + 1]);
      assert c[k + 1] in c;
    }
  }

  /** Along the chain the order is the order of positions. */
  lemma {:induction false} ChainReach<V>(E: set<(V, V)>, c: seq<V>, i: nat, j: nat)
    requires IsChain(E, c) && i <= j < |c|
    ensures Reach(E, c[i], c[j])
    decreases j - i
  {
    if i == j {
      ReachSelf(E, c[i]);
    } else {
      assert Series(E, c[i], c[i + 1]);
      SeriesEdge(E, c[i], c[i + 1]);
      ReachEdge(E, c[i], c[i + 1]);
      ChainReach(E, c, i + 1, j);
      ReachTrans(E, c[i], c[i + 1], c[j]);
    }
  }

  lemma ChainOrder<V>(E: set<(V, V)>, c: seq<V>, i: nat, j: nat)
    requires Acyclic(E) && IsChain(E, c) && i < |c| && j < |c|
    ensures Before(E, c[i], c[j]) <==> i < j
  {
    if i < j {
      ChainReach(E, c, i, j);
      ReachCases(E, c[i], c[j]);
    }
    if j <= i {
      ChainReach(E, c, j, i);
      if Before(E, c[i], c[j]) {
        AcyclicStrict(E, c[i], c[j]);
      }
    }
  }

  /** Where an edge of the contracted graph starts and ends in the original one. */
  ghost function Out<V>(c: seq<V>, b: V, x: V): V {
    if x == b then Last(c, b) else x
  }

  ghost function In<V>(c: seq<V>, b: V, x: V): V {
    if x == b then First(c, b) else x
  }

  lemma RewiredEdge<V>(E: set<(V, V)>, c: seq<V>, b: V, q: (V, V))
    requires Acyclic(E) && IsChain(E, c) && (forall e :: e in E ==> e.0 != b && e.1 != b) && b !in c
    ensures q in Rewired(E, c, b) <==>
            (Out(c, b, q.0), In(c, b, q.1)) in E && q.0 !in c && q.1 !in c && !(q.0 == b && q.1 == b)
  {
    var e := (Out(c, b, q.0), In(c, b, q.1));
    if e in E && q.0 !in c && q.1 !in c && !(q.0 == b && q.1 == b) {
      assert e.0 !in c || e.1 !in c;
    }
    assert q == (q.0, q.1);
  }

  lemma InReachesOut<V>(E: set<(V, V)>, c: seq<V>, b: V, x: V)
    requires IsChain(E, c)
    ensures Reach(E, In(c, b, x), Out(c, b, x))
  {
    ReachSelf(E, x);
    ChainReach(E, c, 0, |c| - 1);
  }

  lemma {:induction false} RewiredSteps<V>(E: set<(V, V)>, c: seq<V>, b: V, k: nat, x: V, y: V)
    requires Acyclic(E) && IsChain(E, c) && (forall e :: e in E ==> e.0 != b && e.1 != b) && b !in c
    requires k > 0 && Steps(Rewired(E, c, b), k, x, y)
    ensures Before(E, Out(c, b, x), In(c, b, y))
  {
    var R := Rewired(E, c, b);
    var q :| q in R && q.0 == x && Steps(R, k - 1, q.1, y);
    RewiredEdge(E, c, b, q);
    var o, i := Out(c, b, x), In(c, b, q.1);
    ReachEdge(E, o, i);
    if k > 1 {
      RewiredSteps(E, c, b, k - 1, q.1, y);
      InReachesOut(E, c, b, q.1);
      BeforeTrans(E, i, Out(c, b, q.1), In(c, b, y));
      BeforeTrans(E, o, i, In(c, b, y)) by { ReachCases(E, o, i); }
    }
  }

  lemma RewiredBefore<V>(E: set<(V, V)>, c: seq<V>, b: V, x: V, y: V)
    requires Acyclic(E) && IsChain(E, c) && (forall e :: e in E ==> e.0 != b && e.1 != b) && b !in c
    requires Before(Rewired(E, c, b), x, y)
    ensures Before(E, Out(c, b, x), In(c, b, y))
  {
    var R := Rewired(E, c, b);
    var q :| q in R && q.0 == x && Reach(R, q.1, y);
    var k: nat :| Steps(R, k, q.1, y);
    assert Steps(R, k + 1, x, y);
    RewiredSteps(E, c, b, k + 1, x, y);
  }

  lemma RewiredAcyclic<V>(E: set<(V, V)>, c: seq<V>, b: V)
    requires Acyclic(E) && IsChain(E, c) && (forall e :: e in E ==> e.0 != b && e.1 != b) && b !in c
    ensures Acyclic(Rewired(E, c, b))
  {
    var R := Rewired(E, c, b);
    forall q | q in R ensures !Reach(R, q.1, q.0) {
      if Reach(R, q.1, q.0) {
        assert Before(R, q.0, q.0);
        RewiredBefore(E, c, b, q.0, q.0);
        InReachesOut(E, c, b, q.0);
        AcyclicStrict(E, Out(c, b, q.0), In(c, b, q.0));
      }
    }
  }

  /** Moving the boundary is contracting the graph by the chain. */
  lemma RewiredIsQuotient<V>(E: set<(V, V)>, c: seq<V>, b: V)
    requires Acyclic(E) && IsChain(E, c) && (forall e :: e in E ==> e.0 != b && e.1 != b) && b !in c
    ensures Rewired(E, c, b) == Quotient(E, Into(Elems(c), b))
  {
    var f := Into(Elems(c), b);
    forall q | q in Quotient(E, f) ensures q in Rewired(E, c, b) {
      var e := QuotientEdge(E, f, q);
      ChainBoundary(E, c, e);
      RewiredEdge(E, c, b, q);
      assert e == (e.0, e.1);
    }
    forall q | q in Rewired(E, c, b) ensures q in Quotient(E, f) {
      RewiredEdge(E, c, b, q);
      var e := (Out(c, b, q.0), In(c, b, q.1));
      NoSelfLoop(E, q.0);
      InQuotient(E, f, e);
    }
  }

  /** The contracted chain stands in the graph's order exactly where its members did:
      nested order (first by top-level node, then inside the batch) is the original order. */
  lemma ChainNestedOrder<V>(E: set<(V, V)>, c: seq<V>, b: V, u: V, v: V)
    requires Acyclic(E) && IsChain(E, c) && (forall e :: e in E ==> e.0 != b && e.1 != b) && b !in c && u != b && v != b
    ensures var f := Into(Elems(c), b);
            Before(E, u, v) <==>
            if u in c && v in c then IndexOf(c, u) < IndexOf(c, v) else Before(Rewired(E, c, b), f(u), f(v))
  {
    var f := Into(Elems(c), b);
    if u in c && v in c {
      ChainOrder(E, c, IndexOf(c, u), IndexOf(c, v));
    } else {
      RewiredIsQuotient(E, c, b);
      RewiredAcyclic(E, c, b);
      if Before(E, u, v) {
        NestedOrder(E, f, u, v);
      }
      if Before(Rewired(E, c, b), f(u), f(v)) {
        RewiredBefore(E, c, b, f(u), f(v));
        var o, i := Out(c, b, f(u)), In(c, b, f(v));
        if u in c {
          ChainReach(E, c, IndexOf(c, u), |c| - 1);
        } else {
          ReachSelf(E, u);
        }
        if v in c {
          ChainReach(E, c, 0, IndexOf(c, v));
        } else {
          ReachSelf(E, v);
        }
        BeforeTrans(E, o, i, v);
        BeforeTrans(E, u, o, v);
      }
    }
  }

  /** The neighbours of the nodes left at the top level. */
  lemma RewiredNeighbours<V>(E: set<(V, V)>, c: seq<V>, b: V, x: V)
    requires Acyclic(E) && IsChain(E, c) && (forall e :: e in E ==> e.0 != b && e.1 != b) && b !in c
    requires x !in c
    ensures var R, h, t := Rewired(E, c, b), c[0], c[|c| - 1];
            && Targets(R, x) == (if x == b then Targets(E, t)
                                 else if h in Targets(E, x) then Targets(E, x) - {h} + {b} else Targets(E, x))
            && Sources(R, x) == (if x == b then Sources(E, h)
                                 else if t in Sources(E, x) then Sources(E, x) - {t} + {b} else Sources(E, x))
  {
    var R, h, t := Rewired(E, c, b), c[0], c[|c| - 1];
    InReachesOut(E, c, b, b);
    forall y ensures y in Targets(R, x) <==>
      y in if x == b then Targets(E, t) else if h in Targets(E, x) then Targets(E, x) - {h} + {b} else Targets(E, x)
    {
      RewiredEdge(E, c, b, (x, y));
      NotAnEdge(R, x, y);
      NotAnEdge(E, Out(c, b, x), In(c, b, y));
      NotAnEdge(E, Out(c, b, x), y);
      if (Out(c, b, x), y) in E {
        ChainBoundary(E, c, (Out(c, b, x), y));
        LeavesChain(E, c, y);
      }
    }
    forall y ensures y in Sources(R, x) <==>
      y in if x == b then Sources(E, h) else if t in Sources(E, x) then Sources(E, x) - {t} + {b} else Sources(E, x)
    {
      RewiredEdge(E, c, b, (y, x));
      NotAnEdge(R, y, x);
      NotAnEdge(E, Out(c, b, y), In(c, b, x));
      NotAnEdge(E, y, In(c, b, x));
      if (y, In(c, b, x)) in E {
        ChainBoundary(E, c, (y, In(c, b, x)));
        EntersChain(E, c, y);
      }
    }
  }

  /** The tail has no successor in the chain, the head no predecessor. */
  lemma LeavesChain<V>(E: set<(V, V)>, c: seq<V>, y: V)
    requires Acyclic(E) && IsChain(E, c)
    ensures (c[|c| - 1], y) in E ==> y !in c
  {
    if (c[|c| - 1], y) in E && y in c {
      ReachEdge(E, c[|c| - 1], y);
      ChainOrder(E, c, |c| - 1, IndexOf(c, y));
    }
  }

  lemma EntersChain<V>(E: set<(V, V)>, c: seq<V>, y: V)
    requires Acyclic(E) && IsChain(E, c)
    ensures (y, c[0]) in E ==> y !in c
  {
    if (y, c[0]) in E && y in c {
      ReachEdge(E, y, c[0]);
      ChainOrder(E, c, IndexOf(c, y), 0);
    }
  }

  lemma RewiredCoherent<V>(N: set<V>, E: set<(V, V)>, s: V, t: V, c: seq<V>, b: V)
    requires Coherent(N, E, s, t) && IsChain(E, c) && Elems(c) <= N - {s, t} && b !in N
    ensures Coherent(N - Elems(c) + {b}, Rewired(E, c, b), s, t)
  {
    var M, R := N - Elems(c) + {b}, Rewired(E, c, b);
    assert c[0] in Elems(c) && c[|c| - 1] in Elems(c) && b !in Elems(c);
    RewiredAcyclic(E, c, b);
    forall q | q in R ensures q.0 in M && q.1 in M {
      RewiredEdge(E, c, b, q);
    }
    forall x | x in M ensures (Targets(R, x) == {} <==> x == t) && (Sources(R, x) == {} <==> x == s) {
      assert x !in Elems(c);
      RewiredNeighbours(E, c, b, x);
    }
  }

  /** A chain of at least two nodes is a graph of its own between its head and its tail. */
  lemma ChainInside<V>(E: set<(V, V)>, c: seq<V>, k: nat)
    requires Acyclic(E) && IsChain(E, c) && k < |c|
    ensures Targets(Inside(E, Elems(c)), c[k]) == if k == |c| - 1 then {} else {c[k + 1]}
    ensures Sources(Inside(E, Elems(c)), c[k]) == if k == 0 then {} else {c[k - 1]}
  {
    var F := Inside(E, Elems(c));
    if k < |c| - 1 {
      assert Series(E, c[k], c[k + 1]);
      SeriesEdge(E, c[k], c[k + 1]);
      assert (c[k], c[k + 1]) in F;
    } else {
      forall y ensures y !in Targets(F, c[k]) {
        NotAnEdge(F, c[k], y);
        LeavesChain(E, c, y);
      }
    }
    if k > 0 {
      assert Series(E, c[k - 1], c[k - 1 + 1]);
      SeriesEdge(E, c[k - 1], c[k]);
      assert (c[k - 1], c[k]) in F;
    } else {
      forall y ensures y !in Sources(F, c[k]) {
        NotAnEdge(F, y, c[k]);
        EntersChain(E, c, y);
      }
    }
  }

  lemma ChainCoherent<V>(E: set<(V, V)>, c: seq<V>)
    requires Acyclic(E) && IsChain(E, c) && |c| >= 2
    ensures Coherent(Elems(c), Inside(E, Elems(c)), c[0], c[|c| - 1])
  {
    AcyclicSubset(Inside(E, Elems(c)), E);
    forall x | x in Elems(c)
      ensures Targets(Inside(E, Elems(c)), x) == {} <==> x == c[|c| - 1]
      ensures Sources(Inside(E, Elems(c)), x) == {} <==> x == c[0]
    {
      ChainInside(E, c, IndexOf(c, x));
    }
  }

  /** Contracting a chain makes and breaks no series among the nodes it leaves alone. */
  lemma SeriesKept<V>(E: set<(V, V)>, c: seq<V>, b: V, u: V, v: V)
    requires Acyclic(E) && IsChain(E, c) && (forall e :: e in E ==> e.0 != b && e.1 != b) && b !in c
    requires u !in c && v !in c && u != b && v != b
    ensures Series(Rewired(E, c, b), u, v) <==> Series(E, u, v)
  {
    RewiredNeighbours(E, c, b, u);
    RewiredNeighbours(E, c, b, v);
    assert b !in Targets(E, u) && b !in Sources(E, v) by {
      NotAnEdge(E, u, b);
      NotAnEdge(E, b, v);
    }
    if Series(Rewired(E, c, b), u, v) {
      assert b in {v} <==> b == v;
    }
    assert c[0] in c && c[|c| - 1] in c;
  }
}
