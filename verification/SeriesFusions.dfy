/** Fusing chains of keyed nodes into their heads: what one scan in a parent-first order fuses, and what it keeps. */
module SeriesFusions {
  import opened Chains
  import opened Digraphs
  import opened Quotients
  import opened Traversals

  // ------------------------------------------------------------ one chain

  /** Every member of the chain stands for its head. */
  ghost function ToHead<V>(c: seq<V>): V -> V {
    (x: V) => if c != [] && x in c then c[0] else x
  }

  /** The graph with the chain `c` contracted into its head. */
  ghost function Shortened<V>(E: set<(V, V)>, c: seq<V>): set<(V, V)> {
    Quotient(E, ToHead(c))
  }

  /** The nodes of the chain that are absorbed. */
  ghost function Tail<V>(c: seq<V>): set<V> {
    if c == [] then {} else Elems(c[1..])
  }

  lemma TailIs<V>(c: seq<V>)
    requires NoDup(c) && c != []
    ensures Tail(c) == Elems(c) - {c[0]} && forall x :: x in Elems(c) <==> x == c[0] || x in Tail(c)
  {
    assert c == [c[0]] + c[1..];
    forall x | x in Tail(c) ensures x in Elems(c) && x != c[0] {
      var i := IndexOf(c[1..], x);
      assert c[i + 1] == x;
    }
    forall x | x in Elems(c) && x != c[0] ensures x in Tail(c) {
      var i := IndexOf(c, x);
      assert c[1..][i - 1] == x;
    }
  }

  lemma ShortenedEdge<V>(E: set<(V, V)>, c: seq<V>, x: V, y: V)
    requires Acyclic(E) && IsChain(E, c)
    ensures (x, y) in Shortened(E, c) <==> x !in Tail(c) && y !in Tail(c) && (Out(c, c[0], x), y) in E
  {
    var f, h := ToHead(c), c[0];
    TailIs(c);
    assert h in Elems(c) && c[|c| - 1] in Elems(c);
    if (x, y) in Shortened(E, c) {
      var e := QuotientEdge(E, f, (x, y));
      ChainBoundary(E, c, e);
      assert e == (e.0, e.1);
    }
    if x !in Tail(c) && y !in Tail(c) && (Out(c, h, x), y) in E {
      var e := (Out(c, h, x), y);
      LeavesChain(E, c, y);
      NoSelfLoop(E, x);
      InQuotient(E, f, e);
    }
  }

  /** The neighbours of the nodes that are left. */
  lemma ShortenedNeighbours<V>(E: set<(V, V)>, c: seq<V>, x: V)
    requires Acyclic(E) && IsChain(E, c) && x !in Tail(c)
    ensures Targets(Shortened(E, c), x) == Targets(E, Out(c, c[0], x))
    ensures Sources(Shortened(E, c), x)
         == if c[|c| - 1] in Sources(E, x) then Sources(E, x) - {c[|c| - 1]} + {c[0]} else Sources(E, x)
  {
    var S, h, t := Shortened(E, c), c[0], c[|c| - 1];
    TailIs(c);
    assert h in Elems(c) && t in Elems(c);
    forall y ensures y in Targets(S, x) <==> y in Targets(E, Out(c, h, x)) {
      ShortenedEdge(E, c, x, y);
      NotAnEdge(S, x, y);
      NotAnEdge(E, Out(c, h, x), y);
      LeavesChain(E, c, y);
      if (x, y) in E { ChainBoundary(E, c, (x, y)); }
    }
    forall y ensures y in Sources(S, x) <==> y in if t in Sources(E, x) then Sources(E, x) - {t} + {h} else Sources(E,
        x) {
      ShortenedEdge(E, c, y, x);
      NotAnEdge(S, y, x);
      NotAnEdge(E, y, x);
      NotAnEdge(E, t, x);
      LeavesChain(E, c, x);
      if (y, x) in E {
        ChainBoundary(E, c, (y, x));
        EntersChain(E, c, y);
      }
    }
  }

  /** Every edge that is left is a path of the graph. */
  lemma ShortenedPath<V>(E: set<(V, V)>, c: seq<V>, q: (V, V))
    requires Acyclic(E) && IsChain(E, c) && q in Shortened(E, c)
    ensures Before(E, q.0, q.1)
  {
    assert q == (q.0, q.1);
    ShortenedEdge(E, c, q.0, q.1);
    InReachesOut(E, c, c[0], q.0);
    assert (Out(c, c[0], q.0), q.1).0 == Out(c, c[0], q.0);
    ReachSelf(E, q.1);
    BeforeTrans(E, q.0, Out(c, c[0], q.0), q.1);
  }

  lemma {:induction false} PathSteps<V>(S: set<(V, V)>, E: set<(V, V)>, k: nat, x: V, y: V)
    requires k > 0 && Steps(S, k, x, y) && forall q :: q in S ==> Before(E, q.0, q.1)
    ensures Before(E, x, y)
  {
    var q :| q in S && q.0 == x && Steps(S, k - 1, q.1, y);
    if k > 1 {
      PathSteps(S, E, k - 1, q.1, y);
      ReachCases(E, q.1, y);
      BeforeTrans(E, x, q.1, y);
    }
  }

  /** The order of the nodes that are left is the order they had, both ways. */
  lemma ShortenedOrder<V>(E: set<(V, V)>, c: seq<V>, x: V, y: V)
    requires Acyclic(E) && IsChain(E, c) && x !in Tail(c) && y !in Tail(c)
    ensures Before(Shortened(E, c), x, y) <==> Before(E, x, y)
  {
    var S := Shortened(E, c);
    TailIs(c);
    if Before(S, x, y) {
      var q :| q in S && q.0 == x && Reach(S, q.1, y);
      var k: nat :| Steps(S, k, q.1, y);
      assert Steps(S, k + 1, x, y);
      forall p | p in S ensures Before(E, p.0, p.1) { ShortenedPath(E, c, p); }
      PathSteps(S, E, k + 1, x, y);
    }
    if Before(E, x, y) {
      ReachCases(E, x, y);
      AcyclicStrict(E, x, y);
      QuotientReach(E, ToHead(c), x, y);
      assert ToHead(c)(x) == x && ToHead(c)(y) == y;
      ReachCases(S, x, y);
    }
  }

  lemma ShortenedAcyclic<V>(E: set<(V, V)>, c: seq<V>)
    requires Acyclic(E) && IsChain(E, c)
    ensures Acyclic(Shortened(E, c))
  {
    var S := Shortened(E, c);
    forall q | q in S ensures !Reach(S, q.1, q.0) {
      if Reach(S, q.1, q.0) {
        assert q == (q.0, q.1);
        ShortenedEdge(E, c, q.0, q.1);
        ShortenedOrder(E, c, q.0, q.0);
        assert Before(S, q.0, q.0);
        AcyclicStrict(E, q.0, q.0);
      }
    }
  }

  /** Contracting a chain away from the entry and the exit keeps them the only source and sink. */
  lemma ShortenedCoherent<V>(N: set<V>, E: set<(V, V)>, s: V, t: V, c: seq<V>)
    requires Coherent(N, E, s, t) && IsChain(E, c) && Elems(c) <= N - {s, t}
    ensures Coherent(N - Tail(c), Shortened(E, c), s, t)
  {
    var M, S := N - Tail(c), Shortened(E, c);
    TailIs(c);
    assert c[0] in Elems(c) && c[|c| - 1] in Elems(c);
    ShortenedAcyclic(E, c);
    forall q | q in S ensures q.0 in M && q.1 in M {
      assert q == (q.0, q.1);
      ShortenedEdge(E, c, q.0, q.1);
      assert (Out(c, c[0], q.0), q.1).1 in N && (Out(c, c[0], q.0), q.1).0 in N;
    }
    forall x | x in M ensures (Targets(S, x) == {} <==> x == t) && (Sources(S, x) == {} <==> x == s) {
      ShortenedNeighbours(E, c, x);
    }
  }

  /** After part of a chain is absorbed, its head and the next member are a series; absorbing that one too
      is contracting the longer chain. */
  lemma ShortenedStep<V>(E: set<(V, V)>, c: seq<V>, v: V)
    requires Acyclic(E) && IsChain(E, c) && IsChain(E, c + [v])
    ensures IsChain(Shortened(E, c), [c[0], v]) && Shortened(Shortened(E, c), [c[0], v]) == Shortened(E, c + [v])
    ensures Tail(c + [v]) == Tail(c) + {v} && v !in Tail(c) && v != c[0]
  {
    var d := c + [v];
    assert d[1..] == c[1..] + [v] && d[|c|] == v;
    forall k | 0 <= k < |c| ensures c[k] != v { assert d[k] == c[k]; }
    assert v !in c;
    assert Series(E, d[|c| - 1], d[|c| - 1 + 1]);
    SeriesEdge(E, c[|c| - 1], v);
    TailIs(c);
    ShortenedNeighbours(E, c, c[0]);
    ShortenedNeighbours(E, c, v);
    QuotientCompose(E, ToHead(c), ToHead([c[0], v]), ToHead(d));
  }

  lemma OneIsChain<V>(E: set<(V, V)>, h: V)
    requires Acyclic(E)
    ensures IsChain(E, [h]) && Shortened(E, [h]) == E && Tail([h]) == {}
  {
    forall q ensures q in Shortened(E, [h]) <==> q in E {
      assert q == (q.0, q.1);
      ShortenedEdge(E, [h], q.0, q.1);
    }
  }

  lemma ChainPrefix<V>(E: set<(V, V)>, c: seq<V>, k: nat)
    requires IsChain(E, c) && 0 < k < |c|
    ensures IsChain(E, c[..k]) && c[..k] + [c[k]] == c[..k + 1] && c[..k][0] == c[0] && IsChain(E, c[..k + 1])
  {
    var a, b := c[..k], c[..k + 1];
    forall j | 0 <= j < |b| - 1 ensures Series(E, b[j], b[j + 1]) {
      assert Series(E, c[j], c[j + 1]);
    }
    forall j | 0 <= j < |a| - 1 ensures Series(E, a[j], a[j + 1]) {
      assert Series(E, c[j], c[j + 1]);
    }
  }

  // ------------------------------------------------------------ running a contracted chain

  /** The list with the chain in the place of its head. */
  ghost function Expand<V>(x: seq<V>, c: seq<V>): seq<V> {
    if c != [] && c[0] in x then x[..IndexOf(x, c[0])] + c + x[IndexOf(x, c[0]) + 1..] else x
  }

  lemma InElems<V>(s: seq<V>, x: V)
    ensures x in s <==> x in Elems(s)
  {
  }

  lemma ExpandParts<V>(x: seq<V>, c: seq<V>, M: set<V>)
    requires c != [] && NoDup(c) && NoDup(x) && Elems(x) == M && c[0] in M && M !! Tail(c)
    ensures NoDup(Expand(x, c)) && Elems(Expand(x, c)) == M + Tail(c)
  {
    TailIs(c);
    assert c[0] in Elems(x);
    var i := IndexOf(x, c[0]);
    var a, b := x[..i], x[i + 1..];
    assert x == a + [c[0]] + b;
    forall k | 0 <= k < |a| ensures a[k] !in c {
      assert a[k] == x[k] && x[k] in Elems(x) && x[k] != c[0];
      InElems(c, a[k]);
    }
    forall k | 0 <= k < |b| ensures b[k] !in c && b[k] !in a {
      assert b[k] == x[i + 1 + k] && b[k] in Elems(x) && b[k] != c[0];
      InElems(c, b[k]);
    }
    NoDupJoin(a, c);
    NoDupJoin(a + c, b);
  }

  lemma NoDupJoin<V>(a: seq<V>, b: seq<V>)
    requires NoDup(a) && NoDup(b) && ((forall k :: 0 <= k < |b| ==> b[k] !in a) ||
        forall k :: 0 <= k < |a| ==> a[k] !in b)
    ensures NoDup(a + b)
  {
    forall i, j | 0 <= i < j < |a + b| ensures (a + b)[i] != (a + b)[j] {
      if i < |a| <= j {
        assert (a + b)[i] in a && (a + b)[j] in b;
      }
    }
  }

  /** Where an element of the expanded list stands in the contracted one. */
  ghost function At<V>(x: seq<V>, c: seq<V>, j: nat): (k: nat)
    requires c != [] && c[0] in x && j < |Expand(x, c)|
    ensures k < |x| && var i := IndexOf(x, c[0]);
            && (j < i ==> k == j && Expand(x, c)[j] == x[k])
            && (i <= j < i + |c| ==> k == i && Expand(x, c)[j] == c[j - i])
            && (i + |c| <= j ==> k == j - |c| + 1 && Expand(x, c)[j] == x[k])
  {
    var i := IndexOf(x, c[0]);
    if j < i then j else if j < i + |c| then i else j - |c| + 1
  }

  /** Running the chain where its head ran respects every edge of the graph. */
  lemma ExpandSchedule<V>(N: set<V>, E: set<(V, V)>, c: seq<V>, x: seq<V>)
    requires Acyclic(E) && IsChain(E, c) && Elems(c) <= N && Schedule(x, N - Tail(c), Shortened(E, c))
    ensures Schedule(Expand(x, c), N, E)
  {
    TailIs(c);
    assert c[0] in Elems(c) && c[0] in Elems(x);
    ExpandParts(x, c, N - Tail(c));
    var y := Expand(x, c);
    forall i: nat, j: nat | i < |y| && j < |y| ensures (y[j], y[i]) in E ==> j < i {
      if (y[j], y[i]) in E {
        ExpandedEdge(N, E, c, x, j, i);
      }
    }
  }

  lemma ExpandedEdge<V>(N: set<V>, E: set<(V, V)>, c: seq<V>, x: seq<V>, j: nat, i: nat)
    requires Acyclic(E) && IsChain(E, c) && Elems(c) <= N && Schedule(x, N - Tail(c), Shortened(E, c)) && c[0] in x
    requires j < |Expand(x, c)| && i < |Expand(x, c)| && (Expand(x, c)[j], Expand(x, c)[i]) in E
    ensures j < i
  {
    var y, S, m := Expand(x, c), Shortened(E, c), IndexOf(x, c[0]);
    var e := (y[j], y[i]);
    var a, b := At(x, c, i), At(x, c, j);
    TailIs(c);
    ChainBoundary(E, c, e);
    EntersChain(E, c, y[j]);
    forall k | 0 <= k < |x| ensures x[k] !in Tail(c) { assert x[k] in Elems(x); }
    InsideOrOut(x, c, i);
    InsideOrOut(x, c, j);
    if y[j] in c && y[i] in c {
      var k :| 0 <= k < |c| - 1 && e == (c[k], c[k + 1]);
      assert c[j - m] == c[k] && c[i - m] == c[k + 1];
    } else {
      ShortenedEdge(E, c, x[b], y[i]);
      assert (x[b], x[a]) in S;
    }
  }

  lemma InsideOrOut<V>(x: seq<V>, c: seq<V>, j: nat)
    requires c != [] && c[0] in x && NoDup(x) && j < |Expand(x, c)| && forall k :: 0 <= k < |x| ==> x[k] !in Tail(c)
    requires NoDup(c)
    ensures Expand(x, c)[j] in c <==> IndexOf(x, c[0]) <= j < IndexOf(x, c[0]) + |c|
  {
    var k := At(x, c, j);
    TailIs(c);
    assert Expand(x, c)[j] in c <==> Expand(x, c)[j] in Elems(c);
  }

  // ------------------------------------------------------------ maximal chains of equal keys

  /** Two keyed nodes in series with the same key. */
  ghost predicate FuseLink<V, K>(E: set<(V, V)>, key: map<V, K>, u: V, v: V) {
    u in key && v in key && key[u] == key[v] && Series(E, u, v)
  }

  ghost predicate FuseChain<V, K>(E: set<(V, V)>, key: map<V, K>, c: seq<V>) {
    && c != [] && NoDup(c) && c[0] in key
    && forall k :: 0 <= k < |c| - 1 ==> FuseLink(E, key, c[k], c[k + 1])
  }

  /** A chain of two nodes or more that no link extends at either end. */
  ghost predicate MaximalFuse<V, K>(E: set<(V, V)>, key: map<V, K>, c: seq<V>) {
    && |c| >= 2 && FuseChain(E, key, c)
    && (forall w :: w in key ==> !FuseLink(E, key, w, c[0]))
    && (forall w :: w in key ==> !FuseLink(E, key, c[|c| - 1], w))
  }

  lemma {:induction false} SameKey<V, K>(E: set<(V, V)>, key: map<V, K>, c: seq<V>, k: nat)
    requires FuseChain(E, key, c) && k < |c|
    ensures c[k] in key && key[c[k]] == key[c[0]]
  {
    if k > 0 {
      SameKey(E, key, c, k - 1);
      assert FuseLink(E, key, c[k - 1], c[k - 1 + 1]);
    }
  }

  lemma FuseChainIsChain<V, K>(E: set<(V, V)>, key: map<V, K>, c: seq<V>)
    requires FuseChain(E, key, c)
    ensures IsChain(E, c) && forall x :: x in c ==> x in key && key[x] == key[c[0]]
  {
    forall k | 0 <= k < |c| - 1 ensures Series(E, c[k], c[k + 1]) {
      assert FuseLink(E, key, c[k], c[k + 1]);
    }
    forall x | x in c ensures x in key && key[x] == key[c[0]] {
      SameKey(E, key, c, IndexOf(c, x));
    }
  }

  lemma OneNeighbour<V>(E: set<(V, V)>, u: V, v: V, w: V)
    ensures Series(E, u, v) && Series(E, u, w) ==> v == w
    ensures Series(E, u, w) && Series(E, v, w) ==> u == v
  {
    if Series(E, u, v) && Series(E, u, w) { assert v in {w}; }
    if Series(E, u, w) && Series(E, v, w) { assert u in {v}; }
  }

  /** Links never lead out of a maximal chain, in either direction. */
  lemma MaximalFuseClosed<V, K>(E: set<(V, V)>, key: map<V, K>, c: seq<V>, x: V, y: V)
    requires MaximalFuse(E, key, c) && x in c
    ensures FuseLink(E, key, x, y) ==> y in Tail(c)
    ensures FuseLink(E, key, y, x) ==> y in c && x in Tail(c)
  {
    TailIs(c);
    var k := IndexOf(c, x);
    if FuseLink(E, key, x, y) {
      assert k < |c| - 1;
      assert FuseLink(E, key, c[k], c[k + 1]);
      OneNeighbour(E, x, y, c[k + 1]);
      assert c[1..][k] == y;
    }
    if FuseLink(E, key, y, x) {
      assert k > 0;
      assert FuseLink(E, key, c[k - 1], c[k - 1 + 1]);
      OneNeighbour(E, y, c[k - 1], x);
      assert c[1..][k - 1] == x;
    }
  }

  /** Fusing a maximal chain makes no link and breaks none among the nodes it leaves. */
  lemma LinksLeft<V, K>(E: set<(V, V)>, key: map<V, K>, c: seq<V>, u: V, v: V)
    requires Acyclic(E) && MaximalFuse(E, key, c) && u !in Tail(c) && v !in Tail(c)
    ensures FuseLink(Shortened(E, c), key, u, v) <==> FuseLink(E, key, u, v)
  {
    var S, h, t := Shortened(E, c), c[0], c[|c| - 1];
    FuseChainIsChain(E, key, c);
    TailIs(c);
    ShortenedNeighbours(E, c, u);
    ShortenedNeighbours(E, c, v);
    assert h in c && t in c;
    MaximalFuseClosed(E, key, c, h, v);
    if u in key && v in key && key[u] == key[v] {
      if u == h {
        if Series(S, h, v) { HeadSeries(E, c, v); }
        assert !FuseLink(E, key, t, v);
      } else if v == h {
        assert !FuseLink(E, key, u, h);
        EntersChain(E, c, t);
        NotAnEdge(E, t, h);
      } else {
        SeriesAmong(Sources(E, v), t, h, u);
      }
    }
  }

  lemma SeriesAmong<V>(S: set<V>, t: V, h: V, u: V)
    requires u != h && u != t
    ensures ((if t in S then S - {t} + {h} else S) == {u}) <==> S == {u}
  {
    if t in S { assert h in S - {t} + {h} && t !in {u}; }
  }

  lemma OnlyOne<V>(S: set<V>, t: V, h: V)
    requires t in S && h !in S && S - {t} + {h} == {h}
    ensures S == {t}
  {
    assert S - {t} == S - {t} + {h} - {h};
    assert S == {t} + (S - {t});
  }

  /** What follows the head of the contracted chain alone followed its tail alone. */
  lemma HeadSeries<V>(E: set<(V, V)>, c: seq<V>, v: V)
    requires Acyclic(E) && IsChain(E, c) && |c| >= 2 && v !in Tail(c) && Series(Shortened(E, c), c[0], v)
    ensures Series(E, c[|c| - 1], v)
  {
    var h, t := c[0], c[|c| - 1];
    TailIs(c);
    ShortenedNeighbours(E, c, h);
    ShortenedNeighbours(E, c, v);
    assert Targets(E, t) == {v};
    NotAnEdge(E, t, v);
    assert t in Sources(E, v);
    assert Series(E, c[0], c[0 + 1]);
    SeriesEdge(E, c[0], c[1]);
    assert c[1] in Tail(c) by { assert c[1..][0] == c[1]; }
    NotAnEdge(E, h, v);
    assert h !in Sources(E, v);
    OnlyOne(Sources(E, v), t, h);
  }

  // ------------------------------------------------------------ the scan

  /** The nodes that fused chains hold, and those of them that were absorbed. */
  ghost function InChains<V>(chains: seq<seq<V>>): set<V> {
    set c, x | c in chains && x in c :: x
  }

  ghost function Absorbed<V>(chains: seq<seq<V>>): set<V> {
    set c, x | c in chains && x in Tail(c) :: x
  }

  lemma ChainsSnoc<V>(chains: seq<seq<V>>, c: seq<V>)
    ensures InChains(chains + [c]) == InChains(chains) + Elems(c) &&
        Absorbed(chains + [c]) == Absorbed(chains) + Tail(c)
  {
    assert forall d :: d in chains + [c] <==> d in chains || d == c;
  }

  /** After `seen` nodes of the scan: `chains` are maximal chains of the graph `E0`, apart from each other, each
      found at its head; every link out of a node already seen lies in one of them; exactly their tails
      are gone; links and order among the nodes left are those of `E0`. */
  ghost predicate Fusing<V, K>(N0: set<V>, E0: set<(V, V)>, key: map<V, K>, seen: seq<V>, chains: seq<seq<V>>,
                               N: set<V>, E: set<(V, V)>) {
    && (forall c :: c in chains ==> MaximalFuse(E0, key, c) && c[0] in seen)
    && (forall a, b :: 0 <= a < b < |chains| ==> Elems(chains[a]) !! Elems(chains[b]))
    && (forall w, x :: w in seen && x in key && FuseLink(E0, key, w, x) ==> w in InChains(chains))
    && N == N0 - Absorbed(chains)
    && SameLinks(E0, E, key, N) && SameOrderOn(E0, E, N)
  }

  ghost predicate SameLinks<V, K>(E0: set<(V, V)>, E: set<(V, V)>, key: map<V, K>, N: set<V>) {
    forall u, v :: u in N && v in N ==> (FuseLink(E, key, u, v) <==> FuseLink(E0, key, u, v))
  }

  ghost predicate SameOrderOn<V>(E0: set<(V, V)>, E: set<(V, V)>, N: set<V>) {
    forall x, y :: x in N && y in N ==> (Before(E, x, y) <==> Before(E0, x, y))
  }

  lemma NothingFused<V, K>(N: set<V>, E: set<(V, V)>, key: map<V, K>)
    ensures Fusing(N, E, key, [], [], N, E)
  {
  }

  lemma HeadOrAbsorbed<V>(chains: seq<seq<V>>, x: V)
    requires forall c :: c in chains ==> c != [] && NoDup(c)
    ensures x in InChains(chains) ==> x in Absorbed(chains) || exists c :: c in chains && x == c[0]
  {
    if x in InChains(chains) {
      var c :| c in chains && x in c;
      TailIs(c);
      assert x in Elems(c);
    }
  }

  /** A node left by the scan and not yet seen is in no fused chain. */
  lemma Untouched<V, K>(N0: set<V>, E0: set<(V, V)>, key: map<V, K>, vec: seq<V>, i: nat, chains: seq<seq<V>>,
                        N: set<V>, E: set<(V, V)>)
    requires i < |vec| && NoDup(vec) && Fusing(N0, E0, key, vec[..i], chains, N, E) && vec[i] in N
    ensures vec[i] !in InChains(chains)
  {
    HeadOrAbsorbed(chains, vec[i]);
    forall c | c in chains ensures c[0] != vec[i] {
      var j := IndexOf(vec[..i], c[0]);
      assert vec[j] == c[0];
    }
  }

  /** A link of the original graph from a node in no fused chain stays among the nodes left. */
  lemma LinkHolds<V, K>(N0: set<V>, E0: set<(V, V)>, key: map<V, K>, seen: seq<V>, chains: seq<seq<V>>, N: set<V>,
                        E: set<(V, V)>, u: V, x: V)
    requires Fusing(N0, E0, key, seen, chains, N, E) && key.Keys <= N0 && u in N && u !in InChains(chains) &&
        FuseLink(E0, key, u, x)
    ensures x in N && x !in InChains(chains) && FuseLink(E, key, u, x)
  {
    if x in InChains(chains) {
      var d :| d in chains && x in d;
      MaximalFuseClosed(E0, key, d, x, u);
    }
    if x !in N {
      assert x in Absorbed(chains);
      var d :| d in chains && x in Tail(d);
      TailIs(d);
    }
  }

  /** ... and so does every member of a chain collected from it. */
  lemma {:induction false} CollectedApart<V, K>(N0: set<V>, E0: set<(V, V)>, key: map<V, K>, seen: seq<V>,
      chains: seq<seq<V>>, N: set<V>, E: set<(V, V)>, c: seq<V>, k: nat)
    requires Fusing(N0, E0, key, seen, chains, N, E) && key.Keys <= N0 && FuseChain(E, key, c) && Elems(c) <= N &&
        k < |c|
    requires c[0] !in InChains(chains)
    ensures c[k] !in InChains(chains) && (k > 0 ==> FuseLink(E0, key, c[k - 1], c[k]))
  {
    assert c[k] in Elems(c);
    if k > 0 {
      CollectedApart(N0, E0, key, seen, chains, N, E, c, k - 1);
      assert c[k - 1] in Elems(c) && FuseLink(E, key, c[k - 1], c[k - 1 + 1]);
      assert FuseLink(E0, key, c[k - 1], c[k]);
      LinkHolds(N0, E0, key, seen, chains, N, E, c[k - 1], c[k]);
    }
  }

  /** Every listed node follows one of its predecessors, or is preceded by a node without a key. */
  ghost predicate ParentsFirst<V, K>(E: set<(V, V)>, key: map<V, K>, s: V, vec: seq<V>) {
    s !in key && forall i: nat :: i < |vec| ==> (s, vec[i]) in E || HasParent(E, vec, i)
  }

  lemma Parent<V>(E: set<(V, V)>, s: V, vec: seq<V>, i: nat) returns (p: V)
    requires i < |vec| && ((s, vec[i]) in E || HasParent(E, vec, i))
    ensures (p, vec[i]) in E && (p == s || p in vec[..i])
  {
    if (s, vec[i]) in E {
      p := s;
    } else {
      var j :| 0 <= j < i && (vec[j], vec[i]) in E;
      p := vec[j];
      assert vec[..i][j] == p;
    }
  }

  /** A link into a node was seen before the node. */
  lemma NoLinkInto<V, K>(N0: set<V>, E0: set<(V, V)>, key: map<V, K>, s: V, vec: seq<V>, i: nat, chains: seq<seq<V>>,
                         N: set<V>, E: set<(V, V)>, w: V)
    requires i < |vec| && Fusing(N0, E0, key, vec[..i], chains, N, E) && ParentsFirst(E0, key, s, vec)
    requires vec[i] !in InChains(chains)
    ensures !FuseLink(E0, key, w, vec[i])
  {
    if FuseLink(E0, key, w, vec[i]) {
      SeriesEdge(E0, w, vec[i]);
      var p := Parent(E0, s, vec, i);
      assert (p, vec[i]).0 == w;
      var c :| c in chains && w in c;
      MaximalFuseClosed(E0, key, c, w, vec[i]);
      TailIs(c);
    }
  }

  lemma SeriesInside<V>(E: set<(V, V)>, N: set<V>, u: V, v: V)
    requires Series(E, u, v) && forall e :: e in E ==> e.0 in N && e.1 in N
    ensures u in N && v in N
  {
    SeriesEdge(E, u, v);
    assert (u, v).0 in N && (u, v).1 in N;
  }

  /** A collected chain of two nodes or more is maximal, in the graph as it is and in the original one. */
  lemma CollectedIsMaximal<V, K>(N0: set<V>, E0: set<(V, V)>, key: map<V, K>, s: V, vec: seq<V>, i: nat,
                                 chains: seq<seq<V>>, N: set<V>, E: set<(V, V)>, c: seq<V>)
    requires i < |vec| && NoDup(vec) && Fusing(N0, E0, key, vec[..i], chains, N, E) && ParentsFirst(E0, key, s, vec) &&
        key.Keys <= N0
    requires (forall e :: e in E ==> e.0 in N && e.1 in N) && vec[i] in N
    requires |c| >= 2 && c[0] == vec[i] && FuseChain(E, key, c) && Elems(c) <= N
    requires forall x :: x in key && x in N ==> !FuseLink(E, key, c[|c| - 1], x)
    ensures MaximalFuse(E0, key, c) && MaximalFuse(E, key, c) && Elems(c) !! InChains(chains)
  {
    Untouched(N0, E0, key, vec, i, chains, N, E);
    forall k: nat | k < |c| ensures c[k] !in InChains(chains) && (k > 0 ==> FuseLink(E0, key, c[k - 1], c[k])) {
      CollectedApart(N0, E0, key, vec[..i], chains, N, E, c, k);
    }
    forall k | 0 <= k < |c| - 1 ensures FuseLink(E0, key, c[k], c[k + 1]) {
      var m: nat := k + 1;
      assert FuseLink(E0, key, c[m - 1], c[m]);
    }
    var t := c[|c| - 1];
    assert t in Elems(c) && c[0] in Elems(c);
    forall x | x in key ensures !FuseLink(E0, key, t, x) && !FuseLink(E, key, t, x) {
      if FuseLink(E0, key, t, x) { LinkHolds(N0, E0, key, vec[..i], chains, N, E, t, x); }
      if FuseLink(E, key, t, x) { SeriesInside(E, N, t, x); }
    }
    forall w | w in key ensures !FuseLink(E0, key, w, c[0]) && !FuseLink(E, key, w, c[0]) {
      NoLinkInto(N0, E0, key, s, vec, i, chains, N, E, w);
      if FuseLink(E, key, w, c[0]) { SeriesInside(E, N, w, c[0]); }
    }
    forall x | x in Elems(c) ensures x !in InChains(chains) {
      var k: nat := IndexOf(c, x);
      assert c[k] !in InChains(chains);
    }
  }

  /** Fusing a collected chain. */
  lemma FusedOne<V, K>(N0: set<V>, E0: set<(V, V)>, key: map<V, K>, vec: seq<V>, i: nat, chains: seq<seq<V>>,
                       N: set<V>, E: set<(V, V)>, c: seq<V>)
    requires i < |vec| && Fusing(N0, E0, key, vec[..i], chains, N, E) && Acyclic(E)
    requires MaximalFuse(E0, key, c) && MaximalFuse(E, key, c) && Elems(c) !! InChains(chains) && c[0] == vec[i]
    ensures Fusing(N0, E0, key, vec[..i + 1], chains + [c], N - Tail(c), Shortened(E, c))
  {
    hide MaximalFuse, Acyclic, Before, FuseLink, Shortened;
    ChainsSnoc(chains, c);
    assert vec[..i + 1] == vec[..i] + [vec[i]];
    FusedLinks(E0, key, N, E, c);
    FusedOrder(E0, key, N, E, c);
    assert vec[i] in Elems(c) by { MaximalHead(E, key, c); }
    forall a, b | 0 <= a < b < |chains + [c]| ensures Elems((chains + [c])[a]) !! Elems((chains + [c])[b]) {
      if b == |chains| {
        assert chains[a] in chains;
        assert Elems(chains[a]) <= InChains(chains) by {
          forall x | x in Elems(chains[a]) ensures x in InChains(chains) {}
        }
      }
    }
  }

  lemma MaximalHead<V, K>(E: set<(V, V)>, key: map<V, K>, c: seq<V>)
    requires MaximalFuse(E, key, c)
    ensures c != [] && c[0] in Elems(c)
  {
  }

  lemma FusedLinks<V, K>(E0: set<(V, V)>, key: map<V, K>, N: set<V>, E: set<(V, V)>, c: seq<V>)
    requires SameLinks(E0, E, key, N) && Acyclic(E) && MaximalFuse(E, key, c)
    ensures SameLinks(E0, Shortened(E, c), key, N - Tail(c))
  {
    hide FuseLink, MaximalFuse, Shortened, Acyclic;
    forall u, v | u in N - Tail(c) && v in N - Tail(c)
      ensures FuseLink(Shortened(E, c), key, u, v) <==> FuseLink(E0, key, u, v)
    {
      LinksLeft(E, key, c, u, v);
    }
  }

  lemma FusedOrder<V, K>(E0: set<(V, V)>, key: map<V, K>, N: set<V>, E: set<(V, V)>, c: seq<V>)
    requires SameOrderOn(E0, E, N) && Acyclic(E) && MaximalFuse(E, key, c)
    ensures SameOrderOn(E0, Shortened(E, c), N - Tail(c))
  {
    FuseChainIsChain(E, key, c);
    hide Before, MaximalFuse, Shortened, Acyclic, FuseChain, IsChain;
    forall x, y | x in N - Tail(c) && y in N - Tail(c) ensures Before(Shortened(E, c), x, y) <==> Before(E0, x, y) {
      ShortenedOrder(E, c, x, y);
    }
  }

  /** Passing over a node that was absorbed, has no key or starts no link. */
  lemma FusedNone<V, K>(N0: set<V>, E0: set<(V, V)>, key: map<V, K>, vec: seq<V>, i: nat, chains: seq<seq<V>>,
                        N: set<V>, E: set<(V, V)>)
    requires i < |vec| && NoDup(vec) && Fusing(N0, E0, key, vec[..i], chains, N, E) && key.Keys <= N0 && vec[i] in N0
    requires vec[i] in Absorbed(chains) || vec[i] !in key || forall x :: x in key && x in N ==>
        !FuseLink(E, key, vec[i], x)
    ensures Fusing(N0, E0, key, vec[..i + 1], chains, N, E)
  {
    hide SameLinks, SameOrderOn, MaximalFuse;
    assert vec[..i + 1] == vec[..i] + [vec[i]];
    forall x | FuseLink(E0, key, vec[i], x) ensures vec[i] in InChains(chains) {
      if vec[i] in Absorbed(chains) {
        var c :| c in chains && vec[i] in Tail(c);
        TailIn(c);
      } else {
        Untouched(N0, E0, key, vec, i, chains, N, E);
        LinkHolds(N0, E0, key, vec[..i], chains, N, E, vec[i], x);
      }
    }
  }

  lemma TailIn<V>(c: seq<V>)
    ensures Tail(c) <= Elems(c)
  {
    forall x | x in Tail(c) ensures x in c {
      assert x in c[1..];
    }
  }

  /** No link leads to `t`. */
  ghost predicate LeftAlone<V, K>(E: set<(V, V)>, key: map<V, K>, t: V) {
    forall u :: u in key ==> !FuseLink(E, key, u, t)
  }

  /** A sink that no link leads to is in no maximal chain. */
  lemma SinkLeftAlone<V, K>(E: set<(V, V)>, key: map<V, K>, c: seq<V>, t: V)
    requires MaximalFuse(E, key, c) && LeftAlone(E, key, t) && Targets(E, t) == {}
    ensures t !in c
  {
    forall k | 0 <= k < |c| ensures c[k] != t {
      if k > 0 {
        assert FuseLink(E, key, c[k - 1], c[k - 1 + 1]);
      } else {
        assert FuseLink(E, key, c[0], c[0 + 1]);
        SeriesEdge(E, c[0], c[1]);
        NotAnEdge(E, c[0], c[1]);
      }
    }
  }

  /** Otherwise the chain that leads to it absorbs it. */
  lemma SinkAbsorbed<V, K>(N: set<V>, E: set<(V, V)>, key: map<V, K>, c: seq<V>, u: V, s: V, t: V)
    requires MaximalFuse(E, key, c) && u in c && FuseLink(E, key, u, t)
    ensures t in Tail(c) && !Coherent(N - Tail(c), Shortened(E, c), s, t)
  {
    MaximalFuseClosed(E, key, c, u, t);
  }

  /** What the whole scan did: exactly the maximal chains were fused, and nothing is left to fuse. */
  lemma ScanOver<V, K>(N0: set<V>, E0: set<(V, V)>, key: map<V, K>, vec: seq<V>, chains: seq<seq<V>>, N: set<V>,
                       E: set<(V, V)>)
    requires Fusing(N0, E0, key, vec, chains, N, E) && forall u, v :: FuseLink(E0, key, u, v) ==> u in Elems(vec)
    ensures forall u, v :: FuseLink(E0, key, u, v) ==> exists c :: c in chains && u in c && v in c
    ensures forall u, v :: u in N && v in N ==> !FuseLink(E, key, u, v)
  {
    forall u, v | FuseLink(E0, key, u, v) ensures v !in N && exists c :: c in chains && u in c && v in c {
      assert u in Elems(vec);
      var c :| c in chains && u in c;
      MaximalFuseClosed(E0, key, c, u, v);
      TailIn(c);
    }
  }

  // ------------------------------------------------------------ chains in turn

  /** The edges after all the chains were contracted, one after the other. */
  ghost function ShortenedAll<V>(chains: seq<seq<V>>, E: set<(V, V)>): set<(V, V)> {
    if chains == [] then E else Shortened(ShortenedAll(chains[..|chains| - 1], E), chains[|chains| - 1])
  }

  /** Every chain, when its turn comes, is a chain of nodes still there. */
  ghost predicate InTurn<V>(chains: seq<seq<V>>, N: set<V>, E: set<(V, V)>) {
    chains != [] ==>
      var front, c := chains[..|chains| - 1], chains[|chains| - 1];
      InTurn(front, N, E) && IsChain(ShortenedAll(front, E), c) && Elems(c) <= N - Absorbed(front)
  }

  lemma {:induction false} AllAcyclic<V>(chains: seq<seq<V>>, N: set<V>, E: set<(V, V)>)
    requires Acyclic(E) && InTurn(chains, N, E)
    ensures Acyclic(ShortenedAll(chains, E))
  {
    if chains != [] {
      var front := chains[..|chains| - 1];
      AllAcyclic(front, N, E);
      ShortenedAcyclic(ShortenedAll(front, E), chains[|chains| - 1]);
    }
  }
}
