/** Finite directed graphs as sets of edges: reachability, acyclicity, topological
    orders, transitive reduction and quotients.  Nothing here reads the heap; the
    vertex type is whatever the caller numbers its nodes with. */
module Digraphs {

  /** There is a walk of exactly `k` edges from `u` to `v`. */
  ghost predicate Steps<V>(E: set<(V, V)>, k: nat, u: V, v: V) {
    if k == 0 then u == v
    else exists e :: e in E && e.0 == u && Steps(E, k - 1, e.1, v)
  }

  ghost predicate Reach<V>(E: set<(V, V)>, u: V, v: V) {
    exists k: nat :: Steps(E, k, u, v)
  }

  /** A walk of at least one edge: the strict order a DAG stands for. */
  ghost predicate Before<V>(E: set<(V, V)>, u: V, v: V) {
    exists e :: e in E && e.0 == u && Reach(E, e.1, v)
  }

  /** Every edge joins two nodes of `N`. */
  ghost predicate Within<V>(E: set<(V, V)>, N: set<V>) {
    forall e :: e in E ==> e.0 in N && e.1 in N
  }

  ghost predicate Acyclic<V>(E: set<(V, V)>) {
    forall e :: e in E ==> !Reach(E, e.1, e.0)
  }

  lemma ReachSelf<V>(E: set<(V, V)>, u: V)
    ensures Reach(E, u, u)
  {
    assert Steps(E, 0, u, u);
  }

  lemma {:induction false} StepsConcat<V>(E: set<(V, V)>, j: nat, k: nat, u: V, v: V, w: V)
    requires Steps(E, j, u, v) && Steps(E, k, v, w)
    ensures Steps(E, j + k, u, w)
  {
    if j > 0 {
      var e :| e in E && e.0 == u && Steps(E, j - 1, e.1, v);
      StepsConcat(E, j - 1, k, e.1, v, w);
    }
  }

  lemma ReachTrans<V>(E: set<(V, V)>, u: V, v: V, w: V)
    requires Reach(E, u, v) && Reach(E, v, w)
    ensures Reach(E, u, w)
  {
    var j: nat :| Steps(E, j, u, v);
    var k: nat :| Steps(E, k, v, w);
    StepsConcat(E, j, k, u, v, w);
  }

  lemma ReachEdge<V>(E: set<(V, V)>, u: V, v: V)
    requires (u, v) in E
    ensures Reach(E, u, v) && Before(E, u, v)
  {
    var e := (u, v);
    assert Steps(E, 0, v, v);
    assert e in E && e.0 == u && Steps(E, 0, e.1, v);
    assert Steps(E, 1, u, v);
    ReachSelf(E, v);
  }

  /** Reaching is being equal or being strictly before. */
  lemma ReachCases<V>(E: set<(V, V)>, u: V, v: V)
    ensures Reach(E, u, v) <==> u == v || Before(E, u, v)
  {
    if Reach(E, u, v) && u != v {
      var k: nat :| Steps(E, k, u, v);
      var e :| e in E && e.0 == u && Steps(E, k - 1, e.1, v);
      assert Reach(E, e.1, v);
    }
    if u == v {
      ReachSelf(E, u);
    }
    if Before(E, u, v) {
      var e :| e in E && e.0 == u && Reach(E, e.1, v);
      ReachEdge(E, e.0, e.1);
      assert e == (e.0, e.1);
      ReachTrans(E, u, e.1, v);
    }
  }

  lemma BeforeTrans<V>(E: set<(V, V)>, u: V, v: V, w: V)
    requires (Reach(E, u, v) && Before(E, v, w)) || (Before(E, u, v) && Reach(E, v, w))
    ensures Before(E, u, w)
  {
    if Before(E, u, v) && Reach(E, v, w) {
      var e :| e in E && e.0 == u && Reach(E, e.1, v);
      ReachTrans(E, e.1, v, w);
    } else {
      ReachCases(E, u, v);
      if u != v {
        var e :| e in E && e.0 == u && Reach(E, e.1, v);
        ReachCases(E, v, w);
        ReachTrans(E, e.1, v, w);
      }
    }
  }

  /** A walk that ends with an edge. */
  lemma BeforeLast<V>(E: set<(V, V)>, u: V, v: V) returns (e: (V, V))
    requires Before(E, u, v)
    ensures e in E && e.1 == v && Reach(E, u, e.0)
  {
    ReachCases(E, u, v);
    var f :| f in E && f.0 == u && Reach(E, f.1, v);
    var k: nat :| Steps(E, k, f.1, v);
    e := StepsLast(E, k, f, v);
    if f != e {
      ReachEdge(E, f.0, f.1);
      ReachTrans(E, u, f.1, e.0);
    } else {
      ReachSelf(E, u);
    }
  }

  lemma {:induction false} StepsLast<V>(E: set<(V, V)>, k: nat, f: (V, V), v: V) returns (e: (V, V))
    requires f in E && Steps(E, k, f.1, v)
    ensures e in E && e.1 == v && (e == f || Reach(E, f.1, e.0))
  {
    if k == 0 {
      e := f;
    } else {
      var g :| g in E && g.0 == f.1 && Steps(E, k - 1, g.1, v);
      e := StepsLast(E, k - 1, g, v);
      if e == g {
        ReachSelf(E, f.1);
      } else {
        ReachEdge(E, g.0, g.1);
        ReachTrans(E, f.1, g.1, e.0);
      }
    }
  }

  /** What a set closed under edges contains, everything reachable from it is in too. */
  lemma {:induction false} ReachClosed<V>(E: set<(V, V)>, S: set<V>, u: V, v: V)
    requires forall e :: e in E && e.0 in S ==> e.1 in S
    requires u in S && Reach(E, u, v)
    ensures v in S
  {
    var k: nat :| Steps(E, k, u, v);
    StepsClosed(E, S, k, u, v);
  }

  lemma {:induction false} StepsClosed<V>(E: set<(V, V)>, S: set<V>, k: nat, u: V, v: V)
    requires forall e :: e in E && e.0 in S ==> e.1 in S
    requires u in S && Steps(E, k, u, v)
    ensures v in S
  {
    if k > 0 {
      var e :| e in E && e.0 == u && Steps(E, k - 1, e.1, v);
      StepsClosed(E, S, k - 1, e.1, v);
    }
  }

  /** If every edge of `E` is a walk in `F`, every walk of `E` is one in `F`. */
  lemma ReachMono<V>(E: set<(V, V)>, F: set<(V, V)>, u: V, v: V)
    requires forall e :: e in E ==> Reach(F, e.0, e.1)
    requires Reach(E, u, v)
    ensures Reach(F, u, v)
  {
    var k: nat :| Steps(E, k, u, v);
    StepsMono(E, F, k, u, v);
  }

  lemma {:induction false} StepsMono<V>(E: set<(V, V)>, F: set<(V, V)>, k: nat, u: V, v: V)
    requires forall e :: e in E ==> Reach(F, e.0, e.1)
    requires Steps(E, k, u, v)
    ensures Reach(F, u, v)
  {
    if k == 0 {
      ReachSelf(F, u);
    } else {
      var e :| e in E && e.0 == u && Steps(E, k - 1, e.1, v);
      StepsMono(E, F, k - 1, e.1, v);
      ReachTrans(F, u, e.1, v);
    }
  }

  lemma ReachSubset<V>(E: set<(V, V)>, F: set<(V, V)>, u: V, v: V)
    requires E <= F && Reach(E, u, v)
    ensures Reach(F, u, v)
  {
    forall e | e in E ensures Reach(F, e.0, e.1) {
      ReachEdge(F, e.0, e.1);
      assert e == (e.0, e.1);
    }
    ReachMono(E, F, u, v);
  }

  lemma AcyclicSubset<V>(E: set<(V, V)>, F: set<(V, V)>)
    requires E <= F && Acyclic(F)
    ensures Acyclic(E)
  {
    forall e | e in E ensures !Reach(E, e.1, e.0) {
      if Reach(E, e.1, e.0) {
        ReachSubset(E, F, e.1, e.0);
      }
    }
  }

  lemma AcyclicStrict<V>(E: set<(V, V)>, u: V, v: V)
    requires Acyclic(E) && Before(E, u, v)
    ensures u != v && !Reach(E, v, u)
  {
    if Reach(E, v, u) {
      var e :| e in E && e.0 == u && Reach(E, e.1, v);
      ReachTrans(E, e.1, v, u);
    }
    ReachSelf(E, v);
  }

  // ---------------------------------------------------------------- ranks and orders

  /** `r` grows along every edge. */
  ghost predicate Ranked<V>(E: set<(V, V)>, r: V -> int) {
    forall e :: e in E ==> r(e.0) < r(e.1)
  }

  lemma {:induction false} RankedSteps<V>(E: set<(V, V)>, r: V -> int, k: nat, u: V, v: V)
    requires Ranked(E, r) && Steps(E, k, u, v)
    ensures r(u) + k <= r(v)
  {
    if k > 0 {
      var e :| e in E && e.0 == u && Steps(E, k - 1, e.1, v);
      RankedSteps(E, r, k - 1, e.1, v);
    }
  }

  lemma RankedAcyclic<V>(E: set<(V, V)>, r: V -> int)
    requires Ranked(E, r)
    ensures Acyclic(E)
  {
    forall e | e in E ensures !Reach(E, e.1, e.0) {
      if Reach(E, e.1, e.0) {
        var k: nat :| Steps(E, k, e.1, e.0);
        RankedSteps(E, r, k, e.1, e.0);
      }
    }
  }

  /** No edge goes backwards in `s`: a legal execution order. */
  ghost predicate Respects<V>(s: seq<V>, E: set<(V, V)>) {
    forall i, j :: 0 <= i <= j < |s| ==> (s[j], s[i]) !in E
  }

  ghost predicate NoDup<V>(s: seq<V>) {
    forall i, j :: 0 <= i < j < |s| ==> s[i] != s[j]
  }

  ghost function Elems<V>(s: seq<V>): set<V> {
    set x | x in s
  }

  lemma NoDupConcat<V>(a: seq<V>, b: seq<V>)
    requires NoDup(a) && NoDup(b) && Elems(a) !! Elems(b)
    ensures NoDup(a + b) && Elems(a + b) == Elems(a) + Elems(b)
  {
    forall i, j | 0 <= i < j < |a + b| ensures (a + b)[i] != (a + b)[j] {
      if i < |a| <= j {
        assert a[i] in Elems(a) && b[j - |a|] in Elems(b);
      }
    }
  }

  /** `s` runs every node of `N` exactly once and never before a predecessor. */
  ghost predicate Schedule<V>(s: seq<V>, N: set<V>, E: set<(V, V)>) {
    NoDup(s) && Elems(s) == N && Respects(s, E)
  }

  /** Among the nodes of `N` one has no predecessor in `N`. */
  lemma {:induction false} HasSource<V>(N: set<V>, E: set<(V, V)>, x: V) returns (m: V)
    requires Acyclic(E) && x in N
    ensures m in N && forall y :: y in N ==> (y, m) !in E
    decreases N
  {
    var B := set y | y in N && Before(E, y, x);
    assert forall y :: y in N && Before(E, y, x) ==> y in B;
    if B == {} {
      m := x;
      forall y | y in N ensures (y, m) !in E {
        if (y, x) in E {
          ReachEdge(E, y, x);
        }
      }
    } else {
      assert x !in B by {
        if x in B { AcyclicStrict(E, x, x); }
      }
      assert B < N;
      var b :| b in B;
      m := HasSource(B, E, b);
      forall y | y in N ensures (y, m) !in E {
        if (y, m) in E {
          ReachEdge(E, y, m);
          BeforeTrans(E, y, m, x) by { ReachCases(E, y, m); }
        }
      }
    }
  }

  /** Every finite acyclic graph has a schedule. */
  lemma {:induction false} HasSchedule<V>(N: set<V>, E: set<(V, V)>) returns (s: seq<V>)
    requires Acyclic(E)
    ensures Schedule(s, N, E)
    decreases N
  {
    if N == {} {
      s := [];
    } else {
      var x :| x in N;
      var m := HasSource(N, E, x);
      var t := HasSchedule(N - {m}, E);
      s := [m] + t;
      forall i, j | 0 <= i <= j < |s| ensures (s[j], s[i]) !in E {
        if i == 0 {
          assert s[j] in N by { if j > 0 { assert t[j - 1] in Elems(t); } }
        } else {
          assert s[i] == t[i - 1] && s[j] == t[j - 1];
        }
      }
      forall i, j | 0 <= i < j < |s| ensures s[i] != s[j] {
        assert s[j] == t[j - 1] && t[j - 1] in Elems(t);
      }
      assert Elems(s) == {m} + Elems(t);
    }
  }

  ghost function IndexOf<V>(s: seq<V>, x: V): (i: nat)
    requires x in s
    ensures i < |s| && s[i] == x
  {
    var i :| 0 <= i < |s| && s[i] == x;
    i
  }

  /** In a schedule everything strictly before `v` sits at a smaller index. */
  lemma ScheduleOrder<V>(s: seq<V>, N: set<V>, E: set<(V, V)>, i: nat, j: nat)
    requires Schedule(s, N, E)
    requires forall e :: e in E ==> e.0 in N && e.1 in N
    requires i < |s| && j < |s| && Before(E, s[i], s[j])
    ensures i < j
  {
    var r := (v: V) => if v in s then IndexOf(s, v) else 0;
    forall e | e in E ensures r(e.0) < r(e.1) {
      assert e.0 in Elems(s) && e.1 in Elems(s);
      var i, j := IndexOf(s, e.0), IndexOf(s, e.1);
      assert e == (s[i], s[j]);
    }
    var e :| e in E && e.0 == s[i] && Reach(E, e.1, s[j]);
    var k: nat :| Steps(E, k, e.1, s[j]);
    RankedSteps(E, r, k, e.1, s[j]);
  }

  lemma NoSelfLoop<V>(E: set<(V, V)>, u: V)
    requires Acyclic(E)
    ensures (u, u) !in E
  {
    ReachSelf(E, u);
  }

  // ---------------------------------------------------------------- neighbours

  ghost function Targets<V>(E: set<(V, V)>, u: V): set<V> {
    set e | e in E && e.0 == u :: e.1
  }

  ghost function Sources<V>(E: set<(V, V)>, u: V): set<V> {
    set e | e in E && e.1 == u :: e.0
  }

  /** The edges that do not touch `u`. */
  ghost function Without<V>(E: set<(V, V)>, u: V): set<(V, V)> {
    set e | e in E && e.0 != u && e.1 != u
  }

  /** `u` has one successor `v`, and `v` one predecessor `u`. */
  ghost predicate Series<V>(E: set<(V, V)>, u: V, v: V) {
    Targets(E, u) == {v} && Sources(E, v) == {u}
  }

  /** `a` and `b` have the same predecessors and the same successors. */
  ghost predicate FalseTwins<V>(Q: set<(V, V)>, a: V, b: V) {
    Sources(Q, a) == Sources(Q, b) && Targets(Q, a) == Targets(Q, b)
  }

  lemma NotAnEdge<V>(E: set<(V, V)>, u: V, v: V)
    ensures (u, v) in E <==> v in Targets(E, u)
    ensures (u, v) in E <==> u in Sources(E, v)
  {
    if v in Targets(E, u) {
      var e :| e in E && e.0 == u && e.1 == v;
      assert e == (u, v);
    }
    if u in Sources(E, v) {
      var e :| e in E && e.1 == v && e.0 == u;
      assert e == (u, v);
    }
  }

  /** A DAG over `N` whose only source is `s` and whose only sink is `t`. */
  ghost predicate Coherent<V>(N: set<V>, E: set<(V, V)>, s: V, t: V) {
    && s in N && t in N && s != t
    && (forall e :: e in E ==> e.0 in N && e.1 in N)
    && Acyclic(E)
    && (forall u :: u in N ==> (Sources(E, u) == {} <==> u == s))
    && (forall u :: u in N ==> (Targets(E, u) == {} <==> u == t))
  }

  lemma CoherentParts<V>(N: set<V>, E: set<(V, V)>, s: V, t: V)
    requires Coherent(N, E, s, t)
    ensures s in N && t in N && s != t && Acyclic(E)
  {
  }

  /** Being the only source, `s` reaches every node. */
  lemma EntryReaches<V>(N: set<V>, E: set<(V, V)>, s: V, t: V, u: V)
    requires Coherent(N, E, s, t) && u in N
    ensures Reach(E, s, u)
  {
    var lost := set x | x in N && !Reach(E, s, x);
    ReachSelf(E, s);
    if u in lost {
      var m := HasSource(lost, E, u);
      var p :| p in Sources(E, m);
      NotAnEdge(E, p, m);
      ReachEdge(E, p, m);
      if p !in lost {
        ReachTrans(E, s, p, m);
      }
    }
  }
}
