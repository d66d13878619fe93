/** Contracting a graph by a class function, and when that keeps it acyclic. */
module Quotients {
  import opened Digraphs

  /** The edges between the classes of `c`, self-loops dropped. */
  ghost function Quotient<V, W>(E: set<(V, V)>, c: V -> W): set<(W, W)> {
    set e | e in E && c(e.0) != c(e.1) :: (c(e.0), c(e.1))
  }

  /** The class function a table of numbers stands for. */
  ghost function Group(cls: seq<nat>): nat -> nat {
    (i: nat) => if i < |cls| then cls[i] else i
  }

  /** The edges that stay inside a class. */
  ghost function Inner<V, W>(E: set<(V, V)>, c: V -> W): set<(V, V)> {
    set e | e in E && c(e.0) == c(e.1)
  }

  lemma InQuotient<V, W>(E: set<(V, V)>, c: V -> W, e: (V, V))
    requires e in E && c(e.0) != c(e.1)
    ensures (c(e.0), c(e.1)) in Quotient(E, c)
  {
  }

  lemma QuotientEdge<V, W>(E: set<(V, V)>, c: V -> W, q: (W, W)) returns (e: (V, V))
    requires q in Quotient(E, c)
    ensures e in E && c(e.0) == q.0 && c(e.1) == q.1 && q.0 != q.1
  {
    e :| e in E && c(e.0) != c(e.1) && q == (c(e.0), c(e.1));
  }

  lemma {:induction false} QuotientSteps<V, W>(E: set<(V, V)>, c: V -> W, k: nat, u: V, v: V)
    requires Steps(E, k, u, v)
    ensures Reach(Quotient(E, c), c(u), c(v))
  {
    if k == 0 {
      ReachSelf(Quotient(E, c), c(u));
    } else {
      var e :| e in E && e.0 == u && Steps(E, k - 1, e.1, v);
      QuotientSteps(E, c, k - 1, e.1, v);
      if c(e.0) != c(e.1) {
        InQuotient(E, c, e);
        ReachEdge(Quotient(E, c), c(u), c(e.1));
        ReachTrans(Quotient(E, c), c(u), c(e.1), c(v));
      }
    }
  }

  /** Contracting keeps every walk. */
  lemma QuotientReach<V, W>(E: set<(V, V)>, c: V -> W, u: V, v: V)
    requires Reach(E, u, v)
    ensures Reach(Quotient(E, c), c(u), c(v))
  {
    var k: nat :| Steps(E, k, u, v);
    QuotientSteps(E, c, k, u, v);
  }

  /** `f` keeps the classes of `c` listed in `whole` and takes every other one apart. */
  ghost predicate Dissolves<V, W, X>(N: set<V>, c: V -> W, whole: set<W>, f: V -> X) {
    forall x, y :: x in N && y in N ==> (f(x) == f(y) <==> x == y || (c(x) == c(y) && c(x) in whole))
  }

  /** Dissolving some classes of an acyclic contraction leaves an acyclic contraction. */
  lemma DissolveAcyclic<V, W, X>(N: set<V>, E: set<(V, V)>, c: V -> W, whole: set<W>, f: V -> X)
    requires forall e :: e in E ==> e.0 in N && e.1 in N
    requires Acyclic(E) && Dissolves(N, c, whole, f) && Acyclic(Quotient(E, c))
    ensures Acyclic(Quotient(E, f))
  {
    forall q | q in Quotient(E, f) ensures !Reach(Quotient(E, f), q.1, q.0) {
      if Reach(Quotient(E, f), q.1, q.0) {
        var e := QuotientEdge(E, f, q);
        var k: nat :| Steps(Quotient(E, f), k, q.1, q.0);
        DissolveSteps(N, E, c, whole, f, k, e.1, e.0);
        if c(e.0) != c(e.1) {
          InQuotient(E, c, e);
        }
      }
    }
  }

  lemma {:induction false} DissolveSteps<V, W, X>(N: set<V>, E: set<(V, V)>, c: V -> W, whole: set<W>, f: V -> X,
      k: nat, u: V, v: V)
    requires forall e :: e in E ==> e.0 in N && e.1 in N
    requires Dissolves(N, c, whole, f) && Acyclic(Quotient(E, c)) && u in N && v in N
    requires Steps(Quotient(E, f), k, f(u), f(v))
    ensures Reach(Quotient(E, c), c(u), c(v))
    ensures c(u) == c(v) ==> f(u) == f(v) || Reach(E, u, v)
  {
    if k == 0 {
      ReachSelf(Quotient(E, c), c(u));
    } else {
      var q :| q in Quotient(E, f) && q.0 == f(u) && Steps(Quotient(E, f), k - 1, q.1, f(v));
      var e := QuotientEdge(E, f, q);
      DissolveSteps(N, E, c, whole, f, k - 1, e.1, v);
      if c(e.0) != c(e.1) {
        DissolveAcross(E, c, e, c(v));
      } else if c(u) == c(v) && f(u) != f(v) {
        assert e.0 == u;
        ReachEdge(E, u, e.1);
        if f(e.1) != f(v) {
          ReachTrans(E, u, e.1, v);
        }
      }
    }
  }

  /** `f` splits classes of `c`, but no edge runs between two parts of one. */
  ghost predicate SplitsApart<V, W, X>(N: set<V>, E: set<(V, V)>, f: V -> W, c: V -> X) {
    && (forall x, y :: x in N && y in N && f(x) == f(y) ==> c(x) == c(y))
    && (forall e :: e in E && c(e.0) == c(e.1) ==> f(e.0) == f(e.1))
  }

  /** ... so a cycle between the parts is a cycle between the classes. */
  lemma SplitAcyclic<V, W, X>(N: set<V>, E: set<(V, V)>, f: V -> W, c: V -> X)
    requires (forall e :: e in E ==> e.0 in N && e.1 in N) && SplitsApart(N, E, f, c) && Acyclic(Quotient(E, c))
    ensures Acyclic(Quotient(E, f))
  {
    forall q | q in Quotient(E, f) ensures !Reach(Quotient(E, f), q.1, q.0) {
      var e := QuotientEdge(E, f, q);
      InQuotient(E, c, e);
      if k: nat :| Steps(Quotient(E, f), k, q.1, q.0) {
        SplitSteps(N, E, f, c, k, e.1, e.0);
      }
    }
  }

  lemma {:induction false} SplitSteps<V, W, X>(N: set<V>, E: set<(V, V)>, f: V -> W, c: V -> X, k: nat, u: V, v: V)
    requires (forall e :: e in E ==> e.0 in N && e.1 in N) && SplitsApart(N, E, f, c) && u in N && v in N
    requires Steps(Quotient(E, f), k, f(u), f(v))
    ensures Reach(Quotient(E, c), c(u), c(v))
  {
    if k == 0 {
      ReachSelf(Quotient(E, c), c(u));
    } else {
      var q :| q in Quotient(E, f) && q.0 == f(u) && Steps(Quotient(E, f), k - 1, q.1, f(v));
      var e := QuotientEdge(E, f, q);
      SplitSteps(N, E, f, c, k - 1, e.1, v);
      InQuotient(E, c, e);
      ReachEdge(Quotient(E, c), c(u), c(e.1));
      ReachTrans(Quotient(E, c), c(u), c(e.1), c(v));
    }
  }

  lemma DissolveAcross<V, W>(E: set<(V, V)>, c: V -> W, e: (V, V), w: W)
    requires Acyclic(Quotient(E, c)) && e in E && c(e.0) != c(e.1) && Reach(Quotient(E, c), c(e.1), w)
    ensures Reach(Quotient(E, c), c(e.0), w) && c(e.0) != w
  {
    InQuotient(E, c, e);
    ReachEdge(Quotient(E, c), c(e.0), c(e.1));
    ReachTrans(Quotient(E, c), c(e.0), c(e.1), w);
  }

  /** Walks between two nodes of one class of an acyclic contraction never leave the class. */
  lemma ConvexWalk<V, W>(E: set<(V, V)>, c: V -> W, u: V, v: V)
    requires Acyclic(Quotient(E, c)) && c(u) == c(v) && Reach(E, u, v)
    ensures Reach(Inner(E, c), u, v)
  {
    var k: nat :| Steps(E, k, u, v);
    ConvexSteps(E, c, k, u, v);
  }

  lemma {:induction false} ConvexSteps<V, W>(E: set<(V, V)>, c: V -> W, k: nat, u: V, v: V)
    requires Acyclic(Quotient(E, c)) && c(u) == c(v) && Steps(E, k, u, v)
    ensures Reach(Inner(E, c), u, v)
  {
    if k == 0 {
      ReachSelf(Inner(E, c), u);
    } else {
      var e :| e in E && e.0 == u && Steps(E, k - 1, e.1, v);
      QuotientSteps(E, c, k - 1, e.1, v);
      if c(e.0) != c(e.1) {
        InQuotient(E, c, e);
      } else {
        ConvexSteps(E, c, k - 1, e.1, v);
        ReachEdge(Inner(E, c), e.0, e.1);
        ReachTrans(Inner(E, c), u, e.1, v);
      }
    }
  }

  /** A contraction orders its nodes as the graph does: across classes by class,
      inside a class by the edges kept inside it. */
  lemma NestedOrder<V, W>(E: set<(V, V)>, c: V -> W, u: V, v: V)
    requires Acyclic(E) && Acyclic(Quotient(E, c)) && Before(E, u, v)
    ensures if c(u) == c(v) then Before(Inner(E, c), u, v) else Before(Quotient(E, c), c(u), c(v))
  {
    ReachCases(E, u, v);
    AcyclicStrict(E, u, v);
    if c(u) == c(v) {
      ConvexWalk(E, c, u, v);
      ReachCases(Inner(E, c), u, v);
    } else {
      QuotientReach(E, c, u, v);
      ReachCases(Quotient(E, c), c(u), c(v));
    }
  }

  /** Contracting in two steps is contracting by the composed class function. */
  lemma QuotientCompose<V, W, X>(E: set<(V, V)>, c: V -> W, d: W -> X, f: V -> X)
    requires forall e :: e in E ==> f(e.0) == d(c(e.0)) && f(e.1) == d(c(e.1))
    ensures Quotient(Quotient(E, c), d) == Quotient(E, f)
  {
    var Q := Quotient(E, c);
    forall x | x in Quotient(Q, d) ensures x in Quotient(E, f) {
      var q := QuotientEdge(Q, d, x);
      var e := QuotientEdge(E, c, q);
      InQuotient(E, f, e);
    }
    forall x | x in Quotient(E, f) ensures x in Quotient(Q, d) {
      var e := QuotientEdge(E, f, x);
      InQuotient(E, c, e);
      InQuotient(Q, d, (c(e.0), c(e.1)));
    }
  }

  // ------------------------------------------------------------ groups of one

  ghost predicate Lone(cls: seq<nat>, a: nat) {
    a < |cls| && forall j :: 0 <= j < |cls| && cls[j] == cls[a] ==> j == a
  }

  ghost predicate Rooted(cls: seq<nat>) {
    forall j :: 0 <= j < |cls| ==> cls[j] < |cls| && cls[cls[j]] == cls[j]
  }

  lemma LoneClass(E: set<(nat, nat)>, cls: seq<nat>, a: nat)
    requires Lone(cls, a) && Rooted(cls) && (forall e :: e in E ==> e.0 < |cls| && e.1 < |cls| && e.0 != e.1)
    ensures cls[a] == a
    ensures forall x :: x in Sources(Quotient(E, Group(cls)), a) <==> exists p :: p in Sources(E, a) && cls[p] == x
    ensures forall x :: x in Targets(Quotient(E, Group(cls)), a) <==> exists p :: p in Targets(E, a) && cls[p] == x
  {
    var Q, c := Quotient(E, Group(cls)), Group(cls);
    assert cls[cls[a]] == cls[a];
    forall x ensures x in Sources(Q, a) <==> exists p :: p in Sources(E, a) && cls[p] == x {
      NotAnEdge(Q, x, a);
      if (x, a) in Q {
        var e := QuotientEdge(E, c, (x, a));
        assert e == (e.0, a) && e.0 in Sources(E, a);
      }
      if p :| p in Sources(E, a) && cls[p] == x {
        NotAnEdge(E, p, a);
        assert (p, a).0 != (p, a).1;
        InQuotient(E, c, (p, a));
      }
    }
    forall x ensures x in Targets(Q, a) <==> exists p :: p in Targets(E, a) && cls[p] == x {
      NotAnEdge(Q, a, x);
      if (a, x) in Q {
        var e := QuotientEdge(E, c, (a, x));
        assert e == (a, e.1) && e.1 in Targets(E, a);
      }
      if p :| p in Targets(E, a) && cls[p] == x {
        NotAnEdge(E, a, p);
        assert (a, p).0 != (a, p).1;
        InQuotient(E, c, (a, p));
      }
    }
  }
}
