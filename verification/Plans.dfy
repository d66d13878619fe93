/** What an optimised command graph may execute.

    A plan is the top level of a command graph together with what nested batches
    have already fixed: which commands each top-level node stands for, which of
    those commands are ordered inside a batch, and which sets of commands are
    replayed as one block.  Passes are compared by the schedules they allow. */
module Plans {
  import opened Digraphs
  import opened Quotients

  /** `leaves[t]` is empty for a control node, one command for a plain command node
      and all nested commands for a batch node. */
  datatype Plan<V> = Plan(
    nodes: set<V>,
    edges: set<(V, V)>,
    leaves: map<V, set<V>>,
    nested: set<(V, V)>,
    blocks: set<set<V>>)

  ghost predicate Closed<V>(p: Plan<V>) {
    && (forall e :: e in p.edges ==> e.0 in p.nodes && e.1 in p.nodes)
    && p.leaves.Keys == p.nodes
  }

  ghost function Commands<V>(p: Plan<V>): set<V>
    requires Closed(p)
  {
    set t, x | t in p.nodes && x in p.leaves[t] :: x
  }

  /** The plan puts command `x` before command `y`. */
  ghost predicate Ordered<V>(p: Plan<V>, x: V, y: V)
    requires Closed(p)
  {
    || (x, y) in p.nested
    || exists u, v :: u in p.nodes && v in p.nodes && x in p.leaves[u] && y in p.leaves[v] && Before(p.edges, u, v)
  }

  ghost predicate Contiguous<V>(s: seq<V>, b: set<V>) {
    exists i, j :: 0 <= i <= j <= |s| && Elems(s[i..j]) == b
  }

  /** `s` is an execution of the plan with every batch expanded in place. */
  ghost predicate Legal<V>(p: Plan<V>, s: seq<V>)
    requires Closed(p)
  {
    && NoDup(s) && Elems(s) == Commands(p)
    && (forall i, j :: 0 <= i <= j < |s| ==> !Ordered(p, s[j], s[i]))
    && (forall b :: b in p.blocks ==> Contiguous(s, b))
  }

  /** `q` orders and blocks at least what `p` does, over the same commands. */
  ghost predicate Tightens<V>(p: Plan<V>, q: Plan<V>)
    requires Closed(p) && Closed(q)
  {
    && Commands(p) == Commands(q)
    && p.blocks <= q.blocks
    && (forall x, y :: x in Commands(p) && y in Commands(p) && Ordered(p, x, y) ==> Ordered(q, x, y))
  }

  lemma TightensLegal<V>(p: Plan<V>, q: Plan<V>, s: seq<V>)
    requires Closed(p) && Closed(q) && Tightens(p, q) && Legal(q, s)
    ensures Legal(p, s)
  {
    forall i, j | 0 <= i <= j < |s| ensures !Ordered(p, s[j], s[i]) {
      assert s[i] in Elems(s) && s[j] in Elems(s);
    }
  }

  lemma TightensTrans<V>(p: Plan<V>, q: Plan<V>, r: Plan<V>)
    requires Closed(p) && Closed(q) && Closed(r) && Tightens(p, q) && Tightens(q, r)
    ensures Tightens(p, r)
  {
  }

  lemma TightensSelf<V>(p: Plan<V>)
    requires Closed(p)
    ensures Tightens(p, p)
  {
  }

  // ------------------------------------------------------------ existence

  /** `w` runs the inside of every top-level node legally. */
  ghost predicate Witness<V>(p: Plan<V>, w: map<V, seq<V>>)
    requires Closed(p)
  {
    && w.Keys == p.nodes
    && (forall t :: t in p.nodes ==> NoDup(w[t]) && Elems(w[t]) == p.leaves[t])
    && (forall t, u :: t in p.nodes && u in p.nodes && t != u ==> p.leaves[t] !! p.leaves[u])
    && (forall e :: e in p.nested ==> exists t :: t in p.nodes && InOrder(w[t], e))
    && (forall b :: b in p.blocks ==> exists t :: t in p.nodes && Contiguous(w[t], b))
  }

  ghost predicate InOrder<V>(s: seq<V>, e: (V, V)) {
    exists i, j :: 0 <= i < j < |s| && s[i] == e.0 && s[j] == e.1
  }

  ghost predicate Sound<V>(p: Plan<V>, w: map<V, seq<V>>) {
    Closed(p) && Witness(p, w) && Acyclic(p.edges)
  }

  ghost function Flatten<V>(o: seq<V>, w: map<V, seq<V>>): seq<V>
    requires forall x :: x in o ==> x in w
  {
    if o == [] then [] else w[o[0]] + Flatten(o[1..], w)
  }

  lemma {:induction false} FlattenSplit<V>(o: seq<V>, w: map<V, seq<V>>, k: nat)
    requires forall x :: x in o ==> x in w
    requires k < |o|
    ensures Flatten(o, w) == Flatten(o[..k], w) + w[o[k]] + Flatten(o[k + 1..], w)
  {
    if k == 0 {
      assert o[..0] == [];
    } else {
      FlattenSplit(o[1..], w, k - 1);
      assert o[1..][..k - 1] == o[..k][1..];
      assert o[1..][k..] == o[k + 1..];
    }
  }

  lemma {:induction false} FlattenElems<V>(o: seq<V>, w: map<V, seq<V>>, x: V)
    requires forall t :: t in o ==> t in w
    ensures x in Flatten(o, w) <==> exists t :: t in o && x in w[t]
  {
    if o != [] {
      FlattenElems(o[1..], w, x);
      if x in w[o[0]] {
        assert o[0] in o;
      }
    }
  }

  lemma DisjointRuns<V>(o: seq<V>, w: map<V, seq<V>>, t: V, u: V, x: V)
    requires forall t, u :: t in o && u in o && t != u ==> t in w && u in w && Elems(w[t]) !! Elems(w[u])
    requires t in o && u in o && t in w && u in w && x in w[t] && x in w[u]
    ensures t == u
  {
    assert x in Elems(w[t]) && x in Elems(w[u]);
  }

  lemma {:induction false} FlattenNoDup<V>(o: seq<V>, w: map<V, seq<V>>)
    requires forall t :: t in o ==> t in w && NoDup(w[t])
    requires NoDup(o)
    requires forall t, u :: t in o && u in o && t != u ==> Elems(w[t]) !! Elems(w[u])
    ensures NoDup(Flatten(o, w))
  {
    if o != [] {
      FlattenNoDup(o[1..], w);
      var a, b := w[o[0]], Flatten(o[1..], w);
      forall x | x in a ensures x !in b {
        FlattenElems(o[1..], w, x);
        if x in b {
          var t :| t in o[1..] && x in w[t];
          DisjointRuns(o, w, o[0], t, x);
        }
      }
      assert o[0] in o;
      NoDupConcat(a, b);
    }
  }

  lemma ContiguousWithin<V>(a: seq<V>, s: seq<V>, c: seq<V>, b: set<V>)
    requires Contiguous(s, b)
    ensures Contiguous(a + s + c, b)
  {
    var i, j :| 0 <= i <= j <= |s| && Elems(s[i..j]) == b;
    assert (a + s + c)[|a| + i..|a| + j] == s[i..j];
  }

  /** Running the top level in any schedule and each node by its witness. */
  lemma FlattenLegal<V>(p: Plan<V>, w: map<V, seq<V>>, o: seq<V>)
    requires Sound(p, w) && Schedule(o, p.nodes, p.edges)
    ensures (forall t :: t in o ==> t in w) && Legal(p, Flatten(o, w))
  {
    forall t | t in o ensures t in w { assert t in Elems(o); }
    var s := Flatten(o, w);
    FlattenNoDup(o, w);
    forall x ensures x in Elems(s) <==> x in Commands(p) {
      FlattenElems(o, w, x);
      if x in Commands(p) {
        var t :| t in p.nodes && x in p.leaves[t];
        assert x in Elems(w[t]) && t in Elems(o);
      }
      if x in Elems(s) {
        var t :| t in o && x in w[t];
        assert x in Elems(w[t]) && t in Elems(o);
      }
    }
    assert Elems(s) == Commands(p);
    forall i, j | 0 <= i <= j < |s| ensures !Ordered(p, s[j], s[i]) {
      if Ordered(p, s[j], s[i]) {
        FlattenOrder(p, w, o, i, j);
      }
    }
    forall b | b in p.blocks ensures Contiguous(s, b) {
      var t :| t in p.nodes && Contiguous(w[t], b);
      assert t in Elems(o);
      var k := IndexOf(o, t);
      FlattenSplit(o, w, k);
      ContiguousWithin(Flatten(o[..k], w), w[t], Flatten(o[k + 1..], w), b);
    }
  }

  /** The commands of the `k`-th node sit in its own segment of the flattened run. */
  lemma FlattenIndex<V>(o: seq<V>, w: map<V, seq<V>>, k: nat, i: nat)
    requires forall t :: t in o ==> t in w
    requires NoDup(Flatten(o, w)) && k < |o| && i < |Flatten(o, w)| && Flatten(o, w)[i] in w[o[k]]
    ensures var f := |Flatten(o[..k], w)|;
            f <= i < f + |w[o[k]]| && Flatten(o, w)[i] == w[o[k]][i - f]
  {
    FlattenSplit(o, w, k);
    var s, f := Flatten(o, w), |Flatten(o[..k], w)|;
    var b := IndexOf(w[o[k]], s[i]);
    assert s[f + b] == s[i];
  }

  lemma FlattenOrder<V>(p: Plan<V>, w: map<V, seq<V>>, o: seq<V>, i: nat, j: nat)
    requires Sound(p, w) && Schedule(o, p.nodes, p.edges)
    requires forall t :: t in o ==> t in w
    requires NoDup(Flatten(o, w))
    requires i < |Flatten(o, w)| && j < |Flatten(o, w)|
    requires Ordered(p, Flatten(o, w)[j], Flatten(o, w)[i])
    ensures j < i
  {
    var s := Flatten(o, w);
    if (s[j], s[i]) in p.nested {
      var t :| t in p.nodes && InOrder(w[t], (s[j], s[i]));
      var a, b :| 0 <= a < b < |w[t]| && w[t][a] == s[j] && w[t][b] == s[i];
      assert t in Elems(o);
      var k := IndexOf(o, t);
      FlattenIndex(o, w, k, i);
      FlattenIndex(o, w, k, j);
    } else {
      var u, v :| u in p.nodes && v in p.nodes && s[j] in p.leaves[u] && s[i] in p.leaves[v] && Before(p.edges, u, v);
      assert u in Elems(o) && v in Elems(o);
      var m, n := IndexOf(o, u), IndexOf(o, v);
      ScheduleOrder(o, p.nodes, p.edges, m, n);
      assert s[i] in Elems(w[v]) && s[j] in Elems(w[u]);
      FlattenIndex(o, w, m, j);
      FlattenIndex(o, w, n, i);
      FlattenPrefix(o, w, m, n);
    }
  }

  lemma FlattenPrefix<V>(o: seq<V>, w: map<V, seq<V>>, m: nat, n: nat)
    requires forall t :: t in o ==> t in w
    requires m < n < |o|
    ensures |Flatten(o[..m], w)| + |w[o[m]]| <= |Flatten(o[..n], w)|
  {
    FlattenSplit(o[..n], w, m);
    assert o[..n][..m] == o[..m];
  }

  /** A sound plan can be executed. */
  lemma SoundRuns<V>(p: Plan<V>, w: map<V, seq<V>>) returns (s: seq<V>)
    requires Sound(p, w)
    ensures Legal(p, s)
  {
    var o := HasSchedule(p.nodes, p.edges);
    FlattenLegal(p, w, o);
    s := Flatten(o, w);
  }

  // ---------------------------------------------------------- contraction

  /** The class function of contracting the set `S` into `b`, a fresh node or one of them. */
  ghost function Into<V>(S: set<V>, b: V): V -> V {
    x => if x in S then b else x
  }

  /** Replace the top-level nodes `S` by one batch node `b` that replays them as a block. */
  ghost function Contract<V>(p: Plan<V>, S: set<V>, b: V): Plan<V>
    requires Closed(p) && S <= p.nodes
  {
    var inner := set x, y, u, v | u in S && v in S && x in p.leaves[u] && y in p.leaves[v] &&
                                  Before(Inside(p.edges, S), u, v) :: (x, y);
    var all := set t, x | t in S && x in p.leaves[t] :: x;
    Plan(p.nodes - S + {b},
         Quotient(p.edges, Into(S, b)),
         map t | t in p.nodes - S + {b} :: if t == b then all else p.leaves[t],
         p.nested + inner,
         p.blocks + {all})
  }

  ghost function Inside<V>(E: set<(V, V)>, S: set<V>): set<(V, V)> {
    set e | e in E && e.0 in S && e.1 in S
  }

  lemma InsideIsInner<V>(E: set<(V, V)>, S: set<V>, b: V)
    requires Acyclic(E) && (b in S || forall e :: e in E ==> e.0 != b && e.1 != b)
    ensures Inside(E, S) == Inner(E, Into(S, b))
  {
    forall e | e in Inner(E, Into(S, b)) ensures e in Inside(E, S) {
      ReachSelf(E, e.0);
      assert e.0 != e.1;
    }
  }

  lemma ContractClosed<V>(p: Plan<V>, S: set<V>, b: V)
    requires Closed(p) && S <= p.nodes && b !in p.nodes - S
    ensures Closed(Contract(p, S, b)) && Commands(Contract(p, S, b)) == Commands(p)
  {
    var q := Contract(p, S, b);
    forall e | e in q.edges ensures e.0 in q.nodes && e.1 in q.nodes {
      var f := QuotientEdge(p.edges, Into(S, b), e);
    }
    forall x | x in Commands(p) ensures x in Commands(q) {
      var t :| t in p.nodes && x in p.leaves[t];
      var u := Into(S, b)(t);
      assert u in q.nodes && x in q.leaves[u];
    }
    forall x | x in Commands(q) ensures x in Commands(p) {
      var t :| t in q.nodes && x in q.leaves[t];
      if t == b {
        var u :| u in S && x in p.leaves[u];
        assert u in p.nodes;
      }
    }
  }

  /** Contracting keeps every order and every block there was. */
  lemma ContractTightens<V>(p: Plan<V>, S: set<V>, b: V)
    requires Closed(p) && S <= p.nodes && b !in p.nodes - S
    requires Acyclic(p.edges) && Acyclic(Quotient(p.edges, Into(S, b)))
    ensures Closed(Contract(p, S, b)) && Tightens(p, Contract(p, S, b))
  {
    var q := Contract(p, S, b);
    ContractClosed(p, S, b);
    forall x, y | Ordered(p, x, y) ensures Ordered(q, x, y) {
      if (x, y) !in p.nested {
        var u, v :| u in p.nodes && v in p.nodes && x in p.leaves[u] && y in p.leaves[v] && Before(p.edges, u, v);
        InsideIsInner(p.edges, S, b);
        NestedOrder(p.edges, Into(S, b), u, v);
        AcyclicStrict(p.edges, u, v);
        var cu, cv := Into(S, b)(u), Into(S, b)(v);
        assert cu in q.nodes && cv in q.nodes && x in q.leaves[cu] && y in q.leaves[cv];
      }
    }
  }

  /** The sub-graph a batch of `S` holds, as a plan of its own. */
  ghost function InsidePlan<V>(p: Plan<V>, w: map<V, seq<V>>, S: set<V>): Plan<V>
    requires Sound(p, w) && S <= p.nodes
  {
    Plan(S, Inside(p.edges, S), map t | t in S :: p.leaves[t],
         set e | e in p.nested && exists t :: t in S && InOrder(w[t], e),
         set c | c in p.blocks && exists t :: t in S && Contiguous(w[t], c))
  }

  lemma InsideSound<V>(p: Plan<V>, w: map<V, seq<V>>, S: set<V>)
    requires Sound(p, w) && S <= p.nodes
    ensures Sound(InsidePlan(p, w, S), map t | t in S :: w[t])
  {
    AcyclicSubset(Inside(p.edges, S), p.edges);
    var ins, wi := InsidePlan(p, w, S), map t | t in S :: w[t];
    forall e | e in ins.nested ensures exists t :: t in ins.nodes && InOrder(wi[t], e) {
      var t :| t in S && InOrder(w[t], e);
      assert InOrder(wi[t], e);
    }
    forall c | c in ins.blocks ensures exists t :: t in ins.nodes && Contiguous(wi[t], c) {
      var t :| t in S && Contiguous(w[t], c);
      assert Contiguous(wi[t], c);
    }
  }

  lemma LegalInOrder<V>(p: Plan<V>, s: seq<V>, x: V, y: V)
    requires Closed(p) && Legal(p, s) && Ordered(p, x, y) && x in Commands(p) && y in Commands(p)
    ensures InOrder(s, (x, y))
  {
    assert x in Elems(s) && y in Elems(s);
    var i, j := IndexOf(s, x), IndexOf(s, y);
  }

  /** A sound plan stays sound: the batch runs in a schedule of its inside. */
  lemma ContractSound<V>(p: Plan<V>, w: map<V, seq<V>>, S: set<V>, b: V) returns (w': map<V, seq<V>>)
    requires Sound(p, w) && S <= p.nodes && b !in p.nodes - S
    requires Acyclic(Quotient(p.edges, Into(S, b)))
    ensures Sound(Contract(p, S, b), w')
  {
    var q, ins := Contract(p, S, b), InsidePlan(p, w, S);
    ContractClosed(p, S, b);
    InsideSound(p, w, S);
    var r := SoundRuns(ins, map t | t in S :: w[t]);
    assert Commands(ins) == q.leaves[b];
    w' := map t | t in q.nodes :: if t == b then r else w[t];
    forall e | e in q.nested ensures exists t :: t in q.nodes && InOrder(w'[t], e) {
      ContractNested(p, w, S, b, r, e, w');
    }
    forall c | c in q.blocks ensures exists t :: t in q.nodes && Contiguous(w'[t], c) {
      ContractBlocks(p, w, S, b, r, c, w');
    }
    ContractLeaves(p, w, S, b, r, w');
  }

  lemma ContractLeaves<V>(p: Plan<V>, w: map<V, seq<V>>, S: set<V>, b: V, r: seq<V>, w': map<V, seq<V>>)
    requires Sound(p, w) && S <= p.nodes && b !in p.nodes - S
    requires NoDup(r) && Elems(r) == Contract(p, S, b).leaves[b]
    requires w' == map t | t in Contract(p, S, b).nodes :: if t == b then r else w[t]
    ensures var q := Contract(p, S, b);
            && (forall t :: t in q.nodes ==> NoDup(w'[t]) && Elems(w'[t]) == q.leaves[t])
            && (forall t, u :: t in q.nodes && u in q.nodes && t != u ==> q.leaves[t] !! q.leaves[u])
  {
    var q := Contract(p, S, b);
    forall t | t in q.nodes && t != b ensures q.leaves[t] !! q.leaves[b] {
      forall x | x in q.leaves[b] ensures x !in p.leaves[t] {
        var u :| u in S && x in p.leaves[u];
      }
    }
  }

  lemma ContractNested<V>(p: Plan<V>, w: map<V, seq<V>>, S: set<V>, b: V, r: seq<V>, e: (V, V), w': map<V, seq<V>>)
    requires Sound(p, w) && S <= p.nodes && b !in p.nodes - S
    requires Closed(InsidePlan(p, w, S)) && Legal(InsidePlan(p, w, S), r)
    requires w' == map t | t in Contract(p, S, b).nodes :: if t == b then r else w[t]
    requires e in Contract(p, S, b).nested
    ensures exists t :: t in Contract(p, S, b).nodes && InOrder(w'[t], e)
  {
    var q, ins := Contract(p, S, b), InsidePlan(p, w, S);
    if e in p.nested && e !in ins.nested {
      var t :| t in p.nodes && InOrder(w[t], e);
      assert t in q.nodes && InOrder(w'[t], e);
    } else {
      InsideOrdered(p, w, S, b, e);
      LegalInOrder(ins, r, e.0, e.1);
      assert e == (e.0, e.1);
      assert b in q.nodes && InOrder(w'[b], e);
    }
  }

  lemma ContractBlocks<V>(p: Plan<V>, w: map<V, seq<V>>, S: set<V>, b: V, r: seq<V>, c: set<V>, w': map<V, seq<V>>)
    requires Sound(p, w) && S <= p.nodes && b !in p.nodes - S
    requires Closed(InsidePlan(p, w, S)) && Legal(InsidePlan(p, w, S), r)
    requires Elems(r) == Contract(p, S, b).leaves[b]
    requires w' == map t | t in Contract(p, S, b).nodes :: if t == b then r else w[t]
    requires c in Contract(p, S, b).blocks
    ensures exists t :: t in Contract(p, S, b).nodes && Contiguous(w'[t], c)
  {
    var q, ins := Contract(p, S, b), InsidePlan(p, w, S);
    if c in p.blocks && c !in ins.blocks {
      var t :| t in p.nodes && Contiguous(w[t], c);
      assert t in q.nodes && Contiguous(w'[t], c);
    } else {
      assert r[0..|r|] == r;
      assert b in q.nodes && Contiguous(w'[b], c);
    }
  }

  lemma InsideOrdered<V>(p: Plan<V>, w: map<V, seq<V>>, S: set<V>, b: V, e: (V, V))
    requires Sound(p, w) && S <= p.nodes && b !in p.nodes - S
    requires e in Contract(p, S, b).nested && (e in p.nested ==> e in InsidePlan(p, w, S).nested)
    ensures var ins := InsidePlan(p, w, S);
            Ordered(ins, e.0, e.1) && e.0 in Commands(ins) && e.1 in Commands(ins)
  {
    var ins := InsidePlan(p, w, S);
    if e in p.nested {
      var t :| t in S && InOrder(w[t], e);
      assert e.0 in Elems(w[t]) && e.1 in Elems(w[t]);
      assert t in ins.nodes && e.0 in ins.leaves[t] && e.1 in ins.leaves[t];
      assert e == (e.0, e.1);
    } else {
      var x, y, u, v :| u in S && v in S && x in p.leaves[u] && y in p.leaves[v] &&
                        Before(Inside(p.edges, S), u, v) && e == (x, y);
      assert u in ins.nodes && v in ins.nodes && x in ins.leaves[u] && y in ins.leaves[v];
    }
  }
}
