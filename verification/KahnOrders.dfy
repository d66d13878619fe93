/** Kahn's algorithm, with a stack for a queue: the topological order the MLIR edge reduction works through. */
module KahnOrders {
  import opened Traversals
  import opened Digraphs
  import opened Lists
  import opened Numberings

  ghost function Below(n: nat): (r: set<nat>)
    ensures forall i: nat :: i in r <==> i < n
  {
    if n == 0 then {} else Below(n - 1) + {n - 1}
  }

  /** How many predecessors of `w` are not in `T` yet. */
  ghost function Waiting(E: set<(nat, nat)>, w: nat, T: set<nat>): nat {
    |Sources(E, w) - T|
  }

  /** Every listed node comes after all its predecessors. */
  ghost predicate Ready(E: set<(nat, nat)>, topo: seq<nat>) {
    forall k :: 0 <= k < |topo| ==> Sources(E, topo[k]) <= Elems(topo[..k])
  }

  /** The counters know who is waiting; listed or queued are exactly the nodes that wait for nobody.
      `T` is what the nodes outside `done` have been counted against, `T + {u}` the others. */
  ghost predicate Counting(E: set<(nat, nat)>, out: seq<nat>, deg: seq<nat>, T: set<nat>, u: nat, done: set<nat>) {
    && NoDup(out) && (forall x :: x in out ==> x < |deg|)
    && (forall w: nat :: w < |deg| ==> deg[w] == Waiting(E, w, if w in done then T + {u} else T))
    && (forall w: nat :: w < |deg| ==> (w in out <==> deg[w] == 0))
  }

  lemma WaitingDrops(E: set<(nat, nat)>, w: nat, T: set<nat>, u: nat)
    requires u in Sources(E, w) && u !in T
    ensures Waiting(E, w, T) == Waiting(E, w, T + {u}) + 1
  {
    assert Sources(E, w) - T == Sources(E, w) - (T + {u}) + {u};
  }

  lemma CountDown(E: set<(nat, nat)>, out: seq<nat>, deg: seq<nat>, T: set<nat>, u: nat, done: set<nat>, w: nat)
    requires Counting(E, out, deg, T, u, done) && w < |deg| && w !in done && u in Sources(E, w) && u !in T
    ensures deg[w] > 0 && w !in out
    ensures deg[w] == 1 ==> Counting(E, out + [w], deg[w := 0], T, u, done + {w})
    ensures deg[w] != 1 ==> Counting(E, out, deg[w := deg[w] - 1], T, u, done + {w})
  {
    WaitingDrops(E, w, T, u);
    assert deg[w] > 0;
    NoDupSnoc(out, w);
    hide NoDup, Waiting, Sources;
  }

  lemma RoundOver(E: set<(nat, nat)>, out: seq<nat>, deg: seq<nat>, T: set<nat>, u: nat)
    requires Counting(E, out, deg, T, u, Targets(E, u))
    ensures Counting(E, out, deg, T + {u}, u, {})
  {
    forall w: nat | w < |deg| && w !in Targets(E, u) ensures Sources(E, w) - T == Sources(E, w) - (T + {u}) {
      NotAnEdge(E, u, w);
    }
  }

  lemma RoundStart(E: set<(nat, nat)>, out: seq<nat>, deg: seq<nat>, T: set<nat>, u: nat, v: nat)
    requires Counting(E, out, deg, T, u, {})
    ensures Counting(E, out, deg, T, v, {})
  {
  }

  lemma QueuedIsReady(E: set<(nat, nat)>, out: seq<nat>, deg: seq<nat>, topo: seq<nat>, u: nat)
    requires Counting(E, out, deg, Elems(topo), u, {}) && Ready(E, topo) && u in out
    ensures Ready(E, topo + [u])
  {
    assert Waiting(E, u, Elems(topo)) == 0;
    assert Sources(E, u) - Elems(topo) == {};
    forall x | x in Sources(E, u) ensures x in Elems(topo) {
      assert x !in Sources(E, u) - Elems(topo);
    }
    var t := topo + [u];
    forall k | 0 <= k < |t| ensures Sources(E, t[k]) <= Elems(t[..k]) {
      if k < |topo| {
        assert t[..k] == topo[..k];
      } else {
        assert t[..k] == topo;
      }
    }
  }

  /** When the queue runs dry in a DAG, everything has been listed. */
  lemma NobodyWaits(E: set<(nat, nat)>, topo: seq<nat>, deg: seq<nat>, u: nat)
    requires Acyclic(E) && Counting(E, topo, deg, Elems(topo), u, {})
    requires forall e :: e in E ==> e.0 < |deg| && e.1 < |deg|
    ensures Elems(topo) == Below(|deg|)
  {
    hide Waiting, Sources, Reach;
    var rest := Below(|deg|) - Elems(topo);
    forall x: nat | x in topo ensures x in Below(|deg|) { }
    forall x: nat | x in Below(|deg|) ensures x in Elems(topo) {
      if x in rest {
        var m := HasSource(rest, E, x);
        var p := StillWaiting(E, topo, deg, u, m);
      }
    }
  }

  lemma StillWaiting(E: set<(nat, nat)>, topo: seq<nat>, deg: seq<nat>, u: nat, m: nat) returns (p: nat)
    requires Counting(E, topo, deg, Elems(topo), u, {}) && m < |deg| && m !in topo
    requires forall e :: e in E ==> e.0 < |deg| && e.1 < |deg|
    ensures (p, m) in E && p !in topo && p < |deg|
  {
    assert Waiting(E, m, Elems(topo)) != 0;
    p :| p in Sources(E, m) - Elems(topo);
    NotAnEdge(E, p, m);
    assert (p, m).0 < |deg|;
  }

  /** A list in which every node follows its predecessors is a schedule. */
  lemma ReadySchedule(E: set<(nat, nat)>, topo: seq<nat>, n: nat)
    requires Ready(E, topo) && NoDup(topo) && Elems(topo) == Below(n)
    ensures Schedule(topo, Below(n), E)
  {
    forall i, j | 0 <= i <= j < |topo| ensures (topo[j], topo[i]) !in E {
      if (topo[j], topo[i]) in E {
        NotAnEdge(E, topo[j], topo[i]);
      }
    }
  }

  /** The nodes that depend on nothing. */
  method Roots(indeg: seq<nat>, ghost E: set<(nat, nat)>) returns (queue: seq<nat>)
    requires forall w: nat :: w < |indeg| ==> indeg[w] == |Sources(E, w)|
    ensures Counting(E, queue, indeg, {}, 0, {})
  {
    queue := [];
    for i := 0 to |indeg|
      invariant NoDup(queue) && forall w: nat :: w in queue <==> w < i && indeg[w] == 0
    {
      if indeg[i] == 0 {
        NoDupSnoc(queue, i);
        queue := queue + [i];
      }
    }
    forall w: nat | w < |indeg| ensures indeg[w] == Waiting(E, w, {}) {
      assert Sources(E, w) - {} == Sources(E, w);
    }
  }

  /** The last of the queue, moved to the front of it. */
  lemma Moved(topo: seq<nat>, queue: seq<nat>)
    requires queue != [] && NoDup(topo + queue)
    ensures var b := topo + [queue[|queue| - 1]] + queue[..|queue| - 1];
            NoDup(b) && |b| == |topo + queue| && forall w :: w in b <==> w in topo + queue
    ensures queue[|queue| - 1] !in topo
  {
    var x, rest := queue[|queue| - 1], queue[..|queue| - 1];
    var a, b := topo + queue, topo + [x] + rest;
    assert queue == rest + [x] && a == topo + rest + [x];
    forall i | 0 <= i < |topo| ensures topo[i] != x {
      assert a[i] == topo[i] && a[|a| - 1] == x;
    }
    forall i, j | 0 <= i < j < |b| ensures b[i] != b[j] {
      var p, q := MovedFrom(i, |topo|, |a|), MovedFrom(j, |topo|, |a|);
      assert b[i] == a[p] && b[j] == a[q];
    }
  }

  /** Where the element at `i` came from when the last of `n` was moved to `m`. */
  ghost function MovedFrom(i: nat, m: nat, n: nat): (p: nat)
    requires m < n && i < n
    ensures p < n && (i < m ==> p == i) && (i == m ==> p == n - 1) && (i > m ==> p == i - 1)
  {
    if i < m then i else if i == m then n - 1 else i - 1
  }

  lemma Reorder(E: set<(nat, nat)>, topo: seq<nat>, queue: seq<nat>, deg: seq<nat>, T: set<nat>, u: nat)
    requires queue != [] && Counting(E, topo + queue, deg, T, u, {})
    ensures var x := queue[|queue| - 1];
            Counting(E, topo + [x] + queue[..|queue| - 1], deg, T, u, {}) && x in topo + queue && x !in topo &&
                x < |deg|
  {
    hide NoDup, Waiting;
    Moved(topo, queue);
    var x := queue[|queue| - 1];
    assert (topo + queue)[|topo| + |queue| - 1] == x;
    SameCounting(E, topo + queue, topo + [x] + queue[..|queue| - 1], deg, T, u);
  }

  lemma SameCounting(E: set<(nat, nat)>, a: seq<nat>, b: seq<nat>, deg: seq<nat>, T: set<nat>, u: nat)
    requires Counting(E, a, deg, T, u, {}) && NoDup(b) && forall w :: w in b <==> w in a
    ensures Counting(E, b, deg, T, u, {})
  {
  }

  /** One node leaves the queue; the successors that waited only for it join. */
  method Release(succ: seq<seq<nat>>, u: nat, topo: seq<nat>, queue: seq<nat>, deg: seq<nat>, ghost E: set<(nat, nat)>,
                 ghost T: set<nat>)
    returns (queue': seq<nat>, deg': seq<nat>)
    requires Spells(succ, E) && |deg| == |succ| && u < |succ| && NoDup(succ[u]) && u !in T
    requires Counting(E, topo + queue, deg, T, u, {})
    ensures |deg'| == |deg| && Counting(E, topo + queue', deg', T + {u}, u, {})
  {
    queue', deg' := queue, deg;
    hide Counting;
    assert Elems(succ[u][..0]) == {};
    for m := 0 to |succ[u]|
      invariant |deg'| == |deg| && Counting(E, topo + queue', deg', T, u, Elems(succ[u][..m]))
    {
      var w := succ[u][m];
      SuccessorNumber(succ, E, u, m);
      ElemsPrefix(succ[u], m);
      NotAnEdge(E, u, w);
      CountDown(E, topo + queue', deg', T, u, Elems(succ[u][..m]), w);
      assert topo + queue' + [w] == topo + (queue' + [w]);
      deg' := deg'[w := deg'[w] - 1];
      if deg'[w] == 0 {
        queue' := queue' + [w];
      }
    }
    AllSuccessors(succ, E, u);
    RoundOver(E, topo + queue', deg', T, u);
  }

  lemma CountedNodes(E: set<(nat, nat)>, out: seq<nat>, deg: seq<nat>, u: nat)
    requires Counting(E, out, deg, {}, 0, {})
    ensures Counting(E, out, deg, {}, u, {})
  {
  }

  lemma SpellsBounds(succ: seq<seq<nat>>, E: set<(nat, nat)>)
    requires Spells(succ, E)
    ensures forall e :: e in E ==> e.0 < |succ| && e.1 < |succ|
  {
  }

  /** The whole order: every node once, after everything it depends on. */
  method Kahn(succ: seq<seq<nat>>, indeg: seq<nat>, ghost E: set<(nat, nat)>) returns (topo: seq<nat>)
    requires Spells(succ, E) && Acyclic(E) && |indeg| == |succ| && forall i :: 0 <= i < |succ| ==> NoDup(succ[i])
    requires forall w: nat :: w < |indeg| ==> indeg[w] == |Sources(E, w)|
    ensures Schedule(topo, Below(|succ|), E)
  {
    var queue := Roots(indeg, E);
    var deg := indeg;
    topo := [];
    ghost var last := 0;
    assert topo + queue == queue && Elems(topo) == {};
    CountedNodes(E, topo + queue, deg, last);
    SpellsBounds(succ, E);
    hide Counting, Ready, Spells, Acyclic, Schedule;
    while queue != []
      invariant |deg| == |succ| && Ready(E, topo) && Counting(E, topo + queue, deg, Elems(topo), last, {})
      invariant NoDup(topo)
      decreases Below(|succ|) - Elems(topo)
    {
      var u := queue[|queue| - 1];
      Reorder(E, topo, queue, deg, Elems(topo), last);
      NoDupSnoc(topo, u);
      RoundStart(E, topo + [u] + queue[..|queue| - 1], deg, Elems(topo), last, u);
      QueuedIsReady(E, topo + [u] + queue[..|queue| - 1], deg, topo, u);
      assert Elems(topo + [u]) == Elems(topo) + {u} && u !in Elems(topo);
      queue, deg := Release(succ, u, topo + [u], queue[..|queue| - 1], deg, E, Elems(topo));
      topo, last := topo + [u], u;
    }
    assert topo + queue == topo;
    NobodyWaits(E, topo, deg, last);
    ReadySchedule(E, topo, |succ|);
  }
}
