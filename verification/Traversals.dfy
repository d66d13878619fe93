/** Orders a depth-first walk lists the nodes of a graph in. */
module Traversals {
  import opened Digraphs

  /** Every node after the first comes after one of its predecessors. */
  ghost predicate HasParents<V>(E: set<(V, V)>, out: seq<V>) {
    forall i :: 0 < i < |out| ==> HasParent(E, out, i)
  }

  ghost predicate HasParent<V>(E: set<(V, V)>, out: seq<V>, i: nat)
    requires i < |out|
  {
    exists j :: 0 <= j < i && (out[j], out[i]) in E
  }

  /** Every successor of a listed node comes earlier, or belongs to `done`. */
  ghost predicate ChildrenFirst<V>(E: set<(V, V)>, out: seq<V>, done: set<V>) {
    forall i, e :: 0 <= i < |out| && e in E && e.0 == out[i] ==> e.1 in out[..i] || e.1 in done
  }

  lemma ConcatAssoc<V>(a: seq<V>, b: seq<V>, c: seq<V>)
    ensures a + b + c == a + (b + c)
  {
  }

  lemma NoDupJoin<V>(a: seq<V>, b: seq<V>, S: set<V>)
    requires NoDup(a) && NoDup(b) && Elems(a) !! S && Elems(b) !! S + Elems(a)
    ensures NoDup(a + b) && Elems(a + b) == Elems(a) + Elems(b) && Elems(a + b) !! S
  {
    NoDupConcat(a, b);
  }

  lemma ElemsPrefix<V>(s: seq<V>, k: nat)
    requires NoDup(s) && k < |s|
    ensures s[k] !in Elems(s[..k]) && Elems(s[..k + 1]) == Elems(s[..k]) + {s[k]}
  {
    assert s[..k + 1] == s[..k] + [s[k]];
  }

  lemma AfterEdge<V>(E: set<(V, V)>, u: V, v: V, sub: seq<V>)
    requires (u, v) in E && forall x :: x in sub ==> Reach(E, v, x)
    ensures forall x :: x in sub ==> Before(E, u, x)
  {
    ReachEdge(E, u, v);
    forall x | x in sub ensures Before(E, u, x) {
      BeforeTrans(E, u, v, x);
    }
  }

  lemma NotAfterSelf<V>(E: set<(V, V)>, u: V, kids: seq<V>)
    requires Acyclic(E) && forall x :: x in kids ==> Before(E, u, x)
    ensures u !in kids && (u, u) !in E
  {
    if u in kids {
      AcyclicStrict(E, u, u);
    }
    if (u, u) in E {
      ReachEdge(E, u, u);
      AcyclicStrict(E, u, u);
    }
  }

  lemma HasParentsConcat<V>(E: set<(V, V)>, out: seq<V>, sub: seq<V>)
    requires HasParents(E, out) && HasParents(E, sub) && out != [] && sub != []
    requires (out[0], sub[0]) in E
    ensures HasParents(E, out + sub)
  {
    var all := out + sub;
    forall i | 0 < i < |all| ensures HasParent(E, all, i) {
      if i < |out| {
        assert HasParent(E, out, i);
        var j :| 0 <= j < i && (out[j], out[i]) in E;
        assert (all[j], all[i]) in E;
      } else if i == |out| {
        assert (all[0], all[i]) in E;
      } else {
        assert HasParent(E, sub, i - |out|);
        var j :| 0 <= j < i - |out| && (sub[j], sub[i - |out|]) in E;
        assert (all[|out| + j], all[i]) in E;
      }
    }
  }

  lemma ChildrenFirstConcat<V>(E: set<(V, V)>, kids: seq<V>, sub: seq<V>, done: set<V>, before: set<V>, node: V)
    requires ChildrenFirst(E, kids, done) && ChildrenFirst(E, sub, before)
    requires forall u :: u in before ==> u in done || u in kids || u == node
    requires Acyclic(E) && forall u :: u in sub ==> Before(E, node, u)
    ensures ChildrenFirst(E, kids + sub, done)
  {
    var all := kids + sub;
    forall i, e | 0 <= i < |all| && e in E && e.0 == all[i] ensures e.1 in all[..i] || e.1 in done {
      if i < |kids| {
        assert all[..i] == kids[..i];
      } else {
        var k := i - |kids|;
        assert all[i] == sub[k] && all[..i] == kids + sub[..k];
        AcyclicStrict(E, node, sub[k]);
        ReachEdge(E, e.0, e.1);
      }
    }
  }

  lemma ChildrenFirstEnd<V>(E: set<(V, V)>, kids: seq<V>, done: set<V>, node: V)
    requires forall e :: e in E && e.0 == node ==> e.1 != node && e.1 in done + {node} + Elems(kids)
    ensures ChildrenFirst(E, kids, done) ==> ChildrenFirst(E, kids + [node], done)
  {
    if ChildrenFirst(E, kids, done) {
      var all := kids + [node];
      forall i, e | 0 <= i < |all| && e in E && e.0 == all[i] ensures e.1 in all[..i] || e.1 in done {
        assert all[..i] == kids[..i];
        if i == |kids| {
          assert all[..i] == kids;
        }
      }
    }
  }

  datatype WalkOrder = Pre | Post

  /** `out` is what a depth-first walk from `node` lists when the nodes `done` were marked before. */
  ghost predicate Walked<V>(E: set<(V, V)>, node: V, order: WalkOrder, done: set<V>, out: seq<V>) {
    && node in out && NoDup(out) && Elems(out) !! done
    && (forall u :: u in out ==> Reach(E, node, u))
    && (forall e :: e in E && e.0 in out ==> e.1 in done + Elems(out))
    && (order == Pre ==> out[0] == node && HasParents(E, out))
    && (order == Post ==> ChildrenFirst(E, out, done))
  }

  /** `kids` is what the walks from some successors of `node` have listed so far. */
  ghost predicate Walking<V>(E: set<(V, V)>, node: V, order: WalkOrder, done: set<V>, kids: seq<V>) {
    && NoDup(kids) && Elems(kids) !! done + {node}
    && (forall u :: u in kids ==> Before(E, node, u))
    && (forall e :: e in E && e.0 in kids ==> e.1 in done + {node} + Elems(kids))
    && (order == Pre ==> HasParents(E, [node] + kids))
    && (order == Post ==> ChildrenFirst(E, kids, done))
  }

  lemma WalkStart<V>(E: set<(V, V)>, node: V, order: WalkOrder, done: set<V>)
    ensures Walking(E, node, order, done, [])
  {
  }

  lemma WalkStep<V>(E: set<(V, V)>, node: V, order: WalkOrder, done: set<V>, kids: seq<V>, succ: V, sub: seq<V>)
    requires Acyclic(E) && (node, succ) in E
    requires Walking(E, node, order, done, kids)
    requires Walked(E, succ, order, done + {node} + Elems(kids), sub)
    ensures Walking(E, node, order, done, kids + sub)
    ensures [node] + kids + sub == [node] + (kids + sub)
    ensures Elems(kids + sub) == Elems(kids) + Elems(sub) && succ in kids + sub
  {
    NoDupJoin(kids, sub, done + {node});
    AfterEdge(E, node, succ, sub);
    if order == Post {
      ChildrenFirstConcat(E, kids, sub, done, done + {node} + Elems(kids), node);
    } else {
      HasParentsConcat(E, [node] + kids, sub);
      ConcatAssoc([node], kids, sub);
    }
  }

  lemma WalkEnd<V>(E: set<(V, V)>, node: V, order: WalkOrder, done: set<V>, kids: seq<V>)
    requires Acyclic(E) && node !in done && Walking(E, node, order, done, kids)
    requires forall e :: e in E && e.0 == node ==> e.1 in done + {node} + Elems(kids)
    ensures var out := if order == Pre then [node] + kids else kids + [node];
            Walked(E, node, order, done, out) && Elems(out) == {node} + Elems(kids)
  {
    NotAfterSelf(E, node, kids);
    forall u | u in kids ensures Reach(E, node, u) {
      ReachCases(E, node, u);
    }
    ReachSelf(E, node);
    NoDupConcat([node], kids);
    NoDupConcat(kids, [node]);
    ChildrenFirstEnd(E, kids, done, node);
  }

  lemma BfsStart<V>(E: set<(V, V)>, node: V)
    ensures NoDup([node]) && HasParents(E, [node]) && Reach(E, node, node) && [] + [node] == [node]
  {
    ReachSelf(E, node);
  }

  lemma QueueHead<V>(out: seq<V>, q: seq<V>)
    requires q != []
    ensures out + [q[0]] + q[1..] == out + q
    ensures NoDup(out + q) ==> q[0] !in out
  {
    if NoDup(out + q) {
      forall i | 0 <= i < |out| ensures out[i] != q[0] {
        assert (out + q)[i] == out[i] && (out + q)[|out|] == q[0];
      }
    }
  }

  lemma BfsStep<V>(E: set<(V, V)>, node: V, out: seq<V>, q: seq<V>, u: V, succ: V)
    requires NoDup(out + q) && HasParents(E, out + q) && Reach(E, node, u)
    requires u in out && (u, succ) in E && succ !in out + q
    ensures out + (q + [succ]) == out + q + [succ]
    ensures NoDup(out + (q + [succ])) && HasParents(E, out + (q + [succ])) && Reach(E, node, succ)
    ensures Elems(out + (q + [succ])) == Elems(out + q) + {succ}
  {
    var a, b := out + q, out + (q + [succ]);
    ConcatAssoc(out, q, [succ]);
    ReachEdge(E, u, succ);
    ReachTrans(E, node, u, succ);
    forall i | 0 < i < |b| ensures HasParent(E, b, i) {
      if i < |a| {
        assert HasParent(E, a, i);
        var j :| 0 <= j < i && (a[j], a[i]) in E;
        assert (b[j], b[i]) in E;
      } else {
        var j :| 0 <= j < |out| && out[j] == u;
        assert (b[j], b[i]) in E;
      }
    }
  }
}
