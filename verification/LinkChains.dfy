/** Maximal chains of links: how pass_sequence's single scan finds them all. */
module LinkChains {
  import opened Chains
  import opened CommandGraphs
  import opened Digraphs
  import opened Traversals

  /** A sequence edge: a series of two candidates on one device. */
  ghost predicate IsLink(E: set<(Node, Node)>, cands: set<Node>, u: Node, v: Node) {
    u in cands && v in cands && u.device == v.device && Series(E, u, v)
  }

  ghost predicate LinkChain(E: set<(Node, Node)>, cands: set<Node>, c: seq<Node>) {
    && c != [] && NoDup(c)
    && forall k :: 0 <= k < |c| - 1 ==> IsLink(E, cands, c[k], c[k + 1])
  }

  /** A chain of at least two nodes that no link extends at either end. */
  ghost predicate MaximalChain(E: set<(Node, Node)>, cands: set<Node>, c: seq<Node>) {
    && |c| >= 2 && LinkChain(E, cands, c)
    && (forall w :: w in cands ==> !IsLink(E, cands, w, c[0]))
    && (forall w :: w in cands ==> !IsLink(E, cands, c[|c| - 1], w))
  }

  lemma LinkChainIsChain(E: set<(Node, Node)>, cands: set<Node>, c: seq<Node>)
    requires LinkChain(E, cands, c)
    ensures IsChain(E, c)
    ensures |c| >= 2 ==> Elems(c) <= cands
    ensures forall x :: x in c ==> x.device == c[0].device
  {
    forall k | 0 <= k < |c| - 1 ensures Series(E, c[k], c[k + 1]) {
      assert IsLink(E, cands, c[k], c[k + 1]);
    }
    if |c| >= 2 {
      forall k | 0 <= k < |c| ensures c[k] in cands {
        if k < |c| - 1 { assert IsLink(E, cands, c[k], c[k + 1]); } else { assert IsLink(E, cands, c[k - 1],
            c[k - 1 + 1]); }
      }
    }
    SameDevice(E, cands, c, |c| - 1);
  }

  lemma {:induction false} SameDevice(E: set<(Node, Node)>, cands: set<Node>, c: seq<Node>, k: nat)
    requires LinkChain(E, cands, c) && k < |c|
    ensures forall j :: 0 <= j <= k ==> c[j].device == c[0].device
  {
    if k > 0 {
      SameDevice(E, cands, c, k - 1);
      assert IsLink(E, cands, c[k - 1], c[k - 1 + 1]);
    }
  }

  lemma SameSeries<V>(E: set<(V, V)>, u: V, v: V, w: V)
    ensures Series(E, u, v) && Series(E, u, w) ==> v == w
    ensures Series(E, u, w) && Series(E, v, w) ==> u == v
  {
    if Series(E, u, v) && Series(E, u, w) {
      assert v in {w};
    }
    if Series(E, u, w) && Series(E, v, w) {
      assert u in {v};
    }
  }

  /** Links never lead out of a maximal chain, in either direction. */
  lemma MaximalClosed(E: set<(Node, Node)>, cands: set<Node>, c: seq<Node>, x: Node, y: Node)
    requires MaximalChain(E, cands, c) && x in c
    ensures IsLink(E, cands, x, y) ==> y in c
    ensures IsLink(E, cands, y, x) ==> y in c
  {
    var k := IndexOf(c, x);
    if IsLink(E, cands, x, y) {
      assert k < |c| - 1;
      assert IsLink(E, cands, c[k], c[k + 1]);
      SameSeries(E, x, y, c[k + 1]);
    }
    if IsLink(E, cands, y, x) {
      assert k > 0;
      assert IsLink(E, cands, c[k - 1], c[k - 1 + 1]);
      SameSeries(E, y, c[k - 1], x);
    }
  }

  /** Maximal chains that share a node share their head. */
  lemma {:induction false} MaximalShare(E: set<(Node, Node)>, cands: set<Node>, c: seq<Node>, d: seq<Node>, i: nat)
    requires MaximalChain(E, cands, c) && MaximalChain(E, cands, d) && i < |c| && c[i] in d
    ensures c[0] in d
    decreases i
  {
    if i > 0 {
      assert IsLink(E, cands, c[i - 1], c[i - 1 + 1]);
      MaximalClosed(E, cands, d, c[i], c[i - 1]);
      MaximalShare(E, cands, c, d, i - 1);
    }
  }

  // ---------------------------------------------------------------- the scan

  ghost function Members(found: seq<seq<Node>>): set<Node> {
    set c, x | c in found && x in c :: x
  }

  /** After `seen` nodes of the scan: `found` are maximal chains of the original graph `E0`, every link
      out of a node already seen lies in one of them, a found chain is contracted whole or not at all,
      and the nodes still at the top level are linked as they were. */
  ghost predicate Scanned(N0: set<Node>, E0: set<(Node, Node)>, cands: set<Node>, seen: seq<Node>,
                          found: seq<seq<Node>>, N: set<Node>, E: set<(Node, Node)>)
  {
    && (forall c :: c in found ==> MaximalChain(E0, cands, c))
    && (forall a, b :: 0 <= a < b < |found| ==> Elems(found[a]) !! Elems(found[b]))
    && (forall w, x :: w in seen && x in cands && IsLink(E0, cands, w, x) ==> w in Members(found))
    && N0 - N <= Members(found)
    && (forall c :: c in found ==> Elems(c) <= N || Elems(c) !! N)
    && (forall u, v :: u in N0 && u in N && v in N0 && v in N ==> (IsLink(E, cands, u, v) <==> IsLink(E0, cands, u, v)))
  }

  /** Links of the original graph never lead from a live node to a contracted one. */
  lemma LinkStays(N0: set<Node>, E0: set<(Node, Node)>, cands: set<Node>, seen: seq<Node>, found: seq<seq<Node>>,
                  N: set<Node>, E: set<(Node, Node)>, u: Node, x: Node)
    requires Scanned(N0, E0, cands, seen, found, N, E) && u in N && x in N0
    requires IsLink(E0, cands, u, x) || IsLink(E0, cands, x, u)
    ensures x in N
  {
    if x !in N {
      assert x in N0 - N && x in Members(found);
      var c :| c in found && x in c;
      assert x in Elems(c);
      assert u !in Elems(c);
      MaximalClosed(E0, cands, c, x, u);
    }
  }

  /** A chain that the scan collects from a node no found chain holds is maximal in the original graph. */
  lemma CollectedMaximal(N0: set<Node>, E0: set<(Node, Node)>, cands: set<Node>, vec: seq<Node>, i: nat,
                         found: seq<seq<Node>>, N: set<Node>, E: set<(Node, Node)>, c: seq<Node>)
    requires i < |vec| && Scanned(N0, E0, cands, vec[..i], found, N, E)
    requires HasParents(E0, vec) && vec != [] && vec[0] !in cands && cands <= N0
    requires |c| >= 2 && c[0] == vec[i] && vec[i] !in Members(found) && LinkChain(E, cands, c) && Elems(c) <= N
    requires forall x :: x in cands && x in N ==> !IsLink(E, cands, c[|c| - 1], x)
    ensures MaximalChain(E0, cands, c)
    ensures forall d :: d in found ==> Elems(d) !! Elems(c)
  {
    LinkChainIsChain(E, cands, c);
    var last := c[|c| - 1];
    assert forall k :: 0 <= k < |c| ==> c[k] in Elems(c);
    forall k | 0 <= k < |c| - 1 ensures IsLink(E0, cands, c[k], c[k + 1]) {
      assert IsLink(E, cands, c[k], c[k + 1]);
    }
    forall x | x in cands ensures !IsLink(E0, cands, last, x) {
      if IsLink(E0, cands, last, x) {
        LinkStays(N0, E0, cands, vec[..i], found, N, E, last, x);
      }
    }
    forall w | w in cands ensures !IsLink(E0, cands, w, c[0]) {
      if IsLink(E0, cands, w, c[0]) {
        NoLinkIntoHead(N0, E0, cands, vec, i, found, N, E, w);
      }
    }
    forall d | d in found ensures Elems(d) !! Elems(c) {
      forall x | x in Elems(c) ensures x !in Elems(d) {
        if x in d {
          MaximalShare(E0, cands, c, d, IndexOf(c, x));
        }
      }
    }
  }

  /** Pre-order lists a node after one of its predecessors, so a link into `vec[i]` was seen before. */
  lemma NoLinkIntoHead(N0: set<Node>, E0: set<(Node, Node)>, cands: set<Node>, vec: seq<Node>, i: nat,
                       found: seq<seq<Node>>, N: set<Node>, E: set<(Node, Node)>, w: Node)
    requires i < |vec| && Scanned(N0, E0, cands, vec[..i], found, N, E)
    requires HasParents(E0, vec) && vec[0] !in cands
    requires IsLink(E0, cands, w, vec[i])
    ensures vec[i] in Members(found)
  {
    assert HasParent(E0, vec, i);
    var j :| 0 <= j < i && (vec[j], vec[i]) in E0;
    SeriesEdge(E0, w, vec[i]);
    assert vec[j] == (vec[j], vec[i]).0 == w;
    assert w in vec[..i];
    var c :| c in found && w in c;
    MaximalClosed(E0, cands, c, w, vec[i]);
  }

  /** Skipping a node that starts no link, or that a found chain holds, loses nothing. */
  lemma ScanSkip(N0: set<Node>, E0: set<(Node, Node)>, cands: set<Node>, vec: seq<Node>, i: nat, found: seq<seq<Node>>,
                 N: set<Node>, E: set<(Node, Node)>)
    requires i < |vec| && Scanned(N0, E0, cands, vec[..i], found, N, E) && cands <= N0 && vec[i] in N0
    requires vec[i] in Members(found) || forall x :: x in cands && x in N ==> !IsLink(E, cands, vec[i], x)
    ensures Scanned(N0, E0, cands, vec[..i + 1], found, N, E)
  {
    assert vec[..i + 1] == vec[..i] + [vec[i]];
    forall x | x in cands && IsLink(E0, cands, vec[i], x) ensures vec[i] in Members(found) {
      if vec[i] !in Members(found) {
        LinkStays(N0, E0, cands, vec[..i], found, N, E, vec[i], x);
      }
    }
  }

  lemma MembersSnoc(found: seq<seq<Node>>, c: seq<Node>)
    ensures Members(found + [c]) == Members(found) + Elems(c)
  {
    forall x | x in c ensures x in Members(found + [c]) {
      assert c in found + [c];
    }
    forall d, x | d in found && x in d ensures x in Members(found + [c]) {
      assert d in found + [c];
    }
  }

  /** Recording a maximal chain, left in place. */
  lemma ScanRecord(N0: set<Node>, E0: set<(Node, Node)>, cands: set<Node>, vec: seq<Node>, i: nat,
                   found: seq<seq<Node>>, N: set<Node>, E: set<(Node, Node)>, c: seq<Node>)
    requires i < |vec| && Scanned(N0, E0, cands, vec[..i], found, N, E)
    requires MaximalChain(E0, cands, c) && c[0] == vec[i] && Elems(c) <= N
    requires forall d :: d in found ==> Elems(d) !! Elems(c)
    ensures Scanned(N0, E0, cands, vec[..i + 1], found + [c], N, E)
  {
    MembersSnoc(found, c);
    assert vec[..i + 1] == vec[..i] + [vec[i]];
    assert vec[i] in Elems(c);
  }

  /** ... or contracted into `b`. */
  lemma ScanContract(N0: set<Node>, E0: set<(Node, Node)>, cands: set<Node>, seen: seq<Node>, found: seq<seq<Node>>,
                     N: set<Node>, E: set<(Node, Node)>, c: seq<Node>, b: Node)
    requires Scanned(N0, E0, cands, seen, found, N, E)
    requires Acyclic(E) && IsChain(E, c) && (forall e :: e in E ==> e.0 != b && e.1 != b) && b !in c
    requires c in found && Elems(c) <= N && b !in N0 && b !in N && cands <= N0
    ensures Scanned(N0, E0, cands, seen, found, N - Elems(c) + {b}, Rewired(E, c, b))
  {
    var M, R := N - Elems(c) + {b}, Rewired(E, c, b);
    forall u, v | u in N0 && u in M && v in N0 && v in M
      ensures IsLink(R, cands, u, v) <==> IsLink(E0, cands, u, v)
    {
      assert u !in Elems(c) && v !in Elems(c);
      SeriesKept(E, c, b, u, v);
    }
    forall x | x in N0 - M ensures x in Members(found) {
      if x in N {
        assert x in c;
      }
    }
    forall d | d in found ensures Elems(d) <= M || Elems(d) !! M {
      if d != c {
        ChainsApart(N0, E0, cands, seen, found, N, E, c, d);
      }
      FoundOld(N0, E0, cands, seen, found, N, E, d);
    }
  }

  lemma ChainsApart(N0: set<Node>, E0: set<(Node, Node)>, cands: set<Node>, seen: seq<Node>, found: seq<seq<Node>>,
                    N: set<Node>, E: set<(Node, Node)>, c: seq<Node>, d: seq<Node>)
    requires Scanned(N0, E0, cands, seen, found, N, E) && c in found && d in found && c != d
    ensures Elems(c) !! Elems(d)
  {
    var a, b := IndexOf(found, c), IndexOf(found, d);
    if a < b {
      assert Elems(found[a]) !! Elems(found[b]);
    } else {
      assert Elems(found[b]) !! Elems(found[a]);
    }
  }

  lemma FoundOld(N0: set<Node>, E0: set<(Node, Node)>, cands: set<Node>, seen: seq<Node>, found: seq<seq<Node>>,
                 N: set<Node>, E: set<(Node, Node)>, d: seq<Node>)
    requires Scanned(N0, E0, cands, seen, found, N, E) && d in found
    ensures Elems(d) <= cands
  {
    LinkChainIsChain(E0, cands, d);
  }
}
