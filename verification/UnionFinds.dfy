/** Union-find with path halving: the parent links change under `Find`, the partition does not. */
module UnionFinds {

  /** Element `i` sits in a tree whose root is `cls[i]`; `rank` grows along every parent link. */
  ghost predicate Placed(parent: seq<nat>, cls: seq<nat>, rank: seq<nat>, i: nat)
    requires |parent| == |cls| == |rank| && i < |parent|
  {
    && parent[i] < |parent| && cls[i] < |parent|
    && (parent[i] == i <==> cls[i] == i)
    && cls[parent[i]] == cls[i] && cls[cls[i]] == cls[i]
    && rank[i] <= rank[cls[i]]
    && (parent[i] != i ==> rank[i] < rank[parent[i]])
  }

  ghost predicate Forest(parent: seq<nat>, cls: seq<nat>, rank: seq<nat>) {
    && |parent| == |cls| == |rank|
    && forall i: nat :: i < |parent| ==> Placed(parent, cls, rank, i)
  }

  lemma Halved(parent: seq<nat>, cls: seq<nat>, rank: seq<nat>, x: nat)
    requires Forest(parent, cls, rank) && x < |parent| && parent[x] != x
    ensures parent[x] < |parent| && parent[parent[x]] < |parent| && cls[x] < |parent|
    ensures Forest(parent[x := parent[parent[x]]], cls, rank)
    ensures cls[parent[parent[x]]] == cls[x] && rank[x] < rank[parent[parent[x]]] <= rank[cls[x]]
  {
    var p := parent[x];
    assert Placed(parent, cls, rank, x) && Placed(parent, cls, rank, p) && Placed(parent, cls, rank, parent[p]);
    var h := parent[x := parent[p]];
    forall i: nat | i < |h| ensures Placed(h, cls, rank, i) {
      assert Placed(parent, cls, rank, i);
    }
  }

  ghost function United(cls: seq<nat>, a: nat, b: nat): (s: seq<nat>)
    requires a < |cls| && b < |cls|
    ensures |s| == |cls|
  {
    seq(|cls|, i requires 0 <= i < |cls| => if cls[i] == cls[a] then cls[b] else cls[i])
  }

  /** The ranks after tree `a` is hung under root `b`. */
  ghost function Lifted(cls: seq<nat>, rank: seq<nat>, a: nat, b: nat): (s: seq<nat>)
    requires |rank| == |cls| && a < |cls|
    ensures |s| == |cls|
  {
    seq(|cls|, i requires 0 <= i < |cls| => if cls[i] == b then rank[i] + rank[a] + 1 else rank[i])
  }

  lemma Hung(parent: seq<nat>, cls: seq<nat>, rank: seq<nat>, a: nat, b: nat)
    requires Forest(parent, cls, rank) && a < |parent| && b < |parent| && cls[a] == a && cls[b] == b && a != b
    ensures Forest(parent[a := b], United(cls, a, b), Lifted(cls, rank, a, b))
  {
    var p, c, k := parent[a := b], United(cls, a, b), Lifted(cls, rank, a, b);
    forall i: nat | i < |p| ensures Placed(p, c, k, i) {
      assert Placed(parent, cls, rank, i) && Placed(parent, cls, rank, a) && Placed(parent, cls, rank, b);
    }
  }

  class UnionFind {
    var parent: seq<nat>
    ghost var cls: seq<nat>
    ghost var rank: seq<nat>

    ghost predicate Valid()
      reads this
    {
      Forest(parent, cls, rank)
    }

    constructor (n: nat)
      ensures Valid() && |cls| == n && forall i :: 0 <= i < n ==> cls[i] == i
    {
      parent := seq(n, i => i);
      cls, rank := seq(n, i => i), seq(n, i => 0);
    }

    /** The root of `x`, halving the path on the way. */
    method Find(x: nat) returns (r: nat)
      requires Valid() && x < |cls|
      modifies `parent
      ensures Valid() && r == cls[x]
    {
      hide Forest;
      r := x;
      Rooted(x);
      while parent[r] != r
        invariant Valid() && r < |parent| == |cls| == |rank| && cls[r] == cls[x] && cls[x] < |rank| &&
            rank[r] <= rank[cls[x]]
        decreases rank[cls[x]] - rank[r]
      {
        Halved(parent, cls, rank, r);
        parent := parent[r := parent[parent[r]]];
        Rooted(r);
        r := parent[r];
      }
      Rooted(r);
    }

    lemma Rooted(x: nat)
      requires Valid() && x < |cls|
      ensures |parent| == |cls| == |rank| && parent[x] < |cls| && cls[x] < |cls| && cls[cls[x]] == cls[x] &&
          rank[x] <= rank[cls[x]]
      ensures cls[x] == x <==> parent[x] == x
    {
      assert Placed(parent, cls, rank, x);
    }

    /** Merge the classes of `a` and `b` under the root of `b`. */
    method Unite(a: nat, b: nat)
      requires Valid() && a < |cls| && b < |cls|
      modifies `parent, `cls, `rank
      ensures Valid() && cls == United(old(cls), a, b)
    {
      hide Forest;
      Rooted(a);
      Rooted(b);
      var ra := Find(a);
      var rb := Find(b);
      Rooted(a);
      if ra != rb {
        Hung(parent, cls, rank, ra, rb);
        parent := parent[ra := rb];
        rank := Lifted(cls, rank, ra, rb);
        cls := United(cls, ra, rb);
      }
    }
  }
}
