/** The node loop of the command-graph copy-fuse pass on sets of neighbours: absorbed nodes keep theirs and are
    visited again. */
module TwinRuns {
  import opened CommandGraphs
  import opened Copies
  import opened Digraphs
  import opened TwinEdges

  /** Every node's neighbours, as its own lists name them, whether it is still linked (`live`) or absorbed; the
      linear copies; and for every node the copies of the original graph its copy stands for. */
  datatype Pool<V> = Pool(live: set<V>, edges: set<(V, V)>, succs: map<V, set<V>>, preds: map<V, set<V>>,
                          copies: map<V, LinearCopy>, held: map<V, set<V>>)

  /** The nodes left are linked by the edges left, and an absorbed node is named by none of its neighbours. */
  ghost predicate Sound<V>(g: Pool<V>, N: set<V>) {
    && g.live <= N && g.succs.Keys == g.preds.Keys == g.held.Keys == N && g.copies.Keys <= N
    && Acyclic(g.edges) && Within(g.edges, g.live)
    && (forall x :: x in g.live ==> g.succs[x] == Targets(g.edges, x) && g.preds[x] == Sources(g.edges, x))
    && (forall x :: x in N ==> g.succs[x] <= N && g.preds[x] <= N && x !in g.succs[x] && x !in g.preds[x])
    && (forall p, x :: p in N && p !in g.live && x in N && x in g.succs[p] ==> p !in g.preds[x])
  }

  /** What the fusion test sees. */
  ghost predicate Fires<V>(g: Pool<V>, u: V, v: V) {
    && u in g.succs && v in g.succs && u in g.preds && v in g.preds && u in g.copies && v in g.copies && u != v
    && g.succs[u] == g.succs[v] && g.preds[u] == g.preds[v] && Fusable(g.copies[u], g.copies[v])
  }

  /** `u` absorbs `v`: the neighbours of `v` forget it, its own lists stay. */
  ghost function Taken<V>(g: Pool<V>, u: V, v: V): Pool<V>
    requires Fires(g, u, v) && u in g.held && v in g.held
  {
    Pool(g.live - {v}, Without(g.edges, v),
         (map x | x in g.succs :: if x in g.preds[v] then g.succs[x] - {v} else g.succs[x]),
         (map x | x in g.preds :: if x in g.succs[v] then g.preds[x] - {v} else g.preds[x]),
         g.copies[u := Fused(g.copies[u], g.copies[v])], g.held[u := g.held[u] + g.held[v]])
  }

  lemma TakenParts<V>(g: Pool<V>, u: V, v: V)
    requires Fires(g, u, v) && u in g.held && v in g.held
    ensures var h := Taken(g, u, v);
            && h.live == g.live - {v} && h.edges == Without(g.edges, v)
            && u in g.copies && v in g.copies && h.copies == g.copies[u := Fused(g.copies[u], g.copies[v])]
            && h.copies.Keys == g.copies.Keys
  {
  }

  lemma TakenLists<V>(g: Pool<V>, u: V, v: V, x: V)
    requires Fires(g, u, v) && u in g.held && v in g.held
    ensures var h := Taken(g, u, v);
            && (x in g.succs <==> x in h.succs) && (x in g.preds <==> x in h.preds)
            && (x in g.succs ==> h.succs[x] == if x in g.preds[v] then g.succs[x] - {v} else g.succs[x])
            && (x in g.preds ==> h.preds[x] == if x in g.succs[v] then g.preds[x] - {v} else g.preds[x])
  {
  }

  lemma FiresKeys<V>(g: Pool<V>, u: V, v: V)
    requires Fires(g, u, v)
    ensures u in g.succs && v in g.succs && u in g.copies && v in g.copies && u != v
  {
  }

  lemma TakenNeighbours<V>(g: Pool<V>, N: set<V>, u: V, v: V, x: V)
    requires Sound(g, N) && Fires(g, u, v) && v in g.live && x in g.live && x != v
    ensures Taken(g, u, v).succs[x] == Targets(Without(g.edges, v), x)
    ensures Taken(g, u, v).preds[x] == Sources(Without(g.edges, v), x)
  {
    WithoutNeighbours(g.edges, v, x);
    NotAnEdge(g.edges, x, v);
    NotAnEdge(g.edges, v, x);
  }

  lemma TakenKeys<V>(g: Pool<V>, u: V, v: V)
    requires Fires(g, u, v) && u in g.held && v in g.held
    ensures var h := Taken(g, u, v);
            h.succs.Keys == g.succs.Keys && h.preds.Keys == g.preds.Keys && h.held.Keys == g.held.Keys
  {
    hide Fusable, Fused, Without;
  }

  lemma SoundKeys<V>(g: Pool<V>, N: set<V>)
    requires Sound(g, N)
    ensures g.live <= N && g.succs.Keys == g.preds.Keys == g.held.Keys == N && g.copies.Keys <= N
    ensures Acyclic(g.edges) && Within(g.edges, g.live)
  {
  }

  lemma SoundIs<V>(g: Pool<V>, N: set<V>)
    requires g.live <= N && g.succs.Keys == g.preds.Keys == g.held.Keys == N && g.copies.Keys <= N
    requires Acyclic(g.edges) && Within(g.edges, g.live)
    requires forall x :: x in g.live ==> g.succs[x] == Targets(g.edges, x) && g.preds[x] == Sources(g.edges, x)
    requires forall x :: x in N ==> g.succs[x] <= N && g.preds[x] <= N && x !in g.succs[x] && x !in g.preds[x]
    requires forall p, x :: p in N && p !in g.live && x in N && x in g.succs[p] ==> p !in g.preds[x]
    ensures Sound(g, N)
  {
    hide Acyclic, Within, Targets, Sources;
  }

  lemma StaysInside<V>(g: Pool<V>, N: set<V>, u: V, v: V, x: V)
    requires Sound(g, N) && Fires(g, u, v) && u in g.held && v in g.held && x in N
    ensures var h := Taken(g, u, v);
            && x in h.succs && h.succs[x] <= N && x !in h.succs[x]
            && x in h.preds && h.preds[x] <= N && x !in h.preds[x]
  {
    hide Taken, Fires, Acyclic, Within, Targets, Sources;
    TakenLists(g, u, v, x);
  }

  lemma TakenSound<V>(g: Pool<V>, N: set<V>, u: V, v: V)
    requires Sound(g, N) && Fires(g, u, v) && v in g.live
    ensures Sound(Taken(g, u, v), N)
  {
    FiresKeys(g, u, v);
    SoundKeys(g, N);
    hide *;
    var h := Taken(g, u, v);
    TakenParts(g, u, v);
    TakenKeys(g, u, v);
    AcyclicSubset(Without(g.edges, v), g.edges) by { WithoutSubset(g.edges, v); }
    WithoutWithin(g.edges, g.live, v);
    forall x | x in h.live ensures h.succs[x] == Targets(h.edges, x) && h.preds[x] == Sources(h.edges, x) {
      TakenNeighbours(g, N, u, v, x);
    }
    forall x | x in N
      ensures h.succs[x] <= N && h.preds[x] <= N && x !in h.succs[x] && x !in h.preds[x]
    {
      StaysInside(g, N, u, v, x);
    }
    forall p, x | p in N && p !in h.live && x in N && x in h.succs[p] ensures p !in h.preds[x] {
      StillForgotten(g, N, u, v, p, x);
    }
    SoundIs(h, N);
  }

  lemma WithoutSubset<V>(E: set<(V, V)>, v: V)
    ensures Without(E, v) <= E
  {
  }

  lemma StillForgotten<V>(g: Pool<V>, N: set<V>, u: V, v: V, p: V, x: V)
    requires Sound(g, N) && Fires(g, u, v) && v in g.live && u in g.held && v in g.held && p in N && x in N
    ensures var h := Taken(g, u, v);
            p in h.succs && x in h.preds && (p !in g.live - {v} && x in h.succs[p] ==> p !in h.preds[x])
  {
    hide Taken, Fires, Acyclic, Within, Targets, Sources;
    TakenLists(g, u, v, p);
    TakenLists(g, u, v, x);
    NotAnEdge(g.edges, v, x);
  }

  lemma WithoutWithin<V>(E: set<(V, V)>, L: set<V>, v: V)
    requires Within(E, L)
    ensures Within(Without(E, v), L - {v})
  {
  }

  /** What an absorbed node can still fuse with is linked: an absorbed neighbour names only nodes that do not
      name it back. */
  lemma OnlyLive<V>(g: Pool<V>, N: set<V>, u: V, p: V, v: V)
    requires Sound(g, N) && u in N && p in g.preds[u] && v in g.succs[p]
    ensures p in N && v in N && (g.preds[u] == g.preds[v] ==> v in g.live)
  {
    if p in g.live {
      NotAnEdge(g.edges, p, v);
    }
  }

  // ------------------------------------------------------------ who holds which copy

  /** A linked node stands for itself, no copy is held twice by linked nodes, and what is gone was absorbed. */
  ghost predicate Holding<V>(g: Pool<V>, N: set<V>) {
    && g.held.Keys == N && HeldApart(g.live, g.held, N) && HoldsCopies(g.held, g.copies.Keys, N)
    && forall x :: x in N && x !in g.live ==> HeldElsewhere(g.held, N, x)
  }

  ghost predicate HeldApart<V>(live: set<V>, held: map<V, set<V>>, N: set<V>)
    requires held.Keys == N
  {
    && (forall w :: w in live && w in N ==> w in held[w])
    && forall w, y :: w in live && w in N && y in live && y in N && w != y ==> held[w] !! held[y]
  }

  ghost predicate HoldsCopies<V>(held: map<V, set<V>>, C: set<V>, N: set<V>)
    requires held.Keys == N
  {
    forall w, x :: w in N && x in held[w] && x != w ==> x in C && w in C
  }

  ghost predicate HeldElsewhere<V>(held: map<V, set<V>>, N: set<V>, x: V) {
    exists w :: w in N && w != x && w in held && x in held[w]
  }

  lemma StaysApart<V>(live: set<V>, held: map<V, set<V>>, N: set<V>, u: V, v: V)
    requires held.Keys == N && HeldApart(live, held, N) && u in N && v in N && v in live && u != v
    ensures HeldApart(live - {v}, held[u := held[u] + held[v]], N)
  {
    var more := held[u := held[u] + held[v]];
    forall w, y | w in live - {v} && w in N && y in live - {v} && y in N && w != y ensures more[w] !! more[y] {
      assert held[w] !! held[y] && held[v] !! held[w] && held[v] !! held[y];
    }
  }

  lemma StillCopies<V>(held: map<V, set<V>>, C: set<V>, N: set<V>, u: V, v: V)
    requires held.Keys == N && HoldsCopies(held, C, N) && u in N && v in N && u in C && v in C
    ensures HoldsCopies(held[u := held[u] + held[v]], C, N)
  {
    var more := held[u := held[u] + held[v]];
    forall w, x | w in N && x in more[w] && x != w ensures x in C && w in C {
      if x in held[w] {
        assert x in C && w in C;
      } else {
        assert w == u && x in held[v] && (x == v || x in C);
      }
    }
  }

  lemma TakenHolding<V>(g: Pool<V>, N: set<V>, u: V, v: V)
    requires Holding(g, N) && g.live <= N && Fires(g, u, v) && v in g.live && u in N
    ensures Holding(Taken(g, u, v), N)
  {
    var h := Taken(g, u, v);
    hide Fusable, Fused, Without, HeldElsewhere, HoldsCopies;
    assert u != v && u in g.copies && v in g.copies && v in N && v in g.held[v];
    assert h.live == g.live - {v} && h.held == g.held[u := g.held[u] + g.held[v]] && h.copies.Keys == g.copies.Keys;
    hide Fires, Taken, HeldApart;
    StaysApart(g.live, g.held, N, u, v);
    StillCopies(g.held, g.copies.Keys, N, u, v);
    forall x | x in N && x !in h.live ensures HeldElsewhere(h.held, N, x) {
      StillHeld(g.held, N, u, v, x);
    }
  }

  /** What an absorbed node stood for is still held by another. */
  lemma StillHeld<V>(held: map<V, set<V>>, N: set<V>, u: V, v: V, x: V)
    requires held.Keys == N && u in N && v in N && u != v && v in held[v]
    requires x == v || HeldElsewhere(held, N, x)
    ensures HeldElsewhere(held[u := held[u] + held[v]], N, x)
  {
    var more := held[u := held[u] + held[v]];
    if x == v {
      assert x in more[u];
    } else {
      var w :| w in N && w != x && w in held && x in held[w];
      assert x in more[w];
    }
  }

  ghost predicate InRanges<V>(c: map<V, LinearCopy>) {
    forall u :: u in c ==> InRange(c[u])
  }

  ghost predicate MovedBy<V>(c: map<V, LinearCopy>, S: set<V>, s: int, d: int) {
    exists x :: x in S && x in c && LinearMoves(c[x], s, d)
  }

  /** Every node's copy moves exactly the bytes of the original copies it stands for. */
  ghost predicate Meaning<V>(g: Pool<V>, c: map<V, LinearCopy>) {
    g.copies.Keys <= g.held.Keys &&
    forall w, s, d :: w in g.copies ==> (LinearMoves(g.copies[w], s, d) <==> MovedBy(c, g.held[w], s, d))
  }

  lemma TakenMeaning<V>(g: Pool<V>, c: map<V, LinearCopy>, u: V, v: V)
    requires Meaning(g, c) && InRanges(g.copies) && Fires(g, u, v) && u in g.held && v in g.held
    ensures Meaning(Taken(g, u, v), c) && InRanges(Taken(g, u, v).copies)
  {
    var h := Taken(g, u, v);
    FusedFields(g.copies[u], g.copies[v]);
    hide Fusable, Fused, Without, InRange, LinearMoves;
    forall w, s, d | w in h.copies ensures LinearMoves(h.copies[w], s, d) <==> MovedBy(c, h.held[w], s, d) {
      if w == u {
        FusedMoves(g.copies[u], g.copies[v], s, d);
        MovedByBoth(c, g.held[u], g.held[v], s, d);
      }
    }
  }

  lemma MovedByBoth<V>(c: map<V, LinearCopy>, S: set<V>, T: set<V>, s: int, d: int)
    ensures MovedBy(c, S + T, s, d) <==> MovedBy(c, S, s, d) || MovedBy(c, T, s, d)
  {
    if MovedBy(c, S, s, d) {
      var x :| x in S && x in c && LinearMoves(c[x], s, d);
      assert x in S + T;
    }
    if MovedBy(c, T, s, d) {
      var x :| x in T && x in c && LinearMoves(c[x], s, d);
      assert x in S + T;
    }
  }

  /** No linked node holds the copy `x` any more. */
  ghost predicate Lost<V>(g: Pool<V>, x: V) {
    forall w :: w in g.live && w in g.held ==> x !in g.held[w]
  }

  ghost predicate SomeLost<V>(g: Pool<V>, C: set<V>) {
    exists x :: x in C && Lost(g, x)
  }

  lemma StaysLost<V>(g: Pool<V>, C: set<V>, u: V, v: V)
    requires SomeLost(g, C) && Fires(g, u, v) && v in g.live && u in g.held && v in g.held
    ensures SomeLost(Taken(g, u, v), C)
  {
    var x :| x in C && Lost(g, x);
    assert Lost(Taken(g, u, v), x);
  }

  /** What an absorbed node absorbs is lost. */
  lemma AbsorbedLoses<V>(g: Pool<V>, N: set<V>, C: set<V>, u: V, v: V)
    requires Holding(g, N) && Fires(g, u, v) && u in N && u !in g.live && v in g.live && v in N && v in C
    ensures SomeLost(Taken(g, u, v), C)
  {
    var h := Taken(g, u, v);
    forall w | w in h.live && w in h.held ensures v !in h.held[w] {
      assert v in g.held[v] && g.held[w] !! g.held[v];
    }
    assert Lost(h, v);
  }

  // ------------------------------------------------------------ while only linked nodes have absorbed

  /** Nothing linked is left for the linked nodes visited so far to absorb. */
  ghost predicate Settled<V>(g: Pool<V>, vec: seq<V>, i: nat)
    requires i <= |vec|
  {
    forall k: nat, w :: k < i && vec[k] in g.live && w in g.live ==> !Fires(g, vec[k], w)
  }

  /** Some absorbed node still to be visited can absorb a linked one. */
  ghost predicate Pending<V>(g: Pool<V>, vec: seq<V>, i: nat)
    requires i <= |vec|
  {
    exists j: nat, a :: i <= j < |vec| && vec[j] !in g.live && a in g.live && Fires(g, vec[j], a)
  }

  /** Absorbed nodes name neighbours on both sides. */
  ghost predicate Between<V>(g: Pool<V>, N: set<V>) {
    && g.succs.Keys == g.preds.Keys == N
    && forall x :: x in N && x !in g.live ==> g.succs[x] != {} && g.preds[x] != {}
  }

  ghost predicate Unlost<V>(g: Pool<V>, N: set<V>, s: V, t: V, vec: seq<V>, i: nat)
    requires i <= |vec|
  {
    && Coherent(g.live, g.edges, s, t) && Between(g, N)
    && Settled(g, vec, i) && (g.live == N || Pending(g, vec, i))
  }

  /** An inner node, linked or absorbed, has neighbours on both sides, unlike the ends. */
  lemma InnerBetween<V>(g: Pool<V>, N: set<V>, s: V, t: V, u: V)
    requires Sound(g, N) && Coherent(g.live, g.edges, s, t) && Between(g, N)
    ensures u in N - {s, t} ==> g.succs[u] != {} && g.preds[u] != {}
    ensures g.preds[s] == {} && g.succs[t] == {}
  {
    hide Acyclic;
  }

  lemma FiresIsTwins<V>(g: Pool<V>, N: set<V>, u: V, v: V)
    requires Sound(g, N) && u in g.live && v in g.live
    ensures Fires(g, u, v) <==> (u in g.copies && v in g.copies && u != v && FalseTwins(g.edges, u, v)
                                 && Fusable(g.copies[u], g.copies[v]))
  {
  }

  lemma SettledTaken<V>(g: Pool<V>, N: set<V>, vec: seq<V>, i: nat, u: V, v: V)
    requires Sound(g, N) && i <= |vec| && Settled(g, vec, i) && InRanges(g.copies)
    requires Fires(g, u, v) && u in g.live && v in g.live
    ensures Settled(Taken(g, u, v), vec, i)
  {
    var h := Taken(g, u, v);
    assert Sound(h, N) by { TakenSound(g, N, u, v); }
    assert h.live == g.live - {v};
    hide Sound, Fires, Taken, InRanges;
    forall k: nat, w | k < i && vec[k] in h.live && w in h.live ensures !Fires(h, vec[k], w) {
      SettledAt(g, N, vec[k], w, u, v);
    }
  }

  lemma CopiesTouch<V>(c: map<V, LinearCopy>, u: V, v: V, x: V, w: V)
    requires u in c && v in c && x in c && w in c && InRanges(c) && Fusable(c[u], c[v]) && x != u
    requires var d := c[u := Fused(c[u], c[v])]; Fusable(d[x], d[w])
    ensures Fusable(c[x], c[w]) || (w == u && Fusable(c[x], c[v]))
  {
    hide Fused, Fusable, InRange;
    if w == u {
      TouchedOne(c[x], c[u], c[v]);
    }
  }

  /** A linked node with nothing to absorb still has none after a fusion elsewhere. */
  lemma SettledAt<V>(g: Pool<V>, N: set<V>, x: V, w: V, u: V, v: V)
    requires Sound(g, N) && InRanges(g.copies) && Fires(g, u, v) && u in g.live && v in g.live
    requires x in g.live && w in g.live && x != v && w != v
    requires !Fires(g, x, w) && !Fires(g, x, v)
    ensures !Fires(Taken(g, u, v), x, w)
  {
    var h := Taken(g, u, v);
    if Fires(h, x, w) {
      hide *;
      TakenSound(g, N, u, v);
      TakenParts(g, u, v);
      FiresIsTwins(h, N, x, w);
      FiresIsTwins(g, N, x, w);
      FiresIsTwins(g, N, u, v);
      FiresIsTwins(g, N, x, v);
      TwinsKept(g.edges, u, v, x, w);
      TwinsPass(g.edges, u, v, x);
      CopiesTouch(g.copies, u, v, x, w);
    }
  }

  lemma TwinsPass<V>(E: set<(V, V)>, u: V, v: V, x: V)
    ensures FalseTwins(E, u, v) && FalseTwins(E, x, u) ==> FalseTwins(E, x, v)
  {
  }

  /** A linked node absorbs a twin that has not been visited yet, which will be able to absorb it back. */
  lemma LiveTaken<V>(g: Pool<V>, N: set<V>, s: V, t: V, vec: seq<V>, i: nat, v: V)
    requires Sound(g, N) && i < |vec| && Unlost(g, N, s, t, vec, i) && InRanges(g.copies)
    requires Elems(vec) == N - {s, t} && vec[i] in g.live && v in g.live && Fires(g, vec[i], v)
    ensures Unlost(Taken(g, vec[i], v), N, s, t, vec, i)
  {
    var u, h := vec[i], Taken(g, vec[i], v);
    assert u in Elems(vec);
    hide Sound, Coherent, Between, Settled, Pending, Fires, Taken, Within;
    TwinInner(g, N, s, t, u, v);
    LiveBetween(g, N, s, t, u, v);
    SettledTaken(g, N, vec, i, u, v);
    LivePending(g, N, vec, i, v);
  }

  lemma TwinInner<V>(g: Pool<V>, N: set<V>, s: V, t: V, u: V, v: V)
    requires Sound(g, N) && Coherent(g.live, g.edges, s, t) && Between(g, N)
    requires u in N - {s, t} && v in g.live && Fires(g, u, v)
    ensures v in N - {s, t}
  {
    InnerBetween(g, N, s, t, u);
    hide Acyclic, Fusable, Coherent;
  }

  lemma LiveBetween<V>(g: Pool<V>, N: set<V>, s: V, t: V, u: V, v: V)
    requires Sound(g, N) && Coherent(g.live, g.edges, s, t) && Between(g, N)
    requires u in g.live && v in g.live - {s, t} && v in N - {s, t} && Fires(g, u, v)
    ensures Coherent(Taken(g, u, v).live, Taken(g, u, v).edges, s, t) && Between(Taken(g, u, v), N)
  {
    hide *;
    InnerBetween(g, N, s, t, v);
    FiresIsTwins(g, N, u, v);
    NamedByLive(g, N, v, u);
    NamedByLive(g, N, u, v);
    TakenParts(g, u, v);
    AbsorbCoherent(g.live, g.edges, s, t, u, v);
    StillBetween(g, N, u, v);
  }

  lemma StillBetween<V>(g: Pool<V>, N: set<V>, u: V, v: V)
    requires Sound(g, N) && Between(g, N) && v in g.live && u in g.held && Fires(g, u, v)
    requires g.succs[v] != {} && g.preds[v] != {}
    ensures Between(Taken(g, u, v), N)
  {
    var h := Taken(g, u, v);
    TakenParts(g, u, v);
    TakenKeys(g, u, v);
    hide Sound, Taken, Fires;
    forall x | x in N && x !in h.live ensures h.succs[x] != {} && h.preds[x] != {} {
      TakenLists(g, u, v, x);
      NamedByLive(g, N, x, v);
    }
  }

  /** What names a linked node on the opposite side is linked. */
  lemma NamedByLive<V>(g: Pool<V>, N: set<V>, x: V, v: V)
    requires Sound(g, N) && v in g.live
    ensures v in g.preds && v in g.succs && v in g.held
    ensures (x in g.preds[v] || x in g.succs[v] ==> x in g.live) && v !in g.preds[v] && v !in g.succs[v]
  {
    NotAnEdge(g.edges, x, v);
    NotAnEdge(g.edges, v, x);
  }

  lemma LivePending<V>(g: Pool<V>, N: set<V>, vec: seq<V>, i: nat, v: V)
    requires Sound(g, N) && i < |vec| && Settled(g, vec, i) && InRanges(g.copies)
    requires vec[i] in g.live && v in g.live && v in Elems(vec) && Fires(g, vec[i], v)
    ensures Pending(Taken(g, vec[i], v), vec, i)
  {
    var u, h := vec[i], Taken(g, vec[i], v);
    var j: nat :| j < |vec| && vec[j] == v;
    NamedByLive(g, N, u, v);
    FiresBack(g, u, v);
    FiresBoth(g, u, v);
    assert h.live == g.live - {v};
    hide Sound, Taken, Fires;
    assert i <= j;
    assert Fires(h, vec[j], u);
  }

  lemma FiresBoth<V>(g: Pool<V>, u: V, v: V)
    requires Fires(g, u, v)
    ensures Fires(g, v, u) && u != v
  {
  }

  lemma FiresBack<V>(g: Pool<V>, u: V, v: V)
    requires Fires(g, u, v) && InRanges(g.copies) && u in g.held && v in g.held
    requires v !in g.succs[v] && v !in g.preds[v]
    ensures Fires(Taken(g, u, v), v, u)
  {
    StillTouches(g.copies[u], g.copies[v]);
    hide Fused, Fusable;
  }

  // ------------------------------------------------------------ a visit

  /** `u` has nothing to absorb. */
  ghost predicate Exhausted<V>(g: Pool<V>, u: V) {
    forall p, v :: u in g.preds && p in g.preds[u] && p in g.succs && v in g.succs[p] ==> !Fires(g, u, v)
  }

  /** A linked twin is found through any predecessor. */
  lemma TwinFound<V>(g: Pool<V>, N: set<V>, s: V, t: V, u: V, v: V)
    requires Sound(g, N) && Coherent(g.live, g.edges, s, t) && Between(g, N)
    requires u in N - {s, t} && v in g.live && Exhausted(g, u)
    ensures !Fires(g, u, v)
  {
    InnerBetween(g, N, s, t, u);
    var p :| p in g.preds[u];
    hide Acyclic, Coherent, Fusable, Between;
    NotAnEdge(g.edges, p, v);
    assert g.preds[u] == g.preds[v] ==> p in g.live && v in g.succs[p];
  }

  lemma VisitDone<V>(g: Pool<V>, N: set<V>, s: V, t: V, vec: seq<V>, i: nat)
    requires Sound(g, N) && i < |vec| && Unlost(g, N, s, t, vec, i) && Elems(vec) == N - {s, t}
    requires Exhausted(g, vec[i])
    ensures Unlost(g, N, s, t, vec, i + 1)
  {
    assert vec[i] in Elems(vec);
    hide Sound, Coherent, Between, Exhausted, Fires, Elems, Settled, Pending;
    forall w | w in g.live ensures !Fires(g, vec[i], w) {
      TwinFound(g, N, s, t, vec[i], w);
    }
    SettledMore(g, vec, i);
    PendingMore(g, vec, i);
  }

  lemma SettledMore<V>(g: Pool<V>, vec: seq<V>, i: nat)
    requires i < |vec| && Settled(g, vec, i) && forall w :: w in g.live ==> !Fires(g, vec[i], w)
    ensures Settled(g, vec, i + 1)
  {
    hide Fires;
  }

  lemma PendingMore<V>(g: Pool<V>, vec: seq<V>, i: nat)
    requires i < |vec| && forall w :: w in g.live ==> !Fires(g, vec[i], w)
    ensures Pending(g, vec, i) ==> Pending(g, vec, i + 1)
  {
    hide Fires;
    if Pending(g, vec, i) {
      var j: nat, a :| i <= j < |vec| && vec[j] !in g.live && a in g.live && Fires(g, vec[j], a);
      assert j != i;
    }
  }

  // ------------------------------------------------------------ a run

  /** The graph before the pass: every node linked and holding its own copy. */
  ghost function Initial<V>(N: set<V>, E: set<(V, V)>, c: map<V, LinearCopy>): Pool<V> {
    Pool(N, E, (map x | x in N :: Targets(E, x)), (map x | x in N :: Sources(E, x)), c, map x | x in N :: {x})
  }

  /** Two different copies in `I` that are false twins and touch. */
  ghost predicate HasTwins<V>(I: set<V>, E: set<(V, V)>, c: map<V, LinearCopy>) {
    exists u, v :: u in I && v in I && u != v && u in c && v in c && FalseTwins(E, u, v) && Fusable(c[u], c[v])
  }

  /** What holds between two fusions of the visit to `vec[i]`: `lost` says that an absorbed node has absorbed. */
  ghost predicate Going<V>(g: Pool<V>, N: set<V>, E: set<(V, V)>, c: map<V, LinearCopy>, s: V, t: V, vec: seq<V>,
                           i: nat, lost: bool)
    requires i <= |vec|
  {
    && Sound(g, N) && Holding(g, N) && g.copies.Keys == c.Keys
    && (g == Initial(N, E, c) || (g.live != N && HasTwins(N - {s, t}, E, c)))
    && (InRanges(c) ==> InRanges(g.copies) && Meaning(g, c) && (lost ==> SomeLost(g, c.Keys - {s, t}))
                        && (!lost ==> Unlost(g, N, s, t, vec, i)))
  }

  lemma InitialSound<V>(N: set<V>, E: set<(V, V)>, c: map<V, LinearCopy>, s: V, t: V, vec: seq<V>)
    requires Coherent(N, E, s, t) && c.Keys <= N
    ensures Sound(Initial(N, E, c), N)
  {
    hide Acyclic, Targets, Sources;
    forall x ensures Targets(E, x) <= N && Sources(E, x) <= N && x !in Targets(E, x) && x !in Sources(E, x) {
      NoSelfLoop(E, x);
      NotAnEdge(E, x, x);
      forall y | y in Targets(E, x) ensures y in N { NotAnEdge(E, x, y); }
      forall y | y in Sources(E, x) ensures y in N { NotAnEdge(E, y, x); }
    }
  }

  lemma InitialMeaning<V>(N: set<V>, E: set<(V, V)>, c: map<V, LinearCopy>)
    requires c.Keys <= N
    ensures Holding(Initial(N, E, c), N) && Meaning(Initial(N, E, c), c)
  {
    var g := Initial(N, E, c);
    forall w, s, d | w in g.copies ensures LinearMoves(g.copies[w], s, d) <==> MovedBy(c, g.held[w], s, d) {
      assert w in g.held[w];
    }
  }

  lemma Start<V>(N: set<V>, E: set<(V, V)>, c: map<V, LinearCopy>, s: V, t: V, vec: seq<V>)
    requires Coherent(N, E, s, t) && c.Keys <= N
    ensures Going(Initial(N, E, c), N, E, c, s, t, vec, 0, false)
  {
    hide Sound, Holding, Meaning, Coherent, InRanges, Fires;
    InitialSound(N, E, c, s, t, vec);
    InitialMeaning(N, E, c);
  }

  lemma InitialParts<V>(N: set<V>, E: set<(V, V)>, c: map<V, LinearCopy>)
    ensures var g := Initial(N, E, c);
            g.live == N && g.edges == E && g.copies == c && g.succs.Keys == N && Between(g, N)
  {
  }

  lemma FiresInitially<V>(N: set<V>, E: set<(V, V)>, c: map<V, LinearCopy>, s: V, t: V, u: V, v: V)
    requires Coherent(N, E, s, t) && c.Keys <= N && u in N - {s, t} && Fires(Initial(N, E, c), u, v)
    ensures HasTwins(N - {s, t}, E, c)
  {
    hide Initial, Sound, Coherent, Between, Fusable, Fires, FalseTwins;
    var g := Initial(N, E, c);
    InitialParts(N, E, c);
    FiresKeys(g, u, v);
    InitialSound(N, E, c, s, t, []);
    TwinInner(g, N, s, t, u, v);
    FiresIsTwins(g, N, u, v);
  }

  /** A fusion in the visit to `vec[i]`. */
  lemma Absorbed<V>(g: Pool<V>, N: set<V>, E: set<(V, V)>, c: map<V, LinearCopy>, s: V, t: V, vec: seq<V>, i: nat,
                    lost: bool, v: V)
    requires Coherent(N, E, s, t) && c.Keys <= N && i < |vec| && Elems(vec) == N - {s, t}
    requires Going(g, N, E, c, s, t, vec, i, lost) && Fires(g, vec[i], v) && v in g.live && v in g.held &&
                                                            vec[i] in g.held
    ensures Going(Taken(g, vec[i], v), N, E, c, s, t, vec, i, lost || vec[i] !in g.live)
  {
    hide Sound, Holding, Meaning, InRanges, Unlost, SomeLost, Fires, Taken, Initial, HasTwins, Coherent;
    var u := vec[i];
    assert u in Elems(vec);
    TakenParts(g, u, v);
    TakenSound(g, N, u, v);
    LiveIn(g, N);
    TakenHolding(g, N, u, v);
    if g == Initial(N, E, c) {
      FiresInitially(N, E, c, s, t, u, v);
    }
    if InRanges(c) {
      TakenMeaning(g, c, u, v);
      if lost {
        StaysLost(g, c.Keys - {s, t}, u, v);
      } else if u in g.live {
        LiveTaken(g, N, s, t, vec, i, v);
      } else {
        DeadTaken(g, N, c, s, t, vec, i, u, v);
      }
    }
  }

  lemma LiveIn<V>(g: Pool<V>, N: set<V>)
    requires Sound(g, N)
    ensures g.live <= N
  {
  }

  lemma DeadTaken<V>(g: Pool<V>, N: set<V>, c: map<V, LinearCopy>, s: V, t: V, vec: seq<V>, i: nat, u: V, v: V)
    requires Sound(g, N) && Holding(g, N) && i <= |vec| && Unlost(g, N, s, t, vec, i) && g.copies.Keys == c.Keys
    requires u in N - {s, t} && u !in g.live && v in g.live && Fires(g, u, v)
    ensures SomeLost(Taken(g, u, v), c.Keys - {s, t})
  {
    hide Sound, Holding, Coherent, Between, Settled, Pending, SomeLost, Taken, Fusable;
    TwinInner(g, N, s, t, u, v);
    AbsorbedLoses(g, N, c.Keys - {s, t}, u, v);
  }

  lemma Visited<V>(g: Pool<V>, N: set<V>, E: set<(V, V)>, c: map<V, LinearCopy>, s: V, t: V, vec: seq<V>, i: nat,
                   lost: bool)
    requires i < |vec| && Elems(vec) == N - {s, t} && Going(g, N, E, c, s, t, vec, i, lost) && Exhausted(g, vec[i])
    ensures Going(g, N, E, c, s, t, vec, i + 1, lost)
  {
    hide Sound, Holding, Meaning, InRanges, Unlost, SomeLost, Initial, HasTwins, Exhausted;
    if InRanges(c) && !lost {
      VisitDone(g, N, s, t, vec, i);
    }
  }

  /** Every copy is still held by a linked node. */
  ghost predicate AllHeld<V>(g: Pool<V>, C: set<V>) {
    forall x :: x in C ==> exists w :: w in g.live && w in g.held && x in g.held[w]
  }

  /** After the last visit the pass has either done nothing or lost a copy. */
  lemma AllOrNothing<V>(g: Pool<V>, N: set<V>, E: set<(V, V)>, c: map<V, LinearCopy>, s: V, t: V, vec: seq<V>,
                        lost: bool)
    requires Coherent(N, E, s, t) && c.Keys <= N && Elems(vec) == N - {s, t}
    requires Going(g, N, E, c, s, t, vec, |vec|, lost)
    ensures !HasTwins(N - {s, t}, E, c) ==> g == Initial(N, E, c) && AllHeld(g, c.Keys - {s, t})
    ensures InRanges(c) && HasTwins(N - {s, t}, E, c) ==> !AllHeld(g, c.Keys - {s, t})
  {
    hide Sound, Holding, Coherent, HasTwins, InRanges, Meaning, SomeLost, Unlost;
    if !HasTwins(N - {s, t}, E, c) {
      forall x | x in c.Keys - {s, t} ensures exists w :: w in g.live && w in g.held && x in g.held[w] {
        assert x in g.held[x];
      }
    } else if InRanges(c) {
      if lost {
        LostNotHeld(g, c.Keys - {s, t});
      } else {
        TwinsBringLoss(g, N, E, c, s, t, vec);
      }
    }
  }

  lemma LostNotHeld<V>(g: Pool<V>, C: set<V>)
    requires SomeLost(g, C)
    ensures !AllHeld(g, C)
  {
  }

  predicate Different<V(==)>(a: V, b: V, c: V, d: V) {
    a != b && a != c && a != d && b != c && b != d && c != d
  }

  lemma GoneIsCopy<V>(g: Pool<V>, N: set<V>, x: V)
    requires Holding(g, N) && x in N && x !in g.live
    ensures x in g.copies
  {
    HeldByOther(g, N, x);
    hide Holding;
    var w :| w in N && w != x && w in g.held && x in g.held[w];
    HolderIsCopy(g, N, w, x);
  }

  lemma LostHolder<V>(g: Pool<V>, N: set<V>, x: V) returns (w: V)
    requires Holding(g, N) && x in N && Lost(g, x)
    ensures x !in g.live && w in N && w != x && w !in g.live && w in g.copies
  {
    LostIsGone(g, N, x);
    HeldByOther(g, N, x);
    hide Holding;
    w :| w in N && w != x && w in g.held && x in g.held[w];
    HolderIsCopy(g, N, w, x);
  }

  lemma LostIsGone<V>(g: Pool<V>, N: set<V>, x: V)
    requires Holding(g, N) && x in N && Lost(g, x)
    ensures x !in g.live
  {
    hide Holding;
    if x in g.live {
      HoldsItself(g, N, x);
    }
  }

  lemma HoldsItself<V>(g: Pool<V>, N: set<V>, x: V)
    requires Holding(g, N) && x in N && x in g.live
    ensures x in g.held && x in g.held[x]
  {
    hide HeldElsewhere;
  }

  lemma HeldByOther<V>(g: Pool<V>, N: set<V>, x: V)
    requires Holding(g, N) && x in N && x !in g.live
    ensures HeldElsewhere(g.held, N, x)
  {
    hide HeldElsewhere;
  }

  lemma HolderIsCopy<V>(g: Pool<V>, N: set<V>, w: V, x: V)
    requires Holding(g, N) && w in N && w != x && w in g.held && x in g.held[w]
    ensures w in g.copies && x in g.copies
  {
    hide HeldElsewhere;
  }

  /** Two twins between the ends: if one is lost, both are. */
  lemma BothLost<V>(g: Pool<V>, s: V, t: V, u: V, v: V)
    requires Different(s, t, u, v) && Holding(g, {s, t, u, v}) && g.live <= {s, t, u, v} && g.copies.Keys == {u, v}
    requires !AllHeld(g, {u, v})
    ensures g.live == {s, t}
  {
    var x :| x in {u, v} && !exists w :: w in g.live && w in g.held && x in g.held[w];
    assert Lost(g, x);
    var w := LostHolder(g, {s, t, u, v}, x);
    hide Holding;
    assert s in g.live by { if s !in g.live { GoneIsCopy(g, {s, t, u, v}, s); } }
    assert t in g.live by { if t !in g.live { GoneIsCopy(g, {s, t, u, v}, t); } }
  }

  /** With twins in the graph an absorbed node must have absorbed. */
  lemma TwinsBringLoss<V>(g: Pool<V>, N: set<V>, E: set<(V, V)>, c: map<V, LinearCopy>, s: V, t: V, vec: seq<V>)
    requires Elems(vec) == N - {s, t} && (g == Initial(N, E, c) || g.live != N) && Unlost(g, N, s, t, vec, |vec|)
    ensures !HasTwins(N - {s, t}, E, c)
  {
    hide Coherent, Fusable, Between, FalseTwins;
    assert g == Initial(N, E, c);
    forall u, v | u in N - {s, t} && v in N - {s, t} && u != v && u in c && v in c && FalseTwins(E, u, v)
      ensures !Fusable(c[u], c[v])
    {
      assert u in Elems(vec);
      var k: nat :| k < |vec| && vec[k] == u;
      assert !Fires(g, vec[k], v);
      TwinNeighbours(E, u, v);
    }
  }

  lemma TwinNeighbours<V>(E: set<(V, V)>, u: V, v: V)
    requires FalseTwins(E, u, v)
    ensures Targets(E, u) == Targets(E, v) && Sources(E, u) == Sources(E, v)
  {
  }
}
