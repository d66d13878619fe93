/** A run of copy fusions, one absorbed twin at a time: order and final memory. */
module CopyFusions {
  import opened CommandGraphs
  import opened Copies
  import opened Digraphs
  import opened TwinEdges

  datatype Fusion<V> = Fusion(into: V, gone: V)

  /** What is left of a graph whose nodes hold commands. */
  datatype State<V> = State(nodes: set<V>, edges: set<(V, V)>, commands: map<V, Command>)

  /** Two linear copies that are false twins and touch each other. */
  ghost predicate Fits<V>(g: State<V>, f: Fusion<V>) {
    && f.into in g.nodes && f.gone in g.nodes && f.into != f.gone && g.commands.Keys == g.nodes
    && g.commands[f.into].Copy1D? && g.commands[f.gone].Copy1D?
    && Fusable(g.commands[f.into].linear, g.commands[f.gone].linear)
    && FalseTwins(g.edges, f.into, f.gone)
  }

  ghost function Absorb<V>(g: State<V>, f: Fusion<V>): State<V>
    requires Fits(g, f)
  {
    var u, v := g.commands[f.into], g.commands[f.gone];
    State(g.nodes - {f.gone}, Without(g.edges, f.gone),
          (map x | x in g.nodes - {f.gone} :: if x == f.into then Copy1D(u.direction,
              Fused(u.linear, v.linear)) else g.commands[x]))
  }

  /** Every fusion applies to what the ones before it left. */
  ghost predicate Faithful<V>(steps: seq<Fusion<V>>, g: State<V>) {
    steps != [] ==> Fits(g, steps[0]) && Faithful(steps[1..], Absorb(g, steps[0]))
  }

  ghost function Final<V>(steps: seq<Fusion<V>>, g: State<V>): State<V>
    requires Faithful(steps, g)
  {
    if steps == [] then g else Final(steps[1..], Absorb(g, steps[0]))
  }

  /** No fusion overflows, and what the absorbing copy writes the absorbed one does not read. */
  ghost predicate Safe<V>(steps: seq<Fusion<V>>, g: State<V>)
    requires Faithful(steps, g)
  {
    steps != [] ==>
      var u, v := g.commands[steps[0].into].linear, g.commands[steps[0].gone].linear;
      InRange(u) && InRange(v) && Apart(u, v) && Safe(steps[1..], Absorb(g, steps[0]))
  }

  // ------------------------------------------------------------ meaning

  /** Anything that is not a linear copy is opaque, but cannot tell equal memories apart. */
  ghost predicate Congruent<V>(other: Command -> Memory -> Memory, commands: map<V, Command>) {
    forall v, m, n :: v in commands && !commands[v].Copy1D? && SameMemory(m, n) ==>
        SameMemory(other(commands[v])(m), other(commands[v])(n))
  }

  ghost function Exec(c: Command, other: Command -> Memory -> Memory, m: Memory): Memory {
    if c.Copy1D? then Copied(c.linear, m) else other(c)(m)
  }

  ghost function Run<V>(x: seq<V>, commands: map<V, Command>, other: Command -> Memory -> Memory, m: Memory): Memory
    requires forall v :: v in x ==> v in commands
  {
    if x == [] then m else Run(x[1..], commands, other, Exec(commands[x[0]], other, m))
  }

  lemma ExecSame<V>(commands: map<V, Command>, v: V, other: Command -> Memory -> Memory, m: Memory, n: Memory)
    requires Congruent(other, commands) && v in commands && SameMemory(m, n)
    ensures SameMemory(Exec(commands[v], other, m), Exec(commands[v], other, n))
  {
    if commands[v].Copy1D? {
      var c := commands[v].linear;
      forall k: Address ensures Copied(c, m)(k) == Copied(c, n)(k) {
        SameCopied(c, m, n, k);
      }
    }
  }

  lemma {:induction false} RunSame<V>(x: seq<V>, a: map<V, Command>, b: map<V, Command>,
                                      other: Command -> Memory -> Memory, m: Memory, n: Memory)
    requires Congruent(other, a) && SameMemory(m, n)
    requires forall v :: v in x ==> v in a && v in b && a[v] == b[v]
    ensures SameMemory(Run(x, a, other, m), Run(x, b, other, n))
  {
    if x != [] {
      ExecSame(a, x[0], other, m, n);
      RunSame(x[1..], a, b, other, Exec(a[x[0]], other, m), Exec(b[x[0]], other, n));
    }
  }

  lemma {:induction false} RunConcat<V>(x: seq<V>, y: seq<V>, a: map<V, Command>, other: Command -> Memory -> Memory,
                                        m: Memory)
    requires forall v :: v in x + y ==> v in a
    ensures (forall v :: v in x ==> v in a) && (forall v :: v in y ==> v in a)
    ensures Run(x + y, a, other, m) == Run(y, a, other, Run(x, a, other, m))
  {
    forall v | v in x || v in y ensures v in a { assert v in x + y; }
    if x == [] {
      assert x + y == y;
    } else {
      assert (x + y)[1..] == x[1..] + y && (x + y)[0] == x[0];
      RunConcat(x[1..], y, a, other, Exec(a[x[0]], other, m));
    }
  }

  /** The absorbed twin, run right after the copy that absorbed it. */
  ghost function Expanded<V>(x: seq<V>, f: Fusion<V>): seq<V>
    requires f.into in x
  {
    var i := IndexOf(x, f.into);
    x[..i + 1] + [f.gone] + x[i + 1..]
  }

  lemma ExpandedSchedule<V>(g: State<V>, f: Fusion<V>, x: seq<V>)
    requires Fits(g, f) && Schedule(x, g.nodes - {f.gone}, Without(g.edges, f.gone)) && Acyclic(g.edges)
    ensures f.into in x && Schedule(Expanded(x, f), g.nodes, g.edges)
  {
    assert f.into in Elems(x) && f.gone !in Elems(x);
    var i := IndexOf(x, f.into);
    var y := Expanded(x, f);
    InsertedOnce(x, i, f.gone);
    assert g.nodes == g.nodes - {f.gone} + {f.gone};
    hide Acyclic, FalseTwins, NoDup, Fits, Without;
    forall p, q | 0 <= p <= q < |y| ensures (y[q], y[p]) !in g.edges {
      ExpandedBack(g, f, x, i, p, q);
    }
  }

  lemma InsertedOnce<V>(x: seq<V>, i: nat, v: V)
    requires NoDup(x) && v !in Elems(x) && i < |x|
    ensures var y := x[..i + 1] + [v] + x[i + 1..]; NoDup(y) && Elems(y) == Elems(x) + {v}
  {
    var a, b := x[..i + 1], x[i + 1..];
    assert x == a + b;
    forall z | z in a || z in b ensures z in Elems(x) { }
    forall p: nat, q: nat | p < |a| && q < |b| ensures a[p] != b[q] {
      assert a[p] == x[p] && b[q] == x[i + 1 + q];
    }
    NoDupConcat(a, [v]);
    NoDupConcat(a + [v], b);
  }

  lemma ExpandedBack<V>(g: State<V>, f: Fusion<V>, x: seq<V>, i: nat, p: nat, q: nat)
    requires Fits(g, f) && Respects(x, Without(g.edges, f.gone)) && f.gone !in Elems(x) && i < |x| && x[i] == f.into &&
        Acyclic(g.edges)
    requires p <= q <= |x|
    ensures var y := x[..i + 1] + [f.gone] + x[i + 1..]; (y[q], y[p]) !in g.edges
  {
    var y, W := x[..i + 1] + [f.gone] + x[i + 1..], Without(g.edges, f.gone);
    forall k | 0 <= k < |x| ensures x[k] != f.gone { assert x[k] in Elems(x); }
    NoSelfLoop(g.edges, f.gone);
    hide Acyclic, Fusable;
    if q == i + 1 {
      NotAnEdge(g.edges, f.gone, y[p]);
      NotAnEdge(g.edges, f.into, y[p]);
      if p <= i {
        assert (x[i], x[p]) !in W;
      }
    } else if p == i + 1 {
      NotAnEdge(g.edges, y[q], f.gone);
      NotAnEdge(g.edges, y[q], f.into);
      assert (x[q - 1], x[i]) !in W;
    } else {
      var a, b := if p <= i then p else p - 1, if q <= i then q else q - 1;
      assert y[q] == x[b] && y[p] == x[a];
      assert (x[b], x[a]) !in W;
    }
  }

  /** Running both twins leaves the memory the fused copy leaves. */
  lemma ExpandedRun<V>(g: State<V>, f: Fusion<V>, x: seq<V>, other: Command -> Memory -> Memory, m: Memory)
    requires Fits(g, f) && NoDup(x) && f.into in x && Congruent(other, g.commands) &&
        forall v :: v in x ==> v in g.nodes - {f.gone}
    requires var u, v := g.commands[f.into].linear, g.commands[f.gone].linear; InRange(u) && InRange(v) && Apart(u, v)
    ensures forall v :: v in Expanded(x, f) ==> v in g.commands
    ensures SameMemory(Run(Expanded(x, f), g.commands, other, m), Run(x, Absorb(g, f).commands, other, m))
  {
    var i := IndexOf(x, f.into);
    var a, b := g.commands, Absorb(g, f).commands;
    var pre, post, two := x[..i], x[i + 1..], [f.into, f.gone];
    assert Expanded(x, f) == pre + two + post && x == pre + [f.into] + post;
    forall v | v in pre || v in post ensures v in x && v != f.into {
      if v in pre { var k :| 0 <= k < i && pre[k] == v; assert x[k] == v; }
      if v in post { var k :| 0 <= k < |post| && post[k] == v; assert x[i + 1 + k] == v; }
    }
    forall v | v in pre + two + post ensures v in a { }
    RunSandwich(pre, two, post, a, other, m);
    RunSandwich(pre, [f.into], post, b, other, m);
    RunSame(pre, a, b, other, m, m);
    var m1, n1 := Run(pre, a, other, m), Run(pre, b, other, m);
    TwinsRun(g, f, other, m1, n1);
    RunSame(post, a, b, other, Run(two, a, other, m1), Run([f.into], b, other, n1));
  }

  lemma RunSandwich<V>(pre: seq<V>, mid: seq<V>, post: seq<V>, a: map<V, Command>, other: Command -> Memory -> Memory,
                       m: Memory)
    requires forall v :: v in pre + mid + post ==> v in a
    ensures (forall v :: v in pre ==> v in a) && (forall v :: v in mid ==> v in a) && (forall v :: v in post ==> v in a)
    ensures Run(pre + mid + post, a, other, m) == Run(post, a, other, Run(mid, a, other, Run(pre, a, other, m)))
  {
    RunConcat(pre + mid, post, a, other, m);
    RunConcat(pre, mid, a, other, m);
  }

  /** Both twins in a row, against the fused copy alone. */
  lemma TwinsRun<V>(g: State<V>, f: Fusion<V>, other: Command -> Memory -> Memory, m: Memory, n: Memory)
    requires Fits(g, f) && SameMemory(m, n)
    requires var u, v := g.commands[f.into].linear, g.commands[f.gone].linear; InRange(u) && InRange(v) && Apart(u, v)
    ensures SameMemory(Run([f.into, f.gone], g.commands, other, m), Run([f.into], Absorb(g, f).commands, other, n))
  {
    var u, v := g.commands[f.into].linear, g.commands[f.gone].linear;
    assert [f.into, f.gone][1..] == [f.gone] && [f.gone][1..] == [] && [f.into][1..] == [];
    assert Run([f.gone], g.commands, other, Copied(u, m)) == Copied(v, Copied(u, m));
    assert Run([f.into, f.gone], g.commands, other, m) == Copied(v, Copied(u, m));
    assert Run([f.into], Absorb(g, f).commands, other, n) == Copied(Fused(u, v), n);
    forall k: Address ensures Copied(v, Copied(u, m))(k) == Copied(Fused(u, v), n)(k) {
      FusedMemory(u, v, m, k);
      SameCopied(Fused(u, v), m, n, k);
    }
  }

  lemma SameCopied(c: LinearCopy, m: Memory, n: Memory, k: Address)
    requires SameMemory(m, n)
    ensures Copied(c, m)(k) == Copied(c, n)(k)
  {
    assert m(k) == n(k) && m(SourceOf(c, k.offset)) == n(SourceOf(c, k.offset));
  }

  /** Every execution of the fused graph is an execution of the original one, absorbed copies run next
      to the copy that absorbed them, and it leaves the same memory. */
  lemma {:induction false} Unfused<V>(steps: seq<Fusion<V>>, g: State<V>, x: seq<V>,
                                      other: Command -> Memory -> Memory, m: Memory)
    returns (y: seq<V>)
    requires Faithful(steps, g) && Safe(steps, g) && Acyclic(g.edges) && Congruent(other, g.commands) &&
        g.commands.Keys == g.nodes
    requires Schedule(x, Final(steps, g).nodes, Final(steps, g).edges)
    ensures (forall v :: v in x ==> v in Final(steps, g).commands) && (forall v :: v in y ==> v in g.commands)
    ensures Schedule(y, g.nodes, g.edges)
    ensures SameMemory(Run(y, g.commands, other, m), Run(x, Final(steps, g).commands, other, m))
  {
    if steps == [] {
      y := x;
      forall v | v in x ensures v in g.commands { assert v in Elems(x); }
    } else {
      var f, h := steps[0], Absorb(g, steps[0]);
      AcyclicSubset(h.edges, g.edges);
      var z := Unfused(steps[1..], h, x, other, m);
      ExpandedSchedule(g, f, z);
      forall v | v in z ensures v in g.nodes - {f.gone} { assert v in Elems(z); }
      ExpandedRun(g, f, z, other, m);
      y := Expanded(z, f);
    }
  }

  // ------------------------------------------------------------ separate memory

  /** Every linear copy stays in range and moves something, and writes nothing that another one reads. */
  ghost predicate Separate<V>(g: State<V>) {
    && g.commands.Keys == g.nodes
    && (forall u :: u in g.nodes && g.commands[u].Copy1D? ==>
        InRange(g.commands[u].linear) && g.commands[u].linear.size > 0)
    && (forall u, v :: u in g.nodes && v in g.nodes && u != v && g.commands[u].Copy1D? && g.commands[v].Copy1D? ==>
          Apart(g.commands[u].linear, g.commands[v].linear))
  }

  /** What is apart from both twins is apart from the copy that replaces them. */
  lemma FusedApart(u: LinearCopy, v: LinearCopy, c: LinearCopy)
    requires InRange(u) && InRange(v) && Fusable(u, v) && u.size > 0 && v.size > 0 && c.size > 0
    ensures Apart(u, c) && Apart(v, c) ==> Apart(Fused(u, v), c)
    ensures Apart(c, u) && Apart(c, v) ==> Apart(c, Fused(u, v))
  {
    FusedFields(u, v);
    SameBias(u, v);
  }

  lemma AbsorbSeparate<V>(g: State<V>, f: Fusion<V>)
    requires Separate(g) && Fits(g, f)
    ensures Separate(Absorb(g, f))
  {
    var h := Absorb(g, f);
    var u, v := g.commands[f.into].linear, g.commands[f.gone].linear;
    FusedFields(u, v);
    hide Fused, Fusable, FalseTwins, Without, Apart;
    forall x, y | x in h.nodes && y in h.nodes && x != y && h.commands[x].Copy1D? && h.commands[y].Copy1D?
      ensures Apart(h.commands[x].linear, h.commands[y].linear)
    {
      if x == f.into {
        FusedApart(u, v, g.commands[y].linear);
      } else if y == f.into {
        FusedApart(u, v, g.commands[x].linear);
      }
    }
  }

  /** Separate sources and destinations keep every step of every run of fusions safe. */
  lemma {:induction false} SeparateIsSafe<V>(steps: seq<Fusion<V>>, g: State<V>)
    requires Faithful(steps, g) && Separate(g)
    ensures Safe(steps, g)
    decreases |steps|
  {
    if steps != [] {
      AbsorbSeparate(g, steps[0]);
      SeparateIsSafe(steps[1..], Absorb(g, steps[0]));
    }
  }

  /** So copies between separate memories leave the memory the original graph leaves. */
  lemma SeparateKeepsMemory<V>(steps: seq<Fusion<V>>, g: State<V>, x: seq<V>, other: Command -> Memory -> Memory,
                               m: Memory)
    returns (y: seq<V>)
    requires Faithful(steps, g) && Separate(g) && Acyclic(g.edges) && Congruent(other, g.commands)
    requires Schedule(x, Final(steps, g).nodes, Final(steps, g).edges)
    ensures (forall v :: v in x ==> v in Final(steps, g).commands) && (forall v :: v in y ==> v in g.commands)
    ensures Schedule(y, g.nodes, g.edges)
    ensures SameMemory(Run(y, g.commands, other, m), Run(x, Final(steps, g).commands, other, m))
  {
    SeparateIsSafe(steps, g);
    y := Unfused(steps, g, x, other, m);
  }

  // ------------------------------------------------------------ order

  lemma {:induction false} TwinSteps<V>(E: set<(V, V)>, u: V, v: V, k: nat, x: V, y: V)
    requires FalseTwins(E, u, v) && Acyclic(E) && u != v && y != v && Steps(E, k, x, y)
    ensures Reach(Without(E, v), if x == v then u else x, y)
  {
    var W, x' := Without(E, v), if x == v then u else x;
    if k == 0 {
      ReachSelf(W, x');
    } else {
      var e :| e in E && e.0 == x && Steps(E, k - 1, e.1, y);
      var w := if e.1 == v then u else e.1;
      TwinSteps(E, u, v, k - 1, e.1, y);
      assert e == (x, e.1);
      NoSelfLoop(E, v);
      NotAnEdge(E, x, e.1);
      NotAnEdge(E, u, e.1);
      NotAnEdge(E, x', w);
      assert (x', w) in W;
      ReachEdge(W, x', w);
      ReachTrans(W, x', w, y);
    }
  }

  /** Absorbing a false twin changes nothing about the order of the others. */
  lemma AbsorbOrder<V>(E: set<(V, V)>, u: V, v: V, x: V, y: V)
    requires FalseTwins(E, u, v) && Acyclic(E) && u != v && x != v && y != v
    ensures Before(Without(E, v), x, y) <==> Before(E, x, y)
  {
    var W := Without(E, v);
    ReachCases(E, x, y);
    ReachCases(W, x, y);
    AcyclicSubset(W, E);
    if Reach(W, x, y) {
      ReachSubset(W, E, x, y);
    }
    if Reach(E, x, y) {
      var k: nat :| Steps(E, k, x, y);
      TwinSteps(E, u, v, k, x, y);
    }
    if x == y {
      if Before(E, x, y) { AcyclicStrict(E, x, y); }
      if Before(W, x, y) { AcyclicStrict(W, x, y); }
    }
  }

  /** The fusions keep exactly the order of what they leave. */
  lemma {:induction false} FusionsKeepOrder<V>(steps: seq<Fusion<V>>, g: State<V>, x: V, y: V)
    requires Faithful(steps, g) && Acyclic(g.edges) && x in Final(steps, g).nodes && y in Final(steps, g).nodes
    ensures x in g.nodes && y in g.nodes && (Before(Final(steps, g).edges, x, y) <==> Before(g.edges, x, y))
    decreases |steps|
  {
    if steps != [] {
      var f, h := steps[0], Absorb(g, steps[0]);
      AcyclicSubset(h.edges, g.edges);
      FusionsKeepOrder(steps[1..], h, x, y);
      AbsorbOrder(g.edges, f.into, f.gone, x, y);
    }
  }

  lemma {:induction false} FusionsSnoc<V>(steps: seq<Fusion<V>>, f: Fusion<V>, g: State<V>)
    requires Faithful(steps, g) && Fits(Final(steps, g), f)
    ensures Faithful(steps + [f], g) && Final(steps + [f], g) == Absorb(Final(steps, g), f)
    decreases |steps|
  {
    if steps == [] {
      assert ([] + [f])[1..] == [] && (steps + [f])[0] == f;
      assert Faithful((steps + [f])[1..], Absorb(g, f));
    } else {
      assert (steps + [f])[1..] == steps[1..] + [f] && (steps + [f])[0] == steps[0];
      FusionsSnoc(steps[1..], f, Absorb(g, steps[0]));
    }
  }

  // ------------------------------------------------------------ nothing left to fuse

  /** Every linear copy stays inside the address space. */
  ghost predicate AllInRange<V>(g: State<V>) {
    g.commands.Keys == g.nodes &&
    forall v :: v in g.nodes && g.commands[v].Copy1D? ==> InRange(g.commands[v].linear)
  }

  lemma AbsorbInRange<V>(g: State<V>, f: Fusion<V>)
    requires AllInRange(g) && Fits(g, f)
    ensures AllInRange(Absorb(g, f))
  {
    FusedFields(g.commands[f.into].linear, g.commands[f.gone].linear);
    hide Fused, Fusable;
  }

  /** A node of `done` with a predecessor touches no twin among the copies `C`. */
  ghost predicate NoneTouch<V>(g: State<V>, done: set<V>, C: set<V>) {
    g.commands.Keys == g.nodes &&
    forall x, w :: x in done && x in C && w in C ==> !Touches(g, x, w)
  }

  /** Two linear copies that could be fused, and would be found through a common predecessor. */
  ghost predicate Touches<V>(g: State<V>, x: V, w: V) {
    && x in g.nodes && w in g.nodes && x in g.commands && w in g.commands && x != w && Sources(g.edges, x) != {}
    && g.commands[x].Copy1D? && g.commands[w].Copy1D? && FalseTwins(g.edges, x, w)
    && Fusable(g.commands[x].linear, g.commands[w].linear)
  }

  /** What touches after a fusion touched one of the two before. */
  lemma TouchedBefore<V>(g: State<V>, f: Fusion<V>, x: V, w: V)
    requires Fits(g, f) && AllInRange(g) && Touches(Absorb(g, f), x, w) && x != f.into
    ensures Touches(g, x, w) || Touches(g, x, f.gone)
  {
    var h := Absorb(g, f);
    var u, v := g.commands[f.into].linear, g.commands[f.gone].linear;
    TwinsKept(g.edges, f.into, f.gone, x, w);
    AbsorbEnds(g.edges, f.into, f.gone, x);
    hide Fused, Fusable, Without, InRange;
    if w == f.into {
      TouchedOne(g.commands[x].linear, u, v);
    }
  }

  /** A node with nothing to fuse with keeps having nothing. */
  lemma StaysNoneTouch<V>(g: State<V>, f: Fusion<V>, done: set<V>, C: set<V>)
    requires Fits(g, f) && AllInRange(g) && NoneTouch(g, done, C) && f.into in C && f.gone in C
    requires Sources(g.edges, f.into) != {}
    ensures NoneTouch(Absorb(g, f), done, C)
  {
    assert Touches(g, f.into, f.gone);
    forall x, w | x in done && x in C && w in C ensures !Touches(Absorb(g, f), x, w) {
      if Touches(Absorb(g, f), x, w) {
        TouchedBefore(g, f, x, w);
      }
    }
  }

  /** After the fusions so far, the nodes of `done` have nothing left to fuse with. */
  ghost predicate Quieted<V>(steps: seq<Fusion<V>>, g: State<V>, done: set<V>, C: set<V>) {
    Faithful(steps, g) && (AllInRange(g) ==> AllInRange(Final(steps, g)) && NoneTouch(Final(steps, g), done, C))
  }

  lemma QuietedMore<V>(steps: seq<Fusion<V>>, f: Fusion<V>, g: State<V>, done: set<V>, C: set<V>)
    requires Quieted(steps, g, done, C) && Fits(Final(steps, g), f) && f.into in C && f.gone in C
    requires Sources(Final(steps, g).edges, f.into) != {}
    ensures Quieted(steps + [f], g, done, C)
  {
    FusionsSnoc(steps, f, g);
    hide Faithful, Final, Fits, NoneTouch, Absorb;
    if AllInRange(g) {
      AbsorbInRange(Final(steps, g), f);
      StaysNoneTouch(Final(steps, g), f, done, C);
    }
  }

  // ------------------------------------------------------------ bytes

  /** Some linear copy between the devices `a` and `b` moves byte `s` to `d`. */
  ghost predicate Carries<V>(g: State<V>, a: DeviceId, s: int, b: DeviceId, d: int) {
    exists v :: v in g.nodes && v in g.commands && CarriedBy(g.commands[v], a, s, b, d)
  }

  ghost predicate CarriedBy(c: Command, a: DeviceId, s: int, b: DeviceId, d: int) {
    c.Copy1D? && c.linear.srcDevice == a && c.linear.dstDevice == b && LinearMoves(c.linear, s, d)
  }

  lemma AbsorbCarries<V>(g: State<V>, f: Fusion<V>, a: DeviceId, s: int, b: DeviceId, d: int)
    requires AllInRange(g) && Fits(g, f)
    ensures Carries(Absorb(g, f), a, s, b, d) <==> Carries(g, a, s, b, d)
  {
    var h := Absorb(g, f);
    var u, v := g.commands[f.into].linear, g.commands[f.gone].linear;
    FusedMoves(u, v, s, d);
    assert u.srcDevice == v.srcDevice == Fused(u, v).srcDevice && u.dstDevice == v.dstDevice == Fused(u, v).dstDevice;
    assert h.commands[f.into].linear == Fused(u, v);
    hide Fused, Fusable, LinearMoves, FalseTwins, Without, InRange;
    if x :| x in g.nodes && CarriedBy(g.commands[x], a, s, b, d) {
      if x == f.into || x == f.gone {
        assert CarriedBy(h.commands[f.into], a, s, b, d);
      } else {
        assert CarriedBy(h.commands[x], a, s, b, d);
      }
    }
    if x :| x in h.nodes && CarriedBy(h.commands[x], a, s, b, d) {
      if x == f.into {
        assert CarriedBy(g.commands[f.into], a, s, b, d) || CarriedBy(g.commands[f.gone], a, s, b, d);
      } else {
        assert CarriedBy(g.commands[x], a, s, b, d);
      }
    }
  }

  /** The linear copies left move exactly the bytes all of them moved. */
  lemma {:induction false} FusionsCarry<V>(steps: seq<Fusion<V>>, g: State<V>, a: DeviceId, s: int, b: DeviceId, d: int)
    requires Faithful(steps, g) && AllInRange(g)
    ensures Carries(Final(steps, g), a, s, b, d) <==> Carries(g, a, s, b, d)
    decreases |steps|
  {
    if steps != [] {
      AbsorbCarries(g, steps[0], a, s, b, d);
      AbsorbInRange(g, steps[0]);
      FusionsCarry(steps[1..], Absorb(g, steps[0]), a, s, b, d);
    }
  }
}
