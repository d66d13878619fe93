/** The MLIR batch pass: index the operations, group them greedily, materialise the groups. */
module MlirBatchPass {
  import opened CommandGraphs
  import opened Contractions
  import opened Digraphs
  import opened GreedyRuns
  import opened Lists
  import opened MlirBatch
  import opened MlirGraphs
  import opened MlirScans
  import opened Numberings
  import opened Plans
  import opened Quotients
  import opened Traversals

  /** One operation's operands, entered in both scratch arrays. */
  method ScanOperands(ops: seq<Op>, i: nat, id: map<Op, nat>, preds: seq<set<nat>>, succs: seq<set<nat>>)
    returns (preds': seq<set<nat>>, succs': seq<set<nat>>)
    requires i < |ops| == |preds| == |succs| && NoDup(ops) && preds[i] == {}
    requires id.Keys == Elems(ops) && forall k: nat :: k < |ops| ==> id[ops[k]] == k
    ensures |preds'| == |succs'| == |ops| && preds' == preds[i := Numbers(ops[i].operands, ops)]
    ensures forall j: nat :: j < |ops| ==> succs'[j] == succs[j] + if ops[j] in ops[i].operands then {i} else {}
  {
    preds', succs' := preds, succs;
    var ts := ops[i].operands;
    for m := 0 to |ts|
      invariant |preds'| == |succs'| == |ops| && preds'[i] == Numbers(ts[..m], ops)
      invariant forall k: nat :: k < |ops| && k != i ==> preds'[k] == preds[k]
      invariant forall j: nat :: j < |ops| ==> succs'[j] == succs[j] + if ops[j] in ts[..m] then {i} else {}
    {
      var d := ts[m];
      assert ts[..m + 1] == ts[..m] + [d];
      if d in id {
        assert d in Elems(ops);
        var j := id[d];
        assert ops[j] == d && Number(ops)(d) == j by {
          var k := IndexOf(ops, d);
          assert id[ops[k]] == k;
        }
        preds' := preds'[i := preds'[i] + {j}];
        succs' := succs'[j := succs'[j] + {i}];
        forall k: nat | k < |ops| && ops[k] == d ensures k == j { }
      } else {
        assert d !in ops;
      }
    }
    assert ts[..|ts|] == ts;
  }

  lemma MoreUsers(ops: seq<Op>, i: nat)
    requires i < |ops|
    ensures forall j: nat :: j < |ops| ==>
        Users(ops, i + 1, j) == Users(ops, i, j) + if ops[j] in ops[i].operands then {i} else {}
  {
  }

  lemma NoUsers(ops: seq<Op>)
    ensures forall j: nat :: j < |ops| ==> Users(ops, 0, j) == {}
  {
  }

  /** The scratch adjacency: the graph's edges between the numbers of the operations. */
  method ScanBody(ops: seq<Op>, ghost E: set<(Op, Op)>) returns (preds: seq<set<nat>>, succs: seq<set<nat>>)
    requires NoDup(ops) && Feeds(Elems(ops), E)
    ensures |preds| == |succs| == |ops|
    ensures forall a: nat :: a < |ops| ==>
        succs[a] == Targets(Quotient(E, Number(ops)), a) && preds[a] == Sources(Quotient(E, Number(ops)), a)
  {
    NoUsers(ops);
    hide Users, Numbers, Quotient, Targets, Sources, Feeds, Number, NoDup;
    var id := IndexOps(ops);
    preds, succs := seq(|ops|, i => {}), seq(|ops|, i => {});
    for i := 0 to |ops|
      invariant |preds| == |succs| == |ops|
      invariant forall k: nat :: k < |ops| ==> preds[k] == if k < i then Numbers(ops[k].operands, ops) else {}
      invariant forall j: nat :: j < |ops| ==> succs[j] == Users(ops, i, j)
    {
      MoreUsers(ops, i);
      preds, succs := ScanOperands(ops, i, id, preds, succs);
    }
    forall a: nat | a < |ops|
      ensures succs[a] == Targets(Quotient(E, Number(ops)), a) && preds[a] == Sources(Quotient(E, Number(ops)), a)
    {
      NumberedNeighbours(ops, E, a);
    }
  }

  predicate IsEntryExit(name: OpName) {
    name.EmptyOp? && (name.isEntry || name.isExit)
  }

  /** The device of every operation, and whether it is a candidate and empty. */
  method Describe(ops: seq<Op>) returns (dev: seq<DeviceId>, cand: seq<bool>, empty: seq<bool>)
    ensures |dev| == |cand| == |empty| == |ops|
    ensures forall i :: 0 <= i < |ops| ==> dev[i] == ops[i].device
    ensures forall i :: 0 <= i < |ops| ==> cand[i] == !IsEntryExit(ops[i].name) && empty[i] == ops[i].name.EmptyOp?
  {
    dev, cand, empty := [], [], [];
    for k := 0 to |ops|
      invariant |dev| == |cand| == |empty| == k
      invariant forall i :: 0 <= i < k ==> dev[i] == ops[i].device
      invariant forall i :: 0 <= i < k ==> cand[i] == !IsEntryExit(ops[i].name) && empty[i] == ops[i].name.EmptyOp?
    {
      dev, cand, empty := dev + [ops[k].device], cand + [!IsEntryExit(ops[k].name)], empty + [ops[k].name.EmptyOp?];
    }
  }

  /** The scratch arrays describe the operations they were filled from. */
  ghost predicate Indexed(ops: seq<Op>, g: Grouping)
    reads g
  {
    && g.n == |ops| && g.Partition()
    && forall i :: 0 <= i < |ops| ==>
         g.dev[i] == ops[i].device && g.cand[i] == !IsEntryExit(ops[i].name) && g.empty[i] == ops[i].name.EmptyOp?
  }

  /** The greedy grouping of a body, from the indexed operations to the settled groups. */
  method GroupBody(ops: seq<Op>, ghost E: set<(Op, Op)>) returns (g: Grouping)
    requires NoDup(ops) && Feeds(Elems(ops), E) && Acyclic(E)
    ensures fresh(g) && Indexed(ops, g) && Acyclic(Quotient(E, ClassOf(ops, g.cls)))
    ensures g.Exhausted(Quotient(E, ClassOf(ops, g.cls))) && Greedily(Quotient(E, Number(ops)), g.dev, g.cand, g.cls)
  {
    hide Feeds, Quotient, RunTo;
    var preds, succs := ScanBody(ops, E);
    var dev, cand, empty := Describe(ops);
    FeedsWithin(ops, E);
    ghost var Q, r := NumberedGraph(ops, E);
    g := new Grouping(dev, cand, empty, preds, succs, Q, r);
    g.Greedy(Q, r);
    g.AllAlive();
    GroupsCompose(ops, E, g.cls);
    RankedAcyclic(Quotient(Q, Group(g.cls)), r);
  }

  /** Of two operations of one device, neither marked as an end, that are twins with a predecessor or in series,
      one at least shares its class with something else. */
  ghost predicate PairsGrouped(N: set<Op>, E: set<(Op, Op)>, c: Op -> nat) {
    forall u, v ::
      (u in N && v in N && u.device == v.device && InputPair(E, u, v)
       && !(u.name.EmptyOp? && (u.name.isEntry || u.name.isExit))
       && !(v.name.EmptyOp? && (v.name.isEntry || v.name.isExit)))
      ==> exists w :: w in N && ((w != u && c(w) == c(u)) || (w != v && c(w) == c(v)))
  }

  lemma NumberedPair<V>(s: seq<V>, E: set<(V, V)>, a: nat, b: nat)
    requires NoDup(s) && a < |s| && b < |s| && forall e :: e in E ==> e.0 in s && e.1 in s && e.0 != e.1
    requires InputPair(E, s[a], s[b])
    ensures InputPair(Quotient(E, Number(s)), a, b)
  {
    var Q := Quotient(E, Number(s));
    NumberedSides(s, E, a);
    NumberedSides(s, E, b);
    hide Quotient;
    if Series(E, s[a], s[b]) {
      assert s[b] in Targets(E, s[a]) && s[a] in Sources(E, s[b]);
      assert Targets(Q, a) == {b} && Sources(Q, b) == {a};
    } else {
      var p :| p in Sources(E, s[a]);
      NotAnEdge(E, p, s[a]);
      assert (p, s[a]).0 in s;
      assert IndexOf(s, p) in Sources(Q, a);
      assert Sources(Q, a) == Sources(Q, b) && Targets(Q, a) == Targets(Q, b);
    }
  }

  lemma PairGrouped(ops: seq<Op>, E: set<(Op, Op)>, dev: seq<DeviceId>, cand: seq<bool>, cls: seq<nat>, a: nat, b: nat)
    requires NoDup(ops) && Feeds(Elems(ops), E) && |dev| == |cand| == |ops| && a < |ops| && b < |ops|
    requires Greedily(Quotient(E, Number(ops)), dev, cand, cls) && InputPair(E, ops[a], ops[b])
    requires cand[a] && cand[b] && dev[a] == dev[b]
    ensures |cls| == |ops| && (!Lone(cls, a) || !Lone(cls, b))
  {
    FeedsWithin(ops, E);
    NumberedRange(ops, E);
    NumberedLoops(ops, E);
    hide *;
    NumberedPair(ops, E, a, b);
    PairsShare(Quotient(E, Number(ops)), dev, cand, cls, a, b);
  }

  lemma CandidateOp(ops: seq<Op>, g: Grouping, a: nat)
    requires Indexed(ops, g) && a < |ops|
    ensures |g.dev| == |g.cand| == |ops| && g.dev[a] == ops[a].device
    ensures g.cand[a] == !(ops[a].name.EmptyOp? && (ops[a].name.isEntry || ops[a].name.isExit))
  {
  }

  lemma AllPairsGrouped(ops: seq<Op>, E: set<(Op, Op)>, g: Grouping)
    requires NoDup(ops) && Feeds(Elems(ops), E) && Indexed(ops, g)
    requires Greedily(Quotient(E, Number(ops)), g.dev, g.cand, g.cls)
    ensures PairsGrouped(Elems(ops), E, ClassOf(ops, g.cls))
  {
    hide Feeds, Greedily, InputPair, Quotient, Indexed, Lone, ClassOf, NoDup;
    var c := ClassOf(ops, g.cls);
    forall u, v | u in ops && v in ops && u.device == v.device && InputPair(E, u, v) &&
        !(u.name.EmptyOp? && (u.name.isEntry || u.name.isExit)) &&
        !(v.name.EmptyOp? && (v.name.isEntry || v.name.isExit))
      ensures exists w :: w in ops && ((w != u && c(w) == c(u)) || (w != v && c(w) == c(v)))
    {
      var a, b := IndexOf(ops, u), IndexOf(ops, v);
      CandidateOp(ops, g, a);
      CandidateOp(ops, g, b);
      PairGrouped(ops, E, g.dev, g.cand, g.cls, a, b);
      if !Lone(g.cls, a) {
        Companion(ops, g.cls, a);
      } else {
        Companion(ops, g.cls, b);
      }
    }
  }

  lemma NumberedLoops<V>(s: seq<V>, E: set<(V, V)>)
    ensures forall q :: q in Quotient(E, Number(s)) ==> q.0 != q.1
  {
    forall q | q in Quotient(E, Number(s)) ensures q.0 != q.1 {
      var e := QuotientEdge(E, Number(s), q);
    }
  }

  lemma Companion(ops: seq<Op>, cls: seq<nat>, a: nat)
    requires NoDup(ops) && |cls| == |ops| && a < |ops| && !Lone(cls, a)
    ensures exists w :: w in ops && w != ops[a] && ClassOf(ops, cls)(w) == ClassOf(ops, cls)(ops[a])
  {
    var j: nat :| j < |cls| && cls[j] == cls[a] && j != a;
    ClassAt(ops, cls, a);
    ClassAt(ops, cls, j);
    assert ops[j] in ops;
  }

  function OpsAt(ops: seq<Op>, s: seq<nat>): seq<Op>
    requires forall k :: 0 <= k < |s| ==> s[k] < |ops|
  {
    seq(|s|, k requires 0 <= k < |s| => ops[s[k]])
  }

  lemma OpsAtElems(ops: seq<Op>, s: seq<nat>, cls: seq<nat>, a: nat)
    requires NoDup(ops) && |cls| == |ops| && NoDup(s) && Elems(s) == set i | 0 <= i < |cls| && cls[i] == a
    ensures forall k :: 0 <= k < |s| ==> s[k] < |ops|
    ensures NoDup(OpsAt(ops, s)) && Elems(OpsAt(ops, s)) == set x | x in Elems(ops) && ClassOf(ops, cls)(x) == a
  {
    forall k | 0 <= k < |s| ensures s[k] < |ops| && cls[s[k]] == a {
      assert s[k] in Elems(s);
    }
    var t := OpsAt(ops, s);
    forall x ensures x in Elems(t) <==> x in Elems(ops) && ClassOf(ops, cls)(x) == a {
      if x in Elems(t) {
        var k := IndexOf(t, x);
        NumberAt(ops, s[k]);
      }
      if x in Elems(ops) && ClassOf(ops, cls)(x) == a {
        var i := IndexOf(ops, x);
        assert cls[i] == a by { assert ClassOf(ops, cls)(x) == cls[Number(ops)(x)]; }
        assert i in Elems(s);
        var k := IndexOf(s, i);
        assert t[k] == x;
      }
    }
  }

  /** Two different commands among the operations listed. */
  ghost predicate TwoCommandOps(S: set<Op>)
  {
    exists x, y :: x in S && y in S && x != y && !x.name.EmptyOp? && !y.name.EmptyOp?
  }

  lemma {:induction false} SomeCommand(s: seq<nat>, empty: seq<bool>) returns (i: nat)
    requires forall k :: 0 <= k < |s| ==> s[k] < |empty|
    requires CommandCount(s, empty) >= 1
    ensures i < |s| && !empty[s[i]]
    ensures CommandCount(s, empty) >= 2 ==> CommandCount(s[..i], empty) >= 1
  {
    i := |s| - 1;
    if empty[s[i]] {
      i := SomeCommand(s[..|s| - 1], empty);
      assert s[..|s| - 1][..i] == s[..i];
    }
  }

  lemma TwoDistinct(ops: seq<Op>, s: seq<nat>, empty: seq<bool>)
    requires NoDup(ops) && NoDup(s) && |empty| == |ops| && forall k :: 0 <= k < |s| ==> s[k] < |ops|
    requires forall i :: 0 <= i < |ops| ==> empty[i] == ops[i].name.EmptyOp?
    requires CommandCount(s, empty) >= 2
    ensures TwoCommandOps(Elems(OpsAt(ops, s)))
  {
    var j := SomeCommand(s, empty);
    var i := SomeCommand(s[..j], empty);
    var t := OpsAt(ops, s);
    assert s[..j][i] == s[i];
    assert t[i] in Elems(t) && t[j] in Elems(t) && s[i] != s[j];
  }

  /** What a finished batch holds: commands of its device, with exactly the edges they had among them. */
  ghost predicate Held(s: Contraction<Op>, E: set<(Op, Op)>)
    reads s.batch`region, s.members`operands
  {
    && s.batch.name == BatchOp && s.batch.source == null && NoDup(s.batch.region) && Elems(s.batch.region) == s.members
    && Feeds(s.members, Inside(E, s.members))
    && (forall m :: m in s.members ==> m.device == s.batch.device && !IsEntryExit(m.name))
    && TwoCommandOps(s.members)
  }

  /** The contracted classes so far: their contents are final, and no live operation is in one. */
  ghost predicate Settled(steps: seq<Contraction<Op>>, E: set<(Op, Op)>, live: set<Op>)
    reads (set s | s in steps :: s.batch)`region
    reads (set s, m | s in steps && m in s.members :: m)`operands
  {
    forall j :: 0 <= j < |steps| ==> Held(steps[j], E) && steps[j].members !! live
  }

  /** The class to contract next is live and whole. */
  lemma NextIsLive(steps: seq<Contraction<Op>>, N: set<Op>, E: set<(Op, Op)>, c: Op -> nat, reps: seq<nat>, a: nat)
    requires ByClass(steps, N, c, reps) && a !in reps
    ensures (set x | x in N && c(x) == a) <= Contracted(steps, N, E).0
  {
    forall x | x in N && c(x) == a ensures x in Contracted(steps, N, E).0 {
      NodesByClass(steps, N, E, c, reps, x);
    }
  }

  lemma ByClassSnoc(steps: seq<Contraction<Op>>, N: set<Op>, E: set<(Op, Op)>, c: Op -> nat, reps: seq<nat>, a: nat,
                    s: Contraction<Op>)
    requires ByClass(steps, N, c, reps) && a !in reps && s.batch !in N && s.batch !in Contracted(steps, N, E).0
    requires s.members == set x | x in N && c(x) == a
    ensures ByClass(steps + [s], N, c, reps + [a])
  {
    forall j | 0 <= j < |steps| ensures steps[j].batch != s.batch {
      NodesByClass(steps, N, E, c, reps, steps[j].batch);
    }
    NoDupSnoc(reps, a);
  }

  /** The members of a kept group. */
  ghost predicate Ready(members: seq<Op>, device: DeviceId, N: set<Op>, c: Op -> nat, a: nat)
  {
    && NoDup(members) && Elems(members) == (set x | x in N && c(x) == a)
    && (forall m :: m in members ==> m.device == device && !IsEntryExit(m.name))
    && TwoCommandOps(Elems(members))
  }

  /** The classes `reps` are materialised and the body is the contraction so far. */
  ghost predicate Progress(g: GraphOp, steps: seq<Contraction<Op>>, N: set<Op>, E: set<(Op, Op)>, c: Op -> nat,
                           reps: seq<nat>)
    reads g, Elems(g.body)`operands
    reads (set s | s in steps :: s.batch)`region
    reads (set s, m | s in steps && m in s.members :: m)`operands
  {
    && g.Valid() && ByClass(steps, N, c, reps) && (Elems(g.body), g.edges) == Contracted(steps, N, E)
    && Settled(steps, E, Elems(g.body))
  }

  lemma NewHeld(s: Contraction<Op>, E: set<(Op, Op)>, members: seq<Op>)
    requires s.batch.name == BatchOp && s.batch.source == null && s.batch.region == members && NoDup(members) &&
        Elems(members) == s.members
    requires Feeds(s.members, Inside(E, s.members)) && TwoCommandOps(s.members)
    requires forall m :: m in members ==> m.device == s.batch.device && !IsEntryExit(m.name)
    ensures Held(s, E)
  {
    forall m | m in s.members ensures m in members {
      assert m in Elems(members);
    }
  }

  /** What materialising the next group needs to know. */
  lemma ReadyParts(g: GraphOp, members: seq<Op>, device: DeviceId, N: set<Op>, E: set<(Op, Op)>, c: Op -> nat, a: nat,
                   steps: seq<Contraction<Op>>, reps: seq<nat>)
    requires Progress(g, steps, N, E, c, reps) && Acyclic(E) && Within(E, N) && a !in reps &&
        Ready(members, device, N, c, a)
    ensures g.Valid() && NoDup(members) && Elems(members) <= Elems(g.body) && TwoCommandOps(Elems(members))
    ensures Elems(members) == (set x | x in N && c(x) == a) && ByClass(steps, N, c, reps)
    ensures Inside(g.edges, Elems(members)) == Inside(E, Elems(members))
    ensures (Elems(g.body), g.edges) == Contracted(steps, N, E) && Settled(steps, E, Elems(g.body))
    ensures forall m :: m in members ==> m.device == device && !IsEntryExit(m.name)
  {
    NextIsLive(steps, N, E, c, reps, a);
    UntouchedInside(steps, N, E, c, reps, a, Elems(members));
  }

  lemma SettledSnoc(steps: seq<Contraction<Op>>, s: Contraction<Op>, E: set<(Op, Op)>, live: set<Op>)
    requires Held(s, E) && s.members !! live
    requires forall j :: 0 <= j < |steps| ==> Held(steps[j], E) && steps[j].members !! live
    ensures Settled(steps + [s], E, live)
  {
  }

  lemma ProgressMade(g: GraphOp, steps: seq<Contraction<Op>>, N: set<Op>, E: set<(Op, Op)>, c: Op -> nat,
                     reps: seq<nat>)
    requires g.Valid() && ByClass(steps, N, c, reps) && (Elems(g.body), g.edges) == Contracted(steps, N, E)
    requires Settled(steps, E, Elems(g.body))
    ensures Progress(g, steps, N, E, c, reps)
  {
  }

  /** Materialise one collected group. */
  method MaterializeNext(g: GraphOp, members: seq<Op>, device: DeviceId, ghost N: set<Op>, ghost E: set<(Op, Op)>,
                         ghost c: Op -> nat, ghost a: nat, ghost steps: seq<Contraction<Op>>, ghost reps: seq<nat>)
    returns (ghost s: Contraction<Op>)
    requires Progress(g, steps, N, E, c, reps) && Acyclic(E) && Within(E, N)
    requires a !in reps && Ready(members, device, N, c, a)
    modifies g, Elems(g.body)`operands
    ensures Progress(g, steps + [s], N, E, c, reps + [a]) && fresh(s.batch)
    ensures Elems(g.body) <= old(Elems(g.body)) + {s.batch}
  {
    ghost var S := Elems(members);
    ReadyParts(g, members, device, N, E, c, a, steps, reps);
    hide *;
    var batch := g.MaterializeBatch(members, device);
    s := Contraction(S, batch);
    ByClassSnoc(steps, N, E, c, reps, a, s);
    ContractedSnoc(steps, s, N, E);
    NewHeld(s, E, members);
    SettledSnoc(steps, s, E, Elems(g.body));
    ProgressMade(g, steps + [s], N, E, c, reps + [a]);
  }

  /** A kept group names two commands or more of one device, and neither entry nor exit. */
  lemma KeptGroup(ops: seq<Op>, g: Grouping, a: nat)
    requires NoDup(ops) && Indexed(ops, g) && a < g.n && g.Kept(a)
    ensures forall k :: 0 <= k < |g.members[a]| ==> g.members[a][k] < |ops|
    ensures Ready(OpsAt(ops, g.members[a]), g.dev[a], Elems(ops), ClassOf(ops, g.cls), a)
  {
    OpsAtElems(ops, g.members[a], g.cls, a);
    g.InRange(a);
    TwoDistinct(ops, g.members[a], g.empty);
    var ms := OpsAt(ops, g.members[a]);
    forall m | m in ms ensures m.device == g.dev[a] && !IsEntryExit(m.name) {
      var k := IndexOf(ms, m);
      var i := g.members[a][k];
      assert m == ops[i] && g.cls[i] == a;
    }
  }

  /** Materialise the collected groups one after the other. */
  method MaterializeAll(g: GraphOp, ops: seq<Op>, groups: seq<OpGroup>, ghost N: set<Op>, ghost E: set<(Op, Op)>,
                        ghost c: Op -> nat, ghost reps: seq<nat>)
    returns (ghost steps: seq<Contraction<Op>>)
    requires Progress(g, [], N, E, c, []) && Acyclic(E) && Within(E, N) && Elems(g.body) == N
    requires |groups| == |reps| && NoDup(reps)
    requires forall i :: 0 <= i < |groups| ==> forall k :: 0 <= k < |groups[i].members| ==> groups[i].members[k] < |ops|
    requires forall i :: 0 <= i < |groups| ==> Ready(OpsAt(ops, groups[i].members), groups[i].device, N, c, reps[i])
    modifies g, Elems(g.body)`operands
    ensures Progress(g, steps, N, E, c, reps)
    ensures forall j :: 0 <= j < |steps| ==> fresh(steps[j].batch)
  {
    hide Progress, Ready, Acyclic, Within, NoDup;
    steps := [];
    var k := 0;
    assert reps[..0] == [];
    while k < |groups|
      invariant 0 <= k <= |groups|
      invariant Progress(g, steps, N, E, c, reps[..k])
      invariant forall i :: 0 <= i < |groups| ==> Ready(OpsAt(ops, groups[i].members), groups[i].device, N, c, reps[i])
      invariant forall j :: 0 <= j < |steps| ==> fresh(steps[j].batch)
      invariant forall o :: o in g.body ==> o in N || fresh(o)
    {
      ElemsPrefix(reps, k);
      ghost var live := Elems(g.body);
      ghost var s := MaterializeNext(g, OpsAt(ops, groups[k].members), groups[k].device, N, E, c, reps[k], steps,
          reps[..k]);
      assert reps[..k + 1] == reps[..k] + [reps[k]];
      forall o | o in g.body ensures o in N || fresh(o) {
        assert o in Elems(g.body);
      }
      steps := steps + [s];
      k := k + 1;
    }
    assert reps[..k] == reps;
  }

  /** Two commands of one class are in one batch. */
  ghost predicate CommandsBatched(N: set<Op>, c: Op -> nat, steps: seq<Contraction<Op>>) {
    forall u, v :: u in N && v in N && u != v && c(u) == c(v) && !u.name.EmptyOp? && !v.name.EmptyOp? ==>
      exists s :: s in steps && u in s.members && v in s.members
  }

  lemma {:induction false} CountsOne(s: seq<nat>, empty: seq<bool>, a: nat)
    requires (forall k :: 0 <= k < |s| ==> s[k] < |empty|) && a in s && !empty[a]
    ensures CommandCount(s, empty) >= 1
  {
    var front, x := s[..|s| - 1], s[|s| - 1];
    assert s == front + [x];
    if x != a {
      CountsOne(front, empty, a);
    }
  }

  lemma {:induction false} CountsTwo(s: seq<nat>, empty: seq<bool>, a: nat, b: nat)
    requires (forall k :: 0 <= k < |s| ==> s[k] < |empty|) && a in s && b in s && a != b && !empty[a] && !empty[b]
    ensures CommandCount(s, empty) >= 2
  {
    var front, x := s[..|s| - 1], s[|s| - 1];
    assert s == front + [x];
    if x == a {
      CountsOne(front, empty, b);
    } else if x == b {
      CountsOne(front, empty, a);
    } else {
      CountsTwo(front, empty, a, b);
    }
  }

  /** The class of two commands is kept. */
  lemma ClassKept(g: Grouping, a: nat, b: nat)
    requires g.Partition() && a < g.n && b < g.n && a != b && g.cls[a] == g.cls[b] && !g.empty[a] && !g.empty[b]
    ensures g.cls[a] < g.n && g.Kept(g.cls[a])
  {
    var r := g.cls[a];
    assert a in g.GroupOf(r) && b in g.GroupOf(r);
    assert a in Elems(g.members[r]) && b in Elems(g.members[r]);
    g.InRange(r);
    CountsTwo(g.members[r], g.empty, a, b);
  }

  lemma PairBatched(ops: seq<Op>, g: Grouping, steps: seq<Contraction<Op>>, reps: seq<nat>, u: Op, v: Op)
    requires NoDup(ops) && Indexed(ops, g) && ByClass(steps, Elems(ops), ClassOf(ops, g.cls), reps)
    requires forall a: nat :: a in reps <==> a < g.n && g.Kept(a)
    requires u in ops && v in ops && u != v && ClassOf(ops, g.cls)(u) == ClassOf(ops, g.cls)(v)
    requires !u.name.EmptyOp? && !v.name.EmptyOp?
    ensures exists s :: s in steps && u in s.members && v in s.members
  {
    var a, b := IndexOf(ops, u), IndexOf(ops, v);
    ClassAt(ops, g.cls, a);
    ClassAt(ops, g.cls, b);
    ClassKept(g, a, b);
    var j := IndexOf(reps, g.cls[a]);
    assert steps[j] in steps && u in Elems(ops) && v in Elems(ops);
  }

  lemma AllBatched(ops: seq<Op>, g: Grouping, steps: seq<Contraction<Op>>, reps: seq<nat>)
    requires NoDup(ops) && Indexed(ops, g) && ByClass(steps, Elems(ops), ClassOf(ops, g.cls), reps)
    requires forall a: nat :: a in reps <==> a < g.n && g.Kept(a)
    ensures CommandsBatched(Elems(ops), ClassOf(ops, g.cls), steps)
  {
    var c := ClassOf(ops, g.cls);
    hide NoDup, Indexed, ByClass, ClassOf, Grouping.Kept;
    forall u, v | u in Elems(ops) && v in Elems(ops) && u != v && c(u) == c(v) && !u.name.EmptyOp? && !v.name.EmptyOp?
      ensures exists s :: s in steps && u in s.members && v in s.members
    {
      PairBatched(ops, g, steps, reps, u, v);
    }
  }

  /** Contract same-device operations into batches.  The top level becomes the contraction of the
      kept groups, stays acyclic, every batch holds exactly the edges among its members, and batches
      expanded, whatever came before still does. */
  method PassBatch(g: GraphOp) returns (ghost steps: seq<Contraction<Op>>, scratch: Grouping, ghost reps: seq<nat>)
    requires g.Valid() && Acyclic(g.edges)
    modifies g, Elems(g.body)`operands
    ensures g.Valid() && Acyclic(g.edges)
    ensures Sensible(steps, old(Elems(g.body)), old(g.edges))
    ensures (Elems(g.body), g.edges) == Contracted(steps, old(Elems(g.body)), old(g.edges))
    ensures forall j :: 0 <= j < |steps| ==> Held(steps[j], old(g.edges)) && fresh(steps[j].batch)
    ensures Indexed(old(g.body), scratch) && ByClass(steps, old(Elems(g.body)), ClassOf(old(g.body), scratch.cls), reps)
    ensures scratch.Exhausted(Quotient(old(g.edges), ClassOf(old(g.body), scratch.cls)))
    ensures Greedily(Quotient(old(g.edges), Number(old(g.body))), scratch.dev, scratch.cand, scratch.cls)
    ensures PairsGrouped(old(Elems(g.body)), old(g.edges), ClassOf(old(g.body), scratch.cls))
    ensures CommandsBatched(old(Elems(g.body)), ClassOf(old(g.body), scratch.cls), steps)
    ensures forall a: nat :: a in reps <==> a < scratch.n && scratch.Kept(a)
    ensures forall u, v :: Before(old(g.edges), u, v) ==> NestedBefore(steps, old(Elems(g.body)), old(g.edges), u, v)
  {
    ghost var N, E := Elems(g.body), g.edges;
    assert Within(E, N);
    var ops := g.body;
    scratch := GroupBody(ops, E);
    AllPairsGrouped(ops, E, scratch);
    ghost var c := ClassOf(ops, scratch.cls);
    var groups;
    groups, reps := scratch.Collect();
    forall i | 0 <= i < |groups|
      ensures forall k :: 0 <= k < |groups[i].members| ==> groups[i].members[k] < |ops|
      ensures Ready(OpsAt(ops, groups[i].members), groups[i].device, N, c, reps[i])
    {
      KeptGroup(ops, scratch, reps[i]);
    }
    hide Ready, Acyclic, Within, Quotient, Indexed, Grouping.Exhausted, Held, ByClass, Contracted, Sensible, NoDup,
        Feeds, Before, NestedBefore, Greedily, PairsGrouped, CommandsBatched;
    Start(N, E, c);
    steps := MaterializeAll(g, ops, groups, N, E, c, reps);
    AllBatched(ops, scratch, steps, reps);
    EdgesWithin(E, N);
    ByClassSensible(steps, N, E, c, reps);
    forall u, v | Before(E, u, v) ensures NestedBefore(steps, N, E, u, v) {
      ByClassNested(steps, N, E, c, reps, u, v);
    }
  }

  lemma EdgesWithin(E: set<(Op, Op)>, N: set<Op>)
    requires Within(E, N)
    ensures forall e :: e in E ==> e.0 in N && e.1 in N
  {
  }

  lemma Start(N: set<Op>, E: set<(Op, Op)>, c: Op -> nat)
    ensures ByClass([], N, c, []) && Contracted([], N, E) == (N, E)
  {
  }
}
