/** `pass_batch` of the POD optimiser, from node numbering to the finished sub-graphs. */
module PodBatchPass {
  import opened CommandGraphs
  import opened Digraphs
  import opened Islands
  import opened Lists
  import opened Numberings
  import opened PodBatch
  import opened PodIslands
  import opened QuotientCoherence
  import opened Quotients
  import opened Traversals
  import opened UnionFinds

  // ------------------------------------------------------------ scanning

  /** The successor lists as numbers. */
  method SuccessorNumbers(vec: seq<Node>, ghost E: set<(Node, Node)>) returns (succ: seq<seq<nat>>)
    requires NoDup(vec) && Linked(Elems(vec), E) && forall i :: 0 <= i < |vec| ==> vec[i].iteratorIndex == i
    requires forall e :: e in E ==> e.0 != e.1
    ensures |succ| == |vec| && Spells(succ, Quotient(E, Number(vec)))
  {
    succ := [];
    for i := 0 to |vec|
      invariant |succ| == i
      invariant forall k: nat :: k < i ==> Numbers(succ[k], vec[k].successors, vec)
    {
      assert vec[i] in Elems(vec);
      var js := NumbersOf(vec[i].successors, vec);
      succ := succ + [js];
    }
    NumbersSpell(vec, E, succ);
  }

  /** `js` are the numbers of the nodes `s`. */
  ghost predicate Numbers(js: seq<nat>, s: seq<Node>, vec: seq<Node>) {
    |js| == |s| && forall k :: 0 <= k < |js| ==> js[k] < |vec| && vec[js[k]] == s[k]
  }

  method NumbersOf(s: seq<Node>, vec: seq<Node>) returns (js: seq<nat>)
    requires Elems(s) <= Elems(vec) && forall i :: 0 <= i < |vec| ==> vec[i].iteratorIndex == i
    ensures Numbers(js, s, vec)
  {
    js := [];
    for k := 0 to |s|
      invariant |js| == k && forall m :: 0 <= m < k ==> js[m] < |vec| && vec[js[m]] == s[m]
    {
      assert s[k] in Elems(s) && s[k] in vec;
      js := js + [s[k].iteratorIndex];
    }
  }

  lemma NumbersSpell(vec: seq<Node>, E: set<(Node, Node)>, succ: seq<seq<nat>>)
    requires NoDup(vec) && Linked(Elems(vec), E) && |succ| == |vec| && forall e :: e in E ==> e.0 != e.1
    requires forall k: nat :: k < |vec| ==> Numbers(succ[k], vec[k].successors, vec)
    ensures Spells(succ, Quotient(E, Number(vec)))
  {
    var Q := Quotient(E, Number(vec));
    forall e | e in E ensures e.0 in vec && e.1 in vec { assert e.0 in Elems(vec) && e.1 in Elems(vec); }
    NumberedRange(vec, E);
    forall i: nat | i < |succ| ensures Elems(succ[i]) == Targets(Q, i) {
      assert vec[i] in Elems(vec) && NodeLinked(vec[i], E);
      forall j: nat ensures j in Elems(succ[i]) <==> j in Targets(Q, i) {
        NotAnEdge(Q, i, j);
        if j in Elems(succ[i]) {
          var k := IndexOf(succ[i], j);
          assert vec[j] == vec[i].successors[k] && vec[j] in Elems(vec[i].successors);
          NotAnEdge(E, vec[i], vec[j]);
          NumberedEdge(vec, E, i, j);
        }
        if (i, j) in Q {
          assert (i, j).1 < |vec|;
          NumberedEdge(vec, E, i, j);
          NotAnEdge(E, vec[i], vec[j]);
          assert vec[j] in Elems(vec[i].successors);
          var k := IndexOf(vec[i].successors, vec[j]);
          assert vec[succ[i][k]] == vec[j] && succ[i][k] == j;
        }
      }
    }
  }

  /** Every edge once, before any of them is moved. */
  method ListEdges(vec: seq<Node>, ghost E: set<(Node, Node)>) returns (es: seq<(Node, Node)>)
    requires NoDup(vec) && Linked(Elems(vec), E)
    ensures NoDup(es) && Elems(es) == E
  {
    es := [];
    for i := 0 to |vec|
      invariant NoDup(es) && Elems(es) == set e | e in E && e.0 in Elems(vec[..i])
    {
      ElemsPrefix(vec, i);
      assert vec[i] in Elems(vec) && NodeLinked(vec[i], E);
      var from := EdgesOf(vec[i], E);
      NoDupConcat(es, from);
      es := es + from;
    }
    assert vec[..|vec|] == vec;
  }

  method EdgesOf(u: Node, ghost E: set<(Node, Node)>) returns (es: seq<(Node, Node)>)
    requires NodeLinked(u, E)
    ensures NoDup(es) && Elems(es) == set e | e in E && e.0 == u
  {
    es := [];
    for k := 0 to |u.successors|
      invariant |es| == k && forall m :: 0 <= m < k ==> es[m] == (u, u.successors[m])
    {
      es := es + [(u, u.successors[k])];
    }
    forall e | e in Elems(es) ensures e in E && e.0 == u {
      var m := IndexOf(es, e);
      assert u.successors[m] in Elems(u.successors);
      NotAnEdge(E, u, u.successors[m]);
    }
    forall e | e in E && e.0 == u ensures e in Elems(es) {
      assert e.1 in Elems(u.successors);
      var m := IndexOf(u.successors, e.1);
      assert es[m] == e;
    }
  }

  /** Entry, exit, nested graphs and existing batches are boundaries, never grouped. */
  predicate IsBoundary(u: Node, entry: Node, exit: Node)
    reads u`command
  {
    u == entry || u == exit || u.kind == GraphNode || (u.kind == CommandNode && u.command.Batch?)
  }

  /** The candidate flags of the numbered nodes. */
  ghost predicate Candidates(vec: seq<Node>, entry: Node, exit: Node, cand: seq<bool>)
    reads Elems(vec)`command
  {
    |cand| == |vec| && forall i :: 0 <= i < |vec| ==> (assert vec[i] in Elems(vec); cand[i] == !IsBoundary(vec[i],
        entry, exit))
  }

  method Describe(vec: seq<Node>, entry: Node, exit: Node) returns (cand: seq<bool>, dev: seq<DeviceId>)
    ensures |cand| == |dev| == |vec| && Candidates(vec, entry, exit, cand)
    ensures forall i :: 0 <= i < |vec| ==> (vec[i] == entry || vec[i] == exit ==> !cand[i]) && dev[i] == vec[i].device
  {
    cand, dev := [], [];
    for k := 0 to |vec|
      invariant |cand| == |dev| == k
      invariant forall i :: 0 <= i < k ==> cand[i] == !IsBoundary(vec[i], entry, exit) && dev[i] == vec[i].device
    {
      cand, dev := cand + [!IsBoundary(vec[k], entry, exit)], dev + [vec[k].device];
    }
  }

  // ------------------------------------------------------------ islands of nodes

  /** The candidates among the first `n` nodes whose island has the root `r`. */
  ghost function MembersOf(vec: seq<Node>, cand: seq<bool>, cls: seq<nat>, r: nat, n: nat): set<Node>
    requires n <= |vec| == |cand| == |cls|
  {
    set i: nat | i < n && cand[i] && cls[i] == r :: vec[i]
  }

  ghost predicate Grouped(island: map<nat, seq<Node>>, vec: seq<Node>, cand: seq<bool>, cls: seq<nat>, n: nat) {
    && n <= |vec| == |cand| == |cls|
    && (forall i: nat :: i < n && cand[i] ==> cls[i] in island)
    && (forall r: nat :: r in island ==>
        NoDup(island[r]) && island[r] != [] && Elems(island[r]) == MembersOf(vec, cand, cls, r, n))
  }

  /** Candidates grouped by the root of their island. */
  method GroupMembers(vec: seq<Node>, cand: seq<bool>, uf: UnionFind) returns (island: map<nat, seq<Node>>)
    requires NoDup(vec) && uf.Valid() && |vec| == |cand| == |uf.cls|
    modifies uf`parent
    ensures uf.Valid() && Grouped(island, vec, cand, uf.cls, |vec|)
  {
    island := map[];
    hide NoDup, Grouped;
    assert Grouped(island, vec, cand, uf.cls, 0) by { NothingGrouped(vec, cand, uf.cls); }
    for i := 0 to |vec|
      invariant uf.Valid() && Grouped(island, vec, cand, uf.cls, i)
    {
      GroupNext(island, vec, cand, uf.cls, i);
      if cand[i] {
        var r := uf.Find(i);
        island := island[r := (if r in island then island[r] else []) + [vec[i]]];
      }
    }
  }

  lemma NothingGrouped(vec: seq<Node>, cand: seq<bool>, cls: seq<nat>)
    requires |vec| == |cand| == |cls|
    ensures Grouped(map[], vec, cand, cls, 0)
  {
  }

  lemma GroupNext(island: map<nat, seq<Node>>, vec: seq<Node>, cand: seq<bool>, cls: seq<nat>, i: nat)
    requires NoDup(vec) && i < |vec| && Grouped(island, vec, cand, cls, i)
    ensures !cand[i] ==> Grouped(island, vec, cand, cls, i + 1)
    ensures cand[i] ==> Grouped(island[cls[i] := (if cls[i] in island then island[cls[i]] else []) + [vec[i]]], vec,
        cand, cls, i + 1)
  {
    forall r: nat ensures MembersOf(vec, cand, cls, r, i + 1) == MembersOf(vec, cand, cls, r, i) + if cand[i] &&
        cls[i] == r then {vec[i]} else {} { }
    if cand[i] && cls[i] in island {
      assert vec[i] !in Elems(island[cls[i]]);
      NoDupSnoc(island[cls[i]], vec[i]);
    }
  }

  /** How many members are commands, and the device of the first of them. */
  method CountCommands(members: seq<Node>, rootDevice: DeviceId) returns (commands: nat, device: DeviceId)
    ensures commands == CommandNodes(members)
    ensures (forall m :: m in members ==> m.device == rootDevice) ==> device == rootDevice
  {
    commands, device := 0, rootDevice;
    for k := 0 to |members|
      invariant commands == CommandNodes(members[..k])
      invariant (forall m :: m in members ==> m.device == rootDevice) ==> device == rootDevice
    {
      var m := members[k];
      assert members[..k + 1][..k] == members[..k];
      if m.kind == CommandNode {
        if commands == 0 {
          device := m.device;
        }
        commands := commands + 1;
      }
    }
    assert members[..|members|] == members;
  }

  // ------------------------------------------------------------ batches

  /** A freshly allocated batch node over an empty sub-graph. */
  ghost predicate Allocated(i: Island)
    reads i.sub, FreshOf(i)
  {
    && i.batch.kind == CommandNode && i.batch.command == Batch(i.sub)
    && i.sub.entry == i.entry && i.sub.exit == i.exit && !i.sub.isSequence && i.sub.walkId == 0
    && i.entry.kind == EmptyNode && i.exit.kind == EmptyNode
    && (forall u :: u in FreshOf(i) ==> u.successors == [] && u.predecessors == [])
  }

  method NewIsland(root: nat, members: seq<Node>, device: DeviceId) returns (i: Island)
    ensures i.root == root && i.members == members && i.batch.device == device
    ensures fresh(FreshOf(i)) && fresh(i.sub) && Allocated(i)
    ensures i.batch != i.entry && i.batch != i.exit && i.entry != i.exit
  {
    var sub := new CommandGraph();
    assert sub.entry != sub.exit by { CoherentParts(sub.nodes, sub.edges, sub.entry, sub.exit); }
    OnlyEdge(sub);
    var batch := new Node(device, CommandNode);
    batch.command := Batch(sub);
    sub.entry.successors := [];
    sub.exit.predecessors := [];
    i := Island(root, members, batch, sub, sub.entry, sub.exit);
  }

  lemma OnlyEdge(sub: CommandGraph)
    requires sub.Valid() && sub.nodes == {sub.entry, sub.exit}
    ensures sub.entry.predecessors == [] && sub.exit.successors == []
  {
    NoNeighbours(sub.nodes, sub.edges, sub.entry);
    NoNeighbours(sub.nodes, sub.edges, sub.exit);
  }

  /** The representative of a node after batching. */
  ghost function RepOf(vec: seq<Node>, rep: seq<Node>): Node -> Node {
    (x: Node) => if x in vec && |rep| == |vec| then rep[IndexOf(vec, x)] else x
  }

  method Represent(members: seq<Node>, b: Node, rep: seq<Node>, ghost vec: seq<Node>) returns (rep': seq<Node>)
    requires NoDup(vec) && |rep| == |vec| && Elems(members) <= Elems(vec)
    requires forall i :: 0 <= i < |vec| ==> vec[i].iteratorIndex == i
    ensures |rep'| == |rep| && forall i :: 0 <= i < |rep| ==> rep'[i] == if vec[i] in members then b else rep[i]
  {
    rep' := rep;
    for k := 0 to |members|
      invariant |rep'| == |rep| && forall i :: 0 <= i < |rep| ==>
          rep'[i] == if vec[i] in members[..k] then b else rep[i]
    {
      var m := members[k];
      assert m in Elems(members) && m in vec;
      assert members[..k + 1] == members[..k] + [m];
      rep' := rep'[m.iteratorIndex := b];
    }
    assert members[..|members|] == members;
  }

  /** An island worth a batch, and what the pass made of it. */
  ghost predicate Made(i: Island, vec: seq<Node>, cand: seq<bool>, cls: seq<nat>, n: nat)
    requires |vec| == |cand| == |cls|
  {
    && i.root < n && NoDup(i.members) && i.members != [] && CommandNodes(i.members) >= 2
    && Elems(i.members) == MembersOf(vec, cand, cls, i.root, |vec|)
    && (forall m :: m in i.members ==> m.device == i.batch.device)
    && FreshOf(i) !! Elems(vec) && i.batch != i.entry && i.batch != i.exit && i.entry != i.exit
  }

  /** The islands with a root below `n` are materialised, and `rep` sends exactly their members to the batches. */
  ghost predicate Built(mats: seq<Island>, rep: seq<Node>, vec: seq<Node>, cand: seq<bool>, cls: seq<nat>, n: nat)
    requires |vec| == |cand| == |cls|
  {
    && |rep| == |vec|
    && (forall j :: 0 <= j < |mats| ==> Made(mats[j], vec, cand, cls, n))
    && (forall j, k :: 0 <= j < k < |mats| ==> mats[j].root < mats[k].root && FreshOf(mats[j]) !! FreshOf(mats[k]))
    && (forall i, j :: 0 <= i < |vec| && 0 <= j < |mats| ==>
        (rep[i] == mats[j].batch <==> cand[i] && cls[i] == mats[j].root))
    && (forall i :: 0 <= i < |vec| ==> rep[i] == vec[i] || exists j :: 0 <= j < |mats| && rep[i] == mats[j].batch)
  }

  ghost predicate Complete(mats: seq<Island>, island: map<nat, seq<Node>>, n: nat) {
    forall r: nat :: r < n && r in island && CommandNodes(island[r]) >= 2 ==>
        exists j :: 0 <= j < |mats| && mats[j].root == r
  }

  lemma BuiltMore(mats: seq<Island>, rep: seq<Node>, vec: seq<Node>, cand: seq<bool>, cls: seq<nat>, n: nat)
    requires |vec| == |cand| == |cls| && Built(mats, rep, vec, cand, cls, n)
    ensures Built(mats, rep, vec, cand, cls, n + 1)
  {
  }

  lemma BuiltNext(mats: seq<Island>, rep: seq<Node>, rep': seq<Node>, vec: seq<Node>, cand: seq<bool>, cls: seq<nat>,
                  i: Island)
    requires |vec| == |cand| == |cls| && NoDup(vec) && Built(mats, rep, vec, cand, cls, i.root)
    requires Made(i, vec, cand, cls, i.root + 1) && FreshOf(i) !! FreshNodes(mats)
    requires |rep'| == |vec| && forall k :: 0 <= k < |vec| ==>
        rep'[k] == if vec[k] in i.members then i.batch else rep[k]
    ensures Built(mats + [i], rep', vec, cand, cls, i.root + 1)
  {
    var all := mats + [i];
    forall j: nat | j < |mats| ensures mats[j].batch != i.batch && mats[j].root < i.root {
      OldFresh(mats, j);
      assert Made(mats[j], vec, cand, cls, i.root) && i.batch in FreshOf(i);
    }
    forall k: nat | k < |vec|
      ensures forall j :: 0 <= j < |all| ==> (rep'[k] == all[j].batch <==> cand[k] && cls[k] == all[j].root)
      ensures rep'[k] == vec[k] || exists j :: 0 <= j < |all| && rep'[k] == all[j].batch
    {
      MemberIs(vec, cand, cls, i.root, k);
      assert vec[k] in i.members <==> vec[k] in Elems(i.members);
      BuiltRep(mats, rep, vec, cand, cls, i.root, k);
      assert i.batch in FreshOf(i);
      BuiltNextRep(mats, rep[k], rep'[k], vec[k], cand[k], cls[k], i);
    }
    forall j | 0 <= j < |mats| ensures Made(all[j], vec, cand, cls, i.root + 1) && FreshOf(all[j]) !! FreshOf(i) {
      OldFresh(mats, j);
    }
  }

  lemma OldFresh(mats: seq<Island>, j: nat)
    requires j < |mats|
    ensures FreshOf(mats[j]) <= FreshNodes(mats) && mats[j].batch in FreshNodes(mats)
  {
    assert mats[j] in mats && mats[j].batch in FreshOf(mats[j]);
  }

  lemma MemberIs(vec: seq<Node>, cand: seq<bool>, cls: seq<nat>, r: nat, k: nat)
    requires |vec| == |cand| == |cls| && NoDup(vec) && k < |vec|
    ensures vec[k] in MembersOf(vec, cand, cls, r, |vec|) <==> cand[k] && cls[k] == r
  {
  }

  lemma BuiltNextRep(mats: seq<Island>, was: Node, now: Node, self: Node, taken: bool, r: nat, i: Island)
    requires forall j: nat :: j < |mats| ==> (was == mats[j].batch <==> taken && r == mats[j].root)
    requires forall j: nat :: j < |mats| ==> mats[j].batch != i.batch && mats[j].root < i.root
    requires was != i.batch && (was == self || exists j: nat :: j < |mats| && was == mats[j].batch)
    requires now == if taken && r == i.root then i.batch else was
    ensures var all := mats + [i];
            && (forall j: nat :: j < |all| ==> (now == all[j].batch <==> taken && r == all[j].root))
            && (now == self || exists j: nat :: j < |all| && now == all[j].batch)
  {
    var all := mats + [i];
    assert all[|mats|] == i;
    if now != i.batch && was != self {
      var j: nat :| j < |mats| && was == mats[j].batch;
      assert all[j] == mats[j];
    }
  }

  lemma BuiltRep(mats: seq<Island>, rep: seq<Node>, vec: seq<Node>, cand: seq<bool>, cls: seq<nat>, n: nat, k: nat)
    requires |vec| == |cand| == |cls| && Built(mats, rep, vec, cand, cls, n) && k < |vec|
    ensures rep[k] in Elems(vec) + FreshNodes(mats)
  {
    assert vec[k] in Elems(vec);
    if rep[k] != vec[k] {
      var j :| 0 <= j < |mats| && rep[k] == mats[j].batch;
      assert mats[j] in mats && rep[k] in FreshOf(mats[j]);
    }
  }

  /** Every island with two commands or more gets a batch; the nodes themselves do not change yet. */
  method BuildIslands(vec: seq<Node>, cand: seq<bool>, dev: seq<DeviceId>, ghost cls: seq<nat>,
                      island: map<nat, seq<Node>>)
    returns (rep: seq<Node>, mats: seq<Island>)
    requires NoDup(vec) && |vec| == |cand| == |dev| == |cls| && Uniform(cls, cand, dev) &&
        Grouped(island, vec, cand, cls, |vec|)
    requires forall i :: 0 <= i < |vec| ==> vec[i].iteratorIndex == i && dev[i] == vec[i].device
    ensures Built(mats, rep, vec, cand, cls, |vec|) && Complete(mats, island, |vec|)
    ensures forall i :: i in mats ==> fresh(FreshOf(i)) && fresh(i.sub) && Allocated(i)
    ensures forall j, k :: 0 <= j < k < |mats| ==> mats[j].sub != mats[k].sub
  {
    rep, mats := vec, [];
    hide NoDup, Grouped, MembersOf, Uniform, Built, Complete, Allocated;
    assert Built(mats, rep, vec, cand, cls, 0) by { NothingBuilt(vec, cand, cls); }
    assert Complete(mats, island, 0) by { NothingComplete(island); }
    for r := 0 to |vec|
      invariant |rep| == |vec| && Built(mats, rep, vec, cand, cls, r) && Complete(mats, island, r)
      invariant forall i :: i in mats ==> fresh(FreshOf(i)) && fresh(i.sub) && Allocated(i)
      invariant forall j, k :: 0 <= j < k < |mats| ==> mats[j].sub != mats[k].sub
    {
      ghost var was := mats;
      if r in island {
        IslandShape(island, vec, cand, dev, cls, r);
        var more;
        rep, more := BuildIsland(r, island[r], rep, vec, cand, cls, mats);
        mats := mats + more;
      } else {
        BuiltMore(mats, rep, vec, cand, cls, r);
      }
      CompleteMore(was, mats, island, r);
    }
  }

  /** One island: nothing, or one batch its members are sent to. */
  method BuildIsland(r: nat, members: seq<Node>, rep: seq<Node>, vec: seq<Node>, ghost cand: seq<bool>,
                     ghost cls: seq<nat>, ghost mats: seq<Island>)
    returns (rep': seq<Node>, more: seq<Island>)
    requires NoDup(vec) && r < |vec| == |cand| == |cls| && |rep| == |vec| && Built(mats, rep, vec, cand, cls, r)
    requires forall i :: 0 <= i < |vec| ==> vec[i].iteratorIndex == i
    requires NoDup(members) && members != [] && Elems(members) == MembersOf(vec, cand, cls, r, |vec|) &&
        Elems(members) <= Elems(vec)
    requires forall m :: m in members ==> m.device == vec[r].device
    ensures |rep'| == |vec| && Built(mats + more, rep', vec, cand, cls, r + 1)
    ensures CommandNodes(members) >= 2 ==> |more| == 1 && more[0].root == r
    ensures CommandNodes(members) < 2 ==> more == []
    ensures forall i :: i in more ==> fresh(FreshOf(i)) && fresh(i.sub) && Allocated(i)
  {
    hide NoDup, MembersOf, Built;
    var commands, device := CountCommands(members, vec[r].device);
    rep', more := rep, [];
    if commands >= 2 {
      var i := NewIsland(r, members, device);
      rep' := Represent(members, i.batch, rep, vec);
      IsMade(i, vec, cand, cls);
      BuiltNext(mats, rep, rep', vec, cand, cls, i);
      more := [i];
    } else {
      BuiltMore(mats, rep, vec, cand, cls, r);
      assert mats + more == mats;
    }
  }

  lemma NothingBuilt(vec: seq<Node>, cand: seq<bool>, cls: seq<nat>)
    requires |vec| == |cand| == |cls|
    ensures Built([], vec, vec, cand, cls, 0)
  {
  }

  lemma NothingComplete(island: map<nat, seq<Node>>)
    ensures Complete([], island, 0)
  {
  }

  lemma CompleteMore(was: seq<Island>, mats: seq<Island>, island: map<nat, seq<Node>>, r: nat)
    requires Complete(was, island, r) && was <= mats
    requires r in island && CommandNodes(island[r]) >= 2 ==> |mats| == |was| + 1 && mats[|was|].root == r
    ensures Complete(mats, island, r + 1)
  {
    forall q: nat | q < r + 1 && q in island && CommandNodes(island[q]) >= 2
      ensures exists j :: 0 <= j < |mats| && mats[j].root == q
    {
      if q < r {
        var j :| 0 <= j < |was| && was[j].root == q;
        assert mats[j].root == q;
      } else {
        assert mats[|was|].root == q;
      }
    }
  }

  lemma IslandShape(island: map<nat, seq<Node>>, vec: seq<Node>, cand: seq<bool>, dev: seq<DeviceId>, cls: seq<nat>,
                    r: nat)
    requires |vec| == |cand| == |dev| == |cls| && Uniform(cls, cand, dev) && Grouped(island, vec, cand, cls, |vec|) &&
        r in island && r < |vec|
    requires forall i :: 0 <= i < |vec| ==> dev[i] == vec[i].device
    ensures NoDup(island[r]) && island[r] != [] && Elems(island[r]) == MembersOf(vec, cand, cls, r, |vec|)
    ensures Elems(island[r]) <= Elems(vec) && forall m :: m in island[r] ==> m.device == vec[r].device
  {
    forall m | m in island[r] ensures m in vec && m.device == vec[r].device {
      assert m in Elems(island[r]);
      var i: nat :| i < |vec| && cand[i] && cls[i] == r && vec[i] == m;
    }
  }

  lemma IsMade(i: Island, vec: seq<Node>, cand: seq<bool>, cls: seq<nat>)
    requires |vec| == |cand| == |cls| && NoDup(i.members) && i.members != [] && CommandNodes(i.members) >= 2
    requires Elems(i.members) == MembersOf(vec, cand, cls, i.root, |vec|) &&
        forall m :: m in i.members ==> m.device == i.batch.device
    requires FreshOf(i) !! Elems(vec) && i.batch != i.entry && i.batch != i.exit && i.entry != i.exit
    ensures Made(i, vec, cand, cls, i.root + 1)
  {
  }

  /** Built islands partition the nodes. */
  lemma BuiltPartitions(mats: seq<Island>, rep: seq<Node>, vec: seq<Node>, cand: seq<bool>, cls: seq<nat>)
    requires NoDup(vec) && |vec| == |cand| == |cls| && Built(mats, rep, vec, cand, cls, |vec|)
    ensures Partitions(mats, Elems(vec), RepOf(vec, rep)) && Represents(RepOf(vec, rep), Elems(vec))
    ensures forall x :: x in vec ==> RepOf(vec, rep)(x) in Elems(vec) + FreshNodes(mats)
  {
    var h, N := RepOf(vec, rep), Elems(vec);
    forall x | x in N ensures h(x) == x || exists i :: i in mats && h(x) == i.batch {
      if h(x) != x {
        var j :| 0 <= j < |mats| && h(x) == mats[j].batch;
        assert mats[j] in mats;
      }
    }
    forall i | i in mats
      ensures NoDup(i.members) && i.members != [] && Elems(i.members) == (set x | x in N && h(x) == i.batch)
      ensures FreshOf(i) !! N && i.batch != i.entry && i.batch != i.exit && i.entry != i.exit
    {
      var j := IndexOf(mats, i);
      assert Made(mats[j], vec, cand, cls, |vec|);
      forall x ensures x in Elems(i.members) <==> x in N && h(x) == i.batch {
        if x in N {
          MemberIs(vec, cand, cls, i.root, IndexOf(vec, x));
        }
      }
    }
    forall x | x in vec ensures h(x) in N + FreshNodes(mats) {
      BuiltRep(mats, rep, vec, cand, cls, |vec|, IndexOf(vec, x));
    }
    forall x | x in N ensures h(x) == x || h(x) !in N {
      if h(x) != x {
        var i :| i in mats && h(x) == i.batch;
        assert i.batch in FreshOf(i);
      }
    }
  }

  /** Unlinked nodes join without touching the edges. */
  lemma LinkedWithFresh(N: set<Node>, E: set<(Node, Node)>, mats: seq<Island>)
    requires Linked(N, E) && forall i :: i in mats ==> FreshOf(i) !! N && Allocated(i)
    ensures Linked(N + FreshNodes(mats), E)
  {
    forall u | u in FreshNodes(mats) ensures NodeLinked(u, E) {
      var i :| i in mats && u in FreshOf(i);
      assert Targets(E, u) == {} && Sources(E, u) == {};
    }
  }

  /** A batch node holds its sub-graph, whose ends the pass created with it. */
  ghost predicate Owns(i: Island)
    reads i.sub`entry, i.sub`exit, i.sub`isSequence, i.batch`command
  {
    && i.batch.kind == CommandNode && i.batch.command == Batch(i.sub)
    && i.sub.entry == i.entry && i.sub.exit == i.exit && !i.sub.isSequence
    && i.entry.kind == EmptyNode && i.exit.kind == EmptyNode
  }

  /** Build the batches, move the boundary edges onto them and connect the sub-graphs' ends. */
  method Materialize(vec: seq<Node>, cand: seq<bool>, dev: seq<DeviceId>, ghost cls: seq<nat>,
                     island: map<nat, seq<Node>>, ghost E: set<(Node, Node)>)
    returns (mats: seq<Island>, ghost h: Node -> Node, ghost rep: seq<Node>)
    requires NoDup(vec) && |vec| == |cand| == |dev| == |cls| && Uniform(cls, cand, dev) &&
        Grouped(island, vec, cand, cls, |vec|)
    requires forall i :: 0 <= i < |vec| ==> vec[i].iteratorIndex == i && dev[i] == vec[i].device
    requires Linked(Elems(vec), E) && Spans(E, Elems(vec))
    modifies Elems(vec)`successors, Elems(vec)`predecessors
    ensures h == RepOf(vec, rep) && Built(mats, rep, vec, cand, cls, |vec|) && Complete(mats, island, |vec|)
    ensures forall i :: i in mats ==> fresh(FreshOf(i)) && fresh(i.sub) && Owns(i)
    ensures forall j, k :: 0 <= j < k < |mats| ==> mats[j].sub != mats[k].sub
    ensures Linked(Elems(vec) + FreshNodes(mats), Inner(E, h) + Quotient(E, h) + AllEnds(Inner(E, h) + Quotient(E, h),
        mats))
  {
    var es := ListEdges(vec, E);
    var reps;
    reps, mats := BuildIslands(vec, cand, dev, cls, island);
    rep, h := reps, RepOf(vec, reps);
    BuiltPartitions(mats, reps, vec, cand, cls);
    LinkedWithFresh(Elems(vec), E, mats);
    RepIndex(vec, reps);
    hide *;
    Rewire(es, reps, mats, Elems(vec), E, h);
  }

  lemma RepIndex(vec: seq<Node>, rep: seq<Node>)
    requires NoDup(vec) && |rep| == |vec| && forall i :: 0 <= i < |vec| ==> vec[i].iteratorIndex == i
    ensures forall u :: u in Elems(vec) ==> u.iteratorIndex < |rep| && rep[u.iteratorIndex] == RepOf(vec, rep)(u)
  {
    forall u | u in Elems(vec) ensures u.iteratorIndex < |rep| && rep[u.iteratorIndex] == RepOf(vec, rep)(u) {
      var i := IndexOf(vec, u);
    }
  }

  /** Move the boundary edges onto the batches, then connect the ends of the sub-graphs. */
  method Rewire(es: seq<(Node, Node)>, rep: seq<Node>, mats: seq<Island>, ghost N: set<Node>,
                ghost E: set<(Node, Node)>, ghost h: Node -> Node)
    requires NoDup(es) && Elems(es) == E && Spans(E, N) && Linked(N + FreshNodes(mats), E)
    requires Partitions(mats, N, h) && Represents(h, N)
    requires forall u :: u in N ==>
        u.iteratorIndex < |rep| && rep[u.iteratorIndex] == h(u) && h(u) in N + FreshNodes(mats)
    modifies (N + FreshNodes(mats))`successors, (N + FreshNodes(mats))`predecessors
    ensures Linked(N + FreshNodes(mats), Inner(E, h) + Quotient(E, h) + AllEnds(Inner(E, h) + Quotient(E, h), mats))
  {
    ghost var all := N + FreshNodes(mats);
    hide Linked, NoDup, Partitions, AllEnds, Inner, Quotient, FreshNodes, Spans, Represents;
    MoveBoundaries(es, rep, all, N, E, h);
    ConnectAll(mats, all, N, h, Inner(E, h) + Quotient(E, h));
  }

  // ------------------------------------------------------------ the pass

  /** What island detection found on the numbered nodes. */
  ghost predicate Detected(vec: seq<Node>, E: set<(Node, Node)>, cand: seq<bool>, dev: seq<DeviceId>, flood: seq<nat>,
                           cls: seq<nat>) {
    var Q := Quotient(E, Number(vec));
    && |cand| == |dev| == |cls| == |vec| && (forall i :: 0 <= i < |vec| ==> dev[i] == vec[i].device)
    && Joins(flood, Links(Q, cand, dev)) && Coarsens(Q, flood, cls)
    && Uniform(cls, cand, dev) && NoTwins(cls, cand, dev, Quotient(Q, Group(cls)))
    && Uniform(flood, cand, dev) && TwinsJoined(Q, cand, dev, flood, cls)
  }

  /** Number the candidates, detect their islands and group the nodes by island. */
  method DetectAll(vec: seq<Node>, cand: seq<bool>, dev: seq<DeviceId>, ghost E: set<(Node, Node)>)
    returns (island: map<nat, seq<Node>>, ghost flood: seq<nat>, ghost cls: seq<nat>)
    requires NoDup(vec) && Linked(Elems(vec), E) && Spans(E, Elems(vec)) && |cand| == |dev| == |vec|
    requires forall i :: 0 <= i < |vec| ==> vec[i].iteratorIndex == i && dev[i] == vec[i].device
    ensures Detected(vec, E, cand, dev, flood, cls) && Grouped(island, vec, cand, cls, |vec|)
  {
    hide NoDup, Linked, Spells, Joins, Links, Coarsens, Uniform, NoTwins, Grouped, Quotient, TwinsJoined;
    var succ := SuccessorNumbers(vec, E);
    var uf := new UnionFind(|vec|);
    flood := DetectIslands(succ, cand, dev, uf, Quotient(E, Number(vec)));
    cls := uf.cls;
    island := GroupMembers(vec, cand, uf);
  }

  ghost predicate SomeCommand(S: set<Node>) {
    exists x :: x in S && x.kind == CommandNode
  }

  ghost predicate TwoCommands(S: set<Node>) {
    exists x, y :: x in S && y in S && x != y && x.kind == CommandNode && y.kind == CommandNode
  }

  lemma {:induction false} CountIsTwo(s: seq<Node>)
    requires NoDup(s)
    ensures CommandNodes(s) >= 1 <==> SomeCommand(Elems(s))
    ensures CommandNodes(s) >= 2 <==> TwoCommands(Elems(s))
  {
    if s != [] {
      var t, x := s[..|s| - 1], s[|s| - 1];
      CountIsTwo(t);
      assert s == t + [x] && x !in t;
      assert Elems(s) == Elems(t) + {x} && x !in Elems(t);
      if SomeCommand(Elems(t)) {
        var y :| y in Elems(t) && y.kind == CommandNode;
        assert y in Elems(s) && x in Elems(s);
      }
      if TwoCommands(Elems(t)) {
        var y, z :| y in Elems(t) && z in Elems(t) && y != z && y.kind == CommandNode && z.kind == CommandNode;
        assert y in Elems(s) && z in Elems(s);
      }
      assert x in Elems(s);
    }
  }

  /** The islands with two commands or more are exactly the ones materialised. */
  ghost predicate Chosen(mats: seq<Island>, vec: seq<Node>, cand: seq<bool>, cls: seq<nat>)
    requires |vec| == |cand| == |cls|
  {
    && (forall i :: i in mats ==>
          && i.root < |vec| && Elems(i.members) == MembersOf(vec, cand, cls, i.root, |vec|)
          && TwoCommands(Elems(i.members)) && (forall m :: m in i.members ==> m.device == i.batch.device))
    && (forall r: nat :: r < |vec| && TwoCommands(MembersOf(vec, cand, cls, r, |vec|)) ==>
        exists i :: i in mats && i.root == r)
  }

  lemma BuiltIsChosen(mats: seq<Island>, rep: seq<Node>, vec: seq<Node>, cand: seq<bool>, cls: seq<nat>,
                      island: map<nat, seq<Node>>)
    requires |vec| == |cand| == |cls| && Built(mats, rep, vec, cand, cls, |vec|)
    requires Complete(mats, island, |vec|) && Grouped(island, vec, cand, cls, |vec|)
    ensures Chosen(mats, vec, cand, cls)
  {
    forall i | i in mats
      ensures i.root < |vec| && Elems(i.members) == MembersOf(vec, cand, cls, i.root, |vec|) &&
          TwoCommands(Elems(i.members))
      ensures forall m :: m in i.members ==> m.device == i.batch.device
    {
      var j := IndexOf(mats, i);
      assert Made(mats[j], vec, cand, cls, |vec|);
      CountIsTwo(i.members);
    }
    forall r: nat | r < |vec| && TwoCommands(MembersOf(vec, cand, cls, r, |vec|))
      ensures exists i :: i in mats && i.root == r
    {
      var x :| x in MembersOf(vec, cand, cls, r, |vec|);
      var k: nat :| k < |vec| && cand[k] && cls[k] == r && vec[k] == x;
      assert cls[k] in island;
      CountIsTwo(island[r]);
      var j :| 0 <= j < |mats| && mats[j].root == r;
      assert mats[j] in mats;
    }
  }

  /** Batching dissolves the islands not chosen and keeps the others whole. */
  lemma ChosenDissolves(mats: seq<Island>, rep: seq<Node>, vec: seq<Node>, cand: seq<bool>, dev: seq<DeviceId>,
                        cls: seq<nat>)
    requires NoDup(vec) && |vec| == |cand| == |cls| == |dev| && Built(mats, rep, vec, cand, cls, |vec|) &&
        Uniform(cls, cand, dev)
    ensures Dissolves(Elems(vec), ClassOf(vec, cls), set i | i in mats :: i.root, RepOf(vec, rep))
  {
    var h, c, whole := RepOf(vec, rep), ClassOf(vec, cls), set i | i in mats :: i.root;
    forall x, y | x in Elems(vec) && y in Elems(vec)
      ensures h(x) == h(y) <==> x == y || (c(x) == c(y) && c(x) in whole)
    {
      var a, b := IndexOf(vec, x), IndexOf(vec, y);
      ClassAt(vec, cls, a);
      ClassAt(vec, cls, b);
      SameRep(mats, rep, vec, cand, dev, cls, a, b);
    }
  }

  lemma SameRep(mats: seq<Island>, rep: seq<Node>, vec: seq<Node>, cand: seq<bool>, dev: seq<DeviceId>, cls: seq<nat>,
                a: nat, b: nat)
    requires NoDup(vec) && |vec| == |cand| == |cls| == |dev| && Built(mats, rep, vec, cand, cls, |vec|) &&
        Uniform(cls, cand, dev)
    requires a < |vec| && b < |vec|
    ensures rep[a] == rep[b] <==> vec[a] == vec[b] || (cls[a] == cls[b] && cls[a] in set i | i in mats :: i.root)
  {
    RepCases(mats, rep, vec, cand, dev, cls, a);
    RepCases(mats, rep, vec, cand, dev, cls, b);
    assert vec[a] in Elems(vec) && vec[b] in Elems(vec);
    if rep[a] == rep[b] && rep[a] != vec[a] {
      var j :| 0 <= j < |mats| && rep[a] == mats[j].batch;
      assert mats[j] in mats;
    }
    if cls[a] == cls[b] && cls[a] in set i | i in mats :: i.root {
      var i :| i in mats && i.root == cls[a];
      var j := IndexOf(mats, i);
    }
    if vec[a] == vec[b] && a != b {
      assert false;
    }
  }

  /** A member of a chosen root's class is sent to its batch, everything else to itself. */
  lemma RepCases(mats: seq<Island>, rep: seq<Node>, vec: seq<Node>, cand: seq<bool>, dev: seq<DeviceId>, cls: seq<nat>,
                 k: nat)
    requires |vec| == |cand| == |cls| == |dev| && Built(mats, rep, vec, cand, cls, |vec|) && Uniform(cls, cand, dev) &&
        k < |vec|
    ensures forall j :: 0 <= j < |mats| ==> (rep[k] == mats[j].batch <==> cls[k] == mats[j].root)
    ensures rep[k] == vec[k] || (rep[k] !in Elems(vec) && exists j :: 0 <= j < |mats| && rep[k] == mats[j].batch)
  {
    forall j | 0 <= j < |mats| && cls[k] == mats[j].root ensures cand[k] {
      assert Made(mats[j], vec, cand, cls, |vec|);
      assert mats[j].members[0] in Elems(mats[j].members);
      var a: nat :| a < |vec| && cand[a] && cls[a] == mats[j].root;
      assert cand[cls[a]];
    }
    if rep[k] != vec[k] {
      var j :| 0 <= j < |mats| && rep[k] == mats[j].batch;
      assert Made(mats[j], vec, cand, cls, |vec|) && mats[j].batch in FreshOf(mats[j]);
    }
  }

  /** The order result in one place: how the batched graph relates to the original one. */
  lemma BatchedOrder(vec: seq<Node>, E: set<(Node, Node)>, cand: seq<bool>, dev: seq<DeviceId>, flood: seq<nat>,
                     cls: seq<nat>, mats: seq<Island>, rep: seq<Node>, entry: Node, exit: Node)
    requires NoDup(vec) && Coherent(Elems(vec), E, entry, exit) && Detected(vec, E, cand, dev, flood, cls)
    requires Built(mats, rep, vec, cand, cls, |vec|)
    requires forall i :: 0 <= i < |vec| && (vec[i] == entry || vec[i] == exit) ==> !cand[i]
    ensures var h, N := RepOf(vec, rep), Elems(vec);
            && h(entry) == entry && h(exit) == exit
            && (Coherent(Tops(N, h), Quotient(E, h), entry, exit) <==> Acyclic(Quotient(E, h)))
            && (Acyclic(Quotient(E, ClassOf(vec, flood))) ==> Acyclic(Quotient(E, h)))
  {
    var h, N := RepOf(vec, rep), Elems(vec);
    BuiltPartitions(mats, rep, vec, cand, cls);
    CoherentParts(N, E, entry, exit);
    RepCases(mats, rep, vec, cand, dev, cls, IndexOf(vec, entry));
    NotGrouped(mats, rep, vec, cand, cls, IndexOf(vec, entry));
    NotGrouped(mats, rep, vec, cand, cls, IndexOf(vec, exit));
    TopCoherent(N, E, h, entry, exit);
    if Acyclic(Quotient(E, ClassOf(vec, flood))) {
      GroupsCompose(vec, E, flood);
      GroupsCompose(vec, E, cls);
      ChosenDissolves(mats, rep, vec, cand, dev, cls);
      CoherentEnds(N, E, entry, exit);
      DissolveAcyclic(N, E, ClassOf(vec, cls), set i | i in mats :: i.root, h);
    }
  }

  lemma NotGrouped(mats: seq<Island>, rep: seq<Node>, vec: seq<Node>, cand: seq<bool>, cls: seq<nat>, k: nat)
    requires |vec| == |cand| == |cls| && Built(mats, rep, vec, cand, cls, |vec|) && k < |vec| && !cand[k]
    ensures rep[k] == vec[k]
  {
  }

  /** A finished batch: a node over a command graph of its own, holding the island and the edges among its members. */
  ghost predicate Finished(i: Island, E: set<(Node, Node)>)
    reads i.sub, i.batch`command, SubNodes(i)`successors, SubNodes(i)`predecessors
  {
    && Owns(i) && i.sub.nodes == SubNodes(i) && i.sub.edges == SubEdges(E, i)
    && Coherent(SubNodes(i), SubEdges(E, i), i.entry, i.exit) && Linked(SubNodes(i), SubEdges(E, i))
  }

  /** Record, for the specification, what each sub-graph now holds. */
  ghost method Seal(mats: seq<Island>, E: set<(Node, Node)>, tops: set<Node>, Q: set<(Node, Node)>)
    requires Linked(tops, Q)
    requires forall i :: i in mats ==>
        Owns(i) && Coherent(SubNodes(i), SubEdges(E, i), i.entry, i.exit) && Linked(SubNodes(i), SubEdges(E, i))
    requires forall j, k :: 0 <= j < k < |mats| ==> mats[j].sub != mats[k].sub
    modifies (set i | i in mats :: i.sub)`nodes, (set i | i in mats :: i.sub)`edges
    ensures forall i :: i in mats ==> Finished(i, E)
    ensures Linked(tops, Q)
  {
    hide Coherent, Linked, SubEdges;
    var k := 0;
    while k < |mats|
      invariant 0 <= k <= |mats| && Linked(tops, Q)
      invariant forall j :: 0 <= j < k ==>
          mats[j].sub.nodes == SubNodes(mats[j]) && mats[j].sub.edges == SubEdges(E, mats[j])
    {
      assert mats[k] in mats;
      mats[k].sub.nodes := SubNodes(mats[k]);
      mats[k].sub.edges := SubEdges(E, mats[k]);
      k := k + 1;
    }
  }

  /** Detect and materialise the islands of the numbered nodes. */
  method Restructure(vec: seq<Node>, cand: seq<bool>, dev: seq<DeviceId>, ghost E: set<(Node, Node)>,
                     ghost entry: Node, ghost exit: Node)
    returns (ghost flood: seq<nat>, ghost cls: seq<nat>, mats: seq<Island>, ghost h: Node -> Node)
    requires NoDup(vec) && Coherent(Elems(vec), E, entry, exit) && Linked(Elems(vec), E) && |cand| == |dev| == |vec|
    requires forall i :: 0 <= i < |vec| ==> vec[i].iteratorIndex == i && dev[i] == vec[i].device
    requires forall i :: 0 <= i < |vec| && (vec[i] == entry || vec[i] == exit) ==> !cand[i]
    modifies Elems(vec)`successors, Elems(vec)`predecessors
    ensures Partitions(mats, Elems(vec), h) && Represents(h, Elems(vec)) && Linked(Tops(Elems(vec), h), Quotient(E, h))
    ensures forall i :: i in mats ==>
        Owns(i) && Coherent(SubNodes(i), SubEdges(E, i), i.entry, i.exit) && Linked(SubNodes(i), SubEdges(E, i))
    ensures forall i :: i in mats ==> fresh(FreshOf(i)) && fresh(i.sub)
    ensures forall j, k :: 0 <= j < k < |mats| ==> mats[j].sub != mats[k].sub
    ensures Detected(vec, E, cand, dev, flood, cls) && Chosen(mats, vec, cand, cls)
    ensures Coherent(Tops(Elems(vec), h), Quotient(E, h), entry, exit) <==> Acyclic(Quotient(E, h))
    ensures Acyclic(Quotient(E, ClassOf(vec, flood))) ==> Acyclic(Quotient(E, h))
  {
    ghost var N := Elems(vec);
    CoherentSpans(N, E, entry, exit);
    hide Coherent, Linked, Spans, Acyclic, Detected, Chosen, Quotient, Tops, Built, Complete, Grouped, Uniform, NoDup,
        Represents, Partitions, Inner, AllEnds, SubEdges;
    var island;
    island, flood, cls := DetectAll(vec, cand, dev, E);
    DetectedUniform(vec, E, cand, dev, flood, cls);
    ghost var rep;
    mats, h, rep := Materialize(vec, cand, dev, cls, island, E);
    BuiltPartitions(mats, rep, vec, cand, cls);
    BuiltIsChosen(mats, rep, vec, cand, cls, island);
    BatchedOrder(vec, E, cand, dev, flood, cls, mats, rep, entry, exit);
    Parts(mats, N, E, h);
  }

  lemma DetectedUniform(vec: seq<Node>, E: set<(Node, Node)>, cand: seq<bool>, dev: seq<DeviceId>, flood: seq<nat>,
                        cls: seq<nat>)
    requires Detected(vec, E, cand, dev, flood, cls)
    ensures |cand| == |dev| == |cls| == |vec| && Uniform(cls, cand, dev)
  {
  }

  /** The linked nodes fall apart into the top level and the sub-graphs. */
  lemma Parts(mats: seq<Island>, N: set<Node>, E: set<(Node, Node)>, h: Node -> Node)
    requires Partitions(mats, N, h) && Represents(h, N) && Spans(E, N) && Acyclic(E)
    requires Linked(N + FreshNodes(mats), Inner(E, h) + Quotient(E, h) + AllEnds(Inner(E, h) + Quotient(E, h), mats))
    ensures Linked(Tops(N, h), Quotient(E, h))
    ensures forall i :: i in mats ==>
        Coherent(SubNodes(i), SubEdges(E, i), i.entry, i.exit) && Linked(SubNodes(i), SubEdges(E, i))
  {
    hide Linked, Acyclic, Coherent, Inner, Quotient, AllEnds;
    TopLinked(mats, N, E, h, N + FreshNodes(mats));
    forall i | i in mats
      ensures Coherent(SubNodes(i), SubEdges(E, i), i.entry, i.exit) && Linked(SubNodes(i), SubEdges(E, i))
    {
      SubLinked(mats, N, E, h, N + FreshNodes(mats), i);
      IslandParts(mats, N, h, i);
      SubCoherent(E, i);
    }
  }

  /** What the pass makes of the nodes `N` with the edges `E`: the top level is the contraction by `h`,
      every batch a finished command graph, and the top level a command graph exactly when the
      contraction is acyclic, which it is whenever the flood-fill alone closes no cycle. */
  ghost predicate Batched(cg: CommandGraph, N: set<Node>, E: set<(Node, Node)>, vec: seq<Node>, flood: seq<nat>,
                          mats: seq<Island>, h: Node -> Node)
    reads cg, cg.nodes`successors, cg.nodes`predecessors
    reads (set i | i in mats :: i.sub), (set i | i in mats :: i.batch)`command
    reads (set i, u | i in mats && u in SubNodes(i) :: u)`successors,
        (set i, u | i in mats && u in SubNodes(i) :: u)`predecessors
  {
    && Partitions(mats, N, h) && Represents(h, N)
    && cg.nodes == Tops(N, h) && cg.edges == Quotient(E, h) && Linked(cg.nodes, cg.edges)
    && (forall i :: i in mats ==> Finished(i, E))
    && (cg.Valid() <==> Acyclic(Quotient(E, h)))
    && (Acyclic(Quotient(E, ClassOf(vec, flood))) ==> cg.Valid())
  }

  lemma IsBatched(cg: CommandGraph, N: set<Node>, E: set<(Node, Node)>, vec: seq<Node>, flood: seq<nat>,
                  mats: seq<Island>, h: Node -> Node)
    requires Partitions(mats, N, h) && Represents(h, N)
    requires cg.nodes == Tops(N, h) && cg.edges == Quotient(E, h) && Linked(Tops(N, h), Quotient(E, h))
    requires forall i :: i in mats ==> Finished(i, E)
    requires Coherent(Tops(N, h), Quotient(E, h), cg.entry, cg.exit) <==> Acyclic(Quotient(E, h))
    requires Acyclic(Quotient(E, ClassOf(vec, flood))) ==> Acyclic(Quotient(E, h))
    ensures Batched(cg, N, E, vec, flood, mats, h)
  {
    hide Partitions, Represents, Linked, Coherent, Tops, Quotient, Finished;
  }

  /** The islands of the numbered nodes, and the batches they become. */
  method BatchIslands(cg: CommandGraph, vec: seq<Node>)
    returns (ghost cand: seq<bool>, ghost flood: seq<nat>, ghost cls: seq<nat>, mats: seq<Island>,
             ghost h: Node -> Node)
    requires Coherent(cg.nodes, cg.edges, cg.entry, cg.exit) && Linked(cg.nodes, cg.edges) && NoDup(vec) &&
        Elems(vec) == cg.nodes
    requires forall i :: 0 <= i < |vec| ==> vec[i].iteratorIndex == i
    modifies cg`nodes, cg`edges, cg.nodes`successors, cg.nodes`predecessors
    ensures Batched(cg, old(cg.nodes), old(cg.edges), vec, flood, mats, h)
    ensures forall i :: i in mats ==> fresh(FreshOf(i)) && fresh(i.sub)
    ensures exists dev :: Grouping(vec, old(cg.edges), cand, dev, flood, cls, mats)
    ensures Candidates(vec, cg.entry, cg.exit, cand)
  {
    hide Coherent, Linked, Acyclic, Detected, Chosen, Quotient, Tops, NoDup, Represents, Partitions, Finished, SubEdges,
        Batched, Owns, Candidates;
    ghost var N, E := cg.nodes, cg.edges;
    var cands, dev := Describe(vec, cg.entry, cg.exit);
    cand := cands;
    flood, cls, mats, h := Restructure(vec, cands, dev, E, cg.entry, cg.exit);
    Seal(mats, E, Tops(N, h), Quotient(E, h));
    cg.nodes, cg.edges := Tops(N, h), Quotient(E, h);
    IsBatched(cg, N, E, vec, flood, mats, h);
    assert Grouping(vec, E, cand, dev, flood, cls, mats);
  }

  ghost predicate Grouping(vec: seq<Node>, E: set<(Node, Node)>, cand: seq<bool>, dev: seq<DeviceId>, flood: seq<nat>,
                           cls: seq<nat>, mats: seq<Island>) {
    Detected(vec, E, cand, dev, flood, cls) && Chosen(mats, vec, cand, cls)
  }

  /** Two linked candidates of one device share an island. */
  lemma LinkedShare(vec: seq<Node>, E: set<(Node, Node)>, cand: seq<bool>, dev: seq<DeviceId>, flood: seq<nat>,
                    cls: seq<nat>, a: nat, c: nat)
    requires NoDup(vec) && Detected(vec, E, cand, dev, flood, cls) && Spans(E, Elems(vec)) && a < |vec| && c < |vec|
    requires (vec[a], vec[c]) in E && cand[a] && cand[c] && vec[a].device == vec[c].device
    ensures |flood| == |vec| == |cls| && flood[a] == flood[c] && cls[a] == cls[c]
  {
    var Q := Quotient(E, Number(vec));
    forall e | e in E ensures e.0 in vec && e.1 in vec && e.0 != e.1 { assert e.0 in Elems(vec) && e.1 in Elems(vec); }
    NumberedEdge(vec, E, a, c);
    var L := Links(Q, cand, dev);
    assert (a, c).0 < |cand| && (a, c) in L;
    ReachEdge(Undirected(L), a, c);
    assert Joins(flood, L);
  }

  // ------------------------------------------------------------ on the fields of the nodes

  /** An inner node that is neither a nested graph nor holds a batch. */
  ghost predicate Groupable(u: Node, s: Node, t: Node)
    reads u`command
  {
    u != s && u != t && u.kind != GraphNode && (u.kind == CommandNode ==> !u.command.Batch?)
  }

  /** The batches hold nothing but such nodes, and two commands of one device joined by an edge, or with the same
      neighbours, share one. */
  ghost predicate EdgesGrouped(mats: seq<Island>, N: set<Node>, E: set<(Node, Node)>, s: Node, t: Node)
    reads N`command
  {
    && (forall i, u :: i in mats && u in i.members ==> u in N && Groupable(u, s, t) && u.device == i.batch.device)
    && (forall i :: i in mats ==>
          exists u, v :: u in i.members && v in i.members && u != v && u.kind == v.kind == CommandNode)
    && (forall e :: e in E ==> e.0 in N && e.1 in N)
    && (forall u, v ::
         (u in N && v in N && u != v && Groupable(u, s, t) && Groupable(v, s, t) && u.kind == v.kind == CommandNode
          && u.device == v.device && FalseTwins(E, u, v)) ==> exists i :: i in mats && u in i.members && v in i.members)
    && forall e ::
         (e in E && Groupable(e.0, s, t) && Groupable(e.1, s, t) && e.0.kind == e.1.kind == CommandNode
          && e.0.device == e.1.device) ==> exists i :: i in mats && e.0 in i.members && e.1 in i.members
  }

  lemma CandidateAt(vec: seq<Node>, s: Node, t: Node, cand: seq<bool>, k: nat)
    requires Candidates(vec, s, t, cand) && k < |vec|
    ensures |cand| == |vec| && (cand[k] <==> Groupable(vec[k], s, t))
  {
  }

  lemma MemberGroupable(vec: seq<Node>, s: Node, t: Node, E: set<(Node, Node)>, cand: seq<bool>, dev: seq<DeviceId>,
                        flood: seq<nat>, cls: seq<nat>, mats: seq<Island>, i: Island, u: Node)
    requires NoDup(vec) && Candidates(vec, s, t, cand) && Grouping(vec, E, cand, dev, flood, cls, mats)
    requires i in mats && u in i.members
    ensures u in vec && Groupable(u, s, t) && u.device == i.batch.device
  {
    hide Detected, Candidates, Groupable;
    assert |cls| == |cand| == |vec| by { DetectedUniform(vec, E, cand, dev, flood, cls); }
    assert u in Elems(i.members) && u in MembersOf(vec, cand, cls, i.root, |vec|);
    var k := IndexOf(vec, u);
    MemberIs(vec, cand, cls, i.root, k);
    CandidateAt(vec, s, t, cand, k);
  }

  lemma NoLinkLone(E: set<(nat, nat)>, cand: seq<bool>, dev: seq<DeviceId>, flood: seq<nat>, a: nat)
    requires Joins(flood, Links(E, cand, dev)) && a < |flood|
    requires forall e :: e in Links(E, cand, dev) ==> e.0 != a && e.1 != a
    ensures Lone(flood, a)
  {
    var L := Links(E, cand, dev);
    hide Links;
    forall j: nat | j < |flood| && flood[j] == flood[a] ensures j == a {
      assert Reach(Undirected(L), a, j);
      ReachCases(Undirected(L), a, j);
    }
  }

  lemma UniformRooted(cls: seq<nat>, cand: seq<bool>, dev: seq<DeviceId>)
    requires Uniform(cls, cand, dev)
    ensures Rooted(cls)
  {
  }

  /** Lone twins are twin islands. */
  lemma LoneTwins(Q: set<(nat, nat)>, cand: seq<bool>, dev: seq<DeviceId>, flood: seq<nat>, cls: seq<nat>, a: nat,
                  b: nat)
    requires Uniform(flood, cand, dev) && TwinsJoined(Q, cand, dev, flood, cls) && Lone(flood, a) && Lone(flood, b)
    requires forall e :: e in Q ==> e.0 < |flood| && e.1 < |flood| && e.0 != e.1
    requires cand[a] && cand[b] && dev[a] == dev[b] && FalseTwins(Q, a, b)
    ensures |cls| == |flood| && cls[a] == cls[b]
  {
    UniformRooted(flood, cand, dev);
    LoneClass(Q, flood, a);
    LoneClass(Q, flood, b);
    hide Quotient, Uniform, Rooted, Lone, Sources, Targets, TwinsJoined;
    var R := Quotient(Q, Group(flood));
    forall x: nat ensures x in Sources(R, a) <==> x in Sources(R, b) { }
    forall x: nat ensures x in Targets(R, a) <==> x in Targets(R, b) { }
    assert Sources(R, a) == Sources(R, b) && Targets(R, a) == Targets(R, b);
    AreJoined(Q, cand, dev, flood, cls, a, b);
  }

  lemma AreJoined(Q: set<(nat, nat)>, cand: seq<bool>, dev: seq<DeviceId>, flood: seq<nat>, cls: seq<nat>, a: nat,
                  b: nat)
    requires TwinsJoined(Q, cand, dev, flood, cls) && a < |flood| == |cand| == |dev| && b < |flood|
    requires flood[a] == a && flood[b] == b && cand[a] && cand[b] && dev[a] == dev[b]
    requires FalseTwins(Quotient(Q, Group(flood)), a, b)
    ensures |cls| == |flood| && cls[a] == cls[b]
  {
    hide Quotient, FalseTwins;
    assert TwinRoots(Quotient(Q, Group(flood)), cand, dev, flood[a], flood[b]);
  }

  /** Two twin candidates of one device end in one island: with a common neighbour they can be grouped with, through
      that one, else because they are twin islands. */
  lemma TwinsShare(Q: set<(nat, nat)>, cand: seq<bool>, dev: seq<DeviceId>, flood: seq<nat>, cls: seq<nat>, a: nat,
                   b: nat)
    requires Joins(flood, Links(Q, cand, dev)) && Coarsens(Q, flood, cls) && TwinsJoined(Q, cand, dev, flood, cls)
    requires Uniform(flood, cand, dev) && forall e :: e in Q ==> e.0 < |flood| && e.1 < |flood| && e.0 != e.1
    requires a < |flood| && b < |flood| && cand[a] && cand[b] && dev[a] == dev[b] && FalseTwins(Q, a, b)
    ensures |cls| == |flood| && cls[a] == cls[b]
  {
    var L := Links(Q, cand, dev);
    if e :| e in L && (e.0 == a || e.1 == a) {
      var w := if e.0 == a then e.1 else e.0;
      assert e == (e.0, e.1);
      NotAnEdge(Q, a, w);
      NotAnEdge(Q, w, a);
      NotAnEdge(Q, b, w);
      NotAnEdge(Q, w, b);
      LinkJoins(Q, cand, dev, flood, a, w);
      LinkJoins(Q, cand, dev, flood, b, w);
    } else if e :| e in L && (e.0 == b || e.1 == b) {
      var w := if e.0 == b then e.1 else e.0;
      assert e == (e.0, e.1);
      NotAnEdge(Q, a, w);
      NotAnEdge(Q, w, a);
      NotAnEdge(Q, b, w);
      NotAnEdge(Q, w, b);
      LinkJoins(Q, cand, dev, flood, a, w);
      LinkJoins(Q, cand, dev, flood, b, w);
    } else {
      NoLinkLone(Q, cand, dev, flood, a);
      NoLinkLone(Q, cand, dev, flood, b);
      LoneTwins(Q, cand, dev, flood, cls, a, b);
    }
  }

  lemma LinkJoins(Q: set<(nat, nat)>, cand: seq<bool>, dev: seq<DeviceId>, flood: seq<nat>, a: nat, w: nat)
    requires Joins(flood, Links(Q, cand, dev)) && |flood| == |cand| == |dev| && a < |flood| && w < |flood|
    requires (a, w) in Q || (w, a) in Q
    requires cand[a] && cand[w] && dev[a] == dev[w]
    ensures flood[a] == flood[w]
  {
    var L := Links(Q, cand, dev);
    assert (a, w) in Undirected(L) by {
      if (a, w) in Q { assert (a, w).0 < |cand| && (a, w) in L; } else { assert (w, a).0 < |cand| && (w, a) in L; }
    }
    ReachEdge(Undirected(L), a, w);
  }

  /** Two commands of one island are in one batch. */
  lemma ClassShares(vec: seq<Node>, E: set<(Node, Node)>, cand: seq<bool>, dev: seq<DeviceId>, flood: seq<nat>,
                    cls: seq<nat>, mats: seq<Island>, a: nat, c: nat)
    requires NoDup(vec) && Grouping(vec, E, cand, dev, flood, cls, mats) && a < |vec| && c < |vec| && a != c
    requires |cls| == |cand| == |vec| && cls[a] == cls[c] && cand[a] && cand[c]
    requires vec[a].kind == vec[c].kind == CommandNode
    ensures exists i :: i in mats && vec[a] in i.members && vec[c] in i.members
  {
    hide Detected;
    DetectedUniform(vec, E, cand, dev, flood, cls);
    UniformRoot(cls, cand, dev, a);
    var r := cls[a];
    MemberIs(vec, cand, cls, r, a);
    MemberIs(vec, cand, cls, r, c);
    assert vec[a] != vec[c];
    assert TwoCommands(MembersOf(vec, cand, cls, r, |vec|));
    var i :| i in mats && i.root == r;
    assert vec[a] in Elems(i.members) && vec[c] in Elems(i.members);
  }

  lemma NumberedTwins(vec: seq<Node>, E: set<(Node, Node)>, a: nat, b: nat)
    requires NoDup(vec) && Spans(E, Elems(vec)) && a < |vec| && b < |vec| && FalseTwins(E, vec[a], vec[b])
    ensures FalseTwins(Quotient(E, Number(vec)), a, b)
    ensures forall e :: e in Quotient(E, Number(vec)) ==> e.0 < |vec| && e.1 < |vec| && e.0 != e.1
  {
    forall e | e in E ensures e.0 in vec && e.1 in vec && e.0 != e.1 {
      assert e.0 in Elems(vec) && e.1 in Elems(vec);
    }
    NumberedSides(vec, E, a);
    NumberedSides(vec, E, b);
    NumberedRange(vec, E);
    NoLoops(E, Number(vec));
  }

  lemma TwinNodesShare(vec: seq<Node>, s: Node, t: Node, E: set<(Node, Node)>, cand: seq<bool>, dev: seq<DeviceId>,
                       flood: seq<nat>, cls: seq<nat>, mats: seq<Island>, u: Node, v: Node)
    requires NoDup(vec) && Candidates(vec, s, t, cand) && Grouping(vec, E, cand, dev, flood, cls, mats)
    requires Spans(E, Elems(vec)) && u in vec && v in vec && u != v && FalseTwins(E, u, v)
    requires Groupable(u, s, t) && Groupable(v, s, t) && u.kind == v.kind == CommandNode && u.device == v.device
    ensures exists i :: i in mats && u in i.members && v in i.members
  {
    var a, c := IndexOf(vec, u), IndexOf(vec, v);
    hide Candidates, Groupable, Chosen, Joins, Coarsens, TwinsJoined, NoTwins, Uniform, Quotient, FalseTwins, Links,
        NoDup, Spans;
    assert |cls| == |flood| == |vec| == |dev| by { DetectedSizes(vec, E, cand, dev, flood, cls); }
    CandidateAt(vec, s, t, cand, a);
    CandidateAt(vec, s, t, cand, c);
    NumberedTwins(vec, E, a, c);
    TwinsShare(Quotient(E, Number(vec)), cand, dev, flood, cls, a, c);
    ClassShares(vec, E, cand, dev, flood, cls, mats, a, c);
  }

  lemma DetectedSizes(vec: seq<Node>, E: set<(Node, Node)>, cand: seq<bool>, dev: seq<DeviceId>, flood: seq<nat>,
                      cls: seq<nat>)
    requires Detected(vec, E, cand, dev, flood, cls)
    ensures |vec| == |cand| == |dev| == |flood| == |cls|
  {
  }

  lemma EdgeShares(vec: seq<Node>, s: Node, t: Node, E: set<(Node, Node)>, cand: seq<bool>, dev: seq<DeviceId>,
                   flood: seq<nat>, cls: seq<nat>, mats: seq<Island>, e: (Node, Node))
    requires NoDup(vec) && Candidates(vec, s, t, cand) && Grouping(vec, E, cand, dev, flood, cls, mats)
    requires e in E && Spans(E, Elems(vec)) && Groupable(e.0, s, t) && Groupable(e.1, s, t)
    requires e.0.kind == e.1.kind == CommandNode && e.0.device == e.1.device
    ensures exists i :: i in mats && e.0 in i.members && e.1 in i.members
  {
    hide Detected, Candidates, Groupable;
    DetectedUniform(vec, E, cand, dev, flood, cls);
    assert e.0 in Elems(vec) && e.1 in Elems(vec) && e.0 != e.1 && e == (e.0, e.1);
    var a, c := IndexOf(vec, e.0), IndexOf(vec, e.1);
    CandidateAt(vec, s, t, cand, a);
    CandidateAt(vec, s, t, cand, c);
    LinkedShare(vec, E, cand, dev, flood, cls, a, c);
    ClassShares(vec, E, cand, dev, flood, cls, mats, a, c);
  }

  lemma UniformRoot(cls: seq<nat>, cand: seq<bool>, dev: seq<DeviceId>, a: nat)
    requires Uniform(cls, cand, dev) && a < |cls|
    ensures cls[a] < |cls|
  {
  }

  lemma AllEdgesGrouped(vec: seq<Node>, s: Node, t: Node, E: set<(Node, Node)>, cand: seq<bool>, dev: seq<DeviceId>,
                        flood: seq<nat>, cls: seq<nat>, mats: seq<Island>)
    requires NoDup(vec) && Candidates(vec, s, t, cand) && Grouping(vec, E, cand, dev, flood, cls, mats)
    requires Spans(E, Elems(vec))
    ensures EdgesGrouped(mats, Elems(vec), E, s, t)
  {
    hide Grouping, Candidates, Groupable;
    forall i, u | i in mats && u in i.members
      ensures u in vec && Groupable(u, s, t) && u.device == i.batch.device
    {
      MemberGroupable(vec, s, t, E, cand, dev, flood, cls, mats, i, u);
    }
    forall i | i in mats
      ensures exists u, v :: u in i.members && v in i.members && u != v && u.kind == v.kind == CommandNode
    {
      TwoMembers(vec, E, cand, dev, flood, cls, mats, i);
    }
    forall u, v | u in vec && v in vec && u != v && Groupable(u, s, t) && Groupable(v, s, t) &&
        u.kind == v.kind == CommandNode && u.device == v.device && FalseTwins(E, u, v)
      ensures exists i :: i in mats && u in i.members && v in i.members
    {
      TwinNodesShare(vec, s, t, E, cand, dev, flood, cls, mats, u, v);
    }
    forall e | e in E && Groupable(e.0, s, t) && Groupable(e.1, s, t) && e.0.kind == e.1.kind == CommandNode &&
        e.0.device == e.1.device
      ensures exists i :: i in mats && e.0 in i.members && e.1 in i.members
    {
      EdgeShares(vec, s, t, E, cand, dev, flood, cls, mats, e);
    }
  }

  lemma TwoMembers(vec: seq<Node>, E: set<(Node, Node)>, cand: seq<bool>, dev: seq<DeviceId>, flood: seq<nat>,
                   cls: seq<nat>, mats: seq<Island>, i: Island)
    requires Grouping(vec, E, cand, dev, flood, cls, mats) && i in mats
    ensures exists u, v :: u in i.members && v in i.members && u != v && u.kind == v.kind == CommandNode
  {
    hide Detected;
    assert |cls| == |cand| == |vec| by { DetectedUniform(vec, E, cand, dev, flood, cls); }
    assert TwoCommands(Elems(i.members));
    var u, v :| u in Elems(i.members) && v in Elems(i.members) && u != v && u.kind == v.kind == CommandNode;
    assert u in i.members && v in i.members;
  }

  lemma EndsGrouped(vec: seq<Node>, N: set<Node>, E: set<(Node, Node)>, s: Node, t: Node)
    requires NoDup(vec) && Elems(vec) == N && |vec| <= 2 && Coherent(N, E, s, t)
    ensures EdgesGrouped([], N, E, s, t)
  {
    CoherentSpans(N, E, s, t);
    NoDupSize(vec);
    CoherentParts(N, E, s, t);
    OnlyEnds(N, s, t);
  }

  lemma OnlyEnds<V>(N: set<V>, a: V, b: V)
    requires a in N && b in N && a != b && |N| <= 2
    ensures N == {a, b}
  {
    assert |N - {a, b}| == 0;
  }

  /** Group same-device islands into batches, in place. */
  method PassBatch(cg: CommandGraph)
    returns (ghost vec: seq<Node>, ghost cand: seq<bool>, ghost flood: seq<nat>, ghost cls: seq<nat>,
             mats: seq<Island>, ghost h: Node -> Node)
    requires cg.Valid() && cg.Fresh()
    modifies cg, cg.nodes`successors, cg.nodes`predecessors, cg.nodes`walkId, cg.nodes`iteratorIndex
    ensures cg.entry == old(cg.entry) && cg.exit == old(cg.exit)
    ensures NoDup(vec) && Elems(vec) == old(cg.nodes)
    ensures Batched(cg, old(cg.nodes), old(cg.edges), vec, flood, mats, h)
    ensures forall i :: i in mats ==> fresh(FreshOf(i)) && fresh(i.sub)
    ensures |vec| <= 2 ==> mats == []
    ensures |vec| > 2 ==> exists dev :: Grouping(vec, old(cg.edges), cand, dev, flood, cls, mats)
    ensures |vec| > 2 ==> Candidates(vec, cg.entry, cg.exit, cand)
    ensures EdgesGrouped(mats, old(cg.nodes), old(cg.edges), cg.entry, cg.exit)
  {
    ghost var N, E := cg.nodes, cg.edges;
    NothingBatched(N, E, cg.entry, cg.exit);
    hide Coherent, Linked, Acyclic, Quotient, Tops, NoDup, Represents, Partitions, Finished, Batched, Grouping,
        Candidates, EdgesGrouped, Spans;
    CoherentSpans(N, E, cg.entry, cg.exit);
    var nodes := cg.CreateNodeIterators(true);
    vec, cand, flood, cls, mats, h := nodes, [], [], [], [], Itself();
    if |nodes| <= 2 {
      IsBatched(cg, N, E, vec, flood, mats, h);
      EndsGrouped(vec, N, E, cg.entry, cg.exit);
    } else {
      cand, flood, cls, mats, h := BatchIslands(cg, nodes);
      ghost var dev :| Grouping(vec, E, cand, dev, flood, cls, mats);
      AllEdgesGrouped(vec, cg.entry, cg.exit, E, cand, dev, flood, cls, mats);
    }
  }

  ghost function Itself(): Node -> Node {
    (x: Node) => x
  }

  lemma CoherentSpans(N: set<Node>, E: set<(Node, Node)>, entry: Node, exit: Node)
    requires Coherent(N, E, entry, exit)
    ensures Spans(E, N) && Acyclic(E)
  {
    forall e | e in E ensures e.0 != e.1 {
      NoSelfLoop(E, e.0);
    }
  }

  /** With nothing batched the graph is its own contraction. */
  lemma NothingBatched(N: set<Node>, E: set<(Node, Node)>, entry: Node, exit: Node)
    requires Coherent(N, E, entry, exit)
    ensures Partitions([], N, Itself()) && Represents(Itself(), N) && Tops(N, Itself()) == N &&
        Quotient(E, Itself()) == E && Acyclic(E)
  {
    var h := Itself();
    CoherentSpans(N, E, entry, exit);
    forall e | e in E ensures e in Quotient(E, h) {
      InQuotient(E, h, e);
      assert e == (e.0, e.1);
    }
    forall q | q in Quotient(E, h) ensures q in E {
      var e := QuotientEdge(E, h, q);
    }
  }
}
