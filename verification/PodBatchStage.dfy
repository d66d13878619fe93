/** The POD batch pass seen as one more stage of a run. */
module PodBatchStage {
  import opened CommandGraphs
  import opened Contractions
  import opened Digraphs
  import opened Pipeline
  import opened Plans
  import opened PodBatch
  import opened PodBatchPass
  import opened QuotientCoherence
  import opened Quotients
  import opened BatchReplays

  ghost function GroupsOf(mats: seq<Island>): seq<Contraction<Node>> {
    seq(|mats|, j requires 0 <= j < |mats| => Contraction(Elems(mats[j].members), mats[j].batch))
  }

  ghost function BatchesOf(mats: seq<Island>): seq<Node> {
    seq(|mats|, j requires 0 <= j < |mats| => mats[j].batch)
  }

  lemma IslandsByClass(mats: seq<Island>, N: set<Node>, h: Node -> Node)
    requires Partitions(mats, N, h)
    ensures ByClass(GroupsOf(mats), N, h, BatchesOf(mats))
  {
    var groups := GroupsOf(mats);
    forall j, k | 0 <= j < k < |mats| ensures mats[j].batch != mats[k].batch {
      assert mats[j].batch in FreshOf(mats[j]) && mats[k].batch in FreshOf(mats[k]);
    }
    forall j | 0 <= j < |mats|
      ensures groups[j].batch !in N && groups[j].members == set x | x in N && h(x) == BatchesOf(mats)[j]
    {
      assert mats[j] in mats && mats[j].batch in FreshOf(mats[j]);
    }
  }

  /** The in-place contraction of all islands at once is the contraction of one after the other. */
  lemma IslandsContracted(mats: seq<Island>, N: set<Node>, E: set<(Node, Node)>, h: Node -> Node)
    requires Partitions(mats, N, h) && Represents(h, N) && Spans(E, N) && Acyclic(E)
    ensures Contracted(GroupsOf(mats), N, E) == (Tops(N, h), Quotient(E, h))
  {
    var groups, reps := GroupsOf(mats), BatchesOf(mats);
    var f := ToHome(groups);
    IslandsByClass(mats, N, h);
    ContractedIsQuotient(groups, N, E);
    forall x | x in N ensures f(x) == h(x) {
      HomeIsRep(mats, N, h, x);
    }
    SameQuotient(E, N, f, h);
    var live, tops := Contracted(groups, N, E).0, Tops(N, h);
    forall x | x in live ensures x in tops {
      NodesByClass(groups, N, E, h, reps, x);
      TopCases(mats, N, h, x);
    }
    forall x | x in tops ensures x in live {
      NodesByClass(groups, N, E, h, reps, x);
      TopCases(mats, N, h, x);
    }
    assert live == tops;
    assert Contracted(groups, N, E).1 == Quotient(E, ToHome(groups));
    assert Contracted(groups, N, E) == (live, Quotient(E, f));
  }

  lemma SameQuotient(E: set<(Node, Node)>, N: set<Node>, f: Node -> Node, h: Node -> Node)
    requires Spans(E, N) && forall x :: x in N ==> f(x) == h(x)
    ensures Quotient(E, f) == Quotient(E, h)
  {
    forall q | q in Quotient(E, f) ensures q in Quotient(E, h) {
      var e := QuotientEdge(E, f, q);
      InQuotient(E, h, e);
    }
    forall q | q in Quotient(E, h) ensures q in Quotient(E, f) {
      var e := QuotientEdge(E, h, q);
      InQuotient(E, f, e);
    }
  }

  lemma HomeIsRep(mats: seq<Island>, N: set<Node>, h: Node -> Node, x: Node)
    requires Partitions(mats, N, h) && ByClass(GroupsOf(mats), N, h, BatchesOf(mats)) && x in N
    ensures Home(GroupsOf(mats), x) == h(x)
  {
    HomeByClass(GroupsOf(mats), N, h, BatchesOf(mats), x);
    if h(x) in BatchesOf(mats) {
      var j := IndexOf(BatchesOf(mats), h(x));
    }
    if h(x) != x {
      var i :| i in mats && h(x) == i.batch;
      var j := IndexOf(mats, i);
      assert BatchesOf(mats)[j] == h(x);
    }
  }

  lemma TopCases(mats: seq<Island>, N: set<Node>, h: Node -> Node, x: Node)
    requires Partitions(mats, N, h) && Represents(h, N)
    ensures x in Tops(N, h) <==>
        (x in N && h(x) !in BatchesOf(mats)) || exists j :: 0 <= j < |mats| && GroupsOf(mats)[j].batch == x
  {
    var groups, reps := GroupsOf(mats), BatchesOf(mats);
    forall j | 0 <= j < |mats| ensures groups[j].batch in Tops(N, h) && groups[j].batch !in N {
      assert mats[j] in mats && mats[j].members[0] in Elems(mats[j].members) && mats[j].batch in FreshOf(mats[j]);
    }
    if x in Tops(N, h) {
      var y :| y in N && x == h(y);
      if h(y) == y {
        forall j | 0 <= j < |mats| ensures reps[j] != h(x) { assert groups[j].batch !in N; }
      } else {
        var i :| i in mats && h(y) == i.batch;
        var j := IndexOf(mats, i);
        assert groups[j].batch == x;
      }
    }
    if x in N && h(x) != x {
      var i :| i in mats && h(x) == i.batch;
      var j := IndexOf(mats, i);
      assert reps[j] == h(x);
    }
  }

  lemma IslandFits(i: Island, mats: seq<Island>, N: set<Node>, E: set<(Node, Node)>, h: Node -> Node, s: Node, t: Node)
    requires Partitions(mats, N, h) && i in mats && Finished(i, E) && s in N && t in N && h(s) == s && h(t) == t
    ensures Elems(i.members) != {} && s !in Elems(i.members) && t !in Elems(i.members) && i.batch.kind == CommandNode
  {
    assert i.members[0] in Elems(i.members) && i.batch in FreshOf(i);
    hide Coherent, Linked, SubEdges;
  }

  lemma GroupsFit(mats: seq<Island>, N: set<Node>, E: set<(Node, Node)>, h: Node -> Node, s: Node, t: Node)
    requires Partitions(mats, N, h) && (forall i :: i in mats ==> Finished(i, E)) && s in N && t in N && h(s) == s &&
        h(t) == t
    ensures forall g :: g in GroupsOf(mats) ==>
        g.members != {} && s !in g.members && t !in g.members && g.batch.kind == CommandNode
  {
    forall g | g in GroupsOf(mats)
      ensures g.members != {} && s !in g.members && t !in g.members && g.batch.kind == CommandNode
    {
      var j := IndexOf(GroupsOf(mats), g);
      assert mats[j] in mats;
      hide Partitions, Finished;
      IslandFits(mats[j], mats, N, E, h, s, t);
    }
  }

  /** A POD batch that stayed acyclic is a stage like any other. */
  lemma PodBatchFits(cg: CommandGraph, N: set<Node>, E: set<(Node, Node)>, vec: seq<Node>, flood: seq<nat>,
                     mats: seq<Island>, h: Node -> Node)
    requires Coherent(N, E, cg.entry, cg.exit) && Batched(cg, N, E, vec, flood, mats, h) && cg.Valid()
    requires h(cg.entry) == cg.entry && h(cg.exit) == cg.exit
    ensures Fits(Batches(GroupsOf(mats)), N, E, cg.entry, cg.exit)
    ensures (cg.nodes, cg.edges) == After(Batches(GroupsOf(mats)), N, E)
  {
    BatchedParts(cg, N, E, vec, flood, mats, h);
    hide *;
    CoherentSpans(N, E, cg.entry, cg.exit);
    CoherentParts(N, E, cg.entry, cg.exit);
    IslandsByClass(mats, N, h);
    IslandsContracted(mats, N, E, h);
    SpansWithin(E, N);
    ByClassSensible(GroupsOf(mats), N, E, h, BatchesOf(mats));
    GroupsFit(mats, N, E, h, cg.entry, cg.exit);
    StageIs(GroupsOf(mats), N, E, cg.entry, cg.exit);
  }

  lemma BatchedParts(cg: CommandGraph, N: set<Node>, E: set<(Node, Node)>, vec: seq<Node>, flood: seq<nat>,
                     mats: seq<Island>, h: Node -> Node)
    requires Batched(cg, N, E, vec, flood, mats, h) && cg.Valid()
    ensures Partitions(mats, N, h) && Represents(h, N) && (forall i :: i in mats ==> Finished(i, E))
    ensures (cg.nodes, cg.edges) == (Tops(N, h), Quotient(E, h)) && Acyclic(Quotient(E, h))
  {
    hide Partitions, Represents, Finished, Linked, Tops, Quotient, Acyclic;
  }

  lemma SpansWithin(E: set<(Node, Node)>, N: set<Node>)
    requires Spans(E, N)
    ensures forall e :: e in E ==> e.0 in N && e.1 in N
  {
  }

  lemma StageIs(groups: seq<Contraction<Node>>, N: set<Node>, E: set<(Node, Node)>, s: Node, t: Node)
    requires Sensible(groups, N, E)
    requires forall g :: g in groups ==>
        g.members != {} && s !in g.members && t !in g.members && g.batch.kind == CommandNode
    ensures Fits(Batches(groups), N, E, s, t) && After(Batches(groups), N, E) == Contracted(groups, N, E)
  {
  }

  // ------------------------------------------------------------ what the batches replay

  /** A finished batch replays its island. */
  lemma IslandReplays(i: Island, E: set<(Node, Node)>)
    requires Finished(i, E) && i.entry !in i.members && i.exit !in i.members
    ensures Replays(i.batch, Elems(i.members), Inside(E, Elems(i.members)), Same(Elems(i.members)))
  {
    var S := Elems(i.members);
    var I, K := Inside(E, S), SubEdges(E, i);
    CoherentEnds(SubNodes(i), K, i.entry, i.exit);
    forall u, v | u in S && v in S ensures Before(K, u, v) <==> Before(I, u, v) {
      hide Before, Coherent, Linked, Acyclic, Inside;
      EndsKeepOrder(I, K, i.entry, i.exit, u, v);
    }
    hide Before, Coherent, Linked, Acyclic, Inside, SubEdges;
    HoldsWithEnds(i.batch, S, I);
  }

  /** A batch over the nodes it contracts, between an entry and an exit of its own. */
  lemma HoldsWithEnds(b: Node, S: set<Node>, I: set<(Node, Node)>)
    requires b.command.Batch?
    requires var g := b.command.graph;
             && g.nodes == S + {g.entry, g.exit} && g.entry.kind == EmptyNode && g.exit.kind == EmptyNode
             && forall u, v :: u in S && v in S ==> (Before(g.edges, u, v) <==> Before(I, u, v))
    ensures Replays(b, S, I, Same(S))
  {
    hide Before;
  }

  /** Contracting the islands one after the other, each batch still replays what it contracts. */
  lemma IslandsReplay(mats: seq<Island>, N: set<Node>, E: set<(Node, Node)>, h: Node -> Node)
    requires Partitions(mats, N, h) && Spans(E, N) && Acyclic(E) && forall i :: i in mats ==> Finished(i, E)
    ensures AllReplay(GroupsOf(mats), N, E, SameAll(GroupsOf(mats)))
  {
    var groups := GroupsOf(mats);
    forall j: nat | j < |groups|
      ensures Replays(groups[j].batch, groups[j].members, Inside(Contracted(groups[..j], N, E).1, groups[j].members),
          SameAll(groups)[j])
    {
      var i := mats[j];
      assert i in mats;
      UntouchedIsland(mats, N, E, h, j);
      IslandEnds(mats, N, h, j);
      hide *;
      IslandReplays(i, E);
      GroupAt(mats, j);
    }
  }

  lemma GroupAt(mats: seq<Island>, j: nat)
    requires j < |mats|
    ensures |GroupsOf(mats)| == |mats| && GroupsOf(mats)[j] == Contraction(Elems(mats[j].members), mats[j].batch)
  {
  }

  lemma IslandEnds(mats: seq<Island>, N: set<Node>, h: Node -> Node, j: nat)
    requires Partitions(mats, N, h) && j < |mats|
    ensures mats[j].entry !in mats[j].members && mats[j].exit !in mats[j].members
  {
    assert mats[j] in mats && mats[j].entry in FreshOf(mats[j]) && mats[j].exit in FreshOf(mats[j]);
    assert forall x :: x in mats[j].members ==> x in Elems(mats[j].members);
  }

  lemma UntouchedIsland(mats: seq<Island>, N: set<Node>, E: set<(Node, Node)>, h: Node -> Node, j: nat)
    requires Partitions(mats, N, h) && Spans(E, N) && Acyclic(E) && j < |mats|
    ensures Inside(Contracted(GroupsOf(mats)[..j], N, E).1, Elems(mats[j].members)) == Inside(E, Elems(mats[j].members))
  {
    var groups, reps := GroupsOf(mats), BatchesOf(mats);
    IslandsByClass(mats, N, h);
    hide Partitions, Acyclic, Inside, Contracted;
    forall k: nat | k < j ensures reps[..j][k] != reps[j] {
      assert groups[k].batch != groups[j].batch;
    }
    assert ByClass(groups[..j], N, h, reps[..j]);
    UntouchedInside(groups[..j], N, E, h, reps[..j], reps[j], groups[j].members);
  }
}
