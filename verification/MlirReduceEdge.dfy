/** The MLIR edge reduction: Kahn's order, the closure accumulated backwards along it, and the operands
    pruned against a snapshot of the successor lists. */
module MlirReduceEdge {
  import opened BitSet2Ds
  import opened Digraphs
  import opened KahnOrders
  import opened Lists
  import opened MlirGraphs
  import opened MlirScans
  import opened Numberings
  import opened Quotients
  import opened ReduceEdge
  import opened TransitiveReduction

  // ------------------------------------------------------------ scanning

  /** The successor lists of the operations, without repetition. */
  method ScanUsers(ops: seq<Op>, ghost E: set<(Op, Op)>) returns (succ: seq<seq<nat>>)
    requires NoDup(ops) && Feeds(Elems(ops), E)
    ensures |succ| == |ops| && Spells(succ, Quotient(E, Number(ops))) && forall i :: 0 <= i < |succ| ==> NoDup(succ[i])
  {
    hide Quotient, Feeds, Users;
    succ := [];
    for i := 0 to |ops|
      invariant |succ| == i && forall k: nat :: k < i ==>
          NoDup(succ[k]) && Elems(succ[k]) == Targets(Quotient(E, Number(ops)), k)
    {
      var js := UsersOf(ops, i);
      NumberedNeighbours(ops, E, i);
      succ := succ + [js];
    }
    SpellsNumbers(ops, E, succ);
  }

  lemma SpellsNumbers(ops: seq<Op>, E: set<(Op, Op)>, succ: seq<seq<nat>>)
    requires Feeds(Elems(ops), E) && |succ| == |ops|
    requires forall k: nat :: k < |succ| ==> Elems(succ[k]) == Targets(Quotient(E, Number(ops)), k)
    ensures Spells(succ, Quotient(E, Number(ops)))
  {
    FeedsWithin(ops, E);
    NumberedRange(ops, E);
  }

  method UsersOf(ops: seq<Op>, i: nat) returns (js: seq<nat>)
    requires i < |ops|
    ensures NoDup(js) && Elems(js) == Users(ops, |ops|, i)
  {
    js := [];
    for j := 0 to |ops|
      invariant NoDup(js) && Elems(js) == Users(ops, j, i)
    {
      assert OperandsAt(ops, j) == ops[j].operands;
      assert Users(ops, j + 1, i) == Users(ops, j, i) + if ops[i] in OperandsAt(ops, j) then {j} else {};
      if ops[i] in ops[j].operands {
        assert j !in Elems(js);
        NoDupSnoc(js, j);
        js := js + [j];
      }
    }
  }

  /** How many different operations of the body feed each operation. */
  method CountOperands(ops: seq<Op>, ghost E: set<(Op, Op)>) returns (indeg: seq<nat>)
    requires NoDup(ops) && Feeds(Elems(ops), E)
    ensures |indeg| == |ops| && forall w: nat :: w < |ops| ==> indeg[w] == |Sources(Quotient(E, Number(ops)), w)|
  {
    hide Quotient, Feeds, Numbers, Sources;
    var idx := IndexOps(ops);
    indeg := [];
    for j := 0 to |ops|
      invariant |indeg| == j && forall w: nat :: w < j ==> indeg[w] == |Sources(Quotient(E, Number(ops)), w)|
    {
      var d := CountDistinct(ops[j].operands, ops, idx);
      NumberedNeighbours(ops, E, j);
      indeg := indeg + [d];
    }
  }

  method CountDistinct(s: seq<Op>, ops: seq<Op>, idx: map<Op, nat>) returns (d: nat)
    requires NoDup(ops) && idx.Keys == Elems(ops)
    ensures d == |Numbers(s, ops)|
  {
    d := 0;
    var seen: set<Op> := {};
    for k := 0 to |s|
      invariant seen == Elems(s[..k]) && d == |Numbers(s[..k], ops)|
    {
      var t := s[k];
      assert s[..k + 1] == s[..k] + [t];
      NumbersMore(s[..k], t, ops);
      if t !in seen {
        if t in idx {
          d := d + 1;
        }
        seen := seen + {t};
      }
    }
    assert s[..|s|] == s;
  }

  lemma NumbersMore(s: seq<Op>, t: Op, ops: seq<Op>)
    ensures Numbers(s + [t], ops) == Numbers(s, ops) + if t in ops then {Number(ops)(t)} else {}
    ensures t in ops && t !in s ==> Number(ops)(t) !in Numbers(s, ops)
    ensures t in s ==> Numbers(s + [t], ops) == Numbers(s, ops)
    ensures t in Elems(ops) <==> t in ops
  {
    if t in ops && Number(ops)(t) in Numbers(s, ops) {
      var x :| x in s && x in ops && Number(ops)(x) == Number(ops)(t);
      assert ops[IndexOf(ops, x)] == ops[IndexOf(ops, t)];
    }
  }

  // ------------------------------------------------------------ closure

  function Upto(n: nat): (s: seq<nat>)
    ensures |s| == n && forall i: nat :: i < n ==> s[i] == i
  {
    seq(n, i => i)
  }

  /** A node whose successors have complete rows gets a complete row. */
  method FillNumber(r: BitSet2D, i: nat, succ: seq<seq<nat>>, ghost E: set<(nat, nat)>, ghost done: set<nat>)
    requires r.Valid() && r.n == |succ| && Spells(succ, E) && i < |succ| && i !in done && Targets(E, i) <= done
    requires Filled(r.Pairs(), Upto(|succ|), Below(|succ|), E, done)
    modifies r.words
    ensures Filled(r.Pairs(), Upto(|succ|), Below(|succ|), E, done + {i})
  {
    ghost var vec, N := Upto(|succ|), Below(|succ|);
    hide Filling, Filled, RowIs, Gathered, ReachSet, Spells;
    FillStart(r.Pairs(), vec, N, E, done, i);
    r.Set(i, i);
    GatheredNone(N, E, i);
    assert succ[i][..0] == [];
    for k := 0 to |succ[i]|
      invariant Filling(r.Pairs(), vec, N, E, done, i, Gathered(N, E, i, succ[i][..k]))
    {
      var s := succ[i][k];
      SuccessorNumber(succ, E, i, k);
      FillInherit(r.Pairs(), vec, N, E, done, i, Gathered(N, E, i, succ[i][..k]), s);
      GatherStep(N, E, i, succ[i], k);
      r.OrRows(i, s);
    }
    AllSuccessors(succ, E, i);
    assert succ[i][..|succ[i]|] == succ[i];
    GatheredAll(N, E, i, succ[i]);
    FillEnd(r.Pairs(), vec, N, E, done, i);
  }

  /** Backwards along a topological order every successor comes first. */
  lemma Backwards(topo: seq<nat>, n: nat, E: set<(nat, nat)>, k: nat)
    requires Schedule(topo, Below(n), E) && k < |topo| && forall e :: e in E ==> e.0 < n && e.1 < n
    ensures topo[k] < n && topo[k] !in Elems(topo[k + 1..]) && Targets(E, topo[k]) <= Elems(topo[k + 1..])
    ensures Elems(topo[k..]) == Elems(topo[k + 1..]) + {topo[k]}
  {
    assert topo[k] in Elems(topo);
    forall w: nat | w in Targets(E, topo[k]) ensures w in topo[k + 1..] {
      NotAnEdge(E, topo[k], w);
      assert (topo[k], w).1 < n && w in Elems(topo);
      var j := IndexOf(topo, w);
      assert topo[j] == topo[k + 1..][j - k - 1];
    }
    assert topo[k..] == [topo[k]] + topo[k + 1..];
  }

  /** The bitset holds the reachability of a graph on `n` numbers. */
  ghost predicate Closes(r: BitSet2D, n: nat, Q: set<(nat, nat)>)
    reads r, r.words
  {
    r.Valid() && r.n == n && forall a: nat, b: nat :: a < n && b < n ==> ((a, b) in r.Pairs() <==> Reach(Q, a, b))
  }

  /** The matrix, filled in reverse topological order, is the reachability of the graph. */
  method FillBackwards(r: BitSet2D, topo: seq<nat>, succ: seq<seq<nat>>, ghost E: set<(nat, nat)>)
    requires r.Valid() && r.n == |succ| && r.Pairs() == {} && Spells(succ, E) && Schedule(topo, Below(|succ|), E)
    modifies r.words
    ensures Closes(r, |succ|, E)
  {
    var k := |topo|;
    assert Elems(topo[k..]) == {};
    while k > 0
      invariant k <= |topo| && Filled(r.Pairs(), Upto(|succ|), Below(|succ|), E, Elems(topo[k..]))
    {
      k := k - 1;
      Backwards(topo, |succ|, E, k);
      FillNumber(r, topo[k], succ, E, Elems(topo[k + 1..]));
    }
    assert topo[0..] == topo;
    ghost var vec := Upto(|succ|);
    forall i: nat, j: nat | i < |succ| && j < |succ| ensures (i, j) in r.Pairs() <==> Reach(E, i, j) {
      assert RowIs(r.Pairs(), vec, i, ReachSet(Below(|succ|), E, vec[i]));
      assert vec[j] == j;
    }
  }

  // ------------------------------------------------------------ pruning

  lemma {:induction false} EraseCounts(s: seq<Op>, x: Op)
    ensures multiset(Erase(s, x)) == multiset(s) - multiset{x}
  {
    if s != [] {
      assert s == [s[0]] + s[1..];
      if s[0] != x {
        EraseCounts(s[1..], x);
        assert multiset(s) == multiset{s[0]} + multiset(s[1..]);
      }
    }
  }

  method TestReach(r: BitSet2D, ghost Q: set<(nat, nat)>, n: nat, a: nat, b: nat) returns (reached: bool)
    requires Closes(r, n, Q) && a < n && b < n
    ensures reached <==> Reach(Q, a, b)
  {
    hide Reach;
    reached := r.Test(a, b);
  }

  /** Is `vi` reachable from another entry of the snapshot? */
  method IsImplied(r: BitSet2D, i: nat, vi: nat, succ: seq<seq<nat>>,
                   ghost Q: set<(nat, nat)>) returns (redundant: bool)
    requires Closes(r, |succ|, Q) && Spells(succ, Q) && i < |succ| && vi < |succ|
    ensures redundant <==> Redundant(Q, (i, vi))
  {
    hide Reach, Closes;
    for k := 0 to |succ[i]|
      invariant forall m :: 0 <= m < k ==> succ[i][m] == vi || !Reach(Q, succ[i][m], vi)
    {
      var wi := succ[i][k];
      SuccessorNumber(succ, Q, i, k);
      if wi != vi {
        var b := TestReach(r, Q, |succ|, wi, vi);
        if b {
          NotAnEdge(Q, i, wi);
          assert (i, wi) in Q && (i, wi).0 == i;
          return true;
        }
      }
    }
    forall f | f in Q && f.0 == i && f.1 != vi ensures !Reach(Q, f.1, vi) {
      assert f.1 in Elems(succ[i]);
      var m := IndexOf(succ[i], f.1);
    }
    return false;
  }

  /** The operations numbered in `gone` have lost one token `x`, the others none. */
  ghost predicate LostOne(ops: seq<Op>, was: seq<seq<Op>>, gone: set<nat>, x: Op)
    reads (set o | o in ops)`operands
  {
    |was| == |ops| && forall j: nat :: j < |ops| ==> OperandsAt(ops, j) == if j in gone then Erase(was[j],
        x) else was[j]
  }

  method LoseOne(ops: seq<Op>, j: nat, x: Op, ghost was: seq<seq<Op>>, ghost gone: set<nat>)
    requires NoDup(ops) && j < |ops| && j !in gone && LostOne(ops, was, gone, x)
    modifies Elems(ops)`operands
    ensures LostOne(ops, was, gone + {j}, x)
  {
    hide Erase;
    assert ops[j] in Elems(ops) && OperandsAt(ops, j) == was[j];
    ops[j].operands := Erase(ops[j].operands, x);
  }

  /** The listed numbers whose edge from `i` is redundant. */
  ghost function RedundantIn(s: seq<nat>, Q: set<(nat, nat)>, i: nat): set<nat> {
    set j | j in s && Redundant(Q, (i, j))
  }

  lemma RedundantMore(s: seq<nat>, Q: set<(nat, nat)>, i: nat, k: nat)
    requires NoDup(s) && k < |s|
    ensures s[k] !in RedundantIn(s[..k], Q, i)
    ensures RedundantIn(s[..k + 1], Q, i) == RedundantIn(s[..k], Q, i) + if Redundant(Q, (i, s[k])) then {s[k]} else {}
  {
    hide Redundant;
    assert s[..k + 1] == s[..k] + [s[k]];
  }

  lemma NoneLost(ops: seq<Op>, was: seq<seq<Op>>, s: seq<nat>, Q: set<(nat, nat)>, i: nat, x: Op)
    requires |was| == |ops| && forall j: nat :: j < |ops| ==> was[j] == ops[j].operands
    ensures LostOne(ops, was, RedundantIn(s[..0], Q, i), x)
  {
  }

  lemma AllLost(ops: seq<Op>, was: seq<seq<Op>>, succ: seq<seq<nat>>, Q: set<(nat, nat)>, i: nat)
    requires |succ| == |ops| && Spells(succ, Q) && i < |ops|
    requires var s := succ[i]; LostOne(ops, was, RedundantIn(s[..|s|], Q, i), ops[i])
    ensures forall j: nat :: j < |ops| ==> ops[j].operands == if (i, j) in Q &&
        Redundant(Q, (i, j)) then Erase(was[j], ops[i]) else was[j]
  {
    hide Redundant, Erase;
    AllSuccessors(succ, Q, i);
    forall j: nat | j < |ops|
      ensures ops[j].operands == if (i, j) in Q && Redundant(Q, (i, j)) then Erase(was[j], ops[i]) else was[j]
    {
      NotAnEdge(Q, i, j);
      assert OperandsAt(ops, j) == ops[j].operands;
      assert j in succ[i][..|succ[i]|] <==> j in Elems(succ[i][..|succ[i]|]);
    }
  }

  ghost function AllOperands(ops: seq<Op>): (s: seq<seq<Op>>)
    reads (set o | o in ops)`operands
    ensures |s| == |ops| && forall j: nat :: j < |ops| ==> s[j] == ops[j].operands
  {
    if ops == [] then [] else AllOperands(ops[..|ops| - 1]) + [ops[|ops| - 1].operands]
  }

  /** Take the first token of `ops[i]` out of every operation it redundantly feeds. */
  method PruneOp(r: BitSet2D, ops: seq<Op>, i: nat, succ: seq<seq<nat>>, ghost Q: set<(nat, nat)>)
    requires Closes(r, |succ|, Q) && |succ| == |ops| && Spells(succ, Q) && i < |succ| && NoDup(succ[i]) && NoDup(ops)
    modifies Elems(ops)`operands
    ensures forall j: nat :: j < |ops| ==>
      ops[j].operands == if (i, j) in Q && Redundant(Q, (i, j)) then Erase(old(ops[j].operands),
          ops[i]) else old(ops[j].operands)
  {
    hide *;
    ghost var was := AllOperands(ops);
    NoneLost(ops, was, succ[i], Q, i, ops[i]);
    for k := 0 to |succ[i]|
      invariant LostOne(ops, was, RedundantIn(succ[i][..k], Q, i), ops[i])
    {
      SuccessorNumber(succ, Q, i, k);
      RedundantMore(succ[i], Q, i, k);
      var redundant := IsImplied(r, i, succ[i][k], succ, Q);
      if redundant {
        LoseOne(ops, succ[i][k], ops[i], was, RedundantIn(succ[i][..k], Q, i));
      } else {
        assert RedundantIn(succ[i][..k], Q, i) + {} == RedundantIn(succ[i][..k], Q, i);
      }
    }
    AllLost(ops, was, succ, Q, i);
  }

  /** The operations before `i` whose edge to `j` is redundant. */
  ghost function Dropped(ops: seq<Op>, Q: set<(nat, nat)>, i: nat, j: nat): set<Op>
    requires i <= |ops|
  {
    set a: nat | a < i && (a, j) in Q && Redundant(Q, (a, j)) :: ops[a]
  }

  lemma DroppedMore(ops: seq<Op>, Q: set<(nat, nat)>, i: nat, j: nat)
    requires NoDup(ops) && i < |ops|
    ensures ops[i] !in Dropped(ops, Q, i, j)
    ensures Dropped(ops, Q, i + 1, j) == Dropped(ops, Q, i, j) + if (i, j) in Q &&
        Redundant(Q, (i, j)) then {ops[i]} else {}
  {
  }

  /** Every operation has lost one token of each predecessor before `i` whose edge to it is redundant. */
  ghost predicate PrunedUpTo(ops: seq<Op>, Q: set<(nat, nat)>, start: seq<multiset<Op>>, i: nat)
    requires i <= |ops| == |start|
    reads Elems(ops)`operands
  {
    forall j: nat :: j < |ops| ==> TokensLeft(ops, Q, start, i, j)
  }

  ghost predicate TokensLeft(ops: seq<Op>, Q: set<(nat, nat)>, start: seq<multiset<Op>>, i: nat, j: nat)
    requires i <= |ops| == |start| && j < |ops|
    reads Elems(ops)`operands
  {
    multiset(OperandsAt(ops, j)) == start[j] - multiset(Dropped(ops, Q, i, j))
  }

  method PruneTurn(r: BitSet2D, ops: seq<Op>, i: nat, succ: seq<seq<nat>>, ghost Q: set<(nat, nat)>,
                   ghost start: seq<multiset<Op>>)
    requires Closes(r, |succ|, Q) && |succ| == |ops| == |start| && Spells(succ, Q) && i < |succ| && NoDup(succ[i]) &&
        NoDup(ops)
    requires PrunedUpTo(ops, Q, start, i)
    modifies Elems(ops)`operands
    ensures PrunedUpTo(ops, Q, start, i + 1)
  {
    hide Closes, Reach, Redundant, Spells, NoDup, Dropped, Erase;
    label before:
    PruneOp(r, ops, i, succ, Q);
    ghost var next := i + 1;
    forall j: nat | j < |ops| ensures TokensLeft(ops, Q, start, next, j) {
      assert ops[j] in Elems(ops);
      assert old@before(TokensLeft(ops, Q, start, i, j));
      PruneStep(ops, Q, i, j, start[j], old@before(ops[j].operands), ops[j].operands);
    }
  }

  /** Every operation loses one token of each predecessor whose edge is redundant. */
  method PruneAll(r: BitSet2D, ops: seq<Op>, succ: seq<seq<nat>>, ghost Q: set<(nat, nat)>,
                  ghost start: seq<multiset<Op>>)
    requires Closes(r, |succ|, Q) && |succ| == |ops| == |start| && Spells(succ, Q) && NoDup(ops) &&
        forall i :: 0 <= i < |succ| ==> NoDup(succ[i])
    requires forall j: nat :: j < |ops| ==> start[j] == multiset(ops[j].operands)
    modifies Elems(ops)`operands
    ensures PrunedUpTo(ops, Q, start, |ops|)
  {
    hide Closes, Reach, Spells, NoDup, PrunedUpTo;
    NothingDropped(ops, Q, start);
    for i := 0 to |ops|
      invariant PrunedUpTo(ops, Q, start, i)
    {
      PruneTurn(r, ops, i, succ, Q, start);
    }
  }

  lemma PruneStep(ops: seq<Op>, Q: set<(nat, nat)>, i: nat, j: nat, start: multiset<Op>, prev: seq<Op>, now: seq<Op>)
    requires NoDup(ops) && i < |ops| && multiset(prev) == start - multiset(Dropped(ops, Q, i, j))
    requires now == if (i, j) in Q && Redundant(Q, (i, j)) then Erase(prev, ops[i]) else prev
    ensures multiset(now) == start - multiset(Dropped(ops, Q, i + 1, j))
  {
    DroppedMore(ops, Q, i, j);
    EraseCounts(prev, ops[i]);
    OneLess(start, Dropped(ops, Q, i, j), ops[i]);
    hide Dropped, Redundant, Erase, NoDup;
    assert Dropped(ops, Q, i, j) + {} == Dropped(ops, Q, i, j);
  }

  lemma OneLess(start: multiset<Op>, S: set<Op>, x: Op)
    requires x !in S
    ensures start - multiset(S + {x}) == start - multiset(S) - multiset{x}
  {
    assert multiset(S + {x}) == multiset(S) + multiset{x};
  }

  lemma NothingDropped(ops: seq<Op>, Q: set<(nat, nat)>, start: seq<multiset<Op>>)
    requires |start| == |ops| && forall j: nat :: j < |ops| ==> start[j] == multiset(ops[j].operands)
    ensures PrunedUpTo(ops, Q, start, 0)
  {
    forall j: nat | j < |ops| ensures TokensLeft(ops, Q, start, 0, j) {
      assert Dropped(ops, Q, 0, j) == {};
    }
  }

  // ------------------------------------------------------------ the pass

  lemma NumberedAcyclic(ops: seq<Op>, E: set<(Op, Op)>)
    requires NoDup(ops) && Feeds(Elems(ops), E) && Acyclic(E)
    ensures Acyclic(Quotient(E, Number(ops))) && Renames(Elems(ops), E, Number(ops))
    ensures forall q :: q in Quotient(E, Number(ops)) ==> q.0 < |ops| && q.1 < |ops|
  {
    FeedsWithin(ops, E);
    var Q, r := NumberedGraph(ops, E);
    RankedAcyclic(Q, r);
    forall x, y | x in Elems(ops) && y in Elems(ops) && Number(ops)(x) == Number(ops)(y) ensures x == y {
      assert ops[IndexOf(ops, x)] == ops[IndexOf(ops, y)];
    }
  }

  /** The edges left when every redundant one has lost a token. */
  ghost function Left(E: set<(Op, Op)>, D: set<(Op, Op)>): set<(Op, Op)> {
    set e | e in E && (!Redundant(E, e) || e in D)
  }

  /** The edges whose token is taken more than once. */
  ghost function Doubled(E: set<(Op, Op)>): set<(Op, Op)>
    reads (set e | e in E :: e.1)`operands
  {
    set e | e in E && multiset(e.1.operands)[e.0] >= 2
  }

  lemma NothingLeft(E: set<(Op, Op)>, D: set<(Op, Op)>, ops: seq<Op>)
    requires Feeds(Elems(ops), E) && ops == []
    ensures Left(E, D) == E
  {
    assert Elems(ops) == {};
    assert E == {};
  }

  lemma DroppedIs(ops: seq<Op>, E: set<(Op, Op)>, j: nat, x: Op)
    requires NoDup(ops) && Renames(Elems(ops), E, Number(ops)) && j < |ops|
    ensures x in Dropped(ops, Quotient(E, Number(ops)), |ops|, j) <==> (x, ops[j]) in E && Redundant(E, (x, ops[j]))
  {
    var Q := Quotient(E, Number(ops));
    forall e | e in E ensures e.0 in ops && e.1 in ops && e.0 != e.1 { assert e.0 in Elems(ops) && e.1 in Elems(ops); }
    if x in ops {
      var a := IndexOf(ops, x);
      NumberedEdge(ops, E, a, j);
      NumberAt(ops, j);
      NumberAt(ops, a);
      if (x, ops[j]) in E {
        RedundantRenamed(Elems(ops), E, Number(ops), (x, ops[j]));
      }
    }
  }

  /** The operands that are left spell the edges that are left. */
  lemma PrunedFeeds(ops: seq<Op>, E: set<(Op, Op)>, Q: set<(nat, nat)>, D: set<(Op, Op)>, was: map<Op, seq<Op>>,
                    start: seq<multiset<Op>>)
    requires NoDup(ops) && Q == Quotient(E, Number(ops)) && Renames(Elems(ops), E, Number(ops)) &&
        was.Keys == Elems(ops)
    requires forall o :: o in was ==> Elems(was[o]) == Sources(E, o)
    requires D == set e | e in E && e.1 in was && multiset(was[e.1])[e.0] >= 2
    requires |start| == |ops| && PrunedUpTo(ops, Q, start, |ops|)
    requires forall j: nat :: j < |ops| ==> ops[j] in was && start[j] == multiset(was[ops[j]])
    ensures Feeds(Elems(ops), Left(E, D))
  {
    forall o | o in Elems(ops) ensures Elems(o.operands) == Sources(Left(E, D), o) {
      var j: nat := IndexOf(ops, o);
      assert TokensLeft(ops, Q, start, |ops|, j);
      forall x: Op ensures x in Elems(o.operands) <==> x in Sources(Left(E, D), o) {
        DroppedIs(ops, E, j, x);
        NotAnEdge(Left(E, D), x, o);
        NotAnEdge(E, x, o);
        LeftToken(was[o], o.operands, Dropped(ops, Q, |ops|, j), x);
        assert x in Elems(was[o]) <==> x in Sources(E, o);
      }
    }
  }

  lemma LeftToken(was: seq<Op>, now: seq<Op>, S: set<Op>, x: Op)
    requires multiset(now) == multiset(was) - multiset(S)
    ensures x in Elems(now) <==> x in Elems(was) && (x !in S || multiset(was)[x] >= 2)
  {
    assert x in Elems(now) <==> multiset(now)[x] > 0;
    assert x in Elems(was) <==> multiset(was)[x] > 0;
  }

  /** The successor lists, and the reachability they span. */
  method BuildClosure(ops: seq<Op>, ghost E: set<(Op, Op)>) returns (r: BitSet2D, succ: seq<seq<nat>>)
    requires NoDup(ops) && Feeds(Elems(ops), E) && Acyclic(E)
    ensures fresh(r) && |succ| == |ops| && Spells(succ, Quotient(E, Number(ops))) &&
        Closes(r, |succ|, Quotient(E, Number(ops)))
    ensures forall i :: 0 <= i < |succ| ==> NoDup(succ[i])
  {
    NumberedAcyclic(ops, E);
    hide Feeds, Quotient, Acyclic, Schedule, Spells, NoDup, Reach, Sources, Closes;
    ghost var Q := Quotient(E, Number(ops));
    succ := ScanUsers(ops, E);
    var indeg := CountOperands(ops, E);
    var topo := Kahn(succ, indeg, Q);
    r := new BitSet2D(|ops|);
    FillBackwards(r, topo, succ, Q);
  }

  method Prune(ops: seq<Op>, ghost E: set<(Op, Op)>, ghost D: set<(Op, Op)>)
    requires NoDup(ops) && Feeds(Elems(ops), E) && Acyclic(E) && D == Doubled(E)
    modifies Elems(ops)`operands
    ensures Feeds(Elems(ops), Left(E, D))
  {
    ghost var was := map o | o in Elems(ops) :: o.operands;
    NumberedAcyclic(ops, E);
    FedAtStart(ops, E, D, was);
    hide Feeds, Quotient, Left, Doubled, Acyclic, Schedule, Spells, Dropped, NoDup, Renames, Reach, Sources, PrunedUpTo,
        Closes;
    ghost var Q := Quotient(E, Number(ops));
    var r, succ := BuildClosure(ops, E);
    ghost var start := seq(|ops|, j requires 0 <= j < |ops| && ops[j] in was => multiset(was[ops[j]]));
    PruneAll(r, ops, succ, Q, start);
    PrunedFeeds(ops, E, Q, D, was, start);
  }

  /** The pass takes one token per redundant edge: what is left is the transitive reduction, plus the
      redundant edges whose token was doubled. */
  method PassReduceEdge(g: GraphOp)
    requires g.Valid() && Acyclic(g.edges)
    modifies g`edges, Elems(g.body)`operands
    ensures g.Valid() && g.edges == Left(old(g.edges), old(Doubled(g.edges)))
  {
    var ops := g.body;
    var n := |ops|;
    ghost var E, D := g.edges, Doubled(g.edges);
    if n == 0 {
      NothingLeft(E, D, ops);
      return;
    }
    hide Feeds, Left, Doubled, NoDup;
    Prune(ops, E, D);
    g.edges := Left(E, D);
  }

  lemma FedAtStart(ops: seq<Op>, E: set<(Op, Op)>, D: set<(Op, Op)>, was: map<Op, seq<Op>>)
    requires Feeds(Elems(ops), E) && D == Doubled(E) && was == map o | o in Elems(ops) :: o.operands
    ensures forall o :: o in was ==> Elems(was[o]) == Sources(E, o)
    ensures D == set e | e in E && e.1 in was && multiset(was[e.1])[e.0] >= 2
    ensures forall j: nat :: j < |ops| ==> ops[j] in was && was[ops[j]] == ops[j].operands
  {
    forall j: nat | j < |ops| ensures ops[j] in was {
      assert ops[j] in Elems(ops);
    }
  }

  // ------------------------------------------------------------ both reductions

  /** Whatever tokens are doubled, the order of the operations is untouched. */
  lemma LeftSameOrder(E: set<(Op, Op)>, D: set<(Op, Op)>)
    requires Acyclic(E)
    ensures SameOrder(E, Left(E, D))
  {
    ReductionSameOrder(E);
    forall e | e in E ensures Reach(Left(E, D), e.0, e.1) {
      ReachSubset(Reduction(E), Left(E, D), e.0, e.1);
    }
    forall e | e in Left(E, D) ensures Reach(E, e.0, e.1) {
      ReachEdge(E, e.0, e.1);
      assert e == (e.0, e.1);
    }
  }

  /** The POD and the MLIR pass drop the same edges exactly when no redundant edge is doubled. */
  lemma PassesAgree<V>(N: set<V>, E: set<(V, V)>, f: V -> Op, D: set<(Op, Op)>)
    requires Renames(N, E, f) && D <= Quotient(E, f)
    ensures Left(Quotient(E, f), D) == Quotient(Reduction(E), f) <==> forall e :: e in D ==>
        !Redundant(Quotient(E, f), e)
  {
    var F := Quotient(E, f);
    ReductionRenamed(N, E, f);
    assert Reduction(F) <= Left(F, D);
    if forall e :: e in D ==> !Redundant(F, e) {
      assert Left(F, D) == Reduction(F);
    } else {
      var e :| e in D && Redundant(F, e);
      assert e in Left(F, D) && e !in Reduction(F);
    }
  }

  /** Twins `m` and `n`, both before `b` and `c`, batched into `a`, with `b` before `c`: the batch's token
      is held twice, so the pass keeps the edge from `a` to `c` that a path through `b` implies. */
  lemma DoubledTokenStays(m: Op, n: Op, a: Op, b: Op, c: Op)
    requires a != b && a != c && b != c && b !in {m, n} && c !in {m, n} && a !in {m, n}
    requires a.operands == [] && b.operands == Redirected([m, n], {m, n}, a) &&
        c.operands == Redirected([m, n, b], {m, n}, a)
    ensures
      var E := {(a, b), (b, c), (a, c)};
      && Feeds({a, b, c}, E) && Acyclic(E) && Redundant(E, (a, c)) && (a, c) in Doubled(E)
      && Reduction(E) == {(a, b), (b, c)} && Left(E, Doubled(E)) == E
  {
    var E := {(a, b), (b, c), (a, c)};
    assert b.operands == [a, a] && c.operands == [a, a, b];
    forall x | x in {a, b, c} ensures Elems(x.operands) == Sources(E, x) {
      assert (a, b) in E && (b, c) in E && (a, c) in E;
    }
    assert multiset(c.operands)[a] == 2;
    DetourRedundant(a, b, c);
    forall e | e in E ensures e in Left(E, Doubled(E)) {
      if e != (a, c) { assert e in Reduction(E); }
    }
  }

  lemma DetourRedundant(a: Op, b: Op, c: Op)
    requires a != b && a != c && b != c
    ensures var E := {(a, b), (b, c), (a, c)}; Acyclic(E) && Redundant(E, (a, c)) && Reduction(E) == {(a, b), (b, c)}
  {
    var E := {(a, b), (b, c), (a, c)};
    RankedAcyclic(E, (x: Op) => if x == a then 0 else if x == b then 1 else 2);
    assert (a, b) in E && (b, c) in E;
    ReachEdge(E, b, c);
    assert (a, b).1 == b && Redundant(E, (a, c));
    assert !Reach(E, c, b) by {
      AcyclicStrict(E, b, c) by { ReachCases(E, b, c); }
    }
    assert !Redundant(E, (a, b)) && !Redundant(E, (b, c));
  }
}
