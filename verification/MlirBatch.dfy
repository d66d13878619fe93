/** The greedy grouping of the MLIR batch pass: contract same-device false twins and series on a
    scratch copy of the graph until the queue is empty. */
module MlirBatch {
  import opened CommandGraphs
  import opened Digraphs
  import opened GreedyRuns
  import opened Merging
  import opened Quotients

  class Grouping {
    const n: nat
    const dev: seq<DeviceId>
    const cand: seq<bool>
    const empty: seq<bool>
    var preds: seq<set<nat>>
    var succs: seq<set<nat>>
    var alive: seq<bool>
    var members: seq<seq<nat>>
    ghost var cls: seq<nat>

    /** Every operation in a group of its own. */
    constructor (dev: seq<DeviceId>, cand: seq<bool>, empty: seq<bool>, preds: seq<set<nat>>, succs: seq<set<nat>>,
                 ghost E: set<(nat, nat)>, ghost r: nat -> int)
      requires |dev| == |cand| == |empty| == |preds| == |succs|
      requires forall a: nat :: a < |dev| ==> succs[a] == Targets(E, a) && preds[a] == Sources(E, a)
      requires (forall e :: e in E ==> e.0 < |dev| && e.1 < |dev|) && Ranked(E, r)
      ensures Valid(E, r) && Alive() == TrueAt(seq(n, i => true))
      ensures n == |dev| && this.dev == dev && this.cand == cand && this.empty == empty && cls == Singletons(n)
    {
      this.n, this.dev, this.cand, this.empty, this.preds, this.succs := |dev|, dev, cand, empty, preds, succs;
      alive := seq(|dev|, i => true);
      members := seq(|dev|, i => [i]);
      cls := seq(|dev|, i => i);
      new;
      SingletonGroups(|dev|, E, cls, r);
    }

    /** The edges between the groups, as the scratch sets store them. */
    ghost predicate Stores(Q: set<(nat, nat)>)
      reads `preds, `succs
    {
      && |preds| == n && |succs| == n
      && forall a: nat :: a < n ==> succs[a] == Targets(Q, a) && preds[a] == Sources(Q, a)
    }

    /** The groups partition the operations; a group of two or more holds candidates of one device. */
    ghost predicate Partition()
      reads `alive, `members, `cls
    {
      && |alive| == n && |members| == n && |cls| == n && |dev| == n && |cand| == n && |empty| == n
      && (forall i :: 0 <= i < n ==> cls[i] < n && alive[cls[i]])
      && (forall a :: 0 <= a < n && alive[a] ==> cls[a] == a)
      && (forall a :: 0 <= a < n && alive[a] ==> NoDup(members[a]) && Elems(members[a]) == GroupOf(a))
      && (forall i :: 0 <= i < n ==> dev[i] == dev[cls[i]] && (i != cls[i] ==> cand[i] && cand[cls[i]]))
    }

    ghost function GroupOf(a: nat): set<nat>
      requires |cls| == n
      reads `cls
    {
      set i | 0 <= i < n && cls[i] == a
    }

    /** The scratch graph is exactly the quotient of the operations' edges under the current groups,
        and `r` still ranks it. */
    ghost predicate Valid(E: set<(nat, nat)>, r: nat -> int)
      reads this
    {
      && (forall e :: e in E ==> e.0 < n && e.1 < n)
      && Partition() && Stores(Quotient(E, Group(cls))) && Ranked(Quotient(E, Group(cls)), r)
    }

    predicate CanBatch(a: nat, b: nat)
      requires a < |alive| && b < |alive| && a < |cand| && b < |cand| && a < |dev| && b < |dev|
      reads this
    {
      a != b && alive[a] && alive[b] && cand[a] && cand[b] && dev[a] == dev[b]
    }

    predicate Twins(a: nat, b: nat)
      requires a < |preds| && b < |preds| && a < |succs| && b < |succs|
      reads this
    {
      preds[a] == preds[b] && succs[a] == succs[b]
    }

    predicate AreSeq(a: nat, b: nat)
      requires b < |preds| && a < |succs|
      reads this
    {
      succs[a] == {b} && preds[b] == {a}
    }

    lemma StoredMeans(Q: set<(nat, nat)>, a: nat, b: nat)
      requires Stores(Q) && a < n && b < n
      ensures Twins(a, b) <==> FalseTwins(Q, a, b)
      ensures AreSeq(a, b) <==> Series(Q, a, b)
    {
      assert succs[a] == Targets(Q, a) && preds[a] == Sources(Q, a);
      assert succs[b] == Targets(Q, b) && preds[b] == Sources(Q, b);
    }

    /** The predecessors of `b` now precede `a`. */
    method MovePredecessors(a: nat, b: nat)
      requires |preds| == n && |succs| == n && a < n && b < n && a != b && b !in preds[b]
      requires forall x :: x in preds[b] ==> x < n
      modifies `preds, `succs
      ensures |preds| == n && |succs| == n
      ensures forall y: nat :: y < n ==>
          preds[y] == if y == a then old(preds)[a] + (old(preds)[b] - {a}) else old(preds)[y]
      ensures forall x: nat :: x < n ==>
          succs[x] == if x in old(preds)[b] - {a} then old(succs)[x] - {b} + {a} else old(succs)[x]
    {
      var todo, done := preds[b], {};
      while todo != {}
        invariant todo + done == old(preds)[b] && todo !! done
        invariant |preds| == n && |succs| == n
        invariant forall y: nat :: y < n ==> preds[y] == if y == a then old(preds)[a] + (done - {a}) else old(preds)[y]
        invariant forall x: nat :: x < n ==>
            succs[x] == if x in done - {a} then old(succs)[x] - {b} + {a} else old(succs)[x]
        decreases todo
      {
        var x :| x in todo;
        todo, done := todo - {x}, done + {x};
        if x != a {
          succs := succs[x := succs[x] - {b}];
          succs := succs[x := succs[x] + {a}];
          preds := preds[a := preds[a] + {x}];
        }
      }
    }

    /** The successors of `b` now succeed `a`. */
    method MoveSuccessors(a: nat, b: nat)
      requires |preds| == n && |succs| == n && a < n && b < n && a != b && b !in succs[b]
      requires forall y :: y in succs[b] ==> y < n
      modifies `preds, `succs
      ensures |preds| == n && |succs| == n
      ensures forall x: nat :: x < n ==>
          succs[x] == if x == a then old(succs)[a] + (old(succs)[b] - {a}) else old(succs)[x]
      ensures forall y: nat :: y < n ==>
          preds[y] == if y in old(succs)[b] - {a} then old(preds)[y] - {b} + {a} else old(preds)[y]
    {
      var todo, done := succs[b], {};
      while todo != {}
        invariant todo + done == old(succs)[b] && todo !! done
        invariant |preds| == n && |succs| == n
        invariant forall x: nat :: x < n ==> succs[x] == if x == a then old(succs)[a] + (done - {a}) else old(succs)[x]
        invariant forall y: nat :: y < n ==>
            preds[y] == if y in done - {a} then old(preds)[y] - {b} + {a} else old(preds)[y]
        decreases todo
      {
        var y :| y in todo;
        todo, done := todo - {y}, done + {y};
        if y != a {
          preds := preds[y := preds[y] - {b}];
          preds := preds[y := preds[y] + {a}];
          succs := succs[a := succs[a] + {y}];
        }
      }
    }

    /** Drop any edge between `a` and `b` or on `a` itself, and everything at `b`. */
    method DropSelfLoops(a: nat, b: nat)
      requires |preds| == n && |succs| == n && a < n && b < n && a != b
      modifies `preds, `succs
      ensures |preds| == n && |succs| == n && preds[b] == {} && succs[b] == {}
      ensures preds[a] == old(preds)[a] - {a, b} && succs[a] == old(succs)[a] - {a, b}
      ensures forall x: nat :: x < n && x != a && x != b ==> preds[x] == old(preds)[x] && succs[x] == old(succs)[x]
    {
      preds := preds[a := preds[a] - {b}];
      succs := succs[a := succs[a] - {b}];
      preds := preds[a := preds[a] - {a}];
      succs := succs[a := succs[a] - {a}];
      preds := preds[b := {}];
      succs := succs[b := {}];
    }

    /** Rewrite the scratch sets for `b` absorbed into `a`. */
    method MergeSets(a: nat, b: nat, ghost Q: set<(nat, nat)>)
      requires Stores(Q) && a < n && b < n && a != b
      requires (forall y :: (y, y) !in Q) && forall q :: q in Q ==> q.0 < n && q.1 < n
      modifies `preds, `succs
      ensures Stores(Merged(Q, a, b))
    {
      hide Merged;
      ghost var p, s := preds, succs;
      StoredShape(n, p, s, Q);
      hide Targets, Sources;
      MovePredecessors(a, b);
      assert succs[b] == s[b] && preds[b] == p[b];
      MoveSuccessors(a, b);
      DropSelfLoops(a, b);
      MergeStored(n, Q, p, s, preds, succs, a, b);
    }

    /** Absorb group `b` into group `a`. */
    method Merge(a: nat, b: nat, ghost E: set<(nat, nat)>, ghost r: nat -> int)
      requires Valid(E, r) && a < n && b < n && CanBatch(a, b)
      requires Twins(a, b) || AreSeq(a, b) || AreSeq(b, a)
      modifies `preds, `succs, `alive, `members, `cls
      ensures Valid(E, r)
      ensures alive == old(alive)[b := false]
      ensures cls == Absorbed(old(cls), a, b)
      ensures forall x: nat, y: nat :: x < n && y < n && x != a && y != a && x != b && y != b && AreSeq(x, y) ==>
                old(AreSeq(x, y))
    {
      hide Quotient, Targets, Sources, Ranked, NoDup, Merged, Partition;
      ghost var Q := Quotient(E, Group(cls));
      Sizes();
      QuotientShape(n, E, cls, Q, r);
      StoredMeans(Q, a, b);
      StoredMeans(Q, b, a);
      MergeRanked(Q, r, a, b);
      GroupAbsorb(E, cls, a, b, n);
      AllStored(Q);
      MergeSets(a, b, Q);
      AllStored(Merged(Q, a, b));
      AllSeries(n, Q, a, b);
      MergeMembers(a, b);
    }

    lemma AllStored(Q: set<(nat, nat)>)
      requires Stores(Q)
      ensures |preds| == |succs| == n
      ensures forall x: nat, y: nat :: x < n && y < n ==> (AreSeq(x, y) <==> Series(Q, x, y))
    {
      forall x: nat, y: nat | x < n && y < n ensures AreSeq(x, y) <==> Series(Q, x, y) {
        StoredMeans(Q, x, y);
      }
    }

    lemma Sizes()
      requires Partition()
      ensures |alive| == |members| == |cls| == |dev| == |cand| == |empty| == n && forall i :: 0 <= i < n ==> cls[i] < n
    {
    }

    /** Group `a` takes over the members of `b`. */
    method MergeMembers(a: nat, b: nat)
      requires Partition() && a < n && b < n && a != b && alive[a] && alive[b] && cand[a] && cand[b] && dev[a] == dev[b]
      modifies `alive, `members, `cls
      ensures Partition() && alive == old(alive)[b := false] && cls == Absorbed(old(cls), a, b)
    {
      hide NoDup;
      MembersJoin(members[a], members[b], cls, a, b);
      members := members[a := members[a] + members[b]];
      alive := alive[b := false];
      cls := Absorbed(cls, a, b);
    }
  
    ghost function Alive(): set<nat>
      reads this
    {
      TrueAt(alive)
    }

    lemma AllAlive()
      requires |alive| == n
      ensures (forall a: nat :: a < n ==> alive[a]) ==> Alive() == TrueAt(seq(n, i => true))
    {
    }

    /** The first sibling of `i` (a successor of one of its predecessors) to merge with as a false twin. */
    method FindTwin(i: nat, ghost E: set<(nat, nat)>, ghost r: nat -> int) returns (found: bool, v: nat)
      requires Valid(E, r) && i < n
      ensures found ==> v < n && CanBatch(i, v) && Twins(i, v) && preds[i] != {}
      ensures found ==> forall w: nat :: w < n && CanBatch(i, w) && Twins(i, w) ==> v <= w
      ensures !found ==> forall p: nat, w: nat :: p in preds[i] && p < n && w in succs[p] && w < n ==>
          !(CanBatch(i, w) && Twins(i, w))
    {
      hide Quotient, Ranked;
      QuotientShape(n, E, cls, Quotient(E, Group(cls)), r);
      StoredShape(n, preds, succs, Quotient(E, Group(cls)));
      hide Targets, Sources;
      found, v := false, 0;
      var todo := preds[i];
      while todo != {}
        invariant todo <= preds[i]
        invariant forall p: nat, w: nat :: p in preds[i] - todo && w in succs[p] ==> !(CanBatch(i, w) && Twins(i, w))
        decreases todo
      {
        var p := Least(todo);
        var ws := succs[p];
        while ws != {}
          invariant ws <= succs[p]
          invariant forall w: nat :: w in succs[p] - ws ==> !(CanBatch(i, w) && Twins(i, w))
          decreases ws
        {
          var w := Least(ws);
          if CanBatch(i, w) && Twins(i, w) {
            forall x: nat | x < n && CanBatch(i, x) && Twins(i, x) ensures w <= x {
              assert p in preds[x];
            }
            return true, w;
          }
          ws := ws - {w};
        }
        todo := todo - {p};
      }
    }

    /** A neighbour of `i` on the given side that forms a series with it. */
    method FindSeries(i: nat, forward: bool, ghost E: set<(nat, nat)>, ghost r: nat -> int) returns (found: bool,
                      v: nat)
      requires Valid(E, r) && i < n
      ensures found ==> v < n && CanBatch(i, v) && (if forward then AreSeq(i, v) else AreSeq(v, i))
      ensures !found ==> forall w: nat :: w < n && CanBatch(i, w) ==> !(if forward then AreSeq(i, w) else AreSeq(w, i))
    {
      hide Quotient, Ranked;
      QuotientShape(n, E, cls, Quotient(E, Group(cls)), r);
      StoredShape(n, preds, succs, Quotient(E, Group(cls)));
      hide Targets, Sources;
      found, v := false, 0;
      var todo := if forward then succs[i] else preds[i];
      while todo != {}
        invariant todo <= if forward then succs[i] else preds[i]
        invariant forall w: nat :: w in (if forward then succs[i] else preds[i]) - todo && CanBatch(i, w) ==>
          !(if forward then AreSeq(i, w) else AreSeq(w, i))
        decreases todo
      {
        var w :| w in todo;
        if CanBatch(i, w) && (if forward then AreSeq(i, w) else AreSeq(w, i)) {
          return true, w;
        }
        todo := todo - {w};
      }
    }

    /** One turn for group `i`: merge it with a false twin, else forward, else backward. */
    method TryMerge(i: nat, ghost E: set<(nat, nat)>, ghost r: nat -> int) returns (found: bool)
      requires Valid(E, r) && i < n && alive[i] && cand[i]
      modifies `preds, `succs, `alive, `members, `cls
      ensures Valid(E, r)
      ensures found ==> alive[i] && Alive() < old(Alive())
      ensures Took(E, dev, cand, old(cls), cls, i, found)
      ensures found ==> forall p :: p in SeriesPairs() ==> p.0 == i || p.1 == i || p in old(SeriesPairs())
      ensures !found ==> unchanged(this)
      ensures !found ==> forall v: nat :: v < n && CanBatch(i, v) ==> !AreSeq(i, v) && !AreSeq(v, i)
      ensures !found ==> forall v: nat :: v < n && CanBatch(i, v) && preds[i] != {} ==> !Twins(i, v)
    {
      hide Quotient, Ranked, Partition, Stores, Picks, Idle, TwinOf, Ahead, Behind, Took;
      ghost var Q := Quotient(E, Group(cls));
      var v;
      found, v := FindTwin(i, E, r);
      MeantByRule(i, E, r);
      if found {
        assert Picks(Q, dev, cand, cls, i, v) by { PicksTwin(Q, dev, cand, cls, i, v); }
      } else {
        TwinsAreSiblings(i, E, r);
        assert forall w: nat :: !TwinOf(Q, dev, cand, cls, i, w);
        found, v := FindSeries(i, true, E, r);
        MeantByRule(i, E, r);
        if found {
          assert Picks(Q, dev, cand, cls, i, v) by { PicksAhead(Q, dev, cand, cls, i, v); }
        } else {
          assert forall w: nat :: !Ahead(Q, dev, cand, cls, i, w);
          found, v := FindSeries(i, false, E, r);
          MeantByRule(i, E, r);
          if found {
            assert Picks(Q, dev, cand, cls, i, v) by { PicksBehind(Q, dev, cand, cls, i, v); }
          } else {
            IsIdle(Q, dev, cand, cls, i);
            TookNone(E, dev, cand, cls, i);
          }
        }
      }
      if found {
        AliveShrinks(i, v, E, r);
        TookOne(E, dev, cand, cls, i, v);
        Merge(i, v, E, r);
      }
    }

    /** The tests on the scratch sets are those of the rule on the quotient. */
    lemma MeantByRule(i: nat, E: set<(nat, nat)>, r: nat -> int)
      requires Valid(E, r) && i < n
      ensures |cls| == |cand| == |dev| == n
      ensures var Q := Quotient(E, Group(cls));
              && (forall v: nat :: TwinOf(Q, dev, cand, cls, i, v) <==>
                    v < n && CanBatch(i, v) && Twins(i, v) && preds[i] != {})
              && (forall v: nat :: Ahead(Q, dev, cand, cls, i, v) <==> v < n && CanBatch(i, v) && AreSeq(i, v))
              && (forall v: nat :: Behind(Q, dev, cand, cls, i, v) <==> v < n && CanBatch(i, v) && AreSeq(v, i))
    {
      hide Quotient, Ranked;
      var Q := Quotient(E, Group(cls));
      forall v: nat
        ensures TwinOf(Q, dev, cand, cls, i, v) <==> v < n && CanBatch(i, v) && Twins(i, v) && preds[i] != {}
        ensures Ahead(Q, dev, cand, cls, i, v) <==> v < n && CanBatch(i, v) && AreSeq(i, v)
        ensures Behind(Q, dev, cand, cls, i, v) <==> v < n && CanBatch(i, v) && AreSeq(v, i)
      {
        if v < n {
          LiveRoots(v);
          LiveRoots(i);
          StoredMeans(Q, i, v);
          StoredMeans(Q, v, i);
        }
      }
    }

    lemma LiveRoots(a: nat)
      requires Partition() && a < n
      ensures alive[a] <==> cls[a] == a
    {
    }

    /** A twin of a group with a predecessor is a successor of that predecessor. */
    lemma TwinsAreSiblings(i: nat, E: set<(nat, nat)>, r: nat -> int)
      requires Valid(E, r) && i < n
      requires forall p: nat, w: nat :: p in preds[i] && p < n && w in succs[p] && w < n ==>
          !(CanBatch(i, w) && Twins(i, w))
      ensures forall w: nat :: w < n && CanBatch(i, w) && preds[i] != {} ==> !Twins(i, w)
    {
      QuotientShape(n, E, cls, Quotient(E, Group(cls)), r);
      StoredShape(n, preds, succs, Quotient(E, Group(cls)));
      forall w: nat | w < n && CanBatch(i, w) && preds[i] != {} ensures !Twins(i, w) {
        var p :| p in preds[i];
        assert p in preds[w] ==> w in succs[p];
      }
    }

    lemma AliveShrinks(i: nat, v: nat, E: set<(nat, nat)>, r: nat -> int)
      requires Valid(E, r) && i < n && v < n && CanBatch(i, v)
      ensures |alive| == n && v in Alive() && TrueAt(alive[v := false]) == Alive() - {v}
    {
    }

    /** No group of the queue's kind has a sibling twin or a series neighbour to merge with. */
    ghost predicate Settled(i: nat)
      requires i < n && Partition() && |preds| == n && |succs| == n
      reads this
    {
      forall v: nat :: v < n && CanBatch(i, v) ==> !AreSeq(i, v) && !AreSeq(v, i) && (preds[i] != {} ==> !Twins(i, v))
    }

    /** Groups in series that may be merged are still to have their turn. */
    ghost predicate SeriesQueued(q: seq<nat>)
      requires |preds| == |succs| == |alive| == |cand| == |dev| == n
      reads this
    {
      forall x: nat, y: nat :: x < n && y < n && CanBatch(x, y) && AreSeq(x, y) ==> x in q || y in q
    }

    lemma IsSettled(i: nat)
      requires i < n && Partition() && |preds| == n && |succs| == n
      requires forall v: nat :: v < n && CanBatch(i, v) ==> !AreSeq(i, v) && !AreSeq(v, i)
      requires forall v: nat :: v < n && CanBatch(i, v) && preds[i] != {} ==> !Twins(i, v)
      ensures Settled(i)
    {
    }

    ghost function SeriesPairs(): set<(nat, nat)>
      requires |preds| == |succs| == |alive| == |cand| == |dev| == n
      reads this
    {
      set x: nat, y: nat | x < n && y < n && CanBatch(x, y) && AreSeq(x, y) :: (x, y)
    }

    lemma QueuedPairs(q: seq<nat>)
      requires |preds| == |succs| == |alive| == |cand| == |dev| == n
      ensures SeriesQueued(q) <==> AllQueued(SeriesPairs(), q)
    {
      hide Grouping.CanBatch, Grouping.AreSeq;
      if AllQueued(SeriesPairs(), q) {
        forall x: nat, y: nat | x < n && y < n && CanBatch(x, y) && AreSeq(x, y) ensures x in q || y in q {
          assert (x, y) in SeriesPairs();
        }
      }
    }

    lemma NoPairsAt(i: nat)
      requires |preds| == |succs| == |alive| == |cand| == |dev| == n && i < n
      requires !alive[i] || !cand[i] || forall v: nat :: v < n && CanBatch(i, v) ==> !AreSeq(i, v) && !AreSeq(v, i)
      ensures forall p :: p in SeriesPairs() ==> p.0 != i && p.1 != i
    {
      forall p | p in SeriesPairs() ensures p.0 != i && p.1 != i {
        assert CanBatch(p.0, p.1) && CanBatch(p.1, p.0);
      }
    }

    /** The scratch sets store `Q`, and nothing was left unmerged: no two candidate groups of one device are in
        series, and if every operation kept a group of its own, no two are twins either. */
    ghost predicate Exhausted(Q: set<(nat, nat)>)
      reads this
    {
      && Partition() && Stores(Q) && SeriesQueued([])
      && ((forall a: nat :: a < n ==> alive[a]) ==> forall i: nat :: i < n && cand[i] ==> Settled(i))
    }

    lemma NoSeriesLeft(Q: set<(nat, nat)>, x: nat, y: nat)
      requires Exhausted(Q) && x < n && y < n && CanBatch(x, y)
      ensures !Series(Q, x, y)
    {
      StoredMeans(Q, x, y);
    }

    /** Greedy contraction: a queue of candidates; a group that merged goes to the back.
        At the end nothing is in series; if nothing was merged, nothing could be. */
    method Greedy(ghost E: set<(nat, nat)>, ghost r: nat -> int)
      requires Valid(E, r)
      modifies `preds, `succs, `alive, `members, `cls
      ensures Valid(E, r) && SeriesQueued([]) && |cand| == n
      ensures Alive() == old(Alive()) ==> forall i: nat :: i < n && alive[i] && cand[i] ==> Settled(i)
      ensures exists run :: RunTo(E, dev, cand, State(old(cls), Queue(cand, n)), run, State(cls, []))
    {
      hide Quotient, Ranked, Turns, RunTo;
      var q: seq<nat> := Candidates();
      ghost var all, start := Alive(), State(cls, q);
      ghost var run := [start];
      NoTurns(E, dev, cand, start);
      while q != []
        invariant Valid(E, r) && SeriesQueued(q) && RunTo(E, dev, cand, start, run, State(cls, q))
        invariant forall k :: 0 <= k < |q| ==> q[k] < n
        invariant Alive() <= all
        invariant Alive() == all ==> forall i: nat :: i < n && alive[i] && cand[i] ==> i in q || Settled(i)
        decreases Alive(), |q|
      {
        ghost var was := State(cls, q);
        var rest := Turn(q, E, r);
        OneMore(E, dev, cand, start, run, was, State(cls, rest));
        run := run + [State(cls, rest)];
        assert forall i :: i in q ==> i == q[0] || i in q[1..];
        q := rest;
      }
    }

    method Candidates() returns (q: seq<nat>)
      requires |cand| == n
      ensures q == Queue(cand, n)
      ensures forall i: nat :: i < n && cand[i] ==> i in q
      ensures forall k :: 0 <= k < |q| ==> q[k] < n
    {
      q := [];
      for i := 0 to n
        invariant q == Queue(cand, i)
        invariant forall k :: 0 <= k < |q| ==> q[k] < n
        invariant forall j: nat :: j < i && cand[j] ==> j in q
      {
        if cand[i] {
          q := q + [i];
        }
      }
    }

    method Turn(q: seq<nat>, ghost E: set<(nat, nat)>, ghost r: nat -> int) returns (rest: seq<nat>)
      requires Valid(E, r) && q != [] && (forall k :: 0 <= k < |q| ==> q[k] < n) && SeriesQueued(q)
      modifies `preds, `succs, `alive, `members, `cls
      ensures Valid(E, r) && SeriesQueued(rest)
      ensures forall k :: 0 <= k < |rest| ==> rest[k] < n
      ensures Alive() < old(Alive()) || (rest == q[1..] && unchanged(this))
      ensures Alive() == old(Alive()) && alive[q[0]] && cand[q[0]] ==> Settled(q[0])
      ensures Turns(E, dev, cand, State(old(cls), q), State(cls, rest))
    {
      var i := q[0];
      Sizes();
      LiveRoots(q[0]);
      hide Quotient, Ranked, Stores, Partition, Turns, Took, Grouping.SeriesQueued, Grouping.SeriesPairs, AllQueued,
          Grouping.Settled;
      ghost var was, P := State(cls, q), SeriesPairs();
      QueuedPairs(q);
      rest := q[1..];
      if !alive[i] || !cand[i] {
        TurnSkips(E, dev, cand, was);
        NoPairsAt(i);
        StillQueued(P, P, q, false);
        QueuedPairs(rest);
        return;
      }
      var found := TryMerge(i, E, r);
      TurnTook(E, dev, cand, was, cls, found);
      if found {
        rest := rest + [i];
      } else {
        NoPairsAt(i);
        IsSettled(i);
      }
      StillQueued(P, SeriesPairs(), q, found);
      QueuedPairs(rest);
    }

    /** A group worth a batch: a live candidate with two commands or more. */
    ghost predicate Kept(a: nat)
      requires Partition() && a < n
      reads this
    {
      alive[a] && cand[a] && (InRange(a); CommandCount(members[a], empty) >= 2)
    }

    lemma InRange(a: nat)
      requires Partition() && a < n && alive[a]
      ensures forall k :: 0 <= k < |members[a]| ==>
          members[a][k] < n && cls[members[a][k]] == a && dev[members[a][k]] == dev[a]
    {
      forall k | 0 <= k < |members[a]| ensures members[a][k] < n && cls[members[a][k]] == a {
        assert members[a][k] in Elems(members[a]);
      }
    }

    /** Count the commands of group `a`; the batch runs on the device of the first. */
    method CountCommands(a: nat) returns (commands: nat, device: DeviceId)
      requires Partition() && a < n && alive[a]
      ensures (forall k :: 0 <= k < |members[a]| ==> members[a][k] < n) && commands == CommandCount(members[a], empty)
      ensures device == dev[a]
    {
      InRange(a);
      commands, device := 0, dev[a];
      for k := 0 to |members[a]|
        invariant commands == CommandCount(members[a][..k], empty) && device == dev[a]
      {
        var m := members[a][k];
        assert members[a][..k + 1][..k] == members[a][..k];
        if !empty[m] {
          if commands == 0 {
            device := dev[m];
          }
          commands := commands + 1;
        }
      }
      assert members[a][..|members[a]|] == members[a];
    }

    /** The groups to batch, in index order. */
    method Collect() returns (groups: seq<OpGroup>, ghost reps: seq<nat>)
      requires Partition()
      ensures |groups| == |reps| && NoDup(reps)
      ensures forall a: nat :: a in reps <==> a < n && Kept(a)
      ensures forall k :: 0 <= k < |reps| ==> reps[k] < n && groups[k] == OpGroup(members[reps[k]], dev[reps[k]])
    {
      groups, reps := [], [];
      for i := 0 to n
        invariant |groups| == |reps| && NoDup(reps)
        invariant forall a: nat :: a in reps <==> a < i && Kept(a)
        invariant forall k :: 0 <= k < |reps| ==> reps[k] < i && groups[k] == OpGroup(members[reps[k]], dev[reps[k]])
      {
        if alive[i] && cand[i] && |members[i]| >= 2 {
          var commands, device := CountCommands(i);
          if commands >= 2 {
            groups, reps := groups + [OpGroup(members[i], device)], reps + [i];
          }
        } else if alive[i] && cand[i] {
          FewCommands(i);
        }
      }
    }

    lemma FewCommands(a: nat)
      requires Partition() && a < n && alive[a] && |members[a]| < 2
      ensures !Kept(a)
    {
      InRange(a);
      CommandsAtMost(members[a], empty);
    }
  }

  ghost predicate AllQueued(P: set<(nat, nat)>, q: seq<nat>) {
    forall p :: p in P ==> p.0 in q || p.1 in q
  }

  /** A group that merged goes to the back of the queue; one that did not has nothing to wait for. */
  lemma StillQueued(P: set<(nat, nat)>, P': set<(nat, nat)>, q: seq<nat>, found: bool)
    requires q != [] && AllQueued(P, q)
    requires forall p :: p in P' ==> p in P || (found && (p.0 == q[0] || p.1 == q[0]))
    requires !found ==> forall p :: p in P' ==> p.0 != q[0] && p.1 != q[0]
    ensures AllQueued(P', if found then q[1..] + [q[0]] else q[1..])
  {
    assert forall i :: i in q ==> i == q[0] || i in q[1..];
  }

  /** The first element of an ordered set. */
  function Least(s: set<nat>): (x: nat)
    requires s != {}
    ensures x in s && forall y :: y in s ==> x <= y
  {
    LeastExists(s);
    var x: nat :| x in s && forall y :: y in s ==> x <= y;
    x
  }

  lemma {:induction false} LeastExists(s: set<nat>)
    requires s != {}
    ensures exists x: nat :: x in s && forall y :: y in s ==> x <= y
  {
    var x :| x in s;
    if y :| y in s && y < x {
      var below := set z | z in s && z < x;
      assert x in s && x !in below && y in below;
      LeastExists(below);
      var m: nat :| m in below && forall z :: z in below ==> m <= z;
      forall z | z in s ensures m <= z {
        assert z < x ==> z in below;
      }
    }
  }

  lemma SingletonGroups(n: nat, E: set<(nat, nat)>, cls: seq<nat>, r: nat -> int)
    requires |cls| == n && forall i :: 0 <= i < n ==> cls[i] == i
    requires Ranked(E, r)
    ensures Quotient(E, Group(cls)) == E
  {
    forall e | e in E ensures e in Quotient(E, Group(cls)) {
      assert Group(cls)(e.0) == e.0 && Group(cls)(e.1) == e.1 && e.0 != e.1;
      InQuotient(E, Group(cls), e);
      assert e == (e.0, e.1);
    }
    forall q | q in Quotient(E, Group(cls)) ensures q in E {
      var e := QuotientEdge(E, Group(cls), q);
      assert Group(cls)(e.0) == e.0 && Group(cls)(e.1) == e.1;
      assert e == q;
    }
  }

  datatype OpGroup = OpGroup(members: seq<nat>, device: DeviceId)

  /** How many of the listed operations are commands, given which operations are empty. */
  function CommandCount(s: seq<nat>, empty: seq<bool>): nat
    requires forall k :: 0 <= k < |s| ==> s[k] < |empty|
  {
    if s == [] then 0 else CommandCount(s[..|s| - 1], empty) + if empty[s[|s| - 1]] then 0 else 1
  }

  lemma CommandsAtMost(s: seq<nat>, empty: seq<bool>)
    requires forall k :: 0 <= k < |s| ==> s[k] < |empty|
    ensures CommandCount(s, empty) <= |s|
  {
  }

  ghost function TrueAt(s: seq<bool>): set<nat> {
    set a | 0 <= a < |s| && s[a]
  }

  lemma QuotientShape(n: nat, E: set<(nat, nat)>, cls: seq<nat>, Q: set<(nat, nat)>, r: nat -> int)
    requires |cls| == n && Q == Quotient(E, Group(cls)) && Ranked(Q, r)
    requires (forall e :: e in E ==> e.0 < n && e.1 < n) && forall i :: 0 <= i < n ==> cls[i] < n
    ensures (forall y :: (y, y) !in Q) && forall q :: q in Q ==> q.0 < n && q.1 < n
  {
    forall y: nat ensures (y, y) !in Q {
      assert r((y, y).0) == r((y, y).1);
    }
    forall q | q in Q ensures q.0 < n && q.1 < n {
      var e := QuotientEdge(E, Group(cls), q);
    }
  }

  lemma StoredShape(n: nat, preds: seq<set<nat>>, succs: seq<set<nat>>, Q: set<(nat, nat)>)
    requires |preds| == n && |succs| == n
    requires (forall y :: (y, y) !in Q) && forall q :: q in Q ==> q.0 < n && q.1 < n
    requires forall a: nat :: a < n ==> succs[a] == Targets(Q, a) && preds[a] == Sources(Q, a)
    ensures forall a: nat, x: nat :: a < n && (x in succs[a] || x in preds[a]) ==> x < n && x != a
    ensures forall a: nat, x: nat :: a < n && x < n ==> (x in preds[a] <==> a in succs[x])
  {
    forall a: nat, x: nat | a < n && x < n ensures x in preds[a] <==> a in succs[x] {
      NotAnEdge(Q, x, a);
    }
    forall a: nat, x: nat | a < n && (x in succs[a] || x in preds[a]) ensures x < n && x != a {
      NotAnEdge(Q, x, a);
      NotAnEdge(Q, a, x);
      if x in succs[a] { assert (a, x) in Q && (a, x).1 < n; } else { assert (x, a) in Q && (x, a).0 < n; }
    }
  }

  lemma MembersJoin(s: seq<nat>, t: seq<nat>, cls: seq<nat>, a: nat, b: nat)
    requires a != b && NoDup(s) && NoDup(t)
    requires Elems(s) == (set i | 0 <= i < |cls| && cls[i] == a) && Elems(t) == set i | 0 <= i < |cls| && cls[i] == b
    ensures NoDup(s + t) && Elems(s + t) == set i | 0 <= i < |cls| && Absorbed(cls, a, b)[i] == a
  {
    NoDupConcat(s, t);
  }

  /** The edited sets store the merged quotient. */
  lemma MergeStored(n: nat, Q: set<(nat, nat)>, preds0: seq<set<nat>>, succs0: seq<set<nat>>, preds: seq<set<nat>>,
                    succs: seq<set<nat>>, a: nat, b: nat)
    requires |preds0| == |succs0| == |preds| == |succs| == n && a < n && b < n && a != b
    requires forall x: nat :: x < n ==> succs0[x] == Targets(Q, x) && preds0[x] == Sources(Q, x)
    requires forall y :: (y, y) !in Q
    requires forall x: nat :: x < n ==>
      && succs[x] == Rewritten(a, b, x, succs0[x], succs0[a], succs0[b], preds0[b])
      && preds[x] == Rewritten(a, b, x, preds0[x], preds0[a], preds0[b], succs0[b])
    ensures forall x: nat :: x < n ==>
        succs[x] == Targets(Merged(Q, a, b), x) && preds[x] == Sources(Merged(Q, a, b), x)
  {
    hide Rewritten, Merged;
    forall x: nat | x < n ensures succs[x] == Targets(Merged(Q, a, b), x) && preds[x] == Sources(Merged(Q, a, b), x) {
      MergedNeighbours(Q, a, b, x);
    }
  }

  lemma AllSeries(n: nat, Q: set<(nat, nat)>, a: nat, b: nat)
    requires a != b && forall z :: (z, z) !in Q
    ensures forall x: nat, y: nat :: x < n && y < n && x != a && y != a && x != b && y != b ==>
              (Series(Merged(Q, a, b), x, y) ==> Series(Q, x, y))
  {
    forall x: nat, y: nat | x < n && y < n && x != a && y != a && x != b && y != b
      ensures Series(Merged(Q, a, b), x, y) ==> Series(Q, x, y)
    {
      MergedSeries(Q, a, b, x, y);
    }
  }

  lemma GroupAbsorb(E: set<(nat, nat)>, cls: seq<nat>, a: nat, b: nat, n: nat)
    requires |cls| == n && forall e :: e in E ==> e.0 < n && e.1 < n
    ensures Quotient(E, Group(Absorbed(cls, a, b))) == Merged(Quotient(E, Group(cls)), a, b)
  {
    QuotientCompose(E, Group(cls), Absorb(a, b), Group(Absorbed(cls, a, b)));
  }
}
