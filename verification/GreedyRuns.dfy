/** The greedy grouping rule on its own: which merge each turn of the queue makes, read on the quotient of the
    original edges, and what a whole run of turns leaves. */
module GreedyRuns {
  import opened CommandGraphs
  import opened Digraphs
  import opened Quotients

  ghost function Absorbed(cls: seq<nat>, a: nat, b: nat): (s: seq<nat>)
    ensures |s| == |cls|
  {
    seq(|cls|, i requires 0 <= i < |cls| => if cls[i] == b then a else cls[i])
  }

  // ------------------------------------------------------------ one turn

  /** Two live groups that may share a batch: candidates of one device. */
  ghost predicate Pairable(dev: seq<DeviceId>, cand: seq<bool>, cls: seq<nat>, a: nat, b: nat) {
    && a < |cls| == |cand| == |dev| && b < |cls| && a != b
    && cls[a] == a && cls[b] == b && cand[a] && cand[b] && dev[a] == dev[b]
  }

  /** A false twin that can be found: one with a common predecessor. */
  ghost predicate TwinOf(Q: set<(nat, nat)>, dev: seq<DeviceId>, cand: seq<bool>, cls: seq<nat>, i: nat, v: nat) {
    Pairable(dev, cand, cls, i, v) && Sources(Q, i) != {} && FalseTwins(Q, i, v)
  }

  ghost predicate Ahead(Q: set<(nat, nat)>, dev: seq<DeviceId>, cand: seq<bool>, cls: seq<nat>, i: nat, v: nat) {
    Pairable(dev, cand, cls, i, v) && Series(Q, i, v)
  }

  ghost predicate Behind(Q: set<(nat, nat)>, dev: seq<DeviceId>, cand: seq<bool>, cls: seq<nat>, i: nat, v: nat) {
    Pairable(dev, cand, cls, i, v) && Series(Q, v, i)
  }

  /** The group that `i` absorbs: its first twin, else what is in series after it, else before it. */
  ghost predicate Picks(Q: set<(nat, nat)>, dev: seq<DeviceId>, cand: seq<bool>, cls: seq<nat>, i: nat, v: nat) {
    if exists w: nat :: TwinOf(Q, dev, cand, cls, i, w)
    then TwinOf(Q, dev, cand, cls, i, v) && forall w: nat :: TwinOf(Q, dev, cand, cls, i, w) ==> v <= w
    else if exists w: nat :: Ahead(Q, dev, cand, cls, i, w) then Ahead(Q, dev, cand, cls, i, v)
    else Behind(Q, dev, cand, cls, i, v)
  }

  ghost predicate Idle(Q: set<(nat, nat)>, dev: seq<DeviceId>, cand: seq<bool>, cls: seq<nat>, i: nat) {
    && (forall v: nat :: !TwinOf(Q, dev, cand, cls, i, v)) && (forall v: nat :: !Ahead(Q, dev, cand, cls, i, v))
    && forall v: nat :: !Behind(Q, dev, cand, cls, i, v)
  }

  lemma PicksTwin(Q: set<(nat, nat)>, dev: seq<DeviceId>, cand: seq<bool>, cls: seq<nat>, i: nat, v: nat)
    requires TwinOf(Q, dev, cand, cls, i, v) && forall w: nat :: TwinOf(Q, dev, cand, cls, i, w) ==> v <= w
    ensures Picks(Q, dev, cand, cls, i, v)
  {
  }

  lemma PicksAhead(Q: set<(nat, nat)>, dev: seq<DeviceId>, cand: seq<bool>, cls: seq<nat>, i: nat, v: nat)
    requires (forall w: nat :: !TwinOf(Q, dev, cand, cls, i, w)) && Ahead(Q, dev, cand, cls, i, v)
    ensures Picks(Q, dev, cand, cls, i, v)
  {
  }

  lemma PicksBehind(Q: set<(nat, nat)>, dev: seq<DeviceId>, cand: seq<bool>, cls: seq<nat>, i: nat, v: nat)
    requires (forall w: nat :: !TwinOf(Q, dev, cand, cls, i, w)) && (forall w: nat :: !Ahead(Q, dev, cand, cls, i, w))
    requires Behind(Q, dev, cand, cls, i, v)
    ensures Picks(Q, dev, cand, cls, i, v)
  {
  }

  lemma IsIdle(Q: set<(nat, nat)>, dev: seq<DeviceId>, cand: seq<bool>, cls: seq<nat>, i: nat)
    requires (forall w: nat :: !TwinOf(Q, dev, cand, cls, i, w)) && (forall w: nat :: !Ahead(Q, dev, cand, cls, i, w))
    requires forall w: nat :: !Behind(Q, dev, cand, cls, i, w)
    ensures Idle(Q, dev, cand, cls, i)
  {
  }

  lemma IdlePicks(Q: set<(nat, nat)>, dev: seq<DeviceId>, cand: seq<bool>, cls: seq<nat>, i: nat)
    requires Idle(Q, dev, cand, cls, i)
    ensures forall v: nat :: !Picks(Q, dev, cand, cls, i, v)
  {
    hide TwinOf, Ahead, Behind;
  }

  /** The class of every operation, and the groups still to have their turn. */
  datatype State = State(cls: seq<nat>, queue: seq<nat>)

  /** A turn: the first of the queue merges and goes to the back, or leaves the queue. */
  ghost predicate Turns(E: set<(nat, nat)>, dev: seq<DeviceId>, cand: seq<bool>, x: State, y: State) {
    && x.queue != []
    && var i, Q := x.queue[0], Quotient(E, Group(x.cls));
       if exists v: nat :: Live(cand, x.cls, i) && Picks(Q, dev, cand, x.cls, i, v)
       then y.queue == x.queue[1..] + [i]
            && exists v: nat :: Picks(Q, dev, cand, x.cls, i, v) && y.cls == Absorbed(x.cls, i, v)
       else y == State(x.cls, x.queue[1..])
  }

  ghost predicate Live(cand: seq<bool>, cls: seq<nat>, i: nat) {
    i < |cls| == |cand| && cls[i] == i && cand[i]
  }

  /** Group `i` absorbed what the rule picks, or there was nothing to pick. */
  ghost predicate Took(E: set<(nat, nat)>, dev: seq<DeviceId>, cand: seq<bool>, was: seq<nat>, cls: seq<nat>, i: nat,
                       found: bool) {
    var Q := Quotient(E, Group(was));
    if found then exists v: nat :: Picks(Q, dev, cand, was, i, v) && cls == Absorbed(was, i, v)
    else cls == was && Idle(Q, dev, cand, was, i)
  }

  lemma TookOne(E: set<(nat, nat)>, dev: seq<DeviceId>, cand: seq<bool>, cls: seq<nat>, i: nat, v: nat)
    requires Picks(Quotient(E, Group(cls)), dev, cand, cls, i, v)
    ensures Took(E, dev, cand, cls, Absorbed(cls, i, v), i, true)
  {
    hide Picks, Quotient, Idle;
  }

  lemma TookNone(E: set<(nat, nat)>, dev: seq<DeviceId>, cand: seq<bool>, cls: seq<nat>, i: nat)
    requires Idle(Quotient(E, Group(cls)), dev, cand, cls, i)
    ensures Took(E, dev, cand, cls, cls, i, false)
  {
    hide Picks, Quotient, Idle;
  }

  lemma TurnTook(E: set<(nat, nat)>, dev: seq<DeviceId>, cand: seq<bool>, x: State, cls: seq<nat>, found: bool)
    requires x.queue != [] && Live(cand, x.cls, x.queue[0]) && Took(E, dev, cand, x.cls, cls, x.queue[0], found)
    ensures Turns(E, dev, cand, x, State(cls, if found then x.queue[1..] + [x.queue[0]] else x.queue[1..]))
  {
    hide Picks, Quotient, Idle;
    if !found {
      IdlePicks(Quotient(E, Group(x.cls)), dev, cand, x.cls, x.queue[0]);
    }
  }

  lemma TurnSkips(E: set<(nat, nat)>, dev: seq<DeviceId>, cand: seq<bool>, x: State)
    requires x.queue != [] && !Live(cand, x.cls, x.queue[0])
    ensures Turns(E, dev, cand, x, State(x.cls, x.queue[1..]))
  {
    hide Picks, Quotient;
  }

  ghost predicate IsRun(E: set<(nat, nat)>, dev: seq<DeviceId>, cand: seq<bool>, run: seq<State>) {
    run != [] && forall k :: 0 <= k < |run| - 1 ==> Turns(E, dev, cand, run[k], run[k + 1])
  }

  /** Every operation in a group of its own. */
  ghost function Singletons(n: nat): seq<nat> {
    seq(n, i => i)
  }

  /** The candidates among the first `n` operations, in order. */
  ghost function Queue(cand: seq<bool>, n: nat): seq<nat>
    requires n <= |cand|
  {
    if n == 0 then [] else Queue(cand, n - 1) + if cand[n - 1] then [n - 1] else []
  }

  ghost predicate RunTo(E: set<(nat, nat)>, dev: seq<DeviceId>, cand: seq<bool>, x: State, run: seq<State>,
                        y: State) {
    IsRun(E, dev, cand, run) && run[0] == x && run[|run| - 1] == y
  }

  /** `cls` is what the greedy rule leaves when the queue is empty. */
  ghost predicate Greedily(E: set<(nat, nat)>, dev: seq<DeviceId>, cand: seq<bool>, cls: seq<nat>) {
    exists run :: RunTo(E, dev, cand, State(Singletons(|cand|), Queue(cand, |cand|)), run, State(cls, []))
  }

  lemma NoTurns(E: set<(nat, nat)>, dev: seq<DeviceId>, cand: seq<bool>, x: State)
    ensures RunTo(E, dev, cand, x, [x], x)
  {
  }

  lemma OneMore(E: set<(nat, nat)>, dev: seq<DeviceId>, cand: seq<bool>, x: State, run: seq<State>, y: State, z: State)
    requires RunTo(E, dev, cand, x, run, y) && Turns(E, dev, cand, y, z)
    ensures RunTo(E, dev, cand, x, run + [z], z)
  {
    hide Turns;
    var more := run + [z];
    forall k | 0 <= k < |more| - 1 ensures Turns(E, dev, cand, more[k], more[k + 1]) {
      assert more[k] == run[k] && (k < |run| - 1 ==> more[k + 1] == run[k + 1]);
    }
  }

  // ------------------------------------------------------------ the rule leaves no choice

  lemma PicksOne(Q: set<(nat, nat)>, dev: seq<DeviceId>, cand: seq<bool>, cls: seq<nat>, i: nat, v: nat, w: nat)
    requires Picks(Q, dev, cand, cls, i, v) && Picks(Q, dev, cand, cls, i, w)
    ensures v == w
  {
    hide FalseTwins, Pairable;
    if !(exists x: nat :: TwinOf(Q, dev, cand, cls, i, x)) {
      if exists x: nat :: Ahead(Q, dev, cand, cls, i, x) {
        assert v in Targets(Q, i) && w in Targets(Q, i);
      } else {
        assert v in Sources(Q, i) && w in Sources(Q, i);
      }
    }
  }

  lemma TurnsOne(E: set<(nat, nat)>, dev: seq<DeviceId>, cand: seq<bool>, x: State, y: State, z: State)
    requires Turns(E, dev, cand, x, y) && Turns(E, dev, cand, x, z)
    ensures y == z
  {
    var i, Q := x.queue[0], Quotient(E, Group(x.cls));
    hide Picks, Quotient, Live;
    if exists v: nat :: Live(cand, x.cls, i) && Picks(Q, dev, cand, x.cls, i, v) {
      var v: nat :| Picks(Q, dev, cand, x.cls, i, v) && y.cls == Absorbed(x.cls, i, v);
      var w: nat :| Picks(Q, dev, cand, x.cls, i, w) && z.cls == Absorbed(x.cls, i, w);
      PicksOne(Q, dev, cand, x.cls, i, v, w);
    }
  }

  lemma {:induction false} SameRun(E: set<(nat, nat)>, dev: seq<DeviceId>, cand: seq<bool>, a: seq<State>,
                                   b: seq<State>, k: nat)
    requires IsRun(E, dev, cand, a) && IsRun(E, dev, cand, b) && a[0] == b[0] && k < |a| && k < |b|
    ensures a[k] == b[k]
  {
    hide Turns;
    if k > 0 {
      SameRun(E, dev, cand, a, b, k - 1);
      assert Turns(E, dev, cand, a[k - 1], a[k - 1 + 1]) && Turns(E, dev, cand, b[k - 1], b[k - 1 + 1]);
      TurnsOne(E, dev, cand, a[k - 1], a[k], b[k]);
    }
  }

  lemma QueueLed(E: set<(nat, nat)>, dev: seq<DeviceId>, cand: seq<bool>, x: State, y: State)
    requires Turns(E, dev, cand, x, y)
    ensures x.queue != []
  {
  }

  lemma NoTurnFrom(E: set<(nat, nat)>, dev: seq<DeviceId>, cand: seq<bool>, run: seq<State>, k: nat)
    requires IsRun(E, dev, cand, run) && k < |run| && run[k].queue == []
    ensures k == |run| - 1
  {
    hide Turns;
    if k < |run| - 1 {
      QueueLed(E, dev, cand, run[k], run[k + 1]);
    }
  }

  /** Edges, devices and candidates decide the groups. */
  lemma GroupsDecided(E: set<(nat, nat)>, dev: seq<DeviceId>, cand: seq<bool>, a: seq<nat>, b: seq<nat>)
    requires Greedily(E, dev, cand, a) && Greedily(E, dev, cand, b)
    ensures a == b
  {
    var x := State(Singletons(|cand|), Queue(cand, |cand|));
    hide Turns, Singletons;
    var p :| RunTo(E, dev, cand, x, p, State(a, []));
    var q :| RunTo(E, dev, cand, x, q, State(b, []));
    if |p| <= |q| {
      SameRun(E, dev, cand, p, q, |p| - 1);
      NoTurnFrom(E, dev, cand, q, |p| - 1);
    } else {
      SameRun(E, dev, cand, p, q, |q| - 1);
      NoTurnFrom(E, dev, cand, p, |q| - 1);
    }
  }

  // ------------------------------------------------------------ pairs of the input

  /** Operations the rule may merge on the original edges. */
  ghost predicate InputPair<V>(E: set<(V, V)>, a: V, b: V) {
    a != b && ((Sources(E, a) != {} && FalseTwins(E, a, b)) || Series(E, a, b))
  }

  /** A pair of the input stays one as long as both are alone in their groups. */
  lemma PairStays(E: set<(nat, nat)>, cls: seq<nat>, a: nat, b: nat)
    requires InputPair(E, a, b) && Lone(cls, a) && Lone(cls, b) && Rooted(cls)
    requires forall e :: e in E ==> e.0 < |cls| && e.1 < |cls| && e.0 != e.1
    ensures InputPair(Quotient(E, Group(cls)), a, b) && cls[a] == a && cls[b] == b
  {
    var Q := Quotient(E, Group(cls));
    LoneClass(E, cls, a);
    LoneClass(E, cls, b);
    hide Quotient, Lone, Rooted;
    if Series(E, a, b) {
      assert b in Targets(E, a) && a in Sources(E, b);
      assert Targets(Q, a) == {b} && Sources(Q, b) == {a};
    } else {
      var p :| p in Sources(E, a);
      NotAnEdge(E, p, a);
      assert (p, a).0 < |cls|;
      assert cls[p] in Sources(Q, a);
      assert Sources(Q, a) == Sources(Q, b) && Targets(Q, a) == Targets(Q, b);
    }
  }

  /** A pair still alone after a turn was so before, and its first did not lead the queue. */
  lemma PairWaits(E: set<(nat, nat)>, dev: seq<DeviceId>, cand: seq<bool>, x: State, y: State, a: nat, b: nat)
    requires Turns(E, dev, cand, x, y) && Rooted(x.cls) && |x.cls| == |cand| == |dev|
    requires forall e :: e in E ==> e.0 < |x.cls| && e.1 < |x.cls| && e.0 != e.1
    requires InputPair(E, a, b) && Lone(y.cls, a) && Lone(y.cls, b) && cand[a] && cand[b] && dev[a] == dev[b]
    ensures Lone(x.cls, a) && Lone(x.cls, b)
    ensures a in x.queue || b in x.queue ==> a in y.queue || b in y.queue
  {
    var i, Q := x.queue[0], Quotient(E, Group(x.cls));
    hide Picks, Quotient, InputPair;
    assert x.queue == [i] + x.queue[1..];
    if v: nat :| Live(cand, x.cls, i) && Picks(Q, dev, cand, x.cls, i, v) {
      MergedLone(Q, dev, cand, x, y, i, a);
      MergedLone(Q, dev, cand, x, y, i, b);
    } else {
      PairStays(E, x.cls, a, b);
      PairPicks(Q, dev, cand, x.cls, a, b);
    }
  }

  lemma MergedLone(Q: set<(nat, nat)>, dev: seq<DeviceId>, cand: seq<bool>, x: State, y: State, i: nat, a: nat)
    requires exists v: nat :: Picks(Q, dev, cand, x.cls, i, v) && y.cls == Absorbed(x.cls, i, v)
    requires Lone(y.cls, a)
    ensures Lone(x.cls, a) && a != i
  {
    var v: nat :| Picks(Q, dev, cand, x.cls, i, v) && y.cls == Absorbed(x.cls, i, v);
    assert Pairable(dev, cand, x.cls, i, v) by { hide Pairable; }
    assert y.cls[v] == i && y.cls[i] == i;
    forall j | 0 <= j < |x.cls| && x.cls[j] == x.cls[a] ensures j == a {
      assert y.cls[j] == y.cls[a];
    }
  }

  /** Either of a pair in the quotient has something to merge with. */
  lemma PairPicks(Q: set<(nat, nat)>, dev: seq<DeviceId>, cand: seq<bool>, cls: seq<nat>, a: nat, b: nat)
    requires InputPair(Q, a, b) && Pairable(dev, cand, cls, a, b)
    ensures (exists v: nat :: Picks(Q, dev, cand, cls, a, v)) && exists v: nat :: Picks(Q, dev, cand, cls, b, v)
  {
    assert Pairable(dev, cand, cls, b, a);
    hide Pairable;
    if Series(Q, a, b) {
      assert Ahead(Q, dev, cand, cls, a, b) && Behind(Q, dev, cand, cls, b, a);
    } else {
      assert TwinOf(Q, dev, cand, cls, a, b) && TwinOf(Q, dev, cand, cls, b, a);
    }
    SomePick(Q, dev, cand, cls, a);
    SomePick(Q, dev, cand, cls, b);
  }

  lemma SomePick(Q: set<(nat, nat)>, dev: seq<DeviceId>, cand: seq<bool>, cls: seq<nat>, i: nat)
    requires !Idle(Q, dev, cand, cls, i)
    ensures exists v: nat :: Picks(Q, dev, cand, cls, i, v)
  {
    if w: nat :| TwinOf(Q, dev, cand, cls, i, w) {
      var v := LeastTwin(Q, dev, cand, cls, i, w);
      assert Picks(Q, dev, cand, cls, i, v);
    } else if w: nat :| Ahead(Q, dev, cand, cls, i, w) {
      assert Picks(Q, dev, cand, cls, i, w);
    } else {
      var w: nat :| Behind(Q, dev, cand, cls, i, w);
      assert Picks(Q, dev, cand, cls, i, w);
    }
  }

  lemma {:induction false} LeastTwin(Q: set<(nat, nat)>, dev: seq<DeviceId>, cand: seq<bool>, cls: seq<nat>, i: nat,
                                     w: nat) returns (v: nat)
    requires TwinOf(Q, dev, cand, cls, i, w)
    ensures TwinOf(Q, dev, cand, cls, i, v) && forall x: nat :: TwinOf(Q, dev, cand, cls, i, x) ==> v <= x
    decreases w
  {
    hide TwinOf;
    if x: nat :| x < w && TwinOf(Q, dev, cand, cls, i, x) {
      v := LeastTwin(Q, dev, cand, cls, i, x);
    } else {
      v := w;
    }
  }

  lemma TurnRooted(E: set<(nat, nat)>, dev: seq<DeviceId>, cand: seq<bool>, x: State, y: State)
    requires Turns(E, dev, cand, x, y) && Rooted(x.cls)
    ensures Rooted(y.cls) && |y.cls| == |x.cls|
  {
    var i, Q := x.queue[0], Quotient(E, Group(x.cls));
    hide Quotient, Live;
    if exists v: nat :: Live(cand, x.cls, i) && Picks(Q, dev, cand, x.cls, i, v) {
      var v: nat :| Picks(Q, dev, cand, x.cls, i, v) && y.cls == Absorbed(x.cls, i, v);
      assert Pairable(dev, cand, x.cls, i, v) by { hide Pairable; }
    }
  }

  lemma {:induction false} RunRooted(E: set<(nat, nat)>, dev: seq<DeviceId>, cand: seq<bool>, run: seq<State>, k: nat)
    requires IsRun(E, dev, cand, run) && Rooted(run[0].cls) && k < |run|
    ensures Rooted(run[k].cls) && |run[k].cls| == |run[0].cls|
  {
    hide Turns, Rooted;
    if k > 0 {
      RunRooted(E, dev, cand, run, k - 1);
      assert Turns(E, dev, cand, run[k - 1], run[k - 1 + 1]);
      TurnRooted(E, dev, cand, run[k - 1], run[k]);
    }
  }

  /** A pair of the input that is still alone is still in the queue. */
  lemma {:induction false} PairQueued(E: set<(nat, nat)>, dev: seq<DeviceId>, cand: seq<bool>, run: seq<State>,
                                      k: nat, a: nat, b: nat)
    requires IsRun(E, dev, cand, run) && Rooted(run[0].cls) && k < |run| && |run[0].cls| == |cand| == |dev|
    requires forall e :: e in E ==> e.0 < |cand| && e.1 < |cand| && e.0 != e.1
    requires InputPair(E, a, b) && Lone(run[k].cls, a) && Lone(run[k].cls, b)
    requires a < |cand| && b < |cand| && cand[a] && cand[b] && dev[a] == dev[b] && a in run[0].queue
    ensures a in run[k].queue || b in run[k].queue
  {
    hide Turns, Rooted, InputPair, Lone;
    if k > 0 {
      RunRooted(E, dev, cand, run, k - 1);
      assert Turns(E, dev, cand, run[k - 1], run[k - 1 + 1]);
      PairWaits(E, dev, cand, run[k - 1], run[k], a, b);
      PairQueued(E, dev, cand, run, k - 1, a, b);
    }
  }

  lemma {:induction false} QueueHolds(cand: seq<bool>, n: nat, a: nat)
    requires n <= |cand|
    ensures a in Queue(cand, n) <==> a < n && cand[a]
  {
    if n > 0 {
      QueueHolds(cand, n - 1, a);
    }
  }

  /** Of two candidates of one device that the original edges make twins, with a predecessor, or put in series,
      one at least ends in a group with something else. */
  lemma PairsShare(E: set<(nat, nat)>, dev: seq<DeviceId>, cand: seq<bool>, cls: seq<nat>, a: nat, b: nat)
    requires Greedily(E, dev, cand, cls) && InputPair(E, a, b) && |dev| == |cand|
    requires forall e :: e in E ==> e.0 < |cand| && e.1 < |cand| && e.0 != e.1
    requires a < |cand| && b < |cand| && cand[a] && cand[b] && dev[a] == dev[b]
    ensures |cls| == |cand| && !(Lone(cls, a) && Lone(cls, b))
  {
    var x := State(Singletons(|cand|), Queue(cand, |cand|));
    hide Turns, InputPair, Lone;
    var run :| RunTo(E, dev, cand, x, run, State(cls, []));
    QueueHolds(cand, |cand|, a);
    RunRooted(E, dev, cand, run, |run| - 1);
    if Lone(cls, a) && Lone(cls, b) {
      PairQueued(E, dev, cand, run, |run| - 1, a, b);
    }
  }
}
