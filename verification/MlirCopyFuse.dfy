/** The MLIR copy-fuse pass: false twins that touch each other become one copy. */
module MlirCopyFuse {
  import opened CommandGraphs
  import opened Copies
  import opened CopyFusions
  import opened Digraphs
  import opened Lists
  import opened MlirGraphs
  import opened Traversals

  /** Every operand but `t`. */
  function Dropped(s: seq<Op>, t: Op): seq<Op> {
    if s == [] then [] else Dropped(s[..|s| - 1], t) + if s[|s| - 1] == t then [] else [s[|s| - 1]]
  }

  lemma {:induction false} DroppedElems(s: seq<Op>, t: Op)
    ensures Elems(Dropped(s, t)) == Elems(s) - {t}
  {
    if s != [] {
      DroppedElems(s[..|s| - 1], t);
      assert s == s[..|s| - 1] + [s[|s| - 1]];
      assert Elems(Dropped(s, t)) == Elems(Dropped(s[..|s| - 1], t)) + if s[|s| - 1] == t then {} else {s[|s| - 1]};
    }
  }

  lemma {:induction false} DroppedTail(a: seq<Op>, b: seq<Op>, t: Op)
    ensures Dropped(a + b, t) == Dropped(a, t) + Dropped(b, t)
  {
    if b == [] {
      assert a + b == a;
    } else {
      assert (a + b)[..|a + b| - 1] == a + b[..|b| - 1];
      DroppedTail(a, b[..|b| - 1], t);
    }
  }

  /** Erase the operands equal to `t`, from the last to the first. */
  method EraseOperands(user: Op, t: Op)
    modifies user`operands
    ensures user.operands == Dropped(old(user.operands), t)
  {
    ghost var was := user.operands;
    var k := |user.operands|;
    while k > 0
      invariant 0 <= k <= |was| && k <= |user.operands|
      invariant user.operands == was[..k] + Dropped(was[k..], t)
    {
      k := k - 1;
      assert was[k..] == [was[k]] + was[k + 1..];
      DroppedTail([was[k]], was[k + 1..], t);
      assert [was[k]][..0] == [];
      if user.operands[k] == t {
        user.operands := user.operands[..k] + user.operands[k + 1..];
      }
    }
    assert was[0..] == was;
  }

  /** The operations that take the token `t`. */
  method Users(body: seq<Op>, t: Op) returns (us: seq<Op>)
    requires NoDup(body)
    ensures NoDup(us) && forall o :: o in us <==> o in body && t in o.operands
  {
    us := [];
    for i := 0 to |body|
      invariant NoDup(us) && forall o :: o in us <==> o in body[..i] && t in o.operands
    {
      ElemsPrefix(body, i);
      assert body[i] !in Elems(body[..i]);
      assert body[..i + 1] == body[..i] + [body[i]];
      if t in body[i].operands {
        NoDupSnoc(us, body[i]);
        us := us + [body[i]];
      }
    }
    assert body[..|body|] == body;
  }

  lemma UsersAre(body: seq<Op>, F: set<(Op, Op)>, t: Op, us: seq<Op>)
    requires Feeds(Elems(body), F) && forall o :: o in us <==> o in body && t in o.operands
    ensures Elems(us) == Targets(F, t)
  {
    forall o: Op ensures o in Elems(us) <==> o in Targets(F, t) {
      NotAnEdge(F, t, o);
      if o in Targets(F, t) {
        assert (t, o).1 in Elems(body) && t in Elems(o.operands);
      }
      if o in us {
        assert o in Elems(body) && t in Elems(o.operands);
      }
    }
  }

  /** Same tokens taken, same users. */
  method AreTwins(body: seq<Op>, u: Op, v: Op, ghost F: set<(Op, Op)>) returns (twins: bool)
    requires NoDup(body) && Feeds(Elems(body), F) && u in body && v in body
    ensures twins <==> FalseTwins(F, u, v)
  {
    assert u in Elems(body) && v in Elems(body);
    var up, vp := set t | t in u.operands, set t | t in v.operands;
    assert up == Elems(u.operands) && vp == Elems(v.operands);
    if up != vp {
      return false;
    }
    var us := Users(body, u);
    var vs := Users(body, v);
    UsersAre(body, F, u, us);
    UsersAre(body, F, v, vs);
    var ut, vt := set o | o in us, set o | o in vs;
    assert ut == Elems(us) && vt == Elems(vs);
    return ut == vt;
  }

  /** The edges once the token of `v` has no users. */
  ghost function Muted(F: set<(Op, Op)>, v: Op): set<(Op, Op)> {
    set e | e in F && e.0 != v
  }

  /** Disconnect the token of `v` from everything that takes it. */
  method Disconnect(body: seq<Op>, v: Op, ghost F: set<(Op, Op)>)
    requires NoDup(body) && Feeds(Elems(body), F)
    modifies Elems(body)`operands
    ensures Feeds(Elems(body), Muted(F, v))
  {
    var us := Users(body, v);
    ghost var was := map o | o in Elems(body) :: o.operands;
    FeedingLists(Elems(body), F, was);
    hide Feeds, NoDup, Muted, Sources;
    ghost var done: set<Op> := {};
    for i := 0 to |us|
      invariant done == Elems(us[..i])
      invariant forall o :: o in body ==> o.operands == if o in done then Dropped(was[o], v) else was[o]
    {
      ElemsPrefix(us, i);
      assert us[i] in us && us[i] in body && us[i] in Elems(body);
      EraseOperands(us[i], v);
      done := done + {us[i]};
    }
    assert us[..|us|] == us;
    Disconnected(body, v, F, was);
  }

  lemma Disconnected(body: seq<Op>, v: Op, F: set<(Op, Op)>, was: map<Op, seq<Op>>)
    requires was.Keys == Elems(body) && forall o :: o in was ==> Elems(was[o]) == Sources(F, o)
    requires forall e :: e in F ==> e.0 in Elems(body) && e.1 in Elems(body) && e.0 != e.1
    requires forall o :: o in body ==> o in was && o.operands == if v in was[o] then Dropped(was[o], v) else was[o]
    ensures Feeds(Elems(body), Muted(F, v))
  {
    forall o | o in Elems(body) ensures Elems(o.operands) == Sources(Muted(F, v), o) {
      DroppedElems(was[o], v);
      assert Sources(Muted(F, v), o) == Sources(F, o) - {v};
      assert v in was[o] <==> v in Elems(was[o]);
    }
  }

  lemma FeedingLists(N: set<Op>, F: set<(Op, Op)>, was: map<Op, seq<Op>>)
    requires Feeds(N, F) && was == map o | o in N :: o.operands
    ensures forall o :: o in was ==> Elems(was[o]) == Sources(F, o)
    ensures forall e :: e in F ==> e.0 in N && e.1 in N && e.0 != e.1
  {
  }

  /** Fuse `v` into `u` if they are false twins that touch. */
  method TryFuse(body: seq<Op>, u: Op, v: Op, ghost F: set<(Op, Op)>) returns (fused: bool)
    requires NoDup(body) && Feeds(Elems(body), F) && u in body && v in body && u.command.Copy1D? && v.command.Copy1D?
    modifies u`command, Elems(body)`operands
    ensures fused <==> u != v && FalseTwins(F, u, v) && Fusable(old(u.command.linear), old(v.command.linear))
    ensures fused ==> u.command == Copy1D(old(u.command.direction), Fused(old(u.command.linear), old(v.command.linear)))
    ensures fused ==> Feeds(Elems(body), Muted(F, v))
    ensures !fused ==> u.command == old(u.command) && Feeds(Elems(body), F) && forall o :: o in body ==>
        o.operands == old(o.operands)
  {
    hide Feeds, FalseTwins, Muted;
    if u == v {
      return false;
    }
    var twins := AreTwins(body, u, v, F);
    if !twins {
      return false;
    }
    var a, b := u.command.linear, v.command.linear;
    if !Fusable(a, b) {
      return false;
    }
    u.command := Copy1D(u.command.direction, Fused(a, b));
    Disconnect(body, v, F);
    return true;
  }

  // ------------------------------------------------------------ the pass

  /** The live part of the body, as the value the fusions are stated on. */
  ghost function Snapshot(N: set<Op>, dead: set<Op>, F: set<(Op, Op)>): State<Op>
    reads N`command
  {
    State(N - dead, (set e | e in F && e.1 !in dead), map o: Op | o in N - dead :: o.command)
  }

  /** Dead tokens have no users left. */
  ghost predicate Quiet(F: set<(Op, Op)>, dead: set<Op>) {
    forall e :: e in F ==> e.0 !in dead
  }

  lemma TwinsLive(N: set<Op>, dead: set<Op>, F: set<(Op, Op)>, u: Op, v: Op)
    requires Quiet(F, dead) && u !in dead && v !in dead && FalseTwins(F, u, v)
    ensures FalseTwins((set e | e in F && e.1 !in dead), u, v)
  {
    var L := set e | e in F && e.1 !in dead;
    forall x | x == u || x == v ensures Sources(L, x) == Sources(F, x) && Targets(L, x) == Targets(F, x) - dead {
      forall y: Op ensures y in Targets(L, x) <==> y in Targets(F, x) - dead {
        NotAnEdge(L, x, y);
        NotAnEdge(F, x, y);
      }
      forall y: Op ensures y in Sources(L, x) <==> y in Sources(F, x) {
        NotAnEdge(L, y, x);
        NotAnEdge(F, y, x);
      }
    }
  }

  /** Every dead operation took the tokens that some live one takes. */
  ghost predicate Mirrored(F: set<(Op, Op)>, dead: set<Op>, N: set<Op>) {
    forall d :: d in dead ==> exists w :: w in N - dead && Sources(F, w) == Sources(F, d)
  }

  lemma MutedSources(F: set<(Op, Op)>, v: Op, x: Op)
    ensures Sources(Muted(F, v), x) == Sources(F, x) - {v}
  {
  }

  lemma MirroredMore(F: set<(Op, Op)>, dead: set<Op>, N: set<Op>, u: Op, v: Op)
    requires Mirrored(F, dead, N) && u in N - dead && v in N - dead && u != v && FalseTwins(F, u, v)
    ensures Mirrored(Muted(F, v), dead + {v}, N)
  {
    hide Muted;
    forall d | d in dead + {v}
      ensures exists w :: w in N - (dead + {v}) && Sources(Muted(F, v), w) == Sources(Muted(F, v), d)
    {
      var w := u;
      if d != v {
        w :| w in N - dead && Sources(F, w) == Sources(F, d);
      }
      var x := if w == v then u else w;
      MutedSources(F, v, x);
      MutedSources(F, v, d);
      assert Sources(F, x) == Sources(F, d);
      assert Sources(Muted(F, v), x) == Sources(Muted(F, v), d);
    }
  }

  /** Operations that are twins among the live ones are twins among all. */
  lemma LiveTwins(F: set<(Op, Op)>, dead: set<Op>, N: set<Op>, u: Op, v: Op)
    requires Quiet(F, dead) && Mirrored(F, dead, N) && u in N - dead && v in N - dead
    requires FalseTwins((set e | e in F && e.1 !in dead), u, v)
    ensures FalseTwins(F, u, v)
  {
    var L := set e | e in F && e.1 !in dead;
    forall y: Op ensures y in Sources(F, u) <==> y in Sources(F, v) {
      LiveEdge(F, dead, y, u);
      LiveEdge(F, dead, y, v);
    }
    forall y: Op ensures y in Targets(F, u) <==> y in Targets(F, v) {
      var w := y;
      if y in dead {
        w :| w in N - dead && Sources(F, w) == Sources(F, y);
      }
      LiveEdge(F, dead, u, w);
      LiveEdge(F, dead, v, w);
      SameTaker(F, y, w, u);
      SameTaker(F, y, w, v);
    }
  }

  lemma LiveEdge(F: set<(Op, Op)>, dead: set<Op>, x: Op, y: Op)
    requires y !in dead
    ensures var L := set e | e in F && e.1 !in dead;
            (y in Targets(F, x) <==> y in Targets(L, x)) && (x in Sources(F, y) <==> x in Sources(L, y))
  {
    var L := set e | e in F && e.1 !in dead;
    NotAnEdge(L, x, y);
    NotAnEdge(F, x, y);
  }

  lemma SameTaker(F: set<(Op, Op)>, y: Op, w: Op, u: Op)
    requires Sources(F, w) == Sources(F, y)
    ensures y in Targets(F, u) <==> w in Targets(F, u)
  {
    NotAnEdge(F, u, y);
    NotAnEdge(F, u, w);
  }

  /** The pass so far: the fusions done lead from the original graph to the live part. */
  ghost predicate Progress(steps: seq<Fusion<Op>>, g: State<Op>, N: set<Op>, dead: set<Op>, F: set<(Op, Op)>)
    reads N`command
  {
    && Faithful(steps, g) && Final(steps, g) == Snapshot(N, dead, F) && Quiet(F, dead) && dead <= N
    && Mirrored(F, dead, N)
    && (steps == [] ==> dead == {} && F == g.edges)
  }

  /** Recording one fusion. */
  lemma ProgressMore(steps: seq<Fusion<Op>>, g: State<Op>, N: set<Op>, dead: set<Op>, F: set<(Op, Op)>,
                     before: State<Op>, u: Op, v: Op, done: set<Op>, C: set<Op>)
    requires Mirrored(F, dead, N) && Quieted(steps, g, done, C) && u in C && v in C && Sources(F, u) != {}
    requires Faithful(steps, g) && Final(steps, g) == before && Quiet(F, dead) && dead <= N && u in N - dead &&
        v in N - dead && u != v
    requires before.nodes == N - dead && before.edges == (set e | e in F && e.1 !in dead) &&
        before.commands.Keys == N - dead
    requires before.commands[u].Copy1D? && before.commands[v].Copy1D? &&
        Fusable(before.commands[u].linear, before.commands[v].linear)
    requires FalseTwins(F, u, v)
    requires u.command == Copy1D(before.commands[u].direction,
        Fused(before.commands[u].linear, before.commands[v].linear))
    requires forall o :: o in N - dead && o != u ==> o.command == before.commands[o]
    ensures Progress(steps + [Fusion(u, v)], g, N, dead + {v}, Muted(F, v))
    ensures Quieted(steps + [Fusion(u, v)], g, done, C)
  {
    var f := Fusion(u, v);
    hide Quieted, Mirrored;
    TwinsLive(N, dead, F, u, v);
    MirroredMore(F, dead, N, u, v);
    LiveSources(F, dead, u);
    QuietedMore(steps, f, g, done, C);
    FusionsSnoc(steps, f, g);
    var s := Snapshot(N, dead + {v}, Muted(F, v));
    assert Absorb(before, f).nodes == s.nodes;
    assert Absorb(before, f).edges == s.edges;
    assert Absorb(before, f).commands == s.commands;
  }

  lemma LiveSources(F: set<(Op, Op)>, dead: set<Op>, u: Op)
    requires u !in dead
    ensures Sources((set e | e in F && e.1 !in dead), u) == Sources(F, u)
  {
    forall x: Op ensures x in Sources((set e | e in F && e.1 !in dead), u) <==> x in Sources(F, u) {
      LiveEdge(F, dead, x, u);
    }
  }

  /** Once `u` has nothing left among the live copies, it is done. */
  lemma DoneWith(steps: seq<Fusion<Op>>, g: State<Op>, body: seq<Op>, dead: set<Op>, F: set<(Op, Op)>, u: Op,
                 done: set<Op>, C: set<Op>)
    requires Progress(steps, g, Elems(body), dead, F) && Quieted(steps, g, done, C) && Feeds(Elems(body), F)
    requires CopiesAre(body, C) && u in body
    requires u !in dead && u.operands != [] && IsCopy(u) ==>
               forall v :: v in body && v != u && v !in dead && IsCopy(v) ==>
                 !(FalseTwins(F, u, v) && Fusable(u.command.linear, v.command.linear))
    ensures Quieted(steps, g, done + {u}, C)
  {
    var st := Final(steps, g);
    assert u in Elems(body) && Elems(u.operands) == Sources(F, u);
    hide Feeds, Faithful, Final, Fusable, FalseTwins;
    if AllInRange(g) {
      forall w | u in C && w in C ensures !Touches(st, u, w) {
        if Touches(st, u, w) {
          assert w in body && w in Elems(body) && u !in dead && w !in dead;
          LiveSources(F, dead, u);
          LiveTwins(F, dead, Elems(body), u, w);
        }
      }
    }
  }

  /** `C` are the linear copies of the body. */
  ghost predicate CopiesAre(body: seq<Op>, C: set<Op>)
    reads (set o | o in body)`command
  {
    C <= Elems(body) && forall o :: o in body ==> (o in C <==> IsCopy(o))
  }

  lemma CopyIs(body: seq<Op>, C: set<Op>, o: Op)
    requires CopiesAre(body, C) && o in body
    ensures o in C <==> IsCopy(o)
  {
  }

  predicate IsCopy(o: Op)
    reads o`command
  {
    o.name == CommandOp && o.command.Copy1D?
  }

  /** Look among the users of the first operand of `u` for a twin to absorb. */
  method FuseSibling(body: seq<Op>, u: Op, dead: set<Op>, ghost steps: seq<Fusion<Op>>, ghost g: State<Op>,
                     ghost F: set<(Op, Op)>, ghost done: set<Op>, ghost C: set<Op>)
    returns (found: bool, gone: Op)
    requires Quieted(steps, g, done, C) && CopiesAre(body, C)
    requires NoDup(body) && Feeds(Elems(body), F) && u in body && u !in dead && IsCopy(u) && u.operands != []
    requires Progress(steps, g, Elems(body), dead, F)
    modifies Elems(body)`command, Elems(body)`operands
    ensures !found ==> forall o :: o in body ==> o.command == old(o.command) && o.operands == old(o.operands)
    ensures !found ==> forall v :: v in body && v != u && v !in dead && IsCopy(v) ==>
        !(FalseTwins(F, u, v) && Fusable(u.command.linear, v.command.linear))
    ensures found ==> gone in body && gone !in dead && gone != u && Feeds(Elems(body), Muted(F, gone))
    ensures found ==> Progress(steps + [Fusion(u, gone)], g, Elems(body), dead + {gone}, Muted(F, gone))
    ensures found ==> Quieted(steps + [Fusion(u, gone)], g, done, C)
    ensures forall o :: o in body ==> (IsCopy(o) <==> old(IsCopy(o)))
  {
    CopyIs(body, C, u);
    assert Sources(F, u) != {} by { TakesSome(body, F, u); }
    hide Feeds, FalseTwins, Muted, Faithful, Final, NoDup, Quiet, Fusable, Quieted, CopiesAre, Mirrored, Sources;
    var p0 := u.operands[0];
    var sibs := Users(body, p0);
    ghost var before := Snapshot(Elems(body), dead, F);
    assert u in Elems(body);
    for i := 0 to |sibs|
      invariant forall o :: o in body ==> o.command == old(o.command) && o.operands == old(o.operands)
      invariant Feeds(Elems(body), F)
      invariant forall k :: 0 <= k < i && sibs[k] != u && sibs[k] !in dead && IsCopy(sibs[k]) ==>
          !(FalseTwins(F, u, sibs[k]) && Fusable(u.command.linear, sibs[k].command.linear))
    {
      var v := sibs[i];
      assert v in body && v in Elems(body);
      if v != u && v !in dead && IsCopy(v) {
        CopyIs(body, C, v);
        var fused := TryFuse(body, u, v, F);
        if fused {
          ProgressMore(steps, g, Elems(body), dead, F, before, u, v, done, C);
          return true, v;
        }
      }
    }
    forall v | v in body && v != u && v !in dead && IsCopy(v)
      ensures !(FalseTwins(F, u, v) && Fusable(u.command.linear, v.command.linear))
    {
      TwinTakes(body, F, u, v);
    }
    return false, u;
  }

  lemma TakesSome(body: seq<Op>, F: set<(Op, Op)>, u: Op)
    requires Feeds(Elems(body), F) && u in body && u.operands != []
    ensures Sources(F, u) != {}
  {
    assert u in Elems(body) && u.operands[0] in Elems(u.operands);
  }

  /** A twin of `u` takes the first token `u` takes. */
  lemma TwinTakes(body: seq<Op>, F: set<(Op, Op)>, u: Op, v: Op)
    requires Feeds(Elems(body), F) && u in body && v in body && u.operands != []
    ensures FalseTwins(F, u, v) ==> u.operands[0] in v.operands
  {
    assert u in Elems(body) && v in Elems(body) && u.operands[0] in Elems(u.operands);
  }

  /** No sibling copy can be fused into `u`. */
  ghost predicate Settled(body: seq<Op>, dead: set<Op>, F: set<(Op, Op)>, u: Op)
    reads Elems(body)`command, Elems(body)`operands
  {
    u in body && IsCopyIn(body, u) && u.operands != [] ==>
      forall v :: v in body && v != u && v !in dead && IsCopyIn(body, v) ==>
          !(FalseTwins(F, u, v) && Fusable(u.command.linear, v.command.linear))
  }

  ghost predicate IsCopyIn(body: seq<Op>, o: Op)
    requires o in body
    reads Elems(body)`command
  {
    assert o in Elems(body);
    IsCopy(o)
  }

  /** Absorb twins into `u` until it has none left. */
  method FuseInto(body: seq<Op>, u: Op, dead: set<Op>, ghost steps: seq<Fusion<Op>>, ghost g: State<Op>,
                  ghost F: set<(Op, Op)>, ghost done: set<Op>, ghost C: set<Op>)
    returns (dead': set<Op>, ghost steps': seq<Fusion<Op>>, ghost F': set<(Op, Op)>)
    requires NoDup(body) && Feeds(Elems(body), F) && u in body && u !in dead && IsCopy(u)
    requires Progress(steps, g, Elems(body), dead, F) && Quieted(steps, g, done, C) && CopiesAre(body, C)
    modifies Elems(body)`command, Elems(body)`operands
    ensures Quieted(steps', g, done + {u}, C) && CopiesAre(body, C)
    ensures dead <= dead' && u !in dead' && Feeds(Elems(body), F') && Progress(steps', g, Elems(body), dead', F')
    ensures steps <= steps' && forall o :: o in body ==> (IsCopy(o) <==> old(IsCopy(o)))
    ensures steps' == steps ==> dead' == dead && F' == F && forall o :: o in body ==>
        o.command == old(o.command) && o.operands == old(o.operands)
    ensures steps' == steps ==> Settled(body, dead, F, u)
  {
    hide Feeds, FalseTwins, Muted, Progress, NoDup, Fusable, Quieted;
    dead', steps', F' := dead, steps, F;
    var changed := true;
    while changed
      invariant Quieted(steps', g, if changed then done else done + {u}, C) && CopiesAre(body, C)
      invariant dead <= dead' && u !in dead' && Feeds(Elems(body), F') && Progress(steps', g, Elems(body), dead', F')
      invariant steps <= steps' && forall o :: o in body ==> (IsCopy(o) <==> old(IsCopy(o)))
      invariant steps' == steps ==> dead' == dead && F' == F && forall o :: o in body ==>
          o.command == old(o.command) && o.operands == old(o.operands)
      invariant !changed && steps' == steps ==> Settled(body, dead, F, u)
      decreases Elems(body) - dead', changed
    {
      changed := false;
      if u.operands == [] {
        DoneWith(steps', g, body, dead', F', u, done, C);
        break;
      }
      var found, gone := FuseSibling(body, u, dead', steps', g, F', done, C);
      if found {
        assert gone in Elems(body);
        dead', steps', F' := dead' + {gone}, steps' + [Fusion(u, gone)], Muted(F', gone);
        changed := true;
      } else {
        DoneWith(steps', g, body, dead', F', u, done, C);
      }
    }
  }

  /** The copies, listed before anything changes. */
  method WorkList(body: seq<Op>) returns (work: seq<Op>)
    ensures forall o :: o in work <==> o in body && IsCopy(o)
  {
    work := [];
    for i := 0 to |body|
      invariant forall o :: o in work <==> o in body[..i] && IsCopy(o)
    {
      assert body[..i + 1] == body[..i] + [body[i]];
      if IsCopy(body[i]) {
        work := work + [body[i]];
      }
    }
    assert body[..|body|] == body;
  }

  /** The turn of one copy, unless it was absorbed meanwhile. */
  method FuseTurn(body: seq<Op>, u: Op, dead: set<Op>, ghost steps: seq<Fusion<Op>>, ghost g: State<Op>,
                  ghost F: set<(Op, Op)>, ghost done: set<Op>, ghost C: set<Op>)
    returns (dead': set<Op>, ghost steps': seq<Fusion<Op>>, ghost F': set<(Op, Op)>)
    requires NoDup(body) && Feeds(Elems(body), F) && u in body && IsCopy(u)
    requires Progress(steps, g, Elems(body), dead, F) && Quieted(steps, g, done, C) && CopiesAre(body, C)
    modifies Elems(body)`command, Elems(body)`operands
    ensures Quieted(steps', g, done + {u}, C) && CopiesAre(body, C)
    ensures Feeds(Elems(body), F') && Progress(steps', g, Elems(body), dead', F')
    ensures steps <= steps' && forall o :: o in body ==> (IsCopy(o) <==> old(IsCopy(o)))
    ensures steps' == steps ==> dead' == dead && F' == F && forall o :: o in body ==>
        o.command == old(o.command) && o.operands == old(o.operands)
    ensures steps' == steps && u !in dead ==> Settled(body, dead, F, u)
  {
    hide *;
    dead', steps', F' := dead, steps, F;
    if u !in dead {
      dead', steps', F' := FuseInto(body, u, dead, steps, g, F, done, C);
    } else {
      DoneWith(steps, g, body, dead, F, u, done, C);
    }
  }

  /** All copies in turn, skipping the ones absorbed meanwhile. */
  method FuseAll(body: seq<Op>, ghost g: State<Op>, ghost E: set<(Op, Op)>) returns (dead: set<Op>,
                 ghost steps: seq<Fusion<Op>>, ghost F: set<(Op, Op)>)
    requires NoDup(body) && Feeds(Elems(body), E) && Progress([], g, Elems(body), {}, E)
    modifies Elems(body)`command, Elems(body)`operands
    ensures Feeds(Elems(body), F) && Progress(steps, g, Elems(body), dead, F)
    ensures exists C :: CopiesAre(body, C) && Quieted(steps, g, C, C)
    ensures steps == [] ==> forall o :: o in body ==> o.command == old(o.command) && o.operands == old(o.operands)
    ensures steps == [] ==> forall u :: u in body ==> Settled(body, {}, E, u)
  {
    NothingDone(g, body, E);
    hide Feeds, Progress, NoDup, Settled, Quieted, CopiesAre;
    dead, steps, F := {}, [], E;
    ghost var C := CopiesOf(body);
    var work := WorkList(body);
    ghost var done: set<Op> := {};
    for i := 0 to |work|
      invariant done == Elems(work[..i]) && CopiesAre(body, C) && Quieted(steps, g, done, C)
      invariant Feeds(Elems(body), F) && Progress(steps, g, Elems(body), dead, F)
      invariant forall o :: o in work <==> o in body && IsCopy(o)
      invariant steps == [] ==> dead == {} && F == E
      invariant steps == [] ==> forall o :: o in body ==> o.command == old(o.command) && o.operands == old(o.operands)
      invariant steps == [] ==> forall k :: 0 <= k < i ==> Settled(body, {}, E, work[k])
    {
      var u := work[i];
      assert u in body;
      assert work[..i + 1] == work[..i] + [u];
      ghost var was := steps;
      dead, steps, F := FuseTurn(body, u, dead, steps, g, F, done, C);
      assert steps == [] ==> was == [];
      done := done + {u};
    }
    assert work[..|work|] == work;
    assert C == Elems(work) by { WorkIsCopies(body, C, work); }
    forall u | u in body && steps == [] ensures Settled(body, {}, E, u) {
      NotACopy(body, E, u);
    }
  }

  ghost function CopiesOf(body: seq<Op>): (C: set<Op>)
    reads (set o | o in body)`command
    ensures CopiesAre(body, C)
  {
    set o | o in Elems(body) && (assert o in body; IsCopy(o))
  }

  lemma WorkIsCopies(body: seq<Op>, C: set<Op>, work: seq<Op>)
    requires CopiesAre(body, C) && forall o :: o in work <==> o in body && IsCopy(o)
    ensures C == Elems(work)
  {
    forall o ensures o in C <==> o in Elems(work) {
      if o in C {
        assert o in Elems(body) && o in body;
        CopyIs(body, C, o);
      }
      if o in Elems(work) {
        CopyIs(body, C, o);
      }
    }
  }

  lemma NothingDone(g: State<Op>, body: seq<Op>, E: set<(Op, Op)>)
    requires Progress([], g, Elems(body), {}, E)
    ensures forall C :: Quieted([], g, {}, C)
  {
  }

  lemma NotACopy(body: seq<Op>, E: set<(Op, Op)>, u: Op)
    requires u in body
    ensures !IsCopyIn(body, u) ==> Settled(body, {}, E, u)
    ensures IsCopyIn(body, u) <==> IsCopy(u)
  {
  }

  /** The operations that are not dead, in their order. */
  method EraseDead(body: seq<Op>, dead: set<Op>) returns (live: seq<Op>)
    requires NoDup(body)
    ensures NoDup(live) && Elems(live) == Elems(body) - dead
  {
    live := [];
    for i := 0 to |body|
      invariant NoDup(live) && Elems(live) == Elems(body[..i]) - dead
    {
      ElemsPrefix(body, i);
      if body[i] !in dead {
        assert body[i] !in Elems(live);
        NoDupSnoc(live, body[i]);
        live := live + [body[i]];
      }
    }
    assert body[..|body|] == body;
  }

  /** What the pass leaves: the live operations, fed by the live edges. */
  method FuseBody(body: seq<Op>, ghost E: set<(Op, Op)>, ghost s0: State<Op>) returns (live: seq<Op>,
                  ghost L: set<(Op, Op)>, ghost steps: seq<Fusion<Op>>)
    requires NoDup(body) && Feeds(Elems(body), E) && s0 == Snapshot(Elems(body), {}, E)
    modifies Elems(body)`command, Elems(body)`operands
    ensures NoDup(live) && Feeds(Elems(live), L) && Faithful(steps, s0)
    ensures Final(steps, s0) == State(Elems(live), L, map o: Op | o in Elems(live) :: o.command)
    ensures steps == [] ==> forall u :: u in body ==> Settled(body, {}, E, u)
    ensures AllInRange(s0) ==> NothingTouches(Elems(live), L)
  {
    NothingFused(Elems(body), E);
    hide Feeds, Progress, NoDup, Settled, Faithful, Final, Quiet, Snapshot, Quieted, NothingTouches, CopiesAre;
    var dead;
    ghost var F;
    dead, steps, F := FuseAll(body, s0, E);
    live := EraseDead(body, dead);
    L := set e | e in F && e.1 !in dead;
    ProgressParts(steps, s0, body, dead, F, live);
    LiveFeeds(body, dead, F, live);
    ghost var C :| CopiesAre(body, C) && Quieted(steps, s0, C, C);
    LiveNothing(steps, s0, body, live, L, C);
  }

  /** No two linear copies that are twins with a predecessor can be fused. */
  ghost predicate NothingTouches(N: set<Op>, E: set<(Op, Op)>)
    reads N`command
  {
    forall u, v ::
      (u in N && v in N && u != v && Sources(E, u) != {} && FalseTwins(E, u, v)
       && u.name == v.name == CommandOp && u.command.Copy1D? && v.command.Copy1D?)
      ==> !Fusable(u.command.linear, v.command.linear)
  }

  lemma LiveNothing(steps: seq<Fusion<Op>>, g: State<Op>, body: seq<Op>, live: seq<Op>, L: set<(Op, Op)>, C: set<Op>)
    requires CopiesAre(body, C) && Quieted(steps, g, C, C) && Elems(live) <= Elems(body)
    requires Final(steps, g) == State(Elems(live), L, map o: Op | o in Elems(live) :: o.command)
    ensures AllInRange(g) ==> NothingTouches(Elems(live), L)
  {
    hide Fusable, FalseTwins, Faithful, Final;
    var st := State(Elems(live), L, map o: Op | o in Elems(live) :: o.command);
    if AllInRange(g) {
      forall u, v | u in Elems(live) && v in Elems(live) && u != v && Sources(L, u) != {} && FalseTwins(L, u, v)
        && u.name == v.name == CommandOp && u.command.Copy1D? && v.command.Copy1D?
        ensures !Fusable(u.command.linear, v.command.linear)
      {
        assert u in Elems(body) && v in Elems(body) && u in C && v in C;
        assert !Touches(st, u, v);
      }
    }
  }

  /** Every execution of `t` leaves the memory that some execution of `s` leaves. */
  ghost predicate SameOutcome(s: State<Op>, t: State<Op>, x: seq<Op>, other: Command -> Memory -> Memory, m: Memory) {
    Schedule(x, t.nodes, t.edges) && Congruent(other, s.commands) ==>
      exists y: seq<Op> :: EqualRuns(s, y, t, x, other, m)
  }

  ghost predicate EqualRuns(s: State<Op>, older y: seq<Op>, t: State<Op>, x: seq<Op>,
                            other: Command -> Memory -> Memory, m: Memory) {
    && (forall i :: 0 <= i < |y| ==> y[i] in s.nodes) && Schedule(y, s.nodes, s.edges)
    && (forall o :: o in x ==> o in t.commands) && (forall o :: o in y ==> o in s.commands)
    && SameMemory(Run(y, s.commands, other, m), Run(x, t.commands, other, m))
  }

  lemma OutcomeKept(steps: seq<Fusion<Op>>, s: State<Op>)
    requires Faithful(steps, s) && Separate(s) && Acyclic(s.edges)
    ensures forall x, other, m :: SameOutcome(s, Final(steps, s), x, other, m)
  {
    forall x: seq<Op>, other: Command -> Memory -> Memory, m: Memory ensures SameOutcome(s, Final(steps, s), x, other,
        m) {
      var t := Final(steps, s);
      if Schedule(x, t.nodes, t.edges) && Congruent(other, s.commands) {
        var y := SeparateKeepsMemory(steps, s, x, other, m);
        assert EqualRuns(s, y, t, x, other, m);
      }
    }
  }

  /** Fuse linear copies that are false twins and touch.  The fusions apply one after the other to what
      the ones before left; if nothing was fused, no copy had a sibling it could absorb, and if all copies are in
      range none has one at the end.  With separate source and destination memory, every execution of what is
      left leaves the memory some execution of the original graph leaves. */
  method PassCopyFuse(g: GraphOp) returns (ghost steps: seq<Fusion<Op>>)
    requires g.Valid()
    modifies g, Elems(g.body)`command, Elems(g.body)`operands
    ensures g.Valid() && Faithful(steps, old(Snapshot(Elems(g.body), {}, g.edges)))
    ensures Final(steps, old(Snapshot(Elems(g.body), {}, g.edges))) == State(Elems(g.body), g.edges,
        map o: Op | o in Elems(g.body) :: o.command)
    ensures steps == [] ==> forall u :: u in old(g.body) ==> Settled(old(g.body), {}, old(g.edges), u)
    ensures old(AllInRange(Snapshot(Elems(g.body), {}, g.edges))) ==> NothingTouches(Elems(g.body), g.edges)
    ensures old(Separate(Snapshot(Elems(g.body), {}, g.edges)) && Acyclic(g.edges)) ==>
              forall x, other, m :: SameOutcome(old(Snapshot(Elems(g.body), {}, g.edges)),
                  Snapshot(Elems(g.body), {}, g.edges), x, other, m)
  {
    hide Feeds, NoDup, Settled, Faithful, Final, Snapshot, Acyclic, Separate, SameOutcome, AllInRange, NothingTouches;
    var live;
    ghost var L;
    ghost var s, E := Snapshot(Elems(g.body), {}, g.edges), g.edges;
    assert s.edges == E by { SnapshotEdges(Elems(g.body), E); }
    live, L, steps := FuseBody(g.body, g.edges, s);
    g.body := live;
    g.edges := L;
    SnapshotEdges(Elems(live), L);
    if Separate(s) && Acyclic(E) {
      OutcomeKept(steps, s);
    }
  }

  lemma SnapshotEdges(N: set<Op>, E: set<(Op, Op)>)
    ensures Snapshot(N, {}, E) == State(N, E, map o: Op | o in N :: o.command)
  {
    assert (set e | e in E && e.1 !in {}) == E && N - {} == N;
  }

  lemma NothingFused(N: set<Op>, E: set<(Op, Op)>)
    ensures Progress([], Snapshot(N, {}, E), N, {}, E)
  {
  }

  lemma ProgressParts(steps: seq<Fusion<Op>>, g: State<Op>, body: seq<Op>, dead: set<Op>, F: set<(Op, Op)>,
                      live: seq<Op>)
    requires Progress(steps, g, Elems(body), dead, F) && Elems(live) == Elems(body) - dead
    ensures Faithful(steps, g) && Quiet(F, dead)
    ensures Final(steps, g) == State(Elems(live), (set e | e in F && e.1 !in dead),
        map o: Op | o in Elems(live) :: o.command)
  {
  }

  lemma LiveFeeds(body: seq<Op>, dead: set<Op>, F: set<(Op, Op)>, live: seq<Op>)
    requires Feeds(Elems(body), F) && Quiet(F, dead) && Elems(live) == Elems(body) - dead
    ensures Feeds(Elems(live), set e | e in F && e.1 !in dead)
  {
    var L := set e | e in F && e.1 !in dead;
    forall o | o in Elems(live) ensures Elems(o.operands) == Sources(L, o) {
      assert Sources(L, o) == Sources(F, o);
    }
  }
}
