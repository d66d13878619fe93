/** The MLIR form of a command graph: operations whose operands are the tokens of their predecessors. */
module MlirGraphs {
  import opened CommandGraphs
  import opened Digraphs
  import opened Lists
  import opened Plans
  import opened Quotients
  import opened Traversals

  datatype OpName = EmptyOp(isEntry: bool, isExit: bool) | CommandOp | BatchOp

  class Op {
    const name: OpName
    const device: DeviceId
    /** The command graph node the operation was imported from, if any. */
    const source: Node?
    /** The attributes of a command operation. */
    var command: Command
    var operands: seq<Op>
    var region: seq<Op>

    constructor (name: OpName, device: DeviceId, source: Node?, command: Command)
      ensures this.name == name && this.device == device && this.source == source && this.command == command
      ensures operands == [] && region == []
    {
      this.name, this.device, this.source, this.command, operands, region := name, device, source, command, [], [];
    }
  }

  /** The tokens every operation takes are those of its predecessors in `E`; a token may be taken twice. */
  ghost predicate Feeds(ops: set<Op>, E: set<(Op, Op)>)
    reads ops`operands
  {
    && (forall e :: e in E ==> e.0 in ops && e.1 in ops && e.0 != e.1)
    && (forall o :: o in ops ==> Elems(o.operands) == Sources(E, o))
  }

  /** Every operand in `S` replaced by `b`. */
  function Redirected(s: seq<Op>, S: set<Op>, b: Op): seq<Op> {
    seq(|s|, i requires 0 <= i < |s| => if s[i] in S then b else s[i])
  }

  function Only(s: seq<Op>, S: set<Op>): seq<Op> {
    if s == [] then [] else (if s[0] in S then [s[0]] else []) + Only(s[1..], S)
  }

  lemma {:induction false} OnlyElems(s: seq<Op>, S: set<Op>)
    ensures Elems(Only(s, S)) == Elems(s) * S
  {
    if s != [] {
      OnlyElems(s[1..], S);
      assert s == [s[0]] + s[1..];
      assert Elems(Only(s, S)) == (if s[0] in S then {s[0]} else {}) + Elems(Only(s[1..], S));
    }
  }

  lemma RedirectedElems(s: seq<Op>, S: set<Op>, b: Op)
    ensures Elems(Redirected(s, S, b)) == Elems(s) - S + (if Elems(s) !! S then {} else {b})
  {
    var t := Redirected(s, S, b);
    forall x | x in Elems(s) - S ensures x in Elems(t) {
      var i := IndexOf(s, x);
      assert t[i] == x;
    }
    if !(Elems(s) !! S) {
      var x :| x in Elems(s) && x in S;
      var i := IndexOf(s, x);
      assert t[i] == b;
    }
  }

  lemma RedirectedMore(s: seq<Op>, S: set<Op>, m: Op, b: Op)
    requires b != m
    ensures Redirected(Redirected(s, S, b), {m}, b) == Redirected(s, S + {m}, b)
    ensures Redirected(s, {}, b) == s
  {
  }

  /** Who precedes an outside operation once `S` is contracted. */
  lemma ContractedSources(E: set<(Op, Op)>, S: set<Op>, b: Op, o: Op)
    requires (forall e :: e in E ==> e.0 != e.1 && e.0 != b && e.1 != b) && b !in S
    ensures o !in S && o != b ==>
      Sources(Quotient(E, Into(S, b)), o) == Sources(E, o) - S + (if Sources(E, o) !! S then {} else {b})
    ensures Sources(Quotient(E, Into(S, b)), b) == set e | e in E && e.1 in S && e.0 !in S :: e.0
  {
    var Q := Quotient(E, Into(S, b));
    if o !in S && o != b {
      forall x: Op ensures x in Sources(Q, o) <==> x in Sources(E, o) - S + (if Sources(E, o) !! S then {} else {b}) {
        NotAnEdge(Q, x, o);
        NotAnEdge(E, x, o);
        if (x, o) in Q {
          var e := QuotientEdge(E, Into(S, b), (x, o));
          assert e.0 in Sources(E, o);
        }
        if x in Sources(E, o) - S {
          InQuotient(E, Into(S, b), (x, o));
        }
        if x == b && !(Sources(E, o) !! S) {
          var y :| y in Sources(E, o) && y in S;
          NotAnEdge(E, y, o);
          InQuotient(E, Into(S, b), (y, o));
        }
      }
    }
    var R := set e | e in E && e.1 in S && e.0 !in S :: e.0;
    forall x: Op ensures x in Sources(Q, b) <==> x in R {
      NotAnEdge(Q, x, b);
      if (x, b) in Q {
        var e := QuotientEdge(E, Into(S, b), (x, b));
        assert e in E && e.1 in S && e.0 !in S;
      }
      if x in R {
        var e :| e in E && e.1 in S && e.0 !in S && e.0 == x;
        InQuotient(E, Into(S, b), e);
      }
    }
  }

  lemma InsideSources(E: set<(Op, Op)>, S: set<Op>, o: Op)
    requires o in S
    ensures Sources(Inside(E, S), o) == Sources(E, o) * S
  {
    forall x | x in Sources(E, o) * S ensures x in Sources(Inside(E, S), o) {
      NotAnEdge(E, x, o);
      assert (x, o) in Inside(E, S);
    }
  }

  ghost function Outside(E: set<(Op, Op)>, S: set<Op>): set<Op> {
    set e | e in E && e.1 in S && e.0 !in S :: e.0
  }

  lemma TokensOutside(N: set<Op>, E: set<(Op, Op)>, members: seq<Op>)
    requires Feeds(N, E) && Elems(members) <= N
    ensures (set m, t | m in members && t in m.operands && t !in Elems(members) :: t) == Outside(E, Elems(members))
  {
    var S, L := Elems(members), set m, t | m in members && t in m.operands && t !in Elems(members) :: t;
    forall t | t in L ensures t in Outside(E, S) {
      var m :| m in members && t in m.operands && t !in S;
      assert m in S && t in Elems(m.operands);
      NotAnEdge(E, t, m);
    }
    forall t | t in Outside(E, S) ensures t in L {
      var e :| e in E && e.1 in S && e.0 !in S && e.0 == t;
      assert e.0 in Elems(e.1.operands);
    }
  }

  lemma OperandsAre(N: set<Op>, E: set<(Op, Op)>, was: map<Op, seq<Op>>)
    requires Feeds(N, E) && was == map o | o in N :: o.operands
    ensures forall e :: e in E ==> e.0 in N && e.1 in N && e.0 != e.1
    ensures forall o :: o in N ==> Elems(was[o]) == Sources(E, o)
  {
  }

  /** The operand lists after the edits are those of the contracted graph. */
  lemma FeedsContracted(N: set<Op>, E: set<(Op, Op)>, S: set<Op>, b: Op, was: map<Op, seq<Op>>)
    requires (forall e :: e in E ==> e.0 in N && e.1 in N && e.0 != e.1) && b !in N && S <= N && N <= was.Keys
    requires forall o :: o in N ==> Elems(was[o]) == Sources(E, o)
    requires Elems(b.operands) == Outside(E, S)
    requires forall o :: o in N - S ==> o.operands == Redirected(was[o], S, b)
    ensures Feeds(N - S + {b}, Quotient(E, Into(S, b)))
  {
    var Q := Quotient(E, Into(S, b));
    forall e | e in Q ensures e.0 in N - S + {b} && e.1 in N - S + {b} && e.0 != e.1 {
      var f := QuotientEdge(E, Into(S, b), e);
    }
    forall o | o in N - S + {b} ensures Elems(o.operands) == Sources(Q, o) {
      ContractedSources(E, S, b, o);
      if o != b {
        RedirectedElems(was[o], S, b);
      }
    }
  }

  lemma FeedsInside(N: set<Op>, E: set<(Op, Op)>, S: set<Op>, was: map<Op, seq<Op>>)
    requires (forall e :: e in E ==> e.0 in N && e.1 in N && e.0 != e.1) && S <= N && N <= was.Keys
    requires forall o :: o in N ==> Elems(was[o]) == Sources(E, o)
    requires forall m :: m in S ==> m.operands == Only(was[m], S)
    ensures Feeds(S, Inside(E, S))
  {
    forall m | m in S ensures Elems(m.operands) == Sources(Inside(E, S), m) {
      InsideSources(E, S, m);
      OnlyElems(was[m], S);
    }
  }

  class GraphOp {
    var body: seq<Op>
    ghost var edges: set<(Op, Op)>

    constructor (body: seq<Op>, ghost edges: set<(Op, Op)>)
      ensures this.body == body && this.edges == edges
    {
      this.body, this.edges := body, edges;
    }

    ghost predicate Valid()
      reads this, Elems(body)`operands
    {
      NoDup(body) && Feeds(Elems(body), edges)
    }

    /** The tokens the members take from outside, each once, in the order they are met. */
    method ExternalTokens(members: seq<Op>, group: set<Op>) returns (ext: seq<Op>)
      ensures NoDup(ext)
      ensures Elems(ext) == set m, t | m in members && t in m.operands && t !in group :: t
    {
      ext := [];
      for k := 0 to |members|
        invariant NoDup(ext)
        invariant Elems(ext) == set m, t | m in members[..k] && t in m.operands && t !in group :: t
      {
        var m := members[k];
        assert members[..k + 1] == members[..k] + [m];
        for i := 0 to |m.operands|
          invariant NoDup(ext)
          invariant Elems(ext) == (set m, t | m in members[..k] && t in m.operands &&
              t !in group :: t) + (Elems(m.operands[..i]) - group)
        {
          var t := m.operands[i];
          assert m.operands[..i + 1] == m.operands[..i] + [t];
          if t !in group && t !in ext {
            NoDupSnoc(ext, t);
            ext := ext + [t];
          }
        }
        assert m.operands[..|m.operands|] == m.operands;
      }
      assert members[..|members|] == members;
    }

    /** Every use of `m` by an operation outside the group becomes a use of `batch`. */
    method RedirectUses(m: Op, batch: Op, group: set<Op>, ghost T: set<Op>, ghost was: map<Op, seq<Op>>)
      requires NoDup(body) && m in group && m !in T && batch in body && batch !in group && was.Keys == Elems(body)
      requires forall o :: o in body && o != batch && o !in group ==> o.operands == Redirected(was[o], T, batch)
      modifies (Elems(body) - group - {batch})`operands
      ensures forall o :: o in body && o != batch && o !in group ==> o.operands == Redirected(was[o], T + {m}, batch)
    {
      for i := 0 to |body|
        invariant forall j :: 0 <= j < |body| && body[j] != batch && body[j] !in group ==>
          body[j].operands == Redirected(was[body[j]], if j < i then T + {m} else T, batch)
      {
        var owner := body[i];
        if owner != batch && owner !in group {
          RedirectedMore(was[owner], T, m, batch);
          owner.operands := Redirected(owner.operands, {m}, batch);
        }
      }
    }

    /** Move the members into the region of `batch`, in their order. */
    method MoveMembers(members: seq<Op>, batch: Op)
      requires NoDup(body) && NoDup(members) && Elems(members) <= Elems(body) && batch.region == []
      modifies `body, batch`region
      ensures NoDup(body) && Elems(body) == old(Elems(body)) - Elems(members)
      ensures batch.region == members
    {
      for k := 0 to |members|
        invariant NoDup(body) && Elems(body) == old(Elems(body)) - Elems(members[..k])
        invariant batch.region == members[..k]
      {
        ElemsPrefix(members, k);
        EraseElems(body, members[k]);
        body := Erase(body, members[k]);
        batch.region := batch.region + [members[k]];
      }
      assert members[..|members|] == members;
    }

    /** The members keep only the tokens of each other. */
    method StripMembers(members: seq<Op>, group: set<Op>)
      requires NoDup(members)
      modifies Elems(members)`operands
      ensures forall m :: m in members ==> m.operands == Only(old(m.operands), group)
    {
      for k := 0 to |members|
        invariant forall j :: 0 <= j < |members| ==>
          members[j].operands == if j < k then Only(old(members[j].operands), group) else old(members[j].operands)
      {
        var m := members[k];
        assert m in Elems(members);
        m.operands := Only(m.operands, group);
      }
    }

    /** Every outside use of a member becomes a use of `batch`. */
    method RedirectAll(members: seq<Op>, batch: Op, group: set<Op>, ghost was: map<Op, seq<Op>>)
      requires NoDup(body) && NoDup(members) && group == Elems(members) && batch in body && batch !in group &&
          was.Keys == Elems(body)
      requires forall o :: o in body ==> o.operands == was[o]
      modifies (Elems(body) - group - {batch})`operands
      ensures forall o :: o in body && o != batch && o !in group ==> o.operands == Redirected(was[o], group, batch)
    {
      for k := 0 to |members|
        invariant forall o :: o in body && o != batch && o !in group ==>
            o.operands == Redirected(was[o], Elems(members[..k]), batch)
      {
        ElemsPrefix(members, k);
        RedirectUses(members[k], batch, group, Elems(members[..k]), was);
      }
      assert members[..|members|] == members;
    }

    /** The edits of contracting the members into one batch operation at the end of the body. */
    method ContractOps(members: seq<Op>, device: DeviceId) returns (batch: Op)
      requires NoDup(body) && NoDup(members) && Elems(members) <= Elems(body)
      modifies `body, Elems(body)`operands
      ensures fresh(batch) && batch.name == BatchOp && batch.device == device && batch.source == null &&
          batch.region == members
      ensures NoDup(body) && Elems(body) == old(Elems(body)) - Elems(members) + {batch}
      ensures NoDup(batch.operands)
      ensures Elems(batch.operands) == old(set m, t | m in members && t in m.operands && t !in Elems(members) :: t)
      ensures forall o :: o in old(Elems(body)) - Elems(members) ==>
          o.operands == Redirected(old(o.operands), Elems(members), batch)
      ensures forall m :: m in members ==> m.operands == Only(old(m.operands), Elems(members))
    {
      hide Redirected, Only, NoDup;
      var group := set m | m in members;
      assert group == Elems(members);
      ghost var was := map o | o in body :: o.operands;
      var ext := ExternalTokens(members, group);
      batch := new Op(BatchOp, device, null, NoCommand);
      batch.operands := ext;
      NoDupSnoc(body, batch);
      body := body + [batch];
      RedirectAll(members, batch, group, was[batch := ext]);
      MoveMembers(members, batch);
      StripMembers(members, group);
    }

    /** Contract the members into one batch operation: the top level becomes the quotient, and
        the batch holds the members with the edges among them. */
    method MaterializeBatch(members: seq<Op>, device: DeviceId) returns (batch: Op)
      requires Valid() && NoDup(members) && Elems(members) <= Elems(body)
      modifies this, Elems(body)`operands
      ensures Valid() && fresh(batch) && batch.name == BatchOp && batch.device == device && batch.source == null
      ensures batch.region == members && Elems(body) == old(Elems(body)) - Elems(members) + {batch} &&
          NoDup(batch.operands)
      ensures edges == Quotient(old(edges), Into(Elems(members), batch))
      ensures Feeds(Elems(members), Inside(old(edges), Elems(members)))
    {
      hide Quotient, Sources, Redirected, Only, Inside, Outside, Into, NoDup;
      ghost var N, E, S := Elems(body), edges, Elems(members);
      ghost var was := map o | o in N :: o.operands;
      OperandsAre(N, E, was);
      TokensOutside(N, E, members);
      hide Feeds;
      batch := ContractOps(members, device);
      edges := Quotient(E, Into(S, batch));
      FeedsInside(N, E, S, was);
      FeedsContracted(N, E, S, batch, was);
    }
  }
}
