/** pass_copy_normalize: block copies without gaps become linear, the others are scaled to bytes. */
module CopyNormalize {
  import opened CommandGraphs
  import opened Copies
  import opened Digraphs
  import opened Traversals

  ghost function NormalizedAt(u: Node, c: Command): Command {
    if u.kind == CommandNode then Normalized(c) else c
  }

  method NormalizeNode(u: Node)
    modifies u`command
    ensures u.command == NormalizedAt(u, old(u.command))
  {
    if u.kind == CommandNode && u.command.Copy2D? {
      var b := u.command.block;
      if b.m == b.srcLd && b.m == b.dstLd {
        var size := Wrap(Wrap(b.m * b.n) * b.elem);
        u.command := Copy1D(u.command.direction, LinearCopy(b.srcDevice, b.dstDevice, b.src, b.dst, size));
      } else {
        var s := b.elem;
        u.command := Copy2D(u.command.direction,
                            b.(elem := 1, m := Wrap(b.m * s), srcLd := Wrap(b.srcLd * s), dstLd := Wrap(b.dstLd * s)));
      }
    }
  }

  /** The commands of the nodes in `done` are normalised, the others what they were. */
  ghost predicate NormalizedIn(nodes: set<Node>, was: map<Node, Command>, done: set<Node>)
    reads nodes`command
  {
    forall u :: u in nodes ==> u in was && u.command == if u in done then NormalizedAt(u, was[u]) else was[u]
  }

  lemma NoneNormalized(nodes: set<Node>)
    ensures NormalizedIn(nodes, CommandsHeld(nodes), {})
    ensures forall u :: u in nodes ==> u in CommandsHeld(nodes) && CommandsHeld(nodes)[u] == u.command
  {
  }

  method NormalizeNext(vec: seq<Node>, i: nat, ghost nodes: set<Node>, ghost was: map<Node, Command>)
    requires NoDup(vec) && i < |vec| && Elems(vec) <= nodes && NormalizedIn(nodes, was, Elems(vec[..i]))
    modifies nodes`command
    ensures NormalizedIn(nodes, was, Elems(vec[..i + 1]))
  {
    hide NormalizedAt, NoDup;
    ElemsPrefix(vec, i);
    assert vec[i] in Elems(vec);
    NormalizeNode(vec[i]);
  }

  lemma AllNormalized(nodes: set<Node>, was: map<Node, Command>, done: set<Node>)
    requires NormalizedIn(nodes, was, done)
    ensures forall u :: u in nodes ==> u in was && u.command == if u in done then NormalizedAt(u, was[u]) else was[u]
  {
  }

  /** Every inner command of the graph is normalised, and nothing else about it changes. */
  method PassCopyNormalize(cg: CommandGraph)
    requires cg.Valid() && cg.Fresh()
    modifies cg`walkId, cg.nodes`walkId, cg.nodes`iteratorIndex, cg.nodes`command
    ensures cg.Valid() && cg.walkId == NextWalkId(old(cg.walkId)) && forall u :: u in cg.nodes ==> u.walkId == cg.walkId
    ensures forall u :: u in cg.nodes - {cg.entry, cg.exit} ==> u.command == NormalizedAt(u, old(u.command))
    ensures forall u :: u in cg.nodes - {cg.entry, cg.exit} && u.kind == CommandNode ==>
              SameBlock(old(u.command), u.command)
    ensures cg.entry.command == old(cg.entry.command) && cg.exit.command == old(cg.exit.command)
  {
    hide *;
    ghost var nodes, was := cg.nodes, CommandsHeld(cg.nodes);
    NoneNormalized(nodes);
    EndsAmong(cg);
    var vec := cg.CreateNodeIterators(false);
    assert Elems(vec[..0]) == {} by { Nothing(vec); }
    for i := 0 to |vec|
      invariant NormalizedIn(nodes, was, Elems(vec[..i])) && cg.nodes == nodes && cg.Valid()
      invariant cg.walkId == NextWalkId(old(cg.walkId)) && forall u :: u in nodes ==> u.walkId == cg.walkId
    {
      NormalizeNext(vec, i, nodes, was);
    }
    assert vec[..|vec|] == vec;
    AllNormalized(nodes, was, Elems(vec));
    AllSameBlock(nodes, was, Elems(vec));
  }

  /** A block copy becomes linear if its columns leave no gap on either side, else one of single bytes; if the numbers
      fit a machine word it moves the bytes it moved, between the devices it did.  Anything else stays. */
  ghost predicate SameBlock(was: Command, now: Command) {
    if !was.Copy2D? then now == was
    else
      var b := was.block;
      && now == (if now.Copy1D? then Copy1D(was.direction, now.linear)
                 else if now.Copy2D? then Copy2D(was.direction, now.block) else was)
      && (now.Copy1D? <==> b.m == b.srcLd && b.m == b.dstLd)
      && (now.Copy1D? ==>
            && now.linear.srcDevice == b.srcDevice && now.linear.dstDevice == b.dstDevice
            && (b.m * b.n * b.elem < 0x1_0000_0000_0000_0000 ==>
                  forall s, d :: LinearMoves(now.linear, s, d) <==> BlockMoves(b, s, d)))
      && (!now.Copy1D? ==>
            && now.Copy2D? && now.block.srcDevice == b.srcDevice && now.block.dstDevice == b.dstDevice
            && now.block.elem == 1
            && (ExtentsFit(b) ==> forall s, d :: BlockMoves(now.block, s, d) <==> BlockMoves(b, s, d)))
  }

  lemma NormalizedSame(c: Command)
    ensures SameBlock(c, Normalized(c))
  {
    hide BlockMoves;
    if c.Copy2D? {
      if Contiguous(c.block) {
        LinearExactly(c.block);
      } else {
        BytesExactly(c.block);
      }
    }
  }

  lemma AllSameBlock(nodes: set<Node>, was: map<Node, Command>, done: set<Node>)
    requires NormalizedIn(nodes, was, done)
    ensures forall u :: u in nodes && u in done && u.kind == CommandNode ==> SameBlock(was[u], u.command)
  {
    hide SameBlock;
    forall u | u in nodes && u in done && u.kind == CommandNode ensures SameBlock(was[u], u.command) {
      NormalizedSame(was[u]);
    }
  }

  lemma Nothing(vec: seq<Node>)
    ensures Elems(vec[..0]) == {}
  {
  }

  lemma EndsAmong(cg: CommandGraph)
    requires cg.Valid()
    ensures cg.entry in cg.nodes && cg.exit in cg.nodes
  {
    CoherentParts(cg.nodes, cg.edges, cg.entry, cg.exit);
  }
}
