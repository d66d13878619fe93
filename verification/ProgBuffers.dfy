/**
 * Packed programs: the fused buffer filled from the shared slots, the buffer each body gets back
 * from it, and the buffer the body would have had when compiled on its own.
 */
module ProgBuffers {
  import opened ProgSlots
  import opened ProgLayout

  ghost predicate Holds(buf: seq<nat>, at: nat, bytes: seq<nat>) {
    at + |bytes| <= |buf| && forall b: nat :: b < |bytes| ==> buf[at + b] == bytes[b]
  }

  /** What a slot contributes to a buffer: nothing is copied from a null slot. */
  function SlotBytes(m: Memory, s: Ptr, n: nat): (bytes: seq<nat>)
    ensures |bytes| == n
  {
    if s == 0 then seq(n, _ => 0) else Load(m, s, n)
  }

  /** A byte copy into a buffer. */
  method Write(buf: array<nat>, at: nat, bytes: seq<nat>)
    requires at + |bytes| <= buf.Length
    modifies buf
    ensures Holds(buf[..], at, bytes)
    ensures forall b: nat :: b < buf.Length && !(at <= b < at + |bytes|) ==> buf[b] == old(buf[b])
  {
    for k := 0 to |bytes|
      invariant forall b: nat :: b < k ==> buf[at + b] == bytes[b]
      invariant forall b: nat :: b < buf.Length && !(at <= b < at + |bytes|) ==> buf[b] == old(buf[b])
    {
      buf[at + k] := bytes[k];
    }
  }

  // ------------------------------------------------------------ fields of a buffer

  /** A range of a buffer. */
  datatype Field = Field(offset: nat, size: nat)

  /** The fields at `offsets` of the given sizes. */
  function FieldsAt(offsets: seq<nat>, sizes: seq<nat>): (fields: seq<Field>)
    requires |offsets| == |sizes|
    ensures |fields| == |sizes| && forall k: nat :: k < |sizes| ==> fields[k] == Field(offsets[k], sizes[k])
  {
    seq(|sizes|, k requires 0 <= k < |sizes| => Field(offsets[k], sizes[k]))
  }

  ghost predicate Apart(f: Field, g: Field) {
    f.offset + f.size <= g.offset || g.offset + g.size <= f.offset
  }

  ghost predicate Disjoint(fields: seq<Field>) {
    forall k: nat, l: nat :: k < l < |fields| ==> Apart(fields[k], fields[l])
  }

  ghost predicate Within(fields: seq<Field>, size: nat) {
    forall k: nat :: k < |fields| ==> fields[k].offset + fields[k].size <= size
  }

  /** The first `n` fields hold their slots' bytes. */
  ghost predicate Filled(m: Memory, slots: seq<Ptr>, fields: seq<Field>, buf: seq<nat>, n: nat) {
    |slots| == |fields| && n <= |fields| && forall k: nat :: k < n ==>
        Holds(buf, fields[k].offset, SlotBytes(m, slots[k], fields[k].size))
  }

  /** Whatever no field covers is zero. */
  ghost predicate ZeroElsewhere(fields: seq<Field>, buf: seq<nat>, n: nat)
    requires n <= |fields|
  {
    forall b: nat :: b < |buf| && !Covered(fields, b, n) ==> buf[b] == 0
  }

  ghost predicate Covered(fields: seq<Field>, b: nat, n: nat)
    requires n <= |fields|
  {
    exists k: nat :: k < n && fields[k].offset <= b < fields[k].offset + fields[k].size
  }

  lemma FilledMore(m: Memory, slots: seq<Ptr>, fields: seq<Field>, was: seq<nat>, buf: seq<nat>, n: nat)
    requires Filled(m, slots, fields, was, n) && n < |fields| && Disjoint(fields) && |was| == |buf|
    requires Holds(buf, fields[n].offset, SlotBytes(m, slots[n], fields[n].size))
    requires forall b: nat :: b < |buf| && !(fields[n].offset <= b < fields[n].offset + fields[n].size) ==>
        buf[b] == was[b]
    ensures Filled(m, slots, fields, buf, n + 1)
  {
    hide SlotBytes;
    forall k: nat | k < n + 1 ensures Holds(buf, fields[k].offset, SlotBytes(m, slots[k], fields[k].size)) {
      if k < n {
        assert Apart(fields[k], fields[n]);
        assert Holds(was, fields[k].offset, SlotBytes(m, slots[k], fields[k].size));
      }
    }
  }

  lemma ZeroMore(fields: seq<Field>, was: seq<nat>, buf: seq<nat>, n: nat)
    requires n < |fields| && |was| == |buf| && ZeroElsewhere(fields, was, n)
    requires forall b: nat :: b < |buf| && !(fields[n].offset <= b < fields[n].offset + fields[n].size) ==>
        buf[b] == was[b]
    ensures ZeroElsewhere(fields, buf, n + 1)
  {
    forall b: nat | b < |buf| && !Covered(fields, b, n + 1) ensures buf[b] == 0 {
      assert !(fields[n].offset <= b < fields[n].offset + fields[n].size);
    }
  }

  /** A zeroed buffer with every slot that is not null copied to its field. */
  method Fill(m: Memory, slots: seq<Ptr>, fields: seq<Field>, size: nat) returns (buf: array<nat>)
    requires |slots| == |fields| && Disjoint(fields) && Within(fields, size)
    ensures fresh(buf) && buf.Length == size
    ensures Filled(m, slots, fields, buf[..], |fields|) && ZeroElsewhere(fields, buf[..], |fields|)
  {
    buf := new nat[size](_ => 0);
    for k := 0 to |fields|
      invariant Filled(m, slots, fields, buf[..], k) && ZeroElsewhere(fields, buf[..], k)
      invariant forall l: nat :: k <= l < |fields| ==> Holds(buf[..], fields[l].offset, seq(fields[l].size, _ => 0))
    {
      ghost var was := buf[..];
      if slots[k] != 0 {
        Write(buf, fields[k].offset, Load(m, slots[k], fields[k].size));
      }
      FilledMore(m, slots, fields, was, buf[..], k);
      ZeroMore(fields, was, buf[..], k);
      ZerosStay(fields, was, buf[..], k);
    }
  }

  lemma ZerosStay(fields: seq<Field>, was: seq<nat>, buf: seq<nat>, n: nat)
    requires n < |fields| && Disjoint(fields) && |was| == |buf|
    requires forall l: nat :: n <= l < |fields| ==> Holds(was, fields[l].offset, seq(fields[l].size, _ => 0))
    requires forall b: nat :: b < |buf| && !(fields[n].offset <= b < fields[n].offset + fields[n].size) ==>
        buf[b] == was[b]
    ensures forall l: nat :: n + 1 <= l < |fields| ==> Holds(buf, fields[l].offset, seq(fields[l].size, _ => 0))
  {
    forall l: nat | n + 1 <= l < |fields| ensures Holds(buf, fields[l].offset, seq(fields[l].size, _ => 0)) {
      assert Apart(fields[n], fields[l]);
      assert Holds(was, fields[l].offset, seq(fields[l].size, _ => 0));
    }
  }

  // ------------------------------------------------------------ the fused buffer

  /** Slots laid out one after the other are separate ranges inside the buffer. */
  lemma LaidFields(sizes: seq<nat>, extents: seq<nat>, aligns: seq<nat>, offsets: seq<nat>, total: nat)
    requires Laid(extents, aligns, offsets) && |sizes| == |extents|
    requires forall k: nat :: k < |sizes| ==> sizes[k] <= extents[k] && offsets[k] + extents[k] <= total
    ensures Disjoint(FieldsAt(offsets, sizes)) && Within(FieldsAt(offsets, sizes), total)
  {
    hide Aligned;
    var fields := FieldsAt(offsets, sizes);
    forall k: nat, l: nat | k < l < |fields| ensures Apart(fields[k], fields[l]) {
      assert offsets[k] + extents[k] <= offsets[l];
    }
  }

  /** A slot of unknown size still takes a byte. */
  function Extents(plan: Plan): (extents: seq<nat>)
    ensures |extents| == |plan.sizes| && forall k: nat :: k < |extents| ==>
        extents[k] == if plan.sizes[k] == 0 then 1 else plan.sizes[k]
  {
    seq(|plan.sizes|, k requires 0 <= k < |plan.sizes| => if plan.sizes[k] == 0 then 1 else plan.sizes[k])
  }

  /** References are aligned as pointers, bytes copied by value need no alignment. */
  function Alignments(plan: Plan): (aligns: seq<nat>)
    ensures |aligns| == |plan.refs| && forall k: nat :: k < |aligns| ==>
        aligns[k] == if plan.refs[k] then POINTER_BYTES else 1
  {
    seq(|plan.refs|, k requires 0 <= k < |plan.refs| => if plan.refs[k] then POINTER_BYTES else 1)
  }

  lemma PlanAlignments(plan: Plan)
    ensures forall k: nat :: k < |plan.refs| ==> IsAlignment(Alignments(plan)[k])
  {
    assert Pow2(0) == 1 && Pow2(1) == 2 && Pow2(2) == 4 && Pow2(3) == 8;
  }

  /** The plan's slots fit the address space. */
  ghost predicate FitsMemory(plan: Plan) {
    |plan.unique| == |plan.sizes| == |plan.refs| && Room(Extents(plan), Alignments(plan), 0) < Pow2(WORD_BITS)
  }

  /** `fused` holds every shared slot at its aligned offset, and zeros elsewhere. */
  ghost predicate IsFused(m: Memory, plan: Plan, offsets: seq<nat>, fused: seq<nat>) {
    && |plan.unique| == |plan.sizes| == |plan.refs| == |offsets| && Laid(Extents(plan), Alignments(plan), offsets)
    && Filled(m, plan.unique, FieldsAt(offsets, plan.sizes), fused, |plan.sizes|)
    && ZeroElsewhere(FieldsAt(offsets, plan.sizes), fused, |plan.sizes|)
  }

  /** Slot after slot: the first at the start, every next one right behind the last, of which a slot of unknown size
      takes a byte, or for a reference at the next multiple of 8. */
  ghost predicate InTurn(plan: Plan, offsets: seq<nat>) {
    && |plan.sizes| == |plan.refs| == |offsets| && (|offsets| > 0 ==> offsets[0] == 0)
    && (forall k: nat :: k < |offsets| && plan.refs[k] ==> offsets[k] % 8 == 0)
    && forall k: nat :: k + 1 < |offsets| ==>
         var end := offsets[k] + if plan.sizes[k] == 0 then 1 else plan.sizes[k];
         end <= offsets[k + 1] < end + if plan.refs[k + 1] then 8 else 1
  }

  lemma LaidInTurn(plan: Plan, offsets: seq<nat>)
    requires |plan.sizes| == |plan.refs| && Laid(Extents(plan), Alignments(plan), offsets)
    requires Tight(Extents(plan), Alignments(plan), offsets)
    ensures InTurn(plan, offsets)
  {
    var extents, aligns := Extents(plan), Alignments(plan);
    forall k: nat | k < |offsets| ensures plan.refs[k] ==> offsets[k] % 8 == 0 {
      assert Aligned(offsets[k], aligns[k]);
    }
    forall k: nat | k + 1 < |offsets|
      ensures var end := offsets[k] + if plan.sizes[k] == 0 then 1 else plan.sizes[k];
              end <= offsets[k + 1] < end + if plan.refs[k + 1] then 8 else 1
    {
      assert End(extents, offsets, k + 1) == offsets[k] + extents[k];
    }
    if |offsets| > 0 {
      assert End(extents, offsets, 0) == 0 && Aligned(offsets[0], aligns[0]);
    }
  }

  /** Lay the shared slots out and copy their values in. */
  method PackFused(m: Memory, plan: Plan) returns (fused: array<nat>, offsets: seq<nat>)
    requires FitsMemory(plan)
    ensures fresh(fused) && IsFused(m, plan, offsets, fused[..]) && InTurn(plan, offsets)
  {
    PlanAlignments(plan);
    hide Filled, ZeroElsewhere, Laid, Tight, Room, Pow2, IsAlignment, Disjoint, Within, End;
    var extents, aligns := Extents(plan), Alignments(plan);
    var total: nat;
    offsets, total := Layout(extents, aligns);
    assert |offsets| == |extents| by { LaidLengths(extents, aligns, offsets); }
    LaidFields(plan.sizes, extents, aligns, offsets, total);
    LaidInTurn(plan, offsets);
    fused := Fill(m, plan.unique, FieldsAt(offsets, plan.sizes), total);
  }

  lemma LaidLengths(sizes: seq<nat>, aligns: seq<nat>, offsets: seq<nat>)
    requires Laid(sizes, aligns, offsets)
    ensures |offsets| == |sizes|
  {
    hide Aligned;
  }

  // ------------------------------------------------------------ a body on its own

  function FieldsOf(params: seq<Param>): (fields: seq<Field>)
    ensures |fields| == |params| && forall j: nat :: j < |params| ==>
        fields[j] == Field(params[j].offset, params[j].size)
  {
    seq(|params|, j requires 0 <= j < |params| => Field(params[j].offset, params[j].size))
  }

  /** A packed body's parameters: separate fields, and references of pointer size. */
  ghost predicate PackedParams(params: seq<Param>) {
    && Disjoint(FieldsOf(params))
    && forall j: nat :: j < |params| && params[j].kind == ByReference ==> params[j].size == POINTER_BYTES
  }

  /** A packed body's buffer reaches the end of its last field, and is never empty. */
  ghost predicate IsSize(params: seq<Param>, size: nat) {
    && size > 0 && Within(FieldsOf(params), size)
    && (size == 1 || exists j: nat :: j < |params| && size == params[j].offset + params[j].size)
  }

  method BufferSize(params: seq<Param>) returns (size: nat)
    ensures IsSize(params, size)
  {
    size := 0;
    for j := 0 to |params|
      invariant forall k: nat :: k < j ==> params[k].offset + params[k].size <= size
      invariant size == 0 || exists k: nat :: k < j && size == params[k].offset + params[k].size
    {
      var end := params[j].offset + params[j].size;
      if end > size { size := end; }
    }
    if size == 0 { size := 1; }
  }

  /** The buffer a body compiled on its own is packed into. */
  method PackAlone(m: Memory, slots: seq<Ptr>, params: seq<Param>) returns (buf: array<nat>)
    requires |slots| == |params| && PackedParams(params)
    ensures fresh(buf) && IsSize(params, buf.Length)
    ensures Filled(m, slots, FieldsOf(params), buf[..], |params|)
    ensures ZeroElsewhere(FieldsOf(params), buf[..], |params|)
  {
    var size := BufferSize(params);
    buf := Fill(m, slots, FieldsOf(params), size);
  }

  // ------------------------------------------------------------ a body rebuilt from the fused buffer

  /** Values of these sizes are loaded once and stored as a whole. */
  predicate RegisterSize(n: nat) {
    n == 1 || n == 2 || n == 4 || n == 8
  }

  /** Bytes stored for a parameter: a whole register for references and scalars, else a byte copy. */
  function StoredBytes(plan: Plan, k: nat, p: Param): nat
    requires k < |plan.sizes| == |plan.refs|
  {
    if plan.refs[k] then POINTER_BYTES
    else if RegisterSize(plan.sizes[k]) then plan.sizes[k]
    else p.size
  }

  /** Every parameter is stored in full, and no more, from bytes of the shared slot it is read from. */
  ghost predicate Matched(plan: Plan, map': seq<nat>, params: seq<Param>) {
    && |map'| == |params| && |plan.sizes| == |plan.refs|
    && forall j: nat :: j < |map'| ==>
        map'[j] < |plan.sizes| && StoredBytes(plan, map'[j], params[j]) == params[j].size <= plan.sizes[map'[j]]
  }

  /** The first `n` parameters hold the bytes of the shared slots they are read from. */
  ghost predicate Rebuilt(m: Memory, plan: Plan, map': seq<nat>, params: seq<Param>, buf: seq<nat>, n: nat) {
    && |map'| == |params| && n <= |params|
    && forall j: nat :: j < n ==>
        map'[j] < |plan.unique| && Holds(buf, params[j].offset, SlotBytes(m, plan.unique[map'[j]], params[j].size))
  }

  /** Every load and every store stays inside its buffer. */
  ghost predicate Storable(plan: Plan, offsets: seq<nat>, map': seq<nat>, params: seq<Param>, fused: seq<nat>,
                           size: nat)
  {
    && |map'| == |params| && |plan.sizes| == |plan.refs| == |offsets|
    && forall j: nat :: j < |map'| ==> StorableAt(plan, offsets, map'[j], params[j], fused, size)
  }

  ghost predicate StorableAt(plan: Plan, offsets: seq<nat>, k: nat, p: Param, fused: seq<nat>, size: nat)
    requires |plan.sizes| == |plan.refs| == |offsets|
  {
    && k < |plan.sizes| && p.offset + StoredBytes(plan, k, p) <= size
    && offsets[k] + StoredBytes(plan, k, p) <= |fused|
  }

  function Overlay(buf: seq<nat>, at: nat, bytes: seq<nat>): (r: seq<nat>)
    requires at + |bytes| <= |buf|
    ensures |r| == |buf| && Holds(r, at, bytes)
    ensures forall b: nat :: b < |buf| && !(at <= b < at + |bytes|) ==> r[b] == buf[b]
  {
    buf[..at] + bytes + buf[at + |bytes|..]
  }

  /** The stack buffer after the first `n` stores; what it held before is left standing. */
  ghost function Stored(init: seq<nat>, fused: seq<nat>, plan: Plan, offsets: seq<nat>, map': seq<nat>,
                        params: seq<Param>, n: nat): (r: seq<nat>)
    requires Storable(plan, offsets, map', params, fused, |init|) && n <= |params|
    ensures |r| == |init|
  {
    if n == 0 then init
    else
      var k, p := map'[n - 1], params[n - 1];
      assert StorableAt(plan, offsets, k, p, fused, |init|);
      Overlay(Stored(init, fused, plan, offsets, map', params, n - 1), p.offset,
              fused[offsets[k]..offsets[k] + StoredBytes(plan, k, p)])
  }

  /** Store, for every parameter, what the shared slot's width or the parameter's size says. */
  method Rebuild(fused: seq<nat>, plan: Plan, offsets: seq<nat>, map': seq<nat>, params: seq<Param>, recon: array<nat>)
    requires Storable(plan, offsets, map', params, fused, recon.Length)
    modifies recon
    ensures recon[..] == Stored(old(recon[..]), fused, plan, offsets, map', params, |params|)
  {
    hide Overlay, Holds, SlotBytes, StoredBytes;
    ghost var init := recon[..];
    for j := 0 to |params|
      invariant recon[..] == Stored(init, fused, plan, offsets, map', params, j)
    {
      var k := map'[j];
      assert StorableAt(plan, offsets, k, params[j], fused, recon.Length);
      var n := StoredBytes(plan, k, params[j]);
      ghost var was := recon[..];
      Write(recon, params[j].offset, fused[offsets[k]..offsets[k] + n]);
      OverlayIs(was, params[j].offset, fused[offsets[k]..offsets[k] + n], recon[..]);
    }
  }

  lemma OverlayIs(was: seq<nat>, at: nat, bytes: seq<nat>, buf: seq<nat>)
    requires |buf| == |was| && Holds(buf, at, bytes)
    requires forall b: nat :: b < |buf| && !(at <= b < at + |bytes|) ==> buf[b] == was[b]
    ensures buf == Overlay(was, at, bytes)
  {
    var r := Overlay(was, at, bytes);
    forall b: nat | b < |buf| ensures buf[b] == r[b] {
      if at <= b < at + |bytes| { assert r[at + (b - at)] == bytes[b - at] == buf[at + (b - at)]; }
    }
  }

  /** What a shared slot is laid out with starts with what its narrower uses need. */
  lemma SharedField(m: Memory, plan: Plan, offsets: seq<nat>, fused: seq<nat>, k: nat, n: nat)
    requires IsFused(m, plan, offsets, fused) && k < |plan.sizes| && n <= plan.sizes[k]
    ensures |plan.unique| == |plan.sizes| == |offsets| && offsets[k] + n <= |fused|
    ensures fused[offsets[k]..offsets[k] + n] == SlotBytes(m, plan.unique[k], n)
  {
    hide Laid, ZeroElsewhere;
    var f := FieldsAt(offsets, plan.sizes)[k];
    var bytes := SlotBytes(m, plan.unique[k], f.size);
    assert Holds(fused, f.offset, bytes);
    assert SlotBytes(m, plan.unique[k], n) == bytes[..n];
    assert Holds(fused, f.offset, bytes[..n]);
    HoldsSlice(fused, f.offset, bytes[..n]);
  }

  /** Matched parameters are stored inside both buffers. */
  lemma MatchedIsStorable(m: Memory, fused: seq<nat>, plan: Plan, offsets: seq<nat>, map': seq<nat>,
                          params: seq<Param>, size: nat)
    requires IsFused(m, plan, offsets, fused) && Matched(plan, map', params) && IsSize(params, size)
    ensures Storable(plan, offsets, map', params, fused, size)
  {
    hide IsSize, SlotBytes, Filled, Holds, IsFused;
    FusedLengths(m, plan, offsets, fused);
    forall j: nat | j < |map'| ensures StorableAt(plan, offsets, map'[j], params[j], fused, size) {
      SharedField(m, plan, offsets, fused, map'[j], params[j].size);
      RoomFor(params, j, size);
    }
  }

  lemma FusedLengths(m: Memory, plan: Plan, offsets: seq<nat>, fused: seq<nat>)
    requires IsFused(m, plan, offsets, fused)
    ensures |plan.unique| == |plan.sizes| == |plan.refs| == |offsets|
  {}

  /** ... and then every one of them holds its shared slot's bytes, whatever the buffer held before. */
  lemma {:induction false} StoredIsRebuilt(m: Memory, init: seq<nat>, fused: seq<nat>, plan: Plan, offsets: seq<nat>,
                                           map': seq<nat>, params: seq<Param>, n: nat)
    requires IsFused(m, plan, offsets, fused) && Matched(plan, map', params) && PackedParams(params)
    requires Storable(plan, offsets, map', params, fused, |init|) && n <= |params|
    ensures Rebuilt(m, plan, map', params, Stored(init, fused, plan, offsets, map', params, n), n)
  {
    hide PackedParams, SlotBytes, Filled, Disjoint, Holds, IsFused, Overlay;
    if n > 0 {
      var k, p := map'[n - 1], params[n - 1];
      var was := Stored(init, fused, plan, offsets, map', params, n - 1);
      StoredIsRebuilt(m, init, fused, plan, offsets, map', params, n - 1);
      FusedLengths(m, plan, offsets, fused);
      assert StorableAt(plan, offsets, k, p, fused, |init|);
      SharedField(m, plan, offsets, fused, k, p.size);
      RebuiltMore(m, plan, map', params, was, Stored(init, fused, plan, offsets, map', params, n), n - 1);
    }
  }

  lemma RoomFor(params: seq<Param>, j: nat, size: nat)
    requires IsSize(params, size) && j < |params|
    ensures params[j].offset + params[j].size <= size
  {}

  lemma RebuiltMore(m: Memory, plan: Plan, map': seq<nat>, params: seq<Param>, was: seq<nat>, buf: seq<nat>, n: nat)
    requires Rebuilt(m, plan, map', params, was, n) && n < |params| && PackedParams(params) && |was| == |buf|
    requires map'[n] < |plan.unique| && Holds(buf, params[n].offset, SlotBytes(m, plan.unique[map'[n]], params[n].size))
    requires forall b: nat :: b < |buf| && !(params[n].offset <= b < params[n].offset + params[n].size) ==>
        buf[b] == was[b]
    ensures Rebuilt(m, plan, map', params, buf, n + 1)
  {
    hide SlotBytes;
    forall j: nat | j < n ensures Holds(buf, params[j].offset, SlotBytes(m, plan.unique[map'[j]], params[j].size)) {
      assert Apart(FieldsOf(params)[j], FieldsOf(params)[n]);
      assert Holds(was, params[j].offset, SlotBytes(m, plan.unique[map'[j]], params[j].size));
    }
  }

  // ------------------------------------------------------------ the same bytes

  /** Packed bodies: described parameters only, one per slot. */
  ghost predicate AllPacked(inputs: seq<Input>) {
    forall i: nat :: i < |inputs| ==>
      inputs[i].Leaf? && !inputs[i].valueDedup && |inputs[i].params| == |inputs[i].slots| &&
          PackedParams(inputs[i].params)
  }

  /** A slot that is not null has the size and the bytes of the shared slot that serves it. */
  lemma ServedBytes(m: Memory, inputs: seq<Input>, plan: Plan, owners: seq<Position>, p: Position)
    requires AllPacked(inputs) && Deduplicated(m, inputs, plan, owners) && IsLeaf(inputs, p)
    ensures IndexedWell(inputs, plan, p)
    ensures
      var k, n := plan.index[p.input][p.slot], inputs[p.input].params[p.slot].size;
      && (inputs[p.input].slots[p.slot] == 0 ==> plan.unique[k] == 0)
      && (inputs[p.input].slots[p.slot] != 0 ==>
          plan.sizes[k] == n && (plan.refs[k] <==> SlotIsRef(inputs[p.input], p.slot)))
      && SlotBytes(m, plan.unique[k], n) == SlotBytes(m, inputs[p.input].slots[p.slot], n)
  {
    IndexServes(m, inputs, plan, owners, p);
    var k := plan.index[p.input][p.slot];
    var o := owners[k];
    assert KeyAt(m, inputs, o) == KeyAt(m, inputs, p);
    assert plan.unique[k] == inputs[o.input].slots[o.slot];
  }

  ghost predicate IndexedWell(inputs: seq<Input>, plan: Plan, p: Position)
    requires IsLeaf(inputs, p)
  {
    && p.input < |plan.index| && p.slot < |plan.index[p.input]| == |inputs[p.input].slots|
    && plan.index[p.input][p.slot] < |plan.unique| == |plan.sizes| == |plan.refs|
  }

  ghost predicate IsNull(inputs: seq<Input>, p: Position) {
    IsLeaf(inputs, p) && inputs[p.input].slots[p.slot] == 0
  }

  ghost function ParamAt(inputs: seq<Input>, p: Position): Param
    requires AllPacked(inputs) && IsPosition(inputs, p)
  {
    inputs[p.input].params[p.slot]
  }

  /** The first null slot of the chain: the one all null slots share. */
  ghost predicate FirstNull(inputs: seq<Input>, o: Position) {
    IsNull(inputs, o) && forall q: Position :: IsNull(inputs, q) ==> q == o || Before(o, q)
  }

  /** Parameter `p` gets its own number of bytes from a slot laid out for `o`: it is as wide, or narrower
      and both are copied byte by byte. */
  predicate Serveable(o: Param, p: Param) {
    p.size == o.size || (o.kind == ByCopy && o.size !in {1, 2, 4, 8} && p.size < o.size)
  }

  /** Every null slot can be served from the first one. */
  ghost predicate NullsServed(inputs: seq<Input>)
    requires AllPacked(inputs)
  {
    forall o: Position, p: Position :: FirstNull(inputs, o) && IsNull(inputs, p) ==>
        Serveable(ParamAt(inputs, o), ParamAt(inputs, p))
  }

  ghost predicate AllMatched(inputs: seq<Input>, plan: Plan)
    requires AllPacked(inputs)
  {
    |plan.index| == |inputs| && forall i: nat :: i < |inputs| ==> Matched(plan, plan.index[i], inputs[i].params)
  }

  /** Parameter `p` is stored in full, and no more, from bytes of the shared slot it is read from. */
  ghost predicate MatchedAt(inputs: seq<Input>, plan: Plan, p: Position)
    requires AllPacked(inputs) && IsLeaf(inputs, p)
  {
    && IndexedWell(inputs, plan, p)
    && (var k := plan.index[p.input][p.slot];
        StoredBytes(plan, k, ParamAt(inputs, p)) == ParamAt(inputs, p).size <= plan.sizes[k])
  }

  lemma NullMatched(m: Memory, inputs: seq<Input>, plan: Plan, owners: seq<Position>, p: Position)
    requires AllPacked(inputs) && Deduplicated(m, inputs, plan, owners) && IsNull(inputs, p)
    ensures IndexedWell(inputs, plan, p) && plan.index[p.input][p.slot] < |owners|
    ensures
      var o := owners[plan.index[p.input][p.slot]];
      FirstNull(inputs, o) && (MatchedAt(inputs, plan, p) <==> Serveable(ParamAt(inputs, o), ParamAt(inputs, p)))
  {
    IndexServes(m, inputs, plan, owners, p);
    var k := plan.index[p.input][p.slot];
    var o := owners[k];
    assert KeyAt(m, inputs, o) == KeyAt(m, inputs, p) == AddressKey(0);
    assert plan.sizes[k] == SlotSize(inputs[o.input], o.slot) && plan.refs[k] == SlotIsRef(inputs[o.input], o.slot);
    assert ParamAt(inputs, o).size == plan.sizes[k];
    OwnsNull(m, inputs, o);
  }

  lemma OwnsNull(m: Memory, inputs: seq<Input>, o: Position)
    requires AllPacked(inputs) && IsLeaf(inputs, o) && IsNew(m, inputs, o) && KeyAt(m, inputs, o) == AddressKey(0)
    ensures FirstNull(inputs, o)
  {
    forall q: Position | IsNull(inputs, q) ensures q == o || Before(o, q) {
      assert KeyAt(m, inputs, q) == AddressKey(0);
    }
  }

  lemma OneFirstNull(inputs: seq<Input>, o: Position, q: Position)
    requires FirstNull(inputs, o) && FirstNull(inputs, q)
    ensures o == q
  {}

  /** Every parameter of every body gets its own number of bytes of its slot exactly when the first null
      slot of the chain can serve all others. */
  lemma MatchedExactly(m: Memory, inputs: seq<Input>, plan: Plan, owners: seq<Position>)
    requires AllPacked(inputs) && Deduplicated(m, inputs, plan, owners)
    ensures AllMatched(inputs, plan) <==> NullsServed(inputs)
  {
    hide Deduplicated, SlotBytes, PackedParams, Serveable;
    if NullsServed(inputs) {
      forall p: Position | IsLeaf(inputs, p) ensures MatchedAt(inputs, plan, p) {
        ServedBytes(m, inputs, plan, owners, p);
        if IsNull(inputs, p) { NullMatched(m, inputs, plan, owners, p); } else { RefSize(inputs, p); }
      }
      MatchedEverywhere(m, inputs, plan, owners);
    }
    if AllMatched(inputs, plan) {
      forall o: Position, p: Position | FirstNull(inputs, o) && IsNull(inputs, p)
        ensures Serveable(ParamAt(inputs, o), ParamAt(inputs, p))
      {
        NullMatched(m, inputs, plan, owners, p);
        OneFirstNull(inputs, o, owners[plan.index[p.input][p.slot]]);
        assert Matched(plan, plan.index[p.input], inputs[p.input].params);
      }
    }
  }

  lemma RefSize(inputs: seq<Input>, p: Position)
    requires AllPacked(inputs) && IsLeaf(inputs, p)
    ensures SlotIsRef(inputs[p.input], p.slot) ==> ParamAt(inputs, p).size == POINTER_BYTES
  {}

  lemma MatchedEverywhere(m: Memory, inputs: seq<Input>, plan: Plan, owners: seq<Position>)
    requires AllPacked(inputs) && Deduplicated(m, inputs, plan, owners)
    requires forall p: Position :: IsLeaf(inputs, p) ==> MatchedAt(inputs, plan, p)
    ensures AllMatched(inputs, plan)
  {
    hide Deduplicated, PackedParams;
    assert |plan.index| == |inputs| by { PlanRows(m, inputs, plan, owners); }
    forall i: nat | i < |inputs| ensures Matched(plan, plan.index[i], inputs[i].params) {
      PlanShape(m, inputs, plan, owners, i);
      MatchedRow(inputs, plan, i);
    }
  }

  lemma PlanRows(m: Memory, inputs: seq<Input>, plan: Plan, owners: seq<Position>)
    requires Deduplicated(m, inputs, plan, owners)
    ensures |plan.index| == |inputs|
  {}

  lemma MatchedRow(inputs: seq<Input>, plan: Plan, i: nat)
    requires AllPacked(inputs) && i < |inputs| == |plan.index| && |plan.index[i]| == |inputs[i].slots| &&
        |plan.sizes| == |plan.refs|
    requires forall p: Position :: IsLeaf(inputs, p) ==> MatchedAt(inputs, plan, p)
    ensures Matched(plan, plan.index[i], inputs[i].params)
  {
    var map' := plan.index[i];
    forall j: nat | j < |map'|
      ensures map'[j] < |plan.sizes|
      ensures StoredBytes(plan, map'[j], inputs[i].params[j]) == inputs[i].params[j].size <= plan.sizes[map'[j]]
    {
      assert MatchedAt(inputs, plan, Position(i, j));
    }
  }

  lemma PlanShape(m: Memory, inputs: seq<Input>, plan: Plan, owners: seq<Position>, i: nat)
    requires AllPacked(inputs) && Deduplicated(m, inputs, plan, owners) && i < |inputs|
    ensures |plan.index| == |inputs| && |plan.unique| == |plan.sizes| == |plan.refs|
    ensures |plan.index[i]| == |inputs[i].slots|
  {
    assert Placed(m, inputs, owners, plan.index[i], plan.starts[i], i);
  }

  /** Two buffers agree on every byte the parameters cover. */
  ghost predicate Agree(params: seq<Param>, a: seq<nat>, b: seq<nat>) {
    forall j: nat :: j < |params| ==> SameBytes(params[j], a, b)
  }

  ghost predicate SameBytes(p: Param, a: seq<nat>, b: seq<nat>) {
    && p.offset + p.size <= |a| && p.offset + p.size <= |b|
    && a[p.offset..p.offset + p.size] == b[p.offset..p.offset + p.size]
  }

  lemma HoldsSlice(buf: seq<nat>, at: nat, bytes: seq<nat>)
    requires Holds(buf, at, bytes)
    ensures buf[at..at + |bytes|] == bytes
  {}

  /** The buffer rebuilt for a body agrees with the one the body would have been packed into alone. */
  lemma RebuiltIsAlone(m: Memory, inputs: seq<Input>, plan: Plan, owners: seq<Position>, i: nat, recon: seq<nat>,
                       alone: seq<nat>)
    requires AllPacked(inputs) && Deduplicated(m, inputs, plan, owners) && i < |inputs| == |plan.index|
    requires Rebuilt(m, plan, plan.index[i], inputs[i].params, recon, |inputs[i].params|)
    requires Filled(m, inputs[i].slots, FieldsOf(inputs[i].params), alone, |inputs[i].params|)
    ensures Agree(inputs[i].params, recon, alone)
  {
    hide Deduplicated, SlotBytes;
    var params, map' := inputs[i].params, plan.index[i];
    forall j: nat | j < |params| ensures SameBytes(params[j], recon, alone) {
      ServedBytes(m, inputs, plan, owners, Position(i, j));
      assert Holds(recon, params[j].offset, SlotBytes(m, plan.unique[map'[j]], params[j].size));
      assert Holds(alone, FieldsOf(params)[j].offset, SlotBytes(m, inputs[i].slots[j], FieldsOf(params)[j].size));
      HoldsSlice(recon, params[j].offset, SlotBytes(m, plan.unique[map'[j]], params[j].size));
      HoldsSlice(alone, params[j].offset, SlotBytes(m, inputs[i].slots[j], params[j].size));
    }
  }

  /** The call of body `i`: its own buffer, rebuilt from the fused one, reads like the buffer it would
      have been packed into alone. */
  method RebuildBody(ghost m: Memory, inputs: seq<Input>, plan: Plan, ghost owners: seq<Position>, fused: seq<nat>,
                     offsets: seq<nat>, i: nat)
    returns (recon: array<nat>)
    requires AllPacked(inputs) && Deduplicated(m, inputs, plan, owners) && NullsServed(inputs)
    requires IsFused(m, plan, offsets, fused) && i < |inputs|
    ensures fresh(recon) && IsSize(inputs[i].params, recon.Length) && |plan.index| == |inputs|
    ensures Rebuilt(m, plan, plan.index[i], inputs[i].params, recon[..], |inputs[i].params|)
    ensures forall alone: seq<nat> :: Filled(m, inputs[i].slots, FieldsOf(inputs[i].params), alone, |inputs[i].params|)
              ==> Agree(inputs[i].params, recon[..], alone)
  {
    hide Deduplicated, IsFused, NullsServed, Rebuilt, Filled, Agree, IsSize, PackedParams, Storable, Stored;
    MatchedExactly(m, inputs, plan, owners);
    PlanShape(m, inputs, plan, owners, i);
    var params := inputs[i].params;
    var size := BufferSize(params);
    recon := new nat[size];
    ghost var init := recon[..];
    MatchedIsStorable(m, fused, plan, offsets, plan.index[i], params, size);
    StoredIsRebuilt(m, init, fused, plan, offsets, plan.index[i], params, |params|);
    Rebuild(fused, plan, offsets, plan.index[i], params, recon);
    forall alone: seq<nat> | Filled(m, inputs[i].slots, FieldsOf(params), alone, |params|)
      ensures Agree(params, recon[..], alone)
    {
      RebuiltIsAlone(m, inputs, plan, owners, i, recon[..], alone);
    }
  }

  // ------------------------------------------------------------ null slots that do not fit

  /** Two parameters copied from null slots: both are served from the slot of the first. */
  function TwoNulls(n: nat, l: nat): seq<Input> {
    [Leaf([0, 0], [Param(ByCopy, n, 0), Param(ByCopy, l, n)], false, [])]
  }

  function SharedNull(n: nat): Plan {
    Plan([0], [n], [false], [[0, 0]], [0])
  }

  lemma SharedNullServes(n: nat, l: nat)
    ensures AllPacked(TwoNulls(n, l)) && Deduplicated(_ => 0, TwoNulls(n, l), SharedNull(n), [Position(0, 0)])
  {
    var inputs, owners := TwoNulls(n, l), [Position(0, 0)];
    var m: Memory := _ => 0;
    forall p: Position | IsPosition(inputs, p) && IsNew(m, inputs, p) && Before(p, Position(1, 0)) ensures p in owners {
      assert p != Position(0, 0) ==> p == Position(0, 1) && IsLeaf(inputs, Position(0, 0)) && Before(Position(0, 0), p);
    }
    assert Enumerates(m, inputs, owners, Position(1, 0));
    assert Placed(m, inputs, owners, [0, 0], 0, 0);
  }

  lemma SharedNullFused(n: nat, fused: seq<nat>)
    requires fused == seq(n, _ => 0)
    ensures IsFused(_ => 0, SharedNull(n), [0], fused)
  {
    var plan, fields := SharedNull(n), FieldsAt([0], [n]);
    assert Holds(fused, fields[0].offset, SlotBytes(_ => 0, 0, n));
    assert Laid(Extents(plan), Alignments(plan), [0]);
  }

  /** What a body packed alone gets for both: zeros. */
  lemma AloneZero(n: nat, l: nat, alone: seq<nat>)
    requires Filled(_ => 0, [0, 0], FieldsOf(TwoNulls(n, l)[0].params), alone, 2)
    ensures n + l <= |alone| && alone[n..n + l] == seq(l, _ => 0)
  {
    var f := FieldsOf(TwoNulls(n, l)[0].params)[1];
    assert Holds(alone, f.offset, SlotBytes(_ => 0, 0, f.size));
    HoldsSlice(alone, n, SlotBytes(_ => 0, 0, l));
  }

  /** What no store covers keeps what was there before. */
  lemma {:induction false} StaleByte(init: seq<nat>, fused: seq<nat>, plan: Plan, offsets: seq<nat>, map': seq<nat>,
                                     params: seq<Param>, n: nat, b: nat)
    requires Storable(plan, offsets, map', params, fused, |init|) && n <= |params| && b < |init|
    requires forall j: nat :: j < n ==>
               b < params[j].offset || params[j].offset + StoredBytes(plan, map'[j], params[j]) <= b
    ensures Stored(init, fused, plan, offsets, map', params, n)[b] == init[b]
  {
    if n > 0 {
      hide Holds, StoredBytes;
      StaleByte(init, fused, plan, offsets, map', params, n - 1, b);
      assert StorableAt(plan, offsets, map'[n - 1], params[n - 1], fused, |init|);
    }
  }

  lemma NullsStorable(n: nat, l: nat, fused: seq<nat>, size: nat)
    requires RegisterSize(n) && n < l && size == n + l && |fused| == n
    ensures IsSize(TwoNulls(n, l)[0].params, size)
    ensures Storable(SharedNull(n), [0], [0, 0], TwoNulls(n, l)[0].params, fused, size)
  {
    var params := TwoNulls(n, l)[0].params;
    assert FieldsOf(params) == [Field(0, n), Field(n, l)];
    assert params[1].offset + params[1].size == size;
  }

  lemma LastIsStale(n: nat, l: nat, init: seq<nat>, fused: seq<nat>)
    requires RegisterSize(n) && n < l && |init| == n + l && |fused| == n
    requires Storable(SharedNull(n), [0], [0, 0], TwoNulls(n, l)[0].params, fused, |init|)
    ensures Stored(init, fused, SharedNull(n), [0], [0, 0], TwoNulls(n, l)[0].params, 2)[n + l - 1] == init[n + l - 1]
  {
    hide Storable, Stored;
    StaleByte(init, fused, SharedNull(n), [0], [0, 0], TwoNulls(n, l)[0].params, 2, n + l - 1);
  }

  /** A parameter wider than the register it shares keeps a stale byte of the stack. */
  lemma TooFewBytes(n: nat, l: nat, init: seq<nat>, fused: seq<nat>, alone: seq<nat>)
    requires n in {1, 2, 4, 8} && n < l && |init| == n + l && fused == seq(n, _ => 0)
    requires Filled(_ => 0, [0, 0], FieldsOf(TwoNulls(n, l)[0].params), alone, 2)
    ensures
      var params, plan := TwoNulls(n, l)[0].params, SharedNull(n);
      && AllPacked(TwoNulls(n, l)) && Deduplicated(_ => 0, TwoNulls(n, l), plan, [Position(0, 0)])
      && IsFused(_ => 0, plan, [0], fused) && IsSize(params, |init|)
      && Storable(plan, [0], [0, 0], params, fused, |init|)
      && (Agree(params, Stored(init, fused, plan, [0], [0, 0], params, 2), alone) ==> init[n + l - 1] == 0)
  {
    hide IsFused, Filled, Stored, Storable, IsSize, Deduplicated, AllPacked;
    var params, plan := TwoNulls(n, l)[0].params, SharedNull(n);
    SharedNullServes(n, l);
    SharedNullFused(n, fused);
    AloneZero(n, l, alone);
    NullsStorable(n, l, fused, |init|);
    LastIsStale(n, l, init, fused);
    var two := Stored(init, fused, plan, [0], [0, 0], params, 2);
    if Agree(params, two, alone) {
      assert SameBytes(params[1], two, alone);
      assert two[n..n + l][l - 1] == alone[n..n + l][l - 1];
    }
  }

  /** A parameter narrower than the register it shares is stored past its field: when it comes last, past the buffer. */
  lemma TooManyBytes(n: nat, l: nat, fused: seq<nat>, size: nat)
    requires n in {1, 2, 4, 8} && l < n && IsSize(TwoNulls(n, l)[0].params, size)
    ensures AllPacked(TwoNulls(n, l)) && Deduplicated(_ => 0, TwoNulls(n, l), SharedNull(n), [Position(0, 0)])
    ensures !Storable(SharedNull(n), [0], [0, 0], TwoNulls(n, l)[0].params, fused, size)
  {
    SharedNullServes(n, l);
    hide AllPacked, Deduplicated;
    var params := TwoNulls(n, l)[0].params;
    assert forall j: nat :: j < 2 ==> params[j].offset + params[j].size <= n + l;
    assert !StorableAt(SharedNull(n), [0], [0, 0][1], params[1], fused, size);
  }

  /** Two null slots around a slot with a value at address 1. */
  function NullsAround(n: nat, l: nat, c: nat): seq<Input> {
    [Leaf([0, 1, 0], [Param(ByCopy, n, 0), Param(ByCopy, c, n + l), Param(ByCopy, l, n)], false, [])]
  }

  function SharedAround(n: nat, c: nat): Plan {
    Plan([0, 1], [n, c], [false, false], [[0, 1, 0]], [0])
  }

  lemma AroundFields(n: nat, l: nat, c: nat)
    ensures PackedParams(NullsAround(n, l, c)[0].params)
  {
    var fields := FieldsOf(NullsAround(n, l, c)[0].params);
    assert fields == [Field(0, n), Field(n + l, c), Field(n, l)];
  }

  lemma SharedAroundServes(m: Memory, n: nat, l: nat, c: nat)
    requires c > 0
    ensures AllPacked(NullsAround(n, l, c))
    ensures Deduplicated(m, NullsAround(n, l, c), SharedAround(n, c), [Position(0, 0), Position(0, 1)])
  {
    var inputs, owners := NullsAround(n, l, c), [Position(0, 0), Position(0, 1)];
    AroundFields(n, l, c);
    assert KeyAt(m, inputs, Position(0, 0)) == KeyAt(m, inputs, Position(0, 2)) == AddressKey(0);
    assert KeyAt(m, inputs, Position(0, 1)).CopyKey?;
    assert IsLeaf(inputs, Position(0, 0)) && Before(Position(0, 0), Position(0, 2));
    assert !IsNew(m, inputs, Position(0, 2));
    assert owners[0] in owners && owners[1] in owners;
    forall p: Position | IsPosition(inputs, p) && IsNew(m, inputs, p) && Before(p, Position(1, 0)) ensures p in owners {
      assert p.input == 0 && (p.slot == 0 || p.slot == 1);
    }
    assert Enumerates(m, inputs, owners, Position(1, 0));
    assert Placed(m, inputs, owners, [0, 1, 0], 0, 0);
  }

  /** The last store is what its bytes read. */
  lemma LastStored(init: seq<nat>, fused: seq<nat>, plan: Plan, offsets: seq<nat>, map': seq<nat>, params: seq<Param>,
                   n: nat, b: nat)
    requires Storable(plan, offsets, map', params, fused, |init|) && 0 < n <= |params|
    requires b < StoredBytes(plan, map'[n - 1], params[n - 1])
    ensures StorableAt(plan, offsets, map'[n - 1], params[n - 1], fused, |init|)
    ensures Stored(init, fused, plan, offsets, map', params, n)[params[n - 1].offset + b]
         == fused[offsets[map'[n - 1]] + b]
  {
    hide StoredBytes;
    assert StorableAt(plan, offsets, map'[n - 1], params[n - 1], fused, |init|);
  }

  lemma AloneSecond(m: Memory, n: nat, l: nat, c: nat, alone: seq<nat>)
    requires c > 0 && Filled(m, [0, 1, 0], FieldsOf(NullsAround(n, l, c)[0].params), alone, 3)
    ensures n + l + c <= |alone| && alone[n + l] == m(1)
  {
    var f := FieldsOf(NullsAround(n, l, c)[0].params)[1];
    assert Holds(alone, f.offset, SlotBytes(m, 1, f.size));
    assert alone[f.offset + 0] == SlotBytes(m, 1, f.size)[0];
  }

  lemma AroundStorable(n: nat, l: nat, c: nat, fused: seq<nat>, size: nat)
    requires RegisterSize(n) && l < n <= l + c && size == n + l + c && n + c <= |fused|
    ensures IsSize(NullsAround(n, l, c)[0].params, size)
    ensures Storable(SharedAround(n, c), [0, n], [0, 1, 0], NullsAround(n, l, c)[0].params, fused, size)
  {
    var params := NullsAround(n, l, c)[0].params;
    assert FieldsOf(params) == [Field(0, n), Field(n + l, c), Field(n, l)];
    assert params[1].offset + params[1].size == size;
  }

  lemma AroundFused(m: Memory, n: nat, c: nat, fused: seq<nat>, b: nat)
    requires IsFused(m, SharedAround(n, c), [0, n], fused) && b < n
    ensures n + c <= |fused| && fused[b] == 0
  {
    hide IsFused;
    SharedField(m, SharedAround(n, c), [0, n], fused, 0, n);
    SharedField(m, SharedAround(n, c), [0, n], fused, 1, c);
    assert fused[0..n][b] == SlotBytes(m, 0, n)[b];
  }

  /** ... and otherwise over the field behind it. */
  lemma OverwritesNext(m: Memory, n: nat, l: nat, c: nat, init: seq<nat>, fused: seq<nat>, alone: seq<nat>)
    requires n in {1, 2, 4, 8} && l < n <= l + c && |init| == n + l + c && IsFused(m, SharedAround(n, c), [0, n], fused)
    requires Filled(m, [0, 1, 0], FieldsOf(NullsAround(n, l, c)[0].params), alone, 3)
    ensures
      var params, plan := NullsAround(n, l, c)[0].params, SharedAround(n, c);
      && AllPacked(NullsAround(n, l, c))
      && Deduplicated(m, NullsAround(n, l, c), plan, [Position(0, 0), Position(0, 1)])
      && IsSize(params, |init|) && Storable(plan, [0, n], [0, 1, 0], params, fused, |init|)
      && (Agree(params, Stored(init, fused, plan, [0, n], [0, 1, 0], params, 3), alone) ==> m(1) == 0)
  {
    hide IsFused, Filled, SlotBytes, Stored, Storable, IsSize, Deduplicated, AllPacked;
    SharedAroundServes(m, n, l, c);
    var params, plan := NullsAround(n, l, c)[0].params, SharedAround(n, c);
    AroundFused(m, n, c, fused, l);
    AroundStorable(n, l, c, fused, |init|);
    LastStored(init, fused, plan, [0, n], [0, 1, 0], params, 3, l);
    AloneSecond(m, n, l, c, alone);
    var three := Stored(init, fused, plan, [0, n], [0, 1, 0], params, 3);
    if Agree(params, three, alone) {
      assert SameBytes(params[1], three, alone);
      assert three[n + l..n + l + c][0] == alone[n + l..n + l + c][0];
    }
  }

  // ------------------------------------------------------------ running packed programs

  /** A packed program: a function of its buffer and of memory. */
  type PackedBody = (seq<nat>, Memory) -> Memory

  /** A body reads its buffer only at its parameters. */
  ghost predicate ReadsOnly(body: PackedBody, params: seq<Param>) {
    forall a: seq<nat>, b: seq<nat>, m: Memory :: Agree(params, a, b) ==> body(a, m) == body(b, m)
  }

  ghost function RunPacked(bodies: seq<PackedBody>, buffers: seq<seq<nat>>, m: Memory, n: nat): Memory
    requires n <= |bodies| == |buffers|
  {
    if n == 0 then m else bodies[n - 1](buffers[n - 1], RunPacked(bodies, buffers, m, n - 1))
  }

  ghost predicate AllAgree(inputs: seq<Input>, recons: seq<seq<nat>>, alones: seq<seq<nat>>) {
    && |recons| == |alones| == |inputs|
    && forall i: nat :: i < |inputs| ==> inputs[i].Leaf? && Agree(inputs[i].params, recons[i], alones[i])
  }

  ghost predicate AllReadOnly(inputs: seq<Input>, bodies: seq<PackedBody>) {
    |bodies| == |inputs| && forall i: nat :: i < |inputs| ==> inputs[i].Leaf? && ReadsOnly(bodies[i], inputs[i].params)
  }

  lemma {:induction false} AgreeingRuns(inputs: seq<Input>, bodies: seq<PackedBody>, recons: seq<seq<nat>>,
                                        alones: seq<seq<nat>>, m: Memory, n: nat)
    requires AllReadOnly(inputs, bodies) && AllAgree(inputs, recons, alones) && n <= |inputs|
    ensures RunPacked(bodies, recons, m, n) == RunPacked(bodies, alones, m, n)
  {
    if n > 0 {
      hide Agree;
      AgreeingRuns(inputs, bodies, recons, alones, m, n - 1);
      assert ReadsOnly(bodies[n - 1], inputs[n - 1].params) &&
          Agree(inputs[n - 1].params, recons[n - 1], alones[n - 1]);
    }
  }

  /** Buffers of the first `n` bodies, the rebuilt ones and those of the bodies packed alone. */
  ghost predicate BuffersUpTo(r: Memory, inputs: seq<Input>, plan: Plan, recons: seq<seq<nat>>, alones: seq<seq<nat>>,
                              n: nat)
    requires AllPacked(inputs) && |plan.index| == |inputs|
  {
    && |recons| == |alones| == n <= |inputs|
    && forall i: nat :: i < n ==>
      && Rebuilt(r, plan, plan.index[i], inputs[i].params, recons[i], |inputs[i].params|)
      && Filled(r, inputs[i].slots, FieldsOf(inputs[i].params), alones[i], |inputs[i].params|)
  }

  ghost predicate BuffersOf(r: Memory, inputs: seq<Input>, plan: Plan, recons: seq<seq<nat>>, alones: seq<seq<nat>>)
    requires AllPacked(inputs) && |plan.index| == |inputs|
  {
    BuffersUpTo(r, inputs, plan, recons, alones, |inputs|)
  }

  lemma BuffersAgree(r: Memory, inputs: seq<Input>, plan: Plan, owners: seq<Position>, recons: seq<seq<nat>>,
                     alones: seq<seq<nat>>)
    requires AllPacked(inputs) && Deduplicated(r, inputs, plan, owners) && |plan.index| == |inputs|
    requires BuffersOf(r, inputs, plan, recons, alones)
    ensures AllAgree(inputs, recons, alones)
  {
    forall i: nat | i < |inputs| ensures Agree(inputs[i].params, recons[i], alones[i]) {
      hide *;
      BuffersAt(r, inputs, plan, recons, alones, i);
      RebuiltIsAlone(r, inputs, plan, owners, i, recons[i], alones[i]);
    }
  }

  lemma BuffersAt(r: Memory, inputs: seq<Input>, plan: Plan, recons: seq<seq<nat>>, alones: seq<seq<nat>>, i: nat)
    requires AllPacked(inputs) && |plan.index| == |inputs| && BuffersOf(r, inputs, plan, recons, alones) && i < |inputs|
    ensures |recons| == |alones| == |inputs| && inputs[i].Leaf?
    ensures Rebuilt(r, plan, plan.index[i], inputs[i].params, recons[i], |inputs[i].params|)
    ensures Filled(r, inputs[i].slots, FieldsOf(inputs[i].params), alones[i], |inputs[i].params|)
  {
    hide Rebuilt, Filled;
  }

  /** Calling the bodies on rebuilt buffers does what they do one after another on their own. */
  lemma PackedIsSequence(r: Memory, inputs: seq<Input>, plan: Plan, owners: seq<Position>, bodies: seq<PackedBody>,
                         recons: seq<seq<nat>>, alones: seq<seq<nat>>, m: Memory, n: nat)
    requires AllPacked(inputs) && Deduplicated(r, inputs, plan, owners) && n <= |inputs| == |plan.index|
    requires AllReadOnly(inputs, bodies) && BuffersOf(r, inputs, plan, recons, alones)
    ensures RunPacked(bodies, recons, m, n) == RunPacked(bodies, alones, m, n)
  {
    hide Deduplicated, BuffersOf, AllAgree;
    BuffersAgree(r, inputs, plan, owners, recons, alones);
    BufferCount(inputs, recons, alones);
    AgreeingRuns(inputs, bodies, recons, alones, m, n);
  }

  lemma BufferCount(inputs: seq<Input>, recons: seq<seq<nat>>, alones: seq<seq<nat>>)
    requires AllAgree(inputs, recons, alones)
    ensures |recons| == |alones| == |inputs|
  {}

  /** The shared slots of the chain fit the address space. */
  ghost predicate ChainFits(m: Memory, inputs: seq<Input>) {
    forall plan: Plan, owners: seq<Position> :: Deduplicated(m, inputs, plan, owners) ==> FitsMemory(plan)
  }

  ghost predicate SameRuns(inputs: seq<Input>, recons: seq<seq<nat>>, alones: seq<seq<nat>>) {
    |recons| == |alones| == |inputs| &&
    forall bodies: seq<PackedBody>, m: Memory, n: nat :: AllReadOnly(inputs, bodies) && n <= |inputs| ==>
      RunPacked(bodies, recons, m, n) == RunPacked(bodies, alones, m, n)
  }

  /** The whole way of a packed chain: share the slots, fill the fused buffer, rebuild every body's buffer from
      it; running the bodies on those does what running them on their own buffers does. */
  method PackChain(r: Memory, inputs: seq<Input>)
    returns (plan: Plan, fused: seq<nat>, offsets: seq<nat>, recons: seq<seq<nat>>, alones: seq<seq<nat>>)
    requires AllPacked(inputs) && NullsServed(inputs) && ChainFits(r, inputs)
    ensures exists owners :: Deduplicated(r, inputs, plan, owners)
    ensures IsFused(r, plan, offsets, fused)
    ensures |plan.index| == |inputs| && BuffersOf(r, inputs, plan, recons, alones)
    ensures SameRuns(inputs, recons, alones)
  {
    hide Deduplicated, IsFused, NullsServed, Rebuilt, Filled, FitsMemory, PackedParams, Agree;
    ghost var owners;
    plan, owners := Deduplicate(r, inputs);
    var buffer: array<nat>;
    buffer, offsets := PackFused(r, plan);
    fused := buffer[..];
    recons, alones := [], [];
    PlanRows(r, inputs, plan, owners);
    for i := 0 to |inputs|
      invariant BuffersUpTo(r, inputs, plan, recons, alones, i)
    {
      var recon := RebuildBody(r, inputs, plan, owners, fused, offsets, i);
      var alone := PackAlone(r, inputs[i].slots, inputs[i].params);
      recons, alones := recons + [recon[..]], alones + [alone[..]];
    }
    forall bodies: seq<PackedBody>, m: Memory, n: nat | AllReadOnly(inputs, bodies) && n <= |inputs|
      ensures RunPacked(bodies, recons, m, n) == RunPacked(bodies, alones, m, n)
    {
      PackedIsSequence(r, inputs, plan, owners, bodies, recons, alones, m, n);
    }
  }
}
