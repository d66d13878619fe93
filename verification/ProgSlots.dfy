/** Argument slots of a chain of programs to fuse: identity keys, and one shared slot per key. */
module ProgSlots {

  /** A machine address; null is zero. */
  type Ptr = nat

  /** The bytes of memory. */
  type Memory = Ptr -> nat

  const POINTER_BYTES: nat := 8

  /** The widest value compared by content when the compiler described no parameters. */
  const VALUE_BYTES: nat := 64

  datatype ParamKind = ByCopy | ByReference

  datatype Param = Param(kind: ParamKind, size: nat, offset: nat)

  /** An IR parameter type: its identity and its store size. */
  datatype IrType = IrType(id: nat, width: nat)

  /**
   * One program of the chain with its recorded slots, each the address of an argument's value.
   * A leaf takes one parameter per slot; a wrapper, fused before, takes the whole list of slots.
   */
  datatype Input =
    | Leaf(slots: seq<Ptr>, params: seq<Param>, valueDedup: bool, types: seq<IrType>)
    | Wrapper(slots: seq<Ptr>)

  /** What makes two leaf slots the same. */
  datatype Key =
    | CopyKey(size: nat, bytes: seq<nat>)
    | RefKey(size: nat, bytes: seq<nat>)
    | ValueKey(id: nat, bytes: seq<nat>)
    | AddressKey(address: Ptr)

  function Load(m: Memory, p: Ptr, n: nat): (bytes: seq<nat>)
    ensures |bytes| == n && forall k: nat :: k < n ==> bytes[k] == m(p + k)
  {
    seq(n, k requires 0 <= k < n => m(p + k))
  }

  function ParamBytes(p: Param): nat {
    if p.kind == ByCopy then p.size else POINTER_BYTES
  }

  function SlotSize(input: Input, j: nat): nat
    requires input.Leaf?
  {
    if j < |input.params| then ParamBytes(input.params[j]) else 0
  }

  predicate SlotIsRef(input: Input, j: nat)
    requires input.Leaf?
  {
    j < |input.params| && input.params[j].kind == ByReference
  }

  function SlotKey(m: Memory, input: Input, j: nat): Key
    requires input.Leaf? && j < |input.slots|
  {
    var s := input.slots[j];
    if s != 0 && j < |input.params| && ParamBytes(input.params[j]) > 0 then
      var n := ParamBytes(input.params[j]);
      if input.params[j].kind == ByCopy then CopyKey(n, Load(m, s, n)) else RefKey(n, Load(m, s, n))
    else if input.valueDedup && s != 0 && j < |input.types| && 0 < input.types[j].width <= VALUE_BYTES then
      ValueKey(input.types[j].id, Load(m, s, input.types[j].width))
    else AddressKey(s)
  }

  // ------------------------------------------------------------ positions

  /** Slot `slot` of input `input`. */
  datatype Position = Position(input: nat, slot: nat)

  ghost predicate Before(p: Position, q: Position) {
    p.input < q.input || (p.input == q.input && p.slot < q.slot)
  }

  ghost predicate IsPosition(inputs: seq<Input>, p: Position) {
    p.input < |inputs| && p.slot < |inputs[p.input].slots|
  }

  ghost predicate IsLeaf(inputs: seq<Input>, p: Position) {
    IsPosition(inputs, p) && inputs[p.input].Leaf?
  }

  ghost function KeyAt(m: Memory, inputs: seq<Input>, p: Position): Key
    requires IsLeaf(inputs, p)
  {
    SlotKey(m, inputs[p.input], p.slot)
  }

  /** The fused program needs a slot of its own here: a wrapper's, or the first leaf slot with its key. */
  ghost predicate IsNew(m: Memory, inputs: seq<Input>, p: Position)
    requires IsPosition(inputs, p)
  {
    inputs[p.input].Leaf? ==>
      forall q: Position :: IsLeaf(inputs, q) && Before(q, p) ==> KeyAt(m, inputs, q) != KeyAt(m, inputs, p)
  }

  // ------------------------------------------------------------ the plan

  /** The fused program's slots with their sizes, and where each input finds its own. */
  datatype Plan = Plan(unique: seq<Ptr>, sizes: seq<nat>, refs: seq<bool>, index: seq<seq<nat>>, starts: seq<nat>)

  /** `owners` lists, in order, the positions before `end` that need a slot of their own. */
  ghost predicate Enumerates(m: Memory, inputs: seq<Input>, owners: seq<Position>, end: Position) {
    && (forall k: nat :: k < |owners| ==>
        IsPosition(inputs, owners[k]) && IsNew(m, inputs, owners[k]) && Before(owners[k], end))
    && (forall k: nat, l: nat :: k < l < |owners| ==> Before(owners[k], owners[l]))
    && (forall p: Position :: IsPosition(inputs, p) && IsNew(m, inputs, p) && Before(p, end) ==> p in owners)
  }

  /** Every slot was copied from the position that owns it. */
  ghost predicate Records(inputs: seq<Input>, owners: seq<Position>, unique: seq<Ptr>, sizes: seq<nat>,
                          refs: seq<bool>) {
    && |unique| == |sizes| == |refs| == |owners|
    && forall k: nat :: k < |owners| ==>
        && IsPosition(inputs, owners[k])
        && unique[k] == inputs[owners[k].input].slots[owners[k].slot]
        && sizes[k] == (if inputs[owners[k].input].Leaf? then SlotSize(inputs[owners[k].input],
            owners[k].slot) else POINTER_BYTES)
        && refs[k] == (if inputs[owners[k].input].Leaf? then SlotIsRef(inputs[owners[k].input],
            owners[k].slot) else true)
  }

  /** Leaf slot `p` is served by slot `k`, which the first leaf slot with its key owns. */
  ghost predicate Serves(m: Memory, inputs: seq<Input>, owners: seq<Position>, k: nat, p: Position) {
    IsLeaf(inputs, p) && k < |owners| && IsLeaf(inputs, owners[k]) && KeyAt(m, inputs, owners[k]) == KeyAt(m, inputs, p)
  }

  /** A leaf's slots are found through the index map. */
  ghost predicate Maps(m: Memory, inputs: seq<Input>, owners: seq<Position>, map': seq<nat>, i: nat, n: nat) {
    |map'| == n && forall j: nat :: j < n ==> Serves(m, inputs, owners, map'[j], Position(i, j))
  }

  /** A wrapper's slots are found next to each other. */
  ghost predicate Slices(inputs: seq<Input>, owners: seq<Position>, start: nat, i: nat, n: nat) {
    start + n <= |owners| && forall j: nat :: j < n ==> owners[start + j] == Position(i, j)
  }

  ghost predicate Placed(m: Memory, inputs: seq<Input>, owners: seq<Position>, map': seq<nat>, start: nat, i: nat)
    requires i < |inputs|
  {
    if inputs[i].Leaf? then Maps(m, inputs, owners, map', i, |inputs[i].slots|)
    else Slices(inputs, owners, start, i, |inputs[i].slots|)
  }

  /** The plan has one slot per wrapper slot and per leaf key, in the order first met. */
  ghost predicate Deduplicated(m: Memory, inputs: seq<Input>, plan: Plan, owners: seq<Position>) {
    && Enumerates(m, inputs, owners, Position(|inputs|, 0))
    && Records(inputs, owners, plan.unique, plan.sizes, plan.refs)
    && |plan.index| == |plan.starts| == |inputs|
    && forall i: nat :: i < |inputs| ==> Placed(m, inputs, owners, plan.index[i], plan.starts[i], i)
  }

  // ------------------------------------------------------------ deduplication

  /** The keys met before `end`, each with the slot that serves it. */
  ghost predicate Seen(m: Memory, inputs: seq<Input>, owners: seq<Position>, seen: map<Key, nat>, end: Position) {
    && (forall key :: key in seen ==>
          seen[key] < |owners| && IsLeaf(inputs, owners[seen[key]]) && KeyAt(m, inputs, owners[seen[key]]) == key)
    && (forall p: Position :: IsLeaf(inputs, p) && Before(p, end) ==> KeyAt(m, inputs, p) in seen)
  }

  ghost predicate Met(m: Memory, inputs: seq<Input>, owners: seq<Position>, seen: map<Key, nat>, end: Position) {
    Enumerates(m, inputs, owners, end) && Seen(m, inputs, owners, seen, end)
  }

  lemma MetNewKey(m: Memory, inputs: seq<Input>, owners: seq<Position>, seen: map<Key, nat>, p: Position)
    requires Met(m, inputs, owners, seen, p) && IsLeaf(inputs, p) && KeyAt(m, inputs, p) !in seen
    ensures Met(m, inputs, owners + [p], seen[KeyAt(m, inputs, p) := |owners|], Position(p.input, p.slot + 1))
    ensures Serves(m, inputs, owners + [p], |owners|, p)
  {
    var q := Position(p.input, p.slot + 1);
    var grown := owners + [p];
    assert IsNew(m, inputs, p);
    forall o: Position | IsPosition(inputs, o) && IsNew(m, inputs, o) && Before(o, q) ensures o in grown {
      if o != p { assert Before(o, p) && o in owners; } else { assert grown[|owners|] == p; }
    }
    assert Enumerates(m, inputs, grown, q);
  }

  lemma MetOldKey(m: Memory, inputs: seq<Input>, owners: seq<Position>, seen: map<Key, nat>, p: Position)
    requires Met(m, inputs, owners, seen, p) && IsLeaf(inputs, p) && KeyAt(m, inputs, p) in seen
    ensures Met(m, inputs, owners, seen, Position(p.input, p.slot + 1))
    ensures Serves(m, inputs, owners, seen[KeyAt(m, inputs, p)], p)
  {
    var q := Position(p.input, p.slot + 1);
    var o := owners[seen[KeyAt(m, inputs, p)]];
    assert Before(o, p) && !IsNew(m, inputs, p);
    forall r: Position | IsPosition(inputs, r) && IsNew(m, inputs, r) && Before(r, q) ensures r in owners {
      assert r != p && Before(r, p);
    }
  }

  lemma MetWrapper(m: Memory, inputs: seq<Input>, owners: seq<Position>, seen: map<Key, nat>, p: Position)
    requires Met(m, inputs, owners, seen, p) && IsPosition(inputs, p) && inputs[p.input].Wrapper?
    ensures Met(m, inputs, owners + [p], seen, Position(p.input, p.slot + 1))
  {
    var q := Position(p.input, p.slot + 1);
    var grown := owners + [p];
    assert IsNew(m, inputs, p);
    forall o: Position | IsPosition(inputs, o) && IsNew(m, inputs, o) && Before(o, q) ensures o in grown {
      if o != p { assert Before(o, p) && o in owners; } else { assert grown[|owners|] == p; }
    }
    assert Enumerates(m, inputs, grown, q);
  }

  /** Past an input's last slot comes the next input. */
  lemma MetNext(m: Memory, inputs: seq<Input>, owners: seq<Position>, seen: map<Key, nat>, i: nat)
    requires i < |inputs| && Met(m, inputs, owners, seen, Position(i, |inputs[i].slots|))
    ensures Met(m, inputs, owners, seen, Position(i + 1, 0))
  {
    forall p: Position | IsPosition(inputs, p) && Before(p, Position(i + 1, 0))
      ensures Before(p, Position(i, |inputs[i].slots|))
    {}
  }

  lemma PlacedStays(m: Memory, inputs: seq<Input>, owners: seq<Position>, more: seq<Position>, map': seq<nat>,
                    start: nat, i: nat)
    requires i < |inputs| && Placed(m, inputs, owners, map', start, i) && owners <= more
    ensures Placed(m, inputs, more, map', start, i)
  {
    if inputs[i].Leaf? {
      forall j: nat | j < |inputs[i].slots| ensures Serves(m, inputs, more, map'[j], Position(i, j)) {
        assert Serves(m, inputs, owners, map'[j], Position(i, j));
      }
    }
  }

  /** A wrapper takes a block of slots, shared with nobody. */
  method PlaceWrapper(ghost m: Memory, inputs: seq<Input>, i: nat, unique: seq<Ptr>, sizes: seq<nat>, refs: seq<bool>,
                      ghost owners: seq<Position>, ghost seen: map<Key, nat>)
    returns (unique': seq<Ptr>, sizes': seq<nat>, refs': seq<bool>, ghost owners': seq<Position>)
    requires i < |inputs| && inputs[i].Wrapper?
    requires Met(m, inputs, owners, seen, Position(i, 0)) && Records(inputs, owners, unique, sizes, refs)
    ensures owners <= owners' && Met(m, inputs, owners', seen, Position(i + 1, 0)) &&
        Records(inputs, owners', unique', sizes', refs')
    ensures Slices(inputs, owners', |unique|, i, |inputs[i].slots|)
  {
    hide Met;
    unique', sizes', refs', owners' := unique, sizes, refs, owners;
    for k := 0 to |inputs[i].slots|
      invariant |owners'| == |owners| + k && owners <= owners'
      invariant Met(m, inputs, owners', seen, Position(i, k)) && Records(inputs, owners', unique', sizes', refs')
      invariant Slices(inputs, owners', |unique|, i, k)
    {
      MetWrapper(m, inputs, owners', seen, Position(i, k));
      unique' := unique' + [inputs[i].slots[k]];
      sizes' := sizes' + [POINTER_BYTES];
      refs' := refs' + [true];
      owners' := owners' + [Position(i, k)];
    }
    MetNext(m, inputs, owners', seen, i);
  }

  lemma MapsMore(m: Memory, inputs: seq<Input>, owners: seq<Position>, more: seq<Position>, map': seq<nat>, i: nat,
                 n: nat, k: nat)
    requires Maps(m, inputs, owners, map', i, n) && owners <= more && Serves(m, inputs, more, k, Position(i, n))
    ensures Maps(m, inputs, more, map' + [k], i, n + 1)
  {
    forall j: nat | j < n + 1 ensures Serves(m, inputs, more, (map' + [k])[j], Position(i, j)) {
      if j < n { assert Serves(m, inputs, owners, map'[j], Position(i, j)); }
    }
  }

  lemma RecordsLeaf(inputs: seq<Input>, owners: seq<Position>, unique: seq<Ptr>, sizes: seq<nat>, refs: seq<bool>,
                    p: Position)
    requires Records(inputs, owners, unique, sizes, refs) && IsLeaf(inputs, p)
    ensures |unique| == |owners|
    ensures Records(inputs, owners + [p], unique + [inputs[p.input].slots[p.slot]],
                    sizes + [SlotSize(inputs[p.input], p.slot)], refs + [SlotIsRef(inputs[p.input], p.slot)])
  {}

  /** A leaf's slots are looked up by key, and added when the key is new. */
  method PlaceLeaf(m: Memory, inputs: seq<Input>, i: nat, unique: seq<Ptr>, sizes: seq<nat>, refs: seq<bool>,
                   seen: map<Key, nat>, ghost owners: seq<Position>)
    returns (map': seq<nat>, unique': seq<Ptr>, sizes': seq<nat>, refs': seq<bool>, seen': map<Key, nat>,
             ghost owners': seq<Position>)
    requires i < |inputs| && inputs[i].Leaf?
    requires Met(m, inputs, owners, seen, Position(i, 0)) && Records(inputs, owners, unique, sizes, refs)
    ensures owners <= owners' && Met(m, inputs, owners', seen', Position(i + 1, 0)) &&
        Records(inputs, owners', unique', sizes', refs')
    ensures Maps(m, inputs, owners', map', i, |inputs[i].slots|)
  {
    map', unique', sizes', refs', seen', owners' := [], unique, sizes, refs, seen, owners;
    for j := 0 to |inputs[i].slots|
      invariant owners <= owners' && Met(m, inputs, owners', seen', Position(i, j)) &&
          Records(inputs, owners', unique', sizes', refs')
      invariant Maps(m, inputs, owners', map', i, j)
    {
      hide Met, Maps, Records;
      var key := SlotKey(m, inputs[i], j);
      ghost var p, before := Position(i, j), owners';
      assert IsLeaf(inputs, p) && key == KeyAt(m, inputs, p);
      var idx: nat;
      if key !in seen' {
        MetNewKey(m, inputs, owners', seen', p);
        RecordsLeaf(inputs, owners', unique', sizes', refs', p);
        idx := |unique'|;
        unique' := unique' + [inputs[i].slots[j]];
        sizes' := sizes' + [SlotSize(inputs[i], j)];
        refs' := refs' + [SlotIsRef(inputs[i], j)];
        seen' := seen'[key := idx];
        owners' := owners' + [p];
      } else {
        MetOldKey(m, inputs, owners', seen', p);
        idx := seen'[key];
      }
      MapsMore(m, inputs, before, owners', map', i, j, idx);
      map' := map' + [idx];
    }
    MetNext(m, inputs, owners', seen', i);
  }

  ghost predicate AllPlaced(m: Memory, inputs: seq<Input>, owners: seq<Position>, index: seq<seq<nat>>,
                            starts: seq<nat>) {
    && |index| == |starts| <= |inputs|
    && forall i: nat :: i < |index| ==> Placed(m, inputs, owners, index[i], starts[i], i)
  }

  lemma AllPlacedMore(m: Memory, inputs: seq<Input>, owners: seq<Position>, more: seq<Position>, index: seq<seq<nat>>,
                      starts: seq<nat>, map': seq<nat>, start: nat)
    requires AllPlaced(m, inputs, owners, index, starts) && owners <= more && |index| < |inputs|
    requires Placed(m, inputs, more, map', start, |index|)
    ensures AllPlaced(m, inputs, more, index + [map'], starts + [start])
  {
    hide Placed;
    forall i: nat | i < |index| + 1 ensures Placed(m, inputs, more, (index + [map'])[i], (starts + [start])[i], i) {
      if i < |index| { PlacedStays(m, inputs, owners, more, index[i], starts[i], i); }
    }
  }

  method Deduplicate(m: Memory, inputs: seq<Input>) returns (plan: Plan, ghost owners: seq<Position>)
    ensures Deduplicated(m, inputs, plan, owners)
  {
    var unique: seq<Ptr>, sizes: seq<nat>, refs: seq<bool> := [], [], [];
    var index: seq<seq<nat>>, starts: seq<nat> := [], [];
    var seen: map<Key, nat> := map[];
    owners := [];
    for i := 0 to |inputs|
      invariant Met(m, inputs, owners, seen, Position(i, 0)) && Records(inputs, owners, unique, sizes, refs)
      invariant |index| == i && AllPlaced(m, inputs, owners, index, starts)
    {
      hide Met, Records, AllPlaced, Maps, Slices;
      ghost var before := owners;
      var start: nat, map': seq<nat> := 0, [];
      if inputs[i].Wrapper? {
        start := |unique|;
        unique, sizes, refs, owners := PlaceWrapper(m, inputs, i, unique, sizes, refs, owners, seen);
      } else {
        map', unique, sizes, refs, seen, owners := PlaceLeaf(m, inputs, i, unique, sizes, refs, seen, owners);
      }
      AllPlacedMore(m, inputs, before, owners, index, starts, map', start);
      index, starts := index + [map'], starts + [start];
    }
    plan := Plan(unique, sizes, refs, index, starts);
  }

  // ------------------------------------------------------------ what the plan shares

  /** No two leaf slots own a slot under the same key. */
  lemma OwnersDiffer(m: Memory, inputs: seq<Input>, owners: seq<Position>, end: Position, k: nat, l: nat)
    requires Enumerates(m, inputs, owners, end) && k < |owners| && l < |owners|
    requires IsLeaf(inputs, owners[k]) && IsLeaf(inputs, owners[l])
    ensures k == l <==> KeyAt(m, inputs, owners[k]) == KeyAt(m, inputs, owners[l])
  {
    assert IsNew(m, inputs, owners[k]) && IsNew(m, inputs, owners[l]);
    assert k != l ==> Before(owners[k], owners[l]) || Before(owners[l], owners[k]);
  }

  lemma IndexServes(m: Memory, inputs: seq<Input>, plan: Plan, owners: seq<Position>, p: Position)
    requires Deduplicated(m, inputs, plan, owners) && IsLeaf(inputs, p)
    ensures |plan.index| == |inputs| && |plan.index[p.input]| == |inputs[p.input].slots|
    ensures Serves(m, inputs, owners, plan.index[p.input][p.slot], p)
  {
    assert Placed(m, inputs, owners, plan.index[p.input], plan.starts[p.input], p.input);
    assert Serves(m, inputs, owners, plan.index[p.input][p.slot], Position(p.input, p.slot));
    assert Position(p.input, p.slot) == p;
  }

  /** Two leaf slots share a slot of the fused program exactly when their keys are equal. */
  lemma SharedExactly(m: Memory, inputs: seq<Input>, plan: Plan, owners: seq<Position>, p: Position, q: Position)
    requires Deduplicated(m, inputs, plan, owners) && IsLeaf(inputs, p) && IsLeaf(inputs, q)
    ensures |plan.index| == |inputs|
    ensures |plan.index[p.input]| == |inputs[p.input].slots| && |plan.index[q.input]| == |inputs[q.input].slots|
    ensures plan.index[p.input][p.slot] == plan.index[q.input][q.slot] <==> KeyAt(m, inputs, p) == KeyAt(m, inputs, q)
  {
    IndexServes(m, inputs, plan, owners, p);
    IndexServes(m, inputs, plan, owners, q);
    var k, l := plan.index[p.input][p.slot], plan.index[q.input][q.slot];
    OwnersDiffer(m, inputs, owners, Position(|inputs|, 0), k, l);
  }

  // ------------------------------------------------------------ sharing, on the arguments themselves

  ghost predicate SameBytes(m: Memory, s: Ptr, t: Ptr, n: nat) {
    Load(m, s, n) == Load(m, t, n)
  }

  /** The compiler described the slot: a value of some bytes, or a pointer. */
  ghost predicate Described(input: Input, j: nat)
    requires input.Leaf? && j < |input.slots|
  {
    input.slots[j] != 0 && j < |input.params| && (input.params[j].kind == ByReference || input.params[j].size > 0)
  }

  /** It did not, but the type is known, and narrow enough to compare. */
  ghost predicate Valued(input: Input, j: nat)
    requires input.Leaf? && j < |input.slots|
  {
    && !Described(input, j) && input.valueDedup && input.slots[j] != 0
    && j < |input.types| && 0 < input.types[j].width <= 64
  }

  /** Two leaf slots hold one argument: described alike with equal bytes, of one type with equal bytes, or, when
      there is nothing to go by, at one address. */
  ghost predicate SameArgument(m: Memory, a: Input, j: nat, b: Input, k: nat)
    requires a.Leaf? && j < |a.slots| && b.Leaf? && k < |b.slots|
  {
    var s, t := a.slots[j], b.slots[k];
    if Described(a, j) || Described(b, k) then
      && Described(a, j) && Described(b, k) && a.params[j].kind == b.params[k].kind
      && (if a.params[j].kind == ByCopy then a.params[j].size == b.params[k].size && SameBytes(m, s, t,
          a.params[j].size)
          else SameBytes(m, s, t, 8))
    else if Valued(a, j) || Valued(b, k) then
      && Valued(a, j) && Valued(b, k) && a.types[j].id == b.types[k].id && a.types[j].width == b.types[k].width
      && SameBytes(m, s, t, a.types[j].width)
    else s == t
  }

  lemma LoadsAlike(m: Memory, s: Ptr, n: nat, t: Ptr, o: nat)
    ensures Load(m, s, n) == Load(m, t, o) <==> n == o && SameBytes(m, s, t, n)
  {
    assert |Load(m, s, n)| == n && |Load(m, t, o)| == o;
  }

  /** The size and kind kept with a shared slot are those its first user was described with: none known is 0, a
      wrapper's slot is a reference. */
  lemma SlotsDescribed(m: Memory, inputs: seq<Input>, plan: Plan, owners: seq<Position>, k: nat)
    requires Deduplicated(m, inputs, plan, owners) && k < |owners|
    ensures |plan.sizes| == |plan.refs| == |plan.unique| == |owners| && IsPosition(inputs, owners[k])
    ensures var i, j := inputs[owners[k].input], owners[k].slot;
            && plan.unique[k] == i.slots[j]
            && (i.Wrapper? ==> plan.sizes[k] == 8 && plan.refs[k])
            && (i.Leaf? && j >= |i.params| ==> plan.sizes[k] == 0 && !plan.refs[k])
            && (i.Leaf? && j < |i.params| && i.params[j].kind == ByReference ==> plan.sizes[k] == 8 && plan.refs[k])
            && (i.Leaf? && j < |i.params| && i.params[j].kind == ByCopy ==>
                  plan.sizes[k] == i.params[j].size && !plan.refs[k])
  {
    hide Enumerates, Placed;
  }

  /** The keys tell apart exactly what the arguments do. */
  lemma KeysAlike(m: Memory, a: Input, j: nat, b: Input, k: nat)
    requires a.Leaf? && j < |a.slots| && b.Leaf? && k < |b.slots|
    ensures SlotKey(m, a, j) == SlotKey(m, b, k) <==> SameArgument(m, a, j, b, k)
  {
    hide SameBytes, Load;
    if Described(a, j) && Described(b, k) {
      LoadsAlike(m, a.slots[j], ParamBytes(a.params[j]), b.slots[k], ParamBytes(b.params[k]));
    } else if Valued(a, j) && Valued(b, k) {
      LoadsAlike(m, a.slots[j], a.types[j].width, b.slots[k], b.types[k].width);
    }
  }

  /** Two leaf slots share a slot of the fused program exactly when they hold one argument. */
  lemma SharedArguments(m: Memory, inputs: seq<Input>, plan: Plan, owners: seq<Position>, p: Position, q: Position)
    requires Deduplicated(m, inputs, plan, owners) && IsLeaf(inputs, p) && IsLeaf(inputs, q)
    ensures |plan.index| == |inputs|
    ensures |plan.index[p.input]| == |inputs[p.input].slots| && |plan.index[q.input]| == |inputs[q.input].slots|
    ensures plan.index[p.input][p.slot] == plan.index[q.input][q.slot] <==>
            SameArgument(m, inputs[p.input], p.slot, inputs[q.input], q.slot)
  {
    SharedExactly(m, inputs, plan, owners, p, q);
    KeysAlike(m, inputs[p.input], p.slot, inputs[q.input], q.slot);
  }

  /** Slots without descriptor whose types differ are kept apart, unless the types are empty or too wide and the
      slots have one address. */
  lemma TypesApart(m: Memory, inputs: seq<Input>, plan: Plan, owners: seq<Position>, p: Position, q: Position)
    requires Deduplicated(m, inputs, plan, owners) && IsLeaf(inputs, p) && IsLeaf(inputs, q)
    requires var a, b := inputs[p.input], inputs[q.input];
             && a.valueDedup && b.valueDedup && a.slots[p.slot] != 0 && b.slots[q.slot] != 0
             && |a.params| <= p.slot < |a.types| && |b.params| <= q.slot < |b.types|
             && a.types[p.slot].id != b.types[q.slot].id
    ensures |plan.index| == |inputs|
    ensures |plan.index[p.input]| == |inputs[p.input].slots| && |plan.index[q.input]| == |inputs[q.input].slots|
    ensures plan.index[p.input][p.slot] == plan.index[q.input][q.slot] ==>
              var s, t := inputs[p.input].types[p.slot], inputs[q.input].types[q.slot];
              && inputs[p.input].slots[p.slot] == inputs[q.input].slots[q.slot]
              && (s.width == 0 || s.width > 64) && (t.width == 0 || t.width > 64)
  {
    SharedArguments(m, inputs, plan, owners, p, q);
  }

  /** A wrapper's slice is its own slots in order, and no leaf is served from it. */
  lemma SliceIsItsOwn(m: Memory, inputs: seq<Input>, plan: Plan, owners: seq<Position>, i: nat, p: Position)
    requires Deduplicated(m, inputs, plan, owners) && i < |inputs| && inputs[i].Wrapper? && IsLeaf(inputs, p)
    ensures |plan.index| == |plan.starts| == |inputs| && |plan.index[p.input]| == |inputs[p.input].slots|
    ensures plan.starts[i] + |inputs[i].slots| <= |plan.unique|
    ensures plan.unique[plan.starts[i]..plan.starts[i] + |inputs[i].slots|] == inputs[i].slots
    ensures !(plan.starts[i] <= plan.index[p.input][p.slot] < plan.starts[i] + |inputs[i].slots|)
  {
    SliceIs(m, inputs, plan, owners, i);
    IndexServes(m, inputs, plan, owners, p);
    var k := plan.index[p.input][p.slot];
    SliceApart(m, inputs, owners, plan.starts[i], i, |inputs[i].slots|, k, p) by {
      assert Placed(m, inputs, owners, plan.index[i], plan.starts[i], i);
    }
  }

  lemma SliceApart(m: Memory, inputs: seq<Input>, owners: seq<Position>, start: nat, i: nat, n: nat, k: nat,
                   p: Position)
    requires i < |inputs| && inputs[i].Wrapper? && Slices(inputs, owners, start, i, n) &&
        Serves(m, inputs, owners, k, p)
    ensures !(start <= k < start + n)
  {
    SliceOwner(inputs, owners, start, i, n, k);
  }

  lemma SliceOwner(inputs: seq<Input>, owners: seq<Position>, start: nat, i: nat, n: nat, k: nat)
    requires Slices(inputs, owners, start, i, n)
    ensures start <= k < start + n ==> owners[k].input == i
  {
    if start <= k < start + n {
      var j: nat := k - start;
      assert owners[start + j] == Position(i, j);
    }
  }

  lemma SliceIs(m: Memory, inputs: seq<Input>, plan: Plan, owners: seq<Position>, i: nat)
    requires Deduplicated(m, inputs, plan, owners) && i < |inputs| && inputs[i].Wrapper?
    ensures |plan.starts| == |inputs| && plan.starts[i] + |inputs[i].slots| <= |plan.unique|
    ensures plan.unique[plan.starts[i]..plan.starts[i] + |inputs[i].slots|] == inputs[i].slots
  {
    assert Placed(m, inputs, owners, plan.index[i], plan.starts[i], i);
    var start, n := plan.starts[i], |inputs[i].slots|;
    forall j: nat | j < n ensures plan.unique[start..start + n][j] == inputs[i].slots[j] {
      assert owners[start + j] == Position(i, j);
    }
  }
}
