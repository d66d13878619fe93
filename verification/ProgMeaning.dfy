/**
 * What a fused program means. Each program of the chain is an arbitrary function of its argument
 * values and of memory; the fused one reads every shared slot once, on entry.
 */
module ProgMeaning {
  import opened ProgSlots

  datatype Option<T> = None | Some(value: T)

  /** A leaf is called with the bytes of its arguments, a wrapper with its list of slots. */
  datatype Body =
    | LeafBody(leaf: (seq<seq<nat>>, Memory) -> Memory)
    | WrapperBody(wrapper: (seq<Ptr>, Memory) -> Memory)

  ghost predicate Callable(inputs: seq<Input>, bodies: seq<Body>) {
    && |bodies| == |inputs| && HasTypes(inputs)
    && forall i: nat :: i < |inputs| ==> (inputs[i].Leaf? <==> bodies[i].LeafBody?)
  }

  /** A leaf has one IR parameter per slot. */
  ghost predicate HasTypes(inputs: seq<Input>) {
    forall i: nat :: i < |inputs| && inputs[i].Leaf? ==> |inputs[i].types| == |inputs[i].slots|
  }

  // ------------------------------------------------------------ the programs one after another

  function Values(m: Memory, slots: seq<Ptr>, types: seq<IrType>): seq<seq<nat>>
    requires |types| == |slots|
  {
    seq(|slots|, j requires 0 <= j < |slots| => Load(m, slots[j], types[j].width))
  }

  function Alone(input: Input, body: Body, m: Memory): Memory
    requires input.Leaf? ==> |input.types| == |input.slots|
    requires input.Leaf? <==> body.LeafBody?
  {
    match input
    case Leaf(slots, _, _, types) => body.leaf(Values(m, slots, types), m)
    case Wrapper(slots) => body.wrapper(slots, m)
  }

  /** Memory after the first `n` programs have run, each on its own slots. */
  ghost function RunAll(inputs: seq<Input>, bodies: seq<Body>, m: Memory, n: nat): Memory
    requires Callable(inputs, bodies) && n <= |inputs|
  {
    if n == 0 then m else Alone(inputs[n - 1], bodies[n - 1], RunAll(inputs, bodies, m, n - 1))
  }

  // ------------------------------------------------------------ the fused program

  /** Every leaf slot is served from a slot of the fused program, and every slice lies inside it. */
  ghost predicate InRange(inputs: seq<Input>, plan: Plan) {
    && |plan.index| == |plan.starts| == |inputs|
    && forall i: nat :: i < |inputs| ==>
        if inputs[i].Leaf? then LeafInRange(plan, plan.index[i], |inputs[i].slots|)
        else plan.starts[i] + |inputs[i].slots| <= |plan.unique|
  }

  ghost predicate LeafInRange(plan: Plan, map': seq<nat>, n: nat) {
    |map'| == n && forall j: nat :: j < n ==> map'[j] < |plan.unique|
  }

  ghost predicate Fits(inputs: seq<Input>, plan: Plan, types: seq<Option<IrType>>) {
    InRange(inputs, plan) && |types| == |plan.unique|
  }

  /** The values read on entry. */
  function Hoisted(types: seq<Option<IrType>>, args: seq<Ptr>, m: Memory): (values: seq<seq<nat>>)
    requires |args| == |types|
    ensures |values| == |types|
  {
    seq(|types|, k requires 0 <= k < |types| => if types[k].Some? then Load(m, args[k], types[k].value.width) else [])
  }

  /** A leaf's arguments, picked from the values read on entry. */
  function Passed(map': seq<nat>, values: seq<seq<nat>>): (passed: seq<seq<nat>>)
    requires forall j: nat :: j < |map'| ==> map'[j] < |values|
    ensures |passed| == |map'| && forall j: nat :: j < |map'| ==> passed[j] == values[map'[j]]
  {
    seq(|map'|, j requires 0 <= j < |map'| => values[map'[j]])
  }

  /** What the fused program's call of input `i` does. */
  ghost function Call(inputs: seq<Input>, bodies: seq<Body>, plan: Plan, args: seq<Ptr>, values: seq<seq<nat>>,
                      m: Memory, i: nat): Memory
    requires Callable(inputs, bodies) && InRange(inputs, plan) && i < |inputs| && |args| == |values| == |plan.unique|
  {
    if inputs[i].Leaf? then
      var map' := plan.index[i];
      assert LeafInRange(plan, map', |inputs[i].slots|);
      bodies[i].leaf(Passed(map', values), m)
    else bodies[i].wrapper(args[plan.starts[i]..plan.starts[i] + |inputs[i].slots|], m)
  }

  ghost function Calls(inputs: seq<Input>, bodies: seq<Body>, plan: Plan, args: seq<Ptr>, values: seq<seq<nat>>,
                       m: Memory, n: nat): Memory
    requires Callable(inputs, bodies) && InRange(inputs, plan) && n <= |inputs| && |args| == |values| == |plan.unique|
  {
    if n == 0 then m
    else Call(inputs, bodies, plan, args, values, Calls(inputs, bodies, plan, args, values, m, n - 1), n - 1)
  }

  /** The fused program is itself a wrapper: a function of its slots and of memory. */
  ghost function Fused(inputs: seq<Input>, bodies: seq<Body>, plan: Plan, types: seq<Option<IrType>>): (seq<Ptr>,
                       Memory) -> Memory
    requires Callable(inputs, bodies) && Fits(inputs, plan, types)
  {
    (args: seq<Ptr>, m: Memory) =>
      if |args| == |types| then Calls(inputs, bodies, plan, args, Hoisted(types, args, m), m, |inputs|) else m
  }

  // ------------------------------------------------------------ one type per slot

  ghost function TypeAt(inputs: seq<Input>, p: Position): IrType
    requires HasTypes(inputs) && IsLeaf(inputs, p)
  {
    inputs[p.input].types[p.slot]
  }

  ghost function IndexAt(inputs: seq<Input>, plan: Plan, p: Position): nat
    requires InRange(inputs, plan) && IsLeaf(inputs, p)
    ensures IndexAt(inputs, plan, p) < |plan.unique|
  {
    assert LeafInRange(plan, plan.index[p.input], |inputs[p.input].slots|);
    plan.index[p.input][p.slot]
  }

  /** The types recorded for the leaf slots before `end`. */
  ghost predicate TypedBefore(inputs: seq<Input>, plan: Plan, types: seq<Option<IrType>>, end: Position)
    requires HasTypes(inputs) && Fits(inputs, plan, types)
  {
    && (forall p: Position :: IsLeaf(inputs, p) && Before(p, end) ==>
        types[IndexAt(inputs, plan, p)] == Some(TypeAt(inputs, p)))
    && (forall k: nat :: k < |types| && types[k].Some? ==>
          exists p: Position :: IsLeaf(inputs, p) && Before(p, end) && IndexAt(inputs, plan, p) == k &&
              types[k].value == TypeAt(inputs, p))
  }

  ghost predicate Typed(inputs: seq<Input>, plan: Plan, types: seq<Option<IrType>>)
    requires HasTypes(inputs) && Fits(inputs, plan, types)
  {
    TypedBefore(inputs, plan, types, Position(|inputs|, 0))
  }

  /** Leaf slots that share a slot of the fused program have the same IR type. */
  ghost predicate Consistent(inputs: seq<Input>, plan: Plan)
    requires HasTypes(inputs) && InRange(inputs, plan)
  {
    forall p: Position, q: Position ::
      IsLeaf(inputs, p) && IsLeaf(inputs, q) && IndexAt(inputs, plan, p) == IndexAt(inputs, plan, q) ==>
        TypeAt(inputs, p) == TypeAt(inputs, q)
  }

  lemma TypedMore(inputs: seq<Input>, plan: Plan, types: seq<Option<IrType>>, p: Position)
    requires HasTypes(inputs) && Fits(inputs, plan, types) && IsLeaf(inputs, p)
    requires TypedBefore(inputs, plan, types, p)
    ensures types[IndexAt(inputs, plan, p)].None? ==>
              TypedBefore(inputs, plan, types[IndexAt(inputs, plan, p) := Some(TypeAt(inputs, p))],
                  Position(p.input, p.slot + 1))
    ensures types[IndexAt(inputs, plan, p)] == Some(TypeAt(inputs, p)) ==>
              TypedBefore(inputs, plan, types, Position(p.input, p.slot + 1))
    ensures types[IndexAt(inputs, plan, p)].Some? && types[IndexAt(inputs, plan, p)].value != TypeAt(inputs, p) ==>
        !Consistent(inputs, plan)
  {
    var k, T, next := IndexAt(inputs, plan, p), TypeAt(inputs, p), Position(p.input, p.slot + 1);
    if types[k].None? {
      var more := types[k := Some(T)];
      assert Before(p, next);
      forall q: Position | IsLeaf(inputs, q) && Before(q, next)
        ensures more[IndexAt(inputs, plan, q)] == Some(TypeAt(inputs, q))
      {
        if q != p { assert Before(q, p); }
      }
      forall l: nat | l < |more| && more[l].Some?
        ensures exists q: Position ::
            IsLeaf(inputs, q) && Before(q, next) && IndexAt(inputs, plan, q) == l && more[l].value == TypeAt(inputs, q)
      {
        if l != k {
          var q: Position :| IsLeaf(inputs, q) && Before(q, p) && IndexAt(inputs, plan, q) == l &&
              types[l].value == TypeAt(inputs, q);
          assert Before(q, next);
        }
      }
    } else if types[k].value == T {
      forall q: Position | IsLeaf(inputs, q) && Before(q, next)
        ensures types[IndexAt(inputs, plan, q)] == Some(TypeAt(inputs, q))
      {
        if q != p { assert Before(q, p); }
      }
      forall l: nat | l < |types| && types[l].Some?
        ensures exists q: Position ::
            IsLeaf(inputs, q) && Before(q, next) && IndexAt(inputs, plan, q) == l && types[l].value == TypeAt(inputs, q)
      {
        var q: Position :| IsLeaf(inputs, q) && Before(q, p) && IndexAt(inputs, plan, q) == l &&
            types[l].value == TypeAt(inputs, q);
        assert Before(q, next);
      }
    }
  }

  lemma TypedNext(inputs: seq<Input>, plan: Plan, types: seq<Option<IrType>>, i: nat)
    requires HasTypes(inputs) && Fits(inputs, plan, types) && i < |inputs|
    ensures TypedBefore(inputs, plan, types, Position(i, |inputs[i].slots|)) ==>
        TypedBefore(inputs, plan, types, Position(i + 1, 0))
    ensures inputs[i].Wrapper? && TypedBefore(inputs, plan, types, Position(i, 0)) ==>
        TypedBefore(inputs, plan, types, Position(i + 1, 0))
  {
    var next := Position(i + 1, 0);
    forall p: Position | IsLeaf(inputs, p) ensures Before(p, next) <==> Before(p, Position(i, |inputs[i].slots|)) {}
    if inputs[i].Wrapper? {
      forall p: Position | IsLeaf(inputs, p) ensures Before(p, next) <==> Before(p, Position(i, 0)) {}
    }
  }

  lemma TypedIsConsistent(inputs: seq<Input>, plan: Plan, types: seq<Option<IrType>>)
    requires HasTypes(inputs) && Fits(inputs, plan, types) && Typed(inputs, plan, types)
    ensures Consistent(inputs, plan)
  {
    var end := Position(|inputs|, 0);
    forall p: Position, q: Position | IsLeaf(inputs, p) && IsLeaf(inputs, q) &&
        IndexAt(inputs, plan, p) == IndexAt(inputs, plan, q)
      ensures TypeAt(inputs, p) == TypeAt(inputs, q)
    {
      assert Before(p, end) && Before(q, end);
    }
  }

  /** The type of every shared slot, from its first use; none when a later use disagrees. */
  method SlotTypes(inputs: seq<Input>, plan: Plan) returns (result: Option<seq<Option<IrType>>>)
    requires HasTypes(inputs) && InRange(inputs, plan)
    ensures result.Some? <==> Consistent(inputs, plan)
    ensures result.Some? ==> Fits(inputs, plan, result.value) && Typed(inputs, plan, result.value)
  {
    hide Consistent, TypedBefore;
    var types := seq(|plan.unique|, k => None);
    assert TypedBefore(inputs, plan, types, Position(0, 0)) by { TypedAtFirst(inputs, plan, types); }
    for i := 0 to |inputs|
      invariant Fits(inputs, plan, types) && TypedBefore(inputs, plan, types, Position(i, 0))
    {
      if inputs[i].Leaf? {
        for j := 0 to |inputs[i].slots|
          invariant Fits(inputs, plan, types) && TypedBefore(inputs, plan, types, Position(i, j))
        {
          TypedMore(inputs, plan, types, Position(i, j));
          assert LeafInRange(plan, plan.index[i], |inputs[i].slots|);
          var idx := plan.index[i][j];
          if types[idx].None? {
            types := types[idx := Some(inputs[i].types[j])];
          } else if types[idx].value != inputs[i].types[j] {
            return None;
          }
        }
      }
      TypedNext(inputs, plan, types, i);
    }
    TypedIsConsistent(inputs, plan, types);
    result := Some(types);
  }

  lemma TypedAtFirst(inputs: seq<Input>, plan: Plan, types: seq<Option<IrType>>)
    requires HasTypes(inputs) && Fits(inputs, plan, types) && forall k: nat :: k < |types| ==> types[k].None?
    ensures TypedBefore(inputs, plan, types, Position(0, 0))
  {}

  // ------------------------------------------------------------ same key, same value

  lemma DeduplicatedInRange(r: Memory, inputs: seq<Input>, plan: Plan, owners: seq<Position>)
    requires Deduplicated(r, inputs, plan, owners)
    ensures InRange(inputs, plan)
  {
    forall i: nat | i < |inputs|
      ensures if inputs[i].Leaf? then LeafInRange(plan, plan.index[i], |inputs[i].slots|)
              else plan.starts[i] + |inputs[i].slots| <= |plan.unique|
    {
      assert Placed(r, inputs, owners, plan.index[i], plan.starts[i], i);
      if inputs[i].Leaf? {
        forall j: nat | j < |inputs[i].slots| ensures plan.index[i][j] < |plan.unique| { IndexServes(r, inputs, plan,
            owners, Position(i, j)); }
      }
    }
  }

  /** The compiler described the parameter at `p`, and it is not null. */
  ghost predicate Described(inputs: seq<Input>, p: Position) {
    IsLeaf(inputs, p) && p.slot < |inputs[p.input].params| && ParamBytes(inputs[p.input].params[p.slot]) > 0 &&
    inputs[p.input].slots[p.slot] != 0
  }

  ghost function ParamAt(inputs: seq<Input>, p: Position): Param
    requires Described(inputs, p)
  {
    inputs[p.input].params[p.slot]
  }

  /** A described parameter's key covers every byte its IR type reads. */
  ghost predicate KeysCover(inputs: seq<Input>)
    requires HasTypes(inputs)
  {
    forall p: Position :: Described(inputs, p) ==> TypeAt(inputs, p).width <= ParamBytes(ParamAt(inputs, p))
  }

  ghost function SlotAt(inputs: seq<Input>, p: Position): Ptr
    requires IsPosition(inputs, p)
  {
    inputs[p.input].slots[p.slot]
  }

  ghost function ValueAt(m: Memory, inputs: seq<Input>, p: Position): seq<nat>
    requires HasTypes(inputs) && IsLeaf(inputs, p)
  {
    Load(m, SlotAt(inputs, p), TypeAt(inputs, p).width)
  }

  lemma LoadPrefix(m: Memory, p: Ptr, q: Ptr, k: nat, n: nat)
    requires k <= n && Load(m, p, n) == Load(m, q, n)
    ensures Load(m, p, k) == Load(m, q, k)
  {
    forall i: nat | i < k ensures Load(m, p, k)[i] == Load(m, q, k)[i] {
      assert Load(m, p, n)[i] == Load(m, q, n)[i];
    }
  }

  /** Leaf slots of one IR type with equal keys hold the same value. */
  lemma EqualKeysEqualValues(r: Memory, inputs: seq<Input>, p: Position, q: Position)
    requires HasTypes(inputs) && KeysCover(inputs) && IsLeaf(inputs, p) && IsLeaf(inputs, q)
    requires KeyAt(r, inputs, p) == KeyAt(r, inputs, q) && TypeAt(inputs, p) == TypeAt(inputs, q)
    ensures ValueAt(r, inputs, p) == ValueAt(r, inputs, q)
  {
    var key, w := KeyAt(r, inputs, p), TypeAt(inputs, p).width;
    if key.CopyKey? || key.RefKey? {
      LoadPrefix(r, SlotAt(inputs, p), SlotAt(inputs, q), w, key.size);
    }
  }

  /** Zeros but for one byte. */
  function OneByte(at: Ptr): Memory {
    (a: Ptr) => if a == at then 1 else 0
  }

  /** Two parameters described alike and read as one type: equal keys mean equal values in every memory exactly
      when the described size covers what is read, or there is one slot. */
  lemma KeyCoversExactly(inputs: seq<Input>, p: Position, q: Position)
    requires HasTypes(inputs) && IsLeaf(inputs, p) && IsLeaf(inputs, q) && TypeAt(inputs, p) == TypeAt(inputs, q)
    requires Described(inputs, p) && Described(inputs, q) && ParamAt(inputs, p).kind == ParamAt(inputs, q).kind
    requires ParamBytes(ParamAt(inputs, p)) == ParamBytes(ParamAt(inputs, q))
    ensures (forall r: Memory :: KeyAt(r, inputs, p) == KeyAt(r, inputs, q) ==>
               ValueAt(r, inputs, p) == ValueAt(r, inputs, q))
       <==> (TypeAt(inputs, p).width <= ParamBytes(ParamAt(inputs, p)) || SlotAt(inputs, p) == SlotAt(inputs, q))
  {
    var s, t, k, w := SlotAt(inputs, p), SlotAt(inputs, q), ParamBytes(ParamAt(inputs, p)), TypeAt(inputs, p).width;
    if w <= k || s == t {
      forall r: Memory | KeyAt(r, inputs, p) == KeyAt(r, inputs, q)
        ensures ValueAt(r, inputs, p) == ValueAt(r, inputs, q)
      {
        if s != t { LoadPrefix(r, s, t, w, k); }
      }
    } else {
      var r := OneByte((if s < t then t else s) + k);
      assert Load(r, s, k) == Load(r, t, k) == seq(k, _ => 0);
      assert KeyAt(r, inputs, p) == KeyAt(r, inputs, q);
      assert Load(r, s, w)[k] != Load(r, t, w)[k];
      assert ValueAt(r, inputs, p) != ValueAt(r, inputs, q);
    }
  }

  // ------------------------------------------------------------ the theorem

  /** The recorded slots keep their values: no program of the chain runs on a changed argument. */
  ghost predicate Frozen(r: Memory, inputs: seq<Input>, bodies: seq<Body>, m: Memory)
    requires Callable(inputs, bodies)
  {
    forall n: nat, p: Position :: n < |inputs| && IsLeaf(inputs, p) ==>
      ValueAt(RunAll(inputs, bodies, m, n), inputs, p) == ValueAt(r, inputs, p)
  }

  /** A chain of programs with its plan, run on memory where the recorded slots keep their values. */
  ghost predicate Setting(r: Memory, inputs: seq<Input>, bodies: seq<Body>, plan: Plan, owners: seq<Position>,
                          types: seq<Option<IrType>>, m: Memory) {
    && Callable(inputs, bodies) && Deduplicated(r, inputs, plan, owners) && Fits(inputs, plan, types) &&
        Typed(inputs, plan, types)
    && KeysCover(inputs) && Frozen(r, inputs, bodies, m)
  }

  lemma HoistedAt(r: Memory, inputs: seq<Input>, bodies: seq<Body>, plan: Plan, owners: seq<Position>,
                  types: seq<Option<IrType>>, m: Memory, p: Position)
    requires Setting(r, inputs, bodies, plan, owners, types, m) && IsLeaf(inputs, p)
    ensures Hoisted(types, plan.unique, m)[IndexAt(inputs, plan, p)] == ValueAt(r, inputs, p)
  {
    var k := IndexAt(inputs, plan, p);
    IndexServes(r, inputs, plan, owners, p);
    var o := owners[k];
    OwnerIndex(r, inputs, plan, owners, k);
    TypedIsConsistent(inputs, plan, types);
    assert Before(p, Position(|inputs|, 0));
    EqualKeysEqualValues(r, inputs, p, o);
    assert ValueAt(RunAll(inputs, bodies, m, 0), inputs, o) == ValueAt(r, inputs, o);
  }

  /** A slot owned by a leaf slot serves that leaf slot. */
  lemma OwnerIndex(r: Memory, inputs: seq<Input>, plan: Plan, owners: seq<Position>, k: nat)
    requires Deduplicated(r, inputs, plan, owners) && InRange(inputs, plan) && k < |owners| && IsLeaf(inputs, owners[k])
    ensures k < |plan.unique| && IndexAt(inputs, plan, owners[k]) == k && plan.unique[k] == SlotAt(inputs, owners[k])
  {
    IndexServes(r, inputs, plan, owners, owners[k]);
    var l := IndexAt(inputs, plan, owners[k]);
    OwnersDiffer(r, inputs, owners, Position(|inputs|, 0), k, l);
  }

  /** The arguments passed to leaf `i` are the values of its own slots when its turn comes. */
  lemma PassedAreOwn(r: Memory, inputs: seq<Input>, bodies: seq<Body>, plan: Plan, owners: seq<Position>,
                     types: seq<Option<IrType>>, m: Memory, i: nat, j: nat)
    requires Setting(r, inputs, bodies, plan, owners, types, m) && i < |inputs| && inputs[i].Leaf? &&
        j < |inputs[i].slots|
    ensures |plan.index[i]| == |inputs[i].slots| && plan.index[i][j] < |types|
    ensures Hoisted(types, plan.unique, m)[plan.index[i][j]] == Values(RunAll(inputs, bodies, m, i), inputs[i].slots,
        inputs[i].types)[j]
  {
    hide Deduplicated, Typed, Frozen, KeysCover, RunAll;
    var p := Position(i, j);
    HoistedAt(r, inputs, bodies, plan, owners, types, m, p);
    FrozenAt(r, inputs, bodies, m, i, p);
    assert LeafInRange(plan, plan.index[i], |inputs[i].slots|);
  }

  lemma FrozenAt(r: Memory, inputs: seq<Input>, bodies: seq<Body>, m: Memory, n: nat, p: Position)
    requires Callable(inputs, bodies) && Frozen(r, inputs, bodies, m) && n < |inputs| && IsLeaf(inputs, p)
    ensures ValueAt(RunAll(inputs, bodies, m, n), inputs, p) == ValueAt(r, inputs, p)
  {}

  lemma CallIsAlone(r: Memory, inputs: seq<Input>, bodies: seq<Body>, plan: Plan, owners: seq<Position>,
                    types: seq<Option<IrType>>, m: Memory, i: nat)
    requires Setting(r, inputs, bodies, plan, owners, types, m) && i < |inputs|
    ensures Call(inputs, bodies, plan, plan.unique, Hoisted(types, plan.unique, m), RunAll(inputs, bodies, m, i), i)
         == Alone(inputs[i], bodies[i], RunAll(inputs, bodies, m, i))
  {
    hide Deduplicated, Typed, Frozen, KeysCover, RunAll, Hoisted, Passed;
    var now, values := RunAll(inputs, bodies, m, i), Hoisted(types, plan.unique, m);
    if inputs[i].Leaf? {
      var map', own := plan.index[i], Values(now, inputs[i].slots, inputs[i].types);
      assert LeafInRange(plan, map', |inputs[i].slots|);
      var passed := Passed(map', values);
      forall j: nat | j < |map'| ensures passed[j] == own[j] {
        PassedAreOwn(r, inputs, bodies, plan, owners, types, m, i, j);
      }
      assert passed == own;
    } else {
      SliceIs(r, inputs, plan, owners, i);
    }
  }

  lemma {:induction false} CallsAreRuns(r: Memory, inputs: seq<Input>, bodies: seq<Body>, plan: Plan,
                                        owners: seq<Position>, types: seq<Option<IrType>>, m: Memory, n: nat)
    requires Setting(r, inputs, bodies, plan, owners, types, m) && n <= |inputs|
    ensures Calls(inputs, bodies, plan, plan.unique, Hoisted(types, plan.unique, m), m, n) == RunAll(inputs, bodies, m,
        n)
  {
    if n > 0 {
      CallsAreRuns(r, inputs, bodies, plan, owners, types, m, n - 1);
      CallIsAlone(r, inputs, bodies, plan, owners, types, m, n - 1);
    }
  }

  /** The fused program on its shared slots does what the programs do one after another on their own. */
  lemma FusedIsSequence(r: Memory, inputs: seq<Input>, bodies: seq<Body>, plan: Plan, owners: seq<Position>,
                        types: seq<Option<IrType>>, m: Memory)
    requires Setting(r, inputs, bodies, plan, owners, types, m)
    ensures Fused(inputs, bodies, plan, types)(plan.unique, m) == RunAll(inputs, bodies, m, |inputs|)
  {
    CallsAreRuns(r, inputs, bodies, plan, owners, types, m, |inputs|);
  }

  /** Share the slots and type them: when that succeeds, the fused program on the shared slots does what the chain
      does, whatever its programs are, on every memory where they do not overwrite their slots. */
  method FuseChain(r: Memory, inputs: seq<Input>) returns (plan: Plan, types: Option<seq<Option<IrType>>>)
    requires HasTypes(inputs)
    ensures InRange(inputs, plan) && (types.Some? <==> Consistent(inputs, plan))
    ensures types.Some? ==> Fits(inputs, plan, types.value)
    ensures types.Some? && KeysCover(inputs) ==>
              forall bodies: seq<Body>, m: Memory :: Callable(inputs, bodies) && Frozen(r, inputs, bodies, m) ==>
                Fused(inputs, bodies, plan, types.value)(plan.unique, m) == RunAll(inputs, bodies, m, |inputs|)
  {
    hide Deduplicated, Consistent, Typed, Frozen, RunAll, Fused, KeysCover;
    ghost var owners;
    plan, owners := Deduplicate(r, inputs);
    DeduplicatedInRange(r, inputs, plan, owners);
    types := SlotTypes(inputs, plan);
    if types.Some? && KeysCover(inputs) {
      forall bodies: seq<Body>, m: Memory | Callable(inputs, bodies) && Frozen(r, inputs, bodies, m)
        ensures Fused(inputs, bodies, plan, types.value)(plan.unique, m) == RunAll(inputs, bodies, m, |inputs|)
      {
        FusedIsSequence(r, inputs, bodies, plan, owners, types.value, m);
      }
    }
  }

  // ------------------------------------------------------------ fusing again

  /** Memory after a fused prefix run as one wrapper, and then the rest, is memory after the whole chain. */
  lemma {:induction false} WrapperThenRest(first: seq<Input>, firstBodies: seq<Body>, rest: seq<Input>,
                                           restBodies: seq<Body>, wrapper: Input, fused: Body, m: Memory, n: nat)
    requires Callable(first, firstBodies) && Callable(rest, restBodies) && n <= |rest|
    requires wrapper.Wrapper? && fused.WrapperBody? && fused.wrapper(wrapper.slots, m) == RunAll(first, firstBodies, m,
        |first|)
    ensures Callable([wrapper] + rest, [fused] + restBodies) && Callable(first + rest, firstBodies + restBodies)
    ensures RunAll([wrapper] + rest, [fused] + restBodies, m, n + 1) == RunAll(first + rest, firstBodies + restBodies,
        m, |first| + n)
  {
    if n == 0 {
      RunPrefix(first, firstBodies, rest, restBodies, m, |first|);
      assert RunAll([wrapper] + rest, [fused] + restBodies, m, 0) == m;
    } else {
      WrapperThenRest(first, firstBodies, rest, restBodies, wrapper, fused, m, n - 1);
    }
  }

  lemma {:induction false} RunPrefix(first: seq<Input>, firstBodies: seq<Body>, rest: seq<Input>,
                                     restBodies: seq<Body>, m: Memory, n: nat)
    requires Callable(first, firstBodies) && Callable(rest, restBodies) && n <= |first|
    ensures Callable(first + rest, firstBodies + restBodies)
    ensures RunAll(first + rest, firstBodies + restBodies, m, n) == RunAll(first, firstBodies, m, n)
  {
    if n > 0 { RunPrefix(first, firstBodies, rest, restBodies, m, n - 1); }
  }

  /** The slots of a whole chain that keep their values keep them for its first part. */
  lemma FrozenFirst(r: Memory, first: seq<Input>, firstBodies: seq<Body>, rest: seq<Input>, restBodies: seq<Body>,
                    m: Memory)
    requires Callable(first, firstBodies) && Callable(rest, restBodies)
    requires Callable(first + rest, firstBodies + restBodies) && Frozen(r, first + rest, firstBodies + restBodies, m)
    ensures Frozen(r, first, firstBodies, m)
  {
    forall n: nat, p: Position | n < |first| && IsLeaf(first, p)
      ensures ValueAt(RunAll(first, firstBodies, m, n), first, p) == ValueAt(r, first, p)
    {
      hide RunAll, Load;
      RunPrefix(first, firstBodies, rest, restBodies, m, n);
      ValueInChain(first, rest, p, RunAll(first, firstBodies, m, n));
      ValueInChain(first, rest, p, r);
      FrozenAt(r, first + rest, firstBodies + restBodies, m, n, p);
    }
  }

  lemma ValueInChain(first: seq<Input>, rest: seq<Input>, p: Position, m: Memory)
    requires HasTypes(first) && HasTypes(first + rest) && IsLeaf(first, p)
    ensures IsLeaf(first + rest, p) && ValueAt(m, first + rest, p) == ValueAt(m, first, p)
  {}

  /** Slot `p` behind the wrapper is the same slot of the whole chain. */
  lemma ValueBehind(first: seq<Input>, rest: seq<Input>, wrapper: Input, p: Position, m: Memory)
    requires HasTypes([wrapper] + rest) && HasTypes(first + rest) && wrapper.Wrapper? && IsLeaf([wrapper] + rest, p)
    ensures p.input > 0 && IsLeaf(first + rest, Position(p.input - 1 + |first|, p.slot))
    ensures ValueAt(m, first + rest, Position(p.input - 1 + |first|, p.slot)) == ValueAt(m, [wrapper] + rest, p)
  {}

  lemma CallableBehind(rest: seq<Input>, restBodies: seq<Body>, wrapper: Input, fused: Body)
    requires Callable(rest, restBodies) && wrapper.Wrapper? && fused.WrapperBody?
    ensures Callable([wrapper] + rest, [fused] + restBodies)
  {}

  lemma FrozenBehind(r: Memory, first: seq<Input>, firstBodies: seq<Body>, rest: seq<Input>, restBodies: seq<Body>,
                     wrapper: Input, fused: Body, m: Memory)
    requires Callable(first, firstBodies) && Callable(rest, restBodies) && first != []
    requires Callable(first + rest, firstBodies + restBodies) && Frozen(r, first + rest, firstBodies + restBodies, m)
    requires wrapper.Wrapper? && fused.WrapperBody? && fused.wrapper(wrapper.slots, m) == RunAll(first, firstBodies, m,
        |first|)
    ensures Callable([wrapper] + rest, [fused] + restBodies) && Frozen(r, [wrapper] + rest, [fused] + restBodies, m)
  {
    var inputs, bodies := [wrapper] + rest, [fused] + restBodies;
    assert Callable(inputs, bodies) by { CallableBehind(rest, restBodies, wrapper, fused); }
    hide Load, RunAll, HasTypes, Callable;
    forall n: nat, p: Position | n < |inputs| && IsLeaf(inputs, p)
      ensures ValueAt(RunAll(inputs, bodies, m, n), inputs, p) == ValueAt(r, inputs, p)
    {
      FrozenBehindAt(r, first, firstBodies, rest, restBodies, wrapper, fused, m, n, p);
    }
  }

  lemma FrozenBehindAt(r: Memory, first: seq<Input>, firstBodies: seq<Body>, rest: seq<Input>, restBodies: seq<Body>,
                       wrapper: Input, fused: Body, m: Memory, n: nat, p: Position)
    requires Callable(first, firstBodies) && Callable(rest, restBodies) && first != []
    requires Callable(first + rest, firstBodies + restBodies) && Frozen(r, first + rest, firstBodies + restBodies, m)
    requires wrapper.Wrapper? && fused.WrapperBody? && fused.wrapper(wrapper.slots, m) == RunAll(first, firstBodies, m,
        |first|)
    requires Callable([wrapper] + rest, [fused] + restBodies) && n <= |rest| && IsLeaf([wrapper] + rest, p)
    ensures ValueAt(RunAll([wrapper] + rest, [fused] + restBodies, m, n), [wrapper] + rest, p) == ValueAt(r,
        [wrapper] + rest, p)
  {
    hide Load, Frozen, HasTypes;
    var q := Position(p.input - 1 + |first|, p.slot);
    var l: nat := if n == 0 then 0 else |first| + n - 1;
    if n > 0 {
      WrapperThenRest(first, firstBodies, rest, restBodies, wrapper, fused, m, n - 1);
    }
    ValueBehind(first, rest, wrapper, p, r);
    ValueBehind(first, rest, wrapper, p, RunAll(first + rest, firstBodies + restBodies, m, l));
    FrozenAt(r, first + rest, firstBodies + restBodies, m, l, q);
  }

  lemma KeysCoverParts(first: seq<Input>, rest: seq<Input>, wrapper: Input)
    requires HasTypes(first + rest) && KeysCover(first + rest) && HasTypes(first) && HasTypes(rest) && wrapper.Wrapper?
    ensures KeysCover(first) && HasTypes([wrapper] + rest) && KeysCover([wrapper] + rest)
  {
    forall p: Position | IsLeaf(first, p)
      ensures IsLeaf(first + rest, p) && TypeAt(first + rest, p) == TypeAt(first, p)
    {}
    forall p: Position | Described(first, p) ensures TypeAt(first, p).width <= ParamBytes(ParamAt(first, p)) {
      assert Described(first + rest, p);
    }
    var outer := [wrapper] + rest;
    forall p: Position | Described(outer, p) ensures TypeAt(outer, p).width <= ParamBytes(ParamAt(outer, p)) {
      var q := Position(p.input - 1 + |first|, p.slot);
      assert Described(first + rest, q) && TypeAt(first + rest, q) == TypeAt(outer, p);
    }
  }

  /**
   * Fusing a fused program with more programs means the same as fusing them all at once: the inner
   * one is given a slice with exactly its own slots.
   */
  lemma FusingAgain(r: Memory, first: seq<Input>, firstBodies: seq<Body>, rest: seq<Input>, restBodies: seq<Body>,
                    inner: Plan, innerOwners: seq<Position>, innerTypes: seq<Option<IrType>>, outer: Plan,
                    outerOwners: seq<Position>, outerTypes: seq<Option<IrType>>, flat: Plan, flatOwners: seq<Position>,
                    flatTypes: seq<Option<IrType>>, m: Memory)
    requires Callable(first, firstBodies) && Callable(rest, restBodies) && first != []
    requires Deduplicated(r, first, inner, innerOwners) && Fits(first, inner, innerTypes) &&
        Typed(first, inner, innerTypes)
    requires
      var inputs := [Wrapper(inner.unique)] + rest;
      HasTypes(inputs) && Deduplicated(r, inputs, outer, outerOwners) && Fits(inputs, outer, outerTypes) &&
          Typed(inputs, outer, outerTypes)
    requires Setting(r, first + rest, firstBodies + restBodies, flat, flatOwners, flatTypes, m)
    ensures
      var inputs, bodies := [Wrapper(inner.unique)] + rest, [WrapperBody(Fused(first, firstBodies, inner,
          innerTypes))] + restBodies;
      && Callable(inputs, bodies)
      && Fused(inputs, bodies, outer, outerTypes)(outer.unique, m)
         == Fused(first + rest, firstBodies + restBodies, flat, flatTypes)(flat.unique, m)
  {
    hide Deduplicated, Typed, Frozen, KeysCover, RunAll, Fused, Fits;
    var wrapper, fused := Wrapper(inner.unique), WrapperBody(Fused(first, firstBodies, inner, innerTypes));
    KeysCoverParts(first, rest, wrapper);
    FrozenFirst(r, first, firstBodies, rest, restBodies, m);
    FusedIsSequence(r, first, firstBodies, inner, innerOwners, innerTypes, m);
    FrozenBehind(r, first, firstBodies, rest, restBodies, wrapper, fused, m);
    WrapperThenRest(first, firstBodies, rest, restBodies, wrapper, fused, m, |rest|);
    FusedIsSequence(r, [wrapper] + rest, [fused] + restBodies, outer, outerOwners, outerTypes, m);
    FusedIsSequence(r, first + rest, firstBodies + restBodies, flat, flatOwners, flatTypes, m);
  }
}
