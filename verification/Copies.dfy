/** What copies mean, byte by byte, and how normalising and fusing them keeps it. */
module Copies {
  import opened CommandGraphs

  /** `size_t` and `uintptr_t` arithmetic. */
  const WORD: nat := 0x1_0000_0000_0000_0000

  function Wrap(x: int): (r: nat)
    ensures r < WORD
    ensures 0 <= x < WORD ==> r == x
  {
    x % WORD
  }

  /** The linear copy moves the byte at source address `s` to destination address `d`. */
  ghost predicate LinearMoves(c: LinearCopy, s: int, d: int) {
    c.src <= s < c.src + c.size && d - s == c.dst - c.src
  }

  /** Byte `k` of column `c` of a block copy: `n` columns of `m` elements, `srcLd` and `dstLd` elements apart. */
  ghost predicate BlockByte(b: BlockCopy, c: nat, k: nat, s: int, d: int) {
    c < b.n && k < b.m * b.elem && s == b.src + c * (b.srcLd * b.elem) + k && d == b.dst + c * (b.dstLd * b.elem) + k
  }

  ghost predicate BlockMoves(b: BlockCopy, s: int, d: int) {
    exists c: nat, k: nat :: BlockByte(b, c, k, s, d)
  }

  // ------------------------------------------------------------ normalisation

  predicate Contiguous(b: BlockCopy) {
    b.m == b.srcLd && b.m == b.dstLd
  }

  function ToLinear(b: BlockCopy): LinearCopy {
    LinearCopy(b.srcDevice, b.dstDevice, b.src, b.dst, Wrap(Wrap(b.m * b.n) * b.elem))
  }

  function ToBytes(b: BlockCopy): BlockCopy {
    b.(elem := 1, m := Wrap(b.m * b.elem), srcLd := Wrap(b.srcLd * b.elem), dstLd := Wrap(b.dstLd * b.elem))
  }

  /** What the pass makes of a command. */
  function Normalized(c: Command): Command {
    if c.Copy2D? then
      if Contiguous(c.block) then Copy1D(c.direction, ToLinear(c.block)) else Copy2D(c.direction, ToBytes(c.block))
    else c
  }

  lemma {:induction false} WrapTwice(a: nat, b: nat)
    ensures Wrap(Wrap(a) * b) == Wrap(a * b)
  {
    var q := a / WORD;
    assert a == q * WORD + Wrap(a);
    assert a * b == (q * b) * WORD + Wrap(a) * b by {
      Spread(q, WORD, Wrap(a), b);
    }
    AddMultiple(Wrap(a) * b, q * b);
  }

  lemma Spread(q: nat, w: nat, r: nat, b: nat)
    ensures (q * w + r) * b == (q * b) * w + r * b
  {
  }

  lemma {:induction false} AddMultiple(x: nat, k: nat)
    ensures Wrap(k * WORD + x) == Wrap(x)
  {
    if k > 0 {
      AddMultiple(x, k - 1);
      assert k * WORD + x == WORD + ((k - 1) * WORD + x);
    }
  }

  /** The size of the linear copy is the whole block, as far as the machine word holds it. */
  lemma LinearSize(b: BlockCopy)
    ensures ToLinear(b).size == Wrap(b.m * b.n * b.elem)
  {
    WrapTwice(b.m * b.n, b.elem);
  }

  /** Column `c`, byte `k` is byte `c * w + k` of the block. */
  lemma {:induction false} Position(n: nat, w: nat, c: nat, k: nat)
    requires c < n && k < w
    ensures c * w + k < n * w
    decreases n
  {
    if c + 1 < n {
      Position(n - 1, w, c, k);
      assert n * w == (n - 1) * w + w;
    } else {
      assert n * w == c * w + w;
    }
  }

  lemma {:induction false} Unposition(n: nat, w: nat, p: nat) returns (c: nat, k: nat)
    requires p < n * w
    ensures c < n && k < w && p == c * w + k
    decreases n
  {
    assert n != 0;
    assert n * w == (n - 1) * w + w;
    if p < (n - 1) * w {
      c, k := Unposition(n - 1, w, p);
    } else {
      c, k := n - 1, p - (n - 1) * w;
    }
  }

  /** A block without gaps is one segment. */
  lemma ContiguousMoves(b: BlockCopy, l: LinearCopy, s: int, d: int)
    requires Contiguous(b) && l.src == b.src && l.dst == b.dst && l.size == b.n * (b.m * b.elem)
    ensures LinearMoves(l, s, d) <==> BlockMoves(b, s, d)
  {
    var w := b.m * b.elem;
    if LinearMoves(l, s, d) {
      var c, k := Unposition(b.n, w, s - l.src);
      assert BlockByte(b, c, k, s, d);
    }
    if BlockMoves(b, s, d) {
      var c: nat, k: nat :| BlockByte(b, c, k, s, d);
      Position(b.n, w, c, k);
      NonNegative(c, w);
    }
  }

  lemma {:induction false} NonNegative(c: nat, w: nat)
    ensures c * w >= 0
  {
    if c > 0 {
      NonNegative(c - 1, w);
      assert c * w == (c - 1) * w + w;
    }
  }

  /** The linear form moves exactly the block's bytes if and only if their number fits a machine word. */
  lemma LinearExactly(b: BlockCopy)
    requires Contiguous(b)
    ensures (forall s, d :: LinearMoves(ToLinear(b), s, d) <==> BlockMoves(b, s, d)) <==> b.m * b.n * b.elem < WORD
  {
    var size := b.m * b.n * b.elem;
    Commute(b.m, b.n, b.elem);
    NonNegative(b.m * b.n, b.elem);
    LinearSize(b);
    var l := LinearCopy(b.srcDevice, b.dstDevice, b.src, b.dst, size);
    forall s, d ensures LinearMoves(l, s, d) <==> BlockMoves(b, s, d) {
      ContiguousMoves(b, l, s, d);
    }
    if size >= WORD {
      var e := ToLinear(b).size;
      assert LinearMoves(l, b.src + e, b.dst + e) && !LinearMoves(ToLinear(b), b.src + e, b.dst + e);
    }
  }

  lemma Commute(m: nat, n: nat, e: nat)
    ensures m * n * e == n * (m * e)
  {
  }

  lemma {:induction false} ColumnBound(c: nat, n: nat, x: nat, y: nat)
    requires c <= n && x <= y
    ensures 0 <= c * x <= n * y
    ensures n > 0 && x < y ==> c * x < n * y
  {
    NonNegative(c, x);
    NonNegative(n, y - x);
    NonNegative(n - c, x);
    assert n * y == c * x + (n - c) * x + n * (y - x);
    if n > 0 && x < y {
      Positive(n, y - x);
    }
  }

  /** When the byte form has the extents of the block. */
  predicate ExtentsFit(b: BlockCopy) {
    b.m * b.elem < WORD && (b.n == 1 || (b.srcLd * b.elem < WORD && b.dstLd * b.elem < WORD))
  }

  lemma BytesAlike(b: BlockCopy, s: int, d: int)
    requires b.n == 0 || b.m * b.elem == 0 || ExtentsFit(b)
    ensures BlockMoves(ToBytes(b), s, d) <==> BlockMoves(b, s, d)
  {
    var t := ToBytes(b);
    NonNegative(b.m, b.elem);
    NonNegative(b.srcLd, b.elem);
    NonNegative(b.dstLd, b.elem);
    forall c: nat, k: nat ensures BlockByte(t, c, k, s, d) <==> BlockByte(b, c, k, s, d) {
      if b.n == 1 && c < b.n { assert c == 0; }
    }
  }

  /** The last byte of the last column is not moved when an extent wrapped. */
  lemma LastByteLost(b: BlockCopy, c: nat, k: nat)
    requires b.n > 0 && b.m * b.elem > 0 && !ExtentsFit(b)
    ensures !BlockByte(ToBytes(b), c, k, b.src + (b.n - 1) * (b.srcLd * b.elem) + b.m * b.elem - 1,
                       b.dst + (b.n - 1) * (b.dstLd * b.elem) + b.m * b.elem - 1)
  {
    var t := ToBytes(b);
    NonNegative(b.m, b.elem);
    NonNegative(b.srcLd, b.elem);
    NonNegative(b.dstLd, b.elem);
    WrapShrinks(b.m * b.elem);
    WrapShrinks(b.srcLd * b.elem);
    WrapShrinks(b.dstLd * b.elem);
    if c < b.n {
      ColumnBound(c, b.n - 1, t.srcLd, b.srcLd * b.elem);
      ColumnBound(c, b.n - 1, t.dstLd, b.dstLd * b.elem);
      assert c * (t.srcLd * t.elem) == c * t.srcLd && c * (t.dstLd * t.elem) == c * t.dstLd;
    }
  }

  lemma WrapShrinks(x: nat)
    ensures Wrap(x) <= x && (x >= WORD ==> Wrap(x) < x)
  {
  }

  /** The byte form moves exactly the block's bytes if and only if there are none, or its extents fit a machine word. */
  lemma BytesExactly(b: BlockCopy)
    ensures (forall s, d :: BlockMoves(ToBytes(b), s, d) <==> BlockMoves(b, s, d)) <==>
            b.n == 0 || b.m * b.elem == 0 || ExtentsFit(b)
  {
    NonNegative(b.m, b.elem);
    if b.n == 0 || b.m * b.elem == 0 || ExtentsFit(b) {
      forall s, d ensures BlockMoves(ToBytes(b), s, d) <==> BlockMoves(b, s, d) {
        BytesAlike(b, s, d);
      }
    } else {
      var s, d := b.src + (b.n - 1) * (b.srcLd * b.elem) + b.m * b.elem - 1,
          b.dst + (b.n - 1) * (b.dstLd * b.elem) + b.m * b.elem - 1;
      assert BlockByte(b, b.n - 1, b.m * b.elem - 1, s, d);
      forall c: nat, k: nat ensures !BlockByte(ToBytes(b), c, k, s, d) {
        LastByteLost(b, c, k);
      }
      assert BlockMoves(b, s, d) && !BlockMoves(ToBytes(b), s, d);
    }
  }

  /** Normalising twice is normalising once, except when scaling itself closes the gaps: with an
      element size of zero, or with extents that only agree modulo the machine word. */
  lemma NormalizedOnce(c: Command)
    ensures Normalized(Normalized(c)) == Normalized(c) <==>
            !(c.Copy2D? && !Contiguous(c.block) && Contiguous(ToBytes(c.block)))
  {
    if c.Copy2D? && !Contiguous(c.block) {
      var t := ToBytes(c.block);
      assert ToBytes(t) == t;
    }
  }

  /** Two blocks that a second normalisation changes: one without bytes, and one whose scaled strides wrap
      round to its scaled width. */
  lemma NormalizedTwice(direction: CopyDirection)
    ensures var c := Copy2D(direction, BlockCopy(0, 1, 0, 2, 0, 2, 1, 1, 0)); Normalized(Normalized(c)) != Normalized(c)
    ensures var c := Copy2D(direction, BlockCopy(0, 1, 0, WORD / 2 + 1, 0, WORD / 2 + 1, 1, 1,
        2)); Normalized(Normalized(c)) != Normalized(c)
  {
    assert ToBytes(BlockCopy(0, 1, 0, WORD / 2 + 1, 0, WORD / 2 + 1, 1, 1, 2)) == BlockCopy(0, 1, 0, 2, 0, 2, 2, 1, 1);
  }

  lemma {:induction false} ScalingSeparates(a: nat, b: nat, s: nat)
    requires a < b && s > 0
    ensures a * s < b * s
  {
    assert b * s == a * s + (b - a) * s;
    Positive(b - a, s);
  }

  lemma {:induction false} Positive(d: nat, s: nat)
    requires d > 0 && s > 0
    ensures d * s > 0
  {
    if d > 1 {
      Positive(d - 1, s);
      assert d * s == (d - 1) * s + s;
    }
  }

  /** ... so for a positive element size and extents that fit, it is idempotent. */
  lemma NormalizedIdempotent(c: Command)
    requires c.Copy2D? ==> c.block.elem > 0 && c.block.m * c.block.elem < WORD
    requires c.Copy2D? ==> c.block.srcLd * c.block.elem < WORD && c.block.dstLd * c.block.elem < WORD
    ensures Normalized(Normalized(c)) == Normalized(c)
  {
    NormalizedOnce(c);
    if c.Copy2D? && !Contiguous(c.block) {
      ScaledApart(c.block);
    }
  }

  lemma ScaledApart(b: BlockCopy)
    requires b.elem > 0 && b.m * b.elem < WORD && b.srcLd * b.elem < WORD && b.dstLd * b.elem < WORD && !Contiguous(b)
    ensures !Contiguous(ToBytes(b))
  {
    NonNegative(b.m, b.elem);
    NonNegative(b.srcLd, b.elem);
    NonNegative(b.dstLd, b.elem);
    if b.m != b.srcLd {
      if b.m < b.srcLd { ScalingSeparates(b.m, b.srcLd, b.elem); }
      if b.srcLd < b.m { ScalingSeparates(b.srcLd, b.m, b.elem); }
    } else {
      if b.m < b.dstLd { ScalingSeparates(b.m, b.dstLd, b.elem); }
      if b.dstLd < b.m { ScalingSeparates(b.dstLd, b.m, b.elem); }
    }
  }

  // ------------------------------------------------------------ fusion

  /** The address arithmetic of the copy does not leave the machine word. */
  predicate InRange(c: LinearCopy) {
    c.src + c.size < WORD && c.dst + c.size < WORD
  }

  /** The test of `try_fuse` on two copies, in machine arithmetic. */
  predicate Fusable(u: LinearCopy, v: LinearCopy) {
    && u.srcDevice == v.srcDevice && u.dstDevice == v.dstDevice
    && Wrap(u.src - u.dst) == Wrap(v.src - v.dst)
    && u.src <= Wrap(v.src + v.size) && v.src <= Wrap(u.src + u.size)
  }

  function Min(a: nat, b: nat): nat { if a < b then a else b }

  function Max(a: nat, b: nat): nat { if a < b then b else a }

  /** The copy that replaces both. */
  function Fused(u: LinearCopy, v: LinearCopy): LinearCopy {
    var sb := Min(u.src, v.src);
    var se := Max(Wrap(u.src + u.size), Wrap(v.src + v.size));
    u.(src := sb, dst := Wrap(sb - Wrap(u.src - u.dst)), size := Wrap(se - sb))
  }

  /** In-range copies with the same bias, in machine arithmetic, have the same bias when they touch. */
  lemma SameBias(u: LinearCopy, v: LinearCopy)
    requires InRange(u) && InRange(v) && Fusable(u, v)
    ensures u.src - u.dst == v.src - v.dst
  {
    var a, b := u.src - u.dst, v.src - v.dst;
    assert 0 - WORD < a < WORD && 0 - WORD < b < WORD;
    assert Wrap(a) == (if a < 0 then a + WORD else a) && Wrap(b) == if b < 0 then b + WORD else b;
  }

  lemma FusedFields(u: LinearCopy, v: LinearCopy)
    requires InRange(u) && InRange(v) && Fusable(u, v)
    ensures var f := Fused(u, v);
            && f.src == Min(u.src, v.src) && f.src + f.size == Max(u.src + u.size, v.src + v.size)
            && f.src - f.dst == u.src - u.dst && InRange(f)
            && f.srcDevice == u.srcDevice && f.dstDevice == u.dstDevice
  {
    SameBias(u, v);
    var a, sb := u.src - u.dst, Min(u.src, v.src);
    assert Wrap(a) == if a < 0 then a + WORD else a;
    assert 0 <= sb - a < WORD;
    if a < 0 {
      assert sb - Wrap(a) == (sb - a) - WORD;
      assert Wrap((sb - a) - WORD) == sb - a;
    }
  }

  /** The fused copy moves exactly the bytes the two copies moved. */
  lemma FusedMoves(u: LinearCopy, v: LinearCopy, s: int, d: int)
    requires InRange(u) && InRange(v) && Fusable(u, v)
    ensures LinearMoves(Fused(u, v), s, d) <==> LinearMoves(u, s, d) || LinearMoves(v, s, d)
    ensures InRange(Fused(u, v))
  {
    FusedFields(u, v);
    SameBias(u, v);
  }

  ghost predicate DoesBoth(c: LinearCopy, u: LinearCopy, v: LinearCopy) {
    forall s, d :: LinearMoves(c, s, d) <==> LinearMoves(u, s, d) || LinearMoves(v, s, d)
  }

  /** Two copies between the same devices are fused exactly when one linear copy can do the work of both. */
  lemma FusableExactly(u: LinearCopy, v: LinearCopy)
    requires InRange(u) && InRange(v) && u.size > 0 && v.size > 0
    requires u.srcDevice == v.srcDevice && u.dstDevice == v.dstDevice
    ensures Fusable(u, v) <==>
            exists c :: DoesBoth(c, u, v)
  {
    if Fusable(u, v) {
      var c := Fused(u, v);
      forall s, d ensures LinearMoves(c, s, d) <==> LinearMoves(u, s, d) || LinearMoves(v, s, d) {
        FusedMoves(u, v, s, d);
      }
      assert DoesBoth(c, u, v);
    }
    if c :| DoesBoth(c, u, v) {
      assert LinearMoves(u, u.src, u.dst) && LinearMoves(v, v.src, v.dst);
      assert LinearMoves(c, u.src, u.dst) && LinearMoves(c, v.src, v.dst);
      var gap := if u.src <= v.src then u.src + u.size else v.src + v.size;
      assert LinearMoves(c, gap, gap + c.dst - c.src) ==>
        LinearMoves(u, gap, gap + c.dst - c.src) || LinearMoves(v, gap, gap + c.dst - c.src);
    }
  }

  /** A range that ends exactly at the top of the address space is not in range: its end wraps to 0, and the test
      misses a neighbour that one copy could move with it. */
  lemma EndsAtTop(a: DeviceId, b: DeviceId, n: nat)
    requires 0 < n < WORD / 2
    ensures var u, v := LinearCopy(a, b, WORD - 2 * n, 0, n), LinearCopy(a, b, WORD - n, n, n);
            InRange(u) && !InRange(v) && !Fusable(u, v) && exists c :: DoesBoth(c, u, v)
  {
    var u, v := LinearCopy(a, b, WORD - 2 * n, 0, n), LinearCopy(a, b, WORD - n, n, n);
    assert DoesBoth(LinearCopy(a, b, WORD - 2 * n, 0, 2 * n), u, v);
  }

  // ------------------------------------------------------------ memory

  datatype Address = Address(device: DeviceId, offset: int)

  /** Every byte of every device. */
  type Memory = Address -> int

  ghost predicate SameMemory(m: Memory, n: Memory) {
    forall k: Address :: m(k) == n(k)
  }

  /** The address a copy reads the byte at `a` from. */
  ghost function SourceOf(c: LinearCopy, a: int): Address {
    Address(c.srcDevice, a - c.dst + c.src)
  }

  ghost predicate Writes(c: LinearCopy, k: Address) {
    k.device == c.dstDevice && c.dst <= k.offset < c.dst + c.size
  }

  /** The memory after the copy. */
  ghost function Copied(c: LinearCopy, m: Memory): Memory {
    (k: Address) => if Writes(c, k) then m(SourceOf(c, k.offset)) else m(k)
  }

  /** Nothing `u` writes is read by `v`. */
  ghost predicate Apart(u: LinearCopy, v: LinearCopy) {
    u.dstDevice != v.srcDevice || u.dst + u.size <= v.src || v.src + v.size <= u.dst
  }

  /** With sources and destinations apart, one fused copy leaves the memory the two copies leave. */
  lemma FusedMemory(u: LinearCopy, v: LinearCopy, m: Memory, k: Address)
    requires InRange(u) && InRange(v) && Fusable(u, v) && Apart(u, v)
    ensures Copied(Fused(u, v), m)(k) == Copied(v, Copied(u, m))(k)
  {
    FusedFields(u, v);
    SameBias(u, v);
    assert u.srcDevice == v.srcDevice && u.dstDevice == v.dstDevice;
    assert u.src <= v.src + v.size && v.src <= u.src + u.size;
    var f, m1 := Fused(u, v), Copied(u, m);
    var at := SourceOf(v, k.offset);
    assert SourceOf(u, k.offset) == at && SourceOf(f, k.offset) == at;
    assert Writes(f, k) <==> Writes(u, k) || Writes(v, k);
    assert Writes(v, k) ==> !Writes(u, at);
    hide Fused, Fusable, Writes, SourceOf;
    assert Copied(v, m1)(k) == if Writes(v, k) then m1(at) else m1(k);
    assert m1(at) == if Writes(u, at) then m(SourceOf(u, at.offset)) else m(at);
    assert m1(k) == if Writes(u, k) then m(at) else m(k);
  }

  ghost predicate SameEffect(u: LinearCopy, v: LinearCopy) {
    forall m: Memory, k: Address :: Copied(Fused(u, v), m)(k) == Copied(v, Copied(u, m))(k)
  }

  /** The fused copy has the effect of the two exactly when none of what `u` writes is read by `v`,
      unless both copy memory onto itself. */
  lemma FusedExactly(u: LinearCopy, v: LinearCopy)
    requires InRange(u) && InRange(v) && Fusable(u, v) && u.size > 0 && v.size > 0
    ensures SameEffect(u, v) <==> Apart(u, v) || (u.src == u.dst && u.srcDevice == u.dstDevice)
  {
    FusedFields(u, v);
    SameBias(u, v);
    if Apart(u, v) {
      forall m: Memory, k: Address ensures Copied(Fused(u, v), m)(k) == Copied(v, Copied(u, m))(k) {
        FusedMemory(u, v, m, k);
      }
    } else if u.src == u.dst && u.srcDevice == u.dstDevice {
      forall m: Memory, k: Address ensures Copied(Fused(u, v), m)(k) == Copied(v, Copied(u, m))(k) {
        OntoItself(u, m, k);
        OntoItself(v, Copied(u, m), k);
        OntoItself(Fused(u, v), m, k);
      }
    } else {
      Reread(u, v);
    }
  }

  lemma OntoItself(c: LinearCopy, m: Memory, k: Address)
    requires c.src == c.dst && c.srcDevice == c.dstDevice
    ensures Copied(c, m)(k) == m(k)
  {
    if Writes(c, k) {
      assert SourceOf(c, k.offset) == k;
    }
  }

  /** A byte that `u` writes and `v` reads on: the fused copy carries the old one. */
  lemma Reread(u: LinearCopy, v: LinearCopy)
    requires InRange(u) && InRange(v) && Fusable(u, v) && u.size > 0 && v.size > 0
    requires !Apart(u, v) && !(u.src == u.dst && u.srcDevice == u.dstDevice)
    ensures !SameEffect(u, v)
  {
    FusedFields(u, v);
    SameBias(u, v);
    var a := Max(u.dst, v.src);
    var at := Address(v.srcDevice, a);
    var k := Address(v.dstDevice, a - v.src + v.dst);
    var m: Memory := x => if x == at then 1 else 0;
    assert Writes(v, k) && SourceOf(v, k.offset) == at;
    assert Writes(u, at) && SourceOf(u, at.offset) != at;
    assert Copied(v, Copied(u, m))(k) == Copied(u, m)(at) == 0;
    assert Writes(Fused(u, v), k) && SourceOf(Fused(u, v), k.offset) == at;
    assert Copied(Fused(u, v), m)(k) == 1;
  }
}
