/** The packed argument buffer of a fused program: where every shared slot goes. */
module ProgLayout {

  // ------------------------------------------------------------ machine words, bit by bit

  const WORD_BITS: nat := 64

  function Pow2(k: nat): (p: nat)
    ensures p > 0
  {
    if k == 0 then 1 else 2 * Pow2(k - 1)
  }

  /** The low `w` bits of `x & y`. */
  function And(x: nat, y: nat, w: nat): nat {
    if w == 0 then 0 else 2 * And(x / 2, y / 2, w - 1) + if x % 2 == 1 && y % 2 == 1 then 1 else 0
  }

  /** The low `w` bits of `~x`. */
  function Not(x: nat, w: nat): nat {
    if w == 0 then 0 else 2 * Not(x / 2, w - 1) + (1 - x % 2)
  }

  /** A mask of ones keeps the whole word. */
  lemma {:induction false} AndOnes(x: nat, w: nat)
    requires x < Pow2(w)
    ensures And(x, Not(0, w), w) == x
  {
    if w > 0 {
      assert Not(0, w) == 2 * Not(0, w - 1) + 1;
      AndOnes(x / 2, w - 1);
    }
  }

  /** Masking off the low `k` bits rounds down to a multiple of `2^k`. */
  lemma {:induction false} MaskRounds(x: nat, k: nat, w: nat)
    requires k <= w && x < Pow2(w)
    ensures And(x, Not(Pow2(k) - 1, w), w) == x / Pow2(k) * Pow2(k)
  {
    if k == 0 {
      AndOnes(x, w);
    } else {
      var q := Pow2(k - 1);
      assert x / 2 < Pow2(w - 1) && Pow2(k) == 2 * q;
      hide *;
      MaskRounds(x / 2, k - 1, w - 1);
      AndEven(x, q, w);
      TwiceRounded(x, q);
    }
  }

  /** The lowest bit of the mask is off. */
  lemma AndEven(x: nat, q: nat, w: nat)
    requires q > 0 && w > 0
    ensures And(x, Not(2 * q - 1, w), w) == 2 * And(x / 2, Not(q - 1, w - 1), w - 1)
  {
    assert (2 * q - 1) / 2 == q - 1 && (2 * q - 1) % 2 == 1;
    var y := Not(q - 1, w - 1);
    assert Not(2 * q - 1, w) == 2 * y;
  }

  lemma TwiceRounded(x: nat, q: nat)
    requires q > 0
    ensures 2 * (x / 2 / q * q) == x / (2 * q) * (2 * q)
  {
    HalfThenRest(x, q);
    Reorder(x / (2 * q), q);
  }

  lemma Reorder(d: nat, q: nat)
    ensures 2 * (d * q) == d * (2 * q)
  {
  }

  lemma HalfThenRest(x: nat, q: nat)
    requires q > 0
    ensures x / 2 / q == x / (2 * q)
  {
    var a, r := x / 2, x % 2;
    var d, t := a / q, a % q;
    assert x == 2 * (d * q + t) + r;
    assert x == d * (2 * q) + (2 * t + r) && 2 * t + r < 2 * q;
    QuotientIs(x, 2 * q, d, 2 * t + r);
  }

  lemma QuotientIs(x: nat, n: nat, d: nat, t: nat)
    requires n > 0 && x == d * n + t && t < n
    ensures x / n == d
  {
    assert (x / n - d) * n == t - x % n;
    SmallMultiple(if x / n >= d then x / n - d else d - x / n, n);
  }

  lemma SmallMultiple(d: int, al: int)
    requires 0 <= d * al < al
    ensures d == 0
  {
    assert d > 0 ==> d * al >= al;
    assert d < 0 ==> d * al <= -al;
  }

  /** The rounding of the offset loop, on machine words. */
  function AlignUp(x: nat, al: nat): nat
    requires al > 0
  {
    And((x + al - 1) % Pow2(WORD_BITS), Not(al - 1, WORD_BITS), WORD_BITS)
  }

  predicate Aligned(x: nat, al: nat)
    requires al > 0
  {
    x % al == 0
  }

  /** The first multiple of `al` at or after `x`. */
  function RoundUp(x: nat, al: nat): (r: nat)
    requires al > 0
    ensures Aligned(r, al) && x <= r < x + al
  {
    var r := (x + al - 1) / al * al;
    MultipleRemainder((x + al - 1) / al, al);
    r
  }

  lemma MultipleRemainder(q: nat, al: nat)
    requires al > 0
    ensures (q * al) % al == 0
  {
    var d, r := (q * al) / al, (q * al) % al;
    assert (q - d) * al == r;
    SmallMultiple(q - d, al);
  }

  /** For a power of two the bit trick is rounding up, as long as the sum fits a word. */
  lemma AlignUpRounds(x: nat, k: nat)
    requires k < WORD_BITS && x + Pow2(k) - 1 < Pow2(WORD_BITS)
    ensures AlignUp(x, Pow2(k)) == RoundUp(x, Pow2(k))
  {
    hide *;
    var s := x + Pow2(k) - 1;
    SmallRemainder(s, Pow2(WORD_BITS));
    MaskRounds(s, k, WORD_BITS);
    RoundUpIs(x, Pow2(k));
    AlignUpIs(x, Pow2(k));
  }

  lemma SmallRemainder(x: nat, n: nat)
    requires x < n
    ensures x % n == x
  {
  }

  lemma RoundUpIs(x: nat, al: nat)
    requires al > 0
    ensures RoundUp(x, al) == (x + al - 1) / al * al
  {
  }

  lemma AlignUpIs(x: nat, al: nat)
    requires al > 0
    ensures AlignUp(x, al) == And((x + al - 1) % Pow2(WORD_BITS), Not(al - 1, WORD_BITS), WORD_BITS)
  {
  }

  // ------------------------------------------------------------ offsets

  /** Slots in order, each aligned, none overlapping the one before. */
  ghost predicate Laid(sizes: seq<nat>, aligns: seq<nat>, offsets: seq<nat>) {
    && |sizes| == |aligns| == |offsets|
    && (forall k: nat :: k < |sizes| ==> aligns[k] > 0 && Aligned(offsets[k], aligns[k]))
    && (forall k: nat, l: nat :: k < l < |sizes| ==> offsets[k] + sizes[k] <= offsets[l])
  }

  /** Where slot `k` ends. */
  function End(sizes: seq<nat>, offsets: seq<nat>, k: nat): nat
    requires k <= |sizes| == |offsets|
  {
    if k == 0 then 0 else offsets[k - 1] + sizes[k - 1]
  }

  /** No slot leaves room for its alignment before it. */
  ghost predicate Tight(sizes: seq<nat>, aligns: seq<nat>, offsets: seq<nat>) {
    |sizes| == |aligns| == |offsets| && forall k: nat :: k < |sizes| ==>
        End(sizes, offsets, k) <= offsets[k] < End(sizes, offsets, k) + aligns[k]
  }

  /** Laid out tightly, ending at `end`. */
  ghost predicate Packed(sizes: seq<nat>, aligns: seq<nat>, offsets: seq<nat>, end: nat) {
    && Laid(sizes, aligns, offsets) && Tight(sizes, aligns, offsets) && end == End(sizes, offsets, |sizes|)
    && forall k: nat :: k < |sizes| ==> offsets[k] + sizes[k] <= end
  }

  lemma PackedMore(sizes: seq<nat>, aligns: seq<nat>, offsets: seq<nat>, end: nat, size: nat, al: nat, at: nat)
    requires Packed(sizes, aligns, offsets, end) && al > 0 && Aligned(at, al) && end <= at < end + al
    ensures Packed(sizes + [size], aligns + [al], offsets + [at], at + size)
  {
    hide Laid, Tight, End;
    LaidMore(sizes, aligns, offsets, end, size, al, at);
    TightMore(sizes, aligns, offsets, size, al, at);
  }

  lemma LaidMore(sizes: seq<nat>, aligns: seq<nat>, offsets: seq<nat>, end: nat, size: nat, al: nat, at: nat)
    requires Laid(sizes, aligns, offsets) && al > 0 && Aligned(at, al) && end <= at
    requires forall k: nat :: k < |sizes| ==> offsets[k] + sizes[k] <= end
    ensures Laid(sizes + [size], aligns + [al], offsets + [at])
  {
    hide Aligned;
  }

  lemma TightMore(sizes: seq<nat>, aligns: seq<nat>, offsets: seq<nat>, size: nat, al: nat, at: nat)
    requires Tight(sizes, aligns, offsets) && End(sizes, offsets, |sizes|) <= at < End(sizes, offsets, |sizes|) + al
    ensures Tight(sizes + [size], aligns + [al], offsets + [at])
    ensures End(sizes + [size], offsets + [at], |sizes| + 1) == at + size
  {
    forall k: nat | k < |sizes| + 1 ensures End(sizes + [size], offsets + [at], k) == End(sizes, offsets, k) {}
  }

  /** An alignment the compiler uses. */
  ghost predicate IsAlignment(al: nat) {
    exists k: nat :: k < WORD_BITS && al == Pow2(k)
  }

  /** An upper bound of what the slots from `k` on take. */
  ghost function Room(sizes: seq<nat>, aligns: seq<nat>, k: nat): nat
    requires k <= |sizes| == |aligns|
    decreases |sizes| - k
  {
    if k == |sizes| then 0 else sizes[k] + aligns[k] + Room(sizes, aligns, k + 1)
  }

  /** The alignments are powers of two and the slots fit the address space. */
  ghost predicate Layable(sizes: seq<nat>, aligns: seq<nat>) {
    && |sizes| == |aligns| && (forall k: nat :: k < |aligns| ==> IsAlignment(aligns[k]))
    && Room(sizes, aligns, 0) < Pow2(WORD_BITS)
  }

  /** One step of the loop: the next aligned offset. */
  lemma NextOffset(sizes: seq<nat>, aligns: seq<nat>, k: nat, total: nat)
    requires Layable(sizes, aligns) && k < |sizes| && total + Room(sizes, aligns, k) < Pow2(WORD_BITS)
    ensures aligns[k] > 0
    ensures
      var at := AlignUp(total, aligns[k]);
      && Aligned(at, aligns[k]) && total <= at < total + aligns[k]
      && at + sizes[k] + Room(sizes, aligns, k + 1) < Pow2(WORD_BITS)
  {
    hide AlignUp, Aligned, Pow2;
    assert IsAlignment(aligns[k]);
    var e: nat :| e < WORD_BITS && aligns[k] == Pow2(e);
    AlignUpRounds(total, e);
  }

  method Layout(sizes: seq<nat>, aligns: seq<nat>) returns (offsets: seq<nat>, total: nat)
    requires Layable(sizes, aligns)
    ensures Laid(sizes, aligns, offsets) && Tight(sizes, aligns, offsets)
    ensures total == if End(sizes, offsets, |sizes|) == 0 then 1 else End(sizes, offsets, |sizes|)
    ensures forall k: nat :: k < |sizes| ==> offsets[k] + sizes[k] <= total
  {
    hide *;
    LayableStart(sizes, aligns);
    offsets, total := [], 0;
    assert Packed([], [], offsets, total) by { PackedNothing(); }
    assert sizes[..0] == [] && aligns[..0] == [];
    for k := 0 to |sizes|
      invariant Packed(sizes[..k], aligns[..k], offsets, total) && total + Room(sizes, aligns, k) < Pow2(WORD_BITS)
    {
      NextOffset(sizes, aligns, k, total);
      var at := AlignUp(total, aligns[k]);
      PackedMore(sizes[..k], aligns[..k], offsets, total, sizes[k], aligns[k], at);
      assert sizes[..k + 1] == sizes[..k] + [sizes[k]] && aligns[..k + 1] == aligns[..k] + [aligns[k]];
      offsets := offsets + [at];
      total := at + sizes[k];
    }
    assert sizes[..|sizes|] == sizes && aligns[..|sizes|] == aligns;
    PackedIsLaid(sizes, aligns, offsets, total);
    if total == 0 { total := 1; }
  }

  lemma LayableStart(sizes: seq<nat>, aligns: seq<nat>)
    requires Layable(sizes, aligns)
    ensures |sizes| == |aligns| && Room(sizes, aligns, 0) < Pow2(WORD_BITS)
  {}

  lemma PackedNothing()
    ensures Packed([], [], [], 0)
  {}

  lemma PackedIsLaid(sizes: seq<nat>, aligns: seq<nat>, offsets: seq<nat>, end: nat)
    requires Packed(sizes, aligns, offsets, end)
    ensures Laid(sizes, aligns, offsets) && Tight(sizes, aligns, offsets) && |offsets| == |sizes| &&
        end == End(sizes, offsets, |sizes|)
    ensures forall k: nat :: k < |sizes| ==> offsets[k] + sizes[k] <= end
  {}

  /** No aligned, ordered layout places any slot earlier. */
  lemma {:induction false} LayoutIsLeast(sizes: seq<nat>, aligns: seq<nat>, offsets: seq<nat>, others: seq<nat>, k: nat)
    requires Laid(sizes, aligns, offsets) && Tight(sizes, aligns, offsets) && Laid(sizes, aligns, others) && k < |sizes|
    ensures offsets[k] <= others[k]
  {
    hide Aligned;
    if k > 0 {
      LayoutIsLeast(sizes, aligns, offsets, others, k - 1);
      assert others[k - 1] + sizes[k - 1] <= others[k];
    }
    MultiplesApart(others[k], offsets[k], aligns[k]);
  }

  /** Distinct multiples of `al` are at least `al` apart. */
  lemma MultiplesApart(x: nat, y: nat, al: nat)
    requires al > 0 && Aligned(x, al) && Aligned(y, al)
    ensures x < y ==> x + al <= y
  {
    var a, b := x / al, y / al;
    assert x == a * al && y == b * al;
    assert (b - a) * al == y - x;
    if x < y < x + al { SmallMultiple(b - a, al); }
  }
}
