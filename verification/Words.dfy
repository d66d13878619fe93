/** 64-bit words as sets of bit positions. */
module Words {

  const BITS: nat := 64

  predicate TestAt(w: bv64, b: bv64)
    requires b < 64
  {
    (w >> b) & 1 == 1
  }

  lemma SetAt(w: bv64, a: bv64, b: bv64)
    requires a < 64 && b < 64
    ensures TestAt(w | (1 << a), b) <==> a == b || TestAt(w, b)
  {
  }

  lemma OrAt(v: bv64, w: bv64, b: bv64)
    requires b < 64
    ensures TestAt(v | w, b) <==> TestAt(v, b) || TestAt(w, b)
  {
  }

  lemma ZeroAt(b: bv64)
    requires b < 64
    ensures !TestAt(0, b)
  {
  }

  /** The positions a word marks. */
  ghost function Marks(w: bv64): iset<bv64> {
    iset b: bv64 | b < 64 && TestAt(w, b)
  }

  function Limit(n: nat): bv64
    requires n <= 6
  {
    if n == 0 then 1 else 2 * Limit(n - 1)
  }

  /** The number `k < 2^n` as a machine word, built from its `n` binary digits. */
  function Digits(k: nat, n: nat): (b: bv64)
    requires n <= 6
  {
    if n == 0 then 0 else 2 * Digits(k / 2, n - 1) + (if k % 2 == 1 then 1 else 0)
  }

  lemma {:induction false} LimitBound(n: nat)
    requires n <= 6
    ensures 1 <= Limit(n) && (n <= 5 ==> Limit(n) <= 32) && Limit(n) <= 64
  {
    assert Limit(0) == 1;
    assert n >= 1 ==> Limit(1) == 2;
    assert n >= 2 ==> Limit(2) == 4;
    assert n >= 3 ==> Limit(3) == 8;
    assert n >= 4 ==> Limit(4) == 16;
    assert n >= 5 ==> Limit(5) == 32;
    assert n >= 6 ==> Limit(6) == 64;
  }

  lemma DoubleLess(b: bv64, l: bv64, c: bv64)
    requires b < l <= 32 && c <= 1
    ensures 2 * b + c < 2 * l
  {}

  lemma DoubleInjective(b: bv64, c: bv64, b': bv64, c': bv64)
    requires b < 64 && b' < 64 && c <= 1 && c' <= 1
    requires 2 * b + c == 2 * b' + c'
    ensures b == b' && c == c'
  {}

  lemma {:induction false} DigitsBound(k: nat, n: nat)
    requires n <= 6
    ensures Digits(k, n) < Limit(n) <= 64
  {
    LimitBound(n);
    if n > 0 {
      LimitBound(n - 1);
      DigitsBound(k / 2, n - 1);
      DoubleLess(Digits(k / 2, n - 1), Limit(n - 1), if k % 2 == 1 then 1 else 0);
    }
  }

  ghost function Pow(n: nat): nat { if n == 0 then 1 else 2 * Pow(n - 1) }

  lemma {:induction false} DigitsInjective(k: nat, l: nat, n: nat)
    requires n <= 6 && k < Pow(n) && l < Pow(n)
    requires Digits(k, n) == Digits(l, n)
    ensures k == l
  {
    if n > 0 {
      DigitsBound(k / 2, n - 1);
      DigitsBound(l / 2, n - 1);
      DoubleInjective(Digits(k / 2, n - 1), if k % 2 == 1 then 1 else 0, Digits(l / 2, n - 1),
          if l % 2 == 1 then 1 else 0);
      DigitsInjective(k / 2, l / 2, n - 1);
    }
  }

  /** The shift amount for position `k`. */
  function Shift(k: nat): (b: bv64)
    requires k < 64
    ensures b < 64
  {
    DigitsBound(k, 6);
    Digits(k, 6)
  }

  lemma ShiftInjective(k: nat, l: nat)
    requires k < 64 && l < 64 && Shift(k) == Shift(l)
    ensures k == l
  {
    assert Pow(1) == 2 && Pow(3) == 8 && Pow(5) == 32;
    DigitsInjective(k, l, 6);
  }

  ghost function Bits(w: bv64): set<nat> {
    set k | 0 <= k < 64 && Shift(k) in Marks(w)
  }

  lemma SetMarks(w: bv64, a: bv64)
    requires a < 64
    ensures Marks(w | (1 << a)) == Marks(w) + iset{a}
  {
    forall b: bv64 | b < 64 ensures TestAt(w | (1 << a), b) <==> a == b || TestAt(w, b) {
      SetAt(w, a, b);
    }
  }

  lemma OrMarks(v: bv64, w: bv64)
    ensures Marks(v | w) == Marks(v) + Marks(w)
  {
    forall b: bv64 | b < 64 ensures TestAt(v | w, b) <==> TestAt(v, b) || TestAt(w, b) {
      OrAt(v, w, b);
    }
  }

  method WithBit(w: bv64, a: nat) returns (v: bv64)
    requires a < 64
    ensures Bits(v) == Bits(w) + {a}
  {
    var b := Shift(a);
    SetMarks(w, b);
    v := w | (1 << b);
    MarksGrow(w, v, a);
  }

  lemma MarksGrow(w: bv64, v: bv64, a: nat)
    requires a < 64 && Marks(v) == Marks(w) + iset{Shift(a)}
    ensures Bits(v) == Bits(w) + {a}
  {
    forall k | 0 <= k < 64 ensures Shift(k) == Shift(a) <==> k == a {
      if Shift(k) == Shift(a) {
        ShiftInjective(k, a);
      }
    }
  }

  method Joined(v: bv64, w: bv64) returns (u: bv64)
    ensures Bits(u) == Bits(v) + Bits(w)
  {
    OrMarks(v, w);
    u := v | w;
  }

  method HasBit(w: bv64, k: nat) returns (b: bool)
    requires k < 64
    ensures b <==> k in Bits(w)
  {
    b := TestAt(w, Shift(k));
    assert b == (Shift(k) in Marks(w));
  }

  lemma ZeroBits()
    ensures Bits(0) == {}
  {
    forall b: bv64 | b < 64 ensures !TestAt(0, b) {
      ZeroAt(b);
    }
    assert Marks(0) == iset{};
  }

  ghost function SetsOf(ws: seq<bv64>): (s: seq<set<nat>>)
    ensures |s| == |ws| && forall k :: 0 <= k < |s| ==> s[k] == Bits(ws[k])
  {
    seq(|ws|, k requires 0 <= k < |ws| => Bits(ws[k]))
  }

  lemma SetsUpdate(ws: seq<bv64>, k: nat, v: bv64)
    requires k < |ws|
    ensures SetsOf(ws[k := v]) == SetsOf(ws)[k := Bits(v)]
  {
  }
}
