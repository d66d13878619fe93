/** The word-packed bit matrix behind the reachability closure, refined to a set of pairs. */
module BitSet2Ds {
  import opened Words

  lemma {:induction false} RowBound(i: nat, n: nat, stride: nat)
    requires i < n
    ensures 0 <= i * stride && (i + 1) * stride == i * stride + stride <= n * stride
    decreases n
  {
    RowNonNegative(i, stride);
    if i + 1 < n {
      RowBound(i, n - 1, stride);
      assert n * stride == (n - 1) * stride + stride;
    }
  }

  lemma RowFits(i: nat, n: nat, stride: nat)
    requires i < n
    ensures i * stride + stride <= n * stride
  {
    RowBound(i, n, stride);
  }

  lemma {:induction false} RowNonNegative(i: nat, stride: nat)
    ensures 0 <= i * stride
  {
    if i > 0 {
      RowNonNegative(i - 1, stride);
      assert i * stride == (i - 1) * stride + stride;
    }
  }

  /** Rows do not share words. */
  lemma RowDisjoint(a: nat, i: nat, stride: nat, c: nat)
    requires c < stride
    ensures i * stride <= a * stride + c < i * stride + stride <==> a == i
  {
    if a < i {
      RowBound(a, i, stride);
    } else if i < a {
      RowBound(i, a, stride);
    }
  }

  /** Entry `(i, j)` of a matrix stored `stride` words a row, each word given as a set of bits. */
  ghost predicate Entry(ws: seq<set<nat>>, stride: nat, i: nat, j: nat) {
    i * stride + j / BITS < |ws| && j % BITS in ws[i * stride + j / BITS]
  }

  ghost function PairsOf(ws: seq<set<nat>>, n: nat, stride: nat): set<(nat, nat)> {
    set i, j | 0 <= i < n && 0 <= j < n && Entry(ws, stride, i, j) :: (i, j)
  }

  lemma NoPairs(ws: seq<set<nat>>, n: nat, stride: nat)
    requires forall k :: 0 <= k < |ws| ==> ws[k] == {}
    ensures PairsOf(ws, n, stride) == {}
  {
  }

  lemma SetPairs(ws: seq<set<nat>>, us: seq<set<nat>>, n: nat, stride: nat, i: nat, j: nat)
    requires |ws| == n * stride && i < n && j < n && n <= stride * BITS
    requires i * stride + j / BITS < |ws|
    requires us == ws[i * stride + j / BITS := ws[i * stride + j / BITS] + {j % BITS}]
    ensures PairsOf(us, n, stride) == PairsOf(ws, n, stride) + {(i, j)}
  {
    forall a, b | 0 <= a < n && 0 <= b < n
      ensures Entry(us, stride, a, b) <==> (a, b) == (i, j) || Entry(ws, stride, a, b)
    {
      SetEntry(ws, us, n, stride, i, j, a, b);
    }
  }

  lemma SetEntry(ws: seq<set<nat>>, us: seq<set<nat>>, n: nat, stride: nat, i: nat, j: nat, a: nat, b: nat)
    requires |ws| == n * stride && i < n && j < n && a < n && b < n && n <= stride * BITS
    requires i * stride + j / BITS < |ws|
    requires us == ws[i * stride + j / BITS := ws[i * stride + j / BITS] + {j % BITS}]
    ensures Entry(us, stride, a, b) <==> (a, b) == (i, j) || Entry(ws, stride, a, b)
  {
    SameWord(stride, i, j / BITS, a, b / BITS);
    SamePosition(j, b);
    SetAtWord(ws, us, i * stride + j / BITS, a * stride + b / BITS, j % BITS, b % BITS);
  }

  lemma SamePosition(j: nat, b: nat)
    ensures j / BITS == b / BITS && j % BITS == b % BITS <==> j == b
  {
  }

  lemma SetAtWord(ws: seq<set<nat>>, us: seq<set<nat>>, k: nat, l: nat, p: nat, q: nat)
    requires k < |ws| && us == ws[k := ws[k] + {p}]
    ensures l < |us| && q in us[l] <==> l < |ws| && (q in ws[l] || (k == l && p == q))
  {
  }

  lemma SameWord(stride: nat, i: nat, p: nat, a: nat, q: nat)
    requires p < stride && q < stride
    ensures i * stride + p == a * stride + q <==> i == a && p == q
  {
    if i < a {
      RowBound(i, a, stride);
    } else if a < i {
      RowBound(a, i, stride);
    }
  }

  ghost function OrRow(n: nat, P: set<(nat, nat)>, i: nat, j: nat): set<(nat, nat)> {
    P + set b | 0 <= b < n && (j, b) in P :: (i, b)
  }

  /** `us` is `ws` with the `stride` words from `ri` on united with those from `rj` on. */
  ghost predicate RowsJoined(ws: seq<set<nat>>, us: seq<set<nat>>, stride: nat, ri: nat, rj: nat) {
    && |us| == |ws| && ri + stride <= |ws| && rj + stride <= |ws|
    && forall k {:trigger us[k]} :: 0 <= k < |ws| ==>
        us[k] == if ri <= k < ri + stride then ws[k] + ws[k - ri + rj] else ws[k]
  }

  lemma OrPairs(ws: seq<set<nat>>, us: seq<set<nat>>, n: nat, stride: nat, i: nat, j: nat)
    requires |ws| == n * stride && i < n && j < n && n <= stride * BITS
    requires RowsJoined(ws, us, stride, i * stride, j * stride)
    ensures PairsOf(us, n, stride) == OrRow(n, PairsOf(ws, n, stride), i, j)
  {
    hide RowsJoined;
    forall a, b | 0 <= a < n && 0 <= b < n
      ensures Entry(us, stride, a, b) <==> Entry(ws, stride, a, b) || (a == i && Entry(ws, stride, j, b))
    {
      WordBelow(b, n, stride);
      RowFits(a, n, stride);
      RowFits(j, n, stride);
      OrEntry(ws, us, stride, i, j, a, b);
    }
  }

  lemma WordBelow(b: nat, n: nat, stride: nat)
    requires b < n <= stride * BITS
    ensures b / BITS < stride
  {
  }

  lemma OrEntry(ws: seq<set<nat>>, us: seq<set<nat>>, stride: nat, i: nat, j: nat, a: nat, b: nat)
    requires a * stride + stride <= |ws| && j * stride + stride <= |ws| && b / BITS < stride
    requires RowsJoined(ws, us, stride, i * stride, j * stride)
    ensures Entry(us, stride, a, b) <==> Entry(ws, stride, a, b) || (a == i && Entry(ws, stride, j, b))
  {
    RowDisjoint(a, i, stride, b / BITS);
    assert |us| == |ws|;
    hide RowsJoined;
    JoinedEntry(ws, us, stride, i * stride, j * stride, a * stride, a == i, b);
  }

  lemma JoinedEntry(ws: seq<set<nat>>, us: seq<set<nat>>, stride: nat, ri: nat, rj: nat, ra: nat, same: bool, b: nat)
    requires RowsJoined(ws, us, stride, ri, rj) && b / BITS < stride && ra + stride <= |ws|
    requires same ==> ra == ri
    requires same <==> ri <= ra + b / BITS < ri + stride
    ensures b % BITS in us[ra + b / BITS] <==> b % BITS in ws[ra + b / BITS] || (same && b % BITS in ws[rj + b / BITS])
  {
    JoinedAt(ws, us, stride, ri, rj, ra + b / BITS);
  }

  lemma JoinedAt(ws: seq<set<nat>>, us: seq<set<nat>>, stride: nat, ri: nat, rj: nat, k: nat)
    requires RowsJoined(ws, us, stride, ri, rj) && k < |ws|
    ensures us[k] == if ri <= k < ri + stride then ws[k] + ws[k - ri + rj] else ws[k]
  {
  }

  lemma JoinStep(ws: seq<set<nat>>, us: seq<set<nat>>, vs: seq<set<nat>>, w: nat, ri: nat, rj: nat)
    requires RowsJoined(ws, us, w, ri, rj) && ri + w < |ws| && rj + w < |ws|
    requires ri == rj || ri + w < rj || rj + w < ri
    requires vs == us[ri + w := us[ri + w] + us[rj + w]]
    ensures RowsJoined(ws, vs, w + 1, ri, rj)
  {
    assert us[rj + w] == ws[rj + w];
  }

  class BitSet2D {
    const n: nat
    const stride: nat
    const words: array<bv64>

    ghost predicate Valid() {
      stride == (n + BITS - 1) / BITS && words.Length == n * stride
    }

    /** The abstract value: which entries are set. */
    ghost function Pairs(): set<(nat, nat)>
      requires Valid()
      reads words
    {
      PairsOf(SetsOf(words[..]), n, stride)
    }

    constructor (n: nat)
      ensures Valid() && this.n == n && fresh(words)
      ensures Pairs() == {}
    {
      var stride := (n + BITS - 1) / BITS;
      RowNonNegative(n, stride);
      this.n := n;
      this.stride := stride;
      words := new bv64[n * stride](_ => 0);
      new;
      ZeroBits();
      NoPairs(SetsOf(words[..]), n, stride);
    }

    method Store(k: nat, w: bv64)
      requires k < words.Length
      modifies words
      ensures SetsOf(words[..]) == old(SetsOf(words[..]))[k := Bits(w)]
    {
      SetsUpdate(words[..], k, w);
      words[k] := w;
      assert words[..] == old(words[..])[k := w];
    }

    method Set(i: nat, j: nat)
      requires Valid() && i < n && j < n
      modifies words
      ensures Pairs() == old(Pairs()) + {(i, j)}
    {
      RowBound(i, n, stride);
      var k := i * stride + j / BITS;
      var w := WithBit(words[k], j % BITS);
      Store(k, w);
      SetPairs(old(SetsOf(words[..])), SetsOf(words[..]), n, stride, i, j);
    }

    method Test(i: nat, j: nat) returns (b: bool)
      requires Valid() && i < n && j < n
      ensures b <==> (i, j) in Pairs()
    {
      RowBound(i, n, stride);
      var k := i * stride + j / BITS;
      b := HasBit(words[k], j % BITS);
      assert b == Entry(SetsOf(words[..]), stride, i, j);
    }

    /** Row `i` inherits row `j`. */
    method OrRows(i: nat, j: nat)
      requires Valid() && i < n && j < n
      modifies words
      ensures Pairs() == OrRow(n, old(Pairs()), i, j)
    {
      RowBound(i, n, stride);
      RowBound(j, n, stride);
      if i < j {
        RowBound(i, j, stride);
      } else if j < i {
        RowBound(j, i, stride);
      }
      OrWords(i * stride, j * stride);
      OrPairs(old(SetsOf(words[..])), SetsOf(words[..]), n, stride, i, j);
    }
  
    method OrWords(ri: nat, rj: nat)
      requires Valid() && ri + stride <= words.Length && rj + stride <= words.Length
      requires ri == rj || ri + stride <= rj || rj + stride <= ri
      modifies words
      ensures RowsJoined(old(SetsOf(words[..])), SetsOf(words[..]), stride, ri, rj)
    {
      var w := 0;
      while w < stride
        invariant 0 <= w <= stride
        invariant RowsJoined(old(SetsOf(words[..])), SetsOf(words[..]), w, ri, rj)
      {
        ghost var before := SetsOf(words[..]);
        var v := Joined(words[ri + w], words[rj + w]);
        Store(ri + w, v);
        JoinStep(old(SetsOf(words[..])), before, SetsOf(words[..]), w, ri, rj);
        w := w + 1;
      }
    }
  }
}
