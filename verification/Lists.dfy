/** The list edits the passes make on adjacency lists. */
module Lists {
  import opened Digraphs

  /** Drop the first occurrence of `x`. */
  function Erase<V(==)>(s: seq<V>, x: V): seq<V> {
    if s == [] then [] else if s[0] == x then s[1..] else [s[0]] + Erase(s[1..], x)
  }

  /** Overwrite the first occurrence of `x` with `y`. */
  function Overwrite<V(==)>(s: seq<V>, x: V, y: V): seq<V> {
    if s == [] then [] else if s[0] == x then [y] + s[1..] else [s[0]] + Overwrite(s[1..], x, y)
  }

  lemma NoDupTail<V>(s: seq<V>)
    requires NoDup(s) && s != []
    ensures NoDup(s[1..]) && s[0] !in s[1..] && Elems(s) == {s[0]} + Elems(s[1..])
  {
    forall i, j | 0 <= i < j < |s[1..]| ensures s[1..][i] != s[1..][j] {
      assert s[1..][i] == s[i + 1] && s[1..][j] == s[j + 1];
    }
    assert s == [s[0]] + s[1..];
  }

  lemma NoDupCons<V>(x: V, s: seq<V>)
    requires NoDup(s) && x !in s
    ensures NoDup([x] + s) && Elems([x] + s) == {x} + Elems(s)
  {
  }

  lemma {:induction false} EraseElems<V>(s: seq<V>, x: V)
    requires NoDup(s)
    ensures NoDup(Erase(s, x)) && Elems(Erase(s, x)) == Elems(s) - {x}
  {
    if s != [] {
      NoDupTail(s);
      EraseElems(s[1..], x);
      if s[0] == x {
        assert x !in Elems(s[1..]);
      } else {
        assert s[0] !in Elems(s[1..]) && s[0] !in Elems(Erase(s[1..], x));
        NoDupCons(s[0], Erase(s[1..], x));
      }
    }
  }

  /** Erasing at a position is erasing the element there when nothing repeats. */
  lemma {:induction false} EraseAt<V>(s: seq<V>, k: nat)
    requires NoDup(s) && k < |s|
    ensures Erase(s, s[k]) == s[..k] + s[k + 1..]
  {
    if k > 0 {
      NoDupTail(s);
      EraseAt(s[1..], k - 1);
      assert s[1..][k - 1] == s[k] && s[0] != s[k];
      assert s[1..][..k - 1] == s[1..k] && s[1..][k..] == s[k + 1..];
      assert s[..k] == [s[0]] + s[1..k];
    }
  }

  lemma {:induction false} OverwriteElems<V>(s: seq<V>, x: V, y: V)
    requires NoDup(s) && x in s && y !in s
    ensures NoDup(Overwrite(s, x, y)) && Elems(Overwrite(s, x, y)) == Elems(s) - {x} + {y}
  {
    NoDupTail(s);
    if s[0] == x {
      NoDupCons(y, s[1..]);
    } else {
      assert x in s[1..];
      OverwriteElems(s[1..], x, y);
      assert s[0] !in Elems(s[1..]);
      assert s[0] !in Elems(Overwrite(s[1..], x, y));
      NoDupCons(s[0], Overwrite(s[1..], x, y));
    }
  }

  lemma NoDupSnoc<V>(s: seq<V>, x: V)
    requires NoDup(s) && x !in s
    ensures NoDup(s + [x]) && Elems(s + [x]) == Elems(s) + {x}
  {
  }

  lemma {:induction false} NoDupSize<V>(s: seq<V>)
    requires NoDup(s)
    ensures |Elems(s)| == |s|
  {
    if s != [] {
      NoDupTail(s);
      NoDupSize(s[1..]);
      assert s[0] !in Elems(s[1..]);
    }
  }
}
