/** A graph seen through the numbers of its nodes. */
module Numberings {
  import opened Digraphs
  import opened Quotients

  /** The number of a node: its position in the list. */
  ghost function Number<V>(s: seq<V>): V -> nat {
    (x: V) => if x in s then IndexOf(s, x) else |s|
  }

  /** The class of a node whose number has class `cls[..]`. */
  ghost function ClassOf<V>(s: seq<V>, cls: seq<nat>): V -> nat {
    (x: V) => Group(cls)(Number(s)(x))
  }

  lemma NumberAt<V>(s: seq<V>, i: nat)
    requires NoDup(s) && i < |s|
    ensures Number(s)(s[i]) == i
  {
  }

  lemma ClassAt<V>(s: seq<V>, cls: seq<nat>, i: nat)
    requires NoDup(s) && |cls| == |s| && i < |s|
    ensures ClassOf(s, cls)(s[i]) == cls[i]
  {
    NumberAt(s, i);
  }

  lemma NumberedEdge<V>(s: seq<V>, E: set<(V, V)>, i: nat, j: nat)
    requires NoDup(s) && i < |s| && j < |s| && forall e :: e in E ==> e.0 in s && e.1 in s && e.0 != e.1
    ensures (i, j) in Quotient(E, Number(s)) <==> (s[i], s[j]) in E
  {
    NumberAt(s, i);
    NumberAt(s, j);
    if (i, j) in Quotient(E, Number(s)) {
      var e := QuotientEdge(E, Number(s), (i, j));
      assert e == (s[i], s[j]);
    }
    if (s[i], s[j]) in E {
      InQuotient(E, Number(s), (s[i], s[j]));
    }
  }

  lemma NumberedRange<V>(s: seq<V>, E: set<(V, V)>)
    requires forall e :: e in E ==> e.0 in s && e.1 in s
    ensures forall q :: q in Quotient(E, Number(s)) ==> q.0 < |s| && q.1 < |s|
  {
    forall q | q in Quotient(E, Number(s)) ensures q.0 < |s| && q.1 < |s| {
      var e := QuotientEdge(E, Number(s), q);
    }
  }

  lemma NumberedSides<V>(s: seq<V>, E: set<(V, V)>, a: nat)
    requires NoDup(s) && a < |s| && forall e :: e in E ==> e.0 in s && e.1 in s && e.0 != e.1
    ensures forall x: nat :: x in Sources(Quotient(E, Number(s)), a) <==> x < |s| && s[x] in Sources(E, s[a])
    ensures forall x: nat :: x in Targets(Quotient(E, Number(s)), a) <==> x < |s| && s[x] in Targets(E, s[a])
  {
    var Q := Quotient(E, Number(s));
    NumberedRange(s, E);
    forall x: nat ensures x in Sources(Q, a) <==> x < |s| && s[x] in Sources(E, s[a]) {
      NotAnEdge(Q, x, a);
      assert (x, a) in Q ==> (x, a).0 < |s|;
      if x < |s| {
        NumberedEdge(s, E, x, a);
        NotAnEdge(E, s[x], s[a]);
      }
    }
    forall x: nat ensures x in Targets(Q, a) <==> x < |s| && s[x] in Targets(E, s[a]) {
      NotAnEdge(Q, a, x);
      assert (a, x) in Q ==> (a, x).1 < |s|;
      if x < |s| {
        NumberedEdge(s, E, a, x);
        NotAnEdge(E, s[a], s[x]);
      }
    }
  }

  /** Numbering an acyclic graph gives an acyclic graph, ranked by a schedule. */
  lemma NumberedGraph<V>(s: seq<V>, E: set<(V, V)>) returns (Q: set<(nat, nat)>, r: nat -> int)
    requires Acyclic(E) && forall e :: e in E ==> e.0 in s && e.1 in s
    ensures Q == Quotient(E, Number(s)) && Ranked(Q, r) && forall q :: q in Q ==> q.0 < |s| && q.1 < |s|
  {
    Q := Quotient(E, Number(s));
    NumberedRange(s, E);
    var o := HasSchedule(Elems(s), E);
    r := (i: nat) => if i < |s| && s[i] in o then IndexOf(o, s[i]) else 0;
    forall q | q in Q ensures r(q.0) < r(q.1) {
      var e := QuotientEdge(E, Number(s), q);
      assert e.0 in Elems(o) && e.1 in Elems(o);
      var i, j := IndexOf(o, e.0), IndexOf(o, e.1);
      assert e == (o[i], o[j]);
    }
  }

  /** Grouping by numbers is grouping the nodes. */
  lemma GroupsCompose<V>(s: seq<V>, E: set<(V, V)>, cls: seq<nat>)
    ensures Quotient(Quotient(E, Number(s)), Group(cls)) == Quotient(E, ClassOf(s, cls))
  {
    QuotientCompose(E, Number(s), Group(cls), ClassOf(s, cls));
  }

  /** The successor lists, given by the numbers of the nodes in them, spell the edges `E`. */
  ghost predicate Spells(succ: seq<seq<nat>>, E: set<(nat, nat)>) {
    && (forall e :: e in E ==> e.0 < |succ| && e.1 < |succ|)
    && (forall i: nat :: i < |succ| ==> Elems(succ[i]) == Targets(E, i))
  }

  lemma SuccessorNumber(succ: seq<seq<nat>>, E: set<(nat, nat)>, i: nat, k: nat)
    requires Spells(succ, E) && i < |succ| && k < |succ[i]|
    ensures succ[i][k] in Targets(E, i) && succ[i][k] < |succ|
  {
    assert succ[i][k] in Elems(succ[i]);
    NotAnEdge(E, i, succ[i][k]);
    assert (i, succ[i][k]).1 < |succ|;
  }

  lemma AllSuccessors(succ: seq<seq<nat>>, E: set<(nat, nat)>, i: nat)
    requires Spells(succ, E) && i < |succ|
    ensures Elems(succ[i][..|succ[i]|]) == Targets(E, i)
  {
    assert succ[i][..|succ[i]|] == succ[i];
  }
}
