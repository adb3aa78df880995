/** Python's stable `sorted`, as an insertion sort, and what it promises. */
module Sorting {
  import opened Basics

  /** `leq(a, b)` says that a may stand before b. */
  type Order<!T> = (T, T) -> bool

  ghost predicate Orders<T(!new)>(leq: Order<T>) {
    && (forall a, b :: leq(a, b) || leq(b, a))
    && (forall a, b, c :: leq(a, b) && leq(b, c) ==> leq(a, c))
  }

  /** An element put before the first one it may stand before. */
  function Insert<T>(leq: Order<T>, x: T, s: seq<T>): seq<T> {
    if s == [] || leq(x, s[0]) then [x] + s else [s[0]] + Insert(leq, x, s[1..])
  }

  function Sort<T>(leq: Order<T>, s: seq<T>): seq<T> {
    if s == [] then [] else Insert(leq, s[0], Sort(leq, s[1..]))
  }

  /** Where an element stands in a list. */
  ghost function Index<T(!new)>(all: seq<T>, x: T): (i: nat)
    requires x in all
    ensures i < |all| && all[i] == x
  {
    var i: nat :| i < |all| && all[i] == x;
    i
  }

  /** a may stand before b, and on a tie was listed before it. */
  ghost predicate Precedes<T(!new)>(leq: Order<T>, all: seq<T>, a: T, b: T) {
    a in all && b in all && leq(a, b) && (leq(b, a) ==> Index(all, a) < Index(all, b))
  }

  ghost predicate InOrder<T(!new)>(leq: Order<T>, all: seq<T>, r: seq<T>) {
    forall i, j :: 0 <= i < j < |r| ==> Precedes(leq, all, r[i], r[j])
  }

  /** The list in order, ties as listed, and nothing lost or added. */
  ghost predicate SortedStably<T(!new)>(leq: Order<T>, s: seq<T>, r: seq<T>) {
    multiset(r) == multiset(s) && InOrder(leq, s, r)
  }

  /** Part of a list, listed as it is there. */
  ghost predicate AsListed<T(!new)>(all: seq<T>, s: seq<T>) {
    && (forall x :: x in s ==> x in all)
    && forall i, j :: 0 <= i < j < |s| ==> Index(all, s[i]) < Index(all, s[j])
  }

  lemma InOrderCons<T(!new)>(leq: Order<T>, all: seq<T>, x: T, r: seq<T>)
    requires InOrder(leq, all, r) && forall y :: y in r ==> Precedes(leq, all, x, y)
    ensures InOrder(leq, all, [x] + r)
  {
    var s := [x] + r;
    forall i, j | 0 <= i < j < |s|
      ensures Precedes(leq, all, s[i], s[j])
    {
      assert s[j] in r;
    }
  }

  lemma InOrderTail<T(!new)>(leq: Order<T>, all: seq<T>, r: seq<T>)
    requires InOrder(leq, all, r) && r != []
    ensures InOrder(leq, all, r[1..]) && forall y :: y in r[1..] ==> Precedes(leq, all, r[0], y)
  {
  }

  lemma {:induction false} InsertInOrder<T(!new)>(leq: Order<T>, all: seq<T>, x: T, s: seq<T>)
    requires Orders(leq) && InOrder(leq, all, s) && x in all
    requires forall y :: y in s ==> y in all && Index(all, x) < Index(all, y)
    ensures InOrder(leq, all, Insert(leq, x, s)) && multiset(Insert(leq, x, s)) == multiset{x} + multiset(s)
  {
    if s == [] || leq(x, s[0]) {
      forall y | y in s
        ensures Precedes(leq, all, x, y)
      {
        InOrderTail(leq, all, s);
        assert s == [s[0]] + s[1..];
      }
      InOrderCons(leq, all, x, s);
      return;
    }
    InOrderTail(leq, all, s);
    InsertInOrder(leq, all, x, s[1..]);
    assert s == [s[0]] + s[1..];
    var rest := Insert(leq, x, s[1..]);
    forall y | y in rest
      ensures Precedes(leq, all, s[0], y)
    {
      assert y in multiset(rest);
      assert s[0] in s;
    }
    InOrderCons(leq, all, s[0], rest);
  }

  lemma {:induction false} SortInOrder<T(!new)>(leq: Order<T>, all: seq<T>, s: seq<T>)
    requires Orders(leq) && AsListed(all, s)
    ensures InOrder(leq, all, Sort(leq, s)) && multiset(Sort(leq, s)) == multiset(s)
  {
    if s != [] {
      assert AsListed(all, s[1..]);
      SortInOrder(leq, all, s[1..]);
      assert s == [s[0]] + s[1..];
      var rest := Sort(leq, s[1..]);
      forall y | y in rest
        ensures y in all && Index(all, s[0]) < Index(all, y)
      {
        assert y in multiset(rest);
        assert y in s[1..];
      }
      InsertInOrder(leq, all, s[0], rest);
    }
  }

  /** Sorting a list of distinct elements is stable. */
  lemma SortIsStable<T(!new)>(leq: Order<T>, s: seq<T>)
    requires Orders(leq) && Distinct(s)
    ensures SortedStably(leq, s, Sort(leq, s))
  {
    assert forall i :: 0 <= i < |s| ==> Index(s, s[i]) == i;
    SortInOrder(leq, s, s);
  }
}
