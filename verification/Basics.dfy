/** Results and a few sequence functions shared by the other modules. */
module Basics {

  /** UUIDs: only equality and a fixed order on them ever matter here. */
  type Id = nat

  datatype Option<+T> = None | Some(value: T)

  /** An exception as a caller sees it: its class name and its message. */
  datatype Error = Error(name: string, message: string)

  /** What a step that may raise did. */
  datatype Outcome<+T> = Returned(value: T) | Raised(error: Error) {
    predicate IsFailure() { Raised? }

    function PropagateFailure<U>(): Outcome<U>
      requires Raised?
    {
      Raised(error)
    }

    function Extract(): T
      requires Returned?
    {
      value
    }
  }

  /** No two positions hold the same element. */
  ghost predicate Distinct<T(!new)>(s: seq<T>) {
    forall i, j :: 0 <= i < j < |s| ==> s[i] != s[j]
  }

  function Elements<T>(s: seq<T>): set<T> {
    set x | x in s
  }

  /** The elements of `s` in order of first occurrence, as Python's `dict.fromkeys` keeps them. */
  function Dedupe<T(==, !new)>(s: seq<T>): (r: seq<T>)
    ensures forall x :: x in r <==> x in s
  {
    if s == [] then []
    else
      var init := Dedupe(s[..|s| - 1]);
      assert s == s[..|s| - 1] + [s[|s| - 1]];
      if s[|s| - 1] in init then init else init + [s[|s| - 1]]
  }

  lemma DedupeDistinct<T(!new)>(s: seq<T>)
    ensures Distinct(Dedupe(s))
  {
  }

  /** `x` occurs in `s` before `y` first does. */
  ghost predicate Precedes<T(!new)>(s: seq<T>, x: T, y: T) {
    exists i :: 0 <= i < |s| && s[i] == x && y !in s[..i + 1]
  }

  /** The elements of `r` stand in the order in which they first occur in `s`. */
  ghost predicate InOrderOf<T(!new)>(s: seq<T>, r: seq<T>) {
    forall i, j :: 0 <= i < j < |r| ==> Precedes(s, r[i], r[j])
  }

  lemma {:induction false} DedupeKeepsOrder<T(!new)>(s: seq<T>)
    ensures InOrderOf(s, Dedupe(s))
  {
    if s != [] {
      var init, last := s[..|s| - 1], s[|s| - 1];
      DedupeKeepsOrder(init);
      forall i, j | 0 <= i < j < |Dedupe(s)|
        ensures Precedes(s, Dedupe(s)[i], Dedupe(s)[j])
      {
        var x, y := Dedupe(s)[i], Dedupe(s)[j];
        if j < |Dedupe(init)| {
          var k :| 0 <= k < |init| && init[k] == x && y !in init[..k + 1];
          assert s[k] == x && s[..k + 1] == init[..k + 1];
        } else {
          assert x in Dedupe(init) && y == last && last !in Dedupe(init);
          var k :| 0 <= k < |init| && init[k] == x;
          assert s[k] == x && s[..k + 1] == init[..k + 1];
        }
      }
    }
  }

  function Filter<T(!new)>(p: T -> bool, s: seq<T>): (r: seq<T>)
    ensures |r| <= |s|
    ensures forall x :: x in r <==> x in s && p(x)
  {
    if s == [] then []
    else
      assert s == [s[0]] + s[1..];
      (if p(s[0]) then [s[0]] else []) + Filter(p, s[1..])
  }

  lemma {:induction false} FilterConcat<T(!new)>(p: T -> bool, s: seq<T>, t: seq<T>)
    ensures Filter(p, s + t) == Filter(p, s) + Filter(p, t)
  {
    if s == [] {
      assert s + t == t;
    } else {
      assert (s + t)[1..] == s[1..] + t;
      FilterConcat(p, s[1..], t);
    }
  }

  /** Python's `"; ".join`. */
  function JoinTexts(texts: seq<string>): string {
    if texts == [] then ""
    else if |texts| == 1 then texts[0]
    else texts[0] + "; " + JoinTexts(texts[1..])
  }

  /** Joining two lists of texts is joining each and putting one separator between. */
  lemma {:induction false} JoinSeparates(a: seq<string>, b: seq<string>)
    requires b != []
    ensures JoinTexts(a + b) == if a == [] then JoinTexts(b) else JoinTexts(a) + "; " + JoinTexts(b)
    ensures |b| == 1 ==> JoinTexts(b) == b[0]
  {
    if a == [] {
      assert a + b == b;
    } else {
      assert (a + b)[1..] == a[1..] + b;
      JoinSeparates(a[1..], b);
    }
  }
}
