/** Placing the nodes of a dependency graph in rounds, and what it means to get stuck. */
module DependencyGraph {
  import opened Basics

  /** Each node with the nodes it depends on. */
  type Graph = map<Id, set<Id>>

  ghost predicate Closed(g: Graph) {
    forall n :: n in g ==> g[n] <= g.Keys
  }

  /** Node n can be placed within the first k rounds: its dependencies all within the first k - 1. */
  ghost predicate Within(g: Graph, n: Id, k: nat)
    decreases k
  {
    k > 0 && n in g && forall d :: d in g[n] ==> Within(g, d, k - 1)
  }

  lemma {:induction false} WithinGrows(g: Graph, n: Id, k: nat, more: nat)
    requires Within(g, n, k)
    ensures Within(g, n, k + more)
    decreases k
  {
    forall d | d in g[n]
      ensures Within(g, d, k - 1 + more)
    {
      WithinGrows(g, d, k - 1, more);
    }
  }

  /** The nodes not yet placed whose dependencies all are. */
  ghost predicate IsReady(g: Graph, placed: set<Id>, n: Id) {
    n in g && n !in placed && g[n] <= placed
  }

  /** `placed` holds just the nodes of the first k rounds. */
  ghost predicate FirstRounds(g: Graph, placed: set<Id>, k: nat) {
    forall n :: n in placed <==> Within(g, n, k)
  }

  /** Placing every ready node is one more round. */
  lemma OneMoreRound(g: Graph, placed: set<Id>, k: nat, next: set<Id>)
    requires FirstRounds(g, placed, k) && forall n :: n in next <==> n in placed || IsReady(g, placed, n)
    ensures FirstRounds(g, next, k + 1)
  {
    forall n
      ensures n in next <==> Within(g, n, k + 1)
    {
      if n in placed {
        WithinGrows(g, n, k, 1);
      }
    }
  }

  // ---------------------------------------------------------------- chains

  /** Nodes each of which depends on the next. */
  ghost predicate Chain(g: Graph, p: seq<Id>) {
    && p != [] && (forall i :: 0 <= i < |p| ==> p[i] in g)
    && forall i :: 0 <= i < |p| - 1 ==> Link(g, p, i)
  }

  ghost predicate Link(g: Graph, p: seq<Id>, i: nat)
    requires i + 1 < |p| && p[i] in g
  {
    p[i + 1] in g[p[i]]
  }

  lemma {:induction false} PlacedBoundsChains(g: Graph, p: seq<Id>, k: nat)
    requires Chain(g, p) && Within(g, p[0], k)
    ensures |p| <= k
  {
    if |p| > 1 {
      assert Link(g, p, 0);
      assert Chain(g, p[1..]) by {
        forall i | 0 <= i < |p| - 2
          ensures Link(g, p[1..], i)
        {
          assert Link(g, p, i + 1);
        }
      }
      PlacedBoundsChains(g, p[1..], k - 1);
    }
  }

  /** A node still missing after k rounds starts a chain of more than k nodes. */
  lemma {:induction false} MissingStartsChain(g: Graph, n: Id, k: nat) returns (p: seq<Id>)
    requires Closed(g) && n in g && !Within(g, n, k)
    ensures Chain(g, p) && p[0] == n && |p| == k + 1
    decreases k
  {
    if k == 0 {
      p := [n];
    } else {
      var d :| d in g[n] && !Within(g, d, k - 1);
      p := MissingStartsChain(g, d, k - 1);
      p := Prepend(g, n, p);
    }
  }

  lemma Prepend(g: Graph, n: Id, rest: seq<Id>) returns (p: seq<Id>)
    requires Chain(g, rest) && n in g && rest[0] in g[n]
    ensures Chain(g, p) && p[0] == n && |p| == |rest| + 1
  {
    p := [n] + rest;
    forall i | 0 <= i < |p| - 1
      ensures Link(g, p, i)
    {
      if i > 0 {
        assert Link(g, rest, i - 1);
      }
    }
  }

  /** A node is placed within k rounds exactly when no dependency chain from it is longer than k. */
  lemma RoundIsLongestChain(g: Graph, n: Id, k: nat)
    requires Closed(g) && n in g
    ensures Within(g, n, k) <==> forall p :: Chain(g, p) && p[0] == n ==> |p| <= k
  {
    if Within(g, n, k) {
      forall p | Chain(g, p) && p[0] == n
        ensures |p| <= k
      {
        PlacedBoundsChains(g, p, k);
      }
    } else {
      var p := MissingStartsChain(g, n, k);
    }
  }

  // ---------------------------------------------------------------- cycles

  /** A chain that closes: its last node depends on its first. */
  ghost predicate Cycle(g: Graph, c: seq<Id>) {
    Chain(g, c) && c[0] in g[c[|c| - 1]]
  }

  lemma {:induction false} StuckStaysStuck(g: Graph, placed: set<Id>, k: nat, more: nat)
    requires FirstRounds(g, placed, k) && forall n :: !IsReady(g, placed, n)
    ensures FirstRounds(g, placed, k + more)
  {
    if more > 0 {
      StuckStaysStuck(g, placed, k, more - 1);
      OneMoreRound(g, placed, k + more - 1, placed);
    }
  }

  lemma {:induction false} Pigeonhole(p: seq<Id>, nodes: set<Id>) returns (i: nat, j: nat)
    requires |p| > |nodes| && forall x :: x in p ==> x in nodes
    ensures i < j < |p| && p[i] == p[j]
  {
    var last := |p| - 1;
    if k :| 0 <= k < last && p[k] == p[last] {
      i, j := k, last;
    } else {
      assert p[last] in p;
      assert forall x :: x in p[..last] ==> x in p && x != p[last];
      i, j := Pigeonhole(p[..last], nodes - {p[last]});
    }
  }

  /** A node missing after as many rounds as there are nodes leads into a cycle. */
  lemma MissingBuildsCycle(g: Graph, n: Id, more: nat) returns (c: seq<Id>)
    requires Closed(g) && n in g && !Within(g, n, |g| + more)
    ensures Cycle(g, c)
  {
    var p := MissingStartsChain(g, n, |g| + more);
    assert |g.Keys| == |g|;
    var i, j := Pigeonhole(p, g.Keys);
    c := Between(g, p, i, j);
  }

  /** Being stuck with nodes left over builds a cycle. */
  lemma StuckBuildsCycle(g: Graph, placed: set<Id>, k: nat, n: Id) returns (c: seq<Id>)
    requires Closed(g) && FirstRounds(g, placed, k) && n in g && n !in placed
    requires forall m :: !IsReady(g, placed, m)
    ensures Cycle(g, c)
  {
    StuckStaysStuck(g, placed, k, |g|);
    c := MissingBuildsCycle(g, n, k);
  }

  lemma Between(g: Graph, p: seq<Id>, i: nat, j: nat) returns (c: seq<Id>)
    requires Chain(g, p) && i < j < |p| && p[i] == p[j]
    ensures Cycle(g, c)
  {
    c := p[i..j];
    forall x | 0 <= x < |c| - 1
      ensures Link(g, c, x)
    {
      assert Link(g, p, i + x);
    }
    assert Link(g, p, j - 1);
  }

  /** A node on a cycle is never placed. */
  lemma {:induction false} CycleIsNeverPlaced(g: Graph, c: seq<Id>, k: nat, i: nat)
    requires Cycle(g, c) && i < |c|
    ensures !Within(g, c[i], k)
    decreases k
  {
    if Within(g, c[i], k) {
      var next := if i == |c| - 1 then 0 else i + 1;
      assert i < |c| - 1 ==> Link(g, c, i);
      CycleIsNeverPlaced(g, c, k - 1, next);
    }
  }
}
