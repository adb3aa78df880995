/** The execution order of research tasks and the planner's cycle check. */
module TaskOrder {
  import opened Basics
  import opened DependencyGraph
  import opened Sorting

  datatype Task = Task(id: Id, dependencies: seq<Id>, createdAt: int)

  ghost predicate DistinctIds(tasks: seq<Task>) {
    forall i, j :: 0 <= i < j < |tasks| ==> tasks[i].id != tasks[j].id
  }

  ghost function Ids(tasks: seq<Task>): set<Id> {
    set t | t in tasks :: t.id
  }

  ghost predicate NoDangling(tasks: seq<Task>) {
    forall t :: t in tasks ==> Elements(t.dependencies) <= Ids(tasks)
  }

  lemma SameTask(tasks: seq<Task>, a: Task, b: Task)
    requires DistinctIds(tasks) && a in tasks && b in tasks && a.id == b.id
    ensures a == b
  {
    var i :| 0 <= i < |tasks| && tasks[i] == a;
    var j :| 0 <= j < |tasks| && tasks[j] == b;
  }

  ghost function TaskOf(tasks: seq<Task>, id: Id): (t: Task)
    requires id in Ids(tasks)
    ensures t in tasks && t.id == id
  {
    var t :| t in tasks && t.id == id;
    t
  }

  ghost function GraphOf(tasks: seq<Task>): Graph {
    map id | id in Ids(tasks) :: Elements(TaskOf(tasks, id).dependencies)
  }

  lemma GraphAt(tasks: seq<Task>, t: Task)
    requires DistinctIds(tasks) && t in tasks
    ensures t.id in GraphOf(tasks) && GraphOf(tasks)[t.id] == Elements(t.dependencies)
  {
    SameTask(tasks, t, TaskOf(tasks, t.id));
  }

  // ---------------------------------------------------------------- the order of the result

  /** Created earlier, or at the same time and listed earlier. */
  ghost predicate Elder(tasks: seq<Task>, a: Task, b: Task) {
    && a in tasks && b in tasks
    && (a.createdAt < b.createdAt || (a.createdAt == b.createdAt && Index(tasks, a) < Index(tasks, b)))
  }

  ghost predicate EarlierRound(g: Graph, a: Id, b: Id) {
    exists k: nat :: Within(g, a, k) && !Within(g, b, k)
  }

  ghost predicate SameRound(g: Graph, a: Id, b: Id) {
    forall k: nat :: Within(g, a, k) <==> Within(g, b, k)
  }

  ghost predicate Precedes(tasks: seq<Task>, a: Task, b: Task) {
    || EarlierRound(GraphOf(tasks), a.id, b.id)
    || (SameRound(GraphOf(tasks), a.id, b.id) && Elder(tasks, a, b))
  }

  ghost predicate InExecutionOrder(tasks: seq<Task>, r: seq<Task>) {
    forall i, j :: 0 <= i < j < |r| ==> Precedes(tasks, r[i], r[j])
  }

  // ---------------------------------------------------------------- list comprehensions and the sort

  /** The listed tasks that depend on placed ones only, in order. */
  function ReadyIn(s: seq<Task>, placed: set<Id>): seq<Task> {
    if s == [] then []
    else (if Elements(s[0].dependencies) <= placed then [s[0]] else []) + ReadyIn(s[1..], placed)
  }

  /** The listed tasks not placed yet, in order. */
  function Unplaced(s: seq<Task>, placed: set<Id>): seq<Task> {
    if s == [] then []
    else (if s[0].id !in placed then [s[0]] else []) + Unplaced(s[1..], placed)
  }

  lemma {:induction false} ReadyInHolds(s: seq<Task>, placed: set<Id>, t: Task)
    ensures t in ReadyIn(s, placed) <==> t in s && Elements(t.dependencies) <= placed
  {
    if s != [] {
      ReadyInHolds(s[1..], placed, t);
    }
  }

  lemma {:induction false} UnplacedHolds(s: seq<Task>, placed: set<Id>, t: Task)
    ensures t in Unplaced(s, placed) <==> t in s && t.id !in placed
  {
    if s != [] {
      UnplacedHolds(s[1..], placed, t);
    }
  }

  lemma AsListedTail(tasks: seq<Task>, s: seq<Task>)
    requires AsListed(tasks, s) && s != []
    ensures AsListed(tasks, s[1..])
    ensures forall t :: t in s[1..] ==> Index(tasks, s[0]) < Index(tasks, t)
  {
  }

  lemma AsListedCons(tasks: seq<Task>, t: Task, s: seq<Task>)
    requires AsListed(tasks, s) && t in tasks
    requires forall u :: u in s ==> Index(tasks, t) < Index(tasks, u)
    ensures AsListed(tasks, [t] + s)
  {
    var r := [t] + s;
    forall i, j | 0 <= i < j < |r|
      ensures Index(tasks, r[i]) < Index(tasks, r[j])
    {
      assert r[j] in s;
    }
  }

  lemma {:induction false} ReadyInAsListed(tasks: seq<Task>, s: seq<Task>, placed: set<Id>)
    requires AsListed(tasks, s)
    ensures AsListed(tasks, ReadyIn(s, placed))
  {
    if s != [] {
      AsListedTail(tasks, s);
      ReadyInAsListed(tasks, s[1..], placed);
      var rest := ReadyIn(s[1..], placed);
      forall t | t in rest
        ensures t in s[1..]
      {
        ReadyInHolds(s[1..], placed, t);
      }
      AsListedCons(tasks, s[0], rest);
      assert [] + rest == rest;
    }
  }

  lemma {:induction false} UnplacedAsListed(tasks: seq<Task>, s: seq<Task>, placed: set<Id>)
    requires AsListed(tasks, s)
    ensures AsListed(tasks, Unplaced(s, placed))
  {
    if s != [] {
      AsListedTail(tasks, s);
      UnplacedAsListed(tasks, s[1..], placed);
      var rest := Unplaced(s[1..], placed);
      forall t | t in rest
        ensures t in s[1..]
      {
        UnplacedHolds(s[1..], placed, t);
      }
      AsListedCons(tasks, s[0], rest);
      assert [] + rest == rest;
    }
  }

  const EARLIER: Order<Task> := (a: Task, b: Task) => a.createdAt <= b.createdAt

  function SortByCreation(s: seq<Task>): seq<Task> {
    Sort(EARLIER, s)
  }

  ghost predicate Stable(tasks: seq<Task>, r: seq<Task>) {
    forall i, j :: 0 <= i < j < |r| ==> Elder(tasks, r[i], r[j])
  }

  lemma SortIsStable(tasks: seq<Task>, s: seq<Task>)
    requires AsListed(tasks, s)
    ensures Stable(tasks, SortByCreation(s)) && multiset(SortByCreation(s)) == multiset(s)
  {
    SortInOrder(EARLIER, tasks, s);
    var r := SortByCreation(s);
    forall i, j | 0 <= i < j < |r|
      ensures Elder(tasks, r[i], r[j])
    {
      assert Sorting.Precedes(EARLIER, tasks, r[i], r[j]);
    }
  }

  // ---------------------------------------------------------------- one round

  /** What the loop has done after k rounds. */
  ghost predicate Progress(tasks: seq<Task>, ordered: seq<Task>, remaining: seq<Task>, placed: set<Id>, k: nat) {
    && FirstRounds(GraphOf(tasks), placed, k)
    && AsListed(tasks, remaining)
    && multiset(ordered) + multiset(remaining) == multiset(tasks)
    && InExecutionOrder(tasks, ordered)
    && (forall t :: t in ordered ==> t in tasks && t.id in placed)
    && (forall t :: t in remaining ==> t.id !in placed)
  }

  lemma ProgressStarts(tasks: seq<Task>)
    requires DistinctIds(tasks)
    ensures Progress(tasks, [], tasks, {}, 0)
  {
    assert forall i :: 0 <= i < |tasks| ==> Index(tasks, tasks[i]) == i;
  }

  lemma {:induction false} ReadyOrUnplaced(s: seq<Task>, placed: set<Id>, next: set<Id>)
    requires forall t :: t in s ==> (t.id in next <==> Elements(t.dependencies) <= placed)
    ensures multiset(ReadyIn(s, placed)) + multiset(Unplaced(s, next)) == multiset(s)
  {
    if s != [] {
      assert s == [s[0]] + s[1..];
      ReadyOrUnplaced(s[1..], placed, next);
    }
  }

  /** Every unplaced task is still listed in `remaining`. */
  lemma UnplacedRemain(tasks: seq<Task>, ordered: seq<Task>, remaining: seq<Task>, placed: set<Id>, k: nat, t: Task)
    requires Progress(tasks, ordered, remaining, placed, k) && t in tasks && t.id !in placed
    ensures t in remaining
  {
    assert t in multiset(tasks);
    assert t in multiset(ordered) + multiset(remaining);
  }

  /** The tasks ready in one round all belong to the next round, and nothing else does. */
  lemma ReadyAreNext(tasks: seq<Task>, ordered: seq<Task>, remaining: seq<Task>, placed: set<Id>, k: nat, n: Id)
    requires DistinctIds(tasks) && Progress(tasks, ordered, remaining, placed, k)
    ensures IsReady(GraphOf(tasks), placed, n) <==> n in Ids(ReadyIn(remaining, placed))
  {
    var ready := ReadyIn(remaining, placed);
    if n in Ids(ready) {
      var t := TaskOf(ready, n);
      ReadyInHolds(remaining, placed, t);
      GraphAt(tasks, t);
    }
    if IsReady(GraphOf(tasks), placed, n) {
      var t := TaskOf(tasks, n);
      UnplacedRemain(tasks, ordered, remaining, placed, k, t);
      ReadyInHolds(remaining, placed, t);
    }
  }

  lemma SameNewRound(g: Graph, placed: set<Id>, next: set<Id>, k: nat, a: Id, b: Id)
    requires FirstRounds(g, placed, k) && FirstRounds(g, next, k + 1)
    requires a in next - placed && b in next - placed
    ensures SameRound(g, a, b)
  {
    forall m: nat
      ensures Within(g, a, m) <==> Within(g, b, m)
    {
      forall x | x in {a, b}
        ensures Within(g, x, m) <==> m > k
      {
        if m > k {
          WithinGrows(g, x, k + 1, m - k - 1);
        } else if Within(g, x, m) {
          WithinGrows(g, x, m, k - m);
        }
      }
    }
  }

  lemma OrderExtends(tasks: seq<Task>, ordered: seq<Task>, batch: seq<Task>, placed: set<Id>, next: set<Id>, k: nat)
    requires FirstRounds(GraphOf(tasks), placed, k) && FirstRounds(GraphOf(tasks), next, k + 1)
    requires InExecutionOrder(tasks, ordered) && Stable(tasks, batch)
    requires forall t :: t in ordered ==> t.id in placed
    requires forall t :: t in batch ==> t.id in next - placed
    ensures InExecutionOrder(tasks, ordered + batch)
  {
    var r, g := ordered + batch, GraphOf(tasks);
    forall i, j | 0 <= i < j < |r|
      ensures Precedes(tasks, r[i], r[j])
    {
      if j >= |ordered| {
        assert r[j] in batch;
        if i < |ordered| {
          assert r[i] in ordered;
          assert Within(g, r[i].id, k) && !Within(g, r[j].id, k);
        } else {
          assert r[i] in batch;
          assert Elder(tasks, batch[i - |ordered|], batch[j - |ordered|]);
          SameNewRound(g, placed, next, k, r[i].id, r[j].id);
        }
      }
    }
  }

  /** What one round moves: `batch` out of `remaining`, leaving `rest`. */
  ghost predicate OneRound(tasks: seq<Task>, remaining: seq<Task>, placed: set<Id>, k: nat, batch: seq<Task>,
                           rest: seq<Task>, next: set<Id>) {
    && FirstRounds(GraphOf(tasks), placed, k) && FirstRounds(GraphOf(tasks), next, k + 1)
    && Stable(tasks, batch)
    && AsListed(tasks, rest)
    && (forall t :: t in batch ==> t in tasks && t.id in next - placed)
    && (forall t :: t in rest ==> t.id !in next)
    && multiset(batch) + multiset(rest) == multiset(remaining)
  }

  lemma RoundMoves(tasks: seq<Task>, ordered: seq<Task>, remaining: seq<Task>, placed: set<Id>, k: nat)
    requires DistinctIds(tasks) && Progress(tasks, ordered, remaining, placed, k)
    ensures var batch := SortByCreation(ReadyIn(remaining, placed));
            var next := placed + Ids(batch);
            && OneRound(tasks, remaining, placed, k, batch, Unplaced(remaining, next), next)
            && multiset(batch) == multiset(ReadyIn(remaining, placed))
  {
    var g, ready := GraphOf(tasks), ReadyIn(remaining, placed);
    var batch := SortByCreation(ready);
    var next := placed + Ids(batch);
    var rest := Unplaced(remaining, next);
    ReadyInAsListed(tasks, remaining, placed);
    SortIsStable(tasks, ready);
    SameElements(batch, ready);
    UnplacedAsListed(tasks, remaining, next);
    NextRound(tasks, ordered, remaining, placed, k, next);
    assert AsListed(tasks, remaining);
    forall t | t in batch
      ensures t in tasks && t.id in next - placed
    {
      ReadyInHolds(remaining, placed, t);
    }
    forall t | t in rest
      ensures t.id !in next
    {
      UnplacedHolds(remaining, next, t);
    }
    ReadyOrUnplaced(remaining, placed, next);
  }

  lemma NextRound(tasks: seq<Task>, ordered: seq<Task>, remaining: seq<Task>, placed: set<Id>, k: nat, next: set<Id>)
    requires DistinctIds(tasks) && Progress(tasks, ordered, remaining, placed, k)
    requires next == placed + Ids(ReadyIn(remaining, placed))
    ensures FirstRounds(GraphOf(tasks), next, k + 1)
    ensures forall t :: t in remaining ==> (t.id in next <==> Elements(t.dependencies) <= placed)
  {
    var g := GraphOf(tasks);
    forall n
      ensures n in next <==> n in placed || IsReady(g, placed, n)
    {
      ReadyAreNext(tasks, ordered, remaining, placed, k, n);
    }
    OneMoreRound(g, placed, k, next);
    forall t | t in remaining
      ensures t.id in next <==> Elements(t.dependencies) <= placed
    {
      GraphAt(tasks, t);
    }
  }

  lemma RoundProgresses(tasks: seq<Task>, ordered: seq<Task>, remaining: seq<Task>, placed: set<Id>, k: nat,
                        batch: seq<Task>, rest: seq<Task>, next: set<Id>)
    requires Progress(tasks, ordered, remaining, placed, k)
    requires OneRound(tasks, remaining, placed, k, batch, rest, next)
    ensures Progress(tasks, ordered + batch, rest, next, k + 1)
    ensures |batch| + |rest| == |remaining|
  {
    assert placed <= next by {
      forall n | n in placed
        ensures n in next
      {
        WithinGrows(GraphOf(tasks), n, k, 1);
      }
    }
    hide GraphOf, FirstRounds, AsListed, InExecutionOrder, Stable;
    OrderExtends(tasks, ordered, batch, placed, next, k);
    assert |multiset(batch) + multiset(rest)| == |multiset(remaining)|;
    assert multiset(ordered + batch) + multiset(rest) == multiset(tasks);
  }

  lemma SameElements(a: seq<Task>, b: seq<Task>)
    requires multiset(a) == multiset(b)
    ensures Ids(a) == Ids(b) && (forall t :: t in a <==> t in b) && |a| == |b|
  {
    assert forall t :: t in a <==> t in multiset(a);
    assert forall t :: t in b <==> t in multiset(b);
    assert |multiset(a)| == |a| && |multiset(b)| == |b|;
  }

  // ---------------------------------------------------------------- the algorithm

  const DANGLING := "depends on unknown tasks"
  const CYCLE := "research task dependencies contain a cycle"

  lemma FinishedHasNoCycle(tasks: seq<Task>, ordered: seq<Task>, placed: set<Id>, k: nat)
    requires Progress(tasks, ordered, [], placed, k)
    ensures !exists c :: Cycle(GraphOf(tasks), c)
  {
    if c :| Cycle(GraphOf(tasks), c) {
      CycleIsNeverPlaced(GraphOf(tasks), c, k, 0);
      UnplacedRemain(tasks, ordered, [], placed, k, TaskOf(tasks, c[0]));
    }
  }

  /**
   * The order the tasks run in: round by round, within a round by creation time, and as listed on
   * a tie. It is refused exactly when a dependency is unknown or the dependencies go in a circle.
   */
  method ResolveExecutionOrder(tasks: seq<Task>) returns (r: Outcome<seq<Task>>)
    requires DistinctIds(tasks)
    ensures r.Returned? <==> NoDangling(tasks) && !exists c :: Cycle(GraphOf(tasks), c)
    ensures r.Returned? ==> multiset(r.value) == multiset(tasks) && InExecutionOrder(tasks, r.value)
    ensures r.Raised? ==> r.error == Error("ValueError", if NoDangling(tasks) then CYCLE else DANGLING)
  {
    for i := 0 to |tasks|
      invariant forall j :: 0 <= j < i ==> Elements(tasks[j].dependencies) <= Ids(tasks)
    {
      var known := set t | t in tasks :: t.id;
      if !(Elements(tasks[i].dependencies) <= known) {
        assert tasks[i] in tasks;
        return Raised(Error("ValueError", DANGLING));
      }
    }
    var ordered, placed: set<Id>, remaining := [], {}, tasks;
    ghost var k := 0;
    ProgressStarts(tasks);
    while remaining != []
      invariant Progress(tasks, ordered, remaining, placed, k)
      decreases |remaining|
    {
      var ready := ReadyIn(remaining, placed);
      RoundMoves(tasks, ordered, remaining, placed, k);
      if ready == [] {
        StuckIsCycle(tasks, ordered, remaining, placed, k);
        return Raised(Error("ValueError", CYCLE));
      }
      ready := SortByCreation(ready);
      SameElements(ready, ReadyIn(remaining, placed));
      var next := placed + set t | t in ready :: t.id;
      RoundProgresses(tasks, ordered, remaining, placed, k, ready, Unplaced(remaining, next), next);
      ordered, placed := ordered + ready, next;
      remaining := Unplaced(remaining, placed);
      k := k + 1;
    }
    FinishedHasNoCycle(tasks, ordered, placed, k);
    r := Returned(ordered);
  }

  lemma StuckIsCycle(tasks: seq<Task>, ordered: seq<Task>, remaining: seq<Task>, placed: set<Id>, k: nat)
    requires DistinctIds(tasks) && NoDangling(tasks) && Progress(tasks, ordered, remaining, placed, k)
    requires remaining != [] && ReadyIn(remaining, placed) == []
    ensures exists c :: Cycle(GraphOf(tasks), c)
  {
    assert Closed(GraphOf(tasks));
    forall n
      ensures !IsReady(GraphOf(tasks), placed, n)
    {
      ReadyAreNext(tasks, ordered, remaining, placed, k, n);
    }
    var t := remaining[0];
    assert t in remaining;
    GraphAt(tasks, t);
    var c := StuckBuildsCycle(GraphOf(tasks), placed, k, t.id);
  }

  /** The round a task runs in, counted from 1, when there is no cycle. */
  lemma {:induction false} FirstRoundOf(g: Graph, n: Id, k: nat) returns (first: nat)
    requires Within(g, n, k)
    ensures 0 < first <= k && Within(g, n, first) && !Within(g, n, first - 1)
  {
    if Within(g, n, k - 1) {
      first := FirstRoundOf(g, n, k - 1);
    } else {
      first := k;
    }
  }

  lemma NoTieWithDependency(g: Graph, n: Id, d: Id)
    requires Closed(g) && n in g && d in g[n] && !exists c :: Cycle(g, c)
    ensures !EarlierRound(g, n, d) && !SameRound(g, n, d)
  {
    if !Within(g, n, |g|) {
      var c := MissingBuildsCycle(g, n, 0);
    }
    var first := FirstRoundOf(g, n, |g|);
    assert Within(g, d, first - 1);
    if EarlierRound(g, n, d) {
      var k: nat :| Within(g, n, k) && !Within(g, d, k);
      WithinGrows(g, d, k - 1, 1);
    }
  }

  /** In the resolved order every dependency of a task stands before it. */
  lemma DependenciesRunFirst(tasks: seq<Task>, r: seq<Task>, j: nat, d: Id)
    requires DistinctIds(tasks) && NoDangling(tasks) && !exists c :: Cycle(GraphOf(tasks), c)
    requires multiset(r) == multiset(tasks) && InExecutionOrder(tasks, r)
    requires j < |r| && d in r[j].dependencies
    ensures exists i :: 0 <= i < j && r[i].id == d
  {
    SameElements(r, tasks);
    assert Closed(GraphOf(tasks));
    var g, t := GraphOf(tasks), r[j];
    assert t in r;
    GraphAt(tasks, t);
    assert d in Elements(t.dependencies);
    var dep := TaskOf(r, d);
    var i :| 0 <= i < |r| && r[i] == dep;
    assert j < i ==> Precedes(tasks, r[j], r[i]);
    assert j == i ==> SameRound(g, t.id, d);
    NoTieWithDependency(g, t.id, d);
  }

  /** The order is the only one of its kind: whatever else satisfies it is the same list. */
  lemma {:induction false} OrderIsUnique(tasks: seq<Task>, r: seq<Task>, s: seq<Task>)
    requires multiset(r) == multiset(s) && InExecutionOrder(tasks, r) && InExecutionOrder(tasks, s)
    ensures r == s
    decreases |r|
  {
    SameElements(r, s);
    if r != [] {
      SameHead(tasks, r, s);
      SameTails(r, s);
      OrderIsUnique(tasks, r[1..], s[1..]);
      assert r == [r[0]] + r[1..] && s == [s[0]] + s[1..];
    }
  }

  lemma SameHead(tasks: seq<Task>, r: seq<Task>, s: seq<Task>)
    requires multiset(r) == multiset(s) && InExecutionOrder(tasks, r) && InExecutionOrder(tasks, s)
    requires r != [] && s != []
    ensures r[0] == s[0]
  {
    SameElements(r, s);
    assert r[0] in s && s[0] in r;
    var i :| 0 <= i < |s| && s[i] == r[0];
    var j :| 0 <= j < |r| && r[j] == s[0];
    NotBoth(tasks, r[0], s[0]);
    hide Precedes;
    assert i > 0 ==> Precedes(tasks, s[0], s[i]);
    assert j > 0 ==> Precedes(tasks, r[0], r[j]);
  }

  lemma SameTails(r: seq<Task>, s: seq<Task>)
    requires multiset(r) == multiset(s) && r != [] && s != [] && r[0] == s[0]
    ensures multiset(r[1..]) == multiset(s[1..])
  {
    assert r == [r[0]] + r[1..] && s == [s[0]] + s[1..];
    assert multiset(r[1..]) == multiset(r) - multiset{r[0]};
    assert multiset(s[1..]) == multiset(s) - multiset{s[0]};
  }

  lemma NotBoth(tasks: seq<Task>, a: Task, b: Task)
    ensures !(Precedes(tasks, a, b) && Precedes(tasks, b, a))
  {
    var g := GraphOf(tasks);
    if EarlierRound(g, a.id, b.id) && EarlierRound(g, b.id, a.id) {
      var k: nat :| Within(g, a.id, k) && !Within(g, b.id, k);
      var m: nat :| Within(g, b.id, m) && !Within(g, a.id, m);
      if k <= m {
        WithinGrows(g, a.id, k, m - k);
      } else {
        WithinGrows(g, b.id, m, k - m);
      }
    }
  }

  // ---------------------------------------------------------------- the planner's check

  /** A plan's tasks are known by their positions; each lists the positions it depends on. */
  type Plan = seq<seq<nat>>

  ghost predicate InRange(plan: Plan) {
    forall i, d :: 0 <= i < |plan| && d in plan[i] ==> d < |plan|
  }

  ghost function PlanGraph(plan: Plan): Graph {
    map i: nat | i < |plan| :: Elements(plan[i])
  }

  const NO_SUCH_TASK := "depends on a task which does not exist"
  const SELF_DEPENDENT := "depends on itself"
  const PLAN_CYCLE := "the planned tasks contain a dependency cycle"

  /** A plan is accepted exactly when its dependencies exist and never lead back to where they start. */
  method ValidatePlan(plan: Plan) returns (r: Outcome<()>)
    ensures r.Returned? <==> InRange(plan) && !exists c :: Cycle(PlanGraph(plan), c)
  {
    for i := 0 to |plan|
      invariant forall x, d :: 0 <= x < i && d in plan[x] ==> d < |plan|
    {
      for j := 0 to |plan[i]|
        invariant forall y :: 0 <= y < j ==> plan[i][y] < |plan|
      {
        var d := plan[i][j];
        assert d in plan[i];
        if d >= |plan| {
          return Raised(Error("ValueError", NO_SUCH_TASK));
        }
        if d == i {
          assert Cycle(PlanGraph(plan), [d]);
          return Raised(Error("ValueError", SELF_DEPENDENT));
        }
      }
    }
    r := RejectCycles(plan);
  }

  function Range(n: nat): (r: set<nat>)
    ensures forall i :: i in r <==> 0 <= i < n
  {
    if n == 0 then {} else Range(n - 1) + {n - 1}
  }

  /** What the loop has done after k rounds: placed just those of the first k, and kept the others. */
  ghost predicate PlanProgress(plan: Plan, placed: set<nat>, remaining: set<nat>, k: nat) {
    FirstRounds(PlanGraph(plan), placed, k) && remaining == Range(|plan|) - placed
  }

  function ReadyPositions(plan: Plan, remaining: set<nat>, placed: set<nat>): set<nat>
    requires forall i :: i in remaining ==> i < |plan|
  {
    set i | i in remaining && Elements(plan[i]) <= placed
  }

  lemma PlanStuck(plan: Plan, placed: set<nat>, remaining: set<nat>, k: nat)
    requires InRange(plan) && PlanProgress(plan, placed, remaining, k) && remaining != {}
    requires ReadyPositions(plan, remaining, placed) == {}
    ensures exists c :: Cycle(PlanGraph(plan), c)
  {
    var g := PlanGraph(plan);
    var n :| n in remaining;
    assert n in Range(|plan|);
    assert Closed(g);
    forall m
      ensures !IsReady(g, placed, m)
    {
      if m in g {
        ReadyPosition(plan, placed, remaining, k, m);
      }
    }
    var c := StuckBuildsCycle(g, placed, k, n);
  }

  lemma PlanAdvances(plan: Plan, placed: set<nat>, remaining: set<nat>, k: nat, ready: set<nat>)
    requires PlanProgress(plan, placed, remaining, k) && ready == ReadyPositions(plan, remaining, placed)
    ensures PlanProgress(plan, placed + ready, remaining - ready, k + 1)
  {
    forall n
      ensures n in placed + ready <==> n in placed || IsReady(PlanGraph(plan), placed, n)
    {
      if n in PlanGraph(plan) || n in ready {
        ReadyPosition(plan, placed, remaining, k, n);
      }
    }
    OneMoreRound(PlanGraph(plan), placed, k, placed + ready);
  }

  lemma ReadyPosition(plan: Plan, placed: set<nat>, remaining: set<nat>, k: nat, n: nat)
    requires PlanProgress(plan, placed, remaining, k)
    ensures n in ReadyPositions(plan, remaining, placed) <==> IsReady(PlanGraph(plan), placed, n)
    ensures n in ReadyPositions(plan, remaining, placed) ==> n in remaining
  {
    assert n in PlanGraph(plan) <==> n in Range(|plan|);
  }

  method RejectCycles(plan: Plan) returns (r: Outcome<()>)
    requires InRange(plan)
    ensures r.Returned? <==> !exists c :: Cycle(PlanGraph(plan), c)
    ensures r.Raised? ==> r.error == Error("ValueError", PLAN_CYCLE)
  {
    var placed: set<nat>, remaining := {}, Range(|plan|);
    ghost var k := 0;
    while remaining != {}
      invariant PlanProgress(plan, placed, remaining, k)
      decreases |remaining|
    {
      var ready := ReadyPositions(plan, remaining, placed);
      if ready == {} {
        PlanStuck(plan, placed, remaining, k);
        return Raised(Error("ValueError", PLAN_CYCLE));
      }
      PlanAdvances(plan, placed, remaining, k, ready);
      Fewer(remaining, ready);
      placed := placed + ready;
      remaining := remaining - ready;
      k := k + 1;
    }
    AllPlaced(plan, placed, k);
    r := Returned(());
  }

  lemma Fewer(s: set<nat>, some: set<nat>)
    requires some <= s && some != {}
    ensures |s - some| < |s|
  {
    assert s == (s - some) + some;
    assert |s| == |s - some| + |some|;
  }

  lemma AllPlaced(plan: Plan, placed: set<nat>, k: nat)
    requires PlanProgress(plan, placed, {}, k)
    ensures !exists c :: Cycle(PlanGraph(plan), c)
  {
    if c :| Cycle(PlanGraph(plan), c) {
      assert c[0] in Range(|plan|) - {};
      CycleIsNeverPlaced(PlanGraph(plan), c, k, 0);
    }
  }
}
