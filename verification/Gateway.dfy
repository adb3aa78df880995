/**
 The single governed path to a tool: src/research_platform/mcp/gateway.py over the
 in-process budget ledger and circuit breaker, with an audit sink that stores what it is
 given. One call is one step; what the policy engines, the executor and the clock answer
 during it is part of the call.
 */
module Gateway {
  import opened Basics
  import opened Capabilities
  import Budgets
  import Breaker
  import Sanitizer

  /** What a deployment fixes: the registry, the breaker's settings and functions taken as given. */
  datatype Deployment = Deployment(
    registry: Registry, breaker: Breaker.Config, digest: Arguments -> string,
    sensitive: string -> bool, isFormat: char -> bool)

  /** What the executor did. Only an `UpstreamError` is caught. */
  datatype Execution = Replies(raw: string) | Upstream(message: string, errorClass: ErrorClass) | Crashes(error: Error)

  datatype Call = Call(
    principal: Principal, job: Id, task: Id, server: NonEmpty, name: NonEmpty, arguments: Arguments,
    budget: Budgets.Budget, approval: Option<Approval>,
    verdicts: seq<Option<string>>, policyVersion: NonEmpty, execution: Execution, recordId: Id,
    approvalAt: int, checkedAt: int, startedAt: int, failedAt: int, stampedAt: int)

  /** A call as the executor received it. */
  datatype Request = Request(job: Id, capability: Capability, principal: Principal, arguments: Arguments)

  /** The two ledgers, the stored audit trail and everything the executor was ever asked. */
  datatype State = State(
    ledger: Budgets.Ledger, circuits: Breaker.Circuits, trail: seq<Invocation>, executed: seq<Request>)

  const START := State(map[], map[], [], [])

  datatype Answer =
    | Result(invocation: Invocation, content: Sanitizer.Content)
    | CapabilityDenied(reason: string, invocation: Invocation)
    | CapabilityFailed(reason: string, invocation: Invocation)
    | CapabilityNotFound
    | Escaped(error: Error)
    | RecordRefused

  // ---------------------------------------------------------------- one call

  /** `_AuditContext.record`, as far as its arguments determine it. */
  function RecordOf(d: Deployment, call: Call, c: Capability, decision: Decision, outcome: InvocationOutcome,
                    errorClass: ErrorClass): Invocation
  {
    Invocation(call.recordId, call.job, call.task, call.principal.tenant, c.server, c.name,
               SanitizeArguments(d.sensitive, call.arguments), d.digest(call.arguments), call.policyVersion,
               decision, outcome, errorClass, call.startedAt)
  }

  /** Build the record, hand it to the sink and answer with it; a record its own rules refuse is never stored. */
  function Answered(d: Deployment, s: State, record: Invocation, answer: Answer): (State, Answer) {
    if ValidRecord(d.sensitive, record) then (s.(trail := s.trail + [record]), answer)
    else (s, RecordRefused)
  }

  /** `_AuditContext.denied`: only a policy verdict is recorded as an authorization denial. */
  function Refuse(d: Deployment, s: State, call: Call, c: Capability, reason: string, errorClass: ErrorClass)
    : (State, Answer)
  {
    var record := RecordOf(d, call, c, if errorClass == PolicyDenied then Deny else Allow, Denied, errorClass);
    Answered(d, s, record, CapabilityDenied(reason, record))
  }

  /** The policy's reasons to refuse: the registry's own verdict and every other engine's. */
  function PolicyRefusals(call: Call, c: Capability): seq<string> {
    Refusals([RegistryRefusal(c, call.principal)] + call.verdicts)
  }

  /** `_check_approval`: the approval's own resource is the one it is checked for. */
  predicate ApprovalMissing(d: Deployment, call: Call, c: Capability) {
    c.requiresApproval &&
    match call.approval
    case None => true
    case Some(a) => !ValidFor(d.digest, a, c.server, c.name, a.resource, call.arguments, call.approvalAt)
  }

  /** `_invoke`. */
  function Invoke(d: Deployment, s: State, call: Call): (State, Answer) {
    match ResolveFor(d.registry, call.principal, call.server, call.name)
    case None => (s, CapabilityNotFound)
    case Some(c) =>
      if PolicyRefusals(call, c) != [] then Refuse(d, s, call, c, JoinTexts(PolicyRefusals(call, c)), PolicyDenied)
      else if ApprovalMissing(d, call, c) then Refuse(d, s, call, c, "requires reviewer approval", PolicyDenied)
      else
        var (ledger, claimed) := Budgets.Reserve(s.ledger, call.job, call.budget);
        if claimed.None? then Refuse(d, s.(ledger := ledger), call, c, "reached its tool-call budget", BudgetExhausted)
        else
          var circuits := Breaker.Look(d.breaker, s.circuits, c.server, call.checkedAt);
          var s1 := s.(ledger := ledger, circuits := circuits);
          if Breaker.Of(circuits, c.server).state == Breaker.Open
          then Refuse(d, s1, call, c, "circuit is open", UpstreamUnavailable)
          else Execute(d, s1, call, c)
  }

  /** `_execute`. A result that had to be cut is recorded as failed and still returned. */
  function Execute(d: Deployment, s0: State, call: Call, c: Capability): (State, Answer) {
    var s := s0.(executed := s0.executed + [Request(call.job, c, call.principal, call.arguments)]);
    match call.execution
    case Crashes(error) => (s, Escaped(error))
    case Upstream(message, errorClass) =>
      var circuits := Breaker.Failure(d.breaker, s.circuits, c.server, call.failedAt, call.stampedAt);
      var record := RecordOf(d, call, c, Allow, InvocationOutcome.Failed, errorClass);
      Answered(d, s.(circuits := circuits), record, CapabilityFailed(message, record))
    case Replies(raw) =>
      var content := Sanitizer.SanitizeResult(d.isFormat, raw, c.maxResultBytes).value;
      var record := if content.truncated
                    then RecordOf(d, call, c, Allow, InvocationOutcome.Failed, ResultTooLarge)
                    else RecordOf(d, call, c, Allow, Succeeded, NoError);
      Answered(d, s.(circuits := s.circuits[c.server := Breaker.FRESH_CIRCUIT]), record, Result(record, content))
  }

  function After(d: Deployment, calls: seq<Call>): State {
    if calls == [] then START
    else Invoke(d, After(d, calls[..|calls| - 1]), calls[|calls| - 1]).0
  }

  // ---------------------------------------------------------------- a call judged without the gateway's state

  /** The caller, the policy engines and the approval all permit the call. */
  ghost predicate Permitted(d: Deployment, call: Call) {
    && (call.server, call.name) in d.registry
    && var c := d.registry[(call.server, call.name)];
       && Entitled(c, call.principal)
       && (forall v :: v in call.verdicts ==> v.None?)
       && (c.requiresApproval ==>
            && call.approval.Some?
            && call.approval.value.status == Granted && call.approvalAt < call.approval.value.expiresAt
            && call.approval.value.server == call.server && call.approval.value.capability == call.name
            && call.approval.value.digest == d.digest(call.arguments))
  }

  /** How many calls the job has claimed in a run. */
  ghost function Claims(d: Deployment, calls: seq<Call>, job: Id): nat
    decreases |calls|, 0
  {
    if calls == [] then 0
    else
      var n := |calls| - 1;
      Claims(d, calls[..n], job) + if calls[n].job == job && Claiming(d, calls[..n], calls[n]) then 1 else 0
  }

  /** After the run `before`, the call is permitted and its job has not yet claimed its budget. */
  ghost predicate Claiming(d: Deployment, before: seq<Call>, call: Call)
    decreases |before|, 1
  {
    Permitted(d, call) && Claims(d, before, call.job) < call.budget.maxToolCalls
  }

  /** What the run told the breaker. */
  ghost function History(d: Deployment, calls: seq<Call>): seq<Breaker.Event> {
    if calls == [] then []
    else
      var n := |calls| - 1;
      var call := calls[n];
      var history := History(d, calls[..n]);
      if !Claiming(d, calls[..n], call) then history
      else
        var looked := history + [Breaker.Looked(call.server, call.checkedAt)];
        if !CircuitAllows(d, history, call) then looked
        else match call.execution
          case Replies(_) => looked + [Breaker.Succeeded(call.server)]
          case Upstream(_, _) => looked + [Breaker.FailedCall(call.server, call.failedAt, call.stampedAt)]
          case Crashes(_) => looked
  }

  ghost predicate CircuitAllows(d: Deployment, history: seq<Breaker.Event>, call: Call) {
    Breaker.StateByHistory(d.breaker, history, call.server, call.checkedAt) != Breaker.Open
  }

  /** After the run `before`, everything that governs a call lets it through to the executor. */
  ghost predicate Governed(d: Deployment, before: seq<Call>, call: Call) {
    Claiming(d, before, call) && CircuitAllows(d, History(d, before), call)
  }

  /** The clock never goes back, within a call or between calls. */
  ghost predicate InOrder(calls: seq<Call>, now: int) {
    calls == [] ||
    (var call := calls[|calls| - 1];
     call.checkedAt <= call.failedAt <= call.stampedAt <= now && InOrder(calls[..|calls| - 1], call.checkedAt))
  }

  /** A call to a registered capability, as the executor receives it. */
  function RequestOf(d: Deployment, call: Call): Request
    requires (call.server, call.name) in d.registry
  {
    Request(call.job, d.registry[(call.server, call.name)], call.principal, call.arguments)
  }

  /** The requests of the governed calls of a run. */
  ghost function GovernedRequests(d: Deployment, calls: seq<Call>): seq<Request> {
    if calls == [] then []
    else
      var n := |calls| - 1;
      var call := calls[n];
      GovernedRequests(d, calls[..n]) +
      if Governed(d, calls[..n], call)
      then [Request(call.job, d.registry[(call.server, call.name)], call.principal, call.arguments)]
      else []
  }

  /** The three stateless guards pass exactly for a permitted call. */
  lemma GuardsArePermission(d: Deployment, call: Call)
    ensures var r := ResolveFor(d.registry, call.principal, call.server, call.name);
            Permitted(d, call) <==>
            r.Some? && PolicyRefusals(call, r.value) == [] && !ApprovalMissing(d, call, r.value)
  {
    var r := ResolveFor(d.registry, call.principal, call.server, call.name);
    if (call.server, call.name) in d.registry {
      OnlyPlannersSeeMore(d.registry[(call.server, call.name)], call.principal);
    }
    if r.Some? {
      var all := [RegistryRefusal(r.value, call.principal)] + call.verdicts;
      NoRefusals(all);
      assert all[0] in all;
      assert forall v :: v in all <==> v == all[0] || v in call.verdicts;
    }
  }

  // ---------------------------------------------------------------- the gateway keeps to it

  lemma {:induction false} HistoryIsMonotone(d: Deployment, calls: seq<Call>, now: int)
    requires InOrder(calls, now)
    ensures Breaker.Monotone(History(d, calls), now)
  {
    if calls != [] {
      var n := |calls| - 1;
      var call, history := calls[n], History(d, calls[..n]);
      HistoryIsMonotone(d, calls[..n], call.checkedAt);
      LaterIsMonotone(history, call.checkedAt, now);
      var looked := history + [Breaker.Looked(call.server, call.checkedAt)];
      LookedIsMonotone(history, call, now);
      hide Breaker.Monotone, Claiming, CircuitAllows;
    }
  }

  lemma LookedIsMonotone(history: seq<Breaker.Event>, call: Call, now: int)
    requires Breaker.Monotone(history, call.checkedAt) && call.checkedAt <= call.failedAt <= call.stampedAt <= now
    ensures var looked := history + [Breaker.Looked(call.server, call.checkedAt)];
            && Breaker.Monotone(looked, now)
            && Breaker.Monotone(looked + [Breaker.Succeeded(call.server)], now)
            && Breaker.Monotone(looked + [Breaker.FailedCall(call.server, call.failedAt, call.stampedAt)], now)
  {
    var looked := history + [Breaker.Looked(call.server, call.checkedAt)];
    assert looked[..|looked| - 1] == history;
    forall e: Breaker.Event
      ensures (looked + [e])[..|looked + [e]| - 1] == looked
    {
    }
  }

  lemma {:induction false} LaterIsMonotone(history: seq<Breaker.Event>, now: int, later: int)
    requires Breaker.Monotone(history, now) && now <= later
    ensures Breaker.Monotone(history, later)
  {
    if history != [] && history[|history| - 1].Succeeded? {
      LaterIsMonotone(history[..|history| - 1], now, later);
    }
  }

  lemma BreakerAppended(cfg: Breaker.Config, history: seq<Breaker.Event>, e: Breaker.Event)
    ensures Breaker.After(cfg, history + [e]) == Breaker.Next(cfg, Breaker.After(cfg, history), e)
  {
    assert (history + [e])[..|history + [e]| - 1] == history;
  }

  /** The gateway's state is what the run alone determines. */
  ghost predicate Tracks(d: Deployment, s: State, calls: seq<Call>) {
    && (forall job :: Budgets.SpentBy(s.ledger, job).toolCalls == Claims(d, calls, job))
    && s.circuits == Breaker.After(d.breaker, History(d, calls))
    && s.executed == GovernedRequests(d, calls)
  }

  lemma RefusingOnlyRecords(d: Deployment, s: State, call: Call, c: Capability, reason: string, errorClass: ErrorClass)
    ensures Refuse(d, s, call, c, reason, errorClass).0 ==
        s.(trail := Refuse(d, s, call, c, reason, errorClass).0.trail)
  {
  }

  lemma ExecutingReports(d: Deployment, s: State, call: Call, c: Capability)
    ensures var t := Execute(d, s, call, c).0;
            && t.ledger == s.ledger
            && t.executed == s.executed + [Request(call.job, c, call.principal, call.arguments)]
            && t.circuits == Reported(d, s.circuits, c.server, call)
  {
    hide RecordOf, ValidRecord, Breaker.Failure, Sanitizer.SanitizeResult;
  }

  /** The circuits once the executor's answer was reported. */
  function Reported(d: Deployment, circuits: Breaker.Circuits, server: string, call: Call): Breaker.Circuits {
    match call.execution
    case Replies(_) => circuits[server := Breaker.FRESH_CIRCUIT]
    case Upstream(_, _) => Breaker.Failure(d.breaker, circuits, server, call.failedAt, call.stampedAt)
    case Crashes(_) => circuits
  }

  lemma CircuitCheck(d: Deployment, circuits: Breaker.Circuits, history: seq<Breaker.Event>, call: Call)
    requires circuits == Breaker.After(d.breaker, history) && Breaker.Monotone(history, call.checkedAt)
    ensures CircuitAllows(d, history, call) <==>
            var looked := Breaker.Look(d.breaker, circuits, call.server, call.checkedAt);
            Breaker.Of(looked, call.server).state != Breaker.Open
  {
    Breaker.BreakerClosedForm(d.breaker, history, call.server, call.checkedAt);
  }

  /** What a call does to the counters, the circuits and the executor, branch by branch. */
  ghost predicate Effects(d: Deployment, s: State, before: seq<Call>, call: Call, t: State) {
    if !Claiming(d, before, call) then
      && (forall job :: Budgets.SpentBy(t.ledger, job) == Budgets.SpentBy(s.ledger, job))
      && t.circuits == s.circuits && t.executed == s.executed
    else
      && (forall job :: job != call.job ==> Budgets.SpentBy(t.ledger, job) == Budgets.SpentBy(s.ledger, job))
      && Budgets.SpentBy(t.ledger, call.job).toolCalls == Budgets.SpentBy(s.ledger, call.job).toolCalls + 1
      && var looked := Breaker.Look(d.breaker, s.circuits, call.server, call.checkedAt);
         if !Governed(d, before, call) then t.circuits == looked && t.executed == s.executed
         else
           && t.executed == s.executed + [RequestOf(d, call)]
           && t.circuits == Reported(d, looked, call.server, call)
  }

  lemma NotPermitted(d: Deployment, s: State, call: Call)
    requires !Permitted(d, call)
    ensures var t := Invoke(d, s, call).0; t == s.(trail := t.trail)
  {
    GuardsArePermission(d, call);
    hide Permitted, PolicyRefusals, ApprovalMissing, RecordOf, ValidRecord, ResolveFor, Execute;
  }

  lemma PermittedCapability(d: Deployment, call: Call) returns (c: Capability)
    requires Permitted(d, call)
    ensures c == d.registry[(call.server, call.name)] && c.server == call.server && c.name == call.name
    ensures ResolveFor(d.registry, call.principal, call.server, call.name) == Some(c)
    ensures PolicyRefusals(call, c) == [] && !ApprovalMissing(d, call, c)
  {
    GuardsArePermission(d, call);
    c := d.registry[(call.server, call.name)];
  }

  lemma OverBudget(d: Deployment, s: State, call: Call)
    requires Permitted(d, call) && Budgets.SpentBy(s.ledger, call.job).toolCalls >= call.budget.maxToolCalls
    ensures var t := Invoke(d, s, call).0;
            && t == s.(ledger := t.ledger, trail := t.trail)
            && forall job :: Budgets.SpentBy(t.ledger, job) == Budgets.SpentBy(s.ledger, job)
  {
    var c := PermittedCapability(d, call);
    hide Permitted, PolicyRefusals, ApprovalMissing, RecordOf, ValidRecord, ResolveFor, Execute;
  }

  lemma WithinBudget(d: Deployment, s: State, call: Call)
    requires Permitted(d, call) && Budgets.SpentBy(s.ledger, call.job).toolCalls < call.budget.maxToolCalls
    ensures var c := d.registry[(call.server, call.name)];
            var circuits := Breaker.Look(d.breaker, s.circuits, c.server, call.checkedAt);
            var s1 := s.(ledger := Budgets.Reserve(s.ledger, call.job, call.budget).0, circuits := circuits);
            Invoke(d, s, call) == if Breaker.Of(circuits, c.server).state == Breaker.Open
                                  then Refuse(d, s1, call, c, "circuit is open", UpstreamUnavailable)
                                  else Execute(d, s1, call, c)
  {
    var c := PermittedCapability(d, call);
    hide Permitted, PolicyRefusals, ApprovalMissing, RecordOf, ValidRecord, ResolveFor, Execute, Refuse;
    hide Breaker.Look, Breaker.Of;
  }

  lemma StepEffects(d: Deployment, s: State, before: seq<Call>, call: Call)
    requires Tracks(d, s, before) && Breaker.Monotone(History(d, before), call.checkedAt)
    ensures Effects(d, s, before, call, Invoke(d, s, call).0)
  {
    assert Budgets.SpentBy(s.ledger, call.job).toolCalls == Claims(d, before, call.job);
    assert s.circuits == Breaker.After(d.breaker, History(d, before));
    hide Tracks, Permitted, History, Claims, Reported, Refuse, Execute, Breaker.Look, Breaker.Of, Breaker.After;
    hide CircuitAllows, Invoke, Breaker.Monotone;
    if !Permitted(d, call) {
      NotPermitted(d, s, call);
    } else if !Claiming(d, before, call) {
      OverBudget(d, s, call);
    } else {
      CircuitCheck(d, s.circuits, History(d, before), call);
      ClaimedEffects(d, s, call);
    }
  }

  lemma ClaimedEffects(d: Deployment, s: State, call: Call)
    requires Permitted(d, call) && Budgets.SpentBy(s.ledger, call.job).toolCalls < call.budget.maxToolCalls
    ensures var t := Invoke(d, s, call).0;
            var looked := Breaker.Look(d.breaker, s.circuits, call.server, call.checkedAt);
            && (forall job :: job != call.job ==> Budgets.SpentBy(t.ledger, job) == Budgets.SpentBy(s.ledger, job))
            && Budgets.SpentBy(t.ledger, call.job).toolCalls == Budgets.SpentBy(s.ledger, call.job).toolCalls + 1
            && if Breaker.Of(looked, call.server).state == Breaker.Open
               then t.circuits == looked && t.executed == s.executed
               else
                 && t.executed == s.executed + [RequestOf(d, call)]
                 && t.circuits == Reported(d, looked, call.server, call)
  {
    WithinBudget(d, s, call);
    hide Permitted, Reported, Refuse, Execute, Breaker.Look, Breaker.Of, Invoke;
    var c := d.registry[(call.server, call.name)];
    var circuits := Breaker.Look(d.breaker, s.circuits, c.server, call.checkedAt);
    var s1 := s.(ledger := Budgets.Reserve(s.ledger, call.job, call.budget).0, circuits := circuits);
    RefusingOnlyRecords(d, s1, call, c, "circuit is open", UpstreamUnavailable);
    ExecutingReports(d, s1, call, c);
  }

  lemma HistoryExtended(d: Deployment, before: seq<Call>, call: Call)
    ensures Breaker.After(d.breaker, History(d, before + [call])) ==
            var circuits := Breaker.After(d.breaker, History(d, before));
            var looked := Breaker.Look(d.breaker, circuits, call.server, call.checkedAt);
            if !Claiming(d, before, call) then circuits
            else if !Governed(d, before, call) then looked
            else Reported(d, looked, call.server, call)
  {
    var calls, history := before + [call], History(d, before);
    assert calls[..|calls| - 1] == before;
    var looked := history + [Breaker.Looked(call.server, call.checkedAt)];
    BreakerAppended(d.breaker, history, Breaker.Looked(call.server, call.checkedAt));
    BreakerAppended(d.breaker, looked, Breaker.Succeeded(call.server));
    BreakerAppended(d.breaker, looked, Breaker.FailedCall(call.server, call.failedAt, call.stampedAt));
    hide Breaker.After, Breaker.StateByHistory, Breaker.Failure, Breaker.Look, Permitted, Claims, CircuitAllows;
  }

  lemma StepTracks(d: Deployment, s: State, before: seq<Call>, call: Call)
    requires Tracks(d, s, before) && Effects(d, s, before, call, Invoke(d, s, call).0)
    ensures Tracks(d, Invoke(d, s, call).0, before + [call])
  {
    var calls, t := before + [call], Invoke(d, s, call).0;
    assert calls[..|calls| - 1] == before;
    HistoryExtended(d, before, call);
    hide Breaker.After, Breaker.Look, Permitted, Invoke, History, Reported, CircuitAllows;
    hide Budgets.SpentBy;
    forall job
      ensures Budgets.SpentBy(t.ledger, job).toolCalls == Claims(d, calls, job)
    {
      assert Claims(d, calls, job) ==
             Claims(d, before, job) + if call.job == job && Claiming(d, before, call) then 1 else 0;
    }
  }

  /**
   Over every run under a monotone clock the gateway's state is determined without it: each
   job's counter is the number of calls it claimed, the circuits are those of the reported
   history, and the executor received exactly the governed calls, in order.
   */
  lemma {:induction false} ExecutedExactlyWhenGoverned(d: Deployment, calls: seq<Call>, now: int)
    requires InOrder(calls, now)
    ensures Tracks(d, After(d, calls), calls)
  {
    if calls != [] {
      var n := |calls| - 1;
      ExecutedExactlyWhenGoverned(d, calls[..n], calls[n].checkedAt);
      HistoryIsMonotone(d, calls[..n], calls[n].checkedAt);
      StepEffects(d, After(d, calls[..n]), calls[..n], calls[n]);
      StepTracks(d, After(d, calls[..n]), calls[..n], calls[n]);
      assert calls == calls[..n] + [calls[n]];
    }
  }

  /**
   The executor may receive the request for the call: it is for the registered capability, from
   a caller entitled to it, every policy agreed, and a capability with side effects was approved
   for these very arguments.
   */
  ghost predicate Rightful(d: Deployment, call: Call, r: Request) {
    && (call.server, call.name) in d.registry && r.capability == d.registry[(call.server, call.name)]
    && r.job == call.job && r.principal == call.principal && r.arguments == call.arguments
    && Entitled(r.capability, r.principal)
    && (forall v :: v in call.verdicts ==> v.None?)
    && (r.capability.sideEffecting || r.capability.requiresApproval ==>
          && call.approval.Some? && call.approval.value.status == Granted
          && call.approvalAt < call.approval.value.expiresAt
          && call.approval.value.server == call.server && call.approval.value.capability == call.name
          && call.approval.value.digest == d.digest(r.arguments))
  }

  ghost predicate AllRightful(d: Deployment, calls: seq<Call>, requests: seq<Request>) {
    forall r :: r in requests ==> exists call :: call in calls && Rightful(d, call, r)
  }

  lemma {:induction false} GovernedAreRightful(d: Deployment, calls: seq<Call>)
    ensures AllRightful(d, calls, GovernedRequests(d, calls))
  {
    if calls != [] {
      var n := |calls| - 1;
      var call := calls[n];
      GovernedAreRightful(d, calls[..n]);
      assert forall c :: c in calls[..n] ==> c in calls;
      assert call in calls;
      if Governed(d, calls[..n], call) {
        assert Permitted(d, call);
        assert Rightful(d, call, RequestOf(d, call));
        assert GovernedRequests(d, calls) == GovernedRequests(d, calls[..n]) + [RequestOf(d, call)];
      }
      hide Rightful, Governed, Permitted;
    }
  }

  /**
   Over every run, whatever reached the executor was asked for by one of its calls, and that
   call had every right to it.
   */
  lemma OnlyTheEntitledAreServed(d: Deployment, calls: seq<Call>, now: int)
    requires InOrder(calls, now)
    ensures AllRightful(d, calls, After(d, calls).executed)
  {
    hide GovernedRequests, After, AllRightful;
    ExecutedExactlyWhenGoverned(d, calls, now);
    GovernedAreRightful(d, calls);
  }
}
