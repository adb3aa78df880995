/** What the audit trail of src/research_platform/mcp/gateway.py says about a run. */
module GatewayAudit {
  import opened Basics
  import opened Capabilities
  import opened Gateway
  import Budgets
  import Breaker
  import Sanitizer
  import Utf8
  import JobModel

  // ---------------------------------------------------------------- the record a call leaves

  /** A record of the call with the given verdicts. */
  ghost predicate Describes(d: Deployment, call: Call, r: Invocation, decision: Decision, outcome: InvocationOutcome,
                            errorClass: ErrorClass)
  {
    && r.id == call.recordId && r.job == call.job && r.task == call.task && r.tenant == call.principal.tenant
    && r.server == call.server && r.capability == call.name && r.digest == d.digest(call.arguments)
    && r.arguments.Keys == call.arguments.Keys
    && (forall name :: name in call.arguments ==>
          r.arguments[name] == if d.sensitive(name) then "[redacted]" else call.arguments[name])
    && r.policyVersion == call.policyVersion && r.startedAt == call.startedAt
    && r.decision == decision && r.outcome == outcome && r.errorClass == errorClass
  }

  /** The capability is registered and the caller may know of it. */
  ghost predicate Discoverable(d: Deployment, call: Call) {
    && (call.server, call.name) in d.registry
    && var c := d.registry[(call.server, call.name)];
       Entitled(c, call.principal) || (InReach(c, call.principal) && call.principal.agentRole == Some(JobModel.Planner))
  }

  /** A governed call whose answer escapes the gateway: an uncaught exception, or an error of class NONE. */
  ghost predicate Escapes(call: Call) {
    call.execution.Crashes? || (call.execution.Upstream? && call.execution.errorClass == NoError)
  }

  /** The reply was longer, once cleaned, than the capability lets through. */
  ghost predicate TooLarge(d: Deployment, call: Call)
    requires Discoverable(d, call) && call.execution.Replies?
  {
    var c := d.registry[(call.server, call.name)];
    |Utf8.Encode(Sanitizer.Cleaned(d.isFormat, call.execution.raw))| > c.maxResultBytes
  }

  /** What the trail should gain from a call made after the run `before`. */
  ghost predicate Recorded(d: Deployment, before: seq<Call>, call: Call, gained: seq<Invocation>) {
    if !Discoverable(d, call) then gained == []
    else if Governed(d, before, call) && Escapes(call) then gained == []
    else
      && |gained| == 1
      && var r := gained[0];
         if !Permitted(d, call) then Describes(d, call, r, Deny, Denied, PolicyDenied)
         else if !Claiming(d, before, call) then Describes(d, call, r, Allow, Denied, BudgetExhausted)
         else if !Governed(d, before, call) then Describes(d, call, r, Allow, Denied, UpstreamUnavailable)
         else if call.execution.Upstream? then Describes(d, call, r, Allow, Failed, call.execution.errorClass)
         else if TooLarge(d, call) then Describes(d, call, r, Allow, Failed, ResultTooLarge)
         else Describes(d, call, r, Allow, Succeeded, NoError)
  }

  /** Why a call that is not governed is refused: everything the policy has against it, or the first thing missing. */
  ghost function Objection(d: Deployment, before: seq<Call>, call: Call): string
    requires Discoverable(d, call)
  {
    var objections := PolicyRefusals(call, d.registry[(call.server, call.name)]);
    if objections != [] then JoinTexts(objections)
    else if !Permitted(d, call) then "requires reviewer approval"
    else if !Claiming(d, before, call) then "reached its tool-call budget"
    else "circuit is open"
  }

  lemma ObjectionTo(d: Deployment, before: seq<Call>, call: Call)
    requires Discoverable(d, call)
    ensures !Permitted(d, call) ==> Objection(d, before, call) == Objection(d, [], call)
    ensures Permitted(d, call) ==>
              Objection(d, before, call)
              == if !Claiming(d, before, call) then "reached its tool-call budget" else "circuit is open"
  {
    GuardsArePermission(d, call);
    hide Permitted, ApprovalMissing, PolicyRefusals;
  }

  /** The record built for a call describes it, and is valid when its verdicts go together. */
  lemma RecordDescribes(d: Deployment, call: Call, c: Capability, decision: Decision, outcome: InvocationOutcome,
                        errorClass: ErrorClass)
    requires c.server == call.server && c.name == call.name
    ensures var r := RecordOf(d, call, c, decision, outcome, errorClass);
            && Describes(d, call, r, decision, outcome, errorClass)
            && (ValidRecord(d.sensitive, r) <==>
                  && (decision == Deny ==> outcome == Denied && errorClass == PolicyDenied)
                  && (outcome == Denied || outcome == Failed ==> errorClass != NoError)
                  && (outcome == Succeeded ==> errorClass == NoError))
  {
    SanitizingRedacts(d.sensitive, call.arguments);
    hide SanitizeArguments;
  }

  lemma RefusalIsRecorded(d: Deployment, s: State, call: Call, c: Capability, reason: string, errorClass: ErrorClass)
    requires errorClass != NoError && c.server == call.server && c.name == call.name
    ensures var (t, answer) := Refuse(d, s, call, c, reason, errorClass);
            && answer.CapabilityDenied? && answer.reason == reason && t.trail == s.trail + [answer.invocation]
            && Describes(d, call, answer.invocation,
                         if errorClass == PolicyDenied then Deny else Allow, Denied, errorClass)
  {
    RecordDescribes(d, call, c, if errorClass == PolicyDenied then Deny else Allow, Denied, errorClass);
    hide Describes, RecordOf, ValidRecord;
  }

  /** A call that came to the executor: what it records and what it answers. */
  ghost predicate Executed(d: Deployment, s: State, call: Call, t: State, answer: Answer) {
    Discoverable(d, call) &&
    match call.execution
    case Crashes(error) => t.trail == s.trail && answer == Escaped(error)
    case Upstream(message, errorClass) =>
      if errorClass == NoError then t.trail == s.trail && answer.RecordRefused?
      else
        && answer.CapabilityFailed? && answer.reason == message && t.trail == s.trail + [answer.invocation]
        && Describes(d, call, answer.invocation, Allow, Failed, errorClass)
    case Replies(raw) =>
      && answer.Result? && t.trail == s.trail + [answer.invocation]
      && Utf8.LongestFitting(answer.content.text, Sanitizer.Cleaned(d.isFormat, raw),
                             d.registry[(call.server, call.name)].maxResultBytes)
      && if TooLarge(d, call) then Describes(d, call, answer.invocation, Allow, Failed, ResultTooLarge)
         else Describes(d, call, answer.invocation, Allow, Succeeded, NoError)
  }

  lemma ExecutionIsRecorded(d: Deployment, s: State, call: Call)
    requires Discoverable(d, call) && !d.isFormat(' ')
    ensures var (t, answer) := Execute(d, s, call, d.registry[(call.server, call.name)]);
            Executed(d, s, call, t, answer)
  {
    var c := d.registry[(call.server, call.name)];
    if call.execution.Upstream? {
      RecordDescribes(d, call, c, Allow, Failed, call.execution.errorClass);
    } else if call.execution.Replies? {
      Sanitizer.SanitizedResult(d.isFormat, call.execution.raw, c.maxResultBytes);
      RecordDescribes(d, call, c, Allow, Failed, ResultTooLarge);
      RecordDescribes(d, call, c, Allow, Succeeded, NoError);
    }
    hide Describes, RecordOf, ValidRecord, Breaker.Failure, Sanitizer.Strip, Sanitizer.Collapse, Utf8.Encode;
    hide Utf8.DecodeIgnoring, Utf8.LongestFitting, WellFormed, InReach, Entitled;
  }

  lemma UnpermittedIsRecorded(d: Deployment, s: State, call: Call)
    requires !Permitted(d, call)
    ensures var (t, answer) := Invoke(d, s, call);
            if !Discoverable(d, call) then t.trail == s.trail && answer.CapabilityNotFound?
            else
              && answer.CapabilityDenied? && t.trail == s.trail + [answer.invocation]
              && answer.reason == Objection(d, [], call)
              && Describes(d, call, answer.invocation, Deny, Denied, PolicyDenied)
  {
    GuardsArePermission(d, call);
    if (call.server, call.name) in d.registry {
      OnlyPlannersSeeMore(d.registry[(call.server, call.name)], call.principal);
    }
    if Discoverable(d, call) {
      var c := d.registry[(call.server, call.name)];
      if PolicyRefusals(call, c) != [] {
        RefusalIsRecorded(d, s, call, c, JoinTexts(PolicyRefusals(call, c)), PolicyDenied);
      } else {
        RefusalIsRecorded(d, s, call, c, "requires reviewer approval", PolicyDenied);
      }
    }
    hide Permitted, PolicyRefusals, ApprovalMissing, Refuse, Execute, Describes;
  }

  lemma OverBudgetIsRecorded(d: Deployment, s: State, call: Call)
    requires Permitted(d, call) && Budgets.SpentBy(s.ledger, call.job).toolCalls >= call.budget.maxToolCalls
    ensures var (t, answer) := Invoke(d, s, call);
            && answer.CapabilityDenied? && t.trail == s.trail + [answer.invocation]
            && answer.reason == "reached its tool-call budget"
            && Describes(d, call, answer.invocation, Allow, Denied, BudgetExhausted)
  {
    var c := PermittedCapability(d, call);
    var s1 := s.(ledger := Budgets.Reserve(s.ledger, call.job, call.budget).0);
    RefusalIsRecorded(d, s1, call, c, "reached its tool-call budget", BudgetExhausted);
    hide Permitted, PolicyRefusals, ApprovalMissing, Refuse, Execute, Describes, ResolveFor;
  }

  lemma ClaimedIsRecorded(d: Deployment, s: State, call: Call)
    requires Permitted(d, call) && Budgets.SpentBy(s.ledger, call.job).toolCalls < call.budget.maxToolCalls
    requires !d.isFormat(' ')
    ensures var (t, answer) := Invoke(d, s, call);
            var looked := Breaker.Look(d.breaker, s.circuits, call.server, call.checkedAt);
            if Breaker.Of(looked, call.server).state != Breaker.Open
            then Executed(d, s, call, t, answer)
            else
              && answer.CapabilityDenied? && t.trail == s.trail + [answer.invocation]
              && answer.reason == "circuit is open"
              && Describes(d, call, answer.invocation, Allow, Denied, UpstreamUnavailable)
  {
    WithinBudget(d, s, call);
    hide Permitted, Refuse, Execute, Breaker.Look, Breaker.Of, Invoke, Describes, TooLarge;
    hide Utf8.LongestFitting, Sanitizer.Cleaned, Budgets.Reserve;
    var c := d.registry[(call.server, call.name)];
    var circuits := Breaker.Look(d.breaker, s.circuits, c.server, call.checkedAt);
    var s1 := s.(ledger := Budgets.Reserve(s.ledger, call.job, call.budget).0, circuits := circuits);
    RefusalIsRecorded(d, s1, call, c, "circuit is open", UpstreamUnavailable);
    ExecutionIsRecorded(d, s1, call);
  }

  /** Each call of a run leaves exactly the record it should, and no other record is ever touched. */
  ghost predicate OneRecord(d: Deployment, s: State, before: seq<Call>, call: Call) {
    exists gained :: Recorded(d, before, call, gained) && Invoke(d, s, call).0.trail == s.trail + gained
  }

  /** What a call made after the run `before` answers: the execution, or why there is none. */
  ghost predicate AnsweredRight(d: Deployment, s: State, before: seq<Call>, call: Call) {
    var (t, answer) := Invoke(d, s, call);
    if Governed(d, before, call) then Executed(d, s, call, t, answer)
    else if Discoverable(d, call) then answer.CapabilityDenied? && answer.reason == Objection(d, before, call)
    else answer.CapabilityNotFound?
  }

  lemma EveryCallIsAudited(d: Deployment, s: State, before: seq<Call>, call: Call)
    requires Tracks(d, s, before) && Breaker.Monotone(History(d, before), call.checkedAt) && !d.isFormat(' ')
    ensures OneRecord(d, s, before, call) && AnsweredRight(d, s, before, call)
  {
    assert Budgets.SpentBy(s.ledger, call.job).toolCalls == Claims(d, before, call.job);
    assert s.circuits == Breaker.After(d.breaker, History(d, before));
    hide Tracks, Permitted, History, Claims, Breaker.After, Invoke, Breaker.Monotone, OneRecord, AnsweredRight;
    if Claiming(d, before, call) {
      ClaimedIsAudited(d, s, before, call);
    } else {
      UnclaimedIsAudited(d, s, before, call);
    }
  }

  lemma UnclaimedIsAudited(d: Deployment, s: State, before: seq<Call>, call: Call)
    requires !Claiming(d, before, call) && Budgets.SpentBy(s.ledger, call.job).toolCalls == Claims(d, before, call.job)
    ensures OneRecord(d, s, before, call) && AnsweredRight(d, s, before, call)
  {
    if Discoverable(d, call) {
      ObjectionTo(d, before, call);
    }
    hide Permitted, History, Claims, Invoke, Describes, Objection, CircuitAllows, Executed, TooLarge;
    var gained := [];
    if Permitted(d, call) {
      OverBudgetIsRecorded(d, s, call);
      gained := [Invoke(d, s, call).1.invocation];
    } else {
      UnpermittedIsRecorded(d, s, call);
      if Discoverable(d, call) {
        gained := [Invoke(d, s, call).1.invocation];
      }
    }
    assert s.trail + [] == s.trail;
    assert Recorded(d, before, call, gained);
  }

  lemma ClaimedIsAudited(d: Deployment, s: State, before: seq<Call>, call: Call)
    requires Claiming(d, before, call) && Budgets.SpentBy(s.ledger, call.job).toolCalls == Claims(d, before, call.job)
    requires s.circuits == Breaker.After(d.breaker, History(d, before))
    requires Breaker.Monotone(History(d, before), call.checkedAt) && !d.isFormat(' ')
    ensures OneRecord(d, s, before, call) && AnsweredRight(d, s, before, call)
  {
    CircuitCheck(d, s.circuits, History(d, before), call);
    ClaimedIsRecorded(d, s, call);
    ObjectionTo(d, before, call);
    hide Permitted, History, Claims, Invoke, Describes, Objection, CircuitAllows, TooLarge, Breaker.After, Executed;
    hide Breaker.Look, Breaker.Of, Breaker.Monotone, Utf8.LongestFitting, Sanitizer.Cleaned;
    if Governed(d, before, call) {
      ExecutedIsAudited(d, s, before, call);
    } else {
      assert Recorded(d, before, call, [Invoke(d, s, call).1.invocation]);
    }
  }

  lemma ExecutedIsAudited(d: Deployment, s: State, before: seq<Call>, call: Call)
    requires Governed(d, before, call) && Executed(d, s, call, Invoke(d, s, call).0, Invoke(d, s, call).1)
    ensures OneRecord(d, s, before, call)
  {
    assert Claiming(d, before, call) && Permitted(d, call);
    hide Permitted, Claiming, Governed, Invoke, Describes, TooLarge, Utf8.LongestFitting, Sanitizer.Cleaned;
    assert s.trail + [] == s.trail;
    assert Recorded(d, before, call, if Escapes(call) then [] else [Invoke(d, s, call).1.invocation]);
  }

  /** The record describes one of the calls. */
  ghost predicate OfSomeCall(d: Deployment, calls: seq<Call>, r: Invocation) {
    exists call :: call in calls && Describes(d, call, r, r.decision, r.outcome, r.errorClass)
  }

  /**
   Over every run, each stored record describes one of its calls: who asked what of which
   capability, with the digest of the arguments as given and with exactly the sensitive values
   redacted.
   */
  lemma {:induction false} TrailDescribesCalls(d: Deployment, calls: seq<Call>, now: int)
    requires InOrder(calls, now) && !d.isFormat(' ')
    ensures forall r :: r in After(d, calls).trail ==> OfSomeCall(d, calls, r)
  {
    if calls == [] {
      return;
    }
    var n := |calls| - 1;
    var before, call := calls[..n], calls[n];
    var s := After(d, before);
    assert After(d, calls) == Invoke(d, s, call).0;
    assert InOrder(before, call.checkedAt);
    assert forall c :: c in before ==> c in calls;
    assert call in calls;
    hide Tracks, OneRecord, Invoke, After, InOrder, Breaker.Monotone, Describes, Executed, Recorded;
    TrailDescribesCalls(d, before, call.checkedAt);
    ExecutedExactlyWhenGoverned(d, before, call.checkedAt);
    HistoryIsMonotone(d, before, call.checkedAt);
    EveryCallIsAudited(d, s, before, call);
    NewRecordDescribes(d, s, before, call, calls);
  }

  lemma NewRecordDescribes(d: Deployment, s: State, before: seq<Call>, call: Call, calls: seq<Call>)
    requires OneRecord(d, s, before, call) && call in calls && forall c :: c in before ==> c in calls
    requires forall r :: r in s.trail ==> OfSomeCall(d, before, r)
    ensures forall r :: r in Invoke(d, s, call).0.trail ==> OfSomeCall(d, calls, r)
  {
    hide Invoke, Discoverable, Governed, Claiming, Permitted, TooLarge, Recorded;
    var gained :| Recorded(d, before, call, gained) && Invoke(d, s, call).0.trail == s.trail + gained;
    RecordedDescribes(d, before, call, gained);
    hide Describes;
    forall r | r in s.trail + gained
      ensures OfSomeCall(d, calls, r)
    {
      if r in s.trail {
        var c :| c in before && Describes(d, c, r, r.decision, r.outcome, r.errorClass);
        assert c in calls;
      }
    }
  }

  lemma RecordedDescribes(d: Deployment, before: seq<Call>, call: Call, gained: seq<Invocation>)
    requires Recorded(d, before, call, gained)
    ensures forall r :: r in gained ==> Describes(d, call, r, r.decision, r.outcome, r.errorClass)
  {
    hide Discoverable, Governed, Claiming, Permitted, TooLarge;
  }

  // ---------------------------------------------------------------- counting over a run

  /** Records of the job whose call was authorized. */
  function Authorized(trail: seq<Invocation>, job: Id): nat {
    if trail == [] then 0
    else Authorized(trail[..|trail| - 1], job) +
         var r := trail[|trail| - 1]; if r.job == job && r.decision == Allow then 1 else 0
  }

  /** Records of the job refused before execution for the given reason. */
  function RefusedFor(trail: seq<Invocation>, job: Id, errorClass: ErrorClass): nat {
    if trail == [] then 0
    else RefusedFor(trail[..|trail| - 1], job, errorClass) +
         var r := trail[|trail| - 1];
         if r.job == job && r.decision == Allow && r.outcome == Denied && r.errorClass == errorClass then 1 else 0
  }

  /** Requests of the job the executor received. */
  function Executions(executed: seq<Request>, job: Id): nat {
    if executed == [] then 0
    else Executions(executed[..|executed| - 1], job) + if executed[|executed| - 1].job == job then 1 else 0
  }

  /** Governed calls of the job whose answer escaped, so that they left no record. */
  ghost function Unrecorded(d: Deployment, calls: seq<Call>, job: Id): nat {
    if calls == [] then 0
    else
      var n := |calls| - 1;
      Unrecorded(d, calls[..n], job) +
      if calls[n].job == job && Governed(d, calls[..n], calls[n]) && Escapes(calls[n]) then 1 else 0
  }

  lemma CountsAppended(trail: seq<Invocation>, r: Invocation, job: Id, errorClass: ErrorClass)
    ensures Authorized(trail + [r], job) ==
            Authorized(trail, job) + if r.job == job && r.decision == Allow then 1 else 0
    ensures RefusedFor(trail + [r], job, errorClass) == RefusedFor(trail, job, errorClass) +
              if r.job == job && r.decision == Allow && r.outcome == Denied && r.errorClass == errorClass then 1 else 0
  {
    assert (trail + [r])[..|trail + [r]| - 1] == trail;
  }

  lemma ExecutionsAppended(executed: seq<Request>, r: Request, job: Id)
    ensures Executions(executed + [r], job) == Executions(executed, job) + if r.job == job then 1 else 0
  {
    assert (executed + [r])[..|executed + [r]| - 1] == executed;
  }

  /** Every claimed call is accounted for, by an authorized record, an execution or an escaped answer. */
  ghost predicate Balanced(d: Deployment, s: State, calls: seq<Call>, job: Id) {
    && Claims(d, calls, job) + RefusedFor(s.trail, job, BudgetExhausted) ==
        Authorized(s.trail, job) + Unrecorded(d, calls, job)
    && Claims(d, calls, job) == Executions(s.executed, job) + RefusedFor(s.trail, job, UpstreamUnavailable)
  }

  lemma RunExtended(d: Deployment, before: seq<Call>, call: Call, job: Id)
    ensures Claims(d, before + [call], job) ==
            Claims(d, before, job) + if call.job == job && Claiming(d, before, call) then 1 else 0
    ensures Unrecorded(d, before + [call], job) ==
            Unrecorded(d, before, job) + if call.job == job && Governed(d, before, call) && Escapes(call) then 1 else 0
  {
    assert (before + [call])[..|before + [call]| - 1] == before;
  }

  lemma TrailExtended(d: Deployment, trail: seq<Invocation>, before: seq<Call>, call: Call, gained: seq<Invocation>,
                      job: Id)
    requires Recorded(d, before, call, gained)
    ensures Authorized(trail + gained, job) == Authorized(trail, job) +
            if call.job == job && Permitted(d, call) && !(Governed(d, before, call) && Escapes(call)) then 1 else 0
    ensures RefusedFor(trail + gained, job, BudgetExhausted) == RefusedFor(trail, job, BudgetExhausted) +
            if call.job == job && Permitted(d, call) && !Claiming(d, before, call) then 1 else 0
    ensures RefusedFor(trail + gained, job, UpstreamUnavailable) == RefusedFor(trail, job, UpstreamUnavailable) +
            if call.job == job && Claiming(d, before, call) && !Governed(d, before, call) then 1 else 0
  {
    assert Permitted(d, call) ==> Discoverable(d, call);
    assert Claiming(d, before, call) ==> Permitted(d, call);
    assert Governed(d, before, call) ==> Claiming(d, before, call);
    if gained == [] {
      assert trail + gained == trail;
    } else {
      assert gained == [gained[0]];
      CountsAppended(trail, gained[0], job, BudgetExhausted);
      CountsAppended(trail, gained[0], job, UpstreamUnavailable);
    }
    hide Permitted, Claiming, Governed, Discoverable, TooLarge, Authorized, RefusedFor, SanitizeArguments;
  }

  lemma ExecutionsExtended(d: Deployment, s: State, before: seq<Call>, call: Call, t: State, job: Id)
    requires Effects(d, s, before, call, t)
    ensures Executions(t.executed, job) == Executions(s.executed, job) +
            if call.job == job && Governed(d, before, call) then 1 else 0
  {
    hide Permitted, History, Claims, Budgets.SpentBy, Breaker.Look, Reported;
    if Governed(d, before, call) {
      ExecutionsAppended(s.executed, t.executed[|t.executed| - 1], job);
    }
  }

  lemma GuardOrder(d: Deployment, before: seq<Call>, call: Call)
    ensures Claiming(d, before, call) ==> Permitted(d, call)
    ensures Governed(d, before, call) ==> Claiming(d, before, call)
  {
  }

  lemma StepBalances(d: Deployment, s: State, before: seq<Call>, call: Call, job: Id)
    requires Balanced(d, s, before, job) && OneRecord(d, s, before, call)
    requires Effects(d, s, before, call, Invoke(d, s, call).0)
    ensures Balanced(d, Invoke(d, s, call).0, before + [call], job)
  {
    var t := Invoke(d, s, call).0;
    hide Permitted, Claiming, Governed, Effects, Recorded, Authorized, RefusedFor, Executions, Invoke, Claims,
        Unrecorded;
    hide Escapes;
    GuardOrder(d, before, call);
    var gained :| Recorded(d, before, call, gained) && t.trail == s.trail + gained;
    ExecutionsExtended(d, s, before, call, t, job);
    RunExtended(d, before, call, job);
    TrailExtended(d, s.trail, before, call, gained, job);
  }

  /** Every budget the job's calls carry allows at most `most` calls. */
  ghost predicate BudgetsWithin(calls: seq<Call>, job: Id, most: nat) {
    forall i :: 0 <= i < |calls| && calls[i].job == job ==> calls[i].budget.maxToolCalls <= most
  }

  lemma {:induction false} ClaimsWithinBudget(d: Deployment, calls: seq<Call>, job: Id, most: nat)
    requires BudgetsWithin(calls, job, most)
    ensures Claims(d, calls, job) <= most
  {
    if calls != [] {
      ClaimsWithinBudget(d, calls[..|calls| - 1], job, most);
    }
  }

  lemma {:induction false} RunBalances(d: Deployment, calls: seq<Call>, now: int, job: Id)
    requires InOrder(calls, now) && !d.isFormat(' ')
    ensures Balanced(d, After(d, calls), calls, job)
  {
    if calls == [] {
      return;
    }
    var n := |calls| - 1;
    var before, call := calls[..n], calls[n];
    var s := After(d, before);
    assert calls == before + [call];
    assert After(d, calls) == Invoke(d, s, call).0;
    assert InOrder(before, call.checkedAt);
    hide Tracks, Balanced, Effects, OneRecord, Invoke, After, InOrder, Breaker.Monotone;
    RunBalances(d, before, call.checkedAt, job);
    ExecutedExactlyWhenGoverned(d, before, call.checkedAt);
    HistoryIsMonotone(d, before, call.checkedAt);
    StepEffects(d, s, before, call);
    EveryCallIsAudited(d, s, before, call);
    StepBalances(d, s, before, call, job);
  }

  /**
   Over every run, a job's counter of tool calls is its authorized records without those
   refused for its budget, plus the calls whose answer escaped unrecorded; it is also its
   executions plus the calls an open circuit refused; and it never passes the budget.
   */
  lemma SpendingIsAudited(d: Deployment, calls: seq<Call>, now: int, job: Id, most: nat)
    requires InOrder(calls, now) && !d.isFormat(' ') && BudgetsWithin(calls, job, most)
    ensures var s := After(d, calls);
            var spent := Budgets.SpentBy(s.ledger, job).toolCalls;
            && spent == Authorized(s.trail, job) - RefusedFor(s.trail, job, BudgetExhausted) + Unrecorded(d, calls, job)
            && spent == Executions(s.executed, job) + RefusedFor(s.trail, job, UpstreamUnavailable)
            && Executions(s.executed, job) <= spent <= most
  {
    RunBalances(d, calls, now, job);
    ExecutedExactlyWhenGoverned(d, calls, now);
    ClaimsWithinBudget(d, calls, job, most);
  }

  /** After any run, a governed call whose answer escapes spends a call and leaves no record. */
  lemma EscapesSpendUnrecorded(d: Deployment, calls: seq<Call>, call: Call)
    requires InOrder(calls, call.checkedAt) && !d.isFormat(' ') && Governed(d, calls, call) && Escapes(call)
    ensures var (s, t) := (After(d, calls), After(d, calls + [call]));
            && Budgets.SpentBy(t.ledger, call.job).toolCalls == Budgets.SpentBy(s.ledger, call.job).toolCalls + 1
            && t.trail == s.trail
            && Unrecorded(d, calls + [call], call.job) == Unrecorded(d, calls, call.job) + 1
  {
    var s, all := After(d, calls), calls + [call];
    assert all[..|all| - 1] == calls;
    assert After(d, all) == Invoke(d, s, call).0;
    hide Invoke, After, Tracks, Permitted, History, Claims, Breaker.Monotone, CircuitAllows, OneRecord, InOrder;
    hide Describes, TooLarge, Utf8.LongestFitting, Sanitizer.Cleaned, Budgets.SpentBy, Reported;
    ExecutedExactlyWhenGoverned(d, calls, call.checkedAt);
    HistoryIsMonotone(d, calls, call.checkedAt);
    StepEffects(d, s, calls, call);
    EveryCallIsAudited(d, s, calls, call);
    RunExtended(d, calls, call, call.job);
  }

  /** Such calls exist: the first call of a requester, to an executor that crashes. */
  lemma SomeCallEscapes() returns (d: Deployment, call: Call)
    ensures InOrder([], call.checkedAt) && !d.isFormat(' ') && Governed(d, [], call) && Escapes(call)
  {
    var c: Capability := Capability("s", "n", {Requester}, {}, JobModel.Public, false, false, {ALL_TENANTS}, 1_024);
    d := Deployment(map[("s", "n") := c], Breaker.Config(1, 0), a => "", n => false, x => false);
    var p := Principal("t", "u", {Requester}, None, JobModel.Public);
    var budget: Budgets.Budget := Budgets.Budget(1, 1, 1.0, 1.0);
    call := Call(p, 0, 0, "s", "n", map[], budget, None, [], "v", Crashes(Error("E", "")), 0, 0, 0, 0, 0, 0);
    assert Requester in p.roles * c.requiredRoles;
    assert Entitled(c, p);
  }

  /** When no answer escapes, the counter is read off the trail alone. */
  lemma {:induction false} NothingEscapes(d: Deployment, calls: seq<Call>, job: Id)
    requires forall call :: call in calls ==> !Escapes(call)
    ensures Unrecorded(d, calls, job) == 0
  {
    if calls != [] {
      NothingEscapes(d, calls[..|calls| - 1], job);
    }
  }

  /** The executor raised an upstream error without a class. */
  ghost predicate Unclassed(call: Call) {
    call.execution.Upstream? && call.execution.errorClass == NoError
  }

  /**
   After any run, the record built for a call breaks the rules of its own type, and is refused,
   exactly when the call was governed and the executor raised an upstream error of class NONE.
   Every other record the gateway builds passes.
   */
  lemma RecordsAreValid(d: Deployment, calls: seq<Call>, call: Call)
    requires InOrder(calls, call.checkedAt) && !d.isFormat(' ')
    ensures Invoke(d, After(d, calls), call).1.RecordRefused? <==> Governed(d, calls, call) && Unclassed(call)
  {
    hide Invoke, After, Tracks, History, Breaker.Monotone, InOrder, Governed, OneRecord, Describes, TooLarge;
    hide Utf8.LongestFitting, Sanitizer.Cleaned, Discoverable;
    ExecutedExactlyWhenGoverned(d, calls, call.checkedAt);
    HistoryIsMonotone(d, calls, call.checkedAt);
    EveryCallIsAudited(d, After(d, calls), calls, call);
  }

  /** Nothing the call could claim, look at or reach was touched. */
  ghost predicate Untouched(s: State, t: State) {
    && (forall job :: Budgets.SpentBy(t.ledger, job) == Budgets.SpentBy(s.ledger, job))
    && t.circuits == s.circuits && t.executed == s.executed
  }

  lemma DeniedIsUntouched(d: Deployment, s: State, before: seq<Call>, call: Call, t: State, gained: seq<Invocation>,
                          r: Invocation)
    requires Recorded(d, before, call, gained) && r in gained && r.decision == Deny && Effects(d, s, before, call, t)
    ensures Untouched(s, t)
  {
    GuardOrder(d, before, call);
    hide Permitted, Claiming, Governed, Discoverable, TooLarge, SanitizeArguments, Budgets.SpentBy;
  }

  /** A call recorded as DENY claimed nothing, touched no circuit and never reached the executor. */
  lemma DenialsAreFree(d: Deployment, calls: seq<Call>, call: Call)
    requires InOrder(calls, call.checkedAt) && !d.isFormat(' ')
    ensures var (s, t) := (After(d, calls), After(d, calls + [call]));
            && s.trail <= t.trail
            && ((exists r :: r in t.trail[|s.trail|..] && r.decision == Deny) ==> Untouched(s, t))
  {
    var s, all := After(d, calls), calls + [call];
    assert all[..|all| - 1] == calls;
    var t := Invoke(d, s, call).0;
    assert After(d, all) == t;
    hide Invoke, After, Tracks, Permitted, History, Claims, Breaker.Monotone, CircuitAllows, Effects, OneRecord,
        Executed;
    hide Recorded, InOrder, Untouched;
    ExecutedExactlyWhenGoverned(d, calls, call.checkedAt);
    HistoryIsMonotone(d, calls, call.checkedAt);
    StepEffects(d, s, calls, call);
    EveryCallIsAudited(d, s, calls, call);
    var gained :| Recorded(d, calls, call, gained) && t.trail == s.trail + gained;
    assert t.trail[|s.trail|..] == gained;
    if r :| r in gained && r.decision == Deny {
      DeniedIsUntouched(d, s, calls, call, t, gained, r);
    }
  }
}
