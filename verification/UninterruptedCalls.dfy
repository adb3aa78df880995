/** The atomic gateway call is one interleaving of its steps: the one nothing interrupts. */
module UninterruptedCalls {
  import opened Basics
  import opened Capabilities
  import opened Gateway
  import opened ConcurrentGateway
  import Budgets
  import Breaker
  import Sanitizer

  /**
    The remaining steps of a call, with nothing in between: from its claim, its look, its execution
    or its return on.
   */
  function FromReturn(d: Deployment, s: Shared, n: nat): Shared {
    Next(d, Next(d, s, Returns(n)), Records(n))
  }

  function FromExecution(d: Deployment, s: Shared, n: nat): Shared {
    FromReturn(d, Next(d, s, Executes(n)), n)
  }

  function FromLook(d: Deployment, s: Shared, n: nat): Shared {
    FromExecution(d, Next(d, s, Looks(n)), n)
  }

  function AtOnce(d: Deployment, s: Shared, call: Call): Shared {
    FromLook(d, Next(d, Next(d, s, Begins(call)), Reserves(|s.flights|)), |s.flights|)
  }

  ghost predicate At(s: Shared, n: nat, f: Flight) {
    n < |s.flights| && s.flights[n] == f
  }

  /** What storing a record, if its rules allow it, does to the gateway. */
  function Stored(d: Deployment, state: State, record: Invocation): State {
    if ValidRecord(d.sensitive, record) then state.(trail := state.trail + [record]) else state
  }

  lemma OnlyTheRecordIsLeft(d: Deployment, s: Shared, n: nat, record: Invocation, claimed: bool, executed: bool)
    requires n < |s.flights| && s.flights[n].phase == Built(d, record, claimed, executed)
    ensures FromLook(d, s, n).state == FromExecution(d, s, n).state == FromReturn(d, s, n).state
    ensures FromReturn(d, s, n).state == Stored(d, s.state, record)
    ensures Next(d, s, Records(n)).state == Stored(d, s.state, record)
    ensures Next(d, s, Reserves(n)) == s
  {
    hide ValidRecord;
  }

  /** The gateway once a running call has returned and its record, if there is one, is stored. */
  function ReturnedState(d: Deployment, state: State, call: Call, c: Capability): State {
    match call.execution
    case Crashes(_) => state
    case Upstream(_, errorClass) =>
      Stored(d, state, RecordOf(d, call, c, Allow, InvocationOutcome.Failed, errorClass))
    case Replies(raw) =>
      var content := Sanitizer.SanitizeResult(d.isFormat, raw, c.maxResultBytes).value;
      Stored(d, state, if content.truncated
                       then RecordOf(d, call, c, Allow, InvocationOutcome.Failed, ResultTooLarge)
                       else RecordOf(d, call, c, Allow, Succeeded, NoError))
  }

  lemma RunningReturns(d: Deployment, s: Shared, n: nat, f: Flight)
    requires At(s, n, f) && f.phase.Running?
    ensures var circuits := Reported(d, s.state.circuits, f.capability.server, f.call);
            FromReturn(d, s, n).state == ReturnedState(d, s.state.(circuits := circuits), f.call, f.capability)
  {
    hide ValidRecord, RecordOf, Sanitizer.SanitizeResult, Reported;
  }

  lemma ClearedExecutes(d: Deployment, s: Shared, n: nat, f: Flight)
    requires At(s, n, f) && f.phase.Cleared?
    ensures FromExecution(d, s, n).state == Gateway.Execute(d, s.state, f.call, f.capability).0
  {
    RunningReturns(d, Send(s, n), n, f.(phase := Running));
    hide ValidRecord, RecordOf, Sanitizer.SanitizeResult, FromReturn, Breaker.Failure;
  }

  lemma ClaimedLooks(d: Deployment, s: Shared, n: nat, f: Flight)
    requires At(s, n, f) && f.phase.Claimed?
    ensures var circuits := Breaker.Look(d.breaker, s.state.circuits, f.capability.server, f.call.checkedAt);
            var looked := s.state.(circuits := circuits);
            FromLook(d, s, n).state ==
            if Breaker.Of(circuits, f.capability.server).state == Breaker.Open
            then Stored(d, looked, RefusalOf(d, f.call, f.capability, UpstreamUnavailable))
            else Gateway.Execute(d, looked, f.call, f.capability).0
  {
    var t := Check(d, s, n);
    hide Breaker.Look, Breaker.Of, FromExecution, Gateway.Execute, Built, RefusalOf, ValidRecord;
    if t.flights[n].phase.Cleared? && Breaker.Of(t.state.circuits, f.capability.server).state != Breaker.Open {
      ClearedExecutes(d, t, n, f.(phase := Cleared));
    } else if Breaker.Of(t.state.circuits, f.capability.server).state == Breaker.Open {
      OnlyTheRecordIsLeft(d, t, n, RefusalOf(d, f.call, f.capability, UpstreamUnavailable), true, false);
    }
  }

  lemma PassedReserves(d: Deployment, s: Shared, n: nat, f: Flight)
    requires At(s, n, f) && f.phase.Passed?
    ensures var (ledger, claimed) := Budgets.Reserve(s.state.ledger, f.call.job, f.call.budget);
            var reserved := s.state.(ledger := ledger);
            var circuits := Breaker.Look(d.breaker, s.state.circuits, f.capability.server, f.call.checkedAt);
            FromLook(d, Next(d, s, Reserves(n)), n).state ==
            if claimed.None? then Stored(d, reserved, RefusalOf(d, f.call, f.capability, BudgetExhausted))
            else if Breaker.Of(circuits, f.capability.server).state == Breaker.Open
            then Stored(d, reserved.(circuits := circuits), RefusalOf(d, f.call, f.capability, UpstreamUnavailable))
            else Gateway.Execute(d, reserved.(circuits := circuits), f.call, f.capability).0
  {
    var t := Claim(d, s, n);
    hide Breaker.Look, Breaker.Of, FromLook, Gateway.Execute, Built, RefusalOf, ValidRecord, Budgets.Reserve;
    if Budgets.Reserve(s.state.ledger, f.call.job, f.call.budget).1.Some? {
      ClaimedLooks(d, t, n, f.(phase := Claimed));
    } else {
      OnlyTheRecordIsLeft(d, t, n, RefusalOf(d, f.call, f.capability, BudgetExhausted), false, false);
    }
  }

  lemma RefusingStores(d: Deployment, state: State, call: Call, c: Capability, reason: string, errorClass: ErrorClass)
    ensures Gateway.Refuse(d, state, call, c, reason, errorClass).0 ==
        Stored(d, state, RefusalOf(d, call, c, errorClass))
  {
    hide ValidRecord, RecordOf;
  }

  /** Calls that do not overlap do exactly what the atomic gateway does. */
  lemma AtomicCallsAreAnInterleaving(d: Deployment, s: Shared, call: Call)
    ensures AtOnce(d, s, call).state == Invoke(d, s.state, call).0
  {
    var r := ResolveFor(d.registry, call.principal, call.server, call.name);
    var n := |s.flights|;
    if r.None? {
      return;
    }
    var c := r.value;
    var f := Flight(call, c, Admitted(d, call, c));
    var t := s.(flights := s.flights + [f]);
    assert Next(d, s, Begins(call)) == t && t.flights[n] == f;
    var joined := JoinTexts(PolicyRefusals(call, c));
    RefusingStores(d, s.state, call, c, joined, PolicyDenied);
    RefusingStores(d, s.state, call, c, "requires reviewer approval", PolicyDenied);
    hide ResolveFor, PolicyRefusals, ApprovalMissing, Breaker.Look, Breaker.Of, FromLook, Gateway.Execute,
        Gateway.Refuse;
    hide Built, RefusalOf, Stored, JoinTexts;
    if f.phase != Passed || PolicyRefusals(call, c) != [] || ApprovalMissing(d, call, c) {
      OnlyTheRecordIsLeft(d, t, n, RefusalOf(d, call, c, PolicyDenied), false, false);
    } else {
      var reserved := s.state.(ledger := Budgets.Reserve(s.state.ledger, call.job, call.budget).0);
      var looked := reserved.(circuits := Breaker.Look(d.breaker, s.state.circuits, c.server, call.checkedAt));
      RefusingStores(d, reserved, call, c, "reached its tool-call budget", BudgetExhausted);
      RefusingStores(d, looked, call, c, "circuit is open", UpstreamUnavailable);
      PassedReserves(d, t, n, f);
    }
  }
}
