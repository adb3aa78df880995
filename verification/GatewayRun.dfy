/** `CapabilityGateway` as the object it is: guards run in turn over its ledger and breaker. */
module GatewayRun {
  import opened Basics
  import opened Capabilities
  import G = Gateway
  import Budgets
  import Breaker
  import Sanitizer

  class CapabilityGateway {
    const d: G.Deployment
    const budgets: Budgets.BudgetLedger
    const breaker: Breaker.CircuitBreaker
    var trail: seq<Invocation>
    var executed: seq<G.Request>

    ghost predicate Valid() {
      breaker.cfg == d.breaker
    }

    ghost function Value(): G.State
      reads this, budgets, breaker
    {
      G.State(budgets.usage, breaker.circuits, trail, executed)
    }

    constructor (d: G.Deployment)
      ensures Valid() && fresh(budgets) && fresh(breaker)
      ensures this.d == d && Value() == G.START
    {
      this.d := d;
      budgets := new Budgets.BudgetLedger();
      breaker := new Breaker.CircuitBreaker(d.breaker);
      trail := [];
      executed := [];
    }

    /** Build a record, store it and answer with it, unless the record's own rules refuse it. */
    method Observe(record: Invocation, answer: G.Answer) returns (r: G.Answer)
      requires Valid()
      modifies this
      ensures executed == old(executed)
      ensures (Value(), r) == G.Answered(d, old(Value()), record, answer)
    {
      if !ValidRecord(d.sensitive, record) {
        return G.RecordRefused;
      }
      trail := trail + [record];
      r := answer;
    }

    method Refuse(call: G.Call, c: Capability, reason: string, errorClass: ErrorClass) returns (r: G.Answer)
      requires Valid()
      modifies this
      ensures (Value(), r) == G.Refuse(d, old(Value()), call, c, reason, errorClass)
    {
      var decision := if errorClass == PolicyDenied then Deny else Allow;
      var record := G.RecordOf(d, call, c, decision, Denied, errorClass);
      r := Observe(record, G.CapabilityDenied(reason, record));
    }

    /** One call: refused by the first guard that objects, otherwise executed. */
    method Invoke(call: G.Call) returns (r: G.Answer)
      requires Valid()
      modifies this, budgets, breaker
      ensures Valid() && (Value(), r) == G.Invoke(d, old(Value()), call)
    {
      hide G.RecordOf, G.Answered, ValidRecord, Sanitizer.SanitizeResult;
      var resolved := ResolveFor(d.registry, call.principal, call.server, call.name);
      if resolved.None? {
        return G.CapabilityNotFound;
      }
      var c := resolved.value;
      var refusals := AllOf([RegistryRefusal(c, call.principal)] + call.verdicts);
      if refusals != [] {
        r := Refuse(call, c, JoinTexts(refusals), PolicyDenied);
        return;
      }
      if G.ApprovalMissing(d, call, c) {
        r := Refuse(call, c, "requires reviewer approval", PolicyDenied);
        return;
      }
      var claimed := budgets.ReserveCall(call.job, call.budget);
      if claimed.None? {
        r := Refuse(call, c, "reached its tool-call budget", BudgetExhausted);
        return;
      }
      var refusedUntil := breaker.EnsureClosed(c.server, call.checkedAt);
      if refusedUntil.Some? {
        r := Refuse(call, c, "circuit is open", UpstreamUnavailable);
        return;
      }
      r := Execute(call, c);
    }

    method Execute(call: G.Call, c: Capability) returns (r: G.Answer)
      requires Valid()
      modifies this, breaker
      ensures Valid() && budgets.usage == old(budgets.usage)
      ensures (Value(), r) == G.Execute(d, old(Value()), call, c)
    {
      executed := executed + [G.Request(call.job, c, call.principal, call.arguments)];
      match call.execution {
        case Crashes(error) =>
          r := G.Escaped(error);
        case Upstream(message, errorClass) =>
          breaker.RecordFailure(c.server, call.failedAt, call.stampedAt);
          var record := G.RecordOf(d, call, c, Allow, InvocationOutcome.Failed, errorClass);
          r := Observe(record, G.CapabilityFailed(message, record));
        case Replies(raw) =>
          breaker.RecordSuccess(c.server);
          var content := Sanitizer.SanitizeResult(d.isFormat, raw, c.maxResultBytes).value;
          var outcome, errorClass := Succeeded, NoError;
          if content.truncated {
            outcome, errorClass := InvocationOutcome.Failed, ResultTooLarge;
          }
          var record := G.RecordOf(d, call, c, Allow, outcome, errorClass);
          r := Observe(record, G.Result(record, content));
      }
    }
  }
}
