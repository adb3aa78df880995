/**
 The whole evidence chain: an excerpt in a verified record comes from the output of an
 allowed and executed call of the task that submitted it. It joins the gateway, the tools of
 src/research_platform/agents/tools.py that fill a task's ledger, and the claim verifier.
 */
module EvidenceChain {
  import opened Basics
  import opened JobModel
  import opened TextForms
  import opened Capabilities
  import opened Provenance
  import G = Gateway
  import Audit = GatewayAudit
  import Run = GatewayRun
  import Breaker
  import Utf8
  import Sanitizer

  /** A gateway call, and the tool of the task at hand it was made through, if it was. */
  datatype Step = Step(call: G.Call, tool: Option<Capability>)

  /** The shared gateway and the ledger of the task at hand. */
  datatype TaskState = TaskState(gateway: G.State, ledger: Ledger)

  /** `CapabilityTool._run`: whatever comes back as a result is entered, cut or not. */
  function Enter(ledger: Ledger, step: Step, answer: G.Answer): Ledger {
    if step.tool.Some? && answer.Result?
    then ledger[answer.invocation.id :=
      Observed(answer.invocation, step.tool.value, step.call.arguments, answer.content.text)]
    else ledger
  }

  function Take(d: G.Deployment, s: TaskState, step: Step): TaskState {
    var (gateway, answer) := G.Invoke(d, s.gateway, step.call);
    TaskState(gateway, Enter(s.ledger, step, answer))
  }

  function After(d: G.Deployment, steps: seq<Step>): TaskState {
    if steps == [] then TaskState(G.START, map[])
    else Take(d, After(d, steps[..|steps| - 1]), steps[|steps| - 1])
  }

  /** A tool of one task: its gateway, its ledger and the capability it was built for. */
  class CapabilityTool {
    const gateway: Run.CapabilityGateway
    const ledger: EvidenceLedger
    const capability: Capability
    const show: Id -> string

    constructor (gateway: Run.CapabilityGateway, ledger: EvidenceLedger, capability: Capability, show: Id -> string)
      ensures this.gateway == gateway && this.ledger == ledger && this.capability == capability && this.show == show
    {
      this.gateway := gateway;
      this.ledger := ledger;
      this.capability := capability;
      this.show := show;
    }

    /** Make the call; the agent reads the result under the id of the call, or why there is none. */
    method Run(call: G.Call) returns (r: Outcome<string>)
      requires gateway.Valid()
      modifies gateway, gateway.budgets, gateway.breaker, ledger
      ensures gateway.Valid()
      ensures TaskState(gateway.Value(), ledger.observed) ==
              Take(gateway.d, TaskState(old(gateway.Value()), old(ledger.observed)), Step(call, Some(capability)))
      ensures var a := G.Invoke(gateway.d, old(gateway.Value()), call).1;
              r.Raised? <==> a.Escaped? || a.RecordRefused? || a.CapabilityNotFound?
    {
      hide G.Invoke;
      var answer := gateway.Invoke(call);
      match answer {
        case CapabilityDenied(reason, _) => r := Returned("denied: " + reason);
        case CapabilityFailed(reason, _) => r := Returned("failed: " + reason);
        case CapabilityNotFound => r := Raised(Error("CapabilityNotFound", "not registered"));
        case Escaped(error) => r := Raised(error);
        case RecordRefused => r := Raised(Error("ValidationError", "the audit record was refused"));
        case Result(invocation, content) =>
          ledger.Record(invocation, capability, call.arguments, content.text);
          r := Returned("[tool_invocation_id: " + show(invocation.id) + "]\n" + content.text);
      }
    }
  }

  // ---------------------------------------------------------------- where a ledger entry comes from

  function CallsOf(steps: seq<Step>): seq<G.Call> {
    seq(|steps|, i requires 0 <= i < |steps| => steps[i].call)
  }

  /** Tools are built from registered capabilities, for one task. */
  ghost predicate Offered(d: G.Deployment, task: Id, step: Step) {
    step.tool.Some? ==>
      && step.call.task == task
      && step.call.server == step.tool.value.server && step.call.name == step.tool.value.name
      && (step.call.server, step.call.name) in d.registry
      && d.registry[(step.call.server, step.call.name)] == step.tool.value
  }

  /** The i-th step was a governed call of the task whose cleaned reply, cut to fit, is what the entry holds. */
  ghost predicate Origin(d: G.Deployment, task: Id, steps: seq<Step>, i: nat, o: Observed) {
    && i < |steps|
    && var call := steps[i].call;
       && steps[i].tool == Some(o.capability) && call.task == task
       && G.Governed(d, CallsOf(steps[..i]), call)
       && call.execution.Replies? && o.arguments == call.arguments
       && Utf8.LongestFitting(o.text, Sanitizer.Cleaned(d.isFormat, call.execution.raw), o.capability.maxResultBytes)
       && o.invocation.id == call.recordId && o.invocation.task == task && o.invocation.job == call.job
       && o.invocation.tenant == call.principal.tenant
       && o.invocation.decision == Allow && o.invocation.outcome in {Succeeded, InvocationOutcome.Failed}
  }

  ghost predicate Explained(d: G.Deployment, task: Id, steps: seq<Step>, s: TaskState) {
    forall id :: id in s.ledger ==>
      && s.ledger[id].invocation.id == id
      && s.ledger[id].invocation in s.gateway.trail
      && exists i :: Origin(d, task, steps, i, s.ledger[id])
  }

  lemma OriginStays(d: G.Deployment, task: Id, steps: seq<Step>, step: Step, i: nat, o: Observed)
    requires Origin(d, task, steps, i, o)
    ensures Origin(d, task, steps + [step], i, o)
  {
    assert (steps + [step])[..i] == steps[..i];
    hide G.Governed, Utf8.LongestFitting, Sanitizer.Cleaned, CallsOf;
  }

  /** A result entered by a step has that step as its origin. */
  lemma EnteredHasOrigin(d: G.Deployment, task: Id, steps: seq<Step>, step: Step, s: TaskState)
    requires Offered(d, task, step) && step.tool.Some? && !d.isFormat(' ')
    requires G.Tracks(d, s.gateway, CallsOf(steps))
    requires Breaker.Monotone(G.History(d, CallsOf(steps)), step.call.checkedAt)
    ensures var (t, answer) := G.Invoke(d, s.gateway, step.call);
            answer.Result? ==>
            && answer.invocation in t.trail
            && Origin(d, task, steps + [step], |steps|,
                      Observed(answer.invocation, step.tool.value, step.call.arguments, answer.content.text))
  {
    assert (steps + [step])[..|steps|] == steps;
    hide G.Tracks, G.Governed, Breaker.Monotone, G.Invoke, Utf8.LongestFitting, Sanitizer.Cleaned, CallsOf;
    hide SanitizeArguments, Audit.TooLarge, Audit.OneRecord, Audit.Objection, Entitled, InReach, G.History;
    Audit.EveryCallIsAudited(d, s.gateway, CallsOf(steps), step.call);
    var (t, answer) := G.Invoke(d, s.gateway, step.call);
    assert answer.Result? ==> Audit.Executed(d, s.gateway, step.call, t, answer);
  }

  lemma TrailGrows(d: G.Deployment, s: G.State, call: G.Call)
    ensures s.trail <= G.Invoke(d, s, call).0.trail
  {
    hide ValidRecord, G.RecordOf, Breaker.Failure, Sanitizer.SanitizeResult, G.PolicyRefusals, G.ApprovalMissing,
        ResolveFor;
  }

  lemma StepExplained(d: G.Deployment, task: Id, steps: seq<Step>, step: Step, s: TaskState)
    requires Offered(d, task, step) && !d.isFormat(' ') && Explained(d, task, steps, s)
    requires G.Tracks(d, s.gateway, CallsOf(steps))
    requires Breaker.Monotone(G.History(d, CallsOf(steps)), step.call.checkedAt)
    ensures Explained(d, task, steps + [step], Take(d, s, step))
  {
    var t := Take(d, s, step);
    var answer := G.Invoke(d, s.gateway, step.call).1;
    TrailGrows(d, s.gateway, step.call);
    hide G.Tracks, G.Invoke, Breaker.Monotone, Origin, Offered, CallsOf;
    forall id | id in t.ledger
      ensures t.ledger[id].invocation.id == id && t.ledger[id].invocation in t.gateway.trail
      ensures exists i :: Origin(d, task, steps + [step], i, t.ledger[id])
    {
      if step.tool.Some? && answer.Result? && id == answer.invocation.id {
        EnteredHasOrigin(d, task, steps, step, s);
      } else {
        var i :| Origin(d, task, steps, i, s.ledger[id]);
        OriginStays(d, task, steps, step, i, s.ledger[id]);
      }
    }
  }

  lemma {:induction false} GatewayOf(d: G.Deployment, steps: seq<Step>)
    ensures After(d, steps).gateway == G.After(d, CallsOf(steps))
  {
    if steps != [] {
      var n := |steps| - 1;
      GatewayOf(d, steps[..n]);
      assert CallsOf(steps)[..n] == CallsOf(steps[..n]);
      hide G.Invoke;
    }
  }

  /**
   After any run, in which the task's own calls mix with those of every other task, each
   entry of its ledger is the reply of one of its own governed calls, audited as allowed.
   */
  lemma {:induction false} LedgerHoldsExecutedCalls(d: G.Deployment, task: Id, steps: seq<Step>, now: int)
    requires G.InOrder(CallsOf(steps), now) && !d.isFormat(' ')
    requires forall step :: step in steps ==> Offered(d, task, step)
    ensures Explained(d, task, steps, After(d, steps))
  {
    if steps == [] {
      return;
    }
    var n := |steps| - 1;
    var before, step := steps[..n], steps[n];
    assert steps == before + [step];
    assert After(d, steps) == Take(d, After(d, before), step);
    OrderBefore(steps, now);
    GatewayOf(d, before);
    hide G.Tracks, G.InOrder, Breaker.Monotone, Offered, Explained, After, Take, CallsOf;
    LedgerHoldsExecutedCalls(d, task, before, step.call.checkedAt);
    G.ExecutedExactlyWhenGoverned(d, CallsOf(before), step.call.checkedAt);
    G.HistoryIsMonotone(d, CallsOf(before), step.call.checkedAt);
    StepExplained(d, task, before, step, After(d, before));
  }

  /** And no reply is missing from it: every governed call made through a tool that was answered is entered. */
  lemma {:induction false} EveryReplyIsEntered(d: G.Deployment, steps: seq<Step>, now: int, i: nat)
    requires G.InOrder(CallsOf(steps), now) && !d.isFormat(' ') && i < |steps|
    requires steps[i].tool.Some? && steps[i].call.execution.Replies?
    requires G.Governed(d, CallsOf(steps[..i]), steps[i].call)
    ensures steps[i].call.recordId in After(d, steps).ledger
  {
    var n := |steps| - 1;
    var before := steps[..n];
    assert After(d, steps) == Take(d, After(d, before), steps[n]);
    hide G.InOrder, G.Governed, CallsOf, After, Take, G.After;
    OrderBefore(steps, now);
    if i < n {
      assert before[..i] == steps[..i];
      EveryReplyIsEntered(d, before, steps[n].call.checkedAt, i);
      EntriesStay(d, After(d, before), steps[n]);
    } else {
      GatewayOf(d, before);
      ReplyIsEntered(d, CallsOf(before), steps[i], After(d, before));
    }
  }

  lemma OrderBefore(steps: seq<Step>, now: int)
    requires steps != [] && G.InOrder(CallsOf(steps), now)
    ensures var n := |steps| - 1; G.InOrder(CallsOf(steps[..n]), steps[n].call.checkedAt)
  {
    assert CallsOf(steps)[..|steps| - 1] == CallsOf(steps[..|steps| - 1]);
  }

  lemma EntriesStay(d: G.Deployment, s: TaskState, step: Step)
    ensures s.ledger.Keys <= Take(d, s, step).ledger.Keys
  {
    hide G.Invoke;
  }

  lemma ReplyIsEntered(d: G.Deployment, before: seq<G.Call>, step: Step, s: TaskState)
    requires G.InOrder(before, step.call.checkedAt) && s.gateway == G.After(d, before) && !d.isFormat(' ')
    requires G.Governed(d, before, step.call) && step.tool.Some? && step.call.execution.Replies?
    ensures step.call.recordId in Take(d, s, step).ledger
  {
    G.ExecutedExactlyWhenGoverned(d, before, step.call.checkedAt);
    G.HistoryIsMonotone(d, before, step.call.checkedAt);
    hide G.Tracks, G.Governed, Breaker.Monotone, G.Invoke, Utf8.LongestFitting, Sanitizer.Cleaned, Audit.Discoverable;
    hide SanitizeArguments, Audit.TooLarge, Audit.OneRecord, Audit.Objection;
    Audit.EveryCallIsAudited(d, s.gateway, before, step.call);
  }

  /** The record quotes what the i-th step of the run returned, and says where that came from. */
  ghost predicate Quotes(d: G.Deployment, desk: Desk, steps: seq<Step>, i: nat, o: Observed, r: EvidenceCreate) {
    && Origin(d, desk.task, steps, i, o)
    && r.invocationId == o.invocation.id && r.taskId == desk.task
    && Occurs(r.excerpt, Normalize(o.text)) && r.excerpt != ""
    && r.contentHash == desk.hash(Normalize(r.excerpt))
    && ComesFrom(desk.digest, o.capability, o.invocation.tenant, o.arguments, r.sourceUri)
    && r.access == o.capability.maxAccess
    && (r.trust == Secondary <==> o.capability.server == "web-research" && o.capability.name == "search")
    && (r.trust == Secondary || r.trust == Primary)
  }

  /**
   Evidence is what a tool returned: every record of an accepted submission quotes the output
   of an allowed and executed call of the submitting task.
   */
  lemma EvidenceQuotesExecutedCalls(d: G.Deployment, desk: Desk, steps: seq<Step>, now: int, claims: seq<Claim>,
                                    records: seq<EvidenceCreate>, k: nat)
    requires G.InOrder(CallsOf(steps), now) && !d.isFormat(' ')
    requires forall step :: step in steps ==> Offered(d, desk.task, step)
    requires desk.ledger == After(d, steps).ledger
    requires Acceptable(desk, claims) && Matches(desk, claims, records) && k < |records|
    ensures exists i, o :: Quotes(d, desk, steps, i, o, records[k]) && o.invocation in After(d, steps).gateway.trail
    ensures var claim, r := claims[k], records[k];
            && r.invocationId == claim.invocationId && r.excerpt == Normalize(claim.excerpt)
            && r.title == claim.title && r.author == claim.author && r.publishedAt == claim.publishedAt
  {
    LedgerHoldsExecutedCalls(d, desk.task, steps, now);
    assert Sound(desk, claims, k) && Certifies(desk, claims[k], records[k]);
    EmptyNormalForm(claims[k].excerpt);
    var r := records[k];
    NormalFormIsItsWords(claims[k].excerpt, "");
    var o := desk.ledger[claims[k].invocationId];
    assert Occurs(r.excerpt, Normalize(o.text));
    hide Origin, Normalize, Occurs, ComesFrom, After, G.InOrder;
    var i :| Origin(d, desk.task, steps, i, o);
    assert Quotes(d, desk, steps, i, o, r);
  }
}
