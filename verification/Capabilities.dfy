/**
 What a tool call is checked against and what is written down about it: the capability
 registry, the policy, reviewer approvals and audit records
 (src/research_platform/mcp/registry.py, src/research_platform/mcp/policy.py,
 src/research_platform/domain/approvals.py, src/research_platform/domain/invocations.py).
 */
module Capabilities {
  import opened Basics
  import opened JobModel

  type NonEmpty = s: string | s != "" witness "-"

  datatype Role = Requester | Reviewer | Administrator

  datatype Principal = Principal(
    tenant: NonEmpty, subject: NonEmpty, roles: set<Role>, agentRole: Option<AgentRole>, clearance: AccessClass)

  const ALL_TENANTS: NonEmpty := "*"

  const METADATA_ONLY_AGENTS := {Planner}

  datatype RawCapability = Capability(
    server: NonEmpty, name: NonEmpty, requiredRoles: set<Role>, allowedAgents: set<AgentRole>,
    maxAccess: AccessClass, sideEffecting: bool, requiresApproval: bool, tenantScope: set<NonEmpty>,
    maxResultBytes: int)

  /** What constructing a capability checks. */
  predicate WellFormed(c: RawCapability) {
    && (c.sideEffecting ==> c.requiresApproval)
    && c.tenantScope != {}
    && 1_024 <= c.maxResultBytes <= 8_388_608
  }

  type Capability = c: RawCapability | WellFormed(c)
    witness Capability("-", "-", {Requester}, {}, Public, false, false, {ALL_TENANTS}, 262_144)

  predicate AvailableToTenant(c: Capability, tenant: NonEmpty) {
    ALL_TENANTS in c.tenantScope || tenant in c.tenantScope
  }

  /** `is_visible_to`: what discovery may name to the caller. */
  predicate Visible(c: Capability, p: Principal) {
    if !AvailableToTenant(c, p.tenant) then false
    else if !ClearanceCovers(p.clearance, c.maxAccess) then false
    else if p.agentRole.Some? then p.agentRole.value in c.allowedAgents || p.agentRole.value in METADATA_ONLY_AGENTS
    else p.roles * c.requiredRoles != {}
  }

  /** `is_executable_by`: what the caller may run. */
  predicate Executable(c: Capability, p: Principal) {
    if !Visible(c, p) then false
    else if p.agentRole.Some? then p.agentRole.value in c.allowedAgents
    else p.roles * c.requiredRoles != {}
  }

  /** The caller's tenant is in scope and its clearance reaches the data. */
  ghost predicate InReach(c: Capability, p: Principal) {
    && ("*" in c.tenantScope || p.tenant in c.tenantScope)
    && (match c.maxAccess
        case Public => true
        case Internal => p.clearance == Internal || p.clearance == Restricted
        case Restricted => p.clearance == Restricted)
  }

  /** An agent must be listed for the capability; a person must hold one of its roles. */
  ghost predicate Entitled(c: Capability, p: Principal) {
    InReach(c, p) &&
    match p.agentRole
    case Some(agent) => agent in c.allowedAgents
    case None => exists role :: role in p.roles && role in c.requiredRoles
  }

  /**
   A capability is run by, and the policy permits it to, exactly the callers entitled to it; it
   is named to those and to any planner within reach, and to nobody else.
   */
  lemma OnlyPlannersSeeMore(c: Capability, p: Principal)
    ensures Executable(c, p) <==> Entitled(c, p)
    ensures RegistryRefusal(c, p).None? <==> Entitled(c, p)
    ensures Visible(c, p) <==> Entitled(c, p) || (InReach(c, p) && p.agentRole == Some(Planner))
    ensures !Entitled(c, p) ==>
              RegistryRefusal(c, p).value
              == if "*" !in c.tenantScope && p.tenant !in c.tenantScope then "capability is not offered to tenant"
                 else if !InReach(c, p) then "clearance cannot reach the data" else "may not execute"
  {
    if p.agentRole.None? {
      var held := p.roles * c.requiredRoles;
      assert held != {} <==> exists role :: role in p.roles && role in c.requiredRoles by {
        if role :| role in p.roles && role in c.requiredRoles {
          assert role in held;
        }
        if held != {} {
          var role :| role in held;
        }
      }
    }
  }

  // ---------------------------------------------------------------- the registry

  /** Capabilities under their server and name. */
  type Registry = m: map<(NonEmpty, NonEmpty), Capability> |
    forall k :: k in m ==> m[k].server == k.0 && m[k].name == k.1

  /** `resolve_for`: an invisible capability is reported just like a missing one. */
  function ResolveFor(registry: Registry, p: Principal, server: NonEmpty, name: NonEmpty): Option<Capability> {
    if (server, name) !in registry then None
    else if !Visible(registry[(server, name)], p) then None
    else Some(registry[(server, name)])
  }

  class CapabilityRegistry {
    var capabilities: Registry

    constructor ()
      ensures capabilities == map[]
    {
      capabilities := map[];
    }

    method Register(c: Capability) returns (r: Outcome<Capability>)
      modifies this
      ensures r.Raised? <==> (c.server, c.name) in old(capabilities)
      ensures r.Raised? ==> capabilities == old(capabilities)
      ensures r.Returned? ==> r.value == c && capabilities == old(capabilities)[(c.server, c.name) := c]
    {
      if (c.server, c.name) in capabilities {
        return Raised(Error("DuplicateCapability", "already registered"));
      }
      capabilities := capabilities[(c.server, c.name) := c];
      r := Returned(c);
    }
  }

  // ---------------------------------------------------------------- policy

  /** `RegistryPolicyEngine.evaluate`: why the registered boundary refuses the call, if it does. */
  function RegistryRefusal(c: Capability, p: Principal): Option<string> {
    if !AvailableToTenant(c, p.tenant) then Some("capability is not offered to tenant")
    else if !ClearanceCovers(p.clearance, c.maxAccess) then Some("clearance cannot reach the data")
    else if !Executable(c, p) then Some("may not execute")
    else None
  }

  /** `AllOfPolicyEngine.evaluate` over the registry's verdict and the other engines' verdicts. */
  method AllOf(verdicts: seq<Option<string>>) returns (refusals: seq<string>)
    ensures refusals == [] <==> forall v :: v in verdicts ==> v.None?
    ensures refusals == Refusals(verdicts)
  {
    refusals := [];
    for i := 0 to |verdicts|
      invariant refusals == Refusals(verdicts[..i])
      invariant refusals == [] <==> forall v :: v in verdicts[..i] ==> v.None?
    {
      assert verdicts[..i + 1] == verdicts[..i] + [verdicts[i]];
      if verdicts[i].Some? {
        assert verdicts[i] in verdicts[..i + 1];
        refusals := refusals + [verdicts[i].value];
      }
    }
    assert verdicts[..|verdicts|] == verdicts;
  }

  /** The reasons given, in order. */
  function Refusals(verdicts: seq<Option<string>>): seq<string> {
    if verdicts == [] then []
    else Refusals(verdicts[..|verdicts| - 1]) +
         (match verdicts[|verdicts| - 1] case Some(reason) => [reason] case None => [])
  }

  lemma {:induction false} NoRefusals(verdicts: seq<Option<string>>)
    ensures Refusals(verdicts) == [] <==> forall v :: v in verdicts ==> v.None?
  {
    if verdicts != [] {
      var n := |verdicts| - 1;
      NoRefusals(verdicts[..n]);
      assert verdicts == verdicts[..n] + [verdicts[n]];
    }
  }

  // ---------------------------------------------------------------- arguments and approvals

  type Arguments = map<string, string>

  const REDACTED := "[redacted]"

  /** `sanitize_arguments`, given which names look like credentials. */
  function SanitizeArguments(sensitive: string -> bool, arguments: Arguments): Arguments {
    map name | name in arguments :: if sensitive(name) then REDACTED else arguments[name]
  }

  datatype ApprovalStatus = PendingApproval | Granted | Refused | Expired

  datatype Approval = Approval(
    status: ApprovalStatus, server: string, capability: string, resource: string, digest: string,
    expiresAt: int, reviewer: Option<string>, decidedAt: Option<int>)

  /** `decide`: only a pending request can be decided, and one decided too late has expired. */
  function Decide(a: Approval, reviewer: string, granted: bool, at: int): Outcome<Approval> {
    if a.status != PendingApproval then Raised(Error("ValueError", "already decided"))
    else if at >= a.expiresAt then Returned(a.(status := Expired, decidedAt := Some(at)))
    else Returned(a.(status := if granted then Granted else Refused, reviewer := Some(reviewer), decidedAt := Some(at)))
  }

  /** `is_valid_for`. */
  predicate ValidFor(digest: Arguments -> string, a: Approval, server: string, capability: string, resource: string,
                     arguments: Arguments, at: int)
  {
    && a.status == Granted && at < a.expiresAt
    && a.server == server && a.capability == capability && a.resource == resource
    && a.digest == digest(arguments)
  }

  datatype Ruling = Ruling(reviewer: string, granted: bool, at: int)

  /** A request after a run of attempts to decide it; a refused attempt changes nothing. */
  function Decided(a: Approval, rulings: seq<Ruling>): Approval
    decreases |rulings|
  {
    if rulings == [] then a
    else
      var r := Decide(a, rulings[0].reviewer, rulings[0].granted, rulings[0].at);
      Decided(if r.Returned? then r.value else a, rulings[1..])
  }

  lemma {:induction false} DecidedStays(a: Approval, rulings: seq<Ruling>)
    requires a.status != PendingApproval
    ensures Decided(a, rulings) == a
  {
    if rulings != [] {
      DecidedStays(a, rulings[1..]);
    }
  }

  /**
   Whatever is tried afterwards, a pending request authorizes a call exactly when its first
   ruling granted it in time, the call is no later than its expiry, and server, capability,
   resource and argument digest are the ones it was opened for.
   */
  lemma FirstRulingDecides(digest: Arguments -> string, a: Approval, rulings: seq<Ruling>, server: string,
                           capability: string, resource: string, arguments: Arguments, at: int)
    requires a.status == PendingApproval
    ensures ValidFor(digest, Decided(a, rulings), server, capability, resource, arguments, at) <==>
            && rulings != [] && rulings[0].granted && rulings[0].at < a.expiresAt && at < a.expiresAt
            && a.server == server && a.capability == capability && a.resource == resource
            && a.digest == digest(arguments)
  {
    if rulings != [] {
      DecidedStays(Decide(a, rulings[0].reviewer, rulings[0].granted, rulings[0].at).value, rulings[1..]);
    }
  }

  // ---------------------------------------------------------------- audit records

  datatype Decision = Allow | Deny

  datatype InvocationOutcome = Pending | Succeeded | Failed | Denied

  datatype ErrorClass =
    | NoError | PolicyDenied | InvalidArguments | UpstreamUnavailable | Timeout
    | ResultTooLarge | BudgetExhausted | Unexpected

  datatype Invocation = Invocation(
    id: Id, job: Id, task: Id, tenant: NonEmpty, server: NonEmpty, capability: NonEmpty,
    arguments: Arguments, digest: string, policyVersion: NonEmpty, decision: Decision,
    outcome: InvocationOutcome, errorClass: ErrorClass, startedAt: int)

  /** What constructing a `ToolInvocation` checks. */
  predicate ValidRecord(sensitive: string -> bool, r: Invocation) {
    && (r.decision == Deny ==> r.outcome == Denied && r.errorClass == PolicyDenied)
    && (r.outcome == Denied ==> r.errorClass != NoError)
    && (r.outcome == Succeeded ==> r.errorClass == NoError)
    && (r.outcome == InvocationOutcome.Failed ==> r.errorClass != NoError)
    && r.arguments == SanitizeArguments(sensitive, r.arguments)
  }

  /**
   Sanitizing keeps every name, redacts exactly the sensitive values and leaves the others;
   arguments pass a record's own check exactly when every sensitive value is redacted, which
   sanitized ones are.
   */
  lemma SanitizingRedacts(sensitive: string -> bool, arguments: Arguments)
    ensures var clean := SanitizeArguments(sensitive, arguments);
            && clean.Keys == arguments.Keys
            && (forall name :: name in arguments ==>
                  clean[name] == if sensitive(name) then "[redacted]" else arguments[name])
            && SanitizeArguments(sensitive, clean) == clean
    ensures arguments == SanitizeArguments(sensitive, arguments) <==>
            forall name :: name in arguments && sensitive(name) ==> arguments[name] == "[redacted]"
  {
    var clean := SanitizeArguments(sensitive, arguments);
    if forall name :: name in arguments && sensitive(name) ==> arguments[name] == "[redacted]" {
      assert clean == arguments;
    }
  }

  /** A record is refused for a credential in it, an error class that does not fit its outcome, or a denial that ran. */
  lemma RefusedRecords(sensitive: string -> bool, r: Invocation)
    ensures !ValidRecord(sensitive, r) <==>
            || (exists name :: name in r.arguments && sensitive(name) && r.arguments[name] != "[redacted]")
            || (r.outcome == Succeeded && r.errorClass != NoError)
            || (r.outcome in {Denied, InvocationOutcome.Failed} && r.errorClass == NoError)
            || (r.decision == Deny && (r.outcome != Denied || r.errorClass != PolicyDenied))
  {
    SanitizingRedacts(sensitive, r.arguments);
    hide SanitizeArguments;
  }
}
