/**
 Several calls in flight through one gateway: the locked steps of
 src/research_platform/mcp/gateway.py (claiming a call, looking at the circuit, reporting to
 it, storing the record) interleaved in any way.
 */
module ConcurrentGateway {
  import opened Basics
  import opened Capabilities
  import opened Gateway
  import opened GatewayAudit
  import Budgets
  import Breaker
  import Sanitizer

  /** How far a call has come. `Recording` holds the record built for it, not yet stored. */
  datatype Phase =
    | Passed
    | Claimed
    | Cleared
    | Running
    | Recording(record: Invocation, claimed: bool, executed: bool)
    | Done
    | Lost

  datatype Flight = Flight(call: Call, capability: Capability, phase: Phase)

  datatype Shared = Shared(state: State, flights: seq<Flight>)

  const IDLE := Shared(START, [])

  /** The next step of some call; a step the call has not come to does nothing. */
  datatype Event =
    | Begins(call: Call)
    | Reserves(n: nat)
    | Looks(n: nat)
    | Executes(n: nat)
    | Returns(n: nat)
    | Records(n: nat)

  // ---------------------------------------------------------------- the steps

  /** A record that breaks its own rules is lost. */
  function Built(d: Deployment, record: Invocation, claimed: bool, executed: bool): Phase {
    if ValidRecord(d.sensitive, record) then Recording(record, claimed, executed) else Lost
  }

  function RefusalOf(d: Deployment, call: Call, c: Capability, errorClass: ErrorClass): Invocation {
    RecordOf(d, call, c, if errorClass == PolicyDenied then Deny else Allow, Denied, errorClass)
  }

  /** The guards that look at nothing shared. */
  function Admitted(d: Deployment, call: Call, c: Capability): Phase {
    if PolicyRefusals(call, c) != [] || ApprovalMissing(d, call, c)
    then Built(d, RefusalOf(d, call, c, PolicyDenied), false, false)
    else Passed
  }

  /** What becomes of a call whose executor returned or raised. */
  function Answered(d: Deployment, f: Flight): Phase {
    match f.call.execution
    case Crashes(_) => Lost
    case Upstream(_, errorClass) =>
      Built(d, RecordOf(d, f.call, f.capability, Allow, InvocationOutcome.Failed, errorClass), true, true)
    case Replies(raw) =>
      var content := Sanitizer.SanitizeResult(d.isFormat, raw, f.capability.maxResultBytes).value;
      Built(d, if content.truncated
               then RecordOf(d, f.call, f.capability, Allow, InvocationOutcome.Failed, ResultTooLarge)
               else RecordOf(d, f.call, f.capability, Allow, Succeeded, NoError), true, true)
  }

  function Moved(s: Shared, n: nat, state: State, phase: Phase): Shared
    requires n < |s.flights|
  {
    Shared(state, s.flights[n := s.flights[n].(phase := phase)])
  }

  function Begin(d: Deployment, s: Shared, call: Call): Shared {
    match ResolveFor(d.registry, call.principal, call.server, call.name)
    case None => s
    case Some(c) => s.(flights := s.flights + [Flight(call, c, Admitted(d, call, c))])
  }

  function Claim(d: Deployment, s: Shared, n: nat): Shared
    requires n < |s.flights|
  {
    var f := s.flights[n];
    var (ledger, claimed) := Budgets.Reserve(s.state.ledger, f.call.job, f.call.budget);
    Moved(s, n, s.state.(ledger := ledger),
          if claimed.Some? then Claimed
          else Built(d, RefusalOf(d, f.call, f.capability, BudgetExhausted), false, false))
  }

  function Check(d: Deployment, s: Shared, n: nat): Shared
    requires n < |s.flights|
  {
    var f := s.flights[n];
    var circuits := Breaker.Look(d.breaker, s.state.circuits, f.capability.server, f.call.checkedAt);
    Moved(s, n, s.state.(circuits := circuits),
          if Breaker.Of(circuits, f.capability.server).state == Breaker.Open
          then Built(d, RefusalOf(d, f.call, f.capability, UpstreamUnavailable), true, false)
          else Cleared)
  }

  function Send(s: Shared, n: nat): Shared
    requires n < |s.flights|
  {
    var f := s.flights[n];
    var request := Request(f.call.job, f.capability, f.call.principal, f.call.arguments);
    Moved(s, n, s.state.(executed := s.state.executed + [request]), Running)
  }

  function Return(d: Deployment, s: Shared, n: nat): Shared
    requires n < |s.flights|
  {
    var f := s.flights[n];
    Moved(s, n, s.state.(circuits := Reported(d, s.state.circuits, f.capability.server, f.call)), Answered(d, f))
  }

  function Store(s: Shared, n: nat): Shared
    requires n < |s.flights| && s.flights[n].phase.Recording?
  {
    Moved(s, n, s.state.(trail := s.state.trail + [s.flights[n].phase.record]), Done)
  }

  function Next(d: Deployment, s: Shared, e: Event): Shared {
    match e
    case Begins(call) => Begin(d, s, call)
    case Reserves(n) => if n < |s.flights| && s.flights[n].phase.Passed? then Claim(d, s, n) else s
    case Looks(n) => if n < |s.flights| && s.flights[n].phase.Claimed? then Check(d, s, n) else s
    case Executes(n) => if n < |s.flights| && s.flights[n].phase.Cleared? then Send(s, n) else s
    case Returns(n) => if n < |s.flights| && s.flights[n].phase.Running? then Return(d, s, n) else s
    case Records(n) => if n < |s.flights| && s.flights[n].phase.Recording? then Store(s, n) else s
  }

  function After(d: Deployment, trace: seq<Event>): Shared {
    if trace == [] then IDLE else Next(d, After(d, trace[..|trace| - 1]), trace[|trace| - 1])
  }

  // ---------------------------------------------------------------- calls still on the books

  /** Claimed without a stored record so far; lost without one for good; claimed and not sent to the executor. */
  datatype Kind = Owed | Gone | Unsent

  predicate Is(f: Flight, kind: Kind) {
    match kind
    case Owed => f.phase.Claimed? || f.phase.Cleared? || f.phase.Running? || (f.phase.Recording? && f.phase.claimed)
    case Gone => f.phase.Lost?
    case Unsent => f.phase.Claimed? || f.phase.Cleared? || (f.phase.Recording? && f.phase.claimed && !f.phase.executed)
  }

  function One(f: Flight, job: Id, kind: Kind): nat {
    if f.call.job == job && Is(f, kind) then 1 else 0
  }

  function Count(flights: seq<Flight>, job: Id, kind: Kind): nat {
    if flights == [] then 0
    else Count(flights[..|flights| - 1], job, kind) + One(flights[|flights| - 1], job, kind)
  }

  lemma {:induction false} CountMoved(flights: seq<Flight>, n: nat, f: Flight, job: Id, kind: Kind)
    requires n < |flights|
    ensures Count(flights[n := f], job, kind) ==
        Count(flights, job, kind) - One(flights[n], job, kind) + One(f, job, kind)
  {
    var last := |flights| - 1;
    if n < last {
      CountMoved(flights[..last], n, f, job, kind);
      assert flights[n := f][..last] == flights[..last][n := f];
    } else {
      assert flights[n := f][..last] == flights[..last];
    }
  }

  lemma CountBegun(flights: seq<Flight>, f: Flight, job: Id, kind: Kind)
    ensures Count(flights + [f], job, kind) == Count(flights, job, kind) + One(f, job, kind)
  {
    assert (flights + [f])[..|flights + [f]| - 1] == flights;
  }

  // ---------------------------------------------------------------- what every step keeps

  /** The record of a call agrees with how far the call came, and only an escaping answer is lost. */
  ghost predicate Fits(f: Flight) {
    match f.phase
    case Recording(r, claimed, executed) =>
      && r.job == f.call.job
      && (if executed then claimed && r.decision == Allow && r.outcome != Denied
          else if claimed then r.decision == Allow && r.outcome == Denied && r.errorClass == UpstreamUnavailable
          else r.decision == Deny || (r.outcome == Denied && r.errorClass == BudgetExhausted))
    case Lost => Escapes(f.call)
    case _ => true
  }

  ghost predicate AllFit(flights: seq<Flight>) {
    forall n :: 0 <= n < |flights| ==> Fits(flights[n])
  }

  /** Every claimed call of the job is on the books exactly once. */
  ghost predicate OnTheBooks(s: Shared, job: Id) {
    var spent := Budgets.SpentBy(s.state.ledger, job).toolCalls;
    && spent + RefusedFor(s.state.trail, job, BudgetExhausted)
       == Authorized(s.state.trail, job) + Count(s.flights, job, Owed) + Count(s.flights, job, Gone)
    && spent == Executions(s.state.executed, job) + RefusedFor(s.state.trail, job, UpstreamUnavailable)
                + Count(s.flights, job, Unsent)
  }

  lemma RefusalIsBuilt(d: Deployment, call: Call, c: Capability, errorClass: ErrorClass, claimed: bool)
    requires errorClass != NoError
    ensures Built(d, RefusalOf(d, call, c, errorClass), claimed, false)
            == Recording(RefusalOf(d, call, c, errorClass), claimed, false)
  {
    SanitizingRedacts(d.sensitive, call.arguments);
  }

  lemma AnswerFits(d: Deployment, f: Flight)
    ensures Fits(f.(phase := Answered(d, f)))
    ensures Answered(d, f).Lost? || (Answered(d, f).Recording? && Answered(d, f).claimed && Answered(d, f).executed)
  {
    SanitizingRedacts(d.sensitive, f.call.arguments);
    hide Sanitizer.SanitizeResult, SanitizeArguments;
  }

  lemma Moves(s: Shared, n: nat, state: State, phase: Phase, job: Id)
    requires n < |s.flights| && AllFit(s.flights) && Fits(s.flights[n].(phase := phase))
    ensures var t := Moved(s, n, state, phase);
            && AllFit(t.flights)
            && forall kind :: Count(t.flights, job, kind) ==
                 Count(s.flights, job, kind) - One(s.flights[n], job, kind) + One(s.flights[n].(phase := phase),
                     job, kind)
  {
    forall kind
      ensures Count(Moved(s, n, state, phase).flights, job, kind) ==
              Count(s.flights, job, kind) - One(s.flights[n], job, kind) + One(s.flights[n].(phase := phase), job, kind)
    {
      CountMoved(s.flights, n, s.flights[n].(phase := phase), job, kind);
    }
  }

  ghost predicate Sound(s: Shared, job: Id) {
    AllFit(s.flights) && OnTheBooks(s, job)
  }

  /** A call that has only met the stateless guards is not on the books. */
  lemma AdmittedFits(d: Deployment, call: Call, c: Capability)
    ensures var f := Flight(call, c, Admitted(d, call, c));
            Fits(f) && forall kind :: !Is(f, kind)
  {
    RefusalIsBuilt(d, call, c, PolicyDenied, false);
    hide PolicyRefusals, ApprovalMissing, Built, SanitizeArguments;
  }

  lemma OffTheBooks(s: Shared, f: Flight, job: Id)
    requires Sound(s, job) && Fits(f) && forall kind :: !Is(f, kind)
    ensures Sound(s.(flights := s.flights + [f]), job)
  {
    CountBegun(s.flights, f, job, Owed);
    CountBegun(s.flights, f, job, Gone);
    CountBegun(s.flights, f, job, Unsent);
    hide Count, Authorized, RefusedFor, Executions, Fits, Is;
  }

  lemma BeginKeeps(d: Deployment, s: Shared, call: Call, job: Id)
    requires Sound(s, job)
    ensures Sound(Begin(d, s, call), job)
  {
    hide ResolveFor, Admitted, Sound, Fits, Is;
    var r := ResolveFor(d.registry, call.principal, call.server, call.name);
    if r.Some? {
      AdmittedFits(d, call, r.value);
      OffTheBooks(s, Flight(call, r.value, Admitted(d, call, r.value)), job);
    }
  }

  lemma ClaimKeeps(d: Deployment, s: Shared, n: nat, job: Id)
    requires Sound(s, job) && n < |s.flights| && s.flights[n].phase.Passed?
    ensures Sound(Claim(d, s, n), job)
  {
    var f, t := s.flights[n], Claim(d, s, n);
    RefusalIsBuilt(d, f.call, f.capability, BudgetExhausted, false);
    hide Built, Count, Authorized, RefusedFor, Executions, SanitizeArguments;
    Moves(s, n, t.state, t.flights[n].phase, job);
  }

  lemma CheckKeeps(d: Deployment, s: Shared, n: nat, job: Id)
    requires Sound(s, job) && n < |s.flights| && s.flights[n].phase.Claimed?
    ensures Sound(Check(d, s, n), job)
  {
    var f, t := s.flights[n], Check(d, s, n);
    RefusalIsBuilt(d, f.call, f.capability, UpstreamUnavailable, true);
    hide Built, Count, Authorized, RefusedFor, Executions, SanitizeArguments, Breaker.Look, Breaker.Of;
    Moves(s, n, t.state, t.flights[n].phase, job);
  }

  lemma SendKeeps(s: Shared, n: nat, job: Id)
    requires Sound(s, job) && n < |s.flights| && s.flights[n].phase.Cleared?
    ensures Sound(Send(s, n), job)
  {
    var t := Send(s, n);
    hide Count, Authorized, RefusedFor, Executions;
    ExecutionsAppended(s.state.executed, t.state.executed[|s.state.executed|], job);
    Moves(s, n, t.state, Running, job);
  }

  lemma ReturnKeeps(d: Deployment, s: Shared, n: nat, job: Id)
    requires Sound(s, job) && n < |s.flights| && s.flights[n].phase.Running?
    ensures Sound(Return(d, s, n), job)
  {
    var t := Return(d, s, n);
    AnswerFits(d, s.flights[n]);
    hide Count, Authorized, RefusedFor, Executions, Answered, Reported;
    Moves(s, n, t.state, t.flights[n].phase, job);
  }

  /** What a stored record adds to the trail's counts is what its call no longer owes. */
  lemma RecordSettles(f: Flight, trail: seq<Invocation>, job: Id)
    requires f.phase.Recording? && Fits(f)
    ensures var after := trail + [f.phase.record];
            && Authorized(after, job) - RefusedFor(after, job, BudgetExhausted) ==
               Authorized(trail, job) - RefusedFor(trail, job, BudgetExhausted) + One(f, job, Owed)
            && RefusedFor(after, job, UpstreamUnavailable) ==
               RefusedFor(trail, job, UpstreamUnavailable) + One(f, job, Unsent)
            && One(f, job, Gone) == 0
  {
    CountsAppended(trail, f.phase.record, job, BudgetExhausted);
    CountsAppended(trail, f.phase.record, job, UpstreamUnavailable);
    hide Authorized, RefusedFor;
  }

  lemma RecordKeeps(s: Shared, n: nat, job: Id)
    requires Sound(s, job) && n < |s.flights| && s.flights[n].phase.Recording?
    ensures Sound(Store(s, n), job)
  {
    var f, t := s.flights[n], Store(s, n);
    assert Fits(f);
    assert forall kind :: One(f.(phase := Done), job, kind) == 0;
    Moves(s, n, t.state, Done, job);
    RecordSettles(f, s.state.trail, job);
    hide Count, Authorized, RefusedFor, Executions, One, Fits;
  }

  lemma StepKeeps(d: Deployment, s: Shared, e: Event, job: Id)
    requires Sound(s, job)
    ensures Sound(Next(d, s, e), job)
  {
    hide Sound, Begin, Claim, Check, Send, Return, Store;
    if e.Begins? {
      BeginKeeps(d, s, e.call, job);
    } else if e.n < |s.flights| {
      var phase := s.flights[e.n].phase;
      if e.Reserves? && phase.Passed? {
        ClaimKeeps(d, s, e.n, job);
      } else if e.Looks? && phase.Claimed? {
        CheckKeeps(d, s, e.n, job);
      } else if e.Executes? && phase.Cleared? {
        SendKeeps(s, e.n, job);
      } else if e.Returns? && phase.Running? {
        ReturnKeeps(d, s, e.n, job);
      } else if e.Records? && phase.Recording? {
        RecordKeeps(s, e.n, job);
      }
    }
  }

  lemma {:induction false} TraceKeeps(d: Deployment, trace: seq<Event>, job: Id)
    ensures Sound(After(d, trace), job)
  {
    if trace != [] {
      TraceKeeps(d, trace[..|trace| - 1], job);
      StepKeeps(d, After(d, trace[..|trace| - 1]), trace[|trace| - 1], job);
    }
  }

  // ---------------------------------------------------------------- the result

  /** Every budget the job's calls carry allows at most `most` calls. */
  ghost predicate Allows(trace: seq<Event>, job: Id, most: nat) {
    forall i :: 0 <= i < |trace| && trace[i].Begins? && trace[i].call.job == job ==>
      trace[i].call.budget.maxToolCalls <= most
  }

  ghost predicate WithinBudget(s: Shared, job: Id, most: nat) {
    && Budgets.SpentBy(s.state.ledger, job).toolCalls <= most
    && forall n :: 0 <= n < |s.flights| && s.flights[n].call.job == job ==>
         s.flights[n].call.budget.maxToolCalls <= most
  }

  lemma StepWithinBudget(d: Deployment, s: Shared, e: Event, job: Id, most: nat)
    requires WithinBudget(s, job, most)
    requires e.Begins? && e.call.job == job ==> e.call.budget.maxToolCalls <= most
    ensures WithinBudget(Next(d, s, e), job, most)
  {
    hide ResolveFor, Admitted, Answered, Built, Breaker.Look, Breaker.Of, Reported, RefusalOf;
  }

  lemma {:induction false} TraceWithinBudget(d: Deployment, trace: seq<Event>, job: Id, most: nat)
    requires Allows(trace, job, most)
    ensures WithinBudget(After(d, trace), job, most)
  {
    if trace != [] {
      var n := |trace| - 1;
      TraceWithinBudget(d, trace[..n], job, most);
      StepWithinBudget(d, After(d, trace[..n]), trace[n], job, most);
    }
  }

  /** No call is between its claim and the end of its bookkeeping. */
  ghost predicate Settled(s: Shared) {
    forall n :: 0 <= n < |s.flights| ==> !Is(s.flights[n], Owed)
  }

  lemma {:induction false} NothingOwed(flights: seq<Flight>, job: Id)
    requires forall n :: 0 <= n < |flights| ==> !Is(flights[n], Owed)
    ensures Count(flights, job, Owed) == 0 && Count(flights, job, Unsent) == 0
  {
    if flights != [] {
      NothingOwed(flights[..|flights| - 1], job);
    }
  }

  /**
   On every interleaving of any number of calls, at every moment, a job's counter of tool calls
   is its authorized records without those refused for its budget, plus the claimed calls not
   yet recorded, plus those whose answer escaped; it is also its executions, plus the calls an
   open circuit refused, plus the claimed calls not yet sent or recorded; and neither it nor
   the executions ever pass the budget. Once no claimed call is pending, the counter is read
   off the trail and the escaped calls.
   */
  lemma ConcurrentSpendingIsAudited(d: Deployment, trace: seq<Event>, job: Id, most: nat)
    requires Allows(trace, job, most)
    ensures var s := After(d, trace);
            var spent := Budgets.SpentBy(s.state.ledger, job).toolCalls;
            var audited := Authorized(s.state.trail, job) - RefusedFor(s.state.trail, job, BudgetExhausted);
            && spent == audited + Count(s.flights, job, Owed) + Count(s.flights, job, Gone)
            && spent == Executions(s.state.executed, job) + RefusedFor(s.state.trail, job, UpstreamUnavailable)
                        + Count(s.flights, job, Unsent)
            && Executions(s.state.executed, job) <= spent <= most
            && (forall n :: 0 <= n < |s.flights| && s.flights[n].phase.Lost? ==> Escapes(s.flights[n].call))
            && (Settled(s) ==> spent == audited + Count(s.flights, job, Gone))
  {
    hide After, Count, Authorized, RefusedFor, Executions, Budgets.SpentBy;
    TraceKeeps(d, trace, job);
    TraceWithinBudget(d, trace, job, most);
    var s := After(d, trace);
    assert forall n :: 0 <= n < |s.flights| ==> Fits(s.flights[n]);
    if Settled(s) {
      NothingOwed(s.flights, job);
    }
  }
}
