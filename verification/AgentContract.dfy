/**
 Asking an agent for its contract, with bounded correction: as the event-driven flow of
 src/research_platform/agents/flow.py and as the loop of
 src/research_platform/agents/validation.py.
 */
module AgentContract {
  import opened Basics

  /** Parsing and verifying one response: accept, reject with a description, or raise something else. */
  datatype Verdict<+T> = Accepted(value: T) | Rejected(failure: string) | Crashed(error: Error)

  /** An agent answers from everything it has been told: `None` first, then the failure of each try. */
  type Agent = seq<Option<string>> -> string

  /**
   Parsing and verifying an answer. The verdict may depend on everything the agent had been
   told by then: its tool calls in between fill the ledger an answer is verified against, so
   the same text may be rejected first and accepted later.
   */
  type Judge<!T> = (seq<Option<string>>, string) -> Verdict<T>

  datatype Result<+T> = Contract(value: T) | GaveUp(attempts: nat) | Broke(error: Error)

  function Told(failures: seq<string>): seq<Option<string>> {
    [None] + seq(|failures|, i requires 0 <= i < |failures| => Some(failures[i]))
  }

  /** The verdict on the try that follows these failures. */
  function Try<T>(agent: Agent, judge: Judge<T>, failures: seq<string>): Verdict<T> {
    judge(Told(failures), agent(Told(failures)))
  }

  /** What asking at most `max` times comes to, after these failures: the result and all failures. */
  function Settle<T>(agent: Agent, judge: Judge<T>, max: nat, failures: seq<string>): (Result<T>, seq<string>)
    requires |failures| <= max
    decreases max - |failures|
  {
    if |failures| == max then (GaveUp(max), failures)
    else
      match Try(agent, judge, failures)
      case Accepted(value) => (Contract(value), failures)
      case Crashed(error) => (Broke(error), failures)
      case Rejected(failure) => Settle(agent, judge, max, failures + [failure])
  }

  // ---------------------------------------------------------------- the loop

  class BoundedSchemaCorrection {
    const maxAttempts: nat
    var failures: seq<string>

    constructor (maxAttempts: nat)
      requires maxAttempts >= 1
      ensures this.maxAttempts == maxAttempts && failures == []
    {
      this.maxAttempts := maxAttempts;
      failures := [];
    }

    /** `resolve`: produce, parse, verify, at most `maxAttempts` times. */
    method Resolve<T>(agent: Agent, judge: Judge<T>) returns (r: Result<T>)
      modifies this
      ensures (r, failures) == Settle(agent, judge, maxAttempts, [])
    {
      failures := [];
      var told: seq<Option<string>> := [];
      var correction: Option<string> := None;
      for attempt := 0 to maxAttempts
        invariant |failures| == attempt
        invariant told + [correction] == Told(failures)
        invariant Settle(agent, judge, maxAttempts, failures) == Settle(agent, judge, maxAttempts, [])
      {
        told := told + [correction];
        match judge(told, agent(told)) {
          case Accepted(value) =>
            return Contract(value);
          case Crashed(error) =>
            return Broke(error);
          case Rejected(failure) =>
            correction := Some(failure);
            failures := failures + [failure];
        }
      }
      r := GaveUp(maxAttempts);
    }
  }

  // ---------------------------------------------------------------- the flow

  datatype Route = AcceptedRoute | RejectedRoute | ExhaustedRoute

  class AgentContractFlow<T> {
    const agent: Agent
    const judge: Judge<T>
    const maxAttempts: nat
    var attempts: nat
    var raw: string
    var failures: seq<string>
    var accepted: Option<T>
    /** What the agent has been told so far, which its answers and its tool calls follow from. */
    var told: seq<Option<string>>

    /** Between steps: one ask more than failures judged so far, when an answer is waiting. */
    ghost predicate Valid(waiting: bool)
      reads this
    {
      && accepted.None? && maxAttempts >= 1 && attempts <= maxAttempts
      && attempts == |failures| + (if waiting then 1 else 0)
      && told == Told(failures)[..attempts]
      && (waiting ==> raw == agent(told))
    }

    constructor (agent: Agent, judge: Judge<T>, maxAttempts: nat)
      requires maxAttempts >= 1
      ensures Valid(false) && failures == []
      ensures this.agent == agent && this.judge == judge && this.maxAttempts == maxAttempts
    {
      this.agent, this.judge, this.maxAttempts := agent, judge, maxAttempts;
      attempts, raw, failures, accepted, told := 0, "", [], None, [];
    }

    /** `request` and `correct` ask alike; they differ in what they tell the agent. */
    method Ask(message: Option<string>)
      requires Valid(false) && attempts < maxAttempts
      requires message == if failures == [] then None else Some(failures[|failures| - 1])
      modifies this
      ensures Valid(true) && failures == old(failures) && told == old(told) + [message]
    {
      attempts := attempts + 1;
      told := told + [message];
      raw := agent(told);
    }

    /** `judge`: accept, send back for correction, or stop once the attempts are spent. */
    method JudgeAnswer() returns (route: Outcome<Route>)
      requires Valid(true)
      modifies this
      ensures match Try(agent, judge, old(failures))
              case Accepted(value) =>
                route == Returned(AcceptedRoute) && accepted == Some(value) && failures == old(failures)
                && attempts == old(attempts)
              case Crashed(error) => route == Raised(error) && failures == old(failures) && accepted.None?
              case Rejected(failure) =>
                && failures == old(failures) + [failure] && Valid(false) && told == old(told)
                && route == Returned(if |failures| == maxAttempts then ExhaustedRoute else RejectedRoute)
    {
      assert told == Told(failures);
      match judge(told, raw) {
        case Accepted(value) =>
          accepted := Some(value);
          route := Returned(AcceptedRoute);
        case Crashed(error) =>
          route := Raised(error);
        case Rejected(failure) =>
          failures := failures + [failure];
          assert told == Told(failures)[..attempts];
          route := Returned(if attempts >= maxAttempts then ExhaustedRoute else RejectedRoute);
      }
    }

    /** Request, then judge and correct until the route says otherwise. */
    method Kickoff() returns (r: Result<T>)
      requires Valid(false) && failures == []
      modifies this
      ensures (r, failures) == Settle(agent, judge, maxAttempts, [])
    {
      Ask(None);
      while true
        invariant Valid(true)
        invariant Settle(agent, judge, maxAttempts, failures) == Settle(agent, judge, maxAttempts, [])
        decreases maxAttempts - |failures|
      {
        var route := JudgeAnswer();
        if route.Raised? {
          return Broke(route.error);
        }
        match route.value {
          case AcceptedRoute =>
            return Contract(accepted.value);
          case ExhaustedRoute =>
            return GaveUp(attempts);
          case RejectedRoute =>
            Ask(Some(failures[|failures| - 1]));
        }
      }
    }
  }

  /** Run side by side, the flow and the loop reach the same result after the same failures. */
  method FlowAndLoopAgree<T>(agent: Agent, judge: Judge<T>, maxAttempts: nat)
    returns (flowResult: Result<T>, loopResult: Result<T>, flowFailures: seq<string>, loopFailures: seq<string>)
    requires maxAttempts >= 1
    ensures flowResult == loopResult && flowFailures == loopFailures
    ensures flowResult.GaveUp? <==> |flowFailures| == maxAttempts
    ensures flowResult.GaveUp? ==> flowResult.attempts == maxAttempts
  {
    var flow := new AgentContractFlow<T>(agent, judge, maxAttempts);
    flowResult := flow.Kickoff();
    var loop := new BoundedSchemaCorrection(maxAttempts);
    loopResult := loop.Resolve(agent, judge);
    flowFailures, loopFailures := flow.failures, loop.failures;
    SettleIsFirstAnswer(agent, judge, maxAttempts, []);
  }

  // ---------------------------------------------------------------- what both compute

  /** Each failure is the verdict on the try after the failures before it. */
  ghost predicate RejectedInTurn<T>(agent: Agent, judge: Judge<T>, failures: seq<string>) {
    forall i :: 0 <= i < |failures| ==> Try(agent, judge, failures[..i]) == Rejected(failures[i])
  }

  /** The failures stop where a try was not rejected, or where the attempts ran out. */
  ghost predicate Stops<T>(agent: Agent, judge: Judge<T>, max: nat, r: Result<T>, failures: seq<string>) {
    if |failures| == max then r == GaveUp(max)
    else
      |failures| < max &&
      match Try(agent, judge, failures)
      case Accepted(value) => r == Contract(value)
      case Crashed(error) => r == Broke(error)
      case Rejected(_) => false
  }

  /** The result is the first answer that is not rejected, or giving up after exactly `max` rejections. */
  lemma {:induction false} SettleIsFirstAnswer<T>(agent: Agent, judge: Judge<T>, max: nat, failures: seq<string>)
    requires |failures| <= max && RejectedInTurn(agent, judge, failures)
    ensures var (r, all) := Settle(agent, judge, max, failures);
            failures <= all && RejectedInTurn(agent, judge, all) && Stops(agent, judge, max, r, all)
    decreases max - |failures|
  {
    if |failures| < max {
      match Try(agent, judge, failures)
      case Rejected(failure) =>
        var longer := failures + [failure];
        forall i | 0 <= i < |longer|
          ensures Try(agent, judge, longer[..i]) == Rejected(longer[i])
        {
          assert longer[..i] == failures[..i];
        }
        SettleIsFirstAnswer(agent, judge, max, longer);
      case Accepted(_) =>
      case Crashed(_) =>
    }
  }

  /** And nothing else satisfies that description. */
  lemma SettleIsTheOnlyAnswer<T>(agent: Agent, judge: Judge<T>, max: nat, r: Result<T>, failures: seq<string>)
    requires RejectedInTurn(agent, judge, failures) && Stops(agent, judge, max, r, failures)
    ensures (r, failures) == Settle(agent, judge, max, [])
  {
    SettleFollows(agent, judge, max, failures, |failures|);
    assert failures[..|failures|] == failures;
  }

  lemma {:induction false} SettleFollows<T>(agent: Agent, judge: Judge<T>, max: nat, failures: seq<string>, n: nat)
    requires RejectedInTurn(agent, judge, failures) && n <= |failures| <= max
    ensures Settle(agent, judge, max, failures[..n]) == Settle(agent, judge, max, [])
  {
    if n > 0 {
      SettleFollows(agent, judge, max, failures, n - 1);
      assert failures[..n] == failures[..n - 1] + [failures[n - 1]];
    }
  }
}
