/**
 What a job may spend: the ledger of src/research_platform/mcp/breaker.py, and the agent
 calls of src/research_platform/workflow/activities.py that are checked before they start
 and paid for when they finish.
 */
module Budgets {
  import opened Basics

  datatype Usage = Usage(
    toolCalls: nat, agentCalls: nat, corrections: nat, promptTokens: nat, completionTokens: nat,
    cost: real, seconds: real)

  const NOTHING := Usage(0, 0, 0, 0, 0, 0.0, 0.0)

  function Tokens(u: Usage): nat {
    u.promptTokens + u.completionTokens
  }

  datatype RawBudget = Budget(maxToolCalls: nat, maxTokens: nat, maxCost: real, maxSeconds: real)

  type Budget = b: RawBudget | b.maxToolCalls >= 1 && b.maxTokens >= 1 && b.maxCost > 0.0 && b.maxSeconds > 0.0
    witness Budget(50, 2_000_000, 10.0, 3600.0)

  type Ledger = map<Id, Usage>

  function SpentBy(ledger: Ledger, job: Id): Usage {
    if job in ledger then ledger[job] else NOTHING
  }

  /** `reserve_call`: claim a call and report how many are claimed now, or refuse with `None`. */
  function Reserve(ledger: Ledger, job: Id, budget: Budget): (Ledger, Option<nat>) {
    var spent := SpentBy(ledger, job);
    if spent.toolCalls >= budget.maxToolCalls then (ledger[job := spent], None)
    else (ledger[job := spent.(toolCalls := spent.toolCalls + 1)], Some(spent.toolCalls + 1))
  }

  /** Which of the three budgets an agent call is checked against is spent, if any. */
  function Exhausted(spent: Usage, budget: Budget): Option<string> {
    if Tokens(spent) >= budget.maxTokens then Some("token")
    else if spent.cost >= budget.maxCost then Some("USD cost")
    else if spent.seconds >= budget.maxSeconds then Some("second runtime")
    else None
  }

  /** What one finished agent call used; every figure of the source is checked not to be negative. */
  datatype RawBill = Bill(promptTokens: nat, completionTokens: nat, cost: real, seconds: real, corrections: nat)

  type Bill = b: RawBill | b.cost >= 0.0 && b.seconds >= 0.0 witness Bill(0, 0, 0.0, 0.0, 0)

  function Paid(spent: Usage, bill: Bill): Usage {
    Usage(spent.toolCalls, spent.agentCalls + 1, spent.corrections + bill.corrections,
          spent.promptTokens + bill.promptTokens, spent.completionTokens + bill.completionTokens,
          spent.cost + bill.cost, spent.seconds + bill.seconds)
  }

  class BudgetLedger {
    var usage: Ledger

    constructor ()
      ensures usage == map[]
    {
      usage := map[];
    }

    method ReserveCall(job: Id, budget: Budget) returns (claimed: Option<nat>)
      modifies this
      ensures (usage, claimed) == Reserve(old(usage), job, budget)
      ensures SpentBy(usage, job).toolCalls <= budget.maxToolCalls || SpentBy(usage, job) == SpentBy(old(usage), job)
    {
      var spent := SpentBy(usage, job);
      if spent.toolCalls >= budget.maxToolCalls {
        usage := usage[job := spent];
        return None;
      }
      usage := usage[job := spent.(toolCalls := spent.toolCalls + 1)];
      claimed := Some(spent.toolCalls + 1);
    }

    /** Refuses exactly when tokens, money or time have reached their limit, naming the first that has. */
    method EnsureWithin(job: Id, budget: Budget) returns (refused: Option<string>)
      ensures var spent := SpentBy(usage, job);
              && (refused.Some? <==>
                    || spent.promptTokens + spent.completionTokens >= budget.maxTokens
                    || spent.cost >= budget.maxCost
                    || spent.seconds >= budget.maxSeconds)
              && (refused == Some("token") <==> spent.promptTokens + spent.completionTokens >= budget.maxTokens)
              && (refused == Some("second runtime") ==> spent.cost < budget.maxCost)
      ensures refused == Exhausted(SpentBy(usage, job), budget)
    {
      var spent := SpentBy(usage, job);
      if Tokens(spent) >= budget.maxTokens {
        return Some("token");
      }
      if spent.cost >= budget.maxCost {
        return Some("USD cost");
      }
      if spent.seconds >= budget.maxSeconds {
        return Some("second runtime");
      }
      refused := None;
    }

    method RecordAgentCall(job: Id, bill: Bill) returns (total: Usage)
      modifies this
      ensures total == Paid(SpentBy(old(usage), job), bill)
      ensures usage == old(usage)[job := total]
    {
      total := Paid(SpentBy(usage, job), bill);
      usage := usage[job := total];
    }
  }

  // ---------------------------------------------------------------- agent calls in flight

  /** An agent call of one job asking to start, or finishing with its bill. */
  datatype Event = Starts(call: nat) | Finishes(call: nat, bill: Bill)

  datatype Spending = Spending(spent: Usage, inFlight: set<nat>)

  function Next(budget: Budget, s: Spending, e: Event): Spending {
    match e
    case Starts(call) => if Exhausted(s.spent, budget).None? then s.(inFlight := s.inFlight + {call}) else s
    case Finishes(call, bill) => Spending(Paid(s.spent, bill), s.inFlight - {call})
  }

  function After(budget: Budget, trace: seq<Event>): Spending {
    if trace == [] then Spending(NOTHING, {})
    else Next(budget, After(budget, trace[..|trace| - 1]), trace[|trace| - 1])
  }

  /** The most one agent call may use. */
  datatype RawPrice = Price(tokens: nat, cost: real, seconds: real)

  type Price = p: RawPrice | p.cost >= 0.0 && p.seconds >= 0.0 witness Price(0, 0.0, 0.0)

  ghost predicate Affordable(bill: Bill, price: Price) {
    && bill.promptTokens + bill.completionTokens <= price.tokens
    && bill.cost <= price.cost && bill.seconds <= price.seconds
  }

  /** At most `k` calls are in flight, each new call has a new name, and none costs more than `price`. */
  ghost predicate Possible(budget: Budget, trace: seq<Event>, k: nat, price: Price) {
    if trace == [] then true
    else
      var rest := trace[..|trace| - 1];
      && Possible(budget, rest, k, price)
      && |After(budget, trace).inFlight| <= k
      && match trace[|trace| - 1]
         case Starts(call) => call !in After(budget, rest).inFlight
         case Finishes(call, bill) => call in After(budget, rest).inFlight && Affordable(bill, price)
  }

  lemma MulMonotone(m: nat, k: nat, c: nat)
    requires m <= k
    ensures m * c <= k * c
  {
  }

  lemma RealMulMonotone(m: nat, k: nat, c: real)
    requires m <= k && c >= 0.0
    ensures m as real * c <= k as real * c
  {
  }

  /** What is recorded, with every call in flight still to pay its full price, stays under the line. */
  ghost predicate UnderTheLine(budget: Budget, s: Spending, k: nat, price: Price) {
    var n := |s.inFlight|;
    && Tokens(s.spent) + n * price.tokens <= budget.maxTokens - 1 + k * price.tokens
    && s.spent.cost + n as real * price.cost < budget.maxCost + k as real * price.cost
    && s.spent.seconds + n as real * price.seconds < budget.maxSeconds + k as real * price.seconds
  }

  lemma {:induction false} StaysUnderTheLine(budget: Budget, trace: seq<Event>, k: nat, price: Price)
    requires Possible(budget, trace, k, price)
    ensures UnderTheLine(budget, After(budget, trace), k, price)
  {
    if trace == [] {
      StartingIsCovered(budget, Spending(NOTHING, {}), k, price);
    } else {
      var rest := trace[..|trace| - 1];
      StaysUnderTheLine(budget, rest, k, price);
      var before, after := After(budget, rest), After(budget, trace);
      hide UnderTheLine;
      match trace[|trace| - 1]
      case Starts(call) =>
        if Exhausted(before.spent, budget).None? {
          StartingIsCovered(budget, after, k, price);
        }
      case Finishes(call, bill) =>
        FinishingPays(budget, before, call, bill, k, price);
    }
  }

  lemma StartingIsCovered(budget: Budget, s: Spending, k: nat, price: Price)
    requires Exhausted(s.spent, budget).None? && |s.inFlight| <= k
    ensures UnderTheLine(budget, s, k, price)
  {
    MulMonotone(|s.inFlight|, k, price.tokens);
    RealMulMonotone(|s.inFlight|, k, price.cost);
    RealMulMonotone(|s.inFlight|, k, price.seconds);
  }

  lemma FinishingPays(budget: Budget, s: Spending, call: nat, bill: Bill, k: nat, price: Price)
    requires UnderTheLine(budget, s, k, price) && call in s.inFlight && Affordable(bill, price)
    ensures UnderTheLine(budget, Next(budget, s, Finishes(call, bill)), k, price)
  {
    var n := |s.inFlight| - 1;
    assert |s.inFlight - {call}| == n;
    assert (n + 1) * price.tokens == n * price.tokens + price.tokens;
    assert (n + 1) as real * price.cost == n as real * price.cost + price.cost;
    assert (n + 1) as real * price.seconds == n as real * price.seconds + price.seconds;
  }

  /**
   On every interleaving, a job overshoots each budget by at most what the calls in flight
   when it crossed the line may still use.
   */
  lemma OvershootIsBounded(budget: Budget, trace: seq<Event>, k: nat, price: Price)
    requires Possible(budget, trace, k, price)
    ensures var spent := After(budget, trace).spent;
            && spent.promptTokens + spent.completionTokens <= budget.maxTokens - 1 + k * price.tokens
            && spent.cost < budget.maxCost + k as real * price.cost
            && spent.seconds < budget.maxSeconds + k as real * price.seconds
  {
    StaysUnderTheLine(budget, trace, k, price);
    hide After, Possible;
    LineBoundsSpending(budget, After(budget, trace), k, price);
  }

  lemma LineBoundsSpending(budget: Budget, s: Spending, k: nat, price: Price)
    requires UnderTheLine(budget, s, k, price)
    ensures Tokens(s.spent) <= budget.maxTokens - 1 + k * price.tokens
    ensures s.spent.cost < budget.maxCost + k as real * price.cost
    ensures s.spent.seconds < budget.maxSeconds + k as real * price.seconds
  {
    var n := |s.inFlight|;
    MulMonotone(0, n, price.tokens);
    RealMulMonotone(0, n, price.cost);
    RealMulMonotone(0, n, price.seconds);
  }

  /** Once a budget is spent it stays spent, and from then on calls only finish. */
  lemma {:induction false} NothingStartsOnceSpent(budget: Budget, trace: seq<Event>, more: seq<Event>)
    requires Exhausted(After(budget, trace).spent, budget).Some?
    ensures Exhausted(After(budget, trace + more).spent, budget).Some?
    ensures After(budget, trace + more).inFlight <= After(budget, trace).inFlight
  {
    if more == [] {
      assert trace + more == trace;
    } else {
      var n := |more| - 1;
      NothingStartsOnceSpent(budget, trace, more[..n]);
      assert (trace + more)[..|trace + more| - 1] == trace + more[..n];
    }
  }

  /** What the calls finished in a trace were billed. */
  function Billed(trace: seq<Event>): Bill {
    if trace == [] then Bill(0, 0, 0.0, 0.0, 0)
    else
      var before := Billed(trace[..|trace| - 1]);
      match trace[|trace| - 1]
      case Starts(_) => before
      case Finishes(_, bill) =>
        Bill(before.promptTokens + bill.promptTokens, before.completionTokens + bill.completionTokens,
             before.cost + bill.cost, before.seconds + bill.seconds, before.corrections + bill.corrections)
  }

  function Finished(trace: seq<Event>): nat {
    if trace == [] then 0 else Finished(trace[..|trace| - 1]) + if trace[|trace| - 1].Finishes? then 1 else 0
  }

  /** On every interleaving a job's record is the sum of the bills of its finished calls, and nothing else. */
  lemma {:induction false} SpentIsTheSumOfBills(budget: Budget, trace: seq<Event>)
    ensures var (spent, billed) := (After(budget, trace).spent, Billed(trace));
            spent == Usage(0, Finished(trace), billed.corrections, billed.promptTokens, billed.completionTokens,
                           billed.cost, billed.seconds)
  {
    if trace != [] {
      SpentIsTheSumOfBills(budget, trace[..|trace| - 1]);
    }
  }

  // ---------------------------------------------------------------- the bound is reached

  const ONE_TOKEN: Bill := Bill(1, 0, 0.0, 0.0, 0)

  /** `n` calls one after another, of one token each. */
  function Singles(n: nat): seq<Event> {
    if n == 0 then [] else Singles(n - 1) + [Starts(0)] + [Finishes(0, ONE_TOKEN)]
  }

  /** Then calls `0` to `n - 1` started side by side. */
  function Crowd(before: nat, n: nat): seq<Event> {
    if n == 0 then Singles(before) else Crowd(before, n - 1) + [Starts(n - 1)]
  }

  /** Then the last `n` of the `k` calls finishing, each with `c` tokens. */
  function Bills(before: nat, k: nat, n: nat, c: nat): seq<Event>
    requires n <= k
  {
    if n == 0 then Crowd(before, k) else Bills(before, k, n - 1, c) + [Finishes(k - n, Bill(c, 0, 0.0, 0.0, 0))]
  }

  function UpTo(n: nat): (r: set<nat>)
    ensures forall x: nat :: x in r <==> x < n
  {
    if n == 0 then {} else UpTo(n - 1) + {n - 1}
  }

  lemma {:induction false} UpToSize(n: nat)
    ensures |UpTo(n)| == n
  {
    if n > 0 {
      UpToSize(n - 1);
      assert n - 1 !in UpTo(n - 1);
    }
  }

  lemma Appended(budget: Budget, trace: seq<Event>, e: Event)
    ensures After(budget, trace + [e]) == Next(budget, After(budget, trace), e)
  {
    assert (trace + [e])[..|trace|] == trace;
  }

  lemma AppendedPossible(budget: Budget, trace: seq<Event>, e: Event, k: nat, price: Price)
    requires Possible(budget, trace, k, price)
    requires |Next(budget, After(budget, trace), e).inFlight| <= k
    requires match e
             case Starts(call) => call !in After(budget, trace).inFlight
             case Finishes(call, bill) => call in After(budget, trace).inFlight && Affordable(bill, price)
    ensures Possible(budget, trace + [e], k, price)
  {
    Appended(budget, trace, e);
    assert (trace + [e])[..|trace|] == trace;
  }

  lemma {:induction false} SinglesSpend(budget: Budget, n: nat, k: nat, price: Price)
    requires n < budget.maxTokens && k >= 1 && price.tokens >= 1
    ensures Possible(budget, Singles(n), k, price)
    ensures After(budget, Singles(n)) == Spending(Usage(0, n, 0, n, 0, 0.0, 0.0), {})
    decreases n
  {
    if n == 0 {
      return;
    }
    hide After, Possible;
    SinglesSpend(budget, n - 1, k, price);
    OneMoreSingle(budget, Singles(n - 1), n - 1, k, price);
  }

  lemma OneMoreSingle(budget: Budget, trace: seq<Event>, n: nat, k: nat, price: Price)
    requires n < budget.maxTokens && k >= 1 && price.tokens >= 1 && Possible(budget, trace, k, price)
    requires After(budget, trace) == Spending(Usage(0, n, 0, n, 0, 0.0, 0.0), {})
    ensures Possible(budget, trace + [Starts(0)] + [Finishes(0, ONE_TOKEN)], k, price)
    ensures After(budget, trace + [Starts(0)] + [Finishes(0, ONE_TOKEN)]) ==
            Spending(Usage(0, n + 1, 0, n + 1, 0, 0.0, 0.0), {})
  {
    hide After, Possible;
    var spent := Usage(0, n, 0, n, 0, 0.0, 0.0);
    assert Next(budget, Spending(spent, {}), Starts(0)) == Spending(spent, {0});
    assert Next(budget, Spending(spent, {0}), Finishes(0, ONE_TOKEN)).inFlight == {};
    AppendedPossible(budget, trace, Starts(0), k, price);
    Appended(budget, trace, Starts(0));
    AppendedPossible(budget, trace + [Starts(0)], Finishes(0, ONE_TOKEN), k, price);
    Appended(budget, trace + [Starts(0)], Finishes(0, ONE_TOKEN));
  }

  /** The trace is possible and leaves calls `0` to `n - 1` in flight, with `before` tokens spent. */
  ghost predicate Crowded(budget: Budget, trace: seq<Event>, before: nat, n: nat, k: nat, price: Price) {
    && Possible(budget, trace, k, price)
    && After(budget, trace) == Spending(Usage(0, before, 0, before, 0, 0.0, 0.0), UpTo(n))
  }

  lemma {:induction false} CrowdStarts(budget: Budget, before: nat, n: nat, k: nat, price: Price)
    requires before < budget.maxTokens && n <= k && k >= 1 && price.tokens >= 1
    ensures Crowded(budget, Crowd(before, n), before, n, k, price)
    decreases n
  {
    if n == 0 {
      SinglesSpend(budget, before, k, price);
      return;
    }
    hide Crowded, After, Possible, UpTo, Singles;
    CrowdStarts(budget, before, n - 1, k, price);
    OneMoreInCrowd(budget, Crowd(before, n - 1), before, n - 1, k, price);
  }

  lemma OneMoreInCrowd(budget: Budget, trace: seq<Event>, before: nat, n: nat, k: nat, price: Price)
    requires before < budget.maxTokens && n < k && Crowded(budget, trace, before, n, k, price)
    ensures Crowded(budget, trace + [Starts(n)], before, n + 1, k, price)
  {
    UpToSize(n + 1);
    assert UpTo(n) + {n} == UpTo(n + 1);
    hide After, Possible, UpTo;
    var spent := Usage(0, before, 0, before, 0, 0.0, 0.0);
    assert Next(budget, Spending(spent, UpTo(n)), Starts(n)) == Spending(spent, UpTo(n + 1));
    AppendedPossible(budget, trace, Starts(n), k, price);
    Appended(budget, trace, Starts(n));
  }

  lemma {:induction false} BillsArrive(budget: Budget, before: nat, k: nat, n: nat, c: nat)
    requires before < budget.maxTokens && 1 <= k && n <= k && c >= 1
    ensures Possible(budget, Bills(before, k, n, c), k, Price(c, 0.0, 0.0))
    ensures Tokens(After(budget, Bills(before, k, n, c)).spent) == before + Times(n, c)
    ensures After(budget, Bills(before, k, n, c)).inFlight == UpTo(k - n)
    decreases n
  {
    hide After, Possible, Crowd, Times;
    OneMoreTimes(n, c);
    if n == 0 {
      CrowdStarts(budget, before, k, k, Price(c, 0.0, 0.0));
    } else {
      BillsArrive(budget, before, k, n - 1, c);
      hide Bills, UpTo;
      OneMoreBill(budget, Bills(before, k, n - 1, c), k, k - n, c);
    }
  }

  lemma OneMoreBill(budget: Budget, trace: seq<Event>, k: nat, m: nat, c: nat)
    requires k >= 1 && Possible(budget, trace, k, Price(c, 0.0, 0.0)) && After(budget, trace).inFlight == UpTo(m + 1)
    ensures var next := trace + [Finishes(m, Bill(c, 0, 0.0, 0.0, 0))];
            && Possible(budget, next, k, Price(c, 0.0, 0.0))
            && Tokens(After(budget, next).spent) == Tokens(After(budget, trace).spent) + c
            && After(budget, next).inFlight == UpTo(m)
  {
    UpToSize(m);
    assert UpTo(m + 1) - {m} == UpTo(m);
    hide After, Possible, UpTo;
    var bill: Bill := Bill(c, 0, 0.0, 0.0, 0);
    AppendedPossible(budget, trace, Finishes(m, bill), k, Price(c, 0.0, 0.0));
    Appended(budget, trace, Finishes(m, bill));
  }

  function Times(n: nat, c: nat): nat {
    n * c
  }

  lemma OneMoreTimes(n: nat, c: nat)
    ensures Times(0, c) == 0 && (n > 0 ==> Times(n, c) == Times(n - 1, c) + c)
  {
  }

  /** The token bound of `OvershootIsBounded` cannot be lowered: some interleaving reaches it. */
  lemma OvershootIsReached(budget: Budget, k: nat, c: nat) returns (trace: seq<Event>)
    requires k >= 1 && c >= 1
    ensures Possible(budget, trace, k, Price(c, 0.0, 0.0))
    ensures var spent := After(budget, trace).spent;
            spent.promptTokens + spent.completionTokens == budget.maxTokens - 1 + k * c
  {
    trace := Bills(budget.maxTokens - 1, k, k, c);
    BillsArrive(budget, budget.maxTokens - 1, k, k, c);
  }

  // ---------------------------------------------------------------- the shared form

  /** How long the shared store keeps a job's hash after a write, in seconds: thirty days. */
  const USAGE_TTL := 2_592_000

  datatype Entry = Entry(usage: Usage, expiresAt: int)

  type SharedLedger = map<Id, Entry>

  /** What a script running at `now` finds recorded for a job. */
  function SharedSpentBy(shared: SharedLedger, job: Id, now: int): Usage {
    if job in shared && now < shared[job].expiresAt then shared[job].usage else NOTHING
  }

  datatype Write = Claim(job: Id, budget: Budget, at: int) | Pay(job: Id, bill: Bill, at: int)

  /** The two scripts. A refused claim does not renew the hash's lifetime. */
  function Script(shared: SharedLedger, w: Write): (SharedLedger, Option<nat>) {
    var spent := SharedSpentBy(shared, w.job, w.at);
    match w
    case Claim(job, budget, at) =>
      if spent.toolCalls >= budget.maxToolCalls then (shared, None)
      else (shared[job := Entry(spent.(toolCalls := spent.toolCalls + 1), at + USAGE_TTL)], Some(spent.toolCalls + 1))
    case Pay(job, bill, at) => (shared[job := Entry(Paid(spent, bill), at + USAGE_TTL)], None)
  }

  function Local(ledger: Ledger, w: Write): (Ledger, Option<nat>) {
    match w
    case Claim(job, budget, _) => Reserve(ledger, job, budget)
    case Pay(job, bill, _) => (ledger[job := Paid(SpentBy(ledger, job), bill)], None)
  }

  function SharedAfter(writes: seq<Write>): SharedLedger {
    if writes == [] then map[] else Script(SharedAfter(writes[..|writes| - 1]), writes[|writes| - 1]).0
  }

  function LocalAfter(writes: seq<Write>): Ledger {
    if writes == [] then map[] else Local(LocalAfter(writes[..|writes| - 1]), writes[|writes| - 1]).0
  }

  /** When the job's record last changed: a granted claim or a payment. */
  function LastChange(writes: seq<Write>, job: Id): Option<int> {
    if writes == [] then None
    else
      var n := |writes| - 1;
      var w := writes[n];
      if w.job == job && (w.Pay? || Local(LocalAfter(writes[..n]), w).1.Some?) then Some(w.at)
      else LastChange(writes[..n], job)
  }

  /** The job's record has not outlived its key by `now`. */
  ghost predicate Remembered(writes: seq<Write>, job: Id, now: int) {
    LastChange(writes, job).Some? ==> now < LastChange(writes, job).value + USAGE_TTL
  }

  /** Every write to the job came before its record was forgotten. */
  ghost predicate NeverForgotten(writes: seq<Write>, job: Id) {
    writes == [] ||
    (var n := |writes| - 1;
     NeverForgotten(writes[..n], job) && (writes[n].job == job ==> Remembered(writes[..n], job, writes[n].at)))
  }

  lemma {:induction false} SharedEntry(writes: seq<Write>, job: Id)
    requires NeverForgotten(writes, job)
    ensures var (shared, last) := (SharedAfter(writes), LastChange(writes, job));
            if last.Some? then
              && job in shared
              && shared[job] == Entry(SpentBy(LocalAfter(writes), job), last.value + USAGE_TTL)
            else job !in shared && SpentBy(LocalAfter(writes), job) == NOTHING
  {
    if writes != [] {
      SharedEntry(writes[..|writes| - 1], job);
    }
  }

  /**
   As long as each write to a job comes within thirty days of the last change before it, the
   shared ledger answers every claim as the in-process one does; a claim later than that finds
   a job that has spent nothing.
   */
  lemma SharedLedgerAgrees(writes: seq<Write>, job: Id, budget: Budget, now: int)
    requires NeverForgotten(writes, job)
    ensures var spent := if Remembered(writes, job, now) then SpentBy(LocalAfter(writes), job) else NOTHING;
            && SharedSpentBy(SharedAfter(writes), job, now) == spent
            && Script(SharedAfter(writes), Claim(job, budget, now)).1 == Reserve(map[job := spent], job, budget).1
            && (Remembered(writes, job, now) ==>
                  Script(SharedAfter(writes), Claim(job, budget, now)).1 == Reserve(LocalAfter(writes), job, budget).1)
  {
    SharedEntry(writes, job);
  }
}
