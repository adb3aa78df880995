/**
 Reviewer signals reaching a running workflow: the mailbox of
 src/research_platform/workflow/research_workflow.py under every interleaving of signals
 with the workflow's own steps.
 */
module ReviewSignals {
  import opened JobModel
  import opened Orchestration
  import opened JobProtocol

  /**
   What can happen to the mailbox. `Opens` is a request to move the job to REVIEW_REQUIRED,
   `Signal` a reviewer's submission at any moment, and `Answers` the wait for a decision
   resuming, which it can do only once a decision is there.
   */
  datatype Happening = Opens | Signal(decision: ReviewerDecision) | Answers

  datatype Mailbox = Mailbox(decisions: seq<ReviewerDecision>, isOpen: bool)

  function Next(m: Mailbox, h: Happening): Mailbox {
    match h
    case Opens => m.(isOpen := true)
    case Signal(d) => if m.isOpen then m.(decisions := m.decisions + [d]) else m
    case Answers => Mailbox([], false)
  }

  /** `ResearchJobWorkflow`, as far as reviews go. */
  class ReviewDesk {
    var decisions: seq<ReviewerDecision>
    var reviewIsOpen: bool

    ghost function State(): Mailbox
      reads this
    {
      Mailbox(decisions, reviewIsOpen)
    }

    constructor ()
      ensures State() == After([])
    {
      decisions, reviewIsOpen := [], false;
    }

    /** The part of `transition` that concerns reviews. */
    method Transition(target: JobStatus)
      modifies this
      ensures State() == if target == ReviewRequired then Next(old(State()), Opens) else old(State())
    {
      if target == ReviewRequired {
        reviewIsOpen := true;
      }
    }

    method SubmitReviewerDecision(decision: ReviewerDecision)
      modifies this
      ensures State() == Next(old(State()), Signal(decision))
    {
      if reviewIsOpen {
        decisions := decisions + [decision];
      }
    }

    /** `_await_reviewer_decision` from the moment its wait condition holds. */
    method TakeDecision() returns (decision: ReviewerDecision)
      requires decisions != []
      modifies this
      ensures State() == Next(old(State()), Answers) && decision == old(decisions)[0]
    {
      decision := decisions[0];
      reviewIsOpen := false;
      decisions := [];
    }
  }

  /** The mailbox after a history. */
  function After(history: seq<Happening>): Mailbox {
    if history == [] then Mailbox([], false)
    else Next(After(history[..|history| - 1]), history[|history| - 1])
  }

  // ---------------------------------------------------------------- what a history means by itself

  /** The workflow's last own step opened a review. */
  predicate Waiting(history: seq<Happening>) {
    if history == [] then false
    else
      match history[|history| - 1]
      case Opens => true
      case Answers => false
      case Signal(_) => Waiting(history[..|history| - 1])
  }

  /** The decisions submitted since the workflow's last own step. */
  function Since(history: seq<Happening>): seq<ReviewerDecision> {
    if history == [] then []
    else
      match history[|history| - 1]
      case Signal(d) => Since(history[..|history| - 1]) + [d]
      case _ => []
  }

  /** The workflow opens a review and waits for its answer before it opens another. */
  ghost predicate Possible(history: seq<Happening>) {
    forall i :: 0 <= i < |history| ==>
      && (history[i].Opens? ==> !Waiting(history[..i]))
      && (history[i].Answers? ==> Waiting(history[..i]) && After(history[..i]).decisions != [])
  }

  lemma PossiblePrefix(history: seq<Happening>, n: nat)
    requires Possible(history) && n <= |history|
    ensures Possible(history[..n])
  {
    forall i | 0 <= i < n
      ensures history[..n][..i] == history[..i]
    {
    }
  }

  /**
   The mailbox in closed form: while a review is open it holds exactly the decisions
   submitted since it opened, in order; otherwise it is closed and empty.
   */
  lemma {:induction false} MailboxHolds(history: seq<Happening>)
    requires Possible(history)
    ensures After(history) == if Waiting(history) then Mailbox(Since(history), true) else Mailbox([], false)
  {
    if history != [] {
      var n := |history| - 1;
      PossiblePrefix(history, n);
      MailboxHolds(history[..n]);
      assert history[n].Opens? ==> !Waiting(history[..n]);
    }
  }

  /** `f` is the first decision submitted after the review answered at `a` opened at `o`. */
  ghost predicate AnsweredBy(history: seq<Happening>, o: nat, f: nat, a: nat) {
    && o < f < a < |history| && history[o].Opens? && history[f].Signal? && history[a].Answers?
    && (forall i :: o < i < a ==> history[i].Signal?)
    && f == o + 1
  }

  /** Where the open review of a waiting history began: everything after it is a decision. */
  lemma {:induction false} WaitingSince(history: seq<Happening>) returns (o: nat)
    requires Waiting(history)
    ensures o < |history| && history[o].Opens?
    ensures forall i :: o < i < |history| ==> history[i].Signal?
    ensures |Since(history)| == |history| - o - 1
    ensures forall i :: o < i < |history| ==> Since(history)[i - o - 1] == history[i].decision
  {
    var n := |history| - 1;
    if history[n].Opens? {
      o := n;
    } else {
      o := WaitingSince(history[..n]);
    }
  }

  /**
   Every answer of every interleaving is the first decision submitted after its review
   opened, and nothing but decisions happened in between.
   */
  lemma EveryReviewGetsItsFirstDecision(history: seq<Happening>, a: nat) returns (o: nat, f: nat)
    requires Possible(history) && a < |history| && history[a].Answers?
    ensures AnsweredBy(history, o, f, a)
    ensures After(history[..a]).decisions[0] == history[f].decision
  {
    var before := history[..a];
    PossiblePrefix(history, a);
    MailboxHolds(before);
    o := WaitingSince(before);
    f := o + 1;
    assert before[o] == history[o] && before[f] == history[f];
    assert forall i :: o < i < a ==> before[i] == history[i];
  }

  /** No decision answers two reviews, and none answers a review opened after it was submitted. */
  lemma NoDecisionAnswersTwice(history: seq<Happening>, a: nat, a': nat) returns (f: nat, o': nat, f': nat)
    requires Possible(history) && a < a' < |history| && history[a].Answers? && history[a'].Answers?
    ensures f < a < o' < f' < a' && history[f].Signal? && history[o'].Opens? && history[f'].Signal?
    ensures After(history[..a]).decisions[0] == history[f].decision
    ensures After(history[..a']).decisions[0] == history[f'].decision
  {
    var o;
    o, f := EveryReviewGetsItsFirstDecision(history, a);
    o', f' := EveryReviewGetsItsFirstDecision(history, a');
  }

  // ---------------------------------------------------------------- the orchestrator's own steps

  /** What the workflow itself did to the mailbox. */
  function OwnSteps(history: seq<Happening>): seq<Happening> {
    if history == [] then []
    else
      var last := history[|history| - 1];
      OwnSteps(history[..|history| - 1]) + if last.Signal? then [] else [last]
  }

  /** What a port call does to the mailbox. */
  function StepOf(e: Event): seq<Happening> {
    match e
    case Moved(target) => if target == ReviewRequired then [Opens] else []
    case Reviewed(_) => [Answers]
    case _ => []
  }

  /** What the port calls of a run do to the mailbox. */
  function StepsOf(log: seq<Event>): seq<Happening> {
    if log == [] then [] else StepsOf(log[..|log| - 1]) + StepOf(log[|log| - 1])
  }

  ghost predicate LastOpens(steps: seq<Happening>) {
    steps != [] && steps[|steps| - 1].Opens?
  }

  /** Opening and answering take turns, opening first. */
  ghost predicate TakeTurns(steps: seq<Happening>) {
    forall i :: 0 <= i < |steps| ==> (steps[i].Opens? <==> !LastOpens(steps[..i]))
  }

  lemma {:induction false} WaitingIsLastOpens(history: seq<Happening>)
    ensures Waiting(history) <==> LastOpens(OwnSteps(history))
  {
    if history != [] {
      WaitingIsLastOpens(history[..|history| - 1]);
    }
  }

  lemma TurnTaken(steps: seq<Happening>, h: Happening)
    requires TakeTurns(steps) && (h.Opens? <==> !LastOpens(steps))
    ensures TakeTurns(steps + [h])
  {
    forall i | 0 <= i < |steps + [h]|
      ensures (steps + [h])[i].Opens? <==> !LastOpens((steps + [h])[..i])
    {
      assert (steps + [h])[..i] == steps[..i];
      assert steps[..|steps|] == steps;
    }
  }

  lemma StepsNext(log: seq<Event>, n: nat)
    requires 0 < n <= |log|
    ensures StepsOf(log[..n]) == StepsOf(log[..n - 1]) + StepOf(log[n - 1])
  {
    assert log[..n][..n - 1] == log[..n - 1];
  }

  /** The calls of an orderly log take turns; a review is open only right after it was asked for. */
  lemma {:induction false} PairsTakeTurns(log: seq<Event>, n: nat)
    requires Paired(log) && n <= |log|
    ensures TakeTurns(StepsOf(log[..n]))
    ensures LastOpens(StepsOf(log[..n])) <==> n > 0 && log[n - 1] == Moved(ReviewRequired)
  {
    if n == 0 {
      return;
    }
    hide StepsOf, TakeTurns, Paired;
    PairsTakeTurns(log, n - 1);
    NeighboursPair(log, n);
    StepsNext(log, n);
    var before, e := StepsOf(log[..n - 1]), log[n - 1];
    if e == Moved(ReviewRequired) {
      TurnTaken(before, Opens);
    } else if e.Reviewed? {
      TurnTaken(before, Answers);
    } else {
      assert before + StepOf(e) == before;
    }
  }

  lemma NeighboursPair(log: seq<Event>, n: nat)
    requires Paired(log) && 0 < n <= |log|
    ensures log[n - 1].Reviewed? <==> n > 1 && log[n - 2] == Moved(ReviewRequired)
  {
    if n > 1 && log[n - 2] == Moved(ReviewRequired) {
      assert log[n - 2 + 1].Reviewed?;
    }
  }

  /** The decisions a run acted on, in order. */
  function ActedOn(log: seq<Event>): seq<ReviewerDecision> {
    if log == [] then []
    else
      ActedOn(log[..|log| - 1]) +
      match log[|log| - 1]
      case Reviewed(decision) => [decision]
      case _ => []
  }

  /** The decisions the mailbox handed out, in order. */
  function Taken(history: seq<Happening>): seq<ReviewerDecision> {
    if history == [] then []
    else
      var n := |history| - 1;
      var decisions := After(history[..n]).decisions;
      Taken(history[..n]) + if history[n].Answers? && decisions != [] then [decisions[0]] else []
  }

  /**
   A history of a running workflow: signals mixed in any way with the steps its run has come
   to so far, each answer waiting until a decision is there, and the run acting on the
   decision it is handed.
   */
  ghost predicate HistoryOf(log: seq<Event>, history: seq<Happening>) {
    && OwnSteps(history) <= StepsOf(log)
    && Taken(history) <= ActedOn(log)
    && forall i :: 0 <= i < |history| && history[i].Answers? ==> After(history[..i]).decisions != []
  }

  lemma {:induction false} OwnStepsGrow(history: seq<Happening>, n: nat)
    requires n <= |history|
    ensures OwnSteps(history[..n]) <= OwnSteps(history)
  {
    if n < |history| {
      OwnStepsGrow(history[..|history| - 1], n);
      assert history[..|history| - 1][..n] == history[..n];
    } else {
      assert history[..n] == history;
    }
  }

  lemma NextOwnStep(log: seq<Event>, history: seq<Happening>, i: nat)
    requires i < |history| && !history[i].Signal? && OwnSteps(history) <= StepsOf(log) && TakeTurns(StepsOf(log))
    ensures history[i].Opens? <==> !Waiting(history[..i])
  {
    var before, steps := OwnSteps(history[..i]), StepsOf(log);
    assert history[..i + 1][..i] == history[..i];
    OwnStepsGrow(history, i + 1);
    assert before + [history[i]] <= steps;
    assert steps[|before|] == (before + [history[i]])[|before|] && steps[..|before|] == before;
    WaitingIsLastOpens(history[..i]);
  }

  /** Every workflow history of every run is possible, so the mailbox theorems hold of it. */
  lemma RunsHavePossibleHistories(w: World, port: Port, s: Sys)
    requires Fresh(s)
    ensures forall history :: HistoryOf(Run(w, port, s).sys.log, history) ==> Possible(history)
  {
    hide Run, Fresh;
    EveryRunEnds(w, port, s);
    forall history | HistoryOf(Run(w, port, s).sys.log, history)
      ensures Possible(history)
    {
      PairsMakePossible(Run(w, port, s).sys.log, history);
    }
  }

  lemma PairsMakePossible(log: seq<Event>, history: seq<Happening>)
    requires Paired(log) && HistoryOf(log, history)
    ensures Possible(history)
  {
    PairsTakeTurns(log, |log|);
    assert log[..|log|] == log;
    forall i | 0 <= i < |history|
      ensures history[i].Opens? ==> !Waiting(history[..i])
      ensures history[i].Answers? ==> Waiting(history[..i]) && After(history[..i]).decisions != []
    {
      if !history[i].Signal? {
        NextOwnStep(log, history, i);
      }
    }
  }

  lemma {:induction false} TakenGrows(history: seq<Happening>, n: nat)
    requires n <= |history|
    ensures Taken(history[..n]) <= Taken(history)
  {
    if n < |history| {
      TakenGrows(history[..|history| - 1], n);
      assert history[..|history| - 1][..n] == history[..n];
    } else {
      assert history[..n] == history;
    }
  }

  /** The answer at `a` hands out the first decision submitted after its review opened, and that is acted on. */
  ghost predicate ActsOnFirst(log: seq<Event>, history: seq<Happening>, a: nat)
    requires a < |history|
  {
    var k := |Taken(history[..a])|;
    exists o: nat, f: nat ::
      AnsweredBy(history, o, f, a) && k < |ActedOn(log)| && ActedOn(log)[k] == history[f].decision
  }

  lemma AnswerIsTaken(history: seq<Happening>, a: nat)
    requires a < |history| && history[a].Answers? && After(history[..a]).decisions != []
    ensures var k := |Taken(history[..a])|;
            k < |Taken(history)| && Taken(history)[k] == After(history[..a]).decisions[0]
  {
    assert history[..a + 1][..a] == history[..a];
    TakenGrows(history, a + 1);
    hide After;
    assert Taken(history[..a + 1]) == Taken(history[..a]) + [After(history[..a]).decisions[0]];
  }

  lemma PairsActOnFirst(log: seq<Event>, history: seq<Happening>, a: nat)
    requires Paired(log) && HistoryOf(log, history) && a < |history| && history[a].Answers?
    ensures ActsOnFirst(log, history, a)
  {
    PairsMakePossible(log, history);
    AnswerIsTaken(history, a);
    hide Possible, After, Taken, ActedOn, Paired;
    var o, f := EveryReviewGetsItsFirstDecision(history, a);
  }

  /**
   Whatever signals arrive during a run, each decision it acts on is the first one submitted
   after the review it answers had opened.
   */
  lemma RunsActOnFirstDecisions(w: World, port: Port, s: Sys)
    requires Fresh(s)
    ensures forall history: seq<Happening>, a: nat ::
              HistoryOf(Run(w, port, s).sys.log, history) && a < |history| && history[a].Answers? ==>
              ActsOnFirst(Run(w, port, s).sys.log, history, a)
  {
    hide Run, Fresh, HistoryOf, ActsOnFirst;
    EveryRunEnds(w, port, s);
    var log := Run(w, port, s).sys.log;
    forall history: seq<Happening>, a: nat | HistoryOf(log, history) && a < |history| && history[a].Answers?
      ensures ActsOnFirst(log, history, a)
    {
      PairsActOnFirst(log, history, a);
    }
  }
}
