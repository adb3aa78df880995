/**
 One research job driven from CREATED to a terminal status, as
 src/research_platform/workflow/orchestration.py drives it and
 src/research_platform/workflow/activities.py stores it.

 A `World` holds every answer the run can receive: what each agent returned or raised in
 each round, what each reviewer decided, which evidence and findings writes raised, and
 whether publication worked. Quantifying over worlds is quantifying over every mix of
 results. A `Port` says how each write reaches the store: once, straight to the service, or
 as a Temporal activity delivered one or more times. Taking each service operation, a read
 followed by an update, as one atomic step is an assumption of this model.
 */
module Orchestration {
  import opened Basics
  import opened JobModel
  import opened Publication

  const MAX_REVIEW_CYCLES: nat := 2

  // ---------------------------------------------------------------- what the run is given

  datatype PlannedTask = PlannedTask(objective: string, role: AgentRole, requirements: seq<string>)

  datatype Task = Task(id: Id, objective: string, requirements: seq<string>)

  datatype RawSubmission = Submission(records: seq<EvidenceCreate>, unmet: seq<string>)

  /** A researcher's submission that passed its contract: something found, nothing twice. */
  type EvidenceSubmission = s: RawSubmission |
    s.records != [] && Distinct(seq(|s.records|, i requires 0 <= i < |s.records| => s.records[i].contentHash))
    ghost witness Submission([EvidenceCreate("e", "s", "", "", None, Primary, Public, "h", 0, 0)], [])

  datatype ReviewerDecision = Approve | RequestMoreResearch | Reject

  /** The publish step, if one is configured. A failing one may already have stored its record. */
  datatype Publisher = NoPublisher | Publishes | Breaks(error: Error, recorded: bool)

  /** A persistence activity that raised once its attempts were spent; its write may have landed all the same. */
  datatype Breakage = Breakage(error: Error, landed: bool)

  /**
   `saveBreaks(round, task, record)` and `recordBreaks(round, status)` say which evidence and
   findings writes raise. Status writes are refused by the table or land.
   */
  datatype World = World(
    plan: Outcome<seq<PlannedTask>>,
    taskId: nat -> Id,
    research: (nat, nat) -> Outcome<EvidenceSubmission>,
    analyze: nat -> Outcome<Analysis>,
    critique: nat -> Outcome<CriticReview>,
    decide: nat -> ReviewerDecision,
    report: Outcome<ResearchReport>,
    reportHash: string,
    publisher: Publisher,
    saveBreaks: (nat, nat, nat) -> Option<Breakage>,
    recordBreaks: (nat, ReviewerStatus) -> Option<Breakage>,
    newId: (nat, nat, nat) -> Id)

  /** The tasks the planner gave to researchers, each with an id of its own. */
  function ResearcherTasks(plan: seq<PlannedTask>, taskId: nat -> Id): seq<Task> {
    var chosen := Filter((p: PlannedTask) => p.role == Researcher, plan);
    seq(|chosen|, i requires 0 <= i < |chosen| =>
      Task(taskId(i), chosen[i].objective, chosen[i].requirements))
  }

  /** The plan's tasks for researchers, in its order and numbered from zero; the other roles' tasks are left out. */
  lemma ResearcherTasksInPlanOrder(plan: seq<PlannedTask>, p: PlannedTask, taskId: nat -> Id)
    ensures ResearcherTasks([], taskId) == []
    ensures var tasks := ResearcherTasks(plan, taskId);
            ResearcherTasks(plan + [p], taskId)
            == if p.role == Researcher then tasks + [Task(taskId(|tasks|), p.objective, p.requirements)] else tasks
  {
    var mine := (p: PlannedTask) => p.role == Researcher;
    FilterConcat(mine, plan, [p]);
    assert [p][1..] == [];
    assert Filter(mine, [p]) == if p.role == Researcher then [p] else [];
  }

  /** What a failed task leaves unmet. */
  function RequirementsOf(task: Task): (r: seq<string>)
    ensures r != []
  {
    if task.requirements != [] then task.requirements else [task.objective]
  }

  // ---------------------------------------------------------------- the stored job

  /** What is stored for one job; `path` is every status it was ever stored with, in order. */
  datatype Store = Store(
    job: Job,
    path: seq<JobStatus>,
    evidence: seq<EvidenceRecord>,
    findings: seq<FindingRecord>,
    publication: Option<JobModel.Publication>)

  /** `ResearchJobService.transition`. */
  function ServiceMove(st: Store, target: JobStatus, detail: string): Option<Store> {
    match TransitionTo(st.job, target, detail)
    case Some(job) => Some(st.(job := job, path := st.path + [target]))
    case None => None
  }

  /** `JobActivities.transition`: a job already at its target is left alone. */
  function ActivityMove(st: Store, target: JobStatus, detail: string): Option<Store> {
    if st.job.status == target then Some(st) else ServiceMove(st, target, detail)
  }

  /** The same activity delivered `1 + extra` times; the last delivery's answer is reported. */
  function DeliverMove(st: Store, target: JobStatus, detail: string, extra: nat): Option<Store>
    decreases extra
  {
    var first := ActivityMove(st, target, detail);
    if extra == 0 then first
    else DeliverMove(if first.Some? then first.value else st, target, detail, extra - 1)
  }

  /** What makes two evidence records the same record to a redelivered write. */
  predicate SameEvidence(a: EvidenceCreate, b: EvidenceCreate) {
    && a.contentHash == b.contentHash && a.taskId == b.taskId
    && a.invocationId == b.invocationId && a.sourceUri == b.sourceUri
  }

  function ServiceAdd(st: Store, command: EvidenceCreate, id: Id): (Store, EvidenceRecord) {
    var e := EvidenceRecord(id, command);
    (st.(evidence := st.evidence + [e]), e)
  }

  /** The first stored record the command would repeat, if any. */
  function Existing(evidence: seq<EvidenceRecord>, command: EvidenceCreate): (r: Option<EvidenceRecord>)
    ensures r.None? <==> forall e :: e in evidence ==> !SameEvidence(e.content, command)
    ensures r.Some? ==> r.value in evidence && SameEvidence(r.value.content, command)
  {
    if evidence == [] then None
    else if SameEvidence(evidence[0].content, command) then Some(evidence[0])
    else
      assert evidence == [evidence[0]] + evidence[1..];
      Existing(evidence[1..], command)
  }

  /** `JobActivities.add_evidence`: a record that already landed is returned, not stored again. */
  function ActivityAdd(st: Store, command: EvidenceCreate, id: Id): (Store, EvidenceRecord) {
    match Existing(st.evidence, command)
    case Some(e) => (st, e)
    case None => ServiceAdd(st, command, id)
  }

  function DeliverAdd(st: Store, command: EvidenceCreate, w: World, call: nat, delivery: nat, extra: nat)
    : (Store, EvidenceRecord)
    decreases extra
  {
    var first := ActivityAdd(st, command, w.newId(call, delivery, 0));
    if extra == 0 then first
    else DeliverAdd(first.0, command, w, call, delivery + 1, extra - 1)
  }

  /** `record_findings`: each write replaces the whole set, under new ids. */
  function ServiceFindings(st: Store, findings: seq<Finding>, w: World, call: nat, delivery: nat): Store {
    st.(findings := seq(|findings|, i requires 0 <= i < |findings| =>
      FindingRecord(w.newId(call, delivery, i), findings[i])))
  }

  function DeliverFindings(st: Store, findings: seq<Finding>, w: World, call: nat, delivery: nat, extra: nat): Store
    decreases extra
  {
    var first := ServiceFindings(st, findings, w, call, delivery);
    if extra == 0 then first else DeliverFindings(first, findings, w, call, delivery + 1, extra - 1)
  }

  // ---------------------------------------------------------------- the run's own state

  /** How a write travels: `extra(n)` is how often the n-th write is delivered again. */
  datatype Port = Direct | Activities(extra: nat -> nat)

  datatype Event =
    | Moved(target: JobStatus)
    | Refused(from: JobStatus, target: JobStatus)
    | Saved(record: EvidenceRecord)
    | Recorded(findings: seq<Finding>)
    | Reviewed(decision: ReviewerDecision)
    | Published(publication: JobModel.Publication)

  /** The store, the log of port calls that landed or were refused, and the number of writes asked for so far. */
  datatype Sys = Sys(store: Store, log: seq<Event>, calls: nat)

  datatype RunOutcome = RunOutcome(
    job: Job, report: Option<ResearchReport>, evidence: seq<EvidenceRecord>, failure: string,
    publication: Option<JobModel.Publication>)

  /** A step that returns or raises, and leaves the system changed either way. */
  datatype Step<+T> = Ok(value: T, sys: Sys) | Raise(error: Error, sys: Sys) {
    predicate IsFailure() { Raise? }

    function PropagateFailure<U>(): Step<U>
      requires Raise?
    {
      Raise(error, sys)
    }

    function Extract(): (T, Sys)
      requires Ok?
    {
      (value, sys)
    }
  }

  function Ask<T>(answer: Outcome<T>, s: Sys): Step<T> {
    match answer
    case Returned(value) => Ok(value, s)
    case Raised(error) => Raise(error, s)
  }

  const InvalidStateTransition := Error("InvalidStateTransition", "cannot transition research job")

  function Move(port: Port, s: Sys, target: JobStatus, detail: string): Step<()> {
    var landed := match port
      case Direct => ServiceMove(s.store, target, detail)
      case Activities(extra) => DeliverMove(s.store, target, detail, extra(s.calls));
    match landed
    case Some(store) => Ok((), Sys(store, s.log + [Moved(target)], s.calls + 1))
    case None => Raise(InvalidStateTransition,
                       Sys(s.store, s.log + [Refused(s.store.job.status, target)], s.calls + 1))
  }

  /** How a write ends: as it landed, or raising, landed or not. */
  function Written<T>(value: T, landed: Sys, s: Sys, breakage: Option<Breakage>): Step<T> {
    match breakage
    case None => Ok(value, landed)
    case Some(b) => Raise(b.error, if b.landed then landed else s.(calls := s.calls + 1))
  }

  function Save(w: World, port: Port, s: Sys, command: EvidenceCreate, breakage: Option<Breakage>)
    : Step<EvidenceRecord>
  {
    var (store, e) := match port
      case Direct => ServiceAdd(s.store, command, w.newId(s.calls, 0, 0))
      case Activities(extra) => DeliverAdd(s.store, command, w, s.calls, 0, extra(s.calls));
    Written(e, Sys(store, s.log + [Saved(e)], s.calls + 1), s, breakage)
  }

  /** `_record_findings`: derive, let the constructor check each finding, store the set. */
  function Record(w: World, port: Port, s: Sys, analysis: Analysis, review: CriticReview,
                  reviewer: ReviewerStatus, round: nat): Step<()>
  {
    var findings := Derive(analysis, review, reviewer);
    if exists f :: f in findings && !ValidFinding(f) then
      Raise(Error("ValidationError", "a finding was refused"), s)
    else
      var store := match port
        case Direct => ServiceFindings(s.store, findings, w, s.calls, 0)
        case Activities(extra) => DeliverFindings(s.store, findings, w, s.calls, 0, extra(s.calls));
      Written((), Sys(store, s.log + [Recorded(findings)], s.calls + 1), s, w.recordBreaks(round, reviewer))
  }

  // ---------------------------------------------------------------- collecting evidence

  datatype Collected = Collected(records: seq<EvidenceRecord>, unmet: seq<string>)

  /** Persist the records of one submission from its k-th on, in order, until a write raises. */
  function SaveAll(w: World, port: Port, s: Sys, commands: seq<EvidenceCreate>, round: nat, i: nat, k: nat)
    : Step<seq<EvidenceRecord>>
    decreases |commands|
  {
    if commands == [] then Ok([], s)
    else
      var (e, s1) :- Save(w, port, s, commands[0], w.saveBreaks(round, i, k));
      var (rest, s2) :- SaveAll(w, port, s1, commands[1..], round, i, k + 1);
      Ok([e] + rest, s2)
  }

  /**
   `_collect_evidence` from the i-th task on: a task that raised only leaves its requirements
   unmet, a write that raised ends the round.
   */
  function Collect(w: World, port: Port, s: Sys, tasks: seq<Task>, round: nat, i: nat): Step<Collected>
    requires i <= |tasks|
    decreases |tasks| - i
  {
    if i == |tasks| then Ok(Collected([], []), s)
    else
      match w.research(round, i)
      case Raised(_) =>
        var (rest, s1) :- Collect(w, port, s, tasks, round, i + 1);
        Ok(Collected(rest.records, RequirementsOf(tasks[i]) + rest.unmet), s1)
      case Returned(submission) =>
        var (saved, s1) :- SaveAll(w, port, s, submission.records, round, i, 0);
        var (rest, s2) :- Collect(w, port, s1, tasks, round, i + 1);
        Ok(Collected(saved + rest.records, submission.unmet + rest.unmet), s2)
  }

  // ---------------------------------------------------------------- the pipeline

  function Publish(w: World, s: Sys, report: ResearchReport, shortfalls: seq<Shortfall>)
    : Step<Option<JobModel.Publication>>
  {
    var p := PublicationOf(report, w.reportHash, shortfalls, s.store.evidence);
    var stored := Sys(s.store.(publication := Some(p)), s.log + [Published(p)], s.calls);
    match w.publisher
    case NoPublisher => Ok(None, s)
    case Publishes => Ok(Some(p), stored)
    case Breaks(error, recorded) => Raise(error, if recorded then stored else s)
  }

  /** From the settled critique to the final status. */
  function Finish(w: World, port: Port, s0: Sys, evidence: seq<EvidenceRecord>, unmet: seq<string>): Step<RunOutcome> {
    var (_, s1) :- Move(port, s0, JobStatus.Reporting, "");
    var (report, s2) :- Ask(w.report, s1);
    Conclude(w, port, s2, report, evidence, Shortfalls(unmet, report, IdsOf(evidence)))
  }

  /** Publish first, and only then give the job its final status. */
  function Conclude(w: World, port: Port, s0: Sys, report: ResearchReport, evidence: seq<EvidenceRecord>,
                    shortfalls: seq<Shortfall>): Step<RunOutcome>
  {
    var (publication, s1) :- Publish(w, s0, report, shortfalls);
    var (_, s2) :- if shortfalls != []
                   then Move(port, s1, JobStatus.Partial, Explain(shortfalls))
                   else Move(port, s1, JobStatus.Completed, "");
    Ok(RunOutcome(s2.store.job, Some(report), evidence, "", publication), s2)
  }

  function Stop(port: Port, s: Sys, target: JobStatus, reason: string, evidence: seq<EvidenceRecord>)
    : Step<RunOutcome>
  {
    var (_, s1) :- Move(port, s, target, reason);
    Ok(RunOutcome(s1.store.job, None, evidence, "", None), s1)
  }

  const REJECTED_REASON := "rejected by the reviewer"
  const NO_EVIDENCE_REASON := "no evidence could be collected"
  const TOO_MANY_REVIEWS_REASON := "the reviewer asked for more research more than 2 times"

  /** The review loop, entered in RESEARCHING with the evidence collected so far. */
  function Rounds(w: World, port: Port, s0: Sys, tasks: seq<Task>, evidence: seq<EvidenceRecord>,
                  unmet: seq<string>, cycle: nat): Step<RunOutcome>
    requires cycle <= MAX_REVIEW_CYCLES
    decreases MAX_REVIEW_CYCLES - cycle, 1
  {
    var (_, s1) :- Move(port, s0, Analyzing, "");
    var (analysis, s2) :- Ask(w.analyze(cycle), s1);
    var (review, s3) :- Ask(w.critique(cycle), s2);
    if !RequiresReviewer(review) then
      var (_, s4) :- Record(w, port, s3, analysis, review, NotRequired, cycle);
      Finish(w, port, s4, evidence, unmet)
    else
      var (_, s4) :- Record(w, port, s3, analysis, review, AwaitingReview, cycle);
      var (_, s5) :- Move(port, s4, ReviewRequired, "");
      var s6 := s5.(log := s5.log + [Reviewed(w.decide(cycle))]);
      AfterReview(w, port, s6, tasks, evidence, unmet, cycle, analysis, review)
  }

  /** What the reviewer's decision on round `cycle` leads to. */
  function AfterReview(w: World, port: Port, s0: Sys, tasks: seq<Task>, evidence: seq<EvidenceRecord>,
                       unmet: seq<string>, cycle: nat, analysis: Analysis, review: CriticReview): Step<RunOutcome>
    requires cycle <= MAX_REVIEW_CYCLES
    decreases MAX_REVIEW_CYCLES - cycle, 0
  {
    match w.decide(cycle)
    case Approve =>
      var (_, s1) :- Record(w, port, s0, analysis, review, Approved, cycle);
      Finish(w, port, s1, evidence, unmet)
    case Reject =>
      var (_, s1) :- Record(w, port, s0, analysis, review, Rejected, cycle);
      Stop(port, s1, Failed, REJECTED_REASON, evidence)
    case RequestMoreResearch =>
      var (_, s1) :- Move(port, s0, Researching, "");
      if cycle + 1 > MAX_REVIEW_CYCLES then
        Stop(port, s1, Partial, TOO_MANY_REVIEWS_REASON, evidence)
      else
        var (more, s2) :- Collect(w, port, s1, tasks, cycle + 1, 0);
        Rounds(w, port, s2, tasks, evidence + more.records, more.unmet, cycle + 1)
  }

  /** `_run_research_job`. */
  function Drive(w: World, port: Port, s0: Sys): Step<RunOutcome> {
    var (_, s1) :- Move(port, s0, Planning, "");
    var (plan, s2) :- Ask(w.plan, s1);
    var (_, s3) :- Move(port, s2, Researching, "");
    CollectAndJudge(w, port, s3, ResearcherTasks(plan, w.taskId))
  }

  /** The first collection round, and the review loop if it found anything. */
  function CollectAndJudge(w: World, port: Port, s: Sys, tasks: seq<Task>): Step<RunOutcome> {
    var (first, s1) :- Collect(w, port, s, tasks, 0, 0);
    if first.records == [] then
      Stop(port, s1, Partial, NO_EVIDENCE_REASON, [])
    else
      Rounds(w, port, s1, tasks, first.records, first.unmet, 0)
  }

  function Describe(error: Error): string {
    error.name + ": " + error.message
  }

  const BUDGET_EXHAUSTED := "BudgetExhausted"

  predicate IsBudget(error: Error) {
    BUDGET_EXHAUSTED <= Describe(error)
  }

  /** `_fail`: end partial when a budget ran out and the table allows it, otherwise failed. */
  function Fail(port: Port, s0: Sys, error: Error): Step<RunOutcome> {
    var reason := Describe(error);
    var partially := Move(port, s0, Partial, reason);
    if IsBudget(error) && partially.Ok? then
      Ok(RunOutcome(partially.sys.store.job, None, [], reason, None), partially.sys)
    else
      var s1 := if IsBudget(error) then partially.sys else s0;
      match Move(port, s1, Failed, reason)
      case Ok(_, s2) => Ok(RunOutcome(s2.store.job, None, [], reason, None), s2)
      case Raise(_, s2) => Raise(error, s2)
  }

  /** `run_research_job`. */
  function Run(w: World, port: Port, s: Sys): Step<RunOutcome> {
    match Drive(w, port, s)
    case Ok(outcome, s1) => Ok(outcome, s1)
    case Raise(error, s1) => Fail(port, s1, error)
  }

  /** A job that has just been created and not yet worked on. */
  ghost predicate Fresh(s: Sys) {
    && s.store.job.status == Created && s.store.path == [Created]
    && s.store.evidence == [] && s.store.findings == [] && s.store.publication == None
    && s.log == []
  }
}
