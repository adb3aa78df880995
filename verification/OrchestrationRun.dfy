/**
 The orchestrator as the source runs it: methods that write to the store step by step, a
 `while` loop over review cycles and loops over tasks, records and deliveries. Each method
 is proved to do exactly what its function in `Orchestration` says, so every theorem about
 `Run` is a theorem about `ResearchRun.RunResearchJob`.
 */
module OrchestrationRun {
  import opened Basics
  import opened JobModel
  import opened Publication
  import opened Orchestration

  ghost function AsStep<T>(r: Outcome<T>, s: Sys): Step<T> {
    match r
    case Returned(value) => Ok(value, s)
    case Raised(error) => Raise(error, s)
  }

  // ---------------------------------------------------------------- what the loops have done so far

  /** The whole round, when its earlier tasks gave `records` and `unmet` and the later ones `rest`. */
  ghost function After(records: seq<EvidenceRecord>, unmet: seq<string>, rest: Step<Collected>): Step<Collected> {
    if rest.Raise? then rest else Ok(Collected(records + rest.value.records, unmet + rest.value.unmet), rest.sys)
  }

  ghost function SavedBefore(saved: seq<EvidenceRecord>, rest: Step<seq<EvidenceRecord>>): Step<seq<EvidenceRecord>> {
    if rest.Raise? then rest else Ok(saved + rest.value, rest.sys)
  }

  /** Nothing before the rest, and nothing left after what was done. */
  lemma NothingElse(rest: Step<Collected>, saved: Step<seq<EvidenceRecord>>, records: seq<EvidenceRecord>,
                    unmet: seq<string>, s: Sys)
    ensures After([], [], rest) == rest && SavedBefore([], saved) == saved
    ensures After(records, unmet, Ok(Collected([], []), s)) == Step<Collected>.Ok(Collected(records, unmet), s)
    ensures SavedBefore(records, Ok([], s)) == Step<seq<EvidenceRecord>>.Ok(records, s)
  {
    assert records + [] == records && unmet + [] == unmet;
    if rest.Ok? {
      assert [] + rest.value.records == rest.value.records && [] + rest.value.unmet == rest.value.unmet;
    }
    if saved.Ok? {
      assert [] + saved.value == saved.value;
    }
  }

  lemma TaskFailed(w: World, port: Port, s: Sys, tasks: seq<Task>, round: nat, i: nat, records: seq<EvidenceRecord>,
                   unmet: seq<string>)
    requires i < |tasks| && w.research(round, i).Raised?
    ensures After(records, unmet, Collect(w, port, s, tasks, round, i)) ==
            After(records, unmet + RequirementsOf(tasks[i]), Collect(w, port, s, tasks, round, i + 1))
  {
    var rest := Collect(w, port, s, tasks, round, i + 1);
    if rest.Ok? {
      assert unmet + (RequirementsOf(tasks[i]) + rest.value.unmet) ==
          unmet + RequirementsOf(tasks[i]) + rest.value.unmet;
    }
  }

  lemma TaskReturned(w: World, port: Port, s: Sys, tasks: seq<Task>, round: nat, i: nat, records: seq<EvidenceRecord>,
                     unmet: seq<string>)
    requires i < |tasks| && w.research(round, i).Returned?
    ensures var submission := w.research(round, i).value;
            var saved := SaveAll(w, port, s, submission.records, round, i, 0);
            After(records, unmet, Collect(w, port, s, tasks, round, i)) ==
            if saved.Raise? then Step<Collected>.Raise(saved.error, saved.sys)
            else After(records + saved.value, unmet + submission.unmet,
                       Collect(w, port, saved.sys, tasks, round, i + 1))
  {
    hide SaveAll;
    var submission := w.research(round, i).value;
    var saved := SaveAll(w, port, s, submission.records, round, i, 0);
    if saved.Ok? {
      var rest := Collect(w, port, saved.sys, tasks, round, i + 1);
      if rest.Ok? {
        assert records + (saved.value + rest.value.records) == records + saved.value + rest.value.records;
        assert unmet + (submission.unmet + rest.value.unmet) == unmet + submission.unmet + rest.value.unmet;
      }
    }
  }

  lemma OneMoreSaved(w: World, port: Port, s: Sys, commands: seq<EvidenceCreate>, round: nat, task: nat, i: nat,
                     saved: seq<EvidenceRecord>)
    requires i < |commands|
    ensures var first := Save(w, port, s, commands[i], w.saveBreaks(round, task, i));
            SavedBefore(saved, SaveAll(w, port, s, commands[i..], round, task, i)) ==
            if first.Raise? then Step<seq<EvidenceRecord>>.Raise(first.error, first.sys)
            else SavedBefore(saved + [first.value], SaveAll(w, port, first.sys, commands[i + 1..], round, task, i + 1))
  {
    hide Save;
    assert commands[i..][0] == commands[i] && commands[i..][1..] == commands[i + 1..];
    var first := Save(w, port, s, commands[i], w.saveBreaks(round, task, i));
    if first.Ok? {
      var rest := SaveAll(w, port, first.sys, commands[i + 1..], round, task, i + 1);
      if rest.Ok? {
        assert saved + ([first.value] + rest.value) == saved + [first.value] + rest.value;
      }
    }
  }

  class ResearchRun {
    const world: World
    const port: Port
    var store: Store
    var log: seq<Event>
    var calls: nat

    ghost function Now(): Sys
      reads this
    {
      Sys(store, log, calls)
    }

    constructor (world: World, port: Port, job: Job)
      requires job.status == Created
      ensures this.world == world && this.port == port
      ensures Fresh(Now()) && store.job == job
    {
      this.world, this.port := world, port;
      store := Store(job, [Created], [], [], None);
      log, calls := [], 0;
    }

    /** One status write, delivered as often as the port says. */
    method Transition(target: JobStatus, detail: string) returns (r: Outcome<()>)
      modifies this
      ensures AsStep(r, Now()) == Move(port, old(Now()), target, detail)
    {
      var landed := ServiceMove(store, target, detail);
      if port.Activities? {
        var current := store;
        landed := ActivityMove(current, target, detail);
        var left := port.extra(calls);
        while left > 0
          invariant landed == ActivityMove(current, target, detail)
          invariant DeliverMove(store, target, detail, port.extra(calls)) == DeliverMove(current, target, detail, left)
        {
          current := if landed.Some? then landed.value else current;
          landed := ActivityMove(current, target, detail);
          left := left - 1;
        }
      }
      if landed.Some? {
        store, log, calls := landed.value, log + [Moved(target)], calls + 1;
        r := Returned(());
      } else {
        log, calls := log + [Refused(store.job.status, target)], calls + 1;
        r := Raised(InvalidStateTransition);
      }
    }

    /** What delivering an evidence write `1 + extra` times leaves stored. */
    method DeliverEvidence(command: EvidenceCreate, extra: nat) returns (st: Store, stored: EvidenceRecord)
      ensures (st, stored) == DeliverAdd(store, command, world, calls, 0, extra)
    {
      hide ActivityAdd;
      var first := ActivityAdd(store, command, world.newId(calls, 0, 0));
      st, stored := first.0, first.1;
      for delivery := 0 to extra
        invariant DeliverAdd(store, command, world, calls, 0, extra)
                  == if delivery == extra then (st, stored)
                     else DeliverAdd(st, command, world, calls, delivery + 1, extra - delivery - 1)
      {
        var again := ActivityAdd(st, command, world.newId(calls, delivery + 1, 0));
        st, stored := again.0, again.1;
      }
    }

    /** One evidence write, delivered as often as the port says; it may raise, landed or not. */
    method AddEvidence(command: EvidenceCreate, breakage: Option<Breakage>) returns (r: Outcome<EvidenceRecord>)
      modifies this
      ensures AsStep(r, Now()) == Save(world, port, old(Now()), command, breakage)
    {
      var (st, stored) := ServiceAdd(store, command, world.newId(calls, 0, 0));
      if port.Activities? {
        st, stored := DeliverEvidence(command, port.extra(calls));
      }
      if breakage.None? || breakage.value.landed {
        store, log := st, log + [Saved(stored)];
      }
      calls := calls + 1;
      r := if breakage.None? then Returned(stored) else Raised(breakage.value.error);
    }

    method RecordFindings(analysis: Analysis, review: CriticReview, reviewer: ReviewerStatus, round: nat)
      returns (r: Outcome<()>)
      modifies this
      ensures AsStep(r, Now()) == Record(world, port, old(Now()), analysis, review, reviewer, round)
    {
      var findings := DeriveFindings(analysis, review, reviewer);
      if exists f :: f in findings && !ValidFinding(f) {
        return Raised(Error("ValidationError", "a finding was refused"));
      }
      var st := ServiceFindings(store, findings, world, calls, 0);
      if port.Activities? {
        var delivery := 0;
        while delivery < port.extra(calls)
          invariant 0 <= delivery <= port.extra(calls)
          invariant DeliverFindings(store, findings, world, calls, 0, port.extra(calls))
                    == if delivery == port.extra(calls) then st
                       else DeliverFindings(st, findings, world, calls, delivery + 1, port.extra(calls) - delivery - 1)
        {
          delivery := delivery + 1;
          st := ServiceFindings(st, findings, world, calls, delivery);
        }
      }
      var breakage := world.recordBreaks(round, reviewer);
      if breakage.None? || breakage.value.landed {
        store, log := st, log + [Recorded(findings)];
      }
      calls := calls + 1;
      r := if breakage.None? then Returned(()) else Raised(breakage.value.error);
    }

    /** `_collect_evidence`: persist what each task found, in task order, until a write raises. */
    method CollectEvidence(tasks: seq<Task>, round: nat) returns (r: Outcome<Collected>)
      modifies this
      ensures AsStep(r, Now()) == Collect(world, port, old(Now()), tasks, round, 0)
    {
      var records: seq<EvidenceRecord>, unmet: seq<string> := [], [];
      ghost var goal := Collect(world, port, Now(), tasks, round, 0);
      NothingElse(goal, Ok([], Now()), [], [], Now());
      for i := 0 to |tasks|
        invariant goal == After(records, unmet, Collect(world, port, Now(), tasks, round, i))
      {
        ghost var here := Now();
        match world.research(round, i)
        case Raised(_) =>
          TaskFailed(world, port, here, tasks, round, i, records, unmet);
          unmet := unmet + RequirementsOf(tasks[i]);
        case Returned(submission) =>
          TaskReturned(world, port, here, tasks, round, i, records, unmet);
          hide Collect, SaveAll;
          var saved :- AddAll(submission.records, round, i);
          records, unmet := records + saved, unmet + submission.unmet;
      }
      NothingElse(goal, Ok([], Now()), records, unmet, Now());
      r := Returned(Collected(records, unmet));
    }

    method AddAll(commands: seq<EvidenceCreate>, round: nat, task: nat) returns (r: Outcome<seq<EvidenceRecord>>)
      modifies this
      ensures AsStep(r, Now()) == SaveAll(world, port, old(Now()), commands, round, task, 0)
    {
      var saved: seq<EvidenceRecord> := [];
      ghost var goal := SaveAll(world, port, Now(), commands, round, task, 0);
      NothingElse(Ok(Collected([], []), Now()), goal, [], [], Now());
      assert commands[0..] == commands;
      for i := 0 to |commands|
        invariant goal == SavedBefore(saved, SaveAll(world, port, Now(), commands[i..], round, task, i))
      {
        OneMoreSaved(world, port, Now(), commands, round, task, i, saved);
        hide Save, SaveAll;
        var e :- AddEvidence(commands[i], world.saveBreaks(round, task, i));
        saved := saved + [e];
      }
      assert commands[|commands|..] == [];
      NothingElse(Ok(Collected([], []), Now()), goal, saved, [], Now());
      r := Returned(saved);
    }

    method PublishReport(report: ResearchReport, shortfalls: seq<Shortfall>)
      returns (r: Outcome<Option<JobModel.Publication>>)
      modifies this
      ensures AsStep(r, Now()) == Publish(world, old(Now()), report, shortfalls)
    {
      if world.publisher.NoPublisher? {
        return Returned(None);
      }
      if world.publisher == Publishes || world.publisher.recorded {
        var p := PublicationOf(report, world.reportHash, shortfalls, store.evidence);
        store, log := store.(publication := Some(p)), log + [Published(p)];
        if world.publisher == Publishes {
          return Returned(Some(p));
        }
      }
      r := Raised(world.publisher.error);
    }

    method End(target: JobStatus, reason: string, evidence: seq<EvidenceRecord>) returns (r: Outcome<RunOutcome>)
      modifies this
      ensures AsStep(r, Now()) == Stop(port, old(Now()), target, reason, evidence)
    {
      var _ :- Transition(target, reason);
      r := Returned(RunOutcome(store.job, None, evidence, "", None));
    }

    /** The part of the pipeline after the review loop. */
    method Report(evidence: seq<EvidenceRecord>, unmet: seq<string>) returns (r: Outcome<RunOutcome>)
      modifies this
      ensures AsStep(r, Now()) == Finish(world, port, old(Now()), evidence, unmet)
    {
      var _ :- Transition(JobStatus.Reporting, "");
      var report :- world.report;
      var shortfalls := Shortfalls(unmet, report, IdsOf(evidence));
      var publication :- PublishReport(report, shortfalls);
      if shortfalls != [] {
        var _ :- Transition(Partial, Explain(shortfalls));
      } else {
        var _ :- Transition(JobStatus.Completed, "");
      }
      r := Returned(RunOutcome(store.job, Some(report), evidence, "", publication));
    }

    /** `_run_research_job`: plan, collect, then judge and review until a round settles. */
    method RunPipeline() returns (r: Outcome<RunOutcome>)
      modifies this
      ensures AsStep(r, Now()) == Drive(world, port, old(Now()))
    {
      hide Move, Collect, Record, Finish, Stop;
      var _ :- Transition(Planning, "");
      var plan :- world.plan;
      var _ :- Transition(Researching, "");
      var tasks := ResearcherTasks(plan, world.taskId);
      var first :- CollectEvidence(tasks, 0);
      var evidence, unmet := first.records, first.unmet;
      if evidence == [] {
        r := End(Partial, NO_EVIDENCE_REASON, []);
        return;
      }
      var cycle: nat := 0;
      while true
        invariant cycle <= MAX_REVIEW_CYCLES
        invariant Drive(world, port, old(Now())) == Rounds(world, port, Now(), tasks, evidence, unmet, cycle)
        decreases MAX_REVIEW_CYCLES - cycle
      {
        var _ :- Transition(Analyzing, "");
        var analysis :- world.analyze(cycle);
        var review :- world.critique(cycle);
        if !RequiresReviewer(review) {
          var _ :- RecordFindings(analysis, review, NotRequired, cycle);
          break;
        }
        var _ :- RecordFindings(analysis, review, AwaitingReview, cycle);
        var _ :- Transition(ReviewRequired, "");
        log := log + [Reviewed(world.decide(cycle))];
        if world.decide(cycle) == Approve {
          var _ :- RecordFindings(analysis, review, Approved, cycle);
          break;
        }
        if world.decide(cycle) == Reject {
          var _ :- RecordFindings(analysis, review, Rejected, cycle);
          r := End(Failed, REJECTED_REASON, evidence);
          return;
        }
        var _ :- Transition(Researching, "");
        if cycle + 1 > MAX_REVIEW_CYCLES {
          r := End(Partial, TOO_MANY_REVIEWS_REASON, evidence);
          return;
        }
        var more :- CollectEvidence(tasks, cycle + 1);
        evidence, unmet, cycle := evidence + more.records, more.unmet, cycle + 1;
      }
      r := Report(evidence, unmet);
    }

    /** `run_research_job`, with `_fail` as its exception handler. */
    method RunResearchJob() returns (r: Outcome<RunOutcome>)
      modifies this
      ensures AsStep(r, Now()) == Run(world, port, old(Now()))
    {
      r := RunPipeline();
      if r.Raised? {
        var error := r.error;
        var reason := Describe(error);
        if IsBudget(error) {
          var ended := Transition(Partial, reason);
          if ended.Returned? {
            return Returned(RunOutcome(store.job, None, [], reason, None));
          }
        }
        var failed := Transition(Failed, reason);
        if failed.Returned? {
          r := Returned(RunOutcome(store.job, None, [], reason, None));
        } else {
          r := Raised(error);
        }
      }
    }
  }
}
