/** What a run's publication record says about the status the job ends in. */
module JobPublication {
  import opened Basics
  import opened JobModel
  import opened Publication
  import opened Orchestration
  import opened JobProtocol

  /** The publication was stored just before the final status, which it agrees with. */
  ghost predicate PublishedThenEnded(s: Sys) {
    var n := |s.log|;
    && s.store.publication.Some? && n >= 2
    && s.log[n - 2] == Published(s.store.publication.value) && s.log[n - 1] == Moved(s.store.job.status)
    && (s.store.publication.value.isPartial <==> s.store.job.status == Partial)
  }

  /** The publish step raised after its record had already been stored. */
  ghost predicate BrokeAfterRecording(w: World, r: Step<RunOutcome>) {
    && r.sys.store.publication.Some? && w.publisher.Breaks? && w.publisher.recorded
    && r == Step<RunOutcome>.Raise(w.publisher.error, r.sys) && r.sys.store.job.status == JobStatus.Reporting
  }

  /** Where a step's publication can have come from; `None` only without a publisher or a report. */
  ghost predicate PublishedRight(w: World, r: Step<RunOutcome>) {
    var store := r.sys.store;
    && (r.Ok? ==> r.value.publication == store.publication)
    && (store.publication.Some? ==>
          && JobStatus.Reporting in store.path && w.report.Returned?
          && ((r.Ok? && w.publisher == Publishes && PublishedThenEnded(r.sys)) || BrokeAfterRecording(w, r)))
    && (r.Ok? && store.job.status == JobStatus.Completed ==> store.publication.Some? || w.publisher == NoPublisher)
  }

  lemma ConcludePublishes(w: World, port: Port, s: Sys, report: ResearchReport, evidence: seq<EvidenceRecord>,
                          shortfalls: seq<Shortfall>)
    requires Orderly(s) && s.store.job.status == JobStatus.Reporting && s.store.publication == None
    requires w.report.Returned? && (report.isPartial ==> shortfalls != [])
    ensures PublishedRight(w, Conclude(w, port, s, report, evidence, shortfalls))
  {
    assert JobStatus.Reporting in s.store.path by {
      assert s.store.path[|s.store.path| - 1] in s.store.path;
    }
    hide Move, Publish, Orderly, Explain, Reviews, Clip;
    PublishKeeps(w, s, report, shortfalls);
    var published := Publish(w, s, report, shortfalls);
    if published.Ok? {
      FinalMove(port, published.sys, shortfalls);
      PublishedEnds(w, s, published, shortfalls, Conclude(w, port, s, report, evidence, shortfalls));
    }
  }

  /** A run that ended right after its publish step. */
  lemma PublishedEnds(w: World, s: Sys, published: Step<Option<JobModel.Publication>>, shortfalls: seq<Shortfall>,
                      r: Step<RunOutcome>)
    requires published.Ok? && r.Ok? && w.report.Returned? && JobStatus.Reporting in published.sys.store.path
    requires published.value.Some? == (w.publisher == Publishes) && published.value == published.sys.store.publication
    requires published.value.None? ==> w.publisher == NoPublisher
    requires published.value.Some? ==>
               && (published.value.value.isPartial <==> shortfalls != [])
               && published.sys.log == s.log + [Published(published.value.value)]
    requires r.value.publication == published.value && r.sys.log == published.sys.log + [Moved(r.sys.store.job.status)]
    requires r.sys.store.publication == published.sys.store.publication
    requires r.sys.store.path == published.sys.store.path + [r.sys.store.job.status]
    requires r.sys.store.job.status == if shortfalls != [] then Partial else JobStatus.Completed
    ensures PublishedRight(w, r)
  {
  }

  lemma FinishPublishes(w: World, port: Port, s: Sys, evidence: seq<EvidenceRecord>, unmet: seq<string>)
    requires Orderly(s) && s.store.job.status in {Analyzing, ReviewRequired} && s.store.publication == None
    ensures PublishedRight(w, Finish(w, port, s, evidence, unmet))
  {
    hide Move, Conclude, Shortfalls, Orderly, Reviews, IdsOf, PublishedThenEnded;
    LegalMove(port, s, JobStatus.Reporting, "");
    if w.report.Returned? {
      NothingMissing(unmet, w.report.value, IdsOf(evidence));
      ConcludePublishes(w, port, Move(port, s, JobStatus.Reporting, "").sys, w.report.value, evidence,
                        Shortfalls(unmet, w.report.value, IdsOf(evidence)));
    }
  }

  /** Recording findings and then finishing, or raising without having published anything. */
  lemma RecordThenFinishPublishes(w: World, port: Port, s: Sys, evidence: seq<EvidenceRecord>, unmet: seq<string>,
                                  analysis: Analysis, review: CriticReview, reviewer: ReviewerStatus, round: nat)
    requires Orderly(s) && s.store.job.status in {Analyzing, ReviewRequired} && s.store.publication == None
    ensures var recorded := Record(w, port, s, analysis, review, reviewer, round);
            if recorded.Ok? then PublishedRight(w, Finish(w, port, recorded.sys, evidence, unmet))
            else recorded.sys.store.publication == None
  {
    hide Record, Finish, PublishedRight, Orderly;
    RecordStores(w, port, s, analysis, review, reviewer, round);
    var recorded := Record(w, port, s, analysis, review, reviewer, round);
    if recorded.Ok? {
      FinishPublishes(w, port, recorded.sys, evidence, unmet);
    }
  }

  lemma StopPublishes(w: World, port: Port, s: Sys, target: JobStatus, reason: string, evidence: seq<EvidenceRecord>)
    requires Orderly(s) && target in Allowed(s.store.job.status) - {JobStatus.Completed} && s.store.publication == None
    ensures PublishedRight(w, Stop(port, s, target, reason, evidence))
  {
    LegalMove(port, s, target, reason);
  }

  lemma {:induction false} RoundsPublish(w: World, port: Port, s: Sys, tasks: seq<Task>, evidence: seq<EvidenceRecord>,
                                         unmet: seq<string>, cycle: nat)
    requires cycle <= MAX_REVIEW_CYCLES
    requires Orderly(s) && s.store.job.status == Researching && s.store.publication == None
    requires JobStatus.Reporting !in s.store.path
    ensures PublishedRight(w, Rounds(w, port, s, tasks, evidence, unmet, cycle))
    decreases MAX_REVIEW_CYCLES - cycle, 2
  {
    hide Move, Record, Finish, AfterReview, Legal, NothingRefused, Paired, Derive, WithoutIds;
    LegalMove(port, s, Analyzing, "");
    var s1 := Move(port, s, Analyzing, "").sys;
    if Judged(w, cycle) {
      var analysis, review := w.analyze(cycle).value, w.critique(cycle).value;
      if ReviewedIn(w, cycle) {
        var s2 := OpensReview(w, port, s1, cycle);
        AfterReviewPublishes(w, port, s2, tasks, evidence, unmet, cycle, analysis, review);
      } else if RequiresReviewer(review) {
        RecordStores(w, port, s1, analysis, review, AwaitingReview, cycle);
      } else {
        RecordThenFinishPublishes(w, port, s1, evidence, unmet, analysis, review, NotRequired, cycle);
      }
    }
  }

  lemma {:induction false} AfterReviewPublishes(w: World, port: Port, s: Sys, tasks: seq<Task>,
                                                evidence: seq<EvidenceRecord>, unmet: seq<string>, cycle: nat,
                                                analysis: Analysis, review: CriticReview)
    requires cycle <= MAX_REVIEW_CYCLES
    requires Orderly(s) && s.store.job.status == ReviewRequired && s.store.publication == None
    requires JobStatus.Reporting !in s.store.path
    ensures PublishedRight(w, AfterReview(w, port, s, tasks, evidence, unmet, cycle, analysis, review))
    decreases MAX_REVIEW_CYCLES - cycle, 1
  {
    hide Move, Record, Finish, Stop, Collect, Rounds, Orderly, IdsOf, Derive, WithoutIds, PublishedThenEnded, AllFrom;
    hide RoundTrouble;
    match w.decide(cycle)
    case Approve =>
      RecordThenFinishPublishes(w, port, s, evidence, unmet, analysis, review, Approved, cycle);
    case Reject =>
      RecordStores(w, port, s, analysis, review, Rejected, cycle);
      var recorded := Record(w, port, s, analysis, review, Rejected, cycle);
      if recorded.Ok? {
        StopPublishes(w, port, recorded.sys, Failed, REJECTED_REASON, evidence);
      }
    case RequestMoreResearch =>
      SentBackPublishes(w, port, s, tasks, evidence, unmet, cycle, analysis, review);
  }

  lemma {:induction false} SentBackPublishes(w: World, port: Port, s: Sys, tasks: seq<Task>,
                                             evidence: seq<EvidenceRecord>, unmet: seq<string>, cycle: nat,
                                             analysis: Analysis, review: CriticReview)
    requires cycle <= MAX_REVIEW_CYCLES && w.decide(cycle) == RequestMoreResearch
    requires Orderly(s) && s.store.job.status == ReviewRequired && s.store.publication == None
    requires JobStatus.Reporting !in s.store.path
    ensures PublishedRight(w, AfterReview(w, port, s, tasks, evidence, unmet, cycle, analysis, review))
    decreases MAX_REVIEW_CYCLES - cycle, 0
  {
    hide Move, Stop, Collect, Rounds, Orderly, IdsOf, PublishedThenEnded, AllFrom, RoundTrouble, Reviews;
    LegalMove(port, s, Researching, "");
    var s1 := Move(port, s, Researching, "").sys;
    if cycle + 1 > MAX_REVIEW_CYCLES {
      StopPublishes(w, port, s1, Partial, TOO_MANY_REVIEWS_REASON, evidence);
    } else {
      CollectStores(w, port, s1, tasks, cycle + 1, 0);
      var more := Collect(w, port, s1, tasks, cycle + 1, 0);
      if more.Ok? {
        RoundsPublish(w, port, more.sys, tasks, evidence + more.value.records, more.value.unmet, cycle + 1);
      }
    }
  }

  lemma CollectAndJudgePublishes(w: World, port: Port, s: Sys, tasks: seq<Task>)
    requires Orderly(s) && s.store.job.status == Researching && s.store.publication == None
    requires JobStatus.Reporting !in s.store.path
    ensures PublishedRight(w, CollectAndJudge(w, port, s, tasks))
  {
    hide Collect, Stop, Rounds, Orderly, IdsOf, AllFrom, RoundTrouble, PublishedThenEnded;
    CollectStores(w, port, s, tasks, 0, 0);
    var first := Collect(w, port, s, tasks, 0, 0);
    if first.Ok? {
      if first.value.records == [] {
        StopPublishes(w, port, first.sys, Partial, NO_EVIDENCE_REASON, []);
      } else {
        RoundsPublish(w, port, first.sys, tasks, first.value.records, first.value.unmet, 0);
      }
    }
  }

  lemma DrivePublishes(w: World, port: Port, s: Sys)
    requires Fresh(s)
    ensures PublishedRight(w, Drive(w, port, s))
  {
    hide Move, CollectAndJudge, ResearcherTasks, PublishedThenEnded;
    LegalMove(port, s, Planning, "");
    var s1 := Move(port, s, Planning, "").sys;
    if w.plan.Returned? {
      LegalMove(port, s1, Researching, "");
      CollectAndJudgePublishes(w, port, Move(port, s1, Researching, "").sys, ResearcherTasks(w.plan.value, w.taskId));
    }
  }

  /** The report the run got to lacks nothing. */
  ghost predicate CompleteReport(w: World, store: Store) {
    w.report.Returned? && Complete(w, TaskCount(w), Decisive(w), IdsOf(store.evidence))
  }

  /**
   With a publish step configured, a job ends COMPLETED exactly when it got to its report,
   publication worked, every citation names evidence stored in the run, the deciding round
   left nothing unmet and the report declares no omission; and then the publication was
   stored before the final status.

   A publication is stored exactly when the run got to a report and the publish step stores
   one. It is marked partial exactly when the job ends PARTIAL, exactly when the publish step
   did not raise after storing it, or raised a spent budget for an incomplete report, or
   something else for a complete one.
   */
  lemma CompletionIsPublished(w: World, port: Port, s: Sys)
    requires Fresh(s) && w.publisher != NoPublisher
    ensures var r := Run(w, port, s);
            var store := r.sys.store;
            && (store.job.status == JobStatus.Completed <==>
                  GetsToReport(w) && CompleteReport(w, store) && w.publisher == Publishes)
            && r.Ok?
            && (store.job.status == JobStatus.Completed ==>
                PublishedThenEnded(r.sys) && r.value.publication == store.publication)
            && (RunError(w).None? ==> r.value.publication == store.publication)
            && (store.publication.Some? <==> GetsToReport(w) && w.report.Returned? && StoresPublication(w))
            && (store.publication.Some? ==>
                  ((store.publication.value.isPartial <==> store.job.status == Partial) <==>
                     (w.publisher == Publishes || (IsBudget(w.publisher.error) <==> !CompleteReport(w, store)))))
  {
    hide Drive, Fail, IdsOf, DecidingRound, ResearcherTasks, Reviews, WithoutIds, Derive, IsBudget, AllFrom,
        RoundTrouble;
    hide Paired;
    DriveEnds(w, port, s);
    DrivePublishes(w, port, s);
    var driven := Drive(w, port, s);
    if driven.Raise? {
      FailEnds(port, driven.sys, driven.error);
    }
  }

  /**
   A stored publication names the report's hash and is partial exactly when the report lacks
   something. It is as restricted as the strictest record behind it and no more: its report as
   the records it cites, its manifest as everything stored.
   */
  lemma PublicationDescribesReport(w: World, port: Port, s: Sys)
    requires Fresh(s)
    ensures var store := Run(w, port, s).sys.store;
            store.publication.Some? && w.publisher != NoPublisher ==>
              var p := store.publication.value;
              && p.reportHash == w.reportHash && (p.isPartial <==> !CompleteReport(w, store)) && w.report.Returned?
              && (forall e :: e in store.evidence ==>
                    && ClearanceCovers(p.manifestClass, e.content.access)
                    && (e.id in w.report.value.cited ==> ClearanceCovers(p.reportClass, e.content.access)))
              && (p.manifestClass == Public || exists e :: e in store.evidence && e.content.access == p.manifestClass)
              && (p.reportClass == Public ||
                  exists e :: e in store.evidence && e.id in w.report.value.cited && e.content.access == p.reportClass)
  {
    hide Drive, Fail, IdsOf, DecidingRound, Tasks, Reviews, WithoutIds, Derive, IsBudget, AllFrom, RoundTrouble;
    hide Paired, PublicationOf, ClearanceCovers, Missing, RunError, Gathered;
    DriveEnds(w, port, s);
    var driven := Drive(w, port, s);
    if driven.Raise? {
      FailEnds(port, driven.sys, driven.error);
    }
    var store := Run(w, port, s).sys.store;
    if store.publication.Some? && w.publisher != NoPublisher {
      CompletionIsPublished(w, port, s);
      var report, lacks := w.report.value, Lacks(w, Tasks(w), Decisive(w), store);
      hide Lacks;
      PublicationClassesAreHeld(report, w.reportHash, lacks, store.evidence);
      forall e | e in store.evidence
        ensures var p := PublicationOf(report, w.reportHash, lacks, store.evidence);
                && ClearanceCovers(p.manifestClass, e.content.access)
                && (e.id in report.cited ==> ClearanceCovers(p.reportClass, e.content.access))
      {
        PublicationClassesCover(report, w.reportHash, lacks, store.evidence, e);
      }
    }
  }

  const SomeEvidence := EvidenceCreate("e", "s", "", "", None, Primary, Public, "h", 0, 0)

  /**
   One task finds one record, the critic is content, nothing is missing from the report, and
   publishing runs out of budget once it has stored its record.
   */
  ghost const Unlucky: World := World(
    Returned([PlannedTask("o", Researcher, ["r"])]), i => i,
    (r, i) => Returned(Submission([SomeEvidence], [])),
    k => Returned([Proposal("claim", [0], [], [], 0.5)]),
    k => Returned(Review([Verdict("claim", Supported, [])], [])),
    k => Approve, Returned(Report({}, false, [])), "hash",
    Breaks(Error(BUDGET_EXHAUSTED, ""), true), (r, i, k) => None, (k, status) => None, (a, b, c) => a)

  const OneTask := [Task(0, "o", ["r"])]

  lemma UnluckyCollects(s: Sys)
    ensures ResearcherTasks(Unlucky.plan.value, Unlucky.taskId) == OneTask
    ensures var saved := Save(Unlucky, Direct, s, SomeEvidence, None);
            && saved.Ok?
            && Collect(Unlucky, Direct, s, OneTask, 0, 0) == Step<Collected>.Ok(Collected([saved.value], []), saved.sys)
  {
    var plan := Unlucky.plan.value;
    assert Filter((p: PlannedTask) => p.role == Researcher, plan) == plan;
    var saved := Save(Unlucky, Direct, s, SomeEvidence, None);
    assert [SomeEvidence][1..] == [];
    assert SaveAll(Unlucky, Direct, saved.sys, [], 0, 0, 1) == Step<seq<EvidenceRecord>>.Ok([], saved.sys);
    assert SaveAll(Unlucky, Direct, s, [SomeEvidence], 0, 0, 0) ==
        Step<seq<EvidenceRecord>>.Ok([saved.value] + [], saved.sys);
    assert Collect(Unlucky, Direct, saved.sys, OneTask, 0, 1) == Step<Collected>.Ok(Collected([], []), saved.sys);
    var records: seq<EvidenceRecord>, unmet: seq<string> := [], [];
    assert [saved.value] + records == [saved.value] && unmet + unmet == unmet;
    assert Unlucky.research(0, 0) == Returned(Submission([SomeEvidence], []));
  }

  lemma UnluckyDrive(s: Sys) returns (raised: Sys)
    requires Fresh(s)
    ensures Drive(Unlucky, Direct, s) == Step<RunOutcome>.Raise(Unlucky.publisher.error, raised)
    ensures raised.store.job.status == JobStatus.Reporting
    ensures raised.store.publication.Some? && !raised.store.publication.value.isPartial
  {
    hide ResearcherTasks, Collect, Save, Rounds;
    MoveLands(Direct, s, Planning, "");
    var s1 := Move(Direct, s, Planning, "").sys;
    MoveLands(Direct, s1, Researching, "");
    var s2 := Move(Direct, s1, Researching, "").sys;
    UnluckyCollects(s2);
    SaveStores(Unlucky, Direct, s2, SomeEvidence, None);
    var saved := Save(Unlucky, Direct, s2, SomeEvidence, None);
    raised := UnluckyRounds(saved.sys, saved.value);
  }

  lemma UnluckyRounds(s: Sys, e: EvidenceRecord) returns (raised: Sys)
    requires s.store.job.status == Researching
    ensures Rounds(Unlucky, Direct, s, OneTask, [e], [], 0) == Step<RunOutcome>.Raise(Unlucky.publisher.error, raised)
    ensures raised.store.job.status == JobStatus.Reporting
    ensures raised.store.publication.Some? && !raised.store.publication.value.isPartial
  {
    hide Record, Derive, Publish, Shortfalls, AfterReview, IdsOf;
    var s4 := Move(Direct, s, Analyzing, "").sys;
    var analysis, review := Unlucky.analyze(0).value, Unlucky.critique(0).value;
    RecordStores(Unlucky, Direct, s4, analysis, review, NotRequired, 0);
    var s5 := Record(Unlucky, Direct, s4, analysis, review, NotRequired, 0).sys;
    var s6 := Move(Direct, s5, JobStatus.Reporting, "").sys;
    NothingMissing([], Unlucky.report.value, IdsOf([e]));
    PublishKeeps(Unlucky, s6, Unlucky.report.value, []);
    raised := Publish(Unlucky, s6, Unlucky.report.value, []).sys;
  }

  /**
   A publish step that stores a complete publication and then runs out of budget leaves it on
   a job that ends PARTIAL, so the condition in `CompletionIsPublished` cannot be dropped.
   */
  lemma PublicationCanDisagree(s: Sys)
    requires Fresh(s)
    ensures var store := Run(Unlucky, Direct, s).sys.store;
            store.job.status == Partial && store.publication.Some? && !store.publication.value.isPartial
  {
    hide Drive, Move;
    var raised := UnluckyDrive(s);
    MoveLands(Direct, raised, Partial, Describe(Unlucky.publisher.error));
    var reason := Describe(Unlucky.publisher.error);
    assert reason[..|BUDGET_EXHAUSTED|] == BUDGET_EXHAUSTED;
  }

  /**
   The same in the other direction, for every run: a publish step that stores a publication of
   a report with omissions and then raises anything but a spent budget leaves a partial
   publication on a job that ends FAILED.
   */
  lemma PartialPublicationOfFailedJob(w: World, port: Port, s: Sys)
    requires Fresh(s) && GetsToReport(w) && w.report.Returned? && w.report.value.omitted != []
    requires w.publisher.Breaks? && w.publisher.recorded && !IsBudget(w.publisher.error)
    ensures var store := Run(w, port, s).sys.store;
            store.job.status == Failed && store.publication.Some? && store.publication.value.isPartial
  {
    hide Run, IsBudget, DecidingRound, ResearcherTasks, RoundTrouble, IdsOf, AllFrom;
    CompletionIsPublished(w, port, s);
    EveryRunEnds(w, port, s);
    assert ExpectedStatus(w, IdsOf(Run(w, port, s).sys.store.evidence)) == ErrorEnding(w.publisher.error);
  }
}
