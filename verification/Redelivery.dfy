/**
 Delivering every write one or more times stores what the plain service stores when each
 write happens exactly once.
 */
module Redelivery {
  import opened Basics
  import opened JobModel
  import opened Publication
  import opened Orchestration
  import opened JobProtocol

  /** Two systems that differ at most in the ids generated for their findings. */
  ghost predicate Same(s: Sys, t: Sys) {
    && s.log == t.log && s.calls == t.calls
    && s.store == t.store.(findings := s.store.findings)
    && WithoutIds(s.store.findings) == WithoutIds(t.store.findings)
  }

  ghost predicate SameStep<T(!new)>(r: Step<T>, q: Step<T>) {
    && Same(r.sys, q.sys)
    && (r.Ok? ==> q.Ok? && r.value == q.value)
    && (r.Raise? ==> q.Raise? && r.error == q.error)
  }

  // ---------------------------------------------------------------- ids the platform generates

  /**
   What generated ids guarantee: tasks have ids of their own, a submission's records carry
   the id of the task that verified them, and two rounds never share a tool call.
   */
  ghost predicate GeneratedIds(w: World) {
    && (forall i: nat, j: nat :: i != j ==> w.taskId(i) != w.taskId(j))
    && (forall e, round, i :: From(w, e, round, i) ==> e.taskId == w.taskId(i))
    && (forall e, f, round: nat, round': nat, i, j ::
          From(w, e, round, i) && From(w, f, round', j) && round != round' ==> e.invocationId != f.invocationId)
  }

  ghost predicate Before(round: nat, i: nat, round': nat, i': nat) {
    round < round' || (round == round' && i < i')
  }

  /** Everything stored so far was submitted before task `i` of the round. */
  ghost predicate Earlier(w: World, evidence: seq<EvidenceRecord>, round: nat, i: nat) {
    forall e :: e in evidence ==> exists r, j :: From(w, e.content, r, j) && Before(r, j, round, i)
  }

  /** No two submissions of a run contain the same record, and no submission repeats one. */
  lemma NewEvidenceIsNew(w: World, evidence: seq<EvidenceRecord>, round: nat, i: nat)
    requires GeneratedIds(w) && Earlier(w, evidence, round, i) && w.research(round, i).Returned?
    ensures forall e, c :: e in evidence && c in w.research(round, i).value.records ==> !SameEvidence(e.content, c)
  {
    forall e, c | e in evidence && c in w.research(round, i).value.records
      ensures !SameEvidence(e.content, c)
    {
      var r, j :| From(w, e.content, r, j) && Before(r, j, round, i);
      assert From(w, c, round, i);
    }
  }

  // ---------------------------------------------------------------- each write

  lemma SameMove(extra: nat -> nat, s: Sys, t: Sys, target: JobStatus, detail: string)
    requires Same(s, t) && target != s.store.job.status
    ensures SameStep(Move(Direct, s, target, detail), Move(Activities(extra), t, target, detail))
  {
    DeliveredMove(t.store, target, detail, extra(t.calls));
  }

  /** A save that adds at most a record of the command, which nothing stored repeats. */
  ghost predicate SavedNew(s: Sys, command: EvidenceCreate, r: Step<EvidenceRecord>) {
    && (r.Ok? ==> r.value.content == command && r.sys.store == s.store.(evidence := s.store.evidence + [r.value]))
    && Added(s.store, r.sys.store, command)
  }

  lemma SameSave(w: World, extra: nat -> nat, s: Sys, t: Sys, command: EvidenceCreate, breakage: Option<Breakage>)
    requires Same(s, t) && Existing(s.store.evidence, command).None?
    ensures var r := Save(w, Direct, s, command, breakage);
            SameStep(r, Save(w, Activities(extra), t, command, breakage)) && SavedNew(s, command, r)
  {
    DeliveredAdd(t.store, command, w, t.calls, 0, extra(t.calls));
  }

  lemma SameRecord(w: World, extra: nat -> nat, s: Sys, t: Sys, analysis: Analysis, review: CriticReview,
                   reviewer: ReviewerStatus, round: nat)
    requires Same(s, t)
    ensures var r := Record(w, Direct, s, analysis, review, reviewer, round);
            && SameStep(r, Record(w, Activities(extra), t, analysis, review, reviewer, round))
            && r.sys.store.job == s.store.job && r.sys.store.evidence == s.store.evidence
  {
    hide Record, Derive;
    RecordStores(w, Direct, s, analysis, review, reviewer, round);
    RecordStores(w, Activities(extra), t, analysis, review, reviewer, round);
  }

  // ---------------------------------------------------------------- collecting

  /** Saving a submission adds records of its commands and changes nothing else. */
  ghost predicate SavedNewAll(s: Sys, commands: seq<EvidenceCreate>, r: Step<seq<EvidenceRecord>>) {
    var n := |s.store.evidence|;
    && n <= |r.sys.store.evidence| && r.sys.store == s.store.(evidence := s.store.evidence + r.sys.store.evidence[n..])
    && forall e :: e in r.sys.store.evidence[n..] ==> e.content in commands
  }

  lemma AddedAll(s: Sys, command: EvidenceCreate, s1: Sys, commands: seq<EvidenceCreate>, r: Step<seq<EvidenceRecord>>,
                 r': Step<seq<EvidenceRecord>>)
    requires Added(s.store, s1.store, command) && SavedNewAll(s1, commands, r) && r'.sys == r.sys
    ensures SavedNewAll(s, [command] + commands, r')
  {
    var n, m, all := |s.store.evidence|, |s1.store.evidence|, r.sys.store.evidence;
    assert s1.store.evidence == all[..m];
    assert all[n..] == s1.store.evidence[n..] + all[m..];
    forall e | e in all[n..]
      ensures e.content in [command] + commands
    {
      assert e in s1.store.evidence[n..] || e in all[m..];
    }
  }

  /** The commands name neither a stored record nor each other. */
  ghost predicate AllNew(evidence: seq<EvidenceRecord>, commands: seq<EvidenceCreate>) {
    && (forall e, c :: e in evidence && c in commands ==> !SameEvidence(e.content, c))
    && (forall i, j :: 0 <= i < j < |commands| ==> !SameEvidence(commands[i], commands[j]))
  }

  lemma StillNew(evidence: seq<EvidenceRecord>, e: EvidenceRecord, commands: seq<EvidenceCreate>)
    requires commands != [] && AllNew(evidence, commands) && e.content == commands[0]
    ensures AllNew(evidence + [e], commands[1..])
  {
    hide SameEvidence;
    assert forall c :: c in commands[1..] ==> c in commands && !SameEvidence(commands[0], c);
  }

  lemma {:induction false} SameSaveAll(w: World, extra: nat -> nat, s: Sys, t: Sys, commands: seq<EvidenceCreate>,
                                       round: nat, i: nat, k: nat)
    requires Same(s, t) && AllNew(s.store.evidence, commands)
    ensures var r := SaveAll(w, Direct, s, commands, round, i, k);
            SameStep(r, SaveAll(w, Activities(extra), t, commands, round, i, k)) && SavedNewAll(s, commands, r)
    decreases |commands|
  {
    if commands == [] {
      return;
    }
    var breakage := w.saveBreaks(round, i, k);
    assert commands[0] in commands;
    assert Existing(s.store.evidence, commands[0]).None?;
    SameSave(w, extra, s, t, commands[0], breakage);
    var first := Save(w, Direct, s, commands[0], breakage);
    var first' := Save(w, Activities(extra), t, commands[0], breakage);
    var none: Step<seq<EvidenceRecord>> := Step<seq<EvidenceRecord>>.Ok([], first.sys);
    assert SavedNewAll(first.sys, [], none);
    AddedAll(s, commands[0], first.sys, [], none, none);
    assert [commands[0]] + commands[1..] == commands;
    if first.Ok? {
      StillNew(s.store.evidence, first.value, commands);
      hide Save, Same, AllNew, Added, SavedNewAll;
      SameSaveAll(w, extra, first.sys, first'.sys, commands[1..], round, i, k + 1);
      AddedAll(s, commands[0], first.sys, commands[1..], SaveAll(w, Direct, first.sys, commands[1..], round, i, k + 1),
               SaveAll(w, Direct, s, commands, round, i, k));
    }
  }

  lemma SubmissionRepeatsNothing(submission: EvidenceSubmission, i: int, j: int)
    requires 0 <= i < j < |submission.records|
    ensures !SameEvidence(submission.records[i], submission.records[j])
  {
    var hashes := seq(|submission.records|,
                      k requires 0 <= k < |submission.records| => submission.records[k].contentHash);
    assert hashes[i] != hashes[j];
  }

  lemma {:induction false} SameCollect(w: World, extra: nat -> nat, s: Sys, t: Sys, tasks: seq<Task>, round: nat,
                                       i: nat)
    requires GeneratedIds(w) && i <= |tasks| && Same(s, t) && Earlier(w, s.store.evidence, round, i)
    ensures var c := Collect(w, Direct, s, tasks, round, i);
            && SameStep(c, Collect(w, Activities(extra), t, tasks, round, i))
            && c.sys.store.job == s.store.job
            && Earlier(w, c.sys.store.evidence, round + 1, 0)
    decreases |tasks| - i
  {
    hide SaveAll, Same, Earlier, GeneratedIds;
    if i == |tasks| {
      LaterStill(w, s.store.evidence, round, i, round + 1, 0);
    } else {
      match w.research(round, i)
      case Raised(_) =>
        LaterStill(w, s.store.evidence, round, i, round, i + 1);
        SameCollect(w, extra, s, t, tasks, round, i + 1);
      case Returned(submission) =>
        NewEvidenceIsNew(w, s.store.evidence, round, i);
        SubmissionIsNew(w, s.store.evidence, round, i);
        SameSaveAll(w, extra, s, t, submission.records, round, i, 0);
        var saved := SaveAll(w, Direct, s, submission.records, round, i, 0);
        StillEarlier(w, s.store.evidence, saved.sys.store.evidence[|s.store.evidence|..], round, i);
        LaterStill(w, saved.sys.store.evidence, round, i + 1, round + 1, 0);
        if saved.Ok? {
          SameCollect(w, extra, saved.sys, SaveAll(w, Activities(extra), t, submission.records, round, i, 0).sys,
                      tasks, round, i + 1);
        }
    }
  }

  lemma SubmissionIsNew(w: World, evidence: seq<EvidenceRecord>, round: nat, i: nat)
    requires w.research(round, i).Returned?
    requires forall e, c :: e in evidence && c in w.research(round, i).value.records ==> !SameEvidence(e.content, c)
    ensures AllNew(evidence, w.research(round, i).value.records)
  {
    var submission := w.research(round, i).value;
    forall j, k | 0 <= j < k < |submission.records|
      ensures !SameEvidence(submission.records[j], submission.records[k])
    {
      SubmissionRepeatsNothing(submission, j, k);
    }
  }

  lemma LaterStill(w: World, evidence: seq<EvidenceRecord>, round: nat, i: nat, round': nat, i': nat)
    requires Earlier(w, evidence, round, i) && Before(round, i, round', i')
    ensures Earlier(w, evidence, round', i')
  {
    forall e | e in evidence
      ensures exists r, j :: From(w, e.content, r, j) && Before(r, j, round', i')
    {
      var r, j :| From(w, e.content, r, j) && Before(r, j, round, i);
      assert Before(r, j, round', i');
    }
  }

  lemma StillEarlier(w: World, evidence: seq<EvidenceRecord>, saved: seq<EvidenceRecord>, round: nat, i: nat)
    requires Earlier(w, evidence, round, i) && w.research(round, i).Returned?
    requires forall e :: e in saved ==> e.content in w.research(round, i).value.records
    ensures Earlier(w, evidence + saved, round, i + 1)
  {
    forall e | e in evidence + saved
      ensures exists r, j :: From(w, e.content, r, j) && Before(r, j, round, i + 1)
    {
      if e in evidence {
        var r, j :| From(w, e.content, r, j) && Before(r, j, round, i);
        assert Before(r, j, round, i + 1);
      } else {
        assert From(w, e.content, round, i) && Before(round, i, round, i + 1);
      }
    }
  }

  // ---------------------------------------------------------------- the pipeline

  lemma SameStop(extra: nat -> nat, s: Sys, t: Sys, target: JobStatus, reason: string, evidence: seq<EvidenceRecord>)
    requires Same(s, t) && target != s.store.job.status
    ensures SameStep(Stop(Direct, s, target, reason, evidence), Stop(Activities(extra), t, target, reason, evidence))
  {
    SameMove(extra, s, t, target, reason);
  }

  lemma SamePublish(w: World, s: Sys, t: Sys, report: ResearchReport, shortfalls: seq<Shortfall>)
    requires Same(s, t)
    ensures SameStep(Publish(w, s, report, shortfalls), Publish(w, t, report, shortfalls))
    ensures Publish(w, s, report, shortfalls).sys.store.job == s.store.job
  {
  }

  lemma SameConclude(w: World, extra: nat -> nat, s: Sys, t: Sys, report: ResearchReport,
                     evidence: seq<EvidenceRecord>, shortfalls: seq<Shortfall>)
    requires Same(s, t) && s.store.job.status == JobStatus.Reporting
    ensures SameStep(Conclude(w, Direct, s, report, evidence, shortfalls),
                     Conclude(w, Activities(extra), t, report, evidence, shortfalls))
  {
    hide Move, Publish, Explain, WithoutIds;
    SamePublish(w, s, t, report, shortfalls);
    var p, q := Publish(w, s, report, shortfalls), Publish(w, t, report, shortfalls);
    if p.Ok? {
      SameMove(extra, p.sys, q.sys, Partial, Explain(shortfalls));
      SameMove(extra, p.sys, q.sys, JobStatus.Completed, "");
    }
  }

  lemma SameFinish(w: World, extra: nat -> nat, s: Sys, t: Sys, evidence: seq<EvidenceRecord>, unmet: seq<string>)
    requires Same(s, t) && s.store.job.status in {Analyzing, ReviewRequired}
    ensures SameStep(Finish(w, Direct, s, evidence, unmet), Finish(w, Activities(extra), t, evidence, unmet))
  {
    hide Move, Conclude, Shortfalls, WithoutIds;
    MoveLands(Direct, s, JobStatus.Reporting, "");
    SameMove(extra, s, t, JobStatus.Reporting, "");
    if w.report.Returned? {
      SameConclude(w, extra, Move(Direct, s, JobStatus.Reporting, "").sys,
                   Move(Activities(extra), t, JobStatus.Reporting, "").sys,
                   w.report.value, evidence, Shortfalls(unmet, w.report.value, IdsOf(evidence)));
    }
  }

  lemma {:induction false} SameRounds(w: World, extra: nat -> nat, s: Sys, t: Sys, tasks: seq<Task>,
                                      evidence: seq<EvidenceRecord>, unmet: seq<string>, cycle: nat)
    requires cycle <= MAX_REVIEW_CYCLES && GeneratedIds(w) && Same(s, t)
    requires s.store.job.status == Researching && Earlier(w, s.store.evidence, cycle + 1, 0)
    ensures SameStep(Rounds(w, Direct, s, tasks, evidence, unmet, cycle),
                     Rounds(w, Activities(extra), t, tasks, evidence, unmet, cycle))
    decreases MAX_REVIEW_CYCLES - cycle, 1
  {
    hide Move, Record, Finish, AfterReview, WithoutIds, Earlier, GeneratedIds;
    MoveLands(Direct, s, Analyzing, "");
    SameMove(extra, s, t, Analyzing, "");
    var s1, t1 := Move(Direct, s, Analyzing, "").sys, Move(Activities(extra), t, Analyzing, "").sys;
    if Judged(w, cycle) {
      var analysis, review := w.analyze(cycle).value, w.critique(cycle).value;
      var reviewer := if RequiresReviewer(review) then AwaitingReview else NotRequired;
      SameRecord(w, extra, s1, t1, analysis, review, reviewer, cycle);
      var recorded, recorded' := Record(w, Direct, s1, analysis, review, reviewer, cycle),
                                 Record(w, Activities(extra), t1, analysis, review, reviewer, cycle);
      if recorded.Ok? && reviewer == NotRequired {
        SameFinish(w, extra, recorded.sys, recorded'.sys, evidence, unmet);
      } else if recorded.Ok? {
        var s2, t2 := recorded.sys, recorded'.sys;
        MoveLands(Direct, s2, ReviewRequired, "");
        SameMove(extra, s2, t2, ReviewRequired, "");
        var s3, t3 := Move(Direct, s2, ReviewRequired, "").sys, Move(Activities(extra), t2, ReviewRequired, "").sys;
        SameAfterReview(w, extra, s3.(log := s3.log + [Reviewed(w.decide(cycle))]),
                        t3.(log := t3.log + [Reviewed(w.decide(cycle))]), tasks, evidence, unmet, cycle,
                        analysis, review);
      }
    }
  }

  lemma {:induction false} SameAfterReview(w: World, extra: nat -> nat, s: Sys, t: Sys, tasks: seq<Task>,
                                           evidence: seq<EvidenceRecord>, unmet: seq<string>, cycle: nat,
                                           analysis: Analysis, review: CriticReview)
    requires cycle <= MAX_REVIEW_CYCLES && GeneratedIds(w) && Same(s, t)
    requires s.store.job.status == ReviewRequired && Earlier(w, s.store.evidence, cycle + 1, 0)
    ensures SameStep(AfterReview(w, Direct, s, tasks, evidence, unmet, cycle, analysis, review),
                     AfterReview(w, Activities(extra), t, tasks, evidence, unmet, cycle, analysis, review))
    decreases MAX_REVIEW_CYCLES - cycle, 0
  {
    hide Move, Record, Finish, Stop, Collect, Rounds, Same, Earlier, GeneratedIds;
    match w.decide(cycle)
    case Approve =>
      SameRecord(w, extra, s, t, analysis, review, Approved, cycle);
      var recorded := Record(w, Direct, s, analysis, review, Approved, cycle);
      if recorded.Ok? {
        SameFinish(w, extra, recorded.sys, Record(w, Activities(extra), t, analysis, review, Approved, cycle).sys,
                   evidence, unmet);
      }
    case Reject =>
      SameRecord(w, extra, s, t, analysis, review, Rejected, cycle);
      var recorded := Record(w, Direct, s, analysis, review, Rejected, cycle);
      if recorded.Ok? {
        SameStop(extra, recorded.sys, Record(w, Activities(extra), t, analysis, review, Rejected, cycle).sys,
                 Failed, REJECTED_REASON, evidence);
      }
    case RequestMoreResearch =>
      MoveLands(Direct, s, Researching, "");
      SameMove(extra, s, t, Researching, "");
      var s1, t1 := Move(Direct, s, Researching, "").sys, Move(Activities(extra), t, Researching, "").sys;
      if cycle + 1 > MAX_REVIEW_CYCLES {
        SameStop(extra, s1, t1, Partial, TOO_MANY_REVIEWS_REASON, evidence);
      } else {
        SameCollect(w, extra, s1, t1, tasks, cycle + 1, 0);
        var c, d := Collect(w, Direct, s1, tasks, cycle + 1, 0), Collect(w, Activities(extra), t1, tasks, cycle + 1, 0);
        if c.Ok? {
          SameRounds(w, extra, c.sys, d.sys, tasks, evidence + c.value.records, c.value.unmet, cycle + 1);
        }
      }
  }

  lemma SameCollectAndJudge(w: World, extra: nat -> nat, s: Sys, t: Sys, tasks: seq<Task>)
    requires GeneratedIds(w) && Same(s, t) && s.store.job.status == Researching && Earlier(w, s.store.evidence, 0, 0)
    ensures SameStep(CollectAndJudge(w, Direct, s, tasks), CollectAndJudge(w, Activities(extra), t, tasks))
  {
    hide Stop, Collect, Rounds, Same, Earlier, GeneratedIds;
    SameCollect(w, extra, s, t, tasks, 0, 0);
    var c, d := Collect(w, Direct, s, tasks, 0, 0), Collect(w, Activities(extra), t, tasks, 0, 0);
    if c.Ok? {
      if c.value.records == [] {
        SameStop(extra, c.sys, d.sys, Partial, NO_EVIDENCE_REASON, []);
      } else {
        SameRounds(w, extra, c.sys, d.sys, tasks, c.value.records, c.value.unmet, 0);
      }
    }
  }

  lemma SameDrive(w: World, extra: nat -> nat, s: Sys)
    requires GeneratedIds(w) && Fresh(s)
    ensures SameStep(Drive(w, Direct, s), Drive(w, Activities(extra), s))
  {
    assert Earlier(w, s.store.evidence, 0, 0);
    hide Move, CollectAndJudge, WithoutIds, Earlier, GeneratedIds, ResearcherTasks;
    MoveLands(Direct, s, Planning, "");
    SameMove(extra, s, s, Planning, "");
    var s1, t1 := Move(Direct, s, Planning, "").sys, Move(Activities(extra), s, Planning, "").sys;
    if w.plan.Returned? {
      MoveLands(Direct, s1, Researching, "");
      SameMove(extra, s1, t1, Researching, "");
      var s2, t2 := Move(Direct, s1, Researching, "").sys, Move(Activities(extra), t1, Researching, "").sys;
      SameCollectAndJudge(w, extra, s2, t2, ResearcherTasks(w.plan.value, w.taskId));
    }
  }

  /** The error handler asks for PARTIAL and FAILED, and is never already there. */
  lemma SameFail(extra: nat -> nat, s: Sys, t: Sys, error: Error)
    requires Same(s, t) && s.store.job.status in {Planning, Researching, Analyzing, ReviewRequired, JobStatus.Reporting}
    ensures SameStep(Fail(Direct, s, error), Fail(Activities(extra), t, error))
  {
    hide Move, WithoutIds, Describe;
    var reason := Describe(error);
    SameMove(extra, s, t, Partial, reason);
    SameMove(extra, s, t, Failed, reason);
    if Partial !in Allowed(s.store.job.status) {
      MoveRefused(Direct, s, Partial, reason);
      SameMove(extra, Move(Direct, s, Partial, reason).sys, Move(Activities(extra), t, Partial, reason).sys, Failed,
               reason);
    } else {
      MoveLands(Direct, s, Partial, reason);
    }
  }

  /**
   However often each write is delivered before the next step, and whichever evidence and
   findings writes raise in the end, landed or not, the run returns the same outcome, stores
   the same status path, evidence and publication, makes the same port calls and stores the
   same findings up to their generated ids, as when the unguarded service performs each write
   exactly once.
   */
  lemma RedeliveryIsHarmless(w: World, extra: nat -> nat, s: Sys)
    requires GeneratedIds(w) && Fresh(s)
    ensures SameStep(Run(w, Direct, s), Run(w, Activities(extra), s))
  {
    hide Drive, Fail, WithoutIds, GeneratedIds;
    SameDrive(w, extra, s);
    DriveEnds(w, Direct, s);
    var r, q := Drive(w, Direct, s), Drive(w, Activities(extra), s);
    if r.Raise? {
      SameFail(extra, r.sys, q.sys, r.error);
    }
  }
}
