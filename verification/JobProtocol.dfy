/** How every run of a research job ends, whatever the agents, reviewers and stores do. */
module JobProtocol {
  import opened Basics
  import opened JobModel
  import opened Publication
  import opened Orchestration

  // ---------------------------------------------------------------- single writes

  /** A move the table lists lands exactly once, however often it is delivered. */
  lemma MoveLands(port: Port, s: Sys, target: JobStatus, detail: string)
    requires target in Allowed(s.store.job.status)
    ensures Move(port, s, target, detail)
            == Ok((), Sys(s.store.(job := s.store.job.(status := target, detail := Clip(detail)),
                                   path := s.store.path + [target]),
                          s.log + [Moved(target)], s.calls + 1))
  {
    if port.Activities? {
      DeliveredMove(s.store, target, detail, port.extra(s.calls));
    }
  }

  /** A move the table does not list leaves the store as it was, unless it is a move to stay. */
  lemma MoveRefused(port: Port, s: Sys, target: JobStatus, detail: string)
    requires target !in Allowed(s.store.job.status) && target != s.store.job.status
    ensures Move(port, s, target, detail)
            == Raise(InvalidStateTransition,
                     Sys(s.store, s.log + [Refused(s.store.job.status, target)], s.calls + 1))
  {
    if port.Activities? {
      DeliveredMove(s.store, target, detail, port.extra(s.calls));
    }
  }

  lemma {:induction false} DeliveredMove(st: Store, target: JobStatus, detail: string, extra: nat)
    requires target != st.job.status
    ensures DeliverMove(st, target, detail, extra) == ServiceMove(st, target, detail)
  {
    if extra > 0 {
      if target in Allowed(st.job.status) {
        AlreadyThere(ServiceMove(st, target, detail).value, target, detail, extra - 1);
      } else {
        DeliveredMove(st, target, detail, extra - 1);
      }
    }
  }

  lemma {:induction false} AlreadyThere(st: Store, target: JobStatus, detail: string, extra: nat)
    requires target == st.job.status
    ensures DeliverMove(st, target, detail, extra) == Some(st)
  {
    if extra > 0 {
      AlreadyThere(st, target, detail, extra - 1);
    }
  }

  /** Nothing but one record of the command was added to the store, if anything. */
  ghost predicate Added(st: Store, st': Store, command: EvidenceCreate) {
    || st' == st
    || (var n := |st.evidence|;
        && |st'.evidence| == n + 1 && st' == st.(evidence := st.evidence + [st'.evidence[n]])
        && st'.evidence[n].content == command)
  }

  /** The record is the command's: the same text from the same source, found by the same call of the same task. */
  ghost predicate Repeats(e: EvidenceRecord, command: EvidenceCreate) {
    && e.content.contentHash == command.contentHash && e.content.sourceUri == command.sourceUri
    && e.content.invocationId == command.invocationId && e.content.taskId == command.taskId
  }

  /**
   Saving raises exactly when the world says so. Otherwise it answers with a stored record: an
   activity with one stored already that the command repeats, if there is one, and any other
   write with the command itself, added under a new id.
   */
  lemma SaveStores(w: World, port: Port, s: Sys, command: EvidenceCreate, breakage: Option<Breakage>)
    ensures var r := Save(w, port, s, command, breakage);
            && (r.Ok? <==> breakage.None?) && (r.Raise? ==> r.error == breakage.value.error)
            && Added(s.store, r.sys.store, command) && (Orderly(s) ==> Orderly(r.sys))
            && (r.Ok? ==>
                  && r.sys.log == s.log + [Saved(r.value)]
                  && (if port.Activities? && exists e :: e in s.store.evidence && Repeats(e, command)
                      then r.sys.store == s.store && r.value in s.store.evidence && Repeats(r.value, command)
                      else && r.value == EvidenceRecord(w.newId(s.calls, 0, 0), command)
                           && r.sys.store == s.store.(evidence := s.store.evidence + [r.value])))
            && (r.Raise? && !breakage.value.landed ==> r.sys == s.(calls := s.calls + 1))
  {
    if port.Activities? {
      DeliveredAdd(s.store, command, w, s.calls, 0, port.extra(s.calls));
    }
    var r := Save(w, port, s, command, breakage);
    if r.sys.log != s.log {
      QuietEvent(s.log, r.sys.log[|s.log|]);
    }
  }

  lemma {:induction false} DeliveredAdd(st: Store, command: EvidenceCreate, w: World, call: nat, delivery: nat,
                                        extra: nat)
    ensures DeliverAdd(st, command, w, call, delivery, extra)
            == ActivityAdd(st, command, w.newId(call, delivery, 0))
    decreases extra
  {
    if extra > 0 {
      var (st', e) := ActivityAdd(st, command, w.newId(call, delivery, 0));
      DeliveredAdd(st', command, w, call, delivery + 1, extra - 1);
      if Existing(st.evidence, command).None? {
        ExistingAtEnd(st.evidence, e, command);
      }
    }
  }

  lemma {:induction false} ExistingAtEnd(evidence: seq<EvidenceRecord>, e: EvidenceRecord, command: EvidenceCreate)
    requires Existing(evidence, command).None? && e.content == command
    ensures Existing(evidence + [e], command) == Some(e)
  {
    if evidence != [] {
      assert evidence[0] in evidence;
      assert (evidence + [e])[1..] == evidence[1..] + [e];
      ExistingAtEnd(evidence[1..], e, command);
    }
  }

  /** The findings as they were derived, without the ids each write generates for them. */
  function WithoutIds(findings: seq<FindingRecord>): seq<Finding> {
    seq(|findings|, i requires 0 <= i < |findings| => findings[i].finding)
  }

  /** Storing derived findings raises only when the world says so, and when it lands leaves exactly those findings. */
  lemma RecordStores(w: World, port: Port, s: Sys, analysis: Analysis, review: CriticReview, reviewer: ReviewerStatus,
                     round: nat)
    ensures var r := Record(w, port, s, analysis, review, reviewer, round);
            var breakage := w.recordBreaks(round, reviewer);
            && (if breakage.None? then r == Ok((), r.sys) else r == Step<()>.Raise(breakage.value.error, r.sys))
            && r.sys.calls == s.calls + 1 && (Orderly(s) ==> Orderly(r.sys))
            && r.sys.store == s.store.(findings := r.sys.store.findings)
            && (if r.Ok? || breakage.value.landed
                then && r.sys.log == s.log + [Recorded(Derive(analysis, review, reviewer))]
                     && WithoutIds(r.sys.store.findings) == Derive(analysis, review, reviewer)
                else r.sys == s.(calls := s.calls + 1))
  {
    DerivedFindingsAreValid(analysis, review, reviewer);
    if port.Activities? {
      DeliveredFindings(s.store, Derive(analysis, review, reviewer), w, s.calls, 0, port.extra(s.calls));
    }
    QuietEvent(s.log, Recorded(Derive(analysis, review, reviewer)));
  }

  lemma {:induction false} DeliveredFindings(st: Store, findings: seq<Finding>, w: World, call: nat, delivery: nat,
                                             extra: nat)
    ensures DeliverFindings(st, findings, w, call, delivery, extra)
            == ServiceFindings(st, findings, w, call, delivery + extra)
    decreases extra
  {
    if extra > 0 {
      DeliveredFindings(ServiceFindings(st, findings, w, call, delivery), findings, w, call, delivery + 1, extra - 1);
    }
  }

  // ---------------------------------------------------------------- what every step keeps

  ghost predicate Legal(path: seq<JobStatus>) {
    path != [] && path[0] == Created && forall i :: 0 < i < |path| ==> path[i] in Allowed(path[i - 1])
  }

  ghost predicate NothingRefused(log: seq<Event>) {
    forall e :: e in log ==> !e.Refused?
  }

  /** Every review asked for was answered next, and nothing else was ever answered. */
  ghost predicate Paired(log: seq<Event>) {
    && (forall i :: 0 <= i < |log| && log[i].Reviewed? ==> i > 0 && log[i - 1] == Moved(ReviewRequired))
    && (forall i :: 0 <= i < |log| && log[i] == Moved(ReviewRequired) ==> i + 1 < |log| && log[i + 1].Reviewed?)
  }

  ghost predicate Quiet(e: Event) {
    !e.Refused? && !e.Reviewed? && e != Moved(ReviewRequired)
  }

  lemma QuietEvent(log: seq<Event>, e: Event)
    requires Quiet(e)
    ensures Paired(log) ==> Paired(log + [e])
    ensures NothingRefused(log) ==> NothingRefused(log + [e])
  {
    PairsKept(log, e);
    hide Paired;
  }

  lemma PairsKept(log: seq<Event>, e: Event)
    requires !e.Reviewed? && e != Moved(ReviewRequired)
    ensures Paired(log) ==> Paired(log + [e])
  {
    assert forall i :: 0 <= i < |log| ==> (log + [e])[i] == log[i];
  }

  /** The stored path follows the table, ends where the job is, no move was refused and every review was answered. */
  ghost predicate Orderly(s: Sys) {
    && Legal(s.store.path) && s.store.path[|s.store.path| - 1] == s.store.job.status
    && NothingRefused(s.log) && Paired(s.log)
  }

  function Reviews(path: seq<JobStatus>): nat {
    if path == [] then 0
    else Reviews(path[..|path| - 1]) + (if path[|path| - 1] == ReviewRequired then 1 else 0)
  }

  /** A legal move in an orderly run, and everything it changes. */
  lemma LegalMove(port: Port, s: Sys, target: JobStatus, detail: string)
    requires Orderly(s) && target in Allowed(s.store.job.status)
    ensures var r := Move(port, s, target, detail);
            && r.Ok? && Legal(r.sys.store.path) && NothingRefused(r.sys.log)
            && (target != ReviewRequired ==> Orderly(r.sys))
            && r.sys.log == s.log + [Moved(target)]
            && r.sys.store == s.store.(job := r.sys.store.job, path := s.store.path + [target])
            && r.sys.store.job == s.store.job.(status := target, detail := Clip(detail))
            && Reviews(r.sys.store.path) == Reviews(s.store.path) + (if target == ReviewRequired then 1 else 0)
  {
    MoveLands(port, s, target, detail);
    PathExtended(s.store.path, target);
    if target != ReviewRequired {
      QuietEvent(s.log, Moved(target));
    }
  }

  lemma PathExtended(path: seq<JobStatus>, target: JobStatus)
    requires Legal(path) && target in Allowed(path[|path| - 1])
    ensures Legal(path + [target])
    ensures Reviews(path + [target]) == Reviews(path) + if target == ReviewRequired then 1 else 0
  {
    assert (path + [target])[..|path + [target]| - 1] == path;
  }

  // ---------------------------------------------------------------- collecting a round

  /** Record `e` came from what task `i` submitted in a round. */
  ghost predicate From(w: World, e: EvidenceCreate, round: nat, i: nat) {
    w.research(round, i).Returned? && e in w.research(round, i).value.records
  }

  /** Everything stored was submitted by a task of some round. */
  ghost predicate AllFrom(w: World, evidence: seq<EvidenceRecord>) {
    forall e :: e in evidence ==> exists round, i :: From(w, e.content, round, i)
  }

  lemma AddedIsFrom(w: World, st: Store, st': Store, command: EvidenceCreate, round: nat, i: nat)
    requires Added(st, st', command) && From(w, command, round, i) && AllFrom(w, st.evidence)
    ensures AllFrom(w, st'.evidence)
  {
  }

  /** The error of the first of n record writes, from the k-th on, that raises. */
  ghost function FirstBreak(w: World, round: nat, i: nat, k: nat, n: nat): Option<Error>
    decreases n
  {
    if n == 0 then None
    else
      match w.saveBreaks(round, i, k)
      case Some(b) => Some(b.error)
      case None => FirstBreak(w, round, i, k + 1, n - 1)
  }

  /** The error of the first write of the round, from the i-th task on, that raises. */
  ghost function RoundTrouble(w: World, tasks: nat, round: nat, i: nat): Option<Error>
    requires i <= tasks
    decreases tasks - i
  {
    if i == tasks then None
    else
      match w.research(round, i)
      case Raised(_) => RoundTrouble(w, tasks, round, i + 1)
      case Returned(submission) =>
        var first := FirstBreak(w, round, i, 0, |submission.records|);
        if first.Some? then first else RoundTrouble(w, tasks, round, i + 1)
  }

  /**
   The commands were answered, in order, by stored records that are theirs; written straight to
   the service, they are what was added.
   */
  ghost predicate Kept(port: Port, before: seq<EvidenceRecord>, after: seq<EvidenceRecord>,
                       commands: seq<EvidenceCreate>, saved: seq<EvidenceRecord>)
  {
    && before <= after && |saved| == |commands|
    && (forall j :: 0 <= j < |saved| ==> saved[j] in after && Repeats(saved[j], commands[j]))
    && (port.Direct? ==> after == before + saved && forall j :: 0 <= j < |saved| ==> saved[j].content == commands[j])
  }

  lemma KeptBoth(port: Port, a: seq<EvidenceRecord>, b: seq<EvidenceRecord>, c: seq<EvidenceRecord>,
                 first: seq<EvidenceCreate>, saved: seq<EvidenceRecord>, second: seq<EvidenceCreate>,
                 more: seq<EvidenceRecord>)
    requires Kept(port, a, b, first, saved) && Kept(port, b, c, second, more)
    ensures Kept(port, a, c, first + second, saved + more)
  {
    hide Repeats;
    assert forall e :: e in b ==> e in c by {
      assert b == c[..|b|];
    }
  }

  /** Saving one submission: how it ends, and what it may change. */
  ghost predicate SavedAll(w: World, port: Port, s: Sys, commands: seq<EvidenceCreate>, trouble: Option<Error>,
                           r: Step<seq<EvidenceRecord>>)
  {
    && (r.Ok? <==> trouble.None?) && (r.Raise? ==> trouble == Some(r.error))
    && r.sys.store == s.store.(evidence := r.sys.store.evidence)
    && s.store.evidence <= r.sys.store.evidence
    && (r.Ok? ==>
          && Kept(port, s.store.evidence, r.sys.store.evidence, commands, r.value)
          && IdsOf(r.sys.store.evidence) == IdsOf(s.store.evidence) + IdsOf(r.value))
    && (Orderly(s) ==> Orderly(r.sys))
    && (AllFrom(w, s.store.evidence) ==> AllFrom(w, r.sys.store.evidence))
  }

  lemma SavedId(evidence: seq<EvidenceRecord>, evidence': seq<EvidenceRecord>, e: EvidenceRecord)
    requires (evidence' == evidence && e in evidence) || evidence' == evidence + [e]
    ensures IdsOf(evidence') == IdsOf(evidence) + IdsOf([e])
  {
    IdsOfConcat(evidence, [e]);
  }

  /** One landed write: what it changes. */
  ghost predicate SavedOne(w: World, port: Port, s: Sys, command: EvidenceCreate, r: Step<EvidenceRecord>) {
    && r.sys.store == s.store.(evidence := r.sys.store.evidence)
    && s.store.evidence <= r.sys.store.evidence
    && (r.Ok? ==> Kept(port, s.store.evidence, r.sys.store.evidence, [command], [r.value]))
    && (r.Ok? ==> IdsOf(r.sys.store.evidence) == IdsOf(s.store.evidence) + IdsOf([r.value]))
    && (Orderly(s) ==> Orderly(r.sys))
    && (AllFrom(w, s.store.evidence) ==> AllFrom(w, r.sys.store.evidence))
  }

  lemma SaveKeeps(w: World, port: Port, s: Sys, command: EvidenceCreate, breakage: Option<Breakage>, round: nat, i: nat)
    requires From(w, command, round, i)
    ensures var r := Save(w, port, s, command, breakage);
            && SavedOne(w, port, s, command, r)
            && (r.Ok? <==> breakage.None?) && (r.Raise? ==> r.error == breakage.value.error)
  {
    hide Orderly, AllFrom, Save, From, IdsOf;
    var r := Save(w, port, s, command, breakage);
    SaveStores(w, port, s, command, breakage);
    if AllFrom(w, s.store.evidence) {
      AddedIsFrom(w, s.store, r.sys.store, command, round, i);
    }
    if r.Ok? {
      SavedId(s.store.evidence, r.sys.store.evidence, r.value);
    }
  }

  lemma SavedFirst(w: World, port: Port, s: Sys, first: Step<EvidenceRecord>, commands: seq<EvidenceCreate>,
                   trouble: Option<Error>, rest: Step<seq<EvidenceRecord>>, r: Step<seq<EvidenceRecord>>)
    requires commands != [] && first.Ok? && SavedOne(w, port, s, commands[0], first)
    requires SavedAll(w, port, first.sys, commands[1..], trouble, rest)
    requires r == if rest.Raise? then rest else Step<seq<EvidenceRecord>>.Ok([first.value] + rest.value, rest.sys)
    ensures SavedAll(w, port, s, commands, trouble, r)
  {
    hide Orderly, AllFrom, IdsOf, Kept;
    if rest.Ok? {
      KeptBoth(port, s.store.evidence, first.sys.store.evidence, rest.sys.store.evidence,
               [commands[0]], [first.value], commands[1..], rest.value);
      assert [commands[0]] + commands[1..] == commands;
      IdsOfConcat([first.value], rest.value);
    }
  }

  lemma {:induction false} SaveAllKeeps(w: World, port: Port, s: Sys, commands: seq<EvidenceCreate>, round: nat,
                                        i: nat, k: nat)
    requires forall c :: c in commands ==> From(w, c, round, i)
    ensures SavedAll(w, port, s, commands, FirstBreak(w, round, i, k, |commands|),
                     SaveAll(w, port, s, commands, round, i, k))
    decreases |commands|
  {
    if commands == [] {
      return;
    }
    assert commands[0] in commands;
    SaveKeeps(w, port, s, commands[0], w.saveBreaks(round, i, k), round, i);
    hide Orderly, AllFrom, Save, From, IdsOf;
    var first := Save(w, port, s, commands[0], w.saveBreaks(round, i, k));
    if first.Ok? {
      SaveAllKeeps(w, port, first.sys, commands[1..], round, i, k + 1);
      SavedFirst(w, port, s, first, commands, FirstBreak(w, round, i, k + 1, |commands| - 1),
                 SaveAll(w, port, first.sys, commands[1..], round, i, k + 1),
                 SaveAll(w, port, s, commands, round, i, k));
    }
  }

  /** A round: how it ends, and what it may change. */
  ghost predicate CollectedAll(w: World, s: Sys, trouble: Option<Error>, r: Step<Collected>) {
    && (r.Ok? <==> trouble.None?) && (r.Raise? ==> trouble == Some(r.error))
    && s.store.evidence <= r.sys.store.evidence
    && r.sys.store == s.store.(evidence := r.sys.store.evidence)
    && (r.Ok? ==> IdsOf(r.sys.store.evidence) == IdsOf(s.store.evidence) + IdsOf(r.value.records))
    && (Orderly(s) ==> Orderly(r.sys))
    && (AllFrom(w, s.store.evidence) ==> AllFrom(w, r.sys.store.evidence))
  }

  /**
   Collecting a round raises exactly when one of its writes does, with the first one's error;
   it only adds evidence to the store, and when it returns it reports exactly what it added.
   */
  lemma {:induction false} CollectStores(w: World, port: Port, s: Sys, tasks: seq<Task>, round: nat, i: nat)
    requires i <= |tasks|
    ensures CollectedAll(w, s, RoundTrouble(w, |tasks|, round, i), Collect(w, port, s, tasks, round, i))
    decreases |tasks| - i
  {
    hide SaveAll, Orderly, AllFrom, FirstBreak, Kept;
    if i < |tasks| {
      match w.research(round, i)
      case Raised(_) =>
        CollectStores(w, port, s, tasks, round, i + 1);
      case Returned(submission) =>
        SaveAllKeeps(w, port, s, submission.records, round, i, 0);
        var saved := SaveAll(w, port, s, submission.records, round, i, 0);
        if saved.Ok? {
          CollectStores(w, port, saved.sys, tasks, round, i + 1);
          var rest := Collect(w, port, saved.sys, tasks, round, i + 1);
          if rest.Ok? {
            IdsOfConcat(saved.value, rest.value.records);
          }
        }
    }
  }

  /** What the tasks from the i-th on submitted in a round, in the order of the tasks. */
  ghost function Submitted(w: World, tasks: nat, round: nat, i: nat): (r: seq<EvidenceCreate>)
    requires i <= tasks
    ensures forall c :: c in r <==> exists j :: i <= j < tasks && From(w, c, round, j)
    decreases tasks - i
  {
    if i == tasks then []
    else
      var mine := if w.research(round, i).Returned? then w.research(round, i).value.records else [];
      assert forall c :: c in mine <==> From(w, c, round, i);
      mine + Submitted(w, tasks, round, i + 1)
  }

  /** What a task left unmet: what it says, or after a failure all it was asked for. */
  ghost function LeftBy(w: World, task: Task, round: nat, i: nat): seq<string> {
    if w.research(round, i).Returned? then w.research(round, i).value.unmet
    else if task.requirements == [] then [task.objective]
    else task.requirements
  }

  /** What the tasks from the i-th on left unmet in a round, in the order of the tasks. */
  ghost function LeftUnmet(w: World, tasks: seq<Task>, round: nat, i: nat): (r: seq<string>)
    requires i <= |tasks|
    ensures forall u :: u in r <==> exists j :: i <= j < |tasks| && u in LeftBy(w, tasks[j], round, j)
    decreases |tasks| - i
  {
    if i == |tasks| then [] else LeftBy(w, tasks[i], round, i) + LeftUnmet(w, tasks, round, i + 1)
  }

  /**
   A round reports all that was submitted, as it was stored, and all that was left unmet: nothing
   exactly when every task met its all, and it finds something when any returned.
   */
  lemma CollectReports(w: World, port: Port, s: Sys, tasks: seq<Task>, round: nat, i: nat)
    requires i <= |tasks| && Collect(w, port, s, tasks, round, i).Ok?
    ensures var c := Collect(w, port, s, tasks, round, i).value;
            && c.unmet == LeftUnmet(w, tasks, round, i)
            && Kept(port, s.store.evidence, Collect(w, port, s, tasks, round, i).sys.store.evidence,
                    Submitted(w, |tasks|, round, i), c.records)
            && (c.unmet == [] <==> forall j :: i <= j < |tasks| ==> MetInFull(w, round, j))
            && (c.records == [] <==> forall j :: i <= j < |tasks| ==> w.research(round, j).Raised?)
  {
    CollectGives(w, port, s, tasks, round, i);
    NothingLeft(w, tasks, round, i);
    NothingSubmitted(w, |tasks|, round, i);
    hide Collect, LeftUnmet, Submitted, Repeats, MetInFull;
  }

  lemma {:induction false} CollectGives(w: World, port: Port, s: Sys, tasks: seq<Task>, round: nat, i: nat)
    requires i <= |tasks| && Collect(w, port, s, tasks, round, i).Ok?
    ensures var c := Collect(w, port, s, tasks, round, i).value;
            && c.unmet == LeftUnmet(w, tasks, round, i)
            && Kept(port, s.store.evidence, Collect(w, port, s, tasks, round, i).sys.store.evidence,
                    Submitted(w, |tasks|, round, i), c.records)
    decreases |tasks| - i
  {
    hide SaveAll, Orderly, AllFrom, FirstBreak, Repeats;
    if i < |tasks| {
      match w.research(round, i)
      case Raised(_) =>
        CollectGives(w, port, s, tasks, round, i + 1);
        assert [] + Submitted(w, |tasks|, round, i + 1) == Submitted(w, |tasks|, round, i + 1);
      case Returned(submission) =>
        SaveAllKeeps(w, port, s, submission.records, round, i, 0);
        var saved := SaveAll(w, port, s, submission.records, round, i, 0);
        CollectGives(w, port, saved.sys, tasks, round, i + 1);
        var rest := Collect(w, port, saved.sys, tasks, round, i + 1);
        KeptBoth(port, s.store.evidence, saved.sys.store.evidence, rest.sys.store.evidence,
                 submission.records, saved.value, Submitted(w, |tasks|, round, i + 1), rest.value.records);
        hide Kept;
    }
  }

  lemma NothingLeft(w: World, tasks: seq<Task>, round: nat, i: nat)
    requires i <= |tasks|
    ensures LeftUnmet(w, tasks, round, i) == [] <==> forall j :: i <= j < |tasks| ==> MetInFull(w, round, j)
  {
    var left := LeftUnmet(w, tasks, round, i);
    if left != [] {
      assert left[0] in left;
      var j :| i <= j < |tasks| && left[0] in LeftBy(w, tasks[j], round, j);
      assert !MetInFull(w, round, j);
    }
    forall j: nat | i <= j < |tasks| && !MetInFull(w, round, j)
      ensures left != []
    {
      assert LeftBy(w, tasks[j], round, j)[0] in left;
    }
  }

  lemma NothingSubmitted(w: World, tasks: nat, round: nat, i: nat)
    requires i <= tasks
    ensures Submitted(w, tasks, round, i) == [] <==> forall j :: i <= j < tasks ==> w.research(round, j).Raised?
  {
    var submitted := Submitted(w, tasks, round, i);
    if submitted != [] {
      assert submitted[0] in submitted;
      var j :| i <= j < tasks && From(w, submitted[0], round, j);
      assert !w.research(round, j).Raised?;
    }
    forall j: nat | i <= j < tasks && w.research(round, j).Returned?
      ensures submitted != []
    {
      var e := w.research(round, j).value.records[0];
      assert From(w, e, round, j);
      assert e in submitted;
    }
  }

  // ---------------------------------------------------------------- how a world decides a job

  /** Task `i` of the round returned and left nothing unmet. */
  ghost predicate MetInFull(w: World, round: nat, i: nat) {
    w.research(round, i).Returned? && w.research(round, i).value.unmet == []
  }

  ghost predicate AllMet(w: World, tasks: nat, round: nat) {
    forall i: nat :: i < tasks ==> MetInFull(w, round, i)
  }

  ghost predicate Judged(w: World, k: nat) {
    w.analyze(k).Returned? && w.critique(k).Returned?
  }

  ghost predicate RecordWorks(w: World, k: nat, reviewer: ReviewerStatus) {
    w.recordBreaks(k, reviewer).None?
  }

  /** A reviewer looked at round k. */
  ghost predicate ReviewedIn(w: World, k: nat) {
    Judged(w, k) && RequiresReviewer(w.critique(k).value) && RecordWorks(w, k, AwaitingReview)
  }

  ghost predicate SentBack(w: World, k: nat) {
    ReviewedIn(w, k) && w.decide(k) == RequestMoreResearch
  }

  /** Round k went on to a report. */
  ghost predicate Settled(w: World, k: nat) {
    Judged(w, k) &&
    if RequiresReviewer(w.critique(k).value)
    then ReviewedIn(w, k) && w.decide(k) == Approve && RecordWorks(w, k, Approved)
    else RecordWorks(w, k, NotRequired)
  }

  /** Round k was sent back and the research it asked for was stored: there is a round after it. */
  ghost predicate Continues(w: World, tasks: nat, k: nat) {
    SentBack(w, k) && RoundTrouble(w, tasks, k + 1, 0).None?
  }

  /** The first round from `cycle` on with no round after it, or the last one allowed. */
  ghost function DecidingRound(w: World, tasks: nat, cycle: nat): (k: nat)
    requires cycle <= MAX_REVIEW_CYCLES
    ensures cycle <= k <= MAX_REVIEW_CYCLES
    ensures forall j: nat :: cycle <= j < k ==> Continues(w, tasks, j)
    ensures k < MAX_REVIEW_CYCLES ==> !Continues(w, tasks, k)
    decreases MAX_REVIEW_CYCLES - cycle
  {
    if cycle == MAX_REVIEW_CYCLES || !Continues(w, tasks, cycle) then cycle else DecidingRound(w, tasks, cycle + 1)
  }

  ghost function ErrorEnding(error: Error): JobStatus {
    if IsBudget(error) then Partial else Failed
  }

  /** Nothing keeps the report of round k from being complete. */
  ghost predicate Complete(w: World, tasks: nat, k: nat, stored: set<Id>)
    requires w.report.Returned?
  {
    AllMet(w, tasks, k) && w.report.value.omitted == [] && w.report.value.cited <= stored
  }

  /** The status a job ends in once it has got to its report. */
  ghost function ReportEnding(w: World, tasks: nat, k: nat, stored: set<Id>): JobStatus {
    if w.report.Raised? then ErrorEnding(w.report.error)
    else if w.publisher.Breaks? then ErrorEnding(w.publisher.error)
    else if Complete(w, tasks, k, stored) then JobStatus.Completed
    else Partial
  }

  /**
   The status a job ends in when a reviewer looked at round k, which decides it. A findings
   write that raises here leaves the job in REVIEW_REQUIRED, from where it can only fail.
   */
  ghost function ReviewEnding(w: World, tasks: nat, k: nat, stored: set<Id>): JobStatus {
    match w.decide(k)
    case Approve => if RecordWorks(w, k, Approved) then ReportEnding(w, tasks, k, stored) else Failed
    case Reject => Failed
    case RequestMoreResearch =>
      if k < MAX_REVIEW_CYCLES && RoundTrouble(w, tasks, k + 1, 0).Some?
      then ErrorEnding(RoundTrouble(w, tasks, k + 1, 0).value)
      else Partial
  }

  /** The status a job ends in when round k decides it and `stored` are its evidence ids. */
  ghost function Ending(w: World, tasks: nat, k: nat, stored: set<Id>): JobStatus {
    if w.analyze(k).Raised? then ErrorEnding(w.analyze(k).error)
    else if w.critique(k).Raised? then ErrorEnding(w.critique(k).error)
    else
      var first := if RequiresReviewer(w.critique(k).value) then AwaitingReview else NotRequired;
      if !RecordWorks(w, k, first) then ErrorEnding(w.recordBreaks(k, first).value.error)
      else if first == NotRequired then ReportEnding(w, tasks, k, stored)
      else ReviewEnding(w, tasks, k, stored)
  }

  /** The status a step leaves the job with once `_fail` has dealt with what it raised. */
  ghost function FinalStatus(r: Step<RunOutcome>): JobStatus {
    match r
    case Ok(_, s) => s.store.job.status
    case Raise(error, s) => if IsBudget(error) && Partial in Allowed(s.store.job.status) then Partial else Failed
  }

  /** A result worth reporting: an orderly store, and a terminal status that explains itself. */
  ghost predicate EndsWell(r: Step<RunOutcome>) {
    && Orderly(r.sys)
    && (r.Ok? ==>
          && Terminal(r.sys.store.job.status) && r.value.job == r.sys.store.job
          && (r.sys.store.job.status == JobStatus.Completed || r.sys.store.job.detail != ""))
    && (r.Raise? ==> r.sys.store.job.status in {Planning, Researching, Analyzing, ReviewRequired, JobStatus.Reporting})
  }

  /** What getting to the report raises, if anything. */
  ghost function ReportError(w: World): Option<Error> {
    if w.report.Raised? then Some(w.report.error)
    else if w.publisher.Breaks? then Some(w.publisher.error)
    else None
  }

  ghost function RecordError(w: World, k: nat, reviewer: ReviewerStatus): Option<Error> {
    if RecordWorks(w, k, reviewer) then None else Some(w.recordBreaks(k, reviewer).value.error)
  }

  /** What round k raises when it decides the run, if anything. */
  ghost function RoundError(w: World, tasks: nat, k: nat): Option<Error> {
    if w.analyze(k).Raised? then Some(w.analyze(k).error)
    else if w.critique(k).Raised? then Some(w.critique(k).error)
    else
      var first := if RequiresReviewer(w.critique(k).value) then AwaitingReview else NotRequired;
      if !RecordWorks(w, k, first) then RecordError(w, k, first)
      else if first == NotRequired then ReportError(w)
      else
        match w.decide(k)
        case Approve => if RecordWorks(w, k, Approved) then ReportError(w) else RecordError(w, k, Approved)
        case Reject => RecordError(w, k, Rejected)
        case RequestMoreResearch => if k < MAX_REVIEW_CYCLES then RoundTrouble(w, tasks, k + 1, 0) else None
  }

  /** What a run returns, or raises: the report if it got to one, the evidence stored, and no failure. */
  ghost predicate Tells(w: World, error: Option<Error>, reported: bool, r: Step<RunOutcome>) {
    if r.Raise? then error == Some(r.error)
    else
      && error.None? && r.value.failure == "" && IdsOf(r.value.evidence) == IdsOf(r.sys.store.evidence)
      && (if reported then w.report.Returned? && r.value.report == Some(w.report.value) else r.value.report.None?)
  }

  /** Why round k, when it decides the run, ends it without a report. */
  ghost function StopReason(w: World, k: nat): string {
    if w.decide(k) == Reject then "rejected by the reviewer"
    else "the reviewer asked for more research more than 2 times"
  }

  /** The publish step stores its record, whether or not it then raises. */
  ghost predicate StoresPublication(w: World) {
    w.publisher == Publishes || (w.publisher.Breaks? && w.publisher.recorded)
  }

  // ---------------------------------------------------------------- the proofs, inside out

  /** Publishing leaves the job where it was, and records what it says it published. */
  lemma PublishKeeps(w: World, s: Sys, report: ResearchReport, shortfalls: seq<Shortfall>)
    ensures var r := Publish(w, s, report, shortfalls);
            && (r.Ok? <==> !w.publisher.Breaks?)
            && (r.Raise? ==> r.error == w.publisher.error)
            && r.sys.store == s.store.(publication := r.sys.store.publication)
            && (Orderly(s) ==> Orderly(r.sys))
            && (r.Ok? ==> r.value.Some? == (w.publisher == Publishes))
            && (if (r.Ok? && r.value.None?) || (r.Raise? && !w.publisher.recorded) then r.sys == s
                else && r.sys.store.publication
                        == Some(PublicationOf(report, w.reportHash, shortfalls, s.store.evidence))
                     && (r.sys.store.publication.value.isPartial <==> report.isPartial || shortfalls != [])
                     && (r.Ok? ==> r.value == r.sys.store.publication)
                     && r.sys.log == s.log + [Published(r.sys.store.publication.value)])
  {
    var p := PublicationOf(report, w.reportHash, shortfalls, s.store.evidence);
    assert p.isPartial <==> report.isPartial || shortfalls != [];
    QuietEvent(s.log, Published(p));
    hide PublicationOf, Legal, NothingRefused, Paired;
  }

  lemma FinalMove(port: Port, s: Sys, shortfalls: seq<Shortfall>)
    requires Orderly(s) && s.store.job.status == JobStatus.Reporting
    ensures var r := if shortfalls != [] then Move(port, s, Partial, Explain(shortfalls))
                     else Move(port, s, JobStatus.Completed, "");
            && r.Ok? && Orderly(r.sys)
            && r.sys.store == s.store.(job := r.sys.store.job, path := s.store.path + [r.sys.store.job.status])
            && Reviews(r.sys.store.path) == Reviews(s.store.path)
            && r.sys.store.job.status == (if shortfalls != [] then Partial else JobStatus.Completed)
            && (shortfalls != [] ==> r.sys.store.job.detail != "")
            && r.sys.store.job.detail == Clip(Explain(shortfalls))
            && r.sys.log == s.log + [Moved(r.sys.store.job.status)]
  {
    ExplanationSaysSomething(shortfalls);
    if shortfalls != [] {
      LegalMove(port, s, Partial, Explain(shortfalls));
    } else {
      LegalMove(port, s, JobStatus.Completed, "");
    }
  }

  lemma ConcludeEnds(w: World, port: Port, s: Sys, report: ResearchReport, evidence: seq<EvidenceRecord>,
                     shortfalls: seq<Shortfall>)
    requires Orderly(s) && s.store.job.status == JobStatus.Reporting
    ensures var r := Conclude(w, port, s, report, evidence, shortfalls);
            && EndsWell(r)
            && r.sys.store.evidence == s.store.evidence && r.sys.store.findings == s.store.findings
            && s.store.path <= r.sys.store.path && Reviews(r.sys.store.path) == Reviews(s.store.path)
            && FinalStatus(r) == (if w.publisher.Breaks? then ErrorEnding(w.publisher.error)
                                  else if shortfalls == [] then JobStatus.Completed else Partial)
            && (StoresPublication(w) ==>
                  && r.sys.store.publication
                     == Some(PublicationOf(report, w.reportHash, shortfalls, r.sys.store.evidence))
                  && (r.sys.store.publication.value.isPartial <==> report.isPartial || shortfalls != []))
            && (if r.Raise? then w.publisher.Breaks? && r.error == w.publisher.error
                else && !w.publisher.Breaks? && r.value.failure == ""
                     && r.sys.store.job.detail == Clip(Explain(shortfalls))
                     && r.value.evidence == evidence && r.value.report == Some(report))
  {
    hide Publish, Move, Explain, Reviews, Legal, NothingRefused, PublicationOf, Clip;
    PublishKeeps(w, s, report, shortfalls);
    var published := Publish(w, s, report, shortfalls);
    if published.Ok? {
      FinalMove(port, published.sys, shortfalls);
    }
  }

  lemma FinishEnds(w: World, port: Port, s: Sys, evidence: seq<EvidenceRecord>, unmet: seq<string>)
    requires Orderly(s) && s.store.job.status in {Analyzing, ReviewRequired}
    requires IdsOf(evidence) == IdsOf(s.store.evidence)
    ensures var r := Finish(w, port, s, evidence, unmet);
            var store := r.sys.store;
            && EndsWell(r)
            && store.evidence == s.store.evidence && store.findings == s.store.findings
            && JobStatus.Reporting in store.path && Reviews(store.path) == Reviews(s.store.path)
            && Tells(w, ReportError(w), true, r)
            && FinalStatus(r) == (
                if w.report.Raised? then ErrorEnding(w.report.error)
                else if w.publisher.Breaks? then ErrorEnding(w.publisher.error)
                else if unmet == [] && w.report.value.omitted == [] && w.report.value.cited <= IdsOf(store.evidence)
                then JobStatus.Completed else Partial)
            && (w.report.Returned? ==>
                  var shortfalls := Shortfalls(unmet, w.report.value, IdsOf(store.evidence));
                  && (r.Ok? ==> store.job.detail == Clip(Explain(shortfalls)))
                  && (StoresPublication(w) ==>
                        && store.publication
                           == Some(PublicationOf(w.report.value, w.reportHash, shortfalls, store.evidence))
                        && (store.publication.value.isPartial <==>
                              !(unmet == [] && w.report.value.omitted == []
                                  && w.report.value.cited <= IdsOf(store.evidence)))))
  {
    hide Move, Conclude, Shortfalls, Reviews, Legal, NothingRefused, IdsOf, Clip, PublicationOf, Explain;
    LegalMove(port, s, JobStatus.Reporting, "");
    var s1 := Move(port, s, JobStatus.Reporting, "").sys;
    assert s1.store.path[|s.store.path|] == JobStatus.Reporting;
    if w.report.Returned? {
      var shortfalls := Shortfalls(unmet, w.report.value, IdsOf(evidence));
      NothingMissing(unmet, w.report.value, IdsOf(evidence));
      ConcludeEnds(w, port, s1, w.report.value, evidence, shortfalls);
    }
  }

  /** What the rounds from `cycle` on, decided by round k, leave behind. */
  ghost predicate DecidedBy(w: World, s: Sys, tasks: seq<Task>, cycle: nat, k: nat, r: Step<RunOutcome>) {
    var store := r.sys.store;
    && EndsWell(r)
    && FinalStatus(r) == Ending(w, |tasks|, k, IdsOf(store.evidence))
    && s.store.evidence <= store.evidence && Gathered(w, |tasks|, cycle, k, store.evidence)
    && Reviews(store.path) == Reviews(s.store.path) + k - cycle + (if ReviewedIn(w, k) then 1 else 0)
    && (JobStatus.Reporting in store.path <==> Settled(w, k))
    && (Settled(w, k) ==> SettledBy(w, tasks, k, store))
    && (AllFrom(w, s.store.evidence) ==> AllFrom(w, store.evidence))
    && Tells(w, RoundError(w, |tasks|, k), Settled(w, k), r)
    && (r.Ok? ==> store.job.detail == if Settled(w, k) then Missing(w, tasks, k, store) else StopReason(w, k))
  }

  /** What a round that went on to its report leaves stored. */
  ghost predicate SettledBy(w: World, tasks: seq<Task>, k: nat, store: Store)
    requires Settled(w, k)
  {
    && WithoutIds(store.findings) == Derive(w.analyze(k).value, w.critique(k).value, ReviewOutcome(w, k))
    && (w.report.Returned? && StoresPublication(w) ==>
          && store.publication == Some(PublicationOf(w.report.value, w.reportHash, Lacks(w, tasks, k, store),
                                                     store.evidence))
          && (store.publication.value.isPartial <==> !Complete(w, |tasks|, k, IdsOf(store.evidence))))
  }

  /** Everything the report of round k falls short by. */
  ghost function Lacks(w: World, tasks: seq<Task>, k: nat, store: Store): seq<Shortfall>
    requires w.report.Returned?
  {
    Shortfalls(LeftUnmet(w, tasks, k, 0), w.report.value, IdsOf(store.evidence))
  }

  /** How the job explains that. */
  ghost function Missing(w: World, tasks: seq<Task>, k: nat, store: Store): string {
    if w.report.Raised? then "" else Clip(Explain(Lacks(w, tasks, k, store)))
  }

  /** Everything the tasks submitted in a round is stored. */
  ghost predicate AllStored(w: World, tasks: nat, round: nat, evidence: seq<EvidenceRecord>) {
    forall c :: c in Submitted(w, tasks, round, 0) ==> exists e :: e in evidence && Repeats(e, c)
  }

  /** Everything submitted from round `cycle` to round k is stored. */
  ghost predicate Gathered(w: World, tasks: nat, cycle: nat, k: nat, evidence: seq<EvidenceRecord>) {
    forall j :: cycle <= j <= k ==> AllStored(w, tasks, j, evidence)
  }

  lemma KeptIsStored(w: World, port: Port, tasks: nat, round: nat, before: seq<EvidenceRecord>,
                     after: seq<EvidenceRecord>, saved: seq<EvidenceRecord>)
    requires Kept(port, before, after, Submitted(w, tasks, round, 0), saved)
    ensures AllStored(w, tasks, round, after)
  {
    hide Submitted, Repeats;
    forall c | c in Submitted(w, tasks, round, 0)
      ensures exists e :: e in after && Repeats(e, c)
    {
      var i :| 0 <= i < |saved| && Submitted(w, tasks, round, 0)[i] == c;
      assert saved[i] in after && Repeats(saved[i], c);
    }
  }

  /** What a round found stays stored. */
  lemma StaysGathered(w: World, tasks: nat, cycle: nat, k: nat, before: seq<EvidenceRecord>, after: seq<EvidenceRecord>)
    requires AllStored(w, tasks, cycle, before) && before <= after
    requires k == cycle || Gathered(w, tasks, cycle + 1, k, after)
    ensures Gathered(w, tasks, cycle, k, after)
  {
    hide Submitted, Repeats;
    assert forall e :: e in before ==> e in after by {
      assert before == after[..|before|];
    }
  }

  /** The reviewer status the findings of a settled round are stored with. */
  ghost function ReviewOutcome(w: World, k: nat): ReviewerStatus {
    if ReviewedIn(w, k) then Approved else NotRequired
  }

  /** A round that goes straight to its report. */
  lemma SettledRound(w: World, port: Port, s: Sys, tasks: seq<Task>, evidence: seq<EvidenceRecord>,
                     unmet: seq<string>, k: nat)
    requires Settled(w, k)
    requires Orderly(s) && s.store.job.status in {Analyzing, ReviewRequired}
    requires IdsOf(evidence) == IdsOf(s.store.evidence)
    requires unmet == LeftUnmet(w, tasks, k, 0) && (unmet == [] <==> AllMet(w, |tasks|, k))
    ensures var recorded := Record(w, port, s, w.analyze(k).value, w.critique(k).value, ReviewOutcome(w, k), k);
            var r := Finish(w, port, recorded.sys, evidence, unmet);
            && recorded.Ok? && EndsWell(r)
            && JobStatus.Reporting in r.sys.store.path && Reviews(r.sys.store.path) == Reviews(s.store.path)
            && FinalStatus(r) == ReportEnding(w, |tasks|, k, IdsOf(r.sys.store.evidence))
            && (r.Ok? ==> r.sys.store.job.detail == Missing(w, tasks, k, r.sys.store))
            && SettledBy(w, tasks, k, r.sys.store) && r.sys.store.evidence == s.store.evidence
            && Tells(w, ReportError(w), true, r)
  {
    hide Record, Finish, Orderly, EndsWell, Derive, WithoutIds, IdsOf, FinalStatus, PublicationOf, LeftUnmet;
    RecordStores(w, port, s, w.analyze(k).value, w.critique(k).value, ReviewOutcome(w, k), k);
    var recorded := Record(w, port, s, w.analyze(k).value, w.critique(k).value, ReviewOutcome(w, k), k);
    FinishEnds(w, port, recorded.sys, evidence, unmet);
  }

  /** A findings write that raises leaves the job where it is, orderly and not finished. */
  lemma RecordBroke(w: World, port: Port, s: Sys, k: nat, reviewer: ReviewerStatus)
    requires Judged(w, k) && !RecordWorks(w, k, reviewer)
    requires Orderly(s) && s.store.job.status in {Analyzing, ReviewRequired} && JobStatus.Reporting !in s.store.path
    ensures var recorded := Record(w, port, s, w.analyze(k).value, w.critique(k).value, reviewer, k);
            && recorded.Raise?
            && var r := Step<RunOutcome>.Raise(recorded.error, recorded.sys);
               && EndsWell(r) && recorded.error == w.recordBreaks(k, reviewer).value.error
               && FinalStatus(r) == (if s.store.job.status == Analyzing then ErrorEnding(recorded.error) else Failed)
               && r.sys.store.path == s.store.path && r.sys.store.evidence == s.store.evidence
  {
    hide Record, Derive, WithoutIds, Legal, NothingRefused, Paired;
    RecordStores(w, port, s, w.analyze(k).value, w.critique(k).value, reviewer, k);
  }

  /** The state in which a reviewer is asked about round k. */
  lemma OpensReview(w: World, port: Port, s: Sys, k: nat) returns (s': Sys)
    requires ReviewedIn(w, k) && Orderly(s) && s.store.job.status == Analyzing
    requires JobStatus.Reporting !in s.store.path
    ensures var recorded := Record(w, port, s, w.analyze(k).value, w.critique(k).value, AwaitingReview, k);
            recorded.Ok? && Move(port, recorded.sys, ReviewRequired, "").Ok?
            && s' == (var asked := Move(port, recorded.sys, ReviewRequired, "").sys;
                      asked.(log := asked.log + [Reviewed(w.decide(k))]))
    ensures Orderly(s') && s'.store.job.status == ReviewRequired && JobStatus.Reporting !in s'.store.path
    ensures s'.store.evidence == s.store.evidence && Reviews(s'.store.path) == Reviews(s.store.path) + 1
    ensures s'.store.publication == s.store.publication
  {
    hide Record, Derive, WithoutIds;
    RecordStores(w, port, s, w.analyze(k).value, w.critique(k).value, AwaitingReview, k);
    var recorded := Record(w, port, s, w.analyze(k).value, w.critique(k).value, AwaitingReview, k).sys;
    LegalMove(port, recorded, ReviewRequired, "");
    var asked := Move(port, recorded, ReviewRequired, "").sys;
    hide Move;
    s' := asked.(log := asked.log + [Reviewed(w.decide(k))]);
    AskedAndAnswered(recorded.log, w.decide(k));
    assert s'.log == recorded.log + [Moved(ReviewRequired)] + [Reviewed(w.decide(k))];
  }

  lemma AskedAndAnswered(log: seq<Event>, decision: ReviewerDecision)
    requires Paired(log) && NothingRefused(log)
    ensures var l := log + [Moved(ReviewRequired)] + [Reviewed(decision)]; Paired(l) && NothingRefused(l)
  {
  }

  /** `Stop` ends the job where it says, with its reason. */
  lemma StopEnds(port: Port, s: Sys, target: JobStatus, reason: string, evidence: seq<EvidenceRecord>)
    requires Orderly(s) && target in Allowed(s.store.job.status) && Terminal(target) && reason != ""
    ensures var r := Stop(port, s, target, reason, evidence);
            && EndsWell(r) && r.Ok? && r.sys.store.job.status == target
            && r.sys.store == s.store.(job := r.sys.store.job, path := s.store.path + [target])
            && Reviews(r.sys.store.path) == Reviews(s.store.path)
            && r.sys.store.job.detail == Clip(reason)
            && r.value.report.None? && r.value.failure == "" && r.value.evidence == evidence
  {
    hide Move, Legal, Reviews, Paired, NothingRefused;
    LegalMove(port, s, target, reason);
  }

  lemma {:induction false} RoundsEnd(w: World, port: Port, s: Sys, tasks: seq<Task>, evidence: seq<EvidenceRecord>,
                                     unmet: seq<string>, cycle: nat)
    requires cycle <= MAX_REVIEW_CYCLES
    requires Orderly(s) && s.store.job.status == Researching && JobStatus.Reporting !in s.store.path
    requires IdsOf(evidence) == IdsOf(s.store.evidence) && AllStored(w, |tasks|, cycle, s.store.evidence)
    requires unmet == LeftUnmet(w, tasks, cycle, 0) && (unmet == [] <==> AllMet(w, |tasks|, cycle))
    ensures DecidedBy(w, s, tasks, cycle, DecidingRound(w, |tasks|, cycle),
                      Rounds(w, port, s, tasks, evidence, unmet, cycle))
    decreases MAX_REVIEW_CYCLES - cycle, 2
  {
    hide Move, Record, Finish, AfterReview, Legal, Reviews, IdsOf, NothingRefused, Paired, Clip, SettledBy, AllFrom;
    hide Gathered, AllStored, LeftUnmet, Missing, AllMet;
    LegalMove(port, s, Analyzing, "");
    var s1 := Move(port, s, Analyzing, "").sys;
    var ended := Rounds(w, port, s, tasks, evidence, unmet, cycle);
    if Judged(w, cycle) {
      var first := if RequiresReviewer(w.critique(cycle).value) then AwaitingReview else NotRequired;
      if !RecordWorks(w, cycle, first) {
        RecordBroke(w, port, s1, cycle, first);
      } else if first == AwaitingReview {
        var s2 := OpensReview(w, port, s1, cycle);
        AfterReviewEnds(w, port, s2, tasks, evidence, unmet, cycle);
      } else {
        SettledRound(w, port, s1, tasks, evidence, unmet, cycle);
      }
    }
    StaysGathered(w, |tasks|, cycle, DecidingRound(w, |tasks|, cycle), s.store.evidence, ended.sys.store.evidence);
  }

  lemma {:induction false} AfterReviewEnds(w: World, port: Port, s: Sys, tasks: seq<Task>,
                                           evidence: seq<EvidenceRecord>,
                                           unmet: seq<string>, cycle: nat)
    requires cycle <= MAX_REVIEW_CYCLES && ReviewedIn(w, cycle)
    requires Orderly(s) && s.store.job.status == ReviewRequired && JobStatus.Reporting !in s.store.path
    requires IdsOf(evidence) == IdsOf(s.store.evidence) && Reviews(s.store.path) > 0
    requires unmet == LeftUnmet(w, tasks, cycle, 0) && (unmet == [] <==> AllMet(w, |tasks|, cycle))
    ensures var r := AfterReview(w, port, s, tasks, evidence, unmet, cycle, w.analyze(cycle).value,
                                 w.critique(cycle).value);
            DecidedBy(w, s, tasks, cycle + 1, DecidingRound(w, |tasks|, cycle), r)
    decreases MAX_REVIEW_CYCLES - cycle, 1
  {
    hide Move, Record, Finish, Collect, Stop, Rounds, Legal, Reviews, IdsOf, NothingRefused, Paired, SettledBy, AllFrom;
    match w.decide(cycle)
    case Approve =>
      if RecordWorks(w, cycle, Approved) {
        SettledRound(w, port, s, tasks, evidence, unmet, cycle);
      } else {
        RecordBroke(w, port, s, cycle, Approved);
      }
    case Reject =>
      RejectedEnds(w, port, s, tasks, evidence, unmet, cycle);
    case RequestMoreResearch =>
      SentBackEnds(w, port, s, tasks, evidence, unmet, cycle);
  }

  lemma RejectedEnds(w: World, port: Port, s: Sys, tasks: seq<Task>, evidence: seq<EvidenceRecord>,
                     unmet: seq<string>, cycle: nat)
    requires cycle <= MAX_REVIEW_CYCLES && ReviewedIn(w, cycle) && w.decide(cycle) == Reject
    requires Orderly(s) && s.store.job.status == ReviewRequired && JobStatus.Reporting !in s.store.path
    requires IdsOf(evidence) == IdsOf(s.store.evidence) && Reviews(s.store.path) > 0
    ensures var r := AfterReview(w, port, s, tasks, evidence, unmet, cycle, w.analyze(cycle).value,
                                 w.critique(cycle).value);
            DecidedBy(w, s, tasks, cycle + 1, DecidingRound(w, |tasks|, cycle), r)
  {
    hide Move, Record, Stop, Derive, WithoutIds, Legal, Reviews, IdsOf, NothingRefused, Paired, AllFrom;
    if RecordWorks(w, cycle, Rejected) {
      RecordStores(w, port, s, w.analyze(cycle).value, w.critique(cycle).value, Rejected, cycle);
      var s1 := Record(w, port, s, w.analyze(cycle).value, w.critique(cycle).value, Rejected, cycle).sys;
      StopEnds(port, s1, Failed, REJECTED_REASON, evidence);
    } else {
      RecordBroke(w, port, s, cycle, Rejected);
    }
  }

  lemma {:induction false} SentBackEnds(w: World, port: Port, s: Sys, tasks: seq<Task>, evidence: seq<EvidenceRecord>,
                                        unmet: seq<string>, cycle: nat)
    requires cycle <= MAX_REVIEW_CYCLES && SentBack(w, cycle)
    requires Orderly(s) && s.store.job.status == ReviewRequired && JobStatus.Reporting !in s.store.path
    requires IdsOf(evidence) == IdsOf(s.store.evidence) && Reviews(s.store.path) > 0
    ensures var r := AfterReview(w, port, s, tasks, evidence, unmet, cycle, w.analyze(cycle).value,
                                 w.critique(cycle).value);
            DecidedBy(w, s, tasks, cycle + 1, DecidingRound(w, |tasks|, cycle), r)
    decreases MAX_REVIEW_CYCLES - cycle, 0
  {
    hide Move, Collect, Stop, Rounds, Reviews, IdsOf, Orderly, AllFrom, DecidedBy, Clip;
    hide Kept, AllStored, LeftUnmet, RoundTrouble, MetInFull;
    LegalMove(port, s, Researching, "");
    var s1 := Move(port, s, Researching, "").sys;
    if cycle + 1 > MAX_REVIEW_CYCLES {
      StopEnds(port, s1, Partial, TOO_MANY_REVIEWS_REASON, evidence);
      EndsInCycle(w, s, tasks, cycle, Stop(port, s1, Partial, TOO_MANY_REVIEWS_REASON, evidence));
    } else {
      CollectStores(w, port, s1, tasks, cycle + 1, 0);
      var more := Collect(w, port, s1, tasks, cycle + 1, 0);
      if more.Ok? {
        CollectReports(w, port, s1, tasks, cycle + 1, 0);
        KeptIsStored(w, port, |tasks|, cycle + 1, s1.store.evidence, more.sys.store.evidence, more.value.records);
        IdsOfConcat(evidence, more.value.records);
        RoundsEnd(w, port, more.sys, tasks, evidence + more.value.records, more.value.unmet, cycle + 1);
        SameStart(w, more.sys, s, tasks, cycle + 1, DecidingRound(w, |tasks|, cycle),
                  Rounds(w, port, more.sys, tasks, evidence + more.value.records, more.value.unmet, cycle + 1));
      } else {
        EndsInCycle(w, s, tasks, cycle, Step<RunOutcome>.Raise(more.error, more.sys));
      }
    }
  }

  /** A round that was sent back and is the last: the run ends here, partial or with the error of a write. */
  lemma EndsInCycle(w: World, s: Sys, tasks: seq<Task>, cycle: nat, r: Step<RunOutcome>)
    requires cycle <= MAX_REVIEW_CYCLES && SentBack(w, cycle) && EndsWell(r)
    requires JobStatus.Reporting !in r.sys.store.path && Reviews(r.sys.store.path) == Reviews(s.store.path)
    requires AllFrom(w, s.store.evidence) ==> AllFrom(w, r.sys.store.evidence)
    requires s.store.evidence <= r.sys.store.evidence
    requires if cycle == MAX_REVIEW_CYCLES then
               && FinalStatus(r) == Partial && r.Ok? && Tells(w, None, false, r)
               && r.sys.store.job.detail == StopReason(w, cycle)
             else var trouble := RoundTrouble(w, |tasks|, cycle + 1, 0);
                  && trouble.Some? && FinalStatus(r) == ErrorEnding(trouble.value)
                  && r == Step<RunOutcome>.Raise(trouble.value, r.sys)
    ensures DecidedBy(w, s, tasks, cycle + 1, DecidingRound(w, |tasks|, cycle), r)
  {
    hide Reviews, IdsOf, EndsWell, AllFrom, FinalStatus, RoundTrouble, AllStored, Missing, SettledBy, Settled;
    hide Ending, RoundError, DecidingRound, SentBack, ReviewedIn, StopReason, ErrorEnding;
    SentBackLast(w, |tasks|, cycle, IdsOf(r.sys.store.evidence));
  }

  lemma SentBackLast(w: World, tasks: nat, cycle: nat, stored: set<Id>)
    requires cycle <= MAX_REVIEW_CYCLES && SentBack(w, cycle)
    requires cycle == MAX_REVIEW_CYCLES || RoundTrouble(w, tasks, cycle + 1, 0).Some?
    ensures DecidingRound(w, tasks, cycle) == cycle && ReviewedIn(w, cycle) && !Settled(w, cycle)
    ensures if cycle == MAX_REVIEW_CYCLES
            then Ending(w, tasks, cycle, stored) == Partial && RoundError(w, tasks, cycle).None?
            else && Ending(w, tasks, cycle, stored) == ErrorEnding(RoundTrouble(w, tasks, cycle + 1, 0).value)
                 && RoundError(w, tasks, cycle) == RoundTrouble(w, tasks, cycle + 1, 0)
  {
  }

  /** The evidence a plan's first collection round can find. */
  ghost predicate FindsSomething(w: World, tasks: nat) {
    exists i: nat :: i < tasks && w.research(0, i).Returned?
  }

  /**
   The status a job must end in, as a function of what the agents, the reviewer, the evidence
   and findings writes and the publisher did. After the first collection, only round
   `DecidingRound` of the review loop matters.
   */
  ghost function ExpectedStatus(w: World, stored: set<Id>): JobStatus {
    if w.plan.Raised? then Failed
    else
      var tasks := |ResearcherTasks(w.plan.value, w.taskId)|;
      if RoundTrouble(w, tasks, 0, 0).Some? then ErrorEnding(RoundTrouble(w, tasks, 0, 0).value)
      else if !FindsSomething(w, tasks) then Partial
      else Ending(w, tasks, DecidingRound(w, tasks, 0), stored)
  }

  /** The researcher tasks of the plan, if there is one. */
  ghost function Tasks(w: World): seq<Task> {
    if w.plan.Raised? then [] else ResearcherTasks(w.plan.value, w.taskId)
  }

  ghost function TaskCount(w: World): nat {
    |Tasks(w)|
  }

  /** The round that decides the run. */
  ghost function Decisive(w: World): nat {
    DecidingRound(w, TaskCount(w), 0)
  }

  /** The plan returned, research was stored and found something, and a round settled: the run got to its report. */
  ghost predicate GetsToReport(w: World) {
    && w.plan.Returned?
    && RoundTrouble(w, TaskCount(w), 0, 0).None?
    && FindsSomething(w, TaskCount(w))
    && Settled(w, Decisive(w))
  }

  lemma CollectAndJudgeEnds(w: World, port: Port, s: Sys, tasks: seq<Task>)
    requires Orderly(s) && s.store.job.status == Researching && JobStatus.Reporting !in s.store.path
    requires IdsOf(s.store.evidence) == {} && Reviews(s.store.path) == 0
    ensures var r := CollectAndJudge(w, port, s, tasks);
            var trouble := RoundTrouble(w, |tasks|, 0, 0);
            if trouble.None? && FindsSomething(w, |tasks|)
            then DecidedBy(w, s, tasks, 0, DecidingRound(w, |tasks|, 0), r)
            else EndsWell(r) && Tells(w, trouble, false, r)
                 && (r.Ok? ==> r.sys.store.job.detail == "no evidence could be collected")
                 && FinalStatus(r) == (if trouble.Some? then ErrorEnding(trouble.value) else Partial)
                 && Reviews(r.sys.store.path) == 0 && JobStatus.Reporting !in r.sys.store.path
                 && (AllFrom(w, s.store.evidence) ==> AllFrom(w, r.sys.store.evidence))
  {
    hide Move, Collect, Stop, Rounds, Reviews, Legal, NothingRefused, Paired, IdsOf, DecidedBy, AllFrom, RoundTrouble;
    CollectStores(w, port, s, tasks, 0, 0);
    var collected := Collect(w, port, s, tasks, 0, 0);
    if collected.Ok? {
      CollectReports(w, port, s, tasks, 0, 0);
      var first, s1 := collected.value, collected.sys;
      assert first.records == [] <==> !FindsSomething(w, |tasks|);
      KeptIsStored(w, port, |tasks|, 0, s.store.evidence, s1.store.evidence, first.records);
      if first.records == [] {
        StopEnds(port, s1, Partial, NO_EVIDENCE_REASON, []);
      } else {
        RoundsEnd(w, port, s1, tasks, first.records, first.unmet, 0);
        SameStart(w, s1, s, tasks, 0, DecidingRound(w, |tasks|, 0),
                  Rounds(w, port, s1, tasks, first.records, first.unmet, 0));
      }
    }
  }

  lemma SameStart(w: World, s: Sys, s': Sys, tasks: seq<Task>, cycle: nat, k: nat, r: Step<RunOutcome>)
    requires DecidedBy(w, s, tasks, cycle, k, r) && Reviews(s.store.path) == Reviews(s'.store.path)
    requires AllFrom(w, s'.store.evidence) ==> AllFrom(w, s.store.evidence)
    requires s'.store.evidence <= s.store.evidence
    ensures DecidedBy(w, s', tasks, cycle, k, r)
  {
    hide SettledBy, AllFrom, EndsWell, Ending, FinalStatus, AllStored;
  }

  /** The plan returned, and its first collection round was stored and found something. */
  ghost predicate GetsGoing(w: World) {
    && w.plan.Returned?
    && RoundTrouble(w, TaskCount(w), 0, 0).None?
    && FindsSomething(w, TaskCount(w))
  }

  /** What the run raises, if anything. */
  ghost function RunError(w: World): Option<Error> {
    if w.plan.Raised? then Some(w.plan.error)
    else if RoundTrouble(w, TaskCount(w), 0, 0).Some? then RoundTrouble(w, TaskCount(w), 0, 0)
    else if !FindsSomething(w, TaskCount(w)) then None
    else RoundError(w, TaskCount(w), Decisive(w))
  }

  /** Where a run stands when its pipeline has returned or raised. */
  ghost predicate Drove(w: World, r: Step<RunOutcome>) {
    var store := r.sys.store;
    && EndsWell(r)
    && FinalStatus(r) == ExpectedStatus(w, IdsOf(store.evidence))
    && Reviews(store.path) == (if !GetsGoing(w) then 0
                               else Decisive(w) + if ReviewedIn(w, Decisive(w)) then 1 else 0)
    && Tells(w, RunError(w), GetsToReport(w), r)
    && (r.Ok? ==> store.job.detail == if GetsToReport(w) then Missing(w, Tasks(w), Decisive(w), store)
                                      else if GetsGoing(w) then StopReason(w, Decisive(w))
                                      else "no evidence could be collected")
    && (GetsGoing(w) ==> Gathered(w, TaskCount(w), 0, Decisive(w), store.evidence))
    && (JobStatus.Reporting in store.path <==> GetsToReport(w))
    && (GetsToReport(w) ==> SettledBy(w, Tasks(w), Decisive(w), store))
    && AllFrom(w, store.evidence)
  }

  lemma DriveEnds(w: World, port: Port, s: Sys)
    requires Fresh(s)
    ensures Drove(w, Drive(w, port, s))
  {
    assert AllFrom(w, s.store.evidence) && IdsOf(s.store.evidence) == {};
    hide Drove, AllFrom, Orderly, Reviews, IdsOf, Move, CollectAndJudge, ResearcherTasks;
    StartsPlanning(port, s);
    var s1 := Move(port, s, Planning, "").sys;
    if w.plan.Returned? {
      StartsResearching(port, s1);
      PlannedEnds(w, port, Move(port, s1, Researching, "").sys);
    } else {
      UnplannedEnds(w, s1);
    }
  }

  /** Without a plan the run fails where it is, planning. */
  lemma UnplannedEnds(w: World, s: Sys)
    requires w.plan.Raised? && Orderly(s) && s.store.job.status == Planning
    requires Reviews(s.store.path) == 0 && JobStatus.Reporting !in s.store.path && AllFrom(w, s.store.evidence)
    ensures Drove(w, Raise(w.plan.error, s))
  {
    hide SettledBy, Settled, DecidingRound, RoundTrouble, AllFrom, Orderly, Reviews, IdsOf, IsBudget;
  }

  lemma PlannedEnds(w: World, port: Port, s: Sys)
    requires w.plan.Returned? && Orderly(s) && s.store.job.status == Researching
    requires Reviews(s.store.path) == 0 && JobStatus.Reporting !in s.store.path
    requires IdsOf(s.store.evidence) == {} && AllFrom(w, s.store.evidence)
    ensures Drove(w, CollectAndJudge(w, port, s, ResearcherTasks(w.plan.value, w.taskId)))
  {
    hide SettledBy, ResearcherTasks, Ending, Settled, RoundTrouble, AllFrom, Orderly, Reviews, IdsOf, CollectAndJudge;
    hide EndsWell, FinalStatus, ErrorEnding;
    CollectAndJudgeEnds(w, port, s, ResearcherTasks(w.plan.value, w.taskId));
  }

  lemma StartsPlanning(port: Port, s: Sys)
    requires Fresh(s)
    ensures var r := Move(port, s, Planning, "");
            && r.Ok? && Orderly(r.sys) && r.sys.store.job.status == Planning
            && Reviews(r.sys.store.path) == 0 && JobStatus.Reporting !in r.sys.store.path
            && r.sys.store == s.store.(job := r.sys.store.job, path := r.sys.store.path)
  {
    assert s.store.path == [Created] && [Created][..0] == [];
    LegalMove(port, s, Planning, "");
    hide Move;
  }

  lemma StartsResearching(port: Port, s: Sys)
    requires Orderly(s) && s.store.job.status == Planning
    requires Reviews(s.store.path) == 0 && JobStatus.Reporting !in s.store.path
    ensures var r := Move(port, s, Researching, "");
            && r.Ok? && Orderly(r.sys) && r.sys.store.job.status == Researching
            && Reviews(r.sys.store.path) == 0 && JobStatus.Reporting !in r.sys.store.path
            && r.sys.store == s.store.(job := r.sys.store.job, path := r.sys.store.path)
  {
    LegalMove(port, s, Researching, "");
    hide Move, Orderly, Reviews;
  }

  /**
   From every status that is not terminal, `_fail` finds a legal terminal one for what raised.
   It is refused at most once: PARTIAL, for a spent budget, where the table does not allow it.
   */
  lemma FailEnds(port: Port, s: Sys, error: Error)
    requires Orderly(s) && !Terminal(s.store.job.status)
    ensures var r := Fail(port, s, error);
            var status := FinalStatus(Step<RunOutcome>.Raise(error, s));
            && r.Ok?
            && r.value == RunOutcome(r.sys.store.job, None, [], error.name + ": " + error.message, None)
            && (error.name == "BudgetExhausted" && Partial in Allowed(s.store.job.status) ==> status == Partial)
            && (!("BudgetExhausted" <= error.name + ": " + error.message) ==> status == Failed)
            && r.sys.store == s.store.(job := s.store.job.(status := status, detail := Clip(Describe(error))),
                                       path := s.store.path + [status])
            && Terminal(status) && Legal(r.sys.store.path) && Reviews(r.sys.store.path) == Reviews(s.store.path)
            && r.sys.log == s.log
                            + (if IsBudget(error) && Partial !in Allowed(s.store.job.status)
                               then [Refused(s.store.job.status, Partial)] else [])
                            + [Moved(status)]
  {
    assert error.name == "BudgetExhausted" ==> IsBudget(error) by {
      assert Describe(error)[..|error.name|] == error.name;
    }
    hide Move, Describe, IsBudget, Clip, NothingRefused, Paired;
    var reason := Describe(error);
    var status := FinalStatus(Step<RunOutcome>.Raise(error, s));
    PathExtended(s.store.path, status);
    hide Legal, Reviews;
    if IsBudget(error) && Partial in Allowed(s.store.job.status) {
      MoveLands(port, s, Partial, reason);
    } else if IsBudget(error) {
      MoveRefused(port, s, Partial, reason);
      MoveLands(port, Move(port, s, Partial, reason).sys, Failed, reason);
    } else {
      MoveLands(port, s, Failed, reason);
    }
  }

  lemma FailKeepsPairs(port: Port, s: Sys, error: Error)
    requires Orderly(s) && !Terminal(s.store.job.status)
    ensures Paired(Fail(port, s, error).sys.log)
  {
    var status := FinalStatus(Step<RunOutcome>.Raise(error, s));
    var refused := Refused(s.store.job.status, Partial);
    hide Fail, Legal, Describe, IsBudget, Clip, Reviews, Paired, NothingRefused;
    FailEnds(port, s, error);
    PairsKept(s.log, refused);
    PairsKept(s.log, Moved(status));
    PairsKept(s.log + [refused], Moved(status));
    assert s.log + [] + [Moved(status)] == s.log + [Moved(status)];
  }

  /** The one kind of refused request: the handler asking for PARTIAL where it is not allowed, then failing the job. */
  ghost predicate OnlyRefusedPartial(log: seq<Event>) {
    forall i :: 0 <= i < |log| && log[i].Refused? ==>
      && i == |log| - 2 && log[i].from in {Planning, ReviewRequired} && log[i].target == Partial
      && log[i + 1] == Moved(Failed)
  }

  /**
   What a run hands back: after an error its description and nothing else, otherwise the report
   if it got to one, and the evidence it stored.
   */
  ghost predicate Returns(w: World, store: Store, outcome: RunOutcome) {
    var error := RunError(w);
    if error.Some? then
      outcome == RunOutcome(store.job, None, [], error.value.name + ": " + error.value.message, None)
    else
      && outcome.failure == "" && IdsOf(outcome.evidence) == IdsOf(store.evidence)
      && (if GetsToReport(w) then w.report.Returned? && outcome.report == Some(w.report.value)
          else outcome.report.None?)
  }

  /**
   Every run of a fresh job, over every way its writes are delivered or raise, stops in one
   terminal status: the one its world determines. Its stored path follows the table and is
   terminal only at its end, at most three reviews were opened and each was answered before
   anything else happened, the job is complete or says why it is not, and the only refused
   request is `_fail`'s attempt to end a job partial that was planning or under review.
   */
  lemma EveryRunEnds(w: World, port: Port, s: Sys)
    requires Fresh(s)
    ensures var r := Run(w, port, s);
            var store := r.sys.store;
            && r.Ok? && r.value.job == store.job && Returns(w, store, r.value)
            && store.job.status == ExpectedStatus(w, IdsOf(store.evidence))
            && Legal(store.path) && store.path[|store.path| - 1] == store.job.status
            && (forall i :: 0 <= i < |store.path| ==> (Terminal(store.path[i]) <==> i == |store.path| - 1))
            && Reviews(store.path) <= 3
            && (store.job.status == JobStatus.Completed || store.job.detail != "")
            && OnlyRefusedPartial(r.sys.log) && Paired(r.sys.log)
            && AllFrom(w, store.evidence)
  {
    hide Drive, Fail, IdsOf, ExpectedStatus, Reviews, GetsToReport, SettledBy, AllFrom, Paired, RunError, GetsGoing;
    DriveEnds(w, port, s);
    var driven := Drive(w, port, s);
    if driven.Raise? {
      FailEnds(port, driven.sys, driven.error);
      FailKeepsPairs(port, driven.sys, driven.error);
    }
    OnlyTheLastIsTerminal(Run(w, port, s).sys.store.path);
  }

  lemma OnlyTheLastIsTerminal(path: seq<JobStatus>)
    requires Legal(path) && Terminal(path[|path| - 1])
    ensures forall i :: 0 <= i < |path| ==> (Terminal(path[i]) <==> i == |path| - 1)
  {
    forall i | 0 <= i < |path| - 1
      ensures !Terminal(path[i])
    {
      assert path[i + 1] in Allowed(path[i + 1 - 1]);
    }
  }

  /** The critic found a gap in coverage or a contradiction. */
  ghost predicate Contested(review: CriticReview) {
    review.coverageGaps != [] || exists i :: 0 <= i < |review.verdicts| && review.verdicts[i].verdict == Contradicted
  }

  lemma ContestedIsReviewed(review: CriticReview)
    ensures RequiresReviewer(review) <==> Contested(review)
  {
    if Contested(review) && review.coverageGaps == [] {
      var i :| 0 <= i < |review.verdicts| && review.verdicts[i].verdict == Contradicted;
      assert review.verdicts[i] in review.verdicts;
    }
  }

  /** Round k was judged, contested, and its findings were stored for a reviewer to see. */
  ghost predicate Reviewable(w: World, k: nat) {
    Judged(w, k) && Contested(w.critique(k).value) && RecordWorks(w, k, AwaitingReview)
  }

  /**
   The review gate, over every run: a reviewer is asked in exactly the rounds that were judged,
   contested and stored. All rounds before the deciding one were, so that the job was under
   review once for each of them, and once more if the deciding round was too; a run that never
   got going was never under review.
   */
  lemma ReviewsAreOfContestedRounds(w: World, port: Port, s: Sys)
    requires Fresh(s)
    ensures var path := Run(w, port, s).sys.store.path;
            var reviews := Reviews(path);
            && (ReviewRequired in path <==> reviews > 0)
            && reviews == (if !GetsGoing(w) then 0 else Decisive(w) + if Reviewable(w, Decisive(w)) then 1 else 0)
            && (forall k: nat :: k < Decisive(w) ==> Reviewable(w, k) && w.decide(k) == RequestMoreResearch)
  {
    hide Drive, Fail, IdsOf, ExpectedStatus, Reviews, GetsToReport, SettledBy, AllFrom, Paired, RunError, GetsGoing;
    DriveEnds(w, port, s);
    var driven := Drive(w, port, s);
    if driven.Raise? {
      FailEnds(port, driven.sys, driven.error);
    }
    ReviewsAreInThePath(Run(w, port, s).sys.store.path);
    forall k: nat | k <= Decisive(w)
      ensures ReviewedIn(w, k) <==> Reviewable(w, k)
      ensures k < Decisive(w) ==> SentBack(w, k)
    {
      assert k < Decisive(w) ==> Continues(w, TaskCount(w), k);
      if Judged(w, k) {
        ContestedIsReviewed(w.critique(k).value);
      }
    }
  }

  lemma {:induction false} ReviewsAreInThePath(path: seq<JobStatus>)
    ensures Reviews(path) > 0 <==> ReviewRequired in path
  {
    if path != [] {
      ReviewsAreInThePath(path[..|path| - 1]);
      assert path == path[..|path| - 1] + [path[|path| - 1]];
    }
  }

  /**
   Whenever a run reached REPORTING, the stored findings are those derived from the last
   analysis and the last critique, in the analyst's order, approved by a reviewer if the critic
   found a gap or a contradiction and needing none otherwise, and every one of them passes the
   rules of a finding.
   */
  lemma ReportedFindings(w: World, port: Port, s: Sys)
    requires Fresh(s)
    ensures var store := Run(w, port, s).sys.store;
            JobStatus.Reporting in store.path ==>
              var k := Decisive(w);
              && Settled(w, k)
              && var status := if Contested(w.critique(k).value) then Approved else NotRequired;
                 && WithoutIds(store.findings) == Derive(w.analyze(k).value, w.critique(k).value, status)
                 && forall f :: f in store.findings ==> ValidFinding(f.finding) && f.finding.reviewer == status
  {
    hide Drive, Fail, IdsOf, ExpectedStatus, DecidingRound, Derive, Reviews, AllFrom, RunError, GetsGoing, Tells;
    DriveEnds(w, port, s);
    var driven := Drive(w, port, s);
    if driven.Raise? {
      FailEnds(port, driven.sys, driven.error);
    }
    var store := Run(w, port, s).sys.store;
    if JobStatus.Reporting in store.path {
      var k := Decisive(w);
      ContestedIsReviewed(w.critique(k).value);
      DerivedFindingsAreValid(w.analyze(k).value, w.critique(k).value, ReviewOutcome(w, k));
      forall f | f in store.findings
        ensures ValidFinding(f.finding) && f.finding.reviewer == ReviewOutcome(w, k)
      {
        var i :| 0 <= i < |store.findings| && store.findings[i] == f;
        assert WithoutIds(store.findings)[i] == f.finding;
      }
    }
  }

  /** Everything a task of a judged round submitted is stored when the run ends, however its writes were delivered. */
  lemma NothingFoundIsLost(w: World, port: Port, s: Sys, round: nat, i: nat, command: EvidenceCreate)
    requires Fresh(s) && GetsGoing(w) && round <= Decisive(w) && i < TaskCount(w)
    requires w.research(round, i).Returned? && command in w.research(round, i).value.records
    ensures exists e :: e in Run(w, port, s).sys.store.evidence && Repeats(e, command)
  {
    assert From(w, command, round, i);
    hide Drive, Fail, IdsOf, ExpectedStatus, DecidingRound, Reviews, AllFrom, RunError, GetsGoing, Tells, GetsToReport;
    hide SettledBy, Missing, Repeats, Tasks, From;
    DriveEnds(w, port, s);
    var driven := Drive(w, port, s);
    if driven.Raise? {
      FailEnds(port, driven.sys, driven.error);
    }
    assert AllStored(w, TaskCount(w), round, driven.sys.store.evidence);
    assert command in Submitted(w, TaskCount(w), round, 0);
  }

  /**
   A run that got to its report and raised nothing leaves a job that says exactly what the
   report falls short by: what the deciding round's tasks left unmet, what the report omits and
   what it cites that was never stored, clipped to what a job can hold.
   */
  lemma JobsSayWhatIsMissing(w: World, port: Port, s: Sys)
    requires Fresh(s)
    ensures var store := Run(w, port, s).sys.store;
            JobStatus.Reporting in store.path && RunError(w).None? ==>
              && w.report.Returned?
              && store.job.detail == Clip(Explain(Shortfalls(LeftUnmet(w, Tasks(w), Decisive(w), 0), w.report.value,
                                                             IdsOf(store.evidence))))
  {
    hide Drive, Fail, IdsOf, ExpectedStatus, DecidingRound, Reviews, AllFrom, RunError, GetsGoing, GetsToReport;
    hide SettledBy, Tasks, Shortfalls, Explain, Clip;
    DriveEnds(w, port, s);
    var driven := Drive(w, port, s);
    if driven.Raise? {
      FailEnds(port, driven.sys, driven.error);
    }
  }
}
