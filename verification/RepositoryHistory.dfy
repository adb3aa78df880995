/**
 What src/research_platform/application/jobs.py answers, told from the operations alone: no
 read needs anything but the history of what was asked of the repository before it.
 */
module RepositoryHistory {
  import opened Basics
  import opened JobModel
  import opened Capabilities
  import opened Sorting
  import opened JobRepository

  // ---------------------------------------------------------------- what a history says by itself

  /** The job as it was last added, or updated once it was known. */
  function Latest(ops: seq<Operation>, key: Key): Option<Job> {
    if ops == [] then None
    else
      var before := Latest(ops[..|ops| - 1], key);
      match ops[|ops| - 1]
      case Add(job) => if KeyOf(job) == key then Some(job) else before
      case Update(job) => if KeyOf(job) == key && before.Some? then Some(job) else before
      case _ => before
  }

  /** The evidence added to a job while it was known, in order. */
  function Filed(ops: seq<Operation>, key: Key): seq<EvidenceRecord> {
    if ops == [] then []
    else
      var n := |ops| - 1;
      var before := Filed(ops[..n], key);
      match ops[n]
      case AddEvidence(tenant, id, record) =>
        if (tenant, id) == key && Latest(ops[..n], key).Some? then before + [record] else before
      case _ => before
  }

  /** The last findings given for a job while it was known. */
  function Found(ops: seq<Operation>, key: Key): seq<FindingRecord> {
    if ops == [] then []
    else
      var n := |ops| - 1;
      var before := Found(ops[..n], key);
      match ops[n]
      case ReplaceFindings(tenant, id, replacement) =>
        if (tenant, id) == key && Latest(ops[..n], key).Some? then replacement else before
      case _ => before
  }

  /** The last publication recorded for a job while it was known. */
  function Announced(ops: seq<Operation>, key: Key): Option<Publication> {
    if ops == [] then None
    else
      var n := |ops| - 1;
      var before := Announced(ops[..n], key);
      match ops[n]
      case RecordPublication(tenant, id, publication) =>
        if (tenant, id) == key && Latest(ops[..n], key).Some? then Some(publication) else before
      case _ => before
  }

  /** Every audit record delivered for a job, known or not. */
  function Delivered(ops: seq<Operation>, key: Key): seq<Invocation> {
    if ops == [] then []
    else
      var before := Delivered(ops[..|ops| - 1], key);
      match ops[|ops| - 1]
      case RecordInvocation(r) => if (r.tenant, r.job) == key then before + [r] else before
      case _ => before
  }

  /** The ids of a tenant's jobs, in the order they were first added. */
  function KnownIds(ops: seq<Operation>, tenant: string): seq<Id> {
    if ops == [] then []
    else
      var before := KnownIds(ops[..|ops| - 1], tenant);
      match ops[|ops| - 1]
      case Add(job) => if job.tenant == tenant && job.id !in before then before + [job.id] else before
      case _ => before
  }

  // ---------------------------------------------------------------- the repository holds it

  /** What each operation does to each dictionary. */
  lemma StepOf(repo: Repo, op: Operation)
    ensures var next := Apply(repo, op).0;
            && next.jobs == (if op.Add? || (op.Update? && Find(repo.jobs, KeyOf(op.job)).Some?)
                             then Put(repo.jobs, op.job)
                             else repo.jobs)
            && next.evidence == (if op.AddEvidence? && Find(repo.jobs, (op.tenant, op.id)).Some?
                                 then
                                   var filed := Entry(repo.evidence, (op.tenant, op.id)) + [op.record];
                                   repo.evidence[(op.tenant, op.id) := filed]
                                 else repo.evidence)
            && next.findings == (if op.ReplaceFindings? && Find(repo.jobs, (op.tenant, op.id)).Some?
                                 then repo.findings[(op.tenant, op.id) := op.replacement] else repo.findings)
            && next.publications == (if op.RecordPublication? && Find(repo.jobs, (op.tenant, op.id)).Some?
                                     then repo.publications[(op.tenant, op.id) := op.publication]
                                     else repo.publications)
  {
    hide Find, Put, Entry, Noted, Sort, OwnJobs, KeyOf;
  }

  lemma {:induction false} HoldsJob(ops: seq<Operation>, key: Key)
    ensures Find(After(ops).jobs, key) == Latest(ops, key)
  {
    if ops == [] {
      return;
    }
    var n := |ops| - 1;
    hide Find, Put, Apply;
    HoldsJob(ops[..n], key);
    StepOf(After(ops[..n]), ops[n]);
    if ops[n].Add? || ops[n].Update? {
      FindPut(After(ops[..n]).jobs, ops[n].job, key);
      HoldsJob(ops[..n], KeyOf(ops[n].job));
    }
  }

  lemma {:induction false} HoldsEvidence(ops: seq<Operation>, key: Key)
    ensures Entry(After(ops).evidence, key) == Filed(ops, key)
  {
    if ops == [] {
      return;
    }
    var n := |ops| - 1;
    hide Find, Put, Latest, Apply;
    HoldsEvidence(ops[..n], key);
    HoldsJob(ops[..n], key);
    StepOf(After(ops[..n]), ops[n]);
  }

  lemma {:induction false} HoldsFindings(ops: seq<Operation>, key: Key)
    ensures Entry(After(ops).findings, key) == Found(ops, key)
  {
    if ops == [] {
      return;
    }
    var n := |ops| - 1;
    hide Find, Put, Latest, Apply;
    HoldsFindings(ops[..n], key);
    HoldsJob(ops[..n], key);
    StepOf(After(ops[..n]), ops[n]);
  }

  lemma {:induction false} HoldsPublication(ops: seq<Operation>, key: Key)
    ensures var published := After(ops).publications;
            Announced(ops, key) == if key in published then Some(published[key]) else None
  {
    if ops == [] {
      return;
    }
    var n := |ops| - 1;
    hide Find, Put, Latest, Apply;
    HoldsPublication(ops[..n], key);
    HoldsJob(ops[..n], key);
    StepOf(After(ops[..n]), ops[n]);
  }

  lemma {:induction false} HoldsTrail(ops: seq<Operation>, key: Key)
    ensures Entry(After(ops).invocations, key) == NotedAll(Delivered(ops, key))
  {
    if ops == [] {
      return;
    }
    var n := |ops| - 1;
    TrailStep(After(ops[..n]), ops[n]);
    hide Apply, Noted, NotedAll, Entry;
    HoldsTrail(ops[..n], key);
    if ops[n].RecordInvocation? {
      NotedNext(After(ops[..n]).invocations, ops[n].invocation, Delivered(ops[..n], key), key);
    }
  }

  lemma TrailStep(repo: Repo, op: Operation)
    ensures Apply(repo, op).0.invocations ==
            if op.RecordInvocation? then
              var own: Key := (op.invocation.tenant, op.invocation.job);
              repo.invocations[own := Noted(Entry(repo.invocations, own), op.invocation)]
            else repo.invocations
  {
    hide Noted, Entry, Put, Find, Sort;
  }

  lemma NotedNext(m: map<Key, seq<Invocation>>, r: Invocation, delivered: seq<Invocation>, key: Key)
    requires Entry(m, key) == NotedAll(delivered)
    ensures var own: Key := (r.tenant, r.job);
            Entry(m[own := Noted(Entry(m, own), r)], key) == NotedAll(if own == key then delivered + [r] else delivered)
  {
    hide Noted;
    assert (delivered + [r])[..|delivered + [r]| - 1] == delivered;
  }

  // ---------------------------------------------------------------- reads

  /**
   After any run of operations, the four reads of a job answer with the job as last stored,
   its evidence in order, its latest findings and its latest publication; for a job never
   added each says so.
   */
  lemma ReadsBack(ops: seq<Operation>, tenant: string, id: Id)
    ensures var repo := After(ops);
            var key: Key := (tenant, id);
            if Latest(ops, key).None? then
              forall op :: op in {Get(tenant, id), ListEvidence(tenant, id), ListFindings(tenant, id),
                                  GetPublication(tenant, id)} ==>
                Apply(repo, op).1 == JobNotFound
            else
              && Apply(repo, Get(tenant, id)).1 == TheJob(Latest(ops, key).value)
              && Apply(repo, ListEvidence(tenant, id)).1 == Evidence(Filed(ops, key))
              && Apply(repo, ListFindings(tenant, id)).1 == Findings(Found(ops, key))
              && Apply(repo, GetPublication(tenant, id)).1 == Published(Announced(ops, key))
  {
    HoldsJob(ops, (tenant, id));
    HoldsEvidence(ops, (tenant, id));
    HoldsFindings(ops, (tenant, id));
    HoldsPublication(ops, (tenant, id));
    hide After, Latest, Filed, Found, Announced, Find, Entry;
  }

  /** A write to a job is refused exactly when the job was never added, and then changes nothing. */
  lemma UnknownJobsAreRefused(ops: seq<Operation>, op: Operation)
    requires op.Update? || op.AddEvidence? || op.ReplaceFindings? || op.RecordPublication?
    ensures var key := if op.Update? then KeyOf(op.job) else (op.tenant, op.id);
            var (next, answer) := Apply(After(ops), op);
            && (answer == JobNotFound <==> Latest(ops, key).None?)
            && (answer == JobNotFound ==> next == After(ops))
  {
    HoldsJob(ops, if op.Update? then KeyOf(op.job) else (op.tenant, op.id));
    hide After, Latest, Find, Put, Entry;
  }

  // ---------------------------------------------------------------- the listing

  function IdsIn(jobs: seq<Job>): seq<Id> {
    seq(|jobs|, i requires 0 <= i < |jobs| => jobs[i].id)
  }

  ghost predicate OfTenant(jobs: seq<Job>, tenant: string) {
    forall i :: 0 <= i < |jobs| ==> jobs[i].tenant == tenant
  }

  lemma {:induction false} OwnAreOfTenant(jobs: seq<Job>, tenant: string)
    ensures OfTenant(OwnJobs(jobs, tenant), tenant)
  {
    if jobs != [] {
      OwnAreOfTenant(jobs[1..], tenant);
    }
  }

  lemma {:induction false} PutIds(jobs: seq<Job>, job: Job)
    requires OfTenant(jobs, job.tenant)
    ensures IdsIn(Put(jobs, job)) == IdsIn(jobs) + if job.id in IdsIn(jobs) then [] else [job.id]
  {
    if jobs != [] {
      PutIds(jobs[1..], job);
      assert IdsIn(jobs) == [jobs[0].id] + IdsIn(jobs[1..]);
      if jobs[0].id == job.id {
        assert IdsIn([job] + jobs[1..]) == [job.id] + IdsIn(jobs[1..]);
      } else {
        var rest := Put(jobs[1..], job);
        assert IdsIn([jobs[0]] + rest) == [jobs[0].id] + IdsIn(rest);
      }
    }
  }

  lemma {:induction false} FindAt(jobs: seq<Job>, tenant: string, i: nat)
    requires OfTenant(jobs, tenant) && Distinct(IdsIn(jobs)) && i < |jobs|
    ensures Find(jobs, (tenant, jobs[i].id)) == Some(jobs[i])
  {
    assert IdsIn(jobs)[0] == jobs[0].id && IdsIn(jobs)[i] == jobs[i].id;
    if i > 0 {
      assert IdsIn(jobs[1..]) == IdsIn(jobs)[1..];
      FindAt(jobs[1..], tenant, i - 1);
    }
  }

  lemma {:induction false} FindIsListed(jobs: seq<Job>, tenant: string, id: Id)
    requires OfTenant(jobs, tenant)
    ensures Find(jobs, (tenant, id)).Some? <==> id in IdsIn(jobs)
  {
    if jobs != [] {
      assert IdsIn(jobs) == [jobs[0].id] + IdsIn(jobs[1..]);
      FindIsListed(jobs[1..], tenant, id);
    }
  }

  lemma {:induction false} KnownIdsDistinct(ops: seq<Operation>, tenant: string)
    ensures Distinct(KnownIds(ops, tenant))
  {
    if ops != [] {
      KnownIdsDistinct(ops[..|ops| - 1], tenant);
    }
  }

  /** The tenant's stored jobs are those it added, in the order they were first added. */
  lemma {:induction false} ListedIds(ops: seq<Operation>, tenant: string)
    ensures IdsIn(OwnJobs(After(ops).jobs, tenant)) == KnownIds(ops, tenant)
  {
    if ops == [] {
      return;
    }
    var n := |ops| - 1;
    var jobs := After(ops[..n]).jobs;
    hide Find, Put, OwnJobs, IdsIn, OfTenant, Apply;
    ListedIds(ops[..n], tenant);
    OwnAreOfTenant(jobs, tenant);
    StepOf(After(ops[..n]), ops[n]);
    if ops[n].Add? || ops[n].Update? {
      var job := ops[n].job;
      PutListed(jobs, job, tenant);
      if job.tenant == tenant {
        FindOwn(jobs, tenant, job.id);
        FindIsListed(OwnJobs(jobs, tenant), tenant, job.id);
      }
    }
  }

  lemma PutListed(jobs: seq<Job>, job: Job, tenant: string)
    ensures var own := IdsIn(OwnJobs(jobs, tenant));
            IdsIn(OwnJobs(Put(jobs, job), tenant)) ==
            if job.tenant == tenant && job.id !in own then own + [job.id] else own
  {
    if job.tenant == tenant {
      PutOwn(jobs, job);
      OwnAreOfTenant(jobs, tenant);
      PutIds(OwnJobs(jobs, tenant), job);
    } else {
      PutOther(jobs, job, tenant);
    }
  }

  /** The jobs a tenant added, as they were last stored, in the order they were first added. */
  ghost predicate Current(ops: seq<Operation>, tenant: string, jobs: seq<Job>) {
    && IdsIn(jobs) == KnownIds(ops, tenant)
    && forall i :: 0 <= i < |jobs| ==> Latest(ops, (tenant, jobs[i].id)) == Some(jobs[i])
  }

  lemma OwnJobsAreCurrent(ops: seq<Operation>, tenant: string)
    ensures Current(ops, tenant, OwnJobs(After(ops).jobs, tenant)) && Distinct(OwnJobs(After(ops).jobs, tenant))
  {
    var jobs := After(ops).jobs;
    var own := OwnJobs(jobs, tenant);
    ListedIds(ops, tenant);
    KnownIdsDistinct(ops, tenant);
    OwnAreOfTenant(jobs, tenant);
    hide After, OwnJobs, Find, Latest, KnownIds, OfTenant;
    forall i | 0 <= i < |own|
      ensures Latest(ops, (tenant, own[i].id)) == Some(own[i])
    {
      FindAt(own, tenant, i);
      FindOwn(jobs, tenant, own[i].id);
      HoldsJob(ops, (tenant, own[i].id));
    }
    forall i, j | 0 <= i < j < |own|
      ensures own[i] != own[j]
    {
      assert IdsIn(own)[i] != IdsIn(own)[j];
    }
  }

  /**
   After any run of operations, a tenant's listing holds exactly the jobs it added, each as it
   was last stored, newest first, and jobs of the same age in the order they were added.
   */
  lemma ListingIsTheTenantsJobs(ops: seq<Operation>, tenant: string)
    ensures exists current, listed ::
              Apply(After(ops), List(tenant)).1 == Jobs(listed) && Current(ops, tenant, current)
              && SortedStably(NEWER, current, listed)
  {
    var current := OwnJobs(After(ops).jobs, tenant);
    OwnJobsAreCurrent(ops, tenant);
    SortIsStable(NEWER, current);
    var listed := Sort(NEWER, current);
    assert Apply(After(ops), List(tenant)).1 == Jobs(listed);
    hide After, OwnJobs, Current, SortedStably, Sort;
  }

  // ---------------------------------------------------------------- the trail

  lemma {:induction false} FirstDeliveriesOf(deliveries: seq<Invocation>)
    ensures forall r :: r in FirstDeliveries(deliveries) ==> r in deliveries
    ensures Distinct(FirstDeliveries(deliveries))
  {
    if deliveries != [] {
      var n := |deliveries| - 1;
      FirstDeliveriesOf(deliveries[..n]);
      assert forall r :: r in deliveries[..n] ==> r in deliveries;
      assert deliveries[n] in deliveries;
    }
  }

  /**
   After any run of operations, a job's audit trail holds the first delivery of each record
   delivered for it, oldest call first, and calls of the same moment as they were delivered.
   */
  lemma TrailIsTheFirstDeliveries(ops: seq<Operation>, tenant: string, id: Id)
    ensures exists listed ::
              Apply(After(ops), ListInvocations(tenant, id)).1 == Audit(listed)
              && SortedStably(OLDER, FirstDeliveries(Delivered(ops, (tenant, id))), listed)
  {
    var deliveries := Delivered(ops, (tenant, id));
    var firsts := FirstDeliveries(deliveries);
    HoldsTrail(ops, (tenant, id));
    TrailCountsEachCallOnce(deliveries);
    FirstDeliveriesOf(deliveries);
    SortIsStable(OLDER, firsts);
    assert Apply(After(ops), ListInvocations(tenant, id)).1 == Audit(Sort(OLDER, firsts));
    hide After, Sort, SortedStably, Delivered;
  }
}
