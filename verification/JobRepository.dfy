/**
 The in-memory system of record of src/research_platform/application/jobs.py: five
 dictionaries keyed by tenant and job, each operation one atomic step.
 */
module JobRepository {
  import opened Basics
  import opened JobModel
  import opened Capabilities
  import opened Sorting

  type Key = (string, Id)

  /** The jobs in the order their keys were first inserted, and the four other dictionaries. */
  datatype Repo = Repo(
    jobs: seq<Job>,
    evidence: map<Key, seq<EvidenceRecord>>,
    invocations: map<Key, seq<Invocation>>,
    findings: map<Key, seq<FindingRecord>>,
    publications: map<Key, Publication>)

  const EMPTY := Repo([], map[], map[], map[], map[])

  datatype Operation =
    | Add(job: Job)
    | Get(tenant: string, id: Id)
    | List(tenant: string)
    | Update(job: Job)
    | AddEvidence(tenant: string, id: Id, record: EvidenceRecord)
    | ListEvidence(tenant: string, id: Id)
    | RecordInvocation(invocation: Invocation)
    | ListInvocations(tenant: string, id: Id)
    | ReplaceFindings(tenant: string, id: Id, replacement: seq<FindingRecord>)
    | ListFindings(tenant: string, id: Id)
    | RecordPublication(tenant: string, id: Id, publication: Publication)
    | GetPublication(tenant: string, id: Id)

  datatype Answer =
    | TheJob(job: Job)
    | Jobs(jobs: seq<Job>)
    | Evidence(records: seq<EvidenceRecord>)
    | Audit(invocations: seq<Invocation>)
    | Findings(findings: seq<FindingRecord>)
    | Published(publication: Option<Publication>)
    | JobNotFound

  function KeyOf(job: Job): Key {
    (job.tenant, job.id)
  }

  function TenantOf(op: Operation): string {
    match op
    case Add(job) => job.tenant
    case Update(job) => job.tenant
    case RecordInvocation(invocation) => invocation.tenant
    case _ => op.tenant
  }

  // ---------------------------------------------------------------- the jobs dictionary

  function Find(jobs: seq<Job>, key: Key): Option<Job> {
    if jobs == [] then None else if KeyOf(jobs[0]) == key then Some(jobs[0]) else Find(jobs[1..], key)
  }

  /** Assignment to a dictionary: a key already there keeps its place. */
  function Put(jobs: seq<Job>, job: Job): seq<Job> {
    if jobs == [] then [job]
    else if KeyOf(jobs[0]) == KeyOf(job) then [job] + jobs[1..]
    else [jobs[0]] + Put(jobs[1..], job)
  }

  lemma {:induction false} FindPut(jobs: seq<Job>, job: Job, key: Key)
    ensures Find(Put(jobs, job), key) == if key == KeyOf(job) then Some(job) else Find(jobs, key)
  {
    if jobs != [] {
      FindPut(jobs[1..], job, key);
      assert Put(jobs, job)[1..] == if KeyOf(jobs[0]) == KeyOf(job) then jobs[1..] else Put(jobs[1..], job);
    }
  }

  /** The tenant's jobs, in the order their keys were first inserted. */
  function OwnJobs(jobs: seq<Job>, tenant: string): seq<Job> {
    if jobs == [] then [] else (if jobs[0].tenant == tenant then [jobs[0]] else []) + OwnJobs(jobs[1..], tenant)
  }

  const NEWER: Order<Job> := (a: Job, b: Job) => a.createdAt >= b.createdAt
  const OLDER: Order<Invocation> := (a: Invocation, b: Invocation) => a.startedAt <= b.startedAt

  // ---------------------------------------------------------------- the operations

  function Entry<T>(m: map<Key, seq<T>>, key: Key): seq<T> {
    if key in m then m[key] else []
  }

  /** `record_invocation`: a record whose identifier is there already is not stored again. */
  function Noted(trail: seq<Invocation>, r: Invocation): seq<Invocation> {
    if HasId(trail, r.id) then trail else trail + [r]
  }

  predicate HasId(trail: seq<Invocation>, id: Id) {
    exists e :: e in trail && e.id == id
  }

  function Apply(repo: Repo, op: Operation): (Repo, Answer) {
    match op
    case Add(job) => (repo.(jobs := Put(repo.jobs, job)), TheJob(job))
    case Get(tenant, id) =>
      var found := Find(repo.jobs, (tenant, id));
      (repo, if found.Some? then TheJob(found.value) else JobNotFound)
    case List(tenant) => (repo, Jobs(Sort(NEWER, OwnJobs(repo.jobs, tenant))))
    case Update(job) =>
      if Find(repo.jobs, KeyOf(job)).None? then (repo, JobNotFound)
      else (repo.(jobs := Put(repo.jobs, job)), TheJob(job))
    case AddEvidence(tenant, id, record) =>
      if Find(repo.jobs, (tenant, id)).None? then (repo, JobNotFound)
      else
        var filed := Entry(repo.evidence, (tenant, id)) + [record];
        (repo.(evidence := repo.evidence[(tenant, id) := filed]), Evidence([record]))
    case ListEvidence(tenant, id) => (repo, Known(repo, tenant, id, Evidence(Entry(repo.evidence, (tenant, id)))))
    case RecordInvocation(r) =>
      var key: Key := (r.tenant, r.job);
      (repo.(invocations := repo.invocations[key := Noted(Entry(repo.invocations, key), r)]), Audit([r]))
    case ListInvocations(tenant, id) => (repo, Audit(Sort(OLDER, Entry(repo.invocations, (tenant, id)))))
    case ReplaceFindings(tenant, id, replacement) =>
      if Find(repo.jobs, (tenant, id)).None? then (repo, JobNotFound)
      else (repo.(findings := repo.findings[(tenant, id) := replacement]), Findings(replacement))
    case ListFindings(tenant, id) => (repo, Known(repo, tenant, id, Findings(Entry(repo.findings, (tenant, id)))))
    case RecordPublication(tenant, id, publication) =>
      if Find(repo.jobs, (tenant, id)).None? then (repo, JobNotFound)
      else (repo.(publications := repo.publications[(tenant, id) := publication]), Published(Some(publication)))
    case GetPublication(tenant, id) =>
      (repo, Known(repo, tenant, id, Published(
        if (tenant, id) in repo.publications then Some(repo.publications[(tenant, id)]) else None)))
  }

  /** The answer of a read that first looks the job up. */
  function Known(repo: Repo, tenant: string, id: Id, answer: Answer): Answer {
    if Find(repo.jobs, (tenant, id)).None? then JobNotFound else answer
  }

  function After(ops: seq<Operation>): Repo {
    if ops == [] then EMPTY else Apply(After(ops[..|ops| - 1]), ops[|ops| - 1]).0
  }

  /** What each operation of a run was answered, in order. */
  function Answers(ops: seq<Operation>): seq<Answer> {
    if ops == [] then []
    else Answers(ops[..|ops| - 1]) + [Apply(After(ops[..|ops| - 1]), ops[|ops| - 1]).1]
  }

  // ---------------------------------------------------------------- one tenant's view

  function Own<T>(m: map<Key, T>, tenant: string): map<Key, T> {
    map k | k in m && k.0 == tenant :: m[k]
  }

  /** The repository with every other tenant's entries removed. */
  function View(repo: Repo, tenant: string): Repo {
    Repo(OwnJobs(repo.jobs, tenant), Own(repo.evidence, tenant), Own(repo.invocations, tenant),
         Own(repo.findings, tenant), Own(repo.publications, tenant))
  }

  lemma {:induction false} FindOwn(jobs: seq<Job>, tenant: string, id: Id)
    ensures Find(OwnJobs(jobs, tenant), (tenant, id)) == Find(jobs, (tenant, id))
  {
    if jobs != [] {
      FindOwn(jobs[1..], tenant, id);
      if jobs[0].tenant == tenant {
        assert OwnJobs(jobs, tenant)[1..] == OwnJobs(jobs[1..], tenant);
      } else {
        assert OwnJobs(jobs, tenant) == OwnJobs(jobs[1..], tenant);
      }
    }
  }

  lemma {:induction false} PutOwn(jobs: seq<Job>, job: Job)
    ensures OwnJobs(Put(jobs, job), job.tenant) == Put(OwnJobs(jobs, job.tenant), job)
  {
    if jobs != [] {
      var own := OwnJobs(jobs, job.tenant);
      PutOwn(jobs[1..], job);
      assert Put(jobs, job)[1..] == if KeyOf(jobs[0]) == KeyOf(job) then jobs[1..] else Put(jobs[1..], job);
      if jobs[0].tenant == job.tenant {
        assert own[1..] == OwnJobs(jobs[1..], job.tenant);
      } else {
        assert own == OwnJobs(jobs[1..], job.tenant);
      }
    }
  }

  lemma {:induction false} PutOther(jobs: seq<Job>, job: Job, tenant: string)
    requires job.tenant != tenant
    ensures OwnJobs(Put(jobs, job), tenant) == OwnJobs(jobs, tenant)
  {
    if jobs != [] {
      PutOther(jobs[1..], job, tenant);
      assert Put(jobs, job)[1..] == if KeyOf(jobs[0]) == KeyOf(job) then jobs[1..] else Put(jobs[1..], job);
    }
  }

  lemma {:induction false} OwnTwice(jobs: seq<Job>, tenant: string)
    ensures OwnJobs(OwnJobs(jobs, tenant), tenant) == OwnJobs(jobs, tenant)
  {
    if jobs != [] {
      OwnTwice(jobs[1..], tenant);
      if jobs[0].tenant == tenant {
        assert OwnJobs(jobs, tenant)[1..] == OwnJobs(jobs[1..], tenant);
      } else {
        assert OwnJobs(jobs, tenant) == OwnJobs(jobs[1..], tenant);
      }
    }
  }

  lemma OwnEntry<T>(m: map<Key, seq<T>>, tenant: string, id: Id)
    ensures Entry(Own(m, tenant), (tenant, id)) == Entry(m, (tenant, id))
  {
  }

  lemma OwnAssigned<T>(m: map<Key, T>, key: Key, value: T, tenant: string)
    ensures Own(m[key := value], tenant) == if key.0 == tenant then Own(m, tenant)[key := value] else Own(m, tenant)
  {
  }

  /** Another tenant's operation leaves the view as it was. */
  lemma OthersAreInvisible(repo: Repo, op: Operation, tenant: string)
    requires TenantOf(op) != tenant
    ensures View(Apply(repo, op).0, tenant) == View(repo, tenant)
  {
    hide Find, Put, OwnJobs, Own, Entry, Noted, Sort;
    match op {
      case Add(job) => PutOther(repo.jobs, job, tenant);
      case Update(job) => PutOther(repo.jobs, job, tenant);
      case AddEvidence(t, id, record) =>
        OwnAssigned(repo.evidence, (t, id), Entry(repo.evidence, (t, id)) + [record], tenant);
      case RecordInvocation(r) =>
        OwnAssigned(repo.invocations, (r.tenant, r.job), Noted(Entry(repo.invocations, (r.tenant, r.job)), r), tenant);
      case ReplaceFindings(t, id, replacement) => OwnAssigned(repo.findings, (t, id), replacement, tenant);
      case RecordPublication(t, id, publication) => OwnAssigned(repo.publications, (t, id), publication, tenant);
      case _ =>
    }
  }

  lemma OwnJobOperation(repo: Repo, op: Operation, tenant: string)
    requires TenantOf(op) == tenant && (op.Add? || op.Update? || op.Get? || op.List?)
    ensures View(Apply(repo, op).0, tenant) == Apply(View(repo, tenant), op).0
    ensures Apply(repo, op).1 == Apply(View(repo, tenant), op).1
  {
    match op {
      case Add(job) =>
        PutOwn(repo.jobs, job);
      case Update(job) =>
        PutOwn(repo.jobs, job);
        FindOwn(repo.jobs, tenant, job.id);
      case Get(_, id) =>
        FindOwn(repo.jobs, tenant, id);
      case List(_) =>
        OwnTwice(repo.jobs, tenant);
    }
  }

  lemma OwnWrite(repo: Repo, op: Operation, tenant: string)
    requires TenantOf(op) == tenant
    requires op.AddEvidence? || op.ReplaceFindings? || op.RecordPublication? || op.RecordInvocation?
    ensures View(Apply(repo, op).0, tenant) == Apply(View(repo, tenant), op).0
    ensures Apply(repo, op).1 == Apply(View(repo, tenant), op).1
  {
    hide Find, OwnJobs, Own, Entry, Noted;
    match op {
      case AddEvidence(_, id, record) =>
        FindOwn(repo.jobs, tenant, id);
        OwnEntry(repo.evidence, tenant, id);
        OwnAssigned(repo.evidence, (tenant, id), Entry(repo.evidence, (tenant, id)) + [record], tenant);
      case ReplaceFindings(_, id, replacement) =>
        FindOwn(repo.jobs, tenant, id);
        OwnAssigned(repo.findings, (tenant, id), replacement, tenant);
      case RecordPublication(_, id, publication) =>
        FindOwn(repo.jobs, tenant, id);
        OwnAssigned(repo.publications, (tenant, id), publication, tenant);
      case RecordInvocation(r) =>
        OwnEntry(repo.invocations, tenant, r.job);
        OwnAssigned(repo.invocations, (tenant, r.job), Noted(Entry(repo.invocations, (tenant, r.job)), r), tenant);
    }
  }

  lemma OwnRead(repo: Repo, op: Operation, tenant: string)
    requires TenantOf(op) == tenant
    requires op.ListEvidence? || op.ListInvocations? || op.ListFindings? || op.GetPublication?
    ensures View(Apply(repo, op).0, tenant) == Apply(View(repo, tenant), op).0
    ensures Apply(repo, op).1 == Apply(View(repo, tenant), op).1
  {
    hide Find, OwnJobs, Entry, Sort;
    FindOwn(repo.jobs, tenant, op.id);
    OwnEntry(repo.evidence, tenant, op.id);
    OwnEntry(repo.invocations, tenant, op.id);
    OwnEntry(repo.findings, tenant, op.id);
  }

  /** A tenant's own operation sees and changes only its view. */
  lemma OwnOperation(repo: Repo, op: Operation, tenant: string)
    requires TenantOf(op) == tenant
    ensures View(Apply(repo, op).0, tenant) == Apply(View(repo, tenant), op).0
    ensures Apply(repo, op).1 == Apply(View(repo, tenant), op).1
  {
    hide View, Apply;
    if op.Add? || op.Update? || op.Get? || op.List? {
      OwnJobOperation(repo, op, tenant);
    } else if op.AddEvidence? || op.ReplaceFindings? || op.RecordPublication? || op.RecordInvocation? {
      OwnWrite(repo, op, tenant);
    } else {
      OwnRead(repo, op, tenant);
    }
  }

  /** The run with all other tenants' operations deleted, and the answers that are left. */
  function OwnOperations(ops: seq<Operation>, tenant: string): seq<Operation> {
    if ops == [] then []
    else
      var op := ops[|ops| - 1];
      OwnOperations(ops[..|ops| - 1], tenant) + if TenantOf(op) == tenant then [op] else []
  }

  function OwnAnswers(ops: seq<Operation>, tenant: string): seq<Answer> {
    if ops == [] then []
    else
      OwnAnswers(ops[..|ops| - 1], tenant) +
      if TenantOf(ops[|ops| - 1]) == tenant then [Apply(After(ops[..|ops| - 1]), ops[|ops| - 1]).1] else []
  }

  lemma RunExtended(ops: seq<Operation>, op: Operation)
    ensures After(ops + [op]) == Apply(After(ops), op).0
    ensures Answers(ops + [op]) == Answers(ops) + [Apply(After(ops), op).1]
  {
    assert (ops + [op])[..|ops + [op]| - 1] == ops;
  }

  lemma {:induction false} ViewIsOwnRun(ops: seq<Operation>, tenant: string)
    ensures View(After(ops), tenant) == After(OwnOperations(ops, tenant))
    ensures OwnAnswers(ops, tenant) == Answers(OwnOperations(ops, tenant))
  {
    if ops == [] {
      return;
    }
    var n := |ops| - 1;
    var op, before := ops[n], ops[..n];
    var own := OwnOperations(before, tenant);
    ViewIsOwnRun(before, tenant);
    hide View, Apply;
    if TenantOf(op) == tenant {
      OwnOperation(After(before), op, tenant);
      RunExtended(own, op);
    } else {
      OthersAreInvisible(After(before), op, tenant);
      assert OwnOperations(ops, tenant) == own;
    }
  }

  /**
   For every run of operations over any mix of tenants, the answers one tenant gets are
   exactly those of the run with every other tenant's operations deleted.
   */
  lemma TenantsAreIsolated(ops: seq<Operation>, tenant: string)
    ensures OwnAnswers(ops, tenant) == Answers(OwnOperations(ops, tenant))
  {
    ViewIsOwnRun(ops, tenant);
  }

  // ---------------------------------------------------------------- the audit trail

  /** The trail left by a run of deliveries for one job. */
  function NotedAll(deliveries: seq<Invocation>): seq<Invocation> {
    if deliveries == [] then []
    else Noted(NotedAll(deliveries[..|deliveries| - 1]), deliveries[|deliveries| - 1])
  }

  /** The first deliveries of each record, in order. */
  ghost function FirstDeliveries(deliveries: seq<Invocation>): seq<Invocation> {
    if deliveries == [] then []
    else
      var n := |deliveries| - 1;
      FirstDeliveries(deliveries[..n]) + if HasId(deliveries[..n], deliveries[n].id) then [] else [deliveries[n]]
  }

  lemma HasIdAppended(trail: seq<Invocation>, r: Invocation, id: Id)
    ensures HasId(trail + [r], id) <==> HasId(trail, id) || r.id == id
  {
    assert forall e :: e in trail + [r] <==> e in trail || e == r;
    assert r in trail + [r];
    if HasId(trail, id) {
      var e :| e in trail && e.id == id;
      assert e in trail + [r];
    }
  }

  lemma {:induction false} NotedIds(deliveries: seq<Invocation>, id: Id)
    ensures HasId(NotedAll(deliveries), id) <==> HasId(deliveries, id)
  {
    if deliveries == [] {
      return;
    }
    var n := |deliveries| - 1;
    var r := deliveries[n];
    assert deliveries == deliveries[..n] + [r];
    hide HasId;
    NotedIds(deliveries[..n], id);
    NotedIds(deliveries[..n], r.id);
    HasIdAppended(deliveries[..n], r, id);
    HasIdAppended(NotedAll(deliveries[..n]), r, id);
  }

  /** However often audit records are delivered, and in whatever order, the trail holds each call once. */
  lemma {:induction false} TrailCountsEachCallOnce(deliveries: seq<Invocation>)
    ensures NotedAll(deliveries) == FirstDeliveries(deliveries)
  {
    if deliveries == [] {
      return;
    }
    hide HasId;
    var n := |deliveries| - 1;
    TrailCountsEachCallOnce(deliveries[..n]);
    NotedIds(deliveries[..n], deliveries[n].id);
  }

  /** Delivering records again, once each was delivered before, changes nothing. */
  lemma {:induction false} RedeliveredRecordsChangeNothing(deliveries: seq<Invocation>, again: seq<Invocation>)
    requires forall r :: r in again ==> HasId(deliveries, r.id)
    ensures NotedAll(deliveries + again) == NotedAll(deliveries)
  {
    if again == [] {
      assert deliveries + again == deliveries;
    } else {
      var n := |again| - 1;
      RedeliveredRecordsChangeNothing(deliveries, again[..n]);
      assert (deliveries + again)[..|deliveries + again| - 1] == deliveries + again[..n];
      NotedIds(deliveries, again[n].id);
    }
  }
}
