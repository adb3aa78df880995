/**
 `InMemoryJobRepository` and `ResearchJobService` of
 src/research_platform/application/jobs.py, and how what they store for one job is the
 `Store` that the job protocol runs on.
 */
module JobService {
  import opened Basics
  import opened JobModel
  import opened Capabilities
  import opened JobRepository
  import opened Sorting
  import O = Orchestration

  class InMemoryJobRepository {
    var jobs: seq<Job>
    var evidence: map<Key, seq<EvidenceRecord>>
    var invocations: map<Key, seq<Invocation>>
    var findings: map<Key, seq<FindingRecord>>
    var publications: map<Key, Publication>

    ghost function Value(): Repo
      reads this
    {
      Repo(jobs, evidence, invocations, findings, publications)
    }

    constructor ()
      ensures Value() == EMPTY
    {
      jobs, evidence, invocations, findings, publications := [], map[], map[], map[], map[];
    }

    method AddJob(job: Job) returns (r: Answer)
      modifies this
      ensures (Value(), r) == Apply(old(Value()), Add(job))
    {
      jobs := Put(jobs, job);
      r := TheJob(job);
    }

    method GetJob(tenant: string, id: Id) returns (r: Answer)
      ensures (Value(), r) == Apply(Value(), Get(tenant, id))
    {
      var found := Find(jobs, (tenant, id));
      r := if found.Some? then TheJob(found.value) else JobNotFound;
    }

    method ListJobs(tenant: string) returns (r: Answer)
      ensures (Value(), r) == Apply(Value(), List(tenant))
    {
      r := Jobs(Sort(NEWER, OwnJobs(jobs, tenant)));
    }

    method UpdateJob(job: Job) returns (r: Answer)
      modifies this
      ensures (Value(), r) == Apply(old(Value()), Update(job))
    {
      if Find(jobs, KeyOf(job)).None? {
        return JobNotFound;
      }
      jobs := Put(jobs, job);
      r := TheJob(job);
    }

    method AddEvidenceTo(tenant: string, id: Id, record: EvidenceRecord) returns (r: Answer)
      modifies this
      ensures (Value(), r) == Apply(old(Value()), AddEvidence(tenant, id, record))
    {
      var job := GetJob(tenant, id);
      if job.JobNotFound? {
        return JobNotFound;
      }
      evidence := evidence[(tenant, id) := Entry(evidence, (tenant, id)) + [record]];
      r := Evidence([record]);
    }

    method ListEvidenceOf(tenant: string, id: Id) returns (r: Answer)
      ensures (Value(), r) == Apply(Value(), ListEvidence(tenant, id))
    {
      var job := GetJob(tenant, id);
      r := if job.JobNotFound? then job else Evidence(Entry(evidence, (tenant, id)));
    }

    /** Idempotent on the record's own identifier, and for an unknown job too. */
    method Record(invocation: Invocation) returns (r: Answer)
      modifies this
      ensures (Value(), r) == Apply(old(Value()), RecordInvocation(invocation))
    {
      var key: Key := (invocation.tenant, invocation.job);
      var recorded := Entry(invocations, key);
      if !HasId(recorded, invocation.id) {
        recorded := recorded + [invocation];
      }
      invocations := invocations[key := recorded];
      r := Audit([invocation]);
    }

    method ListTrail(tenant: string, id: Id) returns (r: Answer)
      ensures (Value(), r) == Apply(Value(), ListInvocations(tenant, id))
    {
      r := Audit(Sort(OLDER, Entry(invocations, (tenant, id))));
    }

    method Replace(tenant: string, id: Id, replacement: seq<FindingRecord>) returns (r: Answer)
      modifies this
      ensures (Value(), r) == Apply(old(Value()), ReplaceFindings(tenant, id, replacement))
    {
      var job := GetJob(tenant, id);
      if job.JobNotFound? {
        return JobNotFound;
      }
      findings := findings[(tenant, id) := replacement];
      r := Findings(replacement);
    }

    method ListFindingsOf(tenant: string, id: Id) returns (r: Answer)
      ensures (Value(), r) == Apply(Value(), ListFindings(tenant, id))
    {
      var job := GetJob(tenant, id);
      r := if job.JobNotFound? then job else Findings(Entry(findings, (tenant, id)));
    }

    method Publish(tenant: string, id: Id, publication: Publication) returns (r: Answer)
      modifies this
      ensures (Value(), r) == Apply(old(Value()), RecordPublication(tenant, id, publication))
    {
      var job := GetJob(tenant, id);
      if job.JobNotFound? {
        return JobNotFound;
      }
      publications := publications[(tenant, id) := publication];
      r := Published(Some(publication));
    }

    method PublicationOf(tenant: string, id: Id) returns (r: Answer)
      ensures (Value(), r) == Apply(Value(), GetPublication(tenant, id))
    {
      var job := GetJob(tenant, id);
      if job.JobNotFound? {
        return JobNotFound;
      }
      r := Published(if (tenant, id) in publications then Some(publications[(tenant, id)]) else None);
    }
  }

  // ---------------------------------------------------------------- one job's part of the repository

  /** The repository holds, under the job's key, what the store says. */
  ghost predicate Holds(repo: Repo, st: O.Store) {
    var key := KeyOf(st.job);
    && Find(repo.jobs, key) == Some(st.job)
    && Entry(repo.evidence, key) == st.evidence
    && Entry(repo.findings, key) == st.findings
    && st.publication == (if key in repo.publications then Some(repo.publications[key]) else None)
  }

  /** Everything the repository holds for another job is as it was. */
  ghost predicate OthersKept(repo: Repo, next: Repo, key: Key) {
    forall st: O.Store :: KeyOf(st.job) != key && Holds(repo, st) ==> Holds(next, st)
  }

  class ResearchJobService {
    const repository: InMemoryJobRepository

    constructor (repository: InMemoryJobRepository)
      ensures this.repository == repository
    {
      this.repository := repository;
    }

    /** `transition`: read, check the table, write. An unknown job or a refused move leaves the repository alone. */
    method Transition(tenant: string, id: Id, target: JobStatus, detail: string) returns (r: Outcome<Job>)
      modifies repository
      ensures Find(old(repository.jobs), (tenant, id)).None? ==> r == Raised(NO_SUCH_JOB)
      ensures forall st: O.Store :: Holds(old(repository.Value()), st) && KeyOf(st.job) == (tenant, id) ==>
                match O.ServiceMove(st, target, detail)
                case Some(next) => r == Returned(next.job) && Holds(repository.Value(), next)
                case None => r == Raised(O.InvalidStateTransition)
      ensures r.Raised? ==> repository.Value() == old(repository.Value())
      ensures OthersKept(old(repository.Value()), repository.Value(), (tenant, id))
    {
      var found := repository.GetJob(tenant, id);
      if found.JobNotFound? {
        return Raised(NO_SUCH_JOB);
      }
      var job := TransitionTo(found.job, target, detail);
      if job.None? {
        return Raised(O.InvalidStateTransition);
      }
      FindIsKeyed(repository.jobs, (tenant, id));
      forall key
        ensures Find(Put(repository.jobs, job.value), key) ==
                if key == (tenant, id) then job else Find(repository.jobs, key)
      {
        FindPut(repository.jobs, job.value, key);
      }
      var updated := repository.UpdateJob(job.value);
      r := Returned(job.value);
    }

    method SaveEvidence(tenant: string, id: Id, command: EvidenceCreate, newId: Id) returns (r: Outcome<EvidenceRecord>)
      modifies repository
      ensures Find(old(repository.jobs), (tenant, id)).None? ==>
                r == Raised(NO_SUCH_JOB) && repository.Value() == old(repository.Value())
      ensures forall st: O.Store :: Holds(old(repository.Value()), st) && KeyOf(st.job) == (tenant, id) ==>
                r == Returned(O.ServiceAdd(st, command, newId).1)
                && Holds(repository.Value(), O.ServiceAdd(st, command, newId).0)
      ensures OthersKept(old(repository.Value()), repository.Value(), (tenant, id))
    {
      var record := EvidenceRecord(newId, command);
      var added := repository.AddEvidenceTo(tenant, id, record);
      r := if added.JobNotFound? then Raised(NO_SUCH_JOB) else Returned(record);
    }

    method RecordFindings(tenant: string, id: Id, records: seq<FindingRecord>) returns (r: Outcome<()>)
      modifies repository
      ensures Find(old(repository.jobs), (tenant, id)).None? ==>
                r == Raised(NO_SUCH_JOB) && repository.Value() == old(repository.Value())
      ensures forall st: O.Store :: Holds(old(repository.Value()), st) && KeyOf(st.job) == (tenant, id) ==>
                r.Returned? && Holds(repository.Value(), st.(findings := records))
      ensures OthersKept(old(repository.Value()), repository.Value(), (tenant, id))
    {
      var replaced := repository.Replace(tenant, id, records);
      r := if replaced.JobNotFound? then Raised(NO_SUCH_JOB) else Returned(());
    }
  }

  const NO_SUCH_JOB := Error("JobNotFoundError", "no such job")

  lemma {:induction false} FindIsKeyed(jobs: seq<Job>, key: Key)
    ensures Find(jobs, key).Some? ==> KeyOf(Find(jobs, key).value) == key
  {
    if jobs != [] {
      FindIsKeyed(jobs[1..], key);
    }
  }
}
