/** The domain records and rules of src/research_platform/domain/models.py. */
module JobModel {
  import opened Basics

  datatype JobStatus =
    | Created | Planning | Researching | Analyzing | ReviewRequired | Reporting
    | Completed | Failed | Partial

  /** The status table: which statuses may follow `s`. */
  function Allowed(s: JobStatus): set<JobStatus> {
    match s
    case Created => {Planning, Failed}
    case Planning => {Researching, Failed}
    case Researching => {Analyzing, Partial, Failed}
    case Analyzing => {ReviewRequired, Reporting, Partial, Failed}
    case ReviewRequired => {Researching, Reporting, Failed}
    case Reporting => {JobStatus.Completed, Partial, Failed}
    case Completed => {}
    case Failed => {}
    case Partial => {}
  }

  predicate Terminal(s: JobStatus) {
    Allowed(s) == {}
  }

  /** The status table, move by move. */
  lemma StatusTable(s: JobStatus, t: JobStatus)
    ensures t in Allowed(s) <==>
            (s, t) in {(Created, Planning), (Planning, Researching), (Researching, Analyzing),
                       (Analyzing, ReviewRequired), (Analyzing, Reporting), (ReviewRequired, Researching),
                       (ReviewRequired, Reporting), (Reporting, JobStatus.Completed)}
            || (t == Failed && !Terminal(s)) || (t == Partial && s in {Researching, Analyzing, Reporting})
    ensures Terminal(s) <==> s in {JobStatus.Completed, Failed, Partial}
  {
  }

  const STATUS_DETAIL_LIMIT := 1000

  /** A job row. An empty `detail` is the absent explanation. */
  datatype Job = Job(tenant: string, id: Id, createdAt: int, status: JobStatus, detail: string)

  /** `ResearchJob.transition_to`: refuse a move the table does not list. */
  function TransitionTo(job: Job, target: JobStatus, detail: string): (r: Option<Job>) {
    if target in Allowed(job.status)
    then Some(job.(status := target, detail := Clip(detail)))
    else None
  }

  function Clip(detail: string): (r: string)
    ensures r <= detail && |r| == if |detail| > 1000 then 1000 else |detail|
  {
    if |detail| > STATUS_DETAIL_LIMIT then detail[..STATUS_DETAIL_LIMIT] else detail
  }

  datatype AgentRole = Planner | Researcher | Analyst | Critic | Reporter

  datatype TrustLevel = Primary | Secondary | Unverified

  datatype AccessClass = Public | Internal | Restricted

  function Rank(c: AccessClass): nat {
    match c
    case Public => 0
    case Internal => 1
    case Restricted => 2
  }

  predicate ClearanceCovers(clearance: AccessClass, required: AccessClass) {
    Rank(clearance) >= Rank(required)
  }

  /** The table, written out: PUBLIC is open to all, INTERNAL to two classes, RESTRICTED to one. */
  lemma ClearanceTable(clearance: AccessClass, required: AccessClass)
    ensures ClearanceCovers(clearance, required) <==>
            (required == Internal ==> clearance != Public) && (required == Restricted ==> clearance == Restricted)
  {
  }

  /** `most_restrictive`: the highest class among those given, public when there are none. */
  function MostRestrictive(classes: seq<AccessClass>): (r: AccessClass)
    ensures forall c :: c in classes ==> ClearanceCovers(r, c)
    ensures r in classes || (classes == [] && r == Public)
  {
    if classes == [] then Public
    else
      var rest := MostRestrictive(classes[1..]);
      assert classes == [classes[0]] + classes[1..];
      if |classes| == 1 || Rank(classes[0]) >= Rank(rest) then classes[0] else rest
  }

  datatype EvidenceCreate = EvidenceCreate(
    excerpt: string, sourceUri: string, title: string, author: string, publishedAt: Option<int>,
    trust: TrustLevel, access: AccessClass, contentHash: string, taskId: Id, invocationId: Id)

  datatype EvidenceRecord = EvidenceRecord(id: Id, content: EvidenceCreate)

  /** The ids of a list of evidence records. */
  function IdsOf(records: seq<EvidenceRecord>): set<Id> {
    set e | e in records :: e.id
  }

  lemma IdsOfConcat(a: seq<EvidenceRecord>, b: seq<EvidenceRecord>)
    ensures IdsOf(a + b) == IdsOf(a) + IdsOf(b)
  {
    assert forall e :: e in a + b <==> e in a || e in b;
  }

  datatype CriticVerdict = Pending | Supported | Unsupported | Contradicted

  datatype ReviewerStatus = NotRequired | AwaitingReview | Approved | Rejected

  datatype Finding = Finding(
    claim: string, supporting: seq<Id>, contradicting: seq<Id>, calculations: seq<Id>,
    confidence: real, verdict: CriticVerdict, reviewer: ReviewerStatus)

  /** What constructing a `Finding` checks; a finding that fails it raises. */
  predicate ValidFinding(f: Finding) {
    && f.claim != ""
    && f.supporting != []
    && |f.calculations| <= 50
    && 0.0 <= f.confidence <= 1.0
    && Elements(f.supporting) !! Elements(f.contradicting)
    && (f.verdict == Supported ==> f.contradicting == [])
  }

  /** The constructor refuses a finding with no claim or support, a figure out of range, or evidence at odds with it. */
  lemma RefusedFindings(f: Finding)
    ensures !ValidFinding(f) <==>
            || f.claim == "" || f.supporting == [] || |f.calculations| > 50 || f.confidence < 0.0 || f.confidence > 1.0
            || (exists id :: id in f.supporting && id in f.contradicting)
            || (f.verdict == Supported && f.contradicting != [])
  {
    if id :| id in f.supporting && id in f.contradicting {
      assert id in Elements(f.supporting) && id in Elements(f.contradicting);
    }
  }

  datatype FindingRecord = FindingRecord(id: Id, finding: Finding)

  datatype Publication = Publication(
    isPartial: bool, reportHash: string, reportClass: AccessClass, manifestClass: AccessClass)
}
