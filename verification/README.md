# Research platform: a verified model

A Dafny model of the durable research-job platform in `src/research_platform`, and proofs of
what it promises over whole runs. `dafny verify dfyconfig.toml` checks all of it.

- **Job protocol** (`JobModel`, `Orchestration`, `OrchestrationRun`, `JobProtocol`,
  `JobPublication`, `Redelivery`, `VerifiedRuns`, `ReviewSignals`, `JobRepository`,
  `RepositoryHistory`, `JobService`). One job is driven through the status table with a
  bounded review loop. A `World` holds every answer a run can get, so a statement over all worlds is one
  over all mixes of results, failures and decisions; a `Port` says how often each write is
  delivered. The imperative class `ResearchRun` is proved equal to the function the theorems
  are about, and each method of `InMemoryJobRepository` to the operation that
  `RepositoryHistory` and `JobRepository` describe.
- **Governed gateway and limits** (`Capabilities`, `Gateway`, `GatewayAudit`, `GatewayRun`,
  `ConcurrentGateway`, `UninterruptedCalls`, `Breaker`, `RateLimiter`, `Budgets`). A call passes resolve, policy, approval, budget and
  circuit, and leaves one audit record. Each limiter has a closed form over its history, and
  all three are compared with their scripts over a shared store.
- **Evidence chain** (`TextForms`, `Provenance`, `EvidenceChain`, `Publication`,
  `Publishing`). From a tool's reply to the task's ledger, the verified claim, the stored
  record, the citation and the published status.
- **Algorithms** (`DependencyGraph`, `TaskOrder`, `Utf8`, `Sanitizer`, `Artifacts`,
  `AgentContract`, `Sorting`).

Points where the code decides, whatever one might expect of it:

- HALF_OPEN does not limit callers to one probe; only OPEN refuses.
- A call refused by an open circuit has already spent a tool call.
- A result that had to be cut is audited as FAILED and still returned and entered in the
  ledger, although the ledger's documentation speaks of successful calls: evidence comes from
  allowed and executed calls.
- An executor that raises anything but an upstream error, or one without an error class,
  spends a call and leaves no record; `SpendingIsAudited` counts those calls and
  `SomeCallEscapes` is one.
- A publish step that raises after storing its record can leave a publication that disagrees
  with the job: `PublicationCanDisagree` is a PARTIAL job with a complete one,
  `PartialPublicationOfFailedJob` the FAILED job with a partial one that the shipped publish
  step can leave, and `CompletionIsPublished` says exactly when the two agree.
- A findings write that raises while the job is under review can only fail the job, even for a
  spent budget: the table has no way from REVIEW_REQUIRED to PARTIAL.
- What a collection round leaves unmet replaces what the rounds before left unmet.

Assumptions, beyond those written as `requires`: every service and repository operation and
every script is one atomic step, and so is every gateway call outside `ConcurrentGateway`;
generated identifiers are new; clocks do not go back, and `acquire` and `record_failure` may
read theirs twice; a status write the table allows lands, while evidence, findings and publish
writes may raise, landed or not; tokens, money and time are naturals and reals; hashes and
argument digests are functions about which nothing is assumed, collision freedom included.

## Model

| member | source | states |
|---|---|---|
| `JobProtocol.EveryRunEnds` | src/research_platform/workflow/orchestration.py:168-356 | For every mix of agent results and failures, reviewer decisions, evidence and findings writes that raise (landed or not) and publish results, and every delivery of the writes: the run stops in one terminal status, the one its world determines; the stored path follows the status table and is terminal only at its end; at most three reviews were opened, each answered before anything else happened; the job is COMPLETED or carries a non-empty reason; the only refused request is the failure handler asking for PARTIAL from PLANNING or REVIEW_REQUIRED; every stored record was submitted by a task; and the outcome holds the job, and either the error's description alone or the report, if the run got to one, with the evidence stored |
| `JobProtocol.ReviewsAreOfContestedRounds` | src/research_platform/workflow/orchestration.py:279-323 | The review gate over every run: a reviewer is asked in exactly the rounds that were judged, stored and either had a coverage gap or a contradicted claim; the number of reviews in the path is exact, and every round before the deciding one was such a round and was sent back |
| `JobProtocol.NothingFoundIsLost` | src/research_platform/workflow/orchestration.py:359-394 | Whatever a task of any judged round submitted is, when the run ends, in the store under the same hash, source, call and task, however the writes were delivered |
| `JobProtocol.JobsSayWhatIsMissing` | src/research_platform/workflow/orchestration.py:325-356 | A run that got to its report and raised nothing leaves a job whose explanation is exactly what the deciding round left unmet, what the report omits and what it cites that was never stored, clipped to 1000 characters |
| `JobProtocol.ReportedFindings` | src/research_platform/workflow/orchestration.py:279-325 | Whenever a run reached REPORTING, the stored findings are the order-preserving join of the last analysis and the last critique, APPROVED if that critique had a coverage gap or a contradicted claim and NOT_REQUIRED otherwise, and each satisfies the rules of a finding |
| `JobProtocol.FailEnds` | src/research_platform/workflow/orchestration.py:220-245 | From every status that is not terminal, the failure handler finds a legal terminal one: PARTIAL for an error named BudgetExhausted where the table allows it, FAILED for any error whose description does not begin so; the outcome and the stored reason are that description; it is refused once, exactly when it asks for PARTIAL where that is not allowed |
| `JobProtocol.RoundsEnd` | src/research_platform/workflow/orchestration.py:277-356 | The review loop, from any cycle, ends as the deciding round says, with the number of reviews opened counted exactly, whichever findings or evidence writes raise on the way |
| `JobProtocol.CollectStores` | src/research_platform/workflow/orchestration.py:359-394 | A collection round raises exactly when one of its evidence writes does, with the first one's error; it changes nothing in the store but its evidence, and when it returns the ids it reports are the ids it added |
| `JobProtocol.CollectReports` | src/research_platform/workflow/orchestration.py:377-394 | A round that returns reports every submitted record as it was stored, in task order, and what each task left unmet, in task order: all it was asked for (or its objective) when it raised, what it says otherwise; nothing exactly when every task met its all |
| `JobProtocol.LegalMove` | src/research_platform/domain/models.py:155-172 | A move the table allows lands on every port, however often it is delivered, and appends one status to the path |
| `JobProtocol.MoveLands` | src/research_platform/workflow/activities.py:307-324 | Delivering an allowed transition any number of times stores it once |
| `JobProtocol.MoveRefused` | src/research_platform/workflow/activities.py:320-324 | Delivering a refused transition any number of times stores nothing and reports the refusal |
| `JobProtocol.SaveStores` | src/research_platform/workflow/activities.py:326-346 | However often it is delivered, a save raises exactly when its attempts are spent, landed or not; otherwise an activity answers with a record already stored under the same hash, source, call and task if there is one, and any other save adds exactly the command under one new id |
| `JobProtocol.RecordStores` | src/research_platform/workflow/activities.py:348-353 | However often it is delivered, recording findings raises exactly when its attempts are spent; when it lands it leaves exactly the derived findings, under generated ids |
| `JobProtocol.OnlyTheLastIsTerminal` | src/research_platform/domain/models.py:31-45 | On a path that follows the status table and ends terminal, no earlier status is terminal |
| `JobPublication.CompletionIsPublished` | src/research_platform/workflow/orchestration.py:325-356 | With a publish step, a job ends COMPLETED exactly when it got to its report, publishing worked, every citation names evidence stored in the run, the last collection round left nothing unmet and no omission is declared; then the publication was stored before the final status. A publication is stored exactly when the run got a report and the publish step stores one; it is partial exactly when the job ends PARTIAL, if and only if the publish step did not raise after storing it, or raised a spent budget for an incomplete report or another error for a complete one |
| `JobPublication.PublicationDescribesReport` | src/research_platform/workflow/publishing.py:218-230 | A stored publication names the report's hash, is partial exactly when the report lacks something, and is as restricted as the strictest record behind it and no more: the report as the records it cites, the manifest as everything stored |
| `JobPublication.PublicationCanDisagree` | src/research_platform/workflow/orchestration.py:345-356 | A concrete run in which publishing runs out of budget after storing a complete publication: the job ends PARTIAL, so the condition above cannot be dropped |
| `JobPublication.PartialPublicationOfFailedJob` | src/research_platform/workflow/orchestration.py:345-356 | In every run whose report declares omissions and whose publish step stores its record and then raises anything but a spent budget, the job ends FAILED with a partial publication |
| `Redelivery.RedeliveryIsHarmless` | src/research_platform/workflow/activities.py:288-353 | Delivering every persistence activity any number of times before the next step gives the same outcome, status path, evidence, publication and port calls as the plain service performing each write once, and the same findings up to generated ids, whichever evidence and findings writes raise in the end |
| `Redelivery.NewEvidenceIsNew` | src/research_platform/workflow/activities.py:338-346 | No record a task submits has the identity of a record stored before it |
| `VerifiedRuns.VerifiedRunHasGeneratedIds` | src/research_platform/workflow/activities.py:154-188 | Submissions verified against a new ledger per activity carry their task's id and never share a call between rounds, which is what redelivery needs |
| `VerifiedRuns.VerifiedRunsMayBeRedelivered` | src/research_platform/workflow/activities.py:288-353 | Redelivery changes nothing in any run whose evidence was verified |
| `VerifiedRuns.CompletedReportsCiteToolOutput` | src/research_platform/workflow/orchestration.py:325-356 | In every verified run that ends COMPLETED, each id the report cites is the id of a stored record that quotes the output of an allowed and executed call of the task that submitted it |
| `OrchestrationRun.ResearchRun.Transition` | src/research_platform/workflow/orchestration.py:61-63 | The delivery loop of a status write is the specified move |
| `Orchestration.ResearcherTasksInPlanOrder` | src/research_platform/workflow/orchestration.py:259-266 | The tasks of a run are exactly the plan's tasks for researchers, in its order, with their objectives and requirements |
| `OrchestrationRun.ResearchRun.AddEvidence` | src/research_platform/workflow/activities.py:326-346 | The delivery loop of an evidence write is the specified save, raising or not |
| `OrchestrationRun.ResearchRun.RecordFindings` | src/research_platform/workflow/orchestration.py:132-141 | Deriving and storing findings is the specified record step |
| `OrchestrationRun.ResearchRun.CollectEvidence` | src/research_platform/workflow/orchestration.py:359-394 | The loop over tasks and records is the specified collection round |
| `OrchestrationRun.ResearchRun.PublishReport` | src/research_platform/workflow/orchestration.py:345-351 | The publish call is the specified one, including a step that breaks after recording |
| `OrchestrationRun.ResearchRun.Report` | src/research_platform/workflow/orchestration.py:325-356 | Everything after the review loop is the specified ending |
| `OrchestrationRun.ResearchRun.RunPipeline` | src/research_platform/workflow/orchestration.py:248-356 | The pipeline with its review loop is the specified run |
| `OrchestrationRun.ResearchRun.RunResearchJob` | src/research_platform/workflow/orchestration.py:168-197 | The whole run, failure handler included, is the function every theorem above is about |
| `ReviewSignals.MailboxHolds` | src/research_platform/workflow/research_workflow.py:257-289 | On every interleaving, the mailbox holds exactly the decisions submitted since the open review opened, and is closed and empty when no review is open |
| `ReviewSignals.EveryReviewGetsItsFirstDecision` | src/research_platform/workflow/research_workflow.py:257-289 | Every review is answered by the first decision submitted after it opened |
| `ReviewSignals.NoDecisionAnswersTwice` | src/research_platform/workflow/research_workflow.py:134-136 | No decision answers two reviews or one opened after it was submitted |
| `ReviewSignals.RunsHavePossibleHistories` | src/research_platform/workflow/orchestration.py:290-310 | Every run opens and answers reviews in turn, so every interleaving of its steps with signals is one the mailbox results hold for |
| `ReviewSignals.RunsActOnFirstDecisions` | src/research_platform/workflow/research_workflow.py:257-289 | Whatever signals arrive during a run, each decision it acts on is the first one submitted after the review it answers had opened |
| `ReviewSignals.ReviewDesk.Transition` | src/research_platform/workflow/research_workflow.py:158-162 | A review opens exactly when REVIEW_REQUIRED is requested |
| `ReviewSignals.ReviewDesk.SubmitReviewerDecision` | src/research_platform/workflow/research_workflow.py:281-289 | A signal is kept exactly while a review is open |
| `ReviewSignals.ReviewDesk.TakeDecision` | src/research_platform/workflow/research_workflow.py:257-279 | The oldest decision is taken and the mailbox closed and emptied |
| `Publication.DerivedFinding` | src/research_platform/application/publication.py:46-83 | A derived finding always satisfies the finding rules, keeps the proposal's claim, evidence, calculations and confidence, names every conflict of the analyst and the critic that does not support it, once and in the order first named, and is SUPPORTED exactly when the last verdict on its claim is SUPPORTED and nothing contradicts it |
| `Publication.VerdictIsTheLastWord` | src/research_platform/application/publication.py:55-58 | The verdict joined to a claim is the one after which no other names it, and there is none exactly when no verdict does |
| `Publication.DerivedFindingsAreValid` | src/research_platform/domain/models.py:252-260 | Building the findings of an analysis never raises: each has a claim and support, no evidence both for and against, and no contradiction where it is SUPPORTED |
| `Publication.DeriveFindings` | src/research_platform/application/publication.py:55-83 | The loop computes the join, in the analyst's order |
| `Publication.NothingMissing` | src/research_platform/workflow/orchestration.py:327-344 | There is no shortfall exactly when nothing is unmet, nothing was omitted and every citation is recorded |
| `Publication.ShortfallsInOrder` | src/research_platform/workflow/orchestration.py:327-344 | The shortfalls are the unmet requirements and then the omissions, in the order given, and then exactly the citations never recorded, once each and in ascending order |
| `Publication.ExplanationJoins` | src/research_platform/workflow/orchestration.py:337-353 | Each shortfall is explained in its own words, and the explanations of two lists are joined by a semicolon and a space |
| `Publication.ExplanationSaysSomething` | src/research_platform/workflow/orchestration.py:352-353 | A job with shortfalls gets a non-empty explanation |
| `Publication.PublicationClassesCover` | src/research_platform/workflow/publishing.py:223-228 | A reader cleared for the report is cleared for every record it cites, and for the manifest for every record listed |
| `Publication.PublicationClassesAreHeld` | src/research_platform/workflow/publishing.py:218-230 | Each class of a publication is held by a record it stands on, or is PUBLIC; hash and partial flag are the report's |
| `JobModel.MostRestrictive` | src/research_platform/domain/models.py:231-233 | The class returned covers every class given and is one of them, or PUBLIC for none |
| `JobModel.ClearanceTable` | src/research_platform/domain/models.py:69-78 | RESTRICTED covers everything, INTERNAL all but RESTRICTED, PUBLIC itself alone |
| `JobModel.StatusTable` | src/research_platform/domain/models.py:31-45 | The allowed moves and the terminal statuses, one by one |
| `JobModel.RefusedFindings` | src/research_platform/domain/models.py:243-260 | A finding is refused exactly for a missing claim or support, too many calculations, a confidence out of range, evidence both for and against, or a contradiction of a SUPPORTED claim |
| `JobRepository.TenantsAreIsolated` | src/research_platform/application/jobs.py:72-174 | For every run of operations over any mix of tenants, the answers one tenant gets are those of the run with all other tenants' operations deleted |
| `JobRepository.OwnOperation` | src/research_platform/application/jobs.py:83-174 | A tenant's operation is answered from, and changes, only that tenant's entries |
| `JobRepository.OthersAreInvisible` | src/research_platform/application/jobs.py:83-174 | Another tenant's operation leaves a tenant's entries as they were |
| `RepositoryHistory.ListingIsTheTenantsJobs` | src/research_platform/application/jobs.py:95-98 | After any run of operations, a listing is exactly the jobs the tenant added, each as last stored, newest first, ties in the order they were added |
| `RepositoryHistory.TrailIsTheFirstDeliveries` | src/research_platform/application/jobs.py:119-139 | After any run of operations, a job's trail is the first delivery of each of its records, oldest call first, ties as delivered |
| `RepositoryHistory.ReadsBack` | src/research_platform/application/jobs.py:83-174 | After any run of operations, reads of a job give it as last added or updated, the evidence added since it was known in order, the latest findings and the latest publication, and say so of a job never added |
| `RepositoryHistory.UnknownJobsAreRefused` | src/research_platform/application/jobs.py:100-169 | An update, evidence, findings or publication is refused exactly when its job was never added, and then nothing changes |
| `Sorting.SortIsStable` | src/research_platform/application/jobs.py:95-98 | Sorting distinct elements loses and adds nothing, orders them, and keeps ties as listed |
| `JobRepository.TrailCountsEachCallOnce` | src/research_platform/application/jobs.py:119-134 | However often and in whatever order audit records are delivered, the trail is their first deliveries, in order |
| `JobRepository.RedeliveredRecordsChangeNothing` | src/research_platform/application/jobs.py:119-134 | Delivering recorded calls again leaves the trail as it was |
| `JobService.ResearchJobService.Transition` | src/research_platform/application/jobs.py:208-217 | On the repository, a transition does to a job's stored state what the protocol's move does, refuses what it refuses, reports an unknown job, and leaves every other job as it was |
| `JobService.ResearchJobService.SaveEvidence` | src/research_platform/application/jobs.py:228-233 | Adding evidence refines the protocol's save, reports an unknown job, and leaves other jobs alone |
| `JobService.ResearchJobService.RecordFindings` | src/research_platform/application/jobs.py:246-255 | Recording findings refines the protocol's replacement, reports an unknown job, and leaves other jobs alone |
| `Gateway.ExecutedExactlyWhenGoverned` | src/research_platform/mcp/gateway.py:300-394 | Over every run under a monotone clock, the executor received exactly the calls whose caller is entitled to the capability (tenant, clearance and role written out), allowed by every policy engine, approved where approval is required, within budget and not refused by the circuit's closed form over the run's history; each job's counter and every circuit are determined by the run alone |
| `Gateway.OnlyTheEntitledAreServed` | src/research_platform/mcp/registry.py:71-101 | Over every run, every request the executor received came from one of its calls, unchanged, for the registered capability; its tenant is in scope or everybody's is, its clearance covers the data by the written-out table, its agent role is listed or, without one, a role is held; every engine allowed it; and a capability with side effects was approved for these very arguments |
| `Gateway.GuardsArePermission` | src/research_platform/mcp/gateway.py:312-337 | The three stateless guards pass exactly when the capability is registered, the caller's tenant, clearance and role entitle it, no engine objects and, where required, a granted unexpired approval names the same server, capability and argument digest |
| `Gateway.CircuitCheck` | src/research_platform/mcp/gateway.py:347-350 | The circuit lets a call through exactly when its closed form over the history is not OPEN; HALF_OPEN lets every caller through |
| `GatewayAudit.SpendingIsAudited` | src/research_platform/mcp/gateway.py:139-157 | Over every run, a job's tool calls are its ALLOW records minus those DENIED for budget plus calls whose answer escaped unrecorded; they are also its executions plus the calls an open circuit refused; and they never exceed the budget |
| `ConcurrentGateway.ConcurrentSpendingIsAudited` | src/research_platform/mcp/gateway.py:300-394 | On every interleaving of the steps of any number of calls, at every moment: a job's tool calls are its ALLOW records minus those DENIED for budget, plus claimed calls not yet recorded, plus escaped ones; they are also its executions, plus calls an open circuit refused, plus claimed calls not yet sent; executions and counter never exceed the budget; once nothing is pending the atomic identity holds |
| `UninterruptedCalls.AtomicCallsAreAnInterleaving` | src/research_platform/mcp/gateway.py:300-394 | A call whose steps are not interrupted does exactly what the atomic gateway call does |
| `GatewayAudit.EscapesSpendUnrecorded` | src/research_platform/mcp/gateway.py:354-375 | After any run, a governed call whose executor crashes, or raises an unclassed error, spends one call and leaves no record |
| `GatewayAudit.SomeCallEscapes` | src/research_platform/mcp/gateway.py:354-375 | A concrete governed call whose answer escapes |
| `GatewayAudit.NothingEscapes` | src/research_platform/mcp/gateway.py:362-375 | When the executor raises only classed upstream errors, no call goes unrecorded |
| `GatewayAudit.EveryCallIsAudited` | src/research_platform/mcp/gateway.py:300-394 | Each call adds exactly the one record its guards and its execution call for, or none if the capability is not discoverable or its answer escapes; the record holds the arguments with exactly the sensitive ones redacted; a refused call is told every policy objection or the first guard it failed; a result is returned only for a governed call and holds the longest fitting prefix of the cleaned reply, whether or not it was cut |
| `GatewayAudit.TrailDescribesCalls` | src/research_platform/domain/invocations.py:70-75 | Over every run, each stored record describes one of its calls field by field: same argument names, every sensitive value replaced by "[redacted]", every other value as given, and the digest of the arguments as given |
| `GatewayAudit.DenialsAreFree` | src/research_platform/mcp/gateway.py:139-157 | A call recorded as DENY claims no budget, touches no circuit and never reaches the executor |
| `GatewayAudit.RecordsAreValid` | src/research_platform/domain/invocations.py:102-117 | After any run, the record built for a call breaks the rules of a tool invocation exactly when the call was governed and the executor raised an upstream error of class NONE |
| `GatewayRun.CapabilityGateway.Invoke` | src/research_platform/mcp/gateway.py:300-352 | The guard chain over the ledger and breaker objects does exactly what the specified call does |
| `GatewayRun.CapabilityGateway.Execute` | src/research_platform/mcp/gateway.py:354-394 | Executing, reporting to the breaker and recording are the specified execution |
| `GatewayRun.CapabilityGateway.Refuse` | src/research_platform/mcp/gateway.py:139-157 | A refusal is recorded as DENY only for a policy verdict |
| `Capabilities.OnlyPlannersSeeMore` | src/research_platform/mcp/registry.py:71-101 | A capability is executable, and permitted by the registry's policy, exactly for the callers entitled to it: tenant in scope, clearance by the table, agent listed or role held; it is visible to those and to planners within tenant and clearance, and to nobody else; and each refusal names the boundary that failed |
| `Capabilities.CapabilityRegistry.Register` | src/research_platform/mcp/registry.py:112-117 | A second capability of the same server and name is refused and changes nothing |
| `Capabilities.AllOf` | src/research_platform/mcp/opa.py:170-178 | The loop collects every refusal in order; the call is allowed exactly when no engine refused |
| `Capabilities.NoRefusals` | src/research_platform/mcp/opa.py:170-178 | The collected refusals are empty exactly when every verdict allows |
| `Capabilities.FirstRulingDecides` | src/research_platform/domain/approvals.py:60-90 | After any attempts to decide it, a pending request authorizes a call exactly when its first ruling granted it in time, the call is before its expiry, and server, capability, resource and digest match |
| `Capabilities.SanitizingRedacts` | src/research_platform/domain/invocations.py:70-75 | Sanitizing keeps the argument names, replaces exactly the sensitive values by "[redacted]", and passes the record's own check |
| `Capabilities.RefusedRecords` | src/research_platform/domain/invocations.py:102-117 | An audit record is refused exactly for an unredacted sensitive argument, an error class that does not fit its outcome, or a DENY that was not denied by policy |
| `Breaker.BreakerClosedForm` | src/research_platform/mcp/breaker.py:86-130 | For every history, the state is CLOSED below the threshold of failures since the last success, else OPEN until the cooldown after the last failure, else HALF_OPEN |
| `Breaker.LooksAreUnobservable` | src/research_platform/mcp/breaker.py:123-130 | Deleting every look from a history changes no answer |
| `Breaker.SharedBreakerAgrees` | src/research_platform/persistence/redis_state.py:257-298 | The scripts answer as the in-process breaker within a key lifetime of the last failure, and CLOSED after it |
| `Breaker.CircuitBreaker.StateOf` | src/research_platform/mcp/breaker.py:86-88 | Looking refreshes the circuit of a known server and remembers no new one |
| `Breaker.CircuitBreaker.EnsureClosed` | src/research_platform/mcp/breaker.py:95-101 | Refuses exactly an OPEN circuit |
| `Breaker.CircuitBreaker.RecordSuccess` | src/research_platform/mcp/breaker.py:103-105 | A success makes the circuit new |
| `Breaker.CircuitBreaker.RecordFailure` | src/research_platform/mcp/breaker.py:107-121 | A failure reopens a half-open circuit, or counts and opens at the threshold |
| `RateLimiter.RefusedExactlyWhenFull` | src/research_platform/mcp/servers/web_boundary.py:151-165 | A request is refused exactly when the window behind it holds `limit` grants, and otherwise told how many are left |
| `RateLimiter.NoWindowIsOverfull` | src/research_platform/mcp/servers/web_boundary.py:133-165 | Every half-open interval of one window's length holds at most `limit` grants of a key |
| `RateLimiter.SharedLimiterAgrees` | src/research_platform/persistence/redis_state.py:69-94 | Deleting a range of scores answers as popping the deque front, and the key's expiry changes no answer |
| `RateLimiter.SlidingWindowRateLimiter.Prune` | src/research_platform/mcp/servers/web_boundary.py:160-165 | The popping loop removes the old front |
| `RateLimiter.SlidingWindowRateLimiter.SlotsLeft` | src/research_platform/mcp/servers/web_boundary.py:147-149 | Answers how many slots are left |
| `RateLimiter.SlidingWindowRateLimiter.Claim` | src/research_platform/mcp/servers/web_boundary.py:151-158 | Grants and stamps a slot, or refuses and stores nothing |
| `Budgets.OvershootIsBounded` | src/research_platform/workflow/activities.py:115-132 | On every interleaving with at most k agent calls in flight, recorded prompt and completion tokens together never exceed max_tokens - 1 + k*c, and cost and time are bounded alike |
| `Budgets.OvershootIsReached` | src/research_platform/workflow/activities.py:115-132 | For every k and c some interleaving reaches that token bound exactly |
| `Budgets.NothingStartsOnceSpent` | src/research_platform/mcp/breaker.py:196-204 | Once a budget is spent it stays spent and no further call starts |
| `Budgets.BudgetLedger.ReserveCall` | src/research_platform/mcp/breaker.py:187-194 | Claims a call below the budget and refuses at it; the counter never passes the budget |
| `Budgets.BudgetLedger.EnsureWithin` | src/research_platform/mcp/breaker.py:196-204 | Refuses exactly when prompt plus completion tokens, cost or time have reached their limit, naming tokens before cost before time |
| `Budgets.SpentIsTheSumOfBills` | src/research_platform/mcp/breaker.py:206-227 | On every interleaving a job's record is the sum of the bills of its finished agent calls, and nothing else |
| `Budgets.SharedLedgerAgrees` | src/research_platform/persistence/redis_state.py:48-67 | While each write to a job comes within thirty days of the change before it, the reserve script answers as the in-process ledger; a later claim finds nothing spent |
| `Provenance.VerifyClaims` | src/research_platform/agents/provenance.py:152-194 | Accepted exactly when every claim quotes a call of the task, can be built into a record and repeats no hash; then one record per claim, in order, with the claim's title, author and date, the call's source and class, SECONDARY trust exactly for a web search, and the hash of its own excerpt; otherwise the whole submission is refused |
| `Provenance.DistinctHashes` | src/research_platform/agents/contracts.py:113-118 | An accepted submission's hashes are pairwise distinct, so its own validator never raises |
| `Provenance.SourceIsTheCalls` | src/research_platform/agents/provenance.py:64-76 | The source is the trimmed address of a fetch, the tenant's file path of a document, the repository of a GitHub call, and otherwise names the call and its argument digest; it is missing exactly for a fetch of a blank address |
| `Provenance.EvidenceLedger.Record` | src/research_platform/agents/provenance.py:109-118 | Enters the observation under the call's id |
| `EvidenceChain.EvidenceQuotesExecutedCalls` | src/research_platform/agents/provenance.py:152-194 | Every record of an accepted submission quotes the output of an allowed and executed call of the submitting task, with the source and class of that call and SECONDARY trust exactly for a web search; title, author and date are the claim's, and its hash is the hash of its own excerpt |
| `EvidenceChain.LedgerHoldsExecutedCalls` | src/research_platform/agents/tools.py:96-120 | In every run mixing all tasks' calls, each entry of a task's ledger is the reply of one of its own governed calls, audited as allowed, cut or not |
| `EvidenceChain.EveryReplyIsEntered` | src/research_platform/agents/tools.py:96-120 | And no reply is missing: every governed call made through one of the task's tools that was answered is in its ledger |
| `EvidenceChain.CapabilityTool.Run` | src/research_platform/agents/tools.py:96-131 | The tool enters exactly what comes back as a result, and raises only what escapes the gateway |
| `TextForms.NormalFormIsItsWords` | src/research_platform/agents/provenance.py:50-56 | Two texts normalize alike exactly when they have the same words, and a normal form is its own |
| `TextForms.NormalizeJoinsWithOneSpace` | src/research_platform/agents/provenance.py:50-56 | Whitespace between two texts becomes one space, or nothing at either end, and a text without whitespace is left as it is; which together determine the normal form |
| `TextForms.EmptyNormalForm` | src/research_platform/agents/provenance.py:50-56 | Only blank text normalizes to nothing |
| `Publishing.PublishedIsComplete` | src/research_platform/workflow/publishing.py:196-230 | Wherever publish attempts of any jobs stop, a job with a recorded publication has all four artifacts, and the recorded hash is that of the report a reader finds |
| `Publishing.ReadersFindTheLastAttempt` | src/research_platform/workflow/publishing.py:196-230 | Under each of the four names a reader finds what the last attempt that wrote it wrote, wherever attempts of any jobs stopped |
| `Publishing.RecordedWithTheLastReport` | src/research_platform/workflow/publishing.py:218-230 | A publication is recorded exactly for jobs with a complete attempt, with the hash of the last such attempt's report |
| `Publishing.PublicationActivities.Publish` | src/research_platform/workflow/publishing.py:196-230 | The four writes in order and the record last, stopping where the attempt does |
| `TaskOrder.ResolveExecutionOrder` | src/research_platform/domain/tasks.py:90-109 | Refused exactly for an unknown dependency or a cycle, with the matching error; otherwise a permutation ordered by round, then creation time, then position |
| `TaskOrder.DependenciesRunFirst` | src/research_platform/domain/tasks.py:98-109 | In the returned order every dependency stands before its task |
| `TaskOrder.OrderIsUnique` | src/research_platform/domain/tasks.py:98-109 | Only one list satisfies the description of the order |
| `TaskOrder.SortIsStable` | src/research_platform/domain/tasks.py:105-105 | Sorting a round by creation time is a permutation that keeps listed order on ties |
| `TaskOrder.ValidatePlan` | src/research_platform/agents/contracts.py:72-84 | A plan is accepted exactly when its dependencies exist and never lead back to their start |
| `TaskOrder.RejectCycles` | src/research_platform/agents/contracts.py:86-98 | A cycle is reported exactly when there is one |
| `DependencyGraph.RoundIsLongestChain` | src/research_platform/domain/tasks.py:98-109 | A task is placed within k rounds exactly when no dependency chain from it is longer than k |
| `DependencyGraph.StuckBuildsCycle` | src/research_platform/domain/tasks.py:103-104 | From a stuck set a cycle is built |
| `DependencyGraph.CycleIsNeverPlaced` | src/research_platform/domain/tasks.py:101-108 | No task on a cycle is ever placed |
| `Sanitizer.SanitizedResult` | src/research_platform/mcp/sanitizer.py:77-120 | Refused exactly for a limit that is not positive; otherwise the longest prefix of the cleaned text that fits the byte limit, with its exact size, whether anything was cut, and whether the text held a character nobody can see; sanitizing again changes nothing |
| `Sanitizer.StripKeepsThePrintable` | src/research_platform/mcp/sanitizer.py:77-85 | Stripping keeps exactly the printable characters, in order: character by character, control and format characters go and everything else stays |
| `Sanitizer.CollapseShortensRuns` | src/research_platform/mcp/sanitizer.py:103-104 | Each maximal run of three or more blanks becomes two spaces and a shorter one stays, whatever stands around it |
| `Sanitizer.CollapseKeepsUnblanked` | src/research_platform/mcp/sanitizer.py:103-104 | Text without blanks is left as it is |
| `Utf8.CutEncoding` | src/research_platform/mcp/sanitizer.py:106-110 | Cutting an encoding anywhere and ignoring the broken tail leaves the longest prefix that fits |
| `Utf8.DecodeEncoded` | src/research_platform/mcp/sanitizer.py:106-110 | Decoding inverts encoding |
| `Artifacts.KeyIsInjective` | src/research_platform/application/artifacts.py:30-44 | No two artifacts share a key |
| `Artifacts.KeysStayInPlace` | src/research_platform/application/artifacts.py:30-44 | A key is returned exactly for a tenant and a name whose every segment is short, begins with a letter or digit, holds safe characters only and never two dots in a row; it is then the tenant's prefix and the name |
| `Artifacts.SplitIsExact` | src/research_platform/application/artifacts.py:30-44 | The segments of a name hold no slash and, joined by slashes, are the name |
| `Artifacts.SegmentRoundTrip` | src/research_platform/application/artifacts.py:37-44 | Percent-decoding gives the tenant back |
| `Artifacts.SegmentIsOnePart` | src/research_platform/application/artifacts.py:37-44 | A tenant becomes one segment without slash or dot |
| `Artifacts.PrefixBelongsToOneTenant` | src/research_platform/application/artifacts.py:30-44 | No tenant's prefix begins another tenant's key |
| `Artifacts.ReadsBackLastWrite` | src/research_platform/application/artifacts.py:65-84 | Over every sequence of writes, a read finds exactly the last write under that tenant and name |
| `Artifacts.InMemoryArtifactStore.Put` | src/research_platform/application/artifacts.py:72-76 | Stores under the key, or refuses the name and stores nothing |
| `Artifacts.InMemoryArtifactStore.Get` | src/research_platform/application/artifacts.py:78-84 | The stored bytes, or why there are none |
| `AgentContract.FlowAndLoopAgree` | src/research_platform/agents/flow.py:88-135 | For every agent and every verifier, one whose verdict changes with the calls made between asks included, flow and loop accept the same answer after the same failures, and give up together after exactly max_attempts |
| `AgentContract.SettleIsFirstAnswer` | src/research_platform/agents/validation.py:70-100 | The result is the first answer not rejected, each failure fed back in turn, or giving up after exactly max_attempts |
| `AgentContract.SettleIsTheOnlyAnswer` | src/research_platform/agents/validation.py:70-100 | Nothing else satisfies that description |
| `AgentContract.BoundedSchemaCorrection.Resolve` | src/research_platform/agents/validation.py:70-100 | The loop computes it |
| `AgentContract.AgentContractFlow.JudgeAnswer` | src/research_platform/agents/flow.py:105-125 | Accept, send back, or stop once the attempts are spent |
| `AgentContract.AgentContractFlow.Kickoff` | src/research_platform/agents/flow.py:79-135 | The flow computes it |

## Left out

- HTTP routes, user interface, token verification, settings and wiring: input and output around the core.
- PostgreSQL, row-level security, MinIO, GitHub, Docker and Kubernetes backends, and the Open Policy Agent transport: foreign systems; the verdict of another policy engine is part of a call.
- Temporal, CrewAI and model calls: only their results, failures and deliveries. Cancellation of a workflow, deliveries that arrive after a later step, and the race of `record_checkpoint` with a transition are outside the atomic-step assumption.
- Redelivery.RedeliveryIsHarmless: covers the three persistence activities; the publish activity re-reads its sources through the gateway, so delivering it again adds audited calls. Publishing.PublishedIsComplete covers its writes.
- JobProtocol.EveryRunEnds: a status write that raises although the table allows it is excluded: the statement is for a store that accepts legal moves; the usage figures stored with a status and the unwrapping of an activity failure's cause are not modelled; an error is its class name and message. Researchers run in parallel in the source; the model takes their results in task order, as the code stores them.
- Breaker.SharedBreakerAgrees: needs consecutive failures of a streak to fall within the key's lifetime of a day; after it the shared form has forgotten the streak.
- RateLimiter.SharedLimiterAgrees: compares histories in which each `acquire` read its clock once, as a script does; the in-process limiter's own theorems allow two readings. Members of the sorted set are distinct tokens, so only scores are kept.
- Budgets.SharedLedgerAgrees: needs each write to a job within the key's thirty days; outages of the shared store (`LimitStoreUnavailable`), which the gateway refuses and audits, are not modelled.
- Sanitizer.SanitizedResult: injection patterns and their flags are not modelled; Unicode category Cf is a parameter that does not hold the space.
- Gateway.ExecutedExactlyWhenGoverned: takes calls one after another; over interleaved calls the accounting is proved, not which call a shared circuit lets through. An approval's job and tenant are not checked by the code and so not by the model; durations, spans, metrics and an audit sink that fails are left out.
- EvidenceChain.CapabilityTool.Run: the unwrapping of generic arguments, the job id added to `evidence.retrieve` and the notice on suspicious content are left out.
- GatewayAudit.TrailDescribesCalls: which argument names are sensitive is a parameter, not the list of `domain/invocations.py`.
- TextForms.NormalFormIsItsWords: Unicode composition (NFC) is taken as done.
- Provenance.VerifyClaims: upper length limits of fields, URL parsing of sources and the wording of the collected problems are not modelled.
- Publishing.PublishedIsComplete: document contents other than the report's hash, source re-reads and drift notes are opaque bytes; a job's deliveries carry the same report, as a redelivered activity does.
- TaskOrder.ResolveExecutionOrder: task ids are distinct, which the code needs of its caller; errors name no ids. Task states and retries are a table lookup and were left out.
- Sentence and citation parsing of report sections: a report is given by the set of ids it cites.
- SQL parsing, sandbox screening, URL, path and repository boundaries, scoring, price arithmetic and evaluation: pattern lists and single-function arithmetic.
