/**
 Runs whose researchers submit what the verifier made of their claims: why they may be
 redelivered, and what stands behind the citations of the reports they complete.
 */
module VerifiedRuns {
  import opened Basics
  import opened JobModel
  import opened Provenance
  import O = Orchestration
  import P = JobProtocol
  import R = Redelivery
  import G = Gateway
  import Chain = EvidenceChain

  /** What the i-th researcher returned in a round is what the verifier made of some claims. */
  ghost predicate ComesVerified(w: O.World, desk: Desk, round: nat, i: nat) {
    w.research(round, i).Returned? ==>
      exists claims :: Acceptable(desk, claims) && Matches(desk, claims, w.research(round, i).value.records)
  }

  /**
   Every submission of a run was verified at a desk of its own task, tasks have ids of their
   own, and no call is in the ledgers of two rounds: each research activity opens a new
   ledger, and every call gets a new id.
   */
  ghost predicate VerifiedRun(w: O.World, desks: (nat, nat) -> Desk) {
    && (forall i: nat, j: nat :: i != j ==> w.taskId(i) != w.taskId(j))
    && (forall round: nat, i: nat :: ComesVerified(w, desks(round, i), round, i) && desks(round, i).task == w.taskId(i))
    && (forall round: nat, round': nat, i: nat, j: nat ::
          round != round' ==> desks(round, i).ledger.Keys !! desks(round', j).ledger.Keys)
  }

  lemma VerifiedRecord(w: O.World, desks: (nat, nat) -> Desk, e: EvidenceCreate, round: nat, i: nat)
    requires VerifiedRun(w, desks) && P.From(w, e, round, i)
    ensures e.taskId == w.taskId(i) && e.invocationId in desks(round, i).ledger
  {
    var desk := desks(round, i);
    assert ComesVerified(w, desk, round, i);
    var records := w.research(round, i).value.records;
    var claims :| Acceptable(desk, claims) && Matches(desk, claims, records);
    var k :| 0 <= k < |records| && records[k] == e;
  }

  lemma VerifiedRunHasGeneratedIds(w: O.World, desks: (nat, nat) -> Desk)
    requires VerifiedRun(w, desks)
    ensures R.GeneratedIds(w)
  {
    forall e, round: nat, i: nat | P.From(w, e, round, i)
      ensures e.taskId == w.taskId(i)
    {
      VerifiedRecord(w, desks, e, round, i);
    }
    forall e, f, round: nat, round': nat, i: nat, j: nat |
      P.From(w, e, round, i) && P.From(w, f, round', j) && round != round'
      ensures e.invocationId != f.invocationId
    {
      VerifiedRecord(w, desks, e, round, i);
      VerifiedRecord(w, desks, f, round', j);
      assert desks(round, i).ledger.Keys !! desks(round', j).ledger.Keys;
    }
  }

  /** A run on verified evidence stores the same whether its writes are delivered once or many times. */
  lemma VerifiedRunsMayBeRedelivered(w: O.World, desks: (nat, nat) -> Desk, extra: nat -> nat, s: O.Sys)
    requires VerifiedRun(w, desks) && O.Fresh(s)
    ensures R.SameStep(O.Run(w, O.Direct, s), O.Run(w, O.Activities(extra), s))
  {
    VerifiedRunHasGeneratedIds(w, desks);
    R.RedeliveryIsHarmless(w, extra, s);
  }

  // ---------------------------------------------------------------- from citation to tool call

  /** The desk's ledger was filled by the gateway calls `steps`, made with tools of its task. */
  ghost predicate FilledBy(d: G.Deployment, desk: Desk, steps: seq<Chain.Step>, now: int) {
    && desk.ledger == Chain.After(d, steps).ledger
    && G.InOrder(Chain.CallsOf(steps), now)
    && forall step :: step in steps ==> Chain.Offered(d, desk.task, step)
  }

  /** The record quotes an allowed and executed call that some task made in some round. */
  ghost predicate Backed(d: G.Deployment, desks: (nat, nat) -> Desk, steps: (nat, nat) -> seq<Chain.Step>,
                         e: EvidenceCreate) {
    exists round: nat, i: nat, j, o :: Chain.Quotes(d, desks(round, i), steps(round, i), j, o, e)
  }

  lemma VerifiedIsBacked(w: O.World, d: G.Deployment, desks: (nat, nat) -> Desk, steps: (nat, nat) -> seq<Chain.Step>,
                         e: EvidenceCreate, round: nat, i: nat, now: int)
    requires P.From(w, e, round, i) && ComesVerified(w, desks(round, i), round, i)
    requires FilledBy(d, desks(round, i), steps(round, i), now) && !d.isFormat(' ')
    ensures Backed(d, desks, steps, e)
  {
    var desk, records := desks(round, i), w.research(round, i).value.records;
    var claims :| Acceptable(desk, claims) && Matches(desk, claims, records);
    var k :| 0 <= k < |records| && records[k] == e;
    hide Acceptable, Matches;
    Chain.EvidenceQuotesExecutedCalls(d, desk, steps(round, i), now, claims, records, k);
    hide Chain.Quotes;
  }

  /** The id is that of a stored record which quotes an allowed and executed call. */
  ghost predicate StandsOnACall(d: G.Deployment, desks: (nat, nat) -> Desk, steps: (nat, nat) -> seq<Chain.Step>,
                                evidence: seq<EvidenceRecord>, id: Id)
  {
    exists e :: e in evidence && e.id == id && Backed(d, desks, steps, e.content)
  }

  /**
   In every verified run that ends COMPLETED, however its writes were delivered, each id the
   report cites is the id of a stored record that quotes the output of an allowed and executed
   call of the task that submitted it.
   */
  lemma CompletedReportsCiteToolOutput(w: O.World, port: O.Port, s: O.Sys, d: G.Deployment, desks: (nat, nat) -> Desk,
                                       steps: (nat, nat) -> seq<Chain.Step>, now: (nat, nat) -> int)
    requires O.Fresh(s) && !d.isFormat(' ')
    requires forall round: nat, i: nat :: ComesVerified(w, desks(round, i), round, i)
    requires forall round: nat, i: nat :: FilledBy(d, desks(round, i), steps(round, i), now(round, i))
    ensures var store := O.Run(w, port, s).sys.store;
            store.job.status == JobStatus.Completed ==>
              && w.report.Returned?
              && forall id :: id in w.report.value.cited ==> StandsOnACall(d, desks, steps, store.evidence, id)
  {
    hide O.Run, Backed, ComesVerified, FilledBy;
    P.EveryRunEnds(w, port, s);
    var store := O.Run(w, port, s).sys.store;
    if store.job.status == JobStatus.Completed {
      CompletedIsComplete(w, store.evidence);
      forall id | id in w.report.value.cited
        ensures StandsOnACall(d, desks, steps, store.evidence, id)
      {
        var e :| e in store.evidence && e.id == id;
        var round, i :| P.From(w, e.content, round, i);
        VerifiedIsBacked(w, d, desks, steps, e.content, round, i, now(round, i));
      }
    }
  }

  lemma CompletedIsComplete(w: O.World, evidence: seq<EvidenceRecord>)
    requires P.ExpectedStatus(w, IdsOf(evidence)) == JobStatus.Completed
    ensures w.report.Returned?
    ensures forall id :: id in w.report.value.cited ==> exists e :: e in evidence && e.id == id
  {
    assert w.report.value.cited <= IdsOf(evidence);
  }
}
