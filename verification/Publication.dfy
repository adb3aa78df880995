/**
 Joining the analyst's proposals with the critic's verdicts, and deciding what a report
 still lacks: src/research_platform/application/publication.py and the report rules of
 src/research_platform/agents/contracts.py.
 */
module Publication {
  import opened Basics
  import opened JobModel

  datatype RawProposal = Proposal(
    claim: string, supporting: seq<Id>, contradicting: seq<Id>, calculations: seq<Id>, confidence: real)

  /** A proposal that passed its contract. */
  type ProposedFinding = p: RawProposal |
    && p.claim != "" && p.supporting != [] && |p.calculations| <= 20 && 0.0 <= p.confidence <= 1.0
    && Elements(p.supporting) !! Elements(p.contradicting)
    witness Proposal("claim", [0], [], [], 0.5)

  type Analysis = a: seq<ProposedFinding> | a != [] witness [Proposal("claim", [0], [], [], 0.5)]

  datatype RawVerdict = Verdict(claim: string, verdict: CriticVerdict, conflicting: seq<Id>)

  type ClaimVerdict = v: RawVerdict |
    v.verdict != Pending && (v.verdict == Contradicted ==> v.conflicting != [])
    witness Verdict("claim", Supported, [])

  datatype RawReview = Review(verdicts: seq<ClaimVerdict>, coverageGaps: seq<string>)

  type CriticReview = r: RawReview | r.verdicts != []
    witness Review([Verdict("claim", Supported, [])], [])

  predicate RequiresReviewer(review: CriticReview) {
    review.coverageGaps != [] || exists v :: v in review.verdicts && v.verdict == Contradicted
  }

  /** The verdict a claim ends with in the dictionary of verdicts: the last one given for it. */
  function VerdictFor(verdicts: seq<ClaimVerdict>, claim: string): (r: Option<ClaimVerdict>)
    ensures r.None? <==> forall v :: v in verdicts ==> v.claim != claim
    ensures r.Some? ==> r.value in verdicts && r.value.claim == claim
  {
    if verdicts == [] then None
    else
      var n := |verdicts| - 1;
      assert verdicts == verdicts[..n] + [verdicts[n]];
      if verdicts[n].claim == claim then Some(verdicts[n]) else VerdictFor(verdicts[..n], claim)
  }

  /** The i-th verdict is the last on the claim. */
  ghost predicate LastAt(verdicts: seq<ClaimVerdict>, claim: string, i: nat) {
    && i < |verdicts| && verdicts[i].claim == claim
    && forall j :: i < j < |verdicts| ==> verdicts[j].claim != claim
  }

  /** The critic's last word on a claim, if there is one. */
  ghost predicate LastWord(verdicts: seq<ClaimVerdict>, claim: string, verdict: Option<ClaimVerdict>) {
    if verdict.None? then forall i :: 0 <= i < |verdicts| ==> verdicts[i].claim != claim
    else exists i: nat :: LastAt(verdicts, claim, i) && verdicts[i] == verdict.value
  }

  lemma {:induction false} LastVerdict(verdicts: seq<ClaimVerdict>, claim: string) returns (i: nat)
    requires VerdictFor(verdicts, claim).Some?
    ensures LastAt(verdicts, claim, i) && verdicts[i] == VerdictFor(verdicts, claim).value
  {
    var n := |verdicts| - 1;
    if verdicts[n].claim == claim {
      i := n;
    } else {
      i := LastVerdict(verdicts[..n], claim);
      hide VerdictFor;
      assert forall j :: 0 <= j < n ==> verdicts[..n][j] == verdicts[j];
    }
  }

  lemma VerdictIsTheLastWord(verdicts: seq<ClaimVerdict>, claim: string)
    ensures LastWord(verdicts, claim, VerdictFor(verdicts, claim))
  {
    if VerdictFor(verdicts, claim).Some? {
      var i := LastVerdict(verdicts, claim);
    }
  }

  function Conflicting(p: ProposedFinding, verdict: Option<ClaimVerdict>): seq<Id> {
    p.contradicting + (if verdict.Some? then verdict.value.conflicting else [])
  }

  /** The ids not among `gone`, in order. */
  function Without(ids: seq<Id>, gone: seq<Id>): (r: seq<Id>)
    ensures forall x :: x in r <==> x in ids && x !in gone
  {
    if ids == [] then []
    else
      assert ids == [ids[0]] + ids[1..];
      (if ids[0] in gone then [] else [ids[0]]) + Without(ids[1..], gone)
  }

  lemma {:induction false} WithoutKeepsOrder(s: seq<Id>, ids: seq<Id>, gone: seq<Id>)
    requires InOrderOf(s, ids)
    ensures InOrderOf(s, Without(ids, gone))
  {
    hide Precedes;
    if ids != [] {
      WithoutKeepsOrder(s, ids[1..], gone);
      forall x | x in Without(ids[1..], gone)
        ensures Precedes(s, ids[0], x)
      {
        var j :| 0 <= j < |ids[1..]| && ids[1..][j] == x;
        assert ids[j + 1] == x;
      }
    }
  }

  lemma {:induction false} WithoutKeepsDistinct(ids: seq<Id>, gone: seq<Id>)
    requires Distinct(ids)
    ensures Distinct(Without(ids, gone))
  {
    if ids != [] {
      WithoutKeepsDistinct(ids[1..], gone);
    }
  }

  /** The finding one proposal becomes, before its constructor checks it. */
  function Join(p: ProposedFinding, verdict: Option<ClaimVerdict>, reviewer: ReviewerStatus): Finding {
    var contradicting := Without(Dedupe(Conflicting(p, verdict)), p.supporting);
    var given := if verdict.Some? then verdict.value.verdict else Pending;
    Finding(p.claim, p.supporting, contradicting, p.calculations, p.confidence,
            if given == Supported && contradicting != [] then Contradicted else given, reviewer)
  }

  /** `derive_findings`: one finding for each proposal, in the analyst's order. */
  function Derive(analysis: Analysis, review: CriticReview, reviewer: ReviewerStatus): seq<Finding> {
    seq(|analysis|, i requires 0 <= i < |analysis| =>
      Join(analysis[i], VerdictFor(review.verdicts, analysis[i].claim), reviewer))
  }

  /**
   The constructor never refuses a derived finding, no conflict is lost or repeated, those the
   analyst named come first, each in the order given, and a
   claim is stored as supported exactly when the critic's last word on it was "supported" and
   nothing contradicts it.
   */
  lemma DerivedFinding(analysis: Analysis, review: CriticReview, reviewer: ReviewerStatus, i: nat)
    requires i < |analysis|
    ensures |Derive(analysis, review, reviewer)| == |analysis|
    ensures var f := Derive(analysis, review, reviewer)[i];
            var verdict := VerdictFor(review.verdicts, analysis[i].claim);
            var conflicts := Elements(analysis[i].contradicting)
                             + (if verdict.Some? then Elements(verdict.value.conflicting) else {});
            && ValidFinding(f) && LastWord(review.verdicts, f.claim, verdict)
            && f.claim == analysis[i].claim && f.supporting == analysis[i].supporting
            && f.calculations == analysis[i].calculations && f.confidence == analysis[i].confidence
            && f.reviewer == reviewer
            && Elements(f.contradicting) == conflicts - Elements(f.supporting)
            && Distinct(f.contradicting)
            && InOrderOf(analysis[i].contradicting + (if verdict.Some? then verdict.value.conflicting else []),
                         f.contradicting)
            && (f.verdict == Supported <==>
                verdict.Some? && verdict.value.verdict == Supported && conflicts <= Elements(f.supporting))
            && (verdict.None? ==> f.verdict == Pending)
            && (verdict.Some? && verdict.value.verdict != Supported ==> f.verdict == verdict.value.verdict)
  {
    var verdict := VerdictFor(review.verdicts, analysis[i].claim);
    VerdictIsTheLastWord(review.verdicts, analysis[i].claim);
    hide VerdictFor, Dedupe, Without, Conflicting, Distinct, LastWord, InOrderOf;
    JoinedConflicts(analysis[i], verdict, reviewer);
    assert Derive(analysis, review, reviewer)[i] == Join(analysis[i], verdict, reviewer);
  }

  /** What contradicts a joined finding: everything the analyst or the critic named that does not support it, once. */
  lemma JoinedConflicts(p: ProposedFinding, verdict: Option<ClaimVerdict>, reviewer: ReviewerStatus)
    ensures var c := Join(p, verdict, reviewer).contradicting;
            var conflicts := Elements(p.contradicting)
                             + (if verdict.Some? then Elements(verdict.value.conflicting) else {});
            && Elements(c) == conflicts - Elements(p.supporting) && Distinct(c)
            && (c == [] <==> conflicts <= Elements(p.supporting))
            && InOrderOf(p.contradicting + (if verdict.Some? then verdict.value.conflicting else []), c)
  {
    var c, conflicting := Join(p, verdict, reviewer).contradicting, Conflicting(p, verdict);
    var conflicts := Elements(p.contradicting) + (if verdict.Some? then Elements(verdict.value.conflicting) else {});
    hide InOrderOf, Dedupe, Without;
    DedupeDistinct(conflicting);
    WithoutKeepsDistinct(Dedupe(conflicting), p.supporting);
    ConflictsInOrder(p, verdict, reviewer);
    forall id
      ensures id in c <==> id in conflicts && id !in p.supporting
    {
      ConflictMember(p, verdict, reviewer, id);
    }
    hide Distinct, Conflicting, Join;
    assert Elements(c) == conflicts - Elements(p.supporting);
    if c != [] {
      assert c[0] in Elements(c);
    }
  }

  lemma ConflictsInOrder(p: ProposedFinding, verdict: Option<ClaimVerdict>, reviewer: ReviewerStatus)
    ensures InOrderOf(p.contradicting + (if verdict.Some? then verdict.value.conflicting else []),
                      Join(p, verdict, reviewer).contradicting)
  {
    var conflicting := Conflicting(p, verdict);
    DedupeKeepsOrder(conflicting);
    WithoutKeepsOrder(conflicting, Dedupe(conflicting), p.supporting);
    hide Dedupe, Without, InOrderOf;
  }

  lemma ConflictMember(p: ProposedFinding, verdict: Option<ClaimVerdict>, reviewer: ReviewerStatus, id: Id)
    ensures id in Join(p, verdict, reviewer).contradicting <==>
            (id in p.contradicting || (verdict.Some? && id in verdict.value.conflicting)) && id !in p.supporting
  {
    hide Dedupe, Without;
  }

  lemma DerivedFindingsAreValid(analysis: Analysis, review: CriticReview, reviewer: ReviewerStatus)
    ensures forall f :: f in Derive(analysis, review, reviewer) ==> ValidFinding(f) && f.reviewer == reviewer
    ensures forall f :: f in Derive(analysis, review, reviewer) ==>
              && f.claim != "" && f.supporting != [] && |f.calculations| <= 20 && 0.0 <= f.confidence <= 1.0
              && (forall id :: id in f.supporting ==> id !in f.contradicting)
              && (f.verdict == Supported ==> f.contradicting == [])
  {
    forall i: nat | i < |analysis|
      ensures ValidFinding(Derive(analysis, review, reviewer)[i])
    {
      DerivedFinding(analysis, review, reviewer, i);
    }
  }

  /** The loop of `derive_findings`, which appends a checked finding for each proposal. */
  method DeriveFindings(analysis: Analysis, review: CriticReview, reviewer: ReviewerStatus)
    returns (findings: seq<Finding>)
    ensures findings == Derive(analysis, review, reviewer)
  {
    findings := [];
    for i := 0 to |analysis|
      invariant findings == Derive(analysis, review, reviewer)[..i]
    {
      var verdict := VerdictFor(review.verdicts, analysis[i].claim);
      findings := findings + [Join(analysis[i], verdict, reviewer)];
    }
  }

  datatype RawReport = Report(cited: set<Id>, isPartial: bool, omitted: seq<string>)

  /** A report that passed its contract: partial exactly when it says what is missing. */
  type ResearchReport = r: RawReport | r.isPartial <==> r.omitted != []
    witness Report({}, false, [])

  datatype Shortfall = Unmet(requirement: string) | Omitted(reason: string) | Unrecorded(id: Id)

  function ShortfallText(s: Shortfall): (r: string)
    ensures r != ""
  {
    match s
    case Unmet(requirement) => "unmet requirement: " + requirement
    case Omitted(reason) => "omitted: " + reason
    case Unrecorded(id) => "cites unrecorded evidence " + Digits(id)
  }

  function Digits(n: nat): string {
    (if n < 10 then "" else Digits(n / 10)) + ["0123456789"[n % 10]]
  }

  /** An explanation tells any two ids apart. */
  lemma {:induction false} DigitsTellApart(a: nat, b: nat)
    requires Digits(a) == Digits(b)
    ensures a == b
  {
    var x, y := Digits(a), Digits(b);
    assert x[|x| - 1] == "0123456789"[a % 10] && y[|y| - 1] == "0123456789"[b % 10];
    assert x[..|x| - 1] == (if a < 10 then "" else Digits(a / 10));
    assert y[..|y| - 1] == (if b < 10 then "" else Digits(b / 10));
    if a >= 10 && b >= 10 {
      DigitsTellApart(a / 10, b / 10);
    } else {
      SomeDigits(a / 10);
      SomeDigits(b / 10);
    }
  }

  lemma SomeDigits(n: nat)
    ensures Digits(n) != ""
  {
  }

  /** The explanation a partial job carries. */
  function Explain(shortfalls: seq<Shortfall>): string {
    JoinTexts(Texts(shortfalls))
  }

  function Texts(shortfalls: seq<Shortfall>): seq<string> {
    seq(|shortfalls|, i requires 0 <= i < |shortfalls| => ShortfallText(shortfalls[i]))
  }

  /** Each shortfall is explained in its own words, and explanations of two lists are joined by a semicolon. */
  lemma ExplanationJoins(a: seq<Shortfall>, b: seq<Shortfall>, text: string, id: Id)
    requires b != []
    ensures Explain(a + b) == if a == [] then Explain(b) else Explain(a) + "; " + Explain(b)
    ensures Explain([Unmet(text)]) == "unmet requirement: " + text
    ensures Explain([Omitted(text)]) == "omitted: " + text
    ensures Explain([Unrecorded(id)]) == "cites unrecorded evidence " + Digits(id)
  {
    assert Texts(a + b) == Texts(a) + Texts(b);
    JoinSeparates(Texts(a), Texts(b));
    hide JoinTexts;
    JoinSeparates([], [ShortfallText(Unmet(text))]);
    JoinSeparates([], [ShortfallText(Omitted(text))]);
    JoinSeparates([], [ShortfallText(Unrecorded(id))]);
  }

  lemma ExplanationSaysSomething(shortfalls: seq<Shortfall>)
    ensures Explain(shortfalls) != "" <==> shortfalls != []
  {
    if shortfalls != [] {
      assert Texts(shortfalls)[0] != "";
    }
  }

  /** `unsupported_citations`: what the report cites that was never recorded. */
  function UnsupportedCitations(report: ResearchReport, available: set<Id>): set<Id> {
    report.cited - available
  }

  predicate IsLeast(x: Id, ids: set<Id>) {
    x in ids && forall y :: y in ids ==> x <= y
  }

  lemma LeastExists(ids: set<Id>)
    requires ids != {}
    ensures exists x :: IsLeast(x, ids)
  {
    var x :| x in ids;
    assert forall y :: y in ids ==> y == x || y in ids - {x};
    if ids - {x} == {} {
      assert IsLeast(x, ids);
    } else {
      LeastExists(ids - {x});
      var m :| IsLeast(m, ids - {x});
      assert IsLeast(if x <= m then x else m, ids);
    }
  }

  /** A set of ids in ascending order. */
  function Sorted(ids: set<Id>): (r: seq<Id>)
    ensures Elements(r) == ids
  {
    if ids == {} then []
    else
      LeastExists(ids);
      var least :| IsLeast(least, ids);
      var rest := Sorted(ids - {least});
      assert forall x :: x in rest <==> x in Elements(rest);
      [least] + rest
  }

  /** Everything that keeps a report from being complete, in the order the job explains it. */
  function Shortfalls(unmet: seq<string>, report: ResearchReport, available: set<Id>): seq<Shortfall> {
    var missing := Sorted(UnsupportedCitations(report, available));
    seq(|unmet|, i requires 0 <= i < |unmet| => Unmet(unmet[i]))
    + seq(|report.omitted|, i requires 0 <= i < |report.omitted| => Omitted(report.omitted[i]))
    + seq(|missing|, i requires 0 <= i < |missing| => Unrecorded(missing[i]))
  }

  /** The ids in strictly ascending order: no id is named twice. */
  lemma {:induction false} SortedAscends(ids: set<Id>)
    ensures forall i, j :: 0 <= i < j < |Sorted(ids)| ==> Sorted(ids)[i] < Sorted(ids)[j]
  {
    if ids != {} {
      LeastExists(ids);
      var least := Sorted(ids)[0];
      assert IsLeast(least, ids);
      var rest := ids - {least};
      SortedAscends(rest);
      assert Sorted(ids) == [least] + Sorted(rest);
      assert forall x :: x in Sorted(rest) ==> x in Elements(Sorted(rest));
    }
  }

  /**
   A report falls short by every requirement left unmet, then every omission it admits, in the
   order given, then every citation never recorded, once each and in ascending order.
   */
  lemma ShortfallsInOrder(unmet: seq<string>, report: ResearchReport, available: set<Id>)
    ensures var s := Shortfalls(unmet, report, available);
            var n, m := |unmet|, |unmet| + |report.omitted|;
            && |s| >= m
            && (forall i :: 0 <= i < n ==> s[i] == Unmet(unmet[i]))
            && (forall i :: n <= i < m ==> s[i] == Omitted(report.omitted[i - n]))
            && (forall i :: m <= i < |s| ==> s[i].Unrecorded? && s[i].id in report.cited && s[i].id !in available)
            && (forall i, j :: m <= i < j < |s| ==> s[i].id < s[j].id)
            && (forall id :: id in report.cited && id !in available ==> Unrecorded(id) in s)
  {
    var missing := Sorted(UnsupportedCitations(report, available));
    var s, m := Shortfalls(unmet, report, available), |unmet| + |report.omitted|;
    ShortfallParts(unmet, report, available);
    SortedAscends(UnsupportedCitations(report, available));
    hide Sorted, Shortfalls;
    forall i | 0 <= i < |missing|
      ensures missing[i] in report.cited && missing[i] !in available
    {
      assert missing[i] in Elements(missing);
    }
    forall id | id in report.cited && id !in available
      ensures Unrecorded(id) in s
    {
      assert id in Elements(missing);
      Listed(missing, s, m, id);
    }
  }

  lemma ShortfallParts(unmet: seq<string>, report: ResearchReport, available: set<Id>)
    ensures var s, missing := Shortfalls(unmet, report, available), Sorted(report.cited - available);
            var n, m := |unmet|, |unmet| + |report.omitted|;
            && |s| == m + |missing|
            && (forall i :: 0 <= i < n ==> s[i] == Unmet(unmet[i]))
            && (forall i :: n <= i < m ==> s[i] == Omitted(report.omitted[i - n]))
            && (forall i :: m <= i < |s| ==> s[i] == Unrecorded(missing[i - m]))
  {
    hide Sorted;
  }

  lemma Listed(ids: seq<Id>, s: seq<Shortfall>, m: nat, id: Id)
    requires |s| == m + |ids| && (forall i :: m <= i < |s| ==> s[i] == Unrecorded(ids[i - m])) && id in ids
    ensures Unrecorded(id) in s
  {
    var i :| 0 <= i < |ids| && ids[i] == id;
    assert s[m + i] == Unrecorded(id);
  }

  lemma NothingMissing(unmet: seq<string>, report: ResearchReport, available: set<Id>)
    ensures Shortfalls(unmet, report, available) == []
            <==> unmet == [] && report.omitted == [] && report.cited <= available
  {
    var missing := Sorted(UnsupportedCitations(report, available));
    assert Elements(missing) == report.cited - available;
    assert missing == [] <==> report.cited <= available by {
      if missing == [] {
        assert forall x :: x in report.cited && x !in available ==> x in Elements(missing);
      } else {
        assert missing[0] in Elements(missing);
      }
    }
    assert |Shortfalls(unmet, report, available)| == |unmet| + |report.omitted| + |missing|;
  }

  /** The parts of `build_manifest` and of the publication record that later readers rely on. */
  function PublicationOf(report: ResearchReport, hash: string, shortfalls: seq<Shortfall>,
                         evidence: seq<EvidenceRecord>): (r: JobModel.Publication) {
    var cited := Filter((e: EvidenceRecord) => e.id in report.cited, evidence);
    JobModel.Publication(
      report.isPartial || shortfalls != [], hash,
      MostRestrictive(seq(|cited|, i requires 0 <= i < |cited| => cited[i].content.access)),
      MostRestrictive(seq(|evidence|, i requires 0 <= i < |evidence| => evidence[i].content.access)))
  }

  /** The record names the report's hash and is no stricter than a record it stands on, or public without one. */
  lemma PublicationClassesAreHeld(report: ResearchReport, hash: string, shortfalls: seq<Shortfall>,
                                  evidence: seq<EvidenceRecord>)
    ensures var p := PublicationOf(report, hash, shortfalls, evidence);
            && p.reportHash == hash && (p.isPartial <==> report.omitted != [] || shortfalls != [])
            && (p.manifestClass == Public || exists e :: e in evidence && e.content.access == p.manifestClass)
            && (p.reportClass == Public ||
                exists e :: e in evidence && e.id in report.cited && e.content.access == p.reportClass)
  {
    var cited := Filter((x: EvidenceRecord) => x.id in report.cited, evidence);
    var p := PublicationOf(report, hash, shortfalls, evidence);
    if p.manifestClass != Public {
      var all := seq(|evidence|, i requires 0 <= i < |evidence| => evidence[i].content.access);
      var i :| 0 <= i < |all| && all[i] == p.manifestClass;
      assert evidence[i] in evidence;
    }
    if p.reportClass != Public {
      var some := seq(|cited|, i requires 0 <= i < |cited| => cited[i].content.access);
      var i :| 0 <= i < |some| && some[i] == p.reportClass;
      assert cited[i] in cited;
    }
  }

  /** A reader cleared for the report is cleared for every record it cites, and likewise the manifest. */
  lemma PublicationClassesCover(report: ResearchReport, hash: string, shortfalls: seq<Shortfall>,
                                evidence: seq<EvidenceRecord>, e: EvidenceRecord)
    requires e in evidence
    ensures var p := PublicationOf(report, hash, shortfalls, evidence);
            && ClearanceCovers(p.manifestClass, e.content.access)
            && (e.id in report.cited ==> ClearanceCovers(p.reportClass, e.content.access))
            && ClearanceCovers(p.manifestClass, p.reportClass)
  {
    var cited := Filter((x: EvidenceRecord) => x.id in report.cited, evidence);
    var all := seq(|evidence|, i requires 0 <= i < |evidence| => evidence[i].content.access);
    var some := seq(|cited|, i requires 0 <= i < |cited| => cited[i].content.access);
    var i :| 0 <= i < |evidence| && evidence[i] == e;
    assert all[i] in all;
    if e.id in report.cited {
      assert e in cited;
      var j :| 0 <= j < |cited| && cited[j] == e;
      assert some[j] in some;
    }
    var p := PublicationOf(report, hash, shortfalls, evidence);
    if some != [] {
      var j :| 0 <= j < |some| && some[j] == p.reportClass;
      assert cited[j] in evidence;
      var k :| 0 <= k < |evidence| && evidence[k] == cited[j];
      assert all[k] in all;
    }
  }
}
