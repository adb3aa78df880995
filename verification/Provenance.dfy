/**
 From tool output to evidence: src/research_platform/agents/provenance.py and the part of
 src/research_platform/agents/tools.py that fills the ledger. Hashing and digests are
 functions taken as given; Unicode composition is taken as already done.
 */
module Provenance {
  import opened Basics
  import opened JobModel
  import opened TextForms
  import opened Capabilities
  import Orchestration

  // ---------------------------------------------------------------- what a call observed

  /** What one tool call returned, as the platform saw it. */
  datatype Observed = Observed(invocation: Invocation, capability: Capability, arguments: Arguments, text: string)

  type Ledger = map<Id, Observed>

  class EvidenceLedger {
    var observed: Ledger

    constructor ()
      ensures observed == map[]
    {
      observed := map[];
    }

    method Record(invocation: Invocation, capability: Capability, arguments: Arguments, text: string)
      modifies this
      ensures observed == old(observed)[invocation.id := Observed(invocation, capability, arguments, text)]
    {
      observed := observed[invocation.id := Observed(invocation, capability, arguments, text)];
    }

    method Get(id: Id) returns (o: Option<Observed>)
      ensures o == if id in observed then Some(observed[id]) else None
    {
      o := if id in observed then Some(observed[id]) else None;
    }
  }

  function Argument(arguments: Arguments, name: string): string {
    if name in arguments then arguments[name] else ""
  }

  function TrimLeft(s: string): string {
    if s != [] && IsSpace(s[0]) then TrimLeft(s[1..]) else s
  }

  function TrimRight(s: string): string {
    if s != [] && IsSpace(s[|s| - 1]) then TrimRight(s[..|s| - 1]) else s
  }

  function TrimSlashes(s: string): string {
    if s != [] && s[0] == '/' then TrimSlashes(s[1..]) else s
  }

  /** The first sixteen hexadecimal digits of a digest. */
  function ShortDigest(digest: string): string {
    var hex := if "sha256:" <= digest then digest[7..] else digest;
    if |hex| > 16 then hex[..16] else hex
  }

  /** `source_of`: where content came from, decided by the call that fetched it. */
  function SourceOf(digest: Arguments -> string, c: Capability, tenant: string, arguments: Arguments): string {
    if (c.server, c.name) == ("web-research", "fetch") then TrimRight(TrimLeft(Argument(arguments, "url")))
    else if (c.server, c.name) == ("filesystem", "read_document") then
      "workspace://" + tenant + "/" + TrimSlashes(Argument(arguments, "path"))
    else if c.server == "github" then
      "https://github.com/" + TrimRight(TrimLeft(Argument(arguments, "repository")))
    else c.server + "://" + c.name + "/" + ShortDigest(digest(arguments))
  }

  ghost predicate Blank(s: string) {
    forall i :: 0 <= i < |s| ==> IsSpace(s[i])
  }

  /** t is s without the whitespace around it, which is `before` and `after`. */
  ghost predicate Surrounds(s: string, t: string, before: string, after: string) {
    && s == before + t + after && Blank(before) && Blank(after)
    && (t != "" ==> !IsSpace(t[0]) && !IsSpace(t[|t| - 1]))
  }

  ghost predicate Trimmed(s: string, t: string) {
    exists before, after :: Surrounds(s, t, before, after)
  }

  /** t is s without the slashes it begins with. */
  ghost predicate Unrooted(s: string, t: string) {
    exists n: nat :: Rooted(s, t, n)
  }

  ghost predicate Rooted(s: string, t: string, n: nat) {
    && n <= |s| && s[n..] == t && (forall i :: 0 <= i < n ==> s[i] == '/') && (t != "" ==> t[0] != '/')
  }

  /**
   Where the content of a call came from: a page's address, a document's place in the tenant's
   workspace, a repository, or otherwise the exact call, by sixteen digits of its digest.
   */
  ghost predicate ComesFrom(digest: Arguments -> string, c: Capability, tenant: string, arguments: Arguments,
                            uri: string)
  {
    if c.server == "web-research" && c.name == "fetch" then Trimmed(Argument(arguments, "url"), uri)
    else if c.server == "filesystem" && c.name == "read_document" then
      exists path :: Unrooted(Argument(arguments, "path"), path) && uri == "workspace://" + tenant + "/" + path
    else if c.server == "github" then
      exists repository ::
        Trimmed(Argument(arguments, "repository"), repository) && uri == "https://github.com/" + repository
    else
      forall hex :: digest(arguments) == "sha256:" + hex && |hex| >= 16 ==>
        uri == c.server + "://" + c.name + "/" + hex[..16]
  }

  lemma {:induction false} TrimRightTrims(s: string) returns (after: string)
    ensures Blank(after) && s == TrimRight(s) + after
    ensures TrimRight(s) != "" ==> !IsSpace(TrimRight(s)[|TrimRight(s)| - 1])
  {
    if s != [] && IsSpace(s[|s| - 1]) {
      var n := |s| - 1;
      after := TrimRightTrims(s[..n]);
      assert s == TrimRight(s) + (after + [s[n]]);
      after := after + [s[n]];
    } else {
      after := "";
    }
  }

  lemma {:induction false} TrimTrims(s: string) returns (before: string, after: string)
    ensures Surrounds(s, TrimRight(TrimLeft(s)), before, after)
  {
    var t := TrimRight(TrimLeft(s));
    if s != [] && IsSpace(s[0]) {
      before, after := TrimTrims(s[1..]);
      hide TrimLeft, TrimRight;
      assert s == ([s[0]] + before) + t + after;
      before := [s[0]] + before;
    } else {
      after := TrimRightTrims(s);
      before := "";
      hide TrimRight;
      assert t != "" ==> t[0] == s[0];
    }
  }

  lemma {:induction false} SlashesGo(s: string) returns (n: nat)
    ensures Rooted(s, TrimSlashes(s), n)
  {
    if s != [] && s[0] == '/' {
      n := SlashesGo(s[1..]);
      hide TrimSlashes;
      assert s[1..][n..] == s[n + 1..];
      assert forall i :: 0 < i < n + 1 ==> s[i] == s[1..][i - 1];
      n := n + 1;
    } else {
      n := 0;
    }
  }

  /**
   A call's source says where its content came from, and an argument left out counts as empty;
   the source is missing only for a fetch of a blank address.
   */
  lemma SourceIsTheCalls(digest: Arguments -> string, c: Capability, tenant: string, arguments: Arguments)
    ensures forall name :: Argument(arguments, name) == if name in arguments then arguments[name] else ""
    ensures var uri := SourceOf(digest, c, tenant, arguments);
            && ComesFrom(digest, c, tenant, arguments, uri)
            && (uri == "" <==> c.server == "web-research" && c.name == "fetch" && Blank(Argument(arguments, "url")))
  {
    hide TrimLeft, TrimRight, TrimSlashes, ShortDigest, Surrounds, Rooted, Blank;
    var uri := SourceOf(digest, c, tenant, arguments);
    if c.server == "web-research" && c.name == "fetch" {
      var _, _ := TrimTrims(Argument(arguments, "url"));
      TrimmedIsEmpty(Argument(arguments, "url"), uri);
    } else if c.server == "filesystem" && c.name == "read_document" {
      var path := Argument(arguments, "path");
      var _ := SlashesGo(path);
      assert Unrooted(path, TrimSlashes(path));
      assert uri[0] == 'w';
    } else if c.server == "github" {
      var repository := Argument(arguments, "repository");
      var _, _ := TrimTrims(repository);
      assert Trimmed(repository, TrimRight(TrimLeft(repository)));
      assert uri[0] == 'h';
    } else {
      ShortDigestIsPrefix(digest(arguments));
      assert uri[0] == c.server[0];
    }
  }

  lemma ShortDigestIsPrefix(digest: string)
    ensures forall hex :: digest == "sha256:" + hex && |hex| >= 16 ==> ShortDigest(digest) == hex[..16]
  {
    forall hex | digest == "sha256:" + hex && |hex| >= 16
      ensures ShortDigest(digest) == hex[..16]
    {
      assert digest[..7] == "sha256:" && digest[7..] == hex;
    }
  }

  lemma TrimmedIsEmpty(s: string, t: string)
    requires Trimmed(s, t)
    ensures t == "" <==> Blank(s)
  {
    var before, after :| Surrounds(s, t, before, after);
    if t != "" {
      assert s[|before|] == t[0];
    }
  }

  function TrustOf(c: Capability): TrustLevel {
    if (c.server, c.name) == ("web-research", "search") then Secondary else Primary
  }

  // ---------------------------------------------------------------- claims

  datatype Claim = Claim(excerpt: NonEmpty, invocationId: Id, title: string, author: string, publishedAt: Option<int>)

  datatype RawClaims = Claims(claims: seq<Claim>, unmet: seq<string>)

  type EvidenceClaims = c: RawClaims | c.claims != [] witness Claims([Claim("-", 0, "", "", None)], [])

  /** What the verifier is given besides the claims: hashing, digests, the task's ledger, its id and the clock. */
  datatype Desk = Desk(hash: string -> string, digest: Arguments -> string, ledger: Ledger, task: Id, clock: nat -> int)

  function HashContent(desk: Desk, text: string): string {
    desk.hash(Normalize(text))
  }

  /** The claim names a call of this task whose output holds the excerpt. */
  predicate Traceable(desk: Desk, claim: Claim) {
    && claim.invocationId in desk.ledger
    && Occurs(Normalize(claim.excerpt), Normalize(desk.ledger[claim.invocationId].text))
  }

  /** The evidence record of a traceable claim. */
  function RecordOf(desk: Desk, claim: Claim): EvidenceCreate
    requires claim.invocationId in desk.ledger
  {
    var o := desk.ledger[claim.invocationId];
    EvidenceCreate(Normalize(claim.excerpt), SourceOf(desk.digest, o.capability, o.invocation.tenant, o.arguments),
                   claim.title, claim.author, claim.publishedAt, TrustOf(o.capability), o.capability.maxAccess,
                   HashContent(desk, claim.excerpt), desk.task, claim.invocationId)
  }

  /** What constructing an evidence record checks. */
  predicate Constructible(r: EvidenceCreate, now: int) {
    && r.excerpt != "" && r.sourceUri != ""
    && (r.publishedAt.Some? ==> r.publishedAt.value <= now)
  }

  /**
   The i-th claim stands on its own: it names a call of this task, its words are in what that
   call returned, there are any, the call has an address if it should, and it is not dated
   ahead of the clock.
   */
  ghost predicate Sound(desk: Desk, claims: seq<Claim>, i: nat)
    requires i < |claims|
  {
    var claim := claims[i];
    && claim.invocationId in desk.ledger
    && var o := desk.ledger[claim.invocationId];
       && (exists k :: At(Normalize(claim.excerpt), Normalize(o.text), k))
       && !Blank(claim.excerpt)
       && !(o.capability.server == "web-research" && o.capability.name == "fetch"
              && Blank(Argument(o.arguments, "url")))
       && (claim.publishedAt.Some? ==> claim.publishedAt.value <= desk.clock(i))
  }

  lemma SoundIsChecked(desk: Desk, claims: seq<Claim>, i: nat)
    requires i < |claims|
    ensures Sound(desk, claims, i) <==>
            Traceable(desk, claims[i]) && Constructible(RecordOf(desk, claims[i]), desk.clock(i))
  {
    if claims[i].invocationId in desk.ledger {
      var o := desk.ledger[claims[i].invocationId];
      SourceIsTheCalls(desk.digest, o.capability, o.invocation.tenant, o.arguments);
      EmptyNormalForm(claims[i].excerpt);
      hide SourceOf, ComesFrom, Normalize, Occurs, At;
    }
  }

  ghost predicate Repeated(desk: Desk, claims: seq<Claim>, i: nat)
    requires i < |claims|
  {
    exists j :: 0 <= j < i && desk.hash(Normalize(claims[j].excerpt)) == desk.hash(Normalize(claims[i].excerpt))
  }

  /** Every claim stands on its own and none repeats an earlier one. */
  ghost predicate Acceptable(desk: Desk, claims: seq<Claim>) {
    forall i :: 0 <= i < |claims| ==> Sound(desk, claims, i) && !Repeated(desk, claims, i)
  }

  function Hashes(desk: Desk, claims: seq<Claim>): set<string> {
    set c | c in claims :: HashContent(desk, c.excerpt)
  }

  const UNVERIFIABLE := "UnverifiableEvidence"

  /** The record a claim becomes: the claim's own words, and everything else from the call it names. */
  ghost predicate Certifies(desk: Desk, claim: Claim, r: EvidenceCreate) {
    && claim.invocationId in desk.ledger
    && r.excerpt == Normalize(claim.excerpt) && r.contentHash == desk.hash(Normalize(claim.excerpt))
    && r.title == claim.title && r.author == claim.author && r.publishedAt == claim.publishedAt
    && r.taskId == desk.task && r.invocationId == claim.invocationId
    && var o := desk.ledger[claim.invocationId];
       && r.access == o.capability.maxAccess
       && (r.trust == Secondary <==> o.capability.server == "web-research" && o.capability.name == "search")
       && (r.trust == Secondary || r.trust == Primary)
       && ComesFrom(desk.digest, o.capability, o.invocation.tenant, o.arguments, r.sourceUri)
  }

  lemma RecordCertifies(desk: Desk, claim: Claim)
    requires claim.invocationId in desk.ledger
    ensures Certifies(desk, claim, RecordOf(desk, claim))
  {
    var o := desk.ledger[claim.invocationId];
    SourceIsTheCalls(desk.digest, o.capability, o.invocation.tenant, o.arguments);
    hide SourceOf, ComesFrom, Normalize;
  }

  /** One record for each claim, in order. */
  ghost predicate Matches(desk: Desk, claims: seq<Claim>, records: seq<EvidenceCreate>) {
    && |records| == |claims|
    && forall i :: 0 <= i < |claims| ==> Certifies(desk, claims[i], records[i])
  }

  /** What the loop knows after the first n claims, if it has not found a problem. */
  ghost predicate Verified(desk: Desk, claims: seq<Claim>, n: nat, records: seq<EvidenceCreate>, seen: set<string>)
    requires n <= |claims|
  {
    && (forall i :: 0 <= i < n ==> Sound(desk, claims, i) && !Repeated(desk, claims, i))
    && Matches(desk, claims[..n], records)
    && seen == Hashes(desk, claims[..n])
  }

  lemma SeenIsRepeated(desk: Desk, claims: seq<Claim>, n: nat, records: seq<EvidenceCreate>, seen: set<string>)
    requires n < |claims| && Verified(desk, claims, n, records, seen)
    ensures HashContent(desk, claims[n].excerpt) in seen <==> Repeated(desk, claims, n)
  {
    forall j | 0 <= j < n
      ensures claims[j] in claims[..n]
    {
      assert claims[..n][j] == claims[j];
    }
  }

  lemma VerifiedNext(desk: Desk, claims: seq<Claim>, n: nat, records: seq<EvidenceCreate>, seen: set<string>)
    requires n < |claims| && Verified(desk, claims, n, records, seen)
    requires Sound(desk, claims, n) && !Repeated(desk, claims, n)
    ensures Verified(desk, claims, n + 1, records + [RecordOf(desk, claims[n])],
                     seen + {HashContent(desk, claims[n].excerpt)})
  {
    assert claims[n].invocationId in desk.ledger;
    MatchesNext(desk, claims, n, records);
    HashesNext(desk, claims, n);
    hide Sound, Repeated, HashContent, RecordOf, Traceable, Matches, Hashes;
  }

  lemma MatchesNext(desk: Desk, claims: seq<Claim>, n: nat, records: seq<EvidenceCreate>)
    requires n < |claims| && Matches(desk, claims[..n], records) && claims[n].invocationId in desk.ledger
    ensures Matches(desk, claims[..n + 1], records + [RecordOf(desk, claims[n])])
  {
    hide RecordOf, Certifies;
    RecordCertifies(desk, claims[n]);
    var next, r := claims[..n + 1], records + [RecordOf(desk, claims[n])];
    forall i | 0 <= i < |next|
      ensures Certifies(desk, next[i], r[i])
    {
      if i < n {
        assert next[i] == claims[..n][i] && r[i] == records[i];
      }
    }
  }

  lemma HashesNext(desk: Desk, claims: seq<Claim>, n: nat)
    requires n < |claims|
    ensures Hashes(desk, claims[..n + 1]) == Hashes(desk, claims[..n]) + {HashContent(desk, claims[n].excerpt)}
  {
    hide HashContent;
    assert claims[..n + 1] == claims[..n] + [claims[n]];
    assert forall c :: c in claims[..n + 1] <==> c in claims[..n] || c == claims[n];
  }

  lemma OneSpoilsAll(desk: Desk, claims: seq<Claim>, i: nat)
    requires i < |claims|
    ensures !Sound(desk, claims, i) || Repeated(desk, claims, i) ==> !Acceptable(desk, claims)
  {
  }

  lemma AllVerified(desk: Desk, claims: seq<Claim>, records: seq<EvidenceCreate>, seen: set<string>)
    requires Verified(desk, claims, |claims|, records, seen)
    ensures Acceptable(desk, claims) && Matches(desk, claims, records)
    ensures forall i, j :: 0 <= i < j < |records| ==> records[i].contentHash != records[j].contentHash
  {
    assert claims[..|claims|] == claims;
    DistinctHashes(desk, claims, records);
  }

  /** Records of an acceptable submission satisfy its own rules. */
  lemma DistinctHashes(desk: Desk, claims: seq<Claim>, records: seq<EvidenceCreate>)
    requires Acceptable(desk, claims) && Matches(desk, claims, records)
    ensures forall i, j :: 0 <= i < j < |records| ==> records[i].contentHash != records[j].contentHash
  {
    forall i, j | 0 <= i < j < |records|
      ensures records[i].contentHash != records[j].contentHash
    {
      assert !Repeated(desk, claims, j);
    }
  }

  /**
   `verify_claims`: accepted exactly when every claim stands on its own and none repeats
   another, and then with one record per claim, in order; otherwise nothing is accepted.
   */
  method VerifyClaims(desk: Desk, submitted: EvidenceClaims) returns (r: Outcome<Orchestration.EvidenceSubmission>)
    ensures r.Returned? <==> Acceptable(desk, submitted.claims)
    ensures r.Returned? ==> Matches(desk, submitted.claims, r.value.records) && r.value.unmet == submitted.unmet
  {
    var claims := submitted.claims;
    var problems: seq<string> := [];
    var records: seq<EvidenceCreate> := [];
    var seen: set<string> := {};
    assert Verified(desk, claims, 0, records, seen);
    hide RecordOf, Matches, HashContent, Sound, Repeated, Constructible, Traceable, Hashes, Verified, Acceptable;
    for n := 0 to |claims|
      invariant problems == [] ==> Verified(desk, claims, n, records, seen)
      invariant problems != [] ==> !Acceptable(desk, claims)
    {
      var claim := claims[n];
      SoundIsChecked(desk, claims, n);
      OneSpoilsAll(desk, claims, n);
      if !Traceable(desk, claim) {
        problems := problems + ["the excerpt is not in the output of a call this task made"];
        continue;
      }
      var contentHash := HashContent(desk, claim.excerpt);
      if problems == [] {
        SeenIsRepeated(desk, claims, n, records, seen);
      }
      if contentHash in seen {
        problems := problems + ["the same excerpt was submitted more than once"];
        continue;
      }
      var record := RecordOf(desk, claim);
      if !Constructible(record, desk.clock(n)) {
        return Raised(Error("ValidationError", "the evidence record was refused"));
      }
      if problems == [] {
        VerifiedNext(desk, claims, n, records, seen);
      }
      seen := seen + {contentHash};
      records := records + [record];
    }
    if problems != [] {
      return Raised(Error(UNVERIFIABLE, problems[0]));
    }
    AllVerified(desk, claims, records, seen);
    r := Returned(Orchestration.Submission(records, submitted.unmet));
  }
}
