/**
 The publish activity of src/research_platform/workflow/publishing.py: four artifacts
 written in turn, and only then the record that points at them. An attempt may stop after
 any write, and attempts for any number of jobs may follow each other.
 */
module Publishing {
  import opened Basics
  import opened Artifacts
  import opened Utf8

  /** A document's file name and its bytes, in the order they are written. */
  type Documents = d: seq<(string, seq<byte>)> | |d| == 4 && forall i :: 0 <= i < 4 ==> d[i].0 == FILES[i]
    ghost witness seq(4, i requires 0 <= i < 4 => (FILES[i], []))

  const FILES: seq<string> := ["report.json", "report.md", "provenance-manifest.json", "evidence.json"]

  /** One delivery of the activity; it stopped after `steps` of its five writes. */
  datatype Attempt = Attempt(tenant: string, job: Id, documents: Documents, steps: nat)

  /** `job_artifact` */
  function NameOf(show: Id -> string, job: Id, file: string): string {
    "jobs/" + show(job) + "/" + file
  }

  /** The first n artifact writes of an attempt. */
  function Writes(show: Id -> string, a: Attempt, n: nat): seq<Write>
    requires n <= 4
  {
    seq(n, i requires 0 <= i < n => Write(a.tenant, NameOf(show, a.job, a.documents[i].0), a.documents[i].1))
  }

  /** Everything ever written to the artifact store, and the recorded publications with their report hashes. */
  datatype State = State(writes: seq<Write>, published: map<(string, Id), string>)

  function Deliver(show: Id -> string, hash: seq<byte> -> string, s: State, a: Attempt): State {
    var n := if a.steps < 4 then a.steps else 4;
    State(s.writes + Writes(show, a, n),
          if a.steps <= 4 then s.published else s.published[(a.tenant, a.job) := hash(a.documents[0].1)])
  }

  function After(show: Id -> string, hash: seq<byte> -> string, attempts: seq<Attempt>): State {
    if attempts == [] then State([], map[])
    else Deliver(show, hash, After(show, hash, attempts[..|attempts| - 1]), attempts[|attempts| - 1])
  }

  /** `_publish` against the development store, stopping where the attempt does. */
  class PublicationActivities {
    const show: Id -> string
    const hash: seq<byte> -> string
    const artifacts: InMemoryArtifactStore
    var published: map<(string, Id), string>
    ghost var writes: seq<Write>

    ghost predicate Valid()
      reads this, artifacts
    {
      artifacts.objects == Artifacts.After(writes)
    }

    constructor (show: Id -> string, hash: seq<byte> -> string)
      ensures Valid() && fresh(artifacts) && this.show == show && this.hash == hash
          && State(writes, published) == State([], map[])
    {
      this.show := show;
      this.hash := hash;
      artifacts := new InMemoryArtifactStore();
      published := map[];
      writes := [];
    }

    method Publish(a: Attempt)
      requires Valid()
      modifies this, artifacts
      ensures Valid()
      ensures State(writes, published) == Deliver(show, hash, old(State(writes, published)), a)
    {
      var i := 0;
      while i < 4 && i < a.steps
        invariant 0 <= i <= 4 && i <= a.steps
        invariant Valid() && published == old(published)
        invariant writes == old(writes) + Writes(show, a, i)
      {
        var w := Write(a.tenant, NameOf(show, a.job, a.documents[i].0), a.documents[i].1);
        hide ArtifactKey, Artifacts.After, NameOf;
        var key := artifacts.Put(w.tenant, w.name, w.data);
        OneMoreWrite(show, a, i, writes, w);
        writes := writes + [w];
        i := i + 1;
      }
      if a.steps > 4 {
        published := published[(a.tenant, a.job) := hash(a.documents[0].1)];
      }
    }
  }

  lemma OneMoreWrite(show: Id -> string, a: Attempt, i: nat, writes: seq<Write>, w: Write)
    requires i < 4 && w == Write(a.tenant, NameOf(show, a.job, a.documents[i].0), a.documents[i].1)
    ensures Writes(show, a, i + 1) == Writes(show, a, i) + [w]
    ensures Artifacts.After(writes + [w]) == Written(Artifacts.After(writes), w)
  {
    hide ArtifactKey;
    assert (writes + [w])[..|writes + [w]| - 1] == writes;
  }

  // ---------------------------------------------------------------- names

  /** Identifiers print as plain text, no two alike. */
  ghost predicate Prints(show: Id -> string) {
    && (forall id :: IsPlain(show(id)))
    && (forall a, b :: show(a) == show(b) ==> a == b)
  }

  lemma PlainHasNoSlash(segment: string)
    requires IsPlain(segment)
    ensures '/' !in segment
  {
  }

  lemma {:induction false} SplitFirst(a: string, b: string)
    requires '/' !in a
    ensures Split(a + "/" + b) == [a] + Split(b)
  {
    var s := a + "/" + b;
    if a == "" {
      assert s[1..] == b;
    } else {
      SplitFirst(a[1..], b);
      assert s[1..] == a[1..] + "/" + b;
      assert [a[0]] + a[1..] == a;
    }
  }

  lemma {:induction false} SplitLast(a: string)
    requires '/' !in a
    ensures Split(a) == [a]
  {
    if a != "" {
      SplitLast(a[1..]);
      assert [a[0]] + a[1..] == a;
    }
  }

  lemma ThreeParts(a: string, b: string, c: string)
    requires IsPlain(a) && IsPlain(b) && IsPlain(c)
    ensures IsValidName(a + "/" + b + "/" + c)
  {
    PlainHasNoSlash(a);
    PlainHasNoSlash(b);
    PlainHasNoSlash(c);
    hide IsPlain, Split;
    SplitLast(c);
    SplitFirst(b, c);
    SplitFirst(a, b + "/" + c);
    assert a + "/" + b + "/" + c == a + "/" + (b + "/" + c);
    assert Split(a + "/" + b + "/" + c) == [a, b, c];
  }

  lemma NamesAreValid(show: Id -> string, job: Id, i: nat)
    requires Prints(show) && i < 4
    ensures IsValidName(NameOf(show, job, FILES[i]))
  {
    assert IsPlain(FILES[i]) && IsPlain("jobs");
    hide IsPlain, IsValidName;
    ThreeParts("jobs", show(job), FILES[i]);
    assert NameOf(show, job, FILES[i]) == "jobs" + "/" + show(job) + "/" + FILES[i];
  }

  lemma NamesAreDistinct(show: Id -> string, a: Id, i: nat, b: Id, j: nat)
    requires Prints(show) && i < 4 && j < 4 && NameOf(show, a, FILES[i]) == NameOf(show, b, FILES[j])
    ensures a == b && i == j
  {
    PlainHasNoSlash(show(a));
    PlainHasNoSlash(show(b));
    var x, y := show(a) + "/" + FILES[i], show(b) + "/" + FILES[j];
    assert NameOf(show, a, FILES[i])[5..] == x && NameOf(show, b, FILES[j])[5..] == y;
    FirstSlash(show(a), FILES[i], show(b), FILES[j]);
  }

  // ---------------------------------------------------------------- what readers find

  lemma {:induction false} LastWriteAppended(writes: seq<Write>, more: seq<Write>, tenant: string, name: string)
    ensures LastWrite(writes + more, tenant, name) ==
            if LastWrite(more, tenant, name).Some?
                then LastWrite(more, tenant, name) else LastWrite(writes, tenant, name)
  {
    if more == [] {
      assert writes + more == writes;
    } else {
      LastWriteAppended(writes, more[..|more| - 1], tenant, name);
      assert (writes + more)[..|writes + more| - 1] == writes + more[..|more| - 1];
    }
  }

  /** What the first n writes of an attempt leave under the k-th name of a job. */
  lemma {:induction false} LastOfAttempt(show: Id -> string, a: Attempt, n: nat, tenant: string, job: Id, k: nat)
    requires Prints(show) && n <= 4 && k < 4
    ensures LastWrite(Writes(show, a, n), tenant, NameOf(show, job, FILES[k])) ==
            if a.tenant == tenant && a.job == job && k < n then Some(a.documents[k].1) else None
  {
    if n > 0 {
      LastOfAttempt(show, a, n - 1, tenant, job, k);
      var writes := Writes(show, a, n);
      assert writes[..n - 1] == Writes(show, a, n - 1);
      if writes[n - 1].name == NameOf(show, job, FILES[k]) {
        NamesAreDistinct(show, a.job, n - 1, job, k);
      }
    }
  }

  lemma OneMoreAttempt(show: Id -> string, hash: seq<byte> -> string, s: State, a: Attempt, tenant: string, job: Id,
                       k: nat)
    requires Prints(show) && k < 4
    ensures LastWrite(Deliver(show, hash, s, a).writes, tenant, NameOf(show, job, FILES[k])) ==
            if a.tenant == tenant && a.job == job && k < a.steps then Some(a.documents[k].1)
            else LastWrite(s.writes, tenant, NameOf(show, job, FILES[k]))
  {
    var n := if a.steps < 4 then a.steps else 4;
    LastOfAttempt(show, a, n, tenant, job, k);
    LastWriteAppended(s.writes, Writes(show, a, n), tenant, NameOf(show, job, FILES[k]));
  }

  /** The artifact as a reader of the store finds it. */
  function Stored(show: Id -> string, s: State, tenant: string, job: Id, k: nat): Option<seq<byte>>
    requires k < 4
  {
    var key := ArtifactKey(tenant, NameOf(show, job, FILES[k]));
    if key.Returned? && key.value in Artifacts.After(s.writes) then Some(Artifacts.After(s.writes)[key.value]) else None
  }

  lemma StoredIsLastWrite(show: Id -> string, s: State, tenant: string, job: Id, k: nat)
    requires Prints(show) && k < 4 && tenant != ""
    ensures Stored(show, s, tenant, job, k) == LastWrite(s.writes, tenant, NameOf(show, job, FILES[k]))
  {
    NamesAreValid(show, job, k);
    ReadsBackLastWrite(s.writes, tenant, NameOf(show, job, FILES[k]));
    hide IsValidName, TenantPrefix;
  }

  /** Every delivery for the job carries the same report: an activity is delivered again with the same input. */
  ghost predicate SameReport(attempts: seq<Attempt>, tenant: string, job: Id, report: seq<byte>) {
    forall i :: 0 <= i < |attempts| && attempts[i].tenant == tenant && attempts[i].job == job ==>
      attempts[i].documents[0].1 == report
  }

  lemma {:induction false} PublishedWrites(show: Id -> string, hash: seq<byte> -> string, attempts: seq<Attempt>,
                                           tenant: string, job: Id, report: seq<byte>, k: nat)
    requires Prints(show) && k < 4 && SameReport(attempts, tenant, job, report)
    requires (tenant, job) in After(show, hash, attempts).published
    ensures var last := LastWrite(After(show, hash, attempts).writes, tenant, NameOf(show, job, FILES[k]));
            last.Some? && (k == 0 ==> last.value == report)
    ensures After(show, hash, attempts).published[(tenant, job)] == hash(report)
  {
    var n := |attempts| - 1;
    var before, a := attempts[..n], attempts[n];
    OneMoreAttempt(show, hash, After(show, hash, before), a, tenant, job, k);
    hide LastWrite, NameOf, Writes, Prints;
    if (tenant, job) in After(show, hash, before).published {
      PublishedWrites(show, hash, before, tenant, job, report, k);
    }
  }

  /**
   Wherever attempts stop, for however many jobs and tenants: a job with a recorded
   publication has all four artifacts in the store, and the recorded hash is the hash of the
   report a reader finds there.
   */
  lemma PublishedIsComplete(show: Id -> string, hash: seq<byte> -> string, attempts: seq<Attempt>,
                            tenant: string, job: Id, report: seq<byte>, k: nat)
    requires Prints(show) && k < 4 && tenant != "" && SameReport(attempts, tenant, job, report)
    requires (tenant, job) in After(show, hash, attempts).published
    ensures var s := After(show, hash, attempts);
            && Stored(show, s, tenant, job, k).Some?
            && (k == 0 ==> s.published[(tenant, job)] == hash(Stored(show, s, tenant, job, k).value))
  {
    PublishedWrites(show, hash, attempts, tenant, job, report, k);
    StoredIsLastWrite(show, After(show, hash, attempts), tenant, job, k);
  }

  /** The i-th attempt is the last for its job to get past its first k writes. */
  ghost predicate LastPast(attempts: seq<Attempt>, i: nat, k: nat) {
    && i < |attempts| && attempts[i].steps > k
    && forall j :: i < j < |attempts| && attempts[j].tenant == attempts[i].tenant && attempts[j].job == attempts[i].job
         ==> attempts[j].steps <= k
  }

  lemma {:induction false} LastAttemptWins(show: Id -> string, hash: seq<byte> -> string, attempts: seq<Attempt>,
                                           i: nat, k: nat)
    requires Prints(show) && LastPast(attempts, i, k)
    ensures var s, a := After(show, hash, attempts), attempts[i];
            && (k < 4 ==> LastWrite(s.writes, a.tenant, NameOf(show, a.job, FILES[k])) == Some(a.documents[k].1))
            && (k == 4 ==> (a.tenant, a.job) in s.published && s.published[(a.tenant, a.job)] == hash(a.documents[0].1))
  {
    var n := |attempts| - 1;
    var before, last, a := attempts[..n], attempts[n], attempts[i];
    if k < 4 {
      OneMoreAttempt(show, hash, After(show, hash, before), last, a.tenant, a.job, k);
    }
    hide LastWrite, NameOf, Writes, Prints;
    if i < n {
      assert before[i] == a;
      LastAttemptWins(show, hash, before, i, k);
    }
  }

  /**
   Whoever reads a job's artifact finds what the last attempt that wrote it wrote, under the
   name it was given.
   */
  lemma ReadersFindTheLastAttempt(show: Id -> string, hash: seq<byte> -> string, attempts: seq<Attempt>, i: nat, k: nat)
    requires Prints(show) && LastPast(attempts, i, k) && k < 4 && attempts[i].tenant != ""
    ensures var a := attempts[i];
            var files := ["report.json", "report.md", "provenance-manifest.json", "evidence.json"];
            var key := ArtifactKey(a.tenant, "jobs/" + show(a.job) + "/" + files[k]);
            var objects := Artifacts.After(After(show, hash, attempts).writes);
            key.Returned? && key.value in objects && objects[key.value] == a.documents[k].1
  {
    var a := attempts[i];
    LastAttemptWins(show, hash, attempts, i, k);
    StoredIsLastWrite(show, After(show, hash, attempts), a.tenant, a.job, k);
    NamesAreValid(show, a.job, k);
    assert NameOf(show, a.job, FILES[k]) == "jobs/" + show(a.job) + "/" + FILES[k];
    hide IsValidName, TenantPrefix, After, Artifacts.After, LastWrite, Prints, LastPast;
  }

  /** A publication is recorded exactly for the jobs with a complete attempt, with the hash of the last one's report. */
  lemma RecordedWithTheLastReport(show: Id -> string, hash: seq<byte> -> string, attempts: seq<Attempt>,
                                  tenant: string, job: Id)
    requires Prints(show)
    ensures (tenant, job) in After(show, hash, attempts).published <==>
            exists i: nat :: LastPast(attempts, i, 4) && attempts[i].tenant == tenant && attempts[i].job == job
    ensures forall i: nat :: LastPast(attempts, i, 4) && attempts[i].tenant == tenant && attempts[i].job == job ==>
              && (tenant, job) in After(show, hash, attempts).published
              && After(show, hash, attempts).published[(tenant, job)] == hash(attempts[i].documents[0].1)
  {
    forall i: nat | LastPast(attempts, i, 4) && attempts[i].tenant == tenant && attempts[i].job == job
      ensures (tenant, job) in After(show, hash, attempts).published
      ensures After(show, hash, attempts).published[(tenant, job)] == hash(attempts[i].documents[0].1)
    {
      LastAttemptWins(show, hash, attempts, i, 4);
    }
    if (tenant, job) in After(show, hash, attempts).published {
      var i := RecordedBy(show, hash, attempts, tenant, job);
    }
  }

  lemma {:induction false} RecordedBy(show: Id -> string, hash: seq<byte> -> string, attempts: seq<Attempt>,
                                      tenant: string, job: Id) returns (i: nat)
    requires (tenant, job) in After(show, hash, attempts).published
    ensures LastPast(attempts, i, 4) && attempts[i].tenant == tenant && attempts[i].job == job
  {
    var n := |attempts| - 1;
    var last := attempts[n];
    if last.tenant == tenant && last.job == job && last.steps > 4 {
      i := n;
    } else {
      i := RecordedBy(show, hash, attempts[..n], tenant, job);
      assert forall j :: 0 <= j < n ==> attempts[..n][j] == attempts[j];
    }
  }
}
