/** Issuing a certificate keeps the invariant, and what it froze is current when it is issued. */
module CertificateSteps {
  import opened Wrappers
  import opened Lifecycle
  import opened Chains
  import opened LabTables
  import opened LabInvariant
  import opened LabSteps
  import opened ResultSteps
  import C = CertificateService

  /** A request resolved without problems covers exactly the ids it named, each by its current result. */
  lemma {:induction false} ResolvedAll(db: Db, client: nat, ids: seq<nat>, seen: set<nat>, i: nat)
    requires C.ResolveFrom(db, client, ids, seen).problems == []
    ensures |C.ResolveFrom(db, client, ids, seen).pairs| == |ids|
    ensures i < |ids| ==>
      var p := C.ResolveFrom(db, client, ids, seen).pairs[i];
      && p.sample == ids[i] < |db.samples| && ids[i] !in seen && db.samples[ids[i]].client == client
      && CurrentResult(db.results, ids[i]) == Some(p.result)
    ensures i < |ids| ==> forall j :: 0 <= j < i ==> ids[j] != ids[i]
    decreases |ids|
  {
    if ids != [] {
      assert C.ResolveOne(db, client, ids[0], seen).Ok?;
      ResolvedAll(db, client, ids[1..], seen + {ids[0]}, if i > 0 then i - 1 else |ids|);
      if 0 < i < |ids| {
        forall j | 0 <= j < i ensures ids[j] != ids[i] {
          assert j > 0 ==> ids[1..][j - 1] == ids[j];
        }
      }
    }
  }

  /** So it covers a sample exactly when the request named it. */
  lemma CoversNamed(db: Db, client: nat, ids: seq<nat>, i: nat)
    requires C.ResolveSamples(db, client, ids).problems == []
    ensures C.Covers(C.ResolveSamples(db, client, ids).pairs, i) <==> i in ids
  {
    var pairs := C.ResolveSamples(db, client, ids).pairs;
    ResolvedAll(db, client, ids, {}, 0);
    forall j | 0 <= j < |ids| ensures pairs[j].sample == ids[j] {
      ResolvedAll(db, client, ids, {}, j);
    }
    if i in ids {
      var j :| 0 <= j < |ids| && ids[j] == i;
      assert pairs[j].sample == i;
    }
  }

  lemma IssueGranted(a: Db, ref: Reference, q: C.Request, role: Role)
    requires C.Issue(a, ref, q, role).Ok?
    ensures var r := C.ResolveSamples(a, q.client, q.samples);
      r.problems == [] && C.Issue(a, ref, q, role).value.samples == C.Report(a.samples, r.pairs)
  {
  }

  lemma CurrentResultIs(db: Db, sample: nat)
    requires ResultsChained(db.results) && CurrentResult(db.results, sample).Some?
    ensures var r := CurrentResult(db.results, sample).value;
      r < |db.results| && db.results[r].sample == sample && !Superseded(ResultLinks(db.results), r)
  {
    HighestHeadIs(ResultLinks(db.results), sample, |db.results|);
  }

  lemma NewCertificateSound(a: Db, client: nat, ids: seq<nat>)
    requires Inv(a) && ids != [] && C.ResolveSamples(a, client, ids).problems == []
    ensures var pairs := C.ResolveSamples(a, client, ids).pairs;
      CertificateSound(Certificate(client, None, C.Freeze(a, pairs)), a.samples, a.results, a.readings)
  {
    var pairs := C.ResolveSamples(a, client, ids).pairs;
    var lines := C.Freeze(a, pairs);
    ResolvedAll(a, client, ids, {}, 0);
    forall i | 0 <= i < |lines| ensures LineSound(lines[i], client, a.samples, a.results, a.readings) {
      ResolvedAll(a, client, ids, {}, i);
      CurrentResultIs(a, ids[i]);
    }
    forall i, j | 0 <= i < j < |lines| ensures lines[i].sample != lines[j].sample {
      ResolvedAll(a, client, ids, {}, i);
      ResolvedAll(a, client, ids, {}, j);
    }
  }

  lemma SoundWhateverItSupersedes(c: Certificate, supersedes: Option<nat>, db: Db)
    requires CertificateSound(c, db.samples, db.results, db.readings)
    ensures CertificateSound(c.(supersedes := supersedes), db.samples, db.results, db.readings)
  {
  }

  lemma CertificateJoins(a: Db, q: C.Request, c: Certificate)
    requires CertificatesSound(a.certificates, a.samples, a.results, a.readings)
    requires CertificateSound(c, a.samples, a.results, a.readings)
    requires C.SupersessionProblems(a, q) == [] && c.client == q.client && c.supersedes == q.supersedes
    ensures CertificatesSound(a.certificates + [c], a.samples, a.results, a.readings)
  {
    var links := CertificateLinks(a.certificates);
    assert MayJoin(links, Link(c.client, c.supersedes));
    assert CertificateLinks(a.certificates + [c]) == links + [Link(c.client, c.supersedes)];
    JoinKeepsLinked(links, Link(c.client, c.supersedes));
  }

  lemma ReportMoves(samples: seq<SampleRow>, pairs: seq<C.Pair>)
    ensures SamplesLater(samples, C.Report(samples, pairs)) && StatusesMove(samples, C.Report(samples, pairs))
    ensures forall i :: 0 <= i < |samples| ==>
      || C.Report(samples, pairs)[i] == samples[i]
      || (C.Covers(pairs, i) && C.Report(samples, pairs)[i].status == Reported)
  {
    forall i | 0 <= i < |samples|
      ensures StatusMove(samples[i].status, C.Report(samples, pairs)[i].status, samples[i].kind)
    {
      assert Matches(TRANSITIONS[6], Assayed, Reported, samples[i].kind);
      OfferedIff(Assayed, Reported, samples[i].kind);
    }
  }

  lemma CoveredIsCertified(a: Db, client: nat, pairs: seq<C.Pair>, c: Certificate, i: nat)
    requires C.Covers(pairs, i) && c.lines == C.Freeze(a, pairs)
    ensures Certified(a.certificates + [c], i)
  {
    var j :| 0 <= j < |pairs| && pairs[j].sample == i;
    assert c.lines[j].sample == i;
    assert OnCertificate(c, i);
    assert (a.certificates + [c])[|a.certificates|] == c;
  }

  lemma IssueStep(a: Db, ref: Reference, q: C.Request, role: Role)
    requires Inv(a) && C.Issue(a, ref, q, role).Ok?
    ensures var b := C.Issue(a, ref, q, role).value;
      Inv(b) && Later(a, b) && StatusesMove(a.samples, b.samples)
  {
    var b := C.Issue(a, ref, q, role).value;
    var pairs := C.ResolveSamples(a, q.client, q.samples).pairs;
    var c := b.certificates[|a.certificates|];
    NewCertificateSound(a, q.client, q.samples);
    SoundWhateverItSupersedes(Certificate(q.client, None, C.Freeze(a, pairs)), q.supersedes, a);
    CertificateJoins(a, q, c);
    ReportMoves(a.samples, pairs);
    CertificatesStay(a.(certificates := b.certificates), b);
    forall i | 0 <= i < |b.samples| && b.samples[i].status == Reported && a.samples[i].status != Reported
      ensures Certified(b.certificates, i)
    {
      CoveredIsCertified(a, q.client, pairs, c, i);
    }
    PaperStep(a, b);
  }

  // ----- Staleness --------------------------------------------------------------------------------

  /** A certificate is not stale when it is issued. */
  lemma FreshAtIssuance(a: Db, ref: Reference, q: C.Request, role: Role)
    requires Inv(a) && C.Issue(a, ref, q, role).Ok?
    ensures var b := C.Issue(a, ref, q, role).value;
      |b.certificates| == |a.certificates| + 1 && !C.IsStale(b, |a.certificates|)
  {
    var b := C.Issue(a, ref, q, role).value;
    var lines := b.certificates[|a.certificates|].lines;
    ResolvedAll(a, q.client, q.samples, {}, 0);
    forall i | 0 <= i < |lines| ensures !C.LineStale(b, lines[i]) {
      ResolvedAll(a, q.client, q.samples, {}, i);
      CurrentResultIs(a, q.samples[i]);
    }
  }

  /** A certificate freezes, for each sample asked for in turn, its current result and all its current readings. */
  lemma FreezesWhatIsCurrent(a: Db, ref: Reference, q: C.Request, role: Role, i: nat)
    requires C.Issue(a, ref, q, role).Ok? && i < |q.samples|
    ensures var b := C.Issue(a, ref, q, role).value;
      var c := b.certificates[|a.certificates|];
      && b.results == a.results && b.readings == a.readings
      && c.client == q.client && c.supersedes == q.supersedes && |c.lines| == |q.samples|
      && c.lines[i].sample == q.samples[i]
      && CurrentResult(a.results, q.samples[i]) == Some(c.lines[i].result)
      && c.lines[i].readings == CurrentReadings(a.readings, q.samples[i])
  {
    ResolvedAll(a, q.client, q.samples, {}, i);
  }

  /** Stale means exactly: something frozen is no longer what its sample's current query returns. */
  lemma StaleIff(db: Db, c: nat)
    requires Inv(db) && c < |db.certificates|
    ensures C.IsStale(db, c) <==>
      exists i :: 0 <= i < |db.certificates[c].lines| && NoLongerCurrent(db, db.certificates[c].lines[i])
  {
    var lines := db.certificates[c].lines;
    forall i | 0 <= i < |lines| ensures C.LineStale(db, lines[i]) <==> NoLongerCurrent(db, lines[i]) {
      assert CertificateSound(db.certificates[c], db.samples, db.results, db.readings);
      assert LineSound(lines[i], db.certificates[c].client, db.samples, db.results, db.readings);
      LineStaleIff(db, lines[i], db.certificates[c].client);
    }
  }

  predicate NoLongerCurrent(db: Db, line: Frozen) {
    || CurrentResult(db.results, line.sample) != Some(line.result)
    || !(line.readings <= CurrentReadings(db.readings, line.sample))
  }

  lemma LineStaleIff(db: Db, line: Frozen, client: nat)
    requires Inv(db) && LineSound(line, client, db.samples, db.results, db.readings)
    ensures C.LineStale(db, line) <==> NoLongerCurrent(db, line)
  {
    CurrentIsLast(ResultLinks(db.results), line.sample);
    assert ResultLinks(db.results)[line.result].key == line.sample;
    var links := ResultLinks(db.results);
    assert IsHead(links, line.sample, line.result) <==> !Superseded(links, line.result);
    forall r | r in line.readings
      ensures r in CurrentReadings(db.readings, line.sample) <==> !Superseded(ReadingLinks(db.readings), r)
    {
    }
  }

  /** Staleness never reverts, and what a certificate froze never changes. */
  lemma StaleForever(a: Db, b: Db, c: nat)
    requires Later(a, b) && c < |a.certificates|
    ensures c < |b.certificates| && b.certificates[c] == a.certificates[c]
    ensures C.IsStale(a, c) ==> C.IsStale(b, c)
  {
    LinksGrow(a, b);
    if C.IsStale(a, c) {
      var i :| 0 <= i < |a.certificates[c].lines| && C.LineStale(a, a.certificates[c].lines[i]);
      var line := a.certificates[c].lines[i];
      if Superseded(ResultLinks(a.results), line.result) {
        SupersededForever(ResultLinks(a.results), ResultLinks(b.results), line.result);
      } else {
        var r :| r in line.readings && Superseded(ReadingLinks(a.readings), r);
        SupersededForever(ReadingLinks(a.readings), ReadingLinks(b.readings), r);
      }
      assert C.LineStale(b, b.certificates[c].lines[i]);
    }
  }
}
