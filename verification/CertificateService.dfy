/** Certificate issuance: which rows are frozen, which samples move, and when a certificate is stale. */
module CertificateService {
  import opened Wrappers
  import opened Lifecycle
  import opened Chains
  import opened LabTables

  datatype Request = Request(client: nat, samples: seq<nat>, supersedes: Option<nat>, reason: Option<string>)

  /** A sample and the fire assay result certified for it. */
  datatype Pair = Pair(sample: nat, result: nat)

  datatype Resolution = Resolution(pairs: seq<Pair>, problems: seq<Problem>)

  /** What one requested sample id contributes, given the ids already seen. */
  function ResolveOne(db: Db, client: nat, id: nat, seen: set<nat>): Result<Pair, Problem> {
    var _ :- Require(id !in seen, RepeatedSample);
    var _ :- Require(id < |db.samples|, UnknownSample);
    var _ :- Require(db.samples[id].client == client, OtherClientsSample);
    var current := CurrentResult(db.results, id);
    var _ :- Require(current.Some?, NoResultYet);
    Ok(Pair(id, current.value))
  }

  function ResolveFrom(db: Db, client: nat, ids: seq<nat>, seen: set<nat>): Resolution {
    if ids == [] then Resolution([], [])
    else
      var one := ResolveOne(db, client, ids[0], seen);
      var rest := ResolveFrom(db, client, ids[1..], seen + {ids[0]});
      if one.Ok? then rest.(pairs := [one.value] + rest.pairs) else rest.(problems := [one.error] + rest.problems)
  }

  function ResolveSamples(db: Db, client: nat, ids: seq<nat>): Resolution {
    if ids == [] then Resolution([], [NoSamples]) else ResolveFrom(db, client, ids, {})
  }

  function SupersessionProblems(db: Db, q: Request): seq<Problem> {
    if q.supersedes.None? then []
    else
      (if q.supersedes.value >= |db.certificates| || Superseded(CertificateLinks(db.certificates), q.supersedes.value)
       then [NotCurrentCertificate]
       else if db.certificates[q.supersedes.value].client != q.client then [OtherClientsCertificate]
       else [])
      + (if !StatesReason(q.reason) then [NeedsReason] else [])
  }

  function Freeze(db: Db, pairs: seq<Pair>): seq<Frozen> {
    seq(|pairs|, i requires 0 <= i < |pairs| =>
      Frozen(pairs[i].sample, pairs[i].result, CurrentReadings(db.readings, pairs[i].sample)))
  }

  predicate Covers(pairs: seq<Pair>, sample: nat) {
    exists i :: 0 <= i < |pairs| && pairs[i].sample == sample
  }

  /** Covered samples that are assayed become reported; any other status is left as it is. */
  function Report(samples: seq<SampleRow>, pairs: seq<Pair>): seq<SampleRow> {
    seq(|samples|, i requires 0 <= i < |samples| =>
      if Covers(pairs, i) && samples[i].status == Assayed then samples[i].(status := Reported) else samples[i])
  }

  function Issue(db: Db, ref: Reference, q: Request, role: Role): Result<Db, Refusal> {
    var _ :- Require(role in MAY_SIGN_CERTIFICATE, Lifecycle(InsufficientRole));
    var _ :- Require(q.client < ref.clients, NotFound(TheClient));
    var r := ResolveSamples(db, q.client, q.samples);
    var problems := r.problems + SupersessionProblems(db, q);
    var _ :- Require(problems == [], Invalid(problems));
    Ok(db.(samples := Report(db.samples, r.pairs),
           certificates := db.certificates + [Certificate(q.client, q.supersedes, Freeze(db, r.pairs))]))
  }

  /** Whether anything the certificate froze has since been superseded. */
  predicate LineStale(db: Db, line: Frozen) {
    || Superseded(ResultLinks(db.results), line.result)
    || exists r :: r in line.readings && Superseded(ReadingLinks(db.readings), r)
  }

  predicate IsStale(db: Db, certificate: nat)
    requires certificate < |db.certificates|
  {
    exists i :: 0 <= i < |db.certificates[certificate].lines| && LineStale(db, db.certificates[certificate].lines[i])
  }
}
