/** What holds of the shared tables between any two requests, and what no later request changes. */
module LabInvariant {
  import opened Wrappers
  import opened Lifecycle
  import opened BatchLifecycle
  import opened Units
  import opened Assay
  import opened Chains
  import opened LabTables
  import opened Silver
  import F = Furnace
  import H = FurnaceHistory
  import opened ResultService
  import CertificateService

  // ----- Fire assay results --------------------------------------------------------------

  ghost predicate ResultsChained(rows: seq<FireAssay>) {
    WellLinked(ResultLinks(rows)) && OneRoot(ResultLinks(rows))
  }

  /** The stored silver bead and the stored silver grade come from one dore bead. */
  predicate SilverFrom(r: FireAssay, bead: real, dore: real) {
    && r.silverBead == Some(SilverBead(dore, bead))
    && SilverByDifference(dore, bead, r.weight).Ok?
    && r.silver == Some(SilverByDifference(dore, bead, r.weight).value)
  }

  ghost predicate SilverSound(r: FireAssay, bead: real) {
    (r.silver.None? && r.silverBead.None?) || exists dore :: SilverFrom(r, bead, dore)
  }

  /**
   Re-running the grade function on the row's own stored measurements gives the stored gold
   grade; the silver columns are those of one dore bead, which SilverRepeatsIff is about.
   */
  ghost predicate Recomputes(r: FireAssay) {
    match r.finish
    case Gravimetric(bead, sensitivity) =>
      GravimetricGrade(bead, r.weight, sensitivity) == Ok(r.grade) && SilverSound(r, bead)
    case Solution(technique, concentration, unit, volume, detection) =>
      && technique != FireAssayGravimetric && r.silver.None? && r.silverBead.None?
      && SolutionFinishGrade(concentration, unit, volume, r.weight, detection, None) == Ok(r.grade)
  }

  ghost predicate AllRecompute(rows: seq<FireAssay>) {
    forall i :: 0 <= i < |rows| ==> Recomputes(rows[i])
  }

  /** The crucible a result names is there, held its sample, made it past cupellation and weighed the portion. */
  predicate Backed(r: FireAssay, f: F.Tables) {
    r.crucible.Some? ==>
      && F.Live(f, r.crucible.value)
      && F.At(f, r.crucible.value).sample == Some(r.sample)
      && BeadBearing(F.At(f, r.crucible.value).status)
      && F.At(f, r.crucible.value).weight == r.weight
  }

  ghost predicate AllBacked(rows: seq<FireAssay>, f: F.Tables) {
    forall i :: 0 <= i < |rows| ==> Backed(rows[i], f)
  }

  ghost predicate ResultsNamed(rows: seq<FireAssay>, samples: nat) {
    forall i :: 0 <= i < |rows| ==> rows[i].sample < samples
  }

  // ----- Element readings ----------------------------------------------------------------

  /** A reading is flagged exactly when it stands at its own limit instead of above it. */
  predicate ReadingSound(r: Reading, samples: nat) {
    && r.triple.sample < samples && r.value >= 0.0
    && (if r.censored then r.limit == Some(r.value) else r.limit.Some? ==> r.value > r.limit.value)
  }

  ghost predicate ReadingsSound(rows: seq<Reading>, samples: nat) {
    WellLinked(ReadingLinks(rows)) && forall i :: 0 <= i < |rows| ==> ReadingSound(rows[i], samples)
  }

  // ----- Certificates --------------------------------------------------------------------

  predicate LineSound(
    line: Frozen, client: nat, samples: seq<SampleRow>, results: seq<FireAssay>, readings: seq<Reading>)
  {
    && line.sample < |samples| && samples[line.sample].client == client
    && line.result < |results| && results[line.result].sample == line.sample
    && forall r :: r in line.readings ==> r < |readings| && readings[r].triple.sample == line.sample
  }

  ghost predicate CertificateSound(
    c: Certificate, samples: seq<SampleRow>, results: seq<FireAssay>, readings: seq<Reading>)
  {
    && c.lines != []
    && (forall i :: 0 <= i < |c.lines| ==> LineSound(c.lines[i], c.client, samples, results, readings))
    && (forall i, j :: 0 <= i < j < |c.lines| ==> c.lines[i].sample != c.lines[j].sample)
  }

  ghost predicate CertificatesSound(
    certs: seq<Certificate>, samples: seq<SampleRow>, results: seq<FireAssay>, readings: seq<Reading>)
  {
    && WellLinked(CertificateLinks(certs))
    && forall i :: 0 <= i < |certs| ==> CertificateSound(certs[i], samples, results, readings)
  }

  // ----- Samples -----------------------------------------------------------------------------

  predicate OnCertificate(c: Certificate, sample: nat) {
    exists i :: 0 <= i < |c.lines| && c.lines[i].sample == sample
  }

  predicate Certified(certs: seq<Certificate>, sample: nat) {
    exists i :: 0 <= i < |certs| && OnCertificate(certs[i], sample)
  }

  ghost predicate ReportedAreCertified(samples: seq<SampleRow>, certs: seq<Certificate>) {
    forall i :: 0 <= i < |samples| && samples[i].status == Reported ==> Certified(certs, i)
  }

  predicate PrimaryCharge(f: F.Tables, sample: nat, k: nat) {
    F.Live(f, k) && F.At(f, k).sample == Some(sample) && F.At(f, k).insertion.None?
  }

  predicate HasPrimaryCharge(f: F.Tables, sample: nat) {
    exists k :: 0 <= k < |f.crucibles| && PrimaryCharge(f, sample, k)
  }

  ghost predicate InAssayAreCharged(samples: seq<SampleRow>, f: F.Tables) {
    forall i :: 0 <= i < |samples| && samples[i].status == InAssay ==> HasPrimaryCharge(f, i)
  }

  /** A crucible's sample exists, and the portion charged is no more than was received. */
  predicate CrucibleNamed(c: F.Crucible, samples: seq<SampleRow>) {
    c.sample.Some? ==>
      && c.sample.value < |samples|
      && (samples[c.sample.value].received.Some? ==> c.weight <= samples[c.sample.value].received.value)
  }

  ghost predicate CruciblesNamed(f: F.Tables, samples: seq<SampleRow>) {
    forall k :: F.Live(f, k) ==> CrucibleNamed(F.At(f, k), samples)
  }

  ghost predicate Inv(db: Db) {
    && F.Inv(db.furnace) && CruciblesNamed(db.furnace, db.samples)
    && ResultsChained(db.results) && AllRecompute(db.results) && AllBacked(db.results, db.furnace)
    && ResultsNamed(db.results, |db.samples|)
    && ReadingsSound(db.readings, |db.samples|)
    && CertificatesSound(db.certificates, db.samples, db.results, db.readings)
    && ReportedAreCertified(db.samples, db.certificates)
    && InAssayAreCharged(db.samples, db.furnace)
  }

  // ----- Later states -----------------------------------------------------------------------------

  /** A sample keeps everything but its status, and keeps a final status. */
  predicate SampleLater(a: SampleRow, b: SampleRow) {
    && a.client == b.client && a.kind == b.kind && a.received == b.received
    && (a.status in {Reported, Rejected} ==> b.status == a.status)
  }

  ghost predicate SamplesLater(a: seq<SampleRow>, b: seq<SampleRow>) {
    |a| <= |b| && forall i :: 0 <= i < |a| ==> SampleLater(a[i], b[i])
  }

  /** b can follow a: rows of the append-only tables are never changed, and the furnace never runs backwards. */
  ghost predicate Later(a: Db, b: Db) {
    && SamplesLater(a.samples, b.samples) && H.Follows(a.furnace, b.furnace)
    && a.results <= b.results && a.readings <= b.readings && a.certificates <= b.certificates
  }

  lemma LaterTrans(a: Db, b: Db, c: Db)
    requires Later(a, b) && Later(b, c)
    ensures Later(a, c)
  {
  }

  // ----- Frames: what survives when another table grows -----------------------------------------------

  lemma LinksGrow(a: Db, b: Db)
    requires a.results <= b.results && a.readings <= b.readings && a.certificates <= b.certificates
    ensures ResultLinks(a.results) <= ResultLinks(b.results)
    ensures ReadingLinks(a.readings) <= ReadingLinks(b.readings)
    ensures CertificateLinks(a.certificates) <= CertificateLinks(b.certificates)
  {
  }

  lemma AllBackedStay(rows: seq<FireAssay>, f: F.Tables, g: F.Tables)
    requires F.Inv(f) && F.Inv(g) && H.Follows(f, g) && AllBacked(rows, f)
    ensures AllBacked(rows, g)
  {
  }

  lemma CertificatesStay(a: Db, b: Db)
    requires CertificatesSound(a.certificates, a.samples, a.results, a.readings)
    requires SamplesLater(a.samples, b.samples) && a.results <= b.results && a.readings <= b.readings
    ensures CertificatesSound(a.certificates, b.samples, b.results, b.readings)
  {
  }

  lemma CruciblesNamedStay(f: F.Tables, a: seq<SampleRow>, b: seq<SampleRow>)
    requires CruciblesNamed(f, a) && SamplesLater(a, b)
    ensures CruciblesNamed(f, b)
  {
    forall k | F.Live(f, k) ensures CrucibleNamed(F.At(f, k), b) {
      var c := F.At(f, k);
      assert CrucibleNamed(c, a);
      if c.sample.Some? {
        assert SampleLater(a[c.sample.value], b[c.sample.value]);
      }
    }
  }

  lemma ReadingsSoundStay(rows: seq<Reading>, m: nat, n: nat)
    requires ReadingsSound(rows, m) && m <= n
    ensures ReadingsSound(rows, n)
  {
  }

}
