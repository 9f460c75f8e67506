/** Result entry, element readings, certificates and bare status moves keep the invariant. */
module ResultSteps {
  import opened Wrappers
  import opened Lifecycle
  import opened BatchLifecycle
  import opened Units
  import opened Values
  import opened Assay
  import opened Chains
  import opened LabTables
  import F = Furnace
  import H = FurnaceHistory
  import opened LabInvariant
  import opened LabSteps
  import R = ResultService
  import E = ReadingService
  import C = CertificateService

  /** A request that leaves the furnace alone and lets no sample into InAssay. */
  lemma PaperStep(a: Db, b: Db)
    requires Inv(a) && b.furnace == a.furnace
    requires SamplesLater(a.samples, b.samples)
    requires forall i ::
      0 <= i < |b.samples| && b.samples[i].status == InAssay ==> i < |a.samples| && a.samples[i].status == InAssay
    requires forall i ::
      0 <= i < |b.samples| && b.samples[i].status == Reported && !(i < |a.samples| && a.samples[i].status == Reported)
      ==> Certified(b.certificates, i)
    requires a.results <= b.results && a.readings <= b.readings && a.certificates <= b.certificates
    requires ResultsChained(b.results) && AllRecompute(b.results) && AllBacked(b.results, b.furnace)
    requires ResultsNamed(b.results, |b.samples|) && ReadingsSound(b.readings, |b.samples|)
    requires CertificatesSound(b.certificates, b.samples, b.results, b.readings)
    ensures Inv(b) && Later(a, b)
  {
    CruciblesNamedStay(a.furnace, a.samples, b.samples);
  }

  // ----- Fire assay results -----------------------------------------------------------------

  lemma ResultLinksAppend(rows: seq<FireAssay>, r: FireAssay)
    ensures ResultLinks(rows + [r]) == ResultLinks(rows) + [Link(r.sample, r.supersedes)]
  {
  }

  /** A row whose finish, provenance and place in the chain are right may be recorded. */
  lemma RecordStep(a: Db, r: FireAssay)
    requires Inv(a) && r.sample < |a.samples|
    requires r.supersedes == CurrentResult(a.results, r.sample)
    requires Recomputes(r) && Backed(r, a.furnace)
    requires r.supersedes.None? ==> a.samples[r.sample].status == InAssay
    ensures Inv(R.Record(a, r)) && Later(a, R.Record(a, r))
    ensures StatusesMove(a.samples, R.Record(a, r).samples)
  {
    var b := R.Record(a, r);
    ResultLinksAppend(a.results, r);
    JoinKeepsOneRoot(ResultLinks(a.results), Link(r.sample, r.supersedes));
    if r.supersedes.None? {
      InAssayToAssayed(a.samples[r.sample].kind);
      SetStatusMoves(a.samples, r.sample, Assayed);
    }
    CertificatesStay(a, b);
    PaperStep(a, b);
  }

  lemma InAssayToAssayed(kind: SampleType)
    ensures StatusMove(InAssay, Assayed, kind)
  {
    assert Matches(TRANSITIONS[4], InAssay, Assayed, kind);
    OfferedIff(InAssay, Assayed, kind);
  }

  lemma OnlyInAssayIsAssayed(s: Status, kind: SampleType, role: Role)
    requires CheckTransition(s, Assayed, kind, role, None).Ok?
    ensures s == InAssay
  {
    MenuIsDecision(s, Assayed, kind, role, None);
    OfferedIsListed(s, Assayed, kind);
  }

  lemma AdmittedChain(a: Db, e: R.Entry, role: Role, current: Option<nat>)
    requires R.Admit(a, e, role) == Ok(current) && R.SupersessionProblems(e, current) == []
    ensures e.sample < |a.samples| && e.supersedes == current == CurrentResult(a.results, e.sample)
    ensures e.supersedes.None? ==> a.samples[e.sample].status == InAssay
  {
    if e.supersedes.None? {
      OnlyInAssayIsAssayed(a.samples[e.sample].status, a.samples[e.sample].kind, role);
    }
  }

  lemma WeighedGranted(a: Db, ref: Reference, e: R.Entry, w: R.Weighed, role: Role)
    requires R.CheckWeighed(a, ref, e, w, role).Ok?
    ensures var r := R.ResolveWeighing(a, e, w.bead).value;
      && R.Admit(a, e, role).Ok? && R.SupersessionProblems(e, R.Admit(a, e, role).value) == []
      && R.ResolveWeighing(a, e, w.bead).Ok? && r.problems == [] && R.InstrumentProblems(ref, e) == []
      && r.bead == Some(R.CheckWeighed(a, ref, e, w, role).value.bead)
      && r.portion == Some(R.CheckWeighed(a, ref, e, w, role).value.portion)
  {
  }

  lemma ResolvedIsBacked(a: Db, e: R.Entry, bead: Option<real>, r: FireAssay)
    requires R.ResolveWeighing(a, e, bead).Ok? && R.ResolveWeighing(a, e, bead).value.problems == []
    requires r.sample == e.sample && r.crucible == e.crucible
    requires Some(r.weight) == R.ResolveWeighing(a, e, bead).value.portion
    ensures Backed(r, a.furnace)
  {
  }

  lemma PortionIsBacked(a: Db, e: R.Entry, r: FireAssay)
    requires R.ResolvePortion(a, e).Ok? && R.ResolvePortion(a, e).value.problems == []
    requires r.sample == e.sample && r.crucible == e.crucible
    requires Some(r.weight) == R.ResolvePortion(a, e).value.portion
    ensures Backed(r, a.furnace)
  {
  }

  lemma SilverIsSound(r: FireAssay, dore: Option<real>, bead: real)
    requires R.SilverGrade(dore, bead, r.weight) == Ok(r.silver)
    requires r.silverBead == R.StoredSilverBead(dore, bead)
    ensures SilverSound(r, bead)
  {
    if dore.Some? {
      assert SilverFrom(r, bead, dore.value);
    }
  }

  /** The row a granted gravimetric entry stores is one that may be recorded. */
  lemma EnteredMayBeRecorded(a: Db, ref: Reference, e: R.Entry, w: R.Weighed, role: Role)
    requires R.EnterWeighed(a, ref, e, w, role).Ok?
    ensures R.CheckWeighed(a, ref, e, w, role).Ok?
    ensures var m := R.CheckWeighed(a, ref, e, w, role).value;
      var row := R.WeighedRow(e, w.dore, m.bead, m.portion, m.sensitivity);
      && row.Ok? && row.value.sample == e.sample < |a.samples|
      && R.EnterWeighed(a, ref, e, w, role).value == R.Record(a, row.value)
      && row.value.supersedes == CurrentResult(a.results, e.sample)
      && Recomputes(row.value) && Backed(row.value, a.furnace)
      && (row.value.supersedes.None? ==> a.samples[e.sample].status == InAssay)
  {
    var m := R.CheckWeighed(a, ref, e, w, role).value;
    var r := R.WeighedRow(e, w.dore, m.bead, m.portion, m.sensitivity).value;
    WeighedGranted(a, ref, e, w, role);
    AdmittedChain(a, e, role, R.Admit(a, e, role).value);
    ResolvedIsBacked(a, e, w.bead, r);
    WeighedRowRecomputes(e, w.dore, m.bead, m.portion, m.sensitivity);
  }

  lemma WeighedRowRecomputes(e: R.Entry, dore: Option<real>, bead: real, portion: real, sensitivity: Option<real>)
    requires R.WeighedRow(e, dore, bead, portion, sensitivity).Ok?
    ensures Recomputes(R.WeighedRow(e, dore, bead, portion, sensitivity).value)
  {
    SilverIsSound(R.WeighedRow(e, dore, bead, portion, sensitivity).value, dore, bead);
  }

  lemma EnterWeighedStep(a: Db, ref: Reference, e: R.Entry, w: R.Weighed, role: Role)
    requires Inv(a) && R.EnterWeighed(a, ref, e, w, role).Ok?
    ensures var b := R.EnterWeighed(a, ref, e, w, role).value;
      Inv(b) && Later(a, b) && StatusesMove(a.samples, b.samples)
  {
    EnteredMayBeRecorded(a, ref, e, w, role);
    RecordStep(a, R.EnterWeighed(a, ref, e, w, role).value.results[|a.results|]);
  }

  lemma ReadGranted(a: Db, ref: Reference, e: R.Entry, m: R.Read, role: Role)
    requires R.CheckRead(a, ref, e, m, role).Ok?
    ensures var r := R.ResolvePortion(a, e).value;
      && m.technique != FireAssayGravimetric
      && R.Admit(a, e, role).Ok? && R.SupersessionProblems(e, R.Admit(a, e, role).value) == []
      && R.ResolvePortion(a, e).Ok? && r.problems == []
      && r.portion == Some(R.CheckRead(a, ref, e, m, role).value.portion)
  {
  }

  lemma ReadRowRecomputes(e: R.Entry, m: R.Read, q: R.Aliquot)
    requires R.ReadRow(e, m, q).Ok? && m.technique != FireAssayGravimetric
    ensures Recomputes(R.ReadRow(e, m, q).value)
  {
    UpperOnlyRefuses(m.concentration, m.unit, m.volume, q.portion, q.detection, m.upper);
  }

  /** The row a granted solution entry stores is one that may be recorded. */
  lemma EnteredReadMayBeRecorded(a: Db, ref: Reference, e: R.Entry, m: R.Read, role: Role)
    requires R.EnterRead(a, ref, e, m, role).Ok?
    ensures R.CheckRead(a, ref, e, m, role).Ok?
    ensures var row := R.ReadRow(e, m, R.CheckRead(a, ref, e, m, role).value);
      && row.Ok? && row.value.sample == e.sample < |a.samples|
      && R.EnterRead(a, ref, e, m, role).value == R.Record(a, row.value)
      && row.value.supersedes == CurrentResult(a.results, e.sample)
      && Recomputes(row.value) && Backed(row.value, a.furnace)
      && (row.value.supersedes.None? ==> a.samples[e.sample].status == InAssay)
  {
    var q := R.CheckRead(a, ref, e, m, role).value;
    ReadGranted(a, ref, e, m, role);
    AdmittedChain(a, e, role, R.Admit(a, e, role).value);
    PortionIsBacked(a, e, R.ReadRow(e, m, q).value);
    ReadRowRecomputes(e, m, q);
  }

  lemma EnterReadStep(a: Db, ref: Reference, e: R.Entry, m: R.Read, role: Role)
    requires Inv(a) && R.EnterRead(a, ref, e, m, role).Ok?
    ensures var b := R.EnterRead(a, ref, e, m, role).value;
      Inv(b) && Later(a, b) && StatusesMove(a.samples, b.samples)
  {
    EnteredReadMayBeRecorded(a, ref, e, m, role);
    RecordStep(a, R.EnterRead(a, ref, e, m, role).value.results[|a.results|]);
  }

  // ----- Element readings ------------------------------------------------------------------------

  lemma ReadingLinksAppend(rows: seq<Reading>, r: Reading)
    ensures ReadingLinks(rows + [r]) == ReadingLinks(rows) + [Link(r.triple, r.supersedes)]
  {
  }

  lemma ReadingJoins(rows: seq<Reading>, r: Reading, samples: nat)
    requires ReadingsSound(rows, samples) && ReadingSound(r, samples)
    requires MayJoin(ReadingLinks(rows), Link(r.triple, r.supersedes))
    ensures ReadingsSound(rows + [r], samples)
  {
    ReadingLinksAppend(rows, r);
    JoinKeepsLinked(ReadingLinks(rows), Link(r.triple, r.supersedes));
  }

  lemma {:induction false} ReadingsJoin(rows: seq<Reading>, added: seq<Reading>, samples: nat)
    requires ReadingsSound(rows, samples)
    requires forall i :: 0 <= i < |added| ==> ReadingSound(added[i], samples) && added[i].supersedes.None?
    ensures ReadingsSound(rows + added, samples)
    decreases |added|
  {
    if added == [] {
      assert rows + added == rows;
    } else {
      var n := |added| - 1;
      assert forall i :: 0 <= i < n ==> added[..n][i] == added[i];
      ReadingsJoin(rows, added[..n], samples);
      ReadingJoins(rows + added[..n], added[n], samples);
      assert rows + added == rows + added[..n] + [added[n]];
    }
  }

  /** With no problems found, every item is non-negative. */
  lemma {:induction false} NoProblemNoNegative(items: seq<E.Item>, seen: set<string>, i: nat)
    requires E.ItemProblems(items, seen) == [] && i < |items|
    ensures items[i].value >= 0.0 && DimensionOf(items[i].unit) == MassFraction && items[i].element !in seen
    ensures forall j :: 0 <= j < i ==> items[j].element != items[i].element
    decreases |items|
  {
    if i > 0 {
      NoProblemNoNegative(items[1..], seen + {items[0].element}, i - 1);
      forall j | 0 <= j < i ensures items[j].element != items[i].element {
        assert j > 0 ==> items[1..][j - 1] == items[j];
      }
    }
  }

  lemma ImportStep(a: Db, sample: nat, digest: Digest, items: seq<E.Item>, role: Role)
    requires Inv(a) && E.Import(a, sample, digest, items, role).Ok?
    ensures var b := E.Import(a, sample, digest, items, role).value;
      Inv(b) && Later(a, b) && StatusesMove(a.samples, b.samples)
  {
    var b := E.Import(a, sample, digest, items, role).value;
    var added, s := E.ImportedAll(sample, digest, items), a.samples[sample];
    forall i | 0 <= i < |added| ensures ReadingSound(added[i], |a.samples|) && added[i].supersedes.None? {
      NoProblemNoNegative(items, {}, i);
    }
    ReadingsJoin(a.readings, added, |a.samples|);
    if s.status != Assayed {
      OnlyInAssayIsAssayed(s.status, s.kind, role);
      InAssayToAssayed(s.kind);
    }
    SetStatusMoves(a.samples, sample, Assayed);
    CertificatesStay(a, b);
    PaperStep(a, b);
  }

  lemma ReturnedIsHead(rows: seq<Reading>, triple: Triple, pick: nat)
    requires E.Returned(rows, triple, pick).Some?
    ensures IsHead(ReadingLinks(rows), triple, E.Returned(rows, triple, pick).value)
  {
    HighestHeadIs(ReadingLinks(rows), triple, |rows|);
  }

  lemma CorrectStep(a: Db, q: E.Correction, role: Role)
    requires Inv(a) && E.Correct(a, q, role).Ok?
    ensures var b := E.Correct(a, q, role).value;
      Inv(b) && Later(a, b) && StatusesMove(a.samples, b.samples)
  {
    var b := E.Correct(a, q, role).value;
    ReturnedIsHead(a.readings, q.triple, q.pick);
    ReadingJoins(a.readings, b.readings[|a.readings|], |a.samples|);
    assert SamplesLater(a.samples, b.samples);
    CertificatesStay(a, b);
    PaperStep(a, b);
  }
}
