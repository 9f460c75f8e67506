/** Every granted request keeps the invariant and leads to a later state. */
module LabSteps {
  import opened Wrappers
  import opened Lifecycle
  import opened BatchLifecycle
  import opened Units
  import opened Values
  import opened Assay
  import opened Chains
  import opened LabTables
  import F = Furnace
  import H = FurnaceHistory
  import opened LabInvariant
  import B = BatchService
  import R = ResultService
  import E = ReadingService
  import C = CertificateService

  /** Every sample's status moved, at most once, by a move the services make; new samples are received. */
  ghost predicate StatusesMove(a: seq<SampleRow>, b: seq<SampleRow>) {
    && |a| <= |b|
    && (forall i :: 0 <= i < |a| ==> StatusMove(a[i].status, b[i].status, a[i].kind))
    && (forall i :: |a| <= i < |b| ==> b[i].status == Received)
  }

  lemma SetStatusMoves(samples: seq<SampleRow>, i: nat, status: Status)
    requires i < |samples| && StatusMove(samples[i].status, status, samples[i].kind)
    ensures SamplesLater(samples, SetStatus(samples, i, status)) && StatusesMove(samples, SetStatus(samples, i, status))
  {
  }

  /** No sample became reported. */
  ghost predicate NoneReported(a: seq<SampleRow>, b: seq<SampleRow>) {
    |b| == |a| && forall i :: 0 <= i < |a| && b[i].status == Reported ==> a[i].status == Reported
  }

  // ----- Furnace requests ------------------------------------------------------------------

  /** A request that touches only the furnace and statuses. */
  lemma FurnaceStep(a: Db, b: Db)
    requires Inv(a) && b == Db(b.samples, b.furnace, a.results, a.readings, a.certificates)
    requires SamplesLater(a.samples, b.samples) && NoneReported(a.samples, b.samples)
    requires F.Inv(b.furnace) && H.Follows(a.furnace, b.furnace)
    requires CruciblesNamed(b.furnace, b.samples) && InAssayAreCharged(b.samples, b.furnace)
    ensures Inv(b) && Later(a, b)
  {
    AllBackedStay(a.results, a.furnace, b.furnace);
    CertificatesStay(a, b);
    forall i | 0 <= i < |b.samples| && b.samples[i].status == Reported ensures Certified(b.certificates, i) {
      assert a.samples[i].status == Reported;
    }
  }

  /** Crucibles that are still there, with the charge they had, still account for the same samples. */
  ghost predicate KeepsCharges(f: F.Tables, g: F.Tables) {
    && (forall k :: F.Live(f, k) ==> F.Live(g, k) && F.SameCharge(F.At(f, k), F.At(g, k)))
    && (forall k :: F.Live(g, k) && k < |f.crucibles| ==> F.Live(f, k))
  }

  lemma ChargedStays(f: F.Tables, g: F.Tables, sample: nat)
    requires KeepsCharges(f, g) && HasPrimaryCharge(f, sample)
    ensures HasPrimaryCharge(g, sample)
  {
    var k :| 0 <= k < |f.crucibles| && PrimaryCharge(f, sample, k);
    assert PrimaryCharge(g, sample, k);
  }

  /** Opening, advancing and measuring move no sample and no charge. */
  lemma StatuslessFurnaceStep(a: Db, g: F.Tables)
    requires Inv(a) && F.Inv(g) && H.Follows(a.furnace, g)
    requires KeepsCharges(a.furnace, g) && |g.crucibles| == |a.furnace.crucibles|
    ensures Inv(a.(furnace := g)) && Later(a, a.(furnace := g)) && StatusesMove(a.samples, a.(furnace := g).samples)
  {
    forall k | F.Live(g, k) ensures CrucibleNamed(F.At(g, k), a.samples) {
      assert F.Live(a.furnace, k) && F.SameCharge(F.At(a.furnace, k), F.At(g, k));
      assert CrucibleNamed(F.At(a.furnace, k), a.samples);
    }
    forall i | 0 <= i < |a.samples| && a.samples[i].status == InAssay ensures HasPrimaryCharge(g, i) {
      ChargedStays(a.furnace, g, i);
    }
    FurnaceStep(a, a.(furnace := g));
  }

  lemma CreateBatchStep(a: Db, ref: Reference, instrument: Option<nat>, role: Role)
    requires Inv(a) && B.CreateBatch(a, ref, instrument, role).Ok?
    ensures var b := B.CreateBatch(a, ref, instrument, role).value;
      Inv(b) && Later(a, b) && StatusesMove(a.samples, b.samples)
  {
    var g := a.furnace.(batches := a.furnace.batches + [Pending]);
    F.OpenBatchKeepsInv(a.furnace);
    H.OpenBatchFollows(a.furnace);
    assert forall k :: F.Live(g, k) <==> F.Live(a.furnace, k);
    StatuslessFurnaceStep(a, g);
  }

  lemma MeasureStep(a: Db, k: nat, c: F.Crucible)
    requires Inv(a) && F.Live(a.furnace, k)
    requires F.RowOk(c, a.furnace.batches) && H.Progressed(F.At(a.furnace, k), c)
    ensures var b := a.(furnace := F.Measure(a.furnace, k, c));
      Inv(b) && Later(a, b) && StatusesMove(a.samples, b.samples)
  {
    var g := F.Measure(a.furnace, k, c);
    F.MeasureKeepsInv(a.furnace, k, c);
    H.MeasureFollows(a.furnace, k, c);
    assert forall i :: F.Live(g, i) <==> F.Live(a.furnace, i);
    assert forall i :: F.Live(g, i) && i != k ==> F.At(g, i) == F.At(a.furnace, i);
    StatuslessFurnaceStep(a, g);
  }

  lemma PartingStep(a: Db, batch: nat, k: nat, lead: real, prill: real, acid: real, role: Role)
    requires Inv(a) && B.RecordParting(a, batch, k, lead, prill, acid, role).Ok?
    ensures var b := B.RecordParting(a, batch, k, lead, prill, acid, role).value;
      Inv(b) && Later(a, b) && StatusesMove(a.samples, b.samples)
  {
    var c := F.At(a.furnace, k);
    assert F.RowOk(c, a.furnace.batches);
    MeasureStep(a, k, F.Parting(c, lead, prill, acid));
  }

  lemma WeighingStep(a: Db, batch: nat, k: nat, bead: real, role: Role)
    requires Inv(a) && B.RecordWeighing(a, batch, k, bead, role).Ok?
    ensures var b := B.RecordWeighing(a, batch, k, bead, role).value;
      Inv(b) && Later(a, b) && StatusesMove(a.samples, b.samples)
  {
    var c := F.At(a.furnace, k);
    assert F.RowOk(c, a.furnace.batches);
    MeasureStep(a, k, F.Weighing(c, bead));
  }

  lemma AdvanceStep(a: Db, batch: nat, target: BatchStatus, role: Role)
    requires Inv(a) && B.AdvanceBatch(a, batch, target, role).Ok?
    ensures var b := B.AdvanceBatch(a, batch, target, role).value;
      Inv(b) && Later(a, b) && StatusesMove(a.samples, b.samples)
  {
    F.AdvanceKeepsInv(a.furnace, batch, target);
    H.AdvanceFollows(a.furnace, batch, target);
    F.AdvanceRows(a.furnace, batch, target);
    StatuslessFurnaceStep(a, F.Advance(a.furnace, batch, target));
  }

  // ----- Charging and un-charging --------------------------------------------------------------

  lemma ChargeGranted(a: Db, ref: Reference, q: B.ChargeRequest, role: Role)
    requires Inv(a) && B.Charge(a, ref, q, role).Ok?
    ensures F.MayPlace(a.furnace, B.NewCrucible(q))
    ensures q.sample.Some? ==> q.sample.value < |a.samples|
    ensures CrucibleNamed(B.NewCrucible(q), a.samples)
    ensures B.IsPrimary(q) ==> StatusMove(a.samples[q.sample.value].status, InAssay, a.samples[q.sample.value].kind)
    ensures B.Charge(a, ref, q, role).value == a.(furnace := F.Place(a.furnace, B.NewCrucible(q)),
      samples := if B.IsPrimary(q) then SetStatus(a.samples, q.sample.value, InAssay) else a.samples)
  {
    if B.IsPrimary(q) {
      var s := a.samples[q.sample.value];
      AllowedIsMove(s.status, InAssay, s.kind, role, None);
    }
  }

  lemma PlacedCharges(f: F.Tables, c: F.Crucible)
    ensures KeepsCharges(f, F.Place(f, c))
    ensures c.sample.Some? && c.insertion.None? ==> HasPrimaryCharge(F.Place(f, c), c.sample.value)
  {
    var g := F.Place(f, c);
    assert forall k :: F.Live(f, k) ==> F.Live(g, k) && F.At(g, k) == F.At(f, k);
    if c.sample.Some? && c.insertion.None? {
      assert PrimaryCharge(g, c.sample.value, |f.crucibles|);
    }
  }

  lemma ChargeStep(a: Db, ref: Reference, q: B.ChargeRequest, role: Role)
    requires Inv(a) && B.Charge(a, ref, q, role).Ok?
    ensures var b := B.Charge(a, ref, q, role).value;
      Inv(b) && Later(a, b) && StatusesMove(a.samples, b.samples)
  {
    ChargeGranted(a, ref, q, role);
    var c, b := B.NewCrucible(q), B.Charge(a, ref, q, role).value;
    F.PlaceKeepsInv(a.furnace, c);
    H.PlaceFollows(a.furnace, c);
    PlacedCharges(a.furnace, c);
    if B.IsPrimary(q) {
      SetStatusMoves(a.samples, q.sample.value, InAssay);
    }
    CruciblesNamedStay(a.furnace, a.samples, b.samples);
    forall k | F.Live(b.furnace, k) ensures CrucibleNamed(F.At(b.furnace, k), b.samples) {
      assert k < |a.furnace.crucibles| ==> F.Live(a.furnace, k) && F.At(b.furnace, k) == F.At(a.furnace, k);
    }
    forall i | 0 <= i < |b.samples| && b.samples[i].status == InAssay ensures HasPrimaryCharge(b.furnace, i) {
      if !(B.IsPrimary(q) && i == q.sample.value) {
        ChargedStays(a.furnace, b.furnace, i);
      }
    }
    FurnaceStep(a, b);
  }

  lemma RevertedMoves(a: Db, c: F.Crucible)
    ensures SamplesLater(a.samples, B.Reverted(a, c)) && StatusesMove(a.samples, B.Reverted(a, c))
    ensures NoneReported(a.samples, B.Reverted(a, c))
    ensures forall i :: 0 <= i < |a.samples| && B.Reverted(a, c)[i].status == InAssay ==>
      a.samples[i].status == InAssay && (c.sample == Some(i) ==> c.insertion.Some?)
  {
  }

  lemma UnchargeStep(a: Db, batch: nat, k: nat, role: Role)
    requires Inv(a) && B.Uncharge(a, batch, k, role).Ok?
    ensures var b := B.Uncharge(a, batch, k, role).value;
      Inv(b) && Later(a, b) && StatusesMove(a.samples, b.samples)
  {
    var b, c := B.Uncharge(a, batch, k, role).value, F.At(a.furnace, k);
    F.RemoveKeepsInv(a.furnace, k);
    H.RemoveFollows(a.furnace, k);
    RevertedMoves(a, c);
    assert forall i :: F.Live(b.furnace, i) ==> F.Live(a.furnace, i) && F.At(b.furnace, i) == F.At(a.furnace, i);
    CruciblesNamedStay(a.furnace, a.samples, b.samples);
    forall i | 0 <= i < |b.samples| && b.samples[i].status == InAssay ensures HasPrimaryCharge(b.furnace, i) {
      var j :| 0 <= j < |a.furnace.crucibles| && PrimaryCharge(a.furnace, i, j);
      assert j != k;
      assert PrimaryCharge(b.furnace, i, j);
    }
    FurnaceStep(a, b);
  }

  /** Only crucibles past cupellation are named by results, so removal never meets a result. */
  lemma UnchargeMeetsNoResult(a: Db, batch: nat, k: nat, role: Role)
    requires Inv(a)
    ensures B.Uncharge(a, batch, k, role) != Err(Integrity)
    ensures (F.Holds(a.furnace, batch, k) && batch < |a.furnace.batches| && a.furnace.batches[batch] == Charging
      && role != ClientRole) <==> B.Uncharge(a, batch, k, role).Ok?
  {
  }
}
