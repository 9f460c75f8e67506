/** The services follow the rules of the bench: each grants exactly what they allow, and does exactly that. */
module LabRules {
  import opened Wrappers
  import opened Digits
  import opened Lifecycle
  import opened BatchLifecycle
  import opened Units
  import opened Values
  import opened Assay
  import opened Silver
  import opened Chains
  import opened LabTables
  import opened LabInvariant
  import opened LabSteps
  import opened ResultSteps
  import opened CertificateSteps
  import opened LabRuns
  import opened BenchRules
  import F = Furnace
  import B = BatchService
  import R = ResultService
  import E = ReadingService
  import C = CertificateService
  import U = SampleService

  // ----- Reasons and statuses ------------------------------------------------------------------

  lemma GivenIff(reason: Option<string>)
    ensures StatesReason(reason) <==> Given(reason)
  {
    if reason.Some? {
      forall i | 0 <= i < |reason.value| ensures IsSpace(reason.value[i]) <==> !Visible(reason.value[i]) {
        SpaceIff(reason.value[i]);
      }
    }
  }

  lemma SpaceIff(c: char)
    ensures IsSpace(c) <==> !Visible(c)
  {
  }

  lemma SetStatusOnly(samples: seq<SampleRow>, i: nat, t: Status)
    requires i < |samples|
    ensures OnlyStatus(samples, SetStatus(samples, i, t), i, t)
  {
  }

  // ----- Samples -----------------------------------------------------------------------------------

  lemma MoveRule(a: Db, i: nat, target: Status, reason: Option<string>, role: Role)
    ensures U.Move(a, i, target, reason, role).Ok? <==> MayMove(a, i, target, reason, role)
    ensures MayMove(a, i, target, reason, role) ==>
      var b := U.Move(a, i, target, reason, role).value;
      b == a.(samples := b.samples) && OnlyStatus(a.samples, b.samples, i, target)
  {
    GivenIff(reason);
    if i < |a.samples| {
      AllowedIff(a.samples[i].status, target, a.samples[i].kind, role, reason);
      SetStatusOnly(a.samples, i, target);
    }
  }

  // ----- Batches -------------------------------------------------------------------------------------

  lemma InBatchIff(a: Db, batch: nat, k: int)
    ensures InBatch(a, batch, k) <==> F.Holds(a.furnace, batch, k)
  {
  }

  lemma SlotFreeIff(a: Db, batch: nat, row: int, col: int)
    ensures SlotFree(a, batch, row, col) <==> !F.Occupied(a.furnace, batch, row, col)
  {
    if F.Occupied(a.furnace, batch, row, col) {
      var k :| 0 <= k < |a.furnace.crucibles| && F.TakesSlot(a.furnace, batch, row, col, k);
      assert InBatch(a, batch, k);
    } else {
      forall k | InBatch(a, batch, k)
        ensures a.furnace.crucibles[k].value.row != row || a.furnace.crucibles[k].value.col != col
      {
        assert !F.TakesSlot(a.furnace, batch, row, col, k);
      }
    }
  }

  lemma FirstChargeIff(a: Db, batch: nat, sample: nat)
    ensures FirstCharge(a, batch, sample) <==> !F.HasPrimary(a.furnace, batch, sample)
  {
    if F.HasPrimary(a.furnace, batch, sample) {
      var k :| 0 <= k < |a.furnace.crucibles| && F.IsPrimaryOf(a.furnace, batch, sample, k);
      assert InBatch(a, batch, k);
    } else {
      forall k | InBatch(a, batch, k)
        ensures a.furnace.crucibles[k].value.sample != Some(sample) || a.furnace.crucibles[k].value.insertion.Some?
      {
        assert !F.IsPrimaryOf(a.furnace, batch, sample, k);
      }
    }
  }

  lemma ChargeableIff(a: Db, ref: Reference, q: B.ChargeRequest, role: Role)
    ensures B.Chargeable(a, ref, q, role) <==> MayCharge(a, ref, q, role)
  {
    SlotFreeIff(a, q.batch, q.row, q.col);
    if q.sample.Some? {
      FirstChargeIff(a, q.batch, q.sample.value);
    }
  }

  /** A charge is granted exactly by the rules, on a slot from row 1, column 1 to the tray's last ones. */
  lemma ChargeRule(a: Db, ref: Reference, q: B.ChargeRequest, role: Role)
    ensures B.Charge(a, ref, q, role).Ok? <==> MayCharge(a, ref, q, role)
    ensures MayCharge(a, ref, q, role) ==> DidCharge(a, q, B.Charge(a, ref, q, role).value)
  {
    B.ChargeIff(a, ref, q, role);
    ChargeableIff(a, ref, q, role);
    if B.IsPrimary(q) && q.sample.value < |a.samples| {
      SetStatusOnly(a.samples, q.sample.value, InAssay);
    }
  }

  /** With everything else in order, the slot alone is refused, exactly when it is outside the tray. */
  lemma OutsideTrayIff(a: Db, ref: Reference, q: B.ChargeRequest, role: Role, row: int, col: int)
    requires MayCharge(a, ref, q, role) && SlotFree(a, q.batch, row, col)
    ensures var moved := B.Charge(a, ref, q.(row := row, col := col), role);
      && (moved.Ok? <==> 1 <= row <= ref.rows && 1 <= col <= ref.cols)
      && (moved.Err? ==> moved.error == OutsideTray)
  {
    var moved := q.(row := row, col := col);
    ChargeRule(a, ref, q, role);
    ChargeRule(a, ref, moved, role);
    SameContents(a, ref, q, moved, role);
  }

  lemma SameContents(a: Db, ref: Reference, q: B.ChargeRequest, moved: B.ChargeRequest, role: Role)
    requires moved == q.(row := moved.row, col := moved.col)
    ensures (q.sample.Some? != q.material.Some?) ==>
      B.CheckContents(a, ref, moved, role) == B.CheckContents(a, ref, q, role)
  {
  }

  lemma UnchargeRule(a: Db, batch: nat, k: nat, role: Role)
    requires Inv(a)
    ensures B.Uncharge(a, batch, k, role).Ok? <==> MayUncharge(a, batch, k, role)
    ensures MayUncharge(a, batch, k, role) ==> DidUncharge(a, k, B.Uncharge(a, batch, k, role).value)
  {
    UnchargeMeetsNoResult(a, batch, k, role);
    if MayUncharge(a, batch, k, role) {
      var c := a.furnace.crucibles[k].value;
      if c.sample.Some? && c.sample.value < |a.samples| {
        SetStatusOnly(a.samples, c.sample.value, ReadyForAssay);
      }
    }
  }

  lemma PartRule(a: Db, batch: nat, k: nat, lead: real, prill: real, acid: real, role: Role)
    ensures B.RecordParting(a, batch, k, lead, prill, acid, role).Ok?
        <==> MayMeasure(a, batch, k, CrucibleCupelled, role) && lead > 0.0 && prill > 0.0 && acid > 0.0
    ensures B.RecordParting(a, batch, k, lead, prill, acid, role).Ok? ==>
      DidPart(a, k, lead, prill, acid, B.RecordParting(a, batch, k, lead, prill, acid, role).value)
  {
  }

  lemma WeighRule(a: Db, batch: nat, k: nat, bead: real, role: Role)
    ensures B.RecordWeighing(a, batch, k, bead, role).Ok? <==> MayMeasure(a, batch, k, Parted, role) && bead >= 0.0
    ensures B.RecordWeighing(a, batch, k, bead, role).Ok? ==>
      DidWeigh(a, k, bead, B.RecordWeighing(a, batch, k, bead, role).value)
  {
  }

  lemma LoadedIff(a: Db, batch: nat)
    ensures F.Loaded(a.furnace, batch) <==> exists k :: InBatch(a, batch, k)
  {
    if F.Loaded(a.furnace, batch) {
      var k :| 0 <= k < |a.furnace.crucibles| && F.Holds(a.furnace, batch, k);
      assert InBatch(a, batch, k);
    } else {
      forall k ensures !InBatch(a, batch, k) {
        InBatchIff(a, batch, k);
      }
    }
  }

  lemma AdvanceRule(a: Db, batch: nat, target: BatchStatus, role: Role)
    ensures B.AdvanceBatch(a, batch, target, role).Ok? <==> MayAdvance(a, batch, target, role)
    ensures MayAdvance(a, batch, target, role) ==>
      DidAdvance(a, batch, target, B.AdvanceBatch(a, batch, target, role).value)
  {
    LoadedIff(a, batch);
  }

  // ----- Fire assay results -----------------------------------------------------------------------------

  lemma UnsupersededIff(rows: seq<FireAssay>, sample: nat, i: nat)
    requires ResultsChained(rows)
    ensures Unsuperseded(rows, sample, i) <==> CurrentResult(rows, sample) == Some(i)
  {
    var links := ResultLinks(rows);
    CurrentIsLast(links, sample);
    if Superseded(links, i) {
      var j :| 0 <= j < |links| && links[j].supersedes == Some(i);
      assert rows[j].supersedes == Some(i);
    }
    assert forall j :: 0 <= j < |rows| ==> links[j].supersedes == rows[j].supersedes;
  }

  lemma MayFollowIff(a: Db, e: R.Entry, role: Role)
    requires Inv(a) && EntersResults(role)
    ensures MayFollow(a, e) <==>
      R.Admit(a, e, role).Ok? && R.SupersessionProblems(e, R.Admit(a, e, role).value) == []
  {
    R.AdmitIff(a, e, role);
    GivenIff(e.reason);
    forall i: nat ensures Unsuperseded(a.results, e.sample, i) <==> CurrentResult(a.results, e.sample) == Some(i) {
      UnsupersededIff(a.results, e.sample, i);
    }
  }

  lemma UsableIff(a: Db, e: R.Entry)
    requires e.crucible.Some?
    ensures R.NamesUsable(a, e) <==> e.weight.None? && BoreBead(a, e.sample, e.crucible.value)
  {
  }

  lemma PortionSource(a: Db, e: R.Entry)
    ensures R.OnePortion(a, e) <==> PortionOf(a, e).Some?
    ensures R.OnePortion(a, e) ==> R.ResolvePortion(a, e).Ok? && R.ResolvePortion(a, e).value.portion == PortionOf(a, e)
  {
    R.PortionIff(a, e);
    if e.crucible.Some? {
      UsableIff(a, e);
    }
  }

  lemma WeighedHasBead(a: Db, k: nat)
    requires Inv(a) && F.Live(a.furnace, k)
    ensures F.At(a.furnace, k).status == Weighed <==> R.WasWeighed(F.At(a.furnace, k))
  {
    assert F.RowOk(F.At(a.furnace, k), a.furnace.batches);
  }

  lemma WeighingSource(a: Db, e: R.Entry, bead: Option<real>)
    requires Inv(a)
    ensures R.OneSourceEach(a, e, bead) <==> PortionOf(a, e).Some? && BeadOf(a, e, bead).Some?
    ensures R.OneSourceEach(a, e, bead) ==>
      var r := R.ResolveWeighing(a, e, bead);
      r.Ok? && r.value.portion == PortionOf(a, e) && r.value.bead == BeadOf(a, e, bead)
  {
    R.WeighingIff(a, e, bead);
    if e.crucible.Some? {
      UsableIff(a, e);
      if F.Live(a.furnace, e.crucible.value) {
        WeighedHasBead(a, e.crucible.value);
      }
    }
  }

  lemma NoProblems(a: Db, ref: Reference, e: R.Entry, s: seq<Problem>, p: seq<Problem>)
    ensures s + p + R.InstrumentProblems(ref, e) == [] <==> s == [] && p == [] && NamesInstrument(ref, e)
  {
  }

  /** Which weighed entries pass the checks, and the three numbers they stand for. */
  lemma CheckWeighedIs(a: Db, ref: Reference, e: R.Entry, w: R.Weighed, role: Role)
    requires Inv(a)
    ensures R.CheckWeighed(a, ref, e, w, role).Ok? <==>
      && EntersResults(role) && MayFollow(a, e) && NamesInstrument(ref, e)
      && PortionOf(a, e).Some? && BeadOf(a, e, w.bead).Some?
    ensures R.CheckWeighed(a, ref, e, w, role).Ok? ==>
      R.CheckWeighed(a, ref, e, w, role).value
      == R.Weighings(BeadOf(a, e, w.bead).value, PortionOf(a, e).value, SensitivityOf(ref, e, w.sensitivity))
  {
    R.AdmitIff(a, e, role);
    if EntersResults(role) {
      MayFollowIff(a, e, role);
      WeighingSource(a, e, w.bead);
      R.WeighingIff(a, e, w.bead);
      if R.Admit(a, e, role).Ok? && R.ResolveWeighing(a, e, w.bead).Ok? {
        NoProblems(a, ref, e, R.SupersessionProblems(e, R.Admit(a, e, role).value),
                   R.ResolveWeighing(a, e, w.bead).value.problems);
      }
    }
  }

  lemma WeighedRowIs(e: R.Entry, dore: Option<real>, bead: real, portion: real, limit: Option<real>)
    ensures R.WeighedRow(e, dore, bead, portion, limit).Ok? <==>
      && portion > 0.0 && bead >= 0.0 && (limit.Some? ==> limit.value > 0.0) && (bead == 0.0 ==> limit.Some?)
      && (dore.Some? ==> bead <= dore.value)
    ensures R.WeighedRow(e, dore, bead, portion, limit).Ok? ==>
      var row := R.WeighedRow(e, dore, bead, portion, limit).value;
      && row.sample == e.sample && row.crucible == e.crucible && row.supersedes == e.supersedes
      && row.weight == portion && row.finish == Gravimetric(bead, limit)
      && GravimetricGrade(bead, portion, limit) == Ok(row.grade)
      && (dore.None? ==> row.silverBead.None? && row.silver.None?)
      && (dore.Some? ==>
            && row.silverBead == Some(SilverBead(dore.value, bead)) && row.silver.Some?
            && SilverByDifference(dore.value, bead, portion) == Ok(row.silver.value))
  {
  }

  lemma RecordRule(a: Db, e: R.Entry, row: FireAssay)
    requires row.sample == e.sample < |a.samples| && row.supersedes == e.supersedes
    ensures DidRecord(a, e, R.Record(a, row)) && R.Record(a, row).results[|a.results|] == row
  {
    SetStatusOnly(a.samples, e.sample, Assayed);
  }

  /** A weighed entry is granted exactly by the rules, and its row holds what the rules say. */
  lemma WeighedRule(a: Db, ref: Reference, e: R.Entry, w: R.Weighed, role: Role)
    requires Inv(a)
    ensures R.EnterWeighed(a, ref, e, w, role).Ok? <==> MayEnterWeighed(a, ref, e, w, role)
    ensures MayEnterWeighed(a, ref, e, w, role) ==>
      var b := R.EnterWeighed(a, ref, e, w, role).value;
      DidRecord(a, e, b) && WeighedAs(a, ref, e, w, b.results[|a.results|])
  {
    CheckWeighedIs(a, ref, e, w, role);
    if R.CheckWeighed(a, ref, e, w, role).Ok? {
      var m := R.CheckWeighed(a, ref, e, w, role).value;
      var row := R.WeighedRow(e, w.dore, m.bead, m.portion, m.sensitivity);
      WeighedRowIs(e, w.dore, m.bead, m.portion, m.sensitivity);
      if row.Ok? {
        RecordRule(a, e, row.value);
      }
    }
  }

  lemma CheckReadIs(a: Db, ref: Reference, e: R.Entry, m: R.Read, role: Role)
    requires Inv(a)
    ensures R.CheckRead(a, ref, e, m, role).Ok? <==>
      && EntersResults(role) && MayFollow(a, e) && NamesInstrument(ref, e)
      && m.technique in {FireAssayAas, FireAssayIcpMs} && PortionOf(a, e).Some?
    ensures R.CheckRead(a, ref, e, m, role).Ok? ==>
      R.CheckRead(a, ref, e, m, role).value == R.Aliquot(PortionOf(a, e).value, DetectionOf(ref, e, m.detection))
  {
    R.AdmitIff(a, e, role);
    if EntersResults(role) {
      MayFollowIff(a, e, role);
      PortionSource(a, e);
      R.PortionIff(a, e);
      if R.Admit(a, e, role).Ok? && R.ResolvePortion(a, e).Ok? {
        NoProblems(a, ref, e, R.SupersessionProblems(e, R.Admit(a, e, role).value),
                   R.ResolvePortion(a, e).value.problems);
      }
    }
  }

  lemma ReadRowIs(e: R.Entry, m: R.Read, q: R.Aliquot)
    ensures var grade := SolutionFinishGrade(m.concentration, m.unit, m.volume, q.portion, q.detection, m.upper);
      && (R.ReadRow(e, m, q).Ok? <==> grade.Ok?)
      && (grade.Ok? ==>
            var row := R.ReadRow(e, m, q).value;
            && row.sample == e.sample && row.crucible == e.crucible && row.supersedes == e.supersedes
            && row.weight == q.portion && grade == Ok(row.grade)
            && row.finish == Solution(m.technique, m.concentration, m.unit, m.volume, q.detection)
            && row.silverBead.None? && row.silver.None?)
  {
  }

  /** So is a solution entry. */
  lemma ReadRule(a: Db, ref: Reference, e: R.Entry, m: R.Read, role: Role)
    requires Inv(a)
    ensures R.EnterRead(a, ref, e, m, role).Ok? <==> MayEnterRead(a, ref, e, m, role)
    ensures MayEnterRead(a, ref, e, m, role) ==>
      var b := R.EnterRead(a, ref, e, m, role).value;
      DidRecord(a, e, b) && ReadAs(a, ref, e, m, b.results[|a.results|])
  {
    CheckReadIs(a, ref, e, m, role);
    if R.CheckRead(a, ref, e, m, role).Ok? {
      var q := R.CheckRead(a, ref, e, m, role).value;
      ReadRowIs(e, m, q);
      if R.ReadRow(e, m, q).Ok? {
        RecordRule(a, e, R.ReadRow(e, m, q).value);
      }
    }
  }

  // ----- Element readings ---------------------------------------------------------------------------------

  /** A new element, not negative, in a mass fraction. */
  predicate ItemFine(items: seq<E.Item>, seen: set<string>, i: nat)
    requires i < |items|
  {
    && items[i].element !in seen && items[i].value >= 0.0
    && items[i].unit in {Ppm, Ppb, Percent, GPerTonne, OzPerTon}
    && forall j :: 0 <= j < i ==> items[j].element != items[i].element
  }

  lemma {:induction false} NoItemProblemsIff(items: seq<E.Item>, seen: set<string>)
    ensures E.ItemProblems(items, seen) == [] <==> forall i :: 0 <= i < |items| ==> ItemFine(items, seen, i)
    decreases |items|
  {
    if E.ItemProblems(items, seen) == [] {
      forall i | 0 <= i < |items| ensures ItemFine(items, seen, i) {
        NoProblemNoNegative(items, seen, i);
      }
    } else if E.OneItemProblems(items[0], seen) == [] {
      var rest := items[1..];
      NoItemProblemsIff(rest, seen + {items[0].element});
      var i :| 0 <= i < |rest| && !ItemFine(rest, seen + {items[0].element}, i);
      assert forall j :: 0 <= j <= i ==> items[j + 1] == rest[j];
      assert !ItemFine(items, seen, i + 1);
    } else {
      assert !ItemFine(items, seen, 0);
    }
  }

  lemma AllFineIff(items: seq<E.Item>)
    ensures (forall i :: 0 <= i < |items| ==> ItemFine(items, {}, i)) <==>
      && (forall i :: 0 <= i < |items| ==>
            items[i].value >= 0.0 && items[i].unit in {Ppm, Ppb, Percent, GPerTonne, OzPerTon})
      && (forall i, j :: 0 <= i < j < |items| ==> items[i].element != items[j].element)
  {
    if forall i :: 0 <= i < |items| ==> ItemFine(items, {}, i) {
      forall i | 0 <= i < |items|
        ensures items[i].value >= 0.0 && items[i].unit in {Ppm, Ppb, Percent, GPerTonne, OzPerTon}
        ensures forall j :: 0 <= j < i ==> items[j].element != items[i].element
      {
        assert ItemFine(items, {}, i);
      }
    }
  }

  lemma MayImportIff(a: Db, sample: nat, items: seq<E.Item>, role: Role)
    ensures E.MayImport(a, sample, items, role) <==> MayImport(a, sample, items, role)
  {
    NoItemProblemsIff(items, {});
    AllFineIff(items);
  }

  lemma ImportRule(a: Db, sample: nat, digest: Digest, items: seq<E.Item>, role: Role)
    ensures E.Import(a, sample, digest, items, role).Ok? <==> MayImport(a, sample, items, role)
    ensures MayImport(a, sample, items, role) ==>
      DidImport(a, sample, digest, items, E.Import(a, sample, digest, items, role).value)
  {
    E.ImportIff(a, sample, items, role);
    MayImportIff(a, sample, items, role);
    if E.Import(a, sample, digest, items, role).Ok? {
      SetStatusOnly(a.samples, sample, Assayed);
      ImportStores(a.readings, sample, digest, items);
      ImportIs(a, sample, digest, items, role);
    }
  }

  lemma ImportIs(a: Db, sample: nat, digest: Digest, items: seq<E.Item>, role: Role)
    requires E.Import(a, sample, digest, items, role).Ok?
    ensures sample < |a.samples|
    ensures E.Import(a, sample, digest, items, role).value ==
      a.(readings := a.readings + E.ImportedAll(sample, digest, items),
         samples := SetStatus(a.samples, sample, Assayed))
  {
  }

  lemma ImportStores(rows: seq<Reading>, sample: nat, digest: Digest, items: seq<E.Item>)
    ensures var after := rows + E.ImportedAll(sample, digest, items);
      && |after| == |rows| + |items| && after[..|rows|] == rows
      && forall i :: 0 <= i < |items| ==> ImportedAs(sample, digest, items[i], after[|rows| + i])
  {
    forall i | 0 <= i < |items|
      ensures ImportedAs(sample, digest, items[i], E.ImportedAll(sample, digest, items)[i])
    {
      ImportedIs(sample, digest, items[i]);
    }
  }

  lemma ImportedIs(sample: nat, digest: Digest, item: E.Item)
    ensures ImportedAs(sample, digest, item, E.Imported(sample, digest, item))
  {
  }

  lemma CurrentReadingIff(rows: seq<Reading>, triple: Triple, i: nat)
    ensures CurrentReading(rows, triple, i) <==> IsHead(ReadingLinks(rows), triple, i)
  {
    var links := ReadingLinks(rows);
    if Superseded(links, i) {
      var j :| 0 <= j < |links| && links[j].supersedes == Some(i);
      assert rows[j].supersedes == Some(i);
    }
    assert forall j :: 0 <= j < |rows| ==> links[j].supersedes == rows[j].supersedes;
  }

  lemma ReturnedIff(rows: seq<Reading>, triple: Triple, pick: nat)
    ensures E.Returned(rows, triple, pick).Some? <==> exists i :: CurrentReading(rows, triple, i)
    ensures E.Returned(rows, triple, pick).Some? ==>
      CurrentReading(rows, triple, E.Returned(rows, triple, pick).value)
  {
    HighestHeadIs(ReadingLinks(rows), triple, |rows|);
    forall i: nat ensures CurrentReading(rows, triple, i) <==> IsHead(ReadingLinks(rows), triple, i) {
      CurrentReadingIff(rows, triple, i);
    }
  }

  lemma CorrectRule(a: Db, q: E.Correction, role: Role)
    ensures E.Correct(a, q, role).Ok? <==> MayCorrect(a, q, role)
    ensures MayCorrect(a, q, role) ==> DidCorrect(a, q, E.Correct(a, q, role).value)
  {
    ReturnedIff(a.readings, q.triple, q.pick);
  }

  // ----- Certificates ----------------------------------------------------------------------------------------

  lemma CertifyIff(a: Db, client: nat, id: nat)
    requires Inv(a)
    ensures MayCertify(a, client, id) <==>
      id < |a.samples| && a.samples[id].client == client && CurrentResult(a.results, id).Some?
  {
    forall i: nat ensures Unsuperseded(a.results, id, i) <==> CurrentResult(a.results, id) == Some(i) {
      UnsupersededIff(a.results, id, i);
    }
  }

  lemma {:induction false} ResolvedIff(a: Db, client: nat, ids: seq<nat>, seen: set<nat>)
    requires Inv(a)
    ensures C.ResolveFrom(a, client, ids, seen).problems == [] <==>
      && (forall i :: 0 <= i < |ids| ==> MayCertify(a, client, ids[i]) && ids[i] !in seen)
      && (forall i, j :: 0 <= i < j < |ids| ==> ids[i] != ids[j])
    decreases |ids|
  {
    if C.ResolveFrom(a, client, ids, seen).problems == [] {
      forall i | 0 <= i < |ids|
        ensures MayCertify(a, client, ids[i]) && ids[i] !in seen
        ensures forall j :: 0 <= j < i ==> ids[j] != ids[i]
      {
        ResolvedAll(a, client, ids, seen, i);
        CertifyIff(a, client, ids[i]);
      }
    } else if ids != [] {
      var rest := ids[1..];
      CertifyIff(a, client, ids[0]);
      ResolvedIff(a, client, rest, seen + {ids[0]});
      assert forall i :: 0 <= i < |rest| ==> rest[i] == ids[i + 1];
    }
  }

  lemma AmendIff(a: Db, q: C.Request)
    ensures C.SupersessionProblems(a, q) == [] <==> (q.supersedes.Some? ==> MayAmend(a, q, q.supersedes.value))
  {
    GivenIff(q.reason);
    if q.supersedes.Some? {
      var links, c := CertificateLinks(a.certificates), q.supersedes.value;
      if Superseded(links, c) {
        var j :| 0 <= j < |links| && links[j].supersedes == Some(c);
        assert a.certificates[j].supersedes == Some(c);
      }
      assert forall j :: 0 <= j < |links| ==> links[j].supersedes == a.certificates[j].supersedes;
    }
  }

  lemma IssueGrantedIff(a: Db, ref: Reference, q: C.Request, role: Role)
    requires Inv(a)
    ensures C.Issue(a, ref, q, role).Ok? <==> MayIssue(a, ref, q, role)
  {
    AmendIff(a, q);
    ResolvedIff(a, q.client, q.samples, {});
    var r := C.ResolveSamples(a, q.client, q.samples);
    assert r.problems + C.SupersessionProblems(a, q) == [] <==> r.problems == [] && C.SupersessionProblems(a, q) == [];
  }

  lemma FrozenReadings(a: Db, sample: nat, r: nat)
    ensures r in CurrentReadings(a.readings, sample) <==>
      r < |a.readings| && CurrentReading(a.readings, a.readings[r].triple, r) && a.readings[r].triple.sample == sample
  {
    if r < |a.readings| {
      CurrentReadingIff(a.readings, a.readings[r].triple, r);
    }
  }

  lemma LineIs(a: Db, ref: Reference, q: C.Request, role: Role, i: nat)
    requires Inv(a) && C.Issue(a, ref, q, role).Ok? && i < |q.samples|
    ensures var c := C.Issue(a, ref, q, role).value.certificates[|a.certificates|];
      |c.lines| == |q.samples| && LineOf(a, q.samples[i], c.lines[i])
  {
    FreezesWhatIsCurrent(a, ref, q, role, i);
    var line := C.Issue(a, ref, q, role).value.certificates[|a.certificates|].lines[i];
    UnsupersededIff(a.results, q.samples[i], line.result);
    forall r: nat
      ensures r in line.readings <==>
        r < |a.readings| && CurrentReading(a.readings, a.readings[r].triple, r)
        && a.readings[r].triple.sample == q.samples[i]
    {
      FrozenReadings(a, q.samples[i], r);
    }
  }

  lemma ReportIs(a: Db, ref: Reference, q: C.Request, role: Role)
    requires C.Issue(a, ref, q, role).Ok?
    ensures var b := C.Issue(a, ref, q, role).value;
      |b.samples| == |a.samples| && forall i :: 0 <= i < |a.samples| ==>
        b.samples[i] == if i in q.samples && a.samples[i].status == Assayed
                        then SampleRow(a.samples[i].client, a.samples[i].kind, a.samples[i].received, Reported)
                        else a.samples[i]
  {
    IssueGranted(a, ref, q, role);
    forall i | 0 <= i < |a.samples|
      ensures C.Covers(C.ResolveSamples(a, q.client, q.samples).pairs, i) <==> i in q.samples
    {
      CoversNamed(a, q.client, q.samples, i);
    }
  }

  /** A certificate is issued exactly by the rules: by a lab manager, of current rows, over a current certificate. */
  lemma IssueRule(a: Db, ref: Reference, q: C.Request, role: Role)
    requires Inv(a)
    ensures C.Issue(a, ref, q, role).Ok? <==> MayIssue(a, ref, q, role)
    ensures MayIssue(a, ref, q, role) ==> DidIssue(a, q, C.Issue(a, ref, q, role).value)
  {
    IssueGrantedIff(a, ref, q, role);
    if MayIssue(a, ref, q, role) {
      var b := C.Issue(a, ref, q, role).value;
      LineIs(a, ref, q, role, 0);
      forall i | 0 <= i < |q.samples| ensures LineOf(a, q.samples[i], b.certificates[|a.certificates|].lines[i]) {
        LineIs(a, ref, q, role, i);
      }
      ReportIs(a, ref, q, role);
    }
  }

  // ----- Every request ----------------------------------------------------------------------------------------

  lemma FurnaceRules(a: Db, e: Event)
    requires Inv(a) && IsFurnaceOp(e.op)
    ensures Apply(a, e).Ok? <==> Granted(a, e)
    ensures Granted(a, e) ==> Did(a, e, After(a, e))
  {
    match e.op {
      case OpenBatch(_, _) =>
      case Charge(q, role) => ChargeRule(a, e.ref, q, role);
      case Uncharge(batch, k, role) => UnchargeRule(a, batch, k, role);
      case Part(batch, k, lead, prill, acid, role) => PartRule(a, batch, k, lead, prill, acid, role);
      case Weigh(batch, k, bead, role) => WeighRule(a, batch, k, bead, role);
      case Advance(batch, stage, role) => AdvanceRule(a, batch, stage, role);
    }
  }

  lemma PaperRules(a: Db, e: Event)
    requires Inv(a) && !IsFurnaceOp(e.op)
    ensures Apply(a, e).Ok? <==> Granted(a, e)
    ensures Granted(a, e) ==> Did(a, e, After(a, e))
  {
    match e.op {
      case Receive(_, _, _, _) =>
      case MoveSample(sample, target, reason, role) => MoveRule(a, sample, target, reason, role);
      case EnterWeighed(entry, w, role) => WeighedRule(a, e.ref, entry, w, role);
      case EnterRead(entry, m, role) => ReadRule(a, e.ref, entry, m, role);
      case Import(sample, digest, items, role) => ImportRule(a, sample, digest, items, role);
      case Correct(q, role) => CorrectRule(a, q, role);
      case Issue(q, role) => IssueRule(a, e.ref, q, role);
    }
  }

  /** In every reachable state a request is granted exactly when the rules allow it. */
  lemma GrantedIff(events: seq<Event>, e: Event)
    ensures Apply(Run(EMPTY, events), e).Ok? <==> Granted(Run(EMPTY, events), e)
  {
    EveryRunKeepsInv(events);
    EveryRequestFollowsRules(Run(EMPTY, events), e);
  }

  /** And then it leaves behind exactly what the rules say; a refused one leaves everything as it was. */
  lemma EveryRequestFollowsRules(a: Db, e: Event)
    requires Inv(a)
    ensures Apply(a, e).Ok? <==> Granted(a, e)
    ensures if Granted(a, e) then Did(a, e, After(a, e)) else After(a, e) == a
  {
    if IsFurnaceOp(e.op) {
      FurnaceRules(a, e);
    } else {
      PaperRules(a, e);
    }
  }

  /** Who acted: nobody enters, corrects, rejects or signs without the role for it, whatever else is in order. */
  lemma EveryGrantHasItsRole(a: Db, e: Event)
    requires Inv(a) && Apply(a, e).Ok?
    ensures e.op.role != ClientRole
    ensures e.op.EnterWeighed? || e.op.EnterRead? || e.op.Import? || e.op.Correct? ==>
      e.op.role in {Analyst, Supervisor, LabManager}
    ensures e.op.MoveSample? && e.op.target == Rejected ==> e.op.role in {Supervisor, LabManager}
    ensures e.op.Issue? ==> e.op.role == LabManager
  {
    EveryRequestFollowsRules(a, e);
  }

  /** A result row, in every later state, is the one the rules say was entered. */
  lemma ResultsReadAsEntered(a: Db, e: Event, more: seq<Event>)
    requires Inv(a) && Apply(a, e).Ok? && (e.op.EnterWeighed? || e.op.EnterRead?)
    ensures var n, b := |a.results|, Run(After(a, e), more);
      && n < |b.results| && NamesInstrument(e.ref, e.op.entry)
      && (e.op.EnterWeighed? ==> WeighedAs(a, e.ref, e.op.entry, e.op.weighed, b.results[n]))
      && (e.op.EnterRead? ==> ReadAs(a, e.ref, e.op.entry, e.op.read, b.results[n]))
  {
    EveryRequestFollowsRules(a, e);
    EveryStep(a, e);
    RunIsLater(After(a, e), more);
  }
}
