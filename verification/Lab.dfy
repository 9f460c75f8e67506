/**
 The session the bench services write through: each request checks, then updates the
 tables in place, and a refused request leaves them as they were.
 */
module Lab {
  import opened Wrappers
  import opened Lifecycle
  import opened BatchLifecycle
  import opened Units
  import opened Assay
  import opened Chains
  import opened LabTables
  import opened Silver
  import F = Furnace
  import H = FurnaceHistory
  import opened LabInvariant
  import opened LabSteps
  import opened ResultSteps
  import opened CertificateSteps
  import B = BatchService
  import R = ResultService
  import E = ReadingService
  import C = CertificateService
  import U = SampleService
  import LabRuns

  /** The request did what its specification says: its whole effect, or its refusal and nothing. */
  predicate Served(before: Db, spec: Result<Db, Refusal>, after: Db, refused: Option<Refusal>) {
    match spec
    case Ok(db) => after == db && refused.None?
    case Err(why) => after == before && refused == Some(why)
  }

  class Session {
    var samples: seq<SampleRow>
    var batches: seq<BatchStatus>
    var crucibles: seq<Option<F.Crucible>>
    var results: seq<FireAssay>
    var readings: seq<Reading>
    var certificates: seq<Certificate>

    ghost function Contents(): Db
      reads this
    {
      Db(samples, F.Tables(batches, crucibles), results, readings, certificates)
    }

    ghost predicate Valid()
      reads this
    {
      Inv(Contents())
    }

    constructor ()
      ensures Valid() && Contents() == EMPTY
    {
      samples, batches, crucibles, results, readings, certificates := [], [], [], [], [], [];
    }

    // ----- sample_lifecycle/service.py ------------------------------------------------------

    method AdvanceSample(sample: nat, target: Status, reason: Option<string>, role: Role)
      returns (refused: Option<Refusal>)
      requires Valid()
      modifies this`samples
      ensures Valid()
      ensures Served(old(Contents()), U.Move(old(Contents()), sample, target, reason, role), Contents(), refused)
    {
      if target !in {InPrep, ReadyForAssay, Rejected} {
        return Some(BadRequest);
      }
      if sample >= |samples| {
        return Some(NotFound(TheSample));
      }
      var move := CheckTransition(samples[sample].status, target, samples[sample].kind, role, reason);
      if move.Err? {
        return Some(Lifecycle(move.error));
      }
      LabRuns.MoveStep(Contents(), sample, target, reason, role);
      samples := SetStatus(samples, sample, target);
      refused := None;
    }

    // ----- batches/service.py ---------------------------------------------------------------

    method CreateBatch(ref: Reference, instrument: Option<nat>, role: Role) returns (refused: Option<Refusal>)
      requires Valid()
      modifies this`batches
      ensures Valid()
      ensures Served(old(Contents()), B.CreateBatch(old(Contents()), ref, instrument, role), Contents(), refused)
    {
      if role !in BENCH_ROLES {
        return Some(Lifecycle(InsufficientRole));
      }
      if instrument.Some? && instrument.value >= |ref.instruments| {
        return Some(Invalid([NoInstrument]));
      }
      CreateBatchStep(Contents(), ref, instrument, role);
      batches := batches + [Pending];
      refused := None;
    }

    method CheckContents(ref: Reference, q: B.ChargeRequest, role: Role) returns (refused: Option<Refusal>)
      requires q.sample.Some? != q.material.Some?
      ensures refused.None? <==> B.MayFill(Contents(), ref, q) && (B.IsPrimary(q) ==> role != ClientRole)
      ensures refused.Some? ==> B.CheckContents(Contents(), ref, q, role) == Err(refused.value)
    {
      B.ContentsIff(Contents(), ref, q, role);
      refused := None;
      if q.sample.Some? {
        if q.sample.value >= |samples| {
          return Some(NotFound(TheSample));
        }
        var s := samples[q.sample.value];
        if q.insertion.None? {
          var move := CheckTransition(s.status, InAssay, s.kind, role, None);
          if move.Err? {
            return Some(Lifecycle(move.error));
          }
        } else if s.status != InAssay {
          return Some(Lifecycle(NotAllowed));
        }
        if s.received.Some? && q.weight > s.received.value {
          return Some(Invalid([ExceedsReceived]));
        }
      } else if q.material.value >= |ref.activeMaterials| {
        return Some(NotFound(TheMaterial));
      }
    }

    method CheckBatchAndPosition(ref: Reference, q: B.ChargeRequest) returns (problems: seq<Problem>)
      requires q.batch < |batches| && (q.material.Some? ==> q.material.value < |ref.activeMaterials|)
      ensures NotOpenForCharging in problems <==> batches[q.batch] != Charging
      ensures SlotTaken in problems <==> F.Occupied(F.Tables(batches, crucibles), q.batch, q.row, q.col)
      ensures MaterialRetired in problems <==> q.material.Some? && !ref.activeMaterials[q.material.value]
      ensures problems == B.ChargeProblems(Contents(), ref, q)
    {
      problems := [];
      if batches[q.batch] != Charging {
        problems := problems + [NotOpenForCharging];
      }
      if F.Occupied(F.Tables(batches, crucibles), q.batch, q.row, q.col) {
        problems := problems + [SlotTaken];
      }
      if q.material.Some? && !ref.activeMaterials[q.material.value] {
        problems := problems + [MaterialRetired];
      }
    }

    /** Everything that can refuse a charge, in order. */
    method CheckCharge(ref: Reference, q: B.ChargeRequest, role: Role) returns (refused: Option<Refusal>)
      ensures refused.None? <==> B.Chargeable(Contents(), ref, q, role)
      ensures refused.Some? ==> B.Charge(Contents(), ref, q, role) == Err(refused.value)
    {
      B.ChargeIff(Contents(), ref, q, role);
      if role !in BENCH_ROLES {
        return Some(Lifecycle(InsufficientRole));
      }
      if q.sample.None? == q.material.None? {
        return Some(Invalid([ExactlyOneOfSampleAndMaterial]));
      }
      if q.insertion.Some? && q.material.Some? {
        return Some(Invalid([DuplicateOfMaterial]));
      }
      if q.batch >= |batches| {
        return Some(NotFound(TheBatch));
      }
      refused := CheckContents(ref, q, role);
      if refused.Some? {
        return;
      }
      if q.recipe >= |ref.nominalPortions| {
        return Some(NotFound(TheRecipe));
      }
      if !InTray(q.row, q.col, ref.rows, ref.cols) {
        return Some(OutsideTray);
      }
      if !(ref.nominalPortions[q.recipe] > 0.0 && q.weight > 0.0) {
        return Some(FluxError);
      }
      var problems := CheckBatchAndPosition(ref, q);
      if problems != [] {
        return Some(Invalid(problems));
      }
      if B.IsPrimary(q) && F.HasPrimary(F.Tables(batches, crucibles), q.batch, q.sample.value) {
        return Some(Integrity);
      }
    }

    method ChargeCrucible(ref: Reference, q: B.ChargeRequest, role: Role) returns (refused: Option<Refusal>)
      requires Valid()
      modifies this`crucibles, this`samples
      ensures Valid()
      ensures Served(old(Contents()), B.Charge(old(Contents()), ref, q, role), Contents(), refused)
    {
      refused := CheckCharge(ref, q, role);
      if refused.Some? {
        return;
      }
      ChargeGranted(Contents(), ref, q, role);
      ChargeStep(Contents(), ref, q, role);
      Place(q);
    }

    method Place(q: B.ChargeRequest)
      requires q.sample.Some? ==> q.sample.value < |samples|
      modifies this`crucibles, this`samples
      ensures Contents() == old(Contents()).(furnace := F.Place(old(Contents()).furnace, B.NewCrucible(q)),
        samples := if B.IsPrimary(q) then SetStatus(old(samples), q.sample.value, InAssay) else old(samples))
    {
      crucibles := crucibles + [Some(B.NewCrucible(q))];
      if q.sample.Some? && q.insertion.None? {
        samples := SetStatus(samples, q.sample.value, InAssay);
      }
    }

    method UnchargeCrucible(batch: nat, crucible: nat, role: Role) returns (refused: Option<Refusal>)
      requires Valid()
      modifies this`crucibles, this`samples
      ensures Valid()
      ensures Served(old(Contents()), B.Uncharge(old(Contents()), batch, crucible, role), Contents(), refused)
    {
      if role !in BENCH_ROLES {
        return Some(Lifecycle(InsufficientRole));
      }
      if batch >= |batches| {
        return Some(NotFound(TheBatch));
      }
      if batches[batch] != Charging {
        return Some(Lifecycle(NotAllowed));
      }
      if !F.Holds(F.Tables(batches, crucibles), batch, crucible) {
        return Some(NotFound(TheCrucible));
      }
      UnchargeMeetsNoResult(Contents(), batch, crucible, role);
      UnchargeStep(Contents(), batch, crucible, role);
      var c := crucibles[crucible].value;
      if c.status != Charged {
        return Some(Lifecycle(NotAllowed));
      }
      if c.sample.Some? && c.insertion.None? && c.sample.value < |samples| {
        if samples[c.sample.value].status == InAssay {
          samples := SetStatus(samples, c.sample.value, ReadyForAssay);
        }
      }
      crucibles := crucibles[crucible := None];
      refused := None;
    }

    method RecordParting(batch: nat, crucible: nat, lead: real, prill: real, acid: real, role: Role)
      returns (refused: Option<Refusal>)
      requires Valid()
      modifies this`crucibles
      ensures Valid()
      ensures Served(old(Contents()),
        B.RecordParting(old(Contents()), batch, crucible, lead, prill, acid, role), Contents(), refused)
    {
      if role !in BENCH_ROLES {
        return Some(Lifecycle(InsufficientRole));
      }
      if batch >= |batches| {
        return Some(NotFound(TheBatch));
      }
      if !F.Holds(F.Tables(batches, crucibles), batch, crucible) {
        return Some(NotFound(TheCrucible));
      }
      var c := crucibles[crucible].value;
      var move := CheckCrucibleTransition(c.status, Parted);
      if move.Err? {
        return Some(Lifecycle(move.error));
      }
      if !(lead > 0.0 && prill > 0.0 && acid > 0.0) {
        return Some(Integrity);
      }
      PartingStep(Contents(), batch, crucible, lead, prill, acid, role);
      c := c.(status := Parted, lead := Some(lead), prill := Some(prill), acid := Some(acid));
      crucibles := crucibles[crucible := Some(c)];
      refused := None;
    }

    method RecordWeighing(batch: nat, crucible: nat, bead: real, role: Role) returns (refused: Option<Refusal>)
      requires Valid()
      modifies this`crucibles
      ensures Valid()
      ensures Served(old(Contents()),
        B.RecordWeighing(old(Contents()), batch, crucible, bead, role), Contents(), refused)
    {
      if role !in BENCH_ROLES {
        return Some(Lifecycle(InsufficientRole));
      }
      if batch >= |batches| {
        return Some(NotFound(TheBatch));
      }
      if !F.Holds(F.Tables(batches, crucibles), batch, crucible) {
        return Some(NotFound(TheCrucible));
      }
      var c := crucibles[crucible].value;
      var move := CheckCrucibleTransition(c.status, Weighed);
      if move.Err? {
        return Some(Lifecycle(move.error));
      }
      if bead < 0.0 {
        return Some(Integrity);
      }
      WeighingStep(Contents(), batch, crucible, bead, role);
      c := c.(status := Weighed, bead := Some(bead));
      crucibles := crucibles[crucible := Some(c)];
      refused := None;
    }

    method AdvanceStatus(batch: nat, target: BatchStatus, role: Role) returns (refused: Option<Refusal>)
      requires Valid()
      modifies this`batches, this`crucibles
      ensures Valid()
      ensures Served(old(Contents()), B.AdvanceBatch(old(Contents()), batch, target, role), Contents(), refused)
    {
      refused := CheckAdvance(batch, target, role);
      if refused.Some? {
        return;
      }
      AdvanceStep(Contents(), batch, target, role);
      MoveTray(batch, target);
    }

    method CheckAdvance(batch: nat, target: BatchStatus, role: Role) returns (refused: Option<Refusal>)
      ensures refused.None? <==> B.AdvanceBatch(Contents(), batch, target, role).Ok?
      ensures refused.Some? ==> B.AdvanceBatch(Contents(), batch, target, role) == Err(refused.value)
    {
      if batch >= |batches| {
        return Some(NotFound(TheBatch));
      }
      var move := CheckBatchTransition(batches[batch], target, role);
      if move.Err? {
        return Some(Lifecycle(move.error));
      }
      if target == InFusion && !F.Loaded(F.Tables(batches, crucibles), batch) {
        return Some(Invalid([NothingCharged]));
      }
      refused := None;
    }

    /** One stage up, with the whole tray where the stage carries it. */
    method MoveTray(batch: nat, target: BatchStatus)
      requires batch < |batches|
      modifies this`batches, this`crucibles
      ensures F.Tables(batches, crucibles) == F.Advance(old(F.Tables(batches, crucibles)), batch, target)
    {
      batches := batches[batch := target];
      var bulk := BulkStatus(target);
      if bulk.Some? {
        SetTray(batch, bulk.value);
      }
      assert crucibles == F.MovedAll(old(crucibles), batch, bulk);
    }

    /** The loop over the batch's crucibles. */
    method SetTray(batch: nat, status: CrucibleStatus)
      modifies this`crucibles
      ensures crucibles == F.MovedAll(old(crucibles), batch, Some(status))
    {
      var k := 0;
      while k < |crucibles|
        invariant k <= |crucibles| == |old(crucibles)|
        invariant forall i :: 0 <= i < k ==> crucibles[i] == F.Moved(old(crucibles)[i], batch, Some(status))
        invariant forall i :: k <= i < |crucibles| ==> crucibles[i] == old(crucibles)[i]
      {
        if crucibles[k].Some? && crucibles[k].value.batch == batch {
          crucibles := crucibles[k := Some(crucibles[k].value.(status := status))];
        }
        k := k + 1;
      }
    }

    // ----- fire_assay_results/service.py ---------------------------------------------------------

    method Record(row: FireAssay)
      requires Valid() && row.sample < |samples|
      requires row.supersedes == CurrentResult(results, row.sample)
      requires Recomputes(row) && Backed(row, F.Tables(batches, crucibles))
      requires row.supersedes.None? ==> samples[row.sample].status == InAssay
      modifies this`results, this`samples
      ensures Valid() && Contents() == R.Record(old(Contents()), row)
    {
      RecordStep(Contents(), row);
      results := results + [row];
      if row.supersedes.None? {
        samples := SetStatus(samples, row.sample, Assayed);
      }
    }

    method CheckSupersession(e: R.Entry, current: Option<nat>) returns (problems: seq<Problem>)
      ensures problems == [] <==> e.supersedes == current && (e.supersedes.Some? ==> StatesReason(e.reason))
      ensures problems == R.SupersessionProblems(e, current)
    {
      problems := [];
      if e.supersedes.None? {
        if current.Some? {
          problems := problems + [AlreadyHasResult];
        }
        return;
      }
      if current.None? || current.value != e.supersedes.value {
        problems := problems + [NotCurrentResult];
      }
      if !StatesReason(e.reason) {
        problems := problems + [NeedsReason];
      }
    }

    method CheckCrucible(e: R.Entry, c: F.Crucible) returns (problems: seq<Problem>)
      ensures problems == [] <==> R.Usable(e, c)
      ensures problems == R.CrucibleProblems(e, c)
    {
      problems := [];
      if e.weight.Some? {
        problems := problems + [PortionTwice];
      }
      if c.sample != Some(e.sample) {
        if c.sample.None? {
          problems := problems + [HoldsMaterial];
        } else {
          problems := problems + [HoldsOtherSample];
        }
      }
      if !R.BeadBearing(c.status) {
        problems := problems + [NoBeadYet];
      }
    }

    method ResolveWeighing(e: R.Entry, bead: Option<real>) returns (r: Result<R.Resolved, Refusal>)
      ensures r.Ok? && r.value.problems == [] <==> R.OneSourceEach(Contents(), e, bead)
      ensures r.Ok? && r.value.problems == [] && e.crucible.None? ==>
        r.value.portion == e.weight && r.value.bead == bead
      ensures r.Ok? && r.value.problems == [] && e.crucible.Some? ==>
        var c := crucibles[e.crucible.value].value;
        r.value.portion == Some(c.weight) && r.value.bead == if R.WasWeighed(c) then c.bead else bead
      ensures r == R.ResolveWeighing(Contents(), e, bead)
    {
      R.WeighingIff(Contents(), e, bead);
      var problems: seq<Problem> := [];
      if e.crucible.None? {
        if e.weight.None? {
          problems := problems + [PortionMissing];
        }
        if bead.None? {
          problems := problems + [BeadMissing];
        }
        assert problems
            == (if e.weight.None? then [PortionMissing] else []) + (if bead.None? then [BeadMissing] else []);
        return Ok(R.Resolved(e.weight, bead, problems));
      }
      if !F.Live(F.Tables(batches, crucibles), e.crucible.value) {
        return Err(NotFound(TheCrucible));
      }
      var c := crucibles[e.crucible.value].value;
      problems := CheckCrucible(e, c);
      var weighed := c.status == Weighed && c.bead.Some?;
      if weighed && bead.Some? {
        problems := problems + [BeadTwice];
      } else if !weighed && bead.None? {
        problems := problems + [BeadMissing];
      }
      assert problems == R.CrucibleProblems(e, c)
        + (if weighed && bead.Some? then [BeadTwice] else if !weighed && bead.None? then [BeadMissing] else []);
      var portion := if problems == [] then Some(c.weight) else None;
      var recovered := bead;
      if weighed && problems == [] {
        recovered := c.bead;
      }
      r := Ok(R.Resolved(portion, recovered, problems));
    }

    method ResolvePortion(e: R.Entry) returns (r: Result<R.Resolved, Refusal>)
      ensures r.Ok? && r.value.problems == [] <==> R.OnePortion(Contents(), e)
      ensures r.Ok? && r.value.problems == [] ==>
        r.value.portion == if e.crucible.None? then e.weight else Some(crucibles[e.crucible.value].value.weight)
      ensures r == R.ResolvePortion(Contents(), e)
    {
      R.PortionIff(Contents(), e);
      if e.crucible.None? {
        if e.weight.None? {
          return Ok(R.Resolved(None, None, [PortionMissing]));
        }
        return Ok(R.Resolved(e.weight, None, []));
      }
      if !F.Live(F.Tables(batches, crucibles), e.crucible.value) {
        return Err(NotFound(TheCrucible));
      }
      var c := crucibles[e.crucible.value].value;
      var problems := CheckCrucible(e, c);
      r := Ok(R.Resolved(if problems == [] then Some(c.weight) else None, None, problems));
    }

    /** Grade the weighings and build the row they are stored in. */
    method BuildWeighed(e: R.Entry, dore: Option<real>, bead: real, portion: real, sensitivity: Option<real>)
      returns (r: Result<FireAssay, Refusal>)
      ensures r == R.WeighedRow(e, dore, bead, portion, sensitivity)
    {
      var grade := GravimetricGrade(bead, portion, sensitivity);
      if grade.Err? {
        return Err(Calculation(grade.error));
      }
      var silver := R.SilverGrade(dore, bead, portion);
      if silver.Err? {
        return Err(silver.error);
      }
      var silverBead: Option<real> := None;
      if dore.Some? {
        silverBead := Some(SilverBead(dore.value, bead));
      }
      var row := FireAssay(e.sample, Gravimetric(bead, sensitivity), portion, grade.value, silverBead, silver.value,
                           e.crucible, e.supersedes);
      r := Ok(row);
    }

    /** The checks of a gravimetric entry, and the measurements it stands for. */
    method CheckWeighed(ref: Reference, e: R.Entry, w: R.Weighed, role: Role) returns (r: Result<R.Weighings, Refusal>)
      ensures r == R.CheckWeighed(Contents(), ref, e, w, role)
    {
      var admitted := Admit(e, role);
      if admitted.Err? {
        return Err(admitted.error);
      }
      var resolved := ResolveWeighing(e, w.bead);
      if resolved.Err? {
        return Err(resolved.error);
      }
      var problems := CheckSupersession(e, admitted.value);
      problems := problems + resolved.value.problems;
      if e.instrument.Some? && e.instrument.value >= |ref.instruments| {
        problems := problems + [NoInstrument];
      }
      assert problems
          == R.SupersessionProblems(e, admitted.value) + resolved.value.problems + R.InstrumentProblems(ref, e);
      if problems != [] {
        return Err(Invalid(problems));
      }
      var sensitivity := w.sensitivity;
      if sensitivity.None? && e.instrument.Some? {
        sensitivity := ref.instruments[e.instrument.value].balance;
      }
      r := Ok(R.Weighings(resolved.value.bead.value, resolved.value.portion.value, sensitivity));
    }

    method EnterWeighed(ref: Reference, e: R.Entry, w: R.Weighed, role: Role) returns (refused: Option<Refusal>)
      requires Valid()
      modifies this`results, this`samples
      ensures Valid()
      ensures Served(old(Contents()), R.EnterWeighed(old(Contents()), ref, e, w, role), Contents(), refused)
    {
      var checked := CheckWeighed(ref, e, w, role);
      if checked.Err? {
        return Some(checked.error);
      }
      var m := checked.value;
      var graded := BuildWeighed(e, w.dore, m.bead, m.portion, m.sensitivity);
      if graded.Err? {
        return Some(graded.error);
      }
      EnteredMayBeRecorded(Contents(), ref, e, w, role);
      Record(graded.value);
      refused := None;
    }

    method Admit(e: R.Entry, role: Role) returns (r: Result<Option<nat>, Refusal>)
      ensures r.Ok? <==> R.MayEnter(Contents(), e, role)
      ensures r.Ok? && Valid() ==>
        forall i: nat :: IsHead(ResultLinks(results), e.sample, i) <==> r.value == Some(i)
      ensures r == R.Admit(Contents(), e, role)
    {
      R.AdmitIff(Contents(), e, role);
      if Inv(Contents()) {
        CurrentIsLast(ResultLinks(results), e.sample);
      }
      if role !in MAY_ENTER_RESULTS {
        return Err(Lifecycle(InsufficientRole));
      }
      if e.sample >= |samples| {
        return Err(NotFound(TheSample));
      }
      var current := CurrentResult(results, e.sample);
      if e.supersedes.None? && current.None? {
        var s := samples[e.sample];
        var move := CheckTransition(s.status, Assayed, s.kind, role, None);
        if move.Err? {
          return Err(Lifecycle(move.error));
        }
      }
      r := Ok(current);
    }

    /** The checks of a solution entry, and the measurements it stands for. */
    method CheckRead(ref: Reference, e: R.Entry, m: R.Read, role: Role) returns (r: Result<R.Aliquot, Refusal>)
      ensures r == R.CheckRead(Contents(), ref, e, m, role)
    {
      if m.technique == FireAssayGravimetric {
        return Err(Invalid([WrongFinish]));
      }
      var admitted := Admit(e, role);
      if admitted.Err? {
        return Err(admitted.error);
      }
      var resolved := ResolvePortion(e);
      if resolved.Err? {
        return Err(resolved.error);
      }
      var problems := CheckSupersession(e, admitted.value);
      problems := problems + resolved.value.problems;
      if e.instrument.Some? && e.instrument.value >= |ref.instruments| {
        problems := problems + [NoInstrument];
      }
      assert problems
          == R.SupersessionProblems(e, admitted.value) + resolved.value.problems + R.InstrumentProblems(ref, e);
      if problems != [] {
        return Err(Invalid(problems));
      }
      var detection := m.detection;
      if detection.None? && e.instrument.Some? {
        detection := ref.instruments[e.instrument.value].solution;
      }
      r := Ok(R.Aliquot(resolved.value.portion.value, detection));
    }

    /** Grade the reading and build the row it is stored in. */
    method BuildRead(e: R.Entry, m: R.Read, q: R.Aliquot) returns (r: Result<FireAssay, Refusal>)
      ensures r == R.ReadRow(e, m, q)
    {
      var grade := SolutionFinishGrade(m.concentration, m.unit, m.volume, q.portion, q.detection, m.upper);
      if grade.Err? {
        return Err(Calculation(grade.error));
      }
      var row := FireAssay(e.sample, Solution(m.technique, m.concentration, m.unit, m.volume, q.detection), q.portion,
                           grade.value, None, None, e.crucible, e.supersedes);
      r := Ok(row);
    }

    method EnterRead(ref: Reference, e: R.Entry, m: R.Read, role: Role) returns (refused: Option<Refusal>)
      requires Valid()
      modifies this`results, this`samples
      ensures Valid()
      ensures Served(old(Contents()), R.EnterRead(old(Contents()), ref, e, m, role), Contents(), refused)
    {
      var checked := CheckRead(ref, e, m, role);
      if checked.Err? {
        return Some(checked.error);
      }
      var row := BuildRead(e, m, checked.value);
      if row.Err? {
        return Some(row.error);
      }
      EnteredReadMayBeRecorded(Contents(), ref, e, m, role);
      Record(row.value);
      refused := None;
    }

    // ----- multi_element/service.py ---------------------------------------------------------------

    method ValidateItem(item: E.Item, seen: set<string>) returns (problems: seq<Problem>)
      ensures problems == [] <==> item.element !in seen && item.value >= 0.0 && DimensionOf(item.unit) == MassFraction
      ensures problems == E.OneItemProblems(item, seen)
    {
      problems := [];
      if item.element in seen {
        problems := problems + [DuplicateElement];
      }
      if item.value < 0.0 {
        problems := problems + [NegativeGrade];
      }
      if DimensionOf(item.unit) != MassFraction {
        problems := problems + [NotAMassFraction];
      }
    }

    method ValidateImport(items: seq<E.Item>) returns (problems: seq<Problem>)
      ensures problems == E.ImportProblems(items)
    {
      problems := [];
      if items == [] {
        problems := problems + [NothingToImport];
      }
      var seen: set<string> := {};
      var i := 0;
      ghost var rest := E.ItemProblems(items, seen);
      assert items[0..] == items;
      while i < |items|
        invariant i <= |items|
        invariant rest == E.ItemProblems(items[i..], seen)
        invariant problems + rest == E.ImportProblems(items)
      {
        assert items[i..][0] == items[i] && items[i..][1..] == items[i + 1..];
        var found := ValidateItem(items[i], seen);
        problems := problems + found;
        seen := seen + {items[i].element};
        i := i + 1;
        rest := E.ItemProblems(items[i..], seen);
      }
      assert items[i..] == [];
    }

    /** The loop that inserts one row per item. */
    method StoreReadings(sample: nat, digest: Digest, items: seq<E.Item>)
      modifies this`readings
      ensures readings == old(readings) + E.ImportedAll(sample, digest, items)
    {
      var i := 0;
      while i < |items|
        invariant i <= |items|
        invariant readings == old(readings) + E.ImportedAll(sample, digest, items[..i])
      {
        var item := items[i];
        var flagged := item.limit.Some? && item.value <= item.limit.value;
        var stored := if flagged then item.limit.value else item.value;
        var row := Reading(Triple(sample, item.element, digest), stored, item.unit, item.limit, flagged, None);
        assert E.ImportedAll(sample, digest, items[..i + 1]) == E.ImportedAll(sample, digest, items[..i]) + [row];
        readings := readings + [row];
        i := i + 1;
      }
      assert items[..i] == items;
    }

    /** Everything that can refuse an import, in order. */
    method CheckImport(sample: nat, items: seq<E.Item>, role: Role) returns (refused: Option<Refusal>)
      ensures refused.None? <==> E.MayImport(Contents(), sample, items, role)
      ensures refused.Some? ==> E.CheckImport(Contents(), sample, items, role) == Err(refused.value)
    {
      E.ImportIff(Contents(), sample, items, role);
      if role !in MAY_ENTER_RESULTS {
        return Some(Lifecycle(InsufficientRole));
      }
      if sample >= |samples| {
        return Some(NotFound(TheSample));
      }
      var problems := ValidateImport(items);
      if problems != [] {
        return Some(Invalid(problems));
      }
      refused := None;
      if samples[sample].status != Assayed {
        var move := CheckTransition(samples[sample].status, Assayed, samples[sample].kind, role, None);
        if move.Err? {
          return Some(Lifecycle(move.error));
        }
      }
    }

    method ImportResults(sample: nat, digest: Digest, items: seq<E.Item>, role: Role) returns (refused: Option<Refusal>)
      requires Valid()
      modifies this`readings, this`samples
      ensures Valid()
      ensures Served(old(Contents()), E.Import(old(Contents()), sample, digest, items, role), Contents(), refused)
    {
      refused := CheckImport(sample, items, role);
      if refused.Some? {
        return;
      }
      E.ImportIff(Contents(), sample, items, role);
      ImportStep(Contents(), sample, digest, items, role);
      samples := SetStatus(samples, sample, Assayed);
      StoreReadings(sample, digest, items);
    }

    method CorrectReading(q: E.Correction, role: Role) returns (refused: Option<Refusal>)
      requires Valid()
      modifies this`readings
      ensures Valid()
      ensures Served(old(Contents()), E.Correct(old(Contents()), q, role), Contents(), refused)
    {
      if role !in MAY_ENTER_RESULTS {
        return Some(Lifecycle(InsufficientRole));
      }
      if q.triple.sample >= |samples| {
        return Some(NotFound(TheSample));
      }
      var current := E.Returned(readings, q.triple, q.pick);
      if current.None? {
        return Some(Invalid([NoCurrentReading]));
      }
      if q.value < 0.0 {
        return Some(Invalid([NegativeGrade]));
      }
      if E.OnlySpaces(q.reason) {
        return Some(Integrity);
      }
      CorrectStep(Contents(), q, role);
      var flagged := q.limit.Some? && q.value <= q.limit.value;
      var stored := if flagged then q.limit.value else q.value;
      readings := readings + [Reading(q.triple, stored, q.unit, q.limit, flagged, current)];
      refused := None;
    }

    // ----- certificates/service.py -------------------------------------------------------------------

    method ResolveSamples(client: nat, ids: seq<nat>) returns (pairs: seq<C.Pair>, problems: seq<Problem>)
      ensures C.Resolution(pairs, problems) == C.ResolveSamples(Contents(), client, ids)
    {
      pairs, problems := [], [];
      if ids == [] {
        problems := problems + [NoSamples];
        return;
      }
      var seen: set<nat> := {};
      var i := 0;
      ghost var rest := C.ResolveFrom(Contents(), client, ids, {});
      assert ids[0..] == ids;
      while i < |ids|
        invariant i <= |ids|
        invariant rest == C.ResolveFrom(Contents(), client, ids[i..], seen)
        invariant C.Resolution(pairs + rest.pairs, problems + rest.problems)
               == C.ResolveSamples(Contents(), client, ids)
      {
        var id := ids[i];
        assert ids[i..][0] == id && ids[i..][1..] == ids[i + 1..];
        var one := ResolveOne(client, id, seen);
        if one.Ok? {
          pairs := pairs + [one.value];
        } else {
          problems := problems + [one.error];
        }
        seen := seen + {id};
        i := i + 1;
        rest := C.ResolveFrom(Contents(), client, ids[i..], seen);
      }
      assert ids[i..] == [];
    }

    method ResolveOne(client: nat, id: nat, seen: set<nat>) returns (r: Result<C.Pair, Problem>)
      ensures r.Ok? <==>
        && id !in seen && id < |samples| && samples[id].client == client && CurrentResult(results, id).Some?
      ensures r.Ok? ==> r.value.sample == id && CurrentResult(results, id) == Some(r.value.result)
      ensures r == C.ResolveOne(Contents(), client, id, seen)
    {
      if id in seen {
        return Err(RepeatedSample);
      }
      if id >= |samples| {
        return Err(UnknownSample);
      }
      if samples[id].client != client {
        return Err(OtherClientsSample);
      }
      var current := CurrentResult(results, id);
      if current.None? {
        return Err(NoResultYet);
      }
      r := Ok(C.Pair(id, current.value));
    }

    method ResolveSupersession(q: C.Request) returns (problems: seq<Problem>)
      ensures problems == [] <==>
        q.supersedes.None? ||
        (IsHead(CertificateLinks(certificates), q.client, q.supersedes.value) && StatesReason(q.reason))
      ensures problems == C.SupersessionProblems(Contents(), q)
    {
      problems := [];
      if q.supersedes.None? {
        return;
      }
      if q.supersedes.value >= |certificates| || Superseded(CertificateLinks(certificates), q.supersedes.value) {
        problems := problems + [NotCurrentCertificate];
      } else if certificates[q.supersedes.value].client != q.client {
        problems := problems + [OtherClientsCertificate];
      }
      if !StatesReason(q.reason) {
        problems := problems + [NeedsReason];
      }
    }

    /** The loop that reports each covered sample still at Assayed. */
    method ReportCovered(pairs: seq<C.Pair>)
      requires forall i :: 0 <= i < |pairs| ==> pairs[i].sample < |samples|
      modifies this`samples
      ensures samples == C.Report(old(samples), pairs)
    {
      var i := 0;
      while i < |pairs|
        invariant i <= |pairs|
        invariant samples == C.Report(old(samples), pairs[..i])
      {
        var id := pairs[i].sample;
        ghost var before := samples;
        if samples[id].status == Assayed {
          samples := SetStatus(samples, id, Reported);
        }
        forall j | 0 <= j < |samples| ensures C.Covers(pairs[..i + 1], j) <==> C.Covers(pairs[..i], j) || j == id {
          CoversOneMore(pairs, i, j);
        }
        i := i + 1;
      }
      assert pairs[..i] == pairs;
    }

    /** The loop that freezes one line per sample; reporting the samples has left the readings as they were. */
    method FreezePairs(ghost before: Db, pairs: seq<C.Pair>) returns (lines: seq<Frozen>)
      requires before.readings == readings
      ensures lines == C.Freeze(before, pairs)
    {
      lines := [];
      var i := 0;
      while i < |pairs|
        invariant i <= |pairs|
        invariant lines == C.Freeze(before, pairs[..i])
      {
        lines := lines + [Frozen(pairs[i].sample, pairs[i].result, CurrentReadings(readings, pairs[i].sample))];
        i := i + 1;
      }
      assert pairs[..i] == pairs;
    }

    method Issue(ref: Reference, q: C.Request, role: Role) returns (refused: Option<Refusal>)
      requires Valid()
      modifies this`samples, this`certificates
      ensures Valid()
      ensures Served(old(Contents()), C.Issue(old(Contents()), ref, q, role), Contents(), refused)
    {
      if role !in MAY_SIGN_CERTIFICATE {
        return Some(Lifecycle(InsufficientRole));
      }
      if q.client >= ref.clients {
        return Some(NotFound(TheClient));
      }
      var pairs, problems := ResolveSamples(q.client, q.samples);
      var more := ResolveSupersession(q);
      problems := problems + more;
      if problems != [] {
        return Some(Invalid(problems));
      }
      IssueStep(Contents(), ref, q, role);
      forall i | 0 <= i < |pairs| ensures pairs[i].sample < |samples| {
        ResolvedAll(Contents(), q.client, q.samples, {}, i);
      }
      ReportCovered(pairs);
      var lines := FreezePairs(old(Contents()), pairs);
      certificates := certificates + [Certificate(q.client, q.supersedes, lines)];
      refused := None;
    }
  }

  lemma CoversOneMore(pairs: seq<C.Pair>, i: nat, j: nat)
    requires i < |pairs|
    ensures C.Covers(pairs[..i + 1], j) <==> C.Covers(pairs[..i], j) || j == pairs[i].sample
  {
  }
}
