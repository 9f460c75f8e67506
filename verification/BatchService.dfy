/** What each batch request does to the tables, or why it is refused. */
module BatchService {
  import opened Wrappers
  import opened Lifecycle
  import opened BatchLifecycle
  import opened LabTables
  import F = Furnace

  datatype ChargeRequest = ChargeRequest(
    batch: nat, sample: Option<nat>, material: Option<nat>, insertion: Option<F.Insertion>, recipe: nat,
    row: int, col: int, weight: real)

  function Lift(r: Result<(), LifecycleError>): Result<(), Refusal> {
    if r.Ok? then Ok(()) else Err(Lifecycle(r.error))
  }

  function CreateBatch(db: Db, ref: Reference, instrument: Option<nat>, role: Role): Result<Db, Refusal> {
    var _ :- Require(role in BENCH_ROLES, Lifecycle(InsufficientRole));
    var _ :- Require(instrument.Some? ==> instrument.value < |ref.instruments|, Invalid([NoInstrument]));
    Ok(db.(furnace := db.furnace.(batches := db.furnace.batches + [Pending])))
  }

  predicate IsPrimary(q: ChargeRequest) {
    q.sample.Some? && q.insertion.None?
  }

  /** Whether what the request names may go into a crucible. */
  function CheckContents(db: Db, ref: Reference, q: ChargeRequest, role: Role): Result<(), Refusal>
    requires q.sample.Some? != q.material.Some?
  {
    if q.sample.Some? then
      var _ :- Require(q.sample.value < |db.samples|, NotFound(TheSample));
      var s := db.samples[q.sample.value];
      var _ :- Lift(if q.insertion.None? then CheckTransition(s.status, InAssay, s.kind, role, None)
                    else Require(s.status == InAssay, NotAllowed));
      Require(s.received.Some? ==> q.weight <= s.received.value, Invalid([ExceedsReceived]))
    else
      Require(q.material.value < |ref.activeMaterials|, NotFound(TheMaterial))
  }

  function ChargeProblems(db: Db, ref: Reference, q: ChargeRequest): seq<Problem>
    requires q.batch < |db.furnace.batches|
    requires q.material.Some? ==> q.material.value < |ref.activeMaterials|
  {
    (if db.furnace.batches[q.batch] != Charging then [NotOpenForCharging] else [])
    + (if F.Occupied(db.furnace, q.batch, q.row, q.col) then [SlotTaken] else [])
    + (if q.material.Some? && !ref.activeMaterials[q.material.value] then [MaterialRetired] else [])
  }

  /** What the request names exists, is where a charge may take it from, and is enough for the portion. */
  predicate MayFill(db: Db, ref: Reference, q: ChargeRequest)
    requires q.sample.Some? != q.material.Some?
  {
    if q.sample.Some? then
      && q.sample.value < |db.samples|
      && db.samples[q.sample.value].status == (if q.insertion.None? then ReadyForAssay else InAssay)
      && (db.samples[q.sample.value].received.Some? ==> q.weight <= db.samples[q.sample.value].received.value)
    else q.material.value < |ref.activeMaterials|
  }

  lemma ContentsIff(db: Db, ref: Reference, q: ChargeRequest, role: Role)
    requires q.sample.Some? != q.material.Some?
    ensures CheckContents(db, ref, q, role).Ok? <==> MayFill(db, ref, q) && (IsPrimary(q) ==> role != ClientRole)
  {
    if IsPrimary(q) && q.sample.value < |db.samples| {
      var s := db.samples[q.sample.value];
      AllowedIff(s.status, InAssay, s.kind, role, None);
    }
  }

  function NewCrucible(q: ChargeRequest): F.Crucible {
    F.Crucible(q.batch, q.sample, q.material, q.insertion, q.row, q.col, q.weight, Charged, None, None, None, None)
  }

  function Charge(db: Db, ref: Reference, q: ChargeRequest, role: Role): Result<Db, Refusal> {
    var _ :- Require(role in BENCH_ROLES, Lifecycle(InsufficientRole));
    var _ :- Require(q.sample.None? != q.material.None?, Invalid([ExactlyOneOfSampleAndMaterial]));
    var _ :- Require(!(q.insertion.Some? && q.material.Some?), Invalid([DuplicateOfMaterial]));
    var _ :- Require(q.batch < |db.furnace.batches|, NotFound(TheBatch));
    var _ :- CheckContents(db, ref, q, role);
    var _ :- Require(q.recipe < |ref.nominalPortions|, NotFound(TheRecipe));
    var _ :- Require(InTray(q.row, q.col, ref.rows, ref.cols), OutsideTray);
    var _ :- Require(ref.nominalPortions[q.recipe] > 0.0 && q.weight > 0.0, FluxError);
    var problems := ChargeProblems(db, ref, q);
    var _ :- Require(problems == [], Invalid(problems));
    var _ :- Require(!(IsPrimary(q) && F.HasPrimary(db.furnace, q.batch, q.sample.value)), Integrity);
    Ok(db.(
      furnace := F.Place(db.furnace, NewCrucible(q)),
      samples := if IsPrimary(q) then SetStatus(db.samples, q.sample.value, InAssay) else db.samples))
  }

  /** Everything a charge needs, whatever order it is looked at in. */
  predicate Chargeable(db: Db, ref: Reference, q: ChargeRequest, role: Role) {
    && role != ClientRole
    && q.sample.Some? != q.material.Some? && (q.insertion.Some? ==> q.sample.Some?)
    && MayFill(db, ref, q)
    && q.batch < |db.furnace.batches| && db.furnace.batches[q.batch] == Charging
    && 1 <= q.row <= ref.rows && 1 <= q.col <= ref.cols && !F.Occupied(db.furnace, q.batch, q.row, q.col)
    && (q.material.Some? ==> ref.activeMaterials[q.material.value])
    && (IsPrimary(q) ==> !F.HasPrimary(db.furnace, q.batch, q.sample.value))
    && q.recipe < |ref.nominalPortions| && ref.nominalPortions[q.recipe] > 0.0 && q.weight > 0.0
  }

  /** A charge is granted exactly when nothing stands in its way. */
  lemma ChargeIff(db: Db, ref: Reference, q: ChargeRequest, role: Role)
    ensures Charge(db, ref, q, role).Ok? <==> Chargeable(db, ref, q, role)
  {
    if q.sample.None? != q.material.None? {
      ContentsIff(db, ref, q, role);
    }
  }

  predicate NamedByResult(results: seq<FireAssay>, crucible: nat) {
    exists i :: 0 <= i < |results| && results[i].crucible == Some(crucible)
  }

  /** The sample's status once one of its crucibles is removed from the tray. */
  function Reverted(db: Db, c: F.Crucible): seq<SampleRow> {
    if c.sample.Some? && c.insertion.None? && c.sample.value < |db.samples|
       && db.samples[c.sample.value].status == InAssay
    then SetStatus(db.samples, c.sample.value, ReadyForAssay)
    else db.samples
  }

  function Uncharge(db: Db, batch: nat, crucible: nat, role: Role): Result<Db, Refusal> {
    var _ :- Require(role in BENCH_ROLES, Lifecycle(InsufficientRole));
    var _ :- Require(batch < |db.furnace.batches|, NotFound(TheBatch));
    var _ :- Require(db.furnace.batches[batch] == Charging, Lifecycle(NotAllowed));
    var _ :- Require(F.Holds(db.furnace, batch, crucible), NotFound(TheCrucible));
    var c := F.At(db.furnace, crucible);
    var _ :- Require(c.status == Charged, Lifecycle(NotAllowed));
    var _ :- Require(!NamedByResult(db.results, crucible), Integrity);
    Ok(db.(furnace := F.Remove(db.furnace, crucible), samples := Reverted(db, c)))
  }

  function RecordParting(db: Db, batch: nat, crucible: nat, lead: real, prill: real, acid: real, role: Role)
    : Result<Db, Refusal>
  {
    var _ :- Require(role in BENCH_ROLES, Lifecycle(InsufficientRole));
    var _ :- Require(batch < |db.furnace.batches|, NotFound(TheBatch));
    var _ :- Require(F.Holds(db.furnace, batch, crucible), NotFound(TheCrucible));
    var c := F.At(db.furnace, crucible);
    var _ :- Lift(CheckCrucibleTransition(c.status, Parted));
    var _ :- Require(lead > 0.0 && prill > 0.0 && acid > 0.0, Integrity);
    Ok(db.(furnace := F.Measure(db.furnace, crucible, F.Parting(c, lead, prill, acid))))
  }

  function RecordWeighing(db: Db, batch: nat, crucible: nat, bead: real, role: Role): Result<Db, Refusal> {
    var _ :- Require(role in BENCH_ROLES, Lifecycle(InsufficientRole));
    var _ :- Require(batch < |db.furnace.batches|, NotFound(TheBatch));
    var _ :- Require(F.Holds(db.furnace, batch, crucible), NotFound(TheCrucible));
    var c := F.At(db.furnace, crucible);
    var _ :- Lift(CheckCrucibleTransition(c.status, Weighed));
    var _ :- Require(bead >= 0.0, Integrity);
    Ok(db.(furnace := F.Measure(db.furnace, crucible, F.Weighing(c, bead))))
  }

  function AdvanceBatch(db: Db, batch: nat, target: BatchStatus, role: Role): Result<Db, Refusal> {
    var _ :- Require(batch < |db.furnace.batches|, NotFound(TheBatch));
    var _ :- Lift(CheckBatchTransition(db.furnace.batches[batch], target, role));
    var _ :- Require(target == InFusion ==> F.Loaded(db.furnace, batch), Invalid([NothingCharged]));
    Ok(db.(furnace := F.Advance(db.furnace, batch, target)))
  }
}
