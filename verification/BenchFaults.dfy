/**
 Why a request of the bench is refused: for every refusal the fault it names, stated of the
 request and the rows of the tables alone.
 */
module BenchFaults {
  import opened Wrappers
  import opened Lifecycle
  import opened BatchLifecycle
  import opened Units
  import opened Values
  import opened Assay
  import opened LabTables
  import opened LabRuns
  import opened BenchRules
  import F = Furnace
  import B = BatchService
  import R = ResultService
  import E = ReadingService
  import C = CertificateService

  // ----- Samples -------------------------------------------------------------------------------

  ghost predicate ReceiveFault(ref: Reference, client: nat, received: Option<real>, role: Role, why: Refusal) {
    match why
    case Lifecycle(InsufficientRole) => !Bench(role)
    case NotFound(TheClient) => client >= ref.clients
    case Integrity => received.Some? && received.value <= 0.0
    case _ => false
  }

  /** Refused outright even to a lab manager with a reason; for the role; or for want of a reason. */
  ghost predicate MoveFault(a: Db, i: nat, target: Status, reason: Option<string>, role: Role, why: Refusal) {
    match why
    case BadRequest => target !in {InPrep, ReadyForAssay, Rejected}
    case NotFound(TheSample) => i >= |a.samples|
    case Lifecycle(NotAllowed) => i < |a.samples| && !MayMove(a, i, target, Some("because"), LabManager)
    case Lifecycle(InsufficientRole) =>
      && i < |a.samples| && MayMove(a, i, target, Some("because"), LabManager)
      && !MayMove(a, i, target, Some("because"), role)
    case Lifecycle(ReasonRequired) =>
      MayMove(a, i, target, Some("because"), role) && !MayMove(a, i, target, reason, role)
    case _ => false
  }

  // ----- Batches ---------------------------------------------------------------------------------

  ghost predicate OpenFault(ref: Reference, instrument: Option<nat>, role: Role, why: Refusal) {
    match why
    case Lifecycle(InsufficientRole) => !Bench(role)
    case Invalid(problems) =>
      problems == [NoInstrument] && instrument.Some? && instrument.value >= |ref.instruments|
    case _ => false
  }

  ghost predicate ChargeFault(a: Db, ref: Reference, q: B.ChargeRequest, role: Role, why: Refusal) {
    match why
    case Lifecycle(InsufficientRole) => !Bench(role)
    case Lifecycle(NotAllowed) =>
      && q.sample.Some? && q.sample.value < |a.samples|
      && a.samples[q.sample.value].status != (if q.insertion.None? then ReadyForAssay else InAssay)
    case NotFound(TheSample) => q.sample.Some? && q.sample.value >= |a.samples|
    case NotFound(TheMaterial) => q.material.Some? && q.material.value >= |ref.activeMaterials|
    case NotFound(TheBatch) => q.batch >= |a.furnace.batches|
    case NotFound(TheRecipe) => q.recipe >= |ref.nominalPortions|
    case OutsideTray => !(1 <= q.row <= ref.rows && 1 <= q.col <= ref.cols)
    case FluxError =>
      q.recipe < |ref.nominalPortions| && (ref.nominalPortions[q.recipe] <= 0.0 || q.weight <= 0.0)
    case Integrity => q.sample.Some? && q.insertion.None? && !FirstCharge(a, q.batch, q.sample.value)
    case Invalid(problems) =>
      problems != [] && forall i :: 0 <= i < |problems| ==> ChargeProblem(a, ref, q, problems[i])
    case _ => false
  }

  ghost predicate ChargeProblem(a: Db, ref: Reference, q: B.ChargeRequest, p: Problem) {
    match p
    case ExactlyOneOfSampleAndMaterial => q.sample.Some? == q.material.Some?
    case DuplicateOfMaterial => q.insertion.Some? && q.material.Some?
    case ExceedsReceived =>
      && q.sample.Some? && q.sample.value < |a.samples|
      && a.samples[q.sample.value].received.Some? && q.weight > a.samples[q.sample.value].received.value
    case NotOpenForCharging => q.batch < |a.furnace.batches| && a.furnace.batches[q.batch] != Charging
    case SlotTaken => !SlotFree(a, q.batch, q.row, q.col)
    case MaterialRetired =>
      q.material.Some? && q.material.value < |ref.activeMaterials| && !ref.activeMaterials[q.material.value]
    case _ => false
  }

  ghost predicate UnchargeFault(a: Db, batch: nat, k: nat, role: Role, why: Refusal) {
    match why
    case Lifecycle(InsufficientRole) => !Bench(role)
    case Lifecycle(NotAllowed) => batch < |a.furnace.batches| && a.furnace.batches[batch] != Charging
    case NotFound(TheBatch) => batch >= |a.furnace.batches|
    case NotFound(TheCrucible) => !InBatch(a, batch, k)
    case _ => false
  }

  /** A crucible can be parted or weighed at one status only, and its measurements have their ranges. */
  ghost predicate MeasureFault(
    a: Db, batch: nat, k: nat, status: CrucibleStatus, inRange: bool, role: Role, why: Refusal)
  {
    match why
    case Lifecycle(InsufficientRole) => !Bench(role)
    case Lifecycle(NotAllowed) => InBatch(a, batch, k) && a.furnace.crucibles[k].value.status != status
    case NotFound(TheBatch) => batch >= |a.furnace.batches|
    case NotFound(TheCrucible) => !InBatch(a, batch, k)
    case Integrity => !inRange
    case _ => false
  }

  ghost predicate AdvanceFault(a: Db, batch: nat, target: BatchStatus, role: Role, why: Refusal) {
    match why
    case Lifecycle(InsufficientRole) => !Bench(role)
    case Lifecycle(NotAllowed) =>
      && batch < |a.furnace.batches|
      && (a.furnace.batches[batch], target) !in
           {(Pending, Charging), (Charging, InFusion), (InFusion, Fused), (Fused, InCupellation),
            (InCupellation, Cupelled), (Cupelled, Completed)}
    case NotFound(TheBatch) => batch >= |a.furnace.batches|
    case Invalid(problems) =>
      problems == [NothingCharged] && target == InFusion && forall k :: !InBatch(a, batch, k)
    case _ => false
  }

  // ----- Fire assay results -----------------------------------------------------------------------

  /** The crucible the entry names is there. */
  ghost predicate NamesCrucible(a: Db, e: R.Entry) {
    && e.crucible.Some? && e.crucible.value < |a.furnace.crucibles|
    && a.furnace.crucibles[e.crucible.value].Some?
  }

  ghost predicate EntryProblem(a: Db, ref: Reference, e: R.Entry, p: Problem) {
    match p
    case AlreadyHasResult => e.supersedes.None? && exists i :: Unsuperseded(a.results, e.sample, i)
    case NotCurrentResult => e.supersedes.Some? && !Unsuperseded(a.results, e.sample, e.supersedes.value)
    case NeedsReason => e.supersedes.Some? && !Given(e.reason)
    case NoInstrument => !NamesInstrument(ref, e)
    case PortionMissing => e.crucible.None? && e.weight.None?
    case PortionTwice => e.crucible.Some? && e.weight.Some?
    case HoldsMaterial => NamesCrucible(a, e) && a.furnace.crucibles[e.crucible.value].value.sample.None?
    case HoldsOtherSample =>
      && NamesCrucible(a, e) && a.furnace.crucibles[e.crucible.value].value.sample.Some?
      && a.furnace.crucibles[e.crucible.value].value.sample != Some(e.sample)
    case NoBeadYet =>
      && NamesCrucible(a, e)
      && a.furnace.crucibles[e.crucible.value].value.status !in {CrucibleCupelled, Parted, Weighed}
    case _ => false
  }

  ghost predicate BeadProblem(a: Db, e: R.Entry, typed: Option<real>, p: Problem) {
    match p
    case BeadMissing =>
      && typed.None?
      && (e.crucible.None? ||
          (NamesCrucible(a, e) && a.furnace.crucibles[e.crucible.value].value.status != Weighed))
    case BeadTwice =>
      typed.Some? && NamesCrucible(a, e) && a.furnace.crucibles[e.crucible.value].value.status == Weighed
    case _ => false
  }

  ghost predicate EntryFault(a: Db, e: R.Entry, role: Role, why: Refusal) {
    match why
    case Lifecycle(InsufficientRole) => !EntersResults(role)
    case Lifecycle(NotAllowed) => e.sample < |a.samples| && a.samples[e.sample].status != InAssay
    case NotFound(TheSample) => e.sample >= |a.samples|
    case NotFound(TheCrucible) => e.crucible.Some? && !NamesCrucible(a, e)
    case _ => false
  }

  ghost predicate WeighedFault(a: Db, ref: Reference, e: R.Entry, w: R.Weighed, role: Role, why: Refusal) {
    match why
    case Invalid(problems) =>
      problems != [] && forall i :: 0 <= i < |problems| ==>
        EntryProblem(a, ref, e, problems[i]) || BeadProblem(a, e, w.bead, problems[i])
    case Calculation(cause) =>
      && NamesInstrument(ref, e) && PortionOf(a, e).Some? && BeadOf(a, e, w.bead).Some?
      && var bead, portion := BeadOf(a, e, w.bead).value, PortionOf(a, e).value;
         || GravimetricGrade(bead, portion, SensitivityOf(ref, e, w.sensitivity)) == Err(cause)
         || (w.dore.Some? && SilverByDifference(w.dore.value, bead, portion) == Err(cause))
    case _ => EntryFault(a, e, role, why)
  }

  ghost predicate ReadFault(a: Db, ref: Reference, e: R.Entry, m: R.Read, role: Role, why: Refusal) {
    match why
    case Invalid(problems) =>
      || (problems == [WrongFinish] && m.technique == FireAssayGravimetric)
      || (problems != [] && forall i :: 0 <= i < |problems| ==> EntryProblem(a, ref, e, problems[i]))
    case Calculation(cause) =>
      && NamesInstrument(ref, e) && PortionOf(a, e).Some?
      && SolutionFinishGrade(m.concentration, m.unit, m.volume, PortionOf(a, e).value,
                             DetectionOf(ref, e, m.detection), m.upper) == Err(cause)
    case _ => EntryFault(a, e, role, why)
  }

  // ----- Element readings ---------------------------------------------------------------------------

  ghost predicate ItemProblem(items: seq<E.Item>, p: Problem) {
    match p
    case NothingToImport => items == []
    case DuplicateElement => exists i, j :: 0 <= i < j < |items| && items[i].element == items[j].element
    case NotAMassFraction =>
      exists i :: 0 <= i < |items| && items[i].unit !in {Ppm, Ppb, Percent, GPerTonne, OzPerTon}
    case NegativeGrade => exists i :: 0 <= i < |items| && items[i].value < 0.0
    case _ => false
  }

  ghost predicate ImportFault(a: Db, sample: nat, items: seq<E.Item>, role: Role, why: Refusal) {
    match why
    case Lifecycle(InsufficientRole) => !EntersResults(role)
    case Lifecycle(NotAllowed) => sample < |a.samples| && a.samples[sample].status !in {InAssay, Assayed}
    case NotFound(TheSample) => sample >= |a.samples|
    case Invalid(problems) =>
      problems != [] && forall i :: 0 <= i < |problems| ==> ItemProblem(items, problems[i])
    case _ => false
  }

  ghost predicate CorrectFault(a: Db, q: E.Correction, role: Role, why: Refusal) {
    match why
    case Lifecycle(InsufficientRole) => !EntersResults(role)
    case NotFound(TheSample) => q.triple.sample >= |a.samples|
    case Invalid(problems) =>
      || (problems == [NoCurrentReading] && forall i :: !CurrentReading(a.readings, q.triple, i))
      || (problems == [NegativeGrade] && q.value < 0.0)
    case Integrity => forall i :: 0 <= i < |q.reason| ==> q.reason[i] == ' '
    case _ => false
  }

  // ----- Certificates ---------------------------------------------------------------------------------

  ghost predicate NoResult(a: Db, sample: nat) {
    forall r: nat :: !Unsuperseded(a.results, sample, r)
  }

  ghost predicate SampleProblem(a: Db, client: nat, ids: seq<nat>, p: Problem) {
    match p
    case NoSamples => ids == []
    case RepeatedSample => exists i, j :: 0 <= i < j < |ids| && ids[i] == ids[j]
    case UnknownSample => exists i :: 0 <= i < |ids| && ids[i] >= |a.samples|
    case OtherClientsSample =>
      exists i :: 0 <= i < |ids| && ids[i] < |a.samples| && a.samples[ids[i]].client != client
    case NoResultYet => exists i :: 0 <= i < |ids| && NoResult(a, ids[i])
    case _ => false
  }

  ghost predicate AmendmentProblem(a: Db, q: C.Request, p: Problem) {
    q.supersedes.Some? &&
    match p
    case NotCurrentCertificate =>
      q.supersedes.value < |a.certificates| ==>
        exists j :: 0 <= j < |a.certificates| && a.certificates[j].supersedes == q.supersedes
    case OtherClientsCertificate =>
      q.supersedes.value < |a.certificates| && a.certificates[q.supersedes.value].client != q.client
    case NeedsReason => !Given(q.reason)
    case _ => false
  }

  ghost predicate IssueFault(a: Db, ref: Reference, q: C.Request, role: Role, why: Refusal) {
    match why
    case Lifecycle(InsufficientRole) => role != LabManager
    case NotFound(TheClient) => q.client >= ref.clients
    case Invalid(problems) =>
      problems != [] && forall i :: 0 <= i < |problems| ==>
        SampleProblem(a, q.client, q.samples, problems[i]) || AmendmentProblem(a, q, problems[i])
    case _ => false
  }

  // ----- Every request -----------------------------------------------------------------------------------

  /** The refusal names a fault the request has. */
  ghost predicate Fault(a: Db, e: Event, why: Refusal) {
    match e.op
    case Receive(client, kind, received, role) => ReceiveFault(e.ref, client, received, role, why)
    case MoveSample(sample, target, reason, role) => MoveFault(a, sample, target, reason, role, why)
    case OpenBatch(instrument, role) => OpenFault(e.ref, instrument, role, why)
    case Charge(q, role) => ChargeFault(a, e.ref, q, role, why)
    case Uncharge(batch, k, role) => UnchargeFault(a, batch, k, role, why)
    case Part(batch, k, lead, prill, acid, role) =>
      MeasureFault(a, batch, k, CrucibleCupelled, lead > 0.0 && prill > 0.0 && acid > 0.0, role, why)
    case Weigh(batch, k, bead, role) => MeasureFault(a, batch, k, Parted, bead >= 0.0, role, why)
    case Advance(batch, stage, role) => AdvanceFault(a, batch, stage, role, why)
    case EnterWeighed(entry, w, role) => WeighedFault(a, e.ref, entry, w, role, why)
    case EnterRead(entry, m, role) => ReadFault(a, e.ref, entry, m, role, why)
    case Import(sample, digest, items, role) => ImportFault(a, sample, items, role, why)
    case Correct(q, role) => CorrectFault(a, q, role, why)
    case Issue(q, role) => IssueFault(a, e.ref, q, role, why)
  }
}
