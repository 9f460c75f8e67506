/** The tables the bench services share, and the ways a request can be refused. */
module LabTables {
  import opened Wrappers
  import opened Lifecycle
  import opened BatchLifecycle
  import opened Units
  import opened Values
  import opened Assay
  import Furnace
  import opened Chains

  datatype SampleRow = SampleRow(client: nat, kind: SampleType, received: Option<real>, status: Status)

  datatype AssayMethod = FireAssayGravimetric | FireAssayAas | FireAssayIcpMs

  /** The measurements of one finish; the table's CHECKs let a row carry exactly one set. */
  datatype Finish =
    | Gravimetric(bead: real, sensitivity: Option<real>)
    | Solution(technique: AssayMethod, concentration: real, unit: Unit, volume: real, detection: Option<real>)

  datatype FireAssay = FireAssay(
    sample: nat, finish: Finish, weight: real, grade: MeasuredValue,
    silverBead: Option<real>, silver: Option<MeasuredValue>,
    crucible: Option<nat>, supersedes: Option<nat>)

  datatype Digest = AquaRegia | FourAcid | PeroxideFusion

  datatype Triple = Triple(sample: nat, element: string, digest: Digest)

  /** One element reading of a sample by one digest. */
  datatype Reading = Reading(
    triple: Triple, value: real, unit: Unit, limit: Option<real>, censored: bool, supersedes: Option<nat>)

  /** One sample's line on a certificate: the exact rows certified. */
  datatype Frozen = Frozen(sample: nat, result: nat, readings: set<nat>)

  datatype Certificate = Certificate(client: nat, supersedes: Option<nat>, lines: seq<Frozen>)

  datatype Db = Db(
    samples: seq<SampleRow>, furnace: Furnace.Tables, results: seq<FireAssay>,
    readings: seq<Reading>, certificates: seq<Certificate>)

  const EMPTY: Db := Db([], Furnace.Tables([], []), [], [], [])

  datatype Instrument = Instrument(balance: Option<real>, solution: Option<real>)

  /** Reference data as it stands when a request is served; it may change between requests. */
  datatype Reference = Reference(
    rows: int, cols: int, clients: nat, instruments: seq<Instrument>, nominalPortions: seq<real>,
    activeMaterials: seq<bool>)

  datatype Entity = TheSample | TheBatch | TheCrucible | TheClient | TheRecipe | TheMaterial

  datatype Problem =
    | ExactlyOneOfSampleAndMaterial | DuplicateOfMaterial | ExceedsReceived | NotOpenForCharging | SlotTaken
    | MaterialRetired | NothingCharged | NoInstrument
    | AlreadyHasResult | NotCurrentResult | NeedsReason | PortionMissing | BeadMissing | PortionTwice | BeadTwice
    | HoldsMaterial | HoldsOtherSample | NoBeadYet | WrongFinish
    | NothingToImport | DuplicateElement | NegativeGrade | NotAMassFraction | NoCurrentReading
    | NoSamples | RepeatedSample | UnknownSample | OtherClientsSample | NoResultYet
    | NotCurrentCertificate | OtherClientsCertificate

  datatype Refusal =
    | Lifecycle(why: LifecycleError)
    | NotFound(what: Entity)
    | Invalid(problems: seq<Problem>)
    | OutsideTray
    | FluxError
    | Calculation(cause: AssayError)
    | Integrity
    | BadRequest

  // ----- The tables as supersession chains -----------------------------------------------------

  function ResultLinks(rows: seq<FireAssay>): seq<Link<nat>> {
    seq(|rows|, i requires 0 <= i < |rows| => Link(rows[i].sample, rows[i].supersedes))
  }

  function ReadingLinks(rows: seq<Reading>): seq<Link<Triple>> {
    seq(|rows|, i requires 0 <= i < |rows| => Link(rows[i].triple, rows[i].supersedes))
  }

  function CertificateLinks(rows: seq<Certificate>): seq<Link<nat>> {
    seq(|rows|, i requires 0 <= i < |rows| => Link(rows[i].client, rows[i].supersedes))
  }

  /** The sample's current fire assay result: the newest row nothing supersedes. */
  function CurrentResult(rows: seq<FireAssay>, sample: nat): Option<nat> {
    Current(ResultLinks(rows), sample)
  }

  /** Every element reading of the sample that nothing supersedes. */
  function CurrentReadings(rows: seq<Reading>, sample: nat): set<nat> {
    set i: nat | 0 <= i < |rows| && rows[i].triple.sample == sample && !Superseded(ReadingLinks(rows), i)
  }

  function SetStatus(samples: seq<SampleRow>, i: nat, status: Status): seq<SampleRow>
    requires i < |samples|
  {
    samples[i := samples[i].(status := status)]
  }
}
