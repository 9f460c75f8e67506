/** Fire assay result entry by either finish: what is stored, or why it is refused. */
module ResultService {
  import opened Wrappers
  import opened Lifecycle
  import opened BatchLifecycle
  import opened Units
  import opened Values
  import opened Assay
  import opened LabTables
  import opened Silver
  import F = Furnace
  import BatchService

  /** What both finishes' requests carry. */
  datatype Entry = Entry(
    sample: nat, weight: Option<real>, crucible: Option<nat>, instrument: Option<nat>,
    supersedes: Option<nat>, reason: Option<string>)

  datatype Weighed = Weighed(bead: Option<real>, sensitivity: Option<real>, dore: Option<real>)

  datatype Read = Read(
    technique: AssayMethod, concentration: real, unit: Unit, volume: real,
    detection: Option<real>, upper: Option<real>)

  /** The checks every entry passes first; on success, the sample's current result. */
  function Admit(db: Db, e: Entry, role: Role): Result<Option<nat>, Refusal> {
    var _ :- Require(role in MAY_ENTER_RESULTS, Lifecycle(InsufficientRole));
    var _ :- Require(e.sample < |db.samples|, NotFound(TheSample));
    var current := CurrentResult(db.results, e.sample);
    var s := db.samples[e.sample];
    if e.supersedes.None? && current.None? then
      var _ :- BatchService.Lift(CheckTransition(s.status, Assayed, s.kind, role, None));
      Ok(current)
    else Ok(current)
  }

  /** Who may enter a result for the sample, and when it may be its first. */
  predicate MayEnter(db: Db, e: Entry, role: Role) {
    && role in {Analyst, Supervisor, LabManager} && e.sample < |db.samples|
    && (e.supersedes.None? && CurrentResult(db.results, e.sample).None? ==> db.samples[e.sample].status == InAssay)
  }

  lemma AdmitIff(db: Db, e: Entry, role: Role)
    ensures Admit(db, e, role).Ok? <==> MayEnter(db, e, role)
    ensures Admit(db, e, role).Ok? ==> Admit(db, e, role).value == CurrentResult(db.results, e.sample)
  {
    if e.sample < |db.samples| {
      var s := db.samples[e.sample];
      AllowedIff(s.status, Assayed, s.kind, role, None);
    }
  }

  function SupersessionProblems(e: Entry, current: Option<nat>): seq<Problem> {
    if e.supersedes.None? then
      if current.Some? then [AlreadyHasResult] else []
    else
      (if current != e.supersedes then [NotCurrentResult] else [])
      + (if !StatesReason(e.reason) then [NeedsReason] else [])
  }

  predicate BeadBearing(s: CrucibleStatus) {
    s in {CrucibleCupelled, Parted, CrucibleStatus.Weighed}
  }

  /** What is wrong with naming this crucible for this sample. */
  function CrucibleProblems(e: Entry, c: F.Crucible): seq<Problem> {
    (if e.weight.Some? then [PortionTwice] else [])
    + (if c.sample != Some(e.sample) then [if c.sample.None? then HoldsMaterial else HoldsOtherSample] else [])
    + (if !BeadBearing(c.status) then [NoBeadYet] else [])
  }

  /** The crucible holds this sample, has borne a bead and is the only source of the portion. */
  predicate Usable(e: Entry, c: F.Crucible) {
    e.weight.None? && c.sample == Some(e.sample) && BeadBearing(c.status)
  }

  datatype Resolved = Resolved(portion: Option<real>, bead: Option<real>, problems: seq<Problem>)

  predicate WasWeighed(c: F.Crucible) {
    c.status == CrucibleStatus.Weighed && c.bead.Some?
  }

  /** The portion and bead a gravimetric result stands for. */
  function ResolveWeighing(db: Db, e: Entry, bead: Option<real>): Result<Resolved, Refusal> {
    if e.crucible.None? then
      Ok(Resolved(e.weight, bead,
        (if e.weight.None? then [PortionMissing] else []) + (if bead.None? then [BeadMissing] else [])))
    else
      var _ :- Require(F.Live(db.furnace, e.crucible.value), NotFound(TheCrucible));
      var c := F.At(db.furnace, e.crucible.value);
      var problems := CrucibleProblems(e, c)
        + (if WasWeighed(c) && bead.Some? then [BeadTwice]
           else if !WasWeighed(c) && bead.None? then [BeadMissing] else []);
      Ok(Resolved(
        if problems == [] then Some(c.weight) else None,
        if problems == [] && WasWeighed(c) then c.bead else bead,
        problems))
  }

  predicate NamesUsable(db: Db, e: Entry) {
    e.crucible.Some? && F.Live(db.furnace, e.crucible.value) && Usable(e, F.At(db.furnace, e.crucible.value))
  }

  /** Portion and bead each have exactly one source: typed, or recorded on the crucible named. */
  predicate OneSourceEach(db: Db, e: Entry, bead: Option<real>) {
    if e.crucible.None? then e.weight.Some? && bead.Some?
    else NamesUsable(db, e) && (WasWeighed(F.At(db.furnace, e.crucible.value)) <==> bead.None?)
  }

  /** A clean resolution is one source each, and carries the numbers of those sources. */
  lemma WeighingIff(db: Db, e: Entry, bead: Option<real>)
    ensures var r := ResolveWeighing(db, e, bead);
      && (r.Ok? && r.value.problems == [] <==> OneSourceEach(db, e, bead))
      && (r.Err? <==> e.crucible.Some? && !F.Live(db.furnace, e.crucible.value))
      && (OneSourceEach(db, e, bead) ==>
            && r.value.portion
               == (if e.crucible.None? then e.weight else Some(F.At(db.furnace, e.crucible.value).weight))
            && r.value.bead == (if bead.Some? then bead else F.At(db.furnace, e.crucible.value).bead)
            && r.value.bead.Some?)
  {
  }

  predicate OnePortion(db: Db, e: Entry) {
    if e.crucible.None? then e.weight.Some? else NamesUsable(db, e)
  }

  lemma PortionIff(db: Db, e: Entry)
    ensures var r := ResolvePortion(db, e);
      && (r.Ok? && r.value.problems == [] <==> OnePortion(db, e))
      && (r.Err? <==> e.crucible.Some? && !F.Live(db.furnace, e.crucible.value))
      && (OnePortion(db, e) ==>
            r.value.portion == (if e.crucible.None? then e.weight else Some(F.At(db.furnace, e.crucible.value).weight)))
  {
  }

  /** The portion a solution finish assayed. */
  function ResolvePortion(db: Db, e: Entry): Result<Resolved, Refusal> {
    if e.crucible.None? then
      Ok(Resolved(e.weight, None, if e.weight.None? then [PortionMissing] else []))
    else
      var _ :- Require(F.Live(db.furnace, e.crucible.value), NotFound(TheCrucible));
      var c := F.At(db.furnace, e.crucible.value);
      var problems := CrucibleProblems(e, c);
      Ok(Resolved(if problems == [] then Some(c.weight) else None, None, problems))
  }

  function InstrumentProblems(ref: Reference, e: Entry): seq<Problem> {
    if e.instrument.Some? && e.instrument.value >= |ref.instruments| then [NoInstrument] else []
  }

  /** The caller's own limit, or else the named instrument's. */
  function WithDefault(given: Option<real>, ref: Reference, e: Entry, of: Instrument -> Option<real>): Option<real>
    requires InstrumentProblems(ref, e) == []
  {
    if given.None? && e.instrument.Some? then of(ref.instruments[e.instrument.value]) else given
  }

  function Record(db: Db, row: FireAssay): Db
    requires row.sample < |db.samples|
  {
    db.(results := db.results + [row],
        samples := if row.supersedes.None? then SetStatus(db.samples, row.sample, Assayed) else db.samples)
  }

  function Graded(r: Result<MeasuredValue, AssayError>): Result<MeasuredValue, Refusal> {
    if r.Ok? then Ok(r.value) else Err(Calculation(r.error))
  }

  function SilverGrade(dore: Option<real>, bead: real, weight: real): Result<Option<MeasuredValue>, Refusal> {
    if dore.None? then Ok(None)
    else
      var s :- Graded(SilverByDifference(dore.value, bead, weight));
      Ok(Some(s))
  }

  function StoredSilverBead(dore: Option<real>, bead: real): Option<real> {
    if dore.None? then None else Some(SilverBead(dore.value, bead))
  }

  /** The row of a gravimetric result: both grades, and what they were computed from. */
  function WeighedRow(e: Entry, dore: Option<real>, bead: real, portion: real, sensitivity: Option<real>)
    : Result<FireAssay, Refusal>
  {
    var grade :- Graded(GravimetricGrade(bead, portion, sensitivity));
    var silver :- SilverGrade(dore, bead, portion);
    Ok(FireAssay(e.sample, Gravimetric(bead, sensitivity), portion, grade, StoredSilverBead(dore, bead), silver,
                 e.crucible, e.supersedes))
  }

  datatype Weighings = Weighings(bead: real, portion: real, sensitivity: Option<real>)

  /** The measurements an admitted gravimetric entry stands for, or why it is refused. */
  function CheckWeighed(db: Db, ref: Reference, e: Entry, w: Weighed, role: Role): Result<Weighings, Refusal> {
    var current :- Admit(db, e, role);
    var r :- ResolveWeighing(db, e, w.bead);
    var problems := SupersessionProblems(e, current) + r.problems + InstrumentProblems(ref, e);
    var _ :- Require(problems == [], Invalid(problems));
    Ok(Weighings(r.bead.value, r.portion.value, WithDefault(w.sensitivity, ref, e, (i: Instrument) => i.balance)))
  }

  function EnterWeighed(db: Db, ref: Reference, e: Entry, w: Weighed, role: Role): Result<Db, Refusal> {
    var m :- CheckWeighed(db, ref, e, w, role);
    AdmittedSample(db, ref, e, w, role);
    var row :- WeighedRow(e, w.dore, m.bead, m.portion, m.sensitivity);
    Ok(Record(db, row))
  }

  lemma AdmittedSample(db: Db, ref: Reference, e: Entry, w: Weighed, role: Role)
    ensures CheckWeighed(db, ref, e, w, role).Ok? ==> e.sample < |db.samples|
  {
  }

  /** The portion a solution finish assayed, and its detection limit. */
  datatype Aliquot = Aliquot(portion: real, detection: Option<real>)

  /** The measurements an admitted solution entry stands for, or why it is refused. */
  function CheckRead(db: Db, ref: Reference, e: Entry, m: Read, role: Role): Result<Aliquot, Refusal> {
    var _ :- Require(m.technique != FireAssayGravimetric, Invalid([WrongFinish]));
    var current :- Admit(db, e, role);
    var r :- ResolvePortion(db, e);
    var problems := SupersessionProblems(e, current) + r.problems + InstrumentProblems(ref, e);
    var _ :- Require(problems == [], Invalid(problems));
    Ok(Aliquot(r.portion.value, WithDefault(m.detection, ref, e, (i: Instrument) => i.solution)))
  }

  /** The row of a solution finish: the grade, and what it was computed from apart from the upper limit. */
  function ReadRow(e: Entry, m: Read, q: Aliquot): Result<FireAssay, Refusal> {
    var grade :- Graded(SolutionFinishGrade(m.concentration, m.unit, m.volume, q.portion, q.detection, m.upper));
    Ok(FireAssay(e.sample, Solution(m.technique, m.concentration, m.unit, m.volume, q.detection), q.portion, grade,
                 None, None, e.crucible, e.supersedes))
  }

  function EnterRead(db: Db, ref: Reference, e: Entry, m: Read, role: Role): Result<Db, Refusal> {
    var q :- CheckRead(db, ref, e, m, role);
    AdmittedReading(db, ref, e, m, role);
    var row :- ReadRow(e, m, q);
    Ok(Record(db, row))
  }

  lemma AdmittedReading(db: Db, ref: Reference, e: Entry, m: Read, role: Role)
    ensures CheckRead(db, ref, e, m, role).Ok? ==> e.sample < |db.samples|
  {
  }
}
