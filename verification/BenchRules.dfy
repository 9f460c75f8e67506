/**
 The rules of the bench, request by request: what a request needs to be granted, and what
 it leaves behind. They are stated of the rows of the tables alone, without the services'
 checks, constants or helper functions.
 */
module BenchRules {
  import opened Wrappers
  import opened Lifecycle
  import opened BatchLifecycle
  import opened Decimals
  import opened Units
  import opened Values
  import opened Assay
  import opened LabTables
  import F = Furnace
  import B = BatchService
  import R = ResultService
  import E = ReadingService
  import C = CertificateService
  import opened LabRuns

  ghost predicate Bench(role: Role) {
    role in {PrepTech, Analyst, Supervisor, LabManager}
  }

  ghost predicate EntersResults(role: Role) {
    role in {Analyst, Supervisor, LabManager}
  }

  ghost predicate Supervises(role: Role) {
    role in {Supervisor, LabManager}
  }

  /** A reason was given: some character of it is not whitespace. */
  ghost predicate Given(reason: Option<string>) {
    reason.Some? && exists i :: 0 <= i < |reason.value| && Visible(reason.value[i])
  }

  ghost predicate Visible(c: char) {
    c !in {' ', '\t', '\n', '\r'} && c as int !in {0x0B, 0x0C, 0x1C, 0x1D, 0x1E, 0x1F}
  }

  /** Only sample i's status changed, to t. */
  ghost predicate OnlyStatus(a: seq<SampleRow>, b: seq<SampleRow>, i: nat, t: Status) {
    && i < |a| == |b|
    && b[i] == SampleRow(a[i].client, a[i].kind, a[i].received, t)
    && forall j :: 0 <= j < |a| && j != i ==> b[j] == a[j]
  }

  // ----- Samples -----------------------------------------------------------------------------

  ghost predicate MayReceive(ref: Reference, client: nat, received: Option<real>, role: Role) {
    Bench(role) && client < ref.clients && (received.Some? ==> received.value > 0.0)
  }

  /** The bare moves: preparation, readiness, a supervised re-assay and a supervised rejection. */
  ghost predicate MayMove(a: Db, i: nat, target: Status, reason: Option<string>, role: Role) {
    i < |a.samples| && Bench(role) &&
    match target
    case InPrep => a.samples[i].status == Received
    case ReadyForAssay =>
      || a.samples[i].status == InPrep
      || (a.samples[i].status == Received && a.samples[i].kind == Pulp)
      || (a.samples[i].status == Assayed && Supervises(role) && Given(reason))
    case Rejected =>
      a.samples[i].status in {Received, InPrep, ReadyForAssay, InAssay} && Supervises(role) && Given(reason)
    case _ => false
  }

  // ----- Batches -------------------------------------------------------------------------------

  /** Crucible k is in the tray of the batch. */
  ghost predicate InBatch(a: Db, batch: nat, k: int) {
    && 0 <= k < |a.furnace.crucibles| && a.furnace.crucibles[k].Some?
    && a.furnace.crucibles[k].value.batch == batch
  }

  ghost predicate SlotFree(a: Db, batch: nat, row: int, col: int) {
    forall k :: InBatch(a, batch, k) ==>
      a.furnace.crucibles[k].value.row != row || a.furnace.crucibles[k].value.col != col
  }

  ghost predicate FirstCharge(a: Db, batch: nat, sample: nat) {
    forall k :: InBatch(a, batch, k) ==>
      a.furnace.crucibles[k].value.sample != Some(sample) || a.furnace.crucibles[k].value.insertion.Some?
  }

  /** A primary charge needs a ready sample not yet in this batch, a duplicate one already in assay. */
  ghost predicate MayTake(a: Db, q: B.ChargeRequest, sample: nat) {
    && sample < |a.samples|
    && (a.samples[sample].received.Some? ==> q.weight <= a.samples[sample].received.value)
    && (if q.insertion.None? then a.samples[sample].status == ReadyForAssay && FirstCharge(a, q.batch, sample)
        else a.samples[sample].status == InAssay)
  }

  ghost predicate MayCharge(a: Db, ref: Reference, q: B.ChargeRequest, role: Role) {
    && Bench(role)
    && q.batch < |a.furnace.batches| && a.furnace.batches[q.batch] == Charging
    && 1 <= q.row <= ref.rows && 1 <= q.col <= ref.cols && SlotFree(a, q.batch, q.row, q.col)
    && q.recipe < |ref.nominalPortions| && ref.nominalPortions[q.recipe] > 0.0 && q.weight > 0.0
    && (match (q.sample, q.material)
        case (Some(sample), None) => MayTake(a, q, sample)
        case (None, Some(material)) =>
          q.insertion.None? && material < |ref.activeMaterials| && ref.activeMaterials[material]
        case _ => false)
  }

  ghost predicate DidCharge(a: Db, q: B.ChargeRequest, b: Db) {
    && b == a.(samples := b.samples, furnace := b.furnace)
    && b.furnace.batches == a.furnace.batches
    && |b.furnace.crucibles| == |a.furnace.crucibles| + 1
    && b.furnace.crucibles[..|a.furnace.crucibles|] == a.furnace.crucibles
    && b.furnace.crucibles[|a.furnace.crucibles|].Some?
    && JustCharged(q, b.furnace.crucibles[|a.furnace.crucibles|].value)
    && (if q.sample.Some? && q.insertion.None? then OnlyStatus(a.samples, b.samples, q.sample.value, InAssay)
        else b.samples == a.samples)
  }

  ghost predicate JustCharged(q: B.ChargeRequest, c: F.Crucible) {
    && c.batch == q.batch && c.sample == q.sample && c.material == q.material && c.insertion == q.insertion
    && c.row == q.row && c.col == q.col && c.weight == q.weight && c.status == Charged
    && c.lead.None? && c.prill.None? && c.acid.None? && c.bead.None?
  }

  ghost predicate MayUncharge(a: Db, batch: nat, k: nat, role: Role) {
    Bench(role) && batch < |a.furnace.batches| && a.furnace.batches[batch] == Charging && InBatch(a, batch, k)
  }

  /** The crucible is gone; a primary's sample still in assay is ready again. */
  ghost predicate DidUncharge(a: Db, k: nat, b: Db)
    requires k < |a.furnace.crucibles| && a.furnace.crucibles[k].Some?
  {
    var c := a.furnace.crucibles[k].value;
    && b == a.(samples := b.samples, furnace := a.furnace.(crucibles := b.furnace.crucibles))
    && OnlyCrucible(a, b, k) && b.furnace.crucibles[k].None?
    && (if c.sample.Some? && c.insertion.None? && c.sample.value < |a.samples|
           && a.samples[c.sample.value].status == InAssay
        then OnlyStatus(a.samples, b.samples, c.sample.value, ReadyForAssay)
        else b.samples == a.samples)
  }

  ghost predicate OnlyCrucible(a: Db, b: Db, k: nat) {
    && k < |a.furnace.crucibles| == |b.furnace.crucibles|
    && forall j :: 0 <= j < |a.furnace.crucibles| && j != k ==> b.furnace.crucibles[j] == a.furnace.crucibles[j]
  }

  ghost predicate MayMeasure(a: Db, batch: nat, k: nat, status: CrucibleStatus, role: Role) {
    && Bench(role) && batch < |a.furnace.batches| && InBatch(a, batch, k)
    && a.furnace.crucibles[k].value.status == status
  }

  /** Only crucible k changed, to a row with the same charge. */
  ghost predicate DidMeasure(a: Db, k: nat, b: Db) {
    && b == a.(furnace := a.furnace.(crucibles := b.furnace.crucibles))
    && OnlyCrucible(a, b, k) && a.furnace.crucibles[k].Some? && b.furnace.crucibles[k].Some?
    && var c, d := a.furnace.crucibles[k].value, b.furnace.crucibles[k].value;
       && d.batch == c.batch && d.sample == c.sample && d.material == c.material && d.insertion == c.insertion
       && d.row == c.row && d.col == c.col && d.weight == c.weight
  }

  ghost predicate DidPart(a: Db, k: nat, lead: real, prill: real, acid: real, b: Db) {
    && DidMeasure(a, k, b)
    && var c, d := a.furnace.crucibles[k].value, b.furnace.crucibles[k].value;
       && d.status == Parted && d.bead == c.bead
       && d.lead == Some(lead) && d.prill == Some(prill) && d.acid == Some(acid)
  }

  ghost predicate DidWeigh(a: Db, k: nat, bead: real, b: Db) {
    && DidMeasure(a, k, b)
    && var c, d := a.furnace.crucibles[k].value, b.furnace.crucibles[k].value;
       d.status == Weighed && d.bead == Some(bead) && d.lead == c.lead && d.prill == c.prill && d.acid == c.acid
  }

  /** One stage at a time, and nothing is fired empty. */
  ghost predicate MayAdvance(a: Db, batch: nat, target: BatchStatus, role: Role) {
    && Bench(role) && batch < |a.furnace.batches|
    && (a.furnace.batches[batch], target) in
         {(Pending, Charging), (Charging, InFusion), (InFusion, Fused), (Fused, InCupellation),
          (InCupellation, Cupelled), (Cupelled, Completed)}
    && (target == InFusion ==> exists k :: InBatch(a, batch, k))
  }

  ghost predicate DidAdvance(a: Db, batch: nat, target: BatchStatus, b: Db) {
    && b == a.(furnace := b.furnace)
    && batch < |a.furnace.batches| == |b.furnace.batches| && |b.furnace.crucibles| == |a.furnace.crucibles|
    && (forall i :: 0 <= i < |a.furnace.batches| ==>
          b.furnace.batches[i] == if i == batch then target else a.furnace.batches[i])
    && (forall k :: 0 <= k < |a.furnace.crucibles| ==>
          b.furnace.crucibles[k] ==
            if InBatch(a, batch, k) && target == Fused then
              Some(a.furnace.crucibles[k].value.(status := CrucibleFused))
            else if InBatch(a, batch, k) && target == Cupelled then
              Some(a.furnace.crucibles[k].value.(status := CrucibleCupelled))
            else a.furnace.crucibles[k])
  }

  // ----- Fire assay results -----------------------------------------------------------------------

  /** The result is the sample's and no row supersedes it. */
  ghost predicate Unsuperseded(rows: seq<FireAssay>, sample: nat, i: nat) {
    i < |rows| && rows[i].sample == sample && forall j :: 0 <= j < |rows| ==> rows[j].supersedes != Some(i)
  }

  /** A first result finds the sample in assay; any other supersedes the current one and says why. */
  ghost predicate MayFollow(a: Db, e: R.Entry) {
    e.sample < |a.samples| &&
    if e.supersedes.None? then
      a.samples[e.sample].status == InAssay && forall i :: !Unsuperseded(a.results, e.sample, i)
    else Unsuperseded(a.results, e.sample, e.supersedes.value) && Given(e.reason)
  }

  /** The crucible named is this sample's and has borne a bead. */
  ghost predicate BoreBead(a: Db, sample: nat, k: nat) {
    && k < |a.furnace.crucibles| && a.furnace.crucibles[k].Some?
    && a.furnace.crucibles[k].value.sample == Some(sample)
    && a.furnace.crucibles[k].value.status in {CrucibleCupelled, Parted, Weighed}
  }

  /** The portion: typed, or the charge of the crucible named, never both. */
  ghost function PortionOf(a: Db, e: R.Entry): Option<real> {
    if e.crucible.None? then e.weight
    else if e.weight.None? && BoreBead(a, e.sample, e.crucible.value)
    then Some(a.furnace.crucibles[e.crucible.value].value.weight)
    else None
  }

  /** The bead: typed, or the one weighed in the crucible named, never both. */
  ghost function BeadOf(a: Db, e: R.Entry, typed: Option<real>): Option<real> {
    if e.crucible.None? then typed
    else if !BoreBead(a, e.sample, e.crucible.value) then None
    else if a.furnace.crucibles[e.crucible.value].value.status != Weighed then typed
    else if typed.None? then a.furnace.crucibles[e.crucible.value].value.bead
    else None
  }

  ghost predicate NamesInstrument(ref: Reference, e: R.Entry) {
    e.instrument.Some? ==> e.instrument.value < |ref.instruments|
  }

  /** The limit stated, or else the balance sensitivity of the instrument named. */
  ghost function SensitivityOf(ref: Reference, e: R.Entry, stated: Option<real>): Option<real>
    requires NamesInstrument(ref, e)
  {
    if stated.Some? || e.instrument.None? then stated else ref.instruments[e.instrument.value].balance
  }

  /** The limit stated, or else the solution detection limit of the instrument named. */
  ghost function DetectionOf(ref: Reference, e: R.Entry, stated: Option<real>): Option<real>
    requires NamesInstrument(ref, e)
  {
    if stated.Some? || e.instrument.None? then stated else ref.instruments[e.instrument.value].solution
  }

  ghost predicate MayEnterWeighed(a: Db, ref: Reference, e: R.Entry, w: R.Weighed, role: Role) {
    && EntersResults(role) && MayFollow(a, e) && NamesInstrument(ref, e)
    && var portion, bead, limit := PortionOf(a, e), BeadOf(a, e, w.bead), SensitivityOf(ref, e, w.sensitivity);
       && portion.Some? && bead.Some? && portion.value > 0.0 && bead.value >= 0.0
       && (limit.Some? ==> limit.value > 0.0) && (bead.value == 0.0 ==> limit.Some?)
       && (w.dore.Some? ==> bead.value <= w.dore.value)
  }

  /** The row holds what was asked for, and grades computed from exactly that. */
  ghost predicate WeighedAs(a: Db, ref: Reference, e: R.Entry, w: R.Weighed, row: FireAssay)
    requires NamesInstrument(ref, e)
  {
    && row.sample == e.sample && row.crucible == e.crucible && row.supersedes == e.supersedes
    && Some(row.weight) == PortionOf(a, e)
    && row.finish.Gravimetric? && Some(row.finish.bead) == BeadOf(a, e, w.bead)
    && row.finish.sensitivity == SensitivityOf(ref, e, w.sensitivity)
    && GravimetricGrade(row.finish.bead, row.weight, row.finish.sensitivity) == Ok(row.grade)
    && (w.dore.None? ==> row.silverBead.None? && row.silver.None?)
    && (w.dore.Some? ==>
          && row.silverBead == Some(RoundIn(Default, w.dore.value - row.finish.bead))
          && row.silver.Some?
          && SilverByDifference(w.dore.value, row.finish.bead, row.weight) == Ok(row.silver.value))
  }

  ghost predicate MayEnterRead(a: Db, ref: Reference, e: R.Entry, m: R.Read, role: Role) {
    && EntersResults(role) && MayFollow(a, e) && NamesInstrument(ref, e)
    && m.technique in {FireAssayAas, FireAssayIcpMs} && PortionOf(a, e).Some?
    && SolutionFinishGrade(m.concentration, m.unit, m.volume, PortionOf(a, e).value,
                           DetectionOf(ref, e, m.detection), m.upper).Ok?
  }

  ghost predicate ReadAs(a: Db, ref: Reference, e: R.Entry, m: R.Read, row: FireAssay)
    requires NamesInstrument(ref, e)
  {
    && row.sample == e.sample && row.crucible == e.crucible && row.supersedes == e.supersedes
    && Some(row.weight) == PortionOf(a, e)
    && row.finish.Solution? && row.finish.technique == m.technique && row.finish.concentration == m.concentration
    && row.finish.unit == m.unit && row.finish.volume == m.volume
    && row.finish.detection == DetectionOf(ref, e, m.detection)
    && SolutionFinishGrade(m.concentration, m.unit, m.volume, row.weight, row.finish.detection, m.upper)
         == Ok(row.grade)
    && row.silverBead.None? && row.silver.None?
  }

  /** One row was appended, and a first result made its sample assayed. */
  ghost predicate DidRecord(a: Db, e: R.Entry, b: Db) {
    && b == a.(samples := b.samples, results := b.results)
    && |b.results| == |a.results| + 1 && b.results[..|a.results|] == a.results
    && (if e.supersedes.None? then OnlyStatus(a.samples, b.samples, e.sample, Assayed) else b.samples == a.samples)
  }

  // ----- Element readings ---------------------------------------------------------------------------

  ghost predicate MayImport(a: Db, sample: nat, items: seq<E.Item>, role: Role) {
    && EntersResults(role) && sample < |a.samples| && a.samples[sample].status in {InAssay, Assayed}
    && items != []
    && (forall i :: 0 <= i < |items| ==>
          items[i].value >= 0.0 && items[i].unit in {Ppm, Ppb, Percent, GPerTonne, OzPerTon})
    && (forall i, j :: 0 <= i < j < |items| ==> items[i].element != items[j].element)
  }

  /** At or below its limit a reading stands as the limit and is flagged; above it, as it was read. */
  ghost predicate StoredAs(value: real, unit: Unit, limit: Option<real>, row: Reading) {
    && row.unit == unit && row.limit == limit
    && (limit.Some? && value <= limit.value ==> row.censored && Some(row.value) == limit)
    && (!(limit.Some? && value <= limit.value) ==> !row.censored && row.value == value)
  }

  /** A fresh row for the item. */
  ghost predicate ImportedAs(sample: nat, digest: Digest, item: E.Item, row: Reading) {
    && row.triple.sample == sample && row.triple.element == item.element && row.triple.digest == digest
    && row.supersedes.None? && StoredAs(item.value, item.unit, item.limit, row)
  }

  ghost predicate DidImport(a: Db, sample: nat, digest: Digest, items: seq<E.Item>, b: Db) {
    && b == a.(samples := b.samples, readings := b.readings)
    && |b.readings| == |a.readings| + |items| && b.readings[..|a.readings|] == a.readings
    && (forall i :: 0 <= i < |items| ==> ImportedAs(sample, digest, items[i], b.readings[|a.readings| + i]))
    && OnlyStatus(a.samples, b.samples, sample, Assayed)
  }

  ghost predicate CurrentReading(rows: seq<Reading>, triple: Triple, i: nat) {
    i < |rows| && rows[i].triple == triple && forall j :: 0 <= j < |rows| ==> rows[j].supersedes != Some(i)
  }

  ghost predicate MayCorrect(a: Db, q: E.Correction, role: Role) {
    && EntersResults(role) && q.triple.sample < |a.samples|
    && (exists i :: CurrentReading(a.readings, q.triple, i))
    && q.value >= 0.0 && (exists i :: 0 <= i < |q.reason| && q.reason[i] != ' ')
  }

  ghost predicate DidCorrect(a: Db, q: E.Correction, b: Db) {
    && b == a.(readings := b.readings)
    && |b.readings| == |a.readings| + 1 && b.readings[..|a.readings|] == a.readings
    && var row := b.readings[|a.readings|];
       && row.triple == q.triple && StoredAs(q.value, q.unit, q.limit, row)
       && row.supersedes.Some? && CurrentReading(a.readings, q.triple, row.supersedes.value)
  }

  // ----- Certificates ---------------------------------------------------------------------------------

  ghost predicate MayCertify(a: Db, client: nat, sample: nat) {
    && sample < |a.samples| && a.samples[sample].client == client
    && exists i :: Unsuperseded(a.results, sample, i)
  }

  ghost predicate MayAmend(a: Db, q: C.Request, c: nat) {
    && c < |a.certificates| && a.certificates[c].client == q.client
    && (forall j :: 0 <= j < |a.certificates| ==> a.certificates[j].supersedes != Some(c))
    && Given(q.reason)
  }

  /** Only a lab manager signs. */
  ghost predicate MayIssue(a: Db, ref: Reference, q: C.Request, role: Role) {
    && role == LabManager && q.client < ref.clients && q.samples != []
    && (forall i :: 0 <= i < |q.samples| ==> MayCertify(a, q.client, q.samples[i]))
    && (forall i, j :: 0 <= i < j < |q.samples| ==> q.samples[i] != q.samples[j])
    && (q.supersedes.Some? ==> MayAmend(a, q, q.supersedes.value))
  }

  ghost predicate LineOf(a: Db, sample: nat, line: Frozen) {
    && line.sample == sample && Unsuperseded(a.results, sample, line.result)
    && forall r: nat :: r in line.readings <==>
         && r < |a.readings| && a.readings[r].triple.sample == sample
         && CurrentReading(a.readings, a.readings[r].triple, r)
  }

  /** One line for each sample asked for, in that order. */
  ghost predicate CertifiedAs(a: Db, q: C.Request, c: Certificate) {
    && c.client == q.client && c.supersedes == q.supersedes && |c.lines| == |q.samples|
    && forall i :: 0 <= i < |q.samples| ==> LineOf(a, q.samples[i], c.lines[i])
  }

  ghost predicate DidIssue(a: Db, q: C.Request, b: Db) {
    && b == a.(samples := b.samples, certificates := b.certificates)
    && |b.certificates| == |a.certificates| + 1 && b.certificates[..|a.certificates|] == a.certificates
    && CertifiedAs(a, q, b.certificates[|a.certificates|])
    && |b.samples| == |a.samples|
    && forall i :: 0 <= i < |a.samples| ==>
         b.samples[i] == if i in q.samples && a.samples[i].status == Assayed
                         then SampleRow(a.samples[i].client, a.samples[i].kind, a.samples[i].received, Reported)
                         else a.samples[i]
  }

  // ----- Every request -----------------------------------------------------------------------------------

  /** What the request needs. */
  ghost predicate Granted(a: Db, e: Event) {
    match e.op
    case Receive(client, kind, received, role) => MayReceive(e.ref, client, received, role)
    case MoveSample(sample, target, reason, role) => MayMove(a, sample, target, reason, role)
    case OpenBatch(instrument, role) =>
      Bench(role) && (instrument.Some? ==> instrument.value < |e.ref.instruments|)
    case Charge(q, role) => MayCharge(a, e.ref, q, role)
    case Uncharge(batch, k, role) => MayUncharge(a, batch, k, role)
    case Part(batch, k, lead, prill, acid, role) =>
      MayMeasure(a, batch, k, CrucibleCupelled, role) && lead > 0.0 && prill > 0.0 && acid > 0.0
    case Weigh(batch, k, bead, role) => MayMeasure(a, batch, k, Parted, role) && bead >= 0.0
    case Advance(batch, stage, role) => MayAdvance(a, batch, stage, role)
    case EnterWeighed(entry, w, role) => MayEnterWeighed(a, e.ref, entry, w, role)
    case EnterRead(entry, m, role) => MayEnterRead(a, e.ref, entry, m, role)
    case Import(sample, digest, items, role) => MayImport(a, sample, items, role)
    case Correct(q, role) => MayCorrect(a, q, role)
    case Issue(q, role) => MayIssue(a, e.ref, q, role)
  }

  /** What a granted request leaves behind: the whole of the next state. */
  ghost predicate Did(a: Db, e: Event, b: Db)
    requires Granted(a, e)
  {
    match e.op
    case Receive(client, kind, received, role) =>
      b == a.(samples := a.samples + [SampleRow(client, kind, received, Received)])
    case MoveSample(sample, target, reason, role) =>
      b == a.(samples := b.samples) && OnlyStatus(a.samples, b.samples, sample, target)
    case OpenBatch(instrument, role) => b == a.(furnace := a.furnace.(batches := a.furnace.batches + [Pending]))
    case Charge(q, role) => DidCharge(a, q, b)
    case Uncharge(batch, k, role) => DidUncharge(a, k, b)
    case Part(batch, k, lead, prill, acid, role) => DidPart(a, k, lead, prill, acid, b)
    case Weigh(batch, k, bead, role) => DidWeigh(a, k, bead, b)
    case Advance(batch, stage, role) => DidAdvance(a, batch, stage, b)
    case EnterWeighed(entry, w, role) =>
      DidRecord(a, entry, b) && WeighedAs(a, e.ref, entry, w, b.results[|a.results|])
    case EnterRead(entry, m, role) => DidRecord(a, entry, b) && ReadAs(a, e.ref, entry, m, b.results[|a.results|])
    case Import(sample, digest, items, role) => DidImport(a, sample, digest, items, b)
    case Correct(q, role) => DidCorrect(a, q, b)
    case Issue(q, role) => DidIssue(a, q, b)
  }
}
