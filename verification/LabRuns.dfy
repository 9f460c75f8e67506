/** Runs of the bench services: any requests, granted or refused, in any order, from empty tables. */
module LabRuns {
  import opened Wrappers
  import opened Lifecycle
  import opened BatchLifecycle
  import opened Chains
  import opened LabTables
  import F = Furnace
  import H = FurnaceHistory
  import opened LabInvariant
  import opened LabSteps
  import opened ResultSteps
  import opened CertificateSteps
  import B = BatchService
  import R = ResultService
  import E = ReadingService
  import C = CertificateService
  import U = SampleService

  datatype Op =
    | Receive(client: nat, kind: SampleType, received: Option<real>, role: Role)
    | MoveSample(sample: nat, target: Status, reason: Option<string>, role: Role)
    | OpenBatch(instrument: Option<nat>, role: Role)
    | Charge(charge: B.ChargeRequest, role: Role)
    | Uncharge(batch: nat, crucible: nat, role: Role)
    | Part(batch: nat, crucible: nat, lead: real, prill: real, acid: real, role: Role)
    | Weigh(batch: nat, crucible: nat, bead: real, role: Role)
    | Advance(batch: nat, stage: BatchStatus, role: Role)
    | EnterWeighed(entry: R.Entry, weighed: R.Weighed, role: Role)
    | EnterRead(entry: R.Entry, read: R.Read, role: Role)
    | Import(sample: nat, digest: Digest, items: seq<E.Item>, role: Role)
    | Correct(correction: E.Correction, role: Role)
    | Issue(certificate: C.Request, role: Role)

  /** A request, and the reference data it meets. */
  datatype Event = Event(ref: Reference, op: Op)

  function Apply(db: Db, e: Event): Result<Db, Refusal> {
    match e.op
    case Receive(client, kind, received, role) => U.Receive(db, e.ref, client, kind, received, role)
    case MoveSample(sample, target, reason, role) => U.Move(db, sample, target, reason, role)
    case OpenBatch(instrument, role) => B.CreateBatch(db, e.ref, instrument, role)
    case Charge(charge, role) => B.Charge(db, e.ref, charge, role)
    case Uncharge(batch, crucible, role) => B.Uncharge(db, batch, crucible, role)
    case Part(batch, crucible, lead, prill, acid, role) => B.RecordParting(db, batch, crucible, lead, prill, acid, role)
    case Weigh(batch, crucible, bead, role) => B.RecordWeighing(db, batch, crucible, bead, role)
    case Advance(batch, stage, role) => B.AdvanceBatch(db, batch, stage, role)
    case EnterWeighed(entry, weighed, role) => R.EnterWeighed(db, e.ref, entry, weighed, role)
    case EnterRead(entry, read, role) => R.EnterRead(db, e.ref, entry, read, role)
    case Import(sample, digest, items, role) => E.Import(db, sample, digest, items, role)
    case Correct(correction, role) => E.Correct(db, correction, role)
    case Issue(certificate, role) => C.Issue(db, e.ref, certificate, role)
  }

  /** A refused request is rolled back whole. */
  function After(db: Db, e: Event): Db {
    if Apply(db, e).Ok? then Apply(db, e).value else db
  }

  function Run(db: Db, events: seq<Event>): Db {
    if events == [] then db
    else After(Run(db, events[..|events| - 1]), events[|events| - 1])
  }

  // ----- One step ------------------------------------------------------------------------------

  lemma ReceiveStep(a: Db, ref: Reference, client: nat, kind: SampleType, received: Option<real>, role: Role)
    requires Inv(a) && U.Receive(a, ref, client, kind, received, role).Ok?
    ensures var b := U.Receive(a, ref, client, kind, received, role).value;
      Inv(b) && Later(a, b) && StatusesMove(a.samples, b.samples)
  {
    var b := U.Receive(a, ref, client, kind, received, role).value;
    assert SamplesLater(a.samples, b.samples);
    ReadingsSoundStay(a.readings, |a.samples|, |b.samples|);
    CertificatesStay(a, b);
    PaperStep(a, b);
  }

  lemma MoveStep(a: Db, sample: nat, target: Status, reason: Option<string>, role: Role)
    requires Inv(a) && U.Move(a, sample, target, reason, role).Ok?
    ensures var b := U.Move(a, sample, target, reason, role).value;
      Inv(b) && Later(a, b) && StatusesMove(a.samples, b.samples)
  {
    var b := U.Move(a, sample, target, reason, role).value;
    AllowedIsMove(a.samples[sample].status, target, a.samples[sample].kind, role, reason);
    SetStatusMoves(a.samples, sample, target);
    CertificatesStay(a, b);
    PaperStep(a, b);
  }

  /** What one granted request guarantees. */
  ghost predicate StepOk(a: Db, b: Db) {
    Inv(b) && Later(a, b) && StatusesMove(a.samples, b.samples)
  }

  predicate IsFurnaceOp(op: Op) {
    op.OpenBatch? || op.Charge? || op.Uncharge? || op.Part? || op.Weigh? || op.Advance?
  }

  lemma FurnaceOpStep(a: Db, e: Event)
    requires Inv(a) && Apply(a, e).Ok? && IsFurnaceOp(e.op)
    ensures StepOk(a, Apply(a, e).value)
  {
    match e.op {
      case OpenBatch(instrument, role) => CreateBatchStep(a, e.ref, instrument, role);
      case Charge(charge, role) => ChargeStep(a, e.ref, charge, role);
      case Uncharge(batch, crucible, role) => UnchargeStep(a, batch, crucible, role);
      case Part(batch, crucible, lead, prill, acid, role) => PartingStep(a, batch, crucible, lead, prill, acid, role);
      case Weigh(batch, crucible, bead, role) => WeighingStep(a, batch, crucible, bead, role);
      case Advance(batch, stage, role) => AdvanceStep(a, batch, stage, role);
    }
  }

  lemma PaperOpStep(a: Db, e: Event)
    requires Inv(a) && Apply(a, e).Ok? && !IsFurnaceOp(e.op)
    ensures StepOk(a, Apply(a, e).value)
  {
    match e.op {
      case Receive(client, kind, received, role) => ReceiveStep(a, e.ref, client, kind, received, role);
      case MoveSample(sample, target, reason, role) => MoveStep(a, sample, target, reason, role);
      case EnterWeighed(entry, weighed, role) => EnterWeighedStep(a, e.ref, entry, weighed, role);
      case EnterRead(entry, read, role) => EnterReadStep(a, e.ref, entry, read, role);
      case Import(sample, digest, items, role) => ImportStep(a, sample, digest, items, role);
      case Correct(correction, role) => CorrectStep(a, correction, role);
      case Issue(certificate, role) => IssueStep(a, e.ref, certificate, role);
    }
  }

  /** Every request keeps the invariant, leads to a later state and moves each status by a legal move. */
  lemma EveryStep(a: Db, e: Event)
    requires Inv(a)
    ensures StepOk(a, After(a, e))
  {
    if Apply(a, e).Err? {
      H.FollowsRefl(a.furnace);
    } else if IsFurnaceOp(e.op) {
      FurnaceOpStep(a, e);
    } else {
      PaperOpStep(a, e);
    }
  }

  // ----- Runs ------------------------------------------------------------------------------------

  lemma EmptyInv()
    ensures Inv(EMPTY)
  {
  }

  /** The invariant holds in every reachable state. */
  lemma {:induction false} EveryRunKeepsInv(events: seq<Event>)
    ensures Inv(Run(EMPTY, events))
  {
    if events == [] {
      EmptyInv();
    } else {
      EveryRunKeepsInv(events[..|events| - 1]);
      EveryStep(Run(EMPTY, events[..|events| - 1]), events[|events| - 1]);
    }
  }

  lemma {:induction false} RunStep(db: Db, events: seq<Event>, more: seq<Event>)
    ensures Run(db, events + more) == Run(Run(db, events), more)
    decreases |more|
  {
    if more == [] {
      assert events + more == events;
    } else {
      var n := |more| - 1;
      RunStep(db, events, more[..n]);
      assert (events + more)[..|events + more| - 1] == events + more[..n];
    }
  }

  /** Whatever happens next, the state afterwards is a later one. */
  lemma {:induction false} RunIsLater(a: Db, events: seq<Event>)
    requires Inv(a)
    ensures Inv(Run(a, events)) && Later(a, Run(a, events))
  {
    if events == [] {
      H.FollowsRefl(a.furnace);
    } else {
      var n := |events| - 1;
      RunIsLater(a, events[..n]);
      EveryStep(Run(a, events[..n]), events[n]);
      LaterTrans(a, Run(a, events[..n]), Run(a, events));
    }
  }
}
