/** Every status a sample has was reached by the act, and the authority, that makes it true. */
module LabAuthority {
  import opened Wrappers
  import opened Lifecycle
  import opened LabTables
  import F = Furnace
  import opened LabInvariant
  import opened LabSteps
  import opened ResultSteps
  import opened LabRuns
  import opened LabTheorems
  import B = BatchService
  import R = ResultService
  import E = ReadingService
  import C = CertificateService
  import U = SampleService

  /** The one act that may bring sample i from status s to status t. */
  predicate Warranted(op: Op, i: nat, s: Status, t: Status) {
    match t
    case Received => false
    case InPrep => op.MoveSample? && op.sample == i && op.role != ClientRole
    case ReadyForAssay =>
      if s == InAssay then op.Uncharge? && op.role != ClientRole
      else
        op.MoveSample? && op.sample == i && op.role != ClientRole
        && (s == Assayed ==> op.role in {Supervisor, LabManager} && StatesReason(op.reason))
    case InAssay =>
      op.Charge? && op.charge.sample == Some(i) && op.charge.insertion.None? && op.role != ClientRole
    case Assayed =>
      (if op.Import? then op.sample == i else (op.EnterWeighed? || op.EnterRead?) && op.entry.sample == i)
      && op.role in {Analyst, Supervisor, LabManager}
    case Reported => op.Issue? && i in op.certificate.samples && op.role == LabManager
    case Rejected => op.MoveSample? && op.sample == i && op.role in {Supervisor, LabManager} && StatesReason(op.reason)
  }

  /** The listed transitions a bare move can use need bench staff, and a re-assay a supervisor with a reason. */
  lemma MoveAuthority(s: Status, t: Status, kind: SampleType, role: Role, reason: Option<string>)
    requires CheckTransition(s, t, kind, role, reason).Ok? && t in {InPrep, ReadyForAssay, Rejected}
    ensures s != InAssay || t == Rejected
    ensures role != ClientRole
    ensures t == Rejected ==> role in {Supervisor, LabManager} && StatesReason(reason)
    ensures s == Assayed && t == ReadyForAssay ==> role in {Supervisor, LabManager} && StatesReason(reason)
  {
    MenuIsDecision(s, t, kind, role, reason);
    OfferedIsListed(s, t, kind);
    if t != Rejected {
      FindSomeIff(0, s, t, kind);
      FoundNeeds(s, t, Find(0, s, t, kind).value);
    }
  }

  lemma FoundNeeds(s: Status, t: Status, found: Transition)
    requires found in TRANSITIONS && found.source == s
    ensures ClientRole !in found.roles
    ensures s == Assayed && found.target == ReadyForAssay ==>
      found.roles == {Supervisor, LabManager} && found.needsReason
  {
  }

  lemma MoveWarranted(a: Db, sample: nat, target: Status, reason: Option<string>, role: Role, i: nat)
    requires i < |a.samples| && U.Move(a, sample, target, reason, role).Ok?
    ensures var b := U.Move(a, sample, target, reason, role).value;
      |b.samples| == |a.samples| && (b.samples[i].status != a.samples[i].status ==>
        Warranted(MoveSample(sample, target, reason, role), i, a.samples[i].status, b.samples[i].status))
  {
    MoveAuthority(a.samples[sample].status, target, a.samples[sample].kind, role, reason);
  }

  lemma ChargeWarranted(a: Db, ref: Reference, q: B.ChargeRequest, role: Role, i: nat)
    requires Inv(a) && i < |a.samples| && B.Charge(a, ref, q, role).Ok?
    ensures var b := B.Charge(a, ref, q, role).value;
      |b.samples| == |a.samples| && (b.samples[i].status != a.samples[i].status ==>
        Warranted(Op.Charge(q, role), i, a.samples[i].status, b.samples[i].status))
  {
    ChargeGranted(a, ref, q, role);
  }

  lemma UnchargeWarranted(a: Db, batch: nat, k: nat, role: Role, i: nat)
    requires i < |a.samples| && B.Uncharge(a, batch, k, role).Ok?
    ensures var b := B.Uncharge(a, batch, k, role).value;
      |b.samples| == |a.samples| && (b.samples[i].status != a.samples[i].status ==>
        Warranted(Op.Uncharge(batch, k, role), i, a.samples[i].status, b.samples[i].status))
  {
  }

  lemma EntryWarranted(a: Db, e: Event, i: nat)
    requires i < |a.samples| && Apply(a, e).Ok? && (e.op.EnterWeighed? || e.op.EnterRead?)
    ensures var b := Apply(a, e).value;
      |b.samples| == |a.samples| && (b.samples[i].status != a.samples[i].status ==>
        Warranted(e.op, i, a.samples[i].status, b.samples[i].status))
  {
    if e.op.EnterWeighed? {
      WeighedGranted(a, e.ref, e.op.entry, e.op.weighed, e.op.role);
    } else {
      ReadGranted(a, e.ref, e.op.entry, e.op.read, e.op.role);
    }
  }

  lemma ImportWarranted(a: Db, sample: nat, digest: Digest, items: seq<E.Item>, role: Role, i: nat)
    requires i < |a.samples| && E.Import(a, sample, digest, items, role).Ok?
    ensures var b := E.Import(a, sample, digest, items, role).value;
      |b.samples| == |a.samples| && (b.samples[i].status != a.samples[i].status ==>
        Warranted(Op.Import(sample, digest, items, role), i, a.samples[i].status, b.samples[i].status))
  {
  }

  predicate TouchesNoStatus(op: Op) {
    op.OpenBatch? || op.Part? || op.Weigh? || op.Advance? || op.Correct?
  }

  lemma QuietOps(a: Db, e: Event)
    requires TouchesNoStatus(e.op)
    ensures After(a, e).samples == a.samples
  {
    if e.op.Correct? {
      CorrectMovesNothing(a, e);
    }
  }

  lemma CorrectMovesNothing(a: Db, e: Event)
    requires e.op.Correct?
    ensures After(a, e).samples == a.samples
  {
  }

  /**
   No status ever changes without its warrant: charging puts a sample in assay, a result
   makes it assayed, a signed certificate reports it, and rejecting or re-assaying it takes
   a supervisor and a reason.
   */
  lemma EveryStatusIsWarranted(a: Db, e: Event, i: nat)
    requires Inv(a) && i < |a.samples|
    ensures i < |After(a, e).samples|
    ensures After(a, e).samples[i].status != a.samples[i].status ==>
      Warranted(e.op, i, a.samples[i].status, After(a, e).samples[i].status)
  {
    if TouchesNoStatus(e.op) {
      QuietOps(a, e);
    } else if Apply(a, e).Ok? {
      match e.op {
        case Receive(client, kind, received, role) =>
        case MoveSample(sample, target, reason, role) => MoveWarranted(a, sample, target, reason, role, i);
        case Charge(charge, role) => ChargeWarranted(a, e.ref, charge, role, i);
        case Uncharge(batch, crucible, role) => UnchargeWarranted(a, batch, crucible, role, i);
        case Import(sample, digest, items, role) => ImportWarranted(a, sample, digest, items, role, i);
        case Issue(certificate, role) => IssueReportsOnlyAssayed(a, e, i);
        case _ => EntryWarranted(a, e, i);
      }
    }
  }

  /** A client sees statuses but never sets anything. */
  lemma ClientsChangeNothing(a: Db, e: Event)
    requires e.op.role == ClientRole
    ensures After(a, e) == a
  {
    if e.op.Advance? && e.op.batch < |a.furnace.batches| {
      assert B.AdvanceBatch(a, e.op.batch, e.op.stage, ClientRole).Err?;
    } else if e.op.MoveSample? && e.op.sample < |a.samples| && Apply(a, e).Ok? {
      var s := a.samples[e.op.sample];
      MoveAuthority(s.status, e.op.target, s.kind, ClientRole, e.op.reason);
    }
  }
}
