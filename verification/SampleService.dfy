/** Sample receipt and bare status moves. */
module SampleService {
  import opened Wrappers
  import opened Lifecycle
  import opened LabTables
  import BatchService

  function Receive(db: Db, ref: Reference, client: nat, kind: SampleType, received: Option<real>, role: Role)
    : Result<Db, Refusal>
  {
    var _ :- Require(role in BENCH_ROLES, Lifecycle(InsufficientRole));
    var _ :- Require(client < ref.clients, NotFound(TheClient));
    var _ :- Require(received.Some? ==> received.value > 0.0, Integrity);
    Ok(db.(samples := db.samples + [SampleRow(client, kind, received, Status.Received)]))
  }

  /** A bare status move: the request can only name three targets. */
  function Move(db: Db, sample: nat, target: Status, reason: Option<string>, role: Role): Result<Db, Refusal> {
    var _ :- Require(target in {InPrep, ReadyForAssay, Rejected}, BadRequest);
    var _ :- Require(sample < |db.samples|, NotFound(TheSample));
    var s := db.samples[sample];
    var _ :- BatchService.Lift(CheckTransition(s.status, target, s.kind, role, reason));
    Ok(db.(samples := SetStatus(db.samples, sample, target)))
  }
}
