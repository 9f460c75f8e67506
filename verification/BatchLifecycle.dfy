/** The furnace batch state machine and the hand-driven crucible moves around it. */
module BatchLifecycle {
  import opened Wrappers
  import opened Lifecycle

  datatype BatchStatus = Pending | Charging | InFusion | Fused | InCupellation | Cupelled | Completed

  datatype CrucibleStatus = Empty | Charged | CrucibleFused | CrucibleCupelled | Parted | Weighed | CrucibleRejected

  function NextStage(s: BatchStatus): Option<BatchStatus> {
    match s
    case Pending => Some(Charging)
    case Charging => Some(InFusion)
    case InFusion => Some(Fused)
    case Fused => Some(InCupellation)
    case InCupellation => Some(Cupelled)
    case Cupelled => Some(Completed)
    case Completed => None
  }

  function CheckBatchTransition(source: BatchStatus, target: BatchStatus, role: Role): Result<(), LifecycleError> {
    if source == target then Err(NotAllowed)
    else if NextStage(source) != Some(target) then Err(NotAllowed)
    else Require(role in BENCH_ROLES, InsufficientRole)
  }

  /** The status the whole tray takes on when its batch reaches a stage. */
  function BulkStatus(target: BatchStatus): Option<CrucibleStatus> {
    match target
    case Fused => Some(CrucibleFused)
    case Cupelled => Some(CrucibleCupelled)
    case _ => None
  }

  function CheckCrucibleTransition(source: CrucibleStatus, target: CrucibleStatus): Result<(), LifecycleError> {
    if source == target then Err(NotAllowed)
    else
      Require((source == CrucibleCupelled && target == Parted) || (source == Parted && target == Weighed), NotAllowed)
  }

  predicate InTray(row: int, col: int, rows: int, cols: int) {
    1 <= row <= rows && 1 <= col <= cols
  }

  // ----- Order -----------------------------------------------------------------------

  function StageRank(s: BatchStatus): nat {
    match s
    case Pending => 0
    case Charging => 1
    case InFusion => 2
    case Fused => 3
    case InCupellation => 4
    case Cupelled => 5
    case Completed => 6
  }

  function CrucibleRank(s: CrucibleStatus): nat {
    match s
    case Empty => 0
    case Charged => 1
    case CrucibleFused => 2
    case CrucibleCupelled => 3
    case Parted => 4
    case Weighed => 5
    case CrucibleRejected => 6
  }

  /** No branch and no way back: a legal move is exactly one stage up. */
  lemma LegalMoveIsOneStage(source: BatchStatus, target: BatchStatus, role: Role)
    ensures CheckBatchTransition(source, target, role).Ok?
        <==> StageRank(target) == StageRank(source) + 1 && role != ClientRole
  {
  }

  /** The crucible statuses a batch's stage allows. */
  predicate StageAgrees(batch: BatchStatus, crucible: CrucibleStatus) {
    match batch
    case Pending => false
    case Charging => crucible == Charged
    case InFusion => crucible == Charged
    case Fused => crucible == CrucibleFused
    case InCupellation => crucible == CrucibleFused
    case Cupelled => crucible in {CrucibleCupelled, Parted, Weighed}
    case Completed => crucible in {CrucibleCupelled, Parted, Weighed}
  }

  /** A legal advance keeps stage and tray in agreement, and never sets a crucible back. */
  lemma BulkKeepsAgreement(source: BatchStatus, target: BatchStatus, crucible: CrucibleStatus)
    requires NextStage(source) == Some(target) && StageAgrees(source, crucible)
    ensures var after := if BulkStatus(target).Some? then BulkStatus(target).value else crucible;
      StageAgrees(target, after) && CrucibleRank(crucible) <= CrucibleRank(after)
  {
  }
}
