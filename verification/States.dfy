/** The archive state graph (src/mnema/domain/states.py). */
module States {
  type PathIndex = k: int | 0 <= k < 20 witness 0

  /** A state is its index on the linear path of the graph, or one of the states off it. */
  datatype ArchiveState =
    | OnPath(index: PathIndex)
    | Ineligible
    | RestoreRequested
    | Restoring
    | Restored
    | SourceChanged
    | FailedRetryable
    | ManualReview
    | TestCleaned

  const DISCOVERED := OnPath(0)
  const ELIGIBLE := OnPath(1)
  const QUEUED := OnPath(2)
  const DOWNLOADING := OnPath(3)
  const LOCAL_STAGED := OnPath(4)
  const LOCAL_VERIFIED := OnPath(5)
  const LOCAL_COMMITTED := OnPath(6)
  const LOCAL_BACKUP_PENDING := OnPath(7)
  const LOCAL_BACKUP_VERIFIED := OnPath(8)
  const COLD_UPLOAD_PENDING := OnPath(9)
  const COLD_UPLOADED := OnPath(10)
  const COLD_VERIFIED := OnPath(11)
  const COLD_ARCHIVE_PENDING := OnPath(12)
  const COLD_ARCHIVED := OnPath(13)
  const QUARANTINED := OnPath(14)
  const READY_FOR_REVALIDATION := OnPath(15)
  const READY_FOR_DELETION := OnPath(16)
  const DELETING := OnPath(17)
  const DELETED_FROM_SOURCE := OnPath(18)
  const ARCHIVED := OnPath(19)

  /** Position on the linear path, -1 off it. */
  function Position(s: ArchiveState): int {
    if s.OnPath? then s.index else -1
  }

  /** The table: linear successors, with the explicit entries overriding them. */
  predicate TableAllows(current: ArchiveState, target: ArchiveState) {
    match current
    case OnPath(k) =>
      if k == 0 then target == ELIGIBLE || target.Ineligible?
      else if k == 4 then target == LOCAL_VERIFIED || target.TestCleaned?
      else if k == 19 then target.RestoreRequested?
      else target == OnPath(k + 1)
    case Ineligible => target == ELIGIBLE || target.Ineligible?
    case RestoreRequested => target.Restoring?
    case Restoring => target.Restored? || target.FailedRetryable?
    case Restored => target == ARCHIVED
    case SourceChanged => target == QUEUED
    case FailedRetryable => target == QUEUED || target.ManualReview?
    case ManualReview => target == QUEUED
    case TestCleaned => false
  }

  predicate FailureTarget(s: ArchiveState) {
    s.FailedRetryable? || s.ManualReview? || s.SourceChanged?
  }

  predicate ValidTransition(current: ArchiveState, target: ArchiveState) {
    target == current || TableAllows(current, target) || FailureTarget(target)
  }

  /** Between DOWNLOADING and DELETED_FROM_SOURCE a state has exactly one way in. */
  lemma OnlyPredecessor(current: ArchiveState, target: ArchiveState)
    requires 3 <= Position(target) <= 18
    ensures ValidTransition(current, target) <==>
            current == target || Position(current) == Position(target) - 1
  {
  }

  /** The graph read backwards: for every state, the states that lead into it. */
  lemma WaysIn(current: ArchiveState, target: ArchiveState)
    requires current != target
    ensures ValidTransition(current, target) <==>
            match target
            case FailedRetryable => true
            case ManualReview => true
            case SourceChanged => true
            case Ineligible => current == DISCOVERED
            case RestoreRequested => current == ARCHIVED
            case Restoring => current.RestoreRequested?
            case Restored => current.Restoring?
            case TestCleaned => current == LOCAL_STAGED
            case OnPath(k) =>
              if target == DISCOVERED then false
              else if target == ELIGIBLE then current == DISCOVERED || current.Ineligible?
              else if target == QUEUED then
                current == ELIGIBLE || current.SourceChanged? || current.FailedRetryable? || current.ManualReview?
              else if target == ARCHIVED then current == DELETED_FROM_SOURCE || current.Restored?
              else current == OnPath(k - 1)
  {
  }
}
