/**
 * The learning execution life cycle of libs/learning/learning_execution.py and the
 * row updates of libs/learning/learning_execution_store.py. Times are in seconds.
 */
module LearningExecution {
  import opened Prelude

  const STALE_THRESHOLD_SECONDS := 300

  datatype Status = Pending | Running | Completed | Failed | Stale

  predicate Terminal(s: Status) {
    s == Completed || s == Failed || s == Stale
  }

  predicate Active(s: Status) {
    s == Pending || s == Running
  }

  /** VALID_TRANSITIONS. */
  function NextStatuses(s: Status): set<Status> {
    match s
    case Pending => {Running}
    case Running => {Completed, Failed, Stale}
    case _ => {}
  }

  datatype Execution = Execution(
    id: int, tenant: int, decision: int, revision: int,
    status: Status, attempt: int, parent: Option<int>,
    startedAt: Option<int>, completedAt: Option<int>, heartbeatAt: Option<int>,
    signalCount: nat, failureReason: Option<string>)

  /** The execution table, keyed by id. */
  type Table = map<int, Execution>

  datatype TransitionError = InvalidTransition

  /** transition_status: a copy with the new status and its timestamps. */
  function TransitionStatus(e: Execution, s: Status, now: int): Result<Execution, TransitionError> {
    if s !in NextStatuses(e.status) then Err(InvalidTransition)
    else if s == Running then Ok(e.(status := s, startedAt := Some(now), heartbeatAt := Some(now)))
    else Ok(e.(status := s, completedAt := Some(now)))
  }

  /** Running with no heartbeat, or with one more than the threshold ago. */
  predicate IsStale(e: Execution, now: int) {
    e.status == Running
    && (e.heartbeatAt == None || now - e.heartbeatAt.value > STALE_THRESHOLD_SECONDS)
  }

  /** The columns fixed at insertion. */
  predicate SameIdentity(e: Execution, f: Execution) {
    e.id == f.id && e.tenant == f.tenant && e.decision == f.decision && e.revision == f.revision
    && e.attempt == f.attempt && e.parent == f.parent
  }

  function Walk(e: Execution, steps: seq<(Status, int)>): Result<Execution, TransitionError>
    decreases |steps|
  {
    if steps == [] then Ok(e)
    else
      match TransitionStatus(e, steps[0].0, steps[0].1)
      case Err(x) => Err(x)
      case Ok(f) => Walk(f, steps[1..])
  }

  function StepsLeft(s: Status): nat {
    if s == Pending then 2 else if s == Running then 1 else 0
  }

  /**
   * The abstract machine terminates: a walk changes only life-cycle columns, takes at
   * most two transitions, and a completed walk of two ends in a terminal status.
   */
  lemma {:induction false} WalksAreShort(e: Execution, steps: seq<(Status, int)>)
    requires Walk(e, steps).Ok?
    ensures SameIdentity(e, Walk(e, steps).value)
    ensures |steps| + StepsLeft(Walk(e, steps).value.status) == StepsLeft(e.status)
    decreases |steps|
  {
    if steps != [] {
      var f := TransitionStatus(e, steps[0].0, steps[0].1).value;
      WalksAreShort(f, steps[1..]);
    }
  }

  function Coalesce<T>(a: Option<T>, b: Option<T>): Option<T> {
    if a.Some? then a else b
  }

  /** _UPDATE_EXECUTION_STATUS: by id, with no guard on the current status. */
  function UpdateStatus(e: Execution, s: Status, startedAt: Option<int>, completedAt: Option<int>,
                        heartbeatAt: Option<int>, signalCount: Option<nat>, failureReason: Option<string>): Execution
  {
    e.(status := s,
       startedAt := Coalesce(startedAt, e.startedAt),
       completedAt := Coalesce(completedAt, e.completedAt),
       heartbeatAt := Coalesce(heartbeatAt, e.heartbeatAt),
       signalCount := (match signalCount case Some(n) => n case None => e.signalCount),
       failureReason := Coalesce(failureReason, e.failureReason))
  }

  function MarkedStale(e: Execution, now: int): Execution {
    UpdateStatus(e, Stale, None, Some(now), None, None, None)
  }

  function ClaimedRow(e: Execution, now: int): Execution {
    UpdateStatus(e, Running, Some(now), None, Some(now), None, None)
  }

  function CompletedRow(e: Execution, now: int, count: nat): Execution {
    UpdateStatus(e, Completed, None, Some(now), None, Some(count), None)
  }

  function FailedRow(e: Execution, now: int, reason: string): Execution {
    UpdateStatus(e, Failed, None, Some(now), None, None, Some(reason))
  }

  /** _UPDATE_HEARTBEAT: only while running. */
  function HeartbeatRow(e: Execution, now: int): Execution {
    if e.status == Running then e.(heartbeatAt := Some(now)) else e
  }

  /** _INSERT_EXECUTION with status 'running'. */
  function InsertedRow(id: int, tenant: int, decision: int, revision: int, attempt: int, parent: Option<int>, now: int)
    : Execution
  {
    Execution(id, tenant, decision, revision, Running, attempt, parent, None, None, Some(now), 0, None)
  }
}
