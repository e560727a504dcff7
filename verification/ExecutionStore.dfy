/**
 * LearningExecutionStore and the Phase 2 driver as code that updates tables in place.
 * A Session works on its own copy of the tables until it commits. Each method is tied
 * to an effect on the tables; SerialRuns shows every effect to be a run of the protocol.
 */
module ExecutionStore {
  import opened Prelude
  import opened LearningExecution
  import opened Ledger
  import opened Protocol

  datatype StoreError = DecisionNotFound(decision: int) | UnknownRevision(revision: int)

  /**
   * The clock readings of one call: the database's transaction time, the staleness
   * check, the row updates of the claim, the completion and the fail mark.
   */
  datatype Times = Times(start: int, check: int, write: int, end: int, fail: int)

  // -------------------------------------------------------------- Effects

  /**
   * Claim the pending row, retry the stale one, skip the live one, or start at attempt 1;
   * an insert for an unknown revision violates the foreign key.
   */
  function BeginOn(db: Db, found: Option<int>, tenant: int, decision: int, revision: int, id: int, times: Times)
    : Result<(Option<int>, Table), StoreError>
    requires found.Some? ==> found.value in db.executions
  {
    match found
    case None =>
      if revision !in db.revisions then Err(UnknownRevision(revision))
      else Ok((Some(id), db.executions[id := InsertedRow(id, tenant, decision, revision, 1, None, times.start)]))
    case Some(x) =>
      var e := db.executions[x];
      if e.status == Pending then Ok((Some(x), db.executions[x := ClaimedRow(e, times.write)]))
      else if !IsStale(e, times.check) then Ok((None, db.executions))
      else if revision !in db.revisions then Err(UnknownRevision(revision))
      else
        Ok((Some(id), db.executions[x := MarkedStale(e, times.write)]
                        [id := InsertedRow(id, tenant, decision, revision, e.attempt + 1, Some(x), times.start)]))
  }

  /** Retry a stale execution, unless it recovered or another one is active. */
  function ReconcileOn(executions: Table, target: int, found: Option<int>, id: int, times: Times): (Option<int>, Table) {
    if target !in executions || !IsStale(executions[target], times.check) || (found.Some? && found.value != target)
    then (None, executions)
    else
      var e := executions[target];
      (Some(id), executions[target := MarkedStale(e, times.write)]
                           [id := InsertedRow(id, e.tenant, e.decision, e.revision, e.attempt + 1, Some(target), times.start)])
  }

  function FailOn(executions: Table, id: int, now: int, reason: string): Table {
    if id in executions then executions[id := FailedRow(executions[id], now, reason)] else executions
  }

  datatype H3Result = Skipped | Learned(id: int, persisted: nat) | Raised(id: int, reason: string) | NotBegun(reason: string)

  /**
   * What happens to one call: begin_phase2 is refused; the signals are computed or that
   * raises; fault raises at one later statement; lost raises after the commit took effect.
   */
  datatype Work = Work(refused: Option<string>, computed: Result<seq<Signal>, string>, fault: Option<(nat, string)>,
                       lost: Option<string>)

  /** The reason Phase 2 raises before its commit, if it does: at the first bad statement after the claim. */
  function RaiseOf(work: Work): Option<string> {
    match work.computed
    case Err(reason) => Some(reason)
    case Ok(signals) => RaiseFrom(signals, work.fault, 0)
  }

  /** Statements k < |signals| persist, statement |signals| completes, the next one commits. */
  function RaiseFrom(signals: seq<Signal>, fault: Option<(nat, string)>, k: nat): Option<string>
    requires k <= |signals|
    decreases |signals| - k
  {
    if fault.Some? && fault.value.0 == k then Some(fault.value.1)
    else if k < |signals| then
      if signals[k].targetType !in TARGET_TYPES then Some(INVALID_TARGET) else RaiseFrom(signals, fault, k + 1)
    else if fault.Some? && fault.value.0 == k + 1 then Some(fault.value.1)
    else None
  }

  const INVALID_TARGET := "invalid target_type"
  const FOREIGN_KEY := "foreign key violation"

  /** A whole Phase 2 run on the tables. */
  function H3Effect(hash: string -> string, db: Db, found: Option<int>, tenant: int, decision: int, revision: int,
                    id: int, times: Times, work: Work): (Db, H3Result)
    requires found.Some? ==> found.value in db.executions
  {
    if work.refused.Some? then (db, NotBegun(work.refused.value))
    else
      match BeginOn(db, found, tenant, decision, revision, id, times)
      case Err(_) => (db, NotBegun(FOREIGN_KEY))
      case Ok((None, _)) => (db, Skipped)
      case Ok((Some(e), executions)) =>
        match RaiseOf(work)
        case Some(reason) => (db.(executions := FailOn(db.executions, e, times.fail, reason)), Raised(e, reason))
        case None =>
          var after := Committed(hash, db, tenant, e, executions, times, work.computed.value);
          match work.lost
          case None => (after, Learned(e, |work.computed.value|))
          case Some(reason) => (after.(executions := FailOn(after.executions, e, times.fail, reason)), Raised(e, reason))
  }

  /** The tables after the commit of execution e with these signals. */
  function Committed(hash: string -> string, db: Db, tenant: int, e: int, executions: Table, times: Times, signals: seq<Signal>): Db
    requires e in executions
  {
    db.(executions := executions[e := CompletedRow(executions[e], times.end, |signals|)],
        ledger := PersistAll(hash, db.ledger, tenant, Some(e), times.start, signals))
  }

  // -------------------------------------------------------------- Classes

  /** An open transaction: a working copy of the tables it may write. */
  class Session {
    var executions: Table
    var ledger: seq<Row>

    constructor (executions: Table, ledger: seq<Row>)
      ensures this.executions == executions && this.ledger == ledger
    {
      this.executions := executions;
      this.ledger := ledger;
    }

    /**
     * persist_in_session: insert on conflict do nothing, or raise on a bad target type.
     * The caller gets the new row, or after a conflict a latest row of the target.
     */
    method PersistInSession(hash: string -> string, tenant: int, execution: Option<int>, now: int, s: Signal)
      returns (r: Result<Row, LedgerError>)
      modifies this
      ensures executions == old(executions)
      ensures match Persist(hash, old(ledger), tenant, execution, now, s)
              case Ok(rows) =>
                && ledger == rows && r.Ok?
                && (if HasKey(old(ledger), SignalKey(hash, tenant, s)) then Latest(ledger, tenant, s.targetType, s.targetId, r.value)
                    else r.value == NewRow(hash, tenant, execution, now, s))
              case Err(e) => r == Err(e) && ledger == old(ledger)
    {
      if s.targetType !in TARGET_TYPES {
        return Err(InvalidTargetType(s.targetType));
      }
      var row := NewRow(hash, tenant, execution, now, s);
      var i := 0;
      while i < |ledger|
        invariant i <= |ledger| && ledger == old(ledger) && executions == old(executions)
        invariant forall j :: 0 <= j < i ==> RowKey(ledger[j]) != RowKey(row)
      {
        if RowKey(ledger[i]) == RowKey(row) {
          var latest := GetLatest(tenant, s.targetType, s.targetId, i);
          return Ok(latest);
        }
        i := i + 1;
      }
      ledger := ledger + [row];
      r := Ok(row);
    }

    /** ORDER BY created_at DESC LIMIT 1 over a target that has a row, at index i say. */
    method GetLatest(tenant: int, targetType: string, targetId: int, i: nat) returns (latest: Row)
      requires i < |ledger| && SameTarget(ledger[i], tenant, targetType, targetId)
      ensures Latest(ledger, tenant, targetType, targetId, latest)
    {
      latest := ledger[i];
      for j := 0 to |ledger|
        invariant latest in ledger && SameTarget(latest, tenant, targetType, targetId) && ledger[i].createdAt <= latest.createdAt
        invariant forall k :: 0 <= k < j && SameTarget(ledger[k], tenant, targetType, targetId) ==> ledger[k].createdAt <= latest.createdAt
      {
        if SameTarget(ledger[j], tenant, targetType, targetId) && ledger[j].createdAt > latest.createdAt {
          latest := ledger[j];
        }
      }
    }

    method CompleteExecutionInSession(id: int, now: int, count: nat)
      modifies this
      ensures ledger == old(ledger)
      ensures executions == if id in old(executions) then old(executions)[id := CompletedRow(old(executions)[id], now, count)]
                            else old(executions)
    {
      if id in executions {
        executions := executions[id := executions[id].(status := Completed, completedAt := Some(now), signalCount := count)];
      }
    }
  }

  class LearningExecutionStore {
    var decisions: set<(int, int)>
    var revisions: map<int, Revision>
    var executions: Table
    var ledger: seq<Row>

    ghost function Snapshot(): Db
      reads this
    {
      Db(decisions, revisions, executions, ledger)
    }

    constructor (decisions: set<(int, int)>)
      ensures Snapshot() == EmptyState(decisions).db
    {
      this.decisions := decisions;
      revisions := map[];
      executions := map[];
      ledger := [];
    }

    /** Phase 1: insert the revision, then update the decision; a missing decision rolls both back. */
    method SubmitOutcomesWithRevision(id: int, tenant: int, decision: int) returns (r: Result<int, StoreError>)
      requires id !in revisions
      modifies this
      ensures r == if (tenant, decision) in old(decisions) then Ok(id) else Err(DecisionNotFound(decision))
      ensures decisions == old(decisions) && executions == old(executions) && ledger == old(ledger)
      ensures revisions == if r.Ok? then old(revisions)[id := Revision(tenant, decision)] else old(revisions)
    {
      var before := revisions;
      revisions := revisions[id := Revision(tenant, decision)];
      if (tenant, decision) !in decisions {
        revisions := before;
        return Err(DecisionNotFound(decision));
      }
      r := Ok(id);
    }

    /** The active row of highest attempt for a revision. */
    method FindActiveExecution(revision: int) returns (found: Option<int>)
      ensures Finds(executions, revision, found)
    {
      found := None;
      var todo: set<int> := executions.Keys;
      while todo != {}
        invariant todo <= executions.Keys
        invariant found.Some? ==> found.value in executions && IsActiveOf(executions[found.value], revision)
        invariant forall id :: id in executions && id !in todo && IsActiveOf(executions[id], revision)
                    ==> found.Some? && executions[id].attempt <= executions[found.value].attempt
        decreases |todo|
      {
        var id := Pick(todo);
        var e := executions[id];
        if IsActiveOf(e, revision) && (found == None || executions[found.value].attempt < e.attempt) {
          found := Some(id);
        }
        todo := todo - {id};
      }
    }

    /** Claim or create an execution in a session of its own; nothing is committed yet. */
    method BeginPhase2(tenant: int, decision: int, revision: int, id: int, times: Times)
      returns (execution: Result<Option<int>, StoreError>, session: Session, ghost found: Option<int>)
      requires id !in executions
      ensures fresh(session) && session.ledger == ledger
      ensures Finds(executions, revision, found)
      ensures match BeginOn(Snapshot(), found, tenant, decision, revision, id, times)
              case Err(e) => execution == Err(e)
              case Ok((claimed, rows)) => execution == Ok(claimed) && session.executions == rows
    {
      session := new Session(executions, ledger);
      var existing := FindActiveExecution(revision);
      found := existing;
      var attempt, parent := 1, None;
      if existing.Some? {
        var x := existing.value;
        var e := session.executions[x];
        if e.status == Running {
          if !IsStale(e, times.check) {
            return Ok(None), session, found;
          }
          session.executions := session.executions[x := e.(status := Stale, completedAt := Some(times.write))];
          attempt, parent := e.attempt + 1, Some(x);
        } else {
          session.executions := session.executions[x := e.(status := Running, startedAt := Some(times.write), heartbeatAt := Some(times.write))];
          return Ok(existing), session, found;
        }
      }
      if revision !in revisions {
        return Err(UnknownRevision(revision)), session, found;
      }
      session.executions := session.executions[id := InsertedRow(id, tenant, decision, revision, attempt, parent, times.start)];
      execution := Ok(Some(id));
    }

    /** The same claim, committed at once for a worker that finishes lock-free. */
    method BeginExecution(tenant: int, decision: int, revision: int, id: int, times: Times)
      returns (execution: Result<Option<int>, StoreError>, ghost found: Option<int>)
      requires id !in executions
      modifies this
      ensures Finds(old(executions), revision, found)
      ensures match BeginOn(old(Snapshot()), found, tenant, decision, revision, id, times)
              case Err(e) => execution == Err(e) && executions == old(executions)
              case Ok((claimed, rows)) => execution == Ok(claimed) && executions == rows
      ensures decisions == old(decisions) && revisions == old(revisions) && ledger == old(ledger)
    {
      var session;
      execution, session, found := BeginPhase2(tenant, decision, revision, id, times);
      if execution.Ok? {
        executions := session.executions;
      }
    }

    method CompleteExecution(id: int, now: int, count: nat)
      modifies this
      ensures decisions == old(decisions) && revisions == old(revisions) && ledger == old(ledger)
      ensures executions == if id in old(executions) then old(executions)[id := CompletedRow(old(executions)[id], now, count)]
                            else old(executions)
    {
      if id in executions {
        executions := executions[id := executions[id].(status := Completed, completedAt := Some(now), signalCount := count)];
      }
    }

    method FailExecution(id: int, now: int, reason: string)
      modifies this
      ensures decisions == old(decisions) && revisions == old(revisions) && ledger == old(ledger)
      ensures executions == FailOn(old(executions), id, now, reason)
    {
      if id in executions {
        executions := executions[id := executions[id].(status := Failed, completedAt := Some(now), failureReason := Some(reason))];
      }
    }

    method UpdateHeartbeat(id: int, now: int)
      modifies this
      ensures decisions == old(decisions) && revisions == old(revisions) && ledger == old(ledger)
      ensures executions == if id in old(executions) then old(executions)[id := HeartbeatRow(old(executions)[id], now)]
                            else old(executions)
    {
      if id in executions && executions[id].status == Running {
        executions := executions[id := executions[id].(heartbeatAt := Some(now))];
      } else if id in executions {
        assert executions[id := executions[id]] == executions;
      }
    }

    method ReconcileStaleExecution(target: int, id: int, times: Times) returns (execution: Option<int>, ghost found: Option<int>)
      requires id !in executions
      modifies this
      ensures decisions == old(decisions) && revisions == old(revisions) && ledger == old(ledger)
      ensures target in old(executions) ==> Finds(old(executions), old(executions)[target].revision, found)
      ensures (execution, executions) == ReconcileOn(old(executions), target, found, id, times)
    {
      if target !in executions {
        return None, None;
      }
      var current := executions[target];
      var active := FindActiveExecution(current.revision);
      found := active;
      if !IsStale(current, times.check) {
        return None, found;
      }
      if active.Some? && active.value != target {
        return None, found;
      }
      executions := executions[target := current.(status := Stale, completedAt := Some(times.write))];
      executions := executions[id := InsertedRow(id, current.tenant, current.decision, current.revision,
                                                 current.attempt + 1, Some(target), times.start)];
      execution := Some(id);
    }

    /**
     * run_h3_learning_loop_for_decision: claim, persist every signal, complete and
     * commit in one session; on an exception roll back and mark the execution failed. An
     * exception of the claim itself escapes, with nothing committed.
     */
    method RunH3LearningLoop(hash: string -> string, tenant: int, decision: int, revision: int, id: int, times: Times, work: Work)
      returns (result: H3Result, ghost found: Option<int>)
      requires id !in executions
      modifies this
      ensures Finds(old(executions), revision, found)
      ensures (Snapshot(), result) == H3Effect(hash, old(Snapshot()), found, tenant, decision, revision, id, times, work)
    {
      var execution, session;
      execution, session, found := BeginPhase2(tenant, decision, revision, id, times);
      if work.refused.Some? {
        return NotBegun(work.refused.value), found;
      }
      if execution.Err? {
        return NotBegun(FOREIGN_KEY), found;
      }
      if execution.value == None {
        return Skipped, found;
      }
      var e := execution.value.value;
      var raised := RunWork(session, hash, tenant, e, times, work);
      if raised == None {
        executions, ledger := session.executions, session.ledger;
        raised := work.lost;
      }
      if raised.Some? {
        FailExecution(e, times.fail, raised.value);
        return Raised(e, raised.value), found;
      }
      result := Learned(e, |work.computed.value|);
    }

    /** The try block: persist, complete; the exception it raises, if any. */
    method RunWork(session: Session, hash: string -> string, tenant: int, e: int, times: Times, work: Work)
      returns (raised: Option<string>)
      requires e in session.executions
      modifies session
      ensures raised == RaiseOf(work)
      ensures raised == None ==>
                && session.ledger == PersistAll(hash, old(session.ledger), tenant, Some(e), times.start, work.computed.value)
                && session.executions == old(session.executions)[e := CompletedRow(old(session.executions)[e], times.end, |work.computed.value|)]
    {
      if work.computed.Err? {
        return Some(work.computed.error);
      }
      var signals := work.computed.value;
      var persisted := 0;
      while persisted < |signals|
        invariant persisted <= |signals|
        invariant RaiseFrom(signals, work.fault, 0) == RaiseFrom(signals, work.fault, persisted)
        invariant session.ledger == PersistAll(hash, old(session.ledger), tenant, Some(e), times.start, signals[..persisted])
        invariant session.executions == old(session.executions)
      {
        if work.fault.Some? && work.fault.value.0 == persisted {
          return Some(work.fault.value.1);
        }
        var r := session.PersistInSession(hash, tenant, Some(e), times.start, signals[persisted]);
        if r.Err? {
          return Some(INVALID_TARGET);
        }
        assert signals[..persisted + 1][..persisted] == signals[..persisted];
        persisted := persisted + 1;
      }
      assert signals[..persisted] == signals;
      if work.fault.Some? && work.fault.value.0 == persisted {
        return Some(work.fault.value.1);
      }
      session.CompleteExecutionInSession(e, times.end, persisted);
      if work.fault.Some? && work.fault.value.0 == persisted + 1 {
        return Some(work.fault.value.1);
      }
      raised := None;
    }
  }
}
