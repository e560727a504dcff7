/**
 * The durable learning protocol (H3) as a step system: Phase 1 submissions, and
 * transactions of begin_phase2, begin_execution and reconcile_stale_execution that run
 * interleaved, statement by statement, with private writes until commit. Heartbeats
 * and the complete and fail updates by id, whatever execution they name, are atomic
 * steps of their own. A commit may take effect although its caller sees it fail.
 *
 * The unique index on active executions is deliberately not part of the steps: that
 * it can never fire is what is proved.
 */
module Protocol {
  import opened Prelude
  import opened LearningExecution
  import opened Ledger

  /** hash is the ledger's signal hash, lockOf the hashed advisory lock key; both are arbitrary. */
  datatype Config = Config(hash: string -> string, lockOf: (int, int) -> int)

  datatype Revision = Revision(tenant: int, decision: int)

  datatype Db = Db(decisions: set<(int, int)>, revisions: map<int, Revision>,
                   executions: Table, ledger: seq<Row>)

  datatype Kind = Phase2 | Begin | Reconcile

  datatype Stage =
    | Locked                                    // a begin holds the lock and has read nothing
    | LockedFor(target: int)                    // a reconciliation holds the lock
    | Rechecked(target: int)                    // the target was re-read and is stale
    | FoundNone                                 // no active execution: attempt 1 comes next
    | FoundPending(prev: int)                    // claim it next
    | FoundStale(prev: int, attempt: int)        // mark it stale next
    | Marked(prev: int, attempt: int)            // insert the retry next
    | Claimed(id: int)                          // an execution is running, privately
    | Persisting(id: int, todo: seq<Signal>, done: nat)
    | Finished(id: int)                         // marked completed, privately

  datatype Session = Session(kind: Kind, key: int, tenant: int, decision: int, revision: int, start: int,
                             stage: Stage, writes: Table, rows: seq<Row>)

  /** marks: failed Phase 2 runs whose fail mark is due. handles: executions handed to lock-free workers. */
  datatype State = State(db: Db, sessions: map<int, Session>, marks: set<int>, handles: set<int>)

  datatype Step =
    | Submit(revision: int, tenant: int, decision: int)
    | Acquire(w: int, kind: Kind, tenant: int, decision: int, revision: int, target: int, now: int)
    | Find(w: int, found: Option<int>, now: int)
    | Recheck(w: int, now: int)
    | MarkStale(w: int, now: int)
    | Claim(w: int, now: int)
    | Insert(w: int, id: int, now: int)
    | Compute(w: int, signals: seq<Signal>)
    | PersistNext(w: int)
    | Complete(w: int, now: int)
    | Commit(w: int)
    | CommitLost(w: int)
    | Abort(w: int, raised: bool)
    | FailMark(id: int, now: int, reason: string)
    | LateComplete(id: int, now: int, count: nat)
    | LateFail(id: int, now: int, reason: string)
    | Heartbeat(id: int, now: int)

  // ------------------------------------------------------------- Enabling

  /** No open transaction holds the row lock of an execution, apart from w's own. */
  predicate Unlocked(s: State, id: int, w: int) {
    forall v :: v in s.sessions && v != w ==> id !in s.sessions[v].writes
  }

  predicate AllUnlocked(s: State, id: int) {
    forall v :: v in s.sessions ==> id !in s.sessions[v].writes
  }

  predicate IsActiveOf(e: Execution, revision: int) {
    e.revision == revision && Active(e.status)
  }

  /** The answer of _FIND_ACTIVE_EXECUTION: an active row of highest attempt, or none. */
  predicate Finds(executions: Table, revision: int, found: Option<int>) {
    match found
    case None => forall id :: id in executions ==> !IsActiveOf(executions[id], revision)
    case Some(x) =>
      && x in executions && IsActiveOf(executions[x], revision)
      && forall id :: id in executions && IsActiveOf(executions[id], revision) ==> executions[id].attempt <= executions[x].attempt
  }

  predicate FreshId(s: State, id: int) {
    && id !in s.db.executions && id !in s.marks && id !in s.handles
    && AllUnlocked(s, id)
  }

  function ExecOf(st: Stage): Option<int> {
    match st
    case Claimed(id) => Some(id)
    case Persisting(id, _, _) => Some(id)
    case Finished(id) => Some(id)
    case _ => None
  }

  /** A transaction is ready to commit: Phase 2 after completing, the others once an execution runs. */
  predicate Ready(x: Session) {
    if x.kind == Phase2 then x.stage.Finished? else x.stage.Claimed?
  }

  predicate Enabled(c: Config, s: State, step: Step) {
    match step
    case Submit(revision, _, _) => revision !in s.db.revisions
    case Acquire(w, kind, tenant, decision, _, _, _) =>
      w !in s.sessions && forall v :: v in s.sessions ==> s.sessions[v].key != c.lockOf(tenant, decision)
    case Find(w, found, _) =>
      w in s.sessions && (s.sessions[w].stage.Locked? || s.sessions[w].stage.Rechecked?)
      && Finds(s.db.executions, s.sessions[w].revision, found)
    case Recheck(w, _) => w in s.sessions && s.sessions[w].stage.LockedFor?
    case MarkStale(w, _) =>
      w in s.sessions && s.sessions[w].stage.FoundStale? && Unlocked(s, s.sessions[w].stage.prev, w)
    case Claim(w, _) =>
      w in s.sessions && s.sessions[w].stage.FoundPending? && Unlocked(s, s.sessions[w].stage.prev, w)
    case Insert(w, id, _) =>
      w in s.sessions && (s.sessions[w].stage.FoundNone? || s.sessions[w].stage.Marked?) && FreshId(s, id)
      && s.sessions[w].revision in s.db.revisions
    case Compute(w, _) => w in s.sessions && s.sessions[w].kind == Phase2 && s.sessions[w].stage.Claimed?
    case PersistNext(w) =>
      w in s.sessions && s.sessions[w].stage.Persisting? && s.sessions[w].stage.todo != []
      && s.sessions[w].stage.todo[0].targetType in TARGET_TYPES
      && forall v :: v in s.sessions && v != w ==>
           !HasKey(s.sessions[v].rows, SignalKey(c.hash, s.sessions[w].tenant, s.sessions[w].stage.todo[0]))
    case Complete(w, _) => w in s.sessions && s.sessions[w].stage.Persisting? && s.sessions[w].stage.todo == []
    case Commit(w) => w in s.sessions && Ready(s.sessions[w])
    case CommitLost(w) => w in s.sessions && Ready(s.sessions[w])
    case Abort(w, _) => w in s.sessions
    case FailMark(id, _, _) => id in s.marks && AllUnlocked(s, id)
    case LateComplete(id, _, _) => AllUnlocked(s, id)
    case LateFail(id, _, _) => AllUnlocked(s, id)
    case Heartbeat(id, _) => AllUnlocked(s, id)
  }

  // -------------------------------------------------------------- Effects

  function SetStage(s: State, w: int, st: Stage): State
    requires w in s.sessions
  {
    s.(sessions := s.sessions[w := s.sessions[w].(stage := st)])
  }

  function Write(s: State, w: int, e: Execution, st: Stage): State
    requires w in s.sessions
  {
    var x := s.sessions[w];
    s.(sessions := s.sessions[w := x.(stage := st, writes := x.writes[e.id := e])])
  }

  function Close(s: State, w: int): State {
    s.(sessions := s.sessions - {w})
  }

  /** The transaction's writes become the committed ones. */
  function Merge(s: State, w: int): State
    requires w in s.sessions
  {
    var x := s.sessions[w];
    Close(s, w).(db := s.db.(executions := s.db.executions + x.writes, ledger := s.db.ledger + x.rows))
  }

  function UpdateRow(s: State, id: int, f: Execution -> Execution): State {
    if id in s.db.executions
    then s.(db := s.db.(executions := s.db.executions[id := f(s.db.executions[id])]))
    else s
  }

  /** The row as the transaction sees it: its own version, else the committed one. */
  function Visible(s: State, x: Session, id: int): Option<Execution> {
    if id in x.writes then Some(x.writes[id])
    else if id in s.db.executions then Some(s.db.executions[id])
    else None
  }

  /** begin_phase2 and begin_execution after reading the active row. */
  function AfterFind(s: State, w: int, found: Option<int>, now: int): State
    requires w in s.sessions && (found.Some? ==> found.value in s.db.executions)
  {
    match found
    case None => SetStage(s, w, FoundNone)
    case Some(x) =>
      var e := s.db.executions[x];
      if e.status == Pending then SetStage(s, w, FoundPending(x))
      else if IsStale(e, now) then SetStage(s, w, FoundStale(x, e.attempt))
      else Close(s, w)
  }

  /** reconcile_stale_execution after reading the active row. */
  function AfterReconcileFind(s: State, w: int, found: Option<int>): State
    requires w in s.sessions && s.sessions[w].stage.Rechecked?
  {
    var target := s.sessions[w].stage.target;
    if target !in s.db.executions || (found.Some? && found.value != target) then Close(s, w)
    else SetStage(s, w, FoundStale(target, s.db.executions[target].attempt))
  }

  function AfterRecheck(s: State, w: int, now: int): State
    requires w in s.sessions && s.sessions[w].stage.LockedFor?
  {
    var target := s.sessions[w].stage.target;
    if target !in s.db.executions || !IsStale(s.db.executions[target], now) then Close(s, w)
    else
      var e := s.db.executions[target];
      var x := s.sessions[w].(stage := Rechecked(target), tenant := e.tenant, decision := e.decision, revision := e.revision);
      s.(sessions := s.sessions[w := x])
  }

  function Apply(c: Config, s: State, step: Step): State
    requires Enabled(c, s, step)
  {
    match step
    case Submit(revision, tenant, decision) =>
      if (tenant, decision) in s.db.decisions
      then s.(db := s.db.(revisions := s.db.revisions[revision := Revision(tenant, decision)]))
      else s
    case Acquire(w, kind, tenant, decision, revision, target, now) =>
      var st := if kind == Reconcile then LockedFor(target) else Locked;
      s.(sessions := s.sessions[w := Session(kind, c.lockOf(tenant, decision), tenant, decision, revision, now, st, map[], [])])
    case Find(w, found, now) =>
      if s.sessions[w].stage.Rechecked? then AfterReconcileFind(s, w, found) else AfterFind(s, w, found, now)
    case Recheck(w, now) => AfterRecheck(s, w, now)
    case MarkStale(w, now) =>
      var x := s.sessions[w];
      (match Visible(s, x, x.stage.prev)
       case None => SetStage(s, w, Marked(x.stage.prev, x.stage.attempt))
       case Some(e) => Write(s, w, MarkedStale(e, now), Marked(x.stage.prev, x.stage.attempt)))
    case Claim(w, now) =>
      var x := s.sessions[w];
      (match Visible(s, x, x.stage.prev)
       case None => SetStage(s, w, Claimed(x.stage.prev))
       case Some(e) => Write(s, w, ClaimedRow(e, now), Claimed(x.stage.prev)))
    case Insert(w, id, now) =>
      var x := s.sessions[w];
      var e := if x.stage.FoundNone? then InsertedRow(id, x.tenant, x.decision, x.revision, 1, None, now)
               else InsertedRow(id, x.tenant, x.decision, x.revision, x.stage.attempt + 1, Some(x.stage.prev), now);
      Write(s, w, e, Claimed(id))
    case Compute(w, signals) => SetStage(s, w, Persisting(s.sessions[w].stage.id, signals, 0))
    case PersistNext(w) =>
      var x := s.sessions[w];
      var st := x.stage;
      var r := NewRow(c.hash, x.tenant, Some(st.id), x.start, st.todo[0]);
      var rows := if HasKey(s.db.ledger, RowKey(r)) then x.rows else InsertRow(x.rows, r);
      s.(sessions := s.sessions[w := x.(rows := rows, stage := Persisting(st.id, st.todo[1..], st.done + 1))])
    case Complete(w, now) =>
      var x := s.sessions[w];
      (match Visible(s, x, x.stage.id)
       case None => SetStage(s, w, Finished(x.stage.id))
       case Some(e) => Write(s, w, CompletedRow(e, now, x.stage.done), Finished(x.stage.id)))
    case Commit(w) =>
      var x := s.sessions[w];
      Merge(s, w).(handles := if x.kind == Phase2 then s.handles else s.handles + {x.stage.id})
    case CommitLost(w) =>
      var x := s.sessions[w];
      Merge(s, w).(marks := if x.kind == Phase2 then s.marks + {x.stage.id} else s.marks)
    case Abort(w, raised) =>
      var x := s.sessions[w];
      Close(s, w).(marks := if raised && x.kind == Phase2 && ExecOf(x.stage).Some?
                            then s.marks + {ExecOf(x.stage).value} else s.marks)
    case FailMark(id, now, reason) =>
      UpdateRow(s, id, e => FailedRow(e, now, reason)).(marks := s.marks - {id})
    case LateComplete(id, now, count) => UpdateRow(s, id, e => CompletedRow(e, now, count))
    case LateFail(id, now, reason) => UpdateRow(s, id, e => FailedRow(e, now, reason))
    case Heartbeat(id, now) => UpdateRow(s, id, e => HeartbeatRow(e, now))
  }

  // ----------------------------------------------------------------- Runs

  /** Which decisions callers name with a revision: the revision's own pair, or any of the given ones. */
  datatype Callers = OwnPair | Those(pairs: (int, int, int) -> bool)

  /**
   * The world around the protocol. strays: executions that begin or reconcile did not
   * hand out may be failed by id. lostCommits: a commit's acknowledgement may be lost.
   */
  datatype Rules = Rules(callers: Callers, strays: bool, lostCommits: bool)

  predicate Names(callers: Callers, s: State, revision: int, tenant: int, decision: int) {
    match callers
    case OwnPair => revision in s.db.revisions && s.db.revisions[revision] == Revision(tenant, decision)
    case Those(pairs) => pairs(revision, tenant, decision)
  }

  predicate Allowed(rules: Rules, s: State, step: Step) {
    match step
    case Acquire(_, kind, tenant, decision, revision, target, _) =>
      && Names(rules.callers, s, revision, tenant, decision)
      && (kind == Reconcile ==> target in s.db.executions && s.db.executions[target].revision == revision)
    case LateFail(id, _, _) => rules.strays || id in s.handles
    case CommitLost(_) => rules.lostCommits
    case _ => true
  }

  /** A run: every step is enabled and allowed and leads to the next state. */
  ghost predicate Run(c: Config, rules: Rules, states: seq<State>, steps: seq<Step>) {
    && |states| == |steps| + 1
    && forall i :: 0 <= i < |steps| ==>
         Enabled(c, states[i], steps[i]) && Allowed(rules, states[i], steps[i]) && states[i + 1] == Apply(c, states[i], steps[i])
  }

  function EmptyState(decisions: set<(int, int)>): State {
    State(Db(decisions, map[], map[], []), map[], {}, {})
  }
}
