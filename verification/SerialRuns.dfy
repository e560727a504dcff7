/**
 * The store's methods refine the protocol: what each does between two idle states, some
 * run of the step system does under the same rules. So every history of store calls
 * keeps what the protocol guarantees. Then: what running Phase 2 again does.
 */
module SerialRuns {
  import opened Prelude
  import opened LearningExecution
  import opened Ledger
  import opened Protocol
  import opened ProtocolSafety
  import opened ProtocolTheorems
  import ProtocolLimits
  import Runs = ProtocolRuns
  import opened ExecutionStore
  import Learning = LearningLoop
  import Reports = LearningReports

  function Idle(db: Db, handles: set<int>): State {
    State(db, map[], {}, handles)
  }

  /** Rows are keyed by id and refer to stored revisions. */
  ghost predicate WellStored(db: Db) {
    forall id :: id in db.executions ==> db.executions[id].id == id && db.executions[id].revision in db.revisions
  }

  /** A known revision is named with a pair that callers may use. */
  predicate NamesPair(rules: Rules, db: Db, revision: int, tenant: int, decision: int) {
    revision in db.revisions ==> Names(rules.callers, Idle(db, {}), revision, tenant, decision)
  }

  // ------------------------------------------------------ Steps by id

  lemma SubmitIsARun(c: Config, rules: Rules, db: Db, handles: set<int>, revision: int, tenant: int, decision: int)
    requires revision !in db.revisions
    ensures Reaches(c, rules, Idle(db, handles),
              Idle(if (tenant, decision) in db.decisions
                   then db.(revisions := db.revisions[revision := Revision(tenant, decision)]) else db, handles))
  {
    hide Run;
    var s := Idle(db, handles);
    ReachesSelf(c, rules, s);
    var t := Moved(c, rules, s, s, Submit(revision, tenant, decision));
  }

  /** Completing by id is a run whatever execution is named. */
  lemma CompleteIsARun(c: Config, rules: Rules, db: Db, handles: set<int>, id: int, now: int, count: nat)
    ensures Reaches(c, rules, Idle(db, handles),
              Idle(if id in db.executions then db.(executions := db.executions[id := CompletedRow(db.executions[id], now, count)]) else db, handles))
  {
    hide Run;
    var s := Idle(db, handles);
    ReachesSelf(c, rules, s);
    var t := Moved(c, rules, s, s, LateComplete(id, now, count));
  }

  /** Failing by id is a run for what was handed out, for unknown ids, and under rules that permit strays. */
  lemma FailIsARun(c: Config, rules: Rules, db: Db, handles: set<int>, id: int, now: int, reason: string)
    requires rules.strays || id in handles || id !in db.executions
    ensures Reaches(c, rules, Idle(db, handles), Idle(db.(executions := FailOn(db.executions, id, now, reason)), handles))
  {
    hide Run;
    var s := Idle(db, handles);
    ReachesSelf(c, rules, s);
    if id in db.executions {
      var t := Moved(c, rules, s, s, LateFail(id, now, reason));
    }
  }

  lemma HeartbeatIsARun(c: Config, rules: Rules, db: Db, handles: set<int>, id: int, now: int)
    ensures Reaches(c, rules, Idle(db, handles),
              Idle(if id in db.executions then db.(executions := db.executions[id := HeartbeatRow(db.executions[id], now)]) else db, handles))
  {
    hide Run;
    var s := Idle(db, handles);
    ReachesSelf(c, rules, s);
    var t := Moved(c, rules, s, s, Heartbeat(id, now));
  }

  // ------------------------------------------------------------- Claiming

  /** A transaction of worker 1 that runs execution e with these writes and has no rows yet. */
  ghost predicate Running1(t: State, db: Db, handles: set<int>, kind: Kind, tenant: int, e: int, start: int, executions: Table) {
    && t.db == db && t.marks == {} && t.handles == handles && t.sessions.Keys == {1}
    && var x := t.sessions[1];
       && x.kind == kind && x.tenant == tenant && x.start == start && x.stage == Claimed(e) && x.rows == []
       && e in x.writes && db.executions + x.writes == executions
       && KeyedById(x.writes)
  }

  /** Worker 1 after reading the active row. */
  lemma FindRuns(c: Config, rules: Rules, db: Db, handles: set<int>, kind: Kind, found: Option<int>, tenant: int, decision: int,
                 revision: int, times: Times) returns (t: State)
    requires kind != Reconcile && Finds(db.executions, revision, found)
    requires Names(rules.callers, Idle(db, handles), revision, tenant, decision)
    ensures Reaches(c, rules, Idle(db, handles), t)
    ensures if found.Some? && db.executions[found.value].status != Pending && !IsStale(db.executions[found.value], times.check)
            then t == Idle(db, handles)
            else
              var st := match found
                        case None => FoundNone
                        case Some(x) => if db.executions[x].status == Pending then FoundPending(x)
                                        else FoundStale(x, db.executions[x].attempt);
              t == Idle(db, handles).(sessions :=
                     map[1 := Session(kind, c.lockOf(tenant, decision), tenant, decision, revision, times.start, st, map[], [])])
  {
    hide Run;
    var s := Idle(db, handles);
    ReachesSelf(c, rules, s);
    var s1 := Moved(c, rules, s, s, Acquire(1, kind, tenant, decision, revision, 0, times.start));
    t := Moved(c, rules, s, s1, Find(1, found, times.check));
    assert t.sessions == map[] || t.sessions.Keys == {1};
  }

  lemma RetryRuns(c: Config, rules: Rules, s: State, t: State, id: int, times: Times) returns (t': State)
    requires Reaches(c, rules, s, t) && t.sessions.Keys == {1} && t.marks == {} && KeyedById(t.db.executions)
    requires var x := t.sessions[1];
             x.stage.FoundStale? && x.stage.prev in t.db.executions && x.writes == map[] && x.rows == []
             && x.revision in t.db.revisions
    requires id !in t.db.executions && id !in t.handles
    ensures Reaches(c, rules, s, t')
    ensures var x := t.sessions[1];
            var prev := x.stage.prev;
            Running1(t', t.db, t.handles, x.kind, x.tenant, id, x.start,
                     t.db.executions[prev := MarkedStale(t.db.executions[prev], times.write)]
                       [id := InsertedRow(id, x.tenant, x.decision, x.revision, x.stage.attempt + 1, Some(prev), times.start)])
  {
    hide Run, Finds;
    var t1 := Moved(c, rules, s, t, MarkStale(1, times.write));
    t' := Moved(c, rules, s, t1, Insert(1, id, times.start));
  }

  lemma FirstRuns(c: Config, rules: Rules, s: State, t: State, id: int, times: Times) returns (t': State)
    requires Reaches(c, rules, s, t) && t.sessions.Keys == {1} && t.marks == {}
    requires var x := t.sessions[1]; x.stage == FoundNone && x.writes == map[] && x.rows == [] && x.revision in t.db.revisions
    requires id !in t.db.executions && id !in t.handles
    ensures Reaches(c, rules, s, t')
    ensures var x := t.sessions[1];
            Running1(t', t.db, t.handles, x.kind, x.tenant, id, x.start,
                     t.db.executions[id := InsertedRow(id, x.tenant, x.decision, x.revision, 1, None, times.start)])
  {
    hide Run, Finds;
    t' := Moved(c, rules, s, t, Insert(1, id, times.start));
  }

  lemma ClaimRuns(c: Config, rules: Rules, s: State, t: State, times: Times) returns (t': State)
    requires Reaches(c, rules, s, t) && t.sessions.Keys == {1} && t.marks == {} && KeyedById(t.db.executions)
    requires var x := t.sessions[1];
             x.stage.FoundPending? && x.stage.prev in t.db.executions && x.writes == map[] && x.rows == []
    ensures Reaches(c, rules, s, t')
    ensures var x := t.sessions[1];
            var prev := x.stage.prev;
            Running1(t', t.db, t.handles, x.kind, x.tenant, prev, x.start,
                     t.db.executions[prev := ClaimedRow(t.db.executions[prev], times.write)])
  {
    hide Run, Finds;
    t' := Moved(c, rules, s, t, Claim(1, times.write));
  }

  /** A claim that succeeds is a run up to a session that holds it. */
  lemma BeginRuns(c: Config, rules: Rules, db: Db, handles: set<int>, kind: Kind, found: Option<int>, tenant: int, decision: int,
                  revision: int, id: int, times: Times) returns (t: State)
    requires kind != Reconcile && WellStored(db) && NamesPair(rules, db, revision, tenant, decision)
    requires id !in db.executions && id !in handles && Finds(db.executions, revision, found)
    requires BeginOn(db, found, tenant, decision, revision, id, times).Ok?
    ensures Reaches(c, rules, Idle(db, handles), t)
    ensures var (execution, executions) := BeginOn(db, found, tenant, decision, revision, id, times).value;
            if execution == None then t == Idle(db, handles)
            else Running1(t, db, handles, kind, tenant, execution.value, times.start, executions)
  {
    hide Run;
    var s := Idle(db, handles);
    assert revision in db.revisions;
    t := FindRuns(c, rules, db, handles, kind, found, tenant, decision, revision, times);
    if t != s {
      if found == None {
        t := FirstRuns(c, rules, s, t, id, times);
      } else if db.executions[found.value].status == Pending {
        t := ClaimRuns(c, rules, s, t, times);
      } else {
        t := RetryRuns(c, rules, s, t, id, times);
      }
    }
  }

  /** begin_execution is a run that hands the execution to a lock-free worker. */
  lemma BeginIsARun(c: Config, rules: Rules, db: Db, handles: set<int>, found: Option<int>, tenant: int, decision: int,
                    revision: int, id: int, times: Times)
    requires WellStored(db) && NamesPair(rules, db, revision, tenant, decision)
    requires id !in db.executions && id !in handles && Finds(db.executions, revision, found)
    ensures var (after, handed) := BegunFrom(db, handles, found, tenant, decision, revision, id, times);
            Reaches(c, rules, Idle(db, handles), Idle(after, handed))
  {
    hide Run;
    var s := Idle(db, handles);
    ReachesSelf(c, rules, s);
    if BeginOn(db, found, tenant, decision, revision, id, times).Ok? {
      var t := BeginRuns(c, rules, db, handles, Begin, found, tenant, decision, revision, id, times);
      var (execution, executions) := BeginOn(db, found, tenant, decision, revision, id, times).value;
      if execution.Some? {
        var t' := Moved(c, rules, s, t, Commit(1));
        assert db.ledger + [] == db.ledger;
        assert t' == Idle(db.(executions := executions), handles + {execution.value});
      }
    }
  }

  // --------------------------------------------------------------- Phase 2

  lemma HasKeyConcat(a: seq<Row>, b: seq<Row>, k: Key)
    ensures HasKey(a + b, k) <==> HasKey(a, k) || HasKey(b, k)
  {
    if HasKey(a, k) {
      var i :| 0 <= i < |a| && RowKey(a[i]) == k;
      assert (a + b)[i] == a[i];
    }
    if HasKey(b, k) {
      var i :| 0 <= i < |b| && RowKey(b[i]) == k;
      assert (a + b)[|a| + i] == b[i];
    }
  }

  lemma {:induction false} PersistRuns(c: Config, rules: Rules, s: State, t: State, tenant: int, e: int, now: int,
                                       signals: seq<Signal>, k: nat) returns (t': State)
    requires Reaches(c, rules, s, t) && t.sessions.Keys == {1} && k <= |signals|
    requires forall i :: 0 <= i < |signals| ==> signals[i].targetType in TARGET_TYPES
    requires var x := t.sessions[1];
             && x.tenant == tenant && x.start == now && x.stage == Persisting(e, signals[k..], k)
             && t.db.ledger + x.rows == PersistAll(c.hash, t.db.ledger, tenant, Some(e), now, signals[..k])
    ensures Reaches(c, rules, s, t') && t'.sessions.Keys == {1}
    ensures t'.db == t.db && t'.marks == t.marks && t'.handles == t.handles
    ensures var x := t'.sessions[1];
            && x == t.sessions[1].(rows := x.rows, stage := Persisting(e, [], |signals|))
            && t.db.ledger + x.rows == PersistAll(c.hash, t.db.ledger, tenant, Some(e), now, signals)
    decreases |signals| - k
  {
    hide Run;
    if k == |signals| {
      assert signals[..k] == signals;
      t' := t;
    } else {
      var x := t.sessions[1];
      assert signals[k..][0] == signals[k] && signals[k..][1..] == signals[k + 1..];
      var t1 := Moved(c, rules, s, t, PersistNext(1));
      var r := NewRow(c.hash, tenant, Some(e), now, signals[k]);
      HasKeyConcat(t.db.ledger, x.rows, RowKey(r));
      assert signals[..k + 1][..k] == signals[..k];
      assert t.db.ledger + (x.rows + [r]) == (t.db.ledger + x.rows) + [r];
      t' := PersistRuns(c, rules, s, t1, tenant, e, now, signals, k + 1);
    }
  }

  lemma {:induction false} NoRaiseMeansValid(signals: seq<Signal>, fault: Option<(nat, string)>, k: nat)
    requires k <= |signals| && RaiseFrom(signals, fault, k) == None
    ensures forall i :: k <= i < |signals| ==> signals[i].targetType in TARGET_TYPES
    decreases |signals| - k
  {
    if k < |signals| {
      NoRaiseMeansValid(signals, fault, k + 1);
    }
  }

  /** The transaction with every signal persisted and the execution completed, not yet committed. */
  lemma WorkRuns(c: Config, rules: Rules, db: Db, handles: set<int>, t: State, tenant: int, e: int, times: Times, executions: Table, work: Work)
    returns (t': State)
    requires Reaches(c, rules, Idle(db, handles), t) && Running1(t, db, handles, Phase2, tenant, e, times.start, executions)
    requires RaiseOf(work) == None
    ensures Reaches(c, rules, Idle(db, handles), t')
    ensures t'.sessions.Keys == {1} && t'.db == db && t'.marks == {} && t'.handles == handles
    ensures var x := t'.sessions[1];
            && x.kind == Phase2 && x.stage == Finished(e)
            && Merge(t', 1).db == Committed(c.hash, db, tenant, e, executions, times, work.computed.value)
  {
    hide Run, HasKey, PersistAll;
    var s := Idle(db, handles);
    var signals := work.computed.value;
    NoRaiseMeansValid(signals, work.fault, 0);
    var t1 := Moved(c, rules, s, t, Compute(1, signals));
    assert signals[0..] == signals && signals[..0] == [];
    assert db.ledger + [] == db.ledger == PersistAll(c.hash, db.ledger, tenant, Some(e), times.start, []) by {
      NothingNew(c.hash, db.ledger, tenant, Some(e), times.start, []);
    }
    var t2 := PersistRuns(c, rules, s, t1, tenant, e, times.start, signals, 0);
    t' := FinishRuns(c, rules, s, t2, e, times.end, |signals|);
    assert db.executions + t2.sessions[1].writes == executions;
  }

  lemma FinishRuns(c: Config, rules: Rules, s: State, t: State, e: int, now: int, n: nat) returns (t': State)
    requires Reaches(c, rules, s, t) && t.sessions.Keys == {1} && t.marks == {}
    requires var x := t.sessions[1];
             x.kind == Phase2 && x.stage == Persisting(e, [], n) && e in x.writes && x.writes[e].id == e
    ensures Reaches(c, rules, s, t')
    ensures t'.sessions.Keys == {1} && t'.db == t.db && t'.marks == {} && t'.handles == t.handles
    ensures var x, x' := t.sessions[1], t'.sessions[1];
            var executions := t.db.executions + x.writes;
            && x'.kind == Phase2 && x'.stage == Finished(e)
            && Merge(t', 1).db == t.db.(executions := executions[e := CompletedRow(executions[e], now, n)], ledger := t.db.ledger + x.rows)
  {
    hide Run, HasKey;
    var x := t.sessions[1];
    t' := Moved(c, rules, s, t, Complete(1, now));
    var executions := t.db.executions + x.writes;
    assert Merge(t', 1).db.executions == executions[e := CompletedRow(executions[e], now, n)];
  }

  /** A commit that is acknowledged, or one that is not and whose fail mark follows. */
  lemma CommitRuns(c: Config, rules: Rules, s: State, t: State, e: int, times: Times, lost: Option<string>)
    requires Reaches(c, rules, s, t) && t.sessions.Keys == {1} && t.marks == {}
    requires t.sessions[1].kind == Phase2 && t.sessions[1].stage == Finished(e)
    requires lost.Some? ==> rules.lostCommits
    ensures var after := Merge(t, 1).db;
            Reaches(c, rules, s, Idle(match lost
                                      case None => after
                                      case Some(reason) => after.(executions := FailOn(after.executions, e, times.fail, reason)),
                                      t.handles))
  {
    hide Run, HasKey;
    var after := Merge(t, 1).db;
    assert t.sessions - {1} == map[];
    if lost == None {
      var t1 := Moved(c, rules, s, t, Commit(1));
      assert t1 == Idle(after, t.handles);
    } else {
      var t1 := Moved(c, rules, s, t, CommitLost(1));
      assert t1 == Idle(after, t.handles).(marks := {e});
      var t2 := Moved(c, rules, s, t1, FailMark(e, times.fail, lost.value));
      assert t2 == Idle(after.(executions := FailOn(after.executions, e, times.fail, lost.value)), t.handles);
    }
  }

  lemma RaiseRuns(c: Config, rules: Rules, db: Db, handles: set<int>, t: State, tenant: int, e: int, times: Times, executions: Table, reason: string)
    requires Reaches(c, rules, Idle(db, handles), t) && Running1(t, db, handles, Phase2, tenant, e, times.start, executions)
    ensures Reaches(c, rules, Idle(db, handles), Idle(db.(executions := FailOn(db.executions, e, times.fail, reason)), handles))
  {
    hide Run, HasKey;
    var s := Idle(db, handles);
    var t1 := Moved(c, rules, s, t, Abort(1, true));
    assert t1 == Idle(db, handles).(marks := {e});
    var t2 := Moved(c, rules, s, t1, FailMark(e, times.fail, reason));
    assert t2 == Idle(db.(executions := FailOn(db.executions, e, times.fail, reason)), handles);
  }

  /** Phase 2 as the driver performs it, whatever raises and whenever, is a run of the protocol. */
  lemma H3IsARun(c: Config, rules: Rules, db: Db, handles: set<int>, found: Option<int>, tenant: int, decision: int, revision: int,
                 id: int, times: Times, work: Work)
    requires WellStored(db) && NamesPair(rules, db, revision, tenant, decision) && (work.lost.Some? ==> rules.lostCommits)
    requires id !in db.executions && id !in handles && Finds(db.executions, revision, found)
    ensures Reaches(c, rules, Idle(db, handles),
                    Idle(H3Effect(c.hash, db, found, tenant, decision, revision, id, times, work).0, handles))
  {
    hide Run;
    var s := Idle(db, handles);
    ReachesSelf(c, rules, s);
    if work.refused == None && BeginOn(db, found, tenant, decision, revision, id, times).Ok? {
      var t := BeginRuns(c, rules, db, handles, Phase2, found, tenant, decision, revision, id, times);
      var (execution, executions) := BeginOn(db, found, tenant, decision, revision, id, times).value;
      hide PersistAll, WellStored, Finds;
      if execution.Some? {
        if RaiseOf(work).Some? {
          RaiseRuns(c, rules, db, handles, t, tenant, execution.value, times, executions, RaiseOf(work).value);
        } else {
          var t' := WorkRuns(c, rules, db, handles, t, tenant, execution.value, times, executions, work);
          CommitRuns(c, rules, s, t', execution.value, times, work.lost);
        }
      }
    }
  }

  // -------------------------------------------------------- Reconciliation

  /** Reconciliation is a run that takes the stale row's own lock. */
  lemma ReconcileIsARun(c: Config, rules: Rules, db: Db, handles: set<int>, target: int, found: Option<int>, id: int, times: Times)
    requires WellStored(db) && id !in db.executions && id !in handles
    requires target in db.executions ==>
               var e := db.executions[target];
               Finds(db.executions, e.revision, found) && NamesPair(rules, db, e.revision, e.tenant, e.decision)
    ensures var (after, handed) := ReconciledFrom(db, handles, target, found, id, times);
            Reaches(c, rules, Idle(db, handles), Idle(after, handed))
  {
    hide Run;
    var s := Idle(db, handles);
    ReachesSelf(c, rules, s);
    if ReconcileOn(db.executions, target, found, id, times).0.Some? {
      var t3 := ReconcileFindRuns(c, rules, db, handles, target, found, times);
      var t5 := RetryRuns(c, rules, s, t3, id, times);
      var t6 := Moved(c, rules, s, t5, Commit(1));
      var (execution, executions) := ReconcileOn(db.executions, target, found, id, times);
      assert db.ledger + [] == db.ledger;
      assert t6.db.executions == executions;
      assert t6 == Idle(db.(executions := executions), handles + {id});
    }
  }

  lemma ReconcileFindRuns(c: Config, rules: Rules, db: Db, handles: set<int>, target: int, found: Option<int>, times: Times) returns (t: State)
    requires WellStored(db) && target in db.executions && IsStale(db.executions[target], times.check)
    requires found == None || found == Some(target)
    requires var e := db.executions[target];
             Finds(db.executions, e.revision, found) && NamesPair(rules, db, e.revision, e.tenant, e.decision)
    ensures Reaches(c, rules, Idle(db, handles), t)
    ensures var e := db.executions[target];
            t == Idle(db, handles).(sessions :=
                   map[1 := Session(Reconcile, c.lockOf(e.tenant, e.decision), e.tenant, e.decision, e.revision, times.start,
                                            FoundStale(target, e.attempt), map[], [])])
  {
    hide Run;
    var s := Idle(db, handles);
    var e := db.executions[target];
    ReachesSelf(c, rules, s);
    var t1 := Moved(c, rules, s, s, Acquire(1, Reconcile, e.tenant, e.decision, e.revision, target, times.start));
    var t2 := Moved(c, rules, s, t1, Recheck(1, times.check));
    t := Moved(c, rules, s, t2, Find(1, found, times.check));
    assert t.sessions.Keys == {1};
  }

  // ------------------------------------------------------------- Histories

  datatype Call =
    | SubmitCall(revision: int, tenant: int, decision: int)
    | RunCall(tenant: int, decision: int, revision: int, id: int, times: Times, work: Work)
    | BeginCall(tenant: int, decision: int, revision: int, id: int, times: Times)
    | ReconcileCall(target: int, id: int, times: Times)
    | CompleteCall(id: int, now: int, count: nat)
    | FailCall(id: int, now: int, reason: string)
    | HeartbeatCall(id: int, now: int)

  /** Generated ids are new, a revision is named with its own pair, and the rules allow the rest. */
  predicate MayCall(rules: Rules, db: Db, handles: set<int>, call: Call) {
    match call
    case SubmitCall(revision, _, _) => revision !in db.revisions
    case RunCall(tenant, decision, revision, id, _, work) =>
      id !in db.executions && id !in handles && OwnsPair(db, revision, tenant, decision) && (work.lost.Some? ==> rules.lostCommits)
    case BeginCall(tenant, decision, revision, id, _) =>
      id !in db.executions && id !in handles && OwnsPair(db, revision, tenant, decision)
    case ReconcileCall(_, id, _) => id !in db.executions && id !in handles
    case FailCall(id, _, _) => rules.strays || id in handles
    case _ => true
  }

  predicate OwnsPair(db: Db, revision: int, tenant: int, decision: int) {
    revision in db.revisions ==> db.revisions[revision] == Revision(tenant, decision)
  }

  function HandOut(handles: set<int>, execution: Option<int>): set<int> {
    if execution.Some? then handles + {execution.value} else handles
  }

  function BegunFrom(db: Db, handles: set<int>, found: Option<int>, tenant: int, decision: int, revision: int, id: int, times: Times)
    : (Db, set<int>)
    requires found.Some? ==> found.value in db.executions
  {
    match BeginOn(db, found, tenant, decision, revision, id, times)
    case Err(_) => (db, handles)
    case Ok((execution, executions)) => (db.(executions := executions), HandOut(handles, execution))
  }

  function ReconciledFrom(db: Db, handles: set<int>, target: int, found: Option<int>, id: int, times: Times): (Db, set<int>) {
    var (execution, executions) := ReconcileOn(db.executions, target, found, id, times);
    (db.(executions := executions), HandOut(handles, execution))
  }

  /** What a store method may leave behind, as its contract says. */
  ghost predicate Leaves(c: Config, db: Db, handles: set<int>, call: Call, after: Db, handed: set<int>) {
    match call
    case SubmitCall(revision, tenant, decision) =>
      handed == handles
      && after == if (tenant, decision) in db.decisions then db.(revisions := db.revisions[revision := Revision(tenant, decision)]) else db
    case RunCall(tenant, decision, revision, id, times, work) =>
      handed == handles
      && exists found :: Finds(db.executions, revision, found)
                      && after == H3Effect(c.hash, db, found, tenant, decision, revision, id, times, work).0
    case BeginCall(tenant, decision, revision, id, times) =>
      exists found :: Finds(db.executions, revision, found)
                   && (after, handed) == BegunFrom(db, handles, found, tenant, decision, revision, id, times)
    case ReconcileCall(target, id, times) =>
      exists found :: (target in db.executions ==> Finds(db.executions, db.executions[target].revision, found))
                   && (after, handed) == ReconciledFrom(db, handles, target, found, id, times)
    case CompleteCall(id, now, count) =>
      handed == handles
      && after == if id in db.executions then db.(executions := db.executions[id := CompletedRow(db.executions[id], now, count)]) else db
    case FailCall(id, now, reason) => handed == handles && after == db.(executions := FailOn(db.executions, id, now, reason))
    case HeartbeatCall(id, now) =>
      handed == handles
      && after == if id in db.executions then db.(executions := db.executions[id := HeartbeatRow(db.executions[id], now)]) else db
  }

  /** Every row carries its revision's own pair, so that reconciliation takes the right lock. */
  ghost predicate RowsOwnPair(db: Db) {
    forall id :: id in db.executions ==>
      var e := db.executions[id];
      e.id == id && e.revision in db.revisions && db.revisions[e.revision] == Revision(e.tenant, e.decision)
  }

  lemma RunKeepsPairs(c: Config, db: Db, found: Option<int>, call: Call)
    requires RowsOwnPair(db) && call.RunCall? && OwnsPair(db, call.revision, call.tenant, call.decision)
    requires Finds(db.executions, call.revision, found)
    ensures RowsOwnPair(H3Effect(c.hash, db, found, call.tenant, call.decision, call.revision, call.id, call.times, call.work).0)
  {
    hide PersistAll, RaiseFrom, RowsOwnPair, BeginOn, FailOn, Committed;
    if call.work.refused == None && BeginOn(db, found, call.tenant, call.decision, call.revision, call.id, call.times).Ok? {
      BeginKeepsPairs(db, found, call.tenant, call.decision, call.revision, call.id, call.times);
      var (execution, executions) := BeginOn(db, found, call.tenant, call.decision, call.revision, call.id, call.times).value;
      if execution.Some? {
        var e := execution.value;
        FailKeepsPairs(db, e, call.times.fail, RaiseOf(call.work).GetOr(""));
        if RaiseOf(call.work) == None {
          var after := Committed(c.hash, db, call.tenant, e, executions, call.times, call.work.computed.value);
          CommitKeepsPairs(c, db, call.tenant, e, executions, call.times, call.work.computed.value);
          FailKeepsPairs(after, e, call.times.fail, call.work.lost.GetOr(""));
        }
      }
    }
  }

  lemma BeginKeepsPairs(db: Db, found: Option<int>, tenant: int, decision: int, revision: int, id: int, times: Times)
    requires RowsOwnPair(db) && OwnsPair(db, revision, tenant, decision) && Finds(db.executions, revision, found)
    requires BeginOn(db, found, tenant, decision, revision, id, times).Ok?
    ensures var (execution, executions) := BeginOn(db, found, tenant, decision, revision, id, times).value;
            RowsOwnPair(db.(executions := executions)) && (execution.Some? ==> execution.value in executions)
  {
  }

  lemma FailKeepsPairs(db: Db, e: int, now: int, reason: string)
    requires RowsOwnPair(db)
    ensures RowsOwnPair(db.(executions := FailOn(db.executions, e, now, reason)))
  {
  }

  lemma CommitKeepsPairs(c: Config, db: Db, tenant: int, e: int, executions: Table, times: Times, signals: seq<Signal>)
    requires RowsOwnPair(db.(executions := executions)) && e in executions
    ensures RowsOwnPair(Committed(c.hash, db, tenant, e, executions, times, signals))
  {
    hide PersistAll;
  }

  lemma CallKeepsPairs(c: Config, rules: Rules, db: Db, handles: set<int>, call: Call, after: Db, handed: set<int>)
    requires RowsOwnPair(db) && MayCall(rules, db, handles, call) && Leaves(c, db, handles, call, after, handed)
    ensures RowsOwnPair(after)
  {
    if call.RunCall? {
      var found :| Finds(db.executions, call.revision, found)
                && after == H3Effect(c.hash, db, found, call.tenant, call.decision, call.revision, call.id, call.times, call.work).0;
      RunKeepsPairs(c, db, found, call);
    }
  }

  /** Every call of the store is a run of the protocol, whose callers name the revision's own pair. */
  lemma CallIsARun(c: Config, rules: Rules, db: Db, handles: set<int>, call: Call, after: Db, handed: set<int>)
    requires rules.callers.OwnPair? && RowsOwnPair(db)
    requires MayCall(rules, db, handles, call) && Leaves(c, db, handles, call, after, handed)
    ensures Reaches(c, rules, Idle(db, handles), Idle(after, handed))
  {
    hide Reaches, H3Effect, BeginOn, ReconcileOn;
    assert WellStored(db);
    match call
    case SubmitCall(revision, tenant, decision) => SubmitIsARun(c, rules, db, handles, revision, tenant, decision);
    case RunCall(tenant, decision, revision, id, times, work) =>
      var found :| Finds(db.executions, revision, found)
                && after == H3Effect(c.hash, db, found, tenant, decision, revision, id, times, work).0;
      H3IsARun(c, rules, db, handles, found, tenant, decision, revision, id, times, work);
    case BeginCall(tenant, decision, revision, id, times) =>
      var found :| Finds(db.executions, revision, found)
                && (after, handed) == BegunFrom(db, handles, found, tenant, decision, revision, id, times);
      BeginIsARun(c, rules, db, handles, found, tenant, decision, revision, id, times);
    case ReconcileCall(target, id, times) =>
      var found :| (target in db.executions ==> Finds(db.executions, db.executions[target].revision, found))
                && (after, handed) == ReconciledFrom(db, handles, target, found, id, times);
      ReconcileIsARun(c, rules, db, handles, target, found, id, times);
    case CompleteCall(id, now, count) => CompleteIsARun(c, rules, db, handles, id, now, count);
    case FailCall(id, now, reason) => FailIsARun(c, rules, db, handles, id, now, reason);
    case HeartbeatCall(id, now) => HeartbeatIsARun(c, rules, db, handles, id, now);
  }

  /** A history of store calls from an empty store. */
  ghost predicate History(c: Config, rules: Rules, decisions: set<(int, int)>, dbs: seq<Db>, handles: seq<set<int>>, calls: seq<Call>) {
    && |dbs| == |handles| == |calls| + 1
    && dbs[0] == EmptyState(decisions).db && handles[0] == {}
    && forall i :: 0 <= i < |calls| ==>
         MayCall(rules, dbs[i], handles[i], calls[i]) && Leaves(c, dbs[i], handles[i], calls[i], dbs[i + 1], handles[i + 1])
  }

  lemma {:induction false} HistoryIsARun(c: Config, rules: Rules, decisions: set<(int, int)>, dbs: seq<Db>, handles: seq<set<int>>,
                                         calls: seq<Call>, i: nat)
    requires History(c, rules, decisions, dbs, handles, calls) && rules.callers.OwnPair? && i < |dbs|
    ensures RowsOwnPair(dbs[i]) && Reaches(c, rules, EmptyState(decisions), Idle(dbs[i], handles[i]))
    decreases i
  {
    hide Reaches, Leaves, MayCall, RowsOwnPair;
    if i == 0 {
      assert RowsOwnPair(dbs[0]) by { NoRowsOwnPair(dbs[0]); }
      ReachesSelf(c, rules, EmptyState(decisions));
    } else {
      HistoryIsARun(c, rules, decisions, dbs, handles, calls, i - 1);
      assert MayCall(rules, dbs[i - 1], handles[i - 1], calls[i - 1]);
      CallKeepsPairs(c, rules, dbs[i - 1], handles[i - 1], calls[i - 1], dbs[i], handles[i]);
      CallIsARun(c, rules, dbs[i - 1], handles[i - 1], calls[i - 1], dbs[i], handles[i]);
      ReachOn(c, rules, EmptyState(decisions), Idle(dbs[i - 1], handles[i - 1]), Idle(dbs[i], handles[i]));
    }
  }

  lemma NoRowsOwnPair(db: Db)
    requires db.executions == map[]
    ensures RowsOwnPair(db)
  {
  }

  lemma EmptyIsQuiet(decisions: set<(int, int)>)
    ensures Quiet(EmptyState(decisions)) && NoPending(EmptyState(decisions))
  {
  }

  /**
   * So the store keeps the protocol's promises, call after call: one active execution
   * per revision and well-founded chains always; and ledger rows that name completed
   * executions, as long as nothing is failed by id that was not handed out and every
   * commit is acknowledged.
   */
  lemma StoreIsSound(c: Config, rules: Rules, decisions: set<(int, int)>, dbs: seq<Db>, handles: seq<set<int>>, calls: seq<Call>, i: nat)
    requires History(c, rules, decisions, dbs, handles, calls) && rules.callers.OwnPair? && i < |dbs|
    ensures OneActivePerRevision(Idle(dbs[i], handles[i]))
    ensures forall id :: id in dbs[i].executions ==> ChainedBack(Idle(dbs[i], handles[i]), id)
    ensures !rules.strays && !rules.lostCommits ==> LedgerNamesCompleted(Idle(dbs[i], handles[i]))
  {
    hide Leaves, MayCall, ChainedBack, LedgerNamesCompleted;
    var t := Idle(dbs[i], handles[i]);
    HistoryIsARun(c, rules, decisions, dbs, handles, calls, i);
    var states, steps :| Run(c, rules, states, steps) && states[0] == EmptyState(decisions) && states[|states| - 1] == t;
    var keys := Runs.RunIsSound(c, rules, decisions, states, steps, |states| - 1);
    SoundSlicesOneActive(t);
    forall id | id in dbs[i].executions
      ensures ChainedBack(t, id)
    {
      SoundChains(t, id);
    }
    if !rules.strays && !rules.lostCommits {
      EmptyIsQuiet(decisions);
      ProtocolLimits.AtomicForAllCallers(c, rules, EmptyState(decisions));
    }
  }

  // ------------------------------------------------------- Running again

  /**
   * Phase 2 over unchanged inputs a second time, however much later and after whatever
   * else was appended: unless it is skipped or raises, it persists the same number of
   * signals and adds no ledger row.
   */
  lemma RerunAddsNoRow(hash: string -> string, db: Db, later: Db, found: Option<int>, found': Option<int>,
                       tenant: int, decision: int, revision: int, id: int, id': int, times: Times, times': Times, work: Work)
    requires found.Some? ==> found.value in db.executions
    requires found'.Some? ==> found'.value in later.executions
    requires var (after, result) := H3Effect(hash, db, found, tenant, decision, revision, id, times, work);
             result.Learned? && after.ledger <= later.ledger
    ensures var first := H3Effect(hash, db, found, tenant, decision, revision, id, times, work).1;
            var (again, second) := H3Effect(hash, later, found', tenant, decision, revision, id', times', work);
            && !second.Raised?
            && (second.Learned? ==> second.persisted == first.persisted)
            && again.ledger == later.ledger
  {
    var e := BeginOn(db, found, tenant, decision, revision, id, times).value.0;
    assert RaiseOf(work) == None;
    match BeginOn(later, found', tenant, decision, revision, id', times')
    case Err(_) =>
    case Ok((e', _)) =>
      if e'.Some? {
        PersistAgainAddsNothing(hash, db.ledger, later.ledger, tenant, e, e', times.start, times'.start, work.computed.value);
      }
  }

  /** The driver's work over given tables: it computes the signals from them, and no statement fails. */
  ghost function WorkOver(env: Reports.Env, t: Reports.Tables): Work {
    Work(None, Reports.Computed(env, t), None, None)
  }

  lemma {:induction false} ValidSignalsDoNotRaise(signals: seq<Signal>, k: nat)
    requires k <= |signals| && forall i :: 0 <= i < |signals| ==> signals[i].targetType in TARGET_TYPES
    ensures RaiseFrom(signals, None, k) == None
    decreases |signals| - k
  {
    if k < |signals| {
      ValidSignalsDoNotRaise(signals, k + 1);
    }
  }

  /** Over any tables Phase 2 raises exactly when the decision is gone or a credited pattern has no context. */
  lemma ComputationRaisesIff(env: Reports.Env, t: Reports.Tables)
    ensures RaiseOf(WorkOver(env, t)).Some? <==> t.own == None || !Reports.Parses(t.patterns, Reports.ArrivalsFor(env, t))
  {
    hide Reports.Parses, Reports.ReportsFor, Reports.AffectedFor, Reports.OwnFinding;
    if Reports.Computed(env, t).Ok? {
      var own, reports, affected := Reports.OwnFinding(env, t.own.value), Reports.ReportsFor(env, t), Reports.AffectedFor(env, t, t.own.value);
      var signals := Learning.Signals(own, reports, affected);
      forall i | 0 <= i < |signals|
        ensures signals[i].targetType in TARGET_TYPES
      {
        Learning.SignalsAreScoped(own, reports, affected, signals[i]);
      }
      hide Learning.Signals;
      ValidSignalsDoNotRaise(signals, 0);
    }
  }

  /**
   * The whole loop over the same tables, twice: both runs compute the same reports and
   * signals from them, a run that is not skipped persists one signal for the decision and
   * one for each reported artifact it affects, and the second adds no ledger row.
   */
  lemma LearningTwiceAddsNothing(hash: string -> string, db: Db, later: Db, found: Option<int>, found': Option<int>,
                                 tenant: int, decision: int, revision: int, id: int, id': int, times: Times, times': Times,
                                 env: Reports.Env, t: Reports.Tables)
    requires found.Some? ==> found.value in db.executions
    requires found'.Some? ==> found'.value in later.executions
    requires var (after, result) := H3Effect(hash, db, found, tenant, decision, revision, id, times, WorkOver(env, t));
             result.Learned? && after.ledger <= later.ledger
    ensures t.own.Some?
    ensures var reports, affected := Reports.ReportsFor(env, t), Reports.AffectedFor(env, t, t.own.value);
            var first := H3Effect(hash, db, found, tenant, decision, revision, id, times, WorkOver(env, t)).1;
            var (again, second) := H3Effect(hash, later, found', tenant, decision, revision, id', times', WorkOver(env, t));
            && again.ledger == later.ledger && !second.Raised?
            && (second.Learned? ==> second.persisted == first.persisted)
            && first.persisted == 1 + Learning.Hits(reports.patterns, affected.patterns) + Learning.Hits(reports.contexts, affected.contexts)
                                    + Learning.Hits(reports.insights, affected.insights)
  {
    hide Reports.Parses, Reports.ReportsFor, Reports.AffectedFor, Reports.OwnFinding;
    var work := WorkOver(env, t);
    assert RaiseOf(work) == None && work.computed.Ok?;
    Learning.SignalCount(Reports.OwnFinding(env, t.own.value), Reports.ReportsFor(env, t), Reports.AffectedFor(env, t, t.own.value));
    RerunAddsNoRow(hash, db, later, found, found', tenant, decision, revision, id, id', times, times', work);
  }

  /**
   * Idempotence is a property of the ledger, not of the executions: right after a run
   * completed, and no row of the revision is active, the same call learns again in a
   * new chain at attempt 1 beside the completed execution.
   */
  lemma RerunStartsANewChain(hash: string -> string, db: Db, found: Option<int>, found': Option<int>,
                             tenant: int, decision: int, revision: int, id: int, id': int, times: Times, times': Times, work: Work)
    requires Finds(db.executions, revision, found) && OneActivePerRevision(Idle(db, {})) && WellStored(db)
    requires id !in db.executions
    requires var (after, result) := H3Effect(hash, db, found, tenant, decision, revision, id, times, work);
             result.Learned? && id' !in after.executions && Finds(after.executions, revision, found')
    ensures var (after, first) := H3Effect(hash, db, found, tenant, decision, revision, id, times, work);
            var (again, second) := H3Effect(hash, after, found', tenant, decision, revision, id', times', work);
            && second == Learned(id', first.persisted)
            && again.executions[id'].attempt == 1 && again.executions[id'].parent == None
            && again.executions == after.executions[id' := again.executions[id']]
            && again.ledger == after.ledger
  {
    var (after, first) := H3Effect(hash, db, found, tenant, decision, revision, id, times, work);
    assert revision in db.revisions;
    forall x | x in after.executions
      ensures !IsActiveOf(after.executions[x], revision)
    {
      if x in db.executions && IsActiveOf(db.executions[x], revision) {
        assert found.Some? && IsActiveOf(db.executions[found.value], revision);
        assert x == found.value;
      }
    }
    assert found' == None;
    RerunAddsNoRow(hash, db, after, found, found', tenant, decision, revision, id, id', times, times', work);
  }

  /**
   * A run that raises leaves the tables untouched exactly when it had not claimed a
   * pending row and its commit had not taken effect.
   */
  lemma RaisedRunRestoresIff(hash: string -> string, db: Db, found: Option<int>, tenant: int, decision: int, revision: int,
                             id: int, times: Times, work: Work)
    requires Finds(db.executions, revision, found) && id !in db.executions
    requires H3Effect(hash, db, found, tenant, decision, revision, id, times, work).1.Raised?
    ensures H3Effect(hash, db, found, tenant, decision, revision, id, times, work).0 == db
            <==> (found.Some? ==> db.executions[found.value].status != Pending) && RaiseOf(work).Some?
  {
    var (after, result) := H3Effect(hash, db, found, tenant, decision, revision, id, times, work);
    if RaiseOf(work) == None || (found.Some? && db.executions[found.value].status == Pending) {
      assert after.executions[result.id].status == Failed;
    }
  }
}
