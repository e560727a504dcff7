/**
 * All-or-nothing: what reaches the ledger. In every run the ledger only grows and keeps
 * its keys unique. While no execution is pending, no execution is failed by id that was
 * not handed out, and no commit's acknowledgement is lost, every ledger row names a
 * completed execution and the fail mark after a rollback hits no row.
 */
module ProtocolAtomicity {
  import opened Prelude
  import opened LearningExecution
  import opened Ledger
  import opened Protocol

  ghost predicate DisjointKeys(a: seq<Row>, b: seq<Row>) {
    forall i, j :: 0 <= i < |a| && 0 <= j < |b| ==> RowKey(a[i]) != RowKey(b[j])
  }

  ghost predicate LedgerSound(s: State) {
    && UniqueKeys(s.db.ledger)
    && (forall w :: w in s.sessions ==> UniqueKeys(s.sessions[w].rows) && DisjointKeys(s.sessions[w].rows, s.db.ledger))
    && (forall v, w :: v in s.sessions && w in s.sessions && v != w ==>
          DisjointKeys(s.sessions[v].rows, s.sessions[w].rows))
  }

  lemma UniqueConcat(a: seq<Row>, b: seq<Row>)
    requires UniqueKeys(a) && UniqueKeys(b) && DisjointKeys(b, a)
    ensures UniqueKeys(a + b)
  {
  }

  lemma DisjointConcat(x: seq<Row>, a: seq<Row>, b: seq<Row>)
    requires DisjointKeys(x, a) && DisjointKeys(x, b)
    ensures DisjointKeys(x, a + b) && DisjointKeys(a + b, x)
  {
  }

  lemma PersistKeepsLedger(c: Config, s: State, w: int)
    requires LedgerSound(s) && Enabled(c, s, PersistNext(w))
    ensures LedgerSound(Apply(c, s, PersistNext(w)))
  {
    var x := s.sessions[w];
    var s' := Apply(c, s, PersistNext(w));
    var r := NewRow(c.hash, x.tenant, Some(x.stage.id), x.start, x.stage.todo[0]);
    if !HasKey(s.db.ledger, RowKey(r)) && !HasKey(x.rows, RowKey(r)) {
      var rows := x.rows + [r];
      assert s'.sessions[w].rows == rows;
      assert UniqueKeys(rows) && DisjointKeys(rows, s.db.ledger);
      forall v | v in s.sessions && v != w
        ensures DisjointKeys(rows, s.sessions[v].rows) && DisjointKeys(s.sessions[v].rows, rows)
      {
        assert !HasKey(s.sessions[v].rows, RowKey(r));
      }
    } else {
      assert s'.sessions[w].rows == x.rows;
    }
  }

  lemma MergeKeepsLedger(s: State, w: int)
    requires LedgerSound(s) && w in s.sessions
    ensures LedgerSound(Merge(s, w))
  {
    var x := s.sessions[w];
    UniqueConcat(s.db.ledger, x.rows);
    forall v | v in s.sessions && v != w
      ensures DisjointKeys(s.sessions[v].rows, s.db.ledger + x.rows)
    {
      DisjointConcat(s.sessions[v].rows, s.db.ledger, x.rows);
    }
  }

  /** The other steps move no ledger row: sessions keep their rows, close, or open with none. */
  lemma SameRowsLedger(s: State, s': State)
    requires LedgerSound(s) && s'.db.ledger == s.db.ledger
    requires forall w :: w in s'.sessions ==>
               s'.sessions[w].rows == [] || (w in s.sessions && s'.sessions[w].rows == s.sessions[w].rows)
    ensures LedgerSound(s')
  {
  }

  lemma RowsUnmoved(c: Config, s: State, step: Step)
    requires Enabled(c, s, step) && !step.PersistNext? && !step.Commit? && !step.CommitLost?
    ensures var s' := Apply(c, s, step);
            && s'.db.ledger == s.db.ledger
            && forall w :: w in s'.sessions ==>
                 s'.sessions[w].rows == [] || (w in s.sessions && s'.sessions[w].rows == s.sessions[w].rows)
  {
    hide HasKey;
  }

  /** Every step keeps ledger keys unique and only appends to the ledger. */
  lemma StepKeepsLedger(c: Config, s: State, step: Step)
    requires LedgerSound(s) && Enabled(c, s, step)
    ensures LedgerSound(Apply(c, s, step)) && s.db.ledger <= Apply(c, s, step).db.ledger
  {
    hide LedgerSound, HasKey;
    if step.PersistNext? {
      PersistKeepsLedger(c, s, step.w);
    } else if step.Commit? || step.CommitLost? {
      MergeKeepsLedger(s, step.w);
      SameRowsLedger(Merge(s, step.w), Apply(c, s, step));
    } else {
      RowsUnmoved(c, s, step);
      SameRowsLedger(s, Apply(c, s, step));
    }
  }

  /** The ledger is append-only and keeps at most one row per key, in every run. */
  lemma {:induction false} LedgerAppendOnly(c: Config, rules: Rules, states: seq<State>, steps: seq<Step>, i: nat, j: nat)
    requires Run(c, rules, states, steps) && LedgerSound(states[0]) && i <= j < |states|
    ensures LedgerSound(states[j]) && states[i].db.ledger <= states[j].db.ledger
    decreases j
  {
    hide LedgerSound;
    if j > 0 {
      LedgerAppendOnly(c, rules, states, steps, if i < j then i else j - 1, j - 1);
      assert Enabled(c, states[j - 1], steps[j - 1]);
      StepKeepsLedger(c, states[j - 1], steps[j - 1]);
    }
  }

  // ---------------------------------------- Rows name completed executions

  /** The committed row a transaction means to replace. */
  function Replaces(st: Stage): Option<int> {
    match st
    case Rechecked(target) => Some(target)
    case FoundStale(prev, _) => Some(prev)
    case Marked(prev, _) => Some(prev)
    case _ => None
  }

  ghost predicate InLedger(s: State, x: int) {
    exists i :: 0 <= i < |s.db.ledger| && s.db.ledger[i].execution == Some(x)
  }

  ghost predicate SessionFresh(s: State, x: Session) {
    && !x.stage.FoundPending?
    && (Replaces(x.stage).Some? ==> Replaces(x.stage).value in s.db.executions && !InLedger(s, Replaces(x.stage).value))
    && (forall id :: id in x.writes ==>
          x.writes[id].id == id && !InLedger(s, id) && id !in s.marks && x.writes[id].status != Pending)
    && (ExecOf(x.stage) == None ==> x.rows == [])
    && (ExecOf(x.stage).Some? ==>
          var e := ExecOf(x.stage).value;
          && e in x.writes && e !in s.db.executions && e !in s.handles
          && (x.kind != Phase2 ==> x.rows == [])
          && (forall i :: 0 <= i < |x.rows| ==> x.rows[i].execution == Some(e))
          && (x.stage.Finished? ==> x.writes[e].status == Completed))
    && (x.kind != Phase2 ==> !x.stage.Persisting? && !x.stage.Finished?)
  }

  ghost predicate FreshInv(s: State) {
    && (forall id :: id in s.db.executions ==> s.db.executions[id].id == id && s.db.executions[id].status != Pending)
    && (forall id :: InLedger(s, id) ==>
          id in s.db.executions && s.db.executions[id].status == Completed && id !in s.handles)
    && (forall id :: id in s.marks ==> id !in s.db.executions)
    && (forall id :: id in s.handles ==> id in s.db.executions)
    && (forall w :: w in s.sessions ==> SessionFresh(s, s.sessions[w]))
    && (forall v, w, id :: v in s.sessions && w in s.sessions && v != w && id in s.sessions[v].writes
          ==> id !in s.sessions[w].writes)
  }

  lemma SessionStepFresh(s: State, w: int, x': Session)
    requires FreshInv(s) && w in s.sessions
    requires SessionFresh(s, x')
    requires forall id :: id in x'.writes ==> Unlocked(s, id, w)
    ensures FreshInv(s.(sessions := s.sessions[w := x']))
  {
    var s' := s.(sessions := s.sessions[w := x']);
    SameLedger(s, s');
    hide InLedger;
    SameTablesFresh(s, s', x');
    forall v | v in s.sessions
      ensures SessionFresh(s', s.sessions[v])
    {
      SameTablesFresh(s, s', s.sessions[v]);
    }
    hide SessionFresh;
  }

  /** What a transaction holds fresh depends on the tables, not on the other transactions. */
  lemma SameTablesFresh(s: State, s': State, x: Session)
    requires SessionFresh(s, x)
    requires s'.db == s.db && s'.marks == s.marks && s'.handles == s.handles
    ensures SessionFresh(s', x)
  {
    SameLedger(s, s');
    hide InLedger;
  }

  lemma CloseFresh(s: State, w: int)
    requires FreshInv(s)
    ensures FreshInv(Close(s, w))
  {
    var s' := Close(s, w);
    SameLedger(s, s');
    hide InLedger;
    forall v | v in s'.sessions
      ensures SessionFresh(s', s'.sessions[v])
    {
      SameTablesFresh(s, s', s.sessions[v]);
    }
    hide SessionFresh;
  }

  lemma FreshFacts(s: State, w: int)
    requires FreshInv(s) && w in s.sessions
    ensures SessionFresh(s, s.sessions[w])
    ensures forall id :: id in s.sessions[w].writes ==> Unlocked(s, id, w)
  {
  }

  /** An active committed execution has no ledger row yet, and none is pending. */
  lemma ActiveHasNoRow(s: State, id: int)
    requires FreshInv(s) && id in s.db.executions
    ensures s.db.executions[id].id == id && id !in s.marks && s.db.executions[id].status != Pending
    ensures Active(s.db.executions[id].status) ==> !InLedger(s, id)
  {
  }

  lemma FreshRow(s: State, id: int)
    requires FreshInv(s) && FreshId(s, id)
    ensures !InLedger(s, id)
  {
  }

  lemma ReadFresh(c: Config, s: State, step: Step)
    requires FreshInv(s) && Enabled(c, s, step) && (step.Find? || step.Recheck?)
    ensures FreshInv(Apply(c, s, step))
  {
    hide FreshInv, InLedger;
    var w := step.w;
    var s' := Apply(c, s, step);
    FreshFacts(s, w);
    if w in s'.sessions {
      if step.Find? && step.found.Some? {
        ActiveHasNoRow(s, step.found.value);
      }
      if step.Recheck? {
        ActiveHasNoRow(s, s.sessions[w].stage.target);
      }
      SessionStepFresh(s, w, s'.sessions[w]);
      assert s' == s.(sessions := s.sessions[w := s'.sessions[w]]);
    } else {
      CloseFresh(s, w);
    }
  }

  lemma StageFresh(c: Config, s: State, step: Step)
    requires FreshInv(s) && Enabled(c, s, step) && (step.Compute? || step.PersistNext?)
    ensures FreshInv(Apply(c, s, step))
  {
    hide FreshInv, InLedger, HasKey;
    var w := step.w;
    var s' := Apply(c, s, step);
    FreshFacts(s, w);
    SessionStepFresh(s, w, s'.sessions[w]);
  }

  lemma WriteMovesFresh(s: State, w: int, e: Execution, st: Stage)
    requires FreshInv(s) && w in s.sessions && Unlocked(s, e.id, w)
    requires SessionFresh(s, s.sessions[w].(stage := st, writes := s.sessions[w].writes[e.id := e]))
    ensures FreshInv(Write(s, w, e, st))
  {
    hide FreshInv, SessionFresh;
    FreshFacts(s, w);
    SessionStepFresh(s, w, s.sessions[w].(stage := st, writes := s.sessions[w].writes[e.id := e]));
  }

  lemma MarkStaleFresh(c: Config, s: State, w: int, now: int)
    requires FreshInv(s) && Enabled(c, s, MarkStale(w, now))
    ensures FreshInv(Apply(c, s, MarkStale(w, now)))
  {
    hide FreshInv, InLedger;
    var x := s.sessions[w];
    FreshFacts(s, w);
    ActiveHasNoRow(s, x.stage.prev);
    WriteMovesFresh(s, w, MarkedStale(Visible(s, x, x.stage.prev).value, now), Marked(x.stage.prev, x.stage.attempt));
  }

  lemma InsertFresh(c: Config, s: State, w: int, id: int, now: int)
    requires FreshInv(s) && Enabled(c, s, Insert(w, id, now))
    ensures FreshInv(Apply(c, s, Insert(w, id, now)))
  {
    hide FreshInv, InLedger;
    var x := s.sessions[w];
    FreshFacts(s, w);
    FreshRow(s, id);
    var e := if x.stage.FoundNone? then InsertedRow(id, x.tenant, x.decision, x.revision, 1, None, now)
             else InsertedRow(id, x.tenant, x.decision, x.revision, x.stage.attempt + 1, Some(x.stage.prev), now);
    WriteMovesFresh(s, w, e, Claimed(id));
  }

  lemma CompleteFresh(c: Config, s: State, w: int, now: int)
    requires FreshInv(s) && Enabled(c, s, Complete(w, now))
    ensures FreshInv(Apply(c, s, Complete(w, now)))
  {
    hide FreshInv, InLedger;
    var x := s.sessions[w];
    FreshFacts(s, w);
    WriteMovesFresh(s, w, CompletedRow(x.writes[x.stage.id], now, x.stage.done), Finished(x.stage.id));
  }

  lemma SameLedger(s: State, s': State)
    requires s'.db.ledger == s.db.ledger
    ensures forall id :: InLedger(s', id) <==> InLedger(s, id)
  {
  }

  /** A transaction stays fresh while others add ids it does not use to the tables, the ledger and the marks. */
  lemma SessionCarries(s: State, s': State, x: Session)
    requires SessionFresh(s, x)
    requires s.db.executions.Keys <= s'.db.executions.Keys
    requires ExecOf(x.stage).Some? ==> var e := ExecOf(x.stage).value;
               (e in s'.db.executions ==> e in s.db.executions) && (e in s'.handles ==> e in s.handles)
    requires forall id :: id in x.writes && id in s'.marks ==> id in s.marks
    requires forall id :: InLedger(s', id) && (id in x.writes || id in s.db.executions) ==> InLedger(s, id)
    ensures SessionFresh(s', x)
  {
    hide InLedger;
  }

  lemma LedgerAfterCommit(s: State, s': State, rows: seq<Row>, e: int)
    requires s'.db.ledger == s.db.ledger + rows
    requires forall i :: 0 <= i < |rows| ==> rows[i].execution == Some(e)
    ensures forall id :: InLedger(s', id) ==> InLedger(s, id) || (rows != [] && id == e)
    ensures forall id :: InLedger(s, id) ==> InLedger(s', id)
  {
    forall id | InLedger(s', id)
      ensures InLedger(s, id) || (rows != [] && id == e)
    {
      var i :| 0 <= i < |s'.db.ledger| && s'.db.ledger[i].execution == Some(id);
      if i >= |s.db.ledger| {
        assert s'.db.ledger[i] == rows[i - |s.db.ledger|];
      }
    }
    forall id | InLedger(s, id)
      ensures InLedger(s', id)
    {
      var i :| 0 <= i < |s.db.ledger| && s.db.ledger[i].execution == Some(id);
      assert s'.db.ledger[i] == s.db.ledger[i];
    }
  }

  lemma WritesApart(s: State, v: int, w: int)
    requires FreshInv(s) && v in s.sessions && w in s.sessions && v != w
    ensures forall id :: id in s.sessions[v].writes ==> id !in s.sessions[w].writes
  {
  }

  /** The tables after a commit: completed ledger rows, no marked row, handles stored. */
  lemma CommitTables(c: Config, s: State, w: int)
    requires FreshInv(s) && Enabled(c, s, Commit(w))
    ensures var s' := Apply(c, s, Commit(w));
            && (forall id :: id in s'.db.executions ==> s'.db.executions[id].id == id && s'.db.executions[id].status != Pending)
            && (forall id :: InLedger(s', id) ==>
                  id in s'.db.executions && s'.db.executions[id].status == Completed && id !in s'.handles)
            && (forall id :: id in s'.marks ==> id !in s'.db.executions)
            && (forall id :: id in s'.handles ==> id in s'.db.executions)
  {
    hide InLedger;
    var x := s.sessions[w];
    FreshFacts(s, w);
    LedgerAfterCommit(s, Apply(c, s, Commit(w)), x.rows, ExecOf(x.stage).value);
  }

  lemma CommitFresh(c: Config, s: State, w: int)
    requires FreshInv(s) && Enabled(c, s, Commit(w))
    ensures FreshInv(Apply(c, s, Commit(w)))
  {
    var s' := Apply(c, s, Commit(w));
    CommitTables(c, s, w);
    assert s'.sessions == s.sessions - {w};
    forall v | v in s'.sessions
      ensures SessionFresh(s', s'.sessions[v])
    {
      CommitCarries(c, s, w, v);
    }
    hide InLedger, SessionFresh, Apply, Enabled;
  }

  lemma CommitCarries(c: Config, s: State, w: int, v: int)
    requires FreshInv(s) && Enabled(c, s, Commit(w)) && v in s.sessions && v != w
    ensures SessionFresh(Apply(c, s, Commit(w)), s.sessions[v])
  {
    var x, y := s.sessions[w], s.sessions[v];
    FreshFacts(s, w);
    FreshFacts(s, v);
    WritesApart(s, v, w);
    hide FreshInv, InLedger;
    var s' := Apply(c, s, Commit(w));
    LedgerAfterCommit(s, s', x.rows, ExecOf(x.stage).value);
    SessionCarries(s, s', y);
  }

  lemma AbortFresh(c: Config, s: State, step: Step)
    requires FreshInv(s) && step.Abort? && Enabled(c, s, step)
    ensures FreshInv(Apply(c, s, step))
  {
    hide InLedger;
    var s' := Apply(c, s, step);
    SameLedger(s, s');
    FreshFacts(s, step.w);
    forall v | v in s'.sessions
      ensures SessionFresh(s', s'.sessions[v])
    {
      WritesApart(s, v, step.w);
      SessionCarries(s, s', s.sessions[v]);
    }
  }

  lemma TablesMoveFresh(s: State, s': State)
    requires FreshInv(s) && s'.sessions == s.sessions && s'.handles == s.handles && s'.marks <= s.marks
    requires s'.db.ledger == s.db.ledger && s'.db.executions.Keys == s.db.executions.Keys
    requires forall id :: id in s.db.executions ==>
               && s'.db.executions[id].id == id && s'.db.executions[id].status != Pending
               && (InLedger(s, id) ==> s'.db.executions[id].status == Completed)
    ensures FreshInv(s')
  {
    hide InLedger, SessionFresh;
    SameLedger(s, s');
    forall v | v in s'.sessions
      ensures SessionFresh(s', s'.sessions[v])
    {
      SessionCarries(s, s', s.sessions[v]);
    }
  }

  lemma LockFreeFresh(c: Config, s: State, step: Step)
    requires FreshInv(s) && Enabled(c, s, step) && (step.LateFail? ==> step.id in s.handles)
    requires step.FailMark? || step.LateComplete? || step.LateFail? || step.Heartbeat?
    ensures FreshInv(Apply(c, s, step))
  {
    hide InLedger, SessionFresh;
    TablesMoveFresh(s, Apply(c, s, step));
  }

  lemma NewSessionFresh(s: State, w: int, x: Session)
    requires FreshInv(s) && w !in s.sessions
    requires (x.stage.Locked? || x.stage.LockedFor?) && x.writes == map[] && x.rows == []
    ensures FreshInv(s.(sessions := s.sessions[w := x]))
  {
    hide InLedger;
    var s' := s.(sessions := s.sessions[w := x]);
    SameLedger(s, s');
    assert SessionFresh(s', x);
    hide SessionFresh;
    forall v | v in s.sessions
      ensures SessionFresh(s', s.sessions[v])
    {
      SameTablesFresh(s, s', s.sessions[v]);
    }
  }

  lemma SubmitFresh(c: Config, s: State, step: Step)
    requires FreshInv(s) && step.Submit? && Enabled(c, s, step)
    ensures FreshInv(Apply(c, s, step))
  {
    hide InLedger;
    var s' := Apply(c, s, step);
    SameLedger(s, s');
    forall v | v in s.sessions
      ensures SessionFresh(s', s.sessions[v])
    {
      SessionCarries(s, s', s.sessions[v]);
    }
  }

  lemma AcquireFresh(c: Config, s: State, step: Step)
    requires FreshInv(s) && step.Acquire? && Enabled(c, s, step)
    ensures FreshInv(Apply(c, s, step))
  {
    hide FreshInv, InLedger;
    NewSessionFresh(s, step.w, Apply(c, s, step).sessions[step.w]);
  }

  /**
   * One step keeps it when commits are acknowledged and no execution is failed by id
   * that begin or reconcile did not hand out; which lock callers take does not matter.
   */
  lemma StepFresh(c: Config, rules: Rules, s: State, step: Step)
    requires FreshInv(s) && Enabled(c, s, step) && Allowed(rules, s, step) && !rules.strays && !rules.lostCommits
    ensures FreshInv(Apply(c, s, step))
  {
    hide FreshInv;
    match step
    case Submit(_, _, _) => SubmitFresh(c, s, step);
    case Acquire(_, _, _, _, _, _, _) => AcquireFresh(c, s, step);
    case Find(_, _, _) => ReadFresh(c, s, step);
    case Recheck(_, _) => ReadFresh(c, s, step);
    case MarkStale(w, now) => MarkStaleFresh(c, s, w, now);
    case Claim(w, _) => FreshFacts(s, w);
    case Insert(w, id, now) => InsertFresh(c, s, w, id, now);
    case Complete(w, now) => CompleteFresh(c, s, w, now);
    case Commit(w) => CommitFresh(c, s, w);
    case CommitLost(_) =>
    case Abort(_, _) => AbortFresh(c, s, step);
    case FailMark(_, _, _) => LockFreeFresh(c, s, step);
    case LateComplete(_, _, _) => LockFreeFresh(c, s, step);
    case LateFail(_, _, _) => LockFreeFresh(c, s, step);
    case Heartbeat(_, _) => LockFreeFresh(c, s, step);
    case _ => StageFresh(c, s, step);
  }

  lemma {:induction false} RunFresh(c: Config, rules: Rules, states: seq<State>, steps: seq<Step>, i: nat)
    requires Run(c, rules, states, steps) && !rules.strays && !rules.lostCommits && FreshInv(states[0]) && i < |states|
    ensures FreshInv(states[i])
    decreases i
  {
    hide FreshInv;
    if i > 0 {
      RunFresh(c, rules, states, steps, i - 1);
      assert Enabled(c, states[i - 1], steps[i - 1]) && Allowed(rules, states[i - 1], steps[i - 1]);
      StepFresh(c, rules, states[i - 1], steps[i - 1]);
    }
  }
}
