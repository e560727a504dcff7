/**
 * Exactly where the guarantees of the learning protocol end: for each hypothesis of the
 * theorems, the run that breaks them without it.
 */
module ProtocolLimits {
  import opened Prelude
  import opened LearningExecution
  import opened Ledger
  import opened Protocol
  import opened ProtocolAtomicity
  import opened ProtocolTheorems
  import Runs = ProtocolRuns

  // ------------------------------------------------------------ Fresh names

  lemma {:induction false} UpperBound(s: set<int>) returns (k: int)
    ensures forall x :: x in s ==> x < k
    decreases |s|
  {
    if s == {} {
      k := 0;
    } else {
      var m := AMember(s);
      var below := UpperBound(s - {m});
      k := if m < below then below else m + 1;
      assert forall x :: x in s ==> x == m || x in s - {m};
    }
  }

  lemma {:induction false} UnusedTarget(rows: seq<Row>) returns (k: int)
    ensures forall i :: 0 <= i < |rows| ==> rows[i].signal.targetId < k
    decreases |rows|
  {
    if rows == [] {
      k := 0;
    } else {
      var last := rows[|rows| - 1].signal.targetId;
      var below := UnusedTarget(rows[..|rows| - 1]);
      k := if last < below then below else last + 1;
    }
  }

  /** A signal no ledger row has the key of. */
  lemma NewSignal(c: Config, rows: seq<Row>, tenant: int) returns (signal: Signal)
    ensures signal.targetType in TARGET_TYPES && !HasKey(rows, SignalKey(c.hash, tenant, signal))
  {
    var k := UnusedTarget(rows);
    signal := Signal("decision", k, "", "");
  }

  // --------------------------------------------------------- One execution

  /** Worker w is about to commit execution e with one ledger row of its own. */
  ghost predicate AboutToCommit(t: State, w: int, e: int) {
    && t.sessions.Keys == {w}
    && var x := t.sessions[w];
       && x.kind == Phase2 && x.stage == Finished(e) && e in x.writes && |x.rows| == 1 && x.rows[0].execution == Some(e)
  }

  /** From a claimed execution a worker persists one new signal and completes. */
  lemma LearnsOneSignal(c: Config, rules: Rules, s: State, t: State, w: int, e: int) returns (t': State)
    requires Reaches(c, rules, s, t) && t.sessions.Keys == {w}
    requires var x := t.sessions[w];
             x.kind == Phase2 && x.stage == Claimed(e) && e in x.writes && x.writes[e].id == e && x.rows == []
    ensures Reaches(c, rules, s, t') && AboutToCommit(t', w, e)
    ensures t'.db == t.db && t'.marks == t.marks && t'.handles == t.handles
  {
    hide Run, HasKey;
    var signal := NewSignal(c, t.db.ledger, t.sessions[w].tenant);
    var t1 := Moved(c, rules, s, t, Compute(w, [signal]));
    NothingHasKey(SignalKey(c.hash, t.sessions[w].tenant, signal));
    var t2 := Moved(c, rules, s, t1, PersistNext(w));
    t' := Moved(c, rules, s, t2, Complete(w, 0));
  }

  lemma NothingHasKey(k: Key)
    ensures !HasKey([], k)
  {
  }

  /** A new revision of a known decision is submitted, and a worker runs it up to its commit. */
  lemma NewRevisionIsLearned(c: Config, rules: Rules, s: State) returns (t: State, e: int)
    requires Quiet(s) && s.db.decisions != {} && rules.callers.OwnPair?
    ensures Reaches(c, rules, s, t) && AboutToCommit(t, 1, e) && t.marks == {} && t.handles == s.handles
  {
    hide Run;
    ReachesSelf(c, rules, s);
    var pair :| pair in s.db.decisions;
    var r := UpperBound(s.db.revisions.Keys);
    e := UpperBound(s.db.executions.Keys);
    assert r !in s.db.revisions.Keys && e !in s.db.executions.Keys;
    var s1 := Moved(c, rules, s, s, Submit(r, pair.0, pair.1));
    var s2 := Moved(c, rules, s, s1, Acquire(1, Phase2, pair.0, pair.1, r, 0, 0));
    var s3 := Moved(c, rules, s, s2, Find(1, None, 0));
    var s4 := Moved(c, rules, s, s3, Insert(1, e, 0));
    t := LearnsOneSignal(c, rules, s, s4, 1, e);
  }

  lemma CommittedRow(t: State, w: int, e: int)
    requires AboutToCommit(t, w, e)
    ensures var ledger := Merge(t, w).db.ledger;
            && ledger != [] && ledger[|ledger| - 1].execution == Some(e) && e in Merge(t, w).db.executions
            && Merge(t, w).sessions == map[]
  {
  }

  /** A failed execution with a ledger row. */
  lemma FailedRowBreaks(s: State, e: int)
    requires s.db.ledger != [] && s.db.ledger[|s.db.ledger| - 1].execution == Some(e)
    requires e in s.db.executions && s.db.executions[e].status == Failed
    ensures !LedgerNamesCompleted(s)
  {
    assert s.db.ledger[|s.db.ledger| - 1].execution.value == e;
  }

  // ------------------------------------------------ What breaks atomicity

  /** A pending row: the first worker claims it and raises, so its fail mark is due. */
  lemma FirstWorkerRaises(c: Config, rules: Rules, s: State, p: int)
    requires Quiet(s) && p in s.db.executions && s.db.executions[p].status == Pending && rules.callers.OwnPair?
    ensures Reaches(c, rules, s, s.(marks := {p}))
  {
    hide Run;
    var r := s.db.executions[p].revision;
    var own := s.db.revisions[r];
    ReachesSelf(c, rules, s);
    var s1 := Moved(c, rules, s, s, Acquire(1, Phase2, own.tenant, own.decision, r, 0, 0));
    var s2 := Moved(c, rules, s, s1, Find(1, Some(p), 0));
    var s3 := Moved(c, rules, s, s2, Claim(1, 0));
    var s4 := Moved(c, rules, s, s3, Abort(1, true));
    assert s4 == s.(marks := {p});
  }

  /** A second worker claims the row again, which the rollback left pending. */
  lemma SecondWorkerClaims(c: Config, rules: Rules, s: State, p: int, t: State) returns (t': State)
    requires Quiet(s) && p in s.db.executions && s.db.executions[p].status == Pending && rules.callers.OwnPair?
    requires t == s.(marks := {p}) && Reaches(c, rules, s, t)
    ensures Reaches(c, rules, s, t') && t'.marks == {p} && t'.db == s.db && t'.sessions.Keys == {2}
    ensures var x := t'.sessions[2];
            x.kind == Phase2 && x.stage == Claimed(p) && p in x.writes && x.writes[p].id == p && x.rows == []
  {
    hide Run, HasKey;
    var r := s.db.executions[p].revision;
    var own := s.db.revisions[r];
    var t1 := Moved(c, rules, s, t, Acquire(2, Phase2, own.tenant, own.decision, r, 0, 0));
    var t2 := Moved(c, rules, s, t1, Find(2, Some(p), 0));
    t' := Moved(c, rules, s, t2, Claim(2, 0));
  }

  /**
   * A pending row is enough to break atomicity: two workers claim it one after the
   * other, and the first one's fail mark lands on the second one's completed execution.
   */
  lemma PendingRowBreaks(c: Config, rules: Rules, s: State, p: int) returns (t: State)
    requires Quiet(s) && p in s.db.executions && s.db.executions[p].status == Pending && rules.callers.OwnPair?
    ensures Reaches(c, rules, s, t) && !LedgerNamesCompleted(t)
  {
    hide Run, HasKey;
    FirstWorkerRaises(c, rules, s, p);
    var claimed := SecondWorkerClaims(c, rules, s, p, s.(marks := {p}));
    var learned := LearnsOneSignal(c, rules, s, claimed, 2, p);
    CommittedRow(learned, 2, p);
    var committed := Moved(c, rules, s, learned, Commit(2));
    t := Moved(c, rules, s, committed, FailMark(p, 0, ""));
    FailedRowBreaks(t, p);
  }

  /** So is failing by id an execution that only Phase 2 ever held: the driver returns its id. */
  lemma StrayFailBreaks(c: Config, rules: Rules, s: State) returns (t: State)
    requires Quiet(s) && s.db.decisions != {} && rules.callers.OwnPair? && rules.strays
    ensures Reaches(c, rules, s, t) && !LedgerNamesCompleted(t)
  {
    hide Run, HasKey;
    var learned, e := NewRevisionIsLearned(c, rules, s);
    CommittedRow(learned, 1, e);
    var committed := Moved(c, rules, s, learned, Commit(1));
    t := Moved(c, rules, s, committed, LateFail(e, 0, ""));
    FailedRowBreaks(t, e);
  }

  /** And so is a commit that takes effect while its caller sees it fail. */
  lemma LostCommitBreaks(c: Config, rules: Rules, s: State) returns (t: State)
    requires Quiet(s) && s.db.decisions != {} && rules.callers.OwnPair? && rules.lostCommits
    ensures Reaches(c, rules, s, t) && !LedgerNamesCompleted(t)
  {
    hide Run, HasKey;
    var learned, e := NewRevisionIsLearned(c, rules, s);
    CommittedRow(learned, 1, e);
    var committed := Moved(c, rules, s, learned, CommitLost(1));
    t := Moved(c, rules, s, committed, FailMark(e, 0, ""));
    FailedRowBreaks(t, e);
  }

  /**
   * Phase 2 is all or nothing in every run from a quiet state (each ledger row names a
   * completed execution) if and only if the state holds no pending execution, no
   * execution is failed by id that begin or reconcile did not hand out, and every commit
   * is acknowledged.
   */
  lemma AtomicIff(c: Config, rules: Rules, s: State)
    requires Quiet(s) && s.db.decisions != {} && rules.callers.OwnPair?
    ensures NoPending(s) && !rules.strays && !rules.lostCommits
            <==> (forall t :: Reaches(c, rules, s, t) ==> LedgerNamesCompleted(t))
  {
    if rules.strays {
      var t := StrayFailBreaks(c, rules, s);
    } else if rules.lostCommits {
      var t := LostCommitBreaks(c, rules, s);
    } else if !NoPending(s) {
      var p :| p in s.db.executions && s.db.executions[p].status == Pending;
      var t := PendingRowBreaks(c, rules, s, p);
    } else {
      AtomicForAllCallers(c, rules, s);
    }
  }

  /** The sufficient half holds whatever locks the callers take. */
  lemma AtomicForAllCallers(c: Config, rules: Rules, s: State)
    requires Quiet(s) && NoPending(s) && !rules.strays && !rules.lostCommits
    ensures forall t :: Reaches(c, rules, s, t) ==> LedgerNamesCompleted(t)
  {
    forall t | Reaches(c, rules, s, t)
      ensures LedgerNamesCompleted(t)
    {
      var states, steps :| Run(c, rules, states, steps) && states[0] == s && states[|states| - 1] == t;
      QuietIsFresh(s);
      RunFresh(c, rules, states, steps, |states| - 1);
      FreshNamesCompleted(t);
    }
  }

  // ------------------------------------------------- Callers and their locks

  lemma TwoBegin(c: Config, rules: Rules, s: State, own: (int, int), r: int, a: (int, int), b: (int, int)) returns (t: State)
    requires s == EmptyState(s.db.decisions) && own in s.db.decisions && rules.callers.Those?
    requires rules.callers.pairs(r, a.0, a.1) && rules.callers.pairs(r, b.0, b.1) && c.lockOf(a.0, a.1) != c.lockOf(b.0, b.1)
    ensures Reaches(c, rules, s, t) && t.db.executions == map[] && t.db.revisions.Keys == {r}
    ensures t.handles == {} && t.marks == {} && t.sessions.Keys == {1, 2}
    ensures forall w :: w in t.sessions ==>
              var x := t.sessions[w];
              x.kind == Begin && x.revision == r && x.stage == FoundNone && x.writes == map[] && x.rows == []
  {
    hide Run;
    ReachesSelf(c, rules, s);
    var s1 := Moved(c, rules, s, s, Submit(r, own.0, own.1));
    var s2 := Moved(c, rules, s, s1, Acquire(1, Begin, a.0, a.1, r, 0, 0));
    var s3 := Moved(c, rules, s, s2, Acquire(2, Begin, b.0, b.1, r, 0, 0));
    var s4 := Moved(c, rules, s, s3, Find(1, None, 0));
    t := Moved(c, rules, s, s4, Find(2, None, 0));
  }

  /** Two callers that take different locks for one revision run it twice; only the unique index is left. */
  lemma DifferentLocksBreak(c: Config, rules: Rules, decisions: set<(int, int)>, r: int, a: (int, int), b: (int, int)) returns (t: State)
    requires decisions != {} && rules.callers.Those?
    requires rules.callers.pairs(r, a.0, a.1) && rules.callers.pairs(r, b.0, b.1) && c.lockOf(a.0, a.1) != c.lockOf(b.0, b.1)
    ensures Reaches(c, rules, EmptyState(decisions), t) && !OneActivePerRevision(t)
  {
    hide Run;
    var s := EmptyState(decisions);
    var own :| own in decisions;
    var s5 := TwoBegin(c, rules, s, own, r, a, b);
    var s6 := Moved(c, rules, s, s5, Insert(1, 100, 0));
    var s7 := Moved(c, rules, s, s6, Insert(2, 200, 0));
    var s8 := Moved(c, rules, s, s7, Commit(1));
    t := Moved(c, rules, s, s8, Commit(2));
    assert t.db.executions[100].revision == t.db.executions[200].revision == r;
  }

  /**
   * The advisory lock alone keeps one active execution per revision, in every run, if and
   * only if all pairs that callers may name with a revision hash to one lock.
   */
  lemma OneActiveIffSharedKeys(c: Config, rules: Rules, decisions: set<(int, int)>)
    requires decisions != {} && rules.callers.Those?
    ensures Runs.SharedKeys(c, rules.callers.pairs)
            <==> (forall t :: Reaches(c, rules, EmptyState(decisions), t) ==> OneActivePerRevision(t))
  {
    var pairs := rules.callers.pairs;
    if Runs.SharedKeys(c, pairs) {
      forall t | Reaches(c, rules, EmptyState(decisions), t)
        ensures OneActivePerRevision(t)
      {
        var states, steps :| Run(c, rules, states, steps) && states[0] == EmptyState(decisions) && states[|states| - 1] == t;
        OneActiveAlways(c, rules, decisions, states, steps, |states| - 1);
      }
    } else {
      var r, t, d, t', d' :| pairs(r, t, d) && pairs(r, t', d') && c.lockOf(t, d) != c.lockOf(t', d');
      var u := DifferentLocksBreak(c, rules, decisions, r, (t, d), (t', d'));
    }
  }
}
