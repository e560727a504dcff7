/** The invariant of ProtocolSafety holds in every state of every run whose callers share locks. */
module ProtocolRuns {
  import opened Prelude
  import opened LearningExecution
  import opened Ledger
  import opened Protocol
  import opened ProtocolSafety

  // --------------------------------------------- Lock-free row updates

  ghost predicate SoftRow(e: Execution, e': Execution) {
    SameIdentity(e, e') && (e'.status == e.status || Terminal(e'.status))
  }

  lemma SliceOfRowUpdate(executions: Table, id: int, e': Execution, r: int)
    requires id in executions && executions[id].revision == e'.revision
    ensures Slice(executions[id := e'], r)
         == if e'.revision == r then Slice(executions, r)[id := e'] else Slice(executions, r)
  {
    var a := Slice(executions[id := e'], r);
    var b := if e'.revision == r then Slice(executions, r)[id := e'] else Slice(executions, r);
    assert forall x :: x in a <==> x in b;
    assert forall x :: x in a ==> a[x] == b[x];
  }

  lemma RowSoftened(executions: Table, id: int, e': Execution, r: int, writes: Table)
    requires id in executions && SoftRow(executions[id], e') && id !in writes
    ensures Softened(Slice(executions, r), Slice(executions[id := e'], r), writes)
  {
    SliceOfRowUpdate(executions, id, e', r);
  }

  lemma RowUpdateKeeps(keys: Keys, s: State, id: int, e': Execution)
    requires Inv(keys, s) && id in s.db.executions && AllUnlocked(s, id) && SoftRow(s.db.executions[id], e')
    ensures Inv(keys, s.(db := s.db.(executions := s.db.executions[id := e'])))
  {
    hide StageSound, Sound;
    var executions := s.db.executions;
    var db' := s.db.(executions := executions[id := e']);
    forall r
      ensures Sound(Slice(db'.executions, r))
    {
      RowSoftened(executions, id, e', r, map[]);
      SoftenedSound(Slice(executions, r), Slice(db'.executions, r));
    }
    forall w | w in s.sessions
      ensures SessionSound(keys, db', s.sessions[w])
    {
      var x := s.sessions[w];
      RowSoftened(executions, id, e', x.revision, x.writes);
      SoftenedStage(Slice(executions, x.revision), Slice(db'.executions, x.revision), x.writes, x.stage);
    }
  }

  // ------------------------------------------------ Steps of one session

  lemma SessionMoves(keys: Keys, s: State, w: int, x': Session)
    requires Inv(keys, s) && w in s.sessions
    requires x'.key == s.sessions[w].key && SessionSound(keys, s.db, x')
    requires forall id :: id in x'.writes ==> Unlocked(s, id, w)
    ensures Inv(keys, s.(sessions := s.sessions[w := x']))
  {
    hide StageSound, Sound;
  }

  lemma SessionCloses(keys: Keys, s: State, w: int)
    requires Inv(keys, s)
    ensures Inv(keys, Close(s, w))
  {
    hide StageSound, Sound;
  }

  lemma SessionFacts(keys: Keys, s: State, w: int)
    requires Inv(keys, s) && w in s.sessions
    ensures SessionSound(keys, s.db, s.sessions[w])
    ensures Sound(Slice(s.db.executions, s.sessions[w].revision))
    ensures forall id :: id in s.sessions[w].writes ==> Unlocked(s, id, w)
  {
    hide StageSound, Sound;
  }

  lemma StageMoves(keys: Keys, s: State, w: int, st: Stage)
    requires Inv(keys, s) && w in s.sessions
    requires StageSound(Slice(s.db.executions, s.sessions[w].revision), s.sessions[w].writes, st)
    ensures Inv(keys, SetStage(s, w, st))
  {
    hide StageSound, Sound, Inv;
    SessionFacts(keys, s, w);
    SessionMoves(keys, s, w, s.sessions[w].(stage := st));
  }

  lemma WriteMoves(keys: Keys, s: State, w: int, e: Execution, st: Stage)
    requires Inv(keys, s) && w in s.sessions && Unlocked(s, e.id, w)
    requires e.revision == s.sessions[w].revision
    requires e.id in s.db.executions ==> s.db.executions[e.id].revision == e.revision
    requires StageSound(Slice(s.db.executions, e.revision), s.sessions[w].writes[e.id := e], st)
    ensures Inv(keys, Write(s, w, e, st))
  {
    hide StageSound, Sound, Inv;
    SessionFacts(keys, s, w);
    var x := s.sessions[w];
    SessionMoves(keys, s, w, x.(stage := st, writes := x.writes[e.id := e]));
  }

  /** An execution that a transaction took from its slice is of the transaction's revision. */
  lemma SliceRow(keys: Keys, s: State, w: int, id: int)
    requires Inv(keys, s) && w in s.sessions && id in Slice(s.db.executions, s.sessions[w].revision)
    ensures var e, x := s.db.executions[id], s.sessions[w];
            e.id == id && e.revision == x.revision
  {
    hide StageSound, Sound;
  }

  lemma FindStage(t: Table, st: Stage, found: Option<int>, st': Stage)
    requires StageSound(t, map[], st) && Sound(t) && (st.Locked? || st.Rechecked?)
    requires match found case None => NoActive(t) case Some(x) => x in t && Active(t[x].status)
    requires if st.Rechecked? then (found.Some? ==> found.value == st.target) && st' == FoundStale(st.target, t[st.target].attempt)
             else match found
               case None => st' == FoundNone
               case Some(x) => st' == FoundPending(x) || st' == FoundStale(x, t[x].attempt)
    ensures StageSound(t, map[], st')
  {
    hide Sound;
    if found.Some? {
      ActiveHasNoChild(t, found.value);
    }
  }

  lemma FindKeeps(c: Config, keys: Keys, s: State, w: int, found: Option<int>, now: int)
    requires Inv(keys, s) && Enabled(c, s, Find(w, found, now))
    ensures Inv(keys, Apply(c, s, Find(w, found, now)))
  {
    hide Inv, Sound;
    var x := s.sessions[w];
    var t := Slice(s.db.executions, x.revision);
    SessionFacts(keys, s, w);
    var s' := Apply(c, s, Find(w, found, now));
    if w !in s'.sessions {
      SessionCloses(keys, s, w);
    } else {
      FindStage(t, x.stage, found, s'.sessions[w].stage);
      StageMoves(keys, s, w, s'.sessions[w].stage);
    }
  }

  lemma RecheckKeeps(c: Config, keys: Keys, s: State, w: int, now: int)
    requires Inv(keys, s) && Enabled(c, s, Recheck(w, now))
    ensures Inv(keys, Apply(c, s, Recheck(w, now)))
  {
    hide Inv, Sound;
    var x := s.sessions[w];
    var target := x.stage.target;
    var t := Slice(s.db.executions, x.revision);
    SessionFacts(keys, s, w);
    if target !in s.db.executions || !IsStale(s.db.executions[target], now) {
      SessionCloses(keys, s, w);
    } else {
      SliceRow(keys, s, w, target);
      ActiveHasNoChild(t, target);
      var e := s.db.executions[target];
      SessionMoves(keys, s, w, x.(stage := Rechecked(target), tenant := e.tenant, decision := e.decision, revision := e.revision));
    }
  }

  lemma MarkStaleKeeps(c: Config, keys: Keys, s: State, w: int, now: int)
    requires Inv(keys, s) && Enabled(c, s, MarkStale(w, now))
    ensures Inv(keys, Apply(c, s, MarkStale(w, now)))
  {
    hide Inv, Sound;
    var x := s.sessions[w];
    var prev := x.stage.prev;
    var t := Slice(s.db.executions, x.revision);
    SessionFacts(keys, s, w);
    SliceRow(keys, s, w, prev);
    var e := MarkedStale(s.db.executions[prev], now);
    MarkSound(t, prev, e);
    assert t + map[prev := e] == t[prev := e];
    WriteMoves(keys, s, w, e, Marked(prev, x.stage.attempt));
  }

  lemma ClaimKeeps(c: Config, keys: Keys, s: State, w: int, now: int)
    requires Inv(keys, s) && Enabled(c, s, Claim(w, now))
    ensures Inv(keys, Apply(c, s, Claim(w, now)))
  {
    hide Inv, Sound;
    var x := s.sessions[w];
    var prev := x.stage.prev;
    var t := Slice(s.db.executions, x.revision);
    SessionFacts(keys, s, w);
    SliceRow(keys, s, w, prev);
    var e := ClaimedRow(s.db.executions[prev], now);
    ClaimSound(t, prev, e);
    assert t + map[prev := e] == t[prev := e];
    WriteMoves(keys, s, w, e, Claimed(prev));
  }

  lemma InsertStage(t: Table, writes: Table, st: Stage, e: Execution)
    requires Sound(t) && StageSound(t, writes, st) && e.id !in t && e.id !in writes
    requires (st.FoundNone? && e.attempt == 1 && e.parent == None)
             || (st.Marked? && e.attempt == st.attempt + 1 && e.parent == Some(st.prev))
    ensures StageSound(t, writes[e.id := e], Claimed(e.id))
  {
    var v := t + writes;
    assert st.FoundNone? ==> v == t;
    FreshHasNoChild(v, e.id);
    InsertSound(v, e);
    assert t + writes[e.id := e] == v[e.id := e];
  }

  lemma InsertExecutionKeeps(c: Config, keys: Keys, s: State, w: int, id: int, now: int)
    requires Inv(keys, s) && Enabled(c, s, Insert(w, id, now))
    ensures Inv(keys, Apply(c, s, Insert(w, id, now)))
  {
    hide Inv, Sound, StageSound;
    var x := s.sessions[w];
    SessionFacts(keys, s, w);
    var e := if x.stage.FoundNone? then InsertedRow(id, x.tenant, x.decision, x.revision, 1, None, now)
             else InsertedRow(id, x.tenant, x.decision, x.revision, x.stage.attempt + 1, Some(x.stage.prev), now);
    InsertStage(Slice(s.db.executions, x.revision), x.writes, x.stage, e);
    WriteMoves(keys, s, w, e, Claimed(id));
  }

  lemma CompleteStage(t: Table, writes: Table, st: Stage, e: Execution)
    requires StageSound(t, writes, st) && st.Persisting? && e.id == st.id
    requires e.id in writes && SameIdentity(writes[e.id], e) && Terminal(e.status)
    ensures StageSound(t, writes[e.id := e], Finished(e.id))
  {
    var v := t + writes;
    CompleteSound(v, e.id, e);
    assert t + writes[e.id := e] == v[e.id := e];
  }

  lemma CompleteKeeps(c: Config, keys: Keys, s: State, w: int, now: int)
    requires Inv(keys, s) && Enabled(c, s, Complete(w, now))
    ensures Inv(keys, Apply(c, s, Complete(w, now)))
  {
    hide Inv, Sound;
    var x := s.sessions[w];
    SessionFacts(keys, s, w);
    var e := CompletedRow(x.writes[x.stage.id], now, x.stage.done);
    CompleteStage(Slice(s.db.executions, x.revision), x.writes, x.stage, e);
    hide StageSound;
    WriteMoves(keys, s, w, e, Finished(x.stage.id));
  }

  /** Steps that change neither the session's writes nor which execution it runs. */
  lemma StageOnlyKeeps(keys: Keys, s: State, w: int, x': Session)
    requires Inv(keys, s) && w in s.sessions
    requires ExecOf(s.sessions[w].stage).Some? && ExecOf(x'.stage) == ExecOf(s.sessions[w].stage)
    requires x' == s.sessions[w].(stage := x'.stage, rows := x'.rows)
    ensures Inv(keys, s.(sessions := s.sessions[w := x']))
  {
    hide Sound, Inv;
    SessionFacts(keys, s, w);
    SessionMoves(keys, s, w, x');
  }

  /** An acquisition takes the lock of its revision; a reconciliation is given a stored row of it. */
  ghost predicate TakesKey(c: Config, keys: Keys, s: State, step: Step) {
    step.Acquire? ==>
      && c.lockOf(step.tenant, step.decision) == keys(step.revision)
      && (step.kind == Reconcile ==> step.target in s.db.executions && s.db.executions[step.target].revision == step.revision)
  }

  lemma AcquireKeeps(c: Config, keys: Keys, s: State, step: Step)
    requires Inv(keys, s) && step.Acquire? && Enabled(c, s, step) && TakesKey(c, keys, s, step)
    ensures Inv(keys, Apply(c, s, step))
  {
    hide Sound;
  }

  lemma SubmitKeeps(c: Config, keys: Keys, s: State, step: Step)
    requires Inv(keys, s) && step.Submit? && Enabled(c, s, step)
    ensures Inv(keys, Apply(c, s, step))
  {
    hide StageSound, Sound;
  }

  // --------------------------------------------------------------- Commit

  /** The lock separates slices: two open transactions work on different revisions. */
  lemma OneSessionPerRevision(keys: Keys, s: State, v: int, w: int)
    requires Inv(keys, s) && v in s.sessions && w in s.sessions && v != w
    ensures s.sessions[v].revision != s.sessions[w].revision
  {
  }

  /** A commit, whether or not its caller hears of it. */
  lemma CommitKeeps(c: Config, keys: Keys, s: State, step: Step)
    requires Inv(keys, s) && (step.Commit? || step.CommitLost?) && Enabled(c, s, step)
    ensures Inv(keys, Apply(c, s, step))
  {
    MergeKeeps(keys, s, step.w);
    BookkeepingKeeps(keys, Merge(s, step.w), Apply(c, s, step));
  }

  lemma MergeKeeps(keys: Keys, s: State, w: int)
    requires Inv(keys, s) && w in s.sessions && Ready(s.sessions[w])
    ensures Inv(keys, Merge(s, w))
  {
    hide Sound;
    var x := s.sessions[w];
    var executions := s.db.executions;
    var s' := Merge(s, w);
    SliceOfMerge(executions, x.writes, x.revision);
    forall r
      ensures Sound(Slice(s'.db.executions, r))
    {
      if r != x.revision {
        assert Slice(s'.db.executions, r) == Slice(executions, r);
      }
    }
    forall v | v in s'.sessions
      ensures SessionSound(keys, s'.db, s'.sessions[v])
    {
      OneSessionPerRevision(keys, s, v, w);
      var y := s.sessions[v];
      assert Slice(s'.db.executions, y.revision) == Slice(executions, y.revision);
      forall id | id in y.writes && id in s'.db.executions
        ensures s'.db.executions[id].revision == y.revision
      {
        assert id !in x.writes;
      }
    }
  }

  // ------------------------------------------------------------- Theorems

  lemma StepKeeps(c: Config, keys: Keys, s: State, step: Step)
    requires Inv(keys, s) && Enabled(c, s, step) && TakesKey(c, keys, s, step)
    ensures Inv(keys, Apply(c, s, step))
  {
    hide Inv;
    match step
    case Submit(_, _, _) => SubmitKeeps(c, keys, s, step);
    case Acquire(_, _, _, _, _, _, _) => AcquireKeeps(c, keys, s, step);
    case Find(w, found, now) => FindKeeps(c, keys, s, w, found, now);
    case Recheck(w, now) => RecheckKeeps(c, keys, s, w, now);
    case MarkStale(w, now) => MarkStaleKeeps(c, keys, s, w, now);
    case Claim(w, now) => ClaimKeeps(c, keys, s, w, now);
    case Insert(w, id, now) => InsertExecutionKeeps(c, keys, s, w, id, now);
    case Compute(w, signals) =>
      StageOnlyKeeps(keys, s, w, s.sessions[w].(stage := Persisting(s.sessions[w].stage.id, signals, 0)));
    case PersistNext(w) => StageOnlyKeeps(keys, s, w, Apply(c, s, step).sessions[w]);
    case Complete(w, now) => CompleteKeeps(c, keys, s, w, now);
    case Commit(w) => CommitKeeps(c, keys, s, step);
    case CommitLost(w) => CommitKeeps(c, keys, s, step);
    case Abort(w, _) => BookkeepingKeeps(keys, Close(s, w), Apply(c, s, step)); SessionCloses(keys, s, w);
    case FailMark(id, now, reason) => LockFreeKeeps(c, keys, s, step);
    case LateComplete(_, _, _) => LockFreeKeeps(c, keys, s, step);
    case LateFail(_, _, _) => LockFreeKeeps(c, keys, s, step);
    case Heartbeat(_, _) => LockFreeKeeps(c, keys, s, step);
  }

  lemma BookkeepingKeeps(keys: Keys, s: State, s': State)
    requires s'.db == s.db && s'.sessions == s.sessions
    ensures Inv(keys, s) ==> Inv(keys, s')
  {
  }

  lemma LockFreeKeeps(c: Config, keys: Keys, s: State, step: Step)
    requires Inv(keys, s) && Enabled(c, s, step)
    requires step.FailMark? || step.LateComplete? || step.LateFail? || step.Heartbeat?
    ensures Inv(keys, Apply(c, s, step))
  {
    hide Inv;
    var s' := Apply(c, s, step);
    var id := step.id;
    if id in s.db.executions {
      RowUpdateKeeps(keys, s, id, s'.db.executions[id]);
      BookkeepingKeeps(keys, s.(db := s'.db), s');
    } else {
      BookkeepingKeeps(keys, s, s');
    }
  }

  /** The invariant, along a run in which every acquisition takes its revision's key. */
  ghost predicate KeyedRun(c: Config, keys: Keys, states: seq<State>, steps: seq<Step>) {
    |states| == |steps| + 1 && forall i :: 0 <= i < |steps| ==> TakesKey(c, keys, states[i], steps[i])
  }

  lemma {:induction false} RunKeeps(c: Config, rules: Rules, keys: Keys, states: seq<State>, steps: seq<Step>, i: nat)
    requires Run(c, rules, states, steps) && KeyedRun(c, keys, states, steps) && Inv(keys, states[0]) && i < |states|
    ensures Inv(keys, states[i])
    decreases i
  {
    hide Inv, TakesKey;
    if i > 0 {
      RunKeeps(c, rules, keys, states, steps, i - 1);
      assert Enabled(c, states[i - 1], steps[i - 1]) && TakesKey(c, keys, states[i - 1], steps[i - 1]);
      StepKeeps(c, keys, states[i - 1], steps[i - 1]);
    }
  }

  lemma EmptyIsSound(keys: Keys, decisions: set<(int, int)>)
    ensures Inv(keys, EmptyState(decisions))
  {
    forall r
      ensures Slice(map[], r) == map[]
    {
    }
  }

  // ------------------------------------------------------- Keys of a run

  /** Whatever pairs callers may name with a revision, they hash to one lock. */
  ghost predicate SharedKeys(c: Config, pairs: (int, int, int) -> bool) {
    forall r, t, d, t', d' :: pairs(r, t, d) && pairs(r, t', d') ==> c.lockOf(t, d) == c.lockOf(t', d')
  }

  /** Callers of one revision take one lock: they name its own pair, or pairs that share a key. */
  ghost predicate OneLock(c: Config, callers: Callers) {
    match callers
    case OwnPair => true
    case Those(pairs) => SharedKeys(c, pairs)
  }

  lemma {:induction false} RevisionsStay(c: Config, rules: Rules, states: seq<State>, steps: seq<Step>, i: nat, j: nat)
    requires Run(c, rules, states, steps) && i <= j < |states|
    ensures forall r :: r in states[i].db.revisions ==>
              r in states[j].db.revisions && states[j].db.revisions[r] == states[i].db.revisions[r]
    decreases j
  {
    if i < j {
      RevisionsStay(c, rules, states, steps, i, j - 1);
      assert Enabled(c, states[j - 1], steps[j - 1]);
      StepLeavesRevisions(c, states[j - 1], steps[j - 1]);
    }
  }

  lemma StepLeavesRevisions(c: Config, s: State, step: Step)
    requires Enabled(c, s, step)
    ensures forall r :: r in s.db.revisions ==>
              r in Apply(c, s, step).db.revisions && Apply(c, s, step).db.revisions[r] == s.db.revisions[r]
  {
    hide HasKey, Finds, Unlocked, AllUnlocked, FreshId;
  }

  function OwnKey(c: Config, revisions: map<int, Revision>): Keys {
    r => if r in revisions then c.lockOf(revisions[r].tenant, revisions[r].decision) else 0
  }

  ghost function SharedKey(c: Config, pairs: (int, int, int) -> bool, r: int): int {
    if t, d :| pairs(r, t, d) then c.lockOf(t, d) else 0
  }

  /** A run whose callers take one lock per revision has a key for each revision. */
  lemma KeysOfRun(c: Config, rules: Rules, states: seq<State>, steps: seq<Step>) returns (keys: Keys)
    requires Run(c, rules, states, steps) && OneLock(c, rules.callers)
    ensures KeyedRun(c, keys, states, steps)
  {
    match rules.callers
    case OwnPair =>
      var last := states[|states| - 1].db.revisions;
      keys := OwnKey(c, last);
      forall i | 0 <= i < |steps|
        ensures TakesKey(c, keys, states[i], steps[i])
      {
        assert Allowed(rules, states[i], steps[i]);
        RevisionsStay(c, rules, states, steps, i, |states| - 1);
      }
    case Those(pairs) =>
      keys := r => SharedKey(c, pairs, r);
      forall i | 0 <= i < |steps|
        ensures TakesKey(c, keys, states[i], steps[i])
      {
        assert Allowed(rules, states[i], steps[i]);
      }
  }

  /** The invariant for every run from empty tables whose callers take one lock per revision. */
  lemma RunIsSound(c: Config, rules: Rules, decisions: set<(int, int)>, states: seq<State>, steps: seq<Step>, i: nat) returns (keys: Keys)
    requires Run(c, rules, states, steps) && OneLock(c, rules.callers)
    requires states[0] == EmptyState(decisions) && i < |states|
    ensures Inv(keys, states[i])
  {
    keys := KeysOfRun(c, rules, states, steps);
    EmptyIsSound(keys, decisions);
    RunKeeps(c, rules, keys, states, steps, i);
  }
}
