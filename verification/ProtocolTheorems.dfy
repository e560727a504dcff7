/** What the learning protocol promises over whole runs, and the tools to build runs. */
module ProtocolTheorems {
  import opened Prelude
  import opened LearningExecution
  import opened Ledger
  import opened Protocol
  import opened ProtocolSafety
  import Runs = ProtocolRuns
  import opened ProtocolAtomicity

  ghost predicate OneActivePerRevision(s: State) {
    forall a, b :: a in s.db.executions && b in s.db.executions && a != b
      && Active(s.db.executions[a].status) && Active(s.db.executions[b].status)
      ==> s.db.executions[a].revision != s.db.executions[b].revision
  }

  lemma SoundSlicesOneActive(s: State)
    requires SlicesSound(s.db.executions)
    ensures OneActivePerRevision(s)
  {
    forall a, b | a in s.db.executions && b in s.db.executions && a != b
      && Active(s.db.executions[a].status) && Active(s.db.executions[b].status)
      ensures s.db.executions[a].revision != s.db.executions[b].revision
    {
      var t := Slice(s.db.executions, s.db.executions[a].revision);
      assert Sound(t) && a in t;
      assert b in t ==> a == b;
    }
  }

  /**
   * At most one pending or running execution per outcome revision, in every reachable
   * state, whatever is updated by id and whichever acknowledgements are lost.
   */
  lemma OneActiveAlways(c: Config, rules: Rules, decisions: set<(int, int)>, states: seq<State>, steps: seq<Step>, i: nat)
    requires Run(c, rules, states, steps) && Runs.OneLock(c, rules.callers)
    requires states[0] == EmptyState(decisions) && i < |states|
    ensures OneActivePerRevision(states[i])
  {
    var keys := Runs.RunIsSound(c, rules, decisions, states, steps, i);
    SoundSlicesOneActive(states[i]);
  }

  /**
   * The unique index on active executions never fires: at every insert, no other row of
   * the revision is active, committed or written by any open transaction.
   */
  lemma InsertNeverConflicts(c: Config, rules: Rules, decisions: set<(int, int)>, states: seq<State>, steps: seq<Step>, i: nat)
    requires Run(c, rules, states, steps) && Runs.OneLock(c, rules.callers)
    requires states[0] == EmptyState(decisions) && i < |steps| && steps[i].Insert?
    ensures var s, x := states[i], states[i].sessions[steps[i].w];
            && (forall id :: id in s.db.executions + x.writes && (s.db.executions + x.writes)[id].revision == x.revision
                  ==> !Active((s.db.executions + x.writes)[id].status))
            && (forall v, id :: v in s.sessions && v != steps[i].w && id in s.sessions[v].writes
                  ==> s.sessions[v].writes[id].revision != x.revision)
  {
    var keys := Runs.RunIsSound(c, rules, decisions, states, steps, i);
    var s := states[i];
    assert Enabled(c, s, steps[i]);
    NothingElseIsActive(keys, s, steps[i].w);
  }

  lemma NothingElseIsActive(keys: Keys, s: State, w: int)
    requires Inv(keys, s) && w in s.sessions && (s.sessions[w].stage.FoundNone? || s.sessions[w].stage.Marked?)
    ensures var x := s.sessions[w];
            && (forall id :: id in s.db.executions + x.writes && (s.db.executions + x.writes)[id].revision == x.revision
                  ==> !Active((s.db.executions + x.writes)[id].status))
            && (forall v, id :: v in s.sessions && v != w && id in s.sessions[v].writes
                  ==> s.sessions[v].writes[id].revision != x.revision)
  {
    hide Sound;
    var x := s.sessions[w];
    Runs.SessionFacts(keys, s, w);
    var t := Slice(s.db.executions, x.revision);
    forall id | id in s.db.executions + x.writes && (s.db.executions + x.writes)[id].revision == x.revision
      ensures !Active((s.db.executions + x.writes)[id].status)
    {
      if id !in x.writes {
        assert id in t + x.writes;
      }
    }
    forall v, id | v in s.sessions && v != w && id in s.sessions[v].writes
      ensures s.sessions[v].writes[id].revision != x.revision
    {
      Runs.OneSessionPerRevision(keys, s, v, w);
      Runs.SessionFacts(keys, s, v);
    }
  }

  // ---------------------------------------------------------- Retry chains

  /** The execution, its parent, its parent's parent, and so on. */
  function Lineage(t: Table, id: int): seq<int>
    requires Chained(t) && id in t
    decreases t[id].attempt
  {
    match t[id].parent
    case None => [id]
    case Some(p) => [id] + Lineage(t, p)
  }

  lemma {:induction false} LineageIsAttempts(t: Table, id: int)
    requires Chained(t) && id in t
    ensures var l := Lineage(t, id);
            && |l| == t[id].attempt && l[0] == id
            && (forall k :: 0 <= k < |l| ==> l[k] in t && t[l[k]].attempt == t[id].attempt - k)
            && t[l[|l| - 1]].parent == None
            && (forall k :: 1 <= k < |l| ==> Terminal(t[l[k]].status))
            && (forall k :: 0 <= k < |l| - 1 ==> t[l[k]].parent == Some(l[k + 1]))
    decreases t[id].attempt
  {
    if t[id].parent.Some? {
      LineageIsAttempts(t, t[id].parent.value);
    }
  }

  /** A chain is linear, as long as its attempt number, and over below its head. */
  ghost predicate ChainedBack(s: State, id: int)
    requires id in s.db.executions
  {
    var t := Slice(s.db.executions, s.db.executions[id].revision);
    && Sound(t)
    && var l := Lineage(t, id);
       && |l| == t[id].attempt && l[0] == id
       && (forall k :: 0 <= k < |l| ==> l[k] in t && t[l[k]].attempt == |l| - k)
       && (forall k :: 1 <= k < |l| ==> Terminal(t[l[k]].status))
       && (forall k :: 0 <= k < |l| - 1 ==> t[l[k]].parent == Some(l[k + 1]))
       && t[l[|l| - 1]].parent == None
  }

  lemma SoundChains(s: State, id: int)
    requires SlicesSound(s.db.executions) && id in s.db.executions
    ensures ChainedBack(s, id)
  {
    var t := Slice(s.db.executions, s.db.executions[id].revision);
    assert Sound(t);
    LineageIsAttempts(t, id);
  }

  /**
   * In every reachable state a retry chain stays in its revision, is as long as the
   * attempt number, drops one attempt per link to a root with attempt 1, and only its
   * head may still be active; and no execution is retried twice.
   */
  lemma ChainsAlways(c: Config, rules: Rules, decisions: set<(int, int)>, states: seq<State>, steps: seq<Step>, i: nat, id: int)
    requires Run(c, rules, states, steps) && Runs.OneLock(c, rules.callers)
    requires states[0] == EmptyState(decisions) && i < |states| && id in states[i].db.executions
    ensures ChainedBack(states[i], id)
  {
    var keys := Runs.RunIsSound(c, rules, decisions, states, steps, i);
    SoundChains(states[i], id);
  }

  // ------------------------------------------------------- All or nothing

  ghost predicate LedgerNamesCompleted(s: State) {
    forall i :: 0 <= i < |s.db.ledger| && s.db.ledger[i].execution.Some? ==>
      var e := s.db.ledger[i].execution.value;
      e in s.db.executions && s.db.executions[e].status == Completed
  }

  /** No transaction or mark is under way, and what was handed out has not been learned from. */
  ghost predicate Quiet(s: State) {
    && s.sessions == map[] && s.marks == {}
    && (forall id :: id in s.handles ==> id in s.db.executions && !InLedger(s, id))
    && LedgerNamesCompleted(s)
    && (forall id :: id in s.db.executions ==>
          s.db.executions[id].id == id && s.db.executions[id].revision in s.db.revisions)
    && OneActivePerRevision(s)
  }

  ghost predicate NoPending(s: State) {
    forall id :: id in s.db.executions ==> s.db.executions[id].status != Pending
  }

  lemma FreshNamesCompleted(s: State)
    requires FreshInv(s)
    ensures LedgerNamesCompleted(s)
  {
    forall i | 0 <= i < |s.db.ledger| && s.db.ledger[i].execution.Some?
      ensures var e := s.db.ledger[i].execution.value;
              e in s.db.executions && s.db.executions[e].status == Completed
    {
      assert InLedger(s, s.db.ledger[i].execution.value);
    }
  }

  lemma QuietIsFresh(s: State)
    requires Quiet(s) && NoPending(s)
    ensures FreshInv(s)
  {
  }

  /**
   * A Phase 2 run that raises leaves no trace: its rollback changes no table, and no
   * fail mark, then or later, changes one either.
   */
  lemma RaisedRunLeavesNoTrace(c: Config, rules: Rules, states: seq<State>, steps: seq<Step>, i: nat)
    requires Run(c, rules, states, steps) && !rules.strays && !rules.lostCommits
    requires Quiet(states[0]) && NoPending(states[0])
    requires i < |steps| && (steps[i].Abort? || steps[i].FailMark?)
    ensures states[i + 1].db == states[i].db
  {
    QuietIsFresh(states[0]);
    RunFresh(c, rules, states, steps, i);
    assert Enabled(c, states[i], steps[i]);
    if steps[i].FailMark? {
      assert steps[i].id !in states[i].db.executions;
    }
  }

  // --------------------------------------------------------- Building runs

  ghost predicate Reaches(c: Config, rules: Rules, s: State, t: State) {
    exists states, steps :: Run(c, rules, states, steps) && states[0] == s && states[|states| - 1] == t
  }

  lemma ReachesSelf(c: Config, rules: Rules, s: State)
    ensures Reaches(c, rules, s, s)
  {
    var states: seq<State>, steps: seq<Step> := [s], [];
    assert Run(c, rules, states, steps);
    assert states[0] == s && states[|states| - 1] == s;
  }

  lemma ReachStep(c: Config, rules: Rules, s: State, t: State, step: Step)
    requires Reaches(c, rules, s, t) && Enabled(c, t, step) && Allowed(rules, t, step)
    ensures Reaches(c, rules, s, Apply(c, t, step))
  {
    hide Enabled, Apply, Allowed;
    var states, steps :| Run(c, rules, states, steps) && states[0] == s && states[|states| - 1] == t;
    var states', steps' := states + [Apply(c, t, step)], steps + [step];
    assert Run(c, rules, states', steps') by {
      forall i | 0 <= i < |steps'|
        ensures Enabled(c, states'[i], steps'[i]) && Allowed(rules, states'[i], steps'[i])
        ensures states'[i + 1] == Apply(c, states'[i], steps'[i])
      {
        if i < |steps| {
          assert Enabled(c, states[i], steps[i]);
        }
      }
    }
    assert states'[0] == s && states'[|states'| - 1] == Apply(c, t, step);
  }

  lemma {:induction false} ReachRun(c: Config, rules: Rules, s: State, states: seq<State>, steps: seq<Step>, i: nat)
    requires Run(c, rules, states, steps) && Reaches(c, rules, s, states[0]) && i < |states|
    ensures Reaches(c, rules, s, states[i])
    decreases i
  {
    hide Enabled, Apply, Allowed, Reaches;
    if i > 0 {
      ReachRun(c, rules, s, states, steps, i - 1);
      assert Enabled(c, states[i - 1], steps[i - 1]);
      ReachStep(c, rules, s, states[i - 1], steps[i - 1]);
    }
  }

  lemma ReachOn(c: Config, rules: Rules, s: State, t: State, u: State)
    requires Reaches(c, rules, s, t) && Reaches(c, rules, t, u)
    ensures Reaches(c, rules, s, u)
  {
    var states, steps :| Run(c, rules, states, steps) && states[0] == t && states[|states| - 1] == u;
    ReachRun(c, rules, s, states, steps, |states| - 1);
  }

  lemma Moved(c: Config, rules: Rules, s: State, t: State, step: Step) returns (t': State)
    requires Reaches(c, rules, s, t) && Enabled(c, t, step) && Allowed(rules, t, step)
    ensures t' == Apply(c, t, step) && Reaches(c, rules, s, t')
  {
    ReachStep(c, rules, s, t, step);
    t' := Apply(c, t, step);
  }
}
