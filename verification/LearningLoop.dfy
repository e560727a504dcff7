/**
 * The pure part of the H3 loop in libs/memory/learning_loop.py: which artifacts a
 * decision touches, and which learning signals are persisted for it.
 */
module LearningLoop {
  import opened Prelude
  import opened Attribution
  import opened Ledger

  // ------------------------------------------------------ Affected artifacts

  datatype Affected = Affected(patterns: set<int>, contexts: set<int>, insights: set<int>)

  function PatternsAt(ids: seq<int>, patterns: map<int, Pattern>): seq<Pattern> {
    if ids == [] then []
    else
      var p := ids[|ids| - 1];
      PatternsAt(ids[..|ids| - 1], patterns) + (if p in patterns then [patterns[p]] else [])
  }

  /** The patterns a decision leads to, whether or not it has actual outcomes. */
  function ReachedPatterns(d: Decision, ix: Indexes): seq<Pattern> {
    match Get(ix.0, d.recommendation)
    case None => []
    case Some(r) =>
      match Get(ix.1, r.hypothesis)
      case None => []
      case Some(h) => PatternsAt(h.patterns, ix.2)
  }

  function PatternIds(patterns: seq<Pattern>): set<int> {
    set p | p in patterns :: p.id
  }

  function ContextIds(patterns: seq<Pattern>): set<int> {
    set p | p in patterns && p.context.Some? :: p.context.value
  }

  /** The insight of the recommendation, which is looked at only once a hypothesis was found. */
  function ReachedInsights(d: Decision, ix: Indexes): set<int> {
    match Get(ix.0, d.recommendation)
    case None => {}
    case Some(r) => if Get(ix.1, r.hypothesis).Some? && r.insight.Some? then {r.insight.value} else {}
  }

  function AffectedBy(d: Decision, ix: Indexes): Affected {
    var reached := ReachedPatterns(d, ix);
    Affected(PatternIds(reached), ContextIds(reached), ReachedInsights(d, ix))
  }

  lemma OneMorePattern(patterns: seq<Pattern>, p: Pattern)
    ensures PatternIds(patterns + [p]) == PatternIds(patterns) + {p.id}
    ensures ContextIds(patterns + [p]) == ContextIds(patterns) + (if p.context.Some? then {p.context.value} else {})
  {
    var more := patterns + [p];
    assert forall x :: x in more <==> x in patterns || x == p;
  }

  /** _trace_decision_to_artifacts_bundle, for any decision. */
  method TraceDecisionToArtifacts(d: Decision, recommendations: seq<Recommendation>, hypotheses: seq<Hypothesis>, patterns: seq<Pattern>)
    returns (affected: Affected)
    ensures affected == AffectedBy(d, IndexesOf(recommendations, hypotheses, patterns))
  {
    hide IndexesOf;
    var affectedPatterns, affectedContexts, affectedInsights: set<int> := {}, {}, {};
    var index := BuildIndexes(recommendations, hypotheses, patterns);
    var rec := Get(index.0, d.recommendation);
    if rec == None {
      return Affected({}, {}, {});
    }
    var hyp := Get(index.1, rec.value.hypothesis);
    if hyp == None {
      return Affected({}, {}, {});
    }
    var ids := hyp.value.patterns;
    for k := 0 to |ids|
      invariant affectedPatterns == PatternIds(PatternsAt(ids[..k], index.2))
      invariant affectedContexts == ContextIds(PatternsAt(ids[..k], index.2))
    {
      assert ids[..k + 1][..k] == ids[..k];
      var pattern := Get(index.2, Some(ids[k]));
      if pattern == None {
        continue;
      }
      OneMorePattern(PatternsAt(ids[..k], index.2), pattern.value);
      affectedPatterns := affectedPatterns + {pattern.value.id};
      if pattern.value.context.Some? {
        affectedContexts := affectedContexts + {pattern.value.context.value};
      }
    }
    assert ids[..|ids|] == ids;
    if rec.value.insight.Some? {
      affectedInsights := {rec.value.insight.value};
    }
    affected := Affected(affectedPatterns, affectedContexts, affectedInsights);
  }

  lemma {:induction false} ArrivalsFollowPatterns(count: Count, ids: seq<int>, patterns: map<int, Pattern>)
    ensures |ArriveAt(count, ids, patterns)| == |PatternsAt(ids, patterns)|
    ensures forall i :: 0 <= i < |PatternsAt(ids, patterns)| ==> ArriveAt(count, ids, patterns)[i].pattern == PatternsAt(ids, patterns)[i]
    decreases |ids|
  {
    if ids != [] {
      ArrivalsFollowPatterns(count, ids[..|ids| - 1], patterns);
    }
  }

  /** Scoping and attribution agree: a decided decision affects exactly the patterns it is credited to, one by one. */
  lemma AffectedAreCredited(d: Decision, ix: Indexes)
    requires d.verdict.Some?
    ensures |Arrivals(d, ix)| == |ReachedPatterns(d, ix)|
    ensures forall i :: 0 <= i < |ReachedPatterns(d, ix)| ==> Arrivals(d, ix)[i].pattern == ReachedPatterns(d, ix)[i]
  {
    var r := Get(ix.0, d.recommendation);
    if r.Some? && Get(ix.1, r.value.hypothesis).Some? {
      ArrivalsFollowPatterns(Contribution(d.verdict.value), Get(ix.1, r.value.hypothesis).value.patterns, ix.2);
    }
  }

  // ----------------------------------------------------------------- Signals

  /** A computed result for one artifact, with the signal and provenance made from it. */
  datatype Finding = Finding(id: int, content: string, provenance: string)

  datatype Reports = Reports(patterns: seq<Finding>, contexts: seq<Finding>, insights: seq<Finding>)

  function SignalOf(target: string, f: Finding): Signal {
    Signal(target, f.id, f.content, f.provenance)
  }

  function Selected(target: string, findings: seq<Finding>, affected: set<int>): seq<Signal> {
    if findings == [] then []
    else
      var f := findings[|findings| - 1];
      Selected(target, findings[..|findings| - 1], affected) + (if f.id in affected then [SignalOf(target, f)] else [])
  }

  function Signals(decision: Finding, reports: Reports, affected: Affected): seq<Signal> {
    [SignalOf("decision", decision)]
    + Selected("pattern", reports.patterns, affected.patterns)
    + Selected("context", reports.contexts, affected.contexts)
    + Selected("insight", reports.insights, affected.insights)
  }

  method Select(target: string, findings: seq<Finding>, affected: set<int>) returns (signals: seq<Signal>)
    ensures signals == Selected(target, findings, affected)
  {
    signals := [];
    for i := 0 to |findings|
      invariant signals == Selected(target, findings[..i], affected)
    {
      assert findings[..i + 1][..i] == findings[..i];
      if findings[i].id !in affected {
        continue;
      }
      signals := signals + [SignalOf(target, findings[i])];
    }
    assert findings[..|findings|] == findings;
  }

  /** _compute_learning_signals. */
  method ComputeLearningSignals(decision: Finding, reports: Reports, affected: Affected) returns (signals: seq<Signal>)
    ensures signals == Signals(decision, reports, affected)
  {
    signals := [SignalOf("decision", decision)];
    var more := Select("pattern", reports.patterns, affected.patterns);
    signals := signals + more;
    more := Select("context", reports.contexts, affected.contexts);
    signals := signals + more;
    more := Select("insight", reports.insights, affected.insights);
    signals := signals + more;
  }

  lemma {:induction false} SelectedMeaning(target: string, findings: seq<Finding>, affected: set<int>)
    ensures forall s :: s in Selected(target, findings, affected)
              <==> exists f :: f in findings && f.id in affected && s == SignalOf(target, f)
    ensures |Selected(target, findings, affected)| <= |findings|
    decreases |findings|
  {
    if findings != [] {
      var init := findings[..|findings| - 1];
      var last := findings[|findings| - 1];
      SelectedMeaning(target, init, affected);
      assert findings == init + [last];
      forall s
        ensures s in Selected(target, findings, affected)
                <==> exists f :: f in findings && f.id in affected && s == SignalOf(target, f)
      {
        if last.id in affected && s == SignalOf(target, last) {
          assert last in findings;
        }
        if f :| f in init && f.id in affected && s == SignalOf(target, f) {
          assert f in findings;
        }
      }
    }
  }

  /**
   * Learning is scoped to the decision: besides the decision's own signal there is one
   * signal for each reported artifact the decision affects and none for any other, and
   * the ledger accepts every target type.
   */
  lemma SignalsAreScoped(decision: Finding, reports: Reports, affected: Affected, s: Signal)
    ensures s in Signals(decision, reports, affected) <==>
              || s == SignalOf("decision", decision)
              || (exists f :: f in reports.patterns && f.id in affected.patterns && s == SignalOf("pattern", f))
              || (exists f :: f in reports.contexts && f.id in affected.contexts && s == SignalOf("context", f))
              || (exists f :: f in reports.insights && f.id in affected.insights && s == SignalOf("insight", f))
    ensures s in Signals(decision, reports, affected) ==> s.targetType in TARGET_TYPES
  {
    SelectedMeaning("pattern", reports.patterns, affected.patterns);
    SelectedMeaning("context", reports.contexts, affected.contexts);
    SelectedMeaning("insight", reports.insights, affected.insights);
  }

  /** How many findings are about affected artifacts. */
  function Hits(findings: seq<Finding>, affected: set<int>): nat {
    if findings == [] then 0
    else Hits(findings[..|findings| - 1], affected) + (if findings[|findings| - 1].id in affected then 1 else 0)
  }

  lemma {:induction false} SelectedCount(target: string, findings: seq<Finding>, affected: set<int>)
    ensures |Selected(target, findings, affected)| == Hits(findings, affected)
    decreases |findings|
  {
    if findings != [] {
      SelectedCount(target, findings[..|findings| - 1], affected);
    }
  }

  /** One signal for the decision and one for each finding about an affected artifact. */
  lemma SignalCount(decision: Finding, reports: Reports, affected: Affected)
    ensures |Signals(decision, reports, affected)|
         == 1 + Hits(reports.patterns, affected.patterns) + Hits(reports.contexts, affected.contexts) + Hits(reports.insights, affected.insights)
  {
    SelectedCount("pattern", reports.patterns, affected.patterns);
    SelectedCount("context", reports.contexts, affected.contexts);
    SelectedCount("insight", reports.insights, affected.insights);
  }

  ghost predicate DistinctIds(findings: seq<Finding>) {
    forall i, j :: 0 <= i < j < |findings| ==> findings[i].id != findings[j].id
  }

  ghost predicate DistinctTargets(signals: seq<Signal>) {
    forall i, j :: 0 <= i < j < |signals| ==> (signals[i].targetType, signals[i].targetId) != (signals[j].targetType, signals[j].targetId)
  }

  lemma {:induction false} SelectedTargets(target: string, findings: seq<Finding>, affected: set<int>)
    requires DistinctIds(findings)
    ensures DistinctTargets(Selected(target, findings, affected))
    ensures forall i :: 0 <= i < |Selected(target, findings, affected)| ==> Selected(target, findings, affected)[i].targetType == target
    decreases |findings|
  {
    if findings != [] {
      var init := findings[..|findings| - 1];
      assert forall i :: 0 <= i < |init| ==> init[i] == findings[i];
      SelectedTargets(target, init, affected);
      SelectedMeaning(target, init, affected);
      var before := Selected(target, init, affected);
      forall i | 0 <= i < |before|
        ensures before[i].targetId != findings[|findings| - 1].id
      {
        assert before[i] in before;
        var f :| f in init && before[i] == SignalOf(target, f);
      }
    }
  }

  /** When each report has one finding per artifact, no artifact gets two signals. */
  lemma OneSignalPerArtifact(decision: Finding, reports: Reports, affected: Affected)
    requires DistinctIds(reports.patterns) && DistinctIds(reports.contexts) && DistinctIds(reports.insights)
    ensures DistinctTargets(Signals(decision, reports, affected))
  {
    SelectedTargets("pattern", reports.patterns, affected.patterns);
    SelectedTargets("context", reports.contexts, affected.contexts);
    SelectedTargets("insight", reports.insights, affected.insights);
  }

  lemma {:induction false} OwnArrivalsCount(decisions: seq<Decision>, ix: Indexes, d: Decision)
    requires d in decisions
    ensures forall a :: a in Arrivals(d, ix) ==> a in AllArrivals(decisions, ix)
    decreases |decisions|
  {
    var init := decisions[..|decisions| - 1];
    assert decisions == init + [decisions[|decisions| - 1]];
    if d in init {
      OwnArrivalsCount(init, ix, d);
    }
  }

  /** An affected pattern comes from an arrival of the decision. */
  lemma AffectedArrives(d: Decision, ix: Indexes, p: int) returns (a: Arrival)
    requires d.verdict.Some? && p in AffectedBy(d, ix).patterns
    ensures a in Arrivals(d, ix) && a.pattern.id == p
  {
    AffectedAreCredited(d, ix);
    hide Arrivals;
    var reached := ReachedPatterns(d, ix);
    hide ReachedPatterns, ContextIds, ReachedInsights;
    var k := PositionOf(reached, p);
    a := Arrivals(d, ix)[k];
  }

  lemma PositionOf(patterns: seq<Pattern>, p: int) returns (k: nat)
    requires p in PatternIds(patterns)
    ensures k < |patterns| && patterns[k].id == p
  {
    var q :| q in patterns && q.id == p;
    k :| 0 <= k < |patterns| && patterns[k] == q;
  }

  lemma AffectedContextArrives(d: Decision, ix: Indexes, c: int) returns (a: Arrival)
    requires d.verdict.Some? && c in AffectedBy(d, ix).contexts
    ensures a in Arrivals(d, ix) && a.pattern.context == Some(c)
  {
    AffectedAreCredited(d, ix);
    hide Arrivals;
    var reached := ReachedPatterns(d, ix);
    hide ReachedPatterns, PatternIds, ReachedInsights;
    var k := PositionIn(reached, c);
    a := Arrivals(d, ix)[k];
  }

  lemma PositionIn(patterns: seq<Pattern>, c: int) returns (k: nat)
    requires c in ContextIds(patterns)
    ensures k < |patterns| && patterns[k].context == Some(c)
  {
    var q :| q in patterns && q.context == Some(c);
    k :| 0 <= k < |patterns| && patterns[k] == q;
  }

  lemma ArrivalOccursInContext(arrivals: seq<Arrival>, a: Arrival, c: int)
    requires a in arrivals && a.pattern.context == Some(c)
    ensures Occurs(arrivals, ByContext, c)
  {
    var i :| 0 <= i < |arrivals| && arrivals[i] == a;
    assert ByContext(arrivals[i].pattern) == Some(c);
  }

  lemma ArrivalOccurs(arrivals: seq<Arrival>, a: Arrival)
    requires a in arrivals
    ensures Occurs(arrivals, ById, a.pattern.id)
  {
    var i :| 0 <= i < |arrivals| && arrivals[i] == a;
    assert ById(arrivals[i].pattern) == Some(a.pattern.id);
  }
}
