/**
 * The computation inside a Phase 2 run: the reports of libs/memory/pattern_refinement.py,
 * context_revision.py and insight_transformation.py over a tenant's tables, and the
 * signals drawn from them for one decision. The texts of the results are arbitrary.
 */
module LearningReports {
  import opened Prelude
  import opened Rounding
  import opened Attribution
  import opened Refinement
  import opened Ledger
  import L = LearningLoop
  import C = Consolidation

  datatype DecisionRow = DecisionRow(outcomes: C.Decision, recommendation: Option<int>)
  datatype PatternRow = PatternRow(id: int, context: Option<int>, strength: real)

  /** competing: the names of the competing models, in order. */
  datatype ContextRow = ContextRow(id: int, competing: seq<string>)

  /** A mental-model update: whether the dictionary is empty, and its str(). */
  datatype Update = Update(empty: bool, text: string)
  datatype InsightRow = InsightRow(id: int, prior: Option<string>, update: Option<Update>)

  /** What the readers return: the decision itself, and the listed rows of each table. */
  datatype Tables = Tables(own: Option<DecisionRow>, decisions: seq<DecisionRow>, recommendations: seq<Recommendation>,
                           hypotheses: seq<Hypothesis>, patterns: seq<PatternRow>, contexts: seq<ContextRow>, insights: seq<InsightRow>)

  datatype PatternResult = PatternResult(pattern: PatternRow, count: Count, ratio: real, action: Action, strength: real)
  datatype ContextResult = ContextResult(context: ContextRow, count: Count, ratio: real, revision: Revision, suggested: Option<string>)
  datatype Kind = Revised | Stable | Unchanged
  datatype InsightResult = InsightResult(insight: InsightRow, kind: Kind, linkedRecommendations: nat, count: Count)

  /** Python's conversions, and the content and provenance texts of each result. */
  datatype Env = Env(outcomes: C.Env, strip: string -> string, decision: C.Consolidated -> (string, string),
                     pattern: PatternResult -> (string, string), context: ContextResult -> (string, string),
                     insight: InsightResult -> (string, string))

  const NOT_FOUND := "decision not found"
  const NO_CONTEXT := "pattern without a context"

  // ---------------------------------------------------------------- Verdicts

  /** _DecisionView: it has no outcome status, so a pending decision is consolidated like any other. */
  function View(d: DecisionRow): C.Decision {
    d.outcomes.(outcomeStatus := None)
  }

  function Credited(env: Env, d: DecisionRow): Decision {
    var c := C.Consolidation(env.outcomes, View(d));
    Decision(d.recommendation,
             if C.Actuals(d.outcomes) == [] then None else Some((c.corroborated, c.contradicted, c.inconclusive)))
  }

  function CreditedAll(env: Env, ds: seq<DecisionRow>): (r: seq<Decision>)
    ensures |r| == |ds| && forall i :: 0 <= i < |ds| ==> r[i] == Credited(env, ds[i])
  {
    seq(|ds|, i requires 0 <= i < |ds| => Credited(env, ds[i]))
  }

  method Credit(env: Env, ds: seq<DecisionRow>) returns (r: seq<Decision>)
    ensures r == CreditedAll(env, ds)
  {
    hide C.Consolidation;
    r := [];
    for i := 0 to |ds|
      invariant r == CreditedAll(env, ds)[..i]
    {
      if C.Actuals(ds[i].outcomes) == [] {
        r := r + [Decision(ds[i].recommendation, None)];
      } else {
        var c := C.BuildConsolidation(env.outcomes, View(ds[i]));
        r := r + [Decision(ds[i].recommendation, Some((c.corroborated, c.contradicted, c.inconclusive)))];
      }
    }
  }

  function Counters(c: C.Consolidated): (nat, nat, nat) {
    (c.corroborated, c.contradicted, c.inconclusive)
  }

  lemma CountersOf(env: C.Env, d: C.Decision)
    ensures Counters(C.Consolidation(env, d))
         == (C.Count(C.Details(env, d), C.Corroborated), C.Count(C.Details(env, d), C.Contradicted), C.Count(C.Details(env, d), C.Inconclusive))
  {
    hide C.Count, C.Details, C.MatchedPredictions, C.MatchedOutcomes, C.Feedback, Round4;
  }

  lemma PendingCountsNothing(env: C.Env, d: C.Decision)
    requires C.IsPending(d)
    ensures Counters(C.Consolidation(env, d)) == (0, 0, |d.expected|)
  {
    CountersOf(env, d);
    C.NothingCounts(|d.expected|);
    hide C.Consolidation, C.Count;
  }

  lemma CountersAddUp(env: C.Env, d: C.Decision)
    ensures var (corroborated, contradicted, inconclusive) := Counters(C.Consolidation(env, d));
            corroborated + contradicted + inconclusive == |d.expected|
  {
    C.ConsolidationConserves(env, d);
    hide C.Consolidation;
  }

  lemma SameDetails(env: Env, d: DecisionRow)
    requires !C.IsPending(d.outcomes)
    ensures C.Details(env.outcomes, d.outcomes) == C.Details(env.outcomes, View(d))
  {
    hide C.DetailsOf, C.ActualByMetric;
  }

  /**
   * The pending status that consolidation respects elsewhere is not respected here: the
   * counters agree exactly when the decision is not pending or nothing would be counted.
   */
  lemma PendingIsCountedIff(env: Env, d: DecisionRow)
    ensures var viewed := C.Consolidation(env.outcomes, View(d));
            Counters(C.Consolidation(env.outcomes, d.outcomes)) == Counters(viewed)
            <==> !C.IsPending(d.outcomes) || viewed.corroborated + viewed.contradicted == 0
  {
    hide C.Consolidation, C.Details, C.Count;
    CountersAddUp(env.outcomes, View(d));
    if C.IsPending(d.outcomes) {
      PendingCountsNothing(env.outcomes, d.outcomes);
    } else {
      CountersOf(env.outcomes, d.outcomes);
      CountersOf(env.outcomes, View(d));
      SameDetails(env, d);
    }
  }

  // ---------------------------------------------------------------- Patterns

  function ToPattern(p: PatternRow): Pattern {
    Pattern(p.id, p.context)
  }

  function ToPatterns(rows: seq<PatternRow>): (r: seq<Pattern>)
    ensures |r| == |rows| && forall i :: 0 <= i < |rows| ==> r[i] == ToPattern(rows[i])
  {
    seq(|rows|, i requires 0 <= i < |rows| => ToPattern(rows[i]))
  }

  function IndexesFor(t: Tables): Indexes {
    IndexesOf(t.recommendations, t.hypotheses, ToPatterns(t.patterns))
  }

  /** The listed decisions' counts arriving at patterns. */
  function ArrivalsFor(env: Env, t: Tables): seq<Arrival> {
    AllArrivals(CreditedAll(env, t.decisions), IndexesFor(t))
  }

  function Refine(p: PatternRow, a: Count): PatternResult {
    var (action, strength) := RefinePattern(p.strength, a);
    PatternResult(p, a, Round4(Ratio(a)), action, strength)
  }

  /** One result for each listed pattern that some decision is credited to, in order. */
  ghost function PatternResults(rows: seq<PatternRow>, arrivals: seq<Arrival>): seq<PatternResult> {
    if rows == [] then []
    else
      var p := rows[|rows| - 1];
      PatternResults(rows[..|rows| - 1], arrivals)
      + (if Occurs(arrivals, ById, p.id) then [Refine(p, Total(arrivals, ById, p.id))] else [])
  }

  /** The context id of every result is parsed, and None is no id. */
  ghost predicate Parses(rows: seq<PatternRow>, arrivals: seq<Arrival>) {
    forall i :: 0 <= i < |rows| && Occurs(arrivals, ById, rows[i].id) ==> rows[i].context.Some?
  }

  method BuildPatternRefinement(env: Env, t: Tables, credited: seq<Decision>) returns (r: Result<seq<PatternResult>, string>)
    requires credited == CreditedAll(env, t.decisions)
    ensures r == if Parses(t.patterns, ArrivalsFor(env, t)) then Ok(PatternResults(t.patterns, ArrivalsFor(env, t))) else Err(NO_CONTEXT)
  {
    hide CreditedAll, IndexesOf, AllArrivals, Refine;
    ghost var arrivals := ArrivalsFor(env, t);
    var attribution := AttributeOutcomes(credited, t.recommendations, t.hypotheses, ToPatterns(t.patterns));
    var results := [];
    for i := 0 to |t.patterns|
      invariant results == PatternResults(t.patterns[..i], arrivals) && Parses(t.patterns[..i], arrivals)
    {
      assert t.patterns[..i + 1][..i] == t.patterns[..i];
      var p := t.patterns[i];
      if p.id !in attribution {
        continue;
      }
      if p.context == None {
        return Err(NO_CONTEXT);
      }
      results := results + [Refine(p, attribution[p.id])];
    }
    assert t.patterns[..|t.patterns|] == t.patterns;
    r := Ok(results);
  }

  // ---------------------------------------------------------------- Contexts

  function Revise(c: ContextRow, a: Count): ContextResult {
    var revision := ReviseContext(c.competing != [], a);
    ContextResult(c, a, Round4(Ratio(a)), revision, if revision == ConsiderCompetitor && c.competing != [] then Some(c.competing[0]) else None)
  }

  ghost function ContextResults(rows: seq<ContextRow>, arrivals: seq<Arrival>): seq<ContextResult> {
    if rows == [] then []
    else
      var c := rows[|rows| - 1];
      ContextResults(rows[..|rows| - 1], arrivals)
      + (if Occurs(arrivals, ByContext, c.id) then [Revise(c, Total(arrivals, ByContext, c.id))] else [])
  }

  method BuildContextRevision(env: Env, t: Tables, credited: seq<Decision>) returns (results: seq<ContextResult>)
    requires credited == CreditedAll(env, t.decisions)
    ensures results == ContextResults(t.contexts, ArrivalsFor(env, t))
  {
    hide CreditedAll, IndexesOf, AllArrivals, Revise;
    ghost var arrivals := ArrivalsFor(env, t);
    var attribution := AttributeOutcomesToContexts(credited, t.recommendations, t.hypotheses, ToPatterns(t.patterns));
    results := [];
    for i := 0 to |t.contexts|
      invariant results == ContextResults(t.contexts[..i], arrivals)
    {
      assert t.contexts[..i + 1][..i] == t.contexts[..i];
      var c := t.contexts[i];
      if c.id !in attribution {
        continue;
      }
      results := results + [Revise(c, attribution[c.id])];
    }
    assert t.contexts[..|t.contexts|] == t.contexts;
  }

  // ---------------------------------------------------------------- Insights

  /** The insight a decision's counts go to. */
  function InsightOf(d: Decision, recommendations: map<int, Recommendation>): Option<int> {
    match Get(recommendations, d.recommendation)
    case None => None
    case Some(r) => if d.verdict.Some? then r.insight else None
  }

  function InsightTotal(ds: seq<Decision>, recommendations: map<int, Recommendation>, x: int): Count {
    if ds == [] then ZERO
    else
      var d := ds[|ds| - 1];
      var rest := InsightTotal(ds[..|ds| - 1], recommendations, x);
      if d.verdict.Some? && InsightOf(d, recommendations) == Some(x) then Plus(rest, Contribution(d.verdict.value)) else rest
  }

  /** A dictionary holds the totals of exactly the insights some decision is credited to. */
  ghost predicate InsightsGrouped(attribution: map<int, Count>, ds: seq<Decision>, recommendations: map<int, Recommendation>) {
    && (forall x :: x in attribution <==> InsightTotal(ds, recommendations, x).linked > 0)
    && (forall x :: x in attribution ==> attribution[x] == InsightTotal(ds, recommendations, x))
  }

  lemma {:induction false} NotLinkedIsZero(ds: seq<Decision>, recommendations: map<int, Recommendation>, x: int)
    ensures InsightTotal(ds, recommendations, x).linked == 0 ==> InsightTotal(ds, recommendations, x) == ZERO
    decreases |ds|
  {
    if ds != [] {
      NotLinkedIsZero(ds[..|ds| - 1], recommendations, x);
    }
  }

  lemma OneMoreDecision(ds: seq<Decision>, d: Decision, recommendations: map<int, Recommendation>, x: int)
    ensures InsightTotal(ds + [d], recommendations, x)
         == if d.verdict.Some? && InsightOf(d, recommendations) == Some(x)
            then Plus(InsightTotal(ds, recommendations, x), Contribution(d.verdict.value)) else InsightTotal(ds, recommendations, x)
  {
    assert (ds + [d])[..|ds|] == ds;
  }

  lemma BumpInsight(attribution: map<int, Count>, ds: seq<Decision>, d: Decision, recommendations: map<int, Recommendation>)
    requires InsightsGrouped(attribution, ds, recommendations)
    ensures InsightOf(d, recommendations) == None ==> InsightsGrouped(attribution, ds + [d], recommendations)
    ensures InsightOf(d, recommendations).Some? ==>
              InsightsGrouped(Bump(attribution, InsightOf(d, recommendations).value, Contribution(d.verdict.value)), ds + [d], recommendations)
  {
    hide InsightTotal;
    forall x
      ensures InsightTotal(ds + [d], recommendations, x)
           == if d.verdict.Some? && InsightOf(d, recommendations) == Some(x)
              then Plus(InsightTotal(ds, recommendations, x), Contribution(d.verdict.value)) else InsightTotal(ds, recommendations, x)
      ensures InsightTotal(ds, recommendations, x).linked == 0 ==> InsightTotal(ds, recommendations, x) == ZERO
    {
      OneMoreDecision(ds, d, recommendations, x);
      NotLinkedIsZero(ds, recommendations, x);
    }
  }

  /** _attribute_outcomes_to_insights; it never looks at the hypothesis. */
  method AttributeOutcomesToInsights(decisions: seq<Decision>, recommendations: seq<Recommendation>) returns (attribution: map<int, Count>)
    ensures InsightsGrouped(attribution, decisions, IndexOf(recommendations, RecommendationId))
  {
    hide InsightsGrouped, IndexOf;
    var index := Index(recommendations, RecommendationId);
    attribution := map[];
    NoInsights(index);
    for i := 0 to |decisions|
      invariant InsightsGrouped(attribution, decisions[..i], index)
    {
      var d := decisions[i];
      assert decisions[..i + 1] == decisions[..i] + [d];
      BumpInsight(attribution, decisions[..i], d, index);
      if d.verdict == None {
        continue;
      }
      var rec := Get(index, d.recommendation);
      if rec == None {
        continue;
      }
      if rec.value.insight == None {
        continue;
      }
      attribution := Bump(attribution, rec.value.insight.value, Contribution(d.verdict.value));
    }
    assert decisions[..|decisions|] == decisions;
  }

  lemma NoInsights(recommendations: map<int, Recommendation>)
    ensures InsightsGrouped(map[], [], recommendations)
  {
  }

  function RecommendationsOf(recommendations: seq<Recommendation>, x: int): nat {
    if recommendations == [] then 0
    else RecommendationsOf(recommendations[..|recommendations| - 1], x) + (if recommendations[|recommendations| - 1].insight == Some(x) then 1 else 0)
  }

  method CountRecommendations(recommendations: seq<Recommendation>) returns (counts: map<int, nat>)
    ensures forall x :: RecommendationsOf(recommendations, x) == if x in counts then counts[x] else 0
  {
    counts := map[];
    for i := 0 to |recommendations|
      invariant forall x :: RecommendationsOf(recommendations[..i], x) == if x in counts then counts[x] else 0
    {
      assert recommendations[..i + 1][..i] == recommendations[..i];
      var insight := recommendations[i].insight;
      if insight.Some? {
        counts := counts[insight.value := (if insight.value in counts then counts[insight.value] else 0) + 1];
      }
    }
    assert recommendations[..|recommendations|] == recommendations;
  }

  /** _classify_transformation. */
  function Classify(env: Env, prior: Option<string>, update: Option<Update>): Kind {
    var priorBlank := prior == None || prior == Some("");
    var updatedBlank := update == None || update.value.empty;
    if priorBlank && updatedBlank then Unchanged
    else if priorBlank || updatedBlank then Revised
    else if env.strip(prior.value) != env.strip(update.value.text) then Revised
    else Stable
  }

  /** _journal_insight: an insight without credit counts nothing. */
  function JournalInsight(env: Env, row: InsightRow, linked: nat, a: Count): InsightResult {
    InsightResult(row, Classify(env, row.prior, row.update), linked, a)
  }

  /** One result for every listed insight. */
  function InsightResults(env: Env, t: Tables): (rs: seq<InsightResult>)
    ensures |rs| == |t.insights|
    ensures forall i :: 0 <= i < |rs| ==>
              rs[i] == JournalInsight(env, t.insights[i], RecommendationsOf(t.recommendations, t.insights[i].id),
                                      InsightTotal(CreditedAll(env, t.decisions), IndexOf(t.recommendations, RecommendationId), t.insights[i].id))
  {
    var credited, index := CreditedAll(env, t.decisions), IndexOf(t.recommendations, RecommendationId);
    seq(|t.insights|, i requires 0 <= i < |t.insights| =>
      JournalInsight(env, t.insights[i], RecommendationsOf(t.recommendations, t.insights[i].id), InsightTotal(credited, index, t.insights[i].id)))
  }

  method BuildInsightTransformation(env: Env, t: Tables, credited: seq<Decision>) returns (results: seq<InsightResult>)
    requires credited == CreditedAll(env, t.decisions)
    ensures results == InsightResults(env, t)
  {
    hide CreditedAll, IndexOf, InsightTotal, RecommendationsOf, JournalInsight;
    var attribution := AttributeOutcomesToInsights(credited, t.recommendations);
    var counts := CountRecommendations(t.recommendations);
    results := [];
    for i := 0 to |t.insights|
      invariant results == InsightResults(env, t)[..i]
    {
      var row := t.insights[i];
      NotLinkedIsZero(credited, IndexOf(t.recommendations, RecommendationId), row.id);
      results := results + [JournalInsight(env, row, if row.id in counts then counts[row.id] else 0,
                                           if row.id in attribution then attribution[row.id] else ZERO)];
    }
  }

  // ----------------------------------------------------------------- Signals

  function Found(id: int, texts: (string, string)): L.Finding {
    L.Finding(id, texts.0, texts.1)
  }

  function PatternFindings(env: Env, rs: seq<PatternResult>): (fs: seq<L.Finding>)
    ensures |fs| == |rs| && forall i :: 0 <= i < |rs| ==> fs[i] == Found(rs[i].pattern.id, env.pattern(rs[i]))
  {
    seq(|rs|, i requires 0 <= i < |rs| => Found(rs[i].pattern.id, env.pattern(rs[i])))
  }

  function ContextFindings(env: Env, rs: seq<ContextResult>): (fs: seq<L.Finding>)
    ensures |fs| == |rs| && forall i :: 0 <= i < |rs| ==> fs[i] == Found(rs[i].context.id, env.context(rs[i]))
  {
    seq(|rs|, i requires 0 <= i < |rs| => Found(rs[i].context.id, env.context(rs[i])))
  }

  function InsightFindings(env: Env, rs: seq<InsightResult>): (fs: seq<L.Finding>)
    ensures |fs| == |rs| && forall i :: 0 <= i < |rs| ==> fs[i] == Found(rs[i].insight.id, env.insight(rs[i]))
  {
    seq(|rs|, i requires 0 <= i < |rs| => Found(rs[i].insight.id, env.insight(rs[i])))
  }

  function OwnFinding(env: Env, d: DecisionRow): L.Finding {
    var c := C.Consolidation(env.outcomes, View(d));
    Found(c.decision, env.decision(c))
  }

  ghost function ReportsFor(env: Env, t: Tables): L.Reports {
    var arrivals := ArrivalsFor(env, t);
    L.Reports(PatternFindings(env, PatternResults(t.patterns, arrivals)), ContextFindings(env, ContextResults(t.contexts, arrivals)),
              InsightFindings(env, InsightResults(env, t)))
  }

  /** The artifacts the decision's links lead to. */
  function AffectedFor(env: Env, t: Tables, own: DecisionRow): L.Affected {
    L.AffectedBy(Credited(env, own), IndexesFor(t))
  }

  /** What Phase 2 computes from the tables between its claim and its first insert. */
  ghost function Computed(env: Env, t: Tables): Result<seq<Signal>, string> {
    match t.own
    case None => Err(NOT_FOUND)
    case Some(own) =>
      if !Parses(t.patterns, ArrivalsFor(env, t)) then Err(NO_CONTEXT)
      else Ok(L.Signals(OwnFinding(env, own), ReportsFor(env, t), AffectedFor(env, t, own)))
  }

  /** Steps 2 and 3 of run_h3_learning_loop_for_decision. */
  method ComputeSignals(env: Env, t: Tables) returns (r: Result<seq<Signal>, string>)
    ensures r == Computed(env, t)
  {
    hide CreditedAll, C.Consolidation, PatternResults, ContextResults, InsightResults, L.Signals, L.AffectedBy, AllArrivals, IndexesOf, Parses;
    if t.own == None {
      return Err(NOT_FOUND);
    }
    var own := C.BuildConsolidation(env.outcomes, View(t.own.value));
    var credited := Credit(env, t.decisions);
    var patterns := BuildPatternRefinement(env, t, credited);
    if patterns.Err? {
      return Err(patterns.error);
    }
    var contexts := BuildContextRevision(env, t, credited);
    var insights := BuildInsightTransformation(env, t, credited);
    var mine := Credit(env, [t.own.value]);
    OneCredited(env, t.own.value);
    var affected := L.TraceDecisionToArtifacts(mine[0], t.recommendations, t.hypotheses, ToPatterns(t.patterns));
    var reports := L.Reports(PatternFindings(env, patterns.value), ContextFindings(env, contexts), InsightFindings(env, insights));
    var signals := L.ComputeLearningSignals(Found(own.decision, env.decision(own)), reports, affected);
    r := Ok(signals);
  }

  lemma OneCredited(env: Env, d: DecisionRow)
    ensures CreditedAll(env, [d]) == [Credited(env, d)]
  {
  }

  // ------------------------------------------------------- What is learned

  lemma {:induction false} PatternResultsAre(rows: seq<PatternRow>, arrivals: seq<Arrival>)
    ensures forall r :: r in PatternResults(rows, arrivals)
              <==> r.pattern in rows && Occurs(arrivals, ById, r.pattern.id) && r == Refine(r.pattern, Total(arrivals, ById, r.pattern.id))
    decreases |rows|
  {
    if rows != [] {
      var init, last := rows[..|rows| - 1], rows[|rows| - 1];
      PatternResultsAre(init, arrivals);
      assert rows == init + [last];
      hide Occurs, Total;
    }
  }

  lemma {:induction false} ContextResultsAre(rows: seq<ContextRow>, arrivals: seq<Arrival>)
    ensures forall r :: r in ContextResults(rows, arrivals)
              <==> r.context in rows && Occurs(arrivals, ByContext, r.context.id) && r == Revise(r.context, Total(arrivals, ByContext, r.context.id))
    decreases |rows|
  {
    if rows != [] {
      var init, last := rows[..|rows| - 1], rows[|rows| - 1];
      ContextResultsAre(init, arrivals);
      assert rows == init + [last];
      hide Occurs, Total;
    }
  }

  ghost predicate HasSignal(signals: seq<Signal>, target: string, x: int) {
    exists s :: s in signals && s.targetType == target && s.targetId == x
  }

  ghost predicate HasFinding(findings: seq<L.Finding>, x: int) {
    exists f :: f in findings && f.id == x
  }

  /** An artifact has a signal exactly when it is affected and reported. */
  lemma SignalIffFound(own: L.Finding, reports: L.Reports, affected: L.Affected, x: int)
    ensures var signals := L.Signals(own, reports, affected);
            && (HasSignal(signals, "pattern", x) <==> x in affected.patterns && HasFinding(reports.patterns, x))
            && (HasSignal(signals, "context", x) <==> x in affected.contexts && HasFinding(reports.contexts, x))
            && (HasSignal(signals, "insight", x) <==> x in affected.insights && HasFinding(reports.insights, x))
  {
    var signals := L.Signals(own, reports, affected);
    forall s: Signal
      ensures s in signals <==>
                || s == L.SignalOf("decision", own)
                || (exists f :: f in reports.patterns && f.id in affected.patterns && s == L.SignalOf("pattern", f))
                || (exists f :: f in reports.contexts && f.id in affected.contexts && s == L.SignalOf("context", f))
                || (exists f :: f in reports.insights && f.id in affected.insights && s == L.SignalOf("insight", f))
    {
      L.SignalsAreScoped(own, reports, affected, s);
    }
    hide L.Signals;
    if x in affected.patterns && HasFinding(reports.patterns, x) {
      var f :| f in reports.patterns && f.id == x;
      assert L.SignalOf("pattern", f) in signals;
    }
    if x in affected.contexts && HasFinding(reports.contexts, x) {
      var f :| f in reports.contexts && f.id == x;
      assert L.SignalOf("context", f) in signals;
    }
    if x in affected.insights && HasFinding(reports.insights, x) {
      var f :| f in reports.insights && f.id == x;
      assert L.SignalOf("insight", f) in signals;
    }
  }

  lemma PatternFoundIff(env: Env, rows: seq<PatternRow>, arrivals: seq<Arrival>, x: int)
    ensures HasFinding(PatternFindings(env, PatternResults(rows, arrivals)), x)
            <==> Occurs(arrivals, ById, x) && exists p :: p in rows && p.id == x
  {
    var rs := PatternResults(rows, arrivals);
    var fs := PatternFindings(env, rs);
    PatternResultsAre(rows, arrivals);
    hide PatternResults, Occurs, Total;
    if HasFinding(fs, x) {
      var f :| f in fs && f.id == x;
      var i :| 0 <= i < |fs| && fs[i] == f;
      assert rs[i] in rs && rs[i].pattern.id == x;
    }
    if Occurs(arrivals, ById, x) && exists p :: p in rows && p.id == x {
      var p :| p in rows && p.id == x;
      var r := Refine(p, Total(arrivals, ById, x));
      assert r in rs;
      var i :| 0 <= i < |rs| && rs[i] == r;
      assert fs[i] in fs && fs[i].id == x;
    }
  }

  lemma ContextFoundIff(env: Env, rows: seq<ContextRow>, arrivals: seq<Arrival>, x: int)
    ensures HasFinding(ContextFindings(env, ContextResults(rows, arrivals)), x)
            <==> Occurs(arrivals, ByContext, x) && exists c :: c in rows && c.id == x
  {
    var rs := ContextResults(rows, arrivals);
    var fs := ContextFindings(env, rs);
    ContextResultsAre(rows, arrivals);
    hide ContextResults, Occurs, Total;
    if HasFinding(fs, x) {
      var f :| f in fs && f.id == x;
      var i :| 0 <= i < |fs| && fs[i] == f;
      assert rs[i] in rs && rs[i].context.id == x;
    }
    if Occurs(arrivals, ByContext, x) && exists c :: c in rows && c.id == x {
      var c :| c in rows && c.id == x;
      var r := Revise(c, Total(arrivals, ByContext, x));
      assert r in rs;
      var i :| 0 <= i < |rs| && rs[i] == r;
      assert fs[i] in fs && fs[i].id == x;
    }
  }

  lemma InsightFoundIff(env: Env, t: Tables, x: int)
    ensures HasFinding(InsightFindings(env, InsightResults(env, t)), x) <==> exists row :: row in t.insights && row.id == x
  {
    var rs := InsightResults(env, t);
    var fs := InsightFindings(env, rs);
    hide CreditedAll, InsightTotal, RecommendationsOf;
    if HasFinding(fs, x) {
      var f :| f in fs && f.id == x;
      var i :| 0 <= i < |fs| && fs[i] == f;
      assert t.insights[i] in t.insights && t.insights[i].id == x;
    }
    if row :| row in t.insights && row.id == x {
      var i :| 0 <= i < |t.insights| && t.insights[i] == row;
      assert fs[i] in fs && fs[i].id == x;
    }
  }

  /** A listed, decided decision is credited to all that it affects. */
  lemma AffectedOccur(env: Env, t: Tables, own: DecisionRow, x: int)
    requires own in t.decisions && C.Actuals(own.outcomes) != []
    ensures x in AffectedFor(env, t, own).patterns ==>
              Occurs(ArrivalsFor(env, t), ById, x) && exists p :: p in t.patterns && p.id == x
    ensures x in AffectedFor(env, t, own).contexts ==> Occurs(ArrivalsFor(env, t), ByContext, x)
  {
    var ix, d, ds := IndexesFor(t), Credited(env, own), CreditedAll(env, t.decisions);
    var k :| 0 <= k < |t.decisions| && t.decisions[k] == own;
    assert d == ds[k] && d.verdict.Some?;
    IndexHoldsLast(ToPatterns(t.patterns), PatternId);
    AllArrivalsAreStored(ds, ToPatterns(t.patterns), ix);
    L.OwnArrivalsCount(ds, ix, d);
    hide Credited, CreditedAll, IndexesOf, AllArrivals, Arrivals, L.AffectedBy, IsIndex;
    if x in AffectedFor(env, t, own).patterns {
      var a := L.AffectedArrives(d, ix, x);
      L.ArrivalOccurs(ArrivalsFor(env, t), a);
      var i :| 0 <= i < |t.patterns| && ToPatterns(t.patterns)[i] == a.pattern;
      assert t.patterns[i] in t.patterns && t.patterns[i].id == x;
    }
    if x in AffectedFor(env, t, own).contexts {
      var a := L.AffectedContextArrives(d, ix, x);
      L.ArrivalOccursInContext(ArrivalsFor(env, t), a, x);
    }
  }

  /**
   * What a decision teaches: when it is listed and has actual outcomes, exactly the
   * patterns it affects get a signal, and exactly the contexts and insights it affects
   * that are listed.
   */
  lemma LearnedIff(env: Env, t: Tables, x: int)
    requires Computed(env, t).Ok? && t.own.value in t.decisions && C.Actuals(t.own.value.outcomes) != []
    ensures var signals, affected := Computed(env, t).value, AffectedFor(env, t, t.own.value);
            && (HasSignal(signals, "pattern", x) <==> x in affected.patterns)
            && (HasSignal(signals, "context", x) <==> x in affected.contexts && exists c :: c in t.contexts && c.id == x)
            && (HasSignal(signals, "insight", x) <==> x in affected.insights && exists row :: row in t.insights && row.id == x)
  {
    var own, arrivals := t.own.value, ArrivalsFor(env, t);
    AffectedOccur(env, t, own, x);
    PatternFoundIff(env, t.patterns, arrivals, x);
    ContextFoundIff(env, t.contexts, arrivals, x);
    InsightFoundIff(env, t, x);
    SignalIffFound(OwnFinding(env, own), ReportsFor(env, t), AffectedFor(env, t, own), x);
    hide Occurs, HasFinding, HasSignal, L.Signals, L.AffectedBy, Parses, PatternResults, ContextResults, InsightResults, AllArrivals;
  }

  lemma PatternFindingSays(env: Env, rows: seq<PatternRow>, arrivals: seq<Arrival>, f: L.Finding)
    requires f in PatternFindings(env, PatternResults(rows, arrivals))
    ensures exists p :: p in rows && f == Found(p.id, env.pattern(Refine(p, Total(arrivals, ById, p.id))))
  {
    var rs := PatternResults(rows, arrivals);
    PatternResultsAre(rows, arrivals);
    hide PatternResults, Occurs, Total, Refine;
    var i :| 0 <= i < |rs| && PatternFindings(env, rs)[i] == f;
    assert rs[i] in rs && rs[i].pattern in rows;
  }

  lemma PatternSignalIsFinding(own: L.Finding, reports: L.Reports, affected: L.Affected, s: Signal) returns (f: L.Finding)
    requires s in L.Signals(own, reports, affected) && s.targetType == "pattern"
    ensures f in reports.patterns && s == L.SignalOf("pattern", f)
  {
    L.SignalsAreScoped(own, reports, affected, s);
    hide L.Signals;
    f :| f in reports.patterns && s == L.SignalOf("pattern", f);
  }

  /** The signal of a pattern carries the advice for the totals of all listed decisions. */
  lemma PatternSignalSays(env: Env, t: Tables, s: Signal)
    requires Computed(env, t).Ok? && s in Computed(env, t).value && s.targetType == "pattern"
    ensures exists p :: p in t.patterns && p.id == s.targetId
              && (s.content, s.provenance) == env.pattern(Refine(p, Total(ArrivalsFor(env, t), ById, p.id)))
  {
    hide Parses, OwnFinding, AffectedFor, ArrivalsFor, PatternResults, ContextResults, InsightResults, Refine, Total, L.Signals;
    var own := t.own.value;
    var f := PatternSignalIsFinding(OwnFinding(env, own), ReportsFor(env, t), AffectedFor(env, t, own), s);
    PatternFindingSays(env, t.patterns, ArrivalsFor(env, t), f);
  }

  /**
   * Attribution credits an insight without looking at the hypothesis, scoping does not:
   * an insight that a listed, decided decision is credited to gets its signal exactly
   * when the recommendation's hypothesis is found.
   */
  lemma CreditedInsightIsLearnedIff(env: Env, t: Tables, x: int)
    requires Computed(env, t).Ok? && t.own.value in t.decisions && C.Actuals(t.own.value.outcomes) != []
    requires InsightOf(Credited(env, t.own.value), IndexesFor(t).0) == Some(x) && exists row :: row in t.insights && row.id == x
    ensures InsightTotal(CreditedAll(env, t.decisions), IndexesFor(t).0, x).linked > 0
    ensures HasSignal(Computed(env, t).value, "insight", x)
            <==> Get(IndexesFor(t).1, Get(IndexesFor(t).0, t.own.value.recommendation).value.hypothesis).Some?
  {
    var ds := CreditedAll(env, t.decisions);
    var k :| 0 <= k < |t.decisions| && t.decisions[k] == t.own.value;
    LinkedInTotal(ds, IndexesFor(t).0, x, k);
    LearnedIff(env, t, x);
    hide Computed, HasSignal, InsightTotal, IndexesOf, C.Consolidation;
  }

  lemma {:induction false} LinkedInTotal(ds: seq<Decision>, recommendations: map<int, Recommendation>, x: int, k: nat)
    requires k < |ds| && InsightOf(ds[k], recommendations) == Some(x)
    ensures InsightTotal(ds, recommendations, x).linked > 0
    decreases |ds|
  {
    if k < |ds| - 1 {
      LinkedInTotal(ds[..|ds| - 1], recommendations, x, k);
    }
  }
}
