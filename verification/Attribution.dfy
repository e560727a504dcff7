/**
 * Outcome attribution of libs/memory/pattern_refinement.py and context_revision.py:
 * dictionary-indexed joins along Decision, Recommendation, Hypothesis, Pattern and
 * Context, against the plain relational join and against each other.
 */
module Attribution {
  import opened Prelude

  datatype Count = Count(corroborated: nat, contradicted: nat, inconclusive: nat, linked: nat)

  const ZERO := Count(0, 0, 0, 0)

  function Plus(a: Count, b: Count): Count {
    Count(a.corroborated + b.corroborated, a.contradicted + b.contradicted, a.inconclusive + b.inconclusive, a.linked + b.linked)
  }

  /** verdict: the consolidated counts of a decision with actual outcomes, None without. */
  datatype Decision = Decision(recommendation: Option<int>, verdict: Option<(nat, nat, nat)>)
  datatype Recommendation = Recommendation(id: int, hypothesis: Option<int>, insight: Option<int>)
  datatype Hypothesis = Hypothesis(id: int, patterns: seq<int>)
  datatype Pattern = Pattern(id: int, context: Option<int>)

  function RecommendationId(r: Recommendation): int {
    r.id
  }

  function HypothesisId(h: Hypothesis): int {
    h.id
  }

  function PatternId(p: Pattern): int {
    p.id
  }

  /** What one decision contributes through one link. */
  function Contribution(verdict: (nat, nat, nat)): Count {
    Count(verdict.0, verdict.1, verdict.2, 1)
  }

  /** One row of the join: a decision's counts arriving at a pattern. */
  datatype Arrival = Arrival(count: Count, pattern: Pattern)

  // ------------------------------------------------------- Relational join

  function PatternMatches(count: Count, p: int, patterns: seq<Pattern>): seq<Arrival> {
    if patterns == [] then []
    else
      var q := patterns[|patterns| - 1];
      PatternMatches(count, p, patterns[..|patterns| - 1]) + (if q.id == p then [Arrival(count, q)] else [])
  }

  function JoinPatterns(count: Count, ids: seq<int>, patterns: seq<Pattern>): seq<Arrival> {
    if ids == [] then []
    else JoinPatterns(count, ids[..|ids| - 1], patterns) + PatternMatches(count, ids[|ids| - 1], patterns)
  }

  function JoinHypotheses(count: Count, id: Option<int>, hypotheses: seq<Hypothesis>, patterns: seq<Pattern>): seq<Arrival> {
    if hypotheses == [] then []
    else
      var h := hypotheses[|hypotheses| - 1];
      JoinHypotheses(count, id, hypotheses[..|hypotheses| - 1], patterns)
      + (if Some(h.id) == id then JoinPatterns(count, h.patterns, patterns) else [])
  }

  function JoinRecommendations(count: Count, id: Option<int>, recommendations: seq<Recommendation>,
                               hypotheses: seq<Hypothesis>, patterns: seq<Pattern>): seq<Arrival>
  {
    if recommendations == [] then []
    else
      var r := recommendations[|recommendations| - 1];
      JoinRecommendations(count, id, recommendations[..|recommendations| - 1], hypotheses, patterns)
      + (if Some(r.id) == id then JoinHypotheses(count, r.hypothesis, hypotheses, patterns) else [])
  }

  /** Every combination of rows whose references match, by nested loops over whole tables. */
  function Join(decisions: seq<Decision>, recommendations: seq<Recommendation>, hypotheses: seq<Hypothesis>,
                patterns: seq<Pattern>): seq<Arrival>
  {
    if decisions == [] then []
    else
      var d := decisions[|decisions| - 1];
      Join(decisions[..|decisions| - 1], recommendations, hypotheses, patterns)
      + (match d.verdict
         case None => []
         case Some(v) => JoinRecommendations(Contribution(v), d.recommendation, recommendations, hypotheses, patterns))
  }

  // ---------------------------------------------------------- Indexed join

  type Indexes = (map<int, Recommendation>, map<int, Hypothesis>, map<int, Pattern>)

  function Get<T>(m: map<int, T>, id: Option<int>): Option<T> {
    if id.Some? && id.value in m then Some(m[id.value]) else None
  }

  function ArriveAt(count: Count, ids: seq<int>, patterns: map<int, Pattern>): seq<Arrival> {
    if ids == [] then []
    else
      var p := ids[|ids| - 1];
      ArriveAt(count, ids[..|ids| - 1], patterns) + (if p in patterns then [Arrival(count, patterns[p])] else [])
  }

  function Arrivals(d: Decision, ix: Indexes): seq<Arrival> {
    match d.verdict
    case None => []
    case Some(v) =>
      match Get(ix.0, d.recommendation)
      case None => []
      case Some(r) =>
        match Get(ix.1, r.hypothesis)
        case None => []
        case Some(h) => ArriveAt(Contribution(v), h.patterns, ix.2)
  }

  function AllArrivals(decisions: seq<Decision>, ix: Indexes): seq<Arrival> {
    if decisions == [] then []
    else AllArrivals(decisions[..|decisions| - 1], ix) + Arrivals(decisions[|decisions| - 1], ix)
  }

  // ------------------------------------------------------------- Grouping

  /** SUM ... GROUP BY key. */
  function Total(arrivals: seq<Arrival>, key: Pattern -> Option<int>, x: int): Count {
    if arrivals == [] then ZERO
    else
      var a := arrivals[|arrivals| - 1];
      var rest := Total(arrivals[..|arrivals| - 1], key, x);
      if key(a.pattern) == Some(x) then Plus(rest, a.count) else rest
  }

  ghost predicate Occurs(arrivals: seq<Arrival>, key: Pattern -> Option<int>, x: int) {
    exists i :: 0 <= i < |arrivals| && key(arrivals[i].pattern) == Some(x)
  }

  /** A dictionary holds the totals of exactly the keys that occur. */
  ghost predicate Grouped(attribution: map<int, Count>, arrivals: seq<Arrival>, key: Pattern -> Option<int>) {
    && (forall x :: x in attribution <==> Occurs(arrivals, key, x))
    && (forall x :: x in attribution ==> attribution[x] == Total(arrivals, key, x))
  }

  function ById(p: Pattern): Option<int> {
    Some(p.id)
  }

  function ByContext(p: Pattern): Option<int> {
    p.context
  }

  lemma GroupOneMore(attribution: map<int, Count>, arrivals: seq<Arrival>, key: Pattern -> Option<int>, a: Arrival)
    requires Grouped(attribution, arrivals, key)
    ensures key(a.pattern) == None ==> Grouped(attribution, arrivals + [a], key)
    ensures key(a.pattern).Some? ==>
              var x := key(a.pattern).value;
              Grouped(attribution[x := Plus(if x in attribution then attribution[x] else ZERO, a.count)], arrivals + [a], key)
  {
    var more := arrivals + [a];
    assert more[..|more| - 1] == arrivals;
    forall x
      ensures Occurs(more, key, x) <==> Occurs(arrivals, key, x) || key(a.pattern) == Some(x)
    {
      if Occurs(arrivals, key, x) {
        var i :| 0 <= i < |arrivals| && key(arrivals[i].pattern) == Some(x);
        assert more[i] == arrivals[i];
      }
      if key(a.pattern) == Some(x) {
        assert more[|arrivals|] == a;
      }
    }
    forall x
      ensures !Occurs(arrivals, key, x) ==> Total(arrivals, key, x) == ZERO
    {
      AbsentTotal(arrivals, key, x);
    }
  }

  lemma {:induction false} AbsentTotal(arrivals: seq<Arrival>, key: Pattern -> Option<int>, x: int)
    ensures !Occurs(arrivals, key, x) ==> Total(arrivals, key, x) == ZERO
    decreases |arrivals|
  {
    if arrivals != [] && !Occurs(arrivals, key, x) {
      var init := arrivals[..|arrivals| - 1];
      assert forall i :: 0 <= i < |init| ==> init[i] == arrivals[i];
      assert !Occurs(init, key, x);
      AbsentTotal(init, key, x);
    }
  }

  // ---------------------------------------------------------------- Code

  /** {row["id"]: row for row in rows}: a later row of the same id wins. */
  function IndexOf<T>(rows: seq<T>, id: T -> int): map<int, T> {
    if rows == [] then map[]
    else IndexOf(rows[..|rows| - 1], id)[id(rows[|rows| - 1]) := rows[|rows| - 1]]
  }

  /** Row j is the last one with id x. */
  ghost predicate LastWith<T>(rows: seq<T>, id: T -> int, x: int, j: int) {
    0 <= j < |rows| && id(rows[j]) == x && forall k :: j < k < |rows| ==> id(rows[k]) != x
  }

  ghost predicate IsIndex<T>(rows: seq<T>, id: T -> int, m: map<int, T>) {
    && (forall x :: x in m ==> exists j :: LastWith(rows, id, x, j) && m[x] == rows[j])
    && (forall j :: 0 <= j < |rows| ==> id(rows[j]) in m)
  }

  lemma LastWithMore<T>(init: seq<T>, last: T, id: T -> int, x: int, j: int)
    requires LastWith(init, id, x, j) && id(last) != x
    ensures LastWith(init + [last], id, x, j)
  {
  }

  lemma IndexOneMore<T>(init: seq<T>, last: T, id: T -> int, m: map<int, T>)
    requires IsIndex(init, id, m)
    ensures IsIndex(init + [last], id, m[id(last) := last])
  {
    var rows, after := init + [last], m[id(last) := last];
    forall x | x in after
      ensures exists j :: LastWith(rows, id, x, j) && after[x] == rows[j]
    {
      if x == id(last) {
        assert LastWith(rows, id, x, |init|);
      } else {
        var j :| LastWith(init, id, x, j) && m[x] == init[j];
        LastWithMore(init, last, id, x, j);
      }
    }
    forall j | 0 <= j < |rows|
      ensures id(rows[j]) in after
    {
      assert j < |init| ==> rows[j] == init[j];
    }
  }

  /** The index holds, for exactly the ids that occur, the last row with that id. */
  lemma {:induction false} IndexHoldsLast<T>(rows: seq<T>, id: T -> int)
    ensures IsIndex(rows, id, IndexOf(rows, id))
    decreases |rows|
  {
    if rows != [] {
      var init, last := rows[..|rows| - 1], rows[|rows| - 1];
      IndexHoldsLast(init, id);
      assert IndexOf(rows, id) == IndexOf(init, id)[id(last) := last];
      assert rows == init + [last];
      hide IndexOf, IsIndex;
      IndexOneMore(init, last, id, IndexOf(init, id));
    }
  }

  method Index<T>(rows: seq<T>, id: T -> int) returns (m: map<int, T>)
    ensures m == IndexOf(rows, id)
  {
    m := map[];
    for i := 0 to |rows|
      invariant m == IndexOf(rows[..i], id)
    {
      assert rows[..i + 1][..i] == rows[..i];
      m := m[id(rows[i]) := rows[i]];
    }
    assert rows[..|rows|] == rows;
  }

  function IndexesOf(recommendations: seq<Recommendation>, hypotheses: seq<Hypothesis>, patterns: seq<Pattern>): Indexes {
    (IndexOf(recommendations, RecommendationId), IndexOf(hypotheses, HypothesisId), IndexOf(patterns, PatternId))
  }

  method BuildIndexes(recommendations: seq<Recommendation>, hypotheses: seq<Hypothesis>, patterns: seq<Pattern>) returns (ix: Indexes)
    ensures ix == IndexesOf(recommendations, hypotheses, patterns)
  {
    var recById := Index(recommendations, RecommendationId);
    var hypById := Index(hypotheses, HypothesisId);
    var patById := Index(patterns, PatternId);
    ix := (recById, hypById, patById);
  }

  function Bump(attribution: map<int, Count>, x: int, count: Count): map<int, Count> {
    attribution[x := Plus(if x in attribution then attribution[x] else ZERO, count)]
  }

  /** _attribute_outcomes: per pattern, whatever the tables hold. */
  method AttributeOutcomes(decisions: seq<Decision>, recommendations: seq<Recommendation>, hypotheses: seq<Hypothesis>,
                           patterns: seq<Pattern>) returns (attribution: map<int, Count>)
    ensures Grouped(attribution, AllArrivals(decisions, IndexesOf(recommendations, hypotheses, patterns)), ById)
  {
    var index := BuildIndexes(recommendations, hypotheses, patterns);
    attribution := map[];
    IndexHoldsLast(patterns, PatternId);
    for i := 0 to |decisions|
      invariant Grouped(attribution, AllArrivals(decisions[..i], index), ById)
    {
      assert decisions[..i + 1][..i] == decisions[..i];
      var d := decisions[i];
      ghost var before := AllArrivals(decisions[..i], index);
      assert before + [] == before;
      if d.verdict == None {
        continue;
      }
      var rec := Get(index.0, d.recommendation);
      if rec == None {
        continue;
      }
      var hyp := Get(index.1, rec.value.hypothesis);
      if hyp == None {
        continue;
      }
      attribution := BumpPatterns(attribution, Contribution(d.verdict.value), hyp.value.patterns, index.2, before);
    }
    assert decisions[..|decisions|] == decisions;
  }

  method BumpPatterns(start: map<int, Count>, count: Count, ids: seq<int>, patterns: map<int, Pattern>, ghost before: seq<Arrival>)
    returns (attribution: map<int, Count>)
    requires Grouped(start, before, ById) && forall x :: x in patterns ==> patterns[x].id == x
    ensures Grouped(attribution, before + ArriveAt(count, ids, patterns), ById)
  {
    attribution := start;
    assert before + [] == before;
    for k := 0 to |ids|
      invariant Grouped(attribution, before + ArriveAt(count, ids[..k], patterns), ById)
    {
      assert ids[..k + 1][..k] == ids[..k];
      ghost var sofar := before + ArriveAt(count, ids[..k], patterns);
      if ids[k] !in patterns {
        assert ArriveAt(count, ids[..k + 1], patterns) == ArriveAt(count, ids[..k], patterns);
        continue;
      }
      var a := Arrival(count, patterns[ids[k]]);
      GroupOneMore(attribution, sofar, ById, a);
      assert before + ArriveAt(count, ids[..k + 1], patterns) == sofar + [a];
      attribution := Bump(attribution, ids[k], count);
    }
    assert ids[..|ids|] == ids;
  }

  /** _attribute_outcomes_to_contexts: per context of the pattern, if it has one. */
  method AttributeOutcomesToContexts(decisions: seq<Decision>, recommendations: seq<Recommendation>, hypotheses: seq<Hypothesis>,
                                     patterns: seq<Pattern>) returns (attribution: map<int, Count>)
    ensures Grouped(attribution, AllArrivals(decisions, IndexesOf(recommendations, hypotheses, patterns)), ByContext)
  {
    var index := BuildIndexes(recommendations, hypotheses, patterns);
    attribution := map[];
    for i := 0 to |decisions|
      invariant Grouped(attribution, AllArrivals(decisions[..i], index), ByContext)
    {
      assert decisions[..i + 1][..i] == decisions[..i];
      var d := decisions[i];
      ghost var before := AllArrivals(decisions[..i], index);
      assert before + [] == before;
      if d.verdict == None {
        continue;
      }
      var rec := Get(index.0, d.recommendation);
      if rec == None {
        continue;
      }
      var hyp := Get(index.1, rec.value.hypothesis);
      if hyp == None {
        continue;
      }
      attribution := BumpContexts(attribution, Contribution(d.verdict.value), hyp.value.patterns, index.2, before);
    }
    assert decisions[..|decisions|] == decisions;
  }

  method BumpContexts(start: map<int, Count>, count: Count, ids: seq<int>, patterns: map<int, Pattern>, ghost before: seq<Arrival>)
    returns (attribution: map<int, Count>)
    requires Grouped(start, before, ByContext)
    ensures Grouped(attribution, before + ArriveAt(count, ids, patterns), ByContext)
  {
    attribution := start;
    assert before + [] == before;
    for k := 0 to |ids|
      invariant Grouped(attribution, before + ArriveAt(count, ids[..k], patterns), ByContext)
    {
      assert ids[..k + 1][..k] == ids[..k];
      ghost var sofar := before + ArriveAt(count, ids[..k], patterns);
      if ids[k] !in patterns {
        assert ArriveAt(count, ids[..k + 1], patterns) == ArriveAt(count, ids[..k], patterns);
        continue;
      }
      var pattern := patterns[ids[k]];
      GroupOneMore(attribution, sofar, ByContext, Arrival(count, pattern));
      assert before + ArriveAt(count, ids[..k + 1], patterns) == sofar + [Arrival(count, pattern)];
      if pattern.context == None {
        continue;
      }
      attribution := Bump(attribution, pattern.context.value, count);
    }
    assert ids[..|ids|] == ids;
  }

  // ------------------------------------------- The index join is the join

  ghost predicate UniqueIds<T>(rows: seq<T>, id: T -> int) {
    forall i, j :: 0 <= i < j < |rows| ==> id(rows[i]) != id(rows[j])
  }

  /** Primary keys of the three tables that are indexed. */
  ghost predicate Keyed(recommendations: seq<Recommendation>, hypotheses: seq<Hypothesis>, patterns: seq<Pattern>) {
    && UniqueIds(recommendations, RecommendationId)
    && UniqueIds(hypotheses, HypothesisId)
    && UniqueIds(patterns, PatternId)
  }

  lemma {:induction false} PatternMatchesIsLookup(count: Count, p: int, patterns: seq<Pattern>)
    requires UniqueIds(patterns, PatternId)
    ensures forall j :: 0 <= j < |patterns| && patterns[j].id == p ==> PatternMatches(count, p, patterns) == [Arrival(count, patterns[j])]
    ensures (forall j :: 0 <= j < |patterns| ==> patterns[j].id != p) ==> PatternMatches(count, p, patterns) == []
    decreases |patterns|
  {
    if patterns != [] {
      var init := patterns[..|patterns| - 1];
      assert forall j :: 0 <= j < |init| ==> init[j] == patterns[j];
      assert UniqueIds(init, PatternId);
      PatternMatchesIsLookup(count, p, init);
    }
  }

  lemma {:induction false} PatternsJoin(count: Count, ids: seq<int>, patterns: seq<Pattern>, index: map<int, Pattern>)
    requires UniqueIds(patterns, PatternId) && IsIndex(patterns, PatternId, index)
    ensures JoinPatterns(count, ids, patterns) == ArriveAt(count, ids, index)
    decreases |ids|
  {
    if ids != [] {
      PatternsJoin(count, ids[..|ids| - 1], patterns, index);
      var p := ids[|ids| - 1];
      PatternMatchesIsLookup(count, p, patterns);
      if p in index {
        var j :| 0 <= j < |patterns| && patterns[j].id == p && index[p] == patterns[j];
        assert PatternMatches(count, p, patterns) == [Arrival(count, index[p])];
      }
    }
  }

  lemma {:induction false} HypothesesJoin(count: Count, id: Option<int>, hypotheses: seq<Hypothesis>, patterns: seq<Pattern>)
    requires UniqueIds(hypotheses, HypothesisId)
    ensures forall j :: 0 <= j < |hypotheses| && Some(hypotheses[j].id) == id ==>
              JoinHypotheses(count, id, hypotheses, patterns) == JoinPatterns(count, hypotheses[j].patterns, patterns)
    ensures (forall j :: 0 <= j < |hypotheses| ==> Some(hypotheses[j].id) != id) ==> JoinHypotheses(count, id, hypotheses, patterns) == []
    decreases |hypotheses|
  {
    if hypotheses != [] {
      var init := hypotheses[..|hypotheses| - 1];
      assert forall j :: 0 <= j < |init| ==> init[j] == hypotheses[j];
      assert UniqueIds(init, HypothesisId);
      HypothesesJoin(count, id, init, patterns);
    }
  }

  lemma {:induction false} RecommendationsJoin(count: Count, id: Option<int>, recommendations: seq<Recommendation>,
                                               hypotheses: seq<Hypothesis>, patterns: seq<Pattern>)
    requires UniqueIds(recommendations, RecommendationId)
    ensures forall j :: 0 <= j < |recommendations| && Some(recommendations[j].id) == id ==>
              JoinRecommendations(count, id, recommendations, hypotheses, patterns)
              == JoinHypotheses(count, recommendations[j].hypothesis, hypotheses, patterns)
    ensures (forall j :: 0 <= j < |recommendations| ==> Some(recommendations[j].id) != id) ==>
              JoinRecommendations(count, id, recommendations, hypotheses, patterns) == []
    decreases |recommendations|
  {
    if recommendations != [] {
      var init := recommendations[..|recommendations| - 1];
      assert forall j :: 0 <= j < |init| ==> init[j] == recommendations[j];
      assert UniqueIds(init, RecommendationId);
      RecommendationsJoin(count, id, init, hypotheses, patterns);
    }
  }

  lemma IndexedRow<T>(rows: seq<T>, id: T -> int, m: map<int, T>, x: int) returns (j: nat)
    requires IsIndex(rows, id, m) && x in m
    ensures j < |rows| && rows[j] == m[x] && id(rows[j]) == x
  {
    j :| LastWith(rows, id, x, j) && m[x] == rows[j];
  }

  lemma DecisionJoin(d: Decision, recommendations: seq<Recommendation>, hypotheses: seq<Hypothesis>, patterns: seq<Pattern>)
    requires Keyed(recommendations, hypotheses, patterns)
    ensures d.verdict.Some? ==>
              Arrivals(d, IndexesOf(recommendations, hypotheses, patterns))
              == JoinRecommendations(Contribution(d.verdict.value), d.recommendation, recommendations, hypotheses, patterns)
  {
    hide IndexOf, ArriveAt, JoinPatterns, JoinHypotheses, JoinRecommendations;
    var ix := IndexesOf(recommendations, hypotheses, patterns);
    IndexHoldsLast(recommendations, RecommendationId);
    IndexHoldsLast(hypotheses, HypothesisId);
    IndexHoldsLast(patterns, PatternId);
    if d.verdict.Some? {
      var count := Contribution(d.verdict.value);
      RecommendationsJoin(count, d.recommendation, recommendations, hypotheses, patterns);
      var r := Get(ix.0, d.recommendation);
      if d.recommendation.Some? && d.recommendation.value in ix.0 {
        var j := IndexedRow(recommendations, RecommendationId, ix.0, d.recommendation.value);
        HypothesesJoin(count, r.value.hypothesis, hypotheses, patterns);
        var h := Get(ix.1, r.value.hypothesis);
        if r.value.hypothesis.Some? && r.value.hypothesis.value in ix.1 {
          var k := IndexedRow(hypotheses, HypothesisId, ix.1, r.value.hypothesis.value);
          PatternsJoin(count, h.value.patterns, patterns, ix.2);
        }
      }
    }
  }

  /** With primary keys the dictionary lookups produce the relational join, row for row. */
  lemma {:induction false} IndexJoinIsJoin(decisions: seq<Decision>, recommendations: seq<Recommendation>, hypotheses: seq<Hypothesis>,
                                           patterns: seq<Pattern>)
    requires Keyed(recommendations, hypotheses, patterns)
    ensures AllArrivals(decisions, IndexesOf(recommendations, hypotheses, patterns))
         == Join(decisions, recommendations, hypotheses, patterns)
    decreases |decisions|
  {
    hide IndexesOf, Arrivals, JoinRecommendations;
    if decisions != [] {
      var d := decisions[|decisions| - 1];
      IndexJoinIsJoin(decisions[..|decisions| - 1], recommendations, hypotheses, patterns);
      DecisionJoin(d, recommendations, hypotheses, patterns);
      if d.verdict == None {
        NoVerdictNoArrival(d, IndexesOf(recommendations, hypotheses, patterns));
      }
    }
  }

  lemma NoVerdictNoArrival(d: Decision, ix: Indexes)
    requires d.verdict == None
    ensures Arrivals(d, ix) == []
  {
  }

  // ----------------------------------------------------------- Push-forward

  /** The totals of the patterns of one context, added up. */
  function OverContext(arrivals: seq<Arrival>, patterns: seq<Pattern>, c: int): Count {
    if patterns == [] then ZERO
    else
      var q := patterns[|patterns| - 1];
      var rest := OverContext(arrivals, patterns[..|patterns| - 1], c);
      if q.context == Some(c) then Plus(rest, Total(arrivals, ById, q.id)) else rest
  }

  lemma {:induction false} OneMoreArrival(arrivals: seq<Arrival>, patterns: seq<Pattern>, c: int)
    requires arrivals != [] && UniqueIds(patterns, PatternId)
    ensures var a := arrivals[|arrivals| - 1];
            var init := arrivals[..|arrivals| - 1];
            OverContext(arrivals, patterns, c)
            == if a.pattern.context == Some(c) && a.pattern in patterns then Plus(OverContext(init, patterns, c), a.count)
               else if exists q :: q in patterns && q.id == a.pattern.id && q != a.pattern then OverContext(arrivals, patterns, c)
               else OverContext(init, patterns, c)
    decreases |patterns|
  {
    if patterns != [] {
      var less := patterns[..|patterns| - 1];
      assert forall j :: 0 <= j < |less| ==> less[j] == patterns[j];
      assert UniqueIds(less, PatternId);
      assert patterns == less + [patterns[|patterns| - 1]];
      OneMoreArrival(arrivals, less, c);
    }
  }

  /**
   * Context counters are the push-forward of pattern counters: a context's count is the
   * sum of the counts of its patterns, in each of the four components.
   */
  lemma {:induction false} ContextIsSumOfPatterns(arrivals: seq<Arrival>, patterns: seq<Pattern>, c: int)
    requires UniqueIds(patterns, PatternId)
    requires forall i :: 0 <= i < |arrivals| ==> arrivals[i].pattern in patterns
    ensures Total(arrivals, ByContext, c) == OverContext(arrivals, patterns, c)
    decreases |arrivals|
  {
    if arrivals == [] {
      NothingOverContext(arrivals, patterns, c);
    } else {
      var init := arrivals[..|arrivals| - 1];
      assert forall i :: 0 <= i < |init| ==> init[i] == arrivals[i];
      ContextIsSumOfPatterns(init, patterns, c);
      OneMoreArrival(arrivals, patterns, c);
      var a := arrivals[|arrivals| - 1];
      assert !exists q :: q in patterns && q.id == a.pattern.id && q != a.pattern;
    }
  }

  lemma {:induction false} NothingOverContext(arrivals: seq<Arrival>, patterns: seq<Pattern>, c: int)
    requires arrivals == []
    ensures OverContext(arrivals, patterns, c) == ZERO
    decreases |patterns|
  {
    if patterns != [] {
      NothingOverContext(arrivals, patterns[..|patterns| - 1], c);
      assert Total(arrivals, ById, patterns[|patterns| - 1].id) == ZERO;
    }
  }

  function Counted(attribution: map<int, Count>, x: int): Count {
    if x in attribution then attribution[x] else ZERO
  }

  /** The dictionary entries of the patterns of one context, added up. */
  function SumOfPatterns(attribution: map<int, Count>, patterns: seq<Pattern>, c: int): Count {
    if patterns == [] then ZERO
    else
      var q := patterns[|patterns| - 1];
      var rest := SumOfPatterns(attribution, patterns[..|patterns| - 1], c);
      if q.context == Some(c) then Plus(rest, Counted(attribution, q.id)) else rest
  }

  lemma {:induction false} SumIsOverContext(attribution: map<int, Count>, arrivals: seq<Arrival>, patterns: seq<Pattern>, c: int)
    requires Grouped(attribution, arrivals, ById)
    ensures SumOfPatterns(attribution, patterns, c) == OverContext(arrivals, patterns, c)
    decreases |patterns|
  {
    if patterns != [] {
      SumIsOverContext(attribution, arrivals, patterns[..|patterns| - 1], c);
      AbsentTotal(arrivals, ById, patterns[|patterns| - 1].id);
    }
  }

  lemma {:induction false} ArrivalsAreStored(count: Count, ids: seq<int>, patterns: seq<Pattern>, index: map<int, Pattern>)
    requires IsIndex(patterns, PatternId, index)
    ensures forall a :: a in ArriveAt(count, ids, index) ==> a.pattern in patterns
    decreases |ids|
  {
    if ids != [] {
      ArrivalsAreStored(count, ids[..|ids| - 1], patterns, index);
      var p := ids[|ids| - 1];
      if p in index {
        var j := IndexedRow(patterns, PatternId, index, p);
      }
    }
  }

  lemma {:induction false} AllArrivalsAreStored(decisions: seq<Decision>, patterns: seq<Pattern>, ix: Indexes)
    requires IsIndex(patterns, PatternId, ix.2)
    ensures forall a :: a in AllArrivals(decisions, ix) ==> a.pattern in patterns
    decreases |decisions|
  {
    if decisions != [] {
      AllArrivalsAreStored(decisions[..|decisions| - 1], patterns, ix);
      var d := decisions[|decisions| - 1];
      if d.verdict.Some? {
        var r := Get(ix.0, d.recommendation);
        if r.Some? && Get(ix.1, r.value.hypothesis).Some? {
          ArrivalsAreStored(Contribution(d.verdict.value), Get(ix.1, r.value.hypothesis).value.patterns, patterns, ix.2);
        }
      }
    }
  }

  /** The two dictionaries computed from the same tables agree: contexts add up their patterns. */
  lemma AttributionsAgree(decisions: seq<Decision>, recommendations: seq<Recommendation>, hypotheses: seq<Hypothesis>,
                          patterns: seq<Pattern>, byPattern: map<int, Count>, byContext: map<int, Count>, c: int)
    requires UniqueIds(patterns, PatternId)
    requires Grouped(byPattern, AllArrivals(decisions, IndexesOf(recommendations, hypotheses, patterns)), ById)
    requires Grouped(byContext, AllArrivals(decisions, IndexesOf(recommendations, hypotheses, patterns)), ByContext)
    ensures Counted(byContext, c) == SumOfPatterns(byPattern, patterns, c)
  {
    var ix := IndexesOf(recommendations, hypotheses, patterns);
    var arrivals := AllArrivals(decisions, ix);
    IndexHoldsLast(patterns, PatternId);
    AllArrivalsAreStored(decisions, patterns, ix);
    ContextIsSumOfPatterns(arrivals, patterns, c);
    SumIsOverContext(byPattern, arrivals, patterns, c);
    AbsentTotal(arrivals, ByContext, c);
  }
}
