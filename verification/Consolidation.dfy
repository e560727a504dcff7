/**
 * Outcome consolidation (libs/memory/consolidation.py) and the historical outcome
 * signal (libs/learning/learning_loop.py).
 *
 * Python conversions whose details do not matter here (float(), str(), strip and
 * lower) are the fields of an Env and are left arbitrary.
 */
module Consolidation {
  import opened Prelude
  import opened Bins
  import opened CalibrationModel
  import opened Rounding

  const PREDICTION_THRESHOLD := 0.5
  const DEFAULT_BINS := 10

  /** A decoded JSON value, as far as the outcome readers look at it. */
  datatype Value = Nil | Bool(b: bool) | Number(n: real) | Text(s: string) | Other

  /** An element of an outcome list: a dictionary, or something else. */
  datatype Entry = NotADict | Dict(fields: map<string, Value>)

  datatype Env = Env(toFloat: Value -> Option<real>, str: Value -> string,
                     fold: string -> string)

  datatype Decision = Decision(id: int, tenant: int, expected: seq<Entry>,
                               actual: Option<seq<Entry>>, outcomeStatus: Option<string>)

  datatype Classification = Corroborated | Contradicted | Inconclusive

  datatype Detail = Detail(metric: Option<string>, prediction: Option<real>,
                           actual: Option<int>, classification: Classification)

  datatype Consolidated = Consolidated(
    decision: int, tenant: int, hasActuals: bool, expectedCount: nat, actualCount: nat,
    corroborated: nat, contradicted: nat, inconclusive: nat,
    feedback: real, brier: Option<real>, ece: Option<real>, details: seq<Detail>)

  const NOTHING := Detail(None, None, None, Inconclusive)

  function Get(e: Entry, key: string, default: Value): Value
    requires e.Dict?
  {
    if key in e.fields then e.fields[key] else default
  }

  function ToBinary(env: Env, v: Value): Option<int> {
    match v
    case Bool(b) => Some(if b then 1 else 0)
    case Number(n) => Some(if n != 0.0 then 1 else 0)
    case Text(s) =>
      var low := env.fold(s);
      if low in ["true", "success", "ok", "yes", "1"] then Some(1)
      else if low in ["false", "failure", "fail", "no", "0", ""] then Some(0)
      else None
    case _ => None
  }

  function Prediction(env: Env, e: Entry): real
    requires e.Dict?
  {
    var raw := Get(e, "predictiction", Get(e, "prediction", Text("")));
    match env.toFloat(raw)
    case Some(x) => x
    case None => 0.0
  }

  /** The actual outcomes keyed by metric; a later one replaces an earlier one. */
  function ActualByMetric(env: Env, actuals: seq<Entry>): map<string, Entry>
    ensures forall k :: k in ActualByMetric(env, actuals) ==> ActualByMetric(env, actuals)[k].Dict?
  {
    if actuals == [] then map[]
    else
      var n := |actuals| - 1;
      var rest := ActualByMetric(env, actuals[..n]);
      if actuals[n].Dict? && Get(actuals[n], "verifiable_by", Nil) != Nil
      then rest[env.str(Get(actuals[n], "verifiable_by", Nil)) := actuals[n]]
      else rest
  }

  function Classify(env: Env, e: Entry, byMetric: map<string, Entry>): Detail
    requires e.Dict? && forall k :: k in byMetric ==> byMetric[k].Dict?
  {
    var metric := Get(e, "verifiable_by", Nil);
    var pred := Prediction(env, e);
    if metric == Nil || env.str(metric) !in byMetric then
      Detail(if metric == Nil then None else Some(env.str(metric)), Some(Round4(pred)), None, Inconclusive)
    else
      match ToBinary(env, Get(byMetric[env.str(metric)], "value", Nil))
      case None => Detail(Some(env.str(metric)), Some(Round4(pred)), None, Inconclusive)
      case Some(binary) =>
        var positive := pred >= PREDICTION_THRESHOLD;
        var correct := (positive && binary == 1) || (!positive && binary == 0);
        Detail(Some(env.str(metric)), Some(Round4(pred)), Some(binary),
               if correct then Corroborated else Contradicted)
  }

  function DetailOf(env: Env, e: Entry, byMetric: map<string, Entry>): (d: Detail)
    requires forall k :: k in byMetric ==> byMetric[k].Dict?
    ensures d.classification != Inconclusive ==> d.prediction.Some? && d.actual.Some? && (d.actual.value == 0 || d.actual.value == 1)
  {
    if e.NotADict? then NOTHING else Classify(env, e, byMetric)
  }

  function DetailsOf(env: Env, expected: seq<Entry>, byMetric: map<string, Entry>): (ds: seq<Detail>)
    requires forall k :: k in byMetric ==> byMetric[k].Dict?
    ensures |ds| == |expected|
    ensures forall i :: 0 <= i < |ds| ==> ds[i] == DetailOf(env, expected[i], byMetric)
  {
    seq(|expected|, i requires 0 <= i < |expected| => DetailOf(env, expected[i], byMetric))
  }

  function Count(ds: seq<Detail>, c: Classification): nat {
    if ds == [] then 0
    else Count(ds[..|ds| - 1], c) + if ds[|ds| - 1].classification == c then 1 else 0
  }

  ghost predicate WellMatched(ds: seq<Detail>) {
    forall d :: d in ds && d.classification != Inconclusive ==>
      d.prediction.Some? && d.actual.Some? && (d.actual.value == 0 || d.actual.value == 1)
  }

  /** The predictions of the matched details, in order. */
  function MatchedPredictions(ds: seq<Detail>): seq<real> {
    if ds == [] then []
    else
      var d := ds[|ds| - 1];
      MatchedPredictions(ds[..|ds| - 1]) +
      if d.classification != Inconclusive && d.prediction.Some? && d.actual.Some? then [d.prediction.value] else []
  }

  function MatchedOutcomes(ds: seq<Detail>): (os: seq<int>)
    ensures |os| == |MatchedPredictions(ds)|
  {
    if ds == [] then []
    else
      var d := ds[|ds| - 1];
      MatchedOutcomes(ds[..|ds| - 1]) +
      if d.classification != Inconclusive && d.prediction.Some? && d.actual.Some? then [d.actual.value] else []
  }

  function Feedback(corroborated: nat, contradicted: nat): real {
    var matched := corroborated + contradicted;
    if matched > 0 then (corroborated - contradicted) as real / matched as real else 0.0
  }

  function Actuals(d: Decision): seq<Entry> {
    match d.actual
    case Some(s) => s
    case None => []
  }

  function IsPending(d: Decision): bool {
    d.outcomeStatus == Some("pending")
  }

  function Details(env: Env, d: Decision): seq<Detail> {
    if IsPending(d) then seq(|d.expected|, i => NOTHING)
    else DetailsOf(env, d.expected, ActualByMetric(env, Actuals(d)))
  }

  /** What consolidating one decision means: everything is read off its details. */
  function Consolidation(env: Env, d: Decision): Consolidated {
    var ds := Details(env, d);
    var ps, os := MatchedPredictions(ds), MatchedOutcomes(ds);
    var corr, contr := Count(ds, Corroborated), Count(ds, Contradicted);
    Consolidated(d.id, d.tenant, !IsPending(d) && Actuals(d) != [], |d.expected|,
                 if IsPending(d) then 0 else |Actuals(d)|,
                 corr, contr, Count(ds, Inconclusive),
                 if IsPending(d) then 0.0 else Round4(Feedback(corr, contr)),
                 if ps == [] then None else Some(Round4(Brier(ps, os))),
                 if ps == [] then None else Some(Round4(Ece(ps, os, DEFAULT_BINS))),
                 ds)
  }

  lemma {:induction false} NothingCounts(n: nat)
    ensures var ds := seq(n, i => NOTHING);
            Count(ds, Corroborated) == 0 && Count(ds, Contradicted) == 0 && Count(ds, Inconclusive) == n
            && MatchedPredictions(ds) == []
  {
    if n > 0 {
      var ds := seq(n, i => NOTHING);
      assert ds[..n - 1] == seq(n - 1, i => NOTHING);
      NothingCounts(n - 1);
    }
  }

  lemma {:induction false} CountsPartition(ds: seq<Detail>)
    ensures Count(ds, Corroborated) + Count(ds, Contradicted) + Count(ds, Inconclusive) == |ds|
    ensures WellMatched(ds) ==> |MatchedPredictions(ds)| == Count(ds, Corroborated) + Count(ds, Contradicted)
    ensures WellMatched(ds) ==> Binary(MatchedOutcomes(ds))
  {
    if ds != [] {
      CountsPartition(ds[..|ds| - 1]);
      assert WellMatched(ds) ==> WellMatched(ds[..|ds| - 1]);
      assert ds[|ds| - 1] in ds;
    }
  }

  lemma DetailsAreWellMatched(env: Env, d: Decision)
    ensures |Details(env, d)| == |d.expected|
    ensures WellMatched(Details(env, d))
  {
  }

  method BuildActualByMetric(env: Env, actuals: seq<Entry>) returns (byMetric: map<string, Entry>)
    ensures byMetric == ActualByMetric(env, actuals)
  {
    byMetric := map[];
    for i := 0 to |actuals|
      invariant byMetric == ActualByMetric(env, actuals[..i])
    {
      assert actuals[..i + 1][..i] == actuals[..i];
      if actuals[i].Dict? {
        var metric := Get(actuals[i], "verifiable_by", Nil);
        if metric != Nil {
          byMetric := byMetric[env.str(metric) := actuals[i]];
        }
      }
    }
    assert actuals[..|actuals|] == actuals;
  }

  method Scores(env: Env, predictions: seq<real>, outcomes: seq<int>)
    returns (brier: Option<real>, ece: Option<real>)
    requires |predictions| == |outcomes|
    ensures brier == if predictions == [] then None else Some(Round4(Brier(predictions, outcomes)))
    ensures ece == if predictions == [] then None else Some(Round4(Ece(predictions, outcomes, DEFAULT_BINS)))
  {
    brier, ece := None, None;
    if predictions != [] {
      brier := Some(Round4(BrierScore(predictions, outcomes).value));
      var score := EceScore(predictions, outcomes, DEFAULT_BINS);
      ece := Some(Round4(score.value));
    }
  }

  lemma AppendDetail(ds: seq<Detail>, d: Detail)
    ensures forall c :: Count(ds + [d], c) == Count(ds, c) + if d.classification == c then 1 else 0
    ensures d.classification == Inconclusive ==>
              MatchedPredictions(ds + [d]) == MatchedPredictions(ds) && MatchedOutcomes(ds + [d]) == MatchedOutcomes(ds)
    ensures d.classification != Inconclusive && d.prediction.Some? && d.actual.Some? ==>
              MatchedPredictions(ds + [d]) == MatchedPredictions(ds) + [d.prediction.value]
              && MatchedOutcomes(ds + [d]) == MatchedOutcomes(ds) + [d.actual.value]
  {
    assert (ds + [d])[..|ds|] == ds;
  }

  method ScanExpected(env: Env, expected: seq<Entry>, byMetric: map<string, Entry>)
    returns (corroborated: nat, contradicted: nat, inconclusive: nat,
             details: seq<Detail>, predictions: seq<real>, outcomes: seq<int>)
    requires forall k :: k in byMetric ==> byMetric[k].Dict?
    ensures details == DetailsOf(env, expected, byMetric)
    ensures corroborated == Count(details, Corroborated)
    ensures contradicted == Count(details, Contradicted)
    ensures inconclusive == Count(details, Inconclusive)
    ensures predictions == MatchedPredictions(details) && outcomes == MatchedOutcomes(details)
  {
    hide DetailOf, DetailsOf, Count, MatchedPredictions, MatchedOutcomes;
    NoDetails();
    corroborated, contradicted, inconclusive, details, predictions, outcomes := 0, 0, 0, [], [], [];
    for i := 0 to |expected|
      invariant details == DetailsOf(env, expected, byMetric)[..i]
      invariant corroborated == Count(details, Corroborated)
      invariant contradicted == Count(details, Contradicted)
      invariant inconclusive == Count(details, Inconclusive)
      invariant predictions == MatchedPredictions(details) && outcomes == MatchedOutcomes(details)
    {
      var detail := DetailOf(env, expected[i], byMetric);
      AppendDetail(details, detail);
      match detail.classification {
        case Corroborated => corroborated := corroborated + 1;
        case Contradicted => contradicted := contradicted + 1;
        case Inconclusive => inconclusive := inconclusive + 1;
      }
      details := details + [detail];
      if detail.classification != Inconclusive {
        predictions := predictions + [detail.prediction.value];
        outcomes := outcomes + [detail.actual.value];
      }
    }
  }

  lemma NoDetails()
    ensures forall c :: Count([], c) == 0
    ensures MatchedPredictions([]) == [] && MatchedOutcomes([]) == []
  {
  }

  /** The counter loop returns the meaning of the decision's details. */
  method BuildConsolidation(env: Env, d: Decision) returns (r: Consolidated)
    ensures r == Consolidation(env, d)
  {
    if IsPending(d) {
      NothingCounts(|d.expected|);
      return Consolidated(d.id, d.tenant, false, |d.expected|, 0, 0, 0, |d.expected|, 0.0, None, None,
                          seq(|d.expected|, i => NOTHING));
    }
    var byMetric := BuildActualByMetric(env, Actuals(d));
    var corroborated, contradicted, inconclusive, details, predictions, outcomes :=
      ScanExpected(env, d.expected, byMetric);
    var brier, ece := Scores(env, predictions, outcomes);
    r := Consolidated(d.id, d.tenant, Actuals(d) != [], |d.expected|, |Actuals(d)|,
                      corroborated, contradicted, inconclusive,
                      Round4(Feedback(corroborated, contradicted)), brier, ece, details);
  }

  /**
   * A verdict needs a metric with a recorded, readable actual value, and it is a
   * corroboration exactly when the prediction and the actual fall on the same side.
   */
  lemma VerdictMeaning(env: Env, e: Entry, byMetric: map<string, Entry>)
    requires forall k :: k in byMetric ==> byMetric[k].Dict?
    ensures var verdict := DetailOf(env, e, byMetric).classification;
            var readable := e.Dict? && Get(e, "verifiable_by", Nil) != Nil
                            && env.str(Get(e, "verifiable_by", Nil)) in byMetric
                            && ToBinary(env, Get(byMetric[env.str(Get(e, "verifiable_by", Nil))], "value", Nil)).Some?;
            && (verdict == Inconclusive <==> !readable)
            && (readable ==>
                  (verdict == Corroborated <==>
                    (Prediction(env, e) >= PREDICTION_THRESHOLD
                     <==> ToBinary(env, Get(byMetric[env.str(Get(e, "verifiable_by", Nil))], "value", Nil)) == Some(1))))
  {
  }

  predicate Records(env: Env, e: Entry, key: string) {
    e.Dict? && Get(e, "verifiable_by", Nil) != Nil && env.str(Get(e, "verifiable_by", Nil)) == key
  }

  lemma OneMoreActual(env: Env, actuals: seq<Entry>, key: string)
    requires actuals != []
    ensures var rest, m := ActualByMetric(env, actuals[..|actuals| - 1]), ActualByMetric(env, actuals);
            if Records(env, actuals[|actuals| - 1], key) then key in m && m[key] == actuals[|actuals| - 1]
            else (key in m <==> key in rest) && (key in m ==> m[key] == rest[key])
  {
  }

  ghost predicate LastRecord(env: Env, actuals: seq<Entry>, key: string, i: int) {
    0 <= i < |actuals| && Records(env, actuals[i], key) && forall j :: i < j < |actuals| ==> !Records(env, actuals[j], key)
  }

  lemma NoLaterRecord(env: Env, init: seq<Entry>, last: Entry, key: string, i: int)
    ensures !Records(env, last, key) ==> (LastRecord(env, init + [last], key, i) <==> LastRecord(env, init, key, i))
    ensures Records(env, last, key) ==> (LastRecord(env, init + [last], key, i) <==> i == |init|)
  {
    var all := init + [last];
    assert forall j :: 0 <= j < |init| ==> all[j] == init[j];
    assert all[|init|] == last;
    hide Records;
  }

  lemma {:induction false} KnownIffRecorded(env: Env, actuals: seq<Entry>, key: string)
    ensures key in ActualByMetric(env, actuals) <==> exists i :: 0 <= i < |actuals| && Records(env, actuals[i], key)
    decreases |actuals|
  {
    if actuals != [] {
      var init := actuals[..|actuals| - 1];
      OneMoreActual(env, actuals, key);
      hide ActualByMetric, Records;
      KnownIffRecorded(env, init, key);
      assert forall i :: 0 <= i < |init| ==> init[i] == actuals[i];
    }
  }

  lemma {:induction false} LastRecordIsUsed(env: Env, actuals: seq<Entry>, key: string, i: int)
    requires LastRecord(env, actuals, key, i) && key in ActualByMetric(env, actuals)
    ensures ActualByMetric(env, actuals)[key] == actuals[i]
    decreases |actuals|
  {
    var n := |actuals| - 1;
    var init, last := actuals[..n], actuals[n];
    OneMoreActual(env, actuals, key);
    assert actuals == init + [last];
    NoLaterRecord(env, init, last, key, i);
    if !Records(env, last, key) {
      hide ActualByMetric, Records;
      LastRecordIsUsed(env, init, key, i);
    }
  }

  /** A metric is known exactly when some actual outcome records it, and the last one that does is used. */
  lemma LastActualWins(env: Env, actuals: seq<Entry>, key: string)
    ensures key in ActualByMetric(env, actuals) <==> exists i :: 0 <= i < |actuals| && Records(env, actuals[i], key)
    ensures forall i :: LastRecord(env, actuals, key, i) ==> ActualByMetric(env, actuals)[key] == actuals[i]
  {
    hide ActualByMetric, Records;
    KnownIffRecorded(env, actuals, key);
    forall i | LastRecord(env, actuals, key, i)
      ensures ActualByMetric(env, actuals)[key] == actuals[i]
    {
      LastRecordIsUsed(env, actuals, key, i);
    }
  }

  /** Every expected outcome lands in exactly one of the three counters. */
  lemma ConsolidationConserves(env: Env, d: Decision)
    ensures var c := Consolidation(env, d);
            && c.corroborated + c.contradicted + c.inconclusive == c.expectedCount == |d.expected|
            && |MatchedPredictions(c.details)| == c.corroborated + c.contradicted
            && Binary(MatchedOutcomes(c.details))
  {
    DetailsAreWellMatched(env, d);
    CountsPartition(Details(env, d));
  }

  /** No fabrication: without any actual outcome nothing is ever corroborated or contradicted. */
  lemma {:induction false} NoActualsNoVerdict(env: Env, d: Decision)
    requires Actuals(d) == []
    ensures Consolidation(env, d).inconclusive == |d.expected|
    ensures Consolidation(env, d).brier == None
  {
    var ds := Details(env, d);
    forall i | 0 <= i < |ds|
      ensures ds[i].classification == Inconclusive
    {
    }
    AllInconclusive(ds);
    ConsolidationConserves(env, d);
  }

  lemma {:induction false} AllInconclusive(ds: seq<Detail>)
    requires forall i :: 0 <= i < |ds| ==> ds[i].classification == Inconclusive
    ensures Count(ds, Inconclusive) == |ds|
  {
    if ds != [] {
      AllInconclusive(ds[..|ds| - 1]);
    }
  }

  lemma FeedbackBounds(corroborated: nat, contradicted: nat)
    ensures -1.0 <= Feedback(corroborated, contradicted) <= 1.0
    ensures Feedback(corroborated, contradicted) > 0.0 <==> corroborated > contradicted
    ensures corroborated > 0 && contradicted == 0 <==> Feedback(corroborated, contradicted) == 1.0
    ensures -1.0 <= Round4(Feedback(corroborated, contradicted)) <= 1.0
    ensures Round4(Feedback(corroborated, contradicted)) > 0.0 <==> Feedback(corroborated, contradicted) > SLACK
    ensures corroborated > 0 && contradicted == 0 ==> Round4(Feedback(corroborated, contradicted)) == 1.0
  {
    var matched := corroborated + contradicted;
    if matched > 0 {
      RatioBounds((corroborated - contradicted) as real, matched as real);
    }
    hide Round4;
    RoundsToPositive(Feedback(corroborated, contradicted));
    RoundsToOne(Feedback(corroborated, contradicted));
  }

  lemma RatioBounds(x: real, y: real)
    requires y > 0.0 && -y <= x <= y
    ensures -1.0 <= x / y <= 1.0
    ensures x / y > 0.0 <==> x > 0.0
    ensures x / y == 1.0 <==> x == y
  {
    QuotientBounds(x, y);
  }

  // ----------------------------------------------------- Outcome signal

  function SignalOf(c: Consolidated): Option<int> {
    if c.corroborated + c.contradicted == 0 then None
    else Some(if c.corroborated > c.contradicted then 1 else 0)
  }

  /** The loop body: what one expected outcome counts as. */
  method Judge(env: Env, e: Entry, byMetric: map<string, Entry>) returns (c: Classification)
    requires forall k :: k in byMetric ==> byMetric[k].Dict?
    ensures c == DetailOf(env, e, byMetric).classification
  {
    VerdictMeaning(env, e, byMetric);
    hide DetailOf, ToBinary, Prediction, Get;
    if e.NotADict? {
      return Inconclusive;
    }
    var metric := Get(e, "verifiable_by", Nil);
    if metric == Nil || env.str(metric) !in byMetric {
      return Inconclusive;
    }
    var positive := Prediction(env, e) >= PREDICTION_THRESHOLD;
    var binary := ToBinary(env, Get(byMetric[env.str(metric)], "value", Nil));
    if binary == None {
      return Inconclusive;
    }
    if (positive && binary.value == 1) || (!positive && binary.value == 0) {
      return Corroborated;
    }
    return Contradicted;
  }

  /**
   * The separate loop of the learning side agrees with consolidation on every
   * decision: it is None exactly when nothing matched, and otherwise 1 exactly when
   * corroborations outnumber contradictions.
   */
  method ComputeOutcomeSignal(env: Env, d: Decision) returns (signal: Option<int>)
    ensures signal == SignalOf(Consolidation(env, d))
  {
    if IsPending(d) || Actuals(d) == [] || d.expected == [] {
      NothingToSignal(env, d);
      return None;
    }
    var byMetric := BuildActualByMetric(env, Actuals(d));
    ghost var all := DetailsOf(env, d.expected, byMetric);
    hide DetailOf, DetailsOf, Count;
    NoDetails();
    var corroborated, contradicted := 0, 0;
    for i := 0 to |d.expected|
      invariant corroborated == Count(all[..i], Corroborated)
      invariant contradicted == Count(all[..i], Contradicted)
    {
      assert all[..i + 1] == all[..i] + [all[i]];
      AppendDetail(all[..i], all[i]);
      var verdict := Judge(env, d.expected[i], byMetric);
      if verdict == Inconclusive {
        continue;
      }
      if verdict == Corroborated {
        corroborated := corroborated + 1;
      } else {
        contradicted := contradicted + 1;
      }
    }
    assert all[..|d.expected|] == all;
    if corroborated + contradicted == 0 {
      return None;
    }
    return Some(if corroborated > contradicted then 1 else 0);
  }

  lemma NothingToSignal(env: Env, d: Decision)
    requires IsPending(d) || Actuals(d) == [] || d.expected == []
    ensures SignalOf(Consolidation(env, d)) == None
  {
    ConsolidationConserves(env, d);
    if IsPending(d) {
      NothingCounts(|d.expected|);
    } else if Actuals(d) == [] {
      NoActualsNoVerdict(env, d);
    }
  }

  lemma {:induction false} CountOfConcat(a: seq<Detail>, b: seq<Detail>, c: Classification)
    ensures Count(a + b, c) == Count(a, c) + Count(b, c)
    decreases |b|
  {
    if b == [] {
      assert a + b == a;
    } else {
      assert (a + b)[..|a + b| - 1] == a + b[..|b| - 1];
      CountOfConcat(a, b[..|b| - 1], c);
    }
  }

  lemma {:induction false} MatchedOfConcat(a: seq<Detail>, b: seq<Detail>)
    ensures MatchedPredictions(a + b) == MatchedPredictions(a) + MatchedPredictions(b)
    ensures MatchedOutcomes(a + b) == MatchedOutcomes(a) + MatchedOutcomes(b)
    decreases |b|
  {
    if b == [] {
      assert a + b == a;
    } else {
      assert (a + b)[..|a + b| - 1] == a + b[..|b| - 1];
      MatchedOfConcat(a, b[..|b| - 1]);
    }
  }

  lemma InsertInconclusive(f: seq<Detail>, x: Detail, b: seq<Detail>)
    requires x.classification == Inconclusive
    ensures Count(f + [x] + b, Corroborated) == Count(f + b, Corroborated)
    ensures Count(f + [x] + b, Contradicted) == Count(f + b, Contradicted)
    ensures MatchedPredictions(f + [x] + b) == MatchedPredictions(f + b)
    ensures MatchedOutcomes(f + [x] + b) == MatchedOutcomes(f + b)
  {
    forall c: Classification | c != Inconclusive
      ensures Count(f + [x] + b, c) == Count(f + b, c)
    {
      assert (f + [x])[..|f|] == f;
      CountOfConcat(f + [x], b, c);
      CountOfConcat(f, b, c);
    }
    assert (f + [x])[..|f|] == f;
    MatchedOfConcat(f + [x], b);
    MatchedOfConcat(f, b);
  }

  /** An expected outcome that no recorded actual outcome speaks about. */
  predicate Unmatched(env: Env, d: Decision, e: Entry) {
    e.NotADict? || Get(e, "verifiable_by", Nil) == Nil
    || env.str(Get(e, "verifiable_by", Nil)) !in ActualByMetric(env, Actuals(d))
  }

  lemma InsertedDetails(env: Env, d: Decision, front: seq<Entry>, e: Entry, back: seq<Entry>)
    returns (f: seq<Detail>, x: Detail, b: seq<Detail>)
    requires d.expected == front + back && Unmatched(env, d, e)
    ensures x.classification == Inconclusive
    ensures Details(env, d) == f + b
    ensures Details(env, d.(expected := front + [e] + back)) == f + [x] + b
  {
    if IsPending(d) {
      f, x, b := seq(|front|, i => NOTHING), NOTHING, seq(|back|, i => NOTHING);
    } else {
      var m := ActualByMetric(env, Actuals(d));
      f, x, b := DetailsOf(env, front, m), DetailOf(env, e, m), DetailsOf(env, back, m);
    }
  }

  lemma SameMatches(env: Env, d: Decision, d': Decision)
    requires d'.outcomeStatus == d.outcomeStatus && |d'.expected| == |d.expected| + 1
    requires var ds, ds' := Details(env, d), Details(env, d');
             && Count(ds', Corroborated) == Count(ds, Corroborated)
             && Count(ds', Contradicted) == Count(ds, Contradicted)
             && MatchedPredictions(ds') == MatchedPredictions(ds)
             && MatchedOutcomes(ds') == MatchedOutcomes(ds)
    ensures var c, c' := Consolidation(env, d), Consolidation(env, d');
            && c'.corroborated == c.corroborated && c'.contradicted == c.contradicted
            && c'.inconclusive == c.inconclusive + 1
            && c'.feedback == c.feedback && c'.brier == c.brier && c'.ece == c.ece
  {
    ConsolidationConserves(env, d);
    ConsolidationConserves(env, d');
  }

  /**
   * Inserting, anywhere, an expected outcome for which there is no actual outcome
   * changes neither the verdict counts, nor the feedback and scores, nor the signal.
   */
  lemma UnmatchedExpectationIsNeutral(env: Env, d: Decision, front: seq<Entry>, e: Entry, back: seq<Entry>)
    requires d.expected == front + back && Unmatched(env, d, e)
    ensures var c, c' := Consolidation(env, d), Consolidation(env, d.(expected := front + [e] + back));
            && c'.corroborated == c.corroborated && c'.contradicted == c.contradicted
            && c'.inconclusive == c.inconclusive + 1
            && c'.feedback == c.feedback && c'.brier == c.brier && c'.ece == c.ece
            && SignalOf(c') == SignalOf(c)
  {
    var d' := d.(expected := front + [e] + back);
    var f, x, b := InsertedDetails(env, d, front, e, back);
    InsertInconclusive(f, x, b);
    SameMatches(env, d, d');
  }

  // ------------------------------------------------------ Tenant batches

  datatype TenantError = CrossTenant(decision: int, owner: int, requested: int)

  datatype Report = Report(
    tenant: int, total: nat, withActuals: nat, corroborated: nat, contradicted: nat, inconclusive: nat,
    feedback: real, brier: Option<real>, ece: Option<real>, results: seq<Consolidated>)

  function Results(env: Env, ds: seq<Decision>): (rs: seq<Consolidated>)
    ensures |rs| == |ds|
    ensures forall i :: 0 <= i < |rs| ==> rs[i] == Consolidation(env, ds[i])
  {
    seq(|ds|, i requires 0 <= i < |ds| => Consolidation(env, ds[i]))
  }

  function AllDetails(rs: seq<Consolidated>): seq<Detail> {
    if rs == [] then [] else AllDetails(rs[..|rs| - 1]) + rs[|rs| - 1].details
  }

  function CountWithActuals(rs: seq<Consolidated>): nat {
    if rs == [] then 0
    else CountWithActuals(rs[..|rs| - 1]) + if rs[|rs| - 1].hasActuals then 1 else 0
  }

  /** The batch means: one consolidation over the details of all its decisions. */
  function BatchReport(env: Env, tenant: int, ds: seq<Decision>): Report {
    var rs := Results(env, ds);
    var all := AllDetails(rs);
    var ps, os := MatchedPredictions(all), MatchedOutcomes(all);
    var corr, contr := Count(all, Corroborated), Count(all, Contradicted);
    Report(tenant, |ds|, CountWithActuals(rs), corr, contr, Count(all, Inconclusive),
           Round4(Feedback(corr, contr)),
           if ps == [] then None else Some(Round4(Brier(ps, os))),
           if ps == [] then None else Some(Round4(Ece(ps, os, DEFAULT_BINS))), rs)
  }

  ghost predicate CountsMatch(c: Consolidated) {
    && c.corroborated == Count(c.details, Corroborated)
    && c.contradicted == Count(c.details, Contradicted)
    && c.inconclusive == Count(c.details, Inconclusive)
  }

  lemma AllDetailsStep(rs: seq<Consolidated>, i: int)
    requires 0 <= i < |rs|
    ensures var before, ds := AllDetails(rs[..i]), rs[i].details;
            && AllDetails(rs[..i + 1]) == before + ds
            && (forall c :: Count(before + ds, c) == Count(before, c) + Count(ds, c))
            && MatchedPredictions(before + ds) == MatchedPredictions(before) + MatchedPredictions(ds)
            && MatchedOutcomes(before + ds) == MatchedOutcomes(before) + MatchedOutcomes(ds)
  {
    var before, ds := AllDetails(rs[..i]), rs[i].details;
    assert rs[..i + 1][..i] == rs[..i];
    forall c
      ensures Count(before + ds, c) == Count(before, c) + Count(ds, c)
    {
      CountOfConcat(before, ds, c);
    }
    MatchedOfConcat(before, ds);
  }

  /** The sums over the results are the counts over the pooled details. */
  method Aggregate(rs: seq<Consolidated>)
    returns (corr: nat, contr: nat, incon: nat, withActuals: nat, preds: seq<real>, outs: seq<int>)
    requires forall c :: c in rs ==> CountsMatch(c)
    ensures corr == Count(AllDetails(rs), Corroborated)
    ensures contr == Count(AllDetails(rs), Contradicted)
    ensures incon == Count(AllDetails(rs), Inconclusive)
    ensures withActuals == CountWithActuals(rs)
    ensures preds == MatchedPredictions(AllDetails(rs)) && outs == MatchedOutcomes(AllDetails(rs))
  {
    corr, contr, incon, withActuals, preds, outs := 0, 0, 0, 0, [], [];
    for i := 0 to |rs|
      invariant corr == Count(AllDetails(rs[..i]), Corroborated)
      invariant contr == Count(AllDetails(rs[..i]), Contradicted)
      invariant incon == Count(AllDetails(rs[..i]), Inconclusive)
      invariant withActuals == CountWithActuals(rs[..i])
      invariant preds == MatchedPredictions(AllDetails(rs[..i]))
      invariant outs == MatchedOutcomes(AllDetails(rs[..i]))
    {
      var c := rs[i];
      assert CountsMatch(c);
      AllDetailsStep(rs, i);
      assert rs[..i + 1][..i] == rs[..i];
      corr, contr, incon := corr + c.corroborated, contr + c.contradicted, incon + c.inconclusive;
      withActuals := withActuals + if c.hasActuals then 1 else 0;
      preds := preds + MatchedPredictions(c.details);
      outs := outs + MatchedOutcomes(c.details);
    }
    assert rs[..|rs|] == rs;
  }

  method ConsolidateEach(env: Env, ds: seq<Decision>) returns (results: seq<Consolidated>)
    ensures results == Results(env, ds)
  {
    results := [];
    for i := 0 to |ds|
      invariant results == Results(env, ds)[..i]
    {
      var c := BuildConsolidation(env, ds[i]);
      results := results + [c];
    }
  }

  method Summarize(env: Env, tenant: int, ds: seq<Decision>) returns (r: Report)
    ensures r == BatchReport(env, tenant, ds)
  {
    var results := ConsolidateEach(env, ds);
    assert forall c :: c in results ==> CountsMatch(c);
    var corr, contr, incon, withActuals, preds, outs := Aggregate(results);
    var brier, ece := Scores(env, preds, outs);
    r := Report(tenant, |results|, withActuals, corr, contr, incon,
                Round4(Feedback(corr, contr)), brier, ece, results);
  }

  /** A foreign decision rejects the batch; otherwise the summed report is the pooled one. */
  method ConsolidateDecisions(env: Env, tenant: int, ds: seq<Decision>) returns (r: Result<Report, TenantError>)
    ensures r.Err? <==> exists d :: d in ds && d.tenant != tenant
    ensures r.Err? ==> exists i :: 0 <= i < |ds| && ds[i].tenant != tenant
                        && (forall j :: 0 <= j < i ==> ds[j].tenant == tenant)
                        && r.error == CrossTenant(ds[i].id, ds[i].tenant, tenant)
    ensures r.Ok? ==> r.value == BatchReport(env, tenant, ds)
  {
    for i := 0 to |ds|
      invariant forall j :: 0 <= j < i ==> ds[j].tenant == tenant
    {
      if ds[i].tenant != tenant {
        return Err(CrossTenant(ds[i].id, ds[i].tenant, tenant));
      }
    }
    var report := Summarize(env, tenant, ds);
    return Ok(report);
  }

  function SumEceMass(rs: seq<Consolidated>): real {
    if rs == [] then 0.0
    else
      var ds := rs[|rs| - 1].details;
      SumEceMass(rs[..|rs| - 1]) + EceMass(MatchedPredictions(ds), MatchedOutcomes(ds), DEFAULT_BINS)
  }

  function SumBrierMass(rs: seq<Consolidated>): real {
    if rs == [] then 0.0
    else
      var ds := rs[|rs| - 1].details;
      SumBrierMass(rs[..|rs| - 1]) + BrierMass(MatchedPredictions(ds), MatchedOutcomes(ds))
  }

  /**
   * Pooling a tenant's decisions, before rounding: weighted by matched counts, the
   * pooled ECE is at most the mean of the per-decision ECEs and the pooled Brier
   * score is exactly the mean of the per-decision Brier scores.
   */
  lemma {:induction false} PoolingTenant(rs: seq<Consolidated>)
    ensures var all := AllDetails(rs);
            && EceMass(MatchedPredictions(all), MatchedOutcomes(all), DEFAULT_BINS) <= SumEceMass(rs)
            && BrierMass(MatchedPredictions(all), MatchedOutcomes(all)) == SumBrierMass(rs)
    decreases |rs|
  {
    if rs == [] {
      EceMassIsTotal([], [], DEFAULT_BINS);
      EmptyAbsTotal(0, DEFAULT_BINS);
      assert Samples([], [], DEFAULT_BINS) == [];
    } else {
      var before, ds := AllDetails(rs[..|rs| - 1]), rs[|rs| - 1].details;
      PoolingTenant(rs[..|rs| - 1]);
      MatchedOfConcat(before, ds);
      PoolTwo(MatchedPredictions(before), MatchedOutcomes(before), MatchedPredictions(ds), MatchedOutcomes(ds), DEFAULT_BINS);
    }
  }

  // ------------------------------------------------------ Reported scores

  /** The scores a result reports are those of its matched details, rounded. */
  predicate Scored(c: Consolidated) {
    var ps, os := MatchedPredictions(c.details), MatchedOutcomes(c.details);
    && c.ece == (if ps == [] then None else Some(Round4(Ece(ps, os, DEFAULT_BINS))))
    && c.brier == (if ps == [] then None else Some(Round4(Brier(ps, os))))
  }

  function Matched(c: Consolidated): nat {
    |MatchedPredictions(c.details)|
  }

  function AllMatched(rs: seq<Consolidated>): nat {
    if rs == [] then 0 else AllMatched(rs[..|rs| - 1]) + Matched(rs[|rs| - 1])
  }

  function Weighted(n: nat, score: Option<real>): real {
    n as real * score.GetOr(0.0)
  }

  /** The reported scores weighted by matched counts, added up. */
  function ReportedEce(rs: seq<Consolidated>): real {
    if rs == [] then 0.0
    else
      var c := rs[|rs| - 1];
      ReportedEce(rs[..|rs| - 1]) + Weighted(Matched(c), c.ece)
  }

  function ReportedBrier(rs: seq<Consolidated>): real {
    if rs == [] then 0.0
    else
      var c := rs[|rs| - 1];
      ReportedBrier(rs[..|rs| - 1]) + Weighted(Matched(c), c.brier)
  }

  lemma RoundedMass(n: nat, x: real)
    ensures n as real * x - n as real * SLACK <= n as real * Round4(x) <= n as real * x + n as real * SLACK
  {
    hide Round4;
    RoundsNear(x);
    var r := Round4(x);
    NonNegativeProduct(n as real, r - x + SLACK);
    NonNegativeProduct(n as real, x + SLACK - r);
    assert n as real * (r - x + SLACK) == n as real * r - n as real * x + n as real * SLACK;
    assert n as real * (x + SLACK - r) == n as real * x + n as real * SLACK - n as real * r;
  }

  /** a and b differ by at most half a ten-thousandth for each of n matches. */
  predicate Near(n: nat, a: real, b: real) {
    b - n as real * SLACK <= a <= b + n as real * SLACK
  }

  lemma NearAddUp(m: nat, a: real, b: real, n: nat, c: real, d: real)
    requires Near(m, a, b) && Near(n, c, d)
    ensures Near(m + n, a + c, b + d)
  {
    assert (m + n) as real * SLACK == m as real * SLACK + n as real * SLACK;
  }

  lemma WeightedNear(n: nat, x: real, mass: real, score: Option<real>)
    requires mass == n as real * x && score == if n == 0 then None else Some(Round4(x))
    ensures Near(n, Weighted(n, score), mass)
  {
    RoundedMass(n, x);
    if n == 0 {
      NoMass(x);
      NoMass(0.0);
    }
  }

  lemma NoMass(x: real)
    ensures 0 as real * x == 0.0
  {
  }

  lemma ReportedMass(c: Consolidated)
    requires Scored(c)
    ensures var ps, os := MatchedPredictions(c.details), MatchedOutcomes(c.details);
            && Near(Matched(c), Weighted(Matched(c), c.ece), EceMass(ps, os, DEFAULT_BINS))
            && Near(Matched(c), Weighted(Matched(c), c.brier), BrierMass(ps, os))
  {
    var ps, os := MatchedPredictions(c.details), MatchedOutcomes(c.details);
    hide Near, Weighted, Round4, Ece, Brier, MatchedPredictions, MatchedOutcomes;
    WeightedNear(|ps|, Ece(ps, os, DEFAULT_BINS), EceMass(ps, os, DEFAULT_BINS), c.ece);
    WeightedNear(|ps|, Brier(ps, os), BrierMass(ps, os), c.brier);
  }

  lemma {:induction false} ReportedMasses(rs: seq<Consolidated>)
    requires forall c :: c in rs ==> Scored(c)
    ensures Near(AllMatched(rs), ReportedEce(rs), SumEceMass(rs)) && Near(AllMatched(rs), ReportedBrier(rs), SumBrierMass(rs))
    decreases |rs|
  {
    if rs == [] {
      NoMass(SLACK);
    } else {
      var init, c := rs[..|rs| - 1], rs[|rs| - 1];
      var ps, os := MatchedPredictions(c.details), MatchedOutcomes(c.details);
      hide Near, Weighted, Scored, EceMass, BrierMass, Matched, MatchedPredictions, MatchedOutcomes;
      ReportedMasses(init);
      ReportedMass(c);
      NearAddUp(AllMatched(init), ReportedEce(init), SumEceMass(init), Matched(c), Weighted(Matched(c), c.ece), EceMass(ps, os, DEFAULT_BINS));
      NearAddUp(AllMatched(init), ReportedBrier(init), SumBrierMass(init), Matched(c), Weighted(Matched(c), c.brier), BrierMass(ps, os));
    }
  }

  lemma {:induction false} MatchedAddUp(rs: seq<Consolidated>)
    ensures |MatchedPredictions(AllDetails(rs))| == AllMatched(rs)
    decreases |rs|
  {
    if rs != [] {
      MatchedAddUp(rs[..|rs| - 1]);
      MatchedOfConcat(AllDetails(rs[..|rs| - 1]), rs[|rs| - 1].details);
    }
  }

  lemma ResultsAreScored(env: Env, ds: seq<Decision>)
    ensures forall c :: c in Results(env, ds) ==> Scored(c)
  {
    hide Round4, Ece, Brier, Details, MatchedPredictions, MatchedOutcomes;
  }

  /**
   * What a report says after rounding: the pooled ECE is at most the mean of the reported
   * per-decision ECEs, weighted by matched counts, and the pooled Brier score is that mean
   * of the reported ones, each up to one ten-thousandth.
   */
  lemma ReportedPooling(env: Env, tenant: int, ds: seq<Decision>)
    ensures var r := BatchReport(env, tenant, ds);
            var n := AllMatched(r.results);
            && (r.ece.Some? <==> n > 0) && (r.brier.Some? <==> n > 0)
            && (n > 0 ==>
                  && r.ece.value <= ReportedEce(r.results) / n as real + 2.0 * SLACK
                  && ReportedBrier(r.results) / n as real - 2.0 * SLACK <= r.brier.value
                  && r.brier.value <= ReportedBrier(r.results) / n as real + 2.0 * SLACK)
  {
    var rs := Results(env, ds);
    var n, ps, os := AllMatched(rs), MatchedPredictions(AllDetails(rs)), MatchedOutcomes(AllDetails(rs));
    ResultsAreScored(env, ds);
    ReportedMasses(rs);
    MatchedAddUp(rs);
    PoolingTenant(rs);
    hide Near, Round4, Scored, Results, AllDetails, MatchedPredictions, MatchedOutcomes, SumEceMass, SumBrierMass, ReportedEce, ReportedBrier,
         Ece, Brier, Count, Feedback, CountWithActuals;
    if n > 0 {
      PooledEce(n, ps, os, SumEceMass(rs), ReportedEce(rs));
      PooledBrier(n, ps, os, SumBrierMass(rs), ReportedBrier(rs));
    }
    hide EceMass, BrierMass;
  }

  lemma PooledEce(n: nat, ps: seq<real>, os: seq<int>, mass: real, reported: real)
    requires 0 < n == |ps| == |os| && Near(n, reported, mass) && EceMass(ps, os, DEFAULT_BINS) <= mass
    ensures Round4(Ece(ps, os, DEFAULT_BINS)) <= reported / n as real + 2.0 * SLACK
  {
    PooledScore(n, Ece(ps, os, DEFAULT_BINS), mass, reported);
  }

  lemma PooledBrier(n: nat, ps: seq<real>, os: seq<int>, mass: real, reported: real)
    requires 0 < n == |ps| == |os| && Near(n, reported, mass) && BrierMass(ps, os) == mass
    ensures reported / n as real - 2.0 * SLACK <= Round4(Brier(ps, os)) <= reported / n as real + 2.0 * SLACK
  {
    PooledScore(n, Brier(ps, os), mass, reported);
  }

  /** From exact masses to the rounded score and the mean of the reported ones. */
  lemma PooledScore(n: nat, x: real, mass: real, reported: real)
    requires n > 0 && Near(n, reported, mass)
    ensures n as real * x <= mass ==> Round4(x) <= reported / n as real + 2.0 * SLACK
    ensures n as real * x == mass ==> reported / n as real - 2.0 * SLACK <= Round4(x)
  {
    hide Round4;
    RoundsNear(x);
    MeanBounds(n as real, x, reported);
  }

  lemma MeanBounds(n: real, x: real, sum: real)
    requires n > 0.0
    ensures n * x <= sum + n * SLACK ==> x <= sum / n + SLACK
    ensures sum - n * SLACK <= n * x ==> sum / n - SLACK <= x
  {
    var p, q := (x - SLACK) * n, (x + SLACK) * n;
    assert p == n * x - n * SLACK && q == n * x + n * SLACK;
    QuotientOrder(sum, n, x - SLACK, p);
    QuotientOrder(sum, n, x + SLACK, q);
  }
}
