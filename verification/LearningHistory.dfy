/**
 * The calibration history of libs/learning/learning_loop.py: decided outcomes joined
 * with the confidence that was claimed for them, and the calibration drawn from them.
 */
module LearningHistory {
  import opened Prelude
  import opened CalibrationModel
  import opened Rounding
  import C = Consolidation
  import Attribution

  datatype Judged = Judged(decision: C.Decision, confidenceId: int)
  datatype Score = Score(id: int, value: real)
  datatype Pair = Pair(confidence: real, outcome: int, decision: int)

  datatype History = History(pairs: seq<Pair>, ece: Option<real>, calibration: Option<real>)

  const MIN_PAIRS := 2
  const ECE_BINS := 10

  function ScoreId(s: Score): int {
    s.id
  }

  function PairOf(env: C.Env, d: Judged, byId: map<int, Score>): Option<Pair> {
    match C.SignalOf(C.Consolidation(env, d.decision))
    case None => None
    case Some(outcome) =>
      if d.confidenceId in byId then Some(Pair(byId[d.confidenceId].value, outcome, d.decision.id)) else None
  }

  function PairsOf(env: C.Env, decisions: seq<Judged>, byId: map<int, Score>): seq<Pair> {
    if decisions == [] then []
    else
      var last := PairOf(env, decisions[|decisions| - 1], byId);
      PairsOf(env, decisions[..|decisions| - 1], byId) + (if last.Some? then [last.value] else [])
  }

  function Confidences(pairs: seq<Pair>): (ps: seq<real>)
    ensures |ps| == |pairs| && forall i :: 0 <= i < |pairs| ==> ps[i] == pairs[i].confidence
  {
    seq(|pairs|, i requires 0 <= i < |pairs| => pairs[i].confidence)
  }

  function Outcomes(pairs: seq<Pair>): (os: seq<int>)
    ensures |os| == |pairs| && forall i :: 0 <= i < |pairs| ==> os[i] == pairs[i].outcome
  {
    seq(|pairs|, i requires 0 <= i < |pairs| => pairs[i].outcome)
  }

  /** The two numbers drawn from the pairs, each rounded to four digits; none from fewer than two pairs. */
  function HistoryOf(pairs: seq<Pair>): History {
    if |pairs| < MIN_PAIRS then History(pairs, None, None)
    else
      var ece := Round4(Ece(Confidences(pairs), Outcomes(pairs), ECE_BINS));
      History(pairs, Some(ece), Some(Round4(Clamp(1.0 - ece))))
  }

  /** build_learning_history. */
  method BuildLearningHistory(env: C.Env, decisions: seq<Judged>, scores: seq<Score>)
    returns (history: History)
    ensures history == HistoryOf(PairsOf(env, decisions, Attribution.IndexOf(scores, ScoreId)))
  {
    hide Ece, C.Consolidation, Attribution.IndexOf, Round4;
    var index := Attribution.Index(scores, ScoreId);
    var pairs := [];
    for i := 0 to |decisions|
      invariant pairs == PairsOf(env, decisions[..i], index)
    {
      assert decisions[..i + 1][..i] == decisions[..i];
      var outcome := C.ComputeOutcomeSignal(env, decisions[i].decision);
      if outcome == None {
        continue;
      }
      if decisions[i].confidenceId !in index {
        continue;
      }
      pairs := pairs + [Pair(index[decisions[i].confidenceId].value, outcome.value, decisions[i].decision.id)];
    }
    assert decisions[..|decisions|] == decisions;
    if |pairs| < MIN_PAIRS {
      return History(pairs, None, None);
    }
    var score := EceScore(Confidences(pairs), Outcomes(pairs), ECE_BINS);
    var ece := Round4(score.value);
    history := History(pairs, Some(ece), Some(Round4(Clamp(1.0 - ece))));
  }

  lemma PairIsSound(env: C.Env, d: Judged, scores: seq<Score>, byId: map<int, Score>)
    requires Attribution.IsIndex(scores, ScoreId, byId) && forall s :: s in scores ==> InUnit(s.value)
    ensures var p := PairOf(env, d, byId);
            p.Some? ==> InUnit(p.value.confidence) && (p.value.outcome == 0 || p.value.outcome == 1)
  {
    hide C.Consolidation;
    if d.confidenceId in byId {
      var j := Attribution.IndexedRow(scores, ScoreId, byId, d.confidenceId);
      hide Attribution.IsIndex;
      assert scores[j] in scores;
    }
  }

  lemma {:induction false} PairsAreSound(env: C.Env, decisions: seq<Judged>, scores: seq<Score>, byId: map<int, Score>)
    requires Attribution.IsIndex(scores, ScoreId, byId) && forall s :: s in scores ==> InUnit(s.value)
    ensures forall p :: p in PairsOf(env, decisions, byId) ==> InUnit(p.confidence) && (p.outcome == 0 || p.outcome == 1)
    ensures |PairsOf(env, decisions, byId)| <= |decisions|
    decreases |decisions|
  {
    if decisions != [] {
      PairsAreSound(env, decisions[..|decisions| - 1], scores, byId);
      PairIsSound(env, decisions[|decisions| - 1], scores, byId);
      hide PairOf;
    }
  }

  /**
   * The calibration fed back is exactly one minus the reported ECE, a number in [0, 1],
   * and it never flatters by more than the rounding: up to half a ten-thousandth it is at
   * most one minus the gap between the mean claimed confidence and the rate of met
   * outcomes, and at least one minus the mean absolute gap.
   */
  lemma CalibrationNeverFlatters(env: C.Env, decisions: seq<Judged>, scores: seq<Score>)
    requires forall s :: s in scores ==> InUnit(s.value)
    ensures var pairs := PairsOf(env, decisions, Attribution.IndexOf(scores, ScoreId));
            var history := HistoryOf(pairs);
            var d := Deviations(Confidences(pairs), Outcomes(pairs));
            && history.calibration.Some? == history.ece.Some? == (|pairs| >= MIN_PAIRS)
            && (|pairs| >= MIN_PAIRS ==>
                  && InUnit(history.calibration.value) && history.calibration.value == 1.0 - history.ece.value
                  && 1.0 - Mean(AbsAll(d)) - SLACK <= history.calibration.value <= 1.0 - Abs(Mean(d)) + SLACK)
  {
    hide Ece, Mean, Deviations, Round4, C.Consolidation, Attribution.IndexOf;
    var pairs := PairsOf(env, decisions, Attribution.IndexOf(scores, ScoreId));
    if |pairs| >= MIN_PAIRS {
      Attribution.IndexHoldsLast(scores, ScoreId);
      PairsAreSound(env, decisions, scores, Attribution.IndexOf(scores, ScoreId));
      var ps, os := Confidences(pairs), Outcomes(pairs);
      PairsAreScorable(pairs);
      ScoresAreUnit(ps, os, ECE_BINS);
      BiasBelowEce(ps, os, ECE_BINS);
      EceBelowAbsoluteError(ps, os, ECE_BINS);
      var ece := Ece(ps, os, ECE_BINS);
      RoundsNear(ece);
      RoundKeepsUnit(ece);
      ComplementStays(ece);
      assert Clamp(1.0 - Round4(ece)) == 1.0 - Round4(ece);
    }
  }

  lemma PairsAreScorable(pairs: seq<Pair>)
    requires forall p :: p in pairs ==> InUnit(p.confidence) && (p.outcome == 0 || p.outcome == 1)
    ensures Probabilities(Confidences(pairs)) && Binary(Outcomes(pairs))
  {
    forall i | 0 <= i < |pairs|
      ensures InUnit(Confidences(pairs)[i]) && (Outcomes(pairs)[i] == 0 || Outcomes(pairs)[i] == 1)
    {
      assert pairs[i] in pairs;
    }
  }
}
