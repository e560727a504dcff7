/**
 * The calibration arithmetic of libs/cognitive_core/calibration_model.py over the
 * reals: Brier score, binned expected calibration error (ECE), explanatory
 * coherence and final confidence.
 */
module CalibrationModel {
  import opened Prelude
  import opened Bins

  datatype CalibrationError =
    | LengthMismatch
    | ZeroBins
    | OutOfRange(name: string, value: real)

  predicate InUnit(x: real) {
    0.0 <= x <= 1.0
  }

  ghost predicate Probabilities(predictions: seq<real>) {
    forall i :: 0 <= i < |predictions| ==> InUnit(predictions[i])
  }

  ghost predicate Binary(outcomes: seq<int>) {
    forall i :: 0 <= i < |outcomes| ==> outcomes[i] == 0 || outcomes[i] == 1
  }

  function SumInt(s: seq<int>): int {
    if s == [] then 0 else SumInt(s[..|s| - 1]) + s[|s| - 1]
  }

  /** outcome - prediction, position by position. */
  function Deviations(predictions: seq<real>, outcomes: seq<int>): (r: seq<real>)
    requires |predictions| == |outcomes|
    ensures |r| == |predictions|
    ensures forall i :: 0 <= i < |r| ==> r[i] == outcomes[i] as real - predictions[i]
  {
    seq(|predictions|, i requires 0 <= i < |predictions| => outcomes[i] as real - predictions[i])
  }

  function Mean(s: seq<real>): real
    requires s != []
  {
    Sum(s) / |s| as real
  }

  // ---------------------------------------------------------------- Brier

  function Brier(predictions: seq<real>, outcomes: seq<int>): real
    requires |predictions| == |outcomes|
  {
    if predictions == [] then 0.0 else Mean(SquareAll(Deviations(predictions, outcomes)))
  }

  /** The strict zip raises on a length mismatch, but only once there is a prediction. */
  function BrierScore(predictions: seq<real>, outcomes: seq<int>): Result<real, CalibrationError> {
    if predictions == [] then Ok(0.0)
    else if |predictions| != |outcomes| then Err(LengthMismatch)
    else Ok(Brier(predictions, outcomes))
  }

  // ------------------------------------------------------------------ ECE

  function Edge(i: int, M: int): real
    requires M != 0
  {
    i as real / M as real
  }

  /** The bin test of the source: half open, except that the last bin is closed. */
  predicate InBin(p: real, m: int, M: int)
    requires M > 0
  {
    Edge(m, M) <= p && (p < Edge(m + 1, M) || (m == M - 1 && p <= Edge(m + 1, M)))
  }

  function Scaled(p: real, M: int): real {
    p * M as real
  }

  /** The number of the bin that holds p, or -1. */
  function BinOf(p: real, M: int): int
    requires M > 0
  {
    if p == 1.0 then M - 1
    else if 0.0 <= p < 1.0 then Scaled(p, M).Floor
    else -1
  }

  function PredictionsIn(predictions: seq<real>, m: int, M: int): seq<real>
    requires M > 0
  {
    if predictions == [] then []
    else
      var n := |predictions| - 1;
      PredictionsIn(predictions[..n], m, M) +
      if InBin(predictions[n], m, M) then [predictions[n]] else []
  }

  function OutcomesIn(predictions: seq<real>, outcomes: seq<int>, m: int, M: int): seq<int>
    requires M > 0 && |predictions| == |outcomes|
  {
    if predictions == [] then []
    else
      var n := |predictions| - 1;
      OutcomesIn(predictions[..n], outcomes[..n], m, M) +
      if InBin(predictions[n], m, M) then [outcomes[n]] else []
  }

  function Samples(predictions: seq<real>, outcomes: seq<int>, M: int): (r: seq<Sample>)
    requires M > 0 && |predictions| == |outcomes|
    ensures |r| == |predictions|
    ensures forall i :: 0 <= i < |r| ==>
              r[i] == Sample(BinOf(predictions[i], M), outcomes[i] as real - predictions[i])
  {
    seq(|predictions|, i requires 0 <= i < |predictions| =>
      Sample(BinOf(predictions[i], M), outcomes[i] as real - predictions[i]))
  }

  /** The mean, over all samples, of the absolute per-bin sums of the deviations. */
  function Ece(predictions: seq<real>, outcomes: seq<int>, M: int): real
    requires M > 0 && |predictions| == |outcomes|
  {
    if predictions == [] then 0.0
    else AbsTotal(Samples(predictions, outcomes, M), 0, M) / |predictions| as real
  }

  lemma DivLe(x: real, y: real, z: real)
    requires y > 0.0
    ensures x / y <= z <==> x <= z * y
    ensures z < x / y <==> z * y < x
  {
    QuotientOrder(x, y, z, z * y);
  }

  lemma FloorIsBetween(x: real, m: int)
    ensures x.Floor == m <==> m as real <= x < (m + 1) as real
  {
  }

  lemma EdgesAndFloor(p: real, m: int, M: int)
    requires M > 0
    ensures Edge(m, M) <= p < Edge(m + 1, M) <==> Scaled(p, M).Floor == m
  {
    DivLe(m as real, M as real, p);
    DivLe((m + 1) as real, M as real, p);
    FloorIsBetween(Scaled(p, M), m);
  }

  lemma EdgesInUnit(m: int, M: int)
    requires 0 <= m < M
    ensures 0.0 <= Edge(m, M) < 1.0 && 0.0 < Edge(m + 1, M) <= 1.0
    ensures Edge(m + 1, M) == 1.0 <==> m == M - 1
  {
    var y := M as real;
    QuotientBounds(m as real, y);
    QuotientBounds((m + 1) as real, y);
    assert 0.0 <= m as real < (m + 1) as real <= y;
    assert (m + 1) as real == y <==> m == M - 1;
  }

  lemma InBinIsBinOf(p: real, m: int, M: int)
    requires 0 <= m < M
    ensures InBin(p, m, M) <==> BinOf(p, M) == m
  {
    EdgesInUnit(m, M);
    EdgesAndFloor(p, m, M);
  }

  lemma BinOfRange(p: real, M: int)
    requires M > 0
    ensures InUnit(p) <==> 0 <= BinOf(p, M) < M
  {
    if 0.0 <= p < 1.0 {
      var x, y := Scaled(p, M), M as real;
      ScaleOrder(0.0, p, y);
      ScaleOrder(1.0, p, y);
      UnitMultiples(y);
      assert x == p * y;
      assert 0.0 <= x < y;
      FloorIsBetween(x, x.Floor);
    }
  }

  /** The bins 0 .. M-1 are disjoint and cover exactly [0, 1]. */
  lemma BinsAreAPartition(p: real, M: int)
    requires M > 0
    ensures InUnit(p) <==> 0 <= BinOf(p, M) < M
    ensures forall m :: 0 <= m < M ==> (InBin(p, m, M) <==> BinOf(p, M) == m)
  {
    BinOfRange(p, M);
    forall m | 0 <= m < M
      ensures InBin(p, m, M) <==> BinOf(p, M) == m
    {
      InBinIsBinOf(p, m, M);
    }
  }

  lemma {:induction false} SelectionIsGap(predictions: seq<real>, outcomes: seq<int>, m: int, M: int)
    requires 0 <= m < M && |predictions| == |outcomes|
    ensures |OutcomesIn(predictions, outcomes, m, M)| == |PredictionsIn(predictions, m, M)|
    ensures Gap(Samples(predictions, outcomes, M), m)
         == SumInt(OutcomesIn(predictions, outcomes, m, M)) as real - Sum(PredictionsIn(predictions, m, M))
    decreases |predictions|
  {
    if predictions != [] {
      var n := |predictions| - 1;
      SelectionIsGap(predictions[..n], outcomes[..n], m, M);
      BinsAreAPartition(predictions[n], M);
      var s := Samples(predictions, outcomes, M);
      assert s[..n] == Samples(predictions[..n], outcomes[..n], M);
      var ps, os := PredictionsIn(predictions[..n], m, M), OutcomesIn(predictions[..n], outcomes[..n], m, M);
      if InBin(predictions[n], m, M) {
        assert (ps + [predictions[n]])[..|ps|] == ps;
        assert (os + [outcomes[n]])[..|os|] == os;
      } else {
        assert ps + [] == ps && os + [] == os;
      }
    }
  }

  lemma {:induction false} NoSelection(predictions: seq<real>, m: int, M: int)
    requires 0 <= m < M
    ensures PredictionsIn(predictions, m, M) == [] <==>
            forall i :: 0 <= i < |predictions| ==> BinOf(predictions[i], M) != m
    decreases |predictions|
  {
    if predictions != [] {
      var n := |predictions| - 1;
      NoSelection(predictions[..n], m, M);
      BinsAreAPartition(predictions[n], M);
      assert forall i :: 0 <= i < n ==> predictions[..n][i] == predictions[i];
    }
  }

  lemma ScaleAbs(c: real, d: real)
    requires c > 0.0
    ensures c * Abs(d) == Abs(c * d)
  {
    if d < 0.0 {
      assert c * (-d) == -(c * d);
      assert c * (-d) > 0.0;
    } else {
      assert c * d >= 0.0;
    }
  }

  /** A bin's share of the samples times the gap of its means is the gap of its sums over n. */
  lemma BinContribution(c: real, n: real, so: real, sp: real)
    requires c > 0.0 && n > 0.0
    ensures (c / n) * Abs(so / c - sp / c) == Abs(so - sp) / n
  {
    var a, b, w := so / c, sp / c, c / n;
    assert a * c == so && b * c == sp && w * n == c;
    var d := a - b;
    assert c * d == so - sp;
    ScaleAbs(c, d);
    MoveQuotient(w, Abs(d), n, c);
  }

  lemma MoveQuotient(w: real, v: real, n: real, c: real)
    requires n > 0.0 && w * n == c
    ensures w * v == (c * v) / n
  {
    assert (w * v) * n == c * v;
  }

  lemma AddQuotients(a: real, b: real, n: real)
    requires n > 0.0
    ensures a / n + b / n == (a + b) / n
  {
  }

  /** A bin's weight times |accuracy - confidence|, from its size and its two sums. */
  function WeightedGap(count: int, n: int, outcomeSum: int, predictionSum: real): real
    requires count > 0 && n > 0
  {
    var acc := outcomeSum as real / count as real;
    var conf := predictionSum / count as real;
    (count as real / n as real) * Abs(acc - conf)
  }

  lemma WeightedGapIsSumGap(count: int, n: int, outcomeSum: int, predictionSum: real)
    requires count > 0 && n > 0
    ensures WeightedGap(count, n, outcomeSum, predictionSum)
         == Abs(outcomeSum as real - predictionSum) / n as real
  {
    BinContribution(count as real, n as real, outcomeSum as real, predictionSum);
  }

  /** The weighted gap of one bin, as the source writes it. */
  function BinTerm(predictions: seq<real>, outcomes: seq<int>, m: int, M: int): real
    requires 0 <= m < M && |predictions| == |outcomes| && PredictionsIn(predictions, m, M) != []
  {
    SelectionIsGap(predictions, outcomes, m, M);
    var ps, os := PredictionsIn(predictions, m, M), OutcomesIn(predictions, outcomes, m, M);
    WeightedGap(|ps|, |predictions|, SumInt(os), Sum(ps))
  }

  /** The ECE of the bins before m. */
  function PartialEce(predictions: seq<real>, outcomes: seq<int>, m: int, M: int): real
    requires M > 0 && |predictions| == |outcomes| && predictions != []
  {
    AbsTotal(Samples(predictions, outcomes, M), 0, m) / |predictions| as real
  }

  lemma BinTermIsGap(predictions: seq<real>, outcomes: seq<int>, m: int, M: int)
    requires 0 <= m < M && |predictions| == |outcomes| && PredictionsIn(predictions, m, M) != []
    ensures predictions != []
    ensures BinTerm(predictions, outcomes, m, M)
         == Abs(Gap(Samples(predictions, outcomes, M), m)) / |predictions| as real
  {
    SelectionIsGap(predictions, outcomes, m, M);
    var ps, os := PredictionsIn(predictions, m, M), OutcomesIn(predictions, outcomes, m, M);
    WeightedGapIsSumGap(|ps|, |predictions|, SumInt(os), Sum(ps));
  }

  lemma PartialEceGrows(predictions: seq<real>, outcomes: seq<int>, m: int, M: int)
    requires 0 <= m < M && |predictions| == |outcomes| && predictions != []
    ensures PartialEce(predictions, outcomes, m + 1, M)
         == PartialEce(predictions, outcomes, m, M) + Abs(Gap(Samples(predictions, outcomes, M), m)) / |predictions| as real
  {
    hide Gap;
    AddQuotients(AbsTotal(Samples(predictions, outcomes, M), 0, m), Abs(Gap(Samples(predictions, outcomes, M), m)), |predictions| as real);
  }

  lemma EmptyBinHasNoGap(predictions: seq<real>, outcomes: seq<int>, m: int, M: int)
    requires 0 <= m < M && |predictions| == |outcomes| && PredictionsIn(predictions, m, M) == []
    ensures Gap(Samples(predictions, outcomes, M), m) == 0.0
  {
    SelectionIsGap(predictions, outcomes, m, M);
    hide Gap, PredictionsIn, OutcomesIn;
    assert OutcomesIn(predictions, outcomes, m, M) == [];
  }

  lemma PartialEceStep(predictions: seq<real>, outcomes: seq<int>, m: int, M: int)
    requires 0 <= m < M && |predictions| == |outcomes| && predictions != []
    ensures PartialEce(predictions, outcomes, m + 1, M)
         == PartialEce(predictions, outcomes, m, M)
            + if PredictionsIn(predictions, m, M) == [] then 0.0 else BinTerm(predictions, outcomes, m, M)
  {
    hide Gap, PartialEce, BinTerm, PredictionsIn;
    PartialEceGrows(predictions, outcomes, m, M);
    if PredictionsIn(predictions, m, M) == [] {
      EmptyBinHasNoGap(predictions, outcomes, m, M);
      ZeroQuotient(|predictions| as real);
    } else {
      BinTermIsGap(predictions, outcomes, m, M);
    }
  }

  lemma ZeroQuotient(n: real)
    requires n > 0.0
    ensures Abs(0.0) / n == 0.0
  {
  }

  /** The bin loop computes the mean of the absolute per-bin sums, whatever the bins' sizes. */
  method EceScore(predictions: seq<real>, outcomes: seq<int>, M: int := 10)
    returns (r: Result<real, CalibrationError>)
    ensures predictions == [] || M < 0 ==> r == Ok(0.0)
    ensures predictions != [] && M == 0 ==> r == Err(ZeroBins)
    ensures predictions != [] && M > 0 && |predictions| == |outcomes| ==> r == Ok(Ece(predictions, outcomes, M))
    ensures predictions != [] && M > 0 && |predictions| != |outcomes| ==>
              r == if exists p :: p in predictions && InUnit(p) then Err(LengthMismatch) else Ok(0.0)
  {
    if predictions == [] {
      return Ok(0.0);
    }
    if M == 0 {
      return Err(ZeroBins);
    }
    var ece := 0.0;
    var m := 0;
    while m < M
      invariant 0 <= m && (M > 0 ==> m <= M)
      invariant M < 0 || |predictions| != |outcomes| ==> ece == 0.0
      invariant M > 0 && |predictions| == |outcomes| ==> ece == PartialEce(predictions, outcomes, m, M)
      invariant M > 0 && |predictions| != |outcomes| ==>
                  forall p :: p in predictions ==> !(0 <= BinOf(p, M) < m)
    {
      var binPredictions := PredictionsIn(predictions, m, M);
      NoSelection(predictions, m, M);
      if binPredictions != [] {
        if |predictions| != |outcomes| {
          var i :| 0 <= i < |predictions| && BinOf(predictions[i], M) == m;
          BinOfRange(predictions[i], M);
          return Err(LengthMismatch);
        }
        ece := ece + BinTerm(predictions, outcomes, m, M);
      }
      if |predictions| == |outcomes| {
        PartialEceStep(predictions, outcomes, m, M);
      }
      m := m + 1;
    }
    forall p | p in predictions && M > 0
      ensures InUnit(p) <==> 0 <= BinOf(p, M) < M
    {
      BinOfRange(p, M);
    }
    return Ok(ece);
  }

  // ------------------------------------------------------ Inequality chain

  lemma DivMono(a: real, b: real, n: real)
    requires n > 0.0 && a <= b
    ensures a / n <= b / n
  {
    DivLe(a, n, b / n);
    assert (b / n) * n == b;
  }

  lemma AbsQuotient(d: real, t: real, n: real)
    requires n > 0.0 && Abs(d) <= t
    ensures Abs(d / n) <= t / n
  {
    DivMono(d, t, n);
    DivMono(-d, t, n);
    assert (-d) / n == -(d / n);
  }

  lemma SamplesAreDeviations(predictions: seq<real>, outcomes: seq<int>, M: int)
    requires M > 0 && |predictions| == |outcomes|
    ensures Gaps(Samples(predictions, outcomes, M)) == Deviations(predictions, outcomes)
    ensures Probabilities(predictions) ==> Within(Samples(predictions, outcomes, M), 0, M)
  {
    var s := Samples(predictions, outcomes, M);
    assert Gaps(s) == Deviations(predictions, outcomes);
    if Probabilities(predictions) {
      forall i | 0 <= i < |s|
        ensures 0 <= s[i].bin < M
      {
        BinsAreAPartition(predictions[i], M);
      }
    }
  }

  /** |mean(o) - mean(p)| <= ECE: no binning hides an overall bias. */
  lemma BiasBelowEce(predictions: seq<real>, outcomes: seq<int>, M: int)
    requires M > 0 && |predictions| == |outcomes| && predictions != [] && Probabilities(predictions)
    ensures Abs(Mean(Deviations(predictions, outcomes))) <= Ece(predictions, outcomes, M)
  {
    var s := Samples(predictions, outcomes, M);
    SamplesAreDeviations(predictions, outcomes, M);
    BinsPartition(s, 0, M);
    TriangleOverBins(s, 0, M);
    AbsQuotient(Sum(Deviations(predictions, outcomes)), AbsTotal(s, 0, M), |predictions| as real);
  }

  /** ECE <= mean |o - p|. */
  lemma EceBelowAbsoluteError(predictions: seq<real>, outcomes: seq<int>, M: int)
    requires M > 0 && |predictions| == |outcomes| && predictions != [] && Probabilities(predictions)
    ensures Ece(predictions, outcomes, M) <= Mean(AbsAll(Deviations(predictions, outcomes)))
  {
    var s := Samples(predictions, outcomes, M);
    SamplesAreDeviations(predictions, outcomes, M);
    TotalBelowAbsoluteSum(s, 0, M);
    DivMono(AbsTotal(s, 0, M), Sum(AbsAll(Gaps(s))), |predictions| as real);
  }

  lemma FloorBetween(z: real, lo: int, hi: int)
    requires lo as real <= z < hi as real
    ensures lo <= z.Floor < hi
  {
  }

  lemma ScaledOrder(a: real, b: real, k: int)
    requires k > 0
    ensures a < b ==> Scaled(a, k) < Scaled(b, k)
    ensures Scaled(a + 1.0, k) == Scaled(a, k) + k as real
  {
    ScaleOrder(b, a, k as real);
  }

  lemma ScaledCast(f: int, k: int)
    ensures (f * k) as real == Scaled(f as real, k)
  {
  }

  lemma SumAsReal(lo: int, k: int, z: real, w: real)
    requires w == lo as real && w <= z < w + k as real
    ensures lo as real <= z < (lo + k) as real
  {
  }

  lemma StretchFloor(f: int, x: real, k: int)
    requires f as real <= x < f as real + 1.0 && k > 0
    ensures (f * k) as real <= Scaled(x, k) < (f * k + k) as real
  {
    var a := f as real;
    ScaledOrder(a, x, k);
    ScaledOrder(x, a + 1.0, k);
    ScaledCast(f, k);
    SumAsReal(f * k, k, Scaled(x, k), Scaled(f as real, k));
  }

  lemma FloorOfQuotient(x: real, k: int)
    requires k > 0
    ensures Scaled(x, k).Floor / k == x.Floor
  {
    StretchFloor(x.Floor, x, k);
    FloorBetween(Scaled(x, k), x.Floor * k, x.Floor * k + k);
    QuotientRange(Scaled(x, k).Floor, k, x.Floor);
  }

  lemma ScaleTwice(p: real, M: int, k: int)
    ensures Scaled(p, M * k) == Scaled(Scaled(p, M), k)
  {
    ScaledCast(M, k);
  }

  lemma LastBinNests(M: int, k: int)
    requires k > 0
    ensures (M * k - 1) / k == M - 1
  {
    assert (M - 1) * k == M * k - k;
    QuotientRange(M * k - 1, k, M - 1);
  }

  lemma MinusOneNests(k: int)
    requires k > 0
    ensures (-1) / k == -1
  {
    QuotientRange(-1, k, -1);
  }

  lemma BinsNest(p: real, M: int, k: int)
    requires M > 0 && k > 0
    ensures M * k > 0
    ensures BinOf(p, M) == BinOf(p, M * k) / k
  {
    ProductPositive(M, k);
    if p == 1.0 {
      LastBinNests(M, k);
    } else if 0.0 <= p < 1.0 {
      FloorOfQuotient(Scaled(p, M), k);
      ScaleTwice(p, M, k);
    } else {
      MinusOneNests(k);
    }
  }

  lemma ProductPositive(a: int, b: int)
    requires a > 0 && b > 0
    ensures a * b > 0
  {
  }

  /** Splitting every bin into k equal bins never lowers the ECE, for any predictions. */
  lemma FinerBinsRaiseEce(predictions: seq<real>, outcomes: seq<int>, M: int, k: int)
    requires M > 0 && k > 0 && |predictions| == |outcomes|
    ensures M * k > 0
    ensures Ece(predictions, outcomes, M) <= Ece(predictions, outcomes, M * k)
  {
    ProductPositive(M, k);
    if predictions != [] {
      var coarse, fine := Samples(predictions, outcomes, M), Samples(predictions, outcomes, M * k);
      forall i | 0 <= i < |fine|
        ensures coarse[i].gap == fine[i].gap && coarse[i].bin == fine[i].bin / k
      {
        BinsNest(predictions[i], M, k);
      }
      RefiningRaises(coarse, fine, k, M);
      DivMono(AbsTotal(coarse, 0, M), AbsTotal(fine, 0, M * k), |predictions| as real);
    }
  }

  lemma SquareMono(a: real, b: real)
    requires 0.0 <= a <= b
    ensures a * a <= b * b
  {
    assert b * b - a * a == (b - a) * (b + a);
  }

  lemma SquareOfQuotient(s: real, q: real, n: real)
    requires n > 0.0 && s * s <= n * q
    ensures (s / n) * (s / n) <= q / n
  {
    var m := s / n;
    assert m * n == s;
    var w := m * m;
    assert (w * n) * n == s * s by {
      assert (m * n) * (m * n) == (w * n) * n;
    }
    ScaleOrder(w * n, q, n);
    var h := q / n;
    assert h * n == q;
    ScaleOrder(w, h, n);
  }

  /** (mean |d|)^2 <= mean d^2. */
  lemma MeanSquare(d: seq<real>)
    requires d != []
    ensures Mean(AbsAll(d)) * Mean(AbsAll(d)) <= Mean(SquareAll(d))
  {
    var a := AbsAll(d);
    SquareOfSum(a);
    forall i | 0 <= i < |d|
      ensures SquareAll(a)[i] == SquareAll(d)[i]
    {
    }
    assert SquareAll(a) == SquareAll(d);
    SquareOfQuotient(Sum(a), Sum(SquareAll(d)), |d| as real);
  }

  lemma {:induction false} AbsTotalNonNegative(s: seq<Sample>, lo: int, hi: int)
    ensures 0.0 <= AbsTotal(s, lo, hi)
    decreases hi - lo
  {
    if lo < hi {
      AbsTotalNonNegative(s, lo, hi - 1);
    }
  }

  /** ECE^2 <= Brier. */
  lemma EceSquaredBelowBrier(predictions: seq<real>, outcomes: seq<int>, M: int)
    requires M > 0 && |predictions| == |outcomes| && Probabilities(predictions)
    ensures 0.0 <= Ece(predictions, outcomes, M)
    ensures Ece(predictions, outcomes, M) * Ece(predictions, outcomes, M) <= Brier(predictions, outcomes)
  {
    if predictions != [] {
      var d := Deviations(predictions, outcomes);
      AbsTotalNonNegative(Samples(predictions, outcomes, M), 0, M);
      DivMono(0.0, AbsTotal(Samples(predictions, outcomes, M), 0, M), |predictions| as real);
      EceBelowAbsoluteError(predictions, outcomes, M);
      SquareMono(Ece(predictions, outcomes, M), Mean(AbsAll(d)));
      MeanSquare(d);
    }
  }

  /**
   * The whole chain for probabilities: |bias| <= ECE_M <= ECE_Mk <= mean |o - p|
   * and ECE_Mk^2 <= Brier.
   */
  lemma CalibrationChain(predictions: seq<real>, outcomes: seq<int>, M: int, k: int)
    requires M > 0 && k > 0 && |predictions| == |outcomes| && predictions != [] && Probabilities(predictions)
    ensures M * k > 0
    ensures Abs(Mean(Deviations(predictions, outcomes))) <= Ece(predictions, outcomes, M)
         <= Ece(predictions, outcomes, M * k) <= Mean(AbsAll(Deviations(predictions, outcomes)))
    ensures Ece(predictions, outcomes, M * k) * Ece(predictions, outcomes, M * k) <= Brier(predictions, outcomes)
  {
    BiasBelowEce(predictions, outcomes, M);
    FinerBinsRaiseEce(predictions, outcomes, M, k);
    EceBelowAbsoluteError(predictions, outcomes, M * k);
    EceSquaredBelowBrier(predictions, outcomes, M * k);
  }

  lemma {:induction false} SumOfUnits(s: seq<real>)
    requires forall i :: 0 <= i < |s| ==> InUnit(s[i])
    ensures 0.0 <= Sum(s) <= |s| as real
  {
    if s != [] {
      SumOfUnits(s[..|s| - 1]);
    }
  }

  lemma MeanOfUnits(s: seq<real>)
    requires s != [] && forall i :: 0 <= i < |s| ==> InUnit(s[i])
    ensures InUnit(Mean(s))
  {
    SumOfUnits(s);
    QuotientBounds(Sum(s), |s| as real);
  }

  lemma UnitDeviation(p: real, o: int)
    requires InUnit(p) && (o == 0 || o == 1)
    ensures var d := o as real - p; InUnit(Abs(d)) && InUnit(d * d)
  {
    var d := o as real - p;
    SquareMono(Abs(d), 1.0);
    assert d * d == Abs(d) * Abs(d);
    assert d * d >= 0.0;
  }

  /** On the promised inputs both scores lie in [0, 1], so 1 - ECE is a valid calibration factor. */
  lemma ScoresAreUnit(predictions: seq<real>, outcomes: seq<int>, M: int)
    requires M > 0 && |predictions| == |outcomes| && Probabilities(predictions) && Binary(outcomes)
    ensures InUnit(Ece(predictions, outcomes, M))
    ensures InUnit(Brier(predictions, outcomes))
  {
    if predictions != [] {
      var d := Deviations(predictions, outcomes);
      forall i | 0 <= i < |d|
        ensures InUnit(AbsAll(d)[i]) && InUnit(SquareAll(d)[i])
      {
        UnitDeviation(predictions[i], outcomes[i]);
      }
      MeanOfUnits(AbsAll(d));
      MeanOfUnits(SquareAll(d));
      EceBelowAbsoluteError(predictions, outcomes, M);
      EceSquaredBelowBrier(predictions, outcomes, M);
    }
  }

  // ------------------------------------------------------------ Pooling

  /** n times the ECE, n times the Brier score: what pooling adds up. */
  function EceMass(predictions: seq<real>, outcomes: seq<int>, M: int): real
    requires M > 0 && |predictions| == |outcomes|
  {
    |predictions| as real * Ece(predictions, outcomes, M)
  }

  function BrierMass(predictions: seq<real>, outcomes: seq<int>): real
    requires |predictions| == |outcomes|
  {
    |predictions| as real * Brier(predictions, outcomes)
  }

  lemma TimesQuotient(t: real, n: real)
    requires n != 0.0
    ensures n * (t / n) == t
  {
  }

  lemma {:induction false} EmptyAbsTotal(lo: int, hi: int)
    ensures AbsTotal([], lo, hi) == 0.0
    decreases hi - lo
  {
    if lo < hi {
      EmptyAbsTotal(lo, hi - 1);
    }
  }

  lemma EceMassIsTotal(predictions: seq<real>, outcomes: seq<int>, M: int)
    requires M > 0 && |predictions| == |outcomes|
    ensures EceMass(predictions, outcomes, M) == AbsTotal(Samples(predictions, outcomes, M), 0, M)
  {
    var s := Samples(predictions, outcomes, M);
    if predictions == [] {
      assert s == [];
      EmptyAbsTotal(0, M);
    } else {
      TimesQuotient(AbsTotal(s, 0, M), |predictions| as real);
    }
  }

  lemma BrierMassIsSum(predictions: seq<real>, outcomes: seq<int>)
    requires |predictions| == |outcomes|
    ensures BrierMass(predictions, outcomes) == Sum(SquareAll(Deviations(predictions, outcomes)))
  {
    var q := SquareAll(Deviations(predictions, outcomes));
    if predictions == [] {
      assert q == [];
    } else {
      TimesQuotient(Sum(q), |predictions| as real);
    }
  }

  /** Pooling two sets of forecasts can only lower the ECE mass, and adds the Brier masses. */
  lemma PoolTwo(p1: seq<real>, o1: seq<int>, p2: seq<real>, o2: seq<int>, M: int)
    requires M > 0 && |p1| == |o1| && |p2| == |o2|
    ensures EceMass(p1 + p2, o1 + o2, M) <= EceMass(p1, o1, M) + EceMass(p2, o2, M)
    ensures BrierMass(p1 + p2, o1 + o2) == BrierMass(p1, o1) + BrierMass(p2, o2)
  {
    PoolEce(p1, o1, p2, o2, M);
    PoolBrier(p1, o1, p2, o2);
  }

  lemma PoolEce(p1: seq<real>, o1: seq<int>, p2: seq<real>, o2: seq<int>, M: int)
    requires M > 0 && |p1| == |o1| && |p2| == |o2|
    ensures EceMass(p1 + p2, o1 + o2, M) <= EceMass(p1, o1, M) + EceMass(p2, o2, M)
  {
    EceMassIsTotal(p1, o1, M);
    EceMassIsTotal(p2, o2, M);
    EceMassIsTotal(p1 + p2, o1 + o2, M);
    assert Samples(p1 + p2, o1 + o2, M) == Samples(p1, o1, M) + Samples(p2, o2, M);
    PoolingLowers(Samples(p1, o1, M), Samples(p2, o2, M), 0, M);
  }

  lemma SquaresOfConcat(a: seq<real>, b: seq<real>)
    ensures SquareAll(a + b) == SquareAll(a) + SquareAll(b)
  {
    hide Square;
  }

  lemma DeviationsOfConcat(p1: seq<real>, o1: seq<int>, p2: seq<real>, o2: seq<int>)
    requires |p1| == |o1| && |p2| == |o2|
    ensures Deviations(p1 + p2, o1 + o2) == Deviations(p1, o1) + Deviations(p2, o2)
  {
  }

  lemma PoolBrier(p1: seq<real>, o1: seq<int>, p2: seq<real>, o2: seq<int>)
    requires |p1| == |o1| && |p2| == |o2|
    ensures BrierMass(p1 + p2, o1 + o2) == BrierMass(p1, o1) + BrierMass(p2, o2)
  {
    BrierMassIsSum(p1, o1);
    BrierMassIsSum(p2, o2);
    BrierMassIsSum(p1 + p2, o1 + o2);
    DeviationsOfConcat(p1, o1, p2, o2);
    hide Square, BrierMass, Deviations, SquareAll, Sum;
    SquaresOfConcat(Deviations(p1, o1), Deviations(p2, o2));
    SumConcat(SquareAll(Deviations(p1, o1)), SquareAll(Deviations(p2, o2)));
  }

  // -------------------------------------------------------- Confidence

  function Blended(S: real, C: real, alpha: real): real {
    alpha * S + (1.0 - alpha) * C
  }

  function Discounted(x: real, ece: real): real {
    x * (1.0 - ece)
  }

  /** The four range checks run in the order S, C, ECE, alpha. */
  function FinalConfidence(S: real, C: real, ece: real, alpha: real := 0.5): Result<real, CalibrationError> {
    if !InUnit(S) then Err(OutOfRange("S", S))
    else if !InUnit(C) then Err(OutOfRange("C", C))
    else if !InUnit(ece) then Err(OutOfRange("ECE", ece))
    else if !InUnit(alpha) then Err(OutOfRange("alpha", alpha))
    else Ok(Clamp(Discounted(Blended(S, C, alpha), ece)))
  }

  lemma ProductOfUnits(a: real, b: real)
    requires InUnit(a) && InUnit(b)
    ensures 0.0 <= a * b <= a && a * b <= b
  {
    assert (1.0 - b) * a >= 0.0;
    assert (1.0 - a) * b >= 0.0;
  }

  lemma Blend(S: real, C: real, alpha: real)
    requires InUnit(S) && InUnit(C) && InUnit(alpha)
    ensures var x := Blended(S, C, alpha);
            InUnit(x) && (if S <= C then S <= x <= C else C <= x <= S)
  {
    if S <= C {
      Lerp(S, C, 1.0 - alpha);
      assert Blended(S, C, alpha) == Blended(C, S, 1.0 - alpha);
    } else {
      Lerp(C, S, alpha);
    }
  }

  lemma Lerp(low: real, high: real, t: real)
    requires low <= high && InUnit(t)
    ensures low <= Blended(high, low, t) <= high
  {
    var g := high - low;
    assert Blended(high, low, t) == low + t * g;
    assert t * g >= 0.0;
    assert (1.0 - t) * g >= 0.0;
    assert (1.0 - t) * g == g - t * g;
  }

  lemma Discount(x: real, ece: real)
    requires InUnit(x) && InUnit(ece)
    ensures 0.0 <= Discounted(x, ece) <= x
    ensures ece == 1.0 ==> Discounted(x, ece) == 0.0
  {
    ProductOfUnits(x, 1.0 - ece);
  }

  /**
   * The score succeeds exactly on unit inputs; there the clamp changes nothing, the
   * score never exceeds the larger of S and C, and an ECE of 1 wipes it out.
   */
  lemma FinalConfidenceRange(S: real, C: real, ece: real, alpha: real)
    ensures FinalConfidence(S, C, ece, alpha).Ok? <==> InUnit(S) && InUnit(C) && InUnit(ece) && InUnit(alpha)
    ensures FinalConfidence(S, C, ece, alpha).Ok? ==>
              var r := FinalConfidence(S, C, ece, alpha).value;
              && r == Discounted(Blended(S, C, alpha), ece)
              && 0.0 <= r <= (if S <= C then C else S)
              && (ece == 1.0 ==> r == 0.0)
  {
    if InUnit(S) && InUnit(C) && InUnit(ece) && InUnit(alpha) {
      Blend(S, C, alpha);
      Discount(Blended(S, C, alpha), ece);
    }
  }

  /** A worse measured calibration never raises the score. */
  lemma FinalConfidenceAntitone(S: real, C: real, ece: real, worse: real, alpha: real)
    requires FinalConfidence(S, C, ece, alpha).Ok? && FinalConfidence(S, C, worse, alpha).Ok?
    requires ece <= worse
    ensures FinalConfidence(S, C, worse, alpha).value <= FinalConfidence(S, C, ece, alpha).value
  {
    FinalConfidenceRange(S, C, ece, alpha);
    FinalConfidenceRange(S, C, worse, alpha);
    Blend(S, C, alpha);
    var x := Blended(S, C, alpha);
    assert Discounted(x, ece) - Discounted(x, worse) == x * (worse - ece);
    ProductOfUnits(x, worse - ece);
  }

  // ---------------------------------------------------------- Coherence

  datatype Constraints = Constraints(explains: set<string>, contradicts: set<string>,
                                     coherentWith: set<string>, incoherentWith: set<string>)

  function Positive(scope: set<string>, c: Constraints): nat {
    |c.explains * scope| + |c.coherentWith|
  }

  function Negative(scope: set<string>, c: Constraints): nat {
    |c.contradicts * scope| + |c.incoherentWith|
  }

  function Unexplained(scope: set<string>, c: Constraints): nat {
    |scope - (c.explains + c.contradicts)|
  }

  function ExplanatoryCoherence(evidence: seq<string>, c: Constraints): real {
    var scope := set e | e in evidence;
    if scope == {} then 0.5
    else
      var total := Positive(scope, c) + Negative(scope, c) + Unexplained(scope, c);
      if total == 0 then 0.5 else Clamp(Positive(scope, c) as real / total as real)
  }

  /** Every label in scope is counted at least once, so the second neutral branch is dead. */
  lemma ScopeIsCounted(scope: set<string>, c: Constraints)
    ensures |scope| <= |c.explains * scope| + |c.contradicts * scope| + Unexplained(scope, c)
  {
    var e, k, u := c.explains * scope, c.contradicts * scope, scope - (c.explains + c.contradicts);
    assert scope == e + k + u;
    assert |e + k| <= |e| + |k|;
    assert |e + k + u| <= |e + k| + |u|;
  }

  lemma RatioMeaning(p: nat, rest: nat)
    requires p + rest > 0
    ensures var r := p as real / (p + rest) as real;
            InUnit(r) && (r == 1.0 <==> rest == 0) && (r == 0.0 <==> p == 0)
  {
    var t := (p + rest) as real;
    QuotientBounds(p as real, t);
  }

  /**
   * With evidence in scope the score is the plain ratio, is 1 exactly when nothing
   * counts against the hypothesis, and is 0 exactly when nothing counts for it. So
   * a hypothesis that explains nothing still scores above 0 when it has a coherent ally.
   */
  lemma CoherenceMeaning(evidence: seq<string>, c: Constraints)
    requires evidence != []
    ensures var scope := set e | e in evidence;
            var P, N, U := Positive(scope, c), Negative(scope, c), Unexplained(scope, c);
            var r := ExplanatoryCoherence(evidence, c);
            && P + N + U > 0
            && r == P as real / (P + N + U) as real
            && InUnit(r)
            && (r == 1.0 <==> N == 0 && U == 0)
            && (r == 0.0 <==> P == 0)
  {
    var scope := set e | e in evidence;
    assert evidence[0] in scope;
    ScopeIsCounted(scope, c);
    RatioMeaning(Positive(scope, c), Negative(scope, c) + Unexplained(scope, c));
  }
}
