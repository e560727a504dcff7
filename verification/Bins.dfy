/**
 * Deviations sorted into integer bins, and the total of the absolute per-bin
 * sums. This is what an expected calibration error measures once the division by
 * the sample count is set aside.
 */
module Bins {
  import opened Prelude

  /** One sample: the bin it falls in and its signed deviation. */
  datatype Sample = Sample(bin: int, gap: real)

  /** The signed sum of the deviations in bin m. */
  function Gap(s: seq<Sample>, m: int): real {
    if s == [] then 0.0
    else Gap(s[..|s| - 1], m) + (if s[|s| - 1].bin == m then s[|s| - 1].gap else 0.0)
  }

  /** The sum over the bins lo <= m < hi of the signed per-bin sums. */
  function SignedTotal(s: seq<Sample>, lo: int, hi: int): real
    decreases hi - lo
  {
    if hi <= lo then 0.0 else SignedTotal(s, lo, hi - 1) + Gap(s, hi - 1)
  }

  /** The sum over the bins lo <= m < hi of the absolute per-bin sums. */
  function AbsTotal(s: seq<Sample>, lo: int, hi: int): real
    decreases hi - lo
  {
    if hi <= lo then 0.0 else AbsTotal(s, lo, hi - 1) + Abs(Gap(s, hi - 1))
  }

  function Gaps(s: seq<Sample>): (r: seq<real>)
    ensures |r| == |s|
    ensures forall i :: 0 <= i < |s| ==> r[i] == s[i].gap
  {
    seq(|s|, i requires 0 <= i < |s| => s[i].gap)
  }

  ghost predicate Within(s: seq<Sample>, lo: int, hi: int) {
    forall i :: 0 <= i < |s| ==> lo <= s[i].bin < hi
  }

  /** The coarse bin of every sample is its fine bin divided by k. */
  ghost predicate Coarsens(coarse: seq<Sample>, fine: seq<Sample>, k: int)
    requires k > 0
  {
    && |coarse| == |fine|
    && forall i :: 0 <= i < |fine| ==>
         coarse[i].gap == fine[i].gap && coarse[i].bin == fine[i].bin / k
  }

  lemma {:induction false} SignedTotalStep(s: seq<Sample>, x: Sample, lo: int, hi: int)
    requires lo <= hi
    ensures SignedTotal(s + [x], lo, hi) == SignedTotal(s, lo, hi) + (if lo <= x.bin < hi then x.gap else 0.0)
    decreases hi - lo
  {
    if lo < hi {
      SignedTotalStep(s, x, lo, hi - 1);
      assert (s + [x])[..|s|] == s;
    }
  }

  /** Bins that cover every sample lose nothing: the bin sums add up to the whole sum. */
  lemma {:induction false} BinsPartition(s: seq<Sample>, lo: int, hi: int)
    requires lo <= hi && Within(s, lo, hi)
    ensures SignedTotal(s, lo, hi) == Sum(Gaps(s))
    decreases |s|
  {
    if s == [] {
      EmptyTotal(lo, hi);
    } else {
      var t, x := s[..|s| - 1], s[|s| - 1];
      BinsPartition(t, lo, hi);
      SignedTotalStep(t, x, lo, hi);
      assert t + [x] == s;
      assert Gaps(s)[..|s| - 1] == Gaps(t) by {
        assert forall i :: 0 <= i < |t| ==> Gaps(s)[..|s| - 1][i] == Gaps(t)[i];
      }
    }
  }

  lemma {:induction false} EmptyTotal(lo: int, hi: int)
    ensures SignedTotal([], lo, hi) == 0.0
    decreases hi - lo
  {
    if lo < hi {
      EmptyTotal(lo, hi - 1);
    }
  }

  lemma {:induction false} TriangleOverBins(s: seq<Sample>, lo: int, hi: int)
    ensures Abs(SignedTotal(s, lo, hi)) <= AbsTotal(s, lo, hi)
    decreases hi - lo
  {
    if lo < hi {
      TriangleOverBins(s, lo, hi - 1);
    }
  }

  lemma {:induction false} SplitBins(s: seq<Sample>, lo: int, mid: int, hi: int)
    requires lo <= mid <= hi
    ensures AbsTotal(s, lo, hi) == AbsTotal(s, lo, mid) + AbsTotal(s, mid, hi)
    decreases hi - mid
  {
    if mid < hi {
      SplitBins(s, lo, mid, hi - 1);
    }
  }

  /** A coarse bin holds exactly the samples of its k fine bins. */
  lemma {:induction false} CoarseBinIsUnion(coarse: seq<Sample>, fine: seq<Sample>, k: int, m: int)
    requires k > 0 && Coarsens(coarse, fine, k)
    ensures Gap(coarse, m) == SignedTotal(fine, m * k, m * k + k)
    decreases |fine|
  {
    if fine == [] {
      EmptyTotal(m * k, m * k + k);
    } else {
      var n := |fine| - 1;
      var x := fine[n];
      CoarseBinIsUnion(coarse[..n], fine[..n], k, m);
      SignedTotalStep(fine[..n], x, m * k, m * k + k);
      assert fine[..n] + [x] == fine;
      QuotientRange(x.bin, k, m);
    }
  }

  lemma QuotientRange(x: int, k: int, m: int)
    requires k > 0
    ensures x / k == m <==> m * k <= x < m * k + k
  {
    var q, r := x / k, x % k;
    assert x == q * k + r && 0 <= r < k;
    if q < m {
      assert (q + 1) * k <= m * k by { MulMono(q + 1, m, k); }
    } else if q > m {
      assert (m + 1) * k <= q * k by { MulMono(m + 1, q, k); }
    }
  }

  lemma MulMono(a: int, b: int, k: int)
    requires a <= b && k > 0
    ensures a * k <= b * k
  {
  }

  /** Splitting every bin into k cannot lower the total. */
  lemma {:induction false} RefiningRaises(coarse: seq<Sample>, fine: seq<Sample>, k: int, M: nat)
    requires k > 0 && Coarsens(coarse, fine, k)
    ensures AbsTotal(coarse, 0, M) <= AbsTotal(fine, 0, M * k)
    decreases M
  {
    if M > 0 {
      RefiningRaises(coarse, fine, k, M - 1);
      CoarseBinIsUnion(coarse, fine, k, M - 1);
      TriangleOverBins(fine, (M - 1) * k, (M - 1) * k + k);
      assert (M - 1) * k + k == M * k;
      assert 0 <= (M - 1) * k;
      SplitBins(fine, 0, (M - 1) * k, M * k);
    }
  }

  function Magnitudes(s: seq<Sample>): (r: seq<Sample>)
    ensures |r| == |s|
    ensures forall i :: 0 <= i < |s| ==> r[i] == Sample(s[i].bin, Abs(s[i].gap))
  {
    seq(|s|, i requires 0 <= i < |s| => Sample(s[i].bin, Abs(s[i].gap)))
  }

  lemma {:induction false} GapBelowMagnitude(s: seq<Sample>, m: int)
    ensures Abs(Gap(s, m)) <= Gap(Magnitudes(s), m)
    decreases |s|
  {
    if s != [] {
      var n := |s| - 1;
      GapBelowMagnitude(s[..n], m);
      assert Magnitudes(s)[..n] == Magnitudes(s[..n]);
    }
  }

  lemma {:induction false} AbsBelowMagnitude(s: seq<Sample>, lo: int, hi: int)
    ensures AbsTotal(s, lo, hi) <= SignedTotal(Magnitudes(s), lo, hi)
    decreases hi - lo
  {
    if lo < hi {
      AbsBelowMagnitude(s, lo, hi - 1);
      GapBelowMagnitude(s, hi - 1);
    }
  }

  /** However the samples are binned, the total is at most the sum of the absolute deviations. */
  lemma TotalBelowAbsoluteSum(s: seq<Sample>, lo: int, hi: int)
    requires lo <= hi && Within(s, lo, hi)
    ensures AbsTotal(s, lo, hi) <= Sum(AbsAll(Gaps(s)))
  {
    AbsBelowMagnitude(s, lo, hi);
    BinsPartition(Magnitudes(s), lo, hi);
    assert Gaps(Magnitudes(s)) == AbsAll(Gaps(s));
  }

  lemma {:induction false} GapOfConcat(a: seq<Sample>, b: seq<Sample>, m: int)
    ensures Gap(a + b, m) == Gap(a, m) + Gap(b, m)
    decreases |b|
  {
    if b == [] {
      assert a + b == a;
    } else {
      assert (a + b)[..|a + b| - 1] == a + b[..|b| - 1];
      GapOfConcat(a, b[..|b| - 1], m);
    }
  }

  /** Pooling two sample sets cannot raise the total. */
  lemma {:induction false} PoolingLowers(a: seq<Sample>, b: seq<Sample>, lo: int, hi: int)
    ensures AbsTotal(a + b, lo, hi) <= AbsTotal(a, lo, hi) + AbsTotal(b, lo, hi)
    decreases hi - lo
  {
    if lo < hi {
      PoolingLowers(a, b, lo, hi - 1);
      GapOfConcat(a, b, hi - 1);
    }
  }
}
