/** The advice drawn from attributed counts; a degraded strength is rounded to four digits. */
module Refinement {
  import opened Prelude
  import opened Attribution
  import opened Rounding

  const MIN_SAMPLES := 2
  const THRESHOLD := 0.5

  datatype Action = Keep | Degrade | Deactivate

  function Ratio(a: Count): real {
    if a.corroborated + a.contradicted > 0 then a.contradicted as real / (a.corroborated + a.contradicted) as real else 0.0
  }

  function Share(a: Count): real {
    if a.corroborated + a.contradicted > 0 then a.corroborated as real / (a.corroborated + a.contradicted) as real else 1.0
  }

  /** The strength in proportion to the corroborated share. */
  function Corroborated(strength: real, a: Count): real {
    strength * Share(a)
  }

  /** _refine_pattern: the action and the recommended strength. */
  function RefinePattern(strength: real, a: Count): (Action, real) {
    var total := a.corroborated + a.contradicted;
    if total < MIN_SAMPLES then (Keep, strength)
    else if Ratio(a) >= THRESHOLD then (Deactivate, 0.0)
    else if a.contradicted > 0 then (Degrade, Round4(Corroborated(strength, a)))
    else (Keep, strength)
  }

  datatype Revision = KeepContext | Review | ConsiderCompetitor

  /** _revise_context; its last two branches give the same answer. */
  function ReviseContext(hasCompeting: bool, a: Count): Revision {
    var total := a.corroborated + a.contradicted;
    if total < MIN_SAMPLES || a.contradicted == 0 then KeepContext
    else if Ratio(a) >= THRESHOLD && hasCompeting then ConsiderCompetitor
    else if Ratio(a) >= THRESHOLD then Review
    else Review
  }

  function Level(r: Revision): nat {
    if r == KeepContext then 0 else if r == Review then 1 else 2
  }

  lemma Distribute(p: real, q: real, y: real)
    ensures (p + q) * y == p * y + q * y
  {
  }

  lemma Complement(x: real, y: real)
    requires y > 0.0
    ensures (y - x) / y == 1.0 - x / y
  {
    var p, q := (y - x) / y, x / y;
    assert p * y == y - x && q * y == x;
    Distribute(p, q, y);
    ScaleOrder(p + q, 1.0, y);
    ScaleOrder(1.0, p + q, y);
  }

  lemma Quotients(x: real, y: real, z: real)
    requires 0.0 <= x && 0.0 < y <= z
    ensures x / z <= x / y
  {
    var q := x / z;
    assert q * z == x && x / y * y == x;
    ScaleOrder(0.0, q, z);
    assert q * (z - y) >= 0.0;
    assert q * y <= q * z;
    ScaleOrder(q, x / y, y);
  }

  lemma Half(k: real, t: real)
    requires t > 0.0
    ensures k / t >= 0.5 <==> k + k >= t
  {
    assert k / t * t == k;
    ScaleOrder(0.5, k / t, t);
  }

  lemma FractionFalls(c: nat, k: nat, n: nat)
    requires n >= 1 && c + k >= 1
    ensures c as real / (c + k + n) as real <= c as real / (c + k) as real
    ensures (k + n) as real / (c + k + n) as real >= k as real / (c + k) as real
  {
    var x, y, z := c as real, (c + k) as real, (c + k + n) as real;
    Quotients(x, y, z);
    assert (k + n) as real == z - x && k as real == y - x;
    Complement(x, z);
    Complement(x, y);
  }

  lemma HalfMeansNoMajority(a: Count)
    requires a.corroborated + a.contradicted > 0
    ensures Ratio(a) >= THRESHOLD <==> a.contradicted >= a.corroborated
  {
    Half(a.contradicted as real, (a.corroborated + a.contradicted) as real);
  }

  lemma ScaledDown(s: real, x: real, y: real)
    requires 0.0 <= s && x <= y
    ensures s * x <= s * y
  {
  }

  /** The count after n more contradicted outcomes. */
  function Contradict(a: Count, n: nat): Count {
    a.(contradicted := a.contradicted + n)
  }

  function Corroborate(a: Count): Count {
    a.(corroborated := a.corroborated + 1)
  }

  lemma ShareIsUnit(a: Count)
    ensures 0.0 <= Share(a) <= 1.0 && (a.contradicted > 0 ==> Share(a) < 1.0)
  {
    if a.corroborated + a.contradicted > 0 {
      QuotientBounds(a.corroborated as real, (a.corroborated + a.contradicted) as real);
    }
  }

  lemma UnitScale(s: real, x: real)
    requires 0.0 <= s && 0.0 <= x <= 1.0
    ensures 0.0 <= s * x <= s && (s > 0.0 && x < 1.0 ==> s * x < s)
  {
    NonNegativeProduct(s, x);
    NonNegativeProduct(s, 1.0 - x);
    assert s * (1.0 - x) == s - s * x;
    if s > 0.0 && x < 1.0 {
      PositiveProduct(s, 1.0 - x);
    }
  }

  lemma ShareShrinks(strength: real, a: Count)
    requires strength >= 0.0
    ensures 0.0 <= Corroborated(strength, a) <= strength
    ensures strength > 0.0 && a.contradicted > 0 ==> Corroborated(strength, a) < strength
  {
    hide Share;
    ShareIsUnit(a);
    var share := Share(a);
    UnitScale(strength, share);
    assert Corroborated(strength, a) == strength * share;
  }

  /** More contradictions lower the recommendation among degraded ones. */
  lemma ContradictedFalls(strength: real, a: Count, n: nat)
    requires strength >= 0.0 && a.corroborated + a.contradicted > 0
    ensures Round4(Corroborated(strength, Contradict(a, n))) <= Round4(Corroborated(strength, a))
    ensures Ratio(Contradict(a, n)) >= Ratio(a)
  {
    hide Round4;
    if n >= 1 {
      FractionFalls(a.corroborated, a.contradicted, n);
    }
    hide Share;
    ScaledDown(strength, Share(Contradict(a, n)), Share(a));
    RoundMonotone(Corroborated(strength, Contradict(a, n)), Corroborated(strength, a));
  }

  lemma CorroboratedRises(strength: real, a: Count)
    requires strength >= 0.0 && a.corroborated + a.contradicted > 0
    ensures Round4(Corroborated(strength, a)) <= Round4(Corroborated(strength, Corroborate(a)))
  {
    hide Round4;
    FractionFalls(a.contradicted, a.corroborated, 1);
    hide Share;
    ScaledDown(strength, Share(a), Share(Corroborate(a)));
    RoundMonotone(Corroborated(strength, a), Corroborated(strength, Corroborate(a)));
  }

  /**
   * The recommended strength lies between zero and the current one, up to half a
   * ten-thousandth, and tells the action.
   */
  lemma RefinementOnlyWeakens(strength: real, a: Count)
    requires strength >= 0.0
    ensures var (action, s) := RefinePattern(strength, a);
            && 0.0 <= s <= strength + SLACK
            && (s > strength ==> action == Degrade && Excess(strength) > 0.5)
            && (action == Deactivate <==> a.corroborated + a.contradicted >= MIN_SAMPLES && a.contradicted >= a.corroborated)
            && (action == Keep <==> a.contradicted == 0 || a.corroborated + a.contradicted < MIN_SAMPLES)
            && (action == Keep ==> s == strength)
  {
    if a.corroborated + a.contradicted > 0 {
      hide Round4, Excess;
      HalfMeansNoMajority(a);
      ShareShrinks(strength, a);
      var x := Corroborated(strength, a);
      RoundsNear(x);
      RoundsToItself(0);
      RoundMonotone(0.0, x);
      if x < strength && Excess(strength) <= 0.5 {
        RoundsBelow(x, strength);
      }
    }
  }

  /** The first contradiction among enough corroborated outcomes, if rounding can lift the strength. */
  lemma FewContradictions(strength: real) returns (a: Count)
    requires strength >= 0.0 && Excess(strength) > 0.5
    ensures a.contradicted == 0 && RefinePattern(strength, a).1 == strength
    ensures RefinePattern(strength, Contradict(a, 1)).1 > strength
  {
    var y, e := strength * SCALE, Excess(strength) - 0.5;
    var c := Enough(y, e);
    a := Count(c + 1, 0, 0, c + 1);
    var b := Contradict(a, 1);
    assert RefinePattern(strength, a) == (Keep, strength) by {
      HalfMeansNoMajority(a);
    }
    HalfMeansNoMajority(b);
    ShareShrinks(strength, b);
    var t := (c + 2) as real;
    assert (c + 1) as real == t - 1.0;
    Complement(1.0, t);
    assert Corroborated(strength, b) == strength * (1.0 - 1.0 / t);
    AlmostAll(strength, y, 1.0 / t);
    assert y * (1.0 / t) < e;
    RoundsAbove(Corroborated(strength, b), strength);
  }

  /** A divisor that makes y small. */
  lemma Enough(y: real, e: real) returns (c: nat)
    requires y >= 0.0 && e > 0.0
    ensures c >= 1 && y * (1.0 / (c + 2) as real) < e
  {
    QuotientBounds(y, e);
    c := (y / e).Floor + 1;
    var t := (c + 2) as real;
    assert y / e < t;
    QuotientOrder(y, e, t, t * e);
    assert y < t * e;
    QuotientOrder(y, t, e, t * e);
    assert y * (1.0 / t) == y / t;
  }

  lemma AlmostAll(strength: real, y: real, q: real)
    requires y == strength * SCALE
    ensures strength * (1.0 - q) * SCALE == y - y * q
  {
    var s := strength * (1.0 - q);
    assert s == strength - strength * q;
    assert s * SCALE == strength * SCALE - strength * q * SCALE;
    assert strength * q * SCALE == strength * SCALE * q;
  }

  /**
   * Contradictions can raise a strength, by rounding alone, exactly when its part beyond
   * the fourth digit is more than half a ten-thousandth.
   */
  lemma RoundingHelpsIff(strength: real)
    requires strength >= 0.0
    ensures (forall a :: RefinePattern(strength, a).1 <= strength) <==> Excess(strength) <= 0.5
    ensures (forall a, n: nat :: n >= 1 ==> RefinePattern(strength, Contradict(a, n)).1 <= RefinePattern(strength, a).1)
            <==> Excess(strength) <= 0.5
  {
    hide RefinePattern, Excess;
    if Excess(strength) <= 0.5 {
      forall a
        ensures RefinePattern(strength, a).1 <= strength
      {
        RefinementOnlyWeakens(strength, a);
      }
      forall a, n: nat | n >= 1
        ensures RefinePattern(strength, Contradict(a, n)).1 <= RefinePattern(strength, a).1
      {
        ContradictionsNeverHelp(strength, false, a, n);
      }
    } else {
      var a := FewContradictions(strength);
    }
  }

  /**
   * More contradictions never lower the alarm for a context, nor raise the strength of a
   * pattern that already has one; a first one can, by rounding.
   */
  lemma ContradictionsNeverHelp(strength: real, hasCompeting: bool, a: Count, n: nat)
    requires strength >= 0.0 && n >= 1
    ensures a.contradicted > 0 || Excess(strength) <= 0.5 ==>
              RefinePattern(strength, Contradict(a, n)).1 <= RefinePattern(strength, a).1
    ensures RefinePattern(strength, Contradict(a, n)).1 <= RefinePattern(strength, a).1 + SLACK
    ensures Level(ReviseContext(hasCompeting, a)) <= Level(ReviseContext(hasCompeting, Contradict(a, n)))
  {
    var b := Contradict(a, n);
    RefinementOnlyWeakens(strength, a);
    RefinementOnlyWeakens(strength, b);
    if a.corroborated + a.contradicted > 0 {
      hide Round4, Excess, Corroborated, Ratio;
      HalfMeansNoMajority(a);
      HalfMeansNoMajority(b);
      ContradictedFalls(strength, a, n);
    }
  }

  /**
   * One more corroborated outcome can hurt a pattern, but only in one situation: a single
   * contradicted outcome was too few to act on, and the second outcome makes it count.
   */
  lemma CorroborationHurtsIff(strength: real, a: Count)
    requires strength > 0.0
    ensures RefinePattern(strength, Corroborate(a)).1 < RefinePattern(strength, a).1
            <==> a.corroborated == 0 && a.contradicted == 1
  {
    var b := Corroborate(a);
    RefinementOnlyWeakens(strength, a);
    RefinementOnlyWeakens(strength, b);
    if a.corroborated + a.contradicted > 0 {
      hide Round4, Excess, Corroborated, Ratio;
      HalfMeansNoMajority(a);
      HalfMeansNoMajority(b);
      CorroboratedRises(strength, a);
    }
  }
}
