/** Python's round(x, 4) over the reals: to the nearest ten-thousandth, ties to even. */
module Rounding {
  import opened Prelude

  const SCALE := 10_000.0
  /** Half a ten-thousandth. */
  const SLACK := 0.00005

  function Nearest(x: real): int {
    var d := x - x.Floor as real;
    if d < 0.5 then x.Floor
    else if d > 0.5 then x.Floor + 1
    else if x.Floor % 2 == 0 then x.Floor else x.Floor + 1
  }

  function Round4(x: real): real {
    Nearest(x * SCALE) as real / SCALE
  }

  lemma FloorStep(x: real)
    ensures x.Floor as real <= x < (x.Floor + 1) as real
  {
  }

  lemma NearestIsNear(x: real)
    ensures x - 0.5 <= Nearest(x) as real <= x + 0.5
  {
    FloorStep(x);
  }

  lemma NearestOfInt(n: int)
    ensures Nearest(n as real) == n
  {
  }

  lemma FloorMonotone(x: real, y: real)
    requires x <= y
    ensures x.Floor <= y.Floor
  {
    FloorStep(x);
    FloorStep(y);
  }

  lemma NearestMonotone(x: real, y: real)
    requires x <= y
    ensures Nearest(x) <= Nearest(y)
  {
    FloorMonotone(x, y);
    FloorStep(x);
    FloorStep(y);
  }

  lemma Scaled(x: real)
    ensures x * SCALE / SCALE == x
  {
  }

  lemma RoundsNear(x: real)
    ensures x - SLACK <= Round4(x) <= x + SLACK
  {
    NearestIsNear(x * SCALE);
    Scaled(x);
  }

  lemma RoundMonotone(x: real, y: real)
    requires x <= y
    ensures Round4(x) <= Round4(y)
  {
    assert x * SCALE <= y * SCALE;
    NearestMonotone(x * SCALE, y * SCALE);
  }

  /** A multiple of a ten-thousandth rounds to itself. */
  lemma RoundsToItself(n: int)
    ensures Round4(n as real / SCALE) == n as real / SCALE
  {
    assert n as real / SCALE * SCALE == n as real;
    NearestOfInt(n);
  }

  lemma RoundKeepsUnit(x: real)
    requires 0.0 <= x <= 1.0
    ensures 0.0 <= Round4(x) <= 1.0
  {
    RoundsToItself(0);
    RoundsToItself(10_000);
    RoundMonotone(0.0, x);
    RoundMonotone(x, 1.0);
  }

  /** Rounding the complement of a rounded number changes nothing. */
  lemma ComplementStays(x: real)
    ensures Round4(1.0 - Round4(x)) == 1.0 - Round4(x)
  {
    var n := Nearest(x * SCALE);
    assert 1.0 - n as real / SCALE == (10_000 - n) as real / SCALE;
    RoundsToItself(10_000 - n);
  }

  /** Only numbers above half a ten-thousandth round to a positive one. */
  lemma RoundsToPositive(x: real)
    ensures Round4(x) > 0.0 <==> x > SLACK
  {
    var y := x * SCALE;
    FloorStep(y);
    NearestIsPositive(y);
    assert y > 0.5 <==> x > SLACK;
    assert Nearest(y) >= 1 ==> Nearest(y) as real / SCALE > 0.0;
    assert Nearest(y) <= 0 ==> Nearest(y) as real / SCALE <= 0.0;
  }

  lemma NearestIsPositive(y: real)
    ensures Nearest(y) >= 1 <==> y > 0.5
  {
    FloorStep(y);
  }

  lemma RoundsToOne(x: real)
    requires -1.0 <= x <= 1.0
    ensures -1.0 <= Round4(x) <= 1.0 && (x == 1.0 ==> Round4(x) == 1.0)
  {
    RoundsToItself(10_000);
    RoundsToItself(-10_000);
    RoundMonotone(-1.0, x);
    RoundMonotone(x, 1.0);
  }

  /** The part of x beyond the last ten-thousandth, as a share of one. */
  function Excess(x: real): real {
    x * SCALE - (x * SCALE).Floor as real
  }

  /** With an excess of at most a half, nothing below x rounds above x. */
  lemma RoundsBelow(x: real, y: real)
    requires x < y && Excess(y) <= 0.5
    ensures Round4(x) <= y
  {
    var s, t := x * SCALE, y * SCALE;
    assert s < t;
    FloorMonotone(s, t);
    FloorStep(s);
    FloorStep(t);
    assert Nearest(s) as real <= t;
    Scaled(y);
  }

  /** With a greater excess, everything close enough below x rounds above x. */
  lemma RoundsAbove(x: real, y: real)
    requires x <= y && (y * SCALE).Floor as real + 0.5 < x * SCALE
    ensures Round4(x) > y
  {
    var s, t := x * SCALE, y * SCALE;
    FloorStep(t);
    FloorStep(s);
    FloorMonotone(s, t);
    assert s.Floor == t.Floor;
    assert Nearest(s) as real > t;
    Scaled(y);
  }
}
