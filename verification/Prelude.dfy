/** Result types and real arithmetic shared by the other modules. */
module Prelude {

  datatype Option<+T> = None | Some(value: T) {
    function GetOr(default: T): T {
      if Some? then value else default
    }
  }

  datatype Result<+T, +E> = Ok(value: T) | Err(error: E)

  /** Any member of a non-empty set. */
  method Pick<T(==)>(s: set<T>) returns (x: T)
    requires s != {}
    ensures x in s
  {
    x :| x in s;
  }

  lemma AMember<T>(s: set<T>) returns (x: T)
    requires s != {}
    ensures x in s
  {
    x :| x in s;
  }

  function Abs(x: real): real {
    if x < 0.0 then -x else x
  }

  function Clamp(x: real): real {
    if x < 0.0 then 0.0 else if x > 1.0 then 1.0 else x
  }

  lemma NonNegativeProduct(x: real, y: real)
    requires x >= 0.0 && y >= 0.0
    ensures x * y >= 0.0
  {
  }

  lemma PositiveProduct(x: real, y: real)
    requires x > 0.0 && y > 0.0
    ensures x * y > 0.0
  {
  }

  lemma ScaleOrder(a: real, b: real, y: real)
    requires y > 0.0
    ensures a <= b <==> a * y <= b * y
  {
    if a <= b {
      NonNegativeProduct(b - a, y);
      assert (b - a) * y == b * y - a * y;
    } else {
      PositiveProduct(a - b, y);
      assert (a - b) * y == a * y - b * y;
    }
  }

  /** A quotient compared with z, where p is z times the divisor. */
  lemma QuotientOrder(x: real, y: real, z: real, p: real)
    requires y > 0.0 && p == z * y
    ensures x / y <= z <==> x <= p
    ensures x / y < z <==> x < p
  {
    var q := x / y;
    assert q * y == x;
    ScaleOrder(q, z, y);
    ScaleOrder(z, q, y);
  }

  lemma UnitMultiples(y: real)
    ensures 0.0 * y == 0.0 && 1.0 * y == y && -1.0 * y == -y
  {
  }

  /** A quotient compared with -1, 0 and 1. */
  lemma QuotientBounds(x: real, y: real)
    requires y > 0.0
    ensures (x / y <= 0.0 <==> x <= 0.0) && (x / y < 0.0 <==> x < 0.0)
    ensures (x / y <= 1.0 <==> x <= y) && (x / y < 1.0 <==> x < y)
    ensures (x / y <= -1.0 <==> x <= -y) && (x / y < -1.0 <==> x < -y)
  {
    UnitMultiples(y);
    QuotientOrder(x, y, 0.0, 0.0);
    QuotientOrder(x, y, 1.0, y);
    QuotientOrder(x, y, -1.0, -y);
  }

  /** The sum of a sequence, adding from the left as a Python loop does. */
  function Sum(s: seq<real>): real {
    if s == [] then 0.0 else Sum(s[..|s| - 1]) + s[|s| - 1]
  }

  function AbsAll(s: seq<real>): (r: seq<real>)
    ensures |r| == |s|
    ensures forall i :: 0 <= i < |s| ==> r[i] == Abs(s[i])
  {
    seq(|s|, i requires 0 <= i < |s| => Abs(s[i]))
  }

  function Square(x: real): real {
    x * x
  }

  function SquareAll(s: seq<real>): (r: seq<real>)
    ensures |r| == |s|
    ensures forall i :: 0 <= i < |s| ==> r[i] == Square(s[i])
  {
    seq(|s|, i requires 0 <= i < |s| => Square(s[i]))
  }

  lemma {:induction false} SumConcat(a: seq<real>, b: seq<real>)
    ensures Sum(a + b) == Sum(a) + Sum(b)
    decreases |b|
  {
    if b == [] {
      assert a + b == a;
    } else {
      var c := a + b;
      assert c[..|c| - 1] == a + b[..|b| - 1];
      SumConcat(a, b[..|b| - 1]);
    }
  }

  /** Cauchy-Schwarz against the all-ones vector. */
  lemma {:induction false} SquareOfSum(s: seq<real>)
    ensures 0.0 <= Sum(SquareAll(s))
    ensures Sum(s) * Sum(s) <= |s| as real * Sum(SquareAll(s))
  {
    if s != [] {
      var t := s[..|s| - 1];
      var x := s[|s| - 1];
      SquareOfSum(t);
      var sq := SquareAll(s);
      assert forall i :: 0 <= i < |t| ==> sq[..|s| - 1][i] == SquareAll(t)[i];
      assert sq[..|s| - 1] == SquareAll(t);
      SquareStep(|t| as real, Sum(t), Sum(SquareAll(t)), x);
    }
  }

  lemma FactorSign(n: real, g: real)
    requires n > 0.0 && n * g >= 0.0
    ensures g >= 0.0
  {
  }

  lemma SquareStep(n: real, a: real, q: real, x: real)
    requires n >= 0.0 && q >= 0.0 && a * a <= n * q
    ensures (a + x) * (a + x) <= (n + 1.0) * (q + x * x)
  {
    // (n + 1)(q + x^2) - (a + x)^2 = (n q - a^2) + (q + n x^2 - 2 a x), and the
    // last bracket times n is at least (a - n x)^2.
    assert (n + 1.0) * (q + x * x) == n * q + q + n * (x * x) + x * x;
    assert (a + x) * (a + x) == a * a + 2.0 * (a * x) + x * x;
    assert 2.0 * (a * x) <= q + n * (x * x) by {
      if n == 0.0 {
        assert n * q == 0.0;
        assert a * a <= 0.0;
        if a != 0.0 {
          assert a * a > 0.0;
        }
        assert a * x == 0.0;
      } else {
        var d := a - n * x;
        assert d * d >= 0.0;
        assert d * d == a * a - 2.0 * n * (a * x) + n * n * (x * x);
        var g := q + n * (x * x) - 2.0 * (a * x);
        assert n * g == n * q + n * n * (x * x) - 2.0 * n * (a * x);
        FactorSign(n, g);
      }
    }
  }
}
