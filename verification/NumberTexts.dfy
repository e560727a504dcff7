/**
 * When equal numbers have equal texts: the digits of a number in either shape are
 * unique, so two floats print alike exactly when they are equal, and a float and an
 * integer of the same value exactly when it lies below 1e16. Also where repr really
 * switches to scientific shape.
 */
module NumberTexts {
  import opened Prelude
  import opened JsonNumber

  // ----------------------------------------------------------------- Digits

  lemma Associate(x: int, y: int, z: int)
    ensures (x * y) * z == x * (y * z)
  {
  }

  lemma AppendDigit(a: int, p: int, b: int, d: int)
    ensures (a * p + b) * 10 + d == a * (p * 10) + (b * 10 + d)
    ensures a * (p * 10) == a * (10 * p)
  {
  }

  lemma DigitsStep(s: string)
    requires AllDigits(s) && s != ""
    ensures AllDigits(s[..|s| - 1]) && DigitsValue(s) == DigitsValue(s[..|s| - 1]) * 10 + DigitValue(s[|s| - 1])
  {
  }

  lemma {:induction false} DigitsConcat(s: string, t: string)
    requires AllDigits(s) && AllDigits(t)
    ensures AllDigits(s + t) && DigitsValue(s + t) == DigitsValue(s) * Pow10(|t|) + DigitsValue(t)
    decreases |t|
  {
    if t == "" {
      assert s + t == s;
    } else {
      var init := t[..|t| - 1];
      assert (s + t)[..|s + t| - 1] == s + init && (s + t)[|s + t| - 1] == t[|t| - 1];
      DigitsConcat(s, init);
      DigitsStep(t);
      DigitsStep(s + t);
      var d := DigitValue(t[|t| - 1]);
      hide DigitsValue, DigitValue;
      AppendDigit(DigitsValue(s), Pow10(|init|), DigitsValue(init), d);
      assert Pow10(|t|) == 10 * Pow10(|init|);
    }
  }

  lemma {:induction false} DigitsBound(s: string)
    requires AllDigits(s)
    ensures DigitsValue(s) < Pow10(|s|)
    decreases |s|
  {
    if s != "" {
      DigitsBound(s[..|s| - 1]);
    }
  }

  lemma {:induction false} LeadingDigit(s: string)
    requires AllDigits(s) && s != "" && s[0] != '0'
    ensures DigitsValue(s) >= Pow10(|s| - 1)
    decreases |s|
  {
    if |s| == 1 {
      assert s[..0] == "";
    } else {
      LeadingDigit(s[..|s| - 1]);
    }
  }

  lemma {:induction false} SameLengthSameDigits(s: string, t: string)
    requires AllDigits(s) && AllDigits(t) && |s| == |t| && DigitsValue(s) == DigitsValue(t)
    ensures s == t
    decreases |s|
  {
    if s != "" {
      SameLengthSameDigits(s[..|s| - 1], t[..|t| - 1]);
      assert s == s[..|s| - 1] + [s[|s| - 1]];
      assert t == t[..|t| - 1] + [t[|t| - 1]];
    }
  }

  lemma {:induction false} PowGrows(a: nat, b: nat)
    requires a <= b
    ensures Pow10(a) <= Pow10(b)
    decreases b
  {
    if a < b {
      PowGrows(a, b - 1);
    }
  }

  lemma ShorterIsSmaller(s: string, t: string)
    requires AllDigits(s) && AllDigits(t) && |s| < |t| && t[0] != '0'
    ensures DigitsValue(s) < DigitsValue(t)
  {
    DigitsBound(s);
    LeadingDigit(t);
    PowGrows(|s|, |t| - 1);
  }

  /** Digit strings without superfluous zeros are determined by their value. */
  lemma PlainIsUnique(s: string, t: string)
    requires AllDigits(s) && AllDigits(t) && Plain(s) && Plain(t) && DigitsValue(s) == DigitsValue(t)
    ensures s == t
  {
    if |s| < |t| {
      ShorterIsSmaller(s, t);
    } else if |t| < |s| {
      ShorterIsSmaller(t, s);
    }
    SameLengthSameDigits(s, t);
  }

  lemma {:induction false} NatTextIsPlain(n: nat)
    ensures Plain(NatText(n)) && (n > 0 ==> NatText(n)[0] != '0')
    decreases n
  {
    if n >= 10 {
      NatTextIsPlain(n / 10);
    }
  }

  lemma {:induction false} ZeroDigits(s: string)
    requires AllDigits(s)
    ensures DigitsValue(s) == 0 <==> AllZeros(s)
    decreases |s|
  {
    if s != "" {
      var init := s[..|s| - 1];
      ZeroDigits(init);
      assert AllZeros(s) <==> AllZeros(init) && s[|s| - 1] == '0';
    }
  }

  // --------------------------------------------------------------- Decimals

  lemma TenfoldDecimal(m: nat, e: int)
    ensures Decimal(m * 10, e - 1) == Decimal(m, e)
  {
    if e <= 0 {
      ShiftDecimal(m, e);
    } else {
      Associate(m, 10, Pow10(e - 1));
    }
  }

  lemma {:induction false} ScaledDecimal(m: nat, e: int, k: nat)
    ensures Decimal(m * Pow10(k), e - k) == Decimal(m, e)
    decreases k
  {
    if k > 0 {
      ScaledDecimal(m, e, k - 1);
      TenfoldDecimal(m * Pow10(k - 1), e - (k - 1));
      Associate(m, Pow10(k - 1), 10);
      assert m * Pow10(k) == m * Pow10(k - 1) * 10;
    }
  }

  lemma LessByFactor(a: int, b: int, p: int)
    requires p > 0
    ensures a * p < b * p <==> a < b
  {
    assert (b - a) * p == b * p - a * p;
  }

  lemma LessByDivisor(a: real, b: real, p: real)
    requires p > 0.0
    ensures a / p < b / p <==> a < b
  {
    assert (b / p - a / p) * p == b - a;
  }

  lemma DecimalOrder(m: nat, n: nat, e: int)
    ensures Decimal(m, e) < Decimal(n, e) <==> m < n
  {
    if e >= 0 {
      LessByFactor(m, n, Pow10(e));
    } else {
      LessByDivisor(m as real, n as real, Pow10(-e) as real);
    }
  }

  /** A decimal whose exponent cannot be raised is determined by its value. */
  lemma DecimalIsUnique(m: nat, e: int, n: nat, d: int)
    requires e >= d && Decimal(m, e) == Decimal(n, d) && (e > d ==> n % 10 != 0)
    ensures e == d && m == n
  {
    var k := e - d;
    ScaledDecimal(m, e, k);
    DecimalOrder(m * Pow10(k), n, d);
    DecimalOrder(n, m * Pow10(k), d);
    assert m * Pow10(k) == n;
    if k > 0 {
      Associate(m, Pow10(k - 1), 10);
      MultipleOfTen(m * Pow10(k - 1));
    }
  }

  lemma MultipleOfTen(x: int)
    ensures (x * 10) % 10 == 0
  {
  }

  // ------------------------------------------------------------ Fixed shape

  lemma LastDigit(s: string)
    requires AllDigits(s) && s != ""
    ensures DigitsValue(s) % 10 == DigitValue(s[|s| - 1])
  {
    DigitsStep(s);
    LastDecimal(DigitsValue(s[..|s| - 1]), DigitValue(s[|s| - 1]));
  }

  lemma LastDecimal(x: nat, d: nat)
    requires d < 10
    ensures (x * 10 + d) % 10 == d
  {
  }

  lemma LastOf(w: string, g: string)
    requires g != ""
    ensures (w + g)[|w + g| - 1] == g[|g| - 1]
  {
  }

  /** Whole part and stripped fraction are determined by the value. */
  lemma FixedIsUnique(w: string, g: string, v: string, h: string)
    requires AllDigits(w) && AllDigits(g) && AllDigits(v) && AllDigits(h) && Plain(w) && Plain(v)
    requires (g == "" || g[|g| - 1] != '0') && (h == "" || h[|h| - 1] != '0') && |g| <= |h|
    requires Decimal(Mantissa(w, g), -|g|) == Decimal(Mantissa(v, h), -|h|)
    ensures w == v && g == h
  {
    hide Decimal, DigitsValue;
    if h != "" {
      LastDigit(v + h);
      LastOf(v, h);
    }
    DecimalIsUnique(Mantissa(w, g), -|g|, Mantissa(v, h), -|h|);
    SplitDigits(w, g, v, h);
  }

  lemma SplitDigits(w: string, g: string, v: string, h: string)
    requires AllDigits(w) && AllDigits(g) && AllDigits(v) && AllDigits(h) && Plain(w) && Plain(v)
    requires |g| == |h| && DigitsValue(w + g) == DigitsValue(v + h)
    ensures w == v && g == h
  {
    hide DigitsValue;
    DigitsConcat(w, g);
    DigitsConcat(v, h);
    DigitsBound(g);
    DigitsBound(h);
    QuotientIsUnique(DigitsValue(w), DigitsValue(g), DigitsValue(v), DigitsValue(h), Pow10(|g|));
    PlainIsUnique(w, v);
    SameLengthSameDigits(g, h);
  }

  lemma QuotientIsUnique(a: nat, r: nat, b: nat, s: nat, p: nat)
    requires r < p && s < p && a * p + r == b * p + s
    ensures a == b && r == s
  {
    assert (a - b) * p == s - r && (b - a) * p == r - s;
    if a > b {
      AtLeast(a - b, p);
    } else if b > a {
      AtLeast(b - a, p);
    }
  }

  lemma AtLeast(d: int, p: int)
    requires d >= 1 && p >= 0
    ensures d * p >= p
  {
    assert (d - 1) * p >= 0;
  }

  lemma FixedCanonical(f: ReprText)
    requires f.Fixed? && FloatValue(f) != 0.0
    ensures CanonicalText(f) == Minus(f.neg) + StrippedBody(f.whole, f.frac)
  {
    hide Decimal, DigitsValue, RStrip, Magnitude, Body, StrippedBody, Repr;
    ReprChars(f);
    FixedText(f);
  }

  lemma StrippedAgree(w: string, f: string, v: string, g: string)
    requires AllDigits(w) && AllDigits(f) && AllDigits(v) && AllDigits(g) && Plain(w) && Plain(v)
    requires Decimal(Mantissa(w, f), -|f|) == Decimal(Mantissa(v, g), -|g|)
    ensures w == v && RStrip(f, '0') == RStrip(g, '0')
  {
    hide Decimal, DigitsValue, RStrip, Mantissa, Plain;
    StrippedZeros(w, f);
    StrippedZeros(v, g);
    var a, b := RStrip(f, '0'), RStrip(g, '0');
    if |a| <= |b| {
      FixedIsUnique(w, a, v, b);
    } else {
      FixedIsUnique(v, b, w, a);
    }
  }

  /** Non-zero floats of one value in fixed shape have one canonical text. */
  lemma FixedTextsAgree(f: ReprText, g: ReprText)
    requires f.Fixed? && g.Fixed? && FloatValue(f) == FloatValue(g) != 0.0
    ensures CanonicalText(f) == CanonicalText(g)
  {
    hide Decimal, DigitsValue, RStrip, CanonicalText, FloatValue, Mantissa;
    SignsAgree(f, g);
    FixedCanonical(f);
    FixedCanonical(g);
    StrippedAgree(f.whole, f.frac, g.whole, g.frac);
  }

  lemma MagnitudeIsNonNegative(f: ReprText)
    ensures Magnitude(f) >= 0.0
  {
    hide DigitsValue;
  }

  lemma SignsAgree(f: ReprText, g: ReprText)
    requires FloatValue(f) == FloatValue(g) != 0.0
    ensures f.neg == g.neg && Magnitude(f) == Magnitude(g)
  {
    hide Decimal, DigitsValue, Magnitude;
    MagnitudeIsNonNegative(f);
    MagnitudeIsNonNegative(g);
  }

  // ------------------------------------------------------- Scientific shape

  lemma SciDigits(f: ReprText)
    requires f.Sci?
    ensures Pow10(|f.frac|) <= Mantissa([f.lead], f.frac) < Pow10(|f.frac| + 1)
    ensures Mantissa([f.lead], f.frac) % 10 != 0
  {
    hide DigitsValue, Pow10;
    var s := [f.lead] + f.frac;
    assert s[0] == f.lead;
    LeadingDigit(s);
    DigitsBound(s);
    LastDigit(s);
    if f.frac != "" {
      LastOf([f.lead], f.frac);
    }
  }

  /** An exponent's digits are determined by its value. */
  lemma ExponentIsUnique(s: string, t: string)
    requires AllDigits(s) && AllDigits(t) && |s| >= 2 && |t| >= 2
    requires (|s| == 2 || s[0] != '0') && (|t| == 2 || t[0] != '0') && DigitsValue(s) == DigitsValue(t)
    ensures s == t
  {
    hide DigitsValue;
    if |s| < |t| {
      ShorterIsSmaller(s, t);
    } else if |t| < |s| {
      ShorterIsSmaller(t, s);
    }
    SameLengthSameDigits(s, t);
  }

  /** Floats of one value in scientific shape have the same parts. */
  lemma SciIsUnique(f: ReprText, g: ReprText)
    requires f.Sci? && g.Sci? && Magnitude(f) == Magnitude(g)
    ensures f.lead == g.lead && f.frac == g.frac && f.negExp == g.negExp && f.exp == g.exp
  {
    hide Decimal, DigitsValue, Pow10;
    SciDigits(f);
    SciDigits(g);
    var m, n := Mantissa([f.lead], f.frac), Mantissa([g.lead], g.frac);
    var d, e := Exponent(f.negExp, f.exp) - |f.frac|, Exponent(g.negExp, g.exp) - |g.frac|;
    if d >= e {
      DecimalIsUnique(m, d, n, e);
    } else {
      DecimalIsUnique(n, e, m, d);
    }
    var s, t := [f.lead] + f.frac, [g.lead] + g.frac;
    assert s[0] == f.lead && t[0] == g.lead;
    PlainIsUnique(s, t);
    assert s[1..] == f.frac && t[1..] == g.frac;
    ExponentIsUnique(f.exp, g.exp);
  }

  // -------------------------------------------------------------- Thresholds

  const SWITCH_UP := 10_000_000_000_000_000
  /** One ten-thousandth. */
  const SWITCH_DOWN := 0.0001

  lemma Powers()
    ensures Pow10(4) == 10_000 && Pow10(16) == SWITCH_UP && Pow10(5) == 100_000
  {
    assert Pow10(4) == 10_000;
    assert Pow10(8) == 100_000_000;
  }

  lemma DecimalAtLeast(m: nat, e: int, k: nat, n: nat, d: int)
    requires m >= n * Pow10(k) && e == d - k
    ensures Decimal(m, e) >= Decimal(n, d)
  {
    hide Decimal;
    ScaledDecimal(n, d, k);
    DecimalOrder(m, n * Pow10(k), e);
  }

  lemma DecimalBelow(m: nat, e: int, k: nat, n: nat, d: int)
    requires m < n * Pow10(k) && e == d - k
    ensures Decimal(m, e) < Decimal(n, d)
  {
    hide Decimal;
    ScaledDecimal(n, d, k);
    DecimalOrder(m, n * Pow10(k), e);
  }

  lemma SwitchDecimals()
    ensures Decimal(1, 16) == SWITCH_UP as real && Decimal(1, -4) == SWITCH_DOWN
  {
    Powers();
    hide Pow10;
  }

  lemma FixedBelow(f: ReprText)
    requires f.Fixed?
    ensures Magnitude(f) < SWITCH_UP as real
  {
    hide Decimal, DigitsValue, Pow10;
    var s := f.whole + f.frac;
    DigitsBound(s);
    PowGrows(|s|, 16 + |f.frac|);
    DecimalBelow(Mantissa(f.whole, f.frac), -|f.frac|, 16 + |f.frac|, 1, 16);
    SwitchDecimals();
  }

  lemma {:induction false} SignificantValue(s: string)
    requires AllDigits(s) && Significant(s)
    ensures DigitsValue(s) * 10_000 >= Pow10(|s|)
    decreases |s|
  {
    var i :| 0 <= i < 4 && i < |s| && s[i] != '0';
    if i < |s| - 1 {
      var init := s[..|s| - 1];
      assert init[i] == s[i];
      SignificantValue(init);
    } else {
      Powers();
      PowGrows(|s|, 4);
      ZeroDigits(s);
    }
  }

  lemma FixedAbove(f: ReprText)
    requires f.Fixed? && Magnitude(f) != 0.0
    ensures Magnitude(f) >= SWITCH_DOWN
  {
    var m := Mantissa(f.whole, f.frac);
    DigitsConcat(f.whole, f.frac);
    if f.whole == "0" {
      assert "0"[..0] == "";
      assert DigitsValue("0") == 0;
      ZeroDigits(f.frac);
      assert m == DigitsValue(f.frac);
      assert Significant(f.frac);
      SignificantValue(f.frac);
    } else {
      hide DigitsValue, Pow10;
      WholePart(f.whole, f.frac);
    }
    hide Decimal, DigitsValue, Pow10;
    TenThousandfold(m, f.frac);
  }

  lemma WholePart(whole: string, frac: string)
    requires AllDigits(whole) && AllDigits(frac) && Plain(whole) && whole != "0"
    ensures Mantissa(whole, frac) >= Pow10(|frac|)
  {
    hide DigitsValue, Pow10;
    DigitsConcat(whole, frac);
    LeadingDigit(whole);
    AtLeast(DigitsValue(whole), Pow10(|frac|));
  }

  lemma TenThousandfold(m: nat, frac: string)
    requires m * 10_000 >= Pow10(|frac|)
    ensures Decimal(m, -|frac|) >= SWITCH_DOWN
  {
    hide Decimal, Pow10;
    Powers();
    ScaledDecimal(m, -|frac|, 4);
    assert m * Pow10(4) >= 1 * Pow10(|frac|);
    DecimalAtLeast(m * Pow10(4), -|frac| - 4, |frac|, 1, -4);
    SwitchDecimals();
  }

  lemma SciPlace(f: ReprText)
    requires f.Sci?
    ensures if f.negExp then 0.0 < Magnitude(f) < SWITCH_DOWN else Magnitude(f) >= SWITCH_UP as real
  {
    hide Decimal, DigitsValue, Pow10;
    SciDigits(f);
    var m, x := Mantissa([f.lead], f.frac), Exponent(f.negExp, f.exp);
    SwitchDecimals();
    if f.negExp {
      PowGrows(|f.frac| + 1, |f.frac| - 4 - x);
      DecimalBelow(m, x - |f.frac|, |f.frac| - 4 - x, 1, -4);
      DecimalOrder(0, m, x - |f.frac|);
      ZeroDecimal(x - |f.frac|);
    } else {
      DecimalAtLeast(m, x - |f.frac|, |f.frac|, 1, x);
      PowGrows(0, x - 16);
      DecimalAtLeast(Pow10(x - 16), 16, 0, 1, 16) by { assert Pow10(0) == 1 by { OnePower(); } }
      ScaledDecimal(1, x, x - 16);
    }
  }

  lemma OnePower()
    ensures Pow10(0) == 1
  {
  }

  lemma ZeroDecimal(e: int)
    ensures Decimal(0, e) == 0.0
  {
  }

  /** repr is in scientific shape exactly from 1e16 up and, short of zero, below 1e-4. */
  lemma ShapeByMagnitude(f: ReprText)
    ensures f.Sci? <==> Magnitude(f) >= SWITCH_UP as real || 0.0 < Magnitude(f) < SWITCH_DOWN
  {
    if f.Sci? {
      SciPlace(f);
    } else {
      FixedBelow(f);
      if Magnitude(f) != 0.0 {
        FixedAbove(f);
      }
    }
  }

  /** What canonical_float's documentation says about scientific notation. */
  predicate DocumentedScientific(x: real) {
    x >= 1_000_000_000_000_000.0 || x < 0.000001
  }

  /**
   * The documented thresholds differ from the text exactly between 1e15 and 1e16,
   * between 1e-6 and 1e-4, and at zero, which prints "0".
   */
  lemma DocumentationDiffersIff(f: ReprText)
    ensures ('e' in CanonicalText(f)) != DocumentedScientific(Magnitude(f))
            <==> (1_000_000_000_000_000.0 <= Magnitude(f) < SWITCH_UP as real)
                 || (0.000001 <= Magnitude(f) < SWITCH_DOWN) || Magnitude(f) == 0.0
  {
    hide Magnitude;
    ShapeByMagnitude(f);
    MagnitudeIsNonNegative(f);
    TextShape(f);
  }

  lemma TextShape(f: ReprText)
    ensures 'e' in CanonicalText(f) <==> f.Sci?
  {
    hide Decimal, DigitsValue;
    ReprChars(f);
    if f.Fixed? || FloatValue(f) == 0.0 {
      var v: ReprText := if FloatValue(f) == 0.0 then Fixed(false, "0", "0") else f;
      ReprChars(v);
      StrippedHas(RStrip(Repr(v), '0'), '.', 'e');
      StrippedHas(Repr(v), '0', 'e');
      if f.Sci? {
        SciPlace(f);
      }
    }
  }

  lemma {:induction false} StrippedHas(s: string, c: char, x: char)
    ensures x in RStrip(s, c) ==> x in s
    decreases |s|
  {
    if s != "" && s[|s| - 1] == c {
      StrippedHas(s[..|s| - 1], c, x);
    }
  }

  // ----------------------------------------------------------- Equal numbers

  lemma ZeroText(f: ReprText)
    requires FloatValue(f) == 0.0
    ensures CanonicalText(f) == "0"
  {
    hide DigitsValue, Decimal;
    var z: ReprText := Fixed(false, "0", "0");
    ReprChars(z);
    FixedText(z);
    StripZero();
  }

  lemma StripZero()
    ensures RStrip("0", '0') == ""
  {
    assert "0"[..0] == "";
  }

  /** Equal floats have equal texts. */
  lemma EqualFloatsPrintAlike(f: ReprText, g: ReprText)
    requires FloatValue(f) == FloatValue(g)
    ensures CanonicalText(f) == CanonicalText(g)
  {
    hide Magnitude, CanonicalText, Decimal, DigitsValue;
    if FloatValue(f) == 0.0 {
      ZeroText(f);
      ZeroText(g);
    } else {
      SignsAgree(f, g);
      ShapeByMagnitude(f);
      ShapeByMagnitude(g);
      if f.Fixed? {
        FixedTextsAgree(f, g);
      } else {
        SciIsUnique(f, g);
      }
    }
  }

  /** The whole number n as repr prints it below 1e16. */
  lemma WholeFloat(n: int) returns (f: ReprText)
    requires -SWITCH_UP < n < SWITCH_UP
    ensures FloatValue(f) == n as real && CanonicalText(f) == IntText(n)
  {
    var m: nat := if n < 0 then -n else n;
    WholeDigits(m);
    f := Fixed(n < 0, NatText(m), "0");
    WholeMagnitude(m);
    if n == 0 {
      ZeroText(f);
    } else {
      hide DigitsValue, Decimal, NatText;
      ReprChars(f);
      FixedText(f);
      StripZero();
      assert StrippedBody(NatText(m), "0") == NatText(m);
    }
  }

  lemma WholeDigits(m: nat)
    requires m < SWITCH_UP
    ensures Plain(NatText(m)) && |NatText(m)| <= 16 && AllZeros("0")
  {
    hide Pow10;
    NatTextIsPlain(m);
    NatTextValue(m);
    if |NatText(m)| > 16 {
      LeadingDigit(NatText(m));
      PowGrows(16, |NatText(m)| - 1);
      Powers();
    }
  }

  lemma WholeMagnitude(n: nat)
    ensures Decimal(Mantissa(NatText(n), "0"), -1) == n as real
  {
    var d := NatText(n);
    assert (d + "0")[..|d|] == d;
    NatTextValue(n);
    assert Mantissa(d, "0") == n * 10;
    ShiftDecimal(n, 0);
    DecimalOfInt(n);
  }

  lemma IntTextHasNoExponent(n: int)
    ensures 'e' !in IntText(n)
  {
    hide NatText;
  }

  lemma WholeFloatsAreFixed(f: ReprText, n: int)
    requires FloatValue(f) == n as real
    ensures f.Fixed? <==> -SWITCH_UP < n < SWITCH_UP
  {
    hide Decimal, DigitsValue;
    MagnitudeIsNonNegative(f);
    ShapeByMagnitude(f);
  }

  /** A float and an integer of the same value print alike exactly below 1e16, of either sign. */
  lemma FloatPrintsAsIntIff(f: ReprText, n: int)
    requires FloatValue(f) == n as real
    ensures CanonicalText(f) == IntText(n) <==> -SWITCH_UP < n < SWITCH_UP
  {
    hide CanonicalText, IntText, FloatValue;
    WholeFloatsAreFixed(f, n);
    if f.Fixed? {
      var g := WholeFloat(n);
      EqualFloatsPrintAlike(f, g);
    } else {
      TextShape(f);
      IntTextHasNoExponent(n);
    }
  }
}
