/**
 * JSON numbers: the decimal text of Python integers and floats, canonical_float, and
 * a reader of number texts.
 *
 * A finite float is given by the text that repr produces for it, in either of its two
 * shapes; the shortest-digits algorithm behind repr is not part of this model.
 */
module JsonNumber {
  import opened Prelude

  // --------------------------------------------------------------- Digits

  predicate IsDigit(c: char) {
    '0' <= c <= '9'
  }

  ghost predicate AllDigits(s: string) {
    forall i :: 0 <= i < |s| ==> IsDigit(s[i])
  }

  function DigitValue(c: char): nat
    requires IsDigit(c)
  {
    c as int - '0' as int
  }

  /** The number a digit string denotes; the empty string denotes 0. */
  function DigitsValue(s: string): nat
    requires AllDigits(s)
  {
    if s == "" then 0 else DigitsValue(s[..|s| - 1]) * 10 + DigitValue(s[|s| - 1])
  }

  function NatText(n: nat): (s: string)
    ensures s != "" && AllDigits(s)
  {
    var d := ('0' as int + n % 10) as char;
    if n < 10 then [d] else NatText(n / 10) + [d]
  }

  function IntText(n: int): string {
    if n < 0 then "-" + NatText(-n) else NatText(n)
  }

  lemma {:induction false} NatTextValue(n: nat)
    ensures DigitsValue(NatText(n)) == n
  {
    var s := NatText(n);
    if n < 10 {
      assert s[..|s| - 1] == "";
    } else {
      NatTextValue(n / 10);
      assert s[..|s| - 1] == NatText(n / 10);
    }
  }

  // -------------------------------------------------------------- Decimals

  function Pow10(n: nat): (r: nat)
    ensures r > 0
  {
    if n == 0 then 1 else 10 * Pow10(n - 1)
  }

  /** m times ten to the power e. */
  function Decimal(m: nat, e: int): real {
    if e >= 0 then (m * Pow10(e)) as real else m as real / Pow10(-e) as real
  }

  function Signed(neg: bool, x: real): real {
    if neg then -x else x
  }

  lemma ShiftDecimal(m: nat, e: int)
    requires e <= 0
    ensures Decimal(m * 10, e - 1) == Decimal(m, e)
  {
    var p := Pow10(-e);
    assert Pow10(1 - e) == 10 * p;
    TenfoldQuotient(m as real, p as real);
  }

  lemma TenfoldQuotient(m: real, p: real)
    requires p > 0.0
    ensures (m * 10.0) / (10.0 * p) == m / p
  {
    var q := m / p;
    assert q * p == m;
    assert q * (10.0 * p) == m * 10.0;
  }

  lemma DecimalOfInt(m: nat)
    ensures Decimal(m, 0) == m as real
  {
  }

  // ---------------------------------------------------------------- Floats

  /**
   * repr of a finite float: "12.5" in fixed shape, "1.5e-07" or "1e+16" in
   * scientific shape.
   */
  datatype FloatText =
    | Fixed(neg: bool, whole: string, frac: string)
    | Sci(neg: bool, lead: char, frac: string, negExp: bool, exp: string)

  /** No superfluous leading zero. */
  predicate Plain(s: string) {
    s != "" && (s[0] != '0' || s == "0")
  }

  predicate AllZeros(s: string) {
    forall i :: 0 <= i < |s| ==> s[i] == '0'
  }

  /** The first significant digit of a fraction is among its first four. */
  predicate Significant(frac: string) {
    exists i :: 0 <= i < 4 && i < |frac| && frac[i] != '0'
  }

  /**
   * The shapes Python prints: scientific from 1e+16 up and from 1e-05 down, otherwise
   * fixed, with at most sixteen digits before the point and, below one, at most three
   * zeros after it. The exponent has at least two digits.
   */
  ghost predicate WellFormed(f: FloatText) {
    match f
    case Fixed(_, whole, frac) =>
      && frac != "" && AllDigits(whole) && AllDigits(frac)
      && Plain(whole) && |whole| <= 16
      && (whole == "0" ==> AllZeros(frac) || Significant(frac))
    case Sci(_, lead, frac, negExp, exp) =>
      && IsDigit(lead) && lead != '0' && AllDigits(frac) && (frac == "" || frac[|frac| - 1] != '0')
      && |exp| >= 2 && AllDigits(exp) && (|exp| == 2 || exp[0] != '0')
      && DigitsValue(exp) >= (if negExp then 5 else 16)
  }

  type ReprText = f: FloatText | WellFormed(f) ghost witness Fixed(false, "0", "0")

  datatype PyFloat = NaN | Infinite(negative: bool) | Finite(text: ReprText)

  function Minus(neg: bool): string {
    if neg then "-" else ""
  }

  /** The text without its sign. */
  function Body(f: ReprText): string {
    match f
    case Fixed(_, whole, frac) => whole + "." + frac
    case Sci(_, lead, frac, negExp, exp) =>
      [lead] + Fraction(frac) + ExponentText(negExp, exp)
  }

  function Fraction(frac: string): string {
    if frac == "" then "" else "." + frac
  }

  function ExponentText(negExp: bool, exp: string): string {
    "e" + (if negExp then "-" else "+") + exp
  }

  function Repr(f: ReprText): string {
    Minus(f.neg) + Body(f)
  }

  function Mantissa(whole: string, frac: string): nat
    requires AllDigits(whole) && AllDigits(frac)
  {
    DigitsValue(whole + frac)
  }

  function Exponent(negExp: bool, exp: string): int
    requires AllDigits(exp)
  {
    if negExp then -(DigitsValue(exp) as int) else DigitsValue(exp)
  }

  function Magnitude(f: ReprText): real {
    match f
    case Fixed(_, whole, frac) => Decimal(Mantissa(whole, frac), -|frac|)
    case Sci(_, lead, frac, negExp, exp) => Decimal(Mantissa([lead], frac), Exponent(negExp, exp) - |frac|)
  }

  /** The number the float stands for. */
  function FloatValue(f: ReprText): real {
    Signed(f.neg, Magnitude(f))
  }

  /** str.rstrip with a single character. */
  function RStrip(s: string, c: char): string {
    if s != "" && s[|s| - 1] == c then RStrip(s[..|s| - 1], c) else s
  }

  /** canonical_float on a finite float. */
  function CanonicalText(f: ReprText): string {
    var v: ReprText := if FloatValue(f) == 0.0 then Fixed(false, "0", "0") else f;
    var s := Repr(v);
    if '.' in s && 'e' !in s && 'E' !in s then RStrip(RStrip(s, '0'), '.') else s
  }

  datatype FloatError = NotANumber | Infinity

  /** canonical_float: NaN and the infinities are rejected. */
  function CanonicalFloat(v: PyFloat): Result<string, FloatError> {
    match v
    case NaN => Err(NotANumber)
    case Infinite(_) => Err(Infinity)
    case Finite(f) => Ok(CanonicalText(f))
  }

  // --------------------------------------------------------------- Reading

  /** The longest prefix of digits and what follows it. */
  function SpanDigits(s: string): (r: (string, string))
    ensures AllDigits(r.0) && r.0 + r.1 == s
    ensures r.1 != "" ==> !IsDigit(r.1[0])
  {
    if s != "" && IsDigit(s[0]) then
      var (d, rest) := SpanDigits(s[1..]);
      assert [s[0]] + s[1..] == s;
      ([s[0]] + d, rest)
    else ("", s)
  }

  /** Reads an optional exponent part that must end the text. */
  function ReadExponent(s: string): Option<int> {
    if s == "" then Some(0)
    else if s[0] != 'e' && s[0] != 'E' then None
    else
      var t := s[1..];
      var signed := t != "" && (t[0] == '-' || t[0] == '+');
      var (d, rest) := SpanDigits(if signed then t[1..] else t);
      if d == "" || rest != "" then None else Some(Exponent(signed && t[0] == '-', d))
  }

  function Scale(m: nat, e: Option<int>, places: nat): Option<real> {
    match e
    case None => None
    case Some(x) => Some(Decimal(m, x - places))
  }

  /** The value of an unsigned number text. */
  function ReadUnsigned(s: string): Option<real> {
    var (w, r1) := SpanDigits(s);
    if w == "" then None
    else if r1 != "" && r1[0] == '.' then
      var (f, r2) := SpanDigits(r1[1..]);
      if f == "" then None else Scale(Mantissa(w, f), ReadExponent(r2), |f|)
    else Scale(Mantissa(w, ""), ReadExponent(r1), 0)
  }

  /** The value of a complete number text. */
  function ReadNumber(s: string): Option<real> {
    if s != "" && s[0] == '-' then
      match ReadUnsigned(s[1..])
      case None => None
      case Some(x) => Some(-x)
    else ReadUnsigned(s)
  }

  predicate IsNumberChar(c: char) {
    IsDigit(c) || c == '-' || c == '+' || c == '.' || c == 'e' || c == 'E'
  }

  ghost predicate AllNumberChars(s: string) {
    forall i :: 0 <= i < |s| ==> IsNumberChar(s[i])
  }

  // ------------------------------------------------------------ Round trip

  lemma {:induction false} SpanOfDigits(d: string, rest: string)
    requires AllDigits(d) && (rest == "" || !IsDigit(rest[0]))
    ensures SpanDigits(d + rest) == (d, rest)
    decreases |d|
  {
    if d == "" {
      assert d + rest == rest;
    } else {
      SpanOfDigits(d[1..], rest);
      assert (d + rest)[1..] == d[1..] + rest;
      assert [d[0]] + d[1..] == d;
    }
  }

  lemma SignReads(neg: bool, s: string)
    requires s != "" && IsDigit(s[0])
    ensures ReadNumber(Minus(neg) + s) ==
            match ReadUnsigned(s) { case None => None case Some(x) => Some(Signed(neg, x)) }
  {
    if neg {
      assert ("-" + s)[1..] == s;
    } else {
      assert "" + s == s;
    }
  }

  lemma IntReads(n: int)
    ensures ReadNumber(IntText(n)) == Some(n as real)
    ensures IntText(n) != "" && AllNumberChars(IntText(n))
  {
    var m := if n < 0 then -n else n;
    var d := NatText(m);
    assert Minus(n < 0) + d == IntText(n);
    SpanOfDigits(d, "");
    assert d + "" == d;
    NatTextValue(m);
    DecimalOfInt(m);
    SignReads(n < 0, d);
  }

  lemma ExponentReads(negExp: bool, exp: string)
    requires exp != "" && AllDigits(exp)
    ensures ReadExponent(ExponentText(negExp, exp)) == Some(Exponent(negExp, exp))
  {
    var s := ExponentText(negExp, exp);
    assert s[1..][1..] == exp;
    assert s[1..][0] == if negExp then '-' else '+';
    SpanOfDigits(exp, "");
    assert exp + "" == exp;
  }

  lemma FractionReads(w: string, f: string, tail: string)
    requires w != "" && f != "" && AllDigits(w) && AllDigits(f)
    requires tail == "" || !IsDigit(tail[0])
    ensures ReadUnsigned(w + "." + f + tail) == Scale(Mantissa(w, f), ReadExponent(tail), |f|)
  {
    var s := w + "." + f + tail;
    var r1 := "." + f + tail;
    assert s == w + r1;
    SpanOfDigits(w, r1);
    assert r1[1..] == f + tail;
    SpanOfDigits(f, tail);
  }

  lemma WholeReads(w: string, tail: string)
    requires w != "" && AllDigits(w)
    requires tail == "" || (!IsDigit(tail[0]) && tail[0] != '.')
    ensures ReadUnsigned(w + tail) == Scale(Mantissa(w, ""), ReadExponent(tail), 0)
  {
    SpanOfDigits(w, tail);
  }

  lemma SciTextReads(lead: char, frac: string, negExp: bool, exp: string)
    requires IsDigit(lead) && AllDigits(frac) && exp != "" && AllDigits(exp)
    ensures ReadUnsigned(if frac == "" then [lead] + ExponentText(negExp, exp)
                         else [lead] + "." + frac + ExponentText(negExp, exp))
         == Some(Decimal(Mantissa([lead], frac), Exponent(negExp, exp) - |frac|))
  {
    var tail := ExponentText(negExp, exp);
    ExponentReads(negExp, exp);
    assert tail[0] == 'e';
    if frac == "" {
      WholeReads([lead], tail);
    } else {
      FractionReads([lead], frac, tail);
    }
  }

  lemma SciReads(f: ReprText)
    requires f.Sci?
    ensures ReadUnsigned(Body(f)) == Some(Magnitude(f))
  {
    hide ReadUnsigned, Decimal, DigitsValue, Pow10;
    SciTextReads(f.lead, f.frac, f.negExp, f.exp);
    if f.frac == "" {
      SciWithoutFraction(f, ExponentText(f.negExp, f.exp));
    } else {
      SciWithFraction(f, ExponentText(f.negExp, f.exp));
    }
  }

  lemma SciWithoutFraction(f: ReprText, tail: string)
    requires f.Sci? && f.frac == "" && tail == ExponentText(f.negExp, f.exp)
    ensures Body(f) == [f.lead] + tail
  {
  }

  lemma SciWithFraction(f: ReprText, tail: string)
    requires f.Sci? && f.frac != "" && tail == ExponentText(f.negExp, f.exp)
    ensures Body(f) == [f.lead] + "." + f.frac + tail
  {
  }

  lemma {:induction false} StripStops(front: string, c: char)
    requires front == "" || front[|front| - 1] != c
    ensures RStrip(front, c) == front
  {
  }

  /** rstrip removes only from the last part when the part before it ends in another character. */
  lemma {:induction false} StripTail(front: string, tail: string, c: char)
    requires front != "" && front[|front| - 1] != c
    ensures RStrip(front + tail, c) == front + RStrip(tail, c)
    decreases |tail|
  {
    var s := front + tail;
    if tail == "" {
      assert s == front;
    } else if tail[|tail| - 1] == c {
      assert s[..|s| - 1] == front + tail[..|tail| - 1];
      StripTail(front, tail[..|tail| - 1], c);
    }
  }

  /** Dropping trailing zeros of a fraction keeps its digits and its value. */
  lemma {:induction false} StrippedZeros(w: string, f: string)
    requires AllDigits(w) && AllDigits(f)
    ensures var g := RStrip(f, '0');
            && AllDigits(g)
            && (g == "" || g[|g| - 1] != '0')
            && Decimal(Mantissa(w, g), -|g|) == Decimal(Mantissa(w, f), -|f|)
    decreases |f|
  {
    if f != "" && f[|f| - 1] == '0' {
      var h := f[..|f| - 1];
      StrippedZeros(w, h);
      assert (w + f)[..|w + f| - 1] == w + h;
      assert Mantissa(w, f) == Mantissa(w, h) * 10;
      ShiftDecimal(Mantissa(w, h), -|h|);
    }
  }

  /** A fixed text without its sign, trailing zeros and trailing dot. */
  function StrippedBody(whole: string, frac: string): string {
    whole + Fraction(RStrip(frac, '0'))
  }

  /** The fixed shape after stripping: no dot when the fraction is all zeros. */
  lemma FixedText(f: ReprText)
    requires f.Fixed?
    ensures RStrip(RStrip(Repr(f), '0'), '.') == Minus(f.neg) + StrippedBody(f.whole, f.frac)
  {
    var bare := Minus(f.neg) + f.whole;
    var g := RStrip(f.frac, '0');
    FixedRepr(f);
    StripTail(bare + ".", f.frac, '0');
    StrippedZeros(f.whole, f.frac);
    assert bare[|bare| - 1] == f.whole[|f.whole| - 1];
    StripDot(bare, g);
    ConcatAssociates(Minus(f.neg), f.whole, Fraction(g));
  }

  lemma ConcatAssociates(a: string, b: string, c: string)
    ensures (a + b) + c == a + (b + c)
  {
  }

  lemma FixedRepr(f: ReprText)
    requires f.Fixed?
    ensures Repr(f) == ((Minus(f.neg) + f.whole) + ".") + f.frac
  {
  }

  lemma StripDot(bare: string, g: string)
    requires bare != "" && bare[|bare| - 1] != '.' && AllDigits(g)
    ensures RStrip((bare + ".") + g, '.') == bare + Fraction(g)
  {
    var s := (bare + ".") + g;
    if g == "" {
      assert s[..|s| - 1] == bare;
      StripStops(bare, '.');
    } else {
      assert s[|s| - 1] == g[|g| - 1];
      assert s == bare + ("." + g);
      StripStops(s, '.');
    }
  }

  lemma StrippedReads(whole: string, frac: string)
    requires whole != "" && AllDigits(whole) && AllDigits(frac)
    ensures ReadUnsigned(StrippedBody(whole, frac)) == Some(Decimal(Mantissa(whole, frac), -|frac|))
  {
    hide Decimal;
    StrippedZeros(whole, frac);
    var g := RStrip(frac, '0');
    var s := StrippedBody(whole, frac);
    if g == "" {
      assert s == whole + "";
      WholeReads(whole, "");
    } else {
      assert s == whole + "." + g + "";
      FractionReads(whole, g, "");
    }
  }

  lemma FixedReads(f: ReprText)
    requires f.Fixed?
    ensures ReadUnsigned(StrippedBody(f.whole, f.frac)) == Some(Magnitude(f))
  {
    StrippedReads(f.whole, f.frac);
  }

  lemma BodyChars(f: ReprText)
    ensures forall c :: c in Body(f) ==> IsNumberChar(c) && c != 'E'
    ensures f.Fixed? ==> '.' in Body(f) && 'e' !in Body(f)
    ensures f.Sci? ==> 'e' in Body(f)
  {
    if f.Fixed? {
      assert Body(f)[|f.whole|] == '.';
    } else {
      var tail := ExponentText(f.negExp, f.exp);
      assert tail[0] == 'e';
      assert forall c :: c in tail ==> IsNumberChar(c) && c != 'E';
      if f.frac == "" {
        SciWithoutFraction(f, tail);
      } else {
        SciWithFraction(f, tail);
        assert forall c :: c in f.frac ==> IsDigit(c);
      }
    }
  }

  lemma ReprChars(f: ReprText)
    ensures AllNumberChars(Repr(f)) && Repr(f) != ""
    ensures 'E' !in Repr(f)
    ensures f.Fixed? ==> '.' in Repr(f) && 'e' !in Repr(f)
    ensures f.Sci? ==> 'e' in Repr(f)
  {
    BodyChars(f);
    assert forall c :: c in Repr(f) <==> c in Minus(f.neg) || c in Body(f);
    assert forall i :: 0 <= i < |Repr(f)| ==> Repr(f)[i] in Repr(f);
  }

  lemma {:induction false} StripChars(s: string, c: char)
    requires AllNumberChars(s)
    ensures AllNumberChars(RStrip(s, c))
    decreases |s|
  {
    if s != "" && s[|s| - 1] == c {
      StripChars(s[..|s| - 1], c);
    }
  }

  /** The canonical text of a finite float reads back as the float's exact decimal value. */
  lemma CanonicalTextReads(f: ReprText)
    ensures ReadNumber(CanonicalText(f)) == Some(FloatValue(f))
    ensures AllNumberChars(CanonicalText(f)) && CanonicalText(f) != ""
  {
    var v: ReprText := if FloatValue(f) == 0.0 then Fixed(false, "0", "0") else f;
    ZeroValue();
    assert FloatValue(v) == FloatValue(f);
    ReprChars(v);
    match v
    case Fixed(_, _, _) =>
      FixedText(v);
      FixedReads(v);
      SignReads(v.neg, StrippedBody(v.whole, v.frac));
      StripChars(Repr(v), '0');
      StripChars(RStrip(Repr(v), '0'), '.');
    case Sci(_, _, _, _, _) =>
      SciReads(v);
      SignReads(v.neg, Body(v));
  }

  lemma ZeroValue()
    ensures FloatValue(Fixed(false, "0", "0")) == 0.0
  {
    var s := "0" + "0";
    assert s[..1] == "0";
    assert "0"[..0] == "";
    assert DigitsValue("0") == 0;
    assert DigitsValue(s) == 0;
  }

  lemma StrippedEnd(bare: string, frac: string)
    requires bare != "" && IsDigit(bare[|bare| - 1]) && AllDigits(frac) && '.' !in bare
    requires frac == "" || frac[|frac| - 1] != '0'
    ensures var s := bare + Fraction(frac);
            s[|s| - 1] != '.' && ('.' in s ==> s[|s| - 1] != '0') && ('.' !in s ==> s == bare)
  {
    var s := bare + Fraction(frac);
    if frac == "" {
      assert s == bare;
    } else {
      assert s[|s| - 1] == frac[|frac| - 1];
      assert s[|bare|] == '.';
    }
  }

  /** In the fixed shape the canonical text has no trailing zero fraction and no trailing dot. */
  lemma CanonicalIsStripped(f: ReprText)
    requires f.Fixed? && FloatValue(f) != 0.0
    ensures var s := CanonicalText(f);
            s != "" && s[|s| - 1] != '.' && ('.' in s ==> s[|s| - 1] != '0')
    ensures '.' !in CanonicalText(f) ==> CanonicalText(f) == Minus(f.neg) + f.whole
  {
    hide FloatValue, Decimal, DigitsValue;
    ReprChars(f);
    FixedText(f);
    StrippedZeros(f.whole, f.frac);
    var bare, g := Minus(f.neg) + f.whole, RStrip(f.frac, '0');
    ConcatAssociates(Minus(f.neg), f.whole, Fraction(g));
    assert CanonicalText(f) == bare + Fraction(g);
    hide CanonicalText, RStrip, Repr;
    assert bare[|bare| - 1] == f.whole[|f.whole| - 1];
    StrippedEnd(bare, g);
  }
}
