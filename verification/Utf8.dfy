/**
 * UTF-8 (section 3 of RFC 3629) on sequences of Unicode scalar values, and the fact
 * that it keeps the lexicographic order, so that sorting strings by code point sorts
 * their encodings by byte value.
 */
module Utf8 {

  type Byte = x: int | 0 <= x < 256

  function EncodeChar(c: char): (r: seq<Byte>)
    ensures 1 <= |r| <= 4
  {
    var x := c as int;
    if x < 0x80 then [x]
    else if x < 0x800 then [0xC0 + x / 64, 0x80 + x % 64]
    else if x < 0x1_0000 then [0xE0 + x / 64 / 64, 0x80 + x / 64 % 64, 0x80 + x % 64]
    else [0xF0 + x / 64 / 64 / 64, 0x80 + x / 64 / 64 % 64, 0x80 + x / 64 % 64, 0x80 + x % 64]
  }

  function Encode(s: string): seq<Byte> {
    if s == "" then [] else EncodeChar(s[0]) + Encode(s[1..])
  }

  /** Strict lexicographic order of strings by code point: Python's order on str. */
  predicate Before(s: string, t: string) {
    t != "" && (s == "" || s[0] < t[0] || (s[0] == t[0] && Before(s[1..], t[1..])))
  }

  /** Strict lexicographic order by byte value. */
  predicate BytesBefore(a: seq<Byte>, b: seq<Byte>) {
    b != [] && (a == [] || a[0] < b[0] || (a[0] == b[0] && BytesBefore(a[1..], b[1..])))
  }

  lemma {:induction false} Total(s: string, t: string)
    ensures s == t || Before(s, t) || Before(t, s)
  {
    if s != "" && t != "" && s[0] == t[0] {
      Total(s[1..], t[1..]);
      if s[1..] == t[1..] {
        assert s == [s[0]] + s[1..] && t == [t[0]] + t[1..];
      }
    }
  }

  lemma {:induction false} Irreflexive(s: string)
    ensures !Before(s, s)
  {
    if s != "" {
      Irreflexive(s[1..]);
    }
  }

  lemma {:induction false} Transitive(s: string, t: string, u: string)
    requires Before(s, t) && Before(t, u)
    ensures Before(s, u)
  {
    if s != "" && s[0] == t[0] == u[0] {
      Transitive(s[1..], t[1..], u[1..]);
    }
  }

  lemma {:induction false} BytesIrreflexive(a: seq<Byte>)
    ensures !BytesBefore(a, a)
  {
    if a != [] {
      BytesIrreflexive(a[1..]);
    }
  }

  lemma {:induction false} BytesAsymmetric(a: seq<Byte>, b: seq<Byte>)
    requires BytesBefore(a, b)
    ensures !BytesBefore(b, a)
  {
    if a != [] && a[0] == b[0] {
      BytesAsymmetric(a[1..], b[1..]);
    }
  }

  /** a and b agree before position k and a is smaller there. */
  ghost predicate DiffersAt(a: seq<Byte>, b: seq<Byte>, k: nat) {
    k < |a| && k < |b| && a[k] < b[k] && forall i :: 0 <= i < k ==> a[i] == b[i]
  }

  lemma {:induction false} DifferenceDecides(a: seq<Byte>, b: seq<Byte>, k: nat, x: seq<Byte>, y: seq<Byte>)
    requires DiffersAt(a, b, k)
    ensures BytesBefore(a + x, b + y)
    decreases k
  {
    if k > 0 {
      DifferenceDecides(a[1..], b[1..], k - 1, x, y);
      assert (a + x)[1..] == a[1..] + x && (b + y)[1..] == b[1..] + y;
    }
  }

  lemma {:induction false} CommonPrefix(p: seq<Byte>, a: seq<Byte>, b: seq<Byte>)
    ensures BytesBefore(p + a, p + b) <==> BytesBefore(a, b)
    decreases |p|
  {
    if p == [] {
      assert p + a == a && p + b == b;
    } else {
      CommonPrefix(p[1..], a, b);
      assert (p + a)[1..] == p[1..] + a && (p + b)[1..] == p[1..] + b;
    }
  }

  lemma SplitOrder(x: nat, y: nat)
    requires x < y
    ensures x / 64 < y / 64 || (x / 64 == y / 64 && x % 64 < y % 64)
  {
  }

  /** Two characters' encodings differ first at a position where the smaller one is smaller. */
  lemma EncodedCharsDiffer(c: char, d: char) returns (k: nat)
    requires c < d
    ensures DiffersAt(EncodeChar(c), EncodeChar(d), k)
  {
    if |EncodeChar(c)| != |EncodeChar(d)| {
      LeadBytesGrow(c, d);
      k := 0;
    } else if |EncodeChar(c)| <= 2 {
      k := ShortCharsDiffer(c, d);
    } else {
      k := LongCharsDiffer(c, d);
    }
  }

  lemma ShortCharsDiffer(c: char, d: char) returns (k: nat)
    requires c < d && |EncodeChar(c)| == |EncodeChar(d)| <= 2
    ensures DiffersAt(EncodeChar(c), EncodeChar(d), k)
  {
    SplitOrder(c as int, d as int);
    k := if c as int / 64 == d as int / 64 then |EncodeChar(c)| - 1 else 0;
  }

  /** Quotients and remainders by 64 order two numbers at the first place where they differ. */
  lemma PlacesDiffer(x: nat, y: nat)
    requires x < y
    ensures x / 64 != y / 64 ==> x / 64 < y / 64
    ensures x / 64 == y / 64 ==> x % 64 < y % 64
  {
    SplitOrder(x, y);
  }

  lemma LongCharsDiffer(c: char, d: char) returns (k: nat)
    requires c < d && |EncodeChar(c)| == |EncodeChar(d)| > 2
    ensures DiffersAt(EncodeChar(c), EncodeChar(d), k)
  {
    var x, y, n := c as int, d as int, |EncodeChar(c)|;
    var x1, y1 := x / 64, y / 64;
    var x2, y2 := x1 / 64, y1 / 64;
    PlacesDiffer(x, y);
    if x1 == y1 {
      return n - 1;
    }
    PlacesDiffer(x1, y1);
    if x2 == y2 {
      return n - 2;
    }
    PlacesDiffer(x2, y2);
    return if n == 3 || x2 / 64 != y2 / 64 then 0 else 1;
  }

  lemma LeadBytesGrow(c: char, d: char)
    requires c < d && |EncodeChar(c)| != |EncodeChar(d)|
    ensures EncodeChar(c)[0] < EncodeChar(d)[0]
  {
    LeadRange(c);
    LeadRange(d);
  }

  lemma LeadRange(c: char)
    ensures var a := EncodeChar(c);
            && (|a| == 1 <==> a[0] < 0x80)
            && (|a| == 2 <==> 0xC0 <= a[0] < 0xE0)
            && (|a| == 3 <==> 0xE0 <= a[0] < 0xF0)
            && (|a| == 4 <==> 0xF0 <= a[0])
  {
  }

  /** Code-point order on strings is exactly byte order on their UTF-8 encodings. */
  lemma {:induction false} EncodeKeepsOrder(s: string, t: string)
    ensures Before(s, t) <==> BytesBefore(Encode(s), Encode(t))
    decreases |s| + |t|
  {
    if s != "" && t != "" {
      if s[0] == t[0] {
        EncodeKeepsOrder(s[1..], t[1..]);
        CommonPrefix(EncodeChar(s[0]), Encode(s[1..]), Encode(t[1..]));
      } else if s[0] < t[0] {
        var k := EncodedCharsDiffer(s[0], t[0]);
        DifferenceDecides(EncodeChar(s[0]), EncodeChar(t[0]), k, Encode(s[1..]), Encode(t[1..]));
      } else {
        var k := EncodedCharsDiffer(t[0], s[0]);
        DifferenceDecides(EncodeChar(t[0]), EncodeChar(s[0]), k, Encode(t[1..]), Encode(s[1..]));
        BytesAsymmetric(Encode(t), Encode(s));
      }
    }
  }

  /** Different strings have different encodings. */
  lemma EncodeIsInjective(s: string, t: string)
    requires Encode(s) == Encode(t)
    ensures s == t
  {
    Total(s, t);
    EncodeKeepsOrder(s, t);
    EncodeKeepsOrder(t, s);
    BytesIrreflexive(Encode(s));
  }
}
