/**
 * JSON strings: the two escapings that json.dumps applies (ASCII only for keys,
 * Unicode kept for values) and a reader that follows section 7 of RFC 8259.
 */
module JsonText {
  import opened Prelude

  // ------------------------------------------------------------ Hex quads

  function HexDigit(n: int): char
    requires 0 <= n < 16
  {
    if n < 10 then ('0' as int + n) as char else ('a' as int + n - 10) as char
  }

  function HexValue(c: char): Option<int> {
    if '0' <= c <= '9' then Some(c as int - '0' as int)
    else if 'a' <= c <= 'f' then Some(c as int - 'a' as int + 10)
    else if 'A' <= c <= 'F' then Some(c as int - 'A' as int + 10)
    else None
  }

  function Hex4(n: int): (s: string)
    requires 0 <= n < 0x1_0000
    ensures |s| == 4
  {
    [HexDigit(n / 16 / 16 / 16), HexDigit(n / 16 / 16 % 16), HexDigit(n / 16 % 16), HexDigit(n % 16)]
  }

  function ReadHex4(s: string): Option<int>
    requires |s| >= 4
  {
    match (HexValue(s[0]), HexValue(s[1]), HexValue(s[2]), HexValue(s[3]))
    case (Some(a), Some(b), Some(c), Some(d)) => Some(((a * 16 + b) * 16 + c) * 16 + d)
    case _ => None
  }

  lemma HexDigitReads(n: int)
    requires 0 <= n < 16
    ensures HexValue(HexDigit(n)) == Some(n)
  {
  }

  lemma Hex4Reads(n: int, rest: string)
    requires 0 <= n < 0x1_0000
    ensures ReadHex4(Hex4(n) + rest) == Some(n)
  {
    HexDigitReads(n / 16 / 16 / 16);
    HexDigitReads(n / 16 / 16 % 16);
    HexDigitReads(n / 16 % 16);
    HexDigitReads(n % 16);
    assert n == n / 16 * 16 + n % 16;
    assert n / 16 == n / 16 / 16 * 16 + n / 16 % 16;
    assert n / 16 / 16 == n / 16 / 16 / 16 * 16 + n / 16 / 16 % 16;
  }

  // ------------------------------------------------------------- Escaping

  function UnicodeEscape(n: int): (s: string)
    requires 0 <= n < 0x1_0000
    ensures |s| == 6
  {
    "\\u" + Hex4(n)
  }

  function HighSurrogate(x: int): int {
    0xD800 + (x - 0x1_0000) / 0x400
  }

  function LowSurrogate(x: int): int {
    0xDC00 + (x - 0x1_0000) % 0x400
  }

  function EscapeChar(c: char, ascii: bool): string {
    if c == '\"' then "\\\""
    else if c == '\\' then "\\\\"
    else if c == '\n' then "\\n"
    else if c == '\r' then "\\r"
    else if c == '\t' then "\\t"
    else if c as int == 8 then "\\b"
    else if c as int == 12 then "\\f"
    else if c < ' ' then UnicodeEscape(c as int)
    else if !ascii || c <= '~' then [c]
    else if c as int < 0x1_0000 then UnicodeEscape(c as int)
    else UnicodeEscape(HighSurrogate(c as int)) + UnicodeEscape(LowSurrogate(c as int))
  }

  function Escape(s: string, ascii: bool): string {
    if s == "" then "" else EscapeChar(s[0], ascii) + Escape(s[1..], ascii)
  }

  /** json.dumps of a string: keys use the ASCII form, values keep Unicode. */
  function Quote(s: string, ascii: bool): string {
    "\"" + Escape(s, ascii) + "\""
  }

  // -------------------------------------------------------------- Reading

  predicate IsScalar(n: int) {
    0 <= n < 0xD800 || 0xE000 <= n < 0x11_0000
  }

  /** Reads the part of a \u escape that follows the u, joining surrogate pairs. */
  function ReadUnicode(s: string): (r: Option<(char, string)>)
    ensures r.Some? ==> |r.value.1| < |s|
  {
    if |s| < 4 then None
    else
      match ReadHex4(s)
      case None => None
      case Some(h) =>
        if IsScalar(h) then Some((h as char, s[4..]))
        else if 0xD800 <= h < 0xDC00 && |s| >= 10 && s[4] == '\\' && s[5] == 'u' then
          match ReadHex4(s[6..])
          case None => None
          case Some(l) =>
            if 0xDC00 <= l < 0xE000
            then Some(((0x1_0000 + (h - 0xD800) * 0x400 + (l - 0xDC00)) as char, s[10..]))
            else None
        else None
  }

  /** Reads one character of a string body. */
  function ReadChar(s: string): (r: Option<(char, string)>)
    ensures r.Some? ==> |r.value.1| < |s|
  {
    if s == "" || s[0] < ' ' || s[0] == '\"' then None
    else if s[0] != '\\' then Some((s[0], s[1..]))
    else if |s| == 1 then None
    else
      var e := s[1];
      if e == '\"' || e == '\\' || e == '/' then Some((e, s[2..]))
      else if e == 'n' then Some(('\n', s[2..]))
      else if e == 'r' then Some(('\r', s[2..]))
      else if e == 't' then Some(('\t', s[2..]))
      else if e == 'b' then Some((8 as char, s[2..]))
      else if e == 'f' then Some((12 as char, s[2..]))
      else if e == 'u' then ReadUnicode(s[2..])
      else None
  }

  /** Reads a string body up to and including the closing quote. */
  function ReadBody(s: string): (r: Option<(string, string)>)
    ensures r.Some? ==> |r.value.1| < |s|
    decreases |s|
  {
    if s == "" then None
    else if s[0] == '\"' then Some(("", s[1..]))
    else
      match ReadChar(s)
      case None => None
      case Some((c, rest)) =>
        match ReadBody(rest)
        case None => None
        case Some((t, after)) => Some(([c] + t, after))
  }

  /** Reads a quoted string. */
  function ReadString(s: string): (r: Option<(string, string)>)
    ensures r.Some? ==> |r.value.1| < |s|
  {
    if s == "" || s[0] != '\"' then None else ReadBody(s[1..])
  }

  // ----------------------------------------------------------- Round trip

  lemma UnicodeEscapeReads(n: int, rest: string)
    requires 0 <= n < 0x1_0000 && IsScalar(n)
    ensures ReadChar(UnicodeEscape(n) + rest) == Some((n as char, rest))
  {
    var s := UnicodeEscape(n) + rest;
    assert s[0] == '\\' && s[1] == 'u';
    assert s[2..] == Hex4(n) + rest;
    Hex4Reads(n, rest);
    assert (Hex4(n) + rest)[4..] == rest;
  }

  lemma SurrogatesRejoin(x: int)
    requires 0x1_0000 <= x < 0x11_0000
    ensures 0xD800 <= HighSurrogate(x) < 0xDC00 && 0xDC00 <= LowSurrogate(x) < 0xE000
    ensures 0x1_0000 + (HighSurrogate(x) - 0xD800) * 0x400 + (LowSurrogate(x) - 0xDC00) == x
  {
    var y := x - 0x1_0000;
    assert y == y / 0x400 * 0x400 + y % 0x400;
  }

  /** The twelve characters of an escaped pair, after the first backslash and u. */
  lemma PairTail(h: int, l: int, rest: string)
    requires 0xD800 <= h < 0xDC00 && 0xDC00 <= l < 0xE000
    ensures ReadUnicode(Hex4(h) + (UnicodeEscape(l) + rest)) == Some(((0x1_0000 + (h - 0xD800) * 0x400 + (l - 0xDC00)) as char, rest))
  {
    var t := Hex4(h) + (UnicodeEscape(l) + rest);
    Hex4Reads(h, UnicodeEscape(l) + rest);
    Hex4Reads(l, rest);
    assert t[4] == '\\' && t[5] == 'u' && t[6..] == Hex4(l) + rest && t[10..] == rest;
    hide ReadHex4, Hex4;
  }

  lemma PairReads(x: int, rest: string)
    requires 0x1_0000 <= x < 0x11_0000
    ensures HighSurrogate(x) < 0x1_0000 && LowSurrogate(x) < 0x1_0000
    ensures ReadChar(UnicodeEscape(HighSurrogate(x)) + UnicodeEscape(LowSurrogate(x)) + rest) == Some((x as char, rest))
  {
    SurrogatesRejoin(x);
    var h, l := HighSurrogate(x), LowSurrogate(x);
    var s := UnicodeEscape(h) + UnicodeEscape(l) + rest;
    assert s[0] == '\\' && s[1] == 'u';
    assert s[2..] == Hex4(h) + (UnicodeEscape(l) + rest);
    hide ReadUnicode, Hex4, HighSurrogate, LowSurrogate;
    PairTail(h, l, rest);
  }

  lemma EscapedCharReads(c: char, ascii: bool, rest: string)
    ensures ReadChar(EscapeChar(c, ascii) + rest) == Some((c, rest))
  {
    var e := EscapeChar(c, ascii);
    var s := e + rest;
    if |e| == 1 {
      assert s[1..] == rest;
    } else if |e| == 2 {
      assert s[2..] == rest;
    } else if c as int < 0x1_0000 {
      UnicodeEscapeReads(c as int, rest);
    } else {
      PairReads(c as int, rest);
    }
  }

  lemma EscapedCharStart(c: char, ascii: bool)
    ensures EscapeChar(c, ascii) != "" && EscapeChar(c, ascii)[0] != '\"'
  {
  }

  /** Reading an escaped body gives back the string, for both escapings. */
  lemma {:induction false} EscapeReads(s: string, ascii: bool, rest: string)
    ensures ReadBody(Escape(s, ascii) + "\"" + rest) == Some((s, rest))
    decreases |s|
  {
    var text := Escape(s, ascii) + "\"" + rest;
    if s == "" {
      assert text == "\"" + rest;
      assert text[1..] == rest;
    } else {
      var tail := Escape(s[1..], ascii) + "\"" + rest;
      assert text == EscapeChar(s[0], ascii) + tail;
      EscapedCharReads(s[0], ascii, tail);
      EscapedCharStart(s[0], ascii);
      EscapeReads(s[1..], ascii, rest);
      assert [s[0]] + s[1..] == s;
    }
  }

  /** A quoted string followed by anything reads back as the string and that remainder. */
  lemma QuoteReads(s: string, ascii: bool, rest: string)
    ensures ReadString(Quote(s, ascii) + rest) == Some((s, rest))
  {
    var body := Escape(s, ascii) + "\"" + rest;
    var text := Quote(s, ascii) + rest;
    assert text == "\"" + body;
    assert text[1..] == body;
    EscapeReads(s, ascii, rest);
  }

  predicate Printable(c: char) {
    ' ' <= c <= '~'
  }

  lemma HexIsPrintable(n: int)
    requires 0 <= n < 16
    ensures Printable(HexDigit(n))
  {
  }

  lemma EscapedCharIsAscii(c: char)
    ensures forall x :: x in EscapeChar(c, true) ==> Printable(x)
  {
    forall n | 0 <= n < 16
      ensures Printable(HexDigit(n))
    {
      HexIsPrintable(n);
    }
    hide HexDigit;
  }

  lemma PrintableEscapesAlike(c: char)
    requires Printable(c)
    ensures EscapeChar(c, true) == EscapeChar(c, false)
  {
  }

  /** The ASCII form contains only printable ASCII, and both forms agree on printable ASCII. */
  lemma {:induction false} AsciiEscapeIsAscii(s: string)
    ensures forall x :: x in Escape(s, true) ==> Printable(x)
    ensures (forall x :: x in s ==> Printable(x)) ==> Escape(s, true) == Escape(s, false)
  {
    hide EscapeChar;
    if s != "" {
      EscapedCharIsAscii(s[0]);
      AsciiEscapeIsAscii(s[1..]);
      if forall x :: x in s ==> Printable(x) {
        PrintableEscapesAlike(s[0]);
      }
    }
  }
}
