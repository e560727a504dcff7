/** The name that libs/telemetry/observation_id.py hashes to an observation id. */
module ObservationId {
  import opened JsonNumber

  /** A UUID prints as 36 characters. */
  const UUID_TEXT_LENGTH := 36

  function Name(tenant: string, installation: string, batch: string, sequence: string, factType: string): string {
    tenant + ":" + installation + ":" + batch + ":" + sequence + ":" + factType
  }

  predicate ColonFree(s: string) {
    ':' !in s
  }

  lemma Head(a: string, x: string)
    ensures (a + ":" + x)[0] == if a == "" then ':' else a[0]
  {
  }

  lemma {:induction false} FirstColon(a: string, x: string, b: string, y: string)
    requires ColonFree(a) && ColonFree(b) && a + ":" + x == b + ":" + y
    ensures a == b && x == y
    decreases |a|
  {
    var s, t := a + ":" + x, b + ":" + y;
    Head(a, x);
    Head(b, y);
    if a == "" {
      assert s[0] == ':' && s[1..] == x;
      assert t[|b| + 1..] == y;
    } else {
      assert s[0] == a[0] && s[1..] == a[1..] + ":" + x;
      assert t[0] == b[0] && t[1..] == b[1..] + ":" + y;
      FirstColon(a[1..], x, b[1..], y);
    }
  }

  lemma FixedField(a: string, x: string, b: string, y: string)
    requires |a| == |b| && a + ":" + x == b + ":" + y
    ensures a == b && x == y
  {
    var s, t := a + ":" + x, b + ":" + y;
    assert s[..|a|] == a && t[..|b|] == b;
    assert s[|a| + 1..] == x && t[|b| + 1..] == y;
  }

  lemma Grouping(a: string, b: string, c: string, d: string, e: string)
    ensures Name(a, b, c, d, e) == a + ":" + (b + ":" + (c + ":" + (d + ":" + e)))
  {
    assert Name(a, b, c, d, e) == a + ":" + (b + ":" + c + ":" + d + ":" + e);
    assert b + ":" + c + ":" + d + ":" + e == b + ":" + (c + ":" + d + ":" + e);
    assert c + ":" + d + ":" + e == c + ":" + (d + ":" + e);
  }

  /**
   * Different inputs never share a name, although a fact type may itself hold colons:
   * the UUID texts have a fixed length and a sequence text holds no colon.
   */
  lemma NameIsInjective(t: string, i: string, b: string, s: string, f: string,
                        t': string, i': string, b': string, s': string, f': string)
    requires |t| == |i| == |b| == UUID_TEXT_LENGTH && |t'| == |i'| == |b'| == UUID_TEXT_LENGTH
    requires ColonFree(s) && ColonFree(s')
    requires Name(t, i, b, s, f) == Name(t', i', b', s', f')
    ensures t == t' && i == i' && b == b' && s == s' && f == f'
  {
    Grouping(t, i, b, s, f);
    Grouping(t', i', b', s', f');
    FixedField(t, i + ":" + (b + ":" + (s + ":" + f)), t', i' + ":" + (b' + ":" + (s' + ":" + f')));
    FixedField(i, b + ":" + (s + ":" + f), i', b' + ":" + (s' + ":" + f'));
    FixedField(b, s + ":" + f, b', s' + ":" + f');
    FirstColon(s, f, s', f');
  }

  lemma DecimalsAreColonFree(n: nat)
    ensures ColonFree(NatText(n))
  {
    assert AllDigits(NatText(n));
  }

  lemma DecimalsAreInjective(m: nat, n: nat)
    requires NatText(m) == NatText(n)
    ensures m == n
  {
    NatTextValue(m);
    NatTextValue(n);
  }
}
