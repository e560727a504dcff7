/**
 * The canonical telemetry payload of libs/telemetry/canonical.py: a recursive JSON
 * printer with sorted keys, a reader for its output, and the two directions of
 * determinism: equal bodies give equal bytes, and equal bytes give equal bodies.
 */
module Canonical {
  import opened Prelude
  import opened JsonText
  import opened JsonNumber
  import NumberTexts
  import Utf8

  /** A Python value as a request body holds it; a dictionary lists its items in insertion order. */
  datatype Json =
    | Null
    | Bool(b: bool)
    | Int(n: int)
    | Float(x: PyFloat)
    | Str(s: string)
    | Arr(items: seq<Json>)
    | Obj(fields: seq<Field>)

  datatype Field = Field(key: string, value: Json)

  /** Dictionary keys are distinct, at every depth. */
  ghost predicate Valid(v: Json) {
    match v
    case Arr(items) => forall i :: 0 <= i < |items| ==> Valid(items[i])
    case Obj(fields) => DistinctKeys(fields) && forall i :: 0 <= i < |fields| ==> Valid(fields[i].value)
    case _ => true
  }

  ghost predicate DistinctKeys(fields: seq<Field>) {
    forall i, j :: 0 <= i < j < |fields| ==> fields[i].key != fields[j].key
  }

  // -------------------------------------------------------------- Sorting

  function Insert(f: Field, sorted: seq<Field>): seq<Field> {
    if sorted == [] || Utf8.Before(f.key, sorted[0].key) then [f] + sorted
    else [sorted[0]] + Insert(f, sorted[1..])
  }

  /** sorted(v.keys()), carrying each key's value along. */
  function SortByKey(fields: seq<Field>): seq<Field> {
    if fields == [] then [] else Insert(fields[0], SortByKey(fields[1..]))
  }

  ghost predicate Sorted(fields: seq<Field>) {
    forall i, j :: 0 <= i < j < |fields| ==> Utf8.Before(fields[i].key, fields[j].key)
  }

  lemma {:induction false} InsertMembers(f: Field, sorted: seq<Field>)
    ensures multiset(Insert(f, sorted)) == multiset(sorted) + multiset{f}
  {
    if sorted == [] || Utf8.Before(f.key, sorted[0].key) {
    } else {
      InsertMembers(f, sorted[1..]);
      assert sorted == [sorted[0]] + sorted[1..];
    }
  }

  lemma {:induction false} SortMembers(fields: seq<Field>)
    ensures multiset(SortByKey(fields)) == multiset(fields)
    ensures |SortByKey(fields)| == |fields|
  {
    if fields != [] {
      SortMembers(fields[1..]);
      InsertMembers(fields[0], SortByKey(fields[1..]));
      assert fields == [fields[0]] + fields[1..];
    }
    assert |multiset(SortByKey(fields))| == |multiset(fields)|;
  }

  /** Sorting neither adds nor drops a field. */
  lemma SortKeepsMembers(fields: seq<Field>)
    ensures forall f :: f in SortByKey(fields) <==> f in fields
  {
    SortMembers(fields);
    assert forall f :: f in SortByKey(fields) <==> f in multiset(SortByKey(fields));
    assert forall f :: f in fields <==> f in multiset(fields);
  }

  lemma {:induction false} InsertIsSorted(f: Field, sorted: seq<Field>)
    requires Sorted(sorted) && forall i :: 0 <= i < |sorted| ==> sorted[i].key != f.key
    ensures Sorted(Insert(f, sorted))
    decreases |sorted|
  {
    if sorted == [] {
    } else if Utf8.Before(f.key, sorted[0].key) {
      forall i | 0 < i < |sorted|
        ensures Utf8.Before(f.key, sorted[i].key)
      {
        Utf8.Transitive(f.key, sorted[0].key, sorted[i].key);
      }
    } else {
      Utf8.Total(f.key, sorted[0].key);
      InsertIsSorted(f, sorted[1..]);
      var r := Insert(f, sorted[1..]);
      InsertMembers(f, sorted[1..]);
      forall i | 0 <= i < |r|
        ensures Utf8.Before(sorted[0].key, r[i].key)
      {
        assert r[i] in multiset(r);
        assert r[i] == f || r[i] in sorted[1..];
      }
    }
  }

  lemma {:induction false} SortIsSorted(fields: seq<Field>)
    requires DistinctKeys(fields)
    ensures Sorted(SortByKey(fields))
  {
    if fields != [] {
      var rest := SortByKey(fields[1..]);
      SortIsSorted(fields[1..]);
      SortKeepsMembers(fields[1..]);
      forall i | 0 <= i < |rest|
        ensures rest[i].key != fields[0].key
      {
        assert rest[i] in fields[1..];
      }
      InsertIsSorted(fields[0], rest);
    }
  }

  /** The printed key order is the byte order of the keys' UTF-8 encodings. */
  lemma KeysInByteOrder(fields: seq<Field>)
    requires DistinctKeys(fields)
    ensures var sorted := SortByKey(fields);
            forall i, j :: 0 <= i < j < |sorted| ==>
              Utf8.BytesBefore(Utf8.Encode(sorted[i].key), Utf8.Encode(sorted[j].key))
  {
    var sorted := SortByKey(fields);
    SortIsSorted(fields);
    forall i, j | 0 <= i < j < |sorted|
      ensures Utf8.BytesBefore(Utf8.Encode(sorted[i].key), Utf8.Encode(sorted[j].key))
    {
      Utf8.EncodeKeepsOrder(sorted[i].key, sorted[j].key);
    }
  }

  lemma SortedKeysDiffer(fields: seq<Field>)
    requires Sorted(fields)
    ensures DistinctKeys(fields)
  {
    forall i, j | 0 <= i < j < |fields|
      ensures fields[i].key != fields[j].key
    {
      Utf8.Irreflexive(fields[i].key);
    }
  }

  // ------------------------------------------------------------- Printing

  /** _serialize_value: json.dumps for scalars, recursion for lists and dictionaries. */
  function Serialize(v: Json): Result<string, FloatError>
    decreases v, 1, 0
  {
    match v
    case Null => Ok("null")
    case Bool(b) => Ok(if b then "true" else "false")
    case Int(n) => Ok(IntText(n))
    case Float(x) => CanonicalFloat(x)
    case Str(s) => Ok(Quote(s, false))
    case Arr(items) =>
      (match SerializeItems(items)
       case Err(e) => Err(e)
       case Ok(t) => Ok("[" + t + "]"))
    case Obj(fields) =>
      SortKeepsMembers(fields);
      (match SerializeFields(SortByKey(fields), fields)
       case Err(e) => Err(e)
       case Ok(t) => Ok("{" + t + "}"))
  }

  function SerializeItems(items: seq<Json>): Result<string, FloatError>
    decreases items, 0, 0
  {
    if items == [] then Ok("")
    else
      match Serialize(items[0])
      case Err(e) => Err(e)
      case Ok(h) =>
        if |items| == 1 then Ok(h)
        else
          match SerializeItems(items[1..])
          case Err(e) => Err(e)
          case Ok(t) => Ok(h + "," + t)
  }

  /** The members in the given order; parent only bounds the recursion. */
  function SerializeFields(fields: seq<Field>, ghost parent: seq<Field>): Result<string, FloatError>
    requires forall f :: f in fields ==> f in parent
    decreases parent, 0, |fields|
  {
    if fields == [] then Ok("")
    else
      assert fields[0] in parent;
      match Serialize(fields[0].value)
      case Err(e) => Err(e)
      case Ok(h) =>
        var member := Quote(fields[0].key, true) + ":" + h;
        if |fields| == 1 then Ok(member)
        else
          match SerializeFields(fields[1..], parent)
          case Err(e) => Err(e)
          case Ok(t) => Ok(member + "," + t)
  }

  function WithoutBatchId(body: seq<Field>): seq<Field> {
    if body == [] then []
    else (if body[0].key == "batch_id" then [] else [body[0]]) + WithoutBatchId(body[1..])
  }

  /** canonical_payload: drop batch_id, print with sorted keys, encode as UTF-8. */
  function CanonicalPayload(body: seq<Field>): Result<seq<Utf8.Byte>, FloatError> {
    match Serialize(Obj(WithoutBatchId(body)))
    case Err(e) => Err(e)
    case Ok(t) => Ok(Utf8.Encode(t))
  }

  // -------------------------------------------------------------- Meaning

  /** What a JSON text says: numbers by value, objects as maps. */
  datatype Tree =
    | TNull
    | TBool(b: bool)
    | TNum(x: real)
    | TStr(s: string)
    | TArr(items: seq<Tree>)
    | TObj(members: map<string, Tree>)

  ghost predicate AllFinite(v: Json) {
    match v
    case Float(x) => x.Finite?
    case Arr(items) => forall i :: 0 <= i < |items| ==> AllFinite(items[i])
    case Obj(fields) => forall i :: 0 <= i < |fields| ==> AllFinite(fields[i].value)
    case _ => true
  }

  function Meaning(v: Json): Tree {
    match v
    case Null => TNull
    case Bool(b) => TBool(b)
    case Int(n) => TNum(n as real)
    case Float(x) => if x.Finite? then TNum(FloatValue(x.text)) else TNull
    case Str(s) => TStr(s)
    case Arr(items) => TArr(seq(|items|, i requires 0 <= i < |items| => Meaning(items[i])))
    case Obj(fields) => TObj(Members(fields))
  }

  /** The dictionary with the given items; a later item replaces an earlier one. */
  function Members(fields: seq<Field>): map<string, Tree> {
    if fields == [] then map[]
    else map[fields[0].key := Meaning(fields[0].value)] + Members(fields[1..])
  }

  ghost function Keys(fields: seq<Field>): set<string> {
    set f | f in fields :: f.key
  }

  lemma {:induction false} MemberKeys(fields: seq<Field>)
    ensures Members(fields).Keys == Keys(fields)
  {
    hide Meaning;
    if fields != [] {
      var rest := fields[1..];
      MemberKeys(rest);
      assert fields == [fields[0]] + rest;
      assert Keys(fields) == {fields[0].key} + Keys(rest);
    }
  }

  lemma {:induction false} MemberAt(fields: seq<Field>, i: nat)
    requires DistinctKeys(fields) && i < |fields|
    ensures fields[i].key in Members(fields) && Members(fields)[fields[i].key] == Meaning(fields[i].value)
  {
    hide Meaning;
    MemberKeys(fields[1..]);
    if i == 0 {
      assert fields[0].key !in Keys(fields[1..]);
    } else {
      MemberAt(fields[1..], i - 1);
    }
  }

  /** Sorting does not change which dictionary a field list denotes. */
  lemma SortedMeaning(fields: seq<Field>)
    requires DistinctKeys(fields)
    ensures Members(SortByKey(fields)) == Members(fields)
  {
    hide Meaning, SortByKey, Members;
    var sorted := SortByKey(fields);
    SortIsSorted(fields);
    SortedKeysDiffer(sorted);
    SortKeepsMembers(fields);
    MemberKeys(fields);
    MemberKeys(sorted);
    assert Keys(sorted) == Keys(fields);
    forall k | k in Members(sorted)
      ensures Members(sorted)[k] == Members(fields)[k]
    {
      var i :| 0 <= i < |fields| && fields[i].key == k;
      MemberAt(fields, i);
      assert fields[i] in sorted;
      var j :| 0 <= j < |sorted| && sorted[j] == fields[i];
      MemberAt(sorted, j);
    }
  }

  // -------------------------------------------------------------- Reading

  /** Splits off the longest prefix of number characters. */
  function SpanNumber(s: string): (r: (string, string))
    ensures r.0 + r.1 == s
  {
    if s != "" && IsNumberChar(s[0]) then
      var (d, rest) := SpanNumber(s[1..]);
      assert [s[0]] + s[1..] == s;
      ([s[0]] + d, rest)
    else ("", s)
  }

  predicate StartsWith(s: string, p: string) {
    |p| <= |s| && forall i :: 0 <= i < |p| ==> s[i] == p[i]
  }

  /** Reads one value from the front of a text and returns what follows it. */
  function Read(s: string): (r: Option<(Tree, string)>)
    ensures r.Some? ==> |r.value.1| < |s|
    decreases |s|, 1
  {
    if s == "" then None
    else if StartsWith(s, "null") then Some((TNull, s[4..]))
    else if StartsWith(s, "true") then Some((TBool(true), s[4..]))
    else if StartsWith(s, "false") then Some((TBool(false), s[5..]))
    else if s[0] == '\"' then
      (match ReadString(s)
       case None => None
       case Some((t, rest)) => Some((TStr(t), rest)))
    else if StartsWith(s, "[]") then Some((TArr([]), s[2..]))
    else if s[0] == '[' then
      (match ReadItems(s[1..])
       case None => None
       case Some((items, rest)) => Some((TArr(items), rest)))
    else if StartsWith(s, "{}") then Some((TObj(map[]), s[2..]))
    else if s[0] == '{' then
      (match ReadMembers(s[1..])
       case None => None
       case Some((members, rest)) => Some((TObj(members), rest)))
    else
      var (d, rest) := SpanNumber(s);
      match ReadNumber(d)
      case None => None
      case Some(x) => if d == "" then None else Some((TNum(x), rest))
  }

  /** Reads a non-empty item list up to and including the closing bracket. */
  function ReadItems(s: string): (r: Option<(seq<Tree>, string)>)
    ensures r.Some? ==> |r.value.1| < |s|
    decreases |s|, 2
  {
    match Read(s)
    case None => None
    case Some((h, rest)) =>
      if rest == "" then None
      else if rest[0] == ']' then Some(([h], rest[1..]))
      else if rest[0] != ',' then None
      else
        match ReadItems(rest[1..])
        case None => None
        case Some((t, after)) => Some(([h] + t, after))
  }

  /** Reads a non-empty member list up to and including the closing brace. */
  function ReadMembers(s: string): (r: Option<(map<string, Tree>, string)>)
    ensures r.Some? ==> |r.value.1| < |s|
    decreases |s|, 2
  {
    match ReadString(s)
    case None => None
    case Some((k, colon)) =>
      if colon == "" || colon[0] != ':' then None
      else
        match Read(colon[1..])
        case None => None
        case Some((h, rest)) =>
          if rest == "" then None
          else if rest[0] == '}' then Some((map[k := h], rest[1..]))
          else if rest[0] != ',' then None
          else
            match ReadMembers(rest[1..])
            case None => None
            case Some((t, after)) => Some((map[k := h] + t, after))
  }

  /** Reads a whole text as one value. */
  function Parse(s: string): Option<Tree> {
    match Read(s)
    case None => None
    case Some((t, rest)) => if rest == "" then Some(t) else None
  }

  // ----------------------------------------------------------- Round trip

  /** A text that may follow a value inside a larger text. */
  predicate Follows(rest: string) {
    rest == "" || rest[0] == ',' || rest[0] == ']' || rest[0] == '}'
  }

  lemma SpanStep(c: char, tail: string)
    requires IsNumberChar(c)
    ensures SpanNumber([c] + tail) == ([c] + SpanNumber(tail).0, SpanNumber(tail).1)
  {
    assert ([c] + tail)[1..] == tail;
  }

  lemma {:induction false} SpanOfNumber(d: string, rest: string)
    requires AllNumberChars(d) && Follows(rest)
    ensures SpanNumber(d + rest) == (d, rest)
    decreases |d|
  {
    if d == "" {
      assert d + rest == rest;
    } else {
      var tail := d[1..];
      assert forall i :: 0 <= i < |tail| ==> tail[i] == d[i + 1];
      assert d == [d[0]] + tail && d + rest == [d[0]] + (tail + rest);
      assert IsNumberChar(d[0]);
      hide SpanNumber, IsNumberChar;
      SpanOfNumber(tail, rest);
      SpanStep(d[0], tail + rest);
    }
  }

  lemma NotStarting(s: string, p: string, i: nat)
    requires i < |p| && (i < |s| ==> s[i] != p[i])
    ensures !StartsWith(s, p)
  {
  }

  /** A text whose first character is c is not one of the three words. */
  lemma NotAWord(s: string)
    requires s != "" && s[0] != 'n' && s[0] != 't' && s[0] != 'f'
    ensures !StartsWith(s, "null") && !StartsWith(s, "true") && !StartsWith(s, "false")
  {
    NotStarting(s, "null", 0);
    NotStarting(s, "true", 0);
    NotStarting(s, "false", 0);
  }

  lemma NumberReads(d: string, x: real, rest: string)
    requires d != "" && AllNumberChars(d) && ReadNumber(d) == Some(x) && Follows(rest)
    ensures Read(d + rest) == Some((TNum(x), rest))
  {
    hide ReadNumber, StartsWith;
    var s := d + rest;
    SpanOfNumber(d, rest);
    assert s[0] == d[0] && IsNumberChar(s[0]);
    NotAWord(s);
    NotStarting(s, "[]", 0);
    NotStarting(s, "{}", 0);
  }

  lemma WordReads(word: string, t: Tree, rest: string)
    requires (word == "null" && t == TNull) || (word == "true" && t == TBool(true)) || (word == "false" && t == TBool(false))
    ensures Read(word + rest) == Some((t, rest))
  {
    var s := word + rest;
    assert StartsWith(s, word) && s[|word|..] == rest;
    if word != "null" {
      NotStarting(s, "null", 0);
    }
    if word == "false" {
      NotStarting(s, "true", 0);
    }
  }

  lemma StringReads(t: string, rest: string)
    ensures Read(Quote(t, false) + rest) == Some((TStr(t), rest))
  {
    var s := Quote(t, false) + rest;
    assert s[0] == '\"';
    NotAWord(s);
    QuoteReads(t, false, rest);
  }

  /** The first character of a printed value closes nothing. */
  lemma SerializedStart(v: Json)
    requires Serialize(v).Ok?
    ensures Serialize(v).value != ""
    ensures Serialize(v).value[0] != ']' && Serialize(v).value[0] != '}'
  {
    match v
    case Int(n) => IntReads(n);
    case Float(x) => CanonicalTextReads(x.text);
    case _ =>
  }

  /**
   * Unique readability: what the printer writes for a value, followed by anything that
   * can follow a value, reads back as the value's meaning and that remainder.
   */
  lemma {:induction false} SerializeReads(v: Json, rest: string)
    requires Serialize(v).Ok? && Valid(v) && Follows(rest)
    ensures Read(Serialize(v).value + rest) == Some((Meaning(v), rest))
    decreases v, 1, 0
  {
    match v
    case Null => WordReads("null", TNull, rest);
    case Bool(b) => WordReads(if b then "true" else "false", TBool(b), rest);
    case Int(n) =>
      IntReads(n);
      NumberReads(IntText(n), n as real, rest);
    case Float(x) =>
      CanonicalTextReads(x.text);
      NumberReads(CanonicalText(x.text), FloatValue(x.text), rest);
    case Str(s) => StringReads(s, rest);
    case Arr(items) => ArrayReads(v, rest);
    case Obj(fields) => ObjectReads(v, rest);
  }

  lemma ReadList(inner: string, items: seq<Tree>, rest: string)
    requires inner != "" && inner[0] != ']' && ReadItems(inner) == Some((items, rest))
    ensures Read("[" + inner) == Some((TArr(items), rest))
  {
    hide ReadItems, StartsWith;
    var s := "[" + inner;
    assert s[0] == '[' && s[1] == inner[0] && s[1..] == inner;
    NotAWord(s);
    NotStarting(s, "[]", 1);
  }

  lemma ReadObject(inner: string, members: map<string, Tree>, rest: string)
    requires inner != "" && inner[0] != '}' && ReadMembers(inner) == Some((members, rest))
    ensures Read("{" + inner) == Some((TObj(members), rest))
  {
    hide ReadMembers, StartsWith;
    var s := "{" + inner;
    assert s[0] == '{' && s[1] == inner[0] && s[1..] == inner;
    NotAWord(s);
    NotStarting(s, "[]", 0);
    NotStarting(s, "{}", 1);
  }

  lemma ReadEmpty(rest: string)
    ensures Read("[]" + rest) == Some((TArr([]), rest))
    ensures Read("{}" + rest) == Some((TObj(map[]), rest))
  {
    var s, t := "[]" + rest, "{}" + rest;
    NotAWord(s);
    NotAWord(t);
    NotStarting(t, "[]", 0);
    assert s[2..] == rest && t[2..] == rest;
  }

  lemma LastItem(s: string, t: Tree, rest: string)
    requires Read(s) == Some((t, "]" + rest))
    ensures ReadItems(s) == Some(([t], rest))
  {
    hide Read;
    assert ("]" + rest)[1..] == rest;
  }

  lemma NextItem(s: string, t: Tree, more: string, ts: seq<Tree>, rest: string)
    requires Read(s) == Some((t, "," + more)) && ReadItems(more) == Some((ts, rest))
    ensures ReadItems(s) == Some(([t] + ts, rest))
  {
    hide Read;
    assert ("," + more)[1..] == more;
  }

  lemma LastMember(k: string, text: string, t: Tree, rest: string)
    requires Read(text) == Some((t, "}" + rest))
    ensures ReadMembers(Quote(k, true) + (":" + text)) == Some((map[k := t], rest))
  {
    hide Read, ReadString;
    QuoteReads(k, true, ":" + text);
    assert (":" + text)[1..] == text;
    assert ("}" + rest)[1..] == rest;
  }

  lemma NextMember(k: string, text: string, t: Tree, more: string, ts: map<string, Tree>, rest: string)
    requires Read(text) == Some((t, "," + more)) && ReadMembers(more) == Some((ts, rest))
    ensures ReadMembers(Quote(k, true) + (":" + text)) == Some((map[k := t] + ts, rest))
  {
    hide Read, ReadString;
    QuoteReads(k, true, ":" + text);
    assert (":" + text)[1..] == text;
    assert ("," + more)[1..] == more;
  }

  function Meanings(items: seq<Json>): (ts: seq<Tree>)
    ensures |ts| == |items|
    ensures forall i :: 0 <= i < |ts| ==> ts[i] == Meaning(items[i])
  {
    seq(|items|, i requires 0 <= i < |items| => Meaning(items[i]))
  }

  lemma {:induction false} ArrayReads(v: Json, rest: string)
    requires v.Arr? && Serialize(v).Ok? && Valid(v) && Follows(rest)
    ensures Read(Serialize(v).value + rest) == Some((Meaning(v), rest))
    decreases v, 0, 0
  {
    hide Read, ReadItems;
    var body := SerializeItems(v.items).value;
    assert Meaning(v) == TArr(Meanings(v.items));
    if v.items == [] {
      ReadEmpty(rest);
      assert "[" + body + "]" + rest == "[]" + rest;
    } else {
      ItemsRead(v.items, rest);
      SerializedStart(v.items[0]);
      ReadList(body + "]" + rest, Meanings(v.items), rest);
      assert "[" + body + "]" + rest == "[" + (body + "]" + rest);
    }
  }

  lemma {:induction false} ItemsRead(items: seq<Json>, rest: string)
    requires items != [] && SerializeItems(items).Ok? && forall i :: 0 <= i < |items| ==> Valid(items[i])
    ensures ReadItems(SerializeItems(items).value + "]" + rest) == Some((Meanings(items), rest))
    decreases items, 0, 0
  {
    hide Read, ReadItems, Serialize, Meaning, Valid;
    var h := Serialize(items[0]).value;
    if |items| == 1 {
      var text := h + ("]" + rest);
      SerializeReads(items[0], "]" + rest);
      LastItem(text, Meaning(items[0]), rest);
      assert text == SerializeItems(items).value + "]" + rest;
      assert Meanings(items) == [Meaning(items[0])];
    } else {
      var more := SerializeItems(items[1..]).value + "]" + rest;
      var text := h + ("," + more);
      SerializeReads(items[0], "," + more);
      ItemsRead(items[1..], rest);
      NextItem(text, Meaning(items[0]), more, Meanings(items[1..]), rest);
      assert text == SerializeItems(items).value + "]" + rest;
      assert Meanings(items) == [Meaning(items[0])] + Meanings(items[1..]);
    }
  }

  lemma {:induction false} ObjectReads(v: Json, rest: string)
    requires v.Obj? && Serialize(v).Ok? && Valid(v) && Follows(rest)
    ensures Read(Serialize(v).value + rest) == Some((Meaning(v), rest))
    decreases v, 0, 0
  {
    hide Read, ReadMembers, SortByKey, Quote;
    var sorted := SortByKey(v.fields);
    SortKeepsMembers(v.fields);
    SortMembers(v.fields);
    var body := SerializeFields(sorted, v.fields).value;
    if v.fields == [] {
      assert sorted == [];
      ReadEmpty(rest);
      assert "{" + body + "}" + rest == "{}" + rest;
    } else {
      SortedMeaning(v.fields);
      FieldsRead(sorted, v.fields, rest);
      ReadObject(body + "}" + rest, Members(sorted), rest);
      assert "{" + body + "}" + rest == "{" + (body + "}" + rest);
    }
  }

  lemma {:induction false} FieldsRead(fields: seq<Field>, parent: seq<Field>, rest: string)
    requires fields != [] && forall f :: f in fields ==> f in parent
    requires SerializeFields(fields, parent).Ok?
    requires forall i :: 0 <= i < |parent| ==> Valid(parent[i].value)
    ensures SerializeFields(fields, parent).value != "" && SerializeFields(fields, parent).value[0] == '\"'
    ensures ReadMembers(SerializeFields(fields, parent).value + "}" + rest) == Some((Members(fields), rest))
    decreases parent, 0, |fields|
  {
    hide Read, ReadMembers, Serialize, Meaning, Valid, Escape;
    assert fields[0] in parent;
    var k, v := fields[0].key, fields[0].value;
    var h := Serialize(v).value;
    var whole := SerializeFields(fields, parent).value + "}" + rest;
    if |fields| == 1 {
      var text := h + ("}" + rest);
      SerializeReads(v, "}" + rest);
      LastMember(k, text, Meaning(v), rest);
      assert whole == Quote(k, true) + (":" + text);
      assert Members(fields[1..]) == map[];
      assert Members(fields) == map[k := Meaning(v)];
    } else {
      var more := SerializeFields(fields[1..], parent).value + "}" + rest;
      var text := h + ("," + more);
      SerializeReads(v, "," + more);
      FieldsRead(fields[1..], parent, rest);
      NextMember(k, text, Meaning(v), more, Members(fields[1..]), rest);
      assert whole == Quote(k, true) + (":" + text);
    }
  }

  /** Parsing the printed text of a value gives its meaning. */
  lemma SerializeParses(v: Json)
    requires Serialize(v).Ok? && Valid(v)
    ensures Parse(Serialize(v).value) == Some(Meaning(v))
  {
    SerializeReads(v, "");
    assert Serialize(v).value + "" == Serialize(v).value;
  }

  lemma {:induction false} WithoutBatchIdMembers(body: seq<Field>)
    ensures forall f :: f in WithoutBatchId(body) <==> f in body && f.key != "batch_id"
    ensures DistinctKeys(body) ==> DistinctKeys(WithoutBatchId(body))
  {
    if body != [] {
      var rest := body[1..];
      WithoutBatchIdMembers(rest);
      assert body == [body[0]] + rest;
      if DistinctKeys(body) && body[0].key != "batch_id" {
        var w := WithoutBatchId(rest);
        forall i | 0 <= i < |w|
          ensures w[i].key != body[0].key
        {
          assert w[i] in rest;
        }
      }
    }
  }

  lemma ValidPayload(body: seq<Field>)
    requires Valid(Obj(body))
    ensures Valid(Obj(WithoutBatchId(body)))
  {
    WithoutBatchIdMembers(body);
    var w := WithoutBatchId(body);
    forall i | 0 <= i < |w|
      ensures Valid(w[i].value)
    {
      assert w[i] in body;
    }
  }

  /** Two bodies with the same canonical bytes say the same thing, batch_id aside. */
  lemma EqualBytesEqualMeaning(a: seq<Field>, b: seq<Field>)
    requires Valid(Obj(a)) && Valid(Obj(b))
    requires CanonicalPayload(a).Ok? && CanonicalPayload(a) == CanonicalPayload(b)
    ensures Members(WithoutBatchId(a)) == Members(WithoutBatchId(b))
  {
    var va, vb := Obj(WithoutBatchId(a)), Obj(WithoutBatchId(b));
    ValidPayload(a);
    ValidPayload(b);
    Utf8.EncodeIsInjective(Serialize(va).value, Serialize(vb).value);
    SerializeParses(va);
    SerializeParses(vb);
    assert Meaning(va) == Meaning(vb);
  }

  // --------------------------------------------------- Order independence

  predicate IsNumber(v: Json) {
    v.Int? || (v.Float? && v.x.Finite?)
  }

  function NumberValue(v: Json): real
    requires IsNumber(v)
  {
    if v.Int? then v.n as real else FloatValue(v.x.text)
  }

  /** Below the magnitude at which floats, but not integers, print in scientific shape. */
  predicate BelowSwitch(x: real) {
    -(NumberTexts.SWITCH_UP as real) < x < NumberTexts.SWITCH_UP as real
  }

  /** Equal scalars; numbers by value, but from 1e16 on only within floats or within integers. */
  predicate SameScalar(v: Json, w: Json) {
    v == w
    || (IsNumber(v) && IsNumber(w) && NumberValue(v) == NumberValue(w) && (v.Int? == w.Int? || BelowSwitch(NumberValue(v))))
  }

  /** Numbers of one value print alike exactly when both are floats, both integers, or both below 1e16. */
  lemma NumbersPrintAlikeIff(v: Json, w: Json)
    requires IsNumber(v) && IsNumber(w) && NumberValue(v) == NumberValue(w)
    ensures Serialize(v) == Serialize(w) <==> SameScalar(v, w)
    ensures Meaning(v) == Meaning(w)
  {
    hide CanonicalText, FloatValue, IntText;
    match (v, w)
    case (Float(x), Float(y)) => NumberTexts.EqualFloatsPrintAlike(x.text, y.text);
    case (Float(x), Int(n)) => NumberTexts.FloatPrintsAsIntIff(x.text, n);
    case (Int(n), Float(x)) => NumberTexts.FloatPrintsAsIntIff(x.text, n);
    case _ =>
  }

  /** Equal as Python containers: same keys with the same values, in any insertion order. */
  ghost predicate Same(v: Json, w: Json)
    decreases v
  {
    match (v, w)
    case (Arr(xs), Arr(ys)) => |xs| == |ys| && forall i :: 0 <= i < |xs| ==> Same(xs[i], ys[i])
    case (Obj(fs), Obj(gs)) =>
      && |fs| == |gs|
      && forall i :: 0 <= i < |fs| ==>
           exists j :: 0 <= j < |gs| && fs[i].key == gs[j].key && Same(fs[i].value, gs[j].value)
    case _ => SameScalar(v, w)
  }

  /** Position by position the same keys with the same values. */
  ghost predicate Aligned(fs: seq<Field>, gs: seq<Field>) {
    |fs| == |gs| && forall i :: 0 <= i < |fs| ==> fs[i].key == gs[i].key && Same(fs[i].value, gs[i].value)
  }

  ghost predicate Covered(fs: seq<Field>, gs: seq<Field>) {
    forall f :: f in fs ==> exists g :: g in gs && f.key == g.key && Same(f.value, g.value)
  }

  lemma {:induction false} KeyCount(fields: seq<Field>)
    requires DistinctKeys(fields)
    ensures |Keys(fields)| == |fields|
  {
    if fields != [] {
      var rest := fields[1..];
      KeyCount(rest);
      assert fields == [fields[0]] + rest;
      assert Keys(fields) == Keys(rest) + {fields[0].key};
      assert fields[0].key !in Keys(rest);
    }
  }

  lemma FirstIsLeast(fields: seq<Field>, k: string)
    requires Sorted(fields) && k in Keys(fields)
    ensures fields[0].key == k || Utf8.Before(fields[0].key, k)
  {
    var i :| 0 <= i < |fields| && fields[i].key == k;
  }

  lemma SameFirstKey(fs: seq<Field>, gs: seq<Field>)
    requires Sorted(fs) && Sorted(gs) && Keys(fs) == Keys(gs) && fs != []
    ensures gs != [] && fs[0].key == gs[0].key
  {
    assert fs[0].key in Keys(fs);
    assert gs != [];
    assert gs[0].key in Keys(gs);
    FirstIsLeast(fs, gs[0].key);
    FirstIsLeast(gs, fs[0].key);
    if fs[0].key != gs[0].key {
      Utf8.Transitive(fs[0].key, gs[0].key, fs[0].key);
      Utf8.Irreflexive(fs[0].key);
    }
  }

  lemma KeysOfTail(fields: seq<Field>)
    requires Sorted(fields) && fields != []
    ensures Keys(fields[1..]) == Keys(fields) - {fields[0].key}
  {
    SortedKeysDiffer(fields);
    assert fields == [fields[0]] + fields[1..];
  }

  /** A set of keys has one sorted listing. */
  lemma {:induction false} SortedKeysAgree(fs: seq<Field>, gs: seq<Field>)
    requires Sorted(fs) && Sorted(gs) && Keys(fs) == Keys(gs)
    ensures |fs| == |gs| && forall i :: 0 <= i < |fs| ==> fs[i].key == gs[i].key
    decreases |fs|
  {
    if fs == [] {
      SortedKeysDiffer(gs);
      KeyCount(gs);
      assert Keys(fs) == {};
    } else {
      SameFirstKey(fs, gs);
      KeysOfTail(fs);
      KeysOfTail(gs);
      SortedKeysAgree(fs[1..], gs[1..]);
      assert forall i :: 0 < i < |fs| ==> fs[i] == fs[1..][i - 1] && gs[i] == gs[1..][i - 1];
    }
  }

  lemma CoveredKeys(fs: seq<Field>, gs: seq<Field>)
    requires DistinctKeys(fs) && DistinctKeys(gs) && |fs| == |gs| && Covered(fs, gs)
    ensures Keys(fs) == Keys(gs)
  {
    KeyCount(fs);
    KeyCount(gs);
    forall k | k in Keys(fs)
      ensures k in Keys(gs)
    {
      var f :| f in fs && f.key == k;
    }
    SubsetOfSameSize(Keys(fs), Keys(gs));
  }

  lemma SubsetOfSameSize(a: set<string>, b: set<string>)
    requires a <= b && |a| == |b|
    ensures a == b
  {
    assert |b - a| == |b| - |a|;
    assert b == a + (b - a);
  }

  lemma SortedAlign(fs: seq<Field>, gs: seq<Field>)
    requires DistinctKeys(fs) && DistinctKeys(gs) && |fs| == |gs| && Covered(fs, gs)
    ensures Aligned(SortByKey(fs), SortByKey(gs))
  {
    var sf, sg := SortByKey(fs), SortByKey(gs);
    SortIsSorted(fs);
    SortIsSorted(gs);
    SortKeepsMembers(fs);
    SortKeepsMembers(gs);
    CoveredKeys(fs, gs);
    assert Keys(sf) == Keys(fs) && Keys(sg) == Keys(gs);
    SortedKeysAgree(sf, sg);
    SortedKeysDiffer(sg);
    forall i | 0 <= i < |sf|
      ensures Same(sf[i].value, sg[i].value)
    {
      assert sf[i] in fs;
      var g :| g in gs && sf[i].key == g.key && Same(sf[i].value, g.value);
      assert g in sg;
      var j :| 0 <= j < |sg| && sg[j] == g;
      assert j == i;
    }
  }

  /** Insertion order never matters: equal containers print alike, errors included. */
  lemma {:induction false} SameSerialize(v: Json, w: Json)
    requires Valid(v) && Valid(w) && Same(v, w)
    ensures Serialize(v) == Serialize(w)
    decreases v, 1, 0
  {
    match (v, w)
    case (Arr(xs), Arr(ys)) => SameItems(xs, ys);
    case (Obj(fs), Obj(gs)) =>
      SameCovered(fs, gs);
      SortedAlign(fs, gs);
      SortKeepsMembers(fs);
      SortKeepsMembers(gs);
      SameFields(SortByKey(fs), SortByKey(gs), fs, gs);
    case _ =>
      if v != w {
        NumbersPrintAlikeIff(v, w);
      }
  }

  lemma SameCovered(fs: seq<Field>, gs: seq<Field>)
    requires Same(Obj(fs), Obj(gs))
    ensures |fs| == |gs| && Covered(fs, gs)
  {
    forall f | f in fs
      ensures exists g :: g in gs && f.key == g.key && Same(f.value, g.value)
    {
      var i :| 0 <= i < |fs| && fs[i] == f;
      var j :| 0 <= j < |gs| && fs[i].key == gs[j].key && Same(fs[i].value, gs[j].value);
      assert gs[j] in gs;
    }
  }

  lemma {:induction false} SameItems(xs: seq<Json>, ys: seq<Json>)
    requires |xs| == |ys| && forall i :: 0 <= i < |xs| ==> Valid(xs[i]) && Valid(ys[i]) && Same(xs[i], ys[i])
    ensures SerializeItems(xs) == SerializeItems(ys)
    decreases xs, 0, 0
  {
    if xs != [] {
      SameSerialize(xs[0], ys[0]);
      SameItems(xs[1..], ys[1..]);
    }
  }

  lemma {:induction false} SameFields(fs: seq<Field>, gs: seq<Field>, fparent: seq<Field>, gparent: seq<Field>)
    requires Aligned(fs, gs)
    requires forall f :: f in fs ==> f in fparent
    requires forall g :: g in gs ==> g in gparent
    requires forall i :: 0 <= i < |fparent| ==> Valid(fparent[i].value)
    requires forall i :: 0 <= i < |gparent| ==> Valid(gparent[i].value)
    ensures SerializeFields(fs, fparent) == SerializeFields(gs, gparent)
    decreases fparent, 0, |fs|
  {
    if fs != [] {
      assert fs[0] in fparent && gs[0] in gparent;
      SameSerialize(fs[0].value, gs[0].value);
      SameFields(fs[1..], gs[1..], fparent, gparent);
    }
  }

  /** Two bodies equal as dictionaries have the same canonical payload, whatever their batch ids. */
  lemma SameBodiesSameBytes(a: seq<Field>, b: seq<Field>)
    requires Valid(Obj(a)) && Valid(Obj(b)) && Same(Obj(WithoutBatchId(a)), Obj(WithoutBatchId(b)))
    ensures CanonicalPayload(a) == CanonicalPayload(b)
  {
    ValidPayload(a);
    ValidPayload(b);
    SameSerialize(Obj(WithoutBatchId(a)), Obj(WithoutBatchId(b)));
  }

  // -------------------------------------------------------------- Errors

  /** Printing fails exactly when some number, at any depth, is not finite. */
  lemma {:induction false} SerializeFailsOnNonFinite(v: Json)
    ensures Serialize(v).Ok? <==> AllFinite(v)
    decreases v, 1, 0
  {
    match v
    case Arr(items) => ItemsFail(items);
    case Obj(fields) =>
      SortKeepsMembers(fields);
      FieldsFail(SortByKey(fields), fields);
      assert forall i :: 0 <= i < |fields| ==> fields[i] in SortByKey(fields);
    case _ =>
  }

  lemma {:induction false} ItemsFail(items: seq<Json>)
    ensures SerializeItems(items).Ok? <==> forall i :: 0 <= i < |items| ==> AllFinite(items[i])
    decreases items, 0, 0
  {
    if items != [] {
      SerializeFailsOnNonFinite(items[0]);
      ItemsFail(items[1..]);
      assert forall i :: 0 < i < |items| ==> items[i] == items[1..][i - 1];
    }
  }

  lemma {:induction false} FieldsFail(fields: seq<Field>, parent: seq<Field>)
    requires forall f :: f in fields ==> f in parent
    ensures SerializeFields(fields, parent).Ok? <==> forall f :: f in fields ==> AllFinite(f.value)
    decreases parent, 0, |fields|
  {
    if fields != [] {
      assert fields[0] in parent;
      SerializeFailsOnNonFinite(fields[0].value);
      FieldsFail(fields[1..], parent);
      assert fields == [fields[0]] + fields[1..];
    }
  }

  // ----------------------------------------------------- Equal meaning

  /** Every float, at any depth, lies below 1e16. */
  ghost predicate FloatsBelowSwitch(v: Json) {
    match v
    case Float(x) => x.Finite? && BelowSwitch(FloatValue(x.text))
    case Arr(items) => forall i :: 0 <= i < |items| ==> FloatsBelowSwitch(items[i])
    case Obj(fields) => forall i :: 0 <= i < |fields| ==> FloatsBelowSwitch(fields[i].value)
    case _ => true
  }

  lemma ItemMeaning(items: seq<Json>, i: nat)
    requires i < |items|
    ensures |Meaning(Arr(items)).items| == |items| && Meaning(Arr(items)).items[i] == Meaning(items[i])
  {
  }

  lemma MembersHave(fs: seq<Field>, gs: seq<Field>, i: nat) returns (j: nat)
    requires DistinctKeys(fs) && DistinctKeys(gs) && Members(fs) == Members(gs) && i < |fs|
    ensures j < |gs| && gs[j].key == fs[i].key && Meaning(gs[j].value) == Meaning(fs[i].value)
  {
    hide Meaning;
    MemberAt(fs, i);
    MemberKeys(gs);
    assert fs[i].key in Members(gs);
    var g :| g in gs && g.key == fs[i].key;
    j :| 0 <= j < |gs| && gs[j] == g;
    MemberAt(gs, j);
  }

  lemma MembersCount(fs: seq<Field>, gs: seq<Field>)
    requires DistinctKeys(fs) && DistinctKeys(gs) && Members(fs) == Members(gs)
    ensures |fs| == |gs|
  {
    MemberKeys(fs);
    MemberKeys(gs);
    assert Keys(fs) == Keys(gs);
    KeyCount(fs);
    KeyCount(gs);
  }

  /** Values that say the same are the same, floats from 1e16 on aside. */
  lemma {:induction false} EqualMeaningIsSame(v: Json, w: Json)
    requires Valid(v) && Valid(w) && FloatsBelowSwitch(v) && FloatsBelowSwitch(w) && Meaning(v) == Meaning(w)
    ensures Same(v, w)
    decreases v
  {
    match (v, w)
    case (Arr(xs), Arr(ys)) =>
      if xs != [] {
        ItemMeaning(xs, 0);
      }
      assert |Meaning(v).items| == |xs| && |Meaning(w).items| == |ys|;
      forall i | 0 <= i < |xs|
        ensures Same(xs[i], ys[i])
      {
        ItemMeaning(xs, i);
        ItemMeaning(ys, i);
        EqualMeaningIsSame(xs[i], ys[i]);
      }
    case (Obj(fs), Obj(gs)) =>
      MembersCount(fs, gs);
      forall i | 0 <= i < |fs|
        ensures exists j :: 0 <= j < |gs| && fs[i].key == gs[j].key && Same(fs[i].value, gs[j].value)
      {
        var j := MembersHave(fs, gs, i);
        EqualMeaningIsSame(fs[i].value, gs[j].value);
      }
    case _ =>
  }

  lemma PayloadBelowSwitch(body: seq<Field>)
    requires FloatsBelowSwitch(Obj(body))
    ensures FloatsBelowSwitch(Obj(WithoutBatchId(body)))
  {
    WithoutBatchIdMembers(body);
    var w := WithoutBatchId(body);
    forall i | 0 <= i < |w|
      ensures FloatsBelowSwitch(w[i].value)
    {
      assert w[i] in body;
    }
  }

  /** Bodies that say the same have the same bytes, as long as no float reaches 1e16. */
  lemma EqualMeaningEqualBytes(a: seq<Field>, b: seq<Field>)
    requires Valid(Obj(a)) && Valid(Obj(b)) && FloatsBelowSwitch(Obj(a)) && FloatsBelowSwitch(Obj(b))
    requires Members(WithoutBatchId(a)) == Members(WithoutBatchId(b))
    ensures CanonicalPayload(a) == CanonicalPayload(b)
  {
    ValidPayload(a);
    ValidPayload(b);
    PayloadBelowSwitch(a);
    PayloadBelowSwitch(b);
    var v, w := Obj(WithoutBatchId(a)), Obj(WithoutBatchId(b));
    assert Meaning(v) == Meaning(w);
    EqualMeaningIsSame(v, w);
    SameBodiesSameBytes(a, b);
  }

  // -------------------------------------------------- Equal bytes, exactly

  /** Texts of two values in front of what may follow them: equal only if both parts are. */
  lemma SplitTexts(v: Json, w: Json, rest: string, rest': string)
    requires Valid(v) && Valid(w) && Serialize(v).Ok? && Serialize(w).Ok? && Follows(rest) && Follows(rest')
    requires Serialize(v).value + rest == Serialize(w).value + rest'
    ensures Serialize(v) == Serialize(w) && rest == rest'
  {
    hide Read, Serialize, Meaning, Valid;
    SerializeReads(v, rest);
    SerializeReads(w, rest');
    assert rest == rest';
    var s, t := Serialize(v).value, Serialize(w).value;
    assert (s + rest)[..|s|] == s && (t + rest')[..|t|] == t;
  }

  /** Values with the same text are the same. */
  lemma {:induction false} SameTextSame(v: Json, w: Json)
    requires Valid(v) && Valid(w) && Serialize(v).Ok? && Serialize(v) == Serialize(w)
    ensures Same(v, w)
    decreases v, 1, 0
  {
    SerializeParses(v);
    SerializeParses(w);
    assert Meaning(v) == Meaning(w);
    match (v, w)
    case (Arr(xs), Arr(ys)) => SameArrays(xs, ys);
    case (Obj(fs), Obj(gs)) => SameObjects(fs, gs);
    case _ => SameScalars(v, w);
  }

  lemma SameScalars(v: Json, w: Json)
    requires Serialize(v).Ok? && Serialize(v) == Serialize(w) && Meaning(v) == Meaning(w)
    requires !(v.Arr? && w.Arr?) && !(v.Obj? && w.Obj?)
    ensures SameScalar(v, w)
  {
    hide IntText, CanonicalText, FloatValue, Quote;
    if IsNumber(v) && IsNumber(w) {
      NumbersPrintAlikeIff(v, w);
    }
  }

  lemma {:induction false} SameArrays(xs: seq<Json>, ys: seq<Json>)
    requires Valid(Arr(xs)) && Valid(Arr(ys)) && Serialize(Arr(xs)).Ok?
    requires Serialize(Arr(xs)) == Serialize(Arr(ys)) && Meaning(Arr(xs)) == Meaning(Arr(ys))
    ensures Same(Arr(xs), Arr(ys))
    decreases xs, 0, 1
  {
    assert |Meaning(Arr(xs)).items| == |xs| && |Meaning(Arr(ys)).items| == |ys|;
    var s, t := SerializeItems(xs).value, SerializeItems(ys).value;
    Unwrap("[", s, t, "]");
    hide Serialize, Meaning;
    SameItemTexts(xs, ys);
  }

  lemma Unwrap(open: string, s: string, t: string, close: string)
    requires open + s + close == open + t + close
    ensures s == t
  {
    var a, b := open + s + close, open + t + close;
    assert |s| == |t|;
    assert a[|open|..|open| + |s|] == s && b[|open|..|open| + |t|] == t;
  }

  lemma {:induction false} SameItemTexts(xs: seq<Json>, ys: seq<Json>)
    requires |xs| == |ys| && SerializeItems(xs).Ok? && SerializeItems(xs) == SerializeItems(ys)
    requires forall i :: 0 <= i < |xs| ==> Valid(xs[i]) && Valid(ys[i])
    ensures forall i :: 0 <= i < |xs| ==> Same(xs[i], ys[i])
    decreases xs, 0, 0
  {
    hide Serialize, Valid, Same;
    if |xs| == 1 {
      SameTextSame(xs[0], ys[0]);
    } else if xs != [] {
      var h, k := Serialize(xs[0]).value, Serialize(ys[0]).value;
      var more, more' := "," + SerializeItems(xs[1..]).value, "," + SerializeItems(ys[1..]).value;
      assert SerializeItems(xs).value == h + more && SerializeItems(ys).value == k + more';
      SplitTexts(xs[0], ys[0], more, more');
      assert more[1..] == SerializeItems(xs[1..]).value && more'[1..] == SerializeItems(ys[1..]).value;
      SameTextSame(xs[0], ys[0]);
      SameItemTexts(xs[1..], ys[1..]);
      assert forall i :: 0 < i < |xs| ==> xs[i] == xs[1..][i - 1] && ys[i] == ys[1..][i - 1];
    }
  }

  lemma SameSortedKeys(fs: seq<Field>, gs: seq<Field>)
    requires DistinctKeys(fs) && DistinctKeys(gs) && Members(fs) == Members(gs)
    ensures var sf, sg := SortByKey(fs), SortByKey(gs);
            |sf| == |sg| && forall i :: 0 <= i < |sf| ==> sf[i].key == sg[i].key
  {
    SortIsSorted(fs);
    SortIsSorted(gs);
    MemberKeys(fs);
    MemberKeys(gs);
    SortKeepsKeys(fs);
    SortKeepsKeys(gs);
    hide SortByKey, Keys, Members;
    SortedKeysAgree(SortByKey(fs), SortByKey(gs));
  }

  lemma SortKeepsKeys(fields: seq<Field>)
    ensures Keys(SortByKey(fields)) == Keys(fields)
  {
    SortKeepsMembers(fields);
  }

  lemma ObjectText(fields: seq<Field>)
    requires Serialize(Obj(fields)).Ok?
    ensures forall f :: f in SortByKey(fields) ==> f in fields
    ensures SerializeFields(SortByKey(fields), fields).Ok?
    ensures Serialize(Obj(fields)).value == "{" + SerializeFields(SortByKey(fields), fields).value + "}"
  {
    SortKeepsMembers(fields);
  }

  lemma {:induction false} SameObjects(fs: seq<Field>, gs: seq<Field>)
    requires Valid(Obj(fs)) && Valid(Obj(gs)) && Serialize(Obj(fs)).Ok?
    requires Serialize(Obj(fs)) == Serialize(Obj(gs)) && Meaning(Obj(fs)) == Meaning(Obj(gs))
    ensures Same(Obj(fs), Obj(gs))
    decreases fs, 0, |fs| + 1
  {
    ObjectText(fs);
    ObjectText(gs);
    SortMembers(fs);
    hide Serialize, SerializeFields, SortByKey;
    SameSortedKeys(fs, gs);
    var sf, sg := SortByKey(fs), SortByKey(gs);
    Unwrap("{", SerializeFields(sf, fs).value, SerializeFields(sg, gs).value, "}");
    hide Meaning;
    SameFieldTexts(sf, sg, fs, gs);
    hide Same;
    AlignedIsSame(fs, gs);
  }

  lemma {:induction false} SameFieldTexts(fs: seq<Field>, gs: seq<Field>, fparent: seq<Field>, gparent: seq<Field>)
    requires |fs| == |gs| && forall i :: 0 <= i < |fs| ==> fs[i].key == gs[i].key
    requires (forall f :: f in fs ==> f in fparent) && (forall g :: g in gs ==> g in gparent)
    requires forall i :: 0 <= i < |fparent| ==> Valid(fparent[i].value)
    requires forall i :: 0 <= i < |gparent| ==> Valid(gparent[i].value)
    requires SerializeFields(fs, fparent).Ok? && SerializeFields(fs, fparent) == SerializeFields(gs, gparent)
    ensures Aligned(fs, gs)
    decreases fparent, 0, |fs|
  {
    hide Serialize, Valid, Same, Quote;
    if fs != [] {
      assert fs[0] in fparent && gs[0] in gparent;
      var v, w := fs[0].value, gs[0].value;
      var h, k := Serialize(v).value, Serialize(w).value;
      var start := Quote(fs[0].key, true) + ":";
      if |fs| == 1 {
        Unwrap(start, h, k, "") by {
          assert start + h + "" == start + h && start + k + "" == start + k;
        }
        SameTextSame(v, w);
      } else {
        var more, more' := "," + SerializeFields(fs[1..], fparent).value, "," + SerializeFields(gs[1..], gparent).value;
        Unwrap(start, h + more, k + more', "") by {
          assert start + (h + more) + "" == SerializeFields(fs, fparent).value;
          assert start + (k + more') + "" == SerializeFields(gs, gparent).value;
        }
        SplitTexts(v, w, more, more');
        assert more[1..] == SerializeFields(fs[1..], fparent).value && more'[1..] == SerializeFields(gs[1..], gparent).value;
        SameTextSame(v, w);
        SameFieldTexts(fs[1..], gs[1..], fparent, gparent);
        assert forall i :: 0 < i < |fs| ==> fs[i] == fs[1..][i - 1] && gs[i] == gs[1..][i - 1];
      }
    }
  }

  lemma CoveredAt(fs: seq<Field>, gs: seq<Field>, i: nat) returns (j: nat)
    requires Covered(fs, gs) && i < |fs|
    ensures j < |gs| && fs[i].key == gs[j].key && Same(fs[i].value, gs[j].value)
  {
    assert fs[i] in fs;
    var g :| g in gs && fs[i].key == g.key && Same(fs[i].value, g.value);
    j :| 0 <= j < |gs| && gs[j] == g;
  }

  lemma CoveredIsSame(fs: seq<Field>, gs: seq<Field>)
    requires |fs| == |gs| && Covered(fs, gs)
    ensures Same(Obj(fs), Obj(gs))
  {
    if !Same(Obj(fs), Obj(gs)) {
      var i: nat :| i < |fs| && forall j :: 0 <= j < |gs| ==> !(fs[i].key == gs[j].key && Same(fs[i].value, gs[j].value));
      var j := CoveredAt(fs, gs, i);
    }
  }

  lemma AlignedIsSame(fs: seq<Field>, gs: seq<Field>)
    requires Aligned(SortByKey(fs), SortByKey(gs))
    ensures Same(Obj(fs), Obj(gs))
  {
    var sf, sg := SortByKey(fs), SortByKey(gs);
    SortMembers(fs);
    SortMembers(gs);
    SortKeepsMembers(fs);
    SortKeepsMembers(gs);
    hide SortByKey;
    forall f | f in fs
      ensures exists g :: g in gs && f.key == g.key && Same(f.value, g.value)
    {
      assert f in sf;
      var m :| 0 <= m < |sf| && sf[m] == f;
      assert sg[m] in gs;
    }
    CoveredIsSame(fs, gs);
  }

  /**
   * Two bodies have the same canonical bytes if and only if they are the same, batch_id
   * aside: equal as dictionaries at every depth, numbers by value but a float and an
   * integer only below 1e16, and all numbers finite.
   */
  lemma SameBytesIff(a: seq<Field>, b: seq<Field>)
    requires Valid(Obj(a)) && Valid(Obj(b))
    ensures CanonicalPayload(a).Ok? && CanonicalPayload(a) == CanonicalPayload(b)
            <==> AllFinite(Obj(WithoutBatchId(a))) && Same(Obj(WithoutBatchId(a)), Obj(WithoutBatchId(b)))
  {
    var v, w := Obj(WithoutBatchId(a)), Obj(WithoutBatchId(b));
    ValidPayload(a);
    ValidPayload(b);
    SerializeFailsOnNonFinite(v);
    hide Serialize, AllFinite, Same, Valid;
    if CanonicalPayload(a).Ok? && CanonicalPayload(a) == CanonicalPayload(b) {
      Utf8.EncodeIsInjective(Serialize(v).value, Serialize(w).value);
      SameTextSame(v, w);
    }
    if Same(v, w) {
      SameBodiesSameBytes(a, b);
    }
  }

  const BIG_INT := 10_000_000_000_000_000
  const BIG_TEXT: FloatText := Sci(false, '1', "", false, "16")

  lemma BigFloat() returns (f: ReprText)
    ensures FloatValue(f) == BIG_INT as real
  {
    assert "16"[..1] == "1" && "1"[..0] == "" && "1" + "" == "1";
    assert DigitsValue("1") == 1 && DigitsValue("16") == 16;
    f := BIG_TEXT;
    NumberTexts.Powers();
    hide DigitsValue, Pow10;
  }

  /**
   * At 1e16 the bound is sharp: the float and the integer are equal, yet print
   * differently, because repr switches to scientific notation there.
   */
  lemma EqualNumbersTwoTexts() returns (f: Json, n: Json)
    ensures IsNumber(f) && IsNumber(n) && NumberValue(f) == NumberValue(n) == NumberTexts.SWITCH_UP as real
    ensures Meaning(f) == Meaning(n) && Serialize(f).Ok? && Serialize(n).Ok? && Serialize(f) != Serialize(n)
  {
    hide IntText, CanonicalText, FloatValue;
    var text := BigFloat();
    f, n := Float(Finite(text)), Int(BIG_INT);
    NumbersPrintAlikeIff(f, n);
  }
}
