/**
 * The lists a cognitive trace is returned as: nodes by type order and id text, edges by
 * the texts of their ends and their relation, so that equal traces read alike.
 */
module TraceOrder {
  import opened CognitiveTrace
  import Utf8

  // ---------------------------------------------------------------- Sorting

  ghost predicate StrictOrder<T(!new)>(less: (T, T) -> bool) {
    && (forall x :: !less(x, x))
    && (forall x, y :: less(x, y) || x == y || less(y, x))
    && (forall x, y, z :: less(x, y) && less(y, z) ==> less(x, z))
  }

  ghost predicate SortedBy<T>(s: seq<T>, less: (T, T) -> bool) {
    forall i, j :: 0 <= i < j < |s| ==> less(s[i], s[j])
  }

  /** sorted(...): the members of a set in increasing order. */
  method SortSet<T(==,!new)>(s: set<T>, less: (T, T) -> bool) returns (r: seq<T>)
    requires StrictOrder(less)
    ensures SortedBy(r, less) && forall x :: x in r <==> x in s
  {
    r := [];
    var todo := s;
    while todo != {}
      invariant todo <= s && SortedBy(r, less) && forall x :: x in r <==> x in s - todo
      decreases |todo|
    {
      var x :| x in todo;
      r := Insert(r, x, less);
      todo := todo - {x};
    }
  }

  method Insert<T(==,!new)>(r: seq<T>, x: T, less: (T, T) -> bool) returns (more: seq<T>)
    requires StrictOrder(less) && SortedBy(r, less) && x !in r
    ensures SortedBy(more, less) && forall y :: y in more <==> y in r || y == x
  {
    var i := 0;
    while i < |r| && less(r[i], x)
      invariant i <= |r| && forall j :: 0 <= j < i ==> less(r[j], x)
    {
      i := i + 1;
    }
    more := r[..i] + [x] + r[i..];
    assert forall j :: i <= j < |r| ==> less(x, r[j]);
    assert forall y :: y in r <==> y in r[..i] || y in r[i..];
  }

  lemma HeadIsIn<T>(s: seq<T>)
    ensures s != [] ==> s[0] in s
  {
  }

  /** A set has one sorted listing. */
  lemma {:induction false} SortedIsUnique<T(!new)>(r: seq<T>, s: seq<T>, less: (T, T) -> bool)
    requires StrictOrder(less) && SortedBy(r, less) && SortedBy(s, less) && forall x :: x in r <==> x in s
    ensures r == s
    decreases |r|
  {
    HeadIsIn(s);
    if r != [] {
      assert r[0] in s;
      assert s[0] in r;
      SameHead(r, s, less);
      TailMembers(r, less);
      TailMembers(s, less);
      SortedIsUnique(r[1..], s[1..], less);
      assert r == [r[0]] + r[1..] && s == [s[0]] + s[1..];
    }
  }

  lemma SameHead<T(!new)>(r: seq<T>, s: seq<T>, less: (T, T) -> bool)
    requires StrictOrder(less) && SortedBy(r, less) && SortedBy(s, less) && r != [] && s != [] && r[0] in s && s[0] in r
    ensures r[0] == s[0]
  {
    var i :| 0 <= i < |s| && s[i] == r[0];
    var j :| 0 <= j < |r| && r[j] == s[0];
  }

  lemma TailMembers<T(!new)>(r: seq<T>, less: (T, T) -> bool)
    requires StrictOrder(less) && SortedBy(r, less) && r != []
    ensures forall x :: x in r[1..] <==> x in r && x != r[0]
  {
    assert r == [r[0]] + r[1..];
  }

  // ------------------------------------------------------------ Text orders

  /** A pair of texts, compared like a tuple. */
  predicate PairBefore(a: string, x: string, b: string, y: string) {
    Utf8.Before(a, b) || (a == b && Utf8.Before(x, y))
  }

  lemma PairOrder(a: string, x: string, b: string, y: string, c: string, z: string)
    ensures !PairBefore(a, x, a, x)
    ensures PairBefore(a, x, b, y) || (a == b && x == y) || PairBefore(b, y, a, x)
    ensures PairBefore(a, x, b, y) && PairBefore(b, y, c, z) ==> PairBefore(a, x, c, z)
  {
    Utf8.Irreflexive(a);
    Utf8.Irreflexive(x);
    Utf8.Total(a, b);
    Utf8.Total(x, y);
    if PairBefore(a, x, b, y) && PairBefore(b, y, c, z) {
      if Utf8.Before(a, b) && Utf8.Before(b, c) {
        Utf8.Transitive(a, b, c);
      }
      if Utf8.Before(x, y) && Utf8.Before(y, z) {
        Utf8.Transitive(x, y, z);
      }
    }
  }

  function RelationName(r: Relation): string {
    match r
    case Documents => "documents"
    case Commits => "commits"
    case CalibratedBy => "calibrated_by"
    case Explains => "explains"
    case Carries => "carries"
    case Calibrates => "calibrates"
    case AccountsFor => "accounts_for"
    case RefersTo => "refers_to"
    case DeviatesFrom => "deviates_from"
    case ContextualizedBy => "contextualized_by"
    case Organizes => "organizes"
    case Observes => "observes"
  }

  lemma RelationNamesDiffer(r: Relation, s: Relation)
    requires RelationName(r) == RelationName(s)
    ensures r == s
  {
    var a, b := RelationName(r), RelationName(s);
    assert |a| == |b|;
    assert a[0] == b[0] && a[|a| - 1] == b[|b| - 1];
  }

  /** (TYPE_ORDER[type], id) with the id's text. */
  function NodeBefore(text: int -> string): (Node, Node) -> bool {
    (m: Node, n: Node) =>
      TypeOrder(m.kind) < TypeOrder(n.kind) || (TypeOrder(m.kind) == TypeOrder(n.kind) && Utf8.Before(text(m.id), text(n.id)))
  }

  /** (from, to, relation) with the ids' texts. */
  function EdgeBefore(text: int -> string): (Edge, Edge) -> bool {
    (d: Edge, e: Edge) =>
      PairBefore(text(d.from), text(d.to), text(e.from), text(e.to))
      || (text(d.from) == text(e.from) && text(d.to) == text(e.to) && Utf8.Before(RelationName(d.relation), RelationName(e.relation)))
  }

  ghost predicate Injective(text: int -> string) {
    forall x, y :: text(x) == text(y) ==> x == y
  }

  lemma NodesAreOrdered(text: int -> string)
    requires Injective(text)
    ensures StrictOrder(NodeBefore(text))
  {
    var less := NodeBefore(text);
    forall m: Node
      ensures !less(m, m)
    {
      Utf8.Irreflexive(text(m.id));
    }
    forall m: Node, n: Node
      ensures less(m, n) || m == n || less(n, m)
    {
      Utf8.Total(text(m.id), text(n.id));
      SameRank(n.kind);
    }
    forall m: Node, n: Node, o: Node | less(m, n) && less(n, o)
      ensures less(m, o)
    {
      if Utf8.Before(text(m.id), text(n.id)) && Utf8.Before(text(n.id), text(o.id)) {
        Utf8.Transitive(text(m.id), text(n.id), text(o.id));
      }
    }
  }

  lemma EdgesAreOrdered(text: int -> string)
    requires Injective(text)
    ensures StrictOrder(EdgeBefore(text))
  {
    hide RelationName, PairBefore;
    var less := EdgeBefore(text);
    forall d: Edge
      ensures !less(d, d)
    {
      PairOrder(text(d.from), text(d.to), text(d.from), text(d.to), text(d.from), text(d.to));
      Utf8.Irreflexive(RelationName(d.relation));
    }
    forall d: Edge, e: Edge
      ensures less(d, e) || d == e || less(e, d)
    {
      PairOrder(text(d.from), text(d.to), text(e.from), text(e.to), text(e.from), text(e.to));
      Utf8.Total(RelationName(d.relation), RelationName(e.relation));
      if RelationName(d.relation) == RelationName(e.relation) {
        RelationNamesDiffer(d.relation, e.relation);
      }
    }
    forall d: Edge, e: Edge, f: Edge | less(d, e) && less(e, f)
      ensures less(d, f)
    {
      PairOrder(text(d.from), text(d.to), text(e.from), text(e.to), text(f.from), text(f.to));
      if Utf8.Before(RelationName(d.relation), RelationName(e.relation)) && Utf8.Before(RelationName(e.relation), RelationName(f.relation)) {
        Utf8.Transitive(RelationName(d.relation), RelationName(e.relation), RelationName(f.relation));
      }
    }
  }

  // ---------------------------------------------------------------- Display

  datatype Display = Display(nodes: seq<Node>, edges: seq<Edge>, complete: bool)

  ghost predicate Displays(text: int -> string, t: Trace, d: Display) {
    && SortedBy(d.nodes, NodeBefore(text)) && (forall n :: n in d.nodes <==> n in t.nodes)
    && SortedBy(d.edges, EdgeBefore(text)) && (forall e :: e in d.edges <==> e in t.edges)
    && d.complete == t.complete
  }

  /** The sorted lists get_trace hands to _assemble. */
  method Arrange(text: int -> string, t: Trace) returns (d: Display)
    requires Injective(text)
    ensures Displays(text, t, d)
  {
    NodesAreOrdered(text);
    EdgesAreOrdered(text);
    var nodes := SortSet(t.nodes, NodeBefore(text));
    var edges := SortSet(t.edges, EdgeBefore(text));
    d := Display(nodes, edges, t.complete);
  }

  /** Traces with the same nodes and edges are displayed identically. */
  lemma DisplayIsDeterminate(text: int -> string, t: Trace, t': Trace, d: Display, d': Display)
    requires Injective(text) && Displays(text, t, d) && Displays(text, t', d')
    requires t.nodes == t'.nodes && t.edges == t'.edges && t.complete == t'.complete
    ensures d == d'
  {
    NodesAreOrdered(text);
    EdgesAreOrdered(text);
    SortedIsUnique(d.nodes, d'.nodes, NodeBefore(text));
    SortedIsUnique(d.edges, d'.edges, EdgeBefore(text));
  }
}
