/** What a cognitive trace means: reachability in the tenant's store, acyclicity, completeness. */
module TraceTheorems {
  import opened Prelude
  import opened CognitiveTrace

  // ----------------------------------------------- Reachability in the store

  /**
   * A walk over the tenant's rows from a listed decision along references other than
   * calibrations.
   */
  ghost predicate StorePath(rows: seq<Row>, tenant: int, decisionIds: set<int>, p: seq<Row>) {
    && p != []
    && (forall i :: 0 <= i < |p| ==> p[i] in rows && p[i].tenant == tenant)
    && KindOf(p[0]) == Decision && p[0].id in decisionIds
    && (forall i :: 0 <= i < |p| - 1 ==> Follows(p[i], p[i + 1]))
  }

  ghost predicate Follows(r: Row, next: Row) {
    exists l :: l in Links(r) && l.relation != Calibrates && l.to == NodeOf(next)
  }

  /** Primary keys: two rows of one tenant with one id refer to the same things. */
  ghost predicate KeyedRows(rows: seq<Row>) {
    forall r, s :: r in rows && s in rows && r.tenant == s.tenant && NodeOf(r) == NodeOf(s) ==> Links(r) == Links(s)
  }

  lemma FoundRow(rows: seq<Row>, tenant: int, decisionIds: set<int>, found: Rows, n: Node)
    requires ReadAll(rows, tenant, decisionIds, found) && n in found
    ensures found[n] in rows && found[n].tenant == tenant && NodeOf(found[n]) == n
    ensures n.kind == Decision ==> n.id in decisionIds
  {
    hide Links, Stored;
    assert Wanted(found, decisionIds, n);
  }

  /** What brought a row in, if it is no decision: a row of lower rank that refers to it. */
  lemma FoundFrom(rows: seq<Row>, tenant: int, decisionIds: set<int>, found: Rows, n: Node) returns (m: Node)
    requires ReadAll(rows, tenant, decisionIds, found) && n in found && n.kind != Decision
    ensures m in found && TypeOrder(m.kind) < TypeOrder(n.kind) && Follows(found[m], found[n])
  {
    hide Links, Stored, TypeOrder, KindOf;
    assert Wanted(found, decisionIds, n);
    var l;
    m, l :| m in found && l in Links(found[m]) && l.relation != Calibrates && l.to == n;
    LinksRaiseRank(found[m], l);
    assert NodeOf(found[m]) == m && NodeOf(found[n]) == n;
    assert Follows(found[m], found[n]);
  }

  lemma {:induction false} FoundIsOnAPath(rows: seq<Row>, tenant: int, decisionIds: set<int>, found: Rows, n: Node) returns (p: seq<Row>)
    requires ReadAll(rows, tenant, decisionIds, found) && n in found
    ensures StorePath(rows, tenant, decisionIds, p) && p[|p| - 1] == found[n]
    decreases TypeOrder(n.kind)
  {
    hide ReadAll, Follows;
    FoundRow(rows, tenant, decisionIds, found, n);
    if n.kind == Decision {
      p := [found[n]];
    } else {
      var m := FoundFrom(rows, tenant, decisionIds, found, n);
      var q := FoundIsOnAPath(rows, tenant, decisionIds, found, m);
      p := q + [found[n]];
    }
  }

  lemma {:induction false} PathIsFound(rows: seq<Row>, tenant: int, decisionIds: set<int>, found: Rows, p: seq<Row>)
    requires ReadAll(rows, tenant, decisionIds, found) && KeyedRows(rows) && StorePath(rows, tenant, decisionIds, p)
    ensures NodeOf(p[|p| - 1]) in found
    decreases |p|
  {
    hide Links;
    var last := p[|p| - 1];
    KindsHaveRank(last);
    assert Stored(rows, tenant, NodeOf(last));
    if |p| > 1 {
      var q := p[..|p| - 1];
      PathIsFound(rows, tenant, decisionIds, found, q);
      var r := q[|q| - 1];
      assert Follows(p[|p| - 2], p[|p| - 1]);
      var l :| l in Links(r) && l.relation != Calibrates && l.to == NodeOf(last);
      var m := NodeOf(r);
      assert NodeOf(found[m]) == m && found[m] in rows && r in rows;
      assert l in Links(found[m]);
      LinksRaiseRank(found[m], l);
      assert Wanted(found, decisionIds, NodeOf(last));
    } else {
      assert Wanted(found, decisionIds, NodeOf(last));
    }
  }

  lemma KindsHaveRank(r: Row)
    ensures 1 <= TypeOrder(KindOf(r)) <= 9
  {
  }

  /**
   * The level-by-level reads compute reachability: a row's node is in the trace exactly
   * when some walk in the tenant's store leads from a listed decision to it.
   */
  lemma TraceIsReachability(rows: seq<Row>, tenant: int, report: Node, decisionIds: set<int>, t: Trace, n: Node)
    requires IsTrace(rows, tenant, report, decisionIds, t) && KeyedRows(rows)
    ensures n in t.rows <==> exists p :: StorePath(rows, tenant, decisionIds, p) && NodeOf(p[|p| - 1]) == n
  {
    if n in t.rows {
      var p := FoundIsOnAPath(rows, tenant, decisionIds, t.rows, n);
    }
    if p :| StorePath(rows, tenant, decisionIds, p) && NodeOf(p[|p| - 1]) == n {
      PathIsFound(rows, tenant, decisionIds, t.rows, p);
    }
  }

  /** Two reads of the same store agree on the nodes, whatever order rows come back in. */
  lemma TraceIsDeterminate(rows: seq<Row>, rows': seq<Row>, tenant: int, report: Node, decisionIds: set<int>, t: Trace, t': Trace)
    requires IsTrace(rows, tenant, report, decisionIds, t) && IsTrace(rows', tenant, report, decisionIds, t')
    requires KeyedRows(rows) && forall r :: r in rows <==> r in rows'
    ensures t.nodes == t'.nodes && t.edges == t'.edges && t.complete == t'.complete
  {
    hide Links;
    forall n
      ensures n in t.rows <==> n in t'.rows
    {
      TraceIsReachability(rows, tenant, report, decisionIds, t, n);
      TraceIsReachability(rows', tenant, report, decisionIds, t', n);
      if p :| StorePath(rows, tenant, decisionIds, p) && NodeOf(p[|p| - 1]) == n {
        assert StorePath(rows', tenant, decisionIds, p);
      }
      if p :| StorePath(rows', tenant, decisionIds, p) && NodeOf(p[|p| - 1]) == n {
        assert StorePath(rows, tenant, decisionIds, p);
      }
    }
    assert t.rows.Keys == t'.rows.Keys;
    forall from, l
      ensures Refers(report, decisionIds, t.rows, from, l) <==> Refers(report, decisionIds, t'.rows, from, l)
    {
      if from in t.rows {
        assert NodeOf(t.rows[from]) == NodeOf(t'.rows[from]);
      }
    }
    SameReferences(report, decisionIds, t, t');
  }

  lemma SameReferences(report: Node, decisionIds: set<int>, t: Trace, t': Trace)
    requires t.rows.Keys == t'.rows.Keys
    requires forall e :: e in t.edges <==> IsEdge(report, decisionIds, t.rows, e)
    requires forall e :: e in t'.edges <==> IsEdge(report, decisionIds, t'.rows, e)
    requires forall w :: w in t.warnings <==> w.NotFound? && Refers(report, decisionIds, t.rows, w.from, w.link) && w.link.to !in t.rows
    requires forall w :: w in t'.warnings <==> w.NotFound? && Refers(report, decisionIds, t'.rows, w.from, w.link) && w.link.to !in t'.rows
    requires t.complete == (t.warnings == []) && t'.complete == (t'.warnings == [])
    requires forall from, l :: Refers(report, decisionIds, t.rows, from, l) <==> Refers(report, decisionIds, t'.rows, from, l)
    ensures t.edges == t'.edges && t.complete == t'.complete
  {
    hide Refers;
    assert forall e :: IsEdge(report, decisionIds, t.rows, e) <==> IsEdge(report, decisionIds, t'.rows, e);
    assert forall w :: w in t.warnings <==> w in t'.warnings;
    if t.warnings != [] {
      assert t.warnings[0] in t'.warnings;
    }
    if t'.warnings != [] {
      assert t'.warnings[0] in t.warnings;
    }
  }

  // --------------------------------------------- Reachability in the trace

  ghost predicate HasEdge(t: Trace, from: int, to: int) {
    exists e :: e in t.edges && e.from == from && e.to == to
  }

  ghost predicate EdgePath(t: Trace, path: seq<int>) {
    path != [] && forall i :: 0 <= i < |path| - 1 ==> HasEdge(t, path[i], path[i + 1])
  }

  /** What brought a node in: the report or a row of lower rank refers to it. */
  lemma Predecessor(rows: seq<Row>, tenant: int, report: Node, decisionIds: set<int>, t: Trace, n: Node) returns (from: Node, l: Link)
    requires IsTrace(rows, tenant, report, decisionIds, t) && n in t.rows
    ensures from in t.nodes && TypeOrder(from.kind) < TypeOrder(n.kind)
    ensures Refers(report, decisionIds, t.rows, from, l) && l.to == n
  {
    hide Links, IsEdge, Stored;
    assert Wanted(t.rows, decisionIds, n);
    if n.kind == Decision {
      from, l := report, Link(Documents, n);
    } else {
      from, l :| from in t.rows && l in Links(t.rows[from]) && l.relation != Calibrates && l.to == n;
      LinksRaiseRank(t.rows[from], l);
      assert KindOf(t.rows[from]) == from.kind;
    }
  }

  /** Every node belongs to the tenant and is reached from the report along edges of the trace. */
  lemma {:induction false} NodesAreReached(rows: seq<Row>, tenant: int, report: Node, decisionIds: set<int>, t: Trace, n: Node)
    returns (path: seq<int>)
    requires IsTrace(rows, tenant, report, decisionIds, t) && n in t.nodes
    ensures n != report ==> t.rows[n].tenant == tenant && t.rows[n] in rows
    ensures EdgePath(t, path) && path[0] == report.id && path[|path| - 1] == n.id
    decreases TypeOrder(n.kind)
  {
    hide Links, Wanted, Stored, Refers;
    if n == report {
      path := [n.id];
    } else {
      var from, l := Predecessor(rows, tenant, report, decisionIds, t, n);
      var before := NodesAreReached(rows, tenant, report, decisionIds, t, from);
      var e := Edge(from.id, n.id, l.relation);
      assert IsEdge(report, decisionIds, t.rows, e);
      assert HasEdge(t, from.id, n.id);
      path := before + [n.id];
    }
  }

  // ------------------------------------------------------------ Acyclicity

  /** Ids are distinct across types, as random UUIDs are. */
  ghost predicate DistinctIds(t: Trace) {
    forall a, b :: a in t.nodes && b in t.nodes && a.id == b.id ==> a == b
  }

  lemma EdgeRaisesRank(rows: seq<Row>, tenant: int, report: Node, decisionIds: set<int>, t: Trace, e: Edge) returns (a: Node, b: Node)
    requires IsTrace(rows, tenant, report, decisionIds, t) && e in t.edges
    ensures a in t.nodes && b in t.nodes && a.id == e.from && b.id == e.to
    ensures TypeOrder(a.kind) < TypeOrder(b.kind)
  {
    hide Links;
    assert IsEdge(report, decisionIds, t.rows, e);
    var from, l :| Refers(report, decisionIds, t.rows, from, l) && l.to in t.rows && e == Edge(from.id, l.to.id, l.relation);
    a, b := from, l.to;
    if from in t.rows && l in Links(t.rows[from]) {
      LinksRaiseRank(t.rows[from], l);
      assert KindOf(t.rows[from]) == from.kind;
    }
  }

  /**
   * Along any walk of edges the type rank rises at every step. So no walk returns to
   * where it started, and none has more than nine edges.
   */
  lemma {:induction false} EdgesAreAcyclic(rows: seq<Row>, tenant: int, report: Node, decisionIds: set<int>, t: Trace,
                                           path: seq<int>, a: Node, b: Node)
    requires IsTrace(rows, tenant, report, decisionIds, t) && DistinctIds(t)
    requires EdgePath(t, path) && a in t.nodes && b in t.nodes && path[0] == a.id && path[|path| - 1] == b.id
    ensures TypeOrder(a.kind) + |path| - 1 <= TypeOrder(b.kind) <= 9
    ensures |path| > 1 ==> a.id != b.id
    decreases |path|
  {
    hide IsTrace;
    RankBound(b.kind);
    if |path| > 1 {
      assert HasEdge(t, path[0], path[0 + 1]);
      var e :| e in t.edges && e.from == path[0] && e.to == path[1];
      var a', c := EdgeRaisesRank(rows, tenant, report, decisionIds, t, e);
      var rest := path[1..];
      assert EdgePath(t, rest) by {
        forall i | 0 <= i < |rest| - 1
          ensures HasEdge(t, rest[i], rest[i + 1])
        {
          assert rest[i] == path[i + 1] && rest[i + 1] == path[(i + 1) + 1];
        }
      }
      assert a' == a;
      EdgesAreAcyclic(rows, tenant, report, decisionIds, t, rest, c, b);
    }
  }

  lemma RankBound(k: Kind)
    ensures TypeOrder(k) <= 9
  {
  }

  // ---------------------------------------------------------- Completeness

  ghost predicate Closed(report: Node, decisionIds: set<int>, t: Trace) {
    forall from, l :: from in t.nodes && Refers(report, decisionIds, t.rows, from, l) ==> l.to in t.nodes
  }

  /** complete means that no reference leads out of the trace. */
  lemma CompleteIffClosed(rows: seq<Row>, tenant: int, report: Node, decisionIds: set<int>, t: Trace)
    requires IsTrace(rows, tenant, report, decisionIds, t)
    ensures t.complete <==> Closed(report, decisionIds, t)
  {
    hide ReadUpTo;
    if t.warnings != [] {
      var w := t.warnings[0];
      assert w in t.warnings;
      assert Refers(report, decisionIds, t.rows, w.from, w.link) && w.link.to !in t.rows;
      NeverToAReport(rows, tenant, report, decisionIds, t, w.from, w.link);
    }
    forall from, l | t.warnings == [] && from in t.nodes && Refers(report, decisionIds, t.rows, from, l)
      ensures l.to in t.nodes
    {
      assert NotFound(from, l) !in t.warnings;
    }
  }

  lemma NeverToAReport(rows: seq<Row>, tenant: int, report: Node, decisionIds: set<int>, t: Trace, from: Node, l: Link)
    requires IsTrace(rows, tenant, report, decisionIds, t) && Refers(report, decisionIds, t.rows, from, l)
    ensures l.to != report
  {
    hide Links;
    if from in t.rows && l in Links(t.rows[from]) {
      LinksRaiseRank(t.rows[from], l);
    }
  }

  /** Some listed decision of the tenant commits to a recommendation of the tenant that explains the hypothesis. */
  ghost predicate Explained(rows: seq<Row>, tenant: int, decisionIds: set<int>, h: Node) {
    exists d, r ::
      && d in rows && d.tenant == tenant && KindOf(d) == Decision && d.id in decisionIds
      && r in rows && r.tenant == tenant && Link(Commits, NodeOf(r)) in Links(d) && Link(Explains, h) in Links(r)
  }

  /** Only recommendations explain, and only decisions commit. */
  lemma WhoRefers(r: Row, l: Link)
    requires l in Links(r)
    ensures l.relation == Explains ==> KindOf(r) == Recommendation
    ensures l.relation == Commits ==> KindOf(r) == Decision
  {
    hide Links;
    LinksFollowColumns(r, l);
  }

  lemma ReadRecommendationIsCommitted(rows: seq<Row>, tenant: int, decisionIds: set<int>, found: Rows, m: Node) returns (d: Row)
    requires ReadAll(rows, tenant, decisionIds, found) && m in found && m.kind == Recommendation
    ensures d in rows && d.tenant == tenant && KindOf(d) == Decision && d.id in decisionIds && Link(Commits, m) in Links(d)
  {
    hide Links, Stored;
    assert Wanted(found, decisionIds, m);
    var n, l :| n in found && l in Links(found[n]) && l.relation != Calibrates && l.to == m;
    LinksRaiseRank(found[n], l);
    assert l == Link(Commits, m);
    WhoRefers(found[n], l);
    d := found[n];
    assert n == NodeOf(d);
    assert Wanted(found, decisionIds, n);
  }

  lemma TargetIsExplained(rows: seq<Row>, tenant: int, decisionIds: set<int>, found: Rows, h: Node)
    requires ReadAll(rows, tenant, decisionIds, found) && h.kind == Hypothesis && Target(found, Explains, h.id)
    ensures Explained(rows, tenant, decisionIds, h)
  {
    var m :| m in found && h.id in Column(found[m], Explains);
    assert Link(Explains, h) in Links(found[m]);
    hide Links, Column, Stored;
    WhoRefers(found[m], Link(Explains, h));
    assert NodeOf(found[m]) == m;
    var d := ReadRecommendationIsCommitted(rows, tenant, decisionIds, found, m);
  }

  lemma ExplainedIsTarget(rows: seq<Row>, tenant: int, decisionIds: set<int>, found: Rows, h: Node)
    requires ReadAll(rows, tenant, decisionIds, found) && KeyedRows(rows) && h.kind == Hypothesis && Explained(rows, tenant, decisionIds, h)
    ensures Target(found, Explains, h.id)
  {
    hide Links, Column, Stored;
    var d, r :|
      && d in rows && d.tenant == tenant && KindOf(d) == Decision && d.id in decisionIds
      && r in rows && r.tenant == tenant && Link(Commits, NodeOf(r)) in Links(d) && Link(Explains, h) in Links(r);
    assert Follows(d, r);
    PathIsFound(rows, tenant, decisionIds, found, [d, r]);
    assert Links(found[NodeOf(r)]) == Links(r);
    assert h.id in Column(found[NodeOf(r)], Explains);
  }

  /** A hypothesis is read through a recommendation exactly when the store explains it. */
  lemma ExplainedIsRead(rows: seq<Row>, tenant: int, decisionIds: set<int>, found: Rows, h: Node)
    requires ReadAll(rows, tenant, decisionIds, found) && KeyedRows(rows) && h.kind == Hypothesis
    ensures Target(found, Explains, h.id) <==> Explained(rows, tenant, decisionIds, h)
  {
    hide ReadAll, KeyedRows, Target, Explained;
    if Target(found, Explains, h.id) {
      TargetIsExplained(rows, tenant, decisionIds, found, h);
    }
    if Explained(rows, tenant, decisionIds, h) {
      ExplainedIsTarget(rows, tenant, decisionIds, found, h);
    }
  }

  lemma WarningReadsTrace(rows: seq<Row>, tenant: int, report: Node, decisionIds: set<int>, t: Trace, from: Node, l: Link)
    requires IsTrace(rows, tenant, report, decisionIds, t)
    requires Refers(report, decisionIds, t.rows, from, l) && Stored(rows, tenant, l.to)
    ensures NotFound(from, l) in t.warnings <==> l.relation == Calibrates && !Target(t.rows, Explains, l.to.id)
  {
    hide Links, Column, Stored, Target;
    RankBound(l.to.kind);
    if !(from in t.rows && l in Links(t.rows[from])) {
      assert Wanted(t.rows, decisionIds, l.to);
    } else {
      LinksRaiseRank(t.rows[from], l);
      if l.relation != Calibrates {
        assert Wanted(t.rows, decisionIds, l.to);
      } else {
        TargetIsWanted(t.rows, decisionIds, Explains, l.to);
        if Wanted(t.rows, decisionIds, l.to) {
          var relation := WantedIsTarget(t.rows, decisionIds, l.to);
          assert relation == Explains;
        }
      }
    }
  }

  /**
   * When is a "not found" warning wrong? For a reference whose target the tenant does
   * have: exactly for a calibration of a hypothesis that no recommendation of a listed
   * decision explains, because calibrations alone are never read.
   */
  lemma WarningIsFalseIff(rows: seq<Row>, tenant: int, report: Node, decisionIds: set<int>, t: Trace, from: Node, l: Link)
    requires IsTrace(rows, tenant, report, decisionIds, t) && KeyedRows(rows)
    requires Refers(report, decisionIds, t.rows, from, l) && Stored(rows, tenant, l.to)
    ensures NotFound(from, l) in t.warnings <==> l.relation == Calibrates && !Explained(rows, tenant, decisionIds, l.to)
  {
    hide Links, Stored, Target, Explained;
    WarningReadsTrace(rows, tenant, report, decisionIds, t, from, l);
    if l.relation == Calibrates {
      LinksRaiseRank(t.rows[from], l);
      ExplainedIsRead(rows, tenant, decisionIds, t.rows, l.to);
    }
  }

  /**
   * So a store in which every reference resolves can still yield a partial trace: it is
   * enough that a listed decision is calibrated by a confidence in a hypothesis that no
   * recommendation of the tenant explains.
   */
  lemma UnexplainedCalibrationIsReported(rows: seq<Row>, tenant: int, report: Node, decisionIds: set<int>, t: Trace,
                                         d: Row, c: Row, h: Node)
    requires IsTrace(rows, tenant, report, decisionIds, t) && KeyedRows(rows)
    requires d in rows && d.tenant == tenant && KindOf(d) == Decision && d.id in decisionIds
    requires c in rows && c.tenant == tenant && Link(CalibratedBy, NodeOf(c)) in Links(d)
    requires Link(Calibrates, h) in Links(c)
    requires forall r :: r in rows && r.tenant == tenant ==> Link(Explains, h) !in Links(r)
    ensures NotFound(NodeOf(c), Link(Calibrates, h)) in t.warnings && !t.complete
  {
    hide Links, Column, Stored;
    assert Follows(d, c);
    PathIsFound(rows, tenant, decisionIds, t.rows, [d, c]);
    var n := NodeOf(c);
    assert Links(t.rows[n]) == Links(c);
    assert Refers(report, decisionIds, t.rows, n, Link(Calibrates, h));
    LinksRaiseRank(c, Link(Calibrates, h));
    if h in t.rows {
      ReadHypothesisIsExplained(rows, tenant, report, decisionIds, t, h);
    }
  }

  lemma ReadHypothesisIsExplained(rows: seq<Row>, tenant: int, report: Node, decisionIds: set<int>, t: Trace, h: Node)
    requires IsTrace(rows, tenant, report, decisionIds, t) && h in t.rows && h.kind == Hypothesis
    ensures exists m :: m in t.rows && Link(Explains, h) in Links(t.rows[m])
  {
    hide Links, Column;
    assert Wanted(t.rows, decisionIds, h);
    var relation := WantedIsTarget(t.rows, decisionIds, h);
    assert relation == Explains;
    var m :| m in t.rows && h.id in Column(t.rows[m], Explains);
    assert Link(Explains, h) in Links(t.rows[m]);
  }

  /** Decision 1 is calibrated by a confidence in hypothesis 9; its recommendation explains hypothesis 4. */
  const CALIBRATED_ONLY: seq<Row> :=
    [DecisionRow(1, 1, 2, 3), RecommendationRow(2, 1, 4, 3), ConfidenceRow(3, 1, "hypothesis", 9),
     HypothesisRow(4, 1, [], []), HypothesisRow(9, 1, [], [])]

  lemma CalibratedOnlyIsKeyed()
    ensures KeyedRows(CALIBRATED_ONLY)
  {
    hide Links;
  }

  lemma CalibratedOnlyLinks(r: Row)
    requires r in CALIBRATED_ONLY
    ensures Link(Explains, Node(Hypothesis, 9)) !in Links(r)
    ensures forall l :: l in Links(r) ==> l.to in [Node(Recommendation, 2), Node(Confidence, 3), Node(Hypothesis, 4), Node(Hypothesis, 9)]
  {
  }

  lemma CalibratedOnlyStores(n: Node)
    requires n in [Node(Recommendation, 2), Node(Confidence, 3), Node(Hypothesis, 4), Node(Hypothesis, 9)]
    ensures Stored(CALIBRATED_ONLY, 1, n)
  {
    var i := if n == Node(Recommendation, 2) then 1 else if n == Node(Confidence, 3) then 2 else if n == Node(Hypothesis, 4) then 3 else 4;
    assert CALIBRATED_ONLY[i] in CALIBRATED_ONLY && NodeOf(CALIBRATED_ONLY[i]) == n;
  }

  /** The trace of a store in which every reference resolves, and which is still reported partial. */
  method StoredButReported() returns (t: Trace)
    ensures forall r, l :: r in CALIBRATED_ONLY && l in Links(r) ==> Stored(CALIBRATED_ONLY, 1, l.to)
    ensures !t.complete && NotFound(Node(Confidence, 3), Link(Calibrates, Node(Hypothesis, 9))) in t.warnings
  {
    hide Links, Stored, KeyedRows;
    var trace := BuildTrace(CALIBRATED_ONLY, 1, Node(Report, 0), [1]);
    t := trace.value;
    assert (set id | id in [1]) == {1};
    forall r, l | r in CALIBRATED_ONLY && l in Links(r)
      ensures Stored(CALIBRATED_ONLY, 1, l.to)
    {
      CalibratedOnlyLinks(r);
      CalibratedOnlyStores(l.to);
    }
    forall r | r in CALIBRATED_ONLY
      ensures Link(Explains, Node(Hypothesis, 9)) !in Links(r)
    {
      CalibratedOnlyLinks(r);
    }
    CalibratedOnlyIsKeyed();
    CalibratedOnlyHeads();
    UnexplainedCalibrationIsReported(CALIBRATED_ONLY, 1, Node(Report, 0), {1}, t,
                                     CALIBRATED_ONLY[0], CALIBRATED_ONLY[2], Node(Hypothesis, 9));
  }

  lemma CalibratedOnlyHeads()
    ensures Link(CalibratedBy, Node(Confidence, 3)) in Links(CALIBRATED_ONLY[0])
    ensures Link(Calibrates, Node(Hypothesis, 9)) in Links(CALIBRATED_ONLY[2])
  {
    assert Links(CALIBRATED_ONLY[0])[1] == Link(CalibratedBy, Node(Confidence, 3));
    assert Links(CALIBRATED_ONLY[2])[0] == Link(Calibrates, Node(Hypothesis, 9));
  }
}
