/**
 * The provenance view of apps/gateway/api-gateway/src/cognitive_trace.py: rows are read
 * type by type, by the ids collected from the types before, and assembled into nodes,
 * edges and warnings. Tables are arbitrary lists of rows of any tenant.
 */
module CognitiveTrace {
  import opened Prelude

  datatype Kind = Report | Decision | Recommendation | Confidence | Hypothesis
                | Anomaly | Pattern | Context | Evidence | Observation

  function TypeOrder(k: Kind): nat {
    match k
    case Report => 0
    case Decision => 1
    case Recommendation => 2
    case Confidence => 3
    case Hypothesis => 4
    case Anomaly => 5
    case Pattern => 6
    case Context => 7
    case Evidence => 8
    case Observation => 9
  }

  datatype Node = Node(kind: Kind, id: int)

  datatype Relation = Documents | Commits | CalibratedBy | Explains | Carries | Calibrates | AccountsFor
                    | RefersTo | DeviatesFrom | ContextualizedBy | Organizes | Observes

  /** A reference column of a row: the relation it stands for and the artifact it names. */
  datatype Link = Link(relation: Relation, to: Node)

  /** The id, tenant and reference columns of each table. A null array reads as empty. */
  datatype Row =
    | DecisionRow(id: int, tenant: int, recommendationId: int, confidenceId: int)
    | RecommendationRow(id: int, tenant: int, hypothesisId: int, confidenceId: int)
    | ConfidenceRow(id: int, tenant: int, targetType: string, targetId: int)
    | HypothesisRow(id: int, tenant: int, anomalyIds: seq<int>, patternIds: seq<int>)
    | AnomalyRow(id: int, tenant: int, patternId: Option<int>, anomalyContextId: Option<int>)
    | PatternRow(id: int, tenant: int, patternContextId: Option<int>)
    | ContextRow(id: int, tenant: int, evidenceIds: seq<int>)
    | EvidenceRow(id: int, tenant: int, observationIds: seq<int>)
    | ObservationRow(id: int, tenant: int)

  function KindOf(r: Row): Kind {
    match r
    case DecisionRow(_, _, _, _) => Decision
    case RecommendationRow(_, _, _, _) => Recommendation
    case ConfidenceRow(_, _, _, _) => Confidence
    case HypothesisRow(_, _, _, _) => Hypothesis
    case AnomalyRow(_, _, _, _) => Anomaly
    case PatternRow(_, _, _) => Pattern
    case ContextRow(_, _, _) => Context
    case EvidenceRow(_, _, _) => Evidence
    case ObservationRow(_, _) => Observation
  }

  function NodeOf(r: Row): Node {
    Node(KindOf(r), r.id)
  }

  function ToAll(relation: Relation, kind: Kind, ids: seq<int>): (r: seq<Link>)
    ensures |r| == |ids|
    ensures forall i :: 0 <= i < |ids| ==> r[i] == Link(relation, Node(kind, ids[i]))
    ensures forall l :: l in r ==> l.relation == relation && l.to.kind == kind
  {
    seq(|ids|, i requires 0 <= i < |ids| => Link(relation, Node(kind, ids[i])))
  }

  function ToOptional(relation: Relation, kind: Kind, id: Option<int>): (r: seq<Link>)
    ensures forall l :: l in r ==> l.relation == relation && l.to.kind == kind
  {
    if id.Some? then [Link(relation, Node(kind, id.value))] else []
  }

  /** Every reference the view uses; a confidence refers to its target only if that is a hypothesis. */
  function Links(r: Row): seq<Link> {
    match r
    case DecisionRow(_, _, rec, conf) => [Link(Commits, Node(Recommendation, rec)), Link(CalibratedBy, Node(Confidence, conf))]
    case RecommendationRow(_, _, hyp, conf) => [Link(Explains, Node(Hypothesis, hyp)), Link(Carries, Node(Confidence, conf))]
    case ConfidenceRow(_, _, targetType, target) =>
      if targetType == "hypothesis" then [Link(Calibrates, Node(Hypothesis, target))] else []
    case HypothesisRow(_, _, anomalies, patterns) => ToAll(AccountsFor, Anomaly, anomalies) + ToAll(RefersTo, Pattern, patterns)
    case AnomalyRow(_, _, pattern, context) => ToOptional(DeviatesFrom, Pattern, pattern) + ToOptional(ContextualizedBy, Context, context)
    case PatternRow(_, _, context) => ToOptional(ContextualizedBy, Context, context)
    case ContextRow(_, _, evidence) => ToAll(Organizes, Evidence, evidence)
    case EvidenceRow(_, _, observations) => ToAll(Observes, Observation, observations)
    case ObservationRow(_, _) => []
  }

  type Rows = map<Node, Row>

  // ---------------------------------------------------------- Specification

  /** A row some artifact read so far asks for; a calibration alone asks for nothing. */
  ghost predicate Wanted(found: Rows, decisionIds: set<int>, n: Node) {
    if n.kind == Decision then n.id in decisionIds
    else exists m, l :: m in found && l in Links(found[m]) && l.relation != Calibrates && l.to == n
  }

  ghost predicate Stored(rows: seq<Row>, tenant: int, n: Node) {
    exists r :: r in rows && r.tenant == tenant && NodeOf(r) == n
  }

  /** found holds, up to a rank, exactly the wanted artifacts the tenant has, each with a row of its own. */
  ghost predicate ReadUpTo(rows: seq<Row>, tenant: int, decisionIds: set<int>, found: Rows, rank: nat) {
    && (forall n :: n in found ==>
          && 1 <= TypeOrder(n.kind) <= rank
          && found[n] in rows && found[n].tenant == tenant && NodeOf(found[n]) == n)
    && (forall n: Node :: 1 <= TypeOrder(n.kind) <= rank ==>
          (n in found <==> Wanted(found, decisionIds, n) && Stored(rows, tenant, n)))
  }

  ghost predicate ReadAll(rows: seq<Row>, tenant: int, decisionIds: set<int>, found: Rows) {
    ReadUpTo(rows, tenant, decisionIds, found, 9)
  }

  /** The reference columns of each table. */
  function Columns(k: Kind): set<Relation> {
    match k
    case Report => {}
    case Decision => {Commits, CalibratedBy}
    case Recommendation => {Explains, Carries}
    case Confidence => {Calibrates}
    case Hypothesis => {AccountsFor, RefersTo}
    case Anomaly => {DeviatesFrom, ContextualizedBy}
    case Pattern => {ContextualizedBy}
    case Context => {Organizes}
    case Evidence => {Observes}
    case Observation => {}
  }

  lemma PairFollows(a: Link, b: Link, l: Link)
    requires l in [a, b]
    ensures l == a || l == b
  {
  }

  lemma ConcatFollows(a: seq<Link>, b: seq<Link>, l: Link)
    requires l in a + b
    ensures l in a || l in b
  {
  }

  /** A reference stands in a column of its row's table and leads where the column leads. */
  predicate InColumn(kind: Kind, l: Link) {
    l.relation in Columns(kind) && l.to.kind == TargetKind(l.relation)
  }

  lemma DecisionLinks(r: Row, l: Link)
    requires r.DecisionRow? && l in Links(r)
    ensures InColumn(Decision, l)
  {
    PairFollows(Link(Commits, Node(Recommendation, r.recommendationId)), Link(CalibratedBy, Node(Confidence, r.confidenceId)), l);
  }

  lemma RecommendationLinks(r: Row, l: Link)
    requires r.RecommendationRow? && l in Links(r)
    ensures InColumn(Recommendation, l)
  {
    PairFollows(Link(Explains, Node(Hypothesis, r.hypothesisId)), Link(Carries, Node(Confidence, r.confidenceId)), l);
  }

  lemma HypothesisLinks(r: Row, l: Link)
    requires r.HypothesisRow? && l in Links(r)
    ensures InColumn(Hypothesis, l)
  {
    hide ToAll;
    ConcatFollows(ToAll(AccountsFor, Anomaly, r.anomalyIds), ToAll(RefersTo, Pattern, r.patternIds), l);
  }

  lemma AnomalyLinks(r: Row, l: Link)
    requires r.AnomalyRow? && l in Links(r)
    ensures InColumn(Anomaly, l)
  {
    hide ToOptional;
    ConcatFollows(ToOptional(DeviatesFrom, Pattern, r.patternId), ToOptional(ContextualizedBy, Context, r.anomalyContextId), l);
  }

  lemma OtherLinks(r: Row, l: Link)
    requires !r.DecisionRow? && !r.RecommendationRow? && !r.HypothesisRow? && !r.AnomalyRow? && l in Links(r)
    ensures InColumn(KindOf(r), l)
  {
    hide ToAll, ToOptional;
  }

  lemma LinksFollowColumns(r: Row, l: Link)
    requires l in Links(r)
    ensures InColumn(KindOf(r), l)
  {
    hide Links, InColumn;
    match r
    case DecisionRow(_, _, _, _) => DecisionLinks(r, l);
    case RecommendationRow(_, _, _, _) => RecommendationLinks(r, l);
    case HypothesisRow(_, _, _, _) => HypothesisLinks(r, l);
    case AnomalyRow(_, _, _, _) => AnomalyLinks(r, l);
    case _ => OtherLinks(r, l);
  }

  lemma ColumnsRaiseRank(k: Kind, relation: Relation)
    requires relation in Columns(k)
    ensures 1 <= TypeOrder(k) < TypeOrder(TargetKind(relation))
    ensures TargetKind(relation) != Decision && relation != Documents
  {
  }

  lemma LinksRaiseRank(r: Row, l: Link)
    requires l in Links(r)
    ensures 1 <= TypeOrder(KindOf(r)) < TypeOrder(l.to.kind)
    ensures l.to.kind == TargetKind(l.relation) && l.to.kind != Decision && l.relation != Documents
  {
    hide Links, Columns, TypeOrder, KindOf, TargetKind;
    LinksFollowColumns(r, l);
    ColumnsRaiseRank(KindOf(r), l.relation);
  }

  // ------------------------------------------------------------------ Reads

  /** _bulk_by_ids: the tenant's rows of one table with the given ids, keyed by id. */
  method BulkByIds(rows: seq<Row>, kind: Kind, tenant: int, ids: set<int>) returns (out: Rows)
    ensures forall n :: n in out ==>
              n.kind == kind && n.id in ids && out[n] in rows && out[n].tenant == tenant && NodeOf(out[n]) == n
    ensures forall r :: r in rows && KindOf(r) == kind && r.tenant == tenant && r.id in ids ==> NodeOf(r) in out
  {
    out := map[];
    for i := 0 to |rows|
      invariant forall n :: n in out ==>
                  n.kind == kind && n.id in ids && out[n] in rows && out[n].tenant == tenant && NodeOf(out[n]) == n
      invariant forall j :: 0 <= j < i && KindOf(rows[j]) == kind && rows[j].tenant == tenant && rows[j].id in ids
                  ==> NodeOf(rows[j]) in out
    {
      var r := rows[i];
      if KindOf(r) == kind && r.tenant == tenant && r.id in ids {
        out := out[NodeOf(r) := r];
      }
    }
  }

  /** One reference column of a row. */
  function Column(r: Row, relation: Relation): (ids: set<int>)
    ensures forall id :: id in ids <==> Link(relation, Node(TargetKind(relation), id)) in Links(r)
  {
    var links := Links(r);
    var ids := set i | 0 <= i < |links| && links[i].relation == relation :: links[i].to.id;
    assert forall id :: id in ids <==> Link(relation, Node(TargetKind(relation), id)) in links by {
      hide Links;
      forall l | l in links
        ensures l.to.kind == TargetKind(l.relation)
      {
        LinksRaiseRank(r, l);
      }
    }
    ids
  }

  ghost predicate Target(found: Rows, relation: Relation, id: int) {
    exists m :: m in found && id in Column(found[m], relation)
  }

  /** _collect and _collect_list_all: the ids in one reference column of the rows read so far. */
  method Collect(found: Rows, relation: Relation) returns (out: set<int>)
    ensures forall id :: id in out <==> Target(found, relation, id)
  {
    hide Column;
    out := {};
    var todo := found.Keys;
    while todo != {}
      invariant todo <= found.Keys
      invariant forall id :: id in out ==> Target(found, relation, id)
      invariant forall m, id :: m in found && m !in todo && id in Column(found[m], relation) ==> id in out
      decreases |todo|
    {
      var m := Pick(todo);
      out := out + Column(found[m], relation);
      todo := todo - {m};
    }
  }

  /** One more table: reading the wanted ids of the next rank extends what has been read. */
  lemma ReadNext(rows: seq<Row>, tenant: int, decisionIds: set<int>, found: Rows, kind: Kind, ids: set<int>, more: Rows)
    requires TypeOrder(kind) >= 1 && ReadUpTo(rows, tenant, decisionIds, found, TypeOrder(kind) - 1)
    requires forall id :: id in ids <==> Wanted(found, decisionIds, Node(kind, id))
    requires forall n :: n in more ==>
               n.kind == kind && n.id in ids && more[n] in rows && more[n].tenant == tenant && NodeOf(more[n]) == n
    requires forall r :: r in rows && KindOf(r) == kind && r.tenant == tenant && r.id in ids ==> NodeOf(r) in more
    ensures ReadUpTo(rows, tenant, decisionIds, found + more, TypeOrder(kind))
  {
    hide Wanted, Links;
    var all := found + more;
    SameRank(kind);
    forall n: Node | 1 <= TypeOrder(n.kind) <= TypeOrder(kind)
      ensures n in all <==> Wanted(all, decisionIds, n) && Stored(rows, tenant, n)
    {
      WantedEarlier(rows, tenant, decisionIds, found, kind, more, n);
      if n.kind == kind {
        assert n == Node(kind, n.id);
        assert n in more <==> n.id in ids && Stored(rows, tenant, n);
      }
    }
  }

  /** Reading a table changes nothing about what is wanted of it or of the tables before. */
  lemma WantedEarlier(rows: seq<Row>, tenant: int, decisionIds: set<int>, found: Rows, kind: Kind, more: Rows, n: Node)
    requires TypeOrder(kind) >= 1 && ReadUpTo(rows, tenant, decisionIds, found, TypeOrder(kind) - 1)
    requires forall m :: m in more ==> m.kind == kind && NodeOf(more[m]) == m
    requires TypeOrder(n.kind) <= TypeOrder(kind)
    ensures Wanted(found + more, decisionIds, n) <==> Wanted(found, decisionIds, n)
  {
    hide Links, Stored;
    var all := found + more;
    if n.kind != Decision {
      if Wanted(all, decisionIds, n) {
        var m, l :| m in all && l in Links(all[m]) && l.relation != Calibrates && l.to == n;
        LinksRaiseRank(all[m], l);
        assert m !in more;
        assert m in found && found[m] == all[m];
      }
      if Wanted(found, decisionIds, n) {
        var m, l :| m in found && l in Links(found[m]) && l.relation != Calibrates && l.to == n;
        LinksRaiseRank(found[m], l);
        assert m !in more;
        assert m in all && all[m] == found[m];
      }
    }
  }

  lemma SameRank(kind: Kind)
    ensures forall k: Kind :: TypeOrder(k) == TypeOrder(kind) ==> k == kind
  {
  }

  lemma TargetIsWanted(found: Rows, decisionIds: set<int>, relation: Relation, n: Node)
    requires n.kind == TargetKind(relation) && n.kind != Decision && relation != Calibrates
    ensures Target(found, relation, n.id) ==> Wanted(found, decisionIds, n)
  {
    if Target(found, relation, n.id) {
      var m :| m in found && n.id in Column(found[m], relation);
      assert Link(relation, n) in Links(found[m]);
    }
  }

  lemma WantedIsTarget(found: Rows, decisionIds: set<int>, n: Node) returns (relation: Relation)
    requires Wanted(found, decisionIds, n) && n.kind != Decision
    ensures n.kind == TargetKind(relation) && relation != Calibrates && Target(found, relation, n.id)
  {
    var m, l :| m in found && l in Links(found[m]) && l.relation != Calibrates && l.to == n;
    LinksRaiseRank(found[m], l);
    relation := l.relation;
    assert n.id in Column(found[m], relation);
  }

  /** The relations that lead to a kind, calibrations left out. */
  function Leading(kind: Kind): set<Relation> {
    match kind
    case Recommendation => {Commits}
    case Confidence => {CalibratedBy, Carries}
    case Hypothesis => {Explains}
    case Anomaly => {AccountsFor}
    case Pattern => {RefersTo, DeviatesFrom}
    case Context => {ContextualizedBy}
    case Evidence => {Organizes}
    case Observation => {Observes}
    case _ => {}
  }

  /** The ids wanted of a kind are those collected from the columns that lead to it. */
  lemma WantedTargets(found: Rows, decisionIds: set<int>, kind: Kind, ids: set<int>)
    requires kind != Decision && kind != Report
    requires forall id :: id in ids <==> exists relation :: relation in Leading(kind) && Target(found, relation, id)
    ensures forall id :: id in ids <==> Wanted(found, decisionIds, Node(kind, id))
  {
    hide Wanted, Target;
    forall id
      ensures id in ids <==> Wanted(found, decisionIds, Node(kind, id))
    {
      if id in ids {
        var relation :| relation in Leading(kind) && Target(found, relation, id);
        TargetIsWanted(found, decisionIds, relation, Node(kind, id));
      }
      if Wanted(found, decisionIds, Node(kind, id)) {
        var relation := WantedIsTarget(found, decisionIds, Node(kind, id));
        assert relation in Leading(kind);
      }
    }
  }

  function TargetKind(relation: Relation): Kind {
    match relation
    case Documents => Decision
    case Commits => Recommendation
    case CalibratedBy => Confidence
    case Explains => Hypothesis
    case Carries => Confidence
    case Calibrates => Hypothesis
    case AccountsFor => Anomaly
    case RefersTo => Pattern
    case DeviatesFrom => Pattern
    case ContextualizedBy => Context
    case Organizes => Evidence
    case Observes => Observation
  }

  lemma NothingRead(rows: seq<Row>, tenant: int, decisionIds: set<int>)
    ensures ReadUpTo(rows, tenant, decisionIds, map[], 0)
  {
  }

  method ReadKind(rows: seq<Row>, tenant: int, ghost decisionIds: set<int>, found: Rows, kind: Kind, ids: set<int>) returns (more: Rows)
    requires kind != Report && ReadUpTo(rows, tenant, decisionIds, found, TypeOrder(kind) - 1)
    requires IdsOf(found, decisionIds, kind, ids)
    ensures ReadUpTo(rows, tenant, decisionIds, more, TypeOrder(kind))
  {
    hide ReadUpTo, Wanted;
    var read := BulkByIds(rows, kind, tenant, ids);
    ReadNext(rows, tenant, decisionIds, found, kind, ids, read);
    more := found + read;
  }

  /** ids are the wanted ids of a kind. */
  ghost predicate IdsOf(found: Rows, decisionIds: set<int>, kind: Kind, ids: set<int>) {
    forall id :: id in ids <==> Wanted(found, decisionIds, Node(kind, id))
  }

  lemma DecisionsWanted(found: Rows, decisionIds: set<int>)
    ensures IdsOf(found, decisionIds, Decision, decisionIds)
  {
  }

  lemma OneColumn(found: Rows, decisionIds: set<int>, kind: Kind, relation: Relation, ids: set<int>)
    requires Leading(kind) == {relation} && forall id :: id in ids <==> Target(found, relation, id)
    ensures IdsOf(found, decisionIds, kind, ids)
  {
    hide Target, Wanted;
    assert relation in Leading(kind);
    assert kind != Decision && kind != Report;
    WantedTargets(found, decisionIds, kind, ids);
  }

  lemma TwoColumns(found: Rows, decisionIds: set<int>, kind: Kind, a: Relation, b: Relation, idsA: set<int>, idsB: set<int>)
    requires Leading(kind) == {a, b}
    requires forall id :: id in idsA <==> Target(found, a, id)
    requires forall id :: id in idsB <==> Target(found, b, id)
    ensures IdsOf(found, decisionIds, kind, idsA + idsB)
  {
    hide Target, Wanted;
    assert a in Leading(kind) && b in Leading(kind);
    assert kind != Decision && kind != Report;
    WantedTargets(found, decisionIds, kind, idsA + idsB);
  }

  /** Collect one column, read the table it leads to. */
  method ReadThrough(rows: seq<Row>, tenant: int, ghost decisionIds: set<int>, found: Rows, kind: Kind, relation: Relation)
    returns (more: Rows)
    requires Leading(kind) == {relation} && kind != Report
    requires ReadUpTo(rows, tenant, decisionIds, found, TypeOrder(kind) - 1)
    ensures ReadUpTo(rows, tenant, decisionIds, more, TypeOrder(kind))
  {
    hide ReadUpTo, Target, IdsOf;
    var ids := Collect(found, relation);
    OneColumn(found, decisionIds, kind, relation, ids);
    more := ReadKind(rows, tenant, decisionIds, found, kind, ids);
  }

  method ReadThroughBoth(rows: seq<Row>, tenant: int, ghost decisionIds: set<int>, found: Rows, kind: Kind, a: Relation, b: Relation)
    returns (more: Rows)
    requires Leading(kind) == {a, b} && kind != Report
    requires ReadUpTo(rows, tenant, decisionIds, found, TypeOrder(kind) - 1)
    ensures ReadUpTo(rows, tenant, decisionIds, more, TypeOrder(kind))
  {
    hide ReadUpTo, Target, IdsOf;
    var ids := Collect(found, a);
    var others := Collect(found, b);
    TwoColumns(found, decisionIds, kind, a, b, ids, others);
    more := ReadKind(rows, tenant, decisionIds, found, kind, ids + others);
  }

  /** The bulk reads of get_trace, one per table. */
  method ReadRows(rows: seq<Row>, tenant: int, decisionIds: set<int>) returns (found: Rows)
    ensures ReadAll(rows, tenant, decisionIds, found)
  {
    hide ReadUpTo, IdsOf;
    NothingRead(rows, tenant, decisionIds);
    DecisionsWanted(map[], decisionIds);
    found := ReadKind(rows, tenant, decisionIds, map[], Decision, decisionIds);
    found := ReadThrough(rows, tenant, decisionIds, found, Recommendation, Commits);
    found := ReadThroughBoth(rows, tenant, decisionIds, found, Confidence, CalibratedBy, Carries);
    found := ReadThrough(rows, tenant, decisionIds, found, Hypothesis, Explains);
    found := ReadGrounds(rows, tenant, decisionIds, found);
  }

  /** The reads below hypotheses. */
  method ReadGrounds(rows: seq<Row>, tenant: int, ghost decisionIds: set<int>, upper: Rows) returns (found: Rows)
    requires ReadUpTo(rows, tenant, decisionIds, upper, TypeOrder(Hypothesis))
    ensures ReadAll(rows, tenant, decisionIds, found)
  {
    hide ReadUpTo;
    found := ReadThrough(rows, tenant, decisionIds, upper, Anomaly, AccountsFor);
    found := ReadThroughBoth(rows, tenant, decisionIds, found, Pattern, RefersTo, DeviatesFrom);
    found := ReadThrough(rows, tenant, decisionIds, found, Context, ContextualizedBy);
    found := ReadThrough(rows, tenant, decisionIds, found, Evidence, Organizes);
    found := ReadThrough(rows, tenant, decisionIds, found, Observation, Observes);
  }

  // --------------------------------------------------------------- Assembly

  datatype Edge = Edge(from: int, to: int, relation: Relation)

  datatype Warning = NotFound(from: Node, link: Link) | NoDecisionTraces

  /** One entry of the report's decision_traces: a readable decision id, or anything else. */
  datatype TraceEntry = Listed(id: int) | Unreadable

  datatype ReportRow = ReportRow(id: int, tenant: int, decisionTraces: seq<TraceEntry>)

  datatype Trace = Trace(root: Node, nodes: set<Node>, rows: Rows, edges: set<Edge>, warnings: seq<Warning>, complete: bool)

  /** What a node of the trace refers to: the report its listed decisions, a row its columns. */
  ghost predicate Refers(report: Node, decisionIds: set<int>, found: Rows, from: Node, l: Link) {
    || (from == report && l.relation == Documents && l.to.kind == Decision && l.to.id in decisionIds)
    || (from in found && l in Links(found[from]))
  }

  ghost predicate IsEdge(report: Node, decisionIds: set<int>, found: Rows, e: Edge) {
    exists from, l :: Refers(report, decisionIds, found, from, l) && l.to in found && e == Edge(from.id, l.to.id, l.relation)
  }

  /** The trace of a report that lists these decisions. */
  ghost predicate IsTrace(rows: seq<Row>, tenant: int, report: Node, decisionIds: set<int>, t: Trace) {
    && report.kind == Report && t.root == report
    && ReadAll(rows, tenant, decisionIds, t.rows)
    && t.nodes == t.rows.Keys + {report}
    && (forall e :: e in t.edges <==> IsEdge(report, decisionIds, t.rows, e))
    && (forall w :: w in t.warnings <==> w.NotFound? && Refers(report, decisionIds, t.rows, w.from, w.link) && w.link.to !in t.rows)
    && (t.complete <==> t.warnings == [])
  }

  method ExtractDecisionIds(entries: seq<TraceEntry>) returns (ids: seq<int>)
    ensures forall id :: id in ids <==> Listed(id) in entries
  {
    ids := [];
    for i := 0 to |entries|
      invariant forall id :: id in ids <==> Listed(id) in entries[..i]
    {
      if entries[i] == Unreadable {
        continue;
      }
      ids := ids + [entries[i].id];
    }
    assert entries[..|entries|] == entries;
  }

  /** _add_edges_*: the references of one row whose ends are both in the trace. */
  method RowEdges(r: Row, found: Rows) returns (edges: set<Edge>)
    ensures forall e :: e in edges <==> exists l :: l in Links(r) && l.to in found && e == Edge(r.id, l.to.id, l.relation)
  {
    hide Links;
    edges := {};
    var links := Links(r);
    for i := 0 to |links|
      invariant forall e :: e in edges <==> exists j :: 0 <= j < i && links[j].to in found && e == Edge(r.id, links[j].to.id, links[j].relation)
    {
      if links[i].to in found {
        edges := edges + {Edge(r.id, links[i].to.id, links[i].relation)};
      }
    }
  }

  method RowWarnings(r: Row, found: Rows) returns (warnings: seq<Warning>)
    ensures forall w :: w in warnings <==> w.NotFound? && w.from == NodeOf(r) && w.link in Links(r) && w.link.to !in found
  {
    hide Links;
    warnings := [];
    var links := Links(r);
    for i := 0 to |links|
      invariant forall w :: w in warnings <==> w.NotFound? && w.from == NodeOf(r) && w.link in links[..i] && w.link.to !in found
    {
      assert links[..i + 1] == links[..i] + [links[i]];
      if links[i].to !in found {
        warnings := warnings + [NotFound(NodeOf(r), links[i])];
      }
    }
    assert links[..|links|] == links;
  }

  ghost predicate RowWarning(found: Rows, done: set<Node>, w: Warning) {
    w.NotFound? && w.from in found && w.from in done && w.link in Links(found[w.from]) && w.link.to !in found
  }

  /** _validate_provenance: every reference of the report and of each row that has no node. */
  method ValidateProvenance(report: Node, decisionIds: seq<int>, found: Rows) returns (warnings: seq<Warning>)
    requires report !in found && forall n :: n in found ==> NodeOf(found[n]) == n
    ensures forall w :: w in warnings <==>
              w.NotFound? && Refers(report, (set id | id in decisionIds), found, w.from, w.link) && w.link.to !in found
  {
    hide Links;
    warnings := [];
    for i := 0 to |decisionIds|
      invariant forall w :: w in warnings <==>
                  w.NotFound? && w.from == report && w.link.relation == Documents && w.link.to.kind == Decision
                  && w.link.to.id in decisionIds[..i] && w.link.to !in found
    {
      assert decisionIds[..i + 1] == decisionIds[..i] + [decisionIds[i]];
      var link := Link(Documents, Node(Decision, decisionIds[i]));
      if link.to !in found && NotFound(report, link) !in warnings {
        warnings := warnings + [NotFound(report, link)];
      }
    }
    assert decisionIds[..|decisionIds|] == decisionIds;
    ghost var listed := warnings;
    var todo := found.Keys;
    while todo != {}
      invariant todo <= found.Keys
      invariant forall w :: w in warnings <==> w in listed || RowWarning(found, found.Keys - todo, w)
      decreases |todo|
    {
      var n := Pick(todo);
      var more := RowWarnings(found[n], found);
      warnings := warnings + more;
      todo := todo - {n};
    }
    assert found.Keys - {} == found.Keys;
  }

  ghost predicate RowEdge(found: Rows, done: set<Node>, e: Edge) {
    exists m, l :: m in found && m in done && l in Links(found[m]) && l.to in found && e == Edge(m.id, l.to.id, l.relation)
  }

  method AddEdges(report: Node, decisionIds: seq<int>, found: Rows) returns (edges: set<Edge>)
    requires report !in found && forall n :: n in found ==> NodeOf(found[n]) == n
    ensures forall e :: e in edges <==> IsEdge(report, (set id | id in decisionIds), found, e)
  {
    hide Links;
    edges := {};
    for i := 0 to |decisionIds|
      invariant forall e :: e in edges <==>
                  exists j :: 0 <= j < i && Node(Decision, decisionIds[j]) in found && e == Edge(report.id, decisionIds[j], Documents)
    {
      if Node(Decision, decisionIds[i]) in found {
        edges := edges + {Edge(report.id, decisionIds[i], Documents)};
      }
    }
    ghost var documents := edges;
    NoRowEdge(found);
    hide RowEdge;
    var todo := found.Keys;
    assert found.Keys - todo == {};
    while todo != {}
      invariant todo <= found.Keys
      invariant forall e :: e in edges <==> e in documents || RowEdge(found, found.Keys - todo, e)
      decreases |todo|
    {
      var n := Pick(todo);
      var more := RowEdges(found[n], found);
      edges := edges + more;
      MoreRowEdges(found, found.Keys - todo, n, more);
      todo := todo - {n};
      assert found.Keys - todo == (found.Keys - (todo + {n})) + {n};
    }
    EdgesAreAll(report, decisionIds, found, documents, edges);
  }

  lemma NoRowEdge(found: Rows)
    ensures forall e :: !RowEdge(found, {}, e)
  {
  }

  lemma MoreRowEdges(found: Rows, done: set<Node>, n: Node, more: set<Edge>)
    requires n in found && NodeOf(found[n]) == n
    requires forall e :: e in more <==> exists l :: l in Links(found[n]) && l.to in found && e == Edge(found[n].id, l.to.id, l.relation)
    ensures forall e :: RowEdge(found, done + {n}, e) <==> RowEdge(found, done, e) || e in more
  {
    hide Links;
  }

  lemma EdgesAreAll(report: Node, decisionIds: seq<int>, found: Rows, documents: set<Edge>, edges: set<Edge>)
    requires forall e :: e in documents <==>
               exists j :: 0 <= j < |decisionIds| && Node(Decision, decisionIds[j]) in found && e == Edge(report.id, decisionIds[j], Documents)
    requires forall e :: e in edges <==> e in documents || RowEdge(found, found.Keys, e)
    ensures forall e :: e in edges <==> IsEdge(report, (set id | id in decisionIds), found, e)
  {
    hide Links;
    var ids := set id | id in decisionIds;
    forall e
      ensures e in edges <==> IsEdge(report, ids, found, e)
    {
      if e in documents {
        var j :| 0 <= j < |decisionIds| && Node(Decision, decisionIds[j]) in found && e == Edge(report.id, decisionIds[j], Documents);
        assert Refers(report, ids, found, report, Link(Documents, Node(Decision, decisionIds[j])));
      }
      if RowEdge(found, found.Keys, e) {
        var m, l :| m in found && l in Links(found[m]) && l.to in found && e == Edge(m.id, l.to.id, l.relation);
        assert Refers(report, ids, found, m, l);
      }
      if IsEdge(report, ids, found, e) {
        var from, l :| Refers(report, ids, found, from, l) && l.to in found && e == Edge(from.id, l.to.id, l.relation);
        if !(from in found && l in Links(found[from])) {
          var j :| 0 <= j < |decisionIds| && decisionIds[j] == l.to.id;
          assert l.to == Node(Decision, decisionIds[j]);
        }
      }
    }
  }

  /** get_trace: None when the tenant has no such report; without listed decisions only the root. */
  method GetTrace(reports: seq<ReportRow>, rows: seq<Row>, tenant: int, reportId: int) returns (trace: Option<Trace>)
    ensures trace == None <==> forall r :: r in reports ==> !(r.tenant == tenant && r.id == reportId)
    ensures trace.Some? ==>
              exists r :: r in reports && r.tenant == tenant && r.id == reportId
                && var ids := set e | e in r.decisionTraces && e.Listed? :: e.id;
                   var report := Node(Report, reportId);
                   if ids == {} then trace.value == Trace(report, {report}, map[], {}, [NoDecisionTraces], false)
                   else IsTrace(rows, tenant, report, ids, trace.value)
  {
    var i := 0;
    while i < |reports| && !(reports[i].tenant == tenant && reports[i].id == reportId)
      invariant 0 <= i <= |reports|
      invariant forall j :: 0 <= j < i ==> !(reports[j].tenant == tenant && reports[j].id == reportId)
    {
      i := i + 1;
    }
    if i == |reports| {
      return None;
    }
    var row := reports[i];
    var report := Node(Report, reportId);
    var decisionIds := ExtractDecisionIds(row.decisionTraces);
    ghost var listed := set e | e in row.decisionTraces && e.Listed? :: e.id;
    var ids := set id | id in decisionIds;
    assert listed == ids by {
      forall id
        ensures id in listed <==> id in ids
      {
        if id in ids {
          assert Listed(id) in row.decisionTraces;
        }
      }
    }
    if decisionIds == [] {
      return Some(Trace(report, {report}, map[], {}, [NoDecisionTraces], false));
    }
    assert decisionIds[0] in ids;
    trace := BuildTrace(rows, tenant, report, decisionIds);
    assert row in reports;
  }

  method BuildTrace(rows: seq<Row>, tenant: int, report: Node, decisionIds: seq<int>) returns (trace: Option<Trace>)
    requires report.kind == Report
    ensures trace.Some? && IsTrace(rows, tenant, report, (set id | id in decisionIds), trace.value)
  {
    var found := ReadRows(rows, tenant, (set id | id in decisionIds));
    hide Wanted, Stored, IsEdge, Refers;
    var warnings := ValidateProvenance(report, decisionIds, found);
    var edges := AddEdges(report, decisionIds, found);
    trace := Some(Trace(report, found.Keys + {report}, found, edges, warnings, warnings == []));
  }
}
