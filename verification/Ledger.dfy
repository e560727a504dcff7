/**
 * The learning memory ledger of libs/memory/memory_ledger.py: an append-only table
 * with INSERT ... ON CONFLICT DO NOTHING on (tenant, target type, target id, hash).
 *
 * The SHA-256 of a signal's sorted JSON is left arbitrary: it is the argument hash.
 */
module Ledger {
  import opened Prelude

  const TARGET_TYPES := {"pattern", "context", "insight", "decision"}

  datatype Signal = Signal(targetType: string, targetId: int, content: string, provenance: string)

  datatype Row = Row(tenant: int, signal: Signal, hash: string, execution: Option<int>, createdAt: int)

  datatype Key = Key(tenant: int, targetType: string, targetId: int, hash: string)

  datatype LedgerError = InvalidTargetType(targetType: string)

  function RowKey(r: Row): Key {
    Key(r.tenant, r.signal.targetType, r.signal.targetId, r.hash)
  }

  function SignalKey(hash: string -> string, tenant: int, s: Signal): Key {
    Key(tenant, s.targetType, s.targetId, hash(s.content))
  }

  predicate HasKey(rows: seq<Row>, k: Key) {
    exists i :: 0 <= i < |rows| && RowKey(rows[i]) == k
  }

  ghost predicate UniqueKeys(rows: seq<Row>) {
    forall i, j :: 0 <= i < j < |rows| ==> RowKey(rows[i]) != RowKey(rows[j])
  }

  /** One insert: a conflicting row leaves the table as it is. */
  function InsertRow(rows: seq<Row>, r: Row): seq<Row> {
    if HasKey(rows, RowKey(r)) then rows else rows + [r]
  }

  function NewRow(hash: string -> string, tenant: int, execution: Option<int>, now: int, s: Signal): Row {
    Row(tenant, s, hash(s.content), execution, now)
  }

  /** persist_in_session on the table: reject an unknown target type, otherwise insert. */
  function Persist(hash: string -> string, rows: seq<Row>, tenant: int, execution: Option<int>, now: int, s: Signal)
    : Result<seq<Row>, LedgerError>
  {
    if s.targetType !in TARGET_TYPES then Err(InvalidTargetType(s.targetType))
    else Ok(InsertRow(rows, NewRow(hash, tenant, execution, now, s)))
  }

  /** The table after persisting a list of signals in order. */
  function PersistAll(hash: string -> string, rows: seq<Row>, tenant: int, execution: Option<int>, now: int,
                      signals: seq<Signal>): seq<Row>
  {
    if signals == [] then rows
    else
      var n := |signals| - 1;
      InsertRow(PersistAll(hash, rows, tenant, execution, now, signals[..n]),
                NewRow(hash, tenant, execution, now, signals[n]))
  }

  // ------------------------------------------------------ Append-only, unique

  lemma {:induction false} PersistAllAppends(hash: string -> string, rows: seq<Row>, tenant: int,
                                             execution: Option<int>, now: int, signals: seq<Signal>)
    ensures var after := PersistAll(hash, rows, tenant, execution, now, signals);
            && rows <= after
            && (UniqueKeys(rows) ==> UniqueKeys(after))
            && (forall i :: |rows| <= i < |after| ==> after[i].execution == execution && after[i].tenant == tenant)
            && (forall i :: 0 <= i < |signals| ==> HasKey(after, SignalKey(hash, tenant, signals[i])))
  {
    if signals != [] {
      var n := |signals| - 1;
      PersistAllAppends(hash, rows, tenant, execution, now, signals[..n]);
      var before := PersistAll(hash, rows, tenant, execution, now, signals[..n]);
      var r := NewRow(hash, tenant, execution, now, signals[n]);
      InsertKeeps(before, r);
      hide InsertRow, HasKey, UniqueKeys;
      forall i | 0 <= i < |signals|
        ensures HasKey(InsertRow(before, r), SignalKey(hash, tenant, signals[i]))
      {
        if i < n {
          assert signals[..n][i] == signals[i];
          KeysStay(before, InsertRow(before, r), SignalKey(hash, tenant, signals[i]));
        } else {
          assert RowKey(r) == SignalKey(hash, tenant, signals[n]);
        }
      }
    }
  }

  lemma InsertKeeps(rows: seq<Row>, r: Row)
    ensures rows <= InsertRow(rows, r)
    ensures UniqueKeys(rows) ==> UniqueKeys(InsertRow(rows, r))
    ensures HasKey(InsertRow(rows, r), RowKey(r))
    ensures forall i :: |rows| <= i < |InsertRow(rows, r)| ==> InsertRow(rows, r)[i] == r
  {
    var after := InsertRow(rows, r);
    if !HasKey(rows, RowKey(r)) {
      assert after[|rows|] == r;
    }
  }

  lemma KeysStay(rows: seq<Row>, after: seq<Row>, k: Key)
    requires rows <= after && HasKey(rows, k)
    ensures HasKey(after, k)
  {
    var i :| 0 <= i < |rows| && RowKey(rows[i]) == k;
    assert after[i] == rows[i];
  }

  // --------------------------------------------------------- Idempotence

  lemma {:induction false} NothingNew(hash: string -> string, rows: seq<Row>, tenant: int,
                                      execution: Option<int>, now: int, signals: seq<Signal>)
    requires forall i :: 0 <= i < |signals| ==> HasKey(rows, SignalKey(hash, tenant, signals[i]))
    ensures PersistAll(hash, rows, tenant, execution, now, signals) == rows
  {
    if signals != [] {
      var n := |signals| - 1;
      assert forall i :: 0 <= i < n ==> signals[..n][i] == signals[i];
      NothingNew(hash, rows, tenant, execution, now, signals[..n]);
    }
  }

  /**
   * Persisting the same signals again adds no row, whichever execution does it, at
   * whatever time, and whatever was appended in between.
   */
  lemma PersistAgainAddsNothing(hash: string -> string, rows: seq<Row>, later: seq<Row>, tenant: int,
                                first: Option<int>, again: Option<int>, now: int, now': int, signals: seq<Signal>)
    requires PersistAll(hash, rows, tenant, first, now, signals) <= later
    ensures PersistAll(hash, later, tenant, again, now', signals) == later
  {
    var after := PersistAll(hash, rows, tenant, first, now, signals);
    PersistAllAppends(hash, rows, tenant, first, now, signals);
    forall i | 0 <= i < |signals|
      ensures HasKey(later, SignalKey(hash, tenant, signals[i]))
    {
      KeysStay(after, later, SignalKey(hash, tenant, signals[i]));
    }
    NothingNew(hash, later, tenant, again, now', signals);
  }

  // --------------------------------------------- The record handed back

  predicate SameTarget(r: Row, tenant: int, targetType: string, targetId: int) {
    r.tenant == tenant && r.signal.targetType == targetType && r.signal.targetId == targetId
  }

  /** A row that ORDER BY created_at DESC LIMIT 1 may return for a target. */
  ghost predicate Latest(rows: seq<Row>, tenant: int, targetType: string, targetId: int, r: Row) {
    && r in rows && SameTarget(r, tenant, targetType, targetId)
    && forall x :: x in rows && SameTarget(x, tenant, targetType, targetId) ==> x.createdAt <= r.createdAt
  }

  /**
   * After a conflict the caller gets the latest row of the target. That is the row of
   * its own signal for sure exactly when every other row of the target is strictly
   * older than it.
   */
  lemma DedupReturnsMatchIff(rows: seq<Row>, own: Row)
    requires own in rows && UniqueKeys(rows)
    ensures var k := RowKey(own);
            (forall r :: Latest(rows, k.tenant, k.targetType, k.targetId, r) ==> r == own)
            <==>
            (forall x :: x in rows && SameTarget(x, k.tenant, k.targetType, k.targetId) && x != own
               ==> x.createdAt < own.createdAt)
  {
    var k := RowKey(own);
    if x :| x in rows && SameTarget(x, k.tenant, k.targetType, k.targetId) && x != own && x.createdAt >= own.createdAt {
      var others := Others(rows, own);
      assert x in others;
      var m := Newest(others);
      assert Latest(rows, k.tenant, k.targetType, k.targetId, m);
      assert m != own;
    }
  }

  /** The rows of own's target other than own. */
  ghost function Others(rows: seq<Row>, own: Row): set<Row> {
    set x | x in rows && SameTarget(x, own.tenant, own.signal.targetType, own.signal.targetId) && x != own
  }

  lemma {:induction false} Newest(s: set<Row>) returns (m: Row)
    requires s != {}
    ensures m in s && forall x :: x in s ==> x.createdAt <= m.createdAt
    decreases |s|
  {
    m :| m in s;
    if s != {m} {
      var t := s - {m};
      var m' := Newest(t);
      assert forall x :: x in s ==> x == m || x in t;
      if m.createdAt < m'.createdAt {
        m := m';
      }
    }
  }

  /** A conflict really can hand back another signal's row. */
  lemma DedupMayReturnAnotherSignal(hash: string -> string) returns (rows: seq<Row>, s: Signal, r: Row)
    requires hash("a") != hash("b")
    ensures UniqueKeys(rows) && HasKey(rows, SignalKey(hash, 1, s))
    ensures Latest(rows, 1, s.targetType, s.targetId, r) && r.signal != s
  {
    s := Signal("pattern", 7, "a", "");
    r := Row(1, Signal("pattern", 7, "b", ""), hash("b"), None, 1);
    rows := [Row(1, s, hash("a"), None, 0), r];
    assert RowKey(rows[0]) == SignalKey(hash, 1, s);
    assert rows[1] == r;
  }
}
