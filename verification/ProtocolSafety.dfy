/**
 * What every run of the protocol keeps whose callers of a revision share a lock: at most
 * one active execution per outcome revision, and linear, terminating retry chains.
 *
 * Everything is stated about the slice of one revision: the table of its executions.
 * The advisory lock makes every open transaction the only one that works on its slice.
 */
module ProtocolSafety {
  import opened Prelude
  import opened LearningExecution
  import opened Ledger
  import opened Protocol

  function Slice(executions: Table, revision: int): Table {
    map id | id in executions && executions[id].revision == revision :: executions[id]
  }

  ghost predicate NoActive(t: Table) {
    forall id :: id in t ==> !Active(t[id].status)
  }

  ghost predicate OnlyActive(t: Table, x: int) {
    forall id :: id in t && Active(t[id].status) ==> id == x
  }

  ghost predicate AtMostOneActive(t: Table) {
    forall a, b :: a in t && b in t && Active(t[a].status) && Active(t[b].status) ==> a == b
  }

  /** Attempt 1 has no parent; a later attempt's parent is the attempt before it, and is over. */
  ghost predicate Chained(t: Table) {
    forall id :: id in t ==>
      && t[id].attempt >= 1
      && (t[id].parent == None <==> t[id].attempt == 1)
      && (t[id].parent.Some? ==>
            && t[id].parent.value in t
            && t[t[id].parent.value].attempt + 1 == t[id].attempt
            && Terminal(t[t[id].parent.value].status))
  }

  /** No execution is retried twice. */
  ghost predicate Linear(t: Table) {
    forall a, b :: a in t && b in t && t[a].parent.Some? && t[a].parent == t[b].parent ==> a == b
  }

  ghost predicate NoChild(t: Table, x: int) {
    forall id :: id in t ==> t[id].parent != Some(x)
  }

  ghost predicate Sound(t: Table) {
    AtMostOneActive(t) && Chained(t) && Linear(t)
  }

  /** What a transaction knows about its slice t, given its private writes. */
  ghost predicate StageSound(t: Table, writes: Table, st: Stage) {
    match st
    case Locked => writes == map[]
    case LockedFor(target) => writes == map[] && target in t
    case Rechecked(target) => writes == map[] && target in t && NoChild(t, target)
    case FoundNone => writes == map[] && NoActive(t)
    case FoundPending(prev) => writes == map[] && prev in t && OnlyActive(t, prev) && NoChild(t, prev)
    case FoundStale(prev, attempt) =>
      writes == map[] && prev in t && OnlyActive(t, prev) && NoChild(t, prev) && t[prev].attempt == attempt
    case Marked(prev, attempt) =>
      var v := t + writes;
      && writes.Keys == {prev} && prev in t && Terminal(writes[prev].status) && writes[prev].attempt == attempt
      && Sound(v) && NoActive(v) && NoChild(v, prev)
    case _ =>
      var id := ExecOf(st).value;
      id in writes && Sound(t + writes)
  }

  /** The lock key taken for each revision. */
  type Keys = int -> int

  ghost predicate KeyedById(executions: Table) {
    forall id :: id in executions ==> executions[id].id == id
  }

  ghost predicate WritesOwned(db: Db, x: Session) {
    forall id :: id in x.writes ==>
      && x.writes[id].id == id && x.writes[id].revision == x.revision
      && (id in db.executions ==> db.executions[id].revision == x.revision)
  }

  ghost predicate SessionSound(keys: Keys, db: Db, x: Session) {
    && x.key == keys(x.revision)
    && WritesOwned(db, x)
    && StageSound(Slice(db.executions, x.revision), x.writes, x.stage)
  }

  ghost predicate Exclusive(s: State) {
    && (forall v, w :: v in s.sessions && w in s.sessions && v != w ==> s.sessions[v].key != s.sessions[w].key)
    && (forall v, w, id :: v in s.sessions && w in s.sessions && v != w && id in s.sessions[v].writes
          ==> id !in s.sessions[w].writes)
  }

  ghost predicate SlicesSound(executions: Table) {
    forall r :: Sound(Slice(executions, r))
  }

  ghost predicate Inv(keys: Keys, s: State) {
    && KeyedById(s.db.executions)
    && SlicesSound(s.db.executions)
    && Exclusive(s)
    && forall w :: w in s.sessions ==> SessionSound(keys, s.db, s.sessions[w])
  }

  // ------------------------------------------------------- Table changes

  /** t' is t with some rows, none of them written by the transaction, moved no further than to a terminal status. */
  ghost predicate Softened(t: Table, t': Table, writes: Table) {
    && t'.Keys == t.Keys
    && forall id :: id in t ==>
         && SameIdentity(t[id], t'[id])
         && (t'[id].status == t[id].status || Terminal(t'[id].status))
         && (id in writes ==> t'[id] == t[id])
  }

  lemma SoftenedSound(t: Table, t': Table)
    requires Sound(t) && Softened(t, t', map[])
    ensures Sound(t')
    ensures NoActive(t) ==> NoActive(t')
    ensures forall x :: NoChild(t, x) ==> NoChild(t', x)
  {
    forall id | id in t' && t'[id].parent.Some?
      ensures t'[id].parent.value in t' && t'[t'[id].parent.value].attempt + 1 == t'[id].attempt
              && Terminal(t'[t'[id].parent.value].status)
    {
      var p := t[id].parent.value;
      assert SameIdentity(t[id], t'[id]) && p in t;
      assert SameIdentity(t[p], t'[p]);
    }
  }

  lemma SoftenedStage(t: Table, t': Table, writes: Table, st: Stage)
    requires StageSound(t, writes, st) && Softened(t, t', writes)
    ensures StageSound(t', writes, st)
  {
    var v, v' := t + writes, t' + writes;
    if st.Marked? || ExecOf(st).Some? {
      assert v'.Keys == v.Keys;
      forall id | id in v
        ensures SameIdentity(v[id], v'[id]) && (v'[id].status == v[id].status || Terminal(v'[id].status))
      {
      }
      SoftenedSound(v, v');
    }
  }

  lemma MarkSound(t: Table, prev: int, e: Execution)
    requires Sound(t) && prev in t && OnlyActive(t, prev) && NoChild(t, prev)
    requires SameIdentity(t[prev], e) && Terminal(e.status)
    ensures var v := t[prev := e]; Sound(v) && NoActive(v) && NoChild(v, prev)
  {
  }

  lemma ClaimSound(t: Table, prev: int, e: Execution)
    requires Sound(t) && prev in t && OnlyActive(t, prev) && NoChild(t, prev)
    requires SameIdentity(t[prev], e)
    ensures Sound(t[prev := e])
  {
  }

  lemma CompleteSound(t: Table, id: int, e: Execution)
    requires Sound(t) && id in t && SameIdentity(t[id], e) && Terminal(e.status)
    ensures Sound(t[id := e])
  {
  }

  lemma InsertSound(t: Table, e: Execution)
    requires Sound(t) && NoActive(t) && e.id !in t
    requires NoChild(t, e.id)
    requires if e.parent == None then e.attempt == 1
             else e.parent.value in t && NoChild(t, e.parent.value) && e.attempt == t[e.parent.value].attempt + 1
    ensures Sound(t[e.id := e])
  {
    var v := t[e.id := e];
    if e.parent.Some? {
      assert t[e.parent.value].attempt >= 1;
    }
    assert forall a, b :: a in v && b in v && v[a].parent.Some? && v[a].parent == v[b].parent ==> a == b;
  }

  /** A parent is a member of its slice, so a fresh id has no children. */
  lemma FreshHasNoChild(t: Table, id: int)
    requires Chained(t) && id !in t
    ensures NoChild(t, id)
  {
  }

  /** In a sound slice an active execution has no child: its child would need it to be over. */
  lemma ActiveHasNoChild(t: Table, x: int)
    requires Sound(t) && x in t && Active(t[x].status)
    ensures NoChild(t, x) && OnlyActive(t, x)
  {
  }

  lemma SliceOfMerge(executions: Table, writes: Table, r: int)
    requires forall id :: id in writes ==> writes[id].revision == r && (id in executions ==> executions[id].revision == r)
    ensures Slice(executions + writes, r) == Slice(executions, r) + writes
    ensures forall q :: q != r ==> Slice(executions + writes, q) == Slice(executions, q)
  {
    var merged := executions + writes;
    var a, b := Slice(merged, r), Slice(executions, r) + writes;
    assert forall id :: id in a <==> id in b;
    assert forall id :: id in a ==> a[id] == b[id];
    forall q | q != r
      ensures Slice(merged, q) == Slice(executions, q)
    {
      var c, d := Slice(merged, q), Slice(executions, q);
      assert forall id :: id in c <==> id in d;
      assert forall id :: id in c ==> c[id] == d[id];
    }
  }
}
