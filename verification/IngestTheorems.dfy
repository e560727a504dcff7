/** What every run of ingest keeps: one outbox row per batch, numbered samples, idempotent replays. */
module IngestTheorems {
  import opened Prelude
  import opened Canonical
  import opened Ingest
  import ObservationId
  import JsonNumber

  datatype Call = Call(tenant: int, installation: int, now: int, active: bool, body: Json)

  ghost predicate Accepts(env: Env, c: Call, b: Batch) {
    Passes(env, c.now, c.active, c.body, b)
  }

  /** IngestBatch on the tables, with the checked batch if there is one. */
  ghost function Effect(env: Env, t: Tables, c: Call): (Tables, Option<Result<Receipt, IngestError>>) {
    if b :| Accepts(env, c, b) then
      var (t', r) := Transact(env, t, c.tenant, c.installation, c.now, b);
      (t', Some(r))
    else (t, None)
  }

  ghost function After(env: Env, t: Tables, calls: seq<Call>): Tables {
    if calls == [] then t
    else Effect(env, After(env, t, calls[..|calls| - 1]), calls[|calls| - 1]).0
  }

  lemma PassesIsUnique(env: Env, c: Call, b: Batch)
    requires Accepts(env, c, b)
    ensures forall b' :: Accepts(env, c, b') ==> b' == b
    ensures forall t :: Effect(env, t, c)
              == var (t', r) := Transact(env, t, c.tenant, c.installation, c.now, b); (t', Some(r))
  {
  }

  // ------------------------------------------------------------- Invariant

  function OutboxOf(outbox: seq<OutboxRow>, batch: int): seq<OutboxRow> {
    if outbox == [] then []
    else OutboxOf(outbox[..|outbox| - 1], batch)
         + (if outbox[|outbox| - 1].batch == batch then [outbox[|outbox| - 1]] else [])
  }

  function SamplesOf(samples: seq<SampleRow>, batch: int): seq<SampleRow> {
    if samples == [] then []
    else SamplesOf(samples[..|samples| - 1], batch)
         + (if samples[|samples| - 1].batch == batch then [samples[|samples| - 1]] else [])
  }

  /** Every accepted batch has exactly one outbox row, its own, and samples numbered 1..n in order. */
  ghost predicate Stored(t: Tables, id: int)
    requires id in t.batches
  {
    var row := t.batches[id];
    && (exists ids :: OutboxOf(t.outbox, id) == [OutboxRow(row.tenant, row.installation, id, row.hash, ids)] && |ids| == row.sampleCount)
    && row.sampleCount >= 1
    && |SamplesOf(t.samples, id)| == row.sampleCount
    && (forall k :: 0 <= k < row.sampleCount ==>
          SamplesOf(t.samples, id)[k].sequence == k + 1 && SamplesOf(t.samples, id)[k].tenant == row.tenant)
  }

  ghost predicate Consistent(t: Tables) {
    && (forall id :: id in t.batches ==> Stored(t, id))
    && (forall o :: o in t.outbox ==> o.batch in t.batches)
    && (forall s :: s in t.samples ==> s.batch in t.batches)
  }

  lemma {:induction false} SamplesConcat(a: seq<SampleRow>, b: seq<SampleRow>, batch: int)
    ensures SamplesOf(a + b, batch) == SamplesOf(a, batch) + SamplesOf(b, batch)
    decreases |b|
  {
    if b == [] {
      assert a + b == a;
    } else {
      var ab := a + b;
      assert ab[..|ab| - 1] == a + b[..|b| - 1];
      SamplesConcat(a, b[..|b| - 1], batch);
    }
  }

  lemma {:induction false} AllOfOne(rows: seq<SampleRow>, batch: int)
    requires forall s :: s in rows ==> s.batch == batch
    ensures SamplesOf(rows, batch) == rows && forall other :: other != batch ==> SamplesOf(rows, other) == []
    decreases |rows|
  {
    if rows != [] {
      var init, last := rows[..|rows| - 1], rows[|rows| - 1];
      assert rows == init + [last];
      AllOfOne(init, batch);
      assert forall other :: SamplesOf(rows, other) == SamplesOf(init, other) + (if last.batch == other then [last] else []);
    }
  }

  lemma {:induction false} NoneOf(rows: seq<SampleRow>, batch: int)
    requires forall s :: s in rows ==> s.batch != batch
    ensures SamplesOf(rows, batch) == []
    decreases |rows|
  {
    if rows != [] {
      NoneOf(rows[..|rows| - 1], batch);
    }
  }

  lemma {:induction false} NoOutbox(outbox: seq<OutboxRow>, batch: int)
    requires forall o :: o in outbox ==> o.batch != batch
    ensures OutboxOf(outbox, batch) == []
    decreases |outbox|
  {
    if outbox != [] {
      NoOutbox(outbox[..|outbox| - 1], batch);
    }
  }

  lemma OutboxAppend(outbox: seq<OutboxRow>, o: OutboxRow, batch: int)
    ensures OutboxOf(outbox + [o], batch) == OutboxOf(outbox, batch) + (if o.batch == batch then [o] else [])
  {
    assert (outbox + [o])[..|outbox|] == outbox;
  }

  lemma NewIsStored(t: Tables, t': Tables, tenant: int, o: OutboxRow, samples: seq<Json>, row: BatchRow)
    requires Numbered(samples) && samples != []
    requires t'.batches == t.batches[o.batch := row] && t'.outbox == t.outbox + [o]
    requires t'.samples == t.samples + RowsOf(tenant, o.batch, samples)
    requires o.tenant == row.tenant == tenant && o.installation == row.installation && o.hash == row.hash
    requires |o.observationIds| == row.sampleCount == |samples|
    requires (forall x :: x in t.outbox ==> x.batch != o.batch) && (forall x :: x in t.samples ==> x.batch != o.batch)
    ensures Stored(t', o.batch)
  {
    hide OutboxOf, SamplesOf, SequenceOf, TextOf, Lookup, LookupFrom;
    var rows := RowsOf(tenant, o.batch, samples);
    NoOutbox(t.outbox, o.batch);
    OutboxAppend(t.outbox, o, o.batch);
    NoneOf(t.samples, o.batch);
    AllOfOne(rows, o.batch);
    SamplesConcat(t.samples, rows, o.batch);
    assert SamplesOf(t'.samples, o.batch) == rows;
    forall k | 0 <= k < |samples|
      ensures rows[k].sequence == k + 1 && rows[k].tenant == tenant
    {
      assert SequenceOf(samples[k]) == Some(k + 1);
    }
    assert OutboxOf(t'.outbox, o.batch) == [OutboxRow(row.tenant, row.installation, o.batch, row.hash, o.observationIds)];
  }

  lemma OldIsStored(t: Tables, t': Tables, id: int)
    requires id in t.batches && id in t'.batches && t'.batches[id] == t.batches[id] && Stored(t, id)
    requires OutboxOf(t'.outbox, id) == OutboxOf(t.outbox, id) && SamplesOf(t'.samples, id) == SamplesOf(t.samples, id)
    ensures Stored(t', id)
  {
  }

  lemma InsertKeeps(env: Env, t: Tables, tenant: int, installation: int, now: int, b: Batch)
    requires Consistent(t) && b.id !in t.batches && Numbered(b.samples) && b.samples != [] && AllStorable(env, b.samples)
    ensures Consistent(Transact(env, t, tenant, installation, now, b).0)
  {
    hide Stored, Numbered, AllStorable, OutboxOf, SamplesOf;
    var t' := Transact(env, t, tenant, installation, now, b).0;
    var rows := RowsOf(tenant, b.id, b.samples);
    var o := t'.outbox[|t.outbox|];
    NewIsStored(t, t', tenant, o, b.samples, t'.batches[b.id]);
    forall id | id in t'.batches && id != b.id
      ensures Stored(t', id)
    {
      OutboxAppend(t.outbox, o, id);
      SamplesConcat(t.samples, rows, id);
      AllOfOne(rows, b.id);
      OldIsStored(t, t', id);
    }
  }

  lemma CallKeeps(env: Env, t: Tables, c: Call)
    requires Consistent(t)
    ensures Consistent(Effect(env, t, c).0)
  {
    if b :| Accepts(env, c, b) {
      PassesIsUnique(env, c, b);
      hide Consistent;
      if b.id !in t.batches && AllStorable(env, b.samples) {
        InsertKeeps(env, t, c.tenant, c.installation, c.now, b);
      }
    }
  }

  /** In every run of ingest the three tables agree batch by batch. */
  lemma {:induction false} AlwaysConsistent(env: Env, calls: seq<Call>)
    ensures Consistent(After(env, Tables(map[], [], []), calls))
    decreases |calls|
  {
    hide Consistent;
    if calls == [] {
      EmptyConsistent();
    } else {
      AlwaysConsistent(env, calls[..|calls| - 1]);
      CallKeeps(env, After(env, Tables(map[], [], []), calls[..|calls| - 1]), calls[|calls| - 1]);
    }
  }

  lemma EmptyConsistent()
    ensures Consistent(Tables(map[], [], []))
  {
  }

  // ---------------------------------------------------------------- Replays

  lemma {:induction false} RecordedOwn(outbox: seq<OutboxRow>, o: OutboxRow)
    requires OutboxOf(outbox, o.batch) == [o]
    ensures RecordedIds(outbox, o.tenant, o.batch) == o.observationIds
    decreases |outbox|
  {
    var rest := outbox[1..];
    OutboxHead(outbox, o.batch);
    if outbox[0].batch == o.batch {
      assert OutboxOf(outbox, o.batch)[0] == outbox[0];
    } else {
      assert OutboxOf(rest, o.batch) == OutboxOf(outbox, o.batch);
      RecordedOwn(rest, o);
    }
  }

  lemma {:induction false} OutboxHead(outbox: seq<OutboxRow>, batch: int)
    requires outbox != []
    ensures OutboxOf(outbox, batch) == (if outbox[0].batch == batch then [outbox[0]] else []) + OutboxOf(outbox[1..], batch)
    decreases |outbox|
  {
    if |outbox| > 1 {
      var init := outbox[..|outbox| - 1];
      OutboxHead(init, batch);
      assert init[1..] == outbox[1..][..|outbox| - 2];
      assert init[0] == outbox[0];
    } else {
      assert outbox == [] + [outbox[0]];
    }
  }

  lemma CallLeavesStored(env: Env, t: Tables, c: Call, id: int)
    requires id in t.batches
    ensures var t' := Effect(env, t, c).0;
            id in t'.batches && t'.batches[id] == t.batches[id] && OutboxOf(t'.outbox, id) == OutboxOf(t.outbox, id)
  {
    if b :| Accepts(env, c, b) {
      PassesIsUnique(env, c, b);
      hide Accepts, OutboxOf;
      var after := Transact(env, t, c.tenant, c.installation, c.now, b).0;
      if b.id !in t.batches && AllStorable(env, b.samples) {
        OutboxAppend(t.outbox, after.outbox[|t.outbox|], id);
      }
    }
  }

  /** A stored batch is never touched again. */
  lemma {:induction false} StoredStays(env: Env, t: Tables, calls: seq<Call>, id: int)
    requires Consistent(t) && id in t.batches
    ensures var t' := After(env, t, calls);
            Consistent(t') && id in t'.batches && t'.batches[id] == t.batches[id] && OutboxOf(t'.outbox, id) == OutboxOf(t.outbox, id)
    decreases |calls|
  {
    hide Consistent, Effect, OutboxOf;
    if calls != [] {
      var c := calls[|calls| - 1];
      var before := After(env, t, calls[..|calls| - 1]);
      StoredStays(env, t, calls[..|calls| - 1], id);
      CallKeeps(env, before, c);
      CallLeavesStored(env, before, c, id);
    }
  }

  /** Equal bodies up to key order, and the same batch id. */
  ghost predicate SameRequest(env: Env, c: Call, d: Call, b: Batch, b': Batch) {
    && Accepts(env, c, b) && Accepts(env, d, b') && b.id == b'.id
    && c.tenant == d.tenant && c.installation == d.installation
    && Valid(c.body) && Valid(d.body)
    && Same(Obj(WithoutBatchId(c.body.fields)), Obj(WithoutBatchId(d.body.fields)))
  }

  /**
   * A replay that passes validation, however much later, with whatever ingested in
   * between, and with keys in any order, gets the ids of the first answer and changes
   * nothing.
   */
  lemma ReplayIsIdempotent(env: Env, t: Tables, c: Call, later: seq<Call>, d: Call, b: Batch, b': Batch)
    requires Consistent(t) && SameRequest(env, c, d, b, b')
    requires Effect(env, t, c).1.value.Ok?
    ensures var (t1, first) := Effect(env, t, c);
            var t2 := After(env, t1, later);
            var (t3, second) := Effect(env, t2, d);
            && t3 == t2 && second.value.Ok?
            && second.value.value.batchId == first.value.value.batchId
            && second.value.value.observationIds == first.value.value.observationIds
  {
    PassesIsUnique(env, c, b);
    PassesIsUnique(env, d, b');
    SameBodiesSameBytes(c.body.fields, d.body.fields);
    assert b.hash == b'.hash;
    var (t1, first) := Effect(env, t, c);
    CallKeeps(env, t, c);
    FirstIsRecorded(env, t, c, b);
    StoredStays(env, t1, later, b.id);
    var t2 := After(env, t1, later);
    SameRecord(t1, t2, b.id, c.tenant);
  }

  lemma SameRecord(t: Tables, t': Tables, id: int, tenant: int)
    requires Consistent(t) && id in t.batches && t.batches[id].tenant == tenant
    requires OutboxOf(t'.outbox, id) == OutboxOf(t.outbox, id)
    ensures RecordedIds(t'.outbox, tenant, id) == RecordedIds(t.outbox, tenant, id)
  {
    assert Stored(t, id);
    var o := OutboxOf(t.outbox, id)[0];
    RecordedOwn(t.outbox, o);
    RecordedOwn(t'.outbox, o);
  }

  lemma FirstIsRecorded(env: Env, t: Tables, c: Call, b: Batch)
    requires Consistent(t) && Accepts(env, c, b)
    requires Transact(env, t, c.tenant, c.installation, c.now, b).1.Ok?
    ensures var (t1, r) := Transact(env, t, c.tenant, c.installation, c.now, b);
            && b.id in t1.batches && t1.batches[b.id].tenant == c.tenant && t1.batches[b.id].installation == c.installation
            && t1.batches[b.id].hash == b.hash
            && r.value.batchId == b.id && r.value.observationIds == RecordedIds(t1.outbox, c.tenant, b.id)
  {
    if b.id !in t.batches {
      var t1 := Transact(env, t, c.tenant, c.installation, c.now, b).0;
      var o := t1.outbox[|t.outbox|];
      NoOutbox(t.outbox, b.id);
      OutboxAppend(t.outbox, o, b.id);
      RecordedOwn(t1.outbox, o);
    }
  }

  /**
   * Conversely an accepted replay of a batch is the same request and says the same thing,
   * batch id and key order aside, provided SHA-256 does not collide on the two payloads.
   */
  lemma AcceptedReplayIsTheSame(env: Env, t: Tables, c: Call, later: seq<Call>, d: Call, b: Batch, b': Batch)
    requires Consistent(t) && Accepts(env, c, b) && Accepts(env, d, b') && b.id == b'.id
    requires Valid(c.body) && Valid(d.body)
    requires Effect(env, t, c).1.value.Ok? && Effect(env, After(env, Effect(env, t, c).0, later), d).1.value.Ok?
    requires var p, q := CanonicalPayload(c.body.fields), CanonicalPayload(d.body.fields);
             p.Ok? && q.Ok? ==> (env.digest(p.value) == env.digest(q.value) ==> p == q)
    ensures c.tenant == d.tenant && c.installation == d.installation
    ensures Same(Obj(WithoutBatchId(c.body.fields)), Obj(WithoutBatchId(d.body.fields)))
    ensures Members(WithoutBatchId(c.body.fields)) == Members(WithoutBatchId(d.body.fields))
  {
    PassesIsUnique(env, c, b);
    PassesIsUnique(env, d, b');
    var t1 := Effect(env, t, c).0;
    CallKeeps(env, t, c);
    FirstIsRecorded(env, t, c, b);
    StoredStays(env, t1, later, b.id);
    EqualBytesEqualMeaning(c.body.fields, d.body.fields);
    SameBytesIff(c.body.fields, d.body.fields);
  }

  /**
   * Once a batch is accepted its id is taken for good, for every tenant: whatever is
   * ingested in between, a later valid request with the id changes nothing. Its own
   * installation gets the receipt again for the same payload hash and a conflict naming
   * the stored hash for any other; everyone else a conflict that names none.
   */
  lemma AcceptedIdIsTaken(env: Env, t: Tables, c: Call, later: seq<Call>, d: Call, b: Batch, b': Batch)
    requires Consistent(t) && Accepts(env, c, b) && Accepts(env, d, b') && b.id == b'.id
    requires Effect(env, t, c).1.value.Ok?
    ensures var t2 := After(env, Effect(env, t, c).0, later);
            var (t3, second) := Effect(env, t2, d);
            var own := c.tenant == d.tenant && c.installation == d.installation;
            && t3 == t2
            && (second.value.Ok? <==> own && b.hash == b'.hash)
            && (second.value == Err(PayloadConflict(Some(b.hash))) <==> own && b.hash != b'.hash)
            && (second.value == Err(PayloadConflict(None)) <==> !own)
  {
    PassesIsUnique(env, c, b);
    PassesIsUnique(env, d, b');
    var t1 := Effect(env, t, c).0;
    CallKeeps(env, t, c);
    FirstIsRecorded(env, t, c, b);
    StoredStays(env, t1, later, b.id);
  }

  // ------------------------------------------------------- Observation ids

  /** UUID texts: 36 characters, different for different ids. */
  ghost predicate UuidTexts(env: Env) {
    && (forall x :: |env.uuidText(x)| == ObservationId.UUID_TEXT_LENGTH)
    && (forall x, y :: env.uuidText(x) == env.uuidText(y) ==> x == y)
  }

  ghost function NameOf(env: Env, tenant: int, installation: int, batch: int, v: Json): string {
    ObservationId.Name(env.uuidText(tenant), env.uuidText(installation), env.uuidText(batch), SequenceText(v), TextOf(v, "fact_type").GetOr(""))
  }

  lemma SequenceTextIsColonFree(v: Json, n: nat)
    requires SequenceOf(v) == Some(n + 1)
    ensures ObservationId.ColonFree(SequenceText(v))
  {
    if Lookup(v, "sequence") == Some(Int(n + 1)) {
      ObservationId.DecimalsAreColonFree(n + 1);
    }
  }

  /**
   * The names hashed to observation ids never collide: across tenants, installations,
   * batches, positions and fact types, samples that differ in any of them differ in name.
   */
  lemma NamesAreInjective(env: Env, tenant: int, installation: int, batch: int, samples: seq<Json>, i: nat,
                          tenant': int, installation': int, batch': int, samples': seq<Json>, j: nat)
    requires UuidTexts(env) && Numbered(samples) && Numbered(samples') && i < |samples| && j < |samples'|
    requires NameOf(env, tenant, installation, batch, samples[i]) == NameOf(env, tenant', installation', batch', samples'[j])
    ensures tenant == tenant' && installation == installation' && batch == batch'
    ensures i == j
    ensures TextOf(samples[i], "fact_type").GetOr("") == TextOf(samples'[j], "fact_type").GetOr("")
  {
    SequenceTextIsColonFree(samples[i], i);
    SequenceTextIsColonFree(samples'[j], j);
    ObservationId.NameIsInjective(
      env.uuidText(tenant), env.uuidText(installation), env.uuidText(batch), SequenceText(samples[i]),
      TextOf(samples[i], "fact_type").GetOr(""),
      env.uuidText(tenant'), env.uuidText(installation'), env.uuidText(batch'), SequenceText(samples'[j]),
      TextOf(samples'[j], "fact_type").GetOr(""));
    SequenceTexts(samples[i], i, samples'[j], j);
  }

  lemma SequenceTexts(v: Json, i: nat, w: Json, j: nat)
    requires SequenceOf(v) == Some(i + 1) && SequenceOf(w) == Some(j + 1) && SequenceText(v) == SequenceText(w)
    ensures i == j
  {
    if Lookup(v, "sequence") == Some(Int(i + 1)) && Lookup(w, "sequence") == Some(Int(j + 1)) {
      ObservationId.DecimalsAreInjective(i + 1, j + 1);
    } else {
      DecimalsAreNotWords(i + 1);
      DecimalsAreNotWords(j + 1);
    }
  }

  lemma DecimalsAreNotWords(n: nat)
    ensures JsonNumber.NatText(n) != "True" && JsonNumber.NatText(n) != "False"
  {
    var s := JsonNumber.NatText(n);
    assert JsonNumber.IsDigit(s[0]);
  }
}
