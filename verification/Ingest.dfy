/**
 * The ingest transaction of libs/telemetry/ingest_service.py over the tables
 * metric_batches, metric_samples and observation_outbox. UUID and time parsing, the
 * UUID digest, SHA-256 and the database's own limits on a sample are arbitrary.
 */
module Ingest {
  import opened Prelude
  import opened Canonical
  import JsonNumber
  import ObservationId
  import Utf8

  datatype Timestamp = Aware(t: int) | Naive

  datatype Env = Env(uuidOf: Json -> Option<int>, timeOf: Json -> Option<Timestamp>, uuidText: int -> string,
                     uuid5: string -> int, digest: seq<Utf8.Byte> -> string, storable: Json -> bool)

  datatype BatchRow = BatchRow(tenant: int, installation: int, hash: string, capturedAt: int, receivedAt: int, sampleCount: nat)
  datatype SampleRow = SampleRow(tenant: int, batch: int, sequence: int, factType: string, unit: string, sample: Json)
  datatype OutboxRow = OutboxRow(tenant: int, installation: int, batch: int, hash: string, observationIds: seq<int>)

  /** The primary key of metric_batches is the batch id itself, across all tenants. */
  datatype Tables = Tables(batches: map<int, BatchRow>, samples: seq<SampleRow>, outbox: seq<OutboxRow>)

  datatype Receipt = Receipt(batchId: int, observationIds: seq<int>, ingestedAt: int)

  datatype Problem = BadBody | BadBatchId | BadSamples | BadCapturedAt | BadSequence | TooMuchDrift | NoInstallation

  datatype IngestError =
    | Invalid(problem: Problem)
    | PayloadConflict(existingHash: Option<string>)
    | Unserializable(error: JsonNumber.FloatError)
    | Unhandled

  /** Microseconds; the limit itself is already too far. */
  const MAX_DRIFT := 300_000_000
  const MAX_FACT_TYPE := 100
  const MAX_UNIT := 20

  // ------------------------------------------------------------ Validation

  function LookupFrom(fields: seq<Field>, key: string): Option<Json> {
    if fields == [] then None
    else if fields[0].key == key then Some(fields[0].value)
    else LookupFrom(fields[1..], key)
  }

  function Lookup(v: Json, key: string): Option<Json> {
    if v.Obj? then LookupFrom(v.fields, key) else None
  }

  predicate HasSampleFields(v: Json) {
    v.Obj? && Lookup(v, "sequence").Some? && Lookup(v, "fact_type").Some? && Lookup(v, "fact_value").Some? && Lookup(v, "unit").Some?
  }

  /** isinstance(seq, int) holds of booleans too. */
  function SequenceOf(v: Json): Option<int> {
    match Lookup(v, "sequence")
    case Some(Int(n)) => Some(n)
    case Some(Bool(b)) => Some(if b then 1 else 0)
    case _ => None
  }

  ghost predicate Numbered(samples: seq<Json>) {
    forall i :: 0 <= i < |samples| ==> SequenceOf(samples[i]) == Some(i + 1)
  }

  function SamplesOfBody(body: Json): seq<Json> {
    match Lookup(body, "samples")
    case Some(Arr(items)) => items
    case _ => []
  }

  method ValidateBody(env: Env, body: Json) returns (r: Result<int, IngestError>)
    ensures r.Ok? <==>
              && body.Obj? && Lookup(body, "batch_id").Some? && Lookup(body, "batch_id") != Some(Null)
              && env.uuidOf(Lookup(body, "batch_id").value).Some?
              && SamplesOfBody(body) != [] && Lookup(body, "captured_at").Some?
              && forall i :: 0 <= i < |SamplesOfBody(body)| ==> HasSampleFields(SamplesOfBody(body)[i])
    ensures r.Ok? ==> Some(r.value) == env.uuidOf(Lookup(body, "batch_id").value)
    ensures r.Err? ==> r.error.Invalid?
  {
    if !body.Obj? {
      return Err(Invalid(BadBody));
    }
    var raw := Lookup(body, "batch_id");
    if raw == None || raw == Some(Null) || env.uuidOf(raw.value) == None {
      return Err(Invalid(BadBatchId));
    }
    var samples := SamplesOfBody(body);
    if samples == [] {
      return Err(Invalid(BadSamples));
    }
    if Lookup(body, "captured_at") == None {
      return Err(Invalid(BadCapturedAt));
    }
    for i := 0 to |samples|
      invariant forall j :: 0 <= j < i ==> HasSampleFields(samples[j])
    {
      if !HasSampleFields(samples[i]) {
        return Err(Invalid(BadSamples));
      }
    }
    r := Ok(env.uuidOf(raw.value).value);
  }

  /** Sequences must be 1, 2, ..., n. */
  method ValidateSequenceMonotonicity(samples: seq<Json>) returns (r: Result<(), IngestError>)
    ensures r == if Numbered(samples) then Ok(()) else Err(Invalid(BadSequence))
  {
    var expected := 1;
    for i := 0 to |samples|
      invariant expected == i + 1
      invariant forall j :: 0 <= j < i ==> SequenceOf(samples[j]) == Some(j + 1)
    {
      var sequence := SequenceOf(samples[i]);
      if sequence == None || sequence.value < 1 {
        return Err(Invalid(BadSequence));
      }
      if sequence.value != expected {
        return Err(Invalid(BadSequence));
      }
      expected := sequence.value + 1;
    }
    r := Ok(());
  }

  /** What a body that passes every check amounts to. */
  datatype Batch = Batch(id: int, samples: seq<Json>, capturedAt: int, hash: string)

  ghost predicate Passes(env: Env, now: int, active: bool, body: Json, b: Batch) {
    && body.Obj? && Lookup(body, "batch_id").Some? && Lookup(body, "batch_id") != Some(Null)
    && env.uuidOf(Lookup(body, "batch_id").value) == Some(b.id)
    && b.samples == SamplesOfBody(body) && b.samples != [] && Lookup(body, "captured_at").Some?
    && (forall i :: 0 <= i < |b.samples| ==> HasSampleFields(b.samples[i]))
    && env.timeOf(Lookup(body, "captured_at").value) == Some(Aware(b.capturedAt))
    && Numbered(b.samples)
    && CanonicalPayload(body.fields).Ok? && b.hash == env.digest(CanonicalPayload(body.fields).value)
    && -MAX_DRIFT < now - b.capturedAt < MAX_DRIFT
    && active
  }

  /** The checks before the transaction, in the order of ingest_batch. */
  method Check(env: Env, now: int, active: bool, body: Json) returns (r: Result<Batch, IngestError>)
    ensures r.Ok? ==> Passes(env, now, active, body, r.value)
    ensures r.Err? ==> !r.error.PayloadConflict? && forall b :: !Passes(env, now, active, body, b)
  {
    var validated := ValidateBody(env, body);
    if validated.Err? {
      return Err(validated.error);
    }
    var samples := SamplesOfBody(body);
    var capturedAt := env.timeOf(Lookup(body, "captured_at").value);
    if capturedAt == None {
      return Err(Invalid(BadCapturedAt));
    }
    var numbered := ValidateSequenceMonotonicity(samples);
    if numbered.Err? {
      return Err(numbered.error);
    }
    var payload := CanonicalPayload(body.fields);
    if payload.Err? {
      return Err(Unserializable(payload.error));
    }
    // Subtracting a naive time from an aware one raises.
    if capturedAt.value == Naive {
      return Err(Unhandled);
    }
    var drift := now - capturedAt.value.t;
    if drift >= MAX_DRIFT || -drift >= MAX_DRIFT {
      return Err(Invalid(TooMuchDrift));
    }
    if !active {
      return Err(Invalid(NoInstallation));
    }
    r := Ok(Batch(validated.value, samples, capturedAt.value.t, env.digest(payload.value)));
  }

  // --------------------------------------------------------------- Inserts

  function SequenceText(v: Json): string {
    match Lookup(v, "sequence")
    case Some(Int(n)) => JsonNumber.IntText(n)
    case Some(Bool(b)) => if b then "True" else "False"
    case _ => ""
  }

  function TextOf(v: Json, key: string): Option<string> {
    match Lookup(v, key)
    case Some(Str(s)) => Some(s)
    case _ => None
  }

  /** A sample the database takes: text columns of bounded length, and its own limits. */
  predicate Storable(env: Env, v: Json) {
    && TextOf(v, "fact_type").Some? && |TextOf(v, "fact_type").value| <= MAX_FACT_TYPE
    && TextOf(v, "unit").Some? && |TextOf(v, "unit").value| <= MAX_UNIT
    && env.storable(v)
  }

  function IdOf(env: Env, tenant: int, installation: int, batch: int, v: Json): int {
    env.uuid5(ObservationId.Name(env.uuidText(tenant), env.uuidText(installation), env.uuidText(batch), SequenceText(v),
                                 TextOf(v, "fact_type").GetOr("")))
  }

  function IdsOf(env: Env, tenant: int, installation: int, batch: int, samples: seq<Json>): (ids: seq<int>)
    ensures |ids| == |samples|
    ensures forall i :: 0 <= i < |samples| ==> ids[i] == IdOf(env, tenant, installation, batch, samples[i])
  {
    seq(|samples|, i requires 0 <= i < |samples| => IdOf(env, tenant, installation, batch, samples[i]))
  }

  function RowOf(tenant: int, batch: int, v: Json): SampleRow {
    SampleRow(tenant, batch, SequenceOf(v).GetOr(0), TextOf(v, "fact_type").GetOr(""), TextOf(v, "unit").GetOr(""), v)
  }

  function RowsOf(tenant: int, batch: int, samples: seq<Json>): (rows: seq<SampleRow>)
    ensures |rows| == |samples|
    ensures forall i :: 0 <= i < |samples| ==> rows[i] == RowOf(tenant, batch, samples[i])
  {
    seq(|samples|, i requires 0 <= i < |samples| => RowOf(tenant, batch, samples[i]))
  }

  /** The ids recorded with a tenant's batch; none if there is no outbox row. */
  function RecordedIds(outbox: seq<OutboxRow>, tenant: int, batch: int): seq<int> {
    if outbox == [] then []
    else if outbox[0].tenant == tenant && outbox[0].batch == batch then outbox[0].observationIds
    else RecordedIds(outbox[1..], tenant, batch)
  }

  predicate AllStorable(env: Env, samples: seq<Json>) {
    forall i :: 0 <= i < |samples| ==> Storable(env, samples[i])
  }

  /** The transaction for a checked batch. */
  function Transact(env: Env, t: Tables, tenant: int, installation: int, now: int, b: Batch): (Tables, Result<Receipt, IngestError>) {
    if b.id in t.batches then
      var existing := t.batches[b.id];
      if existing.tenant == tenant && existing.installation == installation then
        if existing.hash == b.hash
        then (t, Ok(Receipt(b.id, RecordedIds(t.outbox, tenant, b.id), existing.receivedAt)))
        else (t, Err(PayloadConflict(Some(existing.hash))))
      else (t, Err(PayloadConflict(None)))
    else if !AllStorable(env, b.samples) then (t, Err(Unhandled))
    else
      var ids := IdsOf(env, tenant, installation, b.id, b.samples);
      (Tables(t.batches[b.id := BatchRow(tenant, installation, b.hash, b.capturedAt, now, |b.samples|)],
              t.samples + RowsOf(tenant, b.id, b.samples),
              t.outbox + [OutboxRow(tenant, installation, b.id, b.hash, ids)]),
       Ok(Receipt(b.id, ids, now)))
  }

  lemma NoSamples(env: Env, tenant: int, installation: int, batch: int)
    ensures RowsOf(tenant, batch, []) == [] && IdsOf(env, tenant, installation, batch, []) == [] && AllStorable(env, [])
  {
  }

  lemma NextSample(env: Env, tenant: int, installation: int, batch: int, samples: seq<Json>, i: nat)
    requires i < |samples|
    ensures RowsOf(tenant, batch, samples[..i + 1]) == RowsOf(tenant, batch, samples[..i]) + [RowOf(tenant, batch, samples[i])]
    ensures IdsOf(env, tenant, installation, batch, samples[..i + 1])
         == IdsOf(env, tenant, installation, batch, samples[..i]) + [IdOf(env, tenant, installation, batch, samples[i])]
    ensures AllStorable(env, samples[..i + 1]) <==> AllStorable(env, samples[..i]) && Storable(env, samples[i])
    ensures AllStorable(env, samples) ==> Storable(env, samples[i])
  {
    hide RowOf, IdOf, Storable;
    assert samples[..i + 1] == samples[..i] + [samples[i]];
  }

  class TelemetryIngestService {
    const env: Env
    var batches: map<int, BatchRow>
    var samples: seq<SampleRow>
    var outbox: seq<OutboxRow>

    ghost function Snapshot(): Tables
      reads this
    {
      Tables(batches, samples, outbox)
    }

    constructor (env: Env)
      ensures this.env == env && Snapshot() == Tables(map[], [], [])
    {
      this.env := env;
      batches := map[];
      samples := [];
      outbox := [];
    }

    method FetchExistingObservationIds(tenant: int, batch: int) returns (ids: seq<int>)
      ensures ids == RecordedIds(outbox, tenant, batch)
    {
      var i := 0;
      while i < |outbox| && !(outbox[i].tenant == tenant && outbox[i].batch == batch)
        invariant 0 <= i <= |outbox|
        invariant RecordedIds(outbox[i..], tenant, batch) == RecordedIds(outbox, tenant, batch)
      {
        assert outbox[i..][1..] == outbox[i + 1..];
        i := i + 1;
      }
      ids := if i < |outbox| then outbox[i].observationIds else [];
    }

    /** ingest_batch: active says whether the tenant's installation was found and is active. */
    method IngestBatch(tenant: int, installation: int, now: int, active: bool, body: Json) returns (r: Result<Receipt, IngestError>)
      modifies this
      ensures (exists b :: Passes(env, now, active, body, b)) ==>
                exists b :: Passes(env, now, active, body, b)
                         && (Snapshot(), r) == Transact(env, old(Snapshot()), tenant, installation, now, b)
      ensures !(exists b :: Passes(env, now, active, body, b)) ==>
                Snapshot() == old(Snapshot()) && r.Err? && !r.error.PayloadConflict?
    {
      var checked := Check(env, now, active, body);
      if checked.Err? {
        return Err(checked.error);
      }
      var b := checked.value;
      assert Passes(env, now, active, body, b);
      if b.id in batches {
        var existing := batches[b.id];
        if existing.tenant == tenant && existing.installation == installation {
          if existing.hash == b.hash {
            var ids := FetchExistingObservationIds(tenant, b.id);
            return Ok(Receipt(b.id, ids, existing.receivedAt));
          }
          return Err(PayloadConflict(Some(existing.hash)));
        }
        return Err(PayloadConflict(None));
      }
      hide Passes, RowsOf, IdsOf, AllStorable, RowOf, IdOf, Storable;
      NoSamples(env, tenant, installation, b.id);
      var before := (batches, samples);
      batches := batches[b.id := BatchRow(tenant, installation, b.hash, b.capturedAt, now, |b.samples|)];
      var ids := [];
      var i := 0;
      while i < |b.samples|
        invariant i <= |b.samples|
        invariant batches == old(batches)[b.id := BatchRow(tenant, installation, b.hash, b.capturedAt, now, |b.samples|)]
        invariant outbox == old(outbox)
        invariant samples == old(samples) + RowsOf(tenant, b.id, b.samples[..i])
        invariant ids == IdsOf(env, tenant, installation, b.id, b.samples[..i])
        invariant AllStorable(env, b.samples[..i])
      {
        var sample := b.samples[i];
        NextSample(env, tenant, installation, b.id, b.samples, i);
        if !Storable(env, sample) {
          batches, samples := before.0, before.1;
          return Err(Unhandled);
        }
        ids := ids + [IdOf(env, tenant, installation, b.id, sample)];
        samples := samples + [RowOf(tenant, b.id, sample)];
        i := i + 1;
      }
      assert b.samples[..i] == b.samples;
      outbox := outbox + [OutboxRow(tenant, installation, b.id, b.hash, ids)];
      r := Ok(Receipt(b.id, ids, now));
    }
  }
}
