/**
 * The outbox publisher of libs/telemetry/publisher.py, run by a single process: polls
 * that claim due rows in order, publish them one by one and record the outcome. What
 * the bus does, the clock and the jitter are parameters; a crash can cut a poll short.
 */
module Publisher {
  import opened Prelude

  const BASE_DELAY_SECONDS := 2
  const MAX_DELAY_SECONDS := 60
  const JITTER_RANGE := 0.25
  const MAX_ATTEMPTS := 5
  const BATCH_SIZE := 10

  datatype Status = Pending | Published | Failed | DeadLetter

  /** observation: None when the stored object lacks a field the publisher reads. */
  datatype Row = Row(status: Status, attempts: nat, nextAt: real, observation: Option<int>)

  /** The bus accepts the observation, or raises, perhaps after it arrived. */
  datatype Outcome = Delivered | Raises(arrived: bool)

  /** One publish: it runs to its recorded end, or the process dies before recording it. */
  datatype Attempt = Try(outcome: Outcome, now: real, jitter: real) | Crash(arrived: bool)

  /** calls counts the publishes begun for each row, lost those cut off by a crash. */
  datatype State = State(rows: seq<Row>, stream: seq<int>, calls: seq<nat>, lost: seq<nat>)

  function Pow2(n: nat): nat {
    if n == 0 then 1 else 2 * Pow2(n - 1)
  }

  function Delay(attempts: nat): nat
    requires attempts >= 1
  {
    var d := BASE_DELAY_SECONDS * Pow2(attempts - 1);
    if d < MAX_DELAY_SECONDS then d else MAX_DELAY_SECONDS
  }

  /** _next_attempt_at, the jitter drawn from [-0.25, 0.25]. */
  function NextAttemptAt(attempts: nat, now: real, jitter: real): real
    requires attempts >= 1
  {
    now + Delay(attempts) as real + Delay(attempts) as real * jitter
  }

  predicate Terminal(row: Row) {
    row.status == Published || row.status == DeadLetter
  }

  /** The WHERE clause of the claim. */
  predicate Due(row: Row, now: real) {
    row.status == Pending || (row.status == Failed && row.nextAt <= now)
  }

  predicate Succeeds(row: Row, outcome: Outcome) {
    row.observation.Some? && outcome == Delivered
  }

  /** The row after _publish_one. */
  function Processed(row: Row, outcome: Outcome, now: real, jitter: real): Row {
    if Succeeds(row, outcome) then row.(status := Published, attempts := row.attempts + 1)
    else if row.attempts + 1 >= MAX_ATTEMPTS then row.(status := DeadLetter, attempts := row.attempts + 1, nextAt := now)
    else row.(status := Failed, attempts := row.attempts + 1, nextAt := NextAttemptAt(row.attempts + 1, now, jitter))
  }

  predicate Arrives(row: Row, a: Attempt) {
    row.observation.Some? && match a case Try(outcome, _, _) => outcome == Delivered || outcome.arrived case Crash(arrived) => arrived
  }

  predicate Shaped(s: State) {
    |s.calls| == |s.rows| && |s.lost| == |s.rows|
  }

  function Step(s: State, i: nat, a: Attempt): State
    requires Shaped(s) && i < |s.rows|
  {
    var stream := if Arrives(s.rows[i], a) then s.stream + [s.rows[i].observation.value] else s.stream;
    var calls := s.calls[i := s.calls[i] + 1];
    match a
    case Try(outcome, now, jitter) => State(s.rows[i := Processed(s.rows[i], outcome, now, jitter)], stream, calls, s.lost)
    case Crash(_) => State(s.rows, stream, calls, s.lost[i := s.lost[i] + 1])
  }

  /** The rows of one poll in order, up to the first crash. */
  function Publish(s: State, claimed: seq<nat>, attempts: seq<Attempt>): State
    requires Shaped(s) && |attempts| == |claimed| && forall k :: 0 <= k < |claimed| ==> claimed[k] < |s.rows|
    decreases |claimed|
  {
    if claimed == [] then s
    else
      var next := Step(s, claimed[0], attempts[0]);
      if attempts[0].Crash? then next else Publish(next, claimed[1..], attempts[1..])
  }

  /** How many of them succeed. */
  function Successes(s: State, claimed: seq<nat>, attempts: seq<Attempt>): nat
    requires Shaped(s) && |attempts| == |claimed| && forall k :: 0 <= k < |claimed| ==> claimed[k] < |s.rows|
    decreases |claimed|
  {
    if claimed == [] || attempts[0].Crash? then 0
    else
      (if Succeeds(s.rows[claimed[0]], attempts[0].outcome) then 1 else 0)
      + Successes(Step(s, claimed[0], attempts[0]), claimed[1..], attempts[1..])
  }

  /** The k-th row of a poll. */
  lemma PollStep(s: State, claimed: seq<nat>, attempts: seq<Attempt>, k: nat)
    requires Shaped(s) && |attempts| == |claimed| && k < |claimed| && forall i :: 0 <= i < |claimed| ==> claimed[i] < |s.rows|
    ensures var next := Step(s, claimed[k], attempts[k]);
            && Shaped(next) && |next.rows| == |s.rows|
            && Publish(s, claimed[k..], attempts[k..])
               == (if attempts[k].Crash? then next else Publish(next, claimed[k + 1..], attempts[k + 1..]))
            && Successes(s, claimed[k..], attempts[k..])
               == (if attempts[k].Crash? then 0
                   else (if Succeeds(s.rows[claimed[k]], attempts[k].outcome) then 1 else 0)
                        + Successes(next, claimed[k + 1..], attempts[k + 1..]))
  {
    assert claimed[k..][1..] == claimed[k + 1..] && attempts[k..][1..] == attempts[k + 1..];
  }

  lemma PollEnd(s: State, claimed: seq<nat>, attempts: seq<Attempt>)
    requires Shaped(s) && |attempts| == |claimed| && forall i :: 0 <= i < |claimed| ==> claimed[i] < |s.rows|
    ensures claimed[0..] == claimed && attempts[0..] == attempts
    ensures forall t: State :: Shaped(t) ==> Publish(t, [], []) == t && Successes(t, [], []) == 0
    ensures claimed[|claimed|..] == [] && attempts[|claimed|..] == []
  {
  }

  // -------------------------------------------------------------- Claiming

  ghost predicate Distinct(ids: seq<nat>) {
    forall i, j :: 0 <= i < j < |ids| ==> ids[i] != ids[j]
  }

  /** ORDER BY next_attempt_at LIMIT batchSize over the due rows. */
  ghost predicate IsClaim(rows: seq<Row>, now: real, batchSize: nat, claimed: seq<nat>) {
    && Distinct(claimed) && |claimed| <= batchSize
    && (forall k :: 0 <= k < |claimed| ==> claimed[k] < |rows| && Due(rows[claimed[k]], now))
    && (forall j, k :: 0 <= j < k < |claimed| ==> rows[claimed[j]].nextAt <= rows[claimed[k]].nextAt)
    && (forall i :: 0 <= i < |rows| && Due(rows[i], now) && i !in claimed ==>
          |claimed| == batchSize && forall k :: 0 <= k < |claimed| ==> rows[claimed[k]].nextAt <= rows[i].nextAt)
  }

  class ObservationPublisher {
    var outbox: seq<Row>
    var stream: seq<int>
    ghost var calls: seq<nat>
    ghost var lost: seq<nat>

    ghost function Snapshot(): State
      reads this
    {
      State(outbox, stream, calls, lost)
    }

    constructor (outbox: seq<Row>)
      ensures Snapshot() == Fresh(outbox)
    {
      this.outbox := outbox;
      stream := [];
      calls := Fresh(outbox).calls;
      lost := Fresh(outbox).lost;
    }

    /** The due row with the earliest time that is not claimed yet. */
    method Earliest(now: real, claimed: seq<nat>) returns (best: Option<nat>)
      ensures best == None ==> forall i :: 0 <= i < |outbox| && Due(outbox[i], now) ==> i in claimed
      ensures best.Some? ==> best.value < |outbox| && Due(outbox[best.value], now) && best.value !in claimed
      ensures best.Some? ==> forall i :: 0 <= i < |outbox| && Due(outbox[i], now) && i !in claimed ==> outbox[best.value].nextAt <= outbox[i].nextAt
    {
      best := None;
      for i := 0 to |outbox|
        invariant best == None ==> forall j :: 0 <= j < i && Due(outbox[j], now) ==> j in claimed
        invariant best.Some? ==> best.value < i && Due(outbox[best.value], now) && best.value !in claimed
        invariant best.Some? ==> forall j :: 0 <= j < i && Due(outbox[j], now) && j !in claimed ==> outbox[best.value].nextAt <= outbox[j].nextAt
      {
        if Due(outbox[i], now) && i !in claimed && (best == None || outbox[i].nextAt < outbox[best.value].nextAt) {
          best := Some(i);
        }
      }
    }

    method ClaimRows(now: real, batchSize: nat) returns (claimed: seq<nat>)
      ensures IsClaim(outbox, now, batchSize, claimed)
    {
      hide Due;
      claimed := [];
      while |claimed| < batchSize
        invariant |claimed| <= batchSize && Distinct(claimed)
        invariant forall k :: 0 <= k < |claimed| ==> claimed[k] < |outbox| && Due(outbox[claimed[k]], now)
        invariant forall j, k :: 0 <= j < k < |claimed| ==> outbox[claimed[j]].nextAt <= outbox[claimed[k]].nextAt
        invariant forall i, k :: 0 <= i < |outbox| && Due(outbox[i], now) && i !in claimed && 0 <= k < |claimed|
                    ==> outbox[claimed[k]].nextAt <= outbox[i].nextAt
      {
        var best := Earliest(now, claimed);
        if best == None {
          return;
        }
        claimed := claimed + [best.value];
      }
    }

    /** _publish_one; ok is false after a failure, and crashed when nothing was recorded. */
    method PublishOne(i: nat, a: Attempt) returns (ok: bool)
      requires Shaped(Snapshot()) && i < |outbox|
      modifies this
      ensures Snapshot() == Step(old(Snapshot()), i, a)
      ensures ok == (a.Try? && Succeeds(old(outbox)[i], a.outcome))
    {
      var row := outbox[i];
      calls := calls[i := calls[i] + 1];
      if Arrives(row, a) {
        stream := stream + [row.observation.value];
      }
      if a.Crash? {
        lost := lost[i := lost[i] + 1];
        return false;
      }
      if !(row.observation.Some? && a.outcome == Delivered) {
        var newAttempts := row.attempts + 1;
        if newAttempts >= MAX_ATTEMPTS {
          outbox := outbox[i := row.(status := DeadLetter, attempts := newAttempts, nextAt := a.now)];
        } else {
          outbox := outbox[i := row.(status := Failed, attempts := newAttempts, nextAt := NextAttemptAt(newAttempts, a.now, a.jitter))];
        }
        return false;
      }
      outbox := outbox[i := row.(status := Published, attempts := row.attempts + 1)];
      ok := true;
    }

    /** _poll_once: what happens at the k-th claimed row is attempts[k]. */
    method PollOnce(now: real, attempts: seq<Attempt>) returns (published: nat, ghost claimed: seq<nat>)
      requires Shaped(Snapshot()) && |attempts| >= BATCH_SIZE
      modifies this
      ensures IsClaim(old(outbox), now, BATCH_SIZE, claimed)
      ensures Snapshot() == Publish(old(Snapshot()), claimed, attempts[..|claimed|])
      ensures published == Successes(old(Snapshot()), claimed, attempts[..|claimed|])
    {
      hide Step, Publish, Successes;
      published := 0;
      var rows := ClaimRows(now, BATCH_SIZE);
      claimed := rows;
      ghost var mine := attempts[..|rows|];
      PollEnd(Snapshot(), rows, mine);
      var k := 0;
      while k < |rows|
        invariant k <= |rows| && Shaped(Snapshot()) && |outbox| == |old(outbox)|
        invariant Publish(Snapshot(), rows[k..], mine[k..]) == Publish(old(Snapshot()), rows, mine)
        invariant published + Successes(Snapshot(), rows[k..], mine[k..]) == Successes(old(Snapshot()), rows, mine)
      {
        PollStep(Snapshot(), rows, mine, k);
        var success := PublishOne(rows[k], attempts[k]);
        if attempts[k].Crash? {
          return;
        }
        if success {
          published := published + 1;
        }
        k := k + 1;
      }
    }
  }

  function Fresh(rows: seq<Row>): State {
    State(rows, [], seq(|rows|, i => 0), seq(|rows|, i => 0))
  }

  // ------------------------------------------------------------- Invariant

  predicate RowGood(row: Row) {
    match row.status
    case Pending => row.attempts == 0
    case Failed => 1 <= row.attempts < MAX_ATTEMPTS
    case Published => 1 <= row.attempts <= MAX_ATTEMPTS && row.observation.Some?
    case DeadLetter => row.attempts == MAX_ATTEMPTS
  }

  ghost predicate Good(s: State) {
    && Shaped(s)
    && (forall i :: 0 <= i < |s.rows| ==>
          && RowGood(s.rows[i])
          && s.calls[i] == s.rows[i].attempts + s.lost[i]
          && (s.rows[i].status == Published ==> s.rows[i].observation.value in s.stream))
  }

  lemma StepGood(s: State, i: nat, a: Attempt)
    requires Good(s) && i < |s.rows| && !Terminal(s.rows[i])
    ensures Good(Step(s, i, a))
  {
    var s' := Step(s, i, a);
    forall j | 0 <= j < |s'.rows|
      ensures RowGood(s'.rows[j]) && s'.calls[j] == s'.rows[j].attempts + s'.lost[j]
      ensures s'.rows[j].status == Published ==> s'.rows[j].observation.value in s'.stream
    {
    }
  }

  lemma StepIsLocal(s: State, i: nat, a: Attempt)
    requires Shaped(s) && i < |s.rows|
    ensures var t := Step(s, i, a);
            && Shaped(t) && |t.rows| == |s.rows| && s.stream <= t.stream
            && (forall j :: 0 <= j < |s.rows| && j != i ==> t.rows[j] == s.rows[j] && t.calls[j] == s.calls[j])
            && t.calls[i] == s.calls[i] + 1
  {
  }

  lemma {:induction false} PublishGood(s: State, claimed: seq<nat>, attempts: seq<Attempt>)
    requires Good(s) && |attempts| == |claimed| && Distinct(claimed)
    requires forall k :: 0 <= k < |claimed| ==> claimed[k] < |s.rows| && !Terminal(s.rows[claimed[k]])
    ensures var t := Publish(s, claimed, attempts);
            && Good(t) && |t.rows| == |s.rows|
            && (forall i :: 0 <= i < |s.rows| && i !in claimed ==> t.rows[i] == s.rows[i] && t.calls[i] == s.calls[i])
            && (forall i :: 0 <= i < |s.rows| ==> s.calls[i] <= t.calls[i] <= s.calls[i] + 1)
            && s.stream <= t.stream
    decreases |claimed|
  {
    hide Good, Step, Terminal;
    if claimed != [] {
      GoodShape(s);
      StepGood(s, claimed[0], attempts[0]);
      StepIsLocal(s, claimed[0], attempts[0]);
      var next := Step(s, claimed[0], attempts[0]);
      if !attempts[0].Crash? {
        var rest := claimed[1..];
        assert forall k :: 0 <= k < |rest| ==> rest[k] == claimed[k + 1];
        assert claimed[0] !in rest;
        PublishGood(next, rest, attempts[1..]);
        assert claimed == [claimed[0]] + rest;
      }
    }
  }

  lemma GoodShape(s: State)
    requires Good(s)
    ensures Shaped(s)
  {
  }

  // ------------------------------------------------------------------ Runs

  datatype Poll = Poll(now: real, claimed: seq<nat>, attempts: seq<Attempt>)

  ghost predicate CanPoll(s: State, p: Poll) {
    Shaped(s) && IsClaim(s.rows, p.now, BATCH_SIZE, p.claimed) && |p.attempts| == |p.claimed|
  }

  /** States between the polls of one publisher, restarted after any crash. */
  ghost predicate Run(states: seq<State>, polls: seq<Poll>) {
    && |states| == |polls| + 1
    && (forall i :: 0 <= i < |polls| ==> CanPoll(states[i], polls[i]) && states[i + 1] == Publish(states[i], polls[i].claimed, polls[i].attempts))
  }

  lemma PollGood(s: State, p: Poll)
    requires Good(s) && CanPoll(s, p)
    ensures var t := Publish(s, p.claimed, p.attempts);
            && Good(t) && |t.rows| == |s.rows| && s.stream <= t.stream
            && (forall i :: 0 <= i < |s.rows| && Terminal(s.rows[i]) ==> t.rows[i] == s.rows[i] && t.calls[i] == s.calls[i])
  {
    PublishGood(s, p.claimed, p.attempts);
  }

  /**
   * In every run, with crashes at any point: a row is recorded as attempted at most five
   * times, and beyond that only publishes lost to crashes were begun; a published row's
   * observation is already in the stream; and a published or dead-lettered row is never
   * touched again.
   */
  lemma {:induction false} PublisherIsSafe(states: seq<State>, polls: seq<Poll>, i: nat, j: nat)
    requires Run(states, polls) && Good(states[0]) && i <= j < |states|
    ensures Good(states[i]) && Good(states[j]) && |states[j].rows| == |states[i].rows|
    ensures forall r :: 0 <= r < |states[j].rows| ==> states[j].calls[r] <= MAX_ATTEMPTS + states[j].lost[r]
    ensures forall r :: 0 <= r < |states[i].rows| && Terminal(states[i].rows[r]) ==> states[j].rows[r] == states[i].rows[r]
    decreases j
  {
    if j > 0 {
      PublisherIsSafe(states, polls, if i < j then i else j - 1, j - 1);
      PollGood(states[j - 1], polls[j - 1]);
    }
  }

  lemma FreshIsGood(rows: seq<Row>)
    requires forall r :: r in rows ==> r.status == Pending && r.attempts == 0
    ensures Good(Fresh(rows))
  {
  }

  // --------------------------------------------------------------- Draining

  /** Attempts left to rows that are not finished. */
  function Budget(rows: seq<Row>): int {
    if rows == [] then 0
    else
      var last := rows[|rows| - 1];
      Budget(rows[..|rows| - 1]) + (if Terminal(last) then 0 else MAX_ATTEMPTS - last.attempts)
  }

  lemma {:induction false} BudgetUpdate(rows: seq<Row>, i: nat, r: Row)
    requires i < |rows|
    ensures Budget(rows[i := r]) == Budget(rows) - Budget([rows[i]]) + Budget([r])
    decreases |rows|
  {
    var init := rows[..|rows| - 1];
    var last := rows[|rows| - 1];
    var updated := rows[i := r];
    assert [rows[i]][..0] == [] && [r][..0] == [];
    if i < |init| {
      assert updated[..|rows| - 1] == init[i := r];
      BudgetUpdate(init, i, r);
    } else {
      assert updated[..|rows| - 1] == init;
    }
  }

  lemma {:induction false} BudgetBounds(rows: seq<Row>)
    requires forall r :: r in rows ==> RowGood(r)
    ensures 0 <= Budget(rows) <= MAX_ATTEMPTS * |rows|
    ensures Budget(rows) == 0 <==> forall r :: r in rows ==> Terminal(r)
    decreases |rows|
  {
    if rows != [] {
      var init := rows[..|rows| - 1];
      var last := rows[|rows| - 1];
      assert rows == init + [last];
      assert last in rows && forall r :: r in rows <==> r in init || r == last;
      BudgetBounds(init);
    }
  }

  predicate CrashFree(attempts: seq<Attempt>) {
    forall k :: 0 <= k < |attempts| ==> attempts[k].Try?
  }

  lemma StepSpends(s: State, i: nat, a: Attempt)
    requires Good(s) && i < |s.rows| && !Terminal(s.rows[i]) && a.Try?
    ensures Budget(Step(s, i, a).rows) <= Budget(s.rows) - 1
  {
    var r := Processed(s.rows[i], a.outcome, a.now, a.jitter);
    BudgetUpdate(s.rows, i, r);
    assert [s.rows[i]][..0] == [] && [r][..0] == [];
    assert RowGood(s.rows[i]);
  }

  /** A poll never adds to the budget, and spends one attempt per row unless a crash cuts it short. */
  lemma {:induction false} PublishSpends(s: State, claimed: seq<nat>, attempts: seq<Attempt>)
    requires Good(s) && |attempts| == |claimed| && Distinct(claimed)
    requires forall k :: 0 <= k < |claimed| ==> claimed[k] < |s.rows| && !Terminal(s.rows[claimed[k]])
    ensures Budget(Publish(s, claimed, attempts).rows) <= Budget(s.rows) - (if CrashFree(attempts) then |claimed| else 0)
    decreases |claimed|
  {
    hide Good, Budget;
    if claimed != [] && attempts[0].Try? {
      GoodShape(s);
      StepGood(s, claimed[0], attempts[0]);
      StepSpends(s, claimed[0], attempts[0]);
      var next := Step(s, claimed[0], attempts[0]);
      var rest := claimed[1..];
      assert forall k :: 0 <= k < |rest| ==> rest[k] == claimed[k + 1] && attempts[1..][k] == attempts[k + 1];
      assert claimed[0] !in rest;
      PublishSpends(next, rest, attempts[1..]);
    }
  }

  /** Every retry time has come. */
  ghost predicate AllDue(rows: seq<Row>, now: real) {
    forall i :: 0 <= i < |rows| && !Terminal(rows[i]) ==> Due(rows[i], now)
  }

  lemma ClaimIsEmptyIff(rows: seq<Row>, now: real, claimed: seq<nat>)
    requires IsClaim(rows, now, BATCH_SIZE, claimed) && AllDue(rows, now)
    ensures claimed == [] <==> forall r :: r in rows ==> Terminal(r)
  {
    if claimed == [] {
      forall r | r in rows
        ensures Terminal(r)
      {
        var i :| 0 <= i < |rows| && rows[i] == r;
      }
    } else {
      assert rows[claimed[0]] in rows;
    }
  }

  lemma GoodRows(s: State)
    requires Good(s)
    ensures forall r :: r in s.rows ==> RowGood(r)
  {
  }

  lemma ClaimSpends(s: State, p: Poll)
    requires Good(s) && CanPoll(s, p)
    ensures Budget(Publish(s, p.claimed, p.attempts).rows) <= Budget(s.rows) - (if CrashFree(p.attempts) then |p.claimed| else 0)
  {
    hide Good, Budget;
    PublishSpends(s, p.claimed, p.attempts);
  }

  /** A poll that no crash cuts short, at a time when every retry is due. */
  ghost predicate Drains(s: State, p: Poll) {
    CrashFree(p.attempts) && AllDue(s.rows, p.now)
  }

  ghost function DrainingPolls(states: seq<State>, polls: seq<Poll>, n: nat): nat
    requires n <= |polls| < |states|
  {
    if n == 0 then 0 else DrainingPolls(states, polls, n - 1) + (if Drains(states[n - 1], polls[n - 1]) then 1 else 0)
  }

  lemma {:induction false} BudgetFalls(states: seq<State>, polls: seq<Poll>, n: nat)
    requires Run(states, polls) && Good(states[0]) && n <= |polls|
    ensures Good(states[n]) && |states[n].rows| == |states[0].rows|
    ensures Budget(states[n].rows) == 0 || Budget(states[n].rows) <= Budget(states[0].rows) - DrainingPolls(states, polls, n)
    decreases n
  {
    hide Good, Budget, IsClaim, Terminal, Due;
    if n > 0 {
      BudgetFalls(states, polls, n - 1);
      var s, p := states[n - 1], polls[n - 1];
      assert CanPoll(s, p);
      PollGood(s, p);
      GoodRows(s);
      GoodRows(states[n]);
      BudgetBounds(s.rows);
      BudgetBounds(states[n].rows);
      ClaimSpends(s, p);
      if Drains(s, p) {
        ClaimIsEmptyIff(s.rows, p.now, p.claimed);
      }
    }
  }

  /**
   * The outbox drains: once five polls per row have run uncut at times when every retry
   * was due, whatever other polls came between, every row is published or dead-lettered;
   * and a row whose object the publisher cannot read is dead-lettered.
   */
  lemma OutboxDrains(states: seq<State>, polls: seq<Poll>, n: nat)
    requires Run(states, polls) && Good(states[0]) && n <= |polls|
    requires DrainingPolls(states, polls, n) >= MAX_ATTEMPTS * |states[0].rows|
    ensures forall r :: r in states[n].rows ==> Terminal(r) && (r.observation == None ==> r.status == DeadLetter)
  {
    BudgetFalls(states, polls, n);
    GoodRows(states[0]);
    GoodRows(states[n]);
    BudgetBounds(states[0].rows);
    BudgetBounds(states[n].rows);
  }

  /**
   * From a freshly filled outbox: nothing is tried more than five times beyond what
   * crashes cut off, and after enough due polls everything is published or given up.
   */
  lemma FreshOutboxDrains(rows: seq<Row>, states: seq<State>, polls: seq<Poll>, n: nat)
    requires forall r :: r in rows ==> r.status == Pending && r.attempts == 0
    requires Run(states, polls) && states[0] == Fresh(rows) && n <= |polls|
    ensures forall r :: 0 <= r < |rows| ==> r < |states[n].calls| == |states[n].lost| && states[n].calls[r] <= MAX_ATTEMPTS + states[n].lost[r]
    ensures DrainingPolls(states, polls, n) >= MAX_ATTEMPTS * |rows| ==>
              forall r :: r in states[n].rows ==> Terminal(r) && (r.observation == None ==> r.status == DeadLetter)
  {
    FreshIsGood(rows);
    hide Good, Terminal;
    PublisherIsSafe(states, polls, 0, n);
    GoodShape(states[n]);
    if DrainingPolls(states, polls, n) >= MAX_ATTEMPTS * |rows| {
      OutboxDrains(states, polls, n);
    }
  }

  // --------------------------------------------------------------- Backoff

  /**
   * The wait before a retry doubles from two seconds, within a quarter. A row waits only
   * before attempts two to five, so it never waits over twenty seconds: the sixty-second
   * cap cannot be reached.
   */
  lemma BackoffDoubles(row: Row, outcome: Outcome, now: real, jitter: real)
    requires RowGood(row) && !Terminal(row) && -JITTER_RANGE <= jitter <= JITTER_RANGE
    requires Processed(row, outcome, now, jitter).status == Failed
    ensures var next := Processed(row, outcome, now, jitter);
            var wait := next.nextAt - now;
            && Delay(next.attempts) == Pow2(next.attempts) <= 16
            && 0.75 * Pow2(next.attempts) as real <= wait <= 1.25 * Pow2(next.attempts) as real
            && wait <= 20.0
  {
    var a := row.attempts + 1;
    assert Pow2(0) == 1 && Pow2(1) == 2 && Pow2(2) == 4 && Pow2(3) == 8 && Pow2(4) == 16;
    Jittered(Delay(a) as real, jitter);
  }

  lemma Jittered(d: real, jitter: real)
    requires d >= 0.0 && -JITTER_RANGE <= jitter <= JITTER_RANGE
    ensures -0.25 * d <= d * jitter <= 0.25 * d
  {
    NonNegative(d, 0.25 - jitter);
    NonNegative(d, jitter + 0.25);
    assert d * (0.25 - jitter) == 0.25 * d - d * jitter;
    assert d * (jitter + 0.25) == d * jitter + 0.25 * d;
  }

  lemma NonNegative(x: real, y: real)
    requires x >= 0.0 && y >= 0.0
    ensures x * y >= 0.0
  {
  }
}
