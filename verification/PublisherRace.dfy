/**
 * Several publishers over one outbox. The claim is a statement of its own, so its row
 * locks end before publishing, and each publisher goes on with the rows as it read them:
 * a failure is recorded from the attempts read, a success on top of the stored ones.
 */
module PublisherRace {
  import opened Prelude
  import opened Publisher

  /** A claimed row and the attempts read with it. */
  datatype Ticket = Ticket(row: nat, attempts: nat)

  /** ended counts the publishes of each row whose outcome was recorded. */
  datatype World = World(rows: seq<Row>, stream: seq<int>, ended: seq<nat>, held: map<int, seq<Ticket>>)

  datatype Move =
    | Claim(w: int, now: real, claimed: seq<nat>)
    | Finish(w: int, outcome: Outcome, now: real, jitter: real)
    | Die(w: int, arrived: bool)

  /** Rows another claim has locked at that moment are skipped. */
  predicate MayMove(s: World, m: Move) {
    match m
    case Claim(w, now, claimed) =>
      && w !in s.held && 0 < |claimed| <= BATCH_SIZE
      && (forall j, k :: 0 <= j < k < |claimed| ==> claimed[j] != claimed[k])
      && forall k :: 0 <= k < |claimed| ==> claimed[k] < |s.rows| && Due(s.rows[claimed[k]], now)
    case Finish(w, _, _, _) => w in s.held
    case Die(w, _) => w in s.held
  }

  function Tickets(rows: seq<Row>, claimed: seq<nat>): (ts: seq<Ticket>)
    requires forall k :: 0 <= k < |claimed| ==> claimed[k] < |rows|
    ensures |ts| == |claimed|
    ensures forall k :: 0 <= k < |claimed| ==> ts[k] == Ticket(claimed[k], rows[claimed[k]].attempts)
  {
    seq(|claimed|, k requires 0 <= k < |claimed| => Ticket(claimed[k], rows[claimed[k]].attempts))
  }

  predicate Shape(s: World) {
    && |s.ended| == |s.rows|
    && forall w :: w in s.held ==> s.held[w] != [] && forall k :: 0 <= k < |s.held[w]| ==> s.held[w][k].row < |s.rows|
  }

  /** The stored row after the publish of a ticket. */
  function Recorded(row: Row, t: Ticket, outcome: Outcome, now: real, jitter: real): Row {
    if Succeeds(row, outcome) then Processed(row, outcome, now, jitter)
    else Processed(row.(attempts := t.attempts), outcome, now, jitter)
  }

  function Rest(held: map<int, seq<Ticket>>, w: int): map<int, seq<Ticket>>
    requires w in held && held[w] != []
  {
    if |held[w]| == 1 then held - {w} else held[w := held[w][1..]]
  }

  function Moved(s: World, m: Move): World
    requires Shape(s) && MayMove(s, m)
  {
    match m
    case Claim(w, _, claimed) => s.(held := s.held[w := Tickets(s.rows, claimed)])
    case Finish(w, outcome, now, jitter) =>
      var t := s.held[w][0];
      var row := s.rows[t.row];
      World(s.rows[t.row := Recorded(row, t, outcome, now, jitter)],
            if Arrives(row, Try(outcome, now, jitter)) then s.stream + [row.observation.value] else s.stream,
            s.ended[t.row := s.ended[t.row] + 1], Rest(s.held, w))
    case Die(w, arrived) =>
      var row := s.rows[s.held[w][0].row];
      s.(stream := if Arrives(row, Crash(arrived)) then s.stream + [row.observation.value] else s.stream, held := s.held - {w})
  }

  /** A world just after ingest. */
  predicate Begun(s: World) {
    && s.held == map[] && |s.ended| == |s.rows|
    && forall i :: 0 <= i < |s.rows| ==> s.rows[i].status == Pending && s.rows[i].attempts == 0
  }

  ghost predicate Race(workers: set<int>, states: seq<World>, moves: seq<Move>) {
    && |states| == |moves| + 1 && Begun(states[0])
    && forall i :: 0 <= i < |moves| ==>
         moves[i].w in workers && Shape(states[i]) && MayMove(states[i], moves[i]) && states[i + 1] == Moved(states[i], moves[i])
  }

  // ---------------------------------------------- What any number keeps

  /** No row is published or given up without cause, however publishers interleave. */
  predicate Justified(s: World) {
    && Shape(s)
    && (forall i :: 0 <= i < |s.rows| ==>
          && s.rows[i].attempts <= s.ended[i]
          && (s.rows[i].status == Published ==> s.rows[i].observation.Some? && s.rows[i].observation.value in s.stream)
          && (s.rows[i].status == DeadLetter ==> s.ended[i] >= MAX_ATTEMPTS))
    && (forall w, k :: w in s.held && 0 <= k < |s.held[w]| ==> s.held[w][k].attempts <= s.ended[s.held[w][k].row])
  }

  lemma MoveJustified(s: World, m: Move)
    requires Justified(s) && MayMove(s, m)
    ensures Justified(Moved(s, m))
  {
    if m.Finish? {
      var t := s.held[m.w][0];
      assert t.attempts <= s.ended[t.row];
    }
  }

  /**
   * However many publishers race: a published row's observation is in the stream, a
   * dead-lettered row had at least five publishes, and no count exceeds the publishes.
   */
  lemma {:induction false} RaceIsJustified(workers: set<int>, states: seq<World>, moves: seq<Move>, n: nat)
    requires Race(workers, states, moves) && n < |states|
    ensures Justified(states[n])
    decreases n
  {
    hide Justified, Moved, MayMove;
    if n == 0 {
      BegunJustified(states[0]);
    } else {
      RaceIsJustified(workers, states, moves, n - 1);
      MoveJustified(states[n - 1], moves[n - 1]);
    }
  }

  lemma BegunJustified(s: World)
    requires Begun(s)
    ensures Justified(s)
  {
  }

  // -------------------------------------------------------- What one keeps

  /** What a publisher holds is still as it read it. */
  predicate Current(s: World) {
    && Shape(s)
    && (forall i :: 0 <= i < |s.rows| ==> RowGood(s.rows[i]))
    && (forall v, w :: v in s.held && w in s.held ==> v == w)
    && (forall w, j, k :: w in s.held && 0 <= j < k < |s.held[w]| ==> s.held[w][j].row != s.held[w][k].row)
    && (forall w, k :: w in s.held && 0 <= k < |s.held[w]| ==>
          !Terminal(s.rows[s.held[w][k].row]) && s.held[w][k].attempts == s.rows[s.held[w][k].row].attempts)
  }

  lemma OneWorker(workers: set<int>, v: int, w: int)
    requires |workers| <= 1 && v in workers && w in workers
    ensures v == w
  {
    if v != w {
      TwoMembers(workers, v, w);
    }
  }

  lemma TwoMembers(workers: set<int>, v: int, w: int)
    requires v in workers && w in workers && v != w
    ensures |workers| >= 2
  {
    assert |workers - {v}| == |workers| - 1 && |workers - {v} - {w}| == |workers| - 2;
  }

  /** No finished row changes. */
  ghost predicate FinishedStays(s: World, t: World) {
    |s.rows| == |t.rows| && forall i :: 0 <= i < |s.rows| && Terminal(s.rows[i]) ==> t.rows[i] == s.rows[i]
  }

  lemma ClaimCurrent(s: World, m: Move)
    requires Current(s) && m.Claim? && MayMove(s, m) && s.held == map[]
    ensures Current(Moved(s, m)) && FinishedStays(s, Moved(s, m))
  {
  }

  lemma FinishCurrent(s: World, m: Move)
    requires Current(s) && m.Finish? && MayMove(s, m)
    ensures Current(Moved(s, m)) && FinishedStays(s, Moved(s, m))
  {
    var t := s.held[m.w][0];
    forall i | 0 <= i < |s.rows|
      ensures RowGood(Moved(s, m).rows[i])
    {
      assert RowGood(s.rows[i]);
    }
    hide RowGood, Recorded;
  }

  lemma DieCurrent(s: World, m: Move)
    requires Current(s) && m.Die? && MayMove(s, m)
    ensures Current(Moved(s, m)) && FinishedStays(s, Moved(s, m))
  {
  }

  lemma MoveCurrent(workers: set<int>, s: World, m: Move)
    requires |workers| <= 1 && Current(s) && s.held.Keys <= workers && m.w in workers && MayMove(s, m)
    ensures Current(Moved(s, m)) && Moved(s, m).held.Keys <= workers
    ensures FinishedStays(s, Moved(s, m))
  {
    if m.Claim? {
      forall v | v in s.held
        ensures v == m.w
      {
        OneWorker(workers, v, m.w);
      }
      assert s.held.Keys == {};
      ClaimCurrent(s, m);
    } else if m.Finish? {
      FinishCurrent(s, m);
    } else {
      DieCurrent(s, m);
    }
    hide Current, FinishedStays;
  }

  lemma {:induction false} LoneRun(workers: set<int>, states: seq<World>, moves: seq<Move>, n: nat)
    requires |workers| <= 1 && Race(workers, states, moves) && n < |states|
    ensures Current(states[n]) && states[n].held.Keys <= workers
    decreases n
  {
    hide Current, Moved, MayMove;
    if n == 0 {
      BegunCurrent(states[0]);
    } else {
      LoneRun(workers, states, moves, n - 1);
      MoveCurrent(workers, states[n - 1], moves[n - 1]);
    }
  }

  lemma BegunCurrent(s: World)
    requires Begun(s)
    ensures Current(s)
  {
  }

  lemma {:induction false} LoneFinishes(workers: set<int>, states: seq<World>, moves: seq<Move>, i: nat, j: nat)
    requires |workers| <= 1 && Race(workers, states, moves) && i <= j < |states|
    ensures FinishedStays(states[i], states[j])
    decreases j
  {
    hide Current, MayMove, Terminal;
    if i < j {
      LoneFinishes(workers, states, moves, i, j - 1);
      LoneRun(workers, states, moves, j - 1);
      assert moves[j - 1].w in workers;
      MoveCurrent(workers, states[j - 1], moves[j - 1]);
    }
  }

  /** The only row: pending, published once, and set back by a publisher that read it before. */
  const UNSENT := Row(Pending, 0, 0.0, Some(1))
  const SENT := Row(Published, 1, 0.0, Some(1))
  const SET_BACK := Row(Failed, 1, NextAttemptAt(1, 0.0, 0.0), Some(1))

  lemma BothClaim(v: int, w: int) returns (s: World)
    requires v != w
    ensures var s0, m0, m1 := World([UNSENT], [], [0], map[]), Claim(v, 0.0, [0]), Claim(w, 0.0, [0]);
            && Shape(s0) && MayMove(s0, m0) && Shape(Moved(s0, m0)) && MayMove(Moved(s0, m0), m1)
            && s == Moved(Moved(s0, m0), m1)
    ensures s == World([UNSENT], [], [0], map[v := [Ticket(0, 0)], w := [Ticket(0, 0)]])
  {
    assert Tickets([UNSENT], [0]) == [Ticket(0, 0)];
    s := World([UNSENT], [], [0], map[v := [Ticket(0, 0)], w := [Ticket(0, 0)]]);
  }

  lemma OnePublishes(v: int, w: int)
    requires v != w
    ensures var s, m := World([UNSENT], [], [0], map[v := [Ticket(0, 0)], w := [Ticket(0, 0)]]), Finish(v, Delivered, 0.0, 0.0);
            Shape(s) && MayMove(s, m) && Moved(s, m) == World([SENT], [1], [1], map[w := [Ticket(0, 0)]])
  {
    var held := map[v := [Ticket(0, 0)], w := [Ticket(0, 0)]];
    assert Rest(held, v) == map[w := [Ticket(0, 0)]];
    assert [UNSENT][0 := SENT] == [SENT] && [0][0 := 1] == [1] && [] + [1] == [1];
  }

  lemma OtherSetsBack(w: int)
    ensures var s, m := World([SENT], [1], [1], map[w := [Ticket(0, 0)]]), Finish(w, Raises(false), 0.0, 0.0);
            Shape(s) && MayMove(s, m) && Moved(s, m).rows == [SET_BACK]
  {
    assert [SENT][0 := SET_BACK] == [SET_BACK];
  }

  /** Two publishers that hold one row: the first publishes it, the second fails and sets it back. */
  lemma TwoPublishersBreak(workers: set<int>, v: int, w: int) returns (states: seq<World>, moves: seq<Move>)
    requires v in workers && w in workers && v != w
    ensures Race(workers, states, moves) && |states| == 5 && |states[3].rows| == |states[4].rows| == 1
    ensures Terminal(states[3].rows[0]) && states[4].rows[0].status == Failed
  {
    var s0 := World([UNSENT], [], [0], map[]);
    moves := [Claim(v, 0.0, [0]), Claim(w, 0.0, [0]), Finish(v, Delivered, 0.0, 0.0), Finish(w, Raises(false), 0.0, 0.0)];
    var s2 := BothClaim(v, w);
    OnePublishes(v, w);
    OtherSetsBack(w);
    hide Shape, MayMove, Moved;
    var s3 := Moved(s2, moves[2]);
    states := [s0, Moved(s0, moves[0]), s2, s3, Moved(s3, moves[3])];
  }

  lemma TwoOf(workers: set<int>) returns (v: int, w: int)
    requires |workers| >= 2
    ensures v in workers && w in workers && v != w
  {
    v := AMember(workers);
    assert |workers - {v}| == |workers| - 1;
    w := AMember(workers - {v});
  }

  /** Finished rows stay as they are, in every interleaving, if and only if at most one publisher runs. */
  lemma FinishedStaysIff(workers: set<int>)
    ensures |workers| <= 1
            <==> (forall states, moves, i: nat, j: nat :: Race(workers, states, moves) && i <= j < |states| ==> FinishedStays(states[i], states[j]))
  {
    hide Race;
    if |workers| <= 1 {
      forall states, moves, i: nat, j: nat | Race(workers, states, moves) && i <= j < |states|
        ensures FinishedStays(states[i], states[j])
      {
        LoneFinishes(workers, states, moves, i, j);
      }
    } else {
      var v, w := TwoOf(workers);
      var states, moves := TwoPublishersBreak(workers, v, w);
      var i: nat, j: nat := 3, 4;
      assert Race(workers, states, moves) && i <= j < |states| && !FinishedStays(states[i], states[j]);
    }
  }
}
