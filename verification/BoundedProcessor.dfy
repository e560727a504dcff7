/**
 * The bounded scheduler of libs/shared/concurrency.py: tenants are processed in batches,
 * each task under one semaphore, every result written to its own index. Tasks of a batch
 * may enter and leave the semaphore in any order. process_fn does not raise here.
 */
module BoundedProcessor {
  import opened Prelude

  datatype Task = Waiting | Running | Finished

  /** start is the first index of the current batch; writes counts the stores to each index. */
  datatype State<R> = State(tasks: seq<Task>, results: seq<Option<R>>, writes: seq<nat>, permits: nat, start: nat)

  datatype Step = Enter(i: nat) | Leave(i: nat) | NextBatch

  /** One call of process_all. */
  datatype Job<!T, R> = Job(ids: seq<T>, f: T -> R, maxConcurrent: nat, batchSize: nat)

  function Initial<T, R>(j: Job<T, R>): State<R> {
    var n := |j.ids|;
    State(seq(n, i => Waiting), seq(n, i => None), seq(n, i => 0), j.maxConcurrent, 0)
  }

  function BatchEnd<T, R>(j: Job<T, R>, start: nat): nat {
    if start + j.batchSize < |j.ids| then start + j.batchSize else |j.ids|
  }

  predicate Fits<T, R>(j: Job<T, R>, s: State<R>) {
    |s.tasks| == |s.results| == |s.writes| == |j.ids|
  }

  predicate InBatch<T, R>(j: Job<T, R>, s: State<R>, i: nat) {
    s.start <= i < BatchEnd(j, s.start)
  }

  predicate Enabled<T, R>(j: Job<T, R>, s: State<R>, step: Step) {
    Fits(j, s) &&
    match step
    case Enter(i) => InBatch(j, s, i) && s.tasks[i] == Waiting && s.permits > 0
    case Leave(i) => InBatch(j, s, i) && s.tasks[i] == Running
    case NextBatch => s.start < |j.ids| && forall i :: s.start <= i < BatchEnd(j, s.start) ==> s.tasks[i] == Finished
  }

  function Apply<T, R>(j: Job<T, R>, s: State<R>, step: Step): State<R>
    requires Enabled(j, s, step)
  {
    match step
    case Enter(i) => s.(tasks := s.tasks[i := Running], permits := s.permits - 1)
    case Leave(i) =>
      s.(tasks := s.tasks[i := Finished], results := s.results[i := Some(j.f(j.ids[i]))],
         writes := s.writes[i := s.writes[i] + 1], permits := s.permits + 1)
    case NextBatch => s.(start := s.start + j.batchSize)
  }

  ghost predicate Run<T, R>(j: Job<T, R>, states: seq<State<R>>, steps: seq<Step>) {
    && |states| == |steps| + 1
    && states[0] == Initial(j)
    && forall i :: 0 <= i < |steps| ==> Enabled(j, states[i], steps[i]) && states[i + 1] == Apply(j, states[i], steps[i])
  }

  function InFlight(tasks: seq<Task>): nat {
    if tasks == [] then 0
    else InFlight(tasks[..|tasks| - 1]) + (if tasks[|tasks| - 1] == Running then 1 else 0)
  }

  /** What a step can still cost: entering, leaving, and closing the remaining batches. */
  function Left(tasks: seq<Task>): nat {
    if tasks == [] then 0
    else
      var last := tasks[|tasks| - 1];
      Left(tasks[..|tasks| - 1]) + (if last == Waiting then 2 else if last == Running then 1 else 0)
  }

  lemma {:induction false} TaskUpdate(tasks: seq<Task>, i: nat, t: Task)
    requires i < |tasks|
    ensures InFlight(tasks[i := t]) == InFlight(tasks) - (if tasks[i] == Running then 1 else 0) + (if t == Running then 1 else 0)
    ensures Left(tasks[i := t]) == Left(tasks) - Left([tasks[i]]) + Left([t])
    decreases |tasks|
  {
    var init := tasks[..|tasks| - 1];
    var updated := tasks[i := t];
    assert [tasks[i]][..0] == [] && [t][..0] == [];
    if i < |init| {
      assert updated[..|tasks| - 1] == init[i := t];
      TaskUpdate(init, i, t);
    } else {
      assert updated[..|tasks| - 1] == init;
    }
  }

  lemma {:induction false} AllWaiting(tasks: seq<Task>)
    requires forall i :: 0 <= i < |tasks| ==> tasks[i] == Waiting
    ensures InFlight(tasks) == 0 && Left(tasks) == 2 * |tasks|
    decreases |tasks|
  {
    if tasks != [] {
      AllWaiting(tasks[..|tasks| - 1]);
    }
  }

  ghost predicate Inv<T, R>(j: Job<T, R>, s: State<R>) {
    && Fits(j, s)
    && s.permits + InFlight(s.tasks) == j.maxConcurrent
    && (forall i :: 0 <= i < |j.ids| ==>
          && s.results[i] == (if s.tasks[i] == Finished then Some(j.f(j.ids[i])) else None)
          && s.writes[i] == (if s.tasks[i] == Finished then 1 else 0)
          && (i < s.start ==> s.tasks[i] == Finished)
          && (i >= BatchEnd(j, s.start) ==> s.tasks[i] == Waiting))
  }

  lemma StepKeeps<T, R>(j: Job<T, R>, s: State<R>, step: Step)
    requires Inv(j, s) && j.batchSize >= 1 && Enabled(j, s, step)
    ensures Inv(j, Apply(j, s, step))
  {
    if !step.NextBatch? {
      TaskUpdate(s.tasks, step.i, if step.Enter? then Running else Finished);
    }
  }

  lemma {:induction false} RunKeeps<T, R>(j: Job<T, R>, states: seq<State<R>>, steps: seq<Step>, n: nat)
    requires Run(j, states, steps) && j.batchSize >= 1 && n < |states|
    ensures Inv(j, states[n])
    decreases n
  {
    if n == 0 {
      AllWaiting(states[0].tasks);
    } else {
      RunKeeps(j, states, steps, n - 1);
      assert Enabled(j, states[n - 1], steps[n - 1]);
      StepKeeps(j, states[n - 1], steps[n - 1]);
    }
  }

  /**
   * For every schedule: never more tasks in flight than the semaphore allows, no index
   * written twice, and once all batches are done each index holds the function's value
   * of its own tenant, in input order.
   */
  lemma ResultsAreTheMap<T, R>(j: Job<T, R>, states: seq<State<R>>, steps: seq<Step>, n: nat)
    requires Run(j, states, steps) && j.batchSize >= 1 && n < |states|
    ensures InFlight(states[n].tasks) <= j.maxConcurrent
    ensures |states[n].writes| == |states[n].results| == |j.ids|
    ensures forall i :: 0 <= i < |j.ids| ==> states[n].writes[i] <= 1
    ensures states[n].start >= |j.ids| ==>
              forall i :: 0 <= i < |j.ids| ==> states[n].results[i] == Some(j.f(j.ids[i])) && states[n].writes[i] == 1
  {
    RunKeeps(j, states, steps, n);
  }

  /** The batches partition the input: a task enters and leaves only in the batch i / batchSize. */
  lemma {:induction false} BatchesPartition<T, R>(j: Job<T, R>, states: seq<State<R>>, steps: seq<Step>, n: nat)
    requires Run(j, states, steps) && j.batchSize >= 1 && n < |states|
    ensures exists k: nat :: states[n].start == k * j.batchSize
    ensures n < |steps| && !steps[n].NextBatch? ==> states[n].start == (steps[n].i / j.batchSize) * j.batchSize
    decreases n
  {
    if n == 0 {
      assert states[0].start == 0 * j.batchSize;
    } else {
      BatchesPartition(j, states, steps, n - 1);
      assert Enabled(j, states[n - 1], steps[n - 1]);
      var k: nat :| states[n - 1].start == k * j.batchSize;
      assert states[n].start == k * j.batchSize || states[n].start == (k + 1) * j.batchSize;
    }
    var k: nat :| states[n].start == k * j.batchSize;
    if n < |steps| && !steps[n].NextBatch? {
      assert Enabled(j, states[n], steps[n]);
      Quotient(steps[n].i, j.batchSize, k);
    }
  }

  lemma NonNegative(x: int, y: int)
    requires x >= 0 && y >= 0
    ensures x * y >= 0
  {
  }

  lemma AtLeast(d: int, b: int)
    requires d >= 1 && b >= 0
    ensures d * b >= b
  {
    NonNegative(d - 1, b);
    assert (d - 1) * b == d * b - b;
  }

  lemma SmallMultiple(d: int, b: int)
    requires 0 - b < d * b < b
    ensures d == 0
  {
    var opposite := -d;
    assert opposite * b == 0 - d * b;
    if d >= 1 {
      AtLeast(d, b);
    } else if d <= -1 {
      AtLeast(opposite, b);
    }
  }

  lemma Quotient(i: nat, b: nat, k: nat)
    requires b >= 1 && k * b <= i < k * b + b
    ensures i / b == k
  {
    var q := i / b;
    assert q * b <= i < q * b + b;
    assert (q - k) * b == q * b - k * b;
    SmallMultiple(q - k, b);
  }

  // ------------------------------------------------------------- Progress

  function Measure<T, R>(j: Job<T, R>, s: State<R>): int
    requires Fits(j, s)
  {
    Left(s.tasks) + (if s.start < |j.ids| then |j.ids| - s.start else 0)
  }

  lemma StepCosts<T, R>(j: Job<T, R>, s: State<R>, step: Step)
    requires Inv(j, s) && j.batchSize >= 1 && Enabled(j, s, step)
    ensures Measure(j, Apply(j, s, step)) < Measure(j, s)
  {
    if !step.NextBatch? {
      var t := if step.Enter? then Running else Finished;
      TaskUpdate(s.tasks, step.i, t);
      assert [s.tasks[step.i]][..0] == [] && [t][..0] == [];
    }
  }

  lemma {:induction false} RunningIsSomewhere(tasks: seq<Task>) returns (i: nat)
    requires InFlight(tasks) > 0
    ensures i < |tasks| && tasks[i] == Running
    decreases |tasks|
  {
    if tasks[|tasks| - 1] == Running {
      i := |tasks| - 1;
    } else {
      i := RunningIsSomewhere(tasks[..|tasks| - 1]);
    }
  }

  /** While batches remain some step can be taken, if the semaphore has a permit at all. */
  lemma NeverStuck<T, R>(j: Job<T, R>, s: State<R>) returns (step: Step)
    requires Inv(j, s) && j.maxConcurrent >= 1 && s.start < |j.ids|
    ensures Enabled(j, s, step)
  {
    if forall i :: s.start <= i < BatchEnd(j, s.start) ==> s.tasks[i] == Finished {
      step := NextBatch;
    } else {
      var i: nat :| s.start <= i < BatchEnd(j, s.start) && s.tasks[i] != Finished;
      if s.tasks[i] == Running {
        step := Leave(i);
      } else if s.permits > 0 {
        step := Enter(i);
      } else {
        var r := RunningIsSomewhere(s.tasks);
        step := Leave(r);
      }
    }
  }

  lemma {:induction false} RunIsShort<T, R>(j: Job<T, R>, states: seq<State<R>>, steps: seq<Step>, n: nat)
    requires Run(j, states, steps) && j.batchSize >= 1 && n < |states|
    ensures Inv(j, states[n]) && n + Measure(j, states[n]) <= 3 * |j.ids|
    decreases n
  {
    RunKeeps(j, states, steps, n);
    if n == 0 {
      AllWaiting(states[0].tasks);
    } else {
      RunIsShort(j, states, steps, n - 1);
      assert Enabled(j, states[n - 1], steps[n - 1]);
      StepCosts(j, states[n - 1], steps[n - 1]);
    }
  }

  /** Without a permit nothing ever starts. */
  lemma NoPermitNoStep<T, R>(j: Job<T, R>, step: Step)
    requires j.batchSize >= 1 && j.maxConcurrent == 0 && j.ids != []
    ensures !Enabled(j, Initial(j), step)
  {
    assert Initial(j).tasks[0] == Waiting;
  }

  /**
   * No run is longer than three steps per tenant, and one that cannot go on has processed
   * every batch, if and only if the semaphore has a permit or there is nothing to do.
   */
  lemma EveryScheduleFinishes<T, R>(j: Job<T, R>, states: seq<State<R>>, steps: seq<Step>)
    requires Run(j, states, steps) && j.batchSize >= 1
    ensures |steps| <= 3 * |j.ids|
    ensures (forall step :: !Enabled(j, states[|steps|], step)) ==>
              (states[|steps|].start >= |j.ids| <==> j.maxConcurrent >= 1 || j.ids == [])
  {
    RunIsShort(j, states, steps, |steps|);
    if states[|steps|].start < |j.ids| && j.maxConcurrent >= 1 {
      var step := NeverStuck(j, states[|steps|]);
    } else if j.maxConcurrent == 0 && j.ids != [] {
      NoPermitNoStep(j, if steps == [] then NextBatch else steps[0]);
    }
  }

  // ------------------------------------------------------------------ Code

  /** The function's values in input order. */
  function Values<T, R>(ids: seq<T>, f: T -> R): (values: seq<Option<R>>)
    ensures |values| == |ids|
    ensures forall i :: 0 <= i < |ids| ==> values[i] == Some(f(ids[i]))
  {
    seq(|ids|, i requires 0 <= i < |ids| => Some(f(ids[i])))
  }

  /** The indices of one batch. */
  method Indices(lo: nat, hi: nat) returns (indices: set<nat>)
    requires lo <= hi
    ensures forall i :: i in indices <==> lo <= i < hi
  {
    indices := {};
    for i := lo to hi
      invariant forall k :: k in indices <==> lo <= k < i
    {
      indices := indices + {i};
    }
  }

  lemma Moves(pending: set<nat>, running: set<nat>, i: nat)
    requires running <= pending && i in pending
    ensures i !in running ==> |running + {i}| == |running| + 1 && |pending - (running + {i})| < |pending - running|
    ensures i in running ==> |running - {i}| == |running| - 1 && |pending - {i}| < |pending|
  {
    if i !in running {
      assert pending - (running + {i}) == (pending - running) - {i};
    }
  }

  /** Any task that can go on: one that waits, if there is a permit, or one that runs. */
  method Choose(pending: set<nat>, running: set<nat>, permits: nat) returns (enter: bool, i: nat)
    requires pending != {} && running <= pending && (permits == 0 ==> running != {})
    ensures i in pending && if enter then permits > 0 && i !in running else i in running
  {
    var waiting := pending - running;
    enter := waiting != {} && permits > 0;
    if enter && running != {} {
      enter := *;
    }
    if enter {
      i := Pick(waiting);
    } else {
      assert running == {} ==> waiting == pending;
      i := Pick(running);
    }
  }

  datatype Outcome<+R> =
    | Returned(results: seq<Option<R>>)
    | ZeroStep       // range() refuses a step of zero
    | NeverReturns   // every task of the first batch waits for a permit that does not exist

  /** What process_all does for every pair of sizes. */
  function Expected<T, R>(ids: seq<T>, f: T -> R, maxConcurrent: nat, maxBatchSize: int): Outcome<R> {
    if maxBatchSize == 0 then ZeroStep
    else if maxBatchSize < 0 then Returned(seq(|ids|, _ => None))
    else if maxConcurrent == 0 && ids != [] then NeverReturns
    else Returned(Values(ids, f))
  }

  class BoundedTenantProcessor {
    const maxConcurrent: nat
    const maxBatchSize: int
    /** The free permits of the semaphore. */
    var semaphore: nat

    ghost predicate Valid()
      reads this
    {
      semaphore == maxConcurrent
    }

    /** Semaphore refuses a negative number of permits; nothing checks the batch size. */
    static method Create(maxConcurrent: int, maxBatchSize: int) returns (r: Option<BoundedTenantProcessor>)
      ensures r.Some? <==> maxConcurrent >= 0
      ensures r.Some? ==> fresh(r.value) && r.value.Valid() && r.value.maxConcurrent == maxConcurrent && r.value.maxBatchSize == maxBatchSize
    {
      if maxConcurrent < 0 {
        return None;
      }
      var processor := new BoundedTenantProcessor(maxConcurrent, maxBatchSize);
      r := Some(processor);
    }

    constructor (maxConcurrent: nat, maxBatchSize: int)
      ensures Valid() && this.maxConcurrent == maxConcurrent && this.maxBatchSize == maxBatchSize
    {
      this.maxConcurrent := maxConcurrent;
      this.maxBatchSize := maxBatchSize;
      semaphore := maxConcurrent;
    }

    /** One batch; the event loop picks any of its tasks that can go on. */
    method RunBatch<T, R>(ids: seq<T>, f: T -> R, results: array<Option<R>>, lo: nat, hi: nat, ghost values: seq<Option<R>>)
      returns (ghost peak: nat)
      requires Valid() && maxConcurrent >= 1 && lo <= hi <= |ids| == results.Length && values == Values(ids, f)
      modifies this, results
      ensures Valid() && peak <= maxConcurrent
      ensures forall i :: lo <= i < hi ==> results[i] == values[i]
      ensures forall i :: 0 <= i < |ids| && !(lo <= i < hi) ==> results[i] == old(results[i])
    {
      peak := 0;
      var pending := Indices(lo, hi);
      var running: set<nat> := {};
      while pending != {}
        invariant running <= pending && forall i :: i in pending ==> lo <= i < hi
        invariant semaphore + |running| == maxConcurrent && peak <= maxConcurrent
        invariant forall i :: lo <= i < hi && i !in pending ==> results[i] == values[i]
        invariant forall i :: 0 <= i < |ids| && !(lo <= i < hi) ==> results[i] == old(results[i])
        decreases |pending|, |pending - running|
      {
        var enter, i := Choose(pending, running, semaphore);
        Moves(pending, running, i);
        if enter {
          semaphore := semaphore - 1;
          running := running + {i};
          peak := if |running| > peak then |running| else peak;
        } else {
          var r := Some(f(ids[i]));
          assert r == values[i];
          results[i] := r;
          pending, running := pending - {i}, running - {i};
          semaphore := semaphore + 1;
        }
      }
    }

    /**
     * process_all: for every choice of the event loop the results in input order, and
     * never too many tasks in flight; for sizes below one, what Python makes of them.
     */
    method ProcessAll<T, R>(ids: seq<T>, f: T -> R) returns (outcome: Outcome<R>, ghost peak: nat)
      requires Valid()
      modifies this
      ensures Valid()
      ensures outcome == Expected(ids, f, maxConcurrent, maxBatchSize)
      ensures peak <= maxConcurrent
    {
      peak := 0;
      var results := new Option<R>[|ids|](_ => None);
      if maxBatchSize == 0 {
        return ZeroStep, 0;
      }
      if maxBatchSize < 0 {
        assert results[..] == seq(|ids|, _ => None);
        return Returned(results[..]), 0;
      }
      if maxConcurrent == 0 && ids != [] {
        return NeverReturns, 0;
      }
      var batchStart := 0;
      while batchStart < |ids|
        invariant Valid() && peak <= maxConcurrent && fresh(results) && results.Length == |ids|
        invariant forall i :: 0 <= i < |ids| && i < batchStart ==> results[i] == Values(ids, f)[i]
        decreases |ids| - batchStart
      {
        var batchEnd := if batchStart + maxBatchSize < |ids| then batchStart + maxBatchSize else |ids|;
        ghost var p := RunBatch(ids, f, results, batchStart, batchEnd, Values(ids, f));
        peak := if p > peak then p else peak;
        batchStart := batchStart + maxBatchSize;
      }
      assert results[..] == Values(ids, f);
      outcome := Returned(results[..]);
    }
  }
}
