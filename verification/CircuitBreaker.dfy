/**
 * The circuit breaker of libs/shared/circuit_breaker.py. An async call is two steps,
 * its admission and its end, so calls overlap freely: a call admitted while closed may
 * end while the circuit is open or half-open.
 */
module CircuitBreaker {
  import opened Prelude

  datatype CircuitState = Closed | Open | HalfOpen

  datatype Breaker = Breaker(threshold: int, timeout: real, state: CircuitState, failures: nat,
                             lastFailure: real, halfOpenAttempts: nat, inFlight: nat)

  datatype Rejection = IsOpen | IsHalfOpen

  function New(threshold: int, timeout: real): Breaker {
    Breaker(threshold, timeout, Closed, 0, 0.0, 0, 0)
  }

  /** The state property: an open circuit whose timeout has passed becomes half-open. */
  function Looked(b: Breaker, now: real): Breaker {
    if b.state == Open && now - b.lastFailure >= b.timeout then b.(state := HalfOpen, halfOpenAttempts := 0) else b
  }

  /** call, up to the await. */
  function Started(b: Breaker, now: real): (Breaker, Option<Rejection>) {
    var c := Looked(b, now);
    if c.state == Open then (c, Some(IsOpen))
    else if c.state == HalfOpen then
      var d := c.(halfOpenAttempts := c.halfOpenAttempts + 1);
      if d.halfOpenAttempts > 1 then (d, Some(IsHalfOpen)) else (d.(inFlight := d.inFlight + 1), None)
    else (c.(inFlight := c.inFlight + 1), None)
  }

  function Succeeded(b: Breaker): Breaker
    requires b.inFlight > 0
  {
    var c := b.(inFlight := b.inFlight - 1);
    if c.state == HalfOpen then c.(state := Closed, failures := 0)
    else if c.state == Closed then c.(failures := 0)
    else c
  }

  function FailedAt(b: Breaker, now: real): Breaker
    requires b.inFlight > 0
  {
    var c := b.(inFlight := b.inFlight - 1, failures := b.failures + 1, lastFailure := now);
    if c.state == HalfOpen then c.(state := Open)
    else if c.failures >= c.threshold then c.(state := Open)
    else c
  }

  /** The breaker as an object; the admission and the end of a call are separate methods. */
  class Circuit {
    const failureThreshold: int
    const resetTimeout: real
    var state: CircuitState
    var failureCount: nat
    var lastFailureTime: real
    var halfOpenAttempts: nat
    ghost var inFlight: nat

    ghost function Value(): Breaker
      reads this
    {
      Breaker(failureThreshold, resetTimeout, state, failureCount, lastFailureTime, halfOpenAttempts, inFlight)
    }

    constructor (failureThreshold: int, resetTimeout: real)
      ensures Value() == New(failureThreshold, resetTimeout)
    {
      this.failureThreshold := failureThreshold;
      this.resetTimeout := resetTimeout;
      state := Closed;
      failureCount := 0;
      lastFailureTime := 0.0;
      halfOpenAttempts := 0;
      inFlight := 0;
    }

    method State(now: real) returns (s: CircuitState)
      modifies this
      ensures Value() == Looked(old(Value()), now) && s == state
    {
      if state == Open && now - lastFailureTime >= resetTimeout {
        state := HalfOpen;
        halfOpenAttempts := 0;
      }
      s := state;
    }

    method Start(now: real) returns (rejected: Option<Rejection>)
      modifies this
      ensures (Value(), rejected) == Started(old(Value()), now)
    {
      var current := State(now);
      if current == Open {
        return Some(IsOpen);
      }
      if current == HalfOpen {
        halfOpenAttempts := halfOpenAttempts + 1;
        if halfOpenAttempts > 1 {
          return Some(IsHalfOpen);
        }
      }
      inFlight := inFlight + 1;
      rejected := None;
    }

    method OnSuccess()
      requires inFlight > 0
      modifies this
      ensures Value() == Succeeded(old(Value()))
    {
      inFlight := inFlight - 1;
      if state == HalfOpen {
        state := Closed;
        failureCount := 0;
      } else if state == Closed {
        failureCount := 0;
      }
    }

    method OnFailure(now: real)
      requires inFlight > 0
      modifies this
      ensures Value() == FailedAt(old(Value()), now)
    {
      inFlight := inFlight - 1;
      failureCount := failureCount + 1;
      lastFailureTime := now;
      if state == HalfOpen {
        state := Open;
      } else if failureCount >= failureThreshold {
        state := Open;
      }
    }

    method Reset()
      modifies this
      ensures Value() == old(Value()).(state := Closed, failures := 0)
    {
      state := Closed;
      failureCount := 0;
    }
  }

  // ------------------------------------------------------------------ Runs

  /** Cancel: the awaited call is cancelled, which is not an Exception and runs neither handler. */
  datatype Step = Look(now: real) | Start(now: real) | Succeed | Fail(now: real) | Cancel | Reset

  predicate Enabled(b: Breaker, step: Step) {
    (step.Succeed? || step.Fail? || step.Cancel?) ==> b.inFlight > 0
  }

  function Apply(b: Breaker, step: Step): Breaker
    requires Enabled(b, step)
  {
    match step
    case Look(now) => Looked(b, now)
    case Start(now) => Started(b, now).0
    case Succeed => Succeeded(b)
    case Fail(now) => FailedAt(b, now)
    case Cancel => b.(inFlight := b.inFlight - 1)
    case Reset => b.(state := Closed, failures := 0)
  }

  predicate Admits(b: Breaker, step: Step) {
    step.Start? && Started(b, step.now).1 == None
  }

  ghost predicate Run(states: seq<Breaker>, steps: seq<Step>) {
    && |states| == |steps| + 1
    && forall i :: 0 <= i < |steps| ==> Enabled(states[i], steps[i]) && states[i + 1] == Apply(states[i], steps[i])
  }

  /** Failures since the last success or reset among the first n steps. */
  function FailuresSince(steps: seq<Step>, n: nat): nat
    requires n <= |steps|
  {
    if n == 0 then 0
    else
      match steps[n - 1]
      case Fail(_) => FailuresSince(steps, n - 1) + 1
      case Succeed => 0
      case Reset => 0
      case _ => FailuresSince(steps, n - 1)
  }

  ghost predicate Sane(b: Breaker) {
    b.state == Closed <==> b.failures < b.threshold
  }

  lemma {:induction false} CountsFailures(states: seq<Breaker>, steps: seq<Step>, threshold: int, timeout: real, n: nat)
    requires Run(states, steps) && states[0] == New(threshold, timeout) && n < |states|
    ensures states[n].threshold == threshold && states[n].timeout == timeout
    ensures states[n].state == Closed ==> states[n].failures == FailuresSince(steps, n)
    ensures threshold >= 1 ==> Sane(states[n])
    decreases n
  {
    if n > 0 {
      CountsFailures(states, steps, threshold, timeout, n - 1);
      assert Enabled(states[n - 1], steps[n - 1]);
    }
  }

  /**
   * In every interleaving, the circuit is closed exactly while fewer failures than the
   * threshold were counted; this needs a threshold of at least one, which the
   * constructor does not check.
   */
  lemma ClosedIffBelowThreshold(threshold: int, timeout: real)
    ensures threshold >= 1 <==>
              forall states, steps, n: nat :: Run(states, steps) && states[0] == New(threshold, timeout) && n < |states| ==> Sane(states[n])
  {
    if threshold >= 1 {
      forall states, steps, n: nat | Run(states, steps) && states[0] == New(threshold, timeout) && n < |states|
        ensures Sane(states[n])
      {
        CountsFailures(states, steps, threshold, timeout, n);
      }
    } else {
      var states, steps: seq<Step> := [New(threshold, timeout)], [];
      assert Run(states, steps) && !Sane(states[0]);
    }
  }

  // ------------------------------------------------------- Half-open periods

  /** Calls admitted by the steps from i up to j. */
  function Admitted(states: seq<Breaker>, steps: seq<Step>, i: nat, j: nat): nat
    requires i <= j <= |steps| < |states|
    decreases j
  {
    if i == j then 0 else Admitted(states, steps, i, j - 1) + (if Admits(states[j - 1], steps[j - 1]) then 1 else 0)
  }

  lemma {:induction false} AttemptsCountAdmissions(states: seq<Breaker>, steps: seq<Step>, i: nat, j: nat)
    requires Run(states, steps) && i < j < |states|
    requires forall k :: i < k <= j ==> states[k].state == HalfOpen
    ensures Admitted(states, steps, i, j) <= 1
    ensures Admitted(states, steps, i, j) == 1 ==> states[j].halfOpenAttempts >= 1
    decreases j
  {
    assert Enabled(states[j - 1], steps[j - 1]);
    if j == i + 1 {
      assert Admitted(states, steps, i, i) == 0;
    } else {
      AttemptsCountAdmissions(states, steps, i, j - 1);
    }
  }

  /**
   * A half-open period, from the step that enters it on, admits at most one call,
   * however the ends of older calls interleave with it.
   */
  lemma HalfOpenAdmitsOne(states: seq<Breaker>, steps: seq<Step>, i: nat, j: nat)
    requires Run(states, steps) && i < j < |states|
    requires forall k :: i < k <= j ==> states[k].state == HalfOpen
    ensures Admitted(states, steps, i, j) <= 1
  {
    AttemptsCountAdmissions(states, steps, i, j);
  }

  // ----------------------------------------------------------- Cooling down

  /** The clock is monotonic across the steps that read it. */
  ghost predicate ClockRises(steps: seq<Step>) {
    forall i, j :: 0 <= i < j < |steps| && HasTime(steps[i]) && HasTime(steps[j]) ==> steps[i].now <= steps[j].now
  }

  predicate HasTime(step: Step) {
    step.Look? || step.Start? || step.Fail?
  }

  lemma {:induction false} LastFailureIsLatest(states: seq<Breaker>, steps: seq<Step>, n: nat, k: nat)
    requires Run(states, steps) && ClockRises(steps) && k < n < |states| && steps[k].Fail?
    ensures states[n].lastFailure >= steps[k].now
    decreases n
  {
    assert Enabled(states[n - 1], steps[n - 1]);
    if k < n - 1 {
      LastFailureIsLatest(states, steps, n - 1, k);
    }
  }

  lemma {:induction false} TimeoutStays(states: seq<Breaker>, steps: seq<Step>, n: nat)
    requires Run(states, steps) && n < |states|
    ensures states[n].timeout == states[0].timeout
    decreases n
  {
    if n > 0 {
      assert Enabled(states[n - 1], steps[n - 1]);
      TimeoutStays(states, steps, n - 1);
    }
  }

  /** While the circuit is open no call is admitted within the timeout of any earlier failure. */
  lemma NoCallWhileCooling(states: seq<Breaker>, steps: seq<Step>, n: nat, k: nat)
    requires Run(states, steps) && ClockRises(steps) && k < n < |steps|
    requires steps[k].Fail? && states[n].state == Open && Admits(states[n], steps[n])
    ensures steps[n].now - steps[k].now >= states[0].timeout
  {
    LastFailureIsLatest(states, steps, n, k);
    TimeoutStays(states, steps, n);
  }

  // -------------------------------------------------------- Cancelled trials

  /**
   * A trial that is cancelled closes the door: with the trial used up and no call left to
   * end, nothing but a manual reset is ever admitted or changes the state again.
   */
  lemma {:induction false} CancelledTrialBlocks(states: seq<Breaker>, steps: seq<Step>, i: nat, n: nat)
    requires Run(states, steps) && i <= n < |states|
    requires states[i].state == HalfOpen && states[i].halfOpenAttempts >= 1 && states[i].inFlight == 0
    requires forall k :: i <= k < n ==> !steps[k].Reset?
    ensures states[n].state == HalfOpen && states[n].halfOpenAttempts >= 1 && states[n].inFlight == 0
    ensures n < |steps| ==> !Admits(states[n], steps[n])
    decreases n
  {
    if n > i {
      CancelledTrialBlocks(states, steps, i, n - 1);
      assert Enabled(states[n - 1], steps[n - 1]);
    }
  }

  /** A half-open circuit whose trial is used up and that has no call left to end. */
  predicate Blocked(b: Breaker) {
    b.state == HalfOpen && b.halfOpenAttempts >= 1 && b.inFlight == 0
  }

  /** Some run from b admits a call before any manual reset. */
  ghost predicate AdmitsLater(b: Breaker) {
    exists states: seq<Breaker>, steps: seq<Step>, n: nat ::
      Run(states, steps) && states[0] == b && n < |steps| && (forall k :: 0 <= k < n ==> !steps[k].Reset?) && Admits(states[n], steps[n])
  }

  /**
   * After the trial is used up the circuit is stuck until a manual reset exactly when no
   * older call is still in flight: only the end of such a call can move it on.
   */
  lemma StuckIff(b: Breaker)
    requires b.state == HalfOpen && b.halfOpenAttempts >= 1
    ensures !AdmitsLater(b) <==> b.inFlight == 0
  {
    if b.inFlight == 0 {
      forall states: seq<Breaker>, steps: seq<Step>, n: nat | Run(states, steps) && states[0] == b && n < |steps| && (forall k :: 0 <= k < n ==> !steps[k].Reset?)
        ensures !Admits(states[n], steps[n])
      {
        CancelledTrialBlocks(states, steps, 0, n);
      }
    } else {
      var closed := Succeeded(b);
      var states, steps := [b, closed, Started(closed, 0.0).0], [Succeed, Start(0.0)];
      assert Run(states, steps) && states[0] == b && Admits(states[1], steps[1]);
    }
  }

  ghost predicate Reaches(b: Breaker, c: Breaker) {
    exists states, steps :: Run(states, steps) && states[0] == b && states[|states| - 1] == c
  }

  lemma ReachStep(b: Breaker, c: Breaker, step: Step)
    requires Reaches(b, c) && Enabled(c, step)
    ensures Reaches(b, Apply(c, step))
  {
    hide Apply, Enabled;
    var states, steps :| Run(states, steps) && states[0] == b && states[|states| - 1] == c;
    var states', steps' := states + [Apply(c, step)], steps + [step];
    forall i | 0 <= i < |steps'|
      ensures Enabled(states'[i], steps'[i]) && states'[i + 1] == Apply(states'[i], steps'[i])
    {
      if i < |steps| {
        assert Enabled(states[i], steps[i]);
      }
    }
    assert Run(states', steps') && states'[0] == b && states'[|states'| - 1] == Apply(c, step);
  }

  /** n failed calls in a row, the circuit still closed or just opened. */
  lemma {:induction false} FailsInARow(threshold: int, timeout: real, n: nat)
    requires n <= 1 || n <= threshold
    ensures Reaches(New(threshold, timeout), Breaker(threshold, timeout, if n >= 1 && n >= threshold then Open else Closed, n, 0.0, 0, 0))
    decreases n
  {
    if n == 0 {
      var states, steps: seq<Step> := [New(threshold, timeout)], [];
      assert Run(states, steps) && states[0] == New(threshold, timeout) && states[|states| - 1] == New(threshold, timeout);
    } else {
      FailsInARow(threshold, timeout, n - 1);
      var b := Breaker(threshold, timeout, Closed, n - 1, 0.0, 0, 0);
      ReachStep(New(threshold, timeout), b, Start(0.0));
      ReachStep(New(threshold, timeout), Started(b, 0.0).0, Fail(0.0));
    }
  }

  /** For every threshold and timeout a cancelled trial really leads to the stuck state. */
  lemma CancelledTrialIsReachable(threshold: int, timeout: real) returns (b: Breaker)
    ensures Reaches(New(threshold, timeout), b) && Blocked(b) && !AdmitsLater(b)
  {
    var n: nat := if threshold <= 1 then 1 else threshold;
    FailsInARow(threshold, timeout, n);
    var open := Breaker(threshold, timeout, Open, n, 0.0, 0, 0);
    ReachStep(New(threshold, timeout), open, Start(timeout));
    var trial := Started(open, timeout).0;
    ReachStep(New(threshold, timeout), trial, Cancel);
    b := Apply(trial, Cancel);
    StuckIff(b);
  }
}
