// server/internal/gateway/circuit_breaker.go, Retry and ResilientExecutor: repeated
// attempts with growing waits, under the breaker. What an attempt returns and whether
// the caller's context ends a wait are parameters, and so is the floating-point
// multiplication of a duration by the back-off multiplier.
module Resilience {
  import opened CircuitBreaker

  datatype Attempt = Succeeds | Fails(retryable: bool)

  datatype RetryConfig = RetryConfig(
    maxAttempts: int, initialBackoff: int, maxBackoff: int, multiplied: int -> int)

  datatype Outcome = Returned(attempt: nat) | NotRetryable(attempt: nat) | Cancelled(attempt: nat) | ErrTooManyRetries

  // The wait after attempt k + 1. The first one is not capped.
  function Backoff(c: RetryConfig, k: nat): int {
    if k == 0 then c.initialBackoff else Cap(c.multiplied(Backoff(c, k - 1)), c.maxBackoff)
  }

  function Cap(x: int, max: int): int {
    if x > max then max else x
  }

  // Attempts 1 to k failed in a way worth retrying, and no wait between was ended.
  ghost predicate KeptTrying(attempts: nat -> Attempt, interrupted: nat -> bool, k: nat) {
    forall j :: 1 <= j <= k ==> attempts(j) == Fails(true) && !interrupted(j)
  }

  // The outcome the attempts lead to: the first of them that succeeds or is not worth
  // retrying, the first wait that is ended, or all attempts failed.
  ghost predicate LeadsTo(c: RetryConfig, attempts: nat -> Attempt, interrupted: nat -> bool, r: Outcome) {
    match r
    case Returned(k) =>
      1 <= k <= c.maxAttempts && KeptTrying(attempts, interrupted, k - 1) && attempts(k) == Succeeds
    case NotRetryable(k) =>
      1 <= k <= c.maxAttempts && KeptTrying(attempts, interrupted, k - 1) && attempts(k) == Fails(false)
    case Cancelled(k) =>
      1 <= k < c.maxAttempts && KeptTrying(attempts, interrupted, k - 1)
      && attempts(k) == Fails(true) && interrupted(k)
    case ErrTooManyRetries =>
      c.maxAttempts >= 1 ==> KeptTrying(attempts, interrupted, c.maxAttempts - 1)
                             && attempts(c.maxAttempts) == Fails(true)
  }

  // The attempts lead to one outcome only.
  lemma OneOutcome(c: RetryConfig, attempts: nat -> Attempt, interrupted: nat -> bool, r: Outcome, r': Outcome)
    requires LeadsTo(c, attempts, interrupted, r) && LeadsTo(c, attempts, interrupted, r')
    ensures r == r'
  {
  }

  method Retry(c: RetryConfig, attempts: nat -> Attempt, interrupted: nat -> bool)
    returns (r: Outcome, waits: seq<int>)
    ensures LeadsTo(c, attempts, interrupted, r)
    ensures |waits| == match r
                       case Returned(k) => k - 1
                       case NotRetryable(k) => k - 1
                       case Cancelled(k) => k
                       case ErrTooManyRetries => if c.maxAttempts >= 1 then c.maxAttempts - 1 else 0
    ensures forall k :: 0 <= k < |waits| ==> waits[k] == Backoff(c, k)
    ensures waits != [] ==> waits[0] == c.initialBackoff
  {
    waits := [];
    var backoff := c.initialBackoff;
    var attempt: nat := 1;
    while attempt <= c.maxAttempts
      invariant if c.maxAttempts >= 1 then 1 <= attempt <= c.maxAttempts else attempt == 1
      invariant KeptTrying(attempts, interrupted, attempt - 1)
      invariant |waits| == attempt - 1 && backoff == Backoff(c, attempt - 1)
      invariant forall k :: 0 <= k < |waits| ==> waits[k] == Backoff(c, k)
      decreases c.maxAttempts - attempt
    {
      var result := attempts(attempt);
      if result.Succeeds? {
        return Returned(attempt), waits;
      }
      if !result.retryable {
        return NotRetryable(attempt), waits;
      }
      if attempt == c.maxAttempts {
        break;
      }
      waits := waits + [backoff];
      if interrupted(attempt) {
        return Cancelled(attempt), waits;
      }
      backoff := c.multiplied(backoff);
      if backoff > c.maxBackoff {
        backoff := c.maxBackoff;
      }
      attempt := attempt + 1;
    }
    return ErrTooManyRetries, waits;
  }

  function Exponential(c: RetryConfig, k: nat): int {
    if k == 0 then c.initialBackoff else c.multiplied(Exponential(c, k - 1))
  }

  // The multiplier is at least one.
  ghost predicate NeverShrinks(c: RetryConfig) {
    forall x :: x >= 0 ==> c.multiplied(x) >= x
  }

  // When the multiplier is at least one, every wait but the first is the exponential
  // one cut at maxBackoff: cutting on the way makes no difference.
  lemma {:induction false} BackoffIsExponential(c: RetryConfig, k: nat)
    requires c.initialBackoff >= 0 && c.maxBackoff >= 0 && NeverShrinks(c)
    ensures Exponential(c, k) >= 0
    ensures k >= 1 ==> Backoff(c, k) == Cap(Exponential(c, k), c.maxBackoff)
  {
    if k > 0 {
      BackoffIsExponential(c, k - 1);
      assert c.multiplied(Exponential(c, k - 1)) >= Exponential(c, k - 1);
      assert c.multiplied(c.maxBackoff) >= c.maxBackoff;
    }
  }

  // Whatever the multiplier: no wait but the first is over maxBackoff, and none is over
  // the exponential one as long as larger durations have larger products.
  lemma {:induction false} BackoffBounded(c: RetryConfig, k: nat)
    requires forall x, y :: x <= y ==> c.multiplied(x) <= c.multiplied(y)
    ensures k >= 1 ==> Backoff(c, k) <= c.maxBackoff
    ensures Backoff(c, k) <= Exponential(c, k)
  {
    if k > 0 {
      BackoffBounded(c, k - 1);
    }
  }

  lemma TwoSteps(c: Config, b: Breaker, d: Event, e: Event)
    ensures Run(c, b, [d, e]) == Step(c, Step(c, b, d.action, d.now), e.action, e.now)
  {
    assert [d][..0] == [] && Run(c, b, [d]) == Step(c, b, d.action, d.now);
    assert [d, e][..1] == [d];
  }

  // The executor: one admission, the retries, one record.
  datatype ExecuteResult = ErrCircuitOpen | Executed(outcome: Outcome)

  method Execute(breaker: CircuitBreaker, c: RetryConfig, attempts: nat -> Attempt, interrupted: nat -> bool,
                 admittedAt: int, doneAt: int)
    returns (r: ExecuteResult, ghost steps: seq<Event>)
    modifies breaker
    ensures r == ErrCircuitOpen <==> !Admits(breaker.config, old(breaker.Abs()), admittedAt)
    ensures steps == [Event(Allow, admittedAt)]
                     + (if r == ErrCircuitOpen then []
                        else [Event(if r.outcome.Returned? then Action.Success else Failure, doneAt)])
    ensures Disciplined(breaker.config, old(breaker.Abs()), 0, steps) && NoReset(steps)
    ensures breaker.Abs() == Run(breaker.config, old(breaker.Abs()), steps)
    ensures !r.ErrCircuitOpen? ==> LeadsTo(c, attempts, interrupted, r.outcome)
  {
    ghost var b := breaker.Abs();
    steps := [Event(Allow, admittedAt)];
    var ok := breaker.Allow(admittedAt);
    assert steps[1..] == [] && steps[..0] == [];
    if !ok {
      return ErrCircuitOpen, steps;
    }
    var outcome, waits := Retry(c, attempts, interrupted);
    var e := Event(if outcome.Returned? then Action.Success else Failure, doneAt);
    if outcome.Returned? {
      breaker.RecordSuccess(doneAt);
    } else {
      breaker.RecordFailure(doneAt);
    }
    steps := steps + [e];
    assert steps[1..] == [e] && steps[1..][1..] == [];
    TwoSteps(breaker.config, b, Event(Allow, admittedAt), e);
    r := Executed(outcome);
  }

  // ------------------------------------------------ calls that run at the same time

  datatype Call = Idle | Trying

  datatype Calls = Calls(b: Breaker, calls: seq<Call>)

  // A step of one of the calls of Execute, or a Reset from outside.
  datatype Move = Admit(w: nat, now: int) | Finish(w: nat, success: bool, now: int) | ResetBreaker(now: int)

  predicate CanMove(s: Calls, m: Move) {
    match m
    case Admit(w, _) => w < |s.calls| && s.calls[w].Idle?
    case Finish(w, _, _) => w < |s.calls| && s.calls[w].Trying?
    case ResetBreaker(_) => true
  }

  function EventOf(m: Move): Event {
    match m
    case Admit(_, now) => Event(Allow, now)
    case Finish(_, success, now) => Event(if success then Action.Success else Failure, now)
    case ResetBreaker(now) => Event(Reset, now)
  }

  function Moved(c: Config, s: Calls, m: Move): Calls
    requires CanMove(s, m)
  {
    var b := Step(c, s.b, EventOf(m).action, EventOf(m).now);
    match m
    case Admit(w, now) => Calls(b, s.calls[w := if Admits(c, s.b, now) then Trying else Idle])
    case Finish(w, _, _) => Calls(b, s.calls[w := Idle])
    case ResetBreaker(_) => Calls(b, s.calls)
  }

  ghost predicate CanMoveAll(c: Config, s: Calls, moves: seq<Move>)
    decreases |moves|
  {
    moves == [] || (CanMove(s, moves[0]) && CanMoveAll(c, Moved(c, s, moves[0]), moves[1..]))
  }

  ghost function MovedAll(c: Config, s: Calls, moves: seq<Move>): Calls
    requires CanMoveAll(c, s, moves)
    decreases |moves|
  {
    if moves == [] then s else MovedAll(c, Moved(c, s, moves[0]), moves[1..])
  }

  function EventsOf(moves: seq<Move>): seq<Event> {
    if moves == [] then [] else [EventOf(moves[0])] + EventsOf(moves[1..])
  }

  // How many calls are admitted and not recorded yet.
  function Running(calls: seq<Call>): nat {
    if calls == [] then 0 else Running(calls[..|calls| - 1]) + (if calls[|calls| - 1].Trying? then 1 else 0)
  }

  lemma {:induction false} RunningUpdate(calls: seq<Call>, w: nat, x: Call)
    requires w < |calls|
    ensures Running(calls[w := x])
            == Running(calls) - (if calls[w].Trying? then 1 else 0) + (if x.Trying? then 1 else 0)
  {
    var n := |calls| - 1;
    if w < n {
      RunningUpdate(calls[..n], w, x);
      assert calls[w := x][..n] == calls[..n][w := x];
    } else {
      assert calls[w := x][..n] == calls[..n];
    }
  }

  // Any interleaving of any number of calls of Execute is a disciplined run of the
  // breaker, with the calls that are running as its outstanding requests.
  lemma {:induction false} InterleavedIsDisciplined(c: Config, s: Calls, moves: seq<Move>)
    requires CanMoveAll(c, s, moves)
    ensures Disciplined(c, s.b, Running(s.calls), EventsOf(moves))
    ensures MovedAll(c, s, moves).b == Run(c, s.b, EventsOf(moves))
    decreases |moves|
  {
    if moves != [] {
      var m, next := moves[0], Moved(c, s, moves[0]);
      InterleavedIsDisciplined(c, next, moves[1..]);
      if !m.ResetBreaker? {
        RunningUpdate(s.calls, m.w, next.calls[m.w]);
      }
      assert EventsOf(moves)[0] == EventOf(m) && EventsOf(moves)[1..] == EventsOf(moves[1..]);
      RunPeel(c, s.b, EventsOf(moves));
    }
  }
}
