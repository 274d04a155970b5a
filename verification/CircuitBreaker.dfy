// server/internal/gateway/circuit_breaker.go: the breaker as a timed state machine.
// Each locked section is one step at one instant. None of the results below needs the
// instants of a run to be increasing.
module CircuitBreaker {

  // HalfOpen is only ever computed from the clock, never stored.
  datatype CircuitState = Closed | Open | HalfOpen

  datatype Config = Config(
    failureThreshold: int, successThreshold: int, openTimeout: int, halfOpenMaxRequests: int)

  datatype Breaker = Breaker(
    state: CircuitState, failures: int, successes: int, lastFailureTime: int, halfOpenRequests: int)

  const NEW := Breaker(Closed, 0, 0, 0, 0)

  ghost predicate Positive(c: Config) {
    c.failureThreshold >= 1 && c.successThreshold >= 1 && c.openTimeout >= 1 && c.halfOpenMaxRequests >= 1
  }

  // ------------------------------------------------------------------- steps

  function CurrentState(c: Config, b: Breaker, now: int): CircuitState {
    if b.state == Open && now - b.lastFailureTime >= c.openTimeout then HalfOpen else b.state
  }

  function Transition(b: Breaker, newState: CircuitState): Breaker {
    if b.state == newState then b
    else match newState
      case Closed => b.(state := Closed, failures := 0, successes := 0)
      case Open => b.(state := Open, halfOpenRequests := 0)
      case HalfOpen => b.(state := HalfOpen, successes := 0, halfOpenRequests := 0)
  }

  function Admits(c: Config, b: Breaker, now: int): bool {
    match CurrentState(c, b, now)
    case Closed => true
    case Open => false
    case HalfOpen => b.halfOpenRequests < c.halfOpenMaxRequests
  }

  datatype Action = Allow | Success | Failure | Reset

  function AfterAllow(c: Config, b: Breaker, now: int): Breaker {
    if CurrentState(c, b, now) == HalfOpen && Admits(c, b, now)
    then b.(halfOpenRequests := b.halfOpenRequests + 1)
    else b
  }

  function AfterSuccess(c: Config, b: Breaker, now: int): Breaker {
    var b := b.(failures := 0);
    if CurrentState(c, b, now) == HalfOpen then
      var b := b.(successes := b.successes + 1);
      if b.successes >= c.successThreshold then Transition(b, Closed) else b
    else b
  }

  // The failure time is overwritten before the state is read.
  function AfterFailure(c: Config, b: Breaker, now: int): Breaker {
    var b := b.(failures := b.failures + 1, lastFailureTime := now, successes := 0);
    match CurrentState(c, b, now)
    case Closed => if b.failures >= c.failureThreshold then Transition(b, Open) else b
    case Open => b
    case HalfOpen => Transition(b, Open)
  }

  // The same with the state read first.
  function AfterFailureReadFirst(c: Config, b: Breaker, now: int): Breaker {
    var state := CurrentState(c, b, now);
    var b := b.(failures := b.failures + 1, lastFailureTime := now, successes := 0);
    match state
    case Closed => if b.failures >= c.failureThreshold then Transition(b, Open) else b
    case Open => b
    case HalfOpen => Transition(b, Open)
  }

  // The order makes no difference: half-open is not stored, so the transition to open
  // finds the breaker open and returns before it resets the probes.
  lemma FailedProbeKeepsBudget(c: Config, b: Breaker, now: int)
    requires b.state != HalfOpen
    ensures AfterFailure(c, b, now) == AfterFailureReadFirst(c, b, now)
    ensures b.state == Open ==>
              Transition(b, Open) == b
              && AfterFailure(c, b, now) == b.(failures := b.failures + 1, lastFailureTime := now, successes := 0)
  {
  }

  function AfterReset(b: Breaker): Breaker {
    b.(state := Closed, failures := 0, successes := 0, halfOpenRequests := 0)
  }

  function Step(c: Config, b: Breaker, a: Action, now: int): Breaker {
    match a
    case Allow => AfterAllow(c, b, now)
    case Success => AfterSuccess(c, b, now)
    case Failure => AfterFailure(c, b, now)
    case Reset => AfterReset(b)
  }

  // ------------------------------------------------------------- the object

  datatype Change = Change(from: CircuitState, to: CircuitState)

  function Changed(from: CircuitState, to: CircuitState): seq<Change> {
    if from == to then [] else [Change(from, to)]
  }

  class CircuitBreaker {
    const config: Config
    var state: CircuitState
    var failures: int
    var successes: int
    var lastFailureTime: int
    var halfOpenRequests: int
    var changes: seq<Change>     // what the callback was told

    ghost function Abs(): Breaker
      reads this
    {
      Breaker(state, failures, successes, lastFailureTime, halfOpenRequests)
    }

    constructor (config: Config)
      ensures this.config == config && Abs() == NEW && changes == []
    {
      this.config := config;
      state, failures, successes, lastFailureTime, halfOpenRequests, changes := Closed, 0, 0, 0, 0, [];
    }

    method Current(now: int) returns (s: CircuitState)
      ensures s == CurrentState(config, Abs(), now)
    {
      if state == Open {
        if now - lastFailureTime >= config.openTimeout {
          return HalfOpen;
        }
      }
      return state;
    }

    method Allow(now: int) returns (ok: bool)
      modifies this
      ensures ok == Admits(config, old(Abs()), now)
      ensures old(state) == Closed ==> ok
      ensures old(state) == Open ==>
                (ok <==> now - old(lastFailureTime) >= config.openTimeout
                         && old(halfOpenRequests) < config.halfOpenMaxRequests)
      ensures Abs() == Step(config, old(Abs()), Action.Allow, now) && changes == old(changes)
    {
      var s := Current(now);
      match s
      case Closed => return true;
      case Open => return false;
      case HalfOpen =>
        if halfOpenRequests >= config.halfOpenMaxRequests {
          return false;
        }
        halfOpenRequests := halfOpenRequests + 1;
        return true;
    }

    method RecordSuccess(now: int)
      modifies this
      ensures Abs() == Step(config, old(Abs()), Success, now)
      ensures changes == old(changes) + Changed(old(state), state)
    {
      failures := 0;
      var s := Current(now);
      if s == HalfOpen {
        successes := successes + 1;
        if successes >= config.successThreshold {
          MoveTo(Closed);
        }
      }
    }

    method RecordFailure(now: int)
      modifies this
      ensures Abs() == Step(config, old(Abs()), Failure, now)
      ensures changes == old(changes) + Changed(old(state), state)
    {
      failures := failures + 1;
      lastFailureTime := now;
      successes := 0;
      var s := Current(now);
      match s
      case Closed =>
        if failures >= config.failureThreshold {
          MoveTo(Open);
        }
      case Open =>
      case HalfOpen =>
        MoveTo(Open);
    }

    method MoveTo(newState: CircuitState)
      modifies this
      ensures Abs() == Transition(old(Abs()), newState)
      ensures changes == old(changes) + Changed(old(state), newState)
    {
      if state == newState {
        return;
      }
      changes := changes + [Change(state, newState)];
      state := newState;
      match newState
      case Closed =>
        failures := 0;
        successes := 0;
      case Open =>
        halfOpenRequests := 0;
      case HalfOpen =>
        successes := 0;
        halfOpenRequests := 0;
    }

    method Reset()
      modifies this
      ensures Abs() == AfterReset(old(Abs())) && changes == old(changes)
    {
      state := Closed;
      failures := 0;
      successes := 0;
      halfOpenRequests := 0;
    }
  }

  // -------------------------------------------------------------------- runs

  datatype Event = Event(action: Action, now: int)

  ghost function Run(c: Config, b: Breaker, run: seq<Event>): Breaker {
    if run == [] then b
    else var e := run[|run| - 1]; Step(c, Run(c, b, run[..|run| - 1]), e.action, e.now)
  }

  // How many of the given records close the run, not counting admissions.
  ghost function FailureStreak(run: seq<Event>): nat {
    if run == [] then 0
    else
      var rest := run[..|run| - 1];
      match run[|run| - 1].action
      case Allow => FailureStreak(rest)
      case Failure => FailureStreak(rest) + 1
      case Success => 0
      case Reset => 0
  }

  ghost function SuccessStreak(run: seq<Event>): nat {
    if run == [] then 0
    else
      var rest := run[..|run| - 1];
      match run[|run| - 1].action
      case Allow => SuccessStreak(rest)
      case Success => SuccessStreak(rest) + 1
      case Failure => 0
      case Reset => 0
  }

  // What every state of every run from a new breaker keeps: half-open is never
  // stored, the failure counter is the current streak of failures and stays below
  // the threshold while closed, and successes are counted only while open.
  ghost predicate RunInv(c: Config, b: Breaker, run: seq<Event>) {
    && b.state != HalfOpen
    && b.failures == FailureStreak(run)
    && (b.state == Closed ==> b.failures < c.failureThreshold && b.successes == 0)
    && 0 <= b.successes <= SuccessStreak(run)
    && (b.state == Open ==> b.successes < c.successThreshold)
    && 0 <= b.halfOpenRequests <= c.halfOpenMaxRequests
  }

  lemma {:induction false} RunKeepsInv(c: Config, run: seq<Event>)
    requires Positive(c)
    ensures RunInv(c, Run(c, NEW, run), run)
    decreases |run|
  {
    if run != [] {
      RunKeepsInv(c, run[..|run| - 1]);
    }
  }

  // The breaker trips on exactly the failure that completes a streak of
  // failureThreshold failures, and in no other way.
  lemma TripsOnThreshold(c: Config, run: seq<Event>, e: Event)
    requires Positive(c) && Run(c, NEW, run).state == Closed
    ensures Run(c, NEW, run + [e]).state == Open <==>
            e.action == Failure && FailureStreak(run + [e]) == c.failureThreshold
  {
    RunKeepsInv(c, run);
    assert (run + [e])[..|run|] == run;
  }

  // The instant of the last failure in the run.
  ghost function LastFailureAt(run: seq<Event>): int {
    if run == [] then 0
    else if run[|run| - 1].action == Failure then run[|run| - 1].now
    else LastFailureAt(run[..|run| - 1])
  }

  // The successes since the last failure or Reset that came no earlier than openTimeout
  // after the last failure.
  ghost function DueSuccesses(c: Config, run: seq<Event>): nat {
    if run == [] then 0
    else
      var rest, e := run[..|run| - 1], run[|run| - 1];
      match e.action
      case Allow => DueSuccesses(c, rest)
      case Success => DueSuccesses(c, rest) + (if e.now - LastFailureAt(rest) >= c.openTimeout then 1 else 0)
      case Failure => 0
      case Reset => 0
  }

  // The failure time is that of the history, and so are the successes while open.
  lemma {:induction false} RunHistory(c: Config, run: seq<Event>)
    requires Positive(c)
    ensures Run(c, NEW, run).lastFailureTime == LastFailureAt(run)
    ensures Run(c, NEW, run).state == Open ==> Run(c, NEW, run).successes == DueSuccesses(c, run)
    decreases |run|
  {
    if run != [] {
      RunHistory(c, run[..|run| - 1]);
      RunKeepsInv(c, run[..|run| - 1]);
    }
  }

  // It closes exactly by Reset or by a success, due itself, that completes
  // successThreshold due successes. A success before the timeout counts for nothing.
  lemma ClosesIff(c: Config, run: seq<Event>, e: Event)
    requires Positive(c) && Run(c, NEW, run).state == Open
    ensures Run(c, NEW, run + [e]).state == Closed <==>
            || e.action == Reset
            || (e.action == Success && e.now - LastFailureAt(run) >= c.openTimeout
                && DueSuccesses(c, run) + 1 == c.successThreshold)
  {
    RunKeepsInv(c, run);
    RunHistory(c, run);
    assert (run + [e])[..|run|] == run;
  }

  // So at least successThreshold successes come without a failure between them.
  lemma ClosesOnThreshold(c: Config, run: seq<Event>, e: Event)
    requires Positive(c) && Run(c, NEW, run).state == Open
    requires Run(c, NEW, run + [e]).state == Closed
    ensures e.action == Reset || (e.action == Success && SuccessStreak(run + [e]) >= c.successThreshold)
  {
    RunKeepsInv(c, run);
    assert (run + [e])[..|run|] == run;
  }

  // ----------------------------------------------------------- one open episode

  // Admissions granted by a run that starts from b.
  ghost function Admitted(c: Config, b: Breaker, run: seq<Event>): nat {
    if run == [] then 0
    else
      var rest, e := run[..|run| - 1], run[|run| - 1];
      Admitted(c, b, rest) + (if e.action == Allow && Admits(c, Run(c, b, rest), e.now) then 1 else 0)
  }

  ghost predicate StaysOpen(c: Config, b: Breaker, run: seq<Event>) {
    forall k :: 0 <= k <= |run| ==> Run(c, b, run[..k]).state == Open
  }

  // While the breaker stays open, every admission uses up one of its probes, and
  // nothing gives one back: failed probes do not.
  lemma {:induction false} EpisodeAdmissions(c: Config, b: Breaker, run: seq<Event>)
    requires Positive(c) && b.state == Open && 0 <= b.halfOpenRequests <= c.halfOpenMaxRequests
    requires StaysOpen(c, b, run)
    ensures Run(c, b, run).halfOpenRequests == b.halfOpenRequests + Admitted(c, b, run) <= c.halfOpenMaxRequests
    decreases |run|
  {
    if run != [] {
      var rest := run[..|run| - 1];
      forall k | 0 <= k <= |rest|
        ensures Run(c, b, rest[..k]).state == Open
      {
        assert rest[..k] == run[..k];
      }
      EpisodeAdmissions(c, b, rest);
      assert run[..|run|] == run;
    }
  }

  // A trip starts an episode with all its probes, so the episode admits at most
  // halfOpenMaxRequests requests.
  lemma EpisodeBound(c: Config, b: Breaker, now: int, run: seq<Event>)
    requires Positive(c) && b.state == Closed && Step(c, b, Failure, now).state == Open
    requires StaysOpen(c, Step(c, b, Failure, now), run)
    ensures Admitted(c, Step(c, b, Failure, now), run) <= c.halfOpenMaxRequests
  {
    EpisodeAdmissions(c, Step(c, b, Failure, now), run);
  }

  // The position of the trip an open breaker goes back to.
  lemma {:induction false} OpenSince(c: Config, run: seq<Event>) returns (trip: nat)
    requires Positive(c) && Run(c, NEW, run).state == Open
    ensures trip < |run| && Run(c, NEW, run[..trip]).state == Closed
    ensures forall k :: trip < k <= |run| ==> Run(c, NEW, run[..k]).state == Open
    decreases |run|
  {
    var rest := run[..|run| - 1];
    assert run[..|run|] == run;
    RunKeepsInv(c, rest);
    if Run(c, NEW, rest).state == Closed {
      trip := |run| - 1;
    } else {
      trip := OpenSince(c, rest);
      assert rest[..trip] == run[..trip];
      assert forall k :: trip < k <= |rest| ==> rest[..k] == run[..k];
    }
  }

  lemma {:induction false} RunConcat(c: Config, b: Breaker, pre: seq<Event>, post: seq<Event>)
    ensures Run(c, b, pre + post) == Run(c, Run(c, b, pre), post)
    decreases |post|
  {
    if post == [] {
      assert pre + post == pre;
    } else {
      var front := post[..|post| - 1];
      assert (pre + post)[..|pre + post| - 1] == pre + front;
      RunConcat(c, b, pre, front);
    }
  }

  // What was admitted between the trip at the given position and the end of the run.
  ghost function AdmittedSince(c: Config, run: seq<Event>, trip: nat): nat
    requires trip < |run|
  {
    Admitted(c, Run(c, NEW, run[..trip + 1]), run[trip + 1..])
  }

  lemma SpentSince(c: Config, run: seq<Event>, trip: nat)
    requires Positive(c) && trip < |run| && Run(c, NEW, run[..trip]).state == Closed
    requires forall k :: trip < k <= |run| ==> Run(c, NEW, run[..k]).state == Open
    ensures Run(c, NEW, run).halfOpenRequests == AdmittedSince(c, run, trip)
  {
    var start, post := Run(c, NEW, run[..trip + 1]), run[trip + 1..];
    forall k | 0 <= k <= |post|
      ensures Run(c, start, post[..k]).state == Open
    {
      assert run[..trip + 1 + k] == run[..trip + 1] + post[..k];
      RunConcat(c, NEW, run[..trip + 1], post[..k]);
    }
    assert run[..trip + 1][..trip] == run[..trip];
    EpisodeAdmissions(c, start, post);
    assert run == run[..trip + 1] + post;
    RunConcat(c, NEW, run[..trip + 1], post);
  }

  // The answer to a request, from the history alone: a closed breaker admits; an open one
  // refuses until openTimeout after the last failure, and then admits exactly while fewer
  // than halfOpenMaxRequests were admitted since it tripped.
  lemma AnswersIff(c: Config, run: seq<Event>, now: int) returns (trip: nat)
    requires Positive(c)
    ensures Run(c, NEW, run).state != Open ==> Admits(c, Run(c, NEW, run), now)
    ensures Run(c, NEW, run).state == Open ==>
              && trip < |run| && Run(c, NEW, run[..trip]).state == Closed
              && (forall k :: trip < k <= |run| ==> Run(c, NEW, run[..k]).state == Open)
              && (Admits(c, Run(c, NEW, run), now) <==>
                  now - LastFailureAt(run) >= c.openTimeout && AdmittedSince(c, run, trip) < c.halfOpenMaxRequests)
  {
    trip := 0;
    RunKeepsInv(c, run);
    RunHistory(c, run);
    if Run(c, NEW, run).state == Open {
      trip := OpenSince(c, run);
      SpentSince(c, run, trip);
    }
  }

  // ------------------------------------------------- starvation of the breaker

  // Execute records exactly once per admitted request, so a record needs an
  // outstanding request.
  ghost predicate Disciplined(c: Config, b: Breaker, outstanding: nat, run: seq<Event>)
    decreases |run|
  {
    run == [] ||
    var e := run[0];
    var next := Step(c, b, e.action, e.now);
    match e.action
    case Allow => Disciplined(c, next, outstanding + (if Admits(c, b, e.now) then 1 else 0), run[1..])
    case Success => outstanding > 0 && Disciplined(c, next, outstanding - 1, run[1..])
    case Failure => outstanding > 0 && Disciplined(c, next, outstanding - 1, run[1..])
    case Reset => Disciplined(c, next, outstanding, run[1..])
  }

  predicate NoReset(run: seq<Event>) {
    forall k :: 0 <= k < |run| ==> run[k].action != Reset
  }

  // The successes an open breaker can still collect.
  ghost function Potential(c: Config, b: Breaker, outstanding: nat): int {
    outstanding + (c.halfOpenMaxRequests - b.halfOpenRequests) + b.successes
  }

  lemma {:induction false} RunPeel(c: Config, b: Breaker, run: seq<Event>)
    requires run != []
    ensures Run(c, b, run) == Run(c, Step(c, b, run[0].action, run[0].now), run[1..])
    decreases |run|
  {
    if |run| > 1 {
      var front := run[..|run| - 1];
      RunPeel(c, b, front);
      assert front[1..] == run[1..][..|run| - 2];
    } else {
      assert run[..0] == [] && run[1..] == [];
    }
  }

  // The outstanding requests after a step.
  ghost function Left(c: Config, b: Breaker, outstanding: nat, e: Event): int {
    match e.action
    case Allow => outstanding + (if Admits(c, b, e.now) then 1 else 0)
    case Success => outstanding - 1
    case Failure => outstanding - 1
    case Reset => outstanding
  }

  // While the breaker is open no step raises the potential, and a failure lowers it.
  lemma PotentialFalls(c: Config, b: Breaker, outstanding: nat, e: Event)
    requires Positive(c) && b.state == Open && b.successes >= 0 && e.action != Reset
    requires 0 <= b.halfOpenRequests <= c.halfOpenMaxRequests
    ensures Potential(c, b, outstanding) - (if e.action == Failure then 1 else 0) >=
            Left(c, b, outstanding, e)
            + (c.halfOpenMaxRequests - Step(c, b, e.action, e.now).halfOpenRequests)
            + Step(c, b, e.action, e.now).successes
  {
  }

  // Once an open breaker can no longer collect successThreshold successes, no
  // disciplined run without Reset ever closes it again.
  lemma {:induction false} NeverCloses(c: Config, b: Breaker, outstanding: nat, run: seq<Event>)
    requires Positive(c) && b.state == Open
    requires 0 <= b.halfOpenRequests <= c.halfOpenMaxRequests && b.successes >= 0
    requires Potential(c, b, outstanding) < c.successThreshold
    requires Disciplined(c, b, outstanding, run)
    requires NoReset(run)
    ensures Run(c, b, run).state == Open
    decreases |run|
  {
    if run != [] {
      var e := run[0];
      PotentialFalls(c, b, outstanding, e);
      NeverCloses(c, Step(c, b, e.action, e.now), Left(c, b, outstanding, e), run[1..]);
      RunPeel(c, b, run);
    }
  }

  ghost predicate NotBefore(run: seq<Event>, from: int) {
    forall k :: 0 <= k < |run| ==> run[k].now >= from
  }

  // Otherwise some disciplined run without Reset closes it, from any instant on: after
  // the timeout, spend the remaining probes and let every outstanding request succeed.
  lemma {:induction false} CanClose(c: Config, b: Breaker, outstanding: nat, t: int) returns (run: seq<Event>)
    requires Positive(c) && b.state == Open && b.successes < c.successThreshold
    requires 0 <= b.halfOpenRequests <= c.halfOpenMaxRequests && t >= b.lastFailureTime + c.openTimeout
    requires Potential(c, b, outstanding) >= c.successThreshold
    ensures Disciplined(c, b, outstanding, run) && NoReset(run) && Run(c, b, run).state == Closed
    ensures forall k :: 0 <= k < |run| ==> run[k].now == t
    decreases 2 * (c.halfOpenMaxRequests - b.halfOpenRequests) + outstanding
  {
    var e := Event(if outstanding == 0 then Allow else Success, t);
    var b' := Step(c, b, e.action, t);
    var rest := [];
    if b'.state == Open {
      rest := CanClose(c, b', if outstanding == 0 then 1 else outstanding - 1, t);
    }
    run := [e] + rest;
    assert run[1..] == rest;
    RunPeel(c, b, run);
  }

  // Some disciplined run without Reset, at instants not before `from`, closes the breaker.
  ghost predicate Recoverable(c: Config, b: Breaker, outstanding: nat, from: int) {
    exists run :: Disciplined(c, b, outstanding, run) && NoReset(run) && NotBefore(run, from)
                  && Run(c, b, run).state == Closed
  }

  // So an open breaker can recover on its own exactly when its potential reaches
  // successThreshold, whatever time it is.
  lemma RecoverableIff(c: Config, b: Breaker, outstanding: nat, from: int)
    requires Positive(c) && b.state == Open && 0 <= b.successes < c.successThreshold
    requires 0 <= b.halfOpenRequests <= c.halfOpenMaxRequests
    ensures Recoverable(c, b, outstanding, from) <==> Potential(c, b, outstanding) >= c.successThreshold
  {
    if Potential(c, b, outstanding) >= c.successThreshold {
      var due := b.lastFailureTime + c.openTimeout;
      var run := CanClose(c, b, outstanding, if from > due then from else due);
      assert NotBefore(run, from);
    } else {
      forall run | Disciplined(c, b, outstanding, run) && NoReset(run)
        ensures Run(c, b, run).state == Open
      {
        NeverCloses(c, b, outstanding, run);
      }
    }
  }

  lemma {:induction false} AdmittedPeel(c: Config, b: Breaker, run: seq<Event>)
    requires run != []
    ensures Admitted(c, b, run) == (if run[0].action == Allow && Admits(c, b, run[0].now) then 1 else 0)
                                   + Admitted(c, Step(c, b, run[0].action, run[0].now), run[1..])
    decreases |run|
  {
    var n := |run| - 1;
    var rest := run[1..];
    if n > 0 {
      var front := run[..n];
      AdmittedPeel(c, b, front);
      RunPeel(c, b, front);
      assert front[1..] == rest[..n - 1] && rest[n - 1] == run[n];
    } else {
      assert run[..0] == [] && rest == [];
    }
  }

  // With the probes spent as well, such a breaker refuses every later request, and once
  // nothing is outstanding it never changes again.
  lemma {:induction false} RefusesForEver(c: Config, b: Breaker, outstanding: nat, run: seq<Event>)
    requires Positive(c) && b.state == Open && b.successes >= 0
    requires b.halfOpenRequests == c.halfOpenMaxRequests && Potential(c, b, outstanding) < c.successThreshold
    requires Disciplined(c, b, outstanding, run) && NoReset(run)
    ensures Admitted(c, b, run) == 0 && (outstanding == 0 ==> Run(c, b, run) == b)
    decreases |run|
  {
    if run != [] {
      var e := run[0];
      PotentialFalls(c, b, outstanding, e);
      RefusesForEver(c, Step(c, b, e.action, e.now), Left(c, b, outstanding, e), run[1..]);
      AdmittedPeel(c, b, run);
      RunPeel(c, b, run);
    }
  }

  // A closed breaker admits the next request.
  lemma {:induction false} ThenAllow(c: Config, b: Breaker, outstanding: nat, run: seq<Event>, t: int)
    requires Disciplined(c, b, outstanding, run) && NoReset(run) && Run(c, b, run).state == Closed
    ensures var more := run + [Event(Allow, t)];
            Disciplined(c, b, outstanding, more) && NoReset(more) && Admitted(c, b, more) > 0
    decreases |run|
  {
    var more := run + [Event(Allow, t)];
    if run == [] {
      assert more[1..] == [];
      AdmittedPeel(c, b, more);
    } else {
      var e := run[0];
      var next := Step(c, b, e.action, e.now);
      RunPeel(c, b, run);
      ThenAllow(c, next, Left(c, b, outstanding, e), run[1..], t);
      assert more[0] == e && more[1..] == run[1..] + [Event(Allow, t)];
      assert Disciplined(c, next, Left(c, b, outstanding, e), more[1..]);
      AdmittedPeel(c, b, more);
    }
  }

  // Some disciplined run without Reset, at instants not before `from`, admits a request.
  ghost predicate Serves(c: Config, b: Breaker, outstanding: nat, from: int) {
    exists run :: Disciplined(c, b, outstanding, run) && NoReset(run) && NotBefore(run, from)
                  && Admitted(c, b, run) > 0
  }

  // An open breaker ever admits another request exactly when a probe is left or it can
  // still recover.
  lemma ServesIff(c: Config, b: Breaker, outstanding: nat, from: int)
    requires Positive(c) && b.state == Open && 0 <= b.successes < c.successThreshold
    requires 0 <= b.halfOpenRequests <= c.halfOpenMaxRequests
    ensures Serves(c, b, outstanding, from) <==>
            b.halfOpenRequests < c.halfOpenMaxRequests || Potential(c, b, outstanding) >= c.successThreshold
  {
    var due := b.lastFailureTime + c.openTimeout;
    var t := if from > due then from else due;
    if b.halfOpenRequests < c.halfOpenMaxRequests {
      var run := [Event(Allow, t)];
      assert run[1..] == [] && run[..0] == [] && Admits(c, b, t);
      AdmittedPeel(c, b, run);
      assert Disciplined(c, Step(c, b, Allow, t), outstanding + 1, run[1..]);
      assert Disciplined(c, b, outstanding, run) && NoReset(run) && NotBefore(run, from);
    } else if Potential(c, b, outstanding) >= c.successThreshold {
      var run := CanClose(c, b, outstanding, t);
      ThenAllow(c, b, outstanding, run, t);
      assert NotBefore(run + [Event(Allow, t)], from);
    } else {
      forall run | Disciplined(c, b, outstanding, run) && NoReset(run)
        ensures Admitted(c, b, run) == 0
      {
        RefusesForEver(c, b, outstanding, run);
      }
    }
  }

  // ---------------------------------------------------------- failed probes

  // A request admitted at one instant that fails at another.
  datatype Probe = Probe(admittedAt: int, failedAt: int)

  ghost function AfterProbe(c: Config, b: Breaker, p: Probe): Breaker {
    Step(c, Step(c, b, Allow, p.admittedAt), Failure, p.failedAt)
  }

  ghost function AfterProbes(c: Config, b: Breaker, probes: seq<Probe>): Breaker
    decreases |probes|
  {
    if probes == [] then b else AfterProbes(c, AfterProbe(c, b, probes[0]), probes[1..])
  }

  ghost predicate AllAdmitted(c: Config, b: Breaker, probes: seq<Probe>)
    decreases |probes|
  {
    probes == [] || (Admits(c, b, probes[0].admittedAt) && AllAdmitted(c, AfterProbe(c, b, probes[0]), probes[1..]))
  }

  // Each failed probe of an open breaker is gone for good.
  lemma {:induction false} ProbesSpend(c: Config, b: Breaker, probes: seq<Probe>)
    requires Positive(c) && b.state == Open && 0 <= b.halfOpenRequests <= c.halfOpenMaxRequests
    requires AllAdmitted(c, b, probes)
    ensures var b' := AfterProbes(c, b, probes);
            && b'.state == Open && b'.halfOpenRequests == b.halfOpenRequests + |probes| <= c.halfOpenMaxRequests
            && b'.successes == if probes == [] then b.successes else 0
    decreases |probes|
  {
    if probes != [] {
      ProbesSpend(c, AfterProbe(c, b, probes[0]), probes[1..]);
    }
  }

  // A breaker that trips has all its probes and no successes.
  lemma TripState(c: Config, run: seq<Event>, now: int)
    requires Positive(c) && Run(c, NEW, run).state == Closed
    requires Step(c, Run(c, NEW, run), Failure, now).state == Open
    ensures var b := Step(c, Run(c, NEW, run), Failure, now);
            b.halfOpenRequests == 0 && b.successes == 0
  {
    RunKeepsInv(c, run);
  }

  // After any trip of any breaker and some failed probes, with other requests still
  // outstanding, it can close without Reset exactly when those and the probes that are
  // left reach successThreshold.
  lemma FailedProbesStarveIff(c: Config, run: seq<Event>, now: int, probes: seq<Probe>, outstanding: nat, from: int)
    requires Positive(c) && Run(c, NEW, run).state == Closed
    requires Step(c, Run(c, NEW, run), Failure, now).state == Open
    requires AllAdmitted(c, Step(c, Run(c, NEW, run), Failure, now), probes)
    ensures var b := AfterProbes(c, Step(c, Run(c, NEW, run), Failure, now), probes);
            b.state == Open
            && (Recoverable(c, b, outstanding, from) <==>
                outstanding + c.halfOpenMaxRequests - |probes| >= c.successThreshold)
  {
    var b := Step(c, Run(c, NEW, run), Failure, now);
    TripState(c, run, now);
    ProbesSpend(c, b, probes);
    RecoverableIff(c, AfterProbes(c, b, probes), outstanding, from);
  }

  function Failures(run: seq<Event>): nat {
    if run == [] then 0 else (if run[0].action == Failure then 1 else 0) + Failures(run[1..])
  }

  ghost function LeftAfter(c: Config, b: Breaker, outstanding: nat, run: seq<Event>): nat
    requires Disciplined(c, b, outstanding, run)
    decreases |run|
  {
    if run == [] then outstanding
    else LeftAfter(c, Step(c, b, run[0].action, run[0].now), Left(c, b, outstanding, run[0]), run[1..])
  }

  ghost predicate OpenThroughout(c: Config, b: Breaker, run: seq<Event>)
    decreases |run|
  {
    b.state == Open && (run == [] || OpenThroughout(c, Step(c, b, run[0].action, run[0].now), run[1..]))
  }

  // The same for every run that stays open, however its records are interleaved: each
  // failure, of a probe or of an older request, lowers what can still be collected.
  lemma {:induction false} FailuresStarve(c: Config, b: Breaker, outstanding: nat, run: seq<Event>)
    requires Positive(c) && 0 <= b.halfOpenRequests <= c.halfOpenMaxRequests && b.successes >= 0
    requires OpenThroughout(c, b, run) && Disciplined(c, b, outstanding, run) && NoReset(run)
    ensures var b', left := Run(c, b, run), LeftAfter(c, b, outstanding, run);
            && b'.state == Open && 0 <= b'.halfOpenRequests <= c.halfOpenMaxRequests && b'.successes >= 0
            && Potential(c, b', left) <= Potential(c, b, outstanding) - Failures(run)
    decreases |run|
  {
    if run != [] {
      var e := run[0];
      PotentialFalls(c, b, outstanding, e);
      FailuresStarve(c, Step(c, b, e.action, e.now), Left(c, b, outstanding, e), run[1..]);
      RunPeel(c, b, run);
    }
  }

  const DEFAULTS := Config(5, 3, 30, 3)

  // With the default thresholds one failed probe is enough when no other request is
  // outstanding, and not when one is.
  lemma DefaultsStarve(run: seq<Event>, now: int, probe: Probe, outstanding: nat, from: int)
    requires Run(DEFAULTS, NEW, run).state == Closed
    requires Step(DEFAULTS, Run(DEFAULTS, NEW, run), Failure, now).state == Open
    requires Admits(DEFAULTS, Step(DEFAULTS, Run(DEFAULTS, NEW, run), Failure, now), probe.admittedAt)
    ensures var b := AfterProbe(DEFAULTS, Step(DEFAULTS, Run(DEFAULTS, NEW, run), Failure, now), probe);
            Recoverable(DEFAULTS, b, outstanding, from) <==> outstanding >= 1
  {
    var b := Step(DEFAULTS, Run(DEFAULTS, NEW, run), Failure, now);
    assert [probe][1..] == [] && [probe][0] == probe;
    assert AllAdmitted(DEFAULTS, b, [probe]) && AfterProbes(DEFAULTS, b, [probe]) == AfterProbe(DEFAULTS, b, probe);
    FailedProbesStarveIff(DEFAULTS, run, now, [probe], outstanding, from);
  }
}
