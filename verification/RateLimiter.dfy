// server/internal/middleware/middleware.go, RateLimiter: token buckets per client and
// a clean-up that forgets clients. Tokens and times are reals (seconds); the clock of
// a run never goes back.
module RateLimiter {

  datatype Client = Client(tokens: real, lastUpdate: real)

  datatype Config = Config(burstSize: int, rate: real, cleanupInterval: real)

  type Clients = map<string, Client>

  ghost predicate Sane(c: Config) {
    c.burstSize >= 1 && c.rate >= 0.0 && c.cleanupInterval > 0.0
  }

  // ------------------------------------------------------------------- steps

  function Refilled(c: Config, client: Client, now: real): real {
    var tokens := client.tokens + (now - client.lastUpdate) * c.rate;
    if tokens > c.burstSize as real then c.burstSize as real else tokens
  }

  function Admits(c: Config, clients: Clients, key: string, now: real): bool {
    key !in clients || Refilled(c, clients[key], now) >= 1.0
  }

  function AfterAllow(c: Config, clients: Clients, key: string, now: real): Clients {
    if key !in clients then clients[key := Client(c.burstSize as real - 1.0, now)]
    else
      var tokens := Refilled(c, clients[key], now);
      clients[key := Client(if tokens >= 1.0 then tokens - 1.0 else tokens, now)]
  }

  function AfterCleanup(c: Config, clients: Clients, now: real): Clients {
    map key | key in clients && !(clients[key].lastUpdate < now - c.cleanupInterval) :: clients[key]
  }

  // What is left and what was earned since come to a token or more.
  predicate HasToken(c: Config, client: Client, now: real) {
    c.burstSize >= 1 && client.tokens + (now - client.lastUpdate) * c.rate >= 1.0
  }

  lemma AdmitsToken(c: Config, clients: Clients, key: string, now: real)
    ensures Admits(c, clients, key, now) <==> key !in clients || HasToken(c, clients[key], now)
  {
    if key in clients {
      TokenLeft(c.burstSize, clients[key].tokens + (now - clients[key].lastUpdate) * c.rate);
    }
  }

  lemma TokenLeft(burst: int, tokens: real)
    ensures (if tokens > burst as real then burst as real else tokens) >= 1.0 <==> burst >= 1 && tokens >= 1.0
  {
  }

  lemma CleanupKeeps(c: Config, clients: Clients, now: real)
    ensures forall k :: k in AfterCleanup(c, clients, now) <==>
              k in clients && now - clients[k].lastUpdate <= c.cleanupInterval
  {
  }

  class RateLimiter {
    const config: Config
    var clients: Clients

    constructor (config: Config)
      ensures this.config == config && clients == map[]
    {
      this.config := config;
      clients := map[];
    }

    method Allow(key: string, now: real) returns (ok: bool)
      modifies this
      ensures ok == Admits(config, old(clients), key, now)
      ensures clients == AfterAllow(config, old(clients), key, now)
      ensures ok <==> key !in old(clients) || HasToken(config, old(clients)[key], now)
    {
      AdmitsToken(config, clients, key, now);
      if key !in clients {
        clients := clients[key := Client(config.burstSize as real - 1.0, now)];
        return true;
      }
      var client := clients[key];
      var elapsed := now - client.lastUpdate;
      client := client.(tokens := client.tokens + elapsed * config.rate);
      if client.tokens > config.burstSize as real {
        client := client.(tokens := config.burstSize as real);
      }
      client := client.(lastUpdate := now);
      assert client == Client(Refilled(config, clients[key], now), now);
      if client.tokens >= 1.0 {
        client := client.(tokens := client.tokens - 1.0);
        clients := clients[key := client];
        return true;
      }
      clients := clients[key := client];
      return false;
    }

    method Cleanup(now: real)
      modifies this
      ensures clients == AfterCleanup(config, old(clients), now)
      ensures forall k :: k in clients <==>
                k in old(clients) && now - old(clients)[k].lastUpdate <= config.cleanupInterval
    {
      var cutoff := now - config.cleanupInterval;
      var todo := clients.Keys;
      while todo != {}
        invariant todo <= old(clients).Keys
        invariant clients.Keys <= old(clients).Keys
        invariant forall k :: k in clients ==> clients[k] == old(clients)[k]
        invariant forall k :: k in old(clients) ==>
                    (k in clients <==> k in todo || !(old(clients)[k].lastUpdate < cutoff))
      {
        var key :| key in todo;
        if clients[key].lastUpdate < cutoff {
          clients := clients - {key};
        }
        todo := todo - {key};
      }
      CleanupKeeps(config, old(clients), now);
    }
  }

  // -------------------------------------------------------------------- runs

  datatype Action = Call(key: string, now: real) | Cleanup(now: real)

  // Later actions are not earlier in time, and none is before `start`.
  ghost predicate Timed(run: seq<Action>, start: real)
    decreases |run|
  {
    run == [] || (start <= run[0].now && Timed(run[1..], run[0].now))
  }

  // One step; a limiter that never evicts ignores the clean-ups.
  function After(c: Config, clients: Clients, a: Action, evicts: bool): Clients {
    match a
    case Call(key, now) => AfterAllow(c, clients, key, now)
    case Cleanup(now) => if evicts then AfterCleanup(c, clients, now) else clients
  }

  // The answers to the calls of a run, in order.
  function Answers(c: Config, clients: Clients, run: seq<Action>, evicts: bool): seq<bool>
    decreases |run|
  {
    if run == [] then []
    else
      (if run[0].Call? then [Admits(c, clients, run[0].key, run[0].now)] else [])
      + Answers(c, After(c, clients, run[0], evicts), run[1..], evicts)
  }

  function AfterRun(c: Config, clients: Clients, run: seq<Action>, evicts: bool): Clients
    decreases |run|
  {
    if run == [] then clients else AfterRun(c, After(c, clients, run[0], evicts), run[1..], evicts)
  }

  function Grant(c: Config, clients: Clients, a: Action, key: string): nat {
    if a.Call? && a.key == key && Admits(c, clients, key, a.now) then 1 else 0
  }

  // The calls of one client that are admitted.
  function Granted(c: Config, clients: Clients, run: seq<Action>, evicts: bool, key: string): nat
    decreases |run|
  {
    if run == [] then 0
    else
      Grant(c, clients, run[0], key)
      + Granted(c, After(c, clients, run[0], evicts), run[1..], evicts, key)
  }

  // ---------------------------------------------------- eviction is invisible

  ghost predicate Buckets(c: Config, clients: Clients, now: real) {
    forall k :: k in clients ==>
      0.0 <= clients[k].tokens <= c.burstSize as real && clients[k].lastUpdate <= now
  }

  // The evicting table e is the full table p without some clients that have been
  // silent for longer than the clean-up interval.
  ghost predicate Forgets(c: Config, e: Clients, p: Clients, now: real) {
    && (forall k :: k in e ==> k in p && e[k] == p[k])
    && forall k :: k in p && k !in e ==> p[k].lastUpdate + c.cleanupInterval < now
  }

  lemma MulMonotone(a: real, x: real, y: real)
    requires a >= 0.0 && x <= y
    ensures x * a <= y * a && a * x <= a * y && a * 0.0 == 0.0
  {
  }

  lemma RefillsWithin(rate: real, interval: real, elapsed: real, burst: real)
    requires rate >= 0.0 && interval < elapsed && rate * interval >= burst
    ensures elapsed * rate >= burst
  {
    MulMonotone(rate, interval, elapsed);
    assert elapsed * rate == rate * elapsed;
  }

  // No time passes, nothing is added.
  lemma RefilledSame(c: Config, client: Client)
    requires client.tokens <= c.burstSize as real
    ensures Refilled(c, client, client.lastUpdate) == client.tokens
  {
    var elapsed := client.lastUpdate - client.lastUpdate;
    assert elapsed == 0.0;
    MulZero(c.rate);
  }

  lemma MulZero(x: real)
    ensures 0.0 * x == 0.0
  {
  }

  // A forgotten bucket would be full by now.
  lemma ForgottenIsFull(c: Config, client: Client, now: real)
    requires Sane(c) && c.rate * c.cleanupInterval >= c.burstSize as real
    requires client.tokens >= 0.0 && client.lastUpdate + c.cleanupInterval < now
    ensures Refilled(c, client, now) == c.burstSize as real
  {
    var elapsed := now - client.lastUpdate;
    RefillsWithin(c.rate, c.cleanupInterval, elapsed, c.burstSize as real);
    assert client.tokens + elapsed * c.rate >= c.burstSize as real;
  }

  lemma RefilledRange(c: Config, client: Client, now: real)
    requires Sane(c) && client.lastUpdate <= now && 0.0 <= client.tokens <= c.burstSize as real
    ensures client.tokens <= Refilled(c, client, now) <= c.burstSize as real
  {
    MulMonotone(c.rate, 0.0, now - client.lastUpdate);
  }

  lemma CallKeepsBuckets(c: Config, clients: Clients, key: string, now: real, start: real)
    requires Sane(c) && Buckets(c, clients, start) && start <= now
    ensures Buckets(c, AfterAllow(c, clients, key, now), now)
  {
    if key in clients {
      RefilledRange(c, clients[key], now);
    }
  }

  lemma StepForgets(c: Config, e: Clients, p: Clients, a: Action, start: real)
    requires Sane(c) && c.rate * c.cleanupInterval >= c.burstSize as real
    requires Buckets(c, p, start) && Forgets(c, e, p, start) && start <= a.now
    ensures Forgets(c, After(c, e, a, true), After(c, p, a, false), a.now)
    ensures Buckets(c, After(c, p, a, false), a.now)
    ensures a.Call? ==> (Admits(c, e, a.key, a.now) <==> Admits(c, p, a.key, a.now))
  {
    if a.Call? {
      CallKeepsBuckets(c, p, a.key, a.now, start);
      if a.key in p && a.key !in e {
        ForgottenIsFull(c, p[a.key], a.now);
      }
    }
  }

  // With a bucket that refills within the clean-up interval, a limiter that evicts
  // answers every run as one that never does.
  lemma {:induction false} SameAnswers(c: Config, e: Clients, p: Clients, run: seq<Action>, start: real)
    requires Sane(c) && c.rate * c.cleanupInterval >= c.burstSize as real
    requires Timed(run, start) && Buckets(c, p, start) && Forgets(c, e, p, start)
    ensures Answers(c, e, run, true) == Answers(c, p, run, false)
    ensures forall key :: Granted(c, e, run, true, key) == Granted(c, p, run, false, key)
    decreases |run|
  {
    if run != [] {
      var a := run[0];
      StepForgets(c, e, p, a, start);
      SameAnswers(c, After(c, e, a, true), After(c, p, a, false), run[1..], a.now);
    }
  }

  // ------------------------------------------------------------ window bound

  // What a client could spend at once.
  function Level(c: Config, clients: Clients, key: string, now: real): real {
    if key in clients then Refilled(c, clients[key], now) else c.burstSize as real
  }

  lemma LevelGrows(c: Config, clients: Clients, key: string, s: real, t: real)
    requires s <= t && c.rate >= 0.0
    ensures Level(c, clients, key, t) <= Level(c, clients, key, s) + c.rate * (t - s)
  {
    if key in clients {
      var d := clients[key].lastUpdate;
      assert (t - d) * c.rate == (s - d) * c.rate + c.rate * (t - s);
    }
    MulMonotone(c.rate, 0.0, t - s);
  }

  // A call costs one token when it is admitted and nothing otherwise.
  lemma LevelSpends(c: Config, clients: Clients, key: string, a: Action, start: real)
    requires Sane(c) && Buckets(c, clients, start) && a.Call? && start <= a.now
    ensures Level(c, AfterAllow(c, clients, a.key, a.now), key, a.now)
            == Level(c, clients, key, a.now) - (if a.key == key && Admits(c, clients, key, a.now) then 1.0 else 0.0)
  {
    if key in clients {
      RefilledRange(c, clients[key], a.now);
    }
    if a.key == key {
      RefilledSame(c, AfterAllow(c, clients, key, a.now)[key]);
    }
  }

  lemma SpendStep(c: Config, clients: Clients, a: Action, key: string, start: real)
    requires Sane(c) && Buckets(c, clients, start) && start <= a.now
    ensures Grant(c, clients, a, key) as real + Level(c, After(c, clients, a, false), key, a.now)
            <= Level(c, clients, key, start) + c.rate * (a.now - start)
    ensures Buckets(c, After(c, clients, a, false), a.now)
  {
    LevelGrows(c, clients, key, start, a.now);
    if a.Call? {
      CallKeepsBuckets(c, clients, a.key, a.now, start);
      LevelSpends(c, clients, key, a, start);
    }
  }

  lemma StepKeepsBuckets(c: Config, clients: Clients, a: Action, start: real)
    requires Sane(c) && Buckets(c, clients, start) && start <= a.now
    ensures Buckets(c, After(c, clients, a, false), a.now)
  {
    if a.Call? {
      CallKeepsBuckets(c, clients, a.key, a.now, start);
    }
  }

  // One step is paid for by a level and what was earned meanwhile.
  ghost predicate Paid(c: Config, key: string, level: (Clients, real) -> real, earned: real -> real,
                       clients: Clients, a: Action, start: real) {
    Grant(c, clients, a, key) as real + level(After(c, clients, a, false), a.now)
    <= level(clients, start) + earned(a.now) - earned(start)
  }

  ghost predicate AllPaid(c: Config, key: string, level: (Clients, real) -> real, earned: real -> real) {
    forall clients, a: Action, start :: Buckets(c, clients, start) && start <= a.now ==>
      Paid(c, key, level, earned, clients, a, start)
  }

  ghost predicate WithinBurst(c: Config, level: (Clients, real) -> real) {
    forall clients, t {:trigger level(clients, t)} ::
      Buckets(c, clients, t) ==> 0.0 <= level(clients, t) <= c.burstSize as real
  }

  ghost predicate Grows(earned: real -> real) {
    forall s, t :: s <= t ==> earned(s) <= earned(t)
  }

  // Then so is a whole run.
  lemma {:induction false} Spending(c: Config, clients: Clients, run: seq<Action>, key: string, start: real, end: real,
                                    level: (Clients, real) -> real, earned: real -> real)
    requires Sane(c) && Buckets(c, clients, start) && Timed(run, start)
    requires start <= end && (run != [] ==> run[|run| - 1].now <= end)
    requires AllPaid(c, key, level, earned) && WithinBurst(c, level) && Grows(earned)
    ensures Granted(c, clients, run, false, key) as real <= level(clients, start) + earned(end) - earned(start)
    decreases |run|
  {
    if run == [] {
      assert level(clients, start) >= 0.0;
    } else {
      var a, next := run[0], After(c, clients, run[0], false);
      TimedEnd(run, start);
      StepKeepsBuckets(c, clients, a, start);
      Spending(c, next, run[1..], key, a.now, end, level, earned);
      assert Paid(c, key, level, earned, clients, a, start);
      Sum(Grant(c, clients, a, key), Granted(c, next, run[1..], false, key));
    }
  }

  lemma Sum(a: nat, b: nat)
    ensures (a + b) as real == a as real + b as real
  {
  }

  lemma Span(rate: real, s: real, t: real)
    ensures rate * (t - s) == rate * t - rate * s
  {
  }

  lemma LevelPays(c: Config, clients: Clients, a: Action, key: string, start: real)
    requires Sane(c) && Buckets(c, clients, start) && start <= a.now
    ensures Grant(c, clients, a, key) as real + Level(c, After(c, clients, a, false), key, a.now)
            <= Level(c, clients, key, start) + c.rate * a.now - c.rate * start
  {
    SpendStep(c, clients, a, key, start);
    Span(c.rate, start, a.now);
  }

  lemma LevelRange(c: Config, clients: Clients, key: string, now: real)
    requires Sane(c) && Buckets(c, clients, now)
    ensures 0.0 <= Level(c, clients, key, now) <= c.burstSize as real
  {
    if key in clients {
      RefilledRange(c, clients[key], now);
    }
  }

  function LevelOf(c: Config, key: string): (Clients, real) -> real {
    (clients, now) => Level(c, clients, key, now)
  }

  function EarnedBy(rate: real): real -> real {
    t => rate * t
  }

  lemma PaidByLevel(c: Config, key: string, clients: Clients, a: Action, start: real)
    requires Sane(c) && Buckets(c, clients, start) && start <= a.now
    ensures Paid(c, key, LevelOf(c, key), EarnedBy(c.rate), clients, a, start)
  {
    LevelPays(c, clients, a, key, start);
  }

  lemma AllPaidByLevel(c: Config, key: string)
    requires Sane(c)
    ensures AllPaid(c, key, LevelOf(c, key), EarnedBy(c.rate))
  {
    forall clients, a: Action, start | Buckets(c, clients, start) && start <= a.now
      ensures Paid(c, key, LevelOf(c, key), EarnedBy(c.rate), clients, a, start)
    {
      PaidByLevel(c, key, clients, a, start);
    }
  }

  lemma LevelWithinBurst(c: Config, key: string)
    requires Sane(c)
    ensures WithinBurst(c, LevelOf(c, key))
  {
    forall clients, t | Buckets(c, clients, t)
      ensures 0.0 <= LevelOf(c, key)(clients, t) <= c.burstSize as real
    {
      LevelRange(c, clients, key, t);
    }
  }

  lemma RateGrows(rate: real)
    requires rate >= 0.0
    ensures Grows(EarnedBy(rate))
  {
    forall s, t | s <= t
      ensures EarnedBy(rate)(s) <= EarnedBy(rate)(t)
    {
      MulMonotone(rate, s, t);
    }
  }

  lemma EarnedBetween(rate: real, s: real, e: real)
    ensures EarnedBy(rate)(e) - EarnedBy(rate)(s) == rate * (e - s)
  {
    Span(rate, s, e);
  }

  // The level of a bucket and a steady rate pay for every step.
  lemma Payment(c: Config, key: string, s: real, e: real)
    returns (level: (Clients, real) -> real, earned: real -> real)
    requires Sane(c)
    ensures AllPaid(c, key, level, earned) && WithinBurst(c, level) && Grows(earned)
    ensures earned(e) - earned(s) == c.rate * (e - s)
  {
    level, earned := LevelOf(c, key), EarnedBy(c.rate);
    AllPaidByLevel(c, key);
    LevelWithinBurst(c, key);
    RateGrows(c.rate);
    EarnedBetween(c.rate, s, e);
  }

  lemma {:induction false} TimedEnd(run: seq<Action>, start: real)
    requires Timed(run, start) && run != []
    ensures start <= run[0].now <= run[|run| - 1].now
    decreases |run|
  {
    if |run| > 1 {
      TimedEnd(run[1..], run[0].now);
    }
  }

  lemma {:induction false} TimedSplit(pre: seq<Action>, win: seq<Action>, start: real)
    requires Timed(pre + win, start)
    ensures Timed(pre, start)
    ensures Timed(win, if pre == [] then start else pre[|pre| - 1].now)
    decreases |pre|
  {
    if pre == [] {
      assert pre + win == win;
    } else {
      assert (pre + win)[1..] == pre[1..] + win;
      TimedSplit(pre[1..], win, pre[0].now);
    }
  }

  // Both limiters, stepped together through a run, stay related.
  lemma {:induction false} StaysForgetting(c: Config, e: Clients, p: Clients, run: seq<Action>, start: real, end: real)
    requires Sane(c) && c.rate * c.cleanupInterval >= c.burstSize as real
    requires Timed(run, start) && Buckets(c, p, start) && Forgets(c, e, p, start)
    requires start <= end && (run != [] ==> run[|run| - 1].now <= end)
    ensures Forgets(c, AfterRun(c, e, run, true), AfterRun(c, p, run, false), end)
    ensures Buckets(c, AfterRun(c, p, run, false), end)
    decreases |run|
  {
    if run != [] {
      var a := run[0];
      TimedEnd(run, start);
      StepForgets(c, e, p, a, start);
      StaysForgetting(c, After(c, e, a, true), After(c, p, a, false), run[1..], a.now, end);
    }
  }

  // A run of the evicting limiter, and a window of time that holds its second part.
  ghost predicate Window(pre: seq<Action>, win: seq<Action>, t0: real, s: real, e: real) {
    && Timed(pre + win, t0) && t0 <= s <= e
    && (pre != [] ==> pre[|pre| - 1].now <= s)
    && (win != [] ==> s <= win[0].now && win[|win| - 1].now <= e)
  }

  ghost predicate WithinRate(c: Config, pre: seq<Action>, win: seq<Action>, key: string, s: real, e: real) {
    Granted(c, AfterRun(c, map[], pre, true), win, true, key) as real <= c.burstSize as real + c.rate * (e - s)
  }

  // In every window of every run of the evicting limiter, a client is admitted at most
  // burstSize + rate * (length of the window) times, if a bucket refills within the
  // clean-up interval.
  lemma WindowBound(c: Config, pre: seq<Action>, win: seq<Action>, key: string, t0: real, s: real, e: real)
    requires Sane(c) && c.rate * c.cleanupInterval >= c.burstSize as real && Window(pre, win, t0, s, e)
    ensures WithinRate(c, pre, win, key, s, e)
  {
    TimedSplit(pre, win, t0);
    assert Timed(win, s);
    StaysForgetting(c, map[], map[], pre, t0, s);
    var evicting, full := AfterRun(c, map[], pre, true), AfterRun(c, map[], pre, false);
    SameAnswers(c, evicting, full, win, s);
    var level, earned := Payment(c, key, s, e);
    Spending(c, full, win, key, s, e, level, earned);
  }

  // ------------------------------------------------------- every answer, exactly

  function Lesser(x: real, y: real): real {
    if x < y then x else y
  }

  // What is earned between two instants.
  function Earned(c: Config, s: real, t: real): real {
    c.rate * (t - s)
  }

  lemma EarnedAdds(c: Config, s: real, t: real, u: real)
    requires c.rate >= 0.0 && s <= t <= u
    ensures Earned(c, s, t) + Earned(c, t, u) == Earned(c, s, u)
    ensures 0.0 <= Earned(c, t, u) && Earned(c, u, u) == 0.0
  {
    MulMonotone(c.rate, 0.0, u - t);
  }

  // Between two calls a level grows by exactly what is earned, up to the burst size.
  lemma LevelExact(c: Config, clients: Clients, key: string, s: real, t: real)
    requires Sane(c) && Buckets(c, clients, s) && s <= t
    ensures Level(c, clients, key, t) == Lesser(c.burstSize as real, Level(c, clients, key, s) + Earned(c, s, t))
  {
    if key in clients {
      var d := clients[key].lastUpdate;
      assert (t - d) * c.rate == (s - d) * c.rate + c.rate * (t - s);
    }
    MulMonotone(c.rate, 0.0, t - s);
  }

  lemma StepExact(c: Config, clients: Clients, a: Action, key: string, start: real)
    requires Sane(c) && Buckets(c, clients, start) && start <= a.now
    ensures Level(c, After(c, clients, a, false), key, a.now)
            == Lesser(c.burstSize as real, Level(c, clients, key, start) + Earned(c, start, a.now))
               - Grant(c, clients, a, key) as real
  {
    LevelExact(c, clients, key, start, a.now);
    if a.Call? {
      LevelSpends(c, clients, key, a, start);
    }
  }

  lemma AdmitsAtLevel(c: Config, clients: Clients, key: string, now: real)
    requires Sane(c)
    ensures Admits(c, clients, key, now) <==> Level(c, clients, key, now) >= 1.0
  {
  }

  // A run that begins with one action, cut after more of them.
  lemma CutLater(c: Config, clients: Clients, run: seq<Action>, i: nat)
    requires 0 < i <= |run|
    ensures AfterRun(c, clients, run[..i], false)
            == AfterRun(c, After(c, clients, run[0], false), run[1..][..i - 1], false)
    ensures run[1..][i - 1..] == run[i..]
  {
    assert run[..i][1..] == run[1..][..i - 1];
  }

  // The level at the end of a run from the given level, if the bucket never overflows.
  ghost predicate Unspilled(c: Config, clients: Clients, run: seq<Action>, key: string, start: real, end: real) {
    Level(c, AfterRun(c, clients, run, false), key, end)
    == Level(c, clients, key, start) + Earned(c, start, end) - Granted(c, clients, run, false, key) as real
  }

  // The same from a full bucket at s, i actions into the run.
  ghost predicate FullAt(c: Config, clients: Clients, run: seq<Action>, key: string, i: nat, s: real,
                         start: real, end: real)
  {
    && i <= |run| && start <= s <= end
    && (i > 0 ==> run[i - 1].now <= s) && (i < |run| ==> s <= run[i].now)
    && Level(c, AfterRun(c, clients, run, false), key, end)
       == c.burstSize as real + Earned(c, s, end)
          - Granted(c, AfterRun(c, clients, run[..i], false), run[i..], false, key) as real
  }

  // Every level is that of an unspilled run from the start, or from the last instant at
  // which the bucket was full.
  lemma {:induction false} LastFull(c: Config, clients: Clients, run: seq<Action>, key: string, start: real, end: real)
    returns (i: nat, s: real)
    requires Sane(c) && Buckets(c, clients, start) && Timed(run, start)
    requires start <= end && (run != [] ==> run[|run| - 1].now <= end)
    ensures Unspilled(c, clients, run, key, start, end) || FullAt(c, clients, run, key, i, s, start, end)
    decreases |run|
  {
    i, s := 0, start;
    if run == [] {
      LevelExact(c, clients, key, start, end);
      s := end;
      EarnedAdds(c, end, end, end);
    } else {
      var a := run[0];
      TimedEnd(run, start);
      StepKeepsBuckets(c, clients, a, start);
      i, s := LastFull(c, After(c, clients, a, false), run[1..], key, a.now, end);
      i, s := FullEarlier(c, clients, run, key, start, end, i, s);
    }
  }

  lemma FullEarlier(c: Config, clients: Clients, run: seq<Action>, key: string, start: real, end: real, j: nat, t: real)
    returns (i: nat, s: real)
    requires Sane(c) && Buckets(c, clients, start) && run != [] && start <= run[0].now <= end
    requires var next := After(c, clients, run[0], false);
             Unspilled(c, next, run[1..], key, run[0].now, end) || FullAt(c, next, run[1..], key, j, t, run[0].now, end)
    ensures Unspilled(c, clients, run, key, start, end) || FullAt(c, clients, run, key, i, s, start, end)
  {
    var a, next := run[0], After(c, clients, run[0], false);
    i, s := j + 1, t;
    if Unspilled(c, next, run[1..], key, a.now, end) {
      i, s := 0, a.now;
      StepExact(c, clients, a, key, start);
      EarnedAdds(c, start, a.now, end);
      Sum(Grant(c, clients, a, key), Granted(c, next, run[1..], false, key));
      assert run[..0] == [] && run[0..] == run;
    } else {
      CutLater(c, clients, run, j + 1);
    }
  }

  // No level is higher than what a window leaves.
  lemma {:induction false} LevelAtMost(c: Config, clients: Clients, run: seq<Action>, key: string,
                                       start: real, end: real)
    requires Sane(c) && Buckets(c, clients, start) && Timed(run, start)
    requires start <= end && (run != [] ==> run[|run| - 1].now <= end)
    ensures Level(c, AfterRun(c, clients, run, false), key, end)
            <= Level(c, clients, key, start) + Earned(c, start, end) - Granted(c, clients, run, false, key) as real
    decreases |run|
  {
    if run == [] {
      LevelExact(c, clients, key, start, end);
    } else {
      var a, next := run[0], After(c, clients, run[0], false);
      TimedEnd(run, start);
      StepKeepsBuckets(c, clients, a, start);
      LevelAtMost(c, next, run[1..], key, a.now, end);
      StepExact(c, clients, a, key, start);
      EarnedAdds(c, start, a.now, end);
      Sum(Grant(c, clients, a, key), Granted(c, next, run[1..], false, key));
    }
  }

  // A window of a run, up to e, that has no admission left.
  ghost predicate Exhausted(c: Config, pre: seq<Action>, win: seq<Action>, key: string, t0: real, s: real, e: real,
                            evicts: bool)
  {
    && Window(pre, win, t0, s, e)
    && Granted(c, AfterRun(c, map[], pre, evicts), win, evicts, key) as real + 1.0
       > c.burstSize as real + c.rate * (e - s)
  }

  lemma {:induction false} RunConcat(c: Config, clients: Clients, pre: seq<Action>, win: seq<Action>)
    ensures AfterRun(c, clients, pre + win, false) == AfterRun(c, AfterRun(c, clients, pre, false), win, false)
    decreases |pre|
  {
    if pre == [] {
      assert pre + win == win;
    } else {
      assert (pre + win)[1..] == pre[1..] + win;
      RunConcat(c, After(c, clients, pre[0], false), pre[1..], win);
    }
  }

  lemma {:induction false} RunKeepsBuckets(c: Config, clients: Clients, run: seq<Action>, start: real, end: real)
    requires Sane(c) && Buckets(c, clients, start) && Timed(run, start)
    requires start <= end && (run != [] ==> run[|run| - 1].now <= end)
    ensures Buckets(c, AfterRun(c, clients, run, false), end)
    decreases |run|
  {
    if run != [] {
      TimedEnd(run, start);
      StepKeepsBuckets(c, clients, run[0], start);
      RunKeepsBuckets(c, After(c, clients, run[0], false), run[1..], run[0].now, end);
    }
  }

  // After an exhausted window a call is refused.
  lemma ExhaustedRefuses(c: Config, pre: seq<Action>, win: seq<Action>, key: string, t0: real, s: real, e: real)
    requires Sane(c) && Exhausted(c, pre, win, key, t0, s, e, false)
    ensures !Admits(c, AfterRun(c, map[], pre + win, false), key, e)
  {
    TimedSplit(pre, win, t0);
    var mid := AfterRun(c, map[], pre, false);
    RunKeepsBuckets(c, map[], pre, t0, s);
    RunConcat(c, map[], pre, win);
    assert Timed(win, s);
    LevelRange(c, mid, key, s);
    LevelAtMost(c, mid, win, key, s, e);
    AdmitsAtLevel(c, AfterRun(c, map[], pre + win, false), key, e);
  }

  // And a refused call comes after one.
  lemma RefusedExhausts(c: Config, run: seq<Action>, key: string, t0: real, e: real)
    returns (pre: seq<Action>, win: seq<Action>, s: real)
    requires Sane(c) && Timed(run, t0) && t0 <= e && (run != [] ==> run[|run| - 1].now <= e)
    requires !Admits(c, AfterRun(c, map[], run, false), key, e)
    ensures pre + win == run && Exhausted(c, pre, win, key, t0, s, e, false)
  {
    var i, at := LastFull(c, map[], run, key, t0, e);
    AdmitsAtLevel(c, AfterRun(c, map[], run, false), key, e);
    if Unspilled(c, map[], run, key, t0, e) {
      pre, win, s := [], run, t0;
      assert AfterRun(c, map[], [], false) == map[];
    } else {
      pre, win, s := run[..i], run[i..], at;
    }
    assert pre + win == run;
    if win != [] {
      assert win[|win| - 1] == run[|run| - 1];
    }
  }

  // Eviction changes neither what a window grants nor an answer, if a bucket refills
  // within the clean-up interval.
  lemma SameExhausted(c: Config, pre: seq<Action>, win: seq<Action>, key: string, t0: real, s: real, e: real)
    requires Sane(c) && c.rate * c.cleanupInterval >= c.burstSize as real
    ensures Exhausted(c, pre, win, key, t0, s, e, true) <==> Exhausted(c, pre, win, key, t0, s, e, false)
  {
    if Window(pre, win, t0, s, e) {
      TimedSplit(pre, win, t0);
      assert Timed(win, s);
      StaysForgetting(c, map[], map[], pre, t0, s);
      SameAnswers(c, AfterRun(c, map[], pre, true), AfterRun(c, map[], pre, false), win, s);
    }
  }

  lemma SameAdmits(c: Config, run: seq<Action>, key: string, t0: real, e: real)
    requires Sane(c) && c.rate * c.cleanupInterval >= c.burstSize as real
    requires Timed(run, t0) && t0 <= e && (run != [] ==> run[|run| - 1].now <= e)
    ensures Admits(c, AfterRun(c, map[], run, true), key, e) <==> Admits(c, AfterRun(c, map[], run, false), key, e)
  {
    StaysForgetting(c, map[], map[], run, t0, e);
    StepForgets(c, AfterRun(c, map[], run, true), AfterRun(c, map[], run, false), Call(key, e), e);
  }

  // So a call is refused exactly when the bound of some window up to it leaves no room for
  // one more admission: the answers of a run are the most generous the bound allows.
  lemma RefusedIff(c: Config, run: seq<Action>, key: string, t0: real, e: real, evicts: bool)
    requires Sane(c) && (evicts ==> c.rate * c.cleanupInterval >= c.burstSize as real)
    requires Timed(run, t0) && t0 <= e && (run != [] ==> run[|run| - 1].now <= e)
    ensures !Admits(c, AfterRun(c, map[], run, evicts), key, e) <==>
            exists pre, win, s :: pre + win == run && Exhausted(c, pre, win, key, t0, s, e, evicts)
  {
    if evicts {
      SameAdmits(c, run, key, t0, e);
    }
    if !Admits(c, AfterRun(c, map[], run, false), key, e) {
      var pre, win, s := RefusedExhausts(c, run, key, t0, e);
      if evicts {
        SameExhausted(c, pre, win, key, t0, s, e);
      }
    }
    forall pre, win, s | pre + win == run && Exhausted(c, pre, win, key, t0, s, e, evicts)
      ensures !Admits(c, AfterRun(c, map[], run, false), key, e)
    {
      if evicts {
        SameExhausted(c, pre, win, key, t0, s, e);
      }
      ExhaustedRefuses(c, pre, win, key, t0, s, e);
    }
  }

  // ---------------------------------------- the condition is also necessary

  function Calls(n: nat, key: string, now: real): seq<Action> {
    seq(n, _ => Call(key, now))
  }

  function AllTrue(n: nat): seq<bool> {
    seq(n, _ => true)
  }

  // n calls at one instant to a bucket of n tokens or more are all admitted.
  lemma {:induction false} Burst(c: Config, clients: Clients, n: nat, key: string, now: real,
                                rest: seq<Action>, evicts: bool)
    requires Sane(c) && n <= c.burstSize
    requires key in clients && clients[key].lastUpdate == now
    requires n as real <= clients[key].tokens <= c.burstSize as real
    ensures var left := clients[key := Client(clients[key].tokens - n as real, now)];
            Answers(c, clients, Calls(n, key, now) + rest, evicts) == AllTrue(n) + Answers(c, left, rest, evicts)
    decreases n
  {
    var run := Calls(n, key, now) + rest;
    if n == 0 {
      assert run == rest && clients[key := Client(clients[key].tokens, now)] == clients;
    } else {
      assert run[0] == Call(key, now) && run[1..] == Calls(n - 1, key, now) + rest;
      var next := AfterAllow(c, clients, key, now);
      RefilledSame(c, clients[key]);
      Burst(c, next, n - 1, key, now, rest, evicts);
      assert AllTrue(n) == [true] + AllTrue(n - 1);
      assert (n - 1) as real == n as real - 1.0;
      assert next[key := Client(next[key].tokens - (n - 1) as real, now)]
          == clients[key := Client(clients[key].tokens - n as real, now)];
    }
  }

  // n calls at one instant to a bucket of fewer than n tokens are not.
  lemma {:induction false} NotAllAdmitted(c: Config, clients: Clients, n: nat, key: string, now: real)
    requires Sane(c) && key in clients && Buckets(c, clients, now)
    requires Refilled(c, clients[key], now) < n as real
    ensures Answers(c, clients, Calls(n, key, now), false) != AllTrue(n)
    decreases n
  {
    RefilledRange(c, clients[key], now);
    var run := Calls(n, key, now);
    assert run[0] == Call(key, now) && run[1..] == Calls(n - 1, key, now);
    var next := AfterAllow(c, clients, key, now);
    CallKeepsBuckets(c, clients, key, now, now);
    if Admits(c, clients, key, now) {
      assert (n - 1) as real == n as real - 1.0;
      RefilledSame(c, next[key]);
      NotAllAdmitted(c, next, n - 1, key, now);
      assert AllTrue(n)[1..] == AllTrue(n - 1);
      assert Answers(c, clients, run, false)[1..] == Answers(c, next, run[1..], false);
    } else {
      assert Answers(c, clients, run, false)[0] == false;
    }
  }

  // An instant past the clean-up interval at which an empty bucket is not full again.
  lemma Midpoint(c: Config) returns (t: real)
    requires Sane(c) && c.rate * c.cleanupInterval < c.burstSize as real
    ensures t > c.cleanupInterval && t * c.rate < c.burstSize as real
  {
    if c.rate == 0.0 {
      t := c.cleanupInterval + 1.0;
    } else {
      var limit := c.burstSize as real / c.rate;
      assert limit * c.rate == c.burstSize as real;
      assert c.cleanupInterval < limit by {
        if c.cleanupInterval >= limit {
          MulMonotone(c.rate, limit, c.cleanupInterval);
        }
      }
      t := (c.cleanupInterval + limit) / 2.0;
      assert (limit - t) * c.rate > 0.0;
    }
  }

  // The first of n calls creates a full bucket, the others use it up.
  lemma FreshBurst(c: Config, n: nat, key: string, now: real, rest: seq<Action>, evicts: bool)
    requires Sane(c) && n == c.burstSize
    ensures Answers(c, map[], Calls(n, key, now) + rest, evicts)
            == AllTrue(n) + Answers(c, map[key := Client(0.0, now)], rest, evicts)
  {
    var run := Calls(n, key, now) + rest;
    assert run[0] == Call(key, now) && run[1..] == Calls(n - 1, key, now) + rest;
    var fresh1 := AfterAllow(c, map[], key, now);
    assert (n - 1) as real == n as real - 1.0;
    Burst(c, fresh1, n - 1, key, now, rest, evicts);
    assert fresh1[key := Client(0.0, now)] == map[key := Client(0.0, now)];
    assert AllTrue(n) == [true] + AllTrue(n - 1);
  }

  // A full burst at 0, a clean-up and a full burst at an instant t past the clean-up
  // interval by which the bucket is not full again. The evicting limiter admits all.
  function TwoBursts(n: nat, key: string, t: real): seq<Action> {
    Calls(n, key, 0.0) + ([Cleanup(t)] + Calls(n, key, t))
  }

  lemma BurstAnswers(c: Config, key: string, t: real)
    requires Sane(c) && t > c.cleanupInterval && t * c.rate < c.burstSize as real
    ensures var n := c.burstSize;
            && Timed(TwoBursts(n, key, t), 0.0)
            && Answers(c, map[], TwoBursts(n, key, t), true) == AllTrue(n) + AllTrue(n)
            && Answers(c, map[], TwoBursts(n, key, t), false) != AllTrue(n) + AllTrue(n)
  {
    var n: nat := c.burstSize;
    var rest := [Cleanup(t)] + Calls(n, key, t);
    FreshBurst(c, n, key, 0.0, rest, true);
    FreshBurst(c, n, key, 0.0, rest, false);
    SecondBurst(c, n, key, t);
    assert (AllTrue(n) + AllTrue(n))[n..] == AllTrue(n);
    TimedBursts(n, key, t);
  }

  // So eviction shows: the client that emptied its bucket, was forgotten and came back
  // got a full bucket that it would not have had.
  lemma EvictionShows(c: Config, key: string) returns (run: seq<Action>)
    requires Sane(c) && c.rate * c.cleanupInterval < c.burstSize as real
    ensures Timed(run, 0.0)
    ensures Answers(c, map[], run, true) != Answers(c, map[], run, false)
  {
    var t := Midpoint(c);
    BurstAnswers(c, key, t);
    run := TwoBursts(c.burstSize, key, t);
  }

  // The second burst of a client that emptied its bucket at 0.
  lemma SecondBurst(c: Config, n: nat, key: string, t: real)
    requires Sane(c) && n == c.burstSize && t > c.cleanupInterval && t * c.rate < c.burstSize as real
    ensures var rest := [Cleanup(t)] + Calls(n, key, t);
            var empty: Clients := map[key := Client(0.0, 0.0)];
            Answers(c, empty, rest, true) == AllTrue(n) != Answers(c, empty, rest, false)
  {
    var again := Calls(n, key, t);
    var rest := [Cleanup(t)] + again;
    var empty: Clients := map[key := Client(0.0, 0.0)];
    assert rest[1..] == again && rest[0] == Cleanup(t);
    assert AfterCleanup(c, empty, t) == map[];
    FreshBurst(c, n, key, t, [], true);
    assert again + [] == again;
    assert AllTrue(n) + [] == AllTrue(n);
    NotAllAdmitted(c, empty, n, key, t);
  }

  lemma TimedBursts(n: nat, key: string, t: real)
    requires t >= 0.0
    ensures Timed(Calls(n, key, 0.0) + ([Cleanup(t)] + Calls(n, key, t)), 0.0)
  {
    TimedCalls(n, key, t, []);
    assert Calls(n, key, t) + [] == Calls(n, key, t);
    var rest := [Cleanup(t)] + Calls(n, key, t);
    assert rest[1..] == Calls(n, key, t);
    TimedCalls(n, key, 0.0, rest);
  }

  lemma {:induction false} TimedCalls(n: nat, key: string, now: real, rest: seq<Action>)
    requires Timed(rest, now)
    ensures Timed(Calls(n, key, now) + rest, now)
    decreases n
  {
    var run := Calls(n, key, now) + rest;
    if n == 0 {
      assert run == rest;
    } else {
      assert run[0] == Call(key, now) && run[1..] == Calls(n - 1, key, now) + rest;
      TimedCalls(n - 1, key, now, rest);
    }
  }

  // So eviction is invisible to every client in every run exactly when an empty bucket
  // refills within the clean-up interval.
  lemma EvictionInvisibleIff(c: Config)
    requires Sane(c)
    ensures c.rate * c.cleanupInterval >= c.burstSize as real <==>
            forall run :: Timed(run, 0.0) ==> Answers(c, map[], run, true) == Answers(c, map[], run, false)
  {
    if c.rate * c.cleanupInterval >= c.burstSize as real {
      forall run | Timed(run, 0.0)
        ensures Answers(c, map[], run, true) == Answers(c, map[], run, false)
      {
        SameAnswers(c, map[], map[], run, 0.0);
      }
    } else {
      var run := EvictionShows(c, "client");
    }
  }

  function Trues(answers: seq<bool>): nat {
    if answers == [] then 0 else (if answers[0] then 1 else 0) + Trues(answers[1..])
  }

  lemma {:induction false} TruesOfAll(n: nat, rest: seq<bool>)
    ensures Trues(AllTrue(n) + rest) == n + Trues(rest)
    decreases n
  {
    if n == 0 {
      assert AllTrue(n) + rest == rest;
    } else {
      TruesOfAll(n - 1, rest);
      assert (AllTrue(n) + rest)[1..] == AllTrue(n - 1) + rest;
    }
  }

  // When all calls are by one client, the admitted ones are the true answers.
  lemma {:induction false} GrantedTrues(c: Config, clients: Clients, run: seq<Action>, evicts: bool, key: string)
    requires forall k :: 0 <= k < |run| && run[k].Call? ==> run[k].key == key
    ensures Granted(c, clients, run, evicts, key) == Trues(Answers(c, clients, run, evicts))
    decreases |run|
  {
    if run != [] {
      var next := After(c, clients, run[0], evicts);
      GrantedTrues(c, next, run[1..], evicts, key);
      if run[0].Call? {
        assert Answers(c, clients, run, evicts)[1..] == Answers(c, next, run[1..], evicts);
      } else {
        assert Answers(c, clients, run, evicts) == Answers(c, next, run[1..], evicts);
      }
    }
  }

  lemma BurstsGranted(c: Config, key: string, t: real)
    requires Sane(c) && t > c.cleanupInterval && t * c.rate < c.burstSize as real
    ensures Granted(c, map[], TwoBursts(c.burstSize, key, t), true, key) == c.burstSize + c.burstSize
  {
    var n: nat := c.burstSize;
    BurstAnswers(c, key, t);
    GrantedTrues(c, map[], TwoBursts(n, key, t), true, key);
    TruesOfAll(n, AllTrue(n));
    TruesOfAll(n, []);
    assert AllTrue(n) + [] == AllTrue(n);
  }

  lemma BurstsWindow(c: Config, key: string, t: real)
    requires Sane(c) && t > c.cleanupInterval && t * c.rate < c.burstSize as real
    ensures Window([], TwoBursts(c.burstSize, key, t), 0.0, 0.0, t)
  {
    var run := TwoBursts(c.burstSize, key, t);
    BurstAnswers(c, key, t);
    assert [] + run == run && run[|run| - 1] == Call(key, t);
  }

  lemma TooMany(n: nat, rate: real, t: real)
    requires t * rate < n as real
    ensures !((n + n) as real <= n as real + rate * (t - 0.0))
  {
    assert t - 0.0 == t && rate * t == t * rate;
  }

  // The same two bursts break the window bound: twice the burst size is admitted in a
  // time that earns less than one.
  lemma BoundBroken(c: Config, key: string) returns (run: seq<Action>, t: real)
    requires Sane(c) && c.rate * c.cleanupInterval < c.burstSize as real
    ensures Window([], run, 0.0, 0.0, t) && !WithinRate(c, [], run, key, 0.0, t)
  {
    t := Midpoint(c);
    run := TwoBursts(c.burstSize, key, t);
    BurstsWindow(c, key, t);
    BurstsGranted(c, key, t);
    NotWithin(c, run, key, t);
  }

  lemma NotWithin(c: Config, run: seq<Action>, key: string, t: real)
    requires Sane(c) && t * c.rate < c.burstSize as real
    requires Granted(c, map[], run, true, key) == c.burstSize + c.burstSize
    ensures !WithinRate(c, [], run, key, 0.0, t)
  {
    assert AfterRun(c, map[], [], true) == map[];
    TooMany(c.burstSize, c.rate, t);
  }

  // So the window bound holds in every run under the same condition, and only then.
  lemma WindowBoundIff(c: Config)
    requires Sane(c)
    ensures c.rate * c.cleanupInterval >= c.burstSize as real <==>
            forall pre, win, key, t0, s, e :: Window(pre, win, t0, s, e) ==> WithinRate(c, pre, win, key, s, e)
  {
    if c.rate * c.cleanupInterval >= c.burstSize as real {
      forall pre, win, key, t0, s, e | Window(pre, win, t0, s, e)
        ensures WithinRate(c, pre, win, key, s, e)
      {
        WindowBound(c, pre, win, key, t0, s, e);
      }
    } else {
      var run, t := BoundBroken(c, "client");
    }
  }
}
