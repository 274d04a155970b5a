// server/internal/queue/queue.go: the in-memory queue as a transition system. Every
// channel operation and every locked section is one step of one goroutine.
module MemoryQueue {
  import opened Sequences

  // `token` identifies the message object; Publish numbers them as it sends them.
  datatype Message = Message(token: nat, topic: string, retries: int, maxRetries: int)

  // What a worker goroutine is doing.
  datatype Worker =
    | Idle
    | Received(msg: Message)
    | Handling(msg: Message)
    | Waiting(msg: Message)
    | Exited

  datatype Config = Config(bufferSize: nat, maxRetries: int)

  datatype State = State(
    messages: seq<Message>,        // the channel
    workers: seq<Worker>,
    topics: set<string>,           // topics with a handler
    closed: bool,
    cancelled: bool,
    publishing: nat,               // Publish calls past the closed check
    sent: nat,                     // messages put in the channel by Publish
    uncounted: nat,                // of those, not yet counted as published
    published: nat,
    retried: nat,
    processed: seq<nat>,           // tokens, one per counter increment
    topicStats: multiset<string>,  // each topic as often as its counter says
    failed: seq<nat>,
    dropped: seq<nat>,
    calls: map<nat, nat>)          // handler invocations per token

  datatype Label =
    | BeginPublish
    | Send(topic: string)
    | GiveUp                       // the caller's context is done
    | CountPublished
    | Subscribe(topic: string)
    | Unsubscribe(topic: string)
    | Receive(w: nat)
    | Lookup(w: nat)
    | Succeed(w: nat)
    | Fail(w: nat)
    | Resend(w: nat)
    | Close
    | Cancel
    | Exit(w: nat)

  function Init(workerCount: nat): State {
    State([], seq(workerCount, _ => Idle), {}, false, false, 0, 0, 0, 0, 0, [], multiset{}, [], [], map[])
  }

  function Calls(s: State, token: nat): nat {
    if token in s.calls then s.calls[token] else 0
  }

  predicate Enabled(s: State, l: Label) {
    match l
    case BeginPublish => true
    case Send(_) => s.publishing > 0
    case GiveUp => s.publishing > 0
    case CountPublished => s.uncounted > 0
    case Subscribe(_) => true
    case Unsubscribe(_) => true
    case Receive(w) => w < |s.workers| && s.workers[w].Idle? && s.messages != []
    case Lookup(w) => w < |s.workers| && s.workers[w].Received?
    case Succeed(w) => w < |s.workers| && s.workers[w].Handling?
    case Fail(w) => w < |s.workers| && s.workers[w].Handling?
    case Resend(w) => w < |s.workers| && s.workers[w].Waiting?
    case Close => true
    case Cancel => true            // by Stop, or through the context given to Start
    case Exit(w) => w < |s.workers| && s.workers[w].Idle? && s.cancelled
  }

  function Next(c: Config, s: State, l: Label): State
    requires Enabled(s, l)
  {
    match l
    case BeginPublish => if s.closed then s else s.(publishing := s.publishing + 1)
    case Send(topic) =>
      var t := s.(publishing := s.publishing - 1);
      if |s.messages| < c.bufferSize then
        t.(messages := s.messages + [Message(s.sent, topic, 0, c.maxRetries)],
           sent := s.sent + 1, uncounted := s.uncounted + 1)
      else t  // ErrQueueFull
    case GiveUp => s.(publishing := s.publishing - 1)
    case CountPublished => s.(uncounted := s.uncounted - 1, published := s.published + 1)
    case Subscribe(topic) => s.(topics := s.topics + {topic})
    case Unsubscribe(topic) => s.(topics := s.topics - {topic})
    case Receive(w) => s.(messages := s.messages[1..], workers := s.workers[w := Received(s.messages[0])])
    case Lookup(w) =>
      var m := s.workers[w].msg;
      if m.topic in s.topics then
        s.(workers := s.workers[w := Handling(m)], calls := s.calls[m.token := Calls(s, m.token) + 1])
      else s.(workers := s.workers[w := Idle], dropped := s.dropped + [m.token])
    case Succeed(w) =>
      s.(workers := s.workers[w := Idle], processed := s.processed + [s.workers[w].msg.token],
         topicStats := s.topicStats + multiset{s.workers[w].msg.topic})
    case Fail(w) =>
      var m := s.workers[w].msg;
      var m := m.(retries := m.retries + 1);
      if m.retries <= m.maxRetries then
        s.(workers := s.workers[w := Waiting(m)], retried := s.retried + 1)
      else s.(workers := s.workers[w := Idle], failed := s.failed + [m.token])
    case Resend(w) =>
      var m := s.workers[w].msg;
      if |s.messages| < c.bufferSize then s.(workers := s.workers[w := Idle], messages := s.messages + [m])
      else s.(workers := s.workers[w := Idle], failed := s.failed + [m.token])
    case Close => s.(closed := true)
    case Cancel => s.(cancelled := true)
    case Exit(w) => s.(workers := s.workers[w := Exited])
  }

  // -------------------------------------------------------------- the object

  datatype SendResult = Sent | ErrQueueFull

  // The shared fields, and what each worker goroutine is doing. The processed and
  // failed counters are kept as the lists of the messages they counted.
  class MemoryQueue {
    const config: Config
    var messages: seq<Message>
    var workers: seq<Worker>
    var topics: set<string>
    var closed: bool
    var cancelled: bool
    var publishing: nat
    var sent: nat
    var uncounted: nat
    var published: nat
    var retried: nat
    var processed: seq<nat>
    var topicStats: multiset<string>
    var failed: seq<nat>
    var dropped: seq<nat>
    var calls: map<nat, nat>

    ghost function Abs(): State
      reads this
    {
      State(messages, workers, topics, closed, cancelled, publishing, sent, uncounted,
            published, retried, processed, topicStats, failed, dropped, calls)
    }

    constructor (config: Config, workerCount: nat)
      ensures this.config == config && Abs() == Init(workerCount)
    {
      this.config := config;
      messages, workers, topics := [], seq(workerCount, _ => Idle), {};
      closed, cancelled, publishing, sent, uncounted, published, retried := false, false, 0, 0, 0, 0, 0;
      processed, topicStats, failed, dropped, calls := [], multiset{}, [], [], map[];
    }

    // Publish: the closed check, the non-blocking send, the counter.
    method CheckOpen() returns (open: bool)
      modifies this
      ensures open == !old(closed) && Abs() == Next(config, old(Abs()), BeginPublish)
    {
      if closed {
        return false;
      }
      publishing := publishing + 1;
      return true;
    }

    method TrySend(topic: string) returns (r: SendResult)
      requires publishing > 0
      modifies this
      ensures Abs() == Next(config, old(Abs()), Send(topic))
      ensures r == Sent <==> |old(messages)| < config.bufferSize
    {
      publishing := publishing - 1;
      if |messages| < config.bufferSize {
        messages := messages + [Message(sent, topic, 0, config.maxRetries)];
        sent := sent + 1;
        uncounted := uncounted + 1;
        return Sent;
      }
      return ErrQueueFull;
    }

    method IncrementPublished()
      requires uncounted > 0
      modifies this
      ensures Abs() == Next(config, old(Abs()), CountPublished)
    {
      uncounted := uncounted - 1;
      published := published + 1;
    }

    // The worker loop: receive, find the handler, run it.
    method ReceiveMessage(w: nat)
      requires Enabled(Abs(), Receive(w))
      modifies this
      ensures Abs() == Next(config, old(Abs()), Receive(w))
    {
      workers := workers[w := Received(messages[0])];
      messages := messages[1..];
    }

    method FindHandler(w: nat)
      requires Enabled(Abs(), Lookup(w))
      modifies this
      ensures Abs() == Next(config, old(Abs()), Lookup(w))
    {
      var msg := workers[w].msg;
      if msg.topic !in topics {
        dropped := dropped + [msg.token];
        workers := workers[w := Idle];
        return;
      }
      calls := calls[msg.token := (if msg.token in calls then calls[msg.token] else 0) + 1];
      workers := workers[w := Handling(msg)];
    }

    method HandlerReturned(w: nat, err: bool)
      requires Enabled(Abs(), Succeed(w))
      modifies this
      ensures Abs() == Next(config, old(Abs()), if err then Fail(w) else Succeed(w))
      ensures var m := old(workers[w].msg);
              if !err then
                processed == old(processed) + [m.token] && failed == old(failed) && retried == old(retried)
              else if m.retries < m.maxRetries then
                processed == old(processed) && failed == old(failed) && retried == old(retried) + 1
              else
                processed == old(processed) && failed == old(failed) + [m.token] && retried == old(retried)
    {
      var msg := workers[w].msg;
      if err {
        HandleFailure(w, msg);
      } else {
        processed := processed + [msg.token];
        topicStats := topicStats + multiset{msg.topic};
        workers := workers[w := Idle];
      }
    }

    method HandleFailure(w: nat, msg: Message)
      requires Enabled(Abs(), Fail(w)) && msg == workers[w].msg
      modifies this
      ensures Abs() == Next(config, old(Abs()), Fail(w))
    {
      var m := msg.(retries := msg.retries + 1);
      if m.retries <= m.maxRetries {
        retried := retried + 1;
        workers := workers[w := Waiting(m)];
      } else {
        failed := failed + [m.token];
        workers := workers[w := Idle];
      }
    }

    // After the delay: back into the channel, or given up when it is full.
    method RetrySend(w: nat)
      requires Enabled(Abs(), Resend(w))
      modifies this
      ensures Abs() == Next(config, old(Abs()), Resend(w))
    {
      var msg := workers[w].msg;
      if |messages| < config.bufferSize {
        messages := messages + [msg];
      } else {
        failed := failed + [msg.token];
      }
      workers := workers[w := Idle];
    }

    method StopAccepting()
      modifies this
      ensures Abs() == Next(config, old(Abs()), Close)
    {
      closed := true;
    }
  }

  // A run takes enabled steps of any goroutine in any order.
  ghost predicate IsRun(c: Config, s: State, run: seq<Label>)
    decreases |run|
  {
    run == [] || (Enabled(s, run[0]) && IsRun(c, Next(c, s, run[0]), run[1..]))
  }

  ghost function After(c: Config, s: State, run: seq<Label>): State
    requires IsRun(c, s, run)
    decreases |run|
  {
    if run == [] then s else After(c, Next(c, s, run[0]), run[1..])
  }

  // ------------------------------------------------------------ conservation

  predicate Holds(w: Worker, token: nat) {
    (w.Received? || w.Handling? || w.Waiting?) && w.msg.token == token
  }

  // How many workers hold the message.
  function HeldBy(ws: seq<Worker>, token: nat): nat {
    if ws == [] then 0
    else HeldBy(ws[..|ws| - 1], token) + (if Holds(ws[|ws| - 1], token) then 1 else 0)
  }

  // How many slots of the channel hold the message.
  function Queued(ms: seq<Message>, token: nat): nat {
    if ms == [] then 0
    else Queued(ms[..|ms| - 1], token) + (if ms[|ms| - 1].token == token then 1 else 0)
  }

  // In how many places a message is.
  function Places(s: State, token: nat): nat {
    Queued(s.messages, token) + HeldBy(s.workers, token)
    + multiset(s.processed)[token] + multiset(s.failed)[token] + multiset(s.dropped)[token]
  }

  function MaxOf(a: int, b: int): int {
    if a > b then a else b
  }

  // A message that may still be handled, `made` invocations behind it.
  ghost predicate Live(c: Config, s: State, m: Message, made: int) {
    && m.maxRetries == c.maxRetries
    && 0 <= m.retries <= MaxOf(0, c.maxRetries)
    && Calls(s, m.token) == made
  }

  ghost predicate WorkerLive(c: Config, s: State, w: Worker) {
    match w
    case Idle => true
    case Exited => true
    case Received(m) => Live(c, s, m, m.retries)
    case Handling(m) => Live(c, s, m, m.retries + 1)
    case Waiting(m) => Live(c, s, m, m.retries)
  }

  ghost predicate AllLive(c: Config, s: State) {
    && (forall i :: 0 <= i < |s.messages| ==> Live(c, s, s.messages[i], s.messages[i].retries))
    && (forall w :: 0 <= w < |s.workers| ==> WorkerLive(c, s, s.workers[w]))
  }

  // Every sent message is in exactly one place, and no other message is anywhere.
  ghost predicate Placed(s: State) {
    forall t: nat :: Places(s, t) == if t < s.sent then 1 else 0
  }

  // A message in flight was handled as often as its retry counter says, and none is
  // handled more than MaxRetries + 1 times; the channel keeps to its capacity.
  ghost predicate Inv(c: Config, s: State) {
    && Placed(s)
    && AllLive(c, s)
    && s.published + s.uncounted == s.sent
    && |s.messages| <= c.bufferSize
    && (forall t: nat :: t >= s.sent ==> Calls(s, t) == 0)
    && forall t: nat :: Calls(s, t) <= MaxOf(0, c.maxRetries) + 1
  }

  lemma {:induction false} HeldByUpdate(ws: seq<Worker>, w: nat, x: Worker, t: nat)
    requires w < |ws|
    ensures HeldBy(ws[w := x], t) ==
            HeldBy(ws, t) - (if Holds(ws[w], t) then 1 else 0) + (if Holds(x, t) then 1 else 0)
  {
    var n := |ws| - 1;
    if w < n {
      HeldByUpdate(ws[..n], w, x, t);
      assert ws[w := x][..n] == ws[..n][w := x];
    } else {
      assert ws[w := x][..n] == ws[..n];
    }
  }

  lemma {:induction false} QueuedFront(ms: seq<Message>, t: nat)
    requires ms != []
    ensures Queued(ms, t) == Queued(ms[1..], t) + (if ms[0].token == t then 1 else 0)
  {
    if |ms| > 1 {
      QueuedFront(ms[..|ms| - 1], t);
      assert ms[..|ms| - 1][1..] == ms[1..][..|ms| - 2];
    }
  }

  lemma QueuedBack(ms: seq<Message>, m: Message, t: nat)
    ensures Queued(ms + [m], t) == Queued(ms, t) + (if m.token == t then 1 else 0)
  {
    assert (ms + [m])[..|ms|] == ms;
  }

  lemma SendPlaces(c: Config, s: State, l: Label, t: nat)
    requires l.Send? && Enabled(s, l)
    ensures Places(Next(c, s, l), t) == Places(s, t) + (if Next(c, s, l).sent > s.sent == t then 1 else 0)
  {
    QueuedBack(s.messages, Message(s.sent, l.topic, 0, c.maxRetries), t);
  }

  lemma ReceivePlaces(c: Config, s: State, l: Label, t: nat)
    requires l.Receive? && Enabled(s, l)
    ensures Places(Next(c, s, l), t) == Places(s, t)
  {
    HeldByUpdate(s.workers, l.w, Received(s.messages[0]), t);
    QueuedFront(s.messages, t);
  }

  lemma CountPush(xs: seq<nat>, x: nat, t: nat)
    ensures multiset(xs + [x])[t] == multiset(xs)[t] + (if x == t then 1 else 0)
  {
  }

  lemma LookupPlaces(c: Config, s: State, w: nat, t: nat)
    requires Enabled(s, Lookup(w))
    ensures Places(Next(c, s, Lookup(w)), t) == Places(s, t)
  {
    var m := s.workers[w].msg;
    if m.topic in s.topics {
      HeldByUpdate(s.workers, w, Handling(m), t);
    } else {
      HeldByUpdate(s.workers, w, Idle, t);
      CountPush(s.dropped, m.token, t);
    }
  }

  lemma SucceedPlaces(c: Config, s: State, w: nat, t: nat)
    requires Enabled(s, Succeed(w))
    ensures Places(Next(c, s, Succeed(w)), t) == Places(s, t)
  {
    HeldByUpdate(s.workers, w, Idle, t);
    CountPush(s.processed, s.workers[w].msg.token, t);
  }

  lemma FailPlaces(c: Config, s: State, w: nat, t: nat)
    requires Enabled(s, Fail(w))
    ensures Places(Next(c, s, Fail(w)), t) == Places(s, t)
  {
    var was := s.workers[w].msg;
    var m := was.(retries := was.retries + 1);
    if m.retries <= m.maxRetries {
      HeldByUpdate(s.workers, w, Waiting(m), t);
    } else {
      HeldByUpdate(s.workers, w, Idle, t);
      CountPush(s.failed, m.token, t);
    }
  }

  lemma ResendPlaces(c: Config, s: State, l: Label, t: nat)
    requires l.Resend? && Enabled(s, l)
    ensures Places(Next(c, s, l), t) == Places(s, t)
  {
    HeldByUpdate(s.workers, l.w, Idle, t);
    if |s.messages| < c.bufferSize {
      QueuedBack(s.messages, s.workers[l.w].msg, t);
    } else {
      CountPush(s.failed, s.workers[l.w].msg.token, t);
    }
  }

  // A step moves a message from one place to another; only a send adds one.
  lemma PlacesMove(c: Config, s: State, l: Label, t: nat)
    requires Enabled(s, l)
    ensures Places(Next(c, s, l), t) == Places(s, t) + (if Next(c, s, l).sent > s.sent == t then 1 else 0)
  {
    match l
    case Send(_) => SendPlaces(c, s, l, t);
    case Receive(_) => ReceivePlaces(c, s, l, t);
    case Lookup(w) => LookupPlaces(c, s, w, t);
    case Succeed(w) => SucceedPlaces(c, s, w, t);
    case Fail(w) => FailPlaces(c, s, w, t);
    case Resend(_) => ResendPlaces(c, s, l, t);
    case Exit(w) => HeldByUpdate(s.workers, w, Exited, t);
    case _ =>
  }

  lemma {:induction false} QueuedHas(ms: seq<Message>, i: nat)
    requires i < |ms|
    ensures Queued(ms, ms[i].token) >= 1
  {
    if i < |ms| - 1 {
      QueuedHas(ms[..|ms| - 1], i);
    }
  }

  lemma HeldHas(ws: seq<Worker>, w: nat, t: nat)
    requires w < |ws| && Holds(ws[w], t)
    ensures HeldBy(ws, t) >= 1
    ensures forall v :: 0 <= v < |ws| && v != w && Holds(ws[v], t) ==> HeldBy(ws, t) >= 2
  {
    HeldByUpdate(ws, w, Idle, t);
    forall v | 0 <= v < |ws| && v != w && Holds(ws[v], t)
      ensures HeldBy(ws, t) >= 2
    {
      HeldByUpdate(ws[w := Idle], v, Idle, t);
    }
  }

  // The message a worker holds is nowhere else.
  lemma HeldAlone(s: State, w: nat)
    requires Placed(s) && w < |s.workers| && !s.workers[w].Idle? && !s.workers[w].Exited?
    ensures s.workers[w].msg.token < s.sent
    ensures forall v :: 0 <= v < |s.workers| && v != w ==> !Holds(s.workers[v], s.workers[w].msg.token)
    ensures forall i :: 0 <= i < |s.messages| ==> s.messages[i].token != s.workers[w].msg.token
  {
    var t := s.workers[w].msg.token;
    assert Places(s, t) == if t < s.sent then 1 else 0;
    HeldHas(s.workers, w, t);
    forall i | 0 <= i < |s.messages|
      ensures s.messages[i].token != t
    {
      QueuedHas(s.messages, i);
    }
  }

  // One more invocation for the message looked up, which has retries left for it.
  lemma LookupCalls(c: Config, s: State, w: nat, t: nat)
    requires Inv(c, s) && Enabled(s, Lookup(w))
    ensures var m, s' := s.workers[w].msg, Next(c, s, Lookup(w));
            && Calls(s', t) == Calls(s, t) + (if m.topic in s.topics && t == m.token then 1 else 0)
            && (t >= s.sent ==> Calls(s', t) == 0) && Calls(s', t) <= MaxOf(0, c.maxRetries) + 1
  {
    HeldAlone(s, w);
    assert WorkerLive(c, s, s.workers[w]);
    assert t >= s.sent ==> Calls(s, t) == 0;
    assert Calls(s, t) <= MaxOf(0, c.maxRetries) + 1;
  }

  lemma LookupKeepsLive(c: Config, s: State, l: Label)
    requires Inv(c, s) && l.Lookup? && Enabled(s, l)
    ensures AllLive(c, Next(c, s, l))
    ensures forall t: nat :: t >= s.sent ==> Calls(Next(c, s, l), t) == 0
    ensures forall t: nat :: Calls(Next(c, s, l), t) <= MaxOf(0, c.maxRetries) + 1
  {
    forall t: nat
      ensures t >= s.sent ==> Calls(Next(c, s, l), t) == 0
      ensures Calls(Next(c, s, l), t) <= MaxOf(0, c.maxRetries) + 1
    {
      LookupCalls(c, s, l.w, t);
    }
    LookupLive(c, s, l.w);
  }

  lemma LookupMessage(c: Config, s: State, w: nat, i: nat)
    requires Placed(s) && AllLive(c, s) && Enabled(s, Lookup(w)) && i < |s.messages|
    ensures Live(c, Next(c, s, Lookup(w)), s.messages[i], s.messages[i].retries)
  {
    HeldAlone(s, w);
    assert Live(c, s, s.messages[i], s.messages[i].retries);
  }

  lemma LookupWorker(c: Config, s: State, w: nat, v: nat)
    requires Placed(s) && AllLive(c, s) && Enabled(s, Lookup(w)) && v < |s.workers|
    ensures WorkerLive(c, Next(c, s, Lookup(w)), Next(c, s, Lookup(w)).workers[v])
  {
    HeldAlone(s, w);
    assert WorkerLive(c, s, s.workers[v]);
    assert v != w ==> !Holds(s.workers[v], s.workers[w].msg.token);
  }

  lemma LookupLive(c: Config, s: State, w: nat)
    requires Placed(s) && AllLive(c, s) && Enabled(s, Lookup(w))
    ensures AllLive(c, Next(c, s, Lookup(w)))
  {
    var s' := Next(c, s, Lookup(w));
    forall i | 0 <= i < |s'.messages|
      ensures Live(c, s', s'.messages[i], s'.messages[i].retries)
    {
      LookupMessage(c, s, w, i);
    }
    forall v | 0 <= v < |s'.workers|
      ensures WorkerLive(c, s', s'.workers[v])
    {
      LookupWorker(c, s, w, v);
    }
  }

  // Only Lookup invokes a handler.
  lemma CallsKept(c: Config, s: State, l: Label)
    requires Enabled(s, l) && !l.Lookup?
    ensures Next(c, s, l).calls == s.calls
    ensures forall t :: Calls(Next(c, s, l), t) == Calls(s, t)
    ensures forall m, made :: Live(c, s, m, made) ==> Live(c, Next(c, s, l), m, made)
  {
    assert Next(c, s, l).calls == s.calls;
  }

  lemma WorkerStaysLive(c: Config, s: State, l: Label, w: nat)
    requires AllLive(c, s) && Enabled(s, l) && !l.Lookup? && w < |s.workers|
    ensures WorkerLive(c, s, Next(c, s, l).workers[w])
  {
    assert WorkerLive(c, s, s.workers[w]);
  }

  lemma WorkersStayLive(c: Config, s: State, l: Label)
    requires AllLive(c, s) && Enabled(s, l) && !l.Lookup?
    ensures forall w :: 0 <= w < |Next(c, s, l).workers| ==> WorkerLive(c, Next(c, s, l), Next(c, s, l).workers[w])
  {
    var s' := Next(c, s, l);
    forall w | 0 <= w < |s'.workers|
      ensures WorkerLive(c, s', s'.workers[w])
    {
      WorkerStaysLive(c, s, l, w);
      CallsKept(c, s, l);
    }
  }

  lemma MessagesStayLive(c: Config, s: State, l: Label)
    requires Inv(c, s) && Enabled(s, l) && !l.Lookup?
    ensures forall i :: 0 <= i < |Next(c, s, l).messages| ==>
              Live(c, Next(c, s, l), Next(c, s, l).messages[i], Next(c, s, l).messages[i].retries)
  {
    CallsKept(c, s, l);
    var s' := Next(c, s, l);
    if l.Send? {
      assert Calls(s, s.sent) == 0;
    } else if l.Resend? {
      assert WorkerLive(c, s, s.workers[l.w]);
    }
  }

  lemma NextPlaced(c: Config, s: State, l: Label)
    requires Placed(s) && Enabled(s, l)
    ensures Placed(Next(c, s, l))
    ensures Next(c, s, l).sent >= s.sent
  {
    var s' := Next(c, s, l);
    forall t: nat
      ensures Places(s', t) == if t < s'.sent then 1 else 0
    {
      PlacesMove(c, s, l, t);
      assert Places(s, t) == if t < s.sent then 1 else 0;
    }
  }

  lemma NextKeepsInv(c: Config, s: State, l: Label)
    requires Inv(c, s) && Enabled(s, l)
    ensures Inv(c, Next(c, s, l))
  {
    NextPlaced(c, s, l);
    if l.Lookup? {
      LookupKeepsLive(c, s, l);
    } else {
      CallsKept(c, s, l);
      MessagesStayLive(c, s, l);
      WorkersStayLive(c, s, l);
    }
  }

  lemma InitInv(c: Config, n: nat)
    ensures Inv(c, Init(n))
  {
    forall t: nat
      ensures Places(Init(n), t) == 0
    {
      NobodyHolds(Init(n).workers, t);
    }
  }

  lemma {:induction false} NobodyHolds(ws: seq<Worker>, t: nat)
    requires forall w :: 0 <= w < |ws| ==> ws[w].Idle?
    ensures HeldBy(ws, t) == 0
  {
    if ws != [] {
      NobodyHolds(ws[..|ws| - 1], t);
    }
  }

  lemma {:induction false} RunKeepsInv(c: Config, s: State, run: seq<Label>)
    requires Inv(c, s) && IsRun(c, s, run)
    ensures Inv(c, After(c, s, run))
    decreases |run|
  {
    if run != [] {
      NextKeepsInv(c, s, run[0]);
      RunKeepsInv(c, Next(c, s, run[0]), run[1..]);
    }
  }

  // ------------------------------------------------------------- the ledger

  function Busy(ws: seq<Worker>): nat {
    if ws == [] then 0
    else Busy(ws[..|ws| - 1]) + (if ws[|ws| - 1].Idle? || ws[|ws| - 1].Exited? then 0 else 1)
  }

  lemma {:induction false} BusyUpdate(ws: seq<Worker>, w: nat, x: Worker)
    requires w < |ws|
    ensures Busy(ws[w := x]) == Busy(ws) - (if ws[w].Idle? || ws[w].Exited? then 0 else 1)
                                + (if x.Idle? || x.Exited? then 0 else 1)
  {
    var n := |ws| - 1;
    if w < n {
      BusyUpdate(ws[..n], w, x);
      assert ws[w := x][..n] == ws[..n][w := x];
    } else {
      assert ws[w := x][..n] == ws[..n];
    }
  }

  // sent = processed + failed + dropped + queued + with a worker (in the handler, or
  // waiting to retry).
  ghost predicate Balanced(s: State) {
    s.sent == |s.processed| + |s.failed| + |s.dropped| + |s.messages| + Busy(s.workers)
  }

  // The counters of the topics add up to the messages processed.
  ghost predicate Tallied(s: State) {
    |s.topicStats| == |s.processed|
  }

  predicate OfWorker(l: Label) {
    l.Receive? || l.Lookup? || l.Succeed? || l.Fail? || l.Resend? || l.Exit?
  }

  // What a step of one worker changes in the ledger.
  lemma WorkerBalanced(c: Config, s: State, l: Label)
    requires OfWorker(l)
    requires Enabled(s, l) && Balanced(s)
    ensures Balanced(Next(c, s, l))
  {
    var x := Next(c, s, l).workers[l.w];
    assert Next(c, s, l).workers == s.workers[l.w := x];
    BusyUpdate(s.workers, l.w, x);
  }

  lemma NextBalanced(c: Config, s: State, l: Label)
    requires Enabled(s, l) && Balanced(s)
    ensures Balanced(Next(c, s, l))
  {
    if OfWorker(l) {
      WorkerBalanced(c, s, l);
    }
  }

  lemma NextTallied(c: Config, s: State, l: Label)
    requires Enabled(s, l) && Tallied(s)
    ensures Tallied(Next(c, s, l))
  {
  }

  lemma {:induction false} RunBalanced(c: Config, s: State, run: seq<Label>)
    requires Balanced(s) && Tallied(s) && IsRun(c, s, run)
    ensures Balanced(After(c, s, run)) && Tallied(After(c, s, run))
    decreases |run|
  {
    if run != [] {
      NextBalanced(c, s, run[0]);
      NextTallied(c, s, run[0]);
      RunBalanced(c, Next(c, s, run[0]), run[1..]);
    }
  }

  lemma {:induction false} NobodyBusy(n: nat)
    ensures Busy(seq(n, _ => Idle)) == 0
  {
    if n > 0 {
      var ws: seq<Worker> := seq(n, _ => Idle);
      assert ws[..n - 1] == seq(n - 1, _ => Idle);
      NobodyBusy(n - 1);
    }
  }

  // Every run of a new queue keeps the invariant and the ledger.
  lemma QueueRuns(c: Config, workerCount: nat, run: seq<Label>)
    requires IsRun(c, Init(workerCount), run)
    ensures Inv(c, After(c, Init(workerCount), run))
    ensures Balanced(After(c, Init(workerCount), run)) && Tallied(After(c, Init(workerCount), run))
  {
    InitInv(c, workerCount);
    NobodyBusy(workerCount);
    RunKeepsInv(c, Init(workerCount), run);
    RunBalanced(c, Init(workerCount), run);
  }

  // ----------------------------------------------------- the history of a run

  // What one step does, seen from outside: the message a worker is busy with.
  datatype Happening = Started | Succeeded | Erred | FoundFull | Unhandled

  function Concerns(c: Config, s: State, l: Label, t: nat, h: Happening): bool
    requires Enabled(s, l)
  {
    match h
    case Started => l.Lookup? && s.workers[l.w].msg.token == t && s.workers[l.w].msg.topic in s.topics
    case Unhandled => l.Lookup? && s.workers[l.w].msg.token == t && s.workers[l.w].msg.topic !in s.topics
    case Succeeded => l.Succeed? && s.workers[l.w].msg.token == t
    case Erred => l.Fail? && s.workers[l.w].msg.token == t
    case FoundFull => l.Resend? && s.workers[l.w].msg.token == t && |s.messages| >= c.bufferSize
  }

  // How often it happened to message t in a run.
  function Times(c: Config, s: State, run: seq<Label>, t: nat, h: Happening): nat
    requires IsRun(c, s, run)
    decreases |run|
  {
    if run == [] then 0
    else (if Concerns(c, s, run[0], t, h) then 1 else 0) + Times(c, Next(c, s, run[0]), run[1..], t, h)
  }

  // A message is counted as processed, dropped and handled as often as that happened.
  lemma {:induction false} Counted(c: Config, s: State, run: seq<Label>, t: nat)
    requires IsRun(c, s, run)
    ensures var s' := After(c, s, run);
            && multiset(s'.processed)[t] == multiset(s.processed)[t] + Times(c, s, run, t, Succeeded)
            && multiset(s'.dropped)[t] == multiset(s.dropped)[t] + Times(c, s, run, t, Unhandled)
            && Calls(s', t) == Calls(s, t) + Times(c, s, run, t, Started)
    decreases |run|
  {
    if run != [] {
      CountedStep(c, s, run[0], t);
      Counted(c, Next(c, s, run[0]), run[1..], t);
    }
  }

  lemma CountedStep(c: Config, s: State, l: Label, t: nat)
    requires Enabled(s, l)
    ensures var s' := Next(c, s, l);
            && multiset(s'.processed)[t]
               == multiset(s.processed)[t] + (if Concerns(c, s, l, t, Succeeded) then 1 else 0)
            && multiset(s'.dropped)[t] == multiset(s.dropped)[t] + (if Concerns(c, s, l, t, Unhandled) then 1 else 0)
            && Calls(s', t) == Calls(s, t) + (if Concerns(c, s, l, t, Started) then 1 else 0)
  {
    if l.Succeed? {
      assert Next(c, s, l).dropped == s.dropped && Next(c, s, l).calls == s.calls;
      CountPush(s.processed, s.workers[l.w].msg.token, t);
    } else if l.Lookup? {
      CountedLookup(c, s, l, t);
    } else {
      CountedOther(c, s, l);
    }
  }

  lemma CountedLookup(c: Config, s: State, l: Label, t: nat)
    requires Enabled(s, l) && l.Lookup?
    ensures var s' := Next(c, s, l);
            && s'.processed == s.processed
            && multiset(s'.dropped)[t] == multiset(s.dropped)[t] + (if Concerns(c, s, l, t, Unhandled) then 1 else 0)
            && Calls(s', t) == Calls(s, t) + (if Concerns(c, s, l, t, Started) then 1 else 0)
  {
    CountPush(s.dropped, s.workers[l.w].msg.token, t);
  }

  lemma CountedOther(c: Config, s: State, l: Label)
    requires Enabled(s, l) && !l.Succeed? && !l.Lookup?
    ensures var s' := Next(c, s, l);
            s'.processed == s.processed && s'.dropped == s.dropped && s'.calls == s.calls
  {
  }

  // Message t after `errors` errors and `full` retries that found no room: it has failed
  // exactly when one of the errors was the last one allowed or there was no room.
  ghost predicate Tracks(c: Config, s: State, t: nat, errors: nat, full: nat) {
    && errors <= MaxOf(0, c.maxRetries) + 1 && errors <= Calls(s, t)
    && (t in s.failed <==> errors == MaxOf(0, c.maxRetries) + 1 || full > 0)
    && (forall i :: 0 <= i < |s.messages| && s.messages[i].token == t ==> s.messages[i].retries == errors)
    && (forall w :: 0 <= w < |s.workers| && Holds(s.workers[w], t) ==> s.workers[w].msg.retries == errors)
    && (t >= s.sent ==> errors == 0 && full == 0)
  }

  // A message that a worker holds has not failed.
  lemma HeldNotFailed(s: State, w: nat)
    requires Placed(s) && w < |s.workers| && !s.workers[w].Idle? && !s.workers[w].Exited?
    ensures s.workers[w].msg.token !in s.failed
  {
    var t := s.workers[w].msg.token;
    assert Places(s, t) == if t < s.sent then 1 else 0;
    HeldHas(s.workers, w, t);
  }

  lemma TracksSend(c: Config, s: State, l: Label, t: nat, errors: nat, full: nat)
    requires Placed(s) && Tracks(c, s, t, errors, full) && Enabled(s, l) && l.Send?
    ensures Tracks(c, Next(c, s, l), t, errors, full)
  {
  }

  lemma TracksReceive(c: Config, s: State, l: Label, t: nat, errors: nat, full: nat)
    requires Tracks(c, s, t, errors, full) && Enabled(s, l) && l.Receive?
    ensures Tracks(c, Next(c, s, l), t, errors, full)
  {
  }

  lemma TracksFail(c: Config, s: State, l: Label, t: nat, errors: nat, full: nat)
    requires Placed(s) && AllLive(c, s) && Tracks(c, s, t, errors, full) && Enabled(s, l) && l.Fail?
    ensures Tracks(c, Next(c, s, l), t, errors + (if s.workers[l.w].msg.token == t then 1 else 0), full)
  {
    HeldAlone(s, l.w);
    HeldNotFailed(s, l.w);
    assert WorkerLive(c, s, s.workers[l.w]);
  }

  lemma TracksResend(c: Config, s: State, l: Label, t: nat, errors: nat, full: nat)
    requires Placed(s) && Tracks(c, s, t, errors, full) && Enabled(s, l) && l.Resend?
    ensures Tracks(c, Next(c, s, l), t, errors, full + (if Concerns(c, s, l, t, FoundFull) then 1 else 0))
  {
    HeldAlone(s, l.w);
    HeldNotFailed(s, l.w);
  }

  lemma TracksOther(c: Config, s: State, l: Label, t: nat, errors: nat, full: nat)
    requires Tracks(c, s, t, errors, full) && Enabled(s, l) && !l.Send? && !l.Receive? && !l.Fail? && !l.Resend?
    ensures Tracks(c, Next(c, s, l), t, errors, full)
  {
  }

  lemma TracksStep(c: Config, s: State, l: Label, t: nat, errors: nat, full: nat)
    requires Placed(s) && AllLive(c, s) && Tracks(c, s, t, errors, full) && Enabled(s, l)
    ensures Tracks(c, Next(c, s, l), t, errors + (if Concerns(c, s, l, t, Erred) then 1 else 0),
                   full + (if Concerns(c, s, l, t, FoundFull) then 1 else 0))
  {
    if l.Send? {
      TracksSend(c, s, l, t, errors, full);
    } else if l.Receive? {
      TracksReceive(c, s, l, t, errors, full);
    } else if l.Fail? {
      TracksFail(c, s, l, t, errors, full);
    } else if l.Resend? {
      TracksResend(c, s, l, t, errors, full);
    } else {
      TracksOther(c, s, l, t, errors, full);
    }
  }

  lemma {:induction false} TracksRun(c: Config, s: State, run: seq<Label>, t: nat, errors: nat, full: nat)
    requires Inv(c, s) && Tracks(c, s, t, errors, full) && IsRun(c, s, run)
    ensures Tracks(c, After(c, s, run), t, errors + Times(c, s, run, t, Erred), full + Times(c, s, run, t, FoundFull))
    decreases |run|
  {
    if run != [] {
      var e := if Concerns(c, s, run[0], t, Erred) then 1 else 0;
      var f := if Concerns(c, s, run[0], t, FoundFull) then 1 else 0;
      TracksStep(c, s, run[0], t, errors, full);
      NextKeepsInv(c, s, run[0]);
      TracksRun(c, Next(c, s, run[0]), run[1..], t, errors + e, full + f);
    }
  }

  // The fate of every message in every run of a new queue: processed exactly when its
  // handler succeeded, dropped exactly when it had none, failed exactly when its handler
  // returned MaxRetries + 1 errors or a retry found the channel full.
  lemma Fate(c: Config, n: nat, run: seq<Label>, t: nat)
    requires IsRun(c, Init(n), run)
    ensures var s := After(c, Init(n), run);
            && multiset(s.processed)[t] == Times(c, Init(n), run, t, Succeeded)
            && multiset(s.dropped)[t] == Times(c, Init(n), run, t, Unhandled)
            && Calls(s, t) == Times(c, Init(n), run, t, Started)
            && Times(c, Init(n), run, t, Erred) <= Calls(s, t) <= MaxOf(0, c.maxRetries) + 1
            && (t in s.failed <==>
                || Times(c, Init(n), run, t, Erred) == MaxOf(0, c.maxRetries) + 1
                || Times(c, Init(n), run, t, FoundFull) > 0)
  {
    InitInv(c, n);
    RunKeepsInv(c, Init(n), run);
    Counted(c, Init(n), run, t);
    TracksRun(c, Init(n), run, t, 0, 0);
  }

  // The errors of a run at which the message had retries left.
  function Retriable(c: Config, s: State, run: seq<Label>): nat
    requires IsRun(c, s, run)
    decreases |run|
  {
    if run == [] then 0
    else (if run[0].Fail? && Calls(s, s.workers[run[0].w].msg.token) <= c.maxRetries then 1 else 0)
         + Retriable(c, Next(c, s, run[0]), run[1..])
  }

  // Exactly those are counted as retried.
  lemma {:induction false} RetriedExact(c: Config, s: State, run: seq<Label>)
    requires Inv(c, s) && IsRun(c, s, run)
    ensures After(c, s, run).retried == s.retried + Retriable(c, s, run)
    decreases |run|
  {
    if run != [] {
      RetriedStep(c, s, run[0]);
      NextKeepsInv(c, s, run[0]);
      RetriedExact(c, Next(c, s, run[0]), run[1..]);
    }
  }

  lemma RetriedStep(c: Config, s: State, l: Label)
    requires AllLive(c, s) && Enabled(s, l)
    ensures Next(c, s, l).retried
            == s.retried + (if l.Fail? && Calls(s, s.workers[l.w].msg.token) <= c.maxRetries then 1 else 0)
  {
    if l.Fail? {
      assert WorkerLive(c, s, s.workers[l.w]);
    }
  }

  function Tokens(ms: seq<Message>): (r: seq<nat>)
    ensures |r| == |ms|
  {
    seq(|ms|, i requires 0 <= i < |ms| => ms[i].token)
  }

  // The message a step puts in the channel, by Publish or by a retry, and the one a worker
  // has taken by it.
  function Put(c: Config, s: State, l: Label): seq<nat>
    requires Enabled(s, l)
  {
    if |s.messages| >= c.bufferSize then []
    else if l.Send? then [s.sent]
    else if l.Resend? then [s.workers[l.w].msg.token]
    else []
  }

  function Took(c: Config, s: State, l: Label): seq<nat>
    requires Enabled(s, l)
  {
    var next := Next(c, s, l);
    if l.Receive? && next.workers[l.w].Received? then [next.workers[l.w].msg.token] else []
  }

  function Puts(c: Config, s: State, run: seq<Label>): seq<nat>
    requires IsRun(c, s, run)
    decreases |run|
  {
    if run == [] then [] else Put(c, s, run[0]) + Puts(c, Next(c, s, run[0]), run[1..])
  }

  function Takes(c: Config, s: State, run: seq<Label>): seq<nat>
    requires IsRun(c, s, run)
    decreases |run|
  {
    if run == [] then [] else Took(c, s, run[0]) + Takes(c, Next(c, s, run[0]), run[1..])
  }

  lemma FifoJoins(ms: seq<nat>, put: seq<nat>, puts: seq<nat>, took: seq<nat>, next: seq<nat>, takes: seq<nat>,
                  end: seq<nat>)
    requires ms + put == took + next && next + puts == takes + end
    ensures ms + (put + puts) == (took + takes) + end
  {
    assert ms + (put + puts) == (ms + put) + puts;
    assert (took + next) + puts == took + (next + puts);
    assert took + (takes + end) == (took + takes) + end;
  }

  lemma FifoStep(c: Config, s: State, l: Label)
    requires Enabled(s, l)
    ensures Tokens(s.messages) + Put(c, s, l) == Took(c, s, l) + Tokens(Next(c, s, l).messages)
  {
    if l.Receive? {
      assert s.messages == [s.messages[0]] + s.messages[1..];
    }
  }

  // First in, first out: in every run the workers take the messages in the order in which
  // they were put in, and the rest is still there.
  lemma {:induction false} Fifo(c: Config, s: State, run: seq<Label>)
    requires IsRun(c, s, run)
    ensures Tokens(s.messages) + Puts(c, s, run) == Takes(c, s, run) + Tokens(After(c, s, run).messages)
    decreases |run|
  {
    if run != [] {
      var l, next := run[0], Next(c, s, run[0]);
      FifoStep(c, s, l);
      Fifo(c, next, run[1..]);
      FifoJoins(Tokens(s.messages), Put(c, s, l), Puts(c, next, run[1..]),
                Took(c, s, l), Tokens(next.messages), Takes(c, next, run[1..]), Tokens(After(c, s, run).messages));
    }
  }

  // The topics of the messages that Publish put in the channel.
  function Topics(c: Config, s: State, run: seq<Label>): seq<string>
    requires IsRun(c, s, run)
    decreases |run|
  {
    if run == [] then []
    else
      (if run[0].Send? && |s.messages| < c.bufferSize then [run[0].topic] else [])
      + Topics(c, Next(c, s, run[0]), run[1..])
  }

  predicate TopicOf(topics: seq<string>, m: Message) {
    m.token < |topics| && m.topic == topics[m.token]
  }

  function TopicsOf(topics: seq<string>, tokens: seq<nat>): multiset<string> {
    if tokens == [] then multiset{}
    else
      var t := tokens[|tokens| - 1];
      TopicsOf(topics, tokens[..|tokens| - 1]) + (if t < |topics| then multiset{topics[t]} else multiset{})
  }

  // Every message keeps the topic it was published under, and is tallied under it.
  ghost predicate Topical(s: State, topics: seq<string>) {
    && |topics| == s.sent
    && (forall i :: 0 <= i < |s.messages| ==> TopicOf(topics, s.messages[i]))
    && (forall w :: 0 <= w < |s.workers| ==> WorkerTopical(topics, s.workers[w]))
    && (forall t :: t in s.processed ==> t < |topics|)
    && s.topicStats == TopicsOf(topics, s.processed)
  }

  lemma {:induction false} TopicsOfMore(topics: seq<string>, topic: string, tokens: seq<nat>)
    requires forall t :: t in tokens ==> t < |topics|
    ensures TopicsOf(topics + [topic], tokens) == TopicsOf(topics, tokens)
  {
    if tokens != [] {
      var front := tokens[..|tokens| - 1];
      assert tokens[|tokens| - 1] in tokens && forall t :: t in front ==> t in tokens;
      TopicsOfMore(topics, topic, front);
    }
  }

  lemma TopicalSend(c: Config, s: State, l: Label, topics: seq<string>)
    requires Topical(s, topics) && Enabled(s, l) && l.Send? && |s.messages| < c.bufferSize
    ensures Topical(Next(c, s, l), topics + [l.topic])
  {
    TopicsOfMore(topics, l.topic, s.processed);
  }

  lemma TopicalSucceed(c: Config, s: State, l: Label, topics: seq<string>)
    requires Topical(s, topics) && Enabled(s, l) && l.Succeed?
    ensures Topical(Next(c, s, l), topics)
  {
    var t := s.workers[l.w].msg.token;
    assert WorkerTopical(topics, s.workers[l.w]);
    assert (s.processed + [t])[..|s.processed|] == s.processed;
  }

  predicate WorkerTopical(topics: seq<string>, w: Worker) {
    w.Idle? || w.Exited? || TopicOf(topics, w.msg)
  }

  // A step changes at most one worker.
  lemma OneWorker(c: Config, s: State, l: Label)
    requires Enabled(s, l)
    ensures Next(c, s, l).workers == if OfWorker(l) then s.workers[l.w := Next(c, s, l).workers[l.w]] else s.workers
  {
  }

  // It keeps its message, takes the first one or has none any more.
  lemma WorkerMessage(c: Config, s: State, l: Label)
    requires Enabled(s, l) && OfWorker(l)
    ensures var x, y := s.workers[l.w], Next(c, s, l).workers[l.w];
            || y.Idle? || y.Exited? || (s.messages != [] && y == Received(s.messages[0]))
            || (!x.Idle? && !x.Exited? && y.msg.token == x.msg.token && y.msg.topic == x.msg.topic)
  {
  }

  lemma WorkerStaysTopical(c: Config, s: State, l: Label, topics: seq<string>, w: nat)
    requires Topical(s, topics) && Enabled(s, l) && w < |s.workers| && w < |Next(c, s, l).workers|
    ensures WorkerTopical(topics, Next(c, s, l).workers[w])
  {
    OneWorker(c, s, l);
    assert WorkerTopical(topics, s.workers[w]);
    if OfWorker(l) && l.w == w {
      WorkerMessage(c, s, l);
      assert s.messages != [] ==> TopicOf(topics, s.messages[0]);
    }
  }

  lemma TopicalOther(c: Config, s: State, l: Label, topics: seq<string>)
    requires Topical(s, topics) && Enabled(s, l) && !l.Succeed? && !(l.Send? && |s.messages| < c.bufferSize)
    ensures Topical(Next(c, s, l), topics)
  {
    var s' := Next(c, s, l);
    OneWorker(c, s, l);
    forall w | 0 <= w < |s'.workers|
      ensures WorkerTopical(topics, s'.workers[w])
    {
      WorkerStaysTopical(c, s, l, topics, w);
    }
    MessagesStayTopical(c, s, l, topics);
    assert s'.processed == s.processed && s'.topicStats == s.topicStats && s'.sent == s.sent;
  }

  lemma MessagesStayTopical(c: Config, s: State, l: Label, topics: seq<string>)
    requires Topical(s, topics) && Enabled(s, l) && !(l.Send? && |s.messages| < c.bufferSize)
    ensures forall i :: 0 <= i < |Next(c, s, l).messages| ==> TopicOf(topics, Next(c, s, l).messages[i])
  {
    if l.Resend? {
      assert WorkerTopical(topics, s.workers[l.w]);
    }
  }

  lemma {:induction false} TopicsKept(c: Config, s: State, run: seq<Label>, topics: seq<string>)
    requires Topical(s, topics) && IsRun(c, s, run)
    ensures Topical(After(c, s, run), topics + Topics(c, s, run))
    decreases |run|
  {
    if run == [] {
      assert topics + [] == topics;
    } else {
      var l := run[0];
      if l.Send? && |s.messages| < c.bufferSize {
        TopicalSend(c, s, l, topics);
        TopicsKept(c, Next(c, s, l), run[1..], topics + [l.topic]);
        Regroup(topics, l.topic, Topics(c, Next(c, s, l), run[1..]));
      } else {
        if l.Succeed? {
          TopicalSucceed(c, s, l, topics);
        } else {
          TopicalOther(c, s, l, topics);
        }
        TopicsKept(c, Next(c, s, l), run[1..], topics);
        assert Topics(c, s, run) == Topics(c, Next(c, s, l), run[1..]);
      }
    }
  }

  // So in every run of a new queue each message in flight and each tally has the topic it
  // was published under.
  lemma QueueTopics(c: Config, n: nat, run: seq<Label>)
    requires IsRun(c, Init(n), run)
    ensures Topical(After(c, Init(n), run), Topics(c, Init(n), run))
  {
    TopicsKept(c, Init(n), run, []);
    assert [] + Topics(c, Init(n), run) == Topics(c, Init(n), run);
  }

  // Once closed, the queue accepts no more than the calls that had passed the check.
  lemma {:induction false} ClosedForGood(c: Config, s: State, run: seq<Label>)
    requires s.closed && IsRun(c, s, run)
    ensures var s' := After(c, s, run); s'.closed && s'.sent + s'.publishing <= s.sent + s.publishing
    decreases |run|
  {
    if run != [] {
      ClosedForGood(c, Next(c, s, run[0]), run[1..]);
    }
  }

  // ------------------------------------------------------------ quiescence

  // The steps left once nobody publishes, subscribes or stops the queue any more.
  predicate Internal(l: Label) {
    l.CountPublished? || OfWorker(l)
  }

  // Four steps per handler invocation a message may still get, and its phase.
  function RetriesLeft(m: Message): nat {
    if m.retries < m.maxRetries then m.maxRetries - m.retries else 0
  }

  function Work(w: Worker): nat {
    match w
    case Exited => 0
    case Idle => 1
    case Received(m) => 4 * RetriesLeft(m) + 4
    case Handling(m) => 4 * RetriesLeft(m) + 3
    case Waiting(m) => 4 * RetriesLeft(m) + 6
  }

  function WorkOf(ws: seq<Worker>): nat {
    if ws == [] then 0 else WorkOf(ws[..|ws| - 1]) + Work(ws[|ws| - 1])
  }

  function Backlog(ms: seq<Message>): nat {
    if ms == [] then 0 else Backlog(ms[..|ms| - 1]) + 4 * RetriesLeft(ms[|ms| - 1]) + 4
  }

  function Measure(s: State): nat {
    s.uncounted + WorkOf(s.workers) + Backlog(s.messages)
  }

  lemma {:induction false} WorkUpdate(ws: seq<Worker>, w: nat, x: Worker)
    requires w < |ws|
    ensures WorkOf(ws[w := x]) == WorkOf(ws) - Work(ws[w]) + Work(x)
  {
    var n := |ws| - 1;
    if w < n {
      WorkUpdate(ws[..n], w, x);
      assert ws[w := x][..n] == ws[..n][w := x];
    } else {
      assert ws[w := x][..n] == ws[..n];
    }
  }

  lemma {:induction false} BacklogFront(ms: seq<Message>)
    requires ms != []
    ensures Backlog(ms) == Backlog(ms[1..]) + 4 * RetriesLeft(ms[0]) + 4
  {
    if |ms| > 1 {
      BacklogFront(ms[..|ms| - 1]);
      assert ms[..|ms| - 1][1..] == ms[1..][..|ms| - 2];
    }
  }

  lemma BacklogBack(ms: seq<Message>, m: Message)
    ensures Backlog(ms + [m]) == Backlog(ms) + 4 * RetriesLeft(m) + 4
  {
    assert (ms + [m])[..|ms|] == ms;
  }

  lemma ReceiveDrops(c: Config, s: State, w: nat)
    requires Enabled(s, Receive(w))
    ensures Measure(Next(c, s, Receive(w))) < Measure(s)
  {
    BacklogFront(s.messages);
    WorkUpdate(s.workers, w, Received(s.messages[0]));
  }

  lemma ResendDrops(c: Config, s: State, w: nat)
    requires Enabled(s, Resend(w))
    ensures Measure(Next(c, s, Resend(w))) < Measure(s)
  {
    BacklogBack(s.messages, s.workers[w].msg);
    WorkUpdate(s.workers, w, Idle);
  }

  lemma FailDrops(c: Config, s: State, w: nat)
    requires Enabled(s, Fail(w))
    ensures Measure(Next(c, s, Fail(w))) < Measure(s)
  {
    var was := s.workers[w].msg;
    var m := was.(retries := was.retries + 1);
    WorkUpdate(s.workers, w, if m.retries <= m.maxRetries then Waiting(m) else Idle);
  }

  lemma MeasureDrops(c: Config, s: State, l: Label)
    requires Enabled(s, l) && Internal(l)
    ensures Measure(Next(c, s, l)) < Measure(s)
  {
    if l.Receive? {
      ReceiveDrops(c, s, l.w);
    } else if l.Resend? {
      ResendDrops(c, s, l.w);
    } else if l.Fail? {
      FailDrops(c, s, l.w);
    } else if l.Lookup? {
      var m := s.workers[l.w].msg;
      WorkUpdate(s.workers, l.w, if m.topic in s.topics then Handling(m) else Idle);
    } else if !l.CountPublished? {
      WorkUpdate(s.workers, l.w, if l.Exit? then Exited else Idle);
    }
  }

  // Without further publishes the queue stops after at most Measure steps.
  lemma {:induction false} Quiesces(c: Config, s: State, run: seq<Label>)
    requires IsRun(c, s, run) && forall k :: 0 <= k < |run| ==> Internal(run[k])
    ensures |run| <= Measure(s)
    decreases |run|
  {
    if run != [] {
      MeasureDrops(c, s, run[0]);
      Quiesces(c, Next(c, s, run[0]), run[1..]);
    }
  }

  // When no internal step is left in a queue that is not stopped, every sent message
  // was processed, failed or dropped, and all of them are counted as published.
  lemma AllAccounted(c: Config, s: State)
    requires Balanced(s) && Inv(c, s) && |s.workers| > 0 && !s.cancelled
    requires forall w :: 0 <= w < |s.workers| ==> !s.workers[w].Exited?
    requires forall l :: Internal(l) ==> !Enabled(s, l)
    ensures s.published == s.sent == |s.processed| + |s.failed| + |s.dropped|
  {
    assert !Enabled(s, CountPublished);
    forall w | 0 <= w < |s.workers|
      ensures s.workers[w].Idle?
    {
      assert !Enabled(s, Lookup(w)) && !Enabled(s, Succeed(w)) && !Enabled(s, Resend(w));
    }
    assert !Enabled(s, Receive(0));
    IdleNotBusy(s.workers);
  }

  lemma {:induction false} IdleNotBusy(ws: seq<Worker>)
    requires forall w :: 0 <= w < |ws| ==> ws[w].Idle?
    ensures Busy(ws) == 0
  {
    if ws != [] {
      IdleNotBusy(ws[..|ws| - 1]);
    }
  }
}
