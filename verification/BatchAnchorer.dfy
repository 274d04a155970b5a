// server/internal/anchor/batch.go, protocol half: submit, flush, anchor with retries,
// notify, count. Any number of flushes (ticker, size threshold, Stop) run at once;
// every locked section and every anchor call is one step.
module BatchAnchorer {
  import opened MerkleSpec
  import opened BatchTree
  import opened Sequences

  // `token` identifies the submitted item and its result channel.
  datatype Item<D> = Item(token: nat, rootHash: D, priority: int, submittedAt: int)

  // What anchoring a batch came to. A failed batch has no transaction.
  datatype Outcome = Anchored(txHash: string, blockHeight: int, at: int) | Failed(error: string)

  datatype Phase =
    | Drained                    // taken from pending, not yet sorted
    | Created                    // sorted, its tree built
    | Anchoring(attempt: nat)
    | Decided(outcome: Outcome, told: nat)   // the outcome went to the first `told` items
    | Counted(outcome: Outcome)

  // `drained` is what the flush took from pending, in its order.
  datatype Batch<D> = Batch(
    drained: seq<Item<D>>, items: seq<Item<D>>, root: Option<D>, nodes: seq<seq<D>>, phase: Phase)

  // A result on its way to the item with the given token.
  datatype Delivery<D> =
    Delivery(token: nat, outcome: Outcome, batch: nat, batchRoot: D, merkleProof: seq<D>, proofIndex: nat)

  datatype State<D> = State(
    pending: seq<Item<D>>,
    closed: bool,
    accepted: nat,
    uncounted: nat,              // accepted but not yet in totalItems
    totalItems: nat,
    batches: seq<Batch<D>>,
    channels: map<nat, Delivery<D>>,   // result channels that hold a result; each has room for one
    sent: seq<Delivery<D>>,      // the results put in a channel, in order
    skipped: seq<nat>,           // the sends that found their channel full
    totalBatches: nat,
    successfulItems: nat,
    failedItems: nat,
    gasSaved: int,
    averageBatchSize: real)

  datatype Label<D> =
    | Submit(rootHash: D, priority: int, now: int)
    | CountItem
    | Flush
    | Create(b: nat, sorted: seq<Item<D>>)
    | Begin(b: nat)
    | AnchorOk(b: nat, txHash: string, blockNumber: nat, now: int)
    | AnchorErr(b: nat, error: string)
    | Notify(b: nat)             // the next item of the batch
    | Receive(token: nat)        // by whoever submitted the item
    | CountBatch(b: nat)
    | Stop

  function Init<D>(): State<D> {
    State([], false, 0, 0, 0, [], map[], [], [], 0, 0, 0, 0, 0.0)
  }

  // ------------------------------------------------------------------- steps

  predicate Before<D>(x: Item<D>, y: Item<D>) {
    x.priority < y.priority || (x.priority == y.priority && x.submittedAt <= y.submittedAt)
  }

  ghost predicate Sorted<D>(items: seq<Item<D>>) {
    forall i, j :: 0 <= i < j < |items| ==> Before(items[i], items[j])
  }

  function Leaves<D>(items: seq<Item<D>>): (r: seq<D>)
    ensures |r| == |items|
  {
    seq(|items|, i requires 0 <= i < |items| => items[i].rootHash)
  }

  // The steps of a flush that has its batch.
  predicate OfBatch<D>(l: Label<D>) {
    l.Create? || l.Begin? || l.AnchorOk? || l.AnchorErr? || l.Notify? || l.CountBatch?
  }

  ghost predicate BatchEnabled<D>(batch: Batch<D>, l: Label<D>) {
    match l
    case Create(_, sorted) =>
      batch.phase.Drained? && Sorted(sorted) && multiset(sorted) == multiset(batch.drained) && sorted != []
    case Begin(_) => batch.phase.Created?
    case AnchorOk(_, _, _, _) => batch.phase.Anchoring?
    case AnchorErr(_, _) => batch.phase.Anchoring?
    case Notify(_) => batch.phase.Decided? && batch.phase.told < |batch.items| && batch.root.Some?
    case CountBatch(_) => batch.phase.Decided? && batch.phase.told == |batch.items|
    case _ => true
  }

  ghost predicate Enabled<D>(s: State<D>, l: Label<D>) {
    && (l.CountItem? ==> s.uncounted > 0)
    && (l.Receive? ==> l.token in s.channels)
    && (OfBatch(l) ==> l.b < |s.batches| && BatchEnabled(s.batches[l.b], l))
  }

  // The conversion int64(n) of a 64-bit block number.
  function AsInt64(n: nat): int {
    var low := n % 0x1_0000_0000_0000_0000;
    if low < 0x8000_0000_0000_0000 then low else low - 0x1_0000_0000_0000_0000
  }

  function BatchAfter<D>(h: (D, D) -> D, retryCount: nat, batch: Batch<D>, l: Label<D>): Batch<D>
    requires l.AnchorErr? ==> batch.phase.Anchoring?
    requires l.Notify? ==> batch.phase.Decided?
    requires l.CountBatch? ==> batch.phase.Decided?
    requires l.Create? ==> l.sorted != []
  {
    match l
    case Create(_, sorted) =>
      Batch(batch.drained, sorted, Some(BatchRoot(h, Leaves(sorted))), BatchNodes(h, Leaves(sorted)), Created)
    case Begin(_) => batch.(phase := Anchoring(0))
    case AnchorOk(_, txHash, number, now) => batch.(phase := Decided(Anchored(txHash, AsInt64(number), now), 0))
    case AnchorErr(_, error) =>
      var n := batch.phase.attempt;
      batch.(phase := if n < retryCount then Anchoring(n + 1) else Decided(Failed(error), 0))
    case Notify(_) => batch.(phase := Decided(batch.phase.outcome, batch.phase.told + 1))
    case CountBatch(_) => batch.(phase := Counted(batch.phase.outcome))
    case _ => batch
  }

  function DeliveryOf<D>(h: (D, D) -> D, batch: Batch<D>, b: nat, i: nat): Delivery<D>
    requires i < |batch.items| && batch.root.Some? && batch.phase.Decided?
  {
    Delivery(batch.items[i].token, batch.phase.outcome, b, batch.root.value, BatchProof(h, Leaves(batch.items), i), i)
  }

  // A send that does not wait: into the channel, or skipped when it is full.
  function Send<D>(s: State<D>, d: Delivery<D>): State<D> {
    if d.token in s.channels then s.(skipped := s.skipped + [d.token])
    else s.(channels := s.channels[d.token := d], sent := s.sent + [d])
  }

  // The estimate of what n items of one batch save.
  function GasSaved(n: nat): int {
    (n - 1) * 100000
  }

  function Average(items: nat, batches: nat, before: real): real {
    if batches > 0 then items as real / batches as real else before
  }

  ghost predicate IsAverage(a: real, items: nat, batches: nat) {
    batches > 0 ==> a * batches as real == items as real
  }

  lemma AverageIs(items: nat, batches: nat, before: real)
    ensures IsAverage(Average(items, batches, before), items, batches)
  {
  }

  // Over all items counted so far, also those no batch has taken yet.
  function NewAverage<D>(s: State<D>): real {
    Average(s.totalItems, s.totalBatches, s.averageBatchSize)
  }

  ghost function BatchStep<D>(h: (D, D) -> D, retryCount: nat, s: State<D>, l: Label<D>): State<D>
    requires Enabled(s, l) && OfBatch(l)
  {
    var batch := s.batches[l.b];
    var t := s.(batches := s.batches[l.b := BatchAfter(h, retryCount, batch, l)]);
    if l.Create? then t.(totalBatches := s.totalBatches + 1)
    else if l.Notify? then Send(t, DeliveryOf(h, batch, l.b, batch.phase.told))
    else if l.CountBatch? && batch.phase.outcome.Anchored? then
      t.(successfulItems := s.successfulItems + |batch.items|, gasSaved := s.gasSaved + GasSaved(|batch.items|),
         averageBatchSize := NewAverage(s))
    else if l.CountBatch? then
      t.(failedItems := s.failedItems + |batch.items|, averageBatchSize := NewAverage(s))
    else t
  }

  ghost function Next<D>(h: (D, D) -> D, retryCount: nat, s: State<D>, l: Label<D>): State<D>
    requires Enabled(s, l)
  {
    match l
    case Submit(rootHash, priority, now) =>
      if s.closed then s  // ErrBatcherClosed
      else s.(pending := s.pending + [Item(s.accepted, rootHash, priority, now)],
              accepted := s.accepted + 1, uncounted := s.uncounted + 1)
    case CountItem => s.(uncounted := s.uncounted - 1, totalItems := s.totalItems + 1)
    case Flush =>
      if s.pending == [] then s
      else s.(pending := [], batches := s.batches + [Batch(s.pending, s.pending, None, [], Drained)])
    case Stop => s.(closed := true)
    case Receive(token) => s.(channels := s.channels - {token})
    case _ => BatchStep(h, retryCount, s, l)
  }

  // -------------------------------------------------------------- the object

  // What the anchor service returns to one attempt, and when.
  datatype Answer = Ok(txHash: string, blockNumber: nat, now: int) | Err(error: string)

  function Attempt<D>(b: nat, answer: Answer): Label<D> {
    match answer
    case Ok(txHash, blockNumber, now) => AnchorOk(b, txHash, blockNumber, now)
    case Err(error) => AnchorErr(b, error)
  }

  datatype SubmitResult = Accepted | ErrBatcherClosed

  class BatchAnchorer<D> {
    const h: (D, D) -> D
    const retryCount: nat
    var pendingItems: seq<Item<D>>
    var closed: bool
    var accepted: nat
    var uncounted: nat
    var totalItems: nat
    var batches: seq<Batch<D>>
    var channels: map<nat, Delivery<D>>
    var sent: seq<Delivery<D>>
    var skipped: seq<nat>
    var totalBatches: nat
    var successfulItems: nat
    var failedItems: nat
    var gasSaved: int
    var averageBatchSize: real

    ghost function Abs(): State<D>
      reads this
    {
      State(pendingItems, closed, accepted, uncounted, totalItems, batches, channels, sent, skipped,
            totalBatches, successfulItems, failedItems, gasSaved, averageBatchSize)
    }

    constructor (h: (D, D) -> D, retryCount: nat)
      ensures this.h == h && this.retryCount == retryCount && Abs() == Init()
    {
      this.h, this.retryCount := h, retryCount;
      pendingItems, closed, accepted, uncounted, totalItems := [], false, 0, 0, 0;
      batches, channels, sent, skipped := [], map[], [], [];
      totalBatches, successfulItems, failedItems, gasSaved := 0, 0, 0, 0;
      averageBatchSize := 0.0;
    }

    method SubmitItem(rootHash: D, priority: int, now: int) returns (r: SubmitResult)
      modifies this
      ensures Abs() == Next(h, retryCount, old(Abs()), Submit(rootHash, priority, now))
      ensures r == ErrBatcherClosed <==> old(closed)
    {
      if closed {
        return ErrBatcherClosed;
      }
      pendingItems := pendingItems + [Item(accepted, rootHash, priority, now)];
      accepted, uncounted := accepted + 1, uncounted + 1;
      return Accepted;
    }

    method Close()
      modifies this
      ensures Abs() == Next(h, retryCount, old(Abs()), Stop)
    {
      closed := true;
    }

    // The locked part of flush: take everything that is pending.
    method Drain()
      modifies this
      ensures Abs() == Next(h, retryCount, old(Abs()), Flush)
      ensures pendingItems == [] && |batches| == |old(batches)| + (if old(pendingItems) == [] then 0 else 1)
      ensures old(pendingItems) != [] ==> batches[|old(batches)|].drained == old(pendingItems)
    {
      if |pendingItems| == 0 {
        return;
      }
      batches := batches + [Batch(pendingItems, pendingItems, None, [], Drained)];
      pendingItems := [];
    }

    // The rest of flush up to createBatch: sort by priority and submit time, build
    // the tree.
    method CreateBatch(b: nat) returns (ghost sorted: seq<Item<D>>)
      requires b < |batches| && batches[b].phase.Drained? && batches[b].drained != []
      modifies this
      ensures Enabled(old(Abs()), Create(b, sorted))
      ensures Abs() == Next(h, retryCount, old(Abs()), Create(b, sorted))
    {
      var items := SortItems(batches[b].drained);
      assert |multiset(items)| == |items| && |multiset(batches[b].drained)| == |batches[b].drained|;
      sorted := items;
      var root, nodes := Build(h, Leaves(items));
      batches := batches[b := Batch(batches[b].drained, items, root, nodes, Created)];
      totalBatches := totalBatches + 1;
    }

    // One turn of the retry loop of anchorBatch.
    method AnchorAttempt(b: nat, answer: Answer)
      requires b < |batches| && batches[b].phase.Anchoring?
      modifies this
      ensures Abs() == Next(h, retryCount, old(Abs()), Attempt(b, answer))
      ensures b < |batches|
      ensures answer.Err? && old(batches[b].phase.attempt) < retryCount ==>
                batches[b].phase == Anchoring(old(batches[b].phase.attempt) + 1)
      ensures answer.Err? && old(batches[b].phase.attempt) >= retryCount ==>
                batches[b].phase == Decided(Failed(answer.error), 0)
      ensures answer.Ok? ==> batches[b].phase.Decided? && batches[b].phase.told == 0
                             && batches[b].phase.outcome.Anchored?
    {
      var attempt := batches[b].phase.attempt;
      match answer
      case Err(error) =>
        if attempt + 1 <= retryCount {
          batches := batches[b := batches[b].(phase := Anchoring(attempt + 1))];
        } else {
          batches := batches[b := batches[b].(phase := Decided(Failed(error), 0))];
        }
      case Ok(txHash, blockNumber, now) =>
        batches := batches[b := batches[b].(phase := Decided(Anchored(txHash, AsInt64(blockNumber), now), 0))];
    }

    method ItemProof(batch: Batch<D>, i: nat) returns (proof: seq<D>)
      requires BatchOk(h, retryCount, batch) && batch.phase.Decided? && i < |batch.items|
      ensures proof == BatchProof(h, Leaves(batch.items), i)
    {
      PaddedSizeIsLeast(|batch.items|, 0);
      proof := GetBatchProof(batch.nodes, i, h, PadTo(Leaves(batch.items), PaddedSize(|batch.items|)));
    }

    // A send that does not wait: a channel that is full is skipped.
    method TrySend(result: Delivery<D>)
      modifies `channels, `sent, `skipped
      ensures Abs() == Send(old(Abs()), result)
    {
      if result.token in channels {
        skipped := skipped + [result.token];
      } else {
        channels := channels[result.token := result];
        sent := sent + [result];
      }
    }

    // One turn of the notification loop.
    method NotifyItem(b: nat)
      requires Enabled(Abs(), Notify(b)) && BatchOk(h, retryCount, batches[b])
      modifies this
      ensures Abs() == Next(h, retryCount, old(Abs()), Notify(b))
    {
      var batch := batches[b];
      var i := batch.phase.told;
      var proof := ItemProof(batch, i);
      var result := Delivery(batch.items[i].token, batch.phase.outcome, b, batch.root.value, proof, i);
      batches := batches[b := batch.(phase := Decided(batch.phase.outcome, i + 1))];
      TrySend(result);
    }

    // Each item is sent its result with its proof, one step per item.
    method NotifyResults(b: nat) returns (ghost run: seq<Label<D>>)
      requires b < |batches| && BatchOk(h, retryCount, batches[b])
      requires batches[b].phase.Decided? && batches[b].phase.told == 0
      modifies this
      ensures run == seq(|old(batches[b]).items|, _ => Notify(b))
      ensures IsRun(h, retryCount, old(Abs()), run) && Abs() == After(h, retryCount, old(Abs()), run)
    {
      run := [];
      var batch := batches[b];
      for i := 0 to |batch.items|
        invariant run == seq(i, _ => Notify(b))
        invariant IsRun(h, retryCount, old(Abs()), run) && Abs() == After(h, retryCount, old(Abs()), run)
        invariant b < |batches| && batches[b] == batch.(phase := Decided(batch.phase.outcome, i))
      {
        OneMore(h, retryCount, old(Abs()), run, Notify(b));
        NotifyItem(b);
        run := run + [Notify(b)];
      }
    }

    method UpdateStats(b: nat)
      requires Enabled(Abs(), CountBatch(b))
      modifies this
      ensures Abs() == Next(h, retryCount, old(Abs()), CountBatch(b))
      ensures IsAverage(averageBatchSize, totalItems, totalBatches)
    {
      var batch := batches[b];
      if batch.phase.outcome.Anchored? {
        successfulItems := successfulItems + |batch.items|;
        gasSaved := gasSaved + (|batch.items| - 1) * 100000;
      } else {
        failedItems := failedItems + |batch.items|;
      }
      AverageIs(totalItems, totalBatches, averageBatchSize);
      averageBatchSize := Average(totalItems, totalBatches, averageBatchSize);
      batches := batches[b := batch.(phase := Counted(batch.phase.outcome))];
    }
  }

  // sort.Slice by priority, then submit time; unstable, so only the contract counts.
  method SortItems<D>(items: seq<Item<D>>) returns (sorted: seq<Item<D>>)
    ensures Sorted(sorted) && multiset(sorted) == multiset(items)
    ensures forall i, j :: 0 <= i < j < |sorted| ==>
              sorted[i].priority < sorted[j].priority
              || (sorted[i].priority == sorted[j].priority && sorted[i].submittedAt <= sorted[j].submittedAt)
  {
    sorted := [];
    for k := 0 to |items|
      invariant Sorted(sorted) && multiset(sorted) == multiset(items[..k])
    {
      assert items[..k + 1] == items[..k] + [items[k]];
      sorted := InsertItem(sorted, items[k]);
    }
    assert items[..|items|] == items;
  }

  method InsertItem<D>(s: seq<Item<D>>, x: Item<D>) returns (r: seq<Item<D>>)
    requires Sorted(s)
    ensures Sorted(r) && multiset(r) == multiset(s) + multiset{x}
  {
    var i := |s|;
    while i > 0 && !Before(s[i - 1], x)
      invariant 0 <= i <= |s|
      invariant forall j :: i <= j < |s| ==> Before(x, s[j])
    {
      i := i - 1;
    }
    r := s[..i] + [x] + s[i..];
    assert s == s[..i] + s[i..];
    InsertedSorted(s, i, x);
  }

  lemma InsertedSorted<D>(s: seq<Item<D>>, i: nat, x: Item<D>)
    requires Sorted(s) && i <= |s|
    requires i > 0 ==> Before(s[i - 1], x)
    requires forall j :: i <= j < |s| ==> Before(x, s[j])
    ensures Sorted(s[..i] + [x] + s[i..])
  {
    var r := s[..i] + [x] + s[i..];
    forall a, b | 0 <= a < b < |r|
      ensures Before(r[a], r[b])
    {
      if b == i && a < i - 1 {
        assert Before(s[a], s[i - 1]);
      }
    }
  }

  ghost predicate IsRun<D>(h: (D, D) -> D, retryCount: nat, s: State<D>, run: seq<Label<D>>)
    decreases |run|
  {
    run == [] || (Enabled(s, run[0]) && IsRun(h, retryCount, Next(h, retryCount, s, run[0]), run[1..]))
  }

  ghost function After<D>(h: (D, D) -> D, retryCount: nat, s: State<D>, run: seq<Label<D>>): State<D>
    requires IsRun(h, retryCount, s, run)
    decreases |run|
  {
    if run == [] then s else After(h, retryCount, Next(h, retryCount, s, run[0]), run[1..])
  }

  lemma {:induction false} OneMore<D>(h: (D, D) -> D, retryCount: nat, s: State<D>, run: seq<Label<D>>, l: Label<D>)
    requires IsRun(h, retryCount, s, run) && Enabled(After(h, retryCount, s, run), l)
    ensures IsRun(h, retryCount, s, run + [l])
    ensures After(h, retryCount, s, run + [l]) == Next(h, retryCount, After(h, retryCount, s, run), l)
    decreases |run|
  {
    if run == [] {
      assert (run + [l])[1..] == [];
    } else {
      OneMore(h, retryCount, Next(h, retryCount, s, run[0]), run[1..], l);
      assert (run + [l])[1..] == run[1..] + [l];
    }
  }

  // -------------------------------------------------------------- invariants

  // How often an item occurs in a list, and in all batches together.
  function Occurs<D>(items: seq<Item<D>>, t: nat): nat {
    if items == [] then 0
    else Occurs(items[..|items| - 1], t) + (if items[|items| - 1].token == t then 1 else 0)
  }

  function OccursIn<D>(batches: seq<Batch<D>>, t: nat): nat {
    if batches == [] then 0
    else OccursIn(batches[..|batches| - 1], t) + Occurs(batches[|batches| - 1].items, t)
  }

  // Every accepted item is in pending or in exactly one batch, exactly once.
  ghost predicate Placed<D>(s: State<D>) {
    forall t: nat :: Occurs(s.pending, t) + OccursIn(s.batches, t) == if t < s.accepted then 1 else 0
  }

  // A batch is a sorted permutation of what was drained, under the root of its tree,
  // and has used no more than its retries.
  ghost predicate BatchOk<D>(h: (D, D) -> D, retryCount: nat, batch: Batch<D>) {
    && batch.items != [] && multiset(batch.items) == multiset(batch.drained)
    && (!batch.phase.Drained? ==>
          Sorted(batch.items) && batch.root == Some(BatchRoot(h, Leaves(batch.items)))
          && batch.nodes == BatchNodes(h, Leaves(batch.items)))
    && (batch.phase.Anchoring? ==> batch.phase.attempt <= retryCount)
    && (batch.phase.Decided? ==> batch.phase.told <= |batch.items|)
  }

  ghost predicate BatchesOk<D>(h: (D, D) -> D, retryCount: nat, s: State<D>) {
    forall b :: 0 <= b < |s.batches| ==> BatchOk(h, retryCount, s.batches[b])
  }

  // How many items of a batch were told its outcome.
  function Told<D>(batch: Batch<D>): nat {
    match batch.phase
    case Decided(_, told) => told
    case Counted(_) => |batch.items|
    case _ => 0
  }

  // A sent result is the outcome of the one batch that holds the item, with the item's
  // own index and proof.
  ghost predicate DeliveryOk<D>(h: (D, D) -> D, batches: seq<Batch<D>>, r: Delivery<D>) {
    && r.batch < |batches|
    && var batch := batches[r.batch];
       && (batch.phase.Decided? || batch.phase.Counted?) && batch.phase.outcome == r.outcome
       && r.proofIndex < Told(batch) && r.proofIndex < |batch.items| && batch.items[r.proofIndex].token == r.token
       && batch.root == Some(r.batchRoot)
       && r.merkleProof == BatchProof(h, Leaves(batch.items), r.proofIndex)
  }

  ghost predicate IsSent<D>(sent: seq<Delivery<D>>, token: nat) {
    exists k :: 0 <= k < |sent| && sent[k].token == token
  }

  ghost predicate SentOnce<D>(sent: seq<Delivery<D>>) {
    forall j, k :: 0 <= j < k < |sent| ==> sent[j].token != sent[k].token
  }

  ghost predicate AllToldSent<D>(s: State<D>) {
    forall b, i :: 0 <= b < |s.batches| && 0 <= i < Told(s.batches[b]) && i < |s.batches[b].items| ==>
      IsSent(s.sent, s.batches[b].items[i].token)
  }

  // Every told item was sent exactly one result, and no send found its channel full.
  ghost predicate SendsOk<D>(h: (D, D) -> D, s: State<D>) {
    && (forall k :: 0 <= k < |s.sent| ==> DeliveryOk(h, s.batches, s.sent[k]))
    && SentOnce(s.sent) && AllToldSent(s)
    && (forall t :: t in s.channels ==> IsSent(s.sent, t))
    && s.skipped == []
  }

  // What a batch adds to each entry of the ledger, and the steps it still takes.
  datatype Entry = InFlight | Successful | Unsuccessful | Saved | Made | Work(retryCount: nat)

  function Adds<D>(batch: Batch<D>, e: Entry): int {
    match e
    case InFlight => if batch.phase.Counted? then 0 else |batch.items|
    case Successful => if batch.phase.Counted? && batch.phase.outcome.Anchored? then |batch.items| else 0
    case Unsuccessful => if batch.phase.Counted? && batch.phase.outcome.Failed? then |batch.items| else 0
    case Saved => if batch.phase.Counted? && batch.phase.outcome.Anchored? then GasSaved(|batch.items|) else 0
    case Made => if batch.phase.Drained? then 0 else 1
    case Work(retryCount) => WorkLeft(retryCount, batch)
  }

  // Each item left to tell counts twice: the result it is sent can still be received.
  function WorkLeft<D>(retryCount: nat, batch: Batch<D>): int {
    match batch.phase
    case Drained => 2 * |batch.items| + retryCount + 4
    case Created => 2 * |batch.items| + retryCount + 3
    case Anchoring(attempt) => 2 * |batch.items| + retryCount - attempt + 2
    case Decided(_, told) => 2 * (|batch.items| - told) + 1
    case Counted(_) => 0
  }

  function Total<D>(batches: seq<Batch<D>>, e: Entry): int {
    if batches == [] then 0 else Total(batches[..|batches| - 1], e) + Adds(batches[|batches| - 1], e)
  }

  // accepted = pending + in flight + successful + failed.
  ghost predicate Balanced<D>(s: State<D>) {
    && s.accepted == |s.pending| + Total(s.batches, InFlight) + s.successfulItems + s.failedItems
    && s.successfulItems == Total(s.batches, Successful) && s.failedItems == Total(s.batches, Unsuccessful)
    && s.gasSaved == Total(s.batches, Saved) && s.totalBatches == Total(s.batches, Made)
    && s.totalItems + s.uncounted == s.accepted
  }

  ghost predicate Inv<D>(h: (D, D) -> D, retryCount: nat, s: State<D>) {
    Placed(s) && BatchesOk(h, retryCount, s) && SendsOk(h, s) && Balanced(s)
  }

  // ------------------------------------------------------------ list lemmas

  lemma OccursAppend<D>(items: seq<Item<D>>, x: Item<D>, t: nat)
    ensures Occurs(items + [x], t) == Occurs(items, t) + (if x.token == t then 1 else 0)
  {
    assert (items + [x])[..|items|] == items;
  }

  lemma {:induction false} OccursConcat<D>(a: seq<Item<D>>, b: seq<Item<D>>, t: nat)
    ensures Occurs(a + b, t) == Occurs(a, t) + Occurs(b, t)
    decreases |b|
  {
    if b == [] {
      assert a + b == a;
    } else {
      OccursConcat(a, b[..|b| - 1], t);
      assert (a + b)[..|a + b| - 1] == a + b[..|b| - 1];
    }
  }

  lemma OccursRemove<D>(items: seq<Item<D>>, j: nat, t: nat)
    requires j < |items|
    ensures Occurs(items, t) == Occurs(items[..j] + items[j + 1..], t) + (if items[j].token == t then 1 else 0)
  {
    var left, right := items[..j], items[j + 1..];
    assert items == left + [items[j]] + right;
    OccursConcat(left, right, t);
    OccursConcat(left + [items[j]], right, t);
    OccursAppend(left, items[j], t);
  }

  lemma {:induction false} OccursPermuted<D>(a: seq<Item<D>>, b: seq<Item<D>>, t: nat)
    requires multiset(a) == multiset(b)
    ensures Occurs(a, t) == Occurs(b, t) && |a| == |b|
    decreases |a|
  {
    SameLength(a, b);
    if a != [] {
      var n := |a| - 1;
      var j := FindSame(a, b, n);
      OccursRemove(a, n, t);
      OccursRemove(b, j, t);
      RemovedOnce(a, n);
      RemovedOnce(b, j);
      OccursPermuted(a[..n] + a[n + 1..], b[..j] + b[j + 1..], t);
    }
  }

  lemma {:induction false} OccursAt<D>(items: seq<Item<D>>, i: nat)
    requires i < |items|
    ensures Occurs(items, items[i].token) >= 1
  {
    if i < |items| - 1 {
      OccursAt(items[..|items| - 1], i);
    }
  }

  lemma {:induction false} OccursInUpdate<D>(batches: seq<Batch<D>>, b: nat, x: Batch<D>, t: nat)
    requires b < |batches|
    ensures OccursIn(batches[b := x], t) == OccursIn(batches, t) - Occurs(batches[b].items, t) + Occurs(x.items, t)
    ensures Occurs(batches[b].items, t) <= OccursIn(batches, t)
  {
    var n := |batches| - 1;
    if b < n {
      OccursInUpdate(batches[..n], b, x, t);
      assert batches[b := x][..n] == batches[..n][b := x];
    } else {
      assert batches[b := x][..n] == batches[..n];
    }
  }

  lemma {:induction false} TotalUpdate<D>(batches: seq<Batch<D>>, b: nat, x: Batch<D>, e: Entry)
    requires b < |batches|
    ensures Total(batches[b := x], e) == Total(batches, e) - Adds(batches[b], e) + Adds(x, e)
  {
    var n := |batches| - 1;
    if b < n {
      TotalUpdate(batches[..n], b, x, e);
      assert batches[b := x][..n] == batches[..n][b := x];
    } else {
      assert batches[b := x][..n] == batches[..n];
    }
  }

  // ----------------------------------------------- one place per item

  lemma SubmitPlaced<D>(h: (D, D) -> D, retryCount: nat, s: State<D>, l: Label<D>)
    requires Placed(s) && l.Submit? && Enabled(s, l)
    ensures Placed(Next(h, retryCount, s, l))
  {
    var s' := Next(h, retryCount, s, l);
    forall t: nat
      ensures Occurs(s'.pending, t) + OccursIn(s'.batches, t) == if t < s'.accepted then 1 else 0
    {
      assert Occurs(s.pending, t) + OccursIn(s.batches, t) == if t < s.accepted then 1 else 0;
      OccursAppend(s.pending, Item(s.accepted, l.rootHash, l.priority, l.now), t);
    }
  }

  lemma FlushPlaced<D>(h: (D, D) -> D, retryCount: nat, s: State<D>, l: Label<D>)
    requires Placed(s) && l.Flush?
    ensures Placed(Next(h, retryCount, s, l))
  {
    var s' := Next(h, retryCount, s, l);
    if s.pending != [] {
      assert s'.batches[..|s.batches|] == s.batches;
    }
    forall t: nat
      ensures Occurs(s'.pending, t) + OccursIn(s'.batches, t) == if t < s'.accepted then 1 else 0
    {
      assert Occurs(s.pending, t) + OccursIn(s.batches, t) == if t < s.accepted then 1 else 0;
    }
  }

  // Steps that replace a batch by one with a permutation of its items.
  lemma BatchPlaced<D>(s: State<D>, s': State<D>, b: nat, x: Batch<D>)
    requires Placed(s) && b < |s.batches| && multiset(x.items) == multiset(s.batches[b].items)
    requires s'.pending == s.pending && s'.accepted == s.accepted && s'.batches == s.batches[b := x]
    ensures Placed(s')
  {
    forall t: nat
      ensures Occurs(s'.pending, t) + OccursIn(s'.batches, t) == if t < s'.accepted then 1 else 0
    {
      assert Occurs(s.pending, t) + OccursIn(s.batches, t) == if t < s.accepted then 1 else 0;
      OccursPermuted(x.items, s.batches[b].items, t);
      OccursInUpdate(s.batches, b, x, t);
    }
  }

  // Two different positions in batches never hold the same item.
  lemma ItemAlone<D>(s: State<D>, b: nat, i: nat, b': nat, i': nat)
    requires Placed(s) && b < |s.batches| && b' < |s.batches|
    requires i < |s.batches[b].items| && i' < |s.batches[b'].items|
    requires s.batches[b].items[i].token == s.batches[b'].items[i'].token
    ensures b == b' && i == i'
  {
    var t := s.batches[b].items[i].token;
    assert Occurs(s.pending, t) + OccursIn(s.batches, t) == if t < s.accepted then 1 else 0;
    if b != b' {
      OccursAt(s.batches[b].items, i);
      OccursAt(s.batches[b'].items, i');
      var empty := s.batches[b].(items := []);
      OccursInUpdate(s.batches, b, empty, t);
      OccursInUpdate(s.batches[b := empty], b', s.batches[b'], t);
    } else if i != i' {
      OccursTwice(s.batches[b].items, if i < i' then i else i', if i < i' then i' else i);
      OccursInUpdate(s.batches, b, s.batches[b], t);
    }
  }

  lemma {:induction false} OccursTwice<D>(items: seq<Item<D>>, i: nat, j: nat)
    requires i < j < |items| && items[i].token == items[j].token
    ensures Occurs(items, items[i].token) >= 2
  {
    if j < |items| - 1 {
      OccursTwice(items[..|items| - 1], i, j);
    } else {
      OccursAt(items[..|items| - 1], i);
    }
  }

  // --------------------------------------------------------------- sends

  // The next item to be told was sent nothing before: it is in no other place, and no
  // place is told twice. So its channel has room.
  lemma NextUntold<D>(h: (D, D) -> D, s: State<D>, b: nat)
    requires Placed(s) && SendsOk(h, s) && b < |s.batches| && s.batches[b].phase.Decided?
    requires s.batches[b].phase.told < |s.batches[b].items|
    ensures var t := s.batches[b].items[s.batches[b].phase.told].token;
            !IsSent(s.sent, t) && t !in s.channels
  {
    var i := s.batches[b].phase.told;
    var t := s.batches[b].items[i].token;
    forall k | 0 <= k < |s.sent| && s.sent[k].token == t
      ensures false
    {
      assert DeliveryOk(h, s.batches, s.sent[k]);
      ItemAlone(s, b, i, s.sent[k].batch, s.sent[k].proofIndex);
    }
  }

  // Told items stay told, in batches that keep their items, root and outcome.
  ghost predicate CarriesTold<D>(xs: seq<Batch<D>>, ys: seq<Batch<D>>) {
    && |xs| <= |ys|
    && (forall b :: 0 <= b < |xs| && Told(xs[b]) > 0 ==>
          && Told(xs[b]) <= Told(ys[b]) && (ys[b].phase.Decided? || ys[b].phase.Counted?)
          && ys[b].items == xs[b].items && ys[b].root == xs[b].root && ys[b].phase.outcome == xs[b].phase.outcome)
  }

  lemma DeliveryCarries<D>(h: (D, D) -> D, xs: seq<Batch<D>>, ys: seq<Batch<D>>, r: Delivery<D>)
    requires DeliveryOk(h, xs, r) && CarriesTold(xs, ys)
    ensures DeliveryOk(h, ys, r)
  {
  }

  lemma BatchCarries<D>(h: (D, D) -> D, retryCount: nat, batch: Batch<D>, l: Label<D>)
    requires OfBatch(l) && BatchEnabled(batch, l)
    ensures var x := BatchAfter(h, retryCount, batch, l);
            && Told(x) == Told(batch) + (if l.Notify? then 1 else 0)
            && (Told(x) > 0 ==>
                  x.items == batch.items && x.root == batch.root && (x.phase.Decided? || x.phase.Counted?)
                  && (batch.phase.Decided? || batch.phase.Counted?) && x.phase.outcome == batch.phase.outcome)
  {
  }

  lemma NextCarries<D>(h: (D, D) -> D, retryCount: nat, s: State<D>, l: Label<D>)
    requires Enabled(s, l)
    ensures CarriesTold(s.batches, Next(h, retryCount, s, l).batches)
  {
    if OfBatch(l) {
      var x := BatchAfter(h, retryCount, s.batches[l.b], l);
      BatchCarries(h, retryCount, s.batches[l.b], l);
      assert Next(h, retryCount, s, l).batches == s.batches[l.b := x];
    }
  }

  // A notification sends its item the one result, whatever was received before.
  lemma NotifySends<D>(h: (D, D) -> D, retryCount: nat, s: State<D>, l: Label<D>)
    requires Placed(s) && SendsOk(h, s) && l.Notify? && Enabled(s, l)
    ensures var s', d := Next(h, retryCount, s, l), DeliveryOf(h, s.batches[l.b], l.b, s.batches[l.b].phase.told);
            && s'.sent == s.sent + [d] && s'.channels == s.channels[d.token := d] && s'.skipped == []
            && !IsSent(s.sent, d.token)
  {
    NextUntold(h, s, l.b);
  }

  lemma SentMore<D>(sent: seq<Delivery<D>>, d: Delivery<D>)
    requires SentOnce(sent) && !IsSent(sent, d.token)
    ensures SentOnce(sent + [d]) && IsSent(sent + [d], d.token)
    ensures forall t :: IsSent(sent, t) ==> IsSent(sent + [d], t)
  {
    assert (sent + [d])[|sent|] == d;
    forall t | IsSent(sent, t)
      ensures IsSent(sent + [d], t)
    {
      var k :| 0 <= k < |sent| && sent[k].token == t;
      assert (sent + [d])[k].token == t;
    }
  }

  // The new delivery is right in the batch that has one more item told.
  lemma DeliveryNew<D>(h: (D, D) -> D, retryCount: nat, batches: seq<Batch<D>>, b: nat, l: Label<D>)
    requires b < |batches| && l == Notify(b) && BatchEnabled(batches[b], l)
    ensures var batch := batches[b];
            DeliveryOk(h, batches[b := BatchAfter(h, retryCount, batch, l)], DeliveryOf(h, batch, b, batch.phase.told))
  {
  }

  lemma DeliveriesMore<D>(h: (D, D) -> D, xs: seq<Batch<D>>, ys: seq<Batch<D>>, sent: seq<Delivery<D>>, d: Delivery<D>)
    requires forall k :: 0 <= k < |sent| ==> DeliveryOk(h, xs, sent[k])
    requires CarriesTold(xs, ys) && DeliveryOk(h, ys, d)
    ensures forall k :: 0 <= k < |sent + [d]| ==> DeliveryOk(h, ys, (sent + [d])[k])
  {
    DeliveriesCarry(h, xs, ys, sent);
  }

  lemma NotifyKeepsSends<D>(h: (D, D) -> D, retryCount: nat, s: State<D>, l: Label<D>)
    requires Placed(s) && SendsOk(h, s) && l.Notify? && Enabled(s, l)
    ensures SendsOk(h, Next(h, retryCount, s, l))
  {
    var s' := Next(h, retryCount, s, l);
    var batch := s.batches[l.b];
    var d, x := DeliveryOf(h, batch, l.b, batch.phase.told), BatchAfter(h, retryCount, batch, l);
    NotifySends(h, retryCount, s, l);
    SentMore(s.sent, d);
    NextCarries(h, retryCount, s, l);
    assert s'.batches == s.batches[l.b := x];
    DeliveryNew(h, retryCount, s.batches, l.b, l);
    DeliveriesMore(h, s.batches, s'.batches, s.sent, d);
    ToldSent(s, s', l.b, x, d);
  }

  lemma ToldSent<D>(s: State<D>, s': State<D>, b: nat, x: Batch<D>, d: Delivery<D>)
    requires AllToldSent(s) && b < |s.batches| && s'.batches == s.batches[b := x]
    requires x.items == s.batches[b].items && Told(x) == Told(s.batches[b]) + 1 && Told(s.batches[b]) < |x.items|
    requires d.token == x.items[Told(s.batches[b])].token && IsSent(s'.sent, d.token)
    requires forall t :: IsSent(s.sent, t) ==> IsSent(s'.sent, t)
    ensures AllToldSent(s')
  {
  }

  lemma OtherSendsNothing<D>(h: (D, D) -> D, retryCount: nat, s: State<D>, l: Label<D>)
    requires !l.Notify? && Enabled(s, l)
    ensures var s' := Next(h, retryCount, s, l);
            s'.sent == s.sent && s'.skipped == s.skipped && forall t :: t in s'.channels ==> t in s.channels
  {
  }

  lemma DeliveriesCarry<D>(h: (D, D) -> D, xs: seq<Batch<D>>, ys: seq<Batch<D>>, sent: seq<Delivery<D>>)
    requires (forall k :: 0 <= k < |sent| ==> DeliveryOk(h, xs, sent[k])) && CarriesTold(xs, ys)
    ensures forall k :: 0 <= k < |sent| ==> DeliveryOk(h, ys, sent[k])
  {
    forall k | 0 <= k < |sent|
      ensures DeliveryOk(h, ys, sent[k])
    {
      DeliveryCarries(h, xs, ys, sent[k]);
    }
  }

  lemma OtherKeepsSends<D>(h: (D, D) -> D, retryCount: nat, s: State<D>, l: Label<D>)
    requires SendsOk(h, s) && !l.Notify? && Enabled(s, l)
    ensures SendsOk(h, Next(h, retryCount, s, l))
  {
    NextCarries(h, retryCount, s, l);
    OtherTold(h, retryCount, s, l);
    OtherSendsNothing(h, retryCount, s, l);
    DeliveriesCarry(h, s.batches, Next(h, retryCount, s, l).batches, s.sent);
  }

  lemma OtherTold<D>(h: (D, D) -> D, retryCount: nat, s: State<D>, l: Label<D>)
    requires AllToldSent(s) && !l.Notify? && Enabled(s, l)
    ensures AllToldSent(Next(h, retryCount, s, l))
  {
    var s' := Next(h, retryCount, s, l);
    assert s'.sent == s.sent;
    if OfBatch(l) {
      var x := BatchAfter(h, retryCount, s.batches[l.b], l);
      BatchCarries(h, retryCount, s.batches[l.b], l);
      assert s'.batches == s.batches[l.b := x];
    }
  }

  // -------------------------------------------------- the invariant is kept

  lemma NextPlaced<D>(h: (D, D) -> D, retryCount: nat, s: State<D>, l: Label<D>)
    requires Placed(s) && BatchesOk(h, retryCount, s) && Enabled(s, l)
    ensures Placed(Next(h, retryCount, s, l))
  {
    var s' := Next(h, retryCount, s, l);
    if OfBatch(l) {
      assert BatchOk(h, retryCount, s.batches[l.b]);
      SameItems(h, retryCount, s.batches[l.b], l);
      BatchPlaced(s, s', l.b, BatchAfter(h, retryCount, s.batches[l.b], l));
    } else if l.Submit? {
      SubmitPlaced(h, retryCount, s, l);
    } else if l.Flush? {
      FlushPlaced(h, retryCount, s, l);
    } else {
      assert s'.pending == s.pending && s'.batches == s.batches;
    }
  }

  // The one batch a step changes stays in order.
  lemma BatchStaysOk<D>(h: (D, D) -> D, retryCount: nat, batch: Batch<D>, l: Label<D>)
    requires BatchOk(h, retryCount, batch) && OfBatch(l) && BatchEnabled(batch, l)
    ensures BatchOk(h, retryCount, BatchAfter(h, retryCount, batch, l))
  {
  }

  lemma NextBatchesOk<D>(h: (D, D) -> D, retryCount: nat, s: State<D>, l: Label<D>)
    requires BatchesOk(h, retryCount, s) && Enabled(s, l)
    ensures BatchesOk(h, retryCount, Next(h, retryCount, s, l))
  {
    if OfBatch(l) {
      BatchStaysOk(h, retryCount, s.batches[l.b], l);
      BatchCounters(h, retryCount, s, l);
    }
  }

  // The ledger when one batch changes its phase, or the order of its items.
  lemma BatchBalanced<D>(s: State<D>, s': State<D>, b: nat, x: Batch<D>)
    requires Balanced(s) && b < |s.batches| && s'.batches == s.batches[b := x]
    requires |x.items| == |s.batches[b].items| && !s.batches[b].phase.Counted?
    requires s'.pending == s.pending && s'.accepted == s.accepted
    requires s'.totalItems == s.totalItems && s'.uncounted == s.uncounted
    requires s'.successfulItems == s.successfulItems + Adds(x, Successful)
    requires s'.failedItems == s.failedItems + Adds(x, Unsuccessful)
    requires s'.gasSaved == s.gasSaved + Adds(x, Saved)
    requires s'.totalBatches == s.totalBatches - Adds(s.batches[b], Made) + Adds(x, Made)
    ensures Balanced(s')
  {
    TotalUpdate(s.batches, b, x, InFlight);
    TotalUpdate(s.batches, b, x, Successful);
    TotalUpdate(s.batches, b, x, Unsuccessful);
    TotalUpdate(s.batches, b, x, Saved);
    TotalUpdate(s.batches, b, x, Made);
  }

  lemma SameItems<D>(h: (D, D) -> D, retryCount: nat, batch: Batch<D>, l: Label<D>)
    requires BatchOk(h, retryCount, batch) && OfBatch(l) && BatchEnabled(batch, l)
    ensures var x := BatchAfter(h, retryCount, batch, l);
            multiset(x.items) == multiset(batch.items) && |x.items| == |batch.items|
  {
    if l.Create? {
      SameLength(l.sorted, batch.items);
    }
  }

  // What a step on a batch does to the counters.
  lemma BatchCounters<D>(h: (D, D) -> D, retryCount: nat, s: State<D>, l: Label<D>)
    requires Enabled(s, l) && OfBatch(l)
    ensures var s', batch, x := BatchStep(h, retryCount, s, l), s.batches[l.b],
                                BatchAfter(h, retryCount, s.batches[l.b], l);
            && s'.batches == s.batches[l.b := x] && !batch.phase.Counted?
            && s'.pending == s.pending && s'.accepted == s.accepted
            && s'.totalItems == s.totalItems && s'.uncounted == s.uncounted
            && s'.successfulItems == s.successfulItems + Adds(x, Successful)
            && s'.failedItems == s.failedItems + Adds(x, Unsuccessful)
            && s'.gasSaved == s.gasSaved + Adds(x, Saved)
            && s'.totalBatches == s.totalBatches - Adds(batch, Made) + Adds(x, Made)
  {
  }

  lemma StepBalanced<D>(h: (D, D) -> D, retryCount: nat, s: State<D>, l: Label<D>)
    requires Balanced(s) && Enabled(s, l) && OfBatch(l) && BatchOk(h, retryCount, s.batches[l.b])
    ensures Balanced(BatchStep(h, retryCount, s, l))
  {
    SameItems(h, retryCount, s.batches[l.b], l);
    BatchCounters(h, retryCount, s, l);
    BatchBalanced(s, BatchStep(h, retryCount, s, l), l.b, BatchAfter(h, retryCount, s.batches[l.b], l));
  }

  lemma TotalAppend<D>(batches: seq<Batch<D>>, x: Batch<D>, e: Entry)
    ensures Total(batches + [x], e) == Total(batches, e) + Adds(x, e)
  {
    assert (batches + [x])[..|batches|] == batches;
  }

  // Draining moves the pending items into the ledger's entry for items in flight.
  lemma FlushBalanced<D>(s: State<D>, x: Batch<D>)
    requires Balanced(s) && x.phase.Drained? && x.items == s.pending
    ensures Balanced(s.(pending := [], batches := s.batches + [x]))
  {
    TotalAppend(s.batches, x, InFlight);
    TotalAppend(s.batches, x, Successful);
    TotalAppend(s.batches, x, Unsuccessful);
    TotalAppend(s.batches, x, Saved);
    TotalAppend(s.batches, x, Made);
  }

  lemma NextBalanced<D>(h: (D, D) -> D, retryCount: nat, s: State<D>, l: Label<D>)
    requires Balanced(s) && BatchesOk(h, retryCount, s) && Enabled(s, l)
    ensures Balanced(Next(h, retryCount, s, l))
  {
    if OfBatch(l) {
      StepBalanced(h, retryCount, s, l);
    } else if l.Flush? {
      FlushBalanced(s, Batch(s.pending, s.pending, None, [], Drained));
    }
  }

  lemma NextKeepsInv<D>(h: (D, D) -> D, retryCount: nat, s: State<D>, l: Label<D>)
    requires Inv(h, retryCount, s) && Enabled(s, l)
    ensures Inv(h, retryCount, Next(h, retryCount, s, l))
  {
    NextPlaced(h, retryCount, s, l);
    NextBatchesOk(h, retryCount, s, l);
    NextBalanced(h, retryCount, s, l);
    if l.Notify? {
      NotifyKeepsSends(h, retryCount, s, l);
    } else {
      OtherKeepsSends(h, retryCount, s, l);
    }
  }

  // Over all interleavings of submits, flushes, anchor attempts and Stop.
  lemma {:induction false} RunKeepsInv<D>(h: (D, D) -> D, retryCount: nat, s: State<D>, run: seq<Label<D>>)
    requires Inv(h, retryCount, s) && IsRun(h, retryCount, s, run)
    ensures Inv(h, retryCount, After(h, retryCount, s, run))
    decreases |run|
  {
    if run != [] {
      NextKeepsInv(h, retryCount, s, run[0]);
      RunKeepsInv(h, retryCount, Next(h, retryCount, s, run[0]), run[1..]);
    }
  }

  // ------------------------------------------------------------- theorems

  // The delivery is for an item of its batch, and its proof verifies for that item's
  // root hash and index against the batch root.
  ghost predicate CarriesProof<D>(h: (D, D) -> D, batches: seq<Batch<D>>, r: Delivery<D>) {
    && r.batch < |batches| && r.proofIndex < |batches[r.batch].items|
    && var item := batches[r.batch].items[r.proofIndex];
       item.token == r.token && VerifySpec(h, r.batchRoot, item.rootHash, r.merkleProof, r.proofIndex)
  }

  lemma BatchItemVerifies<D>(h: (D, D) -> D, retryCount: nat, batch: Batch<D>, i: nat, root: D)
    requires BatchOk(h, retryCount, batch) && !batch.phase.Drained?
    requires i < |batch.items| && batch.root == Some(root)
    ensures VerifySpec(h, root, batch.items[i].rootHash, BatchProof(h, Leaves(batch.items), i), i)
  {
    BatchProofVerifies(h, Leaves(batch.items), i);
  }

  lemma DeliveryVerifies<D>(h: (D, D) -> D, retryCount: nat, s: State<D>, r: Delivery<D>)
    requires BatchesOk(h, retryCount, s) && DeliveryOk(h, s.batches, r)
    ensures CarriesProof(h, s.batches, r)
  {
    assert BatchOk(h, retryCount, s.batches[r.batch]);
    BatchItemVerifies(h, retryCount, s.batches[r.batch], r.proofIndex, r.batchRoot);
  }

  // Every result sent in any run carries a proof that verifies for the item's root hash
  // at its index against the batch root.
  lemma DeliveredProofsVerify<D>(h: (D, D) -> D, retryCount: nat, run: seq<Label<D>>, k: nat)
    requires IsRun(h, retryCount, Init(), run) && k < |After(h, retryCount, Init(), run).sent|
    ensures var s := After(h, retryCount, Init(), run);
            CarriesProof(h, s.batches, s.sent[k])
  {
    var s := After(h, retryCount, Init(), run);
    RunKeepsInv(h, retryCount, Init(), run);
    DeliveryVerifies(h, retryCount, s, s.sent[k]);
  }

  ghost predicate CountedSent<D>(s: State<D>) {
    forall b, i :: 0 <= b < |s.batches| && s.batches[b].phase.Counted? && 0 <= i < |s.batches[b].items| ==>
      IsSent(s.sent, s.batches[b].items[i].token)
  }

  lemma ToldAreSent<D>(s: State<D>)
    requires AllToldSent(s)
    ensures CountedSent(s)
  {
  }

  // In every run, whatever the submitters have received meanwhile, no item is sent a
  // second result, no send finds its channel full, and every item whose batch is
  // counted was sent its result.
  lemma OneSendPerItem<D>(h: (D, D) -> D, retryCount: nat, run: seq<Label<D>>)
    requires IsRun(h, retryCount, Init(), run)
    ensures var s := After(h, retryCount, Init(), run);
            SentOnce(s.sent) && s.skipped == [] && CountedSent(s)
  {
    var s := After(h, retryCount, Init(), run);
    assert SendsOk(h, s) by { RunKeepsInv(h, retryCount, Init(), run); }
    ToldAreSent(s);
  }

  // ------------------------------------------------- outcomes and the service's answers

  predicate IsAnswer<D>(l: Label<D>, b: nat) {
    (l.AnchorOk? || l.AnchorErr?) && l.b == b
  }

  // What the anchor service answered for batch b, in order.
  function Answers<D>(run: seq<Label<D>>, b: nat): seq<Label<D>> {
    if run == [] then []
    else (if IsAnswer(run[0], b) then [run[0]] else []) + Answers(run[1..], b)
  }

  ghost predicate AllErrors<D>(answers: seq<Label<D>>) {
    forall i :: 0 <= i < |answers| ==> answers[i].AnchorErr?
  }

  // The 64-bit signed number with the bits of n.
  predicate SameBits(height: int, n: nat) {
    -0x8000_0000_0000_0000 <= height < 0x8000_0000_0000_0000 && (n - height) % 0x1_0000_0000_0000_0000 == 0
  }

  // The outcome the answers call for: anchored with what the last of them says, after at
  // most retryCount errors, or failed with the last of retryCount + 1 errors.
  ghost predicate CallFor<D>(retryCount: nat, answers: seq<Label<D>>, o: Outcome) {
    && answers != [] && |answers| <= retryCount + 1 && AllErrors(answers[..|answers| - 1])
    && var last := answers[|answers| - 1];
       if last.AnchorOk? then
         o.Anchored? && o.txHash == last.txHash && SameBits(o.blockHeight, last.blockNumber) && o.at == last.now
       else last.AnchorErr? && |answers| == retryCount + 1 && o == Failed(last.error)
  }

  // The phase of a batch with that history.
  ghost predicate Follows<D>(retryCount: nat, answers: seq<Label<D>>, phase: Phase) {
    match phase
    case Drained => answers == []
    case Created => answers == []
    case Anchoring(attempt) => |answers| == attempt <= retryCount && AllErrors(answers)
    case Decided(o, _) => CallFor(retryCount, answers, o)
    case Counted(o) => CallFor(retryCount, answers, o)
  }

  ghost predicate History<D>(retryCount: nat, s: State<D>, b: nat, answers: seq<Label<D>>) {
    if b < |s.batches| then Follows(retryCount, answers, s.batches[b].phase) else answers == []
  }

  lemma AsInt64Bits(n: nat)
    ensures SameBits(AsInt64(n), n)
  {
  }

  lemma AnswerFollows<D>(h: (D, D) -> D, retryCount: nat, batch: Batch<D>, l: Label<D>, answers: seq<Label<D>>)
    requires OfBatch(l) && BatchEnabled(batch, l) && Follows(retryCount, answers, batch.phase)
    ensures Follows(retryCount, answers + (if IsAnswer(l, l.b) then [l] else []),
                    BatchAfter(h, retryCount, batch, l).phase)
  {
    if l.AnchorOk? || l.AnchorErr? {
      assert (answers + [l])[..|answers|] == answers;
      if l.AnchorOk? {
        AsInt64Bits(l.blockNumber);
      }
    } else {
      assert answers + [] == answers;
    }
  }

  lemma StepHistory<D>(h: (D, D) -> D, retryCount: nat, s: State<D>, l: Label<D>, b: nat, answers: seq<Label<D>>)
    requires Enabled(s, l) && History(retryCount, s, b, answers)
    ensures History(retryCount, Next(h, retryCount, s, l), b, answers + (if IsAnswer(l, b) then [l] else []))
  {
    assert answers + [] == answers;
    if OfBatch(l) {
      var x := BatchAfter(h, retryCount, s.batches[l.b], l);
      BatchCounters(h, retryCount, s, l);
      if l.b == b {
        AnswerFollows(h, retryCount, s.batches[b], l, answers);
      }
      HistoryMoves(retryCount, s, BatchStep(h, retryCount, s, l), l.b, x, b, answers,
                   answers + (if IsAnswer(l, b) then [l] else []));
    }
  }

  lemma HistoryMoves<D>(retryCount: nat, s: State<D>, s': State<D>, k: nat, x: Batch<D>, b: nat,
                        answers: seq<Label<D>>, more: seq<Label<D>>)
    requires k < |s.batches| && s'.batches == s.batches[k := x] && History(retryCount, s, b, answers)
    requires if k == b then Follows(retryCount, more, x.phase) else more == answers
    ensures History(retryCount, s', b, more)
  {
  }

  lemma {:induction false} RunHistory<D>(h: (D, D) -> D, retryCount: nat, s: State<D>, run: seq<Label<D>>, b: nat,
                                         answers: seq<Label<D>>)
    requires IsRun(h, retryCount, s, run) && History(retryCount, s, b, answers)
    ensures History(retryCount, After(h, retryCount, s, run), b, answers + Answers(run, b))
    decreases |run|
  {
    if run == [] {
      assert answers + [] == answers;
    } else {
      var now := if IsAnswer(run[0], b) then [run[0]] else [];
      StepHistory(h, retryCount, s, run[0], b, answers);
      RunHistory(h, retryCount, Next(h, retryCount, s, run[0]), run[1..], b, answers + now);
      assert answers + now + Answers(run[1..], b) == answers + (now + Answers(run[1..], b));
    }
  }

  ghost predicate HasOutcome<D>(s: State<D>, b: nat, o: Outcome) {
    b < |s.batches| && (s.batches[b].phase.Decided? || s.batches[b].phase.Counted?) && s.batches[b].phase.outcome == o
  }

  lemma OutcomeUnique<D>(retryCount: nat, answers: seq<Label<D>>, o: Outcome, o': Outcome)
    requires CallFor(retryCount, answers, o) && CallFor(retryCount, answers, o')
    ensures o == o'
  {
    var last := answers[|answers| - 1];
    if last.AnchorOk? {
      var n, x, y := last.blockNumber, o.blockHeight, o'.blockHeight;
      assert (n - x) % 0x1_0000_0000_0000_0000 == 0 && (n - y) % 0x1_0000_0000_0000_0000 == 0;
      assert (x - y) % 0x1_0000_0000_0000_0000 == 0;
    }
  }

  // In every run a batch has an outcome exactly when the answers given for it call for
  // that one: a batch that was not anchored is never reported as anchored, and one fails
  // after retryCount + 1 errors and not before.
  lemma OutcomeIff<D>(h: (D, D) -> D, retryCount: nat, run: seq<Label<D>>, b: nat, o: Outcome)
    requires IsRun(h, retryCount, Init(), run)
    ensures HasOutcome(After(h, retryCount, Init(), run), b, o) <==> CallFor(retryCount, Answers(run, b), o)
  {
    var s := After(h, retryCount, Init(), run);
    RunHistory(h, retryCount, Init(), run, b, []);
    assert [] + Answers(run, b) == Answers(run, b);
    if CallFor(retryCount, Answers(run, b), o) && b < |s.batches| {
      OutcomeOf(retryCount, Answers(run, b), s.batches[b].phase, o);
    }
  }

  lemma OutcomeOf<D>(retryCount: nat, answers: seq<Label<D>>, phase: Phase, o: Outcome)
    requires Follows(retryCount, answers, phase) && CallFor(retryCount, answers, o)
    ensures (phase.Decided? || phase.Counted?) && phase.outcome == o
  {
    if phase.Decided? || phase.Counted? {
      OutcomeUnique(retryCount, answers, o, phase.outcome);
    }
  }

  // Every result sent carries the outcome the service's answers for its batch call for.
  lemma SentOutcome<D>(h: (D, D) -> D, retryCount: nat, run: seq<Label<D>>, k: nat)
    requires IsRun(h, retryCount, Init(), run) && k < |After(h, retryCount, Init(), run).sent|
    ensures var d := After(h, retryCount, Init(), run).sent[k];
            CallFor(retryCount, Answers(run, d.batch), d.outcome)
  {
    var s := After(h, retryCount, Init(), run);
    RunKeepsInv(h, retryCount, Init(), run);
    assert DeliveryOk(h, s.batches, s.sent[k]);
    OutcomeIff(h, retryCount, run, s.sent[k].batch, s.sent[k].outcome);
  }

  // ------------------------------------------------------- what was submitted

  // The items a run accepts, from the submissions before the first Stop.
  function Submitted<D>(run: seq<Label<D>>, closed: bool, next: nat): seq<Item<D>>
    decreases |run|
  {
    if run == [] then []
    else if run[0].Submit? && !closed then
      [Item(next, run[0].rootHash, run[0].priority, run[0].now)] + Submitted(run[1..], closed, next + 1)
    else Submitted(run[1..], closed || run[0].Stop?, next)
  }

  ghost predicate IsItem<D>(items: seq<Item<D>>, x: Item<D>) {
    x.token < |items| && items[x.token] == x
  }

  ghost predicate AllItems<D>(items: seq<Item<D>>, xs: seq<Item<D>>) {
    forall i :: 0 <= i < |xs| ==> IsItem(items, xs[i])
  }

  // Everything pending or in a batch is as it was submitted under its token.
  ghost predicate Genuine<D>(s: State<D>, items: seq<Item<D>>) {
    && |items| == s.accepted && AllItems(items, s.pending)
    && forall b :: 0 <= b < |s.batches| ==> AllItems(items, s.batches[b].items) && AllItems(items, s.batches[b].drained)
  }

  lemma AllItemsPermuted<D>(items: seq<Item<D>>, xs: seq<Item<D>>, ys: seq<Item<D>>)
    requires AllItems(items, xs) && multiset(xs) == multiset(ys)
    ensures AllItems(items, ys)
  {
    forall i | 0 <= i < |ys|
      ensures IsItem(items, ys[i])
    {
      var j := FindSame(ys, xs, i);
    }
  }

  lemma GenuineSubmit<D>(h: (D, D) -> D, retryCount: nat, s: State<D>, l: Label<D>, items: seq<Item<D>>)
    requires Genuine(s, items) && l.Submit? && !s.closed
    ensures Genuine(Next(h, retryCount, s, l), items + [Item(s.accepted, l.rootHash, l.priority, l.now)])
  {
    var more := items + [Item(s.accepted, l.rootHash, l.priority, l.now)];
    assert forall x :: IsItem(items, x) ==> IsItem(more, x);
  }

  lemma GenuineBatch<D>(h: (D, D) -> D, retryCount: nat, s: State<D>, l: Label<D>, items: seq<Item<D>>)
    requires Genuine(s, items) && Enabled(s, l) && OfBatch(l)
    ensures Genuine(BatchStep(h, retryCount, s, l), items)
  {
    BatchCounters(h, retryCount, s, l);
    if l.Create? {
      AllItemsPermuted(items, s.batches[l.b].drained, l.sorted);
    }
    BatchItems(h, retryCount, s.batches[l.b], l);
  }

  lemma BatchItems<D>(h: (D, D) -> D, retryCount: nat, batch: Batch<D>, l: Label<D>)
    requires OfBatch(l) && BatchEnabled(batch, l)
    ensures var x := BatchAfter(h, retryCount, batch, l);
            x.drained == batch.drained && x.items == if l.Create? then l.sorted else batch.items
  {
  }

  lemma GenuineOther<D>(h: (D, D) -> D, retryCount: nat, s: State<D>, l: Label<D>, items: seq<Item<D>>)
    requires Genuine(s, items) && Enabled(s, l) && !OfBatch(l) && (l.Submit? ==> s.closed)
    ensures Genuine(Next(h, retryCount, s, l), items)
    ensures Next(h, retryCount, s, l).closed == (s.closed || l.Stop?)
  {
  }

  lemma {:induction false} RunGenuine<D>(h: (D, D) -> D, retryCount: nat, s: State<D>, run: seq<Label<D>>,
                                         items: seq<Item<D>>)
    requires IsRun(h, retryCount, s, run) && Genuine(s, items)
    ensures Genuine(After(h, retryCount, s, run), items + Submitted(run, s.closed, s.accepted))
    decreases |run|
  {
    if run == [] {
      assert items + [] == items;
    } else {
      var l, next := run[0], Next(h, retryCount, s, run[0]);
      if l.Submit? && !s.closed {
        var x := Item(s.accepted, l.rootHash, l.priority, l.now);
        GenuineSubmit(h, retryCount, s, l, items);
        RunGenuine(h, retryCount, next, run[1..], items + [x]);
        Regroup(items, x, Submitted(run[1..], next.closed, next.accepted));
      } else {
        if OfBatch(l) {
          GenuineBatch(h, retryCount, s, l, items);
          assert next.closed == s.closed;
        } else {
          GenuineOther(h, retryCount, s, l, items);
        }
        RunGenuine(h, retryCount, next, run[1..], items);
      }
    }
  }

  // So every result sent is for an item that was submitted, and its proof verifies for the
  // root hash submitted with it.
  lemma SentForSubmitted<D>(h: (D, D) -> D, retryCount: nat, run: seq<Label<D>>, k: nat)
    requires IsRun(h, retryCount, Init(), run) && k < |After(h, retryCount, Init(), run).sent|
    ensures var d, items := After(h, retryCount, Init(), run).sent[k], Submitted(run, false, 0);
            d.token < |items|
            && VerifySpec(h, d.batchRoot, items[d.token].rootHash, d.merkleProof, d.proofIndex)
  {
    var s, items := After(h, retryCount, Init(), run), Submitted(run, false, 0);
    RunGenuine(h, retryCount, Init(), run, []);
    assert [] + items == items;
    DeliveredProofsVerify(h, retryCount, run, k);
    assert AllItems(items, s.batches[s.sent[k].batch].items);
    assert IsItem(items, s.batches[s.sent[k].batch].items[s.sent[k].proofIndex]);
  }

  // ----------------------------------------------------------- the estimate of gas

  function AnchoredBatches<D>(batches: seq<Batch<D>>): nat {
    if batches == [] then 0
    else
      var last := batches[|batches| - 1];
      AnchoredBatches(batches[..|batches| - 1]) + (if last.phase.Counted? && last.phase.outcome.Anchored? then 1 else 0)
  }

  lemma {:induction false} SavedTotal<D>(batches: seq<Batch<D>>)
    ensures Total(batches, Saved) == 100000 * (Total(batches, Successful) - AnchoredBatches(batches))
  {
    if batches != [] {
      SavedTotal(batches[..|batches| - 1]);
    }
  }

  // In every run: one anchoring saved for each item that was anchored, less one for each
  // batch it took.
  lemma GasExact<D>(h: (D, D) -> D, retryCount: nat, run: seq<Label<D>>)
    requires IsRun(h, retryCount, Init(), run)
    ensures var s := After(h, retryCount, Init(), run);
            s.gasSaved == 100000 * (s.successfulItems - AnchoredBatches(s.batches))
  {
    var s := After(h, retryCount, Init(), run);
    assert Balanced(s) by { RunKeepsInv(h, retryCount, Init(), run); }
    SavedTotal(s.batches);
  }

  // After Stop has closed the anchorer and its flush has drained it, nothing is ever
  // pending again.
  lemma {:induction false} DrainedForGood<D>(h: (D, D) -> D, retryCount: nat, s: State<D>, run: seq<Label<D>>)
    requires s.closed && s.pending == [] && IsRun(h, retryCount, s, run)
    ensures After(h, retryCount, s, run).closed && After(h, retryCount, s, run).pending == []
    decreases |run|
  {
    if run != [] {
      DrainedForGood(h, retryCount, Next(h, retryCount, s, run[0]), run[1..]);
    }
  }

  // An item that is not pending was sent its result if every batch is counted.
  lemma PlacedAnswered<D>(s: State<D>, t: nat)
    requires Placed(s) && AllToldSent(s) && s.pending == [] && t < s.accepted
    requires forall b :: 0 <= b < |s.batches| ==> s.batches[b].phase.Counted?
    ensures IsSent(s.sent, t)
  {
    assert Occurs(s.pending, t) + OccursIn(s.batches, t) == 1;
    var b, i := FindItem(s.batches, t);
    assert IsSent(s.sent, s.batches[b].items[i].token);
  }

  // When, after that, every batch is counted, each accepted item has its result and
  // is counted as successful or failed.
  lemma AllAnswered<D>(h: (D, D) -> D, retryCount: nat, s: State<D>, t: nat)
    requires Inv(h, retryCount, s) && s.pending == [] && t < s.accepted
    requires forall b :: 0 <= b < |s.batches| ==> s.batches[b].phase.Counted?
    ensures IsSent(s.sent, t)
    ensures s.accepted == s.successfulItems + s.failedItems
  {
    PlacedAnswered(s, t);
    NoneInFlight(s.batches);
  }

  // ----------------------------------------------------------- termination

  // Everything but new submissions, Stop and flushes that find nothing.
  predicate Internal<D>(s: State<D>, l: Label<D>) {
    !l.Submit? && !l.Stop? && (l.Flush? ==> s.pending != [])
  }

  function Measure<D>(retryCount: nat, s: State<D>): int {
    s.uncounted + |s.channels| + (if s.pending == [] then 0 else 2 * |s.pending| + retryCount + 5)
    + Total(s.batches, Work(retryCount))
  }

  lemma {:induction false} WorkNonNegative<D>(h: (D, D) -> D, retryCount: nat, batches: seq<Batch<D>>)
    requires forall b :: 0 <= b < |batches| ==> BatchOk(h, retryCount, batches[b])
    ensures Total(batches, Work(retryCount)) >= 0
  {
    if batches != [] {
      WorkNonNegative(h, retryCount, batches[..|batches| - 1]);
    }
  }

  lemma WorkDrops<D>(h: (D, D) -> D, retryCount: nat, batch: Batch<D>, l: Label<D>)
    requires BatchOk(h, retryCount, batch) && OfBatch(l) && BatchEnabled(batch, l)
    ensures WorkLeft(retryCount, BatchAfter(h, retryCount, batch, l)) <=
            WorkLeft(retryCount, batch) - (if l.Notify? then 2 else 1)
  {
    SameItems(h, retryCount, batch, l);
  }

  lemma ChannelsGrow<D>(h: (D, D) -> D, retryCount: nat, s: State<D>, l: Label<D>)
    requires Enabled(s, l) && OfBatch(l)
    ensures |BatchStep(h, retryCount, s, l).channels| <= |s.channels| + (if l.Notify? then 1 else 0)
  {
    if l.Notify? {
      var d := DeliveryOf(h, s.batches[l.b], l.b, s.batches[l.b].phase.told);
      if d.token !in s.channels {
        assert s.channels[d.token := d].Keys == s.channels.Keys + {d.token};
        KeysCount(s.channels);
        KeysCount(s.channels[d.token := d]);
      }
    }
  }

  lemma KeysCount<V>(m: map<nat, V>)
    ensures |m| == |m.Keys|
  {
  }

  lemma ReceiveFrees<V>(m: map<nat, V>, t: nat)
    requires t in m
    ensures |m - {t}| == |m| - 1
  {
    assert (m - {t}).Keys == m.Keys - {t};
    KeysCount(m);
    KeysCount(m - {t});
  }

  lemma MeasureDrops<D>(h: (D, D) -> D, retryCount: nat, s: State<D>, l: Label<D>)
    requires BatchesOk(h, retryCount, s) && Enabled(s, l) && Internal(s, l)
    ensures Measure(retryCount, Next(h, retryCount, s, l)) < Measure(retryCount, s)
  {
    if OfBatch(l) {
      BatchCounters(h, retryCount, s, l);
      WorkDrops(h, retryCount, s.batches[l.b], l);
      TotalUpdate(s.batches, l.b, BatchAfter(h, retryCount, s.batches[l.b], l), Work(retryCount));
      ChannelsGrow(h, retryCount, s, l);
    } else if l.Flush? {
      TotalAppend(s.batches, Batch(s.pending, s.pending, None, [], Drained), Work(retryCount));
    } else if l.Receive? {
      ReceiveFrees(s.channels, l.token);
    }
  }

  // With no further submissions the anchorer stops after at most Measure steps.
  lemma {:induction false} Quiesces<D>(h: (D, D) -> D, retryCount: nat, s: State<D>, run: seq<Label<D>>)
    requires Inv(h, retryCount, s) && IsRun(h, retryCount, s, run) && OnlyInternal(h, retryCount, s, run)
    ensures |run| <= Measure(retryCount, s)
    decreases |run|
  {
    if run == [] {
      WorkNonNegative(h, retryCount, s.batches);
    } else {
      NextKeepsInv(h, retryCount, s, run[0]);
      MeasureDrops(h, retryCount, s, run[0]);
      Quiesces(h, retryCount, Next(h, retryCount, s, run[0]), run[1..]);
    }
  }

  ghost predicate OnlyInternal<D>(h: (D, D) -> D, retryCount: nat, s: State<D>, run: seq<Label<D>>)
    requires IsRun(h, retryCount, s, run)
    decreases |run|
  {
    run == [] || (Internal(s, run[0]) && OnlyInternal(h, retryCount, Next(h, retryCount, s, run[0]), run[1..]))
  }

  ghost predicate Settled<D>(s: State<D>) {
    s.pending == [] && s.uncounted == 0 && forall b :: 0 <= b < |s.batches| ==> s.batches[b].phase.Counted?
  }

  // sort.Slice can always give a sorted permutation.
  lemma {:induction false} SortedExists<D>(items: seq<Item<D>>) returns (sorted: seq<Item<D>>)
    ensures Sorted(sorted) && multiset(sorted) == multiset(items)
  {
    sorted := [];
    if items != [] {
      var n := |items| - 1;
      TakeNext(items, n);
      assert items == items[..n] + [items[n]];
      var rest := SortedExists(items[..n]);
      var i := PlaceFor(rest, items[n], |rest|);
      InsertedSorted(rest, i, items[n]);
      InsertedSame(rest, i, items[n]);
      sorted := rest[..i] + [items[n]] + rest[i..];
    }
  }

  lemma {:induction false} PlaceFor<D>(s: seq<Item<D>>, x: Item<D>, from: nat) returns (i: nat)
    requires Sorted(s) && from <= |s|
    requires forall j :: from <= j < |s| ==> Before(x, s[j])
    ensures i <= |s| && (i > 0 ==> Before(s[i - 1], x))
    ensures forall j :: i <= j < |s| ==> Before(x, s[j])
  {
    i := from;
    if from > 0 && !Before(s[from - 1], x) {
      i := PlaceFor(s, x, from - 1);
    }
  }

  // The step a batch that is not counted can take.
  lemma BatchMoves<D>(h: (D, D) -> D, retryCount: nat, batch: Batch<D>, b: nat) returns (l: Label<D>)
    requires BatchOk(h, retryCount, batch) && !batch.phase.Counted?
    ensures OfBatch(l) && l.b == b && BatchEnabled(batch, l)
  {
    match batch.phase
    case Drained =>
      var sorted := SortedExists(batch.drained);
      SameLength(sorted, batch.items);
      l := Create(b, sorted);
    case Created => l := Begin(b);
    case Anchoring(_) => l := AnchorErr(b, "");
    case Decided(_, told) => l := if told < |batch.items| then Notify(b) else CountBatch(b);
  }

  // The anchorer itself has no step left, whatever the submitters may still receive.
  ghost predicate AtRest<D(!new)>(s: State<D>) {
    forall l :: Internal(s, l) && !l.Receive? ==> !Enabled(s, l)
  }

  // It can move exactly as long as it is not settled.
  lemma SettledIff<D(!new)>(h: (D, D) -> D, retryCount: nat, s: State<D>)
    requires BatchesOk(h, retryCount, s)
    ensures Settled(s) <==> AtRest(s)
  {
    if !Settled(s) {
      var l := Moves(h, retryCount, s);
      assert Internal(s, l) && !l.Receive? && Enabled(s, l);
    }
  }

  lemma Moves<D>(h: (D, D) -> D, retryCount: nat, s: State<D>) returns (l: Label<D>)
    requires BatchesOk(h, retryCount, s) && !Settled(s)
    ensures Internal(s, l) && !l.Receive? && Enabled(s, l)
  {
    if s.pending != [] {
      l := Flush;
    } else if s.uncounted > 0 {
      l := CountItem;
    } else {
      var b :| 0 <= b < |s.batches| && !s.batches[b].phase.Counted?;
      l := BatchMoves(h, retryCount, s.batches[b], b);
    }
  }

  ghost predicate AllAccounted<D>(s: State<D>) {
    && s.totalItems == s.accepted == s.successfulItems + s.failedItems
    && forall t: nat :: t < s.accepted ==> IsSent(s.sent, t)
  }

  lemma SettledAccounted<D>(h: (D, D) -> D, retryCount: nat, s: State<D>)
    requires Inv(h, retryCount, s) && Settled(s)
    ensures AllAccounted(s)
  {
    NoneInFlight(s.batches);
    forall t: nat | t < s.accepted
      ensures IsSent(s.sent, t)
    {
      AllAnswered(h, retryCount, s, t);
    }
  }

  // So a run that can take no further step of its own has answered and counted every
  // item it accepted.
  lemma RestAccounted<D(!new)>(h: (D, D) -> D, retryCount: nat, run: seq<Label<D>>)
    requires IsRun(h, retryCount, Init(), run) && AtRest(After(h, retryCount, Init(), run))
    ensures AllAccounted(After(h, retryCount, Init(), run))
  {
    var s := After(h, retryCount, Init(), run);
    RunKeepsInv(h, retryCount, Init(), run);
    SettledIff(h, retryCount, s);
    SettledAccounted(h, retryCount, s);
  }

  lemma {:induction false} FindItem<D>(batches: seq<Batch<D>>, t: nat) returns (b: nat, i: nat)
    requires OccursIn(batches, t) >= 1
    ensures b < |batches| && i < |batches[b].items| && batches[b].items[i].token == t
  {
    var n := |batches| - 1;
    if Occurs(batches[n].items, t) >= 1 {
      b := n;
      i := FindIn(batches[n].items, t);
    } else {
      b, i := FindItem(batches[..n], t);
    }
  }

  lemma {:induction false} FindIn<D>(items: seq<Item<D>>, t: nat) returns (i: nat)
    requires Occurs(items, t) >= 1
    ensures i < |items| && items[i].token == t
  {
    i := |items| - 1;
    if items[i].token != t {
      i := FindIn(items[..i], t);
    }
  }

  lemma {:induction false} NoneInFlight<D>(batches: seq<Batch<D>>)
    requires forall b :: 0 <= b < |batches| ==> batches[b].phase.Counted?
    ensures Total(batches, InFlight) == 0
  {
    if batches != [] {
      NoneInFlight(batches[..|batches| - 1]);
    }
  }
}
