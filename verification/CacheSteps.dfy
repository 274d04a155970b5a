// The calls of TwoLevelCache taken apart: every locked section and every clock read is
// one step of one goroutine, in any interleaving.
module CacheSteps {
  import opened Sequences
  import opened TwoLevelCache

  // A refill of the first level: when its value was found fresh in the second one, and
  // the clock read from which the first level counts its lifetime.
  datatype Refill = Refill(checked: int, at: int)

  // What a goroutine is about to do. Set carries its provisional entry between its two
  // writes; `seen` is the written state at the moment an entry was read.
  datatype Op<V> =
    | Idle
    | Get(key: string)
    | Checking1(key: string, item: Item<V>, seen: Option<Item<V>>, refill: Option<Refill>)
    | Evicting1(key: string)
    | Reading2(key: string)
    | Checking2(key: string, item: Item<V>, seen: Option<Item<V>>)
    | Evicting2(key: string)
    | Refilling(key: string, value: V, checked: int)
    | Storing(key: string, value: V, checked: int, at: int)
    | Set(key: string, value: V, ttl: int)
    | Stamped(key: string, value: V, ttl: int, expiresAt: Option<int>)
    | Written1(key: string, value: V, ttl: int, mine: Item<V>)
    | Stamped2(key: string, value: V, expiresAt: Option<int>, mine: Item<V>)
    | Delete(key: string)
    | Deleted1(key: string)
    | Clear
    | Cleared1

  // An answer, with the written state of its key when the deciding entry was read, the
  // last refill of that key, and the instant the answer was decided.
  datatype Reading<V> =
    Reading(key: string, answer: Lookup<V>, seen: Option<Item<V>>, refill: Option<Refill>, now: int)

  // `written` is what the calls mean: a Set, Delete or Clear takes effect with its write
  // to the first level, and a Set's lifetime counts from its second clock read.
  datatype State<V> = State(
    l1: Store<V>, l2: Store<V>, ops: seq<Op<V>>, written: Store<V>,
    refills: map<string, Refill>, readings: seq<Reading<V>>, now: int)

  datatype Label<V> =
    | Begin(w: nat, op: Op<V>)
    | Step(w: nat, now: int)
    | Cleanup1(now: int)
    | Cleanup2(now: int)

  function Init<V>(n: nat, start: int): State<V> {
    State(map[], map[], seq(n, _ => Idle), map[], map[], [], start)
  }

  function Slot<T>(m: map<string, T>, k: string): Option<T> {
    if k in m then Some(m[k]) else None
  }

  predicate Enabled<V>(s: State<V>, l: Label<V>) {
    match l
    case Begin(w, op) => w < |s.ops| && s.ops[w].Idle? && (op.Get? || op.Set? || op.Delete? || op.Clear?)
    case Step(w, now) => w < |s.ops| && !s.ops[w].Idle? && s.now <= now
    case Cleanup1(now) => s.now <= now
    case Cleanup2(now) => s.now <= now
  }

  // One section of a goroutine: what it is about to do afterwards,
  function Following<V>(l1TTL: int, s: State<V>, op: Op<V>, now: int): Op<V> {
    match op
    case Idle => Idle
    case Get(k) =>
      if k in s.l1 then Checking1(k, s.l1[k], Slot(s.written, k), Slot(s.refills, k)) else Reading2(k)
    case Checking1(k, item, _, _) => if Expired(item, now) then Evicting1(k) else Idle
    case Evicting1(k) => Reading2(k)
    case Reading2(k) => if k in s.l2 then Checking2(k, s.l2[k], Slot(s.written, k)) else Idle
    case Checking2(k, item, _) => if Expired(item, now) then Evicting2(k) else Refilling(k, item.value, now)
    case Evicting2(_) => Idle
    case Refilling(k, v, checked) => Storing(k, v, checked, now)
    case Storing(_, _, _, _) => Idle
    case Set(k, v, ttl) => Stamped(k, v, ttl, Expiry(now, L1TTLFor(l1TTL, ttl)))
    case Stamped(k, v, ttl, _) => Written1(k, v, ttl, Item(v, Expiry(now, ttl)))
    case Written1(k, v, ttl, mine) => Stamped2(k, v, Expiry(now, ttl), mine)
    case Stamped2(_, _, _, _) => Idle
    case Delete(k) => Deleted1(k)
    case Deleted1(_) => Idle
    case Clear => Cleared1
    case Cleared1 => Idle
  }

  // what it answers, if it decides a Get,
  function Answered<V>(s: State<V>, op: Op<V>, now: int): seq<Reading<V>> {
    match op
    case Checking1(k, item, seen, refill) =>
      if Expired(item, now) then [] else [Reading(k, Hit(item.value), seen, refill, now)]
    case Reading2(k) => if k in s.l2 then [] else [Reading(k, CacheMiss, Slot(s.written, k), None, now)]
    case Checking2(k, item, seen) =>
      [Reading(k, if Expired(item, now) then CacheExpired else Hit(item.value), seen, None, now)]
    case _ => []
  }

  // and what it stores.
  function Stored<V(==)>(l1TTL: int, s: State<V>, op: Op<V>, now: int): State<V> {
    match op
    case Evicting1(k) => s.(l1 := s.l1 - {k})
    case Evicting2(k) => s.(l2 := s.l2 - {k})
    case Storing(k, v, checked, at) =>
      s.(l1 := s.l1[k := Item(v, Expiry(at, l1TTL))], refills := s.refills[k := Refill(checked, at)])
    case Stamped(k, v, ttl, e) => s.(l1 := s.l1[k := Item(v, e)], written := s.written[k := Item(v, Expiry(now, ttl))])
    case Stamped2(k, v, e, mine) =>
      s.(l2 := s.l2[k := Item(v, e)],
         written := if Slot(s.written, k) == Some(mine) then s.written[k := Item(v, e)] else s.written)
    case Delete(k) => s.(l1 := s.l1 - {k}, written := s.written - {k})
    case Deleted1(k) => s.(l2 := s.l2 - {k})
    case Clear => s.(l1 := map[], written := map[])
    case Cleared1 => s.(l2 := map[])
    case _ => s
  }

  function Section<V(==)>(l1TTL: int, s: State<V>, w: nat, now: int): State<V>
    requires w < |s.ops|
  {
    var op := s.ops[w];
    Stored(l1TTL, s, op, now).(ops := s.ops[w := Following(l1TTL, s, op, now)],
                               readings := s.readings + Answered(s, op, now), now := now)
  }

  function Next<V(==)>(l1TTL: int, s: State<V>, l: Label<V>): State<V>
    requires Enabled(s, l)
  {
    match l
    case Begin(w, op) => s.(ops := s.ops[w := op])
    case Step(w, now) => Section(l1TTL, s, w, now)
    case Cleanup1(now) => s.(l1 := AfterCleanup(s.l1, now), now := now)
    case Cleanup2(now) => s.(l2 := AfterCleanup(s.l2, now), now := now)
  }

  // ---------------------------------------------------------------- clashes

  // Between the first and the second write of a Set, Delete or Clear that covers k.
  predicate Half<V>(op: Op<V>, k: string) {
    match op
    case Written1(key, _, _, _) => key == k
    case Stamped2(key, _, _, _) => key == k
    case Deleted1(key) => key == k
    case Cleared1 => true
    case _ => false
  }

  // Between a Get's look into the second level and what it does about it.
  predicate Holding<V>(op: Op<V>, k: string) {
    match op
    case Checking2(key, _, _) => key == k
    case Evicting2(key) => key == k
    case Refilling(key, _, _) => key == k
    case Storing(key, _, _, _) => key == k
    case _ => false
  }

  predicate FirstWrite<V>(op: Op<V>, k: string) {
    match op
    case Stamped(key, _, _, _) => key == k
    case Delete(key) => key == k
    case Clear => true
    case _ => false
  }

  datatype Clash =
    | TornRead            // the second level is read between the two writes of an update
    | OverlappingWrites   // an update starts writing between the two writes of another
    | WriteWhileHeld      // an update starts writing while a Get holds what it read there

  predicate SomeHalf<V>(s: State<V>, k: string) {
    exists j :: 0 <= j < |s.ops| && Half(s.ops[j], k)
  }

  predicate SomeHolding<V>(s: State<V>, k: string) {
    exists j :: 0 <= j < |s.ops| && Holding(s.ops[j], k)
  }

  predicate Clashes<V>(s: State<V>, l: Label<V>, k: string, c: Clash)
    requires Enabled(s, l)
  {
    && l.Step?
    && match c
       case TornRead => s.ops[l.w].Reading2? && s.ops[l.w].key == k && SomeHalf(s, k)
       case OverlappingWrites => FirstWrite(s.ops[l.w], k) && SomeHalf(s, k)
       case WriteWhileHeld => FirstWrite(s.ops[l.w], k) && SomeHolding(s, k)
  }

  predicate Tolerated<V>(s: State<V>, l: Label<V>, k: string, kinds: set<Clash>)
    requires Enabled(s, l)
  {
    && (Clashes(s, l, k, TornRead) ==> TornRead in kinds)
    && (Clashes(s, l, k, OverlappingWrites) ==> OverlappingWrites in kinds)
    && (Clashes(s, l, k, WriteWhileHeld) ==> WriteWhileHeld in kinds)
  }

  // The run leads from s to t, and clashes on k only in the given ways.
  ghost predicate Leads<V>(l1TTL: int, kinds: set<Clash>, k: string, s: State<V>, run: seq<Label<V>>, t: State<V>)
    decreases |run|
  {
    if run == [] then s == t
    else Enabled(s, run[0]) && Tolerated(s, run[0], k, kinds)
         && Leads(l1TTL, kinds, k, Next(l1TTL, s, run[0]), run[1..], t)
  }

  // -------------------------------------------------------- what reads may answer

  // The written value while it is fresh; possibly still that value after it expired,
  // but only from a refill whose value was found fresh before, and no longer than one
  // first-level lifetime after the clock read of that refill; and otherwise nothing.
  ghost predicate Permitted<V>(l1TTL: int, r: Reading<V>) {
    && (r.seen.Some? && !Expired(r.seen.value, r.now) ==> r.answer == Hit(r.seen.value.value))
    && (r.answer.Hit? ==> r.seen.Some? && r.answer.value == r.seen.value.value
                          && (Expired(r.seen.value, r.now) ==> Lingers(l1TTL, r.seen.value, r.refill, r.now)))
  }

  predicate Lingers<V>(l1TTL: int, item: Item<V>, refill: Option<Refill>, now: int) {
    && item.expiresAt.Some? && refill.Some?
    && refill.value.checked <= item.expiresAt.value && refill.value.checked <= refill.value.at
    && now <= refill.value.at + l1TTL
  }

  // ------------------------------------------------------------- the invariant

  // x expires no later than y, or one first-level lifetime after a refill that read a
  // value fresh by y.
  predicate Within(l1TTL: int, x: Option<int>, y: Option<int>, refill: Option<Refill>) {
    y.Some? ==>
      x.Some? && (x.value <= y.value
                  || (refill.Some? && refill.value.checked <= y.value && refill.value.checked <= refill.value.at
                      && x.value == refill.value.at + l1TTL))
  }

  predicate Level1Ok<V(==)>(l1TTL: int, x: Option<Item<V>>, written: Option<Item<V>>, refill: Option<Refill>) {
    x.Some? ==>
      written.Some? && x.value.value == written.value.value
      && Within(l1TTL, x.value.expiresAt, written.value.expiresAt, refill)
  }

  predicate Level2Ok<V(==)>(x: Option<Item<V>>, written: Option<Item<V>>, now: int) {
    && (x.Some? ==> written == x)
    && (written.Some? && !Expired(written.value, now) ==> x == written)
  }

  // The value a Get holds is still the written one, and was fresh when checked.
  predicate Holds<V(==)>(written: Option<Item<V>>, value: V, checked: int) {
    && written.Some? && written.value.value == value
    && (written.value.expiresAt.Some? ==> checked <= written.value.expiresAt.value)
  }

  predicate Stamp(e: Option<int>, ttl: int, now: int) {
    if ttl <= 0 then e == None else e.Some? && e.value <= now + ttl
  }

  predicate OpOk<V(==)>(l1TTL: int, op: Op<V>, k: string, written: Option<Item<V>>, now: int) {
    match op
    case Checking1(key, item, seen, refill) =>
      key == k ==> seen.Some? && seen.value.value == item.value
                   && Within(l1TTL, item.expiresAt, seen.value.expiresAt, refill)
    case Checking2(key, item, seen) => key == k ==> seen == Some(item) && written == Some(item)
    case Evicting2(key) => key == k ==> written.Some? && Expired(written.value, now)
    case Refilling(key, v, checked) => key == k ==> Holds(written, v, checked) && checked <= now
    case Storing(key, v, checked, at) => key == k ==> Holds(written, v, checked) && checked <= at
    case Stamped(key, v, ttl, e) => key == k ==> Stamp(e, ttl, now)
    case Written1(key, v, ttl, mine) =>
      key == k ==> written == Some(mine) && mine.value == v && Stamp(mine.expiresAt, ttl, now)
    case Stamped2(key, v, e, mine) =>
      key == k ==> written == Some(mine) && mine.value == v && (e.Some? <==> mine.expiresAt.Some?)
                   && (e.Some? ==> mine.expiresAt.value <= e.value)
    case Deleted1(key) => key == k ==> written == None
    case Cleared1 => written == None
    case _ => true
  }

  ghost predicate OpsOk<V>(l1TTL: int, s: State<V>, k: string) {
    forall j :: 0 <= j < |s.ops| ==> OpOk(l1TTL, s.ops[j], k, Slot(s.written, k), s.now)
  }

  // At most one update of k is half done, and then no Get of k holds anything.
  ghost predicate Quiet<V>(ops: seq<Op<V>>, k: string) {
    forall i, j :: 0 <= i < |ops| && 0 <= j < |ops| && i != j && Half(ops[i], k) ==>
      !Half(ops[j], k) && !Holding(ops[j], k)
  }

  ghost predicate AllPermitted<V>(l1TTL: int, s: State<V>, k: string) {
    forall i :: 0 <= i < |s.readings| && s.readings[i].key == k ==> Permitted(l1TTL, s.readings[i])
  }

  ghost predicate Inv<V>(l1TTL: int, s: State<V>, k: string) {
    && Level1Ok(l1TTL, Slot(s.l1, k), Slot(s.written, k), Slot(s.refills, k))
    && (!SomeHalf(s, k) ==> Level2Ok(Slot(s.l2, k), Slot(s.written, k), s.now))
    && OpsOk(l1TTL, s, k)
    && Quiet(s.ops, k)
    && AllPermitted(l1TTL, s, k)
  }

  // No other goroutine is in the middle of something on k.
  ghost predicate Alone<V>(s: State<V>, w: nat, k: string) {
    forall j :: 0 <= j < |s.ops| && j != w ==> !Half(s.ops[j], k) && !Holding(s.ops[j], k)
  }

  ghost predicate NoOtherHalf<V>(s: State<V>, w: nat, k: string) {
    forall j :: 0 <= j < |s.ops| && j != w ==> !Half(s.ops[j], k)
  }

  // Goroutines that are not in the middle of something do not depend on what is written,
  // and none minds the time.
  lemma OpStaysOk<V>(l1TTL: int, op: Op<V>, k: string, a: Option<Item<V>>, b: Option<Item<V>>, now: int, later: int)
    requires OpOk(l1TTL, op, k, a, now) && now <= later
    requires a == b || (!Half(op, k) && !Holding(op, k))
    ensures OpOk(l1TTL, op, k, b, later)
  {
  }

  // What a step of goroutine w has to establish.
  lemma StepKeeps<V>(l1TTL: int, s: State<V>, t: State<V>, w: nat, k: string)
    requires OpsOk(l1TTL, s, k) && Quiet(s.ops, k) && w < |s.ops| == |t.ops| && s.now <= t.now
    requires t.ops == s.ops[w := t.ops[w]]
    requires Slot(t.written, k) == Slot(s.written, k) || Alone(s, w, k)
    requires OpOk(l1TTL, t.ops[w], k, Slot(t.written, k), t.now)
    requires Half(t.ops[w], k) ==> Half(s.ops[w], k) || Alone(s, w, k)
    requires Holding(t.ops[w], k) ==> Holding(s.ops[w], k) || NoOtherHalf(s, w, k)
    ensures OpsOk(l1TTL, t, k) && Quiet(t.ops, k)
  {
    forall j | 0 <= j < |t.ops|
      ensures OpOk(l1TTL, t.ops[j], k, Slot(t.written, k), t.now)
    {
      if j != w {
        OpStaysOk(l1TTL, s.ops[j], k, Slot(s.written, k), Slot(t.written, k), s.now, t.now);
      }
    }
  }

  lemma HalfSame<V>(s: State<V>, t: State<V>, w: nat, k: string)
    requires w < |s.ops| == |t.ops| && t.ops == s.ops[w := t.ops[w]] && Half(s.ops[w], k) == Half(t.ops[w], k)
    ensures SomeHalf(s, k) == SomeHalf(t, k)
  {
    forall j | 0 <= j < |s.ops|
      ensures Half(s.ops[j], k) == Half(t.ops[j], k)
    {
    }
  }

  ghost predicate SameSlots<V>(s: State<V>, t: State<V>, k: string) {
    && Slot(t.l1, k) == Slot(s.l1, k) && Slot(t.l2, k) == Slot(s.l2, k)
    && Slot(t.written, k) == Slot(s.written, k) && Slot(t.refills, k) == Slot(s.refills, k)
  }

  // Steps that leave everything stored for k as it is.
  lemma PlainKeeps<V>(l1TTL: int, s: State<V>, t: State<V>, w: nat, k: string)
    requires Inv(l1TTL, s, k) && w < |s.ops| == |t.ops| && s.now <= t.now && SameSlots(s, t, k)
    requires t.ops == s.ops[w := t.ops[w]] && Half(s.ops[w], k) == Half(t.ops[w], k)
    requires OpOk(l1TTL, t.ops[w], k, Slot(t.written, k), t.now)
    requires Holding(t.ops[w], k) ==> Holding(s.ops[w], k) || NoOtherHalf(s, w, k)
    requires AllPermitted(l1TTL, t, k)
    ensures Inv(l1TTL, t, k)
  {
    StepKeeps(l1TTL, s, t, w, k);
    HalfSame(s, t, w, k);
  }

  // ------------------------------------------------ the steps of a Get of k

  lemma ReadingAdded<V>(l1TTL: int, s: State<V>, t: State<V>, k: string, r: Reading<V>)
    requires AllPermitted(l1TTL, s, k) && t.readings == s.readings + [r] && (r.key == k ==> Permitted(l1TTL, r))
    ensures AllPermitted(l1TTL, t, k)
  {
  }

  // The step touches k, or anything at all for Clear.
  predicate On<V>(op: Op<V>, k: string) {
    op.Clear? || op.Cleared1? || (!op.Idle? && op.key == k)
  }

  lemma LookKeeps<V>(l1TTL: int, s: State<V>, w: nat, now: int, k: string)
    requires l1TTL > 0 && Inv(l1TTL, s, k) && Enabled(s, Step(w, now)) && s.ops[w] == Get(k)
    ensures Inv(l1TTL, Section(l1TTL, s, w, now), k)
  {
    PlainKeeps(l1TTL, s, Section(l1TTL, s, w, now), w, k);
  }

  lemma Check1Keeps<V>(l1TTL: int, s: State<V>, w: nat, now: int, k: string)
    requires l1TTL > 0 && Inv(l1TTL, s, k) && Enabled(s, Step(w, now)) && s.ops[w].Checking1? && s.ops[w].key == k
    ensures Inv(l1TTL, Section(l1TTL, s, w, now), k)
  {
    var t, op := Section(l1TTL, s, w, now), s.ops[w];
    assert OpOk(l1TTL, op, k, Slot(s.written, k), s.now);
    if !Expired(op.item, now) {
      ReadingAdded(l1TTL, s, t, k, Reading(k, Hit(op.item.value), op.seen, op.refill, now));
    }
    PlainKeeps(l1TTL, s, t, w, k);
  }

  lemma Evict1Keeps<V>(l1TTL: int, s: State<V>, w: nat, now: int, k: string)
    requires Inv(l1TTL, s, k) && Enabled(s, Step(w, now)) && s.ops[w] == Evicting1(k)
    ensures Inv(l1TTL, Section(l1TTL, s, w, now), k)
  {
    var t := Section(l1TTL, s, w, now);
    StepKeeps(l1TTL, s, t, w, k);
    HalfSame(s, t, w, k);
  }

  lemma Read2Keeps<V>(l1TTL: int, s: State<V>, w: nat, now: int, k: string)
    requires Inv(l1TTL, s, k) && Enabled(s, Step(w, now)) && s.ops[w] == Reading2(k) && !SomeHalf(s, k)
    ensures Inv(l1TTL, Section(l1TTL, s, w, now), k)
  {
    var t := Section(l1TTL, s, w, now);
    if k !in s.l2 {
      ReadingAdded(l1TTL, s, t, k, Reading(k, CacheMiss, Slot(s.written, k), None, now));
    }
    PlainKeeps(l1TTL, s, t, w, k);
  }

  lemma Check2Keeps<V>(l1TTL: int, s: State<V>, w: nat, now: int, k: string)
    requires Inv(l1TTL, s, k) && Enabled(s, Step(w, now)) && s.ops[w].Checking2? && s.ops[w].key == k
    ensures Inv(l1TTL, Section(l1TTL, s, w, now), k)
  {
    var t, op := Section(l1TTL, s, w, now), s.ops[w];
    assert OpOk(l1TTL, op, k, Slot(s.written, k), s.now);
    ReadingAdded(l1TTL, s, t, k, t.readings[|s.readings|]);
    PlainKeeps(l1TTL, s, t, w, k);
  }

  lemma Evict2Keeps<V>(l1TTL: int, s: State<V>, w: nat, now: int, k: string)
    requires Inv(l1TTL, s, k) && Enabled(s, Step(w, now)) && s.ops[w] == Evicting2(k)
    ensures Inv(l1TTL, Section(l1TTL, s, w, now), k)
  {
    var t := Section(l1TTL, s, w, now);
    assert OpOk(l1TTL, s.ops[w], k, Slot(s.written, k), s.now);
    StepKeeps(l1TTL, s, t, w, k);
    HalfSame(s, t, w, k);
  }

  lemma RefillKeeps<V>(l1TTL: int, s: State<V>, w: nat, now: int, k: string)
    requires Inv(l1TTL, s, k) && Enabled(s, Step(w, now)) && s.ops[w].Refilling? && s.ops[w].key == k
    ensures Inv(l1TTL, Section(l1TTL, s, w, now), k)
  {
    assert OpOk(l1TTL, s.ops[w], k, Slot(s.written, k), s.now);
    PlainKeeps(l1TTL, s, Section(l1TTL, s, w, now), w, k);
  }

  lemma StoreKeeps<V>(l1TTL: int, s: State<V>, w: nat, now: int, k: string)
    requires l1TTL > 0 && Inv(l1TTL, s, k) && Enabled(s, Step(w, now)) && s.ops[w].Storing? && s.ops[w].key == k
    ensures Inv(l1TTL, Section(l1TTL, s, w, now), k)
  {
    var t := Section(l1TTL, s, w, now);
    assert OpOk(l1TTL, s.ops[w], k, Slot(s.written, k), s.now);
    StepKeeps(l1TTL, s, t, w, k);
    HalfSame(s, t, w, k);
  }

  // ------------------------------------------- the steps of an update of k

  lemma StampKeeps<V>(l1TTL: int, s: State<V>, w: nat, now: int, k: string)
    requires l1TTL > 0 && Inv(l1TTL, s, k) && Enabled(s, Step(w, now)) && s.ops[w].Set? && s.ops[w].key == k
    ensures Inv(l1TTL, Section(l1TTL, s, w, now), k)
  {
    PlainKeeps(l1TTL, s, Section(l1TTL, s, w, now), w, k);
  }

  // The first write makes the goroutine half done, so the second level may differ.
  lemma FirstWriteKeeps<V>(l1TTL: int, s: State<V>, w: nat, now: int, k: string)
    requires l1TTL > 0 && Inv(l1TTL, s, k) && Enabled(s, Step(w, now)) && FirstWrite(s.ops[w], k)
    requires !SomeHalf(s, k) && !SomeHolding(s, k)
    ensures Inv(l1TTL, Section(l1TTL, s, w, now), k)
  {
    var t := Section(l1TTL, s, w, now);
    assert OpOk(l1TTL, s.ops[w], k, Slot(s.written, k), s.now);
    assert Alone(s, w, k);
    StepKeeps(l1TTL, s, t, w, k);
    assert Half(t.ops[w], k);
  }

  lemma Stamp2Keeps<V>(l1TTL: int, s: State<V>, w: nat, now: int, k: string)
    requires Inv(l1TTL, s, k) && Enabled(s, Step(w, now)) && s.ops[w].Written1? && s.ops[w].key == k
    ensures Inv(l1TTL, Section(l1TTL, s, w, now), k)
  {
    assert OpOk(l1TTL, s.ops[w], k, Slot(s.written, k), s.now);
    PlainKeeps(l1TTL, s, Section(l1TTL, s, w, now), w, k);
  }

  // The second write makes the levels agree again.
  lemma SecondWriteKeeps<V>(l1TTL: int, s: State<V>, w: nat, now: int, k: string)
    requires Inv(l1TTL, s, k) && Enabled(s, Step(w, now)) && Half(s.ops[w], k) && !s.ops[w].Written1?
    ensures Inv(l1TTL, Section(l1TTL, s, w, now), k)
  {
    var t := Section(l1TTL, s, w, now);
    assert OpOk(l1TTL, s.ops[w], k, Slot(s.written, k), s.now);
    assert Alone(s, w, k);
    StepKeeps(l1TTL, s, t, w, k);
  }

  // ------------------------------------------------------- the other steps

  lemma StoredElsewhere<V>(l1TTL: int, s: State<V>, op: Op<V>, now: int, k: string)
    requires !On(op, k)
    ensures SameSlots(s, Stored(l1TTL, s, op, now), k)
  {
  }

  lemma FollowingElsewhere<V>(l1TTL: int, s: State<V>, op: Op<V>, now: int, k: string)
    requires !On(op, k)
    ensures !On(Following(l1TTL, s, op, now), k)
  {
  }

  lemma ElsewhereKeeps<V>(l1TTL: int, s: State<V>, t: State<V>, w: nat, k: string, more: seq<Reading<V>>)
    requires Inv(l1TTL, s, k) && w < |s.ops| == |t.ops| && !On(s.ops[w], k) && s.now <= t.now
    requires SameSlots(s, t, k) && t.ops == s.ops[w := t.ops[w]] && !On(t.ops[w], k)
    requires t.readings == s.readings + more && forall r :: r in more ==> r.key != k
    ensures Inv(l1TTL, t, k)
  {
    PlainKeeps(l1TTL, s, t, w, k);
  }

  lemma CleanupKeeps<V>(l1TTL: int, s: State<V>, l: Label<V>, k: string)
    requires Inv(l1TTL, s, k) && Enabled(s, l) && (l.Cleanup1? || l.Cleanup2?)
    ensures Inv(l1TTL, Next(l1TTL, s, l), k)
  {
    var t := Next(l1TTL, s, l);
    forall j | 0 <= j < |t.ops|
      ensures OpOk(l1TTL, t.ops[j], k, Slot(t.written, k), t.now)
    {
      OpStaysOk(l1TTL, s.ops[j], k, Slot(s.written, k), Slot(t.written, k), s.now, t.now);
    }
  }

  lemma BeginKeeps<V>(l1TTL: int, s: State<V>, l: Label<V>, k: string)
    requires Inv(l1TTL, s, k) && Enabled(s, l) && l.Begin?
    ensures Inv(l1TTL, Next(l1TTL, s, l), k)
  {
    PlainKeeps(l1TTL, s, Next(l1TTL, s, l), l.w, k);
  }

  lemma SectionKeeps<V>(l1TTL: int, s: State<V>, w: nat, now: int, k: string)
    requires l1TTL > 0 && Inv(l1TTL, s, k) && Enabled(s, Step(w, now)) && Tolerated(s, Step(w, now), k, {})
    ensures Inv(l1TTL, Section(l1TTL, s, w, now), k)
  {
    var op := s.ops[w];
    if !On(op, k) {
      StoredElsewhere(l1TTL, s, op, now, k);
      FollowingElsewhere(l1TTL, s, op, now, k);
      ElsewhereKeeps(l1TTL, s, Section(l1TTL, s, w, now), w, k, Answered(s, op, now));
    } else if FirstWrite(op, k) {
      assert !Clashes(s, Step(w, now), k, OverlappingWrites) && !Clashes(s, Step(w, now), k, WriteWhileHeld);
      FirstWriteKeeps(l1TTL, s, w, now, k);
    } else if op.Written1? {
      Stamp2Keeps(l1TTL, s, w, now, k);
    } else if Half(op, k) {
      SecondWriteKeeps(l1TTL, s, w, now, k);
    } else if op.Set? {
      StampKeeps(l1TTL, s, w, now, k);
    } else {
      GetSectionKeeps(l1TTL, s, w, now, k);
    }
  }

  lemma GetSectionKeeps<V>(l1TTL: int, s: State<V>, w: nat, now: int, k: string)
    requires l1TTL > 0 && Inv(l1TTL, s, k) && Enabled(s, Step(w, now)) && Tolerated(s, Step(w, now), k, {})
    requires var op := s.ops[w];
             On(op, k) && !FirstWrite(op, k) && !Half(op, k) && !op.Set?
    ensures Inv(l1TTL, Section(l1TTL, s, w, now), k)
  {
    var op := s.ops[w];
    if op.Get? {
      LookKeeps(l1TTL, s, w, now, k);
    } else if op.Checking1? {
      Check1Keeps(l1TTL, s, w, now, k);
    } else if op.Evicting1? {
      Evict1Keeps(l1TTL, s, w, now, k);
    } else if op.Reading2? {
      assert !Clashes(s, Step(w, now), k, TornRead);
      Read2Keeps(l1TTL, s, w, now, k);
    } else if op.Checking2? {
      Check2Keeps(l1TTL, s, w, now, k);
    } else if op.Evicting2? {
      Evict2Keeps(l1TTL, s, w, now, k);
    } else if op.Refilling? {
      RefillKeeps(l1TTL, s, w, now, k);
    } else {
      StoreKeeps(l1TTL, s, w, now, k);
    }
  }

  lemma NextKeeps<V>(l1TTL: int, s: State<V>, l: Label<V>, k: string)
    requires l1TTL > 0 && Inv(l1TTL, s, k) && Enabled(s, l) && Tolerated(s, l, k, {})
    ensures Inv(l1TTL, Next(l1TTL, s, l), k)
  {
    match l
    case Begin(_, _) => BeginKeeps(l1TTL, s, l, k);
    case Step(w, now) => SectionKeeps(l1TTL, s, w, now, k);
    case Cleanup1(_) => CleanupKeeps(l1TTL, s, l, k);
    case Cleanup2(_) => CleanupKeeps(l1TTL, s, l, k);
  }

  lemma {:induction false} RunKeeps<V>(l1TTL: int, k: string, s: State<V>, run: seq<Label<V>>, t: State<V>)
    requires l1TTL > 0 && Inv(l1TTL, s, k) && Leads(l1TTL, {}, k, s, run, t)
    ensures Inv(l1TTL, t, k)
    decreases |run|
  {
    if run != [] {
      NextKeeps(l1TTL, s, run[0], k);
      RunKeeps(l1TTL, k, Next(l1TTL, s, run[0]), run[1..], t);
    }
  }

  // In every interleaving without a clash on k, every read of k is permitted.
  lemma ReadsPermitted<V>(l1TTL: int, k: string, n: nat, start: int, run: seq<Label<V>>, t: State<V>)
    requires l1TTL > 0 && Leads(l1TTL, {}, k, Init(n, start), run, t)
    ensures AllPermitted(l1TTL, t, k)
  {
    RunKeeps(l1TTL, k, Init(n, start), run, t);
  }

  // ------------------------------------------------- calls that nobody interrupts

  datatype Trace<V> = Trace(start: State<V>, run: seq<Label<V>>, end: State<V>)

  ghost predicate Valid<V>(l1TTL: int, kinds: set<Clash>, k: string, tr: Trace<V>) {
    Leads(l1TTL, kinds, k, tr.start, tr.run, tr.end)
  }

  lemma {:induction false} LeadsOn<V>(l1TTL: int, kinds: set<Clash>, k: string, s: State<V>, run: seq<Label<V>>,
                                      t: State<V>, l: Label<V>)
    requires Leads(l1TTL, kinds, k, s, run, t) && Enabled(t, l) && Tolerated(t, l, k, kinds)
    ensures Leads(l1TTL, kinds, k, s, run + [l], Next(l1TTL, t, l))
    decreases |run|
  {
    if run == [] {
      assert (run + [l])[1..] == [];
    } else {
      LeadsOn(l1TTL, kinds, k, Next(l1TTL, s, run[0]), run[1..], t, l);
      assert (run + [l])[1..] == run[1..] + [l];
    }
  }

  lemma Do<V>(l1TTL: int, kinds: set<Clash>, k: string, tr: Trace<V>, l: Label<V>) returns (more: Trace<V>)
    requires Valid(l1TTL, kinds, k, tr) && Enabled(tr.end, l) && Tolerated(tr.end, l, k, kinds)
    ensures Valid(l1TTL, kinds, k, more)
    ensures more == Trace(tr.start, tr.run + [l], Next(l1TTL, tr.end, l))
  {
    LeadsOn(l1TTL, kinds, k, tr.start, tr.run, tr.end, l);
    more := Trace(tr.start, tr.run + [l], Next(l1TTL, tr.end, l));
  }

  // The other goroutines are in the middle of nothing that a read, or an update, of k
  // would clash with.
  ghost predicate ReadFree<V>(s: State<V>, k: string, kinds: set<Clash>) {
    SomeHalf(s, k) ==> TornRead in kinds
  }

  ghost predicate WriteFree<V>(s: State<V>, k: string, kinds: set<Clash>) {
    (SomeHalf(s, k) ==> OverlappingWrites in kinds) && (SomeHolding(s, k) ==> WriteWhileHeld in kinds)
  }

  lemma IdleFree<V>(s: State<V>, t: State<V>, w: nat, k: string)
    requires w < |s.ops| == |t.ops| && t.ops == s.ops[w := t.ops[w]] && s.ops[w].Idle?
    requires !Half(t.ops[w], k) && !Holding(t.ops[w], k)
    ensures SomeHalf(s, k) == SomeHalf(t, k) && SomeHolding(s, k) == SomeHolding(t, k)
  {
    HalfSame(s, t, w, k);
    forall j | 0 <= j < |s.ops|
      ensures Holding(s.ops[j], k) == Holding(t.ops[j], k)
    {
    }
  }

  // The entries a whole Set leaves.
  function AfterSetCall<V>(l1TTL: int, s: State<V>, k: string, v: V, ttl: int, at1: int, at2: int): State<V> {
    s.(l1 := AfterSet(s.l1, k, v, L1TTLFor(l1TTL, ttl), at1), l2 := AfterSet(s.l2, k, v, ttl, at2),
       written := AfterSet(s.written, k, v, ttl, at2), now := at2)
  }

  // The first half of a Set, up to its write to the first level.
  lemma SetFirst<V>(l1TTL: int, kinds: set<Clash>, k: string, tr: Trace<V>, w: nat, v: V, ttl: int, at: int)
    returns (more: Trace<V>)
    requires Valid(l1TTL, kinds, k, tr) && w < |tr.end.ops| && tr.end.ops[w].Idle? && tr.end.now <= at
    requires WriteFree(tr.end, k, kinds)
    ensures Valid(l1TTL, kinds, k, more) && more.start == tr.start
    ensures var s, mine := tr.end, Item(v, Expiry(at, ttl));
            more.end == s.(l1 := AfterSet(s.l1, k, v, L1TTLFor(l1TTL, ttl), at), written := s.written[k := mine],
                           ops := s.ops[w := Written1(k, v, ttl, mine)], now := at)
  {
    var s := tr.end;
    var a := Do(l1TTL, kinds, k, tr, Begin(w, Set(k, v, ttl)));
    var b := Do(l1TTL, kinds, k, a, Step(w, at));
    assert b.end.ops == s.ops[w := b.end.ops[w]] && b.end.readings == s.readings;
    IdleFree(s, b.end, w, k);
    more := Do(l1TTL, kinds, k, b, Step(w, at));
    assert more.end.ops == s.ops[w := more.end.ops[w]] && more.end.readings == s.readings;
  }

  // The second half, when the written entry is still its own.
  lemma SetSecond<V>(l1TTL: int, kinds: set<Clash>, k: string, tr: Trace<V>, w: nat, at: int)
      returns (more: Trace<V>)
    requires Valid(l1TTL, kinds, k, tr) && w < |tr.end.ops| && tr.end.ops[w].Written1? && tr.end.ops[w].key == k
    requires tr.end.now <= at
    ensures Valid(l1TTL, kinds, k, more) && more.start == tr.start
    ensures var s, op := tr.end, tr.end.ops[w];
            var item := Item(op.value, Expiry(at, op.ttl));
            more.end == s.(l2 := s.l2[k := item],
                           written := if Slot(s.written, k) == Some(op.mine) then s.written[k := item] else s.written,
                           ops := s.ops[w := Idle], now := at)
  {
    var s := tr.end;
    var a := Do(l1TTL, kinds, k, tr, Step(w, at));
    assert a.end.ops == s.ops[w := a.end.ops[w]] && a.end.readings == s.readings;
    more := Do(l1TTL, kinds, k, a, Step(w, at));
    assert more.end.ops == s.ops[w := Idle] && more.end.readings == s.readings;
  }

  // A Set that nobody interrupts is the Set of TwoLevelCache.
  lemma SetCall<V>(l1TTL: int, kinds: set<Clash>, k: string, tr: Trace<V>, w: nat, v: V, ttl: int, at1: int, at2: int)
    returns (more: Trace<V>)
    requires Valid(l1TTL, kinds, k, tr) && w < |tr.end.ops| && tr.end.ops[w].Idle? && tr.end.now <= at1 <= at2
    requires WriteFree(tr.end, k, kinds)
    ensures Valid(l1TTL, kinds, k, more) && more.start == tr.start
    ensures more.end == AfterSetCall(l1TTL, tr.end, k, v, ttl, at1, at2)
    ensures Levels(more.end.l1, more.end.l2) == AfterWrite(Levels(tr.end.l1, tr.end.l2), l1TTL, k, v, ttl, at1, at2)
  {
    var s := tr.end;
    var a := SetFirst(l1TTL, kinds, k, tr, w, v, ttl, at1);
    more := SetSecond(l1TTL, kinds, k, a, w, at2);
    assert more.end.ops == s.ops;
    assert more.end.written == AfterSet(s.written, k, v, ttl, at2);
  }

  lemma DeleteCall<V>(l1TTL: int, kinds: set<Clash>, k: string, tr: Trace<V>, w: nat, at: int)
      returns (more: Trace<V>)
    requires Valid(l1TTL, kinds, k, tr) && w < |tr.end.ops| && tr.end.ops[w].Idle? && tr.end.now <= at
    requires WriteFree(tr.end, k, kinds)
    ensures Valid(l1TTL, kinds, k, more) && more.start == tr.start
    ensures var s := tr.end;
            more.end == s.(l1 := s.l1 - {k}, l2 := s.l2 - {k}, written := s.written - {k}, now := at)
  {
    var s := tr.end;
    var a := DeleteFirst(l1TTL, kinds, k, tr, w, at);
    more := DeleteSecond(l1TTL, kinds, k, a, w, at);
    assert more.end.ops == s.ops;
  }

  lemma DeleteSecond<V>(l1TTL: int, kinds: set<Clash>, k: string, tr: Trace<V>, w: nat, at: int)
      returns (more: Trace<V>)
    requires Valid(l1TTL, kinds, k, tr) && w < |tr.end.ops| && tr.end.ops[w] == Deleted1(k) && tr.end.now <= at
    ensures Valid(l1TTL, kinds, k, more) && more.start == tr.start
    ensures more.end == tr.end.(l2 := tr.end.l2 - {k}, ops := tr.end.ops[w := Idle], now := at)
  {
    more := Do(l1TTL, kinds, k, tr, Step(w, at));
    assert more.end.readings == tr.end.readings;
  }

  lemma DeleteFirst<V>(l1TTL: int, kinds: set<Clash>, k: string, tr: Trace<V>, w: nat, at: int)
      returns (more: Trace<V>)
    requires Valid(l1TTL, kinds, k, tr) && w < |tr.end.ops| && tr.end.ops[w].Idle? && tr.end.now <= at
    requires WriteFree(tr.end, k, kinds)
    ensures Valid(l1TTL, kinds, k, more) && more.start == tr.start
    ensures var s := tr.end;
            more.end == s.(l1 := s.l1 - {k}, written := s.written - {k}, ops := s.ops[w := Deleted1(k)], now := at)
  {
    var s := tr.end;
    var a := Do(l1TTL, kinds, k, tr, Begin(w, Delete(k)));
    IdleFree(s, a.end, w, k);
    more := Do(l1TTL, kinds, k, a, Step(w, at));
    assert more.end.ops == s.ops[w := Deleted1(k)] && more.end.readings == s.readings;
  }

  // Nobody begins anything but Gets.
  ghost predicate GetsOnly<V>(run: seq<Label<V>>) {
    forall i :: 0 <= i < |run| && run[i].Begin? ==> run[i].op.Get?
  }

  // A Get as far as the first level decides: answered, or about to read the second.
  lemma GetFirst<V>(l1TTL: int, kinds: set<Clash>, k: string, tr: Trace<V>, w: nat, at: int)
      returns (more: Trace<V>)
    requires Valid(l1TTL, kinds, k, tr) && w < |tr.end.ops| && tr.end.ops[w].Idle? && tr.end.now <= at
    ensures Valid(l1TTL, kinds, k, more) && more.start == tr.start
    ensures GetsOnly(tr.run) ==> GetsOnly(more.run)
    ensures var s, answer := tr.end, Found(tr.end.l1, k, at);
            more.end ==
              if answer.Hit? then
                s.(readings := s.readings + [Reading(k, answer, Slot(s.written, k), Slot(s.refills, k), at)], now := at)
              else s.(l1 := AfterGet(s.l1, k, at), ops := s.ops[w := Reading2(k)], now := at)
  {
    var s := tr.end;
    var a := Do(l1TTL, kinds, k, tr, Begin(w, Get(k)));
    more := Do(l1TTL, kinds, k, a, Step(w, at));
    assert more.end.ops == s.ops[w := more.end.ops[w]] && more.end.readings == s.readings;
    if k in s.l1 {
      more := Do(l1TTL, kinds, k, more, Step(w, at));
      assert more.end.ops == s.ops[w := more.end.ops[w]];
      if Expired(s.l1[k], at) {
        assert more.end.readings == s.readings;
        more := Do(l1TTL, kinds, k, more, Step(w, at));
        assert more.end.ops == s.ops[w := Reading2(k)] && more.end.readings == s.readings;
      } else {
        assert more.end.ops == s.ops;
      }
    }
  }

  // What the goroutine does next when it has looked into the second level.
  function Then<V>(s: State<V>, k: string, at: int): Op<V> {
    match Found(s.l2, k, at)
    case CacheMiss => Idle
    case CacheExpired => Evicting2(k)
    case Hit(v) => Refilling(k, v, at)
  }

  // From there to the answer of the second level.
  lemma GetSecond<V>(l1TTL: int, kinds: set<Clash>, k: string, tr: Trace<V>, w: nat, at: int)
      returns (more: Trace<V>)
    requires Valid(l1TTL, kinds, k, tr) && w < |tr.end.ops| && tr.end.ops[w] == Reading2(k) && tr.end.now <= at
    requires ReadFree(tr.end, k, kinds)
    ensures Valid(l1TTL, kinds, k, more) && more.start == tr.start
    ensures GetsOnly(tr.run) ==> GetsOnly(more.run)
    ensures var s, answer := tr.end, Found(tr.end.l2, k, at);
            more.end == s.(readings := s.readings + [Reading(k, answer, Slot(s.written, k), None, at)],
                           ops := s.ops[w := Then(s, k, at)], now := at)
  {
    var s := tr.end;
    more := Do(l1TTL, kinds, k, tr, Step(w, at));
    assert more.end.ops == s.ops[w := more.end.ops[w]];
    if k in s.l2 {
      assert more.end.readings == s.readings;
      more := Do(l1TTL, kinds, k, more, Step(w, at));
      assert more.end.ops == s.ops[w := Then(s, k, at)];
    }
  }

  // And from there to the end.
  lemma GetThird<V>(l1TTL: int, kinds: set<Clash>, k: string, tr: Trace<V>, w: nat, at: int)
      returns (more: Trace<V>)
    requires Valid(l1TTL, kinds, k, tr) && w < |tr.end.ops| && tr.end.now <= at
    requires tr.end.ops[w] == Evicting2(k) || (tr.end.ops[w].Refilling? && tr.end.ops[w].key == k)
    ensures Valid(l1TTL, kinds, k, more) && more.start == tr.start
    ensures GetsOnly(tr.run) ==> GetsOnly(more.run)
    ensures var s, op := tr.end, tr.end.ops[w];
            more.end ==
              if op.Evicting2? then s.(l2 := s.l2 - {k}, ops := s.ops[w := Idle], now := at)
              else s.(l1 := AfterSet(s.l1, k, op.value, l1TTL, at), refills := s.refills[k := Refill(op.checked, at)],
                      ops := s.ops[w := Idle], now := at)
  {
    var s := tr.end;
    more := Do(l1TTL, kinds, k, tr, Step(w, at));
    assert more.end.ops == s.ops[w := more.end.ops[w]] && more.end.readings == s.readings;
    if s.ops[w].Refilling? {
      more := Do(l1TTL, kinds, k, more, Step(w, at));
      assert more.end.ops == s.ops[w := Idle] && more.end.readings == s.readings;
    }
  }

  // A Get that nobody interrupts is the Get of TwoLevelCache.
  lemma GetCall<V>(l1TTL: int, kinds: set<Clash>, k: string, tr: Trace<V>, w: nat, at1: int, at2: int, at3: int)
    returns (more: Trace<V>)
    requires Valid(l1TTL, kinds, k, tr) && w < |tr.end.ops| && tr.end.ops[w].Idle?
    requires tr.end.now <= at1 <= at2 <= at3 && ReadFree(tr.end, k, kinds)
    ensures Valid(l1TTL, kinds, k, more) && more.start == tr.start && more.end.ops == tr.end.ops
    ensures GetsOnly(tr.run) ==> GetsOnly(more.run)
    ensures var before, after := Levels(tr.end.l1, tr.end.l2), Levels(more.end.l1, more.end.l2);
            var hit := Found(tr.end.l1, k, at1).Hit?;
            && after == AfterRead(before, l1TTL, k, at1, at2, at3) && more.end.written == tr.end.written
            && more.end.readings == tr.end.readings
                 + [Reading(k, Answer(before, k, at1, at2), Slot(tr.end.written, k),
                            if hit then Slot(tr.end.refills, k) else None, if hit then at1 else at2)]
  {
    var s := tr.end;
    more := GetFirst(l1TTL, kinds, k, tr, w, at1);
    if !Found(s.l1, k, at1).Hit? {
      IdleFree(s, more.end, w, k);
      more := GetSecond(l1TTL, kinds, k, more, w, at2);
      if Found(s.l2, k, at2) == CacheMiss {
        assert more.end.ops == s.ops;
      } else {
        more := GetThird(l1TTL, kinds, k, more, w, at3);
        assert more.end.ops == s.ops;
      }
    }
  }

  // --------------------------------------------- what each clash can do to a read

  lemma Start<V>(l1TTL: int, kinds: set<Clash>, k: string) returns (tr: Trace<V>)
    ensures Valid(l1TTL, kinds, k, tr) && tr.start == tr.end == Init(2, 0)
    ensures !SomeHalf(tr.end, k) && !SomeHolding(tr.end, k)
  {
    tr := Trace(Init(2, 0), [], Init(2, 0));
  }

  ghost predicate AllIdle<V>(s: State<V>) {
    forall j :: 0 <= j < |s.ops| ==> s.ops[j].Idle?
  }

  // A run with clashes of the given kinds leads to a state in which no call is in
  // flight, and from there Gets that nobody interrupts end with a wrong answer.
  ghost predicate Misleads<V>(l1TTL: int, kinds: set<Clash>, k: string, quiet: Trace<V>, last: Trace<V>) {
    && Valid(l1TTL, kinds, k, quiet) && quiet.start == Init(2, 0) && AllIdle(quiet.end)
    && Valid(l1TTL, {}, k, last) && last.start == quiet.end && AllIdle(last.end) && GetsOnly(last.run)
    && |last.end.readings| > |quiet.end.readings|
    && var r := last.end.readings[|last.end.readings| - 1];
       r.key == k && !Permitted(l1TTL, r)
  }

  lemma Continue<V>(l1TTL: int, k: string, quiet: Trace<V>) returns (tr: Trace<V>)
    requires AllIdle(quiet.end)
    ensures Valid(l1TTL, {}, k, tr) && tr.start == tr.end == quiet.end && GetsOnly(tr.run)
    ensures !SomeHalf(tr.end, k)
  {
    tr := Trace(quiet.end, [], quiet.end);
  }

  // A Get reads the second level in the middle of a Delete and refills the first: the
  // deleted value is answered after the Delete.
  lemma TornReadBreaks<V>(l1TTL: int, k: string, v: V) returns (quiet: Trace<V>, last: Trace<V>)
    ensures Misleads(l1TTL, {TornRead}, k, quiet, last)
    ensures k !in quiet.end.written
    ensures last.end.readings == quiet.end.readings + [Reading(k, Hit(v), None, Some(Refill(0, 0)), 0)]
  {
    var kinds := {TornRead};
    quiet := Start(l1TTL, kinds, k);
    quiet := SetCall(l1TTL, kinds, k, quiet, 0, v, 0, 0, 0);
    quiet := DeleteFirst(l1TTL, kinds, k, quiet, 1, 0);
    quiet := GetFirst(l1TTL, kinds, k, quiet, 0, 0);
    quiet := GetSecond(l1TTL, kinds, k, quiet, 0, 0);
    quiet := GetThird(l1TTL, kinds, k, quiet, 0, 0);
    quiet := DeleteSecond(l1TTL, kinds, k, quiet, 1, 0);
    last := Continue(l1TTL, k, quiet);
    last := GetFirst(l1TTL, {}, k, last, 0, 0);
  }

  // A Set runs in the middle of a Delete: its value is in the first level only, so it is
  // answered and then, though fresh and not deleted since, missed.
  lemma OverlappingWritesBreak<V>(l1TTL: int, k: string, v: V) returns (quiet: Trace<V>, last: Trace<V>)
    requires l1TTL > 0
    ensures Misleads(l1TTL, {OverlappingWrites}, k, quiet, last)
    ensures var item := Item(v, Some(l1TTL + 5));
            && Slot(quiet.end.written, k) == Some(item)
            && last.end.readings == quiet.end.readings + [Reading(k, Hit(v), Some(item), None, 0),
                                                          Reading(k, CacheMiss, Some(item), None, l1TTL + 1)]
  {
    var kinds := {OverlappingWrites};
    quiet := Start(l1TTL, kinds, k);
    quiet := DeleteFirst(l1TTL, kinds, k, quiet, 1, 0);
    quiet := SetCall(l1TTL, kinds, k, quiet, 0, v, l1TTL + 5, 0, 0);
    quiet := DeleteSecond(l1TTL, kinds, k, quiet, 1, 0);
    last := Continue(l1TTL, k, quiet);
    last := GetFirst(l1TTL, {}, k, last, 0, 0);
    assert !SomeHalf(last.end, k);
    last := GetFirst(l1TTL, {}, k, last, 0, l1TTL + 1);
    assert !SomeHalf(last.end, k);
    last := GetSecond(l1TTL, {}, k, last, 0, l1TTL + 1);
  }

  // A Set runs in the middle of another: the levels disagree, and one value is answered
  // and then the other, with no update between.
  lemma TwoSetsDisagree<V>(l1TTL: int, k: string, v: V, w: V) returns (quiet: Trace<V>, last: Trace<V>)
    requires l1TTL > 0 && v != w
    ensures Misleads(l1TTL, {OverlappingWrites}, k, quiet, last)
    ensures |last.end.readings| == |quiet.end.readings| + 2
    ensures last.end.readings[|quiet.end.readings|].answer == Hit(w)
            && last.end.readings[|quiet.end.readings| + 1].answer == Hit(v)
  {
    var kinds, ttl, later := {OverlappingWrites}, l1TTL + 5, l1TTL + 1;
    quiet := Start(l1TTL, kinds, k);
    quiet := SetFirst(l1TTL, kinds, k, quiet, 0, v, ttl, 0);
    quiet := SetCall(l1TTL, kinds, k, quiet, 1, w, ttl, 0, 0);
    quiet := SetSecond(l1TTL, kinds, k, quiet, 0, 0);
    last := Continue(l1TTL, k, quiet);
    last := GetFirst(l1TTL, {}, k, last, 0, 0);
    assert !SomeHalf(last.end, k);
    last := GetCall(l1TTL, {}, k, last, 0, later, later, later);
  }

  // A Set while a Get is about to refill: the overwritten value comes back.
  lemma OverwrittenReturns<V>(l1TTL: int, k: string, v: V, newer: V) returns (quiet: Trace<V>, last: Trace<V>)
    requires l1TTL > 0 && v != newer
    ensures Misleads(l1TTL, {WriteWhileHeld}, k, quiet, last)
    ensures Slot(quiet.end.written, k) == Some(Item(newer, None))
            && |last.end.readings| == |quiet.end.readings| + 1
            && last.end.readings[|quiet.end.readings|].answer == Hit(v)
  {
    var kinds, now := {WriteWhileHeld}, l1TTL + 1;
    quiet := HeldForRefill(l1TTL, k, v);
    quiet := SetCall(l1TTL, kinds, k, quiet, 1, newer, 0, now, now);
    quiet := GetThird(l1TTL, kinds, k, quiet, 0, now);
    last := Continue(l1TTL, k, quiet);
    last := GetFirst(l1TTL, {}, k, last, 0, now);
  }

  // A Get that has read v, written to live for l1TTL + 2, from the second level.
  lemma HeldForRefill<V>(l1TTL: int, k: string, v: V) returns (tr: Trace<V>)
    requires l1TTL > 0
    ensures Valid(l1TTL, {WriteWhileHeld}, k, tr) && tr.start == Init(2, 0) && tr.end.now == l1TTL + 1
    ensures tr.end.ops == [Refilling(k, v, l1TTL + 1), Idle] && !SomeHalf(tr.end, k)
    ensures tr.end.written == map[k := Item(v, Some(l1TTL + 2))]
  {
    var kinds, now := {WriteWhileHeld}, l1TTL + 1;
    tr := Start(l1TTL, kinds, k);
    tr := SetCall(l1TTL, kinds, k, tr, 0, v, l1TTL + 2, 0, 0);
    tr := GetFirst(l1TTL, kinds, k, tr, 0, now);
    assert !SomeHalf(tr.end, k);
    tr := GetSecond(l1TTL, kinds, k, tr, 0, now);
  }

  // A Delete there: the deleted value comes back.
  lemma DeletedReturns<V>(l1TTL: int, k: string, v: V) returns (quiet: Trace<V>, last: Trace<V>)
    requires l1TTL > 0
    ensures Misleads(l1TTL, {WriteWhileHeld}, k, quiet, last)
    ensures k !in quiet.end.written && |last.end.readings| == |quiet.end.readings| + 1
            && last.end.readings[|quiet.end.readings|].answer == Hit(v)
  {
    var kinds, now := {WriteWhileHeld}, l1TTL + 1;
    quiet := HeldForRefill(l1TTL, k, v);
    quiet := DeleteCall(l1TTL, kinds, k, quiet, 1, now);
    quiet := GetThird(l1TTL, kinds, k, quiet, 0, now);
    last := Continue(l1TTL, k, quiet);
    last := GetFirst(l1TTL, {}, k, last, 0, now);
  }

  // A Get that has found the entry of v expired in the second level, at instant 2.
  lemma HeldForEviction<V>(l1TTL: int, k: string, v: V) returns (tr: Trace<V>)
    requires l1TTL > 0
    ensures Valid(l1TTL, {WriteWhileHeld}, k, tr) && tr.start == Init(2, 0) && tr.end.now == 2
    ensures tr.end.ops == [Evicting2(k), Idle] && !SomeHalf(tr.end, k)
  {
    var kinds := {WriteWhileHeld};
    tr := Start(l1TTL, kinds, k);
    tr := SetCall(l1TTL, kinds, k, tr, 0, v, 1, 0, 0);
    tr := GetFirst(l1TTL, kinds, k, tr, 0, 2);
    assert !SomeHalf(tr.end, k);
    tr := GetSecond(l1TTL, kinds, k, tr, 0, 2);
  }

  // A Set while a Get is about to remove the expired entry it found: the new entry is
  // removed instead, and the value is missed while it is fresh.
  lemma WriteIsLost<V>(l1TTL: int, k: string, v: V) returns (quiet: Trace<V>, last: Trace<V>)
    requires l1TTL > 0
    ensures Misleads(l1TTL, {WriteWhileHeld}, k, quiet, last)
    ensures var item := Item(v, Some(l1TTL + 7));
            && Slot(quiet.end.written, k) == Some(item)
            && last.end.readings == quiet.end.readings + [Reading(k, CacheMiss, Some(item), None, l1TTL + 3)]
  {
    var kinds, later := {WriteWhileHeld}, l1TTL + 3;
    quiet := HeldForEviction(l1TTL, k, v);
    quiet := SetCall(l1TTL, kinds, k, quiet, 1, v, l1TTL + 5, 2, 2);
    quiet := GetThird(l1TTL, kinds, k, quiet, 0, 2);
    last := Continue(l1TTL, k, quiet);
    last := GetFirst(l1TTL, {}, k, last, 0, later);
    assert !SomeHalf(last.end, k);
    last := GetSecond(l1TTL, {}, k, last, 0, later);
  }

  // Without a lifetime in the first level no clash is needed: its entries stay for ever.
  lemma StaleForever<V>(l1TTL: int, k: string, v: V) returns (quiet: Trace<V>, last: Trace<V>)
    requires l1TTL <= 0
    ensures Misleads(l1TTL, {}, k, quiet, last)
  {
    quiet := Start(l1TTL, {}, k);
    quiet := SetCall(l1TTL, {}, k, quiet, 0, v, 10, 0, 0);
    last := Continue(l1TTL, k, quiet);
    last := GetFirst(l1TTL, {}, k, last, 0, 11);
  }

  // The bound of Permitted is reached without any clash: a Get reads the second level
  // at the instant of expiry and refills `lag` later.
  lemma StalenessReached<V>(l1TTL: int, ttl: int, lag: int, k: string, v: V) returns (tr: Trace<V>)
    requires 0 < l1TTL < ttl && lag >= 0
    ensures Valid(l1TTL, {}, k, tr) && tr.start == Init(2, 0) && |tr.end.readings| == 2
    ensures tr.end.readings[1] == Reading(k, Hit(v), Some(Item(v, Some(ttl))), Some(Refill(ttl, ttl + lag)),
                                          ttl + lag + l1TTL)
  {
    tr := Start(l1TTL, {}, k);
    tr := SetCall(l1TTL, {}, k, tr, 0, v, ttl, 0, 0);
    tr := GetFirst(l1TTL, {}, k, tr, 0, ttl);
    assert !SomeHalf(tr.end, k);
    tr := GetSecond(l1TTL, {}, k, tr, 0, ttl);
    tr := GetThird(l1TTL, {}, k, tr, 0, ttl + lag);
    tr := GetFirst(l1TTL, {}, k, tr, 0, ttl + lag + l1TTL);
  }

  // -------------------------------------------------------- the exact condition

  // Every read of every key is permitted in every run of any number of goroutines
  // whose clashes on that key are of the given kinds.
  ghost predicate Guaranteed<V(!new)>(l1TTL: int, kinds: set<Clash>) {
    forall k, n, start, run, t: State<V> ::
      Leads(l1TTL, kinds, k, Init(n, start), run, t) ==> AllPermitted(l1TTL, t, k)
  }

  lemma BrokenBy<V(!new)>(l1TTL: int, fewer: set<Clash>, kinds: set<Clash>, k: string, quiet: Trace<V>, last: Trace<V>)
    requires Misleads(l1TTL, fewer, k, quiet, last) && fewer <= kinds
    ensures !Guaranteed<V>(l1TTL, kinds)
  {
    MoreKinds(l1TTL, fewer, kinds, k, quiet.start, quiet.run, quiet.end);
    MoreKinds(l1TTL, {}, kinds, k, last.start, last.run, last.end);
    LeadsBoth(l1TTL, kinds, k, quiet.start, quiet.run, quiet.end, last.run, last.end);
    assert !AllPermitted(l1TTL, last.end, k);
  }

  lemma {:induction false} LeadsBoth<V>(l1TTL: int, kinds: set<Clash>, k: string, s: State<V>, run: seq<Label<V>>,
                                        t: State<V>, more: seq<Label<V>>, u: State<V>)
    requires Leads(l1TTL, kinds, k, s, run, t) && Leads(l1TTL, kinds, k, t, more, u)
    ensures Leads(l1TTL, kinds, k, s, run + more, u)
    decreases |run|
  {
    if run == [] {
      assert run + more == more;
    } else {
      LeadsBoth(l1TTL, kinds, k, Next(l1TTL, s, run[0]), run[1..], t, more, u);
      assert (run + more)[1..] == run[1..] + more;
    }
  }

  lemma {:induction false} MoreKinds<V>(l1TTL: int, fewer: set<Clash>, kinds: set<Clash>, k: string,
                                        s: State<V>, run: seq<Label<V>>, t: State<V>)
    requires Leads(l1TTL, fewer, k, s, run, t) && fewer <= kinds
    ensures Leads(l1TTL, kinds, k, s, run, t)
    decreases |run|
  {
    if run != [] {
      MoreKinds(l1TTL, fewer, kinds, k, Next(l1TTL, s, run[0]), run[1..], t);
    }
  }

  // The guarantee holds exactly when the first level has a lifetime and none of the
  // three clashes is let in.
  lemma GuaranteedIff<V(!new)>(l1TTL: int, kinds: set<Clash>, someKey: string, v: V)
    ensures Guaranteed<V>(l1TTL, kinds) <==> l1TTL > 0 && kinds == {}
  {
    if l1TTL <= 0 {
      var quiet, last := StaleForever(l1TTL, someKey, v);
      BrokenBy(l1TTL, {}, kinds, someKey, quiet, last);
    } else if TornRead in kinds {
      var quiet, last := TornReadBreaks(l1TTL, someKey, v);
      BrokenBy(l1TTL, {TornRead}, kinds, someKey, quiet, last);
    } else if OverlappingWrites in kinds {
      var quiet, last := OverlappingWritesBreak(l1TTL, someKey, v);
      BrokenBy(l1TTL, {OverlappingWrites}, kinds, someKey, quiet, last);
    } else if WriteWhileHeld in kinds {
      var quiet, last := DeletedReturns(l1TTL, someKey, v);
      BrokenBy(l1TTL, {WriteWhileHeld}, kinds, someKey, quiet, last);
    } else {
      assert forall c :: c in kinds ==> c.TornRead? || c.OverlappingWrites? || c.WriteWhileHeld?;
      assert kinds == {};
      forall k, n, start, run, t: State<V> | Leads(l1TTL, kinds, k, Init(n, start), run, t)
        ensures AllPermitted(l1TTL, t, k)
      {
        ReadsPermitted(l1TTL, k, n, start, run, t);
      }
    }
  }

  // ---------------------------------------------------------- prompt refills

  // The refill clock is read no more than `lag` after the value was found fresh.
  predicate Prompt<V>(s: State<V>, l: Label<V>, lag: int)
    requires Enabled(s, l)
  {
    l.Step? && s.ops[l.w].Refilling? ==> l.now - s.ops[l.w].checked <= lag
  }

  ghost predicate AllPrompt<V>(l1TTL: int, s: State<V>, run: seq<Label<V>>, lag: int)
    decreases |run|
  {
    run == [] || (Enabled(s, run[0]) && Prompt(s, run[0], lag)
                  && AllPrompt(l1TTL, Next(l1TTL, s, run[0]), run[1..], lag))
  }

  predicate Short(refill: Option<Refill>, lag: int) {
    refill.Some? ==> refill.value.at - refill.value.checked <= lag
  }

  predicate OpShort<V>(op: Op<V>, lag: int) {
    && (op.Checking1? ==> Short(op.refill, lag))
    && (op.Storing? ==> op.at - op.checked <= lag)
  }

  ghost predicate Lags<V>(s: State<V>, lag: int) {
    && (forall k :: k in s.refills ==> Short(Some(s.refills[k]), lag))
    && (forall j :: 0 <= j < |s.ops| ==> OpShort(s.ops[j], lag))
    && forall i :: 0 <= i < |s.readings| ==> Short(s.readings[i].refill, lag)
  }

  lemma OpLags<V>(l1TTL: int, s: State<V>, op: Op<V>, now: int, lag: int)
    requires (forall k :: k in s.refills ==> Short(Some(s.refills[k]), lag)) && OpShort(op, lag)
    requires op.Refilling? ==> now - op.checked <= lag
    ensures OpShort(Following(l1TTL, s, op, now), lag)
    ensures forall r :: r in Answered(s, op, now) ==> Short(r.refill, lag)
    ensures var refills := Stored(l1TTL, s, op, now).refills;
            forall k :: k in refills ==> Short(Some(refills[k]), lag)
  {
  }

  lemma NextLags<V>(l1TTL: int, s: State<V>, l: Label<V>, lag: int)
    requires Lags(s, lag) && Enabled(s, l) && Prompt(s, l, lag)
    ensures Lags(Next(l1TTL, s, l), lag)
  {
    if l.Step? {
      SectionLags(l1TTL, s, l.w, l.now, lag);
    }
  }

  lemma SectionLags<V>(l1TTL: int, s: State<V>, w: nat, now: int, lag: int)
    requires Lags(s, lag) && Enabled(s, Step(w, now)) && Prompt(s, Step(w, now), lag)
    ensures Lags(Section(l1TTL, s, w, now), lag)
  {
    var t, more := Section(l1TTL, s, w, now), Answered(s, s.ops[w], now);
    OpLags(l1TTL, s, s.ops[w], now, lag);
    forall i | 0 <= i < |t.readings|
      ensures Short(t.readings[i].refill, lag)
    {
      if i >= |s.readings| {
        assert t.readings[i] == more[i - |s.readings|];
      }
    }
  }

  lemma {:induction false} RunLags<V>(l1TTL: int, k: string, s: State<V>, run: seq<Label<V>>, t: State<V>, lag: int)
    requires Lags(s, lag) && Leads(l1TTL, {}, k, s, run, t) && AllPrompt(l1TTL, s, run, lag)
    ensures Lags(t, lag)
    decreases |run|
  {
    if run != [] {
      NextLags(l1TTL, s, run[0], lag);
      RunLags(l1TTL, k, Next(l1TTL, s, run[0]), run[1..], t, lag);
    }
  }

  // So when every refill follows its check within `lag`, an expired value is answered for
  // at most `lag` and one first-level lifetime after its expiry.
  lemma BoundedStaleness<V>(l1TTL: int, k: string, n: nat, start: int, run: seq<Label<V>>, t: State<V>,
                            lag: int, i: nat)
    requires l1TTL > 0 && Leads(l1TTL, {}, k, Init(n, start), run, t) && AllPrompt(l1TTL, Init(n, start), run, lag)
    requires i < |t.readings| && t.readings[i].key == k && t.readings[i].answer.Hit?
    ensures t.readings[i].seen.Some?
    ensures var expiresAt := t.readings[i].seen.value.expiresAt;
            expiresAt.Some? && t.readings[i].now > expiresAt.value ==>
              t.readings[i].now <= expiresAt.value + lag + l1TTL
  {
    ReadsPermitted(l1TTL, k, n, start, run, t);
    RunLags(l1TTL, k, Init(n, start), run, t, lag);
    assert Permitted(l1TTL, t.readings[i]) && Short(t.readings[i].refill, lag);
  }
}
