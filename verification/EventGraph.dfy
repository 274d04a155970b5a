// The causal event graph as a value: what every state of the DAG class keeps, and
// what follows for its searches. Vertices are named by event ID.
module EventGraph {

  type Id = string

  datatype Event = Event(
    id: Id, hash: string, prevHash: string, prevHashes: seq<string>, time: int, sequence: int)

  datatype Vertex = Vertex(event: Event, preds: seq<Id>, succs: seq<Id>, depth: nat)

  type Graph = map<Id, Vertex>

  // `log` is the order in which the events were accepted.
  datatype State = State(g: Graph, roots: seq<Id>, leaves: seq<Id>, log: seq<Id>)

  const EMPTY := State(map[], [], [], [])

  // The hashes an event names: those of its list, or the single one if the list is empty.
  predicate Declares(e: Event, hash: string) {
    if e.prevHashes != [] then hash in e.prevHashes else hash != "" && hash == e.prevHash
  }

  // getPredecessorHashes / getPrevHashes: the list wins over the single hash.
  function PrevHashes(e: Event): (r: seq<string>)
    ensures forall h :: h in r <==> Declares(e, h)
  {
    if |e.prevHashes| > 0 then e.prevHashes
    else if e.prevHash != "" then [e.prevHash]
    else []
  }

  predicate Distinct<T(==)>(s: seq<T>) {
    forall i, j :: 0 <= i < j < |s| ==> s[i] != s[j]
  }

  // --------------------------------------------------------------- insertion

  predicate HasHash(g: Graph, prior: seq<Id>, hash: string) {
    exists i :: 0 <= i < |prior| && prior[i] in g && g[prior[i]].event.hash == hash
  }

  // preds lists, for each declared hash in order that some prior event carries, one
  // such event; hashes without a carrier are skipped.
  ghost predicate Links(g: Graph, prior: seq<Id>, hashes: seq<string>, preds: seq<Id>)
    decreases |hashes|
  {
    if hashes == [] then preds == []
    else if HasHash(g, prior, hashes[0]) then
      && preds != [] && preds[0] in prior && preds[0] in g && g[preds[0]].event.hash == hashes[0]
      && Links(g, prior, hashes[1..], preds[1..])
    else Links(g, prior, hashes[1..], preds)
  }

  function DepthFrom(g: Graph, preds: seq<Id>): nat
    requires forall p :: p in preds ==> p in g
  {
    if preds == [] then 0
    else
      var d := DepthFrom(g, preds[..|preds| - 1]);
      var last := g[preds[|preds| - 1]].depth + 1;
      if last > d then last else d
  }

  ghost predicate Accepts(st: State, e: Event, preds: seq<Id>) {
    && e.id !in st.g
    && Links(st.g, st.log, PrevHashes(e), preds)
    && forall p :: p in preds ==> p in st.g
  }

  function Copies<T>(n: nat, x: T): (r: seq<T>)
    ensures |r| == n
  {
    seq(n, i => x)
  }

  // The graph with one successor entry for `id` per link to a predecessor.
  function WithSuccessor(g: Graph, preds: seq<Id>, id: Id): Graph {
    map p | p in g :: g[p].(succs := g[p].succs + Copies(multiset(preds)[p], id))
  }

  lemma LinkedToNone(g: Graph, id: Id)
    ensures WithSuccessor(g, [], id) == g
  {
    forall p | p in g
      ensures WithSuccessor(g, [], id)[p] == g[p]
    {
      assert g[p].succs + Copies(0, id) == g[p].succs;
    }
  }

  function Insert(st: State, e: Event, preds: seq<Id>): State
    requires forall p :: p in preds ==> p in st.g
  {
    var linked := WithSuccessor(st.g, preds, e.id);
    State(
      linked[e.id := Vertex(e, preds, [], DepthFrom(st.g, preds))],
      if PrevHashes(e) == [] then st.roots + [e.id] else st.roots,
      StillLeaves(linked, st.leaves) + [e.id],
      st.log + [e.id])
  }

  // The leaves that have got no successor.
  function StillLeaves(g: Graph, leaves: seq<Id>): seq<Id> {
    if leaves == [] then []
    else
      var rest := StillLeaves(g, leaves[..|leaves| - 1]);
      var last := leaves[|leaves| - 1];
      if last in g && g[last].succs == [] then rest + [last] else rest
  }

  lemma {:induction false} StillLeavesAgree(g: Graph, g': Graph, leaves: seq<Id>)
    requires forall id :: id in leaves ==> id in g && id in g' && g[id].succs == g'[id].succs
    ensures StillLeaves(g, leaves) == StillLeaves(g', leaves)
  {
    if leaves != [] {
      assert leaves[|leaves| - 1] in leaves;
      StillLeavesAgree(g, g', leaves[..|leaves| - 1]);
    }
  }

  function RootsOf(g: Graph, log: seq<Id>): seq<Id> {
    if log == [] then []
    else
      var rest := RootsOf(g, log[..|log| - 1]);
      var last := log[|log| - 1];
      if last in g && PrevHashes(g[last].event) == [] then rest + [last] else rest
  }

  // --------------------------------------------------------------- invariant

  ghost predicate Named(st: State) {
    && Distinct(st.log)
    && (forall id :: id in st.g <==> id in st.log)
    && forall id :: id in st.g ==> st.g[id].event.id == id
  }

  // The j-th accepted event's predecessors were accepted before it and are what
  // its declared hashes name.
  ghost predicate LinkedAt(st: State, j: nat)
    requires j < |st.log|
  {
    st.log[j] in st.g
    && var v := st.g[st.log[j]];
       && Links(st.g, st.log[..j], PrevHashes(v.event), v.preds)
       && forall p :: p in v.preds ==> p in st.log[..j]
  }

  ghost predicate Linked(st: State) {
    forall j :: 0 <= j < |st.log| ==> LinkedAt(st, j)
  }

  ghost predicate Mirror(g: Graph) {
    forall a, b {:trigger g[a].succs, g[b].preds} :: a in g && b in g ==>
      multiset(g[a].succs)[b] == multiset(g[b].preds)[a]
  }

  ghost predicate Closed(g: Graph) {
    && (forall id, p :: id in g && p in g[id].preds ==> p in g)
    && (forall id, s :: id in g && s in g[id].succs ==> s in g)
  }

  ghost predicate Depths(g: Graph)
    requires Closed(g)
  {
    forall id :: id in g ==> g[id].depth == DepthFrom(g, g[id].preds)
  }

  ghost predicate LeavesExact(g: Graph, leaves: seq<Id>) {
    && Distinct(leaves)
    && forall id :: id in leaves <==> id in g && g[id].succs == []
  }

  ghost predicate Inv(st: State) {
    && Named(st)
    && Linked(st)
    && Closed(st.g)
    && Mirror(st.g)
    && Depths(st.g)
    && LeavesExact(st.g, st.leaves)
    && st.roots == RootsOf(st.g, st.log)
  }

  // ------------------------------------------------- Insert keeps the invariant

  // The graph after the links to a new event were added, before its vertex is.
  ghost predicate SameButSuccs(g: Graph, g': Graph) {
    forall id :: id in g ==> id in g' && g'[id].event == g[id].event
                             && g'[id].preds == g[id].preds && g'[id].depth == g[id].depth
  }

  lemma {:induction false} LinksStable(g: Graph, g': Graph, prior: seq<Id>, hashes: seq<string>, preds: seq<Id>)
    requires SameButSuccs(g, g') && forall id :: id in prior ==> id in g
    requires Links(g, prior, hashes, preds)
    ensures Links(g', prior, hashes, preds)
    decreases |hashes|
  {
    if hashes != [] {
      assert HasHash(g, prior, hashes[0]) <==> HasHash(g', prior, hashes[0]);
      if HasHash(g, prior, hashes[0]) {
        LinksStable(g, g', prior, hashes[1..], preds[1..]);
      } else {
        LinksStable(g, g', prior, hashes[1..], preds);
      }
    }
  }

  lemma {:induction false} DepthStable(g: Graph, g': Graph, preds: seq<Id>)
    requires SameButSuccs(g, g') && forall p :: p in preds ==> p in g
    ensures DepthFrom(g, preds) == DepthFrom(g', preds)
  {
    if preds != [] {
      DepthStable(g, g', preds[..|preds| - 1]);
      assert preds[|preds| - 1] in preds;
    }
  }

  lemma {:induction false} RootsStable(g: Graph, g': Graph, log: seq<Id>)
    requires SameButSuccs(g, g') && forall id :: id in log ==> id in g
    ensures RootsOf(g, log) == RootsOf(g', log)
  {
    if log != [] {
      RootsStable(g, g', log[..|log| - 1]);
      assert log[|log| - 1] in log;
    }
  }

  lemma {:induction false} StillLeavesExact(g: Graph, leaves: seq<Id>)
    requires Distinct(leaves)
    ensures Distinct(StillLeaves(g, leaves))
    ensures forall id :: id in StillLeaves(g, leaves) <==> id in leaves && id in g && g[id].succs == []
  {
    if leaves != [] {
      var front, last := leaves[..|leaves| - 1], leaves[|leaves| - 1];
      assert leaves == front + [last] && last !in front;
      StillLeavesExact(g, front);
    }
  }

  lemma {:induction false} LinksElements(g: Graph, prior: seq<Id>, hashes: seq<string>, preds: seq<Id>)
    requires Links(g, prior, hashes, preds)
    ensures forall p :: p in preds ==> p in prior && p in g && g[p].event.hash in hashes
    ensures forall h :: h in hashes && HasHash(g, prior, h) ==> exists p :: p in preds && g[p].event.hash == h
    decreases |hashes|
  {
    if hashes != [] {
      if HasHash(g, prior, hashes[0]) {
        LinksElements(g, prior, hashes[1..], preds[1..]);
        assert preds == [preds[0]] + preds[1..];
        assert preds[0] in preds;
      } else {
        LinksElements(g, prior, hashes[1..], preds);
      }
      assert hashes == [hashes[0]] + hashes[1..];
    }
  }

  lemma InsertNamed(st: State, e: Event, preds: seq<Id>)
    requires Named(st) && e.id !in st.g && forall p :: p in preds ==> p in st.g
    ensures Named(Insert(st, e, preds))
    ensures SameButSuccs(st.g, Insert(st, e, preds).g)
  {
    var st' := Insert(st, e, preds);
    assert e.id !in st.log;
    assert forall id :: id in st'.g <==> id in st.g || id == e.id;
    assert forall id :: id in st'.log <==> id in st.log || id == e.id;
    forall i, j | 0 <= i < j < |st'.log|
      ensures st'.log[i] != st'.log[j]
    {
      assert st'.log[i] in st.log;
    }
  }

  lemma OldLinkedAt(st: State, e: Event, preds: seq<Id>, j: nat)
    requires e.id !in st.g && forall p :: p in preds ==> p in st.g
    requires j < |st.log| && LinkedAt(st, j) && forall id :: id in st.log ==> id in st.g
    requires SameButSuccs(st.g, Insert(st, e, preds).g)
    ensures LinkedAt(Insert(st, e, preds), j)
  {
    var st' := Insert(st, e, preds);
    var v := st.g[st.log[j]];
    assert st'.log[j] == st.log[j] && st'.log[..j] == st.log[..j];
    LinksStable(st.g, st'.g, st.log[..j], PrevHashes(v.event), v.preds);
  }

  lemma NewLinkedAt(st: State, e: Event, preds: seq<Id>)
    requires Links(st.g, st.log, PrevHashes(e), preds) && forall p :: p in preds ==> p in st.g
    requires forall id :: id in st.log ==> id in st.g
    requires SameButSuccs(st.g, Insert(st, e, preds).g)
    ensures LinkedAt(Insert(st, e, preds), |st.log|)
  {
    var st' := Insert(st, e, preds);
    assert st'.log[..|st.log|] == st.log;
    LinksStable(st.g, st'.g, st.log, PrevHashes(e), preds);
    LinksElements(st.g, st.log, PrevHashes(e), preds);
  }

  lemma InsertLinked(st: State, e: Event, preds: seq<Id>)
    requires Named(st) && Linked(st) && Accepts(st, e, preds)
    ensures Linked(Insert(st, e, preds))
  {
    var st' := Insert(st, e, preds);
    InsertNamed(st, e, preds);
    forall j | 0 <= j < |st'.log|
      ensures LinkedAt(st', j)
    {
      if j < |st.log| {
        OldLinkedAt(st, e, preds, j);
      } else {
        NewLinkedAt(st, e, preds);
      }
    }
  }

  // The graph of Insert, without the rest of the state.
  function Extended(g: Graph, e: Event, preds: seq<Id>, depth: nat): Graph {
    WithSuccessor(g, preds, e.id)[e.id := Vertex(e, preds, [], depth)]
  }

  lemma ExtendedSuccs(g: Graph, e: Event, preds: seq<Id>, depth: nat, a: Id, b: Id)
    requires a in g && a != e.id
    ensures multiset(Extended(g, e, preds, depth)[a].succs)[b]
            == multiset(g[a].succs)[b] + (if b == e.id then multiset(preds)[a] else 0)
  {
    var extra := Copies(multiset(preds)[a], e.id);
    CopiesCount(multiset(preds)[a], e.id, b);
    assert multiset(g[a].succs + extra) == multiset(g[a].succs) + multiset(extra);
  }

  lemma ExtendedMirrorAt(g: Graph, e: Event, preds: seq<Id>, depth: nat, a: Id, b: Id)
    requires Mirror(g) && Closed(g) && e.id !in g && forall p :: p in preds ==> p in g
    requires a in g && (b in g || b == e.id)
    ensures var g' := Extended(g, e, preds, depth);
            multiset(g'[a].succs)[b] == multiset(g'[b].preds)[a]
  {
    ExtendedSuccs(g, e, preds, depth, a, b);
    if b == e.id {
      assert b !in g[a].succs;
      assert multiset(g[a].succs)[b] == 0;
    } else {
      assert multiset(g[a].succs)[b] == multiset(g[b].preds)[a];
    }
  }

  lemma ExtendedMirror(g: Graph, e: Event, preds: seq<Id>, depth: nat)
    requires Mirror(g) && Closed(g) && e.id !in g && forall p :: p in preds ==> p in g
    ensures Mirror(Extended(g, e, preds, depth))
  {
    var g' := Extended(g, e, preds, depth);
    forall a, b | a in g' && b in g'
      ensures multiset(g'[a].succs)[b] == multiset(g'[b].preds)[a]
    {
      if a == e.id {
        assert e.id !in g'[b].preds;
        assert multiset(g'[b].preds)[a] == 0;
      } else {
        ExtendedMirrorAt(g, e, preds, depth, a, b);
      }
    }
  }

  lemma ExtendedClosed(g: Graph, e: Event, preds: seq<Id>, depth: nat)
    requires Closed(g) && e.id !in g && forall p :: p in preds ==> p in g
    ensures Closed(Extended(g, e, preds, depth))
  {
    var g' := Extended(g, e, preds, depth);
    forall id, s | id in g' && s in g'[id].succs
      ensures s in g'
    {
      if id in g && s !in g[id].succs {
        assert s in Copies(multiset(preds)[id], e.id);
      }
    }
  }

  lemma {:induction false} CopiesCount<T>(n: nat, x: T, y: T)
    ensures multiset(Copies(n, x))[y] == if x == y then n else 0
  {
    if n > 0 {
      CopiesCount(n - 1, x, y);
      assert Copies(n, x) == Copies(n - 1, x) + [x];
    }
  }

  lemma ExtendedLeaves(g: Graph, e: Event, preds: seq<Id>, depth: nat, leaves: seq<Id>)
    requires LeavesExact(g, leaves) && e.id !in g
    ensures LeavesExact(Extended(g, e, preds, depth), StillLeaves(WithSuccessor(g, preds, e.id), leaves) + [e.id])
  {
    StillLeavesExact(WithSuccessor(g, preds, e.id), leaves);
  }

  lemma ExtendedDepths(g: Graph, g': Graph, id: Id)
    requires Closed(g) && Depths(g) && Closed(g') && SameButSuccs(g, g')
    requires g'.Keys == g.Keys + {id} && (forall p :: p in g'[id].preds ==> p in g)
    requires g'[id].depth == DepthFrom(g, g'[id].preds)
    ensures Depths(g')
  {
    forall k | k in g'
      ensures g'[k].depth == DepthFrom(g', g'[k].preds)
    {
      DepthStable(g, g', g'[k].preds);
    }
  }

  lemma InsertIsExtended(st: State, e: Event, preds: seq<Id>)
    requires forall p :: p in preds ==> p in st.g
    ensures Insert(st, e, preds).g == Extended(st.g, e, preds, DepthFrom(st.g, preds))
    ensures Insert(st, e, preds).leaves == StillLeaves(WithSuccessor(st.g, preds, e.id), st.leaves) + [e.id]
  {
  }

  lemma InsertLinks(st: State, e: Event, preds: seq<Id>)
    requires Closed(st.g) && Mirror(st.g) && LeavesExact(st.g, st.leaves)
    requires e.id !in st.g && forall p :: p in preds ==> p in st.g
    ensures var st' := Insert(st, e, preds);
            Closed(st'.g) && Mirror(st'.g) && LeavesExact(st'.g, st'.leaves)
  {
    var depth := DepthFrom(st.g, preds);
    InsertIsExtended(st, e, preds);
    ExtendedClosed(st.g, e, preds, depth);
    ExtendedMirror(st.g, e, preds, depth);
    ExtendedLeaves(st.g, e, preds, depth, st.leaves);
  }

  lemma InsertDepths(st: State, e: Event, preds: seq<Id>)
    requires e.id !in st.g && forall p :: p in preds ==> p in st.g
    requires Closed(st.g) && Depths(st.g) && Closed(Insert(st, e, preds).g)
    ensures Depths(Insert(st, e, preds).g)
  {
    ExtendedDepths(st.g, Insert(st, e, preds).g, e.id);
  }

  lemma InsertRoots(st: State, e: Event, preds: seq<Id>)
    requires Named(st) && e.id !in st.g && forall p :: p in preds ==> p in st.g
    requires st.roots == RootsOf(st.g, st.log)
    ensures var st' := Insert(st, e, preds); st'.roots == RootsOf(st'.g, st'.log)
  {
    var st' := Insert(st, e, preds);
    RootsStable(st.g, st'.g, st.log);
    assert st'.log[..|st'.log| - 1] == st.log;
  }

  // Every accepted event keeps the invariant.
  lemma InsertKeepsInv(st: State, e: Event, preds: seq<Id>)
    requires Inv(st) && Accepts(st, e, preds)
    ensures Inv(Insert(st, e, preds))
  {
    InsertNamed(st, e, preds);
    InsertLinked(st, e, preds);
    InsertLinks(st, e, preds);
    InsertDepths(st, e, preds);
    InsertRoots(st, e, preds);
  }

  // The states a DAG goes through: events accepted one by one from the empty DAG.
  ghost predicate Reachable(st: State)
    decreases |st.log|
  {
    st == EMPTY
    || exists prev: State, e: Event, preds: seq<Id> ::
         |prev.log| < |st.log| && Reachable(prev) && Accepts(prev, e, preds) && st == Insert(prev, e, preds)
  }

  lemma ReachableNext(st: State, e: Event, preds: seq<Id>)
    requires Reachable(st) && Accepts(st, e, preds)
    ensures Reachable(Insert(st, e, preds))
  {
  }

  lemma {:induction false} ReachableInv(st: State)
    requires Reachable(st)
    ensures Inv(st)
    decreases |st.log|
  {
    if st != EMPTY {
      var prev: State, e: Event, preds: seq<Id> :|
        |prev.log| < |st.log| && Reachable(prev) && Accepts(prev, e, preds) && st == Insert(prev, e, preds);
      ReachableInv(prev);
      InsertKeepsInv(prev, e, preds);
    }
  }

  // In every reachable state an event is linked to earlier events whose hashes it names,
  // to one for each hash it names that an earlier event carries, and it is a root exactly
  // when it names none.
  lemma ReachableLinks(st: State, j: nat)
    requires Reachable(st) && j < |st.log| && st.log[j] in st.g
    ensures var v := st.g[st.log[j]];
            && (forall p :: p in v.preds ==> p in st.log[..j] && p in st.g && Declares(v.event, st.g[p].event.hash))
            && (forall h :: Declares(v.event, h) && HasHash(st.g, st.log[..j], h) ==>
                  exists p :: p in v.preds && p in st.g && st.g[p].event.hash == h)
            && (st.log[j] in st.roots <==> v.event.prevHashes == [] && v.event.prevHash == "")
  {
    var v := st.g[st.log[j]];
    ReachableInv(st);
    assert LinkedAt(st, j);
    LinksElements(st.g, st.log[..j], PrevHashes(v.event), v.preds);
    RootsExact(st.g, st.log);
  }

  // ---------------------------------------------------- steps of the insertion

  lemma {:induction false} LinksAppend(g: Graph, prior: seq<Id>, hashes: seq<string>, preds: seq<Id>,
                                          h: string, p: seq<Id>)
    requires Links(g, prior, hashes, preds)
    requires if HasHash(g, prior, h) then |p| == 1 && p[0] in prior && p[0] in g && g[p[0]].event.hash == h
             else p == []
    ensures Links(g, prior, hashes + [h], preds + p)
    decreases |hashes|
  {
    if hashes == [] {
      assert (hashes + [h])[1..] == [] && (HasHash(g, prior, h) ==> (preds + p)[1..] == []);
    } else {
      assert (hashes + [h])[1..] == hashes[1..] + [h];
      if HasHash(g, prior, hashes[0]) {
        LinksAppend(g, prior, hashes[1..], preds[1..], h, p);
        assert (preds + p)[1..] == preds[1..] + p;
      } else {
        LinksAppend(g, prior, hashes[1..], preds, h, p);
      }
    }
  }

  // One more declared hash was looked up: `found` is an event carrying it, if any.
  lemma LinkStep(st: State, hashes: seq<string>, k: nat, preds: seq<Id>, found: seq<Id>)
    requires Named(st) && k < |hashes| && Links(st.g, st.log, hashes[..k], preds)
    requires |found| <= 1
    requires found == [] ==> forall id :: id in st.g ==> st.g[id].event.hash != hashes[k]
    requires found != [] ==> found[0] in st.g && st.g[found[0]].event.hash == hashes[k]
    ensures Links(st.g, st.log, hashes[..k + 1], preds + found)
  {
    assert hashes[..k + 1] == hashes[..k] + [hashes[k]];
    if found != [] {
      var i :| 0 <= i < |st.log| && st.log[i] == found[0];
    }
    LinksAppend(st.g, st.log, hashes[..k], preds, hashes[k], found);
  }

  lemma DepthStep(g: Graph, preds: seq<Id>, p: Id)
    requires p in g && forall q :: q in preds ==> q in g
    ensures DepthFrom(g, preds + [p]) ==
            if g[p].depth + 1 > DepthFrom(g, preds) then g[p].depth + 1 else DepthFrom(g, preds)
  {
    assert (preds + [p])[..|preds|] == preds;
  }

  lemma CopiesStep<T>(ids: seq<Id>, p: Id, id: Id, x: T)
    ensures Copies(multiset(ids + [p])[id], x)
            == Copies(multiset(ids)[id], x) + (if id == p then [x] else [])
  {
  }

  lemma WithSuccessorStep(g: Graph, preds: seq<Id>, p: Id, id: Id)
    requires p in g
    ensures var linked := WithSuccessor(g, preds, id);
            WithSuccessor(g, preds + [p], id) == linked[p := linked[p].(succs := linked[p].succs + [id])]
  {
    var linked := WithSuccessor(g, preds, id);
    forall k | k in g
      ensures WithSuccessor(g, preds + [p], id)[k] == linked[p := linked[p].(succs := linked[p].succs + [id])][k]
    {
      CopiesStep(preds, p, k, id);
    }
  }

  lemma {:induction false} RootsExact(g: Graph, log: seq<Id>)
    ensures forall id :: id in RootsOf(g, log) <==>
              id in log && id in g && g[id].event.prevHashes == [] && g[id].event.prevHash == ""
  {
    if log != [] {
      RootsExact(g, log[..|log| - 1]);
      assert log == log[..|log| - 1] + [log[|log| - 1]];
    }
  }
}
