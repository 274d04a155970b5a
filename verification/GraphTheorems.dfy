// What the invariant of EventGraph implies for every reachable graph.
module GraphTheorems {
  import opened EventGraph

  ghost predicate Edge(g: Graph, a: Id, b: Id) {
    a in g && b in g && b in g[a].succs
  }

  // A walk along successor edges; a single vertex is a walk.
  ghost predicate IsWalk(g: Graph, p: seq<Id>) {
    && |p| > 0
    && (forall i :: 0 <= i < |p| ==> p[i] in g)
    && forall i :: 0 <= i < |p| - 1 ==> Edge(g, p[i], p[i + 1])
  }

  ghost predicate WalkFromTo(g: Graph, p: seq<Id>, a: Id, b: Id) {
    IsWalk(g, p) && p[0] == a && p[|p| - 1] == b
  }

  // a is a proper ancestor of b, and b a proper descendant of a.
  ghost predicate Reaches(g: Graph, a: Id, b: Id) {
    exists p :: WalkFromTo(g, p, a, b) && |p| >= 2
  }

  lemma EdgeIsPred(g: Graph, a: Id, b: Id)
    requires Mirror(g) && a in g && b in g
    ensures Edge(g, a, b) <==> a in g[b].preds
  {
    assert multiset(g[a].succs)[b] == multiset(g[b].preds)[a];
  }

  // ------------------------------------------------------------------- depth

  lemma {:induction false} DepthFromAbove(g: Graph, preds: seq<Id>, i: nat)
    requires i < |preds| && forall p :: p in preds ==> p in g
    ensures preds[i] in g && g[preds[i]].depth + 1 <= DepthFrom(g, preds)
  {
    assert preds[i] in preds;
    if i < |preds| - 1 {
      DepthFromAbove(g, preds[..|preds| - 1], i);
    }
  }

  lemma {:induction false} DepthFromAttained(g: Graph, preds: seq<Id>) returns (i: nat)
    requires preds != [] && forall p :: p in preds ==> p in g
    ensures i < |preds| && preds[i] in g && DepthFrom(g, preds) == g[preds[i]].depth + 1
  {
    var n := |preds| - 1;
    assert preds[n] in preds;
    i := n;
    if g[preds[n]].depth + 1 < DepthFrom(g, preds[..n]) {
      i := DepthFromAttained(g, preds[..n]);
    }
  }

  // Depth strictly grows along every edge.
  ghost predicate Ranked(g: Graph) {
    forall a, b :: Edge(g, a, b) ==> g[a].depth < g[b].depth
  }

  // The same, along the predecessor entries: the measure of the searches.
  ghost predicate Deepening(g: Graph) {
    forall id, p :: id in g && p in g[id].preds ==> p in g && g[p].depth < g[id].depth
  }

  // Every predecessor entry is an edge.
  ghost predicate PredEdges(g: Graph) {
    forall n, a :: n in g && a in g[n].preds ==> Edge(g, a, n)
  }

  // And every edge is in the predecessor list.
  ghost predicate EdgePreds(g: Graph) {
    forall a, b :: Edge(g, a, b) ==> a in g[b].preds
  }

  lemma PredShallower(g: Graph, id: Id, p: Id)
    requires Closed(g) && Depths(g) && id in g && p in g[id].preds
    ensures p in g && g[p].depth < g[id].depth
  {
    var i :| 0 <= i < |g[id].preds| && g[id].preds[i] == p;
    DepthFromAbove(g, g[id].preds, i);
  }

  lemma DepthsDeepen(g: Graph)
    requires Closed(g) && Depths(g)
    ensures Deepening(g)
  {
    forall id, p | id in g && p in g[id].preds
      ensures p in g && g[p].depth < g[id].depth
    {
      PredShallower(g, id, p);
    }
  }

  lemma MirrorEdges(g: Graph)
    requires Closed(g) && Mirror(g)
    ensures PredEdges(g) && EdgePreds(g)
  {
    forall a, b | a in g && b in g
      ensures Edge(g, a, b) <==> a in g[b].preds
    {
      EdgeIsPred(g, a, b);
    }
  }

  lemma ReachableRanked(st: State)
    requires Reachable(st)
    ensures Closed(st.g) && PredEdges(st.g) && EdgePreds(st.g) && Deepening(st.g) && Ranked(st.g)
  {
    ReachableInv(st);
    DepthsDeepen(st.g);
    MirrorEdges(st.g);
    EdgesRank(st.g);
  }

  lemma EdgesRank(g: Graph)
    requires EdgePreds(g) && Deepening(g)
    ensures Ranked(g)
  {
  }

  lemma {:induction false} WalkDeepens(g: Graph, p: seq<Id>)
    requires Ranked(g) && IsWalk(g, p)
    ensures g[p[0]].depth + |p| - 1 <= g[p[|p| - 1]].depth
    decreases |p|
  {
    if |p| > 1 {
      var q := p[..|p| - 1];
      assert Edge(g, p[|p| - 2], p[|p| - 2 + 1]);
      WalkFront(g, p);
      WalkDeepens(g, q);
    }
  }

  lemma WalkFront(g: Graph, p: seq<Id>)
    requires IsWalk(g, p) && |p| > 1
    ensures IsWalk(g, p[..|p| - 1])
  {
    var q := p[..|p| - 1];
    forall i | 0 <= i < |q| - 1
      ensures Edge(g, q[i], q[i + 1])
    {
      assert Edge(g, p[i], p[i + 1]);
    }
  }

  // No reachable graph has a cycle.
  lemma Acyclic(st: State, a: Id)
    requires Reachable(st)
    ensures !Reaches(st.g, a, a)
  {
    ReachableRanked(st);
    forall p | WalkFromTo(st.g, p, a, a)
      ensures |p| < 2
    {
      WalkDeepens(st.g, p);
    }
  }

  // Events of one depth group are pairwise unrelated, so they may run in parallel.
  lemma SameDepthUnrelated(g: Graph, a: Id, b: Id)
    requires Ranked(g) && a in g && b in g && g[a].depth == g[b].depth
    ensures !Reaches(g, a, b)
  {
    forall p | WalkFromTo(g, p, a, b)
      ensures |p| < 2
    {
      WalkDeepens(g, p);
    }
  }

  lemma WalkExtends(g: Graph, p: seq<Id>, b: Id)
    requires IsWalk(g, p) && Edge(g, p[|p| - 1], b)
    ensures IsWalk(g, p + [b])
  {
    var q := p + [b];
    forall i | 0 <= i < |q| - 1
      ensures Edge(g, q[i], q[i + 1])
    {
      if i < |p| - 1 {
        assert Edge(g, p[i], p[i + 1]);
      }
    }
  }

  // A chain as long as the depth says.
  lemma {:induction false} LongestChain(g: Graph, id: Id) returns (p: seq<Id>)
    requires Closed(g) && Depths(g) && PredEdges(g) && id in g
    ensures IsWalk(g, p) && p[|p| - 1] == id && |p| - 1 == g[id].depth
    ensures g[p[0]].preds == []
    decreases g[id].depth
  {
    var preds := g[id].preds;
    if preds == [] {
      p := [id];
    } else {
      var i := DepthFromAttained(g, preds);
      var q := preds[i];
      assert q in preds;
      p := LongestChain(g, q);
      assert Edge(g, q, id);
      WalkExtends(g, p, id);
      p := p + [id];
    }
  }

  // Depth is the length of the longest predecessor chain.
  lemma DepthIsLongestChain(st: State, id: Id)
    requires Reachable(st) && id in st.g
    ensures exists p :: IsWalk(st.g, p) && p[|p| - 1] == id && |p| - 1 == st.g[id].depth
    ensures forall p :: IsWalk(st.g, p) && p[|p| - 1] == id ==> |p| - 1 <= st.g[id].depth
  {
    ReachableRanked(st);
    assert Depths(st.g) by { ReachableInv(st); }
    var q := LongestChain(st.g, id);
    forall p | IsWalk(st.g, p) && p[|p| - 1] == id
      ensures |p| - 1 <= st.g[id].depth
    {
      WalkDeepens(st.g, p);
    }
  }

  // ---------------------------------------------------------- searches

  // The state of a breadth-first search: every vertex within `bound` steps of
  // `from` has been seen at no more than its distance.
  lemma {:induction false} BfsCovers(g: Graph, dist: map<Id, nat>, processed: set<Id>, from: Id, bound: nat, p: seq<Id>)
    requires IsWalk(g, p) && p[0] == from && |p| - 1 <= bound
    requires from in dist && dist[from] == 0
    requires forall v, s :: v in processed && Edge(g, v, s) ==> v in dist && s in dist && dist[s] <= dist[v] + 1
    requires forall v :: v in dist && v !in processed ==> dist[v] >= bound
    ensures p[|p| - 1] in dist && dist[p[|p| - 1]] <= |p| - 1
    decreases |p|
  {
    if |p| > 1 {
      var q := p[..|p| - 1];
      WalkFront(g, p);
      BfsCovers(g, dist, processed, from, bound, q);
      assert Edge(g, p[|p| - 2], p[|p| - 1]);
    }
  }

  // A result list and the visited set that goes with it.
  ghost predicate Lists(found: seq<Id>, visited: set<Id>) {
    Distinct(found) && forall x :: x in found <==> x in visited
  }

  // Visited vertices whose visit is over have all their neighbours visited.
  ghost predicate PredsWithin(g: Graph, visited: set<Id>, stack: set<Id>) {
    forall v, a :: v in visited && v !in stack && v in g && a in g[v].preds ==> a in visited
  }

  ghost predicate SuccsWithin(g: Graph, visited: set<Id>, stack: set<Id>) {
    forall v, a :: v in visited && v !in stack && v in g && a in g[v].succs ==> a in visited
  }

  // A set that holds the predecessors of n and of each of its own members holds
  // every ancestor of n.
  lemma {:induction false} AncestorsWithin(g: Graph, seen: set<Id>, n: Id, p: seq<Id>)
    requires EdgePreds(g) && IsWalk(g, p) && |p| >= 2 && p[|p| - 1] == n
    requires forall v, a :: v in g && (v in seen || v == n) && a in g[v].preds ==> a in seen
    ensures p[0] in seen
    decreases |p|
  {
    var a := p[|p| - 2];
    assert Edge(g, p[|p| - 2], p[|p| - 2 + 1]);
    if |p| > 2 {
      var q := p[..|p| - 1];
      WalkFront(g, p);
      AncestorsWithin(g, seen, a, q);
    }
  }

  lemma {:induction false} DescendantsWithin(g: Graph, seen: set<Id>, n: Id, p: seq<Id>)
    requires IsWalk(g, p) && |p| >= 2 && p[0] == n
    requires forall v, s :: v in g && (v in seen || v == n) && s in g[v].succs ==> s in seen
    ensures p[|p| - 1] in seen
    decreases |p|
  {
    assert Edge(g, p[0], p[1]);
    if |p| > 2 {
      var q := p[1..];
      WalkBackPart(g, p, 1);
      DescendantsWithin(g, seen, p[1], q);
    }
  }

  lemma WalkPrepends(g: Graph, a: Id, p: seq<Id>)
    requires IsWalk(g, p) && Edge(g, a, p[0])
    ensures IsWalk(g, [a] + p)
  {
    var q := [a] + p;
    forall i | 0 <= i < |q| - 1
      ensures Edge(g, q[i], q[i + 1])
    {
      if i > 0 {
        assert Edge(g, p[i - 1], p[i]);
      }
    }
  }

  // A walk from a that comes back to itself or to one of the vertices in `seen`.
  ghost predicate Returns(g: Graph, p: seq<Id>, a: Id, seen: set<Id>) {
    && IsWalk(g, p) && p[0] == a
    && (p[|p| - 1] in seen || exists i :: 0 <= i < |p| - 1 && p[i] == p[|p| - 1])
  }

  lemma ReturnsPrepends(g: Graph, a: Id, p: seq<Id>, seen: set<Id>)
    requires IsWalk(g, p) && Edge(g, a, p[0]) && Returns(g, p, p[0], seen + {a})
    ensures Returns(g, [a] + p, a, seen)
  {
    WalkPrepends(g, a, p);
    var q := [a] + p;
    if p[|p| - 1] !in seen {
      if p[|p| - 1] == a {
        assert q[0] == q[|q| - 1];
      } else {
        var i :| 0 <= i < |p| - 1 && p[i] == p[|p| - 1];
        assert q[i + 1] == q[|q| - 1];
      }
    }
  }

  lemma ReturnsRest(g: Graph, a: Id, p: seq<Id>, seen: set<Id>)
    requires Returns(g, p, a, seen) && a !in seen
    ensures |p| > 1 && Edge(g, a, p[1]) && Returns(g, p[1..], p[1], seen + {a})
  {
    var q := p[1..];
    assert Edge(g, p[0], p[0 + 1]);
    WalkBackPart(g, p, 1);
    if p[|p| - 1] !in seen + {a} {
      var i :| 0 <= i < |p| - 1 && p[i] == p[|p| - 1];
      assert q[i - 1] == q[|q| - 1];
    }
  }

  lemma WalkBackPart(g: Graph, p: seq<Id>, i: nat)
    requires IsWalk(g, p) && i < |p|
    ensures IsWalk(g, p[i..])
  {
    var q := p[i..];
    forall k | 0 <= k < |q| - 1
      ensures Edge(g, q[k], q[k + 1])
    {
      assert Edge(g, p[i + k], p[i + k + 1]);
    }
  }

  lemma NothingReturns(g: Graph, a: Id)
    requires Ranked(g)
    ensures forall p :: !Returns(g, p, a, {})
  {
    forall p | Returns(g, p, a, {})
      ensures false
    {
      var i :| 0 <= i < |p| - 1 && p[i] == p[|p| - 1];
      WalkBackPart(g, p, i);
      WalkDeepens(g, p[i..]);
    }
  }

  lemma ReachesBefore(g: Graph, a: Id, b: Id, c: Id)
    requires Edge(g, a, b) && (b == c || Reaches(g, b, c))
    ensures Reaches(g, a, c)
  {
    var p := [b];
    if b != c {
      p :| WalkFromTo(g, p, b, c) && |p| >= 2;
    }
    WalkPrepends(g, a, p);
    assert WalkFromTo(g, [a] + p, a, c);
  }

  lemma ReachesAfter(g: Graph, a: Id, b: Id, c: Id)
    requires Edge(g, b, c) && (a == b || Reaches(g, a, b))
    ensures Reaches(g, a, c)
  {
    var p := [a];
    if a != b {
      p :| WalkFromTo(g, p, a, b) && |p| >= 2;
    }
    WalkExtends(g, p, c);
    assert WalkFromTo(g, p + [c], a, c);
  }

  // What a breadth-first search from `from` has established: every seen vertex is
  // as far as dist says along its parents, and processed vertices have all their
  // successors seen at most one step further.
  ghost predicate BfsTree(g: Graph, from: Id, dist: map<Id, nat>, parent: map<Id, Id>) {
    && from in dist && dist[from] == 0 && dist.Keys <= g.Keys
    && parent.Keys == dist.Keys - {from}
    && forall v :: v in parent ==>
         parent[v] in dist && Edge(g, parent[v], v) && dist[v] == dist[parent[v]] + 1
  }

  ghost predicate BfsProcessed(g: Graph, dist: map<Id, nat>, processed: set<Id>) {
    forall v, s :: v in processed && Edge(g, v, s) ==> v in dist && s in dist && dist[s] <= dist[v] + 1
  }

  // The queue is in order of distance and spans at most two distances.
  ghost predicate BfsQueue(dist: map<Id, nat>, queue: seq<Id>, d: nat) {
    && Distinct(queue)
    && (forall i :: 0 <= i < |queue| ==> queue[i] in dist && d <= dist[queue[i]] <= d + 1)
    && forall i, j :: 0 <= i < j < |queue| && queue[i] in dist && queue[j] in dist ==> dist[queue[i]] <= dist[queue[j]]
  }

  ghost predicate NoFurther(dist: map<Id, nat>, processed: set<Id>, d: nat) {
    forall v :: v in processed ==> v in dist && dist[v] <= d
  }

  // The state of a search, as one record.
  datatype Bfs = Bfs(dist: map<Id, nat>, parent: map<Id, Id>, processed: set<Id>, queue: seq<Id>)

  ghost predicate BfsCore(g: Graph, from: Id, b: Bfs) {
    && BfsTree(g, from, b.dist, b.parent)
    && BfsProcessed(g, b.dist, b.processed)
    && forall x :: x in b.queue ==> x !in b.processed
  }

  // Between two turns of the search loop.
  ghost predicate BfsTop(g: Graph, from: Id, b: Bfs) {
    && BfsCore(g, from, b)
    && b.dist.Keys == b.processed + (set x | x in b.queue)
    && (b.queue != [] && b.queue[0] in b.dist ==>
          BfsQueue(b.dist, b.queue, b.dist[b.queue[0]]) && NoFurther(b.dist, b.processed, b.dist[b.queue[0]]))
  }

  // While the successors of cur are scanned; the first k of them are seen.
  ghost predicate BfsScan(g: Graph, from: Id, b: Bfs, cur: Id, k: nat) {
    && BfsCore(g, from, b)
    && cur in b.dist && cur in g && cur !in b.processed && cur !in b.queue && k <= |g[cur].succs|
    && b.dist.Keys == b.processed + {cur} + (set x | x in b.queue)
    && BfsQueue(b.dist, b.queue, b.dist[cur]) && NoFurther(b.dist, b.processed, b.dist[cur])
    && forall i :: 0 <= i < k ==> g[cur].succs[i] in b.dist && b.dist[g[cur].succs[i]] <= b.dist[cur] + 1
  }

  lemma BfsPop(g: Graph, from: Id, b: Bfs)
    requires BfsTop(g, from, b) && b.queue != []
    ensures BfsScan(g, from, b.(queue := b.queue[1..]), b.queue[0], 0)
  {
    assert b.queue == [b.queue[0]] + b.queue[1..];
    assert b.queue[0] in b.queue;
  }

  // An unseen vertex joins the tree and the queue one step further than cur.
  lemma BfsTreeGrows(g: Graph, from: Id, dist: map<Id, nat>, parent: map<Id, Id>, cur: Id, s: Id)
    requires BfsTree(g, from, dist, parent) && cur in dist && Edge(g, cur, s) && s !in dist
    ensures BfsTree(g, from, dist[s := dist[cur] + 1], parent[s := cur])
  {
  }

  lemma BfsQueueGrows(dist: map<Id, nat>, queue: seq<Id>, d: nat, s: Id)
    requires BfsQueue(dist, queue, d) && s !in dist
    ensures BfsQueue(dist[s := d + 1], queue + [s], d)
  {
  }

  lemma BfsProcessedGrows(g: Graph, dist: map<Id, nat>, processed: set<Id>, s: Id, d: nat)
    requires BfsProcessed(g, dist, processed) && s !in dist
    ensures BfsProcessed(g, dist[s := d], processed)
  {
    forall v, t | v in processed && Edge(g, v, t)
      ensures v in dist && t in dist && dist[t] <= dist[v] + 1
    {
    }
  }

  lemma BfsDiscover(g: Graph, from: Id, b: Bfs, cur: Id, k: nat)
    requires Closed(g) && BfsScan(g, from, b, cur, k) && k < |g[cur].succs| && g[cur].succs[k] !in b.dist
    ensures var s := g[cur].succs[k];
            var next := Bfs(b.dist[s := b.dist[cur] + 1], b.parent[s := cur], b.processed, b.queue + [s]);
            BfsScan(g, from, next, cur, k + 1)
  {
    var s := g[cur].succs[k];
    assert Edge(g, cur, s);
    BfsTreeGrows(g, from, b.dist, b.parent, cur, s);
    BfsQueueGrows(b.dist, b.queue, b.dist[cur], s);
    BfsProcessedGrows(g, b.dist, b.processed, s, b.dist[cur] + 1);
    assert s !in b.processed && forall x :: x in b.queue + [s] <==> x in b.queue || x == s;
  }

  // A seen one is no further than that already.
  lemma BfsSkip(g: Graph, from: Id, b: Bfs, cur: Id, k: nat)
    requires BfsScan(g, from, b, cur, k) && k < |g[cur].succs| && g[cur].succs[k] in b.dist
    ensures BfsScan(g, from, b, cur, k + 1)
  {
  }

  lemma BfsFinish(g: Graph, from: Id, b: Bfs, cur: Id)
    requires cur in g && BfsScan(g, from, b, cur, |g[cur].succs|)
    ensures BfsTop(g, from, b.(processed := b.processed + {cur}))
  {
    var b' := b.(processed := b.processed + {cur});
    forall v, s | v in b'.processed && Edge(g, v, s)
      ensures v in b.dist && s in b.dist && b.dist[s] <= b.dist[v] + 1
    {
      if v == cur {
        var i :| 0 <= i < |g[cur].succs| && g[cur].succs[i] == s;
      }
    }
    if b.queue != [] {
      assert b.queue[0] in b.queue;
    }
  }

  // When the head of the queue is the goal, its distance is that of a shortest walk.
  lemma BfsShortest(g: Graph, from: Id, to: Id, b: Bfs, p: seq<Id>)
    requires BfsTop(g, from, b) && b.queue != [] && b.queue[0] == to
    requires WalkFromTo(g, p, from, to)
    ensures to in b.dist && b.dist[to] <= |p| - 1
  {
    assert to in b.queue;
    if |p| - 1 < b.dist[to] {
      BfsCovers(g, b.dist, b.processed, from, b.dist[to], p);
    }
  }

  // When the queue is empty, every vertex reachable from `from` was processed.
  lemma BfsExhausted(g: Graph, from: Id, b: Bfs, p: seq<Id>)
    requires BfsTop(g, from, b) && b.queue == [] && IsWalk(g, p) && p[0] == from
    ensures p[|p| - 1] in b.processed
  {
    BfsCovers(g, b.dist, b.processed, from, |p|, p);
  }

  // ------------------------------------------------------------ causal order

  function EventsOf(g: Graph, ids: seq<Id>): (r: seq<Event>)
    requires forall id :: id in ids ==> id in g
    ensures |r| == |ids|
  {
    seq(|ids|, i requires 0 <= i < |ids| => g[ids[i]].event)
  }

  predicate HashBefore(events: seq<Event>, j: nat, hash: string)
    requires j <= |events|
  {
    exists i :: 0 <= i < j && events[i].hash == hash
  }

  // Every non-empty declared hash belongs to an earlier event.
  ghost predicate CausalAt(events: seq<Event>, j: nat)
    requires j < |events|
  {
    forall h :: Declares(events[j], h) && h != "" ==> HashBefore(events, j, h)
  }

  ghost predicate CausalOrder(events: seq<Event>) {
    forall j :: 0 <= j < |events| ==> CausalAt(events, j)
  }

  // All vertices once, each after all its linked predecessors.
  ghost predicate Topological(g: Graph, order: seq<Id>) {
    && Distinct(order)
    && (forall id :: id in order <==> id in g)
    && forall j, p :: 0 <= j < |order| && order[j] in g && p in g[order[j]].preds ==> p in order[..j]
  }

  lemma CarrierInserted(st: State, k: nat, h: string)
    requires Named(st) && CausalOrder(EventsOf(st.g, st.log))
    requires k < |st.log| && h in PrevHashes(EventsOf(st.g, st.log)[k]) && h != ""
    ensures HasHash(st.g, st.log[..k], h)
  {
    var inserted := EventsOf(st.g, st.log);
    assert CausalAt(inserted, k);
    var i :| 0 <= i < k && inserted[i].hash == h;
    assert st.log[..k][i] == st.log[i];
  }

  // A prefix of a topological order.
  ghost predicate TopoPrefix(g: Graph, order: seq<Id>) {
    && Distinct(order)
    && (forall id :: id in order ==> id in g)
    && forall j, p :: 0 <= j < |order| && order[j] in g && p in g[order[j]].preds ==> p in order[..j]
  }

  lemma TopoExtends(g: Graph, order: seq<Id>, id: Id)
    requires TopoPrefix(g, order) && id in g && id !in order
    requires forall p :: p in g[id].preds ==> p in order
    ensures TopoPrefix(g, order + [id])
  {
    var next := order + [id];
    forall j, p | 0 <= j < |next| && next[j] in g && p in g[next[j]].preds
      ensures p in next[..j]
    {
      if j < |order| {
        assert next[..j] == order[..j];
      } else {
        assert next[..j] == order;
      }
    }
  }

  // A non-empty declared hash of a causally inserted event is a linked predecessor's.
  lemma CausalPredecessor(st: State, k: nat, h: string) returns (p: Id)
    requires Named(st) && k < |st.log| && LinkedAt(st, k)
    requires CausalOrder(EventsOf(st.g, st.log))
    requires h in PrevHashes(st.g[st.log[k]].event) && h != ""
    ensures p in st.g[st.log[k]].preds && p in st.g && st.g[p].event.hash == h
  {
    CarrierInserted(st, k, h);
    var v := st.g[st.log[k]];
    LinksElements(st.g, st.log[..k], PrevHashes(v.event), v.preds);
    p :| p in v.preds && st.g[p].event.hash == h;
  }

  // A topological order of a causally inserted graph is causal again.
  lemma TopologicalIsCausal(st: State, order: seq<Id>)
    requires Named(st) && Linked(st) && Topological(st.g, order)
    requires CausalOrder(EventsOf(st.g, st.log))
    ensures CausalOrder(EventsOf(st.g, order))
  {
    var sorted := EventsOf(st.g, order);
    forall j, h | 0 <= j < |order| && h in PrevHashes(sorted[j]) && h != ""
      ensures HashBefore(sorted, j, h)
    {
      assert order[j] in order;
      var k :| 0 <= k < |st.log| && st.log[k] == order[j];
      assert LinkedAt(st, k);
      var p := CausalPredecessor(st, k, h);
      var m :| 0 <= m < j && order[..j][m] == p;
      assert sorted[m].hash == h;
    }
  }

  // ------------------------------------------------------ order independence

  predicate SortedByTime(events: seq<Event>) {
    forall i, j :: 0 <= i < j < |events| ==> events[i].time <= events[j].time
  }

  ghost predicate UniqueHashes(events: seq<Event>) {
    forall e, f :: e in events && f in events && e.hash == f.hash ==> e == f
  }

  // Each event is later than those it names.
  ghost predicate NamesEarlier(events: seq<Event>) {
    forall e, f :: e in events && f in events && Declares(e, f.hash) ==> f.time < e.time
  }

  lemma CarrierEarlier(events: seq<Event>, i: nat, j: nat)
    requires i < |events| && j < |events|
    requires SortedByTime(events) && NamesEarlier(events) && events[i].hash in PrevHashes(events[j])
    ensures i < j
  {
    assert events[i] in events && events[j] in events;
  }

  // With time-sorted insertion every declared predecessor in the input is linked.
  lemma LinksComplete(st: State, j: nat)
    requires Named(st) && j < |st.log| && LinkedAt(st, j)
    requires SortedByTime(EventsOf(st.g, st.log)) && NamesEarlier(EventsOf(st.g, st.log))
    ensures Links(st.g, st.log, PrevHashes(st.g[st.log[j]].event), st.g[st.log[j]].preds)
  {
    var v := st.g[st.log[j]];
    var events := EventsOf(st.g, st.log);
    forall h | h in PrevHashes(v.event) && HasHash(st.g, st.log, h)
      ensures HasHash(st.g, st.log[..j], h)
    {
      var i :| 0 <= i < |st.log| && st.log[i] in st.g && st.g[st.log[i]].event.hash == h;
      CarrierEarlier(events, i, j);
      assert st.log[..j][i] == st.log[i];
    }
    LinksWiden(st.g, st.log, j, PrevHashes(v.event), v.preds);
  }

  lemma {:induction false} LinksWiden(g: Graph, log: seq<Id>, j: nat, hashes: seq<string>, preds: seq<Id>)
    requires j <= |log| && Links(g, log[..j], hashes, preds)
    requires forall h :: h in hashes && HasHash(g, log, h) ==> HasHash(g, log[..j], h)
    ensures Links(g, log, hashes, preds)
    decreases |hashes|
  {
    if hashes != [] {
      var h := hashes[0];
      assert hashes == [h] + hashes[1..];
      if HasHash(g, log[..j], h) {
        var i :| 0 <= i < j && log[..j][i] in g && g[log[..j][i]].event.hash == h;
        assert log[i] == log[..j][i];
        LinksWiden(g, log, j, hashes[1..], preds[1..]);
      } else {
        LinksWiden(g, log, j, hashes[1..], preds);
      }
    }
  }

  // Two graphs over the same events, whatever the order they were inserted in.
  ghost predicate SameEvents(s: State, t: State) {
    && s.g.Keys == t.g.Keys
    && forall id :: id in s.g && id in t.g ==> s.g[id].event == t.g[id].event
  }

  lemma {:induction false} LinksUnique(s: State, t: State, hashes: seq<string>, p: seq<Id>, q: seq<Id>)
    requires Named(s) && Named(t) && SameEvents(s, t) && UniqueHashes(EventsOf(s.g, s.log))
    requires Links(s.g, s.log, hashes, p) && Links(t.g, t.log, hashes, q)
    ensures p == q
    decreases |hashes|
  {
    if hashes != [] {
      var h := hashes[0];
      assert HasHash(s.g, s.log, h) <==> HasHash(t.g, t.log, h) by {
        CarrierMoves(s, t, h);
        CarrierMoves(t, s, h);
      }
      if HasHash(s.g, s.log, h) {
        CarrierUnique(s, p[0], q[0]);
        LinksUnique(s, t, hashes[1..], p[1..], q[1..]);
        assert p == [p[0]] + p[1..] && q == [q[0]] + q[1..];
      } else {
        LinksUnique(s, t, hashes[1..], p, q);
      }
    }
  }

  lemma CarrierMoves(s: State, t: State, h: string)
    requires Named(s) && Named(t) && SameEvents(s, t)
    ensures HasHash(s.g, s.log, h) ==> HasHash(t.g, t.log, h)
  {
    if HasHash(s.g, s.log, h) {
      var i :| 0 <= i < |s.log| && s.log[i] in s.g && s.g[s.log[i]].event.hash == h;
      var k :| 0 <= k < |t.log| && t.log[k] == s.log[i];
    }
  }

  lemma CarrierUnique(s: State, a: Id, b: Id)
    requires Named(s) && UniqueHashes(EventsOf(s.g, s.log)) && a in s.g && b in s.g
    requires s.g[a].event.hash == s.g[b].event.hash
    ensures a == b
  {
    var i :| 0 <= i < |s.log| && s.log[i] == a;
    var j :| 0 <= j < |s.log| && s.log[j] == b;
    var events := EventsOf(s.g, s.log);
    assert events[i] in events && events[j] in events;
  }

  ghost predicate PredsAgree(g: Graph, g': Graph) {
    g.Keys == g'.Keys && forall id :: id in g && id in g' ==> g[id].preds == g'[id].preds
  }

  lemma {:induction false} SameDepth(s: State, t: State, j: nat)
    requires Named(s) && Linked(s) && PredsAgree(s.g, t.g)
    requires Closed(s.g) && Closed(t.g) && Depths(s.g) && Depths(t.g)
    requires j < |s.log| && s.log[j] in s.g && s.log[j] in t.g
    ensures s.g[s.log[j]].depth == t.g[s.log[j]].depth
  {
    assert LinkedAt(s, j);
    var preds := s.g[s.log[j]].preds;
    forall p | p in preds
      ensures p in s.g && p in t.g && s.g[p].depth == t.g[p].depth
    {
      var i :| 0 <= i < j && s.log[..j][i] == p;
      assert s.log[i] in s.log;
      SameDepth(s, t, i);
    }
    DepthFromAgrees(s.g, t.g, preds);
  }

  lemma {:induction false} DepthFromAgrees(g: Graph, g': Graph, preds: seq<Id>)
    requires forall p :: p in preds ==> p in g && p in g' && g[p].depth == g'[p].depth
    ensures DepthFrom(g, preds) == DepthFrom(g', preds)
  {
    if preds != [] {
      assert preds[|preds| - 1] in preds;
      DepthFromAgrees(g, g', preds[..|preds| - 1]);
    }
  }

  // Linked insertion orders that sort the events by time.
  ghost predicate TimeOrdered(st: State) {
    && Named(st) && Linked(st)
    && SortedByTime(EventsOf(st.g, st.log))
    && UniqueHashes(EventsOf(st.g, st.log)) && NamesEarlier(EventsOf(st.g, st.log))
  }

  lemma FullyLinked(st: State, id: Id)
    requires TimeOrdered(st) && id in st.g
    ensures Links(st.g, st.log, PrevHashes(st.g[id].event), st.g[id].preds)
  {
    var i :| 0 <= i < |st.log| && st.log[i] == id;
    assert LinkedAt(st, i);
    LinksComplete(st, i);
  }

  lemma SamePreds(s: State, t: State)
    requires TimeOrdered(s) && TimeOrdered(t) && SameEvents(s, t)
    ensures PredsAgree(s.g, t.g)
  {
    forall id | id in s.g
      ensures s.g[id].preds == t.g[id].preds
    {
      FullyLinked(s, id);
      FullyLinked(t, id);
      LinksUnique(s, t, PrevHashes(s.g[id].event), s.g[id].preds, t.g[id].preds);
    }
  }

  lemma SameDepths(s: State, t: State)
    requires Named(s) && Linked(s) && PredsAgree(s.g, t.g)
    requires Closed(s.g) && Closed(t.g) && Depths(s.g) && Depths(t.g)
    ensures forall id :: id in s.g && id in t.g ==> s.g[id].depth == t.g[id].depth
  {
    forall id | id in s.g
      ensures s.g[id].depth == t.g[id].depth
    {
      var i :| 0 <= i < |s.log| && s.log[i] == id;
      SameDepth(s, t, i);
    }
  }

  ghost predicate SuccsAgree(g: Graph, g': Graph) {
    forall id :: id in g && id in g' ==> multiset(g[id].succs) == multiset(g'[id].succs)
  }

  lemma SameSuccs(g: Graph, g': Graph)
    requires Mirror(g) && Mirror(g') && Closed(g) && Closed(g') && PredsAgree(g, g')
    ensures SuccsAgree(g, g')
  {
    forall id, b | id in g
      ensures multiset(g[id].succs)[b] == multiset(g'[id].succs)[b]
    {
      if b in g {
        assert multiset(g[id].succs)[b] == multiset(g[b].preds)[id];
        assert multiset(g'[id].succs)[b] == multiset(g'[b].preds)[id];
      } else {
        assert b !in g[id].succs && b !in g'[id].succs;
      }
    }
  }

  lemma SameEnds(s: State, t: State)
    requires LeavesExact(s.g, s.leaves) && LeavesExact(t.g, t.leaves) && SuccsAgree(s.g, t.g)
    requires s.roots == RootsOf(s.g, s.log) && t.roots == RootsOf(t.g, t.log)
    requires Named(s) && Named(t) && SameEvents(s, t)
    ensures forall id :: (id in s.leaves <==> id in t.leaves) && (id in s.roots <==> id in t.roots)
  {
    RootsExact(s.g, s.log);
    RootsExact(t.g, t.log);
    forall id | id in s.g
      ensures s.g[id].succs == [] <==> t.g[id].succs == []
    {
      assert |multiset(s.g[id].succs)| == |s.g[id].succs| && |multiset(t.g[id].succs)| == |t.g[id].succs|;
    }
  }

  lemma EventsMove(s: State, t: State)
    requires Named(s) && Named(t)
    requires forall e :: e in EventsOf(s.g, s.log) ==> e in EventsOf(t.g, t.log)
    ensures forall id :: id in s.g ==> id in t.g && t.g[id].event == s.g[id].event
  {
    forall id | id in s.g
      ensures id in t.g && t.g[id].event == s.g[id].event
    {
      var i :| 0 <= i < |s.log| && s.log[i] == id;
      var e := EventsOf(s.g, s.log)[i];
      assert e in EventsOf(t.g, t.log);
      var k :| 0 <= k < |t.log| && EventsOf(t.g, t.log)[k] == e;
      assert t.log[k] in t.log;
    }
  }

  lemma PermutedEvents(s: State, t: State)
    requires Named(s) && Named(t)
    requires multiset(EventsOf(s.g, s.log)) == multiset(EventsOf(t.g, t.log))
    ensures SameEvents(s, t)
  {
    var a, b := EventsOf(s.g, s.log), EventsOf(t.g, t.log);
    assert forall e :: e in a <==> e in multiset(a);
    assert forall e :: e in b <==> e in multiset(b);
    EventsMove(s, t);
    EventsMove(t, s);
  }

  // Two DAGs built by time-sorted insertion of the same events, given in any order
  // and with ties broken in any way, are the same graph: only the order within the
  // successor, root and leaf lists may differ.
  lemma PermutationIndependent(s: State, t: State)
    requires Reachable(s) && Reachable(t) && TimeOrdered(s) && TimeOrdered(t)
    requires multiset(EventsOf(s.g, s.log)) == multiset(EventsOf(t.g, t.log))
    ensures SameEvents(s, t) && PredsAgree(s.g, t.g) && SuccsAgree(s.g, t.g)
    ensures forall id :: id in s.g && id in t.g ==> s.g[id].depth == t.g[id].depth
    ensures forall id :: (id in s.leaves <==> id in t.leaves) && (id in s.roots <==> id in t.roots)
  {
    PermutedEvents(s, t);
    SamePreds(s, t);
    ReachableInv(s);
    ReachableInv(t);
    SameDepths(s, t);
    SameSuccs(s.g, t.g);
    SameEnds(s, t);
  }
}
