// server/internal/dag/dag.go: the DAG object, proved against the graph of
// EventGraph. The node a Go pointer leads to is the vertex stored under its event
// ID. Iteration over a Go map is an arbitrary choice of key.
module Dag {
  import opened EventGraph
  import opened GraphTheorems
  import opened Sequences

  datatype PathResult = Found(path: seq<Event>) | FromNotFound | ToNotFound | NoPath

  datatype SearchResult = Events(events: seq<Event>) | ErrEventNotFound

  datatype AddResult = Added | ErrDuplicateEvent | ErrCycleDetected

  class DAG {
    var nodes: Graph
    var roots: seq<Id>
    var leaves: seq<Id>
    ghost var log: seq<Id>

    ghost function Abs(): State
      reads this
    {
      State(nodes, roots, leaves, log)
    }

    // Reachable implies the invariant Inv, by ReachableInv.
    ghost predicate Valid()
      reads this
    {
      Reachable(Abs())
    }

    constructor ()
      ensures Valid() && Abs() == EMPTY
    {
      nodes, roots, leaves, log := map[], [], [], [];
    }

    // ---------------------------------------------------------------- AddEvent

    method FindNodeByHash(hash: string) returns (found: seq<Id>)
      ensures |found| <= 1
      ensures found != [] ==> found[0] in nodes && nodes[found[0]].event.hash == hash
      ensures found == [] ==> forall id :: id in nodes ==> nodes[id].event.hash != hash
    {
      var todo := nodes.Keys;
      while todo != {}
        invariant todo <= nodes.Keys
        invariant forall id :: id in nodes && id !in todo ==> nodes[id].event.hash != hash
      {
        var id :| id in todo;
        if nodes[id].event.hash == hash {
          return [id];
        }
        todo := todo - {id};
      }
      return [];
    }

    // The new node as linked so far, and what its links have added to the graph.
    ghost predicate LinkedSoFar(node: Vertex, newNode: Vertex, g: Graph)
      reads this
    {
      && node == newNode.(preds := node.preds, depth := node.depth)
      && (forall p :: p in node.preds ==> p in g)
      && node.depth == DepthFrom(g, node.preds)
      && nodes == WithSuccessor(g, node.preds, node.event.id)
    }

    method LinkTo(pred: Id, node0: Vertex, ghost newNode: Vertex, ghost g: Graph) returns (node: Vertex)
      requires LinkedSoFar(node0, newNode, g) && pred in nodes
      modifies this`nodes
      ensures LinkedSoFar(node, newNode, g) && node.preds == node0.preds + [pred]
    {
      DepthStep(g, node0.preds, pred);
      WithSuccessorStep(g, node0.preds, pred, node0.event.id);
      node := node0.(preds := node0.preds + [pred]);
      nodes := nodes[pred := nodes[pred].(succs := nodes[pred].succs + [node.event.id])];
      if nodes[pred].depth + 1 > node.depth {
        node := node.(depth := nodes[pred].depth + 1);
      }
    }

    // Links a new node to one event per declared hash that some node carries.
    method LinkPredecessors(newNode: Vertex, ghost st: State) returns (node: Vertex)
      requires Named(st) && nodes == st.g && newNode == Vertex(newNode.event, [], [], 0)
      modifies this`nodes
      ensures LinkedSoFar(node, newNode, st.g)
      ensures Links(st.g, st.log, PrevHashes(node.event), node.preds)
    {
      node := newNode;
      var prevHashes := PrevHashes(node.event);
      LinkedToNone(st.g, node.event.id);
      for k := 0 to |prevHashes|
        invariant LinkedSoFar(node, newNode, st.g)
        invariant Links(st.g, st.log, prevHashes[..k], node.preds)
      {
        var found := FindNodeByHash(prevHashes[k]);
        if found == [] {
          LinkStep(st, prevHashes, k, node.preds, []);
          assert node.preds + [] == node.preds;
          continue;  // an orphan reference
        }
        LinkStep(st, prevHashes, k, node.preds, [found[0]]);
        node := LinkTo(found[0], node, newNode, st.g);
      }
      assert prevHashes[..|prevHashes|] == prevHashes;
    }

    // Drops the leaves that got a successor and adds the new node if it has none.
    method UpdateLeaves(newNode: Vertex)
      requires forall k :: 0 <= k < |leaves| ==> leaves[k] in nodes
      modifies this`leaves
      ensures leaves == StillLeaves(nodes, old(leaves)) + (if newNode.succs == [] then [newNode.event.id] else [])
    {
      var newLeaves: seq<Id> := [];
      for k := 0 to |leaves|
        invariant leaves == old(leaves)
        invariant newLeaves == StillLeaves(nodes, leaves[..k])
      {
        assert leaves[..k + 1][..k] == leaves[..k];
        if |nodes[leaves[k]].succs| == 0 {
          newLeaves := newLeaves + [leaves[k]];
        }
      }
      assert leaves[..|leaves|] == leaves;
      if |newNode.succs| == 0 {
        newLeaves := newLeaves + [newNode.event.id];
      }
      leaves := newLeaves;
    }

    // Depth-first over successors; `visited` holds the vertices of the current path.
    method HasCycleFrom(id: Id, visited: set<Id>) returns (r: bool)
      requires Closed(nodes) && id in nodes && visited <= nodes.Keys
      ensures r <==> exists p :: Returns(nodes, p, id, visited)
      decreases nodes.Keys - visited
    {
      if id in visited {
        assert Returns(nodes, [id], id, visited);
        return true;
      }
      var path := visited + {id};
      for k := 0 to |nodes[id].succs|
        invariant forall i, p :: 0 <= i < k ==> !Returns(nodes, p, nodes[id].succs[i], path)
      {
        var succ := nodes[id].succs[k];
        var found := HasCycleFrom(succ, path);
        if found {
          ghost var p :| Returns(nodes, p, succ, path);
          ReturnsPrepends(nodes, id, p, visited);
          return true;
        }
      }
      forall p | Returns(nodes, p, id, visited)
        ensures false
      {
        ReturnsRest(nodes, id, p, visited);
      }
      return false;
    }

    method Attach(evt: Event, ghost st: State) returns (ghost preds: seq<Id>)
      requires Named(st) && Abs() == st && evt.id !in nodes
      requires forall id :: id in leaves ==> id in nodes
      modifies this
      ensures forall p :: p in preds ==> p in st.g
      ensures Links(st.g, st.log, PrevHashes(evt), preds)
      ensures Abs() == Insert(st, evt, preds)
    {
      var node := Vertex(evt, [], [], 0);
      var prevHashes := PrevHashes(evt);
      if |prevHashes| == 0 {
        roots := roots + [evt.id];
        LinkedToNone(st.g, evt.id);
      } else {
        node := LinkPredecessors(node, st);
      }
      preds := node.preds;
      ghost var linked := nodes;
      nodes := nodes[evt.id := node];
      log := log + [evt.id];
      StillLeavesAgree(linked, nodes, leaves);
      UpdateLeaves(node);
    }

    method AddEvent(evt: Event) returns (r: AddResult, ghost preds: seq<Id>)
      requires Valid()
      modifies this
      ensures Valid()
      ensures r != ErrCycleDetected
      ensures r == ErrDuplicateEvent <==> evt.id in old(nodes)
      ensures r == ErrDuplicateEvent ==> Abs() == old(Abs())
      ensures r == Added ==>
                && (forall p :: p in preds ==> p in old(nodes))
                && Abs() == Insert(old(Abs()), evt, preds)
      // the list of hashes wins over the single one; without either the event is a root
      ensures r == Added && evt.prevHashes != [] ==> Links(old(nodes), old(log), evt.prevHashes, preds)
      ensures r == Added && evt.prevHashes == [] && evt.prevHash != "" ==>
                Links(old(nodes), old(log), [evt.prevHash], preds)
      ensures r == Added && evt.prevHashes == [] && evt.prevHash == "" ==> preds == [] && roots == old(roots) + [evt.id]
      ensures r == Added && (evt.prevHashes != [] || evt.prevHash != "") ==> roots == old(roots)
    {
      if evt.id in nodes {
        return ErrDuplicateEvent, [];
      }
      ghost var st := Abs();
      assert Named(st) && LeavesExact(st.g, st.leaves) by { ReachableInv(st); }
      preds := Attach(evt, st);
      ReachableNext(st, evt, preds);
      ReachableRanked(Abs());
      var cyclic := HasCycleFrom(evt.id, {});
      NothingReturns(nodes, evt.id);
      assert !cyclic;  // so the branch that removes the node again is dead
      r := Added;
    }

    // --------------------------------------------------------- TopologicalSort

    // Appends the vertex after its unvisited predecessors. `stack` holds the
    // vertices whose visit has begun; they all lie deeper.
    method Visit(id: Id, visited0: set<Id>, order0: seq<Id>, ghost stack: set<Id>)
      returns (visited: set<Id>, order: seq<Id>)
      requires Deepening(nodes) && id in nodes
      requires TopoPrefix(nodes, order0) && visited0 == stack + (set x | x in order0)
      requires forall s :: s in stack ==> s in nodes && s !in order0 && nodes[s].depth > nodes[id].depth
      ensures TopoPrefix(nodes, order) && visited == stack + (set x | x in order)
      ensures forall s :: s in stack ==> s !in order
      ensures order0 <= order && id in order
      decreases nodes[id].depth
    {
      visited, order := visited0, order0;
      if id in visited {
        return;
      }
      visited := visited + {id};
      for k := 0 to |nodes[id].preds|
        invariant TopoPrefix(nodes, order) && visited == stack + {id} + (set x | x in order)
        invariant forall s :: s in stack + {id} ==> s !in order
        invariant order0 <= order && forall i :: 0 <= i < k ==> nodes[id].preds[i] in order
      {
        var pred := nodes[id].preds[k];
        assert pred in nodes[id].preds;
        visited, order := Visit(pred, visited, order, stack + {id});
      }
      TopoExtends(nodes, order, id);
      order := order + [id];
    }

    method VisitAll() returns (ids: seq<Id>)
      requires Deepening(nodes)
      ensures Topological(nodes, ids)
    {
      var visited: set<Id> := {};
      ids := [];
      var todo := nodes.Keys;
      while todo != {}
        invariant TopoPrefix(nodes, ids) && visited == (set x | x in ids)
        invariant todo <= nodes.Keys && forall id :: id in nodes && id !in todo ==> id in ids
      {
        var id :| id in todo;
        visited, ids := Visit(id, visited, ids, {});
        todo := todo - {id};
      }
    }

    method TopologicalSort() returns (result: seq<Event>, ghost order: seq<Id>)
      requires Valid()
      ensures Topological(nodes, order) && result == EventsOf(nodes, order)
      ensures Named(Abs()) && (CausalOrder(EventsOf(nodes, log)) ==> CausalOrder(result))
    {
      ReachableRanked(Abs());
      var ids := VisitAll();
      order := ids;
      result := EventsOf(nodes, ids);
      ReachableInv(Abs());
      if CausalOrder(EventsOf(nodes, log)) {
        TopologicalIsCausal(Abs(), order);
      }
    }

    // ----------------------------------------------------------------- GetPath

    // The path found is a shortest one, and there is none exactly when the goal is
    // unreachable.
    method GetPath(from: Id, to: Id) returns (r: PathResult, ghost walk: seq<Id>)
      requires Valid()
      ensures r == FromNotFound <==> from !in nodes
      ensures r == ToNotFound <==> from in nodes && to !in nodes
      ensures r.Found? ==> WalkFromTo(nodes, walk, from, to) && r.path == EventsOf(nodes, walk)
      ensures r.Found? ==> forall p :: WalkFromTo(nodes, p, from, to) ==> |walk| <= |p|
      ensures r == NoPath ==> forall p :: !WalkFromTo(nodes, p, from, to)
    {
      if from !in nodes {
        return FromNotFound, [];
      }
      if to !in nodes {
        return ToNotFound, [];
      }
      ReachableRanked(Abs());
      var path := Search(from, to);
      walk := path;
      r := if path == [] then NoPath else Found(EventsOf(nodes, path));
    }

    // Breadth-first search; the empty path says there is none.
    method Search(from: Id, to: Id) returns (path: seq<Id>)
      requires Closed(nodes) && from in nodes && to in nodes
      ensures path != [] ==> WalkFromTo(nodes, path, from, to)
      ensures path != [] ==> forall p :: WalkFromTo(nodes, p, from, to) ==> |path| <= |p|
      ensures path == [] ==> forall p :: !WalkFromTo(nodes, p, from, to)
    {
      var parent: map<Id, Id> := map[];
      var queue := [from];
      var visited := {from};
      ghost var b := Bfs(map[from := 0], parent, {}, queue);
      while |queue| > 0
        invariant BfsTop(nodes, from, b) && b.parent == parent && b.queue == queue
        invariant visited == b.dist.Keys && to !in b.processed
        decreases nodes.Keys - b.processed
      {
        var current := queue[0];
        BfsPop(nodes, from, b);
        if current == to {
          forall p | WalkFromTo(nodes, p, from, to)
            ensures b.dist[to] <= |p| - 1
          {
            BfsShortest(nodes, from, to, b, p);
          }
          path := WalkBack(from, to, parent, b.dist);
          return;
        }
        queue, visited, parent, b := Expand(current, queue[1..], visited, parent, from, b.(queue := queue[1..]));
      }
      forall p
        ensures !WalkFromTo(nodes, p, from, to)
      {
        if WalkFromTo(nodes, p, from, to) {
          BfsExhausted(nodes, from, b, p);
        }
      }
      path := [];
    }

    // Queues the unvisited successors of the current vertex.
    method Expand(current: Id, queue0: seq<Id>, visited0: set<Id>, parent0: map<Id, Id>, ghost from: Id, ghost b0: Bfs)
      returns (queue: seq<Id>, visited: set<Id>, parent: map<Id, Id>, ghost b: Bfs)
      requires Closed(nodes) && BfsScan(nodes, from, b0, current, 0)
      requires visited0 == b0.dist.Keys && b0.parent == parent0 && b0.queue == queue0
      ensures BfsTop(nodes, from, b) && visited == b.dist.Keys && b.parent == parent && b.queue == queue
      ensures b.processed == b0.processed + {current}
    {
      queue, visited, parent, b := queue0, visited0, parent0, b0;
      for k := 0 to |nodes[current].succs|
        invariant BfsScan(nodes, from, b, current, k) && b.processed == b0.processed
        invariant visited == b.dist.Keys && b.parent == parent && b.queue == queue
      {
        var succ := nodes[current].succs[k];
        if succ !in visited {
          BfsDiscover(nodes, from, b, current, k);
          visited := visited + {succ};
          parent := parent[succ := current];
          queue := queue + [succ];
          b := Bfs(b.dist[succ := b.dist[current] + 1], parent, b.processed, queue);
        } else {
          BfsSkip(nodes, from, b, current, k);
        }
      }
      BfsFinish(nodes, from, b, current);
      b := b.(processed := b.processed + {current});
    }

    // Follows the parents from the goal back to the start.
    method WalkBack(from: Id, to: Id, parent: map<Id, Id>, ghost dist: map<Id, nat>) returns (path: seq<Id>)
      requires BfsTree(nodes, from, dist, parent) && to in dist
      ensures WalkFromTo(nodes, path, from, to) && |path| == dist[to] + 1
    {
      var n := to;
      path := [to];
      while n in parent
        invariant n in dist && WalkFromTo(nodes, path, n, to) && |path| + dist[n] == dist[to] + 1
        decreases dist[n]
      {
        WalkPrepends(nodes, parent[n], path);
        n := parent[n];
        path := [n] + path;
      }
    }

    // ------------------------------------------- GetAncestors, GetDescendants

    method CollectAncestors(n: Id, visited0: set<Id>, found0: seq<Id>, ghost start: Id, ghost stack: set<Id>)
      returns (visited: set<Id>, found: seq<Id>)
      requires Closed(nodes) && PredEdges(nodes) && n in nodes && n in stack
      requires n == start || Reaches(nodes, n, start)
      requires Lists(found0, visited0) && visited0 <= nodes.Keys
      requires forall x :: x in visited0 ==> Reaches(nodes, x, start)
      requires PredsWithin(nodes, visited0, stack)
      ensures Lists(found, visited) && visited0 <= visited <= nodes.Keys
      ensures forall x :: x in visited ==> Reaches(nodes, x, start)
      ensures PredsWithin(nodes, visited, stack)
      ensures forall a :: a in nodes[n].preds ==> a in visited
      decreases nodes.Keys - visited0
    {
      visited, found := visited0, found0;
      for k := 0 to |nodes[n].preds|
        invariant Lists(found, visited) && visited0 <= visited <= nodes.Keys
        invariant forall x :: x in visited ==> Reaches(nodes, x, start)
        invariant PredsWithin(nodes, visited, stack)
        invariant forall i :: 0 <= i < k ==> nodes[n].preds[i] in visited
      {
        var next := nodes[n].preds[k];
        assert next in nodes[n].preds;
        if next !in visited {
          ReachesBefore(nodes, next, n, start);
          assert next in nodes.Keys - visited0;
          visited, found := CollectAncestors(next, visited + {next}, found + [next], start, stack + {next});
        }
      }
    }

    method CollectDescendants(n: Id, visited0: set<Id>, found0: seq<Id>, ghost start: Id, ghost stack: set<Id>)
      returns (visited: set<Id>, found: seq<Id>)
      requires Closed(nodes) && n in nodes && n in stack
      requires n == start || Reaches(nodes, start, n)
      requires Lists(found0, visited0) && visited0 <= nodes.Keys
      requires forall x :: x in visited0 ==> Reaches(nodes, start, x)
      requires SuccsWithin(nodes, visited0, stack)
      ensures Lists(found, visited) && visited0 <= visited <= nodes.Keys
      ensures forall x :: x in visited ==> Reaches(nodes, start, x)
      ensures SuccsWithin(nodes, visited, stack)
      ensures forall a :: a in nodes[n].succs ==> a in visited
      decreases nodes.Keys - visited0
    {
      visited, found := visited0, found0;
      for k := 0 to |nodes[n].succs|
        invariant Lists(found, visited) && visited0 <= visited <= nodes.Keys
        invariant forall x :: x in visited ==> Reaches(nodes, start, x)
        invariant SuccsWithin(nodes, visited, stack)
        invariant forall i :: 0 <= i < k ==> nodes[n].succs[i] in visited
      {
        var next := nodes[n].succs[k];
        assert next in nodes[n].succs;
        if next !in visited {
          assert Edge(nodes, n, next);
          ReachesAfter(nodes, start, n, next);
          assert next in nodes.Keys - visited0;
          visited, found := CollectDescendants(next, visited + {next}, found + [next], start, stack + {next});
        }
      }
    }

    method GetAncestors(id: Id) returns (r: SearchResult, ghost found: seq<Id>)
      requires Valid()
      ensures r == ErrEventNotFound <==> id !in nodes
      ensures r.Events? ==> Distinct(found) && forall a :: a in found <==> Reaches(nodes, a, id)
      ensures r.Events? ==> (forall a :: a in found ==> a in nodes) && r.events == EventsOf(nodes, found)
    {
      if id !in nodes {
        return ErrEventNotFound, [];
      }
      ReachableRanked(Abs());
      var visited, ids := CollectAncestors(id, {}, [], id, {id});
      forall a | Reaches(nodes, a, id)
        ensures a in ids
      {
        var p :| WalkFromTo(nodes, p, a, id) && |p| >= 2;
        AncestorsWithin(nodes, visited, id, p);
      }
      found := ids;
      r := Events(EventsOf(nodes, ids));
    }

    method GetDescendants(id: Id) returns (r: SearchResult, ghost found: seq<Id>)
      requires Valid()
      ensures r == ErrEventNotFound <==> id !in nodes
      ensures r.Events? ==> Distinct(found) && forall b :: b in found <==> Reaches(nodes, id, b)
      ensures r.Events? ==> (forall b :: b in found ==> b in nodes) && r.events == EventsOf(nodes, found)
    {
      if id !in nodes {
        return ErrEventNotFound, [];
      }
      ReachableRanked(Abs());
      var visited, ids := CollectDescendants(id, {}, [], id, {id});
      forall b | Reaches(nodes, id, b)
        ensures b in ids
      {
        var p :| WalkFromTo(nodes, p, id, b) && |p| >= 2;
        DescendantsWithin(nodes, visited, id, p);
      }
      found := ids;
      r := Events(EventsOf(nodes, ids));
    }

    // ------------------------------------------------------- parallel groups

    // The events (by ID) at each depth that occurs.
    method GetEventsByDepth() returns (groups: map<nat, seq<Id>>)
      ensures forall id :: id in nodes ==> nodes[id].depth in groups
      ensures forall d :: d in groups ==> groups[d] != [] && DepthGroup(nodes, groups[d], d)
    {
      groups := map[];
      var todo := nodes.Keys;
      while todo != {}
        invariant todo <= nodes.Keys
        invariant forall id :: id in nodes && id !in todo ==> nodes[id].depth in groups
        invariant forall d :: d in groups ==> groups[d] != [] && Distinct(groups[d])
        invariant forall d, id :: d in groups ==>
                    (id in groups[d] <==> id in nodes && id !in todo && nodes[id].depth == d)
      {
        var id :| id in todo;
        var d := nodes[id].depth;
        groups := groups[d := (if d in groups then groups[d] else []) + [id]];
        todo := todo - {id};
      }
    }

    // The groups with more than one event, shallowest first.
    method SharedDepths(groups: map<nat, seq<Id>>) returns (result: seq<seq<Id>>, ghost depths: seq<nat>)
      requires forall d :: d in groups ==> DepthGroup(nodes, groups[d], d)
      ensures |depths| == |result| && forall i, j :: 0 <= i < j < |depths| ==> depths[i] < depths[j]
      ensures forall i :: 0 <= i < |result| ==> |result[i]| > 1 && DepthGroup(nodes, result[i], depths[i])
      ensures forall d :: d in groups && |groups[d]| > 1 ==> d in depths
    {
      var sorted := SortInts(groups.Keys);
      result, depths := [], [];
      for k := 0 to |sorted|
        invariant |depths| == |result| && forall i, j :: 0 <= i < j < |depths| ==> depths[i] < depths[j]
        invariant forall x :: x in depths ==> x in sorted[..k]
        invariant forall i :: 0 <= i < |result| ==> |result[i]| > 1 && DepthGroup(nodes, result[i], depths[i])
        invariant forall x :: x in sorted[..k] && |groups[x]| > 1 ==> x in depths
      {
        var d := sorted[k];
        assert forall x :: x in sorted[..k] ==> x < d;
        TakeNext(sorted, k);
        if |groups[d]| > 1 {
          AscendsTo(depths, sorted[..k], d);
          result, depths := result + [groups[d]], depths + [d];
        }
      }
      assert sorted[..|sorted|] == sorted;
    }

    // All groups of events that share a depth; no two events of one group are
    // connected by a path.
    method GetParallelEvents() returns (result: seq<seq<Id>>, ghost depths: seq<nat>)
      requires Valid()
      ensures |depths| == |result| && forall i, j :: 0 <= i < j < |depths| ==> depths[i] < depths[j]
      ensures forall i :: 0 <= i < |result| ==> |result[i]| > 1 && DepthGroup(nodes, result[i], depths[i])
      ensures forall a, b :: a in nodes && b in nodes && a != b && nodes[a].depth == nodes[b].depth ==>
                nodes[a].depth in depths
      ensures forall i, a, b :: 0 <= i < |result| && a in result[i] && b in result[i] ==> !Reaches(nodes, a, b)
    {
      ReachableRanked(Abs());
      var groups := GetEventsByDepth();
      result, depths := SharedDepths(groups);
      forall a, b | a in nodes && b in nodes && a != b && nodes[a].depth == nodes[b].depth
        ensures nodes[a].depth in depths
      {
        var d := nodes[a].depth;
        assert DepthGroup(nodes, groups[d], d);
        TwoMembers(groups[d], a, b);
      }
      forall i, a, b | 0 <= i < |result| && a in result[i] && b in result[i]
        ensures !Reaches(nodes, a, b)
      {
        assert DepthGroup(nodes, result[i], depths[i]);
        SameDepthUnrelated(nodes, a, b);
      }
    }
  }

  lemma AscendsTo(depths: seq<nat>, below: seq<nat>, d: nat)
    requires forall i, j :: 0 <= i < j < |depths| ==> depths[i] < depths[j]
    requires forall x :: x in depths ==> x in below
    requires forall x :: x in below ==> x < d
    ensures forall i, j :: 0 <= i < j < |depths + [d]| ==> (depths + [d])[i] < (depths + [d])[j]
  {
    assert forall i :: 0 <= i < |depths| ==> depths[i] in depths;
  }

  lemma TwoMembers(s: seq<Id>, a: Id, b: Id)
    requires a in s && b in s && a != b
    ensures |s| > 1
  {
    var i :| 0 <= i < |s| && s[i] == a;
    var j :| 0 <= j < |s| && s[j] == b;
    assert i != j;
  }

  ghost predicate DepthGroup(g: Graph, group: seq<Id>, d: nat) {
    Distinct(group) && forall id :: id in group <==> id in g && g[id].depth == d
  }

  // sort.Ints on the keys of a map.
  method SortInts(s: set<nat>) returns (r: seq<nat>)
    ensures forall x :: x in r <==> x in s
    ensures forall i, j :: 0 <= i < j < |r| ==> r[i] < r[j]
  {
    r := [];
    var rest := s;
    while rest != {}
      invariant rest <= s && forall x :: x in s <==> x in rest || x in r
      invariant forall i, j :: 0 <= i < j < |r| ==> r[i] < r[j]
      invariant forall i, x :: 0 <= i < |r| && x in rest ==> r[i] < x
    {
      var least :| least in rest;
      var others := rest - {least};
      while others != {}
        invariant least in rest && others <= rest
        invariant forall x :: x in rest && x !in others ==> least <= x
      {
        var x :| x in others;
        if x < least {
          least := x;
        }
        others := others - {x};
      }
      r := r + [least];
      rest := rest - {least};
    }
  }
}
