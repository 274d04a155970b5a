// server/internal/dag/validator.go: the causal-order check and the construction of
// a DAG from a list of events.
module Validator {
  import opened EventGraph
  import opened GraphTheorems
  import opened Dag
  import opened Sequences

  // Every non-empty hash in the list belongs to an earlier event; without a list the
  // single hash does.
  ghost predicate NamesSeen(events: seq<Event>, j: nat)
    requires j < |events|
  {
    var e := events[j];
    && (forall k :: 0 <= k < |e.prevHashes| && e.prevHashes[k] != "" ==> HashBefore(events, j, e.prevHashes[k]))
    && (e.prevHashes == [] && e.prevHash != "" ==> HashBefore(events, j, e.prevHash))
  }

  lemma CausalByFields(events: seq<Event>)
    ensures CausalOrder(events) <==> forall j :: 0 <= j < |events| ==> NamesSeen(events, j)
  {
    forall j | 0 <= j < |events|
      ensures CausalAt(events, j) <==> NamesSeen(events, j)
    {
      var e := events[j];
      if CausalAt(events, j) {
        assert forall k :: 0 <= k < |e.prevHashes| ==> Declares(e, e.prevHashes[k]);
      }
    }
  }

  method ValidateCausalOrder(events: seq<Event>) returns (ok: bool)
    ensures ok <==> CausalOrder(events)
    ensures ok <==> forall j :: 0 <= j < |events| ==> NamesSeen(events, j)
  {
    CausalByFields(events);
    var seen: set<string> := {};
    for k := 0 to |events|
      invariant CausalOrder(events[..k])
      invariant forall h :: h in seen <==> HashBefore(events, k, h)
    {
      var evt := events[k];
      var prevHashes := PrevHashes(evt);
      for m := 0 to |prevHashes|
        invariant forall i :: 0 <= i < m && prevHashes[i] != "" ==> HashBefore(events, k, prevHashes[i])
      {
        var prevHash := prevHashes[m];
        if prevHash != "" && prevHash !in seen {
          assert !CausalAt(events, k);
          return false;
        }
      }
      CausalPrefix(events, k);
      seen := seen + {evt.hash};
    }
    assert events[..|events|] == events;
    return true;
  }

  lemma CausalPrefix(events: seq<Event>, k: nat)
    requires k < |events| && CausalOrder(events[..k]) && CausalAt(events, k)
    ensures CausalOrder(events[..k + 1])
  {
    var prefix := events[..k + 1];
    forall j, h | 0 <= j <= k && Declares(prefix[j], h) && h != ""
      ensures HashBefore(prefix, j, h)
    {
      if j < k {
        assert CausalAt(events[..k], j);
        var i :| 0 <= i < j && events[..k][i].hash == h;
        assert prefix[i].hash == h;
      } else {
        var i :| 0 <= i < k && events[i].hash == h;
        assert prefix[i].hash == h;
      }
    }
  }

  // Go's order on strings.
  predicate LexLeq(a: string, b: string) {
    a == [] || (b != [] && (a[0] < b[0] || (a[0] == b[0] && LexLeq(a[1..], b[1..]))))
  }

  lemma {:induction false} LexTotal(a: string, b: string)
    ensures LexLeq(a, b) || LexLeq(b, a)
    ensures LexLeq(a, b) && LexLeq(b, a) ==> a == b
  {
    if a != [] && b != [] {
      LexTotal(a[1..], b[1..]);
      assert a == [a[0]] + a[1..] && b == [b[0]] + b[1..];
    }
  }

  lemma {:induction false} LexTransitive(a: string, b: string, c: string)
    requires LexLeq(a, b) && LexLeq(b, c)
    ensures LexLeq(a, c)
  {
    if a != [] && a[0] == b[0] == c[0] {
      LexTransitive(a[1..], b[1..], c[1..]);
    }
  }

  ghost predicate SortedStrings(s: seq<string>) {
    forall i, j :: 0 <= i < j < |s| ==> LexLeq(s[i], s[j])
  }

  lemma FirstIsLeast(s: seq<string>, x: string)
    requires SortedStrings(s) && x in s
    ensures LexLeq(s[0], x)
  {
    LexTotal(x, x);
  }

  lemma TailCounts<T>(s: seq<T>)
    requires s != []
    ensures multiset(s[1..]) == multiset(s) - multiset{s[0]} && s[0] in multiset(s)
  {
    assert s == [s[0]] + s[1..];
  }

  lemma SameFirst(a: seq<string>, b: seq<string>)
    requires SortedStrings(a) && SortedStrings(b) && multiset(a) == multiset(b)
    requires a != [] && b != []
    ensures a[0] == b[0]
  {
    assert a[0] in multiset(b) && b[0] in multiset(a);
    FirstIsLeast(a, b[0]);
    FirstIsLeast(b, a[0]);
    LexTotal(a[0], b[0]);
  }

  // There is only one sorted arrangement of a collection of strings.
  lemma {:induction false} SortedUnique(a: seq<string>, b: seq<string>)
    requires SortedStrings(a) && SortedStrings(b) && multiset(a) == multiset(b)
    ensures a == b
  {
    SameLength(a, b);
    if a != [] {
      SameFirst(a, b);
      TailCounts(a);
      TailCounts(b);
      SortedUnique(a[1..], b[1..]);
      assert a == [a[0]] + a[1..] && b == [b[0]] + b[1..];
    }
  }

  lemma SortedEqualIff(a: seq<string>, b: seq<string>)
    requires SortedStrings(a) && SortedStrings(b)
    ensures a == b <==> multiset(a) == multiset(b)
  {
    if multiset(a) == multiset(b) {
      SortedUnique(a, b);
    }
  }

  method InsertString(s: seq<string>, x: string) returns (r: seq<string>)
    requires SortedStrings(s)
    ensures SortedStrings(r) && multiset(r) == multiset(s) + multiset{x}
  {
    var i := |s|;
    while i > 0 && !LexLeq(s[i - 1], x)
      invariant 0 <= i <= |s|
      invariant forall j :: i <= j < |s| ==> LexLeq(x, s[j])
    {
      LexTotal(s[i - 1], x);
      i := i - 1;
    }
    r := s[..i] + [x] + s[i..];
    InsertedSame(s, i, x);
    InsertedStringSorted(s, i, x);
  }

  lemma InsertedStringSorted(s: seq<string>, i: nat, x: string)
    requires SortedStrings(s) && i <= |s|
    requires i > 0 ==> LexLeq(s[i - 1], x)
    requires forall j :: i <= j < |s| ==> LexLeq(x, s[j])
    ensures SortedStrings(s[..i] + [x] + s[i..])
  {
    var r := s[..i] + [x] + s[i..];
    forall a, b | 0 <= a < b < |r|
      ensures LexLeq(r[a], r[b])
    {
      if b == i && a < i - 1 {
        LexTransitive(s[a], s[i - 1], x);
      } else if a < i < b {
        assert r[a] == s[a] && r[b] == s[b - 1];
      }
    }
  }

  // sort.Strings, in place.
  method SortStrings(a: array<string>)
    modifies a
    ensures SortedStrings(a[..]) && multiset(a[..]) == multiset(old(a[..]))
  {
    var sorted: seq<string> := [];
    for k := 0 to a.Length
      invariant a[..] == old(a[..])
      invariant SortedStrings(sorted) && multiset(sorted) == multiset(a[..k])
    {
      assert a[..k + 1] == a[..k] + [a[k]];
      sorted := InsertString(sorted, a[k]);
    }
    assert a[..a.Length] == a[..];
    assert |multiset(sorted)| == |sorted| && |multiset(a[..])| == a.Length;
    forall k | 0 <= k < a.Length {
      a[k] := sorted[k];
    }
    assert a[..] == sorted;
  }

  // An event with several declared hashes merges exactly the given predecessors,
  // counted with repetitions. The check leaves the event's own list sorted.
  method VerifyMergePoint(prevEventHashes: array<string>, predecessors: seq<Event>) returns (ok: bool)
    modifies prevEventHashes
    ensures ok <==> prevEventHashes.Length <= 1 || multiset(old(prevEventHashes[..])) == multiset(Hashes(predecessors))
    ensures multiset(prevEventHashes[..]) == multiset(old(prevEventHashes[..]))
    ensures prevEventHashes.Length > 1 ==> SortedStrings(prevEventHashes[..])
  {
    if prevEventHashes.Length <= 1 {
      return true;
    }
    var predHashes := new string[|predecessors|](i requires 0 <= i < |predecessors| => predecessors[i].hash);
    assert predHashes[..] == Hashes(predecessors);
    SortStrings(predHashes);
    SortStrings(prevEventHashes);
    SortedEqualIff(predHashes[..], prevEventHashes[..]);
    if predHashes.Length != prevEventHashes.Length {
      return false;
    }
    for i := 0 to predHashes.Length
      invariant predHashes[..i] == prevEventHashes[..i]
    {
      if predHashes[i] != prevEventHashes[i] {
        assert predHashes[..][i] != prevEventHashes[..][i];
        return false;
      }
    }
    assert predHashes[..] == prevEventHashes[..];
    return true;
  }

  function Hashes(events: seq<Event>): (r: seq<string>)
    ensures |r| == |events|
  {
    seq(|events|, i requires 0 <= i < |events| => events[i].hash)
  }

  // sort.Slice by timestamp. Callers may rely only on the contract: the library
  // sort is not stable, so the order of equal timestamps is open.
  method SortByTime(events: seq<Event>) returns (sorted: seq<Event>)
    ensures SortedByTime(sorted) && multiset(sorted) == multiset(events)
  {
    sorted := [];
    for k := 0 to |events|
      invariant SortedByTime(sorted) && multiset(sorted) == multiset(events[..k])
    {
      assert events[..k + 1] == events[..k] + [events[k]];
      sorted := InsertByTime(sorted, events[k]);
    }
    assert events[..|events|] == events;
  }

  method InsertByTime(s: seq<Event>, e: Event) returns (r: seq<Event>)
    requires SortedByTime(s)
    ensures SortedByTime(r) && multiset(r) == multiset(s) + multiset{e}
  {
    var i := |s|;
    while i > 0 && e.time < s[i - 1].time
      invariant 0 <= i <= |s|
      invariant forall j :: i <= j < |s| ==> e.time < s[j].time
    {
      i := i - 1;
    }
    r := s[..i] + [e] + s[i..];
    InsertedSame(s, i, e);
    InsertedSorted(s, i, e);
  }

  lemma InsertedSorted(s: seq<Event>, i: nat, e: Event)
    requires SortedByTime(s) && i <= |s|
    requires i > 0 ==> s[i - 1].time <= e.time
    requires forall j :: i <= j < |s| ==> e.time < s[j].time
    ensures SortedByTime(s[..i] + [e] + s[i..])
  {
    var r := s[..i] + [e] + s[i..];
    forall a, b | 0 <= a < b < |r|
      ensures r[a].time <= r[b].time
    {
      if b == i && a < i - 1 {
        assert s[a].time <= s[i - 1].time;
      }
    }
  }

  predicate HasId(events: seq<Event>, id: Id) {
    exists i :: 0 <= i < |events| && events[i].id == id
  }

  // The k-th event repeats the ID of an earlier one.
  predicate Repeats(events: seq<Event>, k: nat)
    requires k < |events|
  {
    HasId(events[..k], events[k].id)
  }

  // The DAG holds exactly these events, accepted in this order.
  ghost predicate Built(dag: DAG, events: seq<Event>)
    reads dag
  {
    dag.Valid() && Named(dag.Abs()) && EventsOf(dag.nodes, dag.log) == events
  }

  method AddNext(dag: DAG, events: seq<Event>, k: nat) returns (added: bool)
    requires k < |events| && Built(dag, events[..k])
    modifies dag
    ensures added <==> !Repeats(events, k)
    ensures added ==> Built(dag, events[..k + 1])
  {
    ghost var st := dag.Abs();
    LoggedIds(st, events[..k], events[k].id);
    var err, preds := dag.AddEvent(events[k]);
    if err == Added {
      LoggedMore(st, events[k], preds);
      TakeNext(events, k);
    }
    added := err == Added;
  }

  ghost predicate SharesId(events: seq<Event>) {
    exists i, j :: 0 <= i < j < |events| && events[i].id == events[j].id
  }

  lemma RepeatsIff(events: seq<Event>)
    ensures SharesId(events) <==> exists k :: 0 <= k < |events| && Repeats(events, k)
  {
    forall i, j | 0 <= i < j < |events| && events[i].id == events[j].id
      ensures Repeats(events, j)
    {
      assert events[..j][i].id == events[j].id;
    }
    forall k | 0 <= k < |events| && Repeats(events, k)
      ensures SharesId(events)
    {
      var i :| 0 <= i < k && events[..k][i].id == events[k].id;
    }
  }

  // Two events that share an ID still do in any other order.
  lemma SharedIds(s: seq<Event>, t: seq<Event>)
    requires multiset(s) == multiset(t)
    ensures SharesId(s) ==> SharesId(t)
  {
    if SharesId(s) {
      var i, j :| 0 <= i < j < |s| && s[i].id == s[j].id;
      if s[i] == s[j] {
        CountedTwice(s, i, j);
        var k, m := TwoPositions(t, s[i]);
      } else {
        var k := FindSame(s, t, i);
        var m := FindSame(s, t, j);
        assert t[if k < m then k else m].id == t[if k < m then m else k].id;
      }
    }
  }

  lemma SharedIff(events: seq<Event>, order: seq<Event>)
    requires multiset(events) == multiset(order)
    ensures SharesId(events) <==> exists k :: 0 <= k < |order| && Repeats(order, k)
  {
    RepeatsIff(order);
    SharedIds(events, order);
    SharedIds(order, events);
  }

  // The DAG of all events, or nil when two of them share an event ID.
  method BuildDAGFromEvents(events: seq<Event>) returns (r: DAG?, ghost sorted: seq<Event>)
    ensures multiset(sorted) == multiset(events) && SortedByTime(sorted)
    ensures r == null <==> SharesId(events)
    ensures r != null ==> Built(r, sorted)
  {
    var dag := new DAG();
    var order := SortByTime(events);
    sorted := order;
    for k := 0 to |order|
      invariant Built(dag, order[..k]) && fresh(dag)
      invariant forall i :: 0 <= i < k ==> !Repeats(order, i)
    {
      var added := AddNext(dag, order, k);
      if !added {
        SharedIff(events, order);
        return null, sorted;
      }
    }
    assert order[..|order|] == order;
    SharedIff(events, order);
    return dag, sorted;
  }

  // An ID is taken exactly when one of the events added so far has it.
  lemma LoggedIds(st: State, events: seq<Event>, id: Id)
    requires Named(st) && EventsOf(st.g, st.log) == events
    ensures id in st.g <==> HasId(events, id)
  {
    if id in st.g {
      var i :| 0 <= i < |st.log| && st.log[i] == id;
      assert events[i].id == id;
    }
    if HasId(events, id) {
      var i :| 0 <= i < |events| && events[i].id == id;
      assert st.log[i] in st.log;
    }
  }

  lemma LoggedMore(st: State, e: Event, preds: seq<Id>)
    requires Named(st) && e.id !in st.g && forall p :: p in preds ==> p in st.g
    ensures Named(Insert(st, e, preds))
    ensures EventsOf(Insert(st, e, preds).g, Insert(st, e, preds).log) == EventsOf(st.g, st.log) + [e]
  {
    InsertNamed(st, e, preds);
  }

  // -------------------------------------------------- what the input determines

  lemma BuiltInOrder(dag: DAG, sorted: seq<Event>)
    requires Built(dag, sorted) && SortedByTime(sorted) && UniqueHashes(sorted) && NamesEarlier(sorted)
    ensures TimeOrdered(dag.Abs())
  {
    ReachableInv(dag.Abs());
  }

  // When hashes are unique and events later than those they name, a built DAG links
  // an event to exactly the events of the input that it names.
  lemma BuiltLinksAll(dag: DAG, sorted: seq<Event>, a: Id, b: Id)
    requires Built(dag, sorted) && SortedByTime(sorted) && UniqueHashes(sorted) && NamesEarlier(sorted)
    requires a in dag.nodes && b in dag.nodes
    ensures a in dag.nodes[b].preds <==> Declares(dag.nodes[b].event, dag.nodes[a].event.hash)
  {
    var st := dag.Abs();
    var hashes, preds := PrevHashes(dag.nodes[b].event), dag.nodes[b].preds;
    BuiltInOrder(dag, sorted);
    FullyLinked(st, b);
    LinksElements(st.g, st.log, hashes, preds);
    if st.g[a].event.hash in hashes {
      var i :| 0 <= i < |st.log| && st.log[i] == a;
      assert HasHash(st.g, st.log, st.g[a].event.hash);
      var p :| p in preds && st.g[p].event.hash == st.g[a].event.hash;
      CarrierUnique(st, a, p);
    }
  }

  lemma PremisesMove(s: seq<Event>, t: seq<Event>)
    requires multiset(s) == multiset(t) && UniqueHashes(s) && NamesEarlier(s)
    ensures UniqueHashes(t) && NamesEarlier(t)
  {
    forall e | e in t
      ensures e in s
    {
      assert e in multiset(t);
    }
  }

  // Two DAGs built from permutations of such events are the same graph, with the same
  // depths, whatever ties the sort broke differently.
  lemma BuiltIndependent(d: DAG, sorted: seq<Event>, d': DAG, sorted': seq<Event>)
    requires Built(d, sorted) && SortedByTime(sorted) && UniqueHashes(sorted) && NamesEarlier(sorted)
    requires Built(d', sorted') && SortedByTime(sorted') && multiset(sorted) == multiset(sorted')
    ensures SameEvents(d.Abs(), d'.Abs())
    ensures PredsAgree(d.nodes, d'.nodes) && SuccsAgree(d.nodes, d'.nodes)
    ensures forall id :: id in d.nodes && id in d'.nodes ==> d.nodes[id].depth == d'.nodes[id].depth
    ensures forall id :: (id in d.leaves <==> id in d'.leaves) && (id in d.roots <==> id in d'.roots)
  {
    PremisesMove(sorted, sorted');
    BuiltInOrder(d, sorted);
    BuiltInOrder(d', sorted');
    PermutationIndependent(d.Abs(), d'.Abs());
  }

  lemma LoneEvent(x: Event)
    requires |PrevHashes(x)| <= 1
    ensures Links(EMPTY.g, EMPTY.log, PrevHashes(x), [])
    ensures Insert(EMPTY, x, []).g == map[x.id := Vertex(x, [], [], 0)] && Insert(EMPTY, x, []).log == [x.id]
  {
    LinkedToNone(EMPTY.g, x.id);
  }

  lemma LoneReachable(x: Event)
    requires |PrevHashes(x)| <= 1
    ensures Reachable(Insert(EMPTY, x, []))
  {
    LoneEvent(x);
    assert Accepts(EMPTY, x, []);
    ReachableNext(EMPTY, x, []);
  }

  // What y links after x: x, if it names it.
  lemma SecondLinks(g: Graph, x: Event, y: Event, preds: seq<Id>)
    requires g == map[x.id := Vertex(x, [], [], 0)]
    requires if PrevHashes(y) == [] then preds == [] else PrevHashes(y) == [x.hash] && preds == [x.id]
    ensures Links(g, [x.id], PrevHashes(y), preds) && DepthFrom(g, preds) == |preds|
  {
    assert [x.id][0] == x.id;
    assert HasHash(g, [x.id], x.hash);
    if preds != [] {
      assert preds[..0] == [] && preds[1..] == [];
    }
  }

  lemma SecondGraph(st: State, x: Event, y: Event, preds: seq<Id>)
    requires st.g == map[x.id := Vertex(x, [], [], 0)] && st.log == [x.id] && x.id != y.id
    requires preds == [] || preds == [x.id]
    ensures var next := Insert(st, y, preds);
            && next.log == [x.id, y.id] && next.g.Keys == {x.id, y.id}
            && next.g[x.id].event == x && next.g[x.id].preds == [] && next.g[x.id].depth == 0
            && next.g[y.id] == Vertex(y, preds, [], DepthFrom(st.g, preds))
  {
  }

  lemma TwoEvents(g: Graph, x: Event, y: Event)
    requires g.Keys == {x.id, y.id} && x.id != y.id && g[x.id].event == x && g[y.id].event == y
    ensures EventsOf(g, [x.id, y.id]) == [x, y]
  {
  }

  // y accepted after x.
  lemma SecondEvent(x: Event, y: Event, preds: seq<Id>) returns (st: State)
    requires x.id != y.id && |PrevHashes(x)| <= 1
    requires if PrevHashes(y) == [] then preds == [] else PrevHashes(y) == [x.hash] && preds == [x.id]
    ensures Reachable(st) && st.log == [x.id, y.id] && st.g.Keys == {x.id, y.id}
    ensures EventsOf(st.g, [x.id, y.id]) == [x, y]
    ensures st.g[x.id].preds == [] && st.g[x.id].depth == 0
    ensures st.g[y.id].preds == preds && st.g[y.id].depth == |preds|
  {
    var first := Insert(EMPTY, x, []);
    LoneEvent(x);
    LoneReachable(x);
    SecondLinks(first.g, x, y, preds);
    SecondGraph(first, x, y, preds);
    assert Accepts(first, y, preds);
    ReachableNext(first, y, preds);
    st := Insert(first, y, preds);
    TwoEvents(st.g, x, y);
  }

  lemma Simultaneous(a: Event, b: Event)
    requires a.hash != b.hash && a.time == b.time
    ensures SortedByTime([a, b]) && SortedByTime([b, a]) && UniqueHashes([a, b])
    ensures multiset([a, b]) == multiset([b, a])
  {
  }

  // The premise NamesEarlier is needed: when one of two simultaneous events names the
  // other, both orders are sorted, and only one of them links the two.
  lemma TieOrderMatters(a: Event, b: Event) returns (s: State, t: State)
    requires a.id != b.id && a.hash != b.hash && a.time == b.time
    requires a.prevHashes == [] && a.prevHash == ""
    requires b.prevHashes == [a.hash] || (b.prevHashes == [] && b.prevHash == a.hash != "")
    ensures SortedByTime([a, b]) && SortedByTime([b, a]) && UniqueHashes([a, b])
    ensures multiset([a, b]) == multiset([b, a])
    ensures Reachable(s) && s.log == [a.id, b.id] && s.g.Keys == {a.id, b.id} && EventsOf(s.g, [a.id, b.id]) == [a, b]
    ensures Reachable(t) && t.log == [b.id, a.id] && t.g.Keys == {b.id, a.id} && EventsOf(t.g, [b.id, a.id]) == [b, a]
    ensures s.g[b.id].preds == [a.id] && s.g[b.id].depth == 1
    ensures t.g[b.id].preds == [] && t.g[b.id].depth == 0
  {
    Simultaneous(a, b);
    s := SecondEvent(a, b, [a.id]);
    t := SecondEvent(b, a, []);
  }
}
