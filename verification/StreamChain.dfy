// server/internal/gateway/stream.go: the server-sent-events loop of
// ProxyStreamingChat and the event chain it records.
module StreamChain {
  import opened EventGraph
  import opened GraphTheorems
  import opened Sequences
  import opened Hashing

  // A parsed line of the response; the first choice of a chunk, if it has one.
  datatype Chunk = Chunk(content: string, finishReason: string, model: string)

  datatype Line = Blank | NotData | Unparsable | DoneMarker | Data(chunk: Chunk)

  datatype Payload =
    | InputPayload(promptHash: string)
    | ModelPayload(modelID: string)
    | ChunkPayload(index: nat, chunkHash: string, cumulativeHash: string, length: nat,
                   finishReason: string, model: string)
    | OutputPayload(outputHash: string, length: nat)

  // The fields an event hash is computed from. `details` is the rest of the payload:
  // request parameters, prompt length, latencies, token usage, fingerprint.
  datatype Draft = Draft(
    id: Id, trace: string, time: int, sequence: int, payload: Payload, details: string, prevHash: string)

  datatype Stamp = Stamp(id: Id, time: int, details: string)

  // The environment: SHA-256, the event hash, the trace, the length of a string in bytes,
  // and the ID, instant and payload details of each event.
  datatype Env = Env(
    sha: string -> string, eventHash: Draft -> string, trace: string, bytes: string -> nat, stamp: nat -> Stamp)

  // "sha256:" and 64 hexadecimal digits.
  const HASH_LENGTH := 71

  datatype StreamResult = StreamResult(
    events: seq<Event>, totalContent: string, chunkCount: nat, totalContentLen: nat, finalHash: string)

  // --------------------------------------------------------- specification

  // The chunks the loop records: those with content or a finish reason, up to the
  // first finish reason or the end marker.
  function Recorded(lines: seq<Line>): seq<Chunk> {
    if lines == [] || lines[0].DoneMarker? then []
    else if !lines[0].Data? || (lines[0].chunk.content == "" && lines[0].chunk.finishReason == "") then
      Recorded(lines[1..])
    else
      [lines[0].chunk] + (if lines[0].chunk.finishReason != "" then [] else Recorded(lines[1..]))
  }

  function Concatenation(chunks: seq<Chunk>): string {
    if chunks == [] then "" else Concatenation(chunks[..|chunks| - 1]) + chunks[|chunks| - 1].content
  }

  // The cumulative hash after the given chunk contents.
  function Cumulative(sha: string -> string, contents: seq<string>): string {
    if contents == [] then ""
    else
      var before := Cumulative(sha, contents[..|contents| - 1]);
      var chunkHash := sha(contents[|contents| - 1]);
      if before == "" then chunkHash else sha(before + chunkHash)
  }

  function Contents(chunks: seq<Chunk>): (r: seq<string>)
    ensures |r| == |chunks|
  {
    seq(|chunks|, i requires 0 <= i < |chunks| => chunks[i].content)
  }

  function MakeEvent(env: Env, slot: nat, sequence: int, payload: Payload, prevHash: string): Event {
    var stamp := env.stamp(slot);
    Event(stamp.id, env.eventHash(Draft(stamp.id, env.trace, stamp.time, sequence, payload, stamp.details, prevHash)),
          prevHash, [], stamp.time, sequence)
  }

  // ------------------------------------------------------------- the loop

  method ProxyStreamingChat(env: Env, promptHash: string, modelID: string, lines: seq<Line>)
    returns (result: StreamResult)
    ensures result.chunkCount == |Recorded(lines)| && |result.events| == result.chunkCount + 3
    ensures result.totalContent == Concatenation(Recorded(lines))
    ensures result.totalContentLen == env.bytes(result.totalContent)
    ensures result.finalHash == Cumulative(env.sha, Contents(Recorded(lines)))
    ensures Streamed(env, promptHash, modelID, Recorded(lines), result.events)
  {
    var inputEvent := MakeEvent(env, 0, 1, InputPayload(promptHash), "");
    var modelEvent := MakeEvent(env, 1, 2, ModelPayload(modelID), inputEvent.hash);
    var cumulativeHash := "";
    var totalContent := "";
    var chunkIndex := 0;
    var prevEventHash := modelEvent.hash;
    var events: seq<Event> := [];
    ghost var done: seq<Chunk> := [];
    var k := 0;
    var more := true;
    while more && k < |lines|
      invariant 0 <= k <= |lines|
      invariant done + (if more then Recorded(lines[k..]) else []) == Recorded(lines)
      invariant chunkIndex == |done| == |events|
      invariant totalContent == Concatenation(done) && cumulativeHash == Cumulative(env.sha, Contents(done))
      invariant prevEventHash == HashBeforeChunk(modelEvent, events, |events|)
      invariant LinkedChunks(modelEvent, events)
      invariant forall i :: 0 <= i < |done| ==> RecordsChunk(env, events, done, i)
      decreases more, |lines| - k
    {
      var line := lines[k];
      k := k + 1;
      assert lines[k - 1..][1..] == lines[k..];
      if line.DoneMarker? {
        more := false;
        assert done + [] == done;
        continue;
      }
      if !line.Data? {
        continue;
      }
      var content, finishReason := line.chunk.content, line.chunk.finishReason;
      if content == "" && finishReason == "" {
        continue;
      }
      var chunkHash := env.sha(content);
      if cumulativeHash == "" {
        cumulativeHash := chunkHash;
      } else {
        cumulativeHash := env.sha(cumulativeHash + chunkHash);
      }
      totalContent := totalContent + content;
      var chunkEvent := CreateChunkEvent(env, chunkIndex, content, chunkHash, cumulativeHash, prevEventHash,
                                         finishReason, line.chunk.model);
      DoneMore(env, done, line.chunk);
      EventsMore(env, modelEvent, events, done, line.chunk, chunkEvent);
      ghost var rest := if finishReason != "" then [] else Recorded(lines[k..]);
      Regroup(done, line.chunk, rest);
      done := done + [line.chunk];
      events := events + [chunkEvent];
      prevEventHash := chunkEvent.hash;
      chunkIndex := chunkIndex + 1;
      if finishReason != "" {
        more := false;
      }
    }
    assert !more || Recorded(lines[k..]) == [];
    assert done + [] == done;
    var outputEvent := MakeEvent(env, chunkIndex + 2, chunkIndex + 3,
                                 OutputPayload(env.sha(totalContent), env.bytes(totalContent)), prevEventHash);
    result := StreamResult([inputEvent, modelEvent, outputEvent] + events, totalContent, chunkIndex,
                           env.bytes(totalContent), cumulativeHash);
    ListedInOrder(env, promptHash, modelID, done, [inputEvent, modelEvent, outputEvent], events);
  }

  function CreateChunkEvent(env: Env, index: nat, content: string, chunkHash: string, cumulativeHash: string,
                            prevEventHash: string, finishReason: string, model: string): Event {
    MakeEvent(env, index + 2, index + 3,
              ChunkPayload(index, chunkHash, cumulativeHash, env.bytes(content), finishReason, model), prevEventHash)
  }

  // Event k records chunk k, with the cumulative hash of the chunks up to it.
  ghost predicate RecordsChunk(env: Env, events: seq<Event>, chunks: seq<Chunk>, k: nat) {
    && k < |chunks| <= |events|
    && events[k] == CreateChunkEvent(env, k, chunks[k].content, env.sha(chunks[k].content),
                                     Cumulative(env.sha, Contents(chunks[..k + 1])),
                                     events[k].prevHash, chunks[k].finishReason, chunks[k].model)
  }

  // The events around the chunks.
  ghost predicate Framed(env: Env, promptHash: string, modelID: string, total: string, events: seq<Event>)
    requires |events| >= 3
  {
    var n := |events| - 3;
    && events[0] == MakeEvent(env, 0, 1, InputPayload(promptHash), "")
    && events[1] == MakeEvent(env, 1, 2, ModelPayload(modelID), events[0].hash)
    && events[2] == MakeEvent(env, n + 2, n + 3, OutputPayload(env.sha(total), env.bytes(total)),
                              HashBeforeChunk(events[1], events[3..], n))
  }

  // What the listed events record: input, model and output first, then the chunks.
  ghost predicate Streamed(env: Env, promptHash: string, modelID: string, chunks: seq<Chunk>, events: seq<Event>) {
    && |events| == |chunks| + 3
    && Framed(env, promptHash, modelID, Concatenation(chunks), events)
    && LinkedChunks(events[1], events[3..])
    && forall k :: 0 <= k < |chunks| ==> RecordsChunk(env, events[3..], chunks, k)
  }

  lemma ListedInOrder(env: Env, promptHash: string, modelID: string, chunks: seq<Chunk>, frame: seq<Event>,
                      events: seq<Event>)
    requires |frame| == 3 && |events| == |chunks| && LinkedChunks(frame[1], events)
    requires frame[0] == MakeEvent(env, 0, 1, InputPayload(promptHash), "")
    requires frame[1] == MakeEvent(env, 1, 2, ModelPayload(modelID), frame[0].hash)
    requires var total := Concatenation(chunks);
             frame[2] == MakeEvent(env, |events| + 2, |events| + 3, OutputPayload(env.sha(total), env.bytes(total)),
                                   HashBeforeChunk(frame[1], events, |events|))
    requires forall k :: 0 <= k < |chunks| ==> RecordsChunk(env, events, chunks, k)
    ensures Streamed(env, promptHash, modelID, chunks, frame + events)
  {
    assert (frame + events)[3..] == events;
  }

  lemma StreamedIsChained(env: Env, promptHash: string, modelID: string, chunks: seq<Chunk>, events: seq<Event>)
    requires Streamed(env, promptHash, modelID, chunks, events)
    ensures ChainedFrom(events[0], events[1], events[3..], events[2])
  {
  }

  // The hash before chunk event k: the model event's or the previous chunk's.
  function HashBeforeChunk(modelEvent: Event, events: seq<Event>, k: nat): string
    requires k <= |events|
  {
    if k == 0 then modelEvent.hash else events[k - 1].hash
  }

  ghost predicate LinkedChunkAt(modelEvent: Event, events: seq<Event>, k: nat)
    requires k < |events|
  {
    && events[k].sequence == k + 3 && events[k].prevHashes == []
    && events[k].prevHash == HashBeforeChunk(modelEvent, events, k)
  }

  ghost predicate LinkedChunks(modelEvent: Event, events: seq<Event>) {
    forall k :: 0 <= k < |events| ==> LinkedChunkAt(modelEvent, events, k)
  }

  // The chain input, model, chunks, output: dense sequence numbers and previous-hash links.
  ghost predicate ChainedFrom(inputEvent: Event, modelEvent: Event, chunks: seq<Event>, outputEvent: Event) {
    && inputEvent.sequence == 1 && inputEvent.prevHash == "" && inputEvent.prevHashes == []
    && modelEvent.sequence == 2 && modelEvent.prevHash == inputEvent.hash && modelEvent.prevHashes == []
    && LinkedChunks(modelEvent, chunks)
    && outputEvent.sequence == |chunks| + 3 && outputEvent.prevHashes == []
    && outputEvent.prevHash == HashBeforeChunk(modelEvent, chunks, |chunks|)
  }

  lemma DoneMore(env: Env, done: seq<Chunk>, chunk: Chunk)
    ensures Concatenation(done + [chunk]) == Concatenation(done) + chunk.content
    ensures Cumulative(env.sha, Contents(done + [chunk])) ==
            var before := Cumulative(env.sha, Contents(done));
            if before == "" then env.sha(chunk.content) else env.sha(before + env.sha(chunk.content))
  {
    assert (done + [chunk])[..|done|] == done;
    assert Contents(done + [chunk])[..|done|] == Contents(done);
  }

  lemma EventsMore(env: Env, modelEvent: Event, events: seq<Event>, done: seq<Chunk>, chunk: Chunk, event: Event)
    requires |done| == |events| && LinkedChunks(modelEvent, events)
    requires forall i :: 0 <= i < |done| ==> RecordsChunk(env, events, done, i)
    requires event.prevHash == HashBeforeChunk(modelEvent, events, |events|)
    requires event == CreateChunkEvent(env, |done|, chunk.content, env.sha(chunk.content),
                                       Cumulative(env.sha, Contents(done + [chunk])),
                                       event.prevHash, chunk.finishReason, chunk.model)
    ensures LinkedChunks(modelEvent, events + [event])
    ensures forall i :: 0 <= i <= |done| ==> RecordsChunk(env, events + [event], done + [chunk], i)
  {
    var more := events + [event];
    forall k | 0 <= k < |more|
      ensures LinkedChunkAt(modelEvent, more, k)
    {
      if k < |events| {
        assert LinkedChunkAt(modelEvent, events, k);
      }
    }
    forall i | 0 <= i <= |done|
      ensures RecordsChunk(env, events + [event], done + [chunk], i)
    {
      if i < |done| {
        assert RecordsChunk(env, events, done, i);
        assert (done + [chunk])[..i + 1] == done[..i + 1];
      } else {
        assert (done + [chunk])[..i + 1] == done + [chunk];
      }
    }
  }

  // -------------------------------------------------------------- the chain

  function BySequence(inputEvent: Event, modelEvent: Event, chunks: seq<Event>, outputEvent: Event): seq<Event> {
    [inputEvent, modelEvent] + chunks + [outputEvent]
  }

  // In sequence order the events are numbered 1, 2, 3, ..., each names the hash of the
  // one before it, and the order is causal.
  lemma ChainIsCausal(inputEvent: Event, modelEvent: Event, chunks: seq<Event>, outputEvent: Event)
    requires ChainedFrom(inputEvent, modelEvent, chunks, outputEvent)
    ensures var chain := BySequence(inputEvent, modelEvent, chunks, outputEvent);
            && |chain| == |chunks| + 3
            && (forall i :: 0 <= i < |chain| ==> chain[i].sequence == i + 1)
            && (forall i :: 1 <= i < |chain| ==> chain[i].prevHash == chain[i - 1].hash)
            && CausalOrder(chain)
  {
    var chain := BySequence(inputEvent, modelEvent, chunks, outputEvent);
    forall i | 1 <= i < |chain|
      ensures chain[i].prevHash == chain[i - 1].hash && chain[i].prevHashes == []
      ensures chain[i].sequence == i + 1
    {
      if 2 <= i < |chunks| + 2 {
        assert chain[i] == chunks[i - 2] && LinkedChunkAt(modelEvent, chunks, i - 2);
      }
    }
    forall j | 0 <= j < |chain|
      ensures CausalAt(chain, j)
    {
      if j > 0 {
        assert chain[j - 1].hash == chain[j].prevHash;
        assert HashBefore(chain, j, chain[j].prevHash);
      }
    }
  }

  // The order in which the result lists the events puts the output before the chunks:
  // it is causal only when there are no chunks, or the last one's hash repeats an
  // earlier event's.
  lemma ResultOrderCausalIff(inputEvent: Event, modelEvent: Event, chunks: seq<Event>, outputEvent: Event)
    requires ChainedFrom(inputEvent, modelEvent, chunks, outputEvent)
    requires chunks != [] ==> chunks[|chunks| - 1].hash != ""
    ensures CausalOrder([inputEvent, modelEvent, outputEvent] + chunks) <==>
            chunks == [] || chunks[|chunks| - 1].hash in [inputEvent.hash, modelEvent.hash]
  {
    var listed := [inputEvent, modelEvent, outputEvent] + chunks;
    forall j | 0 <= j < |listed| && j != 2
      ensures CausalAt(listed, j)
    {
      if j == 1 {
        assert listed[0].hash == modelEvent.prevHash;
      } else if j > 2 {
        var k := j - 3;
        assert listed[j] == chunks[k] && LinkedChunkAt(modelEvent, chunks, k);
        assert listed[if k == 0 then 1 else j - 1].hash == chunks[k].prevHash;
        assert HashBefore(listed, j, chunks[k].prevHash);
      }
    }
    assert listed[2] == outputEvent;
    if outputEvent.prevHash in [inputEvent.hash, modelEvent.hash] {
      assert listed[0].hash == outputEvent.prevHash || listed[1].hash == outputEvent.prevHash;
      assert CausalAt(listed, 2);
    } else {
      assert outputEvent.prevHash in PrevHashes(listed[2]);
      assert !HashBefore(listed, 2, outputEvent.prevHash);
      assert !CausalAt(listed, 2);
    }
  }

  // The recorded events in sequence order.
  function InOrder(events: seq<Event>): seq<Event>
    requires |events| >= 3
  {
    BySequence(events[0], events[1], events[3..], events[2])
  }

  // So of every stream the loop records: in sequence order its events are numbered from 1
  // on, each names the hash of the one before, and the order is causal.
  lemma StreamIsCausal(env: Env, promptHash: string, modelID: string, chunks: seq<Chunk>, events: seq<Event>)
    requires Streamed(env, promptHash, modelID, chunks, events)
    ensures var chain := InOrder(events);
            && |chain| == |chunks| + 3
            && (forall i :: 0 <= i < |chain| ==> chain[i].sequence == i + 1)
            && (forall i :: 1 <= i < |chain| ==> chain[i].prevHash == chain[i - 1].hash)
            && CausalOrder(chain)
  {
    StreamedIsChained(env, promptHash, modelID, chunks, events);
    ChainIsCausal(events[0], events[1], events[3..], events[2]);
  }

  // In the order the result lists them they are causal only when nothing was recorded
  // between model and output, or the last chunk's hash repeats an earlier one.
  lemma ListedCausalIff(env: Env, promptHash: string, modelID: string, chunks: seq<Chunk>, events: seq<Event>)
    requires Streamed(env, promptHash, modelID, chunks, events)
    requires chunks != [] ==> events[|events| - 1].hash != ""
    ensures CausalOrder(events) <==>
            chunks == [] || events[|events| - 1].hash in [events[0].hash, events[1].hash]
  {
    StreamedIsChained(env, promptHash, modelID, chunks, events);
    assert events == [events[0], events[1], events[2]] + events[3..];
    ResultOrderCausalIff(events[0], events[1], events[3..], events[2]);
    assert chunks != [] ==> events[3..][|chunks| - 1] == events[|events| - 1];
  }

  // ------------------------------------------------ which lines are recorded

  predicate Ends(line: Line) {
    line.DoneMarker? || (line.Data? && line.chunk.finishReason != "")
  }

  predicate IsRecorded(line: Line) {
    line.Data? && (line.chunk.content != "" || line.chunk.finishReason != "")
  }

  // `end` is the first line that ends the stream, or the number of lines; `at` are the
  // recorded lines up to it, in order.
  ghost predicate PositionsOf(lines: seq<Line>, end: nat, at: seq<nat>) {
    && end <= |lines| && (end < |lines| ==> Ends(lines[end]))
    && (forall k :: 0 <= k < end ==> !Ends(lines[k]))
    && (forall i, j :: 0 <= i < j < |at| ==> at[i] < at[j])
    && (forall k :: k in at <==> 0 <= k < |lines| && k <= end && IsRecorded(lines[k]))
  }

  ghost predicate ChunksAt(lines: seq<Line>, at: seq<nat>) {
    && |Recorded(lines)| == |at|
    && forall i :: 0 <= i < |at| ==>
         at[i] < |lines| && lines[at[i]].Data? && Recorded(lines)[i] == lines[at[i]].chunk
  }

  lemma ChunksShift(lines: seq<Line>, at: seq<nat>)
    requires lines != [] && !Ends(lines[0]) && ChunksAt(lines[1..], at)
    ensures ChunksAt(lines, (if IsRecorded(lines[0]) then [0] else []) + Shifted(at))
  {
    var first: seq<nat> := if IsRecorded(lines[0]) then [0] else [];
    var all := first + Shifted(at);
    assert Recorded(lines) == (if IsRecorded(lines[0]) then [lines[0].chunk] else []) + Recorded(lines[1..]);
    forall i | 0 <= i < |all|
      ensures all[i] < |lines| && lines[all[i]].Data? && Recorded(lines)[i] == lines[all[i]].chunk
    {
      if i >= |first| {
        var j := i - |first|;
        assert all[i] == at[j] + 1 && lines[all[i]] == lines[1..][at[j]];
      }
    }
  }

  // The recorded chunks are those of the data lines with content or a finish reason, up
  // to the end marker or the first finish reason, each once and in order.
  lemma {:induction false} RecordedPositions(lines: seq<Line>) returns (end: nat, at: seq<nat>)
    ensures PositionsOf(lines, end, at) && ChunksAt(lines, at)
    decreases |lines|
  {
    end, at := 0, [];
    if lines != [] {
      var later, rest := RecordedPositions(lines[1..]);
      if !Ends(lines[0]) {
        end := later + 1;
        at := (if IsRecorded(lines[0]) then [0] else []) + Shifted(rest);
        PositionsShift(lines, later, rest);
        ChunksShift(lines, rest);
      } else if lines[0].Data? {
        at := [0];
      }
    }
  }

  function Shifted(at: seq<nat>): (r: seq<nat>)
    ensures |r| == |at|
  {
    seq(|at|, i requires 0 <= i < |at| => at[i] + 1)
  }

  lemma ShiftedMembers(at: seq<nat>, first: seq<nat>)
    requires first == [] || first == [0]
    ensures forall k: nat :: k in first + Shifted(at) <==> k in first || (k > 0 && k - 1 in at)
  {
    forall k: nat | k > 0 && k - 1 in at
      ensures k in Shifted(at)
    {
      var i :| 0 <= i < |at| && at[i] == k - 1;
      assert Shifted(at)[i] == k;
    }
  }

  lemma ShiftedAscends(at: seq<nat>, first: seq<nat>)
    requires first == [] || first == [0]
    requires forall i, j :: 0 <= i < j < |at| ==> at[i] < at[j]
    ensures var all := first + Shifted(at); forall i, j :: 0 <= i < j < |all| ==> all[i] < all[j]
  {
  }

  lemma PositionsShift(lines: seq<Line>, end: nat, at: seq<nat>)
    requires lines != [] && !Ends(lines[0]) && PositionsOf(lines[1..], end, at)
    ensures PositionsOf(lines, end + 1, (if IsRecorded(lines[0]) then [0] else []) + Shifted(at))
  {
    var first: seq<nat> := if IsRecorded(lines[0]) then [0] else [];
    ShiftedMembers(at, first);
    ShiftedAscends(at, first);
    forall k | 0 <= k <= end
      ensures !Ends(lines[k])
    {
      assert k > 0 ==> !Ends(lines[1..][k - 1]);
    }
    forall k: nat
      ensures k in first + Shifted(at) <==> k < |lines| && k <= end + 1 && IsRecorded(lines[k])
    {
      if 0 < k < |lines| {
        assert lines[k] == lines[1..][k - 1];
      }
    }
  }

  // The total content is the chunks' contents one after the other.
  lemma {:induction false} ContentAt(chunks: seq<Chunk>, k: nat)
    requires k < |chunks|
    ensures Concatenation(chunks)
            == Concatenation(chunks[..k]) + chunks[k].content + Concatenation(chunks[k + 1..])
    decreases |chunks|
  {
    var n := |chunks| - 1;
    if k < n {
      var front, rest := chunks[..n], chunks[k + 1..];
      ContentAt(front, k);
      assert front[..k] == chunks[..k] && front[k + 1..] == rest[..|rest| - 1];
    }
  }

  // --------------------------------------------------------------- binding

  // Two different inputs of the hash, if the chains meet in one.
  function ChainCollision(sha: string -> string, xs: seq<string>, ys: seq<string>): (string, string)
    requires |xs| == |ys|
  {
    if xs == [] then ("", "")
    else
      var n := |xs| - 1;
      var x, y := xs[n], ys[n];
      var a := Cumulative(sha, xs[..n]) + sha(x);
      var b := Cumulative(sha, ys[..n]) + sha(y);
      if n > 0 && a != b then (a, b)
      else if x != y then (x, y)
      else ChainCollision(sha, xs[..n], ys[..n])
  }

  // Equal chunk count and equal final hash: the chunks are equal one by one, or
  // ChainCollision is a collision.
  lemma {:induction false} FinalHashBinds(sha: string -> string, xs: seq<string>, ys: seq<string>)
    requires FixedWidth(sha, HASH_LENGTH) && |xs| == |ys|
    requires Cumulative(sha, xs) == Cumulative(sha, ys)
    ensures xs == ys
            || (var c := ChainCollision(sha, xs, ys); c.0 != c.1 && sha(c.0) == sha(c.1))
    decreases |xs|
  {
    if xs != [] {
      var n := |xs| - 1;
      CumulativeWidth(sha, xs[..n]);
      CumulativeWidth(sha, ys[..n]);
      var cx, cy := Cumulative(sha, xs[..n]), Cumulative(sha, ys[..n]);
      var hx, hy := sha(xs[n]), sha(ys[n]);
      if n > 0 && cx + hx == cy + hy {
        SameCut(cx, hx, cy, hy);
      }
      if xs[n] == ys[n] && cx == cy {
        FinalHashBinds(sha, xs[..n], ys[..n]);
        assert xs == xs[..n] + [xs[n]] && ys == ys[..n] + [ys[n]];
      }
    }
  }

  lemma {:induction false} CumulativeWidth(sha: string -> string, xs: seq<string>)
    requires FixedWidth(sha, HASH_LENGTH)
    ensures |Cumulative(sha, xs)| == if xs == [] then 0 else HASH_LENGTH
  {
    if xs != [] {
      CumulativeWidth(sha, xs[..|xs| - 1]);
    }
  }

  // The chunk count is needed: one chunk can imitate two.
  lemma CountIsNeeded(sha: string -> string, a: string, b: string)
    requires FixedWidth(sha, HASH_LENGTH)
    ensures Cumulative(sha, [a, b]) == Cumulative(sha, [sha(a) + sha(b)])
  {
    assert [a, b][..1] == [a] && [a][..0] == [];
    assert [sha(a) + sha(b)][..0] == [];
    assert |sha(a)| == HASH_LENGTH;
  }

  // ------------------------------------------------ what the output's hash binds

  // The payload of the i-th event in sequence order.
  function PayloadAt(env: Env, promptHash: string, modelID: string, chunks: seq<Chunk>, i: nat): Payload
    requires i < |chunks| + 3
  {
    if i == 0 then InputPayload(promptHash)
    else if i == 1 then ModelPayload(modelID)
    else if i < |chunks| + 2 then
      var k := i - 2;
      ChunkPayload(k, env.sha(chunks[k].content), Cumulative(env.sha, Contents(chunks[..k + 1])),
                   env.bytes(chunks[k].content),
                   chunks[k].finishReason, chunks[k].model)
    else
      OutputPayload(env.sha(Concatenation(chunks)), env.bytes(Concatenation(chunks)))
  }

  // The fields hashed into it: they contain the hash of the event before it.
  function DraftAt(env: Env, promptHash: string, modelID: string, chunks: seq<Chunk>, i: nat): Draft
    requires i < |chunks| + 3
  {
    Draft(env.stamp(i).id, env.trace, env.stamp(i).time, i + 1, PayloadAt(env, promptHash, modelID, chunks, i),
          env.stamp(i).details,
          if i == 0 then "" else env.eventHash(DraftAt(env, promptHash, modelID, chunks, i - 1)))
  }

  lemma {:induction false} EventAt(env: Env, promptHash: string, modelID: string, chunks: seq<Chunk>,
                                   events: seq<Event>, i: nat)
    requires Streamed(env, promptHash, modelID, chunks, events) && i < |chunks| + 3
    ensures InOrder(events)[i].hash == env.eventHash(DraftAt(env, promptHash, modelID, chunks, i))
  {
    var chain := InOrder(events);
    if i > 0 {
      EventAt(env, promptHash, modelID, chunks, events, i - 1);
      if 2 <= i < |chunks| + 2 {
        assert chain[i] == events[3..][i - 2] && LinkedChunkAt(events[1], events[3..], i - 2);
        assert RecordsChunk(env, events[3..], chunks, i - 2);
      }
    }
  }

  // The last position, counted from the output backwards, at which two chains differ.
  function DraftCollision(env: Env, ph: string, id: string, xs: seq<Chunk>,
                          env': Env, ph': string, id': string, ys: seq<Chunk>, i: nat, j: nat): (Draft, Draft)
    requires i < |xs| + 3 && j < |ys| + 3
  {
    var x, y := DraftAt(env, ph, id, xs, i), DraftAt(env', ph', id', ys, j);
    if x != y || i == 0 || j == 0 then (x, y)
    else DraftCollision(env, ph, id, xs, env', ph', id', ys, i - 1, j - 1)
  }

  ghost predicate SameDrafts(env: Env, ph: string, id: string, xs: seq<Chunk>,
                             env': Env, ph': string, id': string, ys: seq<Chunk>, n: nat)
    requires n <= |xs| + 3 && n <= |ys| + 3
  {
    forall i :: 0 <= i < n ==> DraftAt(env, ph, id, xs, i) == DraftAt(env', ph', id', ys, i)
  }

  lemma SameDraftsMore(env: Env, ph: string, id: string, xs: seq<Chunk>,
                       env': Env, ph': string, id': string, ys: seq<Chunk>, n: nat)
    requires n < |xs| + 3 && n < |ys| + 3
    requires DraftAt(env, ph, id, xs, n) == DraftAt(env', ph', id', ys, n)
    requires SameDrafts(env, ph, id, xs, env', ph', id', ys, n)
    ensures SameDrafts(env, ph, id, xs, env', ph', id', ys, n + 1)
  {
  }

  lemma {:induction false} HashBinds(env: Env, ph: string, id: string, xs: seq<Chunk>,
                                     env': Env, ph': string, id': string, ys: seq<Chunk>, i: nat, j: nat)
    requires env.eventHash == env'.eventHash && i < |xs| + 3 && j < |ys| + 3
    requires env.eventHash(DraftAt(env, ph, id, xs, i)) == env.eventHash(DraftAt(env', ph', id', ys, j))
    ensures (i == j && SameDrafts(env, ph, id, xs, env', ph', id', ys, i + 1))
            || (var c := DraftCollision(env, ph, id, xs, env', ph', id', ys, i, j);
                c.0 != c.1 && env.eventHash(c.0) == env.eventHash(c.1))
    decreases i
  {
    var x, y := DraftAt(env, ph, id, xs, i), DraftAt(env', ph', id', ys, j);
    if x == y {
      assert i == j;
      if i > 0 {
        assert x.prevHash == env.eventHash(DraftAt(env, ph, id, xs, i - 1));
        assert y.prevHash == env.eventHash(DraftAt(env', ph', id', ys, i - 1));
        HashBinds(env, ph, id, xs, env', ph', id', ys, i - 1, i - 1);
        if SameDrafts(env, ph, id, xs, env', ph', id', ys, i) {
          SameDraftsMore(env, ph, id, xs, env', ph', id', ys, i);
        }
      }
    }
  }

  // Two streams whose output events have one hash recorded the same events, and as many:
  // same prompt, model, chunk hashes and finish reasons. Otherwise DraftCollision is a
  // collision of the event hash.
  lemma OutputHashBinds(env: Env, ph: string, id: string, xs: seq<Chunk>, events: seq<Event>,
                        env': Env, ph': string, id': string, ys: seq<Chunk>, events': seq<Event>)
    requires Streamed(env, ph, id, xs, events) && Streamed(env', ph', id', ys, events')
    requires env.eventHash == env'.eventHash && events[2].hash == events'[2].hash
    ensures (|xs| == |ys| && SameDrafts(env, ph, id, xs, env', ph', id', ys, |xs| + 3))
            || (var c := DraftCollision(env, ph, id, xs, env', ph', id', ys, |xs| + 2, |ys| + 2);
                c.0 != c.1 && env.eventHash(c.0) == env.eventHash(c.1))
  {
    EventAt(env, ph, id, xs, events, |xs| + 2);
    EventAt(env', ph', id', ys, events', |ys| + 2);
    HashBinds(env, ph, id, xs, env', ph', id', ys, |xs| + 2, |ys| + 2);
  }

  // And the same drafts mean the same prompt hash, model and chunks, or two different
  // chunk contents at one position have the same hash.
  lemma DraftsBind(env: Env, ph: string, id: string, xs: seq<Chunk>,
                   env': Env, ph': string, id': string, ys: seq<Chunk>)
    requires |xs| == |ys| && env.sha == env'.sha
    requires SameDrafts(env, ph, id, xs, env', ph', id', ys, |xs| + 3)
    ensures ph == ph' && id == id'
    ensures forall k :: 0 <= k < |xs| ==>
              xs[k] == ys[k] || ShaCollision(env.sha, xs[k].content, ys[k].content)
  {
    assert DraftAt(env, ph, id, xs, 0).payload == DraftAt(env', ph', id', ys, 0).payload;
    assert DraftAt(env, ph, id, xs, 1).payload == DraftAt(env', ph', id', ys, 1).payload;
    forall k | 0 <= k < |xs|
      ensures xs[k] == ys[k] || ShaCollision(env.sha, xs[k].content, ys[k].content)
    {
      assert DraftAt(env, ph, id, xs, k + 2).payload == DraftAt(env', ph', id', ys, k + 2).payload;
    }
  }

  // --------------------------------------------- down to SHA-256 over strings

  // How the hashed fields are written: instants, numbers and payloads as strings.
  datatype Encoding = Encoding(clock: int -> string, decimal: int -> string, json: (Payload, string) -> string)

  predicate Plain(s: string) {
    '|' !in s
  }

  function Kind(p: Payload): string {
    match p
    case InputPayload(_) => "INPUT"
    case ModelPayload(_) => "MODEL"
    case ChunkPayload(_, _, _, _, _, _) => "CHUNK"
    case OutputPayload(_, _) => "OUTPUT"
  }

  // The string an event hash is computed from.
  function Head(enc: Encoding, d: Draft): string {
    ((d.id + "|" + d.trace) + "|" + Kind(d.payload)) + "|" + enc.clock(d.time)
  }

  function Joined(sha: string -> string, enc: Encoding, d: Draft): string {
    (Head(enc, d) + "|" + enc.decimal(d.sequence)) + "|" + sha(enc.json(d.payload, d.details))
    + (if d.prevHash == "" then "" else "|" + d.prevHash)
  }

  // Sequence numbers are 64-bit integers.
  const INT64_LIMIT: int := 0x8000_0000_0000_0000

  // Encodings can be read back, separators do not occur in sequence numbers, instants or
  // digests, and no sequence number is as long as a digest.
  ghost predicate Readable(sha: string -> string, enc: Encoding) {
    && FixedWidth(sha, HASH_LENGTH)
    && (forall s :: Plain(sha(s)))
    && (forall t :: Plain(enc.clock(t)))
    && (forall n | 0 <= n < INT64_LIMIT :: Plain(enc.decimal(n)) && |enc.decimal(n)| < HASH_LENGTH)
    && (forall t, u :: enc.clock(t) == enc.clock(u) ==> t == u)
    && (forall m, n | 0 <= m < INT64_LIMIT && 0 <= n < INT64_LIMIT :: enc.decimal(m) == enc.decimal(n) ==> m == n)
    && (forall p, q, d, e :: enc.json(p, d) == enc.json(q, e) ==> p == q && d == e)
  }

  // The last separator of a string is where a part without separators begins.
  lemma SplitLast(a: string, b: string, c: string, d: string)
    requires a + "|" + b == c + "|" + d && Plain(b) && Plain(d)
    ensures a == c && b == d
  {
    var s := a + "|" + b;
    assert s[|a|] == '|' && s[|c|] == '|';
    assert forall k :: |a| < k < |s| ==> s[k] in b;
    assert forall k :: |c| < k < |s| ==> s[k] in d;
    assert a + ("|" + b) == s == c + ("|" + d);
    SameCut(a, "|" + b, c, "|" + d);
    assert b == ("|" + b)[1..] && d == ("|" + d)[1..];
  }

  lemma SplitFirst(a: string, b: string, c: string, d: string)
    requires a + "|" + b == c + "|" + d && Plain(a) && Plain(c)
    ensures a == c && b == d
  {
    var s := a + "|" + b;
    assert s[|a|] == '|' && s[|c|] == '|';
    assert forall k :: 0 <= k < |a| ==> s[k] in a;
    assert forall k :: 0 <= k < |c| ==> s[k] in c;
    assert a + ("|" + b) == s == c + ("|" + d);
    SameCut(a, "|" + b, c, "|" + d);
    assert b == ("|" + b)[1..] && d == ("|" + d)[1..];
  }

  lemma HeadBinds(sha: string -> string, enc: Encoding, d: Draft, e: Draft)
    requires Readable(sha, enc) && Plain(d.id) && Plain(e.id) && Head(enc, d) == Head(enc, e)
    ensures d.id == e.id && d.trace == e.trace && d.time == e.time
  {
    SplitLast((d.id + "|" + d.trace) + "|" + Kind(d.payload), enc.clock(d.time),
              (e.id + "|" + e.trace) + "|" + Kind(e.payload), enc.clock(e.time));
    SplitLast(d.id + "|" + d.trace, Kind(d.payload), e.id + "|" + e.trace, Kind(e.payload));
    SplitFirst(d.id, d.trace, e.id, e.trace);
  }

  // A draft in a chain: its ID has no separator and the hash before it is one, or absent.
  ghost predicate Linkable(d: Draft) {
    && Plain(d.id) && 0 <= d.sequence < INT64_LIMIT
    && Plain(d.prevHash) && (d.prevHash == "" || |d.prevHash| == HASH_LENGTH)
  }

  // The parts at the end of the string can be told apart.
  lemma TailBinds(a: string, m: string, x: string, p: string, b: string, n: string, y: string, q: string)
    requires Plain(m) && Plain(n) && |m| < HASH_LENGTH && |n| < HASH_LENGTH
    requires Plain(x) && Plain(y) && |x| == |y| == HASH_LENGTH
    requires Plain(p) && Plain(q) && (p == "" || |p| == HASH_LENGTH) && (q == "" || |q| == HASH_LENGTH)
    requires (a + "|" + m) + "|" + x + (if p == "" then "" else "|" + p)
             == (b + "|" + n) + "|" + y + (if q == "" then "" else "|" + q)
    ensures a == b && m == n && x == y && p == q
  {
    var u, v := a + "|" + m, b + "|" + n;
    if p == "" && q == "" {
      assert u + "|" + x + "" == u + "|" + x && v + "|" + y + "" == v + "|" + y;
      SplitLast(u, x, v, y);
    } else if p == "" {
      assert u + "|" + x + "" == u + "|" + x && v + "|" + y + ("|" + q) == (v + "|" + y) + "|" + q;
      SplitLast(u, x, v + "|" + y, q);
      SplitLast(a, m, v, y);
      assert false;
    } else if q == "" {
      assert v + "|" + y + "" == v + "|" + y && u + "|" + x + ("|" + p) == (u + "|" + x) + "|" + p;
      SplitLast(u + "|" + x, p, v, y);
      SplitLast(u, x, b, n);
      assert false;
    } else {
      assert u + "|" + x + ("|" + p) == (u + "|" + x) + "|" + p && v + "|" + y + ("|" + q) == (v + "|" + y) + "|" + q;
      SplitLast(u + "|" + x, p, v + "|" + y, q);
      SplitLast(u, x, v, y);
    }
    SplitLast(a, m, b, n);
  }

  // Two different drafts with one event hash show two different strings with one SHA-256:
  // the joined fields, or the payloads.
  lemma DraftCollisionIsSha(sha: string -> string, enc: Encoding, d: Draft, e: Draft)
    requires Readable(sha, enc) && Linkable(d) && Linkable(e)
    requires d != e && sha(Joined(sha, enc, d)) == sha(Joined(sha, enc, e))
    ensures ShaCollision(sha, Joined(sha, enc, d), Joined(sha, enc, e))
            || ShaCollision(sha, enc.json(d.payload, d.details), enc.json(e.payload, e.details))
  {
    if Joined(sha, enc, d) == Joined(sha, enc, e) {
      TailBinds(Head(enc, d), enc.decimal(d.sequence), sha(enc.json(d.payload, d.details)), d.prevHash,
                Head(enc, e), enc.decimal(e.sequence), sha(enc.json(e.payload, e.details)), e.prevHash);
      HeadBinds(sha, enc, d, e);
    }
  }

  // The event hash is SHA-256 of the joined fields, and event IDs have no separator.
  ghost predicate HashesJoined(env: Env, enc: Encoding) {
    && Readable(env.sha, enc)
    && (forall d :: env.eventHash(d) == env.sha(Joined(env.sha, enc, d)))
    && (forall i :: Plain(env.stamp(i).id))
  }

  lemma DraftLinkable(env: Env, enc: Encoding, ph: string, id: string, xs: seq<Chunk>, i: nat)
    requires HashesJoined(env, enc) && i < |xs| + 3 < INT64_LIMIT
    ensures Linkable(DraftAt(env, ph, id, xs, i))
  {
    if i > 0 {
      var before := DraftAt(env, ph, id, xs, i - 1);
      assert env.eventHash(before) == env.sha(Joined(env.sha, enc, before));
    }
  }

  lemma {:induction false} DraftCollisionLinkable(env: Env, enc: Encoding, ph: string, id: string, xs: seq<Chunk>,
                                                  env': Env, ph': string, id': string, ys: seq<Chunk>, i: nat, j: nat)
    requires HashesJoined(env, enc) && HashesJoined(env', enc)
    requires i < |xs| + 3 < INT64_LIMIT && j < |ys| + 3 < INT64_LIMIT
    ensures var c := DraftCollision(env, ph, id, xs, env', ph', id', ys, i, j); Linkable(c.0) && Linkable(c.1)
    decreases i
  {
    DraftLinkable(env, enc, ph, id, xs, i);
    DraftLinkable(env', enc, ph', id', ys, j);
    if DraftAt(env, ph, id, xs, i) == DraftAt(env', ph', id', ys, j) && i > 0 && j > 0 {
      DraftCollisionLinkable(env, enc, ph, id, xs, env', ph', id', ys, i - 1, j - 1);
    }
  }

  // So one output hash means the same recorded events, or two different strings with one
  // SHA-256.
  lemma OutputHashBindsStrings(env: Env, enc: Encoding, ph: string, id: string, xs: seq<Chunk>, events: seq<Event>,
                               env': Env, ph': string, id': string, ys: seq<Chunk>, events': seq<Event>)
    requires HashesJoined(env, enc) && HashesJoined(env', enc)
    requires |xs| + 3 < INT64_LIMIT && |ys| + 3 < INT64_LIMIT
    requires env.sha == env'.sha && env.eventHash == env'.eventHash
    requires Streamed(env, ph, id, xs, events) && Streamed(env', ph', id', ys, events')
    requires events[2].hash == events'[2].hash
    ensures var c := DraftCollision(env, ph, id, xs, env', ph', id', ys, |xs| + 2, |ys| + 2);
            || (|xs| == |ys| && SameDrafts(env, ph, id, xs, env', ph', id', ys, |xs| + 3))
            || ShaCollision(env.sha, Joined(env.sha, enc, c.0), Joined(env.sha, enc, c.1))
            || ShaCollision(env.sha, enc.json(c.0.payload, c.0.details), enc.json(c.1.payload, c.1.details))
  {
    var c := DraftCollision(env, ph, id, xs, env', ph', id', ys, |xs| + 2, |ys| + 2);
    OutputHashBinds(env, ph, id, xs, events, env', ph', id', ys, events');
    DraftCollisionLinkable(env, enc, ph, id, xs, env', ph', id', ys, |xs| + 2, |ys| + 2);
    if c.0 != c.1 && env.eventHash(c.0) == env.eventHash(c.1) {
      DraftCollisionIsSha(env.sha, enc, c.0, c.1);
    }
  }
}
