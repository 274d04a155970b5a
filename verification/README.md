# AI-Trace: Merkle trees, causal graph, anchoring and resilience

A Dafny model of the data structures and protocols that AI-Trace's evidence rests on, with the properties they are there for. `dafny verify dfyconfig.toml` checks all of it.

- **Merkle family.** `MerkleSpec` says what the trees compute and carries the binding results. `MerkleTree` (rebuilt from scratch), `IncrementalTree` (one leaf-to-root path per append), `OfflineVerifier` (one level at a time) and `BatchTree` (padded to a power of two) are the four implementations, as loops, each proved against it. SHA-256 of two concatenated digests is an arbitrary function of the pair; security results say "equal, or this computed pair is a collision", and for leaves of equal lengths the collision is one of SHA-256 on strings. Where a failure needs an ideal hash, a free term datatype is used.
- **Causal event graph.** `EventGraph` gives the insertion of an event as a function on states and the invariant it keeps; `GraphTheorems` derives acyclicity, depth, search and order results; `Dag` is the mutable object, proved against them for every iteration order of its map; `Validator` is the causal-order check, the merge-point check and the construction from a list.
- **Batch anchorer** (`BatchAnchorer`) and **in-memory queue** (`MemoryQueue`): transition systems whose steps are the locked sections, channel operations and outside calls of any number of goroutines, in every interleaving, with the object methods proved to be those steps.
- **Circuit breaker** (`CircuitBreaker`, `Resilience`), **rate limiter** (`RateLimiter`), **two-level cache** (`TwoLevelCache` one call at a time, `CacheSteps` in every interleaving of locked sections and clock reads), **stream chain** (`StreamChain`): objects and loops, with results over whole runs.

`Bits`, `Sequences` and `Hashing` hold integer, list and concatenation facts. Time, IDs, hash functions, handler and anchor outcomes, and iteration orders are parameters or arbitrary choices. Times are unbounded integers, or reals where tokens are involved.

## Where the code and its description differ

The model follows the code.

- The incremental tree checks for 2^MaxDepth leaves, but each append also writes a spare node above the root, so from 2^(MaxDepth-1) leaves on the write runs past the preallocated levels and panics (`IncrementalTree.Tree.Append` gives both bounds exactly). The panicking append has already stored its leaf, and the levels that exist are right.
- `GetProof` of the rebuilt tree leaves out unpaired nodes although building hashes them with themselves. When the leaf count is a power of two all its proofs verify, for every hash. When it is not, some index's proof skips a node (`MerkleTree.AllProofsVerifyIffPow2`), and such a proof fails under the free hash (`MerkleTree.ProofVerifiesIff`) and under any other hash fails unless the tree shows a collision or a digest equal to its own ancestor (`MerkleTree.ShortProofAccepted`). The incremental tree's proofs always verify (`MerkleSpec.PathClimbs`).
- Half-open is never stored, so when a probe fails, the transition to open finds the breaker open already and returns before it resets the probe budget (`CircuitBreaker.FailedProbeKeepsBudget`; reading the state before overwriting the failure time would change nothing). Failed probes are therefore gone for good, and an open breaker can become unable to close without Reset (`CircuitBreaker.RecoverableIff`, `CircuitBreaker.FailedProbesStarveIff`), after which it refuses every request once its probes are spent (`CircuitBreaker.ServesIff`). With the default thresholds one failed probe is enough, provided no other request is outstanding (`CircuitBreaker.DefaultsStarve`).
- The stream result lists the output event before the chunk events. Ordered by sequence number the chain is causal; as listed it is only in the case `StreamChain.ListedCausalIff` states.
- Evicting idle clients is invisible, and the rate bound holds, only if an empty bucket refills within the clean-up interval (`RateLimiter.EvictionInvisibleIff`, `RateLimiter.WindowBoundIff`); nothing in the configuration enforces that.
- A call on the two-level cache is several locked sections with a clock read each. That its reads answer what was last written, within a stated bound, is guaranteed exactly when the first level has a lifetime and none of three kinds of clash between calls on one key can happen (`CacheSteps.GuaranteedIff`); the source does nothing to rule the clashes out, and for each `CacheSteps` gives a run that ends, after every call has returned, in a wrong answer. Even without a clash an expired value is answered for one L1 lifetime after a refill that may itself come late (`CacheSteps.StalenessReached`).

## Model

| member | source | states |
|---|---|---|
| `MerkleTree.BuildTree` | server/internal/merkle/tree.go:53-81 | The loop over growing slices produces exactly the levels of the recursive definition: neighbours hashed, an unpaired node hashed with itself, down to one node; no levels for no leaves |
| `MerkleTree.NewTree` | server/internal/merkle/tree.go:33-50 | Fails exactly on the empty list; otherwise the root is the single node of the last level |
| `MerkleTree.GetProof` | server/internal/merkle/tree.go:92-130 | Out-of-range indices fail; otherwise the leaf, the root and the sibling path in which unpaired nodes contribute nothing |
| `MerkleTree.VerifyProof` | server/internal/merkle/tree.go:133-145 | Accepts exactly when climbing the path from the leaf, each sibling on its stated side, ends in the stated root |
| `MerkleTree.ProofVerifiesIff` | server/internal/merkle/tree.go:92-145 | For every hash the proof of an index verifies when no node on its path below the root is unpaired; under an injective (free) hash it verifies if and only if that is so |
| `MerkleTree.ShortPathSize` | server/internal/merkle/tree.go:65-72 | Under the free hash a path that skipped a duplicated node climbs to a strictly smaller term than the root: the measure behind the failure |
| `MerkleTree.AllProofsVerifyIffPow2` | server/internal/merkle/tree.go:113-126 | Every index of an n-leaf tree has a complete path if and only if n is a power of two; otherwise the last leaf is one that has not |
| `MerkleTree.ShortProofAccepted` | server/internal/merkle/tree.go:92-145 | For every hash: an accepted proof that omitted an unpaired node shows an explicitly computed collision, or a digest of the tree equal to one of its own ancestors |
| `MerkleSpec.LevelsAre` | server/internal/merkle/tree.go:53-81 | The list of levels has the height of the tree, its k-th entry is k halvings of the leaves, its last entry is the root alone |
| `MerkleSpec.PathClimbs` | server/internal/merkle/incremental.go:192-240 | The path with duplicated siblings of every index, in a tree of any size, climbs to the root, has height minus one nodes and its sides spell the index in binary |
| `MerkleSpec.PathBinding` | server/internal/merkle/incremental.go:257-273 | Two climbs of equal length with the sides of one index that reach one digest started from the same leaf through the same siblings, or an explicitly computed pair of different inputs has the same hash |
| `MerkleSpec.RootBinding` | server/internal/merkle/tree.go:53-89 | Equally long leaf lists with one root are equal, or an explicitly computed collision exists |
| `MerkleSpec.RepeatedLastLeaf` | server/internal/merkle/tree.go:65-72 | The equal length is needed: repeating the last leaf of an odd list (longer than one) keeps the root |
| `MerkleSpec.PathBindingJoined` | server/internal/merkle/tree.go:84-89 | With pairs hashed as concatenations and digests of one length: two climbs to one digest from leaves of equal length agree, or two different strings have one hash |
| `MerkleSpec.RootBindingJoined` | server/internal/merkle/tree.go:84-89 | The same for the roots of two leaf lists with pairwise equal lengths |
| `MerkleSpec.LengthsNeeded` | server/internal/merkle/tree.go:84-89 | The lengths are needed: for every hash and all strings, moving a part from the end of one leaf to the start of the next keeps the root of the two |
| `IncrementalTree.Tree.constructor` | server/internal/merkle/incremental.go:53-59 | The new tree is valid and has no leaves |
| `IncrementalTree.Tree.CurrentHeight` | server/internal/merkle/incremental.go:141-153 | The halving loop returns the number of levels of a tree over the leaf count, 0 for none |
| `IncrementalTree.Tree.RewriteParent` | server/internal/merkle/incremental.go:106-137 | One turn of the path update replaces or appends the last parent and touches no other slot; it runs past the slots exactly on the top level |
| `IncrementalTree.RebuiltParent` | server/internal/merkle/incremental.go:106-137 | Rewriting only the last parent of the level stored for the old leaves gives the level a full rebuild over all leaves has |
| `IncrementalTree.Tree.RebuildLevel` | server/internal/merkle/incremental.go:106-137 | The same turn as a refinement step: the slot above comes to hold the rebuilt level |
| `IncrementalTree.Tree.UpdatePath` | server/internal/merkle/incremental.go:103-138 | After one leaf-to-root pass every slot equals the full rebuild, the slot above the root holds the one spare node, higher slots are empty; it fails exactly when the leaf count passes 2^(MaxDepth-1) |
| `IncrementalTree.SpareFits` | server/internal/merkle/incremental.go:46-59 | The spare node of n leaves has a slot if and only if n <= 2^(MaxDepth-1) |
| `IncrementalTree.Tree.Append` | server/internal/merkle/incremental.go:63-81 | Keeps the refinement; refuses exactly at 2^MaxDepth leaves and panics exactly between 2^(MaxDepth-1) and that, so the smaller bound is tight |
| `IncrementalTree.Tree.AppendBatch` | server/internal/merkle/incremental.go:84-100 | Refuses the whole batch when it would pass 2^MaxDepth; otherwise appends all leaves, or those up to and including the first one that panics |
| `IncrementalTree.Tree.RootLocked` | server/internal/merkle/incremental.go:172-188 | The root of a full rebuild over all leaves, or the empty-tree error exactly when there are none; the corrupted-tree error never occurs |
| `IncrementalTree.Tree.CollectPath` | server/internal/merkle/incremental.go:212-237 | The loop over the stored levels collects the complete path of the index |
| `IncrementalTree.Tree.GetProof` | server/internal/merkle/incremental.go:192-240 | For every valid tree and index: the leaf, the rebuilt root and the complete path; otherwise the index error |
| `IncrementalTree.Verify` | server/internal/merkle/incremental.go:257-273 | Accepts exactly when the path climbs from the leaf hash to the stated root |
| `IncrementalTree.AcceptedProofBinds` | server/internal/merkle/incremental.go:192-273 | An accepted proof against the tree's root, of its path length and with the sides of its index, carries that very leaf and siblings, or exhibits a collision |
| `IncrementalTree.Tree.GetConsistencyProof` | server/internal/merkle/incremental.go:375-409 | OldRoot is the root of the first oldSize leaves, which is the root the tree had then; NewRoot is the current one; index errors and the panic past the usable capacity are exact |
| `Bits.BitAndPredecessor` | server/internal/anchor/batch.go:450-452 | n & (n-1) is zero exactly for powers of two |
| `BatchTree.PaddedSizeIsLeast` | server/internal/anchor/batch.go:449-452 | The padded size is a power of two, at least the leaf count, and no larger than any other such number |
| `BatchTree.Pad` | server/internal/anchor/batch.go:449-452 | The padding loop terminates with the leaves followed by copies of the last one, at exactly that size |
| `BatchTree.Build` | server/internal/anchor/batch.go:444-469 | Root and levels of the tree over the padded leaves; the unchecked index i+1 is always in range; nothing for no leaves |
| `BatchTree.GetBatchProof` | server/internal/anchor/batch.go:472-487 | All siblings along the path: the bounds test inside the loop never skips one |
| `BatchTree.VerifyBatchProof` | server/internal/anchor/batch.go:490-506 | Accepts exactly when the climb, with the side of each sibling taken from the digits of the index, ends in the root; negative indices included, with division towards zero |
| `BatchTree.BatchProofVerifies` | server/internal/anchor/batch.go:444-506 | For every leaf list and every original index the proof verifies against the batch root, and 2^length of the proof is the padded size |
| `BatchTree.BatchProofBinds` | server/internal/anchor/batch.go:472-506 | An accepted proof of that length for an original index is that leaf with its own siblings, or exhibits a collision |
| `BatchTree.BatchProofBindsStrings` | server/internal/anchor/batch.go:490-506 | For an item as long as the leaf, an accepted proof is that leaf with its siblings or shows a collision of the string hash |
| `BatchTree.ItemLengthNeeded` | server/internal/anchor/batch.go:490-506 | Root hashes are not checked on submission: in every batch and for every hash, a leaf at an even index extended by the start of the next leaf is accepted with the rest of that leaf as first sibling |
| `OfflineVerifier.BuildMerkleRoot` | verifier/pkg/verify/verifier.go:332-352 | Keeping one level at a time gives the same root as the full rebuild, and the empty string for no leaves |
| `OfflineVerifier.VerifyMerkleProof` | verifier/pkg/verify/verifier.go:317-329 | Accepts exactly the climbs the server's VerifyProof accepts |
| `OfflineVerifier.VerifyProof` | verifier/pkg/verify/verifier.go:155-228 | Valid exactly when the schema version is set, the root hash is prefixed, there is a proof and every proof climbs to the root; and exactly when all five checks passed |
| `OfflineVerifier.VerifyCertificate` | verifier/pkg/verify/verifier.go:231-314 | Valid exactly when the certificate ID and event list are not empty and the rebuilt root matches (tree attached) or the root hash is prefixed (no tree); and exactly when all six checks passed |
| `OfflineVerifier.IssueAndVerify` | server/internal/api/certs.go:106-157 | A certificate issued over the server's tree with the tree attached passes the offline verifier if and only if it has an ID |
| `OfflineVerifier.CertificateBindsEvents` | verifier/pkg/verify/verifier.go:264-273 | Two valid certificates with trees, one root hash and equally many events list the same events, or exhibit a collision |
| `OfflineVerifier.CertificateBindsStrings` | verifier/pkg/verify/verifier.go:264-273 | For event hashes of pairwise equal lengths the collision is one of the string hash |
| `OfflineVerifier.ServerProofsAccepted` | verifier/pkg/verify/verifier.go:185-206 | For every hash, disclosure proofs taken from the server's tree are accepted when no disclosed index has an unpaired node below the root |
| `OfflineVerifier.ServerProofsIff` | verifier/pkg/verify/verifier.go:185-206 | And only then, unless the tree shows a collision along the path or a digest that is its own ancestor |
| `BatchAnchorer.BatchAnchorer.SubmitItem` | server/internal/anchor/batch.go:174-197 | Appends to the pending items with the next token, or refuses exactly when closed |
| `BatchAnchorer.BatchAnchorer.Drain` | server/internal/anchor/batch.go:233-242 | Moves everything pending into one new batch and leaves nothing pending; nothing happens when nothing is pending |
| `BatchAnchorer.BatchAnchorer.CreateBatch` | server/internal/anchor/batch.go:244-294 | The batch holds the drained items sorted by priority then submit time, with root and levels of their padded tree; one more batch is counted |
| `BatchAnchorer.BatchAnchorer.AnchorAttempt` | server/internal/anchor/batch.go:304-358 | One turn of the retry loop: success decides, with transaction hash, block height and time; an error retries up to RetryCount times and then fails the batch with the last error |
| `BatchAnchorer.BatchAnchorer.NotifyItem` | server/internal/anchor/batch.go:363-382 | The next item is sent the batch outcome (transaction data or error text), the root, its own proof and its index, without waiting: a full channel is skipped |
| `BatchAnchorer.BatchAnchorer.NotifyResults` | server/internal/anchor/batch.go:362-384 | Uninterrupted, the loop is one such step for each item of the batch |
| `BatchAnchorer.BatchAnchorer.UpdateStats` | server/internal/anchor/batch.go:387-402 | The batch's items are counted once, as successful or failed, with the gas estimate of a successful batch and the average batch size |
| `BatchAnchorer.SortItems` | server/internal/anchor/batch.go:246-251 | A permutation sorted by (priority, submit time) |
| `BatchAnchorer.NextPlaced` | server/internal/anchor/batch.go:156-384 | Every step keeps each accepted item in exactly one place: once in pending or once in a single batch |
| `BatchAnchorer.NextBatchesOk` | server/internal/anchor/batch.go:233-359 | No step undoes what CreateBatch and SortItems establish: each batch stays a sorted permutation of what was drained, under the root of its own tree, within its retries |
| `BatchAnchorer.NextBalanced` | server/internal/anchor/batch.go:174-402 | Every step keeps accepted = pending + in flight + successful + failed, and the counters of items, batches and saved gas exact |
| `BatchAnchorer.NextUntold` | server/internal/anchor/batch.go:376-382 | The next item of a decided batch was sent nothing before, so its channel has room: it is in no other place and no place is told twice |
| `BatchAnchorer.NotifyKeepsSends` | server/internal/anchor/batch.go:362-384 | A notification sends its item exactly one result, the outcome of its one batch with its own index and proof |
| `BatchAnchorer.RunKeepsInv` | server/internal/anchor/batch.go:156-402 | All of these hold in every state of every interleaving of submits, flushes, anchor attempts, notifications and Stop |
| `BatchAnchorer.DeliveredProofsVerify` | server/internal/anchor/batch.go:362-384 | In every run each result sent is for an item of its batch and carries a proof that verifies for the item's root hash and index against the batch root |
| `BatchAnchorer.OutcomeIff` | server/internal/anchor/batch.go:304-358 | In every run a batch has an outcome if and only if the answers given for it call for that one: anchored with the transaction of a success after at most RetryCount errors, or failed with the last of RetryCount + 1 errors |
| `BatchAnchorer.SentOutcome` | server/internal/anchor/batch.go:304-384 | In every run each result sent carries the outcome that the service's answers for its batch call for |
| `BatchAnchorer.SentForSubmitted` | server/internal/anchor/batch.go:174-384 | In every run each result sent is for an item submitted before Stop, and its proof verifies for the root hash submitted with it |
| `BatchAnchorer.GasExact` | server/internal/anchor/batch.go:387-402 | In every run the saving is 100000 for each anchored item less 100000 for each batch that was anchored and counted |
| `BatchAnchorer.OneSendPerItem` | server/internal/anchor/batch.go:362-384 | In every run, whatever was received meanwhile: no item is sent a second result, the default branch of the select is never taken, and every item of a counted batch was sent its result |
| `BatchAnchorer.DrainedForGood` | server/internal/anchor/batch.go:156-197 | Once closed and drained, pending stays empty for ever |
| `BatchAnchorer.AllAnswered` | server/internal/anchor/batch.go:297-402 | When nothing is pending and every batch is counted, every accepted item was sent its result and accepted = successful + failed |
| `BatchAnchorer.MeasureDrops` | server/internal/anchor/batch.go:233-402 | Every such step lowers a measure made of items, retries left, notifications left and results not yet received |
| `BatchAnchorer.Quiesces` | server/internal/anchor/batch.go:233-402 | Without submissions no run of flushes, attempts, notifications, counts and receipts is longer than the measure, so the anchorer comes to rest |
| `BatchAnchorer.SettledIff` | server/internal/anchor/batch.go:233-402 | The anchorer itself has no step left exactly when nothing is pending or uncounted and every batch is counted |
| `BatchAnchorer.RestAccounted` | server/internal/anchor/batch.go:156-402 | In every run that has come to rest, every accepted item was sent its result, and accepted = counted = successful + failed |
| `EventGraph.InsertKeepsInv` | server/internal/dag/dag.go:55-150 | Accepting an event keeps: back-links mirror links with multiplicity, links name declared hashes among earlier events, leaves are exactly the nodes without successors, roots exactly those with no declared predecessor, depth is one more than the deepest predecessor |
| `EventGraph.ReachableInv` | server/internal/dag/dag.go:55-150 | Hence every reachable DAG has all of that |
| `EventGraph.RootsExact` | server/internal/dag/dag.go:72-76 | Roots hold exactly the events without declared predecessors |
| `EventGraph.ReachableLinks` | server/internal/dag/dag.go:71-122 | In every reachable DAG an event is linked to earlier events whose hashes its list (or without a list its single hash) names, to one for each such hash that an earlier event carries, and is a root exactly when it names none |
| `Dag.DAG.FindNodeByHash` | server/internal/dag/dag.go:125-132 | For any map iteration order: a node with that hash, or none when no node has it |
| `Dag.DAG.LinkPredecessors` | server/internal/dag/dag.go:77-95 | One link per declared hash some node carries, in order, orphans skipped, with the mirrored successor entries and the resulting depth |
| `Dag.DAG.UpdateLeaves` | server/internal/dag/dag.go:135-150 | The old leaves still without successors, in order, then the new node |
| `Dag.DAG.HasCycleFrom` | server/internal/dag/dag.go:153-167 | True if and only if some walk from the node returns to itself or to the current path |
| `Dag.DAG.AddEvent` | server/internal/dag/dag.go:55-122 | Refuses exactly repeated IDs and then changes nothing; otherwise links what the hashes of the list name, or without a list the single hash, and makes the event a root exactly when it has neither; the new state is the specified insertion and the cycle error never occurs |
| `GraphTheorems.Acyclic` | server/internal/dag/dag.go:153-167 | No reachable DAG has a cycle |
| `GraphTheorems.DepthIsLongestChain` | server/internal/dag/dag.go:90-93 | Depth is the length of the longest predecessor chain: attained by one and exceeded by none |
| `GraphTheorems.SameDepthUnrelated` | server/internal/dag/dag.go:245-269 | Events of one depth are not connected by any path |
| `Dag.DAG.Visit` | server/internal/dag/dag.go:211-223 | A visit appends the unvisited ancestors and then the node, keeping every predecessor before its successors |
| `Dag.DAG.TopologicalSort` | server/internal/dag/dag.go:203-231 | For any map iteration order: every event once, each after all its linked predecessors; causal whenever the insertion order was |
| `GraphTheorems.TopologicalIsCausal` | server/internal/dag/dag.go:203-231 | A topological order of a causally inserted DAG passes the causal-order check |
| `Dag.DAG.GetEventsByDepth` | server/internal/dag/dag.go:234-243 | Each depth that occurs maps to exactly the events of that depth, once each |
| `Dag.DAG.GetParallelEvents` | server/internal/dag/dag.go:247-269 | Exactly the depth groups of two or more events, shallowest first, and no two events of a group connected by a path |
| `Dag.DAG.GetPath` | server/internal/dag/dag.go:337-380 | Not-found errors are exact; a path found runs along successor edges from start to goal and is a shortest one; no path is reported exactly when there is none |
| `Dag.DAG.WalkBack` | server/internal/dag/dag.go:362-367 | Following the parents terminates with a walk of the recorded distance |
| `GraphTheorems.BfsShortest` | server/internal/dag/dag.go:352-377 | When the goal reaches the head of the queue its distance is at most the length of any walk |
| `GraphTheorems.BfsExhausted` | server/internal/dag/dag.go:352-380 | When the queue is empty everything reachable was processed |
| `Dag.DAG.GetAncestors` | server/internal/dag/dag.go:383-408 | Without duplicates, exactly the events from which a non-empty walk leads here |
| `Dag.DAG.GetDescendants` | server/internal/dag/dag.go:411-436 | Without duplicates, exactly the events to which a non-empty walk leads from here, the converse relation |
| `Validator.ValidateCausalOrder` | server/internal/dag/validator.go:169-212 | True if and only if every non-empty hash in every event's list, and every non-empty single hash of an event without a list, belongs to an earlier event |
| `Validator.VerifyMergePoint` | server/internal/dag/validator.go:138-165 | For more than one declared hash: true if and only if declared and predecessor hashes are the same multiset; the event's own list is left sorted |
| `Validator.SortedUnique` | server/internal/dag/validator.go:148-162 | Two sorted string lists with the same elements are equal, which is why comparing position by position decides |
| `Validator.BuildDAGFromEvents` | server/internal/dag/validator.go:238-255 | For every tie choice of the sort: no DAG exactly when two events of the input share an ID; otherwise a DAG holding exactly the events, accepted in a time-sorted order |
| `Validator.BuiltLinksAll` | server/internal/dag/validator.go:238-255 | With unique hashes and events later than those they name, an event is linked to exactly the events of the input it names |
| `Validator.BuiltIndependent` | server/internal/dag/validator.go:238-255 | Under the same conditions two permutations of the input give the same graph, depths, roots and leaves |
| `Validator.TieOrderMatters` | server/internal/dag/validator.go:238-255 | That events are later than those they name is needed: for two simultaneous events of which one names the other, both orders are sorted and give graphs with different links and depths |
| `GraphTheorems.LinksUnique` | server/internal/dag/validator.go:244-252 | With unique hashes the linked predecessors are determined by the events alone |
| `MemoryQueue.MemoryQueue.TrySend` | server/internal/queue/queue.go:137-145 | Sends the message with the configured retries, or reports a full queue exactly when the channel is full |
| `MemoryQueue.MemoryQueue.FindHandler` | server/internal/queue/queue.go:231-240 | Starts the handler of the topic, or drops the message when there is none |
| `MemoryQueue.MemoryQueue.HandlerReturned` | server/internal/queue/queue.go:242-270 | A success is counted, for its topic too; a failure with retries left is counted as retried and waits to be sent again, any other is counted failed |
| `MemoryQueue.MemoryQueue.RetrySend` | server/internal/queue/queue.go:262-267 | After the delay the message goes back to the channel, or is counted failed when the channel is full |
| `MemoryQueue.PlacesMove` | server/internal/queue/queue.go:116-270 | Every step moves a message between places; only a send adds one |
| `MemoryQueue.NextKeepsInv` | server/internal/queue/queue.go:116-270 | Every step keeps: each sent message in exactly one place, the channel within its capacity, handler calls equal to the retries used and at most MaxRetries + 1 |
| `MemoryQueue.QueueRuns` | server/internal/queue/queue.go:116-270 | In every run: that invariant, sent = processed + failed + dropped + queued + with a worker, and the topic counters add up to processed |
| `MemoryQueue.Fate` | server/internal/queue/queue.go:231-270 | In every run each message is counted processed as often as its handler succeeded and dropped as often as it had none, and it is counted failed if and only if its handler returned MaxRetries + 1 errors or a retry found the channel full |
| `MemoryQueue.RetriedExact` | server/internal/queue/queue.go:254-260 | The retried counter is the number of handler errors at which the message had retries left |
| `MemoryQueue.Fifo` | server/internal/queue/queue.go:137-262 | In every run the workers take messages in the order in which publishes and retries put them in, and what is not taken is still there |
| `MemoryQueue.QueueTopics` | server/internal/queue/queue.go:116-250 | In every run each message in flight has the topic it was published under, and the topic counters are those of the processed messages |
| `MemoryQueue.ClosedForGood` | server/internal/queue/queue.go:116-145 | Once closed, the queue accepts no more messages than there were calls past the closed check |
| `MemoryQueue.MeasureDrops` | server/internal/queue/queue.go:217-270 | Every step of a worker lowers the work left |
| `MemoryQueue.Quiesces` | server/internal/queue/queue.go:217-270 | With no further publishes a run has at most as many steps as there is work left |
| `MemoryQueue.AllAccounted` | server/internal/queue/queue.go:116-270 | When no step is left in a running queue every sent message was processed, failed or dropped, and is counted as published |
| `CircuitBreaker.CircuitBreaker.Allow` | server/internal/gateway/circuit_breaker.go:113-135 | Admits when closed, refuses when open, and while half-open (by the clock) admits and uses up a probe |
| `CircuitBreaker.CircuitBreaker.RecordSuccess` | server/internal/gateway/circuit_breaker.go:138-151 | The success step as coded, and the callback when it closes the breaker |
| `CircuitBreaker.CircuitBreaker.RecordFailure` | server/internal/gateway/circuit_breaker.go:154-172 | The failure step as coded, and the callback when it opens the breaker |
| `CircuitBreaker.CircuitBreaker.MoveTo` | server/internal/gateway/circuit_breaker.go:175-199 | The counters each transition resets, and the callback it makes |
| `CircuitBreaker.RunKeepsInv` | server/internal/gateway/circuit_breaker.go:102-210 | In every run half-open is never stored, the failure counter is the current streak and below the threshold while closed, successes count no more than the current streak, probes stay within their limit |
| `CircuitBreaker.TripsOnThreshold` | server/internal/gateway/circuit_breaker.go:154-172 | A closed breaker opens if and only if the step is the failure that completes a streak of FailureThreshold |
| `CircuitBreaker.ClosesIff` | server/internal/gateway/circuit_breaker.go:138-151 | An open breaker closes if and only if it is Reset or a success at least OpenTimeout after the last failure is the SuccessThreshold-th such success since then; earlier successes count for nothing |
| `CircuitBreaker.AnswersIff` | server/internal/gateway/circuit_breaker.go:102-135 | In every run a closed breaker admits; an open one refuses until OpenTimeout after the last failure of the run, and then admits if and only if fewer than HalfOpenMaxRequests were admitted since it tripped |
| `CircuitBreaker.ClosesOnThreshold` | server/internal/gateway/circuit_breaker.go:138-151 | So closing without Reset takes SuccessThreshold or more successes without a failure between |
| `CircuitBreaker.EpisodeAdmissions` | server/internal/gateway/circuit_breaker.go:113-199 | While it stays open every admission uses up a probe and nothing gives one back |
| `CircuitBreaker.EpisodeBound` | server/internal/gateway/circuit_breaker.go:113-199 | One open episode admits at most HalfOpenMaxRequests requests in total |
| `CircuitBreaker.FailedProbeKeepsBudget` | server/internal/gateway/circuit_breaker.go:154-189 | A failure while open changes only the failure counter and time and the successes, whether the state is read before or after the time is overwritten: the transition to open finds the stored state open already and returns |
| `CircuitBreaker.RecoverableIff` | server/internal/gateway/circuit_breaker.go:113-199 | From any instant on, an open breaker can close without Reset, under one record per admission, if and only if outstanding requests + remaining probes + successes reach SuccessThreshold |
| `CircuitBreaker.FailedProbesStarveIff` | server/internal/gateway/circuit_breaker.go:113-199 | For every configuration, trip, number of failed probes and number of other outstanding requests: the breaker can still close without Reset if and only if outstanding + HalfOpenMaxRequests - failed probes reaches SuccessThreshold |
| `CircuitBreaker.FailuresStarve` | server/internal/gateway/circuit_breaker.go:113-199 | In every disciplined run that stays open each recorded failure lowers what can still be collected by at least one |
| `CircuitBreaker.DefaultsStarve` | server/internal/gateway/circuit_breaker.go:54-61 | With the default thresholds a breaker can close after one failed probe if and only if another request is outstanding |
| `CircuitBreaker.RefusesForEver` | server/internal/gateway/circuit_breaker.go:113-199 | With the probes spent and too little outstanding, every disciplined run without Reset admits nothing, and with nothing outstanding changes nothing |
| `CircuitBreaker.ServesIff` | server/internal/gateway/circuit_breaker.go:113-199 | From any instant on, an open breaker ever admits another request without Reset if and only if a probe is left or it can still close |
| `Resilience.Retry` | server/internal/gateway/circuit_breaker.go:313-350 | The outcome is decided by the first success, the first error not worth retrying, the first wait the context ends, or the last attempt; the waits are the back-off sequence, the first of them InitialBackoff |
| `Resilience.OneOutcome` | server/internal/gateway/circuit_breaker.go:313-350 | The attempts and the ended waits leave exactly one possible outcome |
| `Resilience.BackoffIsExponential` | server/internal/gateway/circuit_breaker.go:336-346 | With a multiplier of at least one and durations that are not negative, every wait but the first is the exponential one cut at MaxBackoff; the first is not cut |
| `Resilience.BackoffBounded` | server/internal/gateway/circuit_breaker.go:336-346 | For every monotone multiplication no wait but the first is over MaxBackoff, and none over the exponential one |
| `Resilience.Execute` | server/internal/gateway/circuit_breaker.go:386-405 | One call alone: one admission and, when admitted, exactly one record of the outcome that Retry specifies, a success only when an attempt succeeded |
| `Resilience.InterleavedIsDisciplined` | server/internal/gateway/circuit_breaker.go:386-405 | Any interleaving of any number of calls is a run under the discipline the recovery results assume, with the running calls as outstanding requests |
| `RateLimiter.RateLimiter.Allow` | server/internal/middleware/middleware.go:132-165 | Admits an unknown client, and a known one exactly when the tokens left and those earned since its last call come to one or more; other keys untouched |
| `RateLimiter.RateLimiter.Cleanup` | server/internal/middleware/middleware.go:168-182 | For any iteration order removes exactly the keys silent for longer than the interval |
| `RateLimiter.SameAnswers` | server/internal/middleware/middleware.go:132-182 | With rate * CleanupInterval >= BurstSize a limiter that evicts answers every run as one that never does |
| `RateLimiter.EvictionInvisibleIff` | server/internal/middleware/middleware.go:132-182 | And if and only if: otherwise some run gets different answers |
| `RateLimiter.WindowBound` | server/internal/middleware/middleware.go:132-182 | With rate * CleanupInterval >= BurstSize, in every window of every run a key is admitted at most BurstSize + rate * length times |
| `RateLimiter.WindowBoundIff` | server/internal/middleware/middleware.go:132-182 | And if and only if: otherwise two full bursts around a clean-up break the bound |
| `RateLimiter.LevelExact` | server/internal/middleware/middleware.go:148-154 | Between two calls a client's level grows by exactly rate * elapsed, up to BurstSize |
| `RateLimiter.RefusedIff` | server/internal/middleware/middleware.go:132-182 | In every run (with eviction under that condition) a call is refused if and only if some window ending with it would pass BurstSize + rate * length with one more admission, so the answers are the most generous the bound allows |
| `RateLimiter.Spending` | server/internal/middleware/middleware.go:132-165 | If every step is paid for by a level and what is earned meanwhile, so are the admissions of a whole run |
| `TwoLevelCache.MemoryCache.Get` | server/internal/cache/cache.go:211-226 | One call alone: a hit, a miss or an expired entry, which is removed |
| `TwoLevelCache.MemoryCache.Set` | server/internal/cache/cache.go:229-248 | Stores the value with its expiry, or without one when the lifetime is not positive |
| `TwoLevelCache.MemoryCache.Cleanup` | server/internal/cache/cache.go:198-208 | For any iteration order removes exactly the expired entries |
| `TwoLevelCache.TwoLevelCache.Get` | server/internal/cache/cache.go:339-354 | One call alone, with its three clock reads: the first level's hit or else the second level's answer; a second-level hit refills the first for its own lifetime |
| `TwoLevelCache.TwoLevelCache.Set` | server/internal/cache/cache.go:357-367 | One call alone, with its two clock reads: writes both levels, the first with the smaller of the two lifetimes |
| `TwoLevelCache.SetThenGet` | server/internal/cache/cache.go:211-248 | A value set and read with nothing between is answered while the second level's lifetime, or the smaller of it and l1TTL in the first, has not passed, without end if one of them is not positive, and is expired otherwise; other keys answer as before |
| `TwoLevelCache.GetThenGet` | server/internal/cache/cache.go:339-354 | A read that refilled the first level keeps its value there for l1TTL from the refill on, or without end if l1TTL is not positive |
| `CacheSteps.GetCall` | server/internal/cache/cache.go:339-354 | The locked sections and clock reads of a Get, run without interruption, are the Get of the object |
| `CacheSteps.SetCall` | server/internal/cache/cache.go:357-367 | The same for Set |
| `CacheSteps.DeleteCall` | server/internal/cache/cache.go:370-373 | The same for Delete |
| `CacheSteps.NextKeeps` | server/internal/cache/cache.go:198-392 | Every section of any call or clean-up that does not clash keeps: the second level agrees with what is written whenever no update is half done, the first holds the written value at most one L1 lifetime past a refill that found it fresh, and a Get holds only what is still written |
| `CacheSteps.ReadsPermitted` | server/internal/cache/cache.go:339-392 | In every interleaving of sections without a clash on a key, every read of that key answers the last written value while it is fresh, possibly for one L1 lifetime after the clock read of a refill whose value was fresh when checked, and otherwise misses |
| `CacheSteps.GuaranteedIff` | server/internal/cache/cache.go:339-392 | That guarantee holds for every run if and only if the L1 lifetime is positive and none of three clashes is let in: the second level read between the two writes of an update, an update starting between the two writes of another, an update starting while a Get holds what it read there |
| `CacheSteps.TornReadBreaks` | server/internal/cache/cache.go:339-373 | A Get that reads the second level between the two writes of a Delete refills the first, so that after all calls have returned a Get answers the deleted value |
| `CacheSteps.OverlappingWritesBreak` | server/internal/cache/cache.go:357-373 | A Set between the two writes of a Delete: after both have returned its value is answered and later, though fresh and not deleted since, missed |
| `CacheSteps.TwoSetsDisagree` | server/internal/cache/cache.go:357-367 | A Set between the two writes of another: after both have returned one value is answered and later the other, with no update between |
| `CacheSteps.OverwrittenReturns` | server/internal/cache/cache.go:346-367 | A Set between a Get's read of the second level and its refill: after both have returned the overwritten value is answered |
| `CacheSteps.DeletedReturns` | server/internal/cache/cache.go:346-373 | A Delete there: after both have returned the deleted value is answered |
| `CacheSteps.WriteIsLost` | server/internal/cache/cache.go:211-226 | A Set between the read of an expired entry and its removal is lost: after all calls have returned its value is missed while fresh |
| `CacheSteps.StalenessReached` | server/internal/cache/cache.go:346-351 | Without a clash, an expired value is still answered one L1 lifetime after a refill, however late the refill |
| `CacheSteps.BoundedStaleness` | server/internal/cache/cache.go:346-351 | When every refill follows its check within a bound, no value is answered later than that bound and one L1 lifetime after its expiry |
| `StreamChain.ProxyStreamingChat` | server/internal/gateway/stream.go:151-314 | For every response the recorded chunks, count, total content and cumulative hash, and the input, model, output and chunk events with their hashed fields; what the payload also holds (parameters, lengths, usage, latency, fingerprint) is one arbitrary string per event |
| `StreamChain.RecordedPositions` | server/internal/gateway/stream.go:151-265 | The recorded chunks are those of the data lines with content or a finish reason, up to the end marker or the first finish reason, each once and in order |
| `StreamChain.ContentAt` | server/internal/gateway/stream.go:220-221 | The total content is the contents of the recorded chunks one after the other |
| `StreamChain.StreamIsCausal` | server/internal/gateway/stream.go:151-314 | Every recorded stream has ChunkCount + 3 events which in sequence order are numbered from 1, each name the hash before and pass the causal-order check |
| `StreamChain.ListedCausalIff` | server/internal/gateway/stream.go:312-314 | The order in which the result of a stream lists its events is causal if and only if there are no chunks or the last chunk's hash repeats that of the input or model event |
| `StreamChain.FinalHashBinds` | server/internal/gateway/stream.go:212-218 | Equal chunk count and equal final hash mean equal chunks, or an explicitly computed collision |
| `StreamChain.CountIsNeeded` | server/internal/gateway/stream.go:212-218 | Without the count one chunk can imitate two |
| `StreamChain.OutputHashBinds` | server/internal/gateway/stream.go:151-314 | Two streams with one output event hash have equally many events with the same hashed fields, or an explicitly computed collision of the event hash |
| `StreamChain.OutputHashBindsStrings` | server/internal/gateway/gateway.go:390-406 | With the event hash taken as SHA-256 of the joined fields and of the payload in it: the same events, or two different strings, computed from the two streams, with one SHA-256 |
| `StreamChain.DraftsBind` | server/internal/gateway/stream.go:417-461 | The same fields mean the same prompt hash, model and chunks, or two contents with one hash |

## Left out

- Dag.DAG.AddEvent: nodes are vertices stored under their event ID, so pointer aliasing between nodes is not captured; that the node is removed again when a cycle is reported is not modelled, because that branch is proved dead.
- Dag.DAG.GetParallelEvents: groups list event IDs instead of event pointers.
- IncrementalTree.Tree.Append: `1 << MaxDepth` is a mathematical power of two; the wrap-around of Go's shift for a MaxDepth of 63 or more is not modelled.
- IncrementalTree.Tree.GetConsistencyProof: the proof path is the list of leaves added since, as in the code; ConsistencyProof.Verify is a stub there and is left out.
- BatchAnchorer.BatchAnchorer.SubmitItem: submitting the same item pointer twice, which replaces its result channel, is not modelled; a batch is named by its position instead of its random ID.
- BatchAnchorer.BatchAnchorer.AnchorAttempt: a negative RetryCount, which makes the code dereference a missing error, is not modelled; the timeout of the anchor context is left out.
- BatchAnchorer.BatchAnchorer.UpdateStats: the average batch size is a real quotient, so floating-point rounding is not covered.
- BatchAnchorer.BatchAnchorer.CreateBatch: sorting, building the tree, storing the batch and counting it are one step; what it stores is private to its flush until then.
- BatchAnchorer.BatchAnchorer.NotifyResults: SubmitAndWait's timeouts are left out; a submitter may receive or not.
- MemoryQueue.QueueRuns: with a BufferSize of 0 the model refuses every send, while Go hands a message directly to a waiting worker; handler time limits and retry delays are unordered waits; the counters of a success, total and per topic, go up in one step; the ten-second wait of Stop is left out.
- MemoryQueue.MemoryQueue.TrySend: when the channel has room and the context is done Go may choose either; the second is a step of its own.
- CircuitBreaker.CircuitBreaker.MoveTo: callbacks are listed in the order they are started; when they run is left open. The manager of several breakers is left out.
- Resilience.Retry: the product of a duration and the multiplier is an arbitrary function, so rounding is covered but not computed.
- Resilience.Execute: ExecuteWithResult is the same code with a value and is left out.
- RateLimiter.WindowBoundIff: tokens are reals, so floating-point rounding is not covered; the ticker is a clean-up at any instant.
- TwoLevelCache.TwoLevelCache.Set: the second level is another in-memory cache that nothing else writes, so errors of a remote one are left out; JSON encoding is the identity; Exists, TTL and key building are left out.
- CacheSteps.GetCall: a Get's answer is recorded when it is decided, which may be before the call returns.
- StreamChain.ProxyStreamingChat: lines are the newline-terminated lines read before the stream ends or fails; error exits before the loop and callbacks are left out; parameters, usage, latencies and fingerprints in a payload are one arbitrary string per event, and byte lengths are an arbitrary function of the string.
- StreamChain.OutputHashBindsStrings: the JSON, decimal and time formats are any that can be read back and put no separator into a number, an instant or a digest.
- OfflineVerifier.VerifyCertificate: messages of the checks are left out; the time, anchor and evidence-level checks always pass in the code.
- Validator.VerifyMergePoint: strings compare by code points.
- MerkleSpec.RootBinding: digests are fixed-width, so hashing a concatenation is hashing the pair.
- DAG export, Verify, VerifyDAG and the merge and causal hashes: reports assembled from facts above.
- Snapshots of the incremental tree, getters and statistics copies: single reads.
- HTTP handlers, SDKs, console, databases, object stores, Redis and Ethereum clients: calls outside the model.
- Federated anchoring, zero-knowledge circuits, key stores, signatures, fingerprint features and media parsing: library calls and heuristics.
