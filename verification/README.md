# Eudico chain sync and block storage: a Dafny model

Eudico is a Filecoin node. This project models the parts of it where the most state, branching or concurrency meets,
and proves what they keep over every input, every schedule or every run.

**Chain synchronisation** (`Tipsets`, `Forks`, `BadBlocks`, `Headers`, `HeaderProgress`, `HeaderOutcomes`,
`HeaderExamples`, `FullTipsets`, `ChainSync`). A syncer that learns of a new head walks its chain backwards, mixing
local loads with segments from the network, until it meets the chain it already has. It resolves forks with a
two-pointer walk, spreads blame through the bad-block cache, fetches messages in parallel chunks and replays the
headers oldest first. Blocks are identified by their content, so a CID is the block itself and a tipset key is the
tipset. The local store, the peers, the consensus callback, evictions from the cache and the order of goroutines are
parameters; all statements hold for every choice of them.

**The sync scheduler** (`SyncBuckets`, `SyncQueues`, `SyncBuffers`, `Scheduling`, `SchedulingSafety`,
`SchedulingOutcomes`, `SchedulingExamples`, `SyncManagers`). Peer heads, worker reports and ticks are the events of a
state machine. What a Go range over a map leaves open is part of the event. An invariant is proved for every run of
it, and the object `SyncManager`, with its queues and its ring of recent syncs, is proved to take exactly its steps.
What becomes of every head, report and tick (which target is started, queued, deferred or forgotten, and why) is
stated apart from the handlers, in terms of workers, queues and weights.

**The write-behind store** (`Autobatch`, `AutobatchSafety`, `AutobatchProgress`, `AutobatchFlush`, `AutobatchExamples`,
`AutobatchStore`). Puts, the locked sections of a flush, the single writes of a batch that may fail half-way, and the
three reads of a Get are interleaved steps. A Get finds whatever was put before it started, answers only with what was
put or was there from the start, and fails only if a read of its own does. The buffer size that is compared with the
capacity at each put only ever grows: it is the size of everything ever put
(`AutobatchSafety.BufferSizeExact` says exactly when that is the size of the buffer;
`AutobatchExamples.SizeOutlivesFlush` is a run after which it is not).

**The network store** (`Cbor`, `CborStreams`, `NetRpc`, `NetRpcCodec`, `NetServer`, `NetClient`, `NetSystem`,
`NetRemote`, `RemoteContents`, `RemoteProgress`, `NetworkStores`, `NetworkStoreHandlers`). The wire format is CBOR as
in RFC 8949 (section 3 for heads and major types, section 3.3 for null and the booleans, section 4.1 for shortest
heads); on it stand a client with response channels of capacity one and a server loop, joined by two FIFO streams. The
wire format is a bijection between values in its limits and the byte strings it accepts, and the remote store is
linearizable: its answers are those of the server's own store, a read sees the last write to its CID, and a call that
nothing gets in the way of comes back. `WireForms` fixes the bytes of messages and records, `WireLimits` what their
decoders refuse.

**Smaller cores** (`ApiCodec`, `ApiRecords`, `ApiMarshal`: the map-form records of the API; `TimedCache`,
`TimedCacheStore`: the rotating cache over the in-memory store).

Runs of all four state machines are defined once, in `Runs`. Where the source changes fields in place the model has
classes and loops, each proved against the functions and state machines that the theorems are about.

## Where the code and its documentation differ

The model follows the code in each case.

- A sibling of our head is accepted without looking at the checkpoint, so a checkpointed head can be replaced
  (`Headers.CheckpointKept` says exactly when; `HeaderExamples.SiblingDisplacesCheckpoint` is an instance).
- The header documentation says that all received blocks are checked against the bad-block cache. The fragment fetched
  to resolve a fork is not (`Headers.CleanIffFragmentClean` says exactly when a collected chain is free of known bad
  blocks; `HeaderExamples.ForkFragmentUnchecked` is an instance where it is not).
- The exchange client is documented to check that message positions are valid before an answer is used. It accepts
  partial answers, which the caller indexes as if they were full, and it tests positions after converting them to int,
  so those of 2^63 and more pass (`FullTipsets.PanicsExactly` says exactly when a request goes out of range;
  `FullTipsets.ShortAnswerPanics` and `FullTipsets.HighPositionPanics` are instances of both kinds).
- Deferred targets are documented to be processed once a worker is freed. If that was the last worker they are all
  dropped (`SchedulingSafety.IdleForgetsDeferred`; `SchedulingExamples.DeferredTargetIsLost` is a run in which it
  happens); one with nothing against it is started exactly when some worker is still active
  (`SchedulingSafety.DeferredStartsIffBusy`).
- A byte-string field that occurs a second time in a map, empty, is not read as empty
  (`ApiRecords.ReadIntoExactly` says exactly when a field is read as written;
  `ApiRecords.EmptyValueTakesWhatFollows` is the ticket that is read differently).

- The comment on syncFork says that of a fork that is too long or leaves the checkpoint behind the entire subchain is
  added to the denylist. Only the announced tipset is (`HeaderProgress.SubchainDeniedIff` says exactly when that is the
  whole chain walked).
- The in-memory store is tested to give a block back under the key asked for when the codecs differ. When they do not,
  it gives the block as it was put, under another key if the versions of the CIDs differ
  (`TimedCache.ReadableIffRecent` says exactly when the key is the one asked for; `TimedCache.VersionIsNotLookedAt` is
  an instance in which it is not).

## Model

| member | source | states |
|---|---|---|
| `Tipsets.LinkedIsBack` | chain/types/tipset.go:258-264 | a list in which each tipset's parents are the next one spells out the ancestors of its first element |
| `Tipsets.DeeperIsLower` | chain/types/tipset.go:258-264 | further back on a chain of falling heights is strictly lower |
| `Tipsets.BackDepth` | chain/types/tipset.go:258-264 | a tipset occurs on a chain at one depth only, so none is its own ancestor |
| `Forks.GetBlocks` | chain/exchange/client.go:153-222 | an accepted answer is a non-empty connected chain, no longer than asked for, that starts at the key asked for |
| `Forks.UsedIffGood` | chain/exchange/client.go:153-222 | an answer is used, as it is, if and only if it is a connected chain of at most as many tipsets as asked for, from the key asked for, and the request was allowed |
| `Forks.WalkToJoin` | chain/sync.go:893-942 | the two-pointer walk terminates, finds the fork point exactly when there is one, and otherwise ends with the error of the first ancestor of ours that stops the search |
| `Forks.SyncFork` | chain/sync.go:881-942 | it succeeds if and only if some fetched tipset is an ancestor of ours that is loadable, within the fork length, above height 0 and not past the checkpoint; the result is the fetched segment down to the first such tipset and nothing before it is on our chain; every failure has one error, fixed by our chain, the checkpoint and the last tipset fetched |
| `Forks.ErrorIsFirstStop` | chain/sync.go:881-942 | a failed search has an error if and only if that error stops it at an ancestor of ours down to which our chain can be followed, past no checkpoint and not below all that was fetched: there is only one |
| `Forks.DeniedExactly` | chain/sync.go:919-941 | the fork is too long if and only if our chain, followed above height 0, comes below all that was fetched or to the greatest length allowed; it passes the checkpoint if and only if it comes to the checkpoint at or above the last tipset fetched, with length to spare |
| `Forks.JoinKeepsCheckpoint` | chain/sync.go:883-938 | with enforcement on, wherever a fork may join, a checkpoint on our chain is that tipset or an ancestor of it |
| `BadBlocks.LinkAllShallow` | chain/badtscache.go:29-35 | any number of links leaves a reason one link deep and naming its first cause |
| `BadBlocks.CachedReasonsTraceBack` | chain/badtscache.go:22-70 | after any sequence of insertions, removals, purges and evictions whose reasons were made afresh or linked on from one once read from the cache, every cached reason is one link deep at most and its root is a reason inserted earlier |
| `BadBlocks.BadBlockCache.TracesBack` | chain/badtscache.go:22-70 | the same of the cache object and its own history |
| `BadBlocks.BadBlockCache.Add` | chain/badtscache.go:56-58 | adds one entry, loses only what the bounded cache evicts, records one mark, and keeps contents and history in step |
| `BadBlocks.BadBlockCache.Remove` | chain/badtscache.go:60-62 | that entry is gone, every other is as it was, and what is left still traces back |
| `BadBlocks.BadBlockCache.PurgeAll` | chain/badtscache.go:64-66 | nothing is found any more, and the history goes on |
| `BadBlocks.BadBlockCache.AddAll` | chain/sync.go:700-703 | marks each block of a list once, changes no other entry and keeps all reasons traceable |
| `Headers.CheckIncoming` | chain/sync.go:696-732 | refuses exactly a tipset with a bad parent or bad beacon entries, for the first of these reasons, and makes exactly the marks due: every block of the tipset, its first block, or none |
| `Headers.Reject` | chain/sync.go:749-758 | every block newly marked lies on the incoming chain strictly above the bad block, and every block accepted so far is marked once with the linked reason |
| `Headers.CheckNext` | chain/sync.go:749-758 | looks for the first known bad block of the next tipset back, and rejects the chain if and only if there is one; then the new marks are on exactly the blocks accepted so far, each with a reason that goes back to that of the bad block |
| `Headers.AppendSegment` | chain/sync.go:810-831 | a fetched segment is appended whole, or up to the first tipset below the target height, or up to its first bad block, which is then blamed |
| `Headers.FetchTurn` | chain/sync.go:777-831 | a turn that asks the network comes to exactly what the peers' answer leads to, and goes strictly further back |
| `Headers.WalkBack` | chain/sync.go:734-831 | for every mix of local loads and network segments the walk ends, comes to exactly what the peers' answers in turn lead to, and a chain it gives is linked, starts at the incoming tipset and has no known bad block after it; a failure at a bad block marks exactly the blocks accepted on the way, with reasons that go back to its own, and any other failure marks none |
| `Headers.ConnectToKnown` | chain/sync.go:833-869 | connects exactly when the chain ends at a child of our head, at a child of its parent or at a fork that joins; what it appends is exactly the fetched fragment down to the join, the result ends where it meets our chain, and a failure has exactly the error of what fails first |
| `Headers.ConnectOrMark` | chain/sync.go:833-869 | the same with the marks: every block of the announced tipset if that error is a fork too long or past the checkpoint, none otherwise |
| `Headers.MarkedForForkExactly` | chain/sync.go:853-862 | the error of a failed collection is one of those two if and only if the tipset is acceptable, the walk gets to our height, and our chain from there starts at a checkpointed head, runs out or comes to the checkpoint before it meets the fork |
| `Headers.CollectHeaders` | chain/sync.go:686-870 | for every head and all answers of the peers: it succeeds if and only if the incoming tipset is acceptable, the walk reaches our height and its end connects, and gives exactly the chain walked and the fragment; a success is linked from the incoming tipset to a child of our head, a child of its parent or a strict ancestor of it, and leaves the cache alone; a failure has exactly the error of the first step that fails and marks exactly the blocks it is due: those accepted, or those of the incoming tipset, on account of the bad block, the first block for its beacon entries, all blocks for the fork, and none otherwise; all reasons still trace back |
| `Headers.MarksOfAreDue` | chain/sync.go:696-862 | which blocks every error marks, and that the reasons are new or go back to the reason of the bad block |
| `Headers.WalkIsClean` | chain/sync.go:749-826 | whatever the walk appends is free of known bad blocks |
| `Headers.CleanIffFragmentClean` | chain/sync.go:684-870 | a collected chain is free of known bad blocks if and only if the incoming tipset is and the fragment fetched to resolve a fork, if one is needed, is |
| `Headers.CheckpointKept` | chain/sync.go:833-869 | a collected chain keeps a checkpoint of ours if and only if it does not replace a checkpointed head by a sibling |
| `Headers.CollectedMeets` | chain/sync.go:734-869 | whatever is collected is linked from the incoming tipset to where it meets our chain |
| `Headers.CollectedKeepsCheckpoint` | chain/sync.go:833-869 | collecting keeps a checkpoint of ours if and only if it is not that our head is the checkpoint and the walk ends at a child of the head's parent that is no child of the head |
| `HeaderProgress.WalkStops` | chain/sync.go:734-831 | the walk stops at the first tipset that is at or below the target height, or right above one that is below it |
| `HeaderProgress.WalkReaches` | chain/sync.go:734-831 | if from the end of the chain down to the target height every parent is lower, not known to be bad, and local or served by the peers, the walk reaches that height |
| `HeaderProgress.FastForward` | chain/sync.go:734-844 | a head on top of ours over such tipsets is collected, and the result is exactly the tipsets between |
| `HeaderProgress.LocalsAreBlamed` | chain/sync.go:749-768 | every block of the local tipsets walked over is accepted, so that a bad block further back is blamed on all of them |
| `HeaderProgress.BlamedExactly` | chain/sync.go:745-827 | a block is among those a bad block further back is blamed on if and only if its tipset was loaded locally, or is the first of a segment fetched that has no tipset below the target height and no known bad block, on the way there |
| `HeaderProgress.SubchainDeniedIff` | chain/sync.go:855-862 | a fork that may not be followed marks every block of the chain walked if and only if that chain is the announced tipset alone |
| `HeaderOutcomes.RefusedExactly` | chain/sync.go:696-732 | an announced tipset is refused for its first bad parent; failing that if the beacon rounds of its first block fall; failing that if another block's entries differ from those |
| `HeaderOutcomes.ScanExactly` | chain/sync.go:804-826 | a segment is taken whole, up to the first tipset below the target height, or up to the first one at or above it that holds a known bad block |
| `HeaderOutcomes.WalkExactly` | chain/sync.go:734-831 | every walk is some number of local loads and segments taken whole, and then ends: at the target height, in a segment that goes below it, before a known bad block, without an answer, or with one that does not fit |
| `HeaderOutcomes.ConnectErrorExactly` | chain/sync.go:844-866 | a chain that cannot be connected fails for want of our head's parent exactly if that is not in the local store, and for want of an answer exactly if the peers give none and our head is no checkpoint |
| `HeaderExamples.SiblingDisplacesCheckpoint` | chain/sync.go:848-851 | an instance in which the checkpointed head is replaced |
| `HeaderExamples.ForkFragmentUnchecked` | chain/sync.go:855-869 | an instance in which a known bad block is accepted in a fork fragment |
| `FullTipsets.GetChainMessages` | chain/exchange/client.go:224-300 | an accepted answer has between one and as many bundles as asked for, one list of positions per block, and every position, converted to int, below the number of messages |
| `FullTipsets.CheckMsgMeta` | chain/sync.go:1031-1058 | three ends: it matches if and only if every block's positions name messages, within the limit, that its root commits to; it goes out of range if and only if the first block that does not match is within the limit and names a message that is not there; otherwise it is refused |
| `FullTipsets.MatchesExactly` | chain/sync.go:1031-1058 | a bundle matches exactly if every block's positions, at most 10000, name the messages its root commits to, in order |
| `FullTipsets.PanicsIffHigh` | chain/exchange/client.go:266-300 | in a bundle the client accepts, going out of range means exactly that the first block that does not match holds a position of 2^63 or more |
| `FullTipsets.ZipTipSetAndMessages` | chain/sync.go:385-416 | gives a full tipset for exactly the bundles that match, with each header's own messages, at most 10000 a block, and goes out of range exactly when the check does |
| `FullTipsets.CheckAnswer` | chain/sync.go:1094-1110 | an answer is good if and only if it covers and matches every header, and goes out of range if and only if the first header without a matching bundle has none at all or one with a position out of range |
| `FullTipsets.RequestMessages` | chain/sync.go:1081-1112 | the retry loop comes to what the attempts in turn come to |
| `FullTipsets.RunChunk` | chain/sync.go:1071-1126 | a goroutine fills exactly its own part of the batch, each bundle at its header's position |
| `FullTipsets.FetchMessages` | chain/sync.go:1060-1136 | whatever the order of the goroutines, it succeeds exactly when every chunk does, and each bundle stands at the header it was checked against |
| `FullTipsets.PanicsExactly` | chain/sync.go:1094-1110 | a request goes out of range if and only if, in the first attempt whose answer is neither missing nor wrong, the answer ends short or holds a position of 2^63 or more, everything before it being right |
| `FullTipsets.SucceedsExactly` | chain/sync.go:1081-1112 | a request ends well if and only if one of the five attempts is answered in full and rightly, all before it being unanswered or wrong without going out of range |
| `FullTipsets.GoodAtIffAnswered` | chain/exchange/client.go:224-300 | an attempt is answered well if and only if the peer's own answer covers and matches every header: no right answer is turned down |
| `FullTipsets.ShortAnswerPanics` | chain/sync.go:1094-1110 | a peer that answers for the first of two tipsets only makes it happen |
| `FullTipsets.HighPositionPanics` | chain/sync.go:1031-1058 | so does one that answers in full, for any tipset of one block, with the position 2^63 |
| `FullTipsets.FullAnswersNeverPanic` | chain/sync.go:1094-1110 | it never happens with peers that answer in full and with positions below 2^63, or not at all |
| `ChainSync.FullForUnique` | chain/sync.go:385-416 | the roots determine the full tipset |
| `ChainSync.ReplayBatch` | chain/sync.go:997-1023 | a fetched batch is replayed from its last header to its first, each accepted call followed by a write; it goes through if and only if every call is accepted and every write succeeds, stores exactly what was written, and otherwise ends at the first call refused or the first write failed |
| `ChainSync.CallAndWrite` | chain/sync.go:1012-1022 | one call on fetched messages: refused, accepted but not written, or accepted and stored |
| `ChainSync.FetchBatch` | chain/sync.go:983-995 | the batch that ends with the current header is fetched if and only if all its chunks are, goes out of range if and only if one of them does, and each bundle was checked against its header |
| `ChainSync.IterFullTipsets` | chain/sync.go:963-1029 | for every split into local hits, batches and chunks the callback sees each header once, last to first, with exactly its own messages; a complete pass leaves the messages of every block of every header in the store, and whatever is there was there before or belongs to such a block; it completes if and only if every fetch is good, every call accepted and every write of fetched messages succeeds, and otherwise ends with the first of these that fails |
| `ChainSync.PlannedExactly` | chain/sync.go:970-1026 | a header is taken from the store if and only if the messages of all its blocks are there by then; otherwise the batch of up to 128 headers that ends with it is fetched, and only the rest of that batch goes without a look |
| `ChainSync.KeptExactly` | chain/sync.go:1012-1022 | what is in the store after any number of calls was there before or belongs to a block of a header whose messages were fetched |
| `ChainSync.OneOutcome` | chain/sync.go:963-1029 | peers, callback and writes determine how many calls a replay makes and how it ends |
| `ChainSync.EndedWell` | chain/sync.go:963-1029 | it completes when the callback accepts all, all writes succeed and every batch is good; with all messages in the store nothing is fetched or written and only the callback can end it early |
| `ChainSync.HonestBatches` | chain/sync.go:1060-1136 | with peers that answer the first request for any run of the headers in full and rightly, every batch is good |
| `ChainSync.ParentsFirst` | chain/sync.go:944-1029 | replaying a linked chain validates each parent right before its child |
| `ChainSync.PersistHeaders` | chain/sync.go:1203-1209 | all headers are stored if and only if every write succeeds; otherwise exactly those before the first failed write are |
| `ChainSync.StoreAndReplay` | chain/sync.go:1203-1217 | collected headers are written first and then replayed; what is stored and validated is exactly what the writes and the replay leave |
| `ChainSync.CollectChain` | chain/sync.go:1182-1223 | a successful sync validated an unbroken chain from where it meets ours up to the new head, parents first, each tipset with exactly its own messages, all headers and all messages written or there before; it fails for want of headers if and only if they cannot be collected, with exactly that error and its marks, at writing them if and only if a write fails, and otherwise ends as the replay does, which succeeds if the callback accepts all, messages can be written and the peers are honest; a head on top of ours over obtainable tipsets is never refused for want of headers |
| `SyncBuckets.FirstMax` | chain/sync_manager.go:680-692 | the heaviest tipset, and the first of equals |
| `SyncBuckets.HeaviestOf` | chain/sync_manager.go:611-621 | the heaviest tipset of all buckets is as heavy as any in any bucket |
| `SyncBuckets.InsertOk` | chain/sync_manager.go:561-569 | insertion keeps every bucket non-empty, free of duplicates and connected by parenthood, and loses no tipset |
| `SyncBuckets.InsertPlace` | chain/sync_manager.go:561-569 | a tipset joins the first bucket that has it, its parent or a child of it, at the end and only if it is not in it yet, and opens a bucket of its own if there is none |
| `SyncBuckets.UnrelatedOk` | chain/sync_manager.go:597-609 | what is left after popping the related buckets are exactly the unrelated ones, still in order |
| `SyncBuckets.RelatedTipsOk` | chain/sync_manager.go:597-609 | what is popped are exactly the tipsets of the related buckets |
| `SyncQueues.SameChainAs` | chain/sync_manager.go:627-640 | the scan finds whether some tipset of the bucket is the same, a parent or a child |
| `SyncQueues.HeaviestTipSet` | chain/sync_manager.go:680-692 | the scan finds the first heaviest tipset |
| `SyncQueues.BestBucket` | chain/sync_manager.go:571-585 | the scan finds the first bucket with the heaviest tipset |
| `SyncQueues.SyncBucketSet.RelatedTo` | chain/sync_manager.go:552-559 | whether any bucket is related |
| `SyncQueues.SyncBucketSet.Add` | chain/sync_manager.go:561-569 | the new queue is the old one with the tipset inserted |
| `SyncQueues.SyncBucketSet.RemoveBucket` | chain/sync_manager.go:587-595 | removes that bucket and nothing else; never called on an empty queue |
| `SyncQueues.SyncBucketSet.Pop` | chain/sync_manager.go:571-585 | takes out the first of the buckets with the heaviest tipset and leaves the others |
| `SyncQueues.SyncBucketSet.PopRelated` | chain/sync_manager.go:597-609 | takes out all related buckets, in order, and leaves the others |
| `SyncQueues.SyncBucketSet.HeaviestTip` | chain/sync_manager.go:611-621 | the heaviest tipset of the queue |
| `SyncBuffers.RingHoldsLastN` | chain/sync_manager.go:496-510 | the ring holds exactly the last n pushes |
| `SyncBuffers.SyncBuffer.Push` | chain/sync_manager.go:506-510 | the history behind the ring grows by that tipset |
| `SyncBuffers.SyncBuffer.Synced` | chain/sync_manager.go:512-520 | true exactly if one of the last n pushes is the same tipset or heavier |
| `Scheduling.InsertAll` | chain/sync_manager.go:332-357 | the initial buckets hold exactly the tracked heads |
| `SchedulingSafety.InitialIsHeaviest` | chain/sync_manager.go:332-357 | the first target is a heaviest of all tracked heads, whatever the order and the bucketing |
| `SchedulingSafety.AddSyncTargetKeeps` | chain/sync_manager.go:362-422 | taking in a new head keeps the invariant |
| `SchedulingSafety.SelectDeferredKeeps` | chain/sync_manager.go:454-490 | selecting a deferred target keeps the pending queue in order and anchored |
| `SchedulingSafety.SelectKeeps` | chain/sync_manager.go:426-450 | after a worker has left, what is pending still hangs on the others, nothing is pending or deferred when none is left, and a chosen target is not recently synced |
| `SchedulingSafety.IdleForgetsDeferred` | chain/sync_manager.go:454-490 | with no worker left every deferred target is dropped and none is started |
| `SchedulingSafety.DeferredStartsIffBusy` | chain/sync_manager.go:454-490 | a deferred target with nothing against it is started if and only if some worker is active |
| `SchedulingSafety.PeerHeadKeeps` | chain/sync_manager.go:197-236 | a peer head keeps the invariant |
| `SchedulingSafety.WorkerDoneKeeps` | chain/sync_manager.go:238-276 | a worker's report keeps the invariant |
| `SchedulingSafety.InitialSyncDoneKeeps` | chain/sync_manager.go:278-295 | starting workers on deferred targets keeps the invariant |
| `SchedulingSafety.RunsAreSafe` | chain/sync_manager.go:176-312 | in every state of every run: at most the maximum of workers, at most one before the initial sync is done; each id used once and each report finds its worker; heads are tracked exactly until the first worker starts; every pending bucket hangs on an active target; both queues are empty when no worker is active; and every target ever started was neither among nor lighter than the recent syncs of that moment |
| `SchedulingSafety.HistoriesAreReal` | chain/sync_manager.go:238-312 | the history those statements are about is the list of successful reports, and no start is forgotten |
| `SchedulingOutcomes.EnoughPeersStart` | chain/sync_manager.go:197-236 | the head that completes the required number of peers starts the first worker, on a heaviest of the heads |
| `SchedulingOutcomes.FewPeersWait` | chain/sync_manager.go:197-236 | until then heads are only collected |
| `SchedulingOutcomes.IdleHeadStarts` | chain/sync_manager.go:362-376 | an idle scheduler starts a worker on a head if and only if none of the recent syncs is of it or of something heavier |
| `SchedulingOutcomes.KnownHeadIsIgnored` | chain/sync_manager.go:362-389 | a head that is remembered, or that a worker is on whose parent is no worker's, changes nothing |
| `SchedulingOutcomes.ExtensionIsQueued` | chain/sync_manager.go:378-396 | a head on top of a worker's target, or related to a pending tipset, becomes pending and nothing else changes |
| `SchedulingOutcomes.DoublyTouchedHead` | chain/sync_manager.go:378-390 | a head that one worker is on and another's target is the parent of is ignored or becomes pending, by which of the two the range over the workers meets first |
| `SchedulingOutcomes.ForkOutcome` | chain/sync_manager.go:398-422 | the head of an unrelated chain is ignored if a target or a pending tipset is heavier; otherwise it is started if the initial sync is over and there is room, and deferred if not |
| `SchedulingOutcomes.BestIsPopped` | chain/sync_manager.go:454-470 | the deferred target looked at next is a heaviest of all, and its bucket is all that leaves the queue |
| `SchedulingOutcomes.TurnOutcome` | chain/sync_manager.go:454-490 | whether a deferred target is forgotten, becomes pending or is started, by what is remembered, what is pending and one of the workers |
| `SchedulingOutcomes.StartableIsFound` | chain/sync_manager.go:454-490 | while a deferred target leads its bucket and has nothing against it whichever worker is looked at, selection starts some deferred target |
| `SchedulingOutcomes.SelectedIsEligible` | chain/sync_manager.go:454-490 | what is selected was deferred, is not remembered and is at least as heavy as some worker's target |
| `SchedulingOutcomes.SelectTrail` | chain/sync_manager.go:454-490 | what is selected, and what it leaves of both queues, is what some sequence of turns comes to, each judging a heaviest of the deferred tipsets and taking out its bucket alone |
| `SchedulingOutcomes.SelectedPend` | chain/sync_manager.go:454-490 | meanwhile nothing pending is lost; what becomes pending was deferred, is not remembered, and is related to something pending or a child of a worker's target; and the heaviest of a bucket that leaves the queue does become pending if it is related to a pending tipset and not remembered |
| `SchedulingOutcomes.SelectOutcome` | chain/sync_manager.go:426-490 | a heaviest of the pending tipsets related to the finished target goes next if it is not remembered and nothing is heavier; otherwise deferred targets are tried turn by turn; the related pending buckets are used up either way, nothing else pending is lost, and what joins has converged |
| `SchedulingOutcomes.ReportIsTaken` | chain/sync_manager.go:238-276 | after a report that worker is gone and all others are as they were, a success is remembered, and a fast one ends the initial phase |
| `SchedulingOutcomes.ReportOutcome` | chain/sync_manager.go:238-276 | when a worker reports, first it leaves and a success is remembered, all else being as it was; then the next target is selected in those terms |
| `SchedulingOutcomes.LastReportOutcome` | chain/sync_manager.go:238-276 | after the last worker's report a worker runs if and only if a related pending tipset may go next, and then on a heaviest of those |
| `SchedulingOutcomes.TickOutcome` | chain/sync_manager.go:176-295 | a tick does nothing before the initial sync is over; after it, it is the last one: it is a sequence of selections, each started, until there is no room or none is left; nothing pending is lost, and a worker does join if some deferred target has nothing against it |
| `SchedulingExamples.DeferredTargetIsLost` | chain/sync_manager.go:412-490 | a run for every pair of unrelated heads, the second heavier: it is deferred, and when the only worker reports success it is neither started nor queued any more |
| `SyncManagers.SortByHeight` | chain/sync_manager.go:332-345 | the tracked heads, lowest first |
| `SyncManagers.SyncManager.constructor` | chain/sync_manager.go:112-128 | starts in the initial state of the machine |
| `SyncManagers.SyncManager.SpawnWorker` | chain/sync_manager.go:297-312 | one worker more, on that target, under a fresh id |
| `SyncManagers.SyncManager.AddTarget` | chain/sync_manager.go:362-422 | what it returns and leaves is what the machine's section does |
| `SyncManagers.SyncManager.JudgeDeferred` | chain/sync_manager.go:471-486 | one arbitrary worker decides about a deferred bucket |
| `SyncManagers.SyncManager.SelectDeferredTarget` | chain/sync_manager.go:454-490 | the loop over the deferred queue comes to the machine's choice |
| `SyncManagers.SyncManager.SelectTarget` | chain/sync_manager.go:426-450 | related pending tipsets first, then deferred ones |
| `SyncManagers.SyncManager.SelectInitialTarget` | chain/sync_manager.go:332-357 | one of the tracked heads, as heavy as any of them |
| `SyncManagers.SyncManager.RampUp` | chain/sync_manager.go:278-295 | the loop that starts workers while there is room |
| `SyncManagers.SyncManager.HandleHead` | chain/sync_manager.go:197-236 | takes one step of the machine for that peer's head |
| `SyncManagers.SyncManager.HandleWorkerReport` | chain/sync_manager.go:238-276 | takes one step of the machine for that worker's report |
| `SyncManagers.SyncManager.HandleTick` | chain/sync_manager.go:176-195 | takes the step that ends the initial phase |
| `AutobatchSafety.GetLockedKeeps` | blockstore/autobatch.go:183-199 | after the locked look-up has failed, a block put earlier can only be in the backing store |
| `AutobatchSafety.NothingLost` | blockstore/autobatch.go:67-150 | everything put is in the backing store, in the batch in flight or in the buffer |
| `AutobatchSafety.RunsAreSafe` | blockstore/autobatch.go:67-200 | the invariant holds in every state of every interleaving, failed and retried flushes included |
| `AutobatchSafety.GetFindsEarlierPut` | blockstore/autobatch.go:172-200 | a Get that starts after a Put of its CID never ends in not found |
| `AutobatchSafety.FlushIsDurable` | blockstore/autobatch.go:117-155 | once a flush has returned without error, all that was put before it is in the backing store |
| `AutobatchSafety.BatchesFollowPuts` | blockstore/autobatch.go:67-150 | the batches taken, then the buffer, are the first puts in order, each CID once; a batch is taken only when all earlier ones are stored |
| `AutobatchSafety.OrderIsFirstPuts` | blockstore/autobatch.go:67-88 | the order kept is the order of first puts |
| `AutobatchSafety.BufferSizeExact` | blockstore/autobatch.go:67-88 | in every run the recorded buffer size is that of everything ever put, and that of the buffer if and only if the batches taken so far hold no data |
| `AutobatchProgress.GetReturnsEarlierPut` | blockstore/autobatch.go:172-200 | a Get that starts after a Put of its CID and is answered, with no failed read of its own, finds a block with that CID that was put or was there from the start |
| `AutobatchProgress.FailedIsFaulted` | blockstore/autobatch.go:172-200 | a Get fails only if one of its own two reads of the backing store failed |
| `AutobatchProgress.FlushErrorIsReal` | blockstore/autobatch.go:117-150 | a flush returns an error only if a write it waited for failed |
| `AutobatchProgress.SuccessIsStored` | blockstore/autobatch.go:90-131 | in every run, when a flush returns no error, even one that only retries, no failed write is left over and every batch taken by then is in the backing store for good |
| `AutobatchProgress.AloneFinds` | blockstore/autobatch.go:172-200 | the three reads of a Get with nothing in between find what the backing store has, then what is in flight, then what is buffered, and nothing only if none has it |
| `AutobatchProgress.SignalExact` | blockstore/autobatch.go:76-84 | in every run the signal that a flush is due stands if and only if some first put since the worker last woke up found the size of everything put at or beyond the capacity |
| `AutobatchFlush.FlushAlone` | blockstore/autobatch.go:117-150 | from every state in which nobody flushes, the steps of one flush, with writes that give up anywhere, lead to what the whole flush does to the fields, and its result says whether an error is kept |
| `AutobatchExamples.SizeOutlivesFlush` | blockstore/autobatch.go:67-150 | for every block with data, after it is put and flushed the buffer is empty and the recorded size is still that of the block |
| `AutobatchStore.AutobatchBlockstore.Put` | blockstore/autobatch.go:67-88 | the section under the state lock |
| `AutobatchStore.AutobatchBlockstore.StoreFlushing` | blockstore/autobatch.go:140-150 | a write of the batch that may stop half-way stores exactly the blocks before it stops and keeps everything in place |
| `AutobatchStore.AutobatchBlockstore.DoFlush` | blockstore/autobatch.go:117-150 | leaves the fields exactly as the steps of the model do with nothing in between; without error all batches taken are stored and, if not merely retrying, everything put; with an error nothing is lost; there is an error if and only if the write waited for gives up |
| `AutobatchStore.AutobatchBlockstore.Get` | blockstore/autobatch.go:172-200 | finds exactly what was put or was in the backing store, and answers as the three steps of the model do with nothing in between |
| `Cbor.HeaderRoundTrip` | blockstore/cbor_gen.go:35-44 | a head is read back with its argument, whatever follows |
| `Cbor.HeaderInverse` | blockstore/cbor_gen.go:89-128 | only the head of a value is read as that head |
| `NetRpc.ReqRoundTrip` | blockstore/cbor_gen.go:23-210 | a written request followed by anything is read back as itself and leaves exactly what followed, if and only if none of its CIDs is too long |
| `NetRpc.ReqInverse` | blockstore/cbor_gen.go:84-210 | the only bytes read as a request are the ones that request is written as, and what is read is within all limits |
| `NetRpc.RespRoundTrip` | blockstore/cbor_gen.go:214-324 | the same for responses |
| `NetRpc.RespInverse` | blockstore/cbor_gen.go:252-324 | the same for responses |
| `NetRpc.ErrRoundTrip` | blockstore/cbor_gen.go:328-441 | the same for errors, with the optional CID that shares its first byte with null |
| `NetRpc.ErrInverse` | blockstore/cbor_gen.go:372-441 | the same for errors |
| `CborStreams.UnmarshalItems` | blockstore/cbor_gen.go:149-160 | the loop that fills the slots of a list reads the list |
| `NetRpcCodec.MarshalReqCBOR` | blockstore/cbor_gen.go:23-82 | appends exactly the written form, and refuses exactly what is out of limits |
| `NetRpcCodec.UnmarshalReqCBOR` | blockstore/cbor_gen.go:84-210 | consumes exactly what the decoder reads, and fails exactly when it does |
| `NetRpcCodec.MarshalRespCBOR` | blockstore/cbor_gen.go:214-250 | the same for responses |
| `NetRpcCodec.UnmarshalRespCBOR` | blockstore/cbor_gen.go:252-324 | the same for responses |
| `NetRpcCodec.MarshalErrCBOR` | blockstore/cbor_gen.go:328-370 | the same for errors |
| `NetRpcCodec.UnmarshalErrCBOR` | blockstore/cbor_gen.go:372-441 | the same for errors |
| `NetServer.RemoteCall` | blockstore/net_serve.go:34-237 | from the client's operation over the wire, through the server and back: the answer and the new store are those of the operation on the server's store; not found names the CID asked for; only if an error text is too long to write does the stream end instead |
| `NetServer.FaultyCall` | blockstore/net_serve.go:188-219 | a failure of the server's store reaches the caller if it can be reported and ends the stream otherwise |
| `NetServer.LongCidClosesStream` | blockstore/net_serve.go:50-52 | a request the server cannot read ends the stream and changes nothing |
| `NetServer.MismatchEndsStream` | blockstore/net_serve.go:133-141 | a put whose counts of CIDs and data differ changes nothing and ends the stream, after telling the sender if the text can be written |
| `NetServer.ComplaintIsAnswered` | blockstore/net_serve.go:56-185 | a reading request with other than one CID, and a request of unknown kind, changes nothing, is answered with the error, and the loop goes on; only if the text cannot be written does the stream end |
| `NetServer.GoesOnExactly` | blockstore/net_serve.go:41-185 | after any other request the loop goes on if and only if the reply can be written |
| `NetServer.RemoteSizeExact` | blockstore/net.go:342-358 | a remote size is the real one if and only if it fits in 32 bits |
| `NetServer.LastPutWins` | blockstore/net_serve.go:143-151 | a CID put several times at once ends up with the last data |
| `NetServer.OthersUntouched` | blockstore/net_serve.go:143-151 | a put leaves all other CIDs alone |
| `RemoteContents.DeletedExactly` | blockstore/net_serve.go:164-175 | a delete removes exactly the CIDs it names and leaves the data of all others alone |
| `NetClient.RunsAreSafe` | blockstore/net.go:107-288 | the channel invariant holds in every state of every interleaving: a registered channel is its request's own and unused, who waits is registered or has its message, and who gave up is not registered |
| `NetClient.SendsNeverBlock` | blockstore/net.go:123-135 | no channel is ever sent to twice, and every send finds room, so none waits while the lock is held |
| `NetClient.RepliesCarryTheirId` | blockstore/net.go:184-196 | what a caller receives carries the id of its request |
| `NetClient.ClosedForGood` | blockstore/net.go:123-135 | after shutdown nobody registers any more, and every caller that still waits has its message |
| `NetClient.GivenUpForGood` | blockstore/net.go:276-287 | once a caller has given up its request is never registered again, and replies to it change nothing |
| `NetClient.MoreIsAwaited` | blockstore/net.go:184-196 | a reply that more will follow comes with a fresh channel, which is the one registered from then on; any other reply ends the registration |
| `NetClient.TakenOnce` | blockstore/net.go:248-252 | a message is taken from its channel once |
| `NetClient.ClosingIsAnError` | blockstore/net.go:107-135 | whoever is told that the store closed reads an error with its text, whatever it asked for |
| `NetworkStores.NetworkStore.SendRpc` | blockstore/net.go:200-246 | takes the steps of registering, writes the request, and takes its registration back on any failure |
| `NetworkStores.NetworkStore.ReceiveOne` | blockstore/net.go:162-197 | hands a reply to its caller, or shuts down on a message that is no reply, telling every caller why |
| `NetworkStores.NetworkStore.HandOut` | blockstore/net.go:184-196 | the section under the lock, with a fresh channel when more will follow |
| `NetworkStores.NetworkStore.DoShutdown` | blockstore/net.go:107-135 | every registered caller is told once, in any order, and the store is closed |
| `NetworkStores.NetworkStore.WaitResp` | blockstore/net.go:248-288 | the caller gets its own reply, or gives up its registration when cancelled |
| `NetworkStoreHandlers.NetworkStoreHandler.HandleOne` | blockstore/net_serve.go:41-185 | one turn of the loop writes the reply and leaves the store of the specification |
| `NetworkStoreHandlers.NetworkStoreHandler.HandleAll` | blockstore/net_serve.go:34-186 | the loop handles messages in order until it ends itself; for the requests of any operations, with a store that does not fail and texts that can be written, it leaves the store as the operations do one by one, and replies to each in order with its answer on the store the ones before it left |
| `NetworkStoreHandlers.ServingIsLocal` | blockstore/net_serve.go:34-186 | the same of what the loop is specified by |
| `NetworkStoreHandlers.ReplyAt` | blockstore/net_serve.go:34-186 | the k-th reply is read as the answer of the k-th operation after the first k |
| `NetSystem.SysRunsAreSafe` | blockstore/net.go:149-288 | for any wire format that echoes ids, in every run every message in a channel is the server's reply to that very request or says the store closed |
| `NetSystem.RealTimeOrder` | blockstore/net.go:149-246 | a request written after another's reply arrived is handled after it |
| `NetRemote.CborEchoes` | blockstore/net_serve.go:188-237 | the CBOR wire format and the server echo ids, and the server has replied whenever it goes on |
| `NetRemote.AnswersAreRight` | blockstore/net.go:290-402 | in every run whatever a call returns is right for the store the server had when it handled that call, unless the store closed |
| `NetRemote.RemoteIsLocal` | blockstore/net.go:290-402 | without failures of the server's store, whatever a call is handed says the store closed or is the answer the call gives after the calls handled before it, run one by one on the initial store |
| `RemoteContents.ContentsAreLastWrites` | blockstore/net_serve.go:143-175 | after any calls what is under a CID is what the last write to it left, or what was there |
| `RemoteContents.ReadsSeeLastWrite` | blockstore/net.go:290-402 | in every run without failures of the server's store, what Has, Get or GetSize is handed says the store closed or is about what the last write to its CID left among those handled before it |
| `RemoteProgress.RepliesAreHandedOut` | blockstore/net.go:162-197 | in every run the caller of every request whose reply was received has been handed a message, unless it gave up first |
| `RemoteProgress.CallComesBack` | blockstore/net.go:200-288 | from every state that keeps the invariant with nothing under way and both ends open, a call that can be sent runs to its answer, which is that of the same operation on the server's store |
| `WireForms.HeadForms` | blockstore/cbor_gen.go:35-44 | the one or two bytes of a small head |
| `WireForms.CidOnWire` | blockstore/cbor_gen.go:56-60 | a CID is a byte string under tag 42 with a leading zero byte |
| `WireForms.ReadOnWire` | blockstore/cbor_gen.go:20-82 | the bytes of a Has, Get or GetSize request, with the number of each |
| `WireForms.PutOnWire` | blockstore/cbor_gen.go:20-82 | the bytes of a put |
| `WireForms.DeleteOnWire` | blockstore/cbor_gen.go:20-82 | the bytes of a delete |
| `WireForms.RespOnWire` | blockstore/cbor_gen.go:212-250 | the bytes of a response |
| `WireForms.HasOnWire` | blockstore/net_serve.go:64-85 | the bytes that answer Has |
| `WireForms.NotFoundOnWire` | blockstore/cbor_gen.go:326-370 | the bytes of a not-found error, with its CID |
| `WireForms.GenericOnWire` | blockstore/cbor_gen.go:326-370 | the bytes of any other error, with null in place of the CID |
| `WireForms.RefusalOnWire` | blockstore/net_serve.go:188-219 | the bytes of a reply that carries an error |
| `WireForms.SizeOnWire` | blockstore/net_serve.go:115-135 | a size is sent lowest byte first |
| `ApiCodec.IntRoundTrip` | api/cbor_gen.go:491-499 | every int64 is read back, the minimum too, although negating it wraps around |
| `ApiCodec.MapRoundTrip` | api/cbor_gen.go:551-617 | a map of fields is read back as the record its fields make |
| `ApiRecords.SealedRefAnyOrder` | api/cbor_gen.go:197-349 | a reference is read back from its fields in any order |
| `ApiRecords.SealedRefsRoundTrip` | api/cbor_gen.go:352-465 | any list of references within the limit is read back |
| `ApiRecords.SealTicketAnyOrder` | api/cbor_gen.go:467-776 | tickets and seeds, which have the same code, are read back from their fields in either order |
| `ApiRecords.DealScheduleAnyOrder` | api/cbor_gen.go:1133-1289 | schedules are read back from their fields in either order |
| `ApiRecords.ReadIntoExactly` | api/cbor_gen.go:592-612 | a byte string is read as written if and only if it is not an empty one read over a longer one |
| `ApiRecords.EmptyValueTakesWhatFollows` | api/cbor_gen.go:592-612 | a ticket whose Value occurs twice, the second time empty, is read with a value made of whatever follows the record |
| `ApiMarshal.MarshalTicketCBOR` | api/cbor_gen.go:467-525 | appends exactly the written form, and refuses exactly what is out of limits |
| `ApiMarshal.UnmarshalTicketCBOR` | api/cbor_gen.go:527-620 | reads exactly what the decoder reads and fails exactly when it does |
| `ApiMarshal.UnmarshalEntries` | api/cbor_gen.go:551-618 | the loop over the entries of a map reads the fields one into the record the others left |
| `ApiMarshal.MarshalScheduleCBOR` | api/cbor_gen.go:1133-1189 | appends exactly the written form |
| `ApiMarshal.UnmarshalScheduleCBOR` | api/cbor_gen.go:1191-1289 | the loop over the entries reads what the decoder reads |
| `ApiMarshal.MarshalRefCBOR` | api/cbor_gen.go:197-258 | appends exactly the written form |
| `ApiMarshal.UnmarshalRefCBOR` | api/cbor_gen.go:260-349 | the loop over the entries reads what the decoder reads |
| `ApiMarshal.MarshalRefsCBOR` | api/cbor_gen.go:352-389 | appends exactly the written form, and refuses exactly what is out of limits |
| `ApiMarshal.UnmarshalRefsCBOR` | api/cbor_gen.go:391-465 | the loop over the entries, with the loop over the list inside, reads what the decoder reads |
| `WireForms.IntForm` | api/cbor_gen.go:491-499 | the byte of a small number of either sign |
| `WireForms.TicketOnWire` | api/cbor_gen.go:467-525 | the entries of a ticket, in order, under their names |
| `WireForms.ScheduleOnWire` | api/cbor_gen.go:1133-1189 | the entries of a schedule |
| `WireForms.RefOnWire` | api/cbor_gen.go:197-258 | the entries of a reference |
| `WireForms.RefsOnWire` | api/cbor_gen.go:352-389 | the entry of a list of references |
| `WireForms.NameBytes` | api/cbor_gen.go:197-525 | the names of the fields, in ASCII |
| `WireLimits.MapLimits` | api/cbor_gen.go:541-551 | of all heads only that of a map of at most 8192 entries starts a record |
| `WireLimits.NameLimits` | api/cbor_gen.go:553-560 | of all heads only that of a text of at most 8192 bytes, all there, starts a name |
| `WireLimits.IntLimits` | api/cbor_gen.go:564-587 | of all heads only the two of integers, with an argument below 2^63, are read as a signed number, and as which |
| `WireLimits.UintLimits` | api/cbor_gen.go:300-315 | of all heads only that of an unsigned integer is read as an unsigned number, and as which |
| `WireLimits.SliceLimits` | api/cbor_gen.go:592-612 | of all heads only that of a byte string of at most two mebibytes is read into a slice, and which bytes |
| `WireLimits.ListLimits` | api/cbor_gen.go:425-455 | of all heads only that of an array of at most 8192 items starts a list |
| `WireLimits.UnknownSkipped` | api/cbor_gen.go:614-617 | a field a record does not have is skipped and leaves the record alone |
| `TimedCache.ReadableIffRecent` | blockstore/timed.go:88-166 | after any sequence of puts, deletes and rotations a block is readable if and only if its multihash was put, and not deleted since, in the current or the previous period; what is read goes back to one put, the last basic one of the current period, or the first if none is basic, and that of the previous period if the current has none; it has the data of that put, and the key asked for if and only if the codec put differs from the one asked for or the version put is the same |
| `TimedCache.VersionIsNotLookedAt` | blockstore/mem.go:47-56 | a block put under a version-0 CID and asked for by the version-1 CID of the same codec and multihash comes back under the version-0 CID |
| `TimedCache.StoredIsAsPut` | blockstore/mem.go:67-82 | what is kept under a multihash is kept under the very CID of the put that a read goes back to |
| `TimedCache.PutManyIsPuts` | blockstore/mem.go:84-91 | putting many is putting one by one |
| `TimedCache.DeleteManyIsDeletes` | blockstore/mem.go:27-32 | deleting many is deleting one by one |
| `TimedCache.PutManyKeyed` | blockstore/mem.go:67-91 | every block sits under its own multihash, and exactly the multihashes put are added |
| `TimedCacheStore.MemBlockstore.Put` | blockstore/mem.go:67-82 | a basic block replaces, another is kept out by what is there |
| `TimedCacheStore.MemBlockstore.PutMany` | blockstore/mem.go:84-91 | the loop puts all blocks |
| `TimedCacheStore.MemBlockstore.DeleteMany` | blockstore/mem.go:27-32 | the loop deletes all keys and no others |
| `TimedCacheStore.MemBlockstore.Get` | blockstore/mem.go:47-56 | the bytes under the multihash, under the key asked for if the codecs differ and as they were put otherwise |
| `TimedCacheStore.TimedCacheBlockstore.DoRotate` | blockstore/timed.go:88-94 | the active store becomes the inactive one and an empty one takes its place |
| `TimedCacheStore.TimedCacheBlockstore.Put` | blockstore/timed.go:106-112 | puts into the active store only |
| `TimedCacheStore.TimedCacheBlockstore.DeleteMany` | blockstore/timed.go:178-182 | deletes from both stores |
| `TimedCacheStore.TimedCacheBlockstore.Get` | blockstore/timed.go:137-145 | the active store first, then the inactive one |
| `TimedCacheStore.TimedCacheBlockstore.GetSize` | blockstore/timed.go:147-155 | the size of what Get finds, exactly when it finds something |
| `TimedCacheStore.TimedCacheBlockstore.AllKeysChan` | blockstore/timed.go:184-201 | lists each readable multihash exactly once, under the very CID of the put that a read goes back to, and fits the channel made for it |

## Left out

- Get: the object form of the write-behind store reads a backing store that does not fail; failing reads are in the
  step model.
- Platforms whose int is not 64 bits wide.
- Hash collisions: a CID is taken to be the block it names.
- Stores by multihash: the server's store behind the network store and the backing store of the write-behind store are
  taken to be keyed by the whole CID. The in-memory store, modelled with the rotating cache, and the badger store go by
  multihash.
- Heights: our own chain has strictly falling heights, which block validation ensures; the incoming chain is not
  assumed to.
- Loading a tipset: the local store gives the tipset with the key asked for, in its canonical order, or nothing.
- Concurrent changes to the bad-block cache while headers are collected.
- Consensus validation, message persistence and the chain store: callbacks and sets of message roots. A write of one
  tipset or of its messages that fails is taken to store nothing of it.
- The scheduler's history of syncer states, logging and metrics; coalescing of tipsets, which is off by default.
- Counters of workers and of requests do not reach 2^64.
- The write-behind store's Shutdown, which the source notes does not prevent later puts, and its unsupported operations.
- Write failures of the streams on the server's side; the client's are part of the model.
- Several replies to one request end to end: the server sends none; the client's channels for them are part of the
  model.
- The CBOR run-time library is not part of the repository: its limits, its shortest-head rule and its form of CIDs are
  taken as the library has them, and its skipping of unknown map fields is a parameter.
- Map-form records with members of foreign types (payment, piece and sector information).
- Restarting the rotation timer, and time itself: rotations are events.
- Delegating stores, command line, API proxies and peer-to-peer transport: they would only add easy members.
