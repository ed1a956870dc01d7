# A verified model of Deoxys

Deoxys is a Starknet full node built on Substrate. This project models the parts of it that carry the
hardest promises, and proves those promises in Dafny, for all inputs, all interleavings and all runs.

- **Call replay** (`CallReplay`, `PalletEvents`). Execution leaves a tree of calls, in which each call has
  its own numbered events and messages. The pallet walks the tree greedily by the numbers. Whatever was
  executed, the walk gives back every item once, in execution order, with its emitter; and a tree is
  replayed in full if and only if it is the recording of some execution.
- **Mapping sync** (`MappingSync`, `MappingSyncRuns`, `MappingIndex`, `MappingReads`, `MappingReorgs`,
  `MappingSyncWorker`).
  The walk over a growing tree of Substrate blocks that indexes the wrapped Starknet blocks: no gaps, nothing
  left out on any fork, one block a round, a sound and complete index in every run of imports, reorgs and
  rounds, lookups of blocks that return canonical ones, and exactly when lookups of transactions do.
- **Event queries** (`ContinuationToken`, `EventPaging`, `EventPagingGrowth`, `EventAttribution`, `EventHashes`,
  `FetchedEvents`).
  Following the tokens yields the filtered events of the confirmed blocks of the range, followed by those of
  the pending block once for every number above the latest block; also while the chain grows between the
  calls. From the fetched blocks to the pages, every event comes with the hash of the transaction that
  emitted it.
- **Sync to seal** (`SealProtocol`, `DigestLog`, `Blocks`, `BlockLifecycle`). Three channels, one seal
  request, the digest, the pallet's hooks, and readers that find the fetched block again.
- **Hashes** (`Bytes`, `TransactionHash`, `Blocks`, `Commitments`). Hashes are free terms, so equality of hashes is equality
  of what is fed to the hash function. For all transactions, versions and block numbers it is stated
  exactly which fields a hash binds.
- **Smaller pieces** (`FeeEstimation`, `BonsaiDb`, `EntryPoints`). Saturating fee arithmetic, prefix scans,
  and the conversion of legacy entry points.

Code that changes things step by step is modelled by classes and methods with loops. Each of them is proved
against a function on values, and the lemmas are about these functions: for example
`MappingSyncWorker.SyncBlocks` against `MappingSync.AfterSyncBlocks`.

The byte codecs of blocks, logs and updates, the answers of the client, the canonical chain and the fetched
data are parameters. What is assumed of them is in the `requires` clauses that mention them: `RoundTrips`,
`PayloadsRoundTrip`, `NoErrors`, `Faithful`, `ValidNode`, `ValidView`.

Places where the code differs from its documentation or from what one would expect; the model follows the
code:

- The tests in `crates/client/rpc/src/types.rs` use commas and hexadecimal numbers in tokens. The code
  prints and parses decimal numbers joined by a dash.
- The documentation of `set_sequencer_address` says that finalisation sets a default address if the call is
  missing. Finalisation panics instead. `BlockLifecycle.BlockGoesThrough` has the exact condition.
- An omitted `to_block` means block 0. Every number above the latest block means the pending block, so a
  range that ends more than one above the latest block can repeat its events: `EventPaging.PendingTwice` is
  an example, `EventPaging.NothingRepeated` the exact condition. A chunk size of zero never gets on
  (`EventPaging.ZeroChunkIsStuck`).
- A page that ends in the pending block can be followed by a wrong one, once that block is confirmed with its
  events in another order: `EventPagingGrowth.PendingReordered` is an example, `EventPagingGrowth.HandOver`
  the exact condition, up to block hash, block number and transaction hash of the events. Its token is refused
  if the pending block has lost events: `EventPagingGrowth.PendingDropped` is an example,
  `EventPagingGrowth.HandOverAccepted` the exact condition.
- A round of the mapping sync does at most one block, because of the lazy disjunction in `sync_blocks`. With
  a single try and stale tips it can report that nothing is left while a block is missing:
  `MappingReorgs.SingleTryMissesBlock` is a run that ends like this, `MappingSyncRuns.SingleTryRight` the
  exact condition.
- A transaction that is in two branches leads to the block that was synced last, which may not be canonical:
  `MappingReorgs.TransactionOffChain` is a run, `MappingReorgs.TransactionLookupCanonical` the exact condition,
  in terms of the list of the Starknet block.
- With the cache on, the genesis caches an empty list of transaction hashes, so reading its events, if it has
  any, goes out of range: `EventHashes.GenesisEventsOutOfRange` is a run, `EventHashes.EventsNameTransactions`
  the exact condition.
- A failed read of the client marks a block as synced without indexing it, so that it is not found again:
  `MappingReads.UnreadBlockNotFound` is a run, `MappingReads.LoadHashFindsRead` the exact condition over runs.
- Declare V0 and V1 share a hash that always uses version 0 (`TransactionHash.DeclareV0V1Collision`).
- A missing block number selects the oldest format of InvokeV0 and Deploy, and the newest of L1Handler. So
  hashes in the pending block can differ from the final ones: `TransactionHash.PendingHashIsFinal` and
  `EventHashes.PendingHashesFinal` have the exact conditions.

## Model

| member | source | states |
|---|---|---|
| CallReplay.ReplayIsSequential | crates/pallets/starknet/src/lib.rs:1087-1122 | For every call tree, well-formed or not, the numbers that come out are exactly start, start + 1, ..., result - 1. |
| CallReplay.ReplayOnlyEmitsItems | crates/pallets/starknet/src/lib.rs:1087-1122 | Nothing is invented and nothing comes out twice: the output is a sub-multiset of the tree's items. |
| CallReplay.SilentReplay | crates/pallets/starknet/src/lib.rs:1109-1115 | Visiting a call without items, early or late, changes neither the output nor the counter. |
| CallReplay.ReplayOfRecording | crates/pallets/starknet/src/lib.rs:1087-1122 | For every execution, recording it as a tree and replaying the tree gives its items in execution order, each with its emitter, and the total count. |
| CallReplay.WalkFollowsTrace | crates/pallets/starknet/src/lib.rs:1087-1122 | The same from every position of the walk, with any number of inner calls without items still unvisited. |
| CallReplay.FullReplayIffRecorded | crates/pallets/starknet/src/lib.rs:1087-1122 | The walk loses no item if and only if the tree is the recording of some execution. |
| CallReplay.RecordedReplayIsPermutation | crates/pallets/starknet/src/lib.rs:1087-1122 | On recorded trees the output is a permutation of the items. |
| PalletEvents.Pallet.EmitEventsInCallInfo | crates/pallets/starknet/src/lib.rs:1087-1122 | The loop with its two indices and recursion stores, deposits and counts exactly the replay. |
| PalletEvents.Pallet.AggregateMessagesInCallInfo | crates/pallets/starknet/src/lib.rs:1039-1074 | The same for messages to L1. |
| PalletEvents.Pallet.EmitAndStoreTxAndFeesEvents | crates/pallets/starknet/src/lib.rs:1124-1137 | The lists of the transaction grow by the replay of the execute call followed by that of the fee transfer; nothing else changes. |
| PalletEvents.RecordedEvents | crates/pallets/starknet/src/lib.rs:1087-1122 | Recording events and messages with two counters leaves, for the events, the recording of the event trace alone. |
| PalletEvents.RecordedMessages | crates/pallets/starknet/src/lib.rs:1039-1074 | The same for messages. |
| PalletEvents.ExecutionIsReplayed | crates/pallets/starknet/src/lib.rs:1039-1122 | For every execution with events, messages and nested calls, the pallet stores both in execution order, and both counters end at the totals. |
| PalletEvents.ExtractedEventsAreItems | crates/client/rpc/src/utils.rs:40-67 | For every call tree, extraction lists all events of the tree, own ones first. |
| PalletEvents.ExtractedMessagesAreItems | crates/client/rpc/src/utils.rs:69-91 | The same for messages. |
| PalletEvents.ExtractionIsPermutation | crates/client/rpc/src/utils.rs:40-91 | For every execution, the extracted events and messages are permutations of the stored ones. |
| MappingSyncWorker.MappingDb.WriteNone | crates/client/db/src/mapping_db.rs:58-63 | Only the synced column changes. |
| MappingSyncWorker.MappingDb.WriteHashes | crates/client/db/src/mapping_db.rs:66-114 | All five columns after the write, caches only if asked for. |
| MappingSyncWorker.SyncBlock | crates/client/mapping-sync/src/sync_blocks.rs:21-111 | The database after a block: indexed, marked without index, or untouched on an error. |
| MappingSyncWorker.SyncGenesisBlock | crates/client/mapping-sync/src/sync_blocks.rs:113-138 | The same for the genesis, which commits no transactions. |
| MappingSyncWorker.SyncOneBlock | crates/client/mapping-sync/src/sync_blocks.rs:140-190 | The loop over the tips and the two writes amount to the step that the lemmas are about, result and database. |
| MappingSyncWorker.SyncBlocks | crates/client/mapping-sync/src/sync_blocks.rs:192-213 | The retry loop with its lazy disjunction amounts to the recursive round. |
| MappingSyncWorker.Worker.PollNext | crates/client/mapping-sync/src/lib.rs:94-144 | State and answer of the worker after a poll, for all notifications and timers. |
| MappingSyncWorker.WorkerDrains | crates/client/mapping-sync/src/lib.rs:94-144 | Woken up by any signal, the worker syncs one block a poll without further signals, then has everything synced and sleeps. |
| MappingSyncRuns.PopTipsMeaning | crates/client/mapping-sync/src/sync_blocks.rs:162-176 | Popping tips drops only those that need no visit, finds an unsynced block at or above the start, and keeps the rest. |
| MappingSyncRuns.OneBlockOutcome | crates/client/mapping-sync/src/sync_blocks.rs:140-190 | A try leaves everything alone, proves all tips done, or syncs one block and pushes its parent. |
| MappingSyncRuns.RoundKeepsWalkInv | crates/client/mapping-sync/src/sync_blocks.rs:140-232 | Every round keeps the invariant that the parent of each synced block above the start is synced or stored as a tip. |
| MappingSyncRuns.GrowthKeepsWalkInv | crates/client/mapping-sync/src/sync_blocks.rs:140-232 | So do new blocks, new forks and reorgs. |
| MappingSyncRuns.TornRound | crates/client/mapping-sync/src/sync_blocks.rs:178-189 | If the mapping write happens and the tips write does not, the invariant survives exactly if the parent needs no visit. |
| MappingSyncRuns.Completeness | crates/client/mapping-sync/src/sync_blocks.rs:192-213 | With at least two tries, a round that syncs nothing means that every block of every fork from the start on is synced. |
| MappingSyncRuns.AllSyncedIff | crates/client/mapping-sync/src/sync_blocks.rs:140-232 | In any state that the sync can reach, every block of every fork is synced if and only if all leaves and all stored tips need no visit. |
| MappingSyncRuns.SingleTryRight | crates/client/mapping-sync/src/sync_blocks.rs:192-213 | A single try that syncs nothing is right about nothing being left if and only if no leaf needs a visit. |
| MappingSyncRuns.SingleTry | crates/client/mapping-sync/src/sync_blocks.rs:192-213 | So it is right if no tips are stored. |
| MappingSyncRuns.RoundProgress | crates/client/mapping-sync/src/sync_blocks.rs:192-213 | A successful round syncs exactly one block that was not synced; without errors no round fails. |
| MappingSyncRuns.DriveSyncsAll | crates/client/mapping-sync/src/sync_blocks.rs:192-213 | On a fixed tree without errors the successful rounds are exactly as many as there are blocks to sync, and then all are. |
| MappingSync.CompleteLeavesCover | crates/client/mapping-sync/src/sync_blocks.rs:153-160 | If every block without a child is a leaf, every block is below a leaf, which is what starting from the leaves relies on. |
| MappingIndex.WithHashesSound | crates/client/db/src/mapping_db.rs:66-114 | Writing an unsynced block keeps lists free of duplicates, entries synced and true to their keys, transactions committed, caches right. |
| MappingIndex.SyncedBlockIndexed | crates/client/mapping-sync/src/sync_blocks.rs:21-111 | A synced block can be found afterwards exactly if it wraps no block or the client could read it. |
| MappingIndex.RunInvariant | crates/client/mapping-sync/src/sync_blocks.rs:21-232 | In every state of every run of imports, reorgs and rounds: no gap, a sound index, and a complete one if the client reads what the backend has. |
| MappingIndex.LoadHashSound | crates/client/rpc/src/madara_backend_client.rs:13-40 | Only canonical synced blocks that wrap the asked Starknet block are returned. |
| MappingIndex.LoadHashFinds | crates/client/rpc/src/madara_backend_client.rs:13-40 | A block is returned if and only if a canonical synced block wraps the asked one and is in its list; with a client that reads everything, every synced block is in its list. |
| MappingIndex.LoadHashFindsTheBlock | crates/client/rpc/src/madara_backend_client.rs:13-40 | If no two canonical blocks wrap the same hash, the answer is that very block if it is in the list, and none otherwise. |
| MappingIndex.LoadHashInLockstep | crates/client/rpc/src/madara_backend_client.rs:13-40 | That is so if wrapped and wrapping blocks have the same numbers. |
| MappingReads.ListedIffRead | crates/client/mapping-sync/src/sync_blocks.rs:21-111 | In every state of every run, with any client in each round: a synced block is in its list if and only if it was read in the round that synced it. |
| MappingReads.LoadHashFindsRead | crates/client/rpc/src/madara_backend_client.rs:13-40 | So a block is returned if and only if a canonical synced block wraps the asked one and was read in its round. |
| MappingReads.UnreadBlockNotFound | crates/client/mapping-sync/src/sync_blocks.rs:101-103 | A run with a client that reads nothing, after which a canonical synced block is not found by its Starknet hash. |
| MappingReorgs.SingleTryMissesBlock | crates/client/mapping-sync/src/sync_blocks.rs:192-213 | A run over a fork after which a single try, whatever the client answers, reports that nothing is left while a block is not synced. |
| MappingReorgs.TransactionLookup | crates/client/db/src/mapping_db.rs:124-131 | In every state of every run, a transaction leads to the block that was synced last among those that commit it, and to none if there is none. |
| MappingReorgs.TransactionFound | crates/client/db/src/mapping_db.rs:124-131 | With a client that reads everything, a block is found if and only if a synced one commits the transaction, and it is canonical if all of them are. |
| MappingReorgs.RunAgrees | crates/client/db/src/mapping_db.rs:66-114 | In every state of every run, the block a transaction leads to is in the list of its Starknet block, and the last one there that commits the transaction. |
| MappingReorgs.TransactionLookupCanonical | crates/client/db/src/mapping_db.rs:124-131 | For a transaction in one Starknet block only, the lookup gives the last block of that one's list which commits it; so the answer is canonical if and only if that list entry is. |
| MappingReorgs.TransactionOffChain | crates/client/db/src/mapping_db.rs:93-95 | A run after which a transaction leads to a block off the canonical chain, although a canonical synced block commits it. |
| ContinuationToken.ParseOfPrint | crates/client/rpc/src/types.rs:16-33 | Parsing the printed form of any pair of 64-bit numbers gives the pair back. |
| ContinuationToken.ParseAccepts | crates/client/rpc/src/types.rs:23-33 | Exactly the texts of two numbers with one dash between them are accepted, as that pair. |
| ContinuationToken.JoinSplit | crates/client/rpc/src/types.rs:24 | Splitting at dashes loses nothing and leaves no dash in a part. |
| EventPaging.GetEvents | crates/client/rpc/src/methods/read/get_events.rs:41-120 | Checks, range, token and loop give the page or the error of the specification. |
| EventPaging.CollectPage | crates/client/rpc/src/methods/read/get_events.rs:84-120 | The loop over the blocks is the recursive scan, including the place where the page ended; no subtraction goes below zero and every token it prints fits its 64-bit fields. |
| EventPaging.ScanMeaning | crates/client/rpc/src/methods/read/get_events.rs:84-120 | From every position, a scan returns the next events of the flat filtered list, and the position after them exactly if the page is full. |
| EventPaging.PageMeaning | crates/client/rpc/src/methods/read/get_events.rs:41-120 | One call returns the next chunk; there is a token exactly if the chunk is full; the token is accepted and goes on right after it. |
| EventPaging.FollowedPages | crates/client/rpc/src/methods/read/get_events.rs:41-120 | From every accepted query on, the pages make up what remains, all full but the last. |
| EventPaging.PagingIsComplete | crates/client/rpc/src/methods/read/get_events.rs:41-168 | The concatenated pages are the filtered events of all block reads of the range, all pages but the last full, in N / chunk size + 1 calls. |
| EventPaging.PagesOfRange | crates/client/rpc/src/methods/read/get_events.rs:84-120 | In terms of the blocks: the matching events of the confirmed blocks, then those of the pending block once for every number of the range above the latest block. |
| EventPaging.NothingRepeated | crates/client/rpc/src/methods/read/get_events.rs:84-120 | Every matching event comes once if and only if the range ends at most one above the latest block, or where it starts, or no pending event matches. |
| EventPaging.PendingTwice | crates/client/rpc/src/methods/read/get_events.rs:84-120 | With block 0 as the latest one, a query up to block 2 returns a pending event twice. |
| EventPaging.ZeroChunkIsStuck | crates/client/rpc/src/methods/read/get_events.rs:64-120 | With chunk size zero the page is empty and its token leads to the same page. |
| EventPagingGrowth.GrowthExtends | crates/client/rpc/src/methods/read/get_events.rs:41-120 | On a chain that has grown, a query with a range among the confirmed blocks goes on where it was, and finds the same events followed by those of the new blocks. |
| EventPagingGrowth.SessionIsComplete | crates/client/rpc/src/methods/read/get_events.rs:41-168 | With another, larger chain at every call: no token is refused, and the pages are a prefix of, and at the end equal to, the events of the range as the last call saw it. |
| EventPagingGrowth.FixedSession | crates/client/rpc/src/methods/read/get_events.rs:132-168 | For ends given by number or hash, at or below the first latest block, that is the list of the first view. |
| EventPagingGrowth.LatestSession | crates/client/rpc/src/methods/read/get_events.rs:132-168 | For a range up to the latest block it is the list up to the latest block of the last call. |
| EventPagingGrowth.TokenAccepted | crates/client/rpc/src/methods/read/get_events.rs:84-107 | A token of the range is accepted if and only if its block has at least as many matching events as were read of it; otherwise it is refused as invalid. |
| EventPagingGrowth.TokenPastEnd | crates/client/rpc/src/methods/read/get_events.rs:84-120 | A token past the end of the range gives an empty last page. |
| EventPagingGrowth.HandOverAccepted | crates/client/rpc/src/methods/read/get_events.rs:84-107 | A page read in one view and its token used in any other whose range reaches the token's block: the same condition for acceptance. |
| EventPagingGrowth.HandOver | crates/client/rpc/src/methods/read/get_events.rs:84-120 | If accepted, the two answers together are the events of the new range, up to their place in the chain, if and only if the token's block still starts with the matching events already read. |
| EventPagingGrowth.PendingReordered | crates/client/rpc/src/methods/read/get_events.rs:84-120 | A pending block is confirmed with its events in another order between two calls: one event comes twice, another is missed. |
| EventPagingGrowth.PendingDropped | crates/client/rpc/src/methods/read/get_events.rs:84-107 | The only pending event is dropped between two calls: the token of the first page is refused. |
| EventAttribution.FlattenIsAttributed | crates/client/rpc/src/events/mod.rs:50-57 | Looking hashes up by index gives each receipt's events, in order, with the hash at its position. |
| EventAttribution.AttributionIsRight | crates/client/sync/src/utils/convert.rs:32-76 | Dropping empty receipts and flattening again loses and mixes up nothing, and agrees with the header's event count. |
| EventAttribution.FlattenInRange | crates/client/rpc/src/events/mod.rs:50-57 | The lookup stays in range exactly if every receipt with events has a hash at its index. |
| EventAttribution.BlockEventsNameEmitters | crates/client/rpc/src/events/mod.rs:37-77 | Every returned event of a fetched block names a transaction of the block that emitted it. |
| Commitments.TransactionCommitmentBinds | crates/client/sync/src/commitments/transactions.rs:29-121 | The commitment determines number, hashes and committed signatures of the transactions, and nothing more. |
| Commitments.EventCommitmentBinds | crates/client/sync/src/commitments/events.rs:24-91 | The commitment determines the list of events. |
| EventHashes.HeaderBindsContents | crates/client/sync/src/utils/convert.rs:32-76 | Two fetched blocks whose conversions have the same header hash have the same transaction hashes and, from block 833 on, the same events. |
| EventHashes.BlockTxHashesMeaning | crates/client/rpc/src/events/mod.rs:79-104 | In every state of the sync, the cached or computed hashes are those of the block's transactions, unless the genesis has cached its empty list. |
| EventHashes.EventsNameTransactions | crates/client/rpc/src/events/mod.rs:37-104 | Reading the events of a fetched block goes out of range if and only if it has events and the genesis cached its hashes; otherwise they come back in order, each with place of the block and hash of the emitting transaction. |
| EventHashes.GenesisEventsOutOfRange | crates/client/rpc/src/events/mod.rs:50-57 | A run of one round after which reading the events of a genesis that has some goes out of range. |
| EventHashes.ReferenceNamesEmitters | crates/client/rpc/src/events/mod.rs:37-77 | Each of these events was emitted by a transaction of the block and comes with its computed hash. |
| EventHashes.PendingEventsNameTransactions | crates/client/rpc/src/events/mod.rs:106-113 | The events of a pending block always come back, with hashes that lack a block number. |
| EventHashes.PendingHashesFinal | crates/client/rpc/src/events/mod.rs:79-113 | These hashes are the final ones if and only if no transaction of the block has a format that depends on the number. |
| FetchedEvents.ViewExists | crates/client/rpc/src/events/mod.rs:37-77 | A query can read a whole chain of fetched blocks if and only if the genesis has cached no hashes for a block with events. |
| FetchedEvents.ViewIsProduced | crates/client/rpc/src/events/mod.rs:59-63 | The events of such a chain have hash and number if confirmed, neither if pending. |
| FetchedEvents.FetchedToPages | crates/client/rpc/src/methods/read/get_events.rs:41-168 | From fetched blocks to pages: the concatenated pages are the matching events of the receipts of the range, in order, with place and transaction hash, then the pending ones once for every number above the latest block. |
| SealProtocol.ConsensusDataProvider.CreateDigest | crates/node/src/service.rs:655-675 | One element of each channel goes into the digest; a locked or empty channel stops this and loses what was taken. |
| SealProtocol.StepKeepsInv | crates/client/sync/src/l2.rs:201-305 | Every step of sync, seal or other issuers keeps channels and digests in line with the feed. |
| SealProtocol.Lockstep | crates/client/sync/src/l2.rs:201-305 | In every interleaving in which others ask for blocks only before the current one is sent: at most one element a channel, a seal never finds an empty one, and the k-th digest carries what was fetched for block first + k. |
| SealProtocol.NeverBlocked | crates/client/sync/src/l2.rs:201-279 | The sync loop is never stuck on a full channel. |
| SealProtocol.AnyIssuers | crates/node/src/service.rs:655-675 | With other issuers the digests stay aligned, and the sync's request fails exactly if its block was taken. |
| SealProtocol.ForeignSealEndsSync | crates/client/sync/src/l2.rs:285-305 | After a foreign request that gets at the sent block, the sync never finishes that block. |
| SealProtocol.TakenIffHarmed | crates/client/sync/src/l2.rs:201-305 | Over all runs: the sent block is gone if and only if some foreign request got at a sent block. |
| SealProtocol.CanFinishIff | crates/client/sync/src/l2.rs:201-305 | Over all runs: a sent block can still be finished if and only if no foreign request got at a sent block. |
| DigestLog.FindLogOf | crates/primitives/digest-log/src/lib.rs:64-77 | The loop finds the only log of an engine, and tells none from several. |
| DigestLog.FoundIffOnlyOne | crates/primitives/digest-log/src/lib.rs:45-77 | The block is found if and only if exactly one Madara consensus item decodes, and then it is that item's block. |
| BlockLifecycle.Pallet.OnInitialize | crates/pallets/starknet/src/lib.rs:187-204 | State and class updates of all digest items are applied in order. |
| BlockLifecycle.Pallet.StoreStateUpdate | crates/pallets/starknet/src/lib.rs:212-251 | A decodable update is stored, anything else ignored. |
| BlockLifecycle.Pallet.StoreClassUpdate | crates/pallets/starknet/src/lib.rs:253-269 | The same for classes and their interfaces. |
| BlockLifecycle.StateUpdateMeaning | crates/pallets/starknet/src/lib.rs:212-251 | For every key: a replaced class wins over a deployed one, the last entry over earlier ones, all over what was stored; nothing else changes. |
| BlockLifecycle.Pallet.TrySetSequencerAddress | crates/pallets/starknet/src/lib.rs:515-530 | The outcome of a call: done, refused, or the assertion fails. |
| BlockLifecycle.Pallet.OnFinalize | crates/pallets/starknet/src/lib.rs:178-184 | Storage and digest after finalisation, or a panic. |
| BlockLifecycle.CallsMeaning | crates/pallets/starknet/src/lib.rs:515-530 | For all calls of a block: when the assertion fails and when the flag is set at the end. |
| BlockLifecycle.BlockGoesThrough | crates/pallets/starknet/src/lib.rs:1004-1026 | A block is made if and only if the inherent comes through exactly once with nothing unsigned after it (or in block 1) and the fetched block has a hash; then the fetched data is stored, the last address set, and the block added to the digest. |
| BlockLifecycle.BlockFoundAgain | crates/pallets/starknet/src/lib.rs:1004-1026 | Readers find the block again if and only if nobody else has put a Madara log into the digest. |
| BlockLifecycle.ChainMeaning | crates/pallets/starknet/src/lib.rs:178-204 | A chain of blocks can be made if and only if each goes through; then every block hash is stored, every block is found again, and the state is that of all updates. |
| BlockLifecycle.FetchedBlocksAreFound | crates/client/sync/src/l2.rs:201-279 | From feed to readers, in every interleaving: the k-th block wraps what was fetched for block first + k. |
| TransactionHash.HashInjective | crates/primitives/hashers/src/lib.rs:41-54 | The hash chain with its length at the end is injective over lists of all lengths. |
| TransactionHash.PrepareResourceBoundValue | crates/primitives/transactions/src/compute_hash.rs:43-56 | The bytes written into the buffer are name, amount and price as one number, which always fits the field. |
| TransactionHash.PrepareDataAvailabilityModes | crates/primitives/transactions/src/compute_hash.rs:58-67 | The same for the two modes. |
| TransactionHash.ResourceValueInjective | crates/primitives/transactions/src/compute_hash.rs:43-56 | The packed number determines amount and price. |
| TransactionHash.GasHashBinds | crates/primitives/transactions/src/compute_hash.rs:154-199 | The gas hash determines tip and bounds, a missing bound being the same as a zero one. |
| TransactionHash.HashBinding | crates/primitives/transactions/src/compute_hash.rs:86-570 | For all transactions, chains, version offsets and block numbers, two hashes are equal if and only if the chains and the bound parts agree; old formats included. |
| TransactionHash.ModernHashBinding | crates/primitives/transactions/src/compute_hash.rs:86-570 | After block 1470, for all kinds but Declare V0 and V1, equal hashes mean the same transaction up to signature, handler version and zero bounds, on the same chain. |
| TransactionHash.DeclareV0V1Collision | crates/primitives/transactions/src/compute_hash.rs:216-251 | Outside of simulations these hashes agree exactly if fee, class and sender do; nonce and version are not bound. |
| TransactionHash.LegacyCollision | crates/primitives/transactions/src/compute_hash.rs:484-533 | An L1 handler hashes like an invoke exactly before block 854 and with the same call. |
| TransactionHash.PendingInvokeV0 | crates/primitives/transactions/src/compute_hash.rs:86-123 | Without a block number the maximal fee is not bound. |
| TransactionHash.PendingHashIsFinal | crates/primitives/transactions/src/compute_hash.rs:86-570 | The hash without a block number is the one in block n if and only if it is not an InvokeV0 or Deploy after block 1470 nor an L1Handler before it. |
| Blocks.HeaderHashBinding | crates/primitives/block/src/header.rs:139-176 | Two headers have the same hash if and only if the fields of their format agree. |
| FeeEstimation.OverallFeeIsCapped | crates/pallets/starknet/src/simulations.rs:279-306 | Saturating step by step equals capping the exact fee once. |
| FeeEstimation.CoversActualFee | crates/pallets/starknet/src/simulations.rs:279-306 | The estimate is less than one unit of gas short of the actual fee. |
| FeeEstimation.CoversMinimalGas | crates/pallets/starknet/src/simulations.rs:279-306 | It is never below the capped fee of the minimal gas. |
| FeeEstimation.AtMostActualFee | crates/pallets/starknet/src/simulations.rs:279-306 | Where the minima do not matter, it is at most the actual fee if and only if the data gas alone is. |
| FeeEstimation.FixedPoint | crates/pallets/starknet/src/simulations.rs:279-306 | Estimating again from an uncapped estimate changes nothing. |
| BonsaiDb.ScanIsComplete | crates/client/db/src/bonsai_db.rs:59-72 | Stopping at the first key without the prefix misses none. |
| BonsaiDb.BatchMeaning | crates/client/db/src/bonsai_db.rs:134-136 | After a batch every key has what its last write says; the others are as before. |
| BonsaiDb.RemovalMeaning | crates/client/db/src/bonsai_db.rs:113-132 | The noted deletions touch no other column and no key without the prefix, and remove every key with it if all entries could be read. |
| BonsaiDb.RemovedIffRead | crates/client/db/src/bonsai_db.rs:113-132 | The prefix is removed if and only if the iterator does not fail before its last entry. |
| BonsaiDb.NoteDeletions | crates/client/db/src/bonsai_db.rs:118-129 | The loop notes one deletion for each entry up to the first without the prefix. |
| BonsaiDb.Db.GetByPrefix | crates/client/db/src/bonsai_db.rs:59-72 | The entries with the prefix, in key order, up to the first error of the iterator; without one, all and only they. |
| BonsaiDb.Db.RemoveByPrefix | crates/client/db/src/bonsai_db.rs:113-132 | The entries with the prefix up to the first error of the iterator are deleted; the prefix is gone, and everything else as before, if and only if there is no error among them. |
| EntryPoints.GroupByType | crates/primitives/convert/src/contract.rs:126-136 | Pushing entry points one by one groups the three lists; empty lists get no group, and the groups come in the order of the types. |
| EntryPoints.GroupedAndBack | crates/primitives/convert/src/contract.rs:102-136 | There and back gives the original lists if there is an external entry point, and the missing-entry error otherwise. |
| EntryPoints.UngroupedAndBack | crates/primitives/convert/src/contract.rs:102-136 | The other way round gives the original map if and only if no list is empty and no selector exceeds the field. |

## Left out

- MappingSyncWorker.SyncOneBlock: database errors are not modelled. One before the mapping write leaves the database as it was, like a step of a run without new blocks; one between the mapping write and the tips write is the case of `MappingSyncRuns.TornRound`, and is assumed not to happen in runs.
- MappingSyncRuns.Completeness: relies on the leaves that the backend reports covering the tree (`Covered`); `MappingSync.CompleteLeavesCover` reduces that to every block without a child being a leaf.
- EventHashes.EventsNameTransactions: relies on every wrapped block coming from the conversion of a fetched one (`AllConverted`), and on one chain id for conversion, sync and queries.
- EventPaging.GetEvents: 64-bit sizes are assumed of chains and blocks (`ValidView`); looking blocks and events up is a parameter.
- TransactionHash.HashBinding: hashes are free terms, so nothing is said about the collision resistance of Pedersen, Poseidon or Keccak, nor about a hash being equal to a plain number; wrap-around of contract addresses is not modelled.
- Commitments.TransactionCommitmentBinds: the root of the trie is a free term of its leaves; the trie itself is a library.
- Snapshots and transactions of the trie database, and errors of its reads and writes other than those of iterators.
- EntryPoints.GroupByType: selectors are numbers below 2^256 instead of 32 bytes.
- SealProtocol.Lockstep: the buffer of fetched blocks, the capacity of the command channel, and the verification of state roots during the sync are not modelled.
- 64-bit and 128-bit wrap-around of counters and block numbers, except where a width is part of a type.
- Block header fields that enter no hash and no statement: gas prices and the data availability mode.
- The Merkle-Patricia trie and state roots: thin calls into a library.
- Execution of transactions, compilation of classes, compression, and the SCALE and JSON codecs: foreign code.
- Fetching from the network, the L1 client, retries, metrics: input and output.
- Node start-up, command line, chain specification, consensus wiring, terminal interface.
- Conversions of field elements, interfaces and transaction types: many cases, all easy.
- The reorg crate and the unfinished declare paths of transaction receipts: placeholders.
