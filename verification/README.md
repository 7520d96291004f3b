# A verified model of blockberry

Blockberry is a Go framework for building blockchain nodes. This project models
the parts of it whose correctness is not visible from any single function, in
Dafny 4.11, and proves what they promise, for all inputs and over whole
sequences of steps. `dafny verify dfyconfig.toml` checks everything.

| file | what it models |
|---|---|
| `proposer.dfy`, `quorum.dfy`, `validator_store.dfy` | weighted proposer selection, quorums and commit verification, the validator-set store |
| `handshake.dfy`, `handshake_system.dfy` | the hello protocol: the handler's methods, and two nodes whose handlers interleave at every point where the source releases its lock |
| `blockstore_memory.dfy`, `blockstore_leveldb.dfy`, `blockstore_badger.dfy`, `bytes.dfy` | the in-memory block store as the specification, the LevelDB store that refines it down to keys, bytes and write batches, and BadgerDB's pruning |
| `txheap.dfy`, `mempool.dfy` | the indexed binary heap and the two mempools on top of it |
| `toposort.dfy`, `container.dfy` | Kahn's algorithm and the component lifecycle |
| `ratelimit.dfy` | the two token-bucket limiters |
| `snapshot.dfy` | the snapshot codec and chunking |
| `blocksync.dfy`, `blocksync_reactor.dfy`, `blocksync_system.dfy`, `blocksync_loss.dfy`, `blocksync_threads.dfy` | serving, checking and storing blocks; the sync reactor; the reactor with an honest peer; the same when sends fail; the same with its two threads apart |
| `statesync.dfy` | the state-sync reactor |
| `common.dfy` | options, `int64` arithmetic with wrap-around, sums |

Code that changes things in place is modelled by classes and methods with
loops. Each such method is proved against a function or relation on values, and
the results below are proved about those. Where a method visits a Go map, the
order is arbitrary. Where the source holds a lock for a whole call, the call is
one step. Where it releases the lock in between, other steps may come in between
in the handshake, in state sync and in `SyncThreads`; the other block-sync
results take a check and a delivery as one step each.

The main results, by what is hard about them:

* **Exactness.** Several promises hold only on part of the inputs, and the part
  is pinned down by an if-and-only-if: fairness (`Proposer.FairExactly`), quorum
  intersection (`Quorum.IntersectionExact`), tallying (`Quorum.TallyExact`),
  accepting a commit (`Quorum.AcceptedIffJustified`), granting a request
  (`SecurityLimiter.GrantedExactly`), what prunes leave
  (`MemoryStore.PrunesLeaveExactly`), the base of a store (`MemoryStore.SaveBaseExact`), the refinement of a save
  (`LevelDBStore.SaveRefinesExactly`), rate bounds and dropping idle peers
  (`PeerLimiter.WindowBoundExactly`, `PeerLimiter.InvisibleExactly`), gapless
  storing (`BlockSync.GapFreeExactly`), recovering from failed sends
  (`SyncLoss.CatchesUpExactly`), firing a callback once
  (`SyncThreads.FiredOnceExactly`), downloading after a restart
  (`StateSync.ResumesExactly`), truncated exports
  (`Snapshots.TruncationExact`).
* **Whole runs.** The handshake between two nodes under every interleaving
  (`HandshakeSystem.CompleteImpliesMutual`,
  `HandshakeSystem.SettledRunCompletes`), block sync with repeated requests
  (`SyncSystem.SyncIsSafe`, `SyncSystem.WorkIsBounded`,
  `SyncSystem.RestIsComplete`), with failing sends (`SyncLoss.LostForGood`) and
  with interleaved threads (`SyncThreads.ThreadsAreSafe`), state sync with
  restarts (`StateSync.RunIsSafe`, `StateSync.ChunksWereVerified`,
  `StateSync.ChoiceIsTrusted`), loading what was saved
  (`MemoryStore.LoadAfterSave`), conservation in the limiters (`SecurityLimiter.RunSpends`), fairness in every
  window of rounds (`Proposer.FairInEveryWindow`).
* **Refinement.** The LevelDB store computes the in-memory store, and every
  database state a prune writes is one from which it can be reopened
  (`LevelDBStore.PruneMomentConsistent`); so does BadgerDB's pruning
  (`BadgerStore.BadgerDBBlockStore.PruneBlocks`); the machine arithmetic computes the
  unbounded one (`Proposer.NoOverflow`).
* **Round trips.** Keys, values, nodes, streams, chunks and metadata
  (`Snapshots.SnapshotRoundTrip` and its parts).

Where the code and the documentation differ the model follows the code. The
documentation calls a quorum "2f+1" (or more than two thirds of the power); the
branch for totals above half the `int64` range misses that by one for a third of
the totals, and `Quorum.DivisionFirst` says for which. A
request that cannot be sent is forgotten by the reactor, and its batch is then
never asked for again (`SyncLoss.SendDecides`).

## Model

| member | source | states |
|---|---|---|
| `Proposer.FirstMaxIsFirst` | pkg/consensus/validators.go:408-416 | The scan that replaces its candidate only by a strictly larger priority yields index m if and only if m is the earliest index of a greatest priority |
| `Proposer.ClosedForm` | pkg/consensus/validators.go:430-455 | After any number k of rounds, priority_i = k * power_i - charged_i * total, for any powers |
| `Proposer.PrioritiesSumToZero` | pkg/consensus/validators.go:430-455 | Every round conserves the sum of the priorities, which is 0 from the constructor on |
| `Proposer.LowerBound` | pkg/consensus/validators.go:430-455 | At every round priority_i >= power_i - total: nobody is ever a whole proposal ahead of their share |
| `Proposer.UpperBound` | pkg/consensus/validators.go:430-455 | At every round priority_i <= (n - 2) * total + power_i: how far anybody can fall behind |
| `Proposer.PowerlessNeverCharged` | pkg/consensus/validators.go:430-455 | If the first validator has power, a validator without power is never charged and keeps priority 0 |
| `Proposer.ExactFairness` | pkg/consensus/validators.go:372-455 | With no negative power and a first validator that has some, in particular with all powers positive: after exactly `total` rounds every priority is 0 again and validator i was charged exactly power_i times |
| `Proposer.FairExactly` | pkg/consensus/validators.go:372-455 | For powers that are not negative, that fairness holds if and only if the first validator has power; no other restriction is needed |
| `Proposer.Periodic` | pkg/consensus/validators.go:372-455 | Priorities and named proposer repeat with period `total`, from every round on |
| `Proposer.FairInEveryWindow` | pkg/consensus/validators.go:372-455 | Every window of `total` consecutive rounds, wherever it starts, charges validator i exactly power_i times, so nobody starves |
| `Proposer.RoundInRange` | pkg/consensus/validators.go:430-455 | If n * total fits in an int64, both the priority and the priority plus power of every validator fit at every round |
| `Proposer.NoOverflow` | pkg/consensus/validators.go:430-455 | Under the same condition the wrapping int64 arithmetic computes exactly the unbounded priorities, at every round |
| `Proposer.MachineTotalExact` | pkg/consensus/validators.go:374-387 | If the sum of positive powers fits in an int64, the wrapping accumulator holds exactly that sum |
| `Proposer.WeightedProposerSelection.constructor` | pkg/consensus/validators.go:372-395 | A new selection has all priorities 0, the wrapped total, and no rounds behind it |
| `Proposer.WeightedProposerSelection.FindMax` | pkg/consensus/validators.go:438-446 | The loop finds the earliest index of a greatest priority |
| `Proposer.WeightedProposerSelection.GetProposer` | pkg/consensus/validators.go:400-426 | None if and only if there are no validators; otherwise the validator that the next IncrementProposerPriority charges, which is the one the unbounded schedule names when n * total fits |
| `Proposer.WeightedProposerSelection.IncrementProposerPriority` | pkg/consensus/validators.go:430-455 | In place on the array: every power added, the total charged to the earliest maximum of the old priorities, all with wrap-around; nothing else changes |
| `Quorum.InclusionExclusion` | pkg/consensus/validators.go:168-181 | Voting power is additive: power(A) + power(B) = power(A or B) + power(A and B), for all sets of validators |
| `Quorum.DivisionFirst` | pkg/consensus/validators.go:168-181 | The division-first branch above MaxInt64/2 equals floor(2T/3)+1 except that it is one short exactly when T mod 3 = 2; the quorum exceeds two thirds exactly otherwise, and lies in 1..T |
| `Quorum.IntersectionExact` | pkg/consensus/validators.go:168-181 | Any two quorums of any validator set with total T share more than a third of the power if and only if T <= MaxInt64/2 or T mod 3 != 2 |
| `Quorum.OverflowBreaksIntersection` | pkg/consensus/validators.go:168-181 | Every validator set whose powers sum to more than MaxInt64, which the constructor accepts with a wrapped total, has two quorums without a common member |
| `Quorum.TightSplit` | pkg/consensus/validators.go:168-181 | Concrete sets that share too little when the quorum is one short: powers m, m+1, m+1 |
| `Quorum.SignBytesInjective` | pkg/consensus/validators.go:565-583 | The signed bytes determine height, round and block hash, for all int64 heights and int32 rounds, negative ones included |
| `Quorum.SignBytesLayout` | pkg/consensus/validators.go:565-583 | The signed bytes read back as eight bytes of height, four of round as a uint32, and the hash |
| `Quorum.TallyExact` | pkg/consensus/validators.go:214-244 | The accumulated power equals the power of the distinct signers if and only if no validator has two counted signatures; otherwise it is greater |
| `Quorum.TallyIsSignerPower` | pkg/consensus/validators.go:214-244 | With no validator counted twice and a total that fits, the wrapping accumulator is exactly the signers' power |
| `Quorum.AcceptedIffSignersHoldQuorum` | pkg/consensus/validators.go:198-258 | With no validator counted twice, a commit is accepted if and only if those who validly signed it hold a quorum |
| `Quorum.AcceptedIffJustified` | pkg/consensus/validators.go:198-258 | With no index twice and a total that fits, a commit is accepted if and only if it is for the height and block asked for and some set of validators with a quorum has signed: for each member some signature carries its index, key and signature have 32 and 64 bytes, and the key verifies the signature over exactly that height, round and block |
| `Quorum.AcceptedIsSigned` | pkg/consensus/validators.go:198-258 | Repeated indices included, and for every set whose total fits: an accepted commit is for the height and block asked for and holds a signature its validator's key verifies, so a verifier that refuses everything never lets a commit through |
| `Quorum.AcceptedCommitsIntersect` | pkg/consensus/validators.go:198-258 | Any two accepted commits, whatever their heights, rounds and blocks, share signers with more than a third of the power, on exactly the totals for which quorums intersect |
| `Quorum.UnanimousIsAccepted` | pkg/consensus/validators.go:198-258 | A commit validly signed by every validator is accepted, whatever the total |
| `Quorum.RepeatedIndexIsCountedAgain` | pkg/consensus/validators.go:214-244 | A concrete commit that one of three equal validators signed three times is accepted |
| `Quorum.SimpleValidatorSet.New` | pkg/consensus/validators.go:35-83 | A set is built if and only if no entry is nil, no power is zero or negative and no address repeats; otherwise the error names the first offending entry; the copies carry their position as a uint16 |
| `Quorum.SimpleValidatorSet.VerifyCommit` | pkg/consensus/validators.go:198-258 | The loop returns exactly the verdict of Check, wrapped totals included: nil commit, wrong height, wrong hash, insufficient power with both figures, or accepted |
| `ValidatorStore.LatestIsGreatest` | pkg/consensus/validators.go:503-506 | The remembered latest height is the greatest positive height ever saved |
| `ValidatorStore.BinarySearch` | pkg/consensus/validators.go:546-558 | On a strictly sorted list: the insertion point of x, and whether x is there |
| `ValidatorStore.InMemoryValidatorSetStore.SaveValidatorSet` | pkg/consensus/validators.go:492-508 | Keeps the height list strictly sorted and equal to the keys, and extends the history by this save |
| `ValidatorStore.InMemoryValidatorSetStore.LoadValidatorSet` | pkg/consensus/validators.go:511-520 | The set last saved for exactly this height, or not found |
| `ValidatorStore.InMemoryValidatorSetStore.LatestValidatorSet` | pkg/consensus/validators.go:523-531 | The set in force at the greatest saved height; none if and only if no positive height was ever saved |
| `ValidatorStore.InMemoryValidatorSetStore.ValidatorSetAtHeight` | pkg/consensus/validators.go:535-561 | The set saved for the greatest height not above the argument; none if and only if every saved height is above it |
| `Handshake.HandshakeHandler.OnPeerConnected` | internal/handlers/handshake.go:205-219 | Creates the state if missing and sends the request; other peers are untouched |
| `Handshake.HandshakeHandler.SendHelloRequest` | internal/handlers/handshake.go:273-308 | Unless one was sent before or the send fails, exactly one request goes out, with this node's name, version and chain, the current time and the current block height; as the atomic steps executed without interruption; other peers are untouched |
| `Handshake.HandshakeHandler.HandleHelloRequest` | internal/handlers/handshake.go:312-362 | Another chain or version is refused with a temporary ban for it and nothing else; the first matching request records the peer and is answered, as the steps executed in one go; other peers are untouched |
| `Handshake.HandshakeHandler.SendHelloResponse` | internal/handlers/handshake.go:365-395 | At most one response per handshake, carrying this node's key; other peers are untouched |
| `Handshake.HandshakeHandler.HandleHelloResponse` | internal/handlers/handshake.go:399-459 | A rejection or a key of the wrong length disconnects the peer and does nothing else; the first accepted response records the key, prepares the streams and sends the finalize message, as the steps executed in one go; other peers are untouched |
| `Handshake.HandshakeHandler.SendHelloFinalize` | internal/handlers/handshake.go:462-491 | The finalize send; completion is tried only when it succeeds |
| `Handshake.HandshakeHandler.HandleHelloFinalize` | internal/handlers/handshake.go:494-521 | A failure disconnects the peer and does nothing else; a success is recorded and completion tried, as the steps executed in one go; other peers are untouched |
| `Handshake.HandshakeHandler.TryComplete` | internal/handlers/handshake.go:525-557 | Completes once, only with the streams prepared and the peer's finalize received, then finalizes the connection and stores the recorded key |
| `Handshake.HandshakeHandler.CleanupStaleHandshakes` | internal/handlers/handshake.go:183-201 | Drops exactly the incomplete handshakes older than the timeout |
| `HandshakeSystem.UndisturbedHandler` | internal/handlers/handshake.go:273-557 | Running a handler's atomic steps one after another with nothing in between gives exactly the effect of the handler as one call, so the interleaving model and the methods agree |
| `HandshakeSystem.ReachableIsSafe` | internal/handlers/handshake.go:205-557 | Over every interleaving of two nodes, with any failures, reordering and repetition: the invariant tying flags, recorded keys and prepared streams to messages the other side really sent |
| `HandshakeSystem.CompleteImpliesMutual` | internal/handlers/handshake.go:525-557 | If one side is complete, then in every reachable state both sides have exchanged requests and prepared streams, each recorded the other's key, which has 32 bytes, and a height the other side's node had when it sent its request, the key stored on completion is the peer's, and chain and version agree |
| `HandshakeSystem.RequestsAreReported` | internal/handlers/handshake.go:287-293 | In every interleaving, every request a side has sent was sent by a step of that side and carries its configuration and the time and block height of that step |
| `HandshakeSystem.RecordedHeightIsReported` | internal/handlers/handshake.go:346-355 | Whatever becomes of the handshake: the height recorded for the peer is one the peer's node had in a step that sent a request |
| `HandshakeSystem.ReachableIsLive` | internal/handlers/handshake.go:205-557 | Over every fault-free interleaving: the invariant accounting for every message, task and flag, so nothing can get lost |
| `HandshakeSystem.SettledRunCompletes` | internal/handlers/handshake.go:205-557 | Every fault-free schedule between agreeing nodes that connects both, finishes every handler and delivers every message, in any order and any number of times, leaves both sides complete, with the height of the peer's node at the time of its request |
| `HandshakeSystem.TaskStepsBounded` | internal/handlers/handshake.go:205-557 | Each connection or delivery pays for at most eight handler steps in every schedule, so handlers cannot keep each other running |
| `HandshakeSystem.AtMostThreeMessages` | internal/handlers/handshake.go:273-491 | However a fault-free schedule goes on, a node sends at most one message of each kind, prepares streams once and finalizes once |
| `MemoryStore.SaveKeepsWellFormed` | pkg/blockstore/memory.go:48-76 | A save keeps the height map and the hash map inverse to each other and Height the greatest stored height |
| `MemoryStore.SaveBaseExact` | pkg/blockstore/memory.go:48-76 | A save keeps Base at or below everything stored if and only if its height is at least 1 |
| `MemoryStore.GenesisIsOvertaken` | pkg/blockstore/memory.go:48-76 | After a save at height 0 the next save moves Base above it |
| `MemoryStore.LowestKeptIs` | pkg/blockstore/memory.go:138-199 | The new base is the lowest protected height of the range, or the prune target if there is none |
| `MemoryStore.PruneKeepsWellFormed` | pkg/blockstore/memory.go:138-199 | A prune keeps the maps inverse, Height right and Base below everything stored |
| `MemoryStore.PartialPruneWellFormed` | pkg/blockstore/memory.go:138-199 | So does deleting the removable blocks below any cut with Base left alone, which is what an interrupted prune leaves |
| `MemoryStore.PruneComposes` | pkg/blockstore/memory.go:138-199 | Pruning to a and then to b leaves exactly what pruning to b at once leaves, base included |
| `MemoryStore.PruneInAnyOrder` | pkg/blockstore/memory.go:138-199 | Any sequence of prunes, in whatever order and with refused targets among them, equals the one prune to the highest accepted target |
| `MemoryStore.LeftAfterPrunes` | pkg/blockstore/pruning.go:84-103 | Any sequence of prunes leaves the blocks below the old base, those at or above the highest target and the protected ones, as they were |
| `MemoryStore.PrunesLeaveExactly` | pkg/blockstore/pruning.go:84-103 | Said in the configuration alone, of any sequence of prunes in any order: a stored block stays, unchanged, if and only if it is below the old base, no accepted target is above it, or a configuration is set under which nothing is pruned, it is among the KeepRecent newest, or it is a multiple of KeepEvery under the default strategy |
| `MemoryStore.PruneLeavesExactly` | pkg/blockstore/pruning.go:84-103 | The same of one accepted prune |
| `MemoryStore.PruneBaseExactly` | pkg/blockstore/memory.go:165-199 | The base a prune leaves is the lowest block of the range that the configuration, said in its fields, does not let go, or the target |
| `MemoryStore.LoadAfterSave` | pkg/blockstore/memory.go:48-199 | A block accepted by a save can be loaded by height and by hash, with its data, after each of any further saves and prunes, if and only if none of the prunes covers it without the configuration sparing it |
| `MemoryStore.PruneIdempotent` | pkg/blockstore/memory.go:138-199 | Pruning again to the same height removes nothing and reports zero |
| `MemoryStore.DoPruneAccepted` | pkg/blockstore/pruning.go:106-116 | The background pruner's target is refused if and only if KeepRecent is negative; otherwise none of the KeepRecent newest blocks goes |
| `MemoryStore.MemoryBlockStore.constructor` | pkg/blockstore/memory.go:36-45 | A new store is empty and well formed, with Base below everything |
| `MemoryStore.MemoryBlockStore.SaveBlock` | pkg/blockstore/memory.go:48-76 | Succeeds if and only if neither height nor hash is taken; the new state is that of Save |
| `MemoryStore.MemoryBlockStore.LoadBlock` | pkg/blockstore/memory.go:80-89 | Hash and data stored for the height, or not found |
| `MemoryStore.MemoryBlockStore.LoadBlockByHash` | pkg/blockstore/memory.go:93-104 | Height and data of the block with the hash, or not found |
| `MemoryStore.MemoryBlockStore.PruneBlocks` | pkg/blockstore/memory.go:138-199 | The loop deletes from both maps exactly what Prune says, of which PruneLeavesExactly and PruneBaseExactly say what that is, with its outcome and count |
| `LevelDBStore.HeightKeyOrder` | pkg/blockstore/leveldb.go:619-623 | Height keys sort bytewise as the heights do, and are distinct for distinct heights |
| `LevelDBStore.KeyFamiliesDisjoint` | pkg/blockstore/leveldb.go:619-726 | No key of one of the eight key families is a key of another, whatever the hashes, digests, rounds and heights |
| `LevelDBStore.BlockValueParses` | pkg/blockstore/leveldb.go:633-646 | A block value parses back to its height and data |
| `LevelDBStore.RepresentedIsConsistent` | pkg/blockstore/leveldb.go:68-86 | A database that represents a well-formed store is consistent: both indexes agree and the metadata bound what is stored |
| `LevelDBStore.SaveRefinesExactly` | pkg/blockstore/leveldb.go:89-136 | A save on the database and on the in-memory store give the same answer and related states if and only if the height is taken or the hash is not; other key families are untouched |
| `LevelDBStore.WithoutRepresents` | pkg/blockstore/leveldb.go:295-303 | Deleting both keys of some blocks is deleting those blocks from the represented store |
| `LevelDBStore.ScanIsHeights` | pkg/blockstore/leveldb.go:268-284 | The range iterator visits exactly the stored heights of [base, target), in ascending order |
| `LevelDBStore.PruneMomentConsistent` | pkg/blockstore/leveldb.go:233-343 | Every database state a prune passes through is consistent and represents a well-formed store with Base below everything, so a crash at any write is survived |
| `LevelDBStore.LevelDBBlockStore.Open` | pkg/blockstore/leveldb.go:45-86 | Reads height and base from the metadata and finds the store that the database represents, including one a crash left |
| `LevelDBStore.LevelDBBlockStore.SaveBlock` | pkg/blockstore/leveldb.go:89-136 | For every int64 height: one atomic batch; refuses exactly a taken height. With a height that is not negative and a new hash the answer and state are those of the in-memory store |
| `LevelDBStore.LevelDBBlockStore.LoadBlock` | pkg/blockstore/leveldb.go:139-165 | The in-memory store's answer, for every int64 height; a negative one is not found |
| `LevelDBStore.LevelDBBlockStore.LoadBlockByHash` | pkg/blockstore/leveldb.go:168-183 | The in-memory store's answer |
| `LevelDBStore.LevelDBBlockStore.HasBlock` | pkg/blockstore/leveldb.go:186-193 | True exactly for the represented heights, for every int64 height |
| `LevelDBStore.LevelDBBlockStore.PruneBlocks` | pkg/blockstore/leveldb.go:233-343 | The in-memory store's outcome and new state, passing only through prune moments, with other key families untouched |
| `LevelDBStore.LevelDBBlockStore.DeleteRange` | pkg/blockstore/leveldb.go:264-327 | The batched deletion loop: count, new base and every database state written on the way |
| `BadgerStore.BadgerDBBlockStore.PruneBlocks` | pkg/blockstore/badgerdb.go:375-521 | Collecting first and deleting in batches afterwards gives the in-memory store's outcome and new state too, passing only through prune moments, with other key families untouched |
| `BadgerStore.Collect` | pkg/blockstore/badgerdb.go:408-475 | Exactly the removable blocks of the range in ascending order, such that deleting any number of them in order removes exactly what is removable below some cut; and the new base |
| `BadgerStore.BadgerDBBlockStore.DeleteAll` | pkg/blockstore/badgerdb.go:477-500 | The batch loop deletes exactly those entries, and every state it writes is a prune moment |
| `BadgerStore.Visited` | pkg/blockstore/badgerdb.go:418-437 | Seeking in the height prefix and breaking off at the end key visits exactly the keys of the range, in order |
| `Bytes.CompareKeys` | pkg/blockstore/badgerdb.go:576-592 | Returns -1, 0 or 1 exactly as the keys compare in lexicographic order |
| `Bytes.BigEndianOrder` | pkg/blockstore/leveldb.go:619-623 | Fixed-width big-endian encoding is monotone both ways |
| `Bytes.Int64RoundTrip` | pkg/blockstore/leveldb.go:649-662 | Every int64 decodes to itself, whatever follows its bytes |
| `TxHeaps.RootIsMax` | pkg/mempool/priority_mempool.go:356-364 | In heap order the root has the greatest priority |
| `TxHeaps.TxHeap.Swap` | pkg/mempool/priority_mempool.go:44-48 | Swaps two entries and keeps every entry's stored index its position |
| `TxHeaps.TxHeap.Up` | pkg/mempool/priority_mempool.go:42-65 | Restores heap order above one displaced entry; a permutation, indexes kept |
| `TxHeaps.TxHeap.Down` | pkg/mempool/priority_mempool.go:42-65 | Restores heap order below one displaced entry or reports that nothing moved; a permutation, indexes kept |
| `TxHeaps.TxHeap.Push` | pkg/mempool/priority_mempool.go:50-55 | Adds exactly the new entry; heap order and stored indexes hold |
| `TxHeaps.TxHeap.Remove` | pkg/mempool/priority_mempool.go:57-65 | Removes exactly the entry at the position, from anywhere in the heap; heap order and stored indexes hold |
| `Mempools.Mempool.AddTx` | pkg/mempool/priority_mempool.go:122-180 | Each refusal exactly on its condition, in the order of the checks and changing nothing; what is added is present, within the size limit, accepted by a validator that is set, new by its hash and findable under it; only lower-priority entries, each the lowest at its time and each needed, are out, or the pool is full and nobody left is outranked; map, heap and byte count stay in step |
| `Mempools.Mempool.MakeRoom` | pkg/mempool/priority_mempool.go:146-166 | Evicts only entries of lowest priority below the newcomer's, each one needed for the count or the bytes; on success the limits hold, on failure nobody left is outranked |
| `Mempools.Mempool.EvictLowest` | pkg/mempool/priority_mempool.go:189-220 | Evicts one entry of least priority if and only if the newcomer outranks it |
| `Mempools.Mempool.Lowest` | pkg/mempool/priority_mempool.go:199-207 | The earliest position of a least priority |
| `Mempools.Mempool.RemoveTxs` | pkg/mempool/priority_mempool.go:223-235 | Removes the named transactions and nothing else, whatever the order and repetitions, through the stored heap indexes |
| `Mempools.Mempool.ReapTxs` | pkg/mempool/priority_mempool.go:239-278 | A priority-descending permutation of the (unexpired) transactions, cut at the longest prefix within the byte limit; changes nothing |
| `Mempools.SortByPriority` | pkg/mempool/priority_mempool.go:251-262 | The exchange sort: descending, and a permutation |
| `Mempools.TakeWithin` | pkg/mempool/priority_mempool.go:264-277 | The longest prefix within the limit |
| `Mempools.Mempool.HighestPriority` | pkg/mempool/priority_mempool.go:356-364 | The greatest priority in the pool, 0 when empty |
| `Mempools.Mempool.RemoveExpired` | pkg/mempool/ttl_mempool.go:145-167 | Drops exactly the transactions whose time has passed, and counts them |
| `Mempools.Mempool.HasTx` | pkg/mempool/ttl_mempool.go:341-350 | The look-up in the hash map is true exactly when the heap holds that transaction among those that a reap at the same moment may return |
| `Mempools.Mempool.ExtendTTL` | pkg/mempool/ttl_mempool.go:442-453 | Moves the expiry of exactly the named transaction |
| `Mempools.SameCount` | pkg/mempool/priority_mempool.go:303-308 | The map and the heap hold equally many entries |
| `TopoSort.OrderedIsAcyclic` | internal/container/container.go:256-315 | A graph with a dependency order has no cycle |
| `TopoSort.FindCycle` | internal/container/container.go:302-312 | In a finite set where everybody depends on somebody there is a cycle |
| `TopoSort.LeftoversCycle` | internal/container/container.go:302-312 | When the queue runs dry, the components not placed contain a cycle |
| `TopoSort.BuildGraph` | internal/container/container.go:257-276 | Reports a missing dependency if and only if there is one; otherwise in-degrees and dependents mirror the dependency lists, repetitions counted |
| `TopoSort.PlaceAll` | internal/container/container.go:278-300 | Kahn's loop: what is placed follows its dependencies, what is left has a positive in-degree |
| `TopoSort.TopologicalSort` | internal/container/container.go:256-315 | An order if and only if every dependency is registered and the graph is acyclic; it lists every component once, dependencies first. A circularity report names exactly components that wait for one another and contains a real cycle |
| `Containers.LifecycleOrder` | internal/container/container.go:147-230 | A complete start starts each dependency before its dependents, and a stop stops each dependent before its dependencies |
| `Containers.EveryoneTakesPart` | internal/container/container.go:147-230 | A complete start starts, and a stop stops, every registered component |
| `Containers.CalledExactly` | internal/container/container.go:147-230 | Start and stop hooks go exactly to the lifecycle-aware components, checks exactly to the configurable ones, starts and stops to all, and nothing else is called |
| `Containers.PhasesInOrder` | internal/container/container.go:147-230 | Every start hook precedes every check and every start, every check precedes every start, and every stop hook precedes every stop |
| `Containers.HooksInOrder` | internal/container/container.go:147-230 | Start hooks follow the dependencies forwards, stop hooks backwards |
| `Containers.Container.Register` | internal/container/container.go:66-90 | Refused if and only if started or the name is taken; otherwise exactly this component is added |
| `Containers.Container.StartAll` | internal/container/container.go:147-195 | Fails to sort exactly on a missing or circular dependency; otherwise makes the calls of all three passes up to the first that fails, and is started if and only if none does |
| `Containers.Container.StopAll` | internal/container/container.go:198-230 | Makes every stop call in reverse order whatever fails, reports the first failure, and is stopped afterwards |
| `SecurityLimiter.WindowBound` | internal/security/ratelimit.go:45-77 | In every sequence of requests and cleanups and every window of length d, what a key is granted is at most capacity + rate * d |
| `SecurityLimiter.BurstPlusRate` | internal/security/ratelimit.go:45-77 | The same in the limiter's own figures: at most burst + rate * d / interval |
| `SecurityLimiter.GrantedExactly` | internal/security/ratelimit.go:45-77 | A request is granted if and only if it is within the burst and, for every earlier event of the run, together with all that was granted to its key since then within burst + rate * elapsed / interval; cleanups included |
| `SecurityLimiter.RunSpends` | internal/security/ratelimit.go:45-77 | Conservation over any sequence: granted plus remaining never exceeds what there was plus what time refilled |
| `SecurityLimiter.CleanupIsInvisible` | internal/security/ratelimit.go:107-119 | Removing full buckets never changes the answer to any later request |
| `SecurityLimiter.TokenBucketLimiter.AllowN` | internal/security/ratelimit.go:45-77 | Creates, refills, caps and takes as the bucket model says; other keys are untouched |
| `SecurityLimiter.TokenBucketLimiter.CleanupStale` | internal/security/ratelimit.go:107-119 | Removes exactly the stale full buckets |
| `PeerLimiter.InvisibleExactly` | internal/p2p/rate_limiter.go:169-181 | Dropping idle peers changes no later answer if and only if every configured bucket refills within the idle timeout |
| `PeerLimiter.WindowBoundExactly` | internal/p2p/rate_limiter.go:169-240 | The window bound holds for a stream's messages, and for the bytes of all streams together, over all sequences and windows, if and only if that bucket refills within the idle timeout |
| `PeerLimiter.WindowBound` | internal/p2p/rate_limiter.go:217-240 | If its bucket refills in time, a peer gets at most the capacity plus what d refills through in any window of length d; a request for a negative number of messages counts as giving back |
| `PeerLimiter.CheckExactly` | internal/p2p/rate_limiter.go:217-240 | A message passes if and only if its stream, if limited, and the bytes, if limited, have enough tokens; a stream that refuses costs no bytes, bytes that refuse still cost the stream its tokens |
| `PeerLimiter.WindowFigures` | internal/p2p/rate_limiter.go:243-278 | In figures: burst (at least 1) plus rate * d messages, and bytesPerSecond plus bytesPerSecond * d bytes |
| `PeerLimiter.RateLimiter.AllowMessages` | internal/p2p/rate_limiter.go:217-278 | Creates the peer's buckets, charges messages before bytes, and keeps the message charge when the bytes are refused |
| `PeerLimiter.RateLimiter.CleanupIdlePeers` | internal/p2p/rate_limiter.go:169-181 | Drops exactly the peers idle for longer than the timeout |
| `Snapshots.NodeRoundTrip` | pkg/statestore/snapshot.go:603-682 | A node reads back, with an empty value as nil, if and only if key and value are within the size limits, whatever follows it; otherwise reading fails |
| `Snapshots.StreamRoundTrip` | pkg/statestore/snapshot.go:416-440 | A whole export reads back if and only if every node is within the limits; otherwise the import fails |
| `Snapshots.ChunksJoin` | pkg/statestore/snapshot.go:445-456 | Chunks of any positive size join to the data; all but the last are full and none is empty |
| `Snapshots.SplitIntoChunks` | pkg/statestore/snapshot.go:445-456 | The loop cuts exactly those chunks |
| `Snapshots.SnapshotRoundTrip` | pkg/statestore/snapshot.go:392-456 | Exporting, compressing, splitting, joining, expanding and importing gives back the nodes, for every chunk size and every lossless compression |
| `Snapshots.TruncationExact` | pkg/statestore/snapshot.go:416-440 | A cut-off node stream is noticed if and only if the cut falls inside a field. A cut between two fields, even in the middle of a node, is imported as if complete: the whole nodes before it arrive and the partial node is silently dropped |
| `Snapshots.MetadataRoundTrip` | pkg/statestore/snapshot.go:464-598 | Metadata read back if and only if their fields are within the limits |
| `Snapshots.Export` | pkg/statestore/snapshot.go:603-631 | The encoding loop writes the concatenated nodes |
| `Snapshots.Import` | pkg/statestore/snapshot.go:392-441 | The join and decode loops compute the decoding of the expanded chunks |
| `BlockSync.Serve` | internal/sync/reactor.go:475-529 | Refuses exactly an invalid height; otherwise the blocks stored from it on, each under its height with its stored hash and data, as many as the clamped batch size allows before the first missing height |
| `BlockSync.CheckContiguous` | internal/sync/reactor.go:566-611 | True exactly for gapless responses that start at or below the next height, with every height valid, every hash present and all data non-empty and within the limit; otherwise some block offends against one of these |
| `BlockSync.StoreBlocks` | internal/sync/reactor.go:614-658 | The loop computes StoreAll and Penalties, of which the next rows say what they are |
| `BlockSync.OnlyGenuineStored` | internal/sync/reactor.go:614-658 | Whatever the response, stored blocks stay as they are and every new one is a block of the response that hashes as claimed and passed the validator |
| `BlockSync.NewHeightIsChecked` | internal/sync/reactor.go:632-658 | Whatever the response, a height that is new in the store is that of a block of the response, with its hash and data, whose data hashes to that hash and which a validator that is set has accepted |
| `BlockSync.CheckedIsStored` | internal/sync/reactor.go:632-658 | The converse: such a block is stored if height and hash are new to the store and to the blocks before it |
| `BlockSync.NoValidatorNoBlock` | internal/sync/reactor.go:637-646 | With no validator, or one that refuses everything, the store stays as it is and each block at a height it lacks costs one penalty |
| `BlockSync.GapFreeExactly` | internal/sync/reactor.go:614-658 | A response that passes the contiguity check leaves a gapless store gapless if and only if every new block before a storable one is storable, and none is for height 0; storable is read off the response and the store beforehand: the client lacks the height, the block is genuine, and neither the store nor a genuine new block before it has the hash |
| `BlockSync.StoredExactly` | internal/sync/reactor.go:614-658 | After any number of blocks of the response exactly the storable ones among them are in the store |
| `BlockSync.GapFreeWithNewHashes` | internal/sync/reactor.go:614-658 | With new, distinct hashes: gapless if and only if no genuine new block comes after one that is not genuine |
| `BlockSync.GapAfterRefusal` | internal/sync/reactor.go:614-658 | A concrete response that passes the contiguity check and leaves a gap: block 1 does not hash as claimed, block 2 does and is stored |
| `SyncReactors.SyncReactor.CleanupTimedOut` | internal/sync/reactor.go:379-390 | Drops exactly the timed-out requests and rewinds to the lowest of their start heights |
| `SyncReactors.SyncReactor.HandOut` | internal/sync/reactor.go:324-362 | Pairs idle peers with consecutive batches, as many as are allowed |
| `SyncReactors.SyncReactor.RequestBlocks` | internal/sync/reactor.go:297-375 | Drops what timed out, skips to the first needed height and hands out batches to peers that have it |
| `SyncReactors.AssignExactly` | internal/sync/reactor.go:327-372 | The request loop hands out consecutive batches, one each to idle peers of the list, recorded with first and last height and time; as many as are available unless the idle peers run out; pending requests are left alone |
| `SyncReactors.RequestsGoToPeersAhead` | internal/sync/reactor.go:297-375 | Every request goes to a peer known to be ahead, with no request under way or a timed-out one, for a batch above the store's height unless the batch size is negative; never are more requests under way than allowed |
| `SyncReactors.SyncReactor.CheckSync` | internal/sync/reactor.go:231-287 | Synced, with one callback, exactly when nobody known is ahead; otherwise syncing and requesting |
| `SyncReactors.SyncReactor.HandleBlocksResponse` | internal/sync/reactor.go:546-664 | Forgets the request, refuses and penalises a non-contiguous response without storing anything, else stores and checks again |
| `SyncReactors.SyncReactor.OnPeerDisconnected` | internal/sync/reactor.go:672-685 | Forgets the peer and rewinds to its pending request |
| `SyncSystem.StoreAnswer` | internal/sync/reactor.go:614-658 | An honest answer that starts within reach brings the store to its last block and blames nobody |
| `SyncSystem.SyncIsSafe` | internal/sync/reactor.go:231-664 | With one honest peer, a lossless in-order network, and a check and a delivery as one step each, however requests time out and are repeated: in every reachable state the store is a gapless prefix of the peer's chain, the peer was never penalised, and the completion callback has fired once if the client caught up and not before |
| `SyncSystem.WorkIsBounded` | internal/sync/reactor.go:231-664 | Without timeouts the messages moved in a sequence of any length are bounded by what was left to do at its start |
| `SyncSystem.TickAsks` | internal/sync/reactor.go:231-375 | While behind with nothing on its way, a tick asks for exactly the block after the last |
| `SyncSystem.RoundRaises` | internal/sync/reactor.go:231-664 | A tick, a served request and a delivery raise the height by a batch or to the peer's height, strictly |
| `SyncSystem.RestIsComplete` | internal/sync/reactor.go:231-664 | With nothing on its way, a tick sends nothing if and only if the client holds the peer's whole chain; then it is synced and the callback has fired once |
| `SyncSystem.AsksExactly` | internal/sync/reactor.go:297-375 | With nothing pending, a client that is behind sends something if and only if some peer has a block at or above the next height to ask for |
| `SyncSystem.StuckForever` | internal/sync/reactor.go:297-375 | For any number of peers: a client that is behind, has nothing pending and whose next height has passed every peer stays behind for any number of ticks |
| `SyncLoss.LossyIsSafe` | internal/sync/reactor.go:365-374 | Whichever sends fail and whatever times out, the store stays a gapless prefix of the honest peer's chain |
| `SyncLoss.CatchesUpExactly` | internal/sync/reactor.go:297-390 | In every such state the client can still catch up if and only if no height is missing between what the answers on their way will bring, delivered in order, and the lowest height it may still ask for, now or after a timeout |
| `SyncLoss.GapIsForGood` | internal/sync/reactor.go:297-390 | Once such a height is missing the store ends before it in every continuation, whatever is sent, lost, served, delivered or timed out |
| `SyncLoss.LosslessHasNoGap` | internal/sync/reactor.go:231-664 | As long as no send has failed there is no such gap, so every reachable state can still catch up |
| `SyncLoss.LostForGood` | internal/sync/reactor.go:365-374 | If nothing on its way, pending or still to be asked for reaches back to the block above the store, the store never grows again and every delivered answer costs the honest peer one penalty |
| `SyncLoss.SendDecides` | internal/sync/reactor.go:365-374 | A client that is behind with nothing on its way asks for the batch right above its store. If that send fails the state is lost in this sense, whatever the peer's height; the client can still catch up if and only if the send succeeds |
| `SyncThreads.ThreadsAreSafe` | internal/sync/reactor.go:214-287 | With the ticker and the handler interleaving between reading the height, deciding and requesting, and between single stored blocks: the store is always a gapless prefix of the chain and the peer is never penalised; the callback does not fire before the client has caught up, and from then on it has fired once and once more for every late check |
| `SyncThreads.FiredOnceExactly` | internal/sync/reactor.go:231-280 | A synced client has fired the callback exactly once if and only if no check set it back to syncing after it had caught up |
| `SyncThreads.StaleCheckFiresAgain` | internal/sync/reactor.go:231-280 | A check that read its height before the last block was stored, and goes on after the client has become synced, makes the callback fire again |
| `SyncThreads.FiresTwice` | internal/sync/reactor.go:231-280 | From every client one block behind there is an interleaving in which the callback fires twice |
| `StateSync.StateSyncReactor.Start` | internal/sync/statesync.go:159-174 | Starts discovering unless already running; keeps everything else, a chosen snapshot included |
| `StateSync.StateSyncReactor.SelectBest` | internal/sync/statesync.go:282-306 | An eligible offer of greatest height, or none if and only if nothing is eligible |
| `StateSync.StateSyncReactor.DiscoverSnapshots` | internal/sync/statesync.go:252-311 | Selects once, only while discovering, and lays out the chunks |
| `StateSync.StateSyncReactor.HandleSnapshotsResponse` | internal/sync/statesync.go:553-590 | Takes complete offers only while discovering, the last one for a hash winning |
| `StateSync.StateSyncReactor.CheckChunkTimeouts` | internal/sync/statesync.go:314-331 | Forgets exactly the overdue requests and counts one retry for each |
| `StateSync.StateSyncReactor.RequestMissingChunks` | internal/sync/statesync.go:334-391 | Begins the import exactly when every chunk is there; else asks for missing, unpending chunks with retries left, up to the first without, which fails the sync |
| `StateSync.StateSyncReactor.PeersWithSnapshot` | internal/sync/statesync.go:394-405 | At most one peer: the one whose offer of this snapshot was kept |
| `StateSync.StateSyncReactor.HandleChunkResponse` | internal/sync/statesync.go:625-674 | Penalises exactly for a missing chunk of the chosen snapshot whose SHA-256 is not the hash it came with, and then changes nothing; one step of the runs below otherwise |
| `StateSync.StateSyncReactor.OnPeerDisconnected` | internal/sync/statesync.go:778-789 | Forgets exactly the requests to this peer, without counting a retry |
| `StateSync.StateSyncReactor.FinishImport` | internal/sync/statesync.go:431-450 | Complete or failed after the import, with the callback for it |
| `StateSync.StateSyncReactor.Progress` | internal/sync/statesync.go:206-226 | Between 0 and 100, and 100 if and only if every chunk of a non-empty snapshot has arrived |
| `StateSync.StepKeeps` | internal/sync/statesync.go:282-789 | Every step keeps the invariant, loses no chunk, keeps the choice and lowers no counter |
| `StateSync.RunIsSafe` | internal/sync/statesync.go:282-789 | Over every sequence of events from the start, restarts included: pending and dated chunks coincide, are missing and have retries left; no chunk is retried too often; a failure before the import has an exhausted chunk; at most one import, of a highest eligible offer with every chunk; completion is reported at most once, after an import and with its height and app hash |
| `StateSync.ChunksAreKept` | internal/sync/statesync.go:625-674 | A chunk once received is there unchanged at every later point and in the import |
| `StateSync.ChunksWereVerified` | internal/sync/statesync.go:625-674 | Over every run from the start: every chunk that counts as received, and every chunk of the import, arrived in a response for the chosen snapshot and that index whose stated hash is the SHA-256 of the data |
| `StateSync.DeliveryCounts` | internal/sync/statesync.go:625-674 | The converse: a missing chunk of the chosen snapshot delivered under its own hash is there from then on, and no longer pending |
| `StateSync.ChoiceIsTrusted` | internal/sync/statesync.go:282-306 | Over every run from the start: what is chosen and imported some peer offered in full; it is not below the trusted height, at that height it has the trusted hash, and no other such offer known then was higher |
| `StateSync.DiscoveryChooses` | internal/sync/statesync.go:252-311 | Discovery chooses as soon as some offer is not ruled out, with all chunks missing, and otherwise changes nothing |
| `StateSync.AddOffersExactly` | internal/sync/statesync.go:565-590 | A list of snapshots puts under each hash it names in full the last such entry, with its peer, and leaves all else |
| `StateSync.AskExactly` | internal/sync/statesync.go:341-391 | While chunks are missing: each one not under way is asked of the peer that offered the snapshot and dated now, unless the send fails or a chunk with no retry left comes first, and such a chunk anywhere fails the sync; without that peer nothing happens |
| `StateSync.TimeoutExactly` | internal/sync/statesync.go:314-331 | Exactly the requests older than the timeout are given up, each at the cost of one retry, and only during a download |
| `StateSync.DropExactly` | internal/sync/statesync.go:778-789 | A lost peer takes with it exactly the requests made to it, at no cost in retries |
| `StateSync.RestartNeverResumes` | internal/sync/statesync.go:159-174 | From a view with a snapshot chosen and no download going on, at every later point of every run the choice, the chunks and the imports are the same and nothing is downloaded; a reactor that discovers then, discovers for good |
| `StateSync.ResumesExactly` | internal/sync/statesync.go:252-311 | A reactor that discovers, started or restarted, can come to download if and only if no snapshot is chosen yet |

## Left out

- Hashes, signatures and gzip are parameters: a hash function, a verification predicate, and a pair of functions one of which undoes the other.
- Time is a parameter of each step. Locks are not modelled except for where they are released.
- Floating point is modelled by real numbers, so rounding in the limiters is not.
- Wire encoding of messages (cramberry) and the network itself; a send is a parameter that succeeds or fails.
- HandshakeSystem.SettledRunCompletes: assumes that no handshake state is deleted by a timeout or a disconnect during the run; the deletion itself is `CleanupStaleHandshakes`.
- HandshakeSystem.CompleteImpliesMutual: under the same assumption about deletion; sends and stream preparation may fail.
- LevelDBStore.LevelDBBlockStore.SaveBlock: the refinement is stated for heights of 0 or more, because the key order breaks at negative heights; I/O errors of the database are not modelled.
- MemoryStore.MemoryBlockStore.PruneBlocks: leaves out the byte count and the duration.
- BadgerStore.BadgerDBBlockStore.PruneBlocks: leaves out the byte count, the duration and the flag for a prune in progress.
- LevelDBStore.LevelDBBlockStore.PruneBlocks: leaves out the byte count, the duration and the flag for a prune in progress, which the lock makes unobservable.
- Certificates and batches in the block stores, except that their keys are disjoint from the block keys.
- BadgerStore.BadgerDBBlockStore.DeleteAll: takes a flushed write batch as atomic, which BadgerDB promises only while the batch fits one of its transactions.
- Saving and loading in the BadgerDB store, which write and read the keys and values of the LevelDB store; the header-only and no-op stores.
- `IndexedValidatorSet` and the getters of the validator set, which would only add easy members.
- MemoryStore.DoPruneAccepted: models `currentHeight - KeepRecent` without wrap-around, which only a KeepRecent near the lowest `int64` would reach.
- Mempools.Mempool.AddTx: the byte counter is unbounded; addition times and defensive copies are not modelled; one class stands for both mempools, which share this code line by line (the priority mempool has no size limit and never looks at the expiry).
- The simple, looseberry and no-op mempools; `Flush`, `SetTTL` and the getters would only add easy members.
- PeerLimiter.RateLimiter.AllowMessages: `SetLimits` is not modelled, so the limits are those the peers' buckets were made with.
- The sliding-window limiter, the connection tracker and the gRPC limiter.
- Snapshots.Import: the tree that receives the nodes is not modelled, only the sequence of nodes it is given; file storage of snapshots and chunks is left out.
- SyncReactors.SyncReactor.RequestBlocks: sending is separate; what a failed send does afterwards is `OnSendFailed`, the `SendFailed` of the failing-send results.
- SyncReactors.SyncReactor.CheckSync: taken as one step; the steps between its locks are those of `SyncThreads`.
- SyncSystem.SyncIsSafe: one peer of fixed height, no lost and no reordered messages, checks and deliveries as one step each, and a client that starts behind; a client that is never behind never fires the callback.
- SyncThreads.ThreadsAreSafe: one ticker and one handler of responses; progress is not stated for it.
- StateSync.StateSyncReactor.DiscoverSnapshots: a negative chunk count in an offer, on which the source would stop with an allocation failure, cannot be expressed; the requests sent to the peers and the creation time of an offer, which is only passed on, are left out.
- StateSync.StateSyncReactor.RequestMissingChunks: the import runs with the lock released and ends in `FinishImport`, so other steps may come in between.
- SyncReactors.SyncReactor.HandleBlocksResponse: taken as one step here; counts penalties but not their kinds, and leaves out what is marked as sent or received per peer.
- Serving snapshots and chunks to others, which only reads.
- Transaction and consensus reactors, peer exchange, address book, scoring, RPC, event bus, tracing, configuration, the command line.
