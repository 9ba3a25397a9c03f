# Mini ETH node: a Dafny model

This project models the hard core of a small Ethereum-style node written in Rust and proves what the node is for:

* **RLP** encodes and decodes without loss. On every byte string the decoder stays in bounds, terminates and normalises.
* The **Merkle Patricia trie** refines a map and has one shape per map. Its root commits to its contents, and with the
  hashed strings at hand the accounts can be read back from it.
* **Block execution** moves value from sender to recipient and burns the fees, keeps nonces in order and is atomic behind
  an undo journal. Every error has its exact condition.
* The **block processor** holds a linked, replayable chain in every reachable state, whatever arrives in whatever order,
  also when a block makes it panic. Every account follows from genesis and the committed transactions, and every verdict
  and counter from the chain.
* The **block builder** and the processor stay in lockstep, so a client loop never stalls and pays what it was asked to.
* The **frame codec** delivers exactly the messages sent, however the byte stream is cut up.
* The **read-through cache** is transparent exactly when the wrapped provider's lookups agree.
* **Connections and manager**, interleaved in any order, let only handshaken peers through.
* **The whole node**, from bytes to chain: every committed block stands in the bytes of a peer that greeted on our chain,
  every account state written to a peer is true at its query's place in the run, and every head no older than what was
  served by then.

## How it is laid out

| layer | files |
|---|---|
| values and bytes | `Primitives`, `BigEndian`, `Buffers`, `ChainTypes` |
| RLP | `Rlp` (items), `TypedRlp` (typed values), `Hashing` (what is hashed), `WireReader` (reading that back), `Commitments` (what hashes pin down) |
| trie | `Trie`, `TrieCanonical`, `TrieContents`, `TrieHash`, `TrieCommitment`, `TrieReader`, `MerkleTrie`, `StateRoot`, `StateReader` |
| execution | `Pricing`, `Ledger`, `Execution`, `Provider`, `Pipeline`, `Cached`, `CachedRuns` |
| processor | `ProcessorSpec`, `Processor`, `ProcessorRuns`, `Verdicts`, `DeliveryOrder`, `JunkDelivery`, `ProcessorAccounting`, `ChainLedger`, `Balances` |
| builder | `Builder`, `Client`, `Payments` |
| network | `Messages`, `Framing`, `Connection`, `Manager`, `Network`, `NetworkRuns`, `Sockets` |
| whole node | `NodeRuns`, `FullNode`, `Witnesses` |

Code that updates fields or buffers in place is a class or a method with loops. Each is proved against a specification
function, and the theorems are about those functions. Runs are folds over arbitrary sequences of inputs, so a lemma about
a run speaks of every run.

Keccak, signing and sender recovery are function parameters. Nothing is assumed of Keccak: a commitment lemma gives
equality, or two different strings, both actually hashed on the way, that have the same hash. The one law asked of
signatures (`Client.Sound`) is that recovering a signature gives the signer's address.

Integers are unbounded, with the 64- and 128-bit checks, wrap-arounds and conversions of the code written out.

### Where the code falls short of its promise

* Inserting a key that extends another key, or is extended by one, drops the shared nibbles
  (`core/rlp-codec/src/trie.rs:184-207`). `Trie.InsertRefinesUpdate` gives the exact condition on trie and key under which
  insertion is map update, and `Trie.PrefixKeyIsLost` the shortest failing input. With keys of one length, which is how the
  node uses the trie, the condition always holds (`TrieCanonical.InsertedCanonical`).
* The account decoder reads every field from the first item (`core/rlp-codec/src/traits.rs:638-640`).
  `TypedRlp.AccountNeverDecodes` shows that no input whatever decodes.
* A frame announcing no bytes panics the frame decoder, and no other bytes do (`Framing.PanicsExactlyOnEmptyFrame`), as far
  as the depth of the RLP decoder's recursion, which is not modelled, does not matter. The connection then ends without
  telling the manager: `NetworkRuns.CrashGoesUnnoticed` is a run in which every event has been handled and the peer is
  still in the map, where it stays until a send to it fails. `Sockets.UntoldIff` says exactly which bytes can do this, and
  `Sockets.EmptyFrameIsCrashBytes` gives the shortest: four zero bytes, at once or after a proper greeting.
* Contract creation is an unfinished branch that panics and ends the processor's task. `Witnesses.CreationHalts` is a block
  that does it. `ProcessorRuns.HaltsIff` says exactly when a block does, and no block asking for creation ever commits.
* A block that came early is lost when a refused block fills the gap before it (`JunkDelivery.EarlyBlockIsLost`): a refused
  block at the next number takes the whole run buffered behind it with it (`JunkDelivery.RefusedTakesTheRun`). Blocks
  delivered in order suffer no such loss (`JunkDelivery.JunkDoesNotHinder`).
* Headers do not bind bodies, since the processor checks neither the transaction root nor the state root:
  `Witnesses.BodiesAreNotPinned` has two nodes publish one head over different accounts. With the bodies agreeing as well,
  equal heads do mean equal accounts (`Commitments.SameBodiesSameAccounts`).
* The cache answers wrongly when by-hash and by-number lookups of the wrapped provider disagree, and only then
  (`Cached.TransparentIff`). `Cached.MisfiledDisagrees` and `Cached.CollisionDisagrees` are such providers. In front of a store
  the block processor has built, `CachedRuns.RunTransparentIff` says that this takes two headers of the chain with one hash.

## Model

| member | source | states |
|---|---|---|
| `Rlp.EncodeLength` | core/rlp-codec/src/encoder.rs:67-79 | the push-and-reverse loop yields the big-endian bytes without leading zeros, and one zero byte for zero |
| `Rlp.AddListPrefix` | core/rlp-codec/src/encoder.rs:56-64 | appends the list header of the given payload length and touches nothing before it |
| `Rlp.EncodeBytes` | core/rlp-codec/src/encoder.rs:22-39 | appends the string's encoding, with the three header cases |
| `Rlp.Encode` | core/rlp-codec/src/encoder.rs:21-54 | the recursive encoder appends exactly the item's encoding to whatever the buffer held |
| `Rlp.EncodeItems` | core/rlp-codec/src/encoder.rs:40-52 | the list loop appends the concatenated encodings of the items |
| `Rlp.EncodedLenCorrect` | core/rlp-codec/src/encoder.rs:5-19 | the computed length, found without encoding, is the length of the encoding |
| `Rlp.LengthPrefixLen` | core/rlp-codec/src/encoder.rs:81-96 | the bit-counting header length is the length of the header written |
| `BigEndian.BitLengthCountsBytes` | core/rlp-codec/src/encoder.rs:93-96 | rounding the bit length up to bytes counts the bytes of the minimal big-endian form |
| `Rlp.DecodeLength` | core/rlp-codec/src/decoder.rs:86-102 | copying into a zeroed eight-byte array reads the big-endian value; both error cases |
| `Rlp.Decode` | core/rlp-codec/src/decoder.rs:5-84 | the decoder computes the specification on every byte string: in bounds, terminating, same errors |
| `Rlp.DecodePayload` | core/rlp-codec/src/decoder.rs:72-82 | the loop over a list payload collects the items until the payload is used up, or stops at the first error |
| `Rlp.Decoded` | core/rlp-codec/src/decoder.rs:5-84 | on success the remainder is a proper suffix of the input |
| `Rlp.PrefixRoundTrip` | core/rlp-codec/src/decoder.rs:10-84 | every header written is read back as the kind, start and length it was written for |
| `Rlp.RoundTrip` | core/rlp-codec/src/decoder.rs:5-84 | decoding an encoding followed by any suffix returns exactly the item and the suffix |
| `Rlp.TruncationDetected` | core/rlp-codec/src/decoder.rs:5-102 | every proper prefix of an encoding is refused as too short, with fewer bytes at hand than expected |
| `Rlp.PrefixFree` | core/rlp-codec/src/encoder.rs:21-54 | no encoding is a proper prefix of another, and one encoding belongs to one item |
| `Rlp.EncodingInjective` | core/rlp-codec/src/encoder.rs:21-54 | items with equal encodings are equal |
| `Rlp.ReencodingNotLonger` | core/rlp-codec/src/decoder.rs:5-84 | re-encoding what was decoded, even from non-canonical input, is never longer than the bytes consumed |
| `Rlp.DecodeNormalises` | core/rlp-codec/src/decoder.rs:5-84 | re-encoding a decoded item and decoding again gives the same item |
| `Trie.BytesToNibbles` | core/rlp-codec/src/trie.rs:42-53 | the loop splits each byte high nibble first |
| `Trie.NibblesAt` | core/rlp-codec/src/trie.rs:42-53 | byte i of a key gives nibbles 2i, its high half, and 2i + 1, its low half |
| `Trie.NibblesInjective` | core/rlp-codec/src/trie.rs:42-53 | different keys have different paths |
| `Trie.InsertedFind` | core/rlp-codec/src/trie.rs:157-313 | unless shared nibbles are dropped, an insertion binds the new key and changes no other lookup |
| `Trie.DroppedPrefixWitness` | core/rlp-codec/src/trie.rs:184-207 | whenever shared nibbles are dropped, a path that is then bound wrongly is produced |
| `Trie.InsertRefinesUpdate` | core/rlp-codec/src/trie.rs:157-313 | insertion is map update if and only if it does not end at a leaf whose path and the key's are one a proper extension of the other below a shared nibble |
| `Trie.PrefixKeyIsLost` | core/rlp-codec/src/trie.rs:184-195 | after a one-byte key and then its extension, the first key is gone and the empty key is bound |
| `TrieCanonical.InsertedCanonical` | core/rlp-codec/src/trie.rs:157-313 | with keys of one length the prefix cases are unreachable, and the result again has non-empty extensions over branches, branches of two or more children without value, and paths of one length |
| `TrieCanonical.CanonicalUnique` | core/rlp-codec/src/trie.rs:157-313 | canonical tries that agree on all lookups are identical |
| `TrieContents.InsertRepresents` | core/rlp-codec/src/trie.rs:319-329 | a trie of a map, after insertion, is the trie of the updated map |
| `TrieContents.OrderIndependence` | core/rlp-codec/src/trie.rs:157-313 | two insertion sequences build the identical trie if and only if they leave the same final map |
| `TrieContents.ComposedRepresents` | core/rlp-codec/src/trie.rs:157-313 | the composition by cases on the keys, as in Appendix D of the Ethereum Yellow Paper, is the canonical trie of the map |
| `TrieContents.BuiltIsComposed` | core/rlp-codec/src/trie.rs:157-329 | building by insertions gives that composition of the final map |
| `TrieHash.HpEncode` | core/rlp-codec/src/trie.rs:122-155 | the hex-prefix loop writes the flag nibble and packs the path |
| `TrieHash.HpRoundTrip` | core/rlp-codec/src/trie.rs:122-155 | path and leaf flag are read back from the hex-prefix bytes |
| `TrieHash.HpInjective` | core/rlp-codec/src/trie.rs:122-155 | different paths or different kinds have different hex-prefix bytes |
| `MerkleTrie.EncodeNode` | core/rlp-codec/src/trie.rs:55-120 | the node encoder returns the inline item below 32 bytes and the hash otherwise, for every node kind |
| `MerkleTrie.EncodeExtension` | core/rlp-codec/src/trie.rs:90-112 | splicing an inlined child's raw bytes into the extension gives the encoding of the two-item list |
| `MerkleTrie.EncodeBranch` | core/rlp-codec/src/trie.rs:69-89 | the branch loop gives the encoding of the seventeen-item list |
| `MerkleTrie.MerkleTrie.Insert` | core/rlp-codec/src/trie.rs:319-329 | refuses the empty key and otherwise makes the root the insertion of the key's nibbles |
| `MerkleTrie.MerkleTrie.ComputeRootHash` | core/rlp-codec/src/trie.rs:331-342 | the root hash of the current trie, the hash of the empty string's encoding when it is empty |
| `TrieCommitment.NodeFits` | core/rlp-codec/src/trie.rs:55-120 | a node over bounded paths and values encodes within 64-bit lengths |
| `TrieCommitment.RefCommits` | core/rlp-codec/src/trie.rs:74-119 | equal child references, inlined or hashed, come from equal nodes, or two strings hashed below them collide |
| `TrieCommitment.NodeCommits` | core/rlp-codec/src/trie.rs:55-120 | leaf, extension and branch are told apart and recovered from the item, or there is a collision below |
| `TrieCommitment.RootCommits` | core/rlp-codec/src/trie.rs:331-342 | equal root hashes: the same trie, or two different strings hashed on the way that have one hash |
| `TrieReader.TrieReads` | core/rlp-codec/src/trie.rs:55-155 | a reader of Appendix D of the Yellow Paper that has only the root hash and the hashed strings finds at every path exactly what the trie holds; it insists on leaf and extension flags, on nodes in place exactly below 32 bytes, and on the root of the empty trie |
| `TrieReader.DatabaseExists` | core/rlp-codec/src/trie.rs:331-342 | such a store of strings exists unless two of them have one hash |
| `StateRoot.AccountBytesInjective` | core/execution/src/executor.rs:20-28 | an account is determined by the bytes stored for it |
| `StateRoot.StateTrieRepresents` | core/execution/src/executor.rs:14-32 | the trie of an account map binds exactly the addresses' paths to the accounts' bytes |
| `StateReader.StateTrieReads` | core/execution/src/executor.rs:19-30 | what the state trie holds at the half bytes of an address, high half first, is read by section 4.1 of the Yellow Paper as nonce, balance, storage root and code hash in this order: those of its account, with a storage root of zeros; an address without account has nothing there |
| `StateRoot.ComputeStateRoot` | core/execution/src/executor.rs:14-32 | inserting the accounts in any iteration order yields the root of the composed trie |
| `StateRoot.StateRootCommits` | core/execution/src/executor.rs:14-32 | equal state roots: equal nonce, balance and code hash at every address, or a collision among the strings hashed |
| `StateReader.StateReads` | core/execution/src/executor.rs:14-32 | from the state root and the strings hashed for it, every account is read back with its nonce, balance and code hash, and every absence |
| `Pricing.EffectiveGasPrice` | core/types/src/transaction.rs:83-111 | exactly when there is a price, and which error when there is none; for typed transactions the largest within the cap and the base fee plus tip, and never below the base fee |
| `Pricing.MaxCost` | core/types/src/transaction.rs:113-152 | cap times gas limit plus value, and an overflow exactly when that does not fit in 128 bits |
| `Pricing.DebitWithinMaxCost` | core/types/src/transaction.rs:83-152 | what is debited never exceeds the maximum cost checked against the balance |
| `Ledger.TransferMoves` | core/execution/src/executor.rs:77-151 | a transfer adds the value to the recipient's balance and takes value and price times gas limit from the sender's, also when they are one; code hashes stay, nobody else changes, and a recipient without account gets one with nonce 0 and the hash of empty code |
| `Ledger.TransferFailsIff` | core/execution/src/executor.rs:77-151 | the exact condition of every error of a transfer, contract creation included, on the sender's account, the recipient's balance and the transaction; and of success, whatever the supply |
| `Ledger.TransferConserves` | core/execution/src/executor.rs:77-151 | a transfer, to oneself or to a new account included, takes exactly the fee out of the sum of balances |
| `Ledger.DebitNeverOutOfRange` | core/execution/src/executor.rs:109-136 | after the maximum-cost check the debit can neither underflow nor overflow; only the last nonce can |
| `Ledger.CreditNeverOverflows` | core/execution/src/executor.rs:138-148 | with a supply below 2^128, once the debit passed, a transfer succeeds if and only if it has a recipient: the credit cannot overflow |
| `Ledger.TransferSucceedsIff` | core/execution/src/executor.rs:77-151 | with such a supply a transfer succeeds if and only if it has a recipient and sender, nonce, maximum cost and gas price are in order |
| `Ledger.TransferNonces` | core/execution/src/executor.rs:101-136 | a transfer carries its sender's nonce, advances it by one and touches no other nonce |
| `Execution.FirstErrorWins` | core/execution/src/executor.rs:70-221 | an execution that fails at one transaction fails with that error |
| `Execution.ExecutionFailsIff` | core/execution/src/executor.rs:70-174 | a block fails with an error, contract creation included, if and only if some transaction does after all before it went through, or takes the gas past 64 bits |
| `Execution.ExecutedNames` | core/execution/src/executor.rs:138-151 | a block that executes names every recipient, and one that names every recipient never reaches contract creation |
| `Execution.ExecutionConserves` | core/execution/src/executor.rs:70-174 | executing a block burns exactly the fees on its receipts |
| `Execution.ExecutedPrices` | core/execution/src/executor.rs:69-136 | in a block that executes, twice the cap of a typed transaction is at least the block's gas limit less one; its price is the cap or the tip over half the block's gas limit, whichever is less; and the sender is debited price times gas limit plus value |
| `Execution.ReceiptsAccount` | core/execution/src/executor.rs:152-174 | one receipt per transaction, in order, with its hash, place, block hash and number, sender, recipient, gas limit, price by the block's gas limit, and the running sum of gas limits |
| `Execution.NonceAfter` | core/execution/src/executor.rs:77-136 | within a block every address's nonce grows by the number of transactions it sent |
| `Execution.ExecutionNonces` | core/execution/src/executor.rs:101-136 | within a block the nonces of a sender are consecutive from its stored nonce |
| `Provider.InMemoryProvider.InsertBlock` | core/execution/src/in_memory.rs:32-44 | indexes the block by hash, its transactions by hash, and stores it under its number |
| `Provider.InsertedIsFound` | core/execution/src/in_memory.rs:32-44 | an inserted block, with or without transactions, is found by its header hash, and each of its transactions under its own hash and that block's number |
| `Provider.InMemoryProvider.SetAccount` | core/execution/src/in_memory.rs:59-68 | writes the account and, with a journal open, records what was there at the first write only |
| `Provider.InMemoryProvider.BeginJournal` | core/execution/src/in_memory.rs:74-81 | opens an empty journal, or refuses and keeps the open one |
| `Provider.InMemoryProvider.RollbackJournal` | core/execution/src/in_memory.rs:87-102 | undoing the entries in any iteration order restores the recorded accounts and removes the created ones |
| `Provider.WriteKeepsRestored` | core/execution/src/in_memory.rs:59-68 | no journaled write changes what a rollback would restore |
| `Provider.UndoOne` | core/execution/src/in_memory.rs:89-98 | undoing one entry leaves the outcome of the whole rollback as it was |
| `Pipeline.ValidatedHeader` | core/execution/src/validator.rs:49-77 | a header passes exactly when it names its parent's hash and the next number and stays within its gas limit |
| `Pipeline.CheckAndDebit` | core/execution/src/executor.rs:77-135 | sender, nonce, maximum cost, price, then the debit, in the order of the code: the debited account and the price charged, or the first error |
| `Pipeline.Charge` | core/execution/src/executor.rs:121-135 | fee plus value leaves the balance in checked arithmetic and the nonce advances, with the error of the step that fails |
| `Pipeline.ApplyTransfer` | core/execution/src/executor.rs:77-151 | one transaction against the provider: the transferred accounts on success, and what a rollback restores is unchanged either way |
| `Pipeline.ExecuteBlock` | core/execution/src/executor.rs:60-229 | the transaction loop computes the fold of the transfers, its receipts, gas and state root, or the first error |
| `Pipeline.ExecutePipeline` | core/execution/src/pipeline.rs:24-44 | all or nothing: on any error the accounts are as before, on success they are the fold, and no journal it opened stays open; with a journal already open it fails, after the checks, and leaves everything; a panic in contract creation leaves the journal open with the accounts recoverable from it |
| `Cached.CachedProvider.GetBlockByHash` | core/execution/src/cached.rs:50-75 | asks the provider first, answers from the cache under the block's number, and caches with some victim evicted when full |
| `Cached.CachedProvider.GetBlockByNumber` | core/execution/src/cached.rs:77-101 | answers from the cache, or fetches and caches under the number |
| `Cached.CachedProvider.GetHeaderByHash` | core/execution/src/cached.rs:107-133 | answers from the cache, or fetches and caches under the hash |
| `Cached.CachedProvider.GetHeaderByNumber` | core/execution/src/cached.rs:135-163 | asks the provider first and answers from the cache under the header's hash |
| `Cached.CachedProvider.GetAccount` | core/execution/src/cached.rs:169-195 | answers from the cache, or fetches and caches the account |
| `Cached.ReadThroughKeeps` | core/execution/src/cached.rs:77-101 | a read leaves what it found in the cache and every other entry as it was, but for at most one, given up only when something new is fetched into a full cache |
| `Cached.RunBounded` | core/execution/src/cached.rs:47-200 | over every run and every choice of victims each cache holds at most max(1, capacity) entries |
| `Cached.RunFaithful` | core/execution/src/cached.rs:47-200 | when the lookups agree, every answer of every run is the provider's and the caches mirror it |
| `Cached.TransparentIff` | core/execution/src/cached.rs:47-200 | every answer of every run is the provider's if and only if by-hash and by-number lookups agree |
| `Cached.WellIndexedAgrees` | core/execution/src/in_memory.rs:105-136 | the in-memory provider's lookups agree when blocks lie under their own number and the index finds each |
| `Cached.InsertKeepsIndex` | core/execution/src/in_memory.rs:32-44 | inserting or replacing a block keeps the index so, unless two headers' hashes collide |
| `Cached.CollisionDisagrees` | core/execution/src/in_memory.rs:32-44 | two inserted blocks of different numbers with one header hash make the lookups disagree |
| `Cached.MisfiledDisagrees` | core/execution/src/in_memory.rs:16-24 | a block put into the public maps under a number not its own makes the lookups disagree, whatever the hash function |
| `CachedRuns.RunIndexes` | core/execution/src/in_memory.rs:32-44 | the hash index of every reachable store is that of its chain, later blocks overwriting earlier ones |
| `CachedRuns.RunTransparentIff` | core/execution/src/cached.rs:47-200 | in front of any store a run of the processor reaches, the cache is transparent if and only if no two headers of the chain hash alike |
| `ProcessorSpec.Senders` | processor/src/block_processor.rs:353-362 | recovery yields one sender per transaction, or fails |
| `Processor.BlockProcessor.constructor` | processor/src/block_processor.rs:69-112 | the initial state, whatever the shared head: genesis stored, its accounts set in any order, counters at zero, and the head taken from the shared head, which is left alone |
| `Processor.BlockProcessor.BuildBlockWithSenders` | processor/src/block_processor.rs:353-362 | the senders of the block's transactions in order, or the recovery failure |
| `Processor.BlockProcessor.ProcessBlock` | processor/src/block_processor.rs:237-344 | parent lookup, number and timestamp checks, sender recovery, pipeline, then store, head, shared head and counters, with every rejection counted as the code counts it and a panic ending the task |
| `Processor.BlockProcessor.TryDrain` | processor/src/block_processor.rs:208-236 | the loop takes consecutive numbers while they are buffered, whatever became of the last one short of a panic |
| `Processor.BlockProcessor.HandleNewBlock` | processor/src/block_processor.rs:170-206 | counts the block, rejects it if stale, otherwise buffers it under its number and drains |
| `Processor.BlockProcessor.Serve` | processor/src/block_processor.rs:113-159 | the message loop until shutdown or a panic: the state of the messages handled, each account query that is reached answered from the state at its place |
| `Processor.BlockProcessor.Run` | processor/src/block_processor.rs:113-168 | on shutdown or a closed channel: the state of the messages handled, drained once more and with nothing left pending; after a panic, the state it left |
| `Processor.ReceivedIsRan` | processor/src/block_processor.rs:135-147 | account queries do not disturb the run |
| `ProcessorRuns.RunSettles` | processor/src/block_processor.rs:170-236 | between messages the slot after the head is empty and every pending key exceeds the head and is its block's number, so the drain at shutdown does nothing |
| `ProcessorRuns.HandleSettles` | processor/src/block_processor.rs:170-206 | handling a block settles the buffer again and never lowers the head |
| `ProcessorRuns.PendingIsLatest` | processor/src/block_processor.rs:200-206 | what is pending under a number is the block delivered last with that number, and its peer, unless the processor had panicked by then |
| `ProcessorRuns.NothingCommitsBeyondGap` | processor/src/block_processor.rs:208-236 | once the head has fallen behind the number being drained, nothing more of that drain commits |
| `ProcessorRuns.DrainCommitsPrefix` | processor/src/block_processor.rs:208-236 | one drain commits exactly a prefix of the consecutive run it removes |
| `ProcessorRuns.ProcessedEffect` | processor/src/block_processor.rs:237-344 | processing a block advances the head by one and stores it, or changes nothing but counters, or panics and changes nothing |
| `ProcessorRuns.CommitFacts` | processor/src/block_processor.rs:241-292 | a committed block extends the last block of the chain by its real hash, next number and a later timestamp, with no assumption on the hash, and names its recipients |
| `ProcessorRuns.CommitsIff` | processor/src/block_processor.rs:237-344 | in every reachable state a block commits if and only if it names the head's hash and next number, is later, stays within gas and transaction limits, has recoverable senders and executes |
| `ProcessorRuns.HaltsIff` | processor/src/block_processor.rs:237-306 | in every reachable state a block makes the processor panic if and only if it reaches execution there and some transaction without recipient passes every check after all before it went through |
| `Verdicts.ParentFound` | core/execution/src/in_memory.rs:113-121 | in every reachable state the block a hash names is the latest of the chain with that hash, and none if there is none |
| `Verdicts.InvalidIff` | processor/src/block_processor.rs:237-292 | in every reachable state validation refuses a block if and only if it does not name the last block's hash, has not the next number or is not later |
| `Verdicts.InvalidFor` | processor/src/block_processor.rs:241-292 | the error: the parent is not found exactly when no block of the chain has the hash named; otherwise a wrong number or time against the latest block with that hash, or a number that does not follow the head, with the numbers or times that disagree |
| `Verdicts.FailedIff` | processor/src/block_processor.rs:296-306 | the senders of a block are not recovered exactly when validation passes and some signature gives no address; execution refuses it with an error exactly when both pass and the block is over its gas limit, has over a hundred transactions, or breaks at one of them, each with the error it carries |
| `Verdicts.PipelineFailsIff` | core/execution/src/pipeline.rs:24-44 | over any store, exactly which error the pipeline gives: parent unknown, hash, number or overflow against the parent, then the limits and the transactions |
| `Verdicts.VerdictIsJudgement` | processor/src/block_processor.rs:237-306 | in every reachable state each of the five verdicts is given exactly under its condition on the last block of the chain and the accounts |
| `ProcessorRuns.RunKeepsChain` | processor/src/block_processor.rs:237-351 | in every reachable state, whatever blocks were sent, the stored blocks are exactly the linked chain from genesis, both heads name its end, every committed block names its recipients, and the accounts are its replay over the genesis accounts |
| `DeliveryOrder.AnyOrder` | processor/src/block_processor.rs:170-344 | blocks of a valid chain delivered in any order with repeats and gaps: the state is in-order processing of the longest fully delivered prefix, and the buffer holds exactly the rest delivered |
| `DeliveryOrder.OrderDoesNotMatter` | processor/src/block_processor.rs:170-344 | two deliveries of the same blocks end in the same store, heads and buffered numbers |
| `JunkDelivery.FirstCommit` | processor/src/block_processor.rs:200-234 | a block that would commit on the head is the first to commit when delivered, whatever is pending |
| `JunkDelivery.RefusedTakesTheRun` | processor/src/block_processor.rs:208-236 | a refused block at the next number commits nothing, leaves store and heads alone, and removes exactly the consecutive run buffered behind it |
| `JunkDelivery.EarlyBlockIsLost` | processor/src/block_processor.rs:208-236 | the second block, then junk in place of the first, then the first: only the first is committed and the second is gone |
| `JunkDelivery.JunkDoesNotHinder` | processor/src/block_processor.rs:170-236 | a valid chain delivered in order with refused blocks anywhere in between ends as the chain alone, with only junk pending |
| `ProcessorAccounting.RunAccounts` | processor/src/block_processor.rs:179-341 | every received block is committed, rejected in validation or execution, unrecovered, replaced, pending or the one that ended the processor, as counted by the conditions of `Verdicts` on the chain and not by the verdicts given; unless it ended every block sent was received; counters are these modulo 2^64, and transactions and gas are those of the chain |
| `ProcessorAccounting.NumbersInRange` | processor/src/block_processor.rs:177-233 | when a message arrives, the drain it starts counts at most to two past the first number plus the messages before it, so below 2^64 - 1 messages less the first number no unchecked addition overflows |
| `ProcessorAccounting.DrainCountsThrough` | processor/src/block_processor.rs:208-236 | the drain removes exactly the numbers its counter passes, unless it panics among them, and stops at the first that is not buffered |
| `ProcessorAccounting.DifficultyIsGasUsed` | processor/src/block_processor.rs:310-320 | the head's total difficulty is the gas used by the committed blocks; below 2^64 messages it fits in 128 bits |
| `ChainLedger.NoncesConsecutive` | core/execution/src/executor.rs:101-136 | each committed transaction carries the sender's next nonce at its place in the chain |
| `ChainLedger.RunLedger` | processor/src/block_processor.rs:296-317 | in every run each nonce is the genesis nonce plus the address's committed transactions, and the supply shrank by exactly the fees |
| `ChainLedger.RunNeverReplays` | processor/src/block_processor.rs:296-317 | in no run is a sender and nonce pair committed twice |
| `Balances.BlockBalances` | core/execution/src/executor.rs:70-174 | after a block each address holds what it held and was sent, less what it sent and price by the block's gas limit times gas; accounts are those there before and those named, with their code hashes |
| `Balances.RunBalances` | processor/src/block_processor.rs:296-317 | in every run the balance of each address is that of genesis plus all it was sent less all it sent and its fees; it has an account exactly if it had one at genesis or was named, with the code hash it had or that of empty code |
| `Commitments.HeaderBytesInjective` | core/rlp-codec/src/signing.rs:139-143 | a header is determined by the bytes hashed for it |
| `WireReader.WireReads` | core/rlp-codec/src/signing.rs:23-137 | a reader in the field order of the Yellow Paper, EIP-1559 and EIP-4844, without chain id, reads the hashed bytes of every signed transaction back as it |
| `WireReader.WireBytesInjective` | core/rlp-codec/src/signing.rs:23-137 | a signed transaction, its type included, is determined by the bytes hashed for it |
| `Commitments.HeadCommitsToHistory` | processor/src/block_processor.rs:241-292 | the hash of the last header pins down every header of a linked chain, or two of the headers collide |
| `Commitments.SameHeadSameHistory` | processor/src/block_processor.rs:346-351 | two nodes from one genesis with the same head have committed the same headers, whatever each was sent, or two headers collide |
| `Commitments.SameBodiesSameAccounts` | processor/src/block_processor.rs:298-320 | two nodes from one genesis with the same head and the same bodies hold the same accounts, or two headers collide |
| `Builder.BlockBuilder.constructor` | block-builder/src/block_builder.rs:49-69 | the builder starts at block zero with the genesis hash and timestamp |
| `Builder.BlockBuilder.SetCurrentHead` | block-builder/src/block_builder.rs:79-92 | moves to the given head with the timestamp twelve seconds per block, or refuses on overflow and changes nothing |
| `Builder.BlockBuilder.GenerateBlock` | block-builder/src/block_builder.rs:94-192 | the specs become signed transfers with the snapshots' nonces in a block on the current head; the state advances only on success |
| `Builder.FirstBuildErrorWins` | block-builder/src/block_builder.rs:94-192 | the first spec that cannot be built decides the error |
| `Client.BuildFailsIff` | block-builder/src/block_builder.rs:143-191 | the exact condition of every error on a spec: key, probe, snapshot, cost at one gigawei per gas, signature |
| `Client.GeneratesIff` | block-builder/src/block_builder.rs:94-127 | a block is generated if and only if every spec can be built and gas, number and time stay within 64 bits |
| `Client.GeneratedFrom` | block-builder/src/block_builder.rs:94-191 | a generated block stands on the builder's head at twelve seconds per block, and the transaction at each spec's place pays the spec's recipient its value, with the spec's gas limit, the snapshot's nonce, a price of 1000000000 and no data, signed by the key the spec names |
| `Client.FundedBlockExecutes` | core/execution/src/executor.rs:70-221 | a block of funded transfers by distinct senders executes |
| `Client.GeneratedCommits` | block-builder/src/block_builder.rs:94-192 | a block the builder generates on the processor's head, from its accounts and within the limits, is committed |
| `Client.RoundKeepsLockstep` | processor/src/block_processor.rs:237-344 | after a round builder and processor again have the same head, and nothing is pending |
| `Client.LoopNeverStalls` | node/src/bin/test-client.rs:373-440 | over any number of such rounds, from a supply that fits 128 bits at genesis, the chain grows by exactly the generated blocks in order and the heads stay equal |
| `Payments.RoundPays` | block-builder/src/block_builder.rs:168-191 | after a committed round every address has gained the values of the specs naming it and lost value and fee of the specs it signed |
| `Payments.LoopPays` | node/src/bin/test-client.rs:373-440 | so it has over any number of rounds |
| `Client.StartInLockstep` | processor/src/block_processor.rs:69-112 | a fresh builder and a fresh processor over one genesis are in lockstep |
| `Client.RoundExists` | block-builder/src/block_builder.rs:94-192 | the conditions of a round can be met |
| `TypedRlp.U64RoundTrip` | core/rlp-codec/src/traits.rs:91-116 | every 64-bit integer survives its minimal byte form |
| `TypedRlp.U128RoundTrip` | core/rlp-codec/src/traits.rs:118-143 | every 128-bit integer survives its minimal byte form |
| `TypedRlp.ReadItems` | core/rlp-codec/src/traits.rs:284-294 | the reading loop collects every element or returns the first error |
| `TypedRlp.AccessListRoundTrip` | core/rlp-codec/src/traits.rs:257-303 | access lists survive the trip |
| `TypedRlp.TransactionRoundTrip` | core/rlp-codec/src/traits.rs:308-489 | all three transaction kinds survive the trip, with every field in its place |
| `TypedRlp.HeaderRoundTrip` | core/rlp-codec/src/traits.rs:491-531 | headers survive the trip |
| `TypedRlp.SignedRoundTrip` | core/rlp-codec/src/traits.rs:533-565 | signed transactions survive the trip |
| `TypedRlp.BlockRoundTrip` | core/rlp-codec/src/traits.rs:567-613 | blocks survive the trip |
| `TypedRlp.AccountNeverDecodes` | core/rlp-codec/src/traits.rs:615-645 | no item decodes to an account, and an encoded account always fails with its balance's length |
| `Messages.FieldsRoundTrip` | core/networking/src/message.rs:60-174 | all thirteen messages survive the trip through tag and fields; a reason that is not text is refused |
| `Framing.EncodeFrame` | core/networking/src/codec.rs:22-47 | appends the frame, or refuses exactly the messages over the size limit and leaves the buffer alone |
| `Framing.DecodeFrame` | core/networking/src/codec.rs:49-221 | consumes one complete frame, failed or not, and nothing while the frame is incomplete |
| `Framing.LengthRoundTrip` | core/networking/src/codec.rs:40-59 | the four length bytes are read back as the length |
| `Framing.FrameShape` | core/networking/src/codec.rs:22-47 | a frame is four big-endian bytes that count what follows, the tag, and the encoded list of fields, at most ten megabytes |
| `Framing.PanicsExactlyOnEmptyFrame` | core/networking/src/codec.rs:65-67 | the decoder panics if and only if the input starts with four zero bytes |
| `Framing.WholeFrame` | core/networking/src/codec.rs:49-221 | decoding a frame followed by any bytes yields its message and leaves those bytes |
| `Framing.ChunkingIsIrrelevant` | core/networking/src/codec.rs:49-63 | for every byte stream, well-formed or not, and every way of cutting it, the messages, the error and the held-back bytes are those of the whole |
| `Framing.DeliversExactly` | core/networking/src/codec.rs:49-63 | after some frames and part of another exactly those messages are out and exactly that part is held back |
| `Framing.ChunkedDelivery` | core/networking/src/codec.rs:22-221 | whatever chunks the frames of a message list come in, exactly that list is received and the buffer is empty |
| `Framing.PrefixDelivery` | core/networking/src/codec.rs:22-221 | at every byte of the stream a prefix of the list has been received and nothing has failed |
| `Framing.WireInjective` | core/networking/src/codec.rs:22-47 | message lists with the same bytes are the same |
| `Connection.HandleConnection` | core/networking/src/connection.rs:44-148 | the event loop over its turns: handshake, reports, writes, and one disconnection report on every way out but a panic |
| `Connection.TurnSays` | core/networking/src/connection.rs:44-148 | exactly what a turn writes to the peer, what it reports to the manager, and when it opens and closes the connection |
| `Manager.PeerManager.SendAll` | core/networking/src/manager.rs:78-94 | sends to the targets in any order and drops exactly those whose channel is closed |
| `Manager.SentTo` | core/networking/src/manager.rs:78-94 | a write reaches exactly the targets with an open channel and drops exactly the other targets |
| `Manager.PeerManager.HandleEvent` | core/networking/src/manager.rs:59-165 | the peer map, the mail and the forwarded events after one event, for every kind of event and message |
| `Manager.PeerManager.Tick` | core/networking/src/manager.rs:166-179 | pings every peer and drops the stale ones |
| `Manager.PeerManager.ShutDown` | core/networking/src/manager.rs:180-190 | says goodbye to every peer and clears the map |
| `Manager.Routing` | core/networking/src/manager.rs:70-159 | a ping is answered to its sender alone, transactions go to everyone else, a reply to its addressee alone, never to a peer outside the map or with a closed channel |
| `Manager.Membership` | core/networking/src/manager.rs:59-159 | who is in the map after an event, and what it hands to the processor |
| `Network.ManagerCalls` | core/networking/src/manager.rs:166-190 | a tick pings everyone in the map and drops those it cannot reach; a shutdown says goodbye with its reason, empties the map and stops the manager |
| `Network.ActKeeps` | core/networking/src/connection.rs:44-148 | a connection's turn keeps its conversation in order: awaiting, then greeted, then every message reported once |
| `Network.AttendKeeps` | core/networking/src/manager.rs:57-192 | the manager's turn keeps membership and mail behind the greeting |
| `Network.RunKeeps` | core/networking/src/manager.rs:57-192 | the invariant holds after every interleaving of connections, manager, ticks, replies, failures and shutdown |
| `NetworkRuns.ReportOrder` | core/networking/src/connection.rs:44-148 | in every run a connection reports Connected only first, Disconnected only last, and in between what the peer said after a status for our chain, one for one, in order and never a status |
| `NetworkRuns.MembersAreConnected` | core/networking/src/manager.rs:62-69 | a peer in the map has greeted on our chain, was announced and not withdrawn |
| `NetworkRuns.EndToldIff` | core/networking/src/connection.rs:113-148 | while the manager runs, the end of a finished connection has been reported if and only if no decoder panic struck it while it was alive |
| `NetworkRuns.CrashGoesUnnoticed` | core/networking/src/connection.rs:44-148 | the failing run: a greeted peer panics the decoder, every event has been handled, and the peer is still in the map |
| `NetworkRuns.ForwardedWasSaid` | core/networking/src/manager.rs:102-138 | whatever reaches the processor was said, after the greeting, by a peer that completed the handshake |
| `NetworkRuns.ForwardedInOrder` | core/networking/src/manager.rs:102-138 | peer by peer the processor gets, in order and once each, the requests among the first things the peer said after its greeting; all of them once the manager has caught up with an open connection |
| `NetworkRuns.PeersGetTheirMail` | core/networking/src/connection.rs:121-144 | nothing is written to a peer before it greets; after our greeting it is written exactly the mail posted to it, in order |
| `Sockets.RunRefines` | core/networking/src/connection.rs:44-120 | every run over arriving bytes and codec polls is a run of the network machine |
| `Sockets.HeardIsStreamed` | core/networking/src/codec.rs:49-221 | for every interleaving and every cutting of a peer's bytes, what its connection heard is a prefix of what the bytes say, and all of it when the connection is open with no frame waiting |
| `Sockets.FramesAreHeard` | core/networking/src/codec.rs:22-221 | a peer that writes frames, however cut and however many have arrived, is heard to say a prefix of its messages |
| `Sockets.UntoldIff` | core/networking/src/codec.rs:65-67 | bytes can end a connection without the running manager being told if and only if they lead through an accepted conversation to an empty frame |
| `Sockets.EmptyFrameIsCrashBytes` | core/networking/src/codec.rs:65-67 | four zero bytes, at once or after a proper greeting, are such bytes |
| `NodeRuns.InboxDelivers` | node/src/main.rs:188-197 | the processor gets exactly the blocks forwarded, in order, with the peers they came from |
| `NodeRuns.ChainFrom` | processor/src/block_processor.rs:170-236 | every committed block was delivered, and so was every pending one |
| `NodeRuns.CommittedWasSaid` | node/src/main.rs:188-197 | however far the processor has got, every block it committed was sent as a new block by a peer that had completed the handshake on our chain |
| `FullNode.FullRefines` | node/src/main.rs:188-273 | every run of the whole node, adapter and processor included, is a run over arriving bytes and so of the network machine |
| `FullNode.ServedWithin` | node/src/main.rs:188-273 | the adapter takes only what was forwarded, the processor serves only what it was sent, and an account query is answered only once served |
| `FullNode.QueriesAreAnswered` | node/src/main.rs:198-270 | while manager and processor are there, the adapter answers an account query with the account at its place if there is one, and a head query with the head it reads |
| `FullNode.AccountAnswersAreTrue` | node/src/main.rs:198-234 | an account state written to a peer answers a query of that peer with the nonce and balance once exactly the blocks forwarded before the query are processed, whatever those blocks are, by a processor that has not panicked |
| `FullNode.AccountAnswerIsServed` | node/src/main.rs:198-234 | that account is what the processor itself answers at the query's place in its inbox, where it gives no answer exactly when it has panicked before |
| `FullNode.HeadAnswersAreTrue` | node/src/main.rs:252-270 | a chain head written to a peer answers a query of that peer with number, hash and total difficulty at a block of the chain no older than what the processor had served, nor than the blocks forwarded before any account query answered earlier |
| `FullNode.CommittedWasOnTheWire` | node/src/main.rs:188-197 | however far the processor has got, every block it committed stands, as a new block after a greeting on our chain, in the bytes one peer sent, however they were cut |
| `Witnesses.CreationHalts` | core/execution/src/executor.rs:149-151 | one affordable contract creation on a fresh node ends the processor |
| `Witnesses.BodiesAreNotPinned` | processor/src/block_processor.rs:237-344 | for every hash function: two nodes from one genesis commit blocks with one header and different bodies, publish the same head and hold different accounts |

## Left out

- Contract creation itself: only that reaching its unfinished branch panics and ends the processor's task.
- The Deposit transaction of the optimism feature: unfinished branches.
- Keccak and secp256k1: function parameters, see above.
- TCP, tokio scheduling, channel capacities, timers, tracing and the command line: each channel is a first-in first-out sequence, a tick or a failing send may happen at any time.
- recursive_insert: the slot it updates through a mutable reference is modelled on values; the class around it reassigns its root, so update in place and aliasing inside the tree are not captured.
- Message::from_rlp_item: the second decoder of messages, which the codec does not use.
- The receipts and storage maps, the logs bloom, BasicValidator, summarise_transactions, hex and display helpers: they would only add easy members.
- get_storage, get_transaction, get_block_transactions and get_receipt of the cache: plain pass-through.
- The adapter's wait for an account is one step of the whole node, taken when the answer comes; meanwhile it does nothing else.
- The head in a status reply is arbitrary; only heads sent in answer to a query are followed to the chain.
- Error texts: errors carry their kind and numbers, not their wording. The reason sent on a wrong chain id is a function of the two ids.
- UTF-8: which byte strings are text is a parameter of the message reader.
- Peer ids: the counter is not followed past 2^64 - 1 connections.
- Transaction and state roots in headers: the processor does not check them, so nothing links them to the block.
- Recursion depth: a stack overflow on deeply nested RLP lists is not modelled.
- Shutdown of the listener and of connections that outlive the manager: only safety is stated, not that tasks end.
- Rlp.Encode: requires the encoding to be shorter than 2^64 bytes, which memory guarantees.
- Framing.EncodeFrame: requires the payload to be shorter than 2^64 bytes before the size check, for the same reason.
- Cached.InsertKeepsIndex: asks that no stored block of another number has the new header's hash.
