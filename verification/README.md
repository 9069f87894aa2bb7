# A verified model of the OpenCBDC atomizer transaction processor

This project models the parts of OpenCBDC that decide whether money is safe, and proves what they are
for. `dafny verify dfyconfig.toml` checks all of it.

The system keeps no accounts. Its state is the *unspent hash set* (UHS): one digest for each unspent
output. A wallet builds a full transaction; sentinels check and sign its compact form, which lists the
digests it consumes and creates; shards, each holding the digests with certain first bytes, attest that
inputs exist, from a snapshot that may be stale; an atomizer replica gathers attestations and remembers
the oldest height it relied on; the replicated atomizer looks only at a bounded window of recently spent
digests, accepts or rejects, and cuts blocks; shards and an archiver digest the blocks.

## How the model is laid out

Each imperative component has two files. `X.dfy` holds the values and functions that say what it does and
the lemmas about them; `XImpl.dfy` holds a class or methods with the source's fields, loops and write
batches, proved to do exactly that.

- Settlement: `Ledger` (the UHS as a function of the whole history, against which everything else is
  measured), `Atomizer`, `Window`, `Shard`, `FrontEnd`, `Archiver`, `StateMachine`, `Settlement` (the
  whole pipeline as a transition system), `Safety` (its invariant), `Theorems` (what follows for every run),
  `Liveness` (what should settle does) and `RepeatedMint` (a run that shows a hypothesis to be needed).
  Messages live in sets that only grow, so they may be lost, repeated and reordered; shards lag; snapshots
  picked up by a request handler may be arbitrarily old when it answers; replicas may be lost; one log of
  commands drives the atomizer.
- Money: `Identifiers`, `Validation` and `Supply` connect digests to full transactions and their values.
- Wallet and client: `Coins` and `WalletImpl`, `WalletFile` for the wallet on disk, `Client` and `ClientImpl`,
  `Payments` (what a payment costs) and `ClientRuns` (runs that show where the client's funds go astray).
- Formats: `Codec`, `Serialization` and `SerializerImpl` for the binary format, described by schemas so that
  one theorem covers every message; `Messages` and `Layouts` for the stored structures and the orders in
  which they can be written; `BlockCodec` for the archiver's database; `Snapshot` for recovery from disk.
- Hashing: `Sha256` (FIPS 180-4), `Sha256Impl` (streaming), `PortableSha256` (the portable compression
  function) and `Sha256Example` (the origin of the constants, and a digest of the standard).
- Addresses: `Checksum` (the checksum laws in any suitable algebra), `Register` (the 30-bit register is
  one), `Remainder` and `Gf32` (it holds a polynomial remainder over GF(32)), `Evaluation`, `Bch`, `Gf1024` and
  `Roots` (the generator has three consecutive roots in GF(1024), and what that detects), `Bech32`,
  `Bech32Code`, `Bech32Impl`, `Bech32Strings`, `Bech32Example` (a string of BIP-173), and `ConvertBits` for the
  change of base.
- Indexes: `BlockCache` for the watchtower and `LogStore` for the raft log.

## What is assumed

Hash functions cannot be injective, so no statement assumes that they are. Where collisions matter, the
hypothesis is that the hash takes the messages in use apart: the byte strings written for the transactions
of a finite book and for the inputs they mention (`Identifiers.CollisionFree`, `Client.NoCollisions`).
Signatures are an arbitrary predicate. What the safety proof asks of sentinels (`Safety.Honest`) is derived in
`Supply.DiligentIsHonest` from what single keys do: the keys that sign unchecked transactions are fewer than
the threshold. That no mint is accepted twice is a hypothesis
where it is needed, and `Ledger.FreshIffMintsDistinct` and `RepeatedMint.DistinctMintsNeeded` show that it
is needed: the second gives a run of the whole pipeline, with honest sentinels, that breaks without it.

Some promises turned out to hold only under a condition, which is then stated as an equivalence: when the
scan for the oldest height yields the minimum (`FrontEnd.ScanIsMinimum`), when an attestation from the
future is rejected (`Window.FutureAttestationRejected`), when debiting keeps the wallet's queue and set in
step (`Coins.StrikeIff`, `WalletImpl.Wallet.UpdateBalance`), when the client's funds are conserved
(`Client.FundsConserved`, with the failing runs `ClientRuns.ResendLosesTrack` and
`ClientRuns.ReconfirmReturns` and the check before sending `Client.SendConfirmIff`), when a reloaded wallet
spends in the same order (`WalletFile.ReloadedIs`), when a transaction built by the wallet is well-formed
(`WalletImpl.Wallet.SendTo`, `WalletImpl.Wallet.Fan`), and when loading a log recovers its numbers
(`LogStoreImpl.Store.Load`).

Where code and documentation differ the model follows the code. The documentation of the wallet
(src/uhs/transaction/wallet.hpp:165-167) says that confirming a transaction drops its inputs from the
wallet; the code drops them from the set and the balance but not from the spend queue.

## Model

| member | source | states |
|---|---|---|
| `Theorems.NoDoubleSpendInAnyRun` | src/uhs/atomizer/atomizer/atomizer.cpp:134-156 | in every run of shards, replicas, network, atomizer and archiver each accepted transaction spends ids that are unspent at that point of the history; with distinct mints no id is created or consumed twice, and (mints having outputs) ids are created once if and only if the mints are distinct |
| `Theorems.WindowDecidesLikeFullUhs` | src/uhs/atomizer/atomizer/atomizer.cpp:208-243 | for a transaction in flight in any run, the bounded window with stale attestations accepts exactly when the oldest attestation is within the cache depth and all inputs are in the complete unspent set |
| `Theorems.AcceptanceInAnyRun` | src/uhs/atomizer/atomizer/atomizer.cpp:134-156 | accepted inputs are in the UHS replayed from all blocks so far and are not consumed by the block being assembled |
| `Theorems.NoBlockLost` | src/uhs/atomizer/archiver/controller.cpp:186-243 | in every run each height 1..H is in the archiver database or in the block cache, with the right block; each deferred block lies behind a gap whose other side is still cached and deferred or requested |
| `Theorems.ShardsRefineUhs` | src/uhs/atomizer/shard/shard.cpp:57-103 | in every run shards at one height whose ranges partition the id space hold disjoint sets whose union is the UHS replayed to that height |
| `Theorems.BlocksAreStream` | src/uhs/atomizer/watchtower/block_cache.cpp:16-46 | in every run with distinct mints the blocks create each id once and spend it once, in a later transaction, which is what the watchtower's index relies on when it evicts |
| `Liveness.UnspentSettles` | src/uhs/atomizer/atomizer/atomizer_raft.cpp:56-121 | after any run, with shards that partition the ids and have caught up, a checked payment over unspent inputs that nothing under way opposes is accepted, in whatever order shards are asked and answers arrive and however often, and the next block holds it |
| `Liveness.AllAnswers` | src/uhs/atomizer/atomizer/atomizer_raft.cpp:66-121 | a transaction is handed on once the answers cover its inputs, in any order and with repetitions |
| `Liveness.GapCloses` | src/uhs/atomizer/archiver/controller.cpp:186-243 | after any run, answering the requests that the archiver sends stores whatever it had deferred, and all before it |
| `Liveness.RequestServed` | src/uhs/atomizer/atomizer/state_machine.cpp:77-83 | in every run a request for a block that the archiver lacks is answered with that block, and no answer is another block |
| `Liveness.PruningFrees` | src/uhs/atomizer/atomizer/state_machine.cpp:84-93 | after any run, a request to prune leaves exactly the blocks from there on in the cache, and the archiver holds the rest |
| `Theorems.RecordedHeights` | src/uhs/atomizer/atomizer/atomizer_raft.cpp:56-121 | in every run every height that a replica has recorded for an input is between 1 and the length of the chain, so the scan for the oldest never meets a 0 |
| `Theorems.NotifiedHeights` | src/uhs/atomizer/shard/shard.cpp:105-167 | the same for every notification on the network that attests an input |
| `RepeatedMint.DistinctMintsNeeded` | src/uhs/atomizer/atomizer/atomizer.cpp:208-219 | for every cache depth there are honest sentinels and a run of the whole pipeline in which one mint enters twice and an id is consumed twice |
| `RepeatedMint.SpentTwice` | src/uhs/atomizer/atomizer/atomizer.cpp:134-156 | the run: mint, spend, the same mint again, and the same spend with a fresh attestation; every check passes |
| `RepeatedMint.MintEnters` | src/uhs/atomizer/atomizer/atomizer.cpp:208-243 | a mint passes range check and window whatever they hold |
| `Supply.SupplyInAnyRun` | src/uhs/transaction/validation.cpp:36-134 | in every run, after every block the value behind the unspent set is the genesis value plus what was minted, if fewer signing keys than the threshold sign what they have not checked and the hashes in use do not collide |
| `Supply.Conservation` | src/uhs/atomizer/shard/shard.cpp:57-103 | the value behind the UHS of any sound history of checked transactions is genesis plus mints |
| `Supply.DiligentIsHonest` | src/uhs/transaction/validation.cpp:407-423 | what the safety proof asks of sentinels follows if the keys that sign unchecked transactions are fewer than the threshold, and the hashes in use do not collide |
| `Supply.DiligentNeverDoubleSpends` | src/uhs/transaction/validation.cpp:407-423 | in every run, under the same hypothesis about keys, everything accepted was checked by someone, spends unspent ids, and with distinct mints no id is created or consumed twice |
| `Supply.WitnessedInAnyRun` | src/uhs/transaction/validation.cpp:65-70 | in every run no id is consumed unless the witness for that input was checked |
| `Supply.PositiveInAnyRun` | src/uhs/transaction/validation.cpp:36-134 | in every run each output of a payment is worth something, and together they fit in 64 bits |
| `FrontEnd.Quorum` | src/uhs/transaction/validation.cpp:407-423 | what passes was signed, genuinely, by a sentinel outside any given set of keys that is smaller than the threshold |
| `FrontEnd.QuorumSuffices` | src/uhs/transaction/validation.cpp:407-423 | as many sentinels as the threshold suffice |
| `FrontEnd.Refused` | src/uhs/transaction/validation.cpp:407-423 | one attestation too few, one key of no sentinel or one false signature, and the whole is refused |
| `Supply.ApplyTotal` | src/uhs/atomizer/shard/shard.cpp:65-86 | one transaction changes the total by outputs minus inputs |
| `Supply.TxValues` | src/uhs/transaction/transaction.cpp:101-131 | the ids of a compact transaction are worth what the full transaction says its inputs and outputs are |
| `Safety.RunOk` | src/uhs/atomizer/atomizer/atomizer.cpp:134-156 | the invariant of the whole pipeline (history, shard slices, notifications, aggregates, blocks, archive) holds in every run |
| `Safety.StepOk` | src/uhs/atomizer/atomizer/state_machine.cpp:42-101 | every step of every component keeps the invariant |
| `Safety.AcceptedIsUnspent` | src/uhs/atomizer/atomizer/atomizer.cpp:134-156 | an input attested at some height and not spent since the oldest height is unspent now |
| `Safety.AttestOk` | src/uhs/atomizer/shard/shard.cpp:105-167 | a reply computed from a captured snapshot vouches only for ids that existed at the height it names |
| `Safety.CompleteOk` | src/uhs/atomizer/atomizer/atomizer_raft.cpp:94-121 | a completed aggregate carries a height no newer than the one that vouches for each input |
| `Safety.TxNotifyOk` | src/uhs/atomizer/atomizer/atomizer_raft.cpp:56-121 | gathering keeps every recorded height justified |
| `Safety.ReceiveBlocksOk` | src/uhs/atomizer/archiver/controller.cpp:170-252 | archiving keeps the blocks it has not stored in the cache and requested |
| `Safety.CutOk` | src/uhs/atomizer/atomizer/atomizer.cpp:14-42 | cutting a block keeps window, history and chain in step |
| `Ledger.NoDoubleSpend` | src/uhs/atomizer/atomizer/atomizer.cpp:134-156 | in a sound history of genuine transactions with distinct mints nothing is created or consumed twice |
| `Ledger.FreshIffMintsDistinct` | src/uhs/atomizer/atomizer/atomizer.cpp:208-219 | output ids are created once exactly when no mint is repeated |
| `Ledger.UhsIsCreatedMinusSpent` | src/uhs/atomizer/shard/shard.cpp:65-86 | the replayed set is what was created and not spent |
| `Ledger.Survives` | src/uhs/atomizer/shard/shard.cpp:105-167 | an id present at some height and not consumed since is still present |
| `Window.WindowIsHistory` | src/uhs/atomizer/atomizer/atomizer.cpp:221-243 | scanning slots 0..H-h finds exactly the inputs spent by blocks after h and by the pending block |
| `Window.RotateTracks` | src/uhs/atomizer/atomizer/atomizer.cpp:14-42 | rotation keeps slot 0 equal to pending inputs and slot i to the inputs of block H+1-i |
| `Window.AcceptTracks` | src/uhs/atomizer/atomizer/atomizer.cpp:245-250 | acceptance keeps the window equal to the history |
| `Window.DecidesByHistory` | src/uhs/atomizer/atomizer/atomizer.cpp:134-156 | acceptance stated on the history alone |
| `Window.FutureAttestationRejected` | src/uhs/atomizer/atomizer/atomizer.cpp:201-219 | a height above the atomizer's wraps around and is rejected exactly when it is not within the depth of the 64-bit range |
| `Atomizer.NotificationAgreesWithAggregate` | src/uhs/atomizer/atomizer/atomizer.cpp:44-132 | the per-notification path accepts exactly when all slots together cover every input and the window down to the oldest slot is free of them; then it has the effect of the aggregate path on the copy in the oldest slot and leaves no copy in any slot, otherwise window and block are unchanged |
| `Atomizer.InsertOutcome` | src/uhs/atomizer/atomizer/atomizer.cpp:51-131 | the three outcomes of a notification within range, with the whole new state |
| `Atomizer.ConsistentInAnyRun` | src/uhs/atomizer/atomizer/atomizer.cpp:44-132 | in every run of notifications, aggregates and blocks the slots that hold an id hold one transaction, up to sentinel attestations, and indices of its inputs, if the notifications of that id do |
| `Atomizer.FullCount` | src/uhs/atomizer/atomizer/atomizer.cpp:105-111 | counting attested inputs tells whether all are attested |
| `AtomizerImpl.Atomizer.constructor` | src/uhs/atomizer/atomizer/atomizer.cpp:166-172 | an empty atomizer with depth + 1 slots at the given height |
| `AtomizerImpl.Atomizer.CheckStxoCache` | src/uhs/atomizer/atomizer/atomizer.cpp:221-243 | the slot loops compute the set of clashing inputs |
| `AtomizerImpl.Atomizer.InsertComplete` | src/uhs/atomizer/atomizer/atomizer.cpp:134-156 | state and error are those of the aggregate path |
| `AtomizerImpl.Atomizer.Insert` | src/uhs/atomizer/atomizer/atomizer.cpp:44-132 | state and error are those of the notification path |
| `AtomizerImpl.Atomizer.GatherAttestations` | src/uhs/atomizer/atomizer/atomizer.cpp:71-99 | the loop over slots unites the attestations and finds the oldest slot |
| `AtomizerImpl.Atomizer.RotateSlots` | src/uhs/atomizer/atomizer/atomizer.cpp:29-32 | the in-place loop shifts every slot by one |
| `AtomizerImpl.Atomizer.MakeBlock` | src/uhs/atomizer/atomizer/atomizer.cpp:14-42 | the block, the evicted transactions and the rotated state |
| `Atomizer.EvictedAreReported` | src/uhs/atomizer/atomizer/atomizer.cpp:14-42 | what no slot holds any more after a block is among the errors that come with it, and those were being gathered |
| `Shard.DigestKeepsSlice` | src/uhs/atomizer/shard/shard.cpp:57-103 | digesting the next block keeps the shard equal to its slice of the replay |
| `Shard.ShardsPartitionUhs` | src/uhs/atomizer/shard/shard.cpp:173-175 | ranges that partition the first bytes partition the set |
| `Shard.DigestTransaction` | src/uhs/atomizer/shard/shard.cpp:105-167 | a transaction is attested from a snapshot if and only if all of its inputs that belong to the shard are there, and then at exactly those inputs; otherwise the refusal names exactly the missing ones, or that the shard has no height yet |
| `Shard.Missing` | src/uhs/atomizer/shard/shard.cpp:134-160 | exactly the inputs of this shard that the snapshot lacks |
| `ShardImpl.Shard.constructor` | src/uhs/atomizer/shard/shard.cpp:11-55 | opens a database as it is, at its stored height, or at 0 if there is none |
| `ShardImpl.Shard.DigestBlock` | src/uhs/atomizer/shard/shard.cpp:57-103 | the write batch built in loops turns the database into the slice after the block; any other height changes nothing |
| `ShardImpl.Shard.DigestTransaction` | src/uhs/atomizer/shard/shard.cpp:105-167 | the loop computes the reply of the specification from the snapshot |
| `ShardImpl.Shard.UpdateSnapshot` | src/uhs/atomizer/shard/shard.cpp:177-185 | the snapshot is the database at its height |
| `ShardImpl.Shard.CatchUp` | src/uhs/atomizer/shard/controller.cpp:120-132 | the inner loop digests the archived blocks in order |
| `ShardImpl.Shard.AtomizerHandler` | src/uhs/atomizer/shard/controller.cpp:116-133 | catch-up ends in the state that direct delivery of every block would give |
| `FrontEnd.ScanIsMinimum` | src/uhs/atomizer/atomizer/atomizer_raft.cpp:109-115 | with 0 as the mark for none yet, the scan yields the minimum if and only if no height is 0 or a 0 comes last |
| `FrontEnd.ScanOrderDependence` | src/uhs/atomizer/atomizer/atomizer_raft.cpp:109-115 | with a height of 0 the result depends on the iteration order |
| `FrontEnd.ScannedIsOldest` | src/uhs/atomizer/atomizer/atomizer_raft.cpp:109-115 | unless a height is 0, the scan yields the oldest height in every order |
| `FrontEnd.OldestExists` | src/uhs/atomizer/atomizer/atomizer_raft.cpp:109-115 | a non-empty set of heights has an oldest one |
| `FrontEnd.OldestNeverRises` | src/uhs/atomizer/atomizer/atomizer_raft.cpp:67-81 | attesting more, or again, never makes the oldest height relied upon younger |
| `FrontEndImpl.Replica.TxNotify` | src/uhs/atomizer/atomizer/atomizer_raft.cpp:56-121 | first attestation wins per input; completion hands on a height that the scan yields for some order of the recorded ones, which is the oldest unless one of them is 0 |
| `FrontEndImpl.Replica.SendCompleteTxs` | src/uhs/atomizer/atomizer/atomizer_raft.cpp:123-134 | the complete list is swapped out whole |
| `Archiver.OrderInsensitive` | src/uhs/atomizer/archiver/controller.cpp:170-252 | two deliveries of the same heights, in any order and with repetitions, leave the same archiver |
| `Archiver.DeliverAccounts` | src/uhs/atomizer/archiver/controller.cpp:170-252 | after any deliveries the database is blocks 1..best, the rest of what arrived is deferred, and nothing deferred could be stored |
| `Archiver.Drain` | src/uhs/atomizer/archiver/controller.cpp:205-245 | the recursive drain stores everything that has become contiguous |
| `Archiver.DigestBlock` | src/uhs/atomizer/archiver/controller.cpp:170-252 | each recursive call uses up a deferred block, so the recursion ends |
| `Archiver.DigestRequests` | src/uhs/atomizer/archiver/controller.cpp:186-243 | pruning is never asked for above the stored height, and a gap's far side has been asked for |
| `Archiver.StoringPrunes` | src/uhs/atomizer/archiver/controller.cpp:205-245 | storing a block asks for everything below the stored height to be pruned |
| `ArchiverImpl.Archiver.constructor` | src/uhs/atomizer/archiver/controller.cpp:78-92 | opens what an earlier run stored |
| `ArchiverImpl.Archiver.DigestBlock` | src/uhs/atomizer/archiver/controller.cpp:170-252 | memory and messages are those of the specification, and the database holds the bytes of exactly the blocks that the specification stores |
| `ArchiverImpl.Archiver.GetBlock` | src/uhs/atomizer/archiver/controller.cpp:254-277 | an answer comes if and only if something is stored under the height, and it is the block whose digestion wrote those bytes |
| `BlockCodec.MakeBlockBuffer` | src/uhs/atomizer/archiver/controller.cpp:207-212 | writing a block gives bytes that stand for it, in the order in which its hash tables happen to be walked |
| `BlockCodec.BlockFromBuffer` | src/uhs/atomizer/archiver/controller.cpp:271-276 | reading bytes that stand for a block gives that block |
| `BlockCodec.StoresOne` | src/uhs/atomizer/atomizer/format.cpp:14-22 | bytes stand for at most one block |
| `StateMachineImpl.StateMachine.constructor` | src/uhs/atomizer/atomizer/state_machine.cpp:23-40 | a machine with no commands committed |
| `StateMachineImpl.StateMachine.Commit` | src/uhs/atomizer/atomizer/state_machine.cpp:42-101 | state and response of each command |
| `StateMachineImpl.StateMachine.InsertAll` | src/uhs/atomizer/atomizer/state_machine.cpp:51-71 | the loop over aggregates collects the errors in order |
| `StateMachine.BatchOutcome` | src/uhs/atomizer/atomizer/state_machine.cpp:51-71 | a batch is split in two: what passes joins the next block in order, and the response names the others in order, if there are any |
| `StateMachineImpl.StateMachine.PruneBlocks` | src/uhs/atomizer/atomizer/state_machine.cpp:84-93 | the erasing loop keeps exactly the blocks at or above the height |
| `Snapshot.SnapshotPlusSuffix` | src/uhs/atomizer/atomizer/state_machine.cpp:189-264 | a snapshot written after n commands of any log, in any order of its hash tables, becomes the latest, can be read back, and whatever is read back leads with the rest of the log to the state of committing the whole log |
| `Snapshot.SaveRestore` | src/uhs/atomizer/atomizer/state_machine.cpp:211-264 | in the stored format a snapshot file restores the state it was taken from and no other |
| `Snapshot.SnapshotOk` | src/uhs/atomizer/atomizer/format.cpp:24-48 | whatever order the hash tables are walked in, what is written is of the stored type and holds the data of the state |
| `Snapshot.EveryStateSaves` | src/uhs/atomizer/atomizer/format.cpp:24-48 | every state whose fields fit can be saved, in every order of its hash tables |
| `Snapshot.SnapshotExists` | src/uhs/atomizer/atomizer/state_machine.cpp:211-264 | at every point of every log whose fields fit there is such a snapshot |
| `Snapshot.ReachedIsSized` | src/uhs/atomizer/atomizer/state_machine.cpp:42-101 | every state reached from the start by such a log has fields that fit |
| `Snapshot.CreatedIsLatest` | src/uhs/atomizer/atomizer/state_machine.cpp:240-262 | the snapshot just written is the one found at the next start |
| `Snapshot.ApplyCut` | src/uhs/atomizer/atomizer/state_machine.cpp:42-101 | a log can be committed in two parts |
| `Serialization.RoundTrip` | src/util/serialization/format.hpp:118-430 | every value of every type built from the supported ones decodes to itself and uses up exactly its own bytes, whatever the iteration order of its sets and maps |
| `Serialization.Unambiguous` | src/util/serialization/format.hpp:118-430 | encodings are self-delimiting |
| `Serialization.LittleEndianRoundTrip` | src/util/serialization/format.hpp:72-95 | integers survive their byte form |
| `Serialization.HighByteLast` | src/util/serialization/format.hpp:72-95 | the last byte of an integer counts most |
| `Serialization.OptionalBytes` | src/util/serialization/format.hpp:144-153 | absent is written as 0, present as 1 and the value |
| `Serialization.VariantBytes` | src/util/serialization/format.hpp:364-378 | an alternative is written after its number |
| `Serialization.VectorBytes` | src/util/serialization/format.hpp:186-194 | a list is written after its length in eight bytes |
| `Codec.ReadsSet` | src/util/serialization/format.hpp:335-360 | distinct members fill a set in any order |
| `Codec.ReadsMap` | src/util/serialization/format.hpp:253-286 | entries with distinct keys fill a map in any order |
| `Codec.FillHolds` | src/util/serialization/format.hpp:253-286 | a filled map holds exactly the given entries |
| `SerializerImpl.BufferSerializer.constructor` | src/util/serialization/buffer_serializer.cpp:11-11 | a cursor at the start of a buffer |
| `SerializerImpl.BufferSerializer.Write` | src/util/serialization/buffer_serializer.cpp:30-37 | overwrites at the cursor and extends the buffer |
| `SerializerImpl.BufferSerializer.Read` | src/util/serialization/buffer_serializer.cpp:39-47 | reads within the buffer, or marks the serializer invalid and stays put |
| `SerializerImpl.BufferSerializer.GetVector` | src/util/serialization/format.hpp:198-235 | the chunked loop reads what the decoder specifies |
| `SerializerImpl.BufferSerializer.GetUnorderedSet` | src/util/serialization/format.hpp:335-360 | the chunked loop ends and reads what the decoder specifies |
| `SerializerImpl.BufferSerializer.GetUnorderedMap` | src/util/serialization/format.hpp:253-286 | the chunked loop ends and reads what the decoder specifies |
| `SerializerImpl.BufferSerializer.GetOrderedSet` | src/util/serialization/format.hpp:302-319 | the loop reads what the decoder specifies |
| `SerializerImpl.BufferSerializer.GetOptional` | src/util/serialization/format.hpp:119-140 | reads what the decoder specifies |
| `SerializerImpl.BufferSerializer.GetVariant` | src/util/serialization/format.hpp:382-430 | reads what the decoder specifies, and rejects an index out of range |
| `SerializerImpl.BufferSerializer.Get` | src/util/serialization/format.hpp:60-430 | any schema: value, cursor and validity are those of the decoder |
| `SerializerImpl.BufferSerializer.Put` | src/util/serialization/format.hpp:52-380 | any schema: the buffer holds the encoding at the cursor |
| `SerializerImpl.MakeBuffer` | src/util/serialization/util.hpp:32-41 | a buffer, given its size beforehand or not, ends up as the encoding |
| `SerializerImpl.FromBuffer` | src/util/serialization/util.hpp:62-70 | the decoded value, or nothing |
| `Layouts.AtomizerOk` | src/uhs/atomizer/atomizer/atomizer.cpp:174-183 | any walk over the atomizer is of the stored type and holds its data |
| `Layouts.AtomizerBytesInjective` | src/uhs/atomizer/atomizer/atomizer.cpp:174-193 | different atomizer states have different bytes, in whatever order they are written and whatever follows |
| `Layouts.TxOk` | src/uhs/transaction/messages.cpp:53-57 | any walk over a compact transaction is of its type and holds its data |
| `Layouts.TxBytesInjective` | src/uhs/transaction/messages.cpp:53-63 | different compact transactions have different bytes, in whatever order they are written and whatever follows |
| `Layouts.TxBytes` | src/uhs/transaction/messages.cpp:53-57 | the bytes of a compact transaction are its id, inputs, outputs, and attestations in some order, with counts |
| `Layouts.BlocksOk` | src/uhs/atomizer/atomizer/format.cpp:24-34 | any walk over the block cache is of its type and holds its data |
| `Layouts.BlockBytesInjective` | src/uhs/atomizer/atomizer/format.cpp:14-22 | different blocks have different bytes, in whatever order they are written and whatever follows |
| `Layouts.BlockBytes` | src/uhs/atomizer/atomizer/format.cpp:14-17 | the bytes of a block are its height and its transactions |
| `Sha256Impl.CSHA256.constructor` | 3rdparty/crypto/sha256.cpp:633-636 | an empty message |
| `Sha256Impl.CSHA256.Write` | 3rdparty/crypto/sha256.cpp:638-662 | however the bytes arrive, chaining value and buffer are those of everything written so far |
| `Sha256Impl.CSHA256.Finalize` | 3rdparty/crypto/sha256.cpp:664-679 | the digest of the message written, with the padding of section 5.1.1 of FIPS 180-4; beyond the lengths that the standard covers the length field wraps |
| `Sha256Impl.CSHA256.Reset` | 3rdparty/crypto/sha256.cpp:681-686 | back to the empty message |
| `Sha256Impl.HashParts` | 3rdparty/crypto/sha256.cpp:638-679 | any cut of a message into writes gives the digest of the whole |
| `PortableSha256.PortableTransform` | 3rdparty/crypto/sha256.cpp:79-157 | the portable code computes the compression function of section 6.2.2 of FIPS 180-4 |
| `PortableSha256.HashPieces` | 3rdparty/crypto/sha256.cpp:633-679 | the streaming hasher over the portable code computes SHA-256 of everything written, however it is cut into pieces |
| `PortableSha256.TransformBlock` | 3rdparty/crypto/sha256.cpp:79-157 | fixed variables with rotating roles and a ring of sixteen words compute the standard rounds, for any word operations |
| `PortableSha256.RoundInPlace` | 3rdparty/crypto/sha256.cpp:58-64 | changing two variables and renaming all is one standard round |
| `PortableSha256.NextWord` | 3rdparty/crypto/sha256.cpp:104-119 | overwriting one word of sixteen continues the message schedule |
| `PortableSha256.PortableIsStandard` | 3rdparty/crypto/sha256.cpp:50-51 | the shorter choice and majority agree with the standard's on all words |
| `Sha256Example.AbcDigest` | 3rdparty/crypto/sha256.cpp:79-157 | the digest of "abc" is the one in FIPS 180-4 |
| `Sha256Example.InitialRoots` | 3rdparty/crypto/sha256.cpp:64-77 | the initial value is the fractional bits of the square roots of the first eight primes |
| `Sha256Example.ConstantRoots0` | 3rdparty/crypto/sha256.cpp:84-99 | the first sixteen constants are the fractional bits of the cube roots of the first sixteen primes |
| `Sha256Example.ConstantRoots16` | 3rdparty/crypto/sha256.cpp:101-116 | the same for the next sixteen |
| `Sha256Example.ConstantRoots32` | 3rdparty/crypto/sha256.cpp:118-133 | the same for the next sixteen |
| `Sha256Example.ConstantRoots48` | 3rdparty/crypto/sha256.cpp:135-150 | the same for the last sixteen |
| `Identifiers.UhsIdsAgree` | src/uhs/transaction/transaction.cpp:83-131 | output i of a compact transaction is the hash of the input made from output i, and exists for the same i |
| `Identifiers.TxMessageInjective` | src/uhs/transaction/transaction.cpp:68-81 | two transactions have one id message if and only if they have the same inputs and the same outputs: nothing can move between the two vectors |
| `Identifiers.TxIdNames` | src/uhs/transaction/transaction.cpp:68-81 | if the hash takes the messages in use apart, two transactions have one id if and only if they have the same inputs and outputs |
| `Identifiers.UhsIdNames` | src/uhs/transaction/transaction.cpp:101-116 | in the same way an output id names the transaction, the position and the output |
| `Identifiers.MessageBytes` | src/uhs/transaction/transaction.cpp:68-81 | the message of an id is the number of inputs, the inputs, the number of outputs, and the outputs |
| `Identifiers.FieldBytes` | src/uhs/transaction/messages.cpp:13-36 | an output is written as commitment and value, an input as transaction, position and output |
| `Identifiers.InputBytesInjective` | src/uhs/transaction/transaction.cpp:44-54 | different inputs have different messages |
| `Identifiers.IdsAreOrigins` | src/uhs/transaction/transaction.cpp:122-131 | if the hash takes the messages in use apart, ids name transactions and output ids name the transaction they come from |
| `Identifiers.OutputIdsFresh` | src/uhs/transaction/transaction.cpp:101-131 | without collisions, output ids are distinct and none is a genesis id |
| `Identifiers.InputIdsDistinct` | src/uhs/transaction/transaction.cpp:122-131 | without collisions, distinct inputs have distinct ids |
| `IdentifiersImpl.ComputeTxId` | src/uhs/transaction/transaction.cpp:68-81 | two writes to one hasher give the transaction id |
| `IdentifiersImpl.HashInput` | src/uhs/transaction/transaction.cpp:44-54 | the hash of the serialized input |
| `IdentifiersImpl.UhsIdFromOutput` | src/uhs/transaction/transaction.cpp:101-116 | three writes to one hasher give the UHS id |
| `IdentifiersImpl.MakeCompact` | src/uhs/transaction/transaction.cpp:122-131 | the two loops build the compact form, whose outputs can be spent by the inputs made from them |
| `Validation.CheckTx` | src/uhs/transaction/validation.cpp:36-73 | passes exactly the transactions with inputs, outputs, as many witnesses, distinct out-points, positive values, equal true totals below 2^64 and good witnesses; any report is true of the transaction |
| `Validation.CheckInOutSet` | src/uhs/transaction/validation.cpp:111-134 | which of the two value errors is reported, exactly |
| `Validation.CheckedTotal` | src/uhs/transaction/validation.cpp:113-128 | the 64-bit overflow tests let a sum through exactly when no value is zero and the true sum fits, and then it is the true sum |
| `Validation.CheckInputSet` | src/uhs/transaction/validation.cpp:270-286 | finds the first repeated out-point, or that there is none |
| `Validation.CheckStructure` | src/uhs/transaction/validation.cpp:75-98 | the structural checks together |
| `Checksum.PolyModAffine` | 3rdparty/bech32/bech32.cpp:33-90 | PolyMod is affine over XOR |
| `Checksum.Syndrome` | 3rdparty/bech32/bech32.cpp:33-90 | what an error adds to the checksum depends on the error alone |
| `Checksum.ChecksumUnique` | 3rdparty/bech32/bech32.cpp:114-135 | six symbols verify exactly when they are the ones created |
| `Checksum.BurstDetected` | 3rdparty/bech32/bech32.cpp:33-90 | a change within six consecutive symbols changes the checksum, at every length |
| `Register.Bech32Lawful` | 3rdparty/bech32/bech32.cpp:64-89 | the 30-bit register has the algebra that the checksum laws ask for: it is additive, loses nothing, and holds six symbols side by side |
| `Remainder.PolyModIsRemainder` | 3rdparty/bech32/bech32.cpp:64-89 | in any such algebra the register is the remainder of long division |
| `Gf32.RegisterIsRemainder` | 3rdparty/bech32/bech32.cpp:39-63 | the register holds the remainder, on division by the generator over GF(32), of the polynomial with the symbols as coefficients and 1 in front |
| `Gf32.RegisterDivides` | 3rdparty/bech32/bech32.cpp:64-89 | one step of the loop is one step of long division |
| `Evaluation.SparseIsZero` | 3rdparty/bech32/bech32.cpp:42-45 | in any algebra where powers of an element differ within a period, a polynomial with at most three coefficients, less than a period apart, that vanishes at three consecutive powers is zero |
| `Bch.RegisterValue` | 3rdparty/bech32/bech32.cpp:42-45 | at every root of the generator the register has the value of the polynomial it has taken in |
| `Bch.ScatteredDetected` | 3rdparty/bech32/bech32.cpp:42-45 | if the generator has three consecutive powers among its roots, up to three changed symbols within a period change the checksum |
| `Gf1024.FieldFaithful` | 3rdparty/bech32/bech32.cpp:42-45 | the chosen element of GF(1024) has order 1023: no smaller power fixes anything but zero |
| `Gf1024.Turn` | 3rdparty/bech32/bech32.cpp:42-45 | only zero comes back to itself in fewer than 1023 steps |
| `Roots.Bech32Designed` | 3rdparty/bech32/bech32.cpp:42-45 | the Bech32 generator has the roots e^24, e^25 and e^26 in GF(1024) |
| `Roots.ThreeErrorsDetected` | 3rdparty/bech32/bech32.cpp:42-45 | up to three changed symbols within a window of 1023 change the checksum, at every length |
| `Bech32Impl.ComputePolyMod` | 3rdparty/bech32/bech32.cpp:64-89 | the loop with its five conditional XORs folds the register |
| `Bech32Impl.TakeIn` | 3rdparty/bech32/bech32.cpp:77-88 | one symbol: room is made and the words of the set bits are added |
| `Bech32Code.CodeUnique` | 3rdparty/bech32/bech32.cpp:114-135 | for every human-readable part and data exactly the created checksum verifies |
| `Bech32Code.BurstRejected` | 3rdparty/bech32/bech32.cpp:114-121 | an error confined to six consecutive data symbols of an accepted string is rejected |
| `Bech32Code.ThreeErrorsRejected` | 3rdparty/bech32/bech32.cpp:42-45 | an accepted string with up to three symbols changed within a window of 1023 is rejected |
| `Bech32Code.EncodedIsDecoded` | 3rdparty/bech32/bech32.cpp:143-190 | decoding an encoded string gives back both parts, for every legal lower-case part (also with '1' in it) and data within 90 characters |
| `Bech32Code.DecodedIsEncoded` | 3rdparty/bech32/bech32.cpp:143-190 | encoding what was decoded gives the string in lower case |
| `Bech32Example.AllSymbols` | 3rdparty/bech32/bech32.cpp:143-190 | the prefix "abcdef" and the thirty-two symbols in order encode to the string of BIP-173 in which every character occurs, and it decodes to them |
| `Bech32.Accepted` | 3rdparty/bech32/bech32.cpp:159-190 | a string is accepted exactly when it does not mix cases and its lower-case form is an encoding |
| `Bech32.DecodeEncode` | 3rdparty/bech32/bech32.cpp:143-190 | the round trip for any code with unique checksums |
| `Bech32.EncodeDecode` | 3rdparty/bech32/bech32.cpp:143-190 | the other round trip for any code with unique checksums |
| `Bech32.ReverseCharset` | 3rdparty/bech32/bech32.cpp:16-28 | the decoding table undoes the encoding table |
| `Bech32.CharsetReverse` | 3rdparty/bech32/bech32.cpp:16-28 | and the other way round, up to case |
| `Bech32Strings.ExpandHrpInPlace` | 3rdparty/bech32/bech32.cpp:99-111 | one pass fills both halves |
| `Bech32Strings.VerifyChecksum` | 3rdparty/bech32/bech32.cpp:114-121 | verifies exactly what the code accepts |
| `Bech32Strings.CreateChecksum` | 3rdparty/bech32/bech32.cpp:124-135 | the loop over five-bit groups creates the code's checksum |
| `Bech32Strings.EncodeString` | 3rdparty/bech32/bech32.cpp:143-156 | the loop builds the encoding |
| `Bech32Strings.DecodeString` | 3rdparty/bech32/bech32.cpp:159-190 | the loops decode, or give the empty result |
| `Bech32Strings.Scan` | 3rdparty/bech32/bech32.cpp:160-167 | printable or not, and which cases occur |
| `Bech32Strings.ReadValues` | 3rdparty/bech32/bech32.cpp:172-181 | the symbols, or that some character is not in the set |
| `ConvertBits.BytesRoundTrip` | 3rdparty/bech32/util/strencodings.h:176-197 | 5-to-8 without padding recovers every byte string from its padded 8-to-5 form |
| `ConvertBits.AcceptsEncodings` | 3rdparty/bech32/util/strencodings.h:192-196 | 5-to-8 returns true exactly on the padded encodings of what it outputs |
| `ConvertBits.WideningUndoes` | 3rdparty/bech32/util/strencodings.h:176-197 | the same for any two widths |
| `ConvertBitsImpl.Convert` | 3rdparty/bech32/util/strencodings.h:176-197 | the nested loops over accumulator and bit count regroup the bit string |
| `ConvertBitsImpl.Drain` | 3rdparty/bech32/util/strencodings.h:185-188 | the inner loop hands out the whole groups and keeps the rest |
| `ConvertBitsImpl.Finish` | 3rdparty/bech32/util/strencodings.h:191-196 | what happens to the last bits, with and without padding |
| `Coins.StrikeIff` | src/uhs/transaction/wallet.cpp:227-233 | debiting keeps queue, set and balance in step exactly when no debit is in the set |
| `Coins.CreditKeeps` | src/uhs/transaction/wallet.cpp:218-226 | crediting keeps the out-points distinct and the queue as a prefix |
| `Coins.NeededIsLeast` | src/uhs/transaction/wallet.cpp:500-520 | selection stops at the first prefix that reaches the amount |
| `Coins.TakenConsistent` | src/uhs/transaction/wallet.cpp:524-530 | taking from the front keeps queue, set and balance in step |
| `Coins.SpendIsWellFormed` | src/uhs/transaction/wallet.cpp:46-80 | distinct spendable inputs and positive outputs of the same total make a well-formed transaction |
| `Coins.ShareSum` | src/uhs/transaction/wallet.cpp:424-437 | the shares add up to the total; they are positive exactly when there is something for each |
| `Coins.SeedsDistinct` | src/uhs/transaction/wallet.cpp:82-110 | seeds have distinct out-points if their made-up transactions do not collide |
| `Coins.SeedSpends` | src/uhs/transaction/wallet.cpp:82-110 | a seed spends the one output of its made-up transaction, which pays the wallet, and has the id under which that output is stored |
| `Coins.OwnExactly` | src/uhs/transaction/wallet.cpp:276-283 | an output is credited if and only if the wallet has its key |
| `Coins.OwnInOrder` | src/uhs/transaction/wallet.cpp:276-283 | credits come in the order of the outputs |
| `Coins.OwnTotal` | src/uhs/transaction/wallet.cpp:276-283 | what is credited and what goes to others make up all the outputs |
| `Coins.PayGiven` | src/uhs/transaction/wallet.cpp:59-74 | a payment to someone else gives away the amount and no more |
| `Coins.FanGiven` | src/uhs/transaction/wallet.cpp:467-485 | equal payments give away their sum and no more |
| `Coins.ShareGiven` | src/uhs/transaction/wallet.cpp:420-437 | spending a number of inputs gives away all of it, or nothing if the payee is the wallet |
| `Payments.PaymentWorth` | src/uhs/client/client.cpp:85-262 | creating, sending and confirming a payment leaves nothing pending behind and lowers what the client holds by exactly what went to others |
| `Payments.PaymentCosts` | src/uhs/client/client.cpp:85-262 | a payment to someone else costs the amount and no more |
| `WalletImpl.Wallet.constructor` | src/uhs/transaction/wallet.cpp:17-23 | an empty wallet |
| `WalletImpl.Wallet.Seed` | src/uhs/transaction/wallet.cpp:236-268 | a wallet with keys, or an empty range, is left alone; otherwise the seeds become the first to be spent, and the wallet is in order if and only if all out-points differ, for which absence of collisions suffices when it held nothing |
| `WalletImpl.Wallet.UpdateBalance` | src/uhs/transaction/wallet.cpp:215-234 | new credits join the queue, debits leave set and balance, whatever the wallet holds; if it was in order, it still is if and only if no debit is in the set with the credits and no credit is an unspent seed |
| `WalletImpl.Wallet.ConfirmTransaction` | src/uhs/transaction/wallet.cpp:270-286 | the outputs the wallet has keys for are credited, whatever it holds; if it was in order, it still is if and only if none of the inputs is in the set with the credits and no output is an unspent seed |
| `WalletImpl.Wallet.AccumulateInputs` | src/uhs/transaction/wallet.cpp:494-534 | takes out the fewest inputs in order that reach the amount, or leaves the wallet exactly as it was |
| `WalletImpl.Wallet.SendTo` | src/uhs/transaction/wallet.cpp:46-80 | exactly the inputs of the transaction leave the wallet; the first output pays the payee the amount, there is a second one if and only if something is left over, and it pays that to the change, whose key the wallet then has; the checks pass if and only if the amount is positive; without funds nothing changes |
| `WalletImpl.Wallet.Fan` | src/uhs/transaction/wallet.cpp:454-492 | the same for `count` equal payments after the change, which are well-formed if and only if count and value are positive |
| `WalletImpl.Wallet.SendCount` | src/uhs/transaction/wallet.cpp:366-447 | spends a given number of inputs on equal outputs that all go to the payee, the last taking the remainder; when it must not, nothing changes |
| `WalletImpl.Wallet.PopFront` | src/uhs/transaction/wallet.cpp:524-530 | the removal in place takes the front of the queue out of the set and the balance |
| `WalletImpl.MakeShares` | src/uhs/transaction/wallet.cpp:424-437 | the loop that hands out shares |
| `WalletImpl.Transfer` | src/uhs/transaction/wallet.cpp:307-364 | a wallet loaded from the file of another has its keys, set and balance and is in order; its queue is a permutation, and the same if and only if the other queue was sorted by out-point |
| `WalletImpl.Wallet.Save` | src/uhs/transaction/wallet.cpp:307-328 | the bytes of the set in its order, and the keys |
| `WalletImpl.Wallet.Load` | src/uhs/transaction/wallet.cpp:330-364 | replaces keys and set by those on file, for every set whose bytes they are, and makes queue and balance up from the set, in its order |
| `WalletFile.ReloadedIs` | src/uhs/transaction/wallet.cpp:353-361 | a purse made up from the set of another has the same balance and a permutation of its queue, the same queue exactly when that is sorted |
| `WalletFile.SameSet` | src/uhs/transaction/wallet.cpp:357-361 | two queues for one set are permutations of each other and worth the same |
| `WalletFile.SortedOnce` | src/uhs/transaction/wallet.hpp:215-221 | a set has one queue in the order of its comparator |
| `WalletFile.SaveSet` | src/uhs/transaction/wallet.cpp:323-327 | the loop walks the set in order and writes bytes that stand for it |
| `WalletFile.LoadSet` | src/uhs/transaction/wallet.cpp:353-357 | reading such bytes gives the set back, and any bytes give a set filed by out-point |
| `Client.FundsConserved` | src/uhs/client/client.cpp:76-271 | everything credited is in the wallet, tied up or spent, in exactly one of them, at every point of a run of create, send, confirm and abandon, if and only if every confirmation meets the condition `Meets`: no input is in the wallet or stays tied up, and no output credited is an unspent seed, tied up, or spent |
| `Client.NothingLost` | src/uhs/client/client.cpp:76-271 | in every such run, whatever is sent, and confirmed in whatever order and however often, what was credited and not spent is in the wallet or tied up, and nothing is there that was not credited |
| `Client.CarefulIsConserved` | src/uhs/client/client.cpp:139-141 | funds are conserved at every point of a run that sends new transactions only if they were not confirmed before and their inputs are tied up or spent |
| `Client.SendConfirmIff` | src/uhs/client/client.cpp:139-160 | sending a transaction over the client's coins and having it confirmed keeps funds conserved if and only if each input is found among the pending spends or has been spent, and no output credited is an unspent seed, tied up or spent, which holds if it was not confirmed before |
| `ClientRuns.ResendLosesTrack` | src/uhs/client/client.cpp:217-259 | create, send, abandon, send again and confirm: the coin is spent and still in the queue |
| `ClientRuns.ReconfirmReturns` | src/uhs/client/client.cpp:244-259 | create, send and confirm, create with the output that came back, send the first transaction again and confirm it: the output is in the wallet and still tied up |
| `Client.ConfirmIff` | src/uhs/client/client.cpp:244-259 | a confirmation keeps funds conserved if and only if it meets the condition on its inputs and credited outputs |
| `Client.SpentForGood` | src/uhs/client/client.cpp:244-262 | what a confirmed transaction spent never comes back to the wallet or to the pending spends, in runs whose confirmations meet the condition |
| `Client.AbandonReleases` | src/uhs/client/client.cpp:217-242 | abandoning gives back an input exactly when the transaction had it and no other pending transaction does, and from then on it is no longer tied up |
| `Client.ReleasedExactly` | src/uhs/client/client.cpp:227-237 | which inputs the release loop gives back |
| `Client.ConfirmOk` | src/uhs/client/client.cpp:244-262 | confirming any pending transaction, in any state and again, loses nothing and makes nothing up |
| `Client.CreateOk` | src/uhs/client/client.cpp:76-95 | creating moves coins from the wallet to the pending spends and changes nothing else |
| `ClientImpl.Client.constructor` | src/uhs/client/client.cpp:23-31 | a client with nothing pending, whose funds are conserved |
| `ClientImpl.Client.RegisterPendingTx` | src/uhs/client/client.cpp:76-83 | the loop files every input under its hash |
| `ClientImpl.Client.CreateTransaction` | src/uhs/client/client.cpp:85-95 | the first coins leave the wallet and are tied up, and pay the amount to the payee with the rest as change, whose key is kept; nothing happens if and only if all coins do not reach it; in any state, also after the wallet has lost track |
| `ClientImpl.Client.ImportTransaction` | src/uhs/client/client.cpp:198-201 | any transaction becomes pending unless it is |
| `ClientImpl.Client.CheckPending` | src/uhs/client/client.cpp:203-215 | whether some pending transaction has the input |
| `ClientImpl.Client.AbandonTransaction` | src/uhs/client/client.cpp:217-242 | the new state, and success if it was pending |
| `ClientImpl.Client.ConfirmTransaction` | src/uhs/client/client.cpp:244-262 | the new state for a report at any time and however often, and success if it was pending; funds stay conserved under the exact condition |
| `BlockCache.AddedAllAgrees` | src/uhs/atomizer/watchtower/block_cache.cpp:30-43 | indexing a block keeps the index equal to the scan |
| `BlockCache.DroppedAllAgrees` | src/uhs/atomizer/watchtower/block_cache.cpp:17-28 | evicting a block keeps the index equal to the scan of what remains |
| `BlockCache.SpentMeans` | src/uhs/atomizer/watchtower/block_cache.cpp:56-63 | an id is reported as spent if and only if some transaction spends it, with the height and id of one that does |
| `BlockCache.UnspentMeans` | src/uhs/atomizer/watchtower/block_cache.cpp:47-54 | an id is reported as unspent if and only if some transaction creates it and none after that spends it, with the height and id of the creator |
| `BlockCache.EntryFrom` | src/uhs/atomizer/watchtower/block_cache.cpp:16-46 | what the index is measured against are the transactions of the blocks with the heights of their blocks |
| `BlockCache.ScanTail` | src/uhs/atomizer/watchtower/block_cache.cpp:17-28 | what a scan no longer finds without its oldest transaction |
| `BlockCacheImpl.Cache.constructor` | src/uhs/atomizer/watchtower/block_cache.cpp:9-14 | an empty cache |
| `BlockCacheImpl.Cache.PushBlock` | src/uhs/atomizer/watchtower/block_cache.cpp:16-45 | through every eviction the index is that of the last k blocks, all of them if k is 0 |
| `BlockCacheImpl.Cache.CheckUnspent` | src/uhs/atomizer/watchtower/block_cache.cpp:47-54 | the answer is that of a scan of the last k blocks |
| `BlockCacheImpl.Cache.CheckSpent` | src/uhs/atomizer/watchtower/block_cache.cpp:56-63 | the answer is that of a scan of the last k blocks |
| `LogStoreImpl.Store.constructor` | src/util/raft/log_store.cpp:40-64 | an empty log starts at 1 |
| `LogStoreImpl.Store.Append` | src/util/raft/log_store.cpp:124-136 | the keys stay contiguous and the entry is last |
| `LogStoreImpl.Store.WriteAt` | src/util/raft/log_store.cpp:138-161 | everything after the index is cut off |
| `LogStoreImpl.Store.LogEntries` | src/util/raft/log_store.cpp:163-188 | the slice asked for |
| `LogStoreImpl.Store.EntryAt` | src/util/raft/log_store.cpp:190-209 | the entry, or nothing |
| `LogStoreImpl.Store.Compact` | src/util/raft/log_store.cpp:290-312 | exactly the entries after the given one remain |
| `LogStoreImpl.Store.Load` | src/util/raft/log_store.cpp:14-64 | start and next are recovered if and only if the log is not empty or starts at 1 |
| `LogStoreImpl.Store.MakePack` | src/util/raft/log_store.cpp:216-247 | the pack of a slice |
| `LogStoreImpl.Store.ApplyPack` | src/util/raft/log_store.cpp:249-288 | entries replace or extend the log without a gap; a pack cut short changes nothing |
| `LogStoreImpl.Transfer` | src/util/raft/log_store.cpp:216-288 | a pack from one store applied to another copies the entries |
| `LogStore.UnpackPack` | src/util/raft/log_store.cpp:216-262 | unpacking a pack gives its entries |
| `LogStore.AppliedAt` | src/util/raft/log_store.cpp:264-287 | each entry after a pack has been applied |
| `LogStore.WrittenEntry` | src/util/raft/log_store.cpp:138-161 | each entry after writing at an index: those before it, the new one, and none after it |
| `LogStore.CompactedEntry` | src/util/raft/log_store.cpp:290-312 | each entry after compacting: those after the given one, under the numbers they had; the next number does not go back |

## Left out

- Sockets, peers, RPC, threads and locks: each locked section is one atomic step.
- NuRaft, LevelDB, secp256k1 and the file system: an ordered log of commands, ordered maps with atomic
  batches and snapshots, an arbitrary signature predicate, and byte strings stand for them.
- The two-phase-commit architecture, and the sentinel's routing of transactions to shards.
- More than one archiver: pruning is safe in the model because the one archiver has stored what it lets go.
- Throughput samples and notification counts, which are not part of any saved state.
- The wallet's keys beyond their commitments, which stand for the keys on file, and what is in a signature.
- The client's file, and the wallet's when it cannot be opened, which ends the process or changes nothing.
- Roots.ThreeErrorsDetected: that four errors within 89 symbols are detected is not shown.
- WalletImpl.Wallet.Save: the set has fewer than 2^64 members.
- ShardImpl.Shard.constructor: the ids on file are in the shard's range, as what it writes is.
- ClientImpl.Client.CreateTransaction: the values in the wallet together stay below 2^64, as the source assumes.
- Client.SendConfirmIff: an input of the transaction carries the data that its coin was credited with.
- Inputs that a payee imports into the client, which are kept one per transaction id.
- The SHA-256 variants for particular processors, and hashing of 64-byte blocks in parallel.
- Configuration, logging, command lines, benchmarks and the seeder.
- Safety.RunOk: heights of mint notifications are arbitrary, since mints are not attested.
- ShardImpl.Shard.AtomizerHandler: the archive is required to hold the missing blocks, where the source
  waits for them, and the block is required to be newer than the shard, since the loop makes no progress
  on an older one.
- Snapshot.SnapshotPlusSuffix: raft's own description of a snapshot is an opaque byte string, and the log
  has fewer than 2^64 commands.
- AtomizerImpl.Atomizer.Insert: a transaction without inputs has a height within the window, beyond which
  there is no slot for it.
- Validation.CheckTx: which witness fails is reported, but not why.
- WalletImpl.Wallet.SendTo: the values in the wallet together stay below 2^64, as the source assumes; the
  same holds for Fan and SendCount.
- ArchiverImpl.Archiver.DigestBlock: public keys have 32 bytes, signatures 64, and counts and heights are
  64-bit, as the source's types say.
- SerializerImpl.BufferSerializer.GetVariant: an index out of range ends the process in the source and is
  a failed read here; the same holds for Get.
- BlockCacheImpl.Cache.PushBlock: ids are created once and spent once, by a later transaction, which
  Theorems.BlocksAreStream shows of the blocks of every run.
- LogStoreImpl.Store.WriteAt: the index is within the log or just behind it.
- LogStoreImpl.Store.LogEntries: the slice lies within the log, as the source asserts.
- LogStoreImpl.Store.MakePack: the slice lies within the log, as the source asserts.
- LogStoreImpl.Store.Compact: the index is not before the log, where the source's count would wrap.
- LogStoreImpl.Store.ApplyPack: the entries leave no gap.
- Serialization.RoundTrip: members of unordered sets and maps take at least one byte, without which the
  reading loop would not end.
