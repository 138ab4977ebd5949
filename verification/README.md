# Molibra, verified

A Dafny model of the consensus node of Molibra, a small proof-of-work chain, and of the ledgers, proof
structures, credentials and mining pool that rest on it. Each part models the repository's own code: the same
branches, constants and refusals. What the code changes in place is a class or a loop here, proved equal to a
function on values; what the code and its comments promise is proved about those functions, over every input
and every run.

| files | what they model |
|---|---|
| `Common`, `Types` | options, finite sums, transactions, headers, blocks |
| `Anchors` | Ethereum anchors, equivocation, and the floor they put under history (`src/anchor.js`) |
| `TxIndex`, `BlockTree`, `ForkChoice`, `Process`, `Runs` | the tree of verified blocks as values: paths, one landing, one delivery with its orphan recursion, whole histories |
| `Chain` | the `Chain` object changed in place, proved equal to those functions (`src/chain.js`) |
| `Sync` | paged catch-up from a peer (`src/node.js`) |
| `OrphanPool`, `OrphanReach`, `Reload`, `SmallChains` | exactly when a delivery throws because of what waits in the pool; reading the stored blocks back at boot; small concrete chains for the examples |
| `Outbound`, `Inbound` | the two bridge ledgers (`src/moliburn.js`, `src/inbound.js`) |
| `Accounts`, `Transition`, `State` | the state transition for native payloads, and the `State` object that checks everything and then mutates (`src/state.js`, `src/token.js`) |
| `Conservation`, `Tokens`, `Rights` | what one transaction does to MOLI, to token units and to rights that may be used once |
| `Refusals`, `Provenance` | exactly when a transaction is refused; where votes, units, openings, signatures and returns on a chain come from |
| `Merkle` | Merkle trees with odd-node promotion (`src/block.js`, `src/proof.js`, `src/stateproof.js`) |
| `Blocks`, `BlockFacts`, `NativeRules`, `History`, `Mining` | composing, sealing and verifying blocks, and what a verified block tells; native blocks as an instance of the tree; what holds on every chain; a miner's own blocks |
| `Trie`, `MoliReturn` | Merkle-Patricia builder and verifier, and the returns read from a proved receipt (`src/ethreceipts.js`, `src/burnproof.js`, `src/molireturn.js`) |
| `Modular`, `Blind` | modular arithmetic in loops, and blind RSA credentials (`src/blind.js`) |
| `Pplns`, `PoolBooks`, `PoolServer` | share accounting, and the payout books under interleaving and crashes (`src/pool.js`, `src/poolserver.js`) |

## How the pieces meet

The tree proofs are about an abstract deterministic partial transition (`BlockTree.Rules`) and need only that it
is `Lawful`. `NativeRules.NativeIsLawful` shows that real native blocks are, so everything proved of the tree
holds of them; `History` then carries the per-transaction laws along every chain, and
`History.LiveStateIsSound` states them of the live state after any run. Verification awaits in the code, so two
deliveries may overlap, but from the end of verification to the new head nothing yields: the atomic events of
`Runs` are cut exactly there, and `Runs.DeliverIsRun` shows that a delivery is one sequence of them.

`Transition.Apply`, `Blocks.Step`, `Process.Deliver`, `Trie.Build`, `Trie.Verify` and `PoolBooks.Next` are the
specification functions: the methods are proved equal to them, and the lemmas say what they mean.

Hashes, signatures and encodings are parameters. Assumed of them, where a theorem says so: block and
transaction hashes and the pair hash do not collide, and a transaction hash is not a pair hash
(`NativeRules.NoCollisions`); the trie's encoding can be undone and its hash does not collide
(`Trie.Codec.Sound`); an RSA key pair is a pair of exponents that undo each other (`Blind.KeyPair`). The clock
is an argument: `clock(b)` is the reading at which block b is verified.

## What the proofs brought out

- `src/anchor.js:201-231`: the same anchor published again replaces the stored one together with its Ethereum
  block, so a binding anchor stops binding until the new publication is buried, although nobody equivocated and
  no fault is recorded. `Anchors.RepublishingUnbinds` is the example, `Anchors.AddKeepsBindingExactly` the exact
  condition, and finality is proved under it.
- `src/chain.js:612-620`: an orphan nobody has verified waits under a block hash; if it turns out invalid,
  taking its parent throws after the parent was adopted (`OrphanPool.OneBadOrphanThrows`). A delivery that
  refuses no reorganisation throws exactly when something it reaches in the pool, at any level, is not ready
  (`OrphanPool.ThrowsExactly`), and with the constants of the source a delivery whose block forks within reach
  refuses none (`OrphanReach.ThrowsWithinReach`). A block with another's header and different transactions
  counts as ready only behind the block it imitates. A catch-up meeting such an orphan ends there. Convergence
  is proved for a pool that holds, under the peer's blocks, nothing but the peer's own next blocks, which is
  what a pushed head leaves there (`Sync.PushedBlockWaitsInLine`).
- `src/chain.js:738-777`: blocks are stored by height, and a restart replays them in that order. A side branch
  longer than `maxReorgDepth` may then be adopted first, and the old head is refused as forking too deep, for
  good: `Reload.ReloadCanLoseTheHead` is an input with no tie in it and no refusal before the restart.
  `Reload.ReloadRecovers` gives the exact condition on the stored tree and the anchors under which a restart
  refuses nothing, and the chain it ends on in every case.
- `src/chain.js:576-602`: a refused reorganisation returns before the orphan pool is looked at, so the refused
  block's children keep waiting. The model does the same.
- `src/block.js:104-127`: nothing keeps the ground nonce within 64 bits, which verification demands; a node
  accepts the block it sealed only if it is (`Mining.OwnBlockIsAdopted`).
- `src/burnproof.js:81-138`: a node shorter than 32 bytes stands inline in its parent and the verifier follows
  hashes only, so keys behind such a node have no proof; for all others the proof works
  (`Trie.ProofsVerifyExactly`).
- `src/blind.js:177-191`: skipping factors below 2 leaves out exactly one blinded value per serial, the
  serial's own hash (`Blind.ExactlyOneFactor`).
- Votes and expressions draw on one space of keys, so a vote and a quantum expression of the same wallet on the
  same poll exclude each other for good (`History.NobodySpeaksTwice`).
- The mempool cap is not an invariant, since re-queued transactions are not counted against it; what is proved
  is that a reorganisation loses no transaction and that pending and canonical never overlap.

## Model

| member | source | states |
|---|---|---|
| `ForkChoice.BranchShape` | src/chain.js:632-641 | walking back from any known block meets the canonical chain, and the common prefix followed by the collected branch is a path from genesis, every block verified on the one before, ending at that block |
| `ForkChoice.InsertKeepsCore` | src/chain.js:554-555 | storing a verified entry never rewrites a known block or its post-state: a known hash can only come back as the very entry it has |
| `ForkChoice.NewIndexCorrect` | src/chain.js:647-693 | after unwinding to the fork and applying the branch, the transaction index is exactly the inverse of the new canonical transactions |
| `ForkChoice.MempoolFollows` | src/chain.js:653-705 | no transaction is lost by a reorg: everything indexed or pending before is indexed or pending after, and never both |
| `ForkChoice.ReceiptsTell` | src/chain.js:661-690 | every transaction on the chain has its receipt, and it names block, height, position, transaction and outcome |
| `ForkChoice.ReceiptsStand` | src/chain.js:653-690 | and there is no other receipt |
| `ForkChoice.LandMovesUp` | src/chain.js:554-607 | one landing moves the head nowhere or to strictly more work; it undoes at most `maxReorgDepth` blocks and nothing at or below the anchored floor |
| `ForkChoice.LandKeepsInv` | src/chain.js:554-607 | one landing keeps the whole invariant: rooted known blocks, canonical path from genesis, live state of the head, index and receipts inverse to the path, mempool disjoint from them, head heaviest while nothing was refused |
| `TxIndex.IndexBlocksCorrect` | src/chain.js:661-690 | writing the blocks of a path one by one yields the index that maps each of its transactions to its place and nothing else |
| `BlockTree.PathHeights` | src/chain.js:447-452 | along any path from genesis the height of a block is its index and total difficulty strictly grows |
| `BlockTree.PathDistinct` | src/state.js:528-531 | no transaction stands twice on one path, by the nonce rule over whole histories |
| `ChainModule.Chain.constructor` | src/chain.js:39-76 | a fresh chain holds genesis alone and satisfies the invariant |
| `ChainModule.Chain.PathToCanonical` | src/chain.js:632-641 | the loop returns the fork height and exactly the non-canonical blocks above it, in order |
| `ChainModule.Chain.Unindex` | src/chain.js:653-657 | dropping one unwound block removes exactly its transaction hashes from index and receipts |
| `ChainModule.Chain.IndexBlock` | src/chain.js:661-690 | pushing one block indexes its transactions, writes their receipts and takes them out of the mempool |
| `ChainModule.Chain.SetHead` | src/chain.js:647-717 | unwinding, applying and re-queueing in place leave exactly the tree the value-level reorganisation describes: canonical, index, receipts, mempool and state |
| `ChainModule.Chain.Replace` | src/chain.js:647-690 | unwinding above the fork and pushing the branch makes the chain the branch's path, with index, receipts and mempool of that path |
| `ChainModule.Chain.MayLeaveAt` | src/chain.js:571-602 | a chain may leave its own at a height exactly when neither the anchored floor nor the depth bound refuses |
| `ChainModule.Chain.Resolve` | src/chain.js:612-620 | the children of a landed block leave the pool and are delivered one level deeper, unless the recursion is too deep already |
| `ChainModule.Chain.Adopt` | src/chain.js:554-607 | everything between the end of verification and the new head, with both refusals, is one atomic landing |
| `ChainModule.Chain.ProcessBlock` | src/chain.js:537-623 | one delivery: known, parked, pool full, failed, refused or adopted, with recursive orphan resolution, exactly as the tree-level delivery says, and the invariant holds even when a child throws; what the answer means is `Process.AnswerIsTrue`, `Process.AloneByWeight` and `Process.HeldExactly` |
| `ChainModule.Chain.ProcessAll` | src/chain.js:612-620 | waiting children are processed in order and the first that throws ends it, leaving a valid chain |
| `ChainModule.Chain.OrphanTotal` | src/chain.js:625-629 | the loop counts every waiting block of every parent |
| `Process.DeliverEvolves` | src/chain.js:537-623 | whatever the recursion did, no known block or post-state changed, the head only gained work, no transaction was lost, and history at or below the floor stayed |
| `Process.AnswerIsTrue` | src/chain.js:576-622 | an accepted delivery answers adopted if and only if the block stands on the canonical chain when it ends; a refused one is heavier than the head and left chain and pool as they were |
| `Process.DeliveryIsIdempotent` | src/chain.js:538 | what was accepted is known, and delivering it again changes nothing |
| `Process.AloneByWeight` | src/chain.js:560-622 | with nothing waiting for it an accepted block is the head if it outweighs the old one, and otherwise is not adopted and moves nothing |
| `Process.HeldExactly` | src/chain.js:540-551 | an unknown block on an unknown parent waits at the end of that parent's line exactly when there is room, and otherwise changes nothing |
| `Process.FloorStays` | src/anchor.js:301-333 | the anchored floor never falls as long as the history below it stays |
| `Runs.RunIsSafe` | src/chain.js:537-623 | over every interleaving of landings, parking, resolution, admissions and anchor events the invariant holds, no stored post-state ever changes and the head's weight never falls |
| `Runs.PoolStaysBounded` | src/chain.js:545-547 | over every interleaving no more blocks wait than `maxOrphans` |
| `Runs.DeliveryKeepsPool` | src/chain.js:537-623 | nor after any delivery with all its recursion |
| `Runs.CanonicalIsReplay` | src/chain.js:447-717 | from boot, after any history, the canonical chain is parent-linked from genesis with height equal to index, and the live state is what re-executing that path alone produces |
| `Runs.AnchoredHistoryIsFinal` | src/anchor.js:201-333 | once an anchor binds at h, with Ethereum not going back and no event that disturbs it, it binds forever: the chain up to h never changes and the finalized height never falls below h, whatever work a branch carries |
| `Runs.HeadIsHeaviest` | src/chain.js:560 | while no reorg has been refused the head outweighs every known block |
| `Runs.SameKnowledgeSameChain` | src/chain.js:554-622 | nodes that know the same hashes know the same blocks and states and agree on the head's weight, and on chain and state when the maximum is unique, whatever the arrival order |
| `Runs.DeliverIsRun` | src/chain.js:537-623 | a delivery with all its recursion and exceptions is one of the histories the safety results quantify over |
| `Reload.ReloadRecovers` | src/chain.js:738-783 | whatever is anchored, a reload throws exactly when a stored block lies ahead of the clock; otherwise it recovers the same blocks and post-states and ends on a chain read off the stored tree, which is the stored chain exactly when that tip is the stored head; it refuses nothing if and only if every block that outweighs all stored before it can be reached from the first heaviest of those within the depth bound and above the anchors, and then a node that had refused nothing gets back its head's weight, and its chain and state when the maximum is unique |
| `Reload.ReloadCanLoseTheHead` | src/chain.js:738-777 | a concrete tree of five blocks, with no tie and nothing ever refused, whose reload refuses the heaviest block and ends on another chain |
| `Reload.RefusesExactly` | src/chain.js:567-602 | standing on the path to one stored block, a node refuses the path to another exactly when the two share no height within the depth bound and at or above the floor |
| `Reload.LandSettles` | src/chain.js:554-607 | landing a stored block moves the chain to that block's stored path exactly when it is heavier and may be reached, and marks a refusal exactly when it is heavier and may not |
| `Reload.ShortIsNear` | src/chain.js:576-602 | from a block to one no lower, no more is undone than the longer of their branches off the canonical chain is long |
| `Reload.ShortIsFollowable` | src/chain.js:738-777 | with no stored branch longer than `maxReorgDepth` and nothing anchored a reload refuses nothing |
| `Anchors.AddKeepsBindingExactly` | src/anchor.js:177-231 | reading an anchor leaves a binding standing if and only if a condition visible beforehand holds: malformed, not believed, another height, or the same sentence without regression and already buried |
| `Anchors.AddTells` | src/anchor.js:177-231 | an anchor changes nothing if malformed or from a publisher not on the allowlist, faults its height and nothing else if it contradicts the record or claims no more work than a lower height, and is otherwise the record for its height |
| `Anchors.RecordsStand` | src/anchor.js:177-231 | whatever is published later, the block and work on record for a height never change and no fault is taken back |
| `Anchors.EquivocationUnbinds` | src/anchor.js:166-195 | two believed anchors that disagree on a height take it out of the floor for good |
| `Anchors.FloorMeans` | src/anchor.js:274-306 | the floor is the highest height whose anchor is unfaulted, buried, and names the very block the chain holds there, and -1 if there is none or no store |
| `Anchors.RepublishingUnbinds` | src/anchor.js:201-231 | publishing the very same anchor again with a later Ethereum block takes the floor away with no fault recorded |
| `Anchors.Book.FinalizedHeight` | src/anchor.js:274-306 | the result is the highest height at which an anchor binds, -1 when none does |
| `Anchors.FloorAtLeast` | src/anchor.js:301-333 | a binding at h keeps the floor at or above h |
| `Anchors.AnchorStore.Add` | src/anchor.js:177-231 | in place: shape, allowlist, contradiction, regression against lower heights, or stored; faults recorded for exactly the two kinds of equivocation |
| `Anchors.AnchorStore.SetEthereumHead` | src/anchor.js:159-175 | only the Ethereum head moves |
| `Sync.SyncFrom` | src/node.js:570-707 | from any peer the chain stays valid and only gains; from an honest unmoving peer within reach one sync ends, without exception or refusal, with all of the peer's chain known and a head at least as heavy: wherever the window starts if the peer is higher, by walking again from genesis, and also while pushed blocks of that peer wait in the orphan pool; the count it answers is zero exactly when nothing was added and never more than was |
| `Sync.WideWindowReaches` | src/node.js:600-624 | with a window no narrower than `maxReorgDepth` whatever can be reached from genesis is reached from the window's start |
| `Sync.StartsSomewhere` | src/node.js:690-704 | a walk from any height either stands on a known block, with all below it known, or meets no known block at all |
| `Sync.LostBlock` | src/node.js:690-704 | in a walk that stands on nothing every block is parked, or turned away by a full pool, and nothing else changes |
| `Sync.SyncPages` | src/node.js:625-690 | from a start below which all is known the paging loop covers the rest of an honest peer's chain in at most 10000 pages; from one above the fork it only parks blocks, and adds none; with nothing waiting it counts exactly the blocks it adds |
| `Sync.TakePage` | src/node.js:658-680 | every block of a page is skipped or processed in order; the first exception ends it |
| `Sync.TakeBlock` | src/node.js:658-670 | genesis and known blocks are passed over, any other is processed |
| `Sync.HonestPage` | src/rpc.js:1670-1685 | what an honest node answers: its blocks from the cursor, at most 512, the real end and whether more remain |
| `Sync.NextIsNotRefused` | src/chain.js:567-602 | with the fork within the depth bound and above the floor, no block of the peer's chain is ever refused during the sync |
| `Sync.NewBlockLands` | src/node.js:670 | the next peer block lands and the rest of the peer's chain stays within reach |
| `Sync.ForkIsHigh` | src/chain.js:632-641 | a branch leaves the canonical chain no lower than the last block the two chains share |
| `Sync.PushedBlockWaitsInLine` | src/chain.js:541-551 | parking a block of the peer's chain whose parent is not here yet keeps the pool condition under which a sync converges |
| `Sync.NextDelivered` | src/chain.js:537-623 | delivering the peer's next block at any depth takes in it, the copies and the successors that waited, fails never, and leaves the catch-up one block further |
| `Sync.TipExtensionIsAdopted` | src/chain.js:554-607 | a block extending the head is never refused and becomes the head |
| `OrphanPool.PoolIsKeyed` | src/chain.js:548-550 | over any history every block waits under its own parent's hash |
| `OrphanPool.ThrowsExactly` | src/chain.js:537-623 | delivering a block on a known parent without refusing a reorganisation throws if and only if it is not ready: something it reaches in the pool, at any level down to the depth bound, is unknown, repeats no earlier hash of its line and does not verify on its own parent at its clock reading |
| `OrphanReach.ThrowsWithinReach` | src/chain.js:537-623 | when orphans are followed no deeper than a reorganisation may reach (both are 128 in the source), the block forks within that bound and no anchor above the fork is attested, delivering it throws if and only if it, or something it reaches in the pool, is not ready: all of it visible before the delivery |
| `OrphanReach.InReachIsUnrefused` | src/chain.js:567-620 | under the same condition no block of the delivery, at any level, is refused |
| `OrphanPool.ReadyNeverFails` | src/chain.js:537-623 | if all that is ready, delivering the block never throws and leaves it known, whatever is refused on the way |
| `OrphanPool.DoneWasReady` | src/chain.js:612-620 | a delivery that refused nothing and did not throw found everything it reached ready |
| `OrphanPool.DeliverDigests` | src/chain.js:537-623 | whatever a delivery adds is the delivered block or stands on a block it adds, and whatever it takes from the pool waited under a block it then knows |
| `OrphanPool.NativePoolIsStamped` | src/chain.js:724-728 | with hashes taken from headers, a waiting block names the same parent as any verified block of its hash |
| `OrphanPool.PathNeverThrows` | src/node.js:658-680 | taking a path block by block never throws and ends with all of it known, if all that waits below its blocks was ready at the start |
| `OrphanPool.TipExtensionStays` | src/chain.js:554-620 | a block extending the head is on the canonical chain when its delivery ends, thrown or not, whatever waited below it |
| `OrphanPool.AllEndKnown` | src/chain.js:616-620 | children delivered without an exception all end up known |
| `OrphanPool.BadChildFails` | src/chain.js:612-620 | whatever else is refused, a child with a hash of its own that does not verify on the block it waits for makes delivering that block throw, unless the block was itself refused |
| `OrphanPool.OneBadOrphanThrows` | src/chain.js:537-623 | a concrete pair of blocks: the bad child waits, its good parent is taken in and the delivery throws |
| `Mining.OwnBlockIsAdopted` | src/chain.js:371-443 | a miner's own block on the head is accepted and becomes the head with the state it was composed to, if and only if its nonce fits 64 bits, its time is within drift and it is not overfull; blocks that had waited for it leave it on the chain, and throw only if they are not ready |
| `Blocks.OwnBlocksVerify` | src/chain.js:371-527 | whatever the candidates and their order, a sealed composition re-executes on the same parent to the same state and receipts, if and only if the nonce fits 64 bits and the block is not overfull |
| `Blocks.SelectionReplays` | src/chain.js:395-408 | the transactions selection kept replay from the parent's state to the same state, receipts and gas: the refused left no trace |
| `Blocks.GasBoundsTheCount` | src/chain.js:395-401 | under a gas limit below 2001 transfers no composition holds more than 2000 transactions |
| `Blocks.DifficultyMovesSlowly` | src/block.js:134-141 | one block moves the difficulty by a sixteenth at most and never below the floor |
| `Blocks.DifficultySteers` | src/block.js:134-141 | a block faster than the target raises the difficulty strictly, any other lowers it strictly or leaves it at the floor |
| `Blocks.DifficultyFallsWithTime` | src/block.js:134-141 | a later timestamp never gives a higher difficulty |
| `Blocks.DifficultyMovesByASixteenth` | src/block.js:134-141 | off the floor the move is a sixteenth rounded down, and at least one |
| `Blocks.RewardDeclines` | src/monetary.js:155-161 | from the issuance flag day the reward never grows, never exceeds 2 MOLI and never falls under its floor |
| `Blocks.RewardHalves` | src/monetary.js:155-161 | from the flag day the reward is 2 MOLI and halves every 5,640,000 blocks, down to a twentieth |
| `Blocks.GenesisRewardHalves` | src/block.js:161-182 | before it the reward follows the genesis schedule: halved after every interval, down to its floor, or constant without one |
| `Blocks.MineHeader` | src/block.js:104-127 | a slice returns the first nonce that seals or tells that none in it does |
| `Blocks.ComposeBlock` | src/chain.js:371-428 | the loop composes on a copy exactly the specified draft and state and leaves the parent's state untouched |
| `Blocks.CheckHeader` | src/chain.js:450-490 | accepts exactly the headers that meet every bound, the difficulty, the seal and the transaction root |
| `Blocks.Replay` | src/chain.js:493-507 | re-execution on a copy stops at the first transaction that does not run, and otherwise yields the folded state, receipts and gas |
| `Blocks.VerifyAgainstParent` | src/chain.js:447-527 | accepts exactly what the step function accepts within the clock's drift, with its post-state, never touching the parent's state |
| `BlockFacts.ChainTells` | src/chain.js:447-527 | every block of a chain tells this of itself on the one before: height, a later time, bounded extra data, nonce and count, gas used as the sum of its transactions' within the limit, the difficulty of the schedule, seal, transaction and state roots, a successful receipt for each transaction; and time only goes forward |
| `BlockFacts.NothingElseIsAsked` | src/chain.js:447-527 | a block verifies if and only if it tells this and its transactions replay |
| `BlockFacts.MinersAreRewarded` | src/chain.js:508 | the reward goes to the block's miner and to nobody else |
| `BlockFacts.ReplayRuns` | src/chain.js:493-507 | every transaction of a verified block applied to the state the ones before it left |
| `BlockFacts.SelectionIsGreedy` | src/chain.js:395-408 | a candidate is taken exactly when its gas still fits and it applies to what the ones taken before it left |
| `BlockFacts.DraftIsOurs` | src/chain.js:371-428 | a draft names its miner, stands at the clock if that is past the parent and one second after it otherwise, and declares the gas of what it includes |
| `NativeRules.NativeIsLawful` | src/chain.js:447-527 | native blocks give the tree all it asks for: heights, real work, one receipt per transaction, one block per hash, and a spent transaction that never runs again |
| `NativeRules.TxRootCommits` | src/block.js:13-24 | the header's transaction root fixes the transactions, their number included |
| `NativeRules.HashFixesBlock` | src/block.js:55-58 | two verified blocks with one hash are the same block |
| `NativeRules.ReplaySpends` | src/state.js:528-531 | every transaction of a block was unspent before it and is spent after it |
| `StateModule.State.ApplyTransaction` | src/state.js:512-1156 | in place, all or nothing: the transition's state when every check passes and the old state otherwise; when that is, and what it means, is `Refusals.RefusedForAReason` and `Provenance` |
| `Refusals.RefusedForAReason` | src/state.js:512-929 | a transaction is refused if and only if one of 37 reasons, one for each throw on the native path and stated of state and transaction alone, fires |
| `Provenance.CredentialsAreSigned` | src/state.js:670-691 | on any history every serial spent there was spent by a credential whose signature is valid under the very key its place was opened with, in genesis or earlier in that history |
| `Provenance.CredentialsOnTheChain` | src/state.js:670-691 | so on the canonical chain of any tree |
| `Provenance.PlacesWereOpened` | src/state.js:661-667 | a place once open keeps its key for good, and every place was opened with it, in genesis or by an opening on record |
| `Provenance.ReturnsWereProved` | src/state.js:844-871 | on any history every receipt paid there was proved against a root that the authority or the bot had committed, in genesis or earlier in that history |
| `Provenance.ReturnsOnTheChain` | src/state.js:844-871 | so on the canonical chain of any tree |
| `Provenance.ReturnsAreProved` | src/state.js:844-871 | one paid receipt: the return that names it, a trusted root, a valid proof, and the bridge's total moved by exactly what was proved |
| `Provenance.VoicesAreOwn` | src/state.js:543-551 | a voice is used only by the wallet it belongs to, on the poll or token it speaks on, and stays used |
| `Provenance.SingleSpeaksOnce` | src/state.js:643-647 | after an expression with a token of one expression per wallet, no other of that wallet with that token applies while its voice stands |
| `Provenance.OnlyOwnUnitsGo` | src/state.js:598-655 | units leave a wallet only by its own transaction: handed on where the token allows it, or spent by an expression at the price on record |
| `Provenance.OnlyCreatorsIssue` | src/state.js:574-593 | more of a token is only ever made by its creator, if it is issuable, and within its maximum |
| `Provenance.NewTokensAreLawful` | src/token.js:280-455 | a new token is its creator's, holds what was declared, and keeps the rules of its kind |
| `Provenance.WhatAppliedIsRecorded` | src/state.js:1039-1070 | what applied is on record: voices, openings, serials, tokens, issues, expressions and roots |
| `Provenance.NothingElseIsTouched` | src/state.js:1039-1156 | each part of the state is touched by its own payloads alone |
| `Provenance.BridgeLinesMove` | src/state.js:1078-1098 | a burn is down for the recipient it names and a return for the senders proved, and no other line moves |
| `Provenance.PublishingCosts` | src/state.js:923-929 | from height 80,000 creating a token destroys 0.001 MOLI and issuing 0.000001, and nothing else destroys any |
| `Provenance.SendersAreOrdinary` | src/state.js:512-541 | no bridge authority ever sends, and what a sender pays for is within the gas it allowed and the balance it has |
| `StateModule.State.Check` | src/state.js:512-930 | all checks together succeed exactly when the transition applies, and change nothing |
| `StateModule.State.CheckHeader` | src/state.js:753-772 | a header commit is rehearsed on a copy: refused exactly when the commit would be, with the ledger untouched |
| `StateModule.State.CheckReturn` | src/state.js:844-871 | a return passes exactly when it rests on a committed root, its proof, what is outstanding and, on the bot's word alone, the rolling cap |
| `StateModule.State.CheckExpress` | src/state.js:617-656 | an expression passes exactly when self-addressed, affordable in units and not yet made under its scope or cap |
| `StateModule.State.Perform` | src/state.js:1033-1129 | once the checks have passed no step of the effects can fail, and together they are the transition |
| `StateModule.State.PerformBridge` | src/state.js:1067-1109 | header, return, burn and publishing charge leave the two bridge ledgers and the balances as the plan says |
| `StateModule.State.PerformToken` | src/state.js:1048-1129 | creation, issue, transfer and expression leave records, holdings, voices and counts as the plan says |
| `StateModule.State.Clone` | src/state.js:260-292 | the copy equals the original and shares no object with it |
| `StateModule.State.MintToken` | src/state.js:161-174 | units come to exist only within a declared maximum; refused otherwise with nothing changed |
| `StateModule.State.MoveToken` | src/state.js:181-187 | units move only if held |
| `StateModule.State.BurnToken` | src/state.js:190-197 | units are destroyed only if held, and counted as one expression |
| `StateModule.State.Debit` | src/state.js:315-321 | refused exactly when the balance does not cover it |
| `StateModule.State.CreditEach` | src/state.js:1079-1087 | paying proved senders one after the other pays each exactly its amount |
| `Accounts.SettlePays` | src/state.js:1032-1038 | sender pays fee and value, recipient gets the value, miner the fee, whichever of the three coincide; value to nobody comes back |
| `Conservation.EveryBalanceIsAccountedFor` | src/state.js:1032-1109 | every address's balance after any native transaction: sender, recipient, miner, proved senders, and nobody else |
| `Conservation.ApplyConserves` | src/state.js:1032-1109 | balances plus MOLI across the bridge change only by the publishing charge destroyed |
| `Conservation.ApplyBumpsOneNonce` | src/state.js:528-531 | a transaction runs exactly at its sender's nonce and moves that nonce alone |
| `Conservation.ApplyKeepsOutbound` | src/moliburn.js:224-265 | in every state a transaction leaves, returned is at most burned and both are the sums of their per-recipient books |
| `Tokens.ApplyKeepsTokens` | src/state.js:136-197 | for every token holdings sum to minted less burned, minted stays within a declared maximum, and burned is expressions times their cost (at least that when weighted) |
| `Tokens.EveryHoldingIsAccountedFor` | src/state.js:1048-1129 | every holding after any native transaction changes by exactly the units created, issued, moved or burned |
| `Tokens.OnlyTransferableMoves` | src/state.js:578-611 | units of a token that is not transferable reach a holder only by issue from the creator and leave only by an expression that counts them |
| `Tokens.RecordIsImmutable` | src/token.js:280-455 | a token's rules and creator never change, it never disappears, and minted never falls |
| `Rights.ApplyExercises` | src/state.js:543-691 | a transaction uses only rights still free, and exactly those become spent |
| `Rights.OneVoicePerPoll` | src/token.js:489-491 | once a wallet's vote or quantum expression on a poll was applied, no vote and no quantum expression of that wallet on that poll, whatever the token, applies in any state that still holds its voice |
| `Rights.ApplyCounts` | src/state.js:648-651 | a wallet's counter for a token goes up by one for each expression that is not keyed, and for nothing else |
| `Rights.ApplyKeepsCaps` | src/state.js:648-651 | no wallet passes the cap of a capped token |
| `Rights.EthereumRootsHaveOneSource` | src/state.js:744-772 | from the second bridge version a committed Ethereum root changes only by the named authority, or, new ones only and from the bot's flag day, by the bot |
| `History.MoliIsConserved` | src/state.js:1032-1109 | on every chain balances, plus MOLI across the bridge, plus publishing charges destroyed, equal the genesis allocation plus the block rewards up to that height |
| `History.BooksStaySound` | src/state.js:136-206 | after any path every token's burn is its tally, no cap is passed and no more came back than went out |
| `History.RightsAreUsedOnce` | src/chain.js:647-705 | a voice, credential or receipt was used on the canonical chain exactly once if the live state has it spent and never otherwise: unwinding a branch gives back exactly the rights used on it |
| `History.NobodySpeaksTwice` | src/state.js:543-551 | on any history, after a wallet has spoken on a poll, no later state accepts another vote or quantum expression of it there |
| `History.CountersCount` | src/state.js:648-651 | after any history a wallet's counter is what it was plus the number of its counted expressions in that history |
| `History.CappedOnTheChain` | src/chain.js:647-705 | on any tree a wallet's counter is the genesis count plus its expressions standing on the canonical chain, so unwinding a branch gives exactly those back, and at most `cap` stand there for a capped token |
| `History.ReturnsAreCapped` | src/moliburn.js:193-265 | on every chain and for every height H bot-only returns paid in (H - window, H] stay within the cap, no receipt is paid twice, and returns never exceed burns |
| `History.PathIsHappening` | src/chain.js:493-507 | the state after a path is what its transactions and rewards do to genesis, in order, and nothing else |
| `History.LiveStateIsSound` | src/chain.js:537-717 | after any history of deliveries, refusals and reorganisations the live state is the replay of the canonical chain, conserves MOLI, has sound books, every right spent as often as it was used and every counter at its number of expressions, and, from a genesis with an empty outbound ledger, keeps the rolling cap of bot-only returns |
| `Outbound.RollingCap` | src/moliburn.js:193-222 | over any run the bot-only returns in every window stay within the cap although the ledger forgets old entries |
| `Outbound.PruningAgrees` | src/moliburn.js:218-222 | dropping old entries and recording a new one goes unnoticed by every later window |
| `Outbound.KeptAreAbove` | src/moliburn.js:218-222 | pruning keeps exactly the entries above the window's floor |
| `Outbound.AboveIsSum` | src/moliburn.js:193-216 | what the window counts is the sum of the entries above its floor |
| `Outbound.ReturnsNeverExceedBurns` | src/moliburn.js:224-265 | over any run returned stays within burned, the totals are sums per recipient, and the keys paid are distinct and exactly the recorded ones |
| `Outbound.OutboundLedger.BotWindowUsed` | src/moliburn.js:194-205 | the loop sums exactly the entries above the window's floor |
| `Outbound.OutboundLedger.RecordBotReturn` | src/moliburn.js:218-222 | entries the window has left are dropped, the new one appended |
| `Outbound.OutboundLedger.RecordReturn` | src/moliburn.js:241-265 | refused whole, before anything moves, when already paid, empty or beyond what is outstanding; recorded per sender otherwise |
| `Outbound.OutboundLedger.Burn` | src/moliburn.js:224-231 | counted in total and for its recipient |
| `Outbound.OutboundLedger.Clone` | src/moliburn.js:267-274 | an equal, fresh ledger |
| `Inbound.CapsAlwaysBounded` | src/inbound.js:94-120 | from an empty ledger every bound on caps, claims and releases holds after any run, whatever was tried and refused |
| `Inbound.CapGrowsSlowly` | src/inbound.js:94-120 | over any run with a clock that does not go back an asset's cap is at most its first cap doubled once per full week, 0 <= minted = burnedIn - returned <= cap, and burnedIn is the sum of claims with distinct keys |
| `Inbound.RaiseWaits` | src/inbound.js:311-348 | a raise gives exactly the cap proposed, within the growth factor, when its delay is over and not before |
| `Inbound.NothingLeftToApply` | src/inbound.js:281-348 | an applied raise is gone, and a lowering, possible down to what is minted, takes a raise under way with it |
| `Inbound.OperationsAreGuarded` | src/inbound.js:94-407 | exactly when an asset may be registered, a burn claimed and units released; a burn claimed once is never claimed again |
| `Inbound.AssetsKeepTheirOrigin` | src/inbound.js:281-407 | no operation on one asset touches another, nor its own origin, authority or registrar |
| `Inbound.CommitsWithoutTiers` | src/inbound.js:134-231 | without tiers a root is taken once, from an authority or a registrar of that chain, and may only be repeated |
| `Inbound.CommitsWithTiers` | src/inbound.js:134-231 | with tiers only operator and bot are heard; the bot moves no root, the operator only the bot's |
| `Inbound.StepKeepsSound` | src/inbound.js:281-418 | one operation, refused or not, keeps those bounds |
| `Inbound.CommitmentsStand` | src/inbound.js:134-231 | a committed root changes only when the operator replaces the bot's, whose root stays on record |
| `Inbound.InboundLedger.CommitHeader` | src/inbound.js:134-231 | in place, tiered or not: accepted and recorded exactly as the value-level commit, refused with nothing moved |
| `Inbound.InboundLedger.Register` | src/inbound.js:94-120 | refused for a cap that is not positive, a repeated asset or a token that may not cross; recorded otherwise |
| `Inbound.InboundLedger.LowerCap` | src/inbound.js:281-297 | only downwards, never under what is minted, and a pending raise is dropped |
| `Inbound.InboundLedger.ProposeCap` | src/inbound.js:311-328 | only upwards, at most doubled, effective a week later |
| `Inbound.InboundLedger.ApplyCap` | src/inbound.js:331-348 | only a pending raise whose time has come |
| `Inbound.InboundLedger.Claim` | src/inbound.js:355-391 | once per origin transaction and within the cap |
| `Inbound.InboundLedger.Release` | src/inbound.js:393-407 | never more than is minted |
| `Inbound.InboundLedger.Clone` | src/inbound.js:467-475 | an equal, fresh ledger |
| `Merkle.ProofsVerify` | src/proof.js:103-142 | complete for every leaf count and index: each position's proof climbs to the root |
| `Merkle.OnlyIssuedProofsVerify` | src/proof.js:133-142 | a leaf and path climb to the root if and only if they are a leaf of the list with the very path of one of its positions |
| `Merkle.RootCommits` | src/block.js:13-24 | lists with the same root are the same list, of whatever lengths |
| `Merkle.RootSplits` | src/block.js:13-24 | the root of a list is the pair of the roots of its parts, left before right, wherever the left part is a full tree no shorter than the right |
| `Merkle.MerkleRoot` | src/block.js:13-24 | the level-by-level loop computes the root with odd nodes promoted, zero for no leaves |
| `Merkle.MerkleProof` | src/proof.js:103-130 | the steps recorded while hashing are the path of the position; refused out of range |
| `Merkle.ProofFor` | src/stateproof.js:94-119 | the siblings and sides found by index are those of the same path |
| `Merkle.RootFromPath` | src/proof.js:133-142 | recomputes the root a leaf and path lead to |
| `Merkle.RootFromProof` | src/stateproof.js:125-135 | recomputes the root, refused when siblings and sides do not pair up |
| `Trie.HexPrefixRoundTrip` | src/burnproof.js:58-64 | decoding undoes encoding, for both node kinds and either parity |
| `Trie.HexPrefixNibbles` | src/ethreceipts.js:52-59 | the code nibble by nibble: flag of kind and parity, a zero where the length is even, then the path |
| `Trie.WireForms` | src/ethreceipts.js:62-130 | two items for a leaf and an extension, told apart by the code, seventeen for a branch; a child shorter than 32 bytes stands inline and any other is referred to by hash |
| `Trie.BuildIsMap` | src/ethreceipts.js:71-93 | the built trie answers every path as the pairs do: stored paths with their value, all others with nothing |
| `Trie.ProofsVerifyExactly` | src/ethreceipts.js:100-122 | the proof collected for a path verifies to what is stored there, unless a node on the way stands inline; then it is refused |
| `Trie.OnlyStoredVerifies` | src/burnproof.js:81-138 | whatever nodes are offered, an accepted value is the one stored at that path |
| `Trie.TrieAgrees` | src/ethreceipts.js:62-124 | builder and verifier agree on every key: a stored key's proof yields its value exactly when no node on its way stands inline, and nothing else ever verifies |
| `Trie.NibblesDiffer` | src/burnproof.js:46-50 | different keys have different paths |
| `Trie.NibblesAreDigits` | src/burnproof.js:46-56 | a byte is its two nibbles read as digits, the high one first |
| `Trie.NibblesOf` | src/burnproof.js:46-50 | two nibbles per byte, high first |
| `Trie.EncodeHexPrefix` | src/ethreceipts.js:52-59 | the packing loop computes the hex-prefix code |
| `Trie.VerifyProof` | src/burnproof.js:81-138 | the loop walks the nodes as specified, each hashed before it is read |
| `Trie.Builder.BuildTrie` | src/ethreceipts.js:62-98 | the store holds the root and every node long enough to be hashed, under its hash |
| `Trie.Builder.BuildNode` | src/ethreceipts.js:71-93 | the recursion returns the encoded node of the trie over its entries |
| `Trie.Builder.CommonLength` | src/ethreceipts.js:73-79 | the nested loop finds how far all paths agree |
| `Trie.Builder.Buckets` | src/ethreceipts.js:84-91 | entries are split by their first nibble, and a path that ends leaves its value |
| `Trie.Builder.ProofFor` | src/ethreceipts.js:100-122 | the loop over the store collects the nodes of the path, to a leaf, a gap or an inline node |
| `MoliReturn.FindReturns` | src/molireturn.js:218-239 | the per-sender map holds exactly what each sender sent, and the total is its positive sum |
| `MoliReturn.EachSenderIsPaidWhatItSent` | src/molireturn.js:222-238 | a sender is down for the sum of its transfers to the vault, and nobody else is down for anything |
| `MoliReturn.ForeignLogsPayNothing` | src/molireturn.js:218-239 | a log of another contract, event or recipient, or of nothing, pays nobody |
| `MoliReturn.TransfersPayTheirSender` | src/molireturn.js:218-239 | a transfer into the vault pays its amount to the address in its second topic and to nobody else |
| `MoliReturn.NothingSentIsNoReturn` | src/molireturn.js:218-239 | a receipt is no return exactly when it failed or sent the vault nothing |
| `MoliReturn.OnlyRealReturns` | src/molireturn.js:241-246 | against a committed root a proof yields only what the receipt at that very position of the block says |
| `MoliReturn.ReadingSums` | src/molireturn.js:236-246 | the proof checker read this way meets the condition the transition puts on its environment |
| `Modular.ModPow` | src/blind.js:91-101 | square-and-multiply is the power modulo n, save 1 instead of 0 for exponent 0 modulo 1 |
| `Modular.ModInverse` | src/blind.js:104-114 | succeeds exactly on what is coprime to the modulus, and then inverts it |
| `Modular.CoprimeHasInverse` | src/blind.js:104-112 | whatever shares no factor with the modulus has an inverse below it |
| `Modular.GcdIsGreatest` | src/blind.js:104-112 | every common divisor divides the value Euclid's loop ends on |
| `Blind.BlindSignVerifies` | src/blind.js:177-219 | blinding, signing and unblinding always yields a signature that verifies |
| `Blind.OnlyOneSignature` | src/blind.js:215-219 | exactly one value in range verifies for a hash: its power under the private exponent |
| `Blind.ExactlyOneFactor` | src/blind.js:177-191 | every coprime value is reached from every coprime hash by exactly one coprime factor below n; the one value the code can never show, for skipping the factor 1, is the hash itself |
| `Blind.UsedFactorsHide` | src/blind.js:177-191 | a factor the code uses never shows the hash itself |
| `Blind.UsableIsInvertible` | src/blind.js:177-191 | the factors used are exactly those other than 0 and 1 that can be undone |
| `Blind.BlindSerial` | src/blind.js:177-191 | the first usable draw is used, and none only if none is usable |
| `Blind.FullDomainHash` | src/blind.js:154-171 | the expansion just covers the modulus and eight bytes, and the result lies in [2, n) |
| `Blind.BytesAreDigits` | src/blind.js:154-171 | bytes are read as digits in base 256, highest first |
| `Blind.ExpandAt` | src/blind.js:154-171 | block i of the expansion is the digest of the message with counter i |
| `Blind.FoldIsResidue` | src/blind.js:154-171 | the result is the residue, but for 0 and 1, which become 2 |
| `Blind.VerifySignature` | src/blind.js:215-219 | accepts exactly the signatures in range whose power is the hash |
| `Blind.SignBlinded` | src/blind.js:199-204 | the raw private operation is the power and no more |
| `Blind.RoundTrip` | src/blind.js:177-219 | the three steps in a row never end in a refused signature |
| `Pplns.PoolCore.SplitReward` | src/pool.js:235-259 | credits and fee are the reward exactly; each credit is the floor of the address's part of the last window of work; rounding adds to the fee less than one unit per address |
| `Pplns.FeeIsFloor` | src/pool.js:235-238 | the fee is the floor of its share in ten thousandths |
| `Pplns.PartIsFloor` | src/pool.js:252-257 | what an address is credited is the floor of the exact proportion |
| `Pplns.PoolCore.Weigh` | src/pool.js:241-249 | the backward loop gives each address its overlap with the window, the oldest share counting only for the part inside |
| `Pplns.PoolCore.TrimShares` | src/pool.js:217-228 | only a prefix is dropped; what stays covers twice the current window, and would not without its oldest share |
| `Pplns.TrimIsInvisible` | src/pool.js:217-259 | a trimmed log answers every split as the whole log did, for every block of at most twice the current difficulty |
| `Pplns.TrimShowsBeyondTwice` | src/pool.js:217-228 | twice is the exact bound: for every current difficulty, factor and block difficulty beyond twice the current one there is a share log on which a trim changes the credits |
| `PoolBooks.BooksAlwaysBalance` | src/poolserver.js:97-102 | under every interleaving of share, confirm, payout, failed broadcast and crash, balances plus payments not failed plus fees equal the rewards of confirmed blocks, miner by miner too, no balance is negative, and the file balances as well |
| `PoolBooks.NobodyIsPaidTwice` | src/poolserver.js:254-275 | whatever interleaving and crashes, all that was handed to the network for an address and not refused is within what the confirmed blocks on file credit it with; every payment the network took is counted as paid on file, and no found block is forgotten |
| `PoolBooks.StepRemembers` | src/poolserver.js:154-281 | every event leaves memory and file in step with what the world outside has seen |
| `PoolBooks.PayoutClears` | src/poolserver.js:225-281 | a payout whose broadcasts are all taken pays everybody owed at least the minimum their whole balance and nobody else anything, and ends saved with at most a thousand payments listed |
| `PoolBooks.JudgedOnce` | src/poolserver.js:190-221 | a block matures or is orphaned once, never both, and an orphan pays nobody |
| `PoolBooks.AbortsFree` | src/poolserver.js:277-281 | a payout given up on leaves memory and file as they were, and another may start |
| `PoolBooks.ListsStayShort` | src/poolserver.js:181-182 | at most five hundred blocks are ever listed, in memory or on file |
| `PoolBooks.MatureBalances` | src/poolserver.js:208-214 | confirming a record moves exactly its reward into balances and fees |
| `PoolBooks.RefusedBalances` | src/poolserver.js:266-270 | a refused broadcast restores the balance it took |
| `PoolBooks.NewPoolIsSound` | src/poolserver.js:76-77 | a new pool's books balance |
| `PoolServerModule.PoolServer.RecordBlock` | src/poolserver.js:171-185 | a found block is recorded as pending with credits and fee that split its reward, and saved |
| `PoolServerModule.PoolServer.Confirm` | src/poolserver.js:208-214 | the credit loop pays every credit of the record once and marks it confirmed |
| `PoolServerModule.PoolServer.DueNow` | src/poolserver.js:231-233 | everybody owed at least the minimum, once, at the balance of that moment |
| `PoolServerModule.PoolServer.StartPayout` | src/poolserver.js:225-234 | a payout works through the balances due when it starts |
| `PoolServerModule.PoolServer.DebitNext` | src/poolserver.js:254-258 | debit and record reach memory and file together, before the payment is handed over; what that is for is `PoolBooks.NobodyIsPaidTwice` |
| `PoolServerModule.PoolServer.BroadcastAccepted` | src/poolserver.js:259-265 | the payment is marked sent, counted as paid and saved |
| `PoolServerModule.PoolServer.BroadcastRefused` | src/poolserver.js:266-273 | the balance comes back, the payment is marked failed, and both are saved |
| `PoolServerModule.PoolServer.Save` | src/poolserver.js:97-102 | the file becomes the whole state |
| `PoolServerModule.PoolServer.Load` | src/poolserver.js:89-95 | the state becomes the file and whatever was under way is gone |
| `PoolServerModule.PoolServer.EndPayout` | src/poolserver.js:275-277 | the payment list is cut to its last thousand, nothing else moves |
## Left out

- EVM execution, contract calls and contract creation: a transaction that would reach the EVM is refused by this model (`Transition.NeedsEvm`).
- BRIDGE_REGISTER, BRIDGE_CLAIM and BRIDGE_RELEASE inside a transaction (src/state.js:704-743, 774-835, 873-884, 981-1024): they run contracts. Their ledger is modelled on its own in `Inbound`; that a zero cap or a zero release is refused only after the fee was taken is therefore not captured.
- Token records are values in a map rather than objects of their own, so aliasing of a record is not modelled; `StateModule.State.Clone` shows that a copied state shares no ledger object.
- Post-states held by the block tree are values; that a stored post-state shares nothing with the live state is what `StateModule.State.Clone` and the untouched parent of `Blocks.VerifyAgainstParent` are for.
- Effects of one transaction that touch different parts of the state are grouped (`StateModule.State.Effects`), where the source interleaves them; the parts do not overlap.
- Sorting of mempool candidates and of trie entries: the results hold for every order.
- Submission of raw transactions (src/chain.js:195-365) beyond what admission does to the mempool: quotas, fee floors and eviction choices are single-branch policy.
- Deliveries from other peers while a sync is waiting for a page: `Sync` takes the chain as changed by the sync alone; safety under interleaving is `Runs`.
- Rate limiting and retries of the sync's requests, persistence batches and yields: no effect on the chain.
- Sync.SyncFrom: convergence is one direction only; a sync may also succeed from further away, for instance when the peer's chain is lighter, or with other blocks waiting under the peer's that happen to verify (`OrphanPool.PathNeverThrows` says of those that they do not make it throw).
- OrphanPool.ThrowsExactly: exact for a delivery that refuses no reorganisation, which `OrphanReach.InReachIsUnrefused` tells beforehand; the children of a refused block are not looked at, and where one is refused it promises that a ready delivery does not throw, with `OrphanPool.BadChildFails` for the direct children.
- Stop signals and wall-clock deadlines of a mining slice (src/block.js:117-125): a slice here ends on its round bound.
- A decoded trie node that is not a list, or a list value where bytes belong, counts as malformed in `Trie.Verify`; no node of a built trie is one.
- Receipt decoding, RLP and keccak themselves, RSA key generation and its private operation: parameters.
- Wallet funds, gas and nonces of pool payouts (src/poolserver.js:236-250): they decide whether a payment is attempted, not how it is booked; a broadcast error is taken to mean that the node did not accept.
- The pool's record lists are cut to 500 blocks and 1000 payments; the cut records are kept here as history so that the books can be summed.
- Share difficulty retuning and hash rates (src/pool.js:201-215, 266-278): floating point with easy bounds.
- Fixed-width payload codecs, listings, quotas, fee quotes, HTTP, discovery, pages and wallets: each is settled by reading one branch, or is I/O.
