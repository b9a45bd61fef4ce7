# simchain-go chain-state engine: a verified model

simchain-go is a small proof-of-work blockchain node written in Go. This project models the part of the
node that decides what the chain is and keeps the other components in step with it, and proves what that
part promises. `dafny verify dfyconfig.toml` checks everything.

| module | models |
|---|---|
| `Types`, `Pow` | blocks, headers, the difficulty test, work, the transaction root |
| `Tree`, `ForkChoice`, `Orphans` | the block tree as a value: one submission, paths, reorganisations, orphan adoption, runs |
| `Validity` | validation and submission read off the blocks alone: numbers, timestamps, digests |
| `Chain` | the `Blockchain` class: cross-linked maps updated in place, proved against the tree functions |
| `Confluence`, `Order` | independence of the delivery order, and exactly which deliveries have it |
| `Unreported` | exactly when a call moves the tip beyond what it reports |
| `Locator` | locators, header replies, how near the fork a reply starts |
| `Disk`, `Store` | the data directory as a sequence of atomic operations, and the `Store` class issuing them |
| `Recovery`, `Restart`, `History` | mirroring, crashes between any two disk operations, replay, whole histories |
| `Survival`, `Intact` | every history at all, also those in which the store stops mirroring the chain; when the directory is whole again |
| `Pool`, `Mempool`, `Conservation` | the mempool (a slice over a backing array), compaction in place, transactions across a reorganisation |
| `Node` | `onNewBlock`: chain, then mempool, then store; start-up replay |
| `Peers`, `Window`, `Stays`, `Syncer` | peer choice, the download window, how often a block is asked for, the sync state machine |
| `Silence` | the ticker's rounds when the asked peers never answer |
| `Segments`, `Forks`, `CatchUp` | what a round of synchronisation does from any branch and whatever waits, which rounds reach the peer's tip, and catching up with a peer |
| `Samples` | small trees for the instances |

How to read it: classes (`Chain.Blockchain`, `Store.Store`, `Mempool.Mempool`, `Syncer.Syncer`, `Peers.Manager`,
`Node.Node`) keep the Go fields and loops. Each method is proved against a function or relation on values
(`Tree.Connect`, `Orphans.AddStep`, `Disk.TipChange`, `Pool.Keep`, `Window.Dispatched`, ...), and the results are lemmas
about those. Orphan adoption visits a Go map, so its order is arbitrary: a submission is a relation, and a
statement about runs holds for every order.

Hashes are an abstract type. The hash functions are fields of `Types.Crypto`; the only assumption about them is
that a header never hashes to the all-zero digest, which the code uses for "hash not filled in".
Genesis is taken to have height 0.

## Results that are not simply "the code is right"

- **Delivery order.** For a set of delivered blocks, all runs end with the same blocks if and only if no two acceptable
  blocks share a hash, and whenever another block shares an acceptable block's hash, one of the two is a child of
  genesis (`Order.OrderIndependentIffSafe`). Two mechanisms break it: orphans are stored without validation under the hash
  they carry, so a block with a waiting block's hash replaces it (`Order.OverwrittenOrphanInstance`); and a header
  commits only to transaction IDs, so two valid blocks may differ in a payload under one hash, and the first delivered
  is kept (`Order.TwinsAreOrderDependent`, `Order.PayloadTwinsInstance`).
- **Store follows chain.** `AddBlock` reports only the submitted block's own step; orphans adopted afterwards may
  move the tip unreported. That happens exactly when waiting orphans form a valid path on top of the submitted block that
  rises above the tip (`Unreported.TipReportedIffNotOvertaken`). Then the store stops mirroring the chain
  (`History.UnreportedTipInstance`), unless the block's own step is an extension and files left over above the old chain
  happen to fill the gap below the final tip (`Recovery.MirrorsIffNotOvertaken`, `History.LeftoverFileInstance`); a crash
  inside the call heals it in all but one case (`History.StepKeepsHealthy`). From a
  directory with no file above the chain there is no such exception (`Recovery.CleanMirrorsIffNotOvertaken`).
- **Restart after anything.** Where no two headers really have the same hash, after every history, overtaken submissions,
  crashes and blocks that carry another block's hash included, a restart is never refused, and it rebuilds exactly the linked
  beginning of what it loads (`Survival.EveryHistoryRestarts`). What loads need not be linked, even without a crash:
  `Survival.UnlinkedLoadInstance` ends with a four-block chain and a directory that restarts on two blocks, one of them
  abandoned. A completed submission that writes leaves a directory that loads in full and linked exactly when the files
  below were linked up to the parent of the first block written (`Intact.WholeAfterIff`), and for such a node that is exactly when the
  directory holds, hash by hash, the chain the submission reported (`Intact.WholeIffReportedChain`).
- **Catching up from a fork.** Of a node that is behind an honest peer, a fully answered round raises the tip exactly
  when the reply ends above it, or waiting blocks form a valid path on top of the reply that does
  (`Segments.SegmentExtends`); otherwise every later round names only held blocks, and the node asks for the same ones
  forever (`Forks.StuckIffNothingRises`, `Forks.StalledTreeIsFixed`). If only the peer's own blocks wait, a first round that
  raises the tip is all it takes to reach the peer's (`Forks.ReachesIffReplyRises`), and an announced tip that waits can
  make the difference (`Forks.WaitingTipInstance`); a waiting block of another branch can raise the tip once and leave the
  node stuck (`Forks.ForeignBlockInstance`). With the default of 2000 headers the reply ends no higher than the tip
  exactly when the node is at least 2000 blocks high and the fork more than 1032 blocks below its tip
  (`Forks.StuckIffForkDeep`), because the locator skips from depth 1032 to 2056.
- **Silent peers.** A download from peers that never answer backs off: all retries of one request fit into `retryLimit`
  times a timeout and a gap between rounds, and then no sync work is left (`Silence.BacksOff`). The first decision
  after the backoff asks the best peer of that moment (`Silence.AsksAfterBackoff`).
- **Manifest tip hash.** `LoadMainChain` repairs the manifest only when a file is missing. After a crash inside a chain
  switch the reloaded manifest names the wrong tip exactly when the new block at the old tip's height was already
  written and the manifest was not (`History.StaleNameExactly`). Block files are unaffected.
- **Transactions across a submission.** Transactions are returned before confirmed ones are removed. A reported
  reorganisation loses none if and only if, counting pool length and bytes in chain order, none that the final main chain
  lacks meets a full pool (`Conservation.ReorgConservesIffNoneTurnedAway`, in closed form `ReorgConservesIffFits`); a full
  pool can lose one although the added blocks free its place (`Conservation.LossInstance`). Any other submission loses
  none, unless orphans carry the tip to another branch unreported: then nothing is returned, and none is lost if and
  only if the abandoned blocks' transactions are all pooled or on the new branch (`Conservation.SubmissionConservesIff`,
  `Conservation.UnreportedLossInstance`).
- **Transaction root.** It commits to the IDs only, joined by newlines. For newline-free IDs it determines the
  list, with the one exception of the empty list against a single empty ID (`Pow.JoinedTextDeterminesIds`).

## Model

| member | source | states |
|---|---|---|
| `Pow.CountLeadingZeroBits` | internal/crypto/pow.go:48-65 | the nested byte and bit loops count the leading zero bits |
| `Pow.LeadingZeroBitsRange` | internal/crypto/pow.go:48-65 | a digest of n bytes with c leading zero bits lies in [2^(8n-c-1), 2^(8n-c)) as a big-endian number |
| `Pow.MeetsDifficultyIffBelowTarget` | internal/crypto/pow.go:67-69 | for 32 bytes, the difficulty test holds iff d <= 256 and the big-endian value is below 2^(256-d) |
| `Pow.WorkTimesTarget` | internal/crypto/pow.go:71-79 | for 0 <= d <= 256, work times target is 2^256 |
| `Pow.FeedHasher` | internal/crypto/pow.go:33-41 | the hasher loop writes the IDs joined by newlines |
| `Pow.LinesOfJoined` | internal/crypto/pow.go:33-41 | cut at its newlines, the joined text of newline-free IDs gives back exactly the IDs, in order |
| `Pow.JoinedTextDeterminesIds` | internal/crypto/pow.go:33-45 | over newline-free IDs, two lists have the same preimage iff they have the same IDs or are the empty list and a single empty ID |
| `Tree.Insert` | internal/blockchain/chain.go:168-182 | filing a validated block keeps the whole tree invariant and changes nothing already held |
| `Tree.Connect` | internal/blockchain/chain.go:131-201 | one submission, whatever its outcome, keeps the tree invariant and everything held |
| `Tree.FreshInv` | internal/blockchain/chain.go:43-73 | a new chain satisfies the invariant |
| `Validity.ValidIffGenuine` | internal/blockchain/chain.go:203-234 | validation accepts exactly the blocks with the chain's difficulty, one height above the parent they name, no older, with the root of their own IDs, a true hash, and that hash below 2^(256-d) with d <= 256 |
| `Validity.RefusalNamesFirstFailure` | internal/blockchain/chain.go:203-234 | a refusal names the first of these requirements, in the order of the checks, that is not met |
| `Validity.HeldIsGenuine` | internal/blockchain/chain.go:131-201 | in every reachable tree every block above genesis meets all of them against its held parent |
| `Validity.SubmissionOutcome` | internal/blockchain/chain.go:131-201 | every outcome of a submission by the blocks alone: an unknown genesis block refused, a held block ignored, a block without held parent parked, any other filed iff it meets them, else refused without effect |
| `Tree.PathPrefix` | internal/blockchain/chain.go:168-175 | every block reaches genesis in exactly `height` parent steps, and its path agrees with its ancestors' paths |
| `Tree.WorkIsHeightTimesUnit` | internal/blockchain/chain.go:174-175 | cumulative work is height times the work of one block |
| `Tree.TipIsHighest` | internal/blockchain/chain.go:177-192 | no held block is higher than the tip |
| `Tree.PathFrame` | internal/blockchain/chain.go:168-175 | growth of the tree never changes the path of a held block |
| `ForkChoice.TipRisesByOne` | internal/blockchain/chain.go:177-197 | one submission raises the main chain by 0 or 1, moves the tip exactly when it raises it, without reorganisation only to a child of the old tip; a reorganisation adds one block more than it removes |
| `ForkChoice.ReorgSplitsAtDeepestAncestor` | internal/blockchain/chain.go:255-301 | a reported reorganisation names the deepest common ancestor; both chains are the shared segment plus removed or added blocks, each validly linked, sharing no block |
| `ForkChoice.MainChainAfterConnect` | internal/blockchain/chain.go:177-197 | the new main chain is the old one, the old one plus the new tip, or the shared segment plus the added blocks |
| `ForkChoice.PathIsValid` | internal/blockchain/chain.go:203-234 | every main or side chain passes validation link by link and is numbered by height; what passing means is `Validity.ValidIffGenuine` |
| `ForkChoice.SharedHistory` | internal/blockchain/chain.go:326-398 | in two trees where a hash identifies a header, a shared block has the same ancestry |
| `Orphans.AdoptTakesOne` | internal/blockchain/chain.go:239-245 | an adopted orphan leaves the pool and is not put back |
| `Orphans.AdoptsKeepsInv` | internal/blockchain/chain.go:236-253 | n adoptions keep the invariant and shrink the pool by exactly n, so adoption terminates |
| `Orphans.AdoptionStaysAboveSubmittedBlock` | internal/blockchain/chain.go:117-129 | a call adopts only descendants of the block it filed; the final tip is the reported one or a descendant of that block; a call that files nothing adopts nothing |
| `Orphans.AdoptionCompletes` | internal/blockchain/chain.go:236-253 | from any tree adoption ends with nothing adoptable |
| `Orphans.RunCompletes` | internal/blockchain/chain.go:117-129 | every sequence of deliveries has a run, so statements about all runs are not empty |
| `Orphans.RunKeepsInv` | internal/blockchain/chain.go:117-253 | in every run the tree is well formed, no orphan waits for a held block, and nothing held is lost |
| `Chain.Blockchain.constructor` | internal/blockchain/chain.go:43-73 | genesis root and hash are recomputed, the rest of the block kept, and it is filed as a one-block tree |
| `Chain.Blockchain.AddBlock` | internal/blockchain/chain.go:117-129 | the result is the block's own step; the state is that step followed by adoption until none is adoptable; by the blocks alone: filed iff new, its parent held and its digest, numbers, timestamp and root right; refused iff an unknown genesis block or wrong against a held parent, then without effect; parked without a held parent |
| `Chain.Blockchain.AddBlockUnlocked` | internal/blockchain/chain.go:131-201 | state, result and error of one submission, including every error case in order, as `Validity.SubmissionOutcome` and `Validity.RefusalNamesFirstFailure` read them |
| `Chain.Blockchain.TryConnectOrphans` | internal/blockchain/chain.go:236-253 | for every map order the loop terminates with no adoptable orphan, having made only adoption steps |
| `Chain.Blockchain.ComputeReorg` | internal/blockchain/chain.go:255-301 | returns the split at the longest common prefix of the two paths |
| `Chain.Blockchain.LowestCommonAncestor` | internal/blockchain/chain.go:265-283 | the three loops meet at the end of the longest common prefix |
| `Chain.Blockchain.CollectDownTo` | internal/blockchain/chain.go:284-292 | walking parents collects the segment newest first |
| `Chain.ReverseInPlace` | internal/blockchain/chain.go:303-307 | reverses the slice |
| `Chain.Blockchain.MainChainHashes` | internal/blockchain/chain.go:400-415 | returns the path from genesis to the tip |
| `Confluence.RunExplained` | internal/blockchain/chain.go:117-253 | in every run, of the delivered blocks under one hash some one is held, waits as orphan, or failed validation against its parent, and nothing undelivered is held |
| `Confluence.EachSettled` | internal/blockchain/chain.go:117-253 | where a hash identifies a delivered block, each of them is |
| `Confluence.RunKept` | internal/blockchain/chain.go:131-253 | in every run, delivered blocks that are valid wherever their parent is held, and that no other delivery can replace while they wait, are kept |
| `Confluence.RunHoldsExactlyAcceptable` | internal/blockchain/chain.go:117-253 | after any run over order-safe deliveries exactly genesis and the blocks ending a valid path of delivered blocks are held |
| `Confluence.RunLeavesExactlyWaiting` | internal/blockchain/chain.go:117-253 | if a hash identifies a delivered block, the orphans after any run are exactly the delivered blocks with no held parent |
| `Confluence.DeliveryOrderIrrelevant` | internal/blockchain/chain.go:117-253 | any two runs delivering the same order-safe blocks in any orders with any repeats end with equal blocks, parents, heights and works, and tips of equal work; with equal orphans too if a hash identifies a delivered block |
| `Order.OrderIndependentIffSafe` | internal/blockchain/chain.go:117-253 | all runs over a set of deliveries end with equal blocks if and only if the set is order-safe |
| `Order.IdentifiedIsOrderIndependent` | internal/blockchain/chain.go:117-253 | if a hash identifies a delivered block, all runs over the set end with equal blocks |
| `Order.DeliverAcceptableFirst` | internal/blockchain/chain.go:131-201 | for every acceptable block some run over the same deliveries keeps it, whatever shares its hash |
| `Order.OverwrittenOrphanIsLost` | internal/blockchain/chain.go:156-166 | at any depth, a block sharing the hash of an acceptable one, neither a child of genesis, can replace it while both wait: some run over the same deliveries ends without it |
| `Order.OverwrittenOrphanInstance` | internal/blockchain/chain.go:156-166 | such blocks and two such runs exist, given three distinct digests |
| `Order.TwinsAreOrderDependent` | internal/crypto/pow.go:33-45 | beside any acceptable block, the same block with other transactions of the same IDs is just as acceptable, and delivery order decides which is kept |
| `Order.PayloadTwinsInstance` | internal/blockchain/chain.go:152-154 | two valid blocks differing in one payload: delivered in either order, the first is kept |
| `Unreported.TipReportedIffNotOvertaken` | internal/blockchain/chain.go:117-129 | the tip ends where the result says if and only if no valid path of waiting orphans on top of the submitted block rises above the tip |
| `Unreported.AdoptionEffect` | internal/blockchain/chain.go:236-253 | what any number of adoptions may have done: only orphans filed as they were, each orphan waiting, held or refused, the tip unmoved or strictly higher |
| `Unreported.FinalChain` | internal/blockchain/chain.go:117-129 | the main chain a call ends with extends the one after a reported tip change, is that one when not overtaken, and otherwise stands on the submitted block's parent chain |
| `Locator.BuildLocator` | internal/blockchain/chain.go:326-351 | entry k lies at depth min(H, k) for k <= 10 and min(H, 8 + 2^(k-9)) beyond, stopping at `max` entries or at genesis |
| `Locator.LocatorDescendsToGenesis` | internal/blockchain/chain.go:326-351 | entries are held blocks at strictly decreasing heights; genesis is included iff the last permitted depth reaches it |
| `Locator.MainChainMetasFromLocator` | internal/blockchain/chain.go:353-398 | answers with the main-chain blocks directly above the first locator entry found on the main chain, at most `max` of them |
| `Locator.ReplyStartsNearFork` | internal/blockchain/chain.go:326-398 | the reply starts above a shared block at most max(0, d-10) below the fork, and for d < max + 10 reaches a block off the requester's main chain when there is one |
| `Store.Store.Open` | internal/store/store.go:37-64 | fails exactly on a difficulty mismatch; initialises a directory without manifest |
| `Store.Store.InitNew` | internal/store/store.go:79-100 | writes the genesis file, then the manifest |
| `Store.Store.LoadMainChain` | internal/store/store.go:111-139 | returns the loaded blocks and repairs the manifest to them; fails iff file 0 is missing, then without effect |
| `Store.LoadedAndCut` | internal/store/store.go:113-139 | loaded are the files from height 0 up to the manifest height or just below the first missing one; there the manifest is cut, naming the last block, and otherwise it stays |
| `Store.Store.ApplyTipChange` | internal/store/store.go:141-188 | issues exactly the disk operations of the tip change, in order, and leaves the matching manifest; an extension at or below its height is ignored, and only a switch from an unknown ancestor fails |
| `Store.Store.RollbackTo` | internal/store/store.go:190-200 | deletes downwards to the given height and renames the manifest tip |
| `Disk.LoadFromIs` | internal/store/store.go:113-139 | loading stops exactly at the manifest height or the first missing file |
| `Recovery.SwitchSurvivesCrash` | internal/store/store.go:168-200 | after any number of a chain switch's deletes and writes, loading gives a prefix of the old or new chain keeping the shared segment; completed, the store mirrors and names the new chain |
| `Recovery.AppendSurvivesCrash` | internal/store/store.go:151-166 | the same for appending one block: a file above the manifest height is not read |
| `Recovery.TipChangeFollowsChain` | internal/store/store.go:144-188 | the operations computed from a reported tip change are an append, or a switch at the ancestor, that lead from the old main chain to the new one |
| `Recovery.ChangeSurvivesCrash` | internal/store/store.go:113-200 | crash safety of any such change, at every operation boundary |
| `Recovery.StoreFollows` | internal/store/store.go:144-188 | from a mirroring store, a submission that reports its tip movement ends with a mirroring store whose manifest names the tip; no stray files appear |
| `Recovery.MirrorsIffNotOvertaken` | cmd/node/main.go:222-225 | from any mirroring store, the store mirrors the chain after the event iff the waiting orphans do not overtake the submitted block, or the block's own step is an extension and leftover files fill the gap below the final tip |
| `Recovery.CleanMirrorsIffNotOvertaken` | cmd/node/main.go:222-225 | with no file above the chain: iff not overtaken, a condition on the state before the call |
| `History.UnreportedTipInstance` | cmd/node/main.go:222-225 | a block waits behind its parent, the parent arrives: the tip moves past the reported one and the store no longer mirrors the chain |
| `History.LeftoverFileInstance` | internal/store/store.go:151-166 | the same with the parent's file left over: the store mirrors the chain all the same |
| `Restart.ReplayRebuilds` | cmd/node/main.go:194-211 | replaying any initial part of a main chain rebuilds that chain, its tip and its cumulative work, with no orphans |
| `Restart.ReplayStep` | cmd/node/main.go:206-210 | each replayed block is accepted as the new tip without error or reorganisation |
| `Restart.ReplayExists` | cmd/node/main.go:194-211 | the replay goes through to the end with no block refused |
| `History.StepKeepsHealthy` | internal/store/store.go:113-200 | of a submission the store keeps up with, a completed step leaves a mirroring node on the new chain; a crash at any operation followed by restart leaves a mirroring node on a prefix of the old or new chain that keeps their shared part. It keeps up unless orphans overtake the block, and even then if leftover files fill the gap, or if it crashes and did not both persist an extension in full and leave a file at the first skipped height |
| `History.CompletedHealthyIff` | internal/store/store.go:144-188 | a completed submission leaves a mirroring node mirroring iff the store keeps up with it |
| `History.CrashedNodeRestarts` | cmd/node/main.go:190-211 | after a crash at any operation of such a submission the directory opens under its difficulty and loads, no block is refused, and the node restarts |
| `History.InterruptedRestartIsHarmless` | internal/store/store.go:113-139 | interrupting a restart before or after its manifest repair does not change where the next restart ends |
| `History.EveryHistoryHealthy` | internal/store/store.go:113-200 | in every history of submissions the store keeps up with, crashes and restarts the store mirrors the chain |
| `History.FirstStartHealthy` | internal/store/store.go:79-100 | initialisation gives a mirroring node, whatever files an interrupted one left |
| `History.StaleNameExactly` | internal/store/store.go:119-134 | after a crash in a reported chain switch the reloaded manifest fails to name the tip exactly from the write of the block at the old tip's height to the manifest's own |
| `History.StaleNameInstance` | internal/store/store.go:119-134 | a switch, a crash after two of its four operations, and a reloaded manifest that names the old tip |
| `Survival.StepKeepsSound` | internal/store/store.go:144-200 | any submission, overtaken or not, completed or crashed and restarted, with any hash in the block, keeps every file a valid block at its own height over genesis, if no two headers really have the same hash |
| `Survival.RunRebuilds` | cmd/node/main.go:202-211 | replaying such files refuses none and rebuilds exactly their linked beginning, if no two headers really have the same hash |
| `Survival.EveryHistoryRestarts` | cmd/node/main.go:190-211 | if no two headers really have the same hash: after every history, and a crash at any operation, the node restarts on the linked beginning of what it loads; that is all of it iff what loads is a valid chain |
| `Survival.RestartHealthyIffLinked` | internal/store/store.go:113-139 | the restarted store mirrors the restarted chain iff what it loaded is linked |
| `Survival.FirstStartSound` | internal/store/store.go:79-100 | a newly started node qualifies |
| `Survival.UnlinkedLoadInstance` | internal/store/store.go:168-188 | five completed submissions after which the directory loads an unlinked chain |
| `Intact.WholeAfterIff` | internal/store/store.go:144-200 | whatever the directory held: after a completed submission it loads in full and linked iff, when the submission wrote, the files below were complete and linked up to the reported ancestor or the new tip's parent, and otherwise iff it did before |
| `Intact.WholeIffReportedChain` | internal/store/store.go:113-200 | for a sound node that wrote, that is so iff what loads is, hash by hash, the chain the submission reported |
| `History.BranchesDifferAtOldTip` | internal/blockchain/chain.go:255-301 | a reported reorganisation puts another block at the old tip's height |
| `Pool.KeepKeepsAgreement` | internal/mempool/mempool.go:166-190 | filtering entries and dropping their IDs keeps entries, maps and byte total in agreement |
| `Pool.AddKeepsAgreement` | internal/mempool/mempool.go:86-118 | so does an accepted addition, within both limits |
| `Pool.LifetimeKeepsExpiryOrder` | internal/mempool/mempool.go:84-243 | over every sequence of operations under a clock that never runs backwards, entries stay sorted by expiry |
| `Pool.EveryCleaningRemovesPrefix` | internal/mempool/mempool.go:219-243 | in every such sequence each cleaning removes exactly a prefix, the expired entries |
| `Pool.CleaningRemovesPrefix` | internal/mempool/mempool.go:219-243 | over entries sorted by expiry cleaning removes exactly a prefix |
| `Pool.KeepPicks` | internal/mempool/mempool.go:166-190 | filtering leaves exactly the entries that pass, at their old places in order |
| `Pool.PopsInTurn` | internal/mempool/mempool.go:120-154 | popping m and then n is popping m + n; popping the length or more empties the pool |
| `Pool.LivesForTtl` | internal/mempool/mempool.go:104-243 | an accepted transaction survives a cleaning exactly up to its time to live |
| `Mempool.Mempool.constructor` | internal/mempool/mempool.go:55-77 | an empty pool in agreement, non-positive settings replaced by defaults |
| `Mempool.Mempool.Add` | internal/mempool/mempool.go:84-118 | appends one entry, with its expiry and size, iff the ID is new, a place is free and the bytes fit; agreement kept |
| `Mempool.Mempool.Pop` | internal/mempool/mempool.go:120-154 | all of the pool if `max` reaches its length, else exactly the first `max`, in order; nothing for `max` <= 0; the rest stays in order; IDs, bytes and broadcast times of what is taken are forgotten |
| `Mempool.Mempool.Return` | internal/mempool/mempool.go:156-163 | adds each transaction in turn under the same rules, each with its own clock reading |
| `Mempool.Mempool.RemoveByID` | internal/mempool/mempool.go:165-190 | compaction over the shared backing array drops exactly the given IDs and keeps the rest in order; agreement kept |
| `Mempool.Mempool.CleanExpired` | internal/mempool/mempool.go:218-243 | the same for exactly the entries past their expiry, whose broadcast times go too |
| `Mempool.WindowNext` | internal/mempool/mempool.go:174-187 | the write index never overtakes the read index, so an unread entry is intact |
| `Conservation.ReturnKeepsIffNoneTurnedAway` | internal/mempool/mempool.go:156-163 | whatever is returned, all transactions outside a given set end up pooled iff a count of lengths and bytes turns none of them away |
| `Conservation.ReturnKeepsAllIffFits` | internal/mempool/mempool.go:156-163 | in closed form, when an ID names one transaction: all end up pooled iff pool and missing transactions fit both limits together |
| `Conservation.TwoSizesUnderOneId` | internal/mempool/mempool.go:86-102 | when an ID names two transactions of different size the closed form fails: the ID is pooled although the first does not fit |
| `Conservation.ReturnAppendsMissing` | internal/mempool/mempool.go:156-163 | then exactly the missing ones are appended, in chain order |
| `Conservation.ReorgConservesIffNoneTurnedAway` | internal/node/node.go:477-500 | in a call that reports a reorganisation, every ID pooled or on the old main chain is afterwards pooled or on the final one iff the count turns away none that the final chain lacks; pooled IDs are never lost and no added ID stays pooled |
| `Conservation.SubmissionConservesIff` | internal/node/node.go:314-332 | over a whole accepted block, adoption included: the same for a reported reorganisation; otherwise none is lost unless orphans overtake a block filed beside the main chain and an abandoned transaction is neither pooled nor on the final chain |
| `Conservation.ConfirmedLeavePool` | internal/node/node.go:332-337 | if a block's own step moves the tip, nothing pooled afterwards is in a block that joined the main chain; on an extension every other entry stays, in order, and none is added; if the tip stays, so does the pool |
| `Conservation.UnreportedLossInstance` | internal/node/node.go:314-332 | a tree and a block where that happens, whatever room the pool has |
| `Conservation.ReorgConservesIffFits` | internal/node/node.go:477-500 | if they fit, none is lost and the pool is (old pool, then missing) without the added IDs; if moreover IDs name one transaction and none missing is on the final chain, only if they fit |
| `Conservation.FullPoolLosesReturned` | internal/node/node.go:481-490 | in a reported reorganisation a full pool loses every returned transaction the new chain lacks, although room follows |
| `Conservation.LossInstance` | internal/node/node.go:481-490 | a tree, a block and a pool where this happens |
| `Node.Node.OnNewBlock` | internal/node/node.go:314-359 | chain, pool and directory after one block: adoption relation; what joined the main chain has left the pool, an extension drops nothing else, a block that leaves the tip drops nothing; exactly the tip change's disk operations, none if the own step leaves the tip |
| `Node.Node.ApplyReorg` | internal/node/node.go:477-490 | the pool after a reorganisation |
| `Node.Node.RemoveTxsFromBlock` | internal/node/node.go:502-511 | the pool without the block's transactions |
| `Node.Restore` | cmd/node/main.go:202-211 | start-up either rebuilds a chain by a replay of all loaded blocks with none refused, or stops at one that is refused |
| `Node.RestoreAccepts` | cmd/node/main.go:206-210 | no block of an initial part of a main chain is refused |
| `Node.Start` | cmd/node/main.go:186-211 | opening, loading and rebuilding give a restarted node; it fails only on another difficulty, a missing genesis file, or a refused block |
| `Peers.Manager.BestPeer` | internal/peer/peermanager.go:104-145 | for every map order, none iff all peers cool down, else a usable peer such that no usable one has more work, none of equal work more height, none equal in both a lower known RTT |
| `Peers.AtLeastIsTotalOrder` | internal/peer/peermanager.go:117-138 | the comparison is a total preorder |
| `Peers.Manager.Upsert` | internal/peer/peermanager.go:48-58 | makes a record with nothing known for an unknown peer and leaves a known one alone |
| `Peers.Manager.UpdateTip` | internal/peer/peermanager.go:60-77 | records the tip, keeps the failure counts, and never lifts a running cooldown |
| `Peers.Manager.ReportFailure` | internal/peer/peermanager.go:87-102 | counts the failure, keeps tip and RTT, and makes the peer unusable until now plus backoff |
| `Syncer.Syncer.constructor` | internal/syncer/syncer.go:120-162 | defaults and an empty window |
| `Syncer.Syncer.EnqueueBlock` | internal/syncer/syncer.go:323-360 | appends to the queue of its kind, under the peer it came from, unless zero, held, in flight or queued there; the other queues stay |
| `Syncer.Syncer.PopNextQueued` | internal/syncer/syncer.go:362-394 | pops exactly the front of the first queue that is not empty, parents, sync, inv, with its peer; the skip branch is dead |
| `Window.PopLaunches` | internal/syncer/syncer.go:415-521 | launching an allowed front item keeps every clause of the dispatch relation |
| `Window.PopDrops` | internal/syncer/syncer.go:428-439 | so does dropping an item that is held, in flight, or has no usable peer |
| `Syncer.Syncer.DispatchQueuedBlocks` | internal/syncer/syncer.go:396-537 | terminates with the window full, or all queues empty, or only sync items left for lack of a peer; requests sent are exactly the new ones, each once, in bounded batches; queues lose only front items, each accounted for; priorities hold |
| `Syncer.DispatchMeans` | internal/syncer/syncer.go:396-537 | request by request: old ones stay; a new one is a first attempt for a queued block not held, due one timeout on, at the sync peer, or for single blocks at the announcing or else the best peer, never at none or itself; each is in exactly one message, to that peer |
| `Syncer.DispatchLeaves` | internal/syncer/syncer.go:396-537 | queues lose only front items, each of them in flight, held, or a single block without a peer; the window is full or only peerless sync blocks stay queued; sync waits for parents, inv for sync |
| `Syncer.Syncer.TickInflight` | internal/syncer/syncer.go:860-941 | a request not due stays; an overdue one with attempts left is retried at the best known peer, one attempt and one timeout on, and sent if that is another node; one without is dropped; each overdue one is reported once. If a sync request is dropped while syncing blocks or headers: backoff until now plus `backoff`, no peer, no sync block queued or in flight; otherwise phase, peer, retries and backoff time stay |
| `Syncer.TickMeans` | internal/syncer/syncer.go:872-905 | the window after a round of timeouts, request by request |
| `Syncer.ResendsMean` | internal/syncer/syncer.go:894-939 | what a round of timeouts sends, and to whom, request by request |
| `Silence.BacksOff` | internal/syncer/syncer.go:667-726 | while peers never answer, whichever is best in which round: a node downloading blocks with a sync request in flight backs off within `retryLimit` times a timeout and a gap, with no sync block queued or in flight and no peer |
| `Silence.AsksAfterBackoff` | internal/syncer/syncer.go:680-716 | behind a usable best peer, the first decision after the backoff has run out asks that peer for headers; one before changes nothing |
| `Window.AttemptsCountHits` | internal/syncer/syncer.go:876-899 | for any rounds of timeouts, at any times and with any best peers, attempts rise by exactly the rounds that found the request overdue, and the request is gone exactly after one more than its retries left |
| `Window.HitsUseUpRemaining` | internal/syncer/syncer.go:876-899 | the sum of remaining attempts falls by one per overdue request found; the window is empty exactly when it is used up |
| `Window.LongEnoughEmpties` | internal/syncer/syncer.go:876-899 | with no arrivals, rounds that go on long enough empty the window, however closely spaced |
| `Window.DefaultTickerEmpties` | internal/syncer/syncer.go:127-138 | at the default 900 ms rounds, 2 s timeout and three attempts, a request is gone after exactly nine rounds |
| `Stays.SentWithinLimit` | internal/syncer/syncer.go:396-941 | whatever else happens, a hash is sent at most `retryLimit` times per stay in the window, dispatch and retries together |
| `Stays.RetriesAreSent` | internal/syncer/syncer.go:886-911 | a round of timeouts sends a request again exactly when it is due, has attempts left and another node to go to |
| `Stays.ResendsCarry` | internal/syncer/syncer.go:907-939 | the messages of a round carry exactly the hashes due for a retry, each once |
| `Syncer.Syncer.OnBlockArrived` | internal/syncer/syncer.go:539-546 | removes exactly that request |
| `Syncer.Syncer.ResetSyncState` | internal/syncer/syncer.go:728-743 | empties the sync queue, drops exactly the sync requests, and goes idle; the rest stays |
| `Syncer.Syncer.EnterBackoff` | internal/syncer/syncer.go:943-960 | empties the sync queue, drops exactly the sync requests, and backs off until now plus `backoff`; the rest stays |
| `Syncer.Syncer.SyncWorkDone` | internal/syncer/syncer.go:745-757 | true iff no sync block is queued or in flight |
| `Syncer.Syncer.QueueHeaders` | internal/syncer/syncer.go:832-842 | appends exactly the announced blocks not held, in flight or queued, first occurrences in order, each with the answering peer |
| `Syncer.AnnouncedInOrder` | internal/syncer/syncer.go:832-842 | the queue grows by the hashes at exactly those places of the reply that are the first to name a hash neither zero, held, in flight nor queued, in the order of the reply |
| `Syncer.QueuedMeans` | internal/syncer/syncer.go:832-842 | which blocks are queued, under which peer, and that nothing else changes; something counts as queued iff the reply names a block that is not held |
| `Syncer.Syncer.OnHeadersResult` | internal/syncer/syncer.go:805-853 | failures count towards backoff; a useful success queues the announced blocks, starts downloading and dispatches from that queue: window filled, requests sent exactly the new ones, messages carrying exactly those |
| `Syncer.Syncer.Advance` | internal/syncer/syncer.go:680-785 | headers are asked for exactly when behind in work or height, idle or past a backoff that has run out or syncing headers, none outstanding and the peer another node; the phase is then syncing headers with that peer; idle once caught up; while behind a running backoff and an unfinished download stay as they are |
| `Segments.SegmentExtends` | internal/blockchain/chain.go:117-253 | delivering the peer's blocks above a shared one in any order, with repeats, whatever waits, adds those and only waiting blocks; the tip ends as high as they reach, and moves iff one of them rises above it |
| `Forks.ReachesIffReplyRises` | internal/blockchain/chain.go:326-398 | a node behind an honest peer, on any branch, at which only the peer's blocks wait, can reach the peer's tip by answered rounds iff the first reply, or waiting blocks on top of it, rise above its own tip |
| `Forks.ReachesAfterRounds` | internal/blockchain/chain.go:326-398 | then after at most one round and ceil(rest / limit) more; exactly that many if nothing waits |
| `Forks.StalledForGood` | internal/blockchain/chain.go:326-398 | whatever waits: otherwise no number of rounds moves the tip |
| `Forks.StuckIffNothingRises` | internal/blockchain/chain.go:326-398 | so a node that is behind is stuck for good iff nothing rises in the first round |
| `Forks.RisesOrStuck` | internal/blockchain/chain.go:326-398 | whatever waits, each of a sequence of rounds raises the tip, or the node is stuck from then on |
| `Forks.StalledTreeIsFixed` | internal/blockchain/chain.go:326-398 | and from the second round on nothing held changes at all |
| `Forks.StuckIffForkDeep` | internal/blockchain/chain.go:326-398 | with 2000 headers per reply, the reply ends no higher than the tip iff the node is at least 2000 blocks high and the fork more than 1032 below its tip |
| `Forks.StalledInstance` | internal/blockchain/chain.go:326-398 | two trees where it happens with one header per reply |
| `Forks.WaitingTipInstance` | internal/blockchain/chain.go:156-166 | the same two nodes with the peer's tip waiting: the reply ends no higher than the tip, and rounds reach the peer's |
| `Forks.ForeignBlockInstance` | internal/blockchain/chain.go:156-166 | a waiting block of another branch rises with the first reply, and the node never reaches the peer |
| `Forks.NothingWaitsRises` | internal/blockchain/chain.go:326-398 | when nothing waits, only the reply itself can rise |
| `CatchUp.AnsweredRound` | internal/syncer/syncer.go:667-853 | one fully answered round (header request, reply, windowed requests, bodies in arbitrary bursts and order, final decision), from any branch and whatever waits, adds the peer's blocks up to `limit` above the anchor and the waiting blocks that stand on them, unless blocks of other branches make the node level before; the syncer is idle iff level with the peer and ready to ask again otherwise |
| `CatchUp.RoundEnds` | internal/syncer/syncer.go:690-726 | a download that ends because no sync work is left has received the whole segment; so has one that ends because the node is level, if only the peer's blocks waited; nothing is pending |
| `CatchUp.CatchUpWith` | internal/syncer/syncer.go:667-858 | from any branch where only the peer's blocks wait and the first round rises, the node reaches the peer's tip and main chain in at most `RoundsNeeded` header requests, in exactly that many if nothing waits, and then is idle |
| `CatchUp.PrefixNeedsCeiling` | internal/syncer/syncer.go:667-858 | for a node whose tip is on the peer's main chain that number is `Rounds(gap, limit)` |
| `Forks.RoundsIsCeiling` | internal/syncer/syncer.go:802-858 | that number is the gap divided by the limit, rounded up |

## Left out

- SHA-256 and JSON header serialization: hashing is an unknown function of header and nonce; marshalling errors do not occur.
- nil pointers: blocks are values, so the nil-block and nil-chain guards have no counterpart, and copying a block before storing it is invisible.
- Integer widths: heights, nonces and difficulties are unbounded. A height of 2^64-1 has no valid child in either reading; the locator's stride would overflow only beyond 60 entries, the node asks for 32.
- Sizes: `len` counts bytes in Go and characters here.
- Genesis blocks of non-zero height: `NewBlockchain` files any genesis at height 0; the model asks for height 0 in the header, as every caller supplies.
- Disk I/O errors other than a missing file, including a failing manifest save, which `LoadMainChain` ignores; manifest version and time stamp.
- `Node.Node.OnNewBlock`: announcing the new tip, counters and log lines are not modelled; the store's error, which the node only logs, is dropped.
- `lastInvBroadcast` cooldowns (`CanBroadcast`, `MarkBroadcast`): easy members; `RemoveByID` leaves stale entries in that map, as the model does.
- `Peers.Manager.BestPeer`: peer records are values in a map, so the aliasing of record pointers is not modelled; times of last contact are omitted.
- `Syncer.Syncer.DispatchQueuedBlocks`: the best peer and the set of held blocks are parameters, read once per call; in Go the chain is asked per block. Transport-is-nil guards are omitted.
- `Syncer.Syncer.Advance`: covers the decision at the end of `catchUpIfBehind`; timeouts, dispatch and header results before it are separate methods here. The header channel is a sequence of `OnHeadersResult` calls, and reading the locator belongs to the caller.
- `Segments.Shares`: among the blocks both nodes hold or park, a hash that a header really has identifies that header.
- `CatchUp.AnsweredRound`: no timeouts, nothing else pending and no other traffic during a round, since unanswered requests for other blocks may fill the window until they time out; the peer's chain stands still, and its advertised tip is its tip.
- `History.EveryHistoryHealthy`: histories of submissions the store keeps up with, since by `History.CompletedHealthyIff` the others break mirroring; `Survival` and `Intact` cover those.
- `HandleInvBlock`, `HandleInvTx`, `HandleTx`: entry checks followed by modelled operations; transaction gossip.
- The miner loop: its tip check and submission are not one atomic step, so nothing is claimed about transactions it holds meanwhile.
- Goroutines, mutexes and channels: each locked method is one atomic step.
- TCP transport, handshake, identity, message coding, the in-process bus, peer metrics, command line and debug output.
