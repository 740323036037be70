# bluGOLD: a verified model of the full node

bluGOLD is a small proof-of-work coin. Its full node keeps a tree of blocks, chooses the heaviest
branch, and holds several things that are only worth having if they agree with one simple definition,
*apply every block from genesis to the tip*: the account state, the checkpoints, the height index, the
mempool and the cached pending state. This project models that node as a class whose methods are the
locked entry points, and proves that those caches never drift from the definition. Beside it stand the
ledger, the sync protocol, the miner's SHA-256 midstate and GPU kernel, the retarget rule, the Merkle
tree, the byte encodings and amount parsing.

`dafny verify dfyconfig.toml` checks everything. The files, bottom up:

| file | what it holds |
|---|---|
| `Basics` | machine integers with explicit wrap-around, Option, Result |
| `Chain` | transactions, blocks, rewards, targets, retarget, Merkle root, the checks of one block on its parent |
| `Ledger`, `State`, `Records` | what a transaction and a block do to accounts: as rules on maps, as a mutable class, and as records in memory |
| `Conservation`, `SupplyCap`, `Nonces`, `Balances` | conservation and 64-bit bounds, the exact supply, nonce discipline; who pays, who is paid and who signed |
| `Tree`, `Subtree` | the block tree, paths, work, fork choice, replay, subtree removal |
| `StableSort`, `Mempool`, `Rebuild` | stable sorting; the greedy valid subsequence and the reorg rebuild; which payments survive a reorg |
| `NodeRules`, `Fates` | what one step may change, orphan bookkeeping, fork choice under re-entry, loading; what becomes of every buffered orphan |
| `Mining`, `Sync` | candidates and why a solution is never wasted; locators and batches |
| `Rules` | the consensus rules, verdicts, fork choice and limits written out |
| `Twins`, `Convergence` | blocks of one header hash; why nodes with the same valid blocks agree |
| `Assumptions` | digests that satisfy what is assumed of them, blocks and payments that meet the rules under them, and inputs at which a property fails |
| `Node`, `Runs` | the node itself; its runs to the states where a property fails |
| `Sha256`, `Constants`, `Example` | FIPS 180-4; where its constants come from; its example message |
| `Midstate`, `Targets`, `Kernel` | the midstate, digests as numbers, the kernel's search |
| `Retarget`, `Merkle`, `Codec`, `Amounts` | the retarget clamp, the Merkle tree, encodings and decoders, decimal amounts |

## Reading the model

* A node is settled, `Valid()`, when the tree obeys the rules, the accounts and every checkpoint are the
  replay of their own path, the height index lists exactly the active chain, everything pending applies in
  order, no buffered orphan's parent is stored, and nothing stored beats the tip. `Busy(inserting)` is the
  same while an insertion is under way: a stored block may beat the tip only if its own insertion is still
  waiting for an inner one. That is what makes the recursive promotion of orphans, with its nested tip
  selections and failed switches that are never retried, end with the best block as the tip.
* `Node.Run` takes any sequence of entry points from any settled node with a tip: a block arriving, a
  transaction arriving, a payment reading the pending state. The other entry points only read or are made of
  these. `Node.RunFromGenesis` starts from an empty disk. `Node.Boot` also loads stored blocks, as the
  function `NodeRules.LoadAll` says; when the heaviest stored branch does not replay the tip stays unset,
  exactly then, because selection runs once.
* Every clock reading is an input: `now` for the block handed in, the set `readings` of those the clock may
  give while that insertion holds the lock and reads it again for the orphans it brings in, and `clock` for
  loading and for each block of each sync round. What is proved holds for all of them.
* No orphan is lost. `OrphanFates.Fates` is part of the contract of promotion and insertion: every block that
  was buffered still waits, or is stored, or its hash had been rejected before, or it is rejected now and
  its own history is invalid, or it breaks a rule on a rule-abiding chain ending in its parent, or one of
  `readings` is too early for it. `OrphanFates.NoneLeftWaiting` and `OrphanFates.GoodOrphanEnters` say what
  that leaves once the parent is stored.
* Digests, signature checks and address checks are arbitrary functions (`Crypto`). Statements about the tree
  assume `IdealHashes`: header hashes and transaction ids identify what they are taken of, and no header
  hashes to zero, which genesis names as its parent (`Assumptions.IdealHashesExist` exhibits such functions,
  `Assumptions.RulesCanBeMet` and `Assumptions.StateCanBeValid` a block that is valid under them). Statements
  about Merkle roots assume `IdealRoots`. Statements about money assume `SoundParams`: twice the
  initial reward times the halving interval fits in 64 bits, which `SupplyCap.DocumentedCap` shows for the
  network's own parameters. In `Kernel` the header hash is SHA-256 itself.
* The rules the node follows are functions (`Better`, `ApplyTx`, `Verify`, `Retarget`, ...). For each of them a lemma
  says what it means without naming it: `PlainRules.RulesWrittenOut` and its neighbours, `Balances.TxApplies` and
  `Balances.TxBalances`, `Chain.VerifyMeaning`, `RetargetRule.ExpectedIs` and `RetargetRule.IdealMeaning`,
  `Targets.WorkMeaning`, `ReorgPool.MayStayMeaning`, `ReorgPool.EachInTurn`. For SHA-256 it is the digest of "abc".
* A digest is a number, most significant octet first. Target tests compare it as such, and ties are broken by
  comparing hex strings, which `Targets.HexStringOrder` shows to be the same order.
* Go's wrapping integers are written out (`WrapU64`, `WrapI64`), and the panic of `Credit` is an error value,
  so that its absence is something to prove.
* `State` holds the account map itself. `Records` has the same operations on records in memory and shows that
  a clone shares none of them, which is what lets the node treat a state's accounts as a value. Which state
  objects may be written to is tracked in `Node`: the pending state is never the active state nor a
  checkpoint, and a working copy is none of the three.

## Where the code and its documentation differ

The model follows the code.

* The retarget looks back to the block at height H-20 (`internal/node/node.go:213-225`), not H-21 as
  `docs/PROTOCOL.md:80` says.
* Difficulty 1 is said to accept any hash (`docs/PROTOCOL.md:71`); the all-ones digest is refused
  (`Targets.DifficultyOne`).
* Genesis has no coinbase, so the supply ends one initial reward below the documented cap
  (`SupplyCap.DocumentedCap`).
* The reorg's search for the fork runs from genesis and so always finds genesis
  (`internal/node/node.go:371-376`). `NodeRules.GenesisForkIsFine` and `Node.Reorg` show that the rebuilt
  mempool is nevertheless the one for the true fork.
* The mempool cap is looked at after the cached pending state has been written to
  (`internal/node/node.go:631-638`). If the cache was right before a new transaction is offered, it is right
  afterwards if and only if the transaction is not refused for a full mempool, and `Node.AddTx` says exactly
  when it is. `Assumptions.FullPoolSpoilsCache` is a full mempool with a payment that is refused, and
  `FailingRuns.OneTooMany` the node getting there.
* A pause of 2^61 milliseconds or more makes the fourfold elapsed time wrap, and the difficulty may then rise
  where it should fall: `RetargetRule.RetargetMeaning` is the exact condition.
* `insertBlockLocked` reports success for a block that is then rejected on state grounds
  (`internal/node/node.go:262-282`). On a settled node with nothing waiting for it, an accepted block is in
  the tree afterwards if and only if its history is valid or it does not beat the tip
  (`NodeRules.KeptByMerit` in `Node.InsertBlock`). `FailingRuns.BadBlockTaken` is a run that ends with a block
  accepted and gone.
* A reorg is meant to bring payments back. It collects the abandoned blocks newest first and sorts by time, so two
  payments of one sender made in the same millisecond and mined in two blocks are tried in the wrong order, and the
  later one is lost (`Assumptions.TiedPaymentLost`). A sender who can pay for all its payments keeps all of them if
  and only if in that order they carry its next nonces (`ReorgPool.SenderSurvives`); rising times are enough
  (`ReorgPool.RisingTimesSurvive`).
* Rejection goes by the header's hash, which does not fix the transactions (`internal/chain/block.go:25-38`).
  A block that follows the rules and that the clock allows is refused if and only if its hash has been rejected
  (`NodeRules.GoodBlockVerdict`), and every such block without a key on its coinbase has a state-invalid twin of
  the same hash. Handed the twin first, a node rejects that and then refuses the valid block (`Node.TwinFirst`,
  from genesis `FailingRuns.GoodBlockRefused`). `Merkle.RootsShared` says exactly which lists share a root. For
  the same reason a stored first block with the genesis header and some transactions is taken for genesis
  (`Node.InsertFirst`).
* Account nonces wrap after 2^64 transactions of one sender (`internal/state/state.go:89`), and a confirmed
  transaction may then be applied again: exactly then (`Nonces.ReplayOnlyAfterWrap`).

## Model

| member | source | states |
|---|---|---|
| `FullNode.Node.constructor` | internal/node/node.go:88-130 | a new node stores nothing, has no tip, an empty account state and is booting |
| `FullNode.Node.RunFromGenesis` | internal/node/node.go:227-451 | after any steps from an empty disk every other stored block has less work than the tip or the same and a greater hash, the tip's chain obeys every rule, the height index is exactly that chain, the accounts are that chain replayed from nothing, no block on it is rejected, and the balances add up to what it paid out |
| `FullNode.Node.Run` | internal/node/node.go:227-331 | any sequence of entry points keeps all invariants; the tip only ever gives way to one with more work, or with the same and a smaller hash, no rejection is forgotten, and every state-valid block is still stored with the same history |
| `FullNode.Node.BootAndRun` | internal/node/node.go:88-155 | a boot from an empty disk always succeeds in selecting genesis, and any steps after it end settled |
| `FullNode.Node.Settled` | internal/node/node.go:314-451 | between steps: tip best, chain obeys the rules and holds no rejected block, work is the sum of difficulties, index exact, accounts the full replay, balances equal the schedule's sum and fit in 64 bits |
| `FullNode.Node.Converges` | internal/node/node.go:314-451 | two settled nodes that store the same state-valid blocks have the same tip, chain, height index and accounts, whatever the order of arrival and whatever invalid blocks either still stores |
| `Convergence.SameHistory` | internal/node/node.go:262-331 | a state-valid block has the same entry, work included, and the same history in both trees |
| `FullNode.Node.TipIsBest` | internal/node/node.go:314-331 | every other stored block has less work than the tip, or the same and a greater hash |
| `FullNode.Node.TipHexFirst` | internal/node/node.go:318-323 | among the stored blocks of greatest work the tip is the one whose hex string comes first |
| `FullNode.Node.IndexWrittenOut` | internal/node/node.go:437-441 | the height index holds the active chain's block at each height up to the tip's and nothing else |
| `FullNode.Node.BalanceWrittenOut` | internal/state/state.go:73-138 | between steps each balance is what the active chain paid the address for mining and what it received, less what it spent |
| `FullNode.Node.PendingSigned` | internal/chain/tx.go:48-83 | everything pending carries a 32-octet key that hashes to its sender and a good signature under it |
| `FullNode.Node.ConfirmedSigned` | internal/chain/tx.go:48-83 | so does every transaction of the active chain above genesis but the coinbases |
| `PlainRules.ImprovesWrittenOut` | internal/node/node.go:318-323 | a tip only gives way to more work, or to as much and a smaller hash |
| `FullNode.Node.Boot` | internal/node/node.go:120-155 | loading succeeds exactly if the first stored block carries the genesis hash and each further one passes its checks on the tree of those before it, and the loaded tree is then exactly that one; the tip is set exactly if the heaviest branch's state is valid, and then it is that branch's end |
| `NodeRules.LoadedIsDisk` | internal/node/node.go:128-134 | the loaded tree holds the stored blocks and nothing else |
| `FullNode.Node.InsertFirst` | internal/node/node.go:235-242 | the first block is accepted exactly if its header hash is that of genesis with these parameters |
| `FullNode.Node.InsertBlock` | internal/node/node.go:227-282 | re-entrant insertion: the error is the checks' verdict; refused and known blocks change nothing, an orphan changes only the buffer; an accepted block is stored unless its history is invalid, and with nothing waiting for it at an outer call it is in the tree if and only if its history is valid or it does not beat the tip; every buffered orphan's fate is accounted for; only state-invalid blocks are ever lost; the tip never gets worse; all invariants hold again |
| `FullNode.Node.Accept` | internal/node/node.go:262-282 | storing, promoting and selecting in that order restores every invariant, leaves the block stored or rejected as state-invalid, and accounts for every buffered orphan |
| `FullNode.Node.PromoteOrphans` | internal/node/node.go:301-312 | every waiting block is inserted: afterwards it is stored, or rejected with an invalid history, or its hash had been rejected before, or a rule or a clock reading refuses it, or it waits for another missing parent; promotion terminates because every nested one starts with strictly fewer buffered orphans, even if the parent is rejected half way |
| `OrphanFates.NoneLeftWaiting` | internal/node/node.go:301-312 | a buffered block whose parent is stored at the end no longer waits: it is stored, rejected for its own history, had been rejected before, or was refused by a rule or a clock reading |
| `OrphanFates.GoodOrphanEnters` | internal/node/node.go:301-312 | one that follows the rules and that every reading admits is stored, unless its hash was rejected before or its history is invalid |
| `OrphanFates.FatesTrans` | internal/node/node.go:301-312 | fates add up over any number of insertions with their nested promotions |
| `FullNode.Node.AddOrphan` | internal/node/node.go:284-299 | a block is buffered under its parent unless its hash is buffered already or a hundred are |
| `NodeRules.AddedOrphanOk` | internal/node/node.go:284-299 | buffering keeps hashes unique, lists filed under their parent and the total at most a hundred |
| `PlainRules.BufferedWrittenOut` | internal/node/node.go:284-299 | a block not buffered yet is appended to its parent's list while fewer than a hundred are, and nothing else changes |
| `PlainRules.Limits` | internal/node/node.go:26-35 | the limits as numbers: a hundred orphans and heights between checkpoints, ten thousand pending, fifty thousand seen, batches of 500 blocks and 5000 transactions |
| `NodeRules.TakenOrphans` | internal/node/node.go:301-307 | taking a parent's list out of the buffer lowers the total by exactly its length |
| `FullNode.Node.CheckNew` | internal/node/node.go:251-260 | the checks of a new block are those of the rules, on the block's own path from genesis |
| `NodeRules.CheckBlockMeaning` | internal/node/node.go:251-260 | they pass exactly when the block follows the rules given its ancestors and the clock allows its timestamp |
| `NodeRules.GoodBlockVerdict` | internal/node/node.go:227-260 | a block that follows the rules and that the clock allows is refused if and only if its hash has been rejected and is not stored |
| `PlainRules.RulesWrittenOut` | internal/chain/block.go:39-98 | a block follows the rules exactly if every single one of them holds, each written out |
| `PlainRules.ChainWrittenOut` | internal/chain/block.go:39-98 | along a chain heights, links, times, coinbases, sizes, miners, roots, targets and work are as they should |
| `PlainRules.GenesisWrittenOut` | internal/chain/block.go:124-132 | every chain starts with the fields of genesis |
| `PlainRules.VerdictWrittenOut` | internal/node/node.go:227-260 | stored blocks pass, then rejected ones, other geneses and orphans are told apart, and the rest must follow the rules in time |
| `PlainRules.KeptWrittenOut` | internal/node/node.go:262-331 | a block handed to a settled node stays if and only if its history is valid or it does not beat the tip, written out |
| `FullNode.Node.StoreBlock` | internal/node/node.go:262-266 | storing appends to exactly one path and leaves every other path, the accounts and the checkpoints right |
| `FullNode.Node.FindBest` | internal/node/node.go:314-324 | in whatever order the map is walked the scan finds the block that has more work than every other, or the same and the smaller hash |
| `FullNode.Node.SelectTip` | internal/node/node.go:314-331 | tries the best block once: if it is not the tip already, it becomes the tip exactly if its branch replays, and otherwise the tip stays and the first block that fails goes with everything built on it |
| `FullNode.Node.SettleTip` | internal/node/node.go:279-281 | one selection at the end of an insertion, after which only blocks still under way outside it can beat the tip |
| `NodeRules.FailedSwitchSettles` | internal/node/node.go:314-331 | a failed switch needs no second try: what still beats the tip is an ancestor whose insertion is not finished |
| `NodeRules.SelectionKeeps` | internal/node/node.go:262-331 | after the selection that follows it, a block added to a settled tree is in it if and only if its history is valid or it does not beat the tip |
| `NodeRules.AfterSelect` | internal/node/node.go:314-331 | selection loses only state-invalid blocks and never worsens the tip |
| `FullNode.Node.SwitchChain` | internal/node/node.go:333-402 | on each of its three routes a switch succeeds exactly if the branch replays from genesis; otherwise the tip stays and exactly the first block that fails and its descendants are removed and marked |
| `FullNode.Node.SwitchFresh` | internal/node/node.go:334-343 | the first selection replays the whole path from nothing |
| `FullNode.Node.ExtendTip` | internal/node/node.go:345-362 | the one-block fast path leaves the accounts a full replay would, checkpoints every hundredth height, and keeps of the mempool what still applies greedily |
| `FullNode.Node.CommitExtension` | internal/node/node.go:351-359 | height index, accounts, checkpoint, tip and mempool move together |
| `FullNode.Node.Reorg` | internal/node/node.go:364-401 | replay from the deepest checkpoint gives the accounts of a replay from genesis, and the mempool is rebuilt as if from the true deepest common ancestor |
| `FullNode.Node.ReplayTail` | internal/node/node.go:404-418 | replays the rest of a path over its beginning, leaving checkpoints at exactly the hundredth heights; it fails exactly if the path's end is state-invalid, and then the first block at which replay fails is removed and marked with exactly its subtree |
| `FullNode.Node.Base` | internal/node/node.go:380-387 | checkpoint and tail fit together: the accounts are the replay of exactly the part of the path not in the tail |
| `FullNode.Node.BaseState` | internal/node/node.go:420-432 | a fresh copy of the deepest checkpoint on the path, or nothing |
| `NodeRules.CheckpointCovers` | internal/node/node.go:420-432 | a checkpoint met on a path holds the replay of the path up to it |
| `PlainRules.DeepestCheckpoint` | internal/node/node.go:420-432 | nothing beyond the checkpoint used is one |
| `FullNode.Node.CheckpointedHeights` | internal/node/node.go:404-418 | replay takes checkpoints at the positive multiples of a hundred |
| `FullNode.Node.TailAfter` | internal/node/node.go:585-593 | the entries from a height on |
| `NodeRules.FromHeightIsSuffix` | internal/node/node.go:585-593 | on a path from genesis those are exactly its end |
| `FullNode.Node.FindFork` | internal/node/node.go:370-376 | the first entry of the new path that is also on the old one, if any is |
| `FullNode.Node.ForkOf` | internal/node/node.go:366-379 | in the node that is always genesis |
| `FullNode.Node.CollectRolledBack` | internal/node/node.go:393-398 | the abandoned blocks' transactions, newest block first |
| `NodeRules.GenesisForkIsFine` | internal/node/node.go:370-398 | rolling back to genesis rebuilds the same mempool as rolling back to the last common block |
| `FullNode.Node.CommitChain` | internal/node/node.go:434-451 | installs a replayed chain: index exactly the path, checkpoints only on it, mempool rebuilt |
| `FullNode.Node.IndexHeights` | internal/node/node.go:437-441 | the height index holds the path's block at each of its heights and nothing else |
| `FullNode.Node.PruneCheckpoints` | internal/node/node.go:442-446 | exactly the checkpoints off the path go |
| `FullNode.Node.RejectInvalid` | internal/node/node.go:348-349 | rejecting a state-invalid block removes and marks exactly it and its descendants and never touches the active chain, its accounts or a checkpoint |
| `FullNode.Node.RejectSubtree` | internal/node/node.go:547-557 | removes and marks exactly the block and its descendants, though it walks a tree it is taking apart |
| `Subtree.RemoveNextChild` | internal/node/node.go:549-555 | the part of a child's subtree met half way through the removal is the whole of it |
| `Subtree.BelowIsOnPath` | internal/node/node.go:547-567 | the descendants of a block are the blocks with it on their path to genesis |
| `NodeRules.RejectEvolves` | internal/node/node.go:547-557 | rejecting a state-invalid block with its subtree loses only state-invalid blocks and keeps the tree well formed |
| `NodeRules.InsertEvolves` | internal/node/node.go:262-266 | storing a rule-abiding block keeps the tree parent-closed with height one above the parent's and work the sum |
| `NodeRules.ValidSurvives` | internal/node/node.go:227-331 | a state-valid block is never lost by any step, and its history stays the same |
| `FullNode.Node.Children` | internal/node/node.go:559-567 | exactly the stored blocks naming this parent, each once |
| `FullNode.Node.PathToGenesis` | internal/node/node.go:569-577 | the walk over parents yields the block's whole path, tip first |
| `FullNode.Node.Reverse` | internal/node/node.go:579-583 | in-place reversal |
| `Tree.PathShape` | internal/node/node.go:569-577 | position i of a path is the stored ancestor at height i |
| `Tree.WorkIsSum` | internal/node/node.go:262-266 | a stored entry's work is the sum of the difficulties on its path |
| `Tree.WorkGrows` | internal/node/node.go:262-266 | every proper ancestor carries strictly less work |
| `Tree.RemoveKeepsTree` | internal/node/node.go:547-557 | removing a set closed under children leaves a well-formed tree with unchanged paths |
| `FullNode.Node.Anchor` | internal/node/node.go:213-225 | the walk back never runs out and finds the ancestor one interval below the new block, so a block's difficulty depends on its ancestors alone |
| `NodeRules.AnchorExists` | internal/node/node.go:213-225 | at a retarget height the path is long enough for the walk |
| `FullNode.Node.RevalidateMempool` | internal/node/node.go:473-492 | keeps exactly the greedy valid subsequence, in order, and caches its result |
| `FullNode.Node.DropConfirmed` | internal/node/node.go:453-466 | the mempool becomes the greedy valid subsequence of what the new block did not confirm |
| `PlainRules.TakenOut` | internal/node/node.go:453-466 | exactly the entries under the ids of the block's transactions are taken out |
| `FullNode.Node.RebuildMempool` | internal/node/node.go:494-545 | the mempool becomes the greedy valid subsequence, in stable time order, of the unconfirmed candidates; times in it never decrease |
| `ReorgPool.OldestFirst` | internal/node/node.go:520-530 | candidates are tried oldest first, those of one time as they were collected |
| `ReorgPool.MayStayMeaning` | internal/node/node.go:495-530 | a candidate may stay if it is no coinbase, verifies, is not confirmed, and no earlier one has its id |
| `ReorgPool.EachInTurn` | internal/node/node.go:523-545 | each candidate tried is kept exactly if it applies after all those kept before it |
| `ReorgPool.NewestBlockFirst` | internal/node/node.go:393-398 | rolled-back transactions are collected newest block first and in their own order within a block |
| `ReorgPool.SenderSurvives` | internal/node/node.go:494-545 | a sender who can pay for all its candidates keeps all of them if and only if, in the order tried, they carry its next nonces |
| `ReorgPool.RisingTimesSurvive` | internal/node/node.go:494-545 | in particular none of a sender's payments is lost whose times rise with their nonces, in whichever order they were collected |
| `Assumptions.TiedPaymentLost` | internal/node/node.go:393-398 | two payments of one time mined in two blocks: after both are rolled back only the first is kept, though one after the other both apply |
| `FullNode.Node.CollectConfirmed` | internal/node/node.go:513-518 | the ids of every transaction on the active chain |
| `FullNode.Node.CollectCandidates` | internal/node/node.go:495-511 | pending then rolled-back transactions, coinbases out, first occurrence of each id |
| `Mempool.FilterDoesNotMatter` | internal/node/node.go:513-530 | the rebuilt mempool is the same without the confirmed filter, because confirmed nonces are used up, as long as no sender has more than 2^64 transactions in all |
| `Mempool.ForkDoesNotMatter` | internal/node/node.go:393-398 | rolling back shared blocks as well changes nothing |
| `StableSort.SortSorted` | internal/node/node.go:520-522 | sorting orders by the comparison |
| `StableSort.SortStable` | internal/node/node.go:520-522 | sorting leaves every class of ties in its old order |
| `StableSort.FilterSort` | internal/node/node.go:520-530 | dropping elements before or after sorting is the same |
| `FullNode.Node.PendingState` | internal/node/node.go:595-610 | hands out the cached accounts when the cache is clean and the accounts after the mempool otherwise, and leaves the cache clean; it is the accounts after the mempool exactly if what was cached was |
| `FullNode.Node.ComputePending` | internal/node/node.go:599-609 | computed afresh it is the accounts after every pending transaction, in order |
| `FullNode.Node.AddTx` | internal/node/node.go:619-652 | a transaction not seen before enters exactly when it verifies, applies after everything pending and the pool is not full; it goes last, and pool order, pool table and seen set are stated exactly; it is refused for a full pool exactly when it verifies and applies to the cached accounts with the pool at its cap, and a cache that was right is right afterwards if and only if that did not happen |
| `NodeRules.PoolGrows` | internal/node/node.go:619-641 | even after the seen set is wiped an admitted transaction's id is new, so order and table stay in step |
| `FullNode.Node.NothingPendingConfirmed` | internal/node/node.go:453-545 | no mempool transaction is confirmed on the active chain above genesis, unless its sender has more than 2^64 transactions, confirmed and pending |
| `Mempool.PoolUnconfirmed` | internal/node/node.go:453-545 | a pool that applies on top of a chain holds nothing the chain confirmed above genesis, unless the sender has more than 2^64 transactions |
| `FullNode.Node.BuildCandidate` | internal/node/node.go:682-736 | the candidate is the specified one: fee order, greedy selection, cut to size, coinbase of reward plus fees |
| `FullNode.Node.SelectTxs` | internal/node/node.go:691-715 | the chosen transactions are the specified selection: greedy over the pool in stable fee order, cut to the block's room |
| `Mining.ChosenInFeeOrder` | internal/node/node.go:691-715 | the selection is of pending transactions, higher fees first and older first among equal fees, drawn from an order that leaves those of equal fee and time as they came |
| `Mining.ChosenFillsRoom` | internal/node/node.go:705-714 | they are the first of those that apply in fee order, as many as there is room for; if all apply and fit, all are chosen |
| `Mining.CandidateWrittenOut` | internal/node/node.go:682-736 | the candidate's time is the clock's reading if that is after the tip's and else one after the tip's, and its miner is paid |
| `Mining.ChosenApply` | internal/node/node.go:705-718 | sorted by fee, thinned and cut, the selection still applies in sequence |
| `Mining.CandidateApplies` | internal/node/node.go:682-736 | whatever is pending, the candidate's state is valid on the accounts it was built on |
| `Mining.CandidateFollowsRules` | internal/node/node.go:682-736 | with a nonce that meets its target the candidate passes every check but the clock's |
| `Mining.CandidateAccepted` | internal/node/node.go:682-749 | a good solution of a candidate built on any stored state-valid block from any verified transactions is refused only if its hash has been rejected, clock check included, and its state is valid |
| `FullNode.Node.SubmitSolution` | internal/node/node.go:738-749 | such a solution is refused exactly if its hash has been rejected; else it is in the tree and the tip is it or better |
| `Mining.CandidateOnTime` | internal/node/node.go:718-736 | a candidate built before it is submitted is not too far ahead of the clock unless the tip already was |
| `FullNode.Node.MineRound` | internal/node/node.go:682-749 | no stall: whatever blocks, transactions and payments come in between building and submitting, and wherever the tip goes, the solution is refused exactly if its hash was rejected meanwhile; else it is in the tree and the tip is it or better |
| `AccountState.State.Clone` | internal/state/state.go:25-31 | a separate state with the same accounts |
| `AccountState.State.Credit` | internal/state/state.go:60-71 | adds to one balance, or reports the overflow |
| `AccountState.State.ApplyTx` | internal/state/state.go:73-93 | nonce, overflow and funds checks, then debit and credit; a refused transaction leaves at most an empty record |
| `Balances.TxApplies` | internal/state/state.go:73-92 | a transaction applies exactly if it is no coinbase, carries the next nonce, is covered, and the recipient has room |
| `Balances.TxBalances` | internal/state/state.go:73-92 | the sender loses amount and fee, the recipient gains the amount, a payment to oneself costs the fee, nobody else notices, and only the sender's nonce moves |
| `Balances.TxRefusedFor` | internal/state/state.go:73-92 | what a refusal names is the first of the checks that failed |
| `AccountState.State.ValidateTx` | internal/state/state.go:95-109 | passes exactly when the transaction verifies, its nonce is next and the wrapped sum is covered; leaves at most an empty record |
| `AccountState.State.ApplyBlock` | internal/state/state.go:111-138 | transactions first, then a coinbase of exactly reward plus fees; the error is the first one met, and the accounts left are those after the transactions before it with at most an empty record |
| `Balances.BlockApplies` | internal/state/state.go:111-138 | a block applies exactly if its coinbase verifies and pays reward plus all fees, and the others verify and apply in order before it |
| `Balances.BlockBalances` | internal/state/state.go:111-138 | over a block everybody loses what they spent and gains what they received, and the coinbase's recipient gains reward and fees |
| `Balances.ChainBalances` | internal/state/state.go:73-138 | on every chain each balance is what its blocks paid the address for mining and what it received, less what it spent |
| `Balances.ChainSigned` | internal/state/state.go:111-127 | every transaction on a chain that replays bears a good signature under a key whose address is its sender |
| `AccountRecords.Table.Clone` | internal/state/state.go:25-31 | a deep copy: same contents, every record new |
| `AccountRecords.Table.ApplyTx` | internal/state/state.go:73-93 | updated in place through shared references, self-payments included, the records change as the rule on maps says; a refusal leaves at most an empty record |
| `AccountRecords.Table.TryOnClone` | internal/state/state.go:25-93 | nothing applied to a clone reaches the original |
| `Conservation.TxConserves` | internal/state/state.go:73-93 | a transaction takes its fee out of the total and nothing else, and cannot panic |
| `Conservation.BlockConserves` | internal/state/state.go:111-138 | a block adds exactly its reward to the total; neither the fee sum nor reward plus fees can wrap |
| `Conservation.ReplayConserves` | internal/state/state.go:60-138 | on every chain the balances add up to the rewards of heights 1 to the tip, below 2^64, and nothing panics |
| `Conservation.SupplyBound` | internal/chain/params.go:48-54 | at every height the supply is at most twice the first era's payout less the genesis reward |
| `SupplyCap.ErasPaid` | internal/chain/params.go:48-54 | the exact sum of the schedule up to any height |
| `SupplyCap.DocumentedCap` | docs/PROTOCOL.md:94-96 | with the network's parameters the supply never exceeds the documented cap less the genesis reward, and is exactly that from height 272,159 on |
| `SupplyCap.RewardMeaning` | internal/chain/params.go:48-54 | in era k the reward is the initial one over 2^k rounded down, and nothing from the 64th halving on |
| `Nonces.ReplayProtection` | internal/state/state.go:73-92 | along any valid chain each sender's transactions carry nonces 0, 1, 2, ... in order if and only if there are at most 2^64, and the account nonce is their count if and only if there are fewer |
| `Nonces.ConfirmedIsStale` | internal/state/state.go:73-92 | a confirmed transaction of a sender with fewer than 2^64 has a nonce below the account's, so it cannot be applied again |
| `Nonces.ReplayOnlyAfterWrap` | internal/state/state.go:73-92 | some confirmed transaction carries its sender's next nonce exactly if the sender has been through all 2^64 |
| `Nonces.ChainNonces` | internal/state/state.go:73-127 | the same for chains of any length, modulo 2^64 |
| `Chain.ValidateBasicMeaning` | internal/chain/block.go:51-85 | the structural checks pass exactly when the block is well formed on its parent and its time is not too far ahead |
| `Chain.VerifyMeaning` | internal/chain/tx.go:48-83 | a payment verifies exactly if its addresses are valid, it is not empty, and its key is of 32 octets, hashes to the sender and signed it; a coinbase exactly if it is unsigned, free and pays a valid address |
| `FullNode.Node.Locator` | internal/node/node.go:930-952 | the walk yields the specified locator of the branch, and just genesis without one |
| `Sync.LocatorOf` | internal/node/node.go:923-952 | a locator starts at its anchor and ends at genesis |
| `Sync.LocatorWrittenOut` | internal/node/node.go:930-952 | from the branch's end ten blocks back one by one, then by gaps of 2, 4, 8, ..., to genesis |
| `Sync.Heights` | internal/node/node.go:930-952 | the heights it lists strictly descend |
| `Sync.LocatorShort` | internal/node/node.go:930-952 | at most twelve entries more than the logarithm of the branch's length |
| `Sync.MatchWithinTwice` | internal/node/node.go:930-952 | the entry matched is at most twice as deep as the last shared block |
| `FullNode.Node.BlocksAfterLocator` | internal/node/node.go:1005-1035 | the answer is the specified run of the active chain |
| `Sync.AnswerConnects` | internal/node/node.go:1005-1035 | an answer is a contiguous run of the responder's chain starting just after a shared block at most twice as deep as the last shared one, and is not empty while there is more |
| `Sync.BatchIsRun` | internal/node/node.go:1020-1034 | within the count and transaction limits a batch is a contiguous run with at least one block |
| `Sync.BatchReaches` | internal/node/node.go:1020-1034 | a batch reaches past a height exactly if there is more chain, the count allows it and the transactions before that height stay within the budget |
| `Sync.ShallowForkProgresses` | internal/node/node.go:1005-1066 | the first batch brings something new whenever the requester's own blocks above the fork and the responder's it already holds are together fewer than a batch, and the responder's blocks from as far below the fork up to there hold fewer transactions than a batch may |
| `Sync.ContinuesFromAnchor` | internal/node/node.go:1005-1035 | a locator anchored on the responder's chain is answered from right above the anchor |
| `Sync.NextAccepted` | internal/node/node.go:1079-1105 | the next block of a chain held so far passes every check here too |
| `FullNode.Node.AcceptRemote` | internal/node/node.go:1079-1105 | accepted exactly if new and passing the checks; an orphan alone triggers a request, which carries the locator of the active chain; every buffered orphan's fate is accounted for |
| `FullNode.Node.OnBlocks` | internal/node/node.go:1037-1066 | after a run of a servable chain all of it is held and the next request is anchored at its last block; nothing new means no request |
| `FullNode.Node.SyncRound` | internal/node/node.go:1005-1066 | a round brings something new exactly if the answer reaches past what is held; then all of the answer is held, the next request is anchored at its end and the missing part strictly shrinks |
| `FullNode.Node.SyncWith` | internal/node/node.go:1005-1105 | the exchange progresses exactly if the first answer reaches past what is held, and then ends with the whole chain held and a tip at least as good as its end |
| `FullNode.Node.FirstConnects` | internal/node/node.go:918-928 | the first answer starts no later than just above what is held |
| `FullNode.Node.OwnChainServable` | internal/node/node.go:1005-1035 | the active chain of every settled node is one the sync promise covers |
| `MidstateHash.CompressInPlace` | internal/miner/sha256mid.go:40-71 | the in-place rounds compute the compression function of FIPS 180-4, section 6.2.2 |
| `FipsConstants.RoundConstants` | internal/miner/sha256mid.go:22-31 | each round constant is 32 bits of the fractional part of the cube root of its prime |
| `FipsConstants.InitialValue` | internal/miner/sha256mid.go:33-36 | each word of the initial value is 32 bits of the fractional part of the square root of its prime |
| `FipsExample.DigestOfAbc` | internal/miner/sha256mid.go:40-71 | the digest of "abc" is the published one, from padding to the last addition |
| `MidstateHash.BuildMidstate` | internal/miner/sha256mid.go:88-117 | accepts exactly the headers whose last block has room on a word boundary, and computes their midstate |
| `MidstateHash.Finish` | internal/miner/sha256mid.go:128-144 | the octets of one compression of the template with the nonce filled in |
| `MidstateHash.ReversedWord` | internal/miner/sha256mid.go:121-123 | a little-endian nonce word read big-endian is its byte reversal |
| `MidstateHash.MidstateIsDigest` | internal/miner/sha256mid.go:88-144 | for every accepted header and every nonce, finishing the midstate equals SHA-256 of the header with its last eight octets replaced |
| `MidstateHash.KernelHash` | internal/miner/gpu_opencl.go:62-90 | the kernel's hash is the same compression |
| `Kernel.FortyOctetAddressFits` | internal/chain/block.go:25-36 | every header with a forty-octet miner address has a midstate |
| `Kernel.FinishHashesHeader` | internal/miner/sha256mid.go:128-144 | finishing is SHA-256 of that very block header with the nonce in it |
| `Kernel.KernelLess` | internal/miner/gpu_opencl.go:92-96 | the loop with its early exits compares words from the front |
| `Kernel.KernelAgrees` | internal/miner/sha256mid.go:149-157 | comparing digest and target words is comparing them as 256-bit numbers |
| `Kernel.KernelTrial` | internal/miner/gpu_opencl.go:62-97 | one trial: template, nonce words, hash, comparison |
| `Kernel.KernelHitsMeetTarget` | internal/chain/block.go:41-49 | for every block with a forty-octet miner address the kernel hits on a nonce exactly if the block with it meets its target |
| `Targets.HexStringOrder` | internal/node/node.go:318-323 | comparing hex strings of digests is comparing the digests as numbers |
| `Targets.LexIsNumeric` | internal/miner/gpu_opencl.go:92-96 | the first differing digit decides the order of two numbers of equal length |
| `Targets.DifficultyOne` | internal/chain/params.go:56-65 | at difficulty 1 every digest passes but the all-ones one |
| `Targets.TargetMeaning` | internal/chain/params.go:56-65 | a digest meets a difficulty exactly if the number after it times the difficulty is below 2^256 |
| `Targets.WorkMeaning` | internal/chain/block.go:39-49 | so does a block's hash, for a difficulty that is not 0 |
| `Targets.HexWrittenOut` | internal/chain/hash.go:13 | the hex string of a digest has two lower-case digits for each octet, most significant first |
| `RetargetRule.RetargetMeaning` | internal/chain/params.go:69-99 | with the expected time the int64 product of target block time and interval length, or 1 where that is not positive, the result is max(1, min(2^64-1, clamp(d*expected/actual, d/4, 4d))) if and only if the fourfold elapsed time is not mistaken for a short one; mistaken, it is four times d |
| `RetargetRule.ExpectedIs` | internal/chain/params.go:76-79 | the expected time is the target time of a block times the blocks of an interval, in 64 bits |
| `RetargetRule.IdealMeaning` | internal/chain/params.go:80-92 | four times too fast multiplies by four, four times too slow divides by four, and in between new is to old as expected to elapsed |
| `RetargetRule.SafeElapsed` | internal/chain/params.go:69-99 | it always is while the fourfold elapsed time fits in 63 bits |
| `RetargetRule.LongPauseMistaken` | internal/chain/params.go:69-99 | with the default parameters a block of difficulty 100 right below a retarget height, 2^61 milliseconds after the anchor, is followed by difficulty 400 |
| `RetargetRule.DifficultyAlongChain` | internal/node/node.go:213-225 | along any chain a block at a multiple of the interval is retargeted over the time from the block one interval below it to its parent; every other block has its parent's difficulty |
| `RetargetRule.RetargetAlongChain` | internal/chain/params.go:69-99 | on a chain whose interval took less than 2^61 milliseconds that retarget is the ideal one for the product of target block time and interval length, over a positive elapsed time; an interval of one block spans no time and always quadruples |
| `RetargetRule.SteadyPace` | internal/chain/params.go:69-99 | an interval that took exactly that product leaves the difficulty as it was |
| `RetargetRule.MonotoneInDifficulty` | internal/chain/params.go:69-99 | a higher difficulty never retargets lower, for every elapsed time, wrapped or not |
| `RetargetRule.AntitoneInElapsed` | internal/chain/params.go:69-99 | a longer interval never retargets higher, through zero and negative times, as long as nothing wraps |
| `Merkle.ComputeRoot` | internal/chain/block.go:100-122 | the nested loops compute the recursive root |
| `Merkle.RootIsTop` | internal/chain/block.go:100-122 | the root is the top of the binary tree whose missing right children are stood in for by the last node |
| `Merkle.SmallRoots` | internal/chain/block.go:100-122 | the roots of one, two and three transactions, spelled out |
| `Merkle.RootBinds` | internal/chain/block.go:100-122 | with an injective pair hash, equally long lists with one root hold the same transactions in the same order |
| `Merkle.RepeatedLast` | internal/chain/block.go:109-112 | repeating the last transaction of an odd list longer than one leaves the root unchanged |
| `Merkle.RootsShared` | internal/chain/block.go:100-122 | two lists have one root exactly if they fill up to the same full tree, transaction by transaction up to what is encoded |
| `BlockTwins.KeyedTwinIsInvalid` | internal/chain/block.go:25-38 | every rule-abiding block without a key on its coinbase has a twin of the same hash that follows the rules and whose state is never valid |
| `BlockTwins.RepeatedTwinIsInvalid` | internal/chain/block.go:100-122 | so has every one with an odd number of transactions above one and room for one more: the last one repeated |
| `BlockTwins.RejectionNamesTwins` | internal/node/node.go:251-260 | a state-valid block and its state-invalid twin go by one hash, and while the parent is stored and the clock allows it the valid one is refused if and only if that hash is rejected |
| `FullNode.Node.TakePromising` | internal/node/node.go:227-331 | a new block that follows the rules in time and would beat the tip is taken without an error, and is then in the tree or rejected just as its state is valid or not |
| `FullNode.Node.TwinFirst` | internal/node/node.go:251-331 | handed such a valid block's twin first, the node takes that, rejects it, and refuses the block as previously rejected |
| `FailingRuns.GoodBlockRefused` | internal/node/node.go:251-331 | the same from genesis with a concrete first block |
| `Codec.Buffer.WriteU64` | internal/chain/codec.go:8-12 | appends eight octets, least significant first |
| `Codec.Buffer.WriteI64` | internal/chain/codec.go:14-18 | appends the two's complement |
| `Codec.Buffer.WriteString` | internal/chain/codec.go:20-25 | appends the length cut to 32 bits and the octets |
| `Codec.Buffer.WriteBytes` | internal/chain/codec.go:27-32 | the same for octets |
| `Codec.EncodeTx` | internal/chain/tx.go:26-39 | writes exactly the transaction's fields, the signature only for the full form |
| `Codec.U64Layout` | internal/chain/codec.go:8-12 | a 64-bit number is written least significant octet first |
| `Codec.UnsignedMeaning` | internal/chain/codec.go:14-18 | a negative number is written with 2^64 added |
| `Codec.PrefixedLayout` | internal/chain/codec.go:20-32 | a string of octets is written behind its length in four octets, least significant first |
| `Codec.TxLayout` | internal/chain/tx.go:26-39 | the bytes of a transaction, field after field |
| `Codec.HeaderLayout` | internal/chain/block.go:25-36 | the bytes of a header, field after field |
| `Codec.EncodeHeader` | internal/chain/block.go:25-36 | writes exactly the header's fields |
| `Codec.FullIsSigningThenSignature` | internal/chain/tx.go:26-39 | the full encoding is the signing bytes followed by the length-prefixed signature |
| `Codec.HeaderShape` | internal/chain/block.go:25-36 | a header is 116 octets and the miner address, and ends in the little-endian nonce |
| `Codec.ReadWrite` | internal/chain/codec.go:8-32 | a reader recovers every field of any record whose lengths are below 2^32 |
| `Codec.WriteRead` | internal/chain/codec.go:8-32 | the reader accepts nothing but what the writers produce |
| `Codec.TxRoundTrip` | internal/chain/tx.go:26-39 | every field of a transaction is recovered, a nil slice as an empty one |
| `Codec.TxCanonical` | internal/chain/tx.go:26-39 | every byte string the transaction decoder accepts is the encoding of what it returns |
| `Codec.TxBytesIdentify` | internal/chain/tx.go:26-43 | two transactions have equal bytes exactly when all fields agree |
| `Codec.SigningBytesIdentify` | internal/chain/tx.go:26-41 | two transactions have equal signing bytes exactly when all fields but the signature agree |
| `Codec.HeaderRoundTrip` | internal/chain/block.go:25-36 | every header field is recovered |
| `Codec.HeaderCanonical` | internal/chain/block.go:25-36 | every byte string the header decoder accepts is the encoding of what it returns |
| `Codec.HeaderBytesIdentify` | internal/chain/block.go:25-38 | two headers have equal bytes exactly when all fields but the transactions agree |
| `Amounts.ParseFormat` | internal/chain/params.go:104-134 | parsing undoes printing for every 64-bit amount |
| `Amounts.FormatMeaning` | internal/chain/params.go:104-107 | an amount is printed as whole coins without a leading zero, a point and exactly eight decimals |
| `Amounts.TrimMeaning` | internal/chain/params.go:109-111 | white space is taken away at both ends and nowhere else |
| `Amounts.DecimalsAreParsed` | internal/chain/params.go:109-134 | every decimal with at most eight decimals is accepted exactly when its value in bluglets fits in 64 bits, and comes back as that value |
| `Amounts.OnlyDecimalsAreParsed` | internal/chain/params.go:109-134 | nothing else is accepted |
| `Assumptions.IdealHashesExist` | internal/chain/block.go:25-38 | there are digests that tell apart all headers, all transactions and all pairs |
| `Assumptions.RulesCanBeMet` | internal/chain/block.go:51-85 | under them some block follows every rule on genesis and payments verify |
| `Assumptions.StateCanBeValid` | internal/state/state.go:111-138 | and paid the right amount it has a valid state |
| `Assumptions.AcceptedThenRejected` | internal/node/node.go:262-282 | a block that pays one too much is accepted on genesis and is not in the tree afterwards |
| `Assumptions.FullPoolSpoilsCache` | internal/node/node.go:631-638 | ten thousand payments make a full mempool that applies; the next one is new, verifies, applies after all of them and changes the accounts |
| `FullNode.Node.Offer` | internal/node/node.go:619-652 | with a cache that is right, a new transaction that verifies and applies is taken below the cap; at the cap it is refused and the cache is spoilt |
| `FailingRuns.OneTooMany` | internal/node/node.go:619-652 | a settled node with nothing pending takes ten thousand payments, refuses the next and then has a cache that is not what its mempool leaves |
| `FailingRuns.BadBlockTaken` | internal/node/node.go:227-282 | from genesis, a first block paying one too much is taken without an error and is rejected afterwards |

## Left out

* Dialing, gossip, the handshake, the HTTP interface, the command line, logging, goroutines and channels.
* JSON messages, block, peer and wallet files: messages are typed values, appending to the store does nothing.
* ed25519, base32 and address checksums: arbitrary functions of their input.
* OpenCL set-up, buffers, the found-flag exchange and back-end benchmarks.
* Tip subscriptions, hash rate, `Info` and `RecentBlocks`, which only read.
* `Send` beyond its reading of the pending state; what it submits goes through `Node.AddTx`.
* Gossip of transactions and `GetMempool`, which hand single transactions to `Node.AddTx`.
* Probability and economics of mining, and the passing of real time.
* Sync after a first batch of only known blocks: the code stops there, exactly when `Node.SyncWith` says.
* Texts of error messages; errors are values naming the check that failed.
* Amount strings are sequences of Unicode characters; byte strings that are not valid UTF-8 are not modelled.
* Slices reversed or rebuilt in place inside one function (`reverse`, the candidate lists) are sequences.
- Tree.Replay: is defined for a positive halving interval, as the program divides by it.
- AccountState.State.ApplyBlock: does not say what an overflowing credit leaves behind, because the program panics there.
- AccountRecords.Table.ApplyTx: is the only rule repeated on records in memory beside Credit; validation and blocks are built from it and are modelled on the map alone.
- Mempool.FilterDoesNotMatter: asks that no sender has more than 2^64 transactions, since account nonces wrap there and a used one comes up again, and that no id on genesis is met again above it.
- Mining.CandidateAccepted: asks for a tip time below the largest 64-bit value and a height below 2^64 - 1, where the next one would wrap, and for a tip that is not itself too far ahead of the clock.
- FullNode.Node.SyncWith: asks that no block of the responder's chain is marked rejected, waits as an orphan or is stored with other transactions under the same hash, and that every one passes the clock check.
- Codec.ReadWrite: is stated for lengths below 2^32, because the length prefix is cut to 32 bits.
- ReorgPool.SenderSurvives: is stated for senders who can pay for all their candidates and have nonces left for them; without that some must be dropped, and `ReorgPool.EachInTurn` says which.
