# A model of a DPoS node's ledger and consensus core

The project models the deterministic core of a Lisk node in Dafny and proves what it keeps over whole runs:
the account tables with their incremental vote tally, rounds and rollback, the transaction pool, the choice
between competing blocks, startup repair, forging, rewards and number codecs.

## How it is built

- **Values.** `Accounts`, `Tally`, `Payouts`, `Ledger` describe accounts, vote weights, rounds and blocks as
  functions on an abstract `Node`; `Acceptance` and `Effects` say in numbers and columns which transactions are let
  through and what they do. One record, `Side`, stands for either half of an account row (confirmed or
  unconfirmed). `History`, `RunAccounts`, `ExactPops`, `TallyErrors` and `Conservation` run such nodes through applied
  and popped blocks.
- **Tables.** `LedgerNodes.LedgerNode` is the node with its tables, updated in place: account rows with key
  lists, `mem_round` rows, the snapshot, reward rows, blocks and the in-memory signature flags. `View()` reads
  the tables as an abstract node and every method is proved to do to the view what the functions say.
- **Pool.** `PoolQueues.Queue` is an array with tombstones and an index. `TransactionPools.TransactionPool` has
  four of them over a ledger; `PoolSteps` says what each operation comes to, `PoolObjects` that entries with one id
  stay one object, `PoolOutcomes` where a transaction ends up.
- **Chain.** `BlockChains.BlockChain` receives, applies, deletes, forges and repairs; `ChainSteps` says what each
  of these comes to, and `ForkChoice` states the fork rules on plain lists of blocks. `ActiveDelegates` says who may
  forge in which slot.
- **System.** `SystemRuns` runs ledger, pool and chain together in small steps, and `SystemActions` shows that what
  the classes do, job by job, is made of those steps; so the results over runs hold of the running node.
  `ConfirmedRuns` is about its confirmed half, `PoolRuns` about its lists.

## Assumptions

- Exception lists are the empty defaults of `config/default/exceptions.js:38-56`.
- Each database transaction is one atomic step, and tasks on the two sequences do not overlap. A failed apply or
  pop leaves only what lives in memory: the flags of `logic/multisignature.js:30`. Each task reads one clock.
- Hashing, signing, and the bytes of transactions and keys are abstract; addresses are injective in the key.
- Checks that look at neither accounts nor chain (schema, signature, version, id, payload hash, a transaction's own
  timestamp) are parameters with any outcome: `Settings.outside`, `Circumstances.receipt` and `block`. So is the test
  of a block and its predecessor in the startup repair. The forger's slot is tested against the vote column.
- Amounts are integers below 10^15, so JavaScript numbers hold them exactly (`logic/transfer.js:191`,
  `helpers/round_changes.js:65-78`).

## Where the code departs from what it is for

- **Stale snapshot.** `logic/round.js:205-222` accepts an empty snapshot as "no transactions during the round",
  even if it was taken in a later round. The block counters then come back wrong in every case, and the votes unless
  the voters hold what they held at the snapshot (`ExactPops.PopExactIff`, `StaleTallies.StaleTallyIff`, `StalePops`).
  The results about votes, rows and counters over runs ask that no pop is of this kind (`NoStalePop`), and
  `TallyErrors` says how far off the tally is in every other run; those about balances, keys, fees and rewards hold
  over every run.
- **Snapshot contents.** `db/sql/rounds/restore_votes_snapshot.sql:22-25` also restores `producedBlocks`, after
  the counter was already taken down by one; the snapshot was taken before the block, so the result is right.
- **Round 1.** The genesis block writes a reward row for round 1, and popping block 101 deletes it with the others;
  no other pop loses rows of an earlier block (`RewardRowRuns.RewardRowsBackIff`, `FirstRoundLosesRow`).
- **Burned amounts.** Vote and multisignature transactions may carry an amount nobody is credited with
  (`Conservation.AmountsPass`).
- **Supply.** `calcSupply` throws its additions away (`logic/block_reward.js:130`).
- **Sibling at a milestone.** A competing block is first checked against the reward of the *next* height, so at
  the last height before a new milestone no sibling is ever accepted
  (`ChainSteps.ReplacementNeedsSameReward`, `BlockRewards.SameRewardIff`).
- **Last ids.** They are loaded newest first but dropped as if oldest first (`LastIds.WindowRightIff`).
- **Failed replacement.** The head is deleted before the winning sibling is fully checked, so a receipt can leave a
  shorter chain (`ChainSteps.ReceiptShortensIff`, `SiblingAtMilestoneCostsHead`).
- **Pop under the pool.** A pop leaves the pool alone. `u_balance` stays in step, but a pending vote list that shares
  a key with one of the popped block breaks the unconfirmed votes (`PoolPops.PopUnderPoolIff`, `SharedVotes`).
- **Flags.** A block that fails to apply leaves `unconfirmedSignatures` flags set (`FailedBlocks.FailedBlockFlags`,
  `OverdrawnBlock`).
- **Queues.** A multisignature transaction that fails to apply stays in its queue; if the sender's status changed
  since it was queued, promotion leaves its id in two lists (`PoolLists.PromotedKeeps`). Both hold the same object,
  so it never expires from one before the other (`PoolLists.OneObjectStrays`, `SystemActions.NodeInStep`).
- **Repair.** `validateOwnChain` may plan to delete across two round ends, which the one snapshot allows only when it
  is empty; wherever the head is, deletions stop at the second (`Startup.RepairIsBounded`).

## Model

| member | source | states |
|---|---|---|
| History.TallyAlwaysRight | logic/account.js:502-589 | after any run of applied and popped blocks, a delegate's vote plus its pending mem_round rows is the sum of its voters' balances (runs without a stale pop) |
| StaleTallies.StaleTallyIff | logic/round.js:205-222 | after the first stale pop of a run the tally of a delegate is right if and only if what its voters held at the block of the snapshot, less what was not counted yet, is what they hold now |
| StaleTallies.StaleTallyFromGenesis | logic/round.js:205-222 | from an actual genesis block: if and only if the voters hold now what they held then |
| TallyErrors.ErrorIs | logic/account.js:502-589 | in every state of every run, whatever was popped, votes plus rows are the voters' balances plus the error, which is how far they are from those of replaying the chain |
| TallyErrors.BlockCarries | modules/blocks/chain.js:502-540 | a block of any run keeps the error of a delegate, but for what registering it throws away and for rows of the next round that a landing finds |
| TallyErrors.PopCarries | modules/blocks/chain.js:709-733 | so does a pop inside a round, but for what taking its registration back throws away |
| TallyErrors.SnapshotSaves | modules/rounds.js:225-244 | a snapshot is taken with the error of the moment |
| TallyErrors.RestoreCarries | logic/round.js:182-250 | any pop at the end of a round, in any run, leaves a delegate the snapshot knows the error of the snapshot plus what its voters held more then than now, rows of other rounds aside; and that error alone when the snapshot is of the block gone back to |
| TallyErrors.StaleErrorStays | logic/round.js:205-222 | so after the first stale pop of a run the tally of a registered delegate stays wrong by the same amount, what its voters held more at the snapshot than after the pop, through all later blocks, round ends and pops inside a round |
| RunAccounts.AccountsAreReplayed | modules/blocks/chain.js:709-733 | over every run, whatever is popped and whatever snapshot it is handed: balances, votes cast, keys, fees and rewards are those of replaying the chain the run ends with, and both halves of every account agree |
| History.RunIsReplay | modules/blocks/chain.js:709-733 | the vote column, pending rows and block counters too, and every invariant with them, when no pop was handed a stale snapshot |
| PopBlocks.PopInsideRound | modules/blocks/chain.js:709-733 | popping a block just applied inside a round gives back all books, flags, reward rows and the chain exactly |
| PopBlocks.PopAtRoundEnd | logic/round.js:402-433 | the same at the end of a round, with the payouts taken back and the snapshot restored; only the reward rows of that round number are gone |
| ExactPops.PopExactIff | logic/round.js:205-222 | a pop of a run whose earlier pops were exact gives the books of the chain without its last block if and only if it is not at a round end with an empty snapshot from above the head |
| ExactPops.StaleCounters | db/sql/rounds/restore_votes_snapshot.sql:22-25 | such a pop always goes through, and always leaves the forger of the popped block the block count of the later snapshot |
| StalePops.StalePopLeavesWrongBooks | logic/round.js:205-222 | for every genesis with a delegate voting for itself: 200 linked empty blocks in that delegate's slots and 101 deletions, every pop but the last exact; the last counts 200 forged blocks where 99 are in the chain, and leaves too many votes once blocks bring rewards |
| StalePops.RunIsNotReplay | logic/round.js:195-222 | such a run from an actual genesis block, with any reward settings and hash, each block of which passes every check of the node it is given to, the test of its forger's slot included |
| StaleTallies.StaleVotesAre | db/sql/rounds/restore_votes_snapshot.sql:22-25 | such a pop leaves every account the votes it had at the block of the later snapshot, and no rows of the round it goes back to |
| GenesisBlocks.GenesisHolds | modules/blocks/chain.js:214-271 | an applied genesis block of transfers, registrations and votes starts every run in a settled state with a right tally |
| GenesisBlocks.GenesisNonNegative | modules/blocks/chain.js:214-271 | nobody but the genesis sender is in debt after the genesis block |
| Conservation.CoinsConserved | modules/rounds.js:388-425 | over every run: balances plus fees of the open round plus burned amounts equal the initial coins plus the rewards of finished rounds; so coins are conserved if and only if no vote or multisignature transaction in the chain carries an amount |
| Conservation.AmountsPass | logic/vote.js:145-215 | every check lets a vote or multisignature transaction carry an amount its sender can pay, and that amount is burned |
| Conservation.NoNegativeBalances | logic/transaction.js:311-328 | over every run no account but the genesis sender has a negative confirmed balance between blocks |
| Conservation.NoPopGoesNegative | modules/blocks/chain.js:709-733 | nor in any state inside any pop of any run, where payments are undone before the payouts are taken back |
| FailedBlocks.AppliesIff | modules/blocks/chain.js:336-427 | a block applies if and only if each transaction passes its unconfirmed check after the unconfirmed halves of those before it, and its confirmed check after those before it done whole |
| FailedBlocks.FailsIff | modules/blocks/chain.js:336-427 | so a block that fails has a first refusal, of one of the two kinds |
| FailedBlocks.FailedBlockFlags | modules/blocks/chain.js:336-427 | refused first at transaction k, it changes nothing but the flags: unconfirmed, those of the group registrations before k stay; confirmed, those from k on |
| FailedBlocks.OverdrawnBlock | logic/multisignature.js:428-453 | a verified block that does so: its group registration is refused from then on |
| RewardRowRuns.RewardRowsBackIff | logic/round.js:235-247 | popping the last block of a round gives the recorded rewards back if and only if none of that round were there before, which in every run holds from round 2 on |
| RewardRowRuns.RunBehind | logic/round.js:317-380 | in every run the recorded rewards are those of finished rounds, and the genesis block's row |
| RewardRowRuns.FirstRoundLosesRow | logic/round.js:235-247 | from an actual genesis block, 100 accepted blocks later: popping the last block of round 1 loses the genesis block's row |
| Tally.TransactionTally | logic/account.js:504-589 | the mem_round rows of one transaction move each delegate's tally by exactly what its voters' balances move, self-payments and votes included, and no other round |
| Tally.PendingInverse | db/sql/rounds/insert_round_information_with_delegate.sql:22-27 | the rows written by undoing a transaction cancel those it wrote, at whatever balance they were written |
| Invariants.PairInverse | modules/blocks/chain.js:581-654 | undoing a transaction right after applying it restores accounts, votes and pending rows |
| Invariants.PairKeepsSettled | logic/transaction.js:815-889 | a whole transaction keeps votes sane, unregistered accounts without votes, and pending rows on registered delegates of the current round |
| Invariants.PairKeepsTallied | logic/transaction.js:815-889 | and the tally |
| Accounts.MidBlock | modules/blocks/chain.js:336-427 | at every point inside a block, unconfirmed effects of all transactions and confirmed ones of the first k are the first k whole transactions plus the unconfirmed rest |
| Accounts.UndoPairInverse | modules/blocks/chain.js:709-733 | the accounts half of undo after apply, for a row the checks let through |
| BlockRules.VerifiedRunOk | modules/blocks/verify.js:766-775 | verification against the accounts before the block, with the checks during apply, is enough for every transaction at its own point in the block |
| Landing.BlockKeeps | modules/blocks/chain.js:502-540 | a verified block keeps all invariants, at the end of a round too |
| Landing.LandKeepsTallied | logic/round.js:402-411 | paying a round out and landing it keeps the tally, when a paid delegate votes for itself or for others |
| History.PopIsReplay | logic/round.js:423-433 | a pop whose snapshot is not stale gives the books of the chain without its last block |
| History.SavedIsPrevious | modules/rounds.js:225-244 | an accepted snapshot that is not a stale empty one was taken exactly one block before the end of this round |
| Acceptance.SignatureThreshold | logic/multisignature.js:586-601 | at the threshold: a transfer a group account can pay is confirmed if and only if it has as many signatures as the group asks for; without a group it needs none; a group is registered with exactly one per key (logic/transfer.js:305-313) |
| Acceptance.VerifiedIff | logic/transaction.js:403-708 | verify passes exactly the transactions that meet these numbers: the five fees, amounts, 1 to 33 changes of votes, groups of min 1 to 15 and lifetime 1 to 72 signed by other keys than the sender's |
| Acceptance.ConfirmedIff | logic/transaction.js:815-889 | the confirmed half is accepted exactly from who can pay, has the signatures needed, and still meets the type's condition on the confirmed columns |
| Acceptance.UnconfirmedIff | logic/transaction.js:966-1026 | the unconfirmed half on the unconfirmed columns, voted delegates and second keys on the confirmed ones too |
| Effects.UnconfirmedEffect | logic/transaction.js:966-1026 | column by column: what the unconfirmed half of each type takes and writes, and that nothing else changes |
| Effects.ConfirmedEffect | logic/transaction.js:815-889 | the same of the confirmed half: amount and fee, the recipient's credit in both halves, votes, names, second keys, groups and flags |
| Voting.CheckDelegatesIff | modules/delegates.js:358-517 | the vote checks pass if and only if: signed changes on distinct registered keys, added keys new, removed keys present, at most 101 votes after |
| Voting.AcceptedVotes | logic/vote.js:67-110 | an accepted list keeps votes duplicate-free, at most 101 and on registered keys, and the reversed list gives the original votes back |
| Diff.UndoRestoresIff | helpers/diff.js:31-38 | a change list followed by its reverse restores the table if and only if it fitted the table |
| Diff.ReverseInvolutive | helpers/diff.js:31-38 | flipping the signs twice gives the list back |
| Diff.Reverse | helpers/diff.js:31-38 | the reversed list, without touching the given one |
| Payouts.PayoutTotals | logic/round.js:252-391 | rewards are paid in full; fees exactly, if and only if the round has 101 forgers or fewer than 101 units of fees |
| Effects.RoundPays | logic/round.js:252-391 | at the end of a round each account gets, for every block of the 101 it forged, the reward and a share in 101 of the round's fees; the forger of the last one also what does not divide |
| Effects.RoundRecords | logic/round.js:306-380 | and 101 records are kept, one per block in its order, with the forger, reward, share and time |
| Payouts.RewardRowsMatchPayouts | logic/round.js:306-380 | the recorded round rewards add up to what was credited |
| Payouts.BackwardUndoesForward | logic/round.js:252-391 | the backward payouts restore every account, for any forgers (repeated ones too), rewards and fees |
| Payouts.PayAllTally | logic/round.js:252-391 | payouts add pending rows worth exactly what the voters' sum moves |
| RoundChanging.RoundChanges.At | helpers/round_changes.js:64-80 | equal floor share, remainder below 101, share times 101 plus remainder is the round's fees |
| RoundChanging.ReverseInPlace | logic/round.js:260-268 | the array backwards, in place |
| LedgerNodes.LedgerNode.Merge | logic/account.js:465-607 | all fields of a diff, in order |
| Steps.UStepIs | logic/transaction.js:966-1026 | the writes of applyUnconfirmed and its type are one abstract step, allowed by the same checks |
| Steps.CStepIs | logic/transaction.js:815-889 | the writes of applyConfirmed and its type are one abstract step |
| Steps.UndoStepIs | logic/transaction.js:899-1076 | the writes of both undos are one abstract step |
| LedgerNodes.LedgerNode.ApplyUnconfirmedType | logic/multisignature.js:428-453 | the unconfirmed half of the five types (also logic/vote.js, delegate.js, signature.js), refused exactly when the type's checks say so, and then without trace |
| LedgerNodes.LedgerNode.UndoUnconfirmedType | logic/multisignature.js:466-486 | and its undo |
| LedgerNodes.LedgerNode.ApplyConfirmedType | logic/transfer.js:134-161 | the confirmed half of the five types |
| LedgerNodes.LedgerNode.UndoConfirmedType | logic/transfer.js:174-201 | and its undo |
| LedgerNodes.LedgerNode.ApplyUnconfirmed | logic/transaction.js:966-1026 | cost taken first and given back when the type refuses: accepted exactly on UAllowed, otherwise no change |
| LedgerNodes.LedgerNode.UndoUnconfirmed | logic/transaction.js:1038-1076 | cost returned and the type undone |
| LedgerNodes.LedgerNode.ApplyConfirmed | logic/transaction.js:815-889 | accepted exactly on CAllowed; a transfer or a group registration exactly with pay and the signatures its sender's status asks for; refused, it leaves at most cancelling mem_round rows |
| LedgerNodes.LedgerNode.UndoConfirmed | logic/transaction.js:899-951 | confirmed cost returned with its rows, and the type undone |
| LedgerNodes.LedgerNode.ApplyRound | logic/round.js:252-391 | forward and backward payouts in the order of the (reversed) arrays, with the reward rows going forward |
| LedgerNodes.LedgerNode.UpdateVoteColumn | logic/round.js:145-165 | each delegate's vote grows by its pending sum |
| LedgerNodes.LedgerNode.PerformSnapshot | modules/rounds.js:225-244 | the snapshot is the pending rows and the delegates' columns of this moment |
| LedgerNodes.LedgerNode.CheckSnapshotAvailability | logic/round.js:205-222 | accepts rows of the round, or no rows at all |
| LedgerNodes.LedgerNode.SumRoundBlocks | modules/rounds.js:388-425 | fees, rewards and forgers of the round, in block order |
| LedgerNodes.LedgerNode.LandRound | logic/round.js:402-411 | pay, fold the votes, flush |
| LedgerNodes.LedgerNode.RestoreSnapshots | logic/round.js:182-250 | rows, votes and block counters of the snapshot back, reward rows of the round gone |
| LedgerNodes.LedgerNode.BackwardLandRound | logic/round.js:423-433 | the reverse of a landing, or failure when the snapshot is not accepted |
| LedgerNodes.LedgerNode.TickForward | modules/rounds.js:186-284 | block counted, round landed at its end, snapshot one block before |
| LedgerNodes.LedgerNode.TickBackward | modules/rounds.js:104-178 | block uncounted, round end reversed |
| LedgerNodes.LedgerNode.ApplyUnconfirmedStep | modules/blocks/chain.js:336-375 | all unconfirmed halves, up to the first refusal |
| LedgerNodes.LedgerNode.ApplyConfirmedStep | modules/blocks/chain.js:385-427 | all confirmed halves, up to the first refusal |
| LedgerNodes.LedgerNode.ApplyGenesisTransactions | modules/blocks/chain.js:282-308 | both halves of each genesis transaction, without balance checks |
| LedgerNodes.LedgerNode.ApplyGenesisBlock | modules/blocks/chain.js:214-271 | the genesis block applied and landed |
| LedgerNodes.LedgerNode.Apply | modules/blocks/chain.js:502-540 | one atomic apply: the new state, or no change but the in-memory signature flags |
| LedgerNodes.LedgerNode.Pop | modules/blocks/chain.js:709-733 | transactions reversed in place and undone, tick undone, block deleted, atomically |
| LedgerNodes.LedgerNode.DeleteLastBlock | modules/blocks/chain.js:746-798 | genesis refused; a deleted block's transactions come back in their original order |
| PoolQueues.Queue.Add | logic/transaction_pool.js:308-328 | appended unless the id is there; index and entries agree and ids stay unique |
| PoolQueues.Queue.Remove | logic/transaction_pool.js:336-346 | exactly the entry with that id is gone, whatever tombstones there are |
| PoolQueues.Queue.Reindex | logic/transaction_pool.js:490-499 | same live sequence, no tombstones, every position its own |
| PoolQueues.Queue.List | logic/transaction_pool.js:784-802 | live transactions, reversed and cut on request |
| PoolQueues.LiveIds | logic/transaction_pool.js:308-463 | for any tombstoned array its index matches, live ids are exactly the index keys, each once |
| PoolLists.PromotedKeeps | logic/transaction_pool.js:308-328 | promotion keeps each id in one list if and only if the sender's multisignature status is what it was when the transaction was queued |
| PoolLists.ChosenFits | logic/transaction_pool.js:749-773 | what fillPool picks fits into a block with what is there |
| PoolLists.ChosenIff | logic/transaction_pool.js:749-773 | it picks, by positions, the newest ready multisignature transactions, five or all of them, when there is room for five, and then the newest queued ones, as many as there is room left |
| PoolOutcomes.TakenIff | logic/transaction_pool.js:567-600 | what is offered to the pool is refused or put last in the list it belongs to, with the time of receipt and, for a group account, a signature array, exactly when that list is not full |
| PoolOutcomes.TriedOutcome | logic/transaction_pool.js:934-975 | which ids are in which list after one waiting transaction is tried |
| PoolOutcomes.UnbundledOutcome | logic/transaction_pool.js:508-555 | and after one is unbundled |
| PoolOutcomes.ExpiryIs | logic/transaction_pool.js:711-741 | in a pool of one object per id, expiry takes exactly what is overdue, 3 hours, a day or the hours of its own, from the three lists, and all else keeps its place |
| PoolBalances.BlockGap | modules/blocks/chain.js:502-540 | a block, applied or failed, moves both balances of every account alike, payouts included |
| PoolBalances.PopGap | modules/blocks/chain.js:709-733 | so does a pop, whether it goes through or not |
| PoolBalances.MirrorUndo | logic/transaction.js:1038-1076 | undoing any listed transaction keeps u_balance equal to balance less what is listed |
| PoolUndoing.UndoAny | logic/transaction_pool.js:651-703 | unconfirmed transactions can be undone in any order: the rest reads as if that one had never been applied |
| PoolUndoing.UndoAhead | logic/transaction_pool.js:1052-1083 | the same for the whole node, with its flags |
| PoolUndoing.UndoListGivesBase | logic/transaction_pool.js:651-703 | undoing the list from the front gives the node without any pending transaction |
| PoolUndoing.ApplyAhead | logic/transaction_pool.js:926-978 | the checks before applyUnconfirmed make the new transaction undoable independently of those pending |
| PoolPops.VotesUndoneBelowIff | helpers/diff.js:31-38 | a vote list undone below a later one, and that one undone after it, give the votes from before both if and only if they share no key |
| PoolPops.PopUnderPoolIff | modules/blocks/chain.js:746-798 | a pop with transactions pending is exact, undoing them afterwards gives the node of the same pop without them, if and only if no pending vote list shares a key with a vote list of the popped block by the same sender |
| PoolPops.PopAbove | modules/blocks/chain.js:709-733 | whether a pop goes through does not depend on the pool; in the exact case the same transactions stay pending, each undoable in any order |
| SystemRuns.AlwaysAccounted | logic/transaction_pool.js:926-978 | in every state of every run of pool and chain steps, u_balance is balance less the cost of the sender's unconfirmed transactions and of those that left the list unundone |
| SystemRuns.InStepIff | logic/transaction_pool.js:1021-1043 | so it is in step with the unconfirmed list if and only if nothing was lost from it: no waiting entry expired while its id was unconfirmed |
| SystemRuns.SystemIsRunIff | modules/blocks/chain.js:316-330 | in every state of a run, undoing what is unconfirmed gives the node of the run of its blocks alone, if and only if nothing unconfirmed is lost and no deleted block shares a vote with what is unconfirmed then |
| SystemRuns.SystemOver | logic/transaction_pool.js:651-703 | in that case the unconfirmed list can be taken off in any order, in every state |
| SharedVotes.DeletionLeavesVote | modules/blocks/chain.js:746-798 | a run in which everything is accepted: a vote in block 2, its removal pending, block 2 deleted; the account keeps an unconfirmed vote it does not have |
| SharedVotes.FundedGenesis | modules/blocks/chain.js:214-271 | an actual genesis block that run can start from, its delegate in its own slot |
| SystemActions.ActionIsMoves | modules/blocks/process.js:637-702 | each receipt, forged block, pool job, startup repair and chain recovery is a sequence of the steps above |
| SystemActions.ActionsAreMoves | modules/blocks/process.js:637-702 | so is any run of them |
| SystemActions.ExpiryLosesIff | logic/transaction_pool.js:711-741 | on any lists at all expireTransactions loses nothing if and only if no waiting transaction expires while one with its id stays unconfirmed |
| PoolObjects.TriedOne | logic/transaction_pool.js:934-975 | processing a waiting transaction, with the signature array it gets there, and promoting, refusing or leaving it keeps each id one object |
| SystemActions.AlwaysOneObject | logic/transaction_pool.js:308-463 | over every run of a node each id of the pool is one object, bundled alone, waiting in one list only, and a waiting entry with the id of an unconfirmed one is that one, starting from an empty pool (EmptyPoolOne) or any other with this |
| SystemActions.NodeInStep | logic/transaction_pool.js:711-741 | so after any run of a node whatever u_balance is balance less what the sender's unconfirmed transactions cost |
| PoolRuns.ListsAlwaysOrderly | logic/transaction_pool.js:146-160 | after any run of a node each id is in one list only, once, waiting where its sender's status puts it, within the limits, if no block or deletion changes that status of a transaction that waits |
| PoolRuns.StatusKeptIff | logic/transaction_pool.js:610-643 | and lists in order stay in order across a block if and only if it changes no such status |
| ConfirmedRuns.ApplyBase | modules/blocks/chain.js:336-427 | a block that goes through with anything pending, lost or undone in the wrong order goes through on the settled node, to the same confirmed half |
| ConfirmedRuns.ConfirmedIsRun | modules/blocks/chain.js:502-540 | over every run of steps the node is that of the run of the blocks that went through, in everything but the unconfirmed columns and the flags |
| SystemActions.NodeIsConfirmedRun | modules/blocks/process.js:637-702 | so is the running node after any actions |
| SystemActions.NodeIsRunIff | modules/blocks/process.js:637-702 | after every step of a run of a node the ledger without its pending transactions is that of a run of blocks alone, the unconfirmed columns and flags too, if and only if no deleted block shares a vote with what is unconfirmed then |
| SystemActions.NodeIsRun | modules/blocks/process.js:637-702 | and then what is unconfirmed is pending above that ledger, to be taken off in any order |
| SystemActions.NodeConserves | modules/rounds.js:388-425 | after any run of a node its confirmed accounts are those of replaying its chain, the coins are all there, and nobody but the genesis sender has a negative balance |
| SystemActions.NodeTallied | logic/account.js:502-589 | and the vote tally of the node is right (runs without a stale pop) |
| TransactionPools.TransactionPool.QueueTransaction | logic/transaction_pool.js:610-643 | refused exactly when its list is full |
| TransactionPools.TransactionPool.ProcessVerifyTransaction | logic/transaction_pool.js:826-916 | lets through exactly what is not unconfirmed yet and verifies, and gives a group sender's transaction its signature array unless it is unconfirmed already; the ledger reads as before |
| TransactionPools.TransactionPool.ProcessUnconfirmedTransaction | logic/transaction_pool.js:567-600 | taken or refused as Taken says; lists stay apart and in the right list |
| TransactionPools.TransactionPool.ProcessBundled | logic/transaction_pool.js:508-555 | exactly the listed bundle leaves, each member handled as Unbundled says |
| TransactionPools.TransactionPool.ReceiveTransactions | logic/transaction_pool.js:473-484 | taken in order up to the first refusal |
| TransactionPools.TransactionPool.UndoAndRequeue | logic/transaction_pool.js:659-695 | one of them undone, and offered to the queues again |
| TransactionPools.TransactionPool.UndoUnconfirmedList | logic/transaction_pool.js:651-703 | the ledger is the settled one again; what was unconfirmed waits again unless refused |
| TransactionPools.TransactionPool.UndoAndRemove | logic/transaction_pool.js:1052-1083 | one unconfirmed transaction undone and removed |
| TransactionPools.TransactionPool.ExpireUnconfirmed | logic/transaction_pool.js:1052-1083 | exactly the expired ones are undone and gone |
| TransactionPools.TransactionPool.ExpireWaiting | logic/transaction_pool.js:1021-1043 | expired waiting entries are removed; the unconfirmed list stays while no id that expires is in it |
| TransactionPools.TransactionPool.ExpireTransactions | logic/transaction_pool.js:711-741 | the three lists without what is overdue; when each id is one object, which every run keeps, u_balance stays in step and the list undoable, at any time; in general when no waiting id expires while unconfirmed |
| TransactionPools.TransactionPool.ApplyAccepted | logic/transaction.js:966-1026 | an accepted transaction keeps the balances in step and the pending list undoable |
| TransactionPools.TransactionPool.ApplyOne | logic/transaction_pool.js:934-975 | processed first, every entry of its object with it, then promoted, or dropped from the queued list only |
| TransactionPools.TransactionPool.ApplyUnconfirmedList | logic/transaction_pool.js:926-978 | each in turn; the settled ledger underneath does not move |
| TransactionPools.TransactionPool.FillPool | logic/transaction_pool.js:749-773 | tries exactly those, in that order, on whatever is unconfirmed by then; never more than 25, no id twice |
| ForkChoice.LessIff | modules/blocks/process.js:181-248 | ids are compared at the first character in which they differ |
| ForkChoice.FirstSiblingWins | modules/blocks/process.js:181-248 | siblings that pass, in any order: no other has an earlier timestamp than the head, or the same and a smaller id |
| ForkChoice.SiblingsConverge | modules/blocks/process.js:181-248 | so two orders give the same chain |
| ForkChoice.HeadsOnlyImprove | modules/blocks/process.js:181-248 | and a replaced block never comes back |
| ChainSteps.NodesConverge | modules/blocks/process.js:637-702 | the same of two whole nodes whose pools, clocks and configurations differ |
| ForkChoice.ReceiveKeeps | modules/blocks/process.js:637-702 | every receipt keeps links, consecutive heights, increasing slots and the genesis block, and removes two blocks at most |
| ChainSteps.ReceivingKeeps | modules/blocks/process.js:637-702 | on a whole node, whatever checks, pops and applies come to |
| ChainSteps.ReceivingBlocks | modules/blocks/process.js:637-702 | the chain of the node is the one the fork rules give for the outcome, and only a successor is ever added |
| ChainSteps.ReplacementNeedsSameReward | modules/blocks/verify.js:446-466 | a sibling takes the head's place only if the rewards of both heights are the same and its id is not among the last ones |
| ChainSteps.ReceiptShortensIff | modules/blocks/process.js:117-248 | a receipt leaves a shorter chain if and only if the block is one for a fork that beats the head on receipt, the head can be popped, and the block has another predecessor or does not pass or apply with the head gone |
| ChainSteps.SiblingAtMilestoneCostsHead | modules/blocks/verify.js:446-466 | at the last height before the reward changes, in any state, a copy of the head with a smaller id and the next reward costs the head and is not put in its place |
| StalePops.ClimbLosesHead | modules/blocks/process.js:217-239 | with an early milestone, a reward change at height 202 or lower: such a state on a run from genesis, and the block |
| LastIds.WindowRightIff | modules/blocks/verify.js:471-497 | after a start the ids a receipt is compared with are those of the last five blocks if and only if no id was dropped yet or five blocks have come since |
| BlockChains.BlockChain.ApplyBlockStep | modules/blocks/chain.js:502-540 | pool undone, block applied, its transactions out of the pool, head and last ids updated, or the failure state |
| BlockChains.BlockChain.DeleteLastBlock | modules/blocks/chain.js:746-798 | pop, head moved back, transactions offered to the pool again |
| BlockChains.BlockChain.VerifyReceipt | modules/blocks/verify.js:446-466 | passes exactly on its checks, against the head's height plus one |
| BlockChains.BlockChain.VerifyBlock | modules/blocks/verify.js:507-542 | passes exactly the successors of the head in their forger's slot whose transactions verify |
| BlockChains.BlockChain.ValidateForkSlot | modules/blocks/process.js:610-628 | a fork's block passes exactly if its forger owns its slot, by the snapshot's votes when the head is at a multiple of 101, by the votes of this moment otherwise |
| ChainSteps.ForkJudged | modules/blocks/process.js:117-248 | a block for a fork is looked at exactly when it beats the head, passes on receipt, and its forger owns its slot by those votes; otherwise nothing changes |
| ChainSteps.DeletingReturns | modules/blocks/chain.js:746-798 | a deleted block's transactions are offered to the pool in their order in the block, as just received |
| BlockChains.BlockChain.ProcessBlock | modules/blocks/verify.js:793-858 | applied exactly when it verifies and applies |
| BlockChains.BlockChain.ReceiveForkOne | modules/blocks/process.js:117-172 | the two last blocks go only to an older block that passes receipt |
| BlockChains.BlockChain.ReceiveForkFive | modules/blocks/process.js:181-248 | the head is replaced only by such a block |
| BlockChains.BlockChain.OnReceiveBlock | modules/blocks/process.js:637-702 | node and outcome are those of Receiving, the chain that of the fork rules, for every block and height |
| BlockChains.BlockChain.SelectReady | modules/blocks/process.js:536-575 | exactly those of the first 25 unconfirmed transactions that verify and have the signatures needed |
| BlockChains.BlockChain.MakeBlock | modules/blocks/process.js:536-590 | a block of those, sorted and cut only for size, that passes every check of verifyBlock at a later slot |
| BlockChains.MadeBlockPassesIff | modules/blocks/verify.js:793-858 | the made block passes all its own node asks of a block if and only if its slot is after the head's and not in the future, its id is new and its forger owns the slot (and the parameterised checks pass) |
| BlockChains.BlockChain.GenerateBlock | modules/blocks/process.js:536-599 | that block, processed like a received one |
| BlockChains.BlockChain.ValidateBlock | modules/loader.js:576-627 | the stored block against its predecessor, the head put back |
| BlockChains.BlockChain.DeleteInvalidBlocks | modules/loader.js:700-735 | ends, at a valid head or at a deletion that fails, never below the validated height |
| BlockChains.BlockChain.ValidateOwnChain | modules/loader.js:636-752 | with low as 2 up to height 202 and otherwise the multiple of 101 that has the head 102 to 202 blocks above it: blocks up to low stay; something is deleted if and only if the head is invalid, the block at low valid and the head can be deleted; with both invalid nothing is done. what is left is a front of the old chain, every deleted block failed against its predecessor, and on success the head validates |
| ExactPops.PopGoesThroughIff | logic/round.js:205-222 | a pop goes through if and only if it does not end a round or the snapshot is accepted |
| Startup.RepairIsBounded | modules/loader.js:700-735 | from any state of any run, stale pops before it or not, wherever the head is: while the snapshot has rows, no number of deletions gets below the end of the round before the snapshot's |
| Startup.RoundEndBelowStops | logic/round.js:205-222 | at a round end below the block of the snapshot, in any state of any run, deletion goes through if and only if the snapshot is empty |
| Startup.RepairKeeps | modules/loader.js:700-735 | where no pop before was stale, every state on that way down has the books of the chain that is left |
| BlockCreation.UnsignedPrefix | logic/block.js:188-219 | the bytes without the last 64 of a signed block are the bytes that were signed |
| BlockCreation.HeaderReads | logic/block.js:385-453 | every field of a block is read back from its place in the bytes, numbers least significant byte first |
| BlockCreation.GetBytes | logic/block.js:385-453 | the fields in order, little and big endian, the id as eight bytes |
| BlockCreation.Create | logic/block.js:67-150 | made from at most 25 distinct transactions for a later slot, the block passes every check; it drops transactions only for size |
| BlockCreation.CutPayload | logic/block.js:110-125 | the longest front that fits, with its totals |
| BlockCreation.SortTransactions | logic/block.js:68-98 | the same transactions: transfers, second signatures, registrations, votes, groups, each by rising amount |
| BlockCreation.SortedIs | logic/block.js:68-98 | sorting is a permutation into order |
| BlockCreation.VerifyPayload | modules/blocks/verify.js:298-355 | no error if and only if count, ids, hash, length and totals are right |
| BlockCreation.VerifyBlock | modules/blocks/verify.js:507-542 | no error if and only if every check holds |
| ActiveDelegates.TopUnique | modules/delegates.js:109-131 | there is one list of the first 101 delegates by votes, then by key |
| ActiveDelegates.SortByVote | modules/delegates.js:109-131 | and the query finds it |
| ActiveDelegates.OwnsSlotIff | modules/delegates.js:161-183 | so a forger is tested against that list alone |
| ActiveDelegates.OnlyDelegateOwns | modules/delegates.js:161-183 | a delegate on its own owns exactly the slots that are multiples of 101, for any hash and round |
| LedgerNodes.LedgerNode.KeysSortByVote | modules/delegates.js:109-131 | that list of the registered delegates, from the tables |
| LedgerNodes.LedgerNode.DelegatesSnapshot | modules/delegates.js:136-149 | the same of the snapshot, if there is one |
| Delegates.ListPermutes | modules/delegates.js:704-734 | the shuffled list is a permutation, for any hash |
| Delegates.DecimalOnly | modules/delegates.js:710-714 | the seed is the round in decimal, most significant digit first, and there is one way to write it |
| Delegates.ListIs | modules/delegates.js:704-734 | without the loops: swap number t is of position t + t/4 with the position that byte t%4 of the seed, hashed t/4+1 times, gives; every fifth position is passed over |
| Delegates.GenerateDelegateList | modules/delegates.js:704-734 | the in-place shuffle ends; the list is that of ListIs for the round in decimal |
| Delegates.OneSlotEach | helpers/slots.js:99-139 | in any 101 consecutive slots each listed delegate has exactly one |
| Delegates.GetBlockSlotData | modules/delegates.js:193-217 | the earliest slot of an enabled delegate, which validateBlockSlot accepts; none only if there is none |
| Delegates.ValidateBlockSlot | modules/delegates.js:161-183 | accepts exactly the owner of the slot |
| BlockRewards.MilestoneAmounts | logic/block_reward.js:87-128 | the milestone list is worth all rewards from the offset to the height |
| BlockRewards.LoopIsSupplyIff | logic/block_reward.js:87-134 | with the initial amount that is the supply if and only if nothing is due up to height 0 |
| BlockRewards.CalcSupply | logic/block_reward.js:87-134 | what is returned is the initial amount at every height |
| BlockRewards.SupplyRightIff | logic/block_reward.js:130-133 | which is right if and only if no block up to the height has brought a reward |
| BlockRewards.SupplyShort | logic/block_reward.js:130-133 | with any settings, at the offset the supply is the initial amount plus the first reward, so what is returned is short by that reward |
| BlockRewards.SameRewardIff | logic/block_reward.js:52-78 | with positive decreasing milestones, neighbouring heights differ in reward if and only if the second starts a milestone |
| Bignums.ToBuffer | helpers/bignum.js:80-160 | the shortest buffer of whole chunks that means the number; negative numbers fail |
| Bignums.FromBuffer | helpers/bignum.js:44-71 | the number the bytes mean; fails exactly on a length that is no multiple, or no bytes |
| Bignums.ArrangedLittle | helpers/bignum.js:104-160 | in little-endian order the bytes of each chunk are turned round in their place, the chunks are not |
| Bignums.LittleMeaning | helpers/bignum.js:44-71 | a little-endian buffer of one chunk is read from its other end |
| Bignums.RoundTrip | helpers/bignum.js:44-160 | any number, size or auto, and byte order: reading what was written gives the number |

## Left out

- LedgerNodes.LedgerNode.Merge: requires the account row to exist and voted or forging keys to have rows; an UPDATE of a missing row is silently empty in SQL, and every modelled caller creates the row first.
- LedgerNodes.LedgerNode.ApplyGenesisBlock: requires the genesis generator to send one of its transactions, so that it has an account row.
- LedgerNodes.LedgerNode.Pop: a pop that fails leaves the in-memory head block with its transactions reversed; the model takes them from the stored block each time. Such a pop fails for its snapshot alone (ExactPops.PopGoesThroughIff), so it fails again in either order until another block has come and gone.
- LedgerNodes.LedgerNode.MergeNumber: requires the account row, as Merge does.
- LedgerNodes.LedgerNode.MergeKeys: requires the account row and rows for voted keys, as Merge does.
- BlockChains.BlockChain.ValidateOwnChain: the block checks at startup are any test of a block and its predecessor, so what re-verifying looks up besides them is not modelled.
- BlockChains.BlockChain.ValidateBlock: takes that test as a parameter too.
- BlockChains.BlockChain.DeleteInvalidBlocks: takes that test as a parameter too.
- BlockChains.BlockChain.VerifyReceipt: signature, version, id and payload hash are one parameter with either outcome.
- BlockChains.BlockChain.VerifyBlock: signature, version, id and payload hash are one parameter with either outcome; BlockCreation.VerifyBlock models them on their own.
- BlockChains.MadeBlockPassesIff: holds for either outcome of those parameters, which stand on both sides.
- BlockCreation.SortTransactions: Array.prototype.sort is given by its meaning, and is stable, not by the engine's algorithm.
- missedBlocks and outsiders, which `backwardLand` does not reverse except through the snapshot.
- Delegate ranks, approval and productivity.
- DApp, in-transfer and out-transfer types: frozen or without amounts.
- The publicKey column, and name and signature fields without effect on balances or votes.
- The fork-cause-2 path (`modules/blocks/verify.js:120-131`), which undoes a transaction that need not be unconfirmed.
- The mpint branch of `toBuffer`.
- Per-network exception lists and the round adjustments for historical blocks.
- Rebuilding with saveBlock off, and the snapshot mode of the loader.
- The order in which the genesis block's transactions are sorted before they are applied.
- Partial database failures, networking, broadcasting, timers and shutdown.
- Signatures that arrive for waiting multisignature transactions, and the ready flags they set (`modules/multisignatures.js:274-321`).
- Block ids: a block's id is a field, its computation from the bytes is not modelled.
