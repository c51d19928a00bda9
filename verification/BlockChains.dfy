/**
  The running node: blocks are received, verified, applied and deleted
  (modules/blocks/process.js, verify.js and chain.js) against the ledger and the pool.
 */
module BlockChains {
  import opened Base
  import opened Diff
  import opened Accounts
  import opened Payouts
  import opened Voting
  import opened Ledger
  import opened Acceptance
  import opened Storage
  import opened Rollback
  import opened PopBlocks
  import opened LedgerNodes
  import opened PoolQueues
  import opened PoolLists
  import opened PoolBalances
  import opened PoolUndoing
  import opened PoolSteps
  import opened ChainSteps
  import opened TransactionPools
  import opened BlockRewards
  import opened ForkChoice
  import opened LastIds
  import opened ActiveDelegates
  import Delegates
  import BlockCreation
  import Bignums

  class BlockChain {
    const pool: TransactionPool
    const ledger: LedgerNode
    const rewards: Rewards
    var lastBlock: Block
    var lastNBlockIds: seq<string>
    var isActive: bool

    ghost predicate Valid()
      reads this, pool, pool.unconfirmed, pool.bundled, pool.queued, pool.multisignature, pool.ledger, ledger
    {
      && pool.Valid() && pool.ledger == ledger && rewards.Valid()
      && |ledger.blocks| > 0 && lastBlock == ledger.blocks[|ledger.blocks| - 1]
      && ChainOk(ledger.blocks)
      && |lastNBlockIds| <= BLOCK_SLOT_WINDOW
      && !isActive
    }

    /** A node that starts on a stored chain. */
    constructor (pool: TransactionPool, rewards: Rewards)
      requires pool.Valid() && rewards.Valid() && ChainOk(pool.ledger.blocks)
      ensures Valid() && this.pool == pool && this.rewards == rewards && lastNBlockIds == LoadedIds(pool.ledger.blocks)
    {
      this.pool, this.ledger, this.rewards := pool, pool.ledger, rewards;
      lastBlock := pool.ledger.blocks[|pool.ledger.blocks| - 1];
      lastNBlockIds, isActive := LoadedIds(pool.ledger.blocks), false;
    }

    /** The whole node as one value. */
    ghost function Now(): Chained
      reads this, pool, pool.unconfirmed, pool.bundled, pool.queued, pool.multisignature, ledger
    {
      Chained(ledger.View(), pool.Contents(), lastNBlockIds)
    }

    /** These circumstances are those of this node. */
    ghost predicate Fits(e: Circumstances) {
      e.rewards == rewards && e.settings.genesisKey == pool.genesisKey && e.settings.max == pool.maxTransactionsPerQueue
    }

    /** applyBlock: the unconfirmed list is undone first; what went into the block leaves the pool. */
    method ApplyBlockStep(b: Block, e: Circumstances) returns (ok: bool)
      requires Valid() && Fits(e) && OfKey(b.generator) in ledger.accounts && Follows(b, lastBlock)
      modifies this, ledger, pool, pool.unconfirmed, pool.bundled, pool.queued, pool.multisignature
      ensures Valid() && (Now(), ok) == Applying(old(Now()), b, e)
      ensures ledger.blocks == if ok then old(ledger.blocks) + [b] else old(ledger.blocks)
      ensures pool.Contents().unconfirmed == []
      ensures old(pool.InStep()) ==> pool.InStep()
    {
      hide *;
      ghost var n0, ps := ledger.View(), pool.unconfirmed.Entries();
      Parts();
      NowIs();
      EnvIs(e);
      ledger.ViewIs();
      UndoneListBlocks(n0, ps);
      var ids := pool.UndoUnconfirmedList(e.now, e.settings.outside);
      ghost var n := ledger.View();
      ledger.ViewIs();
      BlocksGrow(n, b);
      ApplyingIs(old(Now()), b, e);
      isActive := true;
      ok := pool.ApplyToLedger(b);
      isActive := false;
      ledger.ViewIs();
      if ok {
        AppendKeeps(old(ledger.blocks), b);
        RemoveTransactions(b.transactions);
        lastNBlockIds := PushId(lastNBlockIds, b.id);
        lastBlock := b;
      }
      NowIs();
      Whole();
    }

    lemma NowIs()
      ensures Now() == Chained(ledger.View(), pool.Contents(), lastNBlockIds)
      ensures pool.Contents().unconfirmed == pool.unconfirmed.Entries()
    {
    }

    lemma EnvIs(e: Circumstances)
      requires Fits(e)
      ensures pool.Env(e.settings.outside) == e.settings && e.settings.genesisKey == pool.genesisKey
              && e.rewards == rewards
    {
    }

    lemma Parts()
      requires Valid()
      ensures pool.Valid() && pool.ledger == ledger && rewards.Valid()
      ensures |ledger.blocks| > 0 && lastBlock == ledger.blocks[|ledger.blocks| - 1] && lastBlock == Head(ledger.blocks)
      ensures ChainOk(ledger.blocks) && |lastNBlockIds| <= BLOCK_SLOT_WINDOW && !isActive
    {
    }

    lemma Whole()
      requires pool.Valid() && pool.ledger == ledger && rewards.Valid()
      requires |ledger.blocks| > 0 && lastBlock == ledger.blocks[|ledger.blocks| - 1]
      requires ChainOk(ledger.blocks) && |lastNBlockIds| <= BLOCK_SLOT_WINDOW && !isActive
      ensures Valid()
    {
    }

    /** The transactions of an applied block leave the pool. */
    method RemoveTransactions(txs: seq<Transaction>)
      requires pool.Valid() && pool.Contents().unconfirmed == []
      modifies pool.unconfirmed, pool.queued, pool.multisignature
      ensures pool.Valid() && pool.Contents() == AllRemoved(old(pool.Contents()), txs)
              && pool.Contents().unconfirmed == []
      ensures old(pool.InStep()) ==> pool.InStep()
    {
      hide Linked, NodeOf, Indexed, Live, Ids, Mirrored, Drop;
      ghost var l := pool.Contents();
      var i := 0;
      while i < |txs|
        modifies pool.unconfirmed, pool.queued, pool.multisignature
        invariant 0 <= i <= |txs|
        invariant pool.Valid() && pool.Contents() == AllRemoved(l, txs[..i]) && pool.Contents().unconfirmed == []
      {
        Next(txs, i);
        DropAbsent([], txs[i].id);
        pool.RemoveUnconfirmedTransaction(txs[i].id);
        i := i + 1;
      }
      assert txs[..i] == txs;
    }

    /** deleteLastBlock: the transactions of the deleted block are offered to the pool again. */
    method DeleteLastBlock(e: Circumstances) returns (ok: bool)
      requires Valid() && Fits(e)
      modifies this, ledger, pool, pool.unconfirmed, pool.bundled, pool.queued, pool.multisignature
      ensures Valid() && |old(Now()).node.blocks| > 0 && (Now(), ok) == Deleting(old(Now()), e)
      ensures ledger.blocks == if ok then DropHead(old(ledger.blocks)) else old(ledger.blocks)
      ensures |old(ledger.blocks)| == 1 ==> !ok
      ensures pool.Contents().unconfirmed == old(pool.Contents()).unconfirmed
      ensures old(pool.InStep()) ==> pool.InStep()
    {
      hide *;
      Parts();
      NowIs();
      ghost var n, chain := ledger.View(), ledger.blocks;
      ledger.ViewIs();
      BlocksShrink(n);
      DeletingIs(Now(), e);
      EnvIs(e);
      var deleted;
      ok, deleted := pool.DeleteFromLedger();
      ledger.ViewIs();
      if ok {
        DropKeeps(chain);
        DroppedLength(chain);
        lastBlock := ledger.blocks[|ledger.blocks| - 1];
        var pooled := Offered(deleted, e.now);
        InStepIs();
        var received := pool.ReceiveTransactions(pooled, e.now, e.settings.outside);
        InStepIs();
        ledger.ViewIs();
      }
      NowIs();
      Whole();
    }

    lemma InStepIs()
      ensures pool.InStep() <==> Mirrored(pool.ledger.View().books.accts, pool.unconfirmed.Entries())
      ensures pool.Contents().unconfirmed == pool.unconfirmed.Entries()
    {
      hide Mirrored;
    }

    /** verifyReceipt. */
    method VerifyReceipt(b: Block, e: Circumstances) returns (verified: bool)
      requires Valid() && Fits(e)
      ensures e.rewards.Valid() && (verified <==> ReceiptPasses(ledger.blocks, lastNBlockIds, b, e))
      ensures verified ==> e.currentSlot - 5 <= SlotNumber(b.timestamp) <= e.currentSlot
    {
      hide *;
      Parts();
      EnvIs(e);
      var height := |ledger.blocks| + 1;
      var errors := if e.receipt then 0 else 1;
      if b.previousBlock == "" && height != 1 { errors := errors + 1; }
      if b.id in lastNBlockIds { errors := errors + 1; }
      if e.currentSlot - SlotNumber(b.timestamp) > BLOCK_SLOT_WINDOW { errors := errors + 1; }
      if e.currentSlot < SlotNumber(b.timestamp) { errors := errors + 1; }
      if height != 1 && rewards.CalcReward(height) != b.reward { errors := errors + 1; }
      if b.totalFee != SumFees(b.transactions) { errors := errors + 1; }
      verified := errors == 0;
      ReceiptIs(ledger.blocks, lastNBlockIds, b, e);
    }

    /** verifyBlock, and the checks of processBlock against the tables: the id is new, the generator is a
        delegate in its slot, and every transaction verifies. */
    method VerifyBlock(b: Block, e: Circumstances) returns (verified: bool)
      requires Valid() && Fits(e)
      ensures e.rewards.Valid() && |ledger.View().blocks| > 0 && (verified <==> BlockPasses(ledger.View(), b, e))
      ensures verified ==> OfKey(b.generator) in ledger.accounts && Follows(b, lastBlock)
    {
      hide *;
      Parts();
      EnvIs(e);
      ledger.ViewIs();
      ledger.State();
      var height := |ledger.blocks| + 1;
      verified := false;
      FollowsIs(b, lastBlock);
      BlockPassesIs(ledger.View(), b, e);
      BlockVerifiedIs(ledger.accounts, ledger.memRound, ledger.saved, ledger.roundRewards, ledger.blocks,
          ledger.unconfirmedSignatures,
                      pool.genesisKey, b);
      if !e.block { return; }
      if b.previousBlock == "" && height != 1 { return; }
      if rewards.CalcReward(height) != b.reward { return; }
      if b.previousBlock != "" && b.previousBlock != lastBlock.id { return; }
      var blockSlotNumber, lastBlockSlotNumber := SlotNumber(b.timestamp), SlotNumber(lastBlock.timestamp);
      if blockSlotNumber > e.currentSlot || blockSlotNumber <= lastBlockSlotNumber { return; }
      if b.totalFee != SumFees(b.transactions) { return; }
      if exists i :: 0 <= i < |ledger.blocks| && ledger.blocks[i].id == b.id { return; }
      var delegates := ledger.KeysSortByVote();
      var inSlot := Delegates.ValidateBlockSlot(delegates, CalcRound(height), e.hash, b.timestamp, b.generator);
      OwnsSlotIff(VotesNow(ledger.View()), height, e.hash, b, delegates);
      ForgerIs(ledger.View(), b, height, e.hash);
      if !inSlot { return; }
      if !Fetch(ledger.accounts, OfKey(b.generator)).conf.isDelegate { return; }
      var i := 0;
      while i < |b.transactions|
        invariant 0 <= i <= |b.transactions|
        invariant forall k :: 0 <= k < i ==> VerifiedRow(ledger.accounts, pool.genesisKey, b.transactions[k])
      {
        if !VerifiedRow(ledger.accounts, pool.genesisKey, b.transactions[i]) { return; }
        i := i + 1;
      }
      verified := true;
    }

    /** validateBlockSlot of a fork's block: at the start of a round by the votes of the snapshot. */
    method ValidateForkSlot(b: Block, height: nat, e: Circumstances) returns (ok: bool)
      requires Valid()
      ensures |ledger.View().blocks| > 0 && (ok <==> ForkForgerOk(ledger.View(), b, height, e.hash))
      ensures height == |ledger.blocks| || height == |ledger.blocks| + 1 ==>
                (ok <==> if |ledger.blocks| % 101 == 0
                         then && ledger.View().snapshot.Some?
                              && OwnsSlot(ledger.View().snapshot.value.votes, height, e.hash, b)
                         else OwnsSlot(VotesNow(ledger.View()), height, e.hash, b))
    {
      hide *;
      Parts();
      AfterRoundIs(|ledger.blocks|, height);
      ledger.ViewIs();
      ForgerIs(ledger.View(), b, height, e.hash);
      if AfterRound(|ledger.blocks|, height) {
        var previous := ledger.DelegatesSnapshot();
        if previous.None? { return false; }
        OwnsSlotIff(ledger.View().snapshot.value.votes, height, e.hash, b, previous.value);
        ok := Delegates.ValidateBlockSlot(previous.value, CalcRound(height), e.hash, b.timestamp, b.generator);
      } else {
        var delegates := ledger.KeysSortByVote();
        OwnsSlotIff(VotesNow(ledger.View()), height, e.hash, b, delegates);
        ok := Delegates.ValidateBlockSlot(delegates, CalcRound(height), e.hash, b.timestamp, b.generator);
      }
    }

    /** processBlock with saveBlock. */
    method ProcessBlock(b: Block, e: Circumstances) returns (ok: bool)
      requires Valid() && Fits(e)
      modifies this, ledger, pool, pool.unconfirmed, pool.bundled, pool.queued, pool.multisignature
      ensures Valid() && e.rewards.Valid() && |old(Now()).node.blocks| > 0
              && (Now(), ok) == Processing(old(Now()), b, e)
      ensures ledger.blocks == if ok then old(ledger.blocks) + [b] else old(ledger.blocks)
      ensures old(pool.InStep()) ==> pool.InStep()
    {
      hide *;
      NowIs();
      ok := VerifyBlock(b, e);
      ProcessingIs(Now(), b, e);
      if ok { ok := ApplyBlockStep(b, e); }
      NowIs();
    }

    /** receiveForkOne: the last two blocks lose. */
    method ReceiveForkOne(b: Block, e: Circumstances) returns (o: Outcome)
      requires Valid() && Fits(e)
      modifies this, ledger, pool, pool.unconfirmed, pool.bundled, pool.queued, pool.multisignature
      ensures Valid() && e.rewards.Valid() && |old(Now()).node.blocks| > 0
              && (Now(), o) == ForkOneSteps(old(Now()), b, e)
      ensures old(pool.InStep()) ==> pool.InStep()
    {
      hide *;
      Parts();
      NowIs();
      ledger.ViewIs();
      EnvIs(e);
      o := Outcome(false, false, false, false);
      ForkOneStepsIs(Now(), b, e);
      if HeadStands(b, lastBlock) { return; }
      var inSlot := ValidateForkSlot(b, |ledger.blocks| + 1, e);
      if !inSlot { return; }
      var verified := VerifyReceipt(b, e);
      if !verified { return; }
      o := o.(receiptOk := true);
      var popped := DeleteLastBlock(e);
      o := o.(firstPop := popped);
      if !popped { return; }
      Parts();
      NowIs();
      ledger.ViewIs();
      popped := DeleteLastBlock(e);
      o := o.(secondPop := popped);
    }

    /** receiveForkFive: the last block loses and the received one takes its place. */
    method ReceiveForkFive(b: Block, e: Circumstances) returns (o: Outcome)
      requires Valid() && Fits(e)
      modifies this, ledger, pool, pool.unconfirmed, pool.bundled, pool.queued, pool.multisignature
      ensures Valid() && e.rewards.Valid() && |old(Now()).node.blocks| > 0
              && (Now(), o) == ForkFiveSteps(old(Now()), b, e)
      ensures old(pool.InStep()) ==> pool.InStep()
    {
      hide *;
      Parts();
      NowIs();
      ledger.ViewIs();
      EnvIs(e);
      o := Outcome(false, false, false, false);
      ForkFiveStepsIs(Now(), b, e);
      if HeadStands(b, lastBlock) { return; }
      var inSlot := ValidateForkSlot(b, |ledger.blocks|, e);
      if !inSlot { return; }
      var verified := VerifyReceipt(b, e);
      if !verified { return; }
      o := o.(receiptOk := true);
      var popped := DeleteLastBlock(e);
      o := o.(firstPop := popped);
      if !popped { return; }
      Parts();
      NowIs();
      ledger.ViewIs();
      var processed := ProcessBlock(b, e);
      o := o.(processed := processed);
    }

    /** onReceiveBlock: the node and the outcome are those of Receiving, and so the chain is the one the
        fork rules give. */
    method OnReceiveBlock(b: Block, height: nat, e: Circumstances) returns (o: Outcome)
      requires Valid() && Fits(e)
      modifies this, ledger, pool, pool.unconfirmed, pool.bundled, pool.queued, pool.multisignature
      ensures Valid() && e.rewards.Valid() && |old(Now()).node.blocks| > 0
              && (Now(), o) == Receiving(old(Now()), b, height, e)
      ensures |old(ledger.blocks)| > 0 && ledger.blocks == Receive(old(ledger.blocks), b, height, o)
      ensures old(pool.InStep()) ==> pool.InStep()
    {
      hide *;
      Parts();
      NowIs();
      ledger.ViewIs();
      EnvIs(e);
      o := Outcome(false, false, false, false);
      ReceivingBlocks(Now(), b, height, e);
      ReceivingIs(Now(), b, height, e);
      if b.previousBlock == lastBlock.id && |ledger.blocks| + 1 == height {
        var ok := ProcessBlock(b, e);
        o := o.(processed := ok);
      } else if b.previousBlock != lastBlock.id && |ledger.blocks| + 1 == height {
        o := ReceiveForkOne(b, e);
      } else if b.previousBlock == lastBlock.previousBlock && height == |ledger.blocks| && b.id != lastBlock.id {
        o := ReceiveForkFive(b, e);
      }
      NowIs();
      ledger.ViewIs();
    }

    /** The block generateBlock makes: the unconfirmed transactions that are ready and verify, as many as fit,
        on the head.  It passes every check of verifyBlock when its slot is a later one. */
    method MakeBlock(c: BlockCreation.Crypto, k: BlockCreation.KeyPair, timestamp: int, outside: Transaction -> bool)
      returns (b: BlockCreation.FullBlock)
      requires Valid() && BlockCreation.Signs(c, k)
      requires lastBlock.id != "" && c.idNumber(lastBlock.id) < Bignums.Pow16(16)
      ensures var listed := Listed(pool.unconfirmed.Entries(), false, MAX_TRANSACTIONS_PER_BLOCK);
              var picked := BlockCreation.Sorted(ReadyToForge(ledger.View(), pool.Env(outside), listed));
              && b.transactions <= picked
              && (|b.transactions| < |picked| ==>
                    b.payloadLength + |c.transactionBytes(picked[|b.transactions|])| > 1048576)
      ensures MadeOn(ledger.View(), pool.genesisKey, rewards, k.publicKey, timestamp, b)
      ensures var last := BlockCreation.Previous(lastBlock.id, |ledger.blocks|, lastBlock.timestamp);
              forall currentSlot :: SlotNumber(lastBlock.timestamp) < SlotNumber(timestamp) <= currentSlot ==>
                BlockCreation.AllChecks(c, rewards, last, currentSlot, b)
    {
      hide *;
      Parts();
      ledger.ViewIs();
      pool.EnvIs(outside);
      var ready := SelectReady(outside);
      var transactions := new Transaction[|ready|](i requires 0 <= i < |ready| => ready[i]);
      assert transactions[..] == ready;
      var last := BlockCreation.Previous(lastBlock.id, |ledger.blocks|, lastBlock.timestamp);
      b := BlockCreation.Create(c, rewards, k, timestamp, last, transactions);
      ReadyVerifies(ledger.View(), pool.Env(outside),
                    Listed(pool.unconfirmed.Entries(), false, MAX_TRANSACTIONS_PER_BLOCK), b.transactions);
      MadeOnIs(ledger.View(), pool.genesisKey, rewards, k.publicKey, timestamp, b);
    }

    /** generateBlock: the block is made and processed like a received one.  `id` stands for the computation
        of the block id. */
    method GenerateBlock(c: BlockCreation.Crypto, k: BlockCreation.KeyPair, timestamp: int,
                         id: BlockCreation.FullBlock -> string, e: Circumstances)
      returns (made: BlockCreation.FullBlock, ok: bool)
      requires Valid() && Fits(e) && BlockCreation.Signs(c, k)
      requires lastBlock.id != "" && c.idNumber(lastBlock.id) < Bignums.Pow16(16)
      modifies this, ledger, pool, pool.unconfirmed, pool.bundled, pool.queued, pool.multisignature
      ensures Valid() && e.rewards.Valid() && |old(Now()).node.blocks| > 0
      ensures MadeOn(old(ledger.View()), pool.genesisKey, rewards, k.publicKey, timestamp, made)
      ensures (Now(), ok) == Processing(old(Now()), AsBlock(made, id(made)), e)
      ensures old(pool.InStep()) ==> pool.InStep()
    {
      hide *;
      Parts();
      NowIs();
      ledger.ViewIs();
      EnvIs(e);
      made := MakeBlock(c, k, timestamp, e.settings.outside);
      ok := ProcessBlock(AsBlock(made, id(made)), e);
    }

    method SelectReady(outside: Transaction -> bool) returns (ready: seq<Transaction>)
      requires Valid()
      ensures ready == ReadyToForge(ledger.View(), pool.Env(outside),
              Listed(pool.unconfirmed.Entries(), false, MAX_TRANSACTIONS_PER_BLOCK))
      ensures |ready| <= MAX_TRANSACTIONS_PER_BLOCK && BlockCreation.DistinctTransactions(ready)
      ensures forall tx :: tx in ready <==>
                && Among(pool.unconfirmed.Entries(), 25, tx)
                && Forgeable(ledger.View(), pool.Env(outside), tx)
    {
      hide *;
      UnconfirmedKnown();
      ledger.State();
      ghost var n, env := ledger.View(), pool.Env(outside);
      var transactions := pool.unconfirmed.List(false, MAX_TRANSACTIONS_PER_BLOCK);
      ListedFromQueue(pool.unconfirmed.Entries());
      ready := [];
      NothingReady(n, env, transactions);
      pool.EnvIs(outside);
      var i := 0;
      while i < |transactions|
        invariant 0 <= i <= |transactions|
        invariant ready == ReadyToForge(n, env, transactions[..i])
      {
        var tx := transactions[i].tx;
        assert transactions[i] in transactions;
        RowChecks(ledger.accounts, ledger.memRound, ledger.saved, ledger.roundRewards, ledger.blocks,
            ledger.unconfirmedSignatures, pool.genesisKey, tx);
        ReadyNext(n, env, transactions, i);
        if Ledger.Ready(SideOf(ledger.accounts[tx.From()].conf), tx) && outside(tx)
            && VerifiedRow(ledger.accounts, pool.genesisKey, tx) {
          ready := ready + [tx];
        }
        i := i + 1;
      }
      assert transactions[..i] == transactions;
      ReadyToForgeIs(n, env, transactions);
      forall tx ensures tx in ready <==> Among(pool.unconfirmed.Entries(), 25, tx) && Forgeable(n, env, tx) {
        SelectedIff(n, env, transactions, tx);
        AmongListed(pool.unconfirmed.Entries(), tx);
      }
    }

    lemma UnconfirmedKnown()
      requires Valid()
      ensures pool.Valid() && pool.ledger == ledger
      ensures forall p :: p in pool.unconfirmed.Entries() ==> p.tx.From() in ledger.accounts
      ensures DistinctIds(pool.unconfirmed.Entries())
    {
      hide Linked, Indexed, Live, ChainOk;
      pool.AllDistinct();
    }

    // ---------- modules/loader.js ----------

    /** validateBlock: the stored block is verified as if its predecessor were the head, which is put
        back afterwards. */
    method ValidateBlock(height: nat, valid: (Block, Block) -> bool) returns (ok: bool)
      requires Valid() && 2 <= height <= |ledger.blocks|
      modifies this`lastBlock
      ensures lastBlock == old(lastBlock) && Valid()
      ensures ok == valid(ledger.blocks[height - 1], ledger.blocks[height - 2])
    {
      hide *;
      Parts();
      var saved := lastBlock;
      lastBlock := ledger.blocks[height - 2];
      ok := VerifyAgainstLast(ledger.blocks[height - 1], valid);
      lastBlock := saved;
      Whole();
    }

    method VerifyAgainstLast(b: Block, valid: (Block, Block) -> bool) returns (ok: bool)
      ensures ok == valid(b, lastBlock)
    {
      ok := valid(b, lastBlock);
    }

    /** deleteInvalidBlocks: delete, then look at the new head, until it is valid.  It ends because the
        block at the lowest height is known to be valid. */
    method DeleteInvalidBlocks(valid: (Block, Block) -> bool, lowest: nat, e: Circumstances) returns (ok: bool)
      requires Valid() && Fits(e) && 2 <= lowest < |ledger.blocks|
      requires valid(ledger.blocks[lowest - 1], ledger.blocks[lowest - 2])
      requires !valid(ledger.blocks[|ledger.blocks| - 1], ledger.blocks[|ledger.blocks| - 2])
      modifies this, ledger, pool, pool.unconfirmed, pool.bundled, pool.queued, pool.multisignature
      ensures Valid() && |old(Now()).node.blocks| > 0 && (Now(), ok) == Repairing(old(Now()), valid, e)
      ensures Repaired(old(ledger.blocks), ledger.blocks, lowest, valid) && |ledger.blocks| >= lowest
      ensures ok ==> valid(ledger.blocks[|ledger.blocks| - 1], ledger.blocks[|ledger.blocks| - 2])
      ensures old(pool.InStep()) ==> pool.InStep()
    {
      hide *;
      NowIs();
      ledger.ViewIs();
      ghost var chain, s := ledger.blocks, Now();
      NothingDeleted(chain, lowest, valid);
      ok := false;
      while !ok
        invariant Valid() && Repaired(chain, ledger.blocks, lowest, valid) && lowest <= |ledger.blocks|
        invariant Fits(e) && |ledger.blocks| >= 2
                && ok == valid(ledger.blocks[|ledger.blocks| - 1], ledger.blocks[|ledger.blocks| - 2])
        invariant |Now().node.blocks| > 0 && Repairing(Now(), valid, e) == Repairing(s, valid, e)
        invariant old(pool.InStep()) ==> pool.InStep()
        decreases |ledger.blocks|, !ok
      {
        var deleted := DeleteInvalid(valid, lowest, chain, s, e);
        if !deleted { return; }
        ok := ValidateBlock(|ledger.blocks|, valid);
        InStepIs();
        NowIs();
        ledger.ViewIs();
      }
      NowIs();
      ledger.ViewIs();
      RepairingIs(Now(), valid, e);
    }

    /** One invalid head is deleted. */
    method DeleteInvalid(valid: (Block, Block) -> bool, lowest: nat, ghost chain: seq<Block>, ghost s: Chained,
                         e: Circumstances)
      returns (deleted: bool)
      requires Valid() && Fits(e) && 2 <= lowest <= |ledger.blocks| && Repaired(chain, ledger.blocks, lowest, valid)
      requires lowest <= |chain| && valid(chain[lowest - 1], chain[lowest - 2])
      requires !valid(ledger.blocks[|ledger.blocks| - 1], ledger.blocks[|ledger.blocks| - 2])
      requires |s.node.blocks| > 0 && |Now().node.blocks| > 0
      requires Repairing(Now(), valid, e) == Repairing(s, valid, e)
      modifies this, ledger, pool, pool.unconfirmed, pool.bundled, pool.queued, pool.multisignature
      ensures Valid() && Repaired(chain, ledger.blocks, lowest, valid) && lowest <= |ledger.blocks|
      ensures |Now().node.blocks| > 0
      ensures if deleted
              then |ledger.blocks| < |old(ledger.blocks)| && Repairing(Now(), valid, e) == Repairing(s, valid, e)
              else (Now(), false) == Repairing(s, valid, e)
      ensures old(pool.InStep()) ==> pool.InStep()
    {
      hide *;
      NowIs();
      ledger.ViewIs();
      RepairingIs(Now(), valid, e);
      InvalidStep(chain, ledger.blocks, lowest, valid);
      deleted := DeleteLastBlock(e);
      NowIs();
      ledger.ViewIs();
    }

    /** validateOwnChain: if the head is invalid, blocks are deleted until a valid one is the head, but
        never below the end of the second last round, which has to be valid itself. */
    method ValidateOwnChain(valid: (Block, Block) -> bool, e: Circumstances) returns (ok: bool)
      requires Valid() && Fits(e) && |ledger.blocks| >= 2
      modifies this, ledger, pool, pool.unconfirmed, pool.bundled, pool.queued, pool.multisignature
      ensures Valid() && |old(Now()).node.blocks| >= 2 && (Now(), ok) == OwnChain(old(Now()), valid, e)
      ensures Repaired(old(ledger.blocks), ledger.blocks, LowestHeight(|old(ledger.blocks)|), valid)
      ensures ok ==>
                |ledger.blocks| >= 2 && valid(ledger.blocks[|ledger.blocks| - 1], ledger.blocks[|ledger.blocks| - 2])
      ensures forall low :: RepairStop(|old(ledger.blocks)|, low) ==> RepairedTo(old(Now()), Now(), ok, low, valid)
      ensures old(pool.InStep()) ==> pool.InStep()
    {
      hide *;
      NowIs();
      ledger.ViewIs();
      OwnChainIs(Now(), valid, e);
      var currentHeight := |ledger.blocks|;
      var validateTillHeight := LowestHeight(currentHeight);
      LowestIsLow(currentHeight);
      NothingDeleted(ledger.blocks, validateTillHeight, valid);
      ok := ValidateBlock(currentHeight, valid);
      InStepIs();
      NowIs();
      if !ok {
        var startOk := ValidateBlock(validateTillHeight, valid);
        InStepIs();
        NowIs();
        if startOk { ok := DeleteInvalidBlocks(valid, validateTillHeight, e); }
      }
      NowIs();
      ledger.ViewIs();
      RepairEnds(old(Now()), Now(), ok, valid, e);
    }
  }

  /** What is left is the front of the old chain, down to the lowest height at most, and every deleted
      block failed against its predecessor. */
  ghost predicate Repaired(chain: seq<Block>, left: seq<Block>, lowest: nat, valid: (Block, Block) -> bool) {
    && lowest <= |left| <= |chain| && left == chain[..|left|]
    && forall h {:trigger chain[h]} :: 0 < |left| <= h < |chain| ==> !valid(chain[h], chain[h - 1])
  }

  /** Where the repair of a chain of this height stops: at height 2 within the first two rounds, and from then on at
      the end of the round before the last one that is whole. */
  predicate RepairStop(height: nat, low: nat) {
    if height <= 202 then 2 <= height && low == 2 else low % 101 == 0 && low + 101 < height <= low + 202
  }

  lemma RepairStopIs(height: nat, low: nat)
    requires RepairStop(height, low)
    ensures low == LowestHeight(height) && 2 <= low <= height
  {
    LowestHeightIs(height);
  }

  /** The blocks up to the height of the stop are kept; something is deleted if and only if the head is invalid, the
      block at that height is valid and the head can be deleted; and nothing is done at all if both are invalid. */
  ghost predicate RepairedTo(s: Chained, t: Chained, ok: bool, low: nat, valid: (Block, Block) -> bool) {
    var chain, left := s.node.blocks, t.node.blocks;
    && 2 <= low <= |chain| && low <= |left| && left[..low] == chain[..low]
    && (|left| < |chain| <==>
          && !valid(chain[|chain| - 1], chain[|chain| - 2]) && valid(chain[low - 1], chain[low - 2])
          && PopBlock(s.node).ok)
    && (!valid(chain[|chain| - 1], chain[|chain| - 2]) && !valid(chain[low - 1], chain[low - 2]) ==> !ok && t == s)
    && (valid(chain[|chain| - 1], chain[|chain| - 2]) ==> ok && t == s)
  }

  lemma RepairEnds(s: Chained, t: Chained, ok: bool, valid: (Block, Block) -> bool, e: Circumstances)
    requires |s.node.blocks| >= 2 && (t, ok) == OwnChain(s, valid, e)
    requires Repaired(s.node.blocks, t.node.blocks, LowestHeight(|s.node.blocks|), valid)
    ensures forall low :: RepairStop(|s.node.blocks|, low) ==> RepairedTo(s, t, ok, low, valid)
  {
    hide OwnChain, PopBlock, LowestHeight, RepairStop;
    forall low | RepairStop(|s.node.blocks|, low) ensures RepairedTo(s, t, ok, low, valid) {
      RepairStopIs(|s.node.blocks|, low);
      OwnChainDeletes(s, valid, e);
      KeptFront(s.node.blocks, t.node.blocks, low);
    }
  }

  lemma KeptFront(chain: seq<Block>, left: seq<Block>, low: nat)
    requires low <= |left| <= |chain| && left == chain[..|left|]
    ensures left[..low] == chain[..low]
  {
  }

  /** The repair deletes something if and only if the head is invalid, the block it goes back to is valid, and the
      head can be deleted at all. */
  lemma OwnChainDeletes(s: Chained, valid: (Block, Block) -> bool, e: Circumstances)
    requires |s.node.blocks| >= 2
    ensures var bs, low, r := s.node.blocks, LowestHeight(|s.node.blocks|), OwnChain(s, valid, e);
            && (|r.0.node.blocks| < |bs| <==>
                  !valid(Head(bs), bs[|bs| - 2]) && valid(bs[low - 1], bs[low - 2]) && PopBlock(s.node).ok)
            && (!valid(Head(bs), bs[|bs| - 2]) && !valid(bs[low - 1], bs[low - 2]) ==> r == (s, false))
            && (valid(Head(bs), bs[|bs| - 2]) ==> r == (s, true))
  {
    hide Repairing, LowestHeight, PopBlock, Deleting;
    LowestIsLow(|s.node.blocks|);
    OwnChainIs(s, valid, e);
    RepairingIs(s, valid, e);
    DeletedParts(s, e);
    DeletingBlocks(s, e);
    if PopBlock(s.node).ok { RepairingShrinks(Deleting(s, e).0, valid, e); }
  }

  lemma {:induction false} RepairingShrinks(s: Chained, valid: (Block, Block) -> bool, e: Circumstances)
    requires |s.node.blocks| > 0
    ensures |Repairing(s, valid, e).0.node.blocks| <= |s.node.blocks|
    decreases |s.node.blocks|
  {
    hide Deleting;
    DeletingBlocks(s, e);
    if |s.node.blocks| >= 2 {
      RepairingIs(s, valid, e);
      if Deleting(s, e).1 { RepairingShrinks(Deleting(s, e).0, valid, e); }
    }
  }

  lemma NothingDeleted(chain: seq<Block>, lowest: nat, valid: (Block, Block) -> bool)
    requires lowest <= |chain|
    ensures Repaired(chain, chain, lowest, valid)
  {
  }

  lemma InvalidStep(chain: seq<Block>, left: seq<Block>, lowest: nat, valid: (Block, Block) -> bool)
    requires Repaired(chain, left, lowest, valid) && 2 <= lowest <= |chain| && |left| >= 2
    requires valid(chain[lowest - 1], chain[lowest - 2]) && !valid(left[|left| - 1], left[|left| - 2])
    ensures |left| > lowest && Repaired(chain, DropHead(left), lowest, valid) && |DropHead(left)| == |left| - 1
  {
  }

  lemma LowestIsLow(height: nat)
    requires height >= 2
    ensures 2 <= LowestHeight(height) <= height
  {
  }

  lemma AfterRoundIs(head: nat, height: nat)
    ensures height == head || height == head + 1 ==> (AfterRound(head, height) <==> head % 101 == 0)
  {
    SameRound(head);
  }

  lemma FollowsIs(b: Block, previous: Block)
    ensures Follows(b, previous) <==>
            b.previousBlock == previous.id && SlotNumber(b.timestamp) > SlotNumber(previous.timestamp)
  {
  }

  lemma BlockVerifiedIs(t: AccountTable, rows: seq<RoundRow>, saved: Option<Saved>, roundRewards: seq<RewardRow>,
                        blocks: seq<Block>, flags: set<Address>, genesisKey: PublicKey, b: Block)
    ensures BlockVerified(NodeOf(t, rows, saved, roundRewards, blocks, flags), genesisKey, b) <==>
            && b.totalFee == SumFees(b.transactions) && Fetch(t, OfKey(b.generator)).conf.isDelegate
            && forall i :: 0 <= i < |b.transactions| ==> VerifiedRow(t, genesisKey, b.transactions[i])
    ensures Fetch(t, OfKey(b.generator)).conf.isDelegate ==> OfKey(b.generator) in t
  {
    hide NodeOf, VerifiedRow, Verified, AcctsOf, SumFees, Row;
    NodeParts(t, rows, saved, roundRewards, blocks, flags);
    EntryConf(t, OfKey(b.generator));
    assert forall tx {:trigger Verified(AcctsOf(t), genesisKey, tx)} ::
             Verified(AcctsOf(t), genesisKey, tx) <==> VerifiedRow(t, genesisKey, tx) by {
      forall tx { VerifiedRowIs(t, rows, genesisKey, tx); }
    }
  }

  // ---------- unfolding for the methods, which see no bodies ----------

  lemma ApplyingIs(s: Chained, b: Block, e: Circumstances)
    ensures var a := ApplyBlock(UndoneList(s.node, s.pool.unconfirmed), b);
            var l := Requeued(s.node, s.pool, s.pool.unconfirmed, e.now, e.settings);
            Applying(s, b, e) == if a.ok then (Chained(a.node, AllRemoved(l, b.transactions),
                PushId(s.lastIds, b.id)), true)
                                 else (Chained(a.node, l, s.lastIds), false)
  {
    hide ApplyBlock, UndoneList, Requeued, AllRemoved, PushId;
  }

  lemma DeletingIs(s: Chained, e: Circumstances)
    requires |s.node.blocks| > 0
    ensures var p := PopBlock(s.node);
            Deleting(s, e) ==
              if p.ok then
                (s.(node := p.node, pool := AllTaken(p.node, s.pool,
                    Offered(Head(s.node.blocks).transactions, e.now), e.now, e.settings).0), true)
              else (s.(node := p.node), false)
  {
    hide PopBlock, AllTaken, Offered;
  }

  lemma ReceiptIs(chain: seq<Block>, lastIds: seq<string>, b: Block, e: Circumstances)
    requires e.rewards.Valid()
    ensures ReceiptPasses(chain, lastIds, b, e) <==>
            && e.receipt && b.previousBlock != "" && b.id !in lastIds
            && e.currentSlot - BLOCK_SLOT_WINDOW <= SlotNumber(b.timestamp) <= e.currentSlot
            && b.reward == e.rewards.CalcReward(|chain| + 1)
            && b.totalFee == SumFees(b.transactions)
    ensures ReceiptPasses(chain, lastIds, b, e) ==>
              e.currentSlot - 5 <= SlotNumber(b.timestamp) <= e.currentSlot
  {
  }

  lemma BlockPassesIs(n: Node, b: Block, e: Circumstances)
    requires e.rewards.Valid() && |n.blocks| > 0
    ensures BlockPasses(n, b, e) <==>
            && e.block && b.previousBlock != "" && Follows(b, Head(n.blocks))
            && SlotNumber(b.timestamp) <= e.currentSlot
            && b.reward == e.rewards.CalcReward(|n.blocks| + 1)
            && (forall i :: 0 <= i < |n.blocks| ==> n.blocks[i].id != b.id)
            && ForgerOk(n, b, e.hash) && BlockVerified(n, e.settings.genesisKey, b)
  {
    hide BlockVerified, Follows, ForgerOk;
  }

  lemma ForgerIs(n: Node, b: Block, height: nat, hash: Delegates.Digest -> Delegates.Digest)
    ensures ForgerOk(n, b, hash) <==> OwnsSlot(VotesNow(n), |n.blocks| + 1, hash, b)
    ensures ForkForgerOk(n, b, height, hash) <==>
            if AfterRound(|n.blocks|, height)
            then n.snapshot.Some? && OwnsSlot(n.snapshot.value.votes, height, hash, b)
            else OwnsSlot(VotesNow(n), height, hash, b)
  {
    hide OwnsSlot, VotesNow;
  }

  lemma ProcessingIs(s: Chained, b: Block, e: Circumstances)
    requires e.rewards.Valid() && |s.node.blocks| > 0
    ensures Processing(s, b, e) == if BlockPasses(s.node, b, e) then Applying(s, b, e) else (s, false)
  {
    hide BlockPasses, Applying;
  }

  lemma ForkOneStepsIs(s: Chained, b: Block, e: Circumstances)
    requires e.rewards.Valid() && |s.node.blocks| > 0
    ensures var r, d := ForkOneSteps(s, b, e), Deleting(s, e);
            if HeadStands(b, Head(s.node.blocks)) || !ForkForgerOk(s.node, b, |s.node.blocks| + 1, e.hash)
               || !ReceiptPasses(s.node.blocks, s.lastIds, b, e)
            then r == (s, Outcome(false, false, false, false))
            else if !d.1 then r == (d.0, Outcome(true, false, false, false))
            else |d.0.node.blocks| > 0 && r == (Deleting(d.0, e).0, Outcome(true, true, Deleting(d.0, e).1, false))
  {
    hide HeadStands, ReceiptPasses, ForkForgerOk, Deleting;
    DeletingBlocks(s, e);
  }

  lemma ForkFiveStepsIs(s: Chained, b: Block, e: Circumstances)
    requires e.rewards.Valid() && |s.node.blocks| > 0
    ensures var r, d := ForkFiveSteps(s, b, e), Deleting(s, e);
            if HeadStands(b, Head(s.node.blocks)) || !ForkForgerOk(s.node, b, |s.node.blocks|, e.hash)
               || !ReceiptPasses(s.node.blocks, s.lastIds, b, e)
            then r == (s, Outcome(false, false, false, false))
            else if !d.1 then r == (d.0, Outcome(true, false, false, false))
            else |d.0.node.blocks| > 0 && r == (Processing(d.0, b, e).0,
                Outcome(true, true, false, Processing(d.0, b, e).1))
  {
    hide HeadStands, ReceiptPasses, ForkForgerOk, Deleting, Processing;
    DeletingBlocks(s, e);
  }

  lemma ReceivingIs(s: Chained, b: Block, height: int, e: Circumstances)
    requires e.rewards.Valid() && |s.node.blocks| > 0
    ensures var r, head := Receiving(s, b, height, e), Head(s.node.blocks);
            if b.previousBlock == head.id && |s.node.blocks| + 1 == height
            then r == (Processing(s, b, e).0, Outcome(false, false, false, Processing(s, b, e).1))
            else if b.previousBlock != head.id && |s.node.blocks| + 1 == height then r == ForkOneSteps(s, b, e)
            else if b.previousBlock == head.previousBlock && height == |s.node.blocks|
                && b.id != head.id then r == ForkFiveSteps(s, b, e)
            else r == (s, Outcome(false, false, false, false))
  {
    hide Processing, ForkOneSteps, ForkFiveSteps;
  }

  lemma RepairingIs(s: Chained, valid: (Block, Block) -> bool, e: Circumstances)
    requires |s.node.blocks| >= 2
    ensures var bs, d := s.node.blocks, Deleting(s, e);
            Repairing(s, valid, e) == if valid(bs[|bs| - 1], bs[|bs| - 2]) then (s, true)
                                      else if !d.1 then (d.0, false)
                                      else assert |d.0.node.blocks| > 0 by { DeletingBlocks(s, e); } Repairing(d.0,
                                          valid, e)
  {
    hide Deleting;
    DeletingBlocks(s, e);
  }

  lemma OwnChainIs(s: Chained, valid: (Block, Block) -> bool, e: Circumstances)
    requires |s.node.blocks| >= 2
    ensures var bs, low := s.node.blocks, LowestHeight(|s.node.blocks|);
            OwnChain(s, valid, e) == if valid(bs[|bs| - 1], bs[|bs| - 2]) then (s, true)
                                     else if !valid(bs[low - 1], bs[low - 2]) then (s, false)
                                     else Repairing(s, valid, e)
  {
    hide Repairing, LowestHeight;
  }

  // ---------- forging ----------

  /** A made block as the ledger sees it. */
  function AsBlock(b: BlockCreation.FullBlock, id: string): Block {
    Block(id, b.previousBlock, b.timestamp, b.generatorPublicKey, Abs(b.totalFee), Abs(b.reward), b.transactions)
  }

  /** Made on this head by this delegate, from transactions that verify against this ledger. */
  ghost predicate MadeOn(n: Node, genesisKey: PublicKey, rewards: Rewards, forger: PublicKey, timestamp: int,
      b: BlockCreation.FullBlock)
    requires rewards.Valid() && |n.blocks| > 0
  {
    && b.previousBlock == Head(n.blocks).id != "" && b.timestamp == timestamp && b.generatorPublicKey == forger
    && b.totalFee == SumFees(b.transactions) && b.reward == rewards.CalcReward(|n.blocks| + 1)
    && forall t :: t in b.transactions ==>
         Verified(n.books.accts, genesisKey, t) && Ledger.Ready(Row(n.books.accts.conf, t.From()), t)
  }

  lemma MadeOnIs(n: Node, genesisKey: PublicKey, rewards: Rewards, forger: PublicKey, timestamp: int,
      b: BlockCreation.FullBlock)
    requires rewards.Valid() && |n.blocks| > 0
    ensures MadeOn(n, genesisKey, rewards, forger, timestamp, b) <==>
            && b.previousBlock == Head(n.blocks).id != "" && b.timestamp == timestamp && b.generatorPublicKey == forger
            && b.totalFee == SumFees(b.transactions) && b.reward == rewards.CalcReward(|n.blocks| + 1)
            && forall t :: t in b.transactions ==>
                 Verified(n.books.accts, genesisKey, t) && Ledger.Ready(Row(n.books.accts.conf, t.From()), t)
  {
    hide Verified, Ledger.Ready, Row, SumFees;
  }

  /** A made block passes everything its own node asks of a block, exactly when its slot is after the head's
      and not in the future, its id is new, and its forger owns its slot. */
  lemma MadeBlockPassesIff(n: Node, forger: PublicKey, timestamp: int, b: BlockCreation.FullBlock, id: string,
      e: Circumstances)
    requires e.rewards.Valid() && |n.blocks| > 0 && MadeOn(n, e.settings.genesisKey, e.rewards, forger, timestamp, b)
    ensures BlockPasses(n, AsBlock(b, id), e) <==>
            && e.block
            && SlotNumber(Head(n.blocks).timestamp) < SlotNumber(timestamp) <= e.currentSlot
            && (forall i :: 0 <= i < |n.blocks| ==> n.blocks[i].id != id)
            && ForgerOk(n, AsBlock(b, id), e.hash)
  {
    hide Verified, Ledger.Ready, SumFees, ForgerOk, UsernameFree, CheckDelegates;
    FeesNonNegative(n, e.settings.genesisKey, b.transactions);
    if ForgerOk(n, AsBlock(b, id), e.hash) { ForgerIsDelegate(n, AsBlock(b, id), e.hash); }
  }

  lemma {:induction false} FeesNonNegative(n: Node, genesisKey: PublicKey, txs: seq<Transaction>)
    requires forall t :: t in txs ==> Verified(n.books.accts, genesisKey, t)
    ensures SumFees(txs) >= 0
  {
    if txs != [] {
      assert txs[|txs| - 1] in txs;
      FeesNonNegative(n, genesisKey, txs[..|txs| - 1]);
    }
  }

  /** Whatever is picked, every transaction of the block was ready and verified. */
  lemma ReadyVerifies(n: Node, env: Settings, ps: seq<Pooled>, txs: seq<Transaction>)
    requires txs <= BlockCreation.Sorted(ReadyToForge(n, env, ps))
    ensures forall t :: t in txs ==>
              Verified(n.books.accts, env.genesisKey, t) && Ledger.Ready(Row(n.books.accts.conf, t.From()), t)
  {
    hide Verified, Ledger.Ready, Row;
    var ready := ReadyToForge(n, env, ps);
    BlockCreation.SortedIs(ready);
    AllReady(n, env, ps);
    forall t | t in txs
      ensures Verified(n.books.accts, env.genesisKey, t) && Ledger.Ready(Row(n.books.accts.conf, t.From()), t)
    {
      assert t in multiset(BlockCreation.Sorted(ready));
      assert t in ready;
    }
  }

  lemma {:induction false} AllReady(n: Node, env: Settings, ps: seq<Pooled>)
    ensures forall t :: t in ReadyToForge(n, env, ps) ==>
              Verified(n.books.accts, env.genesisKey, t) && Ledger.Ready(Row(n.books.accts.conf, t.From()), t)
  {
    hide Verified, Ledger.Ready, Row;
    if ps != [] { AllReady(n, env, ps[..|ps| - 1]); }
  }

  /** The transactions generateBlock takes: ready ones that verify, in the order they are listed. */
  ghost function ReadyToForge(n: Node, env: Settings, ps: seq<Pooled>): seq<Transaction> {
    if ps == [] then []
    else
      var pre, tx := ReadyToForge(n, env, ps[..|ps| - 1]), ps[|ps| - 1].tx;
      if Ledger.Ready(Row(n.books.accts.conf, tx.From()), tx) && env.outside(tx)
          && Verified(n.books.accts, env.genesisKey, tx)
      then pre + [tx] else pre
  }

  /** A transaction of the first entries. */
  predicate Among(ps: seq<Pooled>, limit: nat, tx: Transaction) {
    exists i :: 0 <= i < |ps| && i < limit && ps[i].tx == tx
  }

  /** It verifies and has the signatures its sender's group asks for. */
  ghost predicate Forgeable(n: Node, env: Settings, tx: Transaction) {
    && env.outside(tx) && Verified(n.books.accts, env.genesisKey, tx)
    && Countersigned(Row(n.books.accts.conf, tx.From()), tx)
  }

  lemma {:induction false} SelectedIff(n: Node, env: Settings, ps: seq<Pooled>, tx: Transaction)
    ensures tx in ReadyToForge(n, env, ps) <==> Among(ps, |ps|, tx) && Forgeable(n, env, tx)
  {
    hide Ledger.Ready, Verified, Row, Countersigned;
    if ps != [] {
      var pre, last := ps[..|ps| - 1], ps[|ps| - 1];
      SelectedIff(n, env, pre, tx);
      ReadyIff(Row(n.books.accts.conf, last.tx.From()), last.tx);
      AmongStep(ps, tx);
    }
  }

  lemma AmongStep(ps: seq<Pooled>, tx: Transaction)
    requires ps != []
    ensures Among(ps, |ps|, tx) <==> Among(ps[..|ps| - 1], |ps| - 1, tx) || ps[|ps| - 1].tx == tx
  {
    var pre := ps[..|ps| - 1];
    if i :| 0 <= i < |pre| && pre[i].tx == tx { assert ps[i].tx == tx; }
    if i :| 0 <= i < |ps| && ps[i].tx == tx { if i < |pre| { assert pre[i].tx == tx; } }
  }

  lemma AmongListed(ps: seq<Pooled>, tx: Transaction)
    ensures var l := Listed(ps, false, MAX_TRANSACTIONS_PER_BLOCK); Among(l, |l|, tx) <==> Among(ps, 25, tx)
  {
    var l := Listed(ps, false, MAX_TRANSACTIONS_PER_BLOCK);
    if i :| 0 <= i < |l| && l[i].tx == tx { assert ps[i].tx == tx; }
    if i :| 0 <= i < |ps| && i < 25 && ps[i].tx == tx { assert l[i].tx == tx; }
  }

  lemma NothingReady(n: Node, env: Settings, ps: seq<Pooled>)
    ensures ReadyToForge(n, env, ps[..0]) == []
  {
  }

  lemma ReadyNext(n: Node, env: Settings, ps: seq<Pooled>, i: nat)
    requires i < |ps|
    ensures var tx := ps[i].tx;
            ReadyToForge(n, env, ps[..i + 1]) == ReadyToForge(n, env, ps[..i]) +
              if Ledger.Ready(Row(n.books.accts.conf, tx.From()), tx) && env.outside(tx)
                  && Verified(n.books.accts, env.genesisKey, tx)
              then [tx] else []
  {
    hide Ledger.Ready, Verified, Row;
    Next(ps, i);
  }

  lemma {:induction false} ReadyToForgeIs(n: Node, env: Settings, ps: seq<Pooled>)
    requires DistinctIds(ps)
    ensures var r := ReadyToForge(n, env, ps);
            && |r| <= |ps| && BlockCreation.DistinctTransactions(r)
            && forall i :: 0 <= i < |r| ==> r[i].id in Ids(ps)
  {
    hide Ledger.Ready, Verified, Row, Ids;
    if ps != [] {
      var pre, last := ps[..|ps| - 1], ps[|ps| - 1];
      assert ps == pre + [last];
      IdsPush(pre, last);
      ReadyToForgeIs(n, env, pre);
    }
  }

  lemma ListedFromQueue(ps: seq<Pooled>)
    ensures var l := Listed(ps, false, MAX_TRANSACTIONS_PER_BLOCK);
            && |l| <= MAX_TRANSACTIONS_PER_BLOCK && (forall p :: p in l ==> p in ps)
            && (DistinctIds(ps) ==> DistinctIds(l))
  {
  }

  lemma RowChecks(t: AccountTable, rows: seq<RoundRow>, saved: Option<Saved>, roundRewards: seq<RewardRow>,
                  blocks: seq<Block>, flags: set<Address>, genesisKey: PublicKey, tx: Transaction)
    requires tx.From() in t
    ensures var n := NodeOf(t, rows, saved, roundRewards, blocks, flags);
            && Row(n.books.accts.conf, tx.From()) == SideOf(t[tx.From()].conf)
            && (VerifiedRow(t, genesisKey, tx) <==> Verified(n.books.accts, genesisKey, tx))
  {
    hide VerifiedRow, Verified;
    RowNode(t, rows, saved, roundRewards, blocks, flags, tx.From());
    NodeParts(t, rows, saved, roundRewards, blocks, flags);
    VerifiedRowIs(t, rows, genesisKey, tx);
  }

  lemma DroppedLength(chain: seq<Block>)
    requires |chain| > 0
    ensures |DropHead(chain)| == |chain| - 1 && DropHead(chain) == chain[..|chain| - 1]
  {
  }
}
