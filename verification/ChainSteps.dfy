/**
  What receiving, applying and deleting blocks comes to on a whole node (modules/blocks/process.js,
  verify.js, chain.js), as functions of the ledger, the pool's lists and the last block ids.
 */
module ChainSteps {
  import opened Base
  import opened Accounts
  import opened Payouts
  import opened Ledger
  import opened PoolQueues
  import opened PoolLists
  import opened PoolBalances
  import opened PoolSteps
  import opened BlockRewards
  import opened ForkChoice
  import opened LastIds
  import opened Delegates
  import opened ActiveDelegates

  datatype Chained = Chained(node: Node, pool: Lists, lastIds: seq<string>)

  /** The clock, the configuration, the hash that reorders delegates, and how the checks come out that look at
      neither accounts nor chain: `receipt` and `block` stand for signature, version, id and payload hash,
      `block` for each transaction's own checks as well. */
  datatype Circumstances = Circumstances(
    currentSlot: int, now: int, rewards: Rewards, settings: Settings, hash: Digest -> Digest, receipt: bool,
    block: bool)

  /** verifyReceipt: the block is checked as the successor of the current head, whatever it claims. */
  predicate ReceiptPasses(chain: seq<Block>, lastIds: seq<string>, b: Block, e: Circumstances)
    requires e.rewards.Valid()
  {
    && e.receipt && b.previousBlock != "" && b.id !in lastIds
    && e.currentSlot - BLOCK_SLOT_WINDOW <= SlotNumber(b.timestamp) <= e.currentSlot
    && b.reward == e.rewards.CalcReward(|chain| + 1)
    && b.totalFee == SumFees(b.transactions)
  }

  /** verifyBlock and the checks of processBlock. */
  ghost predicate BlockPasses(n: Node, b: Block, e: Circumstances)
    requires e.rewards.Valid() && |n.blocks| > 0
  {
    && e.block && b.previousBlock != "" && Follows(b, Head(n.blocks)) && SlotNumber(b.timestamp) <= e.currentSlot
    && b.reward == e.rewards.CalcReward(|n.blocks| + 1)
    && (forall i :: 0 <= i < |n.blocks| ==> n.blocks[i].id != b.id)
    && ForgerOk(n, b, e.hash)
    && BlockVerified(n, e.settings.genesisKey, b)
  }

  function AllRemoved(l: Lists, txs: seq<Transaction>): Lists {
    if txs == [] then l else Removed(AllRemoved(l, txs[..|txs| - 1]), txs[|txs| - 1].id)
  }

  /** applyBlock: the unconfirmed list is undone first; what went into the block leaves the pool. */
  ghost function Applying(s: Chained, b: Block, e: Circumstances): (Chained, bool) {
    var a := ApplyBlock(UndoneList(s.node, s.pool.unconfirmed), b);
    var l := Requeued(s.node, s.pool, s.pool.unconfirmed, e.now, e.settings);
    if a.ok then (Chained(a.node, AllRemoved(l, b.transactions), PushId(s.lastIds, b.id)), true)
    else (Chained(a.node, l, s.lastIds), false)
  }

  /** processBlock. */
  ghost function Processing(s: Chained, b: Block, e: Circumstances): (Chained, bool)
    requires e.rewards.Valid() && |s.node.blocks| > 0
  {
    if BlockPasses(s.node, b, e) then Applying(s, b, e) else (s, false)
  }

  /** The transactions of a deleted block as the pool gets them. */
  function Offered(txs: seq<Transaction>, now: int): seq<Pooled> {
    seq(|txs|, i requires 0 <= i < |txs| => Pooled(txs[i], false, false, now))
  }

  /** deleteLastBlock: the transactions of the deleted block are offered to the pool again. */
  ghost function Deleting(s: Chained, e: Circumstances): (r: (Chained, bool))
    requires |s.node.blocks| > 0
  {
    var p := PopBlock(s.node);
    if p.ok then
      (s.(node := p.node, pool := AllTaken(p.node, s.pool, Offered(Head(s.node.blocks).transactions, e.now), e.now,
          e.settings).0), true)
    else (s.(node := p.node), false)
  }

  /** A fork's block of this height is looked at when it is older than the head, its forger owns its slot, and it
      passes on receipt. */
  ghost predicate Contends(n: Node, lastIds: seq<string>, b: Block, height: nat, e: Circumstances)
    requires e.rewards.Valid() && |n.blocks| > 0
  {
    !HeadStands(b, Head(n.blocks)) && ForkForgerOk(n, b, height, e.hash) && ReceiptPasses(n.blocks, lastIds, b, e)
  }

  ghost function ForkOneSteps(s: Chained, b: Block, e: Circumstances): (Chained, Outcome)
    requires e.rewards.Valid() && |s.node.blocks| > 0
  {
    if !Contends(s.node, s.lastIds, b, |s.node.blocks| + 1, e) then (s, Outcome(false, false, false, false)) else
    var d := Deleting(s, e);
    if !d.1 || |d.0.node.blocks| == 0 then (d.0, Outcome(true, false, false, false)) else
    var d2 := Deleting(d.0, e);
    (d2.0, Outcome(true, true, d2.1, false))
  }

  ghost function ForkFiveSteps(s: Chained, b: Block, e: Circumstances): (Chained, Outcome)
    requires e.rewards.Valid() && |s.node.blocks| > 0
  {
    if !Contends(s.node, s.lastIds, b, |s.node.blocks|, e) then (s, Outcome(false, false, false, false)) else
    var d := Deleting(s, e);
    if !d.1 || |d.0.node.blocks| == 0 then (d.0, Outcome(true, false, false, false)) else
    var p := Processing(d.0, b, e);
    (p.0, Outcome(true, true, false, p.1))
  }

  /** onReceiveBlock. */
  ghost function Receiving(s: Chained, b: Block, height: int, e: Circumstances): (Chained, Outcome)
    requires e.rewards.Valid() && |s.node.blocks| > 0
  {
    var chain := s.node.blocks;
    if b.previousBlock == Head(chain).id && |chain| + 1 == height then
      var p := Processing(s, b, e);
      (p.0, Outcome(false, false, false, p.1))
    else if ForkOne(chain, b, height) then ForkOneSteps(s, b, e)
    else if ForkFive(chain, b, height) then ForkFiveSteps(s, b, e)
    else (s, Outcome(false, false, false, false))
  }

  /** By whose votes a fork's forger is judged.  A sibling of the head that is the last block of its round, and any
      block for the height after such a head, is judged by the votes of the snapshot, since landing the round has
      changed the votes; every other one by the votes of this moment. */
  lemma ForkJudged(s: Chained, b: Block, height: nat, e: Circumstances)
    requires e.rewards.Valid() && |s.node.blocks| > 0
    requires ForkOne(s.node.blocks, b, height) || ForkFive(s.node.blocks, b, height)
    ensures Receiving(s, b, height, e).1.receiptOk <==>
            && !HeadStands(b, Head(s.node.blocks)) && ReceiptPasses(s.node.blocks, s.lastIds, b, e)
            && (if |s.node.blocks| % 101 == 0
                then s.node.snapshot.Some? && OwnsSlot(s.node.snapshot.value.votes, height, e.hash, b)
                else OwnsSlot(VotesNow(s.node), height, e.hash, b))
    ensures !Receiving(s, b, height, e).1.receiptOk ==> Receiving(s, b, height, e).0 == s
  {
    hide HeadStands, ReceiptPasses, OwnsSlot, VotesNow, Deleting, Processing;
    SameRound(|s.node.blocks|);
  }

  lemma SameRound(height: nat)
    ensures height % 101 != 0 ==> CalcRound(height) == CalcRound(height + 1)
  {
  }

  // ---------- modules/loader.js ----------

  /** The repair goes back to the last multiple of 101 that leaves a whole round between itself and the head's round;
      within the first two rounds to height 2. */
  lemma LowestHeightIs(height: nat)
    ensures height <= 202 ==> LowestHeight(height) == 2
    ensures height > 202 ==> var h := LowestHeight(height); h % 101 == 0 && h + 101 < height <= h + 202
  {
  }

  /** The end of the second last round, or height 2 in the first two rounds. */
  function LowestHeight(height: nat): (h: nat)
    ensures height >= 2 ==> 2 <= h <= height
  {
    var secondLastRound := CalcRound(height) - 2;
    if secondLastRound < 1 then 2 else secondLastRound * ACTIVE_DELEGATES
  }

  /** Delete until the head is valid, or a deletion fails. */
  ghost function Repairing(s: Chained, valid: (Block, Block) -> bool, e: Circumstances): (Chained, bool)
    requires |s.node.blocks| > 0
    decreases |s.node.blocks|
  {
    var bs := s.node.blocks;
    if |bs| < 2 then (s, false)
    else if valid(bs[|bs| - 1], bs[|bs| - 2]) then (s, true)
    else
      var d := Deleting(s, e);
      if d.1 && 0 < |d.0.node.blocks| < |bs| then Repairing(d.0, valid, e) else (d.0, false)
  }

  /** validateOwnChain. */
  ghost function OwnChain(s: Chained, valid: (Block, Block) -> bool, e: Circumstances): (Chained, bool)
    requires |s.node.blocks| >= 2
  {
    var bs, low := s.node.blocks, LowestHeight(|s.node.blocks|);
    if valid(bs[|bs| - 1], bs[|bs| - 2]) then (s, true)
    else if !valid(bs[low - 1], bs[low - 2]) then (s, false)
    else Repairing(s, valid, e)
  }

  // ---------- the chain ----------

  lemma BlocksGrow(n: Node, b: Block)
    ensures ApplyBlock(n, b).node.blocks == if ApplyBlock(n, b).ok then n.blocks + [b] else n.blocks
  {
    hide UAll, CAll, Tick;
  }

  lemma BlocksShrink(n: Node)
    requires |n.blocks| > 0
    ensures PopBlock(n).node.blocks == if PopBlock(n).ok then DropHead(n.blocks) else n.blocks
    ensures |n.blocks| == 1 ==> !PopBlock(n).ok
  {
    hide UndoAll, BackwardTick;
  }

  lemma {:induction false} UndoneListBlocks(n: Node, ps: seq<Pooled>)
    ensures UndoneList(n, ps).blocks == n.blocks
    decreases |ps|
  {
    hide UndoneOne;
    if ps != [] {
      UndoneOneConf(n, ps[0].tx);
      UndoneListBlocks(UndoneOne(n, ps[0].tx), ps[1..]);
    }
  }

  lemma {:induction false} UndoneListConf(n: Node, ps: seq<Pooled>)
    ensures UndoneList(n, ps).books.accts.conf == n.books.accts.conf
    decreases |ps|
  {
    hide UndoneOne;
    if ps != [] {
      UndoneOneConf(n, ps[0].tx);
      UndoneListConf(UndoneOne(n, ps[0].tx), ps[1..]);
    }
  }

  lemma ProcessingBlocks(s: Chained, b: Block, e: Circumstances)
    requires e.rewards.Valid() && |s.node.blocks| > 0
    ensures var p := Processing(s, b, e);
            && p.0.node.blocks == (if p.1 then s.node.blocks + [b] else s.node.blocks)
            && (p.1 ==> Follows(b, Head(s.node.blocks)))
  {
    hide ApplyBlock, UndoneList, Requeued, AllRemoved, BlockVerified, Follows, PushId;
    BlocksGrow(UndoneList(s.node, s.pool.unconfirmed), b);
    UndoneListBlocks(s.node, s.pool.unconfirmed);
  }

  lemma DeletingBlocks(s: Chained, e: Circumstances)
    requires |s.node.blocks| > 0
    ensures var d := Deleting(s, e);
            && d.0.node.blocks == (if d.1 then DropHead(s.node.blocks) else s.node.blocks)
            && d.0.lastIds == s.lastIds
            && (d.1 ==> |s.node.blocks| > 1)
  {
    hide PopBlock, AllTaken, Offered;
    BlocksShrink(s.node);
  }

  /** Whatever the circumstances, the chain ends as the fork rules on lists of blocks say. */
  lemma ReceivingBlocks(s: Chained, b: Block, height: int, e: Circumstances)
    requires e.rewards.Valid() && |s.node.blocks| > 0
    ensures var r := Receiving(s, b, height, e);
            && r.0.node.blocks == Receive(s.node.blocks, b, height, r.1)
            && (r.1.processed ==>
                  Follows(b, if ForkFive(s.node.blocks, b, height)
                      && |s.node.blocks| > 1 then Head(DropHead(s.node.blocks)) else Head(s.node.blocks)))
  {
    hide Processing, Deleting, Follows, HeadStands, ReceiptPasses;
    ProcessingBlocks(s, b, e);
    DeletingBlocks(s, e);
    var d := Deleting(s, e).0;
    if |d.node.blocks| > 0 {
      ProcessingBlocks(d, b, e);
      DeletingBlocks(d, e);
    }
  }

  /** Every receipt keeps a linked chain with increasing slots, and its genesis block. */
  lemma ReceivingKeeps(s: Chained, b: Block, height: int, e: Circumstances)
    requires e.rewards.Valid() && ChainOk(s.node.blocks)
    ensures var r := Receiving(s, b, height, e).0.node.blocks;
            ChainOk(r) && r[0] == s.node.blocks[0] && |r| >= |s.node.blocks| - 2
  {
    hide Receiving, Receive, Follows;
    ReceivingBlocks(s, b, height, e);
    ReceiveKeeps(s.node.blocks, b, height, Receiving(s, b, height, e).1);
  }

  /** The receipt test asks for the reward of the height after the head, processing for that of the
      head's own: a sibling takes the head's place only where the two are the same, and only if its id is
      not among the last ones. */
  lemma ReplacementNeedsSameReward(s: Chained, b: Block, height: int, e: Circumstances)
    requires e.rewards.Valid() && |s.node.blocks| > 0 && ForkFive(s.node.blocks, b, height)
    ensures Receiving(s, b, height, e).1.processed ==>
              && e.rewards.CalcReward(|s.node.blocks|) == e.rewards.CalcReward(|s.node.blocks| + 1)
              && b.id !in s.lastIds
  {
    hide HeadStands, Deleting, Applying, Follows, BlockVerified;
    DeletingBlocks(s, e);
  }

  lemma DeletedParts(s: Chained, e: Circumstances)
    requires |s.node.blocks| > 0
    ensures var d, p := Deleting(s, e), PopBlock(s.node);
            && d.1 == p.ok && d.0.node == p.node && d.0.lastIds == s.lastIds
            && d.0.pool.unconfirmed == s.pool.unconfirmed
  {
    hide PopBlock, AllTaken, Offered;
    var p := PopBlock(s.node);
    AllTakenUnconfirmed(p.node, s.pool, Offered(Head(s.node.blocks).transactions, e.now), e.now, e.settings);
  }

  /** The transactions of a deleted block are offered to the pool in their order in the block, as just received, neither
      bundled nor ready. */
  lemma DeletingReturns(s: Chained, e: Circumstances, ps: seq<Pooled>)
    requires |s.node.blocks| > 0 && Deleting(s, e).1
    requires var txs := Head(s.node.blocks).transactions;
             |ps| == |txs| && forall i :: 0 <= i < |ps| ==> ps[i] == Pooled(txs[i], false, false, e.now)
    ensures Deleting(s, e).0.pool == AllTaken(PopBlock(s.node).node, s.pool, ps, e.now, e.settings).0
  {
    hide PopBlock, AllTaken;
    assert Offered(Head(s.node.blocks).transactions, e.now) == ps;
  }

  lemma ProcessingOk(s: Chained, b: Block, e: Circumstances)
    requires e.rewards.Valid() && |s.node.blocks| > 0
    ensures Processing(s, b, e).1 <==>
            BlockPasses(s.node, b, e) && ApplyBlock(UndoneList(s.node, s.pool.unconfirmed), b).ok
  {
    hide BlockPasses, ApplyBlock, UndoneList, Requeued, AllRemoved, PushId;
  }

  /** A receipt leaves a shorter chain if and only if the block is one for a fork that beats the head on receipt,
      the head can be popped, and either the block has another predecessor, or, with the head gone, it does not
      pass or does not apply. */
  lemma ReceiptShortensIff(s: Chained, b: Block, height: int, e: Circumstances)
    requires e.rewards.Valid() && |s.node.blocks| > 0
    ensures var chain, p := s.node.blocks, PopBlock(s.node);
            |Receiving(s, b, height, e).0.node.blocks| < |chain| <==>
            && (ForkOne(chain, b, height) || ForkFive(chain, b, height))
            && Contends(s.node, s.lastIds, b, if ForkOne(chain, b, height) then |chain| + 1 else |chain|, e)
            && p.ok && |p.node.blocks| > 0
            && (ForkFive(chain, b, height) ==>
                  !(BlockPasses(p.node, b, e) && ApplyBlock(UndoneList(p.node, s.pool.unconfirmed), b).ok))
  {
    hide Processing, Deleting, Contends, BlockPasses, ApplyBlock, UndoneList, PopBlock;
    var d := Deleting(s, e);
    DeletedParts(s, e);
    DeletingBlocks(s, e);
    ProcessingBlocks(s, b, e);
    if |d.0.node.blocks| > 0 {
      ProcessingBlocks(d.0, b, e);
      ProcessingOk(d.0, b, e);
      DeletingBlocks(d.0, e);
    }
  }

  /** The head again with a smaller id and the reward of the next height. */
  function EarlyReward(head: Block, id: string, reward: nat): Block { head.(id := id, reward := reward) }

  /** So at the last height before the reward changes, a block that copies the head, with a smaller id and the next
      reward, costs any node that head and puts nothing in its place: the receipt is checked against the next
      height and passes, processing is checked against its own and does not. */
  lemma SiblingAtMilestoneCostsHead(s: Chained, id: string, e: Circumstances)
    requires e.rewards.Valid() && |s.node.blocks| > 1 && PopBlock(s.node).ok
    requires e.rewards.CalcReward(|s.node.blocks|) != e.rewards.CalcReward(|s.node.blocks| + 1)
    requires var head := Head(s.node.blocks);
             && Less(id, head.id) && id !in s.lastIds && head.previousBlock != ""
             && head.totalFee == SumFees(head.transactions)
             && ForkForgerOk(s.node, head, |s.node.blocks|, e.hash)
             && e.receipt && e.currentSlot - BLOCK_SLOT_WINDOW <= SlotNumber(head.timestamp) <= e.currentSlot
    ensures var chain := s.node.blocks;
            var b := EarlyReward(Head(chain), id, e.rewards.CalcReward(|chain| + 1));
            Receiving(s, b, |chain|, e).0.node.blocks == DropHead(chain)
  {
    hide Deleting, PopBlock, Less, Processing, SumFees, BlockPasses, Contends, EarlyReward, ForkForgerOk,
         e.rewards.CalcReward;
    var chain := s.node.blocks;
    var head := Head(chain);
    var b := EarlyReward(head, id, e.rewards.CalcReward(|chain| + 1));
    EarlyContends(s, id, e);
    EarlyIs(head, id, e.rewards.CalcReward(|chain| + 1));
    DeletedParts(s, e);
    DeletingBlocks(s, e);
    var d := Deleting(s, e).0;
    WrongReward(d.node, b, e);
    ProcessingOk(d, b, e);
    ProcessingBlocks(d, b, e);
  }

  lemma EarlyIs(head: Block, id: string, reward: nat)
    ensures var b := EarlyReward(head, id, reward);
            && b.previousBlock == head.previousBlock && b.reward == reward && b.id == id
            && (Less(id, head.id) ==> id != head.id)
  {
    LessIrreflexive(id);
  }

  lemma EarlyContends(s: Chained, id: string, e: Circumstances)
    requires e.rewards.Valid() && |s.node.blocks| > 0
    requires var head := Head(s.node.blocks);
             && Less(id, head.id) && id !in s.lastIds && head.previousBlock != ""
             && head.totalFee == SumFees(head.transactions)
             && ForkForgerOk(s.node, head, |s.node.blocks|, e.hash)
             && e.receipt && e.currentSlot - BLOCK_SLOT_WINDOW <= SlotNumber(head.timestamp) <= e.currentSlot
    ensures var chain := s.node.blocks;
            Contends(s.node, s.lastIds, EarlyReward(Head(chain), id, e.rewards.CalcReward(|chain| + 1)), |chain|, e)
  {
    hide Less, SumFees, ForkForgerOk, e.rewards.CalcReward;
    var chain := s.node.blocks;
    var head := Head(chain);
    var b := EarlyReward(head, id, e.rewards.CalcReward(|chain| + 1));
    SameOwner(s.node, head, b, |chain|, e.hash);
    BeforeOrder(b, head, b);
  }

  lemma WrongReward(n: Node, b: Block, e: Circumstances)
    requires e.rewards.Valid() && |n.blocks| > 0 && b.reward != e.rewards.CalcReward(|n.blocks| + 1)
    ensures !BlockPasses(n, b, e)
  {
    hide BlockVerified, Follows, ForgerOk, e.rewards.CalcReward;
  }

  // ---------- siblings on a real node ----------

  /** The states of a node that receives the blocks one after the other, each claiming this height. */
  ghost function AfterAll(s: Chained, bs: seq<(Block, Circumstances)>, height: int): (r: Chained)
    requires |s.node.blocks| > 0 && forall i :: 0 <= i < |bs| ==> bs[i].1.rewards.Valid()
    ensures |r.node.blocks| > 0
  {
    if bs == [] then s
    else
      var pre := AfterAll(s, bs[..|bs| - 1], height);
      var r := Receiving(pre, bs[|bs| - 1].0, height, bs[|bs| - 1].1).0;
      if |r.node.blocks| > 0 then r else pre
  }

  function BlocksOf(bs: seq<(Block, Circumstances)>): seq<Block> {
    seq(|bs|, i requires 0 <= i < |bs| => bs[i].0)
  }

  /** Each block that does not lose to the head when it arrives passes all it is put through. */
  ghost predicate AllPass(s: Chained, bs: seq<(Block, Circumstances)>, height: int)
    requires |s.node.blocks| > 0 && forall i :: 0 <= i < |bs| ==> bs[i].1.rewards.Valid()
  {
    forall i {:trigger bs[i]} :: 0 <= i < |bs| ==>
      var t := AfterAll(s, bs[..i], height);
      var o := Receiving(t, bs[i].0, height, bs[i].1).1;
      if bs[i].0.previousBlock == Head(t.node.blocks).id && |t.node.blocks| + 1 == height then o.processed
      else ForkFive(t.node.blocks, bs[i].0, height) && !HeadStands(bs[i].0, Head(t.node.blocks)) ==>
              o.receiptOk && o.firstPop && o.processed
  }

  lemma AllPassPrefix(s: Chained, bs: seq<(Block, Circumstances)>, height: int, n: nat)
    requires |s.node.blocks| > 0 && forall i :: 0 <= i < |bs| ==> bs[i].1.rewards.Valid()
    requires AllPass(s, bs, height) && n <= |bs|
    ensures AllPass(s, bs[..n], height)
  {
    hide AfterAll, Receiving, HeadStands;
    forall i | 0 <= i < n
      ensures var t := AfterAll(s, bs[..n][..i], height);
              var o := Receiving(t, bs[..n][i].0, height, bs[..n][i].1).1;
              if bs[..n][i].0.previousBlock == Head(t.node.blocks).id && |t.node.blocks| + 1 == height then o.processed
              else ForkFive(t.node.blocks, bs[..n][i].0, height) && !HeadStands(bs[..n][i].0, Head(t.node.blocks)) ==>
                      o.receiptOk && o.firstPop && o.processed
    {
      assert bs[..n][..i] == bs[..i] && bs[..n][i] == bs[i];
    }
  }

  /** Siblings that pass are received as the fork rules say, so on two nodes with the same parent block
      the head does not depend on the order (FirstSiblingWins, SiblingsConverge). */
  lemma {:induction false} NodeReceivesSiblings(s: Chained, bs: seq<(Block, Circumstances)>)
    requires |s.node.blocks| > 0 && forall i :: 0 <= i < |bs| ==> bs[i].1.rewards.Valid()
    requires Siblings(s.node.blocks, BlocksOf(bs)) && AllPass(s, bs, |s.node.blocks| + 1)
    ensures AfterAll(s, bs, |s.node.blocks| + 1).node.blocks == AfterSiblings(s.node.blocks, BlocksOf(bs))
  {
    hide *;
    var parent, height := s.node.blocks, |s.node.blocks| + 1;
    var chain := BlocksOf(bs);
    BlocksOfAre(bs);
    if bs == [] {
      AfterNone(s, height);
      NoSiblings(parent);
    } else {
      var n := |bs| - 1;
      var pre, b, e := bs[..n], bs[n].0, bs[n].1;
      PrefixSiblings(parent, chain, n);
      AllPassPrefix(s, bs, height, n);
      NodeReceivesSiblings(s, pre);
      AfterLast(s, bs, height);
      LastPasses(s, bs, height);
      ReceivingBlocks(AfterAll(s, pre, height), b, height, e);
      LastSibling(parent, chain, Receiving(AfterAll(s, pre, height), b, height, e).1);
    }
  }

  /** Two nodes on the same chain that receive the same siblings in different orders, and differ in all
      else, end with the same chain; its head is the first sibling by timestamp and id. */
  lemma NodesConverge(s: Chained, t: Chained, bs: seq<(Block, Circumstances)>, cs: seq<(Block, Circumstances)>)
    requires |s.node.blocks| > 0 && s.node.blocks == t.node.blocks && bs != []
    requires forall i :: 0 <= i < |bs| ==> bs[i].1.rewards.Valid()
    requires forall i :: 0 <= i < |cs| ==> cs[i].1.rewards.Valid()
    requires Siblings(s.node.blocks, BlocksOf(bs)) && AllPass(s, bs, |s.node.blocks| + 1)
            && AllPass(t, cs, |s.node.blocks| + 1)
    requires forall b :: b in BlocksOf(bs) <==> b in BlocksOf(cs)
    ensures var chain := AfterAll(s, bs, |s.node.blocks| + 1).node.blocks;
            && chain == AfterAll(t, cs, |s.node.blocks| + 1).node.blocks
            && chain == s.node.blocks + [Head(chain)] && IsFirst(Head(chain), BlocksOf(bs))
  {
    hide *;
    var parent := s.node.blocks;
    BlocksOfAre(bs);
    BlocksOfAre(cs);
    SameSiblings(parent, BlocksOf(bs), BlocksOf(cs));
    NodeReceivesSiblings(s, bs);
    NodeReceivesSiblings(t, cs);
    SiblingsConverge(parent, BlocksOf(bs), BlocksOf(cs));
    FirstSiblingWins(parent, BlocksOf(bs));
  }

  lemma SameSiblings(parent: seq<Block>, bs: seq<Block>, cs: seq<Block>)
    requires |parent| > 0 && bs != [] && Siblings(parent, bs) && forall b :: b in bs <==> b in cs
    ensures Siblings(parent, cs) && cs != []
  {
    assert bs[0] in cs;
    forall i | 0 <= i < |cs| ensures cs[i].previousBlock == Head(parent).id {
      assert cs[i] in bs;
    }
    forall i, j | 0 <= i < |cs| && 0 <= j < |cs| && cs[i].id == cs[j].id ensures cs[i] == cs[j] {
      assert cs[i] in bs && cs[j] in bs;
    }
  }

  lemma BlocksOfAre(bs: seq<(Block, Circumstances)>)
    ensures |BlocksOf(bs)| == |bs|
    ensures bs == [] ==> BlocksOf(bs) == []
    ensures bs != [] ==> var n := |bs| - 1; BlocksOf(bs)[..n] == BlocksOf(bs[..n]) && BlocksOf(bs)[n] == bs[n].0
  {
  }

  lemma AfterNone(s: Chained, height: int)
    requires |s.node.blocks| > 0
    ensures AfterAll(s, [], height) == s
  {
  }

  lemma NoSiblings(parent: seq<Block>)
    requires |parent| > 0
    ensures AfterSiblings(parent, []) == parent
  {
  }

  lemma AfterLast(s: Chained, bs: seq<(Block, Circumstances)>, height: int)
    requires |s.node.blocks| > 0 && forall i :: 0 <= i < |bs| ==> bs[i].1.rewards.Valid()
    requires bs != []
    ensures var n := |bs| - 1;
            var r := Receiving(AfterAll(s, bs[..n], height), bs[n].0, height, bs[n].1);
            |r.0.node.blocks| > 0 && AfterAll(s, bs, height) == r.0
  {
    hide Receiving, Receive;
    var n := |bs| - 1;
    ReceivingBlocks(AfterAll(s, bs[..n], height), bs[n].0, height, bs[n].1);
  }

  lemma LastPasses(s: Chained, bs: seq<(Block, Circumstances)>, height: int)
    requires |s.node.blocks| > 0 && forall i :: 0 <= i < |bs| ==> bs[i].1.rewards.Valid()
    requires bs != [] && AllPass(s, bs, height)
    ensures var n := |bs| - 1;
            var t := AfterAll(s, bs[..n], height);
            var o := Receiving(t, bs[n].0, height, bs[n].1).1;
            if bs[n].0.previousBlock == Head(t.node.blocks).id && |t.node.blocks| + 1 == height then o.processed
            else ForkFive(t.node.blocks, bs[n].0, height) && !HeadStands(bs[n].0, Head(t.node.blocks)) ==>
                   o.receiptOk && o.firstPop && o.processed
  {
    hide AfterAll, Receiving, HeadStands;
  }

  /** The last of the siblings is received by the rules whatever else its outcome says. */
  lemma LastSibling(parent: seq<Block>, bs: seq<Block>, o: Outcome)
    requires |parent| > 0 && bs != [] && Siblings(parent, bs)
    requires var n := |bs| - 1;
             var t := AfterSiblings(parent, bs[..n]);
             if bs[n].previousBlock == Head(t).id && |t| == |parent| then o.processed
             else ForkFive(t, bs[n], |parent| + 1) && !HeadStands(bs[n], Head(t)) ==>
                     o.receiptOk && o.firstPop && o.processed
    ensures var n := |bs| - 1;
            Receive(AfterSiblings(parent, bs[..n]), bs[n], |parent| + 1, o) == AfterSiblings(parent, bs)
  {
    hide HeadStands;
    var n := |bs| - 1;
    PrefixSiblings(parent, bs, n);
    if n > 0 { FirstSiblingWins(parent, bs[..n]); }
  }
}
