/** Where the coins are: totals over whole runs, and no negative balances on the way. */
module Conservation {
  import opened Base
  import opened Diff
  import opened Accounts
  import opened Tally
  import opened Payouts
  import opened Voting
  import opened Ledger
  import opened Rollback
  import opened Invariants
  import opened BlockRules
  import opened PopBlocks
  import opened Landing
  import opened History
  import opened RunAccounts

  // ---------- conservation ----------

  /** A vote or multisignature transaction may carry an amount that nobody is credited with. */
  function Burned(txs: seq<Transaction>): int {
    if txs == [] then 0
    else
      var tx := txs[|txs| - 1];
      Burned(txs[..|txs| - 1]) + if tx.asset.Send? then 0 else tx.amount
  }

  function BurnedIn(bs: seq<Block>): int {
    if bs == [] then 0 else BurnedIn(bs[..|bs| - 1]) + Burned(bs[|bs| - 1].transactions)
  }

  ghost predicate CoversTxs(U: set<Address>, txs: seq<Transaction>) {
    forall i :: 0 <= i < |txs| ==> txs[i].From() in U && (txs[i].asset.Send? ==> txs[i].asset.recipient in U)
  }

  /** U contains every sender, recipient and generator the blocks name. */
  ghost predicate Covers(U: set<Address>, bs: seq<Block>) {
    forall i :: 0 <= i < |bs| ==> OfKey(bs[i].generator) in U && CoversTxs(U, bs[i].transactions)
  }

  ghost function Total(U: set<Address>, b: Books): int { Sum(U, Balances(b.accts.conf)) }

  lemma MovedTotal(U: set<Address>, conf: SideTable, tx: Transaction)
    requires tx.From() in U && (tx.asset.Send? ==> tx.asset.recipient in U)
    ensures Sum(U, Balances(Moved(conf, tx))) ==
            Sum(U, Balances(conf)) - tx.fee - if tx.asset.Send? then 0 else tx.amount
  {
    hide Touched, Bump, Sum;
    TouchedFields(Row(conf, tx.From()), tx);
    SumUpdate(U, Balances(conf), Balances(Touch(conf, tx)), tx.From());
    if tx.asset.Send? { BalancesBump(U, Touch(conf, tx), tx.asset.recipient, tx.amount); }
  }

  lemma {:induction false} FoldTotal(U: set<Address>, b: Books, round: int, txs: seq<Transaction>)
    requires CoversTxs(U, txs)
    ensures Total(U, BooksFold(b, round, txs)) == Total(U, b) - SumFees(txs) - Burned(txs)
  {
    hide Pair, CPending, Sum, Balances;
    if txs != [] {
      var pre, tx := txs[..|txs| - 1], txs[|txs| - 1];
      assert forall i :: 0 <= i < |pre| ==> pre[i] == txs[i];
      FoldTotal(U, b, round, pre);
      var mid := BooksFold(b, round, pre).accts;
      PairConf(mid, tx);
      assert Pair(mid, tx).conf == Moved(mid.conf, tx);
      MovedTotal(U, mid.conf, tx);
    }
  }

  /** Fees of the blocks of the unfinished round, and rewards of the finished ones. */
  function OpenFees(blocks: seq<Block>): nat {
    TotalFees(blocks[(|blocks| / ACTIVE_DELEGATES) * ACTIVE_DELEGATES..])
  }

  function LandedRewards(blocks: seq<Block>): int {
    SumOf(Rewards(blocks[..(|blocks| / ACTIVE_DELEGATES) * ACTIVE_DELEGATES]))
  }

  lemma FeesAppend(bs: seq<Block>, b: Block)
    ensures TotalFees(bs + [b]) == TotalFees(bs) + b.totalFee
  {
    assert (bs + [b])[..|bs|] == bs;
  }

  lemma {:induction false} SumOfConcat(xs: seq<int>, ys: seq<int>)
    ensures SumOf(xs + ys) == SumOf(xs) + SumOf(ys)
  {
    if ys == [] {
      assert xs + ys == xs;
    } else {
      assert (xs + ys)[..|xs + ys| - 1] == xs + ys[..|ys| - 1];
      SumOfConcat(xs, ys[..|ys| - 1]);
    }
  }

  lemma InsideTotals(blocks: seq<Block>, b: Block)
    requires (|blocks| + 1) % ACTIVE_DELEGATES != 0
    ensures OpenFees(blocks + [b]) == OpenFees(blocks) + b.totalFee
    ensures LandedRewards(blocks + [b]) == LandedRewards(blocks)
  {
    hide TotalFees, SumOf;
    var k := (|blocks| / ACTIVE_DELEGATES) * ACTIVE_DELEGATES;
    assert (|blocks| + 1) / ACTIVE_DELEGATES == |blocks| / ACTIVE_DELEGATES;
    assert (blocks + [b])[k..] == blocks[k..] + [b];
    assert (blocks + [b])[..k] == blocks[..k];
    FeesAppend(blocks[k..], b);
  }

  lemma RoundEnds(k: nat)
    requires k > 0 && (k + 1) % ACTIVE_DELEGATES == 0
    ensures var lo, round := (k / ACTIVE_DELEGATES) * ACTIVE_DELEGATES, CalcRound(k + 1);
            && lo + ACTIVE_DELEGATES == k + 1 && ((k + 1) / ACTIVE_DELEGATES) * ACTIVE_DELEGATES == k + 1
            && round >= 1 && round * ACTIVE_DELEGATES == k + 1 && (round - 1) * ACTIVE_DELEGATES == lo
  {
    var q := (k + 1) / ACTIVE_DELEGATES;
    assert k + 1 == q * ACTIVE_DELEGATES;
  }

  lemma EndOfRound(blocks: seq<Block>, b: Block)
    requires |blocks| > 0 && (|blocks| + 1) % ACTIVE_DELEGATES == 0
    ensures var all, lo := blocks + [b], (|blocks| / ACTIVE_DELEGATES) * ACTIVE_DELEGATES;
            && lo + ACTIVE_DELEGATES == |blocks| + 1
            && RoundBlocks(all, CalcRound(|all|)) == blocks[lo..] + [b]
            && (|all| / ACTIVE_DELEGATES) * ACTIVE_DELEGATES == |all|
  {
    hide CalcRound;
    var all, lo := blocks + [b], (|blocks| / ACTIVE_DELEGATES) * ACTIVE_DELEGATES;
    RoundEnds(|blocks|);
    assert all[lo..|all|] == blocks[lo..] + [b];
  }

  lemma EndTotals(blocks: seq<Block>, b: Block)
    requires |blocks| > 0 && (|blocks| + 1) % ACTIVE_DELEGATES == 0
    ensures var s := SumRound(blocks + [b]);
            && |s.delegates| == ACTIVE_DELEGATES
            && s.fees == OpenFees(blocks) + b.totalFee
            && LandedRewards(blocks + [b]) == LandedRewards(blocks) + SumOf(s.rewards)
    ensures OpenFees(blocks + [b]) == 0
  {
    hide SumOf, RoundBlocks, CalcRound;
    var all, lo := blocks + [b], (|blocks| / ACTIVE_DELEGATES) * ACTIVE_DELEGATES;
    EndOfRound(blocks, b);
    FeesAppend(blocks[lo..], b);
    RewardsConcat(blocks[..lo], blocks[lo..] + [b]);
    assert blocks[..lo] + (blocks[lo..] + [b]) == all;
    assert all[..|all|] == all && all[|all|..] == [];
  }

  lemma RewardsConcat(xs: seq<Block>, ys: seq<Block>)
    ensures SumOf(Rewards(xs + ys)) == SumOf(Rewards(xs)) + SumOf(Rewards(ys))
  {
    hide SumOf;
    assert Rewards(xs + ys) == Rewards(xs) + Rewards(ys);
    SumOfConcat(Rewards(xs), Rewards(ys));
  }

  /** What one verified block changes. */
  lemma BlockTotal(U: set<Address>, n: Node, genesisKey: PublicKey, b: Block)
    requires |n.blocks| > 0 && BlockVerified(n, genesisKey, b) && ApplyBlock(n, b).ok
    requires Covers(U, n.blocks + [b])
    ensures Total(U, Applied(n, b).books) + OpenFees(n.blocks + [b]) + Burned(b.transactions)
            - LandedRewards(n.blocks + [b]) ==
            Total(U, n.books) + OpenFees(n.blocks) - LandedRewards(n.blocks)
  {
    hide BooksFold, BlockVerified, ApplyBlock, PayAll, PayAccts, SumRound, ForwardPayouts, OpenFees, LandedRewards,
         SumFees, FeesOf, RewardsOf, SumOf, Sum, Balances, TotalFees, RewardRows, Applied;
    var round, txs := NextRound(n), b.transactions;
    assert (n.blocks + [b])[|n.blocks|] == b;
    FoldTotal(U, n.books, round, txs);
    VerifiedFee(n, genesisKey, b);
    var c := BooksFold(n.books, round, txs);
    if (|n.blocks| + 1) % ACTIVE_DELEGATES == 0 {
      AppliedAtEnd(n, b);
      EndTotals(n.blocks, b);
      var s := SumRound(n.blocks + [b]);
      var F := ForwardPayouts(s.delegates, s.rewards, s.fees);
      var c2 := c.accts.(produced := Add(c.accts.produced, OfKey(b.generator), 1));
      PaidAccts(n, b);
      PayeesCovered(U, n.blocks + [b]);
      PayAcctsTotal(U, c2, F);
      ForwardTotals(s.delegates, s.rewards, s.fees);
      FullShare(s.fees);
    } else {
      AppliedInside(n, b);
      InsideTotals(n.blocks, b);
    }
  }

  lemma VerifiedFee(n: Node, genesisKey: PublicKey, b: Block)
    requires BlockVerified(n, genesisKey, b)
    ensures b.totalFee == SumFees(b.transactions)
  {
    hide Verified;
  }

  lemma FullShare(fees: nat)
    ensures ACTIVE_DELEGATES * (fees / ACTIVE_DELEGATES) + ChangesAt(fees, 0).feesRemaining == fees
  {
  }

  lemma PayeesCovered(U: set<Address>, blocks: seq<Block>)
    requires |blocks| > 1 && Covers(U, blocks)
    ensures var s := SumRound(blocks);
            var F := ForwardPayouts(s.delegates, s.rewards, s.fees);
            forall i :: 0 <= i < |F| ==> OfKey(F[i].to) in U
  {
    hide TotalFees, CoversTxs;
    var s := SumRound(blocks);
    var F := ForwardPayouts(s.delegates, s.rewards, s.fees);
    var round := CalcRound(|blocks|);
    var lo := (round - 1) * ACTIVE_DELEGATES;
    var bs := RoundBlocks(blocks, round);
    assert forall i :: 0 <= i < |bs| ==> bs[i] == blocks[lo + i];
    forall i | 0 <= i < |F| ensures OfKey(F[i].to) in U {
      if i < |bs| {
        assert F[i].to == blocks[lo + i].generator;
      } else {
        assert F[i].to == blocks[lo + |bs| - 1].generator;
      }
    }
  }

  lemma {:induction false} ReplayTotal(U: set<Address>, n0: Node, genesisKey: PublicKey, bs: seq<Block>)
    requires Genesis(n0) && Replayable(n0, genesisKey, bs) && Covers(U, n0.blocks + bs)
    ensures Total(U, Replay(n0, bs).books) + OpenFees(n0.blocks + bs) + BurnedIn(bs) ==
            Total(U, n0.books) + OpenFees(n0.blocks) + LandedRewards(n0.blocks + bs)
  {
    hide Settled, Tallied, BlockVerified, ApplyBlock, Total, OpenFees, LandedRewards, Burned;
    if bs == [] {
      assert n0.blocks + bs == n0.blocks;
      NothingLanded(n0.blocks);
    } else {
      var pre, b := bs[..|bs| - 1], bs[|bs| - 1];
      assert n0.blocks + bs == n0.blocks + pre + [b];
      assert Covers(U, n0.blocks + pre) by {
        assert forall i :: 0 <= i < |n0.blocks + pre| ==> (n0.blocks + pre)[i] == (n0.blocks + bs)[i];
      }
      ReplayTotal(U, n0, genesisKey, pre);
      PreviousFacts(n0, genesisKey, bs);
      BlockTotal(U, Replay(n0, pre), genesisKey, b);
    }
  }

  lemma NothingLanded(blocks: seq<Block>)
    requires |blocks| == 1
    ensures LandedRewards(blocks) == 0
  {
    assert Rewards(blocks[..0]) == [];
  }

  /** No transaction but a transfer carries an amount. */
  predicate NoAmounts(txs: seq<Transaction>) {
    forall i :: 0 <= i < |txs| ==> txs[i].asset.Send? || txs[i].amount == 0
  }

  predicate NothingToBurn(bs: seq<Block>) { forall i :: 0 <= i < |bs| ==> NoAmounts(bs[i].transactions) }

  lemma {:induction false} BurnedIff(txs: seq<Transaction>)
    requires forall i :: 0 <= i < |txs| ==> txs[i].amount >= 0
    ensures Burned(txs) >= 0 && (Burned(txs) == 0 <==> NoAmounts(txs))
  {
    if txs != [] {
      var pre, last := txs[..|txs| - 1], txs[|txs| - 1];
      assert txs == pre + [last];
      BurnedIff(pre);
    }
  }

  lemma {:induction false} BurnedInIff(n0: Node, genesisKey: PublicKey, bs: seq<Block>)
    requires |n0.blocks| == 1 && Replayable(n0, genesisKey, bs)
    ensures BurnedIn(bs) >= 0 && (BurnedIn(bs) == 0 <==> NothingToBurn(bs))
  {
    hide Replay, Replayable, BlockVerified, Burned, NoAmounts, NothingToBurn;
    BurnedParts(bs);
    if bs != [] {
      LastVerified(n0, genesisKey, bs);
      BurnedInIff(n0, genesisKey, bs[..|bs| - 1]);
      VerifiedAmounts(Replay(n0, bs[..|bs| - 1]), genesisKey, bs[|bs| - 1]);
      BurnedIff(bs[|bs| - 1].transactions);
    }
  }

  lemma LastVerified(n0: Node, genesisKey: PublicKey, bs: seq<Block>)
    requires |n0.blocks| == 1 && Replayable(n0, genesisKey, bs) && bs != []
    ensures Replayable(n0, genesisKey, bs[..|bs| - 1])
    ensures BlockVerified(Replay(n0, bs[..|bs| - 1]), genesisKey, bs[|bs| - 1])
  {
    hide Replay, BlockVerified, ApplyBlock;
  }

  lemma BurnedParts(bs: seq<Block>)
    ensures bs == [] ==> NothingToBurn(bs)
    ensures bs != [] ==> (NothingToBurn(bs) <==> NothingToBurn(bs[..|bs| - 1]) && NoAmounts(bs[|bs| - 1].transactions))
  {
    hide NoAmounts;
    if bs != [] {
      var pre := bs[..|bs| - 1];
      assert forall i :: 0 <= i < |pre| ==> pre[i] == bs[i];
      if NothingToBurn(pre) && NoAmounts(bs[|bs| - 1].transactions) {
        forall i | 0 <= i < |bs|
          ensures NoAmounts(bs[i].transactions)
        {
          if i < |pre| { assert NoAmounts(pre[i].transactions); }
        }
      }
    }
  }

  lemma VerifiedAmounts(n: Node, genesisKey: PublicKey, b: Block)
    requires BlockVerified(n, genesisKey, b)
    ensures forall i :: 0 <= i < |b.transactions| ==> b.transactions[i].amount >= 0
  {
    hide CheckDelegates, UsernameFree, DistinctKeys;
  }

  /** Over any run of applied and popped blocks: all balances plus the fees waiting in the open round
      are the initial coins plus the rewards of the finished rounds, less what vote and
      multisignature transactions burned.  So coins are conserved exactly when those carry no amount. */
  lemma CoinsConserved(U: set<Address>, n0: Node, genesisKey: PublicKey, es: seq<Event>)
    requires Genesis(n0)
    requires Covers(U, Run(n0, genesisKey, es).node.blocks)
    ensures var n := Run(n0, genesisKey, es).node;
            && Total(U, n.books) + OpenFees(n.blocks) + BurnedIn(Chain(n)) ==
               Total(U, n0.books) + OpenFees(n0.blocks) + LandedRewards(n.blocks)
            && (Total(U, n.books) + OpenFees(n.blocks) ==
                Total(U, n0.books) + OpenFees(n0.blocks) + LandedRewards(n.blocks)
                <==> NothingToBurn(Chain(n)))
  {
    hide Genesis, Run, Replay, Replayable, Total, OpenFees, LandedRewards, BurnedIn, NothingToBurn;
    GenesisBlock(n0);
    var n := Run(n0, genesisKey, es).node;
    AccountsAreReplayed(n0, genesisKey, es);
    ReplayTotal(U, n0, genesisKey, Chain(n));
    SameTotal(U, Replay(n0, Chain(n)).books, n.books);
    BurnedInIff(n0, genesisKey, Chain(n));
  }

  lemma SameTotal(U: set<Address>, b: Books, b': Books)
    requires SameAccts(b.accts, b'.accts)
    ensures Total(U, b) == Total(U, b')
  {
  }

  /** Nothing stops a vote or multisignature transaction from carrying an amount its sender can pay:
      every check passes as it did without, and the amount is burned. */
  lemma AmountsPass(s: Accts, flags: set<Address>, genesisKey: PublicKey, tx: Transaction, x: nat)
    requires tx.asset.Votes? || tx.asset.Multisignature?
    requires tx.amount == 0 && Verified(s, genesisKey, tx) && UAllowed(s, flags, tx, false) && CAllowed(s, tx, false)
    requires Row(s.conf, tx.From()).balance >= tx.fee + x && Row(s.unconf, tx.From()).balance >= tx.fee + x
    ensures var t := tx.(amount := x);
            Verified(s, genesisKey, t) && UAllowed(s, flags, t, false) && CAllowed(s, t, false) && Burned([t]) == x
  {
    hide CheckDelegates, UsernameFree, DistinctKeys, Row;
    assert [tx.(amount := x)][..0] == [];
  }

  // ---------- no negative balances ----------

  ghost predicate NonNegative(conf: SideTable, genesisKey: PublicKey) {
    forall a: Address :: a != OfKey(genesisKey) ==> Row(conf, a).balance >= 0
  }

  lemma PairNonNegative(b: Books, round: int, tx: Transaction, genesisKey: PublicKey)
    requires TxOk(b, tx) && NonNegative(b.accts.conf, genesisKey)
    ensures NonNegative(BooksPair(b, round, tx).accts.conf, genesisKey)
  {
    hide Touched, Row, CPending, Touch, Bump;
    PairConf(b.accts, tx);
    var conf, conf' := b.accts.conf, BooksPair(b, round, tx).accts.conf;
    assert conf' == Moved(conf, tx);
    forall a: Address | a != OfKey(genesisKey) ensures Row(conf', a).balance >= 0 {
      MovedRow(conf, tx, a);
      TouchedFields(Row(conf, a), tx);
    }
  }

  lemma {:induction false} FoldNonNegative(b: Books, round: int, txs: seq<Transaction>, genesisKey: PublicKey)
    requires RunOk(b, round, txs) && NonNegative(b.accts.conf, genesisKey)
    ensures NonNegative(BooksFold(b, round, txs).accts.conf, genesisKey)
  {
    hide TxOk, BooksPair, NonNegative, RunOk;
    if txs != [] {
      RunOkPrefix(b, round, txs);
      FoldNonNegative(b, round, txs[..|txs| - 1], genesisKey);
      PairNonNegative(BooksFold(b, round, txs[..|txs| - 1]), round, txs[|txs| - 1], genesisKey);
    }
  }

  lemma ForwardPositive(delegates: seq<PublicKey>, rewards: seq<int>, fees: nat)
    requires |delegates| == |rewards| && forall i :: 0 <= i < |rewards| ==> rewards[i] >= 0
    ensures var F := ForwardPayouts(delegates, rewards, fees);
            forall i :: 0 <= i < |F| ==> F[i].fee + F[i].reward >= 0
    ensures var B := BackwardPayouts(delegates, rewards, fees);
            forall i :: 0 <= i < |B| ==> B[i].fee + B[i].reward <= 0
  {
    var s := Shares(delegates, rewards, fees);
    assert forall i :: 0 <= i < |s| ==> s[i].fee >= 0 && s[i].reward >= 0;
  }

  lemma RoundRewardsPositive(blocks: seq<Block>)
    requires |blocks| > 0
    ensures var s := SumRound(blocks); forall i :: 0 <= i < |s.rewards| ==> s.rewards[i] >= 0
  {
    hide TotalFees;
  }

  /** Payouts keep balances nonnegative. */
  lemma PaidNonNegative(s: Accts, ps: seq<Payout>, genesisKey: PublicKey)
    requires NonNegative(s.conf, genesisKey) && forall i :: 0 <= i < |ps| ==> ps[i].fee + ps[i].reward >= 0
    ensures NonNegative(PayAccts(s, ps).conf, genesisKey)
  {
    hide PayAccts, Row;
    forall a: Address | a != OfKey(genesisKey) ensures Row(PayAccts(s, ps).conf, a).balance >= 0 {
      PayAcctsRow(s, ps, a);
    }
  }

  lemma BlockNonNegative(n: Node, genesisKey: PublicKey, b: Block)
    requires |n.blocks| > 0 && BlockVerified(n, genesisKey, b) && ApplyBlock(n, b).ok
    requires Settled(n.books, NextRound(n)) && NonNegative(n.books.accts.conf, genesisKey)
    ensures NonNegative(Applied(n, b).books.accts.conf, genesisKey)
  {
    hide BooksFold, BlockVerified, ApplyBlock, PayAccts, PayAll, SumRound, ForwardPayouts, Settled, RunOk,
         NonNegative, Add, RewardRows;
    var round, txs := NextRound(n), b.transactions;
    VerifiedRunOk(n, genesisKey, b);
    FoldNonNegative(n.books, round, txs, genesisKey);
    if (|n.blocks| + 1) % ACTIVE_DELEGATES == 0 {
      AppliedAtEnd(n, b);
      var s := SumRound(n.blocks + [b]);
      var c := BooksFold(n.books, round, txs);
      RoundRewardsPositive(n.blocks + [b]);
      ForwardPositive(s.delegates, s.rewards, s.fees);
      PaidAccts(n, b);
      PaidNonNegative(c.accts.(produced := Add(c.accts.produced, OfKey(b.generator), 1)),
                      ForwardPayouts(s.delegates, s.rewards, s.fees), genesisKey);
    } else {
      AppliedInside(n, b);
    }
  }

  lemma {:induction false} ReplayNonNegative(n0: Node, genesisKey: PublicKey, bs: seq<Block>)
    requires Genesis(n0) && Replayable(n0, genesisKey, bs) && NonNegative(n0.books.accts.conf, genesisKey)
    ensures NonNegative(Replay(n0, bs).books.accts.conf, genesisKey)
  {
    hide Settled, Tallied, BlockVerified, ApplyBlock, NonNegative;
    if bs != [] {
      ReplayNonNegative(n0, genesisKey, bs[..|bs| - 1]);
      PreviousFacts(n0, genesisKey, bs);
      BlockNonNegative(Replay(n0, bs[..|bs| - 1]), genesisKey, bs[|bs| - 1]);
    }
  }

  /** Nobody but the genesis sender ever has a negative balance between blocks. */
  lemma NoNegativeBalances(n0: Node, genesisKey: PublicKey, es: seq<Event>)
    requires Genesis(n0) && NonNegative(n0.books.accts.conf, genesisKey)
    ensures NonNegative(Run(n0, genesisKey, es).node.books.accts.conf, genesisKey)
  {
    hide Genesis, Run, Replay, Replayable, NonNegative;
    AccountsAreReplayed(n0, genesisKey, es);
    ReplayNonNegative(n0, genesisKey, Chain(Run(n0, genesisKey, es).node));
  }

  // ---------- the states inside a pop ----------

  /** Every state the undo pass goes through: after the sender is refunded, and after the whole
      transaction is undone, for each transaction last to first. */
  ghost predicate UndoNeverNegative(s: Accts, txs: seq<Transaction>, genesisKey: PublicKey)
    decreases |txs|
  {
    NonNegative(s.conf, genesisKey) && (
      txs == [] ||
      var pre, tx := txs[..|txs| - 1], txs[|txs| - 1];
      && NonNegative(Bump(s.conf, tx.From(), tx.Cost()), genesisKey)
      && UndoNeverNegative(UndoPair(s, tx), pre, genesisKey))
  }

  lemma {:induction false} UndoAfterPayouts(b: Books, round: int, txs: seq<Transaction>, p: Column, ps: seq<Payout>,
      genesisKey: PublicKey)
    requires Settled(b, round) && RunOk(b, round, txs) && NonNegative(b.accts.conf, genesisKey)
    requires forall i :: 0 <= i < |ps| ==> ps[i].fee + ps[i].reward >= 0
    ensures UndoNeverNegative(PayAccts(BooksFold(b, round, txs).accts.(produced := p), ps), txs, genesisKey)
    decreases |txs|
  {
    hide Settled, TxOk, TxShape, BooksPair, BooksUndo, RunOk, NonNegative, PayAccts, Bump, UndoPair;
    var c := BooksFold(b, round, txs).accts.(produced := p);
    FoldNonNegative(b, round, txs, genesisKey);
    PaidNonNegative(c, ps, genesisKey);
    if txs != [] {
      var pre, tx := txs[..|txs| - 1], txs[|txs| - 1];
      RunOkPrefix(b, round, txs);
      FoldKeeps(b, round, pre);
      RefundNonNegative(BooksFold(b, round, pre), tx, PayAccts(c, ps), genesisKey);
      UndoOnePaid(BooksFold(b, round, pre), round, tx, p, ps);
      UndoAfterPayouts(b, round, pre, p, ps, genesisKey);
    }
  }

  lemma RefundNonNegative(b: Books, tx: Transaction, s: Accts, genesisKey: PublicKey)
    requires TxOk(b, tx) && NonNegative(s.conf, genesisKey)
    ensures NonNegative(Bump(s.conf, tx.From(), tx.Cost()), genesisKey)
  {
    hide CheckDelegates, Signed, IsMinus;
    assert tx.Cost() >= 0;
    forall a: Address | a != OfKey(genesisKey) ensures Row(Bump(s.conf, tx.From(), tx.Cost()), a).balance >= 0 {
      assert Row(s.conf, a).balance >= 0;
    }
  }

  lemma UndoOnePaid(b: Books, round: int, tx: Transaction, p: Column, ps: seq<Payout>)
    requires Settled(b, round) && TxShape(b, tx)
    ensures UndoPair(PayAccts(BooksPair(b, round, tx).accts.(produced := p), ps), tx) ==
            PayAccts(b.accts.(produced := p), ps)
  {
    hide Settled, TxShape, PayAccts, CPending, UndoPending, Pair, UndoPair;
    PairInverse(b, round, tx);
    var c := BooksPair(b, round, tx);
    UndoPairProduced(c.accts, tx, p);
    UndoPairPayAll(c.accts.(produced := p), tx, ps);
  }

  lemma UndoPairProduced(s: Accts, tx: Transaction, p: Column)
    ensures UndoPair(s.(produced := p), tx) == UndoPair(s, tx).(produced := p)
  {
    hide Untouch, Uncredit;
  }

  lemma {:induction false} UndoPairPayAll(s: Accts, tx: Transaction, ps: seq<Payout>)
    ensures UndoPair(PayAccts(s, ps), tx) == PayAccts(UndoPair(s, tx), ps)
  {
    hide UndoPair, Pay;
    if ps != [] {
      var n := |ps| - 1;
      UndoPairPayAll(s, tx, ps[..n]);
      UndoPairPay(PayAccts(s, ps[..n]), tx, OfKey(ps[n].to), ps[n].fee, ps[n].reward);
    }
  }

  /** While a block is popped no balance goes negative, although its payments are undone before its
      round's payouts are taken back. */
  lemma PopNeverNegative(n: Node, genesisKey: PublicKey, b: Block)
    requires |n.blocks| > 0 && BlockVerified(n, genesisKey, b) && ApplyBlock(n, b).ok
    requires Settled(n.books, NextRound(n)) && NonNegative(n.books.accts.conf, genesisKey)
    ensures UndoNeverNegative(Applied(n, b).books.accts, b.transactions, genesisKey)
    ensures (|n.blocks| + 1) % ACTIVE_DELEGATES == 0 ==>
              var s := SumRound(n.blocks + [b]);
              var u := UndoFold(Applied(n, b).books.accts, b.transactions);
              var B := BackwardPayouts(s.delegates, s.rewards, s.fees);
              forall k :: 0 <= k <= |B| ==> NonNegative(PayAccts(u, B[..k]).conf, genesisKey)
  {
    hide BooksFold, BlockVerified, ApplyBlock, PayAccts, PayAll, SumRound, ForwardPayouts, BackwardPayouts, Settled,
         RunOk, NonNegative, Add, RewardRows, UndoNeverNegative, UndoFold;
    var round, txs := NextRound(n), b.transactions;
    var c := BooksFold(n.books, round, txs);
    var p := Add(c.accts.produced, OfKey(b.generator), 1);
    VerifiedRunOk(n, genesisKey, b);
    if (|n.blocks| + 1) % ACTIVE_DELEGATES == 0 {
      var s := SumRound(n.blocks + [b]);
      var F, B := ForwardPayouts(s.delegates, s.rewards, s.fees), BackwardPayouts(s.delegates, s.rewards, s.fees);
      AppliedAtEnd(n, b);
      PaidAccts(n, b);
      RoundRewardsPositive(n.blocks + [b]);
      ForwardPositive(s.delegates, s.rewards, s.fees);
      UndoAfterPayouts(n.books, round, txs, p, F, genesisKey);
      FoldInverse(n.books, round, txs);
      UndoFoldPayAll(c.accts.(produced := p), txs, F);
      UndoneBooks(n, genesisKey, b, p);
      UndoFoldAccts(WithProduced(c, p), round, txs);
      var base := n.books.accts.(produced := p);
      SettledWf(n.books, round);
      FullProduced(n, b);
      BackwardUndoesForward(base, s.delegates, s.rewards, s.fees);
      forall k | 0 <= k <= |B| ensures NonNegative(PayAccts(PayAccts(base, F), B[..k]).conf, genesisKey) {
        TakingBack(PayAccts(base, F), B, k, genesisKey);
      }
    } else {
      AppliedInside(n, b);
      UndoAfterPayouts(n.books, round, txs, p, [], genesisKey);
      NoPayouts(c.accts.(produced := p));
    }
  }

  /** So no pop of any run, whether it goes through or not, passes through a state with a negative balance:
      not while the transactions are undone, and not while the payouts are taken back. */
  lemma NoPopGoesNegative(n0: Node, genesisKey: PublicKey, es: seq<Event>)
    requires Genesis(n0) && NonNegative(n0.books.accts.conf, genesisKey)
    requires |Run(n0, genesisKey, es).node.blocks| > 1
    ensures var n := Run(n0, genesisKey, es).node;
            var txs := n.blocks[|n.blocks| - 1].transactions;
            && UndoNeverNegative(n.books.accts, txs, genesisKey)
            && (|n.blocks| % ACTIVE_DELEGATES == 0 ==>
                  var s := SumRound(n.blocks);
                  var B := BackwardPayouts(s.delegates, s.rewards, s.fees);
                  forall k :: 0 <= k <= |B| ==>
                    NonNegative(PayAccts(UndoFold(n.books.accts, txs), B[..k]).conf, genesisKey))
  {
    hide Genesis, Run, Replay, Replayable, NonNegative, Settled, Tallied, BlockVerified, ApplyBlock, UndoNeverNegative,
         UndoFold, PayAccts, SumRound, BackwardPayouts;
    GenesisBlock(n0);
    var n := Run(n0, genesisKey, es).node;
    AccountsAreReplayed(n0, genesisKey, es);
    var c := Chain(n);
    var pre, b := c[..|c| - 1], c[|c| - 1];
    var m := Replay(n0, pre);
    PreviousFacts(n0, genesisKey, c);
    assert n.blocks == m.blocks + [b];
    ReplayNonNegative(n0, genesisKey, pre);
    PopNeverNegative(m, genesisKey, b);
    var a := Applied(m, b).books.accts;
    NeverNegativeSame(a, b.transactions, genesisKey, n.books.accts.produced);
    if |n.blocks| % ACTIVE_DELEGATES == 0 {
      var s := SumRound(n.blocks);
      var B := BackwardPayouts(s.delegates, s.rewards, s.fees);
      SameUndone(a, n.books.accts, b.transactions);
      forall k | 0 <= k <= |B|
        ensures NonNegative(PayAccts(UndoFold(n.books.accts, b.transactions), B[..k]).conf, genesisKey)
      {
        SamePaid(UndoFold(a, b.transactions), UndoFold(n.books.accts, b.transactions), B[..k]);
      }
    }
  }

  lemma {:induction false} NeverNegativeSame(s: Accts, txs: seq<Transaction>, genesisKey: PublicKey, p: Column)
    requires UndoNeverNegative(s, txs, genesisKey)
    ensures UndoNeverNegative(s.(produced := p), txs, genesisKey)
    decreases |txs|
  {
    hide NonNegative, UndoPair, Bump;
    if txs != [] {
      UndoPairProduced(s, txs[|txs| - 1], p);
      NeverNegativeSame(UndoPair(s, txs[|txs| - 1]), txs[..|txs| - 1], genesisKey, p);
    }
  }

  lemma NoPayouts(s: Accts)
    ensures PayAccts(s, []) == s
  {
  }

  lemma FullProduced(n: Node, b: Block)
    requires n.books.accts.Wf()
    ensures n.books.accts.(produced := Add(BooksFold(n.books, NextRound(n), b.transactions).accts.produced,
            OfKey(b.generator), 1)).Wf()
  {
    BooksFoldAccts(n.books, NextRound(n), b.transactions);
    PairFoldProduced(n.books.accts, b.transactions);
  }

  /** Balances only fall while payouts are taken back, so none is below where it ends. */
  lemma {:induction false} TakingBack(s: Accts, ps: seq<Payout>, k: nat, genesisKey: PublicKey)
    requires k <= |ps| && NonNegative(PayAccts(s, ps).conf, genesisKey)
    requires forall i :: 0 <= i < |ps| ==> ps[i].fee + ps[i].reward <= 0
    ensures NonNegative(PayAccts(s, ps[..k]).conf, genesisKey)
  {
    if k == |ps| {
      assert ps[..k] == ps;
    } else {
      var n := |ps| - 1;
      var mid := PayAccts(s, ps[..n]);
      forall a: Address | a != OfKey(genesisKey) ensures Row(mid.conf, a).balance >= 0 {
        hide Pay;
        PayRow(mid, OfKey(ps[n].to), ps[n].fee, ps[n].reward, a);
      }
      assert forall i :: 0 <= i < n ==> ps[..n][i] == ps[i];
      TakingBack(s, ps[..n], k, genesisKey);
      assert ps[..n][..k] == ps[..k];
    }
  }
}
