/**
  A run in which everything is accepted and a deletion leaves wrong unconfirmed votes: an account votes for a
  delegate in block 2, offers a transaction that takes the vote back, and block 2 is deleted for a fork.
 */
module SharedVotes {
  import opened Base
  import opened Diff
  import opened Accounts
  import opened Tally
  import opened Payouts
  import opened Voting
  import opened Ledger
  import opened Rollback
  import opened Invariants
  import opened PopBlocks
  import opened Landing
  import opened History
  import opened RunAccounts
  import opened ExactPops
  import opened GenesisBlocks
  import opened PoolQueues
  import opened PoolLists
  import opened PoolBalances
  import opened PoolSteps
  import opened PoolUndoing
  import opened PoolPops
  import opened BlockRewards
  import opened ForkChoice
  import opened ChainSteps
  import opened ActiveDelegates
  import opened SystemRuns
  import StalePops

  const VOTE_FEE: int := 100000000

  /** `a` votes for `d`, or takes the vote back. */
  function VoteFor(a: PublicKey, d: PublicKey): Transaction {
    Transaction("1", a, 0, VOTE_FEE, Votes(["+" + d]), None)
  }

  function VoteBack(a: PublicKey, d: PublicKey): Transaction {
    Transaction("2", a, 0, VOTE_FEE, Votes(["-" + d]), None)
  }

  /** The next slot after this moment that is a multiple of 101. */
  function NextTurn(timestamp: int): int { 10 * (ACTIVE_DELEGATES * (SlotNumber(timestamp) / ACTIVE_DELEGATES + 1)) }

  /** The block at height 2, in the delegate's next slot after the genesis block. */
  function SecondBlock(genesis: Block, c: Rewards, a: PublicKey, d: PublicKey): Block
    requires c.Valid()
  {
    Block(genesis.id + "1", genesis.id, NextTurn(genesis.timestamp), d, VOTE_FEE, c.CalcReward(2), [VoteFor(a, d)])
  }

  /** The account can pay two votes and has not voted; the delegate is registered, alone. */
  ghost predicate CanVote(n0: Node, genesisKey: PublicKey, a: PublicKey, d: PublicKey) {
    var row := Row(n0.books.accts.conf, OfKey(a));
    && row.balance >= 2 * VOTE_FEE && row.delegates == multiset{} && row.multisignatures == multiset{}
    && StalePops.Sole(n0, d) && a != genesisKey
    && |n0.blocks| == 1 && n0.blocks[0].id != ""
  }

  // ---------- the two votes ----------

  lemma OneVote(conf: SideTable, ds: multiset<PublicKey>, c: string, d: PublicKey)
    requires (c == "+" + d && ds == multiset{}) || (c == "-" + d && ds == multiset{d})
    requires Row(conf, OfKey(d)).isDelegate
    ensures CheckDelegates(conf, ds, [c]) && DistinctKeys([c])
    ensures ApplyDiff(ds, [c]) == if c == "+" + d then multiset{d} else multiset{}
  {
    hide CheckDelegates;
    assert c[1..] == d && [c][..0] == [];
    assert ApplyDiff(ds, []) == ds;
    assert ApplyDiff(ds, [c]) == Change(ds, c);
    CheckDelegatesIff(conf, ds, [c]);
  }

  lemma VoteVerified(s: Accts, genesisKey: PublicKey, tx: Transaction, c: string, d: PublicKey)
    requires tx.asset == Votes([c]) && tx.fee == VOTE_FEE && tx.amount == 0 && tx.sender != genesisKey
    requires var row := Row(s.conf, tx.From());
             && row.balance >= VOTE_FEE && row.multisignatures == multiset{}
             && ((c == "+" + d && row.delegates == multiset{}) || (c == "-" + d && row.delegates == multiset{d}))
    requires Row(s.conf, OfKey(d)).isDelegate
    ensures Verified(s, genesisKey, tx)
    ensures CAllowed(s, tx, false)
    ensures forall flags | Row(s.unconf, tx.From()).delegates == Row(s.conf, tx.From()).delegates
              && Row(s.unconf, tx.From()).balance >= VOTE_FEE :: UAllowed(s, flags, tx, false)
  {
    hide CheckDelegates, DistinctKeys, UsernameFree;
    OneVote(s.conf, Row(s.conf, tx.From()).delegates, c, d);
  }

  // ---------- block 2 ----------

  lemma SecondApplies(n: Node, genesisKey: PublicKey, c: Rewards, a: PublicKey, d: PublicKey)
    requires c.Valid() && CanVote(n, genesisKey, a, d) && n.books.accts.conf == n.books.accts.unconf
    ensures var b := SecondBlock(n.blocks[0], c, a, d);
            BlockVerified(n, genesisKey, b) && ApplyBlock(n, b).ok
  {
    hide Verified, UAllowed, CAllowed, Tick, Row, Touch, c.CalcReward;
    var t, b := VoteFor(a, d), SecondBlock(n.blocks[0], c, a, d);
    assert b.transactions == [t] && [t][..0] == [];
    assert SumFees([t]) == SumFees([t][..0]) + VOTE_FEE == VOTE_FEE;
    VoteVerified(n.books.accts, genesisKey, t, "+" + d, d);
    assert UAll(n, [t][..0]) == Attempt(n, true);
    var u := UStep(n, t);
    assert UAll(n, [t]) == Attempt(u, true);
    VoteVerified(u.books.accts, genesisKey, t, "+" + d, d);
    assert CAll(u, CalcRound(2), [t][..0]) == Attempt(u, true);
    assert CAll(u, CalcRound(2), [t]).ok;
  }

  lemma SecondPasses(n: Node, c: Rewards, a: PublicKey, d: PublicKey, e: Circumstances)
    requires c.Valid() && CanVote(n, e.settings.genesisKey, a, d) && n.books.accts.conf == n.books.accts.unconf
    requires e.rewards == c && e.block && e.currentSlot >= SlotNumber(NextTurn(n.blocks[0].timestamp))
    ensures BlockPasses(n, SecondBlock(n.blocks[0], c, a, d), e)
  {
    hide *;
    CanVoteIs(n, e.settings.genesisKey, a, d);
    var b := SecondBlock(n.blocks[0], c, a, d);
    SecondApplies(n, e.settings.genesisKey, c, a, d);
    SecondLinks(n.blocks[0], c, a, d);
    StalePops.SoleOwns(n, b, |n.blocks| + 1, e.hash, d);
    OnGenesis(n, b, e);
  }

  lemma OnGenesis(n: Node, b: Block, e: Circumstances)
    requires e.rewards.Valid() && |n.blocks| == 1 && e.block && b.previousBlock == n.blocks[0].id != ""
    requires Follows(b, n.blocks[0]) && SlotNumber(b.timestamp) <= e.currentSlot && b.id != n.blocks[0].id
    requires b.reward == e.rewards.CalcReward(2) && BlockVerified(n, e.settings.genesisKey, b)
    requires OwnsSlot(VotesNow(n), |n.blocks| + 1, e.hash, b)
    ensures BlockPasses(n, b, e)
  {
    hide BlockVerified, OwnsSlot, VotesNow, e.rewards.CalcReward, Follows;
  }

  lemma SecondLinks(genesis: Block, c: Rewards, a: PublicKey, d: PublicKey)
    requires c.Valid()
    ensures var b := SecondBlock(genesis, c, a, d);
            && Follows(b, genesis) && b.previousBlock == genesis.id && b.id != genesis.id
            && SlotNumber(b.timestamp) == SlotNumber(NextTurn(genesis.timestamp)) && b.reward == c.CalcReward(2)
            && SlotNumber(b.timestamp) % ACTIVE_DELEGATES == 0 && b.generator == d
  {
    hide c.CalcReward;
    assert |genesis.id + "1"| == |genesis.id| + 1;
    TurnIs(SlotNumber(genesis.timestamp));
  }

  lemma TurnIs(slot: int)
    ensures var t := ACTIVE_DELEGATES * (slot / ACTIVE_DELEGATES + 1);
            SlotNumber(10 * t) == t && t > slot && t % ACTIVE_DELEGATES == 0
  {
  }

  /** After block 2 the account has voted and can pay one more vote. */
  lemma AfterSecond(n: Node, genesisKey: PublicKey, c: Rewards, a: PublicKey, d: PublicKey)
    requires c.Valid() && CanVote(n, genesisKey, a, d) && Settled(n.books, NextRound(n))
                && Tallied(n.books, NextRound(n))
    ensures var b := SecondBlock(n.blocks[0], c, a, d);
            var s := Applied(n, b).books.accts;
            && s.conf == s.unconf
            && Row(s.conf, OfKey(d)).isDelegate
            && Row(s.conf, OfKey(a)).balance >= VOTE_FEE && Row(s.conf, OfKey(a)).delegates == multiset{d}
            && Row(s.conf, OfKey(a)).multisignatures == multiset{}
            && Applied(n, b).blocks == n.blocks + [b]
  {
    hide Settled, Tallied, ApplyBlock, BlockVerified, Applied, Pair, Row, Touched, Credit, c.CalcReward, BooksFold;
    var b, t := SecondBlock(n.blocks[0], c, a, d), VoteFor(a, d);
    var m := Applied(n, b);
    SettledHalves(n.books, NextRound(n));
    SecondApplies(n, genesisKey, c, a, d);
    BlockKeeps(n, genesisKey, b);
    SettledHalves(m.books, NextRound(m));
    AppliedInside(n, b);
    BooksFoldAccts(n.books, NextRound(n), b.transactions);
    assert b.transactions == [t] && [t][..0] == [];
    assert PairFold(n.books.accts, [t][..0]) == n.books.accts;
    assert PairFold(n.books.accts, [t]) == Pair(n.books.accts, t);
    PairConf(n.books.accts, t);
    MovedRow(n.books.accts.conf, t, OfKey(a));
    MovedRow(n.books.accts.conf, t, OfKey(d));
    MovedIsCredit(n.books.accts.conf, t);
    TouchedFields(Row(n.books.accts.conf, OfKey(a)), t);
    OneVote(n.books.accts.conf, multiset{}, "+" + d, d);
  }

  lemma MovedIsCredit(conf: SideTable, tx: Transaction)
    ensures Moved(conf, tx) == Credit(Touch(conf, tx), tx)
  {
    hide Touch, Credit;
  }

  // ---------- the run ----------

  function TakeBack(a: PublicKey, d: PublicKey): Pooled { Pooled(VoteBack(a, d), false, true, 0) }

  /** Block 2 is processed, the vote is taken back in the pool, block 2 is deleted: each of these goes through, and
      when the pending transaction is undone at last the account is left with an unconfirmed vote it does not have. */
  lemma DeletionLeavesVote(s0: Chained, c: Rewards, a: PublicKey, d: PublicKey, e: Circumstances)
    requires c.Valid() && |s0.node.blocks| > 0 && Starts(s0) && CanVote(s0.node, e.settings.genesisKey, a, d)
    requires e.rewards == c && e.block && e.currentSlot >= SlotNumber(NextTurn(s0.node.blocks[0].timestamp))
    requires e.settings.outside(VoteBack(a, d))
    ensures var b, p := SecondBlock(s0.node.blocks[0], c, a, d), TakeBack(a, d);
            var s1 := AfterMove(s0, Process(b), e);
            var s2 := AfterMove(s1, Try(p), e);
            var s3 := AfterMove(s2, Delete, e);
            && BlockPasses(s0.node, b, e) && ApplyBlock(s0.node, b).ok && s1.node == ApplyBlock(s0.node, b).node
            && Accepted(s1.node, s1.pool, p, e.settings) && Txs(s2.pool.unconfirmed) == [VoteBack(a, d)]
            && PopBlock(s2.node).ok && s3.node == PopBlock(s2.node).node && s3.node.blocks == s0.node.blocks
            && s3.pool.unconfirmed == s2.pool.unconfirmed
            && var r := UndoneList(s3.node, s3.pool.unconfirmed).books.accts;
               d !in Row(r.conf, OfKey(a)).delegates && d in Row(r.unconf, OfKey(a)).delegates
  {
    hide *;
    var n0, b, key := s0.node, SecondBlock(s0.node.blocks[0], c, a, d), e.settings.genesisKey;
    StartsIs(s0);
    GenesisIs(n0);
    SettledHalves(n0.books, NextRound(n0));
    SecondPasses(n0, c, a, d, e);
    SecondApplies(n0, key, c, a, d);
    AfterSecond(n0, key, c, a, d);
    FirstMove(s0, b, e);
    CanVoteIs(n0, key, a, d);
    var s1 := AfterMove(s0, Process(b), e);
    SecondMove(s1, a, d, e);
    LastMove(n0, s1.node, AfterMove(s1, Try(TakeBack(a, d)), e), b, a, d, e);
  }

  lemma FirstMove(s: Chained, b: Block, e: Circumstances)
    requires e.rewards.Valid() && |s.node.blocks| > 0 && s.pool.unconfirmed == [] && BlockPasses(s.node, b, e)
    ensures var s1 := AfterMove(s, Process(b), e);
            s1.node == ApplyBlock(s.node, b).node == Applied(s.node, b) && s1.pool.unconfirmed == []
  {
    hide *;
    MovedIs(s, Process(b), e);
    ProcessedNode(s, b, e);
    NothingUndone(s.node);
    UnconfirmedAfter(s, Process(b), e);
    AppliedIs(s.node, b);
  }

  lemma SecondMove(s: Chained, a: PublicKey, d: PublicKey, e: Circumstances)
    requires e.rewards.Valid() && |s.node.blocks| > 0
    requires s.pool.unconfirmed == [] && e.settings.outside(VoteBack(a, d)) && a != e.settings.genesisKey
    requires s.node.books.accts.conf == s.node.books.accts.unconf
    requires var row := Row(s.node.books.accts.conf, OfKey(a));
             row.balance >= VOTE_FEE && row.delegates == multiset{d} && row.multisignatures == multiset{}
    requires Row(s.node.books.accts.conf, OfKey(d)).isDelegate
    ensures var s2 := AfterMove(s, Try(TakeBack(a, d)), e);
            && Accepted(s.node, s.pool, TakeBack(a, d), e.settings)
            && SameBase(s2.node, s.node) && s2.node.blocks == s.node.blocks
            && Txs(s2.pool.unconfirmed) == [VoteBack(a, d)] && |s2.pool.unconfirmed| == 1
            && s2.pool.unconfirmed[0].tx == VoteBack(a, d)
  {
    hide *;
    var p := TakeBack(a, d);
    TakeBackAccepted(s, a, d, e);
    MovedIs(s, Try(p), e);
    TriedUnconfirmed(s.node, s.pool, p, e.settings);
    UnconfirmedAfter(s, Try(p), e);
    TakeBackListed(AfterMove(s, Try(p), e).pool.unconfirmed, Entry(s.node, p), a, d);
    VoteBackIs(a, d);
    PendingKeepsBase(s.node, VoteBack(a, d));
  }

  lemma LastMove(n0: Node, n1: Node, s: Chained, b: Block, a: PublicKey, d: PublicKey, e: Circumstances)
    requires e.rewards.Valid() && |s.node.blocks| > 0
    requires |n0.blocks| == 1 && Settled(n0.books, CalcRound(2)) && BlockVerified(n0, e.settings.genesisKey, b)
    requires ApplyBlock(n0, b).ok && n1 == Applied(n0, b) && n1.blocks == n0.blocks + [b]
    requires SameBase(s.node, n1) && s.node.blocks == n1.blocks && |s.pool.unconfirmed| == 1
    requires s.pool.unconfirmed[0].tx == VoteBack(a, d)
    requires Row(n0.books.accts.conf, OfKey(a)).delegates == multiset{}
    requires Row(n1.books.accts.conf, OfKey(a)).delegates == multiset{d}
    ensures var s3 := AfterMove(s, Delete, e);
            && PopBlock(s.node).ok && s3.node == PopBlock(s.node).node && s3.node.blocks == n0.blocks
            && s3.pool.unconfirmed == s.pool.unconfirmed
            && var r := UndoneList(s3.node, s3.pool.unconfirmed).books.accts;
               d !in Row(r.conf, OfKey(a)).delegates && d in Row(r.unconf, OfKey(a)).delegates
  {
    hide *;
    var s3, ps := AfterMove(s, Delete, e), s.pool.unconfirmed;
    MovedIs(s, Delete, e);
    DeletedNode(s, e);
    UnconfirmedAfter(s, Delete, e);
    PopBase(s.node, n1);
    SecondPopped(n0, e.settings.genesisKey, b);
    BaseIs(s3.node, PopBlock(n1).node);
    TakeBackPending(n1.books.accts.conf, a, d);
    assert Txs(ps) == [VoteBack(a, d)] by { OneTx(ps); }
    VoteBackIs(a, d);
    LastUndone(s3.node, ps, n1.books.accts.conf, 0, 0);
    UndoneListConf(s3.node, ps);
  }

  lemma OneTx(ps: seq<Pooled>)
    requires |ps| == 1
    ensures Txs(ps) == [ps[0].tx]
  {
  }

  lemma GenesisIs(n: Node)
    requires Genesis(n)
    ensures |n.blocks| == 1 && NextRound(n) == CalcRound(2)
    ensures Settled(n.books, NextRound(n)) && Tallied(n.books, NextRound(n))
  {
    hide Settled, Tallied;
  }

  lemma AppliedIs(n: Node, b: Block)
    ensures Applied(n, b) == ApplyBlock(n, b).node
  {
    hide ApplyBlock;
  }

  lemma TakeBackAccepted(s: Chained, a: PublicKey, d: PublicKey, e: Circumstances)
    requires s.pool.unconfirmed == [] && e.settings.outside(VoteBack(a, d)) && a != e.settings.genesisKey
    requires s.node.books.accts.conf == s.node.books.accts.unconf
    requires var row := Row(s.node.books.accts.conf, OfKey(a));
             row.balance >= VOTE_FEE && row.delegates == multiset{d} && row.multisignatures == multiset{}
    requires Row(s.node.books.accts.conf, OfKey(d)).isDelegate
    ensures Accepted(s.node, s.pool, TakeBack(a, d), e.settings) && Entry(s.node, TakeBack(a, d)).tx == VoteBack(a, d)
  {
    hide Verified, UAllowed;
    VoteVerified(s.node.books.accts, e.settings.genesisKey, VoteBack(a, d), "-" + d, d);
    assert Entry(s.node, TakeBack(a, d)) == TakeBack(a, d);
  }

  lemma TakeBackListed(ps: seq<Pooled>, q: Pooled, a: PublicKey, d: PublicKey)
    requires ps == [] + [q] && q.tx == VoteBack(a, d)
    ensures Txs(ps) == [VoteBack(a, d)] && |ps| == 1 && ps[0].tx == VoteBack(a, d)
  {
  }

  lemma PendingKeepsBase(n: Node, tx: Transaction)
    ensures !tx.asset.Multisignature? ==> SameBase(UStep(n, tx), n) && UStep(n, tx).blocks == n.blocks
  {
    hide Touch;
  }

  lemma BaseIs(n: Node, m: Node)
    requires SameBase(n, m)
    ensures n.blocks == m.blocks && n.books.accts.conf == m.books.accts.conf
  {
  }

  lemma SecondPopped(n: Node, genesisKey: PublicKey, b: Block)
    requires |n.blocks| == 1 && Settled(n.books, CalcRound(2)) && BlockVerified(n, genesisKey, b) && ApplyBlock(n, b).ok
    ensures var p := PopBlock(Applied(n, b)); p.ok && p.node.books == n.books && p.node.blocks == n.blocks
  {
    hide Settled, BlockVerified, ApplyBlock, PopBlock, Applied;
    PopInsideRound(n, genesisKey, b);
  }

  lemma TakeBackPending(conf: SideTable, a: PublicKey, d: PublicKey)
    requires Row(conf, OfKey(a)).delegates == multiset{d}
    ensures PendingOk(conf, [VoteBack(a, d)])
  {
    VoteBackIs(a, d);
  }

  lemma VoteBackIs(a: PublicKey, d: PublicKey)
    ensures var t := VoteBack(a, d);
            && t.asset == Votes(["-" + d]) && t.From() == OfKey(a) && !t.asset.Multisignature?
            && KeyOf("-" + d) == d && IsMinus("-" + d) && Signed("-" + d)
  {
    assert ("-" + d)[1..] == d;
  }

  lemma CanVoteIs(n: Node, genesisKey: PublicKey, a: PublicKey, d: PublicKey)
    requires CanVote(n, genesisKey, a, d)
    ensures Row(n.books.accts.conf, OfKey(a)).delegates == multiset{} && a != genesisKey
    ensures |n.blocks| == 1 && n.blocks[0].id != "" && StalePops.Sole(n, d)
  {
  }

  // ---------- a genesis block for it ----------

  const PAYER: PublicKey := "g"
  const VOTER: PublicKey := "a"

  /** The genesis block registers a delegate and funds an account. */
  function FundingBlock(): Block {
    Block("1", "", 0, PAYER, 0, 0,
          [StalePops.WitnessBlock().transactions[0],
              Transaction("4", PAYER, 10 * VOTE_FEE, 0, Send(OfKey(VOTER)), None)])
  }

  lemma FundingApplies()
    ensures var g := GenesisAll(FundingBlock().transactions);
            && g.ok && Row(g.node.books.accts.conf, OfKey(StalePops.WITNESS)).isDelegate
            && Row(g.node.books.accts.conf, OfKey(VOTER)) == EMPTY_SIDE.(balance := 10 * VOTE_FEE)
  {
    hide *;
    var txs := FundingBlock().transactions;
    FundingIs();
    var n, reg, pay := EmptyNode(), txs[0], txs[1];
    StalePops.NobodyThere();
    StalePops.RegistrationStep(n, reg);
    StalePops.NobodyHas(n.books.accts, OfKey(VOTER));
    var n1 := CStep(UStep(n, reg), 1, reg);
    StalePops.NobodyHas(n.books.accts, OfKey(PAYER));
    GenesisPairIs(n, reg, OfKey(VOTER));
    GenesisPairIs(n, reg, OfKey(PAYER));
    NextGenesis(txs, 0);
    SendAllowed(n1, pay);
    NextGenesis(txs, 1);
    GenesisPairIs(n1, pay, OfKey(VOTER));
    GenesisPairIs(n1, pay, OfKey(StalePops.WITNESS));
    WitnessHalf();
  }

  lemma FundingIs()
    ensures var txs := FundingBlock().transactions;
            && |txs| == 2 && txs[0] == StalePops.WitnessBlock().transactions[0]
            && txs[0].From() == OfKey(StalePops.WITNESS)
            && txs[0].asset.Registration? && !txs[0].asset.Send?
            && txs[1].asset == Send(OfKey(VOTER)) && txs[1].amount == 10 * VOTE_FEE && txs[1].From() == OfKey(PAYER)
            && txs[..0] == [] && txs[..2] == txs && GenesisAll([]) == Attempt(EmptyNode(), true)
            && OfKey(VOTER) != OfKey(PAYER) && OfKey(VOTER) != OfKey(StalePops.WITNESS)
            && OfKey(PAYER) != OfKey(StalePops.WITNESS)
            && EMPTY_SIDE.multisignatures == multiset{} && EMPTY_SIDE.balance == 0
  {
    hide EmptyNode;
  }

  lemma WitnessHalf()
    ensures StalePops.Half(multiset{}).isDelegate
  {
  }

  lemma NextGenesis(txs: seq<Transaction>, k: nat)
    requires k < |txs| && GenesisAll(txs[..k]).ok
    requires var n := GenesisAll(txs[..k]).node;
             UAllowed(n.books.accts, n.flags, txs[k], true) && CAllowed(UStep(n, txs[k]).books.accts, txs[k], true)
    ensures GenesisAll(txs[..k + 1]) == Attempt(CStep(UStep(GenesisAll(txs[..k]).node, txs[k]), 1, txs[k]), true)
  {
    hide UAllowed, CAllowed, UStep, CStep, EmptyNode;
    assert txs[..k + 1][..k] == txs[..k];
  }

  lemma SendAllowed(n: Node, tx: Transaction)
    requires tx.asset.Send? && Row(n.books.accts.conf, tx.From()).multisignatures == multiset{}
    ensures UAllowed(n.books.accts, n.flags, tx, true) && CAllowed(UStep(n, tx).books.accts, tx, true)
  {
    hide Touch, Row;
  }

  lemma GenesisPairIs(n: Node, tx: Transaction, a: Address)
    ensures var r := CStep(UStep(n, tx), 1, tx).books.accts.conf;
            var s := if a == tx.From() then Touched(Row(n.books.accts.conf, a), tx) else Row(n.books.accts.conf, a);
            Row(r, a) == s.(balance := s.balance + if tx.asset.Send? && a == tx.asset.recipient then tx.amount else 0)
  {
    hide Touch, Credit, Touched, Row, CStep, UStep;
    StalePops.StepPairs(n, tx);
    PairConf(n.books.accts, tx);
    MovedIsCredit(n.books.accts.conf, tx);
    MovedRow(n.books.accts.conf, tx, a);
  }

  lemma FundingRegisters(e: PublicKey)
    ensures Registers(FundingBlock().transactions, OfKey(e)) <==> e == StalePops.WITNESS
  {
    var txs := FundingBlock().transactions;
    assert txs[0].asset.Registration? && txs[0].From() == OfKey(StalePops.WITNESS);
  }

  /** So the run above can start from a real genesis block. */
  lemma FundedGenesis()
    ensures var g := ApplyGenesis(FundingBlock());
            g.ok && Genesis(g.node) && CanVote(g.node, PAYER, VOTER, StalePops.WITNESS)
  {
    hide GenesisAll, Settled, Tallied, Tick, Registers;
    var b := FundingBlock();
    FundingApplies();
    GenesisHolds(b);
    StalePops.GenesisRow(b, OfKey(VOTER));
    StalePops.GenesisRow(b, OfKey(StalePops.WITNESS));
    forall e: PublicKey
      ensures Row(ApplyGenesis(b).node.books.accts.conf, OfKey(e)).isDelegate <==> e == StalePops.WITNESS
    {
      StalePops.GenesisRow(b, OfKey(e));
      GenesisRegisters(b.transactions, OfKey(e));
      FundingRegisters(e);
    }
    GenesisIs(ApplyGenesis(b).node);
  }
}
