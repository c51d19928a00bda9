/**
  A run that leaves wrong books: 200 blocks without transactions, then 101 deletions.  The pop at the end
  of round 1 is given the snapshot of round 2, which has no rows, and accepts it.
 */
module StalePops {
  import opened Base
  import opened Diff
  import opened Accounts
  import opened Tally
  import opened Payouts
  import opened Voting
  import opened Ledger
  import opened Rollback
  import opened Invariants
  import opened PopBlocks
  import opened Landing
  import opened History
  import opened GenesisBlocks
  import opened Conservation
  import opened ExactPops
  import opened BlockRewards
  import opened ForkChoice
  import opened ChainSteps
  import opened Delegates
  import opened ActiveDelegates

  /** An id for each height. */
  function IdOf(h: nat): string { seq(h, i => 'b') }

  /** The block of a height: linked, in the next slot of a delegate that is the only one, with the reward that is due
      and no transactions. */
  function EmptyBlock(c: Rewards, d: PublicKey, h: nat): Block
    requires c.Valid() && h > 0
  {
    Block(IdOf(h), IdOf(h - 1), 10 * (ACTIVE_DELEGATES * h), d, 0, c.CalcReward(h), [])
  }

  /** The blocks of heights 2 to k + 1. */
  function EmptyBlocks(c: Rewards, d: PublicKey, k: nat): seq<Block>
    requires c.Valid()
  {
    seq(k, i requires 0 <= i < k => EmptyBlock(c, d, i + 2))
  }

  function Extends(c: Rewards, d: PublicKey, k: nat): seq<Event>
    requires c.Valid()
  {
    seq(k, i requires 0 <= i < k => Extend(EmptyBlock(c, d, i + 2)))
  }

  function Deletes(j: nat): seq<Event> { seq(j, i => Pop) }

  /** A delegate that votes for itself alone, with no rows pending for it. */
  ghost predicate SelfVoter(n: Node, d: PublicKey) {
    && Row(n.books.accts.conf, OfKey(d)).isDelegate
    && Row(n.books.accts.conf, OfKey(d)).delegates == multiset{d}
    && (forall r: int :: PendingAt(n.books.pending, r, d) == 0)
    && n.rounds == {}
  }

  /** A genesis block in slot 0 with the id of height 1. */
  predicate StartsAtZero(n0: Node) {
    |n0.blocks| == 1 && n0.blocks[0].id == IdOf(1) && n0.blocks[0].timestamp == 0
  }

  /** The only registered delegate. */
  ghost predicate Sole(n: Node, d: PublicKey) {
    d != "" && forall e: PublicKey :: Row(n.books.accts.conf, OfKey(e)).isDelegate <==> e == d
  }

  ghost function VoteOf(n: Node, d: PublicKey): int { Get(n.books.votes, OfKey(d)) }

  // ---------- each of these blocks is one the node accepts ----------

  /** Such a delegate owns every slot that is a multiple of 101. */
  lemma SoleOwns(n: Node, b: Block, height: nat, hash: Digest -> Digest, d: PublicKey)
    requires Sole(n, d) && b.generator == d && SlotNumber(b.timestamp) % ACTIVE_DELEGATES == 0
    ensures OwnsSlot(VotesNow(n), height, hash, b)
  {
    hide Row, OwnsSlot;
    OnlyDelegateOwns(VotesNow(n), height, hash, b, d);
  }

  lemma EmptySlot(c: Rewards, d: PublicKey, h: nat)
    requires c.Valid() && h > 0
    ensures var b := EmptyBlock(c, d, h);
            SlotNumber(b.timestamp) == ACTIVE_DELEGATES * h && SlotNumber(b.timestamp) % ACTIVE_DELEGATES == 0
  {
    hide c.CalcReward;
  }

  /** Whatever the clock says, as long as the block is not from the future, and its signature and the like are in
      order. */
  lemma EmptyPasses(n: Node, n0: Node, c: Rewards, d: PublicKey, k: nat, e: Circumstances)
    requires c.Valid() && StartsAtZero(n0) && n.blocks == n0.blocks + EmptyBlocks(c, d, k) && SelfVoter(n, d)
    requires Sole(n, d) && e.rewards == c && e.block && e.currentSlot >= ACTIVE_DELEGATES * (k + 2)
    ensures BlockPasses(n, EmptyBlock(c, d, k + 2), e)
  {
    hide c.CalcReward, Row, OwnsSlot, Sole;
    var b := EmptyBlock(c, d, k + 2);
    var h := Head(n.blocks);
    assert |n.blocks| == k + 1;
    EmptySlot(c, d, k + 2);
    assert h.id == IdOf(k + 1) && SlotNumber(h.timestamp) <= ACTIVE_DELEGATES * (k + 1) by {
      if k > 0 {
        assert h == EmptyBlock(c, d, k + 1);
        EmptySlot(c, d, k + 1);
      }
    }
    SoleOwns(n, b, |n.blocks| + 1, e.hash, d);
    forall i | 0 <= i < |n.blocks| ensures n.blocks[i].id != b.id {
      if i > 0 { assert n.blocks[i] == EmptyBlock(c, d, i + 1); }
      assert |n.blocks[i].id| == i + 1;
    }
  }

  lemma EmptyApplies(n: Node, genesisKey: PublicKey, c: Rewards, d: PublicKey, h: nat)
    requires c.Valid() && h > 0 && |n.blocks| > 0 && SelfVoter(n, d)
    ensures BlockVerified(n, genesisKey, EmptyBlock(c, d, h)) && ApplyBlock(n, EmptyBlock(c, d, h)).ok
    ensures Applied(n, EmptyBlock(c, d, h)) == Tick(n.(blocks := n.blocks + [EmptyBlock(c, d, h)]))
  {
    hide Tick, Row, c.CalcReward;
  }

  lemma EmptyInside(n: Node, c: Rewards, d: PublicKey, h: nat)
    requires c.Valid() && h > 0 && |n.blocks| > 0 && SelfVoter(n, d) && (|n.blocks| + 1) % ACTIVE_DELEGATES != 0
    ensures var a := Applied(n, EmptyBlock(c, d, h));
            && SelfVoter(a, d) && VoteOf(a, d) == VoteOf(n, d)
            && (if (|n.blocks| + 2) % ACTIVE_DELEGATES == 0
                then SnapshotOf(a.snapshot, a) && a.snapshot.value.rounds == {}
                else a.snapshot == n.snapshot)
  {
    assert EmptyBlock(c, d, h).generator == d;
    hide Tick, Row, Add, ApplyBlock, SnapshotOf, EmptyBlock;
    EmptyApplies(n, "", c, d, h);
    TickInside(n.(blocks := n.blocks + [EmptyBlock(c, d, h)]));
  }

  /** Payouts only add to a self-voter's pending rows, and add something if one pays it something. */
  lemma {:induction false} PayoutsCount(b: Books, round: int, ps: seq<Payout>, d: PublicKey, i: nat)
    requires Row(b.accts.conf, OfKey(d)).delegates == multiset{d}
    requires forall k :: 0 <= k < |ps| ==> ps[k].fee + ps[k].reward >= 0
    ensures var p := PayAll(b, round, ps);
            && Row(p.accts.conf, OfKey(d)).delegates == multiset{d}
            && Row(p.accts.conf, OfKey(d)).isDelegate == Row(b.accts.conf, OfKey(d)).isDelegate
            && PendingAt(p.pending, round, d) >= PendingAt(b.pending, round, d)
            && (forall r: int :: r != round ==> PendingAt(p.pending, r, d) == PendingAt(b.pending, r, d))
            && p.votes == b.votes
    ensures i < |ps| && ps[i].to == d && ps[i].fee + ps[i].reward > 0 ==>
              PendingAt(PayAll(b, round, ps).pending, round, d) > PendingAt(b.pending, round, d)
  {
    hide PayOut, Row;
    if ps != [] {
      var n := |ps| - 1;
      var pre := PayAll(b, round, ps[..n]);
      assert forall k :: 0 <= k < n ==> ps[..n][k] == ps[k];
      PayoutsCount(b, round, ps[..n], d, i);
      OnePayoutCounts(pre, round, ps[n], d);
    }
  }

  lemma OnePayoutCounts(b: Books, round: int, p: Payout, d: PublicKey)
    requires Row(b.accts.conf, OfKey(d)).delegates == multiset{d} && p.fee + p.reward >= 0
    ensures var q := PayOut(b, round, p);
            && Row(q.accts.conf, OfKey(d)).delegates == multiset{d}
            && Row(q.accts.conf, OfKey(d)).isDelegate == Row(b.accts.conf, OfKey(d)).isDelegate
            && PendingAt(q.pending, round, d) >= PendingAt(b.pending, round, d)
            && (p.to == d && p.fee + p.reward > 0 ==> PendingAt(q.pending, round, d) > PendingAt(b.pending, round, d))
            && (forall r: int :: r != round ==> PendingAt(q.pending, r, d) == PendingAt(b.pending, r, d))
            && q.votes == b.votes
  {
    hide PayOut, Row;
    var x, m := p.fee + p.reward, Row(b.accts.conf, OfKey(p.to)).delegates[d];
    forall r: int ensures PendingAt(PayOut(b, round, p).pending, r, d) ==
                          PendingAt(b.pending, r, d) + if r == round then x * m else 0
    {
      PayOutAt(b, round, p, r, d);
    }
    PayOutRow(b, round, p, OfKey(d));
    NonNegativeProduct(x, m);
  }

  lemma PayOutAt(b: Books, round: int, p: Payout, r: int, d: PublicKey)
    ensures PendingAt(PayOut(b, round, p).pending, r, d) ==
            PendingAt(b.pending, r, d)
            + if r == round then (p.fee + p.reward) * Row(b.accts.conf, OfKey(p.to)).delegates[d] else 0
  {
    hide Pay, Row;
  }

  lemma PayOutRow(b: Books, round: int, p: Payout, a: Address)
    ensures var r := Row(PayOut(b, round, p).accts.conf, a);
            r == Row(b.accts.conf, a).(balance := r.balance) && PayOut(b, round, p).votes == b.votes
  {
    hide Add, Accrue;
  }

  lemma EmptyAtEnd(n: Node, c: Rewards, d: PublicKey)
    requires c.Valid() && |n.blocks| == 100 && n.blocks[1] == EmptyBlock(c, d, 2) && SelfVoter(n, d)
    ensures var a := Applied(n, EmptyBlock(c, d, 101));
            && SelfVoter(a, d) && VoteOf(a, d) >= VoteOf(n, d) && a.snapshot == n.snapshot
            && (c.CalcReward(2) > 0 ==> VoteOf(a, d) > VoteOf(n, d))
  {
    var b := EmptyBlock(c, d, 101);
    assert b.generator == d && b.transactions == [];
    hide *;
    var blocks := n.blocks + [b];
    var s := SumRound(blocks);
    var ps := ForwardPayouts(s.delegates, s.rewards, s.fees);
    var before := WithProduced(n.books, Add(n.books.accts.produced, OfKey(d), 1));
    EmptyApplies(n, "", c, d, 101);
    AppliedAtEnd(n, b);
    RoundRewardsPositive(blocks);
    ForwardPositive(s.delegates, s.rewards, s.fees);
    SecondShare(blocks, c, d);
    SelfVoterIs(n, d);
    PayoutsCount(before, 1, ps, d, 1);
    EmptyRounds(n, c, d);
    LandedIs(n, b, d);
    LandedVoter(before, PayAll(before, 1, ps), Applied(n, b), d);
  }

  lemma SelfVoterIs(n: Node, d: PublicKey)
    ensures SelfVoter(n, d) <==>
            && Row(n.books.accts.conf, OfKey(d)).isDelegate
            && Row(n.books.accts.conf, OfKey(d)).delegates == multiset{d}
            && (forall r: int :: PendingAt(n.books.pending, r, d) == 0)
            && n.rounds == {}
    ensures VoteOf(n, d) == Get(n.books.votes, OfKey(d))
    ensures forall p: Column :: WithProduced(n.books, p).accts.conf == n.books.accts.conf
    ensures forall p: Column ::
              WithProduced(n.books, p).pending == n.books.pending && WithProduced(n.books, p).votes == n.books.votes
  {
    hide Row, PendingAt;
  }

  lemma LandedIs(n: Node, b: Block, d: PublicKey)
    requires |n.blocks| == 100 && b.transactions == [] && b.generator == d
    ensures var s := SumRound(n.blocks + [b]);
            var paid := PayAll(WithProduced(n.books, Add(n.books.accts.produced, OfKey(d), 1)), 1,
                               ForwardPayouts(s.delegates, s.rewards, s.fees));
            LandedBooks(n, b) == Books(paid.accts, UpdateVotes(paid.votes, paid.pending, 1), Flush(paid.pending, 1))
    ensures (|n.blocks| + 1) % ACTIVE_DELEGATES == 0
  {
    hide SumRound, PayAll, Add, ForwardPayouts;
  }

  /** Landing moves what the payouts added into the delegate's votes. */
  lemma LandedVoter(before: Books, paid: Books, a: Node, d: PublicKey)
    requires a.books == Books(paid.accts, UpdateVotes(paid.votes, paid.pending, 1), Flush(paid.pending, 1))
    requires a.rounds == {}
    requires Row(paid.accts.conf, OfKey(d)).isDelegate && Row(paid.accts.conf, OfKey(d)).delegates == multiset{d}
    requires forall r: int :: PendingAt(before.pending, r, d) == 0
    requires forall r: int :: r != 1 ==> PendingAt(paid.pending, r, d) == PendingAt(before.pending, r, d)
    requires paid.votes == before.votes
    ensures SelfVoter(a, d) && VoteOf(a, d) == Get(before.votes, OfKey(d)) + PendingAt(paid.pending, 1, d)
  {
    hide Row;
  }

  lemma SecondShare(blocks: seq<Block>, c: Rewards, d: PublicKey)
    requires c.Valid() && |blocks| == 101 && blocks[1] == EmptyBlock(c, d, 2)
    ensures var s := SumRound(blocks);
            var ps := ForwardPayouts(s.delegates, s.rewards, s.fees);
            |ps| > 1 && ps[1].to == d && (c.CalcReward(2) > 0 ==> ps[1].fee + ps[1].reward > 0)
  {
    hide TotalFees, c.CalcReward;
    assert blocks[0..101] == blocks;
  }

  lemma EmptyRounds(n: Node, c: Rewards, d: PublicKey)
    requires c.Valid() && |n.blocks| == 100 && SelfVoter(n, d)
    ensures Applied(n, EmptyBlock(c, d, 101)).rounds == {}
  {
    hide Row, PayAll, SumRound, Add, RewardRows, TakeSnapshot, ApplyBlock, EmptyBlock;
    EmptyApplies(n, "", c, d, 101);
  }

  lemma NonNegativeProduct(x: nat, m: nat)
    ensures x * m >= 0
  {
  }

  // ---------- up to height 201 ----------

  /** What the node looks like after k blocks. */
  ghost predicate Climbed(t: Trace, n0: Node, c: Rewards, d: PublicKey, k: nat)
    requires c.Valid()
  {
    && |n0.blocks| == 1 && t.node.blocks == n0.blocks + EmptyBlocks(c, d, k)
    && SelfVoter(t.node, d)
    && (if k < 100 then VoteOf(t.node, d) == VoteOf(n0, d)
        else VoteOf(t.node, d) >= VoteOf(n0, d) && (c.CalcReward(2) > 0 ==> VoteOf(t.node, d) > VoteOf(n0, d)))
    && (k == 200 ==> t.saved == Some(Chain(t.node)) && SnapshotOf(t.node.snapshot, t.node)
                     && t.node.snapshot.value.rounds == {})
  }

  lemma ClimbStep(t: Trace, n0: Node, genesisKey: PublicKey, c: Rewards, d: PublicKey, k: nat)
    requires c.Valid() && k < 200 && Climbed(t, n0, c, d, k)
    ensures |t.node.blocks| > 0 && Climbed(Step(t, genesisKey, Extend(EmptyBlock(c, d, k + 2))), n0, c, d, k + 1)
  {
    hide *;
    ClimbedIs(t, n0, c, d, k);
    EmptyStep(t, genesisKey, c, d, k + 2);
    var t' := Step(t, genesisKey, Extend(EmptyBlock(c, d, k + 2)));
    BlocksNext(c, d, k);
    assert t'.node.blocks == n0.blocks + EmptyBlocks(c, d, k + 1);
    if k == 99 {
      FirstIsSecond(n0, c, d, k);
      EmptyAtEnd(t.node, c, d);
    } else {
      HundredOne(k);
      EmptyInside(t.node, c, d, k + 2);
    }
    ClimbedIs(t', n0, c, d, k + 1);
  }

  lemma ClimbedIs(t: Trace, n0: Node, c: Rewards, d: PublicKey, k: nat)
    requires c.Valid()
    ensures Climbed(t, n0, c, d, k) <==>
            && |n0.blocks| == 1 && t.node.blocks == n0.blocks + EmptyBlocks(c, d, k)
            && SelfVoter(t.node, d)
            && (if k < 100 then VoteOf(t.node, d) == VoteOf(n0, d)
                else VoteOf(t.node, d) >= VoteOf(n0, d) && (c.CalcReward(2) > 0 ==> VoteOf(t.node, d) > VoteOf(n0, d)))
            && (k == 200 ==> t.saved == Some(Chain(t.node)) && SnapshotOf(t.node.snapshot, t.node)
                             && t.node.snapshot.value.rounds == {})
    ensures |EmptyBlocks(c, d, k)| == k
  {
    hide SelfVoter, VoteOf, SnapshotOf, c.CalcReward;
  }

  lemma BlocksNext(c: Rewards, d: PublicKey, k: nat)
    requires c.Valid()
    ensures EmptyBlocks(c, d, k + 1) == EmptyBlocks(c, d, k) + [EmptyBlock(c, d, k + 2)]
  {
    hide c.CalcReward;
  }

  lemma FirstIsSecond(n0: Node, c: Rewards, d: PublicKey, k: nat)
    requires c.Valid() && |n0.blocks| == 1 && k > 0
    ensures |n0.blocks + EmptyBlocks(c, d, k)| == k + 1 && (n0.blocks + EmptyBlocks(c, d, k))[1] == EmptyBlock(c, d, 2)
  {
    hide c.CalcReward;
  }

  lemma HundredOne(k: nat)
    requires k < 200 && k != 99
    ensures (k + 2) % ACTIVE_DELEGATES != 0 && ((k + 3) % ACTIVE_DELEGATES == 0 <==> k == 98 || k == 199)
  {
  }

  lemma EmptyStep(t: Trace, genesisKey: PublicKey, c: Rewards, d: PublicKey, h: nat)
    requires c.Valid() && h > 0 && |t.node.blocks| > 0 && SelfVoter(t.node, d)
    ensures var t', a := Step(t, genesisKey, Extend(EmptyBlock(c, d, h))), Applied(t.node, EmptyBlock(c, d, h));
            && t'.node == a && a.blocks == t.node.blocks + [EmptyBlock(c, d, h)]
            && (|a.blocks| == 201 ==> t'.saved == Some(Chain(a)))
  {
    hide ApplyBlock, BlockVerified, SelfVoter, EmptyBlock;
    EmptyApplies(t.node, genesisKey, c, d, h);
    AppliedBlocks(t.node, EmptyBlock(c, d, h));
  }

  lemma {:induction false} Climb(n0: Node, genesisKey: PublicKey, c: Rewards, d: PublicKey, k: nat)
    requires c.Valid() && Genesis(n0) && SelfVoter(n0, d) && k <= 200
    ensures |n0.blocks| > 0 && NoStalePop(n0, genesisKey, Extends(c, d, k))
    ensures Climbed(Run(n0, genesisKey, Extends(c, d, k)), n0, c, d, k)
  {
    hide SelfVoter, SnapshotOf, VoteOf, Step, Genesis, AtRoundEnd, StaleEmpty, EmptyBlock, c.CalcReward;
    GenesisBlock(n0);
    if k == 0 {
      assert n0.blocks + EmptyBlocks(c, d, 0) == n0.blocks;
    } else {
      Climb(n0, genesisKey, c, d, k - 1);
      assert Extends(c, d, k)[..k - 1] == Extends(c, d, k - 1);
      ClimbStep(Run(n0, genesisKey, Extends(c, d, k - 1)), n0, genesisKey, c, d, k - 1);
    }
  }

  /** A block without transactions registers nobody. */
  lemma EmptyRegisters(n: Node, c: Rewards, d: PublicKey, h: nat)
    requires c.Valid() && h > 0 && |n.blocks| > 0 && SelfVoter(n, d) && Sole(n, d)
    ensures Sole(Applied(n, EmptyBlock(c, d, h)), d)
  {
    var b := EmptyBlock(c, d, h);
    assert b.transactions == [] && b.generator == d;
    hide EmptyBlock, ApplyBlock, SelfVoter, PayAll, PayAccts, SumRound, ForwardPayouts, RewardRows, Add, Row, Applied;
    EmptyApplies(n, "", c, d, h);
    var before := WithProduced(n.books, Add(n.books.accts.produced, OfKey(d), 1));
    var s := SumRound(n.blocks + [b]);
    forall e: PublicKey
      ensures Row(Applied(n, b).books.accts.conf, OfKey(e)).isDelegate == Row(n.books.accts.conf, OfKey(e)).isDelegate
    {
      if (|n.blocks| + 1) % ACTIVE_DELEGATES == 0 {
        AppliedAtEnd(n, b);
        PaidAccts(n, b);
        PayAcctsRow(before.accts, ForwardPayouts(s.delegates, s.rewards, s.fees), OfKey(e));
      } else {
        AppliedInside(n, b);
      }
    }
  }

  lemma {:induction false} ClimbSole(n0: Node, genesisKey: PublicKey, c: Rewards, d: PublicKey, k: nat)
    requires c.Valid() && Genesis(n0) && SelfVoter(n0, d) && Sole(n0, d) && k <= 200
    ensures |n0.blocks| > 0 && Sole(Run(n0, genesisKey, Extends(c, d, k)).node, d)
  {
    hide SelfVoter, Sole, Step, Genesis, EmptyBlock, c.CalcReward, Climbed;
    GenesisBlock(n0);
    if k > 0 {
      ClimbSole(n0, genesisKey, c, d, k - 1);
      assert Extends(c, d, k)[..k - 1] == Extends(c, d, k - 1);
      var t := Run(n0, genesisKey, Extends(c, d, k - 1));
      Climb(n0, genesisKey, c, d, k - 1);
      ClimbedIs(t, n0, c, d, k - 1);
      EmptyStep(t, genesisKey, c, d, k + 1);
      EmptyRegisters(t.node, c, d, k + 1);
    }
  }

  /** Every block of the climb passes all the checks of the node it is given to, the forger's slot included. */
  lemma ClimbAccepted(n0: Node, genesisKey: PublicKey, c: Rewards, d: PublicKey, k: nat, e: Circumstances)
    requires c.Valid() && Genesis(n0) && SelfVoter(n0, d) && Sole(n0, d) && StartsAtZero(n0) && k < 200
    requires e.rewards == c && e.block && e.currentSlot >= ACTIVE_DELEGATES * (k + 2)
    ensures var n := Run(n0, genesisKey, Extends(c, d, k)).node;
            |n.blocks| > 0 && BlockPasses(n, EmptyBlock(c, d, k + 2), e)
  {
    hide SelfVoter, Sole, SnapshotOf, VoteOf, Run, Genesis, BlockPasses;
    Climb(n0, genesisKey, c, d, k);
    ClimbSole(n0, genesisKey, c, d, k);
    EmptyPasses(Run(n0, genesisKey, Extends(c, d, k)).node, n0, c, d, k, e);
  }

  // ---------- down to height 101 ----------

  ghost predicate Fallen(t: Trace, top: Trace, j: nat) {
    && j <= |top.node.blocks| && |t.node.blocks| > 0
    && t.node.blocks == top.node.blocks[..|top.node.blocks| - j]
    && t.saved == top.saved && t.node.snapshot == top.node.snapshot
  }

  lemma FallStep(t: Trace, top: Trace, genesisKey: PublicKey, j: nat)
    requires |top.node.blocks| == 201 && j < 100 && Fallen(t, top, j)
    ensures !AtRoundEnd(t.node) && Fallen(Step(t, genesisKey, Pop), top, j + 1)
  {
    hide PopBlock, SnapshotAvailable;
    PopGoesThroughIff(t.node);
    PopKeepsSnapshot(t.node);
    assert t.node.blocks[..|t.node.blocks| - 1] == top.node.blocks[..|top.node.blocks| - (j + 1)];
  }

  lemma {:induction false} Fall(n0: Node, genesisKey: PublicKey, c: Rewards, d: PublicKey, j: nat)
    requires c.Valid() && Genesis(n0) && SelfVoter(n0, d) && j <= 100
    ensures |n0.blocks| > 0 && NoStalePop(n0, genesisKey, Extends(c, d, 200) + Deletes(j))
    ensures Fallen(Run(n0, genesisKey, Extends(c, d, 200) + Deletes(j)), Run(n0, genesisKey, Extends(c, d, 200)), j)
  {
    hide SelfVoter, SnapshotOf, VoteOf, Step, Genesis, AtRoundEnd, StaleEmpty, Run, EmptyBlock, c.CalcReward;
    Climb(n0, genesisKey, c, d, 200);
    var top := Run(n0, genesisKey, Extends(c, d, 200));
    if j == 0 {
      assert Extends(c, d, 200) + Deletes(0) == Extends(c, d, 200);
    } else {
      var pre, es := Extends(c, d, 200) + Deletes(j - 1), Extends(c, d, 200) + Deletes(j);
      Fall(n0, genesisKey, c, d, j - 1);
      assert es == pre + [Pop];
      FallStep(Run(n0, genesisKey, pre), top, genesisKey, j - 1);
      RunPush(n0, genesisKey, pre, Pop);
      OneMorePop(n0, genesisKey, pre);
    }
  }

  lemma OneMorePop(n0: Node, genesisKey: PublicKey, es: seq<Event>)
    requires |n0.blocks| > 0 && NoStalePop(n0, genesisKey, es) && !AtRoundEnd(Run(n0, genesisKey, es).node)
    ensures NoStalePop(n0, genesisKey, es + [Pop])
  {
    hide AtRoundEnd, StaleEmpty, Run;
    var all := es + [Pop];
    forall k | 0 <= k < |all| && all[k].Pop?
      ensures AtRoundEnd(Run(n0, genesisKey, all[..k]).node) ==> !StaleEmpty(Run(n0, genesisKey, all[..k]))
    {
      if k < |es| { assert all[..k] == es[..k] && all[k] == es[k]; } else { assert all[..k] == es; }
    }
  }

  // ---------- the pop that goes wrong ----------

  /** Every pop but the last of this run is exact.  The last one goes through and counts 200 forged blocks
      where 99 are in the chain; and once blocks bring rewards, it leaves the delegate the votes of the end of
      the round instead of those before it. */
  lemma StalePopLeavesWrongBooks(n0: Node, genesisKey: PublicKey, c: Rewards, d: PublicKey)
    requires c.Valid() && Genesis(n0) && SelfVoter(n0, d)
    ensures |n0.blocks| == 1
    ensures var es := Extends(c, d, 200) + Deletes(100);
            var t := Run(n0, genesisKey, es);
            && NoStalePop(n0, genesisKey, es) && AtRoundEnd(t.node) && StaleEmpty(t) && PopBlock(t.node).ok
            && PopBlock(t.node).node.blocks == n0.blocks + EmptyBlocks(c, d, 99)
    ensures var n := PopBlock(Run(n0, genesisKey, Extends(c, d, 200) + Deletes(100)).node).node;
            var right := Replay(n0, EmptyBlocks(c, d, 99));
            && Get(n.books.accts.produced, OfKey(d)) == Get(n0.books.accts.produced, OfKey(d)) + 200
            && Get(right.books.accts.produced, OfKey(d)) == Get(n0.books.accts.produced, OfKey(d)) + 99
            && (c.CalcReward(2) > 0 ==> VoteOf(n, d) > VoteOf(right, d))
  {
    hide SelfVoter, SnapshotOf, Genesis, Run, Replay, PopBlock, Replayable, Settled, EmptyBlock, c.CalcReward, CountBy;
    GenesisBlock(n0);
    var es := Extends(c, d, 200) + Deletes(100);
    var t, top := Run(n0, genesisKey, es), Run(n0, genesisKey, Extends(c, d, 200));
    Climb(n0, genesisKey, c, d, 200);
    Fall(n0, genesisKey, c, d, 100);
    RunNear(n0, genesisKey, es);
    PrefixBlocks(c, d, 200, 100);
    PrefixBlocks(c, d, 100, 99);
    assert t.node.blocks == n0.blocks + EmptyBlocks(c, d, 100);
    assert Chain(t.node) == EmptyBlocks(c, d, 100);
    assert Chain(top.node) == EmptyBlocks(c, d, 200);
    StaleVotes(t, n0, genesisKey, OfKey(d));
    StaleCounters(t, n0, genesisKey);
    PopKeepsSnapshot(t.node);
    SavedVote(top, d);
    Climb(n0, genesisKey, c, d, 99);
    var low := Run(n0, genesisKey, Extends(c, d, 99));
    RunIsReplay(n0, genesisKey, Extends(c, d, 99));
    assert Chain(low.node) == EmptyBlocks(c, d, 99);
    ReplayCounts(n0, genesisKey, EmptyBlocks(c, d, 99), OfKey(d));
    AllByOne(c, d, 200);
    AllByOne(c, d, 99);
    assert EmptyBlocks(c, d, 100)[99].generator == d by { LastGenerator(c, d); }
  }

  lemma LastGenerator(c: Rewards, d: PublicKey)
    requires c.Valid()
    ensures |EmptyBlocks(c, d, 100)| == 100 && EmptyBlocks(c, d, 100)[99].generator == d
  {
  }

  lemma PrefixBlocks(c: Rewards, d: PublicKey, k: nat, j: nat)
    requires c.Valid() && j <= k
    ensures |EmptyBlocks(c, d, k)| == k && EmptyBlocks(c, d, k)[..j] == EmptyBlocks(c, d, j)
  {
    hide c.CalcReward;
  }

  lemma {:induction false} AllByOne(c: Rewards, d: PublicKey, k: nat)
    requires c.Valid()
    ensures CountBy(EmptyBlocks(c, d, k), OfKey(d)) == k
  {
    hide c.CalcReward;
    if k > 0 {
      AllByOne(c, d, k - 1);
      BlocksNext(c, d, k - 1);
      assert EmptyBlocks(c, d, k)[..k - 1] == EmptyBlocks(c, d, k - 1);
    }
  }

  lemma SavedVote(t: Trace, d: PublicKey)
    requires SelfVoter(t.node, d) && SnapshotOf(t.node.snapshot, t.node)
    ensures OfKey(d) in t.node.snapshot.value.votes && t.node.snapshot.value.votes[OfKey(d)] == VoteOf(t.node, d)
  {
    hide Row;
  }

  // ---------- a genesis block for it ----------

  const WITNESS: PublicKey := "d"

  /** The genesis block registers the delegate and gives it its own vote. */
  function WitnessBlock(): Block {
    Block(IdOf(1), "", 0, WITNESS, 0, 0,
          [Transaction("2", WITNESS, 0, 0, Registration("d"), None),
              Transaction("3", WITNESS, 0, 0, Votes(["+d"]), None)])
  }

  /** The witness account: a delegate, with these votes. */
  function Half(ds: multiset<PublicKey>): Side {
    EMPTY_SIDE.(isDelegate := true, username := Some("d"), delegates := ds)
  }

  lemma RegistrationApplies()
    ensures var g, r := GenesisAll([WitnessBlock().transactions[0]]), OfKey(WITNESS);
            && g.ok && Row(g.node.books.accts.conf, r) == Half(multiset{}) == Row(g.node.books.accts.unconf, r)
  {
    hide UAllowed, CAllowed, UStep, CStep, EmptyNode, Row;
    var reg := WitnessBlock().transactions[0];
    assert [reg][..0] == [];
    assert GenesisAll([reg][..0]) == Attempt(EmptyNode(), true);
    NobodyThere();
    RegistrationStep(EmptyNode(), reg);
  }

  /** No account has anything. */
  ghost predicate Nobody(s: Accts) {
    forall a: Address :: Row(s.conf, a) == EMPTY_SIDE && Row(s.unconf, a) == EMPTY_SIDE
  }

  lemma NobodyThere()
    ensures Nobody(EmptyNode().books.accts)
  {
  }

  lemma RegistrationStep(n: Node, reg: Transaction)
    requires reg == WitnessBlock().transactions[0] && Nobody(n.books.accts)
    ensures UAllowed(n.books.accts, n.flags, reg, true) && CAllowed(UStep(n, reg).books.accts, reg, true)
    ensures Row(CStep(UStep(n, reg), 1, reg).books.accts.conf, OfKey(WITNESS)) == Half(multiset{})
    ensures Row(CStep(UStep(n, reg), 1, reg).books.accts.unconf, OfKey(WITNESS)) == Half(multiset{})
  {
    hide *;
    RegistrationAllowed(n, reg);
    NobodyHas(n.books.accts, OfKey(WITNESS));
    RegistrationRow(n, reg);
  }

  lemma RegistrationRow(n: Node, reg: Transaction)
    requires reg == WitnessBlock().transactions[0]
    requires Row(n.books.accts.conf, OfKey(WITNESS)) == EMPTY_SIDE == Row(n.books.accts.unconf, OfKey(WITNESS))
    ensures Row(CStep(UStep(n, reg), 1, reg).books.accts.conf, OfKey(WITNESS)) == Half(multiset{})
    ensures Row(CStep(UStep(n, reg), 1, reg).books.accts.unconf, OfKey(WITNESS)) == Half(multiset{})
  {
    hide *;
    var g := n.books.accts;
    StepPairs(n, reg);
    PairConf(g, reg);
    NoCredit(Touch(g.conf, reg), reg);
    NoCredit(Touch(g.unconf, reg), reg);
    RowsOf(g.conf, reg);
    RowsOf(g.unconf, reg);
    HalfIs(reg);
  }

  lemma StepPairs(n: Node, tx: Transaction)
    ensures CStep(UStep(n, tx), 1, tx).books.accts == Pair(n.books.accts, tx)
  {
    hide UEffect, CEffect, CPending, TxRounds;
  }

  lemma NoCredit(t: SideTable, tx: Transaction)
    ensures !tx.asset.Send? ==> Credit(t, tx) == t
  {
  }

  lemma HalfIs(reg: Transaction)
    requires reg == WitnessBlock().transactions[0]
    ensures Touched(EMPTY_SIDE, reg) == Half(multiset{}) && !reg.asset.Send? && OfKey(reg.sender) == OfKey(WITNESS)
  {
  }

  lemma NobodyHas(s: Accts, a: Address)
    requires Nobody(s)
    ensures Row(s.conf, a) == EMPTY_SIDE && Row(s.unconf, a) == EMPTY_SIDE
  {
  }

  lemma RegistrationAllowed(n: Node, reg: Transaction)
    requires reg == WitnessBlock().transactions[0] && Nobody(n.books.accts)
    ensures UAllowed(n.books.accts, n.flags, reg, true) && CAllowed(UStep(n, reg).books.accts, reg, true)
  {
    hide Row, Touch;
    assert forall a: Address :: Row(n.books.accts.conf, a).username == None
            && Row(n.books.accts.unconf, a).username == None;
  }

  lemma RowsOf(t: SideTable, reg: Transaction)
    ensures Row(Touch(t, reg), OfKey(reg.sender)) == Touched(Row(t, OfKey(reg.sender)), reg)
  {
  }

  lemma OwnVote(conf: SideTable)
    requires Row(conf, OfKey(WITNESS)).isDelegate
    ensures CheckDelegates(conf, multiset{}, ["+d"]) && ApplyDiff(multiset{}, ["+d"]) == multiset{WITNESS}
  {
    hide CheckDelegates;
    var vs := ["+d"];
    assert vs[..0] == [] && Tail("+d") == "d";
    assert ApplyDiff(multiset{}, vs) == multiset{"d"};
    CheckDelegatesIff(conf, multiset{}, vs);
  }

  lemma VoteApplies()
    ensures var g, r := GenesisAll(WitnessBlock().transactions), OfKey(WITNESS);
            g.ok && Row(g.node.books.accts.conf, r) == Half(multiset{WITNESS})
  {
    hide UAllowed, CAllowed, UStep, CStep, EmptyNode, Row;
    var txs := WitnessBlock().transactions;
    assert txs[..1] == [txs[0]];
    RegistrationApplies();
    VoteStep(GenesisAll([txs[0]]).node, txs[1]);
  }

  lemma VoteStep(n: Node, vote: Transaction)
    requires vote == WitnessBlock().transactions[1]
    requires Row(n.books.accts.conf, OfKey(WITNESS)) == Half(multiset{}) == Row(n.books.accts.unconf, OfKey(WITNESS))
    ensures UAllowed(n.books.accts, n.flags, vote, true) && CAllowed(UStep(n, vote).books.accts, vote, true)
    ensures Row(CStep(UStep(n, vote), 1, vote).books.accts.conf, OfKey(WITNESS)) == Half(multiset{WITNESS})
  {
    hide CheckDelegates, ApplyDiff, CPending, UsernameFree;
    OwnVote(n.books.accts.conf);
  }

  /** So the run above starts from a real genesis block. */
  lemma WitnessVoter()
    ensures var g := ApplyGenesis(WitnessBlock());
            g.ok && Genesis(g.node) && SelfVoter(g.node, WITNESS) && Sole(g.node, WITNESS)
  {
    hide GenesisAll, Settled, Tallied, Registers;
    var b := WitnessBlock();
    VoteApplies();
    GenesisHolds(b);
    GenesisRow(b, OfKey(WITNESS));
    OnlyWitness();
    FlushedRow(b);
  }

  lemma OnlyWitness()
    requires ApplyGenesis(WitnessBlock()).ok
    ensures Sole(ApplyGenesis(WitnessBlock()).node, WITNESS)
  {
    hide ApplyGenesis, GenesisAll, Row, Registers;
    var b := WitnessBlock();
    GenesisOk(b);
    forall e: PublicKey ensures Row(ApplyGenesis(b).node.books.accts.conf, OfKey(e)).isDelegate <==> e == WITNESS {
      GenesisRow(b, OfKey(e));
      GenesisRegisters(b.transactions, OfKey(e));
      WitnessRegisters(e);
    }
  }

  lemma GenesisOk(b: Block)
    ensures ApplyGenesis(b).ok ==> GenesisAll(b.transactions).ok
  {
    hide GenesisAll, Tick;
  }

  lemma WitnessRegisters(e: PublicKey)
    ensures Registers(WitnessBlock().transactions, OfKey(e)) <==> e == WITNESS
  {
    var txs := WitnessBlock().transactions;
    assert txs[0].asset.Registration? && txs[0].From() == OfKey(WITNESS);
  }

  /** Landing the genesis block takes nothing from any account, changes nothing else of it, and leaves no rows of
      round 1. */
  lemma GenesisRow(b: Block, a: Address)
    requires ApplyGenesis(b).ok
    ensures var g, r := GenesisAll(b.transactions).node.books.accts.conf, ApplyGenesis(b).node.books.accts.conf;
            Row(r, a) == Row(g, a).(balance := Row(r, a).balance) && Row(r, a).balance >= Row(g, a).balance
    ensures forall d: PublicKey :: PendingAt(ApplyGenesis(b).node.books.pending, 1, d) == 0
  {
    hide GenesisAll, PayAll, PayAccts, ForwardPayouts, RewardRows, Add, Row, UpdateVotes;
    var g := GenesisAll(b.transactions).node.(blocks := [b]);
    var s := SumRound([b]);
    var ps := ForwardPayouts(s.delegates, s.rewards, s.fees);
    var paid := CountBlock(g, 1).books;
    PayAllAccts(paid, 1, ps);
    NothingToShare(b);
    PayAcctsRow(paid.accts, ps, a);
  }

  lemma FlushedRow(b: Block)
    requires ApplyGenesis(b).ok && Genesis(ApplyGenesis(b).node)
    requires forall d: PublicKey :: PendingAt(ApplyGenesis(b).node.books.pending, 1, d) == 0
    ensures forall r: int, d: PublicKey :: PendingAt(ApplyGenesis(b).node.books.pending, r, d) == 0
  {
    hide ApplyGenesis, RowSane, Tallied, Row, PendingAt;
    var n := ApplyGenesis(b).node;
    forall r: int, d: PublicKey ensures PendingAt(n.books.pending, r, d) == 0 {
      assert PendingSane(n.books, NextRound(n), r, d);
    }
  }

  lemma WitnessStarts()
    requires ApplyGenesis(WitnessBlock()).ok
    ensures StartsAtZero(ApplyGenesis(WitnessBlock()).node)
  {
    hide GenesisAll, Tick;
  }

  /** From a real genesis block, over blocks every one of which the node accepts, a run whose block counters
      are not those of its own chain; with any reward settings. */
  lemma RunIsNotReplay(genesisKey: PublicKey, c: Rewards)
    requires c.Valid()
    ensures var n0 := ApplyGenesis(WitnessBlock()).node;
            && Genesis(n0) && |n0.blocks| == 1
            && forall k: nat, e: Circumstances ::
                 k < 200 && e.rewards == c && e.block && e.currentSlot >= ACTIVE_DELEGATES * (k + 2) ==>
                   var n := Run(n0, genesisKey, Extends(c, WITNESS, k)).node;
                   |n.blocks| > 0 && BlockPasses(n, EmptyBlock(c, WITNESS, k + 2), e)
    ensures var n0, es := ApplyGenesis(WitnessBlock()).node, Extends(c, WITNESS, 200) + Deletes(101);
            |n0.blocks| == 1 &&
            var n := Run(n0, genesisKey, es).node;
            && n.blocks == n0.blocks + EmptyBlocks(c, WITNESS, 99)
            && n.books.accts.produced != Replay(n0, EmptyBlocks(c, WITNESS, 99)).books.accts.produced
  {
    hide *;
    WitnessVoter();
    WitnessStarts();
    var n0, es := ApplyGenesis(WitnessBlock()).node, Extends(c, WITNESS, 200) + Deletes(100);
    StalePopLeavesWrongBooks(n0, genesisKey, c, WITNESS);
    forall k: nat, e: Circumstances |
      k < 200 && e.rewards == c && e.block && e.currentSlot >= ACTIVE_DELEGATES * (k + 2)
      ensures var n := Run(n0, genesisKey, Extends(c, WITNESS, k)).node;
              |n.blocks| > 0 && BlockPasses(n, EmptyBlock(c, WITNESS, k + 2), e)
    {
      ClimbAccepted(n0, genesisKey, c, WITNESS, k, e);
    }
    OneMoreDelete(c, WITNESS, 200, 100);
    StepIsPop(Run(n0, genesisKey, es), genesisKey);
    RunPush(n0, genesisKey, es, Pop);
  }

  lemma OneMoreDelete(c: Rewards, d: PublicKey, k: nat, j: nat)
    requires c.Valid()
    ensures Extends(c, d, k) + Deletes(j + 1) == Extends(c, d, k) + Deletes(j) + [Pop]
  {
    hide c.CalcReward;
  }

  lemma StepIsPop(t: Trace, genesisKey: PublicKey)
    requires |t.node.blocks| > 0
    ensures Step(t, genesisKey, Pop).node == PopBlock(t.node).node
  {
    hide PopBlock;
  }

  // ---------- a sibling on the same chain ----------

  /** Anywhere on the climb where the next height starts another reward, whatever the pool holds: the node gives its
      head up for a block it then refuses. */
  lemma ClimbLosesHead(s: Chained, n0: Node, c: Rewards, d: PublicKey, k: nat, e: Circumstances)
    requires c.Valid() && Genesis(n0) && SelfVoter(n0, d) && Sole(n0, d) && 0 < k <= 200 && k != 100
    requires s.node == Run(n0, e.settings.genesisKey, Extends(c, d, k)).node && "a" !in s.lastIds
    requires c.CalcReward(k + 1) != c.CalcReward(k + 2)
    requires e.rewards == c && e.receipt && e.currentSlot == ACTIVE_DELEGATES * (k + 1)
    ensures |n0.blocks| == 1 && s.node.blocks == n0.blocks + EmptyBlocks(c, d, k)
    ensures var b := EarlyReward(EmptyBlock(c, d, k + 1), "a", c.CalcReward(k + 2));
            Receiving(s, b, k + 1, e).0.node.blocks == n0.blocks + EmptyBlocks(c, d, k - 1)
  {
    hide *;
    GenesisBlock(n0);
    Climb(n0, e.settings.genesisKey, c, d, k);
    ClimbedIs(Run(n0, e.settings.genesisKey, Extends(c, d, k)), n0, c, d, k);
    ClimbTop(n0, c, d, k);
    PopGoesThroughIff(s.node);
    ClimbSole(n0, e.settings.genesisKey, c, d, k);
    TopOwns(s.node, c, d, k, e.hash);
    TopIs(c, d, k + 1);
    SiblingAtMilestoneCostsHead(s, "a", e);
  }

  lemma ClimbTop(n0: Node, c: Rewards, d: PublicKey, k: nat)
    requires c.Valid() && |n0.blocks| == 1 && k > 0
    ensures var chain := n0.blocks + EmptyBlocks(c, d, k);
            && |chain| == k + 1 && Head(chain) == EmptyBlock(c, d, k + 1)
            && DropHead(chain) == n0.blocks + EmptyBlocks(c, d, k - 1)
  {
    hide c.CalcReward, EmptyBlock;
    BlocksNext(c, d, k - 1);
    assert |EmptyBlocks(c, d, k - 1)| == k - 1;
  }

  lemma TopIs(c: Rewards, d: PublicKey, h: nat)
    requires c.Valid() && h > 0
    ensures var b := EmptyBlock(c, d, h);
            && Less("a", b.id) && (h > 1 ==> b.previousBlock != "") && b.totalFee == SumFees(b.transactions)
            && SlotNumber(b.timestamp) == ACTIVE_DELEGATES * h
  {
    hide c.CalcReward;
    assert IdOf(h)[0] == 'b' && h > 1 ==> |IdOf(h - 1)| == h - 1;
  }

  lemma TopOwns(n: Node, c: Rewards, d: PublicKey, k: nat, hash: Digest -> Digest)
    requires c.Valid() && 0 < k <= 200 && k != 100 && |n.blocks| == k + 1 && Sole(n, d)
    ensures ForkForgerOk(n, EmptyBlock(c, d, k + 1), k + 1, hash) && (k + 1) % ACTIVE_DELEGATES != 0
  {
    hide c.CalcReward, Sole, OwnsSlot;
    EmptySlot(c, d, k + 1);
    SoleOwns(n, EmptyBlock(c, d, k + 1), k + 1, hash, d);
  }
}
