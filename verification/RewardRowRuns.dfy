/** The recorded round rewards over runs, and which pops give them back. */
module RewardRowRuns {
  import opened Base
  import opened Accounts
  import opened Tally
  import opened Payouts
  import opened Ledger
  import opened Rollback
  import opened Invariants
  import opened PopBlocks
  import opened Landing
  import opened History
  import opened GenesisBlocks
  import opened BlockRewards
  import opened StalePops
  import opened ChainSteps

  predicate HasRound(rows: seq<RewardRow>, round: int) { exists i :: 0 <= i < |rows| && rows[i].round == round }

  lemma {:induction false} SelectsAllIff(rows: seq<RewardRow>, round: int)
    ensures SelectOtherRounds(rows, round) == rows <==> !HasRound(rows, round)
    ensures |SelectOtherRounds(rows, round)| <= |rows|
    ensures forall i :: 0 <= i < |SelectOtherRounds(rows, round)| ==>
              SelectOtherRounds(rows, round)[i] in rows && SelectOtherRounds(rows, round)[i].round != round
  {
    if rows != [] {
      var pre, last := rows[..|rows| - 1], rows[|rows| - 1];
      assert rows == pre + [last];
      SelectsAllIff(pre, round);
      if last.round == round {
        assert HasRound(rows, round);
      } else {
        if HasRound(pre, round) {
          var i :| 0 <= i < |pre| && pre[i].round == round;
          assert rows[i].round == round;
        }
        if HasRound(rows, round) {
          var i :| 0 <= i < |rows| && rows[i].round == round;
          assert pre[i].round == round;
        }
      }
    }
  }

  /** Every row is of a finished round, or is one of round 1, where the genesis block leaves one early. */
  predicate RowsBehind(n: Node) {
    forall i :: 0 <= i < |n.rewardRows| ==>
      n.rewardRows[i].round * ACTIVE_DELEGATES <= |n.blocks| || n.rewardRows[i].round == 1
  }

  lemma ExtendBehind(t: Trace, genesisKey: PublicKey, b: Block)
    requires |t.node.blocks| > 0 && RowsBehind(t.node)
    ensures RowsBehind(Step(t, genesisKey, Extend(b)).node)
  {
    hide BlockVerified, ApplyBlock;
    var n := t.node;
    if BlockVerified(n, genesisKey, b) {
      if ApplyBlock(n, b).ok {
        var own := AppliedRewardRows(n, b);
      } else {
        FailedApply(n, b);
      }
    }
  }

  lemma AppliedRewardRows(n: Node, b: Block) returns (own: seq<RewardRow>)
    requires |n.blocks| > 0 && ApplyBlock(n, b).ok
    ensures Applied(n, b).rewardRows == n.rewardRows + own && |Applied(n, b).blocks| == |n.blocks| + 1
    ensures forall i :: 0 <= i < |own| ==> own[i].round * ACTIVE_DELEGATES == |n.blocks| + 1
  {
    if (|n.blocks| + 1) % ACTIVE_DELEGATES == 0 {
      assert CalcRound(|n.blocks| + 1) * ACTIVE_DELEGATES == |n.blocks| + 1;
      hide *;
      AppliedAtEnd(n, b);
      var s := SumRound(n.blocks + [b]);
      own := RewardRows(b.timestamp, CalcRound(|n.blocks| + 1), s.delegates, s.rewards, s.fees);
      OwnRound(b.timestamp, CalcRound(|n.blocks| + 1), s);
    } else {
      hide *;
      AppliedInside(n, b);
      own := [];
    }
  }

  lemma OwnRound(timestamp: int, round: int, s: RoundSum)
    requires |s.rewards| == |s.delegates|
    ensures var rows := RewardRows(timestamp, round, s.delegates, s.rewards, s.fees);
            forall i :: 0 <= i < |rows| ==> rows[i].round == round
  {
  }

  lemma PopBehind(t: Trace, genesisKey: PublicKey)
    requires |t.node.blocks| > 0 && RowsBehind(t.node)
    ensures RowsBehind(Step(t, genesisKey, Pop).node)
  {
    hide PopBlock, UndoAll, SumRound, PayAll, Add, BackwardPayouts, Restored, WithProduced;
    var n := t.node;
    if !PopBlock(n).ok {
      PopFails(n);
    } else if |n.blocks| == 1 {
      PopGenesis(n);
    } else {
      var round, txs := CalcRound(|n.blocks|), n.blocks[|n.blocks| - 1].transactions;
      PopRewardRows(n);
      PopKeepsSnapshot(n);
      if |n.blocks| % ACTIVE_DELEGATES == 0 {
        SelectsAllIff(n.rewardRows, round);
        forall i | 0 <= i < |PopBlock(n).node.rewardRows|
          ensures var r := PopBlock(n).node.rewardRows[i].round; r * ACTIVE_DELEGATES <= |n.blocks| - 1 || r == 1
        {
          assert PopBlock(n).node.rewardRows[i] in n.rewardRows;
        }
      }
    }
  }

  lemma PopRewardRows(n: Node)
    requires |n.blocks| > 1 && PopBlock(n).ok
    ensures PopBlock(n).node.rewardRows ==
            if |n.blocks| % ACTIVE_DELEGATES == 0 then SelectOtherRounds(n.rewardRows, CalcRound(|n.blocks|))
            else n.rewardRows
  {
    hide PopBlock, UndoAll, SumRound, PayAll, Add, BackwardPayouts, Restored;
    var round, txs := CalcRound(|n.blocks|), n.blocks[|n.blocks| - 1].transactions;
    if |n.blocks| % ACTIVE_DELEGATES == 0 { PopMatches(n, round, txs); } else { PopMatchesInside(n, round, txs); }
  }

  lemma {:induction false} RunBehind(n0: Node, genesisKey: PublicKey, es: seq<Event>)
    requires |n0.blocks| > 0 && RowsBehind(n0)
    ensures RowsBehind(Run(n0, genesisKey, es).node)
  {
    hide Step, RowsBehind;
    if es != [] {
      var t := Run(n0, genesisKey, es[..|es| - 1]);
      RunBehind(n0, genesisKey, es[..|es| - 1]);
      match es[|es| - 1]
      case Extend(b) => ExtendBehind(t, genesisKey, b);
      case Pop => PopBehind(t, genesisKey);
    }
  }

  /** The genesis block leaves one row, of round 1, with nothing in it. */
  lemma GenesisRewardRow(b: Block)
    requires ApplyGenesis(b).ok
    ensures ApplyGenesis(b).node.rewardRows == [RewardRow(b.timestamp, 0, 0, 1, b.generator)]
    ensures RowsBehind(ApplyGenesis(b).node)
  {
    hide GenesisAll, PayAll, Add, UpdateVotes, Flush, ForwardPayouts;
    GenesisAllRows(b.transactions);
  }

  lemma {:induction false} GenesisAllRows(txs: seq<Transaction>)
    ensures GenesisAll(txs).node.rewardRows == []
  {
    hide UEffect, CEffect, UAllowed, CAllowed, CPending, TxRounds, ResetVote;
    if txs != [] { GenesisAllRows(txs[..|txs| - 1]); }
  }

  /** Popping the last block of a round right after it was applied gives the recorded rewards back if and only
      if none of that round were there before; so in every run it does, except at the end of round 1 while the
      row of the genesis block is still there. */
  lemma RewardRowsBackIff(n: Node, genesisKey: PublicKey, b: Block)
    requires |n.blocks| > 0 && BlockVerified(n, genesisKey, b) && ApplyBlock(n, b).ok
    requires Settled(n.books, NextRound(n)) && (|n.blocks| + 1) % ACTIVE_DELEGATES == 0
    requires SnapshotOf(n.snapshot, n) && SnapshotAvailable(n.snapshot, CalcRound(|n.blocks| + 1))
    ensures PopBlock(Applied(n, b)).node.rewardRows == n.rewardRows <==> !HasRound(n.rewardRows, NextRound(n))
    ensures RowsBehind(n) && NextRound(n) > 1 ==> !HasRound(n.rewardRows, NextRound(n))
  {
    hide Settled, BlockVerified, ApplyBlock, SnapshotOf, SnapshotAvailable, PopBlock;
    PopAtRoundEnd(n, genesisKey, b);
    SelectsAllIff(n.rewardRows, NextRound(n));
    assert NextRound(n) * ACTIVE_DELEGATES == |n.blocks| + 1;
  }

  // ---------- the row of the genesis block ----------

  lemma {:induction false} ClimbRows(n0: Node, genesisKey: PublicKey, c: Rewards, d: PublicKey, k: nat)
    requires c.Valid() && Genesis(n0) && SelfVoter(n0, d) && k <= 99
    ensures |n0.blocks| > 0 && Run(n0, genesisKey, Extends(c, d, k)).node.rewardRows == n0.rewardRows
  {
    hide SelfVoter, Step, Genesis, EmptyBlock, c.CalcReward, Climbed;
    GenesisBlock(n0);
    if k > 0 {
      ClimbRows(n0, genesisKey, c, d, k - 1);
      assert Extends(c, d, k)[..k - 1] == Extends(c, d, k - 1);
      var t := Run(n0, genesisKey, Extends(c, d, k - 1));
      Climb(n0, genesisKey, c, d, k - 1);
      ClimbedIs(t, n0, c, d, k - 1);
      EmptyStep(t, genesisKey, c, d, k + 1);
      EmptyApplies(t.node, genesisKey, c, d, k + 1);
      HundredOne(k - 1);
      hide Applied;
      AppliedInside(t.node, EmptyBlock(c, d, k + 1));
    }
  }

  /** At height 100 of the climb, one block before the end of round 1. */
  lemma BeforeFirstEnd(n0: Node, genesisKey: PublicKey, c: Rewards, d: PublicKey)
    requires c.Valid() && Genesis(n0) && SelfVoter(n0, d)
    ensures |n0.blocks| == 1
    ensures var n := Run(n0, genesisKey, Extends(c, d, 99)).node;
            && |n.blocks| == 100 && n.rewardRows == n0.rewardRows && SelfVoter(n, d)
            && Settled(n.books, CalcRound(100 + 1))
            && SnapshotOf(n.snapshot, n) && SnapshotAvailable(n.snapshot, 1)
  {
    hide *;
    GenesisBlock(n0);
    ClimbRows(n0, genesisKey, c, d, 99);
    var t := Run(n0, genesisKey, Extends(c, d, 98));
    Climb(n0, genesisKey, c, d, 98);
    ClimbedIs(t, n0, c, d, 98);
    EmptyStep(t, genesisKey, c, d, 100);
    HundredOne(98);
    EmptyInside(t.node, c, d, 100);
    ExtendsNext(c, d, 98);
    RunPush(n0, genesisKey, Extends(c, d, 98), Extend(EmptyBlock(c, d, 100)));
    Climb(n0, genesisKey, c, d, 99);
    RunIsReplay(n0, genesisKey, Extends(c, d, 99));
    AnyRoundFits(Run(n0, genesisKey, Extends(c, d, 99)).node);
    NextIs(Run(n0, genesisKey, Extends(c, d, 99)).node);
  }

  lemma NextIs(n: Node)
    ensures NextRound(n) == CalcRound(|n.blocks| + 1)
  {
  }

  lemma AnyRoundFits(n: Node)
    ensures SnapshotOf(n.snapshot, n) ==> n.snapshot.Some?
    ensures n.snapshot.Some? && n.snapshot.value.rounds == {} ==> SnapshotAvailable(n.snapshot, 1)
  {
  }

  lemma ExtendsNext(c: Rewards, d: PublicKey, k: nat)
    requires c.Valid()
    ensures Extends(c, d, k + 1) == Extends(c, d, k) + [Extend(EmptyBlock(c, d, k + 2))]
  {
    hide c.CalcReward, EmptyBlock;
  }

  /** From a real genesis block, 100 blocks that bring the chain to the end of round 1, and the last one popped: the
      reward row of the genesis block, there before that block, is gone. */
  lemma FirstRoundLosesRow(genesisKey: PublicKey, c: Rewards)
    requires c.Valid()
    ensures var n0 := ApplyGenesis(WitnessBlock()).node;
            && Genesis(n0) && |n0.blocks| == 1 && |n0.rewardRows| == 1
            && var n := Run(n0, genesisKey, Extends(c, WITNESS, 99)).node;
               var b := EmptyBlock(c, WITNESS, 101);
               && |n.blocks| == 100 && n.rewardRows == n0.rewardRows
               && (forall k: nat, e: Circumstances |
                     k < 100 && e.rewards == c && e.block && e.currentSlot >= ACTIVE_DELEGATES * (k + 2) ::
                     var m := Run(n0, genesisKey, Extends(c, WITNESS, k)).node;
                     |m.blocks| > 0 && BlockPasses(m, EmptyBlock(c, WITNESS, k + 2), e))
               && BlockVerified(n, genesisKey, b) && ApplyBlock(n, b).ok
               && PopBlock(Applied(n, b)).ok && PopBlock(Applied(n, b)).node.blocks == n.blocks
               && PopBlock(Applied(n, b)).node.rewardRows == []
  {
    hide *;
    var n0, b := ApplyGenesis(WitnessBlock()).node, EmptyBlock(c, WITNESS, 101);
    WitnessVoter();
    GenesisRewardRow(WitnessBlock());
    BeforeFirstEnd(n0, genesisKey, c, WITNESS);
    var n := Run(n0, genesisKey, Extends(c, WITNESS, 99)).node;
    EmptyApplies(n, genesisKey, c, WITNESS, 101);
    FirstEnd();
    PopAtRoundEnd(n, genesisKey, b);
    RowGoes(n0.rewardRows[0]);
    WitnessStarts();
    forall k: nat, e: Circumstances |
      k < 100 && e.rewards == c && e.block && e.currentSlot >= ACTIVE_DELEGATES * (k + 2)
      ensures var m := Run(n0, genesisKey, Extends(c, WITNESS, k)).node;
              |m.blocks| > 0 && BlockPasses(m, EmptyBlock(c, WITNESS, k + 2), e)
    {
      ClimbAccepted(n0, genesisKey, c, WITNESS, k, e);
    }
  }

  lemma FirstEnd()
    ensures CalcRound(100 + 1) == 1 && (100 + 1) % ACTIVE_DELEGATES == 0
  {
  }

  lemma RowGoes(row: RewardRow)
    ensures row.round == 1 ==> SelectOtherRounds([row], 1) == []
  {
    assert [row][..0] == [];
    assert SelectOtherRounds([row][..0], 1) == [];
  }
}
