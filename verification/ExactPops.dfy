/**
  Exactly which pops of a run give the books back.  A pop at the end of a round that is handed the empty
  snapshot of a later round always leaves wrong block counters; every other pop is exact.
 */
module ExactPops {
  import opened Base
  import opened Diff
  import opened Accounts
  import opened Tally
  import opened Payouts
  import opened Ledger
  import opened Rollback
  import opened Invariants
  import opened BlockRules
  import opened PopBlocks
  import opened Landing
  import opened History

  /** A pop goes through exactly when it does not end a round, or the snapshot is accepted. */
  lemma PopGoesThroughIff(n: Node)
    requires |n.blocks| > 1
    ensures PopBlock(n).ok <==>
            |n.blocks| % ACTIVE_DELEGATES != 0 || SnapshotAvailable(n.snapshot, CalcRound(|n.blocks|))
    ensures PopBlock(n).ok <==>
            (|n.blocks| % 101 == 0 ==>
               n.snapshot.Some? && (n.snapshot.value.rounds == {} || |n.blocks| / 101 in n.snapshot.value.rounds))
  {
    hide PopBlock;
    RoundEnded(|n.blocks|);
    var round, txs := CalcRound(|n.blocks|), n.blocks[|n.blocks| - 1].transactions;
    if |n.blocks| % ACTIVE_DELEGATES == 0 { PopMatches(n, round, txs); } else { PopMatchesInside(n, round, txs); }
  }

  lemma RoundEnded(height: nat)
    ensures height % 101 == 0 ==> CalcRound(height) == height / 101
  {
  }

  /** The snapshot's rows are of the round it was taken in, or later ones. */
  ghost predicate RoundsAhead(t: Trace) {
    t.saved.Some? ==>
      && t.node.snapshot.Some? && (|t.saved.value| + 2) % ACTIVE_DELEGATES == 0
      && forall r :: r in t.node.snapshot.value.rounds ==> r >= CalcRound(|t.saved.value| + 2)
  }

  /** There is one snapshot, of the last round reached.  Deletions that come down to the end of the round
      before it stop there, unless the snapshot is empty. */
  lemma SecondRoundEndStops(t: Trace)
    requires RoundsAhead(t) && AtRoundEnd(t.node)
    requires t.saved.Some? && |t.saved.value| + 1 > |t.node.blocks|
    ensures PopBlock(t.node).ok <==> t.node.snapshot.value.rounds == {}
  {
    hide PopBlock;
    PopGoesThroughIff(t.node);
    LaterRound(|t.saved.value|, |t.node.blocks| - 1);
  }

  lemma TraceAhead(t: Trace, n0: Node, genesisKey: PublicKey)
    requires TraceInv(t, n0, genesisKey)
    ensures RoundsAhead(t)
  {
    hide Genesis, Replay, Replayable, SnapshotOf, RowsAhead;
  }

  // ---------- how far below the snapshot a run can be ----------

  /** The chain is at most 100 blocks below the one the snapshot was taken of, and those below are still the
      same. */
  ghost predicate SavedNear(t: Trace) {
    t.saved.Some? && |t.node.blocks| > 0 ==>
      var c, sc := Chain(t.node), t.saved.value;
      && |c| + 100 >= |sc|
      && (|sc| >= 100 ==> c[..|sc| - 100] == sc[..|sc| - 100])
  }

  lemma ExtendNear(t: Trace, genesisKey: PublicKey, b: Block)
    requires |t.node.blocks| > 0 && SavedNear(t)
    ensures |Step(t, genesisKey, Extend(b)).node.blocks| > 0 && SavedNear(Step(t, genesisKey, Extend(b)))
  {
    hide BlockVerified, ApplyBlock;
    if BlockVerified(t.node, genesisKey, b) {
      var t' := Step(t, genesisKey, Extend(b));
      if ApplyBlock(t.node, b).ok {
        AppliedBlocks(t.node, b);
        assert Chain(t'.node) == Chain(t.node) + [b];
        if t'.saved == t.saved && t.saved.Some? && |t.saved.value| >= 100 {
          var k := |t.saved.value| - 100;
          assert Chain(t'.node)[..k] == Chain(t.node)[..k];
        }
      } else {
        FailedApply(t.node, b);
      }
    }
  }

  lemma PopNear(t: Trace, n0: Node, genesisKey: PublicKey)
    requires TraceInv(t, n0, genesisKey) && SavedNear(t)
    requires AtRoundEnd(t.node) ==> !StaleEmpty(t)
    ensures |Step(t, genesisKey, Pop).node.blocks| > 0 && SavedNear(Step(t, genesisKey, Pop))
  {
    hide PopBlock, Genesis, Replay, Replayable, SnapshotOf, RowsAhead;
    if PopBlock(t.node).ok {
      if |t.node.blocks| == 1 {
        PopGenesis(t.node);
        assert false;
      }
      PopKeepsSnapshot(t.node);
      var t' := Step(t, genesisKey, Pop);
      var c := Chain(t.node);
      assert Chain(t'.node) == c[..|c| - 1];
      if t.saved.Some? {
        var sc := t.saved.value;
        if |c| + 100 == |sc| {
          Below(|sc|, |c|);
          TraceAhead(t, n0, genesisKey);
          SecondRoundEndStops(t);
          assert false;
        }
        if |sc| >= 100 { assert Chain(t'.node)[..|sc| - 100] == c[..|sc| - 100]; }
      }
    } else {
      PopFails(t.node);
    }
  }

  lemma Below(s: nat, c: nat)
    requires (s + 2) % ACTIVE_DELEGATES == 0 && c + 100 == s
    ensures (c + 1) % ACTIVE_DELEGATES == 0 && c > 0
  {
  }

  lemma {:induction false} RunNear(n0: Node, genesisKey: PublicKey, es: seq<Event>)
    requires Genesis(n0) && NoStalePop(n0, genesisKey, es)
    ensures |n0.blocks| > 0 && SavedNear(Run(n0, genesisKey, es))
    ensures TraceInv(Run(n0, genesisKey, es), n0, genesisKey)
  {
    hide Genesis, TraceInv, Step, SavedNear, AtRoundEnd, StaleEmpty;
    GenesisBlock(n0);
    RunKeeps(n0, genesisKey, es);
    if es == [] {
      NothingSaved(n0);
    } else {
      var pre, e := es[..|es| - 1], es[|es| - 1];
      assert pre + [e] == es;
      NoStalePrefix(n0, genesisKey, pre, e);
      RunNear(n0, genesisKey, pre);
      var t := Run(n0, genesisKey, pre);
      match e
      case Extend(b) => ExtendNear(t, genesisKey, b);
      case Pop => PopNear(t, n0, genesisKey);
    }
  }

  lemma NothingSaved(n: Node)
    ensures SavedNear(Trace(n, None))
  {
  }

  // ---------- block counters ----------

  function CountBy(bs: seq<Block>, a: Address): nat {
    if bs == [] then 0
    else CountBy(bs[..|bs| - 1], a) + if OfKey(bs[|bs| - 1].generator) == a then 1 else 0
  }

  lemma {:induction false} CountGrows(bs: seq<Block>, k: nat, a: Address)
    requires k <= |bs|
    ensures CountBy(bs[..k], a) <= CountBy(bs, a)
    decreases |bs|
  {
    if k == |bs| {
      assert bs[..k] == bs;
    } else {
      assert bs[..|bs| - 1][..k] == bs[..k];
      CountGrows(bs[..|bs| - 1], k, a);
    }
  }

  /** Applying a block counts one for its generator and takes nobody's registration away. */
  lemma AppliedCounts(n: Node, b: Block, a: Address)
    requires |n.blocks| > 0 && ApplyBlock(n, b).ok
    ensures Get(Applied(n, b).books.accts.produced, a) ==
            Get(n.books.accts.produced, a) + if OfKey(b.generator) == a then 1 else 0
    ensures Row(n.books.accts.conf, a).isDelegate ==> Row(Applied(n, b).books.accts.conf, a).isDelegate
  {
    hide BooksFold, ApplyBlock, PaidBooks, PayAccts, SumRound, ForwardPayouts, RewardRows, Registers, Row, Add, Get,
         SnapshotOf, UpdateVotes, Flush;
    var round := NextRound(n);
    var c := BooksFold(n.books, round, b.transactions);
    BooksFoldAccts(n.books, round, b.transactions);
    PairFoldProduced(n.books.accts, b.transactions);
    VotesOfFold(n.books, round, b.transactions, a);
    AddAt(n.books.accts.produced, OfKey(b.generator), a);
    if (|n.blocks| + 1) % ACTIVE_DELEGATES == 0 {
      AppliedAtEnd(n, b);
      PaidAccts(n, b);
      var s := SumRound(n.blocks + [b]);
      PayAcctsRow(c.accts.(produced := Add(c.accts.produced, OfKey(b.generator), 1)),
                  ForwardPayouts(s.delegates, s.rewards, s.fees), a);
    } else {
      AppliedInside(n, b);
    }
  }

  lemma AddAt(m: Column, g: Address, a: Address)
    ensures Get(Add(m, g, 1), a) == Get(m, a) + if g == a then 1 else 0
  {
  }

  lemma {:induction false} ReplayCounts(n0: Node, genesisKey: PublicKey, bs: seq<Block>, a: Address)
    requires Genesis(n0) && Replayable(n0, genesisKey, bs)
    ensures |n0.blocks| == 1
    ensures Get(Replay(n0, bs).books.accts.produced, a) == Get(n0.books.accts.produced, a) + CountBy(bs, a)
  {
    hide Genesis, BlockVerified, ApplyBlock, Settled, Tallied, Row;
    GenesisBlock(n0);
    if bs != [] {
      var pre, b := bs[..|bs| - 1], bs[|bs| - 1];
      ReplayCounts(n0, genesisKey, pre, a);
      PreviousFacts(n0, genesisKey, bs);
      AppliedCounts(Replay(n0, pre), b, a);
    }
  }

  /** Whoever forged a block of a chain is registered at its end. */
  lemma {:induction false} ForgerRegistered(n0: Node, genesisKey: PublicKey, bs: seq<Block>, i: nat)
    requires Genesis(n0) && Replayable(n0, genesisKey, bs) && i < |bs|
    ensures |n0.blocks| == 1 && Row(Replay(n0, bs).books.accts.conf, OfKey(bs[i].generator)).isDelegate
  {
    hide Genesis, ApplyBlock, Settled, Tallied, Verified, SumFees;
    GenesisBlock(n0);
    var pre, b := bs[..|bs| - 1], bs[|bs| - 1];
    PreviousFacts(n0, genesisKey, bs);
    if i < |bs| - 1 {
      ForgerRegistered(n0, genesisKey, pre, i);
      assert pre[i] == bs[i];
    }
    AppliedCounts(Replay(n0, pre), b, OfKey(bs[i].generator));
  }

  lemma {:induction false} ReplayablePrefix(n0: Node, genesisKey: PublicKey, bs: seq<Block>, k: nat)
    requires |n0.blocks| == 1 && Replayable(n0, genesisKey, bs) && k <= |bs|
    ensures Replayable(n0, genesisKey, bs[..k])
    decreases |bs|
  {
    hide BlockVerified, ApplyBlock, Replay;
    if k == |bs| {
      assert bs[..k] == bs;
    } else {
      assert bs[..|bs| - 1][..k] == bs[..k];
      ReplayablePrefix(n0, genesisKey, bs[..|bs| - 1], k);
    }
  }

  // ---------- the pop that is not exact ----------

  lemma StaleChain(t: Trace, n0: Node, genesisKey: PublicKey)
    requires TraceInv(t, n0, genesisKey) && SavedNear(t) && AtRoundEnd(t.node) && StaleEmpty(t)
    ensures var c, sc := Chain(t.node), t.saved.value; |c| > 0 && |sc| == |c| + 100 && sc[..|c|] == c
  {
    hide Genesis, Replay, Replayable, SnapshotOf, RowsAhead;
    Apart(|t.saved.value|, |Chain(t.node)|);
    var c, sc := Chain(t.node), t.saved.value;
    assert c[..|c|] == c;
  }

  lemma Apart(s: nat, c: nat)
    requires (s + 2) % ACTIVE_DELEGATES == 0 && (c + 1) % ACTIVE_DELEGATES == 0 && c < s <= c + 100
    ensures s == c + 100
  {
  }

  /** Such a pop goes through, and counts for the forger of the popped block every block it forged up to
      the snapshot, instead of those left in the chain. */
  lemma StaleCounters(t: Trace, n0: Node, genesisKey: PublicKey)
    requires TraceInv(t, n0, genesisKey) && SavedNear(t) && AtRoundEnd(t.node) && StaleEmpty(t)
    ensures |n0.blocks| == 1 && PopBlock(t.node).ok
    ensures var c := Chain(t.node);
            var g := OfKey(c[|c| - 1].generator);
            && Get(PopBlock(t.node).node.books.accts.produced, g) ==
               Get(n0.books.accts.produced, g) + CountBy(t.saved.value, g)
            && Get(PopBlock(t.node).node.books.accts.produced, g) >
               Get(Replay(n0, c[..|c| - 1]).books.accts.produced, g)
  {
    hide Settled, Tallied, BlockVerified, ApplyBlock, PopBlock, RowsAhead, Genesis, SumRound, PayAll, UndoAll,
         BackwardPayouts, Row, Replay, Replayable, CountBy;
    StaleChain(t, n0, genesisKey);
    var c, sc := Chain(t.node), t.saved.value;
    var b := c[|c| - 1];
    var g := OfKey(b.generator);
    assert t.node.blocks[|t.node.blocks| - 1] == b;
    PopMatches(t.node, CalcRound(|t.node.blocks|), b.transactions);
    ReplayCounts(n0, genesisKey, sc, g);
    assert sc[|c| - 1] == b by { assert sc[..|c|][|c| - 1] == c[|c| - 1]; }
    ForgerRegistered(n0, genesisKey, sc, |c| - 1);
    ReplayablePrefix(n0, genesisKey, c, |c| - 1);
    ReplayCounts(n0, genesisKey, c[..|c| - 1], g);
    CountGrows(sc, |c|, g);
    LastCounts(c);
  }

  lemma LastCounts(c: seq<Block>)
    requires c != []
    ensures CountBy(c, OfKey(c[|c| - 1].generator)) == CountBy(c[..|c| - 1], OfKey(c[|c| - 1].generator)) + 1
  {
  }

  /** A pop of a run whose earlier pops were exact gives the books of the chain without its last block if and
      only if it is not at the end of a round with an empty snapshot from above the head. */
  lemma PopExactIff(n0: Node, genesisKey: PublicKey, es: seq<Event>)
    requires Genesis(n0) && NoStalePop(n0, genesisKey, es)
    requires |Run(n0, genesisKey, es).node.blocks| > 1 && PopBlock(Run(n0, genesisKey, es).node).ok
    ensures |n0.blocks| == 1
    ensures var t := Run(n0, genesisKey, es);
            var c := Chain(t.node);
            PopBlock(t.node).node.books == Replay(n0, c[..|c| - 1]).books <==> !(AtRoundEnd(t.node) && StaleEmpty(t))
  {
    hide Genesis, Run, Replay, Replayable, PopBlock, TraceInv, SavedNear, AtRoundEnd, StaleEmpty, NoStalePop;
    GenesisBlock(n0);
    RunNear(n0, genesisKey, es);
    var t := Run(n0, genesisKey, es);
    if AtRoundEnd(t.node) && StaleEmpty(t) {
      StaleCounters(t, n0, genesisKey);
    } else {
      PopIsReplay(t, n0, genesisKey);
    }
  }
}
