/**
  How a wrong vote tally is carried on.  The rows a block writes depend on the accounts alone, and those are always
  the replayed ones, so blocks and pops move a wrong tally exactly as they move the right one: the error of a
  delegate only changes where a snapshot is written back, where the delegate registers, and where a landing meets
  rows of the round after it.
 */
module TallyErrors {
  import opened Base
  import opened Diff
  import opened Accounts
  import opened Tally
  import opened Payouts
  import opened Voting
  import opened Ledger
  import opened Rollback
  import opened Invariants
  import opened BlockRules
  import opened PopBlocks
  import opened Landing
  import opened History
  import opened RunAccounts
  import opened ExactPops
  import StaleTallies

  /** What the running tally says of a delegate. */
  ghost function Total(b: Books, round: int, d: PublicKey): int {
    Get(b.votes, OfKey(d)) + PendingAt(b.pending, round, d)
  }

  /** How far apart two nodes at the same height are on a delegate. */
  ghost function Gap(n: Node, m: Node, d: PublicKey): int {
    Total(n.books, NextRound(n), d) - Total(m.books, NextRound(m), d)
  }

  // ---------- the same accounts write the same rows ----------

  lemma {:induction false} FoldRows(b: Books, c: Books, round: int, txs: seq<Transaction>, d: PublicKey)
    requires SameAccts(c.accts, b.accts)
    ensures SameAccts(BooksFold(c, round, txs).accts, BooksFold(b, round, txs).accts)
    ensures PendingAt(BooksFold(b, round, txs).pending, round, d) - PendingAt(b.pending, round, d) ==
            PendingAt(BooksFold(c, round, txs).pending, round, d) - PendingAt(c.pending, round, d)
  {
    hide Touch, Credit, CPending, CDelta, PendingAt, ResetVote;
    if txs != [] {
      var pre, tx := txs[..|txs| - 1], txs[|txs| - 1];
      FoldRows(b, c, round, pre, d);
      var x, y := BooksFold(b, round, pre), BooksFold(c, round, pre);
      DeltaOf(x.pending, round, x.accts.conf, tx, round, d);
      DeltaOf(y.pending, round, y.accts.conf, tx, round, d);
    }
  }

  lemma {:induction false} UndoRows(b: Books, c: Books, round: int, txs: seq<Transaction>, d: PublicKey)
    requires SameAccts(c.accts, b.accts)
    ensures PendingAt(BooksUndoFold(b, round, txs).pending, round, d) - PendingAt(b.pending, round, d) ==
            PendingAt(BooksUndoFold(c, round, txs).pending, round, d) - PendingAt(c.pending, round, d)
    decreases |txs|
  {
    hide Untouch, Uncredit, UndoPending, UndoDelta, PendingAt, ResetVote;
    if txs != [] {
      var tx := txs[|txs| - 1];
      DeltaOf(b.pending, round, b.accts.conf, tx, round, d);
      DeltaOf(c.pending, round, c.accts.conf, tx, round, d);
      UndoRows(BooksUndo(b, round, tx), BooksUndo(c, round, tx), round, txs[..|txs| - 1], d);
    }
  }

  lemma {:induction false} PayRows(b: Books, c: Books, round: int, ps: seq<Payout>, d: PublicKey)
    requires SameAccts(c.accts, b.accts)
    ensures SameAccts(PayAll(c, round, ps).accts, PayAll(b, round, ps).accts)
    ensures PendingAt(PayAll(b, round, ps).pending, round, d) - PendingAt(b.pending, round, d) ==
            PendingAt(PayAll(c, round, ps).pending, round, d) - PendingAt(c.pending, round, d)
  {
    hide Bump, Add, Accrue, PendingAt, Row;
    if ps != [] {
      var p := ps[|ps| - 1];
      PayRows(b, c, round, ps[..|ps| - 1], d);
      var x, y := PayAll(b, round, ps[..|ps| - 1]), PayAll(c, round, ps[..|ps| - 1]);
      var ds := Row(x.accts.conf, OfKey(p.to)).delegates;
      AccrueAt(x.pending, round, ds, p.fee + p.reward, 0, [], round, d);
      AccrueAt(y.pending, round, ds, p.fee + p.reward, 0, [], round, d);
    }
  }

  // ---------- one block ----------

  lemma InsideTotal(n: Node, b: Block, d: PublicKey)
    requires |n.blocks| > 0 && ApplyBlock(n, b).ok && (|n.blocks| + 1) % ACTIVE_DELEGATES != 0
    ensures NextRound(Applied(n, b)) == NextRound(n)
    ensures Total(Applied(n, b).books, NextRound(n), d) ==
            (if Registers(b.transactions, OfKey(d)) then 0 else Get(n.books.votes, OfKey(d))) +
            PendingAt(BooksFold(n.books, NextRound(n), b.transactions).pending, NextRound(n), d)
  {
    hide ApplyBlock, BooksFold, Registers, PendingAt, Add;
    AppliedInside(n, b);
    VotesOfFold(n.books, NextRound(n), b.transactions, OfKey(d));
  }

  lemma LandingTotal(votes: Column, p: Pending, round: int, d: PublicKey)
    ensures Get(UpdateVotes(votes, p, round), OfKey(d)) == Get(votes, OfKey(d)) + PendingAt(p, round, d)
    ensures PendingAt(Flush(p, round), round + 1, d) == PendingAt(p, round + 1, d)
  {
  }

  lemma EndTotal(n: Node, b: Block, d: PublicKey)
    requires |n.blocks| > 0 && ApplyBlock(n, b).ok && (|n.blocks| + 1) % ACTIVE_DELEGATES == 0
    ensures NextRound(Applied(n, b)) == NextRound(n) + 1
    ensures Total(Applied(n, b).books, NextRound(n) + 1, d) ==
            (if Registers(b.transactions, OfKey(d)) then 0 else Get(n.books.votes, OfKey(d))) +
            PendingAt(PaidBooks(n, b).pending, NextRound(n), d) + PendingAt(n.books.pending, NextRound(n) + 1, d)
  {
    hide ApplyBlock, BooksFold, Registers, PaidBooks, SumRound, RewardRows, UpdateVotes, Flush, PendingAt, Get;
    var round, txs := NextRound(n), b.transactions;
    AppliedAtEnd(n, b);
    PaidAccts(n, b);
    VotesOfFold(n.books, round, txs, OfKey(d));
    LandingTotal(PaidBooks(n, b).votes, PaidBooks(n, b).pending, round, d);
    PaidNextRound(n, b, d);
  }

  lemma PaidNextRound(n: Node, b: Block, d: PublicKey)
    ensures PendingAt(PaidBooks(n, b).pending, NextRound(n) + 1, d) == PendingAt(n.books.pending, NextRound(n) + 1, d)
  {
    hide BooksFold, Add, PayAll, SumRound, ForwardPayouts, PendingAt;
    var round, txs, s := NextRound(n), b.transactions, SumRound(n.blocks + [b]);
    var c := BooksFold(n.books, round, txs);
    OtherRoundsOfFold(n.books, round, txs, round + 1, d);
    OtherRoundsOfPay(WithProduced(c, Add(c.accts.produced, OfKey(b.generator), 1)), round,
                     ForwardPayouts(s.delegates, s.rewards, s.fees), round + 1, d);
  }

  lemma PaidRows(n: Node, m: Node, b: Block, d: PublicKey)
    requires n.blocks == m.blocks && SameAccts(m.books.accts, n.books.accts)
    ensures PendingAt(PaidBooks(n, b).pending, NextRound(n), d) - PendingAt(n.books.pending, NextRound(n), d) ==
            PendingAt(PaidBooks(m, b).pending, NextRound(m), d) - PendingAt(m.books.pending, NextRound(m), d)
  {
    hide BooksFold, Add, PayAll, SumRound, ForwardPayouts, PendingAt;
    var round, txs, s := NextRound(n), b.transactions, SumRound(n.blocks + [b]);
    FoldRows(n.books, m.books, round, txs, d);
    var x, y := BooksFold(n.books, round, txs), BooksFold(m.books, round, txs);
    PayRows(WithProduced(x, Add(x.accts.produced, OfKey(b.generator), 1)),
            WithProduced(y, Add(y.accts.produced, OfKey(b.generator), 1)), round,
            ForwardPayouts(s.delegates, s.rewards, s.fees), d);
  }

  /** What a block does to the gap between two nodes with the same accounts. */
  lemma BlockGap(n: Node, m: Node, b: Block, d: PublicKey)
    requires |n.blocks| > 0 && n.blocks == m.blocks && SameAccts(m.books.accts, n.books.accts)
    requires ApplyBlock(n, b).ok && ApplyBlock(m, b).ok
    ensures var a, next := OfKey(d), NextRound(n) + 1;
            Gap(Applied(n, b), Applied(m, b), d) == Gap(n, m, d) -
              (if Registers(b.transactions, a) then Get(n.books.votes, a) - Get(m.books.votes, a) else 0) +
              (if (|n.blocks| + 1) % ACTIVE_DELEGATES == 0
               then PendingAt(n.books.pending, next, d) - PendingAt(m.books.pending, next, d) else 0)
  {
    hide ApplyBlock, BooksFold, Registers, PaidBooks, PendingAt, SameAccts, Get;
    if (|n.blocks| + 1) % ACTIVE_DELEGATES == 0 {
      EndTotal(n, b, d);
      EndTotal(m, b, d);
      PaidRows(n, m, b, d);
    } else {
      InsideTotal(n, b, d);
      InsideTotal(m, b, d);
      FoldRows(n.books, m.books, NextRound(n), b.transactions, d);
    }
  }

  // ---------- one pop ----------

  lemma PoppedInside(n: Node, d: PublicKey)
    requires |n.blocks| > 1 && |n.blocks| % ACTIVE_DELEGATES != 0
    ensures var txs, round := n.blocks[|n.blocks| - 1].transactions, NextRound(n);
            && PopBlock(n).ok && NextRound(PopBlock(n).node) == round
            && Total(PopBlock(n).node.books, round, d) ==
               (if Registers(txs, OfKey(d)) then 0 else Get(n.books.votes, OfKey(d))) +
               PendingAt(BooksUndoFold(n.books, round, txs).pending, round, d)
  {
    hide PopBlock, UndoAll, BooksUndoFold, Registers, PendingAt, Add;
    var txs, round := n.blocks[|n.blocks| - 1].transactions, NextRound(n);
    SameRoundInside(|n.blocks|);
    PopMatchesInside(n, round, txs);
    UndoAllBooks(n, round, txs);
    VotesOfUndo(n.books, round, txs, OfKey(d));
  }

  lemma SameRoundInside(h: nat)
    requires h % ACTIVE_DELEGATES != 0
    ensures CalcRound(h) == CalcRound(h + 1)
  {
  }

  /** At the end of a round the rows of the round and, where the snapshot has one, the vote are the snapshot's. */
  lemma PoppedAtEnd(n: Node, d: PublicKey)
    requires AtRoundEnd(n) && PopBlock(n).ok && n.snapshot.Some?
    ensures var txs, a, snap := n.blocks[|n.blocks| - 1].transactions, OfKey(d), n.snapshot.value;
            var p := PopBlock(n).node;
            && NextRound(p) == CalcRound(|n.blocks|)
            && Total(p.books, NextRound(p), d) == PendingAt(snap.pending, NextRound(p), d) +
               if a in snap.votes then snap.votes[a]
               else if Registers(txs, a) then 0 else Get(n.books.votes, a)
  {
    hide PopBlock, UndoAll, Registers, PayAll, Add, SumRound, BackwardPayouts;
    PopMatches(n, CalcRound(|n.blocks|), n.blocks[|n.blocks| - 1].transactions);
    VotesOfPop(n, OfKey(d));
  }

  /** What a pop inside a round does to the gap to the node it goes back to. */
  lemma PopGap(n: Node, m: Node, genesisKey: PublicKey, b: Block, d: PublicKey)
    requires |m.blocks| > 0 && BlockVerified(m, genesisKey, b) && ApplyBlock(m, b).ok
    requires Settled(m.books, NextRound(m)) && (|m.blocks| + 1) % ACTIVE_DELEGATES != 0
    requires n.blocks == m.blocks + [b] && SameAccts(Applied(m, b).books.accts, n.books.accts)
    ensures PopBlock(n).ok
    ensures Gap(PopBlock(n).node, m, d) == Gap(n, Applied(m, b), d) -
              if Registers(b.transactions, OfKey(d)) then Get(n.books.votes, OfKey(d)) else 0
  {
    hide PopBlock, ApplyBlock, BlockVerified, Settled, BooksFold, BooksUndoFold, Registers, PendingAt, SameAccts, Get,
         Add;
    var a := Applied(m, b);
    AppliedBlocks(m, b);
    InsideMeansNotFinishing(|m.blocks| + 1);
    PopInsideRound(m, genesisKey, b);
    PoppedInside(n, d);
    PoppedInside(a, d);
    UndoRows(n.books, a.books, NextRound(n), b.transactions, d);
    AppliedInside(m, b);
    VotesOfFold(m.books, NextRound(m), b.transactions, OfKey(d));
    assert Get(a.books.votes, OfKey(d)) == Get(BooksFold(m.books, NextRound(m), b.transactions).votes, OfKey(d));
  }

  // ---------- every run ----------

  /** How far the running tally of a delegate is from that of replaying the chain. */
  ghost function TallyError(n: Node, n0: Node, d: PublicKey): int
    requires |n0.blocks| == 1 && |n.blocks| > 0
  {
    Gap(n, Replay(n0, Chain(n)), d)
  }

  lemma ReplayedFacts(n: Node, n0: Node, genesisKey: PublicKey)
    requires AcctsReplayed(n, n0, genesisKey)
    ensures Genesis(n0) && |n0.blocks| == 1 && |n.blocks| > 0 && Replayable(n0, genesisKey, Chain(n))
    ensures var m := Replay(n0, Chain(n));
            && m.blocks == n.blocks && SameAccts(m.books.accts, n.books.accts) && m.flags == {}
            && m.books.accts.conf == n.books.accts.conf
            && Settled(m.books, NextRound(m)) && Tallied(m.books, NextRound(m)) && NextRound(m) == NextRound(n)
  {
    hide Genesis, Replay, Replayable, Settled, Tallied;
    GenesisBlock(n0);
    ReplayFacts(n0, genesisKey, Chain(n));
  }

  lemma TotalIsBacking(m: Node, U: set<Address>, d: PublicKey)
    requires Tallied(m.books, NextRound(m)) && Supports(U, m.books.accts.conf)
    ensures Total(m.books, NextRound(m), d) == Backing(U, m.books.accts.conf, d)
  {
    hide Backing, Supports;
    assert TallyAt(m.books, NextRound(m), U, d);
  }

  /** In every state of every run, stale pops or not, a delegate's votes and rows are its voters' balances and the
      error: the tally is right exactly where the error is zero. */
  lemma ErrorIs(n0: Node, genesisKey: PublicKey, es: seq<Event>, U: set<Address>, d: PublicKey)
    requires Genesis(n0) && Supports(U, Run(n0, genesisKey, es).node.books.accts.conf)
    ensures |n0.blocks| == 1
    ensures var n := Run(n0, genesisKey, es).node;
            Total(n.books, NextRound(n), d) == Backing(U, n.books.accts.conf, d) + TallyError(n, n0, d)
  {
    hide *;
    AccountsAreReplayed(n0, genesisKey, es);
    var n := Run(n0, genesisKey, es).node;
    ReplayedFacts(n, n0, genesisKey);
    TotalIsBacking(Replay(n0, Chain(n)), U, d);
    GapIs(n, n0, d);
  }

  lemma GapIs(n: Node, n0: Node, d: PublicKey)
    requires |n0.blocks| == 1 && |n.blocks| > 0
    ensures var m := Replay(n0, Chain(n));
            TallyError(n, n0, d) == Total(n.books, NextRound(n), d) - Total(m.books, NextRound(m), d)
  {
    hide Replay, Total;
  }

  /** Whoever registers in a block had no votes on the replayed books. */
  lemma NewNoVotes(m: Node, genesisKey: PublicKey, b: Block, a: Address)
    requires BlockVerified(m, genesisKey, b) && ApplyBlock(m, b).ok && Settled(m.books, NextRound(m))
    requires Registers(b.transactions, a)
    ensures Get(m.books.votes, a) == 0 && !Row(m.books.accts.conf, a).isDelegate
  {
    hide BlockVerified, ApplyBlock, Settled, Registers, Row;
    if Row(m.books.accts.conf, a).isDelegate { RegistersOnlyNew(m, genesisKey, b, a); }
    NonDelegateVotes(m.books, NextRound(m), a);
  }

  /** A block of any run keeps the error, but for what registering throws away and what a landing finds of the next
      round. */
  lemma BlockCarries(n: Node, n0: Node, genesisKey: PublicKey, b: Block, d: PublicKey)
    requires AcctsReplayed(n, n0, genesisKey) && |n.blocks| > 0
    requires BlockVerified(n, genesisKey, b) && ApplyBlock(n, b).ok
    ensures |n0.blocks| == 1 && |Applied(n, b).blocks| > 0
    ensures TallyError(Applied(n, b), n0, d) == TallyError(n, n0, d) -
              (if Registers(b.transactions, OfKey(d)) then Get(n.books.votes, OfKey(d)) else 0) +
              (if (|n.blocks| + 1) % ACTIVE_DELEGATES == 0 then PendingAt(n.books.pending, NextRound(n) + 1, d) else 0)
  {
    hide *;
    ReplayedFacts(n, n0, genesisKey);
    var m := Replay(n0, Chain(n));
    VerifiedAlike(n, m, genesisKey, b);
    SameNodes(n, m);
    ApplyAlike(n, m, b);
    AppliedBlocks(n, b);
    ReplayExtend(n0, genesisKey, Chain(n), b);
    ChainGrows(n, Applied(n, b), b);
    BlockGap(n, m, b, d);
    if Registers(b.transactions, OfKey(d)) { NewNoVotes(m, genesisKey, b, OfKey(d)); }
    OtherRoundIsEmpty(m.books, NextRound(m), NextRound(n) + 1, d);
    ErrorOf(n, n0, d);
    ErrorOf(Applied(n, b), n0, d);
  }

  lemma ErrorOf(n: Node, n0: Node, d: PublicKey)
    requires |n0.blocks| == 1 && |n.blocks| > 0
    ensures TallyError(n, n0, d) == Gap(n, Replay(n0, Chain(n)), d)
  {
  }

  lemma SameNodes(n: Node, m: Node)
    requires m.blocks == n.blocks && SameAccts(m.books.accts, n.books.accts) && m.flags == {}
    ensures AcctsLike(n, m)
  {
  }

  lemma ChainGrows(n: Node, n': Node, b: Block)
    requires |n.blocks| > 0 && n'.blocks == n.blocks + [b]
    ensures |n'.blocks| > 0 && Chain(n') == Chain(n) + [b] && |n'.blocks| > 1
  {
  }

  /** A pop inside a round keeps the error, but for what taking a registration back throws away. */
  lemma PopCarries(n: Node, n0: Node, genesisKey: PublicKey, d: PublicKey)
    requires AcctsReplayed(n, n0, genesisKey) && |n.blocks| > 1 && |n.blocks| % ACTIVE_DELEGATES != 0
    ensures |n0.blocks| == 1 && PopBlock(n).ok && |PopBlock(n).node.blocks| > 0
    ensures TallyError(PopBlock(n).node, n0, d) == TallyError(n, n0, d) -
              if Registers(n.blocks[|n.blocks| - 1].transactions, OfKey(d)) then Get(n.books.votes, OfKey(d)) else 0
  {
    hide *;
    ReplayedFacts(n, n0, genesisKey);
    var c := Chain(n);
    ChainEnds(n);
    var m, b := Replay(n0, c[..|c| - 1]), c[|c| - 1];
    PreviousFacts(n0, genesisKey, c);
    PopGap(n, m, genesisKey, b, d);
    PopKeepsSnapshot(n);
    ChainEnds(n);
    ErrorOf(n, n0, d);
    ErrorOf(PopBlock(n).node, n0, d);
    ChainShrinks(n, PopBlock(n).node);
  }

  lemma ChainEnds(n: Node)
    requires |n.blocks| > 1
    ensures Chain(n) != [] && Chain(n)[|Chain(n)| - 1] == n.blocks[|n.blocks| - 1]
    ensures |Chain(n)| == |n.blocks| - 1
  {
  }

  lemma ChainShrinks(n: Node, n': Node)
    requires |n.blocks| > 1 && n'.blocks == n.blocks[..|n.blocks| - 1]
    ensures |n'.blocks| > 0 && Chain(n') == Chain(n)[..|Chain(n)| - 1]
  {
  }

  // ---------- the snapshot ----------

  /** The snapshot is of the registered delegates of a chain that can be replayed. */
  ghost predicate SavedSound(t: Trace, n0: Node, genesisKey: PublicKey) {
    |n0.blocks| == 1 && (t.saved.Some? ==>
      && t.node.snapshot.Some? && Replayable(n0, genesisKey, t.saved.value)
      && forall a: Address :: a in t.node.snapshot.value.votes <==>
                              Row(Replay(n0, t.saved.value).books.accts.conf, a).isDelegate)
  }

  lemma ExtendSound(t: Trace, n0: Node, genesisKey: PublicKey, b: Block)
    requires AcctsReplayed(t.node, n0, genesisKey) && |t.node.blocks| > 0 && SavedSound(t, n0, genesisKey)
    requires |Step(t, genesisKey, Extend(b)).node.blocks| > 0
    requires AcctsReplayed(Step(t, genesisKey, Extend(b)).node, n0, genesisKey)
    ensures SavedSound(Step(t, genesisKey, Extend(b)), n0, genesisKey)
  {
    hide AcctsReplayed, BlockVerified, ApplyBlock, Replay, Replayable, Genesis, SnapshotOf, BooksFold, Row, Add;
    if BlockVerified(t.node, genesisKey, b) {
      var t' := Step(t, genesisKey, Extend(b));
      if ApplyBlock(t.node, b).ok {
        AppliedBlocks(t.node, b);
        if (|t.node.blocks| + 2) % ACTIVE_DELEGATES == 0 {
          AppliedInside(t.node, b);
          ReplayedFacts(t'.node, n0, genesisKey);
          SnapshotIs(t'.node.snapshot, t'.node);
          assert t'.saved.value == Chain(t'.node);
        } else {
          KeepsSnapshot(t.node, b);
        }
      } else {
        FailedApply(t.node, b);
      }
    }
  }

  lemma SnapshotIs(snapshot: Option<Snapshot>, n: Node)
    requires SnapshotOf(snapshot, n)
    ensures snapshot.Some? && snapshot.value.pending == n.books.pending
    ensures forall a: Address :: a in snapshot.value.votes <==> Row(n.books.accts.conf, a).isDelegate
    ensures forall a: Address :: a in snapshot.value.votes ==> snapshot.value.votes[a] == Get(n.books.votes, a)
  {
    hide Row;
  }

  lemma KeepsSnapshot(n: Node, b: Block)
    requires |n.blocks| > 0 && ApplyBlock(n, b).ok && (|n.blocks| + 2) % ACTIVE_DELEGATES != 0
    ensures Applied(n, b).snapshot == n.snapshot
  {
    hide ApplyBlock, BooksFold, Add;
    if (|n.blocks| + 1) % ACTIVE_DELEGATES == 0 { AppliedAtEnd(n, b); } else { AppliedInside(n, b); }
  }

  lemma {:induction false} RunSound(n0: Node, genesisKey: PublicKey, es: seq<Event>)
    requires Genesis(n0)
    ensures |n0.blocks| == 1 && SavedSound(Run(n0, genesisKey, es), n0, genesisKey)
    ensures AcctsReplayed(Run(n0, genesisKey, es).node, n0, genesisKey)
  {
    hide AcctsReplayed, Genesis, SavedSound, Step;
    AccountsAreReplayed(n0, genesisKey, es);
    if es == [] {
      NoneSound(n0, genesisKey);
    } else {
      var t, e := Run(n0, genesisKey, es[..|es| - 1]), es[|es| - 1];
      RunSound(n0, genesisKey, es[..|es| - 1]);
      StepReplayed(t, n0, genesisKey, e);
      match e
      case Extend(b) => ExtendSound(t, n0, genesisKey, b);
      case Pop => PopSound(t, n0, genesisKey);
    }
  }

  lemma NoneSound(n0: Node, genesisKey: PublicKey)
    requires |n0.blocks| == 1
    ensures SavedSound(Trace(n0, None), n0, genesisKey)
  {
  }

  lemma StepReplayed(t: Trace, n0: Node, genesisKey: PublicKey, e: Event)
    requires AcctsReplayed(t.node, n0, genesisKey)
    ensures |t.node.blocks| > 0 && |Step(t, genesisKey, e).node.blocks| > 0
    ensures AcctsReplayed(Step(t, genesisKey, e).node, n0, genesisKey)
  {
    hide AcctsReplayed, Step;
    NonEmpty(t.node, n0, genesisKey);
    match e {
      case Extend(b) => ExtendReplayed(t, n0, genesisKey, b);
      case Pop => PopReplayed(t, n0, genesisKey);
    }
    NonEmpty(Step(t, genesisKey, e).node, n0, genesisKey);
  }

  lemma PopSound(t: Trace, n0: Node, genesisKey: PublicKey)
    requires |t.node.blocks| > 0 && SavedSound(t, n0, genesisKey)
    ensures SavedSound(Step(t, genesisKey, Pop), n0, genesisKey)
  {
    hide PopBlock, Replay, Replayable, Row;
    if PopBlock(t.node).ok {
      if |t.node.blocks| == 1 {
        PopGenesis(t.node);
        assert false;
      }
      PopKeepsSnapshot(t.node);
    } else {
      PopFails(t.node);
    }
  }

  /** The error the snapshot holds for a delegate: what it says, less what replaying its chain says. */
  ghost function SavedError(t: Trace, n0: Node, d: PublicKey): int
    requires |n0.blocks| == 1 && t.saved.Some? && t.node.snapshot.Some?
  {
    var r, snap := Replay(n0, t.saved.value), t.node.snapshot.value;
    Get(snap.votes, OfKey(d)) + PendingAt(snap.pending, NextRound(r), d) - Total(r.books, NextRound(r), d)
  }

  /** A snapshot is taken with the error of the moment. */
  lemma SnapshotSaves(t: Trace, n0: Node, genesisKey: PublicKey, b: Block, d: PublicKey)
    requires AcctsReplayed(t.node, n0, genesisKey) && |t.node.blocks| > 0
    requires BlockVerified(t.node, genesisKey, b) && ApplyBlock(t.node, b).ok
    requires (|t.node.blocks| + 2) % ACTIVE_DELEGATES == 0
    requires Row(Applied(t.node, b).books.accts.conf, OfKey(d)).isDelegate
    ensures |n0.blocks| == 1
    ensures var t' := Step(t, genesisKey, Extend(b));
            && |t'.node.blocks| > 0 && t'.node == Applied(t.node, b) && t'.saved.Some? && t'.node.snapshot.Some?
            && SavedError(t', n0, d) == TallyError(t'.node, n0, d)
  {
    hide AcctsReplayed, BlockVerified, ApplyBlock, Replay, Replayable, Genesis, SnapshotOf, BooksFold, Row, Add;
    var t' := Step(t, genesisKey, Extend(b));
    AppliedBlocks(t.node, b);
    AppliedInside(t.node, b);
    StepReplayed(t, n0, genesisKey, Extend(b));
    ReplayedFacts(t'.node, n0, genesisKey);
    SnapshotIs(t'.node.snapshot, t'.node);
  }

  /** A pop at the end of a round leaves the error of the snapshot and, for every voter, what it holds more or less
      now than it held then; rows of another round than the one gone back to do not count.  Where the snapshot is
      of the block gone back to, that is its error alone. */
  lemma RestoreCarries(n0: Node, genesisKey: PublicKey, es: seq<Event>, U: set<Address>, d: PublicKey)
    requires Genesis(n0) && AtRoundEnd(Run(n0, genesisKey, es).node) && PopBlock(Run(n0, genesisKey, es).node).ok
    requires Run(n0, genesisKey, es).saved.Some?
    requires |n0.blocks| == 1 &&
             var r := Replay(n0, Run(n0, genesisKey, es).saved.value).books.accts.conf;
             Row(r, OfKey(d)).isDelegate && Supports(U, r)
    requires Supports(U, PopBlock(Run(n0, genesisKey, es).node).node.books.accts.conf)
    ensures var t := Run(n0, genesisKey, es);
            var p, r := PopBlock(t.node).node, Replay(n0, t.saved.value);
            && t.node.snapshot.Some? && |p.blocks| > 0
            && var rows := t.node.snapshot.value.pending;
               TallyError(p, n0, d) ==
               SavedError(t, n0, d) + Backing(U, r.books.accts.conf, d) - Backing(U, p.books.accts.conf, d) +
               PendingAt(rows, NextRound(p), d) - PendingAt(rows, NextRound(r), d)
    ensures var t := Run(n0, genesisKey, es);
            t.saved.value == Chain(PopBlock(t.node).node) ==>
            TallyError(PopBlock(t.node).node, n0, d) == SavedError(t, n0, d)
  {
    hide *;
    RunSound(n0, genesisKey, es);
    var t := Run(n0, genesisKey, es);
    var p, r := PopBlock(t.node).node, Replay(n0, t.saved.value);
    SoundIs(t, n0, genesisKey, OfKey(d));
    ReplayFacts(n0, genesisKey, t.saved.value);
    TotalIsBacking(r, U, d);
    EndLong(t.node);
    PoppedAtEnd(t.node, d);
    StepReplayed(t, n0, genesisKey, Pop);
    PopStep(t, genesisKey);
    ReplayedFacts(p, n0, genesisKey);
    TotalIsBacking(Replay(n0, Chain(p)), U, d);
    GapIs(p, n0, d);
    SavedErrorIs(t, n0, d);
  }

  lemma EndLong(n: Node)
    requires AtRoundEnd(n)
    ensures |n.blocks| > 1
  {
  }

  lemma PopStep(t: Trace, genesisKey: PublicKey)
    requires |t.node.blocks| > 0
    ensures Step(t, genesisKey, Pop) == Trace(PopBlock(t.node).node, t.saved)
  {
    hide PopBlock;
  }

  lemma SoundIs(t: Trace, n0: Node, genesisKey: PublicKey, a: Address)
    requires SavedSound(t, n0, genesisKey) && t.saved.Some?
    ensures |n0.blocks| == 1 && t.node.snapshot.Some? && Replayable(n0, genesisKey, t.saved.value)
    ensures a in t.node.snapshot.value.votes <==> Row(Replay(n0, t.saved.value).books.accts.conf, a).isDelegate
  {
    hide Replay, Replayable, Row;
  }

  lemma SavedErrorIs(t: Trace, n0: Node, d: PublicKey)
    requires |n0.blocks| == 1 && t.saved.Some? && t.node.snapshot.Some?
    requires OfKey(d) in t.node.snapshot.value.votes
    ensures var r, snap := Replay(n0, t.saved.value), t.node.snapshot.value;
            SavedError(t, n0, d) == snap.votes[OfKey(d)] + PendingAt(snap.pending, NextRound(r), d) -
                                    Total(r.books, NextRound(r), d)
  {
    hide Replay, Total, PendingAt;
  }

  // ---------- after a stale pop ----------

  /** Nothing is pending but in the round of the next block. */
  ghost predicate OnlyNext(n: Node) {
    forall r: int, d: PublicKey :: r != NextRound(n) ==> PendingAt(n.books.pending, r, d) == 0
  }

  lemma BlockOnlyNext(n: Node, b: Block)
    requires |n.blocks| > 0 && ApplyBlock(n, b).ok && OnlyNext(n)
    ensures OnlyNext(Applied(n, b))
  {
    hide ApplyBlock, BooksFold, Add, PayAll, SumRound, ForwardPayouts, PendingAt, RewardRows;
    var round, txs := NextRound(n), b.transactions;
    forall r: int, d: PublicKey | r != NextRound(Applied(n, b))
      ensures PendingAt(Applied(n, b).books.pending, r, d) == 0
    {
      if (|n.blocks| + 1) % ACTIVE_DELEGATES == 0 { LandedOtherRounds(n, b, r, d); } else {
        AppliedInside(n, b);
        OtherRoundsOfFold(n.books, round, txs, r, d);
      }
    }
  }

  /** A landing flushes its round and leaves the rows of every other. */
  lemma LandedOtherRounds(n: Node, b: Block, r: int, d: PublicKey)
    requires |n.blocks| > 0 && ApplyBlock(n, b).ok && (|n.blocks| + 1) % ACTIVE_DELEGATES == 0
    ensures PendingAt(Applied(n, b).books.pending, r, d) ==
            if r == NextRound(n) then 0 else PendingAt(n.books.pending, r, d)
  {
    hide ApplyBlock, BooksFold, Add, PayAll, SumRound, ForwardPayouts, RewardRows;
    var round, txs, s := NextRound(n), b.transactions, SumRound(n.blocks + [b]);
    AppliedAtEnd(n, b);
    if r != round {
      var c := BooksFold(n.books, round, txs);
      OtherRoundsOfFold(n.books, round, txs, r, d);
      OtherRoundsOfPay(WithProduced(c, Add(c.accts.produced, OfKey(b.generator), 1)), round,
                       ForwardPayouts(s.delegates, s.rewards, s.fees), r, d);
    }
  }

  lemma PopOnlyNext(n: Node)
    requires |n.blocks| > 1 && |n.blocks| % ACTIVE_DELEGATES != 0 && OnlyNext(n)
    ensures PopBlock(n).ok && OnlyNext(PopBlock(n).node)
  {
    hide PopBlock, UndoAll, BooksUndoFold, Add, PendingAt;
    var round, txs := NextRound(n), n.blocks[|n.blocks| - 1].transactions;
    SameRoundInside(|n.blocks|);
    PopMatchesInside(n, round, txs);
    UndoAllBooks(n, round, txs);
    forall r: int, d: PublicKey | r != round ensures PendingAt(PopBlock(n).node.books.pending, r, d) == 0 {
      OtherRoundsOfUndo(n.books, round, txs, r, d);
    }
  }

  ghost predicate NothingPending(p: Pending) { forall r: int, d: PublicKey :: PendingAt(p, r, d) == 0 }

  lemma EndPendsNothing(t: Trace, n0: Node, genesisKey: PublicKey)
    requires TraceInv(t, n0, genesisKey) && AtRoundEnd(t.node)
    ensures NothingPending(t.node.books.pending)
  {
    hide Genesis, Replay, Replayable, RowsAhead, SavedRight, ApplyBlock, BlockVerified, Settled, Tallied, PendingAt;
    var c := Chain(t.node);
    var m, b := Replay(n0, c[..|c| - 1]), c[|c| - 1];
    PreviousFacts(n0, genesisKey, c);
    forall r: int, d: PublicKey ensures PendingAt(t.node.books.pending, r, d) == 0 {
      LandedOtherRounds(m, b, r, d);
      if r != NextRound(m) { OtherRoundIsEmpty(m.books, NextRound(m), r, d); }
    }
  }

  lemma PopOntoNothing(n: Node)
    requires AtRoundEnd(n) && PopBlock(n).ok && n.snapshot.Some?
    requires NothingPending(n.books.pending) && NothingPending(n.snapshot.value.pending)
    ensures OnlyNext(PopBlock(n).node)
  {
    hide PopBlock, UndoAll, BooksUndoFold, PayAll, Add, SumRound, BackwardPayouts;
    var round, txs, s := CalcRound(|n.blocks|), n.blocks[|n.blocks| - 1].transactions, SumRound(n.blocks);
    PopMatches(n, round, txs);
    UndoAllBooks(n, round, txs);
    var u := BooksUndoFold(n.books, round, txs);
    forall r: int, d: PublicKey | r != round ensures PendingAt(PopBlock(n).node.books.pending, r, d) == 0 {
      OtherRoundsOfUndo(n.books, round, txs, r, d);
      OtherRoundsOfPay(WithProduced(u, Add(u.accts.produced, OfKey(n.blocks[|n.blocks| - 1].generator), -1)), round,
                       BackwardPayouts(s.delegates, s.rewards, s.fees), r, d);
    }
  }

  lemma EmptyPendsNothing(n: Node)
    requires StaleTallies.AllRecorded(n) && n.snapshot.Some? && n.snapshot.value.rounds == {}
    ensures NothingPending(n.snapshot.value.pending)
  {
    hide PendingAt;
  }

  /** The stale pop itself: what the voters held at the snapshot, less what they hold now. */
  lemma StaleError(n0: Node, genesisKey: PublicKey, es: seq<Event>, U: set<Address>, d: PublicKey)
    requires Genesis(n0) && StaleTallies.AllRecorded(n0) && NoStalePop(n0, genesisKey, es)
    requires AtRoundEnd(Run(n0, genesisKey, es).node) && StaleEmpty(Run(n0, genesisKey, es))
    requires Supports(U, Replay(n0, Run(n0, genesisKey, es).saved.value).books.accts.conf)
    requires Supports(U, PopBlock(Run(n0, genesisKey, es).node).node.books.accts.conf)
    ensures |n0.blocks| == 1
    ensures var t := Run(n0, genesisKey, es);
            var p, r := PopBlock(t.node), Replay(n0, t.saved.value);
            && p.ok && |p.node.blocks| > 0 && Step(t, genesisKey, Pop).node == p.node
            && AcctsReplayed(p.node, n0, genesisKey) && OnlyNext(p.node)
            && TallyError(p.node, n0, d) ==
               Backing(U, r.books.accts.conf, d) - Backing(U, p.node.books.accts.conf, d)
  {
    hide *;
    GenesisBlock(n0);
    var t := Run(n0, genesisKey, es);
    RunNear(n0, genesisKey, es);
    StaleTallies.RunRecorded(n0, genesisKey, es);
    StaleTallies.StaleFacts(t, n0, genesisKey);
    StaleTallies.StaleVotesAre(t, n0, genesisKey, d);
    AccountsAreReplayed(n0, genesisKey, es);
    StepReplayed(t, n0, genesisKey, Pop);
    PopStep(t, genesisKey);
    var p, r := PopBlock(t.node).node, Replay(n0, t.saved.value);
    ReplayFacts(n0, genesisKey, t.saved.value);
    TotalIsBacking(r, U, d);
    StaleTallies.SavedVotes(t.node.snapshot, r, OfKey(d));
    StaleTallies.NothingCounted(t.node, NextRound(r), d);
    ReplayedFacts(p, n0, genesisKey);
    TotalIsBacking(Replay(n0, Chain(p)), U, d);
    TotalIs(r.books, NextRound(r), d);
    TotalIs(p.books, NextRound(p), d);
    GapIs(p, n0, d);
    EndPendsNothing(t, n0, genesisKey);
    EmptyPendsNothing(t.node);
    PopOntoNothing(t.node);
  }

  lemma TotalIs(b: Books, round: int, d: PublicKey)
    ensures Total(b, round, d) == Get(b.votes, OfKey(d)) + PendingAt(b.pending, round, d)
  {
  }

  // ---------- what comes after it ----------

  /** One event that goes back over no end of a round, on a node where the delegate is registered before and after. */
  ghost predicate Gentle(n: Node, n': Node, e: Event, d: PublicKey) {
    && (e.Pop? ==> !AtRoundEnd(n))
    && Row(n.books.accts.conf, OfKey(d)).isDelegate && Row(n'.books.accts.conf, OfKey(d)).isDelegate
  }

  /** Such an event keeps the error of a tally with nothing pending in other rounds. */
  lemma GentleCarries(t: Trace, n0: Node, genesisKey: PublicKey, e: Event, d: PublicKey)
    requires AcctsReplayed(t.node, n0, genesisKey) && |t.node.blocks| > 0 && OnlyNext(t.node)
    requires |n0.blocks| == 1 && |Step(t, genesisKey, e).node.blocks| > 0
    requires Gentle(t.node, Step(t, genesisKey, e).node, e, d)
    ensures OnlyNext(Step(t, genesisKey, e).node)
    ensures TallyError(Step(t, genesisKey, e).node, n0, d) == TallyError(t.node, n0, d)
  {
    hide AcctsReplayed, BlockVerified, ApplyBlock, PopBlock, OnlyNext, Gap, Replay, Registers, Row;
    var n := t.node;
    match e {
      case Extend(b) =>
        if BlockVerified(n, genesisKey, b) {
          if ApplyBlock(n, b).ok {
            BlockOnlyNext(n, b);
            BlockCarries(n, n0, genesisKey, b, d);
            KnownNotNew(n, n0, genesisKey, b, OfKey(d));
            NextEmpty(n, d);
          } else {
            FailedApply(n, b);
            SameError(n, ApplyBlock(n, b).node, n0, d);
          }
        }
      case Pop =>
        if |n.blocks| == 1 {
          PopGenesis(n);
        } else {
          PopOnlyNext(n);
          PopCarries(n, n0, genesisKey, d);
          KnownNotUndone(n, n0, genesisKey, OfKey(d));
        }
    }
  }

  lemma NextEmpty(n: Node, d: PublicKey)
    requires OnlyNext(n)
    ensures PendingAt(n.books.pending, NextRound(n) + 1, d) == 0
  {
    hide PendingAt;
  }

  lemma SameError(n: Node, n': Node, n0: Node, d: PublicKey)
    requires |n0.blocks| == 1 && |n.blocks| > 0 && n' == n.(flags := n'.flags)
    ensures TallyError(n', n0, d) == TallyError(n, n0, d) && (OnlyNext(n) ==> OnlyNext(n'))
  {
    hide Replay, PendingAt;
  }

  lemma KnownNotNew(n: Node, n0: Node, genesisKey: PublicKey, b: Block, a: Address)
    requires AcctsReplayed(n, n0, genesisKey) && |n.blocks| > 0
    requires BlockVerified(n, genesisKey, b) && ApplyBlock(n, b).ok && Row(n.books.accts.conf, a).isDelegate
    ensures !Registers(b.transactions, a)
  {
    hide *;
    ReplayedFacts(n, n0, genesisKey);
    var m := Replay(n0, Chain(n));
    VerifiedAlike(n, m, genesisKey, b);
    SameNodes(n, m);
    ApplyAlike(n, m, b);
    RegistersOnlyNew(m, genesisKey, b, a);
  }

  /** Whoever is registered after a pop was not registered by the block it took back. */
  lemma KnownNotUndone(n: Node, n0: Node, genesisKey: PublicKey, a: Address)
    requires AcctsReplayed(n, n0, genesisKey) && |n.blocks| > 1 && PopBlock(n).ok
    requires Row(PopBlock(n).node.books.accts.conf, a).isDelegate
    ensures !Registers(n.blocks[|n.blocks| - 1].transactions, a)
  {
    hide *;
    ReplayedFacts(n, n0, genesisKey);
    StepReplayed(Trace(n, None), n0, genesisKey, Pop);
    PopStep(Trace(n, None), genesisKey);
    PopKeepsSnapshot(n);
    ChainShrinks(n, PopBlock(n).node);
    ChainEnds(n);
    ReplayedFacts(PopBlock(n).node, n0, genesisKey);
    var c := Chain(n);
    PreviousFacts(n0, genesisKey, c);
    RegistersOnlyNew(Replay(n0, c[..|c| - 1]), genesisKey, c[|c| - 1], a);
  }

  /** Every event of the continuation is such a one. */
  ghost predicate AllGentle(n0: Node, genesisKey: PublicKey, es: seq<Event>, fs: seq<Event>, d: PublicKey)
    requires |n0.blocks| > 0
  {
    fs == [] || (
      var t, e := Run(n0, genesisKey, es + fs[..|fs| - 1]), fs[|fs| - 1];
      AllGentle(n0, genesisKey, es, fs[..|fs| - 1], d) && Gentle(t.node, Step(t, genesisKey, e).node, e, d))
  }

  lemma {:induction false} GentleKeeps(n0: Node, genesisKey: PublicKey, es: seq<Event>, fs: seq<Event>, d: PublicKey)
    requires Genesis(n0) && |n0.blocks| == 1 && OnlyNext(Run(n0, genesisKey, es).node)
    requires AllGentle(n0, genesisKey, es, fs, d)
    ensures OnlyNext(Run(n0, genesisKey, es + fs).node)
    ensures TallyError(Run(n0, genesisKey, es + fs).node, n0, d) == TallyError(Run(n0, genesisKey, es).node, n0, d)
  {
    hide Genesis, OnlyNext, Step, Gentle, TallyError, AcctsReplayed;
    if fs == [] {
      assert es + fs == es;
    } else {
      var pre, e := fs[..|fs| - 1], fs[|fs| - 1];
      GentleKeeps(n0, genesisKey, es, pre, d);
      assert es + fs == es + pre + [e];
      AccountsAreReplayed(n0, genesisKey, es + pre);
      var t := Run(n0, genesisKey, es + pre);
      StepReplayed(t, n0, genesisKey, e);
      RunPush(n0, genesisKey, es + pre, e);
      GentleCarries(t, n0, genesisKey, e, d);
    }
  }

  /** After the first stale pop of a run the tally of a delegate stays wrong by what its voters held more at the
      block of the snapshot than after the pop, through every later block and every pop inside a round. */
  lemma StaleErrorStays(n0: Node, genesisKey: PublicKey, es: seq<Event>, fs: seq<Event>, U: set<Address>,
      W: set<Address>, d: PublicKey)
    requires Genesis(n0) && StaleTallies.AllRecorded(n0) && NoStalePop(n0, genesisKey, es)
    requires AtRoundEnd(Run(n0, genesisKey, es).node) && StaleEmpty(Run(n0, genesisKey, es))
    requires |n0.blocks| > 0 && AllGentle(n0, genesisKey, es + [Pop], fs, d)
    requires Supports(U, Replay(n0, Run(n0, genesisKey, es).saved.value).books.accts.conf)
    requires Supports(U, PopBlock(Run(n0, genesisKey, es).node).node.books.accts.conf)
    requires Supports(W, Run(n0, genesisKey, es + [Pop] + fs).node.books.accts.conf)
    ensures var t, n := Run(n0, genesisKey, es), Run(n0, genesisKey, es + [Pop] + fs).node;
            Total(n.books, NextRound(n), d) == Backing(W, n.books.accts.conf, d) +
              (Backing(U, Replay(n0, t.saved.value).books.accts.conf, d) -
               Backing(U, PopBlock(t.node).node.books.accts.conf, d))
  {
    hide *;
    StaleError(n0, genesisKey, es, U, d);
    RunPush(n0, genesisKey, es, Pop);
    GentleKeeps(n0, genesisKey, es + [Pop], fs, d);
    ErrorIs(n0, genesisKey, es + [Pop] + fs, W, d);
  }
}
