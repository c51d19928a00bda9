/**
  The accounts over every run of applied and popped blocks.  Whatever snapshot a pop is handed, it only
  writes votes, pending rows and block counters; everything else in the accounts is that of replaying the
  chain.
 */
module RunAccounts {
  import opened Base
  import opened Diff
  import opened Accounts
  import opened Tally
  import opened Payouts
  import opened Voting
  import opened Ledger
  import opened Rollback
  import opened Invariants
  import opened BlockRules
  import opened PopBlocks
  import opened Landing
  import opened History

  /** Equal in everything but the block counters. */
  ghost predicate SameAccts(s: Accts, s': Accts) { s' == s.(produced := s'.produced) }

  /** `n` does what `m` does, as far as accounts and chain go. */
  ghost predicate AcctsLike(n: Node, m: Node) {
    n.blocks == m.blocks && SameAccts(m.books.accts, n.books.accts) && m.flags <= n.flags
  }

  lemma {:induction false} UAllAlike(n: Node, m: Node, txs: seq<Transaction>)
    requires AcctsLike(n, m) && UAll(n, txs).ok
    ensures UAll(m, txs).ok && AcctsLike(UAll(n, txs).node, UAll(m, txs).node)
  {
    hide Touch;
    if txs != [] { UAllAlike(n, m, txs[..|txs| - 1]); }
  }

  lemma {:induction false} CAllAlike(n: Node, m: Node, round: int, txs: seq<Transaction>)
    requires AcctsLike(n, m) && CAll(n, round, txs).ok
    ensures CAll(m, round, txs).ok && AcctsLike(CAll(n, round, txs).node, CAll(m, round, txs).node)
  {
    hide Touch, Credit, CPending, TxRounds, Row, Ready, CheckDelegates, UsernameFree;
    if txs != [] { CAllAlike(n, m, round, txs[..|txs| - 1]); }
  }

  lemma SamePaid(s: Accts, s': Accts, ps: seq<Payout>)
    requires SameAccts(s, s')
    ensures SameAccts(PayAccts(s, ps), PayAccts(s', ps))
  {
    hide PayAccts;
    PayAcctsProduced(s, ps, s'.produced);
  }

  lemma SameUndone(s: Accts, s': Accts, txs: seq<Transaction>)
    requires SameAccts(s, s')
    ensures SameAccts(UndoFold(s, txs), UndoFold(s', txs))
  {
    hide UndoFold;
    UndoFoldSame(s, txs, s'.produced);
  }

  lemma {:induction false} UndoFoldSame(s: Accts, txs: seq<Transaction>, p: Column)
    ensures UndoFold(s.(produced := p), txs) == UndoFold(s, txs).(produced := p)
    decreases |txs|
  {
    hide Untouch, Uncredit;
    if txs != [] { UndoFoldSame(UndoPair(s, txs[|txs| - 1]), txs[..|txs| - 1], p); }
  }

  lemma TickAlike(n: Node, m: Node)
    requires AcctsLike(n, m) && |n.blocks| > 0
    ensures AcctsLike(Tick(n), Tick(m))
  {
    hide SumRound, PayAll, UpdateVotes, Flush, Add, RewardRows, Row, PayAccts, ForwardPayouts, TakeSnapshot;
    var round, s := CalcRound(|n.blocks|), SumRound(n.blocks);
    var ps := ForwardPayouts(s.delegates, s.rewards, s.fees);
    PayAllAccts(CountBlock(n, 1).books, round, ps);
    PayAllAccts(CountBlock(m, 1).books, round, ps);
    SamePaid(CountBlock(m, 1).books.accts, CountBlock(n, 1).books.accts, ps);
  }

  lemma ApplyAlike(n: Node, m: Node, b: Block)
    requires |n.blocks| > 0 && AcctsLike(n, m) && ApplyBlock(n, b).ok
    ensures ApplyBlock(m, b).ok && AcctsLike(Applied(n, b), Applied(m, b))
  {
    hide UAll, CAll, Tick, SameAccts;
    var round := CalcRound(|n.blocks| + 1);
    UAllAlike(n, m, b.transactions);
    CAllAlike(UAll(n, b.transactions).node, UAll(m, b.transactions).node, round, b.transactions);
    TickAlike(CAll(UAll(n, b.transactions).node, round, b.transactions).node.(blocks := n.blocks + [b]),
              CAll(UAll(m, b.transactions).node, round, b.transactions).node.(blocks := m.blocks + [b]));
  }

  lemma VerifiedAlike(n: Node, m: Node, genesisKey: PublicKey, b: Block)
    requires SameAccts(m.books.accts, n.books.accts)
    ensures BlockVerified(n, genesisKey, b) == BlockVerified(m, genesisKey, b)
  {
    hide CheckDelegates, UsernameFree, DistinctKeys, SumFees;
    assert forall tx :: Verified(n.books.accts, genesisKey, tx) == Verified(m.books.accts, genesisKey, tx);
    hide Verified;
  }

  // ---------- pops ----------

  /** The accounts a pop leaves, up to the block counters. */
  lemma PopAccts(n: Node)
    requires |n.blocks| > 1 && PopBlock(n).ok
    ensures var txs, s := n.blocks[|n.blocks| - 1].transactions, SumRound(n.blocks);
            var u := UndoFold(n.books.accts, txs);
            && PopBlock(n).node.blocks == n.blocks[..|n.blocks| - 1]
            && SameAccts(if |n.blocks| % ACTIVE_DELEGATES == 0
                         then PayAccts(u, BackwardPayouts(s.delegates, s.rewards, s.fees)) else u,
                         PopBlock(n).node.books.accts)
  {
    hide PopBlock, UndoAll, BooksUndoFold, Add, PayAll, SumRound, BackwardPayouts, UndoFold, PayAccts, Overwrite,
         AddPending, Flush;
    var round, txs, s := CalcRound(|n.blocks|), n.blocks[|n.blocks| - 1].transactions, SumRound(n.blocks);
    UndoAllBooks(n, round, txs);
    UndoFoldAccts(n.books, round, txs);
    if |n.blocks| % ACTIVE_DELEGATES == 0 {
      PopMatches(n, round, txs);
      var u := UndoAll(n, round, txs).books;
      var counted := WithProduced(u, Add(u.accts.produced, OfKey(n.blocks[|n.blocks| - 1].generator), -1));
      PayAllAccts(counted, round, BackwardPayouts(s.delegates, s.rewards, s.fees));
      SamePaid(u.accts, counted.accts, BackwardPayouts(s.delegates, s.rewards, s.fees));
    } else {
      PopMatchesInside(n, round, txs);
    }
  }

  /** Undoing a block's transactions, and its round's payouts, gives the accounts before it. */
  lemma UndoneAccts(m: Node, genesisKey: PublicKey, b: Block)
    requires |m.blocks| > 0 && BlockVerified(m, genesisKey, b) && ApplyBlock(m, b).ok
    requires Settled(m.books, NextRound(m))
    ensures var s := SumRound(m.blocks + [b]);
            var u := UndoFold(Applied(m, b).books.accts, b.transactions);
            SameAccts(m.books.accts, if (|m.blocks| + 1) % ACTIVE_DELEGATES == 0
                                     then PayAccts(u, BackwardPayouts(s.delegates, s.rewards, s.fees)) else u)
  {
    hide Settled, BlockVerified, ApplyBlock, SumRound, BackwardPayouts, BooksUndoFold, UndoFold, PayAccts, Add,
         PayAll, LandedBooks, BooksFold;
    var round, txs := NextRound(m), b.transactions;
    if (|m.blocks| + 1) % ACTIVE_DELEGATES == 0 {
      var s := SumRound(m.blocks + [b]);
      var landed := LandedBooks(m, b);
      AppliedAtEnd(m, b);
      TakenBackAccts(m, genesisKey, b);
      UndoFoldAccts(landed, round, txs);
      var u := BooksUndoFold(landed, round, txs);
      var counted := WithProduced(u, Add(u.accts.produced, OfKey(b.generator), -1));
      PayAllAccts(counted, round, BackwardPayouts(s.delegates, s.rewards, s.fees));
      SamePaid(counted.accts, u.accts, BackwardPayouts(s.delegates, s.rewards, s.fees));
    } else {
      AppliedInside(m, b);
      var c := BooksFold(m.books, round, txs);
      var p := Add(c.accts.produced, OfKey(b.generator), 1);
      UndoneBooks(m, genesisKey, b, p);
      UndoFoldAccts(WithProduced(c, p), round, txs);
    }
  }

  lemma PopAlike(n: Node, m: Node, genesisKey: PublicKey, b: Block)
    requires |m.blocks| > 0 && BlockVerified(m, genesisKey, b) && ApplyBlock(m, b).ok && Settled(m.books, NextRound(m))
    requires n.blocks == m.blocks + [b] && SameAccts(Applied(m, b).books.accts, n.books.accts) && PopBlock(n).ok
    ensures SameAccts(m.books.accts, PopBlock(n).node.books.accts) && PopBlock(n).node.blocks == m.blocks
  {
    hide Settled, BlockVerified, ApplyBlock, SumRound, BackwardPayouts, UndoFold, PayAccts, PopBlock;
    PopAccts(n);
    UndoneAccts(m, genesisKey, b);
    var s, a := SumRound(n.blocks), Applied(m, b).books.accts;
    SameUndone(a, n.books.accts, b.transactions);
    SamePaid(UndoFold(a, b.transactions), UndoFold(n.books.accts, b.transactions),
             BackwardPayouts(s.delegates, s.rewards, s.fees));
    assert n.blocks[..|n.blocks| - 1] == m.blocks;
  }

  // ---------- every run ----------

  /** The accounts are those of replaying the chain. */
  ghost predicate AcctsReplayed(n: Node, n0: Node, genesisKey: PublicKey) {
    && Genesis(n0) && |n.blocks| > 0
    && n.blocks == n0.blocks + Chain(n)
    && Replayable(n0, genesisKey, Chain(n))
    && SameAccts(Replay(n0, Chain(n)).books.accts, n.books.accts)
  }

  lemma ExtendReplayed(t: Trace, n0: Node, genesisKey: PublicKey, b: Block)
    requires AcctsReplayed(t.node, n0, genesisKey)
    ensures AcctsReplayed(Step(t, genesisKey, Extend(b)).node, n0, genesisKey)
  {
    hide Settled, Tallied, BlockVerified, ApplyBlock, Replay, Replayable, SameAccts;
    if BlockVerified(t.node, genesisKey, b) {
      if ApplyBlock(t.node, b).ok {
        var c, n' := Chain(t.node), Applied(t.node, b);
        var m := Replay(n0, c);
        ReplayFacts(n0, genesisKey, c);
        VerifiedAlike(t.node, m, genesisKey, b);
        ApplyAlike(t.node, m, b);
        AppliedBlocks(t.node, b);
        ReplayExtend(n0, genesisKey, c, b);
        assert Chain(n') == c + [b];
        assert n'.blocks == n0.blocks + (c + [b]);
      } else {
        FailedApply(t.node, b);
      }
    }
  }

  lemma PopReplayed(t: Trace, n0: Node, genesisKey: PublicKey)
    requires AcctsReplayed(t.node, n0, genesisKey)
    ensures AcctsReplayed(Step(t, genesisKey, Pop).node, n0, genesisKey)
  {
    hide Settled, Tallied, BlockVerified, ApplyBlock, Replay, Replayable, SameAccts, PopBlock;
    GenesisBlock(n0);
    if PopBlock(t.node).ok {
      if |t.node.blocks| == 1 {
        PopGenesis(t.node);
        assert false;
      }
      var c, n' := Chain(t.node), PopBlock(t.node).node;
      var pre, b := c[..|c| - 1], c[|c| - 1];
      PreviousFacts(n0, genesisKey, c);
      var m := Replay(n0, pre);
      assert t.node.blocks == m.blocks + [b];
      PopAlike(t.node, m, genesisKey, b);
      assert Chain(n') == pre;
    } else {
      PopFails(t.node);
    }
  }

  /** Over every run, whatever is popped: the accounts, block counters aside, are those of replaying the
      chain, and both halves of every account agree. */
  lemma {:induction false} AccountsAreReplayed(n0: Node, genesisKey: PublicKey, es: seq<Event>)
    requires Genesis(n0)
    ensures |n0.blocks| == 1
    ensures var n := Run(n0, genesisKey, es).node;
            AcctsReplayed(n, n0, genesisKey) && n.books.accts.conf == n.books.accts.unconf
  {
    hide AcctsReplayed, Step, Genesis;
    GenesisBlock(n0);
    if es == [] {
      StartReplayed(n0, genesisKey);
    } else {
      var pre, e := es[..|es| - 1], es[|es| - 1];
      AccountsAreReplayed(n0, genesisKey, pre);
      var t := Run(n0, genesisKey, pre);
      match e
      case Extend(b) => ExtendReplayed(t, n0, genesisKey, b);
      case Pop => PopReplayed(t, n0, genesisKey);
      NonEmpty(Step(t, genesisKey, e).node, n0, genesisKey);
    }
    HalvesAgree(Run(n0, genesisKey, es).node, n0, genesisKey);
  }

  lemma StartReplayed(n0: Node, genesisKey: PublicKey)
    requires Genesis(n0)
    ensures AcctsReplayed(n0, n0, genesisKey)
  {
    hide Settled, Tallied;
    assert Chain(n0) == [] && n0.blocks + [] == n0.blocks;
  }

  lemma NonEmpty(n: Node, n0: Node, genesisKey: PublicKey)
    requires AcctsReplayed(n, n0, genesisKey)
    ensures |n.blocks| > 0
  {
    hide Genesis, Replay, Replayable, SameAccts;
  }

  lemma HalvesAgree(n: Node, n0: Node, genesisKey: PublicKey)
    requires AcctsReplayed(n, n0, genesisKey)
    ensures n.books.accts.conf == n.books.accts.unconf
  {
    hide RowSane, PendingSane, Tallied, BlockVerified, ApplyBlock;
    ReplayFacts(n0, genesisKey, Chain(n));
  }
}
