/**
  The confirmed half of a running node.  Whatever is pending, lost or undone in the wrong order, a block that goes
  through would go through on the settled node too, so the confirmed half is always that of a run of blocks.
 */
module ConfirmedRuns {
  import opened Base
  import opened Diff
  import opened Accounts
  import opened Tally
  import opened Payouts
  import opened Voting
  import opened Ledger
  import opened Storage
  import opened Steps
  import opened Rollback
  import opened Invariants
  import opened BlockRules
  import opened PopBlocks
  import opened Landing
  import opened History
  import opened RunAccounts
  import opened PoolQueues
  import opened PoolLists
  import opened PoolBalances
  import opened PoolSteps
  import opened PoolUndoing
  import opened PoolPops
  import opened ForkChoice
  import opened ChainSteps
  import opened SystemRuns

  /** No unconfirmed balance is above the confirmed one. */
  ghost predicate NoneAhead(s: Accts) { forall a: Address :: Gap(s, a) >= 0 }

  /** `n` has anything on top of the settled node `m`. */
  ghost predicate OnTop(n: Node, m: Node) {
    SameBase(n, m) && m.flags <= n.flags && m.books.accts.conf == m.books.accts.unconf && NoneAhead(n.books.accts)
  }

  // ---------- the unconfirmed pass ----------

  /** Folding moves an unconfirmed balance by the same amount from wherever it starts. */
  lemma {:induction false} FoldShift(s: Accts, s': Accts, txs: seq<Transaction>, a: Address)
    ensures Row(UFold(s, txs).unconf, a).balance - Row(s.unconf, a).balance ==
            Row(UFold(s', txs).unconf, a).balance - Row(s'.unconf, a).balance
  {
    hide Touch, Row;
    if txs != [] {
      var pre, tx := txs[..|txs| - 1], txs[|txs| - 1];
      FoldShift(s, s', pre, a);
      TouchBalance(UFold(s, pre).unconf, tx, a);
      TouchBalance(UFold(s', pre).unconf, tx, a);
    }
  }

  /** A second signature that shows after the fold was there before it, or shows wherever the fold starts. */
  lemma {:induction false} SecondShows(s: Accts, s': Accts, txs: seq<Transaction>, a: Address)
    ensures Row(UFold(s, txs).unconf, a).secondSignature ==>
              Row(s.unconf, a).secondSignature || Row(UFold(s', txs).unconf, a).secondSignature
  {
    hide Touched;
    if txs != [] {
      var pre, tx := txs[..|txs| - 1], txs[|txs| - 1];
      SecondShows(s, s', pre, a);
      TouchedFields(Row(UFold(s, pre).unconf, tx.From()), tx);
      TouchedFields(Row(UFold(s', pre).unconf, tx.From()), tx);
    }
  }

  lemma {:induction false} PairFoldConf(s: Accts, s': Accts, txs: seq<Transaction>)
    requires s.conf == s'.conf
    ensures PairFold(s, txs).conf == PairFold(s', txs).conf
  {
    hide Touch, Credit;
    if txs != [] {
      PairFoldConf(s, s', txs[..|txs| - 1]);
      PairConf(PairFold(s, txs[..|txs| - 1]), txs[|txs| - 1]);
      PairConf(PairFold(s', txs[..|txs| - 1]), txs[|txs| - 1]);
    }
  }

  lemma {:induction false} PairFoldHalves(s: Accts, txs: seq<Transaction>)
    requires s.conf == s.unconf
    ensures PairFold(s, txs).conf == PairFold(s, txs).unconf
  {
    hide Touch, Credit, Pair;
    if txs != [] {
      PairFoldHalves(s, txs[..|txs| - 1]);
      PairConf(PairFold(s, txs[..|txs| - 1]), txs[|txs| - 1]);
    }
  }

  /** On the settled node the unconfirmed pass leaves each row as the confirmed one does, but for the balance. */
  lemma FoldIsConfirmed(s: Accts, txs: seq<Transaction>, a: Address)
    requires s.conf == s.unconf
    ensures var r := Row(UFold(s, txs).unconf, a);
            r == Row(PairFold(s, txs).conf, a).(balance := r.balance)
  {
    hide UFold, PairFold, CFold, Row;
    BlockIsPairs(s, txs);
    CFoldUnconfBalanceOnly(UFold(s, txs), txs, a);
    PairFoldHalves(s, txs);
  }

  /** The vote checks look at the registered keys and at the votes apart. */
  lemma ChecksApart(conf: SideTable, conf': SideTable, ds: multiset<PublicKey>, ds': multiset<PublicKey>,
                    vs: seq<string>)
    requires CheckDelegates(conf, ds, vs) && CheckDelegates(conf', ds', vs)
    ensures CheckDelegates(conf, ds', vs)
  {
    hide Found, Named;
    FoundAll(conf, vs);
    FoundAll(conf', vs);
  }

  /** What the checks of a transaction say on the node with anything on top, once unconfirmed and once confirmed,
      is enough for its unconfirmed check on the settled node. */
  lemma AllowedBelow(n: Accts, m: Accts, conf: SideTable, flags: set<Address>, flags': set<Address>, tx: Transaction)
    requires UAllowed(n, flags, tx, false) && n.conf == m.conf && flags' <= flags
    requires Row(m.unconf, tx.From()).balance >= Row(n.unconf, tx.From()).balance
    requires tx.asset.SecondSignature? ==> !Row(m.unconf, tx.From()).secondSignature
    requires forall a: Address ::
               && Row(m.unconf, a).isDelegate == Row(conf, a).isDelegate
               && Row(m.unconf, a).username == Row(conf, a).username
               && Row(m.unconf, a).delegates == Row(conf, a).delegates
    requires tx.asset.Registration? ==> !Row(conf, tx.From()).isDelegate && UsernameFree(conf, tx.asset.username)
    requires tx.asset.Votes? ==> CheckDelegates(conf, Row(conf, tx.From()).delegates, tx.asset.votes)
    ensures UAllowed(m, flags', tx, false)
  {
    hide CheckDelegates, Row;
    if tx.asset.Votes? {
      ChecksApart(m.conf, conf, Row(n.unconf, tx.From()).delegates, Row(conf, tx.From()).delegates, tx.asset.votes);
    }
  }

  lemma UStepBelow(n: Node, m: Node, round: int, txs: seq<Transaction>, k: nat)
    requires OnTop(n, m) && UAll(n, txs).ok && CAll(UAll(n, txs).node, round, txs).ok && k < |txs|
    ensures UAllowed(UFold(m.books.accts, txs[..k]), m.flags + GroupSenders(txs[..k]), txs[k], false)
  {
    hide UFold, PairFold, CFold, UAllowed, CAll, UAll, Row, Gap, GroupSenders, UsernameFree, CheckDelegates;
    var s, s', pre, tx := n.books.accts, m.books.accts, txs[..k], txs[k];
    var a := tx.From();
    var u := UAll(n, txs).node;
    UAllPrefix(n, txs, k);
    CAllPrefix(u, round, txs, k);
    CAllBooks(n, round, txs, k);
    var conf := CAll(u, round, pre).node.books.accts.conf;
    PairFoldConf(s, s', pre);
    forall b: Address
      ensures var r := Row(UFold(s', pre).unconf, b); r == Row(conf, b).(balance := r.balance)
    {
      FoldIsConfirmed(s', pre, b);
    }
    FoldShift(s, s', pre, a);
    assert Gap(s, a) >= 0;
    GapIs(s, a);
    SecondShows(s', s, pre, a);
    UFoldOnlyUnconfirmed(s, pre);
    UFoldOnlyUnconfirmed(s', pre);
    AllowedIs(UFold(s, pre), n.flags + GroupSenders(pre), CAll(u, round, pre).node.books.accts, tx);
    AllowedBelow(UFold(s, pre), UFold(s', pre), conf, n.flags + GroupSenders(pre), m.flags + GroupSenders(pre), tx);
  }

  lemma GapIs(s: Accts, a: Address)
    ensures Gap(s, a) == Row(s.conf, a).balance - Row(s.unconf, a).balance
  {
  }

  lemma AllowedIs(s: Accts, flags: set<Address>, c: Accts, tx: Transaction)
    requires UAllowed(s, flags, tx, false) && CAllowed(c, tx, false)
    ensures tx.asset.SecondSignature? ==>
              !Row(s.unconf, tx.From()).secondSignature && !Row(s.conf, tx.From()).secondSignature
    ensures tx.asset.Registration? ==> !Row(c.conf, tx.From()).isDelegate && UsernameFree(c.conf, tx.asset.username)
    ensures tx.asset.Votes? ==> CheckDelegates(c.conf, Row(c.conf, tx.From()).delegates, tx.asset.votes)
  {
    hide CheckDelegates, UsernameFree;
  }

  lemma {:induction false} UAllBelow(n: Node, m: Node, round: int, txs: seq<Transaction>, k: nat)
    requires OnTop(n, m) && UAll(n, txs).ok && CAll(UAll(n, txs).node, round, txs).ok && k <= |txs|
    ensures UAll(m, txs[..k]).ok
  {
    hide OnTop, UAllowed, UStep, CAll, UFold, GroupSenders;
    if k > 0 {
      UAllBelow(n, m, round, txs, k - 1);
      assert txs[..k][..k - 1] == txs[..k - 1];
      UStepBelow(n, m, round, txs, k - 1);
      UAllSpec(m, txs[..k - 1]);
    }
  }

  // ---------- the rest of a block ----------

  lemma {:induction false} CAllBase(n: Node, m: Node, round: int, txs: seq<Transaction>)
    requires SameBase(n, m) && CAll(n, round, txs).ok
    ensures CAll(m, round, txs).ok && SameBase(CAll(n, round, txs).node, CAll(m, round, txs).node)
  {
    hide Touch, Credit, CPending, TxRounds, Ready, CheckDelegates, UsernameFree, Row;
    if txs != [] { CAllBase(n, m, round, txs[..|txs| - 1]); }
  }

  lemma TickBase(n: Node, m: Node)
    requires SameBase(n, m) && |n.blocks| > 0
    ensures SameBase(Tick(n), Tick(m))
  {
    hide SumRound, PayAll, UpdateVotes, Flush, Add, RewardRows, Row, ForwardPayouts;
    var round, s := CalcRound(|n.blocks|), SumRound(n.blocks);
    PayAllBase(CountBlock(n, 1).books, CountBlock(m, 1).books, round, ForwardPayouts(s.delegates, s.rewards, s.fees));
  }

  /** A block that goes through with anything on top goes through without it, to the same base. */
  lemma ApplyBase(n: Node, m: Node, b: Block)
    requires OnTop(n, m) && |m.blocks| > 0 && ApplyBlock(n, b).ok
    ensures ApplyBlock(m, b).ok && SameBase(Applied(n, b), Applied(m, b))
  {
    hide UAll, CAll, Tick, UFold, GroupSenders, NoneAhead;
    var round, txs := CalcRound(|n.blocks| + 1), b.transactions;
    UAllBelow(n, m, round, txs, |txs|);
    assert txs[..|txs|] == txs;
    UAllSpec(n, txs);
    UAllSpec(m, txs);
    UFoldOnlyUnconfirmed(n.books.accts, txs);
    UFoldOnlyUnconfirmed(m.books.accts, txs);
    var u, v := UAll(n, txs).node, UAll(m, txs).node;
    CAllBase(u, v, round, txs);
    TickBase(CAll(u, round, txs).node.(blocks := n.blocks + [b]), CAll(v, round, txs).node.(blocks := m.blocks + [b]));
  }

  // ---------- runs ----------

  /** The events of a move that went through. */
  ghost function PassedBy(s: Chained, m: Move, e: Circumstances): seq<Event>
    requires e.rewards.Valid() && |s.node.blocks| > 0
  {
    match m
    case Process(b) =>
      if BlockPasses(s.node, b, e) && ApplyBlock(UndoneList(s.node, s.pool.unconfirmed), b).ok then [Extend(b)] else []
    case Delete => [Pop]
    case _ => []
  }

  ghost function Passed(s: Chained, ms: seq<(Move, Circumstances)>): seq<Event>
    requires |s.node.blocks| > 0 && forall i :: 0 <= i < |ms| ==> ms[i].1.rewards.Valid()
  {
    if ms == [] then []
    else Passed(s, ms[..|ms| - 1]) + PassedBy(AfterMoves(s, ms[..|ms| - 1]), ms[|ms| - 1].0, ms[|ms| - 1].1)
  }

  lemma TouchedBase(n: Node, m: Node, tx: Transaction)
    requires SameBase(n, m)
    ensures SameBase(UStep(n, tx), m) && SameBase(UndoneOne(n, tx), m)
  {
    hide Touch, UndoneOne;
    UndoneOneConf(n, tx);
  }

  lemma {:induction false} ListBase(n: Node, m: Node, ps: seq<Pooled>)
    requires SameBase(n, m)
    ensures SameBase(UndoneList(n, ps), m)
    decreases |ps|
  {
    hide SameBase, UndoneOne;
    if ps != [] {
      TouchedBase(n, m, ps[0].tx);
      ListBase(UndoneOne(n, ps[0].tx), m, ps[1..]);
    }
  }

  /** Undoing the unconfirmed list leaves no unconfirmed balance above the confirmed one. */
  lemma UndoneOnTop(s: Chained, lost: seq<Pooled>, m: Node)
    requires SameBase(s.node, m) && m.flags == {} && m.books.accts.conf == m.books.accts.unconf && Accounted(s, lost)
    ensures OnTop(UndoneList(s.node, s.pool.unconfirmed), m)
  {
    hide SameBase, Gap, Owed, UndoneList, DistinctIds;
    var us := s.pool.unconfirmed;
    ListBase(s.node, m, us);
    forall a: Address ensures Gap(UndoneList(s.node, us).books.accts, a) >= 0 {
      GapOfList(s.node, us, a);
      assert AccountedAt(s, lost, a);
      OwedPositive(lost, a);
    }
  }

  lemma FailedBase(n: Node, m: Node, b: Block)
    requires SameBase(n, m) && !ApplyBlock(n, b).ok
    ensures SameBase(ApplyBlock(n, b).node, m)
  {
    hide ApplyBlock;
    FailedApply(n, b);
  }

  lemma VerifiedBase(n: Node, m: Node, genesisKey: PublicKey, b: Block)
    requires SameBase(n, m)
    ensures BlockVerified(n, genesisKey, b) <==> BlockVerified(m, genesisKey, b)
    ensures n.blocks == m.blocks && n.books.accts.conf == m.books.accts.conf
    ensures n.books.votes == m.books.votes && n.books.pending == m.books.pending
  {
    hide Verified, SumFees;
    forall tx: Transaction
      ensures Verified(n.books.accts, genesisKey, tx) <==> Verified(m.books.accts, genesisKey, tx)
    {
      VerifiedByConf(n.books.accts, m.books.accts, genesisKey, tx);
    }
  }

  lemma NoFlags(m: Node, b: Block)
    requires |m.blocks| > 0 && m.flags == {} && ApplyBlock(m, b).ok
    ensures Applied(m, b).flags == {}
  {
    hide ApplyBlock, GroupSenders;
    AppliedBlocks(m, b);
  }

  /** Each move does to the confirmed half what its event does to the settled node. */
  lemma BaseAfter(s: Chained, m: Move, e: Circumstances, lost: seq<Pooled>, t: Node)
    requires e.rewards.Valid() && |s.node.blocks| > 0 && |t.blocks| > 0
    requires SameBase(s.node, t) && t.flags == {} && t.books.accts.conf == t.books.accts.unconf && Accounted(s, lost)
    ensures var r := Stepped(t, e.settings.genesisKey, PassedBy(s, m, e));
            SameBase(AfterMove(s, m, e).node, r) && r.flags == {}
  {
    hide *;
    var us, key := s.pool.unconfirmed, e.settings.genesisKey;
    MovedIs(s, m, e);
    PassedIs(s, m, e, t);
    match m
    case Waiting(_) =>
    case Try(p) =>
      TriedUnconfirmed(s.node, s.pool, p, e.settings);
      TouchedBase(s.node, t, Entry(s.node, p).tx);
    case Discard(p) => TouchedBase(s.node, t, p.tx);
    case Forget(_) =>
    case Process(b) =>
      ProcessedNode(s, b, e);
      if BlockPasses(s.node, b, e) {
        var n := UndoneList(s.node, us);
        UndoneOnTop(s, lost, t);
        ListBase(s.node, t, us);
        if ApplyBlock(n, b).ok {
          PassesVerified(s.node, b, e);
          VerifiedBase(s.node, t, key, b);
          ApplyBase(n, t, b);
          StepExtends(t, key, b);
          AppliedAre(n, b);
          AppliedAre(t, b);
          NoFlags(t, b);
        } else {
          FailedBase(n, t, b);
        }
      }
    case Delete =>
      DeletedNode(s, e);
      PopBase(s.node, t);
      NoFlagsAfterPop(t);
  }

  lemma AppliedAre(n: Node, b: Block)
    ensures Applied(n, b) == ApplyBlock(n, b).node
  {
    hide ApplyBlock;
  }

  lemma NoFlagsAfterPop(m: Node)
    requires |m.blocks| > 0 && m.flags == {}
    ensures PopBlock(m).node.flags == {}
  {
    hide PopBlock, GroupSenders;
    if |m.blocks| > 1 { PopFlags(m); } else { PopGenesis(m); }
  }

  lemma PassedIs(s: Chained, m: Move, e: Circumstances, t: Node)
    requires e.rewards.Valid() && |s.node.blocks| > 0 && |t.blocks| > 0
    ensures var r := Stepped(t, e.settings.genesisKey, PassedBy(s, m, e));
            match m
            case Process(b) =>
              if BlockPasses(s.node, b, e) && ApplyBlock(UndoneList(s.node, s.pool.unconfirmed), b).ok
              then r == Step(Trace(t, None), e.settings.genesisKey, Extend(b)).node else r == t
            case Delete => r == PopBlock(t).node
            case _ => r == t
    ensures |PassedBy(s, m, e)| <= 1
  {
    hide BlockPasses, PopBlock, ApplyBlock, BlockVerified, UndoneList;
  }

  /** Over every run of moves, whatever is lost, shared or refused: the node is that of the run of the blocks that went
      through, in everything but the unconfirmed columns and the flags. */
  lemma {:induction false} ConfirmedIsRun(s0: Chained, ms: seq<(Move, Circumstances)>, genesisKey: PublicKey)
    requires |s0.node.blocks| > 0 && Starts(s0) && Configured(ms, genesisKey)
    ensures var m := Run(s0.node, genesisKey, Passed(s0, ms)).node;
            SameBase(AfterMoves(s0, ms).node, m) && m.flags == {}
  {
    hide *;
    ConfiguredIs(ms, genesisKey);
    StartsIs(s0);
    if ms == [] {
      NothingMoved(s0, ms, genesisKey);
      NothingPassed(s0, ms);
      OwnBase(s0.node);
    } else {
      var pre, m, e := ms[..|ms| - 1], ms[|ms| - 1].0, ms[|ms| - 1].1;
      ConfiguredIs(pre, genesisKey);
      ConfirmedIsRun(s0, pre, genesisKey);
      OneMoved(s0, ms);
      OnePassed(s0, ms);
      var s, es := AfterMoves(s0, pre), Passed(s0, pre);
      AlwaysAccounted(s0, pre);
      AccountsAreReplayed(s0.node, genesisKey, es);
      PassedIs(s, m, e, Run(s0.node, genesisKey, es).node);
      RunOneMore(s0.node, genesisKey, es, PassedBy(s, m, e));
      BaseAfter(s, m, e, Lost(s0, pre), Run(s0.node, genesisKey, es).node);
    }
  }

  lemma NothingPassed(s0: Chained, ms: seq<(Move, Circumstances)>)
    requires |s0.node.blocks| > 0 && ms == []
    ensures Passed(s0, ms) == []
  {
  }

  lemma OwnBase(n: Node)
    ensures SameBase(n, n) && (Genesis(n) ==> n.flags == {})
  {
    hide Settled, Tallied;
  }

  lemma OnePassed(s0: Chained, ms: seq<(Move, Circumstances)>)
    requires |s0.node.blocks| > 0 && forall i :: 0 <= i < |ms| ==> ms[i].1.rewards.Valid()
    requires ms != []
    ensures var pre, m, e := ms[..|ms| - 1], ms[|ms| - 1].0, ms[|ms| - 1].1;
            Passed(s0, ms) == Passed(s0, pre) + PassedBy(AfterMoves(s0, pre), m, e)
  {
    hide AfterMoves, PassedBy;
  }
}
