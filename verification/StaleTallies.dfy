/**
  The vote tally after a pop that was handed the empty snapshot of a later round.  It is the tally of the block
  the snapshot was taken of, so it is right exactly for the delegates whose voters held then what they hold now.
 */
module StaleTallies {
  import opened Base
  import opened Diff
  import opened Accounts
  import opened Tally
  import opened Payouts
  import opened Ledger
  import opened Rollback
  import opened Invariants
  import opened BlockRules
  import opened PopBlocks
  import opened Landing
  import opened History
  import opened ExactPops
  import opened GenesisBlocks
  import StalePops

  // ---------- rows are recorded ----------

  /** Only rounds that have rows have something pending. */
  ghost predicate Recorded(p: Pending, rounds: set<int>) {
    forall r: int, d: PublicKey :: PendingAt(p, r, d) != 0 ==> r in rounds
  }

  ghost predicate AllRecorded(n: Node) {
    && Recorded(n.books.pending, n.rounds)
    && (n.snapshot.Some? ==> Recorded(n.snapshot.value.pending, n.snapshot.value.rounds))
  }

  lemma NoVotesNoNet(vs: seq<string>, d: PublicKey)
    requires vs == []
    ensures Net(vs, d) == 0 && Net(Reversed(vs), d) == 0
  {
  }

  lemma AccrueAt(p: Pending, round: int, ds: multiset<PublicKey>, x: int, r: int, d: PublicKey)
    ensures PendingAt(Accrue(p, round, ds, x), r, d) != PendingAt(p, r, d) ==> r == round && ds != multiset{}
  {
    if ds == multiset{} { assert x * ds[d] == 0; }
  }

  lemma AccrueVotesAt(p: Pending, round: int, balance: int, vs: seq<string>, r: int, d: PublicKey)
    ensures PendingAt(AccrueVotes(p, round, balance, vs), r, d) != PendingAt(p, r, d) ==> r == round && vs != []
  {
    hide Net;
    if vs == [] { NoVotesNoNet(vs, d); }
  }

  /** Whatever one transaction adds, done or undone, has its round recorded. */
  lemma TxRecordedAt(p: Pending, rounds: set<int>, round: int, conf: SideTable, tx: Transaction, r: int, d: PublicKey)
    requires Recorded(p, rounds)
    ensures PendingAt(CPending(p, round, conf, tx), r, d) != 0 ==> r in TxRounds(rounds, round, conf, tx)
    ensures PendingAt(UndoPending(p, round, conf, tx), r, d) != 0 ==> r in TxRounds(rounds, round, conf, tx)
  {
    hide Accrue, AccrueVotes, Row, Reversed, PendingAt;
    var s := Row(conf, tx.From());
    var up, down := Accrue(p, round, s.delegates, tx.Cost()), Accrue(p, round, s.delegates, -tx.Cost());
    AccrueAt(p, round, s.delegates, tx.Cost(), r, d);
    AccrueAt(p, round, s.delegates, -tx.Cost(), r, d);
    assert PendingAt(p, r, d) != 0 ==> r in rounds;
    match tx.asset
    case Send(a) =>
      AccrueAt(up, round, Row(conf, a).delegates, -tx.amount, r, d);
      AccrueAt(down, round, Row(conf, a).delegates, tx.amount, r, d);
    case Votes(vs) =>
      AccrueVotesAt(up, round, s.balance + tx.Cost(), Reversed(vs), r, d);
      AccrueVotesAt(down, round, s.balance - tx.Cost(), vs, r, d);
      NoneReversed(vs);
    case _ =>
  }

  lemma NoneReversed(vs: seq<string>)
    ensures Reversed(vs) == [] <==> vs == []
  {
  }

  lemma TxRecorded(p: Pending, rounds: set<int>, round: int, conf: SideTable, tx: Transaction)
    requires Recorded(p, rounds)
    ensures Recorded(CPending(p, round, conf, tx), TxRounds(rounds, round, conf, tx))
    ensures Recorded(UndoPending(p, round, conf, tx), TxRounds(rounds, round, conf, tx))
  {
    hide CPending, UndoPending, TxRounds, PendingAt;
    forall r: int, d: PublicKey { TxRecordedAt(p, rounds, round, conf, tx, r, d); }
  }

  lemma {:induction false} UAllRecorded(n: Node, txs: seq<Transaction>)
    ensures UAll(n, txs).node.books.pending == n.books.pending && UAll(n, txs).node.rounds == n.rounds
    ensures UAll(n, txs).node.snapshot == n.snapshot
  {
    hide UEffect, UAllowed;
    if txs != [] { UAllRecorded(n, txs[..|txs| - 1]); }
  }

  lemma {:induction false} CAllRecorded(n: Node, round: int, txs: seq<Transaction>)
    requires Recorded(n.books.pending, n.rounds)
    ensures var c := CAll(n, round, txs).node; Recorded(c.books.pending, c.rounds) && c.snapshot == n.snapshot
  {
    hide CEffect, CAllowed, CPending, TxRounds, Recorded;
    if txs != [] {
      var c := CAll(n, round, txs[..|txs| - 1]).node;
      CAllRecorded(n, round, txs[..|txs| - 1]);
      TxRecorded(c.books.pending, c.rounds, round, c.books.accts.conf, txs[|txs| - 1]);
    }
  }

  lemma {:induction false} UndoAllRecorded(n: Node, round: int, txs: seq<Transaction>)
    requires Recorded(n.books.pending, n.rounds)
    ensures var u := UndoAll(n, round, txs); Recorded(u.books.pending, u.rounds)
    decreases |txs|
  {
    hide UndoPair, UndoPending, TxRounds, Recorded;
    if txs != [] {
      TxRecorded(n.books.pending, n.rounds, round, n.books.accts.conf, txs[|txs| - 1]);
      UndoAllRecorded(UndoStep(n, round, txs[|txs| - 1]), round, txs[..|txs| - 1]);
    }
  }

  /** Payouts only touch their round, and that round is flushed. */
  lemma FlushRecorded(b: Books, rounds: set<int>, round: int, ps: seq<Payout>)
    requires Recorded(b.pending, rounds)
    ensures Recorded(Flush(PayAll(b, round, ps).pending, round), rounds - {round})
  {
    hide PayAll, Flush;
    forall r: int, d: PublicKey | PendingAt(Flush(PayAll(b, round, ps).pending, round), r, d) != 0
      ensures r in rounds - {round}
    {
      FlushAt(PayAll(b, round, ps).pending, round, r, d);
      if r != round { OtherRoundsOfPay(b, round, ps, r, d); }
    }
  }

  lemma FlushAt(p: Pending, round: int, r: int, d: PublicKey)
    ensures PendingAt(Flush(p, round), r, d) == if r == round then 0 else PendingAt(p, r, d)
  {
  }

  lemma TickRecorded(n: Node)
    requires |n.blocks| > 0 && AllRecorded(n)
    ensures AllRecorded(Tick(n))
  {
    hide PayAll, SumRound, ForwardPayouts, UpdateVotes, Flush, RewardRows, Row, Add, Recorded;
    var n1 := CountBlock(n, 1);
    var s := SumRound(n1.blocks);
    FlushRecorded(n1.books, n.rounds, CalcRound(|n1.blocks|), ForwardPayouts(s.delegates, s.rewards, s.fees));
  }

  lemma AddRecorded(p: Pending, q: Pending, a: set<int>, b: set<int>)
    requires Recorded(p, a) && Recorded(q, b)
    ensures Recorded(AddPending(p, q), a + b)
  {
    forall r: int, d: PublicKey
      ensures PendingAt(AddPending(p, q), r, d) == PendingAt(p, r, d) + PendingAt(q, r, d) { }
  }

  lemma BackwardRecorded(n: Node)
    requires |n.blocks| > 1 && AllRecorded(n)
    ensures AllRecorded(BackwardTick(n).node)
  {
    hide PayAll, SumRound, BackwardPayouts, Overwrite, Flush, AddPending, SelectOtherRounds, Row, Add, Recorded;
    var n1 := CountBlock(n, -1);
    var s, round := SumRound(n1.blocks), CalcRound(|n1.blocks|);
    var ps := BackwardPayouts(s.delegates, s.rewards, s.fees);
    FlushRecorded(n1.books, n.rounds, round, ps);
    if n.snapshot.Some? {
      AddRecorded(Flush(PayAll(n1.books, round, ps).pending, round), n.snapshot.value.pending, n.rounds - {round},
                  n.snapshot.value.rounds);
    }
  }

  lemma ApplyRecorded(n: Node, b: Block)
    requires AllRecorded(n)
    ensures AllRecorded(ApplyBlock(n, b).node)
  {
    hide UAll, CAll, Tick, Recorded;
    var round := CalcRound(|n.blocks| + 1);
    var u := UAll(n, b.transactions).node;
    UAllRecorded(n, b.transactions);
    CAllRecorded(u, round, b.transactions);
    TickRecorded(CAll(u, round, b.transactions).node.(blocks := n.blocks + [b]));
  }

  lemma PopRecorded(n: Node)
    requires |n.blocks| > 0 && AllRecorded(n)
    ensures AllRecorded(PopBlock(n).node)
  {
    hide UndoAll, BackwardTick, Recorded;
    if |n.blocks| > 1 {
      var round, txs := CalcRound(|n.blocks|), n.blocks[|n.blocks| - 1].transactions;
      UndoAllRecorded(n, round, txs);
      BackwardRecorded(UndoAll(n, round, txs));
    }
  }

  lemma {:induction false} RunRecorded(n0: Node, genesisKey: PublicKey, es: seq<Event>)
    requires Genesis(n0) && AllRecorded(n0)
    ensures |n0.blocks| > 0 && AllRecorded(Run(n0, genesisKey, es).node)
  {
    hide Genesis, ApplyBlock, PopBlock, BlockVerified, Recorded;
    GenesisBlock(n0);
    if es != [] {
      var t := Run(n0, genesisKey, es[..|es| - 1]);
      RunRecorded(n0, genesisKey, es[..|es| - 1]);
      match es[|es| - 1]
      case Extend(b) => ApplyRecorded(t.node, b);
      case Pop => PopRecorded(t.node);
    }
  }

  /** The genesis block leaves nothing pending. */
  lemma GenesisRecorded(b: Block)
    requires ApplyGenesis(b).ok && GenesisTypes(b.transactions)
    ensures AllRecorded(ApplyGenesis(b).node)
  {
    hide Genesis, ApplyGenesis, PendingSane, Recorded;
    GenesisHolds(b);
    StalePops.GenesisRow(b, OfKey(""));
    StalePops.FlushedRow(b);
    NothingRecorded(ApplyGenesis(b).node.books.pending, ApplyGenesis(b).node.rounds);
    GenesisNoSnapshot(ApplyGenesis(b).node);
  }

  lemma NothingRecorded(p: Pending, rounds: set<int>)
    requires forall r: int, d: PublicKey :: PendingAt(p, r, d) == 0
    ensures Recorded(p, rounds)
  {
  }

  lemma GenesisNoSnapshot(n: Node)
    requires Genesis(n)
    ensures n.snapshot == None
  {
    hide Settled, Tallied;
  }

  // ---------- what the pop leaves ----------

  /** Registration is for good. */
  lemma {:induction false} StaysRegistered(n0: Node, genesisKey: PublicKey, bs: seq<Block>, k: nat, a: Address)
    requires Genesis(n0) && Replayable(n0, genesisKey, bs) && k <= |bs|
    ensures |n0.blocks| == 1
    ensures Row(Replay(n0, bs[..k]).books.accts.conf, a).isDelegate ==>
              Row(Replay(n0, bs).books.accts.conf, a).isDelegate
    decreases |bs|
  {
    hide Genesis, BlockVerified, ApplyBlock, Settled, Tallied, Row;
    GenesisBlock(n0);
    if k == |bs| {
      assert bs[..k] == bs;
    } else {
      var pre, b := bs[..|bs| - 1], bs[|bs| - 1];
      assert pre[..k] == bs[..k];
      StaysRegistered(n0, genesisKey, pre, k, a);
      PreviousFacts(n0, genesisKey, bs);
      AppliedCounts(Replay(n0, pre), b, a);
    }
  }

  /** A pop of this kind leaves every account the votes it had at the block of the snapshot, and no rows of the round
      it goes back to. */
  lemma StaleVotesAre(t: Trace, n0: Node, genesisKey: PublicKey, d: PublicKey)
    requires TraceInv(t, n0, genesisKey) && SavedNear(t) && AtRoundEnd(t.node) && StaleEmpty(t)
    ensures |n0.blocks| == 1 && PopBlock(t.node).ok
    ensures var p, r := PopBlock(t.node).node, Replay(n0, t.saved.value);
            && Get(p.books.votes, OfKey(d)) == Get(r.books.votes, OfKey(d))
            && PendingAt(p.books.pending, NextRound(p), d) == 0
  {
    hide *;
    StaleFacts(t, n0, genesisKey);
    var c, sc := Chain(t.node), t.saved.value;
    var a, r, right := OfKey(d), Replay(n0, sc), Replay(n0, c[..|c| - 1]);
    StaleVotes(t, n0, genesisKey, a);
    SavedVotes(t.node.snapshot, r, a);
    PrefixOf(sc, c);
    ReplayFacts(n0, genesisKey, sc);
    ReplayFacts(n0, genesisKey, c[..|c| - 1]);
    StaysRegistered(n0, genesisKey, sc, |c| - 1, a);
    if !Row(r.books.accts.conf, a).isDelegate {
      NonDelegateVotes(r.books, NextRound(r), a);
      NonDelegateVotes(right.books, NextRound(right), a);
    }
    StalePending(t, n0, genesisKey, d);
  }

  lemma PrefixOf(sc: seq<Block>, c: seq<Block>)
    requires c != [] && |c| <= |sc| && sc[..|c|] == c
    ensures sc[..|c| - 1] == c[..|c| - 1]
  {
  }

  lemma StaleFacts(t: Trace, n0: Node, genesisKey: PublicKey)
    requires TraceInv(t, n0, genesisKey) && SavedNear(t) && AtRoundEnd(t.node) && StaleEmpty(t)
    ensures Genesis(n0) && |n0.blocks| == 1 && |t.node.blocks| > 1 && t.saved.Some? && t.node.snapshot.Some?
    ensures var c, sc := Chain(t.node), t.saved.value;
            && c != [] && |sc| == |c| + 100 && sc[..|c|] == c
            && Replayable(n0, genesisKey, sc) && Replayable(n0, genesisKey, c)
            && Replayable(n0, genesisKey, c[..|c| - 1])
            && SnapshotOf(t.node.snapshot, Replay(n0, sc)) && t.node.snapshot.value.rounds == {}
            && |t.node.blocks| == |c| + 1 && |t.node.blocks| % ACTIVE_DELEGATES == 0
  {
    hide Genesis, Replay, Replayable, SnapshotOf, RowsAhead;
    GenesisOne(t, n0, genesisKey);
    StaleChain(t, n0, genesisKey);
    ReplayablePrefix(n0, genesisKey, Chain(t.node), |Chain(t.node)| - 1);
  }

  lemma SavedVotes(snapshot: Option<Snapshot>, r: Node, a: Address)
    requires SnapshotOf(snapshot, r)
    ensures snapshot.Some? && (a in snapshot.value.votes <==> Row(r.books.accts.conf, a).isDelegate)
    ensures a in snapshot.value.votes ==> snapshot.value.votes[a] == Get(r.books.votes, a)
    ensures snapshot.value.pending == r.books.pending
  {
    hide Row;
  }

  /** The snapshot's rows are of its own, later, round. */
  lemma StalePending(t: Trace, n0: Node, genesisKey: PublicKey, d: PublicKey)
    requires TraceInv(t, n0, genesisKey) && SavedNear(t) && AtRoundEnd(t.node) && StaleEmpty(t)
    ensures var p := PopBlock(t.node).node; PendingAt(p.books.pending, NextRound(p), d) == 0
  {
    hide *;
    StaleFacts(t, n0, genesisKey);
    var c, sc := Chain(t.node), t.saved.value;
    var r, n := Replay(n0, sc), t.node;
    ReplayFacts(n0, genesisKey, sc);
    var txs := n.blocks[|n.blocks| - 1].transactions;
    StaleVotes(t, n0, genesisKey, OfKey(d));
    PopLands(n, d);
    SavedVotes(n.snapshot, r, OfKey(d));
    LaterOne(|r.blocks|, |n.blocks|);
    NextIs(r);
    OtherRoundIsEmpty(r.books, NextRound(r), CalcRound(|n.blocks|), d);
  }

  lemma NextIs(n: Node)
    ensures NextRound(n) == CalcRound(|n.blocks| + 1)
  {
  }

  lemma LaterOne(k: nat, h: nat)
    requires h > 1 && h % ACTIVE_DELEGATES == 0 && k == h + 100
    ensures CalcRound(k + 1) != CalcRound(h)
  {
  }

  lemma PopLands(n: Node, d: PublicKey)
    requires |n.blocks| > 1 && |n.blocks| % ACTIVE_DELEGATES == 0 && PopBlock(n).ok && n.snapshot.Some?
    ensures var p := PopBlock(n).node;
            && NextRound(p) == CalcRound(|n.blocks|)
            && PendingAt(p.books.pending, NextRound(p), d) ==
               PendingAt(n.snapshot.value.pending, CalcRound(|n.blocks|), d)
  {
    hide PopBlock, UndoAll, PayAll, Add, SumRound, BackwardPayouts, Overwrite;
    PopMatches(n, CalcRound(|n.blocks|), n.blocks[|n.blocks| - 1].transactions);
  }

  /** So after a pop that is not exact, in a run whose earlier pops were, the tally of a delegate is right if and only
      if its voters held at the block of the snapshot, less what was not counted in its votes yet, what they hold
      now. */
  lemma StaleTallyIff(n0: Node, genesisKey: PublicKey, es: seq<Event>, U: set<Address>, d: PublicKey)
    requires Genesis(n0) && NoStalePop(n0, genesisKey, es)
    requires AtRoundEnd(Run(n0, genesisKey, es).node) && StaleEmpty(Run(n0, genesisKey, es))
    requires Supports(U, Replay(n0, Run(n0, genesisKey, es).saved.value).books.accts.conf)
    ensures var t := Run(n0, genesisKey, es);
            var p, r := PopBlock(t.node).node, Replay(n0, t.saved.value);
            TallyAt(p.books, NextRound(p), U, d) <==>
            Backing(U, r.books.accts.conf, d) - PendingAt(r.books.pending, NextRound(r), d) ==
            Backing(U, p.books.accts.conf, d)
  {
    hide *;
    RunNear(n0, genesisKey, es);
    var t := Run(n0, genesisKey, es);
    StaleFacts(t, n0, genesisKey);
    var p, r := PopBlock(t.node).node, Replay(n0, t.saved.value);
    StaleVotesAre(t, n0, genesisKey, d);
    ReplayFacts(n0, genesisKey, t.saved.value);
    TallyIs(p.books, NextRound(p), U, d);
    TallyIs(r.books, NextRound(r), U, d);
    TalliedAt(r.books, NextRound(r), U, d);
  }

  lemma TallyIs(b: Books, round: int, U: set<Address>, d: PublicKey)
    ensures TallyAt(b, round, U, d) <==>
            Get(b.votes, OfKey(d)) + PendingAt(b.pending, round, d) == Backing(U, b.accts.conf, d)
  {
    hide Backing;
  }

  lemma TalliedAt(b: Books, round: int, U: set<Address>, d: PublicKey)
    requires Tallied(b, round) && Supports(U, b.accts.conf)
    ensures TallyAt(b, round, U, d)
  {
    hide TallyAt, Supports;
  }

  /** From an actual genesis block nothing is uncounted: the tally is right if and only if the voters hold now what
      they held then. */
  lemma StaleTallyFromGenesis(b: Block, genesisKey: PublicKey, es: seq<Event>, U: set<Address>, d: PublicKey)
    requires ApplyGenesis(b).ok && GenesisTypes(b.transactions)
    requires |ApplyGenesis(b).node.blocks| == 1 && NoStalePop(ApplyGenesis(b).node, genesisKey, es)
    requires var t := Run(ApplyGenesis(b).node, genesisKey, es);
             && AtRoundEnd(t.node) && StaleEmpty(t)
             && Supports(U, Replay(ApplyGenesis(b).node, t.saved.value).books.accts.conf)
    ensures var t := Run(ApplyGenesis(b).node, genesisKey, es);
            var p, r := PopBlock(t.node).node, Replay(ApplyGenesis(b).node, t.saved.value);
            TallyAt(p.books, NextRound(p), U, d) <==>
            Backing(U, r.books.accts.conf, d) == Backing(U, p.books.accts.conf, d)
  {
    hide *;
    var n0 := ApplyGenesis(b).node;
    GenesisHolds(b);
    GenesisRecorded(b);
    RunNear(n0, genesisKey, es);
    RunRecorded(n0, genesisKey, es);
    var t := Run(n0, genesisKey, es);
    StaleFacts(t, n0, genesisKey);
    var r := Replay(n0, t.saved.value);
    StaleTallyIff(n0, genesisKey, es, U, d);
    SavedVotes(t.node.snapshot, r, OfKey(d));
    NothingCounted(t.node, NextRound(r), d);
  }

  lemma NothingCounted(n: Node, round: int, d: PublicKey)
    requires AllRecorded(n) && n.snapshot.Some? && n.snapshot.value.rounds == {}
    ensures PendingAt(n.snapshot.value.pending, round, d) == 0
  {
    hide PendingAt;
  }
}
