/** Popping the block that was just applied restores the books, inside a round and at its end. */
module PopBlocks {
  import opened Base
  import opened Diff
  import opened Accounts
  import opened Tally
  import opened Payouts
  import opened Voting
  import opened Ledger
  import opened Rollback
  import opened Invariants
  import opened BlockRules

  // ---------- the undo pass ----------

  lemma {:induction false} UndoAllBooks(n: Node, round: int, txs: seq<Transaction>)
    ensures UndoAll(n, round, txs).books == BooksUndoFold(n.books, round, txs)
    ensures UndoAll(n, round, txs).flags == n.flags - GroupSenders(txs)
    ensures UndoAll(n, round, txs).rounds <= n.rounds + {round}
    decreases |txs|
  {
    hide UndoPair, UndoPending, Row;
    if txs == [] {
      assert n.flags - {} == n.flags;
    } else {
      var pre, tx := txs[..|txs| - 1], txs[|txs| - 1];
      UndoAllBooks(UndoStep(n, round, tx), round, pre);
      var g := if tx.asset.Multisignature? then {tx.From()} else {};
      assert UndoStep(n, round, tx).flags == n.flags - g;
      assert n.flags - g - GroupSenders(pre) == n.flags - (GroupSenders(pre) + g);
    }
  }

  /** The undo of the accounts does not look at votes or pending rows. */
  lemma {:induction false} UndoFoldAccts(b: Books, round: int, txs: seq<Transaction>)
    ensures BooksUndoFold(b, round, txs).accts == UndoFold(b.accts, txs)
    decreases |txs|
  {
    hide UndoPair, UndoPending;
    if txs != [] { UndoFoldAccts(BooksUndo(b, round, txs[|txs| - 1]), round, txs[..|txs| - 1]); }
  }

  ghost function WithProduced(b: Books, produced: Column): Books { b.(accts := b.accts.(produced := produced)) }

  lemma UndoProduced(b: Books, round: int, tx: Transaction, p: Column)
    ensures BooksUndo(WithProduced(b, p), round, tx) == WithProduced(BooksUndo(b, round, tx), p)
  {
    hide Untouch, Uncredit, UndoPending;
  }

  lemma {:induction false} UndoFoldProduced(b: Books, round: int, txs: seq<Transaction>, p: Column)
    ensures BooksUndoFold(WithProduced(b, p), round, txs) == WithProduced(BooksUndoFold(b, round, txs), p)
    decreases |txs|
  {
    hide BooksUndo;
    if txs != [] {
      var pre, tx := txs[..|txs| - 1], txs[|txs| - 1];
      UndoProduced(b, round, tx, p);
      UndoFoldProduced(BooksUndo(b, round, tx), round, pre, p);
    }
  }

  lemma {:induction false} UndoFoldPayAll(s: Accts, txs: seq<Transaction>, ps: seq<Payout>)
    ensures UndoFold(PayAccts(s, ps), txs) == PayAccts(UndoFold(s, txs), ps)
  {
    hide Pay, UndoFold;
    if ps != [] {
      var n := |ps| - 1;
      var p := ps[n];
      UndoFoldPayAll(s, txs, ps[..n]);
      UndoFoldPay(PayAccts(s, ps[..n]), txs, OfKey(p.to), p.fee, p.reward);
    }
  }

  // ---------- inside a round ----------

  ghost function Applied(n: Node, b: Block): Node { ApplyBlock(n, b).node }

  lemma GroupsWereFree(n: Node, txs: seq<Transaction>)
    requires UAll(n, txs).ok
    ensures n.flags - GroupSenders(txs) == n.flags
  {
    forall a | a in GroupSenders(txs) ensures a !in n.flags {
      GroupSenderAt(txs, a);
      var k :| 0 <= k < |txs| && txs[k].asset.Multisignature? && txs[k].From() == a;
      UAllPrefix(n, txs, k);
    }
  }

  lemma {:induction false} GroupSenderAt(txs: seq<Transaction>, a: Address)
    requires a in GroupSenders(txs)
    ensures exists k :: 0 <= k < |txs| && txs[k].asset.Multisignature? && txs[k].From() == a
  {
    var pre, tx := txs[..|txs| - 1], txs[|txs| - 1];
    if a in GroupSenders(pre) {
      GroupSenderAt(pre, a);
      var k :| 0 <= k < |pre| && pre[k].asset.Multisignature? && pre[k].From() == a;
      assert txs[k] == pre[k];
    } else {
      assert txs[|txs| - 1].asset.Multisignature? && txs[|txs| - 1].From() == a;
    }
  }

  /** Undo of the transactions on the books a block left, whatever the block counter reads. */
  lemma UndoneBooks(n: Node, genesisKey: PublicKey, b: Block, p: Column)
    requires BlockVerified(n, genesisKey, b) && ApplyBlock(n, b).ok
    requires Settled(n.books, CalcRound(|n.blocks| + 1))
    ensures var round := CalcRound(|n.blocks| + 1);
            BooksUndoFold(WithProduced(BooksFold(n.books, round, b.transactions), p), round, b.transactions) ==
            WithProduced(n.books, p)
  {
    hide BooksFold, BooksUndoFold, Settled, BlockVerified, ApplyBlock, RunOk;
    var round := CalcRound(|n.blocks| + 1);
    VerifiedRunOk(n, genesisKey, b);
    FoldInverse(n.books, round, b.transactions);
    UndoFoldProduced(BooksFold(n.books, round, b.transactions), round, b.transactions, p);
  }

  lemma PopInsideRound(n: Node, genesisKey: PublicKey, b: Block)
    requires |n.blocks| > 0 && BlockVerified(n, genesisKey, b) && ApplyBlock(n, b).ok
    requires Settled(n.books, CalcRound(|n.blocks| + 1))
    requires !Finishes(|n.blocks| + 1)
    ensures var p := PopBlock(Applied(n, b));
            && p.ok && p.node.books == n.books && p.node.blocks == n.blocks
            && p.node.flags == n.flags && p.node.rewardRows == n.rewardRows
  {
    hide BooksFold, BooksUndoFold, Settled, BlockVerified, RunOk, UAll, CAll, UndoAll, TakeSnapshot, Add;
    var h, txs := |n.blocks| + 1, b.transactions;
    var round, a := CalcRound(h), Applied(n, b);
    var g := OfKey(b.generator);
    ApplyIsFold(n, b);
    var c := CAll(UAll(n, txs).node, round, txs).node;
    var produced := Add(c.books.accts.produced, g, 1);
    BooksFoldAccts(n.books, round, txs);
    PairFoldProduced(n.books.accts, txs);
    assert a.blocks == n.blocks + [b];
    assert a.books == WithProduced(BooksFold(n.books, round, txs), produced);
    var undone := UndoAll(a, round, txs);
    UndoAllBooks(a, round, txs);
    UndoneBooks(n, genesisKey, b, produced);
    assert undone.books == WithProduced(n.books, produced);
    GroupsWereFree(n, txs);
    assert (n.flags - GroupSenders(txs)) - GroupSenders(txs) == n.flags;
    SettledProduced(n.books, round, g);
    assert CountBlock(undone, -1).books == n.books;
    assert a.blocks[..h - 1] == n.blocks;
  }

  lemma {:induction false} PairFoldProduced(s: Accts, txs: seq<Transaction>)
    ensures PairFold(s, txs).produced == s.produced
    ensures PairFold(s, txs).fees == s.fees && PairFold(s, txs).rewards == s.rewards
  {
    hide Touch, Credit;
    if txs != [] { PairFoldProduced(s, txs[..|txs| - 1]); }
  }

  lemma SettledProduced(b: Books, round: int, g: Address)
    requires Settled(b, round)
    ensures Add(Add(b.accts.produced, g, 1), g, -1) == b.accts.produced
  {
    hide RowSane, PendingSane;
    AddAdd(b.accts.produced, g, 1, g, 1);
  }

  // ---------- at the end of a round ----------

  /** The snapshot was taken from exactly these books: what tick leaves one block before the end. */
  ghost predicate SnapshotOf(snapshot: Option<Snapshot>, n: Node) {
    && snapshot.Some?
    && snapshot.value.pending == n.books.pending
    && snapshot.value.votes == TakeSnapshot(n).votes
    && snapshot.value.produced == TakeSnapshot(n).produced
  }

  predicate Registers(txs: seq<Transaction>, a: Address) {
    exists i :: 0 <= i < |txs| && txs[i].asset.Registration? && txs[i].From() == a
  }

  lemma RegistersStep(txs: seq<Transaction>, a: Address)
    requires txs != []
    ensures Registers(txs, a) <==>
            Registers(txs[..|txs| - 1], a) || (txs[|txs| - 1].asset.Registration? && txs[|txs| - 1].From() == a)
  {
    var pre := txs[..|txs| - 1];
    if i :| 0 <= i < |pre| && pre[i].asset.Registration? && pre[i].From() == a {
      assert txs[i] == pre[i];
    }
    if i :| 0 <= i < |txs| && txs[i].asset.Registration? && txs[i].From() == a {
      if i < |pre| { assert pre[i] == txs[i]; }
    }
  }

  lemma {:induction false} VotesOfUndo(b: Books, round: int, txs: seq<Transaction>, a: Address)
    ensures Get(BooksUndoFold(b, round, txs).votes, a) == if Registers(txs, a) then 0 else Get(b.votes, a)
    decreases |txs|
  {
    hide UndoPair, UndoPending, Registers;
    if txs != [] {
      RegistersStep(txs, a);
      VotesOfUndo(BooksUndo(b, round, txs[|txs| - 1]), round, txs[..|txs| - 1], a);
    } else {
      assert !Registers(txs, a) by { NobodyRegisters(a); }
    }
  }

  lemma NobodyRegisters(a: Address)
    ensures !Registers([], a)
  {
  }

  lemma {:induction false} VotesOfFold(b: Books, round: int, txs: seq<Transaction>, a: Address)
    ensures Get(BooksFold(b, round, txs).votes, a) == if Registers(txs, a) then 0 else Get(b.votes, a)
    ensures Row(BooksFold(b, round, txs).accts.conf, a).isDelegate <==>
            Row(b.accts.conf, a).isDelegate || Registers(txs, a)
  {
    hide Pair, CPending, Registers, Row, Touched;
    if txs != [] {
      var pre, tx := txs[..|txs| - 1], txs[|txs| - 1];
      RegistersStep(txs, a);
      VotesOfFold(b, round, pre, a);
      var mid := BooksFold(b, round, pre).accts;
      PairConf(mid, tx);
      assert Pair(mid, tx).conf == Moved(mid.conf, tx);
      MovedRow(mid.conf, tx, a);
      TouchedFields(Row(mid.conf, a), tx);
    } else {
      NobodyRegisters(a);
    }
  }

  lemma {:induction false} OtherRoundsOfFold(b: Books, round: int, txs: seq<Transaction>, r: int, d: PublicKey)
    requires r != round
    ensures PendingAt(BooksFold(b, round, txs).pending, r, d) == PendingAt(b.pending, r, d)
  {
    hide Pair, CPending, ResetVote;
    if txs != [] {
      var pre, tx := txs[..|txs| - 1], txs[|txs| - 1];
      OtherRoundsOfFold(b, round, pre, r, d);
      var mid := BooksFold(b, round, pre);
      DeltaOf(mid.pending, round, mid.accts.conf, tx, r, d);
    }
  }

  lemma {:induction false} OtherRoundsOfUndo(b: Books, round: int, txs: seq<Transaction>, r: int, d: PublicKey)
    requires r != round
    ensures PendingAt(BooksUndoFold(b, round, txs).pending, r, d) == PendingAt(b.pending, r, d)
    decreases |txs|
  {
    hide UndoPair, UndoPending, ResetVote;
    if txs != [] {
      var pre, tx := txs[..|txs| - 1], txs[|txs| - 1];
      DeltaOf(b.pending, round, b.accts.conf, tx, r, d);
      OtherRoundsOfUndo(BooksUndo(b, round, tx), round, pre, r, d);
    }
  }

  lemma {:induction false} OtherRoundsOfPay(b: Books, round: int, ps: seq<Payout>, r: int, d: PublicKey)
    requires r != round
    ensures PendingAt(PayAll(b, round, ps).pending, r, d) == PendingAt(b.pending, r, d)
  {
    hide Pay, Row;
    if ps != [] { OtherRoundsOfPay(b, round, ps[..|ps| - 1], r, d); }
  }

  /** A key nobody votes for gets no rows from payouts. */
  lemma {:induction false} PayUnvoted(b: Books, round: int, ps: seq<Payout>, d: PublicKey)
    requires forall a: Address :: d !in Row(b.accts.conf, a).delegates
    ensures PendingAt(PayAll(b, round, ps).pending, round, d) == PendingAt(b.pending, round, d)
  {
    hide Pay, Row, PendingAt, Accrue;
    if ps != [] {
      var n := |ps| - 1;
      PayUnvoted(b, round, ps[..n], d);
      var mid, a := PayAll(b, round, ps[..n]), OfKey(ps[n].to);
      PayAllAccts(b, round, ps[..n]);
      PayAcctsRow(b.accts, ps[..n], a);
      assert d !in Row(b.accts.conf, a).delegates;
      AccrueAt(mid.pending, round, Row(mid.accts.conf, a).delegates, ps[n].fee + ps[n].reward, 0, [], round, d);
    }
  }

  lemma {:induction false} PayAcctsProduced(s: Accts, ps: seq<Payout>, q: Column)
    ensures PayAccts(s.(produced := q), ps) == PayAccts(s, ps).(produced := q)
  {
    hide Bump, Add;
    if ps != [] { PayAcctsProduced(s, ps[..|ps| - 1], q); }
  }

  /** The books a block leaves at the end of its round, and what is left of them after the undo
      pass and the backward payouts, before the snapshot is written back. */
  ghost function PaidBooks(n: Node, b: Block): Books {
    var round, s := CalcRound(|n.blocks| + 1), SumRound(n.blocks + [b]);
    var c := BooksFold(n.books, round, b.transactions);
    PayAll(WithProduced(c, Add(c.accts.produced, OfKey(b.generator), 1)), round,
           ForwardPayouts(s.delegates, s.rewards, s.fees))
  }

  ghost function LandedBooks(n: Node, b: Block): Books {
    var round, paid := CalcRound(|n.blocks| + 1), PaidBooks(n, b);
    Books(paid.accts, UpdateVotes(paid.votes, paid.pending, round), Flush(paid.pending, round))
  }

  ghost function TakenBack(n: Node, b: Block): Books {
    var round, s := CalcRound(|n.blocks| + 1), SumRound(n.blocks + [b]);
    var u := BooksUndoFold(LandedBooks(n, b), round, b.transactions);
    PayAll(WithProduced(u, Add(u.accts.produced, OfKey(b.generator), -1)), round,
           BackwardPayouts(s.delegates, s.rewards, s.fees))
  }

  lemma AppliedAtEnd(n: Node, b: Block)
    requires |n.blocks| > 0 && ApplyBlock(n, b).ok && (|n.blocks| + 1) % ACTIVE_DELEGATES == 0
    ensures var a := Applied(n, b);
            && a.books == LandedBooks(n, b) && a.blocks == n.blocks + [b] && a.snapshot == n.snapshot
            && a.rewardRows == n.rewardRows + RewardRows(b.timestamp, CalcRound(|n.blocks| + 1),
                 SumRound(n.blocks + [b]).delegates, SumRound(n.blocks + [b]).rewards, SumRound(n.blocks + [b]).fees)
            && a.flags == n.flags - GroupSenders(b.transactions)
  {
    hide BooksFold, UAll, CAll, TakeSnapshot, Add, PayAll, UpdateVotes, Flush, RewardRows, ApplyBlock, SumRound;
    ApplyIsFold(n, b);
  }

  /** The accounts come back exactly: the undo pass slides below the payouts, which then cancel. */
  lemma TakenBackAccts(n: Node, genesisKey: PublicKey, b: Block)
    requires |n.blocks| > 0 && BlockVerified(n, genesisKey, b) && ApplyBlock(n, b).ok
    requires Settled(n.books, CalcRound(|n.blocks| + 1))
    ensures TakenBack(n, b).accts == n.books.accts
  {
    hide BooksFold, BooksUndoFold, Settled, BlockVerified, ApplyBlock, SumRound, ForwardPayouts, BackwardPayouts,
         PayAll, UndoFold, PayAccts, Add, PaidBooks;
    var round, s, txs := CalcRound(|n.blocks| + 1), SumRound(n.blocks + [b]), b.transactions;
    var g := OfKey(b.generator);
    var F := ForwardPayouts(s.delegates, s.rewards, s.fees);
    var c := BooksFold(n.books, round, txs);
    var c2 := WithProduced(c, Add(c.accts.produced, g, 1));
    var landed := LandedBooks(n, b);
    assert landed.accts == PayAccts(c2.accts, F) by { PaidAccts(n, b); }
    UndoFoldAccts(landed, round, txs);
    UndoFoldPayAll(c2.accts, txs, F);
    UndoFoldAccts(c2, round, txs);
    UndoneBooks(n, genesisKey, b, c2.accts.produced);
    var base := n.books.accts.(produced := c2.accts.produced);
    var u := BooksUndoFold(landed, round, txs);
    assert u.accts == PayAccts(base, F);
    BooksFoldAccts(n.books, round, txs);
    PairFoldProduced(n.books.accts, txs);
    SettledProduced(n.books, round, g);
    PayAcctsRow(base, F, g);
    PayAcctsProduced(base, F, n.books.accts.produced);
    var u1 := WithProduced(u, Add(u.accts.produced, g, -1));
    assert base.(produced := n.books.accts.produced) == n.books.accts;
    assert u1.accts == PayAccts(n.books.accts, F);
    PayAllAccts(u1, round, BackwardPayouts(s.delegates, s.rewards, s.fees));
    SettledWf(n.books, round);
    BackwardUndoesForward(n.books.accts, s.delegates, s.rewards, s.fees);
  }

  lemma PaidAccts(n: Node, b: Block)
    ensures var round, s := CalcRound(|n.blocks| + 1), SumRound(n.blocks + [b]);
            var c := BooksFold(n.books, round, b.transactions);
            && PaidBooks(n, b).accts == PayAccts(c.accts.(produced := Add(c.accts.produced, OfKey(b.generator), 1)),
                                                 ForwardPayouts(s.delegates, s.rewards, s.fees))
            && PaidBooks(n, b).votes == c.votes
  {
    hide BooksFold, SumRound, ForwardPayouts, PayAll, PayAccts, Add;
    var round, s := CalcRound(|n.blocks| + 1), SumRound(n.blocks + [b]);
    var c := BooksFold(n.books, round, b.transactions);
    PayAllAccts(WithProduced(c, Add(c.accts.produced, OfKey(b.generator), 1)), round,
                ForwardPayouts(s.delegates, s.rewards, s.fees));
  }

  lemma SettledWf(b: Books, round: int)
    requires Settled(b, round)
    ensures b.accts.Wf()
  {
    hide RowSane, PendingSane;
  }

  /** An account that was not a delegate before the block has no vote weight after the undo pass. */
  lemma TakenBackVotes(n: Node, genesisKey: PublicKey, b: Block, a: Address)
    requires |n.blocks| > 0 && BlockVerified(n, genesisKey, b) && ApplyBlock(n, b).ok
    requires Settled(n.books, CalcRound(|n.blocks| + 1))
    requires !Row(n.books.accts.conf, a).isDelegate
    ensures Get(TakenBack(n, b).votes, a) == 0
  {
    hide BooksFold, BooksUndoFold, Settled, BlockVerified, ApplyBlock, SumRound, ForwardPayouts, BackwardPayouts,
         PayAll, Add, Registers, RunOk;
    var round, s, txs := CalcRound(|n.blocks| + 1), SumRound(n.blocks + [b]), b.transactions;
    var c := BooksFold(n.books, round, txs);
    var landed := LandedBooks(n, b);
    var u := BooksUndoFold(landed, round, txs);
    PayAllAccts(WithProduced(u, Add(u.accts.produced, OfKey(b.generator), -1)), round,
                BackwardPayouts(s.delegates, s.rewards, s.fees));
    VotesOfUndo(landed, round, txs, a);
    if !Registers(txs, a) {
      VotesOfFold(n.books, round, txs, a);
      SettledAt(n.books, round, a);
      VerifiedRunOk(n, genesisKey, b);
      FoldKeeps(n.books, round, txs);
      PaidAccts(n, b);
      if a.OfKey? { UnvotedLanding(n, b, a.key); }
    }
  }

  lemma SettledAt(b: Books, round: int, a: Address)
    requires Settled(b, round)
    ensures RowSane(b, a)
  {
    hide RowSane, PendingSane;
  }

  lemma UnvotedLanding(n: Node, b: Block, d: PublicKey)
    requires var round := CalcRound(|n.blocks| + 1);
             var c := BooksFold(n.books, round, b.transactions);
             Settled(c, round) && !Row(c.accts.conf, OfKey(d)).isDelegate
    ensures PendingAt(PaidBooks(n, b).pending, CalcRound(|n.blocks| + 1), d) == 0
  {
    hide BooksFold, SumRound, ForwardPayouts, PayAll, Add;
    var round, s := CalcRound(|n.blocks| + 1), SumRound(n.blocks + [b]);
    var c := BooksFold(n.books, round, b.transactions);
    var c2 := WithProduced(c, Add(c.accts.produced, OfKey(b.generator), 1));
    forall a: Address ensures d !in Row(c2.accts.conf, a).delegates {
      assert RowSane(c, a);
    }
    PayUnvoted(c2, round, ForwardPayouts(s.delegates, s.rewards, s.fees), d);
    assert PendingSane(c, round, round, d);
  }

  lemma TakenBackOtherRounds(n: Node, b: Block, r: int, d: PublicKey)
    requires |n.blocks| > 0 && r != CalcRound(|n.blocks| + 1)
    ensures PendingAt(TakenBack(n, b).pending, r, d) == PendingAt(n.books.pending, r, d)
  {
    hide BooksFold, BooksUndoFold, SumRound, ForwardPayouts, BackwardPayouts, PayAll, Add;
    var round, s, txs := CalcRound(|n.blocks| + 1), SumRound(n.blocks + [b]), b.transactions;
    var c := BooksFold(n.books, round, txs);
    var c2 := WithProduced(c, Add(c.accts.produced, OfKey(b.generator), 1));
    var landed := LandedBooks(n, b);
    var u := BooksUndoFold(landed, round, txs);
    OtherRoundsOfFold(n.books, round, txs, r, d);
    OtherRoundsOfPay(c2, round, ForwardPayouts(s.delegates, s.rewards, s.fees), r, d);
    OtherRoundsOfUndo(landed, round, txs, r, d);
    OtherRoundsOfPay(WithProduced(u, Add(u.accts.produced, OfKey(b.generator), -1)), round,
                     BackwardPayouts(s.delegates, s.rewards, s.fees), r, d);
  }

  /** backwardLand's restore on top of what the undo and the backward payouts left. */
  ghost function Restored(t: Books, round: int, snap: Snapshot): Books {
    Books(t.accts.(produced := Overwrite(t.accts.produced, snap.produced)),
          Overwrite(t.votes, snap.votes),
          AddPending(Flush(t.pending, round), snap.pending))
  }

  lemma RestoredExactly(n: Node, genesisKey: PublicKey, b: Block, snapshot: Option<Snapshot>)
    requires |n.blocks| > 0 && BlockVerified(n, genesisKey, b) && ApplyBlock(n, b).ok
    requires Settled(n.books, CalcRound(|n.blocks| + 1))
    requires SnapshotOf(snapshot, n)
    ensures Restored(TakenBack(n, b), CalcRound(|n.blocks| + 1), snapshot.value) == n.books
  {
    hide TakenBack, BlockVerified, ApplyBlock, RowSane, PendingSane, Row, Overwrite, AddPending, Flush, Settled,
         SnapshotOf;
    TakenBackAccts(n, genesisKey, b);
    RestoredProduced(n, snapshot);
    RestoredVotes(n, genesisKey, b, snapshot);
    RestoredPending(n, genesisKey, b, snapshot);
  }

  lemma RestoredProduced(n: Node, snapshot: Option<Snapshot>)
    requires Settled(n.books, CalcRound(|n.blocks| + 1)) && SnapshotOf(snapshot, n)
    ensures Overwrite(n.books.accts.produced, snapshot.value.produced) == n.books.accts.produced
  {
    hide RowSane, PendingSane, Row;
  }

  lemma RestoredVotes(n: Node, genesisKey: PublicKey, b: Block, snapshot: Option<Snapshot>)
    requires |n.blocks| > 0 && BlockVerified(n, genesisKey, b) && ApplyBlock(n, b).ok
    requires Settled(n.books, CalcRound(|n.blocks| + 1)) && SnapshotOf(snapshot, n)
    ensures Overwrite(TakenBack(n, b).votes, snapshot.value.votes) == n.books.votes
  {
    hide TakenBack, BlockVerified, ApplyBlock, RowSane, PendingSane, Row;
    var round, t, saved := CalcRound(|n.blocks| + 1), TakenBack(n, b), snapshot.value.votes;
    assert Full(n.books.votes);
    var r := Overwrite(t.votes, saved);
    forall a: Address ensures a in r && a in n.books.votes && r[a] == n.books.votes[a] {
      if a !in saved {
        TakenBackVotes(n, genesisKey, b, a);
        NonDelegateVotes(n.books, round, a);
      }
    }
  }

  lemma RestoredPending(n: Node, genesisKey: PublicKey, b: Block, snapshot: Option<Snapshot>)
    requires |n.blocks| > 0 && BlockVerified(n, genesisKey, b) && ApplyBlock(n, b).ok
    requires Settled(n.books, CalcRound(|n.blocks| + 1)) && SnapshotOf(snapshot, n)
    ensures AddPending(Flush(TakenBack(n, b).pending, CalcRound(|n.blocks| + 1)),
            snapshot.value.pending) == n.books.pending
  {
    var round := CalcRound(|n.blocks| + 1);
    assert FullPending(n.books.pending) && snapshot.value.pending == n.books.pending;
    hide TakenBack, BlockVerified, ApplyBlock, Settled, SnapshotOf;
    var t := TakenBack(n, b);
    var r := AddPending(Flush(t.pending, round), snapshot.value.pending);
    forall k: (int, PublicKey) ensures PendingAt(r, k.0, k.1) == PendingAt(n.books.pending, k.0, k.1) {
      assert PendingAt(r, k.0, k.1) == PendingAt(Flush(t.pending, round), k.0, k.1) + PendingAt(n.books.pending, k.0,
              k.1);
      if k.0 != round {
        TakenBackOtherRounds(n, b, k.0, k.1);
        OtherRoundIsEmpty(n.books, round, k.0, k.1);
      }
    }
    SamePending(r, n.books.pending);
  }

  lemma SamePending(p: Pending, q: Pending)
    requires FullPending(p) && FullPending(q)
    requires forall k: (int, PublicKey) :: PendingAt(p, k.0, k.1) == PendingAt(q, k.0, k.1)
    ensures p == q
  {
    forall k: (int, PublicKey) ensures p[k] == q[k] {
      assert PendingAt(p, k.0, k.1) == PendingAt(q, k.0, k.1);
      assert k == (k.0, k.1);
    }
  }

  lemma NonDelegateVotes(b: Books, round: int, a: Address)
    requires Settled(b, round) && !Row(b.accts.conf, a).isDelegate
    ensures Get(b.votes, a) == 0
  {
    assert RowSane(b, a);
  }

  lemma OtherRoundIsEmpty(b: Books, round: int, r: int, d: PublicKey)
    requires Settled(b, round) && r != round
    ensures PendingAt(b.pending, r, d) == 0
  {
    assert PendingSane(b, round, r, d);
  }

  /** Popping the last block of a round, with the snapshot taken one block earlier, restores the
      books; the reward rows of the round are deleted. */
  lemma PopAtRoundEnd(n: Node, genesisKey: PublicKey, b: Block)
    requires |n.blocks| > 0 && BlockVerified(n, genesisKey, b) && ApplyBlock(n, b).ok
    requires Settled(n.books, CalcRound(|n.blocks| + 1))
    requires (|n.blocks| + 1) % ACTIVE_DELEGATES == 0
    requires SnapshotOf(n.snapshot, n) && SnapshotAvailable(n.snapshot, CalcRound(|n.blocks| + 1))
    ensures var p := PopBlock(Applied(n, b));
            && p.ok && p.node.books == n.books && p.node.blocks == n.blocks && p.node.flags == n.flags
            && p.node.rewardRows == SelectOtherRounds(n.rewardRows, CalcRound(|n.blocks| + 1))
  {
    var round, txs := CalcRound(|n.blocks| + 1), b.transactions;
    assert UAll(n, txs).ok;
    GroupsWereFree(n, txs);
    hide Settled, BlockVerified, ApplyBlock, SumRound, UndoAll, Restored, TakenBack, SnapshotAvailable, SnapshotOf,
         PopBlock, RewardRows, LandedBooks;
    var a := Applied(n, b);
    AppliedAtEnd(n, b);
    UndoAllBooks(a, round, txs);
    PopMatches(a, round, txs);
    TakenBackIs(n, b);
    RestoredExactly(n, genesisKey, b, n.snapshot);
    assert a.blocks[..|a.blocks| - 1] == n.blocks;
    assert (n.flags - GroupSenders(txs)) - GroupSenders(txs) == n.flags;
    var s := SumRound(a.blocks);
    OwnRows(b.timestamp, round, s);
    OwnRowsGo(n.rewardRows, RewardRows(b.timestamp, round, s.delegates, s.rewards, s.fees), round);
  }

  lemma OwnRows(timestamp: int, round: int, s: RoundSum)
    requires |s.rewards| == |s.delegates|
    ensures forall i :: 0 <= i < |s.delegates| ==>
              RewardRows(timestamp, round, s.delegates, s.rewards, s.fees)[i].round == round
  {
  }

  lemma TakenBackIs(n: Node, b: Block)
    ensures var round, s := CalcRound(|n.blocks| + 1), SumRound(n.blocks + [b]);
            var u := BooksUndoFold(LandedBooks(n, b), round, b.transactions);
            TakenBack(n, b) ==
              PayAll(WithProduced(u, Add(u.accts.produced,
                                         OfKey((n.blocks + [b])[|n.blocks + [b]| - 1].generator), -1)),
                     round, BackwardPayouts(s.delegates, s.rewards, s.fees))
  {
  }

  /** What popBlock computes at the end of a round, spelled out. */
  lemma PopMatches(a: Node, round: nat, txs: seq<Transaction>)
    requires |a.blocks| > 1 && |a.blocks| % ACTIVE_DELEGATES == 0 && round == CalcRound(|a.blocks|)
    requires txs == a.blocks[|a.blocks| - 1].transactions
    ensures PopBlock(a).ok <==> SnapshotAvailable(a.snapshot, round)
    ensures PopBlock(a).ok ==>
              var s, u := SumRound(a.blocks), UndoAll(a, round, txs);
              var t := PayAll(WithProduced(u.books, Add(u.books.accts.produced,
                  OfKey(a.blocks[|a.blocks| - 1].generator), -1)),
                              round, BackwardPayouts(s.delegates, s.rewards, s.fees));
              && PopBlock(a).node.books == Restored(t, round, a.snapshot.value)
              && PopBlock(a).node.blocks == a.blocks[..|a.blocks| - 1]
              && PopBlock(a).node.flags == u.flags
              && PopBlock(a).node.snapshot == a.snapshot
              && PopBlock(a).node.rounds == u.rounds - {round} + a.snapshot.value.rounds
              && PopBlock(a).node.rewardRows == SelectOtherRounds(a.rewardRows, round)
    ensures !PopBlock(a).ok ==> PopBlock(a).node == a.(flags := UndoAll(a, round, txs).flags)
  {
    hide SumRound, UndoAll, PayAll, Add, BackwardPayouts, Overwrite, AddPending, Flush;
  }

  lemma {:induction false} OwnRowsGo(rows: seq<RewardRow>, own: seq<RewardRow>, round: int)
    requires forall i :: 0 <= i < |own| ==> own[i].round == round
    ensures SelectOtherRounds(rows + own, round) == SelectOtherRounds(rows, round)
  {
    if own == [] {
      assert rows + own == rows;
    } else {
      assert (rows + own)[..|rows + own| - 1] == rows + own[..|own| - 1];
      OwnRowsGo(rows, own[..|own| - 1], round);
    }
  }
}
