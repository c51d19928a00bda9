/** A verified block that goes through: every transaction meets its conditions where it is applied. */
module BlockRules {
  import opened Base
  import opened Diff
  import opened Accounts
  import opened Tally
  import opened Payouts
  import opened Voting
  import opened Ledger
  import opened Rollback
  import opened Invariants

  /** Every prefix of the transactions, done whole, leads to books in which the next one is fine. */
  ghost predicate RunOk(b: Books, round: int, txs: seq<Transaction>) {
    forall k :: 0 <= k < |txs| ==> TxOk(BooksFold(b, round, txs[..k]), txs[k])
  }

  lemma RunOkPrefix(b: Books, round: int, txs: seq<Transaction>)
    requires RunOk(b, round, txs) && txs != []
    ensures RunOk(b, round, txs[..|txs| - 1])
    ensures TxOk(BooksFold(b, round, txs[..|txs| - 1]), txs[|txs| - 1])
    ensures TxShape(BooksFold(b, round, txs[..|txs| - 1]), txs[|txs| - 1])
  {
    hide TxShape, BooksFold, Row;
    var pre := txs[..|txs| - 1];
    forall k | 0 <= k < |pre| ensures TxOk(BooksFold(b, round, pre[..k]), pre[k]) {
      assert pre[..k] == txs[..k] && pre[k] == txs[k];
    }
  }

  lemma {:induction false} FoldKeeps(b: Books, round: int, txs: seq<Transaction>)
    requires Settled(b, round) && RunOk(b, round, txs)
    ensures Settled(BooksFold(b, round, txs), round)
    ensures Tallied(b, round) ==> Tallied(BooksFold(b, round, txs), round)
  {
    hide Settled, Tallied, TxOk, TxShape, BooksPair, RunOk;
    if txs != [] {
      RunOkPrefix(b, round, txs);
      var pre, tx := txs[..|txs| - 1], txs[|txs| - 1];
      FoldKeeps(b, round, pre);
      PairKeepsSettled(BooksFold(b, round, pre), round, tx);
      if Tallied(b, round) { PairKeepsTallied(BooksFold(b, round, pre), round, tx); }
    }
  }

  /** Undoing the transactions last to first gives back the books from before the first. */
  lemma {:induction false} FoldInverse(b: Books, round: int, txs: seq<Transaction>)
    requires Settled(b, round) && RunOk(b, round, txs)
    ensures BooksUndoFold(BooksFold(b, round, txs), round, txs) == b
  {
    hide Settled, Tallied, TxOk, TxShape, BooksPair, BooksUndo, RunOk;
    if txs != [] {
      RunOkPrefix(b, round, txs);
      var pre, tx := txs[..|txs| - 1], txs[|txs| - 1];
      FoldKeeps(b, round, pre);
      PairInverse(BooksFold(b, round, pre), round, tx);
      FoldInverse(b, round, pre);
    }
  }

  // ---------- the checks of a block give RunOk ----------

  /** No transaction of the list registers a group for `a`. */
  ghost predicate NoGroupFor(txs: seq<Transaction>, a: Address) {
    forall i :: 0 <= i < |txs| && txs[i].asset.Multisignature? ==> txs[i].From() != a
  }

  lemma {:induction false} GroupUntouched(s: Accts, txs: seq<Transaction>, a: Address)
    requires NoGroupFor(txs, a)
    ensures Row(PairFold(s, txs).conf, a).multisignatures == Row(s.conf, a).multisignatures
  {
    hide Touched, Pair, Row;
    if txs != [] {
      var pre, tx := txs[..|txs| - 1], txs[|txs| - 1];
      assert forall i :: 0 <= i < |pre| ==> pre[i] == txs[i];
      GroupUntouched(s, pre, a);
      var mid := PairFold(s, pre);
      PairConf(mid, tx);
      assert Pair(mid, tx).conf == Moved(mid.conf, tx);
      MovedRow(mid.conf, tx, a);
      TouchedFields(Row(mid.conf, tx.From()), tx);
    }
  }

  lemma {:induction false} SenderInGroup(txs: seq<Transaction>, i: nat)
    requires i < |txs| && txs[i].asset.Multisignature?
    ensures txs[i].From() in GroupSenders(txs)
  {
    if i < |txs| - 1 {
      SenderInGroup(txs[..|txs| - 1], i);
    }
  }

  /** The confirmed pass only adds to unconfirmed balances. */
  lemma {:induction false} CFoldUnconfBalanceOnly(s: Accts, txs: seq<Transaction>, a: Address)
    ensures Row(CFold(s, txs).unconf, a) == Row(s.unconf, a).(balance := Row(CFold(s, txs).unconf, a).balance)
  {
    hide Touch;
    if txs != [] { CFoldUnconfBalanceOnly(s, txs[..|txs| - 1], a); }
  }

  /** The row half the unconfirmed check of transaction k saw agrees, except for its balance, with
      the confirmed half after the first k transactions done whole. */
  lemma MirrorAt(b: Books, round: int, txs: seq<Transaction>, a: Address)
    requires Settled(BooksFold(b, round, txs), round)
    ensures Row(UFold(b.accts, txs).unconf, a).secondSignature ==
            Row(BooksFold(b, round, txs).accts.conf, a).secondSignature
  {
    hide UFold, CFold, PairFold, BooksFold, RowSane, PendingSane;
    BooksFoldAccts(b, round, txs);
    BlockIsPairs(b.accts, txs);
    CFoldUnconfBalanceOnly(UFold(b.accts, txs), txs, a);
  }

  lemma TxOkAt(n: Node, genesisKey: PublicKey, b: Block, k: nat)
    requires var round := CalcRound(|n.blocks| + 1);
             && BlockVerified(n, genesisKey, b) && ApplyBlock(n, b).ok && k < |b.transactions|
             && Settled(BooksFold(n.books, round, b.transactions[..k]), round)
    ensures TxOk(BooksFold(n.books, CalcRound(|n.blocks| + 1), b.transactions[..k]), b.transactions[k])
  {
    hide UFold, PairFold, BooksFold, CheckDelegates, RowSane, PendingSane, Settled, Tick, UsernameFree;
    var round, txs := CalcRound(|n.blocks| + 1), b.transactions;
    var u := UAll(n, txs).node;
    var here := BooksFold(n.books, round, txs[..k]);
    var tx := txs[k];
    UAllPrefix(n, txs, k);
    CAllPrefix(u, round, txs, k);
    CAllBooks(n, round, txs, k);
    BooksFoldAccts(n.books, round, txs[..k]);
    var c := CAll(u, round, txs[..k]).node;
    assert c.books.accts.conf == here.accts.conf;
    assert CAllowed(c.books.accts, tx, false);
    assert Verified(n.books.accts, genesisKey, tx);
    match tx.asset
    case SecondSignature(_) =>
      MirrorAt(n.books, round, txs[..k], tx.From());
    case Multisignature(ks, _, _) =>
      forall i | 0 <= i < k && txs[..k][i].asset.Multisignature? ensures txs[..k][i].From() != tx.From() {
        SenderInGroup(txs[..k], i);
      }
      GroupUntouched(n.books.accts, txs[..k], tx.From());
    case _ =>
  }

  lemma {:induction false} VerifiedRunOkUpTo(n: Node, genesisKey: PublicKey, b: Block, k: nat)
    requires BlockVerified(n, genesisKey, b) && ApplyBlock(n, b).ok && k <= |b.transactions|
    requires Settled(n.books, CalcRound(|n.blocks| + 1))
    ensures RunOk(n.books, CalcRound(|n.blocks| + 1), b.transactions[..k])
  {
    hide ApplyBlock, BlockVerified, Settled, TxOk, BooksFold;
    var round, txs := CalcRound(|n.blocks| + 1), b.transactions;
    if k > 0 {
      VerifiedRunOkUpTo(n, genesisKey, b, k - 1);
      FoldKeeps(n.books, round, txs[..k - 1]);
      TxOkAt(n, genesisKey, b, k - 1);
      forall i | 0 <= i < k ensures TxOk(BooksFold(n.books, round, txs[..k][..i]), txs[..k][i]) {
        assert txs[..k][..i] == txs[..i] && txs[..k][i] == txs[i];
        if i < k - 1 {
          assert txs[..k - 1][..i] == txs[..i] && txs[..k - 1][i] == txs[i];
        }
      }
    }
  }

  lemma VerifiedRunOk(n: Node, genesisKey: PublicKey, b: Block)
    requires BlockVerified(n, genesisKey, b) && ApplyBlock(n, b).ok
    requires Settled(n.books, CalcRound(|n.blocks| + 1))
    ensures RunOk(n.books, CalcRound(|n.blocks| + 1), b.transactions)
  {
    hide ApplyBlock, BlockVerified, Settled, TxOk, BooksFold, RunOk;
    VerifiedRunOkUpTo(n, genesisKey, b, |b.transactions|);
    assert b.transactions[..|b.transactions|] == b.transactions;
  }
}
