/**
  Popping a block undoes applying it.  A block is applied in two passes (all unconfirmed steps,
  then all confirmed steps) and undone in one interleaved pass; the proofs go through the state in
  which every transaction of a prefix has been done whole.
 */
module Rollback {
  import opened Base
  import opened Diff
  import opened Accounts
  import opened Tally
  import opened Payouts
  import opened Voting
  import opened Ledger

  // ---------- a block as a sequence of whole transactions ----------

  ghost function BooksPair(b: Books, round: int, tx: Transaction): Books {
    Books(Pair(b.accts, tx), ResetVote(b.votes, tx), CPending(b.pending, round, b.accts.conf, tx))
  }

  ghost function BooksUndo(b: Books, round: int, tx: Transaction): Books {
    Books(UndoPair(b.accts, tx), ResetVote(b.votes, tx), UndoPending(b.pending, round, b.accts.conf, tx))
  }

  ghost function BooksFold(b: Books, round: int, txs: seq<Transaction>): Books {
    if txs == [] then b else BooksPair(BooksFold(b, round, txs[..|txs| - 1]), round, txs[|txs| - 1])
  }

  ghost function BooksUndoFold(b: Books, round: int, txs: seq<Transaction>): Books
    decreases |txs|
  {
    if txs == [] then b else BooksUndoFold(BooksUndo(b, round, txs[|txs| - 1]), round, txs[..|txs| - 1])
  }

  function GroupSenders(txs: seq<Transaction>): set<Address> {
    if txs == [] then {}
    else
      var tx := txs[|txs| - 1];
      GroupSenders(txs[..|txs| - 1]) + if tx.asset.Multisignature? then {tx.From()} else {}
  }

  lemma {:induction false} UFoldOnlyUnconfirmed(s: Accts, txs: seq<Transaction>)
    ensures UFold(s, txs) == s.(unconf := UFold(s, txs).unconf)
  {
    hide Touch;
    if txs != [] { UFoldOnlyUnconfirmed(s, txs[..|txs| - 1]); }
  }

  lemma {:induction false} UAllSpec(n: Node, txs: seq<Transaction>)
    requires UAll(n, txs).ok
    ensures UAll(n, txs).node ==
            n.(books := n.books.(accts := UFold(n.books.accts, txs)), flags := n.flags + GroupSenders(txs))
  {
    hide UEffect, UAllowed;
    if txs == [] {
      assert n.flags + {} == n.flags;
    } else {
      var pre, tx := txs[..|txs| - 1], txs[|txs| - 1];
      UAllSpec(n, pre);
      assert n.flags + GroupSenders(pre) + {} == n.flags + GroupSenders(pre);
    }
  }

  lemma {:induction false} UAllPrefix(n: Node, txs: seq<Transaction>, k: nat)
    requires UAll(n, txs).ok && k < |txs|
    ensures UAll(n, txs[..k]).ok
    ensures UAllowed(UFold(n.books.accts, txs[..k]), n.flags + GroupSenders(txs[..k]), txs[k], false)
  {
    hide UEffect, UAllowed;
    var pre := txs[..|txs| - 1];
    if k < |txs| - 1 {
      UAllPrefix(n, pre, k);
      assert pre[..k] == txs[..k];
    } else {
      UAllSpec(n, pre);
    }
  }

  lemma {:induction false} CAllPrefix(n: Node, round: int, txs: seq<Transaction>, k: nat)
    requires CAll(n, round, txs).ok && k <= |txs|
    ensures CAll(n, round, txs[..k]).ok
    ensures k < |txs| ==> CAllowed(CAll(n, round, txs[..k]).node.books.accts, txs[k], false)
  {
    hide CStep, CAllowed;
    if k == |txs| {
      assert txs[..k] == txs;
    } else if k < |txs| - 1 {
      var pre := txs[..|txs| - 1];
      CAllPrefix(n, round, pre, k);
      assert pre[..k] == txs[..k];
    }
  }

  lemma {:induction false} CAllAccts(n: Node, round: int, txs: seq<Transaction>)
    requires CAll(n, round, txs).ok
    ensures var c := CAll(n, round, txs).node;
            && c.books.accts == CFold(n.books.accts, txs)
            && c.blocks == n.blocks && c.snapshot == n.snapshot && c.rewardRows == n.rewardRows
            && c.flags == n.flags - GroupSenders(txs)
  {
    hide CEffect, CAllowed, CPending, TxRounds;
    if txs == [] {
      assert n.flags - {} == n.flags;
    } else {
      var pre, tx := txs[..|txs| - 1], txs[|txs| - 1];
      CAllAccts(n, round, pre);
      assert n.flags - GroupSenders(pre) - {} == n.flags - GroupSenders(pre);
    }
  }

  /** While the confirmed pass has done k transactions, the confirmed columns, the votes and the
      pending tally are those of the first k transactions done whole. */
  lemma {:induction false} CAllBooks(n: Node, round: int, txs: seq<Transaction>, k: nat)
    requires UAll(n, txs).ok && k <= |txs|
    requires CAll(UAll(n, txs).node, round, txs[..k]).ok
    ensures var c := CAll(UAll(n, txs).node, round, txs[..k]).node;
            && c.books == BooksFold(n.books, round, txs[..k]).(accts := UFold(PairFold(n.books.accts, txs[..k]),
                txs[k..]))
            && c.books.accts.conf == PairFold(n.books.accts, txs[..k]).conf
  {
    hide UEffect, CEffect, CAllowed, CPending, TxRounds, UAll, UFold, CFold, PairFold;
    var u := UAll(n, txs).node;
    var c := CAll(u, round, txs[..k]).node;
    UAllSpec(n, txs);
    CAllAccts(u, round, txs[..k]);
    MidBlock(n.books.accts, txs, k);
    UFoldOnlyUnconfirmed(PairFold(n.books.accts, txs[..k]), txs[k..]);
    if k > 0 {
      var pre := txs[..k - 1];
      assert txs[..k][..k - 1] == pre;
      CAllBooks(n, round, txs, k - 1);
      BooksFoldAccts(n.books, round, pre);
    }
  }

  lemma {:induction false} BooksFoldAccts(b: Books, round: int, txs: seq<Transaction>)
    ensures BooksFold(b, round, txs).accts == PairFold(b.accts, txs)
  {
    hide Pair, CPending;
    if txs != [] { BooksFoldAccts(b, round, txs[..|txs| - 1]); }
  }

  /** A block that goes through leaves the books of its transactions done whole, one after another. */
  lemma {:induction false} ApplyIsFold(n: Node, b: Block)
    requires ApplyBlock(n, b).ok
    ensures var round := CalcRound(|n.blocks| + 1);
            var c := CAll(UAll(n, b.transactions).node, round, b.transactions).node;
            && ApplyBlock(n, b).node == Tick(c.(blocks := n.blocks + [b]))
            && c.books == BooksFold(n.books, round, b.transactions)
            && c.snapshot == n.snapshot && c.rewardRows == n.rewardRows
            && c.flags == n.flags - GroupSenders(b.transactions)
  {
    hide Tick, UFold, CFold, PairFold, BooksFold;
    var txs := b.transactions;
    var round := CalcRound(|n.blocks| + 1);
    var u := UAll(n, txs).node;
    assert txs[..|txs|] == txs && txs[|txs|..] == [];
    CAllBooks(n, round, txs, |txs|);
    UAllSpec(n, txs);
    CAllAccts(u, round, txs);
    BooksFoldAccts(n.books, round, txs);
    assert UFold(PairFold(n.books.accts, txs), []) == PairFold(n.books.accts,
            txs) by { EmptyUFold(PairFold(n.books.accts, txs)); }
    assert n.flags + GroupSenders(txs) - GroupSenders(txs) == n.flags - GroupSenders(txs);
  }

  lemma EmptyUFold(s: Accts)
    ensures UFold(s, []) == s
  {
  }
}
