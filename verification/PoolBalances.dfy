/**
  How the pool and the ledger stay in step: every unconfirmed balance is the confirmed balance less
  what the sender's unconfirmed transactions cost.
 */
module PoolBalances {
  import opened Base
  import opened Diff
  import opened Accounts
  import opened Tally
  import opened Payouts
  import opened Voting
  import opened Ledger
  import opened Storage
  import opened Steps
  import opened Rollback
  import opened PopBlocks
  import opened PoolQueues

  /** What the listed transactions of one sender cost together. */
  function Owed(ps: seq<Pooled>, a: Address): int {
    if ps == [] then 0
    else
      var tx := ps[|ps| - 1].tx;
      Owed(ps[..|ps| - 1], a) + if tx.From() == a then tx.Cost() else 0
  }

  ghost predicate Mirrored(s: Accts, ps: seq<Pooled>) {
    forall a: Address :: Row(s.unconf, a).balance == Row(s.conf, a).balance - Owed(ps, a)
  }

  /** Two states with the same difference between the two balances of every account. */
  ghost predicate SameGap(s: Accts, s': Accts) {
    forall a: Address ::
      Row(s'.conf, a).balance - Row(s'.unconf, a).balance == Row(s.conf, a).balance - Row(s.unconf, a).balance
  }

  lemma GapKeepsMirror(s: Accts, s': Accts, ps: seq<Pooled>)
    requires SameGap(s, s') && Mirrored(s, ps)
    ensures Mirrored(s', ps)
  {
  }

  lemma OwedPush(ps: seq<Pooled>, p: Pooled, a: Address)
    ensures Owed(ps + [p], a) == Owed(ps, a) + if p.tx.From() == a then p.tx.Cost() else 0
  {
    assert (ps + [p])[..|ps|] == ps;
  }

  lemma {:induction false} OwedDrop(ps: seq<Pooled>, i: nat, a: Address)
    requires DistinctIds(ps) && i < |ps|
    ensures Owed(Drop(ps, ps[i].Id()), a) == Owed(ps, a) - if ps[i].tx.From() == a then ps[i].tx.Cost() else 0
  {
    var n := |ps| - 1;
    var pre, last := ps[..n], ps[n];
    if i == n {
      assert forall k :: 0 <= k < n ==> pre[k].Id() != last.Id();
      assert ps[i].Id() !in Ids(pre);
      DropAbsent(pre, last.Id());
    } else {
      OwedDrop(pre, i, a);
      assert last.Id() != ps[i].Id();
      OwedPush(Drop(pre, ps[i].Id()), last, a);
    }
  }

  // ---------- one pooled transaction ----------

  lemma TouchBalance(t: SideTable, tx: Transaction, a: Address)
    ensures Row(Touch(t, tx), a).balance == Row(t, a).balance - if a == tx.From() then tx.Cost() else 0
    ensures Row(Untouch(t, tx), a).balance == Row(t, a).balance + if a == tx.From() then tx.Cost() else 0
  {
    hide TypeEffect, TypeUndo;
    var s := Row(t, tx.From());
    TypeIgnoresBalance(s, s.balance - tx.Cost(), tx.asset);
    TypeIgnoresBalance(s, s.balance + tx.Cost(), tx.asset);
  }

  lemma MirrorApply(n: Node, ps: seq<Pooled>, p: Pooled)
    requires Mirrored(n.books.accts, ps)
    ensures Mirrored(UStep(n, p.tx).books.accts, ps + [p])
  {
    hide Touch, Owed;
    forall a: Address
      ensures var s := UStep(n, p.tx).books.accts;
              Row(s.unconf, a).balance == Row(s.conf, a).balance - Owed(ps + [p], a)
    {
      TouchBalance(n.books.accts.unconf, p.tx, a);
      OwedPush(ps, p, a);
    }
  }

  lemma MirrorUndo(n: Node, ps: seq<Pooled>, i: nat)
    requires i < |ps| && DistinctIds(ps) && Mirrored(n.books.accts, ps)
    ensures var tx := ps[i].tx;
            Mirrored(UTypeUndo(ChargeUnconfirmed(n, tx, tx.Cost()), tx).books.accts, Drop(ps, ps[i].Id()))
  {
    hide Untouch, Owed, UTypeUndo, ChargeUnconfirmed;
    var tx := ps[i].tx;
    UUndoIs(n, tx);
    forall a: Address
      ensures Row(UUndo(n.books.accts, tx).unconf, a).balance ==
              Row(n.books.accts.conf, a).balance - Owed(Drop(ps, ps[i].Id()), a)
    {
      TouchBalance(n.books.accts.unconf, tx, a);
      OwedDrop(ps, i, a);
    }
  }

  // ---------- blocks ----------

  function Gift(tx: Transaction, a: Address): int {
    if tx.asset.Send? && a == tx.asset.recipient then tx.amount else 0
  }

  lemma CreditBalance(t: SideTable, tx: Transaction, a: Address)
    ensures Row(Credit(t, tx), a).balance == Row(t, a).balance + Gift(tx, a)
    ensures Row(Uncredit(t, tx), a).balance == Row(t, a).balance - Gift(tx, a)
  {
  }

  lemma PairGapAt(s: Accts, tx: Transaction, a: Address)
    ensures Row(Pair(s, tx).conf, a).balance - Row(Pair(s, tx).unconf, a).balance == Row(s.conf,
            a).balance - Row(s.unconf, a).balance
    ensures Row(UndoPair(s, tx).conf, a).balance - Row(UndoPair(s, tx).unconf, a).balance ==
            Row(s.conf, a).balance - Row(s.unconf, a).balance
  {
    hide Touch, Untouch, Credit, Uncredit, Row, Gift;
    TouchBalance(s.conf, tx, a);
    TouchBalance(s.unconf, tx, a);
    TouchBalance(Uncredit(s.unconf, tx), tx, a);
    CreditBalance(Touch(s.conf, tx), tx, a);
    CreditBalance(Touch(s.unconf, tx), tx, a);
    CreditBalance(Untouch(s.conf, tx), tx, a);
    CreditBalance(s.unconf, tx, a);
  }

  lemma PairGap(s: Accts, tx: Transaction)
    ensures SameGap(s, Pair(s, tx)) && SameGap(s, UndoPair(s, tx))
  {
    hide Pair, UndoPair, Row;
    forall a: Address { PairGapAt(s, tx, a); }
  }

  lemma {:induction false} FoldGap(s: Accts, txs: seq<Transaction>)
    ensures SameGap(s, PairFold(s, txs))
  {
    hide Pair;
    if txs != [] {
      FoldGap(s, txs[..|txs| - 1]);
      PairGap(PairFold(s, txs[..|txs| - 1]), txs[|txs| - 1]);
    }
  }

  lemma {:induction false} UndoFoldGap(s: Accts, txs: seq<Transaction>)
    ensures SameGap(s, UndoFold(s, txs))
    decreases |txs|
  {
    hide UndoPair;
    if txs != [] {
      PairGap(s, txs[|txs| - 1]);
      UndoFoldGap(UndoPair(s, txs[|txs| - 1]), txs[..|txs| - 1]);
    }
  }

  lemma PayGap(b: Books, round: int, ps: seq<Payout>)
    ensures SameGap(b.accts, PayAll(b, round, ps).accts)
  {
    hide PayAll, PayAccts, Row;
    PayAllAccts(b, round, ps);
    forall a: Address { PayAcctsRow(b.accts, ps, a); }
  }

  lemma TickGap(n: Node)
    requires |n.blocks| > 0
    ensures SameGap(n.books.accts, Tick(n).books.accts)
  {
    hide PayAll, SumRound, ForwardPayouts, UpdateVotes, Flush, TakeSnapshot, RewardRows, Row, Add;
    var n1 := CountBlock(n, 1);
    var s := SumRound(n1.blocks);
    PayGap(n1.books, CalcRound(|n1.blocks|), ForwardPayouts(s.delegates, s.rewards, s.fees));
  }

  lemma BackwardTickGap(n: Node)
    requires |n.blocks| > 1
    ensures SameGap(n.books.accts, BackwardTick(n).node.books.accts)
  {
    hide PayAll, SumRound, BackwardPayouts, Overwrite, Flush, AddPending, SelectOtherRounds, SnapshotAvailable, Row,
         Add;
    var n1 := CountBlock(n, -1);
    var s := SumRound(n1.blocks);
    PayGap(n1.books, CalcRound(|n1.blocks|), BackwardPayouts(s.delegates, s.rewards, s.fees));
  }

  /** Applying a block, whether it goes through or not, moves both balances of an account alike. */
  lemma BlockGap(n: Node, b: Block)
    ensures SameGap(n.books.accts, ApplyBlock(n, b).node.books.accts)
  {
    hide UAll, CAll, Tick, BooksFold, PairFold, Row;
    if ApplyBlock(n, b).ok {
      var round := CalcRound(|n.blocks| + 1);
      ApplyIsFold(n, b);
      BooksFoldAccts(n.books, round, b.transactions);
      FoldGap(n.books.accts, b.transactions);
      TickGap(CAll(UAll(n, b.transactions).node, round, b.transactions).node.(blocks := n.blocks + [b]));
    }
  }

  lemma PopGap(n: Node)
    requires |n.blocks| > 0
    ensures SameGap(n.books.accts, PopBlock(n).node.books.accts)
  {
    hide UndoAll, BackwardTick, BooksUndoFold, UndoFold, Row;
    if |n.blocks| > 1 {
      var round, txs := CalcRound(|n.blocks|), n.blocks[|n.blocks| - 1].transactions;
      UndoAllBooks(n, round, txs);
      UndoFoldAccts(n.books, round, txs);
      UndoFoldGap(n.books.accts, txs);
      BackwardTickGap(UndoAll(n, round, txs));
    }
  }

  // ---------- undoing ----------

  /** Undoing one pooled transaction. */
  ghost function UndoneOne(n: Node, tx: Transaction): Node { UTypeUndo(ChargeUnconfirmed(n, tx, tx.Cost()), tx) }

  /** Undoing a list of them from the front, as undoUnconfirmedList does. */
  ghost function UndoneList(n: Node, ps: seq<Pooled>): Node
    decreases |ps|
  {
    if ps == [] then n else UndoneList(UndoneOne(n, ps[0].tx), ps[1..])
  }

  lemma {:induction false} DropFirst(ps: seq<Pooled>)
    requires ps != [] && DistinctIds(ps)
    ensures Drop(ps, ps[0].Id()) == ps[1..] && DistinctIds(ps[1..])
  {
    var n := |ps| - 1;
    if n == 0 {
      assert ps[..0] == [] && ps[1..] == [];
    } else {
      var pre := ps[..n];
      DropFirst(pre);
      assert ps[n].Id() != ps[0].Id();
      assert pre[1..] + [ps[n]] == ps[1..];
    }
  }

  lemma {:induction false} UndoneListMirror(n: Node, ps: seq<Pooled>)
    requires DistinctIds(ps) && Mirrored(n.books.accts, ps)
    ensures Mirrored(UndoneList(n, ps).books.accts, [])
    decreases |ps|
  {
    hide UTypeUndo, ChargeUnconfirmed, Mirrored;
    if ps != [] {
      DropFirst(ps);
      MirrorUndo(n, ps, 0);
      UndoneListMirror(UndoneOne(n, ps[0].tx), ps[1..]);
    }
  }

  lemma UndoneOneConf(n: Node, tx: Transaction)
    ensures UndoneOne(n, tx).books.accts.conf == n.books.accts.conf
    ensures UndoneOne(n, tx) == n.(books := n.books.(accts := n.books.accts.(unconf := UndoneOne(n,
            tx).books.accts.unconf)), flags := UndoneOne(n, tx).flags)
  {
    hide TypeUndo;
  }
  lemma UndoneListStep(n: Node, ps: seq<Pooled>)
    requires ps != []
    ensures UndoneList(n, ps) == UndoneList(UndoneOne(n, ps[0].tx), ps[1..])
    ensures UndoneOne(n, ps[0].tx) == UTypeUndo(ChargeUnconfirmed(n, ps[0].tx, ps[0].tx.Cost()), ps[0].tx)
  {
    hide UTypeUndo, ChargeUnconfirmed;
  }

  lemma NothingUndone(n: Node)
    ensures UndoneList(n, []) == n
  {
  }

  lemma UndoneOneIs(n: Node, tx: Transaction)
    ensures UndoneOne(n, tx) == UTypeUndo(ChargeUnconfirmed(n, tx, tx.Cost()), tx)
  {
  }
}
