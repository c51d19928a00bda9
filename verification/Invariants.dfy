/** What holds of the books between blocks, and how each whole transaction keeps it. */
module Invariants {
  import opened Base
  import opened Diff
  import opened Accounts
  import opened Tally
  import opened Payouts
  import opened Voting
  import opened Ledger
  import opened Rollback

  ghost predicate VotesSane(conf: SideTable, a: Address) {
    && NoDuplicates(Row(conf, a).delegates)
    && |Row(conf, a).delegates| <= MAX_VOTES_PER_ACCOUNT
    && forall d :: d in Row(conf, a).delegates ==> Row(conf, OfKey(d)).isDelegate
  }

  ghost predicate RowSane(b: Books, a: Address) {
    && VotesSane(b.accts.conf, a)
    && (!Row(b.accts.conf, a).isDelegate ==> Row(b.accts.conf, a).username == None && Get(b.votes, a) == 0)
    && (!Row(b.accts.conf, a).secondSignature ==> KeyAt(b.accts.secondKeys, a) == None)
  }

  ghost predicate PendingSane(b: Books, round: int, r: int, d: PublicKey) {
    PendingAt(b.pending, r, d) != 0 ==> r == round && Row(b.accts.conf, OfKey(d)).isDelegate
  }

  /** The books with no unconfirmed transaction outstanding: both halves of every row agree, votes
      are sane, and pending rows are of the current round. */
  ghost predicate Settled(b: Books, round: int) {
    && b.accts.Wf() && FullPending(b.pending) && Full(b.votes)
    && b.accts.conf == b.accts.unconf
    && (forall a: Address :: RowSane(b, a))
    && (forall r: int, d: PublicKey :: PendingSane(b, round, r, d))
  }

  /** A finite set of addresses outside of which nobody holds or votes. */
  ghost predicate Supports(U: set<Address>, conf: SideTable) {
    forall a: Address :: a !in U ==> Row(conf, a).balance == 0 && Row(conf, a).delegates == multiset{}
  }

  ghost predicate TallyAt(b: Books, round: int, U: set<Address>, d: PublicKey) {
    Get(b.votes, OfKey(d)) + PendingAt(b.pending, round, d) == Backing(U, b.accts.conf, d)
  }

  /** For every delegate, recorded votes plus pending rows equal the total balance of its voters. */
  ghost predicate Tallied(b: Books, round: int) {
    forall U: set<Address>, d: PublicKey :: Supports(U, b.accts.conf) ==> TallyAt(b, round, U, d)
  }

  /** What the checks establish for a transaction at the point where it is applied. */
  ghost predicate TxOk(b: Books, tx: Transaction) {
    && tx.amount >= 0 && tx.fee >= 0 && Row(b.accts.conf, tx.From()).balance >= tx.Cost()
    && TxShape(b, tx)
  }

  ghost predicate TxShape(b: Books, tx: Transaction) {
    var s := Row(b.accts.conf, tx.From());
    match tx.asset
    case Send(_) => true
    case SecondSignature(_) => !s.secondSignature
    case Registration(_) => !s.isDelegate
    case Votes(vs) => CheckDelegates(b.accts.conf, s.delegates, vs)
    case Multisignature(ks, _, _) =>
      s.multisignatures == multiset{} && DistinctKeys(ks) &&
      forall i :: 0 <= i < |ks| ==> Signed(ks[i]) && !IsMinus(ks[i])
  }

  lemma TxOkUndoable(b: Books, round: int, tx: Transaction)
    requires Settled(b, round) && TxShape(b, tx)
    ensures Undoable(Row(b.accts.conf, tx.From()), tx.asset)
  {
    hide ApplyDiff, Fits, CheckDelegates, PendingSane, TypeEffect;
    var s := Row(b.accts.conf, tx.From());
    assert RowSane(b, tx.From());
    match tx.asset
    case Votes(vs) =>
      CheckDelegatesIff(b.accts.conf, s.delegates, vs);
    case Multisignature(ks, _, _) =>
      EmptyFits(s.multisignatures, ks);
    case _ =>
  }

  lemma EmptyFits(ds: multiset<PublicKey>, ks: seq<string>)
    requires ds == multiset{} && forall i :: 0 <= i < |ks| ==> Signed(ks[i]) && !IsMinus(ks[i])
    ensures AllSigned(ks) && NoDuplicates(ds) && Fits(ds, ks)
  {
  }

  /** Undoing a transaction right after applying it restores the books, pending rows included. */
  lemma {:induction false} PairInverse(b: Books, round: int, tx: Transaction)
    requires Settled(b, round) && TxShape(b, tx)
    ensures BooksUndo(BooksPair(b, round, tx), round, tx) == b
  {
    TxOkUndoable(b, round, tx);
    assert RowSane(b, tx.From());
    assert tx.asset.Registration? ==> Get(b.votes, tx.From()) == 0;
    hide Undoable, Pair, UndoPair, CPending, UndoPending, TxShape;
    UndoPairInverse(b.accts, tx);
    PendingInverse(b.pending, round, b.accts.conf, tx);
    PairConf(b.accts, tx);
    ResetTwice(b.votes, tx);
  }

  lemma PairConf(s: Accts, tx: Transaction)
    ensures Pair(s, tx).conf == Credit(Touch(s.conf, tx), tx)
    ensures Pair(s, tx).unconf == Credit(Touch(s.unconf, tx), tx)
  {
    hide Touch, Credit;
  }

  lemma ResetTwice(votes: Column, tx: Transaction)
    requires Full(votes) && (tx.asset.Registration? ==> Get(votes, tx.From()) == 0)
    ensures ResetVote(ResetVote(votes, tx), tx) == votes
  {
  }

  // ---------- each whole transaction keeps the invariants ----------

  ghost function Moved(conf: SideTable, tx: Transaction): SideTable { Credit(Touch(conf, tx), tx) }

  /** What a transaction does to one row: the sender's is touched, the recipient's credited. */
  lemma MovedRow(conf: SideTable, tx: Transaction, a: Address)
    ensures var s := if a == tx.From() then Touched(Row(conf, a), tx) else Row(conf, a);
            Row(Moved(conf, tx), a) ==
            s.(balance := s.balance + if tx.asset.Send? && a == tx.asset.recipient then tx.amount else 0)
  {
    hide Touched;
  }

  lemma TouchedFields(s: Side, tx: Transaction)
    ensures var t := Touched(s, tx);
            && t.balance == s.balance - tx.Cost()
            && t.delegates == (if tx.asset.Votes? then ApplyDiff(s.delegates, tx.asset.votes) else s.delegates)
            && t.isDelegate == (s.isDelegate || tx.asset.Registration?)
            && t.username == (if tx.asset.Registration? then Some(tx.asset.username) else s.username)
            && t.secondSignature == (s.secondSignature || tx.asset.SecondSignature?)
            && (!tx.asset.Multisignature? ==> t.multisignatures == s.multisignatures)
  {
    hide ApplyDiff;
  }

  lemma MovedVotesSane(conf: SideTable, tx: Transaction, a: Address)
    requires VotesSane(conf, a)
    requires tx.asset.Votes? ==> CheckDelegates(conf, Row(conf, tx.From()).delegates, tx.asset.votes)
    ensures VotesSane(Moved(conf, tx), a)
  {
    hide Touched, CheckDelegates, ApplyDiff, Moved, Row;
    MovedRow(conf, tx, a);
    TouchedFields(Row(conf, tx.From()), tx);
    var ds, ds' := Row(conf, a).delegates, Row(Moved(conf, tx), a).delegates;
    if tx.asset.Votes? && a == tx.From() {
      AcceptedVotes(conf, ds, tx.asset.votes);
    }
    assert NoDuplicates(ds') && |ds'| <= MAX_VOTES_PER_ACCOUNT;
    forall d | d in ds' ensures Row(Moved(conf, tx), OfKey(d)).isDelegate {
      assert Row(conf, OfKey(d)).isDelegate;
      MovedRow(conf, tx, OfKey(d));
    }
  }

  /** Only rows for registered delegates are added. */
  lemma DeltaRegistered(conf: SideTable, tx: Transaction, d: PublicKey)
    requires forall a: Address :: VotesSane(conf, a)
    requires tx.asset.Votes? ==> CheckDelegates(conf, Row(conf, tx.From()).delegates, tx.asset.votes)
    requires !Row(conf, OfKey(d)).isDelegate
    ensures CDelta(conf, tx, d) == 0
  {
    hide CheckDelegates, Row, Net;
    var s := Row(conf, tx.From());
    assert VotesSane(conf, tx.From());
    assert s.delegates[d] == 0;
    match tx.asset
    case Send(r) =>
      assert VotesSane(conf, r);
      assert Row(conf, r).delegates[d] == 0;
    case Votes(vs) =>
      CheckDelegatesIff(conf, s.delegates, vs);
      ApplyDiffAt(s.delegates, vs, d);
      assert Net(vs, d) == 0;
    case _ =>
  }

  lemma {:induction false} PairKeepsSettled(b: Books, round: int, tx: Transaction)
    requires Settled(b, round) && TxShape(b, tx)
    ensures Settled(BooksPair(b, round, tx), round)
  {
    hide CheckDelegates, Touched, ApplyDiff, CPending, VotesSane, CDelta, Touch, Bump;
    var b' := BooksPair(b, round, tx);
    var conf, conf' := b.accts.conf, b'.accts.conf;
    PairConf(b.accts, tx);
    PairWf(b.accts, tx);
    assert conf' == Moved(conf, tx);
    forall a: Address ensures RowSane(b', a) {
      assert RowSane(b, a);
      MovedVotesSane(conf, tx, a);
      MovedRow(conf, tx, a);
      TouchedFields(Row(conf, tx.From()), tx);
    }
    forall r: int, d: PublicKey ensures PendingSane(b', round, r, d) {
      assert PendingSane(b, round, r, d);
      DeltaOf(b.pending, round, conf, tx, r, d);
      MovedRow(conf, tx, OfKey(d));
      TouchedFields(Row(conf, tx.From()), tx);
      if !Row(conf, OfKey(d)).isDelegate {
        forall a: Address ensures VotesSane(conf, a) { assert RowSane(b, a); }
        DeltaRegistered(conf, tx, d);
      }
    }
    PendingFull(b.pending, round, conf, tx);
  }

  lemma PendingFull(p: Pending, round: int, conf: SideTable, tx: Transaction)
    requires FullPending(p)
    ensures FullPending(CPending(p, round, conf, tx))
  {
    hide Net, Row;
  }

  lemma PairWf(s: Accts, tx: Transaction)
    requires s.Wf()
    ensures Pair(s, tx).Wf()
  {
    hide Touched;
  }

  /** The tally follows every transaction, for any set of addresses that supports the ledger. */
  lemma {:induction false} PairKeepsTallied(b: Books, round: int, tx: Transaction)
    requires Settled(b, round) && TxShape(b, tx) && Tallied(b, round)
    ensures Tallied(BooksPair(b, round, tx), round)
  {
    hide CheckDelegates, CPending, Touch, Bump, Backing, Row, RowSane, PendingSane;
    var b' := BooksPair(b, round, tx);
    var conf, conf' := b.accts.conf, b'.accts.conf;
    PairConf(b.accts, tx);
    assert conf' == Moved(conf, tx);
    TxOkUndoable(b, round, tx);
    forall U: set<Address>, d: PublicKey | Supports(U, conf') ensures TallyAt(b', round, U, d) {
      var W := U + {tx.From()} + if tx.asset.Send? then {tx.asset.recipient} else {};
      MovedSupport(conf, tx, U, W);
      assert TallyAt(b, round, W, d);
      TransactionTally(W, b.pending, round, conf, tx, d);
      BackingSupport(U, W, conf', d);
      UnregisteredVote(b, round, tx);
    }
  }

  lemma UnregisteredVote(b: Books, round: int, tx: Transaction)
    requires Settled(b, round) && TxShape(b, tx)
    ensures forall a :: Get(ResetVote(b.votes, tx), a) == Get(b.votes, a)
  {
    assert RowSane(b, tx.From());
  }

  lemma MovedSupport(conf: SideTable, tx: Transaction, U: set<Address>, W: set<Address>)
    requires Supports(U, Moved(conf, tx))
    requires U <= W && tx.From() in W && (tx.asset.Send? ==> tx.asset.recipient in W)
    ensures Supports(W, conf) && Supports(W, Moved(conf, tx))
  {
    hide Moved, Row;
    forall a: Address | a !in W
      ensures Row(conf, a).balance == 0 && Row(conf, a).delegates == multiset{}
    {
      MovedRow(conf, tx, a);
    }
  }

  lemma BackingSupport(U: set<Address>, W: set<Address>, conf: SideTable, d: PublicKey)
    requires U <= W && Supports(U, conf)
    ensures Backing(U, conf, d) == Backing(W, conf, d)
  {
    SumSupport(U, W, Weights(conf, d));
  }
}
