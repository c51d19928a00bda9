/** Landing a round keeps the invariants, and so does a whole block. */
module Landing {
  import opened Base
  import opened Diff
  import opened Accounts
  import opened Tally
  import opened Payouts
  import opened Voting
  import opened Ledger
  import opened Rollback
  import opened Invariants
  import opened BlockRules
  import opened PopBlocks

  ghost function Landed(b: Books, round: int, ps: seq<Payout>): Books {
    var paid := PayAll(b, round, ps);
    Books(paid.accts, UpdateVotes(paid.votes, paid.pending, round), Flush(paid.pending, round))
  }

  lemma ProducedIrrelevant(b: Books, round: int, p: Column)
    requires Full(p)
    ensures Settled(b, round) ==> Settled(WithProduced(b, p), round)
    ensures Tallied(b, round) ==> Tallied(WithProduced(b, p), round)
  {
    var b' := WithProduced(b, p);
    if Settled(b, round) {
      forall a: Address ensures RowSane(b', a) { assert RowSane(b, a); }
      forall r: int, d: PublicKey ensures PendingSane(b', round, r, d) { assert PendingSane(b, round, r, d); }
    }
    if Tallied(b, round) {
      forall U: set<Address>, d: PublicKey | Supports(U, b'.accts.conf) ensures TallyAt(b', round, U, d) {
        assert TallyAt(b, round, U, d);
      }
    }
  }

  lemma PaidRow(b: Books, round: int, ps: seq<Payout>, a: Address)
    ensures var paid := PayAll(b, round, ps);
            && Row(paid.accts.conf, a) == Row(b.accts.conf, a).(balance := Row(paid.accts.conf, a).balance)
            && paid.votes == b.votes && paid.accts.secondKeys == b.accts.secondKeys
            && (b.accts.conf == b.accts.unconf ==> paid.accts.conf == paid.accts.unconf)
  {
    hide PayAll, PayAccts, Row;
    PayAllAccts(b, round, ps);
    PayAcctsRow(b.accts, ps, a);
  }

  lemma LandedRowSane(b: Books, round: int, ps: seq<Payout>, a: Address)
    requires Settled(b, round)
    ensures RowSane(Landed(b, round, ps), a)
  {
    hide PayAll, Row, Settled, NoDuplicates;
    var b', paid := Landed(b, round, ps), PayAll(b, round, ps);
    SettledAt(b, round, a);
    PaidRow(b, round, ps, a);
    forall d | d in Row(b'.accts.conf, a).delegates ensures Row(b'.accts.conf, OfKey(d)).isDelegate {
      PaidRow(b, round, ps, OfKey(d));
    }
    if a.OfKey? && !Row(b.accts.conf, a).isDelegate {
      NobodyVotes(b, round, a.key);
      PayUnvoted(b, round, ps, a.key);
      PendingOf(b, round, a.key);
    }
  }

  lemma NobodyVotes(b: Books, round: int, d: PublicKey)
    requires Settled(b, round) && !Row(b.accts.conf, OfKey(d)).isDelegate
    ensures forall a: Address :: d !in Row(b.accts.conf, a).delegates
  {
    forall a: Address ensures d !in Row(b.accts.conf, a).delegates { assert RowSane(b, a); }
  }

  lemma PendingOf(b: Books, round: int, d: PublicKey)
    requires Settled(b, round) && !Row(b.accts.conf, OfKey(d)).isDelegate
    ensures PendingAt(b.pending, round, d) == 0
  {
    assert PendingSane(b, round, round, d);
  }

  lemma LandedEmpty(b: Books, round: int, ps: seq<Payout>, r: int, d: PublicKey)
    requires Settled(b, round)
    ensures PendingAt(Landed(b, round, ps).pending, r, d) == 0
  {
    hide PayAll, Settled;
    if r != round {
      OtherRoundsOfPay(b, round, ps, r, d);
      OtherRoundIsEmpty(b, round, r, d);
    }
  }

  lemma LandKeepsSettled(b: Books, round: int, ps: seq<Payout>, next: int)
    requires Settled(b, round)
    ensures Settled(Landed(b, round, ps), next)
  {
    hide PayAll, PayAccts, RowSane, Row;
    var b' := Landed(b, round, ps);
    forall a: Address ensures RowSane(b', a) { LandedRowSane(b, round, ps, a); }
    forall r: int, d: PublicKey ensures PendingSane(b', next, r, d) { LandedEmpty(b, round, ps, r, d); }
    PayAllAccts(b, round, ps);
    SettledWf(b, round);
    PayAcctsWf(b.accts, ps);
    PaidRow(b, round, ps, OfKey(""));
    assert FullPending(b'.pending) && Full(b'.votes);
  }

  /** The addresses a payout list credits. */
  function Payees(ps: seq<Payout>): set<Address> { set i | 0 <= i < |ps| :: OfKey(ps[i].to) }

  lemma {:induction false} PayOthers(b: Books, round: int, ps: seq<Payout>, a: Address)
    requires a !in Payees(ps)
    ensures Row(PayAll(b, round, ps).accts.conf, a) == Row(b.accts.conf, a)
  {
    hide Accrue;
    if ps != [] {
      var n := |ps| - 1;
      assert OfKey(ps[n].to) in Payees(ps);
      forall x | x in Payees(ps[..n]) ensures x in Payees(ps) {
        var i :| 0 <= i < n && OfKey(ps[..n][i].to) == x;
        assert OfKey(ps[i].to) == x;
      }
      PayOthers(b, round, ps[..n], a);
    }
  }

  lemma {:induction false} LandKeepsTallied(b: Books, round: int, ps: seq<Payout>, next: int)
    requires Settled(b, round) && Tallied(b, round)
    ensures Tallied(Landed(b, round, ps), next)
  {
    hide PayAll, Backing, Settled, Row, RowSane, PendingSane;
    var b', paid := Landed(b, round, ps), PayAll(b, round, ps);
    forall U: set<Address>, d: PublicKey | Supports(U, b'.accts.conf) ensures TallyAt(b', next, U, d) {
      var W := U + Payees(ps);
      forall a: Address | a !in W
        ensures Row(b.accts.conf, a).balance == 0 && Row(b.accts.conf, a).delegates == multiset{}
      {
        PayOthers(b, round, ps, a);
      }
      assert Supports(W, b.accts.conf);
      assert TallyAt(b, round, W, d);
      assert forall i :: 0 <= i < |ps| ==> OfKey(ps[i].to) in Payees(ps);
      PayAllTally(W, b, round, ps, d);
      BackingSupport(U, W, b'.accts.conf, d);
      PaidRow(b, round, ps, OfKey(d));
      LandingTally(paid.votes, paid.pending, round, d);
      LandedEmpty(b, round, ps, next, d);
      LandedEmpty(b, round, ps, round, d);
    }
  }

  // ---------- a whole block ----------

  function NextRound(n: Node): nat { CalcRound(|n.blocks| + 1) }

  lemma TickInside(n: Node)
    requires |n.blocks| > 1 && |n.blocks| % ACTIVE_DELEGATES != 0
    ensures var a := Tick(n);
            && a.books ==
               WithProduced(n.books, Add(n.books.accts.produced, OfKey(n.blocks[|n.blocks| - 1].generator), 1))
            && a.blocks == n.blocks && a.rewardRows == n.rewardRows && a.flags == n.flags && a.rounds == n.rounds
            && (if (|n.blocks| + 1) % ACTIVE_DELEGATES == 0
                then SnapshotOf(a.snapshot, a) && a.snapshot.value.rounds == a.rounds
                else a.snapshot == n.snapshot)
  {
    hide Add, Row, Land;
  }

  lemma AppliedInside(n: Node, b: Block)
    requires |n.blocks| > 0 && ApplyBlock(n, b).ok && (|n.blocks| + 1) % ACTIVE_DELEGATES != 0
    ensures var a, c := Applied(n, b), BooksFold(n.books, NextRound(n), b.transactions);
            && a.books == WithProduced(c, Add(c.accts.produced, OfKey(b.generator), 1))
            && a.blocks == n.blocks + [b]
            && NextRound(a) == NextRound(n)
            && a.rewardRows == n.rewardRows
            && (if (|n.blocks| + 2) % ACTIVE_DELEGATES == 0
                then SnapshotOf(a.snapshot, a) && a.snapshot.value.rounds == a.rounds
                else a.snapshot == n.snapshot)
            && a.flags == n.flags - GroupSenders(b.transactions)
  {
    hide BooksFold, UAll, CAll, Add, ApplyBlock, Row, Tick, SnapshotOf;
    ApplyIsFold(n, b);
    var c := CAll(UAll(n, b.transactions).node, NextRound(n), b.transactions).node;
    TickInside(c.(blocks := n.blocks + [b]));
  }

  /** A verified block keeps the books settled and the vote tally right. */
  lemma {:induction false} BlockKeeps(n: Node, genesisKey: PublicKey, b: Block)
    requires |n.blocks| > 0 && BlockVerified(n, genesisKey, b) && ApplyBlock(n, b).ok
    requires Settled(n.books, NextRound(n)) && Tallied(n.books, NextRound(n))
    ensures Settled(Applied(n, b).books, NextRound(Applied(n, b)))
    ensures Tallied(Applied(n, b).books, NextRound(Applied(n, b)))
  {
    hide BooksFold, Settled, Tallied, BlockVerified, ApplyBlock, RunOk, PayAll, SumRound, ForwardPayouts;
    var round := NextRound(n);
    var c := BooksFold(n.books, round, b.transactions);
    var p := Add(c.accts.produced, OfKey(b.generator), 1);
    VerifiedRunOk(n, genesisKey, b);
    FoldKeeps(n.books, round, b.transactions);
    SettledWf(c, round);
    assert Full(p);
    ProducedIrrelevant(c, round, p);
    if (|n.blocks| + 1) % ACTIVE_DELEGATES == 0 {
      AppliedAtEnd(n, b);
      var s := SumRound(n.blocks + [b]);
      var ps := ForwardPayouts(s.delegates, s.rewards, s.fees);
      assert LandedBooks(n, b) == Landed(WithProduced(c, p), round, ps);
      LandKeepsSettled(WithProduced(c, p), round, ps, NextRound(Applied(n, b)));
      LandKeepsTallied(WithProduced(c, p), round, ps, NextRound(Applied(n, b)));
    } else {
      AppliedInside(n, b);
    }
  }
}
