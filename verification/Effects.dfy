/**
  What transactions and rounds do to the tables, column by column: who pays, who is paid, and which field of which
  account a transaction of each type writes.
 */
module Effects {
  import opened Base
  import opened Diff
  import opened Accounts
  import opened Tally
  import opened Payouts
  import opened Voting
  import opened Ledger
  import opened Rollback
  import opened Invariants
  import opened PopBlocks

  // ---------- one transaction ----------

  /** A list of changes to votes or group keys, none on the same key twice: the keys it adds are there once more, the
      ones it removes are gone, all others are as before. */
  ghost predicate Changed(ds: multiset<PublicKey>, ds': multiset<PublicKey>, vs: seq<string>) {
    forall d: PublicKey ::
      ds'[d] == if "-" + d in vs then 0 else if "+" + d in vs then ds[d] + 1 else ds[d]
  }

  lemma ChangedIs(ds: multiset<PublicKey>, vs: seq<string>)
    requires AllSigned(vs) && DistinctKeys(vs)
    ensures Changed(ds, ApplyDiff(ds, vs), vs)
  {
    hide ApplyDiff, Net;
    forall d: PublicKey
      ensures ApplyDiff(ds, vs)[d] == if "-" + d in vs then 0 else if "+" + d in vs then ds[d] + 1 else ds[d]
    {
      ApplyDiffAt(ds, vs, d);
      forall i | 0 <= i < |vs| && KeyOf(vs[i]) == d ensures vs[i] == if IsMinus(vs[i]) then "-" + d else "+" + d {
        assert Signed(vs[i]);
        assert vs[i] == [vs[i][0]] + vs[i][1..];
      }
      forall i | 0 <= i < |vs| && (vs[i] == "-" + d || vs[i] == "+" + d) ensures KeyOf(vs[i]) == d {
        assert vs[i][1..] == d;
      }
    }
  }

  /** What the type of a transaction writes into one half of its sender's row, besides the balance. */
  ghost predicate Written(s: Side, s': Side, asset: Asset) {
    match asset
    case Send(_) => s' == s.(balance := s'.balance)
    case SecondSignature(_) => s' == s.(balance := s'.balance, secondSignature := true)
    case Registration(u) => s' == s.(balance := s'.balance, isDelegate := true, username := Some(u))
    case Votes(vs) => s' == s.(balance := s'.balance, delegates := s'.delegates)
      && (AllSigned(vs) && DistinctKeys(vs) ==> Changed(s.delegates, s'.delegates, vs))
    case Multisignature(ks, min, life) =>
      && s' == s.(balance := s'.balance, multisignatures := s'.multisignatures, multimin := s.multimin + min,
                  multilifetime := s.multilifetime + life)
      && (AllSigned(ks) && DistinctKeys(ks) ==> Changed(s.multisignatures, s'.multisignatures, ks))
  }

  lemma TouchedWritten(s: Side, tx: Transaction)
    ensures var s' := Touched(s, tx); Written(s, s', tx.asset) && s'.balance == s.balance - tx.amount - tx.fee
  {
    hide ApplyDiff, AllSigned, DistinctKeys, Changed;
    match tx.asset
    case Votes(vs) => if AllSigned(vs) && DistinctKeys(vs) { ChangedIs(s.delegates, vs); }
    case Multisignature(ks, _, _) => if AllSigned(ks) && DistinctKeys(ks) { ChangedIs(s.multisignatures, ks); }
    case _ =>
  }

  /** The unconfirmed half: the sender pays amount and fee out of its unconfirmed balance and gets the unconfirmed
      fields of the type; nobody is credited and no confirmed column changes. */
  lemma UnconfirmedEffect(n: Node, tx: Transaction, a: Address)
    ensures var u := UStep(n, tx);
            var s, s' := Row(n.books.accts.unconf, a), Row(u.books.accts.unconf, a);
            && (if a == OfKey(tx.sender) then Written(s, s', tx.asset) && s'.balance == s.balance - tx.amount - tx.fee
                else s' == s)
            && u == n.(books := n.books.(accts := n.books.accts.(unconf := u.books.accts.unconf)),
                       flags := if tx.asset.Multisignature? then n.flags + {OfKey(tx.sender)} else n.flags)
  {
    hide Touched, Written;
    TouchedWritten(Row(n.books.accts.unconf, a), tx);
  }

  /** The confirmed half: the sender pays out of its confirmed balance and gets the fields of the type, the second key
      with its registration; the recipient of a transfer gets the amount in both halves; a new delegate starts without
      votes. */
  lemma ConfirmedEffect(n: Node, round: int, tx: Transaction, a: Address)
    ensures var c, from := CStep(n, round, tx), OfKey(tx.sender);
            var s, s' := Row(n.books.accts.conf, a), Row(c.books.accts.conf, a);
            var gift := if tx.asset.Send? && a == tx.asset.recipient then tx.amount else 0;
            && (if a == from
                then Written(s, s', tx.asset) && s'.balance == s.balance - tx.amount - tx.fee + gift
                else s' == s.(balance := s.balance + gift))
            && Row(c.books.accts.unconf, a) ==
               Row(n.books.accts.unconf, a).(balance := Row(n.books.accts.unconf, a).balance + gift)
            && KeyAt(c.books.accts.secondKeys, a) ==
               (if tx.asset.SecondSignature? && a == from then Some(tx.asset.secondKey)
                else KeyAt(n.books.accts.secondKeys, a))
            && Get(c.books.votes, a) == (if tx.asset.Registration? && a == from then 0 else Get(n.books.votes, a))
            && c.books.accts.produced == n.books.accts.produced
            && c.books.accts.fees == n.books.accts.fees && c.books.accts.rewards == n.books.accts.rewards
            && c.flags == (if tx.asset.Multisignature? then n.flags - {from} else n.flags)
            && c.blocks == n.blocks && c.snapshot == n.snapshot && c.rewardRows == n.rewardRows
  {
    hide Touched, Written, CPending, TxRounds;
    var s := Row(n.books.accts.conf, a);
    TouchedWritten(s, tx);
    MovedRow(n.books.accts.conf, tx, a);
    if a == OfKey(tx.sender) { WrittenRaised(s, Touched(s, tx), tx); }
  }

  lemma WrittenRaised(s: Side, s': Side, tx: Transaction)
    requires Written(s, s', tx.asset)
    ensures forall x: int :: Written(s, s'.(balance := x), tx.asset)
  {
    hide Changed, AllSigned, DistinctKeys;
  }

  // ---------- the end of a round ----------

  /** What an account that forged some of these blocks gets for them: an equal share of the fees for each, without
      the remainder, and the block's own reward. */
  function Earned(bs: seq<Block>, fees: nat, a: Address): int {
    if bs == [] then 0
    else
      var last := bs[|bs| - 1];
      Earned(bs[..|bs| - 1], fees, a) + if a == OfKey(last.generator) then fees / 101 + last.reward else 0
  }

  function PaidTo(ps: seq<Payout>, a: Address): int {
    if ps == [] then 0
    else PaidTo(ps[..|ps| - 1], a) + if a == OfKey(ps[|ps| - 1].to) then ps[|ps| - 1].fee + ps[|ps| - 1].reward else 0
  }

  lemma {:induction false} PaidIs(s: Accts, ps: seq<Payout>, a: Address)
    ensures Row(PayAccts(s, ps).conf, a) == Row(s.conf, a).(balance := Row(s.conf, a).balance + PaidTo(ps, a))
    ensures Row(PayAccts(s, ps).unconf, a) == Row(s.unconf, a).(balance := Row(s.unconf, a).balance + PaidTo(ps, a))
  {
    if ps != [] { PaidIs(s, ps[..|ps| - 1], a); }
  }

  lemma {:induction false} SharesPaid(bs: seq<Block>, fees: nat, a: Address)
    ensures PaidTo(Shares(Generators(bs), Rewards(bs), fees), a) == Earned(bs, fees, a)
  {
    if bs != [] {
      var pre := bs[..|bs| - 1];
      SharesPaid(pre, fees, a);
      var ps := Shares(Generators(bs), Rewards(bs), fees);
      assert ps[..|ps| - 1] == Shares(Generators(pre), Rewards(pre), fees);
    }
  }

  lemma ForwardPaid(bs: seq<Block>, fees: nat, a: Address)
    requires bs != []
    ensures PaidTo(ForwardPayouts(Generators(bs), Rewards(bs), fees), a) ==
            Earned(bs, fees, a) + if a == OfKey(bs[|bs| - 1].generator) then fees % 101 else 0
  {
    SharesPaid(bs, fees, a);
    var shares, all := Shares(Generators(bs), Rewards(bs), fees), ForwardPayouts(Generators(bs), Rewards(bs), fees);
    if fees % 101 == 0 { assert all == shares; } else { assert all[..|all| - 1] == shares; }
  }

  /** The blocks of the round that the block on top of this chain ends. */
  function Round(chain: seq<Block>, b: Block): seq<Block>
    requires |chain| >= 100
  {
    chain[|chain| - 100..] + [b]
  }

  lemma RoundIs(chain: seq<Block>, b: Block)
    requires |chain| > 0 && (|chain| + 1) % ACTIVE_DELEGATES == 0
    ensures |chain| >= 100
    ensures var bs := Round(chain, b);
            |bs| == 101 && SumRound(chain + [b]) == RoundSum(TotalFees(bs), Rewards(bs), Generators(bs))
  {
    var all, round := chain + [b], CalcRound(|chain| + 1);
    assert round * ACTIVE_DELEGATES == |all|;
    assert RoundBlocks(all, round) == Round(chain, b);
  }

  /** At the end of a round every account is paid for each of the 101 blocks it forged: the block's reward and one
      share in 101 of the fees of the round; the forger of the last one gets what does not divide. */
  lemma RoundPays(n: Node, b: Block, a: Address)
    requires |n.blocks| > 0 && ApplyBlock(n, b).ok && (|n.blocks| + 1) % ACTIVE_DELEGATES == 0
    ensures |n.blocks| >= 100
    ensures var bs, before := Round(n.blocks, b), BooksFold(n.books, CalcRound(|n.blocks| + 1), b.transactions);
            var fees := TotalFees(bs);
            var pay := Earned(bs, fees, a) + if a == OfKey(b.generator) then fees % 101 else 0;
            var after := Applied(n, b).books.accts;
            && Row(after.conf, a) == Row(before.accts.conf, a).(balance := Row(before.accts.conf, a).balance + pay)
            && Row(after.unconf, a) ==
               Row(before.accts.unconf, a).(balance := Row(before.accts.unconf, a).balance + pay)
  {
    hide ApplyBlock, BooksFold, PayAccts, Earned, Add, TotalFees, Row, Round, ForwardPayouts, SumRound, RewardRows,
         UpdateVotes, Flush, PaidBooks;
    RoundIs(n.blocks, b);
    AppliedAtEnd(n, b);
    PaidAccts(n, b);
    var bs, c := Round(n.blocks, b), BooksFold(n.books, CalcRound(|n.blocks| + 1), b.transactions);
    LastOfRound(n.blocks, b);
    ForwardPaid(bs, TotalFees(bs), a);
    PaidIs(c.accts.(produced := Add(c.accts.produced, OfKey(b.generator), 1)),
           ForwardPayouts(Generators(bs), Rewards(bs), TotalFees(bs)), a);
  }

  lemma LastOfRound(chain: seq<Block>, b: Block)
    requires |chain| >= 100
    ensures Round(chain, b) != [] && Round(chain, b)[100] == b && |Round(chain, b)| == 101
  {
  }

  /** And 101 records are kept, one for each block in its order: the time of the last block, the forger, its reward and
      its share of the fees, to which the last one adds what does not divide. */
  lemma RoundRecords(n: Node, b: Block)
    requires |n.blocks| > 0 && ApplyBlock(n, b).ok && (|n.blocks| + 1) % ACTIVE_DELEGATES == 0
    ensures |n.blocks| >= 100
    ensures var bs, rows, k := Round(n.blocks, b), Applied(n, b).rewardRows, |n.rewardRows|;
            var fees := TotalFees(bs);
            && |rows| == k + 101 && rows[..k] == n.rewardRows
            && forall i :: 0 <= i < 101 ==>
                 rows[k + i] == RewardRow(b.timestamp, fees / 101 + (if i == 100 then fees % 101 else 0), bs[i].reward,
                                          (|n.blocks| + 1) / 101, bs[i].generator)
  {
    hide ApplyBlock, LandedBooks, TotalFees, Round, SumRound;
    RoundIs(n.blocks, b);
    AppliedAtEnd(n, b);
  }
}
