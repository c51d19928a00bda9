/** Round payouts: what logic/round.js credits to the forgers of a round, and what it takes back. */
module Payouts {
  import opened Base
  import opened Diff
  import opened Accounts
  import opened Tally

  const ACTIVE_DELEGATES: nat := 101

  datatype Changes = Changes(fees: int, feesRemaining: int, rewards: int, balance: int)

  /** helpers/round_changes.js at: an equal floor share of the fees, and the forger's own reward. */
  function ChangesAt(roundFees: nat, reward: int): Changes {
    var fees := roundFees / ACTIVE_DELEGATES;
    Changes(fees, roundFees - fees * ACTIVE_DELEGATES, reward, fees + reward)
  }

  datatype Payout = Payout(to: PublicKey, fee: int, reward: int)

  /** The part of the books the round code writes. */
  datatype Books = Books(accts: Accts, votes: Column, pending: Pending)

  ghost function PayOut(b: Books, round: int, p: Payout): Books {
    b.(accts := Pay(b.accts, OfKey(p.to), p.fee, p.reward),
       pending := Accrue(b.pending, round, Row(b.accts.conf, OfKey(p.to)).delegates, p.fee + p.reward))
  }

  ghost function PayAll(b: Books, round: int, ps: seq<Payout>): Books {
    if ps == [] then b else PayOut(PayAll(b, round, ps[..|ps| - 1]), round, ps[|ps| - 1])
  }

  /** One credit per forger, in block order, then the fee remainder to the last forger. */
  function ForwardPayouts(delegates: seq<PublicKey>, rewards: seq<int>, fees: nat): seq<Payout>
    requires |delegates| == |rewards|
  {
    var n := |delegates|;
    Shares(delegates, rewards, fees) +
    if n > 0 && ChangesAt(fees, 0).feesRemaining > 0
    then [Payout(delegates[n - 1], ChangesAt(fees, 0).feesRemaining, 0)] else []
  }

  function Shares(delegates: seq<PublicKey>, rewards: seq<int>, fees: nat): seq<Payout>
    requires |delegates| == |rewards|
  {
    seq(|delegates|, i requires 0 <= i < |delegates| =>
      Payout(delegates[i], ChangesAt(fees, rewards[i]).fees, ChangesAt(fees, rewards[i]).rewards))
  }

  /** Going backwards both lists are reversed, every amount is negated, and the remainder is
      taken from the entry that is now first. */
  function BackwardPayouts(delegates: seq<PublicKey>, rewards: seq<int>, fees: nat): seq<Payout>
    requires |delegates| == |rewards|
  {
    var n := |delegates|;
    Negated(Shares(delegates, rewards, fees)) +
    if n > 0 && ChangesAt(fees, 0).feesRemaining > 0
    then [Payout(delegates[n - 1], -ChangesAt(fees, 0).feesRemaining, 0)] else []
  }

  /** Reversed order, opposite amounts. */
  function Negated(ps: seq<Payout>): seq<Payout> {
    seq(|ps|, i requires 0 <= i < |ps| =>
      var p := ps[|ps| - 1 - i]; Payout(p.to, -p.fee, -p.reward))
  }

  // ---------- the backward run takes back exactly what the forward run gave ----------

  ghost function PayAccts(s: Accts, ps: seq<Payout>): Accts {
    if ps == [] then s
    else
      var p := ps[|ps| - 1];
      Pay(PayAccts(s, ps[..|ps| - 1]), OfKey(p.to), p.fee, p.reward)
  }

  lemma {:induction false} PayAllAccts(b: Books, round: int, ps: seq<Payout>)
    ensures PayAll(b, round, ps).accts == PayAccts(b.accts, ps)
    ensures PayAll(b, round, ps).votes == b.votes
  {
    hide Pay;
    if ps != [] { PayAllAccts(b, round, ps[..|ps| - 1]); }
  }

  lemma {:induction false} PayAcctsOne(s: Accts, ps: seq<Payout>, p: Payout)
    ensures PayAccts(Pay(s, OfKey(p.to), p.fee, p.reward), ps) == Pay(PayAccts(s, ps), OfKey(p.to), p.fee, p.reward)
  {
    hide Pay;
    if ps != [] {
      var n := |ps| - 1;
      PayAcctsOne(s, ps[..n], p);
      var q := ps[n];
      PayCommutes(PayAccts(s, ps[..n]), OfKey(q.to), q.fee, q.reward, OfKey(p.to), p.fee, p.reward);
    }
  }

  lemma {:induction false} PayAcctsConcat(s: Accts, ps: seq<Payout>, qs: seq<Payout>)
    ensures PayAccts(s, ps + qs) == PayAccts(PayAccts(s, ps), qs)
  {
    hide Pay;
    if qs == [] {
      assert ps + qs == ps;
    } else {
      var n := |qs| - 1;
      assert (ps + qs)[..|ps + qs| - 1] == ps + qs[..n];
      PayAcctsConcat(s, ps, qs[..n]);
    }
  }

  lemma {:induction false} PayAcctsWf(s: Accts, ps: seq<Payout>)
    requires s.Wf()
    ensures PayAccts(s, ps).Wf()
  {
    if ps != [] { PayAcctsWf(s, ps[..|ps| - 1]); }
  }

  lemma PayAcctsLast(s: Accts, ps: seq<Payout>, p: Payout)
    ensures PayAccts(s, ps + [p]) == Pay(PayAccts(s, ps), OfKey(p.to), p.fee, p.reward)
  {
    hide Pay;
    assert (ps + [p])[..|ps + [p]| - 1] == ps;
  }

  lemma PayAcctsFirst(s: Accts, p: Payout, ps: seq<Payout>)
    ensures PayAccts(s, [p] + ps) == PayAccts(Pay(s, OfKey(p.to), p.fee, p.reward), ps)
  {
    hide Pay;
    PayAcctsConcat(s, [p], ps);
    assert [p][..0] == [];
    assert PayAccts(s, [p]) == Pay(PayAccts(s, []), OfKey(p.to), p.fee, p.reward);
  }

  lemma NegatedShape(ps: seq<Payout>)
    requires ps != []
    ensures var p := ps[|ps| - 1];
            Negated(ps) == [Payout(p.to, -p.fee, -p.reward)] + Negated(ps[..|ps| - 1])
  {
  }

  lemma {:induction false} NegatedCancels(s: Accts, ps: seq<Payout>)
    requires s.Wf()
    ensures PayAccts(PayAccts(s, ps), Negated(ps)) == s
  {
    hide Pay, Negated, PayAccts;
    if ps != [] {
      var n := |ps| - 1;
      var p := ps[n];
      PayAcctsWf(s, ps[..n]);
      assert ps[..n] + [p] == ps;
      PayAcctsLast(s, ps[..n], p);
      NegatedShape(ps);
      PayAcctsFirst(PayAccts(s, ps), Payout(p.to, -p.fee, -p.reward), Negated(ps[..n]));
      PayCancels(PayAccts(s, ps[..n]), OfKey(p.to), p.fee, p.reward);
      NegatedCancels(s, ps[..n]);
    } else {
      PayNothing(s);
    }
  }

  lemma PayNothing(s: Accts)
    ensures Negated([]) == [] && PayAccts(s, []) == s
  {
  }

  /** For any forgers, rewards and fees, backward after forward leaves every account as it was. */
  lemma BackwardUndoesForward(s: Accts, delegates: seq<PublicKey>, rewards: seq<int>, fees: nat)
    requires |delegates| == |rewards|
    requires s.Wf()
    ensures PayAccts(PayAccts(s, ForwardPayouts(delegates, rewards, fees)),
                     BackwardPayouts(delegates, rewards, fees)) == s
  {
    hide Pay, PayAccts, Shares, Negated;
    var n := |delegates|;
    var shares := Shares(delegates, rewards, fees);
    var rem := ChangesAt(fees, 0).feesRemaining;
    NegatedCancels(s, shares);
    if n > 0 && rem > 0 {
      var last := Payout(delegates[n - 1], rem, 0);
      PayAcctsLast(s, shares, last);
      PayAcctsOne(PayAccts(s, shares), Negated(shares), last);
      PayAcctsLast(Pay(PayAccts(s, shares), OfKey(last.to), rem, 0), Negated(shares),
                   Payout(delegates[n - 1], -rem, 0));
      PayCancels(s, OfKey(last.to), rem, 0);
    } else {
      assert shares + [] == shares;
      assert Negated(shares) + [] == Negated(shares);
    }
  }

  // ---------- what is paid is what was collected ----------

  function FeesOf(ps: seq<Payout>): int {
    if ps == [] then 0 else FeesOf(ps[..|ps| - 1]) + ps[|ps| - 1].fee
  }

  function RewardsOf(ps: seq<Payout>): int {
    if ps == [] then 0 else RewardsOf(ps[..|ps| - 1]) + ps[|ps| - 1].reward
  }

  function SumOf(xs: seq<int>): int {
    if xs == [] then 0 else SumOf(xs[..|xs| - 1]) + xs[|xs| - 1]
  }

  lemma {:induction false} SharesTotals(delegates: seq<PublicKey>, rewards: seq<int>, fees: nat)
    requires |delegates| == |rewards|
    ensures FeesOf(Shares(delegates, rewards, fees)) == |delegates| * (fees / ACTIVE_DELEGATES)
    ensures RewardsOf(Shares(delegates, rewards, fees)) == SumOf(rewards)
  {
    if delegates != [] {
      var n := |delegates| - 1;
      SharesTotals(delegates[..n], rewards[..n], fees);
      assert Shares(delegates, rewards, fees)[..n] == Shares(delegates[..n], rewards[..n], fees);
    }
  }

  lemma ForwardTotals(delegates: seq<PublicKey>, rewards: seq<int>, fees: nat)
    requires |delegates| == |rewards| > 0
    ensures RewardsOf(ForwardPayouts(delegates, rewards, fees)) == SumOf(rewards)
    ensures FeesOf(ForwardPayouts(delegates, rewards, fees)) ==
            |delegates| * (fees / ACTIVE_DELEGATES) + ChangesAt(fees, 0).feesRemaining
  {
    hide FeesOf, RewardsOf, SumOf;
    var n := |delegates|;
    var shares := Shares(delegates, rewards, fees);
    var rem := ChangesAt(fees, 0).feesRemaining;
    SharesTotals(delegates, rewards, fees);
    if rem > 0 {
      AppendTotals(shares, Payout(delegates[n - 1], rem, 0));
    } else {
      assert ForwardPayouts(delegates, rewards, fees) == shares;
    }
  }

  lemma AppendTotals(ps: seq<Payout>, p: Payout)
    ensures FeesOf(ps + [p]) == FeesOf(ps) + p.fee && RewardsOf(ps + [p]) == RewardsOf(ps) + p.reward
  {
    assert (ps + [p])[..|ps|] == ps;
  }

  /** Rewards are always paid in full.  Fees are paid in full exactly when the round has 101
      forgers, or when there is too little to share out. */
  lemma PayoutTotals(delegates: seq<PublicKey>, rewards: seq<int>, fees: nat)
    requires |delegates| == |rewards| > 0
    ensures RewardsOf(ForwardPayouts(delegates, rewards, fees)) == SumOf(rewards)
    ensures FeesOf(ForwardPayouts(delegates, rewards, fees)) == fees <==>
            |delegates| == ACTIVE_DELEGATES || fees < ACTIVE_DELEGATES
  {
    hide FeesOf, RewardsOf, SumOf, ForwardPayouts;
    ForwardTotals(delegates, rewards, fees);
    var n, share := |delegates|, fees / ACTIVE_DELEGATES;
    assert n * share - ACTIVE_DELEGATES * share == (n - ACTIVE_DELEGATES) * share;
    if n != ACTIVE_DELEGATES && share != 0 {
      NonZeroProduct(n - ACTIVE_DELEGATES, share);
    }
  }

  lemma NonZeroProduct(x: int, y: int)
    requires x != 0 && y != 0
    ensures x * y != 0
  {
  }

  ghost function Balances(t: SideTable): Column { imap a: Address :: Row(t, a).balance }

  lemma BalancesBump(U: set<Address>, t: SideTable, a: Address, x: int)
    requires a in U
    ensures Sum(U, Balances(Bump(t, a, x))) == Sum(U, Balances(t)) + x
  {
    SumUpdate(U, Balances(t), Balances(Bump(t, a, x)), a);
  }

  lemma {:induction false} PayAcctsTotal(U: set<Address>, s: Accts, ps: seq<Payout>)
    requires forall i :: 0 <= i < |ps| ==> OfKey(ps[i].to) in U
    ensures Sum(U, Balances(PayAccts(s, ps).conf)) == Sum(U, Balances(s.conf)) + FeesOf(ps) + RewardsOf(ps)
  {
    hide Bump, Balances, Sum;
    if ps != [] {
      var n := |ps| - 1;
      var p := ps[n];
      var mid := PayAccts(s, ps[..n]);
      assert forall i :: 0 <= i < |ps[..n]| ==> ps[..n][i] == ps[i];
      PayAcctsTotal(U, s, ps[..n]);
      assert Pay(mid, OfKey(p.to), p.fee, p.reward).conf == Bump(mid.conf, OfKey(p.to), p.fee + p.reward);
      BalancesBump(U, mid.conf, OfKey(p.to), p.fee + p.reward);
    }
  }

  lemma PayRow(s: Accts, b: Address, f: int, r: int, a: Address)
    ensures Row(Pay(s, b, f, r).conf, a) ==
            Row(s.conf, a).(balance := Row(s.conf, a).balance + if a == b then f + r else 0)
    ensures Row(Pay(s, b, f, r).unconf, a).balance == Row(s.unconf, a).balance + if a == b then f + r else 0
    ensures Pay(s, b, f, r).secondKeys == s.secondKeys && Pay(s, b, f, r).produced == s.produced
    ensures s.conf == s.unconf ==> Pay(s, b, f, r).conf == Pay(s, b, f, r).unconf
  {
  }

  /** A payout never touches anything but the balance of a row. */
  lemma {:induction false} PayAcctsRow(s: Accts, ps: seq<Payout>, a: Address)
    ensures Row(PayAccts(s, ps).conf, a) ==
            Row(s.conf, a).(balance := Row(PayAccts(s, ps).conf, a).balance)
    ensures Row(PayAccts(s, ps).conf, a).balance - Row(s.conf, a).balance ==
            Row(PayAccts(s, ps).unconf, a).balance - Row(s.unconf, a).balance
    ensures s.conf == s.unconf ==> PayAccts(s, ps).conf == PayAccts(s, ps).unconf
    ensures (forall i :: 0 <= i < |ps| ==> ps[i].fee + ps[i].reward >= 0) ==>
            Row(PayAccts(s, ps).conf, a).balance >= Row(s.conf, a).balance
    ensures PayAccts(s, ps).secondKeys == s.secondKeys && PayAccts(s, ps).produced == s.produced
  {
    hide Pay, Row;
    if ps != [] {
      var n := |ps| - 1;
      var p := ps[n];
      assert forall i :: 0 <= i < |ps[..n]| ==> ps[..n][i] == ps[i];
      PayAcctsRow(s, ps[..n], a);
      PayRow(PayAccts(s, ps[..n]), OfKey(p.to), p.fee, p.reward, a);
    }
  }

  /** Payouts keep the tally in step with the voters' sum. */
  lemma {:induction false} PayAllTally(U: set<Address>, b: Books, round: int, ps: seq<Payout>, d: PublicKey)
    requires forall i :: 0 <= i < |ps| ==> OfKey(ps[i].to) in U
    ensures PendingAt(PayAll(b, round, ps).pending, round, d) - PendingAt(b.pending, round, d) ==
            Backing(U, PayAll(b, round, ps).accts.conf, d) - Backing(U, b.accts.conf, d)
    ensures forall r :: r != round ==> PendingAt(PayAll(b, round, ps).pending, r, d) == PendingAt(b.pending, r, d)
  {
    hide PayOut, Backing, PendingAt;
    if ps != [] {
      var n := |ps| - 1;
      assert forall i :: 0 <= i < |ps[..n]| ==> ps[..n][i] == ps[i];
      PayAllTally(U, b, round, ps[..n], d);
      PayOutTally(U, PayAll(b, round, ps[..n]), round, ps[n], d);
    }
  }

  lemma PayOutTally(U: set<Address>, b: Books, round: int, p: Payout, d: PublicKey)
    requires OfKey(p.to) in U
    ensures PendingAt(PayOut(b, round, p).pending, round, d) - PendingAt(b.pending, round, d) ==
            Backing(U, PayOut(b, round, p).accts.conf, d) - Backing(U, b.accts.conf, d)
    ensures forall r :: r != round ==> PendingAt(PayOut(b, round, p).pending, r, d) == PendingAt(b.pending, r, d)
  {
    hide Bump, Backing, Row, Add;
    BackingBump(U, b.accts.conf, OfKey(p.to), p.fee + p.reward, d);
  }

  // ---------- the rounds_rewards rows ----------

  datatype RewardRow = RewardRow(timestamp: int, fees: int, reward: int, round: int, key: PublicKey)

  /** One row per forger; the last one also records the remainder. */
  function RewardRows(timestamp: int, round: int, delegates: seq<PublicKey>, rewards: seq<int>,
                      fees: nat): seq<RewardRow>
    requires |delegates| == |rewards|
  {
    seq(|delegates|, i requires 0 <= i < |delegates| =>
      RewardRow(timestamp,
                ChangesAt(fees, rewards[i]).fees +
                (if i == |delegates| - 1 then ChangesAt(fees, 0).feesRemaining else 0),
                rewards[i], round, delegates[i]))
  }

  function RowFees(rows: seq<RewardRow>): int {
    if rows == [] then 0 else RowFees(rows[..|rows| - 1]) + rows[|rows| - 1].fees
  }

  function RowRewards(rows: seq<RewardRow>): int {
    if rows == [] then 0 else RowRewards(rows[..|rows| - 1]) + rows[|rows| - 1].reward
  }

  lemma {:induction false} RowPrefixTotals(rows: seq<RewardRow>, ps: seq<Payout>)
    requires |rows| == |ps|
    requires forall i :: 0 <= i < |rows| ==> rows[i].fees == ps[i].fee && rows[i].reward == ps[i].reward
    ensures RowFees(rows) == FeesOf(ps) && RowRewards(rows) == RewardsOf(ps)
  {
    if rows != [] {
      var n := |rows| - 1;
      assert forall i :: 0 <= i < n ==> rows[..n][i] == rows[i] && ps[..n][i] == ps[i];
      RowPrefixTotals(rows[..n], ps[..n]);
    }
  }

  /** The recorded rows add up to exactly what was credited. */
  lemma RewardRowsMatchPayouts(timestamp: int, round: int, delegates: seq<PublicKey>, rewards: seq<int>, fees: nat)
    requires |delegates| == |rewards| > 0
    ensures RowFees(RewardRows(timestamp, round, delegates, rewards, fees)) == FeesOf(ForwardPayouts(delegates,
            rewards, fees))
    ensures RowRewards(RewardRows(timestamp, round, delegates, rewards, fees)) == RewardsOf(ForwardPayouts(delegates,
            rewards, fees))
  {
    var n := |delegates|;
    var rows := RewardRows(timestamp, round, delegates, rewards, fees);
    var shares := Shares(delegates, rewards, fees);
    var all := ForwardPayouts(delegates, rewards, fees);
    var rem := ChangesAt(fees, 0).feesRemaining;
    RowPrefixTotals(rows[..n - 1], shares[..n - 1]);
    assert FeesOf(shares) == FeesOf(shares[..n - 1]) + shares[n - 1].fee;
    assert RewardsOf(shares) == RewardsOf(shares[..n - 1]) + shares[n - 1].reward;
    if rem > 0 {
      assert all[..n] == shares;
    } else {
      assert all == shares;
    }
  }
}
