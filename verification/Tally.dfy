/**
  Vote weights.  Each balance or vote change leaves rows in mem_round; `pending` is the sum of
  those rows by round and delegate key.  The running tally must agree with the plain sum over
  all voters, `Backing`.
 */
module Tally {
  import opened Base
  import opened Diff
  import opened Accounts

  type Pending = imap<(int, PublicKey), int>

  ghost function PendingAt(p: Pending, round: int, d: PublicKey): int {
    if (round, d) in p then p[(round, d)] else 0
  }

  ghost predicate FullPending(p: Pending) { forall k: (int, PublicKey) :: k in p }

  /** Rows a balance change of `x` adds: one per delegate the account votes for. */
  ghost function Accrue(p: Pending, round: int, ds: multiset<PublicKey>, x: int): Pending {
    imap k: (int, PublicKey) :: PendingAt(p, k.0, k.1) + if k.0 == round then x * ds[k.1] else 0
  }

  /** Rows a vote change adds: plus or minus the voter's current balance per key. */
  ghost function AccrueVotes(p: Pending, round: int, balance: int, votes: seq<string>): Pending {
    imap k: (int, PublicKey) :: PendingAt(p, k.0, k.1) + if k.0 == round then balance * Net(votes, k.1) else 0
  }

  ghost function CPending(p: Pending, round: int, conf: SideTable, tx: Transaction): Pending {
    var s := Row(conf, tx.From());
    var p1 := Accrue(p, round, s.delegates, -tx.Cost());
    match tx.asset
    case Send(r) => Accrue(p1, round, Row(conf, r).delegates, tx.amount)
    case Votes(vs) => AccrueVotes(p1, round, s.balance - tx.Cost(), vs)
    case _ => p1
  }

  ghost function UndoPending(p: Pending, round: int, conf: SideTable, tx: Transaction): Pending {
    var s := Row(conf, tx.From());
    var p1 := Accrue(p, round, s.delegates, tx.Cost());
    match tx.asset
    case Send(r) => Accrue(p1, round, Row(conf, r).delegates, -tx.amount)
    case Votes(vs) => AccrueVotes(p1, round, s.balance + tx.Cost(), Reversed(vs))
    case _ => p1
  }

  /** Registering resets the vote column of the new delegate, and so does undoing it. */
  ghost function ResetVote(votes: Column, tx: Transaction): Column {
    if tx.asset.Registration? then votes[tx.From() := 0] else votes
  }

  /** getVotes and updateVotes: the round's rows are summed by delegate key and added to that account. */
  ghost function UpdateVotes(votes: Column, p: Pending, round: int): Column {
    imap a: Address :: Get(votes, a) + if a.OfKey? then PendingAt(p, round, a.key) else 0
  }

  ghost function Flush(p: Pending, round: int): Pending {
    imap k: (int, PublicKey) :: if k.0 == round then 0 else PendingAt(p, k.0, k.1)
  }

  // ---------- the reference: a plain sum over voters ----------

  ghost function Weights(conf: SideTable, d: PublicKey): Column {
    imap a: Address :: Row(conf, a).balance * Row(conf, a).delegates[d]
  }

  ghost function Backing(U: set<Address>, conf: SideTable, d: PublicKey): int {
    Sum(U, Weights(conf, d))
  }

  lemma BackingUpdate(U: set<Address>, conf: SideTable, a: Address, s: Side, d: PublicKey)
    requires a in U
    ensures Backing(U, conf[a := s], d) ==
            Backing(U, conf, d) - Row(conf, a).balance * Row(conf, a).delegates[d] + s.balance * s.delegates[d]
  {
    SumUpdate(U, Weights(conf, d), Weights(conf[a := s], d), a);
  }

  lemma BackingBump(U: set<Address>, conf: SideTable, a: Address, x: int, d: PublicKey)
    requires a in U
    ensures Backing(U, Bump(conf, a, x), d) == Backing(U, conf, d) + x * Row(conf, a).delegates[d]
  {
    hide Backing;
    var s := Row(conf, a);
    var t := s.(balance := s.balance + x);
    BackingUpdate(U, conf, a, t, d);
    assert Bump(conf, a, x) == conf[a := t];
    assert (s.balance + x) * s.delegates[d] == s.balance * s.delegates[d] + x * s.delegates[d];
  }

  lemma BackingTouch(U: set<Address>, conf: SideTable, tx: Transaction, d: PublicKey)
    requires tx.From() in U
    requires Undoable(Row(conf, tx.From()), tx.asset)
    ensures var s := Row(conf, tx.From());
            Backing(U, Touch(conf, tx), d) == Backing(U, conf, d) - tx.Cost() * s.delegates[d] +
              if tx.asset.Votes? then (s.balance - tx.Cost()) * Net(tx.asset.votes, d) else 0
  {
    hide Touched, Backing, TypeEffect, ApplyDiff, Net, Row, Undoable;
    var s := Row(conf, tx.From());
    var t := Touched(s, tx);
    BackingUpdate(U, conf, tx.From(), t, d);
    TouchedDelegates(s, tx);
    if tx.asset.Votes? {
      VoteRows(s, tx.asset.votes, d);
      VotesEffect(s, tx.asset.votes);
      Expand(s.balance, tx.Cost(), s.delegates[d], Net(tx.asset.votes, d));
    } else {
      OtherEffect(s, tx.asset);
      Expand(s.balance, tx.Cost(), s.delegates[d], 0);
    }
  }

  lemma Expand(b: int, x: int, m: int, n: int)
    ensures (b - x) * (m + n) == b * m - x * m + (b - x) * n
  {
  }

  lemma TouchedDelegates(s: Side, tx: Transaction)
    ensures Touched(s, tx).balance == s.balance - tx.Cost()
    ensures Touched(s, tx).delegates == TypeEffect(s, tx.asset).delegates
  {
    hide ApplyDiff;
    TypeIgnoresBalance(s, s.balance - tx.Cost(), tx.asset);
  }

  lemma TouchOther(conf: SideTable, tx: Transaction, a: Address)
    ensures !tx.asset.Votes? || a != tx.From() ==> Row(Touch(conf, tx), a).delegates == Row(conf, a).delegates
    ensures a != tx.From() ==> Row(Touch(conf, tx), a) == Row(conf, a)
  {
    hide ApplyDiff;
  }

  /** What the rows of an apply, and of an undo from `conf`, add up to for one delegate. */
  ghost function CDelta(conf: SideTable, tx: Transaction, d: PublicKey): int {
    var s := Row(conf, tx.From());
    -tx.Cost() * s.delegates[d] +
    match tx.asset
    case Send(r) => tx.amount * Row(conf, r).delegates[d]
    case Votes(vs) => (s.balance - tx.Cost()) * Net(vs, d)
    case _ => 0
  }

  ghost function UndoDelta(conf: SideTable, tx: Transaction, d: PublicKey): int {
    var s := Row(conf, tx.From());
    tx.Cost() * s.delegates[d] +
    match tx.asset
    case Send(r) => -tx.amount * Row(conf, r).delegates[d]
    case Votes(vs) => (s.balance + tx.Cost()) * Net(Reversed(vs), d)
    case _ => 0
  }

  lemma AccrueAt(p: Pending, round: int, ds: multiset<PublicKey>, x: int, balance: int, votes: seq<string>, r: int,
      d: PublicKey)
    ensures PendingAt(Accrue(p, round, ds, x), r, d) == PendingAt(p, r, d) + if r == round then x * ds[d] else 0
    ensures PendingAt(AccrueVotes(p, round, balance, votes), r, d) ==
            PendingAt(p, r, d) + if r == round then balance * Net(votes, d) else 0
  {
    hide Net;
  }

  lemma DeltaOf(p: Pending, round: int, conf: SideTable, tx: Transaction, r: int, d: PublicKey)
    ensures PendingAt(CPending(p, round, conf, tx), r, d) ==
            PendingAt(p, r, d) + if r == round then CDelta(conf, tx, d) else 0
    ensures PendingAt(UndoPending(p, round, conf, tx), r, d) ==
            PendingAt(p, r, d) + if r == round then UndoDelta(conf, tx, d) else 0
  {
    CDeltaOf(p, round, conf, tx, r, d);
    UndoDeltaOf(p, round, conf, tx, r, d);
  }

  lemma CDeltaOf(p: Pending, round: int, conf: SideTable, tx: Transaction, r: int, d: PublicKey)
    ensures PendingAt(CPending(p, round, conf, tx), r, d) ==
            PendingAt(p, r, d) + if r == round then CDelta(conf, tx, d) else 0
  {
    hide Net, Row, Accrue, AccrueVotes, PendingAt;
    var s, x := Row(conf, tx.From()), tx.Cost();
    var p1 := Accrue(p, round, s.delegates, -x);
    match tx.asset
    case Send(to) =>
      AccrueAt(p, round, s.delegates, -x, 0, [], r, d);
      AccrueAt(p1, round, Row(conf, to).delegates, tx.amount, 0, [], r, d);
    case Votes(vs) =>
      AccrueAt(p, round, s.delegates, -x, 0, [], r, d);
      AccrueAt(p1, round, s.delegates, 0, s.balance - x, vs, r, d);
    case _ =>
      AccrueAt(p, round, s.delegates, -x, 0, [], r, d);
  }

  lemma UndoDeltaOf(p: Pending, round: int, conf: SideTable, tx: Transaction, r: int, d: PublicKey)
    ensures PendingAt(UndoPending(p, round, conf, tx), r, d) ==
            PendingAt(p, r, d) + if r == round then UndoDelta(conf, tx, d) else 0
  {
    hide Net, Row, Accrue, AccrueVotes, PendingAt, Reversed;
    var s, x := Row(conf, tx.From()), tx.Cost();
    var p1 := Accrue(p, round, s.delegates, x);
    match tx.asset
    case Send(to) =>
      AccrueAt(p, round, s.delegates, x, 0, [], r, d);
      AccrueAt(p1, round, Row(conf, to).delegates, -tx.amount, 0, [], r, d);
    case Votes(vs) =>
      AccrueAt(p, round, s.delegates, x, 0, [], r, d);
      AccrueAt(p1, round, s.delegates, 0, s.balance + x, Reversed(vs), r, d);
    case _ =>
      AccrueAt(p, round, s.delegates, x, 0, [], r, d);
  }

  lemma BackingDelta(U: set<Address>, conf: SideTable, tx: Transaction, d: PublicKey)
    requires tx.From() in U && (tx.asset.Send? ==> tx.asset.recipient in U)
    requires Undoable(Row(conf, tx.From()), tx.asset)
    ensures Backing(U, Credit(Touch(conf, tx), tx), d) == Backing(U, conf, d) + CDelta(conf, tx, d)
  {
    hide Undoable, Touch, Bump, Backing, Net, Row;
    BackingTouch(U, conf, tx, d);
    Negate(tx.Cost(), Row(conf, tx.From()).delegates[d]);
    if tx.asset.Send? {
      BackingBump(U, Touch(conf, tx), tx.asset.recipient, tx.amount, d);
      TouchOther(conf, tx, tx.asset.recipient);
    }
  }

  /** The rows a transaction adds move the tally by exactly as much as the voters' sum moves. */
  lemma {:induction false} TransactionTally(U: set<Address>, p: Pending, round: int, conf: SideTable,
      tx: Transaction, d: PublicKey)
    requires tx.From() in U && (tx.asset.Send? ==> tx.asset.recipient in U)
    requires Undoable(Row(conf, tx.From()), tx.asset)
    ensures PendingAt(CPending(p, round, conf, tx), round, d) - PendingAt(p, round, d) ==
            Backing(U, Credit(Touch(conf, tx), tx), d) - Backing(U, conf, d)
    ensures forall r :: r != round ==> PendingAt(CPending(p, round, conf, tx), r, d) == PendingAt(p, r, d)
  {
    hide Undoable, Touch, Bump, Backing, CPending, CDelta;
    BackingDelta(U, conf, tx, d);
    forall r ensures r != round ==> PendingAt(CPending(p, round, conf, tx), r, d) == PendingAt(p, r, d) {
      DeltaOf(p, round, conf, tx, r, d);
    }
    DeltaOf(p, round, conf, tx, round, d);
  }

  lemma DeltasCancel(conf: SideTable, tx: Transaction, d: PublicKey)
    requires Undoable(Row(conf, tx.From()), tx.asset)
    ensures CDelta(conf, tx, d) + UndoDelta(Credit(Touch(conf, tx), tx), tx, d) == 0
  {
    hide Undoable, Touch, Touched, Bump, Net, Row, TypeEffect, ApplyDiff, Reversed;
    var s, x := Row(conf, tx.From()), tx.Cost();
    var conf' := Credit(Touch(conf, tx), tx);
    var s', m := Row(conf', tx.From()), s.delegates[d];
    CreditedRow(conf, tx);
    match tx.asset
    case Send(r) =>
      SendCancels(conf, tx, r, d);
    case Votes(vs) =>
      VoteRows(s, vs, d);
      assert s'.delegates == ApplyDiff(s.delegates, vs) by { VotesEffect(s, vs); }
      CancelVotes(s.balance, x, m, Net(vs, d));
    case _ =>
      assert s'.delegates == s.delegates by { OtherEffect(s, tx.asset); }
      Negate(x, m);
  }

  lemma VotesEffect(s: Side, vs: seq<string>)
    ensures TypeEffect(s, Asset.Votes(vs)).delegates == ApplyDiff(s.delegates, vs)
  {
  }

  lemma OtherEffect(s: Side, asset: Asset)
    ensures !asset.Votes? ==> TypeEffect(s, asset).delegates == s.delegates
  {
    hide ApplyDiff;
  }

  lemma SendCancels(conf: SideTable, tx: Transaction, r: Address, d: PublicKey)
    requires tx.asset == Send(r)
    ensures CDelta(conf, tx, d) + UndoDelta(Credit(Touch(conf, tx), tx), tx, d) == 0
  {
    hide Touch, Bump, Row;
    TouchOther(conf, tx, tx.From());
    TouchOther(conf, tx, r);
    BumpKeepsDelegates(Touch(conf, tx), r, tx.amount, tx.From());
    BumpKeepsDelegates(Touch(conf, tx), r, tx.amount, r);
    Negate(tx.Cost(), Row(conf, tx.From()).delegates[d]);
    Negate(tx.amount, Row(conf, r).delegates[d]);
  }

  lemma Negate(x: int, m: int)
    ensures -x * m == -(x * m)
  {
  }

  lemma CancelVotes(b: int, x: int, m: int, n: int)
    ensures -x * m + (b - x) * n + (x * (m + n) + (b - x + x) * (-n)) == 0
  {
  }

  /** The rows of an undo cancel the rows of the apply, although the two use different balances. */
  lemma {:induction false} PendingInverse(p: Pending, round: int, conf: SideTable, tx: Transaction)
    requires FullPending(p)
    requires Undoable(Row(conf, tx.From()), tx.asset)
    ensures UndoPending(CPending(p, round, conf, tx), round, Credit(Touch(conf, tx), tx), tx) == p
  {
    hide Undoable, Touch, Credit, CDelta, UndoDelta;
    var conf' := Credit(Touch(conf, tx), tx);
    var p' := CPending(p, round, conf, tx);
    var q := UndoPending(p', round, conf', tx);
    forall k: (int, PublicKey) ensures k in q && k in p && q[k] == p[k] {
      DeltaOf(p, round, conf, tx, k.0, k.1);
      DeltaOf(p', round, conf', tx, k.0, k.1);
      DeltasCancel(conf, tx, k.1);
      assert k == (k.0, k.1);
    }
  }

  lemma VoteRows(s: Side, vs: seq<string>, d: PublicKey)
    requires Undoable(s, Asset.Votes(vs))
    ensures ApplyDiff(s.delegates, vs)[d] == s.delegates[d] + Net(vs, d)
    ensures Net(Reversed(vs), d) == -Net(vs, d)
  {
    FittingDiff(s.delegates, vs);
    NetReversed(vs, d);
  }

  lemma BumpKeepsDelegates(t: SideTable, a: Address, x: int, b: Address)
    ensures Row(Bump(t, a, x), b).delegates == Row(t, b).delegates
  {
  }

  /** The sender's row after the confirmed half of a transaction. */
  lemma CreditedRow(conf: SideTable, tx: Transaction)
    ensures var s, s' := Row(conf, tx.From()), Row(Credit(Touch(conf, tx), tx), tx.From());
            && s'.delegates == TypeEffect(s, tx.asset).delegates
            && (!tx.asset.Send? ==> s'.balance == s.balance - tx.Cost())
  {
    hide Touched;
    TouchedDelegates(Row(conf, tx.From()), tx);
  }

  /** Landing a round moves the pending sum into the vote column. */
  lemma LandingTally(votes: Column, p: Pending, round: int, d: PublicKey)
    ensures Get(UpdateVotes(votes, p, round), OfKey(d)) + PendingAt(Flush(p, round), round, d) ==
            Get(votes, OfKey(d)) + PendingAt(p, round, d)
    ensures PendingAt(Flush(p, round), round, d) == 0
  {
  }
}
