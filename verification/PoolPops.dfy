/**
  Popping a block while transactions are pending (modules/blocks/chain.js deleteLastBlock leaves the pool
  alone).  Undoing a block's transaction below the pending ones is the same as undoing it without them,
  exactly as long as no pending vote list shares a key with a vote list of the block by the same sender.
 */
module PoolPops {
  import opened Base
  import opened Diff
  import opened Accounts
  import opened Tally
  import opened Payouts
  import opened Voting
  import opened Ledger
  import opened Storage
  import opened Steps
  import opened Rollback
  import opened Invariants
  import opened BlockRules
  import opened PopBlocks
  import opened Landing
  import opened History
  import opened PoolQueues
  import opened PoolBalances
  import opened PoolUndoing
  import opened PoolSteps
  import opened RunAccounts
  import opened ForkChoice

  // ---------- one pending vote list above one vote list of a block ----------

  /** The block's list is undone first, the pending one after it; that gives back the votes from before both if
      and only if they share no key. */
  lemma VotesUndoneBelowIff(ds: multiset<PublicKey>, vs: seq<string>, ws: seq<string>)
    requires AllSigned(vs) && DistinctKeys(vs) && AllSigned(ws) && DistinctKeys(ws) && NoDuplicates(ds)
    requires Fits(ds, vs) && Fits(ApplyDiff(ds, vs), ws)
    ensures ApplyDiff(ApplyDiff(ApplyDiff(ApplyDiff(ds, vs), ws), Reversed(vs)), Reversed(ws)) == ds <==>
            KeysApart(vs, ws)
  {
    var after := ApplyDiff(ApplyDiff(ApplyDiff(ApplyDiff(ds, vs), ws), Reversed(vs)), Reversed(ws));
    if KeysApart(vs, ws) {
      UndoRestoresIff(ds, vs);
      FitsBelow(ds, vs, ws);
      ReversedKeysApart(vs, ws);
      DiffsCommute(ApplyDiff(ds, vs), ws, Reversed(vs));
      UndoRestoresIff(ds, ws);
    } else {
      var i, j :| 0 <= i < |vs| && 0 <= j < |ws| && KeyOf(vs[i]) == KeyOf(ws[j]);
      SharedKeyGoesWrong(ds, vs, ws, i, j);
    }
  }

  lemma FitsBelow(ds: multiset<PublicKey>, vs: seq<string>, ws: seq<string>)
    requires DistinctKeys(vs) && KeysApart(vs, ws) && Fits(ApplyDiff(ds, vs), ws)
    ensures Fits(ds, ws)
  {
    forall j | 0 <= j < |ws| ensures IsMinus(ws[j]) <==> KeyOf(ws[j]) in ds {
      ApplyDiffAt(ds, vs, KeyOf(ws[j]));
      assert forall i :: 0 <= i < |vs| ==> KeyOf(vs[i]) != KeyOf(ws[j]);
    }
  }

  lemma ReversedSigns(vs: seq<string>)
    requires AllSigned(vs)
    ensures |Reversed(vs)| == |vs| && AllSigned(Reversed(vs))
    ensures forall i :: 0 <= i < |vs| ==>
              KeyOf(Reversed(vs)[i]) == KeyOf(vs[i]) && IsMinus(Reversed(vs)[i]) != IsMinus(vs[i])
    ensures DistinctKeys(vs) ==> DistinctKeys(Reversed(vs))
  {
    ReversedShape(vs);
    forall i | 0 <= i < |vs|
      ensures KeyOf(Reversed(vs)[i]) == KeyOf(vs[i]) && IsMinus(Reversed(vs)[i]) != IsMinus(vs[i])
    {
      assert Signed(vs[i]);
    }
  }

  lemma ReversedKeysApart(vs: seq<string>, ws: seq<string>)
    requires AllSigned(vs) && DistinctKeys(vs) && KeysApart(vs, ws)
    ensures KeysApart(Reversed(vs), ws) && KeysApart(ws, Reversed(vs)) && DistinctKeys(Reversed(vs))
  {
    ReversedSigns(vs);
  }

  /** What the four changes do to a key both lists name. */
  lemma SharedKeyGoesWrong(ds: multiset<PublicKey>, vs: seq<string>, ws: seq<string>, i: nat, j: nat)
    requires AllSigned(vs) && DistinctKeys(vs) && AllSigned(ws) && DistinctKeys(ws) && NoDuplicates(ds)
    requires Fits(ds, vs) && Fits(ApplyDiff(ds, vs), ws)
    requires i < |vs| && j < |ws| && KeyOf(vs[i]) == KeyOf(ws[j])
    ensures var d := KeyOf(vs[i]);
            ApplyDiff(ApplyDiff(ApplyDiff(ApplyDiff(ds, vs), ws), Reversed(vs)), Reversed(ws))[d] == 1 - ds[d]
  {
    var d := KeyOf(vs[i]);
    var m1 := ApplyDiff(ds, vs);
    var m2 := ApplyDiff(m1, ws);
    ReversedSigns(vs);
    ReversedSigns(ws);
    hide Reversed, ApplyDiff, Signed;
    ApplyDiffAt(ds, vs, d);
    ApplyDiffAt(m1, ws, d);
    ApplyDiffAt(m2, Reversed(vs), d);
    ApplyDiffAt(ApplyDiff(m2, Reversed(vs)), Reversed(ws), d);
    assert KeyOf(Reversed(vs)[i]) == d && KeyOf(Reversed(ws)[j]) == d;
  }

  // ---------- undoing below one pending transaction ----------

  lemma VotesUndoBelow(ds: multiset<PublicKey>, vs: seq<string>, ws: seq<string>)
    requires AllSigned(vs) && DistinctKeys(vs) && DistinctKeys(ws) && KeysApart(vs, ws)
    ensures ApplyDiff(ApplyDiff(ds, ws), Reversed(vs)) == ApplyDiff(ApplyDiff(ds, Reversed(vs)), ws)
  {
    ReversedKeysApart(vs, ws);
    DiffsCommute(ds, ws, Reversed(vs));
  }

  /** The shape both lists have once they were accepted. */
  predicate Shaped(asset: Asset) { asset.Votes? ==> AllSigned(asset.votes) && DistinctKeys(asset.votes) }

  /** A vote list only reads and writes the delegates of a row, undone or applied. */
  lemma VotesUndoCommute(s: Side, vs: seq<string>, asset: Asset)
    requires !asset.Votes?
    ensures TypeUndo(TypeEffect(s, asset), Asset.Votes(vs)) == TypeEffect(TypeUndo(s, Asset.Votes(vs)), asset)
    ensures TypeUndo(TypeEffect(s, Asset.Votes(vs)), asset) == TypeEffect(TypeUndo(s, asset), Asset.Votes(vs))
  {
    hide ApplyDiff, Reversed;
  }

  lemma GroupUndoCommute(s: Side, ks: seq<string>, min: int, life: int, asset: Asset)
    requires !asset.Multisignature?
    ensures TypeUndo(TypeEffect(s, asset), Multisignature(ks, min, life)) ==
            TypeEffect(TypeUndo(s, Multisignature(ks, min, life)), asset)
    ensures TypeUndo(TypeEffect(s, Multisignature(ks, min, life)), asset) ==
            TypeEffect(TypeUndo(s, asset), Multisignature(ks, min, life))
  {
    hide ApplyDiff, Reversed;
  }

  lemma OthersUndoCommute(s: Side, a: Asset, b: Asset)
    requires !a.Votes? && !b.Votes? && !a.Multisignature? && !b.Multisignature?
    requires (a.Registration? ==> !b.Registration?) && (a.SecondSignature? ==> !b.SecondSignature?)
    ensures TypeUndo(TypeEffect(s, b), a) == TypeEffect(TypeUndo(s, a), b)
  {
  }

  lemma TypeUndoBelow(s: Side, t: Transaction, u: Transaction)
    requires t.From() == u.From() && Compatible(t, u) && Shaped(t.asset) && Shaped(u.asset)
    ensures TypeUndo(TypeEffect(s, u.asset), t.asset) == TypeEffect(TypeUndo(s, t.asset), u.asset)
  {
    hide ApplyDiff, Reversed, AllSigned, DistinctKeys;
    if t.asset.Votes? && u.asset.Votes? {
      VotesUndoBelow(s.delegates, t.asset.votes, u.asset.votes);
    } else {
      hide TypeEffect, TypeUndo, KeysApart, Shaped;
      match (t.asset, u.asset)
      case (Votes(vs), _) => VotesUndoCommute(s, vs, u.asset);
      case (_, Votes(vs)) => VotesUndoCommute(s, vs, t.asset);
      case (Multisignature(ks, min, life), _) => GroupUndoCommute(s, ks, min, life, u.asset);
      case (_, Multisignature(ks, min, life)) => GroupUndoCommute(s, ks, min, life, t.asset);
      case _ => OthersUndoCommute(s, t.asset, u.asset);
    }
  }

  lemma UntouchedIs(s: Side, t: Transaction)
    ensures Untouched(s, t) == TypeUndo(s, t.asset).(balance := s.balance + t.Cost())
  {
    hide TypeUndo;
    TypeIgnoresBalance(s, s.balance + t.Cost(), t.asset);
  }

  lemma RowUndoBelow(s: Side, t: Transaction, u: Transaction)
    requires t.From() == u.From() && Compatible(t, u) && Shaped(t.asset) && Shaped(u.asset)
    ensures Untouched(Touched(s, u), t) == Touched(Untouched(s, t), u)
  {
    hide Untouched, Touched, TypeEffect, TypeUndo, Compatible, Shaped;
    var x, y := s.balance - u.Cost(), s.balance + t.Cost();
    TypeUndoBelow(s, t, u);
    TouchedIs(s, u);
    UntouchedIs(s, t);
    UntouchedIs(Touched(s, u), t);
    TouchedIs(Untouched(s, t), u);
    TypeIgnoresBalance(TypeEffect(s, u.asset), x, t.asset);
    TypeIgnoresBalance(TypeUndo(s, t.asset), y, u.asset);
  }

  lemma UntouchBelow(h: SideTable, t: Transaction, u: Transaction)
    requires Compatible(t, u) && Shaped(t.asset) && Shaped(u.asset)
    ensures Untouch(Touch(h, u), t) == Touch(Untouch(h, t), u)
  {
    hide Untouched, Touched, Compatible, Shaped;
    if t.From() == u.From() { RowUndoBelow(Row(h, t.From()), t, u); }
  }

  lemma UndoBelow(s: Accts, t: Transaction, u: Transaction)
    requires Compatible(t, u) && Shaped(t.asset) && Shaped(u.asset)
    ensures UndoPair(UEffect(s, u), t) == UEffect(UndoPair(s, t), u)
  {
    hide Untouch, Touch, Compatible, Shaped, Bump;
    if t.asset.Send? { BumpTouch(s.unconf, t.asset.recipient, -t.amount, u); }
    UntouchBelow(Uncredit(s.unconf, t), t, u);
  }

  ghost predicate AllShaped(txs: seq<Transaction>) { forall i :: 0 <= i < |txs| ==> Shaped(txs[i].asset) }

  lemma {:induction false} UndoBelowAll(s: Accts, t: Transaction, us: seq<Transaction>)
    requires AllShaped(us) && Shaped(t.asset) && forall j :: 0 <= j < |us| ==> Compatible(t, us[j])
    ensures UndoPair(UFold(s, us), t) == UFold(UndoPair(s, t), us)
  {
    hide UndoPair, UEffect, Compatible, Shaped;
    if us != [] {
      var pre, u := us[..|us| - 1], us[|us| - 1];
      assert forall j :: 0 <= j < |pre| ==> pre[j] == us[j];
      UndoBelowAll(s, t, pre);
      UndoBelow(UFold(s, pre), t, u);
    }
  }

  /** No transaction of the block gets in the way of a pending one. */
  ghost predicate AllCompatible(txs: seq<Transaction>, us: seq<Transaction>) {
    forall i, j :: 0 <= i < |txs| && 0 <= j < |us| ==> Compatible(txs[i], us[j])
  }

  lemma {:induction false} BlockUndoneBelow(s: Accts, txs: seq<Transaction>, us: seq<Transaction>)
    requires AllShaped(txs) && AllShaped(us) && AllCompatible(txs, us)
    ensures UndoFold(UFold(s, us), txs) == UFold(UndoFold(s, txs), us)
    decreases |txs|
  {
    hide UndoPair, UEffect, Compatible, Shaped, UFold;
    if txs != [] {
      var pre, t := txs[..|txs| - 1], txs[|txs| - 1];
      assert forall i :: 0 <= i < |pre| ==> pre[i] == txs[i];
      UndoBelowAll(s, t, us);
      BlockUndoneBelow(UndoPair(s, t), pre, us);
    }
  }

  // ---------- payouts and counters below the pending transactions ----------

  lemma PayBelow(s: Accts, a: Address, f: int, r: int, u: Transaction)
    ensures Pay(UEffect(s, u), a, f, r) == UEffect(Pay(s, a, f, r), u)
  {
    hide Touch, Bump;
    BumpTouch(s.unconf, a, f + r, u);
  }

  lemma {:induction false} PayBelowAll(s: Accts, a: Address, f: int, r: int, us: seq<Transaction>)
    ensures Pay(UFold(s, us), a, f, r) == UFold(Pay(s, a, f, r), us)
  {
    hide Pay, UEffect;
    if us != [] {
      PayBelowAll(s, a, f, r, us[..|us| - 1]);
      PayBelow(UFold(s, us[..|us| - 1]), a, f, r, us[|us| - 1]);
    }
  }

  lemma {:induction false} PayoutsBelow(s: Accts, ps: seq<Payout>, us: seq<Transaction>)
    ensures PayAccts(UFold(s, us), ps) == UFold(PayAccts(s, ps), us)
  {
    hide Pay, UFold;
    if ps != [] {
      var n := |ps| - 1;
      PayoutsBelow(s, ps[..n], us);
      PayBelowAll(PayAccts(s, ps[..n]), OfKey(ps[n].to), ps[n].fee, ps[n].reward, us);
    }
  }

  lemma {:induction false} ProducedBelow(s: Accts, p: Column, us: seq<Transaction>)
    ensures UFold(s.(produced := p), us) == UFold(s, us).(produced := p)
    ensures UFold(s, us).produced == s.produced
  {
    hide Touch;
    if us != [] { ProducedBelow(s, p, us[..|us| - 1]); }
  }

  // ---------- the transactions of a block and what is pending above it ----------

  predicate ListsApart(a: Asset, b: Asset) { a.Votes? && b.Votes? ==> KeysApart(a.votes, b.votes) }

  /** No vote list of the block shares a key with a pending vote list of the same sender. */
  predicate NoSharedVotes(txs: seq<Transaction>, us: seq<Transaction>) {
    forall i, j | 0 <= i < |txs| && 0 <= j < |us| && txs[i].From() == us[j].From() ::
      ListsApart(txs[i].asset, us[j].asset)
  }

  /** A group registration is its sender's first. */
  ghost predicate NewGroup(conf: SideTable, u: Transaction) {
    u.asset.Multisignature? ==>
      && Row(conf, u.From()).multisignatures == multiset{} && u.asset.keysgroup != []
      && forall k :: 0 <= k < |u.asset.keysgroup| ==> !IsMinus(u.asset.keysgroup[k])
  }

  ghost predicate NewGroups(conf: SideTable, us: seq<Transaction>) {
    forall j :: 0 <= j < |us| ==> NewGroup(conf, us[j])
  }

  lemma VerifiedNewGroup(s: Accts, genesisKey: PublicKey, tx: Transaction)
    requires Verified(s, genesisKey, tx)
    ensures NewGroup(s.conf, tx)
  {
    hide CheckDelegates, UsernameFree, DistinctKeys;
  }

  /** `b` is the block on top of `q`. */
  ghost predicate HeadOn(q: Node, genesisKey: PublicKey, b: Block) {
    |q.blocks| > 0 && BlockVerified(q, genesisKey, b) && ApplyBlock(q, b).ok && Settled(q.books, NextRound(q))
  }

  /** In the unconfirmed pass of a block its transactions are pending over the node before it. */
  lemma {:induction false} BlockAhead(q: Node, genesisKey: PublicKey, txs: seq<Transaction>)
    requires Settled(q.books, NextRound(q)) && UAll(q, txs).ok
    requires forall i :: 0 <= i < |txs| ==> Verified(q.books.accts, genesisKey, txs[i])
    ensures Ahead(UAll(q, txs).node, txs) && Cleared(UAll(q, txs).node, txs) == q
    ensures NewGroups(q.books.accts.conf, txs)
  {
    hide Ahead, Verified, UAllowed, UStep, NewGroup, Cleared, Settled;
    if txs == [] {
      SettledAhead(q);
    } else {
      var pre, tx := txs[..|txs| - 1], txs[|txs| - 1];
      assert forall i :: 0 <= i < |pre| ==> pre[i] == txs[i];
      BlockAhead(q, genesisKey, pre);
      var n := UAll(q, pre).node;
      ClearedConf(n, pre);
      VerifiedByConf(q.books.accts, n.books.accts, genesisKey, tx);
      ApplyAhead(n, pre, genesisKey, q.books, NextRound(q), tx);
      VerifiedNewGroup(q.books.accts, genesisKey, tx);
      assert pre + [tx] == txs;
    }
  }

  /** With nothing unconfirmed a node is its own base. */
  lemma SettledAhead(q: Node)
    requires Settled(q.books, NextRound(q))
    ensures Ahead(q, []) && Cleared(q, []) == q
  {
    hide RowSane, PendingSane;
    assert q.flags - {} == q.flags;
  }

  lemma HeadPending(q: Node, genesisKey: PublicKey, b: Block)
    requires HeadOn(q, genesisKey, b)
    ensures PendingOk(q.books.accts.conf, b.transactions) && NewGroups(q.books.accts.conf, b.transactions)
    ensures q.books.accts.conf == q.books.accts.unconf
    ensures forall a: Address :: NoDuplicates(Row(q.books.accts.conf, a).delegates)
  {
    hide Verified, RowSane, PendingSane, PendingOk, NewGroups, UAll, CAll, Tick, NoDuplicates;
    assert UAll(q, b.transactions).ok;
    BlockAhead(q, genesisKey, b.transactions);
    forall a: Address
      ensures NoDuplicates(Row(q.books.accts.conf, a).delegates)
    {
      SettledAt(q.books, NextRound(q), a);
      SaneVotes(q.books, a);
    }
  }

  lemma SaneVotes(b: Books, a: Address)
    requires RowSane(b, a)
    ensures NoDuplicates(Row(b.accts.conf, a).delegates)
  {
  }

  /** But for the balance, a block leaves each account as its unconfirmed pass did. */
  lemma HeadShows(q: Node, genesisKey: PublicKey, b: Block, a: Address)
    requires HeadOn(q, genesisKey, b)
    ensures var r := Row(Applied(q, b).books.accts.conf, a);
            r == Row(UFold(q.books.accts, b.transactions).unconf, a).(balance := r.balance)
  {
    hide Settled, BlockVerified, ApplyBlock, BooksFold, UFold, CFold, PairFold, RunOk, SumRound, ForwardPayouts,
         PayAccts, PayAll, Add, RewardRows, Row;
    var round, txs, s := NextRound(q), b.transactions, SumRound(q.blocks + [b]);
    var c := BooksFold(q.books, round, txs);
    VerifiedRunOk(q, genesisKey, b);
    FoldKeeps(q.books, round, txs);
    BooksFoldAccts(q.books, round, txs);
    BlockIsPairs(q.books.accts, txs);
    CFoldUnconfBalanceOnly(UFold(q.books.accts, txs), txs, a);
    SettledHalves(c, round);
    if (|q.blocks| + 1) % ACTIVE_DELEGATES == 0 {
      AppliedAtEnd(q, b);
      PaidAccts(q, b);
      PayAcctsRow(c.accts.(produced := Add(c.accts.produced, OfKey(b.generator), 1)),
                  ForwardPayouts(s.delegates, s.rewards, s.fees), a);
    } else {
      AppliedInside(q, b);
    }
  }

  lemma SettledHalves(b: Books, round: int)
    requires Settled(b, round)
    ensures b.accts.conf == b.accts.unconf
  {
    hide RowSane, PendingSane;
  }

  lemma {:induction false} GroupShows(s: Accts, txs: seq<Transaction>, i: nat)
    requires i < |txs| && PendingOk(s.unconf, txs) && NewGroup(s.unconf, txs[i]) && txs[i].asset.Multisignature?
    ensures Row(UFold(s, txs).unconf, txs[i].From()).multisignatures != multiset{}
  {
    hide Touched, ApplyDiff, Undoable, IsMinus;
    var pre, t := txs[..|txs| - 1], txs[|txs| - 1];
    var r := Row(UFold(s, pre).unconf, t.From());
    TouchedFields(r, t);
    if i < |txs| - 1 {
      assert forall k :: 0 <= k < |pre| ==> pre[k] == txs[k];
      GroupShows(s, pre, i);
      assert Compatible(txs[i], t);
    } else {
      TouchedGroup(r, t);
      SomebodyAdded(r.multisignatures, t.asset.keysgroup);
    }
  }

  lemma TouchedGroup(r: Side, t: Transaction)
    requires t.asset.Multisignature?
    ensures Touched(r, t).multisignatures == ApplyDiff(r.multisignatures, t.asset.keysgroup)
  {
    hide ApplyDiff;
  }

  lemma SomebodyAdded(ds: multiset<PublicKey>, ks: seq<string>)
    requires ks != [] && !IsMinus(ks[|ks| - 1])
    ensures ApplyDiff(ds, ks) != multiset{}
  {
    assert KeyOf(ks[|ks| - 1]) in ApplyDiff(ds, ks);
  }

  /** A transaction of the head and a pending one of the same sender can only meet in their vote lists. */
  lemma OnlyVotesMeet(q: Node, genesisKey: PublicKey, b: Block, us: seq<Transaction>, i: nat, j: nat)
    requires HeadOn(q, genesisKey, b) && i < |b.transactions| && j < |us|
    requires PendingOk(Applied(q, b).books.accts.conf, us) && NewGroups(Applied(q, b).books.accts.conf, us)
    ensures var t, u := b.transactions[i], us[j];
            Compatible(t, u) || (t.From() == u.From() && t.asset.Votes? && u.asset.Votes?)
  {
    hide HeadOn, UFold, KeysApart, Applied, Row, AllSigned, DistinctKeys, NoDuplicates, Fits;
    var t, u, s, txs := b.transactions[i], us[j], q.books.accts, b.transactions;
    var conf := Applied(q, b).books.accts.conf;
    HeadPending(q, genesisKey, b);
    HeadShows(q, genesisKey, b, t.From());
    if t.From() == u.From() {
      KindShows(s, txs, i);
      assert Undoable(Row(conf, u.From()), u.asset) && NewGroup(conf, u) && NewGroup(s.unconf, t);
      if t.asset.Multisignature? { GroupShows(s, txs, i); }
    }
  }

  lemma AllCompatibleIff(q: Node, genesisKey: PublicKey, b: Block, us: seq<Transaction>)
    requires HeadOn(q, genesisKey, b)
    requires PendingOk(Applied(q, b).books.accts.conf, us) && NewGroups(Applied(q, b).books.accts.conf, us)
    ensures AllCompatible(b.transactions, us) <==> NoSharedVotes(b.transactions, us)
    ensures GroupSenders(b.transactions) !! GroupSenders(us)
  {
    hide HeadOn, PendingOk, NewGroups, KeysApart, GroupSenders;
    var txs := b.transactions;
    forall i, j | 0 <= i < |txs| && 0 <= j < |us|
      ensures Compatible(txs[i], us[j]) || (txs[i].From() == us[j].From() && txs[i].asset.Votes? && us[j].asset.Votes?)
    {
      OnlyVotesMeet(q, genesisKey, b, us, i, j);
    }
    GroupsApart(q, genesisKey, b, us);
  }

  lemma GroupsApart(q: Node, genesisKey: PublicKey, b: Block, us: seq<Transaction>)
    requires HeadOn(q, genesisKey, b)
    requires PendingOk(Applied(q, b).books.accts.conf, us) && NewGroups(Applied(q, b).books.accts.conf, us)
    ensures GroupSenders(b.transactions) !! GroupSenders(us)
  {
    hide HeadOn, PendingOk, NewGroups, KeysApart, GroupSenders;
    var txs := b.transactions;
    forall a | a in GroupSenders(txs) ensures a !in GroupSenders(us) {
      GroupSenderFound(txs, a);
      GroupSenderFound(us, a);
      if a in GroupSenders(us) {
        var i :| 0 <= i < |txs| && txs[i].asset.Multisignature? && txs[i].From() == a;
        var j :| 0 <= j < |us| && us[j].asset.Multisignature? && us[j].From() == a;
        OnlyVotesMeet(q, genesisKey, b, us, i, j);
        assert false;
      }
    }
  }

  /** What is pending above a block is pending without it, when the two do not meet. */
  lemma {:induction false} UndoableBelow(s: Accts, txs: seq<Transaction>, u: Transaction)
    requires PendingOk(s.unconf, txs) && NoDuplicates(Row(s.unconf, u.From()).delegates)
    requires forall i :: 0 <= i < |txs| ==> Compatible(txs[i], u)
    requires Undoable(Row(UFold(s, txs).unconf, u.From()), u.asset)
    ensures Undoable(Row(s.unconf, u.From()), u.asset)
    ensures u.asset.Multisignature? ==>
              Row(UFold(s, txs).unconf, u.From()).multisignatures == Row(s.unconf, u.From()).multisignatures
  {
    hide Undoable, Compatible, Touched, NoDuplicates;
    if txs != [] {
      var pre, t := txs[..|txs| - 1], txs[|txs| - 1];
      assert forall i :: 0 <= i < |pre| ==> pre[i] == txs[i];
      LastPending(s, txs);
      NoDuplicatesAhead(s, pre, u.From());
      if t.From() == u.From() { UndoableBefore(Row(UFold(s, pre).unconf, u.From()), t, u); }
      UndoableBelow(s, pre, u);
    }
  }

  lemma UndoableBefore(r: Side, t: Transaction, u: Transaction)
    requires t.From() == u.From() && Compatible(t, u) && NoDuplicates(r.delegates)
    requires Undoable(r, t.asset) && Undoable(Touched(r, t), u.asset)
    ensures Undoable(r, u.asset)
    ensures u.asset.Multisignature? ==> Touched(r, t).multisignatures == r.multisignatures
  {
    hide ApplyDiff, Fits, NoDuplicates, AllSigned, KeysApart, DistinctKeys, Touched;
    TouchedFields(r, t);
    match (t.asset, u.asset)
    case (Votes(vs), Votes(ws)) => FitsBelow(r.delegates, vs, ws);
    case _ =>
  }

  lemma StillPending(q: Node, genesisKey: PublicKey, b: Block, us: seq<Transaction>)
    requires HeadOn(q, genesisKey, b) && AllCompatible(b.transactions, us)
    requires PendingOk(Applied(q, b).books.accts.conf, us) && NewGroups(Applied(q, b).books.accts.conf, us)
    ensures PendingOk(q.books.accts.conf, us) && NewGroups(q.books.accts.conf, us)
  {
    hide HeadOn, UFold, Applied, Row, Undoable, Compatible, NoDuplicates, IsMinus;
    var s, txs := q.books.accts, b.transactions;
    HeadPending(q, genesisKey, b);
    forall j | 0 <= j < |us| ensures Undoable(Row(s.conf, us[j].From()), us[j].asset) && NewGroup(s.conf, us[j]) {
      var u := us[j];
      HeadShows(q, genesisKey, b, u.From());
      assert NewGroup(Applied(q, b).books.accts.conf, u);
      var r := Row(Applied(q, b).books.accts.conf, u.From());
      UndoableIgnoresBalance(Row(UFold(s, txs).unconf, u.From()), r.balance, u.asset);
      UndoableBelow(s, txs, u);
    }
  }

  lemma UndoableIgnoresBalance(r: Side, x: int, asset: Asset)
    ensures Undoable(r.(balance := x), asset) <==> Undoable(r, asset)
  {
  }

  // ---------- the pop itself ----------

  /** Everything but the unconfirmed columns and the flags. */
  ghost predicate SameBooks(b: Books, c: Books) { b == c.(accts := c.accts.(unconf := b.accts.unconf)) }

  ghost predicate SameBase(n: Node, m: Node) {
    SameBooks(n.books, m.books) && n == m.(books := n.books, flags := n.flags)
  }

  lemma {:induction false} UndoAllBase(n: Node, m: Node, round: int, txs: seq<Transaction>)
    requires SameBase(n, m)
    ensures SameBase(UndoAll(n, round, txs), UndoAll(m, round, txs))
    decreases |txs|
  {
    hide Untouch, Uncredit, UndoPending, TxRounds;
    if txs != [] {
      UndoAllBase(UndoStep(n, round, txs[|txs| - 1]), UndoStep(m, round, txs[|txs| - 1]), round, txs[..|txs| - 1]);
    }
  }

  lemma {:induction false} PayAllBase(b: Books, c: Books, round: int, ps: seq<Payout>)
    requires SameBooks(b, c)
    ensures SameBooks(PayAll(b, round, ps), PayAll(c, round, ps))
  {
    hide Bump, Accrue, Add;
    if ps != [] { PayAllBase(b, c, round, ps[..|ps| - 1]); }
  }

  /** Popping does not look at what is unconfirmed. */
  lemma PopBase(n: Node, m: Node)
    requires |m.blocks| > 0 && SameBase(n, m)
    ensures PopBlock(n).ok == PopBlock(m).ok && SameBase(PopBlock(n).node, PopBlock(m).node)
  {
    hide UndoAll, PayAll, SumRound, BackwardPayouts, Overwrite, AddPending, Flush, SelectOtherRounds,
         SnapshotAvailable, Add;
    if |n.blocks| > 1 {
      var round, txs := CalcRound(|n.blocks|), n.blocks[|n.blocks| - 1].transactions;
      UndoAllBase(n, m, round, txs);
      var u, v, s := UndoAll(n, round, txs), UndoAll(m, round, txs), SumRound(n.blocks);
      var ps := BackwardPayouts(s.delegates, s.rewards, s.fees);
      PayAllBase(CountBlock(u, -1).books, CountBlock(v, -1).books, round, ps);
    }
  }

  lemma PopFlags(n: Node)
    requires |n.blocks| > 1
    ensures PopBlock(n).node.flags == n.flags - GroupSenders(n.blocks[|n.blocks| - 1].transactions)
  {
    hide UndoAll, BackwardLand, PopBlock;
    var round, txs := CalcRound(|n.blocks|), n.blocks[|n.blocks| - 1].transactions;
    UndoAllBooks(n, round, txs);
    PopTicks(n);
    TickFlags(UndoAll(n, round, txs));
  }

  lemma PopTicks(n: Node)
    requires |n.blocks| > 1
    ensures var u := UndoAll(n, CalcRound(|n.blocks|), n.blocks[|n.blocks| - 1].transactions);
            && |u.blocks| > 1 && PopBlock(n).ok == BackwardTick(u).ok
            && PopBlock(n).node.flags == (if PopBlock(n).ok then BackwardTick(u).node.flags else u.flags)
            && (PopBlock(n).ok ==> PopBlock(n).node.books == BackwardTick(u).node.books)
            && (!PopBlock(n).ok ==> PopBlock(n).node.books == n.books)
  {
    hide UndoAll, BackwardTick;
  }

  lemma TickFlags(n: Node)
    requires |n.blocks| > 1
    ensures BackwardTick(n).node.flags == n.flags
  {
    hide PayAll, SumRound, BackwardPayouts, Overwrite, AddPending, Flush, SelectOtherRounds, SnapshotAvailable, Add;
  }

  /** The accounts a backward tick leaves with the pending transactions on top. */
  lemma TickBelow(n: Node, m: Node, us: seq<Transaction>)
    requires |n.blocks| > 1 && SameBase(n, m) && n.books.accts == UFold(m.books.accts, us)
    ensures BackwardTick(n).ok == BackwardTick(m).ok
    ensures BackwardTick(n).node.books.accts == UFold(BackwardTick(m).node.books.accts, us)
  {
    hide BackwardLand, Add, UFold;
    var n1, m1 := CountBlock(n, -1), CountBlock(m, -1);
    ProducedBelow(m.books.accts, m1.books.accts.produced, us);
    assert m1.books.accts == m.books.accts.(produced := m1.books.accts.produced);
    assert n1.books.accts == UFold(m1.books.accts, us);
    LandBelow(n1, m1, us);
  }

  lemma LandBelow(n: Node, m: Node, us: seq<Transaction>)
    requires |n.blocks| > 1 && SameBase(n, m) && n.books.accts == UFold(m.books.accts, us)
    ensures BackwardLand(n).ok == BackwardLand(m).ok
    ensures BackwardLand(n).node.books.accts == UFold(BackwardLand(m).node.books.accts, us)
  {
    hide PayAll, SumRound, BackwardPayouts, Overwrite, AddPending, Flush, SelectOtherRounds, UFold, PayAccts;
    var round, s := CalcRound(|n.blocks|), SumRound(n.blocks);
    var ps := BackwardPayouts(s.delegates, s.rewards, s.fees);
    PayAllAccts(n.books, round, ps);
    PayAllAccts(m.books, round, ps);
    PayoutsBelow(m.books.accts, ps, us);
    var p := PayAccts(m.books.accts, ps);
    if SnapshotAvailable(m.snapshot, round) {
      var o := Overwrite(p.produced, m.snapshot.value.produced);
      ProducedBelow(p, o, us);
      assert BackwardLand(m).node.books.accts == p.(produced := o);
      assert BackwardLand(n).node.books.accts == UFold(p, us).(produced := o);
    }
  }

  /** A pop under pending transactions that the block does not meet: they stay on top of what is left. */
  lemma PopBelow(n: Node, m: Node, us: seq<Transaction>)
    requires |m.blocks| > 1 && SameBase(n, m) && n.books.accts == UFold(m.books.accts, us)
    requires var txs := m.blocks[|m.blocks| - 1].transactions;
             AllShaped(txs) && AllShaped(us) && AllCompatible(txs, us)
    ensures PopBlock(n).node.books.accts == UFold(PopBlock(m).node.books.accts, us)
  {
    hide UndoAll, BackwardTick, UFold, UndoFold, PopBlock, SameBooks, AllCompatible, AllShaped, BooksUndoFold;
    var round, txs := CalcRound(|m.blocks|), m.blocks[|m.blocks| - 1].transactions;
    PopBase(n, m);
    UndoAllBase(n, m, round, txs);
    UndoAllBooks(n, round, txs);
    UndoAllBooks(m, round, txs);
    UndoFoldAccts(n.books, round, txs);
    UndoFoldAccts(m.books, round, txs);
    BlockUndoneBelow(m.books.accts, txs, us);
    PopTicks(n);
    PopTicks(m);
    TickBelow(UndoAll(n, round, txs), UndoAll(m, round, txs), us);
  }

  // ---------- in a run ----------

  /** `us` is pending on `n`, and without it the node is `m`. */
  ghost predicate Above(n: Node, us: seq<Transaction>, m: Node) {
    Ahead(n, us) && Cleared(n, us) == m && NewGroups(m.books.accts.conf, us)
  }

  lemma AboveIs(n: Node, us: seq<Transaction>, m: Node)
    requires Above(n, us, m)
    ensures SameBase(n, m) && m.flags == n.flags - GroupSenders(us) && GroupSenders(us) <= n.flags
    ensures n.books.accts == UFold(m.books.accts, us)
    ensures m.books.accts.unconf == m.books.accts.conf == n.books.accts.conf
    ensures PendingOk(m.books.accts.conf, us) && NewGroups(m.books.accts.conf, us) && Full(m.books.accts.conf)
  {
    hide PendingOk, NewGroup, UFold, GroupSenders;
    UFoldOnlyUnconfirmed(m.books.accts, us);
  }

  lemma AboveFrom(n: Node, us: seq<Transaction>, m: Node)
    requires SameBase(n, m) && m.flags == n.flags - GroupSenders(us) && GroupSenders(us) <= n.flags
    requires n.books.accts == UFold(m.books.accts, us) && m.books.accts.unconf == m.books.accts.conf
    requires PendingOk(m.books.accts.conf, us) && NewGroups(m.books.accts.conf, us) && Full(m.books.accts.conf)
    ensures Above(n, us, m)
  {
    hide PendingOk, NewGroup, UFold, GroupSenders;
    assert m.books.accts == n.books.accts.(unconf := n.books.accts.conf);
  }

  lemma PendingShaped(conf: SideTable, us: seq<Transaction>)
    requires PendingOk(conf, us)
    ensures AllShaped(us)
  {
    hide NoDuplicates, Fits, Compatible, AllSigned, DistinctKeys;
  }

  /** The head of a chain whose accounts are replayed, on the node before it. */
  ghost function Before(m: Node, n0: Node): Node
    requires |m.blocks| > 1 && |n0.blocks| == 1
  {
    Replay(n0, Chain(m)[..|m.blocks| - 2])
  }

  lemma HeadFacts(m: Node, n0: Node, genesisKey: PublicKey)
    requires AcctsReplayed(m, n0, genesisKey) && |m.blocks| > 1
    ensures |n0.blocks| == 1
    ensures var q, b := Before(m, n0), m.blocks[|m.blocks| - 1];
            && HeadOn(q, genesisKey, b) && m.books.accts.conf == Applied(q, b).books.accts.conf
            && (PopBlock(m).ok ==> PopBlock(m).node.books.accts.conf == q.books.accts.conf)
  {
    hide Genesis, Settled, Tallied, BlockVerified, ApplyBlock, PopBlock, Replay, Replayable;
    GenesisBlock(n0);
    var c := Chain(m);
    var pre, b := c[..|c| - 1], c[|c| - 1];
    PreviousFacts(n0, genesisKey, c);
    assert m.blocks[|m.blocks| - 1] == b && m.blocks == Before(m, n0).blocks + [b];
    if PopBlock(m).ok { PopAlike(m, Before(m, n0), genesisKey, b); }
  }

  /** Whether a pop goes through does not depend on what is pending.  If it fails, or if the block and the
      pending transactions share no vote, the same is pending above what is left. */
  lemma PopAbove(n: Node, us: seq<Transaction>, m: Node, n0: Node, genesisKey: PublicKey)
    requires Above(n, us, m) && AcctsReplayed(m, n0, genesisKey)
    ensures |m.blocks| > 0 && n.blocks == m.blocks && PopBlock(n).ok == PopBlock(m).ok
    ensures !PopBlock(m).ok || NoSharedVotes(Head(m.blocks).transactions, us) ==>
              Above(PopBlock(n).node, us, PopBlock(m).node)
  {
    hide Above, AcctsReplayed, PopBlock, SameBase, PendingOk, NewGroups, NoSharedVotes, UFold, GroupSenders, HeadOn,
         Full;
    NonEmpty(m, n0, genesisKey);
    OneGenesis(m, n0, genesisKey);
    AboveIs(n, us, m);
    PopBase(n, m);
    BaseBlocks(n, m);
    if |m.blocks| == 1 {
      PopGenesis(n);
      PopGenesis(m);
    } else {
      var q, b := Before(m, n0), m.blocks[|m.blocks| - 1];
      HeadFacts(m, n0, genesisKey);
      AllCompatibleIff(q, genesisKey, b, us);
      PopFlags(n);
      PopFlags(m);
      FlagsApart(n.flags, GroupSenders(b.transactions), GroupSenders(us));
      if !PopBlock(m).ok {
        PopFails(n);
        PopFails(m);
        AboveFrom(PopBlock(n).node, us, PopBlock(m).node);
      } else if NoSharedVotes(Head(m.blocks).transactions, us) {
        StillPending(q, genesisKey, b, us);
        HeadPending(q, genesisKey, b);
        PendingShaped(q.books.accts.conf, b.transactions);
        PendingShaped(m.books.accts.conf, us);
        PopBelow(n, m, us);
        PoppedHalves(m, n0, genesisKey);
        AboveFrom(PopBlock(n).node, us, PopBlock(m).node);
      }
    }
  }

  lemma OneGenesis(m: Node, n0: Node, genesisKey: PublicKey)
    requires AcctsReplayed(m, n0, genesisKey)
    ensures |n0.blocks| == 1
  {
    hide Settled, Tallied;
  }

  lemma BaseBlocks(n: Node, m: Node)
    requires SameBase(n, m)
    ensures n.blocks == m.blocks
  {
  }

  lemma FlagsApart(f: set<Address>, g: set<Address>, h: set<Address>)
    requires g !! h && h <= f
    ensures (f - g) - h == (f - h) - g && h <= f - g
  {
  }

  lemma PoppedHalves(m: Node, n0: Node, genesisKey: PublicKey)
    requires AcctsReplayed(m, n0, genesisKey)
    ensures |m.blocks| > 0
    ensures var s := PopBlock(m).node.books.accts; s.conf == s.unconf && Full(s.conf)
  {
    hide AcctsReplayed, PopBlock, Step;
    NonEmpty(m, n0, genesisKey);
    var t := Trace(m, None);
    PopReplayed(t, n0, genesisKey);
    StepPops(t, genesisKey);
    HalvesAgree(PopBlock(m).node, n0, genesisKey);
    ReplayedFull(PopBlock(m).node, n0, genesisKey);
  }

  lemma StepPops(t: Trace, genesisKey: PublicKey)
    requires |t.node.blocks| > 0
    ensures Step(t, genesisKey, Pop).node == PopBlock(t.node).node
  {
    hide PopBlock;
  }

  lemma ReplayedFull(m: Node, n0: Node, genesisKey: PublicKey)
    requires AcctsReplayed(m, n0, genesisKey)
    ensures Full(m.books.accts.conf)
  {
    hide RowSane, PendingSane, Tallied, BlockVerified, ApplyBlock;
    ReplayFacts(n0, genesisKey, Chain(m));
  }

  // ---------- the pop that is not exact ----------

  lemma UndoneDelegates(n: Node, tx: Transaction, a: Address)
    ensures Row(UndoneOne(n, tx).books.accts.unconf, a).delegates ==
            if a == tx.From() && tx.asset.Votes?
            then ApplyDiff(Row(n.books.accts.unconf, a).delegates, Reversed(tx.asset.votes))
            else Row(n.books.accts.unconf, a).delegates
  {
    hide UndoneOne, TypeUndo, UTypeUndo, ChargeUnconfirmed;
    UndoneOneIs(n, tx);
    UUndoIs(n, tx);
    UntouchedDelegates(Row(n.books.accts.unconf, tx.From()), tx);
  }

  lemma UntouchedDelegates(s: Side, t: Transaction)
    ensures Untouched(s, t).delegates ==
            if t.asset.Votes? then ApplyDiff(s.delegates, Reversed(t.asset.votes)) else s.delegates
  {
    hide ApplyDiff, Reversed;
  }

  /** No vote list of this account in `us` names the key. */
  predicate Silent(us: seq<Transaction>, a: Address, d: PublicKey) {
    forall j, k :: 0 <= j < |us| && us[j].From() == a && us[j].asset.Votes? && 0 <= k < |us[j].asset.votes| ==>
      KeyOf(us[j].asset.votes[k]) != d
  }

  lemma {:induction false} SilentUndone(n: Node, ps: seq<Pooled>, a: Address, d: PublicKey)
    requires AllShaped(Txs(ps)) && Silent(Txs(ps), a, d)
    ensures Row(UndoneList(n, ps).books.accts.unconf, a).delegates[d] == Row(n.books.accts.unconf, a).delegates[d]
    decreases |ps|
  {
    hide UndoneOne, ApplyDiff, Reversed, Row;
    if ps != [] {
      var tx := ps[0].tx;
      assert Txs(ps)[0] == tx && Txs(ps)[1..] == Txs(ps[1..]);
      UndoneDelegates(n, tx, a);
      if a == tx.From() && tx.asset.Votes? {
        ReversedSigns(tx.asset.votes);
        ApplyDiffAt(Row(n.books.accts.unconf, a).delegates, Reversed(tx.asset.votes), d);
      }
      SilentUndone(UndoneOne(n, tx), ps[1..], a, d);
    }
  }

  /** Once all pending transactions are undone, a key one of them names is in the list exactly if that one
      took it out. */
  lemma {:induction false} LastUndone(n: Node, ps: seq<Pooled>, conf: SideTable, i: nat, c: nat)
    requires PendingOk(conf, Txs(ps)) && i < |ps| && ps[i].tx.asset.Votes? && c < |ps[i].tx.asset.votes|
    ensures var d, a := KeyOf(ps[i].tx.asset.votes[c]), ps[i].tx.From();
            d in Row(UndoneList(n, ps).books.accts.unconf, a).delegates <==> IsMinus(ps[i].tx.asset.votes[c])
    decreases |ps|
  {
    hide UndoneOne, ApplyDiff, Reversed, Undoable, Compatible, Row, Shaped, Silent;
    var us, tx := Txs(ps), ps[0].tx;
    var rest := Txs(ps[1..]);
    assert us[0] == tx && us[1..] == rest && |us| == |ps|;
    assert forall j :: 0 <= j < |rest| ==> rest[j] == us[j + 1];
    if i > 0 {
      LastUndone(UndoneOne(n, tx), ps[1..], conf, i - 1, c);
    } else {
      var d, a := KeyOf(tx.asset.votes[c]), tx.From();
      PendingShaped(conf, us);
      assert Shaped(us[0].asset);
      SignsBack(tx, c);
      UndoneDelegates(n, tx, a);
      ApplyDiffAt(Row(n.books.accts.unconf, a).delegates, Reversed(tx.asset.votes), d);
      assert PendingOk(conf, rest);
      PendingShaped(conf, rest);
      RestSilent(us, c);
      SilentUndone(UndoneOne(n, tx), ps[1..], a, d);
    }
  }

  lemma SignsBack(tx: Transaction, c: nat)
    requires tx.asset.Votes? && Shaped(tx.asset) && c < |tx.asset.votes|
    ensures var r := Reversed(tx.asset.votes);
            && c < |r| && KeyOf(r[c]) == KeyOf(tx.asset.votes[c])
            && IsMinus(r[c]) != IsMinus(tx.asset.votes[c]) && DistinctKeys(r)
  {
    ReversedSigns(tx.asset.votes);
  }

  lemma RestSilent(us: seq<Transaction>, c: nat)
    requires us != [] && us[0].asset.Votes? && c < |us[0].asset.votes|
    requires forall j :: 0 < j < |us| ==> Compatible(us[0], us[j])
    ensures Silent(us[1..], us[0].From(), KeyOf(us[0].asset.votes[c]))
  {
    hide KeyOf;
    forall j, k | 0 <= j < |us[1..]| && us[1..][j].From() == us[0].From() && us[1..][j].asset.Votes?
                  && 0 <= k < |us[1..][j].asset.votes|
      ensures KeyOf(us[1..][j].asset.votes[k]) != KeyOf(us[0].asset.votes[c])
    {
      assert Compatible(us[0], us[j + 1]);
    }
  }

  /** A vote of the head and a pending one on the same key. */
  lemma SharedVoteStays(n: Node, ps: seq<Pooled>, q: Node, genesisKey: PublicKey, b: Block, i: nat, j: nat)
    requires HeadOn(q, genesisKey, b) && PendingOk(Applied(q, b).books.accts.conf, Txs(ps))
    requires i < |b.transactions| && j < |ps| && b.transactions[i].From() == ps[j].tx.From()
    requires !ListsApart(b.transactions[i].asset, ps[j].tx.asset)
    ensures UndoneList(n, ps).books.accts.unconf != q.books.accts.conf
  {
    hide HeadOn, UFold, ApplyDiff, Reversed, Applied, Row, UndoneList, KeyOf, IsMinus, Compatible, NoDuplicates,
         AllSigned, DistinctKeys;
    var t, u, s, txs := b.transactions[i], ps[j].tx, q.books.accts, b.transactions;
    var a, conf := u.From(), Applied(q, b).books.accts.conf;
    assert Txs(ps)[j] == u && |Txs(ps)| == |ps|;
    var c, e :| 0 <= c < |t.asset.votes| && 0 <= e < |u.asset.votes|
        && KeyOf(t.asset.votes[c]) == KeyOf(u.asset.votes[e]);
    HeadPending(q, genesisKey, b);
    HeadShows(q, genesisKey, b, a);
    VoteShows(s, txs, i, c);
    LastUndone(n, ps, conf, j, e);
    assert Undoable(Row(conf, a), u.asset) && Undoable(Row(s.conf, a), t.asset);
  }

  /** A pop with transactions pending is exact, which means that undoing them afterwards gives the node of the
      same pop without them, if and only if no pending vote list shares a key with a vote list of the popped
      block by the same sender. */
  lemma PopUnderPoolIff(n: Node, ps: seq<Pooled>, m: Node, n0: Node, genesisKey: PublicKey)
    requires Above(n, Txs(ps), m) && AcctsReplayed(m, n0, genesisKey)
    ensures |m.blocks| > 0 && n.blocks == m.blocks && PopBlock(n).ok == PopBlock(m).ok
    ensures PopBlock(m).ok ==>
              (UndoneList(PopBlock(n).node, ps) == PopBlock(m).node <==>
               NoSharedVotes(Head(m.blocks).transactions, Txs(ps)))
  {
    hide Above, AcctsReplayed, PopBlock, UndoneList, PendingOk, NewGroups, HeadOn, ListsApart, Full;
    PopAbove(n, Txs(ps), m, n0, genesisKey);
    if PopBlock(m).ok {
      if NoSharedVotes(Head(m.blocks).transactions, Txs(ps)) {
        AboveGives(PopBlock(n).node, ps, PopBlock(m).node);
      } else {
        OneGenesis(m, n0, genesisKey);
        if |m.blocks| == 1 {
          PopGenesis(m);
          assert false;
        }
        var q, b := Before(m, n0), m.blocks[|m.blocks| - 1];
        HeadFacts(m, n0, genesisKey);
        AboveIs(n, Txs(ps), m);
        PoppedHalves(m, n0, genesisKey);
        var us := Txs(ps);
        var i, j :| 0 <= i < |b.transactions| && 0 <= j < |us| && b.transactions[i].From() == us[j].From()
                    && !ListsApart(b.transactions[i].asset, us[j].asset);
        SharedVoteStays(PopBlock(n).node, ps, q, genesisKey, b, i, j);
      }
    }
  }

  lemma AboveGives(n: Node, ps: seq<Pooled>, m: Node)
    requires Above(n, Txs(ps), m)
    ensures UndoneList(n, ps) == m
  {
    hide Ahead, Cleared, UndoneList, NewGroups;
    UndoListGivesBase(n, ps);
  }
}
