/**
  Undoing pooled transactions in any order.  The pool undoes from the front what it applied from the
  front; that is exact because transactions of one sender that are pending together never touch the
  same field or the same vote.
 */
module PoolUndoing {
  import opened Base
  import opened Diff
  import opened Accounts
  import opened Voting
  import opened Payouts
  import opened Ledger
  import opened Storage
  import opened Steps
  import opened Rollback
  import opened Invariants
  import opened PoolQueues
  import opened PoolBalances

  predicate KeysApart(vs: seq<string>, ws: seq<string>) {
    forall i, j :: 0 <= i < |vs| && 0 <= j < |ws| ==> KeyOf(vs[i]) != KeyOf(ws[j])
  }

  /** Two pending transactions that cannot get in each other's way. */
  predicate Compatible(t: Transaction, u: Transaction) {
    t.From() == u.From() ==>
      match (t.asset, u.asset)
      case (SecondSignature(_), SecondSignature(_)) => false
      case (Registration(_), Registration(_)) => false
      case (Multisignature(_, _, _), Multisignature(_, _, _)) => false
      case (Votes(vs), Votes(ws)) => KeysApart(vs, ws)
      case _ => true
  }

  /** Lists of changes on different keys commute. */
  lemma DiffsCommute(ds: multiset<PublicKey>, vs: seq<string>, ws: seq<string>)
    requires DistinctKeys(vs) && DistinctKeys(ws) && KeysApart(vs, ws)
    ensures ApplyDiff(ApplyDiff(ds, vs), ws) == ApplyDiff(ApplyDiff(ds, ws), vs)
  {
    forall d ensures ApplyDiff(ApplyDiff(ds, vs), ws)[d] == ApplyDiff(ApplyDiff(ds, ws), vs)[d] {
      ApplyDiffAt(ds, vs, d);
      ApplyDiffAt(ApplyDiff(ds, vs), ws, d);
      ApplyDiffAt(ds, ws, d);
      ApplyDiffAt(ApplyDiff(ds, ws), vs, d);
      if i :| 0 <= i < |vs| && KeyOf(vs[i]) == d {
        assert forall j :: 0 <= j < |ws| ==> KeyOf(ws[j]) != d;
      } else if j :| 0 <= j < |ws| && KeyOf(ws[j]) == d {
      } else {
      }
    }
  }

  /** A list still fits after changes on other keys. */
  lemma FitsStill(ds: multiset<PublicKey>, vs: seq<string>, ws: seq<string>)
    requires DistinctKeys(vs) && KeysApart(vs, ws) && Fits(ds, ws)
    ensures Fits(ApplyDiff(ds, vs), ws)
  {
    forall j | 0 <= j < |ws| ensures IsMinus(ws[j]) <==> KeyOf(ws[j]) in ApplyDiff(ds, vs) {
      ApplyDiffAt(ds, vs, KeyOf(ws[j]));
      assert forall i :: 0 <= i < |vs| ==> KeyOf(vs[i]) != KeyOf(ws[j]);
    }
  }

  /** A vote list only reads and writes the delegates of a row. */
  lemma VotesCommute(s: Side, vs: seq<string>, asset: Asset)
    requires !asset.Votes?
    ensures TypeEffect(TypeEffect(s, Asset.Votes(vs)), asset) == TypeEffect(TypeEffect(s, asset), Asset.Votes(vs))
  {
    hide ApplyDiff;
  }

  lemma GroupCommutes(s: Side, ks: seq<string>, min: int, life: int, asset: Asset)
    requires !asset.Multisignature?
    ensures TypeEffect(TypeEffect(s, Multisignature(ks, min, life)), asset) == TypeEffect(TypeEffect(s, asset),
            Multisignature(ks, min, life))
  {
    hide ApplyDiff;
  }

  lemma OthersCommute(s: Side, a: Asset, b: Asset)
    requires !a.Votes? && !b.Votes? && !a.Multisignature? && !b.Multisignature?
    requires a.Registration? ==> !b.Registration?
    ensures TypeEffect(TypeEffect(s, a), b) == TypeEffect(TypeEffect(s, b), a)
  {
  }

  lemma TypesCommute(s: Side, t: Transaction, u: Transaction)
    requires t.From() == u.From() && Compatible(t, u) && Undoable(s, t.asset) && Undoable(s, u.asset)
    ensures TypeEffect(TypeEffect(s, t.asset), u.asset) == TypeEffect(TypeEffect(s, u.asset), t.asset)
  {
    hide ApplyDiff, Fits, NoDuplicates, AllSigned;
    if t.asset.Votes? && u.asset.Votes? {
      DiffsCommute(s.delegates, t.asset.votes, u.asset.votes);
    } else {
      hide TypeEffect, Undoable, KeysApart;
      match (t.asset, u.asset)
      case (Votes(vs), _) => VotesCommute(s, vs, u.asset);
      case (_, Votes(vs)) => VotesCommute(s, vs, t.asset);
      case (Multisignature(ks, min, life), _) => GroupCommutes(s, ks, min, life, u.asset);
      case (_, Multisignature(ks, min, life)) => GroupCommutes(s, ks, min, life, t.asset);
      case _ => OthersCommute(s, t.asset, u.asset);
    }
  }

  lemma TouchedIs(s: Side, t: Transaction)
    ensures Touched(s, t) == TypeEffect(s, t.asset).(balance := s.balance - t.Cost())
  {
    hide TypeEffect;
    TypeIgnoresBalance(s, s.balance - t.Cost(), t.asset);
  }

  lemma TouchedTwice(s: Side, t: Transaction, u: Transaction)
    ensures Touched(Touched(s, t), u) ==
            TypeEffect(TypeEffect(s, t.asset), u.asset).(balance := s.balance - t.Cost() - u.Cost())
  {
    hide TypeEffect, Touched;
    TouchedIs(s, t);
    TouchedIs(Touched(s, t), u);
    TypeIgnoresBalance(TypeEffect(s, t.asset), s.balance - t.Cost(), u.asset);
  }

  /** The row half of its sender after two pending transactions, in either order. */
  lemma EffectsCommute(s: Side, t: Transaction, u: Transaction)
    requires t.From() == u.From() && Compatible(t, u) && Undoable(s, t.asset) && Undoable(s, u.asset)
    ensures Touched(Touched(s, t), u) == Touched(Touched(s, u), t)
  {
    hide Undoable, Compatible, Touched, TypeEffect;
    TypesCommute(s, t, u);
    TouchedTwice(s, t, u);
    TouchedTwice(s, u, t);
  }

  lemma StaysUndoable(s: Side, t: Transaction, u: Transaction)
    requires t.From() == u.From() && Compatible(t, u) && Undoable(s, t.asset) && Undoable(s, u.asset)
    ensures Undoable(Touched(s, t), u.asset)
  {
    hide ApplyDiff, Fits, NoDuplicates, AllSigned, KeysApart;
    match (t.asset, u.asset)
    case (Votes(vs), Votes(ws)) =>
      FittingDiff(s.delegates, vs);
      FitsStill(s.delegates, vs, ws);
    case _ =>
  }

  // ---------- a list of pending transactions ----------

  ghost predicate PendingOk(conf: SideTable, txs: seq<Transaction>) {
    && (forall i :: 0 <= i < |txs| ==> Undoable(Row(conf, txs[i].From()), txs[i].asset))
    && (forall i, j :: 0 <= i < j < |txs| ==> Compatible(txs[i], txs[j]))
  }

  ghost predicate CompatibleWith(txs: seq<Transaction>, u: Transaction) {
    forall i :: 0 <= i < |txs| ==> Compatible(txs[i], u)
  }

  lemma CompatibleSymmetric(t: Transaction, u: Transaction)
    ensures Compatible(t, u) <==> Compatible(u, t)
  {
  }

  lemma {:induction false} FoldUndoable(s: Accts, txs: seq<Transaction>, u: Transaction)
    requires PendingOk(s.unconf, txs) && CompatibleWith(txs, u) && Undoable(Row(s.unconf, u.From()), u.asset)
    ensures Undoable(Row(UFold(s, txs).unconf, u.From()), u.asset)
  {
    hide Undoable, Compatible, Touched;
    if txs != [] {
      var pre, t := txs[..|txs| - 1], txs[|txs| - 1];
      assert forall i :: 0 <= i < |pre| ==> pre[i] == txs[i];
      FoldUndoable(s, pre, u);
      FoldUndoable(s, pre, t);
      if t.From() == u.From() { StaysUndoable(Row(UFold(s, pre).unconf, u.From()), t, u); }
    }
  }

  lemma UEffectsCommute(s: Accts, t: Transaction, u: Transaction)
    requires Compatible(t, u)
    requires Undoable(Row(s.unconf, t.From()), t.asset) && Undoable(Row(s.unconf, u.From()), u.asset)
    ensures UEffect(UEffect(s, t), u) == UEffect(UEffect(s, u), t)
  {
    hide Touched, Undoable, Compatible;
    var a, b := t.From(), u.From();
    if a == b { EffectsCommute(Row(s.unconf, a), t, u); }
    assert Touch(Touch(s.unconf, t), u) == Touch(Touch(s.unconf, u), t);
  }

  /** Applying one more pending transaction first or last gives the same. */
  lemma {:induction false} FoldMovesLast(s: Accts, txs: seq<Transaction>, u: Transaction)
    requires PendingOk(s.unconf, txs) && CompatibleWith(txs, u) && Undoable(Row(s.unconf, u.From()), u.asset)
    ensures UFold(UEffect(s, u), txs) == UEffect(UFold(s, txs), u)
  {
    hide Undoable, Compatible, UEffect;
    if txs != [] {
      var pre, t := txs[..|txs| - 1], txs[|txs| - 1];
      assert forall i :: 0 <= i < |pre| ==> pre[i] == txs[i];
      FoldMovesLast(s, pre, u);
      FoldUndoable(s, pre, u);
      FoldUndoable(s, pre, t);
      assert Compatible(txs[|txs| - 1], u);
      CompatibleSymmetric(t, u);
      UEffectsCommute(UFold(s, pre), u, t);
    }
  }

  function Omit(txs: seq<Transaction>, i: nat): seq<Transaction>
    requires i < |txs|
  {
    txs[..i] + txs[i + 1..]
  }

  lemma {:induction false} UFoldConcat(s: Accts, txs: seq<Transaction>, us: seq<Transaction>)
    ensures UFold(s, txs + us) == UFold(UFold(s, txs), us)
  {
    hide UEffect;
    if us == [] {
      assert txs + us == txs;
    } else {
      assert (txs + us)[..|txs + us| - 1] == txs + us[..|us| - 1];
      UFoldConcat(s, txs, us[..|us| - 1]);
    }
  }

  lemma OmitOk(conf: SideTable, txs: seq<Transaction>, i: nat)
    requires i < |txs| && PendingOk(conf, txs)
    ensures PendingOk(conf, Omit(txs, i)) && CompatibleWith(Omit(txs, i), txs[i])
  {
    hide Compatible, Undoable;
    var rest := Omit(txs, i);
    forall k | 0 <= k < |rest| ensures Compatible(rest[k], txs[i]) {
      if k >= i { CompatibleSymmetric(txs[i], rest[k]); }
    }
    forall j, k | 0 <= j < k < |rest| ensures Compatible(rest[j], rest[k]) {
      assert Compatible(txs[if j < i then j else j + 1], txs[if k < i then k else k + 1]);
    }
  }

  /** Any pending transaction might as well have been applied last. */
  lemma AnyIsLast(s: Accts, txs: seq<Transaction>, i: nat)
    requires i < |txs| && PendingOk(s.unconf, txs)
    ensures UFold(s, txs) == UEffect(UFold(s, Omit(txs, i)), txs[i])
    ensures Undoable(Row(UFold(s, Omit(txs, i)).unconf, txs[i].From()), txs[i].asset)
  {
    hide Undoable, Compatible, UEffect, UFold, PendingOk, CompatibleWith;
    var pre, post, u := txs[..i], txs[i + 1..], txs[i];
    OmitOk(s.unconf, txs, i);
    FoldUndoableAt(s, txs, i);
    assert txs == (pre + [u]) + post;
    UFoldConcat(s, pre + [u], post);
    UFoldLast(s, pre, u);
    PrefixOk(s, txs, i);
    FoldMovesLast(UFold(s, pre), post, u);
    UFoldConcat(s, pre, post);
  }

  lemma FoldUndoableAt(s: Accts, txs: seq<Transaction>, i: nat)
    requires i < |txs| && PendingOk(s.unconf, txs)
    ensures Undoable(Row(UFold(s, Omit(txs, i)).unconf, txs[i].From()), txs[i].asset)
  {
    hide Undoable, Compatible, UFold;
    OmitOk(s.unconf, txs, i);
    FoldUndoable(s, Omit(txs, i), txs[i]);
  }

  /** After a prefix, the rest is still pending without conflicts. */
  lemma PrefixOk(s: Accts, txs: seq<Transaction>, i: nat)
    requires i < |txs| && PendingOk(s.unconf, txs)
    ensures var mid := UFold(s, txs[..i]);
            && PendingOk(mid.unconf, txs[i + 1..]) && CompatibleWith(txs[i + 1..], txs[i])
            && Undoable(Row(mid.unconf, txs[i].From()), txs[i].asset)
  {
    hide Undoable, Compatible, UFold;
    var pre, post := txs[..i], txs[i + 1..];
    assert forall k :: 0 <= k < i ==> pre[k] == txs[k];
    assert PendingOk(s.unconf, pre);
    forall j | i <= j < |txs| ensures Undoable(Row(UFold(s, pre).unconf, txs[j].From()), txs[j].asset) {
      FoldUndoable(s, pre, txs[j]);
    }
    forall k | 0 <= k < |post| ensures Compatible(post[k], txs[i]) { CompatibleSymmetric(txs[i], post[k]); }
    assert forall k :: 0 <= k < |post| ==> post[k] == txs[i + 1 + k];
  }

  /** Undoing any pending transaction leaves the others as if it had never been applied. */
  lemma UndoAny(s: Accts, txs: seq<Transaction>, i: nat)
    requires i < |txs| && PendingOk(s.unconf, txs) && Full(s.unconf)
    ensures UUndo(UFold(s, txs), txs[i]) == UFold(s, Omit(txs, i))
    ensures PendingOk(s.unconf, Omit(txs, i))
  {
    hide Undoable, Compatible, PendingOk, UFold, Touched, Untouched;
    AnyIsLast(s, txs, i);
    OmitOk(s.unconf, txs, i);
    FoldFull(s, Omit(txs, i));
    UndoEffect(UFold(s, Omit(txs, i)), txs[i]);
  }

  lemma {:induction false} FoldFull(s: Accts, txs: seq<Transaction>)
    requires Full(s.unconf)
    ensures Full(UFold(s, txs).unconf)
  {
    hide Touched;
    if txs != [] { FoldFull(s, txs[..|txs| - 1]); }
  }

  lemma UndoEffect(s: Accts, tx: Transaction)
    requires Full(s.unconf) && Undoable(Row(s.unconf, tx.From()), tx.asset)
    ensures UUndo(UEffect(s, tx), tx) == s
  {
    hide TypeEffect, TypeUndo, Undoable;
    var h := Row(s.unconf, tx.From());
    var c := h.(balance := h.balance - tx.Cost());
    TypeIgnoresBalance(h, h.balance - tx.Cost(), tx.asset);
    TypeIgnoresBalance(TypeEffect(h, tx.asset), h.balance, tx.asset);
    TypeUndoRestores(h, tx.asset);
    assert Touched(h, tx) == TypeEffect(h, tx.asset).(balance := h.balance - tx.Cost());
    assert Untouched(Touched(h, tx), tx) == TypeUndo(TypeEffect(h, tx.asset).(balance := h.balance), tx.asset);
    assert TypeEffect(h, tx.asset).balance == h.balance;
    assert TypeEffect(h, tx.asset).(balance := h.balance) == TypeEffect(h, tx.asset);
    assert Untouched(Touched(h, tx), tx) == h;
    assert Untouch(Touch(s.unconf, tx), tx) == s.unconf;
  }

  // ---------- the node with pending transactions ----------

  function Txs(ps: seq<Pooled>): seq<Transaction> { seq(|ps|, i requires 0 <= i < |ps| => ps[i].tx) }

  /** The node without its pending transactions. */
  ghost function Cleared(n: Node, txs: seq<Transaction>): Node {
    n.(books := n.books.(accts := n.books.accts.(unconf := n.books.accts.conf)), flags := n.flags - GroupSenders(txs))
  }

  lemma ClearedConf(n: Node, txs: seq<Transaction>)
    ensures Cleared(n, txs).books.accts.conf == n.books.accts.conf && Cleared(n, txs).blocks == n.blocks
  {
  }

  /** The unconfirmed columns are the confirmed ones with the pending transactions on top. */
  ghost predicate Ahead(n: Node, txs: seq<Transaction>) {
    && Full(n.books.accts.conf)
    && n.books.accts.unconf == UFold(n.books.accts.(unconf := n.books.accts.conf), txs).unconf
    && PendingOk(n.books.accts.conf, txs)
    && GroupSenders(txs) <= n.flags
  }

  lemma NothingAhead(n: Node)
    requires Ahead(n, [])
    ensures Cleared(n, []) == n
  {
    assert n.flags - {} == n.flags;
  }

  lemma {:induction false} GroupSenderFound(txs: seq<Transaction>, a: Address)
    ensures a in GroupSenders(txs) <==> exists i :: 0 <= i < |txs| && txs[i].asset.Multisignature? && txs[i].From() == a
  {
    if txs != [] {
      var n := |txs| - 1;
      GroupSenderFound(txs[..n], a);
      if a in GroupSenders(txs) && a in GroupSenders(txs[..n]) {
        var i :| 0 <= i < n && txs[..n][i].asset.Multisignature? && txs[..n][i].From() == a;
        assert txs[i].asset.Multisignature?;
      }
      if i :| 0 <= i < |txs| && txs[i].asset.Multisignature? && txs[i].From() == a {
        if i < n { assert txs[..n][i] == txs[i]; }
      }
    }
  }

  /** Pending group registrations have different senders. */
  lemma OneGroupEach(conf: SideTable, txs: seq<Transaction>, i: nat, j: nat)
    requires i < |txs| && j < |txs| && PendingOk(conf, txs)
    requires txs[i].asset.Multisignature? && txs[j].asset.Multisignature? && txs[i].From() == txs[j].From()
    ensures i == j
  {
    hide Undoable;
  }

  lemma OmitSenders(conf: SideTable, txs: seq<Transaction>, i: nat)
    requires i < |txs| && PendingOk(conf, txs)
    ensures GroupSenders(Omit(txs, i)) ==
            GroupSenders(txs) - if txs[i].asset.Multisignature? then {txs[i].From()} else {}
  {
    hide PendingOk, GroupSenders;
    var rest := Omit(txs, i);
    var gone := if txs[i].asset.Multisignature? then {txs[i].From()} else {};
    forall a | a in GroupSenders(rest) ensures a in GroupSenders(txs) && a !in gone {
      GroupSenderFound(rest, a);
      GroupSenderFound(txs, a);
      var k :| 0 <= k < |rest| && rest[k].asset.Multisignature? && rest[k].From() == a;
      var j := if k < i then k else k + 1;
      assert txs[j] == rest[k];
      if a in gone { OneGroupEach(conf, txs, i, j); }
    }
    forall a | a in GroupSenders(txs) && a !in gone ensures a in GroupSenders(rest) {
      GroupSenderFound(rest, a);
      GroupSenderFound(txs, a);
      var j :| 0 <= j < |txs| && txs[j].asset.Multisignature? && txs[j].From() == a;
      assert rest[if j < i then j else j - 1] == txs[j];
    }
  }

  /** Undoing any one pending transaction keeps the rest pending over the same base. */
  lemma UndoAhead(n: Node, txs: seq<Transaction>, i: nat)
    requires i < |txs| && Ahead(n, txs)
    ensures Ahead(UndoneOne(n, txs[i]), Omit(txs, i)) && Cleared(UndoneOne(n, txs[i]), Omit(txs, i)) == Cleared(n, txs)
  {
    hide PendingOk, UFold, Untouch, GroupSenders, UTypeUndo, ChargeUnconfirmed;
    var tx := txs[i];
    var s := n.books.accts.(unconf := n.books.accts.conf);
    UUndoIs(n, tx);
    UndoAny(s, txs, i);
    OmitSenders(n.books.accts.conf, txs, i);
    UFoldOnlyUnconfirmed(s, txs);
    UFoldOnlyUnconfirmed(s, Omit(txs, i));
    assert UndoneOne(n, tx).books.accts == UUndo(n.books.accts, tx);
    assert n.books.accts == UFold(s, txs);
    GroupSenderFound(txs, tx.From());
    var g := if tx.asset.Multisignature? then {tx.From()} else {};
    assert n.flags - g - (GroupSenders(txs) - g) == n.flags - GroupSenders(txs);
    assert Omit(txs, i) == Omit(txs, i);
  }

  lemma TxsPush(ps: seq<Pooled>, p: Pooled)
    ensures Txs(ps + [p]) == Txs(ps) + [p.tx]
  {
  }

  lemma OmitPush(txs: seq<Transaction>, t: Transaction, i: nat)
    requires i < |txs|
    ensures Omit(txs + [t], i) == Omit(txs, i) + [t]
  {
  }

  lemma {:induction false} DropIsOmit(ps: seq<Pooled>, i: nat)
    requires i < |ps| && DistinctIds(ps)
    ensures Txs(Drop(ps, ps[i].Id())) == Omit(Txs(ps), i)
  {
    hide Txs, Omit;
    var n := |ps| - 1;
    var pre, last := ps[..n], ps[n];
    assert ps == pre + [last];
    TxsPush(pre, last);
    if i == n {
      assert forall k :: 0 <= k < n ==> pre[k].Id() != last.Id();
      assert ps[i].Id() !in Ids(pre);
      DropAbsent(pre, last.Id());
      OmitLast(pre, last);
    } else {
      DropIsOmit(pre, i);
      assert last.Id() != ps[i].Id();
      TxsPush(Drop(pre, ps[i].Id()), last);
      TxsLength(pre);
      OmitPush(Txs(pre), last.tx, i);
    }
  }

  lemma TxsLength(ps: seq<Pooled>)
    ensures |Txs(ps)| == |ps|
  {
  }

  lemma OmitLast(ps: seq<Pooled>, p: Pooled)
    ensures |Txs(ps + [p])| == |ps| + 1 && Omit(Txs(ps + [p]), |ps|) == Txs(ps)
  {
  }

  /** undoUnconfirmedList gives the node back without its pending transactions. */
  lemma {:induction false} UndoListGivesBase(n: Node, ps: seq<Pooled>)
    requires Ahead(n, Txs(ps))
    ensures UndoneList(n, ps) == Cleared(n, Txs(ps))
    decreases |ps|
  {
    hide Ahead, Cleared, UndoneOne;
    if ps == [] {
      assert Txs(ps) == [];
      NothingAhead(n);
    } else {
      UndoAhead(n, Txs(ps), 0);
      assert Omit(Txs(ps), 0) == Txs(ps[1..]);
      UndoListGivesBase(UndoneOne(n, ps[0].tx), ps[1..]);
    }
  }

  // ---------- the checks make pending transactions compatible ----------

  /** A pending registration or second signature shows in its sender's row until it is undone. */
  lemma {:induction false} KindShows(s: Accts, txs: seq<Transaction>, i: nat)
    requires i < |txs|
    ensures txs[i].asset.Registration? ==> Row(UFold(s, txs).unconf, txs[i].From()).isDelegate
    ensures txs[i].asset.SecondSignature? ==> Row(UFold(s, txs).unconf, txs[i].From()).secondSignature
  {
    hide Touched;
    var pre, t := txs[..|txs| - 1], txs[|txs| - 1];
    TouchedFields(Row(UFold(s, pre).unconf, t.From()), t);
    if i < |txs| - 1 {
      KindShows(s, pre, i);
      assert pre[i] == txs[i];
    }
  }

  /** One pending transaction and the entry of a key: its own vote decides it, a compatible one of
      another transaction leaves it. */
  lemma VoteStep(s: Accts, t: Transaction, a: Address, d: PublicKey)
    requires Undoable(Row(s.unconf, t.From()), t.asset)
    ensures t.From() != a || !t.asset.Votes? ==>
              Row(UEffect(s, t).unconf, a).delegates == Row(s.unconf, a).delegates
    ensures t.From() == a && t.asset.Votes? ==>
              && Row(UEffect(s, t).unconf, a).delegates == ApplyDiff(Row(s.unconf, a).delegates, t.asset.votes)
              && DistinctKeys(t.asset.votes)
  {
    hide Touched, ApplyDiff, DistinctKeys, Fits, NoDuplicates, AllSigned;
    TouchedFields(Row(s.unconf, t.From()), t);
  }

  /** A pending vote decides the entry of its key. */
  lemma {:induction false} VoteShows(s: Accts, txs: seq<Transaction>, i: nat, c: nat)
    requires i < |txs| && PendingOk(s.unconf, txs) && txs[i].asset.Votes? && c < |txs[i].asset.votes|
    ensures var d, a := KeyOf(txs[i].asset.votes[c]), txs[i].From();
            d in Row(UFold(s, txs).unconf, a).delegates <==> !IsMinus(txs[i].asset.votes[c])
  {
    hide UEffect, ApplyDiff, Compatible, Row, Undoable, IsMinus, KeyOf, DistinctKeys;
    var pre, t := txs[..|txs| - 1], txs[|txs| - 1];
    var d, a := KeyOf(txs[i].asset.votes[c]), txs[i].From();
    LastPending(s, txs);
    var mid := UFold(s, pre);
    VoteStep(mid, t, a, d);
    if i < |txs| - 1 {
      VoteShows(s, pre, i, c);
      assert Compatible(txs[i], t);
      if t.From() == a && t.asset.Votes? {
        OtherKeys(txs[i], t, c);
        ApplyDiffAt(Row(mid.unconf, a).delegates, t.asset.votes, d);
      }
    } else {
      ApplyDiffAt(Row(mid.unconf, a).delegates, t.asset.votes, d);
    }
  }

  lemma LastPending(s: Accts, txs: seq<Transaction>)
    requires txs != [] && PendingOk(s.unconf, txs)
    ensures var pre, t := txs[..|txs| - 1], txs[|txs| - 1];
            PendingOk(s.unconf, pre) && Undoable(Row(UFold(s, pre).unconf, t.From()), t.asset)
  {
    hide Undoable, Compatible, UFold;
    var pre, t := txs[..|txs| - 1], txs[|txs| - 1];
    assert forall k :: 0 <= k < |pre| ==> pre[k] == txs[k];
    assert CompatibleWith(pre, t);
    FoldUndoable(s, pre, t);
  }

  lemma OtherKeys(t: Transaction, u: Transaction, c: nat)
    requires Compatible(t, u) && t.From() == u.From() && t.asset.Votes? && u.asset.Votes? && c < |t.asset.votes|
    ensures forall j :: 0 <= j < |u.asset.votes| ==> KeyOf(u.asset.votes[j]) != KeyOf(t.asset.votes[c])
  {
  }

  lemma {:induction false} NoDuplicatesAhead(s: Accts, txs: seq<Transaction>, a: Address)
    requires PendingOk(s.unconf, txs) && NoDuplicates(Row(s.unconf, a).delegates)
    ensures NoDuplicates(Row(UFold(s, txs).unconf, a).delegates)
  {
    hide Touched, ApplyDiff, Compatible, NoDuplicates;
    if txs != [] {
      var pre, t := txs[..|txs| - 1], txs[|txs| - 1];
      assert forall k :: 0 <= k < |pre| ==> pre[k] == txs[k];
      NoDuplicatesAhead(s, pre, a);
      TouchedFields(Row(UFold(s, pre).unconf, t.From()), t);
      if t.From() == a && t.asset.Votes? {
        assert CompatibleWith(pre, t);
        FoldUndoable(s, pre, t);
        FittingDiff(Row(UFold(s, pre).unconf, a).delegates, t.asset.votes);
      }
    }
  }

  /** A vote list that passes against the confirmed and the unconfirmed votes shares no key with a
      pending list of the same sender. */
  lemma VotesApart(n: Node, txs: seq<Transaction>, i: nat, ws: seq<string>)
    requires Ahead(n, txs) && i < |txs| && txs[i].asset.Votes?
    requires var a := txs[i].From();
             && NoDuplicates(Row(n.books.accts.conf, a).delegates)
             && CheckDelegates(n.books.accts.conf, Row(n.books.accts.conf, a).delegates, ws)
             && CheckDelegates(n.books.accts.conf, Row(n.books.accts.unconf, a).delegates, ws)
    ensures KeysApart(txs[i].asset.votes, ws)
  {
    hide CheckDelegates, UFold, ApplyDiff, Compatible, GroupSenders, NoDuplicates;
    var vs, a := txs[i].asset.votes, txs[i].From();
    var conf := n.books.accts.conf;
    var s := n.books.accts.(unconf := conf);
    NoDuplicatesAhead(s, txs, a);
    CheckDelegatesIff(conf, Row(conf, a).delegates, ws);
    CheckDelegatesIff(conf, Row(n.books.accts.unconf, a).delegates, ws);
    assert Undoable(Row(conf, a), txs[i].asset);
    forall c, j | 0 <= c < |vs| && 0 <= j < |ws| ensures KeyOf(vs[c]) != KeyOf(ws[j]) {
      VoteShows(s, txs, i, c);
      assert IsMinus(vs[c]) <==> KeyOf(vs[c]) in Row(conf, a).delegates;
      assert IsMinus(ws[j]) <==> KeyOf(ws[j]) in Row(conf, a).delegates;
      assert IsMinus(ws[j]) <==> KeyOf(ws[j]) in Row(n.books.accts.unconf, a).delegates;
    }
  }

  /** What the checks before applyUnconfirmed say about the new transaction and the pending ones. */
  lemma NewIsCompatible(n: Node, txs: seq<Transaction>, genesisKey: PublicKey, tx: Transaction, i: nat)
    requires Ahead(n, txs) && i < |txs|
    requires NoDuplicates(Row(n.books.accts.conf, tx.From()).delegates)
    requires Verified(n.books.accts, genesisKey, tx) && UAllowed(n.books.accts, n.flags, tx, false)
    ensures Compatible(txs[i], tx)
  {
    hide CheckDelegates, UFold, PendingOk, GroupSenders, NoDuplicates, KeysApart, DistinctKeys, UsernameFree;
    var s := n.books.accts.(unconf := n.books.accts.conf);
    if txs[i].From() == tx.From() {
      KindShows(s, txs, i);
      match (txs[i].asset, tx.asset)
      case (Votes(_), Votes(ws)) => VotesApart(n, txs, i, ws);
      case (Multisignature(_, _, _), Multisignature(_, _, _)) =>
        GroupSenderFound(txs, tx.From());
        assert txs[i].asset.Multisignature?;
      case _ =>
    }
  }

  /** Applying a verified transaction to the unconfirmed columns makes it one of the pending ones, when the
      confirmed columns are those of settled books. */
  lemma ApplyAhead(n: Node, txs: seq<Transaction>, genesisKey: PublicKey, base: Books, round: int, tx: Transaction)
    requires Ahead(n, txs) && Settled(base, round) && base.accts.conf == n.books.accts.conf
    requires Verified(n.books.accts, genesisKey, tx) && UAllowed(n.books.accts, n.flags, tx, false)
    ensures Ahead(UStep(n, tx), txs + [tx]) && Cleared(UStep(n, tx), txs + [tx]) == Cleared(n, txs)
  {
    hide Verified, UAllowed, Settled, UFold, GroupSenders, Touch, PendingOk, Compatible, Undoable;
    var s := n.books.accts.(unconf := n.books.accts.conf);
    var all := txs + [tx];
    SettledHere(n, genesisKey, base, round, tx);
    forall i | 0 <= i < |txs| ensures Compatible(txs[i], tx) { NewIsCompatible(n, txs, genesisKey, tx, i); }
    OneMorePending(n.books.accts.conf, txs, tx);
    UFoldLast(s, txs, tx);
    UFoldOnlyUnconfirmed(s, txs);
    assert n.books.accts == UFold(s, txs);
    SendersPush(txs, tx);
    if tx.asset.Multisignature? { assert tx.From() !in n.flags by { GroupFlagFree(n, tx); } }
    var g := if tx.asset.Multisignature? then {tx.From()} else {};
    assert UStep(n, tx).flags == n.flags + g;
    assert n.flags + g - (GroupSenders(txs) + g) == n.flags - GroupSenders(txs);
  }

  lemma GroupFlagFree(n: Node, tx: Transaction)
    requires UAllowed(n.books.accts, n.flags, tx, false) && tx.asset.Multisignature?
    ensures tx.From() !in n.flags
  {
  }

  lemma SendersPush(txs: seq<Transaction>, tx: Transaction)
    ensures GroupSenders(txs + [tx]) == GroupSenders(txs) + if tx.asset.Multisignature? then {tx.From()} else {}
  {
    assert (txs + [tx])[..|txs|] == txs;
  }

  lemma OneMorePending(conf: SideTable, txs: seq<Transaction>, tx: Transaction)
    requires PendingOk(conf, txs) && CompatibleWith(txs, tx) && Undoable(Row(conf, tx.From()), tx.asset)
    ensures PendingOk(conf, txs + [tx])
  {
    hide Compatible, Undoable;
  }

  lemma SettledHere(n: Node, genesisKey: PublicKey, base: Books, round: int, tx: Transaction)
    requires Settled(base, round) && base.accts.conf == n.books.accts.conf
    requires Verified(n.books.accts, genesisKey, tx) && UAllowed(n.books.accts, n.flags, tx, false)
    ensures NoDuplicates(Row(n.books.accts.conf, tx.From()).delegates)
    ensures Undoable(Row(n.books.accts.conf, tx.From()), tx.asset)
  {
    hide CheckDelegates, NoDuplicates, DistinctKeys, PendingSane, Undoable, UsernameFree;
    assert RowSane(base, tx.From());
    TxOkUndoable(base, round, tx);
  }
}
