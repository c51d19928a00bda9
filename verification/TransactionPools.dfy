/** logic/transaction_pool.js: the four queues, filled, undone and expired against the ledger. */
module TransactionPools {
  import opened Base
  import opened Diff
  import opened Accounts
  import opened Payouts
  import opened Voting
  import opened Ledger
  import opened Storage
  import opened Steps
  import opened LedgerNodes
  import opened PoolQueues
  import opened PoolLists
  import opened PoolBalances
  import opened PoolSteps
  import opened PoolObjects
  import opened PoolOutcomes
  import opened PoolUndoing
  import opened Invariants
  import Landing

  /** The account checks of logic/transaction.js verify, on the table. */
  predicate VerifiedRow(t: AccountTable, genesisKey: PublicKey, tx: Transaction) {
    var row := Fetch(t, tx.From()).conf;
    && tx.sender != genesisKey
    && tx.fee == Fee(tx.asset)
    && tx.amount >= 0
    && row.balance >= tx.Cost()
    && match tx.asset
       case Send(_) => tx.amount > 0
       case SecondSignature(_) => tx.amount == 0
       case Registration(u) => tx.amount == 0 && !row.isDelegate && !NameTaken(t, u)
       case Votes(vs) => 0 < |vs| <= 33 && DistinctKeys(vs) && CheckFound(FoundRows(t, vs), multiset(row.delegates), vs)
       case Multisignature(ks, min, life) =>
         && 0 < |ks| && 1 <= min <= 15 && min <= |ks| && 1 <= life <= 72
         && row.multisignatures == []
         && (forall i :: 0 <= i < |ks| ==> Signed(ks[i]) && !IsMinus(ks[i]))
         && DistinctKeys(ks)
         && "+" + tx.sender !in ks
  }

  lemma VerifiedRowIs(t: AccountTable, rows: seq<RoundRow>, genesisKey: PublicKey, tx: Transaction)
    ensures VerifiedRow(t, genesisKey, tx) <==> Verified(AcctsOf(t), genesisKey, tx)
  {
    hide CheckFound, FoundRows, Found, NameTaken, UsernameFree, AcctsOf, DistinctKeys;
    EntryConf(t, tx.From());
    match tx.asset
    case Registration(u) => NameTakenIs(t, u);
    case Votes(vs) => FoundRowsIs(t, rows, vs);
    case Multisignature(_, _, _) => EmptyList(Fetch(t, tx.From()).conf.multisignatures);
    case _ =>
  }

  lemma SenderChecks(t: AccountTable, rows: seq<RoundRow>, saved: Option<Saved>, roundRewards: seq<RewardRow>,
                     blocks: seq<Block>, flags: set<Address>, genesisKey: PublicKey, tx: Transaction)
    requires tx.From() in t
    ensures var n := NodeOf(t, rows, saved, roundRewards, blocks, flags);
            && (VerifiedRow(t, genesisKey, tx) <==> Verified(n.books.accts, genesisKey, tx))
            && (GroupAccount(n, tx) <==> t[tx.From()].conf.multisignatures != [])
  {
    hide VerifiedRow, Verified, NodeOf, Row;
    RowNode(t, rows, saved, roundRewards, blocks, flags, tx.From());
    NodeParts(t, rows, saved, roundRewards, blocks, flags);
    VerifiedRowIs(t, rows, genesisKey, tx);
    EmptyList(t[tx.From()].conf.multisignatures);
  }

  lemma EmptyList(ks: seq<PublicKey>)
    ensures ks == [] <==> multiset(ks) == multiset{}
  {
    if ks != [] { assert ks[0] in multiset(ks); }
  }

  class TransactionPool {
    const unconfirmed: Queue
    const bundled: Queue
    const queued: Queue
    const multisignature: Queue
    const ledger: LedgerNode
    const genesisKey: PublicKey
    const maxTransactionsPerQueue: nat
    const bundleLimit: nat
    var processed: nat

    constructor (ledger: LedgerNode, genesisKey: PublicKey, maxTransactionsPerQueue: nat, bundleLimit: nat)
      requires ledger.Valid()
      ensures Valid() && Contents() == Lists([], [], [], [])
      ensures this.ledger == ledger
    {
      this.ledger, this.genesisKey := ledger, genesisKey;
      this.maxTransactionsPerQueue, this.bundleLimit := maxTransactionsPerQueue, bundleLimit;
      unconfirmed := new Queue();
      bundled := new Queue();
      queued := new Queue();
      multisignature := new Queue();
      processed := 0;
    }

    ghost function Env(outside: Transaction -> bool): Settings {
      Settings(genesisKey, maxTransactionsPerQueue, outside)
    }

    predicate Shaped() {
      && unconfirmed != bundled && unconfirmed != queued && unconfirmed != multisignature
      && bundled != queued && bundled != multisignature && queued != multisignature
    }

    ghost predicate Valid()
      reads this, unconfirmed, bundled, queued, multisignature, ledger
    {
      && Shaped() && ledger.Valid()
      && unconfirmed.Valid() && bundled.Valid() && queued.Valid() && multisignature.Valid()
      && Contents().Within(maxTransactionsPerQueue)
      && Known() && processed <= 1000
    }

    ghost function Contents(): Lists
      reads unconfirmed, bundled, queued, multisignature
    {
      Lists(unconfirmed.Entries(), bundled.Entries(), queued.Entries(), multisignature.Entries())
    }

    /** The senders of unconfirmed transactions have accounts. */
    ghost predicate Known()
      reads unconfirmed, ledger
    {
      forall i :: 0 <= i < |unconfirmed.Entries()| ==> unconfirmed.Entries()[i].tx.From() in ledger.accounts
    }

    /** Unconfirmed balances are confirmed balances less what is in the unconfirmed list. */
    ghost predicate InStep()
      reads unconfirmed, ledger
    {
      Mirrored(ledger.View().books.accts, unconfirmed.Entries())
    }

    /** The ledger without the unconfirmed list. */
    ghost function Settlement(): Node
      reads unconfirmed, ledger
    {
      Cleared(ledger.View(), Txs(unconfirmed.Entries()))
    }

    /** The unconfirmed columns are the confirmed ones with the unconfirmed list applied. */
    ghost predicate Restorable()
      reads unconfirmed, ledger
    {
      Ahead(ledger.View(), Txs(unconfirmed.Entries()))
    }

    ghost predicate Sane()
      reads unconfirmed, ledger
    {
      Restorable() && Settled(Settlement().books, Landing.NextRound(Settlement()))
    }

    lemma ContentsIs()
      ensures Contents() == Lists(unconfirmed.Entries(), bundled.Entries(), queued.Entries(), multisignature.Entries())
    {
    }

    lemma EnvIs(outside: Transaction -> bool)
      ensures Env(outside) == Settings(genesisKey, maxTransactionsPerQueue, outside)
    {
    }

    lemma StepIs()
      ensures InStep() <==> Mirrored(ledger.View().books.accts, Contents().unconfirmed)
      ensures Settlement() == Cleared(ledger.View(), Txs(Contents().unconfirmed))
      ensures Sane() <==> && Ahead(ledger.View(), Txs(Contents().unconfirmed))
                          && Settled(Settlement().books, Landing.NextRound(Settlement()))
      ensures Contents().unconfirmed == unconfirmed.Entries()
    {
      hide Mirrored, Ahead, Cleared, Settled, NodeOf;
    }

    lemma RestorableIs()
      ensures Restorable() <==> Ahead(ledger.View(), Txs(unconfirmed.Entries()))
    {
    }

    lemma AllDistinct()
      requires Valid()
      ensures Contents().Distinct() && Contents().Within(maxTransactionsPerQueue)
    {
      LiveIds(unconfirmed.transactions, unconfirmed.index);
      LiveIds(bundled.transactions, bundled.index);
      LiveIds(queued.transactions, queued.index);
      LiveIds(multisignature.transactions, multisignature.index);
    }

    method TransactionInPool(id: string) returns (b: bool)
      requires Valid()
      ensures b <==> Contents().Has(id)
    {
      var u := unconfirmed.Has(id);
      var d := bundled.Has(id);
      var q := queued.Has(id);
      var m := multisignature.Has(id);
      b := u || d || q || m;
    }

    method AddUnconfirmedTransaction(p: Pooled, multi: bool)
      requires Valid() && |unconfirmed.Entries()| < MAX_TRANSACTIONS_PER_BLOCK && p.tx.From() in ledger.accounts
      modifies unconfirmed, queued, multisignature
      ensures Valid() && Contents() == Promoted(old(Contents()), p, multi)
    {
      hide Indexed, Live, Linked, Drop, Ids, DistinctIds;
      DropAbsent(multisignature.Entries(), p.Id());
      DropAbsent(queued.Entries(), p.Id());
      if multi { multisignature.Remove(p.Id()); } else { queued.Remove(p.Id()); }
      unconfirmed.Add(p);
    }

    method RemoveUnconfirmedTransaction(id: string)
      requires Valid()
      modifies unconfirmed, queued, multisignature
      ensures Valid() && Contents() == Removed(old(Contents()), id)
    {
      hide Indexed, Live, Linked, Drop, Ids, DistinctIds;
      DropAbsent(unconfirmed.Entries(), id);
      DropAbsent(multisignature.Entries(), id);
      DropAbsent(queued.Entries(), id);
      DropKnown(unconfirmed.Entries(), id, ledger.accounts);
      unconfirmed.Remove(id);
      queued.Remove(id);
      multisignature.Remove(id);
    }

    method ReindexQueues()
      requires Valid()
      modifies unconfirmed, bundled, queued, multisignature
      ensures Valid() && Contents() == old(Contents())
      ensures forall q :: q in {unconfirmed, bundled, queued, multisignature} ==> |q.transactions| == |q.Entries()|
    {
      hide Indexed, Live, Linked;
      bundled.Reindex();
      queued.Reindex();
      multisignature.Reindex();
      unconfirmed.Reindex();
    }

    /** queueTransaction. */
    method QueueTransaction(p: Pooled, multi: bool) returns (ok: bool)
      requires Valid()
      modifies bundled, queued, multisignature
      ensures Valid()
      ensures ok <==> Queued(old(Contents()), p, multi, maxTransactionsPerQueue).Some?
      ensures Contents() == if ok then Queued(old(Contents()), p, multi,
              maxTransactionsPerQueue).value else old(Contents())
    {
      hide Indexed, Live, Linked, Ids, DistinctIds;
      EnqueueIds(bundled.Entries(), p);
      EnqueueIds(queued.Entries(), p);
      EnqueueIds(multisignature.Entries(), p);
      if p.bundled {
        var n := bundled.Count();
        if n >= maxTransactionsPerQueue { return false; }
        bundled.Add(p);
      } else if multi {
        var n := multisignature.Count();
        if n >= maxTransactionsPerQueue { return false; }
        multisignature.Add(p);
      } else {
        var n := queued.Count();
        if n >= maxTransactionsPerQueue { return false; }
        queued.Add(p);
      }
      return true;
    }

    /** processVerifyTransaction; `outside` stands for the checks that look at no account. */
    method ProcessVerifyTransaction(p: Pooled, outside: Transaction -> bool) returns (ok: bool, group: bool)
      requires Valid()
      modifies ledger`accounts
      ensures Valid() && ledger.View() == old(ledger.View()) && ledger.accounts.Keys >= old(ledger.accounts.Keys)
      ensures ok <==> Passes(ledger.View(), Contents(), p, Env(outside))
      ensures ok ==> p.tx.From() in ledger.accounts && p.Id() !in Ids(unconfirmed.Entries())
      ensures group <==> p.Id() !in Ids(unconfirmed.Entries()) && GroupAccount(ledger.View(), p.tx)
    {
      hide Indexed, Live, Linked, NodeOf, Verified, VerifiedRow, Ids, GroupAccount;
      group := false;
      ok := unconfirmed.Has(p.Id());
      if ok { return false, group; }
      ledger.SetAccount(p.tx.From());
      KnownStays(unconfirmed.Entries(), old(ledger.accounts), ledger.accounts);
      var row := ledger.accounts[p.tx.From()].conf;
      group := row.multisignatures != [];
      SenderChecks(ledger.accounts, ledger.memRound, ledger.saved, ledger.roundRewards, ledger.blocks,
          ledger.unconfirmedSignatures,
                   genesisKey, p.tx);
      ok := outside(p.tx) && VerifiedRow(ledger.accounts, genesisKey, p.tx);
    }

    /** processUnconfirmedTransaction; every 1000 calls the queues are renumbered. */
    method ProcessUnconfirmedTransaction(p: Pooled, now: int, outside: Transaction -> bool) returns (ok: bool)
      requires Valid()
      modifies this, ledger`accounts, unconfirmed, bundled, queued, multisignature
      ensures Valid() && ledger.View() == old(ledger.View()) && ledger.accounts.Keys >= old(ledger.accounts.Keys)
      ensures var r := Taken(ledger.View(), old(Contents()), p, now, Env(outside));
              ok == r.Some? && Contents() == OrElse(r, old(Contents()))
      ensures Contents().unconfirmed == old(Contents()).unconfirmed
      ensures ok ==> && !old(Contents()).Has(p.Id())
                     && forall id :: Contents().Has(id) <==> old(Contents()).Has(id) || id == p.Id()
      ensures old(Contents()).Disjoint() ==> Contents().Disjoint()
      ensures Placed(ledger.View(), old(Contents())) ==> Placed(ledger.View(), Contents())
    {
      hide Indexed, Live, Linked, NodeOf, Verified, IsMulti, Placed, Queued;
      ghost var l, n := Contents(), ledger.View();
      var present := TransactionInPool(p.Id());
      if present { return false; }
      var count := processed + 1;
      if count > 1000 {
        ReindexQueues();
        count := 1;
      }
      processed := count;
      AllDistinct();
      var q, multi := p.(receivedAt := now), false;
      if !p.bundled {
        var group;
        ok, group := ProcessVerifyTransaction(p, outside);
        if !ok { return; }
        q := Received(p, group, now);
        multi := p.tx.asset.Multisignature? || group;
        MultiIs(n, p, group, now);
        SameMulti(n, q.tx, p.tx);
      }
      ok := QueueTransaction(q, multi);
      if ok {
        QueuedKeeps(l, q, multi, maxTransactionsPerQueue);
        if Placed(n, l) { QueuedPlaced(n, l, q, multi, maxTransactionsPerQueue); }
      }
    }

    /** One transaction of processBundled: it leaves the bundle, and if it verifies it is queued. */
    method UnbundleOne(p: Pooled, now: int, outside: Transaction -> bool)
      requires Valid() && p in bundled.Entries()
      modifies ledger`accounts, bundled, queued, multisignature
      ensures Valid() && ledger.View() == old(ledger.View()) && ledger.accounts.Keys >= old(ledger.accounts.Keys)
      ensures Contents() == Unbundled(ledger.View(), old(Contents()), p, now, Env(outside))
      ensures Contents().bundled == Drop(old(Contents()).bundled, p.Id())
      ensures old(Contents()).Disjoint() ==> Contents().Disjoint()
      ensures Placed(ledger.View(), old(Contents())) ==> Placed(ledger.View(), Contents())
    {
      hide Linked, NodeOf, IsMulti, Placed, Indexed, Live, Ids, Queued, Drop, Verified;
      ghost var n := ledger.View();
      var ok, group := ProcessVerifyTransaction(p, outside);
      ghost var l1 := Contents();
      AllDistinct();
      DropAbsent(l1.bundled, p.Id());
      bundled.Remove(p.Id());
      UnbundledKeeps(n, l1, p.Id());
      IdIn(l1.bundled, p);
      if ok {
        ghost var l2 := Contents();
        var q := Received(p, group, now).(bundled := false);
        var multi := p.tx.asset.Multisignature? || group;
        MultiIs(n, p, group, now);
        SameMulti(n, q.tx, Received(p, group, now).tx);
        SameMulti(n, q.tx, p.tx);
        AllDistinct();
        ok := QueueTransaction(q, multi);
        if ok {
          QueuedOutside(l2, q, multi, maxTransactionsPerQueue);
          QueuedKeeps(l2, q, multi, maxTransactionsPerQueue);
          if Placed(n, l2) { QueuedPlaced(n, l2, q, multi, maxTransactionsPerQueue); }
        }
      }
    }

    /** processBundled: the next bundle is verified and moved to the waiting lists; what is refused is
        dropped. */
    method ProcessBundled(now: int, outside: Transaction -> bool)
      requires Valid()
      modifies ledger`accounts, bundled, queued, multisignature
      ensures Valid() && ledger.View() == old(ledger.View()) && ledger.accounts.Keys >= old(ledger.accounts.Keys)
      ensures old(Contents()).Disjoint() ==> Contents().Disjoint()
      ensures Placed(ledger.View(), old(Contents())) ==> Placed(ledger.View(), Contents())
      ensures Contents() == AllUnbundled(ledger.View(), old(Contents()),
              Listed(old(bundled.Entries()), true, bundleLimit), now, Env(outside))
      ensures forall p :: p in bundled.Entries() <==>
                p in old(bundled.Entries()) && p !in Listed(old(bundled.Entries()), true, bundleLimit)
      ensures OneObject(old(Contents())) ==> OneObject(Contents())
    {
      hide Linked, NodeOf, IsMulti, Placed, Indexed, Live, Ids, Drop, Listed;
      ghost var n, l := ledger.View(), Contents();
      AllDistinct();
      var list := bundled.List(true, bundleLimit);
      ListedCut(l.bundled, bundleLimit);
      var i := 0;
      while i < |list|
        invariant 0 <= i <= |list|
        invariant Valid() && ledger.View() == n && ledger.accounts.Keys >= old(ledger.accounts.Keys)
        invariant l.Disjoint() ==> Contents().Disjoint()
        invariant Placed(n, l) ==> Placed(n, Contents())
        invariant Contents() == AllUnbundled(n, l, list[..i], now, Env(outside))
        invariant forall p :: p in bundled.Entries() <==> p in l.bundled && p !in list[..i]
      {
        assert list[..i + 1] == list[..i] + [list[i]];
        OnlyOnce(list, i);
        DropSublist(bundled.Entries(), list[i].Id());
        SameIdSame(l.bundled, list[i]);
        AllUnbundledNext(n, l, list, i, now, Env(outside));
        UnbundleOne(list[i], now, outside);
        i := i + 1;
      }
      assert list[..i] == list;
      hide OneObject;
      if OneObject(l) { BundleOne(n, l, bundleLimit, now, Env(outside)); }
    }

    /** receiveTransactions stops at the first transaction that is refused. */
    method ReceiveTransactions(ps: seq<Pooled>, now: int, outside: Transaction -> bool) returns (ok: bool)
      requires Valid()
      modifies this, ledger`accounts, unconfirmed, bundled, queued, multisignature
      ensures Valid() && ledger.View() == old(ledger.View()) && ledger.accounts.Keys >= old(ledger.accounts.Keys)
      ensures Contents().unconfirmed == old(Contents()).unconfirmed
      ensures (Contents(), ok) == AllTaken(ledger.View(), old(Contents()), ps, now, Env(outside))
      ensures ok ==> forall i :: 0 <= i < |ps| ==> Contents().Has(ps[i].Id())
      ensures OneObject(old(Contents())) ==> OneObject(Contents())
      ensures old(Contents()).Disjoint() ==> Contents().Disjoint()
      ensures Placed(ledger.View(), old(Contents())) ==> Placed(ledger.View(), Contents())
    {
      hide *;
      ghost var n, l := ledger.View(), Contents();
      var i := 0;
      ok := true;
      NothingTaken(n, l, ps, now, Env(outside));
      if OneObject(l) { AllTakenOne(n, l, ps, now, Env(outside)); }
      while i < |ps|
        invariant 0 <= i <= |ps|
        invariant Valid() && ledger.View() == n && ledger.accounts.Keys >= old(ledger.accounts.Keys)
        invariant Contents().unconfirmed == l.unconfirmed
        invariant ok && AllTaken(n, l, ps[..i], now, Env(outside)) == (Contents(), true)
        invariant forall k :: 0 <= k < i ==> Contents().Has(ps[k].Id())
        invariant l.Disjoint() ==> Contents().Disjoint()
        invariant Placed(n, l) ==> Placed(n, Contents())
      {
        AllTakenNext(n, l, ps, i, now, Env(outside));
        ok := ProcessUnconfirmedTransaction(ps[i], now, outside);
        if !ok {
          AllTakenStops(n, l, ps, i + 1, now, Env(outside));
          return;
        }
        i := i + 1;
      }
      assert ps[..i] == ps;
    }

    /** One transaction of undoUnconfirmedList. */
    method UndoAndRequeue(p: Pooled, now: int, outside: Transaction -> bool)
      requires Valid() && p in unconfirmed.Entries()
      modifies this, ledger`accounts, ledger`memRound, ledger`unconfirmedSignatures, unconfirmed, bundled, queued,
          multisignature
      ensures Valid() && ledger.accounts.Keys >= old(ledger.accounts.Keys)
      ensures ledger.View() == UndoneOne(old(ledger.View()), p.tx)
      ensures ledger.View().books.accts.conf == old(ledger.View()).books.accts.conf
      ensures var l1 := Removed(old(Contents()), p.Id());
              Contents() == OrElse(Taken(old(ledger.View()), l1, p, now, Env(outside)), l1)
      ensures Contents().unconfirmed == Drop(old(Contents()).unconfirmed, p.Id())
      ensures old(Contents()).Disjoint() ==> Contents().Disjoint()
    {
      hide *;
      ghost var n, l := ledger.View(), Contents();
      AllDistinct();
      RemovedKeeps(l, p.Id(), maxTransactionsPerQueue);
      RemovedUnconfirmed(l, p.Id());
      UndoneOneConf(n, p.tx);
      UndoAndRemove(p);
      TakenByConf(n, ledger.View(), Removed(l, p.Id()), p, now, Env(outside));
      var requeued := ProcessUnconfirmedTransaction(p, now, outside);
    }

    /** undoUnconfirmedList: everything unconfirmed is undone from the front and offered to the queues
        again; a transaction that is refused there is dropped. */
    method UndoUnconfirmedList(now: int, outside: Transaction -> bool) returns (ids: seq<string>)
      requires Valid()
      modifies this, ledger`accounts, ledger`memRound, ledger`unconfirmedSignatures, unconfirmed, bundled, queued,
          multisignature
      ensures Valid() && Contents().unconfirmed == []
      ensures ledger.View() == UndoneList(old(ledger.View()), old(unconfirmed.Entries()))
      ensures Contents() == Requeued(old(ledger.View()), old(Contents()), old(unconfirmed.Entries()), now, Env(outside))
      ensures ledger.accounts.Keys >= old(ledger.accounts.Keys)
      ensures old(Contents()).Disjoint() ==> Contents().Disjoint()
      ensures old(InStep()) ==> InStep()
      ensures old(Restorable()) ==> ledger.View() == old(Settlement())
      ensures OneObject(old(Contents())) ==> OneObject(Contents())
      ensures |ids| == |old(unconfirmed.Entries())|
              && forall i :: 0 <= i < |ids| ==> ids[i] == old(unconfirmed.Entries())[i].Id()
    {
      hide *;
      StepIs();
      RestorableIs();
      ghost var n, l := ledger.View(), Contents();
      ids := [];
      AllDistinct();
      var list := unconfirmed.List(false, 0);
      ListedAll(unconfirmed.Entries());
      NothingRequeued(n, l, list, now, Env(outside));
      if OneObject(l) { RequeuedOne(n, l, list, now, Env(outside)); }
      var i := 0;
      assert list[0..] == list;
      while i < |list|
        invariant 0 <= i <= |list|
        invariant Valid() && Contents().unconfirmed == list[i..] && DistinctIds(list[i..])
        invariant UndoneList(ledger.View(), list[i..]) == UndoneList(n, list)
        invariant ledger.View().books.accts.conf == n.books.accts.conf
        invariant Contents() == Requeued(n, l, list[..i], now, Env(outside))
        invariant ledger.accounts.Keys >= old(ledger.accounts.Keys)
        invariant l.Disjoint() ==> Contents().Disjoint()
        invariant |ids| == i && forall k :: 0 <= k < i ==> ids[k] == list[k].Id()
      {
        var p := list[i];
        ids := ids + [p.Id()];
        assert list[i..][0] == p && list[i..][1..] == list[i + 1..];
        DropFirst(list[i..]);
        UndoneListStep(ledger.View(), list[i..]);
        RequeuedNext(n, l, list, i, now, Env(outside));
        TakenByConf(n, ledger.View(), Removed(Contents(), p.Id()), p, now, Env(outside));
        StepIs();
        assert p in list[i..];
        UndoAndRequeue(p, now, outside);
        i := i + 1;
      }
      assert list[i..] == [] && list[..i] == list;
      NothingUndone(ledger.View());
      StepIs();
      if old(InStep()) { UndoneListMirror(n, list); }
      if old(Restorable()) { UndoListGivesBase(n, list); }
    }

    /** Undoes one unconfirmed transaction and takes it out of the lists. */
    method UndoAndRemove(p: Pooled)
      requires Valid() && p in unconfirmed.Entries()
      modifies ledger`accounts, ledger`memRound, ledger`unconfirmedSignatures, unconfirmed, queued, multisignature
      ensures Valid() && ledger.accounts.Keys >= old(ledger.accounts.Keys)
      ensures ledger.View() == UndoneOne(old(ledger.View()), p.tx) && Contents() == Removed(old(Contents()), p.Id())
      ensures old(InStep()) ==> InStep()
      ensures old(Restorable()) ==> Restorable() && Settlement() == old(Settlement())
    {
      hide Linked, NodeOf, Indexed, Live, Ids, UTypeUndo, ChargeUnconfirmed, Mirrored, Drop, UndoneOne, Ahead, Cleared;
      ghost var n, l, t := ledger.View(), Contents(), ledger.accounts;
      AllDistinct();
      ghost var at: nat :| at < |l.unconfirmed| && l.unconfirmed[at] == p;
      MirrorUndoIf(n, l.unconfirmed, at);
      DropIsOmit(l.unconfirmed, at);
      if Ahead(n, Txs(l.unconfirmed)) { UndoAhead(n, Txs(l.unconfirmed), at); }
      UndoneOneIs(n, p.tx);
      assert unconfirmed.Entries()[at].tx.From() in ledger.accounts;
      ledger.UndoUnconfirmed(p.tx);
      KnownStays(unconfirmed.Entries(), t, ledger.accounts);
      RemoveUnconfirmedTransaction(p.Id());
    }

    /** expireAndUndoUnconfirmedTransactions. */
    method ExpireUnconfirmed(now: int)
      requires Valid()
      modifies this, ledger`accounts, ledger`memRound, ledger`unconfirmedSignatures, unconfirmed, queued, multisignature
      ensures Valid() && ledger.accounts.Keys >= old(ledger.accounts.Keys)
      ensures old(Contents()).Disjoint() ==> Contents().Disjoint()
      ensures old(InStep()) ==> InStep()
      ensures old(Restorable()) ==> Restorable() && Settlement() == old(Settlement())
      ensures ledger.View().books.accts.conf == old(ledger.View()).books.accts.conf
      ensures Placed(ledger.View(), old(Contents())) ==> Placed(ledger.View(), Contents())
      ensures ledger.View() == UndoneExpired(old(ledger.View()), Listed(old(unconfirmed.Entries()), true, 0), now)
      ensures Contents() == Expired(old(Contents()), Listed(old(unconfirmed.Entries()), true, 0), now)
      ensures forall p :: p in unconfirmed.Entries() <==> p in old(unconfirmed.Entries()) && !IsExpired(p, now)
    {
      hide *;
      ContentsIs();
      ghost var n, l := ledger.View(), Contents();
      AllDistinct();
      var list := unconfirmed.List(true, 0);
      SameMembers(l.unconfirmed);
      NothingExpired(n, l, list, now);
      var i := 0;
      while i < |list|
        modifies this, ledger`accounts, ledger`memRound, ledger`unconfirmedSignatures, unconfirmed, queued,
                 multisignature
        invariant 0 <= i <= |list|
        invariant Valid() && ledger.accounts.Keys >= old(ledger.accounts.Keys)
        invariant ledger.View().books.accts.conf == n.books.accts.conf
        invariant l.Disjoint() ==> Contents().Disjoint()
        invariant Placed(n, l) ==> Placed(n, Contents())
        invariant old(InStep()) ==> InStep()
        invariant old(Restorable()) ==> Restorable() && Settlement() == old(Settlement())
        invariant ledger.View() == UndoneExpired(n, list[..i], now) && Contents() == Expired(l, list[..i], now)
        invariant forall p :: p in unconfirmed.Entries() <==>
                p in l.unconfirmed && (IsExpired(p, now) ==> p !in list[..i])
      {
        var p := list[i];
        assert list[..i + 1] == list[..i] + [p];
        ExpiredNext(n, l, list, i, now);
        if IsExpired(p, now) {
          ghost var l1, n1 := Contents(), ledger.View();
          AllDistinct();
          ContentsIs();
          OnlyOnce(list, i);
          RemovedUnconfirmed(l1, p.Id());
          UndoneOneConf(n1, p.tx);
          UndoAndRemove(p);
          RemovedKeeps(l1, p.Id(), maxTransactionsPerQueue);
          if Placed(n, l1) { RemovedPlaced(n, l1, p.Id()); }
          DropSublist(l1.unconfirmed, p.Id());
          SameIdSame(l.unconfirmed, p);
          ContentsIs();
        }
        i := i + 1;
      }
      assert list[..i] == list;
      PlacedByConf(n, ledger.View(), l);
      PlacedByConf(n, ledger.View(), Contents());
    }

    /** expireTransactions on one waiting list.  Nothing is undone here, which is right as long as no id that
        expires is unconfirmed as well. */
    method ExpireWaiting(list: seq<Pooled>, now: int)
      requires Valid()
      modifies unconfirmed, queued, multisignature
      ensures Valid() && Contents() == Expired(old(Contents()), list, now)
      ensures forall p :: p in unconfirmed.Entries() ==> p in old(unconfirmed.Entries())
      ensures forall p :: p in queued.Entries() ==> p in old(queued.Entries()) && (IsExpired(p, now) ==> p !in list)
      ensures forall p :: p in multisignature.Entries() ==>
              p in old(multisignature.Entries()) && (IsExpired(p, now) ==> p !in list)
      ensures (forall p :: p in list && IsExpired(p, now) ==> p.Id() !in Ids(old(unconfirmed.Entries()))) ==>
              unconfirmed.Entries() == old(unconfirmed.Entries())
      ensures old(Contents()).Disjoint() ==> Contents().Disjoint()
      ensures Placed(ledger.View(), old(Contents())) ==> Placed(ledger.View(), Contents())
    {
      hide Linked, NodeOf, IsMulti, Placed, Indexed, Live, Ids, Mirrored, Drop, IsExpired;
      ghost var l := Contents();
      var i := 0;
      while i < |list|
        modifies unconfirmed, queued, multisignature
        invariant 0 <= i <= |list|
        invariant Valid() && Contents() == Expired(l, list[..i], now)
        invariant forall p :: p in unconfirmed.Entries() ==> p in l.unconfirmed
        invariant forall p :: p in queued.Entries() ==> p in l.queued && (IsExpired(p, now) ==> p !in list[..i])
        invariant forall p :: p in multisignature.Entries() ==>
                p in l.multisignature && (IsExpired(p, now) ==> p !in list[..i])
        invariant (forall p :: p in list && IsExpired(p, now) ==> p.Id() !in Ids(l.unconfirmed)) ==>
                unconfirmed.Entries() == l.unconfirmed
        invariant l.Disjoint() ==> Contents().Disjoint()
        invariant Placed(ledger.View(), l) ==> Placed(ledger.View(), Contents())
      {
        var p := list[i];
        assert list[..i + 1] == list[..i] + [p];
        ExpiredNext(ledger.View(), l, list, i, now);
        if IsExpired(p, now) {
          ghost var l1 := Contents();
          AllDistinct();
          DropAbsent(l1.unconfirmed, p.Id());
          DropSublist(l1.unconfirmed, p.Id());
          DropSublist(l1.queued, p.Id());
          DropSublist(l1.multisignature, p.Id());
          RemoveUnconfirmedTransaction(p.Id());
          RemovedKeeps(l1, p.Id(), maxTransactionsPerQueue);
          if Placed(ledger.View(), l1) { RemovedPlaced(ledger.View(), l1, p.Id()); }
        }
        i := i + 1;
      }
      assert list[..i] == list;
    }

    /** expireTransactions: after it nothing in the three lists is older than its limit. */
    method ExpireTransactions(now: int)
      requires Valid()
      modifies this, ledger`accounts, ledger`memRound, ledger`unconfirmedSignatures, unconfirmed, queued, multisignature
      ensures Valid() && ledger.accounts.Keys >= old(ledger.accounts.Keys)
      ensures old(Contents()).Disjoint() ==> Contents().Disjoint()
      ensures OneObject(old(Contents())) ==> NoStray(old(Contents()), now) && OneObject(Contents())
      ensures NoStray(old(Contents()), now) && old(InStep()) ==> InStep()
      ensures NoStray(old(Contents()), now) && old(Restorable()) ==> Restorable() && Settlement() == old(Settlement())
      ensures Placed(ledger.View(), old(Contents())) ==> Placed(ledger.View(), Contents())
      ensures ledger.View() == UndoneExpired(old(ledger.View()), Listed(old(unconfirmed.Entries()), true, 0), now)
      ensures Contents() == AllExpired(old(Contents()), now)
      ensures OneObject(old(Contents())) ==>
                Contents() == old(Contents()).(unconfirmed := InTime(old(Contents()).unconfirmed, now),
                                               queued := InTime(old(Contents()).queued, now),
                                               multisignature := InTime(old(Contents()).multisignature, now))
      ensures forall p :: p in unconfirmed.Entries() || p in queued.Entries() || p in multisignature.Entries() ==>
              !IsExpired(p, now)
    {
      hide *;
      ghost var n, l := ledger.View(), Contents();
      ContentsIs();
      StepIs();
      RestorableIs();
      AllExpiredIs(l, now);
      if OneObject(l) {
        OneObjectStrays(l, now);
        AllExpiredOne(l, now);
        ExpiryIs(l, now);
      }
      ExpireUnconfirmed(now);
      PlacedByConf(n, ledger.View(), old(Contents()));
      AllDistinct();
      ContentsIs();
      StepIs();
      RestorableIs();
      ghost var l1 := Contents();
      var list := queued.List(true, 0);
      SameMembers(queued.Entries());
      ExpiredIs(l, Listed(l.unconfirmed, true, 0), now);
      StrayFree(l, l1.unconfirmed, list, now);
      ExpireWaiting(list, now);
      AllDistinct();
      ContentsIs();
      StepIs();
      RestorableIs();
      list := multisignature.List(true, 0);
      SameMembers(multisignature.Entries());
      StrayFree(l, Contents().unconfirmed, list, now);
      ExpireWaiting(list, now);
      StepIs();
      RestorableIs();
    }

    /** applyUnconfirmed on the ledger, for a transaction that is not in the list yet. */
    method ApplyAccepted(q: Pooled) returns (ok: bool)
      requires Valid() && q.tx.From() in ledger.accounts
      requires Verified(ledger.View().books.accts, genesisKey, q.tx)
      modifies ledger`accounts, ledger`memRound, ledger`unconfirmedSignatures
      ensures Valid() && Contents() == old(Contents()) && ledger.accounts.Keys >= old(ledger.accounts.Keys)
      ensures ok == UAllowed(old(ledger.View()).books.accts, old(ledger.View()).flags, q.tx, false)
      ensures ledger.View() == if ok then UStep(old(ledger.View()), q.tx) else old(ledger.View())
      ensures ok && old(InStep()) ==> Mirrored(ledger.View().books.accts, unconfirmed.Entries() + [q])
      ensures ok && old(Sane()) ==>
                && Ahead(ledger.View(), Txs(unconfirmed.Entries() + [q]))
                && Cleared(ledger.View(), Txs(unconfirmed.Entries() + [q])) == old(Settlement())
    {
      hide Linked, NodeOf, Indexed, Live, Mirrored, UStep, UAllowed, Verified, Ahead, Cleared, Settled;
      ghost var n, ps, t := ledger.View(), unconfirmed.Entries(), ledger.accounts;
      ok := ledger.ApplyUnconfirmed(q.tx, false);
      KnownStays(ps, t, ledger.accounts);
      if ok {
        MirrorApplyIf(n, ps, q);
        if old(Sane()) {
          ClearedConf(n, Txs(ps));
          ApplyAhead(n, Txs(ps), genesisKey, Cleared(n, Txs(ps)).books, Landing.NextRound(old(Settlement())), q.tx);
        }
        assert Txs(ps + [q]) == Txs(ps) + [q.tx];
      }
    }

    /** Processing sets the signature array on the transaction object that waits. */
    method RenewEntry(p: Pooled, q: Pooled)
      requires Valid() && p.Id() == q.Id()
      modifies queued, multisignature
      ensures Valid() && Contents() == Renewed(old(Contents()), p, q)
      ensures Contents().unconfirmed == old(Contents()).unconfirmed
    {
      hide Linked, NodeOf, Indexed, Live, Renew;
      queued.RenewEntry(p, q);
      multisignature.RenewEntry(p, q);
    }

    method RemoveQueued(id: string)
      requires Valid()
      modifies queued
      ensures Valid() && Contents() == old(Contents()).(queued := Drop(old(Contents()).queued, id))
    {
      hide Linked, NodeOf, Indexed, Live;
      DropAbsent(queued.Entries(), id);
      queued.Remove(id);
    }

    /** One transaction of applyUnconfirmedList: verified again and applied; if it fails it leaves the
        queued list (a failing multisignature transaction stays where it is). */
    method ApplyOne(p: Pooled, outside: Transaction -> bool) returns (ok: bool, q: Pooled, multi: bool)
      requires Valid() && |unconfirmed.Entries()| < MAX_TRANSACTIONS_PER_BLOCK
      modifies ledger`accounts, ledger`memRound, ledger`unconfirmedSignatures, unconfirmed, queued, multisignature
      ensures Valid() && ledger.accounts.Keys >= old(ledger.accounts.Keys)
      ensures old(InStep()) ==> InStep()
      ensures (ledger.View(), Contents()) == Tried(old(ledger.View()), old(Contents()), p, Env(outside))
      ensures old(Sane()) ==> Sane() && Settlement() == old(Settlement())
      ensures q == Processed(old(ledger.View()), old(Contents()), p) && q.Id() == p.Id()
      ensures ok ==> (multi <==> IsMulti(old(ledger.View()), p.tx))
      ensures var l1 := Renewed(old(Contents()), p, q);
              Contents() == if ok then Promoted(l1, q, multi) else l1.(queued := Drop(l1.queued, p.Id()))
      ensures ledger.View() == if ok then UStep(old(ledger.View()), q.tx) else old(ledger.View())
    {
      hide *;
      ghost var n, l := ledger.View(), Contents();
      StepIs();
      var group;
      ok, group := ProcessVerifyTransaction(p, outside);
      q := Received(p, group, p.receivedAt);
      multi := p.tx.asset.Multisignature? || group;
      ReceivedIs(n, p, group, p.receivedAt);
      ProcessedIs(n, l, p);
      EnvIs(outside);
      ContentsIs();
      RenewEntry(p, q);
      StepIs();
      PromotedUnconfirmed(Renewed(l, p, q), q, multi);
      SameVerified(n.books.accts, genesisKey, q.tx, p.tx);
      TriedIs(n, l, p, Env(outside));
      if ok { ok := ApplyAccepted(q); }
      if ok {
        AddUnconfirmedTransaction(q, multi);
      } else {
        RemoveQueued(p.Id());
      }
      StepIs();
    }

    /** applyUnconfirmedList. */
    method ApplyUnconfirmedList(ps: seq<Pooled>, outside: Transaction -> bool)
      requires Valid() && |unconfirmed.Entries()| + |ps| <= MAX_TRANSACTIONS_PER_BLOCK
      modifies ledger`accounts, ledger`memRound, ledger`unconfirmedSignatures, unconfirmed, queued, multisignature
      ensures Valid() && ledger.accounts.Keys >= old(ledger.accounts.Keys)
      ensures old(InStep()) ==> InStep()
      ensures old(Sane()) ==> Sane() && Settlement() == old(Settlement())
      ensures ledger.View().books.accts.conf == old(ledger.View()).books.accts.conf
      ensures Placed(ledger.View(), old(Contents())) ==> Placed(ledger.View(), Contents())
      ensures (ledger.View(), Contents()) == AllTried(old(ledger.View()), old(Contents()), ps, Env(outside))
      ensures Placed(ledger.View(), old(Contents())) && old(Contents()).Disjoint() && DistinctIds(ps)
              && AllWaiting(old(Contents()), ps) ==>
                Contents().Disjoint()
    {
      hide *;
      ghost var n, l := ledger.View(), Contents();
      ghost var orderly := l.Disjoint() && DistinctIds(ps) && AllWaiting(l, ps);
      assert ps[0..] == ps;
      NothingTried(n, l, ps, Env(outside));
      var i := 0;
      while i < |ps|
        modifies ledger`accounts, ledger`memRound, ledger`unconfirmedSignatures, unconfirmed, queued, multisignature
        invariant 0 <= i <= |ps|
        invariant Valid() && ledger.accounts.Keys >= old(ledger.accounts.Keys)
        invariant |unconfirmed.Entries()| + |ps| - i <= MAX_TRANSACTIONS_PER_BLOCK
        invariant old(InStep()) ==> InStep()
        invariant old(Sane()) ==> Sane() && Settlement() == old(Settlement())
        invariant ledger.View().books.accts.conf == n.books.accts.conf
        invariant Placed(n, l) ==> Placed(n, Contents())
        invariant (ledger.View(), Contents()) == AllTried(n, l, ps[..i], Env(outside))
        invariant Placed(n, l) && orderly ==>
                Contents().Disjoint() && DistinctIds(ps[i..]) && AllWaiting(Contents(), ps[i..])
      {
        ghost var n1, l1 := ledger.View(), Contents();
        AllDistinct();
        StepIs();
        assert ps[i..][0] == ps[i] && ps[i..][1..] == ps[i + 1..];
        FirstWaits(l1, ps[i..]);
        AllTriedNext(n, l, ps, i, Env(outside));
        var ok, q, multi := ApplyOne(ps[i], outside);
        ghost var l2 := Renewed(l1, ps[i], q);
        RenewedKeeps(l1, ps[i], q, maxTransactionsPerQueue);
        RenewedUnconfirmed(l1, ps[i], q);
        WaitingNext(l1, l2, ps[i..]);
        PromotedUnconfirmed(l2, q, multi);
        StepIs();
        UStepConf(n1, q.tx);
        MultiByConf(n, n1, ps[i].tx);
        if Placed(n, l1) {
          PlacedByConf(n, n1, l1);
          RenewedPlaced(n1, l1, ps[i]);
          PlacedByConf(n, n1, l2);
          if ok {
            ProcessedIs(n1, l1, ps[i]);
            MultiByConf(n, n1, q.tx);
            PromotedPlaced(n, l2, q, q, multi, maxTransactionsPerQueue);
          } else {
            DequeuedPlaced(n, l2, ps[i].Id());
          }
        }
        DequeuedDisjoint(l2, ps[i].Id());
        i := i + 1;
      }
      assert ps[..i] == ps;
      PlacedByConf(n, ledger.View(), l);
      PlacedByConf(n, ledger.View(), Contents());
    }

    /** fillPool. */
    method FillPool(outside: Transaction -> bool)
      requires Valid()
      modifies ledger`accounts, ledger`memRound, ledger`unconfirmedSignatures, unconfirmed, queued, multisignature
      ensures Valid() && ledger.accounts.Keys >= old(ledger.accounts.Keys)
      ensures old(InStep()) ==> InStep()
      ensures old(Sane()) ==> Sane() && Settlement() == old(Settlement())
      ensures ledger.View().books.accts.conf == old(ledger.View()).books.accts.conf
      ensures (ledger.View(), Contents()) ==
              AllTried(old(ledger.View()), old(Contents()), Chosen(old(Contents())).0 + Chosen(old(Contents())).1,
                  Env(outside))
      ensures forall ms, qs :: ToTry(old(Contents()), ms, qs) ==>
                (ledger.View(), Contents()) == AllTried(old(ledger.View()), old(Contents()), ms + qs, Env(outside))
      ensures Placed(ledger.View(), old(Contents())) ==>
                Placed(ledger.View(), Contents()) && (old(Contents()).Disjoint() ==> Contents().Disjoint())
      ensures OneObject(old(Contents())) ==> OneObject(Contents())
    {
      hide OneObject, Linked, NodeOf, IsMulti, Placed, Indexed, Live, Mirrored, Listed, ReadyOnes, Ids, DistinctIds,
           AllWaiting, Ahead, Cleared, Settled;
      ghost var l := Contents();
      forall ms, qs | ToTry(l, ms, qs) ensures (ms, qs) == Chosen(l) { ChosenIff(l, ms, qs); }
      AllDistinct();
      var unconfirmedCount := unconfirmed.Count();
      if unconfirmedCount >= MAX_TRANSACTIONS_PER_BLOCK { return; }
      var spare := MAX_TRANSACTIONS_PER_BLOCK - unconfirmedCount;
      var spareMulti := if spare >= MULTISIGNATURES_LIMIT then MULTISIGNATURES_LIMIT else 0;
      var all := multisignature.List(true, 0);
      var multisignatures := Cut(ReadyOnes(all), spareMulti);
      var rest := spare - |multisignatures|;
      spare := if rest < 0 then -rest else rest;
      var waiting := queued.List(true, MAX_TRANSACTIONS_PER_BLOCK);
      var queuedTransactions := Cut(waiting, spare);
      assert (multisignatures, queuedTransactions) == Chosen(l);
      ChosenFits(l);
      if l.Disjoint() { ChosenDistinct(l); }
      if OneObject(l) { FillOne(ledger.View(), l, Env(outside)); }
      InBoth(l);
      ApplyUnconfirmedList(multisignatures + queuedTransactions, outside);
    }

    // ---------- blocks under the pool ----------

    /** A block applied to the ledger moves both balances of every account alike. */
    method ApplyToLedger(b: Block) returns (ok: bool)
      requires Valid() && OfKey(b.generator) in ledger.accounts
      modifies ledger
      ensures Valid() && Contents() == old(Contents()) && ledger.accounts.Keys >= old(ledger.accounts.Keys)
      ensures ok == ApplyBlock(old(ledger.View()), b).ok && ledger.View() == ApplyBlock(old(ledger.View()), b).node
      ensures old(InStep()) ==> InStep()
    {
      hide Linked, NodeOf, Indexed, Live, Mirrored, ApplyBlock, SameGap;
      ghost var n, t := ledger.View(), ledger.accounts;
      BlockGap(n, b);
      GapMirrorIf(n.books.accts, ApplyBlock(n, b).node.books.accts, unconfirmed.Entries());
      ok := ledger.Apply(b);
      KnownStays(unconfirmed.Entries(), t, ledger.accounts);
    }

    method DeleteFromLedger() returns (ok: bool, deleted: seq<Transaction>)
      requires Valid() && |ledger.blocks| > 0
      modifies ledger
      ensures Valid() && Contents() == old(Contents()) && ledger.accounts.Keys >= old(ledger.accounts.Keys)
      ensures |old(ledger.View()).blocks| > 0
      ensures ok == PopBlock(old(ledger.View())).ok && ledger.View() == PopBlock(old(ledger.View())).node
      ensures deleted == if ok then old(ledger.blocks[|ledger.blocks| - 1].transactions) else []
      ensures old(InStep()) ==> InStep()
    {
      hide Linked, NodeOf, Indexed, Live, Mirrored, PopBlock, SameGap;
      ghost var n, t := ledger.View(), ledger.accounts;
      ledger.ViewIs();
      PopGap(n);
      GapMirrorIf(n.books.accts, PopBlock(n).node.books.accts, unconfirmed.Entries());
      ok, deleted := ledger.DeleteLastBlock();
      KnownStays(unconfirmed.Entries(), t, ledger.accounts);
    }
  }

  lemma GapMirrorIf(s: Accts, s': Accts, ps: seq<Pooled>)
    requires SameGap(s, s')
    ensures Mirrored(s, ps) ==> Mirrored(s', ps)
  {
    hide SameGap, Mirrored;
    if Mirrored(s, ps) { GapKeepsMirror(s, s', ps); }
  }

  /** What is left of the unconfirmed list has none of the ids that expire in a waiting list. */
  lemma StrayFree(l: Lists, us: seq<Pooled>, list: seq<Pooled>, now: int)
    requires forall q :: q in us ==> q in l.unconfirmed && !IsExpired(q, now)
    requires forall p :: p in list ==> p in l.queued || p in l.multisignature
    ensures NoStray(l, now) ==> forall p :: p in list && IsExpired(p, now) ==> p.Id() !in Ids(us)
  {
    hide IsExpired;
    if NoStray(l, now) {
      forall p | p in list && IsExpired(p, now) ensures p.Id() !in Ids(us) { }
    }
  }

  lemma SameVerified(s: Accts, genesisKey: PublicKey, tx: Transaction, tx': Transaction)
    requires tx == tx'.(signatures := tx.signatures)
    ensures Verified(s, genesisKey, tx) <==> Verified(s, genesisKey, tx')
  {
    hide CheckDelegates, UsernameFree, DistinctKeys;
  }

  lemma SameMulti(n: Node, tx: Transaction, tx': Transaction)
    requires tx == tx'.(signatures := tx.signatures)
    ensures IsMulti(n, tx) <==> IsMulti(n, tx')
  {
  }

  lemma ReceivedIs(n: Node, p: Pooled, group: bool, now: int)
    ensures var q := Received(p, group, now);
            && q.Id() == p.Id() && q.tx == p.tx.(signatures := q.tx.signatures) && q.tx.From() == p.tx.From()
            && (IsMulti(n, p.tx) <==> p.tx.asset.Multisignature? || GroupAccount(n, p.tx))
  {
  }

  /** What processing sets changes nobody's place. */
  lemma RenewedPlaced(n: Node, l: Lists, p: Pooled)
    requires Placed(n, l)
    ensures Placed(n, Renewed(l, p, Processed(n, l, p)))
  {
    hide IsMulti, Processed;
    ProcessedIs(n, l, p);
  }

  lemma NothingTaken(n: Node, l: Lists, ps: seq<Pooled>, now: int, e: Settings)
    ensures AllTaken(n, l, ps[..0], now, e) == (l, true)
  {
  }

  lemma NothingTried(n: Node, l: Lists, ps: seq<Pooled>, e: Settings)
    ensures AllTried(n, l, ps[..0], e) == (n, l)
  {
  }

  lemma AllExpiredIs(l: Lists, now: int)
    ensures var l1 := Expired(l, Listed(l.unconfirmed, true, 0), now);
            var l2 := Expired(l1, Listed(l1.queued, true, 0), now);
            AllExpired(l, now) == Expired(l2, Listed(l2.multisignature, true, 0), now)
  {
    hide Expired, Listed;
  }

  lemma NothingRequeued(n: Node, l: Lists, ps: seq<Pooled>, now: int, e: Settings)
    ensures Requeued(n, l, ps[..0], now, e) == l
  {
  }

  lemma ListedAll(ps: seq<Pooled>)
    ensures Listed(ps, false, 0) == ps
  {
  }

  lemma NothingExpired(n: Node, l: Lists, ps: seq<Pooled>, now: int)
    ensures Expired(l, ps[..0], now) == l && UndoneExpired(n, ps[..0], now) == n
  {
  }

  lemma PromotedUnconfirmed(l: Lists, q: Pooled, multi: bool)
    ensures q.Id() !in Ids(l.unconfirmed) ==> Promoted(l, q, multi).unconfirmed == l.unconfirmed + [q]
    ensures |Promoted(l, q, multi).unconfirmed| <= |l.unconfirmed| + 1
    ensures l.(queued := Drop(l.queued, q.Id())).unconfirmed == l.unconfirmed
  {
    hide Ids, Drop;
  }

  lemma RemovedUnconfirmed(l: Lists, id: string)
    ensures Removed(l, id).unconfirmed == Drop(l.unconfirmed, id)
  {
    hide Drop;
  }

  lemma DequeuedDisjoint(l: Lists, id: string)
    ensures l.Disjoint() ==> l.(queued := Drop(l.queued, id)).Disjoint()
  {
    hide Ids, Drop;
    DropAbsent(l.queued, id);
  }

  predicate AllWaiting(l: Lists, ps: seq<Pooled>) {
    forall i :: 0 <= i < |ps| ==> ps[i] in l.queued || ps[i] in l.multisignature
  }

  /** Taking one id out of the waiting lists, once its object is renewed, leaves the others waiting. */
  lemma WaitingNext(l0: Lists, l: Lists, ps: seq<Pooled>)
    requires ps != []
    requires forall x: Pooled :: x.Id() != ps[0].Id() ==>
               (x in l.queued <==> x in l0.queued) && (x in l.multisignature <==> x in l0.multisignature)
    ensures DistinctIds(ps) ==> DistinctIds(ps[1..])
    ensures DistinctIds(ps) && AllWaiting(l0, ps) ==>
              var id := ps[0].Id();
              && AllWaiting(l.(queued := Drop(l.queued, id)), ps[1..])
              && forall q: Pooled, multi: bool :: q.Id() == id ==> AllWaiting(Promoted(l, q, multi), ps[1..])
  {
    hide Drop;
    DropSublist(l.queued, ps[0].Id());
    DropSublist(l.multisignature, ps[0].Id());
    if DistinctIds(ps) { assert forall k :: 0 < k < |ps| ==> ps[k].Id() != ps[0].Id(); }
  }

  lemma FirstWaits(l: Lists, ps: seq<Pooled>)
    requires ps != []
    ensures AllWaiting(l, ps) ==> ps[0] in l.queued || ps[0] in l.multisignature
  {
  }

  lemma MultiByConf(n: Node, m: Node, tx: Transaction)
    requires n.books.accts.conf == m.books.accts.conf
    ensures IsMulti(n, tx) <==> IsMulti(m, tx)
  {
  }

  lemma UStepConf(n: Node, tx: Transaction)
    ensures UStep(n, tx).books.accts.conf == n.books.accts.conf
  {
    hide Touched;
  }

  lemma MirrorApplyIf(n: Node, ps: seq<Pooled>, p: Pooled)
    ensures Mirrored(n.books.accts, ps) ==> Mirrored(UStep(n, p.tx).books.accts, ps + [p])
  {
    hide Mirrored, UStep;
    if Mirrored(n.books.accts, ps) { MirrorApply(n, ps, p); }
  }

  lemma PromotedPlaced(n: Node, l: Lists, q: Pooled, p: Pooled, multi: bool, max: nat)
    requires Placed(n, l) && l.Distinct() && l.Within(max)
    requires q.Id() == p.Id() && (multi <==> IsMulti(n, p.tx))
    ensures Placed(n, Promoted(l, q, multi))
    ensures l.Disjoint() && (p in l.queued || p in l.multisignature) ==> Promoted(l, q, multi).Disjoint()
  {
    hide Placed, IsMulti, Drop, Enqueue, Ids, DistinctIds;
    PlacedIn(n, l);
    PlacedIn(n, Promoted(l, q, multi));
    DropSublist(l.queued, q.Id());
    DropSublist(l.multisignature, q.Id());
    if l.Disjoint() && (p in l.queued || p in l.multisignature) {
      if p in l.queued { IdIn(l.queued, p); } else { IdIn(l.multisignature, p); }
      PromotedKeeps(l, q, multi, max);
    }
  }

  lemma DequeuedPlaced(n: Node, l: Lists, id: string)
    requires Placed(n, l)
    ensures Placed(n, l.(queued := Drop(l.queued, id)))
  {
    hide Placed, IsMulti, Drop;
    PlacedIn(n, l);
    PlacedIn(n, l.(queued := Drop(l.queued, id)));
    DropSublist(l.queued, id);
  }

  lemma InBoth(l: Lists)
    ensures AllWaiting(l, Chosen(l).0 + Chosen(l).1)
  {
    ChosenFits(l);
    hide Chosen;
    var ms, qs := Chosen(l).0, Chosen(l).1;
    forall i | 0 <= i < |ms + qs| ensures (ms + qs)[i] in l.queued || (ms + qs)[i] in l.multisignature {
      if i < |ms| { assert ms[i] in ms; } else { assert qs[i - |ms|] in qs; }
    }
  }

  lemma OnlyOnce(ps: seq<Pooled>, i: nat)
    requires DistinctIds(ps) && i < |ps|
    ensures ps[i] !in ps[..i]
  {
  }

  /** In a list with distinct ids an id belongs to one entry. */
  lemma SameIdSame(ps: seq<Pooled>, p: Pooled)
    requires DistinctIds(ps) && p in ps
    ensures forall q :: q in ps && q.Id() == p.Id() ==> q == p
  {
  }

  lemma MirrorUndoIf(n: Node, ps: seq<Pooled>, i: nat)
    requires i < |ps| && DistinctIds(ps)
    ensures Mirrored(n.books.accts, ps) ==> Mirrored(UndoneOne(n, ps[i].tx).books.accts, Drop(ps, ps[i].Id()))
  {
    hide Mirrored, UTypeUndo, ChargeUnconfirmed, Drop;
    if Mirrored(n.books.accts, ps) { MirrorUndo(n, ps, i); }
  }

  lemma PlacedByConf(n: Node, m: Node, l: Lists)
    requires n.books.accts.conf == m.books.accts.conf
    ensures Placed(n, l) <==> Placed(m, l)
  {
    assert forall tx :: IsMulti(n, tx) <==> IsMulti(m, tx);
    hide IsMulti;
  }

  lemma UnbundledKeeps(n: Node, l: Lists, id: string)
    ensures Placed(n, l) ==> Placed(n, l.(bundled := Drop(l.bundled, id)))
    ensures l.Disjoint() ==> l.(bundled := Drop(l.bundled, id)).Disjoint()
    ensures l.Disjoint() && id in Ids(l.bundled) ==> !l.(bundled := Drop(l.bundled, id)).Has(id)
  {
    hide Ids, Drop, IsMulti;
    DropAbsent(l.bundled, id);
  }

  lemma QueuedOutside(l: Lists, p: Pooled, multi: bool, max: nat)
    requires Queued(l, p, multi, max).Some? && !p.bundled
    ensures Queued(l, p, multi, max).value.bundled == l.bundled
  {
  }

  lemma MultiIs(n: Node, p: Pooled, group: bool, now: int)
    ensures IsMulti(n, Received(p, group, now).tx) <==> p.tx.asset.Multisignature? || GroupAccount(n, p.tx)
  {
  }

  lemma KnownStays(ps: seq<Pooled>, t: AccountTable, t': AccountTable)
    requires t.Keys <= t'.Keys && forall i :: 0 <= i < |ps| ==> ps[i].tx.From() in t
    ensures forall i :: 0 <= i < |ps| ==> ps[i].tx.From() in t'
  {
    assert forall x :: x in t ==> x in t';
  }

  lemma {:induction false} DropKnown(ps: seq<Pooled>, id: string, t: AccountTable)
    requires forall i :: 0 <= i < |ps| ==> ps[i].tx.From() in t
    ensures forall i :: 0 <= i < |Drop(ps, id)| ==> Drop(ps, id)[i].tx.From() in t
  {
    if ps != [] { DropKnown(ps[..|ps| - 1], id, t); }
  }

  lemma QueuedPlaced(n: Node, l: Lists, p: Pooled, multi: bool, max: nat)
    requires Queued(l, p, multi, max).Some? && Placed(n, l)
    requires p.bundled || multi == IsMulti(n, p.tx)
    ensures Placed(n, Queued(l, p, multi, max).value)
  {
    hide IsMulti;
  }

  lemma PlacedIn(n: Node, l: Lists)
    ensures Placed(n, l) <==>
            && (forall p :: p in l.queued ==> !IsMulti(n, p.tx))
            && (forall p :: p in l.multisignature ==> IsMulti(n, p.tx))
  {
    hide IsMulti;
    if forall p :: p in l.queued ==> !IsMulti(n, p.tx) {
      forall i | 0 <= i < |l.queued| ensures !IsMulti(n, l.queued[i].tx) { assert l.queued[i] in l.queued; }
    }
    if forall p :: p in l.multisignature ==> IsMulti(n, p.tx) {
      forall i | 0 <= i < |l.multisignature| ensures IsMulti(n,
          l.multisignature[i].tx) { assert l.multisignature[i] in l.multisignature; }
    }
  }

  lemma RemovedPlaced(n: Node, l: Lists, id: string)
    requires Placed(n, l)
    ensures Placed(n, Removed(l, id))
  {
    hide IsMulti, Placed, Drop;
    PlacedIn(n, l);
    PlacedIn(n, Removed(l, id));
    DropSublist(l.queued, id);
    DropSublist(l.multisignature, id);
  }
}
