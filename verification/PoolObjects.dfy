/**
  The pool's lists share their transaction objects: an entry that is left behind in a waiting list when it is
  promoted is the unconfirmed one.  Every operation keeps it so, and therefore nothing expires in a waiting list
  while it is unconfirmed and not expired there.
 */
module PoolObjects {
  import opened Base
  import opened Accounts
  import opened Ledger
  import opened PoolQueues
  import opened PoolLists
  import opened PoolBalances
  import opened PoolSteps

  lemma EnqueuedMembers(ps: seq<Pooled>, p: Pooled)
    ensures forall x :: x in Enqueue(ps, p) ==> x in ps || x == p
    ensures forall x :: x in ps ==> x in Enqueue(ps, p)
  {
    hide Ids;
  }

  lemma QueuedOne(l: Lists, p: Pooled, multi: bool, max: nat)
    requires OneObject(l) && !l.Has(p.Id())
    ensures OneObject(OrElse(Queued(l, p, multi, max), l))
  {
    hide Ids, DistinctIds, Enqueue;
    EnqueueIds(l.bundled, p);
    EnqueueIds(l.queued, p);
    EnqueueIds(l.multisignature, p);
    EnqueuedMembers(l.queued, p);
    EnqueuedMembers(l.multisignature, p);
    forall q | q in l.unconfirmed ensures q.Id() != p.Id() { IdIn(l.unconfirmed, q); }
  }

  lemma TakenOne(n: Node, l: Lists, p: Pooled, now: int, e: Settings)
    requires OneObject(l)
    ensures OneObject(OrElse(Taken(n, l, p, now, e), l))
  {
    hide OneObject, Queued, Passes, IsMulti, Ids, GroupAccount;
    if !l.Has(p.Id()) {
      QueuedOne(l, p.(receivedAt := now), false, e.max);
      QueuedOne(l, Received(p, GroupAccount(n, p.tx), now), IsMulti(n, p.tx), e.max);
    }
  }

  lemma {:induction false} AllTakenOne(n: Node, l: Lists, ps: seq<Pooled>, now: int, e: Settings)
    requires OneObject(l)
    ensures OneObject(AllTaken(n, l, ps, now, e).0)
  {
    hide OneObject, Taken;
    if ps != [] {
      AllTakenOne(n, l, ps[..|ps| - 1], now, e);
      TakenOne(n, AllTaken(n, l, ps[..|ps| - 1], now, e).0, ps[|ps| - 1], now, e);
    }
  }

  lemma UnbundledOne(n: Node, l: Lists, p: Pooled, now: int, e: Settings)
    requires OneObject(l) && p.Id() in Ids(l.bundled)
    ensures var r := Unbundled(n, l, p, now, e); OneObject(r) && Ids(r.bundled) == Ids(l.bundled) - {p.Id()}
  {
    hide Queued, Passes, IsMulti, Ids, GroupAccount, Drop, DistinctIds;
    var l1 := l.(bundled := Drop(l.bundled, p.Id()));
    DropAbsent(l.bundled, p.Id());
    if Passes(n, l, p, e) {
      var q := Received(p, GroupAccount(n, p.tx), now).(bundled := false);
      QueuedOne(l1, q, IsMulti(n, p.tx), e.max);
      BundleStays(l1, q, IsMulti(n, p.tx), e.max);
    }
  }

  lemma BundleStays(l: Lists, q: Pooled, multi: bool, max: nat)
    requires !q.bundled
    ensures OrElse(Queued(l, q, multi, max), l).bundled == l.bundled
  {
  }

  lemma {:induction false} AllUnbundledOne(n: Node, l: Lists, ps: seq<Pooled>, now: int, e: Settings)
    requires OneObject(l) && DistinctIds(ps) && Ids(ps) <= Ids(l.bundled)
    ensures var r := AllUnbundled(n, l, ps, now, e); OneObject(r) && Ids(r.bundled) == Ids(l.bundled) - Ids(ps)
  {
    hide OneObject, Unbundled, Ids, DistinctIds;
    if ps == [] {
      NoIds();
    } else {
      var pre, p := ps[..|ps| - 1], ps[|ps| - 1];
      assert pre + [p] == ps;
      IdsPush(pre, p);
      AllUnbundledOne(n, l, pre, now, e);
      UnbundledOne(n, AllUnbundled(n, l, pre, now, e), p, now, e);
    }
  }

  /** processBundled. */
  lemma BundleOne(n: Node, l: Lists, limit: nat, now: int, e: Settings)
    requires OneObject(l)
    ensures OneObject(AllUnbundled(n, l, Listed(l.bundled, true, limit), now, e))
  {
    hide DistinctIds, AllUnbundled, Listed;
    var ps := Listed(l.bundled, true, limit);
    ListedCut(l.bundled, limit);
    forall id | id in Ids(ps) ensures id in Ids(l.bundled) {
      var i :| 0 <= i < |ps| && ps[i].Id() == id;
      IdIn(l.bundled, ps[i]);
    }
    AllUnbundledOne(n, l, ps, now, e);
  }

  lemma RemovedOne(l: Lists, id: string)
    requires OneObject(l)
    ensures OneObject(Removed(l, id))
  {
    hide Ids, DistinctIds, Drop;
    DropAbsent(l.unconfirmed, id);
    DropAbsent(l.queued, id);
    DropAbsent(l.multisignature, id);
    DropSublist(l.unconfirmed, id);
    DropSublist(l.queued, id);
    DropSublist(l.multisignature, id);
  }

  lemma {:induction false} ExpiredOne(l: Lists, ps: seq<Pooled>, now: int)
    requires OneObject(l)
    ensures OneObject(Expired(l, ps, now))
  {
    hide OneObject, Removed, IsExpired;
    if ps != [] {
      ExpiredOne(l, ps[..|ps| - 1], now);
      RemovedOne(Expired(l, ps[..|ps| - 1], now), ps[|ps| - 1].Id());
    }
  }

  /** expireTransactions. */
  lemma AllExpiredOne(l: Lists, now: int)
    requires OneObject(l)
    ensures OneObject(AllExpired(l, now))
  {
    hide OneObject, Expired, Listed;
    var l1 := Expired(l, Listed(l.unconfirmed, true, 0), now);
    var l2 := Expired(l1, Listed(l1.queued, true, 0), now);
    ExpiredOne(l, Listed(l.unconfirmed, true, 0), now);
    ExpiredOne(l1, Listed(l1.queued, true, 0), now);
    ExpiredOne(l2, Listed(l2.multisignature, true, 0), now);
  }

  lemma {:induction false} RequeuedOne(n: Node, l: Lists, ps: seq<Pooled>, now: int, e: Settings)
    requires OneObject(l)
    ensures OneObject(Requeued(n, l, ps, now, e))
  {
    hide OneObject, Removed, Taken;
    if ps != [] {
      var pre, p := Requeued(n, l, ps[..|ps| - 1], now, e), ps[|ps| - 1];
      RequeuedOne(n, l, ps[..|ps| - 1], now, e);
      RemovedOne(pre, p.Id());
      TakenOne(n, Removed(pre, p.Id()), p, now, e);
    }
  }

  // ---------- promotion ----------

  /** Renewing an object that waits and is not unconfirmed. */
  lemma RenewedOne(l: Lists, p: Pooled, q: Pooled)
    requires OneObject(l) && p.Id() == q.Id() && p.Id() !in Ids(l.unconfirmed)
    ensures OneObject(Renewed(l, p, q))
    ensures (p in l.queued || p in l.multisignature) ==>
              var r := Renewed(l, p, q);
              forall x: Pooled :: (x in r.queued || x in r.multisignature) && x.Id() == p.Id() ==> x == q
  {
    hide Ids, DistinctIds, Renew;
    RenewKeeps(l.queued, p, q);
    RenewKeeps(l.multisignature, p, q);
    forall x | x in l.unconfirmed ensures x.Id() != p.Id() { IdIn(l.unconfirmed, x); }
    forall x | x in Renew(l.queued, p, q) && x.Id() == p.Id() && p in l.multisignature ensures false {
      IdIn(l.multisignature, p);
      IdIn(Renew(l.queued, p, q), x);
    }
    forall x | x in Renew(l.multisignature, p, q) && x.Id() == p.Id() && p in l.queued ensures false {
      IdIn(l.queued, p);
      IdIn(Renew(l.multisignature, p, q), x);
    }
  }

  /** The promoted entry and the one left behind are one object. */
  lemma PromotedOne(l: Lists, q: Pooled, multi: bool)
    requires OneObject(l) && q.Id() !in Ids(l.unconfirmed) && q.Id() !in Ids(l.bundled)
    requires forall x: Pooled :: (x in l.queued || x in l.multisignature) && x.Id() == q.Id() ==> x == q
    ensures OneObject(Promoted(l, q, multi))
  {
    hide Ids, DistinctIds, Drop, Enqueue;
    EnqueueIds(l.unconfirmed, q);
    EnqueuedMembers(l.unconfirmed, q);
    DropAbsent(l.queued, q.Id());
    DropAbsent(l.multisignature, q.Id());
    DropSublist(l.queued, q.Id());
    DropSublist(l.multisignature, q.Id());
  }

  /** Only what has its id is touched. */
  lemma TriedOthers(n: Node, l: Lists, p: Pooled, e: Settings)
    ensures forall x: Pooled :: (x in l.queued || x in l.multisignature) && x.Id() != p.Id() ==>
              var r := Tried(n, l, p, e).1; x in r.queued || x in r.multisignature
    ensures Tried(n, l, p, e).1.bundled == l.bundled
  {
    hide Ids, DistinctIds, Drop, UAllowed, UStep, Passes, Processed, Renew, Enqueue, IsMulti;
    var q := Processed(n, l, p);
    ProcessedIs(n, l, p);
    RenewKeeps(l.queued, p, q);
    RenewKeeps(l.multisignature, p, q);
    DropSublist(Renew(l.queued, p, q), p.Id());
    DropSublist(Renew(l.multisignature, p, q), p.Id());
  }

  lemma DequeuedOne(l: Lists, id: string)
    requires OneObject(l)
    ensures OneObject(l.(queued := Drop(l.queued, id)))
  {
    hide Ids, DistinctIds, Drop;
    DropAbsent(l.queued, id);
    DropSublist(l.queued, id);
  }

  lemma NothingRenewed(l: Lists, p: Pooled)
    ensures Renewed(l, p, p) == l
  {
    hide Renew;
    RenewNothing(l.queued, p, p);
    RenewNothing(l.multisignature, p, p);
  }

  lemma NotBundled(l: Lists, p: Pooled)
    requires OneObject(l) && (p in l.queued || p in l.multisignature)
    ensures p.Id() !in Ids(l.bundled)
  {
    hide Ids, DistinctIds;
    if p in l.queued { IdIn(l.queued, p); } else { IdIn(l.multisignature, p); }
  }

  lemma TriedOne(n: Node, l: Lists, p: Pooled, e: Settings)
    requires OneObject(l) && (p in l.queued || p in l.multisignature)
    ensures OneObject(Tried(n, l, p, e).1)
  {
    hide OneObject, Ids, Drop, UAllowed, UStep, Passes, Processed, Renewed, Promoted, IsMulti, Verified;
    var q := Processed(n, l, p);
    var l1 := Renewed(l, p, q);
    TriedIs(n, l, p, e);
    ProcessedIs(n, l, p);
    NotBundled(l, p);
    RenewedUnconfirmed(l, p, q);
    if p.Id() in Ids(l.unconfirmed) {
      UnconfirmedSame(n, l, p);
      NothingRenewed(l, p);
    } else {
      RenewedOne(l, p, q);
    }
    DequeuedOne(l1, p.Id());
    if p.Id() !in Ids(l.unconfirmed) { PromotedOne(l1, q, IsMulti(n, p.tx)); }
  }

  lemma UnconfirmedSame(n: Node, l: Lists, p: Pooled)
    requires p.Id() in Ids(l.unconfirmed)
    ensures Processed(n, l, p) == p
  {
    hide Ids;
  }

  lemma {:induction false} AllTriedOne(n: Node, l: Lists, ps: seq<Pooled>, e: Settings)
    requires OneObject(l) && DistinctIds(ps) && forall p :: p in ps ==> p in l.queued || p in l.multisignature
    ensures OneObject(AllTried(n, l, ps, e).1)
    ensures forall x: Pooled :: (x in l.queued || x in l.multisignature) && x.Id() !in Ids(ps) ==>
              var r := AllTried(n, l, ps, e).1; x in r.queued || x in r.multisignature
  {
    hide OneObject, Tried, Ids, DistinctIds;
    if ps != [] {
      var pre, p := ps[..|ps| - 1], ps[|ps| - 1];
      assert pre + [p] == ps;
      IdsPush(pre, p);
      AllTriedOne(n, l, pre, e);
      var r := AllTried(n, l, pre, e);
      TriedOne(r.0, r.1, p, e);
      TriedOthers(r.0, r.1, p, e);
    }
  }

  /** fillPool. */
  lemma FillOne(n: Node, l: Lists, e: Settings)
    requires OneObject(l)
    ensures OneObject(AllTried(n, l, Chosen(l).0 + Chosen(l).1, e).1)
  {
    hide Chosen, DistinctIds, AllTried;
    ChosenFits(l);
    ChosenDistinct(l);
    AllTriedOne(n, l, Chosen(l).0 + Chosen(l).1, e);
  }
}
