/**
  The four lists of the pool over every run of a node: each id is in one list only, once, waiting where its
  sender's status puts it, and no list is over its limit, as long as no block changes that status of a
  transaction that waits.
 */
module PoolRuns {
  import opened Base
  import opened Accounts
  import opened Payouts
  import opened Ledger
  import opened Storage
  import opened Steps
  import opened Rollback
  import opened PopBlocks
  import opened Landing
  import opened History
  import opened PoolQueues
  import opened PoolLists
  import opened PoolBalances
  import opened PoolUndoing
  import opened PoolSteps
  import opened ForkChoice
  import opened ChainSteps
  import opened SystemRuns
  import opened SystemActions
  import opened TransactionPools
  import LastIds

  /** Each list has each id once, no id is in two lists, the limits hold, and everything waits in its place. */
  ghost predicate Orderly(n: Node, l: Lists, max: nat) {
    l.Distinct() && l.Within(max) && l.Disjoint() && Placed(n, l)
  }

  lemma OrderlyByConf(n: Node, m: Node, l: Lists, max: nat)
    requires n.books.accts.conf == m.books.accts.conf
    ensures Orderly(n, l, max) <==> Orderly(m, l, max)
  {
    hide Placed;
    PlacedByConf(n, m, l);
  }

  // ---------- what each operation keeps ----------

  lemma QueuedOrderly(n: Node, l: Lists, p: Pooled, multi: bool, max: nat)
    requires Orderly(n, l, max) && !l.Has(p.Id()) && (p.bundled || multi == IsMulti(n, p.tx))
    ensures Orderly(n, OrElse(Queued(l, p, multi, max), l), max)
  {
    hide Queued, Placed, IsMulti, Ids, DistinctIds;
    var r := Queued(l, p, multi, max);
    if r.Some? {
      QueuedKeeps(l, p, multi, max);
      QueuedPlaced(n, l, p, multi, max);
    }
  }

  lemma TakenOrderly(n: Node, l: Lists, p: Pooled, now: int, e: Settings)
    requires Orderly(n, l, e.max)
    ensures Orderly(n, OrElse(Taken(n, l, p, now, e), l), e.max)
  {
    hide Orderly, Queued, Passes, IsMulti, Ids, GroupAccount;
    if !l.Has(p.Id()) {
      if p.bundled {
        QueuedOrderly(n, l, p.(receivedAt := now), false, e.max);
      } else if Passes(n, l, p, e) {
        ReceivedSame(n, p, now);
        QueuedOrderly(n, l, Received(p, GroupAccount(n, p.tx), now), IsMulti(n, p.tx), e.max);
      }
    }
  }

  lemma ReceivedSame(n: Node, p: Pooled, now: int)
    ensures var q := Received(p, GroupAccount(n, p.tx), now);
            q.Id() == p.Id() && q.bundled == p.bundled && (IsMulti(n, q.tx) <==> IsMulti(n, p.tx))
  {
    MultiIs(n, p, GroupAccount(n, p.tx), now);
  }

  lemma {:induction false} AllTakenOrderly(n: Node, l: Lists, ps: seq<Pooled>, now: int, e: Settings)
    requires Orderly(n, l, e.max)
    ensures Orderly(n, AllTaken(n, l, ps, now, e).0, e.max)
  {
    hide Orderly, Taken;
    if ps != [] {
      AllTakenOrderly(n, l, ps[..|ps| - 1], now, e);
      TakenOrderly(n, AllTaken(n, l, ps[..|ps| - 1], now, e).0, ps[|ps| - 1], now, e);
    }
  }

  lemma UnbundledOrderly(n: Node, l: Lists, p: Pooled, now: int, e: Settings)
    requires Orderly(n, l, e.max) && p.Id() in Ids(l.bundled)
    ensures var r := Unbundled(n, l, p, now, e); Orderly(n, r, e.max) && Ids(r.bundled) == Ids(l.bundled) - {p.Id()}
  {
    hide Queued, Passes, IsMulti, Ids, GroupAccount, Drop, Placed, DistinctIds, Received;
    var l1 := l.(bundled := Drop(l.bundled, p.Id()));
    DropAbsent(l.bundled, p.Id());
    UnbundledKeeps(n, l, p.Id());
    if Passes(n, l, p, e) {
      ReceivedSame(n, p, now);
      hide Orderly;
      var q := Received(p, GroupAccount(n, p.tx), now).(bundled := false);
      QueuedOrderly(n, l1, q, IsMulti(n, p.tx), e.max);
      if Queued(l1, q, IsMulti(n, p.tx), e.max).Some? { QueuedOutside(l1, q, IsMulti(n, p.tx), e.max); }
    }
  }

  lemma {:induction false} AllUnbundledOrderly(n: Node, l: Lists, ps: seq<Pooled>, now: int, e: Settings)
    requires Orderly(n, l, e.max) && DistinctIds(ps) && Ids(ps) <= Ids(l.bundled)
    ensures var r := AllUnbundled(n, l, ps, now, e); Orderly(n, r, e.max) && Ids(r.bundled) == Ids(l.bundled) - Ids(ps)
  {
    hide Orderly, Unbundled, Ids, DistinctIds;
    if ps == [] {
      NoIds();
    } else {
      var pre, p := ps[..|ps| - 1], ps[|ps| - 1];
      assert pre + [p] == ps;
      IdsPush(pre, p);
      AllUnbundledOrderly(n, l, pre, now, e);
      UnbundledOrderly(n, AllUnbundled(n, l, pre, now, e), p, now, e);
    }
  }

  lemma RemovedOrderly(n: Node, l: Lists, id: string, max: nat)
    requires Orderly(n, l, max)
    ensures Orderly(n, Removed(l, id), max)
  {
    hide Placed, Ids, DistinctIds, Removed;
    RemovedKeeps(l, id, max);
    RemovedPlaced(n, l, id);
  }

  lemma {:induction false} ExpiredOrderly(n: Node, l: Lists, ps: seq<Pooled>, now: int, max: nat)
    requires Orderly(n, l, max)
    ensures Orderly(n, Expired(l, ps, now), max)
  {
    hide Orderly, Removed, IsExpired;
    if ps != [] {
      ExpiredOrderly(n, l, ps[..|ps| - 1], now, max);
      RemovedOrderly(n, Expired(l, ps[..|ps| - 1], now), ps[|ps| - 1].Id(), max);
    }
  }

  lemma {:induction false} RequeuedOrderly(n: Node, l: Lists, ps: seq<Pooled>, now: int, e: Settings)
    requires Orderly(n, l, e.max)
    ensures Orderly(n, Requeued(n, l, ps, now, e), e.max)
  {
    hide Orderly, Removed, Taken;
    if ps != [] {
      var pre, p := Requeued(n, l, ps[..|ps| - 1], now, e), ps[|ps| - 1];
      RequeuedOrderly(n, l, ps[..|ps| - 1], now, e);
      RemovedOrderly(n, pre, p.Id(), e.max);
      TakenOrderly(n, Removed(pre, p.Id()), p, now, e);
    }
  }

  lemma {:induction false} AllRemovedOrderly(n: Node, l: Lists, txs: seq<Transaction>, max: nat)
    requires Orderly(n, l, max)
    ensures Orderly(n, AllRemoved(l, txs), max)
  {
    hide Orderly, Removed;
    if txs != [] {
      AllRemovedOrderly(n, l, txs[..|txs| - 1], max);
      RemovedOrderly(n, AllRemoved(l, txs[..|txs| - 1]), txs[|txs| - 1].id, max);
    }
  }

  /** Trying a waiting transaction while there is room. */
  lemma TriedOrderly(n: Node, l: Lists, p: Pooled, e: Settings)
    requires Orderly(n, l, e.max) && (p in l.queued || p in l.multisignature)
    requires |l.unconfirmed| < MAX_TRANSACTIONS_PER_BLOCK
    ensures var r := Tried(n, l, p, e);
            && Orderly(r.0, r.1, e.max) && |r.1.unconfirmed| <= |l.unconfirmed| + 1
            && r.0.books.accts.conf == n.books.accts.conf
    ensures forall q :: (q in l.queued || q in l.multisignature) && q.Id() != p.Id() ==>
              var r := Tried(n, l, p, e); q in r.1.queued || q in r.1.multisignature
  {
    hide Placed, IsMulti, Ids, DistinctIds, Drop, UAllowed, Verified, UStep, Passes, Processed, Renewed, Enqueue;
    var q := Processed(n, l, p);
    var l1 := Renewed(l, p, q);
    var multi := IsMulti(n, p.tx);
    TriedIs(n, l, p, e);
    ProcessedIs(n, l, p);
    RenewedOrderly(n, l, p, e.max);
    RenewedKeeps(l, p, q, e.max);
    RenewedUnconfirmed(l, p, q);
    DropSublist(l1.queued, p.Id());
    DropSublist(l1.multisignature, p.Id());
    if Passes(n, l, p, e) && UAllowed(n.books.accts, n.flags, q.tx, false) {
      UStepConf(n, q.tx);
      PromotedIn(n, l1, q, q, multi, e.max);
      OrderlyByConf(UStep(n, q.tx), n, Promoted(l1, q, multi), e.max);
      PromotedUnconfirmed(l1, q, multi);
    } else {
      DropAbsent(l1.queued, p.Id());
      DequeuedDisjoint(l1, p.Id());
      DequeuedPlaced(n, l1, p.Id());
    }
  }

  lemma RenewedOrderly(n: Node, l: Lists, p: Pooled, max: nat)
    requires Orderly(n, l, max)
    ensures Orderly(n, Renewed(l, p, Processed(n, l, p)), max)
  {
    hide Placed, Ids, DistinctIds, Processed, Renewed;
    ProcessedIs(n, l, p);
    RenewedKeeps(l, p, Processed(n, l, p), max);
    RenewedPlaced(n, l, p);
  }

  lemma WaitingIn(l: Lists, p: Pooled)
    requires p in l.queued || p in l.multisignature
    ensures p.Id() in Ids(l.queued) || p.Id() in Ids(l.multisignature)
  {
    hide Ids;
    if p in l.queued { IdIn(l.queued, p); } else { IdIn(l.multisignature, p); }
  }

  lemma PromotedIn(n: Node, l: Lists, q: Pooled, p: Pooled, multi: bool, max: nat)
    requires Orderly(n, l, max) && (p in l.queued || p in l.multisignature) && q.Id() == p.Id()
    requires (multi <==> IsMulti(n, p.tx)) && |l.unconfirmed| < MAX_TRANSACTIONS_PER_BLOCK
    ensures Orderly(n, Promoted(l, q, multi), max)
  {
    hide Placed, IsMulti, Ids, DistinctIds, Promoted;
    WaitingIn(l, p);
    PromotedPlaced(n, l, q, p, multi, max);
    PromotedKeeps(l, q, multi, max);
  }

  lemma {:induction false} AllTriedOrderly(n: Node, l: Lists, ps: seq<Pooled>, e: Settings)
    requires Orderly(n, l, e.max) && DistinctIds(ps) && forall p :: p in ps ==> p in l.queued || p in l.multisignature
    requires |l.unconfirmed| + |ps| <= MAX_TRANSACTIONS_PER_BLOCK
    ensures var r := AllTried(n, l, ps, e);
            Orderly(r.0, r.1, e.max) && |r.1.unconfirmed| <= |l.unconfirmed| + |ps|
    ensures forall q :: (q in l.queued || q in l.multisignature) && q.Id() !in Ids(ps) ==>
              var r := AllTried(n, l, ps, e); q in r.1.queued || q in r.1.multisignature
  {
    hide Orderly, Tried, Ids, DistinctIds;
    if ps != [] {
      var pre, p := ps[..|ps| - 1], ps[|ps| - 1];
      assert pre + [p] == ps;
      IdsPush(pre, p);
      AllTriedOrderly(n, l, pre, e);
      var r := AllTried(n, l, pre, e);
      TriedOrderly(r.0, r.1, p, e);
    }
  }

  lemma FillOrderly(n: Node, l: Lists, e: Settings)
    requires Orderly(n, l, e.max)
    ensures var r := AllTried(n, l, Chosen(l).0 + Chosen(l).1, e); Orderly(r.0, r.1, e.max)
  {
    hide Chosen, Placed, Ids, DistinctIds, AllTried;
    var ps := Chosen(l).0 + Chosen(l).1;
    ChosenFits(l);
    ChosenDistinct(l);
    if Chosen(l) == ([], []) {
      NoneTried(n, l, ps, e);
    } else {
      AllTriedOrderly(n, l, ps, e);
    }
  }

  lemma NoneTried(n: Node, l: Lists, ps: seq<Pooled>, e: Settings)
    requires ps == []
    ensures AllTried(n, l, ps, e) == (n, l)
  {
  }

  // ---------- blocks ----------

  /** No waiting transaction's sender became or stopped being a multisignature account. */
  ghost predicate StatusKept(n: Node, m: Node, l: Lists) {
    && (forall i :: 0 <= i < |l.queued| ==> (IsMulti(n, l.queued[i].tx) <==> IsMulti(m, l.queued[i].tx)))
    && (forall i :: 0 <= i < |l.multisignature| ==>
          (IsMulti(n, l.multisignature[i].tx) <==> IsMulti(m, l.multisignature[i].tx)))
  }

  /** That is exactly when lists in order stay in order. */
  lemma StatusKeptIff(n: Node, m: Node, l: Lists, max: nat)
    requires Orderly(n, l, max)
    ensures Orderly(m, l, max) <==> StatusKept(n, m, l)
  {
    hide IsMulti;
  }

  /** The lists that a move leaves are in order when it changes no status of what waits: after a block, before its
      transactions are taken from the lists' point of view; after a deletion, before the block's are offered. */
  ghost predicate Steady(s: Chained, m: Move, e: Circumstances)
    requires e.rewards.Valid() && |s.node.blocks| > 0
  {
    match m
    case Process(b) => StatusKept(s.node, Processing(s, b, e).0.node, Processing(s, b, e).0.pool)
    case Delete => StatusKept(s.node, PopBlock(s.node).node, s.pool)
    case _ => true
  }

  lemma ProcessOrderly(s: Chained, b: Block, e: Circumstances)
    requires e.rewards.Valid() && |s.node.blocks| > 0 && Orderly(s.node, s.pool, e.settings.max)
    requires StatusKept(s.node, Processing(s, b, e).0.node, Processing(s, b, e).0.pool)
    ensures Orderly(Processing(s, b, e).0.node, Processing(s, b, e).0.pool, e.settings.max)
  {
    hide Orderly, StatusKept, ApplyBlock, UndoneList, BlockPasses, Requeued, AllRemoved, LastIds.PushId;
    var l := Requeued(s.node, s.pool, s.pool.unconfirmed, e.now, e.settings);
    RequeuedOrderly(s.node, s.pool, s.pool.unconfirmed, e.now, e.settings);
    AllRemovedOrderly(s.node, l, b.transactions, e.settings.max);
    var r := Processing(s, b, e).0;
    StatusKeptIff(s.node, r.node, r.pool, e.settings.max);
  }

  lemma DeleteOrderly(s: Chained, e: Circumstances)
    requires |s.node.blocks| > 0 && Orderly(s.node, s.pool, e.settings.max)
    requires StatusKept(s.node, PopBlock(s.node).node, s.pool)
    ensures Orderly(Deleting(s, e).0.node, Deleting(s, e).0.pool, e.settings.max)
  {
    hide Orderly, StatusKept, PopBlock, AllTaken, Offered;
    var p := PopBlock(s.node);
    StatusKeptIff(s.node, p.node, s.pool, e.settings.max);
    AllTakenOrderly(p.node, s.pool, Offered(Head(s.node.blocks).transactions, e.now), e.now, e.settings);
  }

  // ---------- whole runs ----------

  /** The deletions and blocks of one action. */
  ghost predicate SteadyMoves(s: Chained, ms: seq<Move>, e: Circumstances)
    requires e.rewards.Valid() && |s.node.blocks| > 0
  {
    ms == [] || (
      var pre, m := ms[..|ms| - 1], ms[|ms| - 1];
      && SteadyMoves(s, pre, e)
      && (m.Process? || m.Delete?) && Steady(AfterMoves(s, With(pre, e)), m, e))
  }

  lemma {:induction false} MovesOrderly(s: Chained, ms: seq<Move>, e: Circumstances)
    requires e.rewards.Valid() && |s.node.blocks| > 0 && Orderly(s.node, s.pool, e.settings.max)
    requires SteadyMoves(s, ms, e)
    ensures var t := AfterMoves(s, With(ms, e)); Orderly(t.node, t.pool, e.settings.max)
  {
    hide Orderly, StatusKept, AfterMoves, With, Processing, Deleting;
    if ms == [] {
      NoMove(s, e);
    } else {
      var pre, m := ms[..|ms| - 1], ms[|ms| - 1];
      var t := AfterMoves(s, With(pre, e));
      MovesOrderly(s, pre, e);
      assert pre + [m] == ms;
      TwoParts(s, pre, [m], e);
      OneMove(t, m, e);
      MovedIs(t, m, e);
      match m
      case Process(b) => ProcessOrderly(t, b, e);
      case Delete => DeleteOrderly(t, e);
    }
  }

  /** An action whose blocks and deletions change no status of what waits. */
  ghost predicate SteadyAction(s: Chained, a: Action, e: Circumstances)
    requires e.rewards.Valid() && |s.node.blocks| > 0
  {
    a.Take? || a.Unbundle? || a.Fill? || a.Expire? || SteadyMoves(s, MovesOf(s, a, e), e)
  }

  lemma UnbundleOrderly(n: Node, l: Lists, limit: nat, now: int, e: Settings)
    requires Orderly(n, l, e.max)
    ensures Orderly(n, AllUnbundled(n, l, Listed(l.bundled, true, limit), now, e), e.max)
  {
    hide Placed, DistinctIds, AllUnbundled, Listed;
    var ps := Listed(l.bundled, true, limit);
    ListedCut(l.bundled, limit);
    forall id | id in Ids(ps) ensures id in Ids(l.bundled) {
      var i :| 0 <= i < |ps| && ps[i].Id() == id;
      IdIn(l.bundled, ps[i]);
    }
    AllUnbundledOrderly(n, l, ps, now, e);
  }

  lemma ExpireOrderly(n: Node, l: Lists, now: int, max: nat)
    requires Orderly(n, l, max)
    ensures Orderly(n, AllExpired(l, now), max)
  {
    hide Orderly, Expired, Listed;
    var l1 := Expired(l, Listed(l.unconfirmed, true, 0), now);
    var l2 := Expired(l1, Listed(l1.queued, true, 0), now);
    ExpiredOrderly(n, l, Listed(l.unconfirmed, true, 0), now, max);
    ExpiredOrderly(n, l1, Listed(l1.queued, true, 0), now, max);
    ExpiredOrderly(n, l2, Listed(l2.multisignature, true, 0), now, max);
  }

  lemma {:induction false} UndoneExpiredConf(n: Node, ps: seq<Pooled>, now: int)
    ensures UndoneExpired(n, ps, now).books.accts.conf == n.books.accts.conf
  {
    hide UndoneOne, IsExpired;
    if ps != [] {
      UndoneExpiredConf(n, ps[..|ps| - 1], now);
      UndoneOneConf(UndoneExpired(n, ps[..|ps| - 1], now), ps[|ps| - 1].tx);
    }
  }

  lemma ActionOrderly(s: Chained, a: Action, e: Circumstances)
    requires e.rewards.Valid() && |s.node.blocks| > 0 && Orderly(s.node, s.pool, e.settings.max)
    requires DistinctIds(s.pool.unconfirmed) && SteadyAction(s, a, e)
    ensures Orderly(Acted(s, a, e).node, Acted(s, a, e).pool, e.settings.max)
  {
    hide Orderly, SteadyMoves, MovesOf, AllTaken, AllUnbundled, AllTried, AllExpired, Chosen, Listed, UndoneExpired,
         Receiving, Processing, Deleting, OwnChain, AfterMoves, With, DistinctIds;
    var l := s.pool;
    match a
    case Take(ps) => AllTakenOrderly(s.node, l, ps, e.now, e.settings);
    case Unbundle(limit) => UnbundleOrderly(s.node, l, limit, e.now, e.settings);
    case Fill => FillOrderly(s.node, l, e.settings);
    case Expire =>
      var ps := Listed(l.unconfirmed, true, 0);
      ExpireOrderly(s.node, l, e.now, e.settings.max);
      UndoneExpiredConf(s.node, ps, e.now);
      OrderlyByConf(s.node, UndoneExpired(s.node, ps, e.now), AllExpired(l, e.now), e.settings.max);
    case _ =>
      MovesOrderly(s, MovesOf(s, a, e), e);
      ActionIsMoves(s, a, e);
  }

  ghost predicate AllSteady(s: Chained, acts: seq<(Action, Circumstances)>, max: nat)
    requires |s.node.blocks| > 0 && forall i :: 0 <= i < |acts| ==> acts[i].1.rewards.Valid()
  {
    acts == [] || (
      var pre, a, e := acts[..|acts| - 1], acts[|acts| - 1].0, acts[|acts| - 1].1;
      AllSteady(s, pre, max) && e.settings.max == max && SteadyAction(ActedAll(s, pre), a, e))
  }

  /** Over every run of receipts, forging, pool jobs, repairs and recoveries in which no block or deletion changes the
      status of a transaction that waits: the four lists are in order in every state. */
  lemma {:induction false} ListsAlwaysOrderly(s0: Chained, acts: seq<(Action, Circumstances)>, max: nat)
    requires |s0.node.blocks| > 0 && Starts(s0) && forall i :: 0 <= i < |acts| ==> acts[i].1.rewards.Valid()
    requires Orderly(s0.node, s0.pool, max) && AllSteady(s0, acts, max)
    ensures Orderly(ActedAll(s0, acts).node, ActedAll(s0, acts).pool, max)
  {
    hide Starts, Orderly, Acted, SteadyAction, AfterMoves, DistinctIds, AllMoves;
    if acts != [] {
      var pre, a, e := acts[..|acts| - 1], acts[|acts| - 1].0, acts[|acts| - 1].1;
      ListsAlwaysOrderly(s0, pre, max);
      ActionsAreMoves(s0, pre);
      DistinctAlways(s0, AllMoves(s0, pre));
      ActionOrderly(ActedAll(s0, pre), a, e);
    }
  }
}
