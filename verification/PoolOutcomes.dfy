/** What becomes of a transaction that is offered to the pool, tried, or waits too long (logic/transaction_pool.js). */
module PoolOutcomes {
  import opened Base
  import opened Accounts
  import opened Voting
  import opened Ledger
  import opened PoolQueues
  import opened PoolLists
  import opened PoolSteps
  import opened PoolObjects

  // ---------- taking one in ----------

  /** A transaction that is not in the pool yet and verifies, or is bundled and verified later, is put at the end of
      the list it belongs to, if that is not full: with the time of its receipt, and with an empty signature array if
      its sender has a group and it came without one. */
  lemma TakenIff(n: Node, l: Lists, p: Pooled, now: int, e: Settings)
    ensures var group := Row(n.books.accts.conf, p.tx.From()).multisignatures != multiset{};
            var tx := if !p.bundled && group && p.tx.signatures == None then p.tx.(signatures := Some(0)) else p.tx;
            var x, r := Pooled(tx, p.bundled, p.ready, now), Taken(n, l, p, now, e);
            if l.Has(p.tx.id) then r == None
            else if p.bundled then
              r == if |l.bundled| < e.max then Some(l.(bundled := l.bundled + [x])) else None
            else if !e.outside(p.tx) || !Verified(n.books.accts, e.genesisKey, p.tx) then r == None
            else if group || p.tx.asset.Multisignature? then
              r == if |l.multisignature| < e.max then Some(l.(multisignature := l.multisignature + [x])) else None
            else r == if |l.queued| < e.max then Some(l.(queued := l.queued + [x])) else None
  {
    hide Row, Verified;
  }

  // ---------- trying one ----------

  /** A waiting transaction that verifies and whose unconfirmed half is accepted becomes unconfirmed and leaves the list
      its sender's status asks for.  One that does not leaves the queued list only, so that a multisignature
      transaction goes on waiting. */
  lemma TriedOutcome(n: Node, l: Lists, p: Pooled, e: Settings)
    ensures var r, id := Tried(n, l, p, e).1, p.tx.id;
            var accepted := id !in Ids(l.unconfirmed) && e.outside(p.tx)
              && Verified(n.books.accts, e.genesisKey, p.tx) && UAllowed(n.books.accts, n.flags, p.tx, false);
            var group := Row(n.books.accts.conf, p.tx.From()).multisignatures != multiset{};
            var multi := p.tx.asset.Multisignature? || group;
            && Ids(r.unconfirmed) == Ids(l.unconfirmed) + (if accepted then {id} else {})
            && Ids(r.multisignature) == Ids(l.multisignature) - (if accepted && multi then {id} else {})
            && Ids(r.queued) == Ids(l.queued) - (if accepted && multi then {} else {id})
            && r.bundled == l.bundled
  {
    hide Ids, Verified, UAllowed, Row, Enqueue, Drop, Renew, UStep;
    var q := Processed(n, l, p);
    var l1 := Renewed(l, p, q);
    RenewKeeps(l.queued, p, q);
    RenewKeeps(l.multisignature, p, q);
    EnqueueIds(l.unconfirmed, q);
    DropAbsent(l1.queued, p.Id());
    DropAbsent(l1.multisignature, p.Id());
    SignaturesIrrelevant(n, p.tx, q.tx.signatures);
  }

  /** The unconfirmed checks do not look at the signatures. */
  lemma SignaturesIrrelevant(n: Node, tx: Transaction, signatures: Option<nat>)
    ensures UAllowed(n.books.accts, n.flags, tx.(signatures := signatures), false) ==
            UAllowed(n.books.accts, n.flags, tx, false)
  {
    hide CheckDelegates, UsernameFree, Row;
  }

  /** A bundled transaction leaves the bundle; it waits from then on if it verifies and its list is not full. */
  lemma UnbundledOutcome(n: Node, l: Lists, p: Pooled, now: int, e: Settings)
    requires OneObject(l) && p in l.bundled
    ensures var r, id := Unbundled(n, l, p, now, e), p.tx.id;
            var group := Row(n.books.accts.conf, p.tx.From()).multisignatures != multiset{};
            var multi := p.tx.asset.Multisignature? || group;
            var passes := e.outside(p.tx) && Verified(n.books.accts, e.genesisKey, p.tx);
            && Ids(r.bundled) == Ids(l.bundled) - {id} && r.unconfirmed == l.unconfirmed
            && Ids(r.multisignature) ==
               Ids(l.multisignature) + (if passes && multi && |l.multisignature| < e.max then {id} else {})
            && Ids(r.queued) == Ids(l.queued) + (if passes && !multi && |l.queued| < e.max then {id} else {})
  {
    hide Ids, Verified, Row, Enqueue, Drop;
    IdIn(l.bundled, p);
    var q := Received(p, GroupAccount(n, p.tx), now).(bundled := false);
    EnqueueIds(l.queued, q);
    EnqueueIds(l.multisignature, q);
    DropAbsent(l.bundled, p.Id());
  }

  // ---------- waiting too long ----------

  /** A group registration may wait as many hours as it says itself, any other transaction three hours, or a day when
      it collects signatures. */
  predicate Overdue(p: Pooled, now: int) {
    match p.tx.asset
    case Multisignature(_, _, hours) => now > p.receivedAt + 3600 * hours
    case _ => now > p.receivedAt + if p.tx.signatures == None then 10800 else 86400
  }

  lemma OverdueIff(p: Pooled, now: int)
    ensures IsExpired(p, now) <==> Overdue(p, now)
  {
  }

  /** The entries with other ids, in their order. */
  function Others(ps: seq<Pooled>, ids: set<string>): seq<Pooled> {
    if ps == [] then []
    else
      var pre, last := Others(ps[..|ps| - 1], ids), ps[|ps| - 1];
      if last.Id() in ids then pre else pre + [last]
  }

  /** The entries that are not overdue, in their order. */
  function InTime(ps: seq<Pooled>, now: int): seq<Pooled> {
    if ps == [] then []
    else
      var pre, last := InTime(ps[..|ps| - 1], now), ps[|ps| - 1];
      if Overdue(last, now) then pre else pre + [last]
  }

  function LateIds(ps: seq<Pooled>, now: int): set<string> {
    set i | 0 <= i < |ps| && IsExpired(ps[i], now) :: ps[i].Id()
  }

  lemma {:induction false} DropMore(ps: seq<Pooled>, ids: set<string>, id: string)
    ensures Drop(Others(ps, ids), id) == Others(ps, ids + {id})
  {
    if ps != [] {
      var pre, last := ps[..|ps| - 1], ps[|ps| - 1];
      DropMore(pre, ids, id);
      if last.Id() !in ids { assert (Others(pre, ids) + [last])[..|Others(pre, ids)|] == Others(pre, ids); }
    }
  }

  lemma {:induction false} AllOthers(ps: seq<Pooled>)
    ensures Others(ps, {}) == ps
  {
    if ps != [] {
      AllOthers(ps[..|ps| - 1]);
      assert ps == ps[..|ps| - 1] + [ps[|ps| - 1]];
    }
  }

  lemma LateStep(ps: seq<Pooled>, now: int)
    requires ps != []
    ensures var pre, last := ps[..|ps| - 1], ps[|ps| - 1];
            LateIds(ps, now) == LateIds(pre, now) + if IsExpired(last, now) then {last.Id()} else {}
  {
    hide IsExpired;
    var pre, last := ps[..|ps| - 1], ps[|ps| - 1];
    assert forall i :: 0 <= i < |pre| ==> ps[i] == pre[i];
    forall id | id in LateIds(pre, now) ensures id in LateIds(ps, now) {
      var i :| 0 <= i < |pre| && IsExpired(pre[i], now) && pre[i].Id() == id;
      assert IsExpired(ps[i], now) && ps[i].Id() == id;
    }
  }

  /** One pass takes the late ids of its list out of all three. */
  lemma {:induction false} ExpiredOthers(l: Lists, m: Lists, ids: set<string>, ps: seq<Pooled>, now: int)
    requires m == l.(unconfirmed := Others(l.unconfirmed, ids), queued := Others(l.queued, ids),
                     multisignature := Others(l.multisignature, ids))
    ensures var all := ids + LateIds(ps, now);
            Expired(m, ps, now) ==
              l.(unconfirmed := Others(l.unconfirmed, all), queued := Others(l.queued, all),
                 multisignature := Others(l.multisignature, all))
  {
    hide IsExpired, Others, Drop;
    if ps == [] {
      assert ids + LateIds(ps, now) == ids;
    } else {
      var pre, last := ps[..|ps| - 1], ps[|ps| - 1];
      ExpiredOthers(l, m, ids, pre, now);
      LateStep(ps, now);
      var some := ids + LateIds(pre, now);
      if IsExpired(last, now) {
        DropMore(l.unconfirmed, some, last.Id());
        DropMore(l.queued, some, last.Id());
        DropMore(l.multisignature, some, last.Id());
        assert ids + LateIds(ps, now) == some + {last.Id()};
      } else {
        assert ids + LateIds(ps, now) == some;
      }
    }
  }

  /** Taking out late ids is taking out the late entries, where an id stands for one entry. */
  lemma {:induction false} OthersInTime(ps: seq<Pooled>, ids: set<string>, now: int)
    requires forall p :: p in ps ==> (p.Id() in ids <==> IsExpired(p, now))
    ensures Others(ps, ids) == InTime(ps, now)
  {
    hide IsExpired, Overdue;
    if ps != [] {
      OverdueIff(ps[|ps| - 1], now);
      OthersInTime(ps[..|ps| - 1], ids, now);
    }
  }

  lemma LateIn(ps: seq<Pooled>, now: int, p: Pooled)
    requires p in ps && DistinctIds(ps)
    ensures p.Id() in LateIds(Listed(ps, true, 0), now) <==> IsExpired(p, now)
  {
    hide IsExpired, Listed;
    SameMembers(ps);
    var r := Listed(ps, true, 0);
    var k :| 0 <= k < |r| && r[k] == p;
    if i :| 0 <= i < |r| && IsExpired(r[i], now) && r[i].Id() == p.Id() { assert i == k; }
  }

  lemma LateFrom(ps: seq<Pooled>, now: int, id: string)
    requires DistinctIds(ps) && id in LateIds(Listed(ps, true, 0), now)
    ensures exists p :: p in ps && p.Id() == id && IsExpired(p, now)
  {
    hide IsExpired, Listed;
    SameMembers(ps);
    var r := Listed(ps, true, 0);
    var i :| 0 <= i < |r| && IsExpired(r[i], now) && r[i].Id() == id;
    assert r[i] in ps;
  }

  lemma {:induction false} OthersMembers(ps: seq<Pooled>, ids: set<string>)
    ensures forall p :: p in Others(ps, ids) <==> p in ps && p.Id() !in ids
    ensures DistinctIds(ps) ==> DistinctIds(Others(ps, ids))
  {
    hide DistinctIds;
    if ps != [] {
      var pre, last := ps[..|ps| - 1], ps[|ps| - 1];
      assert ps == pre + [last];
      OthersMembers(pre, ids);
      IdsPush(pre, last);
      IdsPush(Others(pre, ids), last);
      if DistinctIds(ps) { NotAgain(pre, Others(pre, ids), last); }
      NothingDistinct();
    } else {
      NothingDistinct();
    }
  }

  lemma NothingDistinct()
    ensures DistinctIds([])
  {
  }

  lemma NotAgain(ps: seq<Pooled>, qs: seq<Pooled>, p: Pooled)
    requires p.Id() !in Ids(ps) && forall q :: q in qs ==> q in ps
    ensures p.Id() !in Ids(qs)
  {
    if i :| 0 <= i < |qs| && qs[i].Id() == p.Id() {
      assert qs[i] in ps;
      IdIn(ps, qs[i]);
    }
  }

  /** One id in two places is one object. */
  lemma OneOf(l: Lists, p: Pooled, q: Pooled)
    requires OneObject(l) && p.Id() == q.Id()
    requires p in l.unconfirmed || p in l.queued || p in l.multisignature
    requires q in l.unconfirmed || q in l.queued || q in l.multisignature
    ensures p == q
  {
    hide Ids;
    if p in l.queued { IdIn(l.queued, p); }
    if p in l.multisignature { IdIn(l.multisignature, p); }
    if q in l.queued { IdIn(l.queued, q); }
    if q in l.multisignature { IdIn(l.multisignature, q); }
  }

  /** What the three passes of expireTransactions take out: the ids of late entries, wherever those are. */
  lemma ExpiredIds(l: Lists, now: int) returns (ids: set<string>)
    requires OneObject(l)
    ensures AllExpired(l, now) ==
              l.(unconfirmed := Others(l.unconfirmed, ids), queued := Others(l.queued, ids),
                 multisignature := Others(l.multisignature, ids))
    ensures forall p :: p in l.unconfirmed || p in l.queued || p in l.multisignature ==>
              (p.Id() in ids <==> IsExpired(p, now))
  {
    hide IsExpired, Others, LateIds, Listed, Expired, Ids, DistinctIds, OneObject;
    Apart(l);
    AllOthers(l.unconfirmed);
    AllOthers(l.queued);
    AllOthers(l.multisignature);
    var a := LateIds(Listed(l.unconfirmed, true, 0), now);
    ExpiredOthers(l, l, {}, Listed(l.unconfirmed, true, 0), now);
    assert {} + a == a;
    var qs := Others(l.queued, a);
    OthersMembers(l.queued, a);
    var b := LateIds(Listed(qs, true, 0), now);
    ExpiredOthers(l, Expired(l, Listed(l.unconfirmed, true, 0), now), a, Listed(qs, true, 0), now);
    var ms := Others(l.multisignature, a + b);
    OthersMembers(l.multisignature, a + b);
    var c := LateIds(Listed(ms, true, 0), now);
    ExpiredOthers(l, Expired(Expired(l, Listed(l.unconfirmed, true, 0), now), Listed(qs, true, 0), now), a + b,
                  Listed(ms, true, 0), now);
    ids := a + b + c;
    forall p | p in l.unconfirmed || p in l.queued || p in l.multisignature
      ensures p.Id() in ids <==> IsExpired(p, now)
    {
      if p.Id() in ids {
        if p.Id() in a {
          LateFrom(l.unconfirmed, now, p.Id());
        } else if p.Id() in b {
          LateFrom(qs, now, p.Id());
        } else {
          LateFrom(ms, now, p.Id());
        }
        var q: Pooled :| (q in l.unconfirmed || q in l.queued || q in l.multisignature)
          && q.Id() == p.Id() && IsExpired(q, now);
        OneOf(l, p, q);
      } else if IsExpired(p, now) {
        if p in l.unconfirmed {
          LateIn(l.unconfirmed, now, p);
        } else if p in l.queued {
          LateIn(qs, now, p);
        } else {
          LateIn(ms, now, p);
        }
      }
    }
  }

  lemma Apart(l: Lists)
    requires OneObject(l)
    ensures DistinctIds(l.unconfirmed) && DistinctIds(l.queued) && DistinctIds(l.multisignature)
  {
  }

  /** So exactly what is overdue leaves, from each of the three lists; all else stays, in its order. */
  lemma ExpiryIs(l: Lists, now: int)
    requires OneObject(l)
    ensures AllExpired(l, now) == l.(unconfirmed := InTime(l.unconfirmed, now), queued := InTime(l.queued, now),
                                     multisignature := InTime(l.multisignature, now))
  {
    hide *;
    var ids := ExpiredIds(l, now);
    OthersInTime(l.unconfirmed, ids, now);
    OthersInTime(l.queued, ids, now);
    OthersInTime(l.multisignature, ids, now);
  }
}
